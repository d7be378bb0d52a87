/**
 * The simulator loop shared by `Markov.update_simulator` in cogs/markov.py and
 * `SimThread.run` in helpers/simulation.py: a queue of user ids to speak,
 * refilled from a speaker-order model when empty and popped from the front;
 * ids that are not guild members or have no model are skipped; the speaker's
 * sentence is tried three times from the current topic (its first word
 * dropped) and once more without; every NAMES entry mentioned in the output
 * queues its id near the front; the topic becomes the output's last word, and
 * is cleared every TOPIC_RESET cycles.
 *
 * The outside world is a `World`: the speaker-order sentences, guild
 * membership, model availability, the speaker model's sentences and the
 * `random.randint(0, 2)` draws, each indexed by how many were asked for
 * before. The simulator keeps those counts next to its own state.
 */
module Simulator {
  import opened Text
  import opened OrderedDict
  import MarkovOutput
  import Mentions

  /** Sentence attempts seeded with the topic before the unconstrained one. */
  const TOPIC_ATTEMPTS: nat := 3
  /** The topic is cleared whenever the cycle count is a multiple of this. */
  const TOPIC_RESET: nat := 20

  datatype World = World(
    fill: nat -> Option<string>,
    isMember: nat -> bool,
    hasModel: string -> bool,
    gen: MarkovOutput.Generator,
    names: Dict<string, string>,
    position: nat -> nat)

  /** Python's truth value of an optional sentence. */
  predicate Truthy(x: Option<string>) {
    x.Some? && |x.value| > 0
  }

  // ---------------------------------------------------------------- choosing the speaker

  /**
   * The speaker search: a chosen id, an exception (no refill sentence, an id `int` rejects), or no
   * end. An exception keeps `next_user_member` as the last pop left it: the member of the id
   * popped just before, when that id was a member (without a model), else none.
   */
  datatype Pick = Picked(user: string) | PickRaised(member: Option<string>) | PickStalled

  /**
   * The `while not user_model` loop with at most `fuel` pops: refill when empty, pop the front,
   * and keep the id only if it is a member with a model. `last` is the id whose member
   * `next_user_member` holds, if any.
   */
  function SelectFrom(queue: seq<string>, fills: nat, w: World, fuel: nat, last: Option<string>): (seq<string>, nat, Pick)
    decreases fuel
  {
    if fuel == 0 then (queue, fills, PickStalled)
    else if |queue| == 0 && w.fill(fills).None? then (queue, fills + 1, PickRaised(last))
    else
      var q := if |queue| == 0 then Split(w.fill(fills).value, ' ') else queue;
      var f := if |queue| == 0 then fills + 1 else fills;
      match ParseNat(q[0])
      case None => (q[1..], f, PickRaised(last))
      case Some(id) =>
        if w.isMember(id) && w.hasModel(q[0]) then (q[1..], f, Picked(q[0]))
        else SelectFrom(q[1..], f, w, fuel - 1, if w.isMember(id) then Some(q[0]) else None)
  }

  /** A member without a model: popped, kept as `next_user_member`, and skipped. */
  predicate MemberWithoutModel(w: World, user: string) {
    ParseNat(user).Some? && w.isMember(ParseNat(user).value) && !w.hasModel(user)
  }

  /** An id that `int` accepts, that belongs to a member and has a model. */
  predicate Eligible(w: World, user: string) {
    ParseNat(user).Some? && w.isMember(ParseNat(user).value) && w.hasModel(user)
  }

  /** `user` sits at index `k` of `queue`, is eligible, `rest` follows it, and every id before it was parsed and skipped. */
  predicate PickedAt(w: World, queue: seq<string>, k: int, user: string, rest: seq<string>) {
    0 <= k < |queue| && queue[k] == user && Eligible(w, user) && rest == queue[k + 1..] &&
    forall j :: 0 <= j < k ==> ParseNat(queue[j]).Some? && !Eligible(w, queue[j])
  }

  /**
   * Without a refill, the chosen speaker is the first eligible id of the queue: the ids before it
   * were popped and skipped, and the queue keeps exactly what follows it.
   */
  lemma {:induction false} PickedIsFirstEligible(queue: seq<string>, fills: nat, w: World, fuel: nat, last: Option<string>)
    requires |queue| >= fuel
    ensures var (q, f, pick) := SelectFrom(queue, fills, w, fuel, last);
      f == fills &&
      (pick.Picked? ==> exists k :: PickedAt(w, queue, k, pick.user, q))
    decreases fuel
  {
    if fuel > 0 {
      var last' := if ParseNat(queue[0]).Some? && w.isMember(ParseNat(queue[0]).value) then Some(queue[0]) else None;
      PickedIsFirstEligible(queue[1..], fills, w, fuel - 1, last');
      var (q, f, pick) := SelectFrom(queue, fills, w, fuel, last);
      if Eligible(w, queue[0]) {
        assert PickedAt(w, queue, 0, queue[0], queue[1..]);
      } else if pick.Picked? {
        var (q', f', pick') := SelectFrom(queue[1..], fills, w, fuel - 1, last');
        var k :| PickedAt(w, queue[1..], k, pick'.user, q');
        assert queue[k + 1] == pick.user && queue[k + 2..] == q;
        assert forall j :: 1 <= j < k + 1 ==> queue[j] == queue[1..][j - 1];
        assert PickedAt(w, queue, k + 1, pick.user, q);
      }
    }
  }

  /**
   * A speaker chosen after any number of skips and refills is always eligible; a search that
   * raises leaves as `next_user_member` nothing, or a member without a model.
   */
  lemma {:induction false} PickedIsEligible(queue: seq<string>, fills: nat, w: World, fuel: nat, last: Option<string>)
    requires last.Some? ==> MemberWithoutModel(w, last.value)
    ensures var pick := SelectFrom(queue, fills, w, fuel, last).2;
      (pick.Picked? ==> Eligible(w, pick.user)) &&
      (pick.PickRaised? && pick.member.Some? ==> MemberWithoutModel(w, pick.member.value))
    decreases fuel
  {
    if fuel > 0 && !(|queue| == 0 && w.fill(fills).None?) {
      var q := if |queue| == 0 then Split(w.fill(fills).value, ' ') else queue;
      var f := if |queue| == 0 then fills + 1 else fills;
      if ParseNat(q[0]).Some? {
        var id := ParseNat(q[0]).value;
        if !(w.isMember(id) && w.hasModel(q[0])) {
          PickedIsEligible(q[1..], f, w, fuel - 1, if w.isMember(id) then Some(q[0]) else None);
        }
      }
    }
  }

  /** An empty queue is refilled with the space-separated words of the next speaker-order sentence before the pop. */
  lemma EmptyQueueRefilled(fills: nat, w: World, fuel: nat, last: Option<string>)
    requires fuel > 0 && w.fill(fills).Some?
    ensures SelectFrom([], fills, w, fuel, last) == SelectFrom(Split(w.fill(fills).value, ' '), fills + 1, w, fuel, last)
  {
  }

  /**
   * A member without a model followed by an id `int` rejects: the search raises with that member
   * still held, so the cycle goes on to post as them.
   */
  lemma RaiseAfterMemberKeepsIt(s: SimState, w: World, fuel: nat, user: string, bad: string)
    requires fuel > 1 && MemberWithoutModel(w, user) && ParseNat(bad).None? && s.queue == [user, bad]
    ensures SelectFrom(s.queue, s.fills, w, fuel, None) == ([], s.fills, PickRaised(Some(user)))
    ensures Cycle(s, w, fuel).1 == Failed(Some(user))
  {
    assert [user, bad][1..] == [bad] && [bad][1..] == [];
  }


  // ---------------------------------------------------------------- generating the sentence

  /** One round of the `for _ in range(3)` loop and its `else`. */
  datatype Gen = Trimmed(out: string) | Unsplit(sentence: string) | Fallback(result: Option<string>)

  /**
   * Topic-seeded attempts numbered `k` up to TOPIC_ATTEMPTS, starting at generator call `at`:
   * the first truthy sentence loses its first word (a sentence without a space is Python's
   * IndexError); when all fail, one unconstrained `generate_sentence`.
   */
  function TopicTries(gen: MarkovOutput.Generator, topic: Option<string>, at: nat, k: nat): (Gen, nat)
    decreases TOPIC_ATTEMPTS - k
  {
    if k >= TOPIC_ATTEMPTS then
      var r := MarkovOutput.Attempt(gen, None, at);
      (Fallback(r.0), r.1)
    else
      var r := MarkovOutput.Attempt(gen, topic, at);
      if Truthy(r.0) then
        (match AfterFirstSpace(r.0.value)
         case None => Unsplit(r.0.value)
         case Some(rest) => Trimmed(rest), r.1)
      else TopicTries(gen, topic, r.1, k + 1)
  }

  /** The generator call at which the `j`-th topic attempt after call `at` starts. */
  function AttemptStart(gen: MarkovOutput.Generator, topic: Option<string>, at: nat, j: nat): nat
    decreases j
  {
    if j == 0 then at else AttemptStart(gen, topic, MarkovOutput.Attempt(gen, topic, at).1, j - 1)
  }

  /** Topic attempt `j` is the first truthy one, and `out` is its sentence after the first space. */
  predicate TrimmedAt(gen: MarkovOutput.Generator, topic: Option<string>, at: nat, j: nat, out: string) {
    (forall i :: 0 <= i < j ==> !Truthy(MarkovOutput.Attempt(gen, topic, AttemptStart(gen, topic, at, i)).0)) &&
    var s := MarkovOutput.Attempt(gen, topic, AttemptStart(gen, topic, at, j)).0;
    Truthy(s) && AfterFirstSpace(s.value) == Some(out)
  }

  /**
   * A trimmed output comes from the first truthy topic attempt, without its first word; the
   * fallback comes only after every remaining topic attempt failed, and is exactly one
   * unconstrained attempt.
   */
  lemma {:induction false} TopicTriesFacts(gen: MarkovOutput.Generator, topic: Option<string>, at: nat, k: nat)
    requires k <= TOPIC_ATTEMPTS
    ensures var (g, next) := TopicTries(gen, topic, at, k);
      var n := TOPIC_ATTEMPTS - k;
      (g.Fallback? ==>
        (forall j :: 0 <= j < n ==> !Truthy(MarkovOutput.Attempt(gen, topic, AttemptStart(gen, topic, at, j)).0)) &&
        (g.result, next) == MarkovOutput.Attempt(gen, None, AttemptStart(gen, topic, at, n))) &&
      (g.Trimmed? ==> exists j :: 0 <= j < n && TrimmedAt(gen, topic, at, j, g.out))
    decreases TOPIC_ATTEMPTS - k
  {
    if k < TOPIC_ATTEMPTS {
      var r := MarkovOutput.Attempt(gen, topic, at);
      if !Truthy(r.0) {
        TopicTriesFacts(gen, topic, r.1, k + 1);
        var (g, next) := TopicTries(gen, topic, at, k);
        var n := TOPIC_ATTEMPTS - k;
        assert forall j :: 1 <= j <= n ==> AttemptStart(gen, topic, at, j) == AttemptStart(gen, topic, r.1, j - 1);
        if g.Trimmed? {
          var j :| 0 <= j < n - 1 && TrimmedAt(gen, topic, r.1, j, g.out);
          assert AttemptStart(gen, topic, at, j + 1) == AttemptStart(gen, topic, r.1, j);
          assert TrimmedAt(gen, topic, at, j + 1, g.out);
        }
      } else {
        assert AttemptStart(gen, topic, at, 0) == at;
        var g := TopicTries(gen, topic, at, k).0;
        if g.Trimmed? {
          assert TrimmedAt(gen, topic, at, 0, g.out);
        }
      }
    }
  }

  /** One concrete instance of TopicTriesFacts: even without a topic, a sentence from the
      three attempts loses its first word (TopicTriesFacts states this for every topic). */
  lemma FirstWordDropped(gen: MarkovOutput.Generator, at: nat)
    requires gen(None, at) == Some("hello there world")
    ensures TopicTries(gen, None, at, 0).0 == Trimmed("there world")
  {
    assert MarkovOutput.SentenceFrom(gen, None, at, at + MarkovOutput.MAX_MARKOV_ATTEMPTS) == (Some("hello there world"), at + 1);
    assert "hello there world"[5] == ' ';
    assert IndexOf("hello there world", ' ') == 5;
  }

  /** `for _ in range(3): ... else: ...` as a loop over the attempts. */
  method GenerateOnce(gen: MarkovOutput.Generator, topic: Option<string>, at: nat) returns (g: Gen, next: nat)
    ensures (g, next) == TopicTries(gen, topic, at, 0)
  {
    next := at;
    var k := 0;
    while k < TOPIC_ATTEMPTS
      invariant 0 <= k <= TOPIC_ATTEMPTS
      invariant TopicTries(gen, topic, next, k) == TopicTries(gen, topic, at, 0)
    {
      var out;
      out, next := MarkovOutput.GenerateSentence(gen, topic, next);
      if Truthy(out) {
        var rest := AfterFirstSpace(out.value);
        if rest.None? {
          return Unsplit(out.value), next;
        }
        return Trimmed(rest.value), next;
      }
      k := k + 1;
    }
    var out;
    out, next := MarkovOutput.GenerateSentence(gen, None, next);
    g := Fallback(out);
  }

  /** The `while not out` loop once a speaker is chosen: a non-empty text, the IndexError, or no end. */
  datatype Outcome = Out(text: string) | GenRaised(sentence: string) | GenStalled

  function GenLoop(gen: MarkovOutput.Generator, topic: Option<string>, at: nat, fuel: nat): (r: (Outcome, nat))
    ensures r.0.Out? ==> |r.0.text| > 0
    decreases fuel
  {
    if fuel == 0 then (GenStalled, at)
    else
      var (g, next) := TopicTries(gen, topic, at, 0);
      match g
      case Unsplit(s) => (GenRaised(s), next)
      case Trimmed(t) => if |t| > 0 then (Out(t), next) else GenLoop(gen, topic, next, fuel - 1)
      case Fallback(x) => if Truthy(x) then (Out(x.value), next) else GenLoop(gen, topic, next, fuel - 1)
  }

  // ---------------------------------------------------------------- queue insertions and topic

  /** `list.insert(i, x)`: an index past the end appends. */
  function InsertAt(q: seq<string>, i: nat, x: string): (r: seq<string>)
    ensures |r| == |q| + 1
    ensures var at := if i < |q| then i else |q|;
      r[at] == x && r[..at] == q[..at] && r[at + 1..] == q[at..]
    ensures multiset(r) == multiset(q) + multiset{x}
  {
    var at := if i < |q| then i else |q|;
    assert q == q[..at] + q[at..];
    q[..at] + [x] + q[at..]
  }

  /** The ids of the NAMES entries whose name occurs in the output, in NAMES order. */
  function Mentioned(names: Dict<string, string>, out: string): seq<string> {
    if |names| == 0 then []
    else (if Contains(out, names[0].1) then [names[0].0] else []) + Mentioned(names[1..], out)
  }

  /** `for userid, name in NAMES.items(): if name in out: queue.insert(random.randint(0, 2), userid)` */
  function InsertNames(q: seq<string>, names: Dict<string, string>, out: string, position: nat -> nat, draws: nat): (seq<string>, nat)
    decreases |names|
  {
    if |names| == 0 then (q, draws)
    else if Contains(out, names[0].1) then InsertNames(InsertAt(q, position(draws), names[0].0), names[1..], out, position, draws + 1)
    else InsertNames(q, names[1..], out, position, draws)
  }

  /** The queue gains exactly the mentioned ids, one random draw each, and keeps every id it had. */
  lemma {:induction false} InsertNamesFacts(q: seq<string>, names: Dict<string, string>, out: string, position: nat -> nat, draws: nat)
    ensures var (r, d) := InsertNames(q, names, out, position, draws);
      multiset(r) == multiset(q) + multiset(Mentioned(names, out)) &&
      d == draws + |Mentioned(names, out)| && |r| == |q| + |Mentioned(names, out)|
    decreases |names|
  {
    if |names| > 0 {
      if Contains(out, names[0].1) {
        InsertNamesFacts(InsertAt(q, position(draws), names[0].0), names[1..], out, position, draws + 1);
      } else {
        InsertNamesFacts(q, names[1..], out, position, draws);
      }
    }
  }

  /** The mention pass looks at `out[0].split(' ')`, a single character, so it never finds a `<@` tag. */
  lemma MentionPassFindsNothing(out: string)
    requires |out| > 0
    ensures Mentions.Tags(out[..1]) == {}
  {
    var c := out[..1];
    if c[0] == ' ' {
      assert Split(c, ' ') == ["", ""];
    } else {
      assert c[1..] == "" && [c[0]] == c;
      assert Split(c[1..], ' ') == [""];
      assert [c[0]] + "" == c;
      assert Split(c, ' ') == [c];
    }
  }

  /** `out.split()[-1]`; `None` is the IndexError of an output that is all whitespace. */
  function LastWord(out: string): (r: Option<string>)
    ensures r.Some? ==> |r.value| > 0 && forall j :: 0 <= j < |r.value| ==> !IsSpace(r.value[j])
    ensures r.None? <==> forall j :: 0 <= j < |out| ==> IsSpace(out[j])
  {
    var ws := Words(out);
    WordsAreWords(out);
    WordsEmpty(out);
    if |ws| == 0 then None else Some(ws[|ws| - 1])
  }

  /** A word without whitespace splits to itself. */
  lemma {:induction false} WordsOfWord(w: string)
    requires |w| > 0 && forall j :: 0 <= j < |w| ==> !IsSpace(w[j])
    ensures Words(w) == [w]
  {
    if |w| > 1 {
      WordsOfWord(w[1..]);
      assert [w[0]] + w[1..] == w;
    } else {
      assert [w[0]] == w;
    }
  }

  /** `(s + ' ' + w).split()` is the words of `s` followed by `w`. */
  lemma {:induction false} WordsAppend(s: string, w: string)
    requires |w| > 0 && forall j :: 0 <= j < |w| ==> !IsSpace(w[j])
    ensures Words(s + " " + w) == Words(s) + [w]
  {
    var t := s + " " + w;
    if |s| == 0 {
      assert t[1..] == w;
      WordsOfWord(w);
    } else {
      assert t[1..] == s[1..] + " " + w;
      WordsAppend(s[1..], w);
      if !IsSpace(s[0]) && |s| > 1 && !IsSpace(s[1]) {
        assert |Words(s[1..])| > 0;
      }
    }
  }

  /**
   * The topic is the last whitespace-separated word as it stands: the `re.sub` that would strip
   * its punctuation has its result discarded.
   */
  lemma TopicIsLastWord(s: string, w: string)
    requires |w| > 0 && forall j :: 0 <= j < |w| ==> !IsSpace(w[j])
    ensures LastWord(s + " " + w) == Some(w)
  {
    WordsAppend(s, w);
  }

  // ---------------------------------------------------------------- the cycle

  /**
   * What the `try` block ends with: a speaker and the text to post, an exception, or a loop with
   * no end. After an exception the posting block still runs with `next_user_member` as it was:
   * `Failed(Some(u))` posts `**nick**: None` as the member `u`; with `Failed(None)` the post
   * itself raises and nothing is sent.
   */
  datatype Result = Spoke(user: string, text: string) | Failed(member: Option<string>) | Stalled

  datatype SimState = SimState(queue: seq<string>, topic: Option<string>, total: nat, fills: nat, gens: nat, draws: nat)

  /** The end of every cycle: one more message counted, and the topic cleared every TOPIC_RESET. */
  function Finish(s: SimState): (r: SimState)
    ensures r.total == s.total + 1
    ensures r.topic == if r.total % TOPIC_RESET == 0 then None else s.topic
    ensures r.queue == s.queue && r.fills == s.fills && r.gens == s.gens && r.draws == s.draws
  {
    var total := s.total + 1;
    s.(total := total, topic := if total % TOPIC_RESET == 0 then None else s.topic)
  }

  /** One cycle of the simulator loop, with at most `fuel` pops and `fuel` generation rounds. */
  function Cycle(s: SimState, w: World, fuel: nat): (SimState, Result) {
    var (q1, f1, pick) := SelectFrom(s.queue, s.fills, w, fuel, None);
    match pick
    case PickStalled => (s.(queue := q1, fills := f1), Stalled)
    case PickRaised(m) => (Finish(s.(queue := q1, fills := f1)), Failed(m))
    case Picked(user) =>
      var (g, n) := GenLoop(w.gen, s.topic, s.gens, fuel);
      match g
      case GenStalled => (s.(queue := q1, fills := f1, gens := n), Stalled)
      case GenRaised(sentence) => (Finish(s.(queue := q1, fills := f1, gens := n)), Spoke(user, sentence))
      case Out(out) =>
        var (q2, d2) := InsertNames(q1, w.names, out, w.position, s.draws);
        var t := LastWord(out);
        (Finish(SimState(q2, if t.Some? then t else s.topic, s.total, f1, n, d2)), Spoke(user, out))
  }

  /**
   * A cycle that ends counts one message, whether or not anything was posted, and clears the
   * topic on every TOPIC_RESET-th; a speaker is always an eligible id, and a member posting
   * `None` after an exception is a member without a model; after an output the
   * queue holds what was left after the pop plus one entry per mentioned name, and the topic is
   * the output's last word unless the cycle clears it.
   */
  lemma CycleFacts(s: SimState, w: World, fuel: nat)
    ensures var (s', r) := Cycle(s, w, fuel);
      (!r.Stalled? ==> s'.total == s.total + 1 && (s'.total % TOPIC_RESET == 0 ==> s'.topic == None)) &&
      (r.Stalled? ==> s'.total == s.total && s'.topic == s.topic) &&
      (r.Spoke? ==> Eligible(w, r.user)) &&
      (r.Failed? && r.member.Some? ==> MemberWithoutModel(w, r.member.value))
    ensures var (q1, f1, pick) := SelectFrom(s.queue, s.fills, w, fuel, None);
      var (g, n) := GenLoop(w.gen, s.topic, s.gens, fuel);
      var (s', r) := Cycle(s, w, fuel);
      pick.Picked? && g.Out? ==>
        multiset(s'.queue) == multiset(q1) + multiset(Mentioned(w.names, g.text)) &&
        (s'.total % TOPIC_RESET != 0 && LastWord(g.text).Some? ==> s'.topic == LastWord(g.text)) &&
        (LastWord(g.text).None? ==> s'.topic == s.topic || s'.topic == None)
  {
    PickedIsEligible(s.queue, s.fills, w, fuel, None);
    var (q1, f1, pick) := SelectFrom(s.queue, s.fills, w, fuel, None);
    var (g, n) := GenLoop(w.gen, s.topic, s.gens, fuel);
    if pick.Picked? && g.Out? {
      InsertNamesFacts(q1, w.names, g.text, w.position, s.draws);
    }
  }

  /** The simulator's fields, and the counts of what it has asked of the world. */
  class Sim {
    var queue: seq<string>
    var topic: Option<string>
    var total: nat
    var fills: nat
    var gens: nat
    var draws: nat

    function State(): SimState
      reads this
    {
      SimState(queue, topic, total, fills, gens, draws)
    }

    /** `Markov.__init__` (topic `""`) and `SimThread.__init__` (topic given): an empty queue and no message yet. */
    constructor (initialTopic: Option<string>)
      ensures State() == SimState([], initialTopic, 0, 0, 0, 0)
    {
      queue := [];
      topic := initialTopic;
      total := 0;
      fills := 0;
      gens := 0;
      draws := 0;
    }

    /** The `while not user_model` loop. */
    method SelectSpeaker(w: World, fuel: nat) returns (pick: Pick)
      modifies this
      ensures (queue, fills, pick) == SelectFrom(old(queue), old(fills), w, fuel, None)
      ensures topic == old(topic) && total == old(total) && gens == old(gens) && draws == old(draws)
    {
      var left: nat := fuel;
      var member: Option<string> := None;
      while left > 0
        invariant left <= fuel
        invariant SelectFrom(queue, fills, w, left, member) == SelectFrom(old(queue), old(fills), w, fuel, None)
        invariant topic == old(topic) && total == old(total) && gens == old(gens) && draws == old(draws)
      {
        if |queue| == 0 {
          var sentence := w.fill(fills);
          fills := fills + 1;
          if sentence.None? {
            return PickRaised(member);
          }
          queue := Split(sentence.value, ' ');
        }
        var next := queue[0];
        queue := queue[1..];
        var id := ParseNat(next);
        if id.None? {
          return PickRaised(member);
        }
        if w.isMember(id.value) && w.hasModel(next) {
          return Picked(next);
        }
        member := if w.isMember(id.value) then Some(next) else None;
        left := left - 1;
      }
      pick := PickStalled;
    }

    /** The `while not out` loop once the speaker is chosen. */
    method Generate(w: World, fuel: nat) returns (g: Outcome)
      modifies this
      ensures (g, gens) == GenLoop(w.gen, old(topic), old(gens), fuel)
      ensures queue == old(queue) && topic == old(topic) && total == old(total) && fills == old(fills) && draws == old(draws)
    {
      var left: nat := fuel;
      while left > 0
        invariant left <= fuel
        invariant GenLoop(w.gen, topic, gens, left) == GenLoop(w.gen, old(topic), old(gens), fuel)
        invariant queue == old(queue) && topic == old(topic) && total == old(total) && fills == old(fills) && draws == old(draws)
      {
        var round, next := GenerateOnce(w.gen, topic, gens);
        gens := next;
        match round {
          case Unsplit(s) =>
            return GenRaised(s);
          case Trimmed(t) =>
            if |t| > 0 {
              return Out(t);
            }
          case Fallback(x) =>
            if Truthy(x) {
              return Out(x.value);
            }
        }
        left := left - 1;
      }
      g := GenStalled;
    }

    /** The NAMES loop that queues every mentioned id. */
    method QueueMentioned(w: World, out: string)
      modifies this
      ensures (queue, draws) == InsertNames(old(queue), w.names, out, w.position, old(draws))
      ensures topic == old(topic) && total == old(total) && fills == old(fills) && gens == old(gens)
    {
      var i := 0;
      while i < |w.names|
        invariant 0 <= i <= |w.names|
        invariant InsertNames(queue, w.names[i..], out, w.position, draws) == InsertNames(old(queue), w.names, out, w.position, old(draws))
        invariant topic == old(topic) && total == old(total) && fills == old(fills) && gens == old(gens)
      {
        assert w.names[i..][1..] == w.names[i + 1..];
        var (userid, name) := w.names[i];
        if Contains(out, name) {
          queue := InsertAt(queue, w.position(draws), userid);
          draws := draws + 1;
        }
        i := i + 1;
      }
    }

    /** One pass of the simulator loop (the message is posted by the caller). */
    method Step(w: World, fuel: nat) returns (r: Result)
      modifies this
      ensures (State(), r) == Cycle(old(State()), w, fuel)
    {
      var pick := SelectSpeaker(w, fuel);
      if pick.PickStalled? {
        return Stalled;
      }
      if pick.Picked? {
        var g := Generate(w, fuel);
        match g
        case GenStalled =>
          return Stalled;
        case GenRaised(sentence) =>
          r := Spoke(pick.user, sentence);
        case Out(out) =>
          QueueMentioned(w, out);
          var t := LastWord(out);
          if t.Some? {
            topic := t;
          }
          r := Spoke(pick.user, out);
      } else {
        r := Failed(pick.member);
      }
      EndCycle();
    }

    /** The tail of every cycle that does not stall: count the message, clear the topic every TOPIC_RESET. */
    method EndCycle()
      modifies this
      ensures State() == Finish(old(State()))
    {
      total := total + 1;
      if total % TOPIC_RESET == 0 {
        topic := None;
      }
    }
  }
}
