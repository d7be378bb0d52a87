/**
 * The stand-alone simulator of run_simulator.py: `find_names` collecting the
 * bots named in a message into the module-level NAMES_IN_MSG, the
 * `MarkovSimulator` queue refilled by `fill_queue`, one pass of the `do_sim`
 * loop (pop, skip rules, topic-seeded generation with the KeyError fallback,
 * the new topic, mention rewriting), and the embed-rate validation of the
 * constructor.
 *
 * The speaker-order model, the ignore list, guild membership, the model files,
 * each speaker model's `make_sentence_with_start` and `make_sentence`, the
 * guild's display names and the iteration order of the tag set come from a
 * `RunWorld`; the calls to each generator are numbered.
 */
module SimulatorRun {
  import opened Text
  import opened OrderedDict
  import Mentions
  import ServerSetup

  const DEBUG_EMBED_RATE: real := 0.9
  const EMBED_RATE: real := 0.04
  /** Passes of the `for _ in range(3)` loop. */
  const TOPIC_ATTEMPTS: nat := 3

  /** Python's truth value of an optional string. */
  predicate Truthy(x: Option<string>) {
    x.Some? && |x.value| > 0
  }

  // ---------------------------------------------------------------- find_names

  /** Some alias of the bot occurs in the message. */
  function AnyContained(msg: string, names: seq<string>): (r: bool)
    ensures r <==> exists k :: 0 <= k < |names| && Contains(msg, names[k])
  {
    if |names| == 0 then false
    else if Contains(msg, names[0]) then true
    else (assert forall k :: 1 <= k < |names| ==> names[k] == names[1..][k - 1]; AnyContained(msg, names[1..]))
  }

  /** The ids `find_names` appends, in BOTS key order: one per bot with an alias in the message. */
  function Found(bots: Dict<string, seq<string>>, msg: string): seq<string> {
    if |bots| == 0 then []
    else (if AnyContained(msg, bots[0].1) then [bots[0].0] else []) + Found(bots[1..], msg)
  }

  /** A bot's id is appended exactly when one of its aliases occurs, and never twice. */
  lemma {:induction false} FoundExactly(bots: Dict<string, seq<string>>, msg: string)
    requires UniqueKeys(bots)
    ensures forall x :: x in Found(bots, msg) <==> exists i :: 0 <= i < |bots| && bots[i].0 == x && AnyContained(msg, bots[i].1)
    ensures ServerSetup.NoDuplicates(Found(bots, msg))
  {
    if |bots| > 0 {
      FoundExactly(bots[1..], msg);
      var head := if AnyContained(msg, bots[0].1) then [bots[0].0] else [];
      assert Found(bots, msg) == head + Found(bots[1..], msg);
      assert forall i :: 1 <= i < |bots| ==> bots[i] == bots[1..][i - 1];
      forall x | x in Found(bots[1..], msg)
        ensures x != bots[0].0
      {
        var i :| 0 <= i < |bots[1..]| && bots[1..][i].0 == x && AnyContained(msg, bots[1..][i].1);
        assert bots[i + 1].0 == x;
      }
      var all := Found(bots, msg);
      var tail := Found(bots[1..], msg);
      assert forall k :: |head| <= k < |all| ==> all[k] == tail[k - |head|];
      assert forall k :: |head| <= k < |all| ==> all[k] in tail;
    }
  }

  /** NAMES_IN_MSG: a module-level list that `find_names` only ever appends to. */
  class NamesInMsg {
    var ids: seq<string>

    constructor ()
      ensures ids == []
    {
      ids := [];
    }

    /** `find_names` */
    method FindNames(bots: Dict<string, seq<string>>, msg: string)
      modifies this
      ensures ids == old(ids) + Found(bots, msg)
    {
      var i := 0;
      while i < |bots|
        invariant 0 <= i <= |bots|
        invariant ids + Found(bots[i..], msg) == old(ids) + Found(bots, msg)
      {
        assert bots[i..][1..] == bots[i + 1..];
        var (userid, names) := bots[i];
        var j := 0;
        var hit := false;
        while j < |names| && !hit
          invariant 0 <= j <= |names|
          invariant AnyContained(msg, names) == (hit || AnyContained(msg, names[j..]))
        {
          assert names[j..][1..] == names[j + 1..];
          if Contains(msg, names[j]) {
            hit := true;
          }
          j := j + 1;
        }
        if hit {
          ids := ids + [userid];
        }
        i := i + 1;
      }
    }
  }

  // ---------------------------------------------------------------- the speaker queue

  /** `make_sentence_with_start`: a sentence or none, or the KeyError of a start the model has never seen. */
  datatype Start = Began(sentence: Option<string>) | UnknownStart

  datatype RunWorld = RunWorld(
    simFill: nat -> Option<string>,
    ignore: set<string>,
    isMember: nat -> bool,
    hasModel: string -> bool,
    start: (string, nat) -> Start,
    plain: nat -> Option<string>,
    members: map<nat, string>,
    tagOrder: string -> seq<string>)

  /** Every message's tag set is iterated in some order that lists each tag once. */
  ghost predicate OrdersTags(w: RunWorld) {
    forall m :: Mentions.IsOrderOf(w.tagOrder(m), m)
  }

  /** `fill_queue`'s `while not out` with at most `fuel` calls: the first truthy sentence and the next call number. */
  function FillFrom(w: RunWorld, at: nat, fuel: nat): (Option<string>, nat)
    decreases fuel
  {
    if fuel == 0 then (None, at)
    else if Truthy(w.simFill(at)) then (w.simFill(at), at + 1)
    else FillFrom(w, at + 1, fuel - 1)
  }

  /** The refill sentence is the first non-empty one: every call before it gave `None` or `''`. */
  lemma {:induction false} FillFromMeaning(w: RunWorld, at: nat, fuel: nat)
    ensures var (r, next) := FillFrom(w, at, fuel);
      at <= next <= at + fuel &&
      (forall k :: at <= k < next - 1 ==> !Truthy(w.simFill(k))) &&
      (r.Some? ==> next > at && Truthy(r) && r == w.simFill(next - 1)) &&
      (r.None? ==> next == at + fuel && forall k :: at <= k < at + fuel ==> !Truthy(w.simFill(k)))
    decreases fuel
  {
    if fuel > 0 && !Truthy(w.simFill(at)) {
      FillFromMeaning(w, at + 1, fuel - 1);
    }
  }

  // ---------------------------------------------------------------- generation

  /** The outcome of the `for ... else` block: the message, or the IndexError of a topic sentence without a space. */
  datatype Msg = Msg(text: Option<string>) | NoSpace

  /**
   * Passes `k` up to TOPIC_ATTEMPTS of the `for` loop, from `make_sentence_with_start` call `s`
   * and `make_sentence` call `p`: with a falsy topic a pass does nothing; with a topic, a truthy
   * start sentence loses its first word and ends the loop, and a KeyError is replaced by one
   * unconstrained sentence, which ends the loop when truthy. The `else` makes one unconstrained call.
   */
  function RunTries(w: RunWorld, topic: Option<string>, s: nat, p: nat, k: nat): (Msg, nat, nat)
    decreases TOPIC_ATTEMPTS - k
  {
    if k >= TOPIC_ATTEMPTS then (Msg(w.plain(p)), s, p + 1)
    else if !Truthy(topic) then RunTries(w, topic, s, p, k + 1)
    else
      match w.start(topic.value, s)
      case Began(x) =>
        if Truthy(x) then
          (match AfterFirstSpace(x.value)
           case None => NoSpace
           case Some(rest) => Msg(Some(rest)), s + 1, p)
        else RunTries(w, topic, s + 1, p, k + 1)
      case UnknownStart =>
        if Truthy(w.plain(p)) then (Msg(w.plain(p)), s + 1, p + 1)
        else RunTries(w, topic, s + 1, p + 1, k + 1)
  }

  /** Without a topic the loop body does nothing: exactly one unconstrained sentence, from the `else`. */
  lemma {:induction false} NoTopicOneSentence(w: RunWorld, topic: Option<string>, s: nat, p: nat, k: nat)
    requires !Truthy(topic) && k <= TOPIC_ATTEMPTS
    ensures RunTries(w, topic, s, p, k) == (Msg(w.plain(p)), s, p + 1)
    decreases TOPIC_ATTEMPTS - k
  {
    if k < TOPIC_ATTEMPTS {
      NoTopicOneSentence(w, topic, s, p, k + 1);
    }
  }

  /**
   * With a topic, each pass makes one start call and at most one unconstrained call, and the
   * `else` one more; no message at all can only come from that last unconstrained call.
   */
  lemma {:induction false} RunTriesCalls(w: RunWorld, topic: Option<string>, s: nat, p: nat, k: nat)
    requires Truthy(topic) && k <= TOPIC_ATTEMPTS
    ensures var (g, s', p') := RunTries(w, topic, s, p, k);
      s <= s' <= s + (TOPIC_ATTEMPTS - k) && p <= p' <= p + (TOPIC_ATTEMPTS - k) + 1 &&
      (g.Msg? && g.text.None? ==> p' > p && g.text == w.plain(p' - 1))
    decreases TOPIC_ATTEMPTS - k
  {
    if k < TOPIC_ATTEMPTS {
      match w.start(topic.value, s)
      case Began(x) =>
        if !Truthy(x) {
          RunTriesCalls(w, topic, s + 1, p, k + 1);
        }
      case UnknownStart =>
        if !Truthy(w.plain(p)) {
          RunTriesCalls(w, topic, s + 1, p + 1, k + 1);
        }
    }
  }

  /** `msg.split(' ')[-1]` */
  function LastToken(m: string): (r: string)
    ensures ' ' !in r && |r| <= |m| && r == m[|m| - |r|..]
    ensures ' ' in m ==> m[|m| - |r| - 1] == ' '
  {
    SplitLast(m);
    var parts := Split(m, ' ');
    parts[|parts| - 1]
  }

  /** The last part of a split on spaces is the text after the last space (all of it when there is none). */
  lemma {:induction false} SplitLast(m: string)
    ensures var l := Split(m, ' ')[|Split(m, ' ')| - 1];
      ' ' !in l && |l| <= |m| && l == m[|m| - |l|..] &&
      (' ' in m <==> |Split(m, ' ')| > 1) &&
      (' ' in m ==> m[|m| - |l| - 1] == ' ') &&
      (' ' !in m ==> l == m)
  {
    if |m| > 0 {
      SplitLast(m[1..]);
      var rest := Split(m[1..], ' ');
      var l := rest[|rest| - 1];
      assert m == [m[0]] + m[1..];
      assert m[1..][|m[1..]| - |l|..] == m[|m| - |l|..];
      if m[0] == ' ' {
        assert Split(m, ' ')[|Split(m, ' ')| - 1] == l;
      } else if |rest| == 1 {
        assert Split(m, ' ') == [[m[0]] + l];
      } else {
        assert Split(m, ' ')[|Split(m, ' ')| - 1] == l;
      }
    }
  }

  // ---------------------------------------------------------------- one pass of do_sim

  /** How one pass of `while True` ends: a post, a `continue` before generating, no message, an exception, or a refill that never ends. */
  datatype RunResult = Posted(user: string, text: string) | Skipped | Silent | Raised | Stalled

  datatype RunState = RunState(queue: seq<string>, topic: Option<string>, fills: nat, starts: nat, plains: nat)

  /** One pass of the `do_sim` loop, with at most `fuel` calls in `fill_queue`. */
  function RunCycle(s: RunState, w: RunWorld, fuel: nat): (RunState, RunResult)
    requires OrdersTags(w)
  {
    var (sentence, f) := if |s.queue| == 0 then FillFrom(w, s.fills, fuel) else (None, s.fills);
    if |s.queue| == 0 && sentence.None? then (s.(fills := f), Stalled)
    else
      var q := if |s.queue| == 0 then Split(sentence.value, ' ') else s.queue;
      var user := q[0];
      var s1 := s.(queue := q[1..], fills := f);
      if user == "" then (s1, Raised)
      else if user in w.ignore then (s1, Skipped)
      else
        match ParseNat(user)
        case None => (s1, Raised)
        case Some(id) =>
          if !w.isMember(id) || !w.hasModel(user) then (s1, Skipped)
          else
            var (g, st, pl) := RunTries(w, s.topic, s.starts, s.plains, 0);
            var s2 := s1.(starts := st, plains := pl);
            match g
            case NoSpace => (s2, Raised)
            case Msg(m) =>
              if !Truthy(m) then (s2, Silent)
              else
                var s3 := s2.(topic := Some(LastToken(m.value)));
                OrderIsTags(w.tagOrder(m.value), m.value);
                match Mentions.RewriteAll(m.value, w.tagOrder(m.value), w.members)
                case None => (s3, Raised)
                case Some(text) => (s3, Posted(user, text))
  }

  lemma OrderIsTags(order: seq<string>, msg: string)
    requires Mentions.IsOrderOf(order, msg)
    ensures forall k :: 0 <= k < |order| ==> Mentions.IsTag(order[k])
  {
    forall k | 0 <= k < |order|
      ensures Mentions.IsTag(order[k])
    {
      assert order[k] in Mentions.Elements(order);
    }
  }

  /** An id that is not empty, not ignored, parses, belongs to a member and has a model file. */
  predicate Speaks(w: RunWorld, user: string) {
    user != "" && user !in w.ignore && ParseNat(user).Some? && w.isMember(ParseNat(user).value) && w.hasModel(user)
  }

  /** Every pass pops exactly the front of the queue, refilling it first from a truthy sentence when it is empty. */
  lemma RunCyclePops(s: RunState, w: RunWorld, fuel: nat)
    requires OrdersTags(w)
    ensures |s.queue| > 0 ==> RunCycle(s, w, fuel).0.queue == s.queue[1..] && RunCycle(s, w, fuel).0.fills == s.fills
    ensures |s.queue| == 0 && !RunCycle(s, w, fuel).1.Stalled? ==>
      Truthy(FillFrom(w, s.fills, fuel).0) && RunCycle(s, w, fuel).0.queue == Split(FillFrom(w, s.fills, fuel).0.value, ' ')[1..]
  {
    if |s.queue| == 0 {
      FillFromMeaning(w, s.fills, fuel);
    }
  }

  /** The ids skipped (ignored ones, non-members, ids without a model) call no generator and keep the topic. */
  lemma SkipCallsNothing(s: RunState, w: RunWorld, fuel: nat)
    requires OrdersTags(w)
    ensures var (s', r) := RunCycle(s, w, fuel);
      r.Skipped? ==> s'.starts == s.starts && s'.plains == s.plains && s'.topic == s.topic
  {
    FillFromMeaning(w, s.fills, fuel);
  }

  /** A poster is a non-empty, non-ignored member id with a model, and the topic after a post has no space. */
  lemma PostFacts(s: RunState, w: RunWorld, fuel: nat)
    requires OrdersTags(w)
    ensures var (s', r) := RunCycle(s, w, fuel);
      r.Posted? ==> Speaks(w, r.user) && s'.topic.Some? && ' ' !in s'.topic.value
  {
    FillFromMeaning(w, s.fills, fuel);
  }

  /** An id is `''` only when the speaker-order sentence has a double space or an edge space; popping it raises ValueError. */
  lemma EmptyIdRaises(w: RunWorld, s: RunState, fuel: nat)
    requires OrdersTags(w) && |s.queue| > 0 && s.queue[0] == ""
    ensures RunCycle(s, w, fuel) == (s.(queue := s.queue[1..]), Raised)
  {
  }

  // ---------------------------------------------------------------- embed rate

  /** What the constructor does with `--embed`: the rate it keeps, `exit()` for a rate outside [0, 1], or an exception. */
  datatype Setup = Rate(rate: real) | Exited | TypeFailure

  function DefaultRate(debug: bool): real {
    if debug then DEBUG_EMBED_RATE else EMBED_RATE
  }

  /**
   * As written: `nargs=1` makes `args.embed` a one-element list, and `args.embed > 1` compares a
   * list with an int, which Python 3 rejects with a TypeError.
   */
  function EmbedRateAsWritten(embed: Option<seq<real>>, debug: bool): Setup {
    match embed
    case None => Rate(DefaultRate(debug))
    case Some(values) => if |values| == 0 then Rate(DefaultRate(debug)) else TypeFailure
  }

  /** Every `--embed` value the argument parser can hand over crashes the constructor. */
  lemma EmbedAlwaysFails(x: real, debug: bool)
    ensures EmbedRateAsWritten(Some([x]), debug) == TypeFailure
  {
  }

  /** As evidently intended: the single value is checked against [0, 1]; a zero rate, being falsy, keeps the default. */
  function EmbedRate(embed: Option<real>, debug: bool): (r: Setup)
    ensures r.Rate? ==> 0.0 <= r.rate <= 1.0
    ensures r == Exited <==> embed.Some? && (embed.value > 1.0 || embed.value < 0.0)
    ensures embed.Some? && 0.0 < embed.value <= 1.0 ==> r == Rate(embed.value)
    ensures r != TypeFailure
  {
    match embed
    case None => Rate(DefaultRate(debug))
    case Some(x) =>
      if x == 0.0 then Rate(DefaultRate(debug))
      else if x > 1.0 || x < 0.0 then Exited
      else Rate(x)
  }

  /** The simulator's state: the speaker queue and the topic, and how many calls each generator has had. */
  class Runner {
    var queue: seq<string>
    var topic: Option<string>
    var fills: nat
    var starts: nat
    var plains: nat

    function State(): RunState
      reads this
    {
      RunState(queue, topic, fills, starts, plains)
    }

    /** `MarkovSimulator.__init__` when not set up: no topic and an empty queue. */
    constructor ()
      ensures State() == RunState([], None, 0, 0, 0)
    {
      queue := [];
      topic := None;
      fills := 0;
      starts := 0;
      plains := 0;
    }

    /** `fill_queue`: retry until the speaker-order model gives a non-empty sentence, then split it. */
    method FillQueue(w: RunWorld, fuel: nat) returns (filled: bool)
      modifies this
      ensures var (r, next) := FillFrom(w, old(fills), fuel);
        fills == next && filled == r.Some? &&
        queue == (if r.Some? then Split(r.value, ' ') else old(queue))
      ensures topic == old(topic) && starts == old(starts) && plains == old(plains)
    {
      var out: Option<string> := None;
      var left: nat := fuel;
      while !Truthy(out) && left > 0
        invariant left <= fuel
        invariant !Truthy(out) ==> FillFrom(w, fills, left) == FillFrom(w, old(fills), fuel)
        invariant Truthy(out) ==> (out, fills) == FillFrom(w, old(fills), fuel)
        invariant queue == old(queue) && topic == old(topic) && starts == old(starts) && plains == old(plains)
      {
        out := w.simFill(fills);
        fills := fills + 1;
        left := left - 1;
      }
      filled := Truthy(out);
      if filled {
        queue := Split(out.value, ' ');
      }
    }

    /** The `for _ in range(3): ... else: ...` block. */
    method Generate(w: RunWorld) returns (g: Msg)
      modifies this
      ensures (g, starts, plains) == RunTries(w, old(topic), old(starts), old(plains), 0)
      ensures queue == old(queue) && topic == old(topic) && fills == old(fills)
    {
      var k := 0;
      while k < TOPIC_ATTEMPTS
        invariant 0 <= k <= TOPIC_ATTEMPTS
        invariant RunTries(w, topic, starts, plains, k) == RunTries(w, old(topic), old(starts), old(plains), 0)
        invariant queue == old(queue) && topic == old(topic) && fills == old(fills)
      {
        if Truthy(topic) {
          var attempt := w.start(topic.value, starts);
          starts := starts + 1;
          match attempt {
            case Began(x) =>
              if Truthy(x) {
                var rest := AfterFirstSpace(x.value);
                if rest.None? {
                  return NoSpace;
                }
                return Msg(rest);
              }
            case UnknownStart =>
              var x := w.plain(plains);
              plains := plains + 1;
              if Truthy(x) {
                return Msg(x);
              }
          }
        }
        k := k + 1;
      }
      g := Msg(w.plain(plains));
      plains := plains + 1;
    }

    /** One pass of `do_sim`'s loop; posting, the embed and the wait are left to the caller. */
    method Step(w: RunWorld, fuel: nat) returns (r: RunResult)
      requires OrdersTags(w)
      modifies this
      ensures (State(), r) == RunCycle(old(State()), w, fuel)
    {
      if |queue| == 0 {
        var filled := FillQueue(w, fuel);
        if !filled {
          assert State() == old(State()).(fills := fills);
          assert |old(State()).queue| == 0 && FillFrom(w, old(State()).fills, fuel) == (None, fills);
          assert RunCycle(old(State()), w, fuel) == (old(State()).(fills := fills), Stalled);
          return Stalled;
        }
      }
      var user := queue[0];
      queue := queue[1..];
      if user == "" {
        return Raised;
      }
      if user in w.ignore {
        return Skipped;
      }
      var id := ParseNat(user);
      if id.None? {
        return Raised;
      }
      if !w.isMember(id.value) || !w.hasModel(user) {
        return Skipped;
      }
      var g := Generate(w);
      if g.NoSpace? {
        return Raised;
      }
      if !Truthy(g.text) {
        return Silent;
      }
      var msg := g.text.value;
      topic := Some(LastToken(msg));
      var text := Mentions.RemoveMentions(msg, w.members, w.tagOrder(msg));
      if text.None? {
        return Raised;
      }
      r := Posted(user, text.value);
    }
  }
}
