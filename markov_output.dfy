/**
 * Turning a Markov model into the bot's reply: `generate_sentence` (up to
 * MAX_MARKOV_ATTEMPTS calls, the first non-None output wins), the
 * `generate_markov` of cogs/helpers/markov_helpers.py (`num` sentences, the
 * non-empty ones each followed by a newline), the single-sentence
 * `generate_markov` of markov.py (title-cased nickname) and the count clamp
 * of the `domulti` command.
 *
 * The markovify model is an oracle: `gen(root, k)` is what the k-th call of
 * `make_sentence` / `make_sentence_with_start(root)` returns, `None` when the
 * library gives up.
 */
module MarkovOutput {
  import opened Text
  import opened OrderedDict
  import Nickname

  const MAX_MARKOV_ATTEMPTS: nat := 10
  const DEFAULT_NAME := "MarkovBot"
  const NO_OUTPUT := "No output."
  const INSUFFICIENT := "Insufficient data for Markov chain."
  const INSUFFICIENT_MARKOV := "Error: insufficient data for Markov chain."

  type Generator = (Option<string>, nat) -> Option<string>

  /** The first of the calls numbered `at` up to `stop` that yields a sentence, and the next call number. */
  function SentenceFrom(gen: Generator, root: Option<string>, at: nat, stop: nat): (Option<string>, nat)
    decreases stop - at
  {
    if stop <= at then (None, at)
    else if gen(root, at).Some? then (gen(root, at), at + 1)
    else SentenceFrom(gen, root, at + 1, stop)
  }

  /** One `generate_sentence` call starting at call number `at`. */
  function Attempt(gen: Generator, root: Option<string>, at: nat): (Option<string>, nat) {
    SentenceFrom(gen, root, at, at + MAX_MARKOV_ATTEMPTS)
  }

  /**
   * A sentence is the output of the last call made, after only failed calls; no sentence means
   * every one of the `left` calls failed. At least one call is made when `left > 0`.
   */
  lemma {:induction false} SentenceFromMeaning(gen: Generator, root: Option<string>, at: nat, stop: nat)
    requires at <= stop
    ensures var (r, next) := SentenceFrom(gen, root, at, stop);
      at <= next <= stop &&
      (forall k :: at <= k < next - 1 ==> gen(root, k).None?) &&
      (r.Some? ==> next > at && r == gen(root, next - 1)) &&
      (r.None? ==> next == stop && forall k :: at <= k < stop ==> gen(root, k).None?)
    decreases stop - at
  {
    if at < stop && gen(root, at).None? {
      SentenceFromMeaning(gen, root, at + 1, stop);
    }
  }

  /** `generate_sentence`: the loop of MAX_MARKOV_ATTEMPTS calls. */
  method GenerateSentence(gen: Generator, root: Option<string>, at: nat) returns (r: Option<string>, next: nat)
    ensures (r, next) == Attempt(gen, root, at)
  {
    var k := 0;
    while k < MAX_MARKOV_ATTEMPTS
      invariant 0 <= k <= MAX_MARKOV_ATTEMPTS
      invariant Attempt(gen, root, at) == SentenceFrom(gen, root, at + k, at + MAX_MARKOV_ATTEMPTS)
    {
      var output := gen(root, at + k);
      if output.Some? {
        return output, at + k + 1;
      }
      k := k + 1;
    }
    r, next := None, at + k;
  }

  /** The non-empty sentences of `num` calls of `generate_sentence`, and the next call number. */
  function Produced(gen: Generator, root: Option<string>, at: nat, num: nat): seq<string>
    decreases num
  {
    if num == 0 then []
    else
      var r := Attempt(gen, root, at);
      (if r.0.Some? && |r.0.value| > 0 then [r.0.value] else []) + Produced(gen, root, r.1, num - 1)
  }

  /** The reply: either text and a nickname, or the KeyError of a user id missing from NAMES. */
  datatype Reply = Reply(msg: string, nick: string) | UnknownId

  /**
   * `generate_markov` of cogs/helpers/markov_helpers.py: the nickname first, then "No output." without
   * a model; otherwise `num` sentences, and "Insufficient data for Markov chain." if none is non-empty.
   */
  method GenerateMarkov(names: Dict<string, string>, ids: seq<string>, hasModel: bool,
                        gen: Generator, root: Option<string>, num: nat) returns (r: Reply)
    ensures r.UnknownId? <==> exists i :: 0 <= i < |ids| && ids[i] !in Keys(names)
    ensures r.Reply? && !hasModel ==> r == Reply(NO_OUTPUT, DEFAULT_NAME)
    ensures r.Reply? && hasModel ==>
      var ps := Produced(gen, root, 0, num);
      r == if |ps| > 0 then Reply(LinesText(ps), Nickname.Nick(Nickname.NamesOf(names, ids), Nickname.MAX_NICKNAME_LENGTH))
           else Reply(INSUFFICIENT, DEFAULT_NAME)
  {
    var nick := Nickname.GenerateNick(names, ids);
    if nick.None? {
      return UnknownId;
    }
    if !hasModel {
      return Reply(NO_OUTPUT, DEFAULT_NAME);
    }
    var out := CollectSentences(gen, root, num);
    LinesTextEmpty(Produced(gen, root, 0, num));
    if |out| > 0 {
      r := Reply(out, nick.value);
    } else {
      r := Reply(INSUFFICIENT, DEFAULT_NAME);
    }
  }

  /** The `for _ in range(num)` loop's `out`, continued from `out` at call number `at` with `left` rounds to go. */
  function CollectFrom(gen: Generator, root: Option<string>, out: string, at: nat, left: nat): string
    decreases left
  {
    if left == 0 then out
    else
      var r := Attempt(gen, root, at);
      CollectFrom(gen, root, if r.0.Some? && |r.0.value| > 0 then out + r.0.value + "\n" else out, r.1, left - 1)
  }

  /** The loop's text is the produced sentences, each followed by a newline. */
  lemma {:induction false} CollectIsLines(gen: Generator, root: Option<string>, out: string, at: nat, left: nat)
    ensures CollectFrom(gen, root, out, at, left) == out + LinesText(Produced(gen, root, at, left))
    decreases left
  {
    if left > 0 {
      var r := Attempt(gen, root, at);
      var rest := Produced(gen, root, r.1, left - 1);
      if r.0.Some? && |r.0.value| > 0 {
        CollectIsLines(gen, root, out + r.0.value + "\n", r.1, left - 1);
        assert Produced(gen, root, at, left) == [r.0.value] + rest;
        assert ([r.0.value] + rest)[1..] == rest;
      } else {
        CollectIsLines(gen, root, out, r.1, left - 1);
        assert Produced(gen, root, at, left) == [] + rest == rest;
      }
    } else {
      assert out + "" == out;
    }
  }

  /** The `for _ in range(num)` loop that appends each non-empty sentence and a newline to `out`. */
  method CollectSentences(gen: Generator, root: Option<string>, num: nat) returns (out: string)
    ensures out == LinesText(Produced(gen, root, 0, num))
  {
    out := "";
    var at := 0;
    var i := 0;
    while i < num
      invariant 0 <= i <= num
      invariant CollectFrom(gen, root, out, at, num - i) == CollectFrom(gen, root, "", 0, num)
    {
      var sentence, next := GenerateSentence(gen, root, at);
      if sentence.Some? && |sentence.value| > 0 {
        out := out + sentence.value + "\n";
      }
      at := next;
      i := i + 1;
    }
    CollectIsLines(gen, root, "", 0, num);
    assert "" + LinesText(Produced(gen, root, 0, num)) == LinesText(Produced(gen, root, 0, num));
  }

  lemma LinesTextEmpty(ps: seq<string>)
    ensures |LinesText(ps)| == 0 <==> |ps| == 0
  {
  }

  /** Every sentence produced is a non-empty output of the generator, and there are at most `num`. */
  lemma {:induction false} ProducedAreOutputs(gen: Generator, root: Option<string>, at: nat, num: nat)
    ensures |Produced(gen, root, at, num)| <= num
    ensures forall i :: 0 <= i < |Produced(gen, root, at, num)| ==>
      |Produced(gen, root, at, num)[i]| > 0 &&
      exists k :: at <= k && gen(root, k) == Some(Produced(gen, root, at, num)[i])
    decreases num
  {
    if num > 0 {
      var (s, next) := Attempt(gen, root, at);
      SentenceFromMeaning(gen, root, at, at + MAX_MARKOV_ATTEMPTS);
      ProducedAreOutputs(gen, root, next, num - 1);
      var ps := Produced(gen, root, at, num);
      var rest := Produced(gen, root, next, num - 1);
      if s.Some? && |s.value| > 0 {
        forall i | 0 <= i < |ps|
          ensures |ps[i]| > 0 && exists k :: at <= k && gen(root, k) == Some(ps[i])
        {
          if i == 0 {
            assert gen(root, next - 1) == Some(ps[0]);
          } else {
            assert ps[i] == rest[i - 1];
          }
        }
      }
    }
  }

  /**
   * `generate_markov` of markov.py: the first non-None sentence of MAX_MARKOV_ATTEMPTS calls with the
   * title-cased nickname; the error text and DEFAULT_NAME when all fail or there is no model.
   */
  method GenerateMarkovSingle(names: Dict<string, string>, ids: seq<string>, hasModel: bool,
                              gen: Generator, root: Option<string>) returns (r: Reply)
    ensures r.UnknownId? <==> exists i :: 0 <= i < |ids| && ids[i] !in Keys(names)
    ensures r.Reply? && !hasModel ==> r == Reply(NO_OUTPUT, DEFAULT_NAME)
    ensures r.Reply? && hasModel ==>
      var s := Attempt(gen, root, 0).0;
      r == if s.Some? then Reply(s.value, Title(Nickname.Nick(Nickname.NamesOf(names, ids), Nickname.MAX_NICKNAME_LENGTH)))
           else Reply(INSUFFICIENT_MARKOV, DEFAULT_NAME)
  {
    var nick := Nickname.GenerateNick(names, ids);
    if nick.None? {
      return UnknownId;
    }
    if !hasModel {
      return Reply(NO_OUTPUT, DEFAULT_NAME);
    }
    var output, _ := GenerateSentence(gen, root, 0);
    if output.Some? {
      r := Reply(output.value, Title(nick.value));
    } else {
      r := Reply(INSUFFICIENT_MARKOV, DEFAULT_NAME);
    }
  }

  /** `domulti`: the requested count forced into 1..10. */
  function ClampCount(num: int): (r: int)
    ensures 1 <= r <= 10
    ensures 1 <= num <= 10 ==> r == num
    ensures num > 10 ==> r == 10
    ensures num < 1 ==> r == 1
  {
    var n := if num > 10 then 10 else num;
    if n < 1 then 1 else n
  }
}
