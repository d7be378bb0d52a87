/**
 * The two ways the bot lists the names it has models for, in chunks that fit
 * a chat message: `print_names` in helpers/markov_helpers.py (guild members
 * present in NAMES, a chunk emitted at the limit but never reset) and the
 * `list` command in cogs/markov.py (every NAMES value, a fresh chunk started
 * at the limit). Each name is followed by `", "`, and an emitted chunk drops
 * the last two characters (Python's `[:-2]`).
 */
module NameListing {
  import opened Text
  import opened OrderedDict

  /** MAX_MESSAGE_LENGTH in consts.py and markov.py. */
  const MAX_MESSAGE_LENGTH: nat := 1800

  /** `s[:-2]` */
  function Trim2(s: string): (r: string)
    ensures r <= s && |r| == if |s| >= 2 then |s| - 2 else 0
  {
    if |s| >= 2 then s[..|s| - 2] else ""
  }

  /** The `search` filter: an empty or absent search keeps every name. */
  predicate Matches(name: string, search: string) {
    |search| == 0 || Contains(Lower(name), Lower(search))
  }

  /** Each name followed by `", "`: the running message when nothing is reset. */
  function Listed(names: seq<string>): string {
    if |names| == 0 then "" else Listed(names[..|names| - 1]) + names[|names| - 1] + ", "
  }

  /** `print_names`: the names of the guild members that are in NAMES and pass the filter, in member order. */
  function MemberNames(members: seq<nat>, names: Dict<string, string>, search: string): (sel: seq<string>)
    ensures forall x :: x in sel <==>
      exists k :: 0 <= k < |members| && NatToString(members[k]) in Keys(names) &&
        x == Get(names, NatToString(members[k])).value && Matches(x, search)
  {
    if |members| == 0 then []
    else
      var init := members[..|members| - 1];
      var prev := MemberNames(init, names, search);
      var id := NatToString(members[|members| - 1]);
      var sel := if id in Keys(names) && Matches(Get(names, id).value, search) then prev + [Get(names, id).value] else prev;
      assert forall k :: 0 <= k < |init| ==> init[k] == members[k];
      sel
  }

  /** The chunks `print_names` emits before its final one: the running message whenever the next name would reach the limit. */
  function Emitted(sel: seq<string>): seq<string> {
    if |sel| == 0 then []
    else
      var init := sel[..|sel| - 1];
      if |Listed(init)| + |sel[|sel| - 1]| >= MAX_MESSAGE_LENGTH then Emitted(init) + [Trim2(Listed(init))] else Emitted(init)
  }

  /** `print_names`' result for the selected names. */
  function PrintChunks(sel: seq<string>): seq<string> {
    Emitted(sel) + [Trim2(Listed(sel))]
  }

  /** `print_names` as the loop over the guild's members. */
  method PrintNames(members: seq<nat>, names: Dict<string, string>, search: string) returns (messages: seq<string>)
    ensures messages == PrintChunks(MemberNames(members, names, search))
  {
    messages := [];
    var current := "";
    ghost var sel: seq<string> := [];
    var i := 0;
    while i < |members|
      invariant 0 <= i <= |members|
      invariant sel == MemberNames(members[..i], names, search)
      invariant current == Listed(sel) && messages == Emitted(sel)
    {
      assert members[..i + 1][..i] == members[..i];
      var id := NatToString(members[i]);
      var name := Get(names, id);
      if name.Some? && Matches(name.value, search) {
        assert (sel + [name.value])[..|sel|] == sel;
        if |current| + |name.value| >= MAX_MESSAGE_LENGTH {
          messages := messages + [Trim2(current)];
        }
        current := current + name.value + ", ";
        sel := sel + [name.value];
      }
      i := i + 1;
    }
    assert members[..i] == members;
    messages := messages + [Trim2(current)];
  }

  lemma {:induction false} ListedGrows(sel: seq<string>, k: nat)
    requires k <= |sel|
    ensures Listed(sel[..k]) <= Listed(sel)
    decreases |sel| - k
  {
    if k < |sel| {
      ListedGrows(sel, k + 1);
      assert sel[..k + 1][..k] == sel[..k];
    } else {
      assert sel[..k] == sel;
    }
  }

  /** A prefix of the running message, trimmed, is a prefix of the longer message trimmed. */
  lemma TrimGrows(a: string, b: string)
    requires a <= b && (|a| < |b| ==> |b| >= |a| + 2)
    ensures Trim2(a) <= Trim2(b)
  {
  }

  /**
   * Because `print_names` never resets its message, every chunk it emits is a prefix of every
   * later chunk, and the last chunk lists every selected name.
   */
  lemma {:induction false} ChunksArePrefixes(sel: seq<string>)
    ensures forall i, j :: 0 <= i < j < |PrintChunks(sel)| ==> PrintChunks(sel)[i] <= PrintChunks(sel)[j]
  {
    EmittedPrefixes(sel);
  }

  lemma {:induction false} EmittedPrefixes(sel: seq<string>)
    ensures forall i, j :: 0 <= i < j < |Emitted(sel)| ==> Emitted(sel)[i] <= Emitted(sel)[j]
    ensures forall i :: 0 <= i < |Emitted(sel)| ==> Emitted(sel)[i] <= Trim2(Listed(sel))
  {
    if |sel| > 0 {
      var init := sel[..|sel| - 1];
      EmittedPrefixes(init);
      var a, b := Listed(init), Listed(sel);
      TrimGrows(a, b);
      forall i | 0 <= i < |Emitted(sel)| ensures Emitted(sel)[i] <= Trim2(b) {
        if i < |Emitted(init)| {
          assert Emitted(sel)[i] == Emitted(init)[i];
        }
      }
    }
  }

  /** The `list` command's state: the chunks emitted so far and the message being filled. */
  datatype Chunking = Chunking(out: seq<string>, message: string)

  /** One name of the `list` loop: append when it fits, else emit the message and start afresh. */
  function ListStep(st: Chunking, name: string): Chunking {
    if |st.message| + |name| < MAX_MESSAGE_LENGTH then Chunking(st.out, st.message + name + ", ")
    else Chunking(st.out + [Trim2(st.message)], name + ", ")
  }

  function ListFold(sel: seq<string>): Chunking {
    if |sel| == 0 then Chunking([], "") else ListStep(ListFold(sel[..|sel| - 1]), sel[|sel| - 1])
  }

  /** The names of NAMES that pass the filter, in NAMES order. */
  function ValueNames(vals: seq<string>, search: string): (sel: seq<string>)
    ensures forall x :: x in sel <==> x in vals && Matches(x, search)
  {
    if |vals| == 0 then []
    else
      var init := vals[..|vals| - 1];
      var prev := ValueNames(init, search);
      assert vals == init + [vals[|vals| - 1]];
      if Matches(vals[|vals| - 1], search) then prev + [vals[|vals| - 1]] else prev
  }

  /** The `list` command's chunks: the emitted ones, then the last message. */
  function ListChunks(sel: seq<string>): seq<string> {
    var st := ListFold(sel);
    st.out + [Trim2(st.message)]
  }

  /** The `list` command's loop over `NAMES.values()`. */
  method ListNames(names: Dict<string, string>, search: string) returns (out: seq<string>)
    ensures out == ListChunks(ValueNames(Values(names), search))
  {
    var vals := Values(names);
    out := [];
    var message := "";
    ghost var sel: seq<string> := [];
    var i := 0;
    while i < |vals|
      invariant 0 <= i <= |vals|
      invariant sel == ValueNames(vals[..i], search)
      invariant ListFold(sel) == Chunking(out, message)
    {
      assert vals[..i + 1][..i] == vals[..i];
      var name := vals[i];
      if Matches(name, search) {
        assert (sel + [name])[..|sel|] == sel;
        if |message| + |name| < MAX_MESSAGE_LENGTH {
          message := message + name + ", ";
        } else {
          out := out + [Trim2(message)];
          message := name + ", ";
        }
        sel := sel + [name];
      }
      i := i + 1;
    }
    assert vals[..i] == vals;
    out := out + [Trim2(message)];
  }

  /** A chunk of the `list` command is shorter than the limit, or is a single name that alone reaches it. */
  predicate ChunkFits(c: string, sel: seq<string>) {
    |c| < MAX_MESSAGE_LENGTH || c in sel
  }

  /** The message being filled either stays within the limit plus its `", "`, or is one name. */
  predicate MessageFits(m: string, sel: seq<string>) {
    |m| <= MAX_MESSAGE_LENGTH + 1 || exists k :: 0 <= k < |sel| && m == sel[k] + ", "
  }

  lemma {:induction false} ListFoldFits(sel: seq<string>)
    ensures MessageFits(ListFold(sel).message, sel)
    ensures forall i :: 0 <= i < |ListFold(sel).out| ==> ChunkFits(ListFold(sel).out[i], sel)
  {
    if |sel| > 0 {
      var init := sel[..|sel| - 1];
      var last := sel[|sel| - 1];
      ListFoldFits(init);
      var st := ListFold(init);
      assert forall x :: x in init ==> x in sel;
      if |st.message| + |last| >= MAX_MESSAGE_LENGTH {
        assert ChunkFits(Trim2(st.message), sel) by {
          if |st.message| > MAX_MESSAGE_LENGTH + 1 {
            var k :| 0 <= k < |init| && st.message == init[k] + ", ";
            assert Trim2(st.message) == init[k];
          }
        }
        assert ListFold(sel).message == sel[|sel| - 1] + ", ";
      }
    }
  }

  /** Every chunk of the `list` command is shorter than MAX_MESSAGE_LENGTH unless it is one overlong name. */
  lemma ListChunksFit(sel: seq<string>)
    ensures forall i :: 0 <= i < |ListChunks(sel)| ==> ChunkFits(ListChunks(sel)[i], sel)
  {
    ListFoldFits(sel);
    var m := ListFold(sel).message;
    if |m| > MAX_MESSAGE_LENGTH + 1 {
      var k :| 0 <= k < |sel| && m == sel[k] + ", ";
      assert Trim2(m) == sel[k];
    }
  }

  /**
   * When all the selected names fit in one message, the two listings agree: a single chunk
   * holding every name, separated by `", "`.
   */
  lemma {:induction false} ShortListOneChunk(sel: seq<string>)
    requires |Listed(sel)| <= MAX_MESSAGE_LENGTH
    ensures ListFold(sel) == Chunking([], Listed(sel))
    ensures Emitted(sel) == []
    ensures ListChunks(sel) == PrintChunks(sel) == [Trim2(Listed(sel))]
  {
    if |sel| > 0 {
      var init := sel[..|sel| - 1];
      ShortListOneChunk(init);
    }
  }
}
