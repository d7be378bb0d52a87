/**
 * `generate_nick`, identical in helpers/markov_helpers.py,
 * cogs/helpers/markov_helpers.py and markov.py: walk the user ids in order,
 * append `name + '+'` while the nickname so far plus the name is shorter than
 * MAX_NICKNAME_LENGTH, then either drop the trailing `+` (every name fit) or
 * append the decimal count of names left out.
 */
module Nickname {
  import opened Text
  import opened OrderedDict

  const MAX_NICKNAME_LENGTH: nat := 30

  /** One loop step: append `name + '+'` when it fits. */
  function AddIfFits(acc: string, name: string, maxLen: nat): string {
    if |acc| + |name| < maxLen then acc + name + "+" else acc
  }

  /** The `+`-terminated accumulator after the loop. */
  function Accumulate(names: seq<string>, maxLen: nat): string {
    if |names| == 0 then ""
    else AddIfFits(Accumulate(names[..|names| - 1], maxLen), names[|names| - 1], maxLen)
  }

  /** The names the loop appended, in order. */
  function Kept(names: seq<string>, maxLen: nat): seq<string> {
    if |names| == 0 then []
    else
      var prev := Kept(names[..|names| - 1], maxLen);
      if |Accumulate(names[..|names| - 1], maxLen)| + |names[|names| - 1]| < maxLen
      then prev + [names[|names| - 1]] else prev
  }

  /** Each name followed by `+`. */
  function Terminated(ks: seq<string>): string {
    if |ks| == 0 then "" else Terminated(ks[..|ks| - 1]) + ks[|ks| - 1] + "+"
  }

  function DropLast(s: string): string {
    if |s| > 0 then s[..|s| - 1] else ""
  }

  /** `generate_nick` with the omitted count taken from the names actually kept. */
  function Nick(names: seq<string>, maxLen: nat): string {
    var acc := Accumulate(names, maxLen);
    var kept := |Kept(names, maxLen)|;
    if kept < |names| then acc + NatToString(|names| - kept) else DropLast(acc)
  }

  /** `generate_nick` as written: the kept names are recounted as `len(nickname[:-1].split('+'))`. */
  function NickAsWritten(names: seq<string>, maxLen: nat): string {
    var acc := Accumulate(names, maxLen);
    var counted := |Split(DropLast(acc), '+')|;
    if counted < |names| then acc + NatToString(|names| - counted) else DropLast(acc)
  }

  /** The accumulator is exactly the kept names, each followed by `+`, and some of the input. */
  lemma {:induction false} AccumulateIsKept(names: seq<string>, maxLen: nat)
    ensures Accumulate(names, maxLen) == Terminated(Kept(names, maxLen))
    ensures |Kept(names, maxLen)| <= |names|
  {
    if |names| > 0 {
      AccumulateIsKept(names[..|names| - 1], maxLen);
      var prev := Kept(names[..|names| - 1], maxLen);
      var last := names[|names| - 1];
      if |Accumulate(names[..|names| - 1], maxLen)| + |last| < maxLen {
        assert (prev + [last])[..|prev|] == prev;
      }
    }
  }

  /** The accumulator never grows past MAX_NICKNAME_LENGTH. */
  lemma {:induction false} AccumulateBounded(names: seq<string>, maxLen: nat)
    ensures |Accumulate(names, maxLen)| <= maxLen
  {
    if |names| > 0 {
      AccumulateBounded(names[..|names| - 1], maxLen);
    }
  }

  /** A non-empty list of kept names, `+`-terminated, is their `+`-join followed by `+`. */
  lemma {:induction false} TerminatedIsJoin(ks: seq<string>)
    requires |ks| > 0
    ensures Terminated(ks) == Join(ks, '+') + "+"
  {
    if |ks| > 1 {
      var init := ks[..|ks| - 1];
      TerminatedIsJoin(init);
      JoinSnoc(init, ks[|ks| - 1], '+');
      assert ks == init + [ks[|ks| - 1]];
    } else {
      assert ks[..0] == [];
    }
  }

  lemma {:induction false} JoinSnoc(ks: seq<string>, x: string, sep: char)
    requires |ks| > 0
    ensures Join(ks + [x], sep) == Join(ks, sep) + [sep] + x
  {
    if |ks| > 1 {
      assert (ks + [x])[1..] == ks[1..] + [x];
      JoinSnoc(ks[1..], x, sep);
    }
  }

  /** When every name fits, the nickname is the names joined by `+` in input order, without a trailing `+`. */
  lemma AllFit(names: seq<string>, maxLen: nat)
    requires |Kept(names, maxLen)| == |names|
    ensures Nick(names, maxLen) == Join(names, '+')
  {
    AccumulateIsKept(names, maxLen);
    KeptAllIsNames(names, maxLen);
    if |names| > 0 {
      TerminatedIsJoin(names);
    }
  }

  lemma {:induction false} KeptAllIsNames(names: seq<string>, maxLen: nat)
    requires |Kept(names, maxLen)| == |names|
    ensures Kept(names, maxLen) == names
  {
    if |names| > 0 {
      AccumulateIsKept(names[..|names| - 1], maxLen);
      var prev := Kept(names[..|names| - 1], maxLen);
      if |Accumulate(names[..|names| - 1], maxLen)| + |names[|names| - 1]| >= maxLen {
        assert false;
      }
      KeptAllIsNames(names[..|names| - 1], maxLen);
      assert names == names[..|names| - 1] + [names[|names| - 1]];
    }
  }

  /**
   * When some names are left out, the kept names keep their `+` terminators and the decimal
   * count of omitted names follows: `A+B+n`.
   */
  lemma SomeOmitted(names: seq<string>, maxLen: nat)
    requires |Kept(names, maxLen)| < |names|
    ensures Nick(names, maxLen) == Terminated(Kept(names, maxLen)) + NatToString(|names| - |Kept(names, maxLen)|)
    ensures |Kept(names, maxLen)| > 0 ==> Nick(names, maxLen) == Join(Kept(names, maxLen), '+') + "+" + NatToString(|names| - |Kept(names, maxLen)|)
  {
    AccumulateIsKept(names, maxLen);
    if |Kept(names, maxLen)| > 0 {
      TerminatedIsJoin(Kept(names, maxLen));
    }
  }

  lemma {:induction false} KeptAreNames(names: seq<string>, maxLen: nat)
    ensures forall k :: 0 <= k < |Kept(names, maxLen)| ==> Kept(names, maxLen)[k] in names
  {
    if |names| > 0 {
      KeptAreNames(names[..|names| - 1], maxLen);
      assert forall x :: x in names[..|names| - 1] ==> x in names;
    }
  }

  /** With at least one name kept and no `+` inside names, the recount agrees with the kept count. */
  lemma AsWrittenAgrees(names: seq<string>, maxLen: nat)
    requires forall k :: 0 <= k < |names| ==> '+' !in names[k]
    requires |Kept(names, maxLen)| > 0
    ensures NickAsWritten(names, maxLen) == Nick(names, maxLen)
  {
    var ks := Kept(names, maxLen);
    AccumulateIsKept(names, maxLen);
    TerminatedIsJoin(ks);
    KeptAreNames(names, maxLen);
    forall k | 0 <= k < |ks|
      ensures '+' !in ks[k]
    {
      var j :| 0 <= j < |names| && names[j] == ks[k];
    }
    var acc := Accumulate(names, maxLen);
    var joined := Join(ks, '+');
    assert acc == joined + "+";
    assert (joined + "+")[..|joined + "+"| - 1] == joined;
    assert DropLast(acc) == joined;
    SplitJoin(ks, '+');
    assert |Split(DropLast(acc), '+')| == |ks|;
  }

  /**
   * When no name fits, `nickname[:-1].split('+')` is `['']`, a phantom name: the suffix
   * undercounts by one, and a single oversized name gives the empty nickname.
   */
  lemma NoNameFitsUndercounts(names: seq<string>, maxLen: nat)
    requires |names| > 0 && |Kept(names, maxLen)| == 0
    ensures NickAsWritten(names, maxLen) == if |names| > 1 then NatToString(|names| - 1) else ""
    ensures Nick(names, maxLen) == NatToString(|names|)
    ensures NickAsWritten(names, maxLen) != Nick(names, maxLen)
  {
    AccumulateIsKept(names, maxLen);
    assert Accumulate(names, maxLen) == "";
    assert Split("", '+') == [""];
    NatToStringInjective(|names| - 1, |names|);
  }

  /**
   * A kept name that contains `+` is recounted as several names: with `a+b` kept and a
   * 30-character name left out, the source drops the trailing `+` and reports nothing left out.
   */
  lemma PlusInNameMiscounts(long: string)
    requires |long| == MAX_NICKNAME_LENGTH
    ensures NickAsWritten(["a+b", long], MAX_NICKNAME_LENGTH) == "a+b"
    ensures Nick(["a+b", long], MAX_NICKNAME_LENGTH) == "a+b+1"
  {
    var names := ["a+b", long];
    assert names[..1] == ["a+b"] && names[..1][..0] == [];
    assert Accumulate(names[..1], MAX_NICKNAME_LENGTH) == "a+b+";
    assert Kept(names[..1], MAX_NICKNAME_LENGTH) == ["a+b"];
    assert Accumulate(names, MAX_NICKNAME_LENGTH) == "a+b+";
    assert DropLast("a+b+") == "a+b";
    SplitPrefix("a", "b", '+');
    assert "a" + ['+'] + "b" == "a+b";
    SplitNoSep("b", '+');
    assert |Split("a+b", '+')| == 2;
    assert NatToString(1) == "1";
  }

  /** The names of the ids, looked up in NAMES. */
  function NamesOf(table: Dict<string, string>, ids: seq<string>): (names: seq<string>)
    requires forall i :: 0 <= i < |ids| ==> ids[i] in Keys(table)
    ensures |names| == |ids|
  {
    seq(|ids|, i requires 0 <= i < |ids| => Get(table, ids[i]).value)
  }

  /** One more name: it is appended, and counted as kept, exactly when it fits. */
  lemma AccumulateStep(names: seq<string>, name: string, maxLen: nat)
    ensures Accumulate(names + [name], maxLen) == AddIfFits(Accumulate(names, maxLen), name, maxLen)
    ensures |Kept(names + [name], maxLen)| ==
      |Kept(names, maxLen)| + (if |Accumulate(names, maxLen)| + |name| < maxLen then 1 else 0)
  {
    assert (names + [name])[..|names|] == names;
  }

  /**
   * `generate_nick`: `None` is the KeyError raised by `NAMES[userid]` for an id missing from
   * NAMES; otherwise the nickname of the looked-up names, omitted count taken from the names kept.
   */
  method GenerateNick(table: Dict<string, string>, ids: seq<string>) returns (r: Option<string>)
    ensures r.None? <==> exists i :: 0 <= i < |ids| && ids[i] !in Keys(table)
    ensures r.Some? ==> r.value == Nick(NamesOf(table, ids), MAX_NICKNAME_LENGTH)
  {
    var found, nickname, kept, names := LookUpNames(table, ids);
    if !found {
      return None;
    }
    if kept < |ids| {
      nickname := nickname + NatToString(|ids| - kept);
    } else {
      nickname := DropLast(nickname);
    }
    r := Some(nickname);
  }

  /** The loop of `generate_nick`: every id is looked up, and the names that fit are appended with a `+`. */
  method LookUpNames(table: Dict<string, string>, ids: seq<string>)
    returns (found: bool, nickname: string, kept: nat, ghost names: seq<string>)
    ensures found <==> forall j :: 0 <= j < |ids| ==> ids[j] in Keys(table)
    ensures found ==> (names == NamesOf(table, ids) && nickname == Accumulate(names, MAX_NICKNAME_LENGTH) &&
      kept == |Kept(names, MAX_NICKNAME_LENGTH)|)
  {
    nickname, kept, names := "", 0, [];
    var i := 0;
    while i < |ids|
      invariant 0 <= i <= |ids|
      invariant |names| == i && forall j :: 0 <= j < i ==> Get(table, ids[j]) == Some(names[j])
      invariant nickname == Accumulate(names, MAX_NICKNAME_LENGTH)
      invariant kept == |Kept(names, MAX_NICKNAME_LENGTH)|
    {
      var name := Get(table, ids[i]);
      if name.None? {
        return false, nickname, kept, names;
      }
      nickname, kept := AddName(nickname, kept, names, name.value);
      names := names + [name.value];
      i := i + 1;
    }
    found := true;
  }

  /** One pass of the loop body: the name is appended with its `+` when it fits. */
  method AddName(nickname: string, kept: nat, ghost names: seq<string>, name: string)
    returns (nickname': string, kept': nat)
    requires nickname == Accumulate(names, MAX_NICKNAME_LENGTH) && kept == |Kept(names, MAX_NICKNAME_LENGTH)|
    ensures nickname' == Accumulate(names + [name], MAX_NICKNAME_LENGTH)
    ensures kept' == |Kept(names + [name], MAX_NICKNAME_LENGTH)|
  {
    AccumulateStep(names, name, MAX_NICKNAME_LENGTH);
    nickname', kept' := nickname, kept;
    if |nickname| + |name| < MAX_NICKNAME_LENGTH {
      nickname' := nickname + name + "+";
      kept' := kept + 1;
    }
  }
}
