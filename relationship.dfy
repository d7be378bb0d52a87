/**
 * The toy commands of cogs/other.py: `calc_relationship`, an ord-sum modulo
 * 101; `snap`, the parity of a name's ord-sum; `ship`, a ten-cell bar and the
 * first description whose threshold reaches the percentage; and `shipall`,
 * the guild's members ranked by their relationship with a word.
 *
 * Characters are Unicode code points, so `ord(c)` is `c as int`. The member
 * list of the guild is a parameter.
 */
module Relationship {
  import opened Text

  // ---------------------------------------------------------------- calc_relationship

  /** The sum of `ord(c)` over the characters of `s`. */
  function OrdSum(s: string): nat {
    if |s| == 0 then 0 else OrdSum(s[..|s| - 1]) + s[|s| - 1] as int
  }

  /** The ord-sum of a concatenation is the sum of the ord-sums. */
  lemma {:induction false} OrdSumAppend(a: string, b: string)
    ensures OrdSum(a + b) == OrdSum(a) + OrdSum(b)
    decreases |b|
  {
    if |b| == 0 {
      assert a + b == a;
    } else {
      OrdSumAppend(a, b[..|b| - 1]);
      assert (a + b)[..|a + b| - 1] == a + b[..|b| - 1];
    }
  }

  const OFFSET: nat := 32
  const MODULUS: nat := 101

  /** `calc_relationship(name1, name2)`: both names' characters summed, offset, reduced modulo 101. */
  function Relationship(name1: string, name2: string): nat {
    (OrdSum(name1) + OrdSum(name2) + OFFSET) % MODULUS
  }

  /** The score depends only on the two names run together, in either order. */
  lemma RelationshipOfConcat(a: string, b: string)
    ensures Relationship(a, b) == Relationship(a + b, "")
    ensures Relationship(a, b) == Relationship(b, a)
    ensures Relationship(a, b) == Relationship(b + a, "")
  {
    OrdSumAppend(a, b);
    OrdSumAppend(b, a);
  }

  /** The inner `for c in name: total += ord(c)` loop. */
  method AddOrds(total: nat, name: string) returns (sum: nat)
    ensures sum == total + OrdSum(name)
  {
    sum := total;
    for j := 0 to |name|
      invariant sum == total + OrdSum(name[..j])
    {
      assert name[..j + 1][..j] == name[..j];
      sum := sum + name[j] as int;
    }
    assert name[..|name|] == name;
  }

  /** `calc_relationship`: the nested `total += ord(c)` loops. */
  method CalcRelationship(name1: string, name2: string) returns (percent: nat)
    ensures percent == Relationship(name1, name2)
    ensures 0 <= percent <= 100
  {
    var names := [name1, name2];
    var total := 0;
    for i := 0 to 2
      invariant total == if i == 0 then 0 else if i == 1 then OrdSum(name1) else OrdSum(name1) + OrdSum(name2)
    {
      total := AddOrds(total, names[i]);
    }
    percent := (total + OFFSET) % MODULUS;
  }

  // ---------------------------------------------------------------- snap

  /** The name judged: the arguments joined by spaces, or else the author's nick, or else the author's name. */
  function SnapName(args: seq<string>, nick: Option<string>, name: string): string {
    if |args| > 0 then Join(args, ' ')
    else if nick.Some? && |nick.value| > 0 then nick.value
    else name
  }

  const SPARED := ", you were spared by Thanos."
  const SLAIN := ", you were slain by Thanos, for the good of the Universe."

  /** Number of characters with an odd code point. */
  function OddCount(s: string): nat {
    if |s| == 0 then 0 else OddCount(s[..|s| - 1]) + (if s[|s| - 1] as int % 2 == 1 then 1 else 0)
  }

  /** A name is spared exactly when an even number of its characters have an odd code point. */
  lemma {:induction false} SparedIffEvenOdd(s: string)
    ensures OrdSum(s) % 2 == OddCount(s) % 2
  {
    if |s| > 0 {
      SparedIffEvenOdd(s[..|s| - 1]);
    }
  }

  /** The reply of `snap`: the title-cased name and the verdict of the ord-sum's parity. */
  function SnapReply(name: string): string {
    Title(name) + (if OrdSum(name) % 2 == 0 then SPARED else SLAIN)
  }

  /** `snap` */
  method Snap(args: seq<string>, nick: Option<string>, name: string) returns (reply: string)
    ensures reply == SnapReply(SnapName(args, nick, name))
  {
    var judged := SnapName(args, nick, name);
    var total := 0;
    for j := 0 to |judged|
      invariant total == OrdSum(judged[..j])
    {
      assert judged[..j + 1][..j] == judged[..j];
      total := total + judged[j] as int;
    }
    assert judged[..|judged|] == judged;
    if total % 2 == 0 {
      reply := Title(judged) + SPARED;
    } else {
      reply := Title(judged) + SLAIN;
    }
  }

  // ---------------------------------------------------------------- ship

  /** `name.lower().replace(' ', '')` */
  function ShipName(s: string): string {
    Replace(Lower(s), " ", "")
  }

  /** Deleting the spaces leaves no space, and removes exactly as many characters as there were spaces. */
  lemma {:induction false} SpacesDeleted(s: string)
    ensures ' ' !in Replace(s, " ", "")
    ensures |Replace(s, " ", "")| == |s| - Count(s, ' ')
  {
    if |s| > 0 {
      SpacesDeleted(s[1..]);
      if s[..1] == " " {
        assert s[1..] == s[|" "|..];
      } else {
        assert s[0] != ' ';
      }
    }
  }

  /** The pair shipped: one argument goes with the author's name, two go with each other, any other count does nothing. */
  function ShipPair(args: seq<string>, author: string): (r: Option<(string, string)>)
    ensures r.Some? <==> |args| == 1 || |args| == 2
    ensures r.Some? ==> ' ' !in r.value.0 && ' ' !in r.value.1
  {
    SpacesDeleted(Lower(author));
    if |args| == 1 then
      SpacesDeleted(Lower(args[0]));
      Some((ShipName(author), ShipName(args[0])))
    else if |args| == 2 then
      SpacesDeleted(Lower(args[0]));
      SpacesDeleted(Lower(args[1]));
      Some((ShipName(args[0]), ShipName(args[1])))
    else None
  }

  const FULL: char := '\U{2588}'
  /** An em space and a zero-width space: one empty cell of the bar. */
  const EMPTY: string := "\U{2003}\U{200B}"
  const CELLS: nat := 10

  function Repeat(s: string, n: nat): (r: string)
    ensures |r| == n * |s|
  {
    if n == 0 then "" else Repeat(s, n - 1) + s
  }

  /** `int(math.floor(percent / 10))` full cells, then the rest of the ten cells empty. */
  function Bar(percent: nat): string
    requires percent <= 100
  {
    Repeat([FULL], percent / 10) + Repeat(EMPTY, CELLS - percent / 10)
  }

  lemma {:induction false} RepeatCount(s: string, n: nat, c: char)
    ensures Count(Repeat(s, n), c) == n * Count(s, c)
  {
    if n > 0 {
      RepeatCount(s, n - 1, c);
      CountAppend(Repeat(s, n - 1), s, c);
    }
  }

  lemma {:induction false} CountAppend(a: string, b: string, c: char)
    ensures Count(a + b, c) == Count(a, c) + Count(b, c)
  {
    if |a| > 0 {
      CountAppend(a[1..], b, c);
      assert (a + b)[1..] == a[1..] + b;
    } else {
      assert a + b == b;
    }
  }

  /** The bar has one full cell per complete ten percent (none at all below 10, ten at 100), and ten cells in all. */
  lemma BarCells(percent: nat)
    requires percent <= 100
    ensures Count(Bar(percent), FULL) == percent / 10 <= CELLS
    ensures Count(Bar(percent), EMPTY[0]) == CELLS - percent / 10
    ensures |Bar(percent)| == percent / 10 + 2 * (CELLS - percent / 10)
  {
    var n := percent / 10;
    assert n <= CELLS;
    var full := Repeat([FULL], n);
    var empty := Repeat(EMPTY, CELLS - n);
    assert Bar(percent) == full + empty;
    CellCounts(n, CELLS - n);
    CountAppend(full, empty, FULL);
    CountAppend(full, empty, EMPTY[0]);
  }

  /** `n` full cells hold `n` full blocks and no em space; `m` empty cells the other way round. */
  lemma CellCounts(n: nat, m: nat)
    ensures Count(Repeat([FULL], n), FULL) == n && Count(Repeat([FULL], n), EMPTY[0]) == 0
    ensures Count(Repeat(EMPTY, m), FULL) == 0 && Count(Repeat(EMPTY, m), EMPTY[0]) == m
  {
    assert Count([FULL], FULL) == 1 && Count([FULL], EMPTY[0]) == 0;
    assert EMPTY[1..][1..] == [] && Count(EMPTY[1..][1..], FULL) == 0 && Count(EMPTY[1..][1..], EMPTY[0]) == 0;
    assert Count(EMPTY[1..], FULL) == 0 && Count(EMPTY[1..], EMPTY[0]) == 0;
    assert Count(EMPTY, FULL) == 0 && Count(EMPTY, EMPTY[0]) == 1;
    RepeatCount([FULL], n, FULL);
    RepeatCount([FULL], n, EMPTY[0]);
    RepeatCount(EMPTY, m, FULL);
    RepeatCount(EMPTY, m, EMPTY[0]);
  }

  /** The two `for` loops that draw the bar. */
  method DrawBar(percent: nat) returns (out: string)
    requires percent <= 100
    ensures out == Bar(percent)
  {
    var bars := percent / 10;
    out := "";
    for k := 0 to bars
      invariant out == Repeat([FULL], k)
    {
      out := out + [FULL];
    }
    for k := 0 to CELLS - bars
      invariant out == Repeat([FULL], bars) + Repeat(EMPTY, k)
    {
      out := out + EMPTY;
    }
  }

  const LENNY := "( \U{0361}\U{00B0} \U{035C}\U{0296} \U{0361}\U{00B0})"

  /** The `descriptions` dict, in its key order. */
  const DESCRIPTIONS: seq<(nat, string)> := [
    (9, "Awful :sob:"),
    (19, "Bad :cry:"),
    (29, "Pretty low :frowning:"),
    (39, "Not Too Great :confused:"),
    (49, "Worse Than Average :neutral_face:"),
    (59, "Barely :no_mouth:"),
    (68, "Not Bad :slight_smile:"),
    (69, LENNY),
    (79, "Pretty Good :smiley:"),
    (89, "Great :smile:"),
    (99, "Amazing :heart_eyes:"),
    (100, "PERFECT! :heart_exclamation:")
  ]

  /** The position of the first entry whose threshold is at least `percent`, if any. */
  function FirstAtLeast(percent: int, ds: seq<(nat, string)>): (k: nat)
    ensures k <= |ds|
    ensures forall j :: 0 <= j < k ==> ds[j].0 < percent
    ensures k < |ds| ==> percent <= ds[k].0
  {
    if |ds| == 0 then 0
    else if percent <= ds[0].0 then 0
    else 1 + FirstAtLeast(percent, ds[1..])
  }

  /** The description chosen by the `for ... else` loop. */
  function Description(percent: int): string {
    var k := FirstAtLeast(percent, DESCRIPTIONS);
    if k < |DESCRIPTIONS| then DESCRIPTIONS[k].1 else DESCRIPTIONS[|DESCRIPTIONS| - 1].1
  }

  /** The thresholds ascend, so the first one reaching the score is the tightest; 0..100 never needs the `else`. */
  lemma DescriptionsCover(percent: int)
    requires 0 <= percent <= 100
    ensures FirstAtLeast(percent, DESCRIPTIONS) < |DESCRIPTIONS|
    ensures forall j :: 0 <= j < |DESCRIPTIONS| && percent <= DESCRIPTIONS[j].0 ==>
      DESCRIPTIONS[FirstAtLeast(percent, DESCRIPTIONS)].0 <= DESCRIPTIONS[j].0
  {
    assert DESCRIPTIONS[|DESCRIPTIONS| - 1].0 == 100;
    assert forall i, j :: 0 <= i < j < |DESCRIPTIONS| ==> DESCRIPTIONS[i].0 < DESCRIPTIONS[j].0;
  }

  /** 69 has an entry of its own, between "Not Bad" (60..68) and "Pretty Good" (70..79). */
  lemma SixtyNine()
    ensures Description(69) == LENNY
    ensures Description(68) == "Not Bad :slight_smile:"
    ensures Description(70) == "Pretty Good :smiley:"
  {
    FirstIsUnique(69, DESCRIPTIONS, 7);
    FirstIsUnique(68, DESCRIPTIONS, 6);
    FirstIsUnique(70, DESCRIPTIONS, 8);
  }

  /** The `for max_value in descriptions.keys()` loop with its `break` and `else`. */
  method Describe(percent: int) returns (text: string)
    ensures text == Description(percent)
  {
    var i := 0;
    while i < |DESCRIPTIONS|
      invariant 0 <= i <= |DESCRIPTIONS|
      invariant forall j :: 0 <= j < i ==> DESCRIPTIONS[j].0 < percent
    {
      if percent <= DESCRIPTIONS[i].0 {
        FirstIsUnique(percent, DESCRIPTIONS, i);
        return DESCRIPTIONS[i].1;
      }
      i := i + 1;
    }
    FirstIsUnique(percent, DESCRIPTIONS, i);
    text := DESCRIPTIONS[|DESCRIPTIONS| - 1].1;
  }

  lemma {:induction false} FirstIsUnique(percent: int, ds: seq<(nat, string)>, i: nat)
    requires i <= |ds|
    requires forall j :: 0 <= j < i ==> ds[j].0 < percent
    requires i < |ds| ==> percent <= ds[i].0
    ensures FirstAtLeast(percent, ds) == i
  {
    if i > 0 {
      FirstIsUnique(percent, ds[1..], i - 1);
    }
  }

  /** The whole `ship` message for two names. */
  function ShipText(person1: string, person2: string): string {
    var percent := Relationship(person1, person2);
    HEADER +
    ":small_red_triangle_down: *`" + person1 + "`*\n" +
    ":small_red_triangle: *`" + person2 + "`*\n\n" +
    "**" + NatToString(percent) + "%** \U{200B}`" +
    Bar(percent) + "`\n\n" + Description(percent)
  }

  /** `ship`: nothing for the wrong number of arguments, else the message for the normalised pair. */
  method Ship(args: seq<string>, author: string) returns (out: Option<string>)
    ensures out.None? <==> |args| != 1 && |args| != 2
    ensures out.Some? ==> out.value == ShipText(ShipPair(args, author).value.0, ShipPair(args, author).value.1)
  {
    var pair := ShipPair(args, author);
    if pair.None? {
      return None;
    }
    var (person1, person2) := pair.value;
    var percent := CalcRelationship(person1, person2);
    var text := HEADER +
      ":small_red_triangle_down: *`" + person1 + "`*\n" +
      ":small_red_triangle: *`" + person2 + "`*\n\n" +
      "**" + NatToString(percent) + "%** \U{200B}`";
    var bar := DrawBar(percent);
    text := text + bar + "`\n\n";
    var description := Describe(percent);
    out := Some(text + description);
  }

  // ---------------------------------------------------------------- shipall

  /** A member's score, its position in the member list and its name. */
  datatype Entry = Entry(percent: nat, index: nat, name: string)

  /**
   * `a` goes strictly before `b`: a higher score first (a lower one with `bottom`), equal scores
   * in member-list order, which is what the stable `sorted` does in both directions.
   */
  predicate Before(a: Entry, b: Entry, descending: bool) {
    if a.percent != b.percent then (if descending then a.percent > b.percent else a.percent < b.percent)
    else a.index < b.index
  }

  predicate Ranked(s: seq<Entry>, descending: bool) {
    forall i, j :: 0 <= i < j < |s| ==> !Before(s[j], s[i], descending)
  }

  /** Not going after `b` and `b` not going after `c` means not going after `c`. */
  lemma NotBeforeTransitive(a: Entry, b: Entry, c: Entry, descending: bool)
    requires !Before(b, a, descending) && !Before(c, b, descending)
    ensures !Before(c, a, descending)
  {
  }

  function Insert(x: Entry, s: seq<Entry>, descending: bool): (r: seq<Entry>)
    ensures multiset(r) == multiset(s) + multiset{x}
  {
    if |s| == 0 || !Before(s[0], x, descending) then [x] + s
    else
      assert s == [s[0]] + s[1..];
      [s[0]] + Insert(x, s[1..], descending)
  }

  /** Inserting into a ranking keeps it a ranking. */
  lemma {:induction false} InsertRanked(x: Entry, s: seq<Entry>, descending: bool)
    requires Ranked(s, descending)
    ensures Ranked(Insert(x, s, descending), descending)
  {
    var r := Insert(x, s, descending);
    if |s| == 0 {
    } else if !Before(s[0], x, descending) {
      forall j | 0 <= j < |s|
        ensures !Before(s[j], x, descending)
      {
        if j > 0 {
          NotBeforeTransitive(x, s[0], s[j], descending);
        }
      }
    } else {
      InsertRanked(x, s[1..], descending);
      var rest := Insert(x, s[1..], descending);
      forall k | 0 <= k < |rest|
        ensures !Before(rest[k], s[0], descending)
      {
        assert rest[k] in multiset(s[1..]) + multiset{x};
        if rest[k] != x {
          assert rest[k] in s[1..];
        }
      }
    }
  }

  /** `sorted(relationships, key=lambda x: x[0], reverse=...)` */
  function Rank(s: seq<Entry>, descending: bool): (r: seq<Entry>)
    ensures multiset(r) == multiset(s)
    ensures |r| == |s|
  {
    if |s| == 0 then []
    else
      assert s == [s[0]] + s[1..];
      Insert(s[0], Rank(s[1..], descending), descending)
  }

  /** The sorted list is a ranking of the members. */
  lemma {:induction false} RankRanked(s: seq<Entry>, descending: bool)
    ensures Ranked(Rank(s, descending), descending)
  {
    if |s| > 0 {
      RankRanked(s[1..], descending);
      InsertRanked(s[0], Rank(s[1..], descending), descending);
    }
  }

  /** The relationships in member order: `calc_relationship(word, name)` with both normalised. */
  function Scores(word: string, names: seq<string>): (r: seq<Entry>)
    ensures |r| == |names|
    ensures forall i :: 0 <= i < |names| ==> r[i] == Entry(Relationship(word, ShipName(names[i])), i, names[i])
  {
    seq(|names|, i requires 0 <= i < |names| => Entry(Relationship(word, ShipName(names[i])), i, names[i]))
  }

  function RankLine(i: nat, word: string, e: Entry): string {
    "**" + NatToString(i + 1) + "**: `" + word + "` :heart: `" + e.name + "`: " + NatToString(e.percent) + "%\n"
  }

  const LISTED: nat := 10

  function RankLines(word: string, ranked: seq<Entry>, n: nat): string
    requires n <= |ranked|
  {
    if n == 0 then "" else RankLines(word, ranked, n - 1) + RankLine(n - 1, word, ranked[n - 1])
  }

  /**
   * In a ranking, every listed member scores at least as high as every member left out (at most
   * as high with `bottom`), and members with equal scores keep their guild order.
   */
  lemma TopListed(ranked: seq<Entry>, descending: bool, k: nat, j: nat)
    requires Ranked(ranked, descending) && k < j < |ranked|
    ensures descending ==> ranked[k].percent >= ranked[j].percent
    ensures !descending ==> ranked[k].percent <= ranked[j].percent
    ensures ranked[k].percent == ranked[j].percent ==> ranked[k].index <= ranked[j].index
  {
  }

  const HEADER := ":heartpulse: __**MATCHMAKING**__ :heartpulse:\n"

  /** The loop appending `(percent, member)` for every guild member. */
  method ScoreAll(w: string, names: seq<string>) returns (relationships: seq<Entry>)
    ensures relationships == Scores(w, names)
  {
    relationships := [];
    for i := 0 to |names|
      invariant relationships == Scores(w, names)[..i]
    {
      var percent := CalcRelationship(w, ShipName(names[i]));
      relationships := relationships + [Entry(percent, i, names[i])];
    }
  }

  /** The `for i in range(10)` loop; reading past the end of a shorter ranking is an IndexError. */
  method ListTop(w: string, ranked: seq<Entry>) returns (out: Option<string>)
    ensures out.None? <==> |ranked| < LISTED
    ensures out.Some? ==> |ranked| >= LISTED && out.value == HEADER + RankLines(w, ranked, LISTED)
  {
    var lines := "";
    for i := 0 to LISTED
      invariant i <= |ranked|
      invariant lines == RankLines(w, ranked, i)
    {
      if i >= |ranked| {
        return None;
      }
      lines := lines + RankLine(i, w, ranked[i]);
    }
    out := Some(HEADER + lines);
  }

  /** `shipall`: a ranking of the whole guild, of which the first ten are listed; fewer than ten members is an IndexError. */
  method ShipAll(word: string, names: seq<string>, bottom: bool) returns (out: Option<string>)
    ensures out.None? <==> |names| < LISTED
    ensures out.Some? ==>
      out.value == HEADER + RankLines(ShipName(word), Rank(Scores(ShipName(word), names), !bottom), LISTED)
  {
    var w := ShipName(word);
    var relationships := ScoreAll(w, names);
    out := ListTop(w, Rank(relationships, !bottom));
  }
}
