/**
 * `parse_names` and `get_name`, in their three copies: helpers/markov_helpers.py
 * (only ids of guild members take part, MAX_NUM_NAMES = 5 from consts.py),
 * cogs/helpers/markov_helpers.py (no guild filter, MAX_NUM_NAMES from a
 * config module that is not part of this model, so a parameter) and markov.py
 * (no guild filter, MAX_NUM_NAMES = 10).
 *
 * The input is lower-cased and split on `+`; each part is a tag (`rand`,
 * `all`, `me`) or a name resolved against NAMES by exact case-insensitive
 * match (which wins at once) or by a unique substring match. Python's
 * exceptions become the `ParseError` variants.
 */
module NameResolution {
  import opened Text
  import opened OrderedDict

  const INCLUSIVE_TAG := "all"
  const RANDOM_TAG := "rand"
  const REFLEXIVE_TAG := "me"

  /** The number of ids `random.sample(list(NAMES.keys()), 5)` draws for `all`. */
  const SAMPLE_SIZE: nat := 5

  datatype ParseError =
    | TooManyInputs(number: nat)
    | NameNotFound(name: string)
    | Ambiguous(name: string, output: seq<string>)
    /** `random.choice` of an empty NAMES: IndexError. */
    | EmptyChoice
    /** `random.sample` of five from fewer than five ids: ValueError. */
    | SampleLargerThanPopulation
    /** `int(userid)` of a NAMES key that is not a number (guild-filtered copy only): ValueError. */
    | BadUserId(userid: string)

  datatype Resolution = Ok(ids: seq<string>) | Err(error: ParseError)

  /**
   * What distinguishes the three copies: the MAX_NUM_NAMES they use and, for the
   * helpers/ copy, the ids of the guild's members (`guild_ids`).
   */
  datatype Variant = Variant(maxNames: nat, guild: Option<set<nat>>)

  const HelpersMaxNames: nat := 5
  const MarkovMaxNames: nat := 10

  /**
   * The random draws, as inputs: for the part at position `i`, `choice(i)` is the raw draw
   * behind `random.choice` (an index modulo the number of ids), and `sample(i)` the offset of
   * the five consecutive ids taken for `all`.
   */
  datatype Draws = Draws(choice: nat -> nat, sample: nat -> nat)

  /** `get_name`: NAMES[id] when present, else None. */
  function GetName(names: Dict<string, string>, id: string): (r: Option<string>)
    ensures r.None? <==> id !in Keys(names)
    ensures r.Some? ==> exists i :: 0 <= i < |names| && names[i] == (id, r.value)
  {
    Get(names, id)
  }

  /** Whether a NAMES entry takes part in matching: always, or only when its id is a guild member. */
  predicate Eligible(id: string, guild: Option<set<nat>>) {
    guild.None? || (ParseNat(id).Some? && ParseNat(id).value in guild.value)
  }

  /** Result of the inner scan over NAMES for one name. */
  datatype Scan = Exact(id: string) | Matches(ids: seq<string>) | ScanBadId(badId: string)

  function Prepend(ms: seq<string>, s: Scan): Scan {
    if s.Matches? then Matches(ms + s.ids) else s
  }

  /** The scan of the inner `for userid in NAMES.keys()` loop, from the given entry on. */
  function ScanFrom(entries: Dict<string, string>, name: string, guild: Option<set<nat>>): Scan {
    if |entries| == 0 then Matches([])
    else
      var id := entries[0].0;
      var nm := Lower(entries[0].1);
      if guild.Some? && ParseNat(id).None? then ScanBadId(id)
      else if guild.Some? && ParseNat(id).value !in guild.value then ScanFrom(entries[1..], name, guild)
      else if name == nm then Exact(id)
      else if Contains(nm, name) then Prepend([id], ScanFrom(entries[1..], name, guild))
      else ScanFrom(entries[1..], name, guild)
  }

  /** The ids of the eligible entries whose lower-cased name contains `name`, in NAMES order. */
  function SubstringMatches(entries: Dict<string, string>, name: string, guild: Option<set<nat>>): seq<string> {
    if |entries| == 0 then []
    else
      var rest := SubstringMatches(entries[1..], name, guild);
      if Eligible(entries[0].0, guild) && Contains(Lower(entries[0].1), name) then [entries[0].0] + rest else rest
  }

  /** Every NAMES key parses as an id; needed by the guild-filtered copy to get past `int(userid)`. */
  predicate NumericIds(entries: Dict<string, string>) {
    forall i :: 0 <= i < |entries| ==> ParseNat(entries[i].0).Some?
  }

  predicate ExactAt(entries: Dict<string, string>, name: string, guild: Option<set<nat>>, j: int)
    requires 0 <= j < |entries|
  {
    Eligible(entries[j].0, guild) && Lower(entries[j].1) == name
  }

  /** Dropping the first entry keeps NumericIds and shifts ExactAt by one. */
  lemma TailFacts(entries: Dict<string, string>, name: string, guild: Option<set<nat>>)
    requires |entries| > 0
    requires guild.Some? ==> NumericIds(entries)
    ensures guild.Some? ==> NumericIds(entries[1..]) && ParseNat(entries[0].0).Some?
    ensures forall j :: 0 <= j < |entries| - 1 ==> (ExactAt(entries[1..], name, guild, j) <==> ExactAt(entries, name, guild, j + 1))
  {
    var tail := entries[1..];
    if guild.Some? {
      forall i | 0 <= i < |tail| ensures ParseNat(tail[i].0).Some? {
        assert tail[i] == entries[i + 1];
      }
    }
  }

  /**
   * With no exact match among eligible entries, the scan yields the list of eligible
   * substring matches: ids of non-members never appear.
   */
  lemma {:induction false} ScanNoExact(entries: Dict<string, string>, name: string, guild: Option<set<nat>>)
    requires guild.Some? ==> NumericIds(entries)
    requires forall j :: 0 <= j < |entries| ==> !ExactAt(entries, name, guild, j)
    ensures ScanFrom(entries, name, guild) == Matches(SubstringMatches(entries, name, guild))
  {
    if |entries| > 0 {
      TailFacts(entries, name, guild);
      assert !ExactAt(entries, name, guild, 0);
      ScanNoExact(entries[1..], name, guild);
    }
  }

  /** The first eligible exact match is the result, whatever matched as a substring before it. */
  lemma {:induction false} ScanExact(entries: Dict<string, string>, name: string, guild: Option<set<nat>>, j: nat)
    requires guild.Some? ==> NumericIds(entries)
    requires j < |entries| && ExactAt(entries, name, guild, j)
    requires forall i :: 0 <= i < j ==> !ExactAt(entries, name, guild, i)
    ensures ScanFrom(entries, name, guild) == Exact(entries[j].0)
  {
    TailFacts(entries, name, guild);
    if j > 0 {
      assert !ExactAt(entries, name, guild, 0);
      ScanExact(entries[1..], name, guild, j - 1);
    }
  }

  /** For the guild-filtered copy, every matched id is a member of the guild. */
  lemma {:induction false} MatchesAreMembers(entries: Dict<string, string>, name: string, members: set<nat>)
    ensures forall k :: 0 <= k < |SubstringMatches(entries, name, Some(members))| ==>
      ParseNat(SubstringMatches(entries, name, Some(members))[k]).Some? &&
      ParseNat(SubstringMatches(entries, name, Some(members))[k]).value in members
  {
    if |entries| > 0 {
      MatchesAreMembers(entries[1..], name, members);
    }
  }

  /** The inner loop of `parse_names`, with its `break` on an exact match. */
  method ScanNames(entries: Dict<string, string>, name: string, guild: Option<set<nat>>) returns (s: Scan)
    ensures s == ScanFrom(entries, name, guild)
  {
    var current: seq<string> := [];
    var i := 0;
    while i < |entries|
      invariant 0 <= i <= |entries|
      invariant ScanFrom(entries, name, guild) == Prepend(current, ScanFrom(entries[i..], name, guild))
    {
      var id := entries[i].0;
      var nm := Lower(entries[i].1);
      assert entries[i..][1..] == entries[i + 1..];
      if guild.Some? {
        var n := ParseNat(id);
        if n.None? {
          return ScanBadId(id);
        }
        if n.value !in guild.value {
          i := i + 1;
          continue;
        }
      }
      if name == nm {
        return Exact(id);
      }
      if Contains(nm, name) {
        current := current + [id];
      }
      i := i + 1;
    }
    assert entries[i..] == [];
    s := Matches(current);
  }

  /** Names of the given ids, for the AmbiguousInputError message. */
  function NamesFor(entries: Dict<string, string>, ids: seq<string>): seq<string> {
    if |ids| == 0 then []
    else (if ids[0] in Keys(entries) then [Get(entries, ids[0]).value] else []) + NamesFor(entries, ids[1..])
  }

  /** An index past the end wraps round to the front once. */
  function Wrap(k: nat, n: nat): nat
    requires k < 2 * n
  {
    if k < n then k else k - n
  }

  /** The ids one `+`-part contributes, or the error it raises. */
  function ResolvePart(part: string, i: nat, entries: Dict<string, string>, v: Variant, draws: Draws, authorId: nat): Resolution {
    var keys := Keys(entries);
    if part == RANDOM_TAG then
      if |keys| == 0 then Err(EmptyChoice) else Ok([keys[draws.choice(i) % |keys|]])
    else if part == INCLUSIVE_TAG then
      if |keys| < SAMPLE_SIZE then Err(SampleLargerThanPopulation)
      else
        var o := draws.sample(i) % |keys|;
        Ok(seq(SAMPLE_SIZE, j requires 0 <= j < SAMPLE_SIZE => keys[Wrap(o + j, |keys|)]))
    else if part == REFLEXIVE_TAG then Ok([NatToString(authorId)])
    else
      match ScanFrom(entries, part, v.guild)
      case Exact(id) => Ok([id])
      case ScanBadId(id) => Err(BadUserId(id))
      case Matches(ms) =>
        if |ms| == 0 then Err(NameNotFound(part))
        else if |ms| == 1 then
          // helpers/: `ctx.guild.get_member(int(current_name[0]))` must find the member
          if v.guild.Some? && !(ParseNat(ms[0]).Some? && ParseNat(ms[0]).value in v.guild.value)
          then Err(NameNotFound(part))
          else Ok(ms)
        else Err(Ambiguous(part, NamesFor(entries, ms)))
  }

  /** The parts resolved in order; the first error stops the loop. */
  function ResolveParts(parts: seq<string>, entries: Dict<string, string>, v: Variant, draws: Draws, authorId: nat): Resolution {
    if |parts| == 0 then Ok([])
    else
      match ResolveParts(parts[..|parts| - 1], entries, v, draws, authorId)
      case Err(e) => Err(e)
      case Ok(ids) =>
        match ResolvePart(parts[|parts| - 1], |parts| - 1, entries, v, draws, authorId)
        case Err(e) => Err(e)
        case Ok(more) => Ok(ids + more)
  }

  /** `person.lower().split('+')` */
  function NameList(person: string): seq<string> {
    Split(Lower(person), '+')
  }

  /** `parse_names`: the count check comes before any lookup. */
  function ParseNames(person: string, entries: Dict<string, string>, v: Variant, draws: Draws, authorId: nat): Resolution {
    var parts := NameList(person);
    if |parts| > v.maxNames then Err(TooManyInputs(|parts|))
    else ResolveParts(parts, entries, v, draws, authorId)
  }

  /** `parse_names` as the loop that appends to `input_ids`. */
  method ParseNamesLoop(person: string, entries: Dict<string, string>, v: Variant, draws: Draws, authorId: nat)
    returns (r: Resolution)
    ensures r == ParseNames(person, entries, v, draws, authorId)
  {
    var parts := NameList(person);
    if |parts| > v.maxNames {
      return Err(TooManyInputs(|parts|));
    }
    var inputIds: seq<string> := [];
    var i := 0;
    while i < |parts|
      invariant 0 <= i <= |parts|
      invariant ResolveParts(parts[..i], entries, v, draws, authorId) == Ok(inputIds)
    {
      assert parts[..i + 1][..i] == parts[..i];
      var contribution := ResolvePart(parts[i], i, entries, v, draws, authorId);
      if contribution.Err? {
        r := contribution;
        ErrSticks(parts, i + 1, entries, v, draws, authorId);
        return;
      }
      inputIds := inputIds + contribution.ids;
      i := i + 1;
    }
    assert parts[..i] == parts;
    r := Ok(inputIds);
  }

  lemma {:induction false} ErrSticks(parts: seq<string>, k: nat, entries: Dict<string, string>, v: Variant, draws: Draws, authorId: nat)
    requires k <= |parts| && ResolveParts(parts[..k], entries, v, draws, authorId).Err?
    ensures ResolveParts(parts, entries, v, draws, authorId) == ResolveParts(parts[..k], entries, v, draws, authorId)
    decreases |parts| - k
  {
    if k < |parts| {
      assert parts[..k + 1][..k] == parts[..k];
      ErrSticks(parts, k + 1, entries, v, draws, authorId);
    } else {
      assert parts[..k] == parts;
    }
  }

  /** TooManyInputsError is raised, carrying the count, exactly when there are more parts than MAX_NUM_NAMES. */
  lemma TooManyExactly(person: string, entries: Dict<string, string>, v: Variant, draws: Draws, authorId: nat)
    ensures ParseNames(person, entries, v, draws, authorId) == Err(TooManyInputs(|NameList(person)|))
      <== |NameList(person)| > v.maxNames
    ensures |NameList(person)| <= v.maxNames ==>
      ParseNames(person, entries, v, draws, authorId) == ResolveParts(NameList(person), entries, v, draws, authorId)
    ensures |NameList(person)| == Count(Lower(person), '+') + 1
  {
    SplitPieces(Lower(person), '+');
  }

  /** How many ids a part contributes on success: five for `all`, one for anything else. */
  function Weight(part: string): nat {
    if part == INCLUSIVE_TAG then SAMPLE_SIZE else 1
  }

  function TotalWeight(parts: seq<string>): nat {
    if |parts| == 0 then 0 else TotalWeight(parts[..|parts| - 1]) + Weight(parts[|parts| - 1])
  }

  /** A successful parse yields one id per part, except `all`, which yields five. */
  lemma {:induction false} ContributionCount(parts: seq<string>, entries: Dict<string, string>, v: Variant, draws: Draws, authorId: nat)
    requires ResolveParts(parts, entries, v, draws, authorId).Ok?
    ensures |ResolveParts(parts, entries, v, draws, authorId).ids| == TotalWeight(parts)
  {
    if |parts| > 0 {
      ContributionCount(parts[..|parts| - 1], entries, v, draws, authorId);
    }
  }

  /**
   * The tags: `me` yields the author's id as a string; `rand` one NAMES key; `all` five
   * distinct NAMES keys (when NAMES has distinct keys).
   */
  lemma TagContributions(i: nat, entries: Dict<string, string>, v: Variant, draws: Draws, authorId: nat)
    ensures ResolvePart(REFLEXIVE_TAG, i, entries, v, draws, authorId) == Ok([NatToString(authorId)])
    ensures |entries| > 0 ==>
      (ResolvePart(RANDOM_TAG, i, entries, v, draws, authorId).Ok? &&
       |ResolvePart(RANDOM_TAG, i, entries, v, draws, authorId).ids| == 1 &&
       ResolvePart(RANDOM_TAG, i, entries, v, draws, authorId).ids[0] in Keys(entries))
    ensures |entries| == 0 ==> ResolvePart(RANDOM_TAG, i, entries, v, draws, authorId) == Err(EmptyChoice)
    ensures |entries| < SAMPLE_SIZE <==> ResolvePart(INCLUSIVE_TAG, i, entries, v, draws, authorId) == Err(SampleLargerThanPopulation)
    ensures UniqueKeys(entries) && |entries| >= SAMPLE_SIZE ==>
      var ids := ResolvePart(INCLUSIVE_TAG, i, entries, v, draws, authorId).ids;
      |ids| == SAMPLE_SIZE && (forall a, b :: 0 <= a < b < |ids| ==> ids[a] != ids[b]) &&
      forall a :: 0 <= a < |ids| ==> ids[a] in Keys(entries)
  {
    if UniqueKeys(entries) && |entries| >= SAMPLE_SIZE {
      var keys := Keys(entries);
      var ids := ResolvePart(INCLUSIVE_TAG, i, entries, v, draws, authorId).ids;
      forall a, b | 0 <= a < b < |ids| ensures ids[a] != ids[b] {
        var o := draws.sample(i) % |keys|;
        assert ids[a] == entries[Wrap(o + a, |keys|)].0 && ids[b] == entries[Wrap(o + b, |keys|)].0;
      }
      forall a | 0 <= a < |ids| ensures ids[a] in Keys(entries) {
        var o := draws.sample(i) % |keys|;
        assert ids[a] == keys[Wrap(o + a, |keys|)];
      }
    }
  }

  /**
   * In the guild-filtered copy, the `get_member` re-check of a single substring match never
   * fails: the match already passed the membership filter.
   */
  lemma SingleMatchIsMember(part: string, i: nat, entries: Dict<string, string>, members: set<nat>, max: nat, draws: Draws, authorId: nat)
    requires part != RANDOM_TAG && part != INCLUSIVE_TAG && part != REFLEXIVE_TAG
    requires NumericIds(entries)
    requires forall j :: 0 <= j < |entries| ==> !ExactAt(entries, part, Some(members), j)
    requires |SubstringMatches(entries, part, Some(members))| == 1
    ensures ResolvePart(part, i, entries, Variant(max, Some(members)), draws, authorId) == Ok(SubstringMatches(entries, part, Some(members)))
  {
    ScanNoExact(entries, part, Some(members));
    MatchesAreMembers(entries, part, members);
  }

  /** A name with no eligible exact or substring match raises NameNotFoundError; several matches raise AmbiguousInputError. */
  lemma NotFoundOrAmbiguous(part: string, i: nat, entries: Dict<string, string>, v: Variant, draws: Draws, authorId: nat)
    requires part != RANDOM_TAG && part != INCLUSIVE_TAG && part != REFLEXIVE_TAG
    requires v.guild.Some? ==> NumericIds(entries)
    requires forall j :: 0 <= j < |entries| ==> !ExactAt(entries, part, v.guild, j)
    ensures |SubstringMatches(entries, part, v.guild)| == 0 ==>
      ResolvePart(part, i, entries, v, draws, authorId) == Err(NameNotFound(part))
    ensures |SubstringMatches(entries, part, v.guild)| >= 2 ==>
      ResolvePart(part, i, entries, v, draws, authorId) ==
        Err(Ambiguous(part, NamesFor(entries, SubstringMatches(entries, part, v.guild))))
  {
    ScanNoExact(entries, part, v.guild);
  }
}
