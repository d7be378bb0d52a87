/**
 * The `id;name` line files the bot keeps: the NAMES file (user id to name),
 * the SERVERS file (guild id to server name), read at start-up by three
 * modules and by `read_servers_file`, and written back by
 * `write_servers_file`. Reading splits the text into lines, splits each line
 * on `;` and unpacks exactly two fields into a dict, a later duplicate id
 * overwriting the earlier value in its original position.
 */
module IdNameTable {
  import opened Text
  import opened OrderedDict

  /** A read table, or the first line that does not unpack into two fields (Python's ValueError). */
  datatype Table = Parsed(entries: Dict<string, string>) | BadLine(line: string)

  /** `text.splitlines()`, with `\n` as the only line boundary. */
  function SplitLines(text: string): seq<string> {
    var pieces := Split(text, '\n');
    if pieces[|pieces| - 1] == "" then pieces[..|pieces| - 1] else pieces
  }

  /** `id, name = line.split(';')` */
  function ParseLine(line: string): (r: Option<(string, string)>)
    ensures r.Some? <==> Count(line, ';') == 1
    ensures r.Some? ==> r.value.0 + [';'] + r.value.1 == line && ';' !in r.value.0 && ';' !in r.value.1
  {
    var parts := Split(line, ';');
    SplitPieces(line, ';');
    JoinSplit(line, ';');
    if |parts| == 2 then
      assert Join(parts, ';') == parts[0] + [';'] + parts[1];
      Some((parts[0], parts[1]))
    else None
  }

  /** The dict built by reading the lines in order (a left fold over the lines). */
  function ParseLines(lines: seq<string>): Table {
    if |lines| == 0 then Parsed([])
    else
      match ParseLines(lines[..|lines| - 1])
      case BadLine(l) => BadLine(l)
      case Parsed(t) =>
        match ParseLine(lines[|lines| - 1])
        case None => BadLine(lines[|lines| - 1])
        case Some(entry) => Parsed(Put(t, entry.0, entry.1))
  }

  function ParseTable(text: string): Table {
    ParseLines(SplitLines(text))
  }

  /** `read_servers_file` (and the NAMES / SERVERS loaders): the loop that fills the dict. */
  method ReadTable(text: string) returns (r: Table)
    ensures r == ParseTable(text)
  {
    var lines := SplitLines(text);
    var table: Dict<string, string> := [];
    var i := 0;
    while i < |lines|
      invariant 0 <= i <= |lines|
      invariant ParseLines(lines[..i]) == Parsed(table)
    {
      assert lines[..i + 1][..i] == lines[..i];
      var entry := ParseLine(lines[i]);
      if entry.None? {
        r := BadLine(lines[i]);
        assert ParseLines(lines[..i + 1]) == r;
        BadLineSticks(lines, i + 1);
        return;
      }
      table := Put(table, entry.value.0, entry.value.1);
      i := i + 1;
    }
    assert lines[..i] == lines;
    r := Parsed(table);
  }

  /** Once a line fails to unpack, reading the rest changes nothing: the error is the first bad line. */
  lemma {:induction false} BadLineSticks(lines: seq<string>, k: nat)
    requires k <= |lines| && ParseLines(lines[..k]).BadLine?
    ensures ParseLines(lines) == ParseLines(lines[..k])
    decreases |lines| - k
  {
    if k < |lines| {
      assert lines[..k + 1][..k] == lines[..k];
      BadLineSticks(lines, k + 1);
    } else {
      assert lines[..k] == lines;
    }
  }

  /** A read table never holds a key twice. */
  lemma {:induction false} ParsedKeysUnique(lines: seq<string>)
    requires ParseLines(lines).Parsed?
    ensures UniqueKeys(ParseLines(lines).entries)
  {
    if |lines| > 0 {
      ParsedKeysUnique(lines[..|lines| - 1]);
      var t := ParseLines(lines[..|lines| - 1]).entries;
      var e := ParseLine(lines[|lines| - 1]).value;
      PutUnique(t, e.0, e.1);
    }
  }

  /** Last wins: the value read for an id is the name on the last line carrying that id. */
  lemma {:induction false} LastLineWins(lines: seq<string>, k: nat)
    requires ParseLines(lines).Parsed?
    requires k < |lines| && ParseLine(lines[k]).Some?
    requires forall j :: k < j < |lines| ==> ParseLine(lines[j]).Some? ==> ParseLine(lines[j]).value.0 != ParseLine(lines[k]).value.0
    ensures Get(ParseLines(lines).entries, ParseLine(lines[k]).value.0) == Some(ParseLine(lines[k]).value.1)
  {
    var n := |lines|;
    var prefix := lines[..n - 1];
    var e := ParseLine(lines[n - 1]).value;
    if ParseLines(prefix).BadLine? {
      assert false;
    }
    var t := ParseLines(prefix).entries;
    PutGet(t, e.0, e.1, ParseLine(lines[k]).value.0);
    if k < n - 1 {
      assert prefix[k] == lines[k];
      LastLineWins(prefix, k);
    }
  }

  /** One `id;name` line. */
  function EntryLine(e: (string, string)): string {
    e.0 + [';'] + e.1
  }

  /** The text `write_servers_file` produces: one `id;name\n` line per entry, in dict order. */
  function Serialize(d: Dict<string, string>): string {
    if |d| == 0 then "" else EntryLine(d[0]) + ['\n'] + Serialize(d[1..])
  }

  /** `write_servers_file`: the loop that accumulates `out`. */
  method WriteTable(d: Dict<string, string>) returns (out: string)
    ensures out == Serialize(d)
  {
    out := "";
    var i := 0;
    while i < |d|
      invariant 0 <= i <= |d|
      invariant out == Serialize(d[..i])
    {
      SerializeSnoc(d[..i], d[i]);
      assert d[..i + 1] == d[..i] + [d[i]];
      out := out + EntryLine(d[i]) + ['\n'];
      i := i + 1;
    }
    assert d[..i] == d;
  }

  lemma {:induction false} SerializeSnoc(d: Dict<string, string>, e: (string, string))
    ensures Serialize(d + [e]) == Serialize(d) + EntryLine(e) + ['\n']
  {
    if |d| > 0 {
      assert (d + [e])[1..] == d[1..] + [e];
      SerializeSnoc(d[1..], e);
    }
  }

  /** Ids and names free of the two separators. */
  predicate Clean(d: Dict<string, string>) {
    forall i :: 0 <= i < |d| ==> ';' !in d[i].0 && ';' !in d[i].1 && '\n' !in d[i].0 && '\n' !in d[i].1
  }

  function Lines(d: Dict<string, string>): (ls: seq<string>)
    ensures |ls| == |d| && forall i :: 0 <= i < |d| ==> ls[i] == EntryLine(d[i])
  {
    seq(|d|, i requires 0 <= i < |d| => EntryLine(d[i]))
  }

  lemma {:induction false} SplitSerialize(d: Dict<string, string>)
    requires Clean(d)
    ensures Split(Serialize(d), '\n') == Lines(d) + [""]
  {
    if |d| > 0 {
      SplitSerialize(d[1..]);
      SplitPrefix(EntryLine(d[0]), Serialize(d[1..]), '\n');
      assert Lines(d) == [EntryLine(d[0])] + Lines(d[1..]);
    }
  }

  lemma EntryLineParses(e: (string, string))
    requires ';' !in e.0 && ';' !in e.1
    ensures ParseLine(EntryLine(e)) == Some(e)
  {
    SplitPrefix(e.0, e.1, ';');
    SplitNoSep(e.1, ';');
  }

  lemma {:induction false} ParseLinesPrefix(d: Dict<string, string>, k: nat)
    requires UniqueKeys(d) && Clean(d) && k <= |d|
    ensures ParseLines(Lines(d)[..k]) == Parsed(d[..k])
  {
    if k > 0 {
      ParseLinesPrefix(d, k - 1);
      assert Lines(d)[..k][..k - 1] == Lines(d)[..k - 1];
      EntryLineParses(d[k - 1]);
      assert d[k - 1].0 !in Keys(d[..k - 1]);
      assert d[..k - 1] + [d[k - 1]] == d[..k];
    }
  }

  /** Writing a table and reading it back gives the same table, keys and order included. */
  lemma RoundTrip(d: Dict<string, string>)
    requires UniqueKeys(d) && Clean(d)
    ensures ParseTable(Serialize(d)) == Parsed(d)
  {
    SplitSerialize(d);
    var pieces := Split(Serialize(d), '\n');
    assert pieces[..|pieces| - 1] == Lines(d);
    ParseLinesPrefix(d, |d|);
    assert Lines(d)[..|d|] == Lines(d) && d[..|d|] == d;
  }
}
