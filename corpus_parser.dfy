/**
 * The corpus bookkeeping of helpers/parser.py: `update_names` merges the
 * server's `userid;name` entries into the NAMES file, `parse_server` groups
 * every message into its author's corpus with a flush every BATCH_SIZE
 * messages, and `gen_simmodel` writes the speaker sequence the simulator's
 * model is trained on.
 *
 * Files are strings: the NAMES file is its text, the per-user corpus files
 * are a map from user id to the text appended so far.
 */
module CorpusParser {
  import opened Text
  import opened OrderedDict
  import IdNameTable
  import ServerSetup

  /** Messages buffered before `append_text` is called. */
  const BATCH_SIZE: nat := 100000

  /** Once `gen_simmodel`'s text is longer than this, every id is followed by a newline too. */
  const SIM_LINE_LENGTH: nat := 1000

  /** A stored message as `parse_server` reads it: `m` or `u` may be missing. */
  datatype RawMessage = RawMessage(m: Option<string>, u: Option<nat>)

  /** `server_json['data']`: channel id to message id to message. */
  type ServerData = Dict<string, Dict<string, RawMessage>>

  // ---------------------------------------------------------------- update_names

  /** The server's users with `;` in every name replaced by `:`. */
  function Renamed(users: Dict<string, string>): (r: Dict<string, string>)
    ensures |r| == |users|
    ensures forall i :: 0 <= i < |r| ==> r[i] == (users[i].0, Replace(users[i].1, ";", ":")) && ';' !in r[i].1
    ensures forall i :: 0 <= i < |r| ==> '\n' !in users[i].1 ==> '\n' !in r[i].1
  {
    if |users| == 0 then []
    else
      ServerSetup.ReplaceCharGone(users[0].1, ';', ':', '\n');
      assert forall i :: 1 <= i < |users| ==> users[1..][i - 1] == users[i];
      [(users[0].0, Replace(users[0].1, ";", ":"))] + Renamed(users[1..])
  }

  /** `new_names`: the text of one `userid;name\n` line per user, split on newlines. */
  function NewNames(users: Dict<string, string>): seq<string> {
    Split(IdNameTable.Serialize(Renamed(users)), '\n')
  }

  /**
   * With no `;` in a user id and no newline anywhere, the new names are exactly the `userid;name`
   * lines, each parsing back to its user, followed by the empty text after the last newline.
   */
  lemma NewNamesAreEntries(users: Dict<string, string>)
    requires forall i :: 0 <= i < |users| ==> ';' !in users[i].0 && '\n' !in users[i].0 && '\n' !in users[i].1
    ensures NewNames(users) == IdNameTable.Lines(Renamed(users)) + [""]
    ensures forall i :: 0 <= i < |users| ==>
      IdNameTable.ParseLine(NewNames(users)[i]) == Some((users[i].0, Replace(users[i].1, ";", ":")))
  {
    var r := Renamed(users);
    assert IdNameTable.Clean(r);
    IdNameTable.SplitSerialize(r);
    forall i | 0 <= i < |users|
      ensures IdNameTable.ParseLine(NewNames(users)[i]) == Some((users[i].0, Replace(users[i].1, ";", ":")))
    {
      IdNameTable.EntryLineParses(r[i]);
    }
  }

  /** The merge: the previous lines in order, then each added line not already present, once. */
  function Merge(previous: seq<string>, added: seq<string>): seq<string> {
    if |added| == 0 then previous
    else
      var merged := Merge(previous, added[..|added| - 1]);
      if added[|added| - 1] in merged then merged else merged + [added[|added| - 1]]
  }

  /**
   * The merge keeps the previous lines as a prefix, holds exactly the previous and the added lines, and adds
   * no line twice: a duplicate-free file stays duplicate-free.
   */
  lemma {:induction false} MergeFacts(previous: seq<string>, added: seq<string>)
    ensures previous <= Merge(previous, added)
    ensures forall x :: x in Merge(previous, added) <==> x in previous || x in added
    ensures ServerSetup.NoDuplicates(previous) ==> ServerSetup.NoDuplicates(Merge(previous, added))
  {
    if |added| > 0 {
      var init := added[..|added| - 1];
      MergeFacts(previous, init);
      assert added == init + [added[|added| - 1]];
    }
  }

  /** Merging the same lines a second time changes nothing. */
  lemma MergeIdempotent(previous: seq<string>, added: seq<string>)
    ensures Merge(Merge(previous, added), added) == Merge(previous, added)
  {
    MergeFacts(previous, added);
    MergeAllPresent(Merge(previous, added), added);
  }

  lemma {:induction false} MergeAllPresent(previous: seq<string>, added: seq<string>)
    requires forall x :: x in added ==> x in previous
    ensures Merge(previous, added) == previous
  {
    if |added| > 0 {
      var init := added[..|added| - 1];
      assert forall x :: x in init ==> x in added;
      MergeAllPresent(previous, init);
    }
  }

  /** The loop `for name in new_names: if name not in old_names: old_names.append(name)`. */
  method MergeNames(previous: seq<string>, added: seq<string>) returns (merged: seq<string>)
    ensures merged == Merge(previous, added)
  {
    merged := previous;
    var i := 0;
    while i < |added|
      invariant 0 <= i <= |added|
      invariant merged == Merge(previous, added[..i])
    {
      assert added[..i + 1][..i] == added[..i];
      if added[i] !in merged {
        merged := merged + [added[i]];
      }
      i := i + 1;
    }
    assert added[..i] == added;
  }

  /**
   * `update_names`: the NAMES file's new text, its old lines with the server's entries merged in,
   * joined by newlines.
   */
  method UpdateNames(users: Dict<string, string>, namesFile: string) returns (written: string)
    ensures written == Join(Merge(IdNameTable.SplitLines(namesFile), NewNames(users)), '\n')
  {
    var out := IdNameTable.WriteTable(Renamed(users));
    var newNames := Split(out, '\n');
    var oldNames := IdNameTable.SplitLines(namesFile);
    var merged := MergeNames(oldNames, newNames);
    written := Join(merged, '\n');
  }

  // ---------------------------------------------------------------- parse_server

  /** The messages of every channel, channel by channel, each in message-id order. */
  function AllMessages(data: ServerData): seq<RawMessage> {
    if |data| == 0 then [] else AllMessages(data[..|data| - 1]) + Values(data[|data| - 1].1)
  }

  /** Every message that names an author names one of `userids`. */
  predicate AuthorsKnown(msgs: seq<RawMessage>, userids: seq<string>) {
    forall i :: 0 <= i < |msgs| ==> msgs[i].u.Some? ==> msgs[i].u.value < |userids|
  }

  /** The line a message adds to user `uid`'s corpus: its text and a newline, when it has both fields. */
  function Line(msg: RawMessage, userids: seq<string>, uid: string): string {
    if msg.m.Some? && msg.u.Some? && msg.u.value < |userids| && userids[msg.u.value] == uid then msg.m.value + "\n" else ""
  }

  /** User `uid`'s whole corpus: the lines of their messages, in order. */
  function Corpus(msgs: seq<RawMessage>, userids: seq<string>, uid: string): string {
    if |msgs| == 0 then "" else Corpus(msgs[..|msgs| - 1], userids, uid) + Line(msgs[|msgs| - 1], userids, uid)
  }

  lemma {:induction false} CorpusAppend(a: seq<RawMessage>, b: seq<RawMessage>, userids: seq<string>, uid: string)
    ensures Corpus(a + b, userids, uid) == Corpus(a, userids, uid) + Corpus(b, userids, uid)
  {
    if |b| == 0 {
      assert a + b == a;
    } else {
      var init := b[..|b| - 1];
      var last := b[|b| - 1];
      CorpusAppend(a, init, userids, uid);
      assert (a + b)[..|a + b| - 1] == a + init;
      assert (a + b)[|a + b| - 1] == last;
      var ca, ci, l := Corpus(a, userids, uid), Corpus(init, userids, uid), Line(last, userids, uid);
      assert Corpus(a + b, userids, uid) == Corpus(a + init, userids, uid) + l;
      assert Corpus(b, userids, uid) == ci + l;
      assert (ca + ci) + l == ca + (ci + l);
    }
  }

  /** A message missing `m` or `u` leaves every corpus as if it were not there. */
  lemma SkippedMessage(a: seq<RawMessage>, bad: RawMessage, b: seq<RawMessage>, userids: seq<string>, uid: string)
    requires bad.m.None? || bad.u.None?
    ensures Corpus(a + [bad] + b, userids, uid) == Corpus(a + b, userids, uid)
  {
    CorpusAppend(a + [bad], b, userids, uid);
    CorpusSnoc(a, bad, userids, uid);
    CorpusAppend(a, b, userids, uid);
    assert Line(bad, userids, uid) == "";
    assert Corpus(a, userids, uid) + "" == Corpus(a, userids, uid);
  }

  /** A user's corpus file: its text, or nothing when the file does not exist. */
  function FileText(files: map<string, string>, uid: string): string {
    if uid in files then files[uid] else ""
  }

  /** `append_text`: each non-empty buffered corpus is appended to its user's file; empty ones are not written. */
  function AppendText(files: map<string, string>, messages: map<string, string>): (r: map<string, string>)
    ensures forall uid :: FileText(r, uid) == FileText(files, uid) + FileText(messages, uid)
    ensures forall uid :: uid in r <==> uid in files || (uid in messages && messages[uid] != "")
  {
    map uid | uid in files.Keys + (set u | u in messages && messages[u] != "") :: FileText(files, uid) + FileText(messages, uid)
  }

  /** The parse's outcome: the corpus files and the rewritten NAMES file, or the NameError of an unresolved server id. */
  datatype ParseOutcome = Files(files: map<string, string>, names: string) | NameError

  /** The files plus the buffer hold, for every user, exactly the corpus of the messages `done`. */
  ghost predicate Accounts(files: map<string, string>, messages: map<string, string>, done: seq<RawMessage>, userids: seq<string>) {
    forall uid :: FileText(files, uid) + FileText(messages, uid) == Corpus(done, userids, uid)
  }

  /** Buffering a message's line in its author's corpus accounts for that message. */
  lemma BufferKeepsAccounts(files: map<string, string>, messages: map<string, string>, done: seq<RawMessage>,
                            msg: RawMessage, userids: seq<string>)
    requires Accounts(files, messages, done, userids)
    requires msg.m.Some? && msg.u.Some? && msg.u.value < |userids|
    ensures var userid := userids[msg.u.value];
      Accounts(files, messages[userid := FileText(messages, userid) + msg.m.value + "\n"], done + [msg], userids)
  {
    var userid := userids[msg.u.value];
    var buffered := messages[userid := FileText(messages, userid) + msg.m.value + "\n"];
    forall uid ensures FileText(files, uid) + FileText(buffered, uid) == Corpus(done + [msg], userids, uid) {
      CorpusSnoc(done, msg, userids, uid);
      BufferOne(FileText(files, uid), messages, msg, userids, uid, Corpus(done, userids, uid));
    }
  }

  lemma CorpusSnoc(done: seq<RawMessage>, msg: RawMessage, userids: seq<string>, uid: string)
    ensures Corpus(done + [msg], userids, uid) == Corpus(done, userids, uid) + Line(msg, userids, uid)
  {
    assert (done + [msg])[..|done|] == done;
  }

  /** Buffering the line for one user whose file text is `f` and whose total was `before`. */
  lemma BufferOne(f: string, messages: map<string, string>, msg: RawMessage, userids: seq<string>, uid: string, before: string)
    requires f + FileText(messages, uid) == before
    requires msg.m.Some? && msg.u.Some? && msg.u.value < |userids|
    ensures var userid := userids[msg.u.value];
      f + FileText(messages[userid := FileText(messages, userid) + msg.m.value + "\n"], uid) == before + Line(msg, userids, uid)
  {
    var userid := userids[msg.u.value];
    var m := FileText(messages, uid);
    if uid == userid {
      var v := msg.m.value;
      assert f + (m + v + "\n") == (f + m) + (v + "\n");
    }
  }

  /** A message without `m` or `u` is accounted for by doing nothing. */
  lemma SkipKeepsAccounts(files: map<string, string>, messages: map<string, string>, done: seq<RawMessage>,
                          msg: RawMessage, userids: seq<string>)
    requires Accounts(files, messages, done, userids)
    requires msg.m.None? || msg.u.None?
    ensures Accounts(files, messages, done + [msg], userids)
  {
    assert (done + [msg])[..|done|] == done;
  }

  /** Flushing the buffer into the files and emptying it changes no user's total. */
  lemma FlushKeepsAccounts(files: map<string, string>, messages: map<string, string>, done: seq<RawMessage>, userids: seq<string>)
    requires Accounts(files, messages, done, userids)
    ensures Accounts(AppendText(files, messages), map[], done, userids)
  {
  }

  /**
   * One message of `parse_server`'s inner loop: a message with both fields has its line added to
   * its author's buffered corpus, and the buffer is flushed when it holds BATCH_SIZE messages; a
   * message missing a field (the KeyError) is skipped.
   */
  method BufferMessage(files: map<string, string>, messages: map<string, string>, count: nat, msg: RawMessage,
                       userids: seq<string>, ghost done: seq<RawMessage>)
    returns (files': map<string, string>, messages': map<string, string>, count': nat)
    requires Accounts(files, messages, done, userids)
    requires msg.u.Some? ==> msg.u.value < |userids|
    requires (forall uid :: uid in files <==> uid in userids) && (forall uid :: uid in messages ==> uid in userids)
    ensures Accounts(files', messages', done + [msg], userids)
    ensures (forall uid :: uid in files' <==> uid in userids) && (forall uid :: uid in messages' ==> uid in userids)
    ensures count' < BATCH_SIZE || count' == count
  {
    files', messages', count' := files, messages, count;
    if msg.m.Some? && msg.u.Some? {
      var userid := userids[msg.u.value];
      BufferKeepsAccounts(files, messages, done, msg, userids);
      if userid !in messages' {
        messages' := messages'[userid := ""];
      }
      messages' := messages'[userid := messages'[userid] + msg.m.value + "\n"];
      count' := count' + 1;
      if count' >= BATCH_SIZE {
        FlushKeepsAccounts(files', messages', done + [msg], userids);
        files' := AppendText(files', messages');
        messages' := map[];
        count' := 0;
      }
    } else {
      SkipKeepsAccounts(files, messages, done, msg, userids);
    }
  }

  /**
   * `parse_server`: the files of `userids` are emptied, the server's `users` are merged into the
   * NAMES file (`namesFile` is its text before), then every message is buffered in its author's
   * corpus and the buffer is flushed every BATCH_SIZE messages and once at the end. Batching
   * changes nothing: each user's file ends as their whole corpus. An unresolved server raises
   * before either file is touched.
   */
  method ParseServer(data: ServerData, userids: seq<string>, users: Dict<string, string>, namesFile: string,
                     serverid: Option<string>) returns (r: ParseOutcome)
    requires AuthorsKnown(AllMessages(data), userids)
    ensures r.NameError? <==> serverid.None? || serverid.value == ""
    ensures r.Files? ==> r.names == Join(Merge(IdNameTable.SplitLines(namesFile), NewNames(users)), '\n')
    ensures r.Files? ==> forall uid :: FileText(r.files, uid) == Corpus(AllMessages(data), userids, uid)
    ensures r.Files? ==> forall uid :: uid in r.files <==> uid in userids
  {
    if serverid.None? || serverid.value == "" {
      return NameError;
    }
    var names := UpdateNames(users, namesFile);
    ghost var all := AllMessages(data);
    var files: map<string, string> := map uid | uid in userids :: "";
    var messages: map<string, string> := map[];
    var count: nat := 0;
    var c := 0;
    while c < |data|
      invariant 0 <= c <= |data|
      invariant AllMessages(data[..c]) <= all
      invariant Accounts(files, messages, AllMessages(data[..c]), userids)
      invariant forall uid :: uid in files <==> uid in userids
      invariant forall uid :: uid in messages ==> uid in userids
    {
      var msgs := Values(data[c].1);
      ChannelPrefix(data, c);
      ChannelAuthorsKnown(all, AllMessages(data[..c]), msgs, userids);
      files, messages, count := ParseChannel(files, messages, count, msgs, userids, AllMessages(data[..c]));
      c := c + 1;
    }
    assert data[..c] == data;
    FlushKeepsAccounts(files, messages, all, userids);
    files := AppendText(files, messages);
    r := Files(files, names);
  }

  /** The inner loop of `parse_server` over one channel's messages: afterwards they are all accounted for. */
  method ParseChannel(files: map<string, string>, messages: map<string, string>, count: nat, msgs: seq<RawMessage>,
                      userids: seq<string>, ghost done: seq<RawMessage>)
    returns (files': map<string, string>, messages': map<string, string>, count': nat)
    requires AuthorsKnown(msgs, userids) && Accounts(files, messages, done, userids)
    requires (forall uid :: uid in files <==> uid in userids) && (forall uid :: uid in messages ==> uid in userids)
    ensures Accounts(files', messages', done + msgs, userids)
    ensures (forall uid :: uid in files' <==> uid in userids) && (forall uid :: uid in messages' ==> uid in userids)
  {
    files', messages', count' := files, messages, count;
    ghost var seen := done;
    assert done + msgs[..0] == done;
    for k := 0 to |msgs|
      invariant seen == done + msgs[..k]
      invariant Accounts(files', messages', seen, userids)
      invariant forall uid :: uid in files' <==> uid in userids
      invariant forall uid :: uid in messages' ==> uid in userids
    {
      files', messages', count' := BufferMessage(files', messages', count', msgs[k], userids, seen);
      assert done + msgs[..k + 1] == seen + [msgs[k]];
      seen := seen + [msgs[k]];
    }
    assert msgs[..|msgs|] == msgs;
  }

  /** The authors of a run of messages inside `all` are known when those of `all` are. */
  lemma ChannelAuthorsKnown(all: seq<RawMessage>, done: seq<RawMessage>, msgs: seq<RawMessage>, userids: seq<string>)
    requires done + msgs <= all && AuthorsKnown(all, userids)
    ensures AuthorsKnown(msgs, userids)
  {
    forall k | 0 <= k < |msgs| ensures msgs[k].u.Some? ==> msgs[k].u.value < |userids| {
      MessageAt(all, done, msgs, k);
    }
  }

  /** The messages of the first `c` channels, then channel `c`'s, are those of the first `c + 1`, a prefix of all. */
  lemma ChannelPrefix(data: ServerData, c: nat)
    requires c < |data|
    ensures AllMessages(data[..c]) + Values(data[c].1) == AllMessages(data[..c + 1])
    ensures AllMessages(data[..c + 1]) <= AllMessages(data)
  {
    assert data[..c + 1][..c] == data[..c];
    AllMessagesPrefix(data, c + 1);
  }

  lemma {:induction false} AllMessagesPrefix(data: ServerData, c: nat)
    requires c <= |data|
    ensures AllMessages(data[..c]) <= AllMessages(data)
    decreases |data| - c
  {
    if c < |data| {
      AllMessagesPrefix(data, c + 1);
      assert data[..c + 1][..c] == data[..c];
    } else {
      assert data[..c] == data;
    }
  }

  // ---------------------------------------------------------------- gen_simmodel

  /** The author id of every message, in order. */
  /** Every message names an author, and that author is one of `userids`. */
  predicate Attributed(msgs: seq<RawMessage>, userids: seq<string>) {
    forall i :: 0 <= i < |msgs| ==> msgs[i].u.Some? && msgs[i].u.value < |userids|
  }

  function Speakers(msgs: seq<RawMessage>, userids: seq<string>): (r: seq<string>)
    requires Attributed(msgs, userids)
    ensures |r| == |msgs| && forall i :: 0 <= i < |msgs| ==> r[i] == userids[msgs[i].u.value]
  {
    seq(|msgs|, i requires 0 <= i < |msgs| => userids[msgs[i].u.value])
  }

  /** `gen_simmodel`'s text for a speaker sequence: each id and a space, plus a newline once the text is long. */
  function SimText(ids: seq<string>): string {
    if |ids| == 0 then ""
    else
      var s := SimText(ids[..|ids| - 1]) + ids[|ids| - 1] + " ";
      if |s| > SIM_LINE_LENGTH then s + "\n" else s
  }

  lemma {:induction false} SimTextGrows(ids: seq<string>, k: nat)
    requires k <= |ids|
    ensures SimText(ids[..k]) <= SimText(ids)
    decreases |ids| - k
  {
    if k < |ids| {
      SimTextGrows(ids, k + 1);
      assert ids[..k + 1][..k] == ids[..k];
    } else {
      assert ids[..k] == ids;
    }
  }

  /**
   * Each id is followed by a space; once the text so far is longer than SIM_LINE_LENGTH, every
   * later id is also followed by a newline, and while the text stays short no newline is added.
   */
  lemma SimTextLines(ids: seq<string>, k: nat, j: nat)
    requires k <= j < |ids|
    ensures var before := SimText(ids[..j]) + ids[j] + " ";
      SimText(ids[..j + 1]) == if |before| > SIM_LINE_LENGTH then before + "\n" else before
    ensures |SimText(ids[..k])| > SIM_LINE_LENGTH ==> SimText(ids[..j + 1]) == SimText(ids[..j]) + ids[j] + " \n"
  {
    assert ids[..j + 1][..j] == ids[..j];
    SimTextGrows(ids[..j], k);
    assert ids[..j][..k] == ids[..k];
  }

  /** The authors of `msgs` are the ids from position `n` of `ids` on. */
  ghost predicate SpeakersAt(msgs: seq<RawMessage>, userids: seq<string>, ids: seq<string>, n: nat) {
    n + |msgs| <= |ids| &&
    forall i :: 0 <= i < |msgs| ==> msgs[i].u.Some? && msgs[i].u.value < |userids| && ids[n + i] == userids[msgs[i].u.value]
  }

  /** `gen_simmodel`'s inner loop over one channel's messages. */
  method AppendSpeakers(out: string, msgs: seq<RawMessage>, userids: seq<string>, ghost ids: seq<string>, ghost n: nat)
    returns (out': string)
    requires SpeakersAt(msgs, userids, ids, n) && out == SimText(ids[..n])
    ensures out' == SimText(ids[..n + |msgs|])
  {
    out' := out;
    var k := 0;
    while k < |msgs|
      invariant 0 <= k <= |msgs|
      invariant out' == SimText(ids[..n + k])
    {
      SimTextLines(ids, 0, n + k);
      out' := out' + userids[msgs[k].u.value] + " ";
      if |out'| > SIM_LINE_LENGTH {
        out' := out' + "\n";
      }
      k := k + 1;
    }
  }

  /** `gen_simmodel`: the loop over every channel's messages that grows `out`. */
  method GenSimText(data: ServerData, userids: seq<string>) returns (out: string)
    requires Attributed(AllMessages(data), userids)
    ensures out == SimText(Speakers(AllMessages(data), userids))
  {
    ghost var ids := Speakers(AllMessages(data), userids);
    ghost var n := 0;
    out := "";
    var c := 0;
    while c < |data|
      invariant 0 <= c <= |data|
      invariant n == |AllMessages(data[..c])| <= |ids|
      invariant out == SimText(ids[..n])
    {
      out, n := AppendChannel(out, data, c, userids, ids, n);
      c := c + 1;
    }
    assert data[..c] == data;
    assert ids[..n] == ids;
  }

  /** The loop body of `gen_simmodel`: the speakers of channel `c` are appended to the text. */
  method AppendChannel(out: string, data: ServerData, c: nat, userids: seq<string>, ghost ids: seq<string>, ghost n: nat)
    returns (out': string, ghost n': nat)
    requires c < |data| && Attributed(AllMessages(data), userids) && ids == Speakers(AllMessages(data), userids)
    requires n == |AllMessages(data[..c])| && n <= |ids| && out == SimText(ids[..n])
    ensures n' == |AllMessages(data[..c + 1])| <= |ids| && out' == SimText(ids[..n'])
  {
    ChannelSpeakers(data, c, userids, ids, n);
    out' := AppendSpeakers(out, Values(data[c].1), userids, ids, n);
    n' := n + |Values(data[c].1)|;
  }

  /** Channel `c`'s authors continue the speaker sequence where the earlier channels' end. */
  lemma ChannelSpeakers(data: ServerData, c: nat, userids: seq<string>, ids: seq<string>, n: nat)
    requires c < |data| && Attributed(AllMessages(data), userids)
    requires ids == Speakers(AllMessages(data), userids) && n == |AllMessages(data[..c])|
    ensures n + |Values(data[c].1)| == |AllMessages(data[..c + 1])| <= |ids|
    ensures SpeakersAt(Values(data[c].1), userids, ids, n)
  {
    var all := AllMessages(data);
    var done := AllMessages(data[..c]);
    var msgs := Values(data[c].1);
    ChannelPrefix(data, c);
    assert |done| + |msgs| <= |ids|;
    forall i | 0 <= i < |msgs|
      ensures msgs[i].u.Some? && msgs[i].u.value < |userids| && ids[|done| + i] == userids[msgs[i].u.value]
    {
      MessageAt(all, done, msgs, i);
      assert all[|done| + i].u.Some? && all[|done| + i].u.value < |userids|;
    }
    assert SpeakersAt(msgs, userids, ids, |done|);
  }

  lemma MessageAt(all: seq<RawMessage>, done: seq<RawMessage>, msgs: seq<RawMessage>, k: nat)
    requires k < |msgs| && done + msgs <= all
    ensures all[|done| + k] == msgs[k]
  {
    assert (done + msgs)[|done| + k] == msgs[k];
  }
}
