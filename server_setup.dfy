/**
 * The scrape bookkeeping of helpers/setup_helpers.py: registering the guild
 * in the SERVERS file, the file name derived from the server name, the
 * initial server JSON, the latest stored timestamp of a channel, and the
 * interning of message authors into `userindex` while a channel's history is
 * stored. The server JSON is the `ServerJson` class; the chat history is a
 * sequence of messages given as input.
 */
module ServerSetup {
  import opened Text
  import opened OrderedDict
  import IdNameTable

  /** 2000-01-01T00:00:00Z, the floor of the latest-timestamp search. */
  const EPOCH_FLOOR: int := 946684800

  /** Python's `s.replace(c, d)` for single characters removes every `c` when `c != d`, and adds no other character. */
  lemma {:induction false} ReplaceCharGone(s: string, c: char, d: char, x: char)
    requires c != d
    ensures c !in Replace(s, [c], [d])
    ensures x != d && x !in s ==> x !in Replace(s, [c], [d])
  {
    if |s| >= 1 {
      ReplaceCharGone(s[1..], c, d, x);
      if s[..1] == [c] {
        assert s[|[c]|..] == s[1..];
      } else {
        assert s[0] != c;
      }
      assert x !in s ==> x !in s[1..];
    }
  }

  /**
   * `setup_server`, lines 84-92: a known guild keeps its SERVERS name; a new one is added at the
   * end under its name with `;` replaced by `:`.
   */
  function RegisterServer(servers: Dict<string, string>, guildid: nat, guildName: string): (r: (Dict<string, string>, string))
    ensures NatToString(guildid) in Keys(servers) ==> r == (servers, Get(servers, NatToString(guildid)).value)
    ensures NatToString(guildid) !in Keys(servers) ==>
      r.1 == Replace(guildName, ";", ":") && r.0 == servers + [(NatToString(guildid), r.1)] && ';' !in r.1
  {
    var g := NatToString(guildid);
    match Get(servers, g)
    case Some(name) => (servers, name)
    case None =>
      var name := Replace(guildName, ";", ":");
      ReplaceCharGone(guildName, ';', ':', '\n');
      (Put(servers, g, name), name)
  }

  /**
   * Registering a guild whose name has no newline keeps the SERVERS file readable: written out
   * and read back, it gives the same table.
   */
  lemma RegisterRoundTrip(servers: Dict<string, string>, guildid: nat, guildName: string)
    requires UniqueKeys(servers) && IdNameTable.Clean(servers) && '\n' !in guildName
    ensures var s := RegisterServer(servers, guildid, guildName).0;
      UniqueKeys(s) && IdNameTable.ParseTable(IdNameTable.Serialize(s)) == IdNameTable.Parsed(s)
  {
    var g := NatToString(guildid);
    var s := RegisterServer(servers, guildid, guildName).0;
    if g !in Keys(servers) {
      var name := Replace(guildName, ";", ":");
      ReplaceCharGone(guildName, ';', ':', '\n');
      PutUnique(servers, g, name);
      assert ';' !in g && '\n' !in g by {
        assert AllDigits(g);
      }
      assert s == servers + [(g, name)];
      assert IdNameTable.Clean(s);
    }
    IdNameTable.RoundTrip(s);
  }

  /** `"".join(x for x in server_name if x.isalnum())` */
  function ServerFilename(name: string): (r: string)
    ensures |r| <= |name|
    ensures forall i :: 0 <= i < |r| ==> IsAlnum(r[i])
    ensures forall c :: IsAlnum(c) ==> (c in r <==> c in name)
    ensures forall c :: Count(r, c) == if IsAlnum(c) then Count(name, c) else 0
  {
    if |name| == 0 then ""
    else
      var rest := ServerFilename(name[1..]);
      assert name == [name[0]] + name[1..];
      if IsAlnum(name[0]) then [name[0]] + rest else rest
  }

  /**
   * The file name is a filter that keeps order: a name's file name is its parts' file names
   * joined (and ServerFilenameChar: one character is kept exactly when it is a letter or a digit).
   */
  lemma {:induction false} ServerFilenameAppend(a: string, b: string)
    ensures ServerFilename(a + b) == ServerFilename(a) + ServerFilename(b)
  {
    if |a| > 0 {
      var ab := a + b;
      assert ab[1..] == a[1..] + b && ab[0] == a[0];
      ServerFilenameAppend(a[1..], b);
    } else {
      assert a + b == b;
    }
  }

  lemma ServerFilenameChar(c: char)
    ensures ServerFilename([c]) == if IsAlnum(c) then [c] else []
  {
    assert [c][1..] == [];
  }

  /** A name made only of letters and digits is its own file name, so the file name of a file name is itself. */
  lemma {:induction false} ServerFilenameAlnum(name: string)
    requires forall i :: 0 <= i < |name| ==> IsAlnum(name[i])
    ensures ServerFilename(name) == name
  {
    if |name| > 0 {
      ServerFilenameAlnum(name[1..]);
      assert name == [name[0]] + name[1..];
    }
  }

  /** A stored message: author index `u`, timestamp `t` in milliseconds, content `m`. */
  datatype Message = Message(u: nat, t: int, m: string)

  /** An entry of `meta.servers`. */
  datatype ServerEntry = ServerEntry(name: string, id: nat, kind: string)

  /** `get_last_message_timecode`: the greatest `t // 1000` over the channel's messages, never below the floor. */
  method LastMessageTimecode(data: Dict<string, Dict<string, Message>>, channelid: string) returns (r: Option<int>)
    ensures r.None? <==> channelid !in Keys(data)
    ensures r.Some? ==>
      var msgs := Values(Get(data, channelid).value);
      r.value >= EPOCH_FLOOR &&
      (forall i :: 0 <= i < |msgs| ==> r.value >= msgs[i].t / 1000) &&
      (r.value == EPOCH_FLOOR || exists i :: 0 <= i < |msgs| && r.value == msgs[i].t / 1000)
  {
    var channel := Get(data, channelid);
    if channel.None? {
      return None;
    }
    var msgs := Values(channel.value);
    var latest := EPOCH_FLOOR;
    var i := 0;
    while i < |msgs|
      invariant 0 <= i <= |msgs|
      invariant latest >= EPOCH_FLOOR
      invariant forall j :: 0 <= j < i ==> latest >= msgs[j].t / 1000
      invariant latest == EPOCH_FLOOR || exists j :: 0 <= j < i && latest == msgs[j].t / 1000
    {
      var current := msgs[i].t / 1000;
      if current > latest {
        latest := current;
      }
      i := i + 1;
    }
    r := Some(latest);
  }

  predicate NoDuplicates<T(==)>(s: seq<T>) {
    forall i, j :: 0 <= i < j < |s| ==> s[i] != s[j]
  }

  /** One message of a channel's history: its author, the author's name, its id, timestamp and content. */
  datatype HistoryMessage = HistoryMessage(authorId: nat, authorName: string, id: nat, t: int, content: string)

  /**
   * The author bookkeeping of `setup_server`, on values: the new `userindex`, the new `users`,
   * and the author's index.
   */
  function Intern(userindex: seq<string>, users: Dict<string, string>, authorId: string, authorName: string)
    : (seq<string>, Dict<string, string>, nat)
  {
    if authorId in userindex then (userindex, users, FirstIndex(userindex, authorId))
    else (userindex + [authorId], Put(users, authorId, authorName), |userindex|)
  }

  /**
   * The history loop on values: each message, in order, has its author interned and is stored
   * in the channel under its id. The result is `(data, userindex, users)`.
   */
  function StoreFrom(data: Dict<string, Dict<string, Message>>, userindex: seq<string>, users: Dict<string, string>,
                     cid: string, history: seq<HistoryMessage>)
    : (Dict<string, Dict<string, Message>>, seq<string>, Dict<string, string>)
    requires cid in Keys(data)
    decreases |history|
  {
    if |history| == 0 then (data, userindex, users)
    else
      var msg := history[0];
      var (ui, us, index) := Intern(userindex, users, NatToString(msg.authorId), msg.authorName);
      StoreFrom(PutMessage(data, cid, NatToString(msg.id), Message(index, msg.t, msg.content)), ui, us, cid, history[1..])
  }

  /** The server JSON a scrape fills in. */
  class ServerJson {
    var users: Dict<string, string>
    var userindex: seq<string>
    var servers: seq<ServerEntry>
    var channels: Dict<string, string>
    var data: Dict<string, Dict<string, Message>>

    /** Every author index stored points into `userindex`, which holds no id twice. */
    predicate Valid()
      reads this
    {
      NoDuplicates(userindex) && IndicesBelow(data, |userindex|)
    }

    /** `init_server_json`: empty users, index, channels and data, and the one SERVER entry. */
    constructor (guildName: string, guildId: nat)
      ensures users == [] && userindex == [] && channels == [] && data == []
      ensures servers == [ServerEntry(guildName, guildId, "SERVER")]
      ensures Valid()
    {
      users := [];
      userindex := [];
      servers := [ServerEntry(guildName, guildId, "SERVER")];
      channels := [];
      data := [];
    }

    /**
     * The author bookkeeping of `setup_server`: a new author id is appended to `userindex` once
     * (and named in `users`); the index returned is the id's position in `userindex`.
     */
    method InternAuthor(authorId: string, authorName: string) returns (index: nat)
      requires Valid()
      modifies this
      ensures Valid()
      ensures authorId in old(userindex) ==> userindex == old(userindex) && users == old(users)
      ensures authorId !in old(userindex) ==>
        userindex == old(userindex) + [authorId] && users == Put(old(users), authorId, authorName)
      ensures index < |userindex| && userindex[index] == authorId
      ensures (userindex, users, index) == Intern(old(userindex), old(users), authorId, authorName)
      ensures servers == old(servers) && channels == old(channels) && data == old(data)
    {
      if authorId !in userindex {
        userindex := userindex + [authorId];
        index := |userindex| - 1;
        users := Put(users, authorId, authorName);
      } else {
        index := FirstIndex(userindex, authorId);
      }
    }

    /**
     * Storing one channel's history (`setup_server`, lines 115-143): the channel's metadata is added
     * when new; a channel without stored data starts from `{}`; then the history loop runs from
     * there. StoreFromFrame and StoreFromStores say what that leaves in `data` and `userindex`.
     */
    method ScrapeChannel(channelid: nat, channelName: string, history: seq<HistoryMessage>)
      requires Valid()
      modifies this
      ensures Valid()
      ensures NatToString(channelid) in Keys(data)
      ensures old(userindex) <= userindex
      ensures forall k :: 0 <= k < |history| ==> NatToString(history[k].authorId) in userindex
      ensures channels == if NatToString(channelid) in Keys(old(channels)) then old(channels)
        else old(channels) + [(NatToString(channelid), channelName)]
      ensures var cid := NatToString(channelid);
        var start := if cid in Keys(old(data)) then old(data) else old(data) + [(cid, [])];
        cid in Keys(start) && (data, userindex, users) == StoreFrom(start, old(userindex), old(users), cid, history)
      ensures servers == old(servers)
    {
      var cid := NatToString(channelid);
      if cid !in Keys(channels) {
        channels := Put(channels, cid, channelName);
      }
      var last := LastMessageTimecode(data, cid);
      if last.None? {
        StorePreservesIndices(data, cid, [], |userindex|);
        data := Put(data, cid, []);
      }
      StoreHistory(cid, history);
    }

    /** The loop over the channel's history: every author ends up in `userindex`. */
    method StoreHistory(cid: string, history: seq<HistoryMessage>)
      requires Valid() && cid in Keys(data)
      modifies this
      ensures Valid() && cid in Keys(data)
      ensures old(userindex) <= userindex
      ensures forall k :: 0 <= k < |history| ==> NatToString(history[k].authorId) in userindex
      ensures (data, userindex, users) == StoreFrom(old(data), old(userindex), old(users), cid, history)
      ensures channels == old(channels) && servers == old(servers)
    {
      var i := 0;
      while i < |history|
        invariant 0 <= i <= |history|
        invariant Valid() && cid in Keys(data)
        invariant old(userindex) <= userindex
        invariant forall k :: 0 <= k < i ==> NatToString(history[k].authorId) in userindex
        invariant StoreFrom(data, userindex, users, cid, history[i..]) == StoreFrom(old(data), old(userindex), old(users), cid, history)
        invariant channels == old(channels) && servers == old(servers)
      {
        assert history[i..][1..] == history[i + 1..];
        var _ := StoreMessage(cid, history[i]);
        i := i + 1;
      }
    }

    /**
     * One message of the history: its author is interned and `data[channelid][messageid]` is set
     * to the stored message.
     */
    method StoreMessage(cid: string, msg: HistoryMessage) returns (index: nat)
      requires Valid() && cid in Keys(data)
      modifies this
      ensures Valid() && cid in Keys(data)
      ensures userindex == old(userindex) || userindex == old(userindex) + [NatToString(msg.authorId)]
      ensures index < |userindex| && userindex[index] == NatToString(msg.authorId)
      ensures (userindex, users, index) == Intern(old(userindex), old(users), NatToString(msg.authorId), msg.authorName)
      ensures channels == old(channels) && servers == old(servers)
      ensures data == PutMessage(old(data), cid, NatToString(msg.id), Message(index, msg.t, msg.content))
    {
      index := InternAuthor(NatToString(msg.authorId), msg.authorName);
      var stored := Message(index, msg.t, msg.content);
      var channelData := Get(data, cid).value;
      var updated := Put(channelData, NatToString(msg.id), stored);
      PutValueIndices(channelData, NatToString(msg.id), stored, |userindex|, data, cid);
      StorePreservesIndices(data, cid, updated, |userindex|);
      data := Put(data, cid, updated);
    }
  }

  /** `data[cid][key] = m` on a channel already present. */
  function PutMessage(data: Dict<string, Dict<string, Message>>, cid: string, key: string, m: Message)
    : (r: Dict<string, Dict<string, Message>>)
    requires cid in Keys(data)
    ensures Keys(r) == Keys(data)
  {
    Put(data, cid, Put(Get(data, cid).value, key, m))
  }

  /** Every message's author index is below `n`. */
  predicate IndicesBelow(data: Dict<string, Dict<string, Message>>, n: nat) {
    forall c :: 0 <= c < |data| ==> ChannelBelow(data[c].1, n)
  }

  predicate ChannelBelow(channel: Dict<string, Message>, n: nat) {
    forall k :: 0 <= k < |channel| ==> channel[k].1.u < n
  }

  /** Replacing a channel's messages by ones whose indices are in range keeps every index in range. */
  lemma StorePreservesIndices(data: Dict<string, Dict<string, Message>>, cid: string, updated: Dict<string, Message>, n: nat)
    requires IndicesBelow(data, n) && ChannelBelow(updated, n)
    ensures IndicesBelow(Put(data, cid, updated), n)
  {
    var r := Put(data, cid, updated);
    forall c | 0 <= c < |r| ensures ChannelBelow(r[c].1, n) {
      if cid in Keys(data) {
        var i := FirstIndex(Keys(data), cid);
        assert r == data[i := (cid, updated)];
      } else {
        assert r == data + [(cid, updated)];
      }
    }
  }

  lemma PutValueIndices(channelData: Dict<string, Message>, mid: string, stored: Message, n: nat,
                        data: Dict<string, Dict<string, Message>>, cid: string)
    requires stored.u < n
    requires cid in Keys(data) && Get(data, cid) == Some(channelData)
    requires IndicesBelow(data, n)
    ensures ChannelBelow(Put(channelData, mid, stored), n)
  {
    var i := FirstIndex(Keys(data), cid);
    assert data[i].1 == channelData;
    var r := Put(channelData, mid, stored);
    if mid in Keys(channelData) {
      assert r == channelData[FirstIndex(Keys(channelData), mid) := (mid, stored)];
    } else {
      assert r == channelData + [(mid, stored)];
    }
  }

  /** `data[cid][key] = m` reads back as `m` in that channel and changes no other channel or message. */
  lemma PutMessageGet(data: Dict<string, Dict<string, Message>>, cid: string, key: string, m: Message, c: string)
    requires cid in Keys(data)
    ensures Get(PutMessage(data, cid, key, m), c) ==
      if c == cid then Some(Put(Get(data, cid).value, key, m)) else Get(data, c)
  {
    PutGet(data, cid, Put(Get(data, cid).value, key, m), c);
  }

  /**
   * Storing a history keeps the channel keys, changes no other channel, only extends
   * `userindex`, and interns every author.
   */
  lemma {:induction false} StoreFromFrame(data: Dict<string, Dict<string, Message>>, userindex: seq<string>,
                                          users: Dict<string, string>, cid: string, history: seq<HistoryMessage>)
    requires cid in Keys(data)
    ensures var r := StoreFrom(data, userindex, users, cid, history);
      Keys(r.0) == Keys(data) && userindex <= r.1 &&
      (forall c :: c != cid ==> Get(r.0, c) == Get(data, c)) &&
      (forall k :: 0 <= k < |history| ==> NatToString(history[k].authorId) in r.1)
    decreases |history|
  {
    if |history| > 0 {
      var msg := history[0];
      var (ui, us, index) := Intern(userindex, users, NatToString(msg.authorId), msg.authorName);
      var m := Message(index, msg.t, msg.content);
      var d1 := PutMessage(data, cid, NatToString(msg.id), m);
      var rest := history[1..];
      StoreFromFrame(d1, ui, us, cid, rest);
      var r := StoreFrom(d1, ui, us, cid, rest);
      assert r == StoreFrom(data, userindex, users, cid, history);
      forall c | c != cid
        ensures Get(r.0, c) == Get(data, c)
      {
        PutMessageGet(data, cid, NatToString(msg.id), m, c);
      }
      assert userindex <= ui && NatToString(msg.authorId) in ui;
      assert NatToString(msg.authorId) in r.1 by {
        var i := FirstIndex(ui, NatToString(msg.authorId));
        assert r.1[i] == ui[i];
      }
      forall k | 1 <= k < |history|
        ensures NatToString(history[k].authorId) in r.1
      {
        assert rest[k - 1] == history[k];
      }
    }
  }

  /** A message id the history does not use keeps its message in the channel. */
  lemma {:induction false} StoreFromKeeps(data: Dict<string, Dict<string, Message>>, userindex: seq<string>,
                                          users: Dict<string, string>, cid: string, history: seq<HistoryMessage>, key: string)
    requires cid in Keys(data)
    requires forall j :: 0 <= j < |history| ==> NatToString(history[j].id) != key
    ensures var r := StoreFrom(data, userindex, users, cid, history);
      Get(r.0, cid).Some? && Get(Get(r.0, cid).value, key) == Get(Get(data, cid).value, key)
    decreases |history|
  {
    if |history| > 0 {
      var msg := history[0];
      var (ui, us, index) := Intern(userindex, users, NatToString(msg.authorId), msg.authorName);
      var m := Message(index, msg.t, msg.content);
      var d1 := PutMessage(data, cid, NatToString(msg.id), m);
      assert forall j :: 1 <= j < |history| ==> history[1..][j - 1] == history[j];
      StoreFromKeeps(d1, ui, us, cid, history[1..], key);
      PutMessageGet(data, cid, NatToString(msg.id), m, cid);
      PutGet(Get(data, cid).value, NatToString(msg.id), m, key);
    }
  }

  /**
   * A message of the history that no later message overwrites ends up stored under its id, with
   * its content, its timestamp, and its author's position in the final `userindex`.
   */
  lemma {:induction false} StoreFromStores(data: Dict<string, Dict<string, Message>>, userindex: seq<string>,
                                           users: Dict<string, string>, cid: string, history: seq<HistoryMessage>, k: nat)
    requires cid in Keys(data) && k < |history|
    requires forall j :: k < j < |history| ==> history[j].id != history[k].id
    ensures var r := StoreFrom(data, userindex, users, cid, history);
      var author := NatToString(history[k].authorId);
      author in r.1 && Get(r.0, cid).Some? &&
      Get(Get(r.0, cid).value, NatToString(history[k].id)) ==
        Some(Message(FirstIndex(r.1, author), history[k].t, history[k].content))
    decreases |history|
  {
    if k == 0 {
      StoreFirstStored(data, userindex, users, cid, history);
    } else {
      var msg := history[0];
      var (ui, us, index) := Intern(userindex, users, NatToString(msg.authorId), msg.authorName);
      var d1 := PutMessage(data, cid, NatToString(msg.id), Message(index, msg.t, msg.content));
      var rest := history[1..];
      assert forall j :: k - 1 < j < |rest| ==> rest[j] == history[j + 1];
      assert rest[k - 1] == history[k];
      StoreFromStores(d1, ui, us, cid, rest, k - 1);
      assert StoreFrom(d1, ui, us, cid, rest) == StoreFrom(data, userindex, users, cid, history);
    }
  }

  /** The first message of a history whose id no later message reuses stays stored. */
  lemma StoreFirstStored(data: Dict<string, Dict<string, Message>>, userindex: seq<string>,
                         users: Dict<string, string>, cid: string, history: seq<HistoryMessage>)
    requires cid in Keys(data) && |history| > 0
    requires forall j :: 0 < j < |history| ==> history[j].id != history[0].id
    ensures var r := StoreFrom(data, userindex, users, cid, history);
      var author := NatToString(history[0].authorId);
      author in r.1 && Get(r.0, cid).Some? &&
      Get(Get(r.0, cid).value, NatToString(history[0].id)) ==
        Some(Message(FirstIndex(r.1, author), history[0].t, history[0].content))
  {
    var msg := history[0];
    var (ui, us, index) := Intern(userindex, users, NatToString(msg.authorId), msg.authorName);
    var m := Message(index, msg.t, msg.content);
    var key := NatToString(msg.id);
    var d1 := PutMessage(data, cid, key, m);
    var rest := history[1..];
    forall j | 0 <= j < |rest|
      ensures NatToString(rest[j].id) != key
    {
      assert rest[j] == history[j + 1];
      NatToStringInjective(rest[j].id, msg.id);
    }
    StoreFromFrame(d1, ui, us, cid, rest);
    StoreFromKeeps(d1, ui, us, cid, rest, key);
    PutMessageGet(data, cid, key, m, cid);
    PutGet(Get(data, cid).value, key, m, key);
    var r := StoreFrom(d1, ui, us, cid, rest);
    assert r == StoreFrom(data, userindex, users, cid, history);
    var author := NatToString(msg.authorId);
    assert index < |ui| && ui[index] == author && author !in ui[..index];
    assert r.1[..index] == ui[..index];
    FirstIndexAt(r.1, author, index);
  }
}
