/**
 * Per-user server toggles (helpers/server_toggle.py and its older copy
 * server_toggle.py): SERVERS maps server ids to names, read from `id;name`
 * lines; each user has an options file holding a `servers` list (the servers
 * whose messages feed the user's Markov model) and, in the helpers/ copy, a
 * `markov` flag. The options files are the `files` field of an
 * `OptionsStore`; a user without a file reads as `{}`.
 */
module ServerToggle {
  import opened Text
  import opened OrderedDict

  const SERVERS_KEY := "servers"
  const MARKOV_KEY := "markov"
  const LIST_HEADER := "List of MarkovBot Servers:"
  const LIST_HELP := "**Bolded** servers have been toggled on." + " To toggle a specific server, " + "type `$toggle <server>`."

  /**
   * A value in a user's options: the `servers` list (whose entries may be None, the id
   * `get_serverid` gives for a name it does not know) or the `markov` flag.
   */
  datatype OptionValue = ServerList(ids: seq<Option<string>>) | Flag(on: bool)

  type UserOptions = map<string, OptionValue>

  /** `get_serverid`: the id of the first server, in SERVERS order, with exactly this name. */
  function ServerIdOf(servers: Dict<string, string>, name: string): Option<string> {
    if |servers| == 0 then None
    else if servers[0].1 == name then Some(servers[0].0)
    else ServerIdOf(servers[1..], name)
  }

  /** The id found is that of the first entry carrying the name; no id means no entry carries it. */
  lemma ServerIdOfMeaning(servers: Dict<string, string>, name: string)
    ensures ServerIdOf(servers, name).None? <==> name !in Values(servers)
    ensures ServerIdOf(servers, name).Some? ==>
      exists i :: 0 <= i < |servers| && servers[i] == (ServerIdOf(servers, name).value, name) && name !in Values(servers)[..i]
  {
    ServerIdAbsent(servers, name);
    if ServerIdOf(servers, name).Some? {
      var i := ServerIdIndex(servers, name);
    }
  }

  /** No id is found exactly when no server carries the name. */
  lemma {:induction false} ServerIdAbsent(servers: Dict<string, string>, name: string)
    ensures ServerIdOf(servers, name).None? <==> name !in Values(servers)
  {
    if |servers| > 0 {
      ServerIdAbsent(servers[1..], name);
      assert Values(servers) == [servers[0].1] + Values(servers[1..]);
    }
  }

  /** The position of the entry whose id is found: it carries the name, and no earlier entry does. */
  lemma {:induction false} ServerIdIndex(servers: Dict<string, string>, name: string) returns (i: nat)
    requires ServerIdOf(servers, name).Some?
    ensures i < |servers| && servers[i] == (ServerIdOf(servers, name).value, name) && name !in Values(servers)[..i]
  {
    if servers[0].1 == name {
      i := 0;
      assert Values(servers)[..0] == [];
    } else {
      var j := ServerIdIndex(servers[1..], name);
      i := j + 1;
      assert servers[i] == servers[1..][j];
      assert Values(servers) == [servers[0].1] + Values(servers[1..]);
      assert Values(servers)[..i] == [servers[0].1] + Values(servers[1..])[..j];
    }
  }

  /** `get_serverid` as the loop over `SERVERS.items()`. */
  method GetServerId(servers: Dict<string, string>, name: string) returns (r: Option<string>)
    ensures r == ServerIdOf(servers, name)
  {
    var i := 0;
    while i < |servers|
      invariant 0 <= i <= |servers|
      invariant ServerIdOf(servers, name) == ServerIdOf(servers[i..], name)
    {
      assert servers[i..][1..] == servers[i + 1..];
      if servers[i].1 == name {
        return Some(servers[i].0);
      }
      i := i + 1;
    }
    r := None;
  }

  /** `get_user_servers`: the `servers` entry, or None. */
  function UserServers(opts: UserOptions): Option<OptionValue> {
    if SERVERS_KEY in opts then Some(opts[SERVERS_KEY]) else None
  }

  /** Outcome of `toggle_server`: whether the server was added, or the TypeError of a `servers` entry that is not a list. */
  datatype Toggle = Toggled(added: bool) | NotAList

  /** `toggle_server` on a user's options: remove the first occurrence of the id if present, else append it. */
  function ToggleIn(opts: UserOptions, id: Option<string>): (UserOptions, Toggle) {
    var current := if SERVERS_KEY in opts then opts[SERVERS_KEY] else ServerList([]);
    match current
    case Flag(_) => (opts, NotAList)
    case ServerList(ids) =>
      if id in ids then (opts[SERVERS_KEY := ServerList(RemoveFirst(ids, id))], Toggled(false))
      else (opts[SERVERS_KEY := ServerList(ids + [id])], Toggled(true))
  }

  /** `toggle_markov` on a user's options: None is the KeyError of a missing `markov` entry. */
  function ToggleMarkovIn(opts: UserOptions): Option<(UserOptions, bool)> {
    if MARKOV_KEY !in opts then None
    else
      var on := match opts[MARKOV_KEY] case Flag(b) => b case ServerList(ids) => |ids| > 0;
      Some((opts[MARKOV_KEY := Flag(!on)], !on))
  }

  /** The options files of every user. */
  class OptionsStore {
    var files: map<string, UserOptions>

    constructor ()
      ensures files == map[]
    {
      files := map[];
    }

    /** `open_user_options`: a missing file reads as `{}`. */
    function Open(userid: string): UserOptions
      reads this
    {
      if userid in files then files[userid] else map[]
    }

    /** `toggle_server`: the options are saved back even when nothing else changes. */
    method ToggleServer(servers: Dict<string, string>, userid: string, server: string) returns (t: Toggle)
      modifies this
      ensures var opts := if userid in old(files) then old(files)[userid] else map[];
        var r := ToggleIn(opts, ServerIdOf(servers, server));
        t == r.1 && files == if r.1.NotAList? then old(files) else old(files)[userid := r.0]
    {
      var opts := Open(userid);
      var id := GetServerId(servers, server);
      var current := if SERVERS_KEY in opts then opts[SERVERS_KEY] else ServerList([]);
      match current
      case Flag(_) =>
        t := NotAList;
      case ServerList(ids) =>
        if id in ids {
          opts := opts[SERVERS_KEY := ServerList(RemoveFirst(ids, id))];
          t := Toggled(false);
        } else {
          opts := opts[SERVERS_KEY := ServerList(ids + [id])];
          t := Toggled(true);
        }
        files := files[userid := opts];
    }

    /** `toggle_markov`: flips the flag and returns its new value; None is the KeyError of a missing flag. */
    method ToggleMarkov(userid: string) returns (r: Option<bool>)
      modifies this
      ensures var opts := if userid in old(files) then old(files)[userid] else map[];
        match ToggleMarkovIn(opts)
        case None => r.None? && files == old(files)
        case Some(res) => r == Some(res.1) && files == old(files)[userid := res.0]
    {
      var opts := Open(userid);
      if MARKOV_KEY !in opts {
        return None;
      }
      var on := match opts[MARKOV_KEY] case Flag(b) => b case ServerList(ids) => |ids| > 0;
      files := files[userid := opts[MARKOV_KEY := Flag(!on)]];
      r := Some(!on);
    }
  }

  /**
   * `toggle_server` adds exactly when the id was absent, creates a missing `servers` list, and
   * leaves every other option untouched.
   */
  lemma ToggleFacts(opts: UserOptions, id: Option<string>)
    requires SERVERS_KEY in opts ==> opts[SERVERS_KEY].ServerList?
    ensures var (q, t) := ToggleIn(opts, id);
      var before := if SERVERS_KEY in opts then opts[SERVERS_KEY].ids else [];
      t.Toggled? && (t.added <==> id !in before) &&
      SERVERS_KEY in q && q[SERVERS_KEY].ServerList? &&
      (id in q[SERVERS_KEY].ids <==> t.added || multiset(before)[id] > 1) &&
      q.Keys == opts.Keys + {SERVERS_KEY} &&
      forall k :: k in opts && k != SERVERS_KEY ==> q[k] == opts[k]
  {
    var before := if SERVERS_KEY in opts then opts[SERVERS_KEY].ids else [];
    if id in before {
      RemoveFirstMultiset(before, id);
      var after := RemoveFirst(before, id);
      assert multiset(after)[id] == multiset(before)[id] - 1;
    }
  }

  /** Toggling a server that was absent and then toggling it again restores the options exactly. */
  lemma ToggleTwiceFromAbsent(opts: UserOptions, id: Option<string>)
    requires SERVERS_KEY in opts && opts[SERVERS_KEY].ServerList? && id !in opts[SERVERS_KEY].ids
    ensures ToggleIn(ToggleIn(opts, id).0, id).0 == opts
  {
    var ids := opts[SERVERS_KEY].ids;
    RemoveFirstAppended(ids, id);
    assert opts[SERVERS_KEY := ServerList(ids)] == opts;
  }

  /** From a list holding the id at most once, two toggles give back the same set of servers. */
  lemma ToggleTwiceSameSet(opts: UserOptions, id: Option<string>)
    requires SERVERS_KEY in opts && opts[SERVERS_KEY].ServerList? && multiset(opts[SERVERS_KEY].ids)[id] <= 1
    ensures var q := ToggleIn(ToggleIn(opts, id).0, id).0;
      SERVERS_KEY in q && q[SERVERS_KEY].ServerList? &&
      multiset(q[SERVERS_KEY].ids) == multiset(opts[SERVERS_KEY].ids)
  {
    var ids := opts[SERVERS_KEY].ids;
    if id in ids {
      RemoveFirstMultiset(ids, id);
      var after := RemoveFirst(ids, id);
      assert multiset(after)[id] == 0;
      assert id !in after;
    } else {
      ToggleTwiceFromAbsent(opts, id);
    }
  }

  /**
   * What `get_user_servers` gives after `toggle_server`, as `list_servers` reads it: the toggled
   * server is bolded exactly when it was added or was listed twice, and every other server is
   * bolded exactly as before.
   */
  lemma ToggleThenBolded(opts: UserOptions, id: string, other: string)
    requires SERVERS_KEY in opts ==> opts[SERVERS_KEY].ServerList?
    ensures var (q, t) := ToggleIn(opts, Some(id));
      var before := if SERVERS_KEY in opts then opts[SERVERS_KEY].ids else [];
      UserServers(q).Some? && t.Toggled? &&
      (Bolded(UserServers(q), id) <==> t.added || multiset(before)[Some(id)] > 1) &&
      (other != id ==> (Bolded(UserServers(q), other) <==> Bolded(UserServers(opts), other)))
  {
    ToggleFacts(opts, Some(id));
    var before := if SERVERS_KEY in opts then opts[SERVERS_KEY].ids else [];
    var after := ToggleIn(opts, Some(id)).0[SERVERS_KEY].ids;
    if Some(id) in before {
      RemoveFirstMultiset(before, Some(id));
    }
    assert multiset(after)[Some(other)] == multiset(before)[Some(other)] || other == id;
  }

  /** `toggle_markov` twice puts a flag back as it was, reporting the flipped value in between. */
  lemma ToggleMarkovTwice(opts: UserOptions, on: bool)
    requires MARKOV_KEY in opts && opts[MARKOV_KEY] == Flag(on)
    ensures ToggleMarkovIn(opts).Some? && ToggleMarkovIn(opts).value.1 == !on
    ensures ToggleMarkovIn(ToggleMarkovIn(opts).value.0).Some?
    ensures ToggleMarkovIn(ToggleMarkovIn(opts).value.0).value == (opts, on)
  {
    var q := ToggleMarkovIn(opts).value.0;
    assert q[MARKOV_KEY := Flag(on)] == opts;
  }

  /** Whether a server is bolded: the user's `servers` list is non-empty and holds its id. */
  predicate Bolded(userServers: Option<OptionValue>, id: string) {
    userServers.Some? && userServers.value.ServerList? && Some(id) in userServers.value.ids
  }

  function ServerLine(name: string, bold: bool): string {
    if bold then "**" + name + "**" else name
  }

  /** The server lines of `list_servers`: one per server whose model file exists for the user, in SERVERS order. */
  function ServerLines(servers: Dict<string, string>, userServers: Option<OptionValue>, hasModel: string -> bool): seq<string> {
    if |servers| == 0 then []
    else
      var rest := ServerLines(servers[1..], userServers, hasModel);
      if hasModel(servers[0].0) then [ServerLine(servers[0].1, Bolded(userServers, servers[0].0))] + rest else rest
  }

  /** The server lines, each followed by a newline. */
  function ServerText(servers: Dict<string, string>, userServers: Option<OptionValue>, hasModel: string -> bool): string {
    if |servers| == 0 then ""
    else
      var rest := ServerText(servers[1..], userServers, hasModel);
      if hasModel(servers[0].0) then ServerLine(servers[0].1, Bolded(userServers, servers[0].0)) + "\n" + rest else rest
  }

  lemma {:induction false} ServerTextIsLines(servers: Dict<string, string>, userServers: Option<OptionValue>, hasModel: string -> bool)
    ensures ServerText(servers, userServers, hasModel) == LinesText(ServerLines(servers, userServers, hasModel))
  {
    if |servers| > 0 {
      ServerTextIsLines(servers[1..], userServers, hasModel);
      var rest := ServerLines(servers[1..], userServers, hasModel);
      if hasModel(servers[0].0) {
        var line := ServerLine(servers[0].1, Bolded(userServers, servers[0].0));
        assert ([line] + rest)[1..] == rest;
      }
    }
  }

  /**
   * `list_servers`: the header line, the server lines, then the help line (no newline after it).
   * `hasModel(id)` says whether the user's model file exists for server `id` (helpers/ copy); the
   * copy in server_toggle.py lists every server, which is `hasModel` always true.
   */
  method ListServers(servers: Dict<string, string>, userServers: Option<OptionValue>, hasModel: string -> bool)
    returns (out: string)
    ensures out == LIST_HEADER + "\n" + ServerText(servers, userServers, hasModel) + LIST_HELP
  {
    var lines := "";
    var i := 0;
    while i < |servers|
      invariant 0 <= i <= |servers|
      invariant lines + ServerText(servers[i..], userServers, hasModel) == ServerText(servers, userServers, hasModel)
    {
      ServerTextStep(servers, i, userServers, hasModel);
      var piece := "";
      if hasModel(servers[i].0) {
        piece := ServerLine(servers[i].1, Bolded(userServers, servers[i].0)) + "\n";
      }
      ghost var rest := ServerText(servers[i + 1..], userServers, hasModel);
      assert lines + (piece + rest) == (lines + piece) + rest;
      lines := lines + piece;
      i := i + 1;
    }
    assert servers[i..] == [];
    assert lines == ServerText(servers, userServers, hasModel);
    out := LIST_HEADER + "\n" + lines + LIST_HELP;
  }

  /** The text from server `i` on is server `i`'s line, if listed, then the text from server `i + 1` on. */
  lemma ServerTextStep(servers: Dict<string, string>, i: nat, userServers: Option<OptionValue>, hasModel: string -> bool)
    requires i < |servers|
    ensures ServerText(servers[i..], userServers, hasModel) ==
      (if hasModel(servers[i].0) then ServerLine(servers[i].1, Bolded(userServers, servers[i].0)) + "\n" else "") +
      ServerText(servers[i + 1..], userServers, hasModel)
  {
    assert servers[i..][1..] == servers[i + 1..];
  }

  /**
   * Read line by line (names free of newlines), the listing is the header, then one line per
   * listed server, bolded exactly when the user toggled it on, then the help line.
   */
  lemma ListingLines(servers: Dict<string, string>, userServers: Option<OptionValue>, hasModel: string -> bool)
    requires forall i :: 0 <= i < |servers| ==> '\n' !in servers[i].1
    ensures Split(LIST_HEADER + "\n" + ServerText(servers, userServers, hasModel) + LIST_HELP, '\n') ==
      [LIST_HEADER] + ServerLines(servers, userServers, hasModel) + [LIST_HELP]
  {
    var ls := [LIST_HEADER] + ServerLines(servers, userServers, hasModel);
    ServerTextIsLines(servers, userServers, hasModel);
    assert ls[1..] == ServerLines(servers, userServers, hasModel);
    assert LinesText(ls) == LIST_HEADER + "\n" + ServerText(servers, userServers, hasModel);
    NoNewlineInLines(servers, userServers, hasModel);
    HelpIsOneLine();
    LinesSplitWithTail(ls, LIST_HELP);
  }

  lemma HelpIsOneLine()
    ensures '\n' !in LIST_HELP
  {
    var a, b, c := "**Bolded** servers have been toggled on.", " To toggle a specific server, ", "type `$toggle <server>`.";
    assert '\n' !in a && '\n' !in b && '\n' !in c;
    NoNewlineConcat(a, b);
    NoNewlineConcat(a + b, c);
  }

  lemma NoNewlineConcat(x: string, y: string)
    requires '\n' !in x && '\n' !in y
    ensures '\n' !in x + y
  {
  }

  lemma {:induction false} NoNewlineInLines(servers: Dict<string, string>, userServers: Option<OptionValue>, hasModel: string -> bool)
    requires forall i :: 0 <= i < |servers| ==> '\n' !in servers[i].1
    ensures forall k :: 0 <= k < |ServerLines(servers, userServers, hasModel)| ==> '\n' !in ServerLines(servers, userServers, hasModel)[k]
  {
    if |servers| > 0 {
      NoNewlineInLines(servers[1..], userServers, hasModel);
      var name := servers[0].1;
      assert '\n' !in "**" + name + "**";
    }
  }

  lemma {:induction false} LinesSplitWithTail(ls: seq<string>, tail: string)
    requires forall k :: 0 <= k < |ls| ==> '\n' !in ls[k]
    requires '\n' !in tail
    ensures Split(LinesText(ls) + tail, '\n') == ls + [tail]
  {
    if |ls| == 0 {
      SplitNoSep(tail, '\n');
      assert LinesText(ls) + tail == tail;
    } else {
      LinesSplitWithTail(ls[1..], tail);
      assert LinesText(ls) + tail == ls[0] + ['\n'] + (LinesText(ls[1..]) + tail);
      SplitPrefix(ls[0], LinesText(ls[1..]) + tail, '\n');
      assert ls == [ls[0]] + ls[1..];
    }
  }

  /** Every server appears in the copy that does not check for model files. */
  lemma {:induction false} EveryServerListed(servers: Dict<string, string>, userServers: Option<OptionValue>)
    ensures |ServerLines(servers, userServers, _ => true)| == |servers|
  {
    if |servers| > 0 {
      EveryServerListed(servers[1..], userServers);
    }
  }
}
