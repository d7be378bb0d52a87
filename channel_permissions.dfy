/**
 * The channel permission store of helpers/channel_permissions.py: for each
 * guild (its id as a string) a map from a key (`white`, `black`, `sim`) to a
 * list of channel ids or a single channel id. The JSON file it lives in is the
 * `perms` field of a `PermissionStore`; every update reads it, changes it and
 * writes it back, so the file is exactly the field.
 *
 * `has_post_permission` (cogs/admin.py, copied in cogs/markov.py) decides from
 * a guild's entry whether the bot may post in a channel.
 */
module ChannelPermissions {
  import opened Text
  import opened OrderedDict

  const WHITELIST_KEY := "white"
  const BLACKLIST_KEY := "black"
  const SIMULATION_KEY := "sim"

  /** A key's value: a JSON list of channel ids or a single channel id. */
  datatype PermValue = Channels(ids: seq<int>) | Channel(id: int)

  type GuildPerms = map<string, PermValue>
  type Perms = map<string, GuildPerms>

  /**
   * How an update ends: normally, with the ValueError the source raises on purpose, or with the
   * AttributeError of calling a list method on a single channel id.
   */
  datatype Status = Done | ValueError | AttributeError

  /** `str(guildid)` */
  function GuildKey(guildid: nat): string { NatToString(guildid) }

  /** `add_channel`: a new guild gets exactly `{key: [channelid]}`; otherwise the channel is appended to the key's list. */
  function AddIn(p: Perms, g: string, c: int, key: string): (Perms, Status) {
    if g !in p then (p[g := map[key := Channels([c])]], Done)
    else if key !in p[g] then (p[g := p[g][key := Channels([c])]], Done)
    else match p[g][key]
      case Channels(cs) => (p[g := p[g][key := Channels(cs + [c])]], Done)
      case Channel(_) => (p, AttributeError)
  }

  /** `remove_channel`: a missing guild, key or channel is a ValueError; otherwise only the first occurrence goes. */
  function RemoveIn(p: Perms, g: string, c: int, key: string): (Perms, Status) {
    if g !in p || key !in p[g] then (p, ValueError)
    else match p[g][key]
      case Channel(_) => (p, AttributeError)
      case Channels(cs) =>
        if c !in cs then (p, ValueError)
        else (p[g := p[g][key := Channels(RemoveFirst(cs, c))]], Done)
  }

  /** `set_channel`: the key holds the channel id, the guild entry created when needed. */
  function SetIn(p: Perms, g: string, c: int, key: string): Perms {
    if g in p then p[g := p[g][key := Channel(c)]] else p[g := map[key := Channel(c)]]
  }

  /** `clear_channel`: a missing guild is a ValueError; otherwise the key is dropped, present or not. */
  function ClearIn(p: Perms, g: string, key: string): (Perms, Status) {
    if g !in p then (p, ValueError) else (p[g := p[g] - {key}], Done)
  }

  /** What `get_channel` returns: None, the channel id, or the ValueError raised for a list. */
  datatype Lookup = Missing | Found(id: int) | NotAnId

  function GetChannelIn(p: Perms, g: string, key: string): Lookup {
    if g !in p || key !in p[g] then Missing
    else match p[g][key]
      case Channel(c) => Found(c)
      case Channels(_) => NotAnId
  }

  /** `get_guild`: the guild's entry, or `{}` for a guild the file does not know. */
  function GetGuildIn(p: Perms, g: string): (r: GuildPerms)
    ensures g !in p ==> r == map[]
    ensures g in p ==> r == p[g]
  {
    if g in p then p[g] else map[]
  }

  /** The file's contents, and the operations that rewrite it. */
  class PermissionStore {
    var perms: Perms

    /** An absent file reads as `{}`. */
    constructor ()
      ensures perms == map[]
    {
      perms := map[];
    }

    method AddChannel(guildid: nat, channelid: int, key: string) returns (s: Status)
      modifies this
      ensures (perms, s) == AddIn(old(perms), GuildKey(guildid), channelid, key)
    {
      var g := GuildKey(guildid);
      if g !in perms {
        perms := perms[g := map[key := Channels([channelid])]];
        return Done;
      }
      var guildPerms := perms[g];
      if key !in guildPerms {
        perms := perms[g := guildPerms[key := Channels([channelid])]];
        return Done;
      }
      match guildPerms[key]
      case Channel(_) =>
        s := AttributeError;
      case Channels(cs) =>
        perms := perms[g := guildPerms[key := Channels(cs + [channelid])]];
        s := Done;
    }

    method RemoveChannel(guildid: nat, channelid: int, key: string) returns (s: Status)
      modifies this
      ensures (perms, s) == RemoveIn(old(perms), GuildKey(guildid), channelid, key)
    {
      var g := GuildKey(guildid);
      if g !in perms || key !in perms[g] {
        return ValueError;
      }
      match perms[g][key]
      case Channel(_) =>
        s := AttributeError;
      case Channels(cs) =>
        if channelid !in cs {
          return ValueError;
        }
        perms := perms[g := perms[g][key := Channels(RemoveFirst(cs, channelid))]];
        s := Done;
    }

    method SetChannel(guildid: nat, channelid: int, key: string)
      modifies this
      ensures perms == SetIn(old(perms), GuildKey(guildid), channelid, key)
    {
      var g := GuildKey(guildid);
      if g in perms {
        perms := perms[g := perms[g][key := Channel(channelid)]];
      } else {
        perms := perms[g := map[key := Channel(channelid)]];
      }
    }

    method ClearChannel(guildid: nat, key: string) returns (s: Status)
      modifies this
      ensures (perms, s) == ClearIn(old(perms), GuildKey(guildid), key)
    {
      var g := GuildKey(guildid);
      if g !in perms {
        return ValueError;
      }
      perms := perms[g := perms[g] - {key}];
      s := Done;
    }

    /**
     * `get_channel` reads the key of the guild's entry as `get_guild` gives it: None when the key
     * is absent (an unknown guild has no keys), the id when it holds one, ValueError for a list.
     */
    function GetChannel(guildid: nat, key: string): (r: Lookup)
      reads this
      ensures r == Missing <==> key !in GetGuild(guildid)
      ensures r.Found? ==> key in GetGuild(guildid) && GetGuild(guildid)[key] == Channel(r.id)
      ensures r == NotAnId <==> key in GetGuild(guildid) && GetGuild(guildid)[key].Channels?
    {
      GetChannelIn(perms, GuildKey(guildid), key)
    }

    function GetGuild(guildid: nat): GuildPerms
      reads this
    {
      GetGuildIn(perms, GuildKey(guildid))
    }
  }

  /**
   * What `get_guild` returns after each update: `set_channel` stores the id under the key,
   * a successful `add_channel` appends to the key's list (a fresh list when absent), a successful
   * `clear_channel` drops the key; the entries of other guilds read as before.
   */
  lemma GuildAfterUpdates(p: Perms, g: string, c: int, key: string, h: string)
    requires h != g
    ensures GetGuildIn(SetIn(p, g, c, key), g) == GetGuildIn(p, g)[key := Channel(c)]
    ensures AddIn(p, g, c, key).1 == Done ==>
      GetGuildIn(AddIn(p, g, c, key).0, g) ==
        GetGuildIn(p, g)[key := Channels((if key in GetGuildIn(p, g) then GetGuildIn(p, g)[key].ids else []) + [c])]
    ensures ClearIn(p, g, key).1 == Done ==> GetGuildIn(ClearIn(p, g, key).0, g) == GetGuildIn(p, g) - {key}
    ensures GetGuildIn(SetIn(p, g, c, key), h) == GetGuildIn(p, h)
    ensures GetGuildIn(AddIn(p, g, c, key).0, h) == GetGuildIn(p, h)
    ensures GetGuildIn(ClearIn(p, g, key).0, h) == GetGuildIn(p, h)
  {
    var empty: seq<int> := [];
    assert empty + [c] == [c];
  }

  /** Adding to an unknown guild creates exactly `{key: [channelid]}` for it and touches no other guild. */
  lemma AddNewGuild(p: Perms, g: string, c: int, key: string)
    requires g !in p
    ensures AddIn(p, g, c, key).1 == Done
    ensures AddIn(p, g, c, key).0[g] == map[key := Channels([c])]
    ensures forall h :: h in p ==> h in AddIn(p, g, c, key).0 && AddIn(p, g, c, key).0[h] == p[h]
  {
  }

  /**
   * Adding to a known guild appends to the key's list (creating it when absent), duplicates
   * allowed; every other key and guild is unchanged.
   */
  lemma AddKnownGuild(p: Perms, g: string, c: int, key: string)
    requires g in p && (key in p[g] ==> p[g][key].Channels?)
    ensures var (q, s) := AddIn(p, g, c, key);
      s == Done && q.Keys == p.Keys && q[g].Keys == p[g].Keys + {key} &&
      q[g][key] == Channels((if key in p[g] then p[g][key].ids else []) + [c]) &&
      (forall k :: k in p[g] && k != key ==> q[g][k] == p[g][k]) &&
      (forall h :: h in p && h != g ==> q[h] == p[h])
  {
  }

  /** Removing what was just appended to a list that did not hold it gives back the original store. */
  lemma RemoveUndoesAdd(p: Perms, g: string, c: int, key: string)
    requires g in p && key in p[g] && p[g][key].Channels? && c !in p[g][key].ids
    ensures RemoveIn(AddIn(p, g, c, key).0, g, c, key) == (p, Done)
  {
    var cs := p[g][key].ids;
    RemoveFirstAppended(cs, c);
    var q := AddIn(p, g, c, key).0;
    assert q == p[g := p[g][key := Channels(cs + [c])]];
    assert g in q && key in q[g] && q[g][key] == Channels(cs + [c]);
    assert c in cs + [c];
    var r := RemoveIn(q, g, c, key);
    assert r.0 == q[g := q[g][key := Channels(cs)]];
    assert q[g][key := Channels(cs)] == p[g];
    assert r.0 == p;
  }

  /** `remove_channel` fails with ValueError exactly when the guild, the key or the channel is missing. */
  lemma RemoveErrors(p: Perms, g: string, c: int, key: string)
    ensures RemoveIn(p, g, c, key).1 == ValueError <==>
      g !in p || key !in p[g] || (p[g][key].Channels? && c !in p[g][key].ids)
    ensures RemoveIn(p, g, c, key).1 != Done ==> RemoveIn(p, g, c, key).0 == p
  {
  }

  /** A removal drops one occurrence of the channel and changes nothing else. */
  lemma RemoveOne(p: Perms, g: string, c: int, key: string)
    requires RemoveIn(p, g, c, key).1 == Done
    ensures var q := RemoveIn(p, g, c, key).0;
      q.Keys == p.Keys && q[g].Keys == p[g].Keys && q[g][key].Channels? &&
      multiset(q[g][key].ids) + multiset{c} == multiset(p[g][key].ids) &&
      (forall k :: k in p[g] && k != key ==> q[g][k] == p[g][k]) &&
      (forall h :: h in p && h != g ==> q[h] == p[h])
  {
    RemoveFirstMultiset(p[g][key].ids, c);
  }

  /** What was set is what is read back, and other keys and guilds keep their values. */
  lemma SetThenGet(p: Perms, g: string, c: int, key: string, g': string, key': string)
    ensures GetChannelIn(SetIn(p, g, c, key), g', key') ==
      if g' == g && key' == key then Found(c) else GetChannelIn(p, g', key')
  {
  }

  /** Clearing an unknown guild is a ValueError; otherwise the key is gone, everything else stays, and a second clear changes nothing. */
  lemma ClearFacts(p: Perms, g: string, key: string)
    ensures g !in p ==> ClearIn(p, g, key) == (p, ValueError)
    ensures g in p ==>
      var q := ClearIn(p, g, key).0;
      key !in q[g] && q[g].Keys == p[g].Keys - {key} &&
      (forall k :: k in p[g] && k != key ==> q[g][k] == p[g][k]) &&
      (forall h :: h in p && h != g ==> q[h] == p[h]) &&
      ClearIn(q, g, key) == (q, Done)
  {
    if g in p {
      var q := ClearIn(p, g, key).0;
      assert q[g] - {key} == q[g];
      assert q[g := q[g]] == q;
    }
  }

  /**
   * `has_post_permission`: a channel on the blacklist is refused; otherwise a non-empty whitelist
   * must contain it. `None` is the TypeError of iterating a single channel id stored under
   * `black`, or a non-zero one under `white`.
   */
  function HasPostPermission(guildPerms: GuildPerms, channel: int): Option<bool> {
    if BLACKLIST_KEY in guildPerms && guildPerms[BLACKLIST_KEY].Channel? then None
    else if BLACKLIST_KEY in guildPerms && channel in guildPerms[BLACKLIST_KEY].ids then Some(false)
    else if WHITELIST_KEY !in guildPerms then Some(true)
    else match guildPerms[WHITELIST_KEY]
      case Channel(n) => if n == 0 then Some(true) else None
      case Channels(ws) => Some(|ws| == 0 || channel in ws)
  }

  /** `has_post_permission(guildid, channelid)`, looking the guild up with `get_guild`. */
  function PostPermission(p: Perms, guildid: nat, channel: int): Option<bool> {
    HasPostPermission(GetGuildIn(p, GuildKey(guildid)), channel)
  }

  /** The lists a guild keeps under `black` and `white`, when both are lists (an absent key is none). */
  predicate ListsOnly(guildPerms: GuildPerms) {
    (BLACKLIST_KEY in guildPerms ==> guildPerms[BLACKLIST_KEY].Channels?) &&
    (WHITELIST_KEY in guildPerms ==> guildPerms[WHITELIST_KEY].Channels?)
  }

  function Blacklist(guildPerms: GuildPerms): seq<int>
    requires ListsOnly(guildPerms)
  {
    if BLACKLIST_KEY in guildPerms then guildPerms[BLACKLIST_KEY].ids else []
  }

  function Whitelist(guildPerms: GuildPerms): seq<int>
    requires ListsOnly(guildPerms)
  {
    if WHITELIST_KEY in guildPerms then guildPerms[WHITELIST_KEY].ids else []
  }

  /**
   * The rule stated outright: the bot may post exactly when the channel is not blacklisted and the
   * whitelist is empty or holds the channel; a channel on both lists is refused.
   */
  lemma PostPermissionRule(guildPerms: GuildPerms, channel: int)
    requires ListsOnly(guildPerms)
    ensures HasPostPermission(guildPerms, channel) ==
      Some(channel !in Blacklist(guildPerms) && (|Whitelist(guildPerms)| == 0 || channel in Whitelist(guildPerms)))
  {
  }

  /**
   * `has_post_permission` raises TypeError exactly when a single channel id is stored under
   * `black`, or, for a channel the blacklist does not refuse, a non-zero one under `white`.
   */
  lemma PostPermissionRaises(guildPerms: GuildPerms, channel: int)
    ensures HasPostPermission(guildPerms, channel).None? <==>
      (BLACKLIST_KEY in guildPerms && guildPerms[BLACKLIST_KEY].Channel?) ||
      (!(BLACKLIST_KEY in guildPerms && channel in guildPerms[BLACKLIST_KEY].ids) &&
       WHITELIST_KEY in guildPerms && guildPerms[WHITELIST_KEY].Channel? && guildPerms[WHITELIST_KEY].id != 0)
  {
  }

  /** `set_channel` under `black` stores a single id, so every later permission check raises. */
  lemma SetBlacklistRaises(p: Perms, guildid: nat, c: int, channel: int)
    ensures PostPermission(SetIn(p, GuildKey(guildid), c, BLACKLIST_KEY), guildid, channel) == None
  {
  }

  /** A guild the store does not know allows every channel. */
  lemma UnknownGuildAllows(p: Perms, guildid: nat, channel: int)
    requires GuildKey(guildid) !in p
    ensures PostPermission(p, guildid, channel) == Some(true)
  {
  }

  /** Blacklisting a channel through `add_channel` refuses it afterwards, whatever the whitelist says. */
  lemma BlacklistRefuses(p: Perms, guildid: nat, channel: int)
    requires var g := GuildKey(guildid); g in p ==> BLACKLIST_KEY in p[g] ==> p[g][BLACKLIST_KEY].Channels?
    ensures AddIn(p, GuildKey(guildid), channel, BLACKLIST_KEY).1 == Done
    ensures PostPermission(AddIn(p, GuildKey(guildid), channel, BLACKLIST_KEY).0, guildid, channel) == Some(false)
  {
    var g := GuildKey(guildid);
    var q: Perms := AddIn(p, g, channel, BLACKLIST_KEY).0;
    assert channel in q[g][BLACKLIST_KEY].ids;
  }
}
