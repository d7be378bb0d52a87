# MarkovBot core, modelled in Dafny

MarkovBot is a Discord bot. It imitates the members of a server with per-user Markov chains and
runs a "server simulator" in which those imitations talk to each other. This project models the
deterministic logic underneath the chat glue and proves what that logic promises. The Markov
generator, the random draws, guild membership and the files are explicit parameters.

- **Names and nicknames** (`Nickname`, `NameResolution`, `NameListing`, `MarkovOutput`).
  - `generate_nick` builds the length-bounded `A+B+n` nickname.
  - `parse_names` resolves a `+`-separated name string to user ids. It goes through exact
    matches, unique substring matches and the `me`/`rand`/`all` tags, and has one error per
    failure (too many inputs, not found, ambiguous).
  - `get_name`, `print_names` and `list` cover name lookup and listing.
  - `generate_markov` takes an abstract sentence generator.
  - The copies in helpers/markov_helpers.py, cogs/helpers/markov_helpers.py and markov.py share
    one model. They differ only in the guild filter (an `Option` of the member set) and in
    MAX_NUM_NAMES (a parameter).
- **Posting permission** (`ChannelPermissions`).
  - `has_post_permission` is the blacklist/whitelist check, the same in cogs/markov.py and
    cogs/admin.py.
  - The permission store of helpers/channel_permissions.py is a class over the nested
    guild → key → channels map.
- **Per-user server toggles** (`ServerToggle`).
  - The SERVERS table, `get_serverid`, `get_user_servers`, `toggle_server`, `toggle_markov` and
    `list_servers`, over an in-memory user-options store.
- **Scrape bookkeeping** (`IdNameTable`, `ServerSetup`, `CorpusParser`).
  - The `id;name` server list and its round trip.
  - The latest timestamp, author interning and `init_server_json`.
  - `update_names`, the per-user corpora with batched flushes, and the speaker-order text.
- **The simulators**.
  - `Simulator` is the queue/topic state machine of `Markov.update_simulator` (cogs/markov.py).
    `SimThread.run` in helpers/simulation.py repeats its cycle, but raises after the first one
    (see "## Left out").
  - `SimulatorRun` is the stand-alone run_simulator.py: `find_names`, `fill_queue`, `do_sim`
    and the embed-rate check.
  - `Mentions` is `remove_mentions`.
- **Games** (`Relationship`, `Deathmatch`).
  - `calc_relationship`, `snap`, `ship` and `shipall`.
  - The ATTACKS table, `calculate_damage` and the `do_deathmatch` loop.
- **Python built-ins** (`Text`, `OrderedDict`).
  - The string operations are written out with CPython's semantics.
  - An insertion-ordered `dict` is modelled as a sequence of pairs with unique keys.

Code that changes state step by step is modelled as methods with loop invariants. Each method is
proved equal to a specification function, and the source's promises are lemmas about those
functions. Objects whose fields the source updates in place are classes: the permission store,
the options store, both simulators and NAMES_IN_MSG.

Unbounded `while True` loops take a `fuel` bound. The outcome "stalled" stands for a loop that
has not ended within that bound.

## Model

| member | source | states |
|---|---|---|
| Nickname.AccumulateBounded | helpers/markov_helpers.py:159-163 | the `+`-terminated accumulator never exceeds MAX_NICKNAME_LENGTH, for any names |
| Nickname.AccumulateIsKept | helpers/markov_helpers.py:159-163 | the accumulator is exactly the names the loop kept, each followed by `+`, and no more names are kept than were given |
| Nickname.KeptAreNames | helpers/markov_helpers.py:159-163 | every kept name is one of the input names |
| Nickname.AllFit | helpers/markov_helpers.py:165-171 | when every name fits, the nickname is the names joined by `+` in input order, with no trailing `+` |
| Nickname.SomeOmitted | helpers/markov_helpers.py:165-169 | when names are left out, the kept names keep their `+` and the decimal count of omitted names follows (`A+B+n`) |
| Nickname.AsWrittenAgrees | helpers/markov_helpers.py:165-169 | with at least one name kept and no `+` inside names, the recount `nickname[:-1].split('+')` agrees with the kept count |
| Nickname.NoNameFitsUndercounts | helpers/markov_helpers.py:165-168 | when no name fits, the recount sees one phantom name: the suffix is one too small and a single oversized name gives the empty nickname |
| Nickname.PlusInNameMiscounts | helpers/markov_helpers.py:165-168 | a kept name holding a `+` is recounted as two: with `a+b` kept and one 30-character name left out, the code as written gives `a+b` where the corrected count gives `a+b+1` |
| Nickname.GenerateNick | helpers/markov_helpers.py:157-173 | the loop fails (KeyError) exactly when an id is missing from NAMES, otherwise yields the nickname of the looked-up names, with the omitted count taken from the names actually kept |
| NameResolution.GetName | cogs/helpers/markov_helpers.py:64-69 | `get_name` gives NAMES[id] exactly when the id is a key, else None |
| NameResolution.ScanNames | helpers/markov_helpers.py:230-236 | the inner loop over NAMES, with its `break` on an exact match and the guild filter, computes the scan specification |
| NameResolution.ScanNoExact | helpers/markov_helpers.py:230-236 | with no eligible exact match, the scan yields exactly the eligible substring matches in NAMES order |
| NameResolution.ScanExact | helpers/markov_helpers.py:231-233 | the first eligible exact case-insensitive match is the result, whatever matched as a substring before it |
| NameResolution.MatchesAreMembers | helpers/markov_helpers.py:230-232 | in the guild-filtered copy every matched id is a guild member: non-members are never matched by name |
| NameResolution.ParseNamesLoop | helpers/markov_helpers.py:210-246 | the loop appending to `input_ids` computes `parse_names`: the count check, then the parts in order, stopping at the first error |
| NameResolution.ErrSticks | helpers/markov_helpers.py:219-246 | once a part raises, the result is that error whatever parts follow |
| NameResolution.TooManyExactly | helpers/markov_helpers.py:212-216 | TooManyInputsError carrying the part count is raised exactly when the lower-cased input has more `+`-parts than MAX_NUM_NAMES, before any lookup; the part count is the number of `+` plus one |
| NameResolution.ContributionCount | helpers/markov_helpers.py:219-224 | a successful parse yields one id per part, except `all`, which yields five |
| NameResolution.TagContributions | helpers/markov_helpers.py:219-224 | `me` yields the author id as a string; `rand` yields one NAMES key (IndexError on empty NAMES); `all` fails exactly when NAMES has fewer than five keys and otherwise yields five distinct NAMES keys |
| NameResolution.SingleMatchIsMember | helpers/markov_helpers.py:239-242 | a single substring match is accepted: the `get_member` re-check cannot fail because the match already passed the guild filter |
| NameResolution.NotFoundOrAmbiguous | helpers/markov_helpers.py:236-244 | with no exact match, zero substring matches raise NameNotFoundError and two or more raise AmbiguousInputError listing their names |
| MarkovOutput.SentenceFromMeaning | cogs/helpers/markov_helpers.py:91-102 | `generate_sentence` returns the output of the last call made, after only failed calls, or None after every one of its MAX_MARKOV_ATTEMPTS calls failed |
| MarkovOutput.GenerateSentence | cogs/helpers/markov_helpers.py:91-102 | the retry loop computes the first-success specification and the next call number |
| MarkovOutput.GenerateMarkov | cogs/helpers/markov_helpers.py:72-88 | KeyError exactly when an id is missing from NAMES; "No output." with DEFAULT_NAME without a model; otherwise the non-empty sentences of `num` attempts, each followed by a newline, with the nickname, or "Insufficient data for Markov chain." with DEFAULT_NAME when there are none |
| MarkovOutput.CollectSentences | cogs/helpers/markov_helpers.py:80-84 | the `for _ in range(num)` loop builds exactly the produced sentences, each followed by `\n` |
| MarkovOutput.CollectIsLines | cogs/helpers/markov_helpers.py:80-84 | the accumulated text is the starting text followed by the produced sentences, one per line |
| MarkovOutput.ProducedAreOutputs | cogs/helpers/markov_helpers.py:80-84 | at most `num` sentences are produced, each non-empty and each an actual output of the generator |
| MarkovOutput.LinesTextEmpty | cogs/helpers/markov_helpers.py:85-88 | `out` is empty exactly when no sentence was produced, which selects the "Insufficient data" reply |
| MarkovOutput.GenerateMarkovSingle | markov.py:47-65 | the first non-None sentence of MAX_MARKOV_ATTEMPTS calls, with the title-cased nickname; the error text with DEFAULT_NAME when all fail; "No output." without a model; KeyError for an unknown id |
| MarkovOutput.ClampCount | cogs/markov.py:87-90 | `domulti` forces the count into 1..10, leaving counts already in range unchanged |
| NameListing.Trim2 | helpers/markov_helpers.py:259 | Python's `[:-2]`: a prefix two characters shorter, or empty |
| NameListing.MemberNames | helpers/markov_helpers.py:251-257 | a name is listed exactly when it belongs to a guild member present in NAMES and contains the search case-insensitively |
| NameListing.PrintNames | helpers/markov_helpers.py:249-263 | the loop over the guild's members emits the running message (minus `", "`) whenever the next name would reach MAX_MESSAGE_LENGTH, never resets it, and always appends the final chunk |
| NameListing.ChunksArePrefixes | helpers/markov_helpers.py:258-262 | because the message is never reset, every chunk `print_names` emits is a prefix of every later chunk |
| NameListing.EmittedPrefixes | helpers/markov_helpers.py:258-262 | every chunk emitted before the end is a prefix of the final chunk, and of every later emitted chunk |
| NameListing.ValueNames | cogs/markov.py:142-145 | a NAMES value is listed exactly when it contains the search case-insensitively (or there is no search) |
| NameListing.ListNames | cogs/markov.py:137-152 | the `list` loop appends a name while the message plus the name is shorter than MAX_MESSAGE_LENGTH, otherwise emits the message minus `", "` and starts a new one; the last chunk is always emitted |
| NameListing.ListChunksFit | cogs/markov.py:146-152 | every chunk of `list` is shorter than MAX_MESSAGE_LENGTH unless it is a single name that alone reaches the limit |
| NameListing.ListFoldFits | cogs/markov.py:146-150 | the message being filled stays within the limit (plus its `", "`) or is one name, and every emitted chunk fits |
| NameListing.ShortListOneChunk | cogs/markov.py:142-152 | when all selected names fit in one message, `list` and `print_names` agree: one chunk of every name, separated by `", "` |
| ChannelPermissions.PermissionStore.GetChannel | helpers/channel_permissions.py:47-57 | `get_channel` gives None exactly when the guild entry (`{}` for an unknown guild) lacks the key, the id when the key holds one, and ValueError exactly when it holds a list |
| ChannelPermissions.GuildAfterUpdates | helpers/channel_permissions.py:10-106 | `get_guild` after `set_channel` has the id under the key, after a successful `add_channel` the key's list with the channel appended (a fresh list when absent), after a successful `clear_channel` the key gone; other guilds read as before |
| ChannelPermissions.PermissionStore.constructor | helpers/channel_permissions.py:60-68 | an absent permissions file reads as `{}` |
| ChannelPermissions.PermissionStore.AddChannel | helpers/channel_permissions.py:10-26 | `add_channel` rewrites the store as the add specification says, guild id normalised with `str` |
| ChannelPermissions.PermissionStore.RemoveChannel | helpers/channel_permissions.py:79-94 | `remove_channel` rewrites the store as the removal specification says, or leaves it and reports the error |
| ChannelPermissions.PermissionStore.SetChannel | helpers/channel_permissions.py:97-106 | `set_channel` stores the channel id under the key, creating the guild entry when needed |
| ChannelPermissions.PermissionStore.ClearChannel | helpers/channel_permissions.py:29-44 | `clear_channel` drops the key of a known guild, or reports ValueError for an unknown one |
| ChannelPermissions.AddNewGuild | helpers/channel_permissions.py:15-19 | adding to an unknown guild creates exactly `{key: [channelid]}` for it and touches no other guild |
| ChannelPermissions.AddKnownGuild | helpers/channel_permissions.py:21-26 | adding to a known guild appends to the key's list, creating it if absent, duplicates allowed; other keys and guilds are unchanged |
| ChannelPermissions.RemoveUndoesAdd | helpers/channel_permissions.py:21-26 | removing a channel just appended to a list that did not hold it gives back the original store |
| ChannelPermissions.RemoveErrors | helpers/channel_permissions.py:82-94 | `remove_channel` raises ValueError exactly when the guild, the key or the channel is missing, and a failed call changes nothing |
| ChannelPermissions.RemoveOne | helpers/channel_permissions.py:88-90 | a successful removal drops exactly one occurrence of the channel and changes no other key or guild |
| ChannelPermissions.SetThenGet | helpers/channel_permissions.py:97-106 | after `set_channel`, `get_channel` on the same guild and key returns that channel id, and every other lookup is as before |
| ChannelPermissions.ClearFacts | helpers/channel_permissions.py:29-44 | clearing an unknown guild is a ValueError; otherwise the key is gone, everything else stays, and clearing again is allowed and changes nothing |
| ChannelPermissions.PostPermissionRule | cogs/admin.py:10-30 | the bot may post exactly when the channel is not blacklisted and the whitelist is missing, empty or holds the channel; the blacklist is checked first, so a channel on both lists is refused |
| ChannelPermissions.PostPermissionRaises | cogs/admin.py:12-30 | the check raises TypeError exactly when `black` holds a single id, or when the blacklist lets the channel through and `white` holds a non-zero single id |
| ChannelPermissions.SetBlacklistRaises | cogs/admin.py:12-18 | after `set_channel` under `black`, every permission check of that guild raises |
| ChannelPermissions.UnknownGuildAllows | cogs/admin.py:12-30 | a guild the store does not know (`get_guild` gives `{}`) allows every channel |
| ChannelPermissions.BlacklistRefuses | cogs/markov.py:15-35 | a channel blacklisted through `add_channel` is refused afterwards, whatever the whitelist says |
| ServerToggle.ServerIdOfMeaning | helpers/server_toggle.py:16-21 | `get_serverid` returns the id of the first SERVERS entry whose name equals the input exactly, and None exactly when no entry has that name |
| ServerToggle.GetServerId | server_toggle.py:14-19 | the search loop over `SERVERS.items()` computes the first-match specification |
| ServerToggle.OptionsStore.constructor | helpers/server_toggle.py:50-56 | no options file exists yet, so every user reads as `{}` |
| ServerToggle.OptionsStore.ToggleServer | helpers/server_toggle.py:64-77 | `toggle_server` saves the user's options with the server id toggled, a missing file counting as `{}`; only that user's file changes |
| ServerToggle.OptionsStore.ToggleMarkov | helpers/server_toggle.py:80-90 | `toggle_markov` flips `markov`, saves it and returns the new value; a missing `markov` is a KeyError that changes nothing |
| ServerToggle.ToggleFacts | helpers/server_toggle.py:69-77 | the result is True exactly when the id was absent; a missing `servers` becomes a list; afterwards the id is present iff it was added or was there twice; other option keys are untouched |
| ServerToggle.ToggleThenBolded | helpers/server_toggle.py:24-77 | after `toggle_server`, `get_user_servers` gives a list, in which `list_servers` bolds the toggled server exactly when it was added or was listed twice, and every other server exactly as before |
| ServerToggle.ToggleTwiceFromAbsent | server_toggle.py:65-74 | toggling an absent server twice restores the options exactly |
| ServerToggle.ToggleTwiceSameSet | helpers/server_toggle.py:71-75 | from a list holding the id at most once, toggling twice restores the same multiset of servers |
| ServerToggle.ToggleMarkovTwice | helpers/server_toggle.py:84-90 | `toggle_markov` reports the flipped value, and a second toggle puts the flag back |
| ServerToggle.ListServers | helpers/server_toggle.py:37-47 | the listing is the header, then one line per server whose model file exists for the user, in SERVERS order, bolded when the user's non-empty list holds its id, then the help line |
| ServerToggle.ServerTextIsLines | helpers/server_toggle.py:40-45 | the accumulated server text is the server lines, each followed by a newline |
| ServerToggle.ListingLines | server_toggle.py:36-45 | read line by line (names without newlines), the listing is exactly the header, the server lines and the help line |
| ServerToggle.EveryServerListed | server_toggle.py:39-43 | the copy without the model-file check lists every server of SERVERS |
| OrderedDict.Get | helpers/markov_helpers.py:116-121 | `d[k]` gives the value stored with the key's entry, and is missing exactly when the key is not among the keys |
| OrderedDict.Put | helpers/setup_helpers.py:18 | `d[k] = v` keeps the key order, appending a new key at the end |
| OrderedDict.PutGet | helpers/setup_helpers.py:18 | after `d[k] = v`, `d[k]` is `v` and every other key reads as before |
| OrderedDict.PutUnique | helpers/setup_helpers.py:18 | assignment never duplicates a key |
| OrderedDict.RemoveFirstAppended | helpers/channel_permissions.py:89 | `list.remove` of a value just appended to a list without it gives back the list |
| OrderedDict.RemoveFirstMultiset | helpers/channel_permissions.py:89 | `list.remove` takes away exactly one occurrence |
| IdNameTable.ParseLine | helpers/setup_helpers.py:17 | `id, name = line.split(';')` unpacks exactly when the line has one `;`, into the two sides of it |
| IdNameTable.ReadTable | helpers/setup_helpers.py:12-19 | `read_servers_file` (and the NAMES and SERVERS loaders) builds the dict line by line, stopping at the first line that does not unpack |
| IdNameTable.BadLineSticks | helpers/setup_helpers.py:16-18 | the first line that fails to unpack is the error, whatever follows |
| IdNameTable.ParsedKeysUnique | helpers/server_toggle.py:10-13 | a read table never holds an id twice |
| IdNameTable.LastLineWins | helpers/server_toggle.py:10-13 | the name read for an id is the one on the last line carrying that id |
| IdNameTable.WriteTable | helpers/setup_helpers.py:22-28 | `write_servers_file` emits one `guildid;name\n` line per entry, in dict order |
| IdNameTable.RoundTrip | helpers/setup_helpers.py:12-28 | reading back what was written gives the same table, order included, when no id or name holds `;` or a newline |
| IdNameTable.SplitSerialize | helpers/setup_helpers.py:22-25 | the written text splits into the entry lines followed by one empty piece |
| IdNameTable.EntryLineParses | helpers/setup_helpers.py:17-25 | a written line unpacks back into its id and name |
| ServerSetup.RegisterServer | helpers/setup_helpers.py:84-92 | a known guild keeps its SERVERS name and the table is unchanged; a new guild is appended under its name with every `;` replaced by `:` |
| ServerSetup.ReplaceCharGone | helpers/setup_helpers.py:90 | `replace(';', ':')` leaves no `;` and introduces no other character |
| ServerSetup.RegisterRoundTrip | helpers/setup_helpers.py:85-94 | after registering a guild whose name has no newline, the SERVERS file written out reads back as the same table |
| ServerSetup.ServerFilename | helpers/setup_helpers.py:96 | the file name holds only alphanumeric characters, each exactly as many times as in the server name |
| ServerSetup.ServerFilenameAppend | helpers/setup_helpers.py:96 | the file name of two joined texts is the two file names joined, so the kept characters keep their order |
| ServerSetup.ServerFilenameChar | helpers/setup_helpers.py:96 | a single character is kept exactly when it is alphanumeric |
| ServerSetup.ServerFilenameAlnum | helpers/setup_helpers.py:96 | an alphanumeric name is its own file name, so deriving it twice changes nothing |
| ServerSetup.LastMessageTimecode | helpers/setup_helpers.py:42-51 | None exactly when the channel has no data; otherwise the greatest `t // 1000` of its messages, never below 946684800 and attained by a message unless it is that floor |
| ServerSetup.ServerJson.constructor | helpers/setup_helpers.py:31-39 | `init_server_json`: empty users, userindex, channels and data, and the single SERVER entry |
| ServerSetup.ServerJson.InternAuthor | helpers/setup_helpers.py:130-138 | a new author id is appended to `userindex` once and named in `users`; a known one changes nothing; the index returned is the id's position; `userindex` stays duplicate-free |
| ServerSetup.ServerJson.StoreMessage | helpers/setup_helpers.py:129-143 | the author is interned and the message is stored under its id with its author's index; every stored index stays inside `userindex` |
| ServerSetup.ServerJson.StoreHistory | helpers/setup_helpers.py:129-143 | the loop over the history leaves `data`, `userindex` and `users` as the message-by-message fold of interning the author and storing the message, and `servers` unchanged |
| ServerSetup.ServerJson.ScrapeChannel | helpers/setup_helpers.py:115-143 | the channel's metadata is added when new, a channel without data starts from `{}`, then the history is folded in as StoreHistory says; `servers` is unchanged |
| ServerSetup.StoreFromFrame | helpers/setup_helpers.py:129-143 | storing a history keeps the set of channels, leaves every other channel's messages as they were, only extends `userindex`, and puts every author of the history in it |
| ServerSetup.StoreFromKeeps | helpers/setup_helpers.py:139-143 | a message id that no message of the history has keeps its stored message |
| ServerSetup.StoreFirstStored | helpers/setup_helpers.py:129-143 | the first message of a history is stored under its id, with its author's final position, when no later message reuses that id |
| ServerSetup.StoreFromStores | helpers/setup_helpers.py:129-143 | the last message of the history with a given id is what ends up stored under that id, with its time, its content and its author's position in `userindex` |
| ServerSetup.StorePreservesIndices | helpers/setup_helpers.py:143 | storing a channel whose author indices are in range keeps every stored index in range |
| CorpusParser.Renamed | helpers/parser.py:53-54 | each user keeps its id and its name with every `;` replaced by `:`, so no name holds a `;` |
| CorpusParser.NewNamesAreEntries | helpers/parser.py:52-55 | the new names are exactly the `userid;name` lines, each reading back as its user, followed by the empty text after the last newline |
| CorpusParser.MergeNames | helpers/parser.py:59-61 | the append loop computes the merge specification |
| CorpusParser.MergeFacts | helpers/parser.py:59-61 | the merge keeps the old lines in order as a prefix, holds exactly the old and the new lines, and adds no line twice |
| CorpusParser.MergeIdempotent | helpers/parser.py:59-61 | merging the same names a second time changes nothing |
| CorpusParser.MergeAllPresent | helpers/parser.py:59-61 | names already present add nothing |
| CorpusParser.UpdateNames | helpers/parser.py:51-64 | the NAMES file is rewritten as its old lines with the new lines merged in, joined by newlines |
| CorpusParser.CorpusAppend | helpers/parser.py:91-106 | a user's corpus of two runs of messages is the corpus of the first followed by that of the second |
| CorpusParser.SkippedMessage | helpers/parser.py:100-114 | a message missing `m` or `u` leaves every corpus as if it were not there |
| CorpusParser.AppendText | helpers/parser.py:11-17 | each non-empty buffered corpus is appended to its user's file; empty ones create no file |
| CorpusParser.BufferKeepsAccounts | helpers/parser.py:104-107 | buffering a message's line in its author's corpus accounts for that message |
| CorpusParser.SkipKeepsAccounts | helpers/parser.py:112-114 | a message missing a field is accounted for by doing nothing |
| CorpusParser.FlushKeepsAccounts | helpers/parser.py:108-111 | flushing the buffer into the files and emptying it changes no user's total text |
| CorpusParser.BufferMessage | helpers/parser.py:100-114 | one message of the inner loop keeps files plus buffer equal to every user's corpus so far, and the counter stays below the batch size or is untouched |
| CorpusParser.ParseChannel | helpers/parser.py:97-115 | the inner loop over one channel's messages leaves files plus buffer accounting for every message read so far and this channel's, and creates no file for an unknown user |
| CorpusParser.ParseServer | helpers/parser.py:67-119 | NameError exactly when the server id does not resolve, before any file is written; otherwise the NAMES file is rewritten as `update_names` does, and, batching notwithstanding, each user's file ends as exactly their messages, each followed by `\n`, in channel-then-message order |
| CorpusParser.ChannelPrefix | helpers/parser.py:91-97 | the messages of the channels read so far, then the next channel's, are a prefix of all messages |
| CorpusParser.Speakers | helpers/parser.py:29-31 | one speaker per message, the author id its index points to |
| CorpusParser.SimTextLines | helpers/parser.py:31-33 | each id is followed by a space; once the text exceeds 1000 characters every later id is also followed by `\n` |
| CorpusParser.SimTextGrows | helpers/parser.py:28-33 | the text only grows: what was written for the first ids is a prefix of the whole |
| CorpusParser.GenSimText | helpers/parser.py:21-33 | the loop over every channel's messages builds the speaker-sequence text |
| Simulator.PickedIsFirstEligible | helpers/simulation.py:50-60 | without a refill, the chosen speaker is the first id of the queue that parses, is a guild member and has a model; every id before it was popped and skipped, and the queue keeps exactly what follows it |
| Simulator.PickedIsEligible | helpers/simulation.py:50-60 | a speaker chosen after any number of skips and refills is a parseable id of a member with a model; a raise after popping a member without a model keeps that member as the poster |
| Simulator.RaiseAfterMemberKeepsIt | helpers/simulation.py:48-99 | when a member without a model is skipped and the next id fails to parse, the cycle fails still holding that member, so the source posts `**nick**: None` as them |
| Simulator.EmptyQueueRefilled | helpers/simulation.py:51-53 | an empty queue is replaced by the space-separated words of the next speaker-order sentence before the pop |
| Simulator.Sim.SelectSpeaker | cogs/markov.py:239-249 | the speaker search moves the queue and the refill count exactly as the search specification does and touches no other field |
| Simulator.TopicTriesFacts | helpers/simulation.py:62-68 | a trimmed output comes from the first truthy topic-seeded attempt, without its first word; the fallback comes only after all three topic attempts were falsy and is exactly one attempt without a topic |
| Simulator.FirstWordDropped | helpers/simulation.py:62-66 | one instance of TopicTriesFacts: the first word of a truthy attempt is dropped (`split(' ', 1)[1]`), so `hello there world` becomes `there world` |
| Simulator.GenerateOnce | helpers/simulation.py:62-68 | the `for ... else` loop over the three topic attempts yields the result and generator count of the attempt specification |
| Simulator.GenLoop | helpers/simulation.py:49-71 | an output the generation loop accepts is never empty |
| Simulator.Sim.Generate | cogs/markov.py:238-260 | the generation rounds advance the generator count exactly as the loop specification does and leave queue, topic and counters alone |
| Simulator.InsertAt | helpers/simulation.py:75 | `list.insert` puts the id at the index, or at the end when the index is past it, keeps every other id in order, and adds exactly that id to the queue's multiset |
| Simulator.InsertNamesFacts | helpers/simulation.py:73-75 | the queue gains exactly one copy of each NAMES id whose name occurs in the output, keeps every id it had, and one random draw is used per inserted id |
| Simulator.Sim.QueueMentioned | cogs/markov.py:262-264 | the NAMES pass changes only the queue and the draw count, as the insertion specification says |
| Simulator.MentionPassFindsNothing | helpers/simulation.py:77-79 | the mention pass splits `out[0]`, a single character, so it never finds a `<@` tag and queues nothing |
| Simulator.LastWord | helpers/simulation.py:82 | the new topic is a non-empty word without whitespace, and there is none exactly when the output is all whitespace |
| Simulator.TopicIsLastWord | helpers/simulation.py:82-83 | the topic after `... w` is `w`: the `re.sub` result is discarded, so the word keeps its punctuation |
| Simulator.CycleFacts | cogs/markov.py:229-296 | a cycle that ends counts one message whether or not it posted, and clears the topic exactly when the count reaches a multiple of 20; a stalled cycle changes neither; a speaker is always eligible; a failure names a poster only when a member without a model was popped before the raise; after an output the queue is what was left after the pop plus the mentioned ids, and the topic is the output's last word unless cleared |
| Simulator.Sim.constructor | helpers/simulation.py:25-31 | a new simulator has an empty queue, the given topic, a zero message count and no calls made to the world yet |
| Simulator.Sim.Step | cogs/markov.py:229-296 | one pass of the `update_simulator` loop moves the whole state exactly as one cycle of the specification does |
| SimulatorRun.AnyContained | run_simulator.py:38-41 | true exactly when some alias of the bot occurs in the message |
| SimulatorRun.FoundExactly | run_simulator.py:35-41 | `find_names` appends a bot's id exactly when one of its aliases occurs in the message, and appends no id twice |
| SimulatorRun.NamesInMsg.constructor | run_simulator.py:32 | NAMES_IN_MSG starts empty |
| SimulatorRun.NamesInMsg.FindNames | run_simulator.py:35-41 | NAMES_IN_MSG keeps what it had and gains the found ids in BOTS order, stopping at each bot's first matching alias |
| SimulatorRun.FillFromMeaning | run_simulator.py:79-83 | the refill sentence is the first truthy one the speaker-order model gives; every call before it gave nothing or an empty sentence |
| SimulatorRun.Runner.FillQueue | run_simulator.py:79-83 | the queue becomes the space-separated words of the refill sentence, the call count advances past it, and nothing else changes |
| SimulatorRun.NoTopicOneSentence | run_simulator.py:126-139 | without a topic the three passes do nothing and the message is exactly one unconstrained sentence |
| SimulatorRun.RunTriesCalls | run_simulator.py:126-139 | with a topic each pass makes one start call and at most one unconstrained call (the KeyError fallback), the `else` one more; no message at all only comes from the last unconstrained call |
| SimulatorRun.Runner.Generate | run_simulator.py:126-139 | the generation block yields the message and call counts of the attempt specification and changes no other field |
| SimulatorRun.SplitLast | run_simulator.py:142 | the last part of `split(' ')` is the text after the last space, all of the text when there is none, and holds no space |
| SimulatorRun.LastToken | run_simulator.py:142 | the new topic is a suffix of the message without a space, preceded by a space whenever the message has one |
| SimulatorRun.OrderIsTags | helpers/utility.py:6-7 | every tag in an iteration order of the tag set starts with `<@` |
| SimulatorRun.RunCyclePops | run_simulator.py:110-112 | each pass pops exactly the front of the queue; an empty queue is first refilled with the words of the first truthy speaker-order sentence |
| SimulatorRun.SkipCallsNothing | run_simulator.py:116-124 | a skipped id (ignored, not a member, no model file) calls no generator and keeps the topic |
| SimulatorRun.PostFacts | run_simulator.py:113-142 | a poster is a non-empty, non-ignored id of a member with a model, and the topic after a post is a token without spaces |
| SimulatorRun.EmptyIdRaises | run_simulator.py:112-115 | popping an empty id raises ValueError and only removes it from the queue |
| SimulatorRun.Runner.constructor | run_simulator.py:50-52 | a simulator that is not set up starts with no topic and an empty queue |
| SimulatorRun.Runner.Step | run_simulator.py:107-144 | one pass of `do_sim` moves the queue, topic and call counts exactly as the pass specification does |
| SimulatorRun.EmbedAlwaysFails | run_simulator.py:62-68 | as written, every `--embed` value the argument parser hands over (a one-element list) makes the constructor raise TypeError |
| SimulatorRun.EmbedRate | run_simulator.py:62-68 | as intended, a rate outside [0, 1] exits, a rate in (0, 1] is kept, and no rate or a zero rate keeps the debug or normal default, so every kept rate lies in [0, 1] |
| Relationship.OrdSumAppend | cogs/other.py:12-15 | the ord-sum of two names run together is the sum of their ord-sums |
| Relationship.RelationshipOfConcat | cogs/other.py:10-17 | the relationship of two names depends only on the names run together, in either order, so swapping them changes nothing |
| Relationship.CalcRelationship | cogs/other.py:10-17 | the nested `ord` loops give the ord-sum of both names plus 32, modulo 101, always a percentage from 0 to 100 |
| Relationship.SparedIffEvenOdd | cogs/other.py:33-36 | a name is spared exactly when an even number of its characters have an odd code point |
| Relationship.Snap | cogs/other.py:27-39 | the judged name is the arguments joined by spaces, else the author's nick, else the author's name; the reply is that name title-cased and the verdict of its ord-sum's parity |
| Relationship.SpacesDeleted | cogs/other.py:45-49 | `replace(' ', '')` leaves no space and removes exactly as many characters as there were spaces |
| Relationship.ShipPair | cogs/other.py:44-51 | one argument is shipped with the author's name, two with each other, and any other count does nothing; both shipped names are lower-cased with no space left |
| Relationship.Repeat | cogs/other.py:60-63 | repeating a cell n times gives n times its length |
| Relationship.RepeatCount | cogs/other.py:60-63 | a character occurs n times as often in n repetitions |
| Relationship.CountAppend | cogs/other.py:60-64 | counting a character over a concatenation adds the counts |
| Relationship.BarCells | cogs/other.py:59-63 | the bar has one full cell per complete ten percent (none below 10, ten at 100) and empty cells for the rest of the ten |
| Relationship.DrawBar | cogs/other.py:59-63 | the two loops draw exactly that bar |
| Relationship.FirstAtLeast | cogs/other.py:81-84 | the position found is of the first threshold that reaches the score; every threshold before it is lower |
| Relationship.DescriptionsCover | cogs/other.py:66-86 | for a score from 0 to 100 a threshold is always found, so the `else` is never needed, and it is the tightest threshold that reaches the score |
| Relationship.SixtyNine | cogs/other.py:73-75 | 69 gets its own description, between "Not Bad" at 68 and "Pretty Good" at 70 |
| Relationship.FirstIsUnique | cogs/other.py:81-84 | a position whose threshold reaches the score with every earlier one lower is the one found |
| Relationship.Describe | cogs/other.py:81-86 | the loop with `break` and `else` picks the first description whose threshold reaches the score, else the last one |
| Relationship.Ship | cogs/other.py:42-88 | no message exactly for a wrong argument count; otherwise the header, both normalised names, the percentage, the bar and the description of that pair |
| Relationship.NotBeforeTransitive | cogs/other.py:100-103 | the ranking order by score, then by guild position, is transitive |
| Relationship.Insert | cogs/other.py:100-103 | inserting into a ranking adds exactly that member |
| Relationship.InsertRanked | cogs/other.py:100-103 | inserting into a ranking keeps it ranked |
| Relationship.Rank | cogs/other.py:100-103 | the sorted list is a permutation of the scores |
| Relationship.RankRanked | cogs/other.py:100-103 | the sorted list is ranked by score, highest first or lowest first with `bottom`, and equal scores keep guild order as the stable `sorted` does |
| Relationship.Scores | cogs/other.py:96-99 | each member's entry holds its relationship with the normalised word, its guild position and its name |
| Relationship.TopListed | cogs/other.py:100-105 | in a ranking every listed member scores at least as high as every later one (at most as high with `bottom`), and equal scores keep guild order |
| Relationship.ScoreAll | cogs/other.py:96-99 | the loop appends exactly the scores of the members, in guild order |
| Relationship.ListTop | cogs/other.py:104-105 | the first ten entries are listed in order; fewer than ten is the IndexError |
| Relationship.ShipAll | cogs/other.py:91-106 | the header and the first ten members of the ranking of the whole guild by relationship with the normalised word; fewer than ten members gives no message |
| Deathmatch.AttackOfFields | deathmatch.py:11-16 | a line yields an attack exactly when it has a `;`; its text and power are the first two `;`-free fields, which begin the line, and any other line is skipped |
| Deathmatch.CountPositive | deathmatch.py:12-14 | a character occurs a positive number of times exactly when it is in the line |
| Deathmatch.ReadAttacks | deathmatch.py:8-16 | ATTACKS is the pair of every line that has one, in file order |
| Deathmatch.ProbabilitiesRange | deathmatch.py:18-29 | ATTACK_PROBABILITIES has 122 entries, every power from 0 to 11, and only the last one, the single 11, is above 10 |
| Deathmatch.Damage | deathmatch.py:32-42 | power 0 does no damage, a power above 10 does 100, and a power from 1 to 10 with an in-range roll does between 2 and 4 times the power |
| Deathmatch.DamageAtMostKill | deathmatch.py:32-42 | a drawn power never does more than 100 damage, and does none exactly when it is 0 |
| Deathmatch.PickAttack | deathmatch.py:68-71 | the inner search never goes back in its draws of ATTACKS |
| Deathmatch.PickedHasPower | deathmatch.py:67-72 | the chosen attack is one whose power field reads as the drawn power |
| Deathmatch.ChooseAttack | deathmatch.py:68-72 | the search loop returns the attack and draw count of the search specification |
| Deathmatch.TurnFacts | deathmatch.py:74-108 | a turn appends one board, passes the move, lowers no health, and hits only the fighter whose turn it is not |
| Deathmatch.FirstHitOnFighter1 | deathmatch.py:47-87 | since `is_fighter1turn` starts false, the first turn hits fighter1 and leaves fighter2 at 100 |
| Deathmatch.MissReported | deathmatch.py:100-102 | a real attack that does no damage loses its last character to ", but it misses!" and reports 0 damage |
| Deathmatch.WinEnds | deathmatch.py:111-128 | a turn that kills ends the match with a trophy board that extends that turn's board, naming the winner |
| Deathmatch.EndsExtend | deathmatch.py:65-128 | the facts about the rest of a match carry back over one more turn both fighters survive |
| Deathmatch.DuelFacts | deathmatch.py:65-129 | health stays within 0..100; a finished match has the opening board, one board per turn and a trophy board extending the last; fighter2's death is checked first, so fighter1 wins whenever fighter2 is at 0, and fighter2 wins only with fighter1 at 0; an unfinished match has both fighters alive |
| Deathmatch.DoDeathmatch | deathmatch.py:45-129 | the loop returns the boards and the outcome of the match specification, from the opening board at 100/100 |
| Mentions.Tags | helpers/utility.py:6 | the tags are exactly the space-separated tokens of the message that start with `<@` |
| Mentions.TagId | helpers/utility.py:8 | a tag's id fails to parse exactly when the tag has no digit at all |
| Mentions.DigitsOnlyEmpty | helpers/utility.py:8 | stripping the non-digits leaves nothing exactly when there is no digit |
| Mentions.Elements | helpers/utility.py:7 | the tags iterated are exactly those of the order |
| Mentions.RemoveMentions | helpers/utility.py:4-15 | the loop over the tags rewrites the message as the tag-by-tag specification does, stopping at the first ValueError |
| Mentions.NoTagsUnchanged | helpers/utility.py:4-15 | a message with no `<@` token comes back unchanged, in any iteration order |
| Mentions.FailsIffDigitless | helpers/utility.py:7-8 | the rewrite raises exactly when some tag has no digit |
| Mentions.UnknownGuardRedundant | helpers/utility.py:13-14 | the `elif user_tag in msg` test only skips a replacement that would change nothing, so an unresolved tag is always, in effect, replaced by `@UNKNOWN_USER` |
| Mentions.SingleTagOrder | helpers/utility.py:7 | a message with one tag is iterated as that tag alone |
| Mentions.KnownMention | helpers/utility.py:4-15 | in any message whose only tag is a member's, `remove_mentions` replaces every occurrence of it by `@` and the member's display name |
| Mentions.UnknownMention | helpers/utility.py:4-15 | in any message whose only tag has a digit but names no member, `remove_mentions` replaces every occurrence of it by `@UNKNOWN_USER` |
| Mentions.TagCanSurvive | helpers/utility.py:10-12 | one left-to-right `str.replace` can leave the tag in the result: in `<@12> <<@12>2>` the inner replacement completes a new `<@12>` |
| Mentions.MentionOf42 | helpers/utility.py:8 | one instance of TagId: the id of `<@42>` is 42 |
| Text.Split | helpers/markov_helpers.py:178 | `str.split(sep)` always returns at least one piece |
| Text.JoinSplit | helpers/markov_helpers.py:30 | splitting a line on `;` and joining the pieces with `;` gives the line back |
| Text.SplitPieces | helpers/markov_helpers.py:30 | the pieces of `str.split(sep)` never hold the separator, and there is one more piece than separators |
| Text.SplitJoin | helpers/markov_helpers.py:165-171 | splitting a `+`-join of `+`-free names gives the names back |
| Text.SplitNoSep | helpers/markov_helpers.py:212 | text without the separator splits into itself alone |
| Text.SplitPrefix | helpers/parser.py:55 | a separator-free piece followed by the separator splits off as the first piece |
| Text.LinesRoundTrip | helpers/parser.py:55-64 | newline-terminated lines split on `\n` give back the lines followed by one empty piece |
| Text.Lower | helpers/markov_helpers.py:212 | `str.lower` keeps the length |
| Text.TitleAfter | cogs/other.py:37 | `str.title` keeps the length |
| Text.IndexOf | helpers/simulation.py:65 | the position found holds the first occurrence of the character |
| Text.AfterFirstSpace | helpers/simulation.py:65 | `split(' ', 1)[1]` is the text after the first space and raises IndexError exactly when there is no space |
| Text.Words | helpers/simulation.py:82 | `str.split()` of text that starts with a non-space has a first word that starts with that character |
| Text.WordsAreWords | helpers/simulation.py:82 | every word of `str.split()` is non-empty and free of whitespace |
| Text.WordsEmpty | helpers/simulation.py:82 | `str.split()` is empty exactly when the text is all whitespace |
| Text.ReplaceCanLeavePattern | helpers/utility.py:12-14 | replacing a pattern by text free of it can still leave the pattern: `"abb".replace("ab", "a")` is `ab` |
| Text.ReplaceAbsent | helpers/utility.py:13-14 | replacing a pattern that does not occur changes nothing |
| Text.NatToString | deathmatch.py:102 | `str(n)` of a non-negative integer is a non-empty run of digits |
| Text.ParseNatToString | helpers/markov_helpers.py:229 | `int(str(n))` is n |
| Text.NatToStringInjective | helpers/markov_helpers.py:169 | distinct counts render as distinct strings |
| Text.DigitsOnly | helpers/utility.py:8 | `re.sub('\D', '', s)` leaves only digits, never more characters than there were |
| OrderedDict.FirstIndex | helpers/setup_helpers.py:138 | `list.index` finds the first occurrence of the element |
| OrderedDict.RemoveFirst | helpers/channel_permissions.py:89 | `list.remove` takes away exactly one element |
| Simulator.WordsOfWord | helpers/simulation.py:82 | a single word splits into itself |
| Simulator.WordsAppend | helpers/simulation.py:82 | a word after a space becomes the last word of `str.split()` |

## Left out

- Chat-platform I/O is not modelled: sending messages, webhooks, nickname edits, avatars, history paging and `wait_until_ready`. Only their inputs (member lookup, display names) appear, as parameters.
- markovify is not modelled. Model building, `make_sentence`, `make_sentence_with_start` and model (de)serialisation are an oracle from a call number to an optional sentence. `generate_model` is a per-user "has a model" predicate.
- `get_wait_time` and the `asyncio.sleep` after each post are left out. The model follows cogs/markov.py:299, whose `get_wait_time()` (cogs/helpers/markov_helpers.py:130) takes no arguments and samples a numpy normal distribution in floating point.
- `SimThread.run` calls `mk.get_wait_time()` with no arguments at helpers/simulation.py:110, but `mk` is helpers/markov_helpers.py, whose `get_wait_time(avg, stddev)` takes two. So that copy raises TypeError after its first cycle and never reaches its 20-message topic reset; the model does not capture this raise. `run` is also an `async def` on a `threading.Thread` subclass, and no shipped file creates a SimThread.
- Random draws (`random.choice`, `random.randint`, `random.random`, `random.sample`) are inputs indexed by how many were drawn before. `random.sample(NAMES.keys(), 5)` for `all` is modelled as five consecutive keys, wrapping around, from a drawn offset, so the model does not capture sampling without replacement from arbitrary positions.
- Files are in-memory maps and strings. Reads and writes of the JSON stores, the options files, the names file and the corpora are left out as I/O; file existence is a predicate.
- multibot.py is left out (concurrency between bot event loops). So are bot.py, gen_models.py, the cog `setup` functions, both converter.py files, the parser.py script, consts.py, the sentiment-analysis client, MarkovThread and the link extraction of `get_message_json`: they are dispatch, I/O, threads or network code.
- `int()` is modelled on non-empty ASCII digit strings only. A sign, surrounding whitespace or underscores, which Python accepts, count as ValueError here. This affects the speaker ids in both simulators and the power field of an attack.
- `splitlines()` is modelled as a split on `\n` only, and `lower()`/`title()`/`isalnum()`/`split()` on ASCII only.
- helpers/utility.py as shipped defines only `remove_mentions`. helpers/parser.py:8 and helpers/converter.py:6 import `get_serverid` from it, and run_simulator.py:15 imports `get_sim_model` and `get_link` from it. The server id is a parameter of `CorpusParser.ParseServer`; the speaker-order model is the `RunWorld` oracle, and the link search is left out with posting.
- The iteration order of a Python `set` (the tag set in `remove_mentions`) is a parameter: any order that lists each tag once.
- The cogs/markov.py MAX_MESSAGE_LENGTH comes from config, which is not part of this model. It is taken as the consts.py value 1800; MAX_NUM_NAMES is a parameter.
- `Markov.__init__` starts the topic as `""` and `SimThread` takes a topic argument. Both are the constructor's `initialTopic`.
- `find_names` is never called by `do_sim`, so NAMES_IN_MSG is modelled on its own.
- The `setup_server` skips of the simulator channel and of channels the bot cannot read are not modelled, because channel access is I/O.
- CorpusParser.ParseServer: the `update_names(server_json)` call at helpers/parser.py:79 is modelled by calling `CorpusParser.UpdateNames`, and its rewritten NAMES text is part of the result. The emptying of the user files that `init_message_files` does at helpers/parser.py:77 is modelled too. Creating the directories and reading the server JSON are I/O and are left out.
- In run_simulator.py, posting, the embed link search and the `continue` on a failed webhook follow the message text and are left out. The message the pass would post is the result.
- Simulator.Sim.Step: the message is posted by the caller. The result says what is posted: the speaker and text, `**nick**: None` as the member held by `Failed(Some(..))`, or nothing for `Failed(None)`, where the post itself raises. A post that fails for reasons of the chat platform is not modelled.
- Nickname.SomeOmitted: states the corrected count of omitted names; the recount as written differs when no name fits or a kept name holds a `+` (see Findings).
- Nickname.GenerateNick: returns the nickname with the corrected omitted count, not the recount the code as written makes; the two differ only in the cases listed under Findings.
- MarkovOutput.GenerateMarkov: its nickname is the corrected one of Nickname.GenerateNick (see Findings).
- MarkovOutput.GenerateMarkovSingle: its nickname is the corrected one of Nickname.GenerateNick (see Findings).
- ServerToggle.OptionsStore.Open: `open_user_options` is a one-line lookup that has no contract of its own; its missing-file case is stated in the ensures of ToggleServer and ToggleMarkov.
- Simulator.Sim.SelectSpeaker: terminates after `fuel` pops. The source loops until an eligible id appears.
- Simulator.Sim.Generate: terminates after `fuel` rounds. The source loops until an output is truthy.
- SimulatorRun.Runner.FillQueue: terminates after `fuel` calls. The source retries until the speaker-order model gives a non-empty sentence.
- Deathmatch.DoDeathmatch: stops after `fuel` turns and `fuel` draws per attack search. The source loops until a fighter drops below 1, or forever when no attack has the drawn power.
- Relationship.Rank: Python's stable `sorted` is modelled as an insertion sort ordered by score and then by member position. That is the same order, but not the same algorithm.
- `avg` and `stddev` in `MarkovSimulator.__init__` only feed `get_wait_time` and are left out with it.

## Findings

| source | as written | input that shows it | evidently intended | confidence | as-written member | corrected member |
|---|---|---|---|---|---|---|
| helpers/markov_helpers.py:165-168 | the kept names are recounted as `len(nickname[:-1].split('+'))`, which is 1 when no name fit, because `''.split('+')` is `['']` | two ids whose names are each 30 or more characters long: nothing fits, and the nickname is `1` instead of `2` (one such id gives the empty nickname instead of `1`) | the suffix is the number of names left out | not executed | Nickname.NoNameFitsUndercounts | Nickname.SomeOmitted |
| helpers/markov_helpers.py:165-168 | the same recount splits on `+`, so a kept name that holds a `+` counts as two | the names `a+b` and a 30-character name: the nickname is `a+b` instead of `a+b+1` | the suffix is the number of names left out | not executed | Nickname.PlusInNameMiscounts | Nickname.SomeOmitted |
| run_simulator.py:62-68 | `--embed` is declared with `nargs=1`, so `args.embed` is a one-element list, and `args.embed > 1` compares a list with an int, which raises TypeError | `--embed 0.5` | the single value is checked against [0, 1] and kept | not executed | SimulatorRun.EmbedAlwaysFails | SimulatorRun.EmbedRate |
