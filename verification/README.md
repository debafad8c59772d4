# Ultros helpbot core, modelled in Dafny

This project models four pieces of the bot's sequential logic as pure
functions over immutable state, and proves what each promises.

- **IRC session tracking** (`system/protocols/irc/protocol.py`). The
  session state has four parts:
  - the rank catalog (mode flag, prefix symbol and precedence);
  - the channel registry, keyed by the case-folded channel name;
  - the user registry;
  - the reciprocal user/channel membership edges.

  Every server callback that changes these is one transition: JOIN, PART,
  KICK, QUIT, NICK, MODE, WHO reply, RPL_ISUPPORT, and our own
  join/part/kick. The user registry is a map from ids issued in increasing
  order, so the Python list's order becomes id order, and "the first match"
  is the least matching id. The invariant `IrcSession.Valid` has four
  parts:
  - every user id was issued;
  - a user's channels list that user, and a channel's users list that channel;
  - a user stays registered exactly while it shares a channel with the
    session.
- **Factoids** (`plugins/factoids/__init__.py`). The SQLite table is a map
  from (key, location) to (name, info). The model covers:
  - argument parsing and location validation;
  - the append, overwrite and delete interactions;
  - the channel > protocol > global lookup precedence;
  - the permission-checked API functions;
  - the `??` message dispatcher.
- **Storage ownership registry** (`system/storage/manager.py`). There are
  two independent maps, for data files and for config files, from the
  sanitised path to the owning object. The model covers `..` sanitisation,
  the ownership checks, and a release that reports whether anything was
  removed.
- **Auth commands** (`plugins/auth/__init__.py`). The model covers:
  - the `pre_command` log-redaction transform;
  - the order of checks in `login`, `register` and `passwd`, recorded as the
    sequence of calls made on the auth handler;
  - the config-gated handler accessors and `deactivate`.

Several outside pieces are parameters rather than code:
- The case-mapping fold, the hostmask splitter and the hostmask matcher of
  `utils.irc` are the fields of `IrcSession.Env`. They are not part of this
  model.
- twisted's parsed `supported` features are a `Supported` value.
- The permission handler and the auth handler are oracles: `Factoids.Perms`
  and `Auth.Oracle`.

Python's `str.lower`, `find`, `split(sep)`, `split()`, `strip` and `join`
are defined once, in module `Text`.

Files:
- `base.dfy`: Option and Result.
- `text.dfy`: the string helpers.
- `irc_ranks.dfy`, `irc_session.dfy`, `irc_tracking.dfy`, `irc_modes.dfy`,
  `irc_who.dfy`, `irc_handlers.dfy`: the IRC engine.
- `factoids.dfy`, `storage.dfy`, `auth.dfy`: one file each for the other
  three parts.

## Model

| member | source | states |
|---|---|---|
| IrcRanks.DefaultRanks | system/protocols/irc/protocol.py:59-63 | The starting catalog is exactly `o`/`@` with precedence 0 and `v`/`+` with precedence 1, indexed both by flag and by symbol. |
| IrcRanks.FromPrefix | system/protocols/irc/protocol.py:423-427 | A PREFIX catalog holds exactly the advertised flags and exactly the advertised symbols; nothing of an earlier catalog remains. |
| IrcRanks.PrefixRoundTrip | system/protocols/irc/protocol.py:423-427 | For distinct advertised entries, looking a rank up by its flag, or by its symbol, gives back exactly the advertised entry. |
| IrcRanks.OvRanks | system/protocols/irc/protocol.py:423-427 | In the `(ov)@+` catalog, `@` and `o` name the same rank, and so do `+` and `v`. |
| IrcSession.SetChannel | system/protocols/irc/protocol.py:561-570 | After `set_channel`, `get_channel` under any case-variant of the name finds the channel. Names of other keys find what they found before, and users are untouched. |
| IrcSession.DelChannel | system/protocols/irc/protocol.py:561-574 | `del_channel` succeeds exactly when the name is registered. Afterwards that name (in any case) finds nothing, and every other name finds what it found before. |
| IrcSession.ScanFrom | system/protocols/irc/protocol.py:548-558 | The registry scan returns, in increasing order, exactly the users from a given id on that satisfy every given criterion. |
| IrcSession.GetUsers | system/protocols/irc/protocol.py:535-559 | `get_users` returns exactly the tracked users meeting every given criterion, in registry order. Omitted and empty criteria match everyone. |
| IrcSession.GetUser | system/protocols/irc/protocol.py:529-533 | `get_user` returns a matching user that precedes every other match. It returns None exactly when nobody matches. |
| IrcSession.FirstMatch | system/protocols/irc/protocol.py:529-533 | A matching user that precedes every other match is what `get_user` returns. |
| IrcSession.LookupFrame | system/protocols/irc/protocol.py:548-558 | A lookup depends only on each user's nick, ident and host and on the case-mapping rule. |
| IrcSession.ScanAgrees | system/protocols/irc/protocol.py:548-558 | Two criteria that accept the same users give the same scan. |
| IrcSession.IdentIgnoresCase | system/protocols/irc/protocol.py:545-552 | Idents that differ only in ASCII case find the same users. |
| IrcSession.HostIgnoresCase | system/protocols/irc/protocol.py:547-554 | Hosts that differ only in ASCII case find the same users. |
| IrcSession.NoCriteriaFindsAll | system/protocols/irc/protocol.py:548-559 | With no criterion given, every tracked user is found. |
| IrcSession.ResolveUserString | system/protocols/irc/protocol.py:522-527 | A user string resolves to a tracked user with that nick, ident and host. When no such user exists, it resolves to a fresh untracked user that is not registered. It fails exactly when the splitter rejects the string. |
| IrcTracking.Link | system/protocols/irc/protocol.py:587-588 | Adding a membership changes exactly the user's channel set and the channel's user set. |
| IrcTracking.LinkKeepsLinks | system/protocols/irc/protocol.py:587-588 | Adding a membership on both sides keeps the edges reciprocal. |
| IrcTracking.Unlink | system/protocols/irc/protocol.py:633-634 | Removing a membership changes exactly the user's channel set and the channel's user set. |
| IrcTracking.UnlinkKeepsLinks | system/protocols/irc/protocol.py:633-634 | Removing a membership on both sides keeps the edges reciprocal. |
| IrcTracking.Register | system/protocols/irc/protocol.py:583-585 | A new tracked user is appended under the next id, with no channels yet. |
| IrcTracking.RegisteredIsFound | system/protocols/irc/protocol.py:581-589 | A freshly registered and linked user keeps the invariant and is the one its own names find. |
| IrcTracking.ReusedIsFound | system/protocols/irc/protocol.py:581-589 | Linking an already tracked user keeps the invariant, and that user is still the first one its names find. |
| IrcTracking.UserJoinChannel | system/protocols/irc/protocol.py:581-589 | The invariant is kept and the user and channel are linked both ways. If a user already matches, it is reused (no new registry entry); otherwise exactly one new tracked user is added. Either way, later lookups by the same names find this user. |
| IrcTracking.JoinFrame | system/protocols/irc/protocol.py:581-589 | A join changes only the joined channel and the joining user; no channel is created or removed. |
| IrcTracking.UserChannelPart | system/protocols/irc/protocol.py:627-645 | Both sides of the edge are removed. The user leaves the registry exactly when its channel set becomes empty; otherwise it stays, minus that channel. Every other user and channel is unchanged. |
| IrcTracking.PartKeepsValid | system/protocols/irc/protocol.py:627-645 | Parting keeps the tracking invariant. |
| IrcTracking.SelfPartStep | system/protocols/irc/protocol.py:576-578 | One member parted by `self_part_channel` moves it from "still listed" to "done". |
| IrcTracking.SelfPartChannel | system/protocols/irc/protocol.py:576-579 | Our own part removes the channel and parts every member. Exactly the users whose only channel it was are evicted; the rest lose that channel only. |
| IrcTracking.SelfPartDone | system/protocols/irc/protocol.py:576-579 | Once the channel has no members left, deleting it keeps the invariant. |
| IrcTracking.QuitStep | system/protocols/irc/protocol.py:346-348 | Parting the quitting user from one channel of the snapshot advances the loop's progress. |
| IrcTracking.PartEverywhere | system/protocols/irc/protocol.py:346-348 | Parting a user from every channel in a snapshot of its set evicts exactly that user and drops it from every channel. |
| IrcModes.AddRankIn | system/protocols/irc/protocol.py:268-271 | Granting a rank adds it in that channel only. |
| IrcModes.RemoveRankIn | system/protocols/irc/protocol.py:268-273 | Withdrawing a rank removes it in that channel only. |
| IrcModes.AddThenRemoveRank | system/protocols/irc/protocol.py:268-273 | Granting and then withdrawing a rank the user did not hold restores its ranks in the channel. |
| IrcModes.MembershipKeepsValid | system/protocols/irc/protocol.py:261-284 | A change that leaves membership alone keeps the invariant. |
| IrcModes.ApplyMode | system/protocols/irc/protocol.py:261-284 | One mode token never changes membership. A rank token changes no channel; any other token changes no user. |
| IrcModes.RankTokenEffect | system/protocols/irc/protocol.py:264-277 | A rank flag naming a tracked nick adds the rank on `+` and removes it on `-`, for that user in that channel only. A rank flag naming an unknown nick changes nothing. |
| IrcModes.ChannelTokenEffect | system/protocols/irc/protocol.py:278-284 | Any other flag sets the channel mode to its parameter on `+` and removes it on `-`. Other channels are untouched. |
| IrcModes.ApplyModes | system/protocols/irc/protocol.py:261-284 | A batch of tokens never changes membership. |
| IrcModes.ModesCompose | system/protocols/irc/protocol.py:261-284 | Tokens apply strictly in order: applying a batch in two parts is applying it whole. |
| IrcModes.UnknownNickSkipped | system/protocols/irc/protocol.py:266-277 | A rank token naming an unknown nick is skipped, and the rest of the batch still applies. |
| IrcModes.ModeChanged | system/protocols/irc/protocol.py:238-286 | A mode change never changes membership. One aimed at our own nick (a user mode) or at an unknown channel changes nothing. One aimed at a joined channel is exactly the batch `ApplyModes` applied to that channel, token by token in order. |
| IrcModes.SkipThenGrant | system/protocols/irc/protocol.py:261-284 | In `+ov unknown known`, the unknown nick is skipped and the known user still gets voice. |
| IrcWho.ApplyStatus | system/protocols/irc/protocol.py:607-624 | In a status field, `*` sets the operator flag and each rank symbol adds its rank in the channel. `H`, `G` and unknown characters change nothing; other channels and other details are untouched. |
| IrcWho.RealnameOf | system/protocols/irc/protocol.py:625-625 | The real name is the last space-separated piece of gecos: a suffix of it, holding no space, with a space or nothing before it. |
| IrcWho.WhoTarget | system/protocols/irc/protocol.py:600-606 | The WHO row's lookup, join-if-unknown and add-missing-edge steps together do exactly what a JOIN by the same user does. |
| IrcWho.LinkIdempotent | system/protocols/irc/protocol.py:604-606 | Linking an edge that already exists changes nothing. |
| IrcWho.ChannelWhoResponse | system/protocols/irc/protocol.py:595-625 | A WHO row keeps the invariant and leaves the user linked both ways, with the same membership a JOIN would give. The user's record is its earlier record with the status applied and the real name set. Nothing else changes. |
| IrcWho.StatusIgnoresChannels | system/protocols/irc/protocol.py:607-624 | The status loop neither reads nor changes the user's channels. |
| IrcWho.JoinKeepsDetails | system/protocols/irc/protocol.py:581-589 | Joining keeps the operator flag and the ranks the user had. A user that was not tracked before has neither. |
| IrcWho.Merge | system/protocols/irc/protocol.py:607-625 | Recording status and real name keeps membership, the invariant and lookups. Only that user's record changes. |
| IrcHandlers.Init | system/protocols/irc/protocol.py:59-63 | A new session tracks nobody, has joined nothing, carries the default rank catalog, and satisfies the invariant. |
| IrcHandlers.Joined | system/protocols/irc/protocol.py:156-160 | Our own join registers a fresh, empty channel under the name. Other names and all users are untouched. |
| IrcHandlers.JoinedKeepsValid | system/protocols/irc/protocol.py:156-160 | Registering a channel not joined before keeps the invariant. |
| IrcHandlers.Left | system/protocols/irc/protocol.py:168-174 | Our own part (or kick) of a known channel removes it and parts its members, evicting exactly those with no other channel. An unknown channel raises and changes nothing. |
| IrcHandlers.Keys | system/protocols/irc/protocol.py:318-320 | Each named channel is resolved to its registry key, in order. |
| IrcHandlers.JoinGrows | system/protocols/irc/protocol.py:309-320 | A join removes no membership. |
| IrcHandlers.KeptStep | system/protocols/irc/protocol.py:318-320 | One more channel of a multi-channel JOIN keeps the invariant and removes nothing. |
| IrcHandlers.FoundStep | system/protocols/irc/protocol.py:318-320 | Every channel of a multi-channel JOIN links the same user that the earlier ones linked. |
| IrcHandlers.JoinAll | system/protocols/irc/protocol.py:318-320 | Joining a user to a list of channels keeps the invariant and removes no membership. Afterwards one user, found by its names, is in every listed channel; a user tracked before is that same user. |
| IrcHandlers.IrcJoin | system/protocols/irc/protocol.py:309-320 | A JOIN with no parameters raises. A JOIN by someone else links that user to every named channel. A JOIN by our own nick changes only what twisted's own handling does, and an unsplittable prefix raises after that handling. |
| IrcHandlers.PartedAsWritten | system/protocols/irc/protocol.py:322-330 | As written, a PART names the first user with that nick, or, when there is none, the first tracked user of all. |
| IrcHandlers.UserLeftAsWritten | system/protocols/irc/protocol.py:322-330 | `userLeft` exactly as written: the invariant is kept, and the user `PartedAsWritten` picks is parted from the channel. |
| IrcHandlers.UserKickedAsWritten | system/protocols/irc/protocol.py:332-338 | `userKicked` exactly as written: the state is unchanged and the callback raises, because the channel reaches `user_channel_part` as its name. |
| IrcHandlers.KickKeepsKickee | system/protocols/irc/protocol.py:332-338 | For a KICK of a tracked member, as written the kickee stays listed in the channel and the callback raises; as intended the kickee is parted without a fault. |
| IrcHandlers.UserLeft | system/protocols/irc/protocol.py:322-340 | The intended PART and KICK: a tracked nick is parted from the channel, and evicted on its last channel. An unknown nick or channel changes nothing. |
| IrcHandlers.PartByStrangerEvictsFirstUser | system/protocols/irc/protocol.py:322-330 | In a concrete session, a PART by an untracked nick evicts the only tracked user as written, but changes nothing as intended. |
| IrcHandlers.IrcQuit | system/protocols/irc/protocol.py:342-350 | A QUIT parts the named user from every channel and evicts it; nothing else changes. No parameter, an unsplittable name or an unknown user raises with the state unchanged. |
| IrcHandlers.QuitCriteria | system/protocols/irc/protocol.py:535-541 | An empty full name is no criterion at all. |
| IrcHandlers.IrcNick | system/protocols/irc/protocol.py:362-374 | The first user with the old nick takes the new nick. Every other user, every channel and the invariant are unchanged. A missing parameter or an unknown old nick raises with the state unchanged. |
| IrcHandlers.RenameKeepsValid | system/protocols/irc/protocol.py:362-371 | A rename keeps the invariant. |
| IrcHandlers.RenamedIsFound | system/protocols/irc/protocol.py:362-371 | After a rename to a nick no one else holds, that nick finds the renamed user. |
| IrcHandlers.NickRenames | system/protocols/irc/protocol.py:362-371 | A NICK whose prefix is a nick held by a user renames that user. |
| IrcHandlers.NickRoundTrip | system/protocols/irc/protocol.py:362-371 | NICK a→b followed by NICK b→a restores the session, when nobody else holds b. |
| IrcHandlers.RenameBack | system/protocols/irc/protocol.py:362-371 | Renaming a user away and back to its nick is no change. |
| IrcHandlers.WhoReply | system/protocols/irc/protocol.py:376-404 | A row of eight fields merges into the channel it names, with the membership a JOIN would give and the status and real name applied. A shorter row raises before any change. |
| IrcHandlers.ApplyFeature | system/protocols/irc/protocol.py:415-428 | CASEMAPPING changes only the case-mapping rule, PREFIX replaces only the catalog, and any other feature changes nothing. A feature twisted holds no value for raises: CASEMAPPING with the rule unchanged, PREFIX with the catalog already emptied. |
| IrcHandlers.ApplyFeatures | system/protocols/irc/protocol.py:415-428 | Over a list of feature names, the loop raises exactly when some name is a dropped feature. Without a raise, the rule or catalog changes exactly when CASEMAPPING or PREFIX is among the names, to the advertised value. |
| IrcHandlers.StopsAtDropped | system/protocols/irc/protocol.py:415-428 | The loop stops at the first dropped feature: the features before it apply, that feature has its partial effect, and the later ones are never looked at. |
| IrcHandlers.FeatureNames | system/protocols/irc/protocol.py:415-418 | Each feature token is cut at `=` with leading and trailing `-` stripped, position by position. |
| IrcHandlers.Isupport | system/protocols/irc/protocol.py:413-429 | RPL_ISUPPORT raises exactly when it names CASEMAPPING or PREFIX and twisted holds no value for it, as after `-CASEMAPPING` or `-PREFIX`. Otherwise it sets the case-mapping rule if CASEMAPPING is named and replaces the catalog if PREFIX is. Users, channels and rank edges are never changed. |
| IrcHandlers.NegatedPrefixEmpties | system/protocols/irc/protocol.py:413-429 | The line `-PREFIX CASEMAPPING=ascii` leaves the catalog empty, never reaches the case-mapping rule, and raises. |
| IrcHandlers.IsupportKeepsValid | system/protocols/irc/protocol.py:413-429 | Capability negotiation keeps the invariant. |
| IrcHandlers.PrefixReplacesCatalog | system/protocols/irc/protocol.py:423-427 | After a PREFIX feature, the catalog's flags are exactly the advertised ones, so no default survives that is not re-advertised. Each rank is found by its flag and by its symbol. |
| IrcHandlers.OvPrefixRoundTrip | system/protocols/irc/protocol.py:423-427 | After `PREFIX=(ov)@+`, `@` and `o`, and `+` and `v`, name the same ranks. |
| Factoids.ParseArgs | plugins/factoids/__init__.py:112-128 | A successful parse yields the text before the first space, the text between the first two spaces, and a non-empty remainder, which put back together with single spaces give the input. |
| Factoids.ParseArgsComplete | plugins/factoids/__init__.py:112-128 | Conversely, `location factoid info` with space-free first words and non-empty info parses back into exactly those parts, so parsing fails only on text of no such shape. |
| Factoids.ValidLocation | plugins/factoids/__init__.py:130-144 | InvalidLocation is raised exactly when the lower-cased location is not channel, protocol or global. InvalidMethod is raised exactly for `channel` from a source that is not a channel. |
| Factoids.ValidLocationIgnoresCase | plugins/factoids/__init__.py:130-135 | Validation does not depend on the location's case. |
| Factoids.AddRow | plugins/factoids/__init__.py:150-179 | A new row is inserted and the result is False. An existing row keeps its name, gains the info as one more line, and the result is True. Other rows are untouched. |
| Factoids.SetRow | plugins/factoids/__init__.py:254-262 | The unique key replaces any row with the new name and info; other rows are untouched. |
| Factoids.SetOverwrites | plugins/factoids/__init__.py:53-59 | A second set of the same key wins over the first. |
| Factoids.DeleteRow | plugins/factoids/__init__.py:181-190 | Deletion succeeds exactly when the row exists and removes only it. Otherwise it reports MissingFactoid. |
| Factoids.AddThenDelete | plugins/factoids/__init__.py:150-190 | Adding a fresh row and deleting it gives the table back. |
| Factoids.Choose | plugins/factoids/__init__.py:200-213 | The chosen location holds a row for the key and has the smallest precedence (channel, protocol, global) among those that do. None means no row exists. |
| Factoids.GetRow | plugins/factoids/__init__.py:192-218 | A lookup returns the chosen row's name and its info split at newlines. With no row, it reports MissingFactoid. |
| Factoids.GetAtLocation | plugins/factoids/__init__.py:201-213 | With a location given, exactly that location's row is returned, or MissingFactoid. |
| Factoids.ChannelShadowsOthers | plugins/factoids/__init__.py:209-213 | Without a location, a channel row wins. |
| Factoids.ProtocolShadowsGlobal | plugins/factoids/__init__.py:209-213 | Without a location and with no channel row, a protocol row wins over a global one. |
| Factoids.Admit | plugins/factoids/__init__.py:94-110 | An operation is admitted exactly when the location is valid and the caller (or, failing that, the default group) holds the permission. An invalid location reports its validation error; a refusal reports NoPermission. |
| Factoids.AddFactoid | plugins/factoids/__init__.py:220-238 | Key and location are lower-cased and the name kept as typed. An invalid location or a denied permission fails with the table unchanged; otherwise the row is added. |
| Factoids.SetFactoid | plugins/factoids/__init__.py:240-262 | Like add, but the row is overwritten. |
| Factoids.DeleteFactoid | plugins/factoids/__init__.py:264-280 | Like add, but the row is deleted. A missing row is an error and changes nothing. |
| Factoids.GetFactoid | plugins/factoids/__init__.py:282-299 | A lookup never changes the table. With no location, only the `factoids.get.None` permission is checked and the precedence lookup applies. With a location, that location is validated and looked up. |
| Factoids.ApiKeepsWellKeyed | plugins/factoids/__init__.py:220-280 | Every writing operation leaves every key lower-cased and every location valid. |
| Factoids.AddThenGet | plugins/factoids/__init__.py:150-218 | After a successful add, a lookup at that location (in any case) shows the earlier lines plus the new info under the original name. A fresh row shows the name as typed. |
| Factoids.SetThenGet | plugins/factoids/__init__.py:240-299 | After a successful set, a lookup at that location shows exactly the set name and info lines. |
| Factoids.DeleteThenGet | plugins/factoids/__init__.py:264-299 | After a successful delete, a lookup at that location reports MissingFactoid. |
| Factoids.SplitMessage | plugins/factoids/__init__.py:403-416 | The command is the space-free text before the first space. A message without a space has no factoid and no arguments. |
| Factoids.SplitMessageOf | plugins/factoids/__init__.py:403-416 | `command factoid rest` is cut back into its parts, with the rest stripped. |
| Factoids.Dispatch | plugins/factoids/__init__.py:391-493 | A message is handled exactly when its first word is `??`, `??+`, `??~` or `??-`. Every request other than usage has a factoid, and add or set requests carry the non-empty arguments as info. |
| Factoids.DispatchAsWritten | plugins/factoids/__init__.py:476-493 | As written, `??-` always asks for a deletion, even of the empty factoid name; every other command dispatches as intended. |
| Factoids.BareDeleteAsWritten | plugins/factoids/__init__.py:476-481 | A bare `??-` asks for deleting factoid "" as written, but gets the usage text as intended. |
| Factoids.ShowLines | plugins/factoids/__init__.py:322-324 | A found factoid is shown as one `(name) line` reply per line, in order. |
| Factoids.Perform | plugins/factoids/__init__.py:420-493 | Get and usage requests leave the table alone. Add, set and delete requests act at the channel location, with the message target as the source. |
| Factoids.HandleMessage | plugins/factoids/__init__.py:391-418 | A message whose first word is not a factoid command changes nothing and gets no reply. |
| Factoids.AddByMessage | plugins/factoids/__init__.py:438-455 | `??+ name info` in a channel, when allowed, appends the info to the channel row of that name. |
| Factoids.AddMessageParsed | plugins/factoids/__init__.py:403-447 | `??+ name info` is dispatched as an add request of that name and info. |
| Factoids.AddInChannel | plugins/factoids/__init__.py:220-238 | An allowed add from a channel at the channel location is the table-level append. |
| Factoids.PrivateAddRefused | plugins/factoids/__init__.py:140-143 | The channel location cannot be written from a private message. |
| Storage.Sanitise | system/storage/manager.py:28-29 | Sanitisation never lengthens a path. |
| Storage.SanitiseIsReplace | system/storage/manager.py:28-29 | Sanitisation is Python's `replace("..", ".")`: split at every non-overlapping `..` from the left and join with `.`. |
| Storage.SanitiseShortens | system/storage/manager.py:28-29 | The path shortens exactly when it contains `..`, so the guard in front of the replace changes nothing. |
| Storage.CleanIsSanitise | system/storage/manager.py:68-69 | The guarded replace equals the unguarded one. |
| Storage.ThreeDotsKeepTwo | system/storage/manager.py:68-69 | One pass turns `...` into `..`, so a sanitised path may still contain `..`. |
| Storage.KindOf | system/storage/manager.py:31-65 | Only `data` and `config` name a storage type. |
| Storage.GetFile | system/storage/manager.py:27-65 | The call fails exactly when another owner holds the sanitised path, and then with OtherOwnership. Otherwise the caller owns the entry under that path: its own entry is handed back unchanged, ignoring the format, or a new one is registered with the format. No other path and no other storage type changes. An unknown type raises UnknownStorageType. |
| Storage.ReleaseFile | system/storage/manager.py:67-93 | The call fails exactly when another owner holds the sanitised path, and then with OtherOwnership. Otherwise the path is no longer registered, and the result is True exactly when it was registered before. No other path and no other storage type changes. An unknown type raises UnknownStorageType. |
| Storage.OwnershipStable | system/storage/manager.py:32-35 | No operation changes the owner of an entry that survives it. |
| Storage.GetTwice | system/storage/manager.py:32-45 | Asking again for a file one holds registers nothing and returns the same entry. |
| Storage.GetThenRelease | system/storage/manager.py:27-93 | Registering a fresh path and releasing it restores the registry, and the release reports True. |
| Storage.KindsIndependent | system/storage/manager.py:31-93 | Operations on one storage type never change the other type's registry. |
| Storage.AliasesCollide | system/storage/manager.py:27-35 | Paths that sanitise alike are one entry: after `a..b` is registered to one owner, another owner's `a.b` is refused. |
| Auth.RedactedIsWord | plugins/auth/__init__.py:134-135 | The redaction marker is a single non-empty word. |
| Auth.Markers | plugins/auth/__init__.py:143-145 | The passwd redaction produces one marker per word. |
| Auth.PreCommand | plugins/auth/__init__.py:125-151 | Commands other than login, register and passwd (in any case) leave the printable text unchanged. So do login and register with fewer than two arguments. |
| Auth.CommandLine | plugins/auth/__init__.py:133-138 | A printable line `<command> rest` splits into an empty head and the rest, and joins back around a replaced rest. |
| Auth.LoginRedacted | plugins/auth/__init__.py:131-139 | For login or register with two arguments, `<command> w0 w1 ...` becomes `<command> w0 [REDACTED] ...`, with the other words kept. |
| Auth.PasswdRedacted | plugins/auth/__init__.py:140-151 | For passwd, `<command> w0 ... wn` becomes the command followed by one marker per word, and the word count is kept. |
| Auth.PasswdBranch | plugins/auth/__init__.py:140-151 | The passwd branch replaces the text after the first `<command> ` with as many markers as it has words. |
| Auth.MarkersAreWords | plugins/auth/__init__.py:143-148 | Markers joined by spaces read back as the same number of words. |
| Auth.BarePasswdFails | plugins/auth/__init__.py:140-142 | A passwd line with nothing after the command makes the hook fail (an index out of range). |
| Auth.LoginCommand | plugins/auth/__init__.py:153-179 | Fewer than two arguments give usage only. Otherwise authorization is asked first; an authorized caller is never logged in again, and an unauthorized one is logged in with the first two words. |
| Auth.LoginAttemptedIff | plugins/auth/__init__.py:159-170 | A login is attempted exactly when there are two arguments and the caller is not authorized, and it logs in the caller over the protocol. |
| Auth.RegisterWith | plugins/auth/__init__.py:193-234 | The follow-up login after registration uses the roles it is given. The command raises only when the plugin has no permissions handler, and without one no login and no permissions account are ever recorded. |
| Auth.Register | plugins/auth/__init__.py:193-234 | Fewer than two arguments give usage only. In a channel, the only call is the password blacklisting. An account is created exactly from a private message, for a new username and a password not blacklisted. The command raises exactly when an account was created while the plugin has no permissions handler. With a handler, a created account also gets a permissions account. The follow-up login is the caller's. |
| Auth.RegisterAsWritten | plugins/auth/__init__.py:226-230 | As written, the follow-up login logs in the source, with the caller in the protocol's place. Without a permissions handler, no login is made at all. |
| Auth.RegisterLoginMisdirected | plugins/auth/__init__.py:226-230 | After a successful registration, the written code logs in the source over the caller, while the intended call logs in the caller over the protocol. |
| Auth.RegisterWithoutPermissions | plugins/auth/__init__.py:69-82 | With `use-permissions` off, `setup` leaves no permissions handler. A successful registration then creates the account, replies, and raises without logging the user in. |
| Auth.Passwd | plugins/auth/__init__.py:236-267 | Fewer than two arguments give usage only. `change_password` is called exactly when the caller is authorized and the new password is not blacklisted, and then with the account name, the old password and the new one. |
| Auth.PasswdAnswersOnce | plugins/auth/__init__.py:236-267 | A passwd command gives exactly one reply after at most three handler calls. |
| Auth.GetAuthHandler | plugins/auth/__init__.py:269-278 | A handler is returned only when `use-auth` is set, and then it is the plugin's own. What this gives after set-up is stated by `AccessorsAfterSetup`. |
| Auth.GetPermissionsHandler | plugins/auth/__init__.py:280-288 | A handler is returned only when `use-permissions` is set, and then it is the plugin's own. What this gives after set-up is stated by `AccessorsAfterSetup`. |
| Auth.Setup | plugins/auth/__init__.py:69-100 | `setup` leaves a permissions handler exactly when `use-permissions` is on and its file loaded, and an auth handler exactly when `use-auth` is on and both account files loaded. Each is of this plugin's class. |
| Auth.AccessorsAfterSetup | plugins/auth/__init__.py:69-100 | After `setup`, each accessor hands out a handler exactly when its setting is on and its files loaded, and always one of the matching class. |
| Auth.DeactivateUndoesSetup | plugins/auth/__init__.py:69-100 | Whatever handlers the accessors hand out after `setup`, when installed in the command manager, `deactivate` clears them both. |
| Auth.Deactivate | plugins/auth/__init__.py:290-305 | A handler slot is cleared exactly when its setting is on and it holds a handler of this plugin's class; otherwise it is kept. |
| Auth.DeactivateIdempotent | plugins/auth/__init__.py:290-305 | Deactivating twice is deactivating once. |

## Left out

- Network I/O and timers: the twisted reactor, connection set-up, `signedOn`
  scheduling, `send_who`, message sending, logging and events.
- MOTD printing and the debug code in `privmsg`.
- The informational `irc_unknown` branches.
- `utils.irc` is not part of this model. The case-mapping fold, the hostmask
  splitter and the hostmask matcher are parameters (`IrcSession.Env`). A nick
  comparison is equality of folds.
- The `User`, `Channel` and `Ranks` classes are not part of this model. They
  are plain records, sets and maps here, and a user's channels are held as
  channel registry keys.
- twisted's own parsing of RPL_ISUPPORT values is not part of this model. The
  parsed CASEMAPPING value and PREFIX entries are an input (`Supported`); a
  feature twisted does not hold, as after a negated `-NAME` token, is None.
- A CASEMAPPING change does not re-key the channels already registered, just
  as in the source.
- IrcHandlers.IrcJoin: twisted's `irc_JOIN` is modelled as registering the
  last channel when the prefix's nick is exactly ours. The precondition
  `SplitsAtBang` assumes the hostmask splitter cuts the nick at the first
  `!` as twisted does.
- IrcHandlers.IrcJoin: a JOIN by someone else for a channel the session is not
  in is excluded by a precondition. The source would crash half-way, and the
  server does not send such lines.
- IrcHandlers.Joined: `Valid` is proved only for a channel not joined
  before. Rejoining a registered channel replaces it with an empty one, and
  the old members' edges are left dangling, as in the source.
- IrcHandlers.WhoReply: a row for a channel the session is not in is excluded
  by a precondition. The source crashes on it, because `get_channel` returns
  None rather than raising the KeyError its handler catches.
- IrcHandlers.UserKickedAsWritten: how `User.remove_channel` treats a
  channel name is not part of this model. It is taken to remove nothing, as
  no Channel in a user's set equals a string, so the callback raises with
  the state unchanged.
- IrcTracking.SelfPartChannel: the source iterates over the channel's user
  set while parting from it. The model parts every member of a snapshot,
  which is what the loop evidently intends.
- SelfPartChannel: `del_channel` receives the Channel object (protocol.py:579)
  and folds it with `lowercase_nick_chan`, which is not part of this model.
  The model removes the channel by its registry key, as if the fold accepted
  the object and gave that key. If it does not, the source raises after
  parting the members and the channel stays registered.
- Left: our own part or kick hands `self_part_channel` the Channel object, so
  it inherits the deletion by key stated for SelfPartChannel above.
- ApplyMode: rank edges are recorded under the channel's registry key. The
  source hands `add_rank_in_channel` the raw MODE target string
  (protocol.py:272,274), and `User` is not part of this model. So the model
  also treats `#Test` and `#test` as one edge, and lets a MODE `-o` remove an
  `@` learned from WHO.
- RankTokenEffect: states the rank change under the registry key, with the
  same unification as ApplyMode.
- ApplyStatus: a WHO status records ranks under the channel's registry key,
  where the source passes the Channel object (protocol.py:616). This is the
  same unification as ApplyMode, so both sources of ranks share one edge.
- Mode tokens whose target is a user (user modes) are ignored, as in the
  source. The sender of a MODE line is not used by any tracking step.
- Factoids: SQLite, Deferreds and SQL text are not modelled. The table is a
  map and errors are Result values.
- The permission handler is an oracle (`Factoids.Perms`), asked for the
  caller and then for the default group.
- The `factoid_*_command` handlers, `_print_query` and the database set-up
  in `setup` are not modelled.
- Reply destinations (which of caller, source or target is answered) are not
  modelled. Only the reply texts and the table are.
- Factoids.GetFactoid: with no location, the permission is named
  `factoids.get.None`, as the source's `%s` formatting of None gives.
- Storage: file objects are not modelled. Their creation, `load`, `get`,
  `release` and the Singleton metaclass are left out. An entry stands for
  the file, `is_owner` is equality of owner identities, and the format is
  recorded but otherwise unused.
- Auth: the auth and permissions handlers are an oracle (`Auth.Oracle`)
  answering each call. Their internals and the YAML config loading in
  `setup` are not part of this model. `Auth.Setup` takes whether each data
  file loaded as an input, and ignores the result of installing a handler
  in the command manager.
- Translations (`_`, `__`) are the identity. The redaction marker is the
  constant `[REDACTED]`, and replies are symbolic.
- `str.lower` is modelled on ASCII letters only.
- Text.IsSpace: `strip()` and `split()` (in `Words`, `SplitMessage` and
  `Strip(_, IsSpace)`) treat only space, tab, newline, vertical tab, form
  feed and carriage return as whitespace, which is what Python 2 byte
  strings do. For unicode text, Python also counts `\x1c` to `\x1f`,
  `\x85`, `\xa0` and other characters, and the model does not.
- `logout_command` is not modelled. It is one authorization check followed
  by a logout.
- Auth.PreCommand: its own contract covers only the unchanged cases. The
  redacting cases are proved, for a well-formed printable line, by
  `LoginRedacted` and `PasswdRedacted`. A printable line of another shape
  is the hook raising (None).

## Findings

| source | as written | input that shows it | evidently intended | confidence | as-written member | corrected member |
|---|---|---|---|---|---|---|
| system/protocols/irc/protocol.py:322-330 | `userLeft` looks the nick up with `get_user(nickname=user)`. When that finds nobody, `user_channel_part(None, chan)` looks up `get_user(nickname=None)`, which matches every user. | Alice is the only user, in #a; bob, never seen, parts #a. Alice is parted and evicted. | A PART by a nick nobody tracks changes nothing. | not executed | IrcHandlers.UserLeftAsWritten | IrcHandlers.UserLeft |
| system/protocols/irc/protocol.py:332-338 | `userKicked` passes the channel name to `user_channel_part`, which calls `channel.remove_user` on it. | Someone kicks alice, a tracked member of #a: the callback raises, and #a still lists alice. | Part the kicked user from the Channel, as for a PART. | not executed | IrcHandlers.UserKickedAsWritten | IrcHandlers.UserLeft |
| plugins/factoids/__init__.py:476-481 | The `??-` guard tests `factoid is None`, but the factoid starts as "" and is never None. | The message `??-` asks to delete the factoid "" instead of printing the usage. | `if not factoid:`, as the other three handlers test. | not executed | Factoids.DispatchAsWritten | Factoids.Dispatch |
| plugins/auth/__init__.py:226-230 | The follow-up `login_command(caller, source, [username, password], protocol, ...)` passes its arguments out of place against `(protocol, caller, source, command, ...)`. | A successful `register alice pw` from a private message asks whether the source is authorized and logs the source in over the caller. | Log the registering caller in over the protocol. | not executed | Auth.RegisterAsWritten | Auth.Register |
