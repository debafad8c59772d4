/** The protocol callbacks that keep the tracked session up to date, one
    transition per server message. A callback that raises in the original
    reports the fault together with the state it leaves behind. */
module IrcHandlers {
  import opened Base
  import opened Text
  import opened IrcRanks
  import opened IrcSession
  import opened IrcTracking
  import opened IrcModes
  import opened IrcWho

  /** The exceptions a callback can let escape. */
  datatype Fault =
    | MissingParameter   // an IndexError on the message's parameters
    | UnknownChannel     // a channel lookup gave None and it was used
    | UnknownUser        // a user lookup gave None and it was used
    | MalformedHostmask  // the hostmask splitter raised
    | MissingFeature     // a feature twisted does not hold was read as None
    | NotAChannel        // a channel name was used where a Channel is needed

  /** The state a callback leaves and the exception it raised, if any. */
  datatype Outcome = Outcome(st: State, raised: Option<Fault>)

  function Done(st: State): Outcome {
    Outcome(st, None)
  }

  function Fail(st: State, f: Fault): Outcome {
    Outcome(st, Some(f))
  }

  /** The session as constructed: nothing joined, nobody tracked, and the
      default rank catalog. */
  function Init(nick: string, caseMapping: string): (r: State)
    ensures Valid(r) && r.channels == map[] && r.users == map[]
    ensures r.ranks.modes == map['o' := Rank('o', '@', 0), 'v' := Rank('v', '+', 1)]
    ensures r.ranks.symbols == map['@' := Rank('o', '@', 0), '+' := Rank('v', '+', 1)]
  {
    State(nick, caseMapping, DefaultRanks(), map[], map[], 0)
  }

  /** `joined`: a fresh, empty channel is registered under the name, over
      whatever was registered there before. */
  function Joined(env: Env, st: State, channel: string): (r: State)
    ensures GetChannel(env, r, channel) == Some(NewChannel(channel))
    ensures forall b :: !SameNick(env, st, b, channel) ==> GetChannel(env, r, b) == GetChannel(env, st, b)
    ensures r.users == st.users && SameSession(st, r) && r.nextId == st.nextId
  {
    SetChannel(env, st, channel, NewChannel(channel))
  }

  /** Registering a channel not joined before keeps the invariant. */
  lemma JoinedKeepsValid(env: Env, st: State, channel: string)
    requires Valid(st) && GetChannel(env, st, channel).None?
    ensures Valid(Joined(env, st, channel))
  {
    var r := Joined(env, st, channel);
    forall id, k | id in r.users && k in r.users[id].channels
      ensures k in r.channels && id in r.channels[k].users
    {
      assert k in st.channels;
    }
  }

  /** `left` and `kickedFrom`: the session itself is out of the channel.
      An unknown channel raises before anything changes; otherwise every
      member is parted and the channel is dropped. */
  method Left(env: Env, st: State, channel: string) returns (r: Outcome)
    requires Valid(st)
    ensures Valid(r.st)
    ensures r.raised.Some? <==> GetChannel(env, st, channel).None?
    ensures r.raised.Some? ==> r == Fail(st, UnknownChannel)
    ensures r.raised.None? ==> r.st.channels == st.channels - {Key(env, st, channel)}
    ensures r.raised.None? ==> forall id :: id in r.st.users <==>
      id in st.users && st.users[id].channels != {Key(env, st, channel)}
  {
    var key := Key(env, st, channel);
    if key !in st.channels {
      return Fail(st, UnknownChannel);
    }
    var s := SelfPartChannel(st, key);
    return Done(s);
  }

  /** twisted's own `irc_JOIN` test: the prefix's nick, compared exactly
      with the session's nick. */
  predicate SelfJoin(st: State, prefix: string) {
    SplitOn(prefix, "!")[0] == st.nickname
  }

  /** The state after twisted's part of a JOIN: a JOIN of our own exact
      nick registers the last channel named. */
  function TwistedJoin(env: Env, st: State, prefix: string, params: seq<string>): State
    requires params != []
  {
    if SelfJoin(st, prefix) then Joined(env, st, Last(params)) else st
  }

  /** The hostmask splitter takes the nick to be the text before the first
      `!`, as twisted does. */
  predicate SplitsAtBang(env: Env, prefix: string) {
    env.split(prefix).Some? ==> env.split(prefix).value.nick == SplitOn(prefix, "!")[0]
  }

  /** What the server guarantees: a JOIN by someone else names channels
      the session is in (the original crashes half-way otherwise). */
  predicate OthersJoinKnown(env: Env, st: State, prefix: string, params: seq<string>) {
    params != [] && env.split(prefix).Some? &&
    !SameNick(env, st, env.split(prefix).value.nick, st.nickname) ==>
      forall i :: 0 <= i < |params| ==> Key(env, st, params[i]) in st.channels
  }

  /** Every membership `st` records is still recorded in `r`. */
  ghost predicate Grows(st: State, r: State) {
    forall j, k :: j in st.users && k in st.users[j].channels ==> j in r.users && k in r.users[j].channels
  }

  /** The registry keys of the named channels, in order. */
  function Keys(env: Env, st: State, names: seq<string>): (r: seq<string>)
    ensures |r| == |names| && forall i :: 0 <= i < |names| ==> r[i] == Key(env, st, names[i])
  {
    seq(|names|, i requires 0 <= i < |names| => Key(env, st, names[i]))
  }

  /** A join only adds memberships. */
  lemma JoinGrows(env: Env, st: State, nick: string, ident: string, host: string, key: string)
    requires Valid(st) && key in st.channels
    ensures Grows(st, UserJoinChannel(env, st, nick, ident, host, key).0)
  {
    JoinFrame(env, st, nick, ident, host, key);
  }

  lemma GrowsTrans(a: State, b: State, c: State)
    requires Grows(a, b) && Grows(b, c)
    ensures Grows(a, c)
  {
  }

  /** What the first `i` joins of `JoinAll` have done to the state as a
      whole: nothing was lost, and only memberships changed. */
  ghost predicate KeptSoFar(st: State, s: State, i: nat) {
    && Valid(st) && Valid(s) && SameSession(st, s) && s.channels.Keys == st.channels.Keys && Grows(st, s)
    && (i == 0 ==> s == st)
  }

  /** What the first `i` joins of `JoinAll` have done for the joining user:
      the user `id` they found is linked with each of the first `i`
      channels, and a user tracked from the start is still the one found. */
  ghost predicate FoundSoFar(env: Env, st: State, s: State, q: Criteria, keys: seq<string>, i: nat, id: UserId) {
    && i <= |keys| && IdsIssued(st) && IdsIssued(s)
    && (GetUser(env, st, q).Some? ==> GetUser(env, s, q) == GetUser(env, st, q))
    && (i > 0 ==> GetUser(env, s, q) == Some(id) && id in s.users)
    && (i > 0 ==> forall j :: 0 <= j < i ==> keys[j] in s.users[id].channels)
  }

  lemma KeptStep(env: Env, st: State, s: State, nick: string, ident: string, host: string, key: string, i: nat)
    requires KeptSoFar(st, s, i) && key in s.channels
    ensures KeptSoFar(st, UserJoinChannel(env, s, nick, ident, host, key).0, i + 1)
  {
    var s1 := UserJoinChannel(env, s, nick, ident, host, key).0;
    JoinGrows(env, s, nick, ident, host, key);
    GrowsTrans(st, s, s1);
  }

  lemma FoundStep(env: Env, st: State, s: State, nick: string, ident: string, host: string,
                  keys: seq<string>, i: nat, id: UserId)
    requires Valid(s) && i < |keys| && keys[i] in s.channels
    requires FoundSoFar(env, st, s, HostmaskQuery(nick, ident, host), keys, i, id)
    requires i == 0 ==> s == st
    ensures var (s1, id1) := UserJoinChannel(env, s, nick, ident, host, keys[i]);
      FoundSoFar(env, st, s1, HostmaskQuery(nick, ident, host), keys, i + 1, id1)
  {
    var (s1, id1) := UserJoinChannel(env, s, nick, ident, host, keys[i]);
    if i > 0 {
      assert id1 == id;
      assert s1.users[id].channels == s.users[id].channels + {keys[i]};
    }
  }

  /** `user_join_channel` for each channel key in turn. The same user is
      joined to all of them: the first join finds or registers it, every
      later join finds it again, and nothing already recorded is lost. */
  method JoinAll(env: Env, st: State, nick: string, ident: string, host: string, keys: seq<string>) returns (r: State)
    requires Valid(st)
    requires forall i :: 0 <= i < |keys| ==> keys[i] in st.channels
    ensures Valid(r) && SameSession(st, r) && r.channels.Keys == st.channels.Keys && Grows(st, r)
    ensures keys == [] ==> r == st
    ensures var found := GetUser(env, st, HostmaskQuery(nick, ident, host));
      found.Some? ==> GetUser(env, r, HostmaskQuery(nick, ident, host)) == found
    ensures keys != [] ==>
      var found := GetUser(env, r, HostmaskQuery(nick, ident, host));
      found.Some? && forall i :: 0 <= i < |keys| ==> keys[i] in r.users[found.value].channels
  {
    var s := st;
    var i := 0;
    ghost var id: UserId := 0;
    while i < |keys|
      invariant KeptSoFar(st, s, i)
      invariant FoundSoFar(env, st, s, HostmaskQuery(nick, ident, host), keys, i, id)
    {
      KeptStep(env, st, s, nick, ident, host, keys[i], i);
      FoundStep(env, st, s, nick, ident, host, keys, i, id);
      var (s1, id1) := UserJoinChannel(env, s, nick, ident, host, keys[i]);
      s, i, id := s1, i + 1, id1;
    }
    r := s;
  }

  /** `irc_JOIN`, after twisted's own handling: a JOIN by anyone whose nick
      is not the session's (under the case-mapping rule) joins that user
      to every named channel. */
  method IrcJoin(env: Env, st: State, prefix: string, params: seq<string>) returns (r: Outcome)
    requires Valid(st) && SplitsAtBang(env, prefix) && OthersJoinKnown(env, st, prefix, params)
    ensures params == [] ==> r == Fail(st, MissingParameter)
    ensures params != [] && env.split(prefix).None? ==>
      r == Fail(TwistedJoin(env, st, prefix, params), MalformedHostmask)
    ensures params != [] && !SelfJoin(st, prefix) ==> Valid(r.st)
    ensures params != [] && SelfJoin(st, prefix) && GetChannel(env, st, Last(params)).None? ==> Valid(r.st)
    ensures params != [] && env.split(prefix).Some? ==> r.raised.None?
    ensures params != [] && env.split(prefix).Some? &&
            SameNick(env, st, env.split(prefix).value.nick, st.nickname) ==>
      r.st == TwistedJoin(env, st, prefix, params)
    ensures params != [] && env.split(prefix).Some? &&
            !SameNick(env, st, env.split(prefix).value.nick, st.nickname) ==>
      var h := env.split(prefix).value;
      var found := GetUser(env, r.st, HostmaskQuery(h.nick, h.ident, h.host));
      found.Some? && forall i :: 0 <= i < |params| ==> Key(env, st, params[i]) in r.st.users[found.value].channels
  {
    if params == [] {
      return Fail(st, MissingParameter);
    }
    var st1 := TwistedJoin(env, st, prefix, params);
    if SelfJoin(st, prefix) && GetChannel(env, st, Last(params)).None? {
      JoinedKeepsValid(env, st, Last(params));
    }
    if env.split(prefix).None? {
      return Fail(st1, MalformedHostmask);
    }
    var h := env.split(prefix).value;
    if SameNick(env, st1, h.nick, st1.nickname) {
      return Done(st1);
    }
    var keys := Keys(env, st1, params);
    var s := JoinAll(env, st1, h.nick, h.ident, h.host, keys);
    return Done(s);
  }

  /** The user a PART or KICK names, as the original resolves it: the
      first tracked user with that nick, or, when there is none, whatever
      `get_user(nickname=None)` finds, which is the first tracked user of
      all. */
  function PartedAsWritten(env: Env, st: State, user: string): (r: Option<UserId>)
    requires IdsIssued(st)
    ensures GetUser(env, st, Criteria(Some(user), None, None, None)).Some? ==>
      r == GetUser(env, st, Criteria(Some(user), None, None, None))
    ensures GetUser(env, st, Criteria(Some(user), None, None, None)).None? ==> r == GetUser(env, st, AnyUser)
  {
    match GetUser(env, st, Criteria(Some(user), None, None, None))
    case Some(id) => Some(id)
    case None => GetUser(env, st, AnyUser)
  }

  /** `userLeft` exactly as written: a PART by a nick nobody tracks parts
      the first tracked user instead. */
  function UserLeftAsWritten(env: Env, st: State, user: string, channel: string): (r: Outcome)
    requires Valid(st)
    ensures Valid(r.st)
    ensures PartedAsWritten(env, st, user).None? ==> r == Fail(st, UnknownUser)
    ensures PartedAsWritten(env, st, user).Some? && GetChannel(env, st, channel).None? ==>
      r == Fail(st, UnknownChannel)
    ensures PartedAsWritten(env, st, user).Some? && GetChannel(env, st, channel).Some? ==>
      r == Done(UserChannelPart(st, PartedAsWritten(env, st, user).value, Key(env, st, channel)))
  {
    match PartedAsWritten(env, st, user)
    case None => Fail(st, UnknownUser)
    case Some(id) =>
      var key := Key(env, st, channel);
      if key in st.channels then
        PartKeepsValid(st, id, key);
        Done(UserChannelPart(st, id, key))
      else Fail(st, UnknownChannel)
  }

  /** `userLeft` (and `userKicked`, for the kicked nick) as evidently
      intended: the named user is parted from the channel, and is evicted
      exactly when that was the last channel it shared with the session.
      A nick nobody tracks changes nothing. */
  function UserLeft(env: Env, st: State, user: string, channel: string): (r: Outcome)
    requires Valid(st)
    ensures Valid(r.st)
    ensures var found := GetUser(env, st, Criteria(Some(user), None, None, None));
      && (found.None? ==> r == Fail(st, UnknownUser))
      && (found.Some? && GetChannel(env, st, channel).None? ==> r == Fail(st, UnknownChannel))
      && (found.Some? && GetChannel(env, st, channel).Some? ==>
            r == Done(UserChannelPart(st, found.value, Key(env, st, channel))))
  {
    match GetUser(env, st, Criteria(Some(user), None, None, None))
    case None => Fail(st, UnknownUser)
    case Some(id) =>
      var key := Key(env, st, channel);
      if key in st.channels then
        PartKeepsValid(st, id, key);
        Done(UserChannelPart(st, id, key))
      else Fail(st, UnknownChannel)
  }

  /** `userKicked` exactly as written: the channel reaches
      `user_channel_part` as its name, which has no `remove_user`, so the
      callback raises and no membership changes. The user it resolves is
      the one `PartedAsWritten` gives, and None raises first. */
  function UserKickedAsWritten(env: Env, st: State, kickee: string, channel: string): (r: Outcome)
    requires Valid(st)
    ensures r.st == st && r.raised.Some?
    ensures PartedAsWritten(env, st, kickee).None? ==> r.raised == Some(UnknownUser)
    ensures PartedAsWritten(env, st, kickee).Some? ==> r.raised == Some(NotAChannel)
  {
    match PartedAsWritten(env, st, kickee)
    case None => Fail(st, UnknownUser)
    case Some(_) => Fail(st, NotAChannel)
  }

  /** The discrepancy for any KICK of a tracked member: as written the
      kickee stays listed in the channel and the callback raises; as
      intended (`UserLeft`) the kickee is parted without a fault. */
  lemma KickKeepsKickee(env: Env, st: State, kickee: string, channel: string, id: UserId)
    requires Valid(st)
    requires GetUser(env, st, Criteria(Some(kickee), None, None, None)) == Some(id)
    requires Key(env, st, channel) in st.channels && id in st.channels[Key(env, st, channel)].users
    ensures var r := UserKickedAsWritten(env, st, kickee, channel);
      r.raised == Some(NotAChannel) && id in r.st.channels[Key(env, st, channel)].users
    ensures var r := UserLeft(env, st, kickee, channel);
      r.raised.None? && id !in r.st.channels[Key(env, st, channel)].users
  {
  }

  /** The discrepancy, on a concrete session: alice is the only user in
      #a; bob, whom the session never saw, parts #a. As written, alice is
      parted and evicted; as intended, nothing changes. */
  lemma PartByStrangerEvictsFirstUser()
    ensures var env := Env((m: string, n: string) => n, (s: string) => None, (f: string, m: string) => false);
      var alice := User("alice", "a", "h", [], false, {"#a"}, map[]);
      var st := State("me", "rfc1459", DefaultRanks(), map["#a" := Channel("#a", {0}, map[])], map[0 := alice], 1);
      && Valid(st)
      && 0 !in UserLeftAsWritten(env, st, "bob", "#a").st.users
      && UserLeft(env, st, "bob", "#a") == Fail(st, UnknownUser)
  {
    var env := Env((m: string, n: string) => n, (s: string) => None, (f: string, m: string) => false);
    var alice := User("alice", "a", "h", [], false, {"#a"}, map[]);
    var st := State("me", "rfc1459", DefaultRanks(), map["#a" := Channel("#a", {0}, map[])], map[0 := alice], 1);
    assert Valid(st);
    assert !SameNick(env, st, "bob", "alice");
    assert !Matches(env, st, Criteria(Some("bob"), None, None, None), alice);
    assert GetUser(env, st, Criteria(Some("bob"), None, None, None)).None?;
    assert Matches(env, st, AnyUser, alice);
    FirstMatch(env, st, AnyUser, 0);
    assert Key(env, st, "#a") == "#a";
    assert alice.channels - {"#a"} == {};
  }

  /** `irc_QUIT`: the user named by the full hostmask (an empty one names
      nobody in particular, so the first tracked user) is parted from every
      channel it shares with the session and evicted. */
  method IrcQuit(env: Env, st: State, user: string, params: seq<string>) returns (r: Outcome)
    requires Valid(st)
    ensures Valid(r.st)
    ensures params == [] ==> r == Fail(st, MissingParameter)
    ensures params != [] && user != [] && env.split(user).None? ==> r == Fail(st, MalformedHostmask)
    ensures params != [] && (user == [] || env.split(user).Some?) ==>
      var c := QuitCriteria(env, user);
      && (GetUser(env, st, c).None? ==> r == Fail(st, UnknownUser))
      && (GetUser(env, st, c).Some? ==>
            var id := GetUser(env, st, c).value;
            && r.raised.None?
            && r.st.users == st.users - {id}
            && r.st.channels.Keys == st.channels.Keys
            && forall k :: k in st.channels ==>
                 r.st.channels[k] == st.channels[k].(users := st.channels[k].users - {id}))
  {
    if params == [] {
      return Fail(st, MissingParameter);
    }
    if user != [] && env.split(user).None? {
      return Fail(st, MalformedHostmask);
    }
    var c := QuitCriteria(env, user);
    match GetUser(env, st, c)
    case None =>
      return Fail(st, UnknownUser);
    case Some(id) =>
      var s := PartEverywhere(st, id);
      return Done(s);
  }

  /** `get_user(fullname=...)`: a non-empty full name is split into nick,
      ident and host; an empty one is no criterion at all. */
  function QuitCriteria(env: Env, user: string): (c: Criteria)
    requires user == [] || env.split(user).Some?
    ensures user == [] ==> c == AnyUser
  {
    if user == [] then AnyUser
    else
      var h := env.split(user).value;
      Criteria(Some(h.nick), Some(h.ident), Some(h.host), None)
  }

  /** `irc_NICK`: the first tracked user with the old nick (the prefix up to
      `!`) takes the new nick; nothing else changes. */
  function IrcNick(env: Env, st: State, prefix: string, params: seq<string>): (r: Outcome)
    requires Valid(st)
    ensures Valid(r.st)
    ensures params == [] ==> r == Fail(st, MissingParameter)
    ensures var found := GetUser(env, st, Criteria(Some(SplitOn(prefix, "!")[0]), None, None, None));
      && (params != [] && found.None? ==> r == Fail(st, UnknownUser))
      && (params != [] && found.Some? ==>
            && r.raised.None? && r.st.channels == st.channels && r.st.users.Keys == st.users.Keys
            && r.st.users[found.value] == st.users[found.value].(nick := params[0])
            && forall j :: j in st.users && j != found.value ==> r.st.users[j] == st.users[j])
  {
    var oldnick := SplitOn(prefix, "!")[0];
    if params == [] then Fail(st, MissingParameter)
    else
      match GetUser(env, st, Criteria(Some(oldnick), None, None, None))
      case None => Fail(st, UnknownUser)
      case Some(id) =>
        RenameKeepsValid(st, id, params[0]);
        Done(Rename(st, id, params[0]))
  }

  function Rename(st: State, id: UserId, nick: string): State
    requires id in st.users
  {
    st.(users := st.users[id := st.users[id].(nick := nick)])
  }

  /** A nick change leaves every membership edge as it was. */
  lemma RenameKeepsValid(st: State, id: UserId, nick: string)
    requires Valid(st) && id in st.users
    ensures Valid(Rename(st, id, nick))
  {
    var r := Rename(st, id, nick);
    forall j, k | j in r.users && k in r.users[j].channels
      ensures k in r.channels && j in r.channels[k].users
    {
      assert k in st.users[j].channels;
    }
    forall k, j | k in r.channels && j in r.channels[k].users
      ensures j in r.users && k in r.users[j].channels
    {
      assert j in st.channels[k].users;
    }
  }

  /** After a rename, the new nick finds the renamed user, provided nobody
      else already answers to it. */
  lemma RenamedIsFound(env: Env, st: State, id: UserId, b: string)
    requires Valid(st) && id in st.users && b != []
    requires forall j :: j in st.users && j != id ==> !SameNick(env, st, b, st.users[j].nick)
    ensures GetUser(env, Rename(st, id, b), Criteria(Some(b), None, None, None)) == Some(id)
  {
    var s1 := Rename(st, id, b);
    var c := Criteria(Some(b), None, None, None);
    RenameKeepsValid(st, id, b);
    forall j | j in s1.users && j != id ensures !Matches(env, s1, c, s1.users[j]) {
      assert s1.users[j] == st.users[j] && s1.caseMapping == st.caseMapping;
    }
    assert Matches(env, s1, c, s1.users[id]);
    FirstMatch(env, s1, c, id);
  }

  /** A NICK line whose prefix is a bare nick held by `id` renames `id`. */
  lemma NickRenames(env: Env, st: State, a: string, b: string, id: UserId)
    requires Valid(st)
    requires GetUser(env, st, Criteria(Some(a), None, None, None)) == Some(id)
    requires SplitOn(a, "!") == [a]
    ensures id in st.users && IrcNick(env, st, a, [b]) == Done(Rename(st, id, b))
  {
  }

  /** Renaming a user and renaming it back restores the session, provided
      nobody else answers to the intermediate nick. */
  lemma NickRoundTrip(env: Env, st: State, a: string, b: string, id: UserId)
    requires Valid(st)
    requires GetUser(env, st, Criteria(Some(a), None, None, None)) == Some(id) && st.users[id].nick == a
    requires forall j :: j in st.users && j != id ==> !SameNick(env, st, b, st.users[j].nick)
    requires SplitOn(a, "!") == [a] && SplitOn(b, "!") == [b] && b != []
    ensures IrcNick(env, IrcNick(env, st, a, [b]).st, b, [a]) == Done(st)
  {
    NickRenames(env, st, a, b, id);
    var s1 := Rename(st, id, b);
    RenameKeepsValid(st, id, b);
    RenamedIsFound(env, st, id, b);
    NickRenames(env, s1, b, a, id);
    RenameBack(st, id, b);
  }

  /** Renaming to another nick and back to the held one is no change. */
  lemma RenameBack(st: State, id: UserId, b: string)
    requires id in st.users
    ensures Rename(Rename(st, id, b), id, st.users[id].nick) == st
  {
    var s1 := Rename(st, id, b);
    assert s1.users[id := s1.users[id].(nick := st.users[id].nick)] == st.users;
  }

  /** `irc_RPL_WHOREPLY`: a row names channel, ident, host, server, nick,
      status and gecos at positions 1 to 7; a shorter row raises before any
      change. The row is merged into the channel it names. */
  function WhoReply(env: Env, st: State, data: seq<string>): (r: Outcome)
    requires Valid(st)
    requires |data| >= 8 ==> GetChannel(env, st, data[1]).Some?
    ensures Valid(r.st)
    ensures |data| < 8 ==> r == Fail(st, MissingParameter)
    ensures |data| >= 8 ==>
      var key := Key(env, st, data[1]);
      var (j, jid) := UserJoinChannel(env, st, data[5], data[2], data[3], key);
      var before := Before(env, st, data[5], data[2], data[3]);
      && r.raised.None?
      && SameMembership(j, r.st)
      && r.st.users[jid].(channels := before.channels)
           == ApplyStatus(before, st.ranks, key, data[6]).(realname := RealnameOf(data[7]))
      && forall u :: u in st.users && u != jid ==> r.st.users[u] == st.users[u]
  {
    if |data| < 8 then Fail(st, MissingParameter)
    else
      var key := Key(env, st, data[1]);
      Done(ChannelWhoResponse(env, st, data[5], data[2], data[3], data[6], data[7], key).0)
  }

  /** The features twisted holds once it has parsed an RPL_ISUPPORT line:
      the case-mapping value and the advertised PREFIX entries. A feature
      the line negates (`-NAME`) is dropped, and reads back as None. */
  datatype Supported = Supported(caseMapping: Option<string>, prefix: Option<seq<Rank>>)

  /** The feature name of an RPL_ISUPPORT token: the text before `=`, with
      dashes stripped from both ends, so `-PREFIX` names PREFIX too. */
  function FeatureName(token: string): string {
    Strip(SplitOn(token, "=")[0], IsDash)
  }

  /** Everything but the case-mapping rule and the rank catalog is as it
      was, the rank edges users hold included. */
  predicate Untouched(st: State, r: State) {
    r.nickname == st.nickname && r.channels == st.channels && r.users == st.users && r.nextId == st.nextId
  }

  /** Reading this feature raises: twisted holds no value for it. */
  predicate Dropped(name: string, sup: Supported) {
    (name == "CASEMAPPING" && sup.caseMapping.None?) || (name == "PREFIX" && sup.prefix.None?)
  }

  /** One feature, by name: CASEMAPPING changes only the case-mapping rule,
      PREFIX replaces the whole rank catalog, anything else is ignored. A
      dropped CASEMAPPING raises with the rule unchanged; a dropped PREFIX
      raises after the catalog was emptied. */
  function ApplyFeature(st: State, name: string, sup: Supported): (r: Outcome)
    ensures Untouched(st, r.st)
    ensures r.raised.Some? <==> Dropped(name, sup)
    ensures r.raised.Some? ==> r.raised == Some(MissingFeature)
    ensures name == "CASEMAPPING" ==> r.st == st.(caseMapping := if sup.caseMapping.Some? then sup.caseMapping.value else st.caseMapping)
    ensures name == "PREFIX" ==> r.st == st.(ranks := if sup.prefix.Some? then FromPrefix(sup.prefix.value) else NoRanks)
    ensures name != "CASEMAPPING" && name != "PREFIX" ==> r == Done(st)
  {
    if name == "CASEMAPPING" then
      match sup.caseMapping
      case None => Fail(st, MissingFeature)
      case Some(cm) => Done(st.(caseMapping := cm))
    else if name == "PREFIX" then
      var emptied := st.(ranks := NoRanks);
      match sup.prefix
      case None => Fail(emptied, MissingFeature)
      case Some(p) => Done(st.(ranks := FromPrefix(p)))
    else Done(st)
  }

  /** The features, by name, in order, stopping at the first dropped one.
      Without a dropped one, the last CASEMAPPING and the last PREFIX
      decide, and with neither the rule or the catalog is kept. */
  function ApplyFeatures(st: State, names: seq<string>, sup: Supported): (r: Outcome)
    ensures Untouched(st, r.st)
    ensures r.raised.Some? <==> exists i :: 0 <= i < |names| && Dropped(names[i], sup)
    ensures r.raised.Some? ==> r.raised == Some(MissingFeature)
    ensures r.raised.None? && "CASEMAPPING" in names ==> Some(r.st.caseMapping) == sup.caseMapping
    ensures "CASEMAPPING" !in names ==> r.st.caseMapping == st.caseMapping
    ensures r.raised.None? && "PREFIX" in names ==> sup.prefix.Some? && r.st.ranks == FromPrefix(sup.prefix.value)
    ensures "PREFIX" !in names ==> r.st.ranks == st.ranks
    decreases |names|
  {
    if names == [] then Done(st)
    else
      assert forall n :: n in names <==> n == names[0] || n in names[1..];
      assert forall i :: 0 < i < |names| ==> names[i] == names[1..][i - 1];
      var first := ApplyFeature(st, names[0], sup);
      if first.raised.Some? then first
      else
        var rest := ApplyFeatures(first.st, names[1..], sup);
        assert (exists i :: 0 <= i < |names[1..]| && Dropped(names[1..][i], sup)) ==>
               exists i :: 0 <= i < |names| && Dropped(names[i], sup);
        rest
  }

  /** The loop stops at the first dropped feature: what the features
      before it did, then that feature's own partial effect, and nothing
      of the features after it. */
  lemma {:induction false} StopsAtDropped(st: State, names: seq<string>, sup: Supported, i: nat)
    requires i < |names| && Dropped(names[i], sup)
    requires forall j :: 0 <= j < i ==> !Dropped(names[j], sup)
    ensures ApplyFeatures(st, names[..i], sup).raised.None?
    ensures ApplyFeatures(st, names, sup) == ApplyFeature(ApplyFeatures(st, names[..i], sup).st, names[i], sup)
    decreases i
  {
    if i == 0 {
      assert names[..0] == [];
    } else {
      var first := ApplyFeature(st, names[0], sup);
      assert !Dropped(names[0], sup);
      assert names[1..][..i - 1] == names[..i][1..];
      StopsAtDropped(first.st, names[1..], sup, i - 1);
    }
  }

  /** The feature tokens of an RPL_ISUPPORT line: the parameters between
      the first (our nick) and the last (the trailing text). */
  function FeatureTokens(params: seq<string>): seq<string> {
    if |params| < 2 then [] else params[1..|params| - 1]
  }

  function FeatureNames(tokens: seq<string>): (r: seq<string>)
    ensures |r| == |tokens| && forall i :: 0 <= i < |tokens| ==> r[i] == FeatureName(tokens[i])
  {
    seq(|tokens|, i requires 0 <= i < |tokens| => FeatureName(tokens[i]))
  }

  /** Some feature token of the line names the feature. */
  predicate Advertises(params: seq<string>, name: string) {
    name in FeatureNames(FeatureTokens(params))
  }

  /** `irc_RPL_ISUPPORT`: CASEMAPPING sets the case-mapping rule and
      PREFIX replaces the rank catalog with the advertised one. A token
      naming a feature twisted dropped raises, and the tokens after it are
      not looked at. Users, channels and the rank edges users hold are
      never touched. */
  function Isupport(st: State, params: seq<string>, sup: Supported): (r: Outcome)
    ensures Untouched(st, r.st)
    ensures r.raised.Some? <==>
      (Advertises(params, "CASEMAPPING") && sup.caseMapping.None?) || (Advertises(params, "PREFIX") && sup.prefix.None?)
    ensures r.raised.Some? ==> r.raised == Some(MissingFeature)
    ensures r.raised.None? && Advertises(params, "CASEMAPPING") ==> Some(r.st.caseMapping) == sup.caseMapping
    ensures !Advertises(params, "CASEMAPPING") ==> r.st.caseMapping == st.caseMapping
    ensures r.raised.None? && Advertises(params, "PREFIX") ==> sup.prefix.Some? && r.st.ranks == FromPrefix(sup.prefix.value)
    ensures !Advertises(params, "PREFIX") ==> r.st.ranks == st.ranks
  {
    var names := FeatureNames(FeatureTokens(params));
    DroppedNamed(names, sup);
    ApplyFeatures(st, names, sup)
  }

  /** Some name is dropped exactly when CASEMAPPING or PREFIX is named
      without a value. */
  lemma DroppedNamed(names: seq<string>, sup: Supported)
    ensures (exists i :: 0 <= i < |names| && Dropped(names[i], sup)) <==>
      ("CASEMAPPING" in names && sup.caseMapping.None?) || ("PREFIX" in names && sup.prefix.None?)
  {
    if "CASEMAPPING" in names && sup.caseMapping.None? {
      var i :| 0 <= i < |names| && names[i] == "CASEMAPPING";
      assert Dropped(names[i], sup);
    }
    if "PREFIX" in names && sup.prefix.None? {
      var i :| 0 <= i < |names| && names[i] == "PREFIX";
      assert Dropped(names[i], sup);
    }
  }

  /** A line that negates PREFIX before advertising CASEMAPPING: the
      catalog is left empty, the case-mapping rule is never reached, and
      the callback raises. */
  lemma NegatedPrefixEmpties(st: State)
    ensures Isupport(st, ["me", "-PREFIX", "CASEMAPPING=ascii", "are supported"], Supported(Some("ascii"), None))
         == Fail(st.(ranks := NoRanks), MissingFeature)
  {
    var params := ["me", "-PREFIX", "CASEMAPPING=ascii", "are supported"];
    var sup := Supported(Some("ascii"), None);
    assert FeatureTokens(params) == ["-PREFIX", "CASEMAPPING=ascii"];
    NegatedName("PREFIX");
    assert "-" + "PREFIX" == "-PREFIX";
    var names := FeatureNames(FeatureTokens(params));
    assert names[0] == "PREFIX";
    StopsAtDropped(st, names, sup, 0);
    assert names[..0] == [];
  }

  /** A negated token without a value names the feature it negates. */
  lemma NegatedName(name: string)
    requires name != [] && name[0] != '-' && name[|name| - 1] != '-'
    requires forall i :: 0 <= i < |name| ==> name[i] != '='
    ensures FeatureName("-" + name) == name
  {
    var t := "-" + name;
    forall i | 0 <= i < |t| ensures !OccursAt(t, "=", i) {
      assert t[i..i + 1] == [t[i]];
    }
    SplitAbsent(t, "=");
    assert t[1..] == name;
    assert TrimStart(t, IsDash) == TrimStart(name, IsDash);
    StripKeeps(name, IsDash);
  }

  /** The tracking invariant survives capability negotiation. */
  lemma IsupportKeepsValid(st: State, params: seq<string>, sup: Supported)
    requires Valid(st)
    ensures Valid(Isupport(st, params, sup).st)
  {
    UntouchedKeepsValid(st, Isupport(st, params, sup).st);
  }

  /** The tracking invariant speaks of users, channels and ids alone. */
  lemma UntouchedKeepsValid(st: State, r: State)
    requires Valid(st) && Untouched(st, r)
    ensures Valid(r)
  {
    assert r.users == st.users && r.channels == st.channels && r.nextId == st.nextId;
  }

  /** A PREFIX feature leaves exactly the advertised ranks: none of the
      defaults survives unless advertised again, and each advertised rank
      is found both by its flag and by its symbol. */
  lemma PrefixReplacesCatalog(st: State, params: seq<string>, cm: string, prefix: seq<Rank>)
    requires Advertises(params, "PREFIX")
    requires Distinct(prefix)
    ensures var r := Isupport(st, params, Supported(Some(cm), Some(prefix))).st;
      && (forall m :: m in r.ranks.modes <==> exists e :: e in prefix && e.mode == m)
      && (forall e :: e in prefix ==> r.ranks.modes[e.mode] == e && r.ranks.symbols[e.symbol] == e)
  {
    PrefixRoundTrip(prefix);
  }

  /** The round trip of the common `PREFIX=(ov)@+` advertisement: `@`
      gives the rank with flag `o`, and `o` the rank shown as `@`. */
  lemma OvPrefixRoundTrip(st: State, params: seq<string>)
    requires Advertises(params, "PREFIX")
    ensures var r := Isupport(st, params, Supported(Some(st.caseMapping), Some([Rank('o', '@', 0), Rank('v', '+', 1)]))).st;
      && r.ranks.symbols['@'].mode == 'o' && r.ranks.modes['o'].symbol == '@'
      && r.ranks.symbols['+'].mode == 'v' && r.ranks.modes['v'].symbol == '+'
  {
    OvRanks();
  }
}
