/** Merging one WHO reply row (numeric 352, section 4.5.2 of RFC 1459) into
    the tracked state: the user is found or registered, linked with the
    channel, and its status flags and real name are recorded. */
module IrcWho {
  import opened Base
  import opened Text
  import opened IrcRanks
  import opened IrcSession
  import opened IrcTracking
  import opened IrcModes

  /** A status character that grants a rank: not one of the `H`/`G`
      presence flags or the `*` operator flag, and a symbol of the catalog. */
  predicate RankSymbol(rs: Ranks, c: char) {
    c != 'H' && c != 'G' && c != '*' && c in rs.symbols
  }

  /** The ranks a status field names. */
  ghost function StatusRanks(rs: Ranks, status: string): set<Rank> {
    set c | c in status && RankSymbol(rs, c) :: rs.symbols[c]
  }

  /** The effect of one status character on the user. */
  function StatusChar(u: User, rs: Ranks, key: string, c: char): User {
    if c == 'H' || c == 'G' then u
    else if c == '*' then u.(isOper := true)
    else if c in rs.symbols then AddRankIn(u, key, rs.symbols[c])
    else u
  }

  /** The status loop of `channel_who_response`, character by character:
      `*` marks the user an operator, each rank symbol grants that rank in
      the channel, and presence flags or unknown characters change nothing. */
  function ApplyStatus(u: User, rs: Ranks, key: string, status: string): (r: User)
    ensures r.isOper == (u.isOper || '*' in status)
    ensures RanksIn(r, key) == RanksIn(u, key) + StatusRanks(rs, status)
    ensures forall k :: k != key ==> RanksIn(r, k) == RanksIn(u, k)
    ensures r.(isOper := u.isOper, ranks := u.ranks) == u
    decreases |status|
  {
    if status == [] then u
    else
      var c := status[0];
      var rest := status[1..];
      assert forall x :: x in status <==> x == c || x in rest;
      assert StatusRanks(rs, status) ==
        (if RankSymbol(rs, c) then {rs.symbols[c]} else {}) + StatusRanks(rs, rest);
      ApplyStatus(StatusChar(u, rs, key, c), rs, key, rest)
  }

  /** `gecos.split(" ")[-1]`: the real name is the last space-separated
      token of the gecos field, i.e. its longest suffix free of spaces. */
  function RealnameOf(gecos: string): (r: string)
    ensures ' ' !in r
    ensures |r| <= |gecos| && gecos[|gecos| - |r|..] == r
    ensures |r| < |gecos| ==> gecos[|gecos| - |r| - 1] == ' '
    ensures ' ' !in gecos ==> r == gecos
  {
    var parts := SplitOn(gecos, " ");
    JoinSplit(gecos, " ");
    SplitPartsAvoidSep(gecos, " ");
    JoinEndsWithLast(" ", parts);
    if |parts| >= 2 then
      JoinLast(" ", parts);
      var init := Join(" ", parts[..|parts| - 1]);
      assert gecos == init + " " + Last(parts);
      assert gecos[|init|] == ' ';
      Last(parts)
    else
      Last(parts)
  }

  /** The user a row is about before it is merged: the first tracked match
      for its nick, ident and host, or a fresh record. */
  function Before(env: Env, st: State, nick: string, ident: string, host: string): User
    requires IdsIssued(st)
  {
    match GetUser(env, st, HostmaskQuery(nick, ident, host))
    case Some(id) => st.users[id]
    case None => NewUser(nick, ident, host)
  }

  /** The first half of `channel_who_response` on joined channel `key`:
      find the user (or register it by joining it to the channel), then add
      whichever side of the membership edge is missing. This is exactly
      what a JOIN by the same user does. */
  function WhoTarget(env: Env, st: State, nick: string, ident: string, host: string, key: string): (r: (State, UserId))
    requires Valid(st) && key in st.channels
    ensures r == UserJoinChannel(env, st, nick, ident, host, key)
  {
    match GetUser(env, st, HostmaskQuery(nick, ident, host))
    case None => UserJoinChannel(env, st, nick, ident, host, key)
    case Some(id) =>
      if key in st.users[id].channels && id in st.channels[key].users then
        LinkIdempotent(st, id, key);
        (st, id)
      else (Link(st, id, key), id)
  }

  /** Linking an existing edge changes nothing. */
  lemma LinkIdempotent(st: State, id: UserId, key: string)
    requires id in st.users && key in st.channels
    requires key in st.users[id].channels && id in st.channels[key].users
    ensures Link(st, id, key) == st
  {
    var u := st.users[id];
    var c := st.channels[key];
    assert u.(channels := u.channels + {key}) == u;
    assert c.(users := c.users + {id}) == c;
    assert st.users[id := u] == st.users;
    assert st.channels[key := c] == st.channels;
  }

  /** `channel_who_response` on joined channel `key`: link the user as a
      JOIN would, then apply the status field and set the real name.
      Returns the state and the user's id. */
  function ChannelWhoResponse(env: Env, st: State, nick: string, ident: string, host: string,
                              status: string, gecos: string, key: string): (r: (State, UserId))
    requires Valid(st) && key in st.channels
    ensures Valid(r.0) && SameSession(st, r.0)
    ensures var (j, jid) := UserJoinChannel(env, st, nick, ident, host, key);
      r.1 == jid && SameMembership(j, r.0)
    ensures r.1 in r.0.users && key in r.0.users[r.1].channels && r.1 in r.0.channels[key].users
    ensures GetUser(env, r.0, HostmaskQuery(nick, ident, host)) == Some(r.1)
    ensures var before := Before(env, st, nick, ident, host);
      r.0.users[r.1].(channels := before.channels)
        == ApplyStatus(before, st.ranks, key, status).(realname := RealnameOf(gecos))
    ensures forall j :: j in st.users && j != r.1 ==> r.0.users[j] == st.users[j]
    ensures forall k :: k in st.channels && k != key ==> r.0.channels[k] == st.channels[k]
  {
    var (s1, id) := WhoTarget(env, st, nick, ident, host, key);
    JoinKeepsDetails(env, st, nick, ident, host, key);
    JoinFrame(env, st, nick, ident, host, key);
    var r := Merge(env, s1, id, status, gecos, key, HostmaskQuery(nick, ident, host));
    var before := Before(env, st, nick, ident, host);
    assert s1.users[id].(channels := before.channels) == before;
    StatusIgnoresChannels(s1.users[id], before.channels, st.ranks, key, status);
    r
  }

  /** The status loop never looks at or changes the user's channels. */
  lemma {:induction false} StatusIgnoresChannels(u: User, cs: set<string>, rs: Ranks, key: string, status: string)
    ensures ApplyStatus(u.(channels := cs), rs, key, status) == ApplyStatus(u, rs, key, status).(channels := cs)
    decreases |status|
  {
    if status != [] {
      StatusIgnoresChannels(StatusChar(u, rs, key, status[0]), cs, rs, key, status[1..]);
    }
  }

  /** Joining changes none of the user's details but its channels: the
      record a JOIN leaves has the operator flag and ranks the user had
      before (none, for a user registered by the join). */
  lemma JoinKeepsDetails(env: Env, st: State, nick: string, ident: string, host: string, key: string)
    requires Valid(st) && key in st.channels
    ensures var (s1, id) := UserJoinChannel(env, st, nick, ident, host, key);
      var before := Before(env, st, nick, ident, host);
      s1.users[id].isOper == before.isOper && s1.users[id].ranks == before.ranks
  {
  }

  /** The last step of a WHO row: record status and real name on a user
      already linked with the channel. */
  function Merge(env: Env, st: State, id: UserId, status: string, gecos: string, key: string, q: Criteria): (r: (State, UserId))
    requires Valid(st) && key in st.channels && id in st.users
    requires key in st.users[id].channels && id in st.channels[key].users
    requires GetUser(env, st, q) == Some(id)
    ensures Valid(r.0) && SameSession(st, r.0) && SameMembership(st, r.0) && r.1 == id
    ensures r.0.channels == st.channels
    ensures GetUser(env, r.0, q) == Some(id)
    ensures r.0.users[id] == ApplyStatus(st.users[id], st.ranks, key, status).(realname := RealnameOf(gecos))
    ensures forall j :: j in st.users && j != id ==> r.0.users[j] == st.users[j]
  {
    var u := ApplyStatus(st.users[id], st.ranks, key, status).(realname := RealnameOf(gecos));
    var u0 := st.users[id];
    assert ApplyStatus(u0, st.ranks, key, status).(isOper := u0.isOper, ranks := u0.ranks) == u0;
    assert u.nick == u0.nick && u.ident == u0.ident && u.host == u0.host && u.channels == u0.channels;
    var r := st.(users := st.users[id := u]);
    assert SameIdentities(st, r);
    MembershipKeepsValid(st, r);
    LookupFrame(env, st, r, q);
    (r, id)
  }
}
