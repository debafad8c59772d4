/** The state an IRC session tracks: the joined channels keyed by their
    case-folded names, the registry of tracked users, and the rank catalog;
    plus the channel registry and the user lookups.

    Users are identified by a `UserId` issued in increasing order, so the
    registry's insertion order (a Python list in the original) is ascending
    id order, and "the first match" is the smallest matching id. */
module IrcSession {
  import opened Base
  import opened Text
  import opened IrcRanks

  type UserId = nat

  /** A remote participant. `channels` holds the keys of the channels the
      user shares with the session; `ranks` the ranks held per channel key. */
  datatype User = User(
    nick: string,
    ident: string,
    host: string,
    realname: string,
    isOper: bool,
    channels: set<string>,
    ranks: map<string, set<Rank>>)

  /** A user record as first created from a hostmask. */
  function NewUser(nick: string, ident: string, host: string): User {
    User(nick, ident, host, [], false, {}, map[])
  }

  /** The user's `nick!ident@host`. */
  function FullName(u: User): string {
    u.nick + "!" + u.ident + "@" + u.host
  }

  function RanksIn(u: User, key: string): set<Rank> {
    if key in u.ranks then u.ranks[key] else {}
  }

  /** A joined channel: its name as first seen, its members, and its modes
      (a mode flag mapped to its parameter, if it has one). */
  datatype Channel = Channel(name: string, users: set<UserId>, modes: map<char, Option<string>>)

  function NewChannel(name: string): Channel {
    Channel(name, {}, map[])
  }

  datatype Hostmask = Hostmask(nick: string, ident: string, host: string)

  /** The IRC helper routines the session calls but this model does not
      define: folding a nick or channel name under a case-mapping rule,
      splitting a `nick!ident@host` token (None where the helper raises), and
      matching a user's full name against a hostmask pattern. */
  datatype Env = Env(
    fold: (string, string) -> string,
    split: string -> Option<Hostmask>,
    matches: (string, string) -> bool)

  datatype State = State(
    nickname: string,
    caseMapping: string,
    ranks: Ranks,
    channels: map<string, Channel>,
    users: map<UserId, User>,
    nextId: UserId)

  /** The registry key of a nick or channel name under the current rule. */
  function Key(env: Env, st: State, name: string): string {
    env.fold(st.caseMapping, name)
  }

  /** Two names denote the same nick or channel under the current rule. */
  predicate SameNick(env: Env, st: State, a: string, b: string) {
    Key(env, st, a) == Key(env, st, b)
  }

  // ---------------------------------------------------------------------
  // The tracking invariant

  /** Every tracked user carries an id already issued. */
  predicate IdsIssued(st: State) {
    forall id :: id in st.users ==> id < st.nextId
  }

  /** Each channel in a user's set is joined and lists the user. */
  predicate UsersLinked(st: State) {
    forall id, k :: id in st.users && k in st.users[id].channels ==>
      k in st.channels && id in st.channels[k].users
  }

  /** Each member of a channel is tracked and lists the channel. */
  predicate MembersLinked(st: State) {
    forall k, id :: k in st.channels && id in st.channels[k].users ==>
      id in st.users && k in st.users[id].channels
  }

  /** A user is tracked only while sharing some channel with the session. */
  predicate NoneLost(st: State) {
    forall id :: id in st.users ==> st.users[id].channels != {}
  }

  /** The invariant every handler keeps: membership edges are reciprocal,
      and a user is registered exactly when its channel set is non-empty. */
  predicate Valid(st: State) {
    IdsIssued(st) && UsersLinked(st) && MembersLinked(st) && NoneLost(st)
  }

  // ---------------------------------------------------------------------
  // Channel registry

  /** `get_channel`: the channel under the folded name, or None. */
  function GetChannel(env: Env, st: State, name: string): Option<Channel> {
    var k := Key(env, st, name);
    if k in st.channels then Some(st.channels[k]) else None
  }

  /** `set_channel`: afterwards every case-variant of the name finds the
      channel, and no other key changes. */
  function SetChannel(env: Env, st: State, name: string, ch: Channel): (r: State)
    ensures forall b :: SameNick(env, st, b, name) ==> GetChannel(env, r, b) == Some(ch)
    ensures forall b :: !SameNick(env, st, b, name) ==> GetChannel(env, r, b) == GetChannel(env, st, b)
    ensures r.users == st.users && r.nextId == st.nextId && r.ranks == st.ranks
  {
    st.(channels := st.channels[Key(env, st, name) := ch])
  }

  /** `del_channel`: removes exactly the channel under the folded name;
      None where that name is not registered (the source raises KeyError). */
  function DelChannel(env: Env, st: State, name: string): (r: Option<State>)
    ensures r.Some? <==> GetChannel(env, st, name).Some?
    ensures r.Some? ==> forall b :: SameNick(env, st, b, name) ==> GetChannel(env, r.value, b) == None
    ensures r.Some? ==> forall b :: !SameNick(env, st, b, name) ==> GetChannel(env, r.value, b) == GetChannel(env, st, b)
    ensures r.Some? ==> r.value.users == st.users && r.value.nextId == st.nextId
  {
    var k := Key(env, st, name);
    if k in st.channels then Some(st.(channels := st.channels - {k})) else None
  }

  // ---------------------------------------------------------------------
  // User lookup

  /** The keyword arguments of `get_users`; None is an omitted argument. */
  datatype Criteria = Criteria(
    nickname: Option<string>,
    ident: Option<string>,
    host: Option<string>,
    hostmask: Option<string>)

  const AnyUser := Criteria(None, None, None, None)

  /** A criterion takes part only when it is truthy in Python: given and non-empty. */
  predicate Given(o: Option<string>) {
    o.Some? && o.value != []
  }

  /** Every given criterion holds of `u`: the nick under the case-mapping
      rule, ident and host ignoring ASCII case, the hostmask by pattern. */
  predicate Matches(env: Env, st: State, c: Criteria, u: User) {
    && (Given(c.nickname) ==> SameNick(env, st, c.nickname.value, u.nick))
    && (Given(c.ident) ==> Lower(c.ident.value) == Lower(u.ident))
    && (Given(c.host) ==> Lower(c.host.value) == Lower(u.host))
    && (Given(c.hostmask) ==> env.matches(FullName(u), c.hostmask.value))
  }

  /** The matching tracked users with ids in [from, nextId), ascending. */
  function ScanFrom(env: Env, st: State, c: Criteria, from: nat): (r: seq<UserId>)
    ensures forall i :: 0 <= i < |r| ==>
      from <= r[i] && r[i] in st.users && Matches(env, st, c, st.users[r[i]])
    ensures forall id :: from <= id < st.nextId && id in st.users && Matches(env, st, c, st.users[id]) ==> id in r
    ensures forall i, j :: 0 <= i < j < |r| ==> r[i] < r[j]
    decreases st.nextId - from
  {
    if from >= st.nextId then []
    else
      var rest := ScanFrom(env, st, c, from + 1);
      if from in st.users && Matches(env, st, c, st.users[from]) then [from] + rest else rest
  }

  /** `get_users` (without `fullname`): exactly the tracked users meeting
      every given criterion, in registry order. */
  function GetUsers(env: Env, st: State, c: Criteria): (r: seq<UserId>)
    requires IdsIssued(st)
    ensures forall id :: id in r <==> id in st.users && Matches(env, st, c, st.users[id])
    ensures forall i, j :: 0 <= i < j < |r| ==> r[i] < r[j]
  {
    ScanFrom(env, st, c, 0)
  }

  /** `get_user`: the first tracked user meeting the criteria, or None. */
  function GetUser(env: Env, st: State, c: Criteria): (r: Option<UserId>)
    requires IdsIssued(st)
    ensures r.Some? ==> r.value in st.users && Matches(env, st, c, st.users[r.value])
    ensures r.Some? ==> forall id :: id in st.users && Matches(env, st, c, st.users[id]) ==> r.value <= id
    ensures r.None? <==> forall id :: id in st.users ==> !Matches(env, st, c, st.users[id])
  {
    var all := GetUsers(env, st, c);
    if all == [] then None
    else
      assert forall id :: id in all ==> all[0] <= id by {
        forall id | id in all ensures all[0] <= id {
          var i :| 0 <= i < |all| && all[i] == id;
        }
      }
      Some(all[0])
  }

  /** The first match is the only candidate: any tracked, matching user no
      later than every other match is what `GetUser` returns. */
  lemma FirstMatch(env: Env, st: State, c: Criteria, id: UserId)
    requires IdsIssued(st)
    requires id in st.users && Matches(env, st, c, st.users[id])
    requires forall j :: j in st.users && Matches(env, st, c, st.users[j]) ==> id <= j
    ensures GetUser(env, st, c) == Some(id)
  {
  }

  /** Both states hold the same users under the same names and rule. */
  predicate SameIdentities(st: State, st': State) {
    && st'.caseMapping == st.caseMapping
    && st'.users.Keys == st.users.Keys
    && forall id :: id in st.users ==>
         && st'.users[id].nick == st.users[id].nick
         && st'.users[id].ident == st.users[id].ident
         && st'.users[id].host == st.users[id].host
  }

  /** Changes that keep every user's names keep every lookup's answer. */
  lemma LookupFrame(env: Env, st: State, st': State, c: Criteria)
    requires IdsIssued(st) && IdsIssued(st')
    requires SameIdentities(st, st')
    ensures GetUser(env, st', c) == GetUser(env, st, c)
  {
    assert forall id :: id in st.users ==>
      (Matches(env, st', c, st'.users[id]) <==> Matches(env, st, c, st.users[id])) by {
      forall id | id in st.users
        ensures Matches(env, st', c, st'.users[id]) <==> Matches(env, st, c, st.users[id])
      {
        assert FullName(st'.users[id]) == FullName(st.users[id]);
      }
    }
    match GetUser(env, st, c)
    case None =>
    case Some(id) => FirstMatch(env, st', c, id);
  }

  lemma {:induction false} ScanAgrees(env: Env, st: State, c1: Criteria, c2: Criteria, from: nat)
    requires forall id :: id in st.users ==> (Matches(env, st, c1, st.users[id]) <==> Matches(env, st, c2, st.users[id]))
    ensures ScanFrom(env, st, c1, from) == ScanFrom(env, st, c2, from)
    decreases st.nextId - from
  {
    if from < st.nextId {
      ScanAgrees(env, st, c1, c2, from + 1);
    }
  }

  /** Ident and host are compared without regard to ASCII case: criteria
      that differ only in the case of the ident find the same users. */
  lemma IdentIgnoresCase(env: Env, st: State, c: Criteria, i1: string, i2: string)
    requires IdsIssued(st)
    requires Lower(i1) == Lower(i2)
    ensures GetUsers(env, st, c.(ident := Some(i1))) == GetUsers(env, st, c.(ident := Some(i2)))
  {
    assert |i1| == |Lower(i1)| == |Lower(i2)| == |i2|;
    ScanAgrees(env, st, c.(ident := Some(i1)), c.(ident := Some(i2)), 0);
  }

  /** As `IdentIgnoresCase`, for the host. */
  lemma HostIgnoresCase(env: Env, st: State, c: Criteria, h1: string, h2: string)
    requires IdsIssued(st)
    requires Lower(h1) == Lower(h2)
    ensures GetUsers(env, st, c.(host := Some(h1))) == GetUsers(env, st, c.(host := Some(h2)))
  {
    assert |h1| == |Lower(h1)| == |Lower(h2)| == |h2|;
    ScanAgrees(env, st, c.(host := Some(h1)), c.(host := Some(h2)), 0);
  }

  /** An omitted (or empty) criterion is a wildcard: with none given, every
      tracked user is found. */
  lemma NoCriteriaFindsAll(env: Env, st: State)
    requires IdsIssued(st)
    ensures forall id :: id in st.users <==> id in GetUsers(env, st, AnyUser)
  {
  }

  /** A user named by a hostmask string: one the registry tracks, or a
      transient record that is not entered into the registry. */
  datatype Resolved = Tracked(id: UserId) | Transient(user: User)

  /** `_get_user_from_user_string`: None where splitting the hostmask
      raises; otherwise the first tracked user with that nick, ident and
      host, or else a fresh transient user (the state is not changed). */
  function ResolveUserString(env: Env, st: State, s: string): (r: Option<Resolved>)
    requires IdsIssued(st)
    ensures r.None? <==> env.split(s).None?
    ensures r.Some? && r.value.Tracked? ==>
      var h := env.split(s).value;
      && r.value.id in st.users
      && Matches(env, st, Criteria(Some(h.nick), Some(h.ident), Some(h.host), None), st.users[r.value.id])
    ensures r.Some? && r.value.Transient? ==>
      var h := env.split(s).value;
      && r.value.user == NewUser(h.nick, h.ident, h.host)
      && forall id :: id in st.users ==>
           !Matches(env, st, Criteria(Some(h.nick), Some(h.ident), Some(h.host), None), st.users[id])
  {
    match env.split(s)
    case None => None
    case Some(h) =>
      match GetUser(env, st, Criteria(Some(h.nick), Some(h.ident), Some(h.host), None))
      case Some(id) => Some(Tracked(id))
      case None => Some(Transient(NewUser(h.nick, h.ident, h.host)))
  }
}
