/** Channel mode changes: each token of a batch either moves a rank on a
    (user, channel) edge or sets/clears a channel mode. Tokens apply in the
    order received; a rank token naming nobody known is skipped. */
module IrcModes {
  import opened Base
  import opened IrcRanks
  import opened IrcSession
  import opened IrcTracking

  /** One flag of a MODE batch, with its parameter when it has one. */
  datatype ModeToken = ModeToken(mode: char, arg: Option<string>)

  /** `add_rank_in_channel`: `rank` is now held in channel `key`. */
  function AddRankIn(u: User, key: string, rank: Rank): (r: User)
    ensures RanksIn(r, key) == RanksIn(u, key) + {rank}
    ensures forall k :: k != key ==> RanksIn(r, k) == RanksIn(u, k)
    ensures r.(ranks := u.ranks) == u
  {
    u.(ranks := u.ranks[key := RanksIn(u, key) + {rank}])
  }

  /** `remove_rank_in_channel`: `rank` is no longer held in channel `key`. */
  function RemoveRankIn(u: User, key: string, rank: Rank): (r: User)
    ensures RanksIn(r, key) == RanksIn(u, key) - {rank}
    ensures forall k :: k != key ==> RanksIn(r, k) == RanksIn(u, k)
    ensures r.(ranks := u.ranks) == u
  {
    u.(ranks := u.ranks[key := RanksIn(u, key) - {rank}])
  }

  /** Granting and then withdrawing a rank the user did not hold leaves the
      user's ranks in that channel as they were. */
  lemma AddThenRemoveRank(u: User, key: string, rank: Rank)
    requires rank !in RanksIn(u, key)
    ensures RanksIn(RemoveRankIn(AddRankIn(u, key, rank), key, rank), key) == RanksIn(u, key)
  {
  }

  /** Both states have the same users, channels and membership edges; only
      ranks, modes and user details may differ. */
  ghost predicate SameMembership(st: State, r: State) {
    && SameSession(st, r) && SameIdentities(st, r) && r.nextId == st.nextId
    && r.channels.Keys == st.channels.Keys
    && (forall k :: k in st.channels ==> r.channels[k].users == st.channels[k].users)
    && (forall id :: id in st.users ==> r.users[id].channels == st.users[id].channels)
  }

  /** The tracking invariant depends on membership alone. */
  lemma MembershipKeepsValid(st: State, r: State)
    requires Valid(st) && SameMembership(st, r)
    ensures Valid(r)
  {
    forall id, k | id in r.users && k in r.users[id].channels
      ensures k in r.channels && id in r.channels[k].users
    {
      assert k in st.users[id].channels;
    }
  }

  /** One token of `modeChanged` on joined channel `key`, `adding` being the
      batch's sign. A rank flag resolves its parameter as a nickname (an
      absent parameter finds the first tracked user, as `get_user(None)`
      does) and moves that rank on the user's edge for this channel, or
      changes nothing when no user matches. Any other flag sets the mode to
      its parameter, or clears it. */
  function ApplyMode(env: Env, st: State, key: string, adding: bool, t: ModeToken): (r: State)
    requires IdsIssued(st) && key in st.channels
    ensures SameMembership(st, r) && IdsIssued(r)
    ensures t.mode in st.ranks.modes ==> r.channels == st.channels
    ensures t.mode !in st.ranks.modes ==> r.users == st.users
  {
    if t.mode in st.ranks.modes then
      var rank := st.ranks.modes[t.mode];
      match GetUser(env, st, Criteria(t.arg, None, None, None))
      case None => st
      case Some(id) =>
        var u := st.users[id];
        st.(users := st.users[id := if adding then AddRankIn(u, key, rank) else RemoveRankIn(u, key, rank)])
    else
      var c := st.channels[key];
      st.(channels := st.channels[key := c.(modes := if adding then c.modes[t.mode := t.arg] else c.modes - {t.mode})])
  }

  /** A rank flag moves that rank on the named user's edge for this
      channel and nowhere else, and touches no other user; naming nobody it
      changes nothing. */
  lemma RankTokenEffect(env: Env, st: State, key: string, adding: bool, t: ModeToken)
    requires IdsIssued(st) && key in st.channels && t.mode in st.ranks.modes
    ensures var r := ApplyMode(env, st, key, adding, t);
      var found := GetUser(env, st, Criteria(t.arg, None, None, None));
      && (found.None? ==> r == st)
      && (found.Some? ==>
            var id := found.value;
            var rank := st.ranks.modes[t.mode];
            && RanksIn(r.users[id], key) == (if adding then RanksIn(st.users[id], key) + {rank}
                                             else RanksIn(st.users[id], key) - {rank})
            && (forall k :: k != key ==> RanksIn(r.users[id], k) == RanksIn(st.users[id], k))
            && r.users[id].(ranks := st.users[id].ranks) == st.users[id]
            && forall j :: j in st.users && j != id ==> r.users[j] == st.users[j])
  {
  }

  /** Any other flag sets the channel mode to its parameter or clears it,
      and touches no other mode and no other channel. */
  lemma ChannelTokenEffect(env: Env, st: State, key: string, adding: bool, t: ModeToken)
    requires IdsIssued(st) && key in st.channels && t.mode !in st.ranks.modes
    ensures var r := ApplyMode(env, st, key, adding, t);
      && key in r.channels
      && (adding ==> r.channels[key].modes == st.channels[key].modes[t.mode := t.arg])
      && (!adding ==> t.mode !in r.channels[key].modes)
      && (!adding ==> forall m :: m != t.mode ==> (m in r.channels[key].modes <==> m in st.channels[key].modes))
      && (!adding ==> forall m :: m != t.mode && m in st.channels[key].modes ==>
                     r.channels[key].modes[m] == st.channels[key].modes[m])
      && r.channels[key].name == st.channels[key].name
      && forall k :: k in st.channels && k != key ==> r.channels[k] == st.channels[k]
  {
  }

  /** The tokens of one batch, strictly in order. */
  function ApplyModes(env: Env, st: State, key: string, adding: bool, ts: seq<ModeToken>): (r: State)
    requires IdsIssued(st) && key in st.channels
    ensures SameMembership(st, r) && IdsIssued(r)
    decreases |ts|
  {
    if ts == [] then st
    else ApplyModes(env, ApplyMode(env, st, key, adding, ts[0]), key, adding, ts[1..])
  }

  /** Applying a batch in two parts is applying it whole. */
  lemma {:induction false} ModesCompose(env: Env, st: State, key: string, adding: bool, ts1: seq<ModeToken>, ts2: seq<ModeToken>)
    requires IdsIssued(st) && key in st.channels
    ensures ApplyModes(env, st, key, adding, ts1 + ts2)
         == ApplyModes(env, ApplyModes(env, st, key, adding, ts1), key, adding, ts2)
    decreases |ts1|
  {
    if ts1 == [] {
      assert ts1 + ts2 == ts2;
    } else {
      var s1 := ApplyMode(env, st, key, adding, ts1[0]);
      assert (ts1 + ts2)[0] == ts1[0];
      assert (ts1 + ts2)[1..] == ts1[1..] + ts2;
      assert ApplyModes(env, st, key, adding, ts1 + ts2) == ApplyModes(env, s1, key, adding, ts1[1..] + ts2);
      assert ApplyModes(env, st, key, adding, ts1) == ApplyModes(env, s1, key, adding, ts1[1..]);
      ModesCompose(env, s1, key, adding, ts1[1..], ts2);
    }
  }

  /** A rank token naming no tracked user is skipped, and the rest of the
      batch still applies. */
  lemma UnknownNickSkipped(env: Env, st: State, key: string, adding: bool, t: ModeToken, rest: seq<ModeToken>)
    requires IdsIssued(st) && key in st.channels
    requires t.mode in st.ranks.modes
    requires GetUser(env, st, Criteria(t.arg, None, None, None)).None?
    ensures ApplyModes(env, st, key, adding, [t] + rest) == ApplyModes(env, st, key, adding, rest)
  {
    assert ([t] + rest)[1..] == rest;
  }

  /** `modeChanged`: nothing changes when the target is the session's own
      nick (a user mode) or a channel not joined; otherwise the batch applies
      to that channel's key. */
  function ModeChanged(env: Env, st: State, target: string, adding: bool, ts: seq<ModeToken>): (r: State)
    requires IdsIssued(st)
    ensures SameMembership(st, r) && IdsIssued(r)
    ensures SameNick(env, st, st.nickname, target) || GetChannel(env, st, target).None? ==> r == st
    ensures !SameNick(env, st, st.nickname, target) && GetChannel(env, st, target).Some? ==>
      Key(env, st, target) in st.channels && r == ApplyModes(env, st, Key(env, st, target), adding, ts)
  {
    if SameNick(env, st, st.nickname, target) then st
    else
      var key := Key(env, st, target);
      if key in st.channels then ApplyModes(env, st, key, adding, ts) else st
  }

  /** The batch `[+o unknown, +v known]`: the first token is skipped and
      the second still grants voice to the known user. */
  lemma SkipThenGrant(env: Env, st: State, key: string, unknown: string, known: string)
    requires IdsIssued(st) && key in st.channels
    requires 'o' in st.ranks.modes && 'v' in st.ranks.modes
    requires GetUser(env, st, Criteria(Some(unknown), None, None, None)).None?
    requires GetUser(env, st, Criteria(Some(known), None, None, None)).Some?
    ensures var id := GetUser(env, st, Criteria(Some(known), None, None, None)).value;
      var r := ApplyModes(env, st, key, true, [ModeToken('o', Some(unknown)), ModeToken('v', Some(known))]);
      RanksIn(r.users[id], key) == RanksIn(st.users[id], key) + {st.ranks.modes['v']}
  {
    var t1 := ModeToken('o', Some(unknown));
    var t2 := ModeToken('v', Some(known));
    UnknownNickSkipped(env, st, key, true, t1, [t2]);
    assert [t2][1..] == [];
    RankTokenEffect(env, st, key, true, t2);
  }
}
