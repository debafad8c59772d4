/** User tracking: the reciprocal user/channel membership edges, kept by
    joins and parts, and the eviction of users the session loses track of. */
module IrcTracking {
  import opened Base
  import opened IrcRanks
  import opened IrcSession

  /** Both states agree on everything but users and channels. */
  predicate SameSession(st: State, r: State) {
    r.nickname == st.nickname && r.caseMapping == st.caseMapping && r.ranks == st.ranks
  }

  /** Record that user `id` is in channel `key`, on both sides at once. */
  function Link(st: State, id: UserId, key: string): (r: State)
    requires id in st.users && key in st.channels
    ensures SameSession(st, r) && SameIdentities(st, r) && r.nextId == st.nextId
    ensures r.channels.Keys == st.channels.Keys
    ensures r.users[id] == st.users[id].(channels := st.users[id].channels + {key})
    ensures r.channels[key] == st.channels[key].(users := st.channels[key].users + {id})
    ensures forall j :: j in st.users && j != id ==> r.users[j] == st.users[j]
    ensures forall k :: k in st.channels && k != key ==> r.channels[k] == st.channels[k]
  {
    var u := st.users[id];
    var c := st.channels[key];
    st.(users := st.users[id := u.(channels := u.channels + {key})],
        channels := st.channels[key := c.(users := c.users + {id})])
  }

  /** Adding an edge on both sides keeps the edges reciprocal. */
  lemma LinkKeepsLinks(st: State, id: UserId, key: string)
    requires id in st.users && key in st.channels
    requires IdsIssued(st) && UsersLinked(st) && MembersLinked(st)
    ensures var r := Link(st, id, key); IdsIssued(r) && UsersLinked(r) && MembersLinked(r)
    ensures (forall j :: j in st.users && j != id ==> st.users[j].channels != {}) ==> NoneLost(Link(st, id, key))
  {
    var r := Link(st, id, key);
    forall j, k | j in r.users && k in r.users[j].channels
      ensures k in r.channels && j in r.channels[k].users
    {
      if j != id {
        assert k in st.users[j].channels;
      }
    }
    forall k, j | k in r.channels && j in r.channels[k].users
      ensures j in r.users && k in r.users[j].channels
    {
      if k != key || j != id {
        assert j in st.channels[k].users;
      }
    }
  }

  /** Drop the edge between user `id` and channel `key` on both sides. */
  function Unlink(st: State, id: UserId, key: string): (r: State)
    requires id in st.users && key in st.channels
    ensures SameSession(st, r) && SameIdentities(st, r) && r.nextId == st.nextId
    ensures r.channels.Keys == st.channels.Keys
    ensures r.users[id] == st.users[id].(channels := st.users[id].channels - {key})
    ensures r.channels[key] == st.channels[key].(users := st.channels[key].users - {id})
    ensures forall j :: j in st.users && j != id ==> r.users[j] == st.users[j]
    ensures forall k :: k in st.channels && k != key ==> r.channels[k] == st.channels[k]
  {
    var u := st.users[id];
    var c := st.channels[key];
    st.(users := st.users[id := u.(channels := u.channels - {key})],
        channels := st.channels[key := c.(users := c.users - {id})])
  }

  /** Removing an edge on both sides keeps the edges reciprocal. */
  lemma UnlinkKeepsLinks(st: State, id: UserId, key: string)
    requires id in st.users && key in st.channels
    requires IdsIssued(st) && UsersLinked(st) && MembersLinked(st)
    ensures var r := Unlink(st, id, key); IdsIssued(r) && UsersLinked(r) && MembersLinked(r)
  {
    var r := Unlink(st, id, key);
    forall j, k | j in r.users && k in r.users[j].channels
      ensures k in r.channels && j in r.channels[k].users
    {
      assert k in st.users[j].channels;
    }
    forall k, j | k in r.channels && j in r.channels[k].users
      ensures j in r.users && k in r.users[j].channels
    {
      assert j in st.channels[k].users;
    }
  }

  /** The lookup `user_join_channel` and the WHO handler make. */
  function HostmaskQuery(nick: string, ident: string, host: string): Criteria {
    Criteria(Some(nick), Some(ident), Some(host), None)
  }

  /** Append a new tracked user record, under the next id. */
  function Register(st: State, nick: string, ident: string, host: string): (r: State)
    ensures SameSession(st, r) && r.channels == st.channels
    ensures r.nextId == st.nextId + 1
    ensures r.users == st.users[st.nextId := NewUser(nick, ident, host)]
  {
    st.(users := st.users[st.nextId := NewUser(nick, ident, host)], nextId := st.nextId + 1)
  }

  /** A freshly registered user, once linked, is the first (and only) one
      its own names find. */
  lemma RegisteredIsFound(env: Env, st: State, nick: string, ident: string, host: string, key: string)
    requires Valid(st) && key in st.channels
    requires GetUser(env, st, HostmaskQuery(nick, ident, host)).None?
    ensures var r := Link(Register(st, nick, ident, host), st.nextId, key);
      Valid(r) && GetUser(env, r, HostmaskQuery(nick, ident, host)) == Some(st.nextId)
  {
    var c := HostmaskQuery(nick, ident, host);
    var id := st.nextId;
    var st1 := Register(st, nick, ident, host);
    forall k, j | k in st1.channels && j in st1.channels[k].users
      ensures j in st1.users && k in st1.users[j].channels
    {
      assert j in st.users;
    }
    LinkKeepsLinks(st1, id, key);
    var r := Link(st1, id, key);
    forall j | j in r.users && j != id ensures !Matches(env, r, c, r.users[j]) {
      assert r.users[j] == st.users[j];
    }
    FirstMatch(env, r, c, id);
  }

  /** A user already tracked, once linked, is still the first one its
      names find. */
  lemma ReusedIsFound(env: Env, st: State, id: UserId, key: string, c: Criteria)
    requires Valid(st) && key in st.channels
    requires GetUser(env, st, c) == Some(id)
    ensures id in st.users
    ensures Valid(Link(st, id, key)) && GetUser(env, Link(st, id, key), c) == Some(id)
  {
    LinkKeepsLinks(st, id, key);
    LookupFrame(env, st, Link(st, id, key), c);
  }

  /** `user_join_channel`: reuse the first tracked user with this nick,
      ident and host, or register a new tracked one; then link it with the
      channel on both sides. Later lookups by the same names find it. */
  function UserJoinChannel(env: Env, st: State, nick: string, ident: string, host: string, key: string): (r: (State, UserId))
    requires Valid(st) && key in st.channels
    ensures Valid(r.0) && SameSession(st, r.0)
    ensures r.1 in r.0.users && key in r.0.users[r.1].channels && r.1 in r.0.channels[key].users
    ensures GetUser(env, r.0, HostmaskQuery(nick, ident, host)) == Some(r.1)
    ensures var found := GetUser(env, st, HostmaskQuery(nick, ident, host));
      && (found.Some? ==>
            && r.1 == found.value && r.0.users.Keys == st.users.Keys && r.0.nextId == st.nextId
            && r.0.users[r.1] == st.users[r.1].(channels := st.users[r.1].channels + {key}))
      && (found.None? ==>
            && r.1 == st.nextId && r.0.nextId == st.nextId + 1
            && r.0.users.Keys == st.users.Keys + {r.1}
            && r.0.users[r.1] == NewUser(nick, ident, host).(channels := {key}))
  {
    var c := HostmaskQuery(nick, ident, host);
    match GetUser(env, st, c)
    case Some(id) =>
      ReusedIsFound(env, st, id, key, c);
      (Link(st, id, key), id)
    case None =>
      RegisteredIsFound(env, st, nick, ident, host, key);
      (Link(Register(st, nick, ident, host), st.nextId, key), st.nextId)
  }

  /** Joining touches only the joined channel and the joining user. */
  lemma JoinFrame(env: Env, st: State, nick: string, ident: string, host: string, key: string)
    requires Valid(st) && key in st.channels
    ensures var (s1, id) := UserJoinChannel(env, st, nick, ident, host, key);
      && s1.channels.Keys == st.channels.Keys
      && s1.channels[key].users == st.channels[key].users + {id}
      && (forall j :: j in st.users && j != id ==> s1.users[j] == st.users[j])
      && (forall k :: k in st.channels && k != key ==> s1.channels[k] == st.channels[k])
  {
  }

  /** `user_channel_part` then `user_check_lost_track`: drop the edge on both
      sides; the user leaves the registry exactly when no channel is left. */
  function UserChannelPart(st: State, id: UserId, key: string): (r: State)
    requires id in st.users && key in st.channels
    ensures SameSession(st, r) && r.nextId == st.nextId
    ensures r.channels.Keys == st.channels.Keys
    ensures r.channels[key] == st.channels[key].(users := st.channels[key].users - {id})
    ensures forall k :: k in st.channels && k != key ==> r.channels[k] == st.channels[k]
    ensures id in r.users <==> st.users[id].channels - {key} != {}
    ensures id in r.users ==> r.users[id] == st.users[id].(channels := st.users[id].channels - {key})
    ensures forall j :: j != id ==> (j in r.users <==> j in st.users)
    ensures forall j :: j != id && j in st.users ==> r.users[j] == st.users[j]
  {
    var p := Unlink(st, id, key);
    if p.users[id].channels == {} then p.(users := p.users - {id}) else p
  }

  /** Parting keeps the tracking invariant: the edges stay reciprocal and a
      user whose last channel went is no longer registered. */
  lemma PartKeepsValid(st: State, id: UserId, key: string)
    requires Valid(st) && id in st.users && key in st.channels
    ensures Valid(UserChannelPart(st, id, key))
  {
    var p := Unlink(st, id, key);
    UnlinkKeepsLinks(st, id, key);
    if p.users[id].channels == {} {
      var r := p.(users := p.users - {id});
      forall k, j | k in r.channels && j in r.channels[k].users
        ensures j in r.users && k in r.users[j].channels
      {
        assert j in p.users && k in p.users[j].channels;
      }
    }
  }

  /** What part of `self_part_channel` has done so far: the members still
      listed are untouched, the ones parted lost the channel, or were
      evicted if it was their only one. */
  ghost predicate SelfPartSoFar(st: State, s: State, key: string) {
    && SameSession(st, s) && s.nextId == st.nextId
    && key in st.channels && key in s.channels && s.channels.Keys == st.channels.Keys
    && (forall k :: k in st.channels && k != key ==> s.channels[k] == st.channels[k])
    && s.channels[key] == st.channels[key].(users := s.channels[key].users)
    && (forall id :: id in s.users <==>
          id in st.users && (id in s.channels[key].users || st.users[id].channels != {key}))
    && (forall id :: id in s.users && id in s.channels[key].users ==> s.users[id] == st.users[id])
    && (forall id :: id in s.users && id !in s.channels[key].users ==>
          s.users[id] == st.users[id].(channels := st.users[id].channels - {key}))
  }

  lemma SelfPartStep(st: State, s: State, key: string, id: UserId)
    requires MembersLinked(s) && SelfPartSoFar(st, s, key) && id in s.channels[key].users
    ensures id in s.users
    ensures SelfPartSoFar(st, UserChannelPart(s, id, key), key)
  {
    assert key in s.users[id].channels;
    var r := UserChannelPart(s, id, key);
    forall j ensures j in r.users <==>
      j in st.users && (j in r.channels[key].users || st.users[j].channels != {key})
    {
      if j == id {
        assert s.users[id] == st.users[id];
      }
    }
  }

  /** `self_part_channel`: part every member from the channel, then drop
      the channel itself. Members who shared only this channel are evicted;
      everyone else just loses the channel. */
  method SelfPartChannel(st: State, key: string) returns (r: State)
    requires Valid(st) && key in st.channels
    ensures Valid(r) && SameSession(st, r) && r.nextId == st.nextId
    ensures r.channels == st.channels - {key}
    ensures forall id :: id in r.users <==> id in st.users && st.users[id].channels != {key}
    ensures forall id :: id in r.users ==> r.users[id] == st.users[id].(channels := st.users[id].channels - {key})
  {
    var s := st;
    while s.channels[key].users != {}
      invariant Valid(s) && SelfPartSoFar(st, s, key)
      decreases |s.channels[key].users|
    {
      var id :| id in s.channels[key].users;
      SelfPartStep(st, s, key, id);
      PartKeepsValid(s, id, key);
      s := UserChannelPart(s, id, key);
    }
    SelfPartDone(st, s, key);
    r := s.(channels := s.channels - {key});
  }

  /** Once no member is left, dropping the channel keeps the invariant:
      nobody still lists it. */
  lemma SelfPartDone(st: State, s: State, key: string)
    requires Valid(s) && SelfPartSoFar(st, s, key) && s.channels[key].users == {}
    ensures var r := s.(channels := s.channels - {key});
      && Valid(r) && r.channels == st.channels - {key}
      && (forall id :: id in r.users <==> id in st.users && st.users[id].channels != {key})
      && (forall id :: id in r.users ==> r.users[id] == st.users[id].(channels := st.users[id].channels - {key}))
  {
    var r := s.(channels := s.channels - {key});
    forall j, k | j in r.users && k in r.users[j].channels
      ensures k in r.channels && j in r.channels[k].users
    {
      assert k != key;
    }
    assert UsersLinked(r);
    assert MembersLinked(r);
    assert IdsIssued(r) && NoneLost(r);
  }

  /** What the QUIT loop has done so far: the user is parted from the
      snapshot channels no longer in `todo`, and nothing else changed. */
  ghost predicate QuitSoFar(st: State, s: State, id: UserId, todo: set<string>) {
    && id in st.users
    && SameSession(st, s) && s.nextId == st.nextId
    && todo <= st.users[id].channels
    && (id in s.users <==> todo != {})
    && (todo != {} ==> s.users[id] == st.users[id].(channels := todo))
    && (forall j :: j != id ==> (j in s.users <==> j in st.users))
    && (forall j :: j != id && j in st.users ==> s.users[j] == st.users[j])
    && s.channels.Keys == st.channels.Keys
    && (forall k :: k in st.channels && k in st.users[id].channels && k !in todo ==>
          s.channels[k] == st.channels[k].(users := st.channels[k].users - {id}))
    && (forall k :: k in st.channels && (k !in st.users[id].channels || k in todo) ==>
          s.channels[k] == st.channels[k])
  }

  lemma QuitStep(st: State, s: State, id: UserId, todo: set<string>, k: string)
    requires UsersLinked(st) && QuitSoFar(st, s, id, todo) && k in todo
    ensures id in s.users && k in s.channels
    ensures QuitSoFar(st, UserChannelPart(s, id, k), id, todo - {k})
  {
    assert k in st.channels;
    var r := UserChannelPart(s, id, k);
    var t := todo - {k};
    assert s.users[id].channels == todo;
    assert id in r.users <==> t != {};
    forall k2 | k2 in st.channels && k2 in st.users[id].channels && k2 !in t
      ensures r.channels[k2] == st.channels[k2].(users := st.channels[k2].users - {id})
    {
      if k2 == k {
        assert s.channels[k] == st.channels[k];
      }
    }
  }

  /** The QUIT path: part the user from every channel in a snapshot of its
      channel set. The user ends up evicted and listed by no channel;
      nothing else changes. */
  method PartEverywhere(st: State, id: UserId) returns (r: State)
    requires Valid(st) && id in st.users
    ensures Valid(r) && SameSession(st, r) && r.nextId == st.nextId
    ensures r.users == st.users - {id}
    ensures r.channels.Keys == st.channels.Keys
    ensures forall k :: k in st.channels ==>
      r.channels[k] == st.channels[k].(users := st.channels[k].users - {id})
  {
    var s := st;
    var todo := st.users[id].channels;
    while todo != {}
      invariant Valid(s) && QuitSoFar(st, s, id, todo)
      decreases todo
    {
      var k :| k in todo;
      QuitStep(st, s, id, todo, k);
      PartKeepsValid(s, id, k);
      s := UserChannelPart(s, id, k);
      todo := todo - {k};
    }
    forall k | k in st.channels
      ensures s.channels[k] == st.channels[k].(users := st.channels[k].users - {id})
    {
      if k !in st.users[id].channels {
        assert id !in st.channels[k].users;
        assert st.channels[k].users - {id} == st.channels[k].users;
      }
    }
    r := s;
  }
}
