/** The registry of live connections and its three indexes. */
module ConnectionManagers {
  import opened MachineInts

  type Id = nat

  /** A connection's record; the outgoing channel and the roles play no part here. */
  datatype Handle = Handle(userId: string, tenantId: string, lastActivity: int, subscriptions: set<string>)

  type Connections = map<Id, Handle>

  datatype Limits = Limits(maxConnections: nat, maxConnectionsPerUser: nat, maxSubscriptionsPerConnection: nat)

  datatype RegisterResult =
    | Registered
    | TotalLimitExceeded(current: nat, max: nat)
    | UserLimitExceeded(current: nat, max: nat)

  datatype SubscribeResult = Subscribed | ConnectionNotFound | SubscriptionLimitExceeded(current: nat, max: nat)

  // ---- what the indexes should hold ----

  function OfUser(connections: Connections, user: string): set<Id> {
    set c | c in connections && connections[c].userId == user
  }

  function OfTenant(connections: Connections, tenant: string): set<Id> {
    set c | c in connections && connections[c].tenantId == tenant
  }

  function OfChannel(connections: Connections, channel: string): set<Id> {
    set c | c in connections && channel in connections[c].subscriptions
  }

  predicate NoRepeats<T(==)>(s: seq<T>) {
    forall i, j :: 0 <= i < j < |s| ==> s[i] != s[j]
  }

  function Elements<T>(s: seq<T>): set<T> {
    set x | x in s
  }

  ghost predicate UserIndexed(connections: Connections, users: map<string, seq<Id>>) {
    && (forall u :: u in users ==>
          users[u] != [] && NoRepeats(users[u]) && Elements(users[u]) == OfUser(connections, u))
    && (forall c :: c in connections ==> connections[c].userId in users)
  }

  ghost predicate TenantIndexed(connections: Connections, tenants: map<string, set<Id>>) {
    && (forall t :: t in tenants ==> tenants[t] != {} && tenants[t] == OfTenant(connections, t))
    && (forall c :: c in connections ==> connections[c].tenantId in tenants)
  }

  ghost predicate ChannelIndexed(connections: Connections, channels: map<string, set<Id>>) {
    && (forall ch :: ch in channels ==> channels[ch] != {} && channels[ch] == OfChannel(connections, ch))
    && (forall c, ch :: c in connections && ch in connections[c].subscriptions ==> ch in channels)
  }

  // ---- what each operation does to the connections ----

  function WithSubscription(connections: Connections, id: Id, channel: string): Connections
    requires id in connections
  {
    connections[id := connections[id].(subscriptions := connections[id].subscriptions + {channel})]
  }

  function WithoutSubscription(connections: Connections, id: Id, channel: string): Connections {
    if id in connections
    then connections[id := connections[id].(subscriptions := connections[id].subscriptions - {channel})]
    else connections
  }

  /** An index entry gains an id, appearing if it was absent. */
  function Added(index: map<string, set<Id>>, key: string, id: Id): map<string, set<Id>> {
    index[key := (if key in index then index[key] else {}) + {id}]
  }

  /** An index entry loses an id, and goes when that was its last. */
  function Removed(index: map<string, set<Id>>, key: string, id: Id): map<string, set<Id>> {
    if key !in index then index
    else if index[key] - {id} == {} then index - {key}
    else index[key := index[key] - {id}]
  }

  function AddedUser(users: map<string, seq<Id>>, user: string, id: Id): map<string, seq<Id>> {
    users[user := (if user in users then users[user] else []) + [id]]
  }

  function RemovedUser(users: map<string, seq<Id>>, user: string, id: Id): map<string, seq<Id>> {
    if user !in users then users
    else if Without(users[user], id) == [] then users - {user}
    else users[user := Without(users[user], id)]
  }

  function Without<T(==)>(s: seq<T>, x: T): seq<T> {
    if s == [] then [] else (if s[0] == x then [] else [s[0]]) + Without(s[1..], x)
  }

  lemma {:induction false} WithoutElements<T>(s: seq<T>, x: T)
    ensures Elements(Without(s, x)) == Elements(s) - {x}
    ensures NoRepeats(s) ==> NoRepeats(Without(s, x))
  {
    if s != [] {
      WithoutElements(s[1..], x);
      var w := Without(s[1..], x);
      assert Elements(s) == {s[0]} + Elements(s[1..]);
      assert s[0] != x ==> Elements([s[0]] + w) == {s[0]} + Elements(w);
      if NoRepeats(s) && s[0] != x {
        forall j | 0 <= j < |w|
          ensures w[j] != s[0]
        {
          assert w[j] in Elements(w);
          assert w[j] in Elements(s[1..]);
        }
      }
    }
  }

  const NANOS := 1_000_000_000

  /** Activity is remembered in whole seconds; the clock here is in nanoseconds. The timeout is cast to a
      signed integer. */
  predicate StaleAt(h: Handle, timeoutSecs: nat, now: int) {
    now - h.lastActivity * NANOS > AsI64(timeoutSecs) * NANOS
  }

  function Active(connections: Connections, timeoutSecs: nat, now: int): Connections {
    map c | c in connections && !StaleAt(connections[c], timeoutSecs, now) :: connections[c]
  }

  class ConnectionManager {
    var connections: Connections
    var userIndex: map<string, seq<Id>>
    var channelIndex: map<string, set<Id>>
    var tenantIndex: map<string, set<Id>>
    const limits: Limits

    ghost predicate Valid()
      reads this
    {
      && UserIndexed(connections, userIndex)
      && TenantIndexed(connections, tenantIndex)
      && ChannelIndexed(connections, channelIndex)
    }

    constructor (limits: Limits)
      ensures Valid() && connections == map[] && this.limits == limits
    {
      connections, userIndex, channelIndex, tenantIndex := map[], map[], map[], map[];
      this.limits := limits;
    }

    /** `id` stands for the fresh UUID of the new handle. */
    method RegisterWithLimits(user: string, tenant: string, id: Id, now: int, limits: Limits)
      returns (r: RegisterResult)
      requires Valid() && id !in connections
      modifies this
      ensures Valid()
      ensures var count := |old(connections)|;
        var ofUser := if user in old(userIndex) then |old(userIndex)[user]| else 0;
        r == if limits.maxConnections > 0 && count >= limits.maxConnections
             then TotalLimitExceeded(count, limits.maxConnections)
             else if limits.maxConnectionsPerUser > 0 && ofUser >= limits.maxConnectionsPerUser
             then UserLimitExceeded(ofUser, limits.maxConnectionsPerUser)
             else Registered
      ensures r.Registered? ==>
        connections == old(connections)[id := Handle(user, tenant, now, {})] &&
        userIndex == old(userIndex)[user := (if user in old(userIndex) then old(userIndex)[user] else []) + [id]]
      ensures !r.Registered? ==> unchanged(this)
    {
      if limits.maxConnections > 0 && |connections| >= limits.maxConnections {
        return TotalLimitExceeded(|connections|, limits.maxConnections);
      }
      if limits.maxConnectionsPerUser > 0 {
        var userConnCount := if user in userIndex then |userIndex[user]| else 0;
        if userConnCount >= limits.maxConnectionsPerUser {
          return UserLimitExceeded(userConnCount, limits.maxConnectionsPerUser);
        }
      }
      ghost var before := connections;
      connections := connections[id := Handle(user, tenant, now, {})];
      userIndex := userIndex[user := (if user in userIndex then userIndex[user] else []) + [id]];
      tenantIndex := tenantIndex[tenant := (if tenant in tenantIndex then tenantIndex[tenant] else {}) + {id}];
      var h := connections[id];
      RegisterIndexes(before, old(userIndex), old(tenantIndex), channelIndex, id, h);
      r := Registered;
    }

    method Register(user: string, tenant: string, id: Id, now: int) returns (r: RegisterResult)
      requires Valid() && id !in connections
      modifies this
      ensures Valid()
      ensures r.Registered? ==> connections == old(connections)[id := Handle(user, tenant, now, {})]
      ensures !r.Registered? ==> unchanged(this)
      ensures r.Registered? <==>
        (limits.maxConnections == 0 || |old(connections)| < limits.maxConnections) &&
        (limits.maxConnectionsPerUser == 0 || |OfUser(old(connections), user)| < limits.maxConnectionsPerUser)
    {
      UserCount(connections, userIndex, user);
      r := RegisterWithLimits(user, tenant, id, now, limits);
    }

    method Unregister(id: Id)
      requires Valid()
      modifies this
      ensures Valid()
      ensures connections == old(connections) - {id}
    {
      if id !in connections {
        assert connections == connections - {id};
        return;
      }
      ghost var before := connections;
      var handle := connections[id];
      connections := connections - {id};
      RemoveFromUser(id, handle.userId);
      UnregisterUser(before, old(userIndex), id);
      RemoveFromTenant(id, handle.tenantId);
      UnregisterTenant(before, old(tenantIndex), id);
      RemoveFromChannels(id, handle.subscriptions, before);
    }

    method RemoveFromUser(id: Id, user: string)
      modifies this`userIndex
      ensures userIndex == RemovedUser(old(userIndex), user, id)
    {
      if user in userIndex {
        var userConns := Without(userIndex[user], id);
        if userConns == [] {
          userIndex := userIndex - {user};
        } else {
          userIndex := userIndex[user := userConns];
        }
      }
    }

    method RemoveFromTenant(id: Id, tenant: string)
      modifies this`tenantIndex
      ensures tenantIndex == Removed(old(tenantIndex), tenant, id)
    {
      if tenant in tenantIndex {
        var tenantConns := tenantIndex[tenant] - {id};
        if tenantConns == {} {
          tenantIndex := tenantIndex - {tenant};
        } else {
          tenantIndex := tenantIndex[tenant := tenantConns];
        }
      }
    }

    /** Takes the connection out of the channels it was subscribed to, one by one. */
    method RemoveFromChannels(id: Id, subscriptions: set<string>, ghost before: Connections)
      requires id in before && before[id].subscriptions == subscriptions
      requires ChannelIndexed(before, channelIndex)
      modifies this`channelIndex
      ensures ChannelIndexed(before - {id}, channelIndex)
    {
      var remaining := subscriptions;
      ghost var still := before;
      while remaining != {}
        invariant still == before[id := before[id].(subscriptions := remaining)]
        invariant ChannelIndexed(still, channelIndex)
        decreases remaining
      {
        var channel :| channel in remaining;
        remaining := remaining - {channel};
        UnsubscribeChannel(still, channelIndex, id, channel);
        still := WithoutSubscription(still, id, channel);
        RemoveFromChannel(id, channel);
      }
      UnregisterChannels(still, channelIndex, id);
      assert still - {id} == before - {id};
    }

    method RemoveFromChannel(id: Id, channel: string)
      modifies this`channelIndex
      ensures channelIndex == Removed(old(channelIndex), channel, id)
    {
      if channel in channelIndex {
        var channelConns := channelIndex[channel] - {id};
        if channelConns == {} {
          channelIndex := channelIndex - {channel};
        } else {
          channelIndex := channelIndex[channel := channelConns];
        }
      }
    }

    method SubscribeToChannel(id: Id, channel: string) returns (r: SubscribeResult)
      requires Valid()
      modifies this
      ensures Valid()
      ensures r ==
        if id !in old(connections) then ConnectionNotFound
        else
          var count := |old(connections)[id].subscriptions|;
          var max := limits.maxSubscriptionsPerConnection;
          if max > 0 && count >= max then SubscriptionLimitExceeded(count, max) else Subscribed
      ensures connections == if r.Subscribed? then WithSubscription(old(connections), id, channel) else old(connections)
      ensures !r.Subscribed? ==> unchanged(this)
    {
      if id in connections {
        var handle := connections[id];
        if limits.maxSubscriptionsPerConnection > 0 {
          var current := |handle.subscriptions|;
          if current >= limits.maxSubscriptionsPerConnection {
            return SubscriptionLimitExceeded(current, limits.maxSubscriptionsPerConnection);
          }
        }
        ghost var before := connections;
        connections := connections[id := handle.(subscriptions := handle.subscriptions + {channel})];
        channelIndex := channelIndex[channel := (if channel in channelIndex then channelIndex[channel] else {}) + {id}];
        SubscribeIndexes(before, userIndex, tenantIndex, old(channelIndex), id, channel);
        r := Subscribed;
      } else {
        r := ConnectionNotFound;
      }
    }

    method UnsubscribeFromChannel(id: Id, channel: string)
      requires Valid()
      modifies this
      ensures Valid()
      ensures connections == WithoutSubscription(old(connections), id, channel)
    {
      if id in connections {
        ghost var before := connections;
        var handle := connections[id];
        connections := connections[id := handle.(subscriptions := handle.subscriptions - {channel})];
        UnsubscribeIndexes(before, userIndex, tenantIndex, channelIndex, id, channel);
        RemoveFromChannel(id, channel);
      }
    }

    method FindStaleConnections(timeoutSecs: nat, now: int) returns (stale: seq<Id>)
      ensures NoRepeats(stale)
      ensures forall c :: c in stale <==> c in connections && StaleAt(connections[c], timeoutSecs, now)
    {
      stale := [];
      var timeout := AsI64(timeoutSecs) * NANOS;
      var ids := connections.Keys;
      while ids != {}
        invariant ids <= connections.Keys
        invariant NoRepeats(stale)
        invariant forall c :: c in stale <==> c in connections && c !in ids && StaleAt(connections[c], timeoutSecs, now)
        decreases ids
      {
        var c :| c in ids;
        ids := ids - {c};
        if now - connections[c].lastActivity * NANOS > timeout {
          stale := stale + [c];
        }
      }
    }

    method CleanupStaleConnections(timeoutSecs: nat, now: int) returns (count: nat)
      requires Valid()
      modifies this
      ensures Valid()
      ensures connections == Active(old(connections), timeoutSecs, now)
      ensures count == |old(connections)| - |connections|
    {
      var stale := FindStaleConnections(timeoutSecs, now);
      count := |stale|;
      StaleRemoved(connections, stale, timeoutSecs, now);
      UnregisterAll(stale);
    }

    method UnregisterAll(ids: seq<Id>)
      requires Valid()
      modifies this
      ensures Valid()
      ensures connections == old(connections) - Elements(ids)
    {
      ghost var before := connections;
      for i := 0 to |ids|
        invariant Valid()
        invariant connections == before - Elements(ids[..i])
      {
        Unregister(ids[i]);
        ElementsNext(ids, i);
        OneLess(before, Elements(ids[..i]), ids[i]);
      }
      assert ids[..|ids|] == ids;
    }

    method GetUserConnections(user: string) returns (found: seq<Id>)
      requires Valid()
      ensures NoRepeats(found) && Elements(found) == OfUser(connections, user)
      ensures found == if user in userIndex then userIndex[user] else []
    {
      UserCount(connections, userIndex, user);
      var ids := if user in userIndex then userIndex[user] else [];
      assert forall c :: c in ids ==> c in Elements(ids);
      found := Lookup(ids);
    }

    method GetChannelConnections(channel: string) returns (found: seq<Id>)
      requires Valid()
      ensures NoRepeats(found) && Elements(found) == OfChannel(connections, channel)
    {
      var ids := Listing(if channel in channelIndex then channelIndex[channel] else {});
      found := Lookup(ids);
      assert channel !in channelIndex ==> OfChannel(connections, channel) == {};
    }

    method GetTenantConnections(tenant: string) returns (found: seq<Id>)
      requires Valid()
      ensures NoRepeats(found) && Elements(found) == OfTenant(connections, tenant)
    {
      var ids := Listing(if tenant in tenantIndex then tenantIndex[tenant] else {});
      found := Lookup(ids);
      assert tenant !in tenantIndex ==> OfTenant(connections, tenant) == {};
    }

    /** The ids that are still registered, in order. */
    method Lookup(ids: seq<Id>) returns (found: seq<Id>)
      requires NoRepeats(ids)
      ensures NoRepeats(found) && Elements(found) == set c | c in ids && c in connections
      ensures (forall c :: c in ids ==> c in connections) ==> found == ids
    {
      found := [];
      for i := 0 to |ids|
        invariant NoRepeats(found) && forall c :: c in found <==> c in ids[..i] && c in connections
        invariant (forall c :: c in ids ==> c in connections) ==> found == ids[..i]
      {
        assert ids[i] !in ids[..i];
        assert ids[..i + 1] == ids[..i] + [ids[i]];
        if ids[i] in connections {
          found := found + [ids[i]];
        }
      }
      assert ids[..|ids|] == ids;
    }

    /** The sum of the channel index's entry sizes. */
    method TotalSubscriptions() returns (total: nat)
      requires Valid()
      ensures total == Sum(SubscriptionCounts(connections))
    {
      total := 0;
      var channels := channelIndex.Keys;
      assert Only(channelIndex, channels) == channelIndex;
      while channels != {}
        invariant channels <= channelIndex.Keys
        invariant total + Sum(Sizes(Only(channelIndex, channels))) == Sum(Sizes(channelIndex))
        decreases channels
      {
        var channel :| channel in channels;
        SumWithout(channelIndex, channels, channel);
        channels := channels - {channel};
        total := total + |channelIndex[channel]|;
      }
      SubscriptionsCountedTwice(connections, channelIndex);
    }
  }

  /** After `seconds` whole seconds and a fraction without activity a connection is kept while it has not been
      idle for longer than the timeout, to the nanosecond; a timeout that the cast makes negative keeps none. */
  lemma StaleExactly(h: Handle, timeoutSecs: nat, seconds: nat, fraction: nat)
    requires fraction < 1_000_000_000
    ensures var now := (h.lastActivity + seconds) * 1_000_000_000 + fraction;
      && (timeoutSecs < 0x8000_0000_0000_0000 ==>
            (StaleAt(h, timeoutSecs, now) <==> seconds > timeoutSecs || (seconds == timeoutSecs && fraction > 0)))
      && (0x8000_0000_0000_0000 <= timeoutSecs < 0x1_0000_0000_0000_0000 ==> StaleAt(h, timeoutSecs, now))
  {
    var now := (h.lastActivity + seconds) * 1_000_000_000 + fraction;
    assert now - h.lastActivity * NANOS == seconds * NANOS + fraction;
  }

  lemma StaleRemoved(connections: Connections, stale: seq<Id>, timeoutSecs: nat, now: int)
    requires NoRepeats(stale)
    requires forall c :: c in stale <==> c in connections && StaleAt(connections[c], timeoutSecs, now)
    ensures connections - Elements(stale) == Active(connections, timeoutSecs, now)
    ensures |stale| == |connections| - |Active(connections, timeoutSecs, now)|
  {
    NoRepeatsCount(stale);
    assert Active(connections, timeoutSecs, now).Keys == connections.Keys - Elements(stale);
    assert Elements(stale) <= connections.Keys;
  }

  lemma ElementsNext<T>(s: seq<T>, i: nat)
    requires i < |s|
    ensures Elements(s[..i + 1]) == Elements(s[..i]) + {s[i]}
  {
    assert s[..i + 1] == s[..i] + [s[i]];
  }

  lemma OneLess(connections: Connections, ids: set<Id>, id: Id)
    ensures connections - ids - {id} == connections - (ids + {id})
  {
  }

  /** A set in some order. */
  method Listing(ids: set<Id>) returns (s: seq<Id>)
    ensures NoRepeats(s) && Elements(s) == ids
  {
    s := [];
    var rest := ids;
    while rest != {}
      invariant rest <= ids && NoRepeats(s) && forall c :: c in s <==> c in ids && c !in rest
      decreases rest
    {
      var c :| c in rest;
      rest := rest - {c};
      s := s + [c];
    }
  }

  // ---- the indexes follow the connections ----

  lemma RegisterIndexes(
    connections: Connections, users: map<string, seq<Id>>, tenants: map<string, set<Id>>,
    channels: map<string, set<Id>>, id: Id, h: Handle)
    requires UserIndexed(connections, users) && TenantIndexed(connections, tenants)
      && ChannelIndexed(connections, channels)
    requires id !in connections && h.subscriptions == {}
    ensures UserIndexed(connections[id := h], AddedUser(users, h.userId, id))
    ensures TenantIndexed(connections[id := h], Added(tenants, h.tenantId, id))
    ensures ChannelIndexed(connections[id := h], channels)
  {
    RegisterUser(connections, users, id, h);
    RegisterTenant(connections, tenants, id, h);
    RegisterChannels(connections, channels, id, h);
  }

  lemma UserGains(connections: Connections, id: Id, h: Handle, user: string)
    requires id !in connections
    ensures OfUser(connections[id := h], user) == OfUser(connections, user) + if user == h.userId then {id} else {}
    ensures id !in OfUser(connections, user)
  {
  }

  lemma Appended<T>(s: seq<T>, x: T)
    requires NoRepeats(s) && x !in Elements(s)
    ensures NoRepeats(s + [x]) && Elements(s + [x]) == Elements(s) + {x}
  {
  }

  lemma RegisterUser(connections: Connections, users: map<string, seq<Id>>, id: Id, h: Handle)
    requires UserIndexed(connections, users) && id !in connections
    ensures UserIndexed(connections[id := h], AddedUser(users, h.userId, id))
  {
    var after, users' := connections[id := h], AddedUser(users, h.userId, id);
    UserCount(connections, users, h.userId);
    forall u | u in users'
      ensures users'[u] != [] && NoRepeats(users'[u]) && Elements(users'[u]) == OfUser(after, u)
    {
      UserGains(connections, id, h, u);
      if u == h.userId {
        var was := if u in users then users[u] else [];
        assert Elements(was) == OfUser(connections, u);
        Appended(was, id);
      }
    }
  }

  lemma RegisterTenant(connections: Connections, tenants: map<string, set<Id>>, id: Id, h: Handle)
    requires TenantIndexed(connections, tenants) && id !in connections
    ensures TenantIndexed(connections[id := h], Added(tenants, h.tenantId, id))
  {
    var after, tenants' := connections[id := h], Added(tenants, h.tenantId, id);
    assert h.tenantId !in tenants ==> OfTenant(connections, h.tenantId) == {};
    forall t | t in tenants'
      ensures tenants'[t] != {} && tenants'[t] == OfTenant(after, t)
    {
      assert OfTenant(after, t) == OfTenant(connections, t) + if t == h.tenantId then {id} else {};
    }
  }

  lemma RegisterChannels(connections: Connections, channels: map<string, set<Id>>, id: Id, h: Handle)
    requires ChannelIndexed(connections, channels) && id !in connections && h.subscriptions == {}
    ensures ChannelIndexed(connections[id := h], channels)
  {
    forall ch | ch in channels
      ensures channels[ch] == OfChannel(connections[id := h], ch)
    {
      assert OfChannel(connections[id := h], ch) == OfChannel(connections, ch);
    }
  }

  lemma UnregisterUser(before: Connections, users: map<string, seq<Id>>, id: Id)
    requires UserIndexed(before, users) && id in before
    ensures UserIndexed(before - {id}, RemovedUser(users, before[id].userId, id))
  {
    var u := before[id].userId;
    var after, users', left := before - {id}, RemovedUser(users, u, id), Without(users[u], id);
    WithoutElements(users[u], id);
    assert OfUser(after, u) == OfUser(before, u) - {id};
    forall v | v in users'
      ensures users'[v] != [] && NoRepeats(users'[v]) && Elements(users'[v]) == OfUser(after, v)
    {
      if v != u {
        assert OfUser(after, v) == OfUser(before, v);
      }
    }
    forall c | c in after
      ensures after[c].userId in users'
    {
      if after[c].userId == u {
        assert c in OfUser(after, u);
        assert c in Elements(left);
      }
    }
  }

  lemma UnregisterTenant(before: Connections, tenants: map<string, set<Id>>, id: Id)
    requires TenantIndexed(before, tenants) && id in before
    ensures TenantIndexed(before - {id}, Removed(tenants, before[id].tenantId, id))
  {
    var t := before[id].tenantId;
    var after, tenants' := before - {id}, Removed(tenants, t, id);
    assert OfTenant(after, t) == OfTenant(before, t) - {id};
    forall v | v in tenants'
      ensures tenants'[v] != {} && tenants'[v] == OfTenant(after, v)
    {
      if v != t {
        assert OfTenant(after, v) == OfTenant(before, v);
      }
    }
    forall c | c in after
      ensures after[c].tenantId in tenants'
    {
      assert c in OfTenant(after, after[c].tenantId);
    }
  }

  lemma UnregisterChannels(before: Connections, channels: map<string, set<Id>>, id: Id)
    requires ChannelIndexed(before, channels) && id in before && before[id].subscriptions == {}
    ensures ChannelIndexed(before - {id}, channels)
  {
    forall ch | ch in channels
      ensures channels[ch] == OfChannel(before - {id}, ch)
    {
      assert OfChannel(before - {id}, ch) == OfChannel(before, ch);
    }
  }

  lemma SubscribeChannel(before: Connections, channels: map<string, set<Id>>, id: Id, channel: string)
    requires ChannelIndexed(before, channels) && id in before
    ensures ChannelIndexed(WithSubscription(before, id, channel), Added(channels, channel, id))
  {
    var after, channels' := WithSubscription(before, id, channel), Added(channels, channel, id);
    assert channel !in channels ==> OfChannel(before, channel) == {};
    forall ch | ch in channels'
      ensures channels'[ch] != {} && channels'[ch] == OfChannel(after, ch)
    {
      assert OfChannel(after, ch) == OfChannel(before, ch) + if ch == channel then {id} else {};
    }
    forall c, ch | c in after && ch in after[c].subscriptions
      ensures ch in channels'
    {
      assert ch == channel || ch in before[c].subscriptions;
    }
  }

  lemma UnsubscribeChannel(before: Connections, channels: map<string, set<Id>>, id: Id, channel: string)
    requires ChannelIndexed(before, channels) && id in before
    ensures ChannelIndexed(WithoutSubscription(before, id, channel), Removed(channels, channel, id))
  {
    var after, channels' := WithoutSubscription(before, id, channel), Removed(channels, channel, id);
    assert OfChannel(after, channel) == OfChannel(before, channel) - {id};
    forall ch | ch in channels'
      ensures channels'[ch] != {} && channels'[ch] == OfChannel(after, ch)
    {
      if ch != channel {
        assert OfChannel(after, ch) == OfChannel(before, ch);
      } else {
        assert channels[ch] == OfChannel(before, ch);
      }
    }
    forall c, ch | c in after && ch in after[c].subscriptions
      ensures ch in channels'
    {
      assert ch in before[c].subscriptions;
      assert c in OfChannel(after, ch);
    }
  }

  lemma SubscribeIndexes(
    before: Connections, users: map<string, seq<Id>>, tenants: map<string, set<Id>>, channels: map<string, set<Id>>,
    id: Id, channel: string)
    requires UserIndexed(before, users) && TenantIndexed(before, tenants) && ChannelIndexed(before, channels)
    requires id in before
    ensures var after := WithSubscription(before, id, channel);
      UserIndexed(after, users) && TenantIndexed(after, tenants) && ChannelIndexed(after, Added(channels, channel, id))
  {
    SubscriptionsOnly(before, WithSubscription(before, id, channel), users, tenants, id);
    SubscribeChannel(before, channels, id, channel);
  }

  lemma UnsubscribeIndexes(
    before: Connections, users: map<string, seq<Id>>, tenants: map<string, set<Id>>, channels: map<string, set<Id>>,
    id: Id, channel: string)
    requires UserIndexed(before, users) && TenantIndexed(before, tenants) && ChannelIndexed(before, channels)
    requires id in before
    ensures var after := WithoutSubscription(before, id, channel);
      UserIndexed(after, users) && TenantIndexed(after, tenants)
        && ChannelIndexed(after, Removed(channels, channel, id))
  {
    SubscriptionsOnly(before, WithoutSubscription(before, id, channel), users, tenants, id);
    UnsubscribeChannel(before, channels, id, channel);
  }

  /** A change of subscriptions leaves the other two indexes right. */
  lemma SubscriptionsOnly(
    before: Connections, after: Connections, users: map<string, seq<Id>>, tenants: map<string, set<Id>>, id: Id)
    requires id in before && after.Keys == before.Keys
    requires forall c :: c in before && c != id ==> after[c] == before[c]
    requires after[id].(subscriptions := before[id].subscriptions) == before[id]
    requires UserIndexed(before, users) && TenantIndexed(before, tenants)
    ensures UserIndexed(after, users) && TenantIndexed(after, tenants)
  {
    assert forall u :: OfUser(after, u) == OfUser(before, u);
    assert forall t :: OfTenant(after, t) == OfTenant(before, t);
    assert forall c :: c in after ==> after[c].userId == before[c].userId && after[c].tenantId == before[c].tenantId;
  }

  lemma UserCount(connections: Connections, users: map<string, seq<Id>>, user: string)
    requires UserIndexed(connections, users)
    ensures user !in users ==> OfUser(connections, user) == {}
    ensures user in users ==> |users[user]| == |OfUser(connections, user)|
  {
    if user in users {
      NoRepeatsCount(users[user]);
    }
  }

  lemma {:induction false} NoRepeatsCount<T>(s: seq<T>)
    requires NoRepeats(s)
    ensures |Elements(s)| == |s|
  {
    if s != [] {
      NoRepeatsCount(s[1..]);
      assert Elements(s) == {s[0]} + Elements(s[1..]);
    }
  }

  /** The connections leave no freedom to the indexes, but for the order of a user's connections. */
  lemma IndexesDetermined(a: ConnectionManager, b: ConnectionManager)
    requires a.Valid() && b.Valid() && a.connections == b.connections
    ensures a.tenantIndex == b.tenantIndex && a.channelIndex == b.channelIndex
    ensures a.userIndex.Keys == b.userIndex.Keys
    ensures forall u :: u in a.userIndex ==> multiset(a.userIndex[u]) == multiset(b.userIndex[u])
  {
    var c := a.connections;
    forall t | t in a.tenantIndex || t in b.tenantIndex
      ensures t in a.tenantIndex && t in b.tenantIndex
    {
      var i :| i in OfTenant(c, t);
    }
    forall ch | ch in a.channelIndex || ch in b.channelIndex
      ensures ch in a.channelIndex && ch in b.channelIndex
    {
      var i :| i in OfChannel(c, ch);
    }
    forall u | u in a.userIndex || u in b.userIndex
      ensures u in a.userIndex && u in b.userIndex && multiset(a.userIndex[u]) == multiset(b.userIndex[u])
    {
      var s := if u in a.userIndex then a.userIndex[u] else b.userIndex[u];
      assert s[0] in Elements(s);
      assert s[0] in OfUser(c, u);
      NoRepeatsMultiset(a.userIndex[u]);
      NoRepeatsMultiset(b.userIndex[u]);
    }
  }

  lemma {:induction false} NoRepeatsMultiset<T>(s: seq<T>)
    requires NoRepeats(s)
    ensures multiset(s) == multiset(Elements(s))
  {
    if s != [] {
      NoRepeatsMultiset(s[1..]);
      assert s == [s[0]] + s[1..];
      assert Elements(s) == {s[0]} + Elements(s[1..]);
      assert s[0] !in Elements(s[1..]);
    }
  }

  // ---- counting ----

  ghost function Sum<K>(m: map<K, nat>): nat
  {
    if m == map[] then 0
    else
      var k :| k in m;
      assert (m - {k}).Keys == m.Keys - {k};
      m[k] + Sum(m - {k})
  }

  function Sizes<K, T>(m: map<K, set<T>>): map<K, nat> {
    map k | k in m :: |m[k]|
  }

  function Only<K, T>(m: map<K, T>, keys: set<K>): map<K, T> {
    map k | k in m && k in keys :: m[k]
  }

  function Subscriptions(connections: Connections): map<Id, set<string>> {
    map c | c in connections :: connections[c].subscriptions
  }

  function SubscriptionCounts(connections: Connections): map<Id, nat> {
    Sizes(Subscriptions(connections))
  }

  function Pairs<K, T>(m: map<K, set<T>>): set<(K, T)> {
    set k, x | k in m && x in m[k] :: (k, x)
  }

  lemma {:induction false} SumRemove<K>(m: map<K, nat>, k: K)
    requires k in m
    ensures Sum(m) == m[k] + Sum(m - {k})
    decreases |m|
  {
    var first :| first in m && Sum(m) == m[first] + Sum(m - {first});
    assert |m - {first}| < |m| && |m - {k}| < |m| by {
      assert (m - {first}).Keys == m.Keys - {first} && (m - {k}).Keys == m.Keys - {k};
    }
    if first != k {
      SumRemove(m - {first}, k);
      SumRemove(m - {k}, first);
      assert m - {first} - {k} == m - {k} - {first};
    }
  }

  lemma SumWithout<K, T>(m: map<K, set<T>>, keys: set<K>, k: K)
    requires k in keys && keys <= m.Keys
    ensures Sum(Sizes(Only(m, keys))) == |m[k]| + Sum(Sizes(Only(m, keys - {k})))
  {
    SumRemove(Sizes(Only(m, keys)), k);
    assert Sizes(Only(m, keys)) - {k} == Sizes(Only(m, keys - {k}));
  }

  lemma {:induction false} SumCountsPairs<K, T>(m: map<K, set<T>>)
    ensures Sum(Sizes(m)) == |Pairs(m)|
    decreases |m|
  {
    if m == map[] {
      assert Sizes(m) == map[];
    } else {
      var k :| k in m;
      assert (m - {k}).Keys == m.Keys - {k};
      SumRemove(Sizes(m), k);
      assert Sizes(m) - {k} == Sizes(m - {k});
      SumCountsPairs(m - {k});
      PairsRemove(m, k);
    }
  }

  lemma PairsRemove<K, T>(m: map<K, set<T>>, k: K)
    requires k in m
    ensures |Pairs(m)| == |m[k]| + |Pairs(m - {k})|
  {
    var row := set x | x in m[k] :: (k, x);
    RowCount(k, m[k]);
    assert row !! Pairs(m - {k});
    assert Pairs(m) == row + Pairs(m - {k});
  }

  lemma {:induction false} RowCount<K, T>(k: K, s: set<T>)
    ensures |set x | x in s :: (k, x)| == |s|
    decreases s
  {
    if s != {} {
      var x :| x in s;
      RowCount(k, s - {x});
      assert (set y | y in s :: (k, y)) == (set y | y in s - {x} :: (k, y)) + {(k, x)};
    }
  }

  lemma {:induction false} FlipCount<A, B>(s: set<(A, B)>, t: set<(B, A)>)
    requires forall a, b :: (a, b) in s <==> (b, a) in t
    ensures |s| == |t|
    decreases s
  {
    if s == {} {
      assert forall p :: p in t ==> (p.1, p.0) in s;
    } else {
      var p :| p in s;
      var q := (p.1, p.0);
      assert (p.0, p.1) in s && q in t;
      FlipCount(s - {p}, t - {q});
    }
  }

  /** Counting subscriptions channel by channel or connection by connection gives the same number. */
  lemma SubscriptionsCountedTwice(connections: Connections, channels: map<string, set<Id>>)
    requires ChannelIndexed(connections, channels)
    ensures Sum(Sizes(channels)) == Sum(SubscriptionCounts(connections))
  {
    var subs := Subscriptions(connections);
    SumCountsPairs(channels);
    SumCountsPairs(subs);
    forall ch: string, c: Id
      ensures (ch, c) in Pairs(channels) <==> (c, ch) in Pairs(subs)
    {
      if (c, ch) in Pairs(subs) {
        assert c in OfChannel(connections, ch);
      }
      if (ch, c) in Pairs(channels) {
        assert c in OfChannel(connections, ch);
      }
    }
    FlipCount(Pairs(channels), Pairs(subs));
  }

  /** The tenants' connection counts add up to the number of connections. */
  lemma TenantCountsAddUp(connections: Connections, tenants: map<string, set<Id>>)
    requires TenantIndexed(connections, tenants)
    ensures Sum(Sizes(tenants)) == |connections|
  {
    SumCountsPairs(tenants);
    var ofTenant := map c | c in connections :: {connections[c].tenantId};
    SumCountsPairs(ofTenant);
    forall t: string, c: Id
      ensures (t, c) in Pairs(tenants) <==> (c, t) in Pairs(ofTenant)
    {
      if (c, t) in Pairs(ofTenant) || (t, c) in Pairs(tenants) {
        assert c in OfTenant(connections, t);
      }
    }
    FlipCount(Pairs(tenants), Pairs(ofTenant));
    OnesCount(Sizes(ofTenant));
    assert Sizes(ofTenant).Keys == connections.Keys;
  }

  lemma {:induction false} OnesCount<K>(m: map<K, nat>)
    requires forall k :: k in m ==> m[k] == 1
    ensures Sum(m) == |m|
    decreases |m|
  {
    if m != map[] {
      var k :| k in m;
      SumRemove(m, k);
      assert (m - {k}).Keys == m.Keys - {k};
      OnesCount(m - {k});
    }
  }
}
