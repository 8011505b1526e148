/** The cluster's session registry, kept in a shared store, and the router that uses it. */
module Cluster {
  import opened ConnectionManagers
  import opened Tenancy
  import opened Dispatchers

  type ServerId = string

  datatype Session = Session(userId: string, tenantId: string, serverId: ServerId)

  /** The shared store: session records, the servers of each user, and a connection count per server.
      Keys never expire here. */
  datatype Registry = Registry(
    sessions: map<Id, Session>, userServers: map<string, set<ServerId>>, counts: map<ServerId, int>)

  function ServersOf(r: Registry, user: string): set<ServerId> {
    if user in r.userServers then r.userServers[user] else {}
  }

  function CountOf(r: Registry, server: ServerId): int {
    if server in r.counts then r.counts[server] else 0
  }

  function SessionAdded(r: Registry, id: Id, session: Session): Registry {
    Registry(r.sessions[id := session],
             r.userServers[session.userId := ServersOf(r, session.userId) + {session.serverId}],
             r.counts[session.serverId := CountOf(r, session.serverId) + 1])
  }

  /** `local` is what the server still remembers of its connections, without `id`. */
  function SessionRemoved(r: Registry, server: ServerId, local: map<Id, string>, id: Id): Registry {
    if id !in r.sessions then r
    else
      var user := r.sessions[id].userId;
      Registry(r.sessions - {id},
               if exists c :: c in local && c != id && local[c] == user then r.userServers
               else r.userServers[user := ServersOf(r, user) - {server}],
               r.counts[server := CountOf(r, server) - 1])
  }

  class Redis {
    var sessions: map<Id, Session>
    var userServers: map<string, set<ServerId>>
    var counts: map<ServerId, int>

    function View(): Registry
      reads this
    {
      Registry(sessions, userServers, counts)
    }

    constructor ()
      ensures View() == Registry(map[], map[], map[])
    {
      sessions, userServers, counts := map[], map[], map[];
    }

    method AddToUserServers(user: string, server: ServerId)
      modifies this`userServers
      ensures userServers == old(userServers)[user := ServersOf(old(View()), user) + {server}]
    {
      userServers := userServers[user := (if user in userServers then userServers[user] else {}) + {server}];
    }

    method RemoveFromUserServers(user: string, server: ServerId)
      modifies this`userServers
      ensures userServers == old(userServers)[user := ServersOf(old(View()), user) - {server}]
    {
      userServers := userServers[user := (if user in userServers then userServers[user] else {}) - {server}];
    }

    method AddToCount(server: ServerId, delta: int)
      modifies this`counts
      ensures counts == old(counts)[server := CountOf(old(View()), server) + delta]
    {
      counts := counts[server := (if server in counts then counts[server] else 0) + delta];
    }
  }

  class SessionStore {
    const serverId: ServerId
    const redis: Redis
    var localConnections: map<Id, string>

    constructor (serverId: ServerId, redis: Redis)
      ensures this.serverId == serverId && this.redis == redis && localConnections == map[]
    {
      this.serverId, this.redis, localConnections := serverId, redis, map[];
    }

    method RegisterSession(id: Id, session: Session)
      requires session.serverId == serverId
      modifies this`localConnections, redis
      ensures redis.View() == SessionAdded(old(redis.View()), id, session)
      ensures localConnections == old(localConnections)[id := session.userId]
    {
      redis.sessions := redis.sessions[id := session];
      redis.AddToUserServers(session.userId, serverId);
      redis.AddToCount(serverId, 1);
      localConnections := localConnections[id := session.userId];
    }

    method UnregisterSession(id: Id)
      modifies this`localConnections, redis
      ensures localConnections == old(localConnections) - {id}
      ensures redis.View() == SessionRemoved(old(redis.View()), serverId, localConnections, id)
    {
      localConnections := localConnections - {id};
      if id in redis.sessions {
        var session := redis.sessions[id];
        var hasOthers := exists c :: c in localConnections && c != id && localConnections[c] == session.userId;
        redis.sessions := redis.sessions - {id};
        redis.AddToCount(serverId, -1);
        if !hasOthers {
          redis.RemoveFromUserServers(session.userId, serverId);
        }
      }
    }

    /** `answers` says whether the lookup succeeds. */
    method FindUserServers(user: string, answers: bool) returns (servers: Option<set<ServerId>>)
      ensures servers == if answers then Some(ServersOf(redis.View(), user)) else None
    {
      if !answers {
        return None;
      }
      servers := Some(if user in redis.userServers then redis.userServers[user] else {});
    }
  }

  // ---- routing ----

  /** A message under way to another server; `payload` stands for its serialized text. */
  datatype RoutedMessage = RoutedMessage(
    userId: string, tenantId: string, payload: nat, fromServer: ServerId, toServer: Option<ServerId>)

  /** The pub/sub channel a message is published on, and the channels a server listens to. */
  function RoutingChannel(prefix: string, message: RoutedMessage): string {
    if message.toServer.Some? then prefix + ":" + message.toServer.value else prefix
  }

  predicate ListensTo(prefix: string, server: ServerId, channel: string) {
    channel == prefix + ":" + server || channel == prefix
  }

  /** A message addressed to a server is heard by that server alone. */
  lemma OnlyTargetListens(prefix: string, server: ServerId, message: RoutedMessage)
    requires message.toServer.Some?
    ensures ListensTo(prefix, server, RoutingChannel(prefix, message)) <==> server == message.toServer.value
  {
    var target := message.toServer.value;
    var a, b := prefix + ":" + target, prefix + ":" + server;
    assert a[|prefix| + 1..] == target && b[|prefix| + 1..] == server;
  }

  function CopyFor(user: string, tenant: string, payload: nat, origin: ServerId, target: ServerId): RoutedMessage {
    RoutedMessage(user, tenant, payload, origin, Some(target))
  }

  /** The connections of the user within the tenant. */
  function Matching(connections: Connections, user: string, tenant: string): set<Id> {
    set c | c in connections && connections[c].userId == user && connections[c].tenantId == tenant
  }

  lemma UserConnsMatch(manager: ConnectionManager, user: string, tenant: string)
    requires manager.Valid()
    ensures var found := UserConns(Directory(manager.connections, manager.userIndex), user, Some(tenant));
      NoRepeats(found) && Elements(found) == Matching(manager.connections, user, tenant)
  {
    var users := manager.userIndex;
    var ids := if user in users then users[user] else [];
    UserCount(manager.connections, users, user);
    assert Elements(ids) == OfUser(manager.connections, user);
    TenantFilterKeeps(manager.connections, ids, Some(tenant));
    forall c | c in Matching(manager.connections, user, tenant)
      ensures c in TenantFilter(manager.connections, ids, Some(tenant))
    {
      assert c in Elements(ids);
    }
    forall c | c in TenantFilter(manager.connections, ids, Some(tenant))
      ensures c in Matching(manager.connections, user, tenant)
    {
      assert c in Elements(ids);
    }
  }

  /** Among messages whose publication is attempted one after the other, the `start`-th first, those that
      are published. */
  function Kept(publishes: nat -> bool, start: nat, tries: seq<RoutedMessage>): seq<RoutedMessage>
    decreases |tries|
  {
    if tries == [] then []
    else
      var n := |tries| - 1;
      Kept(publishes, start, tries[..n]) + if publishes(start + n) then [tries[n]] else []
  }

  /** Of tries without repetition each is published once if its own attempt succeeds, and else not at all. */
  lemma {:induction false} KeptExactly(publishes: nat -> bool, start: nat, tries: seq<RoutedMessage>)
    requires NoRepeats(tries)
    ensures NoRepeats(Kept(publishes, start, tries))
    ensures forall m :: m in Kept(publishes, start, tries) ==> m in tries
    ensures forall k :: 0 <= k < |tries| ==> (tries[k] in Kept(publishes, start, tries) <==> publishes(start + k))
    decreases |tries|
  {
    if tries != [] {
      var n := |tries| - 1;
      var init := tries[..n];
      KeptExactly(publishes, start, init);
      assert tries[n] !in init;
      forall k | 0 <= k < n
        ensures tries[k] in Kept(publishes, start, tries) <==> publishes(start + k)
      {
        assert tries[k] == init[k] != tries[n];
      }
    }
  }

  /** One copy for each of the servers. */
  function CopiesFor(
    user: string, tenant: string, payload: nat, origin: ServerId, servers: set<ServerId>): set<RoutedMessage>
  {
    set t | t in servers :: CopyFor(user, tenant, payload, origin, t)
  }

  lemma KeptSnoc(publishes: nat -> bool, start: nat, tries: seq<RoutedMessage>, m: RoutedMessage)
    ensures Kept(publishes, start, tries + [m])
         == Kept(publishes, start, tries) + if publishes(start + |tries|) then [m] else []
  {
    assert (tries + [m])[..|tries|] == tries;
  }

  lemma CopiesForNext(
    user: string, tenant: string, payload: nat, origin: ServerId, servers: set<ServerId>, target: ServerId)
    requires target !in servers
    ensures CopiesFor(user, tenant, payload, origin, servers + {target})
         == CopiesFor(user, tenant, payload, origin, servers) + {CopyFor(user, tenant, payload, origin, target)}
    ensures CopyFor(user, tenant, payload, origin, target) !in CopiesFor(user, tenant, payload, origin, servers)
  {
  }

  lemma CopiesByTarget(
    copies: seq<RoutedMessage>, user: string, tenant: string, payload: nat, origin: ServerId, servers: set<ServerId>)
    requires Elements(copies) == CopiesFor(user, tenant, payload, origin, servers)
    ensures forall m :: m in copies <==>
      m.toServer.Some? && m.toServer.value in servers && m == RoutedMessage(user, tenant, payload, origin, m.toServer)
  {
    forall m: RoutedMessage
      ensures m in copies <==>
        m.toServer.Some? && m.toServer.value in servers
        && m == RoutedMessage(user, tenant, payload, origin, m.toServer)
    {
      assert m in copies <==> m in Elements(copies);
      if m.toServer.Some? && m.toServer.value in servers
         && m == RoutedMessage(user, tenant, payload, origin, m.toServer) {
        assert m == CopyFor(user, tenant, payload, origin, m.toServer.value);
      }
    }
  }

  lemma PublishOne(
    user: string, tenant: string, payload: nat, origin: ServerId, servers: set<ServerId>, target: ServerId,
    publishes: nat -> bool, start: nat, copies: seq<RoutedMessage>)
    requires target !in servers && NoRepeats(copies)
    requires Elements(copies) == CopiesFor(user, tenant, payload, origin, servers)
    ensures var m := CopyFor(user, tenant, payload, origin, target);
      && NoRepeats(copies + [m])
      && Elements(copies + [m]) == CopiesFor(user, tenant, payload, origin, servers + {target})
      && Kept(publishes, start, copies + [m])
         == Kept(publishes, start, copies) + if publishes(start + |copies|) then [m] else []
  {
    var m := CopyFor(user, tenant, payload, origin, target);
    CopiesForNext(user, tenant, payload, origin, servers, target);
    KeptSnoc(publishes, start, copies, m);
    Appended(copies, m);
  }

  class ClusterRouter {
    const manager: ConnectionManager
    const store: SessionStore
    /** Whether the k-th send attempt and the k-th attempt to publish of this router's life succeed. */
    const succeeds: nat -> bool
    const publishes: nat -> bool
    /** Every attempt to send and to publish so far, and what was published, in order. */
    var attempts: seq<Id>
    var tries: seq<RoutedMessage>
    var published: seq<RoutedMessage>

    constructor (manager: ConnectionManager, store: SessionStore, succeeds: nat -> bool, publishes: nat -> bool)
      ensures this.manager == manager && this.store == store && attempts == []
      ensures tries == [] && published == []
    {
      this.manager, this.store, this.succeeds, this.publishes := manager, store, succeeds, publishes;
      attempts, tries, published := [], [], [];
    }

    method SendToMatching(user: string, tenant: string) returns (delivered: nat)
      requires manager.Valid()
      modifies this`attempts
      ensures |attempts| >= |old(attempts)| && attempts[..|old(attempts)|] == old(attempts)
      ensures var sent := attempts[|old(attempts)|..];
        NoRepeats(sent) && Elements(sent) == Matching(manager.connections, user, tenant)
        && delivered == CountOk(succeeds, |old(attempts)|, |sent|)
    {
      var ids := manager.GetUserConnections(user);
      var conns: seq<Id> := [];
      for i := 0 to |ids|
        invariant NoRepeats(conns)
        invariant forall c :: c in conns <==>
          c in ids[..i] && c in manager.connections && manager.connections[c].tenantId == tenant
      {
        assert ids[i] !in ids[..i];
        assert ids[..i + 1] == ids[..i] + [ids[i]];
        if ids[i] in manager.connections && manager.connections[ids[i]].tenantId == tenant {
          conns := conns + [ids[i]];
        }
      }
      assert ids[..|ids|] == ids;
      assert Elements(conns) == Matching(manager.connections, user, tenant) by {
        assert forall c :: c in ids <==> c in Elements(ids);
      }
      delivered := 0;
      for i := 0 to |conns|
        invariant attempts == old(attempts) + conns[..i]
        invariant delivered == CountOk(succeeds, |old(attempts)|, i)
      {
        if succeeds(|attempts|) {
          delivered := delivered + 1;
        }
        attempts := attempts + [conns[i]];
      }
      assert attempts[|old(attempts)|..] == conns;
    }

    /** Sends to the local connections, then, if the store answers, addresses one copy to every other server
        of the user. */
    method RouteToUser(user: string, tenant: string, payload: nat, answers: bool)
      returns (localDelivered: nat, routedToServers: nat)
      requires manager.Valid()
      modifies this
      ensures |attempts| >= |old(attempts)| && attempts[..|old(attempts)|] == old(attempts)
      ensures var sent := attempts[|old(attempts)|..];
        NoRepeats(sent) && Elements(sent) == Matching(manager.connections, user, tenant)
        && localDelivered == CountOk(succeeds, |old(attempts)|, |sent|)
      ensures var others := if answers then ServersOf(store.redis.View(), user) - {store.serverId} else {};
        routedToServers == |others|
          && Addressed(others, user, tenant, payload, old(tries), tries, old(published), published)
    {
      localDelivered := SendToMatching(user, tenant);
      var servers := store.FindUserServers(user, answers);
      var others := if servers.Some? then servers.value - {store.serverId} else {};
      routedToServers := |others|;
      PublishAll(others, user, tenant, payload);
    }

    /** Between two states of the logs it was tried to publish one copy for each of these servers, once, and
        the copies published are those whose own attempt succeeded. */
    ghost predicate Addressed(
      others: set<ServerId>, user: string, tenant: string, payload: nat,
      tries0: seq<RoutedMessage>, tries1: seq<RoutedMessage>,
      published0: seq<RoutedMessage>, published1: seq<RoutedMessage>)
    {
      exists copies: seq<RoutedMessage> ::
        && NoRepeats(copies)
        && (forall m :: m in copies <==>
              m.toServer.Some? && m.toServer.value in others
              && m == RoutedMessage(user, tenant, payload, store.serverId, m.toServer))
        && tries1 == tries0 + copies
        && published1 == published0 + Kept(publishes, |tries0|, copies)
    }

    method PublishAll(others: set<ServerId>, user: string, tenant: string, payload: nat)
      modifies this`tries, this`published
      ensures Addressed(others, user, tenant, payload, old(tries), tries, old(published), published)
    {
      var remaining := others;
      ghost var copies: seq<RoutedMessage> := [];
      while remaining != {}
        invariant remaining <= others && NoRepeats(copies)
        invariant Elements(copies) == CopiesFor(user, tenant, payload, store.serverId, others - remaining)
        invariant tries == old(tries) + copies
        invariant published == old(published) + Kept(publishes, |old(tries)|, copies)
        decreases remaining
      {
        var target :| target in remaining;
        var message := CopyFor(user, tenant, payload, store.serverId, target);
        PublishOne(user, tenant, payload, store.serverId, others - remaining, target, publishes, |old(tries)|, copies);
        assert others - (remaining - {target}) == others - remaining + {target};
        remaining := remaining - {target};
        if publishes(|tries|) {
          published := published + [message];
        }
        tries := tries + [message];
        copies := copies + [message];
      }
      assert others - remaining == others;
      CopiesByTarget(copies, user, tenant, payload, store.serverId, others);
    }

    /** The subscriber's filters, then the router's, then local delivery. */
    method HandleRoutedMessage(message: RoutedMessage) returns (delivered: nat)
      requires manager.Valid()
      modifies this`attempts
      ensures Accepts(store.serverId, message)
         <==> message.fromServer != store.serverId && message.toServer in {None, Some(store.serverId)}
      ensures message.fromServer == store.serverId || message.toServer !in {None, Some(store.serverId)} ==>
        delivered == 0 && attempts == old(attempts)
      ensures |attempts| >= |old(attempts)| && attempts[..|old(attempts)|] == old(attempts)
      ensures message.fromServer != store.serverId && message.toServer in {None, Some(store.serverId)} ==>
        var sent := attempts[|old(attempts)|..];
        NoRepeats(sent) && Elements(sent) == Matching(manager.connections, message.userId, message.tenantId)
        && delivered == CountOk(succeeds, |old(attempts)|, |sent|)
    {
      if message.fromServer == store.serverId {
        return 0;
      }
      if message.toServer.Some? && message.toServer.value != store.serverId {
        return 0;
      }
      delivered := SendToMatching(message.userId, message.tenantId);
    }
  }

  /** A server takes messages of other servers that are addressed to it or to all. */
  predicate Accepts(server: ServerId, message: RoutedMessage) {
    message.fromServer != server && (message.toServer.None? || message.toServer.value == server)
  }
}
