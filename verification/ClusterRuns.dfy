/** All runs of a cluster: connections come and go on any number of servers while messages are routed. */
module ClusterRuns {
  import opened ConnectionManagers
  import opened Cluster

  /** A connection's life: registered with its server's manager, then in the shared store, then closed. */
  datatype Phase = Opened | Announced | Gone

  datatype Peer = Peer(server: ServerId, userId: string, tenantId: string, phase: Phase)

  /** One call of `route_to_user`: begun by the local sends; later the user's servers are looked up and
      copies addressed. `due` are the matching connections that were open: on the origin at the start, on
      the other servers, if they had announced their session, at the lookup. */
  datatype Route = Route(origin: ServerId, userId: string, tenantId: string, addressed: bool, due: set<Id>)

  /** A copy of a message in the inbox of a server. */
  datatype Copy = Copy(receiver: ServerId, message: RoutedMessage)

  /** The connections: each server's manager, what its store remembers, the shared registry, and every
      connection there ever was. */
  datatype Members = Members(
    managers: map<ServerId, Connections>,
    remembered: map<ServerId, map<Id, string>>,
    registry: Registry,
    peers: map<Id, Peer>)

  /** The messages: copies in transit, every routing call there ever was, the send attempts (routing call and
      connection), the copies taken from an inbox, and those that were not published or got lost. */
  datatype Traffic = Traffic(
    inTransit: multiset<Copy>,
    routes: map<nat, Route>,
    attempts: multiset<(nat, Id)>,
    handled: set<(nat, ServerId)>,
    lost: set<(nat, ServerId)>)

  datatype State = State(m: Members, t: Traffic)

  datatype Step =
    | Connect(id: Id, server: ServerId, userId: string, tenantId: string)
    | Announce(id: Id)
    | Close(id: Id)
    | Withdraw(id: Id)
    | RouteLocally(route: nat, origin: ServerId, userId: string, tenantId: string)
    | RouteRemotely(route: nat, failing: set<ServerId>)
    | Receive(copy: Copy)
    | Lose(copy: Copy)

  function Manager(s: Members, server: ServerId): Connections {
    if server in s.managers then s.managers[server] else map[]
  }

  function Remembered(s: Members, server: ServerId): map<Id, string> {
    if server in s.remembered then s.remembered[server] else map[]
  }

  function DoConnect(s: Members, id: Id, server: ServerId, user: string, tenant: string): Members {
    s.(managers := s.managers[server := Manager(s, server)[id := Handle(user, tenant, 0, {})]],
       peers := s.peers[id := Peer(server, user, tenant, Opened)])
  }

  function DoAnnounce(s: Members, id: Id): Members
    requires id in s.peers
  {
    var p := s.peers[id];
    s.(remembered := s.remembered[p.server := Remembered(s, p.server)[id := p.userId]],
       registry := SessionAdded(s.registry, id, Session(p.userId, p.tenantId, p.server)),
       peers := s.peers[id := p.(phase := Announced)])
  }

  function DoClose(s: Members, id: Id): Members
    requires id in s.peers
  {
    var server := s.peers[id].server;
    s.(managers := s.managers[server := Manager(s, server) - {id}])
  }

  function DoWithdraw(s: Members, id: Id): Members
    requires id in s.peers
  {
    var p := s.peers[id];
    var local := Remembered(s, p.server) - {id};
    s.(remembered := s.remembered[p.server := local],
       registry := SessionRemoved(s.registry, p.server, local, id),
       peers := s.peers[id := p.(phase := Gone)])
  }

  /** Connection ids are fresh; a session is announced once, and withdrawn after its connection is closed.
      Any other step does nothing. */
  function NextMembers(s: Members, step: Step): Members {
    match step
    case Connect(id, server, user, tenant) => if id in s.peers then s else DoConnect(s, id, server, user, tenant)
    case Announce(id) => if id in s.peers && s.peers[id].phase == Opened then DoAnnounce(s, id) else s
    case Close(id) => if id in s.peers then DoClose(s, id) else s
    case Withdraw(id) =>
      if id in s.peers && s.peers[id].phase != Gone && id !in Manager(s, s.peers[id].server)
      then DoWithdraw(s, id) else s
    case _ => s
  }

  function Attempted(route: nat, ids: set<Id>): multiset<(nat, Id)> {
    multiset(set c | c in ids :: (route, c))
  }

  function MessageOf(route: nat, r: Route, target: ServerId): RoutedMessage {
    CopyFor(r.userId, r.tenantId, route, r.origin, target)
  }

  function Others(s: Members, r: Route): set<ServerId> {
    ServersOf(s.registry, r.userId) - {r.origin}
  }

  /** The connection is one of the route's user and tenant. */
  predicate For(s: Members, c: Id, r: Route) {
    c in s.peers && s.peers[c].userId == r.userId && s.peers[c].tenantId == r.tenantId
  }

  predicate Open(s: Members, c: Id) {
    c in s.peers && c in Manager(s, s.peers[c].server)
  }

  /** The connections for the route on servers other than its origin that are open and announced. */
  function DueElsewhere(s: Members, r: Route): set<Id> {
    set c | c in s.peers && For(s, c, r) && Open(s, c) && s.peers[c].phase == Announced && s.peers[c].server != r.origin
  }

  const ROUTING_CHANNEL := "ara:cluster:route"

  /** The servers that hear a message when it is published. */
  function Hearers(s: Members, message: RoutedMessage): set<ServerId> {
    set server | server in s.managers && ListensTo(ROUTING_CHANNEL, server, RoutingChannel(ROUTING_CHANNEL, message))
  }

  /** One message is published for each target, and each goes to everyone who listens. */
  function Copies(s: Members, route: nat, r: Route, targets: set<ServerId>): set<Copy> {
    set t, server | t in targets && server in Hearers(s, MessageOf(route, r, t)) :: Copy(server, MessageOf(route, r, t))
  }

  function Marks(route: nat, targets: set<ServerId>): set<(nat, ServerId)> {
    set t | t in targets :: (route, t)
  }

  function DoRouteLocally(s: Members, t: Traffic, route: nat, origin: ServerId, user: string, tenant: string): Traffic {
    var here := Matching(Manager(s, origin), user, tenant);
    t.(routes := t.routes[route := Route(origin, user, tenant, false, here)],
       attempts := t.attempts + Attempted(route, here))
  }

  function DoRouteRemotely(s: Members, t: Traffic, route: nat, failing: set<ServerId>): Traffic
    requires route in t.routes
  {
    var r := t.routes[route];
    t.(routes := t.routes[route := r.(addressed := true, due := r.due + DueElsewhere(s, r))],
       inTransit := t.inTransit + multiset(Copies(s, route, r, Others(s, r) - failing)),
       lost := t.lost + Marks(route, Others(s, r) * failing))
  }

  function DoReceive(s: Members, t: Traffic, copy: Copy): Traffic {
    var m := copy.message;
    t.(inTransit := t.inTransit - multiset{copy},
       handled := t.handled + {(m.payload, copy.receiver)},
       attempts := t.attempts +
         if Accepts(copy.receiver, m)
         then Attempted(m.payload, Matching(Manager(s, copy.receiver), m.userId, m.tenantId)) else multiset{})
  }

  function DoLose(t: Traffic, copy: Copy): Traffic {
    t.(inTransit := t.inTransit - multiset{copy}, lost := t.lost + {(copy.message.payload, copy.receiver)})
  }

  /** Routing calls are fresh, and each addresses its copies once. A lookup that the store does not answer is
      one in which the publications to all servers fail. */
  function NextTraffic(s: Members, t: Traffic, step: Step): Traffic {
    match step
    case RouteLocally(route, origin, user, tenant) =>
      if route in t.routes then t else DoRouteLocally(s, t, route, origin, user, tenant)
    case RouteRemotely(route, failing) =>
      if route in t.routes && !t.routes[route].addressed then DoRouteRemotely(s, t, route, failing) else t
    case Receive(copy) => if copy in t.inTransit then DoReceive(s, t, copy) else t
    case Lose(copy) => if copy in t.inTransit then DoLose(t, copy) else t
    case _ => t
  }

  function Next(s: State, step: Step): State {
    State(NextMembers(s.m, step), NextTraffic(s.m, s.t, step))
  }

  const START := State(
    Members(map[], map[], Registry(map[], map[], map[]), map[]),
    Traffic(multiset{}, map[], multiset{}, {}, {}))

  function Run(steps: seq<Step>): State
    decreases |steps|
  {
    if steps == [] then START else Next(Run(steps[..|steps| - 1]), steps[|steps| - 1])
  }

  // ---- the registry ----

  /** Managers and the store's memory hold the peers they should. */
  predicate Placed(s: Members) {
    ManagersPlaced(s) && RememberedPlaced(s)
  }

  predicate ManagersPlaced(s: Members) {
    forall t, c :: t in s.managers && c in s.managers[t] ==>
      c in s.peers && s.peers[c].server == t && s.managers[t][c].userId == s.peers[c].userId
      && s.managers[t][c].tenantId == s.peers[c].tenantId && s.peers[c].phase != Gone
  }

  predicate RememberedPlaced(s: Members) {
    forall t, c :: t in s.remembered && c in s.remembered[t] ==>
      c in s.peers && s.peers[c].server == t && s.peers[c].phase == Announced
      && s.remembered[t][c] == s.peers[c].userId
  }

  /** Servers with connections, past or present, are the ones the cluster knows. */
  predicate Hosted(s: Members) {
    forall c :: c in s.peers ==> s.peers[c].server in s.managers
  }

  predicate Sessions(s: Members) {
    && (forall c :: c in s.peers && s.peers[c].phase == Announced ==>
          c in Remembered(s, s.peers[c].server) && c in s.registry.sessions
          && s.registry.sessions[c].userId == s.peers[c].userId)
    && (forall c :: c in s.registry.sessions ==> c in s.peers && s.peers[c].phase == Announced)
  }

  predicate Holder(s: Members, c: Id, server: ServerId, user: string) {
    c in s.peers && s.peers[c].phase == Announced && s.peers[c].server == server && s.peers[c].userId == user
  }

  /** The server holds an announced session of the user. */
  ghost predicate Holds(s: Members, server: ServerId, user: string) {
    exists c :: Holder(s, c, server, user)
  }

  predicate Listed(s: Members, server: ServerId, user: string) {
    server in ServersOf(s.registry, user)
  }

  ghost predicate ListedExactly(s: Members) {
    forall server: ServerId, user: string :: Listed(s, server, user) <==> Holds(s, server, user)
  }

  ghost predicate CountsRight(s: Members) {
    forall server: ServerId :: CountOf(s.registry, server) == |Remembered(s, server)|
  }

  ghost predicate RegistryRight(s: Members) {
    Placed(s) && Sessions(s) && ListedExactly(s) && CountsRight(s)
  }

  lemma AnnouncePlaced(s: Members, id: Id)
    requires Placed(s) && Sessions(s) && id in s.peers && s.peers[id].phase == Opened
    ensures Placed(DoAnnounce(s, id))
  {
  }

  lemma AnnounceSessions(s: Members, id: Id)
    requires Sessions(s) && id in s.peers && s.peers[id].phase == Opened
    ensures Sessions(DoAnnounce(s, id))
  {
    var s' := DoAnnounce(s, id);
    forall c | c in s'.peers && s'.peers[c].phase == Announced
      ensures c in Remembered(s', s'.peers[c].server) && c in s'.registry.sessions
      ensures s'.registry.sessions[c].userId == s'.peers[c].userId
    {
      if c != id {
        assert s'.peers[c] == s.peers[c];
      }
    }
  }

  lemma AnnounceListed(s: Members, id: Id)
    requires ListedExactly(s) && id in s.peers && s.peers[id].phase == Opened
    ensures ListedExactly(DoAnnounce(s, id))
  {
    var s', p := DoAnnounce(s, id), s.peers[id];
    forall server: ServerId, user: string
      ensures Listed(s', server, user) <==> Holds(s', server, user)
    {
      assert Listed(s, server, user) <==> Holds(s, server, user);
      if Holds(s, server, user) {
        var c :| Holder(s, c, server, user);
        assert Holder(s', c, server, user);
      }
      if server == p.server && user == p.userId {
        assert Holder(s', id, server, user);
      } else if Holds(s', server, user) {
        var c :| Holder(s', c, server, user);
        assert Holder(s, c, server, user);
      }
    }
  }

  lemma OneMore(local: map<Id, string>, id: Id, user: string)
    requires id !in local
    ensures |local[id := user]| == |local| + 1
  {
    assert local[id := user].Keys == local.Keys + {id};
  }

  lemma OneFewer(local: map<Id, string>, id: Id)
    ensures |local - {id}| == if id in local then |local| - 1 else |local|
  {
    assert (local - {id}).Keys == local.Keys - {id};
  }

  lemma AnnounceCounts(s: Members, id: Id)
    requires CountsRight(s) && Placed(s) && id in s.peers && s.peers[id].phase == Opened
    ensures CountsRight(DoAnnounce(s, id))
  {
    var s', p := DoAnnounce(s, id), s.peers[id];
    assert id !in Remembered(s, p.server);
    forall server: ServerId
      ensures CountOf(s'.registry, server) == |Remembered(s', server)|
    {
      assert CountOf(s.registry, server) == |Remembered(s, server)|;
      if server == p.server {
        OneMore(Remembered(s, server), id, p.userId);
        assert Remembered(s', server) == Remembered(s, server)[id := p.userId];
      } else {
        assert Remembered(s', server) == Remembered(s, server);
      }
    }
  }

  lemma WithdrawPlaced(s: Members, id: Id)
    requires Placed(s) && id in s.peers && s.peers[id].phase != Gone && id !in Manager(s, s.peers[id].server)
    ensures Placed(DoWithdraw(s, id))
  {
  }

  lemma WithdrawSessions(s: Members, id: Id)
    requires Sessions(s) && id in s.peers && s.peers[id].phase != Gone
    ensures Sessions(DoWithdraw(s, id))
  {
    var s' := DoWithdraw(s, id);
    forall c | c in s'.peers && s'.peers[c].phase == Announced
      ensures c in Remembered(s', s'.peers[c].server) && c in s'.registry.sessions
      ensures s'.registry.sessions[c].userId == s'.peers[c].userId
    {
      assert c != id && s'.peers[c] == s.peers[c];
    }
  }

  /** After the withdrawal the server still holds the user exactly when it remembers another connection. */
  lemma WithdrawHolds(s: Members, id: Id)
    requires Placed(s) && Sessions(s) && id in s.peers && s.peers[id].phase != Gone
    ensures var p := s.peers[id];
      var local := Remembered(s, p.server) - {id};
      Holds(DoWithdraw(s, id), p.server, p.userId) <==> exists c :: c in local && c != id && local[c] == p.userId
  {
    var s', p := DoWithdraw(s, id), s.peers[id];
    var local := Remembered(s, p.server) - {id};
    if Holds(s', p.server, p.userId) {
      var c :| Holder(s', c, p.server, p.userId);
      RemembersHeld(s, id, c);
      assert c in local && c != id && local[c] == p.userId;
    }
    if exists c :: c in local && c != id && local[c] == p.userId {
      var c :| c in local && c != id && local[c] == p.userId;
      HoldsRemembered(s, id, c);
    }
  }

  lemma RemembersHeld(s: Members, id: Id, c: Id)
    requires Placed(s) && Sessions(s) && id in s.peers && c in s.peers
    requires DoWithdraw(s, id).peers[c].phase == Announced && s.peers[c].server == s.peers[id].server
    ensures c != id && c in Remembered(s, s.peers[id].server)
    ensures Remembered(s, s.peers[id].server)[c] == s.peers[c].userId
  {
  }

  lemma HoldsRemembered(s: Members, id: Id, c: Id)
    requires Placed(s) && id in s.peers && c != id && c in Remembered(s, s.peers[id].server)
    ensures Holds(DoWithdraw(s, id), s.peers[id].server, Remembered(s, s.peers[id].server)[c])
  {
    var s' := DoWithdraw(s, id);
    assert s'.peers[c] == s.peers[c];
    assert Holder(s', c, s.peers[id].server, Remembered(s, s.peers[id].server)[c]);
  }

  lemma WithdrawHoldsElsewhere(s: Members, id: Id, server: ServerId, user: string)
    requires id in s.peers && (server != s.peers[id].server || user != s.peers[id].userId)
    ensures Holds(DoWithdraw(s, id), server, user) <==> Holds(s, server, user)
  {
    var s' := DoWithdraw(s, id);
    if Holds(s', server, user) {
      var c :| Holder(s', c, server, user);
      assert Holder(s, c, server, user);
    }
    if Holds(s, server, user) {
      var c :| Holder(s, c, server, user);
      assert Holder(s', c, server, user);
    }
  }

  lemma WithdrawLists(s: Members, id: Id, server: ServerId, user: string)
    requires Sessions(s) && id in s.peers && s.peers[id].phase == Announced
    ensures var p := s.peers[id];
      var local := Remembered(s, p.server) - {id};
      Listed(DoWithdraw(s, id), server, user) <==>
        Listed(s, server, user) &&
        (server != p.server || user != p.userId || exists c :: c in local && c != id && local[c] == p.userId)
  {
  }

  lemma WithdrawListed(s: Members, id: Id)
    requires RegistryRight(s) && id in s.peers && s.peers[id].phase != Gone
    ensures ListedExactly(DoWithdraw(s, id))
  {
    var s', p := DoWithdraw(s, id), s.peers[id];
    WithdrawHolds(s, id);
    forall server: ServerId, user: string
      ensures Listed(s', server, user) <==> Holds(s', server, user)
    {
      assert Listed(s, server, user) <==> Holds(s, server, user);
      if p.phase == Announced {
        WithdrawLists(s, id, server, user);
        assert Holder(s, id, p.server, p.userId);
      } else {
        assert id !in s.registry.sessions;
        WithdrawUnannounced(s, id, server, user);
      }
      if server != p.server || user != p.userId {
        WithdrawHoldsElsewhere(s, id, server, user);
      }
    }
  }

  lemma WithdrawUnannounced(s: Members, id: Id, server: ServerId, user: string)
    requires id in s.peers && s.peers[id].phase == Opened
    ensures Holds(DoWithdraw(s, id), server, user) <==> Holds(s, server, user)
  {
    var s' := DoWithdraw(s, id);
    if Holds(s', server, user) {
      var c :| Holder(s', c, server, user);
      assert Holder(s, c, server, user);
    }
    if Holds(s, server, user) {
      var c :| Holder(s, c, server, user);
      assert Holder(s', c, server, user);
    }
  }

  lemma WithdrawCounts(s: Members, id: Id)
    requires CountsRight(s) && Placed(s) && Sessions(s) && id in s.peers && s.peers[id].phase != Gone
    ensures CountsRight(DoWithdraw(s, id))
  {
    var s', p := DoWithdraw(s, id), s.peers[id];
    assert id in Remembered(s, p.server) <==> id in s.registry.sessions;
    forall server: ServerId
      ensures CountOf(s'.registry, server) == |Remembered(s', server)|
    {
      assert CountOf(s.registry, server) == |Remembered(s, server)|;
      if server == p.server {
        OneFewer(Remembered(s, server), id);
        assert Remembered(s', server) == Remembered(s, server) - {id};
      } else {
        assert Remembered(s', server) == Remembered(s, server);
      }
    }
  }

  lemma SamePeersHold(s: Members, s': Members, server: ServerId, user: string)
    requires forall c :: c in s.peers ==> c in s'.peers && s'.peers[c] == s.peers[c]
    requires forall c :: c in s'.peers && c !in s.peers ==> s'.peers[c].phase == Opened
    ensures Holds(s', server, user) <==> Holds(s, server, user)
  {
    if Holds(s, server, user) {
      var c :| Holder(s, c, server, user);
      assert Holder(s', c, server, user);
    }
    if Holds(s', server, user) {
      var c :| Holder(s', c, server, user);
      assert Holder(s, c, server, user);
    }
  }

  lemma SamePeersKeeps(s: Members, s': Members)
    requires RegistryRight(s) && s'.remembered == s.remembered && s'.registry == s.registry && Placed(s')
    requires forall c :: c in s.peers ==> c in s'.peers && s'.peers[c] == s.peers[c]
    requires forall c :: c in s'.peers && c !in s.peers ==> s'.peers[c].phase == Opened
    ensures RegistryRight(s')
  {
    forall server: ServerId, user: string
      ensures Listed(s', server, user) <==> Holds(s', server, user)
    {
      assert Listed(s, server, user) <==> Holds(s, server, user);
      SamePeersHold(s, s', server, user);
    }
    forall server: ServerId
      ensures CountOf(s'.registry, server) == |Remembered(s', server)|
    {
      assert CountOf(s.registry, server) == |Remembered(s, server)|;
    }
  }

  lemma AnnounceKeeps(s: Members, id: Id)
    requires RegistryRight(s) && id in s.peers && s.peers[id].phase == Opened
    ensures RegistryRight(DoAnnounce(s, id))
  {
    AnnouncePlaced(s, id);
    AnnounceSessions(s, id);
    AnnounceListed(s, id);
    AnnounceCounts(s, id);
  }

  lemma WithdrawKeeps(s: Members, id: Id)
    requires RegistryRight(s) && id in s.peers && s.peers[id].phase != Gone && id !in Manager(s, s.peers[id].server)
    ensures RegistryRight(DoWithdraw(s, id))
  {
    WithdrawPlaced(s, id);
    WithdrawSessions(s, id);
    WithdrawListed(s, id);
    WithdrawCounts(s, id);
  }

  lemma ConnectKeeps(s: Members, id: Id, server: ServerId, user: string, tenant: string)
    requires RegistryRight(s) && id !in s.peers
    ensures RegistryRight(DoConnect(s, id, server, user, tenant))
  {
    ConnectPlaced(s, id, server, user, tenant);
    SamePeersKeeps(s, DoConnect(s, id, server, user, tenant));
  }

  lemma CloseKeeps(s: Members, id: Id)
    requires RegistryRight(s) && id in s.peers
    ensures RegistryRight(DoClose(s, id))
  {
    SamePeersKeeps(s, DoClose(s, id));
  }

  lemma StepKeepsRegistry(s: Members, step: Step)
    requires RegistryRight(s)
    ensures RegistryRight(NextMembers(s, step))
  {
    var s' := NextMembers(s, step);
    if s' != s {
      match step {
        case Announce(id) =>
          AnnounceKeeps(s, id);
          assert s' == DoAnnounce(s, id);
        case Withdraw(id) =>
          WithdrawKeeps(s, id);
          assert s' == DoWithdraw(s, id);
        case Connect(id, server, user, tenant) =>
          ConnectKeeps(s, id, server, user, tenant);
          assert s' == DoConnect(s, id, server, user, tenant);
        case Close(id) =>
          CloseKeeps(s, id);
          assert s' == DoClose(s, id);
        case _ =>
      }
    }
  }

  lemma ConnectPlaced(s: Members, id: Id, server: ServerId, user: string, tenant: string)
    requires Placed(s) && id !in s.peers
    ensures Placed(DoConnect(s, id, server, user, tenant))
  {
    ConnectManagersPlaced(s, id, server, user, tenant);
    ConnectRememberedPlaced(s, id, server, user, tenant);
  }

  lemma ConnectManagersPlaced(s: Members, id: Id, server: ServerId, user: string, tenant: string)
    requires ManagersPlaced(s) && id !in s.peers
    ensures ManagersPlaced(DoConnect(s, id, server, user, tenant))
  {
  }

  lemma ConnectRememberedPlaced(s: Members, id: Id, server: ServerId, user: string, tenant: string)
    requires RememberedPlaced(s) && id !in s.peers
    ensures RememberedPlaced(DoConnect(s, id, server, user, tenant))
  {
  }

  lemma StepKeepsHosted(s: Members, step: Step)
    requires Hosted(s)
    ensures Hosted(NextMembers(s, step))
  {
  }

  /** In every run a server is listed for a user exactly when it holds an announced session of the user, and
      the connection counts are right. */
  lemma {:induction false} RegistryRightInEveryRun(steps: seq<Step>)
    ensures RegistryRight(Run(steps).m) && Hosted(Run(steps).m)
    decreases |steps|
  {
    if steps != [] {
      RegistryRightInEveryRun(steps[..|steps| - 1]);
      StepKeepsRegistry(Run(steps[..|steps| - 1]).m, steps[|steps| - 1]);
      StepKeepsHosted(Run(steps[..|steps| - 1]).m, steps[|steps| - 1]);
    }
  }

  // ---- the messages ----

  function CopyTo(route: nat, r: Route, server: ServerId): Copy {
    Copy(server, MessageOf(route, r, server))
  }

  /** A copy in transit is the only one of its call to its receiver, and no such copy was taken or lost before. */
  predicate CopyRight(t: Traffic, copy: Copy) {
    var route := copy.message.payload;
    && route in t.routes && t.routes[route].addressed && copy == CopyTo(route, t.routes[route], copy.receiver)
    && copy.receiver != t.routes[route].origin
    && (route, copy.receiver) !in t.handled && (route, copy.receiver) !in t.lost
    && t.inTransit[copy] == 1
  }

  predicate MarkRight(t: Traffic, route: nat, server: ServerId) {
    route in t.routes && t.routes[route].addressed && server != t.routes[route].origin
  }

  predicate AttemptRight(s: Members, t: Traffic, route: nat, c: Id) {
    && t.attempts[(route, c)] == 1
    && route in t.routes && For(s, c, t.routes[route])
    && (s.peers[c].server == t.routes[route].origin || (route, s.peers[c].server) in t.handled)
  }

  /** A connection that was due has been sent to, or its copy is in transit or lost, or it has closed. */
  predicate DueRight(s: Members, t: Traffic, route: nat, c: Id)
    requires route in t.routes
  {
    var r := t.routes[route];
    && For(s, c, r)
    && (t.attempts[(route, c)] == 1
        || (s.peers[c].server != r.origin
            && (CopyTo(route, r, s.peers[c].server) in t.inTransit
                || (route, s.peers[c].server) in t.lost || !Open(s, c))))
  }

  ghost predicate TrafficRight(s: Members, t: Traffic) {
    && (forall copy :: copy in t.inTransit ==> CopyRight(t, copy))
    && (forall route, server {:trigger (route, server) in t.handled} {:trigger (route, server) in t.lost} ::
          (route, server) in t.handled || (route, server) in t.lost ==> MarkRight(t, route, server))
    && (forall route, c {:trigger AttemptRight(s, t, route, c)} ::
          (route, c) in t.attempts ==> AttemptRight(s, t, route, c))
    && (forall route, c {:trigger DueRight(s, t, route, c)} ::
          route in t.routes && c in t.routes[route].due ==> DueRight(s, t, route, c))
  }

  lemma AttemptedCount(route: nat, ids: set<Id>, route': nat, c: Id)
    ensures Attempted(route, ids)[(route', c)] == if route' == route && c in ids then 1 else 0
  {
  }

  lemma MatchingPeers(s: Members, server: ServerId, user: string, tenant: string, c: Id)
    requires Placed(s) && c in Matching(Manager(s, server), user, tenant)
    ensures c in s.peers && s.peers[c].userId == user && s.peers[c].tenantId == tenant && s.peers[c].server == server
  {
  }

  /** What a step of the connections leaves alone: who they are, and that a closed one stays closed. */
  lemma MembersStep(s: Members, step: Step, c: Id)
    requires Placed(s) && c in s.peers
    ensures var s' := NextMembers(s, step);
      && c in s'.peers && s'.peers[c].(phase := s.peers[c].phase) == s.peers[c]
      && (Open(s', c) ==> Open(s, c))
  {
  }

  lemma MembersStepTraffic(s: Members, t: Traffic, step: Step)
    requires Placed(s) && TrafficRight(s, t)
    ensures TrafficRight(NextMembers(s, step), t)
  {
    var s' := NextMembers(s, step);
    forall route, c | (route, c) in t.attempts
      ensures AttemptRight(s', t, route, c)
    {
      assert AttemptRight(s, t, route, c);
      MembersStep(s, step, c);
    }
    forall route, c | route in t.routes && c in t.routes[route].due
      ensures DueRight(s', t, route, c)
    {
      assert DueRight(s, t, route, c);
      MembersStep(s, step, c);
    }
  }

  lemma RouteLocallyTraffic(s: Members, t: Traffic, route: nat, origin: ServerId, user: string, tenant: string)
    requires Placed(s) && TrafficRight(s, t) && route !in t.routes
    ensures TrafficRight(s, DoRouteLocally(s, t, route, origin, user, tenant))
  {
    var t' := DoRouteLocally(s, t, route, origin, user, tenant);
    var here := Matching(Manager(s, origin), user, tenant);
    forall copy | copy in t'.inTransit
      ensures CopyRight(t', copy)
    {
      assert CopyRight(t, copy);
    }
    forall k, server | (k, server) in t'.handled || (k, server) in t'.lost
      ensures MarkRight(t', k, server)
    {
      assert MarkRight(t, k, server);
    }
    forall k, c | (k, c) in t'.attempts
      ensures AttemptRight(s, t', k, c)
    {
      AttemptedCount(route, here, k, c);
      if (k, c) in t.attempts {
        assert AttemptRight(s, t, k, c);
      } else {
        MatchingPeers(s, origin, user, tenant, c);
      }
    }
    forall k, c | k in t'.routes && c in t'.routes[k].due
      ensures DueRight(s, t', k, c)
    {
      AttemptedCount(route, here, k, c);
      if k != route {
        assert DueRight(s, t, k, c);
      } else {
        MatchingPeers(s, origin, user, tenant, c);
        assert (route, c) in t'.attempts;
        assert AttemptRight(s, t', k, c);
      }
    }
  }

  /** Every server listed for a user has had connections. */
  lemma TargetsKnown(s: Members, r: Route)
    requires RegistryRight(s) && Hosted(s)
    ensures Others(s, r) <= s.managers.Keys
  {
    forall server | server in Others(s, r)
      ensures server in s.managers
    {
      assert Listed(s, server, r.userId);
      assert Holds(s, server, r.userId);
    }
  }

  /** Each target gets its copy, and nobody else gets one. */
  lemma CopiesReachTargets(s: Members, route: nat, r: Route, targets: set<ServerId>)
    requires targets <= s.managers.Keys
    ensures forall copy :: copy in Copies(s, route, r, targets) <==>
      copy.receiver in targets && copy == CopyTo(route, r, copy.receiver)
  {
    forall t, server | t in targets
      ensures server in Hearers(s, MessageOf(route, r, t)) <==> server == t
    {
      OnlyTargetListens(ROUTING_CHANNEL, server, MessageOf(route, r, t));
    }
    forall copy: Copy | copy.receiver in targets && copy == CopyTo(route, r, copy.receiver)
      ensures copy in Copies(s, route, r, targets)
    {
      assert copy.receiver in Hearers(s, MessageOf(route, r, copy.receiver));
    }
  }

  lemma AddressedCopies(s: Members, t: Traffic, route: nat, failing: set<ServerId>, copy: Copy)
    requires RegistryRight(s) && Hosted(s) && TrafficRight(s, t) && route in t.routes && !t.routes[route].addressed
    requires copy in DoRouteRemotely(s, t, route, failing).inTransit
    ensures CopyRight(DoRouteRemotely(s, t, route, failing), copy)
  {
    var r := t.routes[route];
    var targets := Others(s, r) - failing;
    TargetsKnown(s, r);
    CopiesReachTargets(s, route, r, targets);
    if copy in t.inTransit {
      assert CopyRight(t, copy);
      assert copy !in Copies(s, route, r, targets);
    } else {
      assert copy in Copies(s, route, r, targets);
      assert copy.receiver !in failing;
    }
    assert forall server :: (route, server) !in t.handled && (route, server) !in t.lost;
  }

  lemma AddressedDue(s: Members, t: Traffic, route: nat, failing: set<ServerId>, c: Id)
    requires RegistryRight(s) && Hosted(s) && TrafficRight(s, t) && route in t.routes && !t.routes[route].addressed
    requires c in DueElsewhere(s, t.routes[route])
    ensures DueRight(s, DoRouteRemotely(s, t, route, failing), route, c)
  {
    var r, server := t.routes[route], s.peers[c].server;
    var targets := Others(s, r) - failing;
    assert Holder(s, c, server, r.userId);
    assert Listed(s, server, r.userId);
    if server in failing {
      assert (route, server) in Marks(route, Others(s, r) * failing);
    } else {
      TargetsKnown(s, r);
      CopiesReachTargets(s, route, r, targets);
      assert CopyTo(route, r, server) in Copies(s, route, r, targets);
    }
  }

  lemma RouteRemotelyTraffic(s: Members, t: Traffic, route: nat, failing: set<ServerId>)
    requires RegistryRight(s) && Hosted(s) && TrafficRight(s, t) && route in t.routes && !t.routes[route].addressed
    ensures TrafficRight(s, DoRouteRemotely(s, t, route, failing))
  {
    var t', r := DoRouteRemotely(s, t, route, failing), t.routes[route];
    forall copy | copy in t'.inTransit
      ensures CopyRight(t', copy)
    {
      AddressedCopies(s, t, route, failing, copy);
    }
    forall k, server | (k, server) in t'.handled || (k, server) in t'.lost
      ensures MarkRight(t', k, server)
    {
      if (k, server) in t.handled || (k, server) in t.lost {
        assert MarkRight(t, k, server);
      } else {
        assert (k, server) in Marks(route, Others(s, r) * failing);
      }
    }
    forall k, c | (k, c) in t'.attempts
      ensures AttemptRight(s, t', k, c)
    {
      assert AttemptRight(s, t, k, c);
    }
    forall k, c | k in t'.routes && c in t'.routes[k].due
      ensures DueRight(s, t', k, c)
    {
      if k in t.routes && c in t.routes[k].due {
        assert DueRight(s, t, k, c);
      } else {
        AddressedDue(s, t, route, failing, c);
      }
    }
  }

  lemma ReceiveTraffic(s: Members, t: Traffic, copy: Copy)
    requires Placed(s) && TrafficRight(s, t) && copy in t.inTransit
    ensures TrafficRight(s, DoReceive(s, t, copy))
  {
    var t', m, route := DoReceive(s, t, copy), copy.message, copy.message.payload;
    assert CopyRight(t, copy);
    var here := Matching(Manager(s, copy.receiver), m.userId, m.tenantId);
    assert Accepts(copy.receiver, m);
    forall other | other in t'.inTransit
      ensures CopyRight(t', other)
    {
      assert CopyRight(t, other);
    }
    forall k, server | (k, server) in t'.handled || (k, server) in t'.lost
      ensures MarkRight(t', k, server)
    {
      assert (k, server) == (route, copy.receiver) || MarkRight(t, k, server);
    }
    forall k, c | (k, c) in t'.attempts
      ensures AttemptRight(s, t', k, c)
    {
      AttemptedCount(route, here, k, c);
      if (k, c) in t.attempts {
        assert AttemptRight(s, t, k, c);
      }
      if k == route && c in here {
        MatchingPeers(s, copy.receiver, m.userId, m.tenantId, c);
      }
    }
    forall k, c | k in t'.routes && c in t'.routes[k].due
      ensures DueRight(s, t', k, c)
    {
      assert DueRight(s, t, k, c);
      assert CopyTo(k, t.routes[k], s.peers[c].server) == copy && Open(s, c) ==> c in here;
      AttemptedCount(route, here, k, c);
      if (k, c) in t'.attempts {
        assert AttemptRight(s, t', k, c);
      }
    }
  }

  lemma LoseTraffic(s: Members, t: Traffic, copy: Copy)
    requires TrafficRight(s, t) && copy in t.inTransit
    ensures TrafficRight(s, DoLose(t, copy))
  {
    var t', route := DoLose(t, copy), copy.message.payload;
    assert CopyRight(t, copy);
    forall other | other in t'.inTransit
      ensures CopyRight(t', other)
    {
      assert CopyRight(t, other);
    }
    forall k, server | (k, server) in t'.handled || (k, server) in t'.lost
      ensures MarkRight(t', k, server)
    {
      assert (k, server) == (route, copy.receiver) || MarkRight(t, k, server);
    }
    forall k, c | (k, c) in t'.attempts
      ensures AttemptRight(s, t', k, c)
    {
      assert AttemptRight(s, t, k, c);
    }
    forall k, c | k in t'.routes && c in t'.routes[k].due
      ensures DueRight(s, t', k, c)
    {
      assert DueRight(s, t, k, c);
    }
  }

  lemma StepKeepsTraffic(s: State, step: Step)
    requires RegistryRight(s.m) && Hosted(s.m) && TrafficRight(s.m, s.t)
    ensures TrafficRight(Next(s, step).m, Next(s, step).t)
  {
    var t' := NextTraffic(s.m, s.t, step);
    if t' != s.t {
      match step {
        case RouteLocally(route, origin, user, tenant) => RouteLocallyTraffic(s.m, s.t, route, origin, user, tenant);
        case RouteRemotely(route, failing) => RouteRemotelyTraffic(s.m, s.t, route, failing);
        case Receive(copy) => ReceiveTraffic(s.m, s.t, copy);
        case Lose(copy) => LoseTraffic(s.m, s.t, copy);
        case _ =>
      }
    }
    MembersStepTraffic(s.m, t', step);
  }

  lemma {:induction false} TrafficRightInEveryRun(steps: seq<Step>)
    ensures TrafficRight(Run(steps).m, Run(steps).t)
    decreases |steps|
  {
    if steps != [] {
      TrafficRightInEveryRun(steps[..|steps| - 1]);
      RegistryRightInEveryRun(steps[..|steps| - 1]);
      StepKeepsTraffic(Run(steps[..|steps| - 1]), steps[|steps| - 1]);
    }
  }

  /** In every run a routing call sends to each connection at most once, and only to connections of its user
      and tenant; and its origin takes none of its copies. */
  lemma DeliveredAtMostOnce(steps: seq<Step>, route: nat, c: Id)
    ensures Run(steps).t.attempts[(route, c)] <= 1
    ensures (route, c) in Run(steps).t.attempts ==>
      route in Run(steps).t.routes && For(Run(steps).m, c, Run(steps).t.routes[route])
    ensures route in Run(steps).t.routes ==> (route, Run(steps).t.routes[route].origin) !in Run(steps).t.handled
  {
    var s := Run(steps);
    TrafficRightInEveryRun(steps);
    if (route, c) in s.t.attempts {
      assert AttemptRight(s.m, s.t, route, c);
    }
  }

  /** Once no copy of an addressed routing call is in transit, and if none was lost, every connection that was
      due and is still open has been sent to exactly once. */
  lemma DeliveredExactlyOnce(steps: seq<Step>, route: nat, c: Id)
    requires route in Run(steps).t.routes && c in Run(steps).t.routes[route].due && Open(Run(steps).m, c)
    requires forall copy :: copy in Run(steps).t.inTransit ==> copy.message.payload != route
    requires forall server :: (route, server) !in Run(steps).t.lost
    ensures Run(steps).t.attempts[(route, c)] == 1
  {
    var s := Run(steps);
    TrafficRightInEveryRun(steps);
    assert DueRight(s.m, s.t, route, c);
  }
}
