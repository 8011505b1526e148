/** Channel names of tenants, and the subscription requests that use them. */
module Tenancy {
  import opened ConnectionManagers

  datatype Option<T> = None | Some(value: T)

  const DEFAULT_TENANT_ID := "default"

  datatype TenantContext = TenantContext(tenantId: string) {
    predicate IsDefault() {
      tenantId == DEFAULT_TENANT_ID
    }

    function NamespaceChannel(channel: string): string {
      if IsDefault() then channel else tenantId + ":" + channel
    }

    function ExtractChannelName(namespaced: string): Option<string> {
      if IsDefault() then
        if ':' in namespaced then None else Some(namespaced)
      else
        var prefix := tenantId + ":";
        if prefix <= namespaced then Some(namespaced[|prefix|..]) else None
    }
  }

  function CreateContext(enabled: bool, tenantId: string): TenantContext {
    if enabled then TenantContext(tenantId) else TenantContext(DEFAULT_TENANT_ID)
  }

  // ---- channel names ----

  function Utf8Length(s: string): nat {
    if s == "" then 0
    else
      var c := s[0] as int;
      (if c < 0x80 then 1 else if c < 0x800 then 2 else if c < 0x10000 then 3 else 4) + Utf8Length(s[1..])
  }

  /** `unicode` classifies the characters beyond ASCII. */
  predicate IsAlphanumeric(c: char, unicode: char -> bool) {
    if c as int < 0x80 then '0' <= c <= '9' || 'A' <= c <= 'Z' || 'a' <= c <= 'z' else unicode(c)
  }

  predicate IsValidChannelName(name: string, unicode: char -> bool) {
    name != "" && Utf8Length(name) <= 64 &&
    forall i :: 0 <= i < |name| ==> IsAlphanumeric(name[i], unicode) || name[i] in "-_."
  }

  lemma ValidNameHasNoColon(name: string, unicode: char -> bool)
    requires IsValidChannelName(name, unicode)
    ensures ':' !in name
  {
    forall i | 0 <= i < |name|
      ensures name[i] != ':'
    {
      assert IsAlphanumeric(name[i], unicode) || name[i] in "-_.";
    }
  }

  const UPPER := "ABCDEFGHIJKLMNOPQRSTUVWXYZ"
  const LOWER := "abcdefghijklmnopqrstuvwxyz"
  const DIGITS := "0123456789"

  lemma {:induction false} AsciiLength(s: string)
    requires forall i :: 0 <= i < |s| ==> s[i] as int < 0x80
    ensures Utf8Length(s) == |s|
  {
    if s != "" {
      AsciiLength(s[1..]);
    }
  }

  lemma Upper(c: char)
    ensures 'A' <= c <= 'Z' <==> c in UPPER
  {
    assert |UPPER| == 26;
    if 'A' <= c <= 'Z' {
      assert UPPER[c as int - 'A' as int] == c;
    }
  }

  lemma Lower(c: char)
    ensures 'a' <= c <= 'z' <==> c in LOWER
  {
    assert |LOWER| == 26;
    if 'a' <= c <= 'z' {
      assert LOWER[c as int - 'a' as int] == c;
    }
  }

  lemma Digit(c: char)
    ensures '0' <= c <= '9' <==> c in DIGITS
  {
    if '0' <= c <= '9' {
      assert DIGITS[c as int - '0' as int] == c;
    }
  }

  predicate NameCharacter(c: char) {
    c in UPPER || c in LOWER || c in DIGITS || c == '-' || c == '_' || c == '.'
  }

  /** Of the names in ASCII those are valid that have 1 to 64 letters, digits, dashes, underscores and dots. */
  lemma ValidAsciiName(name: string, unicode: char -> bool)
    requires forall i :: 0 <= i < |name| ==> name[i] as int < 0x80
    ensures IsValidChannelName(name, unicode)
       <==> 1 <= |name| <= 64 && forall i :: 0 <= i < |name| ==> NameCharacter(name[i])
  {
    AsciiLength(name);
    forall i | 0 <= i < |name|
      ensures IsAlphanumeric(name[i], unicode) || name[i] in "-_." <==> NameCharacter(name[i])
    {
      Upper(name[i]);
      Lower(name[i]);
      Digit(name[i]);
    }
  }

  /** Beyond ASCII a name has the length of its UTF-8 form. */
  lemma {:induction false} Utf8Lengths(s: string, t: string)
    ensures Utf8Length(s + t) == Utf8Length(s) + Utf8Length(t)
    ensures Utf8Length("\U{DF}") == 2 && Utf8Length("\U{20AC}") == 3 && Utf8Length("\U{1F600}") == 4
  {
    if s == "" {
      assert s + t == t;
    } else {
      assert (s + t)[1..] == s[1..] + t;
      Utf8Lengths(s[1..], t);
    }
  }

  lemma ColonMarksTenant(ctx: TenantContext, channel: string)
    ensures ':' in ctx.NamespaceChannel(channel) <==> !ctx.IsDefault() || ':' in channel
  {
    if !ctx.IsDefault() {
      assert ctx.NamespaceChannel(channel)[|ctx.tenantId|] == ':';
    }
  }

  /** Tenant and channel can be read off a namespaced channel, whatever the tenant ids: a valid channel
      name is what follows the last colon. */
  lemma NamespacingInjective(a: TenantContext, b: TenantContext, m: string, n: string)
    requires ':' !in m && ':' !in n
    requires a.NamespaceChannel(m) == b.NamespaceChannel(n)
    ensures a == b && m == n
  {
    ColonMarksTenant(a, m);
    ColonMarksTenant(b, n);
    if !a.IsDefault() {
      LastColonSplits(a.tenantId, b.tenantId, m, n);
    }
  }

  lemma LastColonSplits(s: string, t: string, m: string, n: string)
    requires ':' !in m && ':' !in n && s + ":" + m == t + ":" + n
    ensures s == t && m == n
  {
    var x, y := s + ":" + m, t + ":" + n;
    assert forall i :: |s| < i < |x| ==> x[i] == m[i - |s| - 1];
    assert forall i :: |t| < i < |y| ==> y[i] == n[i - |t| - 1];
    assert x[|s|] == ':' && y[|t|] == ':';
    assert |s| == |t|;
    assert s == x[..|s|] && t == y[..|t|];
    assert m == x[|s| + 1..] && n == y[|t| + 1..];
  }

  lemma SameTenantInjective(ctx: TenantContext, m: string, n: string)
    requires ctx.NamespaceChannel(m) == ctx.NamespaceChannel(n)
    ensures m == n
  {
    if !ctx.IsDefault() {
      var p := ctx.tenantId + ":";
      assert (p + m)[|p|..] == m && (p + n)[|p|..] == n;
    }
  }

  /** Extraction undoes namespacing, but for a colon in a channel of the default tenant. */
  lemma ExtractInverts(ctx: TenantContext, channel: string)
    ensures ctx.ExtractChannelName(ctx.NamespaceChannel(channel)) == Some(channel)
       <==> !ctx.IsDefault() || ':' !in channel
  {
    if !ctx.IsDefault() {
      var p := ctx.tenantId + ":";
      assert (p + channel)[|p|..] == channel;
    }
  }

  /** A tenant takes another tenant's channel for its own exactly when the other's id continues its own
      after a colon. */
  lemma ExtractForeign(ctx: TenantContext, other: TenantContext, channel: string)
    requires ctx != other && ':' !in channel
    ensures ctx.ExtractChannelName(other.NamespaceChannel(channel)) != None
       <==> !ctx.IsDefault() && !other.IsDefault() && ctx.tenantId + ":" <= other.tenantId
  {
    var p, s := ctx.tenantId + ":", other.NamespaceChannel(channel);
    if !other.IsDefault() {
      assert s[|other.tenantId|] == ':';
      assert forall i :: |other.tenantId| < i < |s| ==> s[i] == channel[i - |other.tenantId| - 1];
      if !ctx.IsDefault() && p <= s {
        assert s[|ctx.tenantId|] == p[|ctx.tenantId|] == ':';
        assert |ctx.tenantId| <= |other.tenantId|;
        assert forall i :: 0 <= i < |p| ==> p[i] == s[i];
        assert ctx.tenantId == p[..|ctx.tenantId|] == s[..|ctx.tenantId|];
        assert other.tenantId == s[..|other.tenantId|];
      }
      if p <= other.tenantId {
        assert p == other.tenantId[..|p|] == s[..|p|];
      }
    } else {
      assert p[|ctx.tenantId|] == ':';
      assert ':' in p;
      assert p <= s ==> forall c :: c in p ==> c in s;
    }
  }

  // ---- subscription requests ----

  datatype SubscriptionError = InvalidName(channel: string) | Refused(reason: SubscribeResult)

  datatype Handled = Handled(connections: Connections, subscribed: seq<string>, errors: seq<SubscriptionError>)

  function TrySubscribe(connections: Connections, id: Id, channel: string, max: nat): SubscribeResult {
    if id !in connections then ConnectionNotFound
    else
      var count := |connections[id].subscriptions|;
      if max > 0 && count >= max then SubscriptionLimitExceeded(count, max) else Subscribed
  }

  function SubscribeAll(
    connections: Connections, id: Id, ctx: TenantContext, channels: seq<string>, max: nat, unicode: char -> bool)
    : Handled
    decreases |channels|
  {
    if channels == [] then Handled(connections, [], [])
    else
      var last := |channels| - 1;
      var h := SubscribeAll(connections, id, ctx, channels[..last], max, unicode);
      var channel := channels[last];
      if !IsValidChannelName(channel, unicode) then h.(errors := h.errors + [InvalidName(channel)])
      else
        var r := TrySubscribe(h.connections, id, ctx.NamespaceChannel(channel), max);
        if r.Subscribed? then
          Handled(WithSubscription(h.connections, id, ctx.NamespaceChannel(channel)),
                  h.subscribed + [channel], h.errors)
        else h.(errors := h.errors + [Refused(r)])
  }

  function UnsubscribeAll(connections: Connections, id: Id, ctx: TenantContext, channels: seq<string>): Connections
    decreases |channels|
  {
    if channels == [] then connections
    else
      var last := |channels| - 1;
      var before := UnsubscribeAll(connections, id, ctx, channels[..last]);
      WithoutSubscription(before, id, ctx.NamespaceChannel(channels[last]))
  }

  method HandleSubscribe(
    manager: ConnectionManager, enabled: bool, id: Id, tenantId: string, channels: seq<string>, unicode: char -> bool)
    returns (subscribed: seq<string>, errors: seq<SubscriptionError>)
    requires manager.Valid()
    modifies manager
    ensures manager.Valid()
    ensures Handled(manager.connections, subscribed, errors)
         == SubscribeAll(old(manager.connections), id, CreateContext(enabled, tenantId), channels,
                         manager.limits.maxSubscriptionsPerConnection, unicode)
  {
    subscribed, errors := [], [];
    var ctx := CreateContext(enabled, tenantId);
    for i := 0 to |channels|
      invariant manager.Valid()
      invariant Handled(manager.connections, subscribed, errors)
             == SubscribeAll(old(manager.connections), id, ctx, channels[..i],
                             manager.limits.maxSubscriptionsPerConnection, unicode)
    {
      var channel := channels[i];
      assert channels[..i + 1][..i] == channels[..i];
      if !IsValidChannelName(channel, unicode) {
        errors := errors + [InvalidName(channel)];
      } else {
        var namespaced := ctx.NamespaceChannel(channel);
        var r := manager.SubscribeToChannel(id, namespaced);
        if r.Subscribed? {
          subscribed := subscribed + [channel];
        } else {
          errors := errors + [Refused(r)];
        }
      }
    }
    assert channels[..|channels|] == channels;
  }

  method HandleUnsubscribe(
    manager: ConnectionManager, enabled: bool, id: Id, tenantId: string, channels: seq<string>)
    returns (unsubscribed: seq<string>)
    requires manager.Valid()
    modifies manager
    ensures manager.Valid()
    ensures manager.connections
      == UnsubscribeAll(old(manager.connections), id, CreateContext(enabled, tenantId), channels)
    ensures unsubscribed == channels
  {
    unsubscribed := [];
    var ctx := CreateContext(enabled, tenantId);
    for i := 0 to |channels|
      invariant manager.Valid() && unsubscribed == channels[..i]
      invariant manager.connections == UnsubscribeAll(old(manager.connections), id, ctx, channels[..i])
    {
      assert channels[..i + 1][..i] == channels[..i];
      manager.UnsubscribeFromChannel(id, ctx.NamespaceChannel(channels[i]));
      unsubscribed := unsubscribed + [channels[i]];
    }
    assert channels[..|channels|] == channels;
  }

  // ---- runs of a server ----

  datatype Event =
    | Connect(id: Id, userId: string, tenantId: string, now: int)
    | Disconnect(id: Id)
    | Subscribe(id: Id, channels: seq<string>)
    | Unsubscribe(id: Id, channels: seq<string>)

  datatype Server = Server(enabled: bool, limits: Limits, unicode: char -> bool)

  predicate Admits(connections: Connections, user: string, limits: Limits) {
    (limits.maxConnections == 0 || |connections| < limits.maxConnections) &&
    (limits.maxConnectionsPerUser == 0 || |OfUser(connections, user)| < limits.maxConnectionsPerUser)
  }

  /** The handlers use the tenant of the connection they serve. */
  function Next(server: Server, connections: Connections, event: Event): Connections {
    match event
    case Connect(id, user, tenant, now) =>
      if id !in connections && Admits(connections, user, server.limits)
      then connections[id := Handle(user, tenant, now, {})] else connections
    case Disconnect(id) => connections - {id}
    case Subscribe(id, channels) =>
      if id !in connections then connections
      else
        SubscribeAll(connections, id, CreateContext(server.enabled, connections[id].tenantId), channels,
                     server.limits.maxSubscriptionsPerConnection, server.unicode).connections
    case Unsubscribe(id, channels) =>
      if id !in connections then connections
      else UnsubscribeAll(connections, id, CreateContext(server.enabled, connections[id].tenantId), channels)
  }

  function Run(server: Server, events: seq<Event>): Connections
    decreases |events|
  {
    if events == [] then map[] else Next(server, Run(server, events[..|events| - 1]), events[|events| - 1])
  }

  // ---- the same run in the clients' own terms ----

  /** A client and the channels it follows, by the names it uses for them. */
  datatype Client = Client(userId: string, tenantId: string, follows: set<string>)

  type Clients = map<Id, Client>

  function Follow(client: Client, channels: seq<string>, max: nat, unicode: char -> bool): Client
    decreases |channels|
  {
    if channels == [] then client
    else FollowOne(Follow(client, channels[..|channels| - 1], max, unicode), channels[|channels| - 1], max, unicode)
  }

  /** One more name is followed if it is valid and there is room. */
  function FollowOne(client: Client, channel: string, max: nat, unicode: char -> bool): Client {
    if IsValidChannelName(channel, unicode) && (max == 0 || |client.follows| < max)
    then client.(follows := client.follows + {channel}) else client
  }

  function ClientNext(server: Server, clients: Clients, event: Event): Clients {
    match event
    case Connect(id, user, tenant, _) =>
      var ofUser := set c | c in clients && clients[c].userId == user;
      if id !in clients && (server.limits.maxConnections == 0 || |clients| < server.limits.maxConnections)
         && (server.limits.maxConnectionsPerUser == 0 || |ofUser| < server.limits.maxConnectionsPerUser)
      then clients[id := Client(user, tenant, {})] else clients
    case Disconnect(id) => clients - {id}
    case Subscribe(id, channels) =>
      if id !in clients then clients
      else clients[id := Follow(clients[id], channels, server.limits.maxSubscriptionsPerConnection, server.unicode)]
    case Unsubscribe(id, channels) =>
      if id !in clients then clients
      else clients[id := clients[id].(follows := clients[id].follows - Elements(channels))]
  }

  function ClientRun(server: Server, events: seq<Event>): Clients
    decreases |events|
  {
    if events == [] then map[] else ClientNext(server, ClientRun(server, events[..|events| - 1]), events[|events| - 1])
  }

  function Namespaced(ctx: TenantContext, names: set<string>): set<string> {
    set n | n in names :: ctx.NamespaceChannel(n)
  }

  ghost predicate Implements(server: Server, h: Handle, c: Client) {
    && h.userId == c.userId && h.tenantId == c.tenantId
    && h.subscriptions == Namespaced(CreateContext(server.enabled, c.tenantId), c.follows)
    && forall n :: n in c.follows ==> IsValidChannelName(n, server.unicode)
  }

  ghost predicate AllImplement(server: Server, connections: Connections, clients: Clients) {
    connections.Keys == clients.Keys && forall id :: id in clients ==> Implements(server, connections[id], clients[id])
  }

  lemma {:induction false} NamespacedCount(ctx: TenantContext, names: set<string>)
    ensures |Namespaced(ctx, names)| == |names|
    decreases names
  {
    if names != {} {
      var n :| n in names;
      NamespacedCount(ctx, names - {n});
      forall m | m in names - {n}
        ensures ctx.NamespaceChannel(m) != ctx.NamespaceChannel(n)
      {
        if ctx.NamespaceChannel(m) == ctx.NamespaceChannel(n) { SameTenantInjective(ctx, m, n); }
      }
      assert Namespaced(ctx, names) == Namespaced(ctx, names - {n}) + {ctx.NamespaceChannel(n)};
    }
  }

  lemma {:induction false} SubscribeImplements(
    server: Server, connections: Connections, client: Client, id: Id, channels: seq<string>)
    requires id in connections && Implements(server, connections[id], client)
    ensures var max := server.limits.maxSubscriptionsPerConnection;
      var ctx := CreateContext(server.enabled, client.tenantId);
      var after := SubscribeAll(connections, id, ctx, channels, max, server.unicode).connections;
      id in after && after == connections[id := after[id]] &&
      Implements(server, after[id], Follow(client, channels, max, server.unicode))
    ensures var c := Follow(client, channels, server.limits.maxSubscriptionsPerConnection, server.unicode);
      c.userId == client.userId && c.tenantId == client.tenantId
    decreases |channels|
  {
    if channels == [] {
      assert connections == connections[id := connections[id]];
    } else {
      var max, ctx := server.limits.maxSubscriptionsPerConnection, CreateContext(server.enabled, client.tenantId);
      var init, channel := channels[..|channels| - 1], channels[|channels| - 1];
      SubscribeImplements(server, connections, client, id, init);
      var h := SubscribeAll(connections, id, ctx, init, max, server.unicode);
      OneMoreImplements(server, h.connections, Follow(client, init, max, server.unicode), id, channel);
      SubscribeLast(connections, id, ctx, channels, max, server.unicode);
    }
  }

  /** What the last channel of a request does to the connections. */
  lemma SubscribeLast(
    connections: Connections, id: Id, ctx: TenantContext, channels: seq<string>, max: nat, unicode: char -> bool)
    requires channels != []
    ensures var init, channel := channels[..|channels| - 1], channels[|channels| - 1];
      var before := SubscribeAll(connections, id, ctx, init, max, unicode).connections;
      SubscribeAll(connections, id, ctx, channels, max, unicode).connections ==
        if IsValidChannelName(channel, unicode)
           && TrySubscribe(before, id, ctx.NamespaceChannel(channel), max).Subscribed?
        then WithSubscription(before, id, ctx.NamespaceChannel(channel)) else before
  {
  }

  lemma OneMoreImplements(server: Server, connections: Connections, client: Client, id: Id, channel: string)
    requires id in connections && Implements(server, connections[id], client)
    ensures var ctx := CreateContext(server.enabled, client.tenantId);
      var max := server.limits.maxSubscriptionsPerConnection;
      TrySubscribe(connections, id, ctx.NamespaceChannel(channel), max).Subscribed?
      <==> max == 0 || |client.follows| < max
    ensures var ctx := CreateContext(server.enabled, client.tenantId);
      var after := WithSubscription(connections, id, ctx.NamespaceChannel(channel));
      after == connections[id := after[id]] &&
      (IsValidChannelName(channel, server.unicode) ==>
        Implements(server, after[id], client.(follows := client.follows + {channel})))
  {
    var ctx := CreateContext(server.enabled, client.tenantId);
    NamespacedCount(ctx, client.follows);
    assert Namespaced(ctx, client.follows + {channel})
      == Namespaced(ctx, client.follows) + {ctx.NamespaceChannel(channel)};
  }

  lemma {:induction false} UnsubscribeImplements(
    server: Server, connections: Connections, client: Client, id: Id, channels: seq<string>)
    requires id in connections && Implements(server, connections[id], client)
    ensures var after := UnsubscribeAll(connections, id, CreateContext(server.enabled, client.tenantId), channels);
      id in after && after == connections[id := after[id]] &&
      Implements(server, after[id], client.(follows := client.follows - Elements(channels)))
    decreases |channels|
  {
    if channels == [] {
      assert connections == connections[id := connections[id]];
      assert client.follows - Elements(channels) == client.follows;
    } else {
      var ctx := CreateContext(server.enabled, client.tenantId);
      var init, channel := channels[..|channels| - 1], channels[|channels| - 1];
      UnsubscribeImplements(server, connections, client, id, init);
      var kept := client.follows - Elements(init);
      assert Elements(channels) == Elements(init) + {channel} by { assert channels == init + [channel]; }
      assert client.follows - Elements(channels) == kept - {channel};
      forall m | m in kept && m != channel
        ensures ctx.NamespaceChannel(m) != ctx.NamespaceChannel(channel)
      {
        if ctx.NamespaceChannel(m) == ctx.NamespaceChannel(channel) { SameTenantInjective(ctx, m, channel); }
      }
      assert Namespaced(ctx, kept - {channel}) == Namespaced(ctx, kept) - {ctx.NamespaceChannel(channel)};
    }
  }

  lemma ConnectImplements(server: Server, connections: Connections, clients: Clients, event: Event)
    requires AllImplement(server, connections, clients) && event.Connect?
    ensures AllImplement(server, Next(server, connections, event), ClientNext(server, clients, event))
  {
    assert OfUser(connections, event.userId) == set c | c in clients && clients[c].userId == event.userId;
    assert |connections| == |connections.Keys| == |clients.Keys| == |clients|;
    assert Namespaced(CreateContext(server.enabled, event.tenantId), {}) == {};
  }

  /** In every run, each connection is subscribed to the namespaced forms of what its client follows. */
  lemma {:induction false} RunImplementsClients(server: Server, events: seq<Event>)
    ensures AllImplement(server, Run(server, events), ClientRun(server, events))
    decreases |events|
  {
    if events != [] {
      var init, event := events[..|events| - 1], events[|events| - 1];
      RunImplementsClients(server, init);
      var connections, clients := Run(server, init), ClientRun(server, init);
      match event {
        case Connect(id, user, tenant, now) =>
          ConnectImplements(server, connections, clients, event);
        case Disconnect(id) =>
        case Subscribe(id, channels) =>
          if id in connections {
            SubscribeImplements(server, connections, clients[id], id, channels);
          }
        case Unsubscribe(id, channels) =>
          if id in connections {
            UnsubscribeImplements(server, connections, clients[id], id, channels);
          }
      }
    }
  }

  /** With tenancy enabled, a send to a tenant's channel reaches exactly the tenant's clients that follow it,
      and so none of another tenant. */
  lemma ChannelReachesOwnFollowers(server: Server, events: seq<Event>, tenant: string, name: string)
    requires server.enabled && IsValidChannelName(name, server.unicode)
    ensures var connections, clients := Run(server, events), ClientRun(server, events);
      var reached := OfChannel(connections, TenantContext(tenant).NamespaceChannel(name));
      && reached == (set c | c in clients && clients[c].tenantId == tenant && name in clients[c].follows)
      && reached <= OfTenant(connections, tenant)
  {
    RunImplementsClients(server, events);
    var connections, clients := Run(server, events), ClientRun(server, events);
    var ctx := TenantContext(tenant);
    var channel := ctx.NamespaceChannel(name);
    ValidNameHasNoColon(name, server.unicode);
    forall c | c in clients
      ensures channel in connections[c].subscriptions <==> clients[c].tenantId == tenant && name in clients[c].follows
    {
      assert Implements(server, connections[c], clients[c]);
      var own := TenantContext(clients[c].tenantId);
      if channel in connections[c].subscriptions {
        var n :| n in clients[c].follows && own.NamespaceChannel(n) == channel;
        ValidNameHasNoColon(n, server.unicode);
        NamespacingInjective(own, ctx, n, name);
      }
    }
  }

  // ---- what a subscriber is told ----

  /** The reply to a subscription request, told by the names and by what the client followed before and follows
      now: each name asked for is confirmed, invalid or refused; invalid are exactly those that are; a refusal
      names a limit that is reached; and the client follows what it did and what was confirmed. */
  ghost predicate ReplyTells(
    client: Client, after: Client, channels: seq<string>, max: nat, unicode: char -> bool, h: Handled)
  {
    && |h.subscribed| + |h.errors| == |channels|
    && after == client.(follows := client.follows + Elements(h.subscribed))
    && (forall ch :: ch in h.subscribed ==> ch in channels && IsValidChannelName(ch, unicode))
    && (forall ch :: InvalidName(ch) in h.errors <==> ch in channels && !IsValidChannelName(ch, unicode))
    && (forall r :: Refused(r) in h.errors ==>
          max > 0 && r == SubscriptionLimitExceeded(|after.follows|, max) && |after.follows| >= max)
    && (max == 0 ==> forall ch :: ch in channels && IsValidChannelName(ch, unicode) ==> ch in h.subscribed)
    && (max > 0 && |client.follows| <= max ==> |after.follows| <= max)
  }

  lemma {:induction false} SubscribeReply(
    server: Server, connections: Connections, client: Client, id: Id, channels: seq<string>)
    requires id in connections && Implements(server, connections[id], client)
    ensures var max := server.limits.maxSubscriptionsPerConnection;
      ReplyTells(client, Follow(client, channels, max, server.unicode), channels, max, server.unicode,
        SubscribeAll(connections, id, CreateContext(server.enabled, client.tenantId), channels, max, server.unicode))
    decreases |channels|
  {
    if channels == [] {
      assert client.follows + Elements<string>([]) == client.follows;
    } else {
      SubscribeReply(server, connections, client, id, channels[..|channels| - 1]);
      SubscribeImplements(server, connections, client, id, channels[..|channels| - 1]);
      ReplyNext(server, connections, client, id, channels);
    }
  }

  lemma ReplyNext(server: Server, connections: Connections, client: Client, id: Id, channels: seq<string>)
    requires channels != []
    requires var init, ctx := channels[..|channels| - 1], CreateContext(server.enabled, client.tenantId);
      var max := server.limits.maxSubscriptionsPerConnection;
      var h := SubscribeAll(connections, id, ctx, init, max, server.unicode);
      var before := Follow(client, init, max, server.unicode);
      && id in h.connections && Implements(server, h.connections[id], before)
      && ReplyTells(client, before, init, max, server.unicode, h)
    ensures var max := server.limits.maxSubscriptionsPerConnection;
      ReplyTells(client, Follow(client, channels, max, server.unicode), channels, max, server.unicode,
        SubscribeAll(connections, id, CreateContext(server.enabled, client.tenantId), channels, max, server.unicode))
  {
    var max, ctx := server.limits.maxSubscriptionsPerConnection, CreateContext(server.enabled, client.tenantId);
    var init, channel := channels[..|channels| - 1], channels[|channels| - 1];
    var h := SubscribeAll(connections, id, ctx, init, max, server.unicode);
    var before := Follow(client, init, max, server.unicode);
    SubscriptionCount(server, h.connections[id], before);
    ReplyOfLast(connections, id, ctx, channels, max, server.unicode, |before.follows|);
    ReplyStep(client, before, Follow(client, channels, max, server.unicode), channels, max, server.unicode, h,
      SubscribeAll(connections, id, ctx, channels, max, server.unicode),
      WithSubscription(h.connections, id, ctx.NamespaceChannel(channel)));
  }

  lemma ReplyStep(
    client: Client, before: Client, after: Client, channels: seq<string>, max: nat, unicode: char -> bool,
    h: Handled, h': Handled, connections: Connections)
    requires channels != [] && ReplyTells(client, before, channels[..|channels| - 1], max, unicode, h)
    requires after == FollowOne(before, channels[|channels| - 1], max, unicode)
    requires var channel := channels[|channels| - 1];
      h' == if !IsValidChannelName(channel, unicode) then h.(errors := h.errors + [InvalidName(channel)])
            else if max == 0 || |before.follows| < max then Handled(connections, h.subscribed + [channel], h.errors)
            else h.(errors := h.errors + [Refused(SubscriptionLimitExceeded(|before.follows|, max))])
    ensures ReplyTells(client, after, channels, max, unicode, h')
  {
    var init, channel := channels[..|channels| - 1], channels[|channels| - 1];
    if !IsValidChannelName(channel, unicode) {
      InvalidTold(client, before, init, channel, max, unicode, h);
    } else if max == 0 || |before.follows| < max {
      ConfirmedTold(client, before, init, channel, max, unicode, h, connections);
    } else {
      RefusedTold(client, before, init, channel, max, unicode, h);
    }
    assert channels == init + [channel];
  }

  /** What the last channel adds to the reply. */
  lemma ReplyOfLast(
    connections: Connections, id: Id, ctx: TenantContext, channels: seq<string>, max: nat, unicode: char -> bool,
    count: nat)
    requires channels != []
    requires var h := SubscribeAll(connections, id, ctx, channels[..|channels| - 1], max, unicode);
      id in h.connections && |h.connections[id].subscriptions| == count
    ensures var channel := channels[|channels| - 1];
      var h := SubscribeAll(connections, id, ctx, channels[..|channels| - 1], max, unicode);
      SubscribeAll(connections, id, ctx, channels, max, unicode) ==
        if !IsValidChannelName(channel, unicode) then h.(errors := h.errors + [InvalidName(channel)])
        else if max == 0 || count < max then
          Handled(WithSubscription(h.connections, id, ctx.NamespaceChannel(channel)),
                  h.subscribed + [channel], h.errors)
        else h.(errors := h.errors + [Refused(SubscriptionLimitExceeded(count, max))])
  {
  }

  lemma SubscriptionCount(server: Server, h: Handle, client: Client)
    requires Implements(server, h, client)
    ensures |h.subscriptions| == |client.follows|
  {
    NamespacedCount(CreateContext(server.enabled, client.tenantId), client.follows);
  }

  lemma InvalidTold(
    client: Client, after: Client, init: seq<string>, channel: string, max: nat, unicode: char -> bool, h: Handled)
    requires ReplyTells(client, after, init, max, unicode, h) && !IsValidChannelName(channel, unicode)
    ensures ReplyTells(client, after, init + [channel], max, unicode, h.(errors := h.errors + [InvalidName(channel)]))
  {
  }

  lemma RefusedTold(
    client: Client, after: Client, init: seq<string>, channel: string, max: nat, unicode: char -> bool, h: Handled)
    requires ReplyTells(client, after, init, max, unicode, h) && IsValidChannelName(channel, unicode)
    requires max > 0 && |after.follows| >= max
    ensures ReplyTells(client, after, init + [channel], max, unicode,
      h.(errors := h.errors + [Refused(SubscriptionLimitExceeded(|after.follows|, max))]))
  {
  }

  lemma ConfirmedTold(
    client: Client, before: Client, init: seq<string>, channel: string, max: nat, unicode: char -> bool, h: Handled,
    connections: Connections)
    requires ReplyTells(client, before, init, max, unicode, h) && IsValidChannelName(channel, unicode)
    requires max == 0 || |before.follows| < max
    ensures ReplyTells(client, before.(follows := before.follows + {channel}), init + [channel], max, unicode,
      Handled(connections, h.subscribed + [channel], h.errors))
  {
    var after := before.(follows := before.follows + {channel});
    assert Elements(h.subscribed + [channel]) == Elements(h.subscribed) + {channel};
    assert after.follows == client.follows + Elements(h.subscribed + [channel]);
    assert forall r :: Refused(r) !in h.errors;
  }

  // ---- sends under names that were not validated ----

  /** The last colon, or -1. */
  function LastColon(s: string): (i: int)
    ensures -1 <= i < |s|
    ensures i >= 0 ==> s[i] == ':'
    ensures forall j :: i < j < |s| ==> s[j] != ':'
  {
    if s == "" then -1
    else if s[|s| - 1] == ':' then |s| - 1
    else LastColon(s[..|s| - 1])
  }

  /** Two ways to read the same text agree on what follows the last colon, and on what precedes it. */
  lemma SameLastSegment(prefix: string, name: string, left: string, right: string)
    requires ':' in name && ':' !in right && prefix + name == left + ":" + right
    ensures LastColon(name) >= 0
    ensures name[LastColon(name) + 1..] == right && prefix + name[..LastColon(name)] == left
  {
    var i := LastColon(name);
    var segment := name[i + 1..];
    assert name == name[..i] + ":" + segment;
    assert prefix + name == (prefix + name[..i]) + ":" + segment;
    LastColonSplits(prefix + name[..i], left, segment, right);
  }

  /** In some run a send to this name on behalf of the tenant reaches a connection of another tenant. */
  ghost predicate ReachesOthers(server: Server, tenant: string, name: string) {
    exists events, c :: ReachesOther(server, events, tenant, name, c)
  }

  predicate ReachesOther(server: Server, events: seq<Event>, tenant: string, name: string, c: Id) {
    var connections := Run(server, events);
    c in OfChannel(connections, TenantContext(tenant).NamespaceChannel(name)) && connections[c].tenantId != tenant
  }

  /** The name ends in a valid channel name after a colon, and what stands before is not the default tenant
      written out by the default tenant itself. */
  predicate LooksNamespaced(server: Server, tenant: string, name: string) {
    var i := LastColon(name);
    i >= 0 && IsValidChannelName(name[i + 1..], server.unicode)
    && (TenantContext(tenant).IsDefault() ==> name[..i] != DEFAULT_TENANT_ID)
  }

  /** A first client is always admitted, and so is its first subscription. */
  lemma FirstSubscription(server: Server, tenant: string, name: string)
    requires IsValidChannelName(name, server.unicode)
    ensures Run(server, [Connect(1, "u", tenant, 0), Subscribe(1, [name])])
         == map[1 := Handle("u", tenant, 0, {CreateContext(server.enabled, tenant).NamespaceChannel(name)})]
  {
    var events := [Connect(1, "u", tenant, 0), Subscribe(1, [name])];
    var ctx, max := CreateContext(server.enabled, tenant), server.limits.maxSubscriptionsPerConnection;
    assert events[..1] == [Connect(1, "u", tenant, 0)] && events[..1][..0] == [];
    assert Run(server, events[..1][..0]) == map[];
    assert OfUser(map[], "u") == {};
    var c1 := Run(server, events[..1]);
    assert c1 == Next(server, map[], Connect(1, "u", tenant, 0)) == map[1 := Handle("u", tenant, 0, {})];
    assert [name][..0] == [];
    assert SubscribeAll(c1, 1, ctx, [], max, server.unicode).connections == c1;
    assert Run(server, events) == WithSubscription(c1, 1, ctx.NamespaceChannel(name));
  }

  lemma OthersChannelLooksNamespaced(server: Server, tenant: string, name: string, other: string, n: string)
    requires other != tenant && IsValidChannelName(n, server.unicode)
    requires TenantContext(other).NamespaceChannel(n) == TenantContext(tenant).NamespaceChannel(name)
    ensures LooksNamespaced(server, tenant, name)
  {
    var ctx, own := TenantContext(tenant), TenantContext(other);
    ValidNameHasNoColon(n, server.unicode);
    ColonMarksTenant(ctx, name);
    ColonMarksTenant(own, n);
    if ':' !in name {
      NamespacingInjective(own, ctx, n, name);
    } else {
      var prefix := if ctx.IsDefault() then "" else tenant + ":";
      assert prefix + name == ctx.NamespaceChannel(name);
      SameLastSegment(prefix, name, other, n);
    }
  }

  lemma OtherTenant(server: Server, tenant: string, name: string) returns (other: string, n: string)
    requires LooksNamespaced(server, tenant, name)
    ensures other != tenant && IsValidChannelName(n, server.unicode)
    ensures TenantContext(tenant).NamespaceChannel(name) == TenantContext(other).NamespaceChannel(n)
  {
    var i := LastColon(name);
    n := name[i + 1..];
    assert name == name[..i] + ":" + n;
    if tenant == DEFAULT_TENANT_ID {
      other := name[..i];
    } else {
      other := tenant + ":" + name[..i];
      assert other[|tenant|] == ':' && ':' !in DEFAULT_TENANT_ID;
      assert tenant + ":" + name == other + ":" + n;
    }
  }

  lemma LooksNamespacedReaches(server: Server, tenant: string, name: string)
    requires server.enabled && LooksNamespaced(server, tenant, name)
    ensures ReachesOthers(server, tenant, name)
  {
    var other, n := OtherTenant(server, tenant, name);
    FirstSubscription(server, other, n);
    assert ReachesOther(server, [Connect(1, "u", other, 0), Subscribe(1, [n])], tenant, name, 1);
  }

  /** The endpoints that send to channels do not validate names. With tenancy enabled a send stays within its
      tenant in every run exactly when its name does not look like a namespaced channel. */
  lemma ReachesOthersExactly(server: Server, tenant: string, name: string)
    requires server.enabled
    ensures ReachesOthers(server, tenant, name) <==> LooksNamespaced(server, tenant, name)
  {
    if ReachesOthers(server, tenant, name) {
      var events, c :| ReachesOther(server, events, tenant, name, c);
      RunImplementsClients(server, events);
      var client := ClientRun(server, events)[c];
      assert Implements(server, Run(server, events)[c], client);
      var n :| n in client.follows
        && TenantContext(client.tenantId).NamespaceChannel(n) == TenantContext(tenant).NamespaceChannel(name);
      OthersChannelLooksNamespaced(server, tenant, name, client.tenantId, n);
    }
    if LooksNamespaced(server, tenant, name) {
      LooksNamespacedReaches(server, tenant, name);
    }
  }

  /** With tenancy disabled all tenants share their channels. */
  lemma DisabledTenancyShares()
    ensures var server := Server(false, Limits(0, 0, 0), c => false);
      var events := [Connect(1, "u", "a", 0), Subscribe(1, ["x"])];
      OfChannel(Run(server, events), CreateContext(false, "b").NamespaceChannel("x")) == {1}
      && OfTenant(Run(server, events), "b") == {}
  {
    var server := Server(false, Limits(0, 0, 0), c => false);
    assert Utf8Length("x") == 1 + Utf8Length("x"[1..]) == 1;
    assert IsValidChannelName("x", server.unicode);
    FirstSubscription(server, "a", "x");
  }
}
