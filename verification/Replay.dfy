/** Queues of offline users, filled by the dispatcher and replayed when a connection opens. */
module Replays {
  import opened MachineInts
  import opened Tenancy
  import opened Dispatchers
  import Queue = OfflineQueues

  // ---- when two recipients share a queue ----

  /** The user id of the first recipient spells out the rest of the second tenant's id, and its user. */
  predicate SpellsOut(tenant: string, user: string, tenant': string, user': string) {
    if tenant == "default" then tenant' != "default" && user == tenant' + ":" + user'
    else
      tenant' != "default" && tenant + ":" <= tenant' && user == tenant'[|tenant| + 1..] + ":" + user'
  }

  predicate SameRecipient(tenant: string, user: string, tenant': string, user': string) {
    || (tenant == tenant' && user == user')
    || SpellsOut(tenant, user, tenant', user')
    || SpellsOut(tenant', user', tenant, user)
  }

  /** No tenant means the default one. */
  function TenantOf(scope: Option<string>): string {
    if scope.Some? then scope.value else "default"
  }

  /** Of two readings of a key, the one with the longer tenant id continues the other. */
  lemma LongerContinues(s: string, u: string, t: string, v: string)
    requires s + ":" + u == t + ":" + v && |s| < |t|
    ensures s + ":" <= t && u == t[|s| + 1..] + ":" + v
  {
    var key := t + ":" + v;
    assert key[..|s|] == s && key[|s|] == ':' && key[|s| + 1..] == u by {
      assert key == s + ":" + u;
    }
    assert t == key[..|t|];
    assert t == s + ":" + t[|s| + 1..];
    assert u == key[|s| + 1..] == t[|s| + 1..] + ":" + v;
  }

  lemma SpellsOutSameKey(tenant: string, user: string, tenant': string, user': string)
    requires SpellsOut(tenant, user, tenant', user')
    ensures TenantScopedKey(tenant, user) == TenantScopedKey(tenant', user')
  {
    if tenant != "default" {
      assert tenant' == tenant + ":" + tenant'[|tenant| + 1..];
    }
  }

  /** Two recipients share a queue exactly if they are the same or the user id of one spells out the tenant
      of the other. */
  lemma QueueKeyExactly(tenant: Option<string>, user: string, tenant': Option<string>, user': string)
    ensures TenantQueueKey(tenant, user) == TenantQueueKey(tenant', user')
       <==> SameRecipient(TenantOf(tenant), user, TenantOf(tenant'), user')
  {
    ScopedKeyExactly(TenantOf(tenant), user, TenantOf(tenant'), user');
  }

  lemma ScopedKeyExactly(tenant: string, user: string, tenant': string, user': string)
    ensures TenantScopedKey(tenant, user) == TenantScopedKey(tenant', user')
       <==> SameRecipient(tenant, user, tenant', user')
  {
    if SpellsOut(tenant, user, tenant', user') {
      SpellsOutSameKey(tenant, user, tenant', user');
    }
    if SpellsOut(tenant', user', tenant, user) {
      SpellsOutSameKey(tenant', user', tenant, user);
    }
    if TenantScopedKey(tenant, user) == TenantScopedKey(tenant', user') && tenant != "default" && tenant' != "default" {
      if |tenant| < |tenant'| {
        LongerContinues(tenant, user, tenant', user');
      } else if |tenant'| < |tenant| {
        LongerContinues(tenant', user', tenant, user);
      } else {
        SameLengthSame(tenant, user, tenant', user');
      }
    }
  }

  lemma SameLengthSame(s: string, u: string, t: string, v: string)
    requires s + ":" + u == t + ":" + v && |s| == |t|
    ensures s == t && u == v
  {
    assert s == (s + ":" + u)[..|s|] && t == (t + ":" + v)[..|s|];
    assert u == (s + ":" + u)[|s| + 1..] && v == (t + ":" + v)[|s| + 1..];
  }

  /** User ids without a colon never share a queue. */
  lemma PlainUsersApart(tenant: string, user: string, tenant': string, user': string)
    requires ':' !in user && ':' !in user'
    ensures SameRecipient(tenant, user, tenant', user') <==> tenant == tenant' && user == user'
  {
    assert SpellsOut(tenant, user, tenant', user') ==> ':' in user;
    assert SpellsOut(tenant', user', tenant, user) ==> ':' in user';
  }

  // ---- runs ----

  /** A notification is queued for a user found offline, a connection opens and replays its queue, or the
      background cleanup runs. */
  datatype Event =
    | Missed(scope: Option<string>, user: string, message: Queue.Message)
    | Opened(tenant: string, user: string, at: int)
    | Swept(at: int)

  /** What the event does to the queue backend. */
  function QueueOp(e: Event): Queue.Op {
    match e
    case Missed(tenant, user, m) => Queue.Enqueue(TenantQueueKey(tenant, user), m)
    case Opened(tenant, user, at) => Queue.Drain(TenantScopedKey(tenant, user), at)
    case Swept(at) => Queue.Cleanup(at)
  }

  function QueueOps(events: seq<Event>): seq<Queue.Op> {
    seq(|events|, i requires 0 <= i < |events| => QueueOp(events[i]))
  }

  /** What was queued for the recipient since a connection of it last opened, told by tenants and users. */
  function MissedBy(events: seq<Event>, tenant: string, user: string): seq<Queue.Message>
    decreases |events|
  {
    if events == [] then []
    else
      var before := MissedBy(events[..|events| - 1], tenant, user);
      match events[|events| - 1]
      case Missed(t, u, m) =>
        if SameRecipient(TenantOf(t), u, tenant, user) then before + [m] else before
      case Opened(t, u, _) => if SameRecipient(t, u, tenant, user) then [] else before
      case Swept(_) => before
  }

  lemma {:induction false} MissedIsSince(events: seq<Event>, tenant: string, user: string)
    ensures Queue.Since(QueueOps(events), TenantScopedKey(tenant, user)) == MissedBy(events, tenant, user)
    decreases |events|
  {
    if events != [] {
      var init, e := events[..|events| - 1], events[|events| - 1];
      assert QueueOps(events)[..|events| - 1] == QueueOps(init);
      MissedIsSince(init, tenant, user);
      match e {
        case Missed(t, u, _) => QueueKeyExactly(t, u, Some(tenant), user);
        case Opened(t, u, _) => ScopedKeyExactly(t, u, tenant, user);
        case Swept(_) =>
      }
    }
  }

  /** When a connection opens it is replayed, in order, the newest messages queued for its tenant and user,
      up to the bound, that are younger than the time to live; cleanups do not show. */
  lemma ReplayedOnOpening(cfg: Queue.Config, events: seq<Event>, tenant: string, user: string, now: int)
    returns (k: nat)
    requires cfg.enabled && 1 <= cfg.messageTtlSeconds < I64_LIMIT && Queue.Timed(QueueOps(events))
    requires events == [] || Queue.Time(QueueOp(events[|events| - 1])) <= now
    ensures var newest := Queue.LastN(MissedBy(events, tenant, user), Max(cfg.maxQueueSizePerUser, 1));
      && k <= |newest|
      && Queue.Drained(cfg, QueueOps(events), TenantScopedKey(tenant, user), now) == newest[k..]
      && (forall i :: 0 <= i < k ==> now - newest[i].queuedAt >= 1000 * cfg.messageTtlSeconds)
      && (forall i :: k <= i < |newest| ==> now - newest[i].queuedAt < 1000 * cfg.messageTtlSeconds)
  {
    MissedIsSince(events, tenant, user);
    k := Queue.DrainedFrom(cfg, QueueOps(events), TenantScopedKey(tenant, user), now);
  }

  /** A message was queued for the tenant and user themselves. */
  predicate QueuedFor(events: seq<Event>, m: Queue.Message, tenant: string, user: string) {
    exists i :: 0 <= i < |events| && events[i].Missed? && events[i].message == m && events[i].user == user
      && TenantOf(events[i].scope) == tenant
  }

  predicate PlainUsers(events: seq<Event>) {
    forall i :: 0 <= i < |events| && !events[i].Swept? ==> ':' !in events[i].user
  }

  lemma {:induction false} MissedOwn(events: seq<Event>, tenant: string, user: string)
    requires PlainUsers(events) && ':' !in user
    ensures forall m :: m in MissedBy(events, tenant, user) ==> QueuedFor(events, m, tenant, user)
    decreases |events|
  {
    if events != [] {
      var n := |events| - 1;
      var init := events[..n];
      assert PlainUsers(init);
      MissedOwn(init, tenant, user);
      forall m | m in MissedBy(events, tenant, user)
        ensures QueuedFor(events, m, tenant, user)
      {
        if m in MissedBy(init, tenant, user) {
          var i :| 0 <= i < n && init[i].Missed? && init[i].message == m && init[i].user == user
            && TenantOf(init[i].scope) == tenant;
          assert events[i] == init[i];
        } else {
          var t, u := events[n].scope, events[n].user;
          PlainUsersApart(TenantOf(t), u, tenant, user);
        }
      }
    }
  }

  /** With user ids free of colons, whatever the tenant ids, a connection is replayed only what was queued for
      its own tenant and user. */
  lemma ReplayStaysWithin(
    cfg: Queue.Config, events: seq<Event>, tenant: string, user: string, now: int, m: Queue.Message)
    requires cfg.enabled && 1 <= cfg.messageTtlSeconds < I64_LIMIT && Queue.Timed(QueueOps(events))
    requires events == [] || Queue.Time(QueueOp(events[|events| - 1])) <= now
    requires PlainUsers(events) && ':' !in user
    requires m in Queue.Drained(cfg, QueueOps(events), TenantScopedKey(tenant, user), now)
    ensures QueuedFor(events, m, tenant, user)
  {
    var k := ReplayedOnOpening(cfg, events, tenant, user, now);
    MissedOwn(events, tenant, user);
    assert m in MissedBy(events, tenant, user);
  }
}
