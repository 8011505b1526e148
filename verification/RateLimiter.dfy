/** The local rate limiter: one bucket per IP address and one per API key, created on demand and evicted
    when idle. */
module RateLimiters {
  import opened MachineInts
  import opened TokenBuckets

  datatype Config = Config(
    enabled: bool,
    httpRequestsPerSecond: nat,
    httpBurstSize: nat,
    wsConnectionsPerMinute: nat,
    bucketTtlSeconds: nat)
  {
    function TtlMs(): int { AsI64(bucketTtlSeconds * 1000) }

    /** Connections per minute as whole tokens per second, rounded up, and at least one. */
    function IpRate(): nat { Max((wsConnectionsPerMinute + 59) / 60, 1) }

    function Capacity(kind: Kind): nat {
      if kind.Ip? then wsConnectionsPerMinute else httpBurstSize
    }

    function Rate(kind: Kind): nat {
      if kind.Ip? then IpRate() else httpRequestsPerSecond
    }
  }

  datatype Kind = Ip | Key

  type Table = map<string, Bucket>

  datatype Verdict =
    | Allowed(remaining: nat, limit: nat, resetAt: int)
    | Denied(retryAfter: nat, limit: nat, resetAt: int)

  datatype Limiter = Limiter(ip: Table, key: Table) {
    function Of(kind: Kind): Table { if kind.Ip? then ip else key }

    function With(kind: Kind, table: Table): Limiter {
      if kind.Ip? then this.(ip := table) else this.(key := table)
    }
  }

  function Entry(table: Table, id: string, capacity: nat, rate: nat, now: int): Bucket {
    if id in table then table[id] else Full(capacity, rate, now)
  }

  function CheckedTable(cfg: Config, kind: Kind, table: Table, id: string, now: int): Table {
    table[id := Entry(table, id, cfg.Capacity(kind), cfg.Rate(kind), now).Consume(1, now)]
  }

  function VerdictOf(cfg: Config, kind: Kind, table: Table, id: string, now: int): Verdict {
    var b := Entry(table, id, cfg.Capacity(kind), cfg.Rate(kind), now);
    var limit := if kind.Ip? then cfg.wsConnectionsPerMinute else cfg.httpRequestsPerSecond;
    var resetAt := b.lastRefill + if kind.Ip? then 60000 else 1000;
    if 1 <= b.Available(now) then Allowed(b.Consume(1, now).Available(now), limit, resetAt)
    else Denied(if kind.Ip? then 60 else b.RetryAfter(now), limit, resetAt)
  }

  const UNLIMITED := Allowed(U32 - 1, 0, 0)

  predicate Stale(b: Bucket, ttlMs: int, now: int) {
    now - b.lastRefill >= ttlMs
  }

  function Fresh(table: Table, ttlMs: int, now: int): Table {
    map id | id in table && !Stale(table[id], ttlMs, now) :: table[id]
  }

  class RateLimiter {
    var ipBuckets: Table
    var keyBuckets: Table
    const config: Config

    function View(): Limiter
      reads this
    {
      Limiter(ipBuckets, keyBuckets)
    }

    constructor (config: Config)
      ensures View() == Limiter(map[], map[]) && this.config == config
    {
      ipBuckets, keyBuckets, this.config := map[], map[], config;
    }

    method CheckIp(ip: string, now: int) returns (r: Verdict)
      modifies this
      ensures !config.enabled ==> r == Allowed(0xFFFF_FFFF, 0, 0) && View() == old(View())
      ensures config.enabled ==>
        r == VerdictOf(config, Ip, old(ipBuckets), ip, now) &&
        View() == old(View()).With(Ip, CheckedTable(config, Ip, old(ipBuckets), ip, now))
    {
      if !config.enabled {
        return UNLIMITED;
      }
      var limit := config.wsConnectionsPerMinute;
      var refillRate := (limit + 59) / 60;
      if ip !in ipBuckets {
        ipBuckets := ipBuckets[ip := Full(limit, Max(refillRate, 1), now)];
      }
      var bucket := ipBuckets[ip];
      var resetAt := bucket.lastRefill + 60000;
      ipBuckets := ipBuckets[ip := bucket.Consume(1, now)];
      if 1 <= bucket.Available(now) {
        r := Allowed(ipBuckets[ip].Available(now), limit, resetAt);
      } else {
        r := Denied(60, limit, resetAt);
      }
    }

    method CheckKey(key: string, now: int) returns (r: Verdict)
      modifies this
      ensures !config.enabled ==> r == Allowed(0xFFFF_FFFF, 0, 0) && View() == old(View())
      ensures config.enabled ==>
        r == VerdictOf(config, Key, old(keyBuckets), key, now) &&
        View() == old(View()).With(Key, CheckedTable(config, Key, old(keyBuckets), key, now))
    {
      if !config.enabled {
        return UNLIMITED;
      }
      if key !in keyBuckets {
        keyBuckets := keyBuckets[key := Full(config.httpBurstSize, config.httpRequestsPerSecond, now)];
      }
      var bucket := keyBuckets[key];
      var resetAt := bucket.lastRefill + 1000;
      keyBuckets := keyBuckets[key := bucket.Consume(1, now)];
      if 1 <= bucket.Available(now) {
        r := Allowed(keyBuckets[key].Available(now), config.httpRequestsPerSecond, resetAt);
      } else {
        r := Denied(keyBuckets[key].RetryAfter(now), config.httpRequestsPerSecond, resetAt);
      }
    }

    method CleanupStale(now: int) returns (removed: nat)
      modifies this
      ensures ipBuckets == Fresh(old(ipBuckets), config.TtlMs(), now)
      ensures keyBuckets == Fresh(old(keyBuckets), config.TtlMs(), now)
      ensures removed == |old(ipBuckets)| - |ipBuckets| + |old(keyBuckets)| - |keyBuckets|
    {
      var ttlMs := AsI64(config.bucketTtlSeconds * 1000);
      var fromIp, fromKey;
      ipBuckets, fromIp := RetainFresh(ipBuckets, ttlMs, now);
      keyBuckets, fromKey := RetainFresh(keyBuckets, ttlMs, now);
      removed := fromIp + fromKey;
    }
  }

  /** `retain` with a counter of the entries it drops. */
  method RetainFresh(table: Table, ttlMs: int, now: int) returns (kept: Table, removed: nat)
    ensures kept == Fresh(table, ttlMs, now)
    ensures removed == |table| - |kept|
  {
    kept, removed := table, 0;
    var ids := table.Keys;
    while ids != {}
      invariant ids <= kept.Keys <= table.Keys
      invariant forall id :: id in kept ==> kept[id] == table[id]
      invariant forall id :: id in table && id !in ids ==> (id in kept <==> !Stale(table[id], ttlMs, now))
      invariant removed == |table| - |kept|
      decreases ids
    {
      var id :| id in ids;
      ids := ids - {id};
      if now - table[id].lastRefill >= ttlMs {
        assert |kept - {id}| == |kept| - 1 by {
          assert (kept - {id}).Keys == kept.Keys - {id};
        }
        kept := kept - {id};
        removed := removed + 1;
      }
    }
  }

  // ---- runs ----

  datatype Op = Check(kind: Kind, id: string, now: int) | Cleanup(now: int)

  predicate TimedOps(ops: seq<Op>, start: int, end: int) {
    && (forall i :: 0 <= i < |ops| ==> start <= ops[i].now <= end)
    && (forall i, j :: 0 <= i < j < |ops| ==> ops[i].now <= ops[j].now)
  }

  /** What a caller sees of a verdict, the reset time aside. */
  datatype Seen = SeenAllowed(remaining: nat, limit: nat) | SeenDenied(retryAfter: nat, limit: nat)

  function See(v: Verdict): Seen {
    match v
    case Allowed(remaining, limit, _) => SeenAllowed(remaining, limit)
    case Denied(retryAfter, limit, _) => SeenDenied(retryAfter, limit)
  }

  function Next(cfg: Config, l: Limiter, op: Op, evicting: bool): Limiter {
    match op
    case Check(kind, id, now) =>
      if cfg.enabled then l.With(kind, CheckedTable(cfg, kind, l.Of(kind), id, now)) else l
    case Cleanup(now) =>
      if evicting then Limiter(Fresh(l.ip, cfg.TtlMs(), now), Fresh(l.key, cfg.TtlMs(), now)) else l
  }

  /** What the caller of a check sees. */
  function Answer(cfg: Config, l: Limiter, kind: Kind, id: string, now: int): Seen {
    See(if cfg.enabled then VerdictOf(cfg, kind, l.Of(kind), id, now) else UNLIMITED)
  }

  function Observed(cfg: Config, l: Limiter, op: Op, kinds: set<Kind>): seq<Seen> {
    match op
    case Check(kind, id, now) => if kind in kinds then [Answer(cfg, l, kind, id, now)] else []
    case Cleanup(_) => []
  }

  /** What the callers of these kinds of checks see in a run, with the cleanups carried out or left undone. */
  function Observations(cfg: Config, l: Limiter, ops: seq<Op>, kinds: set<Kind>, evicting: bool): seq<Seen>
    decreases |ops|
  {
    if ops == [] then []
    else Observed(cfg, l, ops[0], kinds) + Observations(cfg, Next(cfg, l, ops[0], evicting), ops[1..], kinds, evicting)
  }

  const EMPTY := Limiter(map[], map[])

  /** Whatever the checks of other kinds, those of these kinds never show whether buckets are evicted. */
  ghost predicate EvictionUnobservable(cfg: Config, kinds: set<Kind>, start: int, end: int) {
    forall ops :: TimedOps(ops, start, end) ==>
      Observations(cfg, EMPTY, ops, kinds, true) == Observations(cfg, EMPTY, ops, kinds, false)
  }

  /** No bucket of the kind wraps between `start` and `end`. */
  predicate NoWrap(cfg: Config, kind: Kind, start: int, end: int) {
    start <= end && cfg.Capacity(kind) + (end - start) * cfg.Rate(kind) / 1000 < U32
  }

  /** A bucket left alone for the eviction time is full again. */
  predicate RefillsWithinTtl(cfg: Config, kind: Kind) {
    cfg.Capacity(kind) == 0 || cfg.TtlMs() * cfg.Rate(kind) >= cfg.Capacity(kind) * 1000
  }

  // ---- evicting limiter against one that never evicts ----

  predicate Sound(cfg: Config, kind: Kind, b: Bucket, start: int, now: int) {
    b.capacity == cfg.Capacity(kind) && b.refillRate == cfg.Rate(kind) && b.tokens <= b.capacity
    && start <= b.lastRefill <= now
  }

  /** `a` is the bucket of the evicting limiter, if it has one, and `b` that of the other. */
  predicate Matches(cfg: Config, kind: Kind, a: Table, b: Table, id: string, start: int, now: int) {
    && (id in a ==> id in b && Sound(cfg, kind, a[id], start, now))
    && (id in b ==> Sound(cfg, kind, b[id], start, now))
    && (cfg.Capacity(kind) > 0 ==>
          if id in a then a[id] == b[id] else id in b ==> Stale(b[id], cfg.TtlMs(), now))
  }

  ghost predicate Related(cfg: Config, kinds: set<Kind>, a: Limiter, b: Limiter, start: int, now: int) {
    forall kind: Kind, id: string {:trigger Matches(cfg, kind, a.Of(kind), b.Of(kind), id, start, now)} ::
      kind in kinds ==> Matches(cfg, kind, a.Of(kind), b.Of(kind), id, start, now)
  }

  lemma SoundFits(cfg: Config, kind: Kind, b: Bucket, start: int, now: int, end: int)
    requires NoWrap(cfg, kind, start, end) && Sound(cfg, kind, b, start, now) && now <= end
    ensures b.Fits(now)
  {
    Distribute(b.lastRefill - start, now - b.lastRefill, b.refillRate);
    Distribute(now - start, end - now, b.refillRate);
    NatProduct(b.lastRefill - start, b.refillRate);
    NatProduct(end - now, b.refillRate);
  }

  lemma StaleIsFull(cfg: Config, kind: Kind, b: Bucket, start: int, now: int, end: int)
    requires NoWrap(cfg, kind, start, end) && Sound(cfg, kind, b, start, now) && now <= end
    requires Stale(b, cfg.TtlMs(), now) && RefillsWithinTtl(cfg, kind)
    ensures b.Available(now) == b.capacity
  {
    if cfg.Capacity(kind) > 0 {
      SoundFits(cfg, kind, b, start, now, end);
      AvailableWithoutWrap(b, now);
      ProductGrows(cfg.TtlMs(), now - b.lastRefill, b.refillRate);
    }
  }

  lemma FullAvailable(cfg: Config, kind: Kind, start: int, now: int, end: int)
    requires NoWrap(cfg, kind, start, end) && start <= now <= end
    ensures Full(cfg.Capacity(kind), cfg.Rate(kind), now).Available(now) == cfg.Capacity(kind)
  {
    var b := Full(cfg.Capacity(kind), cfg.Rate(kind), now);
    SoundFits(cfg, kind, b, start, now, end);
    AvailableWithoutWrap(b, now);
    assert 0 * b.refillRate == 0;
  }

  lemma CheckMatches(
    cfg: Config, kind: Kind, a: Table, b: Table, id: string, start: int, then_: int, now: int, end: int)
    requires NoWrap(cfg, kind, start, end) && RefillsWithinTtl(cfg, kind) && start <= then_ <= now <= end
    requires Matches(cfg, kind, a, b, id, start, then_)
    ensures See(VerdictOf(cfg, kind, a, id, now)) == See(VerdictOf(cfg, kind, b, id, now))
    ensures Matches(cfg, kind, CheckedTable(cfg, kind, a, id, now), CheckedTable(cfg, kind, b, id, now), id, start, now)
  {
    var capacity, rate := cfg.Capacity(kind), cfg.Rate(kind);
    var x, y := Entry(a, id, capacity, rate, now), Entry(b, id, capacity, rate, now);
    assert Sound(cfg, kind, x, start, now) && Sound(cfg, kind, y, start, now);
    if capacity > 0 && x != y {
      FullAvailable(cfg, kind, start, now, end);
      StaleIsFull(cfg, kind, y, start, now, end);
      assert x.Available(now) == y.Available(now) == capacity;
    }
    SameCredit(x, y, now);
  }

  /** Two buckets of one kind with as much to give consume and answer alike. */
  lemma SameCredit(x: Bucket, y: Bucket, now: int)
    requires x.capacity == y.capacity && x.refillRate == y.refillRate
    requires x.lastRefill <= now && y.lastRefill <= now
    requires x == y || x.capacity == 0 || (x.Available(now) == y.Available(now) >= 1)
    ensures x.Available(now) == y.Available(now)
    ensures x.capacity > 0 ==> x.Consume(1, now) == y.Consume(1, now)
    ensures x.Consume(1, now).Available(now) == y.Consume(1, now).Available(now)
    ensures x.RetryAfter(now) == y.RetryAfter(now)
  {
  }

  lemma CleanupMatches(cfg: Config, kind: Kind, a: Table, b: Table, id: string, start: int, then_: int, now: int)
    requires then_ <= now && Matches(cfg, kind, a, b, id, start, then_)
    ensures Matches(cfg, kind, Fresh(a, cfg.TtlMs(), now), b, id, start, now)
  {
  }

  lemma StepMatches(
    cfg: Config, a: Limiter, b: Limiter, op: Op, kind: Kind, id: string, start: int, now: int, end: int)
    requires NoWrap(cfg, kind, start, end) && RefillsWithinTtl(cfg, kind) && start <= now <= op.now <= end
    requires Matches(cfg, kind, a.Of(kind), b.Of(kind), id, start, now)
    ensures Matches(cfg, kind, Next(cfg, a, op, true).Of(kind), Next(cfg, b, op, false).Of(kind), id, start, op.now)
  {
    match op {
      case Check(k, i, t) =>
        if cfg.enabled && k == kind && i == id {
          CheckMatches(cfg, kind, a.Of(kind), b.Of(kind), id, start, now, t, end);
        }
      case Cleanup(t) =>
        CleanupMatches(cfg, kind, a.Of(kind), b.Of(kind), id, start, now, t);
    }
  }

  lemma StepRelated(
    cfg: Config, kinds: set<Kind>, a: Limiter, b: Limiter, op: Op, start: int, now: int, end: int)
    requires forall kind :: kind in kinds ==> NoWrap(cfg, kind, start, end) && RefillsWithinTtl(cfg, kind)
    requires Related(cfg, kinds, a, b, start, now) && start <= now <= op.now <= end
    ensures Related(cfg, kinds, Next(cfg, a, op, true), Next(cfg, b, op, false), start, op.now)
    ensures Observed(cfg, a, op, kinds) == Observed(cfg, b, op, kinds)
  {
    var a', b' := Next(cfg, a, op, true), Next(cfg, b, op, false);
    forall kind: Kind, id: string | kind in kinds
      ensures Matches(cfg, kind, a'.Of(kind), b'.Of(kind), id, start, op.now)
    {
      assert Matches(cfg, kind, a.Of(kind), b.Of(kind), id, start, now);
      StepMatches(cfg, a, b, op, kind, id, start, now, end);
    }
    if op.Check? && op.kind in kinds && cfg.enabled {
      assert Matches(cfg, op.kind, a.Of(op.kind), b.Of(op.kind), op.id, start, now);
      CheckMatches(cfg, op.kind, a.Of(op.kind), b.Of(op.kind), op.id, start, now, op.now, end);
    }
  }

  lemma {:induction false} RelatedRunsAgree(
    cfg: Config, kinds: set<Kind>, a: Limiter, b: Limiter, ops: seq<Op>, start: int, now: int, end: int)
    requires forall kind :: kind in kinds ==> NoWrap(cfg, kind, start, end) && RefillsWithinTtl(cfg, kind)
    requires Related(cfg, kinds, a, b, start, now) && start <= now && TimedOps(ops, now, end)
    ensures Observations(cfg, a, ops, kinds, true) == Observations(cfg, b, ops, kinds, false)
    decreases |ops|
  {
    if ops != [] {
      StepRelated(cfg, kinds, a, b, ops[0], start, now, end);
      RelatedRunsAgree(cfg, kinds, Next(cfg, a, ops[0], true), Next(cfg, b, ops[0], false), ops[1..],
        start, ops[0].now, end);
    }
  }

  // ---- admissions within a window ----

  /** The checks of one id between `s` and `t` that are allowed. */
  function Admitted(
    cfg: Config, l: Limiter, ops: seq<Op>, kind: Kind, id: string, s: int, t: int, evicting: bool): nat
    decreases |ops|
  {
    if ops == [] then 0
    else
      var op := ops[0];
      (if op == Check(kind, id, op.now) && s <= op.now <= t && Answer(cfg, l, kind, id, op.now).SeenAllowed?
       then 1 else 0)
      + Admitted(cfg, Next(cfg, l, op, evicting), ops[1..], kind, id, s, t, evicting)
  }

  /** The calls that one id's bucket receives. */
  function AttemptsOf(ops: seq<Op>, kind: Kind, id: string): seq<Attempt> {
    if ops == [] then []
    else
      (if ops[0] == Check(kind, id, ops[0].now) then [Attempt(1, ops[0].now)] else [])
      + AttemptsOf(ops[1..], kind, id)
  }

  lemma {:induction false} AttemptsTimed(ops: seq<Op>, kind: Kind, id: string, start: int, end: int)
    requires TimedOps(ops, start, end)
    ensures Timed(AttemptsOf(ops, kind, id), start)
  {
    if ops != [] {
      AttemptsTimed(ops[1..], kind, id, ops[0].now, end);
    }
  }

  /** Without eviction an id's admissions are its bucket's grants. */
  lemma {:induction false} AdmittedIsGranted(
    cfg: Config, l: Limiter, ops: seq<Op>, kind: Kind, id: string, s: int, t: int)
    requires cfg.enabled
    ensures var attempts := AttemptsOf(ops, kind, id);
      attempts != [] ==>
        Admitted(cfg, l, ops, kind, id, s, t, false)
        == Granted(Entry(l.Of(kind), id, cfg.Capacity(kind), cfg.Rate(kind), attempts[0].now), attempts, s, t)
    ensures AttemptsOf(ops, kind, id) == [] ==> Admitted(cfg, l, ops, kind, id, s, t, false) == 0
    decreases |ops|
  {
    if ops != [] {
      var op, l' := ops[0], Next(cfg, l, ops[0], false);
      AdmittedIsGranted(cfg, l', ops[1..], kind, id, s, t);
      if op == Check(kind, id, op.now) {
        CheckConsumes(cfg, l, kind, id, op.now);
        var attempts := AttemptsOf(ops, kind, id);
        assert attempts[1..] == AttemptsOf(ops[1..], kind, id);
        assert attempts[1..] == [] ==> Granted(l'.Of(kind)[id], attempts[1..], s, t) == 0;
      } else {
        OthersLeaveEntry(cfg, l, op, kind, id);
        assert AttemptsOf(ops, kind, id) == AttemptsOf(ops[1..], kind, id);
      }
    }
  }

  lemma CheckConsumes(cfg: Config, l: Limiter, kind: Kind, id: string, now: int)
    requires cfg.enabled
    ensures var b := Entry(l.Of(kind), id, cfg.Capacity(kind), cfg.Rate(kind), now);
      var l' := Next(cfg, l, Check(kind, id, now), false);
      && id in l'.Of(kind) && l'.Of(kind)[id] == b.Consume(1, now)
      && (Answer(cfg, l, kind, id, now).SeenAllowed? <==> 1 <= b.Available(now))
  {
  }

  lemma OthersLeaveEntry(cfg: Config, l: Limiter, op: Op, kind: Kind, id: string)
    requires op != Check(kind, id, op.now)
    ensures var table, table' := l.Of(kind), Next(cfg, l, op, false).Of(kind);
      (id in table' <==> id in table) && (id in table ==> table'[id] == table[id])
  {
  }

  /** In every window of every run, a limiter that evicts idle buckets admits for one id at most a capacity
      and what the window earns. */
  ghost predicate AdmissionsBounded(cfg: Config, kind: Kind, start: int, end: int) {
    forall ops, id, s, t :: TimedOps(ops, start, end) && s <= t ==>
      Admitted(cfg, EMPTY, ops, kind, id, s, t, true) <= cfg.Capacity(kind) + (t - s) * cfg.Rate(kind) / 1000
  }

  /** The bucket of one id, if there is one, is of its kind and behind the clock. */
  predicate EntrySound(cfg: Config, kind: Kind, l: Limiter, id: string, now: int) {
    id in l.Of(kind) ==>
      var b := l.Of(kind)[id];
      b.capacity == cfg.Capacity(kind) && b.refillRate == cfg.Rate(kind) && b.tokens <= b.capacity
        && b.lastRefill <= now
  }

  /** What one id can still be granted up to time `t`, by its bucket or by one created from now on. */
  function Budget(cfg: Config, kind: Kind, l: Limiter, id: string, now: int, t: int): int {
    Allowance(Entry(l.Of(kind), id, cfg.Capacity(kind), cfg.Rate(kind), now), t)
  }

  lemma BudgetShrinks(cfg: Config, kind: Kind, l: Limiter, id: string, now: int, later: int, t: int)
    requires now <= later
    ensures Budget(cfg, kind, l, id, later, t) <= Budget(cfg, kind, l, id, now, t)
  {
    ProductGrows(t - later, t - now, cfg.Rate(kind));
  }

  /** A bucket that is evicted had no less to give than the one that will take its place. */
  lemma EvictionLosesNothing(cfg: Config, kind: Kind, b: Bucket, now: int, t: int)
    requires RefillsWithinTtl(cfg, kind) && Stale(b, cfg.TtlMs(), now) && b.lastRefill <= now
    requires b.capacity == cfg.Capacity(kind) && b.refillRate == cfg.Rate(kind)
    ensures Allowance(Full(cfg.Capacity(kind), cfg.Rate(kind), now), t) <= Allowance(b, t)
  {
    var rate := cfg.Rate(kind);
    ProductGrows(cfg.TtlMs(), now - b.lastRefill, rate);
    NatProduct(now - b.lastRefill, rate);
    Distribute(now - b.lastRefill, t - now, rate);
  }

  lemma CleanupKeepsBudget(cfg: Config, kind: Kind, l: Limiter, id: string, now: int, t: int)
    requires RefillsWithinTtl(cfg, kind) && EntrySound(cfg, kind, l, id, now)
    ensures var l' := Next(cfg, l, Cleanup(now), true);
      EntrySound(cfg, kind, l', id, now) && Budget(cfg, kind, l', id, now, t) <= Budget(cfg, kind, l, id, now, t)
  {
    if id in l.Of(kind) && Stale(l.Of(kind)[id], cfg.TtlMs(), now) {
      EvictionLosesNothing(cfg, kind, l.Of(kind)[id], now, t);
    }
  }

  /** A check of the id at `now`: if it is allowed it takes one out of the budget, and leaves less than a
      capacity in the bucket. */
  lemma CheckSpendsBudget(cfg: Config, kind: Kind, l: Limiter, id: string, now: int, t: int)
    requires cfg.enabled && EntrySound(cfg, kind, l, id, now) && now <= t
    ensures var l' := Next(cfg, l, Check(kind, id, now), true);
      var allowed := if Answer(cfg, l, kind, id, now).SeenAllowed? then 1 else 0;
      && EntrySound(cfg, kind, l', id, now) && id in l'.Of(kind)
      && allowed + Budget(cfg, kind, l', id, now, t) <= Budget(cfg, kind, l, id, now, t)
      && (allowed == 1 ==> l'.Of(kind)[id].lastRefill == now && 1 + l'.Of(kind)[id].tokens <= cfg.Capacity(kind))
  {
    var b := Entry(l.Of(kind), id, cfg.Capacity(kind), cfg.Rate(kind), now);
    if 1 <= b.Available(now) {
      GrantSpendsAllowance(b, 1, now, t);
    }
  }

  lemma OtherChecksKeepEntry(cfg: Config, kind: Kind, l: Limiter, id: string, op: Op)
    requires op.Check? && op != Check(kind, id, op.now)
    ensures var l' := Next(cfg, l, op, true);
      && (id in l'.Of(kind) <==> id in l.Of(kind))
      && (id in l.Of(kind) ==> l'.Of(kind)[id] == l.Of(kind)[id])
  {
  }

  /** Every step pays for what it admits out of the budget. */
  lemma StepSpendsBudget(cfg: Config, kind: Kind, l: Limiter, id: string, op: Op, now: int, t: int)
    requires cfg.enabled && RefillsWithinTtl(cfg, kind) && EntrySound(cfg, kind, l, id, now) && now <= op.now <= t
    ensures var l' := Next(cfg, l, op, true);
      var allowed := if op == Check(kind, id, op.now) && Answer(cfg, l, kind, id, op.now).SeenAllowed? then 1 else 0;
      && EntrySound(cfg, kind, l', id, op.now)
      && allowed + Budget(cfg, kind, l', id, op.now, t) <= Budget(cfg, kind, l, id, now, t)
  {
    BudgetShrinks(cfg, kind, l, id, now, op.now, t);
    if op.Cleanup? {
      CleanupKeepsBudget(cfg, kind, l, id, op.now, t);
    } else if op == Check(kind, id, op.now) {
      CheckSpendsBudget(cfg, kind, l, id, op.now, t);
    } else {
      OtherChecksKeepEntry(cfg, kind, l, id, op);
    }
  }

  lemma {:induction false} LaterChecksAdmitNone(
    cfg: Config, l: Limiter, ops: seq<Op>, kind: Kind, id: string, s: int, t: int, evicting: bool)
    requires forall i :: 0 <= i < |ops| ==> ops[i].now > t
    ensures Admitted(cfg, l, ops, kind, id, s, t, evicting) == 0
    decreases |ops|
  {
    if ops != [] {
      assert ops[0].now > t;
      LaterChecksAdmitNone(cfg, Next(cfg, l, ops[0], evicting), ops[1..], kind, id, s, t, evicting);
    }
  }

  lemma BudgetNonnegative(cfg: Config, kind: Kind, l: Limiter, id: string, now: int, t: int)
    requires EntrySound(cfg, kind, l, id, now) && now <= t
    ensures Budget(cfg, kind, l, id, now, t) >= 0
  {
    var b := Entry(l.Of(kind), id, cfg.Capacity(kind), cfg.Rate(kind), now);
    NatProduct(t - b.lastRefill, b.refillRate);
  }

  lemma {:induction false} AdmittedWithinBudget(
    cfg: Config, kind: Kind, l: Limiter, ops: seq<Op>, id: string, now: int, end: int, s: int, t: int)
    requires cfg.enabled && RefillsWithinTtl(cfg, kind) && EntrySound(cfg, kind, l, id, now)
    requires TimedOps(ops, now, end) && now <= t
    ensures Admitted(cfg, l, ops, kind, id, s, t, true) <= Budget(cfg, kind, l, id, now, t)
    decreases |ops|
  {
    BudgetNonnegative(cfg, kind, l, id, now, t);
    if ops != [] {
      if ops[0].now > t {
        LaterChecksAdmitNone(cfg, l, ops, kind, id, s, t, true);
      } else {
        StepSpendsBudget(cfg, kind, l, id, ops[0], now, t);
        AdmittedWithinBudget(cfg, kind, Next(cfg, l, ops[0], true), ops[1..], id, ops[0].now, end, s, t);
      }
    }
  }

  /** From the first check that counts on, the budget is the rest of a capacity and what the window earns. */
  lemma {:induction false} RefillBoundsAdmissions(
    cfg: Config, kind: Kind, l: Limiter, ops: seq<Op>, id: string, now: int, end: int, s: int, t: int)
    requires cfg.enabled && RefillsWithinTtl(cfg, kind) && EntrySound(cfg, kind, l, id, now)
    requires TimedOps(ops, now, end) && s <= t
    ensures Admitted(cfg, l, ops, kind, id, s, t, true) <= cfg.Capacity(kind) + (t - s) * cfg.Rate(kind) / 1000
    decreases |ops|
  {
    NatProduct(t - s, cfg.Rate(kind));
    if ops != [] {
      var op, l' := ops[0], Next(cfg, l, ops[0], true);
      StepSpendsBudget(cfg, kind, l, id, op, now, Max(t, op.now));
      if op == Check(kind, id, op.now) && s <= op.now <= t && Answer(cfg, l, kind, id, op.now).SeenAllowed? {
        CountedCheckLeaves(cfg, kind, l, id, op.now, now, s, t);
        AdmittedWithinBudget(cfg, kind, l', ops[1..], id, op.now, end, s, t);
      } else {
        RefillBoundsAdmissions(cfg, kind, l', ops[1..], id, op.now, end, s, t);
      }
    }
  }

  lemma CountedCheckLeaves(cfg: Config, kind: Kind, l: Limiter, id: string, now: int, before: int, s: int, t: int)
    requires cfg.enabled && EntrySound(cfg, kind, l, id, before) && before <= now && s <= now <= t
    requires Answer(cfg, l, kind, id, now).SeenAllowed?
    ensures var l' := Next(cfg, l, Check(kind, id, now), true);
      1 + Budget(cfg, kind, l', id, now, t) <= cfg.Capacity(kind) + (t - s) * cfg.Rate(kind) / 1000
  {
    CheckSpendsBudget(cfg, kind, l, id, now, t);
    ProductGrows(t - now, t - s, cfg.Rate(kind));
  }

  // ---- a run that shows eviction, when buckets do not refill in time ----

  /** `n` checks of the same id at the same time. */
  function Burst(kind: Kind, id: string, now: int, n: nat): seq<Op> {
    seq(n, i => Check(kind, id, now))
  }

  function After(cfg: Config, l: Limiter, ops: seq<Op>, evicting: bool): Limiter
    decreases |ops|
  {
    if ops == [] then l else After(cfg, Next(cfg, l, ops[0], evicting), ops[1..], evicting)
  }

  lemma {:induction false} ObservationsSnoc(
    cfg: Config, l: Limiter, ops: seq<Op>, op: Op, kinds: set<Kind>, evicting: bool)
    ensures After(cfg, l, ops + [op], evicting) == Next(cfg, After(cfg, l, ops, evicting), op, evicting)
    ensures Observations(cfg, l, ops + [op], kinds, evicting)
         == Observations(cfg, l, ops, kinds, evicting) + Observed(cfg, After(cfg, l, ops, evicting), op, kinds)
    decreases |ops|
  {
    if ops == [] {
      assert (ops + [op])[1..] == [];
    } else {
      assert (ops + [op])[1..] == ops[1..] + [op];
      ObservationsSnoc(cfg, Next(cfg, l, ops[0], evicting), ops[1..], op, kinds, evicting);
    }
  }

  /** The limiter after one bucket was set. */
  function Holding(l: Limiter, kind: Kind, id: string, b: Bucket): Limiter {
    l.With(kind, l.Of(kind)[id := b])
  }

  lemma HoldingLast(l: Limiter, kind: Kind, id: string, b: Bucket, b': Bucket)
    ensures Holding(l, kind, id, b).Of(kind)[id] == b
    ensures Holding(Holding(l, kind, id, b), kind, id, b') == Holding(l, kind, id, b')
  {
  }

  lemma CheckTakes(cfg: Config, l: Limiter, kind: Kind, id: string, b: Bucket, now: int, evicting: bool)
    requires cfg.enabled && b == Entry(l.Of(kind), id, cfg.Capacity(kind), cfg.Rate(kind), now)
    requires 1 <= b.Available(now)
    ensures Next(cfg, l, Check(kind, id, now), evicting)
         == Holding(l, kind, id, b.(tokens := b.Available(now) - 1, lastRefill := now))
    ensures Answer(cfg, l, kind, id, now).SeenAllowed?
  {
  }

  lemma BurstBegins(
    cfg: Config, l: Limiter, kind: Kind, id: string, b: Bucket, now: int, n: nat, s: int, t: int, evicting: bool)
    requires cfg.enabled && b == Entry(l.Of(kind), id, cfg.Capacity(kind), cfg.Rate(kind), now)
    requires 0 < n && 1 <= b.Available(now) && s <= now <= t
    ensures var l' := Holding(l, kind, id, b.(tokens := b.Available(now) - 1, lastRefill := now));
      var burst, rest := Burst(kind, id, now, n), Burst(kind, id, now, n - 1);
      && After(cfg, l, burst, evicting) == After(cfg, l', rest, evicting)
      && Admitted(cfg, l, burst, kind, id, s, t, evicting) == 1 + Admitted(cfg, l', rest, kind, id, s, t, evicting)
  {
    var burst := Burst(kind, id, now, n);
    assert burst[0] == Check(kind, id, now) && burst[1..] == Burst(kind, id, now, n - 1);
    CheckTakes(cfg, l, kind, id, b, now, evicting);
  }

  /** A burst of `n` checks was allowed and took its tokens. */
  ghost predicate Taken(
    cfg: Config, l: Limiter, kind: Kind, id: string, b: Bucket, now: int, n: nat, s: int, t: int, evicting: bool)
  {
    var burst := Burst(kind, id, now, n);
    && Admitted(cfg, l, burst, kind, id, s, t, evicting) == n
    && n <= b.tokens
    && (n > 0 ==>
          After(cfg, l, burst, evicting) == Holding(l, kind, id, b.(tokens := b.tokens - n, lastRefill := now)))
  }

  /** The bucket as it is credited at this time. */
  function Credited(b: Bucket, now: int): Bucket {
    b.(tokens := b.Available(now))
  }

  lemma TakenFromFirst(
    cfg: Config, l: Limiter, kind: Kind, id: string, b: Bucket, now: int, n: nat, s: int, t: int, evicting: bool)
    requires cfg.enabled && b == Entry(l.Of(kind), id, cfg.Capacity(kind), cfg.Rate(kind), now)
    requires 0 < n && 1 <= b.Available(now) && s <= now <= t
    requires var b' := b.(tokens := b.Available(now) - 1, lastRefill := now);
      Taken(cfg, Holding(l, kind, id, b'), kind, id, b', now, n - 1, s, t, evicting)
    ensures Taken(cfg, l, kind, id, Credited(b, now), now, n, s, t, evicting)
  {
    var b' := b.(tokens := b.Available(now) - 1, lastRefill := now);
    BurstBegins(cfg, l, kind, id, b, now, n, s, t, evicting);
    HoldingLast(l, kind, id, b', b'.(tokens := b'.tokens - (n - 1)));
  }

  /** As many checks as there are tokens are all allowed. */
  lemma {:induction false} BurstTaken(
    cfg: Config, l: Limiter, kind: Kind, id: string, b: Bucket, now: int, n: nat, s: int, t: int, evicting: bool)
    requires cfg.enabled && b == Entry(l.Of(kind), id, cfg.Capacity(kind), cfg.Rate(kind), now)
    requires n <= b.Available(now) && b.capacity < U32 && s <= now <= t
    ensures Taken(cfg, l, kind, id, Credited(b, now), now, n, s, t, evicting)
    decreases n
  {
    if n > 0 {
      var b' := b.(tokens := b.Available(now) - 1, lastRefill := now);
      AvailableAtOnce(b');
      HoldingLast(l, kind, id, b', b');
      assert Credited(b', now) == b';
      BurstTaken(cfg, Holding(l, kind, id, b'), kind, id, b', now, n - 1, s, t, evicting);
      TakenFromFirst(cfg, l, kind, id, b, now, n, s, t, evicting);
    }
  }

  lemma BurstAdmitted(
    cfg: Config, l: Limiter, kind: Kind, id: string, b: Bucket, now: int, n: nat, s: int, t: int, evicting: bool)
    requires cfg.enabled && b == Entry(l.Of(kind), id, cfg.Capacity(kind), cfg.Rate(kind), now)
    requires n <= b.Available(now) && b.capacity < U32 && s <= now <= t
    ensures Admitted(cfg, l, Burst(kind, id, now, n), kind, id, s, t, evicting) == n
    ensures n > 0 ==>
      After(cfg, l, Burst(kind, id, now, n), evicting)
      == Holding(l, kind, id, b.(tokens := b.Available(now) - n, lastRefill := now))
  {
    BurstTaken(cfg, l, kind, id, b, now, n, s, t, evicting);
  }

  lemma BurstDrains(cfg: Config, kind: Kind, id: string, now: int, evicting: bool)
    requires cfg.enabled && 0 < cfg.Capacity(kind) < U32
    ensures After(cfg, EMPTY, Burst(kind, id, now, cfg.Capacity(kind)), evicting)
         == Holding(EMPTY, kind, id, Bucket(0, now, cfg.Capacity(kind), cfg.Rate(kind)))
  {
    FirstBurstAdmitted(cfg, kind, id, now, now, now, evicting);
  }

  /** Drain a bucket, wait exactly the eviction time, and check again. */
  function DrainAndWait(kind: Kind, start: int, capacity: nat, t: int): seq<Op> {
    Burst(kind, "", start, capacity) + [Cleanup(t)] + [Check(kind, "", t)]
  }

  lemma DrainAndWaitEndsIn(
    cfg: Config, kinds: set<Kind>, kind: Kind, start: int, t: int, kept: Table, evicting: bool)
    requires cfg.enabled && 0 < cfg.Capacity(kind) < U32 && t - start >= cfg.TtlMs() && kind in kinds
    requires kept == map["" := Bucket(0, start, cfg.Capacity(kind), cfg.Rate(kind))]
    ensures var seen := Observations(cfg, EMPTY, DrainAndWait(kind, start, cfg.Capacity(kind), t), kinds, evicting);
      |seen| > 0 && seen[|seen| - 1] == See(VerdictOf(cfg, kind, if evicting then map[] else kept, "", t))
  {
    var waited := Burst(kind, "", start, cfg.Capacity(kind)) + [Cleanup(t)];
    var left := if evicting then EMPTY else EMPTY.With(kind, kept);
    DrainedAndWaited(cfg, kind, start, t, kept, evicting);
    LastSeen(cfg, kinds, kind, t, waited, left, evicting);
  }

  lemma DrainedAndWaited(cfg: Config, kind: Kind, start: int, t: int, kept: Table, evicting: bool)
    requires cfg.enabled && 0 < cfg.Capacity(kind) < U32 && t - start >= cfg.TtlMs()
    requires kept == map["" := Bucket(0, start, cfg.Capacity(kind), cfg.Rate(kind))]
    ensures After(cfg, EMPTY, Burst(kind, "", start, cfg.Capacity(kind)) + [Cleanup(t)], evicting)
         == if evicting then EMPTY else EMPTY.With(kind, kept)
  {
    var burst := Burst(kind, "", start, cfg.Capacity(kind));
    BurstDrains(cfg, kind, "", start, evicting);
    assert EMPTY.With(kind, kept) == Holding(EMPTY, kind, "", kept[""]);
    CleanupEmpties(cfg, kind, kept, t, evicting);
    ObservationsSnoc(cfg, EMPTY, burst, Cleanup(t), {}, evicting);
  }

  lemma CleanupEmpties(cfg: Config, kind: Kind, kept: Table, t: int, evicting: bool)
    requires forall id :: id in kept ==> Stale(kept[id], cfg.TtlMs(), t)
    ensures Next(cfg, EMPTY.With(kind, kept), Cleanup(t), evicting)
      == if evicting then EMPTY else EMPTY.With(kind, kept)
  {
    assert Fresh(kept, cfg.TtlMs(), t) == map[];
    assert Fresh(map[], cfg.TtlMs(), t) == map[];
  }

  lemma LastSeen(
    cfg: Config, kinds: set<Kind>, kind: Kind, t: int, ops: seq<Op>, l: Limiter, evicting: bool)
    requires cfg.enabled && After(cfg, EMPTY, ops, evicting) == l && kind in kinds
    ensures var seen := Observations(cfg, EMPTY, ops + [Check(kind, "", t)], kinds, evicting);
      |seen| > 0 && seen[|seen| - 1] == See(VerdictOf(cfg, kind, l.Of(kind), "", t))
  {
    ObservationsSnoc(cfg, EMPTY, ops, Check(kind, "", t), kinds, evicting);
  }

  /** The shortest wait after which a cleanup evicts; the cast of a large setting can make it negative. */
  function TtlWait(cfg: Config): nat {
    Max(cfg.TtlMs(), 0)
  }

  lemma SlowRefillShows(cfg: Config, kinds: set<Kind>, kind: Kind, start: int, end: int)
    requires cfg.enabled && NoWrap(cfg, kind, start, end) && end - start >= TtlWait(cfg)
    requires kind in kinds && !RefillsWithinTtl(cfg, kind)
    ensures !EvictionUnobservable(cfg, kinds, start, end)
  {
    NatProduct(end - start, cfg.Rate(kind));
    var t := start + TtlWait(cfg);
    var kept := map["" := Bucket(0, start, cfg.Capacity(kind), cfg.Rate(kind))];
    var ops := DrainAndWait(kind, start, cfg.Capacity(kind), t);
    assert TimedOps(ops, start, end);
    DrainAndWaitEndsIn(cfg, kinds, kind, start, t, kept, true);
    DrainAndWaitEndsIn(cfg, kinds, kind, start, t, kept, false);
    DrainedEarns(cfg, kind, kept[""], start, t, end);
    LastCheckDiffers(cfg, kind, kept, t, kept[""].Available(t));
  }

  lemma DrainedEarns(cfg: Config, kind: Kind, b: Bucket, start: int, now: int, end: int)
    requires NoWrap(cfg, kind, start, end) && now == start + TtlWait(cfg) <= end
    requires b == Bucket(0, start, cfg.Capacity(kind), cfg.Rate(kind)) && !RefillsWithinTtl(cfg, kind)
    ensures b.Available(now) < cfg.Capacity(kind)
  {
    SoundFits(cfg, kind, b, start, now, end);
    AvailableWithoutWrap(b, now);
    assert TtlWait(cfg) == 0 ==> (now - start) * b.refillRate == 0;
  }

  lemma LastCheckDiffers(cfg: Config, kind: Kind, kept: Table, now: int, earned: nat)
    requires "" in kept && kept[""].Available(now) == earned < cfg.Capacity(kind) == kept[""].capacity < U32
    ensures See(VerdictOf(cfg, kind, map[], "", now)) != See(VerdictOf(cfg, kind, kept, "", now))
  {
    var full := Full(cfg.Capacity(kind), cfg.Rate(kind), now);
    AvailableAtOnce(full);
    AvailableAtOnce(full.Consume(1, now));
    if earned > 0 {
      AvailableAtOnce(kept[""].Consume(1, now));
    }
  }

  lemma RefillHidesEviction(cfg: Config, kinds: set<Kind>, start: int, end: int)
    requires forall kind :: kind in kinds ==> NoWrap(cfg, kind, start, end) && RefillsWithinTtl(cfg, kind)
    ensures EvictionUnobservable(cfg, kinds, start, end)
  {
    forall ops | TimedOps(ops, start, end)
      ensures Observations(cfg, EMPTY, ops, kinds, true) == Observations(cfg, EMPTY, ops, kinds, false)
    {
      RelatedRunsAgree(cfg, kinds, EMPTY, EMPTY, ops, start, start, end);
    }
  }

  /** Evicting idle buckets goes unnoticed by checks of some kinds, in every run of checks of all kinds, if and
      only if the buckets of those kinds refill within the eviction time. */
  lemma EvictionUnobservableIff(cfg: Config, kinds: set<Kind>, start: int, end: int)
    requires cfg.enabled && end - start >= TtlWait(cfg)
    requires forall kind :: kind in kinds ==> NoWrap(cfg, kind, start, end)
    ensures EvictionUnobservable(cfg, kinds, start, end)
       <==> forall kind :: kind in kinds ==> RefillsWithinTtl(cfg, kind)
  {
    if kind :| kind in kinds && !RefillsWithinTtl(cfg, kind) {
      SlowRefillShows(cfg, kinds, kind, start, end);
    } else {
      RefillHidesEviction(cfg, kinds, start, end);
    }
  }

  /** The rate of IP buckets is the least positive number of tokens per second that makes up the limit within
      a minute. */
  lemma IpRateLeast(cfg: Config)
    ensures 60 * cfg.IpRate() >= cfg.wsConnectionsPerMinute && cfg.IpRate() >= 1
    ensures cfg.IpRate() > 1 ==> 60 * (cfg.IpRate() - 1) < cfg.wsConnectionsPerMinute
  {
  }

  /** What it means to refill in time, in the names of the settings. */
  lemma RefillsInSettings(cfg: Config)
    requires cfg.bucketTtlSeconds * 1000 < I64_LIMIT
    ensures cfg.TtlMs() == TtlWait(cfg) == cfg.bucketTtlSeconds * 1000
    ensures RefillsWithinTtl(cfg, Key) <==> cfg.bucketTtlSeconds * cfg.httpRequestsPerSecond >= cfg.httpBurstSize
    ensures cfg.bucketTtlSeconds >= 60 ==> RefillsWithinTtl(cfg, Ip)
  {
    var ttl, rate := cfg.bucketTtlSeconds, cfg.httpRequestsPerSecond;
    assert ttl * 1000 * rate == ttl * rate * 1000;
    NatProduct(ttl, rate);
    if ttl >= 60 {
      IpRateLeast(cfg);
      ProductGrows(60000, ttl * 1000, cfg.IpRate());
    }
  }

  /** A cleanup keeps a bucket exactly if its last grant is less than the eviction time ago. */
  lemma FreshExactly(cfg: Config, table: Table, id: string, now: int)
    requires cfg.bucketTtlSeconds * 1000 < I64_LIMIT
    ensures id in Fresh(table, cfg.TtlMs(), now)
       <==> id in table && now - table[id].lastRefill < 1000 * cfg.bucketTtlSeconds
    ensures id in Fresh(table, cfg.TtlMs(), now) ==> Fresh(table, cfg.TtlMs(), now)[id] == table[id]
  {
    RefillsInSettings(cfg);
  }

  /** For IP checks an eviction time of a minute always suffices, whatever the settings for keys: no verdict
      shows eviction, and admissions stay bounded. */
  lemma MinuteHidesIpEviction(cfg: Config, start: int, end: int)
    requires cfg.enabled && cfg.bucketTtlSeconds >= 60 && cfg.bucketTtlSeconds * 1000 < I64_LIMIT
    ensures NoWrap(cfg, Ip, start, end) ==> EvictionUnobservable(cfg, {Ip}, start, end)
    ensures AdmissionsBounded(cfg, Ip, start, end)
  {
    RefillsInSettings(cfg);
    if NoWrap(cfg, Ip, start, end) {
      RefillHidesEviction(cfg, {Ip}, start, end);
    }
    RefillBounds(cfg, Ip, start, end);
  }

  /** For key checks it is the burst that has to refill within the eviction time. */
  lemma KeyEvictionIff(cfg: Config, start: int, end: int)
    requires cfg.enabled && cfg.bucketTtlSeconds * 1000 < I64_LIMIT && end - start >= cfg.bucketTtlSeconds * 1000
    requires NoWrap(cfg, Key, start, end)
    ensures EvictionUnobservable(cfg, {Key}, start, end)
       <==> cfg.bucketTtlSeconds * cfg.httpRequestsPerSecond >= cfg.httpBurstSize
  {
    RefillsInSettings(cfg);
    EvictionUnobservableIff(cfg, {Key}, start, end);
  }

  // ---- a run that exceeds the bound, when buckets do not refill in time ----

  lemma RefillBounds(cfg: Config, kind: Kind, start: int, end: int)
    requires cfg.enabled && RefillsWithinTtl(cfg, kind)
    ensures AdmissionsBounded(cfg, kind, start, end)
  {
    forall ops, id, s, t | TimedOps(ops, start, end) && s <= t
      ensures Admitted(cfg, EMPTY, ops, kind, id, s, t, true) <= cfg.Capacity(kind) + (t - s) * cfg.Rate(kind) / 1000
    {
      RefillBoundsAdmissions(cfg, kind, EMPTY, ops, id, start, end, s, t);
    }
  }

  /** A burst, a cleanup after the eviction time, and another burst. */
  function TwoBursts(kind: Kind, start: int, capacity: nat, t: int): seq<Op> {
    Burst(kind, "", start, capacity) + [Cleanup(t)] + Burst(kind, "", t, capacity)
  }

  lemma TwoBurstsAdmitted(cfg: Config, kind: Kind, start: int, t: int)
    requires cfg.enabled && 0 < cfg.Capacity(kind) < U32 && start <= t && t - start >= cfg.TtlMs()
    ensures Admitted(cfg, EMPTY, TwoBursts(kind, start, cfg.Capacity(kind), t), kind, "", start, t, true)
         == 2 * cfg.Capacity(kind)
  {
    var kept := map["" := Bucket(0, start, cfg.Capacity(kind), cfg.Rate(kind))];
    var burst := Burst(kind, "", start, cfg.Capacity(kind));
    FirstBurstAdmitted(cfg, kind, "", start, start, t, true);
    DrainedAndWaited(cfg, kind, start, t, kept, true);
    AdmittedConcat(cfg, EMPTY, burst, [Cleanup(t)], kind, "", start, t, true);
    AdmittedConcat(cfg, EMPTY, burst + [Cleanup(t)], Burst(kind, "", t, cfg.Capacity(kind)), kind, "", start, t, true);
    FirstBurstAdmitted(cfg, kind, "", t, start, t, true);
  }

  /** The bound holds in every run if and only if buckets of the kind refill within the eviction time, whether
      or not the arithmetic wraps. */
  lemma AdmissionsBoundedIff(cfg: Config, kind: Kind, start: int, end: int)
    requires cfg.enabled && cfg.Capacity(kind) < U32 && end - start >= TtlWait(cfg)
    ensures AdmissionsBounded(cfg, kind, start, end) <==> RefillsWithinTtl(cfg, kind)
  {
    if RefillsWithinTtl(cfg, kind) {
      RefillBounds(cfg, kind, start, end);
    } else {
      var t := start + TtlWait(cfg);
      var ops := TwoBursts(kind, start, cfg.Capacity(kind), t);
      assert TimedOps(ops, start, end);
      TwoBurstsAdmitted(cfg, kind, start, t);
      ShortWaitEarnsLess(cfg, kind);
      assert Admitted(cfg, EMPTY, ops, kind, "", start, t, true)
           > cfg.Capacity(kind) + (t - start) * cfg.Rate(kind) / 1000;
    }
  }

  lemma ShortWaitEarnsLess(cfg: Config, kind: Kind)
    requires !RefillsWithinTtl(cfg, kind)
    ensures TtlWait(cfg) * cfg.Rate(kind) / 1000 < cfg.Capacity(kind)
  {
    assert TtlWait(cfg) == 0 ==> TtlWait(cfg) * cfg.Rate(kind) == 0;
  }

  // ---- connections of one IP within a minute ----

  /** `capacity` checks at once, then `rate` checks after each of `n` seconds. */
  function Steady(kind: Kind, id: string, start: int, capacity: nat, rate: nat, n: nat): seq<Op> {
    if n == 0 then Burst(kind, id, start, capacity)
    else Steady(kind, id, start, capacity, rate, n - 1) + Burst(kind, id, start + 1000 * n, rate)
  }

  lemma {:induction false} SteadyTimed(kind: Kind, id: string, start: int, capacity: nat, rate: nat, n: nat)
    ensures TimedOps(Steady(kind, id, start, capacity, rate, n), start, start + 1000 * n)
  {
    if n > 0 {
      SteadyTimed(kind, id, start, capacity, rate, n - 1);
    }
  }

  lemma {:induction false} AdmittedConcat(
    cfg: Config, l: Limiter, ops: seq<Op>, more: seq<Op>, kind: Kind, id: string, s: int, t: int, evicting: bool)
    ensures After(cfg, l, ops + more, evicting) == After(cfg, After(cfg, l, ops, evicting), more, evicting)
    ensures Admitted(cfg, l, ops + more, kind, id, s, t, evicting)
         == Admitted(cfg, l, ops, kind, id, s, t, evicting)
            + Admitted(cfg, After(cfg, l, ops, evicting), more, kind, id, s, t, evicting)
    decreases |ops|
  {
    if ops == [] {
      assert ops + more == more;
    } else {
      assert (ops + more)[1..] == ops[1..] + more;
      AdmittedConcat(cfg, Next(cfg, l, ops[0], evicting), ops[1..], more, kind, id, s, t, evicting);
    }
  }

  /** What a drained bucket has after a second. */
  lemma SecondEarnsRate(capacity: nat, rate: nat, now: int)
    requires rate <= capacity < U32
    ensures Bucket(0, now, capacity, rate).Available(now + 1000) == rate
  {
    AvailableWithoutWrap(Bucket(0, now, capacity, rate), now + 1000);
  }

  lemma FirstBurstAdmitted(cfg: Config, kind: Kind, id: string, start: int, s: int, t: int, evicting: bool)
    requires cfg.enabled && 0 < cfg.Capacity(kind) < U32 && s <= start <= t
    ensures var burst := Burst(kind, id, start, cfg.Capacity(kind));
      && After(cfg, EMPTY, burst, evicting)
         == Holding(EMPTY, kind, id, Bucket(0, start, cfg.Capacity(kind), cfg.Rate(kind)))
      && Admitted(cfg, EMPTY, burst, kind, id, s, t, evicting) == cfg.Capacity(kind)
  {
    var full := Full(cfg.Capacity(kind), cfg.Rate(kind), start);
    AvailableAtOnce(full);
    BurstAdmitted(cfg, EMPTY, kind, id, full, start, cfg.Capacity(kind), s, t, evicting);
  }

  lemma NextSecondAdmitted(
    cfg: Config, ops: seq<Op>, kind: Kind, id: string, now: int, s: int, t: int, evicting: bool)
    requires cfg.enabled && 1 <= cfg.Rate(kind) <= cfg.Capacity(kind) < U32 && s <= now && now + 1000 <= t
    requires After(cfg, EMPTY, ops, evicting)
          == Holding(EMPTY, kind, id, Bucket(0, now, cfg.Capacity(kind), cfg.Rate(kind)))
    ensures var capacity, rate := cfg.Capacity(kind), cfg.Rate(kind);
      var ops' := ops + Burst(kind, id, now + 1000, rate);
      && After(cfg, EMPTY, ops', evicting) == Holding(EMPTY, kind, id, Bucket(0, now + 1000, capacity, rate))
      && Admitted(cfg, EMPTY, ops', kind, id, s, t, evicting)
        == Admitted(cfg, EMPTY, ops, kind, id, s, t, evicting) + rate
  {
    var capacity, rate := cfg.Capacity(kind), cfg.Rate(kind);
    var b := Bucket(0, now, capacity, rate);
    var burst := Burst(kind, id, now + 1000, rate);
    SecondEarnsRate(capacity, rate, now);
    HoldingLast(EMPTY, kind, id, b, Bucket(0, now + 1000, capacity, rate));
    BurstAdmitted(cfg, Holding(EMPTY, kind, id, b), kind, id, b, now + 1000, rate, s, t, evicting);
    AdmittedConcat(cfg, EMPTY, ops, burst, kind, id, s, t, evicting);
  }

  /** After the first `n` seconds the bucket is empty, and the capacity and `n` times the rate were admitted. */
  ghost predicate Drained(
    cfg: Config, kind: Kind, id: string, start: int, n: nat, s: int, t: int, evicting: bool)
  {
    var capacity, rate := cfg.Capacity(kind), cfg.Rate(kind);
    var ops := Steady(kind, id, start, capacity, rate, n);
    && After(cfg, EMPTY, ops, evicting) == Holding(EMPTY, kind, id, Bucket(0, start + 1000 * n, capacity, rate))
    && Admitted(cfg, EMPTY, ops, kind, id, s, t, evicting) == capacity + n * rate
  }

  lemma SteadyNext(kind: Kind, id: string, start: int, capacity: nat, rate: nat, n: nat)
    ensures Steady(kind, id, start, capacity, rate, n + 1)
         == Steady(kind, id, start, capacity, rate, n) + Burst(kind, id, start + 1000 * n + 1000, rate)
  {
    assert start + 1000 * (n + 1) == start + 1000 * n + 1000;
  }

  lemma DrainedNext(cfg: Config, kind: Kind, id: string, start: int, n: nat, s: int, t: int, evicting: bool)
    requires cfg.enabled && 1 <= cfg.Rate(kind) <= cfg.Capacity(kind) < U32
    requires s <= start && start + 1000 * (n + 1) <= t && Drained(cfg, kind, id, start, n, s, t, evicting)
    ensures Drained(cfg, kind, id, start, n + 1, s, t, evicting)
  {
    var capacity, rate := cfg.Capacity(kind), cfg.Rate(kind);
    var ops := Steady(kind, id, start, capacity, rate, n);
    NextSecondAdmitted(cfg, ops, kind, id, start + 1000 * n, s, t, evicting);
    SteadyNext(kind, id, start, capacity, rate, n);
    Distribute(n, 1, rate);
  }

  lemma {:induction false} SteadyAdmitted(
    cfg: Config, kind: Kind, id: string, start: int, n: nat, s: int, t: int, evicting: bool)
    requires cfg.enabled && 1 <= cfg.Rate(kind) <= cfg.Capacity(kind) < U32
    requires s <= start && start + 1000 * n <= t
    ensures Drained(cfg, kind, id, start, n, s, t, evicting)
    decreases n
  {
    if n == 0 {
      FirstBurstAdmitted(cfg, kind, id, start, s, t, evicting);
    } else {
      SteadyAdmitted(cfg, kind, id, start, n - 1, s, t, evicting);
      DrainedNext(cfg, kind, id, start, n - 1, s, t, evicting);
    }
  }

  /** A client that keeps asking for connections gets all that the window bound allows: in any number of
      seconds, a burst of the whole limit and the rate of every second. */
  lemma SteadyChecksAttain(cfg: Config, id: string, start: int, end: int, n: nat)
    requires cfg.enabled && start + 1000 * n <= end
    requires 1 <= cfg.wsConnectionsPerMinute < U32
    ensures var ops := Steady(Ip, id, start, cfg.wsConnectionsPerMinute, cfg.IpRate(), n);
      && TimedOps(ops, start, end)
      && Admitted(cfg, EMPTY, ops, Ip, id, start, start + 1000 * n, true)
        == cfg.wsConnectionsPerMinute + n * cfg.IpRate()
  {
    SteadyTimed(Ip, id, start, cfg.wsConnectionsPerMinute, cfg.IpRate(), n);
    SteadyAdmitted(cfg, Ip, id, start, n, start, start + 1000 * n, true);
  }

  lemma {:induction false} ZeroLimitAdmitsNone(
    cfg: Config, l: Limiter, ops: seq<Op>, id: string, s: int, t: int, evicting: bool)
    requires cfg.enabled && cfg.wsConnectionsPerMinute == 0
    requires forall ip :: ip in l.ip ==> l.ip[ip].capacity == 0
    ensures Admitted(cfg, l, ops, Ip, id, s, t, evicting) == 0
    decreases |ops|
  {
    if ops != [] {
      ZeroLimitAdmitsNone(cfg, Next(cfg, l, ops[0], evicting), ops[1..], id, s, t, evicting);
    }
  }

  /** In every run no IP gets more than `ws_connections_per_minute` connections in less than a minute. */
  ghost predicate PerMinuteHolds(cfg: Config, start: int, end: int) {
    forall ops, id, s, t :: TimedOps(ops, start, end) && t < s + 60000 ==>
      Admitted(cfg, EMPTY, ops, Ip, id, s, t, true) <= cfg.wsConnectionsPerMinute
  }

  /** The name of the setting promises too much, unless it is zero: a burst and one more second exceed it. */
  lemma PerMinuteIff(cfg: Config, start: int, end: int)
    requires cfg.enabled && cfg.wsConnectionsPerMinute < U32 && start + 1000 <= end
    ensures PerMinuteHolds(cfg, start, end) <==> cfg.wsConnectionsPerMinute == 0
  {
    if cfg.wsConnectionsPerMinute == 0 {
      forall ops, id, s, t | TimedOps(ops, start, end) && t < s + 60000
        ensures Admitted(cfg, EMPTY, ops, Ip, id, s, t, true) <= cfg.wsConnectionsPerMinute
      {
        ZeroLimitAdmitsNone(cfg, EMPTY, ops, id, s, t, true);
      }
    } else {
      SteadyChecksAttain(cfg, "", start, end, 1);
      var ops := Steady(Ip, "", start, cfg.wsConnectionsPerMinute, cfg.IpRate(), 1);
      assert Admitted(cfg, EMPTY, ops, Ip, "", start, start + 1000, true) > cfg.wsConnectionsPerMinute;
    }
  }

  // ---- bursts and windows, in the names of the settings ----

  /** Checks that find no token leave the bucket as it is. */
  lemma {:induction false} BurstDenied(
    cfg: Config, l: Limiter, kind: Kind, id: string, b: Bucket, now: int, n: nat, s: int, t: int, evicting: bool)
    requires cfg.enabled && b == Entry(l.Of(kind), id, cfg.Capacity(kind), cfg.Rate(kind), now)
    requires b.Available(now) == 0
    ensures Admitted(cfg, l, Burst(kind, id, now, n), kind, id, s, t, evicting) == 0
    ensures n > 0 ==> After(cfg, l, Burst(kind, id, now, n), evicting) == Holding(l, kind, id, b)
    decreases n
  {
    if n > 0 {
      var burst := Burst(kind, id, now, n);
      assert burst[0] == Check(kind, id, now) && burst[1..] == Burst(kind, id, now, n - 1);
      CheckDenied(cfg, l, kind, id, b, now, evicting);
      HoldingLast(l, kind, id, b, b);
      BurstDenied(cfg, Holding(l, kind, id, b), kind, id, b, now, n - 1, s, t, evicting);
    }
  }

  lemma CheckDenied(cfg: Config, l: Limiter, kind: Kind, id: string, b: Bucket, now: int, evicting: bool)
    requires cfg.enabled && b == Entry(l.Of(kind), id, cfg.Capacity(kind), cfg.Rate(kind), now)
    requires b.Available(now) == 0
    ensures Next(cfg, l, Check(kind, id, now), evicting) == Holding(l, kind, id, b)
    ensures !Answer(cfg, l, kind, id, now).SeenAllowed?
  {
  }

  lemma BurstSplits(kind: Kind, id: string, now: int, n: nat, m: nat)
    ensures Burst(kind, id, now, n + m) == Burst(kind, id, now, n) + Burst(kind, id, now, m)
  {
  }

  /** After any number of checks at one time the bucket has what is left of its capacity. */
  lemma AfterBurst(cfg: Config, kind: Kind, id: string, now: int, n: nat, evicting: bool)
    requires cfg.enabled && cfg.Capacity(kind) < U32
    ensures var capacity, rate := cfg.Capacity(kind), cfg.Rate(kind);
      var burst := Burst(kind, id, now, n);
      && Entry(After(cfg, EMPTY, burst, evicting).Of(kind), id, capacity, rate, now)
         == Bucket(Max(capacity - n, 0), now, capacity, rate)
      && Admitted(cfg, EMPTY, burst, kind, id, now, now, evicting) == Min(n, capacity)
  {
    var capacity, rate := cfg.Capacity(kind), cfg.Rate(kind);
    var full := Full(capacity, rate, now);
    AvailableAtOnce(full);
    if n <= capacity {
      BurstAdmitted(cfg, EMPTY, kind, id, full, now, n, now, now, evicting);
    } else if capacity == 0 {
      BurstDenied(cfg, EMPTY, kind, id, full, now, n, now, now, evicting);
    } else {
      AfterExhausted(cfg, kind, id, now, n - capacity, evicting);
    }
  }

  lemma AfterExhausted(cfg: Config, kind: Kind, id: string, now: int, more: nat, evicting: bool)
    requires cfg.enabled && 0 < cfg.Capacity(kind) < U32 && more > 0
    ensures var capacity, rate := cfg.Capacity(kind), cfg.Rate(kind);
      var burst := Burst(kind, id, now, capacity + more);
      && After(cfg, EMPTY, burst, evicting) == Holding(EMPTY, kind, id, Bucket(0, now, capacity, rate))
      && Admitted(cfg, EMPTY, burst, kind, id, now, now, evicting) == capacity
  {
    var capacity, rate := cfg.Capacity(kind), cfg.Rate(kind);
    var b := Bucket(0, now, capacity, rate);
    var l := Holding(EMPTY, kind, id, b);
    FirstBurstAdmitted(cfg, kind, id, now, now, now, evicting);
    BurstSplits(kind, id, now, capacity, more);
    AdmittedConcat(cfg, EMPTY, Burst(kind, id, now, capacity), Burst(kind, id, now, more),
      kind, id, now, now, evicting);
    AvailableAtOnce(b);
    HoldingLast(EMPTY, kind, id, b, b);
    BurstDenied(cfg, l, kind, id, b, now, more, now, now, evicting);
  }

  /** Of any number of checks made at once, a new key is allowed its burst size and a new IP its limit. */
  lemma BurstAdmitsExactly(cfg: Config, id: string, now: int, n: nat, evicting: bool)
    requires cfg.enabled && cfg.httpBurstSize < U32 && cfg.wsConnectionsPerMinute < U32
    ensures Admitted(cfg, EMPTY, Burst(Key, id, now, n), Key, id, now, now, evicting) == Min(n, cfg.httpBurstSize)
    ensures Admitted(cfg, EMPTY, Burst(Ip, id, now, n), Ip, id, now, now, evicting)
         == Min(n, cfg.wsConnectionsPerMinute)
  {
    AfterBurst(cfg, Key, id, now, n, evicting);
    AfterBurst(cfg, Ip, id, now, n, evicting);
  }

  /** What the check after `n` others at the same time is told, for an IP and for a key. */
  lemma BurstVerdicts(cfg: Config, id: string, now: int, n: nat, evicting: bool)
    requires cfg.enabled && cfg.httpBurstSize < U32 && cfg.wsConnectionsPerMinute < U32
    ensures var limit := cfg.wsConnectionsPerMinute;
      VerdictOf(cfg, Ip, After(cfg, EMPTY, Burst(Ip, id, now, n), evicting).ip, id, now)
      == if n < limit then Allowed(limit - n - 1, limit, now + 60000) else Denied(60, limit, now + 60000)
    ensures var burst, limit := cfg.httpBurstSize, cfg.httpRequestsPerSecond;
      VerdictOf(cfg, Key, After(cfg, EMPTY, Burst(Key, id, now, n), evicting).key, id, now)
      == if n < burst then Allowed(burst - n - 1, limit, now + 1000) else Denied(1, limit, now + 1000)
  {
    AfterBurst(cfg, Ip, id, now, n, evicting);
    AfterBurst(cfg, Key, id, now, n, evicting);
    LeftVerdict(cfg, Ip, After(cfg, EMPTY, Burst(Ip, id, now, n), evicting).ip, id, now, n);
    LeftVerdict(cfg, Key, After(cfg, EMPTY, Burst(Key, id, now, n), evicting).key, id, now, n);
  }

  lemma LeftVerdict(cfg: Config, kind: Kind, table: Table, id: string, now: int, n: nat)
    requires cfg.Capacity(kind) < U32
    requires Entry(table, id, cfg.Capacity(kind), cfg.Rate(kind), now)
          == Bucket(Max(cfg.Capacity(kind) - n, 0), now, cfg.Capacity(kind), cfg.Rate(kind))
    ensures var limit := if kind.Ip? then cfg.wsConnectionsPerMinute else cfg.httpRequestsPerSecond;
      var resetAt := now + if kind.Ip? then 60000 else 1000;
      VerdictOf(cfg, kind, table, id, now)
      == if n < cfg.Capacity(kind) then Allowed(cfg.Capacity(kind) - n - 1, limit, resetAt)
         else Denied(if kind.Ip? then 60 else 1, limit, resetAt)
  {
    var b := Entry(table, id, cfg.Capacity(kind), cfg.Rate(kind), now);
    AvailableAtOnce(b);
    if n < cfg.Capacity(kind) {
      AvailableAtOnce(b.(tokens := b.tokens - 1));
    } else {
      AlwaysOneSecond(b, now);
    }
  }

  lemma AlwaysOneSecond(b: Bucket, now: int)
    requires b.Available(now) == 0
    ensures b.RetryAfter(now) == 1
  {
    if b.refillRate >= 1 {
      RetryAfterSecond(b, now);
    }
  }

  ghost predicate KeyBounded(cfg: Config, start: int, end: int) {
    forall ops, id, s, t :: TimedOps(ops, start, end) && s <= t ==>
      Admitted(cfg, EMPTY, ops, Key, id, s, t, true)
      <= cfg.httpBurstSize + (t - s) * cfg.httpRequestsPerSecond / 1000
  }

  /** In every window a key is allowed at most the burst size and what the window earns, if and only if the
      burst refills within the eviction time. */
  lemma KeyBoundIff(cfg: Config, start: int, end: int)
    requires cfg.enabled && cfg.httpBurstSize < U32
    requires cfg.bucketTtlSeconds * 1000 < I64_LIMIT && end - start >= cfg.bucketTtlSeconds * 1000
    ensures KeyBounded(cfg, start, end) <==> cfg.bucketTtlSeconds * cfg.httpRequestsPerSecond >= cfg.httpBurstSize
  {
    RefillsInSettings(cfg);
    AdmissionsBoundedIff(cfg, Key, start, end);
    KeyBoundedIsBounded(cfg, start, end);
  }

  lemma KeyBoundedIsBounded(cfg: Config, start: int, end: int)
    ensures KeyBounded(cfg, start, end) <==> AdmissionsBounded(cfg, Key, start, end)
  {
    assert cfg.Capacity(Key) == cfg.httpBurstSize && cfg.Rate(Key) == cfg.httpRequestsPerSecond;
    if KeyBounded(cfg, start, end) {
      forall ops, id, s, t | TimedOps(ops, start, end) && s <= t
        ensures Admitted(cfg, EMPTY, ops, Key, id, s, t, true) <= cfg.Capacity(Key) + (t - s) * cfg.Rate(Key) / 1000
      {
        assert (t - s) * cfg.Rate(Key) == (t - s) * cfg.httpRequestsPerSecond;
      }
    }
    if AdmissionsBounded(cfg, Key, start, end) {
      forall ops, id, s, t | TimedOps(ops, start, end) && s <= t
        ensures Admitted(cfg, EMPTY, ops, Key, id, s, t, true)
             <= cfg.httpBurstSize + (t - s) * cfg.httpRequestsPerSecond / 1000
      {
        assert (t - s) * cfg.Rate(Key) == (t - s) * cfg.httpRequestsPerSecond;
      }
    }
  }

  /** A client that keeps asking with one key gets all of that in any number of seconds, if a burst is no
      smaller than what a second earns. */
  lemma SteadyKeyChecksAttain(cfg: Config, id: string, start: int, n: nat) returns (ops: seq<Op>)
    requires cfg.enabled && cfg.httpRequestsPerSecond <= cfg.httpBurstSize < U32
    ensures TimedOps(ops, start, start + 1000 * n)
    ensures Admitted(cfg, EMPTY, ops, Key, id, start, start + 1000 * n, true)
         == cfg.httpBurstSize + n * cfg.httpRequestsPerSecond
  {
    var burst, rate := cfg.httpBurstSize, cfg.httpRequestsPerSecond;
    if rate == 0 {
      ops := Burst(Key, id, start, burst);
      var full := Full(burst, rate, start);
      AvailableAtOnce(full);
      BurstAdmitted(cfg, EMPTY, Key, id, full, start, burst, start, start + 1000 * n, true);
    } else {
      ops := Steady(Key, id, start, burst, rate, n);
      SteadyTimed(Key, id, start, burst, rate, n);
      SteadyAdmitted(cfg, Key, id, start, n, start, start + 1000 * n, true);
    }
  }
}
