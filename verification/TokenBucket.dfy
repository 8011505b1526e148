/** The token bucket: tokens are credited lazily, from the time that has passed since the last grant. */
module TokenBuckets {
  import opened MachineInts

  /** Whole tokens for a product of milliseconds and tokens per second. */
  function Credit(product: nat): nat {
    product % U64 / 1000 % U32
  }

  /** The fields of a bucket; times are Unix milliseconds. */
  datatype Bucket = Bucket(tokens: nat, lastRefill: int, capacity: nat, refillRate: nat) {

    /** The tokens earned since the last refill, as the release build computes them: the product wraps at
        64 bits and the quotient is cut to 32. */
    function Earned(now: int): nat {
      Credit(Max(now - lastRefill, 0) * refillRate)
    }

    function Available(now: int): nat {
      Min((tokens + Earned(now)) % U32, capacity)
    }

    function Consume(n: nat, now: int): Bucket {
      if n <= Available(now) then this.(tokens := Available(now) - n, lastRefill := now) else this
    }

    function RetryAfter(now: int): nat {
      if Available(now) > 0 then 0
      else
        var msPerToken := 1000 / Max(refillRate, 1);
        Max(msPerToken / 1000, 1)
    }

    /** Every bucket reached from a full one under a nondecreasing clock, at a time not after `now`. */
    predicate Reached(now: int) {
      tokens <= capacity < U32 && lastRefill <= now
    }

    /** Nothing wraps when the bucket is used at `now`. */
    predicate Fits(now: int) {
      tokens + Max(now - lastRefill, 0) * refillRate / 1000 < U32
    }
  }

  function Full(capacity: nat, refillRate: nat, now: int): Bucket {
    Bucket(capacity, now, capacity, refillRate)
  }

  class TokenBucket {
    var tokens: nat
    var lastRefill: int
    const capacity: nat
    const refillRate: nat

    function View(): Bucket
      reads this
    {
      Bucket(tokens, lastRefill, capacity, refillRate)
    }

    constructor (capacity: nat, refillRate: nat, now: int)
      ensures View() == Full(capacity, refillRate, now)
    {
      tokens, lastRefill, this.capacity, this.refillRate := capacity, now, capacity, refillRate;
    }

    /** `spurious` counts the weak compare-and-swap attempts that fail although nobody interfered. */
    method TryConsumeN(n: nat, now: int, spurious: nat) returns (granted: bool)
      modifies this
      ensures granted == (n <= old(View()).Available(now))
      ensures View() == old(View()).Consume(n, now)
    {
      var elapsed := Max(now - lastRefill, 0);
      var tokensToAdd := Credit(elapsed * refillRate);
      var failures := spurious;
      while true
        invariant View() == old(View())
        decreases failures
      {
        var current := tokens;
        var refilled := Min((current + tokensToAdd) % U32, capacity);
        if refilled < n {
          return false;
        }
        if failures == 0 {
          tokens := refilled - n;
          lastRefill := now;
          return true;
        }
        failures := failures - 1;
      }
    }

    method Available(now: int) returns (r: nat)
      ensures r == View().Available(now)
    {
      var elapsed := Max(now - lastRefill, 0);
      var tokensToAdd := Credit(elapsed * refillRate);
      r := Min((tokens + tokensToAdd) % U32, capacity);
    }

    method RetryAfter(now: int) returns (r: nat)
      ensures r == View().RetryAfter(now)
    {
      var available := Available(now);
      if available > 0 {
        return 0;
      }
      var msPerToken := 1000 / Max(refillRate, 1);
      r := Max(msPerToken / 1000, 1);
    }
  }

  // ---- runs ----

  /** One call of `try_consume_n`. */
  datatype Attempt = Attempt(n: nat, now: int)

  predicate Timed(attempts: seq<Attempt>, start: int) {
    && (forall i :: 0 <= i < |attempts| ==> start <= attempts[i].now)
    && (forall i, j :: 0 <= i < j < |attempts| ==> attempts[i].now <= attempts[j].now)
  }

  function Run(b: Bucket, attempts: seq<Attempt>): Bucket
    decreases |attempts|
  {
    if attempts == [] then b else Run(b.Consume(attempts[0].n, attempts[0].now), attempts[1..])
  }

  /** The tokens granted by the attempts made between `s` and `t`. */
  function Granted(b: Bucket, attempts: seq<Attempt>, s: int, t: int): nat
    decreases |attempts|
  {
    if attempts == [] then 0
    else
      var a := attempts[0];
      (if s <= a.now <= t && a.n <= b.Available(a.now) then a.n else 0)
      + Granted(b.Consume(a.n, a.now), attempts[1..], s, t)
  }

  /** Whatever the calls, a bucket that started full stays within its capacity and behind the clock. */
  lemma {:induction false} RunsStayReached(b: Bucket, attempts: seq<Attempt>, start: int, now: int)
    requires b.Reached(start) && Timed(attempts, start) && start <= now
    requires forall i :: 0 <= i < |attempts| ==> attempts[i].now <= now
    ensures Run(b, attempts).Reached(now)
    ensures Run(b, attempts).capacity == b.capacity && Run(b, attempts).refillRate == b.refillRate
    decreases |attempts|
  {
    if attempts != [] {
      RunsStayReached(b.Consume(attempts[0].n, attempts[0].now), attempts[1..], attempts[0].now, now);
    }
  }

  lemma Distribute(x: int, y: int, rate: nat)
    ensures (x + y) * rate == x * rate + y * rate
  {
  }

  lemma CreditExact(product: nat)
    ensures Credit(product) <= product / 1000
    ensures product / 1000 < U32 ==> Credit(product) == product / 1000
  {
    if product / 1000 < U32 {
      assert product < U64;
    }
  }

  lemma NatProduct(x: int, rate: nat)
    requires x >= 0
    ensures x * rate >= 0
  {
  }

  lemma ProductGrows(x: int, y: int, rate: nat)
    requires x <= y
    ensures x * rate <= y * rate
  {
    Distribute(x, y - x, rate);
    NatProduct(y - x, rate);
  }

  lemma EarnedAtMost(b: Bucket, now: int)
    requires b.lastRefill <= now
    ensures b.Available(now) <= b.tokens + (now - b.lastRefill) * b.refillRate / 1000
  {
    NatProduct(now - b.lastRefill, b.refillRate);
    CreditExact((now - b.lastRefill) * b.refillRate);
  }

  /** What a bucket can still grant up to time `t`. */
  function Allowance(b: Bucket, t: int): int {
    b.tokens + (t - b.lastRefill) * b.refillRate / 1000
  }

  lemma GrantSpendsAllowance(b: Bucket, n: nat, now: int, t: int)
    requires b.tokens <= b.capacity && b.lastRefill <= now <= t && n <= b.Available(now)
    ensures n + Allowance(b.Consume(n, now), t) <= Allowance(b, t)
    ensures b.Consume(n, now).tokens + n <= b.capacity
  {
    EarnedAtMost(b, now);
    Distribute(now - b.lastRefill, t - now, b.refillRate);
  }

  lemma AllowanceFromStart(b: Bucket, s: int, t: int)
    requires s <= b.lastRefill <= t
    ensures Allowance(b, t) <= b.tokens + (t - s) * b.refillRate / 1000
    ensures 0 <= b.tokens <= Allowance(b, t)
  {
    Distribute(b.lastRefill - s, t - b.lastRefill, b.refillRate);
    NatProduct(b.lastRefill - s, b.refillRate);
    NatProduct(t - b.lastRefill, b.refillRate);
  }

  /** From its last refill on, a bucket grants what it holds and what the time earns. */
  lemma {:induction false} GrantedSinceRefill(b: Bucket, attempts: seq<Attempt>, s: int, t: int)
    requires b.tokens <= b.capacity && b.lastRefill <= t
    requires Timed(attempts, b.lastRefill)
    ensures Granted(b, attempts, s, t) <= Allowance(b, t)
    decreases |attempts|
  {
    AllowanceFromStart(b, b.lastRefill, t);
    if attempts != [] {
      var a := attempts[0];
      if a.now > t {
        LaterAttemptsGrantNothing(b, attempts, s, t);
      } else if a.n <= b.Available(a.now) {
        GrantSpendsAllowance(b, a.n, a.now, t);
        GrantedSinceRefill(b.Consume(a.n, a.now), attempts[1..], s, t);
      } else {
        GrantedSinceRefill(b, attempts[1..], s, t);
      }
    }
  }

  lemma {:induction false} LaterAttemptsGrantNothing(b: Bucket, attempts: seq<Attempt>, s: int, t: int)
    requires forall i :: 0 <= i < |attempts| ==> attempts[i].now > t
    ensures Granted(b, attempts, s, t) == 0
    decreases |attempts|
  {
    if attempts != [] {
      assert attempts[0].now > t;
      LaterAttemptsGrantNothing(b.Consume(attempts[0].n, attempts[0].now), attempts[1..], s, t);
    }
  }

  /** In any window of a run the bucket grants at most its capacity and what the window earns,
      whether or not the arithmetic wraps. */
  lemma {:induction false} WindowBound(b: Bucket, attempts: seq<Attempt>, start: int, s: int, t: int)
    requires b.Reached(start) && Timed(attempts, start) && s <= t
    ensures Granted(b, attempts, s, t) <= b.capacity + (t - s) * b.refillRate / 1000
    decreases |attempts|
  {
    NatProduct(t - s, b.refillRate);
    if attempts != [] {
      var a := attempts[0];
      if a.n > b.Available(a.now) {
        WindowBound(b, attempts[1..], a.now, s, t);
      } else if s <= a.now <= t {
        var b' := b.Consume(a.n, a.now);
        GrantSpendsAllowance(b, a.n, a.now, a.now);
        AllowanceFromStart(b', s, t);
        GrantedSinceRefill(b', attempts[1..], s, t);
      } else {
        WindowBound(b.Consume(a.n, a.now), attempts[1..], a.now, s, t);
      }
    }
  }

  /** From an empty bucket: what a second earns, second by second, and the rest at the end. */
  function Paced(refillRate: nat, from: int, left: nat): seq<Attempt>
    decreases left
  {
    if left < 1000 then [Attempt(left * refillRate / 1000, from + left)]
    else [Attempt(refillRate, from + 1000)] + Paced(refillRate, from + 1000, left - 1000)
  }

  lemma {:induction false} PacedTimed(refillRate: nat, from: int, left: nat)
    ensures Timed(Paced(refillRate, from, left), from)
    decreases left
  {
    if left >= 1000 {
      PacedTimed(refillRate, from + 1000, left - 1000);
    }
  }

  /** An empty bucket grants at once all that it has earned, if that fits. */
  lemma EmptyGrants(capacity: nat, refillRate: nat, from: int, elapsed: nat)
    requires elapsed * refillRate / 1000 <= capacity < U32
    ensures var b := Bucket(0, from, capacity, refillRate);
      b.Available(from + elapsed) == elapsed * refillRate / 1000
  {
    AvailableWithoutWrap(Bucket(0, from, capacity, refillRate), from + elapsed);
  }

  lemma {:induction false} PacedGranted(capacity: nat, refillRate: nat, from: int, left: nat, s: int, t: int)
    requires refillRate <= capacity < U32 && s <= from && from + left <= t
    ensures Granted(Bucket(0, from, capacity, refillRate), Paced(refillRate, from, left), s, t)
         == left * refillRate / 1000
    decreases left
  {
    if left < 1000 {
      LessThanSecond(left, refillRate);
      EmptyGrants(capacity, refillRate, from, left);
    } else {
      EmptyGrants(capacity, refillRate, from, 1000);
      PacedGranted(capacity, refillRate, from + 1000, left - 1000, s, t);
      Distribute(left - 1000, 1000, refillRate);
    }
  }

  lemma LessThanSecond(x: nat, rate: nat)
    requires x < 1000
    ensures x * rate / 1000 <= rate
  {
    Distribute(x, 1000 - x, rate);
    NatProduct(1000 - x, rate);
  }

  /** The bound is met in every window, unless the bucket holds less than a second earns and the window earns
      more than it holds: a burst at the start of the window, and what is earned from then on. */
  lemma WindowBoundAttained(capacity: nat, refillRate: nat, s: int, t: int) returns (attempts: seq<Attempt>)
    requires s <= t && capacity < U32
    requires refillRate <= capacity || (t - s) * refillRate / 1000 <= capacity
    ensures Timed(attempts, s)
    ensures Granted(Full(capacity, refillRate, s), attempts, s, t) == capacity + (t - s) * refillRate / 1000
  {
    var later;
    if refillRate <= capacity {
      later := Paced(refillRate, s, t - s);
      PacedTimed(refillRate, s, t - s);
      PacedGranted(capacity, refillRate, s, t - s, s, t);
    } else {
      later := OneGranted(capacity, refillRate, s, t);
    }
    attempts := [Attempt(capacity, s)] + later;
    BurstThenGranted(capacity, refillRate, later, s, t);
  }

  lemma OneGranted(capacity: nat, refillRate: nat, s: int, t: int) returns (later: seq<Attempt>)
    requires s <= t && (t - s) * refillRate / 1000 <= capacity < U32
    ensures Timed(later, s)
    ensures Granted(Bucket(0, s, capacity, refillRate), later, s, t) == (t - s) * refillRate / 1000
  {
    NatProduct(t - s, refillRate);
    EmptyGrants(capacity, refillRate, s, t - s);
    later := [Attempt((t - s) * refillRate / 1000, t)];
    assert later[1..] == [];
  }

  lemma BurstThenGranted(capacity: nat, refillRate: nat, later: seq<Attempt>, s: int, t: int)
    requires s <= t && capacity < U32
    ensures Granted(Full(capacity, refillRate, s), [Attempt(capacity, s)] + later, s, t)
         == capacity + Granted(Bucket(0, s, capacity, refillRate), later, s, t)
  {
    AvailableAtOnce(Full(capacity, refillRate, s));
    assert ([Attempt(capacity, s)] + later)[1..] == later;
  }

  /** Calls that are refused, at whatever times, leave no trace in a run. */
  lemma {:induction false} RefusalsLeaveNoTrace(b: Bucket, attempts: seq<Attempt>)
    requires forall i :: 0 <= i < |attempts| ==> b.Available(attempts[i].now) < attempts[i].n
    ensures Run(b, attempts) == b
  {
    if attempts != [] {
      RefusalsLeaveNoTrace(b, attempts[1..]);
    }
  }

  /** After `retry_after` answered at `now`, and any refused calls since, a call made at least that many
      seconds later succeeds if and only if a token was there already or the bucket can hold and earn one. */
  lemma RetryAfterHonest(b: Bucket, now: int, refused: seq<Attempt>, later: int)
    requires b.Reached(now) && b.Fits(later)
    requires later >= now + 1000 * b.RetryAfter(now)
    requires forall i :: 0 <= i < |refused| ==> b.Available(refused[i].now) < refused[i].n
    ensures 1 <= Run(b, refused).Available(later)
       <==> b.Available(now) > 0 || (b.refillRate >= 1 && b.capacity >= 1)
  {
    RefusalsLeaveNoTrace(b, refused);
    if b.Available(now) > 0 {
      AvailableGrows(b, now, later);
    } else if b.refillRate >= 1 {
      SecondEarnsToken(later - b.lastRefill, b.refillRate);
      AvailableWithoutWrap(b, later);
    } else {
      AvailableGrows(b, now, later);
      NothingEarned(b, now);
      NothingEarned(b, later);
    }
  }

  lemma NothingEarned(b: Bucket, now: int)
    requires b.refillRate == 0 && b.lastRefill <= now && b.Fits(now)
    ensures b.Available(now) == Min(b.tokens, b.capacity)
  {
    AvailableWithoutWrap(b, now);
    assert (now - b.lastRefill) * 0 == 0;
  }

  lemma SecondEarnsToken(elapsed: nat, rate: nat)
    requires elapsed >= 1000 && rate >= 1
    ensures elapsed * rate / 1000 >= 1
  {
    assert elapsed * rate >= elapsed;
  }

  lemma AvailableWithoutWrap(b: Bucket, now: int)
    requires b.lastRefill <= now && b.Fits(now)
    ensures b.Available(now) == Min(b.tokens + (now - b.lastRefill) * b.refillRate / 1000, b.capacity)
  {
    var product := (now - b.lastRefill) * b.refillRate;
    NatProduct(now - b.lastRefill, b.refillRate);
    assert Max(now - b.lastRefill, 0) * b.refillRate == product;
    CreditExact(product);
    assert b.Earned(now) == product / 1000;
  }

  /** At the time of its last refill a bucket has just what it holds. */
  lemma AvailableAtOnce(b: Bucket)
    requires b.tokens <= b.capacity < U32
    ensures b.Available(b.lastRefill) == b.tokens
  {
    assert 0 * b.refillRate == 0;
  }

  lemma AvailableGrows(b: Bucket, now: int, later: int)
    requires b.lastRefill <= now <= later && b.Fits(later)
    ensures b.Fits(now) && b.Available(now) <= b.Available(later)
  {
    Distribute(now - b.lastRefill, later - now, b.refillRate);
    NatProduct(later - now, b.refillRate);
    AvailableWithoutWrap(b, now);
    AvailableWithoutWrap(b, later);
  }

  // ---- how long the promise holds ----

  /** The tokens held and earned, before any wrap-around. */
  function Total(b: Bucket, t: int): int {
    b.tokens + (t - b.lastRefill) * b.refillRate / 1000
  }

  /** Up to `end`, whoever waits as told at `now` finds a token. */
  ghost predicate HonestUntil(b: Bucket, now: int, end: int) {
    forall later :: now + 1000 * b.RetryAfter(now) <= later <= end ==> b.Available(later) >= 1
  }

  /** At most one token is earned in a millisecond. */
  lemma EarnsOneByOne(b: Bucket, t: int)
    requires b.refillRate <= 1000
    ensures Total(b, t) <= Total(b, t + 1) <= Total(b, t) + 1
  {
    Distribute(t - b.lastRefill, 1, b.refillRate);
    assert 1 * b.refillRate == b.refillRate;
  }

  lemma {:induction false} ReachesWrap(b: Bucket, now: int, end: int) returns (t: int)
    requires b.refillRate <= 1000 && now <= end && Total(b, now) < U32 <= Total(b, end)
    ensures now < t <= end && Total(b, t) == U32
    decreases end - now
  {
    if Total(b, end) == U32 {
      t := end;
    } else {
      EarnsOneByOne(b, end - 1);
      t := ReachesWrap(b, now, end - 1);
    }
  }

  lemma EmptyAtWrap(b: Bucket, t: int)
    requires b.Reached(t) && Total(b, t) == U32
    ensures b.Available(t) == 0
  {
    var product := (t - b.lastRefill) * b.refillRate;
    NatProduct(t - b.lastRefill, b.refillRate);
    assert Max(t - b.lastRefill, 0) * b.refillRate == product;
    WrapsToNone(product, b.tokens);
    assert b.Earned(t) == Credit(product);
  }

  lemma WrapsToNone(product: nat, tokens: nat)
    requires tokens + product / 1000 == U32
    ensures (tokens + Credit(product)) % U32 == 0
  {
    assert product < U64;
    if tokens > 0 {
      CreditExact(product);
    }
  }

  /** Waiting as told is over before the wrap. */
  lemma WrapComesLater(b: Bucket, now: int, t: int)
    requires b.Reached(now) && b.Fits(now) && 1 <= b.refillRate < U32 && b.capacity >= 1
    requires now < t && Total(b, t) >= U32
    ensures now + 1000 * b.RetryAfter(now) <= t
  {
    AvailableWithoutWrap(b, now);
    if b.Available(now) == 0 {
      RetryAfterSecond(b, now);
      if t < now + 1000 {
        assert Total(b, now) == 0;
        Distribute(now - b.lastRefill, t - now, b.refillRate);
        SoonEarnsLittle((now - b.lastRefill) * b.refillRate, t - now, b.refillRate);
      }
    }
  }

  lemma RetryAfterSecond(b: Bucket, now: int)
    requires 1 <= b.refillRate && b.Available(now) == 0
    ensures b.RetryAfter(now) == 1
  {
    var ms := 1000 / b.refillRate;
    assert ms <= 1000;
  }

  lemma SoonEarnsLittle(product: nat, x: int, rate: nat)
    requires product < 1000 && 0 <= x < 1000
    ensures (product + x * rate) / 1000 <= rate
  {
    Distribute(x, 999 - x, rate);
    NatProduct(999 - x, rate);
  }

  lemma FitsTotal(b: Bucket, t: int)
    requires b.lastRefill <= t
    ensures b.Fits(t) <==> Total(b, t) < U32
  {
  }

  /** For rates up to a thousand the answer of `retry_after` stays right exactly as long as nothing wraps. */
  lemma RetryAfterHonestUntil(b: Bucket, now: int, end: int)
    requires b.Reached(now) && b.Fits(now) && now <= end
    requires 1 <= b.refillRate <= 1000 && b.capacity >= 1
    ensures HonestUntil(b, now, end) <==> b.Fits(end)
  {
    FitsTotal(b, now);
    FitsTotal(b, end);
    if b.Fits(end) {
      forall later | now + 1000 * b.RetryAfter(now) <= later <= end
        ensures b.Available(later) >= 1
      {
        AvailableGrows(b, later, end);
        RetryAfterHonest(b, now, [], later);
      }
    } else {
      var t := ReachesWrap(b, now, end);
      WrapComesLater(b, now, t);
      EmptyAtWrap(b, t);
    }
  }

  /** The first millisecond after a refill by which `x` tokens are earned. */
  function EarnTime(x: int, refillRate: nat): int
    requires refillRate >= 1
  {
    (x * 1000 + refillRate - 1) / refillRate
  }

  /** The bucket passes the `k`-th multiple of 2^32 with a moment at which it has just that many tokens. */
  predicate Lands(b: Bucket, k: nat)
    requires b.refillRate >= 1
  {
    var x := k * U32 - b.tokens;
    EarnTime(x, b.refillRate) * b.refillRate / 1000 == x
  }

  lemma EarnTimeFirst(x: int, rate: nat, e: int)
    requires rate >= 1
    ensures EarnTime(x, rate) * rate >= x * 1000
    ensures e * rate >= x * 1000 <==> e >= EarnTime(x, rate)
  {
    var n, m := x * 1000 + rate - 1, EarnTime(x, rate);
    assert n == m * rate + n % rate;
    if e >= m {
      Distribute(m, e - m, rate);
      NatProduct(e - m, rate);
    } else {
      Distribute(e, m - 1 - e, rate);
      NatProduct(m - 1 - e, rate);
      Distribute(m - 1, 1, rate);
    }
  }

  lemma TotalGrows(b: Bucket, t: int, later: int)
    requires t <= later
    ensures Total(b, t) <= Total(b, later)
  {
    Distribute(t - b.lastRefill, later - t, b.refillRate);
    NatProduct(later - t, b.refillRate);
  }

  lemma WrapOnce(tokens: nat, earned: nat)
    ensures (tokens + earned % U32) % U32 == (tokens + earned) % U32
  {
    var q := earned / U32;
    assert earned == q * U32 + earned % U32;
    assert tokens + earned == (tokens + earned % U32) + q * U32;
  }

  lemma EarnedWithin64(b: Bucket, t: int)
    requires b.lastRefill <= t && (t - b.lastRefill) * b.refillRate < U64
    ensures Total(b, t) >= b.tokens && b.Earned(t) == (Total(b, t) - b.tokens) % U32
  {
    var product := (t - b.lastRefill) * b.refillRate;
    NatProduct(t - b.lastRefill, b.refillRate);
    CreditWithin64(product);
    assert b.Earned(t) == Credit(product);
    assert Total(b, t) - b.tokens == product / 1000;
  }

  lemma CreditWithin64(product: nat)
    requires product < U64
    ensures Credit(product) == product / 1000 % U32
  {
  }

  lemma EmptyExactly(b: Bucket, t: int)
    requires b.Reached(t) && b.capacity >= 1 && (t - b.lastRefill) * b.refillRate < U64
    ensures b.Available(t) == 0 <==> Total(b, t) % U32 == 0
  {
    EarnedWithin64(b, t);
    WrapOnce(b.tokens, Total(b, t) - b.tokens);
  }

  lemma LandingShows(b: Bucket, now: int, end: int, k: nat)
    requires b.Reached(now) && b.Fits(now) && now <= end && 1 <= b.refillRate < U32 && b.capacity >= 1
    requires (end - b.lastRefill) * b.refillRate < U64
    requires k >= 1 && k * U32 <= Total(b, end) && Lands(b, k)
    ensures !HonestUntil(b, now, end)
  {
    var t := LandingTime(b, end, k);
    AfterNow(b, now, t);
    WrapComesLater(b, now, t);
    EmptyOnLanding(b, t, end, k);
  }

  lemma LandingTime(b: Bucket, end: int, k: nat) returns (t: int)
    requires b.refillRate >= 1 && k * U32 <= Total(b, end) && Lands(b, k)
    ensures t <= end && Total(b, t) == k * U32
  {
    var x := k * U32 - b.tokens;
    t := b.lastRefill + EarnTime(x, b.refillRate);
    EarnTimeFirst(x, b.refillRate, end - b.lastRefill);
  }

  lemma AfterNow(b: Bucket, now: int, t: int)
    requires b.lastRefill <= now && b.Fits(now) && Total(b, t) >= U32
    ensures now < t
  {
    FitsTotal(b, now);
    if t <= now {
      TotalGrows(b, t, now);
    }
  }

  lemma EmptyOnLanding(b: Bucket, t: int, end: int, k: nat)
    requires b.Reached(t) && b.capacity >= 1 && t <= end && (end - b.lastRefill) * b.refillRate < U64
    requires Total(b, t) == k * U32
    ensures b.Available(t) == 0
  {
    ProductGrows(t - b.lastRefill, end - b.lastRefill, b.refillRate);
    MultipleWraps(k);
    EmptyExactly(b, t);
  }

  lemma MultipleWraps(k: nat)
    ensures k * U32 % U32 == 0
  {
  }

  /** Having waited as told, a bucket has earned something. */
  lemma WaitEarns(b: Bucket, now: int, later: int)
    requires b.Reached(now) && b.Fits(now) && 1 <= b.refillRate && b.capacity >= 1
    requires now + 1000 * b.RetryAfter(now) <= later
    ensures Total(b, later) >= 1
  {
    AvailableWithoutWrap(b, now);
    if b.Available(now) == 0 {
      RetryAfterSecond(b, now);
      SecondEarnsToken(later - b.lastRefill, b.refillRate);
    } else {
      TotalGrows(b, now, later);
    }
  }

  lemma EmptyLands(b: Bucket, t: int, k: nat)
    requires b.Reached(t) && b.refillRate >= 1 && Total(b, t) == k * U32
    ensures Lands(b, k)
  {
    var x, e := k * U32 - b.tokens, t - b.lastRefill;
    EarnTimeFirst(x, b.refillRate, e);
    ProductGrows(EarnTime(x, b.refillRate), e, b.refillRate);
  }

  /** For every rate: the answer of `retry_after` stays right up to a time exactly when the bucket, each time it
      passes a multiple of 2^32 by then, skips it. */
  lemma RetryAfterHonestExactly(b: Bucket, now: int, end: int)
    requires b.Reached(now) && b.Fits(now) && now <= end && 1 <= b.refillRate < U32 && b.capacity >= 1
    requires (end - b.lastRefill) * b.refillRate < U64
    ensures HonestUntil(b, now, end) <==> forall k: nat :: k >= 1 && k * U32 <= Total(b, end) ==> !Lands(b, k)
  {
    if k: nat :| k >= 1 && k * U32 <= Total(b, end) && Lands(b, k) {
      LandingShows(b, now, end, k);
    } else {
      forall later | now + 1000 * b.RetryAfter(now) <= later <= end
        ensures b.Available(later) >= 1
      {
        NoLandingAvailable(b, now, later, end);
      }
    }
  }

  lemma NoLandingAvailable(b: Bucket, now: int, later: int, end: int)
    requires b.Reached(now) && b.Fits(now) && 1 <= b.refillRate && b.capacity >= 1
    requires now + 1000 * b.RetryAfter(now) <= later <= end && (end - b.lastRefill) * b.refillRate < U64
    requires forall k: nat :: k >= 1 && k * U32 <= Total(b, end) ==> !Lands(b, k)
    ensures b.Available(later) >= 1
  {
    WaitEarns(b, now, later);
    TotalGrows(b, later, end);
    ProductGrows(later - b.lastRefill, end - b.lastRefill, b.refillRate);
    EmptyExactly(b, later);
    if b.Available(later) == 0 {
      EmptyLands(b, later, Total(b, later) / U32);
    }
  }

  /** The product of time and rate wraps at 64 bits. */
  lemma ProductWraps()
    ensures var b := Bucket(0, 0, 10, 0x8000_0000);
      b.Available(0x2_0000_0000) == 0 && b.Available(0x2_0000_0001) == 10
  {
    var b := Bucket(0, 0, 10, 0x8000_0000);
    assert 0x2_0000_0000 * 0x8000_0000 == 0x1_0000_0000_0000_0000;
    assert 0x2_0000_0001 * 0x8000_0000 == 0x1_0000_0000_8000_0000;
    assert b.Earned(0x2_0000_0000) == 0;
    assert b.Earned(0x2_0000_0001) == 0x8000_0000 / 1000;
  }

  /** Without `Fits` the promise fails: after 2^32 ms the tokens earned by a rate of 1000 wrap to none. */
  lemma RetryAfterDishonestOnWrap()
    ensures var b := Bucket(0, 0, 10, 1000);
      b.RetryAfter(0) == 1 && b.Available(1000) == 10 && b.Available(U32) == 0
  {
    var b := Bucket(0, 0, 10, 1000);
    assert b.Earned(0) == 0;
    assert b.Earned(1000) == 1000;
    assert U32 * 1000 / 1000 == U32;
  }
}
