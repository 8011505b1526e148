/** Exponential backoff with jitter, over exact real arithmetic. */
module Backoffs {

  datatype Config = Config(initialDelayMs: nat, maxDelayMs: nat, multiplier: real, jitterFactor: real)

  function MinReal(a: real, b: real): real { if a <= b then a else b }
  function MaxReal(a: real, b: real): real { if a <= b then b else a }

  function Capped(cfg: Config, current: nat): real {
    MinReal(current as real * cfg.multiplier, cfg.maxDelayMs as real)
  }

  /** The delay for a jitter value, cut down to whole milliseconds. */
  function Final(capped: real, jitter: real): nat {
    MaxReal(capped + jitter, 1.0).Floor
  }

  /** The random source gives any value of a nonempty range, half open at its upper end. */
  predicate JitterAllowed(cfg: Config, capped: real, jitter: real) {
    if cfg.jitterFactor > 0.0 then -capped * cfg.jitterFactor <= jitter < capped * cfg.jitterFactor else jitter == 0.0
  }

  class ExponentialBackoff {
    const config: Config
    var currentDelayMs: nat
    var attempt: nat

    constructor (config: Config)
      ensures this.config == config && currentDelayMs == config.initialDelayMs && attempt == 0
    {
      this.config, currentDelayMs, attempt := config, config.initialDelayMs, 0;
    }

    method NextDelay(jitter: real) returns (delay: nat)
      requires JitterAllowed(config, Capped(config, currentDelayMs), jitter)
      modifies this
      ensures Follows(config, old(currentDelayMs), delay)
      ensures currentDelayMs == delay == Final(Capped(config, old(currentDelayMs)), jitter)
      ensures attempt == old(attempt) + 1
    {
      attempt := attempt + 1;
      var baseDelay := currentDelayMs as real * config.multiplier;
      var cappedDelay := MinReal(baseDelay, config.maxDelayMs as real);
      if config.jitterFactor > 0.0 {
        delay := MaxReal(cappedDelay + jitter, 1.0).Floor;
      } else {
        delay := MaxReal(cappedDelay, 1.0).Floor;
      }
      currentDelayMs := delay;
    }

    method Reset()
      modifies this
      ensures currentDelayMs == config.initialDelayMs && attempt == 0
    {
      currentDelayMs := config.initialDelayMs;
      attempt := 0;
    }
  }

  // ---- runs between two resets ----

  /** `next` can come after `current`. */
  ghost predicate Follows(cfg: Config, current: nat, next: nat) {
    exists jitter :: JitterAllowed(cfg, Capped(cfg, current), jitter) && next == Final(Capped(cfg, current), jitter)
  }

  /** Delays that can be seen one after the other, the configured initial delay in front. */
  ghost predicate Run(cfg: Config, delays: seq<nat>) {
    && delays != [] && delays[0] == cfg.initialDelayMs
    && forall i :: 0 < i < |delays| ==> Follows(cfg, delays[i - 1], delays[i])
  }

  predicate CapApplies(cfg: Config, current: nat) {
    current as real * cfg.multiplier >= cfg.maxDelayMs as real
  }

  /** The default jitter and growth. */
  predicate Standard(cfg: Config) {
    cfg.jitterFactor == 0.1 && cfg.multiplier == 2.0 && cfg.maxDelayMs >= 1
  }

  lemma Scale(a: real, b: real, j: real)
    requires a <= b && j >= 0.0
    ensures a * j <= b * j
  {
  }

  lemma Stretch(a: real, j: real)
    ensures a * (1.0 + j) == a + a * j
  {
  }

  /** A jittered value stays within the stretched maximum. */
  lemma JitterStretches(capped: real, max: real, j: real, jitter: real)
    requires capped <= max && j > 0.0 && jitter < capped * j
    ensures capped + jitter <= max * (1.0 + j)
  {
    var a, b := capped * j, max * j;
    Scale(capped, max, j);
    assert a <= b;
    Stretch(max, j);
  }

  lemma JitteredAtMost(cfg: Config, capped: real, jitter: real)
    requires cfg.jitterFactor >= 0.0 && capped <= cfg.maxDelayMs as real && JitterAllowed(cfg, capped, jitter)
    ensures capped + jitter <= cfg.maxDelayMs as real * (1.0 + cfg.jitterFactor)
  {
    if cfg.jitterFactor > 0.0 {
      JitterStretches(capped, cfg.maxDelayMs as real, cfg.jitterFactor, jitter);
    } else {
      assert cfg.jitterFactor == 0.0;
    }
  }

  lemma FinalAtMost(capped: real, jitter: real, bound: real)
    requires capped + jitter <= bound
    ensures 1 <= Final(capped, jitter) && Final(capped, jitter) as real <= MaxReal(1.0, bound)
  {
  }

  /** Every delay lies between one and the maximum stretched by the jitter, whatever the growth. */
  lemma DelayBounds(cfg: Config, current: nat, next: nat)
    requires cfg.jitterFactor >= 0.0 && Follows(cfg, current, next)
    ensures 1 <= next
    ensures next as real <= MaxReal(1.0, cfg.maxDelayMs as real * (1.0 + cfg.jitterFactor))
  {
    var jitter :| JitterAllowed(cfg, Capped(cfg, current), jitter) && next == Final(Capped(cfg, current), jitter);
    JitteredAtMost(cfg, Capped(cfg, current), jitter);
    FinalAtMost(Capped(cfg, current), jitter, cfg.maxDelayMs as real * (1.0 + cfg.jitterFactor));
  }

  lemma ProductPositive(a: real, b: real)
    requires a > 0.0 && b > 0.0
    ensures a * b > 0.0
  {
  }

  lemma LowestJitter(x: real, f: real)
    ensures x + -x * f == x * (1.0 - f)
  {
  }

  /** The smallest delay that can follow. */
  lemma LeastFollows(cfg: Config, current: nat) returns (least: nat)
    requires cfg.jitterFactor >= 0.0 && Capped(cfg, current) > 0.0
    ensures Follows(cfg, current, least)
    ensures least == Final(Capped(cfg, current), -Capped(cfg, current) * cfg.jitterFactor)
  {
    var x, f := Capped(cfg, current), cfg.jitterFactor;
    var jitter := -x * f;
    if f > 0.0 {
      ProductPositive(x, f);
    } else {
      assert jitter == 0.0;
    }
    assert JitterAllowed(cfg, x, jitter);
    least := Final(x, jitter);
  }

  /** Some jitter leads to each value in the range. */
  lemma JitterFor(cfg: Config, current: nat, y: real, lo: real, hi: real)
    requires cfg.jitterFactor > 0.0 && lo <= y < hi
    requires var x := Capped(cfg, current); lo == x * (1.0 - cfg.jitterFactor) && hi == x * (1.0 + cfg.jitterFactor)
    ensures Follows(cfg, current, MaxReal(y, 1.0).Floor)
  {
    var x, f := Capped(cfg, current), cfg.jitterFactor;
    LowestJitter(x, f);
    Stretch(x, f);
    var jitter := y - x;
    assert -x * f <= jitter < x * f;
    assert JitterAllowed(cfg, x, jitter) && x + jitter == y;
  }

  /** The delays that can follow are the whole numbers that the jittered value can be cut down to: at least one,
      and from a jitter factor below to a jitter factor above the capped delay. */
  lemma FollowsExactly(cfg: Config, current: nat, next: nat)
    requires cfg.jitterFactor > 0.0 && Capped(cfg, current) > 0.0
    ensures var x := MinReal(current as real * cfg.multiplier, cfg.maxDelayMs as real);
      Follows(cfg, current, next) <==>
        && next >= 1 && (next + 1) as real > x * (1.0 - cfg.jitterFactor)
        && (next == 1 || next as real < x * (1.0 + cfg.jitterFactor))
  {
    var x := Capped(cfg, current);
    var lo, hi := x * (1.0 - cfg.jitterFactor), x * (1.0 + cfg.jitterFactor);
    if Follows(cfg, current, next) {
      FollowsInRange(cfg, current, next, lo, hi);
    }
    if next >= 1 && (next + 1) as real > lo && (next == 1 || next as real < hi) {
      InRangeFollows(cfg, current, next, lo, hi);
    }
  }

  lemma FollowsInRange(cfg: Config, current: nat, next: nat, lo: real, hi: real)
    requires cfg.jitterFactor > 0.0 && Follows(cfg, current, next)
    requires var x := Capped(cfg, current); lo == x * (1.0 - cfg.jitterFactor) && hi == x * (1.0 + cfg.jitterFactor)
    ensures next >= 1 && (next + 1) as real > lo && (next == 1 || next as real < hi)
  {
    var x := Capped(cfg, current);
    var jitter :| JitterAllowed(cfg, x, jitter) && next == Final(x, jitter);
    JitteredWithin(cfg, x, jitter, lo, hi);
    FollowsWithin(lo, hi, x + jitter, next);
  }

  lemma JitteredWithin(cfg: Config, x: real, jitter: real, lo: real, hi: real)
    requires cfg.jitterFactor > 0.0 && JitterAllowed(cfg, x, jitter)
    requires lo == x * (1.0 - cfg.jitterFactor) && hi == x * (1.0 + cfg.jitterFactor)
    ensures lo <= x + jitter < hi
  {
    LowestJitter(x, cfg.jitterFactor);
    Stretch(x, cfg.jitterFactor);
  }

  lemma RangeNonempty(x: real, f: real, lo: real, hi: real)
    requires x > 0.0 && f > 0.0 && lo == x * (1.0 - f) && hi == x * (1.0 + f)
    ensures lo < hi
  {
    LowestJitter(x, f);
    Stretch(x, f);
    ProductPositive(x, f);
  }

  lemma InRangeFollows(cfg: Config, current: nat, next: nat, lo: real, hi: real)
    requires cfg.jitterFactor > 0.0 && Capped(cfg, current) > 0.0
    requires var x := Capped(cfg, current); lo == x * (1.0 - cfg.jitterFactor) && hi == x * (1.0 + cfg.jitterFactor)
    requires next >= 1 && (next + 1) as real > lo && (next == 1 || next as real < hi)
    ensures Follows(cfg, current, next)
  {
    RangeNonempty(Capped(cfg, current), cfg.jitterFactor, lo, hi);
    var y := if next == 1 || lo >= next as real then lo else next as real;
    WholePart(lo, y, next);
    JitterFor(cfg, current, y, lo, hi);
  }

  lemma FollowsWithin(lo: real, hi: real, y: real, next: nat)
    requires lo <= y < hi && next == MaxReal(y, 1.0).Floor
    ensures next >= 1 && (next + 1) as real > lo && (next == 1 || next as real < hi)
  {
  }

  lemma WholePart(lo: real, y: real, next: nat)
    requires next >= 1 && (next + 1) as real > lo
    requires y == if next == 1 || lo >= next as real then lo else next as real
    ensures MaxReal(y, 1.0).Floor == next
  {
  }

  /** Without jitter the delay is the capped one, cut down, and at least one. */
  lemma FollowsWithoutJitter(cfg: Config, current: nat, next: nat)
    requires cfg.jitterFactor == 0.0
    ensures Follows(cfg, current, next)
       <==> next == MaxReal(MinReal(current as real * cfg.multiplier, cfg.maxDelayMs as real), 1.0).Floor
  {
    var x := Capped(cfg, current);
    assert JitterAllowed(cfg, x, 0.0) && x + 0.0 == x;
  }

  lemma LowestAllowed(cfg: Config, x: real, jitter: real)
    requires cfg.jitterFactor >= 0.0 && JitterAllowed(cfg, x, jitter)
    ensures jitter >= -x * cfg.jitterFactor
  {
    if cfg.jitterFactor == 0.0 {
      assert -x * cfg.jitterFactor == 0.0;
    }
  }

  lemma NextAtLeast(cfg: Config, current: nat, next: nat)
    requires cfg.jitterFactor >= 0.0 && Follows(cfg, current, next)
    ensures var x := Capped(cfg, current);
      exists y: real :: y >= x * (1.0 - cfg.jitterFactor) && next == MaxReal(y, 1.0).Floor
  {
    var x, f := Capped(cfg, current), cfg.jitterFactor;
    var jitter :| JitterAllowed(cfg, x, jitter) && next == Final(x, jitter);
    LowestJitter(x, f);
    LowestAllowed(cfg, x, jitter);
    var y := x + jitter;
    assert y >= x * (1.0 - f) && next == MaxReal(y, 1.0).Floor;
  }

  /** Below the cap every possible next delay is longer if and only if even the lowest jitter leaves growth by
      a millisecond. */
  lemma GrowsIff(cfg: Config, current: nat)
    requires cfg.multiplier > 0.0 && cfg.jitterFactor >= 0.0 && current >= 1 && !CapApplies(cfg, current)
    ensures (forall next: nat :: Follows(cfg, current, next) ==> next > current)
       <==> current as real * cfg.multiplier * (1.0 - cfg.jitterFactor) >= (current + 1) as real
  {
    var x := current as real * cfg.multiplier;
    ProductPositive(current as real, cfg.multiplier);
    CappedBelow(cfg, current, x);
    var y := x * (1.0 - cfg.jitterFactor);
    if y >= (current + 1) as real {
      forall next: nat | Follows(cfg, current, next)
        ensures next > current
      {
        AllNextAbove(cfg, current, y, next);
      }
    } else {
      var least := SomeNextNotAbove(cfg, current, y);
    }
  }

  lemma CappedBelow(cfg: Config, current: nat, x: real)
    requires x == current as real * cfg.multiplier && !CapApplies(cfg, current)
    ensures Capped(cfg, current) == x
  {
  }

  lemma AllNextAbove(cfg: Config, current: nat, y: real, next: nat)
    requires cfg.jitterFactor >= 0.0 && Follows(cfg, current, next)
    requires y == Capped(cfg, current) * (1.0 - cfg.jitterFactor) && y >= (current + 1) as real
    ensures next > current
  {
    NextAtLeast(cfg, current, next);
  }

  lemma SomeNextNotAbove(cfg: Config, current: nat, y: real) returns (least: nat)
    requires cfg.jitterFactor >= 0.0 && Capped(cfg, current) > 0.0 && current >= 1
    requires y == Capped(cfg, current) * (1.0 - cfg.jitterFactor) && y < (current + 1) as real
    ensures Follows(cfg, current, least) && least <= current
  {
    least := LeastFollows(cfg, current);
    LowestJitter(Capped(cfg, current), cfg.jitterFactor);
    FloorBelow(y, current);
  }

  lemma FloorBelow(y: real, n: nat)
    requires y < (n + 1) as real && n >= 1
    ensures MaxReal(y, 1.0).Floor <= n
  {
  }

  /** At the default factors: if and only if the delay is at least two. */
  lemma GrowsByDefault(cfg: Config, current: nat)
    requires Standard(cfg) && current >= 1 && !CapApplies(cfg, current)
    ensures (forall next: nat :: Follows(cfg, current, next) ==> next > current) <==> current >= 2
  {
    GrowsIff(cfg, current);
    assert current as real * 2.0 * (1.0 - 0.1) == 1.8 * current as real;
  }

  /** From zero there is no next delay: the jitter would be drawn from an empty range. */
  lemma ZeroHasNoNext(cfg: Config, next: nat)
    requires cfg.jitterFactor > 0.0
    ensures !Follows(cfg, 0, next)
  {
    forall jitter
      ensures !JitterAllowed(cfg, Capped(cfg, 0), jitter)
    {
      ZeroRange(Capped(cfg, 0), cfg.jitterFactor);
    }
  }

  lemma ZeroRange(capped: real, f: real)
    requires capped <= 0.0 && f > 0.0
    ensures -capped * f >= capped * f
  {
    Scale(capped, 0.0, f);
  }

  lemma CappedDelay(cfg: Config, current: nat, next: nat)
    requires Standard(cfg) && CapApplies(cfg, current) && Follows(cfg, current, next)
    ensures next >= 1 && next >= (cfg.maxDelayMs as real * 0.9).Floor
    ensures CapApplies(cfg, next)
  {
  }

  /** From where the cap first applies until a reset, each delay is at least nine tenths of the maximum. */
  lemma {:induction false} StaysNearCap(cfg: Config, delays: seq<nat>, i: nat, k: nat)
    requires Standard(cfg) && Run(cfg, delays) && i < k < |delays| && CapApplies(cfg, delays[i])
    ensures delays[k] >= 1 && delays[k] >= (cfg.maxDelayMs as real * 0.9).Floor
    ensures CapApplies(cfg, delays[k])
    decreases k
  {
    if i < k - 1 {
      StaysNearCap(cfg, delays, i, k - 1);
    }
    assert Follows(cfg, delays[k - 1], delays[k]);
    CappedDelay(cfg, delays[k - 1], delays[k]);
  }

  /** Below the cap a delay of two or more grows by half or more. */
  lemma GrowsByHalf(cfg: Config, current: nat, next: nat)
    requires Standard(cfg) && current >= 2 && !CapApplies(cfg, current) && Follows(cfg, current, next)
    ensures 2 * next >= 3 * current
  {
    var jitter :| JitterAllowed(cfg, Capped(cfg, current), jitter) && next == Final(Capped(cfg, current), jitter);
    assert Capped(cfg, current) == 2.0 * current as real;
    assert next as real > 1.8 * current as real - 1.0;
  }

  function Pow2(n: nat): nat {
    if n == 0 then 1 else 2 * Pow2(n - 1)
  }

  /** The binary logarithm, rounded down. */
  function Log2(n: nat): nat {
    if n <= 1 then 0 else 1 + Log2(n / 2)
  }

  lemma {:induction false} Log2Bound(n: nat)
    ensures n < Pow2(Log2(n) + 1)
    ensures n >= 1 ==> Pow2(Log2(n)) <= n
  {
    if n > 1 {
      Log2Bound(n / 2);
    }
  }

  /** Two delays below the cap double it. */
  lemma {:induction false} DoublesEveryTwo(cfg: Config, delays: seq<nat>, m: nat)
    requires Standard(cfg) && cfg.initialDelayMs >= 2 && Run(cfg, delays) && 2 * m < |delays|
    requires forall i :: 0 <= i < 2 * m ==> !CapApplies(cfg, delays[i])
    ensures delays[2 * m] >= 2 * Pow2(m)
  {
    if m > 0 {
      var k := 2 * m;
      DoublesEveryTwo(cfg, delays, m - 1);
      GrowsUntilCap(cfg, delays, k - 1);
      assert !CapApplies(cfg, delays[k - 2]) && Follows(cfg, delays[k - 2], delays[k - 1]);
      GrowsByHalf(cfg, delays[k - 2], delays[k - 1]);
      assert !CapApplies(cfg, delays[k - 1]) && Follows(cfg, delays[k - 1], delays[k]);
      GrowsByHalf(cfg, delays[k - 1], delays[k]);
    }
  }

  lemma {:induction false} GrowsUntilCap(cfg: Config, delays: seq<nat>, k: nat)
    requires Standard(cfg) && cfg.initialDelayMs >= 2 && Run(cfg, delays) && k < |delays|
    requires forall i :: 0 <= i < k ==> !CapApplies(cfg, delays[i])
    ensures forall i, j :: 0 <= i < j <= k ==> delays[i] < delays[j]
    ensures delays[k] >= 2
    decreases k
  {
    if k > 0 {
      GrowsUntilCap(cfg, delays, k - 1);
      assert !CapApplies(cfg, delays[k - 1]) && Follows(cfg, delays[k - 1], delays[k]);
      GrowsByDefault(cfg, delays[k - 1]);
    }
  }

  /** Some delay is within twice the binary logarithm of the maximum at the cap, and all later ones are. */
  lemma CapReached(cfg: Config, delays: seq<nat>, k: nat)
    requires Standard(cfg) && cfg.initialDelayMs >= 2 && Run(cfg, delays)
    requires 2 * Log2(cfg.maxDelayMs) < k < |delays|
    ensures AtCap(cfg, delays[k])
  {
    var m := Log2(cfg.maxDelayMs);
    if forall i :: 0 <= i < 2 * m ==> !CapApplies(cfg, delays[i]) {
      DoublesEveryTwo(cfg, delays, m);
      Log2Bound(cfg.maxDelayMs);
      assert CapApplies(cfg, delays[2 * m]);
      StaysNearCap(cfg, delays, 2 * m, k);
    } else {
      var i :| 0 <= i < 2 * m && CapApplies(cfg, delays[i]);
      StaysNearCap(cfg, delays, i, k);
    }
  }

  // ---- for every start ----

  predicate AtCap(cfg: Config, delay: nat) {
    CapApplies(cfg, delay) && delay >= 1 && delay >= (cfg.maxDelayMs as real * 0.9).Floor
  }

  /** Until the cap first applies the delays of this run strictly increase. */
  predicate Climbs(cfg: Config, delays: seq<nat>) {
    forall i, j :: 0 <= i < j < |delays| && (forall h :: 0 <= h < j ==> !CapApplies(cfg, delays[h])) ==>
      delays[i] < delays[j]
  }

  /** In every run all delays after the first `n` are at the cap. */
  ghost predicate CappedAfter(cfg: Config, n: nat) {
    forall delays, k :: Run(cfg, delays) && n < k < |delays| ==> AtCap(cfg, delays[k])
  }

  /** A start of one below the cap can stay there for any time. */
  lemma StuckAtOne(cfg: Config, n: nat) returns (delays: seq<nat>)
    requires Standard(cfg) && cfg.initialDelayMs == 1 && !CapApplies(cfg, 1)
    ensures Run(cfg, delays) && |delays| == n + 1 && forall i :: 0 <= i <= n ==> delays[i] == 1
  {
    delays := seq(n + 1, _ => 1);
    assert Capped(cfg, 1) == 2.0;
    assert JitterAllowed(cfg, 2.0, -0.2) && Final(2.0, -0.2) == 1;
    assert Follows(cfg, 1, 1);
  }

  /** The delays of every run climb to the cap if and only if the start is two or more or already at the cap. */
  lemma ClimbsIff(cfg: Config)
    requires Standard(cfg) && cfg.initialDelayMs >= 1
    ensures (forall delays :: Run(cfg, delays) ==> Climbs(cfg, delays))
       <==> cfg.initialDelayMs >= 2 || CapApplies(cfg, cfg.initialDelayMs)
  {
    if cfg.initialDelayMs >= 2 {
      forall delays, i, j | Run(cfg, delays) && 0 <= i < j < |delays| &&
                            forall h :: 0 <= h < j ==> !CapApplies(cfg, delays[h])
        ensures delays[i] < delays[j]
      {
        GrowsUntilCap(cfg, delays, j);
      }
    } else if !CapApplies(cfg, 1) {
      var delays := StuckAtOne(cfg, 1);
      assert delays[0] == delays[1];
    }
  }

  /** Every run is at the cap from some delay on if and only if the start is two or more or already at the cap;
      then twice the binary logarithm of the maximum is enough. */
  lemma CapReachedIff(cfg: Config, n: nat)
    requires Standard(cfg) && cfg.initialDelayMs >= 1
    ensures CappedAfter(cfg, n) ==> cfg.initialDelayMs >= 2 || CapApplies(cfg, cfg.initialDelayMs)
    ensures cfg.initialDelayMs >= 2 || CapApplies(cfg, cfg.initialDelayMs) ==>
      CappedAfter(cfg, 2 * Log2(cfg.maxDelayMs))
  {
    if cfg.initialDelayMs >= 2 || CapApplies(cfg, cfg.initialDelayMs) {
      forall delays, k | Run(cfg, delays) && 2 * Log2(cfg.maxDelayMs) < k < |delays|
        ensures AtCap(cfg, delays[k])
      {
        if cfg.initialDelayMs >= 2 {
          CapReached(cfg, delays, k);
        } else {
          StaysNearCap(cfg, delays, 0, k);
        }
      }
    } else {
      var delays := StuckAtOne(cfg, n + 1);
      assert !AtCap(cfg, delays[n + 1]);
    }
  }
}
