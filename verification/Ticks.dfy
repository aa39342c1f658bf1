/** Phase-aligned tick arithmetic of the fixed-rate scheduler. */
module Ticks {

  const MIN_INT64: int := -0x8000_0000_0000_0000
  const MAX_INT64: int := 0x7FFF_FFFF_FFFF_FFFF

  /** A 64-bit two's complement result. */
  function Wrap(x: int): (r: int)
    ensures MIN_INT64 <= r <= MAX_INT64
    ensures MIN_INT64 <= x <= MAX_INT64 ==> r == x
  {
    (x - MIN_INT64) % 0x1_0000_0000_0000_0000 + MIN_INT64
  }

  /** Go's `%`: the remainder takes the sign of the dividend. */
  function GoRem(a: int, b: int): (r: int)
    requires b > 0
  {
    if a >= 0 then a % b else -((-a) % b)
  }

  function FloorMod(value: int, divisor: int): int
    requires divisor > 0
  {
    var r := GoRem(value, divisor);
    if r < 0 then Wrap(r + divisor) else r
  }

  /** The next tick after `now`, computed as the program does, each step in 64 bits. */
  function NextTick(now: int, interval: int, phase: int): int
    requires interval > 0
  {
    var p := GoRem(phase, interval);
    var base := Wrap(now - FloorMod(Wrap(now - p), interval));
    if base <= now then Wrap(base + interval) else base
  }

  predicate Aligned(t: int, interval: int, phase: int)
    requires interval > 0
  {
    (t - phase) % interval == 0
  }

  lemma GoRemBounds(a: int, b: int)
    requires b > 0
    ensures -b < GoRem(a, b) < b
    ensures a >= 0 ==> 0 <= GoRem(a, b)
  {
  }

  lemma ModUnique(a: int, b: int, q: int, r: int)
    requires b > 0 && 0 <= r < b && a == b * q + r
    ensures a % b == r
  {
    assert b * (a / b - q) == r - a % b;
    SmallMultiple(b, a / b - q);
  }

  lemma SmallMultiple(b: int, k: int)
    requires b > 0 && -b < b * k < b
    ensures k == 0
  {
    if k >= 1 {
      MulGrows(b, k);
    } else if k <= -1 {
      MulGrows(b, -k);
    }
  }

  lemma MulGrows(b: int, k: int)
    requires b > 0 && k >= 1
    ensures b * k >= b
  {
    assert b * k == b + b * (k - 1);
    assert b * (k - 1) >= 0;
  }

  /** Moving by whole intervals keeps the remainder. */
  lemma ModShift(a: int, b: int, k: int)
    requires b > 0
    ensures (a + b * k) % b == a % b
  {
    assert a + b * k == b * (a / b + k) + a % b by {
      assert b * (a / b + k) == b * (a / b) + b * k;
    }
    ModUnique(a + b * k, b, a / b + k, a % b);
  }

  /** floorMod is the mathematical remainder for negative values too. */
  lemma FloorModIsMod(value: int, divisor: int)
    requires 0 < divisor <= MAX_INT64
    ensures FloorMod(value, divisor) == value % divisor
  {
    if value < 0 {
      var m := -value;
      var r := m % divisor;
      assert value == divisor * -(m / divisor) - r;
      if r == 0 {
        ModUnique(value, divisor, -(m / divisor), 0);
      } else {
        assert value == divisor * (-(m / divisor) - 1) + (divisor - r) by {
          assert divisor * (-(m / divisor) - 1) == divisor * -(m / divisor) - divisor;
        }
        ModUnique(value, divisor, -(m / divisor) - 1, divisor - r);
      }
    }
  }

  /** GoRem changes a value by whole multiples only. */
  lemma GoRemCongruent(a: int, b: int, x: int)
    requires b > 0
    ensures (x - GoRem(a, b)) % b == (x - a) % b
  {
    if a >= 0 {
      assert x - a % b == (x - a) + b * (a / b);
      ModShift(x - a, b, a / b);
    } else {
      var m := -a;
      assert x + m % b == (x - a) + b * -(m / b);
      ModShift(x - a, b, -(m / b));
    }
  }

  /** No instant strictly between `t` and the next multiple is aligned. */
  lemma GapHasNoAligned(lo: int, interval: int, phase: int, t: int)
    requires interval > 0 && Aligned(lo, interval, phase)
    requires lo < t < lo + interval
    ensures !Aligned(t, interval, phase)
  {
    var q := (lo - phase) / interval;
    ModUnique(t - phase, interval, q, t - lo);
  }

  /** The multiple at or below `now`, without wrap-around. */
  lemma BaseAligned(now: int, interval: int, phase: int)
    requires interval > 0
    ensures Aligned(now - (now - phase) % interval, interval, phase)
  {
    var d := now - phase;
    ModUnique(d - d % interval, interval, d / interval, 0);
  }

  lemma NextTickExact(now: int, interval: int, phase: int)
    requires interval > 0
    requires MIN_INT64 + interval <= now <= MAX_INT64 - interval
    ensures NextTick(now, interval, phase) == now - (now - phase) % interval + interval
  {
    var p := GoRem(phase, interval);
    GoRemBounds(phase, interval);
    FloorModIsMod(now - p, interval);
    GoRemCongruent(phase, interval, now);
    ModRange(now - phase, interval);
  }

  lemma ModRange(a: int, b: int)
    requires b > 0
    ensures 0 <= a % b < b
  {
  }

  /** NextTick is the least instant strictly after `now` congruent to the phase, on every epoch time at
      least one interval inside the 64-bit range; no step overflows there. */
  lemma NextTickIsLeast(now: int, interval: int, phase: int)
    requires interval > 0
    requires MIN_INT64 + interval <= now <= MAX_INT64 - interval
    ensures now < NextTick(now, interval, phase) <= now + interval
    ensures Aligned(NextTick(now, interval, phase), interval, phase)
    ensures forall u :: now < u < NextTick(now, interval, phase) ==> !Aligned(u, interval, phase)
  {
    NextTickExact(now, interval, phase);
    BaseAligned(now, interval, phase);
    var base := now - (now - phase) % interval;
    ModShift(base - phase, interval, 1);
    forall u | now < u < base + interval
      ensures !Aligned(u, interval, phase)
    {
      GapHasNoAligned(base, interval, phase, u);
    }
  }

  /** Adding the interval, any number of times, stays on the phase. */
  lemma AlignmentKept(t: int, interval: int, phase: int, k: int)
    requires interval > 0 && Aligned(t, interval, phase)
    ensures Aligned(t + interval * k, interval, phase)
  {
    ModShift(t - phase, interval, k);
  }

  /** The phase derived from a 64-bit hash of the stream key. */
  function StablePhase(hash: nat, interval: int): (p: int)
    ensures interval > 0 ==> 0 <= p < interval && (hash - p) % interval == 0
    ensures interval <= 0 ==> p == 0
  {
    if interval <= 0 then 0
    else
      ModUnique(hash - hash % interval, interval, hash / interval, 0);
      hash % interval
  }

  function EffectiveLateness(configured: int, interval: int): (l: int)
    requires interval > 0
    ensures 0 <= l < interval
    ensures l == 0 <==> configured <= 0 || (configured >= interval && interval == 1)
    ensures 0 < configured < interval ==> l == configured
    ensures configured >= interval ==> 2 * l <= interval <= 2 * l + 1
  {
    if configured <= 0 then 0
    else if configured >= interval then interval / 2
    else configured
  }

  /** Start windows of consecutive ticks do not touch. */
  lemma WindowsDisjoint(first: int, interval: int, configured: int, j: nat, k: nat, at: int)
    requires interval > 0 && j < k
    requires first + interval * j <= at <= first + interval * j + EffectiveLateness(configured, interval)
    ensures at < first + interval * k
  {
    assert interval * k >= interval * j + interval by {
      assert interval * k == interval * j + interval * (k - j);
      MulGrows(interval, k - j);
    }
  }
}
