/** The shape of the cubic window curve (tcp_abccubic.c), where 64- and 32-bit
    arithmetic does not overflow: the program's own bound is a window of fewer
    than a million packets. */
module CubicCurve {
  import opened Words
  import opened CubeRoot
  import opened Cubic

  /** Up to this offset `410 * offs^3` fits 64 bits. */
  const MAX_OFFSET: nat := 355000
  const BIC_SCALE: nat := 0x100_0000_0000
  const MILLION: nat := 1000000

  lemma OffsetFits(offs: nat)
    requires offs <= MAX_OFFSET
    ensures 0 <= CUBE_RTT_SCALE * Cube(offs) < U64
    ensures CubicDelta(offs) == (CUBE_RTT_SCALE * Cube(offs)) / BIC_SCALE < 0x100_0000
  {
    CubeMonotone(offs, MAX_OFFSET);
    CubeMonotoneFromZero(offs);
    LargestOffset();
    hide Cube;
    Scaled(offs);
    Narrowed(CUBE_RTT_SCALE * Cube(offs));
  }

  lemma Narrowed(n: nat)
    requires n <= CUBE_RTT_SCALE * 44738875000000000
    ensures n < U64 && ((n % U64) / BIC_SCALE) % U32 == n / BIC_SCALE < 0x100_0000
  {
  }

  lemma LargestOffset()
    ensures Cube(MAX_OFFSET) == 44738875000000000
  {
  }

  lemma Scaled(offs: nat)
    ensures CUBE_RTT_SCALE * offs * offs * offs == CUBE_RTT_SCALE * Cube(offs)
  {
  }

  lemma DeltaMonotone(a: nat, b: nat)
    requires a <= b <= MAX_OFFSET
    ensures CubicDelta(a) <= CubicDelta(b)
  {
    hide CubicDelta, Cube;
    OffsetFits(a);
    OffsetFits(b);
    CubeMonotone(a, b);
  }

  /** Times whose distance from K stays in range. */
  predicate Near(k: nat, t: nat) {
    t <= k + MAX_OFFSET && k <= t + MAX_OFFSET
  }

  /** The curve neither falls below 0 nor leaves 32 bits. */
  predicate Fits(origin: nat, k: nat) {
    k <= MAX_OFFSET && CubicDelta(k) <= origin && origin + 0x100_0000 < U32
  }

  lemma TargetExact(origin: nat, k: nat, t: nat)
    requires Fits(origin, k) && Near(k, t)
    ensures Target(origin, k, t) == if t < k then origin - CubicDelta(k - t) else origin + CubicDelta(t - k)
  {
    hide CubicDelta;
    if t < k {
      DeltaMonotone(k - t, k);
    } else {
      OffsetFits(t - k);
    }
  }

  /** The target never decreases in time, through the plateau at K as well. */
  lemma TargetNondecreasing(origin: nat, k: nat, t1: nat, t2: nat)
    requires Fits(origin, k) && Near(k, t1) && Near(k, t2) && t1 <= t2
    ensures Target(origin, k, t1) <= Target(origin, k, t2)
  {
    hide Target, CubicDelta;
    TargetExact(origin, k, t1);
    TargetExact(origin, k, t2);
    if t2 < k {
      DeltaMonotone(k - t2, k - t1);
    } else if k <= t1 {
      DeltaMonotone(t1 - k, t2 - k);
    }
  }

  /** Clock ticks since the epoch began, read as signed. */
  function Age(s: Sock, now: nat): int {
    Signed(Sub32(now, s.epochStart))
  }

  /** For ages of up to 2^31 ticks the curve's time grows with the clock. */
  lemma ElapsedGrows(s: Sock, now1: nat, now2: nat)
    requires 0 <= Age(s, now1) <= Age(s, now2) && s.delayMin < U32
    ensures Elapsed(s, now1) <= Elapsed(s, now2)
  {
    var d := (s.delayMin / 8) * HZ / 1000;
    assert d == s.delayMin / 8;
    ScaledTime(Age(s, now1) + d);
    ScaledTime(Age(s, now2) + d);
  }

  lemma ScaledTime(t: nat)
    requires t < 2 * U32
    ensures t % U64 == t && (t * 1024) % U64 == t * 1024
  {
    NoWrap64(t);
    NoWrap64(t * 1024);
  }

  /** So the target never decreases as the clock goes on within an epoch. */
  lemma TargetFollowsClock(s: Sock, now1: nat, now2: nat)
    requires 0 <= Age(s, now1) <= Age(s, now2) && s.delayMin < U32
    requires Fits(s.origin, s.k) && Near(s.k, Elapsed(s, now1)) && Near(s.k, Elapsed(s, now2))
    ensures Target(s.origin, s.k, Elapsed(s, now1)) <= Target(s.origin, s.k, Elapsed(s, now2))
  {
    hide Target, CubicDelta, Elapsed;
    ElapsedGrows(s, now1, now2);
    TargetNondecreasing(s.origin, s.k, Elapsed(s, now1), Elapsed(s, now2));
  }

  /** The concave and the convex half mirror each other about K. */
  lemma TargetSymmetric(origin: nat, k: nat, d: nat)
    requires Fits(origin, k) && d <= k
    ensures Target(origin, k, k - d) + Target(origin, k, k + d) == 2 * origin
  {
    hide Target, CubicDelta;
    TargetExact(origin, k, k - d);
    TargetExact(origin, k, k + d);
    ZeroDelta();
  }

  lemma ZeroDelta()
    ensures CubicDelta(0) == 0
  {
  }

  // ----- where the curve starts -----

  /** Nearby offsets, in cubes. */
  lemma NearbyCubes(k: int)
    requires 0 <= k < 139202
    ensures Cube(k) - Cube(k - 1) <= 58131000000 && Cube(k + 2) - Cube(k) <= 116265000000
  {
    assert Cube(k) - Cube(k - 1) == 3 * (k * k) - 3 * k + 1;
    assert Cube(k + 2) - Cube(k) == 6 * (k * k) + 12 * k + 8;
    assert k * k <= 139201 * 139201 by { Chain(k, 139201, 139201 * 139201, k); Chain(k, 139201, 139201 * 139201, 139201); }
  }

  lemma KInRange(d: nat)
    requires d < MILLION
    ensures CUBE_FACTOR * d < U64
    ensures var k := CubicRoot(CUBE_FACTOR * d);
            k < 139202 && 200 * (CUBE_RTT_SCALE * Cube(k - 1)) <= 201 * (BIC_SCALE * d)
            && 1000 * (CUBE_RTT_SCALE * Cube(k + 2)) >= 997 * (BIC_SCALE * d)
  {
    hide CubicRoot, Cube;
    var k := CubicRoot(CUBE_FACTOR * d);
    CubicRootBounds(CUBE_FACTOR * d);
    if k >= 1 {
      CubeMonotone(k - 1, 139201);
      assert Cube(139201) == 139201 * 139201 * 139201 by { CubeIs(139201); }
    }
  }

  /** With K from the cube root, the curve starts where the window was reduced to:
      within half a percent of the distance to the old maximum, and 45 packets. The
      target at time 0 is below the maximum by that offset exactly when the offset
      is no larger; it is when the window keeps a two hundredth of the maximum and
      22 packets, and otherwise the target wraps around. */
  lemma StartsAtTheWindow(lastMax: nat, cwnd: nat)
    requires cwnd < lastMax && lastMax - cwnd < MILLION && lastMax + 0x100_0000 < U32
    ensures var k, d := TimeToOrigin(lastMax, cwnd), lastMax - cwnd;
            var off := CubicDelta(k);
            && 200 * off <= 201 * d + 200 * 22 && 1000 * off >= 997 * d - 1000 * 45
            && Target(lastMax, k, 0) == (if off <= lastMax then lastMax - off else U32 + lastMax - off)
            && (lastMax + 200 * 22 <= 201 * cwnd ==> off <= lastMax && Fits(lastMax, k))
  {
    hide CubicRoot, Cube, CubicDelta, Target;
    var d := lastMax - cwnd;
    KInRange(d);
    var k := CubicRoot(CUBE_FACTOR * d);
    NearbyCubes(k);
    OffsetFits(k);
    TargetAtStart(lastMax, k);
  }

  lemma TargetAtStart(lastMax: nat, k: nat)
    requires CubicDelta(k) < 0x100_0000 && lastMax + 0x100_0000 < U32
    ensures Target(lastMax, k, 0) == (if CubicDelta(k) <= lastMax then lastMax - CubicDelta(k) else U32 + lastMax - CubicDelta(k))
  {
    hide CubicDelta;
    if k == 0 { ZeroDelta(); }
  }

  /** A window of 2466 packets reduced with nothing in flight becomes 5, and the
      target of the new epoch is the largest 32-bit number. */
  lemma CanStartFarAbove(s: Sock)
    requires Inv(s) && s.cubicCwnd == 2466 && s.lastMaxCwnd <= 2466
    ensures var r := Reduce(s, 0);
            && r.lastMaxCwnd == 2466 && r.cubicCwnd == 5
            && TimeToOrigin(2466, 5) == 18773 && Target(2466, 18773, 0) == U32 - 1
  {
    hide CubicRoot;
    assert CubicRoot(CUBE_FACTOR * 2461) == 18773 by { RootOfExample(); }
    assert CubicDelta(18773) == 2467 by { OffsetFits(18773); assert Cube(18773) == 6616084455917; }
  }

  lemma FlsIs(a: nat, b: nat)
    requires b > 0 && Pow2(b - 1) <= a < Pow2(b)
    ensures Fls(a) == b
  {
    hide Fls, Pow2;
    if Fls(a) < b { PowMonotone(Fls(a), b - 1); } else if b < Fls(a) { PowMonotone(b, Fls(a) - 1); }
  }

  lemma PowersOfExample()
    ensures Pow2(13) == 8192 && Pow2(39) == 0x80_0000_0000 && Pow2(42) == 0x400_0000_0000 && Pow2(43) == 0x800_0000_0000
  {
    Literal8();
    assert Pow2(5) == 32;
    assert Pow2(8) == 256;
    hide Pow2;
    PowAdd(8, 5);
    PowAdd(13, 13);
    PowAdd(13, 26);
    PowAdd(3, 39);
    PowAdd(4, 39);
  }

  lemma RootOfExample()
    ensures CUBE_FACTOR * 2461 < U64 && CubicRoot(CUBE_FACTOR * 2461) == 18773
  {
    hide Pow2, Fls, Guess, Newton;
    var a := CUBE_FACTOR * 2461;
    PowersOfExample();
    FlsIs(a, 43);
    GuessOfExample(a);
    StepOfExample(a);
  }

  lemma {:induction false} GuessOfExample(a: nat)
    requires a == 6599751501097 && Fls(a) == 43
    ensures Index(a) == 12 && Guess(a) == 19584
  {
    hide Pow2, Fls;
    PowersOfExample();
    assert Exponent(43) == 13;
    assert Entry(12) == 143;
  }

  lemma StepOfExample(a: nat)
    requires a == 6599751501097
    ensures Newton(19584, a) == 18773
  {
    assert Quot(19584, a) == 17208;
    hide Quot;
  }
}
