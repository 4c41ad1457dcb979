/** What CUBIC's curve does in clock time (tcp_abccubic.c): where it stands at
    each tick, and that after a reduction the window is back at the old maximum. */
module CubicClock {
  import opened Words
  import opened AbcEndpoint
  import opened Cubic
  import opened CubicCurve
  import opened CubicGrowth
  import opened CubicRuns
  import CubeRoot

  // ----- the curve's time -----

  /** The curve's time is that of the epoch and the least delay, in units of 1/1024
      seconds, rounded down. */
  lemma ElapsedIs(s: Sock, now: nat)
    requires 0 <= Age(s, now) && s.delayMin < U32
    ensures var t := Elapsed(s, now);
            1000 * t <= 1024 * (Age(s, now) + s.delayMin / 8) < 1000 * (t + 1)
  {
    var d := (s.delayMin / 8) * HZ / 1000;
    assert d == s.delayMin / 8;
    ScaledTime(Age(s, now) + d);
  }

  /** Distances at which the curve is a whole packet away from its origin. */
  const PLATEAU: nat := 1389

  lemma FlatWithin(offs: nat)
    requires offs <= MAX_OFFSET
    ensures CubicDelta(offs) == 0 <==> offs <= PLATEAU
  {
    hide CubicDelta, CubeRoot.Cube;
    OffsetFits(offs);
    PlateauCubes();
    if offs <= PLATEAU {
      CubeRoot.CubeMonotone(offs, PLATEAU);
    } else {
      CubeRoot.CubeMonotone(PLATEAU + 1, offs);
    }
  }

  lemma PlateauCubes()
    ensures CubeRoot.Cube(PLATEAU) == 2679826869 && CubeRoot.Cube(PLATEAU + 1) == 2685619000
  {
  }

  /** Where the curve is: below its origin before K and above it afterwards by
      410/2^40 of the cube of the distance, rounded down; and so at the origin for
      1389 units to either side. */
  lemma TargetOnTheCurve(origin: nat, k: nat, t: nat)
    requires CubicCurve.Fits(origin, k) && Near(k, t)
    ensures var target := Target(origin, k, t);
            && (t <= k ==> target <= origin && 0x100_0000_0000 * (origin - target) <= 410 * CubeRoot.Cube(k - t) < 0x100_0000_0000 * (origin - target + 1))
            && (t >= k ==> target >= origin && 0x100_0000_0000 * (target - origin) <= 410 * CubeRoot.Cube(t - k) < 0x100_0000_0000 * (target - origin + 1))
            && (target >= origin <==> t + PLATEAU >= k)
            && (target <= origin <==> t <= k + PLATEAU)
  {
    hide Target, CubicDelta, CubeRoot.Cube;
    TargetExact(origin, k, t);
    var offs := if t < k then k - t else t - k;
    OffsetFits(offs);
    FlatWithin(offs);
    DividedBy(CUBE_RTT_SCALE * CubeRoot.Cube(offs));
  }

  lemma DividedBy(n: nat)
    ensures BIC_SCALE * (n / BIC_SCALE) <= n < BIC_SCALE * (n / BIC_SCALE + 1)
  {
  }

  /** The target is back at the origin exactly from the tick on at which the epoch's
      age and the least delay, in 1/1024 seconds, are K less the plateau. */
  lemma BackAtOriginIff(s: Sock, now: nat)
    requires 0 <= Age(s, now) && s.delayMin < U32
    requires CubicCurve.Fits(s.origin, s.k) && Near(s.k, Elapsed(s, now))
    ensures TargetAt(s, now) >= s.origin <==> 1024 * (Age(s, now) + s.delayMin / 8) >= 1000 * (s.k - PLATEAU)
  {
    hide Target, Elapsed, CubeRoot.Cube;
    ElapsedIs(s, now);
    TargetOnTheCurve(s.origin, s.k, Elapsed(s, now));
  }

  // ----- an epoch -----

  /** K's cube, by the curve's own scale, is the distance to the old maximum, to
      within what the cube root leaves. */
  predicate IsK(k: nat, d: nat) {
    && 200 * (410 * CubeRoot.Cube(k - 1)) <= 201 * (0x100_0000_0000 * d)
    && 1000 * (410 * CubeRoot.Cube(k + 2)) >= 997 * (0x100_0000_0000 * d)
  }

  /** The first update after a reduction starts an epoch: now, aimed at the old
      maximum if that is above, and with the Reno estimate at the window. */
  lemma {:induction false} EpochBegins(s: Sock, e: Event)
    requires Inv(s) && e.CongControl? && s.epochStart == 0 && Recomputes(s, s.cubicCwnd, e.now)
    requires s.lastMaxCwnd < s.cubicCwnd + MILLION && s.cubicCwnd + e.acked < U32
    ensures var u, c := Updated(s, e), s.cubicCwnd;
            && u.epochStart == e.now && u.lastTime == e.now && u.lastCwnd == c
            && (s.lastMaxCwnd <= c ==> u.origin == c && u.k == 0)
            && (s.lastMaxCwnd > c ==> u.origin == s.lastMaxCwnd && IsK(u.k, s.lastMaxCwnd - c))
            && u.tcpCwnd >= c && (u.tcpCwnd - c) * FriendlyDelta(c) + u.ackCnt == e.acked && u.ackCnt <= FriendlyDelta(c)
  {
    hide Curve, FriendlyDelta, Friendly, TimeToOrigin, CubeRoot.Cube, IsK;
    DeltaPositive(s.cubicCwnd);
    UpdateCases(s, e);
    var o := Opened(s, e);
    CurveOnly(o, s.cubicCwnd, e.now);
    FriendlinessConserves(Curve(o, s.cubicCwnd, e.now), s.cubicCwnd);
    UpdateOnCurve(s, e);
    AimsAtMaximum(s.lastMaxCwnd, s.cubicCwnd);
  }

  lemma AimsAtMaximum(lastMax: nat, cwnd: nat)
    requires cwnd < U32 && lastMax < U32 && lastMax < cwnd + MILLION
    ensures var k := TimeToOrigin(lastMax, cwnd);
            if lastMax <= cwnd then k == 0 else IsK(k, lastMax - cwnd)
  {
    hide CubeRoot.Cube, CubeRoot.CubicRoot;
    if lastMax > cwnd { KInRange(lastMax - cwnd); }
  }

  lemma UpdateOnCurve(s: Sock, e: Event)
    requires Inv(s) && e.CongControl? && Recomputes(s, s.cubicCwnd, e.now) && FriendlyDelta(s.cubicCwnd) > 0
    ensures var f := Friendly(Curve(Opened(s, e), s.cubicCwnd, e.now), s.cubicCwnd);
            Updated(s, e).tcpCwnd == f.tcpCwnd && Updated(s, e).ackCnt == f.ackCnt
  {
    hide Curve, FriendlyDelta, Friendly, TimeToOrigin;
  }

  /** Once begun, an epoch lasts until a reduction: congestion control moves neither
      its curve nor the threshold, and does not take the window below `goal`. */
  lemma {:induction false} EpochLasts(s: Sock, es: seq<Event>, goal: nat)
    requires Inv(s) && AllAllow(es, goal) && s.epochStart != 0 && s.ssthresh <= MinNat(s.cubicCwnd, goal)
    ensures var r := RunEvents(s, es);
            SameCurve(s, r) && r.ssthresh == s.ssthresh && MinNat(s.cubicCwnd, goal) <= r.cubicCwnd
    decreases |es|
  {
    hide Step, Inv, Allows, AllAllow, Updated;
    if es != [] {
      StepGrows(s, es[0], goal);
      StepLasts(s, es[0], goal);
      EpochLasts(Step(s, es[0]), es[1..], goal);
    }
  }

  lemma StepLasts(s: Sock, e: Event, goal: nat)
    requires Inv(s) && Allows(e, goal) && s.epochStart != 0 && !InSlowStart(s)
    ensures SameCurve(s, Step(s, e))
  {
    hide Step, Updated, Recomputes, Curve;
    UpdateCases(s, e);
    CasesOf(s, e);
    StepKeepsCurve(s, e, goal);
    if Recomputes(s, s.cubicCwnd, e.now) { OpenedKeeps(s, e); }
  }

  lemma OpenedKeeps(s: Sock, e: Event)
    requires Inv(s) && e.CongControl? && s.epochStart != 0
    ensures var o := Opened(s, e); o.origin == s.origin && o.k == s.k && o.epochStart == s.epochStart
  {
    hide TimeToOrigin;
  }

  // ----- the Reno estimate -----

  /** ACKs for one packet of the Reno estimate: 15/8 of the window. */
  lemma RenoPrice(cwnd: nat)
    requires cwnd < 0x1000_0000
    ensures 8 * FriendlyDelta(cwnd) <= 15 * cwnd < 8 * (FriendlyDelta(cwnd) + 1)
  {
  }

  /** One event in an epoch: its ACKs are saved, or spent on packets of the estimate
      at the price of the window. */
  lemma RenoStep(s: Sock, e: Event, goal: nat)
    requires Inv(s) && Allows(e, goal) && !InSlowStart(s) && s.epochStart != 0 && s.tcpCwnd + s.ackCnt + e.acked < U32
    ensures var r := Step(s, e);
            && r.tcpCwnd >= s.tcpCwnd && r.tcpCwnd + r.ackCnt <= s.tcpCwnd + s.ackCnt + e.acked
            && (r.tcpCwnd - s.tcpCwnd) * FriendlyDelta(s.cubicCwnd) + r.ackCnt == s.ackCnt + e.acked
  {
    hide Updated, Step, FriendlyDelta, Div, Mod;
    DeltaPositive(s.cubicCwnd);
    StepIsUpdate(s, e, goal);
    UpdateSpends(s, e);
    var n, delta := Updated(s, e).tcpCwnd - s.tcpCwnd, FriendlyDelta(s.cubicCwnd);
    LessTimes(n, 1, delta);
  }

  lemma UpdateSpends(s: Sock, e: Event)
    requires Inv(s) && e.CongControl? && s.epochStart != 0 && s.tcpCwnd + s.ackCnt + e.acked < U32 && FriendlyDelta(s.cubicCwnd) > 0
    ensures var u := Updated(s, e);
            u.tcpCwnd >= s.tcpCwnd && (u.tcpCwnd - s.tcpCwnd) * FriendlyDelta(s.cubicCwnd) + u.ackCnt == s.ackCnt + e.acked
  {
    hide Curve, FriendlyDelta, Friendly, TimeToOrigin;
    var s1 := s.(ackCnt := s.ackCnt + e.acked);
    OpenedCounts(s, e);
    CurveOnly(Opened(s, e), s.cubicCwnd, e.now);
    FriendlinessConserves(s1, s.cubicCwnd);
    FriendlinessConserves(Curve(Opened(s, e), s.cubicCwnd, e.now), s.cubicCwnd);
  }

  lemma OpenedCounts(s: Sock, e: Event)
    requires Inv(s) && e.CongControl? && s.epochStart != 0 && s.ackCnt + e.acked < U32
    ensures Opened(s, e) == s.(ackCnt := s.ackCnt + e.acked, lastCwnd := s.cubicCwnd, lastTime := e.now)
  {
    hide TimeToOrigin;
  }

  /** ACKs spent on the estimate in a run. */
  function Spent(s: Sock, es: seq<Event>, goal: nat): int
    requires Inv(s) && AllAllow(es, goal)
    decreases |es|
  {
    if es == [] then 0
    else
      StepKeeps(s, es[0]);
      (Step(s, es[0]).tcpCwnd - s.tcpCwnd) * FriendlyDelta(s.cubicCwnd) + Spent(Step(s, es[0]), es[1..], goal)
  }

  /** Over every run in an epoch: each ACK has been spent on the estimate, at 15/8 of
      the window of its time for a packet, or is still counted. */
  lemma {:induction false} RenoCountsEveryAck(s: Sock, es: seq<Event>, goal: nat)
    requires Inv(s) && AllAllow(es, goal) && s.epochStart != 0 && s.ssthresh <= MinNat(s.cubicCwnd, goal)
    requires s.tcpCwnd + s.ackCnt + Acks(es) < U32
    ensures var r := RunEvents(s, es);
            Spent(s, es, goal) + r.ackCnt == s.ackCnt + Acks(es) && r.tcpCwnd >= s.tcpCwnd
    decreases |es|
  {
    hide Step, Inv, Allows, AllAllow, FriendlyDelta;
    if es != [] {
      AllowsMeans(es[0], goal);
      RenoStep(s, es[0], goal);
      StepGrows(s, es[0], goal);
      StepLasts(s, es[0], goal);
      RenoCountsEveryAck(Step(s, es[0]), es[1..], goal);
    }
  }

  // ----- back at the old maximum -----

  /** Clock readings at which the epoch that began at `start` has passed K, or its
      plateau has begun, and has not run out of range. */
  predicate PastK(start: nat, k: nat, delayMin: nat, now: nat) {
    var age := Signed(Sub32(now, start));
    0 <= age && 1000 * (k - PLATEAU) <= 1024 * (age + delayMin / 8) < 1000 * (k + MAX_OFFSET)
  }

  predicate AllPastK(start: nat, k: nat, delayMin: nat, es: seq<Event>) {
    forall i | 0 <= i < |es| :: es[i].CongControl? && PastK(start, k, delayMin, es[i].now)
  }

  lemma {:induction false} PastKIsAbove(s: Sock, es: seq<Event>)
    requires s.delayMin < U32 && CubicCurve.Fits(s.origin, s.k) && AllPastK(s.epochStart, s.k, s.delayMin, es)
    ensures AllAbove(s, es, s.origin)
  {
    hide TargetAt, Elapsed, CubicCurve.Fits;
    forall i | 0 <= i < |es|
      ensures es[i].CongControl? && TargetAt(s, es[i].now) >= s.origin
    {
      ElapsedIs(s, es[i].now);
      BackAtOriginIff(s, es[i].now);
    }
  }

  /** A shorter way costs no more. */
  lemma BillShrinks(p: Price, c: nat, c': nat, goal: nat)
    requires c <= c' <= goal
    ensures Bill(p, c', goal - c') <= Bill(p, c, goal - c)
  {
    BillSplit(p, c, c' - c, goal - c');
  }

  /** In an epoch, ACKs after K that cover the bill take the window to the origin. */
  lemma {:induction false} ReachesOrigin(s: Sock, es: seq<Event>, c: nat)
    requires Inv(s) && s.epochStart != 0 && s.ssthresh <= c <= MinNat(s.cubicCwnd, s.origin) && es != [] && AllAllow(es, s.origin)
    requires s.delayMin < U32 && CubicCurve.Fits(s.origin, s.k) && AllPastK(s.epochStart, s.k, s.delayMin, es)
    requires s.cubicCwnd < s.origin ==> Recomputes(s, s.cubicCwnd, es[0].now)
    requires Bill(Chasing(s.origin), c, s.origin - c) <= Acks(es) && s.sndCwndCnt + Acks(es) < U32
    ensures RunEvents(s, es).cubicCwnd >= s.origin
  {
    hide Step, Updated, Opened, Allows, AllAllow, AllAbove, Recomputes, Bill, Inv, AllPastK, CubicCurve.Fits;
    if s.cubicCwnd >= s.origin {
      StaysAtGoal(s, es, s.origin);
    } else {
      AllowsMeans(es[0], s.origin);
      UpdatedKeeps(s, es[0]);
      PastKIsAbove(s, es);
      SameTargets(s, Updated(s, es[0]), es, s.origin);
      BillShrinks(Chasing(s.origin), c, s.cubicCwnd, s.origin);
      ChaseReachesGoal(s, es, s.origin, s.origin);
    }
  }

  lemma UpdatedKeeps(s: Sock, e: Event)
    requires Inv(s) && e.CongControl? && s.epochStart != 0
    ensures SameCurve(s, Updated(s, e))
  {
    hide Updated, Recomputes, Curve;
    UpdateCases(s, e);
    CasesOf(s, e);
    if Recomputes(s, s.cubicCwnd, e.now) { OpenedKeeps(s, e); }
  }

  lemma {:induction false} RunJoins(s: Sock, xs: seq<Event>, ys: seq<Event>)
    requires Inv(s) && (forall e | e in xs :: Sane(e)) && (forall e | e in ys :: Sane(e))
    ensures (forall e | e in xs + ys :: Sane(e)) && RunEvents(s, xs + ys) == RunEvents(RunEvents(s, xs), ys)
    decreases |xs|
  {
    hide Step, Inv, Sane;
    if xs == [] {
      assert xs + ys == ys;
    } else {
      StepKeeps(s, xs[0]);
      RunJoins(Step(s, xs[0]), xs[1..], ys);
      assert (xs + ys)[1..] == xs[1..] + ys;
    }
  }

  /** After a reduction: the first update `e` aims at the maximum `r` remembers, and
      then, whatever comes in between, ACKs behind K that pay for the packets missing
      take the window back to it. */
  lemma {:induction false} BackAtTheMaximum(s: Sock, inFlight: nat, e: Event, between: seq<Event>, es: seq<Event>)
    requires Inv(s) && inFlight < LIMIT && s.delayMin < U32
    requires var r := Reduce(s, inFlight); var top, c := r.lastMaxCwnd, r.cubicCwnd;
             && r.ssthresh == c < top < c + MILLION && top + 4400 <= 201 * c && top + 0x100_0000 < U32
             && Allows(e, top) && e.now != 0 && !(r.lastCwnd == c && Signed(Sub32(e.now, r.lastTime)) <= HZ / 32)
             && AllAllow(between, top) && AllAllow(es, top) && es != []
             && Bill(Chasing(top), c, top - c) <= Acks(es)
    requires var r := Reduce(s, inFlight);
             && Inv(r) && Inv(Step(r, e)) && AllPastK(e.now, Updated(r, e).k, s.delayMin, es)
             && var m := RunEvents(Step(r, e), between);
                m.sndCwndCnt + Acks(es) < U32 && (m.cubicCwnd < r.lastMaxCwnd ==> Recomputes(m, m.cubicCwnd, es[0].now))
    ensures var r := Reduce(s, inFlight);
            Updated(r, e).origin == r.lastMaxCwnd && RunEvents(Step(r, e), between + es).cubicCwnd >= r.lastMaxCwnd
  {
    hide Step, Reduce, Updated, Opened, Allows, AllAllow, Recomputes, Bill, Inv, AllPastK, CubicCurve.Fits, TimeToOrigin;
    ReduceKeeps(s, inFlight);
    var r := Reduce(s, inFlight);
    ReducedEpoch(s, inFlight);
    AllowsMeans(e, r.lastMaxCwnd);
    var top, c, q := r.lastMaxCwnd, r.cubicCwnd, Step(r, e);
    StartOfEpoch(r, e, top);
    StartsAtTheWindow(top, c);
    StepGrows(r, e, top);
    EpochLasts(q, between, top);
    var m := RunEvents(q, between);
    assert m.origin == top && m.k == Updated(r, e).k && m.epochStart == e.now && m.delayMin == s.delayMin;
    assert m.ssthresh <= c;
    ReachesOrigin(m, es, c);
    RunJoins(q, between, es);
  }

  lemma ReducedEpoch(s: Sock, inFlight: nat)
    ensures Reduce(s, inFlight).epochStart == 0 && Reduce(s, inFlight).delayMin == s.delayMin
  {
  }

  lemma StartOfEpoch(r: Sock, e: Event, top: nat)
    requires Inv(r) && Allows(e, top) && r.epochStart == 0 && !InSlowStart(r) && r.lastMaxCwnd == top > r.cubicCwnd && e.now != 0
    requires !(r.lastCwnd == r.cubicCwnd && Signed(Sub32(e.now, r.lastTime)) <= HZ / 32)
    ensures var q := Step(r, e);
            && q.origin == Updated(r, e).origin == top && q.k == Updated(r, e).k == TimeToOrigin(top, r.cubicCwnd)
            && q.epochStart == e.now && q.delayMin == r.delayMin && q.ssthresh == r.ssthresh
  {
    hide Step, Updated, Curve, TimeToOrigin;
    UpdateCases(r, e);
    StepKeepsCurve(r, e, top);
  }
}
