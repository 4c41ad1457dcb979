/** How many ACKs bring the window to the curve's target, over runs of the
    congestion control handler (tcp_abccubic.c), which recomputes the count as the
    window grows. */
module CubicRuns {
  import opened Words
  import opened AbcEndpoint
  import opened Cubic
  import opened CubicGrowth
  import opened CubicCurve
  import CubeRoot

  // ----- prices -----

  /** ACKs for one more packet: a fixed count, or what the curve asks for while the
      window is below `target`. */
  datatype Price = Fixed(count: nat) | Chasing(target: nat)

  function Cost(p: Price, cwnd: nat): nat {
    match p
    case Fixed(n) => n
    case Chasing(target) => MaxNat(2, if cwnd < target then Div(cwnd, target - cwnd) else cwnd)
  }

  /** ACKs for `n` packets from a window on. */
  function Bill(p: Price, cwnd: nat, n: nat): nat
    decreases n
  {
    if n == 0 then 0 else Cost(p, cwnd) + Bill(p, cwnd + 1, n - 1)
  }

  lemma DivSmaller(a: nat, b: nat, c: nat, d: nat)
    requires a <= c && 0 < d <= b
    ensures Div(a, b) <= Div(c, d) && Div(a, b) <= a
  {
    hide Div;
    DivBounds(a, b);
    LessTimes(Div(a, b), d, b);
    DivAtLeast(c, d, Div(a, b));
    LessTimes(Div(a, b), 1, b);
  }

  lemma LessTimes(q: nat, d: nat, b: nat)
    requires d <= b
    ensures q * d <= q * b && q * 1 == q
  {
  }

  /** The price never falls as the window grows. */
  lemma CostMonotone(p: Price, x: nat, y: nat)
    requires x <= y
    ensures Cost(p, x) <= Cost(p, y)
  {
    hide Div;
    if p.Chasing? && x < p.target {
      if y < p.target { DivSmaller(x, p.target - x, y, p.target - y); } else { DivSmaller(x, p.target - x, x, p.target - x); }
    }
  }

  lemma {:induction false} BillSplit(p: Price, cwnd: nat, m: nat, n: nat)
    ensures Bill(p, cwnd, m + n) == Bill(p, cwnd, m) + Bill(p, cwnd + m, n)
    decreases m
  {
    hide Cost;
    if m > 0 { BillSplit(p, cwnd + 1, m - 1, n); }
  }

  lemma {:induction false} BillAtLeast(p: Price, cwnd: nat, n: nat, w: nat)
    requires w <= Cost(p, cwnd)
    ensures n * w <= Bill(p, cwnd, n)
    decreases n
  {
    hide Cost;
    if n > 0 {
      CostMonotone(p, cwnd, cwnd + 1);
      BillAtLeast(p, cwnd + 1, n - 1, w);
      OneMore(n - 1, w);
    } else {
      OneMore(0, w);
    }
  }

  lemma {:induction false} FixedBill(n: nat, cwnd: nat, g: nat)
    ensures Bill(Fixed(n), cwnd, g) == g * n
    decreases g
  {
    if g > 0 {
      FixedBill(n, cwnd + 1, g - 1);
      OneMore(g - 1, n);
    } else {
      OneMore(0, n);
    }
  }

  // ----- events -----

  /** Congestion control that may take the window to `goal`. */
  predicate Allows(e: Event, goal: nat) {
    Sane(e) && e.CongControl? && e.link.cwndLimited && goal <= e.link.clamp && goal <= FlightBound(e.link.inFlight)
  }

  predicate AllAllow(es: seq<Event>, goal: nat)
    ensures AllAllow(es, goal) ==> forall e | e in es :: Sane(e)
    ensures AllAllow(es, goal) && es != [] ==> Allows(es[0], goal) && AllAllow(es[1..], goal)
  {
    forall i | 0 <= i < |es| :: Allows(es[i], goal)
  }

  function Acks(es: seq<Event>): nat {
    if es == [] then 0 else (if es[0].CongControl? then es[0].acked else 0) + Acks(es[1..])
  }

  /** The update of an event. */
  function Updated(s: Sock, e: Event): Sock
    requires Inv(s) && e.CongControl?
  {
    DeltaPositive(s.cubicCwnd);
    Update(s, s.cubicCwnd, e.acked, e.now)
  }

  /** Out of slow start the handler is an update and the growth it asks for. */
  lemma StepIsUpdate(s: Sock, e: Event, goal: nat)
    requires Inv(s) && Allows(e, goal) && !InSlowStart(s)
    ensures var u := Updated(s, e);
            && u.cnt >= 2 && Inv(u) && u.cubicCwnd == s.cubicCwnd && u.sndCwndCnt == s.sndCwndCnt && u.ssthresh == s.ssthresh
            && Step(s, e) == BoundByFlight(CongAvoidAi(u, u.cnt, e.acked, e.link.clamp), e.link.inFlight)
  {
    hide Update, CongAvoidAi, BoundByFlight, FriendlyDelta;
    DeltaPositive(s.cubicCwnd);
    UpdateKeeps(s, e.acked, e.now);
    SlowStartKeeps(s, e.acked, e.link.clamp);
  }

  /** And changes nothing else that an update looks at. */
  lemma StepKeepsCurve(s: Sock, e: Event, goal: nat)
    requires Inv(s) && Allows(e, goal) && !InSlowStart(s)
    ensures var u, r := Updated(s, e), Step(s, e);
            && r.cnt == u.cnt && r.lastCwnd == u.lastCwnd && r.lastTime == u.lastTime && r.origin == u.origin && r.k == u.k
            && r.epochStart == u.epochStart && r.delayMin == u.delayMin && r.ssthresh == u.ssthresh == s.ssthresh
  {
    hide Updated, Step;
    StepIsUpdate(s, e, goal);
  }

  /** Growth at a count `w`: what is bought, and what is saved. */
  lemma AiBuys(u: Sock, w: nat, acked: nat, clamp: nat)
    requires Inv(u) && w >= 2 && clamp <= LIMIT && u.sndCwndCnt + acked < U32
    ensures var r := CongAvoidAi(u, w, acked, clamp);
            && r.cubicCwnd >= MinNat(u.cubicCwnd, clamp) && r.sndCwndCnt < w && r.sndCwndCnt <= u.sndCwndCnt + acked
            && (r.cubicCwnd < clamp ==>
                  if u.sndCwndCnt < w then (r.cubicCwnd - u.cubicCwnd) * w + r.sndCwndCnt == u.sndCwndCnt + acked
                  else r.cubicCwnd > u.cubicCwnd && (r.cubicCwnd - u.cubicCwnd - 1) * w + r.sndCwndCnt == acked)
  {
    hide Div, Mod;
    var c := if u.sndCwndCnt >= w then acked else u.sndCwndCnt + acked;
    HalfAtMost(c, w);
    Divided(c, w);
  }

  lemma AiNeverShrinks(u: Sock, w: nat, acked: nat, clamp: nat)
    requires Inv(u) && w >= 2 && clamp <= LIMIT
    ensures CongAvoidAi(u, w, acked, clamp).cubicCwnd >= MinNat(u.cubicCwnd, clamp)
  {
    hide Div, Mod;
    HalfAtMost(Add32(if u.sndCwndCnt >= w then 0 else u.sndCwndCnt, acked), w);
  }

  /** Once the goal is reached the window stays there. */
  lemma {:induction false} StaysAtGoal(s: Sock, es: seq<Event>, goal: nat)
    requires Inv(s) && s.ssthresh <= goal <= s.cubicCwnd && AllAllow(es, goal)
    ensures RunEvents(s, es).cubicCwnd >= goal
    decreases |es|
  {
    hide Step, Inv, Allows, AllAllow;
    if es != [] {
      StepStays(s, es[0], goal);
      StaysAtGoal(Step(s, es[0]), es[1..], goal);
    }
  }

  lemma StepStays(s: Sock, e: Event, goal: nat)
    requires Inv(s) && s.ssthresh <= goal <= s.cubicCwnd && Allows(e, goal)
    ensures Sane(e) && Inv(Step(s, e)) && Step(s, e).cubicCwnd >= goal && Step(s, e).ssthresh == s.ssthresh
  {
    hide Step, Updated, CongAvoidAi;
    StepKeeps(s, e);
    StepIsUpdate(s, e, goal);
    StepKeepsCurve(s, e, goal);
    var u := Updated(s, e);
    AiNeverShrinks(u, u.cnt, e.acked, e.link.clamp);
  }

  // ----- a run at a price -----

  /** No event below the goal asks for more than the price. */
  predicate AllPriced(p: Price, s: Sock, es: seq<Event>, goal: nat)
    requires Inv(s) && AllAllow(es, goal)
    decreases |es|
  {
    es == [] || s.cubicCwnd >= goal ||
    (StepKeeps(s, es[0]); Updated(s, es[0]).cnt <= Cost(p, s.cubicCwnd) && AllPriced(p, Step(s, es[0]), es[1..], goal))
  }

  /** One event below the goal: ACKs are turned into packets at no more than the
      price, or saved. */
  lemma {:induction false} EventBuys(p: Price, s: Sock, e: Event, goal: nat, credit: nat)
    requires Inv(s) && Allows(e, goal) && !InSlowStart(s) && s.cubicCwnd < goal
    requires Updated(s, e).cnt <= Cost(p, s.cubicCwnd) && credit <= s.sndCwndCnt && credit < Cost(p, s.cubicCwnd)
    requires s.sndCwndCnt + e.acked < U32
    ensures var r := Step(s, e);
            && Inv(r) && s.cubicCwnd <= r.cubicCwnd && r.ssthresh == s.ssthresh && r.sndCwndCnt <= s.sndCwndCnt + e.acked
            && (r.cubicCwnd < goal ==>
                  && r.sndCwndCnt < Cost(p, r.cubicCwnd)
                  && Bill(p, s.cubicCwnd, r.cubicCwnd - s.cubicCwnd) + r.sndCwndCnt >= credit + e.acked)
  {
    hide Step, Updated, CongAvoidAi, Cost, Bill;
    StepKeeps(s, e);
    StepIsUpdate(s, e, goal);
    StepKeepsCurve(s, e, goal);
    var u, r := Updated(s, e), Step(s, e);
    var w := u.cnt;
    AiBuys(u, w, e.acked, e.link.clamp);
    if r.cubicCwnd < goal {
      var n := r.cubicCwnd - s.cubicCwnd;
      CostMonotone(p, s.cubicCwnd, r.cubicCwnd);
      if s.sndCwndCnt < w {
        BillAtLeast(p, s.cubicCwnd, n, w);
      } else {
        CostMonotone(p, s.cubicCwnd, s.cubicCwnd + 1);
        BillAtLeast(p, s.cubicCwnd + 1, n - 1, w);
        BillNext(p, s.cubicCwnd, n);
      }
    }
  }

  lemma BillNext(p: Price, cwnd: nat, n: nat)
    requires n > 0
    ensures Bill(p, cwnd, n) == Cost(p, cwnd) + Bill(p, cwnd + 1, n - 1)
  {
  }

  /** ACKs that cover the bill take the window to the goal, however they arrive. */
  lemma {:induction false} BuysPackets(p: Price, s: Sock, es: seq<Event>, goal: nat, credit: nat)
    requires Inv(s) && s.ssthresh <= s.cubicCwnd <= goal && AllAllow(es, goal)
    requires AllPriced(p, s, es, goal) && s.sndCwndCnt + Acks(es) < U32
    requires credit <= s.sndCwndCnt && credit < Cost(p, s.cubicCwnd)
    requires Bill(p, s.cubicCwnd, goal - s.cubicCwnd) <= credit + Acks(es)
    ensures RunEvents(s, es).cubicCwnd >= goal
    decreases |es|
  {
    hide Step, Inv, Allows, AllAllow, Updated, Cost, Bill;
    if s.cubicCwnd == goal {
      StaysAtGoal(s, es, goal);
    } else if es == [] {
      BillNext(p, s.cubicCwnd, goal - s.cubicCwnd);
    } else {
      var e, rest := es[0], es[1..];
      AllowsMeans(e, goal);
      EventBuys(p, s, e, goal, credit);
      var r := Step(s, e);
      if r.cubicCwnd >= goal {
        StaysAtGoal(r, rest, goal);
      } else {
        BillSplit(p, s.cubicCwnd, r.cubicCwnd - s.cubicCwnd, goal - r.cubicCwnd);
        BuysPackets(p, r, rest, goal, r.sndCwndCnt);
      }
    }
  }

  lemma AllowsMeans(e: Event, goal: nat)
    requires Allows(e, goal)
    ensures e.CongControl? && Sane(e)
  {
  }

  // ----- the bill is exact -----

  /** One ACK at a time, and each event asks for exactly the price. */
  predicate AllExact(p: Price, s: Sock, es: seq<Event>, goal: nat)
    requires Inv(s) && AllAllow(es, goal)
    decreases |es|
  {
    es == [] || s.cubicCwnd >= goal ||
    (StepKeeps(s, es[0]);
     es[0].acked == 1 && Updated(s, es[0]).cnt == Cost(p, s.cubicCwnd) && AllExact(p, Step(s, es[0]), es[1..], goal))
  }

  lemma {:induction false} ExactIsPriced(p: Price, s: Sock, es: seq<Event>, goal: nat)
    requires Inv(s) && AllAllow(es, goal) && AllExact(p, s, es, goal)
    ensures AllPriced(p, s, es, goal)
    decreases |es|
  {
    hide Step, Inv, Allows, AllAllow, Updated, Cost;
    if es != [] && s.cubicCwnd < goal {
      AllowsMeans(es[0], goal);
      StepKeeps(s, es[0]);
      ExactIsPriced(p, Step(s, es[0]), es[1..], goal);
    }
  }

  /** An ACK is saved, or it is the last of its packet. */
  lemma OneAckBuys(s: Sock, e: Event, goal: nat)
    requires Inv(s) && Allows(e, goal) && !InSlowStart(s) && s.cubicCwnd < goal && e.acked == 1
    requires s.sndCwndCnt < Updated(s, e).cnt && s.sndCwndCnt + 1 < U32
    ensures var r, last := Step(s, e), s.sndCwndCnt + 1 == Updated(s, e).cnt;
            && Inv(r) && r.ssthresh == s.ssthresh
            && r.cubicCwnd == s.cubicCwnd + (if last then 1 else 0) && r.sndCwndCnt == (if last then 0 else s.sndCwndCnt + 1)
  {
    hide Step, Updated, Div, Mod;
    StepKeeps(s, e);
    StepIsUpdate(s, e, goal);
    StepKeepsCurve(s, e, goal);
    var w := Updated(s, e).cnt;
    if s.sndCwndCnt + 1 == w { DividesInto(w, w, 1, 0); } else { DividesInto(s.sndCwndCnt + 1, w, 0, s.sndCwndCnt + 1); }
  }

  lemma {:induction false} BuysNoMore(p: Price, s: Sock, es: seq<Event>, goal: nat)
    requires Inv(s) && s.ssthresh <= s.cubicCwnd <= goal && AllAllow(es, goal) && AllExact(p, s, es, goal)
    requires s.sndCwndCnt + Acks(es) < MinNat(Bill(p, s.cubicCwnd, goal - s.cubicCwnd), U32)
    requires s.sndCwndCnt < Cost(p, s.cubicCwnd)
    ensures RunEvents(s, es).cubicCwnd < goal
    decreases |es|
  {
    hide Step, Inv, Allows, AllAllow, Updated, Cost;
    if es != [] {
      var e, r := es[0], Step(s, es[0]);
      AllowsMeans(e, goal);
      OneAckBuys(s, e, goal);
      CostMonotone(p, s.cubicCwnd, r.cubicCwnd);
      BuysNoMore(p, r, es[1..], goal);
    }
  }

  /** For single ACKs at the price the window reaches the goal exactly when they
      cover the bill. */
  lemma {:induction false} ExactlyTheBill(p: Price, s: Sock, es: seq<Event>, goal: nat)
    requires Inv(s) && s.ssthresh <= s.cubicCwnd <= goal && AllAllow(es, goal) && AllExact(p, s, es, goal)
    requires s.sndCwndCnt == 0 < Cost(p, s.cubicCwnd) && Acks(es) < U32
    ensures RunEvents(s, es).cubicCwnd >= goal <==> Bill(p, s.cubicCwnd, goal - s.cubicCwnd) <= Acks(es)
  {
    hide Inv, AllAllow, Bill, Cost, AllExact, RunEvents;
    if Bill(p, s.cubicCwnd, goal - s.cubicCwnd) <= Acks(es) {
      ExactIsPriced(p, s, es, goal);
      BuysPackets(p, s, es, goal, 0);
    } else {
      BuysNoMore(p, s, es, goal);
    }
  }

  // ----- prices of the curve -----

  function TargetAt(s: Sock, now: nat): nat {
    Target(s.origin, s.k, Elapsed(s, now))
  }

  /** The epoch in which an event's update runs. */
  function Opened(s: Sock, e: Event): Sock
    requires Inv(s) && e.CongControl?
  {
    Epoch(s.(ackCnt := Add32(s.ackCnt, e.acked)), s.cubicCwnd, e.acked, e.now)
  }

  /** An update leaves alone, only takes friendliness into account, or runs the
      curve. */
  lemma UpdateCases(s: Sock, e: Event)
    requires Inv(s) && e.CongControl?
    ensures var u, tooSoon := Updated(s, e), s.lastCwnd == s.cubicCwnd && Signed(Sub32(e.now, s.lastTime)) <= HZ / 32;
            && (tooSoon ==> u == s.(ackCnt := u.ackCnt))
            && (!tooSoon && s.epochStart != 0 && e.now == s.lastTime ==>
                  u == s.(ackCnt := u.ackCnt, tcpCwnd := u.tcpCwnd, cnt := u.cnt) && u.cnt <= MaxNat(2, s.cnt))
            && (Recomputes(s, s.cubicCwnd, e.now) ==>
                  var o := Opened(s, e);
                  && u.lastCwnd == s.cubicCwnd && u.lastTime == e.now && u.epochStart == o.epochStart
                  && u.origin == o.origin && u.k == o.k && u.delayMin == s.delayMin
                  && u.cnt <= MaxNat(2, Curve(o, s.cubicCwnd, e.now).cnt))
  {
    hide Curve, FriendlyDelta, Rounds, Gone, Div, TimeToOrigin;
    DeltaPositive(s.cubicCwnd);
    CurveOnly(Opened(s, e), s.cubicCwnd, e.now);
  }

  /** Below a target the curve's count is at most the price of chasing it. */
  lemma CurvePrice(s: Sock, e: Event, target: nat)
    requires Inv(s) && e.CongControl? && Recomputes(s, s.cubicCwnd, e.now)
    requires s.cubicCwnd < target <= TargetAt(Opened(s, e), e.now)
    ensures Updated(s, e).cnt <= Cost(Chasing(target), s.cubicCwnd)
  {
    hide Curve, Updated, Opened, Elapsed, Target, Div, Recomputes;
    UpdateCases(s, e);
    var o, c := Opened(s, e), s.cubicCwnd;
    CountReachesTarget(o, c, e.now);
    var n, far := Curve(o, c, e.now).cnt, TargetAt(o, e.now);
    DivAtLeast(c, far - c, n);
    DivSmaller(c, far - c, c, target - c);
  }

  // ----- one tick -----

  /** The update has run in this tick and asked for `n`. */
  predicate InTick(s: Sock, n: nat, now: nat) {
    s.epochStart != 0 && s.lastTime == now && s.cnt <= n && 2 <= n
  }

  /** In one tick the count only falls. */
  lemma TickKeeps(s: Sock, e: Event, n: nat, goal: nat)
    requires Inv(s) && Allows(e, goal) && !InSlowStart(s) && InTick(s, n, e.now)
    ensures Inv(Step(s, e)) && Updated(s, e).cnt <= n && InTick(Step(s, e), n, e.now)
  {
    hide Updated, Step;
    UpdateCases(s, e);
    StepKeeps(s, e);
    StepKeepsCurve(s, e, goal);
  }

  predicate AllAt(es: seq<Event>, now: nat)
    ensures AllAt(es, now) && es != [] ==> es[0].CongControl? && es[0].now == now && AllAt(es[1..], now)
  {
    forall i | 0 <= i < |es| :: es[i].CongControl? && es[i].now == now
  }

  lemma {:induction false} TickIsPriced(s: Sock, es: seq<Event>, n: nat, now: nat, goal: nat)
    requires Inv(s) && AllAllow(es, goal) && s.ssthresh <= MinNat(s.cubicCwnd, goal) && InTick(s, n, now) && AllAt(es, now)
    ensures AllPriced(Fixed(n), s, es, goal)
    decreases |es|
  {
    hide Step, Inv, Allows, AllAllow, AllAt, Updated, InTick;
    if es != [] && s.cubicCwnd < goal {
      TickKeeps(s, es[0], n, goal);
      StepGrows(s, es[0], goal);
      TickIsPriced(Step(s, es[0]), es[1..], n, now, goal);
    }
  }

  /** Below the goal the window does not shrink. */
  lemma StepGrows(s: Sock, e: Event, goal: nat)
    requires Inv(s) && Allows(e, goal) && s.ssthresh <= MinNat(s.cubicCwnd, goal)
    ensures Sane(e) && Inv(Step(s, e)) && Step(s, e).ssthresh == s.ssthresh
    ensures MinNat(s.cubicCwnd, goal) <= Step(s, e).cubicCwnd
  {
    hide Step;
    StepStays(s, e, MinNat(s.cubicCwnd, goal));
  }

  /** Within one clock tick, a window's worth of ACKs takes the window to the curve's
      target, or half as far again as it was, if clamp and flight allow it. */
  lemma {:induction false} WindowReachesTarget(s: Sock, es: seq<Event>, goal: nat)
    requires Inv(s) && !InSlowStart(s) && es != [] && AllAllow(es, goal) && AllAt(es, es[0].now)
    requires Recomputes(s, s.cubicCwnd, es[0].now) && (s.epochStart != 0 || es[0].now != 0)
    requires s.cubicCwnd <= Acks(es) && s.sndCwndCnt + Acks(es) < U32
    requires var target := TargetAt(Updated(s, es[0]), es[0].now);
             target > s.cubicCwnd && goal == s.cubicCwnd + MinNat(target - s.cubicCwnd, s.cubicCwnd / 2)
    ensures RunEvents(s, es).cubicCwnd >= goal
  {
    hide Step, Updated, Opened, Allows, AllAllow, AllAt, Elapsed, Target, Recomputes, Bill;
    var e, c := es[0], s.cubicCwnd;
    var u := Updated(s, e);
    var g := goal - c;
    FirstUpdate(s, e, goal);
    StepKeepsCurve(s, e, goal);
    StepGrows(s, e, goal);
    TickIsPriced(Step(s, e), es[1..], u.cnt, e.now, goal);
    FixedBill(u.cnt, c, g);
    CountCovers(u.cnt, c, g, TargetAt(u, e.now) - c);
    BuysPackets(Fixed(u.cnt), s, es, goal, 0);
  }

  lemma CountCovers(n: nat, cwnd: nat, g: nat, d: nat)
    requires g == MinNat(d, cwnd / 2) && (n == 2 || d * n <= cwnd)
    ensures g * n <= cwnd
  {
    LessTimes(n, g, d);
    assert n * g == g * n && n * d == d * n;
  }

  /** The first update of a run. */
  lemma FirstUpdate(s: Sock, e: Event, goal: nat)
    requires Inv(s) && Allows(e, goal) && Recomputes(s, s.cubicCwnd, e.now) && (s.epochStart != 0 || e.now != 0)
    ensures var u := Updated(s, e);
            && u.cnt >= 2 && u.epochStart != 0 && u.lastTime == e.now && u.lastCwnd == s.cubicCwnd
            && (TargetAt(u, e.now) > s.cubicCwnd ==> u.cnt == 2 || (TargetAt(u, e.now) - s.cubicCwnd) * u.cnt <= s.cubicCwnd)
            && TargetAt(u, e.now) == TargetAt(Opened(s, e), e.now)
  {
    hide Curve, Target, FriendlyDelta, TimeToOrigin, Update, Recomputes;
    DeltaPositive(s.cubicCwnd);
    UpdateCases(s, e);
    UpdatedCount(s, e.acked, e.now);
  }

  // ----- across ticks -----

  /** The count was asked for at a window that was no larger. */
  predicate Chases(s: Sock, target: nat) {
    s.epochStart != 0 && s.lastCwnd <= s.cubicCwnd && s.cnt <= Cost(Chasing(target), s.lastCwnd)
  }

  predicate AllAbove(s: Sock, es: seq<Event>, target: nat)
    ensures AllAbove(s, es, target) && es != [] ==>
              es[0].CongControl? && target <= TargetAt(s, es[0].now) && AllAbove(s, es[1..], target)
  {
    forall i | 0 <= i < |es| :: es[i].CongControl? && target <= TargetAt(s, es[i].now)
  }

  /** Where the curve is: what the target depends on. */
  predicate SameCurve(s: Sock, r: Sock) {
    s.origin == r.origin && s.k == r.k && s.epochStart == r.epochStart && s.delayMin == r.delayMin
  }

  lemma {:induction false} SameTargets(s: Sock, r: Sock, es: seq<Event>, target: nat)
    requires SameCurve(s, r)
    ensures AllAbove(s, es, target) == AllAbove(r, es, target)
  {
    hide Target;
    assert forall now: nat :: TargetAt(s, now) == TargetAt(r, now);
  }

  lemma ChaseKeeps(s: Sock, e: Event, target: nat, goal: nat)
    requires Inv(s) && Allows(e, goal) && s.ssthresh <= s.cubicCwnd < goal <= target <= TargetAt(s, e.now) && Chases(s, target)
    ensures Updated(s, e).cnt <= Cost(Chasing(target), s.cubicCwnd)
    ensures Inv(Step(s, e)) && Chases(Step(s, e), target) && SameCurve(s, Step(s, e))
  {
    hide Updated, Step, Cost, Curve, TimeToOrigin, Target, Recomputes;
    var p, u := Chasing(target), Updated(s, e);
    UpdateCases(s, e);
    StepKeepsCurve(s, e, goal);
    StepGrows(s, e, goal);
    CostMonotone(p, s.lastCwnd, s.cubicCwnd);
    CostAtLeastTwo(target, s.lastCwnd);
    CasesOf(s, e);
    if Recomputes(s, s.cubicCwnd, e.now) {
      CurvePrice(s, e, target);
    }
  }

  lemma CasesOf(s: Sock, e: Event)
    requires Inv(s) && e.CongControl?
    ensures Recomputes(s, s.cubicCwnd, e.now)
         || (s.lastCwnd == s.cubicCwnd && Signed(Sub32(e.now, s.lastTime)) <= HZ / 32)
         || (s.epochStart != 0 && e.now == s.lastTime)
  {
  }

  lemma CostAtLeastTwo(target: nat, cwnd: nat)
    ensures Cost(Chasing(target), cwnd) >= 2
  {
  }

  lemma {:induction false} ChaseIsPriced(s: Sock, es: seq<Event>, target: nat, goal: nat)
    requires Inv(s) && AllAllow(es, goal) && s.ssthresh <= MinNat(s.cubicCwnd, goal) && goal <= target
    requires Chases(s, target) && AllAbove(s, es, target)
    ensures AllPriced(Chasing(target), s, es, goal)
    decreases |es|
  {
    hide Step, Inv, Allows, AllAllow, Updated, Chases, AllAbove, TargetAt, SameCurve, Cost;
    if es != [] && s.cubicCwnd < goal {
      ChaseKeeps(s, es[0], target, goal);
      StepGrows(s, es[0], goal);
      SameTargets(s, Step(s, es[0]), es[1..], target);
      ChaseIsPriced(Step(s, es[0]), es[1..], target, goal);
    }
  }

  /** Over any clock: while the curve's target is `target` or more, the window reaches
      any goal up to it once the ACKs cover the packets on the way, each at the price
      of the window it is added to. */
  lemma {:induction false} ChaseReachesGoal(s: Sock, es: seq<Event>, target: nat, goal: nat)
    requires Inv(s) && !InSlowStart(s) && es != [] && AllAllow(es, goal)
    requires Recomputes(s, s.cubicCwnd, es[0].now) && (s.epochStart != 0 || es[0].now != 0)
    requires AllAbove(Updated(s, es[0]), es, target) && s.cubicCwnd < goal <= target
    requires Bill(Chasing(target), s.cubicCwnd, goal - s.cubicCwnd) <= Acks(es) && s.sndCwndCnt + Acks(es) < U32
    ensures RunEvents(s, es).cubicCwnd >= goal
  {
    hide Step, Updated, Opened, Allows, AllAllow, AllAbove, TargetAt, Recomputes, Bill, Cost;
    var e, p := es[0], Chasing(target);
    var u, r := Updated(s, e), Step(s, e);
    FirstUpdate(s, e, goal);
    CurvePrice(s, e, target);
    StepKeepsCurve(s, e, goal);
    StepGrows(s, e, goal);
    SameTargets(u, r, es[1..], target);
    ChaseIsPriced(r, es[1..], target, goal);
    CostAtLeastTwo(target, s.cubicCwnd);
    BuysPackets(p, s, es, goal, 0);
  }

  /** Events at ages that do not go back, where the curve does not overflow. */
  predicate ClockRuns(s: Sock, es: seq<Event>)
    requires es != [] && es[0].CongControl?
  {
    && s.delayMin < U32 && CubicCurve.Fits(s.origin, s.k) && 0 <= Age(s, es[0].now)
    && forall i | 0 <= i < |es| :: es[i].CongControl? && Age(s, es[0].now) <= Age(s, es[i].now) && Near(s.k, Elapsed(s, es[i].now))
  }

  /** With a clock that does not go back, the target of the first update is one that
      the window reaches at its price. */
  lemma {:induction false} ClockReachesTarget(s: Sock, es: seq<Event>, goal: nat)
    requires Inv(s) && !InSlowStart(s) && es != [] && AllAllow(es, goal)
    requires Recomputes(s, s.cubicCwnd, es[0].now) && (s.epochStart != 0 || es[0].now != 0)
    requires ClockRuns(Updated(s, es[0]), es)
    requires var target := TargetAt(Updated(s, es[0]), es[0].now);
             && s.cubicCwnd < goal <= target && s.sndCwndCnt + Acks(es) < U32
             && Bill(Chasing(target), s.cubicCwnd, goal - s.cubicCwnd) <= Acks(es)
    ensures RunEvents(s, es).cubicCwnd >= goal
  {
    hide Step, Updated, Opened, Allows, AllAllow, TargetAt, Recomputes, Bill, Cost, AllAbove, ClockRuns;
    AllowsMeans(es[0], goal);
    var u := Updated(s, es[0]);
    ClockStaysAbove(u, es);
    ChaseReachesGoal(s, es, TargetAt(u, es[0].now), goal);
  }

  lemma {:induction false} ClockStaysAbove(s: Sock, es: seq<Event>)
    requires es != [] && es[0].CongControl? && ClockRuns(s, es)
    ensures AllAbove(s, es, TargetAt(s, es[0].now))
  {
    hide Age, Elapsed, Near, Target, CubicCurve.Fits;
    forall i | 0 <= i < |es|
      ensures es[i].CongControl? && TargetAt(s, es[0].now) <= TargetAt(s, es[i].now)
    {
      TargetFollowsClock(s, es[0].now, es[i].now);
    }
  }

  // ----- one window of ACKs is not enough across ticks -----

  const SHORT: Sock := Sock(50, 7, 7, 1000, 7, 0, 0, 1000, 0, 7, 5, Window(100, 0, 0), 5, 0, 2)

  function OneAck(now: nat): Event {
    CongControl(1, now, Link(100, 1000, 100, true))
  }

  function FiveAcks(): seq<Event> {
    [OneAck(1001)] + ([OneAck(1002)] + ([OneAck(1003)] + ([OneAck(1004)] + ([OneAck(1005)] + []))))
  }

  /** `SHORT` after each of them. */
  const SHORT1: Sock := SHORT.(cnt := 2, lastCwnd := 5, lastTime := 1001, ackCnt := 1, sndCwndCnt := 1)
  const SHORT2: Sock := SHORT1.(ackCnt := 2, sndCwndCnt := 0, cubicCwnd := 6, sndCwnd := 6)
  const SHORT3: Sock := SHORT2.(cnt := 6, lastCwnd := 6, lastTime := 1003, ackCnt := 3, sndCwndCnt := 1)
  const SHORT4: Sock := SHORT3.(ackCnt := 4, sndCwndCnt := 2)
  const SHORT5: Sock := SHORT4.(ackCnt := 5, sndCwndCnt := 3)

  lemma FlatTargets(s: Sock, now: nat)
    requires SameCurve(s, SHORT) && 1001 <= now <= 1005
    ensures TargetAt(s, now) == 7
  {
    hide CubicDelta;
    var t := now - 1000;
    ScaledTime(t);
    assert Elapsed(s, now) == t;
    NoOffset(t);
  }

  lemma NoOffset(t: nat)
    requires t <= 5
    ensures CubicDelta(t) == 0
  {
    CubicCurve.OffsetFits(t);
    CubeRoot.CubeMonotone(t, 5);
    assert CubeRoot.Cube(5) == 125;
  }

  lemma FirstAck()
    ensures Inv(SHORT) && Step(SHORT, OneAck(1001)) == SHORT1
  {
    hide Step, Updated;
    StepIsUpdate(SHORT, OneAck(1001), 7);
    FirstAckUpdate();
  }

  lemma FirstAckUpdate()
    ensures Inv(SHORT) && Updated(SHORT, OneAck(1001)) == SHORT.(cnt := 2, lastCwnd := 5, lastTime := 1001, ackCnt := 1)
  {
    hide Target, Elapsed, Curve, Friendly, FriendlyDelta;
    DeltaPositive(5);
    var e := SHORT.(ackCnt := 1, lastCwnd := 5, lastTime := 1001);
    CurveOfSeven(e, 2);
    FriendlyOfSeven(e.(cnt := 2));
  }

  lemma SecondAck()
    ensures Inv(SHORT1) && Step(SHORT1, OneAck(1002)) == SHORT2
  {
    hide Target, Elapsed;
  }

  lemma ThirdAck()
    ensures Inv(SHORT2) && Step(SHORT2, OneAck(1003)) == SHORT3
  {
    hide Step, Updated;
    StepIsUpdate(SHORT2, OneAck(1003), 7);
    ThirdUpdate();
  }

  lemma ThirdUpdate()
    ensures Inv(SHORT2) && Updated(SHORT2, OneAck(1003)) == SHORT2.(cnt := 6, lastCwnd := 6, lastTime := 1003, ackCnt := 3)
  {
    hide Target, Elapsed, Curve, Friendly, FriendlyDelta;
    DeltaPositive(6);
    var e := SHORT2.(ackCnt := 3, lastCwnd := 6, lastTime := 1003);
    CurveOfSeven(e, 6);
    FriendlyOfSeven(e.(cnt := 6));
  }

  /** A target of 7 for a window of 5 or 6. */
  lemma CurveOfSeven(e: Sock, n: nat)
    requires SameCurve(e, SHORT) && e.lastMaxCwnd == 7 && 1001 <= e.lastTime <= 1005
    requires (e.lastCwnd == 5 && n == 2) || (e.lastCwnd == 6 && n == 6)
    ensures Curve(e, e.lastCwnd, e.lastTime) == e.(cnt := n)
  {
    hide Target, Elapsed;
    FlatTargets(e, e.lastTime);
  }

  /** The Reno estimate of 7 asks for no lower count. */
  lemma FriendlyOfSeven(e: Sock)
    requires e.tcpCwnd == 7 && e.ackCnt <= 3
    requires (e.lastCwnd == 5 && e.cnt == 2) || (e.lastCwnd == 6 && e.cnt == 6)
    ensures FriendlyDelta(e.lastCwnd) > 0 && Friendly(e, e.lastCwnd) == e
  {
    assert FriendlyDelta(5) == 9 && FriendlyDelta(6) == 11;
    NoRounds(e.ackCnt, FriendlyDelta(e.lastCwnd));
  }

  lemma NoRounds(ackCnt: nat, delta: nat)
    requires ackCnt <= delta && delta > 0
    ensures Rounds(ackCnt, delta) == 0 && Gone(ackCnt, delta) == 0
  {
    if ackCnt > 0 { DivModUnique(ackCnt - 1, delta, 0, ackCnt - 1); }
  }

  lemma FourthAck()
    ensures Inv(SHORT3) && Step(SHORT3, OneAck(1004)) == SHORT4
  {
    hide Target, Elapsed;
  }

  lemma FifthAck()
    ensures Inv(SHORT4) && Step(SHORT4, OneAck(1005)) == SHORT5
  {
    hide Target, Elapsed;
  }

  lemma {:induction false} RunCons(s: Sock, e: Event, es: seq<Event>)
    requires Inv(s) && Sane(e) && forall x | x in es :: Sane(x)
    ensures Inv(Step(s, e)) && (forall x | x in [e] + es :: Sane(x)) && RunEvents(s, [e] + es) == RunEvents(Step(s, e), es)
  {
    hide Step, Inv;
    StepKeeps(s, e);
    assert ([e] + es)[1..] == es;
  }

  /** A window of 5 below a target of 7, and five ACKs in five ticks: the window is 6
      at the end, where a window of ACKs in one tick makes it 7. */
  lemma WindowCanFallShort()
    ensures Inv(SHORT) && !InSlowStart(SHORT) && AllAllow(FiveAcks(), 7) && Recomputes(SHORT, 5, 1001)
    ensures AllAbove(Updated(SHORT, FiveAcks()[0]), FiveAcks(), 7) && Acks(FiveAcks()) == SHORT.cubicCwnd == 5
    ensures RunEvents(SHORT, FiveAcks()).cubicCwnd == 6
  {
    hide Step, Inv, Elapsed, Target;
    FiveAllow();
    FirstAck();
    SecondAck();
    ThirdAck();
    FourthAck();
    FifthAck();
    RunCons(SHORT4, OneAck(1005), []);
    RunCons(SHORT3, OneAck(1004), [OneAck(1005)] + []);
    RunCons(SHORT2, OneAck(1003), [OneAck(1004)] + ([OneAck(1005)] + []));
    RunCons(SHORT1, OneAck(1002), [OneAck(1003)] + ([OneAck(1004)] + ([OneAck(1005)] + [])));
    RunCons(SHORT, OneAck(1001), [OneAck(1002)] + ([OneAck(1003)] + ([OneAck(1004)] + ([OneAck(1005)] + []))));
  }

  lemma FiveAllow()
    ensures AllAllow(FiveAcks(), 7) && (forall e | e in FiveAcks() :: Sane(e)) && |FiveAcks()| == 5 && Acks(FiveAcks()) == 5
    ensures Inv(SHORT) && AllAbove(Updated(SHORT, FiveAcks()[0]), FiveAcks(), 7)
  {
    hide Target, Elapsed;
    var u := Updated(SHORT, FiveAcks()[0]);
    UpdateCases(SHORT, FiveAcks()[0]);
    forall i | 0 <= i < 5
      ensures FiveAcks()[i] == OneAck(1001 + i) && TargetAt(u, 1001 + i) == 7
    {
      FlatTargets(u, 1001 + i);
    }
    OneAckCounts(1005, []);
    OneAckCounts(1004, [OneAck(1005)] + []);
    OneAckCounts(1003, [OneAck(1004)] + ([OneAck(1005)] + []));
    OneAckCounts(1002, [OneAck(1003)] + ([OneAck(1004)] + ([OneAck(1005)] + [])));
    OneAckCounts(1001, [OneAck(1002)] + ([OneAck(1003)] + ([OneAck(1004)] + ([OneAck(1005)] + []))));
  }

  lemma {:induction false} OneAckCounts(now: nat, es: seq<Event>)
    ensures Acks([OneAck(now)] + es) == 1 + Acks(es)
  {
    assert ([OneAck(now)] + es)[1..] == es;
  }
}
