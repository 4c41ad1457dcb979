/** What the numbers that CUBIC's handlers keep are for (tcp_abccubic.c): the count
    that the curve asks for, the epoch that stands still while the
    connection is idle, the least delay, and a reset. */
module CubicGrowth {
  import opened Words
  import opened AbcEndpoint
  import opened Cubic

  // ----- the count -----

  lemma DivBounds(a: nat, b: nat)
    requires b > 0
    ensures Div(a, b) * b <= a < (Div(a, b) + 1) * b
  {
    assert a == (a / b) * b + a % b;
    assert (a / b + 1) * b == (a / b) * b + b;
  }

  lemma DivAtLeast(a: nat, b: nat, q: nat)
    requires b > 0 && q * b <= a
    ensures q <= Div(a, b)
  {
    DivBounds(a, b);
    if Div(a, b) < q { ProductMonotone(Div(a, b) + 1, q, b); }
  }

  /** `n` is the largest count at which a window of ACKs gives `target - cwnd`
      packets, or, where it is capped, 20 if that is less. */
  predicate Reaches(n: nat, cwnd: nat, target: nat, capped: bool)
    requires target > cwnd
  {
    n * (target - cwnd) <= cwnd && (cwnd < (n + 1) * (target - cwnd) || (capped && n == 20))
  }

  /** The curve asks for the largest count at which a window of ACKs, if the count
      stood, would still bring the window to its target, but for at most 20 before the first loss; for a
      target that has been reached, for a hundred windows of ACKs. */
  lemma CountReachesTarget(s: Sock, cwnd: nat, now: nat)
    ensures var n, target := Curve(s, cwnd, now).cnt, Target(s.origin, s.k, Elapsed(s, now));
            && (target > cwnd ==> Reaches(n, cwnd, target, s.lastMaxCwnd == 0))
            && (target <= cwnd && 100 * cwnd < U32 ==> n == 100 * cwnd || (s.lastMaxCwnd == 0 && n == 20 < 100 * cwnd))
            && (s.lastMaxCwnd == 0 ==> n <= 20)
  {
    hide Elapsed, Target, Div;
    var n, target := Curve(s, cwnd, now).cnt, Target(s.origin, s.k, Elapsed(s, now));
    if target > cwnd {
      DivBounds(cwnd, target - cwnd);
      ProductMonotone(n, Div(cwnd, target - cwnd), target - cwnd);
    }
  }

  // ----- a window of ACKs -----

  function Total(acks: seq<nat>): nat {
    if acks == [] then 0 else acks[0] + Total(acks[1..])
  }

  /** ACKs that arrive while the count stands; `CubicRuns` says how the count moves. */
  function RunAi(s: Sock, w: nat, acks: seq<nat>, clamp: nat): Sock
    requires w > 0
    decreases |acks|
  {
    if acks == [] then s else RunAi(CongAvoidAi(s, w, acks[0], clamp), w, acks[1..], clamp)
  }

  lemma SplitCredit(c: nat, more: nat, w: nat)
    requires w > 0
    ensures Div(c + more, w) == Div(c, w) + Div(Mod(c, w) + more, w)
    ensures Mod(c, w) < w && Mod(c, w) <= c && (c < w ==> Div(c, w) == 0 && Mod(c, w) == c)
    ensures Div(w + more, w) == 1 + Div(more, w)
  {
    hide Div, Mod;
    var q, r := Div(Mod(c, w) + more, w), Mod(Mod(c, w) + more, w);
    Divided(c, w);
    Divided(Mod(c, w) + more, w);
    Distribute(Div(c, w), q, w);
    DividesInto(c + more, w, Div(c, w) + q, r);
    Divided(more, w);
    Distribute(1, Div(more, w), w);
    DividesInto(w + more, w, 1 + Div(more, w), Mod(more, w));
    if c < w { DividesInto(c, w, 0, c); }
  }

  lemma Divided(c: nat, w: nat)
    requires w > 0
    ensures c == Div(c, w) * w + Mod(c, w) && Mod(c, w) < w && Div(c, w) * w >= 0
  {
  }

  lemma DividesInto(c: nat, w: nat, q: nat, r: nat)
    requires w > 0 && c == q * w + r && r < w
    ensures Div(c, w) == q && Mod(c, w) == r
  {
    DivModUnique(c, w, q, r);
  }

  lemma Distribute(p: nat, q: nat, w: nat)
    ensures (p + q) * w == p * w + q * w
  {
  }

  lemma HalfAtMost(c: nat, w: nat)
    requires w >= 2 && c < U32
    ensures Div(c, w) < 0x8000_0000
  {
    DivBounds(c, w);
    ProductMonotone(2, w, Div(c, w));
  }

  /** Nothing wraps around: the window and the ACKs fit their words. */
  predicate Roomy(s: Sock, w: nat, acks: seq<nat>, clamp: nat) {
    w >= 2 && s.cubicCwnd <= clamp <= LIMIT && s.sndCwndCnt + Total(acks) < U32
  }

  /** One packet for every `w` ACKs, saved ones included, up to the clamp. */
  lemma {:induction false} PacketsPerAck(s: Sock, w: nat, acks: seq<nat>, clamp: nat)
    requires Roomy(s, w, acks, clamp) && s.sndCwndCnt < w
    ensures RunAi(s, w, acks, clamp).cubicCwnd == MinNat(clamp, s.cubicCwnd + Div(s.sndCwndCnt + Total(acks), w))
    decreases |acks|
  {
    hide Div, Mod;
    if acks == [] {
      SplitCredit(s.sndCwndCnt, 0, w);
    } else {
      var s1, c := CongAvoidAi(s, w, acks[0], clamp), s.sndCwndCnt + acks[0];
      HalfAtMost(c, w);
      SplitCredit(c, Total(acks[1..]), w);
      PacketsPerAck(s1, w, acks[1..], clamp);
    }
  }

  /** The update runs the curve: it is neither too soon nor in the same tick. */
  predicate Recomputes(s: Sock, cwnd: nat, now: nat) {
    !(s.lastCwnd == cwnd && Signed(Sub32(now, s.lastTime)) <= HZ / 32) && !(s.epochStart != 0 && now == s.lastTime)
  }

  /** The count after an update is 2, or one at which a window of ACKs brings the
      target. */
  lemma UpdatedCount(s: Sock, acked: nat, now: nat)
    requires Inv(s) && Recomputes(s, s.cubicCwnd, now) && FriendlyDelta(s.cubicCwnd) > 0
    ensures var u := Update(s, s.cubicCwnd, acked, now); var target := Target(u.origin, u.k, Elapsed(u, now));
            u.cnt >= 2 && (target > s.cubicCwnd ==> u.cnt == 2 || (target - s.cubicCwnd) * u.cnt <= s.cubicCwnd)
  {
    hide Target, FriendlyDelta, Curve, Epoch, Friendly, Update, Inv, Recomputes, Elapsed;
    var cwnd := s.cubicCwnd;
    EpochOf(s, acked, now);
    var e := Epoch(s.(ackCnt := Add32(s.ackCnt, acked)), cwnd, acked, now);
    CountReachesTarget(e, cwnd, now);
    UpdateIs(s, acked, now, e);
    var u, target, curve := Update(s, cwnd, acked, now), Target(e.origin, e.k, Elapsed(e, now)), Curve(e, cwnd, now);
    if target > cwnd && u.cnt != 2 { ProductMonotone(u.cnt, curve.cnt, target - cwnd); }
  }

  lemma EpochOf(s: Sock, acked: nat, now: nat)
    requires Inv(s)
    ensures s.cubicCwnd < U32 && s.lastMaxCwnd < U32
  {
  }

  /** An update on the curve: the curve's count, or one that is friendlier, but not
      below 2, on the curve of the epoch `e`. */
  lemma UpdateIs(s: Sock, acked: nat, now: nat, e: Sock)
    requires Inv(s) && Recomputes(s, s.cubicCwnd, now) && FriendlyDelta(s.cubicCwnd) > 0
    requires e == Epoch(s.(ackCnt := Add32(s.ackCnt, acked)), s.cubicCwnd, acked, now)
    ensures var u := Update(s, s.cubicCwnd, acked, now);
            && u.origin == e.origin && u.k == e.k && Elapsed(u, now) == Elapsed(e, now)
            && 2 <= u.cnt && (u.cnt == 2 || u.cnt <= Curve(e, s.cubicCwnd, now).cnt)
  {
    hide Target, FriendlyDelta, Curve, Epoch, Div, Rounds, Gone;
    CurveOnly(e, s.cubicCwnd, now);
  }

  lemma CurveOnly(s: Sock, cwnd: nat, now: nat)
    ensures Curve(s, cwnd, now) == s.(cnt := Curve(s, cwnd, now).cnt)
  {
    hide Target, Elapsed;
  }

  // ----- the epoch -----

  /** An idle period does not count: when sending starts again, the epoch's age is
      what it was at the last transmission, and the epoch is never after now. */
  lemma IdleDoesNotCount(s: Sock, now: nat, lastSent: nat)
    requires now < U32 && lastSent < U32
    ensures var r := OnTxStart(s, now, lastSent);
            if s.epochStart != 0 && Signed(Sub32(now, lastSent)) > 0
            then Signed(Sub32(now, r.epochStart)) == MaxInt(0, Signed(Sub32(lastSent, s.epochStart)))
            else r == s
  {
    var delta := Signed(Sub32(now, lastSent));
    if s.epochStart != 0 && delta > 0 { ShiftedBoth(now, lastSent, s.epochStart, delta); }
  }

  lemma ShiftedBoth(now: nat, lastSent: nat, start: nat, delta: nat)
    requires now < U32 && lastSent < U32 && delta == Sub32(now, lastSent)
    ensures Sub32(now, Add32(start, delta)) == Sub32(lastSent, start)
  {
  }

  function MaxInt(a: int, b: int): int { if a < b then b else a }

  // ----- the least delay -----

  /** A sample within a second of the start of an epoch is discarded. */
  predicate Counted(s: Sock, now: nat) {
    s.epochStart == 0 || Signed(Sub32(now, s.epochStart)) >= HZ
  }

  /** The samples that count since the last timeout. */
  function Kept(s: Sock, e: Event, samples: seq<nat>): seq<nat> {
    match e
    case DelaySample(d, now) => if Counted(s, now) then samples + [MaxNat(d, 1)] else samples
    case SetState(st, _) => if st == Loss then [] else samples
    case _ => samples
  }

  function AllKept(s: Sock, es: seq<Event>, samples: seq<nat>): seq<nat>
    requires Inv(s) && forall e | e in es :: Sane(e)
    decreases |es|
  {
    if es == [] then samples
    else
      StepKeeps(s, es[0]);
      AllKept(Step(s, es[0]), es[1..], Kept(s, es[0], samples))
  }

  /** 0 stands for no sample. */
  predicate IsLeast(d: nat, samples: seq<nat>) {
    if samples == [] then d == 0 else d > 0 && d in samples && forall x | x in samples :: d <= x
  }

  lemma StepIsLeast(s: Sock, e: Event, samples: seq<nat>)
    requires Inv(s) && Sane(e) && IsLeast(s.delayMin, samples)
    ensures IsLeast(Step(s, e).delayMin, Kept(s, e, samples))
  {
    hide OnCongControl, Reduce, OnAck, OnTxStart;
    match e
    case CongControl(acked, now, l) => ControlKeeps(s, acked, now, l);
    case SetState(st, inFlight) => ReduceKeeps(s, inFlight);
    case TxStart(now, lastSent) => TxKeeps(s, now, lastSent);
    case DelaySample(d, now) => SampleIsLeast(s, d, now, samples);
    case _ =>
  }

  lemma SampleIsLeast(s: Sock, d: nat, now: nat, samples: seq<nat>)
    requires IsLeast(s.delayMin, samples)
    ensures IsLeast(OnDelay(s, d, now).delayMin, if Counted(s, now) then samples + [MaxNat(d, 1)] else samples)
  {
    var more := samples + [MaxNat(d, 1)];
    assert MaxNat(d, 1) in more && forall x | x in more :: x in samples || x == MaxNat(d, 1);
    assert forall x | x in samples :: x in more;
  }

  /** Over every run: `delay_min` is the least sample that counted since the last
      timeout, and 0 when there is none. */
  lemma {:induction false} DelayMinIsLeast(s: Sock, es: seq<Event>, samples: seq<nat>)
    requires Inv(s) && (forall e | e in es :: Sane(e)) && IsLeast(s.delayMin, samples)
    ensures IsLeast(RunEvents(s, es).delayMin, AllKept(s, es, samples))
    decreases |es|
  {
    hide Step, Inv, Sane, Kept, IsLeast;
    if es != [] {
      StepKeeps(s, es[0]);
      StepIsLeast(s, es[0], samples);
      DelayMinIsLeast(Step(s, es[0]), es[1..], Kept(s, es[0], samples));
    }
  }

  // ----- a timeout -----

  /** What a timeout keeps of the connection. */
  predicate SameConnection(s: Sock, r: Sock) {
    s.cubicCwnd == r.cubicCwnd && s.window == r.window && s.sndCwnd == r.sndCwnd && s.sndCwndCnt == r.sndCwndCnt
    && s.ssthresh == r.ssthresh
  }

  /** A timeout forgets the past: all connections with the same windows are the same
      after it, and the next update starts a flat epoch at the window it finds, with
      growth of at least a twentieth of the window per window of ACKs. */
  lemma TimeoutForgets(s: Sock, r: Sock, acked: nat, now: nat)
    requires Inv(s)
    ensures SameConnection(s, Reset(s)) && (SameConnection(s, r) ==> Reset(s) == Reset(r))
    ensures FriendlyDelta(s.cubicCwnd) > 0 ==>
              var u := Update(Reset(s), s.cubicCwnd, acked, now);
              u.epochStart == now && u.k == 0 && u.origin == s.cubicCwnd && 2 <= u.cnt <= 20
  {
    hide Target, FriendlyDelta, Elapsed, Rounds, Gone, Div;
  }

  /** Of the states of the connection, recovery alone reduces the window and a timeout
      alone forgets; each leaves what the other changes. */
  lemma OnlyLossesCount(s: Sock, st: TcpState, inFlight: nat)
    requires Inv(s) && inFlight < LIMIT
    ensures var r := Step(s, SetState(st, inFlight));
            && (st.Cwr? || st.Normal? ==> r == s)
            && (st.Loss? ==> SameConnection(s, r) && r.epochStart == 0 && r.lastMaxCwnd == 0 && r.delayMin == 0)
            && (st.Recovery? ==>
                  && r.epochStart == 0 && r.delayMin == s.delayMin && r.sndCwndCnt == s.sndCwndCnt
                  && (717 * s.cubicCwnd < U32 ==> r.ssthresh == MaxNat(717 * s.cubicCwnd / 1024, 2))
                  && r.cubicCwnd == MinNat(r.ssthresh, 2 * inFlight + 5)
                  && r.window == s.window.(lossCwnd := MinNat(s.window.lossCwnd, 2 * inFlight + 5)))
  {
    ReductionIsMultiplicative(s, inFlight);
  }
}
