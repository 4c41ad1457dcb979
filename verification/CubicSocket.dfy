/** The handlers of tcp_abccubic.c as they run, on the fields of `struct bictcp`
    and of the socket, proved against the functions of `Cubic`. */
module CubicSocket {
  import opened Words
  import opened AbcEndpoint
  import opened Cubic
  import opened CubicGrowth

  class CubicSock {
    var cnt: nat
    var lastMaxCwnd: nat
    var lastCwnd: nat
    var lastTime: nat
    var bicOriginPoint: nat
    var bicK: nat
    var delayMin: nat
    var epochStart: nat
    var ackCnt: nat
    var tcpCwnd: nat
    var cubicSndCwnd: nat
    var priorSndUna: nat
    var lossCwnd: nat
    var aiCwnd: nat
    var sndCwnd: nat
    var sndCwndCnt: nat
    var sndSsthresh: nat

    ghost function Value(): Sock
      reads this
    {
      Sock(cnt, lastMaxCwnd, lastCwnd, lastTime, bicOriginPoint, bicK, delayMin, epochStart, ackCnt, tcpCwnd,
           cubicSndCwnd, Window(lossCwnd, aiCwnd, priorSndUna), sndCwnd, sndCwndCnt, sndSsthresh)
    }

    ghost predicate Valid()
      reads this
    {
      Inv(Value())
    }

    /** `bictcp_init`, for a connection with ECN. */
    constructor (sndUna: nat, sndCwnd: nat, ssthresh: nat)
      requires sndCwnd < U32
      ensures Valid() && Value() == Init(sndUna, sndCwnd, ssthresh)
    {
      priorSndUna, lossCwnd, aiCwnd := sndUna, sndCwnd, 0;
      cnt, lastMaxCwnd, lastCwnd, lastTime, bicOriginPoint, bicK, delayMin := 0, 0, 0, 0, 0, 0, 0;
      epochStart, ackCnt, tcpCwnd := 0, 0, 0;
      cubicSndCwnd := 10;
      this.sndCwnd, sndCwndCnt, sndSsthresh := sndCwnd, 0, ssthresh;
    }

    /** `abc_in_ack`: the window becomes the smaller of the two windows. */
    method InAck(e: AckEvent)
      requires Valid() && Sane(Event.InAck(e))
      modifies this
      ensures Valid() && Value() == Step(old(Value()), Event.InAck(e))
    {
      hide OnCongControl, Reduce, Reset, OnTxStart, OnDelay, Additive, Accelerate;
      StepKeeps(Value(), Event.InAck(e));
      var ackedBytes := Sub32(e.sndUna, priorSndUna);
      if ackedBytes == 0 && !e.windowUpdate {
        ackedBytes := e.rcvMss;
      }
      if ackedBytes != 0 {
        AdditiveIncrease();
        priorSndUna := e.sndUna;
        AccelerateOrBrake(ackedBytes / MSS, e.ece);
        sndCwnd := MinNat(lossCwnd, cubicSndCwnd);
      }
    }

    method AdditiveIncrease()
      modifies `aiCwnd, `lossCwnd
      ensures Window(lossCwnd, aiCwnd, priorSndUna) == Additive(old(Window(lossCwnd, aiCwnd, priorSndUna)))
    {
      aiCwnd := Add32(aiCwnd, 1);
      if aiCwnd > lossCwnd {
        aiCwnd := aiCwnd - lossCwnd;
        lossCwnd := Add32(lossCwnd, 1);
      }
    }

    method AccelerateOrBrake(steps: nat, ece: bool)
      modifies `lossCwnd
      ensures Window(lossCwnd, aiCwnd, priorSndUna) == Accelerate(old(Window(lossCwnd, aiCwnd, priorSndUna)), steps, ece)
    {
      if ece {
        if lossCwnd > 5 + steps {
          lossCwnd := lossCwnd - steps;
        }
      } else {
        lossCwnd := Add32(lossCwnd, steps);
      }
    }

    /** `cubictcp_tcp_cong_avoid_ai`. */
    method CongAvoidAi(w: nat, acked: nat, clamp: nat)
      requires w > 0 && cubicSndCwnd < U32
      modifies `sndCwndCnt, `cubicSndCwnd
      ensures Value() == Cubic.CongAvoidAi(old(Value()), w, acked, clamp)
    {
      if sndCwndCnt >= w {
        sndCwndCnt := 0;
        cubicSndCwnd := Add32(cubicSndCwnd, 1);
      }
      sndCwndCnt := Add32(sndCwndCnt, acked);
      SmallQuotient(sndCwndCnt, w);
      if sndCwndCnt >= w {
        var delta := Div(sndCwndCnt, w);
        sndCwndCnt := sndCwndCnt - delta * w;
        cubicSndCwnd := Add32(cubicSndCwnd, delta);
      }
      cubicSndCwnd := MinNat(cubicSndCwnd, clamp);
    }

    /** `cubictcp_slow_start`: what is left of the ACKs. */
    method SlowStart(acked: nat, clamp: nat) returns (left: nat)
      modifies `cubicSndCwnd
      ensures Value() == Cubic.SlowStart(old(Value()), acked, clamp)
      ensures left == Sub32(acked, SlowStartUses(old(Value()), acked))
    {
      var cwnd := MinNat(Add32(cubicSndCwnd, acked), sndSsthresh);
      left := Sub32(acked, Sub32(cwnd, cubicSndCwnd));
      cubicSndCwnd := MinNat(cwnd, clamp);
    }

    /** The start of an epoch: K and the origin of the curve. */
    method StartEpoch(cwnd: nat, acked: nat, now: nat)
      requires cwnd < U32 && lastMaxCwnd < U32
      modifies `lastCwnd, `lastTime, `epochStart, `ackCnt, `tcpCwnd, `bicK, `bicOriginPoint
      ensures Value() == Epoch(old(Value()), cwnd, acked, now)
    {
      hide TimeToOrigin;
      lastCwnd, lastTime := cwnd, now;
      if epochStart == 0 {
        BeginEpoch(cwnd, acked, now);
      }
    }

    method BeginEpoch(cwnd: nat, acked: nat, now: nat)
      requires cwnd < U32 && lastMaxCwnd < U32
      modifies `epochStart, `ackCnt, `tcpCwnd, `bicK, `bicOriginPoint
      ensures epochStart == now && ackCnt == acked && tcpCwnd == cwnd
      ensures bicK == TimeToOrigin(lastMaxCwnd, cwnd) && bicOriginPoint == MaxNat(lastMaxCwnd, cwnd)
    {
      hide TimeToOrigin;
      epochStart, ackCnt, tcpCwnd := now, acked, cwnd;
      bicK := TimeToOrigin(lastMaxCwnd, cwnd);
      bicOriginPoint := MaxNat(lastMaxCwnd, cwnd);
    }

    /** The cubic function and the largest count at which a window of ACKs, if the
        count stood, would bring its target. */
    method FollowCurve(cwnd: nat, now: nat)
      modifies `cnt
      ensures Value() == Curve(old(Value()), cwnd, now)
      ensures var target := Target(bicOriginPoint, bicK, Elapsed(Value(), now));
              target > cwnd ==> Reaches(cnt, cwnd, target, lastMaxCwnd == 0)
    {
      hide CubicDelta, Div, Reaches;
      CountReachesTarget(Value(), cwnd, now);
      var t := (Signed(Sub32(now, epochStart)) + (delayMin / 8) * HZ / 1000) % U64;
      t := ((t * 1024) % U64) / HZ;
      var offs := if t < bicK then bicK - t else t - bicK;
      var delta := CubicDelta(offs);
      var bicTarget := if t < bicK then Sub32(bicOriginPoint, delta) else Add32(bicOriginPoint, delta);
      if bicTarget > cwnd {
        cnt := Div(cwnd, bicTarget - cwnd);
      } else {
        cnt := Mul32(100, cwnd);
      }
      if lastMaxCwnd == 0 && cnt > 20 {
        cnt := 20;
      }
    }

    /** The friendliness loop terminates because its step is positive, and moves
        whole steps from `ack_cnt` into `tcp_cwnd`. */
    method UpdateTcpCwnd(delta: nat)
      requires delta > 0 && tcpCwnd < U32
      modifies `ackCnt, `tcpCwnd
      ensures tcpCwnd == Add32(old(tcpCwnd), Rounds(old(ackCnt), delta))
      ensures ackCnt == old(ackCnt) - Gone(old(ackCnt), delta) && ackCnt <= delta
    {
      hide Rounds;
      ghost var n: nat := 0;
      LoopStarts(ackCnt, delta, tcpCwnd);
      while ackCnt > delta
        invariant n * delta + ackCnt == old(ackCnt) && tcpCwnd == Add32(old(tcpCwnd), n)
        invariant n + Rounds(ackCnt, delta) == Rounds(old(ackCnt), delta)
        decreases ackCnt
      {
        LoopRound(ackCnt, delta, n, old(tcpCwnd));
        ackCnt := ackCnt - delta;
        tcpCwnd := Add32(tcpCwnd, 1);
        n := n + 1;
      }
      LoopEnds(ackCnt, delta);
    }

    /** Never slower than Reno would be. */
    method BeFriendly(cwnd: nat)
      requires FriendlyDelta(cwnd) > 0 && tcpCwnd < U32
      modifies `ackCnt, `tcpCwnd, `cnt
      ensures Value() == Friendly(old(Value()), cwnd)
    {
      hide Rounds, Gone, FriendlyDelta, Div;
      UpdateTcpCwnd(FriendlyDelta(cwnd));
      if tcpCwnd > cwnd {
        var delta := tcpCwnd - cwnd;
        var maxCnt := Div(cwnd, delta);
        if cnt > maxCnt {
          cnt := maxCnt;
        }
      }
    }

    /** `bictcp_update`. */
    method Update(cwnd: nat, acked: nat, now: nat)
      requires cwnd < U32 && lastMaxCwnd < U32 && tcpCwnd < U32 && FriendlyDelta(cwnd) > 0
      modifies `cnt, `lastCwnd, `lastTime, `bicOriginPoint, `bicK, `epochStart, `ackCnt, `tcpCwnd
      ensures Value() == Cubic.Update(old(Value()), cwnd, acked, now)
    {
      hide Curve, Friendly, FriendlyDelta, Epoch;
      ackCnt := Add32(ackCnt, acked);
      if lastCwnd == cwnd && Signed(Sub32(now, lastTime)) <= HZ / 32 {
        return;
      }
      if !(epochStart != 0 && now == lastTime) {
        StartEpoch(cwnd, acked, now);
        EpochKeeps(old(Value()).(ackCnt := Add32(old(ackCnt), acked)), cwnd, acked, now);
        CurveOnlyCounts(Value(), cwnd, now);
        FollowCurve(cwnd, now);
      }
      BeFriendly(cwnd);
      cnt := MaxNat(cnt, 2);
    }

    /** `bictcp_cong_avoid`. No division is by zero: the window is at least 2, so
        the friendliness step is positive, and the count is at least 2. */
    method CongAvoid(ackedSacked: nat, now: nat, l: Link)
      requires Valid() && Sane(CongControl(ackedSacked, now, l))
      modifies this
      ensures Valid() && Value() == Step(old(Value()), CongControl(ackedSacked, now, l))
    {
      hide Cubic.Update, Cubic.CongAvoidAi, FriendlyDelta, BoundByFlight;
      StepKeeps(Value(), CongControl(ackedSacked, now, l));
      var acked := ackedSacked;
      var slow := cubicSndCwnd < sndSsthresh;
      if !(if slow then cubicSndCwnd < Mul32(2, l.maxPacketsOut) else l.cwndLimited) {
        return;
      }
      SlowStartKeeps(Value(), acked, l.clamp);
      if slow {
        acked := SlowStart(acked, l.clamp);
        sndCwnd := MinNat(lossCwnd, cubicSndCwnd);
        if acked == 0 {
          return;
        }
      }
      DeltaPositive(cubicSndCwnd);
      UpdateKeeps(Value(), acked, now);
      Update(cubicSndCwnd, acked, now);
      CongAvoidAi(cnt, acked, l.clamp);
      LimitByFlight(l.inFlight);
    }

    /** Both windows are held to twice the packets in flight, plus five. */
    method LimitByFlight(inFlight: nat)
      modifies `cubicSndCwnd, `lossCwnd, `sndCwnd
      ensures Value() == BoundByFlight(old(Value()), inFlight)
    {
      cubicSndCwnd := MinNat(cubicSndCwnd, Add32(Mul32(2, inFlight), 5));
      lossCwnd := MinNat(lossCwnd, Add32(Mul32(2, inFlight), 5));
      sndCwnd := MinNat(lossCwnd, cubicSndCwnd);
    }

    /** `bictcp_recalc_ssthresh`. */
    method RecalcSsthresh(inFlight: nat)
      requires Valid() && inFlight < LIMIT
      modifies this
      ensures Valid() && Value() == Reduce(old(Value()), inFlight)
    {
      hide BoundByFlight;
      ReduceKeeps(Value(), inFlight);
      epochStart := 0;
      if cubicSndCwnd < lastMaxCwnd {
        lastMaxCwnd := Mul32(cubicSndCwnd, 1024 + BETA) / 2048;
      } else {
        lastMaxCwnd := cubicSndCwnd;
      }
      cubicSndCwnd := MaxNat(Mul32(cubicSndCwnd, BETA) / 1024, 2);
      sndSsthresh := cubicSndCwnd;
      LimitByFlight(inFlight);
    }

    /** `bictcp_reset`: nothing but the connection's windows is left. */
    method ResetEpoch()
      modifies this
      ensures Value() == Reset(old(Value())) && SameConnection(old(Value()), Value())
    {
      ForgetWindows();
      delayMin, epochStart, ackCnt, tcpCwnd := 0, 0, 0, 0;
    }

    method ForgetWindows()
      modifies `cnt, `lastMaxCwnd, `lastCwnd, `lastTime, `bicOriginPoint, `bicK
      ensures cnt == 0 && lastMaxCwnd == 0 && lastCwnd == 0 && lastTime == 0 && bicOriginPoint == 0 && bicK == 0
    {
      cnt, lastMaxCwnd, lastCwnd, lastTime, bicOriginPoint, bicK := 0, 0, 0, 0, 0, 0;
    }

    /** `bictcp_state`. */
    method State(newState: TcpState, inFlight: nat)
      requires Valid() && Sane(SetState(newState, inFlight))
      modifies this
      ensures Valid() && Value() == Step(old(Value()), SetState(newState, inFlight))
    {
      hide Reduce, Reset;
      StepKeeps(Value(), SetState(newState, inFlight));
      match newState
      case Recovery => RecalcSsthresh(inFlight);
      case Loss => ResetEpoch();
      case _ =>
    }

    /** The transmission start of `bictcp_cwnd_event`: an idle period shifts the epoch. */
    method TxStartEvent(now: nat, lastSent: nat)
      requires Valid() && Sane(TxStart(now, lastSent))
      modifies this
      ensures Valid() && Value() == Step(old(Value()), TxStart(now, lastSent))
      ensures epochStart != old(epochStart) ==>
                Signed(Sub32(now, epochStart)) == MaxInt(0, Signed(Sub32(lastSent, old(epochStart))))
    {
      IdleDoesNotCount(Value(), now, lastSent);
      StepKeeps(Value(), TxStart(now, lastSent));
      var delta := Signed(Sub32(now, lastSent));
      if epochStart != 0 && delta > 0 {
        epochStart := Add32(epochStart, delta);
        if Signed(Sub32(now, epochStart)) < 0 {
          epochStart := now;
        }
      }
    }

    /** The delay sample of `bictcp_acked`. */
    method Acked(delaySample: nat, now: nat, ghost samples: seq<nat>)
      requires Valid() && Sane(DelaySample(delaySample, now)) && IsLeast(delayMin, samples)
      modifies this
      ensures Valid() && Value() == Step(old(Value()), DelaySample(delaySample, now))
      ensures IsLeast(delayMin, Kept(old(Value()), DelaySample(delaySample, now), samples))
    {
      hide IsLeast;
      StepIsLeast(Value(), DelaySample(delaySample, now), samples);
      StepKeeps(Value(), DelaySample(delaySample, now));
      if epochStart != 0 && Signed(Sub32(now, epochStart)) < HZ {
        return;
      }
      var delay := delaySample;
      if delay == 0 {
        delay := 1;
      }
      if delayMin == 0 || delayMin > delay {
        delayMin := delay;
      }
    }
  }

  lemma EpochKeeps(s: Sock, cwnd: nat, acked: nat, now: nat)
    requires cwnd < U32 && s.lastMaxCwnd < U32 && s.tcpCwnd < U32
    ensures Epoch(s, cwnd, acked, now).tcpCwnd < U32
  {
    hide TimeToOrigin;
  }

  lemma SmallQuotient(c: nat, w: nat)
    requires w > 0
    ensures c < w ==> Div(c, w) == 0 && Mod(c, w) == c
    ensures Mod(c, w) == c - Div(c, w) * w
  {
    assert c == (c / w) * w + c % w;
    if c < w { DivModUnique(c, w, 0, c); }
  }

  lemma LoopStarts(ackCnt: nat, delta: nat, tcpCwnd: nat)
    requires tcpCwnd < U32
    ensures 0 * delta + ackCnt == ackCnt && tcpCwnd == Add32(tcpCwnd, 0)
  {
  }

  lemma LoopRound(ackCnt: nat, delta: nat, n: nat, tcpCwnd: nat)
    requires 0 < delta < ackCnt
    ensures Rounds(ackCnt, delta) == Rounds(ackCnt - delta, delta) + 1
    ensures (n + 1) * delta == n * delta + delta
    ensures Add32(Add32(tcpCwnd, n), 1) == Add32(tcpCwnd, n + 1)
  {
    OneRound(ackCnt, delta);
  }

  lemma LoopEnds(ackCnt: nat, delta: nat)
    requires delta > 0 && ackCnt <= delta
    ensures Rounds(ackCnt, delta) == 0
  {
    if ackCnt > 0 { DivModUnique(ackCnt - 1, delta, 0, ackCnt - 1); }
  }

  lemma CurveOnlyCounts(s: Sock, cwnd: nat, now: nat)
    ensures Curve(s, cwnd, now) == s.(cnt := Curve(s, cwnd, now).cnt)
  {
  }
}
