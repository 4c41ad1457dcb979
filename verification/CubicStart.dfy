/** The window before the curve counts (tcp_abccubic.c): slow start, and the bound
    that the packets in flight set. */
module CubicStart {
  import opened Words
  import opened AbcEndpoint
  import opened Cubic
  import opened CubicGrowth
  import opened CubicRuns

  /** In slow start every ACK is a packet until the threshold, if the window is in use:
      below twice the most packets out, and nothing changes otherwise. ACKs beyond the
      threshold go on to the curve. */
  lemma EveryAckIsAPacket(s: Sock, e: Event)
    requires Inv(s) && e.CongControl? && Sane(e) && s.cubicCwnd < s.ssthresh
    ensures var r, c, room, most := Step(s, e), s.cubicCwnd, s.ssthresh - s.cubicCwnd, (2 * e.link.maxPacketsOut) % U32;
            && (c >= most ==> r == s)
            && (c < most && e.acked <= room ==>
                  var w := if c + e.acked <= e.link.clamp then c + e.acked else e.link.clamp;
                  r == s.(cubicCwnd := w, sndCwnd := if s.window.lossCwnd < w then s.window.lossCwnd else w))
            && (c < most && e.acked > room ==>
                  r.cubicCwnd >= MinNat(MinNat(s.ssthresh, e.link.clamp), 2 * e.link.inFlight + 5))
  {
    hide Update, CongAvoidAi, FriendlyDelta;
    SlowStartKeeps(s, e.acked, e.link.clamp);
    var s1 := WithSndCwnd(SlowStart(s, e.acked, e.link.clamp));
    var left := Sub32(e.acked, SlowStartUses(s, e.acked));
    if left != 0 {
      DeltaPositive(s1.cubicCwnd);
      UpdateKeeps(s1, left, e.now);
      var u := Update(s1, s1.cubicCwnd, left, e.now);
      AiNeverShrinks(u, u.cnt, left, e.link.clamp);
    }
  }

  /** Events in slow start on the way to a window of `goal`. */
  predicate AllStart(es: seq<Event>, goal: nat)
    ensures AllStart(es, goal) ==> forall e | e in es :: Sane(e)
    ensures AllStart(es, goal) && es != [] ==> Starts(es[0], goal) && AllStart(es[1..], goal)
  {
    forall i | 0 <= i < |es| :: Starts(es[i], goal)
  }

  predicate Starts(e: Event, goal: nat) {
    Sane(e) && e.CongControl? && e.acked > 0 && goal <= e.link.clamp && goal <= (2 * e.link.maxPacketsOut) % U32
  }

  /** Over a run: the window is what it was and all ACKs, so it doubles with a
      window's worth, as long as that is not above the threshold. */
  lemma {:induction false} WindowCountsAcks(s: Sock, es: seq<Event>)
    requires Inv(s) && s.cubicCwnd + Acks(es) <= s.ssthresh && AllStart(es, s.cubicCwnd + Acks(es))
    ensures RunEvents(s, es).cubicCwnd == s.cubicCwnd + Acks(es)
    decreases |es|
  {
    hide Step, Inv, Starts, AllStart;
    if es != [] {
      StartsMeans(es[0], s.cubicCwnd + Acks(es));
      StepKeeps(s, es[0]);
      EveryAckIsAPacket(s, es[0]);
      WindowCountsAcks(Step(s, es[0]), es[1..]);
    }
  }

  lemma StartsMeans(e: Event, goal: nat)
    requires Starts(e, goal)
    ensures e.CongControl? && Sane(e) && e.acked > 0 && goal <= e.link.clamp && goal <= (2 * e.link.maxPacketsOut) % U32
  {
  }

  /** Out of slow start both windows are held to twice the packets in flight and five,
      and no window below that is cut but to the clamp; a connection that does not use
      its window is left alone. */
  lemma FlightHolds(s: Sock, e: Event)
    requires Inv(s) && e.CongControl? && Sane(e) && s.cubicCwnd >= s.ssthresh
    ensures var r, most := Step(s, e), 2 * e.link.inFlight + 5;
            if e.link.cwndLimited then
              && r.cubicCwnd <= most && (r.cubicCwnd < most ==> r.cubicCwnd >= MinNat(s.cubicCwnd, e.link.clamp))
              && r.window == s.window.(lossCwnd := if s.window.lossCwnd < most then s.window.lossCwnd else most)
              && r.sndCwnd == (if r.window.lossCwnd < r.cubicCwnd then r.window.lossCwnd else r.cubicCwnd)
            else r == s
  {
    hide Update, CongAvoidAi, FriendlyDelta;
    if e.link.cwndLimited {
      SlowStartKeeps(s, e.acked, e.link.clamp);
      DeltaPositive(s.cubicCwnd);
      UpdateKeeps(s, e.acked, e.now);
      var u := Update(s, s.cubicCwnd, e.acked, e.now);
      AiNeverShrinks(u, u.cnt, e.acked, e.link.clamp);
      AiKeeps(u, u.cnt, e.acked, e.link.clamp);
    }
  }
}
