/** The CoDel drop state machine (mahimahi/src/packet/codel_packet_queue.cc). */
module CoDel {
  import opened Words
  import opened PacketQueue

  datatype Config = Config(target: nat, interval: nat)

  /** The control state and the queue, oldest packet first. */
  datatype State = State(packets: seq<Packet>, firstAbove: nat, dropNext: nat, count: nat, lastCount: nat, dropping: bool)

  // ----- control law -----

  /** The whole part of interval / sqrt(count). */
  function Spacing(interval: nat, count: nat, d: nat): (r: nat)
    requires count > 0 && d <= interval && interval * interval < (d + 1) * (d + 1) * count
    ensures r * r * count <= interval * interval < (r + 1) * (r + 1) * count
  {
    if d * d * count <= interval * interval then d else Spacing(interval, count, d - 1)
  }

  lemma SpacingStarts(interval: nat, count: nat)
    requires count > 0
    ensures interval * interval < (interval + 1) * (interval + 1) * count
  {
    var s := (interval + 1) * (interval + 1);
    assert s == interval * interval + 2 * interval + 1;
    assert s * 1 <= s * count;
  }

  function ControlLaw(c: Config, t: nat, count: nat): (r: nat)
    requires count > 0
    ensures var d := r - t; 0 <= d && d * d * count <= c.interval * c.interval < (d + 1) * (d + 1) * count
  {
    SpacingStarts(c.interval, count);
    t + Spacing(c.interval, count, c.interval)
  }

  // ----- dodequeue -----

  /** The packet taken had waited for `target`, and more than one full packet
      stays behind it. */
  predicate Above(c: Config, p: Packet, rest: seq<Packet>, now: nat) {
    rest != [] && (now - p.arrivalTime) % U64 >= c.target && Bytes(rest) > PACKET_SIZE
  }

  predicate OkToDrop(c: Config, s: State, now: nat)
    requires s.packets != []
  {
    Above(c, s.packets[0], s.packets[1..], now) && s.firstAbove != 0 && now >= s.firstAbove
  }

  function AfterTake(c: Config, s: State, now: nat): State
    requires s.packets != []
  {
    var rest := s.packets[1..];
    s.(packets := rest,
       firstAbove := if !Above(c, s.packets[0], rest, now) then 0
                     else if s.firstAbove == 0 then now + c.interval else s.firstAbove)
  }

  // ----- dequeue -----

  /** A packet dropped by the loop of the dropping state. */
  function AfterDrop(c: Config, s: State, now: nat): (r: State)
    requires s.packets != []
    ensures r.packets == s.packets[1..] && (r.dropping ==> r.packets != [])
  {
    var s' := AfterTake(c, s, now).(count := s.count + 1);
    if OkToDrop(c, s, now) then s'.(dropNext := ControlLaw(c, s.dropNext, s.count + 1)) else s'.(dropping := false)
  }

  /** The loop of the dropping state. */
  function DropLoop(c: Config, s: State, now: nat): (r: State)
    requires s.dropping ==> s.packets != []
    ensures r.dropping ==> now < r.dropNext
    decreases |s.packets|
  {
    if s.dropping && now >= s.dropNext then DropLoop(c, AfterDrop(c, s, now), now) else s
  }

  function EnterDropping(c: Config, s: State, now: nat): State
    requires s.packets != []
  {
    var s' := AfterTake(c, s, now);
    var delta := (s.count - s.lastCount) % U32;
    var count := if delta > 1 && (now - s.dropNext) % U64 < (16 * c.interval) % U32 then delta else 1;
    s'.(dropping := true, count := count, lastCount := count, dropNext := ControlLaw(c, now, count))
  }

  function AfterDequeue(c: Config, s: State, now: nat): (r: State)
    requires s.packets != []
    ensures r.dropping ==> now <= r.dropNext
  {
    var s' := AfterTake(c, s, now);
    if s.dropping then DropLoop(c, s'.(dropping := OkToDrop(c, s, now)), now)
    else if OkToDrop(c, s, now) then EnterDropping(c, s', now)
    else s'
  }

  // ----- the packets taken -----

  /** Dropping only ever takes packets directly behind the one delivered; each one
      is counted, and the next drop is only ever put off. */
  lemma {:induction false} DropLoopTakes(c: Config, s: State, now: nat)
    requires s.dropping ==> s.packets != []
    ensures var r := DropLoop(c, s, now);
            && |r.packets| <= |s.packets| && r.packets == s.packets[|s.packets| - |r.packets|..]
            && r.count == s.count + (|s.packets| - |r.packets|) && r.dropNext >= s.dropNext
    decreases |s.packets|
  {
    if s.dropping && now >= s.dropNext { DropLoopTakes(c, AfterDrop(c, s, now), now); }
  }

  /** A packet is delivered, so at least one is taken; what is left is the tail. */
  lemma DequeueTakes(c: Config, s: State, now: nat)
    requires s.packets != []
    ensures var r := AfterDequeue(c, s, now); |r.packets| < |s.packets| && r.packets == s.packets[|s.packets| - |r.packets|..]
    ensures var r := AfterDequeue(c, s, now); s.dropping ==> r.count == s.count + (|s.packets| - |r.packets| - 1)
  {
    hide ControlLaw, Bytes, DropLoop;
    if s.dropping { DropLoopTakes(c, AfterTake(c, s, now).(dropping := OkToDrop(c, s, now)), now); }
  }

  /** Nothing is dropped unless the head itself may be dropped; a packet alone in
      the queue never may. */
  lemma DropsOnlyWhenAllowed(c: Config, s: State, now: nat)
    requires s.packets != []
    ensures !OkToDrop(c, s, now) ==> AfterDequeue(c, s, now).packets == s.packets[1..]
    ensures OkToDrop(c, s, now) ==> |s.packets| > 1
    ensures OkToDrop(c, s, now) && !s.dropping ==> AfterDequeue(c, s, now).packets == s.packets[2..]
  {
    hide ControlLaw;
  }

  // ----- when dropping is allowed -----

  /** One call of `dodequeue`: its time and whether the packet was above target, that
      is, had waited for it with more than 1504 bytes behind. */
  datatype Call = Call(time: nat, above: bool)

  /** The time of the first call of the latest unbroken run of calls above target. */
  function AboveSince(calls: seq<Call>): Option<nat> {
    if calls == [] || !calls[|calls| - 1].above then None
    else
      match AboveSince(calls[..|calls| - 1])
      case None => Some(calls[|calls| - 1].time)
      case Some(t) => Some(t)
  }

  lemma {:induction false} AboveSinceIsRun(calls: seq<Call>) returns (i: nat)
    requires AboveSince(calls).Some?
    ensures i < |calls| && calls[i].time == AboveSince(calls).value
    ensures forall j | i <= j < |calls| :: calls[j].above
    ensures i == 0 || !calls[i - 1].above
    decreases |calls|
  {
    var before := calls[..|calls| - 1];
    if AboveSince(before).Some? {
      i := AboveSinceIsRun(before);
    } else {
      i := |calls| - 1;
    }
  }

  /** `first_above_time_` remembers that run, and 0 that there is none. */
  predicate Remembers(c: Config, firstAbove: nat, calls: seq<Call>) {
    match AboveSince(calls)
    case None => firstAbove == 0
    case Some(t) => firstAbove == t + c.interval
  }

  function CallOf(c: Config, s: State, now: nat): Call
    requires s.packets != []
  {
    Call(now, (now - s.packets[0].arrivalTime) % U64 >= c.target && Bytes(s.packets[1..]) > 1504)
  }

  lemma CallIsAbove(c: Config, s: State, now: nat)
    requires s.packets != []
    ensures CallOf(c, s, now) == Call(now, Above(c, s.packets[0], s.packets[1..], now))
  {
    assert Bytes([]) == 0;
  }

  /** Dropping is allowed exactly when this call is above target and the run of
      calls above target before it began at least an interval ago. */
  lemma {:induction false} OkExactlyAfterAnInterval(c: Config, s: State, calls: seq<Call>, now: nat)
    requires c.interval > 0 && s.packets != [] && Remembers(c, s.firstAbove, calls)
    ensures Remembers(c, AfterTake(c, s, now).firstAbove, calls + [CallOf(c, s, now)])
    ensures OkToDrop(c, s, now) <==>
            CallOf(c, s, now).above && AboveSince(calls).Some? && AboveSince(calls).value + c.interval <= now
  {
    hide Bytes, CallOf;
    CallIsAbove(c, s, now);
    var more := calls + [CallOf(c, s, now)];
    assert more[..|more| - 1] == calls;
  }

  // ----- every call of a run -----

  /** The calls of `dodequeue` in the loop of the dropping state. */
  function LoopCalls(c: Config, s: State, now: nat): (r: seq<Call>)
    requires s.dropping ==> s.packets != []
    decreases |s.packets|
  {
    if s.dropping && now >= s.dropNext then [CallOf(c, s, now)] + LoopCalls(c, AfterDrop(c, s, now), now) else []
  }

  /** The calls of `dodequeue` in a whole `dequeue`, one for each packet taken. */
  function DequeueCalls(c: Config, s: State, now: nat): seq<Call>
    requires s.packets != []
  {
    var s' := AfterTake(c, s, now);
    [CallOf(c, s, now)] + if s.dropping then LoopCalls(c, s'.(dropping := OkToDrop(c, s, now)), now)
                          else if OkToDrop(c, s, now) then [CallOf(c, s', now)]
                          else []
  }

  lemma {:induction false} LoopRemembers(c: Config, s: State, calls: seq<Call>, now: nat)
    requires c.interval > 0 && (s.dropping ==> s.packets != []) && Remembers(c, s.firstAbove, calls)
    ensures var r, more := DropLoop(c, s, now), LoopCalls(c, s, now);
            && Remembers(c, r.firstAbove, calls + more) && |more| == |s.packets| - |r.packets|
            && forall i | 0 <= i < |more| - 1 :: more[i].above
    decreases |s.packets|
  {
    hide Remembers, Above, ControlLaw;
    if s.dropping && now >= s.dropNext {
      var call, s' := CallOf(c, s, now), AfterDrop(c, s, now);
      OkExactlyAfterAnInterval(c, s, calls, now);
      LoopRemembers(c, s', calls + [call], now);
      assert calls + [call] + LoopCalls(c, s', now) == calls + LoopCalls(c, s, now);
      LoopEnds(c, s', now);
    } else {
      assert calls + [] == calls;
    }
  }

  lemma {:induction false} LoopEnds(c: Config, s: State, now: nat)
    requires s.dropping ==> s.packets != []
    ensures !s.dropping ==> LoopCalls(c, s, now) == []
  {
  }

  /** `first_above_time_` remembers the latest run of calls above target after any
      dequeue, and every packet taken but the last was above target itself: the
      last one is dropped, if it is, before its own delay is looked at. */
  lemma DequeueRemembers(c: Config, s: State, calls: seq<Call>, now: nat)
    requires c.interval > 0 && s.packets != [] && Remembers(c, s.firstAbove, calls)
    ensures var r, more := AfterDequeue(c, s, now), DequeueCalls(c, s, now);
            && Remembers(c, r.firstAbove, calls + more) && |more| == |s.packets| - |r.packets|
            && more[0] == CallOf(c, s, now) && forall i | 0 <= i < |more| - 1 :: more[i].above
  {
    hide Remembers, Above, ControlLaw, DropLoop, LoopCalls;
    var call, s' := CallOf(c, s, now), AfterTake(c, s, now);
    OkExactlyAfterAnInterval(c, s, calls, now);
    DropsOnlyWhenAllowed(c, s, now);
    if s.dropping {
      var d := s'.(dropping := OkToDrop(c, s, now));
      LoopRemembers(c, d, calls + [call], now);
      assert calls + [call] + LoopCalls(c, d, now) == calls + DequeueCalls(c, s, now);
      LoopEnds(c, d, now);
    } else if OkToDrop(c, s, now) {
      OkExactlyAfterAnInterval(c, s', calls + [call], now);
      assert calls + [call] + [CallOf(c, s', now)] == calls + DequeueCalls(c, s, now);
    } else {
      assert calls + DequeueCalls(c, s, now) == calls + [call];
    }
  }

  /** The latest calls were all above target, for an interval or more. */
  predicate LongAbove(c: Config, calls: seq<Call>, now: nat) {
    AboveSince(calls).Some? && AboveSince(calls).value + c.interval <= now
  }

  /** A dequeue drops nothing unless the packet it delivers was above target, and
      so were all calls of an interval before. */
  lemma DropsOnlyAfterAnInterval(c: Config, s: State, calls: seq<Call>, now: nat)
    requires c.interval > 0 && s.packets != [] && Remembers(c, s.firstAbove, calls)
    ensures |AfterDequeue(c, s, now).packets| < |s.packets| - 1 ==> CallOf(c, s, now).above && LongAbove(c, calls, now)
  {
    hide AfterDequeue, Remembers;
    DropsOnlyWhenAllowed(c, s, now);
    OkExactlyAfterAnInterval(c, s, calls, now);
  }

  datatype Op = Arrival(packet: Packet) | Departure(now: nat)

  function AfterOp(c: Config, l: Limits, s: State, op: Op): State {
    match op
    case Arrival(p) => s.(packets := Arrived(l, s.packets, p))
    case Departure(now) => if s.packets == [] then s else AfterDequeue(c, s, now)
  }

  function OpCalls(c: Config, s: State, op: Op): seq<Call> {
    match op
    case Arrival(_) => []
    case Departure(now) => if s.packets == [] then [] else DequeueCalls(c, s, now)
  }

  function RunOps(c: Config, l: Limits, s: State, ops: seq<Op>): State
    decreases |ops|
  {
    if ops == [] then s else RunOps(c, l, AfterOp(c, l, s, ops[0]), ops[1..])
  }

  function RunCalls(c: Config, l: Limits, s: State, ops: seq<Op>): seq<Call>
    decreases |ops|
  {
    if ops == [] then [] else OpCalls(c, s, ops[0]) + RunCalls(c, l, AfterOp(c, l, s, ops[0]), ops[1..])
  }

  lemma {:induction false} RunRemembers(c: Config, l: Limits, s: State, calls: seq<Call>, ops: seq<Op>)
    requires c.interval > 0 && Remembers(c, s.firstAbove, calls)
    ensures Remembers(c, RunOps(c, l, s, ops).firstAbove, calls + RunCalls(c, l, s, ops))
    decreases |ops|
  {
    hide Remembers, AfterDequeue, DequeueCalls;
    if ops == [] {
      assert calls + [] == calls;
    } else {
      var s', more := AfterOp(c, l, s, ops[0]), OpCalls(c, s, ops[0]);
      if ops[0].Departure? && s.packets != [] {
        DequeueRemembers(c, s, calls, ops[0].now);
      } else {
        assert calls + more == calls;
      }
      RunRemembers(c, l, s', calls + more, ops[1..]);
      assert calls + more + RunCalls(c, l, s', ops[1..]) == calls + RunCalls(c, l, s, ops);
    }
  }

  const EMPTY: State := State([], 0, 0, 0, 0, false)

  /** Over every run of arrivals and departures from the start: a dequeue drops a
      packet only if the packet it delivers was above target and so were all calls
      of the latest `interval` and more before it. */
  lemma {:induction false} RunsDropOnlyAfterAnInterval(c: Config, l: Limits, ops: seq<Op>, now: nat)
    requires c.interval > 0
    ensures var s, calls := RunOps(c, l, EMPTY, ops), RunCalls(c, l, EMPTY, ops);
            s.packets != [] && |AfterDequeue(c, s, now).packets| < |s.packets| - 1 ==>
              CallOf(c, s, now).above && LongAbove(c, calls, now)
  {
    hide RunOps, RunCalls, AfterDequeue, LongAbove, Above;
    var s, calls := RunOps(c, l, EMPTY, ops), RunCalls(c, l, EMPTY, ops);
    RunRemembers(c, l, EMPTY, [], ops);
    assert [] + calls == calls;
    if s.packets != [] { DropsOnlyAfterAnInterval(c, s, calls, now); }
  }

  // ----- what a dropping phase remembers of the one before -----

  /** A whole interval over the square root of the count, rounded down. */
  predicate Spaced(c: Config, d: int, count: nat) {
    0 <= d && d * d * count <= c.interval * c.interval < (d + 1) * (d + 1) * count
  }

  /** One dequeue: whether the queue was dropping before it, and how many packets it
      dropped. */
  datatype Dequeued = Dequeued(dropping: bool, dropped: nat)

  function DequeuedBy(c: Config, s: State, op: Op): seq<Dequeued> {
    match op
    case Arrival(_) => []
    case Departure(now) =>
      if s.packets == [] then []
      else
        DequeueTakes(c, s, now);
        [Dequeued(s.dropping, |s.packets| - |AfterDequeue(c, s, now).packets| - 1)]
  }

  function RunDequeued(c: Config, l: Limits, s: State, ops: seq<Op>): seq<Dequeued>
    decreases |ops|
  {
    if ops == [] then [] else DequeuedBy(c, s, ops[0]) + RunDequeued(c, l, AfterOp(c, l, s, ops[0]), ops[1..])
  }

  /** Packets dropped in the latest dropping phase behind the one that began it. */
  function DroppedSince(ds: seq<Dequeued>): nat {
    if ds == [] then 0
    else
      var last := ds[|ds| - 1];
      if !last.dropping && last.dropped > 0 then 0 else DroppedSince(ds[..|ds| - 1]) + last.dropped
  }

  lemma {:induction false} DequeueCounts(c: Config, l: Limits, s: State, ds: seq<Dequeued>, op: Op)
    requires s.count - s.lastCount == DroppedSince(ds)
    ensures var r := AfterOp(c, l, s, op); r.count - r.lastCount == DroppedSince(ds + DequeuedBy(c, s, op))
  {
    hide AfterDequeue, DroppedSince;
    var more := DequeuedBy(c, s, op);
    if more == [] {
      assert ds + more == ds;
    } else {
      LastDequeued(ds, more[0]);
      DequeueTakes(c, s, op.now);
      CountsOf(c, s, op.now);
    }
  }

  lemma {:induction false} LastDequeued(ds: seq<Dequeued>, d: Dequeued)
    ensures DroppedSince(ds + [d]) == if !d.dropping && d.dropped > 0 then 0 else DroppedSince(ds) + d.dropped
  {
    assert (ds + [d])[..|ds|] == ds;
  }

  lemma {:induction false} CountsOf(c: Config, s: State, now: nat)
    requires s.packets != []
    ensures var r := AfterDequeue(c, s, now); var dropped := |s.packets| - |r.packets| - 1;
            && (s.dropping ==> r.lastCount == s.lastCount)
            && (!s.dropping && dropped > 0 ==> r.dropping && r.count == r.lastCount)
            && (!s.dropping && dropped == 0 ==> r.count == s.count && r.lastCount == s.lastCount)
  {
    hide ControlLaw, DropLoop, Bytes;
    if s.dropping { LoopKeepsLast(c, AfterTake(c, s, now).(dropping := OkToDrop(c, s, now)), now); }
  }

  lemma {:induction false} LoopKeepsLast(c: Config, s: State, now: nat)
    requires s.dropping ==> s.packets != []
    ensures DropLoop(c, s, now).lastCount == s.lastCount
    decreases |s.packets|
  {
    hide ControlLaw;
    if s.dropping && now >= s.dropNext { LoopKeepsLast(c, AfterDrop(c, s, now), now); }
  }

  lemma {:induction false} RunCounts(c: Config, l: Limits, s: State, ds: seq<Dequeued>, ops: seq<Op>)
    requires s.count - s.lastCount == DroppedSince(ds)
    ensures var r := RunOps(c, l, s, ops); r.count - r.lastCount == DroppedSince(ds + RunDequeued(c, l, s, ops))
    decreases |ops|
  {
    hide AfterOp, DequeuedBy, DroppedSince;
    if ops == [] {
      assert ds + [] == ds;
    } else {
      var s', more := AfterOp(c, l, s, ops[0]), DequeuedBy(c, s, ops[0]);
      DequeueCounts(c, l, s, ds, ops[0]);
      RunCounts(c, l, s', ds + more, ops[1..]);
      assert ds + more + RunDequeued(c, l, s', ops[1..]) == ds + RunDequeued(c, l, s, ops);
    }
  }

  /** Over every run from the start: a dequeue that drops while the queue was not
      dropping begins a phase at the count of packets that the phase before dropped
      behind its first, if there were two or more and its last drop was due less than
      16 intervals ago, and at 1 otherwise; the next drop is due a whole interval over
      the square root of that count from now. */
  lemma {:induction false} PhaseBegins(c: Config, l: Limits, ops: seq<Op>, now: nat)
    ensures var s, before := RunOps(c, l, EMPTY, ops), DroppedSince(RunDequeued(c, l, EMPTY, ops)) % U32;
            s.packets != [] && !s.dropping && |AfterDequeue(c, s, now).packets| < |s.packets| - 1 ==>
              var r := AfterDequeue(c, s, now);
              && r.dropping && r.packets == s.packets[2..] && r.lastCount == r.count
              && r.count == (if before >= 2 && (now - s.dropNext) % U64 < (16 * c.interval) % U32 then before else 1)
              && Spaced(c, r.dropNext - now, r.count)
  {
    hide RunOps, RunDequeued, AfterDequeue, Spaced, OkToDrop;
    assert DroppedSince([]) == 0;
    RunCounts(c, l, EMPTY, [], ops);
    var s := RunOps(c, l, EMPTY, ops);
    assert [] + RunDequeued(c, l, EMPTY, ops) == RunDequeued(c, l, EMPTY, ops);
    if s.packets != [] && !s.dropping {
      DropsOnlyWhenAllowed(c, s, now);
      if OkToDrop(c, s, now) { Entered(c, s, now); }
    }
  }

  lemma LawSpaces(c: Config, now: nat, count: nat)
    requires count > 0
    ensures Spaced(c, ControlLaw(c, now, count) - now, count)
  {
  }

  lemma Entered(c: Config, s: State, now: nat)
    requires s.packets != [] && !s.dropping && OkToDrop(c, s, now)
    ensures var r, before := AfterDequeue(c, s, now), (s.count - s.lastCount) % U32;
            && r.dropping && r.lastCount == r.count > 0
            && r.count == (if before >= 2 && (now - s.dropNext) % U64 < (16 * c.interval) % U32 then before else 1)
            && Spaced(c, r.dropNext - now, r.count)
  {
    hide Bytes, Spaced, Above;
    LawSpaces(c, now, AfterDequeue(c, s, now).count);
  }

  // ----- which drops are of packets above target -----

  /** Drops that the control law schedules by `now`, as long as there are packets. */
  function Due(c: Config, dropNext: nat, count: nat, room: nat, now: nat): (d: nat)
    ensures d <= room
    decreases room
  {
    if room == 0 || now < dropNext then 0
    else 1 + Due(c, ControlLaw(c, dropNext, count + 1), count + 1, room - 1, now)
  }

  /** Drops scheduled for a dequeue that may drop. */
  function Scheduled(c: Config, s: State, now: nat): nat
    requires s.packets != []
  {
    if s.dropping then Due(c, s.dropNext, s.count, |s.packets| - 1, now) else 1
  }

  /** The first `d` packets of a queue would all be above target if taken now. */
  predicate FrontAbove(c: Config, ps: seq<Packet>, d: nat, now: nat) {
    d <= |ps| && forall i | 0 <= i < d :: Above(c, ps[i], ps[i + 1..], now)
  }

  predicate AllAbove(calls: seq<Call>) {
    forall i | 0 <= i < |calls| :: calls[i].above
  }

  lemma FrontAboveStep(c: Config, ps: seq<Packet>, d: nat, now: nat)
    requires ps != [] && 0 < d <= |ps|
    ensures FrontAbove(c, ps, d, now) <==> Above(c, ps[0], ps[1..], now) && FrontAbove(c, ps[1..], d - 1, now)
  {
    hide Above;
    var rest := ps[1..];
    assert forall i | 0 <= i < d - 1 :: rest[i] == ps[i + 1] && rest[i + 1..] == ps[i + 2..];
    if Above(c, ps[0], rest, now) && FrontAbove(c, rest, d - 1, now) {
      forall i | 0 <= i < d
        ensures Above(c, ps[i], ps[i + 1..], now)
      {
        if i > 0 { assert rest[i - 1] == ps[i] && rest[i..] == ps[i + 1..]; }
      }
    }
  }

  lemma AllAboveStep(call: Call, calls: seq<Call>)
    ensures AllAbove([call] + calls) <==> call.above && AllAbove(calls)
  {
    var more := [call] + calls;
    assert forall i | 0 <= i < |calls| :: more[i + 1] == calls[i];
    if AllAbove(more) {
      assert more[0] == call;
      forall i | 0 <= i < |calls|
        ensures calls[i].above
      {
        assert more[i + 1].above;
      }
    }
  }

  /** In the loop, once dropping is allowed: packets are dropped as scheduled until
      one is not above target, which is dropped as well. */
  lemma {:induction false} LoopDropsAbove(c: Config, s: State, now: nat)
    requires s.dropping && s.packets != [] && s.firstAbove != 0 && now >= s.firstAbove
    ensures var d, calls := Due(c, s.dropNext, s.count, |s.packets|, now), LoopCalls(c, s, now);
            && (AllAbove(calls) <==> FrontAbove(c, s.packets, d, now))
            && |calls| <= d && (AllAbove(calls) ==> |calls| == d)
    decreases |s.packets|
  {
    hide Above, ControlLaw, FrontAbove, AllAbove;
    if now < s.dropNext {
      assert AllAbove([]) && FrontAbove(c, s.packets, 0, now) by { NoneAbove(c, s.packets, now); }
    } else {
      var call, t, d := CallOf(c, s, now), AfterDrop(c, s, now), Due(c, s.dropNext, s.count, |s.packets|, now);
      FrontAboveStep(c, s.packets, d, now);
      AllAboveStep(call, LoopCalls(c, t, now));
      AllowedIsAbove(c, s, now);
      if call.above {
        LoopDropsAbove(c, t, now);
      }
    }
  }

  lemma NoneAbove(c: Config, ps: seq<Packet>, now: nat)
    ensures AllAbove([]) && FrontAbove(c, ps, 0, now)
  {
  }

  /** With the memory of an interval above target, a call is allowed to drop
      exactly when it is above target, and keeps that memory. */
  lemma AllowedIsAbove(c: Config, s: State, now: nat)
    requires s.packets != [] && s.firstAbove != 0 && now >= s.firstAbove
    ensures OkToDrop(c, s, now) == CallOf(c, s, now).above
    ensures CallOf(c, s, now).above ==> s.packets[1..] != [] && AfterTake(c, s, now).firstAbove == s.firstAbove
  {
    hide Bytes, CallOf;
    CallIsAbove(c, s, now);
  }

  /** The packets that a dequeue drops were all above target when they were taken
      exactly when those scheduled to be dropped, from the one behind the head on,
      are so now, or nothing may be dropped. */
  lemma DropsAreAboveIff(c: Config, s: State, now: nat)
    requires s.packets != []
    ensures AllAbove(DequeueCalls(c, s, now)[1..]) <==>
            (OkToDrop(c, s, now) ==> FrontAbove(c, s.packets[1..], Scheduled(c, s, now), now))
  {
    hide Above, ControlLaw, FrontAbove, AllAbove, LoopCalls, Due, CallOf;
    var t := AfterTake(c, s, now);
    AllAboveStep(CallOf(c, s, now), []);
    if !OkToDrop(c, s, now) {
      LoopEnds(c, t.(dropping := false), now);
      assert DequeueCalls(c, s, now)[1..] == [];
      NoneAbove(c, s.packets, now);
    } else {
      DropsOnlyWhenAllowed(c, s, now);
      AllowedIsAbove(c, s, now);
      if s.dropping {
        LoopDropsAbove(c, t.(dropping := true), now);
        assert DequeueCalls(c, s, now)[1..] == LoopCalls(c, t.(dropping := true), now);
      } else {
        var call := CallOf(c, t, now);
        CallIsAbove(c, t, now);
        assert DequeueCalls(c, s, now)[1..] == [call] + [];
        AllAboveStep(call, []);
        NoneAbove(c, t.packets[1..], now);
        FrontAboveStep(c, t.packets, 1, now);
      }
    }
  }

  lemma {:induction false} LoopGoesOn(c: Config, s: State, now: nat)
    requires s.dropping && s.packets != [] && s.firstAbove != 0 && now >= s.firstAbove
    ensures DropLoop(c, s, now).dropping <==> AllAbove(LoopCalls(c, s, now))
    decreases |s.packets|
  {
    hide Above, ControlLaw, AllAbove, CallOf;
    if now < s.dropNext {
      NoneAbove(c, s.packets, now);
    } else {
      var call, t := CallOf(c, s, now), AfterDrop(c, s, now);
      AllAboveStep(call, LoopCalls(c, t, now));
      AllowedIsAbove(c, s, now);
      if call.above { LoopGoesOn(c, t, now); }
    }
  }

  /** A dequeue leaves the queue dropping exactly if it may drop and, when the phase
      had begun before, all that it dropped was above target. */
  lemma PhaseGoesOn(c: Config, s: State, now: nat)
    requires s.packets != []
    ensures AfterDequeue(c, s, now).dropping <==>
            OkToDrop(c, s, now) && (s.dropping ==> AllAbove(DequeueCalls(c, s, now)[1..]))
  {
    hide Above, ControlLaw, AllAbove, LoopCalls, DropLoop, CallOf;
    DequeueCases(c, s, now);
    if s.dropping {
      var t := AfterTake(c, s, now).(dropping := OkToDrop(c, s, now));
      assert DequeueCalls(c, s, now)[1..] == LoopCalls(c, t, now);
      DropOnce(c, t, now);
      if OkToDrop(c, s, now) {
        AllowedIsAbove(c, s, now);
        LoopGoesOn(c, t, now);
      }
    }
  }

  // ----- a run that drops a packet below target -----

  lemma {:induction false} RunCons(c: Config, l: Limits, s: State, op: Op, ops: seq<Op>)
    ensures RunOps(c, l, s, [op] + ops) == RunOps(c, l, AfterOp(c, l, s, op), ops)
  {
    assert ([op] + ops)[1..] == ops;
  }

  lemma {:induction false} RunsThree(c: Config, l: Limits, s: State, x: Packet, y: Packet, z: Packet, ops: seq<Op>)
    requires l.bytes == 0 && |s.packets| + 3 <= l.packets
    ensures RunOps(c, l, s, [Arrival(x), Arrival(y), Arrival(z)] + ops)
            == RunOps(c, l, s.(packets := s.packets + [x, y, z]), ops)
  {
    hide RunOps;
    var s1 := s.(packets := s.packets + [x]);
    var s2 := s1.(packets := s1.packets + [y]);
    RunCons(c, l, s, Arrival(x), [Arrival(y), Arrival(z)] + ops);
    RunCons(c, l, s1, Arrival(y), [Arrival(z)] + ops);
    RunCons(c, l, s2, Arrival(z), ops);
    assert [Arrival(x)] + ([Arrival(y), Arrival(z)] + ops) == [Arrival(x), Arrival(y), Arrival(z)] + ops;
    assert [Arrival(y)] + ([Arrival(z)] + ops) == [Arrival(y), Arrival(z)] + ops;
    assert s.packets + [x] + [y] + [z] == s.packets + [x, y, z];
  }

  predicate IsFull(p: Packet, time: nat) {
    |p.contents| == PACKET_SIZE && p.arrivalTime == time
  }

  /** Whether a full packet is above target depends on its delay, and on two more
      behind it. */
  lemma FullAbove(c: Config, p: Packet, rest: seq<Packet>, time: nat, now: nat)
    requires IsFull(p, time) && time <= now < U64 && |rest| >= 2
    requires forall q | q in rest :: |q.contents| == PACKET_SIZE
    ensures Above(c, p, rest, now) <==> now - time >= c.target
  {
    hide Bytes;
    assert rest == rest[..2] + rest[2..];
    BytesConcat(rest[..2], rest[2..]);
    BytesOfTwo(rest[0], rest[1]);
    assert rest[..2] == [rest[0], rest[1]];
    NoWrap64(now - time);
  }

  lemma BytesOfTwo(p: Packet, q: Packet)
    ensures Bytes([p, q]) == |p.contents| + |q.contents|
  {
    BytesConcat([p], [q]);
    assert [p] + [q] == [p, q] && Bytes([p]) == |p.contents| && Bytes([q]) == |q.contents|;
  }

  /** Six packets of 1504 bytes at times 0 and 104, and dequeues at 5 and at 104. */
  function ShortBurst(a: Packet, b: Packet, p: Packet, x: Packet, y: Packet, z: Packet): seq<Op> {
    [Arrival(a), Arrival(b), Arrival(p)] + ([Departure(5)] + ([Arrival(x), Arrival(y), Arrival(z)] + ([Departure(104)] + [])))
  }

  /** With a target of 5 ms and an interval of 100 ms, the dequeue at 105 that
      follows delivers `p` and drops `x`, which arrived 1 ms before. */
  lemma DropsBelowTarget(a: Packet, b: Packet, p: Packet, x: Packet, y: Packet, z: Packet)
    requires IsFull(a, 0) && IsFull(b, 0) && IsFull(p, 0) && IsFull(x, 104) && IsFull(y, 104) && IsFull(z, 104)
    ensures var c := Config(5, 100);
            var s := RunOps(c, Limits(0, 100), EMPTY, ShortBurst(a, b, p, x, y, z));
            && s.packets == [p, x, y, z] && AfterDequeue(c, s, 105).packets == [y, z]
            && DequeueCalls(c, s, 105) == [Call(105, true), Call(105, false)]
  {
    hide RunOps, Above, ControlLaw, Arrived;
    var c, l := Config(5, 100), Limits(0, 100);
    var late := [Departure(104)] + [];
    var s3, s4 := State([a, b, p], 0, 0, 0, 0, false), State([b, p], 105, 0, 0, 0, false);
    var s7, s8 := State([b, p, x, y, z], 105, 0, 0, 0, false), State([p, x, y, z], 105, 0, 0, 0, false);
    RunsThree(c, l, EMPTY, a, b, p, [Departure(5)] + ([Arrival(x), Arrival(y), Arrival(z)] + late));
    assert [] + [a, b, p] == [a, b, p];
    RunCons(c, l, s3, Departure(5), [Arrival(x), Arrival(y), Arrival(z)] + late);
    FullAbove(c, a, [b, p], 0, 5);
    assert [a, b, p][1..] == [b, p];
    assert AfterOp(c, l, s3, Departure(5)) == s4;
    RunsThree(c, l, s4, x, y, z, late);
    assert [b, p] + [x, y, z] == [b, p, x, y, z];
    RunCons(c, l, s7, Departure(104), []);
    FullAbove(c, b, [p, x, y, z], 0, 104);
    assert [b, p, x, y, z][1..] == [p, x, y, z];
    assert AfterOp(c, l, s7, Departure(104)) == s8;
    NoMoreOps(c, l, s8);
    LastDequeue(c, p, x, y, z);
  }

  lemma {:induction false} NoMoreOps(c: Config, l: Limits, s: State)
    ensures RunOps(c, l, s, []) == s
  {
  }

  lemma LastDequeue(c: Config, p: Packet, x: Packet, y: Packet, z: Packet)
    requires c == Config(5, 100) && IsFull(p, 0) && IsFull(x, 104) && IsFull(y, 104) && IsFull(z, 104)
    ensures var s := State([p, x, y, z], 105, 0, 0, 0, false);
            AfterDequeue(c, s, 105).packets == [y, z] && DequeueCalls(c, s, 105) == [Call(105, true), Call(105, false)]
  {
    hide Above, ControlLaw, CallOf;
    FullAbove(c, p, [x, y, z], 0, 105);
    FullAbove(c, x, [y, z], 104, 105);
    assert [p, x, y, z][1..] == [x, y, z] && [x, y, z][1..] == [y, z];
    var s := State([p, x, y, z], 105, 0, 0, 0, false);
    CallIsAbove(c, s, 105);
    CallIsAbove(c, AfterTake(c, s, 105), 105);
  }

  // ----- the object -----

  /** What became of a packet that was taken from the queue. */
  datatype Fate = Fate(packet: Packet, delivered: bool)

  function Taken(fs: seq<Fate>): (r: seq<Packet>)
    ensures |r| == |fs| && forall i | 0 <= i < |fs| :: r[i] == fs[i].packet
  {
    seq(|fs|, i requires 0 <= i < |fs| => fs[i].packet)
  }

  /** The packets that were delivered, in order. */
  function Delivered(fs: seq<Fate>): seq<Packet> {
    if fs == [] then []
    else if fs[0].delivered then [fs[0].packet] + Delivered(fs[1..])
    else Delivered(fs[1..])
  }

  predicate IsSubsequence(xs: seq<Packet>, ys: seq<Packet>) {
    xs == [] || (ys != [] && (if xs[0] == ys[0] then IsSubsequence(xs[1..], ys[1..]) else IsSubsequence(xs, ys[1..])))
  }

  lemma {:induction false} SubsequenceOfLonger(xs: seq<Packet>, ys: seq<Packet>, y: Packet)
    requires IsSubsequence(xs, ys)
    ensures IsSubsequence(xs, [y] + ys)
    decreases |ys|
  {
    assert ([y] + ys)[1..] == ys;
    if xs != [] && xs[0] == y {
      if xs[0] == ys[0] {
        SubsequenceOfLonger(xs[1..], ys[1..], ys[0]);
        assert [ys[0]] + ys[1..] == ys;
      } else {
        SubsequenceOfTail(xs, ys[1..]);
        SubsequenceOfLonger(xs[1..], ys[1..], ys[0]);
        assert [ys[0]] + ys[1..] == ys;
      }
    }
  }

  lemma {:induction false} SubsequenceOfTail(xs: seq<Packet>, ys: seq<Packet>)
    requires xs != [] && IsSubsequence(xs, ys)
    ensures IsSubsequence(xs[1..], ys)
    decreases |ys|
  {
    if xs[0] == ys[0] {
      SubsequenceOfLonger(xs[1..], ys[1..], ys[0]);
      assert [ys[0]] + ys[1..] == ys;
    } else {
      SubsequenceOfTail(xs, ys[1..]);
      SubsequenceOfLonger(xs[1..], ys[1..], ys[0]);
      assert [ys[0]] + ys[1..] == ys;
    }
  }

  /** Delivered packets are a subsequence of those taken and those still queued,
      that is, of everything accepted. */
  lemma {:induction false} DeliveredInOrder(fs: seq<Fate>, queue: seq<Packet>)
    ensures IsSubsequence(Delivered(fs), Taken(fs) + queue)
  {
    if fs != [] {
      DeliveredInOrder(fs[1..], queue);
      var ys := Taken(fs[1..]) + queue;
      assert Taken(fs) + queue == [fs[0].packet] + ys;
      if fs[0].delivered {
        assert Delivered(fs)[1..] == Delivered(fs[1..]);
        assert ([fs[0].packet] + ys)[1..] == ys;
      } else {
        SubsequenceOfLonger(Delivered(fs[1..]), ys, fs[0].packet);
      }
    }
  }

  class CODELPacketQueue {
    const queue: DroppingPacketQueue
    const target: nat
    const interval: nat
    var firstAboveTime: nat
    var dropNext: nat
    var count: nat
    var lastCount: nat
    var dropping: bool

    /** Every packet accepted, the fate of every packet taken, every `dodequeue`. */
    ghost var accepted: seq<Packet>
    ghost var fates: seq<Fate>
    ghost var calls: seq<Call>

    function Cfg(): Config
      reads this
    {
      Config(target, interval)
    }

    ghost function Value(): State
      reads this, queue
    {
      State(queue.packets, firstAboveTime, dropNext, count, lastCount, dropping)
    }

    ghost predicate Valid()
      reads this, queue
    {
      && target > 0 && interval > 0 && queue.Valid()
      && accepted == Taken(fates) + queue.packets
      && Remembers(Cfg(), firstAboveTime, calls)
      && lastCount <= count
    }

    constructor (target: nat, interval: nat, queue: DroppingPacketQueue)
      requires target > 0 && interval > 0 && queue.Valid() && queue.packets == []
      ensures Valid() && this.queue == queue && Value() == State([], 0, 0, 0, 0, false)
      ensures accepted == [] && fates == [] && calls == []
    {
      this.queue := queue;
      this.target, this.interval := target, interval;
      firstAboveTime, dropNext, count, lastCount, dropping := 0, 0, 0, 0, false;
      accepted, fates, calls := [], [], [];
    }

    method Enqueue(p: Packet)
      requires Valid()
      modifies this, queue
      ensures Valid() && fates == old(fates) && calls == old(calls)
      ensures Value() == old(Value()).(packets := Arrived(queue.Limit(), old(queue.packets), p))
      ensures accepted == if queue.packets == old(queue.packets) then old(accepted) else old(accepted) + [p]
    {
      queue.Enqueue(p);
      accepted := Taken(fates) + queue.packets;
    }

    /** Take the head; `ok` says whether a packet may be dropped. */
    method DoDequeue(now: nat, ghost delivered: bool) returns (p: Packet, ok: bool)
      requires Valid() && queue.packets != []
      modifies this, queue
      ensures Valid() && accepted == old(accepted) && fates == old(fates) + [Fate(p, delivered)]
      ensures old(queue.packets) == [p] + queue.packets && Value() == AfterTake(Cfg(), old(Value()), now)
      ensures ok == OkToDrop(Cfg(), old(Value()), now) && (ok ==> queue.packets != [])
      ensures calls == old(calls) + [CallOf(Cfg(), old(Value()), now)]
    {
      hide AboveSince, Remembers, Bytes;
      OkExactlyAfterAnInterval(Cfg(), Value(), calls, now);
      calls := calls + [CallOf(Cfg(), Value(), now)];
      p := queue.Dequeue();
      fates := fates + [Fate(p, delivered)];
      ok := false;
      if queue.Empty() {
        firstAboveTime := 0;
        return;
      }
      var sojournTime := (now - p.arrivalTime) % U64;
      if sojournTime < target || queue.sizeInBytes <= PACKET_SIZE {
        firstAboveTime := 0;
      } else if firstAboveTime == 0 {
        firstAboveTime := now + interval;
      } else if now >= firstAboveTime {
        ok := true;
      }
    }

    /** The packet returned is the head of the queue, the packets dropped are
        those directly behind it, and the queue is never asked for a packet
        when it has none. */
    method Dequeue(now: nat) returns (p: Packet)
      requires Valid() && queue.packets != []
      modifies this, queue
      ensures Valid() && accepted == old(accepted)
      ensures Value() == AfterDequeue(Cfg(), old(Value()), now)
      ensures p == old(queue.packets)[0]
      ensures old(fates) + [Fate(p, true)] <= fates
      ensures forall i | |old(fates)| < i < |fates| :: !fates[i].delivered
      ensures calls == old(calls) + DequeueCalls(Cfg(), old(Value()), now)
      ensures |fates| > |old(fates)| + 1 ==> CallOf(Cfg(), old(Value()), now).above && LongAbove(Cfg(), old(calls), now)
    {
      hide AfterDequeue, DequeueCalls, CallOf, DropLoop, LoopCalls, ControlLaw, OkToDrop, Bytes, Remembers, Above, Taken, LongAbove, EnterDropping;
      DropsOnlyAfterAnInterval(Cfg(), Value(), calls, now);
      DequeueCases(Cfg(), Value(), now);
      var ok;
      p, ok := DoDequeue(now, true);
      if dropping {
        if !ok {
          dropping := false;
        }
        DropBehind(now);
      } else if ok {
        DropFirst(now);
      }
    }

    /** Drop a packet and enter the dropping state. */
    method DropFirst(now: nat)
      requires Valid() && queue.packets != []
      modifies this, queue
      ensures Valid() && accepted == old(accepted)
      ensures Value() == EnterDropping(Cfg(), old(Value()), now)
      ensures fates == old(fates) + [Fate(old(queue.packets)[0], false)]
      ensures calls == old(calls) + [CallOf(Cfg(), old(Value()), now)]
    {
      hide CallOf, ControlLaw, OkToDrop, Bytes, Remembers, Above, Taken;
      var q, okNext := DoDequeue(now, false);
      dropping := true;
      var delta := (count - lastCount) % U32;
      count := if delta > 1 && (now - dropNext) % U64 < (16 * interval) % U32 then delta else 1;
      dropNext := ControlLaw(Cfg(), now, count);
      lastCount := count;
    }

    /** The loop of the dropping state. */
    method DropBehind(now: nat)
      requires Valid() && (dropping ==> queue.packets != [])
      modifies this, queue
      ensures Valid() && accepted == old(accepted)
      ensures Value() == DropLoop(Cfg(), old(Value()), now)
      ensures old(fates) <= fates && forall i | |old(fates)| <= i < |fates| :: !fates[i].delivered
      ensures |fates| - |old(fates)| == |old(queue.packets)| - |queue.packets|
      ensures calls == old(calls) + LoopCalls(Cfg(), old(Value()), now)
    {
      hide DropLoop, LoopCalls, AfterDrop, ControlLaw, OkToDrop, Bytes, Remembers, Above, Taken;
      while now >= dropNext && dropping
        invariant Valid() && accepted == old(accepted) && (dropping ==> queue.packets != [])
        invariant DropLoop(Cfg(), Value(), now) == DropLoop(Cfg(), old(Value()), now)
        invariant old(fates) <= fates && forall i | |old(fates)| <= i < |fates| :: !fates[i].delivered
        invariant |fates| - |old(fates)| == |old(queue.packets)| - |queue.packets|
        invariant calls + LoopCalls(Cfg(), Value(), now) == old(calls) + LoopCalls(Cfg(), old(Value()), now)
        decreases |queue.packets|
      {
        DropOnce(Cfg(), Value(), now);
        var q, okNext := DoDequeue(now, false);
        count := count + 1;
        if !okNext {
          dropping := false;
        } else {
          dropNext := ControlLaw(Cfg(), dropNext, count);
        }
      }
      DropOnce(Cfg(), Value(), now);
    }
  }

  lemma {:induction false} DequeueCases(c: Config, s: State, now: nat)
    requires s.packets != []
    ensures var s', ok, call := AfterTake(c, s, now), OkToDrop(c, s, now), CallOf(c, s, now);
            && (ok ==> s'.packets != [])
            && (s.dropping ==> AfterDequeue(c, s, now) == DropLoop(c, s'.(dropping := ok), now)
                               && DequeueCalls(c, s, now) == [call] + LoopCalls(c, s'.(dropping := ok), now))
            && (!s.dropping && ok ==> AfterDequeue(c, s, now) == EnterDropping(c, s', now)
                                      && DequeueCalls(c, s, now) == [call] + [CallOf(c, s', now)])
            && (!s.dropping && !ok ==> AfterDequeue(c, s, now) == s' && DequeueCalls(c, s, now) == [call])
  {
    hide ControlLaw, DropLoop, LoopCalls;
  }

  lemma {:induction false} DropOnce(c: Config, s: State, now: nat)
    requires s.dropping ==> s.packets != []
    ensures !(s.dropping && now >= s.dropNext) ==> DropLoop(c, s, now) == s && LoopCalls(c, s, now) == []
    ensures s.dropping && now >= s.dropNext ==>
              && AfterDrop(c, s, now) == (var s' := AfterTake(c, s, now).(count := s.count + 1);
                                          if OkToDrop(c, s, now) then s'.(dropNext := ControlLaw(c, s.dropNext, s.count + 1))
                                          else s'.(dropping := false))
              && DropLoop(c, s, now) == DropLoop(c, AfterDrop(c, s, now), now)
              && LoopCalls(c, s, now) == [CallOf(c, s, now)] + LoopCalls(c, AfterDrop(c, s, now), now)
  {
    hide ControlLaw, OkToDrop;
  }
}
