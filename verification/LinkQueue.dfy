/** The trace-driven link (mahimahi/src/frontend/link_queue.cc): a cyclic
    schedule of delivery opportunities, each worth 1504 bytes, serves a queue in
    order, and a packet may span opportunities. */
module LinkQueue {
  import opened Words
  import opened PacketQueue
  import Text

  const NEVER: nat := 0xFFFF_FFFF_FFFF_FFFF

  /** `record_departure` reads from offset 24 of a packet; a shorter packet that
      departs is an exception, and one without bytes a failed assertion just before. */
  const MIN_PACKET: nat := 24

  datatype Departure = Departure(time: nat, packet: Packet)

  /** When opportunities come. `used` counts those used since the link started,
      at `start`. */
  datatype Clock = Clock(schedule: seq<nat>, repeat: bool, start: nat, base: nat, next: nat, finished: bool, used: nat)

  /** The link: its clock, the queue, the packet in transit with its bytes left
      to send, and the packets that are out. */
  datatype Link = Link(clock: Clock, queue: seq<Packet>, transit: Packet, left: nat, output: seq<Departure>)

  // ----- the schedule -----

  /** What the constructor checks of a trace. */
  predicate IsSchedule(s: seq<nat>) {
    |s| > 0 && s[|s| - 1] > 0 && Sorted(s)
  }

  function Last(s: seq<nat>): nat
    requires |s| > 0
  {
    s[|s| - 1]
  }

  function Initial(schedule: seq<nat>, repeat: bool, start: nat): Clock {
    Clock(schedule, repeat, start, start, 0, false, 0)
  }

  function NextTime(c: Clock): nat
    requires c.next < |c.schedule|
  {
    if c.finished then NEVER else c.schedule[c.next] + c.base
  }

  function Use(c: Clock): Clock
    requires c.next < |c.schedule|
  {
    var n := (c.next + 1) % |c.schedule|;
    var c' := c.(next := n, used := c.used + 1);
    if n != 0 then c'
    else if c.repeat then c'.(base := c.base + Last(c.schedule))
    else c'.(finished := true)
  }

  /** Opportunity `k` is number `Slot` of pass `Pass` over `n` of them. */
  function Pass(k: nat, n: nat): nat
    requires n > 0
  {
    k / n
  }

  function Slot(k: nat, n: nat): (r: nat)
    requires n > 0
    ensures r < n
  {
    k % n
  }

  function Times(q: nat, last: nat): nat { q * last }

  /** The time of opportunity `k`, counted from 0, in closed form. */
  function OpportunityTime(c: Clock, k: nat): nat
    requires |c.schedule| > 0
  {
    var n := |c.schedule|;
    c.start + Times(Pass(k, n), Last(c.schedule)) + c.schedule[Slot(k, n)]
  }

  /** The clock stands where `used` opportunities put it. */
  predicate Kept(c: Clock) {
    && IsSchedule(c.schedule)
    && c.next == Slot(c.used, |c.schedule|)
    && (c.repeat ==> c.base == c.start + Times(Pass(c.used, |c.schedule|), Last(c.schedule)) && !c.finished)
    && (!c.repeat ==> c.base == c.start && c.used <= |c.schedule| && c.finished == (c.used == |c.schedule|))
  }

  lemma NextSlot(k: nat, n: nat)
    requires n > 0
    ensures if Slot(k, n) + 1 == n then Pass(k + 1, n) == Pass(k, n) + 1 && Slot(k + 1, n) == 0
            else Pass(k + 1, n) == Pass(k, n) && Slot(k + 1, n) == Slot(k, n) + 1
  {
    var q, r := k / n, k % n;
    assert k == q * n + r;
    OneMore(q, n);
    if r + 1 == n {
      DivModUnique(k + 1, n, q + 1, 0);
    } else {
      DivModUnique(k + 1, n, q, r + 1);
    }
  }

  lemma OneMorePass(q: nat, last: nat)
    ensures Times(q + 1, last) == Times(q, last) + last
    ensures Times(0, last) == 0
  {
  }

  lemma FirstPass(k: nat, n: nat)
    requires k < n
    ensures Pass(k, n) == 0 && Slot(k, n) == k && k % n == k
  {
    DivModUnique(k, n, 0, k);
  }

  /** The next index, cyclically. */
  lemma NextIndex(i: nat, n: nat)
    requires i < n
    ensures (i + 1) % n == if i + 1 == n then 0 else i + 1
  {
    if i + 1 < n { FirstPass(i + 1, n); } else { DivModUnique(i + 1, n, 1, 0); }
  }

  /** Using an opportunity keeps the closed form: the next one is the next index. */
  lemma UseKeeps(c: Clock)
    requires Kept(c) && !c.finished
    ensures Kept(Use(c)) && NextTime(c) == OpportunityTime(c, c.used)
    ensures (c.next + 1) % |c.schedule| == if c.next + 1 == |c.schedule| then 0 else c.next + 1
  {
    hide Slot, Pass, Times, Use;
    var n := |c.schedule|;
    NextIndex(c.next, n);
    UseIs(c);
    NextSlot(c.used, n);
    OneMorePass(Pass(c.used, n), Last(c.schedule));
    if !c.repeat { FirstPass(c.used, n); }
  }

  lemma UseIs(c: Clock)
    requires c.next < |c.schedule|
    ensures Use(c) == (var last := c.next + 1 == |c.schedule|;
                       c.(next := if last then 0 else c.next + 1, used := c.used + 1,
                          base := if last && c.repeat then c.base + Last(c.schedule) else c.base,
                          finished := c.finished || (last && !c.repeat)))
  {
    NextIndex(c.next, |c.schedule|);
  }

  /** Opportunities never go back in time. */
  lemma {:induction false} TimesNondecreasing(c: Clock, j: nat, k: nat)
    requires IsSchedule(c.schedule) && j <= k
    ensures OpportunityTime(c, j) <= OpportunityTime(c, k)
    decreases k - j
  {
    hide Slot, Pass, Times;
    if j < k {
      NextSlot(j, |c.schedule|);
      OneMorePass(Pass(j, |c.schedule|), Last(c.schedule));
      TimesNondecreasing(c, j + 1, k);
    }
  }

  // ----- one opportunity -----

  predicate Sendable(l: Link) {
    && l.left <= |l.transit.contents|
    && (forall p | p in l.queue :: |p.contents| <= PACKET_SIZE)
    && (l.left > 0 ==> |l.transit.contents| <= PACKET_SIZE)
  }

  /** Take the next packet if none is in transit. */
  function Load(l: Link): Link {
    if l.left == 0 && l.queue != [] then
      l.(transit := l.queue[0], left := |l.queue[0].contents|, queue := l.queue[1..])
    else l
  }

  function Transmit(l: Link, amount: nat, time: nat): Link
    requires amount <= l.left
  {
    if l.left == amount then l.(left := 0, output := l.output + [Departure(time, l.transit)])
    else l.(left := l.left - amount)
  }

  predicate Idle(l: Link) {
    l.left == 0 && l.queue == []
  }

  /** Take a packet if none is in transit, and send what `bytes` allow of it. A packet
      of no bytes is out at once; the program stops there. */
  function SendSome(l: Link, bytes: nat, time: nat): Link
    requires Sendable(l) && !Idle(l)
  {
    Transmit(Load(l), Min(bytes, Load(l).left), time)
  }

  /** Spend up to `bytes` of an opportunity at `time`. */
  function Send(l: Link, bytes: nat, time: nat): (r: Link)
    requires Sendable(l)
    ensures Sendable(r) && r.clock == l.clock
    decreases bytes, |l.queue|
  {
    if bytes == 0 || Idle(l) then l else Send(SendSome(l, bytes, time), bytes - Min(bytes, Load(l).left), time)
  }

  function Opportunity(l: Link): (r: Link)
    requires Sendable(l) && Kept(l.clock) && !l.clock.finished
    ensures Sendable(r) && Kept(r.clock) && r.clock == Use(l.clock)
  {
    UseKeeps(l.clock);
    Send(l.(clock := Use(l.clock)), PACKET_SIZE, NextTime(l.clock))
  }

  lemma SentPart(m: Link)
    requires Sendable(m) && m.left > 0
    ensures m.left <= |m.transit.contents| <= PACKET_SIZE
  {
  }

  lemma SendOnce(l: Link, bytes: nat, time: nat)
    requires Sendable(l)
    ensures Sendable(Load(l)) && (!Idle(l) && Load(l).left == 0 ==> Load(l).transit.contents == [])
    ensures bytes == 0 || Idle(l) ==> Send(l, bytes, time) == l
    ensures bytes > 0 && !Idle(l) ==>
              var amount, t := Min(bytes, Load(l).left), SendSome(l, bytes, time);
              && 0 <= amount && Sendable(t) && Send(l, bytes, time) == Send(t, bytes - amount, time)
              && |t.queue| <= |l.queue| && (amount > 0 || |t.queue| < |l.queue|)
  {
  }

  predicate Ready(l: Link) {
    Sendable(l) && Kept(l.clock)
  }

  /** Used-up passes over the schedule up to `now`: what `rationalize` counts down. */
  function Ahead(c: Clock, now: nat): nat {
    if c.finished then 0 else if c.base <= now then now - c.base + 2 else 1
  }

  /** `rationalize`: every opportunity due by `now`. */
  function CaughtUp(l: Link, now: nat): (r: Link)
    requires Ready(l) && now < NEVER
    ensures Ready(r) && NextTime(r.clock) > now && r.clock.used >= l.clock.used
    decreases Ahead(l.clock, now), |l.clock.schedule| - l.clock.next
  {
    if NextTime(l.clock) <= now then
      UseKeeps(l.clock);
      CaughtUp(Opportunity(l), now)
    else l
  }

  /** One round of catching up, if an opportunity is due. */
  lemma {:induction false} DueStep(l: Link, now: nat)
    requires Ready(l) && now < NEVER
    ensures l.clock.next < |l.clock.schedule|
    ensures NextTime(l.clock) > now ==> CaughtUp(l, now) == l
    ensures NextTime(l.clock) <= now ==>
              && !l.clock.finished && Ready(Opportunity(l)) && CaughtUp(l, now) == CaughtUp(Opportunity(l), now)
              && var c := Opportunity(l).clock;
                 && c == Use(l.clock)
                 && (Ahead(c, now) < Ahead(l.clock, now)
                     || (Ahead(c, now) == Ahead(l.clock, now) && |c.schedule| - c.next < |l.clock.schedule| - l.clock.next))
  {
    hide Use, Kept, Send, Sendable, Ahead;
    NextInRange(l.clock);
    if NextTime(l.clock) <= now { UseAdvances(l.clock, now); }
  }

  lemma NextInRange(c: Clock)
    requires Kept(c)
    ensures c.next < |c.schedule| && Last(c.schedule) > 0
  {
  }

  lemma UseAdvances(c: Clock, now: nat)
    requires Kept(c) && c.next < |c.schedule| && NextTime(c) <= now < NEVER
    ensures !c.finished && Kept(Use(c))
    ensures Ahead(Use(c), now) < Ahead(c, now)
         || (Ahead(Use(c), now) == Ahead(c, now) && |Use(c).schedule| - Use(c).next < |c.schedule| - c.next)
  {
    hide Slot, Pass, Times;
    UseKeeps(c);
    NextInRange(c);
  }

  lemma UseChanges(c: Clock)
    requires Kept(c) && !c.finished
    ensures var c' := Use(c);
            && c' == c.(used := c.used + 1, next := c'.next, base := c'.base, finished := c'.finished)
            && (forall k: nat :: OpportunityTime(c', k) == OpportunityTime(c, k))
            && NextTime(c) == OpportunityTime(c, c.used)
            && (c'.base == c.base || c'.base == NextTime(c))
  {
    hide Slot, Pass, Times;
    UseKeeps(c);
  }

  // ----- which opportunities are used -----

  /** Catching up uses exactly the opportunities that are due: all of those
      counted up to the new `used` are at or before `now`, and the next one, if
      the trace has not run out, is after it. */
  lemma {:induction false} UsesExactlyTheDueOnes(l: Link, now: nat)
    requires Ready(l) && now < NEVER
    ensures var c, c' := l.clock, CaughtUp(l, now).clock;
            && c' == c.(used := c'.used, next := c'.next, base := c'.base, finished := c'.finished)
            && (forall k | c.used <= k < c'.used :: OpportunityTime(c, k) <= now)
            && (if c'.finished then c'.used == |c.schedule| && !c.repeat else OpportunityTime(c, c'.used) > now)
    decreases Ahead(l.clock, now), |l.clock.schedule| - l.clock.next
  {
    hide OpportunityTime, CaughtUp, Use, Kept, Sendable;
    DueStep(l, now);
    if NextTime(l.clock) <= now {
      UseChanges(l.clock);
      UsesExactlyTheDueOnes(Opportunity(l), now);
    } else {
      NextIsUsed(l.clock);
    }
  }

  lemma NextIsUsed(c: Clock)
    requires Kept(c)
    ensures c.next < |c.schedule|
    ensures if c.finished then c.used == |c.schedule| && !c.repeat else NextTime(c) == OpportunityTime(c, c.used)
  {
    hide Slot, Pass, Times;
    if !c.finished { UseKeeps(c); }
  }

  /** The clock value the program computes next stays within one trace length of
      `now`, so far from the clock's end nothing wraps around 64 bits. */
  lemma {:induction false} StaysNearNow(l: Link, now: nat)
    requires Ready(l) && now < NEVER && l.clock.base <= now
    ensures var c := CaughtUp(l, now).clock;
            c.base <= now && (!c.finished ==> NextTime(c) <= now + Last(c.schedule))
    decreases Ahead(l.clock, now), |l.clock.schedule| - l.clock.next
  {
    hide Slot, Pass, Times, Send;
    DueStep(l, now);
    if NextTime(l.clock) <= now {
      UseChanges(l.clock);
      StaysNearNow(Opportunity(l), now);
    }
  }

  /** Catching up in two steps is catching up at once. */
  lemma {:induction false} CatchingUpComposes(l: Link, t1: nat, t2: nat)
    requires Ready(l) && t1 <= t2 < NEVER
    ensures CaughtUp(CaughtUp(l, t1), t2) == CaughtUp(l, t2)
    decreases Ahead(l.clock, t1), |l.clock.schedule| - l.clock.next
  {
    hide CaughtUp, Kept, Sendable, Use;
    DueStep(l, t1);
    if NextTime(l.clock) <= t1 {
      DueStep(l, t2);
      CatchingUpComposes(Opportunity(l), t1, t2);
    }
  }

  // ----- conservation and order -----

  function Packets(ds: seq<Departure>): (r: seq<Packet>)
    ensures |r| == |ds| && forall i | 0 <= i < |ds| :: r[i] == ds[i].packet
  {
    seq(|ds|, i requires 0 <= i < |ds| => ds[i].packet)
  }

  function InTransit(l: Link): seq<Packet> {
    if l.left > 0 then [l.transit] else []
  }

  /** Every packet the queue accepted, in the order the link handles them. */
  function Stream(l: Link): seq<Packet> {
    Packets(l.output) + InTransit(l) + l.queue
  }

  /** Bytes sent so far, the sent part of the packet in transit included. */
  function Sent(l: Link): int {
    Bytes(Packets(l.output)) + if l.left > 0 then |l.transit.contents| - l.left else 0
  }

  function Backlog(l: Link): nat {
    l.left + Bytes(l.queue)
  }

  lemma LoadKeeps(l: Link)
    requires Sendable(l) && !Idle(l) && Load(l).left > 0
    ensures var m := Load(l); Sendable(m) && Stream(m) == Stream(l) && Sent(m) == Sent(l) && Backlog(m) == Backlog(l)
  {
    if l.left == 0 {
      assert [l.queue[0]] + l.queue[1..] == l.queue;
      assert Packets(l.output) + [] + l.queue == Packets(l.output) + [l.queue[0]] + l.queue[1..];
    }
  }

  lemma TransmitKeeps(l: Link, amount: nat, time: nat)
    requires Sendable(l) && 0 < amount <= l.left
    ensures var m := Transmit(l, amount, time);
            Stream(m) == Stream(l) && Sent(m) == Sent(l) + amount && Backlog(m) == Backlog(l) - amount
  {
    if l.left == amount {
      var m := Transmit(l, amount, time);
      assert Packets(m.output) == Packets(l.output) + [l.transit];
      BytesConcat(Packets(l.output), [l.transit]);
      assert Stream(m) == Packets(l.output) + [l.transit] + [] + l.queue;
    }
  }

  /** A packet of no bytes goes out without being in transit. */
  lemma EmptyKeeps(l: Link, time: nat)
    requires Sendable(l) && !Idle(l) && Load(l).left == 0
    ensures var m := Transmit(Load(l), 0, time); Stream(m) == Stream(l) && Sent(m) == Sent(l) && Backlog(m) == Backlog(l)
  {
    var p, m := l.queue[0], Transmit(Load(l), 0, time);
    assert p.contents == [];
    assert Packets(m.output) == Packets(l.output) + [p];
    BytesConcat(Packets(l.output), [p]);
    assert [p] + l.queue[1..] == l.queue;
    assert Packets(l.output) + [] + l.queue == Packets(l.output) + [p] + [] + l.queue[1..];
  }

  lemma SomeKeeps(l: Link, bytes: nat, time: nat)
    requires Sendable(l) && !Idle(l) && bytes > 0
    ensures var m, amount := SendSome(l, bytes, time), Min(bytes, Load(l).left);
            && Stream(m) == Stream(l) && Sent(m) == Sent(l) + amount && Backlog(m) == Backlog(l) - amount
            && 0 <= amount <= Backlog(l)
  {
    hide Stream, Sent, Bytes;
    if Load(l).left > 0 {
      LoadKeeps(l);
      TransmitKeeps(Load(l), Min(bytes, Load(l).left), time);
    } else {
      EmptyKeeps(l, time);
    }
  }

  lemma IdleIsDone(l: Link)
    ensures Idle(l) ==> Backlog(l) == 0
  {
  }

  /** An opportunity loses no packet and no order, and wastes bytes only when
      nothing is left to send. */
  lemma {:induction false} SendConserves(l: Link, bytes: nat, time: nat)
    requires Sendable(l)
    ensures var r := Send(l, bytes, time);
            && Stream(r) == Stream(l)
            && Sent(r) == Sent(l) + Min(bytes, Backlog(l))
            && Backlog(r) == Backlog(l) - Min(bytes, Backlog(l))
    decreases bytes, |l.queue|
  {
    hide Stream, Sent, Backlog, Bytes, Send, SendSome;
    SendOnce(l, bytes, time);
    BacklogIsNat(l);
    IdleIsDone(l);
    if bytes > 0 && !Idle(l) {
      SomeKeeps(l, bytes, time);
      SendConserves(SendSome(l, bytes, time), bytes - Min(bytes, Load(l).left), time);
    }
  }

  lemma BacklogIsNat(l: Link)
    ensures Backlog(l) >= l.left
  {
  }

  /** Over any catch-up: what was accepted is still outputs, transit and queue
      in that order, and the bytes sent are as many as the opportunities carry
      or as were waiting, whichever is less. */
  lemma {:induction false} CatchingUpConserves(l: Link, now: nat)
    requires Ready(l) && now < NEVER
    ensures var r := CaughtUp(l, now);
            && Stream(r) == Stream(l)
            && Sent(r) == Sent(l) + Min(PACKET_SIZE * (r.clock.used - l.clock.used), Backlog(l))
            && Backlog(r) == Backlog(l) - Min(PACKET_SIZE * (r.clock.used - l.clock.used), Backlog(l))
    decreases Ahead(l.clock, now), |l.clock.schedule| - l.clock.next
  {
    hide Stream, Sent, Backlog, Send, Kept, CaughtUp, Sendable, Ahead;
    DueStep(l, now);
    if NextTime(l.clock) <= now {
      var l' := l.(clock := Use(l.clock));
      ClockOnly(l, Use(l.clock));
      SendConserves(l', PACKET_SIZE, NextTime(l.clock));
      CatchingUpConserves(Opportunity(l), now);
    }
  }

  lemma ClockOnly(l: Link, c: Clock)
    ensures var m := l.(clock := c);
            Stream(m) == Stream(l) && Sent(m) == Sent(l) && Backlog(m) == Backlog(l) && Sendable(m) == Sendable(l)
  {
  }

  /** Bytes sent decide which packets are out: a packet of at least one byte is out
      exactly when the stream up to its end has been sent. */
  lemma OutExactlyWhenSent(l: Link, i: nat)
    requires Sendable(l) && i < |Stream(l)|
    ensures i < |l.output| ==> Bytes(Stream(l)[..i + 1]) <= Sent(l)
    ensures Stream(l)[i].contents != [] && Bytes(Stream(l)[..i + 1]) <= Sent(l) ==> i < |l.output|
  {
    var out := Packets(l.output);
    if i < |l.output| {
      assert out == out[..i + 1] + out[i + 1..];
      BytesConcat(out[..i + 1], out[i + 1..]);
      assert Stream(l)[..i + 1] == out[..i + 1];
    } else {
      var rest, k := InTransit(l) + l.queue, i - |out|;
      assert Stream(l)[..i + 1] == out + rest[..k + 1] && Stream(l)[i] == rest[k];
      BytesConcat(out, rest[..k + 1]);
      FirstAndLast(rest, k);
    }
  }

  /** The bytes of a front of packets are at least those of its first and, behind
      that, of its last. */
  lemma FirstAndLast(ps: seq<Packet>, k: nat)
    requires k < |ps|
    ensures Bytes(ps[..k + 1]) >= |ps[0].contents| && Bytes(ps[..k + 1]) >= |ps[k].contents|
    ensures k > 0 ==> Bytes(ps[..k + 1]) >= |ps[0].contents| + |ps[k].contents|
  {
    var front := ps[..k + 1];
    assert front == [ps[0]] + front[1..];
    BytesConcat([ps[0]], front[1..]);
    if k > 0 {
      assert front[1..] == front[1..k] + [ps[k]];
      BytesConcat(front[1..k], [ps[k]]);
    }
    assert Bytes([ps[0]]) == |ps[0].contents| && Bytes([ps[k]]) == |ps[k].contents|;
  }

  // ----- departures -----

  /** No packet waiting arrived after the next opportunity, none left before it
      arrived, and departures are in order of time. */
  predicate OnTime(l: Link)
    requires l.clock.next < |l.clock.schedule|
  {
    Waiting(l, NextTime(l.clock)) && Ordered(l.output, NextTime(l.clock))
  }

  predicate Waiting(l: Link, time: nat) {
    (forall p | p in l.queue :: p.arrivalTime <= time) && (l.left > 0 ==> l.transit.arrivalTime <= time)
  }

  predicate Ordered(ds: seq<Departure>, time: nat) {
    && (forall i | 0 <= i < |ds| :: ds[i].packet.arrivalTime <= ds[i].time <= time)
    && (forall i, j | 0 <= i < j < |ds| :: ds[i].time <= ds[j].time)
  }

  lemma {:induction false} SendOnTime(l: Link, bytes: nat, time: nat)
    requires Sendable(l) && Waiting(l, time) && Ordered(l.output, time)
    ensures var r := Send(l, bytes, time); Waiting(r, time) && Ordered(r.output, time)
    decreases bytes, |l.queue|
  {
    if bytes > 0 && !Idle(l) { SendOnTime(SendSome(l, bytes, time), bytes - Min(bytes, Load(l).left), time); }
  }

  /** Every asserted `arrival_time <= this_delivery_time` holds, over any catch-up. */
  lemma {:induction false} CatchingUpOnTime(l: Link, now: nat)
    requires Ready(l) && now < NEVER && OnTime(l)
    ensures OnTime(CaughtUp(l, now))
    decreases Ahead(l.clock, now), |l.clock.schedule| - l.clock.next
  {
    hide OnTime, Kept, CaughtUp, Sendable, Ahead;
    DueStep(l, now);
    if NextTime(l.clock) <= now {
      OpportunityOnTime(l);
      CatchingUpOnTime(Opportunity(l), now);
    }
  }

  lemma OpportunityOnTime(l: Link)
    requires Ready(l) && !l.clock.finished && OnTime(l) && NextTime(l.clock) < NEVER
    ensures Waiting(l.(clock := Use(l.clock)), NextTime(l.clock)) && OnTime(Opportunity(l))
  {
    hide Send, Ordered, Waiting, Kept, Sendable, Stream, Sent, Backlog;
    NextInRange(l.clock);
    var l', m, time := l.(clock := Use(l.clock)), Opportunity(l), NextTime(l.clock);
    ClockOnly(l, Use(l.clock));
    WaitsLonger(l, l', time, time);
    SendOnTime(l', PACKET_SIZE, time);
    LaterTime(l.clock);
    WaitsLonger(m, m, time, NextTime(m.clock));
  }

  lemma LaterTime(c: Clock)
    requires Kept(c) && !c.finished && NextTime(c) < NEVER
    ensures Kept(Use(c)) && NextTime(c) <= NextTime(Use(c))
  {
    hide OpportunityTime, Slot, Pass, Times;
    UseKeeps(c);
    UseChanges(c);
    TimesNondecreasing(c, c.used, c.used + 1);
    NextIsUsed(Use(c));
  }

  lemma WaitsLonger(l: Link, m: Link, t1: nat, t2: nat)
    requires m == l.(clock := m.clock) && t1 <= t2 && Waiting(l, t1) && Ordered(l.output, t1)
    ensures Waiting(m, t2) && Ordered(m.output, t2)
  {
  }

  // ----- short packets -----

  /** No departure from number `from` on is too short to be recorded. */
  predicate Recordable(ds: seq<Departure>, from: nat) {
    forall i | from <= i < |ds| :: |ds[i].packet.contents| >= MIN_PACKET
  }

  lemma {:induction false} SendGrows(l: Link, bytes: nat, time: nat)
    requires Sendable(l)
    ensures l.output <= Send(l, bytes, time).output
    decreases bytes, |l.queue|
  {
    if bytes > 0 && !Idle(l) { SendGrows(SendSome(l, bytes, time), bytes - Min(bytes, Load(l).left), time); }
  }

  lemma {:induction false} CatchingUpGrows(l: Link, now: nat)
    requires Ready(l) && now < NEVER
    ensures l.output <= CaughtUp(l, now).output
    decreases Ahead(l.clock, now), |l.clock.schedule| - l.clock.next
  {
    hide Send, Kept, CaughtUp, Sendable, Ahead;
    DueStep(l, now);
    if NextTime(l.clock) <= now {
      OpportunityGrows(l);
      CatchingUpGrows(Opportunity(l), now);
    }
  }

  lemma OpportunityIs(l: Link)
    requires Ready(l) && !l.clock.finished
    ensures Opportunity(l) == Send(l.(clock := Use(l.clock)), PACKET_SIZE, NextTime(l.clock))
  {
    hide Send, Kept;
  }

  lemma OpportunityGrows(l: Link)
    requires Ready(l) && !l.clock.finished
    ensures l.output <= Opportunity(l).output
  {
    hide Send, Kept;
    NextInRange(l.clock);
    SendGrows(l.(clock := Use(l.clock)), PACKET_SIZE, NextTime(l.clock));
  }

  lemma NotRecordable(ds: seq<Departure>, more: seq<Departure>, from: nat)
    requires ds <= more
    ensures Recordable(more, from) ==> Recordable(ds, from)
  {
  }

  // ----- the object -----

  /** The lines of a trace file are numbers. */
  predicate AreNumbers(lines: seq<string>) {
    forall line | line in lines :: Text.Myatoi(line, 10).Some?
  }

  /** A line read as a 64-bit word. */
  function Number(line: string): nat
    requires Text.Myatoi(line, 10).Some?
  {
    Text.Myatoi(line, 10).value % U64
  }

  function Numbers(lines: seq<string>): (r: seq<nat>)
    requires AreNumbers(lines)
    ensures |r| == |lines|
  {
    seq(|lines|, i requires 0 <= i < |lines| => Number(lines[i]))
  }

  /** The schedule checks of the constructor, on the lines of a trace file: an
      empty line, a line that is no number, a time before the one in front of it, no
      line at all, or a last time of 0 is an exception. */
  method LoadSchedule(lines: seq<string>) returns (ok: bool, schedule: seq<nat>)
    ensures ok <==> AreNumbers(lines) && IsSchedule(Numbers(lines))
    ensures ok ==> schedule == Numbers(lines)
  {
    hide AreNumbers, Numbers, Sorted, Text.Myatoi;
    schedule := [];
    NoLines(lines);
    for i := 0 to |lines|
      invariant AreNumbers(lines[..i]) && schedule == Numbers(lines[..i]) && Sorted(schedule)
    {
      var line := lines[i];
      OneMoreLine(lines, i);
      AllLines(lines, i);
      if line == "" {
        assert Text.Myatoi(line, 10).None?;
        return false, schedule;  // invalid empty line
      }
      match Text.Myatoi(line, 10)
      case None => return false, schedule;
      case Some(n) =>
        var ms: nat := n % U64;
        if schedule != [] && ms < schedule[|schedule| - 1] {
          return false, schedule;  // timestamps must be monotonically nondecreasing
        }
        schedule := schedule + [ms];
    }
    assert lines[..|lines|] == lines;
    SortedMeans(schedule);
    ok := schedule != [] && schedule[|schedule| - 1] != 0;
  }

  lemma NoLines(lines: seq<string>)
    ensures AreNumbers(lines[..0]) && Numbers(lines[..0]) == [] && Sorted([])
  {
  }

  lemma SortedMeans(s: seq<nat>)
    requires Sorted(s)
    ensures IsSchedule(s) <==> s != [] && s[|s| - 1] != 0
  {
  }

  /** A line read: the numbers so far, if it is one, and whether they stay in order. */
  lemma OneMoreLine(lines: seq<string>, i: nat)
    requires i < |lines| && AreNumbers(lines[..i]) && Sorted(Numbers(lines[..i]))
    ensures AreNumbers(lines[..i + 1]) == Text.Myatoi(lines[i], 10).Some?
    ensures Text.Myatoi(lines[i], 10).Some? ==>
              var ns, n := Numbers(lines[..i]), Number(lines[i]);
              && Numbers(lines[..i + 1]) == ns + [n]
              && Sorted(ns + [n]) == (ns == [] || ns[|ns| - 1] <= n)
  {
    hide Text.Myatoi;
    assert lines[..i + 1] == lines[..i] + [lines[i]];
    if Text.Myatoi(lines[i], 10).Some? {
      var ns, n := Numbers(lines[..i]), Number(lines[i]);
      assert Numbers(lines[..i + 1]) == ns + [n];
      if ns != [] { assert (ns + [n])[|ns| - 1] == ns[|ns| - 1] && (ns + [n])[|ns|] == n; }
    }
  }

  /** What a trace that is accepted says of its first lines. */
  lemma AllLines(lines: seq<string>, i: nat)
    requires i < |lines|
    ensures AreNumbers(lines) ==> AreNumbers(lines[..i + 1])
    ensures AreNumbers(lines) && IsSchedule(Numbers(lines)) ==> Sorted(Numbers(lines[..i + 1]))
  {
    hide Text.Myatoi;
    if AreNumbers(lines) { assert Numbers(lines[..i + 1]) == Numbers(lines)[..i + 1]; }
  }

  class LinkQueue {
    var nextDelivery: nat
    const schedule: seq<nat>
    var baseTimestamp: nat
    const packetQueue: DroppingPacketQueue
    var packetInTransit: Packet
    var bytesLeft: nat
    /** Contents ready to be written, and the log of all departures. */
    var outputQueue: seq<seq<byte>>
    var log: seq<Departure>
    const repeat: bool
    var finished: bool

    ghost const start: nat
    ghost var used: nat
    /** Every packet the queue accepted, and how many were written. */
    ghost var accepted: seq<Packet>
    ghost var written: nat

    ghost function ClockValue(): Clock
      reads this
    {
      Clock(schedule, repeat, start, baseTimestamp, nextDelivery, finished, used)
    }

    ghost function Value(): Link
      reads this, packetQueue
    {
      Link(ClockValue(), packetQueue.packets, packetInTransit, bytesLeft, log)
    }

    /** Arrivals in, departures out: nothing lost, nothing reordered. */
    ghost predicate Valid()
      reads this, packetQueue
    {
      && packetQueue.Valid()
      && Ready(Value()) && OnTime(Value())
      && accepted == Stream(Value())
      && written <= |log| && outputQueue == Contents(log)[written..]
    }

    constructor (schedule: seq<nat>, repeat: bool, now: nat, queue: DroppingPacketQueue)
      requires IsSchedule(schedule) && queue.Valid() && queue.packets == []
      ensures Valid() && Value() == Link(Initial(schedule, repeat, now), [], Packet([], 0), 0, [])
      ensures packetQueue == queue && accepted == [] && written == 0
    {
      nextDelivery := 0;
      this.schedule := schedule;
      baseTimestamp := now;
      packetQueue := queue;
      packetInTransit := Packet([], 0);
      bytesLeft := 0;
      outputQueue, log := [], [];
      this.repeat := repeat;
      finished := false;
      start, used, accepted, written := now, 0, [], 0;
      new;
      hide Kept, Sendable, Stream, OnTime, Contents;
      StartsEmpty(schedule, repeat, now);
    }

    function NextDeliveryTime(): (t: nat)
      requires nextDelivery < |schedule|
      reads this
      ensures t == NextTime(ClockValue())
    {
      if finished then NEVER else schedule[nextDelivery] + baseTimestamp
    }

    method UseADeliveryOpportunity()
      requires Kept(ClockValue()) && !finished
      modifies `nextDelivery, `baseTimestamp, `finished, `used
      ensures ClockValue() == Use(old(ClockValue()))
    {
      nextDelivery := (nextDelivery + 1) % |schedule|;
      used := used + 1;
      if nextDelivery == 0 {
        if repeat {
          baseTimestamp := baseTimestamp + schedule[|schedule| - 1];
        } else {
          finished := true;
        }
      }
    }

    /** Emulate the link up to `now`; a departure that cannot be recorded is an
        exception. */
    method Rationalize(now: nat) returns (ok: bool)
      requires Valid() && now < NEVER
      modifies this, packetQueue
      ensures ok == Recordable(CaughtUp(old(Value()), now).output, |old(log)|)
      ensures ok ==> Valid() && Value() == CaughtUp(old(Value()), now)
      ensures accepted == old(accepted) && written == old(written) && (ok ==> old(log) <= log)
    {
      hide OnTime, Stream, Kept, Use, Sendable, CaughtUp, Ahead, Waiting, Recordable, Opportunity;
      ghost var l0, log0 := Value(), log;
      CatchingUpConserves(l0, now);
      DueStep(l0, now);
      assert Recordable(log, |log0|) by { NothingNew(log); }
      while NextDeliveryTime() <= now
        invariant packetQueue.Valid() && Ready(Value()) && nextDelivery < |schedule| && OnTime(Value())
        invariant CaughtUp(Value(), now) == CaughtUp(l0, now)
        invariant accepted == old(accepted) && written == old(written) <= |log|
        invariant log0 <= log && outputQueue == Contents(log)[written..] && Recordable(log, |log0|)
        decreases Ahead(ClockValue(), now), |schedule| - nextDelivery
      {
        ghost var l1 := Value();
        DueStep(l1, now);
        OpportunityOnTime(l1);
        ok := Deliver(|log0|);
        CatchingUpGrows(Opportunity(l1), now);
        NotRecordable(Opportunity(l1).output, CaughtUp(l0, now).output, |log0|);
        if !ok { return; }
        DueStep(Value(), now);
      }
      DueStep(Value(), now);
      return true;
    }

    /** Burn the next delivery opportunity: the outer loop of `rationalize`. */
    method Deliver(ghost from: nat) returns (ok: bool)
      requires packetQueue.Valid() && Ready(Value()) && nextDelivery < |schedule| && !finished && OnTime(Value())
      requires NextTime(ClockValue()) < NEVER
      requires written <= |log| && outputQueue == Contents(log)[written..] && from <= |log| && Recordable(log, from)
      modifies `nextDelivery, `baseTimestamp, `finished, `used, `packetInTransit, `bytesLeft, `outputQueue, `log, packetQueue
      ensures ok == Recordable(Opportunity(old(Value())).output, from)
      ensures ok ==> packetQueue.Valid() && Value() == Opportunity(old(Value()))
      ensures ok ==> old(log) <= log && written <= |log| && outputQueue == Contents(log)[written..]
    {
      hide OnTime, Kept, Use, Sendable, Waiting, Recordable, Opportunity, NextTime;
      ghost var l := Value();
      OpportunityOnTime(l);
      OpportunityIs(l);
      var thisDeliveryTime := NextDeliveryTime();
      UseADeliveryOpportunity();
      ClockOnly(l, ClockValue());
      ok := SendDelivery(thisDeliveryTime, from);
    }

    /** Spend one opportunity: the inner loop of `rationalize`. */
    method SendDelivery(thisDeliveryTime: nat, ghost from: nat) returns (ok: bool)
      requires packetQueue.Valid() && Sendable(Value()) && written <= |log| && outputQueue == Contents(log)[written..]
      requires Waiting(Value(), thisDeliveryTime) && from <= |log| && Recordable(log, from)
      modifies `packetInTransit, `bytesLeft, `outputQueue, `log, packetQueue
      ensures ok == Recordable(Send(old(Value()), PACKET_SIZE, thisDeliveryTime).output, from)
      ensures ok ==> packetQueue.Valid() && Value() == Send(old(Value()), PACKET_SIZE, thisDeliveryTime)
      ensures ok ==> old(log) <= log && written <= |log| && outputQueue == Contents(log)[written..]
    {
      hide Send, Sendable, Recordable;
      var bytesLeftInThisDelivery: nat := PACKET_SIZE;
      ghost var l0, log0 := Value(), log;
      while bytesLeftInThisDelivery > 0
        invariant packetQueue.Valid() && Sendable(Value()) && Waiting(Value(), thisDeliveryTime)
        invariant Send(Value(), bytesLeftInThisDelivery, thisDeliveryTime) == Send(l0, PACKET_SIZE, thisDeliveryTime)
        invariant log0 <= log && written <= |log| && outputQueue == Contents(log)[written..] && Recordable(log, from)
        decreases bytesLeftInThisDelivery, |packetQueue.packets|
      {
        ghost var l, m := Value(), Load(Value());
        SendOnce(l, bytesLeftInThisDelivery, thisDeliveryTime);
        if bytesLeft == 0 && packetQueue.Empty() {
          break;
        }
        LoadInPlace();
        assert packetInTransit.arrivalTime <= thisDeliveryTime;
        var amountToSend := if bytesLeftInThisDelivery < bytesLeft then bytesLeftInThisDelivery else bytesLeft;
        ghost var t := SendSome(l, bytesLeftInThisDelivery, thisDeliveryTime);
        SendGrows(t, bytesLeftInThisDelivery - amountToSend, thisDeliveryTime);
        NotRecordable(t.output, Send(l0, PACKET_SIZE, thisDeliveryTime).output, from);
        if bytesLeft == 0 {
          OneMoreDeparture(log, Departure(thisDeliveryTime, packetInTransit), from);
          return false;  // bytes left > 0 is asserted
        }
        assert 0 < bytesLeft <= PACKET_SIZE && bytesLeft <= |packetInTransit.contents| by { SentPart(m); }
        bytesLeftInThisDelivery := bytesLeftInThisDelivery - amountToSend;
        ok := TransmitInPlace(amountToSend, thisDeliveryTime, from);
        if !ok { return; }
      }
      if bytesLeftInThisDelivery == 0 {
        SendOnce(Value(), 0, thisDeliveryTime);
      }
      return true;
    }

    /** Take the next packet if none is in transit. */
    method LoadInPlace()
      requires packetQueue.Valid() && !Idle(Value())
      modifies `packetInTransit, `bytesLeft, packetQueue
      ensures packetQueue.Valid() && Value() == Load(old(Value()))
      ensures |packetQueue.packets| <= |old(packetQueue.packets)|
      ensures old(bytesLeft) == 0 ==> |packetQueue.packets| < |old(packetQueue.packets)|
    {
      if bytesLeft == 0 {
        packetInTransit := packetQueue.Dequeue();
        bytesLeft := |packetInTransit.contents|;
      }
    }

    /** Send bytes of the packet in transit; when none are left it is out. */
    method TransmitInPlace(amountToSend: nat, thisDeliveryTime: nat, ghost from: nat) returns (ok: bool)
      requires amountToSend <= bytesLeft && written <= |log| && outputQueue == Contents(log)[written..]
      requires Recordable(log, from) && from <= |log|
      modifies `bytesLeft, `outputQueue, `log
      ensures ok == Recordable(Transmit(old(Value()), amountToSend, thisDeliveryTime).output, from)
      ensures ok ==> Value() == Transmit(old(Value()), amountToSend, thisDeliveryTime)
      ensures ok ==> old(log) <= log && outputQueue == Contents(log)[written..]
    {
      hide Recordable;
      bytesLeft := bytesLeft - amountToSend;
      if bytesLeft == 0 {
        OneMoreDeparture(log, Departure(thisDeliveryTime, packetInTransit), from);
        if |packetInTransit.contents| < MIN_PACKET {
          return false;  // substr out of range
        }
        ContentsPush(log, Departure(thisDeliveryTime, packetInTransit));
        log := log + [Departure(thisDeliveryTime, packetInTransit)];
        outputQueue := outputQueue + [packetInTransit.contents];
      }
      return true;
    }

    /** `read_packet`: catch up, then offer the packet to the queue; a packet over
        1504 bytes is an exception, and so is a short one when it departs. */
    method ReadPacket(contents: seq<byte>, now: nat) returns (ok: bool)
      requires Valid() && now < NEVER
      modifies this, packetQueue
      ensures ok == (|contents| <= PACKET_SIZE && Recordable(CaughtUp(old(Value()), now).output, |old(log)|))
      ensures |contents| > PACKET_SIZE ==> Valid() && Value() == old(Value()) && accepted == old(accepted)
      ensures ok ==>
                Valid() && written == old(written) &&
                var l, p := CaughtUp(old(Value()), now), Packet(contents, now);
                var queue := Arrived(packetQueue.Limit(), l.queue, p);
                && Value() == l.(queue := queue)
                && accepted == if queue == l.queue then old(accepted) else old(accepted) + [p]
    {
      hide CaughtUp, Kept;
      if |contents| > PACKET_SIZE {
        return false;
      }
      ok := Rationalize(now);
      if !ok { return; }
      ghost var l := Value();
      packetQueue.Enqueue(Packet(contents, now));
      EnqueueKeeps(l, Packet(contents, now), packetQueue.packets);
      accepted := Stream(Value());
      return true;
    }

    /** `write_packets`: everything that is out, once. */
    method WritePackets() returns (sent: seq<seq<byte>>)
      requires Valid()
      modifies `outputQueue, `written
      ensures Valid() && Value() == old(Value()) && accepted == old(accepted)
      ensures outputQueue == [] && written == |log| && sent == Contents(log)[old(written)..]
    {
      hide OnTime, Kept, Sendable, Stream, Contents;
      sent := [];
      ghost var was := outputQueue;
      while outputQueue != []
        invariant sent + outputQueue == was
        invariant Value() == old(Value()) && accepted == old(accepted)
        decreases |outputQueue|
      {
        sent := sent + [outputQueue[0]];
        outputQueue := outputQueue[1..];
      }
      written := |log|;
    }

    /** `wait_time`: never 0, because catching up leaves the next opportunity
        after `now`. */
    method WaitTime(now: nat) returns (ok: bool, wait: int)
      requires Valid() && now < NEVER
      modifies this, packetQueue
      ensures ok == Recordable(CaughtUp(old(Value()), now).output, |old(log)|)
      ensures ok ==> Valid() && Value() == CaughtUp(old(Value()), now) && accepted == old(accepted)
      ensures ok ==> NextTime(Value().clock) > now && wait == (NextTime(Value().clock) - now) % U32
    {
      hide CaughtUp, Kept, OnTime, Stream, Sendable, Recordable;
      wait := 0;
      ok := Rationalize(now);
      if !ok { return; }
      DueStep(Value(), now);
      if NextDeliveryTime() > now {
        wait := (NextDeliveryTime() - now) % U32;
      }
    }
  }

  function Contents(ds: seq<Departure>): (r: seq<seq<byte>>)
    ensures |r| == |ds|
  {
    seq(|ds|, i requires 0 <= i < |ds| => ds[i].packet.contents)
  }

  lemma NothingNew(ds: seq<Departure>)
    ensures Recordable(ds, |ds|)
  {
  }

  lemma OneMoreDeparture(ds: seq<Departure>, d: Departure, from: nat)
    requires Recordable(ds, from) && from <= |ds|
    ensures Recordable(ds + [d], from) == (|d.packet.contents| >= MIN_PACKET)
  {
    assert (ds + [d])[|ds|] == d;
  }

  lemma ContentsPush(ds: seq<Departure>, d: Departure)
    ensures Contents(ds + [d]) == Contents(ds) + [d.packet.contents]
  {
  }

  lemma StartsEmpty(schedule: seq<nat>, repeat: bool, start: nat)
    requires IsSchedule(schedule)
    ensures var l := Link(Initial(schedule, repeat, start), [], Packet([], 0), 0, []);
            Ready(l) && OnTime(l) && Stream(l) == [] && Contents(l.output)[0..] == []
  {
    InitialKept(schedule, repeat, start);
  }

  lemma InitialKept(schedule: seq<nat>, repeat: bool, start: nat)
    requires IsSchedule(schedule)
    ensures Kept(Initial(schedule, repeat, start))
  {
    FirstPass(0, |schedule|);
  }

  /** A packet that joins the queue now waits for an opportunity after now. */
  lemma EnqueueKeeps(l: Link, p: Packet, queue: seq<Packet>)
    requires Ready(l) && OnTime(l) && p.arrivalTime <= NextTime(l.clock) && |p.contents| <= PACKET_SIZE
    requires queue == l.queue || queue == l.queue + [p]
    ensures var m := l.(queue := queue);
            Ready(m) && OnTime(m) && Stream(m) == if queue == l.queue then Stream(l) else Stream(l) + [p]
  {
    hide Kept;
  }
}
