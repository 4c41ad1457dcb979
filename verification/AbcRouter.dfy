/** The ABC router's queue (mahimahi/src/packet/cellular_packet_queue.cc): two
    sliding-window rate estimates feed a token bucket that decides which packets
    keep their accelerate mark. */
module AbcRouter {
  import opened Words
  import opened PacketQueue
  import opened Checksum

  // ----- sliding windows -----

  /** A deque of event times, with the events that have left it at the front:
      together they are every event ever recorded, the initial 0 first. */
  datatype Window = Window(gone: seq<nat>, deque: seq<nat>)

  const INITIAL: Window := Window([], [0])

  predicate Stale(w: Window, now: nat)
    requires w.deque != []
  {
    (now - w.deque[0]) % U32 > 20 && |w.deque| > 1 && now > w.deque[1]
  }

  function PopFront(w: Window): Window
    requires w.deque != []
  {
    Window(w.gone + [w.deque[0]], w.deque[1..])
  }

  /** The loop that drops old events from the front. */
  function Evict(w: Window, now: nat): (r: Window)
    requires w.deque != [] && now < U32
    ensures r.deque != [] && r.gone + r.deque == w.gone + w.deque
    decreases |w.deque|
  {
    if Stale(w, now) then Evict(PopFront(w), now) else w
  }

  /** Evict, then record the event. */
  function Record(w: Window, now: nat): (r: Window)
    requires w.deque != [] && now < U32
    ensures |r.deque| >= 2
  {
    var e := Evict(w, now);
    Window(e.gone, e.deque + [now])
  }

  /** Events are in order, what left is more than 20 ms old, and the front, once
      it is not the initial entry, is in the past. */
  predicate IsWindow(w: Window, now: nat) {
    && w.deque != [] && Sorted(w.deque) && w.deque[|w.deque| - 1] <= now
    && (forall i | 0 <= i < |w.gone| :: w.gone[i] + 20 < now)
    && (if w.gone == [] then w.deque[0] == 0 else w.deque[0] < now)
  }

  /** How many of the events are at `lo` or later. */
  function CountFrom(h: seq<nat>, lo: int): (n: nat)
    ensures n <= |h|
  {
    if h == [] then 0 else CountFrom(h[..|h| - 1], lo) + if h[|h| - 1] >= lo then 1 else 0
  }

  /** All recorded events at `lo` or later, whether or not still in the deque. */
  function Recorded(w: Window, lo: int): nat {
    CountFrom(w.gone + w.deque, lo)
  }

  lemma {:induction false} CountConcat(a: seq<nat>, b: seq<nat>, lo: int)
    ensures CountFrom(a + b, lo) == CountFrom(a, lo) + CountFrom(b, lo)
    decreases |b|
  {
    if b == [] {
      assert a + b == a;
    } else {
      assert (a + b)[..|a + b| - 1] == a + b[..|b| - 1];
      CountConcat(a, b[..|b| - 1], lo);
    }
  }

  lemma {:induction false} CountAll(h: seq<nat>, lo: int)
    ensures (forall i | 0 <= i < |h| :: h[i] >= lo) ==> CountFrom(h, lo) == |h|
    ensures (forall i | 0 <= i < |h| :: h[i] < lo) ==> CountFrom(h, lo) == 0
    decreases |h|
  {
    if h != [] { CountAll(h[..|h| - 1], lo); }
  }

  lemma {:induction false} EvictKeepsWindow(w: Window, last: nat, now: nat)
    requires IsWindow(w, last) && last <= now < U32
    ensures var r := Evict(w, now);
            IsWindow(r, now) && (r.deque[0] + 20 >= now || |r.deque| == 1 || r.deque[1] == now)
    decreases |w.deque|
  {
    if Stale(w, now) {
      EvictKeepsWindow(PopFront(w), now, now);
    }
  }

  /** The count of the deque itself, split at its front. */
  lemma DequeCounts(q: seq<nat>, now: nat)
    requires q != [] && Sorted(q) && q[|q| - 1] == now
    requires q[0] + 20 >= now || (|q| > 1 && q[1] == now)
    ensures CountFrom(q, now - 20) == if q[0] + 20 >= now then |q| else |q| - 1
    ensures q[0] < now ==> CountFrom(q, now) < |q|
    ensures q[0] + 20 < now ==> CountFrom(q, now) == |q| - 1
  {
    hide CountFrom;
    assert q == [q[0]] + q[1..];
    CountConcat([q[0]], q[1..], now - 20);
    CountConcat([q[0]], q[1..], now);
    CountAll([q[0]], now - 20);
    CountAll([q[0]], now);
    forall i | 0 <= i < |q[1..]|
      ensures q[1..][i] >= now - 20 && (q[0] + 20 < now ==> q[1..][i] == now)
    {
      assert q[0] <= q[i + 1] <= now && q[1] <= q[i + 1];
    }
    CountAll(q[1..], now - 20);
    CountAll(q[1..], now);
  }

  /** After recording an event, the deque's size less one is the number of all
      events of the last 20 ms, the initial entry included, less one if the front
      of the deque is among them; a stale front is followed only by events of now. */
  lemma WindowCounts(w: Window, last: nat, now: nat)
    requires IsWindow(w, last) && last <= now < U32
    ensures var r := Record(w, now); var stale := r.deque[0] + 20 < now;
            && IsWindow(r, now) && r.gone + r.deque == w.gone + w.deque + [now]
            && |r.deque| - 1 == Recorded(r, now - 20) - (if stale then 0 else 1)
            && (stale ==> |r.deque| - 1 == Recorded(r, now))
            && (!stale && r.deque[0] < now ==> Recorded(r, now) < Recorded(r, now - 20))
  {
    hide CountFrom, Evict;
    EvictKeepsWindow(w, last, now);
    var r := Record(w, now);
    CountConcat(r.gone, r.deque, now - 20);
    CountConcat(r.gone, r.deque, now);
    CountAll(r.gone, now - 20);
    CountAll(r.gone, now);
    DequeCounts(r.deque, now);
  }

  /** Recent dequeues never outnumber recent delivery opportunities. */
  ghost predicate Dominates(link: Window, dq: Window) {
    forall lo: int :: Recorded(dq, lo) <= Recorded(link, lo)
  }

  lemma DominanceKept(link: Window, dq: Window, link': Window, dq': Window, now: nat)
    requires Dominates(link, dq)
    requires link'.gone + link'.deque == link.gone + link.deque + [now]
    requires dq'.gone + dq'.deque == dq.gone + dq.deque + [now] || dq'.gone + dq'.deque == dq.gone + dq.deque
    ensures Dominates(link', dq')
  {
    forall lo: int
      ensures Recorded(dq', lo) <= Recorded(link', lo)
    {
      assert Recorded(dq, lo) <= Recorded(link, lo);
      CountConcat(dq.gone + dq.deque, [now], lo);
      CountConcat(link.gone + link.deque, [now], lo);
    }
  }

  /** The observed dequeue rate never exceeds the link capacity, although the two
      deques are fed by different events. */
  lemma DequeueRateWithinCapacity(link: Window, dq: Window, last: nat, now: nat)
    requires IsWindow(link, last) && IsWindow(dq, last) && Dominates(link, dq) && last <= now < U32
    ensures |Record(dq, now).deque| <= |Record(link, now).deque|
  {
    hide Record, Recorded;
    WindowCounts(link, last, now);
    WindowCounts(dq, last, now);
    var link', dq' := Record(link, now), Record(dq, now);
    DominanceKept(link, dq, link', dq', now);
    assert Recorded(dq', now - 20) <= Recorded(link', now - 20);
    assert Recorded(dq', now) <= Recorded(link', now);
  }

  // ----- the token bucket -----

  datatype Config = Config(qdelayRef: nat, delta: nat)

  const IDLE_CREDIT: real := 0.49
  const TOKEN_LIMIT: real := 5.0

  /** Events per millisecond over the 20 ms window. */
  function Rate(deque: seq<nat>): (r: real)
    requires deque != []
    ensures |deque| > 1 ==> r > 0.0
  {
    (|deque| - 1) as real / 20.0
  }

  /** The queueing delay a packet would see at the link's rate. */
  function QueueDelay(capacity: real, packets: nat): real
    requires capacity > 0.0
  {
    (packets + 1) as real / capacity
  }

  /** `target_rate_`: 98 percent of the dequeue rate, less what drains the delay
      in excess of the reference within `delta`. */
  function TargetRate(c: Config, capacity: real, dqRate: real, packets: nat): real
    requires capacity > 0.0 && c.delta > 0
  {
    0.98 * dqRate + (capacity / (c.delta as real)) * MinReal(0.0, c.qdelayRef as real - QueueDelay(capacity, packets))
  }

  /** The tokens earned by one dequeue. */
  function Credit(c: Config, capacity: real, dqRate: real, packets: nat): (r: real)
    requires capacity > 0.0 && dqRate > 0.0 && c.delta > 0
  {
    MinReal(1.0, MaxReal(0.0, (TargetRate(c, capacity, dqRate, packets) / dqRate) * 0.5))
  }

  /** Credit lies in [0, 0.49], and is full exactly when the link serves the queue
      and the packet in hand within the reference delay. */
  lemma CreditRange(c: Config, capacity: real, dqRate: real, packets: nat)
    requires capacity > 0.0 && dqRate > 0.0 && c.delta > 0
    ensures 0.0 <= Credit(c, capacity, dqRate, packets) <= IDLE_CREDIT
    ensures Credit(c, capacity, dqRate, packets) == IDLE_CREDIT <==> (packets + 1) as real <= c.qdelayRef as real * capacity
  {
    var credit := RawCredit(c, capacity, dqRate, packets);
    var excess := c.qdelayRef as real * capacity - (packets + 1) as real;
    Sign(2.0 * credit - 0.98, dqRate, c.delta as real);
  }

  lemma Sign(x: real, a: real, b: real)
    requires a > 0.0 && b > 0.0
    ensures a * b > 0.0 && (x * (a * b) <= 0.0 <==> x <= 0.0) && (x * (a * b) < 0.0 <==> x < 0.0)
  {
  }

  /** A credit falls short of 0.49 by half of `shortfall` for each unit of `work`. */
  predicate OnLine(credit: real, work: real, shortfall: real) {
    (2.0 * credit - 0.98) * work == shortfall
  }

  /** What the credit is before it is held to its range. */
  lemma RawCredit(c: Config, capacity: real, dqRate: real, packets: nat) returns (credit: real)
    requires capacity > 0.0 && dqRate > 0.0 && c.delta > 0
    ensures Credit(c, capacity, dqRate, packets) == MinReal(1.0, MaxReal(0.0, credit))
    ensures OnLine(credit, dqRate * c.delta as real, MinReal(0.0, c.qdelayRef as real * capacity - (packets + 1) as real))
  {
    hide TargetRate;
    var target := TargetRate(c, capacity, dqRate, packets);
    credit := target / dqRate * 0.5;
    Quotient(target, dqRate);
    TargetDrains(c, capacity, dqRate, packets);
    Associate(2.0 * credit - 0.98, dqRate, c.delta as real);
    assert (2.0 * credit - 0.98) * dqRate == target - 0.98 * dqRate;
  }

  /** At the target rate, what is in excess of the reference drains within `delta`. */
  lemma TargetDrains(c: Config, capacity: real, dqRate: real, packets: nat)
    requires capacity > 0.0 && c.delta > 0
    ensures (TargetRate(c, capacity, dqRate, packets) - 0.98 * dqRate) * c.delta as real
            == MinReal(0.0, c.qdelayRef as real * capacity - (packets + 1) as real)
  {
    var q, delta, p := c.qdelayRef as real, c.delta as real, (packets + 1) as real;
    var delay := p / capacity;
    Quotient(p, capacity);
    Quotient(capacity, delta);
    ScaledMin(capacity, q, delay, p);
    var e := MinReal(0.0, q - delay);
    GainTimes(capacity / delta, delta, capacity, e);
    var drain := TargetRate(c, capacity, dqRate, packets) - 0.98 * dqRate;
    assert drain == (capacity / delta) * e;
    assert drain * delta == capacity * e;
  }

  lemma Quotient(a: real, b: real)
    requires b > 0.0
    ensures (a / b) * b == a
  {
  }

  lemma GainTimes(gain: real, delta: real, capacity: real, e: real)
    requires gain * delta == capacity
    ensures (gain * e) * delta == capacity * e
  {
    Associate(e, gain, delta);
    assert gain * e == e * gain;
  }

  lemma Associate(x: real, a: real, b: real)
    ensures (x * a) * b == x * (a * b)
  {
  }

  lemma ScaledMin(capacity: real, q: real, delay: real, p: real)
    requires capacity > 0.0 && delay * capacity == p
    ensures capacity * MinReal(0.0, q - delay) == MinReal(0.0, q * capacity - p)
  {
    assert capacity * (q - delay) == q * capacity - delay * capacity;
  }

  /** A token spent: the packet keeps its accelerate mark. */
  predicate Spends(tokens: real) {
    tokens > 1.0
  }

  // ----- marking the IP header, which starts at byte 4 of a TUN frame -----

  const IP: nat := 4
  const TOS: nat := 5
  const CHECK: nat := 14

  function HeaderLength(contents: seq<byte>): nat
    requires |contents| > IP
  {
    ((contents[IP] as int) % 16) * 4
  }

  /** The check field and the header, as long as it says it is, lie in the frame. */
  predicate CanMark(contents: seq<byte>) {
    |contents| >= CHECK + 2 && IP + HeaderLength(contents) <= |contents|
  }

  /** The shortest header that holds the check field; an IPv4 header has 20 bytes. */
  const CHECKED: nat := 12

  function Ecn(contents: seq<byte>): nat
    requires |contents| > TOS
  {
    (contents[TOS] as int) % 4
  }

  const NOT_ECT: nat := 0
  const CE: nat := 3

  /** What the queue reads of a frame is there: the mark, and all it needs to
      change the mark of a frame that can carry one. */
  predicate IsFrame(contents: seq<byte>) {
    |contents| > TOS && (Ecn(contents) == NOT_ECT || CanMark(contents))
  }

  function Header(contents: seq<byte>): seq<byte>
    requires CanMark(contents)
  {
    contents[IP..IP + HeaderLength(contents)]
  }

  function SetCe(contents: seq<byte>): (r: seq<byte>)
    requires CanMark(contents)
    ensures CanMark(r) && |r| == |contents| && HeaderLength(r) == HeaderLength(contents)
  {
    contents[TOS := contents[TOS] / 4 * 4 + 3]
  }

  /** Set the mark to CE and make the checksum right again. */
  function Marked(contents: seq<byte>): (r: seq<byte>)
    requires CanMark(contents)
    ensures |r| == |contents|
  {
    var ce := SetCe(contents);
    Store(ce, CHECK, FOLD - OnesComplement(WordSum(Header(Store(ce, CHECK, 0)))))
  }

  /** A marked frame carries CE and a header, of as many 32-bit words as it says, whose
      checksum verifies, and differs from the original only in the ECN bits and the check
      field. */
  lemma MarkedVerifies(contents: seq<byte>)
    requires CanMark(contents)
    ensures var r := Marked(contents);
            && CanMark(r) && r[5] as int % 4 == CE && r[5] / 4 == contents[5] / 4
            && (forall i | 0 <= i < |r| && i != 5 && i != 14 && i != 15 :: r[i] == contents[i])
            && var words := r[4] as int % 16;
               4 + 4 * words <= |r| && (words >= 3 ==> FOLD - OnesComplement(WordSum(r[4..4 + 4 * words])) == 0)
  {
    hide OnesComplement, WordSum, SetCe, Store;
    var ce := SetCe(contents);
    StoreElsewhere(contents, 0);
    var check := FOLD - OnesComplement(WordSum(Header(Store(ce, CHECK, 0))));
    StoreElsewhere(contents, check);
    if HeaderLength(contents) >= CHECKED {
      HeaderStore(ce, 0);
      HeaderStore(ce, check);
      FilledHeaderVerifies(Header(ce), CHECK - IP);
    }
  }

  /** Where marking writes. */
  lemma StoreElsewhere(contents: seq<byte>, check: nat)
    requires CanMark(contents) && check < 65536
    ensures CanMark(Store(SetCe(contents), CHECK, 0)) && HeaderLength(Store(SetCe(contents), CHECK, 0)) == HeaderLength(contents)
    ensures var r := Store(SetCe(contents), CHECK, check);
            && CanMark(r) && HeaderLength(r) == HeaderLength(contents) && Ecn(r) == CE && r[TOS] / 4 == contents[TOS] / 4
            && forall i | 0 <= i < |r| && i != TOS && i != CHECK && i != CHECK + 1 :: r[i] == contents[i]
  {
  }

  lemma HeaderStore(contents: seq<byte>, value: nat)
    requires CanMark(contents) && HeaderLength(contents) >= CHECKED && value < 65536
    ensures CanMark(Store(contents, CHECK, value)) && Header(Store(contents, CHECK, value)) == Store(Header(contents), CHECK - IP, value)
  {
  }

  // ----- dequeue -----

  datatype State = State(packets: seq<Packet>, link: Window, dq: Window, tokens: real)

  /** The queue is empty: an opportunity passes, and a credit is earned. */
  function AfterIdle(s: State, now: nat): State {
    s.(link := Window(s.link.gone, s.link.deque + [now]), tokens := s.tokens + IDLE_CREDIT)
  }

  /** What a dequeue earns, after the windows have been brought up to now. */
  function Earned(c: Config, s: State, now: nat): real
    requires c.delta > 0 && s.packets != [] && now < U32 && s.link.deque != [] && s.dq.deque != []
  {
    Credit(c, Rate(Record(s.link, now).deque), Rate(Record(s.dq, now).deque), |s.packets| - 1)
  }

  /** What a dequeue earns, from the packets queued, the packet taken among them, and
      the events in both windows: the whole 0.49 exactly while the link's rate over the
      last 20 ms serves the queue within the reference delay; nothing exactly from the
      length on whose excess the credit cannot drain within `delta`; and in between as
      much as leaves, at half a packet for each token, the rate that drains the
      excess within `delta`. */
  lemma EarnedIs(c: Config, s: State, now: nat)
    requires c.delta > 0 && s.packets != [] && now < U32 && s.link.deque != [] && s.dq.deque != []
    ensures var opportunities, dequeues := |Record(s.link, now).deque| - 1, |Record(s.dq, now).deque| - 1;
            var earned, excess := Earned(c, s, now), 20 * |s.packets| - c.qdelayRef * opportunities;
            && 0.0 <= earned <= 0.49
            && (earned == 0.49 <==> excess <= 0)
            && (earned == 0.0 <==> 50 * excess >= 49 * c.delta * dequeues)
            && (earned > 0.0 && excess >= 0 ==>
                  (0.98 * dequeues as real / 20.0 - 2.0 * earned * dequeues as real / 20.0) * c.delta as real == excess as real / 20.0)
  {
    hide Record, Credit, MaxReal;
    var opportunities, dequeues := |Record(s.link, now).deque| - 1, |Record(s.dq, now).deque| - 1;
    var capacity, dqRate := opportunities as real / 20.0, dequeues as real / 20.0;
    var credit := RawCredit(c, capacity, dqRate, |s.packets| - 1);
    QueueInExcess(|s.packets|, c.qdelayRef, opportunities);
    var excess, m := 20 * |s.packets| - c.qdelayRef * opportunities, MinReal(0.0, c.qdelayRef as real * capacity - |s.packets| as real);
    assert |s.packets| - 1 + 1 == |s.packets|;
    assert m == MinReal(0.0, 0.0 - excess as real / 20.0);
    EarnedOf(credit, dequeues, c.delta, excess, m);
  }

  lemma QueueInExcess(packets: nat, q: nat, n: nat)
    ensures q as real * (n as real / 20.0) - packets as real == 0.0 - (20 * packets - q * n) as real / 20.0
  {
    assert (q * n) as real == q as real * n as real;
  }

  lemma EarnedOf(credit: real, dequeues: nat, delta: nat, excess: int, m: real)
    requires dequeues > 0 && delta > 0 && m == MinReal(0.0, 0.0 - excess as real / 20.0)
    requires OnLine(credit, dequeues as real / 20.0 * delta as real, m)
    ensures var earned := MinReal(1.0, MaxReal(0.0, credit));
            && 0.0 <= earned <= 0.49
            && (earned == 0.49 <==> excess <= 0)
            && (earned == 0.0 <==> 50 * excess >= 49 * delta * dequeues)
            && (earned > 0.0 && excess >= 0 ==>
                  (0.98 * dequeues as real / 20.0 - 2.0 * earned * dequeues as real / 20.0) * delta as real == excess as real / 20.0)
  {
    var dqRate := dequeues as real / 20.0;
    Work(delta, dequeues);
    Sign(2.0 * credit - 0.98, dqRate, delta as real);
    CreditLine(credit, dqRate, delta as real, m);
    Twentieths(credit, dequeues as real, delta as real);
  }

  lemma Twentieths(credit: real, n: real, delta: real)
    ensures (0.98 * n / 20.0 - 2.0 * credit * n / 20.0) * delta == (0.98 * (n / 20.0) - 2.0 * credit * (n / 20.0)) * delta
  {
    assert 0.98 * n / 20.0 == 0.98 * (n / 20.0);
    assert 2.0 * credit * n / 20.0 == 2.0 * credit * (n / 20.0);
  }

  lemma Work(delta: nat, n: nat)
    ensures (49 * delta * n) as real == 49.0 * (20.0 * (n as real / 20.0 * delta as real))
  {
    assert (delta * n) as real == delta as real * n as real;
    assert 49 * delta * n == 49 * (delta * n);
  }

  lemma CreditLine(credit: real, dqRate: real, delta: real, m: real)
    requires dqRate > 0.0 && delta > 0.0 && OnLine(credit, dqRate * delta, m)
    ensures dqRate * delta > 0.0 && (credit <= 0.0 <==> 0.98 * (dqRate * delta) + m <= 0.0)
    ensures (0.98 * dqRate - 2.0 * credit * dqRate) * delta == 0.0 - m
  {
    Sign(credit, dqRate, delta);
    assert 2.0 * (credit * (dqRate * delta)) == 0.98 * (dqRate * delta) + m;
    Associate(0.98 - 2.0 * credit, dqRate, delta);
    assert (0.98 - 2.0 * credit) * dqRate == 0.98 * dqRate - 2.0 * credit * dqRate;
  }

  /** The longer the queue, the less a dequeue earns. */
  lemma LongerEarnsLess(c: Config, s: State, r: State, now: nat)
    requires c.delta > 0 && s.packets != [] && now < U32 && s.link.deque != [] && s.dq.deque != []
    requires s.link == r.link && s.dq == r.dq && |s.packets| <= |r.packets|
    ensures Earned(c, r, now) <= Earned(c, s, now)
  {
    hide Record, Credit, Rate;
    var capacity, dqRate := Rate(Record(s.link, now).deque), Rate(Record(s.dq, now).deque);
    var x := RawCredit(c, capacity, dqRate, |s.packets| - 1);
    var y := RawCredit(c, capacity, dqRate, |r.packets| - 1);
    var reference := c.qdelayRef as real * capacity;
    PositiveProduct(dqRate, c.delta as real);
    Larger(x, y, dqRate * c.delta as real, MinReal(0.0, reference - |s.packets| as real), MinReal(0.0, reference - |r.packets| as real));
  }

  lemma PositiveProduct(a: real, b: real)
    requires a > 0.0 && b > 0.0
    ensures a * b > 0.0
  {
  }

  lemma Larger(x: real, y: real, work: real, m: real, n: real)
    requires work > 0.0 && OnLine(x, work, m) && OnLine(y, work, n) && n <= m
    ensures y <= x
  {
    assert (2.0 * y - 2.0 * x) * work == n - m;
  }

  /** The packet to send and the state after a dequeue from a queue with packets. */
  function AfterDequeue(c: Config, s: State, now: nat): (r: (seq<byte>, State))
    requires c.delta > 0 && s.packets != [] && IsFrame(s.packets[0].contents)
    requires now < U32 && s.link.deque != [] && s.dq.deque != []
  {
    var contents, rest := s.packets[0].contents, s.packets[1..];
    if Ecn(contents) == NOT_ECT then (contents, s.(packets := rest))
    else
      var tokens := s.tokens + Earned(c, s, now);
      var left := if Spends(tokens) && Ecn(contents) != CE then tokens - 1.0 else tokens;
      (if Spends(tokens) then contents else Marked(contents),
       State(rest, Record(s.link, now), Record(s.dq, now), MinReal(left, TOKEN_LIMIT)))
  }

  // ----- the budget over whole runs -----

  /** A packet arrives, or the link has an opportunity, at a 32-bit time. */
  datatype Op = Arrival(packet: Packet) | Opportunity(now: nat)

  predicate IsOp(op: Op) {
    match op case Arrival(p) => IsFrame(p.contents) case Opportunity(now) => now < U32
  }

  predicate IsState(s: State) {
    s.link.deque != [] && s.dq.deque != [] && forall p | p in s.packets :: IsFrame(p.contents)
  }

  function AfterOp(c: Config, l: Limits, s: State, op: Op): (r: State)
    requires c.delta > 0 && IsState(s) && IsOp(op)
    ensures IsState(r)
  {
    match op
    case Arrival(p) => s.(packets := Arrived(l, s.packets, p))
    case Opportunity(now) => if s.packets == [] then AfterIdle(s, now) else AfterDequeue(c, s, now).1
  }

  /** The credit an event earns. */
  function Income(c: Config, s: State, op: Op): real
    requires c.delta > 0 && IsState(s) && IsOp(op)
  {
    match op
    case Arrival(_) => 0.0
    case Opportunity(now) =>
      if s.packets == [] then IDLE_CREDIT else if Ecn(s.packets[0].contents) == NOT_ECT then 0.0 else Earned(c, s, now)
  }

  /** Whether it sends a packet that can carry a mark without CE. */
  predicate SendsUnmarked(c: Config, s: State, op: Op)
    requires c.delta > 0 && IsState(s) && IsOp(op)
  {
    op.Opportunity? && s.packets != [] && Ecn(s.packets[0].contents) != NOT_ECT
    && var sent := AfterDequeue(c, s, op.now).0; |sent| > TOS && Ecn(sent) != CE
  }

  /** One event: the bucket is never overdrawn, and after a decision at most five are
      left. A packet that can carry a mark leaves unmarked exactly when it came without
      CE and finds more than a token, and takes one with it. */
  lemma TokensPay(c: Config, l: Limits, s: State, op: Op)
    requires c.delta > 0 && IsState(s) && IsOp(op) && s.tokens >= 0.0
    ensures var r := AfterOp(c, l, s, op);
            && 0.0 <= Income(c, s, op) <= IDLE_CREDIT
            && 0.0 <= r.tokens <= s.tokens + Income(c, s, op) - (if SendsUnmarked(c, s, op) then 1.0 else 0.0)
            && (op.Opportunity? && s.packets != [] && Ecn(s.packets[0].contents) != NOT_ECT ==>
                  && (SendsUnmarked(c, s, op) <==> s.tokens + Income(c, s, op) > 1.0 && Ecn(s.packets[0].contents) != CE)
                  && r.tokens == MinReal(5.0, s.tokens + Income(c, s, op) - (if SendsUnmarked(c, s, op) then 1.0 else 0.0)))
            && (op.Opportunity? && s.packets == [] ==> r.tokens == s.tokens + 0.49)
  {
    hide Credit, Marked, Record, Arrived, Rate;
    if op.Opportunity? && s.packets != [] && Ecn(s.packets[0].contents) != NOT_ECT {
      var linkRate, dqRate := Rate(Record(s.link, op.now).deque), Rate(Record(s.dq, op.now).deque);
      CreditRange(c, linkRate, dqRate, |s.packets| - 1);
      MarkedVerifies(s.packets[0].contents);
    }
  }

  function RunOps(c: Config, l: Limits, s: State, ops: seq<Op>): (r: State)
    requires c.delta > 0 && IsState(s) && forall op | op in ops :: IsOp(op)
    ensures IsState(r)
    decreases |ops|
  {
    if ops == [] then s else RunOps(c, l, AfterOp(c, l, s, ops[0]), ops[1..])
  }

  function Incomes(c: Config, l: Limits, s: State, ops: seq<Op>): real
    requires c.delta > 0 && IsState(s) && forall op | op in ops :: IsOp(op)
    decreases |ops|
  {
    if ops == [] then 0.0 else Income(c, s, ops[0]) + Incomes(c, l, AfterOp(c, l, s, ops[0]), ops[1..])
  }

  function UnmarkedSent(c: Config, l: Limits, s: State, ops: seq<Op>): nat
    requires c.delta > 0 && IsState(s) && forall op | op in ops :: IsOp(op)
    decreases |ops|
  {
    if ops == [] then 0
    else (if SendsUnmarked(c, s, ops[0]) then 1 else 0) + UnmarkedSent(c, l, AfterOp(c, l, s, ops[0]), ops[1..])
  }

  /** Over every run of arrivals and opportunities, whatever the clock does: packets
      that leave unmarked number at most the tokens there were plus the credit
      earned, which is at most 0.49 for each event. */
  lemma {:induction false} UnmarkedWithinBudget(c: Config, l: Limits, s: State, ops: seq<Op>)
    requires c.delta > 0 && IsState(s) && s.tokens >= 0.0 && forall op | op in ops :: IsOp(op)
    ensures var r := RunOps(c, l, s, ops);
            && 0.0 <= r.tokens <= s.tokens + Incomes(c, l, s, ops) - UnmarkedSent(c, l, s, ops) as real
            && Incomes(c, l, s, ops) <= IDLE_CREDIT * |ops| as real
    decreases |ops|
  {
    hide AfterOp, Income, SendsUnmarked, IsState, IsOp;
    if ops != [] {
      TokensPay(c, l, s, ops[0]);
      UnmarkedWithinBudget(c, l, AfterOp(c, l, s, ops[0]), ops[1..]);
    }
  }

  /** From the start: at most 5 plus 0.49 for each event. */
  lemma {:induction false} BudgetFromTheStart(c: Config, l: Limits, ops: seq<Op>)
    requires c.delta > 0 && forall op | op in ops :: IsOp(op)
    ensures var s := State([], INITIAL, INITIAL, TOKEN_LIMIT);
            && UnmarkedSent(c, l, s, ops) as real <= 5.0 + Incomes(c, l, s, ops)
            && UnmarkedSent(c, l, s, ops) as real <= 5.0 + 0.49 * |ops| as real
  {
    hide RunOps, Incomes, UnmarkedSent, IsOp;
    UnmarkedWithinBudget(c, l, State([], INITIAL, INITIAL, TOKEN_LIMIT), ops);
  }

  // ----- what the windows hold -----

  /** The times an event records in the window of opportunities, and of dequeues. */
  function LinkTime(s: State, op: Op): seq<nat>
    requires IsState(s)
  {
    if op.Opportunity? && (s.packets == [] || Ecn(s.packets[0].contents) != NOT_ECT) then [op.now] else []
  }

  function DqTime(s: State, op: Op): seq<nat>
    requires IsState(s)
  {
    if op.Opportunity? && s.packets != [] && Ecn(s.packets[0].contents) != NOT_ECT then [op.now] else []
  }

  function LinkTimes(c: Config, l: Limits, s: State, ops: seq<Op>): seq<nat>
    requires c.delta > 0 && IsState(s) && forall op | op in ops :: IsOp(op)
    decreases |ops|
  {
    if ops == [] then [] else LinkTime(s, ops[0]) + LinkTimes(c, l, AfterOp(c, l, s, ops[0]), ops[1..])
  }

  function DqTimes(c: Config, l: Limits, s: State, ops: seq<Op>): seq<nat>
    requires c.delta > 0 && IsState(s) && forall op | op in ops :: IsOp(op)
    decreases |ops|
  {
    if ops == [] then [] else DqTime(s, ops[0]) + DqTimes(c, l, AfterOp(c, l, s, ops[0]), ops[1..])
  }

  /** Opportunities at times that do not go back. */
  predicate InOrder(ops: seq<Op>, last: nat)
    decreases |ops|
  {
    ops == [] || (match ops[0]
                  case Arrival(_) => InOrder(ops[1..], last)
                  case Opportunity(now) => last <= now && InOrder(ops[1..], now))
  }

  function LastTime(ops: seq<Op>, last: nat): nat
    decreases |ops|
  {
    if ops == [] then last else LastTime(ops[1..], if ops[0].Opportunity? then ops[0].now else last)
  }

  function Events(w: Window): seq<nat> {
    w.gone + w.deque
  }

  predicate Windows(s: State, last: nat) {
    IsWindow(s.link, last) && IsWindow(s.dq, last)
  }

  lemma IdleKeepsWindow(w: Window, last: nat, now: nat)
    requires IsWindow(w, last) && last <= now
    ensures IsWindow(w, now) && IsWindow(Window(w.gone, w.deque + [now]), now)
  {
  }

  lemma OpRecords(c: Config, l: Limits, s: State, op: Op, last: nat)
    requires c.delta > 0 && IsState(s) && IsOp(op) && Windows(s, last) && (op.Opportunity? ==> last <= op.now)
    ensures var r := AfterOp(c, l, s, op);
            && Events(r.link) == Events(s.link) + LinkTime(s, op) && Events(r.dq) == Events(s.dq) + DqTime(s, op)
            && Windows(r, if op.Opportunity? then op.now else last)
  {
    hide Record, Earned, Marked, Arrived, IsWindow;
    if op.Opportunity? {
      IdleKeepsWindow(s.link, last, op.now);
      IdleKeepsWindow(s.dq, last, op.now);
      if s.packets == [] {
        assert s.link.gone + (s.link.deque + [op.now]) == s.link.gone + s.link.deque + [op.now];
      } else if Ecn(s.packets[0].contents) != NOT_ECT {
        WindowCounts(s.link, last, op.now);
        WindowCounts(s.dq, last, op.now);
      }
    }
    assert Events(s.link) + [] == Events(s.link) && Events(s.dq) + [] == Events(s.dq);
  }

  /** Over every run with a clock in order: every opportunity has been recorded that
      found the queue empty or a packet that can carry a mark, and every dequeue of
      such a packet; nothing else has. */
  lemma {:induction false} WindowsHoldHistory(c: Config, l: Limits, s: State, ops: seq<Op>, last: nat)
    requires c.delta > 0 && IsState(s) && (forall op | op in ops :: IsOp(op)) && Windows(s, last) && InOrder(ops, last)
    ensures var r := RunOps(c, l, s, ops);
            && Events(r.link) == Events(s.link) + LinkTimes(c, l, s, ops) && Events(r.dq) == Events(s.dq) + DqTimes(c, l, s, ops)
            && Windows(r, LastTime(ops, last))
    decreases |ops|
  {
    hide AfterOp, LinkTime, DqTime, IsState, IsOp, Windows, Events;
    if ops == [] {
      assert Events(s.link) + [] == Events(s.link) && Events(s.dq) + [] == Events(s.dq);
    } else {
      OpRecords(c, l, s, ops[0], last);
      WindowsHoldHistory(c, l, AfterOp(c, l, s, ops[0]), ops[1..], if ops[0].Opportunity? then ops[0].now else last);
      Joined(Events(s.link), LinkTime(s, ops[0]), LinkTimes(c, l, AfterOp(c, l, s, ops[0]), ops[1..]));
      Joined(Events(s.dq), DqTime(s, ops[0]), DqTimes(c, l, AfterOp(c, l, s, ops[0]), ops[1..]));
    }
  }

  /** What a dequeue's rates stand for, from the start: the opportunities, and the
      dequeues, of the last 20 ms, or of this millisecond alone if the deque's front is
      older, and this dequeue among them; one less if the front is not older. */
  lemma {:induction false} RatesCountHistory(c: Config, l: Limits, ops: seq<Op>, now: nat)
    requires c.delta > 0 && (forall op | op in ops :: IsOp(op)) && InOrder(ops, 0) && LastTime(ops, 0) <= now < U32
    ensures var start := State([], INITIAL, INITIAL, TOKEN_LIMIT); var s := RunOps(c, l, start, ops);
            var links, dqs := [0] + LinkTimes(c, l, start, ops) + [now], [0] + DqTimes(c, l, start, ops) + [now];
            var link, dq := Record(s.link, now).deque, Record(s.dq, now).deque;
            && |link| - 1 == (if link[0] + 20 < now then CountFrom(links, now) else CountFrom(links, now - 20) - 1)
            && |dq| - 1 == (if dq[0] + 20 < now then CountFrom(dqs, now) else CountFrom(dqs, now - 20) - 1)
  {
    hide RunOps, LinkTimes, DqTimes, IsOp, Record, CountFrom, IsWindow;
    var start := State([], INITIAL, INITIAL, TOKEN_LIMIT);
    InitialWindow();
    WindowsHoldHistory(c, l, start, ops, 0);
    var s := RunOps(c, l, start, ops);
    WindowCounts(s.link, LastTime(ops, 0), now);
    WindowCounts(s.dq, LastTime(ops, 0), now);
    assert [] + [0] == [0];
  }

  lemma InitialWindow()
    ensures IsWindow(INITIAL, 0)
  {
  }

  // ----- the object -----

  class CELLULARPacketQueue {
    const queue: DroppingPacketQueue
    const qdelayRef: nat
    const delta: nat
    var dqQueue: seq<nat>
    var linkCapacityQueue: seq<nat>
    var tokens: real

    /** Events that have left the deques, the time of the last call, whether the
        times of all calls were in order so far, and the ledger of tokens: earned,
        spent on unmarked packets, lost to the limit. */
    ghost var dqGone: seq<nat>
    ghost var linkGone: seq<nat>
    ghost var last: nat
    ghost var inOrder: bool
    ghost var earned: real
    ghost var unmarked: nat
    ghost var lost: real

    function Cfg(): Config
      reads this
    {
      Config(qdelayRef, delta)
    }

    ghost function Value(): State
      reads this, queue
    {
      State(queue.packets, Window(linkGone, linkCapacityQueue), Window(dqGone, dqQueue), tokens)
    }

    /** Every token is accounted for; and while the clock has not gone back (or
        round its 32 bits), windows agree with history and dequeues never outnumber
        opportunities. */
    ghost predicate Valid()
      reads this, queue
    {
      && queue.Valid() && qdelayRef > 0 && delta > 0
      && dqQueue != [] && linkCapacityQueue != [] && Dominates(Value().link, Value().dq)
      && (inOrder ==> IsWindow(Value().link, last) && IsWindow(Value().dq, last))
      && tokens >= 0.0 && lost >= 0.0
      && tokens == TOKEN_LIMIT + earned - unmarked as real - lost
    }

    constructor (qdelayRef: nat, delta: nat, queue: DroppingPacketQueue)
      requires qdelayRef > 0 && delta > 0 && queue.Valid() && queue.packets == []
      ensures Valid() && this.queue == queue && Value() == State([], INITIAL, INITIAL, TOKEN_LIMIT)
      ensures last == 0 && inOrder && earned == 0.0 && unmarked == 0 && lost == 0.0
    {
      this.queue := queue;
      this.qdelayRef, this.delta := qdelayRef, delta;
      dqQueue, linkCapacityQueue := [0], [0];
      tokens := 5.0;
      dqGone, linkGone, last, inOrder := [], [], 0, true;
      earned, unmarked, lost := 0.0, 0, 0.0;
    }

    method Enqueue(p: Packet)
      requires Valid()
      modifies queue
      ensures Valid() && Value() == old(Value()).(packets := Arrived(queue.Limit(), old(queue.packets), p))
    {
      queue.Enqueue(p);
    }

    /** An opportunity with nothing to send. */
    method Idle(now: nat)
      requires Valid() && queue.packets == [] && now < U32
      modifies this
      ensures Valid() && last == now && inOrder == (old(inOrder) && old(last) <= now) && Value() == AfterIdle(old(Value()), now)
      ensures earned == old(earned) + IDLE_CREDIT && unmarked == old(unmarked) && lost == old(lost)
    {
      ghost var was := Value();
      linkCapacityQueue := linkCapacityQueue + [now];
      tokens := tokens + 0.49;
      inOrder, last, earned := inOrder && last <= now, now, earned + IDLE_CREDIT;
      assert linkGone + linkCapacityQueue == linkGone + was.link.deque + [now];
      DominanceKept(was.link, was.dq, Value().link, Value().dq, now);
    }

    method RecordOpportunity(now: nat)
      requires linkCapacityQueue != [] && now < U32
      modifies `linkCapacityQueue, `linkGone
      ensures Window(linkGone, linkCapacityQueue) == Record(old(Window(linkGone, linkCapacityQueue)), now)
    {
      while (now - linkCapacityQueue[0]) % U32 > 20 && |linkCapacityQueue| > 1 && now > linkCapacityQueue[1]
        invariant linkCapacityQueue != []
        invariant Evict(Window(linkGone, linkCapacityQueue), now) == Evict(old(Window(linkGone, linkCapacityQueue)), now)
        decreases |linkCapacityQueue|
      {
        linkGone := linkGone + [linkCapacityQueue[0]];
        linkCapacityQueue := linkCapacityQueue[1..];
      }
      linkCapacityQueue := linkCapacityQueue + [now];
    }

    method RecordDeparture(now: nat)
      requires dqQueue != [] && now < U32
      modifies `dqQueue, `dqGone
      ensures Window(dqGone, dqQueue) == Record(old(Window(dqGone, dqQueue)), now)
    {
      while (now - dqQueue[0]) % U32 > 20 && |dqQueue| > 1 && now > dqQueue[1]
        invariant dqQueue != []
        invariant Evict(Window(dqGone, dqQueue), now) == Evict(old(Window(dqGone, dqQueue)), now)
        decreases |dqQueue|
      {
        dqGone := dqGone + [dqQueue[0]];
        dqQueue := dqQueue[1..];
      }
      dqQueue := dqQueue + [now];
    }

    /** Bring both windows up to now. */
    method RecordDequeue(now: nat)
      requires Valid() && now < U32
      modifies `linkCapacityQueue, `linkGone, `dqQueue, `dqGone, `last, `inOrder
      ensures Valid() && last == now && inOrder == (old(inOrder) && old(last) <= now)
      ensures Value() == old(Value()).(link := Record(old(Value()).link, now), dq := Record(old(Value()).dq, now))
      ensures 2 <= |dqQueue| && 2 <= |linkCapacityQueue| && (inOrder ==> |dqQueue| <= |linkCapacityQueue|)
    {
      hide Record, Recorded, IsWindow, Dominates;
      BothRecorded(Value().link, Value().dq, last, now);
      RecordOpportunity(now);
      RecordDeparture(now);
      inOrder, last := inOrder && last <= now, now;
    }

    /** Decide the packet's mark with a bucket that has just earned `credit`. */
    method Decide(contents: seq<byte>, credit: real) returns (ret: seq<byte>)
      requires Valid() && CanMark(contents) && Ecn(contents) != NOT_ECT && 0.0 <= credit <= IDLE_CREDIT
      modifies `tokens, `earned, `unmarked, `lost
      ensures Valid() && 0.0 <= tokens <= TOKEN_LIMIT
      ensures var t := old(tokens) + credit;
              && ret == (if Spends(t) then contents else Marked(contents))
              && tokens == MinReal(if Spends(t) && Ecn(contents) != CE then t - 1.0 else t, TOKEN_LIMIT)
              && unmarked == old(unmarked) + (if Spends(t) && Ecn(contents) != CE then 1 else 0)
      ensures earned == old(earned) + credit && lost >= old(lost)
    {
      hide IsWindow, Dominates, OnesComplement, WordSum, SetCe;
      ret := contents;
      tokens := tokens + credit;
      earned := earned + credit;
      if tokens > 1.0 {
        if Ecn(ret) != CE {
          tokens := tokens - 1.0;
          unmarked := unmarked + 1;
        }
      } else {
        ret := SetCe(ret);
        ret := Store(ret, CHECK, 0);
        var check := InCksum(Header(ret));
        StoreTwice(SetCe(contents), check);
        ret := Store(ret, CHECK, check);
      }
      if tokens > TOKEN_LIMIT {
        lost := lost + (tokens - TOKEN_LIMIT);
        tokens := TOKEN_LIMIT;
      }
    }

    /** A dequeue from a queue with packets. A packet that is not ECN-capable
        passes untouched and unrecorded; any other either keeps its mark for one
        token or leaves with CE and a checksum that verifies. */
    method Dequeue(now: nat) returns (contents: seq<byte>)
      requires Valid() && queue.packets != [] && IsFrame(queue.packets[0].contents) && now < U32
      modifies this, queue
      ensures Valid() && (contents, Value()) == AfterDequeue(Cfg(), old(Value()), now)
      ensures Ecn(old(queue.packets)[0].contents) == NOT_ECT ==>
                tokens == old(tokens) && earned == old(earned) && unmarked == old(unmarked)
                && last == old(last) && inOrder == old(inOrder)
      ensures Ecn(old(queue.packets)[0].contents) != NOT_ECT ==>
                && |contents| > TOS && last == now && inOrder == (old(inOrder) && old(last) <= now) && 0.0 <= tokens <= TOKEN_LIMIT
                && earned == old(earned) + Earned(Cfg(), old(Value()), now)
                && unmarked == old(unmarked) + (if Ecn(contents) != CE then 1 else 0)
      ensures |contents| > TOS && (contents == old(queue.packets)[0].contents || Ecn(contents) == CE)
    {
      hide IsWindow, Dominates, Credit, Marked, CanMark, Record;
      var ret := queue.Dequeue();
      contents := ret.contents;
      if Ecn(contents) == NOT_ECT {
        return;
      }
      MarkedVerifies(contents);
      RecordDequeue(now);
      var linkCapacity, observedDqRate := Rate(linkCapacityQueue), Rate(dqQueue);
      var credit := Credit(Cfg(), linkCapacity, observedDqRate, queue.sizeInPackets);
      CreditRange(Cfg(), linkCapacity, observedDqRate, queue.sizeInPackets);
      contents := Decide(contents, credit);
    }
  }

  /** Recording a dequeue in both windows. */
  lemma BothRecorded(link: Window, dq: Window, last: nat, now: nat)
    requires link.deque != [] && dq.deque != [] && now < U32 && Dominates(link, dq)
    ensures var link', dq' := Record(link, now), Record(dq, now);
            && 2 <= |link'.deque| && 2 <= |dq'.deque| && Dominates(link', dq')
            && (IsWindow(link, last) && IsWindow(dq, last) && last <= now ==>
                  IsWindow(link', now) && IsWindow(dq', now) && |dq'.deque| <= |link'.deque|)
  {
    hide Record, Recorded, IsWindow, Dominates;
    if IsWindow(link, last) && IsWindow(dq, last) && last <= now {
      WindowCounts(link, last, now);
      WindowCounts(dq, last, now);
      DequeueRateWithinCapacity(link, dq, last, now);
    }
    RecordsAll(link, now);
    RecordsAll(dq, now);
    DominanceKept(link, dq, Record(link, now), Record(dq, now), now);
  }

  lemma RecordsAll(w: Window, now: nat)
    requires w.deque != [] && now < U32
    ensures var r := Record(w, now); r.gone + r.deque == w.gone + w.deque + [now]
  {
    hide Evict;
    var e := Evict(w, now);
    assert e.gone + (e.deque + [now]) == e.gone + e.deque + [now];
  }

  lemma StoreTwice(contents: seq<byte>, check: nat)
    requires CanMark(contents) && check < 65536
    ensures Store(Store(contents, CHECK, 0), CHECK, check) == Store(contents, CHECK, check)
  {
  }
}
