/** CUBIC growth beside the ABC window (tcp_abccubic.c): what each handler does to
    the connection, and what holds over every run of them. */
module Cubic {
  import opened Words
  import opened AbcEndpoint
  import CubeRoot

  /** Clock ticks per second, one per millisecond. */
  const HZ: nat := 1000
  const BETA: nat := 717
  const BETA_SCALE: nat := 15
  const CUBE_RTT_SCALE: nat := 410
  const CUBE_FACTOR: nat := 2681735677

  /** The fields of `struct bictcp` that the handlers use, and of the socket. */
  datatype Sock = Sock(
    cnt: nat, lastMaxCwnd: nat, lastCwnd: nat, lastTime: nat, origin: nat, k: nat, delayMin: nat,
    epochStart: nat, ackCnt: nat, tcpCwnd: nat, cubicCwnd: nat,
    window: Window, sndCwnd: nat, sndCwndCnt: nat, ssthresh: nat)

  // ----- the growth count -----

  /** `cwnd * scale >> 3`: how many ACKs let a Reno flow grow by one. */
  function FriendlyDelta(cwnd: nat): nat {
    Mul32(cwnd, BETA_SCALE) / 8
  }

  /** The friendliness loop: how often it goes round. */
  function Rounds(ackCnt: nat, delta: nat): nat
    requires delta > 0
  {
    if ackCnt == 0 then 0 else (ackCnt - 1) / delta
  }

  function Friendly(s: Sock, cwnd: nat): Sock
    requires FriendlyDelta(cwnd) > 0
  {
    var delta := FriendlyDelta(cwnd);
    var n := Rounds(s.ackCnt, delta);
    var tcp := Add32(s.tcpCwnd, n);
    var maxCnt := if tcp > cwnd then Div(cwnd, tcp - cwnd) else s.cnt;
    s.(ackCnt := s.ackCnt - Gone(s.ackCnt, delta), tcpCwnd := tcp, cnt := MinNat(s.cnt, maxCnt))
  }

  /** ACKs the loop uses up. */
  function Gone(ackCnt: nat, delta: nat): (r: nat)
    requires delta > 0
    ensures r <= ackCnt
  {
    RoundsFit(ackCnt, delta);
    Rounds(ackCnt, delta) * delta
  }

  lemma RoundsFit(ackCnt: nat, delta: nat)
    requires delta > 0
    ensures Rounds(ackCnt, delta) * delta <= ackCnt
    ensures ackCnt - Rounds(ackCnt, delta) * delta <= delta
  {
    if ackCnt > 0 {
      var q := (ackCnt - 1) / delta;
      assert ackCnt - 1 == q * delta + (ackCnt - 1) % delta;
    }
  }

  lemma OneRound(ackCnt: nat, delta: nat)
    requires 0 < delta < ackCnt
    ensures Rounds(ackCnt, delta) == Rounds(ackCnt - delta, delta) + 1
  {
    var q, r := (ackCnt - delta - 1) / delta, (ackCnt - delta - 1) % delta;
    assert ackCnt - 1 == (q + 1) * delta + r;
    DivModUnique(ackCnt - 1, delta, q + 1, r);
  }

  /** A new epoch starts where the last reduction left off. */
  function Epoch(s: Sock, cwnd: nat, acked: nat, now: nat): Sock
    requires cwnd < U32 && s.lastMaxCwnd < U32
  {
    var s1 := s.(lastCwnd := cwnd, lastTime := now);
    if s.epochStart != 0 then s1
    else s1.(epochStart := now, ackCnt := acked, tcpCwnd := cwnd,
             k := TimeToOrigin(s.lastMaxCwnd, cwnd), origin := MaxNat(s.lastMaxCwnd, cwnd))
  }

  /** K: how long the curve takes back to the old maximum, none if it is not above. */
  function TimeToOrigin(lastMax: nat, cwnd: nat): nat
    requires cwnd < U32 && lastMax < U32
  {
    if lastMax <= cwnd then 0
    else
      FactorFits(lastMax - cwnd);
      CubeRoot.CubicRoot(CUBE_FACTOR * (lastMax - cwnd))
  }

  lemma FactorFits(d: nat)
    requires d < U32
    ensures CUBE_FACTOR * d < U64
  {
  }

  /** Time since the epoch began plus the least delay, in 1/1024 seconds, in
      64-bit arithmetic. */
  function Elapsed(s: Sock, now: nat): nat {
    var t := (Signed(Sub32(now, s.epochStart)) + (s.delayMin / 8) * HZ / 1000) % U64;
    ((t * 1024) % U64) / HZ
  }

  /** `c/rtt * offs^3`, narrowed to 32 bits. */
  function CubicDelta(offs: nat): nat {
    (((CUBE_RTT_SCALE * offs * offs * offs) % U64) / 0x100_0000_0000) % U32
  }

  function Target(origin: nat, k: nat, t: nat): nat {
    if t < k then Sub32(origin, CubicDelta(k - t)) else Add32(origin, CubicDelta(t - k))
  }

  function Curve(s: Sock, cwnd: nat, now: nat): Sock {
    var target := Target(s.origin, s.k, Elapsed(s, now));
    var cnt := if target > cwnd then Div(cwnd, target - cwnd) else Mul32(100, cwnd);
    s.(cnt := if s.lastMaxCwnd == 0 && cnt > 20 then 20 else cnt)
  }

  /** `bictcp_update`. */
  function Update(s: Sock, cwnd: nat, acked: nat, now: nat): Sock
    requires cwnd < U32 && s.lastMaxCwnd < U32 && FriendlyDelta(cwnd) > 0
  {
    var s1 := s.(ackCnt := Add32(s.ackCnt, acked));
    if s.lastCwnd == cwnd && Signed(Sub32(now, s.lastTime)) <= HZ / 32 then s1
    else
      var s2 := if s.epochStart != 0 && now == s.lastTime then s1
                else Curve(Epoch(s1, cwnd, acked, now), cwnd, now);
      var s3 := Friendly(s2, cwnd);
      s3.(cnt := MaxNat(s3.cnt, 2))
  }

  // ----- the window -----

  /** `cubictcp_tcp_cong_avoid_ai`. */
  function CongAvoidAi(s: Sock, w: nat, acked: nat, clamp: nat): Sock
    requires w > 0
  {
    var s1 := if s.sndCwndCnt >= w then s.(sndCwndCnt := 0, cubicCwnd := Add32(s.cubicCwnd, 1)) else s;
    var c := Add32(s1.sndCwndCnt, acked);
    var cwnd := Add32(s1.cubicCwnd, Div(c, w));
    s1.(sndCwndCnt := Mod(c, w), cubicCwnd := MinNat(cwnd, clamp))
  }

  /** What `cubictcp_slow_start` uses of the ACKs. */
  function SlowStartUses(s: Sock, acked: nat): nat {
    Sub32(MinNat(Add32(s.cubicCwnd, acked), s.ssthresh), s.cubicCwnd)
  }

  function SlowStart(s: Sock, acked: nat, clamp: nat): Sock {
    s.(cubicCwnd := MinNat(MinNat(Add32(s.cubicCwnd, acked), s.ssthresh), clamp))
  }

  function InSlowStart(s: Sock): bool { s.cubicCwnd < s.ssthresh }

  /** What the kernel hands to the handlers. */
  datatype Link = Link(inFlight: nat, clamp: nat, maxPacketsOut: nat, cwndLimited: bool)

  function FlightBound(inFlight: nat): nat {
    Add32(Mul32(2, inFlight), 5)
  }

  function BoundByFlight(s: Sock, inFlight: nat): Sock {
    var cubic, loss := MinNat(s.cubicCwnd, FlightBound(inFlight)), MinNat(s.window.lossCwnd, FlightBound(inFlight));
    s.(cubicCwnd := cubic, window := s.window.(lossCwnd := loss), sndCwnd := MinNat(loss, cubic))
  }

  function WithSndCwnd(s: Sock): Sock {
    s.(sndCwnd := MinNat(s.window.lossCwnd, s.cubicCwnd))
  }

  function CwndLimited(s: Sock, l: Link): bool {
    if InSlowStart(s) then s.cubicCwnd < Mul32(2, l.maxPacketsOut) else l.cwndLimited
  }

  // ----- events -----

  datatype TcpState = Recovery | Loss | Cwr | Normal

  /** `SsthreshSet` and `DelaySample` stand for the kernel and for HyStart. */
  datatype Event =
    | InAck(ack: AckEvent)
    | CongControl(acked: nat, now: nat, link: Link)
    | SetState(state: TcpState, inFlight: nat)
    | TxStart(now: nat, lastSent: nat)
    | SsthreshSet(value: nat)
    | DelaySample(delay: nat, now: nat)

  /** The window never leaves this range, so nothing below wraps around. */
  const LIMIT: nat := 0x7FFF_FFFE

  /** The environment: counts fit a signed word, the clamp is at least 2. */
  predicate Sane(e: Event) {
    match e
    case InAck(a) => a.sndUna < U32 && a.rcvMss < U32
    case CongControl(acked, now, l) => acked < 0x8000_0000 && now < U32 && 2 <= l.clamp <= LIMIT && l.inFlight < LIMIT
    case SetState(_, inFlight) => inFlight < LIMIT
    case TxStart(now, lastSent) => now < U32 && lastSent < U32
    case SsthreshSet(v) => v < U32
    case DelaySample(d, now) => d < U32 && now < U32
  }

  /** At least two packets, and a growth count of at least two once it is used. */
  predicate Inv(s: Sock) {
    && 2 <= s.cubicCwnd <= LIMIT
    && (s.lastCwnd == 0 || s.cnt >= 2)
    && s.lastMaxCwnd < U32 && s.tcpCwnd < U32 && s.window.lossCwnd < U32 && s.window.aiCwnd < U32
  }

  function Init(sndUna: nat, sndCwnd: nat, ssthresh: nat): Sock {
    Sock(0, 0, 0, 0, 0, 0, 0, 0, 0, 0, 10, Window(sndCwnd, 0, sndUna), sndCwnd, 0, ssthresh)
  }

  function Reset(s: Sock): Sock {
    s.(cnt := 0, lastMaxCwnd := 0, lastCwnd := 0, lastTime := 0, origin := 0, k := 0, delayMin := 0,
       epochStart := 0, ackCnt := 0, tcpCwnd := 0)
  }

  /** `bictcp_recalc_ssthresh`. */
  function Reduce(s: Sock, inFlight: nat): Sock {
    var cubic := MaxNat(Mul32(s.cubicCwnd, BETA) / 1024, 2);
    BoundByFlight(s.(epochStart := 0,
                     lastMaxCwnd := if s.cubicCwnd < s.lastMaxCwnd then Mul32(s.cubicCwnd, 1024 + BETA) / 2048 else s.cubicCwnd,
                     cubicCwnd := cubic, ssthresh := cubic), inFlight)
  }

  function OnTxStart(s: Sock, now: nat, lastSent: nat): Sock {
    var delta := Signed(Sub32(now, lastSent));
    if s.epochStart == 0 || delta <= 0 then s
    else
      var epoch := Add32(s.epochStart, delta);
      s.(epochStart := if Signed(Sub32(now, epoch)) < 0 then now else epoch)
  }

  function OnDelay(s: Sock, delay: nat, now: nat): Sock {
    if s.epochStart != 0 && Signed(Sub32(now, s.epochStart)) < HZ then s
    else
      var d := MaxNat(delay, 1);
      if s.delayMin == 0 || s.delayMin > d then s.(delayMin := d) else s
  }

  /** `bictcp_cong_avoid`. */
  function OnCongControl(s: Sock, acked: nat, now: nat, l: Link): Sock
    requires Inv(s) && Sane(CongControl(acked, now, l))
  {
    if !CwndLimited(s, l) then s
    else
      var slow := InSlowStart(s);
      var s1 := if slow then WithSndCwnd(SlowStart(s, acked, l.clamp)) else s;
      var left := if slow then Sub32(acked, SlowStartUses(s, acked)) else acked;
      if slow && left == 0 then s1
      else
        SlowStartKeeps(s, acked, l.clamp);
        DeltaPositive(s1.cubicCwnd);
        var s2 := Update(s1, s1.cubicCwnd, left, now);
        UpdateKeeps(s1, left, now);
        BoundByFlight(CongAvoidAi(s2, s2.cnt, left, l.clamp), l.inFlight)
  }

  lemma DeltaPositive(cwnd: nat)
    requires 2 <= cwnd <= LIMIT
    ensures FriendlyDelta(cwnd) > 0
  {
    var q, r := cwnd * BETA_SCALE / U32, cwnd * BETA_SCALE % U32;
    assert cwnd * BETA_SCALE == q * U32 + r;
    assert q <= 7;
  }

  /** How far that reaches: the first window for which the step wraps to nothing,
      and the loop would not end, is beyond two thousand million packets. */
  lemma FirstStall(cwnd: nat)
    ensures 1 <= cwnd < 2290649225 ==> FriendlyDelta(cwnd) > 0
    ensures FriendlyDelta(2290649225) == 0
  {
    if 1 <= cwnd < 2290649225 {
      var q, r := cwnd * BETA_SCALE / U32, cwnd * BETA_SCALE % U32;
      assert cwnd * BETA_SCALE == q * U32 + r;
      assert q <= 8;
    }
  }

  lemma SlowStartKeeps(s: Sock, acked: nat, clamp: nat)
    requires Inv(s) && acked < 0x8000_0000 && 2 <= clamp <= LIMIT
    ensures InSlowStart(s) ==> Inv(WithSndCwnd(SlowStart(s, acked, clamp)))
    ensures InSlowStart(s) ==>
              && SlowStartUses(s, acked) <= acked
              && Sub32(acked, SlowStartUses(s, acked)) == acked - SlowStartUses(s, acked)
              && SlowStart(s, acked, clamp).cubicCwnd <= s.cubicCwnd + SlowStartUses(s, acked)
  {
  }

  /** After an update the growth count is at least 2, so dividing by it is safe,
      and the windows are untouched. */
  lemma UpdateKeeps(s: Sock, acked: nat, now: nat)
    requires Inv(s) && FriendlyDelta(s.cubicCwnd) > 0
    ensures var r := Update(s, s.cubicCwnd, acked, now);
            && r.cnt >= 2 && Inv(r) && r.cubicCwnd == s.cubicCwnd
            && r.sndCwndCnt == s.sndCwndCnt && r.window == s.window && r.sndCwnd == s.sndCwnd && r.ssthresh == s.ssthresh
            && r.delayMin == s.delayMin
  {
    hide Curve, Elapsed, Target, CubicDelta, FriendlyDelta, Rounds, Gone;
    CurveKeeps(s, acked, now);
  }

  lemma CurveKeeps(s: Sock, acked: nat, now: nat)
    requires Inv(s)
    ensures var e := Epoch(s.(ackCnt := Add32(s.ackCnt, acked)), s.cubicCwnd, acked, now);
            var r := Curve(e, s.cubicCwnd, now);
            r == s.(cnt := r.cnt, lastCwnd := r.lastCwnd, lastTime := r.lastTime, origin := r.origin, k := r.k,
                    epochStart := r.epochStart, ackCnt := r.ackCnt, tcpCwnd := r.tcpCwnd)
  {
    hide Elapsed, Target, CubicDelta;
  }

  function Step(s: Sock, e: Event): Sock
    requires Inv(s) && Sane(e)
  {
    match e
    case InAck(a) =>
      var w := OnAck(s.window, a);
      if AckedBytes(s.window, a) == 0 then s else s.(window := w, sndCwnd := MinNat(w.lossCwnd, s.cubicCwnd))
    case CongControl(acked, now, l) => OnCongControl(s, acked, now, l)
    case SetState(st, inFlight) =>
      (match st case Recovery => Reduce(s, inFlight) case Loss => Reset(s) case _ => s)
    case TxStart(now, lastSent) => OnTxStart(s, now, lastSent)
    case SsthreshSet(v) => s.(ssthresh := v)
    case DelaySample(d, now) => OnDelay(s, d, now)
  }

  // ----- friendliness and reduction -----

  /** The friendliness loop conserves ACKs: those gone are whole steps of the
      Reno estimate, and at most one step is left over; and the count it leaves, before
      that is held to at least 2, makes CUBIC no slower than that estimate. */
  lemma FriendlinessConserves(s: Sock, cwnd: nat)
    requires FriendlyDelta(cwnd) > 0 && s.tcpCwnd + s.ackCnt < U32
    ensures var r, delta := Friendly(s, cwnd), FriendlyDelta(cwnd);
            && r.tcpCwnd >= s.tcpCwnd && (r.tcpCwnd - s.tcpCwnd) * delta + r.ackCnt == s.ackCnt
            && r.ackCnt <= delta && (s.ackCnt > 0 ==> r.ackCnt > 0)
            && (r.tcpCwnd > cwnd ==> r.cnt * (r.tcpCwnd - cwnd) <= cwnd)
  {
    hide FriendlyDelta, Rounds;
    var delta := FriendlyDelta(cwnd);
    RoundsFit(s.ackCnt, delta);
    RoundsLeave(s.ackCnt, delta);
    var tcp := Add32(s.tcpCwnd, Rounds(s.ackCnt, delta));
    if tcp > cwnd { DivFits(cwnd, tcp - cwnd, Friendly(s, cwnd).cnt); }
  }

  lemma RoundsLeave(ackCnt: nat, delta: nat)
    requires delta > 0
    ensures Rounds(ackCnt, delta) <= ackCnt && (ackCnt > 0 ==> Rounds(ackCnt, delta) * delta < ackCnt)
  {
    if ackCnt > 0 {
      var q := (ackCnt - 1) / delta;
      assert ackCnt - 1 == q * delta + (ackCnt - 1) % delta;
      ProductMonotone(1, delta, q);
    }
  }

  lemma DivFits(a: nat, b: nat, c: nat)
    requires b > 0 && c <= Div(a, b)
    ensures c * b <= a
  {
    assert a == (a / b) * b + a % b;
    ProductMonotone(c, a / b, b);
  }

  /** After an update that is not too soon the count is 2, the least there is, or
      makes CUBIC no slower than the estimate. */
  lemma NoSlowerThanReno(s: Sock, acked: nat, now: nat)
    requires Inv(s) && FriendlyDelta(s.cubicCwnd) > 0
    requires !(s.lastCwnd == s.cubicCwnd && Signed(Sub32(now, s.lastTime)) <= HZ / 32)
    ensures var u := Update(s, s.cubicCwnd, acked, now);
            u.tcpCwnd > s.cubicCwnd ==> u.cnt == 2 || u.cnt * (u.tcpCwnd - s.cubicCwnd) <= s.cubicCwnd
  {
    hide Curve, Epoch, FriendlyDelta, Rounds, Gone, Div;
    var cwnd := s.cubicCwnd;
    var u := Update(s, cwnd, acked, now);
    if u.tcpCwnd > cwnd && u.cnt != 2 { DivFits(cwnd, u.tcpCwnd - cwnd, u.cnt); }
  }

  /** A reduction sets the threshold to 717/1024 of the window, but not below 2, ends
      the epoch, and remembers a maximum no higher than the window was: 1741/2048 of
      it when the last maximum was not reached. Each is so exactly when the 32-bit
      product does not wrap around; the window is held to the flight besides. */
  lemma ReductionIsMultiplicative(s: Sock, inFlight: nat)
    requires Inv(s) && inFlight < LIMIT
    ensures var r := Reduce(s, inFlight);
            && 2 <= r.cubicCwnd <= r.ssthresh && r.epochStart == 0 && r.lastMaxCwnd <= s.cubicCwnd
            && r.cubicCwnd == MinNat(r.ssthresh, FlightBound(inFlight))
            && (r.ssthresh == MaxNat(s.cubicCwnd * BETA / 1024, 2) <==> s.cubicCwnd * BETA < U32)
            && (if s.cubicCwnd < s.lastMaxCwnd
                then r.lastMaxCwnd == s.cubicCwnd * (1024 + BETA) / 2048 <==> s.cubicCwnd * (1024 + BETA) < U32
                else r.lastMaxCwnd == s.cubicCwnd)
  {
    Narrowed(s.cubicCwnd * BETA);
    Narrowed(s.cubicCwnd * (1024 + BETA));
  }

  lemma Narrowed(x: nat)
    ensures (x % U32) / 1024 <= x / 1024 && ((x % U32) / 1024 == x / 1024 <==> x < U32)
    ensures (x % U32) / 2048 <= x / 2048 && ((x % U32) / 2048 == x / 2048 <==> x < U32)
    ensures x >= U32 ==> x / 1024 > 2
  {
  }

  /** The first window whose product wraps: 5990192 packets become 2. */
  lemma ReductionCanCollapse(s: Sock, inFlight: nat)
    requires Inv(s) && inFlight < LIMIT
    ensures s.cubicCwnd == 5990192 ==> Reduce(s, inFlight).ssthresh == 2 && Reduce(s, inFlight).cubicCwnd == 2
    ensures s.cubicCwnd < 5990192 ==> s.cubicCwnd * BETA < U32
  {
  }

  // ----- every run is safe -----

  lemma AiKeeps(s: Sock, w: nat, acked: nat, clamp: nat)
    requires Inv(s) && w >= 2 && acked < 0x8000_0000 && 2 <= clamp <= LIMIT
    ensures var r := CongAvoidAi(s, w, acked, clamp);
            Inv(r) && r.window == s.window && r.delayMin == s.delayMin && 2 * r.cubicCwnd + r.sndCwndCnt <= 2 * s.cubicCwnd + s.sndCwndCnt + acked
  {
    hide Div, Mod;
    var s1 := if s.sndCwndCnt >= w then s.(sndCwndCnt := 0, cubicCwnd := Add32(s.cubicCwnd, 1)) else s;
    CreditSpent(Add32(s1.sndCwndCnt, acked), w);
  }

  /** Turning saved ACKs into packets, `w >= 2` for one, gains no credit. */
  lemma CreditSpent(c: nat, w: nat)
    requires w >= 2
    ensures 2 * Div(c, w) + Mod(c, w) <= c
  {
    assert c == (c / w) * w + c % w;
    ProductMonotone(2, w, c / w);
  }

  lemma FlightKeeps(s: Sock, inFlight: nat)
    requires Inv(s) && inFlight < LIMIT
    ensures var r := BoundByFlight(s, inFlight);
            && Inv(r) && r.sndCwnd == MinNat(r.window.lossCwnd, r.cubicCwnd)
            && r.cubicCwnd <= s.cubicCwnd && r.sndCwndCnt == s.sndCwndCnt && r.delayMin == s.delayMin
  {
  }

  lemma WindowKeeps(w: Window, e: AckEvent)
    requires w.lossCwnd < U32 && w.aiCwnd < U32
    ensures OnAck(w, e).lossCwnd < U32 && OnAck(w, e).aiCwnd < U32
  {
  }

  lemma ControlKeeps(s: Sock, acked: nat, now: nat, l: Link)
    requires Inv(s) && Sane(CongControl(acked, now, l))
    ensures var r := OnCongControl(s, acked, now, l);
            Inv(r) && (r == s || Synced(r)) && r.delayMin == s.delayMin
            && Potential(r) <= Potential(s) + (if InSlowStart(s) then 2 * acked else acked)
  {
    hide Update, CongAvoidAi, BoundByFlight, FlightBound, FriendlyDelta;
    if CwndLimited(s, l) {
      SlowStartKeeps(s, acked, l.clamp);
      var slow := InSlowStart(s);
      var s1 := if slow then WithSndCwnd(SlowStart(s, acked, l.clamp)) else s;
      var left := if slow then Sub32(acked, SlowStartUses(s, acked)) else acked;
      if !(slow && left == 0) {
        DeltaPositive(s1.cubicCwnd);
        UpdateKeeps(s1, left, now);
        var s2 := Update(s1, s1.cubicCwnd, left, now);
        AiKeeps(s2, s2.cnt, left, l.clamp);
        FlightKeeps(CongAvoidAi(s2, s2.cnt, left, l.clamp), l.inFlight);
      }
    }
  }

  /** Two per packet of window, one per ACK saved up towards the next. */
  function Potential(s: Sock): nat { 2 * s.cubicCwnd + s.sndCwndCnt }

  lemma ReduceKeeps(s: Sock, inFlight: nat)
    requires Inv(s) && inFlight < LIMIT
    ensures var r := Reduce(s, inFlight);
            Inv(r) && Synced(r) && r.delayMin == s.delayMin && Potential(r) <= Potential(s)
  {
    var m := Mul32(s.cubicCwnd, BETA);
    assert m <= s.cubicCwnd * BETA;
    assert m / 1024 <= s.cubicCwnd;
  }

  /** Growth credit of an event: two per ACK in slow start, one per ACK after it. */
  function Credit(s: Sock, e: Event): nat {
    match e
    case CongControl(acked, _, _) => if InSlowStart(s) then 2 * acked else acked
    case _ => 0
  }

  /** The send window is the smaller of the two windows. */
  predicate Synced(s: Sock) {
    s.sndCwnd == MinNat(s.window.lossCwnd, s.cubicCwnd)
  }

  predicate SameWindows(s: Sock, r: Sock) {
    r.window.lossCwnd == s.window.lossCwnd && r.cubicCwnd == s.cubicCwnd && r.sndCwnd == s.sndCwnd
  }

  /** One handler: the invariant holds again, the send window is the smaller of the
      two windows or no window was touched, and it grows by no more than the ACKs
      allow. */
  lemma StepKeeps(s: Sock, e: Event)
    requires Inv(s) && Sane(e)
    ensures Inv(Step(s, e)) && (Synced(Step(s, e)) || SameWindows(s, Step(s, e)))
    ensures Potential(Step(s, e)) <= Potential(s) + Credit(s, e)
  {
    hide OnCongControl, Reduce, OnAck, OnTxStart, OnDelay;
    match e
    case InAck(a) => WindowKeeps(s.window, a);
    case CongControl(acked, now, l) => ControlKeeps(s, acked, now, l);
    case SetState(st, inFlight) => ReduceKeeps(s, inFlight);
    case TxStart(now, lastSent) => TxKeeps(s, now, lastSent);
    case SsthreshSet(_) =>
    case DelaySample(d, now) => DelayKeeps(s, d, now);
  }

  lemma TxKeeps(s: Sock, now: nat, lastSent: nat)
    ensures OnTxStart(s, now, lastSent) == s.(epochStart := OnTxStart(s, now, lastSent).epochStart)
  {
  }

  lemma DelayKeeps(s: Sock, delay: nat, now: nat)
    ensures OnDelay(s, delay, now) == s.(delayMin := OnDelay(s, delay, now).delayMin)
  {
  }

  function RunEvents(s: Sock, es: seq<Event>): (r: Sock)
    requires Inv(s) && forall e | e in es :: Sane(e)
    ensures Inv(r)
    decreases |es|
  {
    if es == [] then s
    else
      StepKeeps(s, es[0]);
      RunEvents(Step(s, es[0]), es[1..])
  }

  function Credits(s: Sock, es: seq<Event>): nat
    requires Inv(s) && forall e | e in es :: Sane(e)
    decreases |es|
  {
    if es == [] then 0
    else
      StepKeeps(s, es[0]);
      Credit(s, es[0]) + Credits(Step(s, es[0]), es[1..])
  }

  /** Over every run of ACKs, congestion control, recovery, loss, idle periods and
      threshold changes: outside slow start CUBIC adds at most one packet per two
      packets acknowledged, whatever the clock and the curve say, and from the first
      update of a window on, the send window is the smaller of the two. */
  lemma {:induction false} GrowthIsBounded(s: Sock, es: seq<Event>)
    requires Inv(s) && forall e | e in es :: Sane(e)
    ensures Potential(RunEvents(s, es)) <= Potential(s) + Credits(s, es)
    ensures Synced(RunEvents(s, es)) || SameWindows(s, RunEvents(s, es))
    decreases |es|
  {
    hide Step, Inv, Sane, Credit, Potential;
    if es != [] {
      StepKeeps(s, es[0]);
      GrowthIsBounded(Step(s, es[0]), es[1..]);
    }
  }

  lemma InitIsSafe(sndUna: nat, sndCwnd: nat, ssthresh: nat)
    requires sndCwnd < U32
    ensures var s := Init(sndUna, sndCwnd, ssthresh);
            Inv(s) && s.cubicCwnd == 10 && s.window.lossCwnd == sndCwnd && s.window.priorSndUna == sndUna && s.epochStart == s.lastMaxCwnd == 0
  {
  }

  // ----- ACKs alone -----

  function Arrive(es: seq<AckEvent>): (r: seq<Event>)
    ensures |r| == |es| && forall i | 0 <= i < |r| :: r[i] == InAck(es[i])
  {
    if es == [] then [] else [InAck(es[0])] + Arrive(es[1..])
  }

  /** ACKs move the window beside CUBIC's as `AbcEndpoint` says, and leave the rest. */
  lemma {:induction false} AcksMoveTheWindow(s: Sock, es: seq<AckEvent>)
    requires Inv(s) && forall e | e in es :: Sane(InAck(e))
    ensures (forall e | e in Arrive(es) :: Sane(e))
    ensures var r := RunEvents(s, Arrive(es));
            r.window == RunAcks(s.window, es) && r == s.(window := r.window, sndCwnd := r.sndCwnd)
    decreases |es|
  {
    hide OnAck, AckedBytes, Inv, Sane;
    if es != [] {
      assert es[0] in es && forall e | e in es[1..] :: e in es;
      StepKeeps(s, InAck(es[0]));
      NothingCounted(s.window, es[0]);
      AcksMoveTheWindow(Step(s, InAck(es[0])), es[1..]);
      assert Arrive(es)[1..] == Arrive(es[1..]);
    }
  }

  lemma NothingCounted(w: Window, e: AckEvent)
    ensures AckedBytes(w, e) == 0 ==> OnAck(w, e) == w
  {
  }
}
