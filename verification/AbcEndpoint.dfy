/** The accelerate-brake endpoint (tcp_abc.c): the congestion window under marked
    and unmarked ACKs, and the echo of congestion marks by the receiver. */
module AbcEndpoint {

  import opened Words

  // ----- the window -----

  /** One ACK as the handler sees it. */
  datatype AckEvent = AckEvent(sndUna: nat, windowUpdate: bool, ece: bool, rcvMss: nat)

  datatype Window = Window(lossCwnd: nat, aiCwnd: nat, priorSndUna: nat)

  const MSS: nat := 1448

  /** Bytes newly acknowledged; a duplicate ACK counts as one segment. */
  function AckedBytes(w: Window, e: AckEvent): nat {
    var acked := Sub32(e.sndUna, w.priorSndUna);
    if acked == 0 && !e.windowUpdate then e.rcvMss else acked
  }

  /** Additive increase: a window's worth of ACKs adds one packet. */
  function Additive(w: Window): Window {
    var ai := Add32(w.aiCwnd, 1);
    if ai > w.lossCwnd then w.(aiCwnd := ai - w.lossCwnd, lossCwnd := Add32(w.lossCwnd, 1))
    else w.(aiCwnd := ai)
  }

  /** Brake on a mark, unless that would leave five packets or fewer; accelerate
      otherwise. */
  function Accelerate(w: Window, steps: nat, ece: bool): Window {
    if !ece then w.(lossCwnd := Add32(w.lossCwnd, steps))
    else if w.lossCwnd > 5 + steps then w.(lossCwnd := w.lossCwnd - steps)
    else w
  }

  /** `abc_in_ack`, as far as the window goes. */
  function OnAck(w: Window, e: AckEvent): Window {
    var acked := AckedBytes(w, e);
    if acked == 0 then w
    else Accelerate(Additive(w).(priorSndUna := e.sndUna), acked / MSS, e.ece)
  }

  function RunAcks(w: Window, es: seq<AckEvent>): Window
    decreases |es|
  {
    if es == [] then w else RunAcks(OnAck(w, es[0]), es[1..])
  }

  // ----- the ledger -----

  /** ACKs counted, packets added by additive increase, windows deducted from the
      ACK count, packets accelerated and packets braked. */
  datatype Ledger = Ledger(counted: nat, additive: nat, deducted: nat, accelerated: nat, braked: nat)

  function Entry(w: Window, e: AckEvent): Ledger {
    var acked := AckedBytes(w, e);
    var steps, a := acked / MSS, Additive(w);
    if acked == 0 then Ledger(0, 0, 0, 0, 0)
    else
      var full := Add32(w.aiCwnd, 1) > w.lossCwnd;
      Ledger(1, if full then 1 else 0, if full then w.lossCwnd else 0,
             if e.ece then 0 else steps, if e.ece && a.lossCwnd > 5 + steps then steps else 0)
  }

  function AddLedger(a: Ledger, b: Ledger): Ledger {
    Ledger(a.counted + b.counted, a.additive + b.additive, a.deducted + b.deducted,
           a.accelerated + b.accelerated, a.braked + b.braked)
  }

  function Tally(w: Window, es: seq<AckEvent>): Ledger
    decreases |es|
  {
    if es == [] then Ledger(0, 0, 0, 0, 0) else AddLedger(Entry(w, es[0]), Tally(OnAck(w, es[0]), es[1..]))
  }

  /** Neither counter reaches the end of 32 bits at any ACK. */
  predicate Fits(w: Window, es: seq<AckEvent>)
    decreases |es|
  {
    es == [] ||
    (w.aiCwnd + 1 < U32 && w.lossCwnd + 1 + AckedBytes(w, es[0]) / MSS < U32 && Fits(OnAck(w, es[0]), es[1..]))
  }

  lemma {:induction false} LedgerOfOne(w: Window, e: AckEvent)
    requires Fits(w, [e])
    ensures var w', l := OnAck(w, e), Entry(w, e);
            && w'.lossCwnd == w.lossCwnd + l.additive + l.accelerated - l.braked
            && l.counted == w'.aiCwnd - w.aiCwnd + l.deducted
            && w'.lossCwnd >= Min(w.lossCwnd, 6)
  {
  }

  /** Over any run of ACKs the window is what it was, plus additive steps, plus
      accelerates, less brakes that were applied, and never below six packets
      unless it started there; and the ACKs counted are the change of the
      additive counter plus the windows deducted from it. */
  lemma {:induction false} WindowLedger(w: Window, es: seq<AckEvent>)
    requires Fits(w, es)
    ensures var w', l := RunAcks(w, es), Tally(w, es);
            && w'.lossCwnd == w.lossCwnd + l.additive + l.accelerated - l.braked
            && l.counted == w'.aiCwnd - w.aiCwnd + l.deducted
            && w'.lossCwnd >= Min(w.lossCwnd, 6)
    decreases |es|
  {
    if es != [] {
      LedgerOfOne(w, es[0]);
      WindowLedger(OnAck(w, es[0]), es[1..]);
    }
  }

  /** ACKs that move no whole segment. */
  predicate Small(w: Window, es: seq<AckEvent>)
    decreases |es|
  {
    es == [] || (AckedBytes(w, es[0]) < MSS && Small(OnAck(w, es[0]), es[1..]))
  }

  function Triangle(w: nat): int { w * (w - 1) }

  /** Additive increase alone: growing from w0 to w1 takes as many ACKs as there
      are packets in all the windows on the way. */
  lemma {:induction false} AdditiveClosedForm(w: Window, es: seq<AckEvent>)
    requires Fits(w, es) && Small(w, es)
    ensures var w' := RunAcks(w, es);
            2 * (Tally(w, es).counted + w.aiCwnd - w'.aiCwnd) == Triangle(w'.lossCwnd) - Triangle(w.lossCwnd)
    decreases |es|
  {
    hide Triangle, OnAck, Entry;
    if es != [] {
      AdditiveStep(w, es[0]);
      AdditiveClosedForm(OnAck(w, es[0]), es[1..]);
    }
  }

  lemma {:induction false} AdditiveStep(w: Window, e: AckEvent)
    requires Fits(w, [e]) && AckedBytes(w, e) < MSS
    ensures var w' := OnAck(w, e);
            2 * (Entry(w, e).counted + w.aiCwnd - w'.aiCwnd) == Triangle(w'.lossCwnd) - Triangle(w.lossCwnd)
  {
    hide Triangle;
    NextTriangle(w.lossCwnd);
  }

  lemma NextTriangle(w: nat)
    ensures Triangle(w + 1) - Triangle(w) == 2 * w
  {
  }

  // ----- the bytes of a run -----

  /** Up to where the last ACK acknowledged, `u` before all of them. */
  function LastUna(u: nat, es: seq<AckEvent>): nat {
    if es == [] then u else es[|es| - 1].sndUna
  }

  /** What an ACK brings after one up to `u`. */
  function News(u: nat, e: AckEvent): nat {
    if e.sndUna != u then (e.sndUna - u) % U32 else if e.windowUpdate then 0 else e.rcvMss
  }

  /** Bytes of the ACKs that advance. */
  function Advanced(u: nat, es: seq<AckEvent>): nat
    decreases |es|
  {
    if es == [] then 0 else (if es[0].sndUna != u then News(u, es[0]) else 0) + Advanced(es[0].sndUna, es[1..])
  }

  /** Bytes that stand for the duplicates among them. */
  function Repeated(u: nat, es: seq<AckEvent>): nat
    decreases |es|
  {
    if es == [] then 0
    else (if es[0].sndUna == u && !es[0].windowUpdate then es[0].rcvMss else 0) + Repeated(es[0].sndUna, es[1..])
  }

  /** Whole segments in the news of the ACKs with that mark. */
  function Segments(u: nat, es: seq<AckEvent>, ece: bool): nat
    decreases |es|
  {
    if es == [] then 0 else (if es[0].ece == ece then News(u, es[0]) / 1448 else 0) + Segments(es[0].sndUna, es[1..], ece)
  }

  /** ACKs that bring anything. */
  function Bringing(u: nat, es: seq<AckEvent>): nat
    decreases |es|
  {
    if es == [] then 0 else (if News(u, es[0]) > 0 then 1 else 0) + Bringing(es[0].sndUna, es[1..])
  }

  /** What the handler counts in a run. */
  function BytesCounted(w: Window, es: seq<AckEvent>): nat
    decreases |es|
  {
    if es == [] then 0 else AckedBytes(w, es[0]) + BytesCounted(OnAck(w, es[0]), es[1..])
  }

  predicate InRange(u: nat, es: seq<AckEvent>) {
    u < U32 && forall i | 0 <= i < |es| :: es[i].sndUna < U32
  }

  /** Sequence numbers that do not go back, before they wrap around. */
  predicate Forward(u: nat, es: seq<AckEvent>)
    decreases |es|
  {
    u < U32 && (es == [] || (u <= es[0].sndUna && Forward(es[0].sndUna, es[1..])))
  }

  lemma CountsNews(w: Window, e: AckEvent)
    requires w.priorSndUna < U32 && e.sndUna < U32
    ensures AckedBytes(w, e) == News(w.priorSndUna, e) && OnAck(w, e).priorSndUna == e.sndUna
  {
  }

  /** Over every run, wrapping or not: no byte is counted twice or left out. The
      handler counts the bytes between one ACK and the next, a segment for a duplicate
      and nothing for a window update, accelerates by the whole segments under unmarked
      ACKs, brakes by no more than those under marked ones, and stands at the last. */
  lemma {:induction false} CountsEveryByteOnce(w: Window, es: seq<AckEvent>)
    requires InRange(w.priorSndUna, es)
    ensures RunAcks(w, es).priorSndUna == LastUna(w.priorSndUna, es)
    ensures BytesCounted(w, es) == Advanced(w.priorSndUna, es) + Repeated(w.priorSndUna, es)
    ensures var l, u := Tally(w, es), w.priorSndUna;
            && l.counted == Bringing(u, es) && l.accelerated == Segments(u, es, false)
            && l.braked <= Segments(u, es, true)
    decreases |es|
  {
    hide OnAck, AckedBytes, Additive;
    if es != [] {
      CountsNews(w, es[0]);
      CountsEveryByteOnce(OnAck(w, es[0]), es[1..]);
    }
  }

  /** So ACKs that advance from one sequence number to another count exactly the bytes
      between the two. */
  lemma {:induction false} AdvanceIsDifference(u: nat, es: seq<AckEvent>)
    requires Forward(u, es)
    ensures InRange(u, es) && u <= LastUna(u, es) && Advanced(u, es) == LastUna(u, es) - u
    decreases |es|
  {
    if es != [] {
      AdvanceIsDifference(es[0].sndUna, es[1..]);
    }
  }

  lemma {:induction false} BytesAreConserved(w: Window, es: seq<AckEvent>)
    requires Forward(w.priorSndUna, es)
    ensures var w' := RunAcks(w, es);
            && w'.priorSndUna == LastUna(w.priorSndUna, es)
            && BytesCounted(w, es) == w'.priorSndUna - w.priorSndUna + Repeated(w.priorSndUna, es)
  {
    AdvanceIsDifference(w.priorSndUna, es);
    CountsEveryByteOnce(w, es);
  }

  /** Unmarked ACKs of whole segments, none repeated. */
  predicate Clean(u: nat, es: seq<AckEvent>)
    decreases |es|
  {
    es == [] || (!es[0].ece && es[0].sndUna > u && (es[0].sndUna - u) % 1448 == 0 && Clean(es[0].sndUna, es[1..]))
  }

  lemma {:induction false} CleanSegments(u: nat, es: seq<AckEvent>)
    requires Clean(u, es) && InRange(u, es)
    ensures u <= LastUna(u, es) && Segments(u, es, false) * 1448 == LastUna(u, es) - u && Segments(u, es, true) == 0
    ensures Bringing(u, es) == |es|
    decreases |es|
  {
    if es != [] {
      CleanSegments(es[0].sndUna, es[1..]);
    }
  }

  /** Over a run of unmarked ACKs of whole segments the window grows by the segments
      acknowledged and by the additive steps that as many ACKs pay for. */
  lemma {:induction false} OnePacketPerSegment(w: Window, es: seq<AckEvent>)
    requires Fits(w, es) && InRange(w.priorSndUna, es) && Clean(w.priorSndUna, es)
    ensures var w', l := RunAcks(w, es), Tally(w, es);
            && 1448 * (w'.lossCwnd - w.lossCwnd - l.additive) == LastUna(w.priorSndUna, es) - w.priorSndUna
            && |es| == w'.aiCwnd - w.aiCwnd + l.deducted
  {
    hide OnAck, AckedBytes, Additive;
    CountsEveryByteOnce(w, es);
    CleanSegments(w.priorSndUna, es);
    WindowLedger(w, es);
  }

  // ----- the receiver's echo of congestion marks -----

  /** Sequence numbers count bytes from the start of the connection; the handlers
      only copy them. */
  datatype Receiver = Receiver(rcvNxt: nat, priorRcvNxt: nat, ceState: bool, reserved: bool, demandCwr: bool)

  /** An ACK: up to where, and whether it echoes congestion. */
  datatype Ack = Ack(number: nat, ece: bool)

  /** `tcp_send_ack` sends what the socket says at that moment. */
  function AckNow(r: Receiver): Ack {
    Ack(r.rcvNxt, r.demandCwr)
  }

  /** The ACK forced by a change of the mark, if one is still delayed. */
  function ForcedAck(r: Receiver, ce: bool): seq<Ack> {
    if ce != r.ceState && r.reserved then [AckNow(r.(demandCwr := r.ceState, rcvNxt := r.priorRcvNxt))] else []
  }

  function OnMark(r: Receiver, ce: bool): Receiver {
    r.(priorRcvNxt := r.rcvNxt, ceState := ce, demandCwr := ce)
  }

  function OnReserved(r: Receiver, delayed: bool): Receiver {
    r.(reserved := delayed)
  }

  /** A segment arrives in order: the kernel advances `rcv_nxt`, reports the mark,
      and then either delays the ACK or sends it, telling which. */
  datatype Arrival = Arrival(length: nat, ce: bool, delay: bool)

  function AfterArrival(r: Receiver, a: Arrival): Receiver {
    OnReserved(OnMark(r.(rcvNxt := r.rcvNxt + a.length), a.ce), a.delay)
  }

  function AcksFor(r: Receiver, a: Arrival): seq<Ack> {
    var r1 := r.(rcvNxt := r.rcvNxt + a.length);
    ForcedAck(r1, a.ce) + if a.delay then [] else [AckNow(OnMark(r1, a.ce))]
  }

  function RunArrivals(r: Receiver, arrivals: seq<Arrival>): Receiver
    decreases |arrivals|
  {
    if arrivals == [] then r else RunArrivals(AfterArrival(r, arrivals[0]), arrivals[1..])
  }

  function AllAcks(r: Receiver, arrivals: seq<Arrival>): seq<Ack>
    decreases |arrivals|
  {
    if arrivals == [] then [] else AcksFor(r, arrivals[0]) + AllAcks(AfterArrival(r, arrivals[0]), arrivals[1..])
  }

  /** Bytes that arrived with a congestion mark. */
  function MarkedBytes(arrivals: seq<Arrival>): nat {
    if arrivals == [] then 0
    else (if arrivals[0].ce then arrivals[0].length else 0) + MarkedBytes(arrivals[1..])
  }

  /** Bytes the sender learns were marked: what each echoing ACK newly covers. */
  function EchoedBytes(from: nat, acks: seq<Ack>): int
    decreases |acks|
  {
    if acks == [] then 0
    else (if acks[0].ece then acks[0].number - from else 0) + EchoedBytes(acks[0].number, acks[1..])
  }

  function Acked(from: nat, acks: seq<Ack>): nat {
    if acks == [] then from else acks[|acks| - 1].number
  }

  predicate NonDecreasing(from: nat, acks: seq<Ack>)
    decreases |acks|
  {
    acks == [] || (from <= acks[0].number && NonDecreasing(acks[0].number, acks[1..]))
  }

  lemma {:induction false} AcksConcat(from: nat, xs: seq<Ack>, ys: seq<Ack>)
    ensures EchoedBytes(from, xs + ys) == EchoedBytes(from, xs) + EchoedBytes(Acked(from, xs), ys)
    ensures Acked(from, xs + ys) == Acked(Acked(from, xs), ys)
    ensures NonDecreasing(from, xs + ys) == (NonDecreasing(from, xs) && NonDecreasing(Acked(from, xs), ys))
    decreases |xs|
  {
    if xs == [] {
      assert xs + ys == ys;
    } else {
      assert (xs + ys)[1..] == xs[1..] + ys;
      AcksConcat(xs[0].number, xs[1..], ys);
    }
  }

  /** Between arrivals: the mark is demanded as last seen, and bytes not yet
      acknowledged are those of an ACK known to be delayed. */
  predicate Steady(r: Receiver, acked: nat) {
    r.demandCwr == r.ceState && r.priorRcvNxt == r.rcvNxt && acked <= r.rcvNxt && (!r.reserved ==> acked == r.rcvNxt)
  }

  /** Marked bytes among those received but not yet acknowledged. */
  function PendingMarked(r: Receiver, acked: nat): int {
    if r.ceState then r.rcvNxt - acked else 0
  }

  lemma {:induction false} ArrivalEchoes(r: Receiver, a: Arrival, acked: nat)
    requires Steady(r, acked)
    ensures var r', acks := AfterArrival(r, a), AcksFor(r, a);
            && Steady(r', Acked(acked, acks)) && NonDecreasing(acked, acks)
            && EchoedBytes(acked, acks) + PendingMarked(r', Acked(acked, acks))
               == PendingMarked(r, acked) + (if a.ce then a.length else 0)
  {
    var r1 := r.(rcvNxt := r.rcvNxt + a.length);
    var forced := ForcedAck(r1, a.ce);
    var direct := if a.delay then [] else [AckNow(OnMark(r1, a.ce))];
    AcksConcat(acked, forced, direct);
    if forced != [] { assert forced[1..] == []; }
    if direct != [] { assert direct[1..] == []; }
  }

  /** No ACK mixes marked and unmarked bytes: over any run of in-order arrivals,
      with ACKs delayed or sent in any pattern, the bytes covered by echoing ACKs,
      plus the marked bytes still unacknowledged, are exactly the bytes that
      arrived marked. */
  lemma {:induction false} MarksAreEchoedExactly(r: Receiver, arrivals: seq<Arrival>, acked: nat)
    requires Steady(r, acked)
    ensures var r', acks := RunArrivals(r, arrivals), AllAcks(r, arrivals);
            && Steady(r', Acked(acked, acks)) && NonDecreasing(acked, acks)
            && EchoedBytes(acked, acks) + PendingMarked(r', Acked(acked, acks)) == PendingMarked(r, acked) + MarkedBytes(arrivals)
    decreases |arrivals|
  {
    if arrivals != [] {
      ArrivalEchoes(r, arrivals[0], acked);
      var acks := AcksFor(r, arrivals[0]);
      var r1 := AfterArrival(r, arrivals[0]);
      MarksAreEchoedExactly(r1, arrivals[1..], Acked(acked, acks));
      AcksConcat(acked, acks, AllAcks(r1, arrivals[1..]));
    }
  }

  // ----- the object -----

  datatype CaEvent = EcnIsCe | EcnNoCe | DelayedAck | NonDelayedAck | OtherEvent

  /** `struct abc` and the socket fields its handlers use. */
  class Abc {
    var priorSndUna: nat
    var priorRcvNxt: nat
    var ceState: bool
    var delayedAckReserved: bool
    var lossCwnd: nat
    var aiCwnd: nat
    var sndUna: nat
    var sndCwnd: nat
    var rcvNxt: nat
    var demandCwr: bool
    /** ACKs sent by `tcp_send_ack`. */
    var sent: seq<Ack>

    ghost function WindowValue(): Window
      reads this
    {
      Window(lossCwnd, aiCwnd, priorSndUna)
    }

    ghost function ReceiverValue(): Receiver
      reads this
    {
      Receiver(rcvNxt, priorRcvNxt, ceState, delayedAckReserved, demandCwr)
    }

    constructor (sndUna: nat, rcvNxt: nat, sndCwnd: nat)
      ensures WindowValue() == Window(sndCwnd, 0, sndUna) && this.sndCwnd == sndCwnd
      ensures ReceiverValue() == Receiver(rcvNxt, rcvNxt, false, false, false) && sent == []
    {
      this.sndUna, this.rcvNxt, this.sndCwnd := sndUna, rcvNxt, sndCwnd;
      priorSndUna, priorRcvNxt := sndUna, rcvNxt;
      delayedAckReserved, ceState, demandCwr := false, false, false;
      lossCwnd, aiCwnd := sndCwnd, 0;
      sent := [];
    }

    /** `abc_in_ack`: the flags and the new `snd_una` are the event's. */
    method InAck(e: AckEvent)
      requires aiCwnd < U32 && lossCwnd < U32
      modifies `sndUna, `sndCwnd, `lossCwnd, `aiCwnd, `priorSndUna
      ensures WindowValue() == OnAck(old(WindowValue()), e)
      ensures sndCwnd == if AckedBytes(old(WindowValue()), e) == 0 then old(sndCwnd) else lossCwnd
    {
      sndUna := e.sndUna;
      var ackedBytes := Sub32(sndUna, priorSndUna);
      if ackedBytes == 0 && !e.windowUpdate {
        ackedBytes := e.rcvMss;
      }
      if ackedBytes != 0 {
        aiCwnd := Add32(aiCwnd, 1);
        if aiCwnd > lossCwnd {
          aiCwnd := aiCwnd - lossCwnd;
          lossCwnd := Add32(lossCwnd, 1);
        }
        priorSndUna := sndUna;
        if e.ece {
          if lossCwnd > 5 + ackedBytes / MSS {
            lossCwnd := lossCwnd - ackedBytes / MSS;
          }
        } else {
          lossCwnd := Add32(lossCwnd, ackedBytes / MSS);
        }
        sndCwnd := lossCwnd;
      }
    }

    method SendAck()
      modifies `sent
      ensures sent == old(sent) + [AckNow(ReceiverValue())]
    {
      sent := sent + [Ack(rcvNxt, demandCwr)];
    }

    /** `abc_ce_state_0_to_1`. */
    method CeState0To1()
      modifies `rcvNxt, `priorRcvNxt, `ceState, `demandCwr, `sent
      ensures ReceiverValue() == OnMark(old(ReceiverValue()), true)
      ensures sent == old(sent) + ForcedAck(old(ReceiverValue()), true)
    {
      if !ceState && delayedAckReserved {
        var tmpRcvNxt := rcvNxt;
        demandCwr := false;
        rcvNxt := priorRcvNxt;
        SendAck();
        rcvNxt := tmpRcvNxt;
      }
      priorRcvNxt := rcvNxt;
      ceState := true;
      demandCwr := true;
    }

    /** `abc_ce_state_1_to_0`. */
    method CeState1To0()
      modifies `rcvNxt, `priorRcvNxt, `ceState, `demandCwr, `sent
      ensures ReceiverValue() == OnMark(old(ReceiverValue()), false)
      ensures sent == old(sent) + ForcedAck(old(ReceiverValue()), false)
    {
      if ceState && delayedAckReserved {
        var tmpRcvNxt := rcvNxt;
        demandCwr := true;
        rcvNxt := priorRcvNxt;
        SendAck();
        rcvNxt := tmpRcvNxt;
      }
      priorRcvNxt := rcvNxt;
      ceState := false;
      demandCwr := false;
    }

    /** `abc_cwnd_event`, with `abc_update_ack_reserved`. */
    method CwndEvent(ev: CaEvent)
      modifies `rcvNxt, `priorRcvNxt, `ceState, `demandCwr, `sent, `delayedAckReserved
      ensures ReceiverValue() == match ev
                                 case EcnIsCe => OnMark(old(ReceiverValue()), true)
                                 case EcnNoCe => OnMark(old(ReceiverValue()), false)
                                 case DelayedAck => OnReserved(old(ReceiverValue()), true)
                                 case NonDelayedAck => OnReserved(old(ReceiverValue()), false)
                                 case OtherEvent => old(ReceiverValue())
      ensures sent == old(sent) + match ev
                                  case EcnIsCe => ForcedAck(old(ReceiverValue()), true)
                                  case EcnNoCe => ForcedAck(old(ReceiverValue()), false)
                                  case _ => []
    {
      match ev
      case EcnIsCe => CeState0To1();
      case EcnNoCe => CeState1To0();
      case DelayedAck =>
        if !delayedAckReserved { delayedAckReserved := true; }
      case NonDelayedAck =>
        if delayedAckReserved { delayedAckReserved := false; }
      case OtherEvent =>
    }
  }
}
