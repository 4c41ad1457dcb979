/** The bounded packet queue under drop-tail, CoDel and the ABC router
    (mahimahi/src/packet/dropping_packet_queue.cc, queued_packet.hh). */
module PacketQueue {
  import opened Words

  newtype byte = x: int | 0 <= x < 256

  datatype Packet = Packet(contents: seq<byte>, arrivalTime: nat)

  /** The most a TUN device hands over, and what one delivery opportunity carries. */
  const PACKET_SIZE: nat := 1504

  function Bytes(ps: seq<Packet>): nat {
    if ps == [] then 0 else |ps[0].contents| + Bytes(ps[1..])
  }

  lemma {:induction false} BytesConcat(ps: seq<Packet>, qs: seq<Packet>)
    ensures Bytes(ps + qs) == Bytes(ps) + Bytes(qs)
  {
    if ps == [] {
      assert ps + qs == qs;
    } else {
      assert (ps + qs)[1..] == ps[1..] + qs;
      BytesConcat(ps[1..], qs);
    }
  }

  /** The queue's limits; a limit of 0 is no limit. */
  datatype Limits = Limits(bytes: nat, packets: nat)

  predicate GoodWith(l: Limits, bytes: int, packets: int) {
    (l.bytes != 0 ==> bytes <= l.bytes) && (l.packets != 0 ==> packets <= l.packets)
  }

  /** What the queue holds after a packet arrives. */
  function Arrived(l: Limits, ps: seq<Packet>, p: Packet): seq<Packet> {
    if GoodWith(l, Bytes(ps) + |p.contents|, |ps| + 1) then ps + [p] else ps
  }

  // ----- runs -----

  datatype QueueOp = Put(packet: Packet) | Take

  function AfterQueueOp(l: Limits, ps: seq<Packet>, op: QueueOp): seq<Packet> {
    match op
    case Put(p) => Arrived(l, ps, p)
    case Take => if ps == [] then ps else ps[1..]
  }

  function RunQueue(l: Limits, ps: seq<Packet>, ops: seq<QueueOp>): seq<Packet>
    decreases |ops|
  {
    if ops == [] then ps else RunQueue(l, AfterQueueOp(l, ps, ops[0]), ops[1..])
  }

  /** No more bytes and packets than the limits, where there are any. */
  predicate Within(l: Limits, bytes: nat, packets: nat) {
    (l.bytes == 0 || bytes <= l.bytes) && (l.packets == 0 || packets <= l.packets)
  }

  /** The packets that find room, and those taken. */
  function RoomFor(l: Limits, ps: seq<Packet>, ops: seq<QueueOp>): seq<Packet>
    decreases |ops|
  {
    if ops == [] then []
    else (match ops[0]
          case Put(p) => if Within(l, Bytes(ps + [p]), |ps| + 1) then [p] else []
          case Take => []) + RoomFor(l, AfterQueueOp(l, ps, ops[0]), ops[1..])
  }

  function TakenFrom(l: Limits, ps: seq<Packet>, ops: seq<QueueOp>): seq<Packet>
    decreases |ops|
  {
    if ops == [] then []
    else (if ops[0].Take? && ps != [] then [ps[0]] else []) + TakenFrom(l, AfterQueueOp(l, ps, ops[0]), ops[1..])
  }

  lemma {:induction false} OpConserves(l: Limits, ps: seq<Packet>, op: QueueOp)
    requires Within(l, Bytes(ps), |ps|)
    ensures var r := AfterQueueOp(l, ps, op);
            && Within(l, Bytes(r), |r|)
            && match op
               case Put(p) => r == ps + if Within(l, Bytes(ps + [p]), |ps| + 1) then [p] else []
               case Take => ps == (if ps != [] then [ps[0]] else []) + r
  {
    if op.Put? { BytesConcat(ps, [op.packet]); }
  }

  /** Over every run the limits hold, and the packets that were there and those that
      found room within them, in order, are the packets taken and those left. */
  lemma {:induction false} QueueConserves(l: Limits, ps: seq<Packet>, ops: seq<QueueOp>)
    requires Within(l, Bytes(ps), |ps|)
    ensures var r := RunQueue(l, ps, ops);
            Within(l, Bytes(r), |r|) && ps + RoomFor(l, ps, ops) == TakenFrom(l, ps, ops) + r
    decreases |ops|
  {
    hide AfterQueueOp, Within, Bytes;
    if ops == [] {
      assert ps + [] == [] + ps;
    } else {
      var r := AfterQueueOp(l, ps, ops[0]);
      OpConserves(l, ps, ops[0]);
      QueueConserves(l, r, ops[1..]);
      var found, left := RoomFor(l, r, ops[1..]), RunQueue(l, r, ops[1..]);
      match ops[0]
      case Put(p) => Joined(ps, if Within(l, Bytes(ps + [p]), |ps| + 1) then [p] else [], found);
      case Take =>
        var head := if ps != [] then [ps[0]] else [];
        Joined(head, r, found);
        Joined(head, TakenFrom(l, r, ops[1..]), left);
        assert [] + found == found;
    }
  }

  class DroppingPacketQueue {
    var sizeInBytes: int
    var sizeInPackets: int
    var packets: seq<Packet>
    const packetLimit: nat
    const byteLimit: nat

    function Limit(): Limits
      reads this
    {
      Limits(byteLimit, packetLimit)
    }

    /** The two counters agree with the packets and the limits are met. */
    ghost predicate Valid()
      reads this
    {
      && sizeInBytes == Bytes(packets) && sizeInPackets == |packets|
      && Good()
    }

    predicate Good()
      reads this
    {
      GoodWith(Limit(), sizeInBytes, sizeInPackets)
    }

    constructor (packets: nat, bytes: nat)
      requires packets != 0 || bytes != 0
      ensures Valid() && this.packets == [] && packetLimit == packets && byteLimit == bytes
    {
      sizeInBytes, sizeInPackets := 0, 0;
      this.packets := [];
      packetLimit, byteLimit := packets, bytes;
    }

    predicate Empty()
      reads this
    {
      packets == []
    }

    /** `accept`: a packet at the back, whatever the limits say. */
    method Accept(p: Packet)
      requires sizeInBytes == Bytes(packets) && sizeInPackets == |packets|
      modifies this
      ensures packets == old(packets) + [p]
      ensures sizeInBytes == Bytes(packets) && sizeInPackets == |packets|
    {
      BytesConcat(packets, [p]);
      sizeInBytes := sizeInBytes + |p.contents|;
      sizeInPackets := sizeInPackets + 1;
      packets := packets + [p];
    }

    /** Accept a packet that keeps the limits, drop any other. */
    method Enqueue(p: Packet)
      requires Valid()
      modifies this
      ensures Valid() && packets == Arrived(Limit(), old(packets), p)
    {
      if GoodWith(Limit(), sizeInBytes + |p.contents|, sizeInPackets + 1) {
        BytesConcat(packets, [p]);
        Accept(p);
      }
    }

    method Dequeue() returns (p: Packet)
      requires Valid() && !Empty()
      modifies this
      ensures Valid() && old(packets) == [p] + packets
    {
      p := packets[0];
      packets := packets[1..];
      sizeInBytes := sizeInBytes - |p.contents|;
      sizeInPackets := sizeInPackets - 1;
    }
  }
}
