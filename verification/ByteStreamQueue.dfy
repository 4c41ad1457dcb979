/** The ring buffer between two file descriptors
    (mahimahi/src/util/bytestream_queue.cc). */
module ByteStreamQueue {

  import opened Words

  // `size_t` arithmetic wraps around 64 bits.

  function AvailableToPop(size: nat, push: nat, pop: nat): int {
    (push - pop + if pop > push then size else 0) % U64
  }

  function AvailableToPush(size: nat, push: nat, pop: nat): int {
    (pop - push - 1 + if pop > push then 0 else size) % U64
  }

  /** The bytes held, oldest first. */
  function Held(buffer: string, push: nat, pop: nat): string
    requires push < |buffer| && pop < |buffer|
  {
    if pop <= push then buffer[pop..push] else buffer[pop..] + buffer[..push]
  }

  /** Neither count wraps in the end: what can be popped is what is held, and one
      slot always stays free. */
  lemma CountsAreExact(buffer: string, push: nat, pop: nat)
    requires 1 < |buffer| < U64 && push < |buffer| && pop < |buffer|
    ensures AvailableToPop(|buffer|, push, pop) == |Held(buffer, push, pop)|
    ensures AvailableToPush(|buffer|, push, pop) + AvailableToPop(|buffer|, push, pop) == |buffer| - 1
    ensures AvailableToPush(|buffer|, push, pop) >= 0
  {
    NoWrap64(push - pop + if pop > push then |buffer| else 0);
    NoWrap64(pop - push - 1 + if pop > push then 0 else |buffer|);
  }

  datatype Result = Success | EndOfFile

  class ByteStreamQueue {
    const buffer: array<char>
    var nextByteToPush: nat
    var nextByteToPop: nat

    /** All bytes ever read into the queue and ever written out of it. */
    ghost var pushed: string
    ghost var popped: string

    ghost predicate InRange()
      reads this
    {
      1 < buffer.Length < U64 && nextByteToPush < buffer.Length && nextByteToPop < buffer.Length
    }

    ghost function Contents(): string
      requires InRange()
      reads this, buffer
    {
      Held(buffer[..], nextByteToPush, nextByteToPop)
    }

    /** First in, first out: what went out, then what is held, is what went in. */
    ghost predicate Valid()
      reads this, buffer
    {
      InRange() && pushed == popped + Contents()
    }

    constructor (size: nat)
      requires 1 < size < U64
      ensures Valid() && Contents() == "" && pushed == "" && popped == "" && buffer.Length == size && fresh(buffer)
    {
      buffer := new char[size](_ => 0 as char);
      nextByteToPush, nextByteToPop := 0, 0;
      pushed, popped := "", "";
    }

    /** `space_available` and `non_empty`. */
    predicate SpaceAvailable()
      reads this
    {
      AvailableToPush(buffer.Length, nextByteToPush, nextByteToPop) > 0
    }

    predicate NonEmpty()
      reads this
    {
      AvailableToPop(buffer.Length, nextByteToPush, nextByteToPop) > 0
    }

    /** Read once from `source`, whose end is the end of file. The descriptor
        decides how many bytes come, at least one if there are any, at most as
        many as there is room for in one piece. */
    method Push(source: string) returns (r: Result, taken: nat)
      requires Valid() && SpaceAvailable()
      modifies this, buffer
      ensures Valid() && popped == old(popped) && taken <= |source|
      ensures Contents() == old(Contents()) + source[..taken] && pushed == old(pushed) + source[..taken]
      ensures r == EndOfFile <==> source == ""
      ensures r == Success ==> taken > 0 && NonEmpty()
    {
      hide Held, AvailableToPop, AvailableToPush;
      CountsAreExact(buffer[..], nextByteToPush, nextByteToPop);
      var contiguousSpaceToPush := AvailableToPush(buffer.Length, nextByteToPush, nextByteToPop);
      if nextByteToPush + contiguousSpaceToPush >= buffer.Length {
        contiguousSpaceToPush := buffer.Length - nextByteToPush;
      }
      assert contiguousSpaceToPush > 0;
      if source == "" {
        return EndOfFile, 0;
      }
      taken :| 0 < taken <= |source| && taken <= contiguousSpaceToPush by { assert 0 < 1 <= |source|; }
      var newChunk := source[..taken];
      assert |newChunk| <= buffer.Length - nextByteToPush;
      ghost var was := buffer[..];
      CopyIn(newChunk);
      ghost var push := nextByteToPush;
      nextByteToPush := nextByteToPush + |newChunk|;
      if nextByteToPush == buffer.Length {
        nextByteToPush := 0;
      }
      HeldAfterPush(was, push, nextByteToPop, newChunk);
      pushed := pushed + newChunk;
      CountsAreExact(buffer[..], nextByteToPush, nextByteToPop);
      assert popped + old(Contents()) + newChunk == popped + (old(Contents()) + newChunk);
      r := Success;
    }

    /** The `memcpy` into the buffer. */
    method CopyIn(chunk: string)
      requires nextByteToPush + |chunk| <= buffer.Length
      modifies buffer
      ensures buffer[..] == old(buffer[..])[..nextByteToPush] + chunk + old(buffer[..])[nextByteToPush + |chunk|..]
    {
      var at := nextByteToPush;
      for i := 0 to |chunk|
        invariant forall k | 0 <= k < buffer.Length ::
                    buffer[k] == if at <= k < at + i then chunk[k - at] else old(buffer[k])
      {
        buffer[at + i] := chunk[i];
      }
    }

    /** Write once; the descriptor decides how many of the contiguous bytes go. */
    method Pop() returns (gone: string)
      requires Valid() && NonEmpty()
      modifies this
      ensures Valid() && pushed == old(pushed) && popped == old(popped) + gone
      ensures old(Contents()) == gone + Contents()
    {
      hide Held, AvailableToPop, AvailableToPush;
      CountsAreExact(buffer[..], nextByteToPush, nextByteToPop);
      var contiguousSpaceToPop := AvailableToPop(buffer.Length, nextByteToPush, nextByteToPop);
      if nextByteToPop + contiguousSpaceToPop >= buffer.Length {
        contiguousSpaceToPop := buffer.Length - nextByteToPop;
      }
      var accepted: nat :| accepted <= contiguousSpaceToPop;
      gone := buffer[..][nextByteToPop..nextByteToPop + accepted];
      HeldAfterPop(buffer[..], nextByteToPush, nextByteToPop, accepted);
      nextByteToPop := nextByteToPop + accepted;
      if nextByteToPop == buffer.Length {
        nextByteToPop := 0;
      }
      popped := popped + gone;
      assert old(popped) + (gone + Contents()) == old(popped) + gone + Contents();
    }
  }

  function Wrapped(size: nat, i: nat): nat {
    if i == size then 0 else i
  }

  /** Writing a chunk into free contiguous space appends it. */
  lemma HeldAfterPush(b: string, push: nat, pop: nat, chunk: string)
    requires 1 < |b| < U64 && push < |b| && pop < |b|
    requires 0 < |chunk| <= AvailableToPush(|b|, push, pop) && push + |chunk| <= |b|
    ensures var b' := b[..push] + chunk + b[push + |chunk|..];
            |b'| == |b| && Held(b', Wrapped(|b|, push + |chunk|), pop) == Held(b, push, pop) + chunk
  {
    CountsAreExact(b, push, pop);
    var b' := b[..push] + chunk + b[push + |chunk|..];
    if pop > push {
      assert b'[pop..] == b[pop..];
      assert b'[..push + |chunk|] == b[..push] + chunk;
      assert b[pop..] + (b[..push] + chunk) == b[pop..] + b[..push] + chunk;
    } else {
      assert b'[pop..push + |chunk|] == b[pop..push] + chunk;
    }
  }

  /** Moving the read index forward removes a prefix. */
  lemma HeldAfterPop(b: string, push: nat, pop: nat, n: nat)
    requires 1 < |b| < U64 && push < |b| && pop < |b|
    requires n <= AvailableToPop(|b|, push, pop) && pop + n <= |b|
    ensures Held(b, push, pop) == b[pop..pop + n] + Held(b, push, Wrapped(|b|, pop + n))
  {
    CountsAreExact(b, push, pop);
  }

  /** Bytes popped are always a prefix of the bytes pushed, and the rest fits in
      the buffer. */
  lemma PoppedIsPrefix(q: ByteStreamQueue)
    requires q.Valid()
    ensures q.popped <= q.pushed && |q.pushed| - |q.popped| <= q.buffer.Length - 1
  {
    CountsAreExact(q.buffer[..], q.nextByteToPush, q.nextByteToPop);
  }
}
