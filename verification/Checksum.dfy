/** The IP header checksum (mahimahi/src/packet/cellular_packet_queue.hh, RFC 1071). */
module Checksum {
  import opened Words
  import opened PacketQueue

  const FOLD: nat := 65535

  /** The sum of the 16-bit words, low byte first; a last odd byte stands alone. */
  function WordSum(b: seq<byte>): nat {
    if b == [] then 0
    else if |b| == 1 then b[0] as int
    else (b[0] as int) + 256 * (b[1] as int) + WordSum(b[2..])
  }

  /** One's complement sums: the residue modulo 65535 that is 0 only for 0. */
  function OnesComplement(sum: nat): (r: nat)
    ensures r <= FOLD
  {
    if sum == 0 then 0 else (sum - 1) % FOLD + 1
  }

  lemma FoldKeeps(high: nat, low: nat)
    requires low < 65536
    ensures OnesComplement(65536 * high + low) == OnesComplement(high + low)
  {
    if high + low > 0 {
      assert 65536 * high + low - 1 == (high + low - 1) + high * FOLD;
      AddMultiple(high + low - 1, high);
    }
  }

  lemma {:induction false} AddMultiple(x: nat, k: nat)
    ensures (x + k * FOLD) % FOLD == x % FOLD
    decreases k
  {
    if k > 0 {
      AddMultiple(x, k - 1);
      assert x + k * FOLD == x + (k - 1) * FOLD + FOLD;
    }
  }

  lemma {:induction false} WordSumBound(b: seq<byte>)
    ensures WordSum(b) <= 65535 * ((|b| + 1) / 2)
    decreases |b|
  {
    if |b| > 1 { WordSumBound(b[2..]); }
  }

  lemma {:induction false} WordSumSplit(b: seq<byte>, k: nat)
    requires k % 2 == 0 && k <= |b|
    ensures WordSum(b) == WordSum(b[..k]) + WordSum(b[k..])
    decreases k
  {
    if k > 0 {
      WordSumSplit(b[2..], k - 2);
      assert b[2..][..k - 2] == b[..k][2..] && b[2..][k - 2..] == b[k..];
    } else {
      assert b[..0] == [] && b[0..] == b;
    }
  }

  /** `in_cksum`: add up, fold the carries into 16 bits, complement. The sum never
      leaves the 64 bits of an `unsigned long`. */
  method InCksum(addr: seq<byte>) returns (check: nat)
    requires |addr| < U32
    ensures check == FOLD - OnesComplement(WordSum(addr))
  {
    WordSumBound(addr);
    assert addr[0..] == addr;
    var sum: nat := 0;
    var i := 0;
    var count := |addr|;
    while count > 1
      invariant count == |addr| - i >= 0 && i % 2 == 0
      invariant sum + WordSum(addr[i..]) == WordSum(addr) < U64
      decreases count
    {
      sum := sum + (addr[i] as int) + 256 * (addr[i + 1] as int);
      assert addr[i..][2..] == addr[i + 2..];
      i := i + 2;
      count := count - 2;
    }
    if count > 0 {
      sum := sum + addr[i] as int;
    }
    assert sum == WordSum(addr);
    while sum / 65536 != 0
      invariant OnesComplement(sum) == OnesComplement(WordSum(addr))
      decreases sum
    {
      FoldKeeps(sum / 65536, sum % 65536);
      sum := sum % 65536 + sum / 65536;
    }
    check := FOLD - sum;
  }

  /** Storing a 16-bit value, low byte first. */
  function Store(b: seq<byte>, at: nat, value: nat): (r: seq<byte>)
    requires at + 2 <= |b| && value < 65536
    ensures |r| == |b|
  {
    b[at := (value % 256) as byte][at + 1 := (value / 256) as byte]
  }

  /** Storing adds the value to the sum, where zero stood before. */
  lemma StoreAdds(b: seq<byte>, at: nat, value: nat)
    requires at % 2 == 0 && at + 2 <= |b| && value < 65536
    ensures WordSum(Store(b, at, value)) == WordSum(Store(b, at, 0)) + value
  {
    StoreSum(b, at, value);
    StoreSum(b, at, 0);
  }

  lemma StoreSum(b: seq<byte>, at: nat, value: nat)
    requires at % 2 == 0 && at + 2 <= |b| && value < 65536
    ensures WordSum(Store(b, at, value)) == WordSum(b[..at]) + value + WordSum(b[at + 2..])
  {
    var r := Store(b, at, value);
    WordSumSplit(r, at);
    assert r[..at] == b[..at];
    var rest := r[at..];
    assert rest[2..] == b[at + 2..];
    assert rest[0] == r[at] && rest[1] == r[at + 1];
  }

  /** A header whose check field is zeroed and then filled with the checksum
      verifies: its own checksum is 0, whatever its bytes and its length. */
  lemma FilledHeaderVerifies(b: seq<byte>, at: nat)
    requires at % 2 == 0 && at + 2 <= |b|
    ensures var check := FOLD - OnesComplement(WordSum(Store(b, at, 0)));
            FOLD - OnesComplement(WordSum(Store(b, at, check))) == 0
  {
    var s := WordSum(Store(b, at, 0));
    var r := OnesComplement(s);
    StoreAdds(b, at, FOLD - r);
    if s == 0 {
      assert OnesComplement(FOLD) == FOLD;
    } else {
      var q := (s - 1) / FOLD;
      assert s - 1 == q * FOLD + (s - 1) % FOLD;
      assert s + FOLD - r - 1 == (FOLD - 1) + q * FOLD;
      AddMultiple(FOLD - 1, q);
    }
  }
}
