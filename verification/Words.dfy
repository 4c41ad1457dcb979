/** Machine words, and what every module shares. */
module Words {

  datatype Option<+T> = None | Some(value: T)

  const U32: nat := 0x1_0000_0000
  const U64: nat := 0x1_0000_0000_0000_0000

  function Add32(a: nat, b: nat): (r: nat)
    ensures r < U32 && (a + b < U32 ==> r == a + b)
  {
    (a + b) % U32
  }

  function Sub32(a: nat, b: nat): (r: nat)
    ensures r < U32 && (b <= a < U32 ==> r == a - b)
  {
    (a - b) % U32
  }

  function Mul32(a: nat, b: nat): (r: nat)
    ensures r < U32 && (a * b < U32 ==> r == a * b)
  {
    (a * b) % U32
  }

  /** Narrowing to 32 bits. */
  function ToU32(x: nat): (r: nat)
    ensures r < U32 && (x < U32 ==> r == x)
  {
    x % U32
  }

  /** A 32-bit word read as signed. */
  function Signed(x: nat): int {
    if x < 0x8000_0000 then x else x - U32
  }

  function Div(a: nat, b: nat): nat
    requires b > 0
  {
    a / b
  }

  function Mod(a: nat, b: nat): nat
    requires b > 0
  {
    a % b
  }

  function Min(a: int, b: int): int {
    if a < b then a else b
  }

  function MinNat(a: nat, b: nat): nat {
    if a < b then a else b
  }

  function MaxNat(a: nat, b: nat): nat {
    if a < b then b else a
  }

  function MinReal(a: real, b: real): real {
    if a < b then a else b
  }

  function MaxReal(a: real, b: real): real {
    if a > b then a else b
  }

  predicate Sorted(s: seq<nat>) {
    forall i, j | 0 <= i < j < |s| :: s[i] <= s[j]
  }

  /** A value in range is not changed by 64-bit arithmetic. */
  lemma NoWrap64(x: int)
    ensures 0 <= x < U64 ==> x % U64 == x
  {
  }

  lemma ProductMonotone(a: nat, b: nat, n: nat)
    ensures a <= b ==> a * n <= b * n
  {
  }

  lemma DivModUnique(k: nat, n: nat, q: nat, r: nat)
    requires n > 0 && k == q * n + r && r < n
    ensures k / n == q && k % n == r
  {
    assert k == (k / n) * n + k % n;
    ProductMonotone(k / n + 1, q, n);
    ProductMonotone(q + 1, k / n, n);
    OneMore(k / n, n);
    OneMore(q, n);
  }

  lemma OneMore(q: nat, n: nat)
    ensures (q + 1) * n == q * n + n
  {
  }

  lemma Joined<T>(a: seq<T>, b: seq<T>, c: seq<T>)
    ensures a + (b + c) == a + b + c
  {
  }
}
