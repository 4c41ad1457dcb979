/** The integer cube root of CUBIC (tcp_abccubic.c): a table look-up and one
    Newton-Raphson step in 32- and 64-bit arithmetic. */
module CubeRoot {

  import opened Words

  /** The table of the source, row by row. */
  function Entry(k: nat): nat
    requires k < 64
  {
    if k < 0x08 then [0, 54, 54, 54, 118, 118, 118, 118][k]
    else if k < 0x10 then [123, 129, 134, 138, 143, 147, 151, 156][k - 0x08]
    else if k < 0x18 then [157, 161, 164, 168, 170, 173, 176, 179][k - 0x10]
    else if k < 0x20 then [181, 185, 187, 190, 192, 194, 197, 199][k - 0x18]
    else if k < 0x28 then [200, 202, 204, 206, 209, 211, 213, 215][k - 0x20]
    else if k < 0x30 then [217, 219, 221, 222, 224, 225, 227, 229][k - 0x28]
    else if k < 0x38 then [231, 232, 234, 236, 237, 239, 240, 242][k - 0x30]
    else [244, 245, 246, 248, 250, 251, 252, 254][k - 0x38]
  }

  function Pow2(n: nat): (p: nat)
    ensures p > 0
  {
    if n == 0 then 1 else 2 * Pow2(n - 1)
  }

  /** `fls64`: the number of the highest bit set, counted from 1; 0 for 0. */
  function Fls(a: nat): (b: nat)
    ensures a < Pow2(b) && (b > 0 ==> Pow2(b - 1) <= a)
  {
    if a == 0 then 0 else 1 + Fls(a / 2)
  }

  function Cube(x: int): int { x * x * x }

  // ----- the code, wrap-around and all -----

  /** `b = ((b * 84) >> 8) - 1`. */
  function Exponent(bits: nat): nat
    requires bits >= 7
  {
    (bits * 84) / 256 - 1
  }

  /** The table's index: the bits of `a` above three times the exponent. */
  function Index(a: nat): nat
    requires Fls(a) >= 7
  {
    ShiftRight(a, 3 * Exponent(Fls(a)))
  }

  function ShiftRight(a: nat, n: nat): nat {
    Div(a, Pow2(n))
  }

  /** The look-up: the table's value for the leading bits, scaled back up. */
  function Guess(a: nat): nat
    requires Fls(a) >= 7 && Index(a) < 64
  {
    Mul32(Entry(Index(a)) + 10, Pow2(Exponent(Fls(a)))) / 64
  }

  /** `a / (x * (x - 1))`. */
  function Quot(x: nat, a: nat): nat
    requires x > 1
  {
    PositiveDivisor(x);
    a / (x * (x - 1))
  }

  lemma PositiveDivisor(x: nat)
    requires x > 1
    ensures x * (x - 1) > 0
  {
    ProductMonotone(1, x - 1, x);
    ProductMonotone(1, x, x - 1);
  }

  /** The Newton step from `x`. */
  function Newton(x: nat, a: nat): nat
    requires x > 1
  {
    ToU32(ToU32(ToU32(2 * x) + ToU32(Quot(x, a))) * 341) / 1024
  }

  function CubicRoot(a: nat): nat
    requires a < U64
  {
    if Fls(a) < 7 then
      SmallArgument(a);
      (Entry(a) + 35) / 64
    else
      SmallArgument(a);
      GuessClose(a);
      Newton(Guess(a), a)
  }

  lemma {:induction false} SmallArgument(a: nat)
    ensures Fls(a) < 7 <==> a < 64
  {
    assert Pow2(6) == 64;
    if Fls(a) < 7 { PowMonotone(Fls(a), 6); } else { PowMonotone(6, Fls(a) - 1); }
  }

  /** `x` is the scaled entry over 64, rounded down. */
  predicate LooksUp(x: nat, t: nat, p: nat) {
    x == (t * p) / 64 && 64 * x <= t * p < 64 * x + 64
  }

  /** `k` is the whole number of cubes of `p` in `a`. */
  predicate Brackets(k: nat, p: nat, a: nat) {
    k * Cube(p) <= a < (k + 1) * Cube(p)
  }

  // ----- powers of two and the index -----

  lemma {:induction false} PowMonotone(m: nat, n: nat)
    requires m <= n
    ensures Pow2(m) <= Pow2(n)
    decreases n
  {
    if m < n { PowMonotone(m, n - 1); }
  }

  lemma {:induction false} PowAdd(m: nat, n: nat)
    ensures Pow2(m + n) == Pow2(m) * Pow2(n)
    decreases m
  {
    if m == 0 {
      assert Pow2(0) == 1;
    } else {
      PowAdd(m - 1, n);
      PowNext(m - 1);
      PowNext(m - 1 + n);
      hide Pow2;
      Associate(2, Pow2(m - 1), Pow2(n));
    }
  }

  lemma PowNext(n: nat)
    ensures Pow2(n + 1) == 2 * Pow2(n)
  {
  }

  lemma Associate(a: int, b: int, c: int)
    ensures a * (b * c) == (a * b) * c
  {
  }

  lemma {:induction false} PowTriple(b: nat)
    ensures Pow2(3 * b) == Cube(Pow2(b))
  {
    hide Pow2;
    PowAdd(b, 2 * b);
    PowAdd(b, b);
    assert 3 * b == b + 2 * b && 2 * b == b + b;
    Associate(Pow2(b), Pow2(b), Pow2(b));
  }

  /** With `bits` significant bits, three times the exponent leaves four to six. */
  lemma ExponentRange(bits: nat)
    requires 7 <= bits <= 64
    ensures 1 <= Exponent(bits) <= 20 && 3 * Exponent(bits) + 4 <= bits <= 3 * Exponent(bits) + 6
  {
  }

  lemma PowLiterals()
    ensures Pow2(3) == 8 && Pow2(6) == 64 && Pow2(20) == 0x100000 && Pow2(64) == U64
  {
    PowAdd(10, 10);
    assert Pow2(8) == 256;
    PowAdd(8, 8);
    PowAdd(16, 16);
    PowAdd(32, 32);
    assert Pow2(10) == 1024 by { PowAdd(8, 2); }
  }

  lemma {:induction false} BitsRange(a: nat)
    requires a < U64
    ensures Fls(a) <= 64
  {
    hide Fls, Pow2;
    PowLiterals();
    if Fls(a) > 64 { PowMonotone(64, Fls(a) - 1); }
  }

  /** `shift` is between 8 and 63, and brackets `a`. */
  lemma {:induction false} IndexRange(a: nat)
    requires 64 <= a < U64
    ensures Fls(a) >= 7 && 1 <= Exponent(Fls(a)) <= 20
    ensures 8 <= Index(a) < 64 && Brackets(Index(a), Pow2(Exponent(Fls(a))), a)
  {
    hide Cube, Exponent, Fls, Pow2, Div, Brackets;
    SmallArgument(a);
    BitsRange(a);
    var bits := Fls(a);
    ExponentRange(bits);
    var b := Exponent(bits);
    PowTriple(b);
    ThreeMoreBits(3 * b);
    PowMonotone(3 * b + 3, bits - 1);
    PowMonotone(bits, 3 * b + 6);
    BracketsOf(a, Pow2(b), Pow2(3 * b));
  }

  lemma ThreeMoreBits(n: nat)
    ensures Pow2(n + 3) == 8 * Pow2(n) && Pow2(n + 6) == 64 * Pow2(n)
  {
    PowNext(n);
    PowNext(n + 1);
    PowNext(n + 2);
    PowNext(n + 3);
    PowNext(n + 4);
    PowNext(n + 5);
  }

  lemma BracketsOf(a: nat, p: nat, p3: nat)
    requires p3 == Cube(p) && p3 > 0 && 8 * p3 <= a < 64 * p3
    ensures 8 <= Div(a, p3) < 64 && Brackets(Div(a, p3), p, a)
  {
    hide Cube;
    Quotient(a, p3, 8);
    Quotient(a, p3, 64);
  }

  lemma Quotient(a: nat, d: nat, n: nat)
    requires d > 0
    ensures (a / d) * d <= a < (a / d + 1) * d
    ensures n * d <= a ==> n <= a / d
    ensures a < n * d ==> a / d < n
  {
    var q := a / d;
    assert a == q * d + a % d;
    OneMore(q, d);
    ProductMonotone(q + 1, n, d);
    ProductMonotone(n, q, d);
  }

  // ----- the table -----

  lemma EntryRange(k: nat)
    requires 8 <= k < 64
    ensures 133 <= Entry(k) + 10 <= 264
  {
  }

  /** The guess overshoots the cube root by at most a factor whose cube is 1.1634. */
  lemma EntryFromAbove(k: nat)
    requires 8 <= k < 64
    ensures 10000 * Cube(Entry(k) + 10) <= 11634 * 262144 * k
  {
  }

  /** From below at scale 16 and more. */
  lemma EntryFromBelow(k: nat)
    requires 8 <= k < 64
    ensures 10 * Cube(16 * (Entry(k) + 10) - 63) >= 9 * 4096 * 262144 * (k + 1)
  {
  }

  /** From below at scale 8. */
  lemma EntryAtEight(k: nat)
    requires 8 <= k < 64
    ensures 10 * Cube((Entry(k) + 10) - 7) >= 8 * 262144 * (k + 1)
  {
  }

  /** At scale 4 the guess is one of nine values. */
  lemma TableAtFour(k: nat)
    requires 8 <= k < 64
    ensures var x := (Entry(k) + 10) / 16;
            || (x == 8 && k < 10) || (x == 9 && k < 14) || (x == 10 && k < 19) || (x == 11 && k < 25) || (x == 12 && k < 32)
            || (x == 13 && k < 39) || (x == 14 && k < 48) || (x == 15 && k < 58) || x == 16
  {
  }

  /** At scale 2 the guess is one of five values. */
  lemma TableAtTwo(k: nat)
    requires 8 <= k < 64
    ensures var x := (Entry(k) + 10) / 32;
            || (x == 4 && k < 14) || (x == 5 && 14 <= k < 25) || (x == 6 && 25 <= k < 39)
            || (x == 7 && 39 <= k < 58) || (x == 8 && 58 <= k)
  {
  }

  // ----- cubes -----

  lemma CubeMonotone(a: nat, b: nat)
    ensures a <= b ==> Cube(a) <= Cube(b)
    ensures Cube(a) < Cube(b) ==> a < b
  {
    hide Cube;
    if a <= b { CubeOfLess(a, b); } else { CubeOfLess(b, a); }
  }

  lemma CubeOfLess(a: nat, b: nat)
    requires a <= b
    ensures Cube(a) <= Cube(b)
  {
    ProductMonotone(a, b, a);
    ProductMonotone(a, b, b);
    ProductMonotone(a * a, b * b, a);
    ProductMonotone(a, b, b * b);
  }

  lemma CubeProduct(a: int, b: int)
    ensures Cube(a * b) == Cube(a) * Cube(b)
  {
    assert (a * b) * (a * b) == (a * a) * (b * b);
    assert (a * a) * (b * b) * (a * b) == (a * a * a) * (b * b * b);
  }

  /** What `u <= v` gives for cubes of products. */
  lemma CubesOfProducts(a: nat, b: nat, c: nat, d: nat)
    requires a * b <= c * d
    ensures Cube(a) * Cube(b) <= Cube(c) * Cube(d)
  {
    CubeProduct(a, b);
    CubeProduct(c, d);
    CubeMonotone(a * b, c * d);
  }

  // ----- the guess -----

  /** The exact value of the look-up: 64 times it is the scaled entry, rounded. */
  lemma {:induction false} GuessExact(a: nat)
    requires 64 <= a < U64
    ensures Fls(a) >= 7 && 8 <= Index(a) < 64
    ensures LooksUp(Guess(a), Entry(Index(a)) + 10, Pow2(Exponent(Fls(a))))
  {
    hide Entry, Cube, Fls, Pow2, Exponent, Index;
    IndexRange(a);
    var k, b := Index(a), Exponent(Fls(a));
    EntryRange(k);
    PowMonotone(b, 20);
    PowLiterals();
    var t, p := Entry(k) + 10, Pow2(b);
    Chain(t, 264, 264 * p, p);
  }

  lemma Chain(a: int, b: int, c: int, k: int)
    requires a <= b && k >= 0 && b * k <= c
    ensures a * k <= c
  {
    assert a * k <= b * k;
  }

  lemma GuessAtMost(x: nat, t: nat, p: nat, k: nat, a: nat)
    requires LooksUp(x, t, p) && Brackets(k, p, a) && 10000 * Cube(t) <= 11634 * 262144 * k
    ensures 10000 * Cube(x) <= 11634 * a
  {
    hide Cube;
    CubesOfProducts(64, x, t, p);
    Literals();
    CubeMonotoneFromZero(p);
    CancelSmall(a, k, Cube(p), Cube(t), Cube(x));
  }

  lemma CancelSmall(a: int, k: int, p3: int, ct: int, cx: int)
    requires k * p3 <= a && p3 >= 0 && 262144 * cx <= ct * p3 && 10000 * ct <= 11634 * 262144 * k
    ensures 10000 * cx <= 11634 * a
  {
    Chain(10000 * ct, 11634 * 262144 * k, (11634 * 262144 * k) * p3, p3);
    Associate(11634 * 262144, k, p3);
    Associate(10000, ct, p3);
  }

  lemma CubeMonotoneFromZero(p: nat)
    ensures Cube(p) >= 0
  {
  }

  lemma Literals()
    ensures Cube(64) == 262144 && Cube(16) == 4096
  {
  }

  /** Scale 16 and more: the guess is at least 0.9 in cube. */
  lemma GuessAtLeast(x: nat, t: nat, p: nat, k: nat, a: nat)
    requires p >= 16 && t >= 4 && LooksUp(x, t, p) && Brackets(k, p, a)
    requires 10 * Cube(16 * t - 63) >= 9 * 4096 * 262144 * (k + 1)
    ensures 10 * Cube(x) >= 9 * a
  {
    hide Cube, LooksUp;
    var u: nat := 16 * t - 63;
    ScaledDown(x, t, p);
    CubesOfProducts(u, p, 1024, x);
    assert Cube(1024) == 4096 * 262144 by { CubeProduct(16, 64); Literals(); }
    CubeMonotoneFromZero(p);
    CancelScale(a, k + 1, Cube(p), Cube(u), Cube(x));
  }

  lemma ScaledDown(x: nat, t: nat, p: nat)
    requires LooksUp(x, t, p) && p >= 16 && t >= 4
    ensures (16 * t - 63) * p <= 1024 * x
  {
    SubtractScaled(16 * t, 63, p);
    Associate(16, t, p);
  }

  lemma SubtractScaled(m: int, n: int, p: int)
    ensures (m - n) * p == m * p - n * p
  {
  }

  lemma CancelScale(a: int, k: int, p3: int, cu: int, cx: int)
    requires a < k * p3 && p3 >= 0
    requires 9 * 4096 * 262144 * k <= 10 * cu && cu * p3 <= 4096 * 262144 * cx
    ensures 9 * a <= 10 * cx
  {
    Chain(9 * 4096 * 262144 * k, 10 * cu, (10 * cu) * p3, p3);
    Associate(9 * 4096 * 262144, k, p3);
    Associate(10, cu, p3);
  }

  /** How close the look-up at scale `2^b` is, in cubes. */
  lemma {:induction false} LookUpClose(x: nat, b: nat, k: nat, a: nat)
    requires 1 <= b <= 20 && 8 <= k < 64
    requires LooksUp(x, Entry(k) + 10, Pow2(b)) && Brackets(k, Pow2(b), a)
    ensures x >= 4 && 10000 * Cube(x) <= 11634 * a
    ensures a >= 512 ==> 10 * Cube(x) >= 8 * a
    ensures a >= 32768 ==> 10 * Cube(x) >= 9 * a
    ensures a < 512 ==> k == a / 8 && x == (Entry(k) + 10) / 32
  {
    hide Entry, Cube, Pow2, LooksUp, Brackets;
    var t, p := Entry(k) + 10, Pow2(b);
    EntryRange(k);
    EntryFromAbove(k);
    GuessAtMost(x, t, p, k, a);
    ScaleOf(b, a, k);
    AtLeastFour(x, t, p);
    if b >= 4 {
      EntryFromBelow(k);
      GuessAtLeast(x, t, p, k, a);
    } else {
      LookUpCloseBelow(x, b, k, a);
    }
  }

  lemma {:induction false} LookUpCloseBelow(x: nat, b: nat, k: nat, a: nat)
    requires 1 <= b < 4 && 8 <= k < 64 && LooksUp(x, Entry(k) + 10, Pow2(b)) && Brackets(k, Pow2(b), a)
    ensures b >= 2 ==> 10 * Cube(x) >= 8 * a
    ensures b == 1 ==> x == (Entry(k) + 10) / 32
  {
    hide Entry, Cube, Pow2;
    Literal8();
    EntryRange(k);
    if b == 3 {
      GuessAtEight(x, Entry(k) + 10, k, a);
    } else if b == 2 {
      GuessAtFour(x, Entry(k) + 10, k, a);
    }
  }

  lemma AtLeastFour(x: nat, t: nat, p: nat)
    requires LooksUp(x, t, p) && t >= 133 && p >= 2
    ensures x >= 4
  {
    Chain(133, t, t * p, p);
  }

  lemma {:induction false} GuessClose(a: nat)
    requires 64 <= a < U64
    ensures Fls(a) >= 7 && Index(a) < 64 && Guess(a) >= 4
    ensures 10000 * Cube(Guess(a)) <= 11634 * a
    ensures a >= 512 ==> 10 * Cube(Guess(a)) >= 8 * a
    ensures a >= 32768 ==> 10 * Cube(Guess(a)) >= 9 * a
    ensures a < 512 ==> 8 <= a / 8 < 64 && Guess(a) == (Entry(a / 8) + 10) / 32
  {
    hide Entry, Cube, Fls, Pow2, Exponent, Index, Guess, LooksUp, Brackets;
    IndexRange(a);
    GuessExact(a);
    LookUpClose(Guess(a), Exponent(Fls(a)), Index(a), a);
  }

  lemma GuessAtEight(x: nat, t: nat, k: nat, a: nat)
    requires x == (t * 8) / 64 && 133 <= t && 8 <= k < 64 && t == Entry(k) + 10 && a < (k + 1) * 512
    ensures 10 * Cube(x) >= 8 * a
  {
    hide Entry, Cube;
    EntryAtEight(k);
    CubeMonotone(t - 7, 8 * x);
    CubeProduct(8, x);
    Literal8();
  }

  lemma GuessAtFour(x: nat, t: nat, k: nat, a: nat)
    requires x == (t * 4) / 64 && 8 <= k < 64 && t == Entry(k) + 10 && a < (k + 1) * 64
    ensures 10 * Cube(x) >= 8 * a
  {
    hide Entry;
    TableAtFour(k);
    assert Cube(8) == 512 && Cube(9) == 729 && Cube(10) == 1000 && Cube(11) == 1331 && Cube(12) == 1728
        && Cube(13) == 2197 && Cube(14) == 2744 && Cube(15) == 3375 && Cube(16) == 4096;
  }

  lemma Literal8()
    ensures Pow2(1) == 2 && Pow2(2) == 4 && Pow2(3) == 8 && Pow2(4) == 16
    ensures Cube(2) == 8 && Cube(4) == 64 && Cube(8) == 512 && Cube(16) == 4096
  {
  }

  /** Which arguments use which scale. */
  lemma {:induction false} ScaleOf(b: nat, a: nat, k: nat)
    requires 1 <= b <= 20 && 8 <= k < 64 && Brackets(k, Pow2(b), a)
    ensures Pow2(b) >= 2 && (b >= 4 ==> Pow2(b) >= 16)
    ensures a >= 512 ==> b >= 2
    ensures a >= 32768 ==> b >= 4
    ensures a < 512 ==> b == 1 && k == a / 8
  {
    Literal8();
    if b >= 2 {
      PowMonotone(2, b);
      CubeMonotone(4, Pow2(b));
      Chain(8, k, k * Cube(Pow2(b)), Cube(Pow2(b)));
    }
    if b >= 4 { PowMonotone(4, b); }
  }

  // ----- the Newton step -----

  /** No narrowing to 32 bits changes a value. */
  predicate NoWrap(x: nat, a: nat)
    requires x > 1
  {
    2 * x < U32 && Quot(x, a) < U32 && (2 * x + Quot(x, a)) * 341 < U32
  }

  lemma NewtonExact(x: nat, a: nat)
    requires x > 1 && NoWrap(x, a)
    ensures Newton(x, a) == ((2 * x + Quot(x, a)) * 341) / 1024
  {
  }

  /** The quotient of the step, as inequalities. */
  lemma QuotientOf(x: nat, a: nat, q: nat)
    requires x > 1 && q == Quot(x, a)
    ensures q * x * x <= a + q * x
    ensures a <= (q + 1) * x * x
  {
    var d := x * (x - 1);
    Quotient(a, d, 0);
    assert q * d == q * x * x - q * x;
    assert (q + 1) * d == (q + 1) * x * x - (q + 1) * x;
  }

  lemma QuotientSmall(x: nat, a: nat, q: nat)
    requires x >= 4 && q == Quot(x, a) && 10 * Cube(x) >= 8 * a
    ensures q <= 2 * x
  {
    var d, x2 := x * (x - 1), x * x;
    Chain(4, x, x * x2, x2);
    Chain(4, x, x2, x);
    assert (2 * x + 1) * d == 2 * (x * x2) - x2 - x;
    assert Cube(x) == x * x2;
    Quotient(a, d, 2 * x + 1);
  }

  /** What the step's cube has, and what it has too much. */
  function Mean(t: int, a: int): int { a * (t * t) }

  function Excess(t: int, a: int): int { ((a - t) * (a - t)) * (a + 8 * t) }

  /** The inequality of means behind Newton's method, with its exact error. */
  lemma MeansIdentity(t: int, a: int)
    ensures Cube(2 * t + a) == 27 * Mean(t, a) + Excess(t, a)
  {
    var d := a - t;
    assert a == t + d;
    assert Cube(3 * t + d) == 27 * (t * t * t) + 27 * (t * t * d) + 9 * (t * d * d) + d * d * d;
    assert a * (t * t) == t * t * t + t * t * d;
    assert (d * d) * (d + 9 * t) == d * d * d + 9 * (t * d * d);
  }

  lemma Products(u: nat, v: nat, w: nat, z: nat)
    ensures u <= v && w <= z ==> u * w <= v * z
  {
    if u <= v && w <= z { assert u * w <= v * w <= v * z; }
  }

  /** The error term, from how far `t` is from `a` relative to `t`. */
  lemma ErrorTerm(t: nat, a: nat, d: nat, m: nat, n: nat, r: nat, c: nat)
    requires (d == a - t || d == t - a) && m * d <= n * t && r * (a + 8 * t) <= c * a
    ensures (m * m * r) * Excess(t, a) <= (n * n * c) * Mean(t, a)
  {
    Squares(m, d, n, t);
    MultiplyBounds(m * m, d * d, n * n, t * t, r, a + 8 * t, c, a);
    AsProducts(t, a, d);
  }

  lemma MultiplyBounds(m: nat, d: nat, n: nat, t: nat, r: nat, b: nat, c: nat, a: nat)
    requires m * d <= n * t && r * b <= c * a
    ensures (m * r) * (d * b) <= (n * c) * (t * a)
  {
    Products(m * d, n * t, r * b, c * a);
    Regroup(m, d, r, b);
    Regroup(n, t, c, a);
  }

  lemma AsProducts(t: nat, a: nat, d: nat)
    requires d == a - t || d == t - a
    ensures Excess(t, a) == (d * d) * (a + 8 * t) && Mean(t, a) == (t * t) * a
  {
    SquareOfDifference(t, a);
  }

  lemma Squares(m: nat, d: nat, n: nat, t: nat)
    requires m * d <= n * t
    ensures (m * m) * (d * d) <= (n * n) * (t * t)
  {
    Regroup(m, d, m, d);
    Regroup(n, t, n, t);
    Products(m * d, n * t, m * d, n * t);
  }

  lemma Regroup(u: int, v: int, w: int, z: int)
    ensures (u * v) * (w * z) == (u * w) * (v * z)
  {
    assert (u * v) * (w * z) == u * (v * (w * z)) == u * (w * (v * z));
  }

  lemma SquareOfDifference(t: int, a: int)
    ensures (t - a) * (t - a) == (a - t) * (a - t)
  {
  }

  /** The step from a guess within the table's bounds overshoots by little. */
  lemma MeansUpper(t: nat, a: nat)
    requires 10000 * t <= 11634 * a && 10 * t >= 8 * a
    ensures 10000 * Cube(2 * t + a) <= 275625 * Mean(t, a)
    ensures 10 * t >= 9 * a ==> 10000 * Cube(2 * t + a) <= 272052 * Mean(t, a)
  {
    hide Cube, Mean, Excess;
    MeansIdentity(t, a);
    MeanSign(t, a);
    var e, u := Excess(t, a), Mean(t, a);
    if t >= a {
      ErrorTerm(t, a, t - a, 11634, 1634, 10000, 103072);
      WithinError(e, u, 11634 * 11634 * 10000, 1634 * 1634 * 103072);
    } else {
      ErrorTerm(t, a, a - t, 4, 1, 1, 9);
      WithinError(e, u, 16, 9);
      if 10 * t >= 9 * a {
        ErrorTerm(t, a, a - t, 9, 1, 1, 9);
        WithinError(e, u, 81, 9);
      }
    }
  }

  /** From `p * e <= q * u` to the two error terms in ten thousandths. */
  lemma WithinError(e: int, u: int, p: int, q: int)
    requires (p == 16 && q == 9) || (p == 81 && q == 9) || (p == 11634 * 11634 * 10000 && q == 1634 * 1634 * 103072)
    requires p * e <= q * u && u >= 0
    ensures 10000 * e <= 5625 * u
    ensures p != 16 ==> 10000 * e <= 2052 * u
  {
  }

  lemma CancelCommon(u: int, v: int, w: int)
    requires w > 0
    ensures u * w <= v * w ==> u <= v
  {
    if v < u { assert (u - v) * w > 0; }
  }

  lemma CubeTriple(y: nat, x: nat)
    ensures Cube(y * x * x) == Cube(y) * (Cube(x) * Cube(x))
  {
    CubeProduct(y * x, x);
    CubeProduct(y, x);
    assert Cube(y) * Cube(x) * Cube(x) == Cube(y) * (Cube(x) * Cube(x));
  }

  lemma StepFromBelow(x: nat, a: nat, q: nat)
    requires x > 1 && q == Quot(x, a)
    ensures 2 * Cube(x) + a <= (2 * x + q + 1) * x * x
  {
    hide Cube;
    QuotientOf(x, a, q);
    ExpandUp(x, q);
    CubeIs(x);
  }

  lemma ExpandUp(x: int, q: int)
    ensures (2 * x + q + 1) * x * x == 2 * (x * x * x) + (q + 1) * x * x
  {
  }

  lemma StepFromAbove(x: nat, a: nat, q: nat)
    requires x >= 4 && q == Quot(x, a) && q <= 2 * x
    ensures (2 * x + q - 2) * x * x <= 2 * Cube(x) + a
  {
    hide Cube;
    QuotientOf(x, a, q);
    Chain(q, 2 * x, 2 * x * x, x);
    Expand(x, q);
    CubeIs(x);
  }

  lemma Expand(x: int, q: int)
    ensures (2 * x + q - 2) * x * x == 2 * (x * x * x) + q * x * x - 2 * x * x
  {
  }

  /** From an unscaled result over `x * x` to its cube, and back off the `t * t`. */
  lemma CubeFromBelow(y: nat, x: nat, a: nat)
    requires x > 0 && 2 * Cube(x) + a <= y * x * x
    ensures 27 * a <= Cube(y)
  {
    hide Cube, Mean, Excess;
    CubeIs(x);
    var t := Cube(x);
    CubeMonotone(2 * t + a, y * x * x);
    CubeTriple(y, x);
    MeansIdentity(t, a);
    MeanSign(t, a);
    CancelMean(27 * a, Cube(y), t, a, 27);
  }

  lemma MeanSign(t: nat, a: nat)
    ensures Excess(t, a) >= 0 && Mean(t, a) >= 0
  {
    SquareSign(a - t);
    SquareSign(t);
    ProductSign((a - t) * (a - t), a + 8 * t);
    ProductSign(a, t * t);
  }

  lemma SquareSign(x: int)
    ensures x * x >= 0
  {
  }

  lemma ProductSign(x: int, y: int)
    requires x >= 0 && y >= 0
    ensures x * y >= 0
  {
  }

  /** `k` means over `t * t` are `k * a`. */
  lemma CancelMean(ka: int, c: int, t: nat, a: nat, k: nat)
    requires t > 0 && ka == k * a
    ensures k * Mean(t, a) <= c * (t * t) ==> ka <= c
    ensures c * (t * t) <= k * Mean(t, a) ==> c <= ka
  {
    Associate(k, a, t * t);
    assert t * t > 0 by { ProductMonotone(1, t, t); }
    CancelCommon(ka, c, t * t);
    CancelCommon(c, ka, t * t);
  }

  lemma CubeFromAbove(y: nat, x: nat, a: nat, k: nat)
    requires x > 0 && y * x * x <= 2 * Cube(x) + a
    requires 10000 * Cube(2 * Cube(x) + a) <= k * Mean(Cube(x), a)
    ensures 10000 * Cube(y) <= k * a
  {
    hide Cube, Mean;
    CubeIs(x);
    var t := Cube(x);
    CubeMonotone(y * x * x, 2 * t + a);
    CubeTriple(y, x);
    Associate(10000, Cube(y), t * t);
    CancelMean(k * a, 10000 * Cube(y), t, a, k);
  }

  /** The unscaled result of the step is not below the true cube root by more
      than the rounding, whatever the guess. */
  lemma StepLower(x: nat, a: nat, q: nat)
    requires x > 1 && q == Quot(x, a)
    ensures Cube(2 * x + q + 1) >= 27 * a
  {
    hide Cube;
    StepFromBelow(x, a, q);
    CubeFromBelow(2 * x + q + 1, x, a);
  }

  lemma CubeIs(x: nat)
    ensures Cube(x) == x * x * x && (x > 0 ==> Cube(x) > 0)
  {
  }

  /** Nor above it by much, when the guess is within the table's bounds. */
  lemma StepUpper(x: nat, a: nat, q: nat)
    requires x >= 4 && q == Quot(x, a)
    requires 10000 * Cube(x) <= 11634 * a && 10 * Cube(x) >= 8 * a
    ensures q <= 2 * x
    ensures 10000 * Cube(2 * x + q - 2) <= 275625 * a
    ensures 10 * Cube(x) >= 9 * a ==> 10000 * Cube(2 * x + q - 2) <= 272052 * a
  {
    hide Cube;
    QuotientSmall(x, a, q);
    StepFromAbove(x, a, q);
    CubeIs(x);
    MeansUpper(Cube(x), a);
    CubeFromAbove(2 * x + q - 2, x, a, 275625);
    if 10 * Cube(x) >= 9 * a { CubeFromAbove(2 * x + q - 2, x, a, 272052); }
  }

  // ----- the error band -----

  const CUBE_1023: int := 1070599167
  const CUBE_1024: int := 1073741824

  lemma ScaleCubes()
    ensures Cube(1023) == CUBE_1023 && Cube(1024) == CUBE_1024
  {
  }

  /** From below: `a` is at most the cube of `(r + 2) * 1024 / 1023`. */
  predicate AtLeast(r: int, a: int) {
    CUBE_1023 * a <= CUBE_1024 * Cube(r + 2)
  }

  /** From above: the cube of `(r - 1) * 1024 / 1023` is at most 1.0076 times `a`. */
  predicate AtMost(r: int, a: int) {
    10000 * (CUBE_1024 * Cube(r - 1)) <= 10076 * (CUBE_1023 * a)
  }

  /** The last scaling, `x * 341 >> 10`, from below. */
  lemma ScaleLower(s: nat, a: nat)
    requires Cube(s + 1) >= 27 * a
    ensures AtLeast((s * 341) / 1024, a)
  {
    hide Cube;
    var r: nat := (s * 341) / 1024;
    CubesOfProducts(341, s + 1, 1024, r + 2);
    ScaleCubes();
    assert Cube(1023) == Cube(341) * 27 by { CubeProduct(341, 3); ThreeCubed(); }
    CubeMonotoneFromZero(341);
    Chain(27 * a, Cube(s + 1), Cube(s + 1) * Cube(341), Cube(341));
  }

  lemma ThreeCubed()
    ensures Cube(3) == 27 && Cube(341) == 39651821 && Cube(338) == 38614472
  {
  }

  /** And from above: `y` is the unscaled result less two. */
  lemma ScaleUpper(y: nat, a: nat)
    requires 10000 * Cube(y) <= 275625 * a
    requires 10000 * Cube(y) <= 272052 * a || a < 32768
    ensures AtMost(((y + 2) * 341) / 1024, a)
  {
    hide Cube;
    var r: nat := ((y + 2) * 341) / 1024;
    ThreeCubed();
    ScaleCubes();
    CubeProduct(341, 3);
    if r == 0 {
      assert Cube(-1) == -1 by { MinusOne(); }
    } else if 10000 * Cube(y) <= 272052 * a {
      CubesOfProducts(1024, r - 1, 341, y);
    } else {
      assert y < 115 by { CubeMonotone(y, 115); assert Cube(115) == 1520875 by { OneFifteen(); } }
      CubesOfProducts(1024, r - 1, 338, y);
    }
  }

  lemma MinusOne()
    ensures Cube(-1) == -1
  {
  }

  lemma OneFifteen()
    ensures Cube(115) == 1520875
  {
  }

  // ----- arguments of at most nine bits -----

  /** Below 64 the table is the answer. */
  lemma SmallRoot(a: nat)
    requires a < 64
    ensures AtLeast((Entry(a) + 35) / 64, a) && AtMost((Entry(a) + 35) / 64, a)
  {
    hide Entry;
    SmallRootValue(a);
    assert Cube(-1) == -1 && Cube(0) == 0 && Cube(1) == 1 && Cube(2) == 8 && Cube(3) == 27
        && Cube(4) == 64 && Cube(5) == 125 && Cube(6) == 216;
  }

  lemma SmallRootValue(a: nat)
    requires a < 64
    ensures var r := (Entry(a) + 35) / 64;
            || (r == 0 && a == 0) || (r == 1 && 1 <= a <= 3) || (r == 2 && 4 <= a <= 15)
            || (r == 3 && 16 <= a <= 41) || (r == 4 && 42 <= a)
  {
  }

  /** At scale 2 the step is exact enough by inspection of its five guesses. */
  lemma ScaleTwoUpper(a: nat, x: nat, q: nat)
    requires 64 <= a < 512 && 8 <= a / 8 < 64 && x == (Entry(a / 8) + 10) / 32 && 4 <= x && q == Quot(x, a)
    ensures x <= 8 && q <= 11 && AtMost(((2 * x + q) * 341) / 1024, a)
  {
    hide Entry;
    TableAtTwo(a / 8);
    var r := ((2 * x + q) * 341) / 1024;
    assert 5 * 4 == 20 && 6 * 5 == 30 && 7 * 6 == 42 && 8 * 7 == 56;
    assert (x == 4 && r <= 5) || (x == 5 && r <= 6 && (r == 6 ==> a >= 180)) || (x == 6 && r <= 7 && (r == 7 ==> a >= 300))
        || (x == 7 && r <= 8 && (r == 8 ==> a >= 462)) || (x == 8 && r <= 8);
    assert Cube(r - 1) <= a by { RootCube(r, a); }
  }

  lemma RootCube(r: nat, a: nat)
    requires r <= 8 && a >= 64
    requires (r > 5 ==> a >= 126) && (r > 6 ==> a >= 217) && (r > 7 ==> a >= 344)
    ensures Cube(r - 1) <= a
  {
    assert Cube(-1) == -1 && Cube(0) == 0 && Cube(1) == 1 && Cube(2) == 8 && Cube(3) == 27
        && Cube(4) == 64 && Cube(5) == 125 && Cube(6) == 216 && Cube(7) == 343;
  }

  // ----- the main result -----

  /** For every 64-bit argument the table index is in range, the divisor is at
      least 12, and no 32-bit step wraps around. */
  lemma {:induction false} LookUpAndStepAreSafe(a: nat)
    requires 64 <= a < U64
    ensures Fls(a) >= 7 && 8 <= Index(a) < 64
    ensures var x := Guess(a); x >= 4 && x * (x - 1) >= 12 && NoWrap(x, a)
  {
    hide Cube, Entry, Fls, Pow2, Exponent, Index, Guess, Quot;
    IndexRange(a);
    GuessClose(a);
    var x := Guess(a);
    var q := Quot(x, a);
    Chain(4, x, x * (x - 1), x - 1);
    if a < 512 {
      TableAtTwo(a / 8);
      ScaleTwoUpper(a, x, q);
    } else {
      QuotientSmall(x, a, q);
      CubeMonotone(x, 2780000);
      LargeCube();
    }
  }

  lemma LargeCube()
    ensures 10000 * Cube(2780000) > 11634 * U64
  {
  }

  /** The error band, for every 64-bit argument: the result r satisfies
      1023^3 a <= 1024^3 (r+2)^3 and 1024^3 (r-1)^3 <= 1.0076 * 1023^3 a. */
  lemma CubicRootBounds(a: nat)
    requires a < U64
    ensures AtLeast(CubicRoot(a), a) && AtMost(CubicRoot(a), a)
  {
    hide Entry, Fls, Index, Guess, AtLeast, AtMost, Newton, Cube, Quot;
    SmallArgument(a);
    if a < 64 {
      SmallRoot(a);
    } else {
      GuessClose(a);
      LookUpAndStepAreSafe(a);
      NewtonExact(Guess(a), a);
      NewtonBounds(Guess(a), a);
    }
  }

  lemma NewtonBounds(x: nat, a: nat)
    requires x >= 4 && a >= 64 && 10000 * Cube(x) <= 11634 * a
    requires a >= 512 ==> 10 * Cube(x) >= 8 * a
    requires a >= 32768 ==> 10 * Cube(x) >= 9 * a
    requires a < 512 ==> x == (Entry(a / 8) + 10) / 32
    ensures var r := ((2 * x + Quot(x, a)) * 341) / 1024; AtLeast(r, a) && AtMost(r, a)
  {
    hide Entry, AtLeast, AtMost, Cube, Quot;
    var q := Quot(x, a);
    StepLower(x, a, q);
    ScaleLower(2 * x + q, a);
    if a < 512 {
      ScaleTwoUpper(a, x, q);
    } else {
      StepUpper(x, a, q);
      var y: nat := 2 * x + q - 2;
      ScaleUpper(y, a);
      assert y + 2 == 2 * x + q;
    }
  }
}
