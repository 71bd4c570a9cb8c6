/**
 `int(a / b)` on integers, as Python computes it: the quotient is rounded to the nearest
 number with a 53-bit significand, ties to even, and then truncated.
 */
module PythonDivision {
  const TWO_52 := 0x10_0000_0000_0000
  const TWO_53 := 0x20_0000_0000_0000

  function Pow2(n: nat): (r: nat)
    ensures r > 0
  {
    if n == 0 then 1 else 2 * Pow2(n - 1)
  }

  /** The integer nearest to n / d, the even one of two. */
  function RoundHalfEven(n: nat, d: nat): nat
    requires d > 0
  {
    Rounded(n / d, n % d, d)
  }

  /** The same for n = q * d + r. */
  function Rounded(q: nat, r: nat, d: nat): nat {
    if 2 * r < d || (2 * r == d && q % 2 == 0) then q else q + 1
  }

  /** How often a must be doubled for a / b to reach 2^52. */
  function Shift(a: nat, b: nat): nat
    requires a > 0 && b > 0
    decreases TWO_52 * b - a
  {
    if a >= TWO_52 * b then 0 else 1 + Shift(2 * a, b)
  }

  /** How often b must be doubled for a / b to fall below 2^53. */
  function Drop(a: nat, b: nat): nat
    requires b > 0
    decreases a - b
  {
    if a < TWO_53 * b then 0 else 1 + Drop(a, 2 * b)
  }

  /** `int(a / b)`. */
  function IntOfQuotient(a: nat, b: nat): nat
    requires b > 0
  {
    if a == 0 then 0
    else if a < TWO_53 * b then
      var scale := Pow2(Shift(a, b));
      RoundHalfEven(a * scale, b) / scale
    else
      var scale := Pow2(Drop(a, b));
      RoundHalfEven(a, b * scale) * scale
  }

  /* ---------- Multiplication ---------- */

  lemma {:induction false} MulMono(a: int, b: int, c: int)
    requires a <= b && c >= 0
    ensures a * c <= b * c
  {
    assert (b - a) * c >= 0;
    MulDistributes(b, -a, c);
  }

  lemma {:induction false} MulDistributes(a: int, b: int, c: int)
    ensures (a + b) * c == a * c + b * c
  {
  }

  lemma {:induction false} SameQuotient(d: int, q: int, r: int, q': int, r': int)
    requires d > 0 && q * d + r == q' * d + r' && 0 <= r < d && 0 <= r' < d
    ensures q == q' && r == r'
  {
    if q < q' {
      MulMono(q + 1, q', d);
      MulDistributes(q, 1, d);
    } else if q > q' {
      MulMono(q' + 1, q, d);
      MulDistributes(q', 1, d);
    }
  }

  lemma {:induction false} DivisionIsUnique(n: int, d: int, q: int, r: int)
    requires d > 0 && n == q * d + r && 0 <= r < d
    ensures n / d == q && n % d == r
  {
    SameQuotient(d, n / d, n % d, q, r);
  }

  /* ---------- Rounding ---------- */

  /** The scaled quotient needs exactly 53 bits. */
  lemma {:induction false} ShiftReaches(a: nat, b: nat)
    requires 0 < a < TWO_53 * b
    ensures TWO_52 * b <= a * Pow2(Shift(a, b)) < TWO_53 * b
    decreases TWO_52 * b - a
  {
    if a < TWO_52 * b {
      ShiftReaches(2 * a, b);
      var p := Pow2(Shift(2 * a, b));
      assert a * (2 * p) == 2 * a * p;
    }
  }

  /** Rounding is to the nearest integer. */
  lemma {:induction false} RoundIsNearest(n: nat, d: nat)
    requires d > 0
    ensures 2 * n - d <= 2 * (RoundHalfEven(n, d) * d) <= 2 * n + d
  {
    MulDistributes(n / d, 1, d);
  }

  lemma {:induction false} RoundOf(n: nat, d: nat, q: nat, r: nat)
    requires d > 0 && r < d && n == q * d + r
    ensures RoundHalfEven(n, d) == Rounded(q, r, d)
  {
    DivisionIsUnique(n, d, q, r);
  }

  /** A remainder r scaled up to n, which is gap below scale * b, rounds to the scale exactly when
      the gap is within half a unit. */
  lemma {:induction false} RoundedRemainder(b: nat, scale: nat, q: nat, s: nat, n: nat, gap: nat)
    requires b > 0 && scale > 1 && scale % 2 == 0 && gap > 0
    requires n == q * b + s && s < b && n + gap == scale * b
    ensures
      var m := Rounded(q, s, b);
      m <= scale && (m < scale <==> 2 * gap > b)
  {
    var missing: int := scale - q;
    MulDistributes(missing, q, b);
    assert missing * b == s + gap;
    if missing <= 0 {
      MulMono(missing, 0, b);
    } else if missing > 1 {
      MulMono(2, missing, b);
    }
  }

  /** When `int(a / b)` is the integer quotient.  Below 2^52 the remainder must stay more than half a
      unit of the last place away from b; from there to 2^53 it must not round up; and above, the
      quotient must be a multiple of the unit of the last place. */
  predicate DividesExactly(a: nat, b: nat)
    requires b > 0
  {
    if a == 0 then true
    else if a < TWO_52 * b then 2 * ((b - a % b) * Pow2(Shift(a, b))) > b
    else if a < TWO_53 * b then 2 * (a % b) < b || (2 * (a % b) == b && a / b % 2 == 0)
    else a / b % Pow2(Drop(a, b)) == 0
  }

  lemma {:induction false} QuotientExactIff(a: nat, b: nat)
    requires b > 0
    ensures IntOfQuotient(a, b) == a / b <==> DividesExactly(a, b)
  {
    if a == 0 {
    } else if a < TWO_52 * b {
      QuotientExactBelow52Bits(a, b);
    } else if a < TWO_53 * b {
      assert IntOfQuotient(a, b) == RoundHalfEven(a, b);
    } else {
      QuotientExactFrom53Bits(a, b);
    }
  }

  lemma {:induction false} QuotientExactBelow52Bits(a: nat, b: nat)
    requires 0 < a < TWO_52 * b
    ensures IntOfQuotient(a, b) == a / b <==> DividesExactly(a, b)
  {
    ScaledQuotient(a, b, a / b, a % b, Pow2(Shift(2 * a, b)));
  }

  lemma {:induction false} QuotientExactFrom53Bits(a: nat, b: nat)
    requires b > 0 && a >= TWO_53 * b
    ensures IntOfQuotient(a, b) == a / b <==> DividesExactly(a, b)
  {
    var scale := 2 * Pow2(Drop(a, 2 * b));
    DroppedQuotient(a, b, scale, a / b, a % b, a / b / scale, a / b % scale);
  }

  /** The quotient is q = u * scale + v. */
  lemma {:induction false} DroppedQuotient(a: nat, b: nat, scale: nat, q: nat, r: nat, u: nat, v: nat)
    requires scale > 1 && a == q * b + r && r < b
    requires q == u * scale + v && v < scale
    ensures RoundHalfEven(a, b * scale) * scale == q <==> v == 0
  {
    var unit, rest := b * scale, v * b + r;
    DroppedRemainder(b, scale, r, v);
    MulDistributes(u * scale, v, b);
    MulCommutes(u, scale, b);
    RoundOf(a, unit, u, rest);
    MulDistributes(u, 1, scale);
  }

  lemma {:induction false} MulCommutes(u: int, scale: int, b: int)
    ensures u * scale * b == u * (b * scale)
  {
  }

  /** What is left of a, and that it rounds down when nothing of the quotient is lost. */
  lemma {:induction false} DroppedRemainder(b: nat, scale: nat, r: nat, v: nat)
    requires scale > 1 && r < b && v < scale
    ensures v * b + r < b * scale
    ensures v == 0 ==> 2 * (v * b + r) < b * scale
  {
    MulMono(v + 1, scale, b);
    MulDistributes(v, 1, b);
    MulMono(2, scale, b);
  }

  lemma {:induction false} ScaledQuotient(a: nat, b: nat, q: nat, r: nat, half: nat)
    requires b > 0 && a == q * b + r && r < b && half > 0
    ensures RoundHalfEven(a * (2 * half), b) / (2 * half) == q <==> 2 * ((b - r) * (2 * half)) > b
  {
    var scale := 2 * half;
    MulDistributes(q * b, r, scale);
    MulSwaps(q, b, scale);
    EvenMultiple(q, half);
    MulDistributes(r, b - r, scale);
    MulMono(1, b - r, scale);
    var n := r * scale;
    ScaledSum(b, q, scale, q * scale, n, n / b, n % b, (b - r) * scale, a * scale);
  }

  /** n = u * b + v is the scaled remainder, and gap the scaled distance of the remainder from b. */
  lemma {:induction false} ScaledSum(
    b: nat, q: nat, scale: nat, k: nat, n: nat, u: nat, v: nat, gap: nat, all: nat)
    requires b > 0 && gap > 0 && scale > 1 && scale % 2 == 0 && k == q * scale && k % 2 == 0
    requires n == u * b + v && v < b && n + gap == scale * b && all == k * b + n
    ensures RoundHalfEven(all, b) / scale == q <==> 2 * gap > b
  {
    EvenSum(all, b, k, u, v, n);
    RoundedRemainder(b, scale, u, v, n, gap);
    TruncatedSum(scale, q, Rounded(u, v, b));
  }

  /** An even number of units does not change how the rest is rounded. */
  lemma {:induction false} EvenSum(all: nat, b: nat, k: nat, u: nat, v: nat, n: nat)
    requires k % 2 == 0 && n == u * b + v && v < b && all == k * b + n
    ensures RoundHalfEven(all, b) == k + Rounded(u, v, b)
  {
    MulDistributes(k, u, b);
    RoundOf(all, b, k + u, v);
    SameParity(k, u);
  }

  lemma {:induction false} SameParity(k: nat, u: nat)
    requires k % 2 == 0
    ensures (k + u) % 2 == u % 2
  {
  }

  lemma {:induction false} MulSwaps(a: int, b: int, c: int)
    ensures (a * b) * c == (a * c) * b
  {
  }

  lemma {:induction false} EvenMultiple(q: nat, half: nat)
    ensures (q * (2 * half)) % 2 == 0
  {
    assert q * (2 * half) == 2 * (q * half);
  }

  lemma {:induction false} TruncatedSum(scale: nat, q: nat, m: nat)
    requires scale > 0 && m <= scale
    ensures (q * scale + m) / scale == q <==> m < scale
  {
    if m < scale {
      DivisionIsUnique(q * scale + m, scale, q, m);
    } else {
      MulDistributes(q, 1, scale);
      DivisionIsUnique(q * scale + m, scale, q + 1, 0);
    }
  }

  /** Offsets and sizes below 2^53 are divided exactly. */
  lemma {:induction false} QuotientExactBelow53Bits(a: nat, b: nat)
    requires b > 0 && a < TWO_53
    ensures IntOfQuotient(a, b) == a / b
  {
    if a == 0 {
    } else if a < TWO_52 * b {
      ShiftReaches(a, b);
      QuotientExactBelow52Bits(a, b);
      RemainderFarEnough(a, b, a % b, Pow2(Shift(a, b)));
    } else {
      assert b == 1;
      assert Shift(a, 1) == 0;
    }
  }

  lemma {:induction false} RemainderFarEnough(a: nat, b: nat, r: nat, scale: nat)
    requires a < TWO_53 && r < b && scale > 0 && a * scale >= TWO_52 * b
    ensures 2 * ((b - r) * scale) > b
  {
    MulMono(a + 1, TWO_53, scale);
    MulDistributes(a, 1, scale);
    MulMono(1, b - r, scale);
  }

  lemma {:induction false} DropReaches(a: nat, b: nat)
    requires b > 0 && a >= TWO_52 * b
    ensures a >= TWO_52 * (b * Pow2(Drop(a, b)))
    decreases a - b
  {
    if a >= TWO_53 * b {
      DropReaches(a, 2 * b);
      var p := Pow2(Drop(a, 2 * b));
      assert b * (2 * p) == 2 * b * p;
    }
  }

  /** A quotient that needs all 53 bits is not rounded below that. */
  lemma {:induction false} QuotientStaysLarge(a: nat, b: nat)
    requires b > 0 && a >= TWO_52 * b
    ensures IntOfQuotient(a, b) >= TWO_52
  {
    DropReaches(a, b);
    var scale := Pow2(Drop(a, b));
    var unit, k := b * scale, TWO_52;
    AtLeast(a, unit, k);
    MulMono(k, RoundHalfEven(a, unit), scale);
    if a < TWO_53 * b {
      assert Shift(a, b) == 0 && Drop(a, b) == 0;
    }
  }

  lemma {:induction false} AtLeast(a: nat, unit: nat, k: nat)
    requires unit > 0 && a >= k * unit
    ensures RoundHalfEven(a, unit) >= k
  {
    if a / unit < k {
      MulMono(a / unit + 1, k, unit);
      MulDistributes(a / unit, 1, unit);
    }
  }

  /** One bit more and it fails: 2^54 - 1 over a 512-byte sector. */
  lemma {:induction false} QuotientInexact()
    ensures IntOfQuotient(2 * TWO_53 - 1, 512) != (2 * TWO_53 - 1) / 512
  {
    var a := 2 * TWO_53 - 1;
    assert Shift(a, 512) == 1 + Shift(2 * a, 512);
    assert Shift(2 * a, 512) == 1 + Shift(4 * a, 512);
    assert Shift(4 * a, 512) == 1 + Shift(8 * a, 512);
    assert Shift(8 * a, 512) == 1 + Shift(16 * a, 512);
    assert Shift(16 * a, 512) == 1 + Shift(32 * a, 512);
    assert Shift(32 * a, 512) == 1 + Shift(64 * a, 512);
    assert Shift(64 * a, 512) == 1 + Shift(128 * a, 512);
    assert Shift(128 * a, 512) == 1 + Shift(256 * a, 512);
    assert Shift(256 * a, 512) == 0;
    assert Pow2(8) == 256;
    QuotientExactBelow52Bits(a, 512);
  }
}
