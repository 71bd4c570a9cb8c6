/** Arithmetic on 32-bit masks: the truncated IPv6 prefix and the broadcast address. */
module Netmask {
  import opened Basics
  import opened PythonDivision

  const IPV4_BITS: nat := 32

  /* ---------- netmask6_to_4_truncate ---------- */

  /** `c * n`, which is empty for a negative n. */
  function Repeat(c: char, n: int): string {
    if n <= 0 then "" else Repeat(c, n - 1) + [c]
  }

  /** `int(s, 2)` on zeros and ones. */
  function BinaryValue(s: string): nat {
    if s == "" then 0 else 2 * BinaryValue(s[..|s| - 1]) + if s[|s| - 1] == '1' then 1 else 0
  }

  /** `int(p / 4)`. */
  function IntOfQuarter(p: int): int {
    var q: int := IntOfQuotient(if p < 0 then -p else p, 4);
    if p < 0 then -q else q
  }

  /** The mask of the given length as a number; the packing into bytes fails above their number of bits. */
  function MaskOf(length: int, bits: nat): Outcome<nat> {
    var mask := BinaryValue(Repeat('1', length) + Repeat('0', bits - length));
    if mask < Pow2(bits) then Ok(mask) else Raised
  }

  function Netmask6To4Truncate(p: int): Outcome<nat> {
    MaskOf(IntOfQuarter(p), IPV4_BITS)
  }

  lemma {:induction false} ValueOfOnes(n: nat)
    ensures BinaryValue(Repeat('1', n)) == Pow2(n) - 1
  {
    if n > 0 {
      ValueOfOnes(n - 1);
      var s := Repeat('1', n);
      assert s[..|s| - 1] == Repeat('1', n - 1);
    }
  }

  lemma {:induction false} ValueWithZeros(s: string, k: nat)
    ensures BinaryValue(s + Repeat('0', k)) == BinaryValue(s) * Pow2(k)
  {
    if k == 0 {
      assert s + "" == s;
    } else {
      ValueWithZeros(s, k - 1);
      ZeroAppended(s + Repeat('0', k - 1));
      assert s + Repeat('0', k) == (s + Repeat('0', k - 1)) + "0";
      Doubled(BinaryValue(s), Pow2(k - 1));
    }
  }

  lemma {:induction false} ZeroAppended(s: string)
    ensures BinaryValue(s + "0") == 2 * BinaryValue(s)
  {
    assert (s + "0")[..|s|] == s;
  }

  lemma {:induction false} Doubled(v: nat, p: nat)
    ensures 2 * (v * p) == v * (2 * p)
  {
  }

  lemma {:induction false} DoubledProduct(x: nat, y: nat)
    ensures (2 * x) * y == 2 * (x * y)
  {
  }

  lemma {:induction false} PowersAdd(a: nat, b: nat)
    ensures Pow2(a) * Pow2(b) == Pow2(a + b)
  {
    if a > 0 {
      PowersAdd(a - 1, b);
      DoubledProduct(Pow2(a - 1), Pow2(b));
    }
  }

  lemma {:induction false} PowersGrow(a: nat, b: nat)
    requires a <= b
    ensures Pow2(a) <= Pow2(b)
  {
    if a < b {
      PowersGrow(a, b - 1);
    }
  }

  /** The text of the mask as a number. */
  lemma {:induction false} MaskTextValue(ones: nat, zeros: nat)
    ensures BinaryValue(Repeat('1', ones) + Repeat('0', zeros)) == Pow2(ones + zeros) - Pow2(zeros)
  {
    ValueWithZeros(Repeat('1', ones), zeros);
    ValueOfOnes(ones);
    PowersAdd(ones, zeros);
    MulDistributes(Pow2(ones) - 1, 1, Pow2(zeros));
  }

  /** For masks of any number of bits. */
  lemma {:induction false} MaskValue(length: int, bits: nat)
    ensures
      var r := MaskOf(length, bits);
      if length < 0 then r == Ok(0)
      else if length <= bits then r == Ok(Pow2(bits) - Pow2(bits - length))
      else r == Raised
  {
    var ones, zeros := if length < 0 then 0 else length, if length > bits then 0 else bits - length;
    assert Repeat('1', length) == Repeat('1', ones) && Repeat('0', bits - length) == Repeat('0', zeros);
    MaskTextValue(ones, zeros);
    if length > bits {
      PowersGrow(bits + 1, length);
    }
  }

  lemma {:induction false} QuarterMask(p: int, bits: nat)
    requires bits < 1000
    ensures
      var r := MaskOf(IntOfQuarter(p), bits);
      if p < 0 then r == Ok(0)
      else if p < 4 * bits + 4 then r == Ok(Pow2(bits) - Pow2(bits - p / 4))
      else r == Raised
  {
    MaskValue(IntOfQuarter(p), bits);
    if p >= 0 {
      QuarterIsExactOrLarge(p);
    }
  }

  /** A quarter of the prefix counts, rounded down: 2^32 - 2^(32 - p/4) for every prefix whose
      quarter fits 32 bits, an error above, and no bits for a negative number. */
  lemma {:induction false} TruncatedMask(p: int)
    ensures Netmask6To4Truncate(p) ==
      if p < 0 then Ok(0)
      else if p < 132 then Ok(Pow2(IPV4_BITS) - Pow2(IPV4_BITS - p / 4))
      else Raised
  {
    QuarterMask(p, IPV4_BITS);
  }

  lemma {:induction false} QuarterIsExactOrLarge(p: nat)
    ensures IntOfQuarter(p) == p / 4 || (p >= TWO_53 && IntOfQuarter(p) >= 1000)
  {
    if p < TWO_53 {
      QuotientExactBelow53Bits(p, 4);
    } else if p < 2 * TWO_53 {
      assert Shift(2 * p, 4) == 0 && Shift(p, 4) == 1 && Pow2(1) == 2;
      assert IntOfQuotient(p, 4) == RoundHalfEven(p * 2, 4) / 2;
    } else {
      QuotientStaysLarge(p, 4);
    }
  }

  /* ---------- Broadcast addresses ---------- */

  function BitAnd(a: nat, b: nat): nat {
    if a == 0 || b == 0 then 0
    else 2 * BitAnd(a / 2, b / 2) + if a % 2 == 1 && b % 2 == 1 then 1 else 0
  }

  function BitOr(a: nat, b: nat): nat {
    if a == 0 then b
    else if b == 0 then a
    else 2 * BitOr(a / 2, b / 2) + if a % 2 == 1 || b % 2 == 1 then 1 else 0
  }

  /** `~m & (2^n - 1)`. */
  function Complement(m: nat, n: nat): nat
    requires m < Pow2(n)
  {
    Pow2(n) - 1 - m
  }

  /** `_compute_broadcast` on 32-bit numbers. */
  function Broadcast(address: nat, mask: nat): nat
    requires mask < Pow2(IPV4_BITS)
  {
    BitOr(address, Complement(mask, IPV4_BITS))
  }

  lemma {:induction false} OrIsSum(a: nat, m: nat, n: nat)
    requires a < Pow2(n) && m < Pow2(n)
    ensures BitOr(a, Complement(m, n)) == BitAnd(a, m) + Complement(m, n)
  {
    if n > 0 {
      OrIsSum(a / 2, m / 2, n - 1);
      HalfComplement(m, n);
      OrHalves(a, Complement(m, n));
      AndHalves(a, m);
    }
  }

  lemma {:induction false} HalfComplement(m: nat, n: nat)
    requires n > 0 && m < Pow2(n)
    ensures m / 2 < Pow2(n - 1)
    ensures Complement(m, n) / 2 == Complement(m / 2, n - 1) && Complement(m, n) % 2 == 1 - m % 2
  {
  }

  lemma {:induction false} OrHalves(a: nat, b: nat)
    ensures BitOr(a, b) == 2 * BitOr(a / 2, b / 2) + if a % 2 == 1 || b % 2 == 1 then 1 else 0
  {
  }

  lemma {:induction false} AndHalves(a: nat, b: nat)
    ensures BitAnd(a, b) == 2 * BitAnd(a / 2, b / 2) + if a % 2 == 1 && b % 2 == 1 then 1 else 0
  {
  }

  lemma {:induction false} AndOfOr(a: nat, m: nat, n: nat)
    requires a < Pow2(n) && m < Pow2(n)
    ensures BitAnd(BitOr(a, Complement(m, n)), m) == BitAnd(a, m)
    ensures BitAnd(BitOr(a, Complement(m, n)), Complement(m, n)) == Complement(m, n)
    ensures BitAnd(a, m) <= m
  {
    if n > 0 {
      AndOfOr(a / 2, m / 2, n - 1);
      HalfComplement(m, n);
      var c := Complement(m, n);
      var b := BitOr(a, c);
      OrHalves(a, c);
      AndHalves(a, m);
      AndHalves(b, m);
      AndHalves(b, c);
      assert b / 2 == BitOr(a / 2, c / 2);
    }
  }

  /** For any address and mask: the broadcast fits 32 bits, keeps the network bits, has every host
      bit set, and is the network base plus the largest host number. */
  lemma {:induction false} BroadcastMeaning(address: nat, mask: nat)
    requires address < Pow2(IPV4_BITS) && mask < Pow2(IPV4_BITS)
    ensures
      var b := Broadcast(address, mask);
      && b < Pow2(IPV4_BITS)
      && BitAnd(b, mask) == BitAnd(address, mask)
      && BitAnd(b, Complement(mask, IPV4_BITS)) == Complement(mask, IPV4_BITS)
      && b == BitAnd(address, mask) + Complement(mask, IPV4_BITS)
  {
    OrIsSum(address, mask, IPV4_BITS);
    AndOfOr(address, mask, IPV4_BITS);
  }

  /** A mask of n bits, of which the last h are clear. */
  lemma {:induction false} NetworkBase(a: nat, h: nat, n: nat, mask: nat, block: nat)
    requires h <= n && a < Pow2(n) && block == Pow2(h) && mask + block == Pow2(n)
    ensures BitAnd(a, mask) == a - a % block
  {
    if n == 0 {
      assert a == 0;
    } else {
      AndHalves(a, mask);
      if h > 0 {
        NetworkBase(a / 2, h - 1, n - 1, mask / 2, Pow2(h - 1));
        HalvedRemainder(a, Pow2(h - 1));
      } else {
        NetworkBase(a / 2, 0, n - 1, mask / 2, 1);
      }
    }
  }

  lemma {:induction false} HalvedRemainder(a: nat, p: nat)
    requires p > 0
    ensures a % (2 * p) == 2 * (a / 2 % p) + a % 2
  {
    var q, r := a / 2 / p, a / 2 % p;
    assert a == 2 * (q * p + r) + a % 2;
    assert 2 * (q * p) == q * (2 * p);
    DivisionIsUnique(a, 2 * p, q, 2 * r + a % 2);
  }

  lemma {:induction false} LastOfBlock(address: nat, mask: nat, h: nat, n: nat)
    requires h <= n && address < Pow2(n) && mask < Pow2(n) && mask + Pow2(h) == Pow2(n)
    ensures BitOr(address, Complement(mask, n)) == address - address % Pow2(h) + (Pow2(h) - 1)
  {
    OrIsSum(address, mask, n);
    NetworkBase(address, h, n, mask, Pow2(h));
  }

  /** Under a contiguous mask with h host bits: the last address of the block. */
  lemma {:induction false} ContiguousBroadcast(address: nat, mask: nat, h: nat)
    requires h <= IPV4_BITS && address < Pow2(IPV4_BITS)
    requires mask < Pow2(IPV4_BITS) && mask + Pow2(h) == Pow2(IPV4_BITS)
    ensures Broadcast(address, mask) == address - address % Pow2(h) + (Pow2(h) - 1)
  {
    LastOfBlock(address, mask, h, IPV4_BITS);
  }
}
