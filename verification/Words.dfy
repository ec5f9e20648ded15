/**
 32-bit words and their operators, on their unsigned values.

 The source's numbers are signed between operators and unsigned after ">>> 0"; comparing two results of "&"
 compares the same 32 bits either way.
 */
module Words {
  import opened Powers

  const Modulus := 0x1_0000_0000

  predicate IsWord(n: int) {
    0 <= n < Modulus
  }

  function And(a: nat, b: nat): nat {
    if a == 0 || b == 0 then 0
    else 2 * And(a / 2, b / 2) + if a % 2 == 1 && b % 2 == 1 then 1 else 0
  }

  function Or(a: nat, b: nat): nat {
    if a == 0 && b == 0 then 0
    else 2 * Or(a / 2, b / 2) + if a % 2 == 1 || b % 2 == 1 then 1 else 0
  }

  function Not(a: nat): int {
    Modulus - 1 - a
  }

  /** Moving the bits up one place at a time; the top bit falls off. */
  function MoveUp(a: nat, places: nat): nat {
    if places == 0 then a % Modulus else 2 * MoveUp(a, places - 1) % Modulus
  }

  function MoveDown(a: nat, places: nat): nat {
    if places == 0 then a else MoveDown(a / 2, places - 1)
  }

  /** A shift takes its count modulo 32. */
  function ShiftLeft(a: nat, count: nat): nat {
    MoveUp(a, count % 32)
  }

  function ShiftRight(a: nat, count: nat): nat {
    MoveDown(a, count % 32)
  }

  /** The mask of a network prefix; a shift by 32 would shift by none, so zero is a case of its own. */
  function Mask(prefix: nat): nat
    requires prefix <= 32
  {
    if prefix == 0 then 0 else ShiftLeft(Not(0), 32 - prefix)
  }

  function InRange(ip: nat, network: nat, prefix: nat): bool
    requires prefix <= 32
  {
    And(ip, Mask(prefix)) == And(network, Mask(prefix))
  }

  /** Doubling k times. */
  function Scale(a: nat, k: nat): nat {
    if k == 0 then a else 2 * Scale(a, k - 1)
  }

  lemma Pow2Of32()
    ensures Pow2(32) == Modulus
  {
    assert Pow2(4) == 16;
    assert Pow2(12) == 4096;
    assert Pow2(20) == 1048576;
    assert Pow2(28) == 268435456;
  }

  /** Masking with a shifted mask masks the high part. */
  lemma {:induction false} AndHigh(x: nat, m: nat, k: nat)
    ensures And(x, Scale(m, k)) == Scale(And(MoveDown(x, k), m), k)
  {
    if k > 0 {
      AndHigh(x / 2, m, k - 1);
      AndDouble(x, Scale(m, k - 1));
    }
  }

  lemma AndDouble(x: nat, h: nat)
    ensures And(x, 2 * h) == 2 * And(x / 2, h)
  {
  }

  /** Masking with ones keeps a number that fits under them. */
  lemma {:induction false} AndOnes(x: nat, p: nat)
    requires x < Pow2(p)
    ensures And(x, Pow2(p) - 1) == x
  {
    if p > 0 {
      AndOnes(x / 2, p - 1);
      var ones := Pow2(p) - 1;
      assert ones == 2 * (Pow2(p - 1) - 1) + 1;
      assert ones / 2 == Pow2(p - 1) - 1 && ones % 2 == 1;
    }
  }

  lemma {:induction false} ScaledOnes(p: nat, k: nat)
    ensures Scale(Pow2(p) - 1, k) == Pow2(p + k) - Pow2(k)
  {
    if k > 0 {
      ScaledOnes(p, k - 1);
    }
  }

  lemma {:induction false} AllOnesUp(k: nat)
    requires Pow2(k) <= Modulus
    ensures MoveUp(Modulus - 1, k) == Modulus - Pow2(k)
  {
    if k > 0 {
      AllOnesUp(k - 1);
      assert 2 * (Modulus - Pow2(k - 1)) == Modulus + (Modulus - Pow2(k));
    }
  }

  lemma MaskIsShiftedOnes(prefix: nat)
    requires 0 < prefix <= 32
    ensures Mask(prefix) == MoveUp(Modulus - 1, 32 - prefix)
  {
  }

  lemma MaskIsHighOnes(prefix: nat)
    requires prefix <= 32
    ensures Mask(prefix) == Scale(Pow2(prefix) - 1, 32 - prefix)
  {
    var k := 32 - prefix;
    Pow2Of32();
    ScaledOnes(prefix, k);
    Pow2Monotone(k, 32);
    if prefix > 0 {
      MaskIsShiftedOnes(prefix);
      AllOnesUp(k);
    }
  }

  lemma {:induction false} HighPartFits(x: nat, p: nat, k: nat)
    requires x < Pow2(p + k)
    ensures MoveDown(x, k) < Pow2(p)
  {
    if k > 0 {
      HighPartFits(x / 2, p, k - 1);
    }
  }

  lemma Masked(x: nat, prefix: nat)
    requires IsWord(x) && prefix <= 32
    ensures And(x, Mask(prefix)) == Scale(MoveDown(x, 32 - prefix), 32 - prefix)
  {
    MaskIsHighOnes(prefix);
    AndHigh(x, Pow2(prefix) - 1, 32 - prefix);
    Pow2Of32();
    HighPartFits(x, prefix, 32 - prefix);
    AndOnes(MoveDown(x, 32 - prefix), prefix);
  }

  lemma {:induction false} ScaleIsInjective(a: nat, b: nat, k: nat)
    ensures Scale(a, k) == Scale(b, k) <==> a == b
  {
    if k > 0 {
      ScaleIsInjective(a, b, k - 1);
    }
  }

  lemma Factor(e: int, d: int)
    requires d > 0
    ensures e >= 1 ==> e * d >= d
    ensures e <= -1 ==> e * d <= -d
  {
  }

  lemma QuotientIs(x: int, d: int, q: int, r: int)
    requires 0 <= r < d && x == q * d + r
    ensures x / d == q
  {
    var e := x / d - q;
    assert x == (x / d) * d + x % d;
    assert e * d == r - x % d;
    Factor(e, d);
  }

  lemma HalfQuotient(x: nat, d: nat)
    requires d > 0
    ensures x / 2 / d == x / (2 * d)
  {
    var q, r := x / (2 * d), x % (2 * d);
    assert x == q * (2 * d) + r;
    assert q * (2 * d) == 2 * (q * d);
    assert x / 2 == q * d + r / 2;
    QuotientIs(x / 2, d, q, r / 2);
  }

  /** Moving down k places divides by 2^k. */
  lemma {:induction false} MoveDownDivides(x: nat, k: nat)
    ensures MoveDown(x, k) == x / Pow2(k)
  {
    if k > 0 {
      MoveDownDivides(x / 2, k - 1);
      HalfQuotient(x, Pow2(k - 1));
    }
  }

  /** Two words are in the same range exactly when their quotients by 2^(32 - prefix) agree. */
  lemma InRangeIsQuotient(ip: nat, network: nat, prefix: nat)
    requires IsWord(ip) && IsWord(network) && prefix <= 32
    ensures InRange(ip, network, prefix) <==> ip / Pow2(32 - prefix) == network / Pow2(32 - prefix)
  {
    var k := 32 - prefix;
    Masked(ip, prefix);
    Masked(network, prefix);
    ScaleIsInjective(MoveDown(ip, k), MoveDown(network, k), k);
    MoveDownDivides(ip, k);
    MoveDownDivides(network, k);
  }

  /** Or-ing a small number into cleared low bits adds it. */
  lemma {:induction false} OrIsAdd(high: nat, low: nat, k: nat)
    requires low < Pow2(k)
    ensures Or(Scale(high, k), low) == Scale(high, k) + low
  {
    if k == 0 {
      OrZero(high);
    } else {
      OrIsAdd(high, low / 2, k - 1);
      assert Scale(high, k) / 2 == Scale(high, k - 1) && Scale(high, k) % 2 == 0;
    }
  }

  lemma {:induction false} OrZero(a: nat)
    ensures Or(a, 0) == a
  {
    if a > 0 {
      OrZero(a / 2);
    }
  }

  lemma {:induction false} MoveUpScales(a: nat, k: nat)
    requires Scale(a, k) < Modulus
    ensures MoveUp(a, k) == Scale(a, k)
  {
    if k > 0 {
      MoveUpScales(a, k - 1);
    }
  }

  lemma Scale8(a: nat)
    ensures Scale(a, 8) == 256 * a && Pow2(8) == 256
  {
    assert Scale(a, 1) == 2 * a;
    assert Scale(a, 2) == 4 * a;
    assert Scale(a, 4) == 16 * a;
    assert Scale(a, 6) == 64 * a;
    assert Pow2(6) == 64;
  }

  lemma Scale16(a: nat)
    ensures Scale(a, 16) == 0x1_0000 * a && Pow2(16) == 0x1_0000
  {
    Scale8(a);
    assert Scale(a, 10) == 1024 * a;
    assert Scale(a, 12) == 4096 * a;
    assert Scale(a, 14) == 16384 * a;
    assert Pow2(12) == 4096;
  }

  /** Shifting in low bits, while nothing is lost at the top, adds them. */
  lemma ShiftIn(high: nat, low: nat, k: nat)
    requires k < 32 && low < Pow2(k) && Scale(high, k) < Modulus
    ensures Or(ShiftLeft(high, k), low) == Scale(high, k) + low
  {
    MoveUpScales(high, k);
    OrIsAdd(high, low, k);
  }

  lemma ShiftInByte(high: nat, low: nat)
    requires low < 256 && 256 * high < Modulus
    ensures Or(ShiftLeft(high, 8), low) == 256 * high + low
  {
    Scale8(high);
    ShiftIn(high, low, 8);
  }

  lemma ShiftInGroup(high: nat, low: nat)
    requires low < 0x1_0000 && high < 0x1_0000
    ensures Or(ShiftLeft(high, 16), low) == 0x1_0000 * high + low
  {
    Scale16(high);
    ShiftIn(high, low, 16);
  }

  /** The low 16 bits are the remainder. */
  lemma {:induction false} AndLowOnes(x: nat, p: nat)
    ensures And(x, Pow2(p) - 1) == LowPart(x, p)
  {
    if p > 0 {
      AndLowOnes(x / 2, p - 1);
      var ones := Pow2(p) - 1;
      assert ones == 2 * (Pow2(p - 1) - 1) + 1;
      assert ones / 2 == Pow2(p - 1) - 1 && ones % 2 == 1;
      if x == 0 {
        LowPartOfZero(p);
      }
    }
  }

  function LowPart(x: nat, p: nat): nat {
    if p == 0 then 0 else 2 * LowPart(x / 2, p - 1) + x % 2
  }

  lemma {:induction false} LowPartOfZero(p: nat)
    ensures LowPart(0, p) == 0
  {
    if p > 0 {
      LowPartOfZero(p - 1);
    }
  }

  lemma {:induction false} LowAndHigh(x: nat, p: nat)
    ensures x == Scale(MoveDown(x, p), p) + LowPart(x, p) && LowPart(x, p) < Pow2(p)
  {
    if p > 0 {
      LowAndHigh(x / 2, p - 1);
    }
  }

  /** The two 16-bit groups of a word. */
  lemma GroupsOfWord(x: nat)
    requires IsWord(x)
    ensures And(ShiftRight(x, 16), 0xffff) == x / 0x1_0000 && And(x, 0xffff) == x % 0x1_0000
  {
    Scale16(0);
    AndLowOnes(x, 16);
    LowAndHigh(x, 16);
    Scale16(MoveDown(x, 16));
    AndOnes(MoveDown(x, 16), 16);
  }
}
