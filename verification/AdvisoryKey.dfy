/** The advisory-lock key of a user: a 31-polynomial of the UTF-16 units in wrapped 32-bit arithmetic. */
module AdvisoryKey {

  /** JavaScript's ToInt32. */
  function ToInt32(x: int): (r: int)
    ensures -0x8000_0000 <= r < 0x8000_0000 && (x - r) % 0x1_0000_0000 == 0
  {
    (x + 0x8000_0000) % 0x1_0000_0000 - 0x8000_0000
  }

  /** The hash without any wrap-around. */
  function Polynomial(units: seq<nat>): nat {
    if units == [] then 0 else 31 * Polynomial(units[..|units| - 1]) + units[|units| - 1]
  }

  lemma CongruentWraps(x: int, y: int, k: int)
    requires x - y == k * 0x1_0000_0000
    ensures ToInt32(x) == ToInt32(y)
  {
  }

  /** Wrapping the shift and the sum at every step is the same as wrapping once at the end. */
  lemma WrapsOnce(p: int, unit: int)
    ensures var hash := ToInt32(p);
            ToInt32(ToInt32(hash * 32) - hash + unit) == ToInt32(31 * p + unit)
  {
    var hash := ToInt32(p);
    var k1 := (p - hash) / 0x1_0000_0000;
    var k2 := (hash * 32 - ToInt32(hash * 32)) / 0x1_0000_0000;
    assert p - hash == k1 * 0x1_0000_0000;
    assert hash * 32 - ToInt32(hash * 32) == k2 * 0x1_0000_0000;
    CongruentWraps(31 * p + unit, ToInt32(hash * 32) - hash + unit, 31 * k1 + k2);
  }

  function Abs(x: int): nat {
    if x < 0 then -x else x
  }

  /** The loop of `getAdvisoryKey`; the key is a non-negative 32-bit number below 2^31 - 1. */
  method GetAdvisoryKey(units: seq<nat>) returns (key: nat)
    ensures key == Abs(ToInt32(Polynomial(units))) % 2147483647
    ensures key < 2147483647
  {
    var hash := 0;
    for i := 0 to |units|
      invariant hash == ToInt32(Polynomial(units[..i]))
    {
      assert units[..i + 1][..i] == units[..i];
      WrapsOnce(Polynomial(units[..i]), units[i]);
      hash := ToInt32(hash * 32) - hash + units[i];
      hash := ToInt32(hash);
    }
    assert units[..|units|] == units;
    key := Abs(hash) % 2147483647;
  }
}
