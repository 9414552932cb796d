/**
 * The unit choice of `human_size`.
 *
 * The source converts the size to a 64-bit float and divides it by 1024
 * until it is below 1024 or the unit is TB.  Every boundary it compares
 * against is a power of 1024 up to 2^40, exactly representable as a float,
 * and rounding an integer to a float is monotone and keeps exactly
 * representable values, so `(size as f64) / 1024^k >= 1024` holds exactly
 * when `size >= 1024^(k+1)`.  The unit can
 * therefore be chosen on natural numbers with integer division, which is
 * what `HumanSize` does.  The one-decimal text is not modelled.
 */
module SizeUnits {

  const Units: seq<string> := ["B", "KB", "MB", "GB", "TB"]

  /** The index of the largest unit, TB. */
  const LastUnit: nat := |Units| - 1

  function Pow1024(k: nat): (p: nat)
    ensures p >= 1
  {
    if k == 0 then 1 else 1024 * Pow1024(k - 1)
  }

  /**
   * Unit `k` is the right one for `size`: the size reaches one of unit `k`
   * (unless `k` is B) and stays below one of the next unit (unless `k` is
   * TB, which takes every size above it).
   */
  ghost predicate IsUnitFor(size: nat, k: nat)
  {
    && k <= LastUnit
    && (k > 0 ==> Pow1024(k) <= size)
    && (k < LastUnit ==> size < Pow1024(k + 1))
  }

  /** The unit chosen by comparison with the unit sizes. */
  function UnitOf(size: nat): nat
  {
    if size < 1024 then 0
    else if size < 1024 * 1024 then 1
    else if size < 1024 * 1024 * 1024 then 2
    else if size < 1024 * 1024 * 1024 * 1024 then 3
    else 4
  }

  lemma PowerValues()
    ensures Pow1024(1) == 1024
    ensures Pow1024(2) == 1024 * 1024
    ensures Pow1024(3) == 1024 * 1024 * 1024
    ensures Pow1024(4) == 1024 * 1024 * 1024 * 1024
  {
    assert Pow1024(1) == 1024 * Pow1024(0);
    assert Pow1024(2) == 1024 * Pow1024(1);
    assert Pow1024(3) == 1024 * Pow1024(2);
    assert Pow1024(4) == 1024 * Pow1024(3);
  }

  /** `UnitOf` picks a unit that fits, and it is the only one that does. */
  lemma UnitOfIsOnlyUnit(size: nat, k: nat)
    ensures IsUnitFor(size, UnitOf(size))
    ensures IsUnitFor(size, k) ==> k == UnitOf(size)
  {
    PowerValues();
  }

  /** A bigger size never gets a smaller unit. */
  lemma UnitOfMonotone(a: nat, b: nat)
    requires a <= b
    ensures UnitOf(a) <= UnitOf(b)
  {
  }

  /** Sizes of 1 TB or more (so 1024 TB and `u64::MAX` too) stay in TB. */
  lemma UnitOfSaturates(size: nat)
    requires size >= Pow1024(LastUnit)
    ensures UnitOf(size) == LastUnit && Units[UnitOf(size)] == "TB"
  {
    PowerValues();
  }

  lemma MulMonotone(a: nat, b: nat, p: nat)
    requires a <= b
    ensures a * p <= b * p
  {
    var c := b - a;
    assert b * p == a * p + c * p;
  }

  /** One step of the loop keeps `scaled` the integer part of the size in the current unit. */
  lemma ScaleDown(q: nat, p: nat, size: nat)
    requires q * p <= size < (q + 1) * p
    ensures (q / 1024) * (1024 * p) <= size < (q / 1024 + 1) * (1024 * p)
  {
    var d, m := q / 1024, q % 1024;
    assert q == 1024 * d + m;
    assert d * (1024 * p) == (1024 * d) * p;
    MulMonotone(1024 * d, q, p);
    assert (d + 1) * (1024 * p) == (1024 * d + 1024) * p;
    MulMonotone(q + 1, 1024 * d + 1024, p);
  }

  /**
   * The loop of `human_size`: divides by 1024 until the value is below 1024
   * or the unit is TB.  `unit` is the unit index, `suffix` its name, and
   * `whole` the integer part of the size in that unit.
   */
  method HumanSize(size: nat) returns (suffix: string, unit: nat, whole: nat)
    ensures IsUnitFor(size, unit) && unit == UnitOf(size)
    ensures suffix == Units[unit]
    ensures whole * Pow1024(unit) <= size < (whole + 1) * Pow1024(unit)
  {
    var scaled := size;
    unit := 0;
    while scaled >= 1024 && unit < |Units| - 1
      invariant unit <= LastUnit
      invariant scaled * Pow1024(unit) <= size < (scaled + 1) * Pow1024(unit)
      invariant unit > 0 ==> scaled >= 1
    {
      ScaleDown(scaled, Pow1024(unit), size);
      scaled := scaled / 1024;
      unit := unit + 1;
    }
    whole := scaled;
    suffix := Units[unit];
    assert unit > 0 ==> Pow1024(unit) <= size by {
      if unit > 0 {
        MulMonotone(1, whole, Pow1024(unit));
      }
    }
    UnitOfIsOnlyUnit(size, unit);
  }
}
