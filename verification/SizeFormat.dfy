/** How treemap prints sizes: "17k" for exact multiples of a unit, "17.0k" for anything else. */
module SizeFormat {
  import opened Basics

  const UNITS := "BkMGTPE"

  // A number, possibly with one decimal, and an index into UNITS.
  datatype Shown = Shown(number: nat, tenth: Option<nat>, unit: nat)

  function Unit(n: nat): (p: nat)
    ensures p > 0
  {
    if n == 0 then 1 else 1024 * Unit(n - 1)
  }

  // The size is within 0.075 of what is shown, in the unit shown.
  predicate IsClose(size: nat, s: Shown)
    requires s.tenth.Some?
  {
    var shown := (10 * s.number + s.tenth.value) * Unit(s.unit);
    -3 * Unit(s.unit) <= 4 * (10 * size - shown) <= 3 * Unit(s.unit)
  }

  // The state of the loop: `size` is `n` units and a remainder that begins with the digit `r`.
  ghost predicate Divided(size: nat, n: nat, unit: nat, r: nat, rem: nat) {
    && size == n * Unit(unit) + rem
    && rem < Unit(unit)
    && (if unit == 0 then r == 0
        else r < 1024 && r * Unit(unit - 1) <= rem < (r + 1) * Unit(unit - 1))
  }

  lemma DivideOnce(size: nat, n: nat, unit: nat, r: nat, rem: nat)
    requires Divided(size, n, unit, r, rem)
    ensures Divided(size, n / 1024, unit + 1, n % 1024, n % 1024 * Unit(unit) + rem)
    ensures n % 1024 * Unit(unit) + rem == 0 <==> n % 1024 == 0 && rem == 0
  {
    var q, d, u := n / 1024, n % 1024, Unit(unit);
    assert Unit(unit + 1) == 1024 * u;
    assert n * u == (1024 * q + d) * u == q * (1024 * u) + d * u;
    DigitBound(d, u);
    assert (d + 1) * u == d * u + u;
  }

  lemma DigitBound(d: nat, u: nat)
    requires d <= 1023
    ensures 0 <= d * u <= 1023 * u && (d > 0 && u > 0 ==> d * u > 0)
  {
  }

  // As long as something is left, the unit is not larger than the size, so "E" is the last one
  // a 64-bit size needs.
  lemma UnitIsKnown(n: nat, unit: nat, rem: nat)
    requires n > 0 && n * Unit(unit) + rem < TWO_TO_THE_64
    ensures unit < |UNITS|
  {
    ProductGrows(1, n, Unit(unit));
    if unit >= 7 {
      UnitGrows(7, unit);
      LargeUnits();
    }
  }

  lemma LargeUnits()
    ensures Unit(7) > TWO_TO_THE_64
  {
  }

  lemma ProductGrows(a: nat, b: nat, u: nat)
    requires a <= b
    ensures a * u <= b * u
  {
  }

  lemma {:induction false} UnitGrows(a: nat, b: nat)
    requires a <= b
    ensures Unit(a) <= Unit(b)
  {
    if a < b {
      UnitGrows(a, b - 1);
    }
  }

  // Rounding by hundreds instead of 102.4 costs little.
  function Tenths(r: nat): nat {
    r / 100 + if r % 100 >= 50 then 1 else 0
  }

  lemma TenthsAreClose(r: nat)
    requires r < 1024
    ensures Tenths(r) <= 10 && -768 <= 10 * r - 1024 * Tenths(r) && 10 * (r + 1) - 1024 * Tenths(r) <= 768
  {
  }

  lemma Distribute(r: int, t: int, u: int)
    ensures (10 * r - 1024 * t) * u == 10 * (r * u) - 1024 * (t * u)
  {
  }

  lemma Scale(a: int, b: int, u: nat)
    requires a <= b
    ensures a * u <= b * u
  {
  }

  // The remainder, in tenths of a unit of 1024 * u.
  lemma RemainderIsClose(r: nat, rem: nat, u: nat)
    requires r < 1024 && r * u <= rem < (r + 1) * u
    ensures var t := Tenths(r); -768 * u <= 10 * rem - 1024 * (t * u) <= 768 * u
  {
    var t := Tenths(r);
    TenthsAreClose(r);
    Distribute(r, t, u);
    Distribute(r + 1, t, u);
    Scale(-768, 10 * r - 1024 * t, u);
    Scale(10 * (r + 1) - 1024 * t, 768, u);
  }

  lemma RoundedIsClose(size: nat, n: nat, unit: nat, r: nat, rem: nat)
    requires Divided(size, n, unit, r, rem) && unit > 0
    ensures var t := Tenths(r);
      IsClose(size, if t == 10 then Shown(n + 1, Some(0), unit) else Shown(n, Some(t), unit))
  {
    var t, u := Tenths(r), Unit(unit - 1);
    RemainderIsClose(r, rem, u);
    ShownIsClose(size, n, t, u, rem);
    assert 10 * (n + 1) + 0 == 10 * n + 10;
  }

  lemma ShownIsClose(size: nat, n: nat, t: nat, u: nat, rem: nat)
    requires size == n * (1024 * u) + rem && -768 * u <= 10 * rem - 1024 * (t * u) <= 768 * u
    ensures -3 * (1024 * u) <= 4 * (10 * size - (10 * n + t) * (1024 * u)) <= 3 * (1024 * u)
  {
  }

  // A proper remainder shows that the size is no multiple of the unit.
  ghost predicate IsMultiple(size: nat, unit: nat) {
    exists k: nat :: size == k * Unit(unit)
  }

  lemma MultipleIff(size: nat, n: nat, unit: nat, rem: nat)
    requires size == n * Unit(unit) + rem && rem < Unit(unit)
    ensures IsMultiple(size, unit) <==> rem == 0
  {
    forall k: nat | size == k * Unit(unit)
      ensures k == n && rem == 0
    {
      if k < n {
        ProductGrows(k + 1, n, Unit(unit));
      } else if k > n {
        ProductGrows(n + 1, k, Unit(unit));
      }
    }
  }

  // The number is too long, or a whole number of the next unit.
  predicate NeedsLargerUnit(n: nat) {
    n >= 10000 || (n != 0 && n % 1024 == 0)
  }

  // How many whole units there are in a size.
  function Whole(size: nat, unit: nat): nat {
    if unit == 0 then size else Whole(size, unit - 1) / 1024
  }

  lemma {:induction false} WholeIs(size: nat, unit: nat) returns (rem: nat)
    ensures size == Whole(size, unit) * Unit(unit) + rem && rem < Unit(unit)
  {
    rem := 0;
    if unit > 0 {
      rem := WholeIs(size, unit - 1);
      var n, u := Whole(size, unit - 1), Unit(unit - 1);
      assert n * u == (1024 * (n / 1024) + n % 1024) * u == n / 1024 * (1024 * u) + n % 1024 * u;
      DigitBound(n % 1024, u);
      rem := n % 1024 * u + rem;
    }
  }

  // The unit for a number that is left after some units.
  function Units(n: nat): nat {
    if NeedsLargerUnit(n) then 1 + Units(n / 1024) else 0
  }

  // It is the first that need not be larger.
  lemma {:induction false} UnitsIsFirst(size: nat, k: nat)
    requires k <= Units(size)
    ensures Units(Whole(size, k)) == Units(size) - k
    ensures var n := Whole(size, k); k < Units(size) <==> n >= 10000 || (n != 0 && n % 1024 == 0)
  {
    if k > 0 {
      UnitsIsFirst(size, k - 1);
    }
  }

  method FormatSize(size: nat) returns (s: Shown)
    requires size < TWO_TO_THE_64
    ensures s.unit == Units(size) < |UNITS|
    ensures s.tenth.None? <==> IsMultiple(size, s.unit)
    ensures s.tenth.None? ==>
      size == s.number * Unit(s.unit) && s.number < 10000 && (size != 0 ==> s.number % 1024 != 0)
    ensures s.tenth.Some? ==> s.tenth.value < 10 && s.number <= 10000 && IsClose(size, s)
  {
    var n: nat, unit: nat, r: nat, whole := size, 0, 0, true;
    ghost var rem: nat := 0;
    while n >= 10000 || (n != 0 && n % 1024 == 0)
      invariant Divided(size, n, unit, r, rem) && (whole <==> rem == 0)
      invariant n == 0 ==> size == 0 && unit == 0
      invariant unit == 0 ==> whole
      invariant unit + Units(n) == Units(size)
      decreases n
    {
      DivideOnce(size, n, unit, r, rem);
      rem := n % 1024 * Unit(unit) + rem;
      unit := unit + 1;
      if n % 1024 != 0 {
        whole := false;
      }
      r := n % 1024;
      n := n / 1024;
    }
    if n > 0 {
      UnitIsKnown(n, unit, rem);
    }
    MultipleIff(size, n, unit, rem);
    if whole {
      return Shown(n, None, unit);
    }
    RoundedIsClose(size, n, unit, r, rem);
    TenthsAreClose(r);
    r := Tenths(r);
    if r == 10 {
      n := n + 1;
      r := 0;
    }
    s := Shown(n, Some(r), unit);
  }
}
