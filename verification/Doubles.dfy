/**
 What the bits of a binary64 value stand for, and that an integer too large for an `i64` is read
 as the double nearest to it.
 */
module Doubles {
  import opened Json

  function PowerOf2(n: nat): nat {
    if n == 0 then 1 else 2 * PowerOf2(n - 1)
  }

  /** A finite double in units of the smallest one, 2^-1074: sign, 11 bits of exponent, 52 bits of
      significand, with the usual hidden bit above the subnormals. */
  function Scaled(d: Double): int
    requires IsFinite(d)
  {
    var sign, exponent, fraction := d / TWO_63, (d / TWO_52) % 2048, d % TWO_52;
    var magnitude := if exponent == 0 then fraction else (TWO_52 + fraction) * PowerOf2(exponent - 1);
    if sign == 0 then magnitude else -magnitude
  }

  /** The integer 1 in these units. */
  ghost const ONE: nat := PowerOf2(1074)

  function Distance(x: int, y: int): nat {
    if x < y then y - x else x - y
  }

  /** No double is nearer to the integer `u`, and one as near is the same number, or `d` is the one
      of the two with an even significand. */
  ghost predicate IsNearest(u: U64, d: Double) {
    && IsFinite(d)
    && forall e: Double | IsFinite(e) ::
         && Distance(Scaled(d), u * ONE) <= Distance(Scaled(e), u * ONE)
         && (Distance(Scaled(d), u * ONE) == Distance(Scaled(e), u * ONE) ==> Scaled(e) == Scaled(d) || d % 2 == 0)
  }

  lemma {:induction false} PowerOfSum(a: nat, b: nat)
    ensures PowerOf2(a + b) == PowerOf2(a) * PowerOf2(b)
  {
    if a == 0 {
    } else {
      PowerOfSum(a - 1, b);
      assert 2 * (PowerOf2(a - 1) * PowerOf2(b)) == (2 * PowerOf2(a - 1)) * PowerOf2(b);
    }
  }

  lemma {:induction false} PowersGrow(a: nat, b: nat)
    requires a <= b
    ensures 1 <= PowerOf2(a) <= PowerOf2(b)
  {
    if b == 0 {
    } else if a == b {
      PowersGrow(a - 1, b - 1);
    } else {
      PowersGrow(a, b - 1);
    }
  }

  lemma SmallPowers()
    ensures PowerOf2(10) == 1024 && PowerOf2(11) == 2048
  {
    assert PowerOf2(2) == 4 && PowerOf2(4) == 16 && PowerOf2(6) == 64 && PowerOf2(8) == 256;
  }

  /** Doubles of 2^63 and more are multiples of 2048. */
  lemma LargeDouble(d: Double) returns (k: nat)
    requires IsFinite(d) && d / TWO_63 == 0 && (d / TWO_52) % 2048 >= 1086
    ensures Scaled(d) == k * 2048 * ONE
  {
    var exponent, fraction := (d / TWO_52) % 2048, d % TWO_52;
    k := (TWO_52 + fraction) * PowerOf2(exponent - 1086);
    SmallPowers();
    PowerOfSum(11, 1074);
    PowerOfSum(exponent - 1086, 1085);
    var p := PowerOf2(exponent - 1086);
    Regroup(TWO_52 + fraction, p, 2048, ONE);
  }

  lemma Regroup(a: nat, p: nat, b: nat, c: nat)
    ensures a * (p * (b * c)) == (a * p) * b * c
  {
    assert p * (b * c) == (p * b) * c;
    assert a * ((p * b) * c) == (a * (p * b)) * c;
    assert a * (p * b) == (a * p) * b;
  }

  lemma BelowTwo63(exponent: nat, fraction: nat)
    requires 0 < exponent < 1086 && fraction < TWO_52
    ensures (TWO_52 + fraction) * PowerOf2(exponent - 1) < TWO_63 * ONE
  {
    PowersGrow(exponent - 1, 1084);
    SmallPowers();
    PowerOfSum(10, 1074);
    Bounded(TWO_52 + fraction, 2 * TWO_52, PowerOf2(exponent - 1), 1024 * ONE);
  }

  /** All others are smaller than 2^63. */
  lemma SmallDouble(d: Double)
    requires IsFinite(d) && !(d / TWO_63 == 0 && (d / TWO_52) % 2048 >= 1086)
    ensures Scaled(d) < TWO_63 * ONE
  {
    var exponent, fraction := (d / TWO_52) % 2048, d % TWO_52;
    PowersGrow(0, 1074);
    if d / TWO_63 == 0 && exponent > 0 {
      BelowTwo63(exponent, fraction);
    } else if d / TWO_63 == 0 {
      assert TWO_63 * ONE >= TWO_63;
    } else {
      assert Scaled(d) <= 0;
    }
  }

  lemma Bounded(a: nat, b: nat, p: nat, q: nat)
    requires a < b && 1 <= p <= q
    ensures a * p < b * q
  {
    assert a * p < b * p <= b * q;
  }

  /** Among the multiples of 2048 none is nearer than the rounded one. */
  lemma NearestMultiple(u: U64, k: int)
    requires TWO_63 <= u
    ensures var q := RoundedSignificand(u);
            && Distance(q * 2048, u) <= Distance(k * 2048, u)
            && (Distance(q * 2048, u) == Distance(k * 2048, u) ==> k == q || q % 2 == 0)
  {
  }

  /** A double of 2^52 and more is a whole number. */
  lemma FieldsOf(exponent: nat, fraction: nat)
    requires 1075 <= exponent < 2047 && fraction < TWO_52
    ensures var d: Double := exponent * TWO_52 + fraction;
            IsFinite(d) && Scaled(d) == (TWO_52 + fraction) * (PowerOf2(exponent - 1075) * ONE)
  {
    var d: Double := exponent * TWO_52 + fraction;
    assert d / TWO_52 == exponent && d % TWO_52 == fraction;
    assert d < TWO_63;
    PowerOfSum(exponent - 1075, 1074);
  }

  /** The same for the exponents of a rounded integer. */
  lemma RoundedFields(exponent: nat, fraction: nat, factor: nat)
    requires 1075 <= exponent < 2047 && fraction < TWO_52 && PowerOf2(exponent - 1075) == factor * 2048
    ensures var d: Double := exponent * TWO_52 + fraction;
            IsFinite(d) && Scaled(d) == ((TWO_52 + fraction) * factor) * 2048 * ONE
  {
    FieldsOf(exponent, fraction);
    var unit := ONE;
    assert (factor * 2048) * unit == factor * (2048 * unit);
    Regroup(TWO_52 + fraction, factor, 2048, unit);
  }

  lemma FieldsOfRounded(u: U64) returns (exponent: nat, fraction: nat, factor: nat)
    requires TWO_63 <= u
    ensures 1075 <= exponent < 2047 && fraction < TWO_52 && PowerOf2(exponent - 1075) == factor * 2048
    ensures LargeU64AsF64(u) == exponent * TWO_52 + fraction && (TWO_52 + fraction) * factor == RoundedSignificand(u)
    ensures LargeU64AsF64(u) % 2 == RoundedSignificand(u) % 2
  {
    var q := RoundedSignificand(u);
    SmallPowers();
    if q < 2 * TWO_52 {
      exponent, fraction, factor := 1086, q - TWO_52, 1;
    } else {
      exponent, fraction, factor := 1087, 0, 2;
      assert PowerOf2(12) == 2 * 2048;
    }
  }

  lemma RoundedIs(u: U64)
    requires TWO_63 <= u
    ensures Scaled(LargeU64AsF64(u)) == RoundedSignificand(u) * 2048 * ONE
    ensures LargeU64AsF64(u) % 2 == RoundedSignificand(u) % 2
  {
    var exponent, fraction, factor := FieldsOfRounded(u);
    RoundedFields(exponent, fraction, factor);
  }

  lemma ScaleDistance(x: int, y: int, unit: nat)
    ensures Distance(x * unit, y * unit) == Distance(x, y) * unit
  {
    assert x * unit - y * unit == (x - y) * unit;
    if x < y {
      assert (x - y) * unit <= 0;
    } else {
      assert (x - y) * unit >= 0;
    }
  }

  lemma NearerThanLarge(u: U64, e: Double)
    requires TWO_63 <= u && IsFinite(e) && e / TWO_63 == 0 && (e / TWO_52) % 2048 >= 1086
    ensures var d := LargeU64AsF64(u);
            && Distance(Scaled(d), u * ONE) <= Distance(Scaled(e), u * ONE)
            && (Distance(Scaled(d), u * ONE) == Distance(Scaled(e), u * ONE) ==> Scaled(e) == Scaled(d) || d % 2 == 0)
  {
    var q := RoundedSignificand(u);
    RoundedIs(u);
    var k := LargeDouble(e);
    NearestMultiple(u, k);
    ScaleDistance(q * 2048, u, ONE);
    ScaleDistance(k * 2048, u, ONE);
    PowersGrow(0, 1074);
    Ordered(Distance(q * 2048, u), Distance(k * 2048, u), ONE);
  }

  lemma Ordered(x: nat, y: nat, unit: nat)
    requires x <= y && unit >= 1
    ensures x * unit <= y * unit && (x * unit == y * unit ==> x == y)
  {
    if x < y {
      Bounded(x, y, unit, unit);
    }
  }

  lemma NearerThanSmall(u: U64, e: Double)
    requires TWO_63 <= u && IsFinite(e) && Scaled(e) < TWO_63 * ONE
    ensures var d := LargeU64AsF64(u); Distance(Scaled(d), u * ONE) < Distance(Scaled(e), u * ONE)
  {
    var q := RoundedSignificand(u);
    RoundedIs(u);
    NearestMultiple(u, TWO_52);
    ScaleDistance(q * 2048, u, ONE);
    ScaleDistance(TWO_63, u, ONE);
    PowersGrow(0, 1074);
    Ordered(Distance(q * 2048, u), Distance(TWO_63, u), ONE);
    Ordered(TWO_63, u, ONE);
  }

  /** `u as f64` is the nearest double, ties to even. */
  lemma LargeIsNearest(u: U64)
    requires TWO_63 <= u
    ensures IsNearest(u, LargeU64AsF64(u))
  {
    forall e: Double | IsFinite(e)
      ensures var d := LargeU64AsF64(u);
              && Distance(Scaled(d), u * ONE) <= Distance(Scaled(e), u * ONE)
              && (Distance(Scaled(d), u * ONE) == Distance(Scaled(e), u * ONE) ==>
                    Scaled(e) == Scaled(d) || d % 2 == 0)
    {
      if e / TWO_63 == 0 && (e / TWO_52) % 2048 >= 1086 {
        NearerThanLarge(u, e);
      } else {
        SmallDouble(e);
        NearerThanSmall(u, e);
      }
    }
  }
}
