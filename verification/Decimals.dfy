/**
 Decimal128: a decimal.Decimal is coefficient * 10^exponent; Append stores the value shifted by the
 column's scale and cut to an integer, Row reads the stored integer as a decimal of that scale.
 */
module Decimals {
  import opened Wire
  import opened WideInt

  datatype Decimal = Decimal(coef: int, exp: int)

  function Ten(n: nat): (p: nat)
    ensures p > 0
  {
    if n == 0 then 1 else 10 * Ten(n - 1)
  }

  lemma {:induction false} TenSum(a: nat, b: nat)
    ensures Ten(a + b) == Ten(a) * Ten(b) && Ten(1) == 10
  {
    if a == 0 {
    } else {
      TenSum(a - 1, b);
      assert Ten(a + b) == 10 * Ten(a - 1 + b);
      assert 10 * (Ten(a - 1) * Ten(b)) == (10 * Ten(a - 1)) * Ten(b);
    }
  }

  /** The value of d in units of 10^m. */
  function At(d: Decimal, m: int): int
    requires m <= d.exp
  {
    d.coef * Ten(d.exp - m)
  }

  /** Division of integers in Go's big.Int.Quo: toward zero. */
  function Quo(a: int, b: nat): int
    requires b > 0
  {
    if a >= 0 then a / b else -((-a) / b)
  }

  /** v.Shift(scale).BigInt() */
  function Quantise(d: Decimal, scale: int): int {
    var e := d.exp + scale;
    if e >= 0 then d.coef * Ten(e) else Quo(d.coef, Ten(-e))
  }

  lemma DivCancel(a: nat, b: nat, k: nat)
    requires b > 0 && k > 0
    ensures b * k > 0 && (a * k) / (b * k) == a / b
  {
    var q := a / b;
    var r := a % b;
    assert a == b * q + r;
    assert a * k == b * k * q + r * k by { Expand(b, q, r, k); }
    MulStep(k, r, b);
    DivUnique(a * k, b * k, q);
  }

  lemma Expand(b: nat, q: nat, r: nat, k: nat)
    ensures (b * q + r) * k == b * k * q + r * k
  {
    MulAssoc(b, q, k);
    MulAssoc(b, k, q);
  }

  lemma QuoCancel(a: int, b: nat, k: nat)
    requires b > 0 && k > 0
    ensures b * k > 0 && Quo(a * k, b * k) == Quo(a, b)
  {
    if a >= 0 {
      DivCancel(a, b, k);
      assert a * k >= 0;
    } else {
      DivCancel(-a, b, k);
      assert (-a) * k == -(a * k) && a * k < 0;
    }
  }

  lemma DivMod(a: nat, b: nat)
    requires b > 0
    ensures (a / b) * b <= a < (a / b) * b + b
  {
    assert a == (a / b) * b + a % b;
  }

  lemma NegMul(q: int, b: int)
    ensures (-q) * b == -(q * b)
  {
  }

  /** The quotient times b misses a by less than b, on zero's side. */
  lemma QuoBound(a: int, b: nat)
    requires b > 0
    ensures a >= 0 ==> 0 <= a - Quo(a, b) * b < b && Quo(a, b) >= 0
    ensures a <= 0 ==> 0 <= Quo(a, b) * b - a < b && Quo(a, b) <= 0
  {
    if a >= 0 {
      DivMod(a, b);
    } else {
      DivMod(-a, b);
      NegMul((-a) / b, b);
    }
  }

  lemma QuoMonotone(a: int, c: int, b: nat)
    requires b > 0 && a <= c
    ensures Quo(a, b) <= Quo(c, b)
  {
    QuoBound(a, b);
    QuoBound(c, b);
    var p, q := Quo(a, b), Quo(c, b);
    if p > q {
      Gap(p, q, b);
    }
  }

  lemma Gap(p: int, q: int, b: nat)
    requires p > q
    ensures p * b >= q * b + b
  {
    MulMonotone(b, 1, p - q);
    assert (p - q) * b == p * b - q * b;
  }

  lemma MulAssoc(a: int, b: int, c: int)
    ensures a * (b * c) == (a * b) * c
  {
  }

  lemma QuoWhole(q: int, b: nat)
    requires b > 0
    ensures Quo(q * b, b) == q
  {
    QuoCancel(q, 1, b);
  }

  /** In any unit fine enough for both, Append divides toward zero by one unit of the column's scale. */
  lemma QuantiseAt(d: Decimal, scale: int, m: int)
    requires m <= d.exp && m <= -scale
    ensures Quantise(d, scale) == Quo(At(d, m), Ten(-scale - m))
  {
    var e, unit := d.exp + scale, Ten(-scale - m);
    if e >= 0 {
      TenSum(e, -scale - m);
      MulAssoc(d.coef, Ten(e), unit);
      QuoWhole(d.coef * Ten(e), unit);
    } else {
      TenSum(-e, d.exp - m);
      QuoCancel(d.coef, Ten(-e), Ten(d.exp - m));
    }
  }

  /** The row read back, in units of 10^m, misses the value by less than 10^-scale, on zero's side. */
  lemma RowBound(d: Decimal, scale: int, m: int)
    requires m <= d.exp && m <= -scale
    ensures var row, unit := Decimal(Quantise(d, scale), -scale), Ten(-scale - m);
            var lost := At(d, m) - At(row, m);
            && 0 < lost + unit && lost < unit
            && (d.coef >= 0 ==> lost >= 0) && (d.coef <= 0 ==> lost <= 0)
            && (lost == 0 <==> exists n :: At(d, m) == n * unit)
  {
    var unit, a := Ten(-scale - m), At(d, m);
    QuantiseAt(d, scale, m);
    QuoBound(a, unit);
    SameSign(d.coef, Ten(d.exp - m));
    var q := Quantise(d, scale);
    assert At(Decimal(q, -scale), m) == q * unit;
    if n :| a == n * unit {
      if n > q { Gap(n, q, unit); }
      if q > n { Gap(q, n, unit); }
    }
  }

  lemma SameSign(c: int, p: nat)
    requires p > 0
    ensures (c >= 0 <==> c * p >= 0) && (c <= 0 <==> c * p <= 0)
  {
  }

  /** Larger values are never stored as smaller integers. */
  lemma QuantiseMonotone(d: Decimal, f: Decimal, scale: int, m: int)
    requires m <= d.exp && m <= f.exp && m <= -scale
    requires At(d, m) <= At(f, m)
    ensures Quantise(d, scale) <= Quantise(f, scale)
  {
    QuantiseAt(d, scale, m);
    QuantiseAt(f, scale, m);
    QuoMonotone(At(d, m), At(f, m), Ten(-scale - m));
  }

  /** The unit is a power of ten, and division cuts toward zero. */
  lemma Cents()
    ensures Quantise(Decimal(123456, -3), 2) == 12345 && Quantise(Decimal(-123456, -3), 2) == -12345
    ensures Quantise(Decimal(12, 1), 2) == 12000
  {
    assert Ten(1) == 10 && Ten(3) == 1000;
  }

  class Decimal128Column {
    var scale: int
    var data: seq<Limbs2>

    constructor (scale: int)
      ensures this.scale == scale && data == []
    {
      this.scale, data := scale, [];
    }

    /** Appends the quantised value, or panics when it does not fit 128 bits. */
    method Append(v: Decimal) returns (out: Outcome<()>)
      modifies this`data
      ensures out.Done? <==> -TWO127 <= Quantise(v, scale) < TWO127
      ensures out.Done? ==> |data| == |old(data)| + 1 && data[..|old(data)|] == old(data)
                            && I128(data[|old(data)|]) == Quantise(v, scale)
      ensures out.Failed? ==> data == old(data)
    {
      var iv := Int128FromBigInt(Big(Quantise(v, scale)));
      if iv.Failed? { return Failed(Panic); }
      data := data + [iv.value];
      return Done(());
    }

    method Row(i: nat) returns (d: Decimal)
      requires i < |data|
      ensures d == Decimal(I128(data[i]), -scale)
    {
      var bi := Int128ToBigInt(data[i]);
      d := Decimal(bi, -scale);
    }

    /** Appending a row that was read stores the same limbs again. */
    method AppendRow(i: nat) returns (out: Outcome<()>)
      requires i < |data|
      modifies this`data
      ensures out.Done? && data == old(data) + [old(data)[i]]
    {
      var d := Row(i);
      assert Quantise(d, scale) == d.coef by { assert Ten(0) == 1; }
      out := Append(d);
      LimbsUnique(data[|old(data)|], old(data)[i]);
    }
  }
}
