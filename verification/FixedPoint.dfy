/** Fixed-point numbers with 64-bit values: overflow tests, changing the number of decimals, products. */
module FixedPoint {
  import opened Arithmetic
  import opened Basics

  /** The number value / 10^decimal. */
  datatype Fixed = Fixed(value: int, decimal: int)

  function Abs(x: int): nat {
    if x < 0 then -x else x
  }

  /** Division that truncates towards zero. */
  function TDiv(a: int, b: int): int
    requires b != 0
  {
    var q := Abs(a) / Abs(b);
    if (a < 0) == (b < 0) then q else -q
  }

  function Pow10(k: nat): (r: nat)
    ensures r > 0
  {
    if k == 0 then 1 else 10 * Pow10(k - 1)
  }

  lemma {:induction false} Pow10Sum(a: nat, b: nat)
    ensures Pow10(a + b) == Pow10(a) * Pow10(b)
  {
    if a > 0 {
      Pow10Sum(a - 1, b);
      assert Pow10(a) * Pow10(b) == 10 * (Pow10(a - 1) * Pow10(b));
    }
  }

  // ----- Overflow -----

  /** The overflow test: multiply, divide back and compare, all in 64 bits. */
  predicate MultiplyOverflow(a: int, b: int) {
    var x := Wrap64(a * b);
    a != 0 && Wrap64(TDiv(x, a)) != b
  }

  /** Quotient and remainder of the absolute values. */
  lemma TDivIs(x: int, a: int) returns (q: nat, r: nat)
    requires a != 0
    ensures Abs(x) == Abs(a) * q + r && r < Abs(a) && q <= Abs(x) && (Abs(a) >= 2 ==> 2 * q <= Abs(x))
    ensures TDiv(x, a) == if (x < 0) == (a < 0) then q as int else -(q as int)
  {
    q, r := Divide(Abs(x), Abs(a));
    DivUnique(Abs(x), Abs(a), q, r);
  }

  lemma SignedProduct(a: int, q: int)
    ensures (-a) * q == -(a * q) && a * (-q) == -(a * q) && (-a) * (-q) == a * q
  {
  }

  /** Dividing leaves a remainder smaller than the divisor. */
  lemma TDivRemainder(x: int, a: int)
    requires a != 0
    ensures Abs(x - a * TDiv(x, a)) < Abs(a)
  {
    var q, r := TDivIs(x, a);
    SignedProduct(Abs(a), q);
  }

  lemma TDivOfProduct(a: int, b: int)
    requires a != 0
    ensures TDiv(a * b, a) == b
  {
    SignedProduct(Abs(a), Abs(b));
    assert Abs(a * b) == Abs(a) * Abs(b);
    DivUnique(Abs(a * b), Abs(a), Abs(b), 0);
    if b != 0 {
      ProductSign(a, b);
    }
  }

  lemma ProductSign(a: int, b: int)
    requires a != 0 && b != 0
    ensures a * b < 0 <==> (a < 0) != (b < 0)
  {
  }

  /** The test is exact for all pairs but one. */
  lemma MultiplyOverflowIff(a: int, b: int)
    requires Int64(a) && Int64(b)
    ensures MultiplyOverflow(a, b) <==> !Int64(a * b) && !(a == -1 && b == MIN_INT64)
  {
    var x := Wrap64(a * b);
    WrapSmall(a * b);
    if a == 0 {
    } else if Int64(a * b) {
      TDivOfProduct(a, b);
      WrapSmall(b);
    } else if a == -1 {
      assert a * b == -b;
    } else {
      WrongQuotient(a, b, x);
    }
  }

  lemma WrapDistance(p: int)
    requires !Int64(p)
    ensures Abs(p - Wrap64(p)) >= 2 * TWO_63
  {
    var k := (p + TWO_63) / (2 * TWO_63);
    assert p - Wrap64(p) == k * (2 * TWO_63);
    assert k != 0;
  }

  lemma WrongQuotient(a: int, b: int, x: int)
    requires Int64(a) && Int64(b) && a != 0 && a != -1 && !Int64(a * b) && x == Wrap64(a * b)
    ensures Wrap64(TDiv(x, a)) != b
  {
    WrapDistance(a * b);
    TDivRemainder(x, a);
    QuotientFits(x, a);
    WrapSmall(TDiv(x, a));
  }

  lemma QuotientFits(x: int, a: int)
    requires Int64(x) && a != 0 && a != -1
    ensures Int64(TDiv(x, a))
  {
    var q, r := TDivIs(x, a);
  }

  // ----- Changing the decimals -----

  /** More decimals multiply, if that fits; fewer truncate. */
  function Changed(f: Fixed, target: int): Option<Fixed> {
    if target >= f.decimal then
      var v := f.value * Pow10(target - f.decimal);
      if Int64(v) then Some(Fixed(v, target)) else None
    else
      Some(Fixed(TDiv(f.value, Pow10(f.decimal - target)), target))
  }

  lemma {:induction false} NeverFitsAgain(v: int, k: nat)
    requires !Int64(v)
    ensures !Int64(v * Pow10(k))
  {
    if k > 0 {
      NeverFitsAgain(v, k - 1);
      assert v * Pow10(k) == 10 * (v * Pow10(k - 1));
    }
  }

  lemma DivDiv(n: nat, p: nat)
    requires p > 0
    ensures n / p / 10 == n / (10 * p)
  {
    var q, r := Divide(n, p);
    DivUnique(n, p, q, r);
    TenTimes(n, p, q, r);
    DivUnique(n, 10 * p, q / 10, p * (q % 10) + r);
  }

  lemma TenTimes(n: nat, p: nat, q: nat, r: nat)
    requires n == p * q + r && r < p
    ensures n == (10 * p) * (q / 10) + (p * (q % 10) + r) && p * (q % 10) + r < 10 * p
  {
    var h, l := q / 10, q % 10;
    assert p * (10 * h + l) == (10 * p) * h + p * l;
    assert p * 9 == p * l + p * (9 - l);
  }

  /** Truncating digit by digit truncates once. */
  lemma TDivTwice(v: int, p: nat)
    requires p > 0
    ensures TDiv(TDiv(v, p), 10) == TDiv(v, 10 * p)
  {
    DivDiv(Abs(v), p);
  }

  lemma TenMore(v: int, k: nat)
    ensures v * Pow10(k + 1) == v * Pow10(k) * 10
  {
    assert v * (10 * Pow10(k)) == v * Pow10(k) * 10;
  }

  lemma Overflows(v: int, j: nat, k: nat)
    requires j <= k && !Int64(v * Pow10(j))
    ensures !Int64(v * Pow10(k))
  {
    NeverFitsAgain(v * Pow10(j), k - j);
    Pow10Sum(j, k - j);
    assert v * (Pow10(j) * Pow10(k - j)) == (v * Pow10(j)) * Pow10(k - j);
  }

  lemma DividedByOne(v: int)
    ensures TDiv(v, Pow10(0)) == v
  {
    DivUnique(Abs(v), 1, Abs(v), 0);
  }

  method ChangeDecimal(f: Fixed, target: int) returns (r: Option<Fixed>)
    requires Int64(f.value)
    ensures r == Changed(f, target)
  {
    var value, decimal := f.value, f.decimal;
    while target > decimal
      invariant f.decimal <= decimal && (decimal <= target || decimal == f.decimal)
      invariant Int64(value) && value == f.value * Pow10(decimal - f.decimal)
    {
      decimal := decimal + 1;
      MultiplyOverflowIff(value, 10);
      TenMore(f.value, decimal - f.decimal - 1);
      if MultiplyOverflow(value, 10) {
        Overflows(f.value, decimal - f.decimal, target - f.decimal);
        return None;
      }
      value := value * 10;
    }
    ghost var raised := value;
    DividedByOne(value);
    while target < decimal
      invariant target < f.decimal ==>
                  target <= decimal <= f.decimal && value == TDiv(f.value, Pow10(f.decimal - decimal))
      invariant target >= f.decimal ==> decimal == target && value == raised
    {
      decimal := decimal - 1;
      TDivTwice(f.value, Pow10(f.decimal - decimal - 1));
      value := TDiv(value, 10);
    }
    r := Some(Fixed(value, decimal));
  }

  // ----- Common decimals -----

  /** Brings two numbers to the larger number of decimals without changing either; refused exactly if the one that
      has to be raised does not fit. */
  method UnifyDecimal(a: Fixed, b: Fixed) returns (r: Option<(Fixed, Fixed)>)
    requires Int64(a.value) && Int64(b.value)
    ensures var d := if a.decimal < b.decimal then b.decimal else a.decimal;
            var x, y := a.value * Pow10(d - a.decimal), b.value * Pow10(d - b.decimal);
            r == if Int64(x) && Int64(y) then Some((Fixed(x, d), Fixed(y, d))) else None
  {
    if a.decimal < b.decimal {
      var changed := ChangeDecimal(a, b.decimal);
      r := if changed.None? then None else Some((changed.value, b));
    } else {
      var changed := ChangeDecimal(b, a.decimal);
      r := if changed.None? then None else Some((a, changed.value));
    }
  }

  /** Adds without looking for overflow: the sum is right exactly if it fits. */
  method Add(a: Fixed, b: Fixed) returns (r: Option<Fixed>)
    requires Int64(a.value) && Int64(b.value)
    ensures var d := if a.decimal < b.decimal then b.decimal else a.decimal;
            var x, y := a.value * Pow10(d - a.decimal), b.value * Pow10(d - b.decimal);
            && (r.Some? <==> Int64(x) && Int64(y))
            && (r.Some? ==> r.value.decimal == d && (r.value.value == x + y <==> Int64(x + y)))
  {
    var both := UnifyDecimal(a, b);
    if both.None? {
      return None;
    }
    WrapSmall(both.value.0.value + both.value.1.value);
    r := Some(Fixed(Wrap64(both.value.0.value + both.value.1.value), both.value.0.decimal));
  }

  // ----- Products -----

  /** The same number without trailing zeros behind the point. */
  function Shrunk(f: Fixed): Fixed
    decreases if f.decimal > 0 then f.decimal else 0
  {
    if f.value % 10 == 0 && f.decimal > 0 then Shrunk(Fixed(f.value / 10, f.decimal - 1)) else f
  }

  lemma {:induction false} ShrunkIsSame(f: Fixed)
    ensures Shrunk(f).decimal <= f.decimal && f.value == Shrunk(f).value * Pow10(f.decimal - Shrunk(f).decimal)
    ensures Shrunk(f).value % 10 != 0 || Shrunk(f).decimal <= 0
    ensures Int64(f.value) ==> Int64(Shrunk(f).value)
    decreases if f.decimal > 0 then f.decimal else 0
  {
    if f.value % 10 == 0 && f.decimal > 0 {
      var g := Fixed(f.value / 10, f.decimal - 1);
      ShrunkIsSame(g);
      var k := g.decimal - Shrunk(f).decimal;
      assert f.value == 10 * g.value;
      assert Shrunk(f).value * Pow10(k + 1) == 10 * (Shrunk(f).value * Pow10(k));
    }
  }

  method ShrinkDecimal(f: Fixed) returns (r: Fixed)
    ensures r == Shrunk(f)
  {
    var value, decimal := f.value, f.decimal;
    while value % 10 == 0 && decimal > 0
      invariant Shrunk(Fixed(value, decimal)) == Shrunk(f)
      decreases decimal
    {
      assert TDiv(value, 10) == value / 10;
      value := TDiv(value, 10);
      decimal := decimal - 1;
    }
    r := Fixed(value, decimal);
  }

  /** Exact as a product of rational numbers, or refused because the product without trailing zeros does not fit;
      the one pair the overflow test misses apart. */
  method Multiply(f: Fixed, o: Fixed) returns (r: Option<Fixed>)
    requires Int64(f.value) && Int64(o.value)
    ensures var a, b := Shrunk(f), Shrunk(o);
            !(a.value == -1 && b.value == MIN_INT64) ==>
              && (r.None? <==> !Int64(a.value * b.value))
              && (r.Some? ==> && r.value.decimal <= f.decimal + o.decimal && Int64(r.value.value)
                              && f.value * o.value == r.value.value * Pow10(f.decimal + o.decimal - r.value.decimal))
  {
    var a := ShrinkDecimal(f);
    var b := ShrinkDecimal(o);
    ShrunkIsSame(f);
    ShrunkIsSame(o);
    MultiplyOverflowIff(a.value, b.value);
    if MultiplyOverflow(a.value, b.value) {
      return None;
    }
    WrapSmall(a.value * b.value);
    ProductOfPowers(a.value, b.value, f.decimal - a.decimal, o.decimal - b.decimal);
    r := Some(Fixed(Wrap64(a.value * b.value), a.decimal + b.decimal));
  }

  lemma ProductOfPowers(x: int, y: int, j: nat, k: nat)
    ensures (x * Pow10(j)) * (y * Pow10(k)) == (x * y) * Pow10(j + k)
  {
    Pow10Sum(j, k);
    var p, q := Pow10(j), Pow10(k);
    assert (x * p) * (y * q) == (x * y) * (p * q);
  }
}
