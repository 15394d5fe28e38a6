// Model of stExiPysicalValue in LibIso15118/isoTypes.cpp: a 16 bit mantissa and a decimal exponent.

module PhysicalValues {

  /** The unit symbol is copied unchanged by the program and is not modelled. */
  datatype PhysicalValue = PhysicalValue(value: int, exponent: int)

  function Pow10(e: int): (p: real)
    ensures p > 0.0
    decreases if e < 0 then -e else e
  {
    if e == 0 then 1.0
    else if e > 0 then 10.0 * Pow10(e - 1)
    else Pow10(e + 1) / 10.0
  }

  function Abs(x: real): real {
    if x < 0.0 then -x else x
  }

  /** C's round: halves go away from zero. */
  function Round(x: real): int {
    if x < 0.0 then -((0.5 - x).Floor) else (x + 0.5).Floor
  }

  function Int16(n: int): int {
    (n + 32768) % 65536 - 32768
  }

  function Int8(n: int): int {
    (n + 128) % 256 - 128
  }

  /** ceil(log10(x)) for x of at least one. */
  function CeilLog10(x: real): nat
    decreases x.Floor
  {
    if x <= 1.0 then 0 else 1 + CeilLog10(x / 10.0)
  }

  predicate WideBranch(v: real, e: int) {
    e == 0 && Abs(v) >= 32768.0
  }

  /** The number of steps of 10^e nearest to v. */
  function Mantissa(v: real, e: int): int {
    Round(v / Pow10(e))
  }

  /** n steps of 10^e. */
  function Scaled(n: int, e: int): real {
    n as real * Pow10(e)
  }

  function FromReal(v: real, e: int): PhysicalValue {
    if v == 0.0 then PhysicalValue(0, 0)
    else if e == 0 && Abs(v) < 32768.0 then PhysicalValue(Int16(Round(v)), 0)
    else if e != 0 then PhysicalValue(Int16(Mantissa(v, e)), e)
    else PhysicalValue(Int16(Round(v)), Int8(CeilLog10(Abs(v)) - 5))
  }

  function ToReal(p: PhysicalValue): real {
    Scaled(p.value, p.exponent)
  }

  /** What a number becomes on its way through a message. */
  function Carry(v: real, e: int): real {
    ToReal(FromReal(v, e))
  }

  /** c is at most half a step away from v. */
  predicate WithinHalf(c: real, v: real, step: real) {
    v - step / 2.0 <= c <= v + step / 2.0
  }

  lemma RoundIsNearest(x: real)
    ensures -0.5 <= x - Round(x) as real <= 0.5
  {
  }

  lemma ScaledError(v: real, p: real, m: int)
    requires p > 0.0
    requires -0.5 <= v / p - m as real <= 0.5
    ensures WithinHalf(m as real * p, v, p)
  {
    var q := v / p;
    assert q * p == v;
    var d := q - m as real;
    assert d * p == v - m as real * p;
    if d >= 0.0 {
      assert d * p <= 0.5 * p;
    } else {
      assert (-d) * p <= 0.5 * p;
    }
  }

  lemma ScaledGap(v: real, p: real, m: int, n: int)
    requires p > 0.0
    requires -0.5 <= v / p - m as real <= 0.5
    requires n - m >= 2 || m - n >= 2
    ensures !WithinHalf(n as real * p, v, p)
  {
    var q := v / p;
    assert q * p == v;
    var d := n as real - q;
    assert d * p == n as real * p - v;
    if n > m {
      assert d >= 1.5;
      assert d * p >= 1.5 * p;
    } else {
      assert -d >= 1.5;
      assert (-d) * p >= 1.5 * p;
    }
  }

  lemma MantissaOfZero(e: int)
    ensures Mantissa(0.0, e) == 0 && Scaled(0, e) == 0.0 == Scaled(0, 0)
  {
    assert 0.0 / Pow10(e) == 0.0;
  }

  lemma MantissaOfWhole(v: real)
    ensures Mantissa(v, 0) == Round(v)
  {
    assert Pow10(0) == 1.0;
    assert v / 1.0 == v;
  }

  lemma CarriedMantissa(v: real, e: int)
    requires !WideBranch(v, e)
    ensures Carry(v, e) == Scaled(Int16(Mantissa(v, e)), e)
  {
    MantissaOfZero(e);
    MantissaOfWhole(v);
  }

  lemma Int16Wraps(m: int)
    ensures -32768 <= m <= 32767 ==> Int16(m) == m
    ensures m < -32768 || m > 32767 ==> Int16(m) - m >= 2 || m - Int16(m) >= 2
  {
  }

  lemma ErrorOfMantissa(v: real, p: real, m: int, c: real)
    requires p > 0.0
    requires m == Round(v / p) && c == Int16(m) as real * p
    ensures WithinHalf(c, v, p) <==> -32768 <= m <= 32767
  {
    RoundIsNearest(v / p);
    Int16Wraps(m);
    if -32768 <= m <= 32767 {
      ScaledError(v, p, m);
    } else {
      ScaledGap(v, p, m, Int16(m));
    }
  }

  lemma MantissaError(v: real, e: int)
    ensures WithinHalf(Scaled(Int16(Mantissa(v, e)), e), v, Pow10(e)) <==> -32768 <= Mantissa(v, e) <= 32767
  {
    ErrorOfMantissa(v, Pow10(e), Mantissa(v, e), Scaled(Int16(Mantissa(v, e)), e));
  }

  lemma MantissaOfSteps(k: int, e: int)
    ensures Mantissa(Scaled(k, e), e) == k
  {
    assert Scaled(k, e) / Pow10(e) == k as real;
  }

  /** The magnitude. */
  lemma AbsMeans(x: real)
    ensures Abs(x) >= 0.0 && (Abs(x) == x || Abs(x) == -x)
  {
  }

  /** The steps are the powers of ten. */
  lemma PowersOfTen(e: int)
    ensures Pow10(0) == 1.0 && Pow10(e + 1) == 10.0 * Pow10(e)
  {
  }

  /** The nearest whole number; halves go away from zero. */
  lemma RoundMeans(x: real, n: int)
    ensures Round(x) == n <==>
              if x >= 0.0 then n as real - 0.5 <= x < n as real + 0.5 else n as real - 0.5 < x <= n as real + 0.5
  {
  }

  /** Both conversions give the number in their range that differs by a multiple of their width. */
  lemma WrapsMean(n: int)
    ensures -32768 <= Int16(n) < 32768 && n == Int16(n) + 65536 * ((n + 32768) / 65536)
    ensures -128 <= Int8(n) < 128 && n == Int8(n) + 256 * ((n + 128) / 256)
  {
  }

  /** Which exponent a value is sent with: none for zero, otherwise the wanted one. */
  lemma ExponentChosen(v: real, e: int)
    requires !WideBranch(v, e)
    ensures FromReal(v, e).exponent == if v == 0.0 then 0 else e
  {
  }

  /** Outside the wide branch the value read back is within half a step of the value written if and
      only if the rounded mantissa fits 16 bits. */
  lemma RoundTripError(v: real, e: int)
    requires !WideBranch(v, e)
    ensures WithinHalf(Carry(v, e), v, Pow10(e)) <==> -32768 <= Mantissa(v, e) <= 32767
  {
    CarriedMantissa(v, e);
    MantissaError(v, e);
  }

  /** A whole number of steps comes back unchanged. */
  lemma RoundTripExact(k: int, e: int)
    requires -32768 <= k <= 32767
    requires !WideBranch(Scaled(k, e), e)
    ensures Carry(Scaled(k, e), e) == Scaled(k, e)
  {
    MantissaOfSteps(k, e);
    CarriedMantissa(Scaled(k, e), e);
  }

  /** The numbers the charging dialogue depends on survive the journey exactly. */
  lemma DemandsSurvive()
    ensures Carry(10.0, 0) == 10.0 && Carry(0.0, 0) == 0.0 && Carry(0.0, -1) == 0.0
    ensures FromReal(0.0, 0) == PhysicalValue(0, 0) && FromReal(10.0, 0) == PhysicalValue(10, 0)
  {
  }

  lemma LogOfFiveDigits(x: real)
    requires 10000.0 < x <= 100000.0
    ensures CeilLog10(x) == 5
  {
    var a, b, c, d, e := x / 10.0, x / 10.0 / 10.0, x / 10.0 / 10.0 / 10.0, x / 10.0 / 10.0 / 10.0 / 10.0, x / 10.0 / 10.0 / 10.0 / 10.0 / 10.0;
    assert CeilLog10(e) == 0;
    assert CeilLog10(d) == 1 + CeilLog10(e);
    assert CeilLog10(c) == 1 + CeilLog10(d);
    assert CeilLog10(b) == 1 + CeilLog10(c);
    assert CeilLog10(a) == 1 + CeilLog10(b);
  }

  lemma WideMantissa(v: real)
    requires WideBranch(v, 0) && Abs(v) <= 100000.0
    ensures FromReal(v, 0) == PhysicalValue(Int16(Mantissa(v, 0)), 0)
  {
    LogOfFiveDigits(Abs(v));
    MantissaOfWhole(v);
    hide Int16;
    hide Round;
    hide CeilLog10;
  }

  lemma FewFit(v: real)
    requires WideBranch(v, 0)
    ensures -32768 <= Round(v) <= 32767 <==> Round(v) == -32768
  {
  }

  lemma Steps(n: int)
    ensures Scaled(n, 0) == n as real && Pow10(0) == 1.0
  {
  }

  /** In the wide branch the mantissa is not scaled by the exponent it gets. Up to a hundred thousand that
      exponent is still zero: the value read back is within half a step of the value written if and only
      if the latter rounds to -32768. */
  lemma WideBranchFails(v: real)
    requires WideBranch(v, 0) && Abs(v) <= 100000.0
    ensures Carry(v, 0) == Int16(Round(v)) as real
    ensures WithinHalf(Carry(v, 0), v, 1.0) <==> Round(v) == -32768
  {
    WideMantissa(v);
    MantissaOfWhole(v);
    MantissaError(v, 0);
    FewFit(v);
    Steps(Int16(Round(v)));
    hide FromReal;
    hide Int16;
    hide Round;
    hide Pow10;
    hide Mantissa;
  }

  lemma {:induction false} LogMeans(x: real, k: nat)
    requires Pow10(k) < x <= 10.0 * Pow10(k)
    ensures CeilLog10(x) == k + 1
    decreases k
  {
    var y := x / 10.0;
    assert 10.0 * y == x;
    if k == 0 {
      assert Pow10(0) == 1.0;
      assert CeilLog10(y) == 0;
    } else {
      assert Pow10(k) == 10.0 * Pow10(k - 1);
      LogMeans(y, k - 1);
    }
    AtLeastOne(k);
  }

  lemma {:induction false} AtLeastOne(k: nat)
    ensures Pow10(k) >= 1.0
  {
    if k != 0 {
      AtLeastOne(k - 1);
    }
  }

  /** The exponent of the wide branch leaves five digits, but the mantissa keeps them all and wraps. */
  lemma WideExponent(v: real, k: nat)
    requires WideBranch(v, 0) && Pow10(k) < Abs(v) <= 10.0 * Pow10(k) && k < 100
    ensures FromReal(v, 0) == PhysicalValue(Int16(Round(v)), k - 4)
  {
    LogMeans(Abs(v), k);
    if k < 4 {
      SmallPowers();
    }
  }

  lemma SmallPowers()
    ensures Pow10(1) == 10.0 && Pow10(2) == 100.0 && Pow10(3) == 1000.0 && Pow10(4) == 10000.0
  {
    assert Pow10(0) == 1.0;
  }

  /** stExiPysicalValue as the object whose fields the program sets. */
  class ExiPhysicalValue {
    var value: int
    var exponent: int

    constructor ()
      ensures value == 0 && exponent == 0
    {
      value, exponent := 0, 0;
    }

    method FromFloat(v: real, e: int)
      modifies this
      ensures PhysicalValue(value, exponent) == FromReal(v, e)
    {
      if v == 0.0 {
        value := 0;
        exponent := 0;
        return;
      }
      if e == 0 && Abs(v) < 32768.0 {
        exponent := 0;
        value := Int16(Round(v));
        return;
      }
      if e != 0 {
        var val := Round(v / Pow10(e));
        value := Int16(val);
        exponent := e;
        return;
      }
      var exp := CeilLog10(Abs(v)) - 5;
      MantissaOfWhole(v);
      var val := Round(v / Pow10(e));
      value := Int16(val);
      exponent := Int8(exp);
    }

    method ToFloat() returns (v: real)
      ensures v == ToReal(PhysicalValue(value, exponent))
    {
      v := value as real * Pow10(exponent);
    }
  }
}
