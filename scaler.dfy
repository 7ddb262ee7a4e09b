/** The value scaler: a linear map from the raw controller range to the public
    percentage, rounded as Python's round() does. */
module Scaler {
  import opened Wrappers

  /** The one way scaling can fail: an empty input range divides by zero. */
  datatype ScaleError = ZeroDivision

  /** r is the integer nearest to num/den (den > 0); when num/den lies exactly
      half-way between two integers, r is the even one (banker's rounding). */
  ghost predicate IsRoundHalfEven(r: int, num: int, den: int)
    requires den > 0
  {
    var e := 2 * (den * r - num);
    -den <= e <= den && ((e == den || e == -den) ==> r % 2 == 0)
  }

  /** Python's round() of the exact quotient num/den. */
  function RoundHalfEven(num: int, den: int): (r: int)
    requires den > 0
    ensures IsRoundHalfEven(r, num, den)
  {
    var q, rem := num / den, num % den;
    assert num == den * q + rem && 0 <= rem < den;
    assert den * (q + 1) == den * q + den;
    if 2 * rem < den then q
    else if 2 * rem > den then q + 1
    else if q % 2 == 0 then q else q + 1
  }

  /** At most one integer is the half-even rounding of a quotient. */
  lemma RoundHalfEvenUnique(r1: int, r2: int, num: int, den: int)
    requires den > 0
    requires IsRoundHalfEven(r1, num, den) && IsRoundHalfEven(r2, num, den)
    ensures r1 == r2
  {
    var k := r1 - r2;
    assert den * k == den * r1 - den * r2;
    // both errors lie within [-den, den], so den * k does too
    MulWithin(den, k);
  }

  /** Helper: a multiple of den within [-den, den] is -den, 0 or den. */
  lemma MulWithin(den: int, k: int)
    requires den > 0 && -den <= den * k <= den
    ensures -1 <= k <= 1 && den * k == if k == 1 then den else if k == -1 then -den else 0
  {
  }

  /** scale_value with all its parameters: (value - inMin) * (outMax - outMin)
      / (inMax - inMin) + outMin, rounded. The quotient is computed exactly over
      one common denominator, so that the half-even tie rule sees the true
      value. */
  function ScaleValue(value: int, inMin: int, inMax: int, outMin: int, outMax: int): (r: Result<int, ScaleError>)
    ensures r.Err? <==> inMin == inMax
    ensures r.Ok? && inMin < inMax ==>
      IsRoundHalfEven(r.value, (value - inMin) * (outMax - outMin) + outMin * (inMax - inMin), inMax - inMin)
    ensures r.Ok? && inMax < inMin ==>
      IsRoundHalfEven(r.value, (inMin - value) * (outMax - outMin) + outMin * (inMin - inMax), inMin - inMax)
  {
    if inMin == inMax then Err(ZeroDivision)
    else if inMin < inMax then
      Ok(RoundHalfEven((value - inMin) * (outMax - outMin) + outMin * (inMax - inMin), inMax - inMin))
    else
      Ok(RoundHalfEven((inMin - value) * (outMax - outMin) + outMin * (inMin - inMax), inMin - inMax))
  }

  /** A non-degenerate scaling maps the ends of the input range to the ends of
      the output range. */
  lemma ScaleValueEndpoints(inMin: int, inMax: int, outMin: int, outMax: int)
    requires inMin != inMax
    ensures ScaleValue(inMin, inMin, inMax, outMin, outMax) == Ok(outMin)
    ensures ScaleValue(inMax, inMin, inMax, outMin, outMax) == Ok(outMax)
  {
    var den := if inMin < inMax then inMax - inMin else inMin - inMax;
    assert IsRoundHalfEven(outMin, outMin * den, den);
    assert IsRoundHalfEven(outMax, (outMax - outMin) * den + outMin * den, den);
    RoundHalfEvenUnique(ScaleValue(inMin, inMin, inMax, outMin, outMax).value, outMin, outMin * den, den);
    RoundHalfEvenUnique(ScaleValue(inMax, inMin, inMax, outMin, outMax).value, outMax,
                        (outMax - outMin) * den + outMin * den, den);
  }

  /** scale_value with its default ranges 0..127 and 0..100, the only way the
      monitor calls it, in integer arithmetic. */
  function Scale(value: int): (r: int)
    ensures 0 <= value <= 127 ==> 0 <= r <= 100
    ensures value == 0 ==> r == 0
    ensures value == 127 ==> r == 100
  {
    (200 * value + 127) / 254
  }

  /** The integer form is the half-even rounding of the exact quotient
      100 * value / 127, for every integer value: that quotient never lies
      exactly half-way between integers, so the tie rule never applies. On
      the MIDI range 0..127 this is also what Python's float arithmetic
      gives. */
  lemma ScaleIsRoundedQuotient(value: int)
    ensures Scale(value) == RoundHalfEven(100 * value, 127)
    ensures ScaleValue(value, 0, 127, 0, 100) == Ok(Scale(value))
  {
    var r := Scale(value);
    assert 254 * r <= 200 * value + 127 < 254 * r + 254;
    assert IsRoundHalfEven(r, 100 * value, 127);
    RoundHalfEvenUnique(r, RoundHalfEven(100 * value, 127), 100 * value, 127);
  }

  /** Scaling never reverses the order of two raw values. */
  lemma ScaleMonotonic(a: int, b: int)
    requires a <= b
    ensures Scale(a) <= Scale(b)
  {
    var ra, rb := Scale(a), Scale(b);
    assert 254 * ra <= 200 * a + 127;
    assert 200 * b + 127 < 254 * rb + 254;
  }
}
