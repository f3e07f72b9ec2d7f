/** The arithmetic of compact integer sequences: a length, a start and a step, stored as doubles
    and expanded on reading. Doubles are decoded exactly and added without rounding. */
module CompactSequences {
  import opened Bytes
  import opened Objects

  function Pow2(k: int): (r: real)
    ensures r > 0.0
    decreases if k < 0 then -k else k
  {
    if k == 0 then 1.0 else if k > 0 then 2.0 * Pow2(k - 1) else Pow2(k + 1) / 2.0
  }

  /** The magnitude of a double with these exponent and fraction bits; `None` for infinities and NaN. */
  function Unsigned(exponent: nat, fraction: nat): Option<real>
  {
    if exponent == 0x7FF then None
    else if exponent == 0 then Some(fraction as real * Pow2(-1074))
    else Some((0x10_0000_0000_0000 + fraction) as real * Pow2(exponent - 1075))
  }

  /** The value of an IEEE 754 bit pattern. */
  function DoubleValue(bits: u64): Option<real>
  {
    var magnitude :- Unsigned(bits / 0x10_0000_0000_0000 % 0x800, bits % 0x10_0000_0000_0000);
    Some(if bits >= 0x8000_0000_0000_0000 then -magnitude else magnitude)
  }

  /** Rounding towards zero. */
  function Trunc(x: real): int { if x >= 0.0 then x.Floor else -(-x).Floor }

  /** The overflow test made on one endpoint: negative values get one more. */
  predicate EndpointFits(x: real)
  {
    Trunc(if x >= 0.0 then x else -(x + 1.0)) <= INT32_MAX
  }

  /** An endpoint passes the test exactly when its truncation is a 32-bit integer. */
  lemma EndpointTest(x: real)
    ensures EndpointFits(x) <==> -0x8000_0000 <= Trunc(x) < 0x8000_0000
  {
    if x < 0.0 {
      var y := -(x + 1.0);
      assert (y + 1.0).Floor == y.Floor + 1;
      assert (-x) == y + 1.0;
    }
  }

  lemma TruncMonotone(x: real, y: real)
    requires x <= y
    ensures Trunc(x) <= Trunc(y)
  {
  }

  lemma Between(step: real, k: real, last: real) returns (dk: real, dl: real)
    requires 0.0 <= k <= last
    ensures dk == k * step && dl == last * step
    ensures 0.0 <= dk <= dl || dl <= dk <= 0.0
  {
    dk, dl := k * step, last * step;
    Product(k, step);
    Product(last - k, step);
    assert dl - dk == (last - k) * step;
  }

  lemma Product(x: real, y: real)
    requires x >= 0.0
    ensures if y >= 0.0 then x * y >= 0.0 else x * y <= 0.0
  {
  }

  lemma Squeezed(a: real, x: real, b: real)
    requires EndpointFits(a) && EndpointFits(b) && (a <= x <= b || b <= x <= a)
    ensures -0x8000_0000 <= Trunc(x) < 0x8000_0000
  {
    hide EndpointFits, Trunc;
    EndpointTest(a);
    EndpointTest(b);
    if a <= x <= b {
      TruncMonotone(a, x);
      TruncMonotone(x, b);
    } else {
      TruncMonotone(b, x);
      TruncMonotone(x, a);
    }
  }

  predicate Checked(count: real, start: real, step: real)
  {
    EndpointFits(start) && EndpointFits(start + (count - 1.0) * step)
  }

  /** Testing the two endpoints is enough: every element in between fits as well, whatever the
      sign of the step and even when the claimed count is fractional. */
  lemma ElementFits(count: real, start: real, step: real, i: nat)
    requires i < Trunc(count)
    requires Checked(count, start, step)
    ensures -0x8000_0000 <= Trunc(start + i as real * step) < 0x8000_0000
  {
    hide EndpointFits;
    var dx, dl := Between(step, i as real, count - 1.0);
    assert start + dl == start + (count - 1.0) * step;
    assert EndpointFits(start + dl);
    Squeezed(start, start + dx, start + dl);
  }

  function Element(count: real, start: real, step: real, i: nat): int32
    requires i < Trunc(count) && Checked(count, start, step)
  {
    ElementFits(count, start, step, i);
    Trunc(start + i as real * step)
  }

  // What the accumulating loop holds after `i` rounds.

  function Stepped(start: real, step: real, i: nat): real { start + i as real * step }

  lemma StepZero(start: real, step: real)
    ensures Stepped(start, step, 0) == start
  {
  }

  lemma StepOnce(start: real, step: real, i: nat)
    ensures Stepped(start, step, i + 1) == Stepped(start, step, i) + step
  {
    assert (i + 1) as real == i as real + 1.0;
    assert (i as real + 1.0) * step == i as real * step + step;
  }

  lemma StoredElement(count: real, start: real, step: real, i: nat)
    requires i < Trunc(count) && Checked(count, start, step)
    ensures Trunc(Stepped(start, step, i)) == Element(count, start, step, i)
    ensures -0x8000_0000 <= Trunc(Stepped(start, step, i)) < 0x8000_0000
  {
    hide Trunc, Checked;
    ElementFits(count, start, step, i);
  }

  /** Element `i` is `start + i * step`, rounded towards zero. */
  function Expand(count: real, start: real, step: real): (ints: seq<int32>)
    requires Trunc(count) > 0 ==> Checked(count, start, step)
  {
    if Trunc(count) <= 0 then []
    else seq(Trunc(count), i requires 0 <= i < Trunc(count) => Element(count, start, step, i))
  }

  /** The sequence described by three stored doubles, or `None` if it is not representable. The
      endpoints are not looked at when the sequence is empty. */
  function ExpandDoubles(count: u64, start: u64, step: u64): (ints: Option<seq<int32>>)
    ensures ints.Some? ==> |ints.value| < SIZE_LIMIT
  {
    var n :- DoubleValue(count);
    if Trunc(n) < 0 || Trunc(n) >= SIZE_LIMIT then None
    else if Trunc(n) == 0 then Some([])
    else
      var a :- DoubleValue(start);
      var d :- DoubleValue(step);
      if Checked(n, a, d) then Some(Expand(n, a, d)) else None
  }

  // What the elements are.

  /** Rounding towards zero: the result has no larger magnitude, is less than one away and has no other sign. */
  lemma TruncMeans(x: real)
    ensures if x >= 0.0 then 0.0 <= Trunc(x) as real <= x < Trunc(x) as real + 1.0
            else Trunc(x) as real - 1.0 < x <= Trunc(x) as real <= 0.0
  {
  }

  /** `ints` are the `n` values start, start + step, start + 2 * step, ..., each rounded towards zero. */
  ghost predicate Counts(ints: seq<int32>, n: int, start: real, step: real)
  {
    |ints| == n && forall i :: 0 <= i < |ints| ==> ints[i] == Trunc(start + i as real * step)
  }

  lemma SteppedCounts(ints: seq<int32>, start: real, step: real)
    requires forall i :: 0 <= i < |ints| ==> ints[i] == Trunc(Stepped(start, step, i))
    ensures Counts(ints, |ints|, start, step)
  {
    hide Trunc;
  }

  /** The integers that three stored doubles stand for: as many as the first one says, from the second one on, the
      third one apart. */
  ghost predicate Describes(count: u64, start: u64, step: u64, ints: seq<int32>)
  {
    && DoubleValue(count).Some? && |ints| == Trunc(DoubleValue(count).value)
    && (ints != [] ==> DoubleValue(start).Some? && DoubleValue(step).Some?
                       && ints[0] == Trunc(DoubleValue(start).value)
                       && Counts(ints, |ints|, DoubleValue(start).value, DoubleValue(step).value))
  }

  lemma ExpandedElements(count: u64, start: u64, step: u64)
    requires ExpandDoubles(count, start, step).Some?
    ensures Describes(count, start, step, ExpandDoubles(count, start, step).value)
  {
    hide DoubleValue, Trunc, Checked;
    if ExpandDoubles(count, start, step).value != [] {
      StepZero(DoubleValue(start).value, DoubleValue(step).value);
    }
  }

  lemma CountsExpand(ints: seq<int32>, count: real, start: real, step: real)
    requires Trunc(count) > 0 && Checked(count, start, step) && Counts(ints, Trunc(count), start, step)
    ensures ints == Expand(count, start, step)
  {
    hide Trunc, Checked;
  }

  // How exact the test is.

  predicate IsInt32(x: int) { -0x8000_0000 <= x < 0x8000_0000 }

  lemma AtCount(n: nat, start: real, step: real)
    requires n > 0
    ensures Stepped(start, step, n - 1) == start + (n as real - 1.0) * step
  {
    assert (n - 1) as real == n as real - 1.0;
  }

  /** For any count: the test passes exactly when every element is a 32-bit integer and the point at
      `count - 1`, which lies past the last element if the count is not whole, is one as well. */
  lemma TestExactly(count: real, start: real, step: real)
    requires Trunc(count) > 0
    ensures Checked(count, start, step)
       <==> (forall i: nat :: i < Trunc(count) ==> IsInt32(Trunc(Stepped(start, step, i))))
            && IsInt32(Trunc(start + (count - 1.0) * step))
  {
    hide Trunc, EndpointFits, Stepped;
    EndpointTest(start);
    EndpointTest(start + (count - 1.0) * step);
    StepZero(start, step);
    if Checked(count, start, step) {
      forall i: nat | i < Trunc(count) ensures IsInt32(Trunc(Stepped(start, step, i))) {
        StoredElement(count, start, step, i);
      }
    } else if forall i: nat :: i < Trunc(count) ==> IsInt32(Trunc(Stepped(start, step, i))) {
      assert IsInt32(Trunc(Stepped(start, step, 0)));
    }
  }

  /** For a whole count the point at `count - 1` is the last element, so the test is exact. */
  lemma WholeCountExactly(n: nat, start: real, step: real)
    requires n > 0
    ensures Trunc(n as real) == n
    ensures Checked(n as real, start, step)
       <==> forall i: nat :: i < n ==> IsInt32(Trunc(Stepped(start, step, i)))
  {
    hide EndpointFits, Stepped;
    TestExactly(n as real, start, step);
    AtCount(n, start, step);
  }

  /** A stored sequence of finite numbers with a whole count is expanded exactly when all its elements are
      32-bit integers. */
  lemma ExpandsExactly(count: u64, start: u64, step: u64, n: nat)
    requires DoubleValue(count) == Some(n as real) && n < SIZE_LIMIT
    requires DoubleValue(start).Some? && DoubleValue(step).Some?
    ensures ExpandDoubles(count, start, step).Some?
       <==> forall i: nat :: i < n ==> IsInt32(Trunc(Stepped(DoubleValue(start).value, DoubleValue(step).value, i)))
  {
    hide DoubleValue, Stepped, Expand, Checked;
    if n > 0 { WholeCountExactly(n, DoubleValue(start).value, DoubleValue(step).value); }
  }

  // Integers as doubles.

  /** The sign of a double is in its first bit. */
  lemma SignBit(bits: u64)
    requires bits < 0x8000_0000_0000_0000
    ensures DoubleValue(bits + 0x8000_0000_0000_0000)
         == match DoubleValue(bits) case None => None case Some(x) => Some(-x)
    ensures DoubleValue(bits).Some? ==> DoubleValue(bits).value >= 0.0
  {
    hide Pow2;
    Fields(bits / 0x10_0000_0000_0000, bits % 0x10_0000_0000_0000);
  }

  lemma Fields(exponent: nat, fraction: nat)
    requires exponent < 0x800 && fraction < 0x10_0000_0000_0000
    ensures var n := exponent * 0x10_0000_0000_0000 + fraction;
            && n < 0x8000_0000_0000_0000
            && n / 0x10_0000_0000_0000 == exponent == exponent % 0x800 && n % 0x10_0000_0000_0000 == fraction
            && (n + 0x8000_0000_0000_0000) / 0x10_0000_0000_0000 == exponent + 0x800
            && (exponent + 0x800) % 0x800 == exponent
            && (n + 0x8000_0000_0000_0000) % 0x10_0000_0000_0000 == fraction
  {
  }

  function Power(e: nat): (p: nat)
    ensures p > 0
  {
    if e == 0 then 1 else 2 * Power(e - 1)
  }

  lemma Twice(x: nat, y: nat)
    ensures 2 * x * y == 2 * (x * y)
  {
  }

  lemma {:induction false} PowerAdd(d: nat, e: nat)
    ensures Power(d) * Power(e) == Power(d + e)
  {
    if d > 0 {
      PowerAdd(d - 1, e);
      Twice(Power(d - 1), Power(e));
    }
  }

  lemma {:induction false} PowersCancel(e: nat)
    ensures Power(e) as real * Pow2(-(e as int)) == 1.0
  {
    if e > 0 {
      PowersCancel(e - 1);
      Halved(Power(e - 1) as real, Pow2(-((e - 1) as int)));
    }
  }

  lemma Halved(x: real, y: real)
    ensures 2.0 * x * (y / 2.0) == x * y
  {
  }

  /** The number of binary digits of a number after the first. */
  function Log(n: nat): (e: nat)
    requires n > 0
    ensures Power(e) <= n < 2 * Power(e)
  {
    if n == 1 then 0 else 1 + Log(n / 2)
  }

  lemma {:induction false} LogBelow(n: nat, e: nat)
    requires 0 < n < Power(e)
    ensures Log(n) < e
  {
    if n > 1 {
      LogBelow(n / 2, e - 1);
    }
  }

  lemma Power52()
    ensures Power(52) == 0x10_0000_0000_0000
  {
    assert Power(4) == 16 && Power(9) == 512 && Power(13) == 8192;
    PowerAdd(13, 13);
    PowerAdd(26, 26);
  }

  /** The double for a positive integer below 2^52: exponent and the binary digits after the first. */
  function Magnitude(n: nat): (bits: nat)
    requires 0 < n < 0x10_0000_0000_0000
  {
    hide Power;
    LogBelow52(n);
    var e := Log(n);
    var digits: nat, weight: nat := n - Power(e), Power(52 - e);
    (1023 + e) * 0x10_0000_0000_0000 + digits * weight
  }

  lemma LogBelow52(n: nat)
    requires 0 < n < 0x10_0000_0000_0000
    ensures Log(n) < 52
  {
    Power52();
    LogBelow(n, 52);
  }

  lemma MagnitudeMeans(n: nat)
    requires 0 < n < 0x10_0000_0000_0000
    ensures Magnitude(n) < 0x8000_0000_0000_0000 && DoubleValue(Magnitude(n)) == Some(n as real)
  {
    hide Pow2, Power, Log, Unsigned;
    LogBelow52(n);
    var e := Log(n);
    var fraction := (n - Power(e)) * Power(52 - e);
    FractionMeans(n, e, fraction);
    Fields(1023 + e, fraction);
  }

  lemma FractionMeans(n: nat, e: nat, fraction: nat)
    requires e < 52 && Power(e) <= n < 2 * Power(e) && fraction == (n - Power(e)) * Power(52 - e)
    ensures fraction < 0x10_0000_0000_0000 && Unsigned(1023 + e, fraction) == Some(n as real)
  {
    hide Pow2, Power;
    FractionFits(n, e, fraction);
    var q := Power(52 - e);
    PowersCancel(52 - e);
    assert Pow2(1023 + e - 1075) == Pow2(-((52 - e) as int));
    Cancelled(n, q, Pow2(1023 + e - 1075));
  }

  lemma FractionFits(n: nat, e: nat, fraction: nat)
    requires e < 52 && Power(e) <= n < 2 * Power(e) && fraction == (n - Power(e)) * Power(52 - e)
    ensures fraction < 0x10_0000_0000_0000 && 0x10_0000_0000_0000 + fraction == n * Power(52 - e)
  {
    hide Power;
    Power52();
    PowerAdd(e, 52 - e);
    Differ(n, Power(e), Power(52 - e));
    Smaller(n - Power(e), Power(e), Power(52 - e));
  }

  lemma Differ(a: nat, b: nat, c: nat)
    requires a >= b
    ensures (a - b) * c == a * c - b * c
  {
  }

  lemma Smaller(a: nat, b: nat, c: nat)
    requires a < b && c > 0
    ensures a * c < b * c
  {
  }

  lemma Cancelled(n: nat, q: nat, x: real)
    requires q as real * x == 1.0
    ensures (n * q) as real * x == n as real
  {
    assert (n * q) as real == n as real * q as real;
    assert n as real * q as real * x == n as real * (q as real * x);
  }

  lemma ZeroDouble()
    ensures DoubleValue(0) == Some(0.0)
  {
    hide Pow2;
  }

  /** The double for a 32-bit integer. */
  function AsDouble(k: int32): (bits: u64)
    ensures DoubleValue(bits) == Some(k as real)
  {
    hide Magnitude, DoubleValue;
    var n: int := k;
    if n == 0 then ZeroDouble(); 0
    else if n > 0 then MagnitudeMeans(n); Magnitude(n)
    else
      MagnitudeMeans(-n);
      SignBit(Magnitude(-n));
      Magnitude(-n) + 0x8000_0000_0000_0000
  }

  lemma WholeStep(start: int, step: int, i: nat)
    ensures Trunc(Stepped(start as real, step as real, i)) == start + i * step
  {
    assert (i * step) as real == i as real * step as real;
    assert Stepped(start as real, step as real, i) == (start + i * step) as real;
  }

  /** Every sequence of 32-bit integers with a constant step, up or down, can be stored in three doubles and is
      expanded to just these integers, in this order. */
  lemma RangeIsExpanded(n: int32, start: int32, step: int32, ints: seq<int32>)
    requires |ints| == n && forall i :: 0 <= i < n ==> ints[i] == start + i * step
    ensures ExpandDoubles(AsDouble(n), AsDouble(start), AsDouble(step)) == Some(ints)
  {
    hide AsDouble, DoubleValue, ExpandDoubles;
    var a, b := start as real, step as real;
    forall i: nat | i < n ensures Trunc(Stepped(a, b, i)) == ints[i] { WholeStep(start, step, i); }
    ExpandsExactly(AsDouble(n), AsDouble(start), AsDouble(step), n);
    var r := ExpandDoubles(AsDouble(n), AsDouble(start), AsDouble(step)).value;
    ExpandedElements(AsDouble(n), AsDouble(start), AsDouble(step));
    assert r == ints;
  }

  // A count that is not whole can be refused although every element would fit.

  lemma {:induction false} Pow2Add(j: nat, k: nat)
    ensures Pow2(-(j as int)) * Pow2(-(k as int)) == Pow2(-((j + k) as int))
  {
    if k > 0 {
      Pow2Add(j, k - 1);
      assert Pow2(-((j + k) as int)) == Pow2(-((j + k - 1) as int)) / 2.0;
    }
  }

  lemma Powers()
    ensures Pow2(-22) == 1.0 / 4194304.0 && Pow2(-51) == 1.0 / 2251799813685248.0
  {
    assert Pow2(-1) == 0.5 && Pow2(-2) == 0.25 && Pow2(-3) == 0.125;
    Pow2Add(3, 3);
    Pow2Add(6, 6);
    Pow2Add(12, 6);
    Pow2Add(18, 3);
    Pow2Add(21, 1);
    Pow2Add(18, 6);
    Pow2Add(24, 24);
    Pow2Add(48, 3);
  }

  const TWO_AND_A_HALF: u64 := 0x4004_0000_0000_0000
  const NEARLY_TOO_LARGE: u64 := 0x41DF_FFFF_FF00_0000
  const THREE: u64 := 0x4008_0000_0000_0000

  lemma Decoded()
    ensures DoubleValue(TWO_AND_A_HALF) == Some(2.5) && DoubleValue(THREE) == Some(3.0)
    ensures DoubleValue(NEARLY_TOO_LARGE) == Some(2147483644.0)
  {
    hide Pow2;
    Powers();
  }

  /** The elements are 2147483644 and 2147483647, but the point tested is 2147483648.5. */
  lemma FractionalCountIsRefused()
    ensures DoubleValue(TWO_AND_A_HALF) == Some(2.5) && DoubleValue(THREE) == Some(3.0)
    ensures DoubleValue(NEARLY_TOO_LARGE) == Some(2147483644.0)
    ensures forall i: nat :: i < Trunc(2.5) ==> IsInt32(Trunc(Stepped(2147483644.0, 3.0, i)))
    ensures ExpandDoubles(TWO_AND_A_HALF, NEARLY_TOO_LARGE, THREE) == None
  {
    hide DoubleValue;
    Decoded();
    assert Stepped(2147483644.0, 3.0, 0) == 2147483644.0 && Stepped(2147483644.0, 3.0, 1) == 2147483647.0;
    assert !EndpointFits(2147483644.0 + (2.5 - 1.0) * 3.0);
  }
}
