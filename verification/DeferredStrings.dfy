/** The strings that stand for integers in a deferred string vector: how they are to be read back, defined apart
    from how they are made. */
module DeferredStrings {
  import opened Bytes
  import opened Objects
  import opened ParserSpec

  // Reading decimal numbers.

  predicate AllDigits(text: Text) { forall i :: 0 <= i < |text| ==> 0x30 <= text[i] <= 0x39 }

  function Decimal(text: Text): int
  {
    if text == [] then 0 else 10 * Decimal(text[..|text| - 1]) + text[|text| - 1] - 0x30
  }

  /** Digits without a zero in front, unless the number is zero. */
  predicate IsNumeral(text: Text) { text != [] && AllDigits(text) && (text[0] == 0x30 ==> text == [0x30]) }

  /** An optional minus sign and a numeral, which is not zero after a minus sign. */
  function SignedDecimal(text: Text): Option<int>
  {
    if IsNumeral(text) then Some(Decimal(text))
    else if text != [] && text[0] == 0x2D && IsNumeral(text[1..]) && text[1] != 0x30 then Some(-Decimal(text[1..]))
    else None
  }

  /** The string for an integer: a missing one for the smallest integer, plain ASCII for all others. */
  predicate Spells(x: RString, k: int32)
  {
    && (k == -0x8000_0000 <==> x.value.None?)
    && (x.value.None? ==> x.encoding == Utf8)
    && (x.value.Some? ==> x.encoding == Ascii && SignedDecimal(x.value.value) == Some(k))
  }

  ghost predicate AllSpell(xs: seq<RString>, ints: seq<int32>)
  {
    |xs| == |ints| && forall i :: 0 <= i < |xs| ==> Spells(xs[i], ints[i])
  }

  // Making them.

  /** The digits of a number mean that number, and only zero starts with a zero. */
  lemma {:induction false} DigitsInvert(n: nat)
    ensures Decimal(Digits(n)) == n && Digits(n) != [] && AllDigits(Digits(n))
    ensures Digits(n)[0] == 0x30 ==> n == 0
  {
    if n >= 10 {
      DigitsInvert(n / 10);
      var d := Digits(n / 10);
      assert (d + [0x30 + n % 10])[..|d|] == d;
    } else {
      assert Digits(n)[..0] == [];
    }
  }

  lemma DigitsNumeral(n: nat)
    ensures IsNumeral(Digits(n)) && Decimal(Digits(n)) == n && (Digits(n)[0] == 0x30 <==> n == 0)
  {
    hide Decimal, AllDigits;
    DigitsInvert(n);
  }

  lemma StringSpells(ints: seq<int32>, i: nat)
    requires i < |ints|
    ensures Spells(AsStrings(ints)[i], ints[i])
  {
    hide Decimal, AllDigits, IsNumeral, Digits;
    var k: int := ints[i];
    if k >= 0 {
      DigitsNumeral(k);
    } else {
      var d := Digits(-k);
      var text := [0x2D] + d;
      DigitsNumeral(-k);
      assert text[1..] == d;
      NotNumeral(text);
    }
  }

  lemma NotNumeral(text: Text)
    requires text != [] && text[0] == 0x2D
    ensures !IsNumeral(text)
  {
  }

  lemma StringsSpell(ints: seq<int32>)
    ensures AllSpell(AsStrings(ints), ints)
  {
    hide Spells, AsStrings;
    forall i | 0 <= i < |ints| ensures Spells(AsStrings(ints)[i], ints[i]) { StringSpells(ints, i); }
  }

  // There is only one way.

  lemma {:induction false} NumeralUnique(text: Text)
    requires IsNumeral(text)
    ensures Decimal(text) >= 0 && Digits(Decimal(text)) == text
    decreases |text|
  {
    var n := |text| - 1;
    var t := text[..n];
    assert text == t + [text[n]];
    if n > 0 {
      assert t[0] == text[0] != 0x30;
      NumeralUnique(t);
      DigitsInvert(Decimal(t));
    }
  }

  /** A string that spells an integer is the only one that does. */
  lemma SpelledOnce(x: RString, y: RString, k: int32)
    requires Spells(x, k) && Spells(y, k)
    ensures x == y
  {
    if x.value.Some? { OneText(x.value.value, y.value.value); }
  }

  lemma OneText(a: Text, b: Text)
    requires SignedDecimal(a).Some? && SignedDecimal(a) == SignedDecimal(b)
    ensures a == b
  {
    hide Decimal, Digits, AllDigits;
    var x, y := Unsigned(a), Unsigned(b);
    NumeralUnique(x);
    NumeralUnique(y);
    DigitsNumeral(Decimal(x));
    DigitsNumeral(Decimal(y));
    assert a == x || a == [0x2D] + x;
    assert b == y || b == [0x2D] + y;
  }

  function Unsigned(text: Text): (r: Text)
    requires SignedDecimal(text).Some?
    ensures IsNumeral(r)
  {
    if IsNumeral(text) then text else text[1..]
  }
}
