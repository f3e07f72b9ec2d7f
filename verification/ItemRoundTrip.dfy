/** Items without references: whatever the writer appends, the parser reads back from the place
    where it was appended, and stops where the writer stopped. `e` is the end of a
    run: `e.out` is any input that starts with the bytes written, so nothing after them matters. */
module ItemRoundTrip {
  import opened Bytes
  import opened Objects
  import opened WriterSpec
  import opened ParserSpec

  lemma SliceTrip(s: Sink, b: seq<byte>, e: Sink)
    requires Before(Put(s, b), e)
    ensures |s.out| + |b| <= |e.out| && e.out[|s.out|..|s.out| + |b|] == b
    ensures Before(s, e)
  {
    var o := Put(s, b).out;
    assert e.out[..|s.out| + |b|] == o;
    assert e.out[|s.out|..|s.out| + |b|] == o[|s.out|..];
  }

  lemma HeaderTrip(s: Sink, h: seq<byte>, e: Sink)
    requires |h| == 4 && Before(Put(s, h), e)
    ensures |s.out| + 4 <= |e.out| && Before(s, e)
    ensures e.out[|s.out|] == h[0] && e.out[|s.out| + 1] == h[1]
    ensures e.out[|s.out| + 2] == h[2] && e.out[|s.out| + 3] == h[3]
  {
    var o := Put(s, h).out;
    assert o[|s.out|] == h[0] && o[|s.out| + 1] == h[1] && o[|s.out| + 2] == h[2] && o[|s.out| + 3] == h[3];
  }

  lemma U32Trip(x: u32, s: Sink, e: Sink)
    requires Before(Put(s, BigEndian(x, 4)), e)
    ensures Before(s, e)
    ensures ReadU32(e.out, |s.out|) == Good(x, |s.out| + 4)
  {
    hide Before;
    SliceTrip(s, BigEndian(x, 4), e);
    Widths();
    BigEndianInverts(x, 4);
  }

  lemma IntegerTrip(x: int32, s: Sink, e: Sink)
    requires Before(EmitInteger(x, s), e)
    ensures Before(s, e)
    ensures ReadInt32(e.out, |s.out|) == Good(x, |s.out| + 4)
  {
    hide Before;
    U32Trip(ToU32(x), s, e);
  }

  /** Every length below 2^64 comes back, on both sides of the switch to the long form. */
  lemma LengthTrip(n: nat, s: Sink, e: Sink)
    requires EmitLength(n, s).Some? && Before(EmitLength(n, s).value, e)
    ensures Before(s, e)
    ensures ReadLength(e.out, |s.out|) == Good(n, |EmitLength(n, s).value.out|)
  {
    hide Before;
    if n <= INT32_MAX {
      IntegerTrip(n, s, e);
    } else {
      var s1 := EmitInteger(-1, s);
      var s2 := Put(s1, BigEndian(n / 0x1_0000_0000, 4));
      U32Trip(n % 0x1_0000_0000, s2, e);
      U32Trip(n / 0x1_0000_0000, s1, e);
      IntegerTrip(-1, s, e);
    }
  }

  /** A string comes back with its encoding, unless it is missing. */
  lemma StringTrip(x: RString, s: Sink, e: Sink)
    requires EmitString(x, s).Some? && Before(EmitString(x, s).value, e)
    ensures Before(s, e)
    ensures ReadString(e.out, |s.out|) == Good(NormalString(x), |EmitString(x, s).value.out|)
  {
    hide Before;
    var h := CharHeader(x.encoding);
    var s1 := Put(s, h);
    if x.value.Some? {
      var text := x.value.value;
      var s2 := EmitInteger(|text|, s1);
      SliceTrip(s2, text, e);
      IntegerTrip(|text|, s1, e);
    } else {
      IntegerTrip(-1, s1, e);
    }
    HeaderTrip(s, h, e);
    assert ReadEncoding(h[1], h[2]) == x.encoding;
  }

  lemma {:induction false} StringsTrip(xs: seq<RString>, s: Sink, e: Sink)
    requires EmitStrings(xs, s).Some? && Before(EmitStrings(xs, s).value, e)
    ensures Before(s, e)
    ensures |s.out| <= |e.out|
    ensures ReadStrings(|xs|, e.out, |s.out|) == Good(NormalStrings(xs), |EmitStrings(xs, s).value.out|)
  {
    if xs != [] {
      var t := EmitString(xs[0], s).value;
      StringsTrip(xs[1..], t, e);
      StringTrip(xs[0], s, e);
    }
  }

  lemma {:induction false} WordsTrip(ws: seq<nat>, w: nat, s: Sink, e: Sink)
    requires w > 0 && WordsFit(ws, w)
    requires Before(EmitWords(ws, w, s), e)
    ensures Before(s, e)
    ensures |s.out| <= |e.out|
    ensures ReadWords(|ws|, w, e.out, |s.out|) == Good(ws, |EmitWords(ws, w, s).out|)
  {
    hide BigEndian, FromBigEndian, Pow256;
    if ws != [] {
      var t := Put(s, BigEndian(ws[0], w));
      WordsTrip(ws[1..], w, t, e);
      SliceTrip(s, BigEndian(ws[0], w), e);
      BigEndianInverts(ws[0], w);
      assert ws == [ws[0]] + ws[1..];
    }
  }

  /** Atomic contents of every kind come back bit for bit. */
  lemma AtomsTrip(d: Atoms, flags: byte, s: Sink, e: Sink)
    requires EmitAtoms(d, flags, s).Some? && Before(EmitAtoms(d, flags, s).value, e)
    ensures Before(s, e)
    ensures |s.out| + 4 <= |e.out| && e.out[|s.out| + 3] == AtomCode(d) && e.out[|s.out| + 2] == flags
    ensures IsAtomCode(AtomCode(d))
    ensures ReadAtoms(AtomCode(d), e.out, |s.out| + 4) == Good(d, |EmitAtoms(d, flags, s).value.out|)
  {
    hide Before, EmitLength, ReadLength, Words, FromWords, WordsFit, EmitWords, ReadWords, AtomCode, AtomCount,
      IsAtomCode, WordWidth, WordsPerAtom;
    var h := EmitHeader(AtomCode(d), flags, s);
    var t := EmitLength(AtomCount(d), h).value;
    WordsInvert(d);
    WordsTrip(Words(d), WordWidth(AtomCode(d)), t, e);
    LengthTrip(AtomCount(d), h, e);
    HeaderTrip(s, [0, 0, flags, AtomCode(d)], e);
  }

  lemma StringDataTrip(xs: seq<RString>, flags: byte, s: Sink, e: Sink)
    requires EmitStringData(xs, flags, s).Some? && Before(EmitStringData(xs, flags, s).value, e)
    ensures Before(s, e)
    ensures |s.out| + 4 <= |e.out| && e.out[|s.out| + 3] == STR && e.out[|s.out| + 2] == flags
    ensures ReadStringData(e.out, |s.out| + 4) == Good(NormalStrings(xs), |EmitStringData(xs, flags, s).value.out|)
  {
    hide Before, EmitLength, ReadLength;
    var h := EmitHeader(STR, flags, s);
    var t := EmitLength(|xs|, h).value;
    StringsTrip(xs, t, e);
    LengthTrip(|xs|, h, e);
    HeaderTrip(s, [0, 0, flags, STR], e);
  }

  lemma BuiltInTrip(name: Text, s: Sink, e: Sink)
    requires EmitBuiltIn(name, s).Some? && Before(EmitBuiltIn(name, s).value, e)
    ensures Before(s, e)
    ensures |s.out| + 4 <= |e.out| && e.out[|s.out| + 3] == BUILTIN
    ensures ReadBuiltIn(e.out, |s.out| + 4) == Good(name, |EmitBuiltIn(name, s).value.out|)
  {
    hide Before, EmitLength, ReadLength;
    var h := EmitHeader(BUILTIN, 0, s);
    var t := EmitLength(|name|, h).value;
    SliceTrip(t, name, e);
    LengthTrip(|name|, h, e);
    HeaderTrip(s, [0, 0, 0, BUILTIN], e);
  }
}
