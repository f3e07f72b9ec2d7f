/** The format of the smallest items, in plain numbers: what their bytes mean, whoever wrote them, and which bytes
    the library writes (section 1.8 of R Internals and sections 4.1, 4.2 and 4.7 of RFC 4506). */
module ItemFormat {
  import opened Bytes
  import opened Objects
  import opened WriterSpec
  import opened ParserSpec
  import opened ItemRoundTrip

  // Numbers, most significant byte first.

  function Num32(T: seq<byte>, p: nat): nat
    requires p + 4 <= |T|
  {
    var b0: nat, b1: nat, b2: nat := T[p], T[p + 1], T[p + 2];
    b0 * 0x100_0000 + b1 * 0x1_0000 + b2 * 0x100 + T[p + 3]
  }

  function Signed32(T: seq<byte>, p: nat): int
    requires p + 4 <= |T|
  {
    if T[p] < 0x80 then Num32(T, p) else Num32(T, p) - 0x1_0000_0000
  }

  lemma SignOf(T: seq<byte>, p: nat)
    requires p + 4 <= |T|
    ensures Num32(T, p) < 0x1_0000_0000 && FromU32(Num32(T, p)) == Signed32(T, p)
  {
  }

  function Num64(T: seq<byte>, p: nat): nat
    requires p + 8 <= |T|
  {
    Num32(T, p) * 0x1_0000_0000 + Num32(T, p + 4)
  }

  lemma FourBytes(T: seq<byte>, p: nat)
    requires p + 4 <= |T|
    ensures FromBigEndian(T[p..p + 4]) == Num32(T, p)
  {
    var s := T[p..p + 4];
    assert s[..3][..2][..1][..0] == [] && s[..3][..2][..1] == s[..1] && s[..3][..2] == s[..2];
    var b0: nat, b1: nat := s[0], s[1];
    assert FromBigEndian(s[..1]) == b0;
    assert FromBigEndian(s[..2]) == 256 * b0 + b1;
    assert FromBigEndian(s[..3]) == 256 * (256 * b0 + b1) + s[2];
  }

  lemma OneByte(T: seq<byte>, p: nat)
    requires p < |T|
    ensures FromBigEndian(T[p..p + 1]) == T[p]
  {
    assert T[p..p + 1] == [T[p]] && [T[p]][..0] == [];
  }

  lemma OneMore(s: seq<byte>)
    requires s != []
    ensures FromBigEndian(s) == 256 * FromBigEndian(s[..|s| - 1]) + s[|s| - 1]
  {
  }

  lemma {:induction false} BytesApart(x: seq<byte>, y: seq<byte>)
    ensures FromBigEndian(x + y) == FromBigEndian(x) * Pow256(|y|) + FromBigEndian(y)
  {
    if y == [] {
      assert x + y == x;
    } else {
      var n := |y| - 1;
      BytesApart(x, y[..n]);
      assert (x + y)[..|x| + n] == x + y[..n];
      OneMore(x + y);
      OneMore(y);
      hide FromBigEndian;
      Scaled(FromBigEndian(x), Pow256(n));
    }
  }

  lemma Scaled(a: nat, b: nat)
    ensures 256 * (a * b) == a * (256 * b)
  {
  }

  lemma EightBytes(T: seq<byte>, p: nat)
    requires p + 8 <= |T|
    ensures FromBigEndian(T[p..p + 8]) == Num64(T, p)
  {
    hide FromBigEndian, Pow256, Num32;
    assert T[p..p + 8] == T[p..p + 4] + T[p + 4..p + 8];
    BytesApart(T[p..p + 4], T[p + 4..p + 8]);
    FourBytes(T, p);
    FourBytes(T, p + 4);
    Widths();
  }

  lemma IntegerMeans(T: seq<byte>, p: nat)
    ensures ReadU32(T, p) == if |T| < p + 4 then Bad else Good(Num32(T, p), p + 4)
    ensures ReadInt32(T, p) == if |T| < p + 4 then Bad else Good(Signed32(T, p), p + 4)
  {
    hide FromBigEndian;
    if p + 4 <= |T| { FourBytes(T, p); }
  }

  const ONES: seq<byte> := [0xFF, 0xFF, 0xFF, 0xFF]

  lemma AllOnes(T: seq<byte>, p: nat)
    requires p + 4 <= |T|
    ensures Signed32(T, p) == -1 <==> T[p..p + 4] == ONES
    ensures Signed32(T, p) < 0 <==> T[p] >= 0x80
  {
    var s := T[p..p + 4];
    assert s == [T[p], T[p + 1], T[p + 2], T[p + 3]];
  }

  // Lengths.

  /** A length is a number below 2^31, or 32 ones and a number of 64 bits; anything else is refused. */
  lemma LengthMeans(T: seq<byte>, p: nat)
    ensures ReadLength(T, p)
         == if |T| < p + 4 then Bad
            else if T[p] < 0x80 then Good(Num32(T, p), p + 4)
            else if T[p..p + 4] == ONES && p + 12 <= |T| then Good(Num64(T, p + 4), p + 12)
            else Bad
  {
    hide ReadU32, Num32;
    IntegerMeans(T, p);
    if p + 4 <= |T| {
      AllOnes(T, p);
      IntegerMeans(T, p + 4);
      IntegerMeans(T, p + 8);
    }
  }

  /** The short form is written whenever it can be. */
  lemma LengthWritten(n: nat, s: Sink)
    requires EmitLength(n, s).Some?
    ensures var T, p := EmitLength(n, s).value.out, |s.out|;
            if n < 0x8000_0000 then |T| == p + 4 && T[p] < 0x80 && Num32(T, p) == n
            else |T| == p + 12 && T[p..p + 4] == ONES && Num64(T, p + 4) == n
  {
    hide BigEndian;
    var t := EmitLength(n, s).value;
    LengthTrip(n, s, t);
    LengthMeans(t.out, |s.out|);
  }

  // Strings.

  predicate Bit(b: byte, mask: nat)
    requires mask > 0
  {
    b / mask % 2 == 1
  }

  /** What the bits in the second and third byte of a string's header say about its encoding: UTF-8 is also
      what it is taken for when nothing is said. */
  predicate MarkedAs(b1: byte, b2: byte, e: Encoding)
  {
    && (e == None_ <==> Bit(b2, 0x20))
    && (e == Latin1 <==> !Bit(b2, 0x20) && Bit(b2, 0x40))
    && (e == Utf8 <==> !Bit(b2, 0x20) && !Bit(b2, 0x40) && (Bit(b2, 0x80) || !Bit(b1, 0x04)))
    && (e == Ascii <==> !Bit(b2, 0x20) && !Bit(b2, 0x40) && !Bit(b2, 0x80) && Bit(b1, 0x04))
  }

  /** There is a string at `p`: its header and length, and as many bytes unless it is missing. */
  predicate HasString(T: seq<byte>, p: nat)
  {
    p + 8 <= |T| && T[p + 3] == 9
    && (T[p + 4..p + 8] == ONES || (T[p + 4] < 0x80 && p + 8 + Num32(T, p + 4) <= |T|))
  }

  /** It ends at `q` and is `x`. */
  predicate StringIs(T: seq<byte>, p: nat, x: RString, q: nat)
    requires HasString(T, p)
  {
    if T[p + 4] >= 0x80 then x == RString(None, Utf8) && q == p + 8
    else
      var end := p + 8 + Num32(T, p + 4);
      q == end && x.value == Some(T[p + 8..end]) && MarkedAs(T[p + 1], T[p + 2], x.encoding)
  }

  lemma StringMeans(T: seq<byte>, p: nat)
    ensures ReadString(T, p).Good? <==> HasString(T, p)
    ensures ReadString(T, p).Good? ==> StringIs(T, p, ReadString(T, p).value, ReadString(T, p).pos)
  {
    hide ReadU32, Num32;
    if p + 8 <= |T| {
      IntegerMeans(T, p + 4);
      AllOnes(T, p + 4);
    }
  }

  /** A string that has been read, from whatever header, is kept by writing and reading it. */
  lemma StringIsKept(T: seq<byte>, p: nat, s: Sink)
    requires ReadString(T, p).Good?
    ensures var x := ReadString(T, p).value; var t := EmitString(x, s);
            t.Some? && ReadString(t.value.out, |s.out|) == Good(x, |t.value.out|)
  {
    hide ReadString, EmitString;
    StringMeans(T, p);
    var x := ReadString(T, p).value;
    Writable(x, s);
    StringTrip(x, s, EmitString(x, s).value);
  }

  lemma Writable(x: RString, s: Sink)
    requires IsShort(x)
    ensures EmitString(x, s).Some?
  {
  }

  function StringHeader(e: Encoding): seq<byte>
  {
    match e
    case None_ => [0, 0, 0x20, 9]
    case Latin1 => [0, 0, 0x40, 9]
    case Utf8 => [0, 0, 0x80, 9]
    case Ascii => [0, 4, 0, 9]
  }

  /** What is written of a string, also of a missing one. */
  lemma StringWritten(x: RString, s: Sink)
    requires EmitString(x, s).Some?
    ensures var T, p := EmitString(x, s).value.out, |s.out|;
            && p + 8 <= |T| && T[p..p + 4] == StringHeader(x.encoding)
            && Signed32(T, p + 4) == (if x.value.None? then -1 else |x.value.value|)
            && T[p + 8..] == (if x.value.None? then [] else x.value.value)
  {
    hide BigEndian, Num32;
    var T, p := EmitString(x, s).value.out, |s.out|;
    var h := Put(s, CharHeader(x.encoding));
    var n: int := if x.value.None? then -1 else |x.value.value|;
    var u := EmitInteger(n, h);
    IntegerTrip(n, h, EmitString(x, s).value);
    IntegerMeans(T, p + 4);
    assert T[p..p + 4] == h.out[p..p + 4] == CharHeader(x.encoding);
    assert T == if x.value.None? then u.out else u.out + x.value.value;
  }

  // Contents of atomic vectors.

  lemma {:induction false} WordsEnd(n: nat, w: nat, T: seq<byte>, p: nat)
    requires p <= |T| && w > 0 && ReadWords(n, w, T, p).Good?
    ensures ReadWords(n, w, T, p).pos == p + n * w
    decreases n
  {
    hide FromBigEndian;
    if n > 0 {
      WordsEnd(n - 1, w, T, p + w);
      assert (n - 1) * w + w == n * w;
    }
  }

  lemma {:induction false} WordAt(n: nat, w: nat, T: seq<byte>, p: nat, i: nat)
    requires p <= |T| && w > 0 && ReadWords(n, w, T, p).Good? && i < n
    ensures p + i * w + w <= p + n * w <= |T|
    ensures ReadWords(n, w, T, p).value[i] == FromBigEndian(T[p + i * w..p + i * w + w])
    decreases n
  {
    hide FromBigEndian;
    WordsEnd(n, w, T, p);
    assert (n - 1) * w + w == n * w;
    if i > 0 {
      WordAt(n - 1, w, T, p + w, i - 1);
      assert (i - 1) * w + w == i * w;
    } else {
      WordsEnd(n - 1, w, T, p + w);
    }
  }

  /** Where elements of 4, 8, 16 or 1 bytes end that start at `p`. */
  function AtomsEnd(d: Atoms, p: nat): nat
  {
    match d
    case Integers(v) => p + 4 * |v|
    case Logicals(v) => p + 4 * |v|
    case Doubles(v) => p + 8 * |v|
    case Complexes(v) => p + 16 * |v|
    case Raws(v) => p + |v|
  }

  /** They stand there one after the other; a complex number has its real part first. */
  predicate AtomsAre(d: Atoms, T: seq<byte>, p: nat)
  {
    AtomsEnd(d, p) <= |T| &&
    match d
    case Integers(v) => forall i :: 0 <= i < |v| ==> v[i] == Signed32(T, p + 4 * i)
    case Logicals(v) => forall i :: 0 <= i < |v| ==> v[i] == Signed32(T, p + 4 * i)
    case Doubles(v) => forall i :: 0 <= i < |v| ==> v[i] == Num64(T, p + 8 * i)
    case Complexes(v) =>
      forall i :: 0 <= i < |v| ==> v[i].0 == Num64(T, p + 16 * i) && v[i].1 == Num64(T, p + 16 * i + 8)
    case Raws(v) => v == T[p..p + |v|]
  }

  /** The kind of elements that each type code announces. */
  predicate IsKind(code: byte, d: Atoms)
  {
    match code
    case 10 => d.Logicals?
    case 13 => d.Integers?
    case 14 => d.Doubles?
    case 15 => d.Complexes?
    case 24 => d.Raws?
    case _ => false
  }

  lemma FourByteWords(n: nat, T: seq<byte>, p: nat)
    requires p <= |T| && ReadWords(n, 4, T, p).Good?
    ensures p + 4 * n <= |T|
    ensures forall i :: 0 <= i < n ==> ReadWords(n, 4, T, p).value[i] < 0x1_0000_0000
    ensures forall i :: 0 <= i < n ==> FromU32(ReadWords(n, 4, T, p).value[i]) == Signed32(T, p + 4 * i)
  {
    hide ReadWords, FromBigEndian, Num32, Signed32, Pow256;
    Widths();
    WordsEnd(n, 4, T, p);
    forall i | 0 <= i < n ensures FromU32(ReadWords(n, 4, T, p).value[i]) == Signed32(T, p + 4 * i) {
      WordAt(n, 4, T, p, i);
      FourBytes(T, p + 4 * i);
      SignOf(T, p + 4 * i);
    }
  }

  lemma EightByteWords(n: nat, T: seq<byte>, p: nat)
    requires p <= |T| && ReadWords(n, 8, T, p).Good?
    ensures p + 8 * n <= |T|
    ensures forall i :: 0 <= i < n ==> ReadWords(n, 8, T, p).value[i] == Num64(T, p + 8 * i)
  {
    hide ReadWords, FromBigEndian, Num64;
    WordsEnd(n, 8, T, p);
    forall i | 0 <= i < n ensures ReadWords(n, 8, T, p).value[i] == Num64(T, p + 8 * i) {
      WordAt(n, 8, T, p, i);
      EightBytes(T, p + 8 * i);
    }
  }

  lemma ByteWords(n: nat, T: seq<byte>, p: nat)
    requires p <= |T| && ReadWords(n, 1, T, p).Good?
    ensures p + n <= |T|
    ensures forall i :: 0 <= i < n ==> ReadWords(n, 1, T, p).value[i] == T[p + i]
  {
    hide ReadWords, FromBigEndian;
    WordsEnd(n, 1, T, p);
    forall i | 0 <= i < n ensures ReadWords(n, 1, T, p).value[i] == T[p + i] {
      WordAt(n, 1, T, p, i);
      OneByte(T, p + i);
    }
  }

  lemma AtomsMean(code: byte, T: seq<byte>, p: nat)
    requires IsAtomCode(code) && ReadAtoms(code, T, p).Good?
    ensures var (d, q) := ReadAtoms(code, T, p).Extract(); var n := ReadLength(T, p);
            && IsKind(code, d) && n.Good? && AtomCount(d) == n.value
            && AtomsAre(d, T, n.pos) && q == AtomsEnd(d, n.pos)
  {
    hide ReadLength, ReadWords, FromBigEndian, Num32, Num64, Signed32, Pow256;
    var (n, q) := ReadLength(T, p).Extract();
    var m, w := n * WordsPerAtom(code), WordWidth(code);
    var ws := ReadWords(m, w, T, q).value;
    WordsEnd(m, w, T, q);
    if w == 4 {
      FourByteWords(m, T, q);
    } else if w == 8 {
      EightByteWords(m, T, q);
    } else {
      ByteWords(m, T, q);
      assert ReadAtoms(code, T, p).value.raws == T[q..q + n];
    }
  }

  function ElementWidth(code: byte): nat
  {
    match code
    case 10 => 4
    case 13 => 4
    case 14 => 8
    case 15 => 16
    case _ => 1
  }

  /** There is a length at `p` and as many elements behind it. */
  predicate HasAtoms(code: byte, T: seq<byte>, p: nat)
  {
    ReadLength(T, p).Good? && ReadLength(T, p).pos + ReadLength(T, p).value * ElementWidth(code) <= |T|
  }

  lemma {:induction false} WordsThere(n: nat, w: nat, T: seq<byte>, p: nat)
    requires p <= |T| && w > 0
    ensures ReadWords(n, w, T, p).Good? <==> p + n * w <= |T|
    decreases n
  {
    hide FromBigEndian;
    if n > 0 {
      assert (n - 1) * w + w == n * w && (n - 1) * w >= 0;
      if p + w <= |T| { WordsThere(n - 1, w, T, p + w); }
    }
  }

  lemma AtomsThere(code: byte, T: seq<byte>, p: nat)
    requires code in {10, 13, 14, 15, 24}
    ensures ReadAtoms(code, T, p).Good? <==> HasAtoms(code, T, p)
  {
    hide ReadLength, ReadWords;
    var l := ReadLength(T, p);
    if l.Good? { WordsThere(l.value * WordsPerAtom(code), WordWidth(code), T, l.pos); }
  }
}
