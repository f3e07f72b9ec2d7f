/** A family of files with a reference of any number. The list names `n` external pointers one after the
    other and then the last of them again. */
module ReferenceLimit {
  import opened Bytes
  import opened Objects
  import opened WriterSpec
  import opened ParserSpec
  import opened ItemRoundTrip

  const PLAIN_POINTER := ExternalPointer(Some(Null), Some(Null), [])
  const POINTER_BYTES: seq<byte> := [0, 0, 0, 22, 0, 0, 0, 254, 0, 0, 0, 254]

  function Element(n: nat, i: nat): RObject
    requires n > 0
  {
    ExternalPointerIndex(if i < n then i else n - 1)
  }

  function Elements(n: nat): (es: seq<RObject>)
    requires n > 0
  {
    seq(n + 1, i requires 0 <= i <= n => Element(n, i))
  }

  function Repeating(n: nat): File
    requires n > 0
  {
    File(GenericVector(Elements(n), []), [], [], seq(n, _ => PLAIN_POINTER))
  }

  // What is written.

  function Keys(i: nat): (log: seq<Key>)
    ensures |log| == i
  {
    seq(i, j requires 0 <= j < i => Ptr(j))
  }

  function Repeated(k: nat): seq<byte> { if k == 0 then [] else POINTER_BYTES + Repeated(k - 1) }

  lemma PointerWritten(n: nat, i: nat, s: Sink)
    requires i < n && s.log == Keys(i)
    ensures EmitObject(Element(n, i), Repeating(n), s) == Some(Sink(s.out + POINTER_BYTES, Keys(i + 1), s.top))
  {
    hide Extends, Unwritten, NoDuplicates;
    var f := Repeating(n);
    var s1 := EmitHeader(EXTPTR, 0, Register(f, s, Ptr(i)));
    assert EmitObject(Element(n, i), f, s) == EmitPointer(i, f, s);
    assert EmitPointer(i, f, s) == EmitNewPointer(i, f, s);
    assert f.pointers[i] == PLAIN_POINTER;
    assert EmitNewPointer(i, f, s) == EmitPointerBody(PLAIN_POINTER, f, s1);
    var s2 := EmitHeader(NILVALUE, 0, s1);
    assert EmitObject(Null, f, s1) == Some(s2);
    var s3 := EmitHeader(NILVALUE, 0, s2);
    assert EmitObject(Null, f, s2) == Some(s3);
    NothingLeft([], f, s3);
    assert s3.log == Keys(i + 1);
    assert s3.out == s.out + POINTER_BYTES;
  }

  lemma LastWritten(n: nat, s: Sink)
    requires n > 0 && s.log == Keys(n)
    ensures EmitObject(Element(n, n), Repeating(n), s) == Some(PutReference(n, s))
  {
    hide Extends, Unwritten, NoDuplicates, EmitNewPointer, PutReference, Position;
    assert s.log[n - 1] == Ptr(n - 1) && s.log[Position(s.log, Ptr(n - 1))] == Ptr(n - 1);
    assert EmitObject(Element(n, n), Repeating(n), s) == EmitPointer(n - 1, Repeating(n), s);
  }

  lemma RepeatedUnfold(k: nat)
    ensures Repeated(k) == if k == 0 then [] else POINTER_BYTES + Repeated(k - 1)
  {
  }

  lemma ReferencePut(n: nat, s: Sink)
    requires s.top <= n
    ensures PutReference(n, s) == Sink(s.out + ReferenceHeader(n), s.log, n)
  {
  }

  lemma ElementsTail(n: nat, i: nat)
    requires 0 < n && i <= n
    ensures var es := Elements(n)[i..];
            es != [] && es[0] == Element(n, i) && es[1..] == Elements(n)[i + 1..] && (i == n ==> es[1..] == [])
  {
  }

  lemma {:induction false} ElementsWritten(n: nat, i: nat, s: Sink)
    requires 0 < n && i <= n && s.log == Keys(i) && s.top == 0
    ensures EmitObjects(Elements(n)[i..], Repeating(n), s)
         == Some(Sink(s.out + Repeated(n - i) + ReferenceHeader(n), Keys(n), n))
    decreases n - i
  {
    hide EmitObject, Extends, Element, Elements, Keys, Repeating, PutReference, Repeated, ReferenceHeader, Unwritten;
    var f := Repeating(n);
    ElementsTail(n, i);
    RepeatedUnfold(n - i);
    if i == n {
      LastWritten(n, s);
      ReferencePut(n, s);
      NothingLeft([], f, PutReference(n, s));
      assert s.out + [] == s.out;
    } else {
      PointerWritten(n, i, s);
      ElementsWritten(n, i + 1, Sink(s.out + POINTER_BYTES, Keys(i + 1), 0));
      assert s.out + POINTER_BYTES + Repeated(n - (i + 1)) == s.out + Repeated(n - i);
    }
  }

  lemma FileWritten(n: nat)
    requires 0 < n < INT32_MAX
    ensures EmitFile(Repeating(n))
         == Some(Sink([0, 0, 0, VEC] + BigEndian(n + 1, 4) + Repeated(n) + ReferenceHeader(n), Keys(n), n))
  {
    hide Extends, EmitObjects, Element, ReferenceHeader, Repeated, BigEndian;
    var f, none := Repeating(n), FRESH;
    var h := Sink([0, 0, 0, VEC] + BigEndian(n + 1, 4), [], 0);
    assert EmitLength(n + 1, EmitHeader(VEC, 0, none)) == Some(h) by { assert [] + [0, 0, 0, VEC] == [0, 0, 0, VEC]; }
    ElementsWritten(n, 0, h);
    assert Elements(n)[0..] == Elements(n) && Keys(0) == [];
    var t := Sink(h.out + Repeated(n) + ReferenceHeader(n), Keys(n), n);
    NothingLeft([], f, t);
    assert EmitObject(f.object_, f, none) == EmitVector(VEC, Elements(n), [], f, none);
  }

  // What is read.

  /** As many pointers as mappings, in the same order. */
  predicate OnlyPointers(st: Tables)
  {
    |st.mappings| == |st.pointers| && forall j :: 0 <= j < |st.mappings| ==> st.mappings[j] == Mapping(PointerKind, j)
  }

  lemma PointerRead(T: seq<byte>, pos: nat, st: Tables)
    requires pos <= |T| && POINTER_BYTES <= T[pos..] && OnlyPointers(st)
    ensures var r := ParseObject(T, pos, st);
            r.Ok? && r.pos == pos + 12 && OnlyPointers(r.st) && |r.st.mappings| == |st.mappings| + 1
  {
    hide ParseObject, ParseS4, ParseAltrep, ParseCall, ParseAtomic, ParseStringVector, ParseVector;
    assert forall i :: 0 <= i < 12 ==> T[pos + i] == T[pos..][i] == POINTER_BYTES[i];
    assert T[pos + 3] == EXTPTR && T[pos + 2] == 0 && T[pos + 7] == NILVALUE && T[pos + 11] == NILVALUE;
    var s := AddPointer(st);
    NullRead(T, pos + 4, s);
    NullRead(T, pos + 8, s);
    assert pos + 12 <= |T|;
    assert ParseOptionalAttributes(0, T, pos + 12, s) == Ok([], pos + 12, s);
    assert ParsePointerBody(0, T, pos + 4, s) == Ok(PLAIN_POINTER, pos + 12, s);
    Dispatch(T, pos, st);
  }

  lemma NullRead(T: seq<byte>, pos: nat, st: Tables)
    requires pos + 4 <= |T| && T[pos + 3] == NILVALUE
    ensures ParseObject(T, pos, st) == Ok(Null, pos + 4, st)
  {
  }

  lemma {:induction false} ElementsRead(k: nat, number: nat, T: seq<byte>, pos: nat, st: Tables)
    requires pos <= |T| && Repeated(k) + ReferenceHeader(number) <= T[pos..] && OnlyPointers(st)
    requires number % REFERENCE_LIMIT <= |st.mappings| + k
    ensures var r := ParseObjects(k + 1, T, pos, st);
            if number % REFERENCE_LIMIT == 0 then r.Fail?
            else r.Ok? && r.value[k] == ExternalPointerIndex(number % REFERENCE_LIMIT - 1)
    decreases k
  {
    hide ParseObject, ReferenceHeader, ReferenceNumber;
    var rest := T[pos..];
    if k == 0 {
      assert Repeated(0) + ReferenceHeader(number) == ReferenceHeader(number);
      ReferenceRead(number, T, pos, st);
      if number % REFERENCE_LIMIT != 0 { assert ParseObjects(0, T, pos + 4, st) == Ok([], pos + 4, st); }
    } else {
      var tail := Repeated(k - 1) + ReferenceHeader(number);
      assert Repeated(k) + ReferenceHeader(number) == POINTER_BYTES + tail;
      assert POINTER_BYTES <= rest;
      PointerRead(T, pos, st);
      assert T[pos + 12..] == rest[12..];
      assert (POINTER_BYTES + tail)[12..] == tail;
      ElementsRead(k - 1, number, T, pos + 12, ParseObject(T, pos, st).st);
    }
  }

  lemma ReferenceRead(number: nat, T: seq<byte>, pos: nat, st: Tables)
    requires pos <= |T| && ReferenceHeader(number) <= T[pos..] && OnlyPointers(st)
    requires number % REFERENCE_LIMIT <= |st.mappings|
    ensures ParseObject(T, pos, st)
         == if number % REFERENCE_LIMIT == 0 then Fail
            else Ok(ExternalPointerIndex(number % REFERENCE_LIMIT - 1), pos + 4, st)
  {
    hide ParseObject;
    var h := ReferenceHeader(number);
    assert T[pos] == T[pos..][0] == h[0] && T[pos + 1] == T[pos..][1] == h[1];
    assert T[pos + 2] == T[pos..][2] == h[2] && T[pos + 3] == T[pos..][3] == h[3];
    ReferenceInverts(number);
    ReferenceIsObject(T, pos, st);
  }

  lemma PrefixAt(a: seq<byte>, b: seq<byte>, T: seq<byte>)
    requires a + b <= T
    ensures a <= T && b <= T[|a|..]
  {
    assert T[|a|..][..|b|] == T[|a|..|a| + |b|] == (a + b)[|a|..];
  }

  /** The reference at the end is read as number `n` modulo 2^24. If that is zero the file cannot be read at
      all; otherwise the last element is the pointer it should be only if `n` is below 2^24. */
  lemma RepeatingIsRead(n: nat)
    requires 0 < n < INT32_MAX
    ensures EmitFile(Repeating(n)).Some?
    ensures |EmitFile(Repeating(n)).value.log| == EmitFile(Repeating(n)).value.top == n
    ensures var r := ParseFile(EmitFile(Repeating(n)).value.out);
            if n % REFERENCE_LIMIT == 0 then r.Fail?
            else r.Ok? && r.value.GenericVector? && |r.value.elements| == n + 1
                 && r.value.elements[n] == ExternalPointerIndex(n % REFERENCE_LIMIT - 1)
  {
    hide EmitFile, BigEndian, ReferenceHeader, Repeated, ParseObjects, ReadLength, ParseObject, EmitInteger;
    var f, none := Repeating(n), FRESH;
    FileWritten(n);
    var T := EmitFile(f).value.out;
    var h := Put(none, [0, 0, 0, VEC]);
    var body := Repeated(n) + ReferenceHeader(n);
    var head := [0, 0, 0, VEC] + BigEndian(n + 1, 4);
    assert T == head + body;
    HeaderTrip(none, [0, 0, 0, VEC], Sink(T, Keys(n), n));
    PrefixAt(head, body, T);
    IntegerAt(n + 1, h, T);
    ElementsRead(n, n, T, 8, NO_TABLES);
    Dispatch(T, 0, NO_TABLES);
  }

  lemma IntegerAt(x: nat, h: Sink, T: seq<byte>)
    requires x <= INT32_MAX && h.out + BigEndian(x, 4) <= T && h.log == []
    ensures ReadLength(T, |h.out|) == Good(x, |h.out| + 4)
  {
    IntegerTrip(x, h, h.(out := T));
  }

  /** The first number that does not fit: the file is written and cannot be read. */
  lemma LateReferenceIsLost(n: nat)
    requires n == REFERENCE_LIMIT
    ensures EmitFile(Repeating(n)).Some? && ParseFile(EmitFile(Repeating(n)).value.out).Fail?
  {
    hide EmitFile, ParseFile, Repeating;
    RepeatingIsRead(n);
  }

  /** The next one: the file is read, but its last element is the first pointer instead of the last. */
  lemma LateReferenceIsMistaken(n: nat)
    requires n == REFERENCE_LIMIT + 1
    ensures Repeating(n).object_.elements[n] == ExternalPointerIndex(n - 1)
    ensures EmitFile(Repeating(n)).Some?
    ensures var r := ParseFile(EmitFile(Repeating(n)).value.out);
            r.Ok? && r.value.GenericVector? && |r.value.elements| == n + 1
            && r.value.elements[n] == ExternalPointerIndex(0)
  {
    hide EmitFile, ParseFile;
    RepeatingIsRead(n);
  }
}
