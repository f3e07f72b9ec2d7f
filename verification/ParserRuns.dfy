/** One run of the parser on arbitrary bytes, followed function by function. */
module ParserRuns {
  import opened Bytes
  import opened Objects
  import opened CompactSequences
  import opened ParserSpec
  import opened ParserSafety

  /** Two inputs: what `T` holds from `lo` up to `n` stands in `U` too, `d` places further on. `b` are the tables
      at the end of the run on `T`. */
  datatype Reading = Reading(T: seq<byte>, U: seq<byte>, lo: nat, n: nat, d: int, b: Tables) {
    ghost predicate Agree()
    {
      lo <= n <= |T| && 0 <= lo + d && n + d <= |U| && T[lo..n] == U[lo + d..n + d]
    }

    /** The run ended where the inputs still agree and where the tables are no larger than at the end. */
    ghost predicate Reaches<V>(r: Parse<V>) { r.Ok? && r.pos <= n && NotSmaller(b, r.st) }

    /** The same outcome, at the corresponding place of `U`. */
    function Moved<V>(r: Parse<V>): Parse<V>
      requires r.Ok? ==> 0 <= r.pos + d
    {
      if r.Fail? then Fail else Ok(r.value, r.pos + d, r.st)
    }

    function Shifted<V>(r: Read<V>): Read<V>
      requires r.Good? ==> 0 <= r.pos + d
    {
      if r.Bad? then Bad else Good(r.value, r.pos + d)
    }

    lemma SameByte(i: nat)
      requires Agree() && lo <= i < n
      ensures 0 <= i + d < |U| && T[i] == U[i + d]
    {
      assert T[lo..n][i - lo] == U[lo + d..n + d][i - lo];
    }

    lemma AgreeAnyway(b': Tables)
      requires Agree()
      ensures Reading(T, U, lo, n, d, b').Agree()
    {
    }

    lemma SameHeader(pos: nat)
      requires Agree() && lo <= pos && pos + 4 <= n
      ensures pos + 4 <= |T| && 0 <= pos + d && pos + d + 4 <= |U|
      ensures T[pos] == U[pos + d] && T[pos + 1] == U[pos + d + 1]
      ensures T[pos + 2] == U[pos + d + 2] && T[pos + 3] == U[pos + d + 3]
    {
      SameByte(pos);
      SameByte(pos + 1);
      SameByte(pos + 2);
      SameByte(pos + 3);
    }

    lemma SameSlice(i: nat, j: nat)
      requires Agree() && lo <= i <= j <= n
      ensures 0 <= i + d && j + d <= |U| && T[i..j] == U[i + d..j + d]
    {
      forall k | 0 <= k < j - i ensures T[i..j][k] == U[i + d..j + d][k] { SameByte(i + k); }
    }
  }

  // Items without references.

  lemma AgreeBounds(c: Reading)
    requires c.Agree()
    ensures c.n <= |c.T| && 0 <= c.lo + c.d && c.n + c.d <= |c.U|
  {
  }

  lemma U32Run(pos: nat, c: Reading)
    requires c.Agree() && c.lo <= pos && pos + 4 <= c.n
    ensures ReadU32(c.U, pos + c.d) == c.Shifted(ReadU32(c.T, pos))
  {
    c.SameSlice(pos, pos + 4);
  }

  lemma LengthRun(pos: nat, c: Reading)
    requires c.Agree() && c.lo <= pos && ReadLength(c.T, pos).Good? && ReadLength(c.T, pos).pos <= c.n
    ensures ReadLength(c.U, pos + c.d) == c.Shifted(ReadLength(c.T, pos))
  {
    hide Reading.Agree;
    U32Run(pos, c);
    if ReadInt32(c.T, pos).value == -1 {
      U32Run(pos + 4, c);
      U32Run(pos + 8, c);
    }
  }

  lemma StringRun(pos: nat, c: Reading)
    requires c.Agree() && c.lo <= pos && ReadString(c.T, pos).Good? && ReadString(c.T, pos).pos <= c.n
    ensures ReadString(c.U, pos + c.d) == c.Shifted(ReadString(c.T, pos))
  {
    hide Reading.Agree, ReadEncoding, ReadU32;
    var r := ReadString(c.T, pos);
    AgreeBounds(c);
    c.SameHeader(pos);
    U32Run(pos + 4, c);
    c.SameSlice(pos + 8, r.pos);
  }

  lemma {:induction false} StringsRun(n: nat, pos: nat, c: Reading)
    requires c.Agree() && c.lo <= pos <= |c.T| && pos + c.d <= |c.U|
    requires ReadStrings(n, c.T, pos).Good? && ReadStrings(n, c.T, pos).pos <= c.n
    ensures ReadStrings(n, c.U, pos + c.d) == c.Shifted(ReadStrings(n, c.T, pos))
    decreases n
  {
    hide Reading.Agree, ReadString;
    if n > 0 {
      var p := ReadString(c.T, pos).pos;
      StringRun(pos, c);
      StringsRun(n - 1, p, c);
    }
  }

  lemma {:induction false} WordsRun(n: nat, w: nat, pos: nat, c: Reading)
    requires w > 0 && c.Agree() && c.lo <= pos <= |c.T| && pos + c.d <= |c.U|
    requires ReadWords(n, w, c.T, pos).Good? && ReadWords(n, w, c.T, pos).pos <= c.n
    ensures ReadWords(n, w, c.U, pos + c.d) == c.Shifted(ReadWords(n, w, c.T, pos))
    decreases n
  {
    hide Reading.Agree, FromBigEndian, BigEndian, Pow256;
    if n > 0 {
      AgreeBounds(c);
      c.SameSlice(pos, pos + w);
      WordsRun(n - 1, w, pos + w, c);
    }
  }

  lemma AtomsRun(code: byte, pos: nat, c: Reading)
    requires IsAtomCode(code)
    requires c.Agree() && c.lo <= pos && ReadAtoms(code, c.T, pos).Good? && ReadAtoms(code, c.T, pos).pos <= c.n
    ensures ReadAtoms(code, c.U, pos + c.d) == c.Shifted(ReadAtoms(code, c.T, pos))
  {
    hide Reading.Agree, ReadLength, ReadWords, FromWords;
    var (n, p) := ReadLength(c.T, pos).Extract();
    LengthRun(pos, c);
    AgreeBounds(c);
    WordsRun(n * WordsPerAtom(code), WordWidth(code), p, c);
  }

  lemma StringDataRun(pos: nat, c: Reading)
    requires c.Agree() && c.lo <= pos && ReadStringData(c.T, pos).Good? && ReadStringData(c.T, pos).pos <= c.n
    ensures ReadStringData(c.U, pos + c.d) == c.Shifted(ReadStringData(c.T, pos))
    ensures NormalStrings(ReadStringData(c.T, pos).value) == ReadStringData(c.T, pos).value
    ensures AllShort(ReadStringData(c.T, pos).value)
  {
    hide Reading.Agree, ReadLength, ReadStrings;
    var (n, p) := ReadLength(c.T, pos).Extract();
    LengthRun(pos, c);
    AgreeBounds(c);
    StringsRun(n, p, c);
    StringsNormal(n, c.T, p);
  }

  lemma BuiltInRun(pos: nat, c: Reading)
    requires c.Agree() && c.lo <= pos && ReadBuiltIn(c.T, pos).Good? && ReadBuiltIn(c.T, pos).pos <= c.n
    ensures ReadBuiltIn(c.U, pos + c.d) == c.Shifted(ReadBuiltIn(c.T, pos))
  {
    hide Reading.Agree, ReadLength;
    var (n, p) := ReadLength(c.T, pos).Extract();
    AgreeBounds(c);
    LengthRun(pos, c);
    c.SameSlice(p, p + n);
  }

  lemma CompactRun(pos: nat, c: Reading)
    requires c.Agree() && c.lo <= pos && ReadCompact(c.T, pos).Good? && ReadCompact(c.T, pos).pos <= c.n
    ensures ReadCompact(c.U, pos + c.d) == c.Shifted(ReadCompact(c.T, pos))
  {
    hide ExpandDoubles, ReadAtoms;
    c.SameHeader(pos);
    var p := ReadAtoms(REAL, c.T, pos + 4).pos;
    c.SameHeader(p);
    AtomsRun(REAL, pos + 4, c);
  }

  // References and symbols.

  lemma LookupRun(pos: nat, st: Tables, c: Reading)
    requires c.Agree() && c.lo <= pos && pos + 4 <= c.n
    ensures pos + 4 <= |c.T| && pos + c.d + 4 <= |c.U|
    ensures Lookup(c.U, pos + c.d, st) == Lookup(c.T, pos, st)
  {
    c.SameHeader(pos);
  }

  lemma LookupClosed(pos: nat, st: Tables, T: seq<byte>, b: Tables)
    requires pos + 4 <= |T| && Lookup(T, pos, st).Some? && Consistent(st) && NotSmaller(b, st)
    ensures ClosedObject(Resolve(Lookup(T, pos, st).value), b)
  {
    var number := ReferenceNumber(T[pos], T[pos + 1], T[pos + 2]);
    MappingInside(st.mappings, number - 1, |st.symbols|, |st.environments|, |st.pointers|);
  }

  lemma SymbolBodyRun(pos: nat, st: Tables, c: Reading)
    requires c.Agree() && c.lo <= pos && c.Reaches(ParseSymbolBody(c.T, pos, st))
    ensures ParseSymbolBody(c.U, pos + c.d, st) == c.Moved(ParseSymbolBody(c.T, pos, st))
    ensures Grows(st, ParseSymbolBody(c.T, pos, st).st, c.b) && ParseSymbolBody(c.T, pos, st).value < |c.b.symbols|
  {
    hide Grows, ReadString;
    StringRun(pos, c);
    var x := ReadString(c.T, pos).value;
    AddSymbolGrows(st, Symbol(x.value.value, x.encoding), c.b);
  }

  lemma TagRun(pos: nat, st: Tables, c: Reading)
    requires c.Agree() && c.lo <= pos && c.Reaches(ParseTag(c.T, pos, st)) && Consistent(st)
    ensures ParseTag(c.U, pos + c.d, st) == c.Moved(ParseTag(c.T, pos, st))
    ensures Grows(st, ParseTag(c.T, pos, st).st, c.b) && ParseTag(c.T, pos, st).value < |c.b.symbols|
  {
    hide ParseSymbolBody, Lookup;
    c.SameHeader(pos);
    if c.T[pos + 3] == SYM {
      SymbolBodyRun(pos + 4, st, c);
    } else {
      LookupRun(pos, st, c);
      LookupClosed(pos, st, c.T, c.b);
    }
  }

  lemma OptionalTagRun(flags: byte, pos: nat, st: Tables, c: Reading)
    requires c.Agree() && c.lo <= pos <= |c.T| && pos + c.d <= |c.U|
    requires c.Reaches(ParseOptionalTag(flags, c.T, pos, st)) && Consistent(st)
    ensures ParseOptionalTag(flags, c.U, pos + c.d, st) == c.Moved(ParseOptionalTag(flags, c.T, pos, st))
    ensures Grows(st, ParseOptionalTag(flags, c.T, pos, st).st, c.b)
    ensures ClosedTag(ParseOptionalTag(flags, c.T, pos, st).value, c.b)
  {
    hide ParseTag;
    if HasTag(flags) { TagRun(pos, st, c); }
  }

  // Objects.

  lemma {:induction false} ObjectRun(pos: nat, st: Tables, c: Reading)
    requires c.Agree() && c.lo <= pos <= |c.T| && pos + c.d <= |c.U|
    requires c.Reaches(ParseObject(c.T, pos, st)) && Consistent(st)
    ensures ParseObject(c.U, pos + c.d, st) == c.Moved(ParseObject(c.T, pos, st))
    ensures Grows(st, ParseObject(c.T, pos, st).st, c.b) && ClosedObject(ParseObject(c.T, pos, st).value, c.b)
    decreases |c.T| - pos, 0
  {
    hide Reading.Agree, Consistent, Grows, ClosedObject, ClosedNodes, ClosedNamed, ClosedObjects, ParseBody;
    c.SameHeader(pos);
    BodyRun(c.T[pos + 3], c.T[pos + 2], pos + 4, st, c);
  }

  lemma {:induction false} BodyRun(code: byte, flags: byte, pos: nat, st: Tables, c: Reading)
    requires 4 <= pos && c.Agree() && c.lo <= pos - 4 && pos <= |c.T| && pos + c.d <= |c.U|
    requires c.Reaches(ParseBody(code, flags, c.T, pos, st)) && Consistent(st)
    ensures ParseBody(code, flags, c.U, pos + c.d, st) == c.Moved(ParseBody(code, flags, c.T, pos, st))
    ensures Grows(st, ParseBody(code, flags, c.T, pos, st).st, c.b)
    ensures ClosedObject(ParseBody(code, flags, c.T, pos, st).value, c.b)
    decreases |c.T| - pos, 5
  {
    hide Reading.Agree, Consistent, Grows, ClosedNodes, ClosedNamed, ClosedObjects, NormalStrings, ParsePairs,
      ParseSymbolBody, ParseS4, ParseAltrep, ParseEnvironment, ParsePointer, Lookup, ReadBuiltIn, ParseCall,
      ParseAtomic, ParseStringVector, ParseVector;
    c.SameHeader(pos - 4);
    if code == LIST {
      PairsRun(flags, pos, st, c);
    } else if code == SYM {
      SymbolBodyRun(pos, st, c);
    } else if code == S4 {
      S4Run(c.T[pos - 3], flags, pos, st, c);
    } else if code == ALTREP {
      AltrepRun(pos, st, c);
    } else if code == ENV {
      EnvironmentRun(pos, st, c);
    } else if code == EXTPTR {
      PointerRun(flags, pos, st, c);
    } else if code == REF {
      LookupRun(pos - 4, st, c);
      LookupClosed(pos - 4, st, c.T, c.b);
      GrowsSame(st, c.b);
    } else if code == BUILTIN {
      BuiltInRun(pos, c);
      GrowsSame(st, c.b);
    } else if code == LANG {
      CallRun(flags, pos, st, c);
    } else if IsAtomCode(code) {
      AtomicRun(code, flags, pos, st, c);
    } else if code == STR {
      StringVectorRun(flags, pos, st, c);
    } else if code == VEC || code == EXPR {
      VectorRun(code, flags, pos, st, c);
    } else {
      GrowsSame(st, c.b);
    }
  }

  lemma GrowsSame(st: Tables, b: Tables)
    ensures Grows(st, st, b)
  {
  }

  lemma {:induction false} CallRun(flags: byte, pos: nat, st: Tables, c: Reading)
    requires c.Agree() && c.lo <= pos <= |c.T| && pos + c.d <= |c.U|
    requires c.Reaches(ParseCall(flags, c.T, pos, st)) && Consistent(st)
    ensures ParseCall(flags, c.U, pos + c.d, st) == c.Moved(ParseCall(flags, c.T, pos, st))
    ensures Grows(st, ParseCall(flags, c.T, pos, st).st, c.b) && ClosedObject(ParseCall(flags, c.T, pos, st).value, c.b)
    decreases |c.T| - pos, 4
  {
    hide Reading.Agree, Consistent, Grows, ClosedNamed, ClosedObjects, ParsePairs;
    PairsRun(flags, pos, st, c);
    var ns := ParsePairs(flags, c.T, pos, st).value.nodes;
    assert ns[0] in ns && ClosedNode(ns[0], c.b);
    assert forall n :: n in ns[1..] ==> n in ns;
    assert ClosedObject(ns[0].value, c.b) && ClosedNodes(ns[1..], c.b);
  }

  lemma {:induction false} AtomicRun(code: byte, flags: byte, pos: nat, st: Tables, c: Reading)
    requires IsAtomCode(code)
    requires c.Agree() && c.lo <= pos && c.Reaches(ParseAtomic(code, flags, c.T, pos, st)) && Consistent(st)
    ensures ParseAtomic(code, flags, c.U, pos + c.d, st) == c.Moved(ParseAtomic(code, flags, c.T, pos, st))
    ensures Grows(st, ParseAtomic(code, flags, c.T, pos, st).st, c.b)
    ensures ClosedObject(ParseAtomic(code, flags, c.T, pos, st).value, c.b)
    decreases |c.T| - pos, 3
  {
    hide Reading.Agree, Consistent, Grows, ClosedNamed, ReadAtoms, ParseOptionalAttributes;
    AtomsRun(code, pos, c);
    OptionalAttributesRun(flags, ReadAtoms(code, c.T, pos).pos, st, c);
  }

  lemma {:induction false} StringVectorRun(flags: byte, pos: nat, st: Tables, c: Reading)
    requires c.Agree() && c.lo <= pos && c.Reaches(ParseStringVector(flags, c.T, pos, st)) && Consistent(st)
    ensures ParseStringVector(flags, c.U, pos + c.d, st) == c.Moved(ParseStringVector(flags, c.T, pos, st))
    ensures Grows(st, ParseStringVector(flags, c.T, pos, st).st, c.b)
    ensures ClosedObject(ParseStringVector(flags, c.T, pos, st).value, c.b)
    decreases |c.T| - pos, 3
  {
    hide Reading.Agree, Consistent, Grows, ClosedNamed, ReadStringData, ParseOptionalAttributes;
    StringDataRun(pos, c);
    OptionalAttributesRun(flags, ReadStringData(c.T, pos).pos, st, c);
  }

  lemma {:induction false} VectorRun(code: byte, flags: byte, pos: nat, st: Tables, c: Reading)
    requires c.Agree() && c.lo <= pos && c.Reaches(ParseVector(code, flags, c.T, pos, st)) && Consistent(st)
    ensures ParseVector(code, flags, c.U, pos + c.d, st) == c.Moved(ParseVector(code, flags, c.T, pos, st))
    ensures Grows(st, ParseVector(code, flags, c.T, pos, st).st, c.b)
    ensures ClosedObject(ParseVector(code, flags, c.T, pos, st).value, c.b)
    decreases |c.T| - pos, 3
  {
    hide Reading.Agree, Consistent, Grows, ClosedNamed, ClosedObjects, ParseList, ParseOptionalAttributes;
    var (es, p, s) := ParseList(c.T, pos, st).Extract();
    var (a, q, t) := ParseOptionalAttributes(flags, c.T, p, s).Extract();
    ListRun(pos, st, c);
    Onward(st, s, c.b);
    OptionalAttributesRun(flags, p, s, c);
    GrowsTransitive(st, s, t, c.b);
  }

  lemma Onward(s: Tables, t: Tables, b: Tables)
    requires Grows(s, t, b) && Consistent(s)
    ensures Consistent(t)
  {
  }

  lemma {:induction false} ListRun(pos: nat, st: Tables, c: Reading)
    requires c.Agree() && c.lo <= pos && c.Reaches(ParseList(c.T, pos, st)) && Consistent(st)
    ensures ParseList(c.U, pos + c.d, st) == c.Moved(ParseList(c.T, pos, st))
    ensures Grows(st, ParseList(c.T, pos, st).st, c.b) && ClosedObjects(ParseList(c.T, pos, st).value, c.b)
    decreases |c.T| - pos, 0
  {
    hide Reading.Agree, Consistent, Grows, ClosedObjects, ReadLength, ParseObjects;
    var (n, p) := ReadLength(c.T, pos).Extract();
    LengthRun(pos, c);
    ObjectsRun(n, p, st, c);
  }

  lemma {:induction false} ObjectsRun(n: nat, pos: nat, st: Tables, c: Reading)
    requires c.Agree() && c.lo <= pos <= |c.T| && pos + c.d <= |c.U|
    requires c.Reaches(ParseObjects(n, c.T, pos, st)) && Consistent(st)
    ensures ParseObjects(n, c.U, pos + c.d, st) == c.Moved(ParseObjects(n, c.T, pos, st))
    ensures Grows(st, ParseObjects(n, c.T, pos, st).st, c.b) && ClosedObjects(ParseObjects(n, c.T, pos, st).value, c.b)
    decreases |c.T| - pos, 1
  {
    hide Reading.Agree, Consistent, Grows, ClosedObject, ParseObject;
    if n == 0 {
      GrowsSame(st, c.b);
    } else {
      var (o, p, s) := ParseObject(c.T, pos, st).Extract();
      var (os, q, t) := ParseObjects(n - 1, c.T, p, s).Extract();
      ObjectRun(pos, st, c);
      Onward(st, s, c.b);
      ObjectsRun(n - 1, p, s, c);
      GrowsTransitive(st, s, t, c.b);
    }
  }

  lemma {:induction false} PairsRun(flags: byte, pos: nat, st: Tables, c: Reading)
    requires c.Agree() && c.lo <= pos <= |c.T| && pos + c.d <= |c.U|
    requires c.Reaches(ParsePairs(flags, c.T, pos, st)) && Consistent(st)
    ensures ParsePairs(flags, c.U, pos + c.d, st) == c.Moved(ParsePairs(flags, c.T, pos, st))
    ensures Grows(st, ParsePairs(flags, c.T, pos, st).st, c.b)
    ensures ClosedNodes(ParsePairs(flags, c.T, pos, st).value.nodes, c.b)
    ensures ClosedNamed(ParsePairs(flags, c.T, pos, st).value.attributes, c.b)
    decreases |c.T| - pos, 3
  {
    hide Reading.Agree, Consistent, Grows, ClosedNode, ClosedName, ParseNode, ParsePairs;
    PairsUnfold(flags, c.T, pos, st);
    AgreeBounds(c);
    PairsUnfold(flags, c.U, pos + c.d, st);
    var (first, p, s) := ParseNode(flags, c.T, pos, st).Extract();
    NodeRun(flags, pos, st, c);
    c.SameHeader(p);
    if c.T[p + 3] == LIST {
      var (rest, q, t) := ParsePairs(c.T[p + 2], c.T, p + 4, s).Extract();
      Onward(st, s, c.b);
      PairsRun(c.T[p + 2], p + 4, s, c);
      GrowsTransitive(st, s, t, c.b);
    }
  }

  lemma {:induction false} NodeRun(flags: byte, pos: nat, st: Tables, c: Reading)
    requires c.Agree() && c.lo <= pos <= |c.T| && pos + c.d <= |c.U|
    requires c.Reaches(ParseNode(flags, c.T, pos, st)) && Consistent(st)
    ensures ParseNode(flags, c.U, pos + c.d, st) == c.Moved(ParseNode(flags, c.T, pos, st))
    ensures Grows(st, ParseNode(flags, c.T, pos, st).st, c.b)
    ensures ClosedNodes(ParseNode(flags, c.T, pos, st).value.nodes, c.b)
    ensures ClosedNamed(ParseNode(flags, c.T, pos, st).value.attributes, c.b)
    decreases |c.T| - pos, 2
  {
    hide Reading.Agree, Consistent, Grows, ClosedObject, ClosedNamed, ParseOptionalAttributes, ParseOptionalTag,
      ParseObject;
    var (a, p1, s1) := ParseOptionalAttributes(flags, c.T, pos, st).Extract();
    var (tag, p2, s2) := ParseOptionalTag(flags, c.T, p1, s1).Extract();
    var (o, p3, s3) := ParseObject(c.T, p2, s2).Extract();
    OptionalAttributesRun(flags, pos, st, c);
    Onward(st, s1, c.b);
    OptionalTagRun(flags, p1, s1, c);
    Onward(s1, s2, c.b);
    ObjectRun(p2, s2, c);
    GrowsTransitive(st, s1, s2, c.b);
    GrowsTransitive(st, s2, s3, c.b);
  }

  lemma {:induction false} OptionalAttributesRun(flags: byte, pos: nat, st: Tables, c: Reading)
    requires c.Agree() && c.lo <= pos <= |c.T| && pos + c.d <= |c.U|
    requires c.Reaches(ParseOptionalAttributes(flags, c.T, pos, st)) && Consistent(st)
    ensures ParseOptionalAttributes(flags, c.U, pos + c.d, st) == c.Moved(ParseOptionalAttributes(flags, c.T, pos, st))
    ensures Grows(st, ParseOptionalAttributes(flags, c.T, pos, st).st, c.b)
    ensures ClosedNamed(ParseOptionalAttributes(flags, c.T, pos, st).value, c.b)
    decreases |c.T| - pos, 1
  {
    hide Reading.Agree, Consistent, Grows, ParseAttributes;
    if HasAttributes(flags) {
      c.SameHeader(pos);
      AttributesRun(c.T[pos + 2], pos + 4, st, c);
    } else {
      GrowsSame(st, c.b);
    }
  }

  lemma {:induction false} AttributesRun(flags: byte, pos: nat, st: Tables, c: Reading)
    requires c.Agree() && c.lo <= pos <= |c.T| && pos + c.d <= |c.U|
    requires c.Reaches(ParseAttributes(flags, c.T, pos, st)) && Consistent(st)
    ensures ParseAttributes(flags, c.U, pos + c.d, st) == c.Moved(ParseAttributes(flags, c.T, pos, st))
    ensures Grows(st, ParseAttributes(flags, c.T, pos, st).st, c.b)
    ensures ClosedNamed(ParseAttributes(flags, c.T, pos, st).value, c.b)
    decreases |c.T| - pos, 4
  {
    hide Reading.Agree, Consistent, Grows, ClosedNodes, ClosedNamed, ParsePairs, AsNamed;
    PairsRun(flags, pos, st, c);
    NamedClosed(ParsePairs(flags, c.T, pos, st).value.nodes, c.b);
  }

  lemma {:induction false} FinalAttributesRun(pos: nat, st: Tables, c: Reading)
    requires c.Agree() && c.lo <= pos && c.Reaches(ParseFinalAttributes(c.T, pos, st)) && Consistent(st)
    ensures ParseFinalAttributes(c.U, pos + c.d, st) == c.Moved(ParseFinalAttributes(c.T, pos, st))
    ensures Grows(st, ParseFinalAttributes(c.T, pos, st).st, c.b)
    ensures ClosedNamed(ParseFinalAttributes(c.T, pos, st).value, c.b)
    decreases |c.T| - pos, 0
  {
    hide Reading.Agree, Consistent, Grows, ParseAttributes;
    c.SameHeader(pos);
    if c.T[pos + 3] == LIST {
      AttributesRun(c.T[pos + 2], pos + 4, st, c);
    } else {
      GrowsSame(st, c.b);
    }
  }

  lemma {:induction false} S4Run(gp: byte, flags: byte, pos: nat, st: Tables, c: Reading)
    requires c.Agree() && c.lo <= pos && c.Reaches(ParseS4(gp, flags, c.T, pos, st)) && Consistent(st)
    ensures ParseS4(gp, flags, c.U, pos + c.d, st) == c.Moved(ParseS4(gp, flags, c.T, pos, st))
    ensures Grows(st, ParseS4(gp, flags, c.T, pos, st).st, c.b)
    ensures ClosedObject(ParseS4(gp, flags, c.T, pos, st).value, c.b)
    decreases |c.T| - pos, 0
  {
    hide Reading.Agree, Consistent, Grows, ClosedNodes, ClosedObject, ParsePairs, AsS4;
    c.SameHeader(pos);
    PairsRun(c.T[pos + 2], pos + 4, st, c);
    var (l, p, s) := ParsePairs(c.T[pos + 2], c.T, pos + 4, st).Extract();
    c.AgreeAnyway(s);
    PairsRun(c.T[pos + 2], pos + 4, st, Reading(c.T, c.U, c.lo, c.n, c.d, s));
    assert ClosedNamed([], c.b) && NoneIsClass([], c.b);
    S4Closed(l.nodes, None, [], s, c.b);
  }

  lemma {:induction false} PointerRun(flags: byte, pos: nat, st: Tables, c: Reading)
    requires c.Agree() && c.lo <= pos <= |c.T| && pos + c.d <= |c.U|
    requires c.Reaches(ParsePointer(flags, c.T, pos, st)) && Consistent(st)
    ensures ParsePointer(flags, c.U, pos + c.d, st) == c.Moved(ParsePointer(flags, c.T, pos, st))
    ensures Grows(st, ParsePointer(flags, c.T, pos, st).st, c.b)
    ensures ClosedObject(ParsePointer(flags, c.T, pos, st).value, c.b)
    decreases |c.T| - pos, 2
  {
    hide Reading.Agree, Consistent, Grows, ClosedPointer, ParsePointerBody;
    var (pointer, p, s) := ParsePointerBody(flags, c.T, pos, AddPointer(st)).Extract();
    AddPointerConsistent(st);
    PointerBodyRun(flags, pos, AddPointer(st), c);
    FillPointer(st, s, pointer, c.b);
  }

  lemma {:induction false} PointerBodyRun(flags: byte, pos: nat, st: Tables, c: Reading)
    requires c.Agree() && c.lo <= pos <= |c.T| && pos + c.d <= |c.U|
    requires c.Reaches(ParsePointerBody(flags, c.T, pos, st)) && Consistent(st)
    ensures ParsePointerBody(flags, c.U, pos + c.d, st) == c.Moved(ParsePointerBody(flags, c.T, pos, st))
    ensures Grows(st, ParsePointerBody(flags, c.T, pos, st).st, c.b)
    ensures ClosedPointer(ParsePointerBody(flags, c.T, pos, st).value, c.b)
    decreases |c.T| - pos, 1
  {
    hide Reading.Agree, Consistent, Grows, ClosedObject, ClosedNamed, ParseOptionalAttributes, ParseObject;
    var (protection, p1, s1) := ParseObject(c.T, pos, st).Extract();
    var (tag, p2, s2) := ParseObject(c.T, p1, s1).Extract();
    var (a, p3, s3) := ParseOptionalAttributes(flags, c.T, p2, s2).Extract();
    ObjectRun(pos, st, c);
    Onward(st, s1, c.b);
    ObjectRun(p1, s1, c);
    Onward(s1, s2, c.b);
    OptionalAttributesRun(flags, p2, s2, c);
    GrowsTransitive(st, s1, s2, c.b);
    GrowsTransitive(st, s2, s3, c.b);
  }

  lemma {:induction false} EnvironmentRun(pos: nat, st: Tables, c: Reading)
    requires c.Agree() && c.lo <= pos && c.Reaches(ParseEnvironment(c.T, pos, st)) && Consistent(st)
    ensures ParseEnvironment(c.U, pos + c.d, st) == c.Moved(ParseEnvironment(c.T, pos, st))
    ensures Grows(st, ParseEnvironment(c.T, pos, st).st, c.b)
    ensures ParseEnvironment(c.T, pos, st).value < |c.b.environments|
    decreases |c.T| - pos, 1
  {
    hide Reading.Agree, Consistent, Grows, ClosedEnvironment, ParseEnvironmentBody;
    var (environment, p, s) := ParseEnvironmentBody(c.T, pos, AddEnvironment(st)).Extract();
    AddEnvironmentConsistent(st);
    EnvironmentBodyRun(pos, AddEnvironment(st), c);
    FillEnvironment(st, s, environment, c.b);
  }

  lemma {:induction false} EnvironmentBodyRun(pos: nat, st: Tables, c: Reading)
    requires c.Agree() && c.lo <= pos && c.Reaches(ParseEnvironmentBody(c.T, pos, st)) && Consistent(st)
    ensures ParseEnvironmentBody(c.U, pos + c.d, st) == c.Moved(ParseEnvironmentBody(c.T, pos, st))
    ensures Grows(st, ParseEnvironmentBody(c.T, pos, st).st, c.b)
    ensures ClosedEnvironment(ParseEnvironmentBody(c.T, pos, st).value, c.b)
    decreases |c.T| - pos, 0
  {
    hide Reading.Agree, Consistent, Grows, ClosedNamed, ReadU32, ParseParent, ParseVariables, ParseFinalAttributes;
    var (parent, p2, s2) := ParseParent(c.T, pos + 4, st).Extract();
    var (body, p3, s3) := ParseVariables(c.T, p2, s2).Extract();
    var (a, p4, s4) := ParseFinalAttributes(c.T, p3, s3).Extract();
    U32Run(pos, c);
    ParentRun(pos + 4, st, c);
    Onward(st, s2, c.b);
    VariablesRun(p2, s2, c);
    Onward(s2, s3, c.b);
    FinalAttributesRun(p3, s3, c);
    GrowsTransitive(st, s2, s3, c.b);
    GrowsTransitive(st, s3, s4, c.b);
  }

  lemma {:induction false} ParentRun(pos: nat, st: Tables, c: Reading)
    requires c.Agree() && c.lo <= pos && c.Reaches(ParseParent(c.T, pos, st)) && Consistent(st)
    ensures ParseParent(c.U, pos + c.d, st) == c.Moved(ParseParent(c.T, pos, st))
    ensures Grows(st, ParseParent(c.T, pos, st).st, c.b) && ClosedRef(ParseParent(c.T, pos, st).value, c.b)
    decreases |c.T| - pos, 0
  {
    hide Reading.Agree, Consistent, Grows, Lookup, ParseEnvironment;
    c.SameHeader(pos);
    if c.T[pos + 3] == REF {
      LookupRun(pos, st, c);
      LookupClosed(pos, st, c.T, c.b);
      GrowsSame(st, c.b);
    } else if c.T[pos + 3] == ENV {
      EnvironmentRun(pos + 4, st, c);
    } else {
      GrowsSame(st, c.b);
    }
  }

  lemma {:induction false} VariablesRun(pos: nat, st: Tables, c: Reading)
    requires c.Agree() && c.lo <= pos && c.Reaches(ParseVariables(c.T, pos, st)) && Consistent(st)
    ensures ParseVariables(c.U, pos + c.d, st) == c.Moved(ParseVariables(c.T, pos, st))
    ensures Grows(st, ParseVariables(c.T, pos, st).st, c.b) && ClosedNamed(ParseVariables(c.T, pos, st).value.1, c.b)
    decreases |c.T| - pos, 0
  {
    hide Reading.Agree, Consistent, Grows, ClosedNamed, ClosedObjects, ParseAttributes, ParseList, AsVariables;
    c.SameHeader(pos);
    if c.T[pos + 3] == LIST {
      var (a, p, s) := ParseAttributes(c.T[pos + 2], c.T, pos + 4, st).Extract();
      AttributesRun(c.T[pos + 2], pos + 4, st, c);
      c.SameHeader(p);
    } else {
      var (buckets, p, s) := ParseList(c.T, pos + 8, st).Extract();
      c.SameHeader(pos + 4);
      ListRun(pos + 8, st, c);
      VariablesClosed(buckets, c.b);
    }
  }

  lemma {:induction false} AltrepRun(pos: nat, st: Tables, c: Reading)
    requires c.Agree() && c.lo <= pos && c.Reaches(ParseAltrep(c.T, pos, st)) && Consistent(st)
    ensures ParseAltrep(c.U, pos + c.d, st) == c.Moved(ParseAltrep(c.T, pos, st))
    ensures Grows(st, ParseAltrep(c.T, pos, st).st, c.b) && ClosedObject(ParseAltrep(c.T, pos, st).value, c.b)
    decreases |c.T| - pos, 0
  {
    hide Reading.Agree, Consistent, Grows, ClosedNodes, ParsePairs, ParseWrapper, ParseDeferred, ReadCompact;
    c.SameHeader(pos);
    var (l, p, s) := ParsePairs(c.T[pos + 2], c.T, pos + 4, st).Extract();
    PairsRun(c.T[pos + 2], pos + 4, st, c);
    Onward(st, s, c.b);
    var name := NameOf(l.nodes[0].value.symbol, s);
    if name == WRAP_INTEGER {
      WrapperRun(p, s, c);
      GrowsTransitive(st, s, ParseWrapper(c.T, p, s).st, c.b);
    } else if name == COMPACT_INTSEQ {
      CompactRun(p, c);
    } else {
      DeferredRun(p, s, c);
      GrowsTransitive(st, s, ParseDeferred(c.T, p, s).st, c.b);
    }
  }

  lemma {:induction false} StateRun(ignored: nat, pos: nat, st: Tables, c: Reading)
    requires c.Agree() && c.lo <= pos && c.Reaches(ParseState(ignored, c.T, pos, st)) && Consistent(st)
    ensures ParseState(ignored, c.U, pos + c.d, st) == c.Moved(ParseState(ignored, c.T, pos, st))
    ensures Grows(st, ParseState(ignored, c.T, pos, st).st, c.b)
    ensures ClosedObject(ParseState(ignored, c.T, pos, st).value, c.b)
    decreases |c.T| - pos, 0
  {
    hide Reading.Agree, Consistent, Grows, ClosedObject, ParseObject, ReadAtoms;
    c.SameHeader(pos);
    var (o, p, s) := ParseObject(c.T, pos + 4, st).Extract();
    ObjectRun(pos + 4, st, c);
    c.SameHeader(p);
    AtomsRun(INT, p + 4, c);
  }

  lemma {:induction false} WrapperRun(pos: nat, st: Tables, c: Reading)
    requires c.Agree() && c.lo <= pos && c.Reaches(ParseWrapper(c.T, pos, st)) && Consistent(st)
    ensures ParseWrapper(c.U, pos + c.d, st) == c.Moved(ParseWrapper(c.T, pos, st))
    ensures Grows(st, ParseWrapper(c.T, pos, st).st, c.b) && ClosedObject(ParseWrapper(c.T, pos, st).value, c.b)
    decreases |c.T| - pos, 1
  {
    hide Reading.Agree, Consistent, Grows, ClosedName, ParseState, ParseFinalAttributes;
    var (o, p, s) := ParseState(2, c.T, pos, st).Extract();
    var (a, q, t) := ParseFinalAttributes(c.T, p, s).Extract();
    StateRun(2, pos, st, c);
    Onward(st, s, c.b);
    FinalAttributesRun(p, s, c);
    GrowsTransitive(st, s, t, c.b);
  }

  lemma {:induction false} DeferredRun(pos: nat, st: Tables, c: Reading)
    requires c.Agree() && c.lo <= pos && c.Reaches(ParseDeferred(c.T, pos, st)) && Consistent(st)
    ensures ParseDeferred(c.U, pos + c.d, st) == c.Moved(ParseDeferred(c.T, pos, st))
    ensures Grows(st, ParseDeferred(c.T, pos, st).st, c.b) && ClosedObject(ParseDeferred(c.T, pos, st).value, c.b)
    decreases |c.T| - pos, 1
  {
    hide Reading.Agree, Consistent, Grows, ParseState, NormalStrings, AllShort;
    var (o, p, s) := ParseState(1, c.T, pos, st).Extract();
    StateRun(1, pos, st, c);
    c.SameHeader(p);
    NormalAll(AsStrings(o.atoms.ints));
    StringsShort(o.atoms.ints);
    assert ClosedNamed([], c.b);
  }

  // What this says about a run.

  /** What is read depends only on the consumed bytes and not on where they stand: found anywhere in any other
      input, they give the same object and the same tables. */
  lemma ParserIsPlaceless(T: seq<byte>, pos: nat, U: seq<byte>, q: nat, st: Tables)
    requires pos <= |T| && ParseObject(T, pos, st).Ok? && Consistent(st)
    requires var p := ParseObject(T, pos, st).pos; q + (p - pos) <= |U| && T[pos..p] == U[q..q + (p - pos)]
    ensures var (o, p, s) := ParseObject(T, pos, st).Extract(); ParseObject(U, q, st) == Ok(o, q + (p - pos), s)
  {
    hide ParseObject, Consistent, Grows, ClosedObject;
    var r := ParseObject(T, pos, st);
    ObjectRun(pos, st, Reading(T, U, pos, r.pos, q - pos, r.st));
  }

  /** The parser never looks at anything but what it consumes: any other input with the same bytes there gives
      the same object, the same position and the same tables. */
  lemma ParserIsLocal(T: seq<byte>, U: seq<byte>, pos: nat, st: Tables)
    requires pos <= |T| && ParseObject(T, pos, st).Ok? && Consistent(st)
    requires var p := ParseObject(T, pos, st).pos; p <= |U| && T[pos..p] == U[pos..p]
    ensures ParseObject(U, pos, st) == ParseObject(T, pos, st)
  {
    hide ParseObject, Consistent;
    ParserIsPlaceless(T, pos, U, pos, st);
  }

  /** No proper prefix of the bytes it consumes is enough. */
  lemma PrefixFails(T: seq<byte>, n: nat, pos: nat, st: Tables)
    requires pos <= |T| && ParseObject(T, pos, st).Ok? && Consistent(st)
    requires pos <= n < ParseObject(T, pos, st).pos
    ensures ParseObject(T[..n], pos, st) == Fail
  {
    var r := ParseObject(T[..n], pos, st);
    if r.Ok? {
      assert T[..n][pos..r.pos] == T[pos..r.pos];
      ParserIsLocal(T[..n], T, pos, st);
    }
  }

  /** Whatever the bytes: reading an object changes no slot that was there before, fills every slot it
      adds although references to it are handed out earlier, and returns only indices that exist. */
  lemma ParserIsSafe(T: seq<byte>, pos: nat, st: Tables)
    requires pos <= |T| && ParseObject(T, pos, st).Ok? && Consistent(st)
    ensures var r := ParseObject(T, pos, st);
            Grows(st, r.st, r.st) && ClosedObject(r.value, r.st) && Consistent(r.st)
  {
    var r := ParseObject(T, pos, st);
    ObjectRun(pos, st, Reading(T, T, 0, r.pos, 0, r.st));
    Onward(st, r.st, r.st);
  }

  /** Whatever the bytes: in a parsed file every index, also those inside table entries, is inside its
      table, no environment is a leftover default and no external pointer is unset. */
  lemma ParsedFileIsClosed(T: seq<byte>)
    requires ParseFile(T).Ok?
    ensures var (o, _, b) := ParseFile(T).Extract();
            && ClosedObject(o, b) && Consistent(b)
            && (forall i :: 0 <= i < |b.environments| ==>
                  b.environments[i].Some? && ClosedEnvironment(b.environments[i].value, b))
            && (forall i :: 0 <= i < |b.pointers| ==> ClosedPointer(b.pointers[i], b))
  {
    ParserIsSafe(T, 0, NO_TABLES);
  }
}
