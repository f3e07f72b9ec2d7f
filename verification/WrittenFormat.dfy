/** What the library writes in front of every object, in plain numbers: type code, flags and reference numbers
    (section 1.8 of R Internals). */
module WrittenFormat {
  import opened Bytes
  import opened Objects
  import opened WriterSpec
  import opened ItemRoundTrip
  import opened ItemFormat

  /** Some attribute is called "class". */
  predicate Classed(a: seq<Named>, f: File)
  {
    exists j :: 0 <= j < |a| && a[j].name < |f.symbols| && f.symbols[a[j].name].name == [0x63, 0x6C, 0x61, 0x73, 0x73]
  }

  /** The place in the log of an entity that has been written before. */
  function Known(o: RObject, f: File, s: Sink): (i: Option<nat>)
    ensures i.Some? ==> i.value < |s.log|
  {
    match o
    case SymbolIndex(i) =>
      if i < |f.symbols| && Sym(f.symbols[i]) in s.log then Some(Position(s.log, Sym(f.symbols[i]))) else None
    case EnvironmentIndex(Ordinary(i)) => if Env(i) in s.log then Some(Position(s.log, Env(i))) else None
    case ExternalPointerIndex(i) => if Ptr(i) in s.log then Some(Position(s.log, Ptr(i))) else None
    case _ => None
  }

  /** The type code of an object that is written in full. */
  function FullCode(o: RObject): nat
  {
    match o
    case Null => 254
    case SymbolIndex(_) => 1
    case EnvironmentIndex(GlobalEnv) => 253
    case EnvironmentIndex(BaseEnv) => 241
    case EnvironmentIndex(EmptyEnv) => 242
    case EnvironmentIndex(Ordinary(_)) => 4
    case ExternalPointerIndex(_) => 22
    case AtomicVector(Integers(_), _) => 13
    case AtomicVector(Logicals(_), _) => 10
    case AtomicVector(Doubles(_), _) => 14
    case AtomicVector(Complexes(_), _) => 15
    case AtomicVector(Raws(_), _) => 24
    case StringVector(_, _) => 16
    case GenericVector(_, _) => 19
    case ExpressionVector(_, _) => 20
    case PairList(ns, _) => if ns == [] then 254 else 2
    case S4Object(_, _, _) => 25
    case BuiltInFunction(_) => 8
    case LanguageObject(_, _, _) => 6
  }

  /** The attributes that an object's header speaks of, also when they are in a table. */
  function AttributesOf(o: RObject, f: File): seq<Named>
  {
    match o
    case AtomicVector(_, a) => a
    case StringVector(_, a) => a
    case GenericVector(_, a) => a
    case ExpressionVector(_, a) => a
    case LanguageObject(_, _, a) => a
    case EnvironmentIndex(Ordinary(i)) => if i < |f.environments| then f.environments[i].attributes else []
    case ExternalPointerIndex(i) => if i < |f.pointers| then f.pointers[i].attributes else []
    case _ => []
  }

  /** The four bytes of a header for an object that is written in full. The third one says whether there are
      attributes, whether one of them is a class and, in a pairlist, whether the first node has a tag. */
  predicate FullHeader(h: seq<byte>, o: RObject, f: File)
    requires |h| == 4
  {
    && h[3] == FullCode(o)
    && h[0] == 0 && h[1] == (if o.S4Object? then 1 else 0)
    && (if o.S4Object? then h[2] == 3
        else if o.PairList? && o.nodes != [] then
          && (Bit(h[2], 2) <==> o.attributes != []) && (Bit(h[2], 4) <==> o.nodes[0].tag.Some?)
          && h[2] % 2 == 0 && h[2] < 8
        else
          && (h[2] % 2 == 1 <==> Classed(AttributesOf(o, f), f))
          && (Bit(h[2], 2) <==> AttributesOf(o, f) != [])
          && h[2] < 4)
  }

  /** The four bytes of a back reference: the low 24 bits of a number and a code. */
  predicate ReferenceBytes(h: seq<byte>, number: nat)
    requires |h| == 4
  {
    var b0: nat, b1: nat, b2: nat := h[0], h[1], h[2];
    h[3] == 255 && b0 * 0x1_0000 + b1 * 0x100 + b2 == number % 0x100_0000
  }

  // The steps.

  lemma Slice(s: Sink, h: seq<byte>, t: Sink)
    requires |h| == 4 && Before(Put(s, h), t)
    ensures |s.out| + 4 <= |t.out| && t.out[|s.out|..|s.out| + 4] == h
  {
    assert Put(s, h).out[|s.out|..] == h;
    assert t.out[..|s.out| + 4] == Put(s, h).out;
  }

  lemma FlagsAre(a: seq<Named>, f: File)
    ensures AttributeFlags(a, f) % 2 == 1 <==> Classed(a, f)
    ensures Bit(AttributeFlags(a, f), 2) <==> a != []
    ensures AttributeFlags(a, f) < 4 && !Classed([], f)
  {
  }

  lemma AtomsOpen(d: Atoms, flags: byte, s: Sink)
    requires EmitAtoms(d, flags, s).Some?
    ensures Before(EmitHeader(AtomCode(d), flags, s), EmitAtoms(d, flags, s).value)
  {
    hide EmitLength, EmitWords, Before, AtomCode, Words;
    var h := EmitHeader(AtomCode(d), flags, s);
    BeforeTransitive(h, EmitLength(AtomCount(d), h).value, EmitAtoms(d, flags, s).value);
  }

  lemma StringDataOpen(xs: seq<RString>, flags: byte, s: Sink)
    requires EmitStringData(xs, flags, s).Some?
    ensures Before(EmitHeader(STR, flags, s), EmitStringData(xs, flags, s).value)
  {
    hide EmitLength, EmitStrings, Before;
    var h := EmitHeader(STR, flags, s);
    BeforeTransitive(h, EmitLength(|xs|, h).value, EmitStringData(xs, flags, s).value);
  }

  lemma BuiltInOpen(name: Text, s: Sink)
    requires EmitBuiltIn(name, s).Some?
    ensures Before(EmitHeader(BUILTIN, 0, s), EmitBuiltIn(name, s).value)
  {
    hide EmitLength, Before;
    var h := EmitHeader(BUILTIN, 0, s);
    BeforeTransitive(h, EmitLength(|name|, h).value, EmitBuiltIn(name, s).value);
  }

  lemma VectorOpen(code: byte, es: seq<RObject>, a: seq<Named>, f: File, s: Sink)
    requires EmitVector(code, es, a, f, s).Some?
    ensures Before(EmitHeader(code, AttributeFlags(a, f), s), EmitVector(code, es, a, f, s).value)
  {
    hide EmitLength, EmitObjects, EmitAttributes, Before, NotShorter, NoDuplicates, Unwritten, AttributeFlags;
    var h := EmitHeader(code, AttributeFlags(a, f), s);
    var t := EmitLength(|es|, h).value;
    var u := EmitObjects(es, f, t).value;
    BeforeTransitive(h, t, u);
    BeforeTransitive(h, u, EmitVector(code, es, a, f, s).value);
  }

  lemma CallOpen(i: nat, ns: seq<Node>, a: seq<Named>, f: File, s: Sink)
    requires EmitCall(i, ns, a, f, s).Some?
    ensures Before(EmitHeader(LANG, AttributeFlags(a, f), s), EmitCall(i, ns, a, f, s).value)
  {
    hide EmitNodes, EmitSymbolIndex, EmitAttributes, Before, NotShorter, NoDuplicates, Unwritten, AttributeFlags;
    var h := EmitHeader(LANG, AttributeFlags(a, f), s);
    var t := EmitAttributes(a, f, h).value;
    var u := EmitSymbolIndex(i, f, t).value;
    BeforeTransitive(h, t, u);
    BeforeTransitive(h, u, EmitCall(i, ns, a, f, s).value);
  }

  lemma NodesOpen(a: seq<Named>, ns: seq<Node>, f: File, s: Sink)
    requires ns != [] && EmitNodes(a, ns, f, s).Some?
    ensures Before(EmitHeader(LIST, NodeFlags(a, ns[0].tag), s), EmitNodes(a, ns, f, s).value)
  {
    hide EmitObject, EmitTag, EmitAttributes, Before, NotShorter, NoDuplicates, Unwritten, NodeFlags;
    var h := EmitHeader(LIST, NodeFlags(a, ns[0].tag), s);
    var t := EmitAttributes(a, f, h).value;
    var u := EmitTag(ns[0].tag, f, t).value;
    var v := EmitNode(a, ns[0], f, s).value;
    BeforeTransitive(h, t, u);
    BeforeTransitive(h, u, v);
    BeforeTransitive(h, v, EmitNodes(a, ns, f, s).value);
  }

  lemma S4Open(c: Symbol, p: Symbol, a: seq<Named>, f: File, s: Sink)
    requires EmitS4(c, p, a, f, s).Some?
    ensures Before(Put(s, [0, 1, 3, 25]), EmitS4(c, p, a, f, s).value)
  {
    hide EmitSymbol, EmitStringData, EmitPackage, EmitNodes, Before, NotShorter, NoDuplicates, Unwritten;
    var h := Put(s, [0, 1, 3, 25]);
    var h' := EmitHeader(LIST, 4, h);
    var t := EmitSymbol(CLASS_SYMBOL, f, h').value;
    var u := EmitStringData([Present(c)], 2, t).value;
    var v := EmitS4Head(c, p, f, s).value;
    BeforeTransitive(h, h', t);
    BeforeTransitive(h, t, u);
    BeforeTransitive(h, u, v);
    BeforeTransitive(h, v, EmitS4(c, p, a, f, s).value);
  }

  lemma EnvironmentOpen(i: nat, f: File, s: Sink)
    requires i < |f.environments| && Env(i) !in s.log && EmitNewEnvironment(i, f, s).Some?
    ensures var e, t := f.environments[i], EmitNewEnvironment(i, f, s).value;
            Before(EmitInteger(if e.locked then 1 else 0,
                               EmitHeader(ENV, AttributeFlags(e.attributes, f), Register(f, s, Env(i)))), t)
  {
    hide EmitEnvironment, EmitNodes, EmitInteger, Before, NotShorter, NoDuplicates, Unwritten, AttributeFlags;
    var e := f.environments[i];
    var h := EmitHeader(ENV, AttributeFlags(e.attributes, f), Register(f, s, Env(i)));
    var s0 := EmitInteger(if e.locked then 1 else 0, h);
    var s1 := EmitEnvironment(e.parent, f, s0).value;
    var s2 := EmitNodes([], AsNodes(e.variables), f, s1).value;
    var s3 := EmitHeader(NILVALUE, 0, s2);
    BeforeTransitive(s0, s1, s2);
    BeforeTransitive(s0, s2, s3);
    BeforeTransitive(s0, s3, EmitNewEnvironment(i, f, s).value);
  }

  lemma PointerOpen(i: nat, f: File, s: Sink)
    requires i < |f.pointers| && Ptr(i) !in s.log && EmitNewPointer(i, f, s).Some?
    ensures Before(EmitHeader(EXTPTR, AttributeFlags(f.pointers[i].attributes, f), Register(f, s, Ptr(i))),
                   EmitNewPointer(i, f, s).value)
  {
    hide EmitPointerBody, Before, NotShorter, NoDuplicates, Unwritten, AttributeFlags;
  }

  lemma ReferenceWritten(number: nat, s: Sink)
    ensures var T, p := PutReference(number, s).out, |s.out|;
            |T| == p + 4 && T[..p] == s.out && ReferenceBytes(T[p..p + 4], number)
  {
    hide ReferenceHeader;
    ReferenceInverts(number);
    ReferenceCode(number);
    assert PutReference(number, s).out[|s.out|..|s.out| + 4] == ReferenceHeader(number);
  }

  lemma ReferenceCode(number: nat)
    ensures ReferenceHeader(number)[3] == 255
  {
  }

  // Every object.

  /** The first four bytes of an object. */
  ghost predicate Opens(h: seq<byte>, s: Sink, t: Sink)
    requires |h| == 4
  {
    |s.out| + 4 <= |t.out| && t.out[|s.out|..|s.out| + 4] == h
  }

  lemma AtomicHeader(d: Atoms, a: seq<Named>, f: File, s: Sink, t: Sink)
    requires EmitObject(AtomicVector(d, a), f, s) == Some(t)
    ensures Opens([0, 0, AttributeFlags(a, f), AtomCode(d)], s, t)
  {
    hide EmitAtoms, EmitAttributes, AttributeFlags, AtomCode, Before, NotShorter, NoDuplicates, Unwritten;
    var flags := AttributeFlags(a, f);
    AtomsOpen(d, flags, s);
    BeforeTransitive(EmitHeader(AtomCode(d), flags, s), EmitAtoms(d, flags, s).value, t);
    Slice(s, [0, 0, flags, AtomCode(d)], t);
  }

  lemma StringVectorHeader(xs: seq<RString>, a: seq<Named>, f: File, s: Sink, t: Sink)
    requires EmitObject(StringVector(xs, a), f, s) == Some(t)
    ensures Opens([0, 0, AttributeFlags(a, f), STR], s, t)
  {
    hide EmitStringData, EmitAttributes, AttributeFlags, Before, NotShorter, NoDuplicates, Unwritten;
    var flags := AttributeFlags(a, f);
    StringDataOpen(xs, flags, s);
    BeforeTransitive(EmitHeader(STR, flags, s), EmitStringData(xs, flags, s).value, t);
    Slice(s, [0, 0, flags, STR], t);
  }

  lemma SymbolHeader(i: nat, f: File, s: Sink, t: Sink)
    requires EmitObject(SymbolIndex(i), f, s) == Some(t) && Known(SymbolIndex(i), f, s).None?
    ensures Opens([0, 0, 0, SYM], s, t)
  {
    hide EmitText, Before, NotShorter, NoDuplicates, Unwritten;
    var symbol := f.symbols[i];
    var u := EmitText(symbol.name, symbol.encoding, EmitHeader(SYM, 0, s)).value;
    BeforeTransitive(EmitHeader(SYM, 0, s), u, t);
    Slice(s, [0, 0, 0, SYM], t);
  }

  lemma EnvironmentHeader(i: nat, f: File, s: Sink, t: Sink)
    requires EmitObject(EnvironmentIndex(Ordinary(i)), f, s) == Some(t) && Env(i) !in s.log
    ensures i < |f.environments| && Opens([0, 0, AttributeFlags(f.environments[i].attributes, f), ENV], s, t)
    ensures |s.out| + 8 <= |t.out|
    ensures t.out[|s.out| + 4..|s.out| + 8] == [0, 0, 0, if f.environments[i].locked then 1 else 0]
  {
    hide EmitNewEnvironment, AttributeFlags, NotShorter, NoDuplicates, Unwritten;
    var e := f.environments[i];
    var h := EmitHeader(ENV, AttributeFlags(e.attributes, f), Register(f, s, Env(i)));
    EnvironmentOpen(i, f, s);
    Slice(Register(f, s, Env(i)), [0, 0, AttributeFlags(e.attributes, f), ENV], t);
    SmallInteger(if e.locked then 1 else 0);
    Slice(h, [0, 0, 0, if e.locked then 1 else 0], t);
  }

  lemma SmallInteger(x: byte)
    ensures BigEndian(x, 4) == [0, 0, 0, x]
  {
    assert BigEndian(0, 2) == [0, 0] && x / 256 == 0;
    assert BigEndian(0, 3) == [0, 0, 0];
  }

  lemma PointerHeader(i: nat, f: File, s: Sink, t: Sink)
    requires EmitObject(ExternalPointerIndex(i), f, s) == Some(t) && Ptr(i) !in s.log
    ensures i < |f.pointers| && Opens([0, 0, AttributeFlags(f.pointers[i].attributes, f), EXTPTR], s, t)
  {
    hide EmitNewPointer, AttributeFlags, NotShorter, NoDuplicates, Unwritten;
    PointerOpen(i, f, s);
    Slice(Register(f, s, Ptr(i)), [0, 0, AttributeFlags(f.pointers[i].attributes, f), EXTPTR], t);
  }

  /** What is written of an object that is not a reference starts with its header. */
  lemma HeaderInFull(o: RObject, f: File, s: Sink, t: Sink)
    requires EmitObject(o, f, s) == Some(t) && Known(o, f, s).None?
    ensures |s.out| + 4 <= |t.out| && FullHeader(t.out[|s.out|..|s.out| + 4], o, f)
  {
    hide Before, NotShorter, NoDuplicates, Unwritten, EmitAtoms, EmitStringData, EmitBuiltIn, EmitVector, EmitCall,
      EmitNodes, EmitS4, EmitNewEnvironment, EmitNewPointer, EmitAttributes, EmitSymbolIndex, AttributeFlags, Classed;
    FlagsAre(AttributesOf(o, f), f);
    match o
    case Null => Slice(s, [0, 0, 0, 254], t);
    case SymbolIndex(i) => SymbolHeader(i, f, s, t);
    case EnvironmentIndex(GlobalEnv) => Slice(s, [0, 0, 0, 253], t);
    case EnvironmentIndex(BaseEnv) => Slice(s, [0, 0, 0, 241], t);
    case EnvironmentIndex(EmptyEnv) => Slice(s, [0, 0, 0, 242], t);
    case EnvironmentIndex(Ordinary(i)) => EnvironmentHeader(i, f, s, t);
    case ExternalPointerIndex(i) => PointerHeader(i, f, s, t);
    case AtomicVector(d, a) => AtomicHeader(d, a, f, s, t);
    case StringVector(xs, a) => StringVectorHeader(xs, a, f, s, t);
    case GenericVector(es, a) =>
      VectorOpen(VEC, es, a, f, s);
      Slice(s, [0, 0, AttributeFlags(a, f), VEC], t);
    case ExpressionVector(es, a) =>
      VectorOpen(EXPR, es, a, f, s);
      Slice(s, [0, 0, AttributeFlags(a, f), EXPR], t);
    case PairList(ns, a) =>
      if ns == [] {
        NothingLeft(a, f, s);
        Slice(s, [0, 0, 0, 254], t);
      } else {
        NodesOpen(a, ns, f, s);
        Slice(s, [0, 0, NodeFlags(a, ns[0].tag), LIST], t);
      }
    case S4Object(c, p, a) =>
      S4Open(c, p, a, f, s);
      Slice(s, [0, 1, 3, 25], t);
    case BuiltInFunction(name) =>
      BuiltInOpen(name, s);
      Slice(s, [0, 0, 0, BUILTIN], t);
    case LanguageObject(i, ns, a) =>
      CallOpen(i, ns, a, f, s);
      Slice(s, [0, 0, AttributeFlags(a, f), LANG], t);
  }

  /** The first four bytes of every object: a back reference to an entity that has a number, with that number, and
      nothing else; or the header of an object in full. */
  lemma ObjectHeader(o: RObject, f: File, s: Sink)
    requires EmitObject(o, f, s).Some?
    ensures var T, p := EmitObject(o, f, s).value.out, |s.out|;
            && p + 4 <= |T|
            && match Known(o, f, s)
               case Some(i) => |T| == p + 4 && ReferenceBytes(T[p..p + 4], i + 1)
               case None => FullHeader(T[p..p + 4], o, f)
  {
    hide Extends, EmitText, PutReference, FullHeader, ReferenceBytes, EmitNewEnvironment, EmitNewPointer;
    var i := Known(o, f, s);
    if i.Some? {
      ReferenceWritten(i.value + 1, s);
      assert EmitObject(o, f, s) == Some(PutReference(i.value + 1, s));
    } else {
      HeaderInFull(o, f, s, EmitObject(o, f, s).value);
    }
  }

  // The slots of an S4 object that are not slots: its class and package.

  /** A string that is not missing, in full. */
  function StringBytes(x: Symbol): seq<byte>
    requires |x.name| <= INT32_MAX
  {
    StringHeader(x.encoding) + BigEndian(|x.name|, 4) + x.name
  }

  lemma TextWritten(x: Symbol, s: Sink, h: seq<byte>)
    requires EmitText(x.name, x.encoding, Put(s, h)).Some?
    ensures |x.name| <= INT32_MAX && EmitText(x.name, x.encoding, Put(s, h)).value == Put(s, h + StringBytes(x))
  {
    hide BigEndian;
    var t := EmitText(x.name, x.encoding, Put(s, h)).value;
    assert CharHeader(x.encoding) == StringHeader(x.encoding);
    assert t.out == s.out + (h + StringBytes(x));
  }

  /** A one-element string vector. */
  lemma NameWritten(x: Symbol, flags: byte, s: Sink, h: seq<byte>)
    requires EmitStringData([Present(x)], flags, Put(s, h)).Some?
    ensures |x.name| <= INT32_MAX
    ensures EmitStringData([Present(x)], flags, Put(s, h)).value
         == Put(s, h + [0, 0, flags, 16, 0, 0, 0, 1] + StringBytes(x))
  {
    hide BigEndian, EmitText, StringBytes;
    SmallInteger(1);
    var xs := [Present(x)];
    var u := EmitLength(1, EmitHeader(STR, flags, Put(s, h))).value;
    assert u == Put(s, h + [0, 0, flags, 16, 0, 0, 0, 1]) by {
      assert u.out == s.out + (h + [0, 0, flags, 16, 0, 0, 0, 1]);
    }
    assert xs[1..] == [] && EmitStrings(xs[1..], EmitString(xs[0], u).value) == EmitString(xs[0], u);
    assert EmitStringData(xs, flags, Put(s, h)) == EmitText(x.name, x.encoding, u);
    TextWritten(x, s, h + [0, 0, flags, 16, 0, 0, 0, 1]);
  }

  /** A node that starts with a symbol that has no number yet. */
  lemma NodeOpened(x: Symbol, f: File, s: Sink, h: seq<byte>)
    requires Sym(x) !in s.log && EmitSymbol(x, f, EmitHeader(LIST, 4, Put(s, h))).Some?
    ensures |x.name| <= INT32_MAX
    ensures EmitSymbol(x, f, EmitHeader(LIST, 4, Put(s, h))).value
         == Sink(s.out + (h + [0, 0, 4, 2, 0, 0, 0, 1] + StringBytes(x)), s.log + [Sym(x)], s.top)
  {
    hide EmitText, StringBytes, Unwritten, NoDuplicates, Before, NotShorter;
    var u := EmitHeader(SYM, 0, EmitHeader(LIST, 4, Put(s, h)));
    assert u == Put(s, h + [0, 0, 4, 2, 0, 0, 0, 1]) by {
      assert u.out == s.out + (h + [0, 0, 4, 2, 0, 0, 0, 1]);
    }
    TextWritten(x, s, h + [0, 0, 4, 2, 0, 0, 0, 1]);
  }

  /** The strings "class" and "package" in ASCII: header, length and text. */
  const CLASS_BYTES: seq<byte> := [0, 4, 0, 9, 0, 0, 0, 5, 0x63, 0x6C, 0x61, 0x73, 0x73]
  const PACKAGE_BYTES: seq<byte> := [0, 4, 0, 9, 0, 0, 0, 7, 0x70, 0x61, 0x63, 0x6B, 0x61, 0x67, 0x65]

  lemma TheseSymbols()
    ensures StringBytes(CLASS_SYMBOL) == CLASS_BYTES && StringBytes(PACKAGE_SYMBOL) == PACKAGE_BYTES
  {
    SmallInteger(5);
    SmallInteger(7);
  }

  /** All bytes of an S4 object up to its slots, when neither of the two symbols has a number. */
  lemma S4Written(c: Symbol, p: Symbol, f: File, s: Sink)
    requires EmitS4Head(c, p, f, s).Some? && Sym(CLASS_SYMBOL) !in s.log && Sym(PACKAGE_SYMBOL) !in s.log
    ensures |c.name| <= INT32_MAX && |p.name| <= INT32_MAX
    ensures EmitS4Head(c, p, f, s).value
         == Sink(s.out + ([0, 1, 3, 25] + [0, 0, 4, 2, 0, 0, 0, 1] + CLASS_BYTES
                          + [0, 0, 2, 16, 0, 0, 0, 1] + StringBytes(c)
                          + [0, 0, 4, 2, 0, 0, 0, 1] + PACKAGE_BYTES
                          + [0, 0, 0, 16, 0, 0, 0, 1] + StringBytes(p) + [0, 0, 0, 254]),
                 s.log + [Sym(CLASS_SYMBOL), Sym(PACKAGE_SYMBOL)], s.top)
  {
    hide EmitSymbol, EmitStringData, StringBytes, Unwritten, NoDuplicates, Before, NotShorter;
    TheseSymbols();
    var h := [0, 1, 3, 25];
    NodeOpened(CLASS_SYMBOL, f, s, h);
    var h1 := h + [0, 0, 4, 2, 0, 0, 0, 1] + StringBytes(CLASS_SYMBOL);
    var s1 := s.(log := s.log + [Sym(CLASS_SYMBOL)]);
    NameWritten(c, 2, s1, h1);
    var h2 := h1 + [0, 0, 2, 16, 0, 0, 0, 1] + StringBytes(c);
    NodeOpened(PACKAGE_SYMBOL, f, s1, h2);
    var h3 := h2 + [0, 0, 4, 2, 0, 0, 0, 1] + StringBytes(PACKAGE_SYMBOL);
    var s2 := s1.(log := s1.log + [Sym(PACKAGE_SYMBOL)]);
    NameWritten(p, 0, s2, h3);
    var h4 := h3 + [0, 0, 0, 16, 0, 0, 0, 1] + StringBytes(p);
    assert s2.log == s.log + [Sym(CLASS_SYMBOL), Sym(PACKAGE_SYMBOL)];
    assert s.out + h4 + [0, 0, 0, 254] == s.out + (h4 + [0, 0, 0, 254]);
  }
}
