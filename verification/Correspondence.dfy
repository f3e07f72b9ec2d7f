/** When two files are written alike: the same objects, with symbols that may be numbered
    differently or listed twice, and with environments and pointers renamed one-to-one. */
module Correspondence {
  import opened Bytes
  import opened Objects
  import opened WriterSpec

  /** Which environment and which pointer of `g` stand for those of `f`. When `exact` is false
      missing strings may differ in their encoding. */
  datatype Match = Match(f: File, g: File, env: imap<nat, nat>, ptr: imap<nat, nat>, exact: bool)

  function SymbolAt(f: File, i: nat): Option<Symbol> { if i < |f.symbols| then Some(f.symbols[i]) else None }

  ghost predicate SameName(i: nat, j: nat, m: Match) { SymbolAt(m.f, i) == SymbolAt(m.g, j) }

  ghost predicate SameTag(i: Option<nat>, j: Option<nat>, m: Match)
  {
    i.Some? == j.Some? && (i.Some? ==> SameName(i.value, j.value, m))
  }

  ghost predicate SameRef(e: EnvRef, e': EnvRef, m: Match)
  {
    if e.Ordinary? then e.index in m.env && e' == Ordinary(m.env[e.index]) else e' == e
  }

  ghost predicate SameStrings(xs: seq<RString>, ys: seq<RString>, m: Match)
  {
    if m.exact then xs == ys else NormalStrings(xs) == NormalStrings(ys)
  }

  ghost predicate SameObject(o: RObject, p: RObject, m: Match)
  {
    match o
    case Null => p == Null
    case SymbolIndex(i) => p.SymbolIndex? && SameName(i, p.symbol, m)
    case EnvironmentIndex(e) => p.EnvironmentIndex? && SameRef(e, p.env, m)
    case ExternalPointerIndex(i) => i in m.ptr && p == ExternalPointerIndex(m.ptr[i])
    case AtomicVector(d, a) => p.AtomicVector? && p.atoms == d && SameNamed(a, p.attributes, m)
    case StringVector(xs, a) => p.StringVector? && SameStrings(xs, p.strings, m) && SameNamed(a, p.attributes, m)
    case GenericVector(es, a) => p.GenericVector? && SameObjects(es, p.elements, m) && SameNamed(a, p.attributes, m)
    case ExpressionVector(es, a) =>
      p.ExpressionVector? && SameObjects(es, p.elements, m) && SameNamed(a, p.attributes, m)
    case PairList(ns, a) =>
      if ns == [] then p == Null || (p.PairList? && p.nodes == [])
      else p.PairList? && SameNodes(ns, p.nodes, m) && SameNamed(a, p.attributes, m)
    case S4Object(c, k, a) => p.S4Object? && p.className == c && p.packageName == k && SameNamed(a, p.attributes, m)
    case BuiltInFunction(_) => p == o
    case LanguageObject(i, ns, a) =>
      p.LanguageObject? && SameName(i, p.function_, m) && SameNodes(ns, p.arguments, m) && SameNamed(a, p.attributes, m)
  }

  ghost predicate SameObjects(os: seq<RObject>, ps: seq<RObject>, m: Match)
  {
    |os| == |ps| && (os == [] || (SameObject(os[0], ps[0], m) && SameObjects(os[1..], ps[1..], m)))
  }

  ghost predicate SameNode(n: Node, n': Node, m: Match)
  {
    SameTag(n.tag, n'.tag, m) && SameObject(n.value, n'.value, m)
  }

  ghost predicate SameNodes(ns: seq<Node>, ns': seq<Node>, m: Match)
  {
    |ns| == |ns'| && (ns == [] || (SameNode(ns[0], ns'[0], m) && SameNodes(ns[1..], ns'[1..], m)))
  }

  ghost predicate SameNamed(ns: seq<Named>, ns': seq<Named>, m: Match)
  {
    |ns| == |ns'| &&
    (ns == [] ||
     (assert ns[0].value < ns[0];
      && SameName(ns[0].name, ns'[0].name, m)
      && SameObject(ns[0].value, ns'[0].value, m)
      && SameNamed(ns[1..], ns'[1..], m)))
  }

  ghost predicate SameEnvironment(e: Environment, e': Environment, m: Match)
  {
    && e'.locked == e.locked && SameRef(e.parent, e'.parent, m)
    && SameNamed(e.variables, e'.variables, m) && SameNamed(e.attributes, e'.attributes, m)
  }

  ghost predicate SamePointer(p: ExternalPointer, p': ExternalPointer, m: Match)
  {
    && p.protection.Some? == p'.protection.Some? && p.tag.Some? == p'.tag.Some?
    && (p.protection.Some? && p.tag.Some? ==>
          && SameObject(p.protection.value, p'.protection.value, m)
          && SameObject(p.tag.value, p'.tag.value, m)
          && SameNamed(p.attributes, p'.attributes, m))
  }

  ghost predicate OneToOne(r: imap<nat, nat>) { forall i, j :: i in r && j in r && r[i] == r[j] ==> i == j }

  ghost predicate EnvironmentsMatch(m: Match)
  {
    forall i :: i in m.env ==>
      && (i < |m.f.environments| <==> m.env[i] < |m.g.environments|)
      && (i < |m.f.environments| ==> SameEnvironment(m.f.environments[i], m.g.environments[m.env[i]], m))
  }

  ghost predicate PointersMatch(m: Match)
  {
    forall i :: i in m.ptr ==>
      && (i < |m.f.pointers| <==> m.ptr[i] < |m.g.pointers|)
      && (i < |m.f.pointers| ==> SamePointer(m.f.pointers[i], m.g.pointers[m.ptr[i]], m))
  }

  ghost predicate FilesMatch(m: Match)
  {
    OneToOne(m.env) && OneToOne(m.ptr) && EnvironmentsMatch(m) && PointersMatch(m)
  }

  // Logs under a match.

  ghost predicate KeyMatched(k: Key, m: Match)
  {
    match k
    case Sym(_) => true
    case Env(i) => i in m.env
    case Ptr(i) => i in m.ptr
  }

  ghost function MapKey(k: Key, m: Match): Key
  {
    match k
    case Sym(_) => k
    case Env(i) => if i in m.env then Env(m.env[i]) else k
    case Ptr(i) => if i in m.ptr then Ptr(m.ptr[i]) else k
  }

  ghost function MapLog(log: seq<Key>, m: Match): (r: seq<Key>)
    ensures |r| == |log|
  {
    if log == [] then [] else MapLog(log[..|log| - 1], m) + [MapKey(log[|log| - 1], m)]
  }

  ghost predicate LogMatched(log: seq<Key>, m: Match)
  {
    log == [] || (KeyMatched(log[|log| - 1], m) && LogMatched(log[..|log| - 1], m))
  }

  lemma MapAppend(log: seq<Key>, k: Key, m: Match)
    ensures MapLog(log + [k], m) == MapLog(log, m) + [MapKey(k, m)]
    ensures LogMatched(log + [k], m) <==> LogMatched(log, m) && KeyMatched(k, m)
  {
    assert (log + [k])[..|log|] == log;
  }

  lemma {:induction false} MapAt(log: seq<Key>, i: nat, m: Match)
    requires i < |log| && LogMatched(log, m)
    ensures MapLog(log, m)[i] == MapKey(log[i], m) && KeyMatched(log[i], m)
  {
    if i < |log| - 1 { MapAt(log[..|log| - 1], i, m); }
  }

  lemma MapKeyOneToOne(k: Key, k': Key, m: Match)
    requires OneToOne(m.env) && OneToOne(m.ptr) && KeyMatched(k, m) && KeyMatched(k', m)
    ensures MapKey(k, m) == MapKey(k', m) <==> k == k'
  {
  }

  /** An entity has been written on one side exactly when it has on the other, with the same number. */
  lemma {:induction false} SamePosition(log: seq<Key>, k: Key, m: Match)
    requires OneToOne(m.env) && OneToOne(m.ptr) && LogMatched(log, m) && KeyMatched(k, m)
    ensures MapKey(k, m) in MapLog(log, m) <==> k in log
    ensures k in log ==> MapKey(k, m) in MapLog(log, m) && Position(MapLog(log, m), MapKey(k, m)) == Position(log, k)
  {
    var r := MapLog(log, m);
    if k in log {
      var i := Position(log, k);
      MapAt(log, i, m);
      var j := Position(r, MapKey(k, m));
      MapAt(log, j, m);
      MapKeyOneToOne(log[j], k, m);
    } else if MapKey(k, m) in r {
      var j := Position(r, MapKey(k, m));
      MapAt(log, j, m);
      MapKeyOneToOne(log[j], k, m);
    }
  }

  // The two writers in step.

  /** The second writer stands where the first does. */
  ghost predicate InStep(s: Sink, s': Sink, m: Match)
  {
    LogMatched(s.log, m) && s'.log == MapLog(s.log, m) && s'.top == s.top && (m.exact ==> s'.out == s.out)
  }

  ghost predicate StaysInStep(r: Option<Sink>, r': Option<Sink>, m: Match)
  {
    r.Some? == r'.Some? && (r.Some? ==> InStep(r.value, r'.value, m))
  }

  lemma PutSame(s: Sink, s': Sink, b: seq<byte>, m: Match)
    requires InStep(s, s', m)
    ensures InStep(Put(s, b), Put(s', b), m)
  {
  }

  lemma LengthSame(n: nat, s: Sink, s': Sink, m: Match)
    requires InStep(s, s', m)
    ensures StaysInStep(EmitLength(n, s), EmitLength(n, s'), m)
  {
  }

  lemma TextSame(x: Text, e: Encoding, s: Sink, s': Sink, m: Match)
    requires InStep(s, s', m)
    ensures StaysInStep(EmitText(x, e, s), EmitText(x, e, s'), m)
  {
  }

  lemma {:induction false} StringsSame(xs: seq<RString>, ys: seq<RString>, s: Sink, s': Sink, m: Match)
    requires InStep(s, s', m) && |xs| == |ys| && SameStrings(xs, ys, m)
    ensures StaysInStep(EmitStrings(xs, s), EmitStrings(ys, s'), m)
    decreases |xs|
  {
    if xs != [] {
      assert NormalStrings(xs)[0] == NormalStrings(ys)[0] && NormalStrings(xs)[1..] == NormalStrings(ys)[1..];
      var t, t' := EmitString(xs[0], s), EmitString(ys[0], s');
      assert StaysInStep(t, t', m);
      if t.Some? { StringsSame(xs[1..], ys[1..], t.value, t'.value, m); }
    }
  }

  lemma {:induction false} WordsSame(ws: seq<nat>, w: nat, s: Sink, s': Sink, m: Match)
    requires InStep(s, s', m)
    ensures InStep(EmitWords(ws, w, s), EmitWords(ws, w, s'), m)
  {
    if ws != [] { WordsSame(ws[1..], w, Put(s, BigEndian(ws[0], w)), Put(s', BigEndian(ws[0], w)), m); }
  }

  lemma AtomsSame(d: Atoms, flags: byte, s: Sink, s': Sink, m: Match)
    requires InStep(s, s', m)
    ensures StaysInStep(EmitAtoms(d, flags, s), EmitAtoms(d, flags, s'), m)
  {
    var h, h' := EmitHeader(AtomCode(d), flags, s), EmitHeader(AtomCode(d), flags, s');
    LengthSame(AtomCount(d), h, h', m);
    if AtomCount(d) < SIZE_LIMIT {
      var t, t' := EmitLength(AtomCount(d), h).value, EmitLength(AtomCount(d), h').value;
      WordsSame(Words(d), WordWidth(AtomCode(d)), t, t', m);
    }
  }

  lemma StringDataSame(xs: seq<RString>, ys: seq<RString>, flags: byte, s: Sink, s': Sink, m: Match)
    requires InStep(s, s', m) && SameStrings(xs, ys, m)
    ensures StaysInStep(EmitStringData(xs, flags, s), EmitStringData(ys, flags, s'), m)
  {
    assert |NormalStrings(xs)| == |NormalStrings(ys)|;
    var h, h' := EmitHeader(STR, flags, s), EmitHeader(STR, flags, s');
    LengthSame(|xs|, h, h', m);
    if |xs| < SIZE_LIMIT { StringsSame(xs, ys, EmitLength(|xs|, h).value, EmitLength(|xs|, h').value, m); }
  }

  lemma ReferenceSame(k: Key, s: Sink, s': Sink, m: Match)
    requires FilesMatch(m) && InStep(s, s', m) && KeyMatched(k, m)
    ensures k in s.log <==> MapKey(k, m) in s'.log
    ensures k in s.log ==> InStep(EmitReference(k, s), EmitReference(MapKey(k, m), s'), m)
  {
    SamePosition(s.log, k, m);
  }

  lemma RegisterSame(k: Key, s: Sink, s': Sink, m: Match)
    requires FilesMatch(m) && InStep(s, s', m) && KeyMatched(k, m) && k !in s.log
    ensures MapKey(k, m) !in s'.log && InStep(Register(m.f, s, k), Register(m.g, s', MapKey(k, m)), m)
  {
    SamePosition(s.log, k, m);
    MapAppend(s.log, k, m);
  }

  lemma SymbolSame(symbol: Symbol, s: Sink, s': Sink, m: Match)
    requires FilesMatch(m) && InStep(s, s', m)
    ensures StaysInStep(EmitSymbol(symbol, m.f, s), EmitSymbol(symbol, m.g, s'), m)
  {
    hide Before, NotShorter, NoDuplicates, Unwritten, EmitText;
    var k := Sym(symbol);
    ReferenceSame(k, s, s', m);
    if k !in s.log {
      var h, h' := EmitHeader(SYM, 0, s), EmitHeader(SYM, 0, s');
      TextSame(symbol.name, symbol.encoding, h, h', m);
      var t, t' := EmitText(symbol.name, symbol.encoding, h), EmitText(symbol.name, symbol.encoding, h');
      if t.Some? { RegisterSame(k, t.value, t'.value, m); }
    }
  }

  lemma SymbolIndexSame(i: nat, j: nat, s: Sink, s': Sink, m: Match)
    requires FilesMatch(m) && InStep(s, s', m) && SameName(i, j, m)
    ensures StaysInStep(EmitSymbolIndex(i, m.f, s), EmitSymbolIndex(j, m.g, s'), m)
  {
    if i < |m.f.symbols| { SymbolSame(m.f.symbols[i], s, s', m); }
  }

  lemma {:induction false} SameAsNodes(ns: seq<Named>, ns': seq<Named>, m: Match)
    requires SameNamed(ns, ns', m)
    ensures SameNodes(AsNodes(ns), AsNodes(ns'), m)
    decreases |ns|
  {
    if ns != [] {
      SameAsNodes(ns[1..], ns'[1..], m);
      assert AsNodes(ns)[1..] == AsNodes(ns[1..]) && AsNodes(ns')[1..] == AsNodes(ns'[1..]);
    }
  }

  lemma {:induction false} SameNameAt(ns: seq<Named>, ns': seq<Named>, j: nat, m: Match)
    requires SameNamed(ns, ns', m) && j < |ns|
    ensures SameName(ns[j].name, ns'[j].name, m)
    decreases |ns|
  {
    if j > 0 { SameNameAt(ns[1..], ns'[1..], j - 1, m); }
  }

  lemma {:induction false} SameFlags(ns: seq<Named>, ns': seq<Named>, m: Match)
    requires SameNamed(ns, ns', m)
    ensures NamesClass(ns, m.f) == NamesClass(ns', m.g) && AttributeFlags(ns, m.f) == AttributeFlags(ns', m.g)
  {
    forall j | 0 <= j < |ns| ensures SymbolAt(m.f, ns[j].name) == SymbolAt(m.g, ns'[j].name) {
      SameNameAt(ns, ns', j, m);
    }
  }

  // Objects.

  lemma {:induction false} ObjectSame(o: RObject, p: RObject, s: Sink, s': Sink, m: Match)
    requires FilesMatch(m) && InStep(s, s', m) && SameObject(o, p, m)
    ensures StaysInStep(EmitObject(o, m.f, s), EmitObject(p, m.g, s'), m)
    decreases Budget(m.f, s.log), Size(o), 0
  {
    hide FilesMatch, InStep, SameName, SameTag, SameRef, SameStrings, SameNodes, SameNamed, SameObjects,
      EmitSymbolIndex, EmitEnvironment, EmitPointer, EmitVector, EmitNodes, EmitS4, EmitCall, EmitBuiltIn, EmitAtoms,
      EmitStringData, EmitAttributes, Unwritten;
    match o
    case Null => PutSame(s, s', [0, 0, 0, NILVALUE], m);
    case SymbolIndex(i) => SymbolIndexSame(i, p.symbol, s, s', m);
    case EnvironmentIndex(e) => EnvironmentSame(e, p.env, s, s', m);
    case ExternalPointerIndex(i) => PointerSame(i, s, s', m);
    case AtomicVector(d, a) => AtomicSame(d, a, p.attributes, s, s', m);
    case StringVector(xs, a) => StringVectorSame(xs, p.strings, a, p.attributes, s, s', m);
    case GenericVector(es, a) => VectorSame(VEC, es, p.elements, a, p.attributes, s, s', m);
    case ExpressionVector(es, a) => VectorSame(EXPR, es, p.elements, a, p.attributes, s, s', m);
    case PairList(ns, a) =>
      if ns == [] {
        EmptyPairList(o, m.f, s);
        EmptyPairList(p, m.g, s');
        PutSame(s, s', [0, 0, 0, NILVALUE], m);
      } else {
        NodesSame(a, p.attributes, ns, p.nodes, s, s', m);
      }
    case S4Object(c, k, a) => S4Same(c, k, a, p.attributes, s, s', m);
    case BuiltInFunction(name) => BuiltInSame(name, s, s', m);
    case LanguageObject(i, ns, a) => CallSame(i, p.function_, ns, p.arguments, a, p.attributes, s, s', m);
  }

  lemma EmptyPairList(o: RObject, f: File, s: Sink)
    requires o == Null || (o.PairList? && o.nodes == [])
    ensures EmitObject(o, f, s) == Some(EmitHeader(NILVALUE, 0, s))
  {
  }

  lemma BuiltInSame(name: Text, s: Sink, s': Sink, m: Match)
    requires InStep(s, s', m)
    ensures StaysInStep(EmitBuiltIn(name, s), EmitBuiltIn(name, s'), m)
  {
    LengthSame(|name|, EmitHeader(BUILTIN, 0, s), EmitHeader(BUILTIN, 0, s'), m);
  }

  lemma {:induction false} AtomicSame(d: Atoms, a: seq<Named>, a': seq<Named>, s: Sink, s': Sink, m: Match)
    requires FilesMatch(m) && InStep(s, s', m) && SameNamed(a, a', m)
    ensures StaysInStep(EmitObject(AtomicVector(d, a), m.f, s), EmitObject(AtomicVector(d, a'), m.g, s'), m)
    decreases Budget(m.f, s.log), NamedSize(a), 4
  {
    hide FilesMatch, InStep, SameNamed, AttributeFlags, EmitAtoms, EmitAttributes, Unwritten;
    SameFlags(a, a', m);
    var flags := AttributeFlags(a, m.f);
    AtomsSame(d, flags, s, s', m);
    var t, t' := EmitAtoms(d, flags, s), EmitAtoms(d, flags, s');
    if t.Some? { AttributesSame(a, a', t.value, t'.value, m); }
  }

  lemma {:induction false} StringVectorSame(
    xs: seq<RString>, ys: seq<RString>, a: seq<Named>, a': seq<Named>, s: Sink, s': Sink, m: Match)
    requires FilesMatch(m) && InStep(s, s', m) && SameStrings(xs, ys, m) && SameNamed(a, a', m)
    ensures StaysInStep(EmitObject(StringVector(xs, a), m.f, s), EmitObject(StringVector(ys, a'), m.g, s'), m)
    decreases Budget(m.f, s.log), NamedSize(a), 4
  {
    hide FilesMatch, InStep, SameNamed, SameStrings, AttributeFlags, EmitStringData, EmitAttributes, Unwritten;
    SameFlags(a, a', m);
    var flags := AttributeFlags(a, m.f);
    StringDataSame(xs, ys, flags, s, s', m);
    var t, t' := EmitStringData(xs, flags, s), EmitStringData(ys, flags, s');
    if t.Some? { AttributesSame(a, a', t.value, t'.value, m); }
  }

  lemma {:induction false} VectorSame(code: byte, es: seq<RObject>, es': seq<RObject>,
                                      a: seq<Named>, a': seq<Named>, s: Sink, s': Sink, m: Match)
    requires FilesMatch(m) && InStep(s, s', m) && SameObjects(es, es', m) && SameNamed(a, a', m)
    ensures StaysInStep(EmitVector(code, es, a, m.f, s), EmitVector(code, es', a', m.g, s'), m)
    decreases Budget(m.f, s.log), ObjectsSize(es) + NamedSize(a), 3
  {
    hide FilesMatch, InStep, SameNamed, AttributeFlags, EmitObjects, EmitAttributes, EmitLength, Unwritten;
    SameFlags(a, a', m);
    var flags := AttributeFlags(a, m.f);
    var h, h' := EmitHeader(code, flags, s), EmitHeader(code, flags, s');
    PutSame(s, s', [0, 0, flags, code], m);
    LengthSame(|es|, h, h', m);
    var t, t' := EmitLength(|es|, h), EmitLength(|es|, h');
    if t.Some? {
      ObjectsSame(es, es', t.value, t'.value, m);
      var u, u' := EmitObjects(es, m.f, t.value), EmitObjects(es', m.g, t'.value);
      if u.Some? { AttributesSame(a, a', u.value, u'.value, m); }
    }
  }

  lemma {:induction false} ObjectsSame(os: seq<RObject>, ps: seq<RObject>, s: Sink, s': Sink, m: Match)
    requires FilesMatch(m) && InStep(s, s', m) && SameObjects(os, ps, m)
    ensures StaysInStep(EmitObjects(os, m.f, s), EmitObjects(ps, m.g, s'), m)
    decreases Budget(m.f, s.log), ObjectsSize(os), 1
  {
    hide FilesMatch, InStep, SameObject, EmitObject, Unwritten;
    if os != [] {
      ObjectSame(os[0], ps[0], s, s', m);
      var t, t' := EmitObject(os[0], m.f, s), EmitObject(ps[0], m.g, s');
      if t.Some? { ObjectsSame(os[1..], ps[1..], t.value, t'.value, m); }
    }
  }

  lemma {:induction false} NodesSame(a: seq<Named>, a': seq<Named>, ns: seq<Node>, ns': seq<Node>,
                                     s: Sink, s': Sink, m: Match)
    requires FilesMatch(m) && InStep(s, s', m) && SameNodes(ns, ns', m) && SameNamed(a, a', m)
    ensures StaysInStep(EmitNodes(a, ns, m.f, s), EmitNodes(a', ns', m.g, s'), m)
    decreases Budget(m.f, s.log), NodesSize(ns) + NamedSize(a), 1
  {
    hide FilesMatch, InStep, SameNode, EmitNode, Unwritten;
    if ns == [] {
      PutSame(s, s', [0, 0, 0, NILVALUE], m);
    } else {
      NodeSame(a, a', ns[0], ns'[0], s, s', m);
      var t, t' := EmitNode(a, ns[0], m.f, s), EmitNode(a', ns'[0], m.g, s');
      if t.Some? { NodesSame([], [], ns[1..], ns'[1..], t.value, t'.value, m); }
    }
  }

  lemma {:induction false} NodeSame(a: seq<Named>, a': seq<Named>, n: Node, n': Node, s: Sink, s': Sink, m: Match)
    requires FilesMatch(m) && InStep(s, s', m) && SameNode(n, n', m) && SameNamed(a, a', m)
    ensures StaysInStep(EmitNode(a, n, m.f, s), EmitNode(a', n', m.g, s'), m)
    decreases Budget(m.f, s.log), 1 + Size(n.value) + NamedSize(a), 0
  {
    hide FilesMatch, InStep, SameNamed, SameObject, SameName, EmitAttributes, EmitSymbolIndex, EmitObject, Unwritten;
    assert (a == []) == (a' == []) by { SameLength(a, a', m); }
    var flags := NodeFlags(a, n.tag);
    PutSame(s, s', [0, 0, flags, LIST], m);
    var h, h' := EmitHeader(LIST, flags, s), EmitHeader(LIST, flags, s');
    AttributesSame(a, a', h, h', m);
    var t, t' := EmitAttributes(a, m.f, h), EmitAttributes(a', m.g, h');
    if t.Some? {
      TagSame(n.tag, n'.tag, t.value, t'.value, m);
      var u, u' := EmitTag(n.tag, m.f, t.value), EmitTag(n'.tag, m.g, t'.value);
      if u.Some? { ObjectSame(n.value, n'.value, u.value, u'.value, m); }
    }
  }

  lemma SameLength(a: seq<Named>, a': seq<Named>, m: Match)
    requires SameNamed(a, a', m)
    ensures |a| == |a'|
  {
  }

  lemma TagSame(i: Option<nat>, j: Option<nat>, s: Sink, s': Sink, m: Match)
    requires FilesMatch(m) && InStep(s, s', m) && SameTag(i, j, m)
    ensures StaysInStep(EmitTag(i, m.f, s), EmitTag(j, m.g, s'), m)
  {
    hide FilesMatch, InStep, SameName, EmitSymbolIndex, Unwritten;
    if i.Some? { SymbolIndexSame(i.value, j.value, s, s', m); }
  }

  lemma {:induction false} AttributesSame(a: seq<Named>, a': seq<Named>, s: Sink, s': Sink, m: Match)
    requires FilesMatch(m) && InStep(s, s', m) && SameNamed(a, a', m)
    ensures StaysInStep(EmitAttributes(a, m.f, s), EmitAttributes(a', m.g, s'), m)
    ensures StaysInStep(EmitNodes([], AsNodes(a), m.f, s), EmitNodes([], AsNodes(a'), m.g, s'), m)
    decreases Budget(m.f, s.log), NamedSize(a), 2
  {
    hide FilesMatch, InStep, SameNodes, EmitNodes, Unwritten;
    SameLength(a, a', m);
    SameAsNodes(a, a', m);
    AsNodesSize(a);
    NodesSame([], [], AsNodes(a), AsNodes(a'), s, s', m);
  }

  lemma {:induction false} S4Same(
    c: Symbol, k: Symbol, a: seq<Named>, a': seq<Named>, s: Sink, s': Sink, m: Match)
    requires FilesMatch(m) && InStep(s, s', m) && SameNamed(a, a', m)
    ensures StaysInStep(EmitS4(c, k, a, m.f, s), EmitS4(c, k, a', m.g, s'), m)
    decreases Budget(m.f, s.log), NamedSize(a), 3
  {
    hide FilesMatch, InStep, SameNamed, EmitS4Head, EmitNodes, Unwritten;
    S4HeadSame(c, k, s, s', m);
    var t, t' := EmitS4Head(c, k, m.f, s), EmitS4Head(c, k, m.g, s');
    if t.Some? { AttributesSame(a, a', t.value, t'.value, m); }
  }

  lemma S4HeadSame(c: Symbol, k: Symbol, s: Sink, s': Sink, m: Match)
    requires FilesMatch(m) && InStep(s, s', m)
    ensures StaysInStep(EmitS4Head(c, k, m.f, s), EmitS4Head(c, k, m.g, s'), m)
  {
    hide FilesMatch, InStep, EmitSymbol, EmitStringData, EmitPackage, Unwritten;
    var h, h' := Put(s, [0, 1, 3, S4]), Put(s', [0, 1, 3, S4]);
    PutSame(s, s', [0, 1, 3, S4], m);
    PutSame(h, h', [0, 0, 4, LIST], m);
    PresentSame(CLASS_SYMBOL, c, 2, EmitHeader(LIST, 4, h), EmitHeader(LIST, 4, h'), m);
    var t := EmitSymbol(CLASS_SYMBOL, m.f, EmitHeader(LIST, 4, h));
    var t' := EmitSymbol(CLASS_SYMBOL, m.g, EmitHeader(LIST, 4, h'));
    if t.Some? {
      var u, u' := EmitStringData([Present(c)], 2, t.value), EmitStringData([Present(c)], 2, t'.value);
      if u.Some? { PackageSame(k, u.value, u'.value, m); }
    }
  }

  lemma PackageSame(k: Symbol, s: Sink, s': Sink, m: Match)
    requires FilesMatch(m) && InStep(s, s', m)
    ensures StaysInStep(EmitPackage(k, m.f, s), EmitPackage(k, m.g, s'), m)
  {
    hide FilesMatch, InStep, EmitSymbol, EmitStringData, Unwritten;
    PutSame(s, s', [0, 0, 4, LIST], m);
    var h, h' := EmitHeader(LIST, 4, s), EmitHeader(LIST, 4, s');
    PresentSame(PACKAGE_SYMBOL, k, 0, h, h', m);
    var t, t' := EmitSymbol(PACKAGE_SYMBOL, m.f, h), EmitSymbol(PACKAGE_SYMBOL, m.g, h');
    if t.Some? {
      var u, u' := EmitStringData([Present(k)], 0, t.value), EmitStringData([Present(k)], 0, t'.value);
      if u.Some? { PutSame(u.value, u'.value, [0, 0, 0, NILVALUE], m); }
    }
  }

  /** A symbol followed by a string. */
  lemma PresentSame(symbol: Symbol, x: Symbol, flags: byte, s: Sink, s': Sink, m: Match)
    requires FilesMatch(m) && InStep(s, s', m)
    ensures StaysInStep(EmitSymbol(symbol, m.f, s), EmitSymbol(symbol, m.g, s'), m)
    ensures var t, t' := EmitSymbol(symbol, m.f, s), EmitSymbol(symbol, m.g, s');
            t.Some? ==>
              StaysInStep(EmitStringData([Present(x)], flags, t.value),
                          EmitStringData([Present(x)], flags, t'.value), m)
  {
    hide FilesMatch, InStep, EmitSymbol, EmitStringData, Unwritten;
    SymbolSame(symbol, s, s', m);
    var t, t' := EmitSymbol(symbol, m.f, s), EmitSymbol(symbol, m.g, s');
    if t.Some? { StringDataSame([Present(x)], [Present(x)], flags, t.value, t'.value, m); }
  }

  lemma {:induction false} CallSame(i: nat, j: nat, ns: seq<Node>, ns': seq<Node>,
                                    a: seq<Named>, a': seq<Named>, s: Sink, s': Sink, m: Match)
    requires FilesMatch(m) && InStep(s, s', m) && SameName(i, j, m) && SameNodes(ns, ns', m) && SameNamed(a, a', m)
    ensures StaysInStep(EmitCall(i, ns, a, m.f, s), EmitCall(j, ns', a', m.g, s'), m)
    decreases Budget(m.f, s.log), NodesSize(ns) + NamedSize(a), 3
  {
    hide FilesMatch, InStep, SameNodes, SameName, AttributeFlags, EmitAttributes, EmitSymbolIndex, EmitNodes,
      Unwritten;
    SameFlags(a, a', m);
    var flags := AttributeFlags(a, m.f);
    PutSame(s, s', [0, 0, flags, LANG], m);
    var h, h' := EmitHeader(LANG, flags, s), EmitHeader(LANG, flags, s');
    AttributesSame(a, a', h, h', m);
    var t, t' := EmitAttributes(a, m.f, h), EmitAttributes(a', m.g, h');
    if t.Some? {
      SymbolIndexSame(i, j, t.value, t'.value, m);
      var u, u' := EmitSymbolIndex(i, m.f, t.value), EmitSymbolIndex(j, m.g, t'.value);
      if u.Some? { NodesSame([], [], ns, ns', u.value, u'.value, m); }
    }
  }

  lemma {:induction false} EnvironmentSame(e: EnvRef, e': EnvRef, s: Sink, s': Sink, m: Match)
    requires FilesMatch(m) && InStep(s, s', m) && SameRef(e, e', m)
    ensures StaysInStep(EmitEnvironment(e, m.f, s), EmitEnvironment(e', m.g, s'), m)
    decreases Budget(m.f, s.log), 0, 1
  {
    hide InStep, OneToOne, PointersMatch, SameEnvironment, EmitEnvironmentBody, AttributeFlags, Unwritten;
    match e
    case GlobalEnv => PutSame(s, s', [0, 0, 0, GLOBALENV], m);
    case BaseEnv => PutSame(s, s', [0, 0, 0, BASEENV], m);
    case EmptyEnv => PutSame(s, s', [0, 0, 0, EMPTYENV], m);
    case Ordinary(i) =>
      var k := Env(i);
      ReferenceSame(k, s, s', m);
      if i < |m.f.environments| && k !in s.log {
        var env, env' := m.f.environments[i], m.g.environments[m.env[i]];
        RegisterSame(k, s, s', m);
        var t, t' := Register(m.f, s, k), Register(m.g, s', MapKey(k, m));
        EnvironmentHeaderSame(env, env', t, t', m);
        EnvironmentBodySame(env, env', EmitHeader(ENV, AttributeFlags(env.attributes, m.f), t),
                            EmitHeader(ENV, AttributeFlags(env'.attributes, m.g), t'), m);
      }
  }

  lemma EnvironmentHeaderSame(e: Environment, e': Environment, s: Sink, s': Sink, m: Match)
    requires InStep(s, s', m) && SameEnvironment(e, e', m)
    ensures InStep(EmitHeader(ENV, AttributeFlags(e.attributes, m.f), s),
                   EmitHeader(ENV, AttributeFlags(e'.attributes, m.g), s'), m)
  {
    hide InStep, SameNamed, AttributeFlags, Unwritten;
    SameFlags(e.attributes, e'.attributes, m);
    PutSame(s, s', [0, 0, AttributeFlags(e.attributes, m.f), ENV], m);
  }

  lemma {:induction false} EnvironmentBodySame(e: Environment, e': Environment, s: Sink, s': Sink, m: Match)
    requires FilesMatch(m) && InStep(s, s', m) && SameEnvironment(e, e', m)
    ensures StaysInStep(EmitEnvironmentBody(e, m.f, s), EmitEnvironmentBody(e', m.g, s'), m)
    decreases Budget(m.f, s.log), NamedSize(e.variables) + NamedSize(e.attributes), 4
  {
    hide FilesMatch, InStep, SameNamed, SameRef, EmitEnvironment, EmitNodes, Unwritten;
    var locked := if e.locked then 1 else 0;
    PutSame(s, s', BigEndian(ToU32(locked), 4), m);
    EnvironmentSame(e.parent, e'.parent, EmitInteger(locked, s), EmitInteger(locked, s'), m);
    var t := EmitEnvironment(e.parent, m.f, EmitInteger(locked, s));
    var t' := EmitEnvironment(e'.parent, m.g, EmitInteger(locked, s'));
    if t.Some? {
      AttributesSame(e.variables, e'.variables, t.value, t'.value, m);
      var u := EmitNodes([], AsNodes(e.variables), m.f, t.value);
      var u' := EmitNodes([], AsNodes(e'.variables), m.g, t'.value);
      if u.Some? {
        PutSame(u.value, u'.value, [0, 0, 0, NILVALUE], m);
        var h, h' := EmitHeader(NILVALUE, 0, u.value), EmitHeader(NILVALUE, 0, u'.value);
        AttributesSame(e.attributes, e'.attributes, h, h', m);
      }
    }
  }

  lemma {:induction false} PointerSame(i: nat, s: Sink, s': Sink, m: Match)
    requires FilesMatch(m) && InStep(s, s', m) && i in m.ptr
    ensures StaysInStep(EmitPointer(i, m.f, s), EmitPointer(m.ptr[i], m.g, s'), m)
    decreases Budget(m.f, s.log), 0, 1
  {
    hide InStep, OneToOne, EnvironmentsMatch, EmitPointerBody, AttributeFlags, SameObject, SameNamed, Unwritten;
    var k := Ptr(i);
    ReferenceSame(k, s, s', m);
    if i < |m.f.pointers| && k !in s.log && m.f.pointers[i].protection.Some? && m.f.pointers[i].tag.Some? {
      var p, p' := m.f.pointers[i], m.g.pointers[m.ptr[i]];
      RegisterSame(k, s, s', m);
      var t, t' := Register(m.f, s, k), Register(m.g, s', MapKey(k, m));
      SameFlags(p.attributes, p'.attributes, m);
      PutSame(t, t', [0, 0, AttributeFlags(p.attributes, m.f), EXTPTR], m);
      PointerBodySame(p, p', EmitHeader(EXTPTR, AttributeFlags(p.attributes, m.f), t),
                      EmitHeader(EXTPTR, AttributeFlags(p'.attributes, m.g), t'), m);
    }
  }

  lemma {:induction false} PointerBodySame(p: ExternalPointer, p': ExternalPointer, s: Sink, s': Sink, m: Match)
    requires FilesMatch(m) && InStep(s, s', m) && SamePointer(p, p', m) && p.protection.Some? && p.tag.Some?
    ensures StaysInStep(EmitPointerBody(p, m.f, s), EmitPointerBody(p', m.g, s'), m)
    decreases Budget(m.f, s.log), Size(p.protection.value) + Size(p.tag.value) + NamedSize(p.attributes), 4
  {
    hide FilesMatch, InStep, SameNamed, SameObject, EmitObject, EmitAttributes, Unwritten;
    ObjectSame(p.protection.value, p'.protection.value, s, s', m);
    var t, t' := EmitObject(p.protection.value, m.f, s), EmitObject(p'.protection.value, m.g, s');
    if t.Some? {
      ObjectSame(p.tag.value, p'.tag.value, t.value, t'.value, m);
      var u, u' := EmitObject(p.tag.value, m.f, t.value), EmitObject(p'.tag.value, m.g, t'.value);
      if u.Some? { AttributesSame(p.attributes, p'.attributes, u.value, u'.value, m); }
    }
  }
}
