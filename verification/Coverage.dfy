/** Everything that a written object mentions has been given a number by the end of the run, and so
    has everything that a written table entry mentions: the renaming has no gaps. */
module Coverage {
  import opened Bytes
  import opened Objects
  import opened WriterSpec
  import opened RoundTrip

  predicate CoveredSymbol(i: nat, f: File, L: seq<Key>) { i < |f.symbols| && Sym(f.symbols[i]) in L }

  predicate CoveredTag(tag: Option<nat>, f: File, L: seq<Key>) { tag.Some? ==> CoveredSymbol(tag.value, f, L) }

  predicate CoveredRef(e: EnvRef, f: File, L: seq<Key>)
  {
    e.Ordinary? ==> e.index < |f.environments| && Env(e.index) in L
  }

  predicate CoveredObject(o: RObject, f: File, L: seq<Key>)
  {
    match o
    case Null => true
    case SymbolIndex(i) => CoveredSymbol(i, f, L)
    case EnvironmentIndex(e) => CoveredRef(e, f, L)
    case ExternalPointerIndex(i) => i < |f.pointers| && Ptr(i) in L
    case AtomicVector(_, a) => CoveredNamed(a, f, L)
    case StringVector(_, a) => CoveredNamed(a, f, L)
    case GenericVector(es, a) => CoveredObjects(es, f, L) && CoveredNamed(a, f, L)
    case ExpressionVector(es, a) => CoveredObjects(es, f, L) && CoveredNamed(a, f, L)
    case PairList(ns, a) => ns == [] || (CoveredNodes(ns, f, L) && CoveredNamed(a, f, L))
    case S4Object(_, _, a) => CoveredNamed(a, f, L)
    case BuiltInFunction(_) => true
    case LanguageObject(i, ns, a) => CoveredSymbol(i, f, L) && CoveredNodes(ns, f, L) && CoveredNamed(a, f, L)
  }

  predicate CoveredObjects(os: seq<RObject>, f: File, L: seq<Key>)
  {
    os == [] || (CoveredObject(os[0], f, L) && CoveredObjects(os[1..], f, L))
  }

  predicate CoveredNodes(ns: seq<Node>, f: File, L: seq<Key>)
  {
    ns == [] ||
    (assert ns[0].value < ns[0];
     CoveredTag(ns[0].tag, f, L) && CoveredObject(ns[0].value, f, L) && CoveredNodes(ns[1..], f, L))
  }

  predicate CoveredNamed(ns: seq<Named>, f: File, L: seq<Key>)
  {
    ns == [] ||
    (assert ns[0].value < ns[0];
     CoveredSymbol(ns[0].name, f, L) && CoveredObject(ns[0].value, f, L) && CoveredNamed(ns[1..], f, L))
  }

  predicate CoveredEnvironment(e: Environment, f: File, L: seq<Key>)
  {
    CoveredRef(e.parent, f, L) && CoveredNamed(e.variables, f, L) && CoveredNamed(e.attributes, f, L)
  }

  predicate CoveredPointer(p: ExternalPointer, f: File, L: seq<Key>)
  {
    && p.protection.Some? && CoveredObject(p.protection.value, f, L)
    && p.tag.Some? && CoveredObject(p.tag.value, f, L)
    && CoveredNamed(p.attributes, f, L)
  }

  predicate CoveredKey(k: Key, f: File, L: seq<Key>)
  {
    match k
    case Sym(_) => true
    case Env(i) => i < |f.environments| && CoveredEnvironment(f.environments[i], f, L)
    case Ptr(i) => i < |f.pointers| && CoveredPointer(f.pointers[i], f, L)
  }

  lemma {:induction false} CoveredAsNodes(ns: seq<Named>, f: File, L: seq<Key>)
    ensures CoveredNodes(AsNodes(ns), f, L) == CoveredNamed(ns, f, L)
  {
    if ns != [] {
      CoveredAsNodes(ns[1..], f, L);
      assert AsNodes(ns)[1..] == AsNodes(ns[1..]);
    }
  }

  /** Every entity that is written in full between `s` and `t` is covered. */
  ghost predicate Between(s: Sink, t: Sink, c: Run)
  {
    forall j :: |s.log| <= j < |t.log| && j < |c.end.log| ==> CoveredKey(c.end.log[j], c.f, c.end.log)
  }

  lemma Join(s: Sink, t: Sink, u: Sink, c: Run)
    requires Between(s, t, c) && Between(t, u, c)
    ensures Between(s, u, c)
  {
    hide CoveredKey, Unwritten;
  }

  lemma Back(s: Sink, t: Sink, c: Run)
    requires Extends(c.f, s, t) && c.Covers(t)
    ensures c.Covers(s) && Between(s, s, c)
    ensures forall k :: k in t.log ==> k in c.end.log
  {
    hide CoveredKey, NoDuplicates, Unwritten;
    assert forall j :: 0 <= j < |t.log| ==> t.log[j] == c.end.log[j];
  }

  lemma ItemBack(s: Sink, t: Sink, c: Run)
    requires Before(s, t) && t.log == s.log && c.Covers(t)
    ensures c.Covers(s) && Between(s, t, c)
  {
    hide CoveredKey, Unwritten;
  }

  lemma SymbolCovered(symbol: Symbol, s: Sink, t: Sink, c: Run)
    requires EmitSymbol(symbol, c.f, s) == Some(t) && c.Covers(t)
    ensures c.Covers(s) && Between(s, t, c) && Sym(symbol) in c.end.log
  {
    hide NoDuplicates, Unwritten, CoveredKey, Before;
    Back(s, t, c);
    assert Sym(symbol) in t.log;
    NewSymbolCovered(symbol, s, t, c);
  }

  lemma NewSymbolCovered(symbol: Symbol, s: Sink, t: Sink, c: Run)
    requires EmitSymbol(symbol, c.f, s) == Some(t) && c.Covers(t)
    ensures Between(s, t, c)
  {
    hide NoDuplicates, Unwritten, CoveredEnvironment, CoveredPointer;
    if Sym(symbol) !in s.log {
      assert t.log[|s.log|] == Sym(symbol) == c.end.log[|s.log|];
    }
  }

  lemma SymbolIndexCovered(i: nat, s: Sink, t: Sink, c: Run)
    requires EmitSymbolIndex(i, c.f, s) == Some(t) && c.Covers(t)
    ensures c.Covers(s) && Between(s, t, c) && CoveredSymbol(i, c.f, c.end.log)
  {
    hide CoveredKey, Before, Unwritten;
    SymbolCovered(c.f.symbols[i], s, t, c);
  }

  lemma {:induction false} ObjectCovered(o: RObject, s: Sink, t: Sink, c: Run)
    requires EmitObject(o, c.f, s) == Some(t) && c.Covers(t)
    ensures c.Covers(s) && Between(s, t, c) && CoveredObject(o, c.f, c.end.log)
    decreases Budget(c.f, s.log), Size(o), 0
  {
    hide Before, NoDuplicates, Unwritten, CoveredKey, CoveredNamed, CoveredNodes, CoveredObjects, CoveredSymbol,
      CoveredRef, EmitSymbolIndex, EmitEnvironment, EmitPointer, EmitVector, EmitNodes, EmitS4, EmitCall, EmitBuiltIn,
      EmitAtoms, EmitStringData, EmitAttributes;
    match o
    case Null => ItemBack(s, t, c);
    case SymbolIndex(i) => SymbolIndexCovered(i, s, t, c);
    case EnvironmentIndex(e) => EnvironmentCovered(e, s, t, c);
    case ExternalPointerIndex(i) => PointerCovered(i, s, t, c);
    case AtomicVector(d, a) =>
      var u := EmitAtoms(d, AttributeFlags(a, c.f), s).value;
      NamedCovered(a, u, t, c);
      ItemBack(s, u, c);
      Join(s, u, t, c);
    case StringVector(xs, a) =>
      var u := EmitStringData(xs, AttributeFlags(a, c.f), s).value;
      NamedCovered(a, u, t, c);
      ItemBack(s, u, c);
      Join(s, u, t, c);
    case GenericVector(es, a) => VectorCovered(VEC, es, a, s, t, c);
    case ExpressionVector(es, a) => VectorCovered(EXPR, es, a, s, t, c);
    case PairList(ns, a) => NodesCovered(a, ns, s, t, c);
    case S4Object(cl, p, a) => S4Covered(cl, p, a, s, t, c);
    case BuiltInFunction(_) => ItemBack(s, t, c);
    case LanguageObject(i, ns, a) => CallCovered(i, ns, a, s, t, c);
  }

  lemma {:induction false} VectorCovered(code: byte, es: seq<RObject>, a: seq<Named>, s: Sink, t: Sink, c: Run)
    requires EmitVector(code, es, a, c.f, s) == Some(t) && c.Covers(t)
    ensures c.Covers(s) && Between(s, t, c) && CoveredObjects(es, c.f, c.end.log) && CoveredNamed(a, c.f, c.end.log)
    decreases Budget(c.f, s.log), ObjectsSize(es) + NamedSize(a), 3
  {
    hide Before, NoDuplicates, Unwritten, Between, CoveredNamed, CoveredObjects, EmitLength, EmitObjects,
      EmitAttributes;
    var h := EmitHeader(code, AttributeFlags(a, c.f), s);
    var u := EmitLength(|es|, h).value;
    var v := EmitObjects(es, c.f, u).value;
    NamedCovered(a, v, t, c);
    ObjectsCovered(es, u, v, c);
    ItemBack(h, u, c);
    ItemBack(s, h, c);
    Join(h, u, v, c);
    Join(s, h, v, c);
    Join(s, v, t, c);
  }

  lemma {:induction false} ObjectsCovered(os: seq<RObject>, s: Sink, t: Sink, c: Run)
    requires EmitObjects(os, c.f, s) == Some(t) && c.Covers(t)
    ensures c.Covers(s) && Between(s, t, c) && CoveredObjects(os, c.f, c.end.log)
    decreases Budget(c.f, s.log), ObjectsSize(os), 1
  {
    hide Before, NoDuplicates, Unwritten, CoveredKey, CoveredObject, EmitObject;
    if os != [] {
      var u := EmitObject(os[0], c.f, s).value;
      ObjectsCovered(os[1..], u, t, c);
      ObjectCovered(os[0], s, u, c);
      Join(s, u, t, c);
    }
  }

  lemma {:induction false} NodesCovered(a: seq<Named>, ns: seq<Node>, s: Sink, t: Sink, c: Run)
    requires EmitNodes(a, ns, c.f, s) == Some(t) && c.Covers(t)
    ensures c.Covers(s) && Between(s, t, c)
    ensures CoveredNodes(ns, c.f, c.end.log) && (ns != [] ==> CoveredNamed(a, c.f, c.end.log))
    decreases Budget(c.f, s.log), NodesSize(ns) + NamedSize(a), 1
  {
    hide Before, NoDuplicates, Unwritten, Between, CoveredObject, CoveredNamed, CoveredTag, EmitNode;
    if ns == [] {
      ItemBack(s, t, c);
    } else {
      var u := EmitNode(a, ns[0], c.f, s).value;
      NodesCovered([], ns[1..], u, t, c);
      NodeCovered(a, ns[0], s, u, c);
      Join(s, u, t, c);
    }
  }

  lemma {:induction false} NodeCovered(a: seq<Named>, n: Node, s: Sink, t: Sink, c: Run)
    requires EmitNode(a, n, c.f, s) == Some(t) && c.Covers(t)
    ensures c.Covers(s) && Between(s, t, c) && CoveredNamed(a, c.f, c.end.log)
    ensures CoveredTag(n.tag, c.f, c.end.log) && CoveredObject(n.value, c.f, c.end.log)
    decreases Budget(c.f, s.log), 1 + Size(n.value) + NamedSize(a), 0
  {
    hide Before, NoDuplicates, Unwritten, CoveredKey, CoveredObject, CoveredNamed, CoveredSymbol, EmitAttributes,
      EmitSymbolIndex, EmitObject;
    var h := EmitHeader(LIST, NodeFlags(a, n.tag), s);
    var u := EmitAttributes(a, c.f, h).value;
    var v := EmitTag(n.tag, c.f, u).value;
    ObjectCovered(n.value, v, t, c);
    if n.tag.Some? { SymbolIndexCovered(n.tag.value, u, v, c); }
    NamedCovered(a, h, u, c);
    ItemBack(s, h, c);
    Join(s, u, v, c);
    Join(s, v, t, c);
  }

  lemma {:induction false} NamedCovered(a: seq<Named>, s: Sink, t: Sink, c: Run)
    requires EmitAttributes(a, c.f, s) == Some(t) || EmitNodes([], AsNodes(a), c.f, s) == Some(t)
    requires c.Covers(t)
    ensures c.Covers(s) && Between(s, t, c) && CoveredNamed(a, c.f, c.end.log)
    decreases Budget(c.f, s.log), NamedSize(a), 2
  {
    hide Before, NoDuplicates, Unwritten, CoveredKey, CoveredNodes, EmitNodes;
    if EmitNodes([], AsNodes(a), c.f, s) == Some(t) {
      AsNodesSize(a);
      NodesCovered([], AsNodes(a), s, t, c);
      CoveredAsNodes(a, c.f, c.end.log);
    }
  }

  lemma {:induction false} S4Covered(cl: Symbol, p: Symbol, a: seq<Named>, s: Sink, t: Sink, c: Run)
    requires EmitS4(cl, p, a, c.f, s) == Some(t) && c.Covers(t)
    ensures c.Covers(s) && Between(s, t, c) && CoveredNamed(a, c.f, c.end.log)
    decreases Budget(c.f, s.log), NamedSize(a), 3
  {
    hide Before, NoDuplicates, Unwritten, Between, CoveredNamed, EmitSymbol, EmitStringData, EmitPackage, EmitNodes;
    var h := EmitHeader(LIST, 4, Put(s, [0, 1, 3, S4]));
    var u := EmitSymbol(CLASS_SYMBOL, c.f, h).value;
    var v := EmitStringData([Present(cl)], 2, u).value;
    var w := EmitPackage(p, c.f, v).value;
    NamedCovered(a, w, t, c);
    PackageCovered(p, v, w, c);
    ItemBack(u, v, c);
    SymbolCovered(CLASS_SYMBOL, h, u, c);
    ItemBack(Put(s, [0, 1, 3, S4]), h, c);
    ItemBack(s, Put(s, [0, 1, 3, S4]), c);
    Join(s, Put(s, [0, 1, 3, S4]), h, c);
    Join(s, h, u, c);
    Join(s, u, v, c);
    Join(s, v, w, c);
    Join(s, w, t, c);
  }

  lemma PackageCovered(p: Symbol, s: Sink, t: Sink, c: Run)
    requires EmitPackage(p, c.f, s) == Some(t) && c.Covers(t)
    ensures c.Covers(s) && Between(s, t, c)
  {
    hide Before, NoDuplicates, Unwritten, Between, EmitSymbol, EmitStringData;
    var h := EmitHeader(LIST, 4, s);
    var u := EmitSymbol(PACKAGE_SYMBOL, c.f, h).value;
    var v := EmitStringData([Present(p)], 0, u).value;
    ItemBack(v, t, c);
    ItemBack(u, v, c);
    SymbolCovered(PACKAGE_SYMBOL, h, u, c);
    ItemBack(s, h, c);
    Join(s, h, u, c);
    Join(s, u, v, c);
    Join(s, v, t, c);
  }

  lemma {:induction false} CallCovered(i: nat, ns: seq<Node>, a: seq<Named>, s: Sink, t: Sink, c: Run)
    requires EmitCall(i, ns, a, c.f, s) == Some(t) && c.Covers(t)
    ensures c.Covers(s) && Between(s, t, c) && CoveredSymbol(i, c.f, c.end.log)
    ensures CoveredNodes(ns, c.f, c.end.log) && CoveredNamed(a, c.f, c.end.log)
    decreases Budget(c.f, s.log), NodesSize(ns) + NamedSize(a), 3
  {
    hide Before, NoDuplicates, Unwritten, Between, CoveredSymbol, CoveredNodes, CoveredNamed, EmitAttributes,
      EmitSymbolIndex, EmitNodes;
    var h := EmitHeader(LANG, AttributeFlags(a, c.f), s);
    var u := EmitAttributes(a, c.f, h).value;
    var v := EmitSymbolIndex(i, c.f, u).value;
    NodesCovered([], ns, v, t, c);
    SymbolIndexCovered(i, u, v, c);
    NamedCovered(a, h, u, c);
    ItemBack(s, h, c);
    Join(s, h, u, c);
    Join(s, u, v, c);
    Join(s, v, t, c);
  }

  /** The entity registered last before `u` is the only one between `s` and `u`. */
  lemma OneMore(k: Key, s: Sink, u: Sink, t: Sink, c: Run)
    requires u.log == s.log + [k] && c.Covers(u) && Between(u, t, c) && CoveredKey(k, c.f, c.end.log)
    ensures Between(s, t, c) && k in c.end.log
  {
    assert u.log[|s.log|] == k == c.end.log[|s.log|];
  }

  lemma {:induction false} EnvironmentCovered(e: EnvRef, s: Sink, t: Sink, c: Run)
    requires EmitEnvironment(e, c.f, s) == Some(t) && c.Covers(t)
    ensures c.Covers(s) && Between(s, t, c) && CoveredRef(e, c.f, c.end.log)
    decreases Budget(c.f, s.log), 0, 1
  {
    hide Before, NoDuplicates, Unwritten, Between, CoveredEnvironment, EmitEnvironmentBody;
    Back(s, t, c);
    if !e.Ordinary? || Env(e.index) in s.log {
      ItemBack(s, t, c);
    } else {
      var k, env := Env(e.index), c.f.environments[e.index];
      var u := Register(c.f, s, k);
      var h := EmitHeader(ENV, AttributeFlags(env.attributes, c.f), u);
      EnvironmentBodyCovered(env, h, t, c);
      ItemBack(u, h, c);
      Join(u, h, t, c);
      OneMore(k, s, u, t, c);
    }
  }

  lemma {:induction false} EnvironmentBodyCovered(e: Environment, s: Sink, t: Sink, c: Run)
    requires EmitEnvironmentBody(e, c.f, s) == Some(t) && c.Covers(t)
    ensures c.Covers(s) && Between(s, t, c) && CoveredEnvironment(e, c.f, c.end.log)
    decreases Budget(c.f, s.log), NamedSize(e.variables) + NamedSize(e.attributes), 4
  {
    hide Before, NoDuplicates, Unwritten, Between, CoveredRef, CoveredNamed, EmitEnvironment, EmitNodes;
    var h := EmitInteger(if e.locked then 1 else 0, s);
    var u := EmitEnvironment(e.parent, c.f, h).value;
    var v := EmitNodes([], AsNodes(e.variables), c.f, u).value;
    var w := EmitHeader(NILVALUE, 0, v);
    NamedCovered(e.attributes, w, t, c);
    ItemBack(v, w, c);
    NamedCovered(e.variables, u, v, c);
    EnvironmentCovered(e.parent, h, u, c);
    ItemBack(s, h, c);
    Join(s, h, u, c);
    Join(s, u, v, c);
    Join(s, v, w, c);
    Join(s, w, t, c);
  }

  lemma {:induction false} PointerCovered(i: nat, s: Sink, t: Sink, c: Run)
    requires EmitPointer(i, c.f, s) == Some(t) && c.Covers(t)
    ensures c.Covers(s) && Between(s, t, c) && i < |c.f.pointers| && Ptr(i) in c.end.log
    decreases Budget(c.f, s.log), 0, 1
  {
    hide Before, NoDuplicates, Unwritten, Between, CoveredPointer, EmitPointerBody;
    Back(s, t, c);
    if Ptr(i) in s.log {
      ItemBack(s, t, c);
    } else {
      var k, p := Ptr(i), c.f.pointers[i];
      var u := Register(c.f, s, k);
      var h := EmitHeader(EXTPTR, AttributeFlags(p.attributes, c.f), u);
      PointerBodyCovered(p, h, t, c);
      ItemBack(u, h, c);
      Join(u, h, t, c);
      OneMore(k, s, u, t, c);
    }
  }

  lemma {:induction false} PointerBodyCovered(p: ExternalPointer, s: Sink, t: Sink, c: Run)
    requires p.protection.Some? && p.tag.Some?
    requires EmitPointerBody(p, c.f, s) == Some(t) && c.Covers(t)
    ensures c.Covers(s) && Between(s, t, c) && CoveredPointer(p, c.f, c.end.log)
    decreases Budget(c.f, s.log), Size(p.protection.value) + Size(p.tag.value) + NamedSize(p.attributes), 4
  {
    hide Before, NoDuplicates, Unwritten, Between, CoveredObject, CoveredNamed, EmitObject, EmitAttributes;
    var u := EmitObject(p.protection.value, c.f, s).value;
    var v := EmitObject(p.tag.value, c.f, u).value;
    NamedCovered(p.attributes, v, t, c);
    ObjectCovered(p.tag.value, u, v, c);
    ObjectCovered(p.protection.value, s, u, c);
    Join(s, u, v, c);
    Join(s, v, t, c);
  }

  /** At the end of a run the object and every written table entry are covered. */
  lemma FileCovered(f: File, L: seq<Key>)
    requires EmitFile(f).Some? && EmitFile(f).value.log == L
    ensures CoveredObject(f.object_, f, L)
    ensures forall j :: 0 <= j < |L| ==> CoveredKey(L[j], f, L)
  {
    var t := EmitFile(f).value;
    ObjectCovered(f.object_, FRESH, t, Run(f, t));
  }
}
