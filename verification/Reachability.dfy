/** Which files survive, said of the file alone. A list of keys *supports* a file if it contains every
    environment, pointer and symbol that the file's object mentions and everything that its own
    entries mention. The writer never leaves such a list. */
module Reachability {
  import opened Bytes
  import opened Objects
  import opened WriterSpec
  import opened ParserSpec
  import opened References
  import opened RoundTrip
  import opened FileRoundTrip
  import opened Coverage

  ghost predicate Closed(S: seq<Key>, f: File) { forall j :: 0 <= j < |S| ==> CoveredKey(S[j], f, S) }

  ghost predicate Supports(S: seq<Key>, f: File) { CoveredObject(f.object_, f, S) && Closed(S, f) }

  /** The two symbols that S4 objects bring up by name need not be in the table. */
  predicate Allowed(k: Key, S: seq<Key>) { k in S || k == Sym(CLASS_SYMBOL) || k == Sym(PACKAGE_SYMBOL) }

  /** Everything that has been written is in the list, except perhaps those two. */
  ghost predicate Inside(log: seq<Key>, S: seq<Key>) { forall k :: k in log ==> Allowed(k, S) }

  lemma ClosedAt(k: Key, S: seq<Key>, f: File)
    requires Closed(S, f) && k in S
    ensures CoveredKey(k, f, S)
  {
  }

  lemma EntryInside(k: Key, log: seq<Key>, S: seq<Key>)
    requires Inside(log, S) && Allowed(k, S)
    ensures Inside(log + [k], S)
  {
  }

  lemma SymbolInside(symbol: Symbol, f: File, s: Sink, S: seq<Key>)
    requires Inside(s.log, S) && Allowed(Sym(symbol), S) && EmitSymbol(symbol, f, s).Some?
    ensures Inside(EmitSymbol(symbol, f, s).value.log, S)
  {
    hide Extends, EmitText;
    if Sym(symbol) !in s.log { EntryInside(Sym(symbol), s.log, S); }
  }

  lemma {:induction false} ObjectInside(o: RObject, f: File, s: Sink, S: seq<Key>)
    requires Closed(S, f) && CoveredObject(o, f, S) && Inside(s.log, S) && EmitObject(o, f, s).Some?
    ensures Inside(EmitObject(o, f, s).value.log, S)
    decreases Budget(f, s.log), Size(o), 0
  {
    hide Extends, Unwritten, Closed, Inside, CoveredNamed, CoveredNodes, CoveredObjects, EmitSymbol, EmitEnvironment,
      EmitPointer, EmitVector, EmitNodes, EmitS4, EmitCall, EmitBuiltIn, EmitAtoms, EmitStringData,
      EmitAttributes;
    match o
    case Null =>
    case SymbolIndex(i) => SymbolInside(f.symbols[i], f, s, S);
    case EnvironmentIndex(e) => EnvironmentInside(e, f, s, S);
    case ExternalPointerIndex(i) => PointerInside(i, f, s, S);
    case AtomicVector(d, a) => NamedInside(a, f, EmitAtoms(d, AttributeFlags(a, f), s).value, S);
    case StringVector(xs, a) => NamedInside(a, f, EmitStringData(xs, AttributeFlags(a, f), s).value, S);
    case GenericVector(es, a) => VectorInside(VEC, es, a, f, s, S);
    case ExpressionVector(es, a) => VectorInside(EXPR, es, a, f, s, S);
    case PairList(ns, a) => NodesInside(a, ns, f, s, S);
    case S4Object(c, p, a) => S4Inside(c, p, a, f, s, S);
    case BuiltInFunction(_) =>
    case LanguageObject(i, ns, a) => CallInside(i, ns, a, f, s, S);
  }

  lemma {:induction false} VectorInside(code: byte, es: seq<RObject>, a: seq<Named>, f: File, s: Sink, S: seq<Key>)
    requires Closed(S, f) && CoveredObjects(es, f, S) && CoveredNamed(a, f, S)
    requires Inside(s.log, S) && EmitVector(code, es, a, f, s).Some?
    ensures Inside(EmitVector(code, es, a, f, s).value.log, S)
    decreases Budget(f, s.log), ObjectsSize(es) + NamedSize(a), 3
  {
    hide Before, NotShorter, NoDuplicates, Unwritten, Closed, Inside, CoveredNamed, CoveredObjects, EmitLength,
      EmitObjects, EmitAttributes;
    var t := EmitLength(|es|, EmitHeader(code, AttributeFlags(a, f), s)).value;
    ObjectsInside(es, f, t, S);
    NamedInside(a, f, EmitObjects(es, f, t).value, S);
  }

  lemma {:induction false} ObjectsInside(os: seq<RObject>, f: File, s: Sink, S: seq<Key>)
    requires Closed(S, f) && CoveredObjects(os, f, S) && Inside(s.log, S) && EmitObjects(os, f, s).Some?
    ensures Inside(EmitObjects(os, f, s).value.log, S)
    decreases Budget(f, s.log), ObjectsSize(os), 1
  {
    hide Before, NotShorter, NoDuplicates, Unwritten, Closed, Inside, CoveredObject, EmitObject;
    if os != [] {
      ObjectInside(os[0], f, s, S);
      ObjectsInside(os[1..], f, EmitObject(os[0], f, s).value, S);
    }
  }

  lemma {:induction false} NodesInside(a: seq<Named>, ns: seq<Node>, f: File, s: Sink, S: seq<Key>)
    requires Closed(S, f) && (ns != [] ==> CoveredNodes(ns, f, S) && CoveredNamed(a, f, S))
    requires Inside(s.log, S) && EmitNodes(a, ns, f, s).Some?
    ensures Inside(EmitNodes(a, ns, f, s).value.log, S)
    decreases Budget(f, s.log), NodesSize(ns) + NamedSize(a), 1
  {
    hide Before, NotShorter, NoDuplicates, Unwritten, Closed, Inside, CoveredObject, CoveredTag, EmitNode;
    if ns != [] {
      NodeInside(a, ns[0], f, s, S);
      NodesInside([], ns[1..], f, EmitNode(a, ns[0], f, s).value, S);
    }
  }

  lemma {:induction false} NodeInside(a: seq<Named>, n: Node, f: File, s: Sink, S: seq<Key>)
    requires Closed(S, f) && CoveredNamed(a, f, S) && CoveredTag(n.tag, f, S) && CoveredObject(n.value, f, S)
    requires Inside(s.log, S) && EmitNode(a, n, f, s).Some?
    ensures Inside(EmitNode(a, n, f, s).value.log, S)
    decreases Budget(f, s.log), 1 + Size(n.value) + NamedSize(a), 0
  {
    hide Before, NotShorter, NoDuplicates, Unwritten, Closed, Inside, CoveredObject, CoveredNamed, EmitAttributes,
      EmitSymbol, EmitObject;
    var t := EmitHeader(LIST, NodeFlags(a, n.tag), s);
    NamedInside(a, f, t, S);
    var u := EmitAttributes(a, f, t).value;
    if n.tag.Some? { SymbolInside(f.symbols[n.tag.value], f, u, S); }
    ObjectInside(n.value, f, EmitTag(n.tag, f, u).value, S);
  }

  lemma {:induction false} NamedInside(a: seq<Named>, f: File, s: Sink, S: seq<Key>)
    requires Closed(S, f) && CoveredNamed(a, f, S) && Inside(s.log, S)
    ensures EmitNodes([], AsNodes(a), f, s).Some? ==> Inside(EmitNodes([], AsNodes(a), f, s).value.log, S)
    ensures EmitAttributes(a, f, s).Some? ==> Inside(EmitAttributes(a, f, s).value.log, S)
    decreases Budget(f, s.log), NamedSize(a), 2
  {
    hide Extends, Unwritten, Closed, Inside, CoveredNodes, EmitNodes;
    AsNodesSize(a);
    CoveredAsNodes(a, f, S);
    if EmitNodes([], AsNodes(a), f, s).Some? { NodesInside([], AsNodes(a), f, s, S); }
  }

  lemma {:induction false} S4Inside(c: Symbol, p: Symbol, a: seq<Named>, f: File, s: Sink, S: seq<Key>)
    requires Closed(S, f) && CoveredNamed(a, f, S) && Inside(s.log, S) && EmitS4(c, p, a, f, s).Some?
    ensures Inside(EmitS4(c, p, a, f, s).value.log, S)
    decreases Budget(f, s.log), NamedSize(a), 3
  {
    hide Before, NotShorter, NoDuplicates, Unwritten, Closed, Inside, CoveredNamed, EmitSymbol, EmitStringData,
      EmitNodes;
    var h := EmitHeader(LIST, 4, Put(s, [0, 1, 3, S4]));
    SymbolInside(CLASS_SYMBOL, f, h, S);
    var u := EmitStringData([Present(c)], 2, EmitSymbol(CLASS_SYMBOL, f, h).value).value;
    SymbolInside(PACKAGE_SYMBOL, f, EmitHeader(LIST, 4, u), S);
    NamedInside(a, f, EmitS4Head(c, p, f, s).value, S);
  }

  lemma {:induction false} CallInside(i: nat, ns: seq<Node>, a: seq<Named>, f: File, s: Sink, S: seq<Key>)
    requires Closed(S, f) && CoveredSymbol(i, f, S) && CoveredNodes(ns, f, S) && CoveredNamed(a, f, S)
    requires Inside(s.log, S) && EmitCall(i, ns, a, f, s).Some?
    ensures Inside(EmitCall(i, ns, a, f, s).value.log, S)
    decreases Budget(f, s.log), NodesSize(ns) + NamedSize(a), 3
  {
    hide Before, NotShorter, NoDuplicates, Unwritten, Closed, Inside, CoveredNodes, EmitAttributes, EmitSymbol,
      EmitNodes;
    var t := EmitHeader(LANG, AttributeFlags(a, f), s);
    NamedInside(a, f, t, S);
    var u := EmitAttributes(a, f, t).value;
    SymbolInside(f.symbols[i], f, u, S);
    assert CoveredNamed([], f, S);
    NodesInside([], ns, f, EmitSymbolIndex(i, f, u).value, S);
  }

  lemma {:induction false} EnvironmentInside(e: EnvRef, f: File, s: Sink, S: seq<Key>)
    requires Closed(S, f) && CoveredRef(e, f, S) && Inside(s.log, S) && EmitEnvironment(e, f, s).Some?
    ensures Inside(EmitEnvironment(e, f, s).value.log, S)
    decreases Budget(f, s.log), 0, 1
  {
    hide Before, NotShorter, NoDuplicates, Unwritten, Closed, Inside, CoveredEnvironment, EmitEnvironmentBody;
    if e.Ordinary? && Env(e.index) !in s.log {
      var k, env := Env(e.index), f.environments[e.index];
      ClosedAt(k, S, f);
      EntryInside(k, s.log, S);
      EnvironmentBodyInside(env, f, EmitHeader(ENV, AttributeFlags(env.attributes, f), Register(f, s, k)), S);
    }
  }

  lemma {:induction false} EnvironmentBodyInside(e: Environment, f: File, s: Sink, S: seq<Key>)
    requires Closed(S, f) && CoveredEnvironment(e, f, S) && Inside(s.log, S) && EmitEnvironmentBody(e, f, s).Some?
    ensures Inside(EmitEnvironmentBody(e, f, s).value.log, S)
    decreases Budget(f, s.log), NamedSize(e.variables) + NamedSize(e.attributes), 4
  {
    hide Before, NotShorter, NoDuplicates, Unwritten, Closed, Inside, CoveredNamed, CoveredRef, EmitEnvironment,
      EmitNodes;
    var t := EmitInteger(if e.locked then 1 else 0, s);
    EnvironmentInside(e.parent, f, t, S);
    var u := EmitEnvironment(e.parent, f, t).value;
    NamedInside(e.variables, f, u, S);
    NamedInside(e.attributes, f, EmitHeader(NILVALUE, 0, EmitNodes([], AsNodes(e.variables), f, u).value), S);
  }

  lemma {:induction false} PointerInside(i: nat, f: File, s: Sink, S: seq<Key>)
    requires Closed(S, f) && i < |f.pointers| && Ptr(i) in S && Inside(s.log, S) && EmitPointer(i, f, s).Some?
    ensures Inside(EmitPointer(i, f, s).value.log, S)
    decreases Budget(f, s.log), 0, 1
  {
    hide Before, NotShorter, NoDuplicates, Unwritten, Closed, Inside, CoveredPointer, EmitPointerBody;
    if Ptr(i) !in s.log {
      var p := f.pointers[i];
      ClosedAt(Ptr(i), S, f);
      EntryInside(Ptr(i), s.log, S);
      PointerBodyInside(p, f, EmitHeader(EXTPTR, AttributeFlags(p.attributes, f), Register(f, s, Ptr(i))), S);
    }
  }

  lemma {:induction false} PointerBodyInside(p: ExternalPointer, f: File, s: Sink, S: seq<Key>)
    requires Closed(S, f) && CoveredPointer(p, f, S) && Inside(s.log, S) && EmitPointerBody(p, f, s).Some?
    ensures Inside(EmitPointerBody(p, f, s).value.log, S)
    decreases Budget(f, s.log), Size(p.protection.value) + Size(p.tag.value) + NamedSize(p.attributes), 4
  {
    hide Before, NotShorter, NoDuplicates, Unwritten, Closed, Inside, CoveredObject, CoveredNamed, EmitObject,
      EmitAttributes;
    ObjectInside(p.protection.value, f, s, S);
    var t := EmitObject(p.protection.value, f, s).value;
    ObjectInside(p.tag.value, f, t, S);
    NamedInside(p.attributes, f, EmitObject(p.tag.value, f, t).value, S);
  }

  /** The run of the writer stays inside any list that supports the file, and supports it itself. */
  lemma RunIsLeastSupport(f: File)
    requires EmitFile(f).Some?
    ensures Supports(EmitFile(f).value.log, f)
    ensures forall S :: Supports(S, f) ==> Inside(EmitFile(f).value.log, S)
  {
    hide CoveredObject, CoveredKey, EmitObject, Inside;
    FileCovered(f, EmitFile(f).value.log);
    forall S | Supports(S, f) ensures Inside(EmitFile(f).value.log, S) {
      NothingInside(S);
      ObjectInside(f.object_, f, FRESH, S);
    }
  }

  lemma NothingInside(S: seq<Key>)
    ensures Inside([], S)
  {
  }

  lemma KeySurvives(k: Key, log: seq<Key>, S: seq<Key>, f: File)
    requires k in log && Inside(log, S) && Representable(f, S)
    ensures CleanKey(k, f)
  {
  }

  // How many numbers a run gives.

  lemma {:induction false} CoveredMore(o: RObject, f: File, L: seq<Key>, M: seq<Key>)
    requires CoveredObject(o, f, L) && TableKeysKept(f, L, M)
    ensures CoveredObject(o, f, M)
    decreases o, 0
  {
    hide CoveredNamed, CoveredNodes, CoveredObjects;
    match o
    case AtomicVector(_, a) => CoveredMoreNamed(a, f, L, M);
    case StringVector(_, a) => CoveredMoreNamed(a, f, L, M);
    case GenericVector(es, a) => CoveredMoreObjects(es, f, L, M); CoveredMoreNamed(a, f, L, M);
    case ExpressionVector(es, a) => CoveredMoreObjects(es, f, L, M); CoveredMoreNamed(a, f, L, M);
    case PairList(ns, a) => if ns != [] { CoveredMoreNodes(ns, f, L, M); CoveredMoreNamed(a, f, L, M); }
    case S4Object(_, _, a) => CoveredMoreNamed(a, f, L, M);
    case LanguageObject(_, ns, a) => CoveredMoreNodes(ns, f, L, M); CoveredMoreNamed(a, f, L, M);
    case _ =>
  }

  lemma {:induction false} CoveredMoreObjects(os: seq<RObject>, f: File, L: seq<Key>, M: seq<Key>)
    requires CoveredObjects(os, f, L) && TableKeysKept(f, L, M)
    ensures CoveredObjects(os, f, M)
    decreases os, 0
  {
    hide CoveredObject, TableKeysKept;
    if os != [] {
      CoveredMore(os[0], f, L, M);
      CoveredMoreObjects(os[1..], f, L, M);
    }
  }

  lemma {:induction false} CoveredMoreNodes(ns: seq<Node>, f: File, L: seq<Key>, M: seq<Key>)
    requires CoveredNodes(ns, f, L) && TableKeysKept(f, L, M)
    ensures CoveredNodes(ns, f, M)
    decreases ns, 0
  {
    hide CoveredObject;
    if ns != [] {
      assert ns[0].value < ns[0];
      CoveredMore(ns[0].value, f, L, M);
      CoveredMoreNodes(ns[1..], f, L, M);
    }
  }

  lemma {:induction false} CoveredMoreNamed(ns: seq<Named>, f: File, L: seq<Key>, M: seq<Key>)
    requires CoveredNamed(ns, f, L) && TableKeysKept(f, L, M)
    ensures CoveredNamed(ns, f, M)
    decreases ns, 0
  {
    hide CoveredObject;
    if ns != [] {
      assert ns[0].value < ns[0];
      CoveredMore(ns[0].value, f, L, M);
      CoveredMoreNamed(ns[1..], f, L, M);
    }
  }

  /** All keys of the tables of a file. */
  function TableKeys(f: File): (keys: seq<Key>)
    ensures |keys| == |f.symbols| + |f.environments| + |f.pointers|
  {
    seq(|f.symbols|, i requires 0 <= i < |f.symbols| => Sym(f.symbols[i]))
    + seq(|f.environments|, i requires 0 <= i < |f.environments| => Env(i))
    + seq(|f.pointers|, i requires 0 <= i < |f.pointers| => Ptr(i))
  }

  ghost predicate TableKeysKept(f: File, L: seq<Key>, M: seq<Key>)
  {
    && (forall i :: 0 <= i < |f.symbols| && Sym(f.symbols[i]) in L ==> Sym(f.symbols[i]) in M)
    && (forall i :: 0 <= i < |f.environments| && Env(i) in L ==> Env(i) in M)
    && (forall i :: 0 <= i < |f.pointers| && Ptr(i) in L ==> Ptr(i) in M)
  }

  lemma TableKeysAre(f: File)
    ensures forall i :: 0 <= i < |f.symbols| ==> Sym(f.symbols[i]) in TableKeys(f)
    ensures forall i :: 0 <= i < |f.environments| ==> Env(i) in TableKeys(f)
    ensures forall i :: 0 <= i < |f.pointers| ==> Ptr(i) in TableKeys(f)
  {
    var keys, n, m := TableKeys(f), |f.symbols|, |f.symbols| + |f.environments|;
    assert forall i :: 0 <= i < |f.symbols| ==> keys[i] == Sym(f.symbols[i]);
    assert forall i :: 0 <= i < |f.environments| ==> keys[n + i] == Env(i);
    assert forall i :: 0 <= i < |f.pointers| ==> keys[m + i] == Ptr(i);
  }

  /** The part of a log that comes from the tables. */
  function Tabled(log: seq<Key>, f: File): (r: seq<Key>)
    ensures forall k :: k in r <==> k in log && k in TableKeys(f)
  {
    if log == [] then []
    else
      var rest := Tabled(log[1..], f);
      assert forall k :: k in log <==> k == log[0] || k in log[1..];
      if log[0] in TableKeys(f) then [log[0]] + rest else rest
  }

  lemma EntryMore(k: Key, f: File, L: seq<Key>, M: seq<Key>)
    requires CoveredKey(k, f, L) && TableKeysKept(f, L, M)
    ensures CoveredKey(k, f, M)
  {
    hide CoveredNamed, CoveredObject;
    match k
    case Sym(_) =>
    case Env(i) =>
      CoveredMoreNamed(f.environments[i].variables, f, L, M);
      CoveredMoreNamed(f.environments[i].attributes, f, L, M);
    case Ptr(i) =>
      CoveredMore(f.pointers[i].protection.value, f, L, M);
      CoveredMore(f.pointers[i].tag.value, f, L, M);
      CoveredMoreNamed(f.pointers[i].attributes, f, L, M);
  }

  /** Only entries of the tables are numbered, and perhaps the two symbols of S4 objects. */
  lemma OnlyTableKeys(f: File)
    requires EmitFile(f).Some?
    ensures forall k :: k in EmitFile(f).value.log ==> Allowed(k, TableKeys(f))
  {
    hide EmitFile, CoveredObject, CoveredKey, TableKeys;
    var log := EmitFile(f).value.log;
    var M := Tabled(log, f);
    FileCovered(f, log);
    TableKeysAre(f);
    assert TableKeysKept(f, log, M);
    CoveredMore(f.object_, f, log, M);
    forall j | 0 <= j < |M| ensures CoveredKey(M[j], f, M) {
      assert M[j] in log;
      EntryMore(M[j], f, log, M);
    }
    RunIsLeastSupport(f);
    assert Inside(log, M);
  }

  lemma {:induction false} Pigeonhole(a: seq<Key>, b: seq<Key>)
    requires NoDuplicates(a) && forall k :: k in a ==> k in b
    ensures |a| <= |b|
    decreases |a|
  {
    if a != [] {
      var n := |a| - 1;
      assert a[n] in a && a[n] in b;
      var j :| 0 <= j < |b| && b[j] == a[n];
      var rest := b[..j] + b[j + 1..];
      forall k | k in a[..n] ensures k in rest {
        assert k in a && k in b && k != a[n];
        var i :| 0 <= i < |b| && b[i] == k;
        assert if i < j then rest[i] == k else rest[i - 1] == k;
      }
      Pigeonhole(a[..n], rest);
    }
  }

  function TableSize(f: File): nat { |f.symbols| + |f.environments| + |f.pointers| + 2 }

  /** A run gives at most as many numbers as there are table entries and two more. */
  lemma FewNumbers(f: File)
    requires EmitFile(f).Some?
    ensures EmitFile(f).value.top <= |EmitFile(f).value.log| <= TableSize(f)
  {
    hide EmitObject, TableKeys, NoDuplicates;
    var keys := TableKeys(f) + [Sym(CLASS_SYMBOL), Sym(PACKAGE_SYMBOL)];
    OnlyTableKeys(f);
    forall k | k in EmitFile(f).value.log ensures k in keys {
      assert Allowed(k, TableKeys(f));
      assert keys[|TableKeys(f)|] == Sym(CLASS_SYMBOL) && keys[|TableKeys(f)| + 1] == Sym(PACKAGE_SYMBOL);
    }
    Pigeonhole(EmitFile(f).value.log, keys);
  }

  // Which files survive.

  /** A written file in which no reference has a number of 2^24 or more is read back if and only if some list
      supports it in which every environment has a variable and nothing has a slot called "class".
      Entries that are never reached do not matter. */
  lemma SurvivesIfReferencesFit(f: File, T: seq<byte>)
    requires EmitFile(f).Some? && EmitFile(f).value.out <= T && EmitFile(f).value.top < REFERENCE_LIMIT
    ensures ParseFile(T).Ok? <==> exists S :: Supports(S, f) && Representable(f, S)
  {
    hide EmitFile, ParseFile, Supports, CleanKey, CleanObject, RenameObject, Mirror;
    var log := EmitFile(f).value.log;
    RoundTripExactly(f, T);
    RunIsLeastSupport(f);
    forall S | Supports(S, f) && Representable(f, S) ensures Representable(f, log) {
      forall j | 0 <= j < |log| ensures CleanKey(log[j], f) { KeySurvives(log[j], log, S, f); }
    }
  }

  /** The same for a file whose tables are small enough: nothing is said of the writer's run any more. */
  lemma SurvivesExactly(f: File, T: seq<byte>)
    requires EmitFile(f).Some? && EmitFile(f).value.out <= T && TableSize(f) < REFERENCE_LIMIT
    ensures ParseFile(T).Ok? <==> exists S :: Supports(S, f) && Representable(f, S)
  {
    hide EmitFile, ParseFile, Supports, Representable, TableSize;
    FewNumbers(f);
    SurvivesIfReferencesFit(f, T);
  }

  /** Every environment of the table has a variable and nothing anywhere has a slot called "class". */
  ghost predicate CleanFile(f: File)
  {
    && CleanObject(f.object_, f)
    && (forall i :: 0 <= i < |f.environments| ==> CleanKey(Env(i), f))
    && (forall i :: 0 <= i < |f.pointers| ==> CleanKey(Ptr(i), f))
  }

  /** A domain that can be checked before writing: on these files, with anything after them, nothing is lost but
      what the renaming says. */
  lemma CleanFilesSurvive(f: File, rest: seq<byte>)
    requires WritableFile(f) && CleanFile(f) && TableSize(f) < REFERENCE_LIMIT
    ensures EmitFile(f).Some?
    ensures ParseFile(EmitFile(f).value.out + rest)
         == (var t := EmitFile(f).value;
             Ok(RenameObject(f.object_, f, t.log), |t.out|, Mirror(t.log, {}, f, t.log)))
  {
    hide EmitFile, ParseFile, RenameObject, Mirror, CleanObject, WritableFile, TableSize;
    WriterSucceeds(f);
    FewNumbers(f);
    RoundTripExactly(f, EmitFile(f).value.out + rest);
    var log := EmitFile(f).value.log;
    forall j | 0 <= j < |log| ensures CleanKey(log[j], f) {
      assert log[j].Sym? || log[j] == Env(log[j].index) || log[j] == Ptr(log[j].index);
    }
  }
}
