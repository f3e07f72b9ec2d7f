/** The round trip of a whole file: when it succeeds, what comes back, and what the renaming of
    table entries is. */
module FileRoundTrip {
  import opened Bytes
  import opened Objects
  import opened WriterSpec
  import opened ParserSpec
  import opened ItemRoundTrip
  import opened References
  import opened RoundTrip

  /** Everything that was written can be represented: no slot called "class" in an S4 object and no
      environment without variables. */
  ghost predicate Representable(f: File, log: seq<Key>)
  {
    CleanObject(f.object_, f) && forall j :: 0 <= j < |log| ==> CleanKey(log[j], f)
  }

  /** Parsing what was written, followed by anything at all, gives the original object up to the
      renaming and stops right after it, if what was written is representable, and fails if it is
      not. */
  lemma RoundTripExactly(f: File, T: seq<byte>)
    requires EmitFile(f).Some? && EmitFile(f).value.out <= T
    requires EmitFile(f).value.top < REFERENCE_LIMIT
    ensures ParseFile(T)
         == (var t := EmitFile(f).value;
             if Representable(f, t.log)
             then Ok(RenameObject(f.object_, f, t.log), |t.out|, Mirror(t.log, {}, f, t.log))
             else Fail)
  {
    var t := EmitFile(f).value;
    var c := Run(f, t.(out := T));
    ObjectTrip(f.object_, FRESH, t, {}, c);
  }

  /** A back reference leads the parser to the entity that the writer meant exactly when its number fits
      in 24 bits: a larger one leads to another entity or to none. */
  lemma {:induction false} ReferenceResolves(k: Key, s: Sink, open: set<Key>, f: File, end: Sink)
    requires NoDuplicates(end.log) && k in s.log && Before(EmitReference(k, s), end)
    ensures |s.out| + 4 <= |end.out|
    ensures Lookup(end.out, |s.out|, Mirror(s.log, open, f, end.log)) == Some(Mapping(KindOf(k), Rank(end.log, k)))
       <==> Position(s.log, k) + 1 < REFERENCE_LIMIT
  {
    hide Mirror, NoDuplicates, Rank, ReferenceHeader, Position;
    var log, j := s.log, Position(s.log, k);
    HeaderTrip(s, ReferenceHeader(j + 1), end);
    ReferenceInverts(j + 1);
    PrefixDistinct(log, end.log);
    RankStable(log, end.log, k);
    var seen := (j + 1) % REFERENCE_LIMIT;
    MirrorSizes(log, open, f, end.log);
    if 0 < seen { OnlyItsNumber(k, seen, log, open, f, end.log); }
  }

  /** Among the numbers given so far only that of an entity is mapped to its kind and index. */
  lemma {:induction false} OnlyItsNumber(k: Key, number: nat, log: seq<Key>, open: set<Key>, f: File, L: seq<Key>)
    requires NoDuplicates(log) && k in log && 0 < number <= |log|
    ensures var m := Mirror(log, open, f, L);
            |m.mappings| == |log|
            && (m.mappings[number - 1] == Mapping(KindOf(k), Rank(log, k)) <==> number == Position(log, k) + 1)
  {
    hide Mirror, NoDuplicates;
    var seen := log[number - 1];
    MirrorAt(log, number - 1, open, f, L);
    PositionIs(log, number - 1);
    if KindOf(seen) == KindOf(k) { RenamingIsConsistent(f, log, k, seen); }
  }

  /** The renaming is one-to-one on the entities of each kind and onto the tables, and row
      `Rank(L, k)` of a table is the renamed entry for `k`. Two symbols of the file get the same
      index exactly when they have the same name and encoding. */
  lemma {:induction false} RenamingIsConsistent(f: File, L: seq<Key>, k: Key, k': Key)
    requires NoDuplicates(L) && k in L && k' in L && KindOf(k) == KindOf(k')
    ensures Rank(L, k) == Rank(L, k') <==> k == k'
    ensures Rank(L, k) < Count(L, KindOf(k))
    ensures Holds(Mirror(L, {}, f, L), k, Rank(L, k), {}, f, L)
  {
    RankStable(L, L, k);
    RankStable(L, L, k');
    var i, j := Position(L, k), Position(L, k');
    if i < j { CountGrows(L, i, j); }
    if j < i { CountGrows(L, j, i); }
    CountGrows(L, i, |L|);
    assert L[..|L|] == L;
    MirrorAt(L, i, {}, f, L);
  }

  lemma {:induction false} CountGrows(log: seq<Key>, i: nat, j: nat)
    requires i < j <= |log|
    ensures Count(log[..i], KindOf(log[i])) < Count(log[..j], KindOf(log[i]))
    decreases j
  {
    assert log[..j][..j - 1] == log[..j - 1];
    if i < j - 1 { CountGrows(log, i, j - 1); }
  }

  /** No table has a row that does not stand for something that was written. */
  lemma {:induction false} RenamingIsOnto(L: seq<Key>, kind: Kind, r: nat) returns (k: Key)
    requires NoDuplicates(L) && r < Count(L, kind)
    ensures k in L && KindOf(k) == kind && Rank(L, k) == r
  {
    var n := |L| - 1;
    if r < Count(L[..n], kind) {
      k := RenamingIsOnto(L[..n], kind, r);
      RankStable(L[..n], L, k);
    } else {
      k := L[n];
      PositionIs(L, n);
    }
  }

  // When the writer succeeds.

  predicate WritableObject(o: RObject, f: File)
  {
    match o
    case Null => true
    case SymbolIndex(i) => i < |f.symbols|
    case EnvironmentIndex(e) => WritableRef(e, f)
    case ExternalPointerIndex(i) => i < |f.pointers|
    case AtomicVector(d, a) => AtomCount(d) < SIZE_LIMIT && WritableNamed(a, f)
    case StringVector(xs, a) =>
      && |xs| < SIZE_LIMIT
      && (forall j :: 0 <= j < |xs| ==> xs[j].value.Some? ==> |xs[j].value.value| <= INT32_MAX)
      && WritableNamed(a, f)
    case GenericVector(es, a) => |es| < SIZE_LIMIT && WritableObjects(es, f) && WritableNamed(a, f)
    case ExpressionVector(es, a) => |es| < SIZE_LIMIT && WritableObjects(es, f) && WritableNamed(a, f)
    case PairList(ns, a) => WritableNodes(ns, f) && WritableNamed(a, f)
    case S4Object(c, p, a) => |c.name| <= INT32_MAX && |p.name| <= INT32_MAX && WritableNamed(a, f)
    case BuiltInFunction(name) => |name| < SIZE_LIMIT
    case LanguageObject(i, ns, a) => i < |f.symbols| && WritableNodes(ns, f) && WritableNamed(a, f)
  }

  predicate WritableRef(e: EnvRef, f: File) { e.Ordinary? ==> e.index < |f.environments| }

  predicate WritableObjects(os: seq<RObject>, f: File)
  {
    os == [] || (WritableObject(os[0], f) && WritableObjects(os[1..], f))
  }

  predicate WritableNodes(ns: seq<Node>, f: File)
  {
    ns == [] ||
    (assert ns[0].value < ns[0];
     (ns[0].tag.Some? ==> ns[0].tag.value < |f.symbols|) && WritableObject(ns[0].value, f) && WritableNodes(ns[1..], f))
  }

  predicate WritableNamed(ns: seq<Named>, f: File)
  {
    ns == [] ||
    (assert ns[0].value < ns[0];
     ns[0].name < |f.symbols| && WritableObject(ns[0].value, f) && WritableNamed(ns[1..], f))
  }

  predicate WritableEnvironment(e: Environment, f: File)
  {
    WritableRef(e.parent, f) && WritableNamed(e.variables, f) && WritableNamed(e.attributes, f)
  }

  predicate WritablePointer(p: ExternalPointer, f: File)
  {
    && p.protection.Some? && WritableObject(p.protection.value, f)
    && p.tag.Some? && WritableObject(p.tag.value, f)
    && WritableNamed(p.attributes, f)
  }

  /** Every index is in range, every pointer is set and no string is too long. */
  predicate WritableFile(f: File)
  {
    && WritableObject(f.object_, f)
    && (forall i :: 0 <= i < |f.symbols| ==> |f.symbols[i].name| <= INT32_MAX)
    && (forall i :: 0 <= i < |f.environments| ==> WritableEnvironment(f.environments[i], f))
    && (forall i :: 0 <= i < |f.pointers| ==> WritablePointer(f.pointers[i], f))
  }

  lemma {:induction false} WritableAsNodes(ns: seq<Named>, f: File)
    ensures WritableNodes(AsNodes(ns), f) == WritableNamed(ns, f)
  {
    if ns != [] {
      WritableAsNodes(ns[1..], f);
      assert AsNodes(ns)[1..] == AsNodes(ns[1..]);
    }
  }

  lemma {:induction false} StringsSucceed(xs: seq<RString>, s: Sink)
    requires forall j :: 0 <= j < |xs| ==> xs[j].value.Some? ==> |xs[j].value.value| <= INT32_MAX
    ensures EmitStrings(xs, s).Some?
  {
    if xs != [] { StringsSucceed(xs[1..], EmitString(xs[0], s).value); }
  }

  /** The writer never fails on such a file, however cyclic it is. */
  lemma WriterSucceeds(f: File)
    requires WritableFile(f)
    ensures EmitFile(f).Some?
  {
    ObjectSucceeds(f.object_, f, FRESH);
  }

  lemma {:induction false} ObjectSucceeds(o: RObject, f: File, s: Sink)
    requires WritableFile(f) && WritableObject(o, f)
    ensures EmitObject(o, f, s).Some?
    decreases Budget(f, s.log), Size(o), 0
  {
    hide Extends, WritableFile, EmitVector, EmitNodes, EmitS4, EmitCall, EmitEnvironment, EmitPointer, EmitAttributes;
    match o
    case Null =>
    case SymbolIndex(i) => SymbolSucceeds(i, f, s);
    case EnvironmentIndex(e) => EnvironmentSucceeds(e, f, s);
    case ExternalPointerIndex(i) => PointerSucceeds(i, f, s);
    case AtomicVector(d, a) => NamedSucceeds(a, f, EmitAtoms(d, AttributeFlags(a, f), s).value);
    case StringVector(xs, a) =>
      StringsSucceed(xs, EmitLength(|xs|, EmitHeader(STR, AttributeFlags(a, f), s)).value);
      NamedSucceeds(a, f, EmitStringData(xs, AttributeFlags(a, f), s).value);
    case GenericVector(es, a) => VectorSucceeds(VEC, es, a, f, s);
    case ExpressionVector(es, a) => VectorSucceeds(EXPR, es, a, f, s);
    case PairList(ns, a) => NodesSucceed(a, ns, f, s);
    case S4Object(c, p, a) => S4Succeeds(c, p, a, f, s);
    case BuiltInFunction(name) =>
    case LanguageObject(i, ns, a) => CallSucceeds(i, ns, a, f, s);
  }

  lemma SymbolSucceeds(i: nat, f: File, s: Sink)
    requires WritableFile(f) && i < |f.symbols|
    ensures EmitSymbolIndex(i, f, s).Some?
  {
  }

  lemma {:induction false} S4Succeeds(c: Symbol, p: Symbol, a: seq<Named>, f: File, s: Sink)
    requires WritableFile(f) && |c.name| <= INT32_MAX && |p.name| <= INT32_MAX && WritableNamed(a, f)
    ensures EmitS4(c, p, a, f, s).Some?
    decreases Budget(f, s.log), NamedSize(a), 3
  {
    hide Before, NotShorter, NoDuplicates, Unwritten, EmitNodes, WritableFile;
    var t := EmitSymbol(CLASS_SYMBOL, f, EmitHeader(LIST, 4, Put(s, [0, 1, 3, S4]))).value;
    StringsSucceed([Present(c)], EmitLength(1, EmitHeader(STR, 2, t)).value);
    var u := EmitStringData([Present(c)], 2, t).value;
    PackageSucceeds(p, f, u);
    NamedSucceeds(a, f, EmitPackage(p, f, u).value);
  }

  lemma PackageSucceeds(p: Symbol, f: File, s: Sink)
    requires |p.name| <= INT32_MAX
    ensures EmitPackage(p, f, s).Some?
  {
    hide Before, NotShorter, NoDuplicates, Unwritten;
    var t := EmitSymbol(PACKAGE_SYMBOL, f, EmitHeader(LIST, 4, s)).value;
    StringsSucceed([Present(p)], EmitLength(1, EmitHeader(STR, 0, t)).value);
  }

  lemma {:induction false} CallSucceeds(i: nat, ns: seq<Node>, a: seq<Named>, f: File, s: Sink)
    requires WritableFile(f) && i < |f.symbols| && WritableNodes(ns, f) && WritableNamed(a, f)
    ensures EmitCall(i, ns, a, f, s).Some?
    decreases Budget(f, s.log), NodesSize(ns) + NamedSize(a), 3
  {
    hide Before, NotShorter, NoDuplicates, Unwritten, EmitNodes, EmitAttributes, EmitSymbolIndex, WritableFile;
    var t := EmitHeader(LANG, AttributeFlags(a, f), s);
    NamedSucceeds(a, f, t);
    var u := EmitAttributes(a, f, t).value;
    SymbolSucceeds(i, f, u);
    NodesSucceed([], ns, f, EmitSymbolIndex(i, f, u).value);
  }

  lemma {:induction false} VectorSucceeds(code: byte, es: seq<RObject>, a: seq<Named>, f: File, s: Sink)
    requires WritableFile(f) && |es| < SIZE_LIMIT && WritableObjects(es, f) && WritableNamed(a, f)
    ensures EmitVector(code, es, a, f, s).Some?
    decreases Budget(f, s.log), ObjectsSize(es) + NamedSize(a), 3
  {
    hide Before, NotShorter, NoDuplicates, Unwritten, EmitObjects, EmitAttributes, WritableFile;
    var t := EmitLength(|es|, EmitHeader(code, AttributeFlags(a, f), s)).value;
    ObjectsSucceed(es, f, t);
    NamedSucceeds(a, f, EmitObjects(es, f, t).value);
  }

  lemma {:induction false} ObjectsSucceed(os: seq<RObject>, f: File, s: Sink)
    requires WritableFile(f) && WritableObjects(os, f)
    ensures EmitObjects(os, f, s).Some?
    decreases Budget(f, s.log), ObjectsSize(os), 1
  {
    hide Before, NotShorter, NoDuplicates, Unwritten, EmitObject, WritableFile;
    if os != [] {
      ObjectSucceeds(os[0], f, s);
      ObjectsSucceed(os[1..], f, EmitObject(os[0], f, s).value);
    }
  }

  lemma {:induction false} NodesSucceed(a: seq<Named>, ns: seq<Node>, f: File, s: Sink)
    requires WritableFile(f) && WritableNodes(ns, f) && WritableNamed(a, f)
    ensures EmitNodes(a, ns, f, s).Some?
    decreases Budget(f, s.log), NodesSize(ns) + NamedSize(a), 1
  {
    hide Before, NotShorter, NoDuplicates, Unwritten, EmitNode, WritableFile, WritableObject;
    if ns != [] {
      NodeSucceeds(a, ns[0], f, s);
      NodesSucceed([], ns[1..], f, EmitNode(a, ns[0], f, s).value);
    }
  }

  lemma {:induction false} NodeSucceeds(a: seq<Named>, n: Node, f: File, s: Sink)
    requires WritableFile(f) && WritableNamed(a, f)
    requires (n.tag.Some? ==> n.tag.value < |f.symbols|) && WritableObject(n.value, f)
    ensures EmitNode(a, n, f, s).Some?
    decreases Budget(f, s.log), 1 + Size(n.value) + NamedSize(a), 0
  {
    hide Before, NotShorter, NoDuplicates, Unwritten, EmitObject, EmitAttributes, EmitSymbolIndex, WritableFile,
      WritableObject;
    var t := EmitHeader(LIST, NodeFlags(a, n.tag), s);
    NamedSucceeds(a, f, t);
    var u := EmitAttributes(a, f, t).value;
    if n.tag.Some? { SymbolSucceeds(n.tag.value, f, u); }
    ObjectSucceeds(n.value, f, EmitTag(n.tag, f, u).value);
  }

  lemma {:induction false} NamedSucceeds(a: seq<Named>, f: File, s: Sink)
    requires WritableFile(f) && WritableNamed(a, f)
    ensures EmitNodes([], AsNodes(a), f, s).Some? && EmitAttributes(a, f, s).Some?
    decreases Budget(f, s.log), NamedSize(a), 2
  {
    hide EmitNodes, WritableFile;
    AsNodesSize(a);
    WritableAsNodes(a, f);
    NodesSucceed([], AsNodes(a), f, s);
  }

  lemma {:induction false} EnvironmentSucceeds(e: EnvRef, f: File, s: Sink)
    requires WritableFile(f) && WritableRef(e, f)
    ensures EmitEnvironment(e, f, s).Some?
    decreases Budget(f, s.log), 0, 1
  {
    hide Before, NotShorter, NoDuplicates, Unwritten, EmitEnvironmentBody;
    if e.Ordinary? && Env(e.index) !in s.log {
      var env := f.environments[e.index];
      assert WritableEnvironment(env, f);
      EnvironmentBodySucceeds(env, f, EmitHeader(ENV, AttributeFlags(env.attributes, f), Register(f, s, Env(e.index))));
    }
  }

  lemma {:induction false} EnvironmentBodySucceeds(e: Environment, f: File, s: Sink)
    requires WritableFile(f) && WritableEnvironment(e, f)
    ensures EmitEnvironmentBody(e, f, s).Some?
    decreases Budget(f, s.log), NamedSize(e.variables) + NamedSize(e.attributes), 4
  {
    hide Before, NotShorter, NoDuplicates, Unwritten, EmitEnvironment, EmitNodes, WritableFile, WritableNamed;
    var t := EmitInteger(if e.locked then 1 else 0, s);
    EnvironmentSucceeds(e.parent, f, t);
    var u := EmitEnvironment(e.parent, f, t).value;
    NamedSucceeds(e.variables, f, u);
    NamedSucceeds(e.attributes, f, EmitHeader(NILVALUE, 0, EmitNodes([], AsNodes(e.variables), f, u).value));
  }

  lemma {:induction false} PointerSucceeds(i: nat, f: File, s: Sink)
    requires WritableFile(f) && i < |f.pointers|
    ensures EmitPointer(i, f, s).Some?
    decreases Budget(f, s.log), 0, 1
  {
    hide Before, NotShorter, NoDuplicates, Unwritten, EmitPointerBody;
    if Ptr(i) !in s.log {
      var p := f.pointers[i];
      assert WritablePointer(p, f);
      PointerBodySucceeds(p, f, EmitHeader(EXTPTR, AttributeFlags(p.attributes, f), Register(f, s, Ptr(i))));
    }
  }

  lemma {:induction false} PointerBodySucceeds(p: ExternalPointer, f: File, s: Sink)
    requires WritableFile(f) && WritablePointer(p, f)
    ensures EmitPointerBody(p, f, s).Some?
    decreases Budget(f, s.log), Size(p.protection.value) + Size(p.tag.value) + NamedSize(p.attributes), 4
  {
    hide Before, NotShorter, NoDuplicates, Unwritten, EmitObject, EmitAttributes, WritableFile, WritableNamed,
      WritableObject;
    ObjectSucceeds(p.protection.value, f, s);
    var t := EmitObject(p.protection.value, f, s).value;
    ObjectSucceeds(p.tag.value, f, t);
    NamedSucceeds(p.attributes, f, EmitObject(p.tag.value, f, t).value);
  }
}
