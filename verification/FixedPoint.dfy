/** What happens when a parsed file is written again, and what the writer's output does not depend
    on. */
module FixedPoint {
  import opened Bytes
  import opened Objects
  import opened WriterSpec
  import opened ParserSpec
  import opened References
  import opened RoundTrip
  import opened FileRoundTrip
  import opened ParserSafety
  import opened ParserRuns
  import opened Coverage
  import opened Correspondence

  // Independence of symbol numbers.

  predicate IsIndex(i: nat) { 0 <= i }

  ghost function Identity(): imap<nat, nat> { imap i: nat | IsIndex(i) :: i }

  lemma {:induction false} MapIdentity(log: seq<Key>, m: Match)
    requires m.env == Identity() && m.ptr == Identity()
    ensures MapLog(log, m) == log
  {
    if log != [] { MapIdentity(log[..|log| - 1], m); }
  }

  /** Two files whose objects agree once every symbol index is replaced by the name and encoding it
      stands for are written to the same bytes, with the same numbers, however their symbols are
      numbered and however often they are listed. */
  lemma SymbolNumbersDoNotMatter(f: File, g: File)
    requires FilesMatch(Match(f, g, Identity(), Identity(), true))
    requires SameObject(f.object_, g.object_, Match(f, g, Identity(), Identity(), true))
    ensures EmitFile(g) == EmitFile(f)
  {
    var m := Match(f, g, Identity(), Identity(), true);
    ObjectSame(f.object_, g.object_, FRESH, FRESH, m);
    if EmitFile(f).Some? { MapIdentity(EmitFile(f).value.log, m); }
  }

  // Every missing string carries the default encoding.

  ghost predicate TaggedObject(o: RObject)
  {
    match o
    case AtomicVector(_, a) => TaggedNamed(a)
    case StringVector(xs, a) => NormalStrings(xs) == xs && TaggedNamed(a)
    case GenericVector(es, a) => TaggedObjects(es) && TaggedNamed(a)
    case ExpressionVector(es, a) => TaggedObjects(es) && TaggedNamed(a)
    case PairList(ns, a) => TaggedNodes(ns) && TaggedNamed(a)
    case S4Object(_, _, a) => TaggedNamed(a)
    case LanguageObject(_, ns, a) => TaggedNodes(ns) && TaggedNamed(a)
    case _ => true
  }

  ghost predicate TaggedObjects(os: seq<RObject>) { os == [] || (TaggedObject(os[0]) && TaggedObjects(os[1..])) }

  ghost predicate TaggedNodes(ns: seq<Node>)
  {
    ns == [] || (assert ns[0].value < ns[0]; TaggedObject(ns[0].value) && TaggedNodes(ns[1..]))
  }

  ghost predicate TaggedNamed(ns: seq<Named>)
  {
    ns == [] || (assert ns[0].value < ns[0]; TaggedObject(ns[0].value) && TaggedNamed(ns[1..]))
  }

  ghost predicate TaggedFile(f: File)
  {
    && TaggedObject(f.object_)
    && (forall i :: 0 <= i < |f.environments| ==>
          TaggedNamed(f.environments[i].variables) && TaggedNamed(f.environments[i].attributes))
    && (forall i :: 0 <= i < |f.pointers| ==>
          var p := f.pointers[i];
          && (p.protection.Some? ==> TaggedObject(p.protection.value))
          && (p.tag.Some? ==> TaggedObject(p.tag.value))
          && TaggedNamed(p.attributes))
  }

  // A file and what is parsed from its bytes.

  /** What the round trip theorem says is parsed from the bytes of `f`. */
  ghost function Parsed(f: File, L: seq<Key>): File
  {
    ToFile(RenameObject(f.object_, f, L), Mirror(L, {}, f, L))
  }

  ghost function Renaming(f: File, L: seq<Key>, exact: bool): Match
  {
    Match(f, Parsed(f, L),
          imap i: nat | Env(i) in L :: Rank(L, Env(i)),
          imap i: nat | Ptr(i) in L :: Rank(L, Ptr(i)), exact)
  }

  lemma {:induction false} CoveredName(i: nat, f: File, L: seq<Key>, exact: bool)
    requires NoDuplicates(L) && CoveredSymbol(i, f, L)
    ensures SameName(i, RenameSymbol(i, f, L), Renaming(f, L, exact))
  {
    var k := Sym(f.symbols[i]);
    RenamingIsConsistent(f, L, k, k);
  }

  lemma {:induction false} CoveredSame(o: RObject, f: File, L: seq<Key>, exact: bool)
    requires NoDuplicates(L) && CoveredObject(o, f, L) && (exact ==> TaggedObject(o))
    ensures SameObject(o, RenameObject(o, f, L), Renaming(f, L, exact))
    decreases o, 0
  {
    hide NoDuplicates, Parsed, SameName, CoveredSymbol, RenameSymbol, Rank, CoveredNamed, RenameNamed, SameNamed,
      TaggedNamed, CoveredNodes, RenameNodes, SameNodes, TaggedNodes, CoveredObjects, RenameObjects, SameObjects,
      TaggedObjects;
    match o
    case Null =>
    case SymbolIndex(i) => CoveredName(i, f, L, exact);
    case EnvironmentIndex(e) =>
    case ExternalPointerIndex(i) =>
    case AtomicVector(_, a) => CoveredSameNamed(a, f, L, exact);
    case StringVector(xs, a) =>
      CoveredSameNamed(a, f, L, exact);
      NormalTwice(xs);
    case GenericVector(es, a) => CoveredSameObjects(es, f, L, exact); CoveredSameNamed(a, f, L, exact);
    case ExpressionVector(es, a) => CoveredSameObjects(es, f, L, exact); CoveredSameNamed(a, f, L, exact);
    case PairList(ns, a) => if ns != [] { CoveredSameNodes(ns, f, L, exact); CoveredSameNamed(a, f, L, exact); }
    case S4Object(_, _, a) => CoveredSameNamed(a, f, L, exact);
    case BuiltInFunction(_) =>
    case LanguageObject(i, ns, a) =>
      CoveredName(i, f, L, exact);
      CoveredSameNodes(ns, f, L, exact);
      CoveredSameNamed(a, f, L, exact);
  }

  lemma {:induction false} NormalTwice(xs: seq<RString>)
    ensures NormalStrings(NormalStrings(xs)) == NormalStrings(xs)
  {
    if xs != [] {
      NormalTwice(xs[1..]);
      assert NormalStrings(xs)[1..] == NormalStrings(xs[1..]);
    }
  }

  lemma {:induction false} CoveredSameObjects(os: seq<RObject>, f: File, L: seq<Key>, exact: bool)
    requires NoDuplicates(L) && CoveredObjects(os, f, L) && (exact ==> TaggedObjects(os))
    ensures SameObjects(os, RenameObjects(os, f, L), Renaming(f, L, exact))
    decreases os, 0
  {
    hide NoDuplicates, Renaming, CoveredObject, RenameObject, SameObject, TaggedObject;
    if os != [] {
      CoveredSame(os[0], f, L, exact);
      CoveredSameObjects(os[1..], f, L, exact);
      assert RenameObjects(os, f, L)[1..] == RenameObjects(os[1..], f, L);
    }
  }

  lemma {:induction false} CoveredSameNodes(ns: seq<Node>, f: File, L: seq<Key>, exact: bool)
    requires NoDuplicates(L) && CoveredNodes(ns, f, L) && (exact ==> TaggedNodes(ns))
    ensures SameNodes(ns, RenameNodes(ns, f, L), Renaming(f, L, exact))
    decreases ns, 0
  {
    hide NoDuplicates, Renaming, CoveredObject, RenameObject, SameObject, TaggedObject, SameName, CoveredSymbol,
      RenameSymbol;
    if ns != [] {
      assert ns[0].value < ns[0];
      CoveredSame(ns[0].value, f, L, exact);
      if ns[0].tag.Some? { CoveredName(ns[0].tag.value, f, L, exact); }
      CoveredSameNodes(ns[1..], f, L, exact);
      assert RenameNodes(ns, f, L)[1..] == RenameNodes(ns[1..], f, L);
    }
  }

  lemma {:induction false} CoveredSameNamed(ns: seq<Named>, f: File, L: seq<Key>, exact: bool)
    requires NoDuplicates(L) && CoveredNamed(ns, f, L) && (exact ==> TaggedNamed(ns))
    ensures SameNamed(ns, RenameNamed(ns, f, L), Renaming(f, L, exact))
    decreases ns, 0
  {
    hide NoDuplicates, Renaming, CoveredObject, RenameObject, SameObject, TaggedObject, SameName, CoveredSymbol,
      RenameSymbol;
    if ns != [] {
      assert ns[0].value < ns[0];
      CoveredSame(ns[0].value, f, L, exact);
      CoveredName(ns[0].name, f, L, exact);
      CoveredSameNamed(ns[1..], f, L, exact);
      assert RenameNamed(ns, f, L)[1..] == RenameNamed(ns[1..], f, L);
    }
  }

  /** The parsed file is the original one under the renaming. */
  lemma {:induction false} ParsedMatches(f: File, L: seq<Key>, exact: bool)
    requires EmitFile(f).Some? && EmitFile(f).value.log == L && (exact ==> TaggedFile(f))
    ensures FilesMatch(Renaming(f, L, exact))
    ensures SameObject(f.object_, Parsed(f, L).object_, Renaming(f, L, exact))
  {
    hide SameObject, RenameObject, CoveredObject, TaggedObject, CoveredNamed, RenameNamed, TaggedNamed, SameNamed,
      EmitFile, Mirror, Rank, NoDuplicates;
    var m := Renaming(f, L, exact);
    FileCovered(f, L);
    EmitFileDistinct(f);
    CoveredSame(f.object_, f, L, exact);
    forall i | i in m.env
      ensures i < |f.environments| && m.env[i] < |m.g.environments|
      ensures SameEnvironment(f.environments[i], m.g.environments[m.env[i]], m)
    {
      EntryCovered(Env(i), f, L);
      RenamingIsConsistent(f, L, Env(i), Env(i));
      CoveredSameNamed(f.environments[i].variables, f, L, exact);
      CoveredSameNamed(f.environments[i].attributes, f, L, exact);
    }
    forall i | i in m.ptr
      ensures i < |f.pointers| && m.ptr[i] < |m.g.pointers|
      ensures SamePointer(f.pointers[i], m.g.pointers[m.ptr[i]], m)
    {
      EntryCovered(Ptr(i), f, L);
      RenamingIsConsistent(f, L, Ptr(i), Ptr(i));
      CoveredSame(f.pointers[i].protection.value, f, L, exact);
      CoveredSame(f.pointers[i].tag.value, f, L, exact);
      CoveredSameNamed(f.pointers[i].attributes, f, L, exact);
    }
    forall i, j | i in m.env && j in m.env && m.env[i] == m.env[j] ensures i == j {
      RenamingIsConsistent(f, L, Env(i), Env(j));
    }
    forall i, j | i in m.ptr && j in m.ptr && m.ptr[i] == m.ptr[j] ensures i == j {
      RenamingIsConsistent(f, L, Ptr(i), Ptr(j));
    }
  }

  lemma EmitFileDistinct(f: File)
    requires EmitFile(f).Some?
    ensures NoDuplicates(EmitFile(f).value.log)
  {
  }

  lemma EntryCovered(k: Key, f: File, L: seq<Key>)
    requires k in L && forall j :: 0 <= j < |L| ==> CoveredKey(L[j], f, L)
    ensures CoveredKey(k, f, L)
  {
  }

  /** Writing a parsed file again gives the same bytes, if the missing strings of the original carried
      the default encoding; otherwise it still writes the same entities in the same order. */
  lemma RewritingSucceeds(f: File)
    requires EmitFile(f).Some?
    ensures var t := EmitFile(f).value;
            var r := EmitFile(Parsed(f, t.log));
            && r.Some? && r.value.log == MapLog(t.log, Renaming(f, t.log, false)) && r.value.top == t.top
            && LogMatched(t.log, Renaming(f, t.log, false))
            && (TaggedFile(f) ==> r.value.out == t.out)
  {
    hide SameObject, FilesMatch, EmitObject, TaggedFile, Parsed;
    var L := EmitFile(f).value.log;
    ParsedMatches(f, L, false);
    ObjectSame(f.object_, Parsed(f, L).object_, FRESH, FRESH, Renaming(f, L, false));
    if TaggedFile(f) {
      ParsedMatches(f, L, true);
      ObjectSame(f.object_, Parsed(f, L).object_, FRESH, FRESH, Renaming(f, L, true));
    }
  }

  /** Reading a file and writing what was read gives back the bytes, for every file that the parser
      accepts and whose missing strings carried the default encoding. */
  lemma RewritingIsIdentical(f: File)
    requires EmitFile(f).Some? && EmitFile(f).value.top < REFERENCE_LIMIT && TaggedFile(f)
    requires ParseFile(EmitFile(f).value.out).Ok?
    ensures var T := EmitFile(f).value.out;
            var (o, _, st) := ParseFile(T).Extract();
            var again := EmitFile(ToFile(o, st));
            again.Some? && again.value.out == T
  {
    hide EmitFile, ParseFile, TaggedFile, Representable, Mirror, RenameObject;
    RoundTripExactly(f, EmitFile(f).value.out);
    RewritingSucceeds(f);
  }

  // The second round trip.

  lemma {:induction false} CleanSame(o: RObject, p: RObject, m: Match)
    requires SameObject(o, p, m)
    ensures CleanObject(o, m.f) == CleanObject(p, m.g)
    decreases o, 0
  {
    hide SameNamed, SameNodes, SameObjects, CleanNamed, CleanNodes, CleanObjects, NamesClass, SameStrings, SameName;
    match o
    case AtomicVector(_, a) => CleanSameNamed(a, p.attributes, m);
    case StringVector(_, a) => CleanSameNamed(a, p.attributes, m);
    case GenericVector(es, a) => CleanSameObjects(es, p.elements, m); CleanSameNamed(a, p.attributes, m);
    case ExpressionVector(es, a) => CleanSameObjects(es, p.elements, m); CleanSameNamed(a, p.attributes, m);
    case PairList(ns, a) =>
      if ns != [] {
        CleanSameNodes(ns, p.nodes, m);
        CleanSameNamed(a, p.attributes, m);
        NodesLength(ns, p.nodes, m);
      }
    case S4Object(_, _, a) => SameFlags(a, p.attributes, m); CleanSameNamed(a, p.attributes, m);
    case LanguageObject(_, ns, a) => CleanSameNodes(ns, p.arguments, m); CleanSameNamed(a, p.attributes, m);
    case _ =>
  }

  lemma NodesLength(ns: seq<Node>, ns': seq<Node>, m: Match)
    requires SameNodes(ns, ns', m)
    ensures |ns| == |ns'|
  {
  }

  lemma {:induction false} CleanSameObjects(os: seq<RObject>, ps: seq<RObject>, m: Match)
    requires SameObjects(os, ps, m)
    ensures CleanObjects(os, m.f) == CleanObjects(ps, m.g)
    decreases os, 0
  {
    hide SameObject, CleanObject;
    if os != [] {
      CleanSame(os[0], ps[0], m);
      CleanSameObjects(os[1..], ps[1..], m);
    }
  }

  lemma {:induction false} CleanSameNodes(ns: seq<Node>, ns': seq<Node>, m: Match)
    requires SameNodes(ns, ns', m)
    ensures CleanNodes(ns, m.f) == CleanNodes(ns', m.g)
    decreases ns, 0
  {
    hide SameObject, CleanObject, SameTag;
    if ns != [] {
      assert ns[0].value < ns[0];
      CleanSame(ns[0].value, ns'[0].value, m);
      CleanSameNodes(ns[1..], ns'[1..], m);
    }
  }

  lemma {:induction false} CleanSameNamed(ns: seq<Named>, ns': seq<Named>, m: Match)
    requires SameNamed(ns, ns', m)
    ensures CleanNamed(ns, m.f) == CleanNamed(ns', m.g)
    decreases ns, 0
  {
    hide SameObject, CleanObject, SameName;
    if ns != [] {
      assert ns[0].value < ns[0];
      CleanSame(ns[0].value, ns'[0].value, m);
      CleanSameNamed(ns[1..], ns'[1..], m);
    }
  }

  lemma {:induction false} RepresentableAgain(f: File, g: File, L: seq<Key>, m: Match)
    requires m.f == f && m.g == g && FilesMatch(m) && SameObject(f.object_, g.object_, m) && LogMatched(L, m)
    requires Representable(f, L) && forall j :: 0 <= j < |L| ==> CoveredKey(L[j], f, L)
    ensures Representable(g, MapLog(L, m))
  {
    hide SameObject, CleanObject, CleanNamed, SameNamed, CoveredObject, CoveredNamed, OneToOne, SameRef, LogMatched,
      MapLog;
    CleanSame(f.object_, g.object_, m);
    forall j | 0 <= j < |L| ensures CleanKey(MapLog(L, m)[j], g) {
      MapAt(L, j, m);
      assert CoveredKey(L[j], f, L) && CleanKey(L[j], f);
      match L[j]
      case Sym(_) =>
      case Env(i) =>
        var e, e' := f.environments[i], g.environments[m.env[i]];
        assert SameEnvironment(e, e', m);
        SameLength(e.variables, e'.variables, m);
        CleanSameNamed(e.variables, e'.variables, m);
        CleanSameNamed(e.attributes, e'.attributes, m);
      case Ptr(i) =>
        var p, p' := f.pointers[i], g.pointers[m.ptr[i]];
        assert SamePointer(p, p', m);
        CleanSame(p.protection.value, p'.protection.value, m);
        CleanSame(p.tag.value, p'.tag.value, m);
        CleanSameNamed(p.attributes, p'.attributes, m);
    }
  }

  lemma {:induction false} CountMapped(log: seq<Key>, kind: Kind, m: Match)
    ensures Count(MapLog(log, m), kind) == Count(log, kind)
  {
    if log != [] { CountMapped(log[..|log| - 1], kind, m); }
  }

  lemma {:induction false} MapPrefix(log: seq<Key>, i: nat, m: Match)
    requires i <= |log|
    ensures MapLog(log, m)[..i] == MapLog(log[..i], m)
  {
    if i == |log| {
      assert log[..i] == log;
    } else {
      MapPrefix(log[..|log| - 1], i, m);
      assert log[..|log| - 1][..i] == log[..i];
    }
  }

  /** An entity and its image have the same rank. */
  lemma RankMapped(L: seq<Key>, k: Key, m: Match)
    requires OneToOne(m.env) && OneToOne(m.ptr) && LogMatched(L, m) && KeyMatched(k, m) && k in L
    ensures MapKey(k, m) in MapLog(L, m) && Rank(MapLog(L, m), MapKey(k, m)) == Rank(L, k)
  {
    SamePosition(L, k, m);
    MapPrefix(L, Position(L, k), m);
    CountMapped(L[..Position(L, k)], KindOf(k), m);
  }

  /** In the second run every table entry keeps its index. */
  ghost predicate KeepsIndices(g: File, L: seq<Key>)
  {
    && (forall r :: 0 <= r < |g.symbols| ==> RenameSymbol(r, g, L) == r)
    && (forall r :: 0 <= r < |g.environments| ==> Env(r) in L && Rank(L, Env(r)) == r)
    && (forall r :: 0 <= r < |g.pointers| ==> Ptr(r) in L && Rank(L, Ptr(r)) == r)
  }

  lemma {:induction false} IndicesKept(f: File, L: seq<Key>)
    requires NoDuplicates(L)
    requires FilesMatch(Renaming(f, L, false)) && LogMatched(L, Renaming(f, L, false))
    ensures KeepsIndices(Parsed(f, L), MapLog(L, Renaming(f, L, false)))
  {
    hide NoDuplicates, EnvironmentsMatch, PointersMatch, LogMatched, MapLog, Mirror, RenameObject;
    var m, g := Renaming(f, L, false), Parsed(f, L);
    MirrorSizes(L, {}, f, L);
    forall r | 0 <= r < |g.symbols| ensures RenameSymbol(r, g, MapLog(L, m)) == r {
      var k := RenamingIsOnto(L, SymbolKind, r);
      RenamingIsConsistent(f, L, k, k);
      RankMapped(L, k, m);
    }
    forall r | 0 <= r < |g.environments| ensures Env(r) in MapLog(L, m) && Rank(MapLog(L, m), Env(r)) == r {
      var k := RenamingIsOnto(L, EnvironmentKind, r);
      RankMapped(L, k, m);
    }
    forall r | 0 <= r < |g.pointers| ensures Ptr(r) in MapLog(L, m) && Rank(MapLog(L, m), Ptr(r)) == r {
      var k := RenamingIsOnto(L, PointerKind, r);
      RankMapped(L, k, m);
    }
  }

  lemma {:induction false} RenameKeeps(o: RObject, g: File, b: Tables, L: seq<Key>)
    requires KeepsIndices(g, L) && ClosedObject(o, b)
    requires |b.symbols| == |g.symbols| && |b.environments| == |g.environments| && |b.pointers| == |g.pointers|
    ensures RenameObject(o, g, L) == o
    decreases o, 0
  {
    hide ClosedNamed, ClosedNodes, ClosedObjects, RenameNamed, RenameNodes, RenameObjects, NormalStrings, Rank,
      RenameSymbol;
    match o
    case AtomicVector(_, a) => RenameKeepsNamed(a, g, b, L);
    case StringVector(_, a) => RenameKeepsNamed(a, g, b, L);
    case GenericVector(es, a) => RenameKeepsObjects(es, g, b, L); RenameKeepsNamed(a, g, b, L);
    case ExpressionVector(es, a) => RenameKeepsObjects(es, g, b, L); RenameKeepsNamed(a, g, b, L);
    case PairList(ns, a) => RenameKeepsNodes(ns, g, b, L); RenameKeepsNamed(a, g, b, L);
    case S4Object(_, _, a) => RenameKeepsNamed(a, g, b, L);
    case LanguageObject(_, ns, a) => RenameKeepsNodes(ns, g, b, L); RenameKeepsNamed(a, g, b, L);
    case _ =>
  }

  lemma {:induction false} RenameKeepsObjects(os: seq<RObject>, g: File, b: Tables, L: seq<Key>)
    requires KeepsIndices(g, L) && ClosedObjects(os, b)
    requires |b.symbols| == |g.symbols| && |b.environments| == |g.environments| && |b.pointers| == |g.pointers|
    ensures RenameObjects(os, g, L) == os
    decreases os, 0
  {
    hide ClosedObject, ClosedObjects, RenameObject, KeepsIndices;
    if os != [] {
      ObjectsTail(os, b);
      RenameKeeps(os[0], g, b, L);
      RenameKeepsObjects(os[1..], g, b, L);
      assert os == [os[0]] + os[1..];
    }
  }

  lemma {:induction false} RenameKeepsNodes(ns: seq<Node>, g: File, b: Tables, L: seq<Key>)
    requires KeepsIndices(g, L) && ClosedNodes(ns, b)
    requires |b.symbols| == |g.symbols| && |b.environments| == |g.environments| && |b.pointers| == |g.pointers|
    ensures RenameNodes(ns, g, L) == ns
    decreases ns, 0
  {
    hide ClosedObject, ClosedNodes, RenameObject, RenameSymbol, Rank;
    if ns != [] {
      NodesTail(ns, b);
      assert ns[0].value < ns[0];
      RenameKeeps(ns[0].value, g, b, L);
      RenameKeepsNodes(ns[1..], g, b, L);
      assert ns == [ns[0]] + ns[1..];
    }
  }

  lemma {:induction false} RenameKeepsNamed(ns: seq<Named>, g: File, b: Tables, L: seq<Key>)
    requires KeepsIndices(g, L) && ClosedNamed(ns, b)
    requires |b.symbols| == |g.symbols| && |b.environments| == |g.environments| && |b.pointers| == |g.pointers|
    ensures RenameNamed(ns, g, L) == ns
    decreases ns, 0
  {
    hide ClosedObject, ClosedNamed, RenameObject, RenameSymbol, Rank;
    if ns != [] {
      NamedTail(ns, b);
      assert ns[0].value < ns[0];
      RenameKeeps(ns[0].value, g, b, L);
      RenameKeepsNamed(ns[1..], g, b, L);
      assert ns == [ns[0]] + ns[1..];
    }
  }

  lemma {:induction false} SymbolsKept(log: seq<Key>, f: File, L: seq<Key>, g: File, M: seq<Key>, m: Match)
    ensures Mirror(MapLog(log, m), {}, g, M).symbols == Mirror(log, {}, f, L).symbols
  {
    if log != [] { SymbolsKept(log[..|log| - 1], f, L, g, M, m); }
  }

  /** The tables of the second run are those of the first. */
  lemma {:induction false} TablesKept(f: File, L: seq<Key>, b: Tables)
    requires NoDuplicates(L) && FilesMatch(Renaming(f, L, false)) && LogMatched(L, Renaming(f, L, false))
    requires b == Mirror(L, {}, f, L) && NoDuplicates(MapLog(L, Renaming(f, L, false)))
    requires forall i :: 0 <= i < |b.environments| ==>
               b.environments[i].Some? && ClosedEnvironment(b.environments[i].value, b)
    requires forall i :: 0 <= i < |b.pointers| ==> ClosedPointer(b.pointers[i], b)
    ensures var g, M := Parsed(f, L), MapLog(L, Renaming(f, L, false));
            ToFile(g.object_, Mirror(M, {}, g, M)) == g
  {
    hide NoDuplicates, FilesMatch, LogMatched, MapLog, Mirror, RenameObject, KeepsIndices, ClosedEnvironment,
      ClosedPointer, Rank;
    var m, g, M := Renaming(f, L, false), Parsed(f, L), MapLog(L, Renaming(f, L, false));
    var b' := Mirror(M, {}, g, M);
    IndicesKept(f, L);
    MirrorSizes(L, {}, f, L);
    MirrorSizes(M, {}, g, M);
    CountMapped(L, EnvironmentKind, m);
    CountMapped(L, PointerKind, m);
    SymbolsKept(L, f, L, g, M, m);
    forall i | 0 <= i < |g.environments| ensures b'.environments[i] == Some(g.environments[i]) {
      NothingHashed(L, f, L, i);
      EnvironmentKept(i, g, b, M);
    }
    forall i | 0 <= i < |g.pointers| ensures b'.pointers[i] == g.pointers[i] { PointerKept(i, g, b, M); }
  }

  lemma {:induction false} EnvironmentKept(i: nat, g: File, b: Tables, M: seq<Key>)
    requires NoDuplicates(M) && KeepsIndices(g, M) && g == ToFile(g.object_, b) && i < |b.environments|
    requires b.environments[i].Some? && !b.environments[i].value.hashed && ClosedEnvironment(b.environments[i].value, b)
    ensures i < |Mirror(M, {}, g, M).environments| && Mirror(M, {}, g, M).environments[i] == Some(g.environments[i])
  {
    hide Mirror, NoDuplicates, Rank;
    var e := g.environments[i];
    RenamingIsConsistent(g, M, Env(i), Env(i));
    RenameKeepsNamed(e.variables, g, b, M);
    RenameKeepsNamed(e.attributes, g, b, M);
    assert RenameEnvironment(e, g, M) == e;
  }

  lemma {:induction false} PointerKept(i: nat, g: File, b: Tables, M: seq<Key>)
    requires NoDuplicates(M) && KeepsIndices(g, M) && g == ToFile(g.object_, b) && i < |b.pointers|
    requires ClosedPointer(b.pointers[i], b)
    ensures i < |Mirror(M, {}, g, M).pointers| && Mirror(M, {}, g, M).pointers[i] == g.pointers[i]
  {
    hide Mirror, NoDuplicates, Rank;
    var p := g.pointers[i];
    RenamingIsConsistent(g, M, Ptr(i), Ptr(i));
    RenameKeeps(p.protection.value, g, b, M);
    RenameKeeps(p.tag.value, g, b, M);
    RenameKeepsNamed(p.attributes, g, b, M);
  }

  lemma {:induction false} NothingHashed(log: seq<Key>, f: File, L: seq<Key>, i: nat)
    requires i < |Mirror(log, {}, f, L).environments| && Mirror(log, {}, f, L).environments[i].Some?
    ensures !Mirror(log, {}, f, L).environments[i].value.hashed
  {
    if i < |Mirror(log[..|log| - 1], {}, f, L).environments| { NothingHashed(log[..|log| - 1], f, L, i); }
  }

  /** What the first trip says about the parsed file and its tables. */
  lemma FirstTrip(f: File, T: seq<byte>)
    requires EmitFile(f).Some? && EmitFile(f).value.out <= T && EmitFile(f).value.top < REFERENCE_LIMIT
    requires ParseFile(T).Ok?
    ensures var L := EmitFile(f).value.log;
            var b := Mirror(L, {}, f, L);
            && ToFile(ParseFile(T).value, ParseFile(T).st) == Parsed(f, L) && Representable(f, L)
            && ClosedObject(Parsed(f, L).object_, b)
            && (forall i :: 0 <= i < |b.environments| ==>
                  b.environments[i].Some? && ClosedEnvironment(b.environments[i].value, b))
            && (forall i :: 0 <= i < |b.pointers| ==> ClosedPointer(b.pointers[i], b))
  {
    hide EmitFile, ParseFile, Mirror, RenameObject, Representable, ClosedObject, ClosedEnvironment, ClosedPointer;
    RoundTripExactly(f, T);
    ParsedFileIsClosed(T);
  }

  /** Writing a representable file, whatever is read back can be written and read back again. */
  lemma SecondTrip(f: File)
    requires EmitFile(f).Some? && EmitFile(f).value.top < REFERENCE_LIMIT && Representable(f, EmitFile(f).value.log)
    ensures var L := EmitFile(f).value.log;
            var g, m := Parsed(f, L), Renaming(f, L, false);
            && EmitFile(g).Some? && FilesMatch(m) && LogMatched(L, m) && EmitFile(g).value.log == MapLog(L, m)
            && NoDuplicates(L) && NoDuplicates(MapLog(L, m))
            && (var again, M := ParseFile(EmitFile(g).value.out), MapLog(L, m);
                again.Ok? && again.value == RenameObject(g.object_, g, M) && again.st == Mirror(M, {}, g, M))
  {
    hide EmitFile, ParseFile, Mirror, RenameObject, FilesMatch, LogMatched, MapLog, NoDuplicates, Representable,
      Parsed, SameObject, CoveredKey;
    var L, m := EmitFile(f).value.log, Renaming(f, EmitFile(f).value.log, false);
    var g := Parsed(f, L);
    ParsedMatches(f, L, false);
    FileCovered(f, L);
    RewritingSucceeds(f);
    EmitFileDistinct(f);
    EmitFileDistinct(g);
    RepresentableAgain(f, g, L, m);
    RoundTripExactly(g, EmitFile(g).value.out);
  }

  /** After one trip nothing changes any more: what has been parsed can be written, and parsing what
      is then written gives the very same file, indices and tables included. */
  lemma CanonicalFixedPoint(f: File, T: seq<byte>)
    requires EmitFile(f).Some? && EmitFile(f).value.out <= T && EmitFile(f).value.top < REFERENCE_LIMIT
    requires ParseFile(T).Ok?
    ensures var g := ToFile(ParseFile(T).value, ParseFile(T).st);
            && EmitFile(g).Some?
            && (var again := ParseFile(EmitFile(g).value.out);
                again.Ok? && ToFile(again.value, again.st) == g)
  {
    hide EmitFile, ParseFile, Mirror, RenameObject, FilesMatch, LogMatched, MapLog, NoDuplicates, Representable,
      ClosedObject, ClosedEnvironment, ClosedPointer, KeepsIndices;
    var L := EmitFile(f).value.log;
    var g, m := Parsed(f, L), Renaming(f, L, false);
    FirstTrip(f, T);
    SecondTrip(f);
    IndicesKept(f, L);
    RenameKeeps(g.object_, g, Mirror(L, {}, f, L), MapLog(L, m));
    TablesKept(f, L, Mirror(L, {}, f, L));
  }
}
