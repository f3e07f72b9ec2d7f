/** What the format loses: two files that differ only in the numbering of symbols, in empty pairlists
    and in the encodings of missing strings are read back as the same file, and what is read back
    is written like the one whose missing strings carry the default encoding. */
module NormalForm {
  import opened Bytes
  import opened Objects
  import opened WriterSpec
  import opened ParserSpec
  import opened References
  import opened FileRoundTrip
  import opened Correspondence
  import opened Coverage
  import opened FixedPoint

  /** `g` is `f` up to what the format loses. */
  ghost predicate Equivalent(f: File, g: File)
  {
    && FilesMatch(Match(f, g, Identity(), Identity(), false))
    && SameObject(f.object_, g.object_, Match(f, g, Identity(), Identity(), false))
    && |f.environments| == |g.environments| && |f.pointers| == |g.pointers|
  }

  lemma SameIndex(i: nat, j: nat, m: Match, L: seq<Key>)
    requires SameName(i, j, m)
    ensures RenameSymbol(i, m.f, L) == RenameSymbol(j, m.g, L)
  {
    assert SymbolAt(m.f, i) == SymbolAt(m.g, j);
  }

  lemma {:induction false} SameAfterRenaming(o: RObject, p: RObject, m: Match, L: seq<Key>)
    requires m.env == Identity() && m.ptr == Identity() && SameObject(o, p, m)
    ensures RenameObject(o, m.f, L) == RenameObject(p, m.g, L)
    decreases o, 0
  {
    hide SameNamed, SameNodes, SameObjects, RenameNamed, RenameNodes, RenameObjects, RenameSymbol, SameName, Rank;
    match o
    case SymbolIndex(i) => SameIndex(i, p.symbol, m, L);
    case AtomicVector(_, a) => SameNamedAfter(a, p.attributes, m, L);
    case StringVector(xs, a) => SameNamedAfter(a, p.attributes, m, L);
    case GenericVector(es, a) => SameObjectsAfter(es, p.elements, m, L); SameNamedAfter(a, p.attributes, m, L);
    case ExpressionVector(es, a) => SameObjectsAfter(es, p.elements, m, L); SameNamedAfter(a, p.attributes, m, L);
    case PairList(ns, a) =>
      if ns != [] {
        SameNodesAfter(ns, p.nodes, m, L);
        SameNamedAfter(a, p.attributes, m, L);
        NodesLength(ns, p.nodes, m);
      }
    case S4Object(_, _, a) => SameNamedAfter(a, p.attributes, m, L);
    case LanguageObject(i, ns, a) =>
      SameIndex(i, p.function_, m, L);
      SameNodesAfter(ns, p.arguments, m, L);
      SameNamedAfter(a, p.attributes, m, L);
    case _ =>
  }

  lemma {:induction false} SameObjectsAfter(os: seq<RObject>, ps: seq<RObject>, m: Match, L: seq<Key>)
    requires m.env == Identity() && m.ptr == Identity() && SameObjects(os, ps, m)
    ensures RenameObjects(os, m.f, L) == RenameObjects(ps, m.g, L)
    decreases os, 0
  {
    hide SameObject, RenameObject;
    if os != [] {
      SameAfterRenaming(os[0], ps[0], m, L);
      SameObjectsAfter(os[1..], ps[1..], m, L);
    }
  }

  lemma {:induction false} SameNodesAfter(ns: seq<Node>, ns': seq<Node>, m: Match, L: seq<Key>)
    requires m.env == Identity() && m.ptr == Identity() && SameNodes(ns, ns', m)
    ensures RenameNodes(ns, m.f, L) == RenameNodes(ns', m.g, L)
    decreases ns, 0
  {
    hide SameObject, RenameObject, SameName, RenameSymbol;
    if ns != [] {
      assert ns[0].value < ns[0];
      SameAfterRenaming(ns[0].value, ns'[0].value, m, L);
      if ns[0].tag.Some? { SameIndex(ns[0].tag.value, ns'[0].tag.value, m, L); }
      SameNodesAfter(ns[1..], ns'[1..], m, L);
    }
  }

  lemma {:induction false} SameNamedAfter(ns: seq<Named>, ns': seq<Named>, m: Match, L: seq<Key>)
    requires m.env == Identity() && m.ptr == Identity() && SameNamed(ns, ns', m)
    ensures RenameNamed(ns, m.f, L) == RenameNamed(ns', m.g, L)
    decreases ns, 0
  {
    hide SameObject, RenameObject, SameName, RenameSymbol;
    if ns != [] {
      assert ns[0].value < ns[0];
      SameAfterRenaming(ns[0].value, ns'[0].value, m, L);
      SameIndex(ns[0].name, ns'[0].name, m, L);
      SameNamedAfter(ns[1..], ns'[1..], m, L);
    }
  }

  lemma {:induction false} SameSlot(k: Key, f: File, g: File, L: seq<Key>)
    requires Equivalent(f, g) && CompleteKey(k, f)
    ensures match k
            case Sym(_) => true
            case Env(i) => EnvironmentSlot(i, {}, f, L) == EnvironmentSlot(i, {}, g, L)
            case Ptr(i) => PointerSlot(i, {}, f, L) == PointerSlot(i, {}, g, L)
  {
    hide SameObject, SameNamed, RenameNamed, RenameObject, Rank;
    var m := Match(f, g, Identity(), Identity(), false);
    match k
    case Sym(_) =>
    case Env(i) =>
      if i < |f.environments| {
        var e, e' := f.environments[i], g.environments[i];
        assert SameEnvironment(e, e', m);
        SameNamedAfter(e.variables, e'.variables, m, L);
        SameNamedAfter(e.attributes, e'.attributes, m, L);
      }
    case Ptr(i) =>
      if i < |f.pointers| {
        var p, p' := f.pointers[i], g.pointers[i];
        assert SamePointer(p, p', m);
        SameAfterRenaming(p.protection.value, p'.protection.value, m, L);
        SameAfterRenaming(p.tag.value, p'.tag.value, m, L);
        SameNamedAfter(p.attributes, p'.attributes, m, L);
      }
  }

  /** An external pointer that has been written is set. */
  ghost predicate CompleteKey(k: Key, f: File)
  {
    k.Ptr? && k.index < |f.pointers| ==> f.pointers[k.index].protection.Some? && f.pointers[k.index].tag.Some?
  }

  lemma {:induction false} SameTables(log: seq<Key>, f: File, g: File, L: seq<Key>)
    requires Equivalent(f, g) && forall j :: 0 <= j < |log| ==> CompleteKey(log[j], f)
    ensures Mirror(log, {}, f, L) == Mirror(log, {}, g, L)
  {
    hide Equivalent, CompleteKey, EnvironmentSlot, PointerSlot;
    if log != [] {
      SameTables(log[..|log| - 1], f, g, L);
      SameSlot(log[|log| - 1], f, g, L);
    }
  }

  /** Equivalent files number the same entities and are read back as the same file. */
  lemma EquivalentFilesReadAlike(f: File, g: File)
    requires Equivalent(f, g) && EmitFile(f).Some?
    ensures EmitFile(g).Some? && EmitFile(g).value.log == EmitFile(f).value.log
    ensures Parsed(f, EmitFile(f).value.log) == Parsed(g, EmitFile(f).value.log)
  {
    hide SameObject, FilesMatch, EmitObject, RenameObject, Mirror, CoveredObject;
    var m := Match(f, g, Identity(), Identity(), false);
    var none, L := FRESH, EmitFile(f).value.log;
    ObjectSame(f.object_, g.object_, none, none, m);
    MapIdentity(L, m);
    SameAfterRenaming(f.object_, g.object_, m, L);
    FileCovered(f, L);
    forall j | 0 <= j < |L| ensures CompleteKey(L[j], f) { assert CoveredKey(L[j], f, L); }
    SameTables(L, f, g, L);
  }

  // The normal form of a file.

  function NormalObject(o: RObject): RObject
  {
    match o
    case AtomicVector(d, a) => AtomicVector(d, NormalNamed(a))
    case StringVector(xs, a) => StringVector(NormalStrings(xs), NormalNamed(a))
    case GenericVector(es, a) => GenericVector(NormalObjects(es), NormalNamed(a))
    case ExpressionVector(es, a) => ExpressionVector(NormalObjects(es), NormalNamed(a))
    case PairList(ns, a) => if ns == [] then Null else PairList(NormalNodes(ns), NormalNamed(a))
    case S4Object(c, p, a) => S4Object(c, p, NormalNamed(a))
    case LanguageObject(i, ns, a) => LanguageObject(i, NormalNodes(ns), NormalNamed(a))
    case _ => o
  }

  function NormalObjects(os: seq<RObject>): (r: seq<RObject>)
    ensures |r| == |os|
  {
    if os == [] then [] else [NormalObject(os[0])] + NormalObjects(os[1..])
  }

  function NormalNodes(ns: seq<Node>): (r: seq<Node>)
    ensures |r| == |ns|
  {
    if ns == [] then []
    else
      assert ns[0].value < ns[0];
      [Node(ns[0].tag, NormalObject(ns[0].value))] + NormalNodes(ns[1..])
  }

  function NormalNamed(ns: seq<Named>): (r: seq<Named>)
    ensures |r| == |ns|
  {
    if ns == [] then []
    else
      assert ns[0].value < ns[0];
      [Named(ns[0].name, NormalObject(ns[0].value))] + NormalNamed(ns[1..])
  }

  function NormalEnvironment(e: Environment): Environment
  {
    Environment(e.locked, false, e.parent, NormalNamed(e.variables), NormalNamed(e.attributes))
  }

  function NormalPointer(p: ExternalPointer): ExternalPointer
  {
    ExternalPointer(
      if p.protection.None? then None else Some(NormalObject(p.protection.value)),
      if p.tag.None? then None else Some(NormalObject(p.tag.value)),
      NormalNamed(p.attributes))
  }

  /** What the format keeps of a file: empty pairlists are nulls, missing strings carry the default
      encoding and no environment remembers that it was hashed. */
  function NormalFile(f: File): File
  {
    File(NormalObject(f.object_), f.symbols,
         seq(|f.environments|, i requires 0 <= i < |f.environments| => NormalEnvironment(f.environments[i])),
         seq(|f.pointers|, i requires 0 <= i < |f.pointers| => NormalPointer(f.pointers[i])))
  }

  ghost function Normalizing(f: File): Match { Match(f, NormalFile(f), Identity(), Identity(), false) }

  lemma {:induction false} NormalObjectSame(o: RObject, f: File)
    ensures SameObject(o, NormalObject(o), Normalizing(f)) && TaggedObject(NormalObject(o))
    decreases o, 0
  {
    hide SameNamed, SameNodes, SameObjects, NormalNamed, NormalNodes, NormalObjects, TaggedNamed, TaggedNodes,
      TaggedObjects;
    match o
    case AtomicVector(_, a) => NormalNamedSame(a, f);
    case StringVector(xs, a) => NormalNamedSame(a, f); NormalTwice(xs);
    case GenericVector(es, a) => NormalObjectsSame(es, f); NormalNamedSame(a, f);
    case ExpressionVector(es, a) => NormalObjectsSame(es, f); NormalNamedSame(a, f);
    case PairList(ns, a) => NormalNodesSame(ns, f); NormalNamedSame(a, f);
    case S4Object(_, _, a) => NormalNamedSame(a, f);
    case LanguageObject(_, ns, a) => NormalNodesSame(ns, f); NormalNamedSame(a, f);
    case _ =>
  }

  lemma {:induction false} NormalObjectsSame(os: seq<RObject>, f: File)
    ensures SameObjects(os, NormalObjects(os), Normalizing(f)) && TaggedObjects(NormalObjects(os))
    decreases os, 0
  {
    hide SameObject, NormalObject, TaggedObject, NormalFile;
    if os != [] {
      NormalObjectSame(os[0], f);
      NormalObjectsSame(os[1..], f);
      assert NormalObjects(os)[1..] == NormalObjects(os[1..]);
    }
  }

  lemma {:induction false} NormalNodesSame(ns: seq<Node>, f: File)
    ensures SameNodes(ns, NormalNodes(ns), Normalizing(f)) && TaggedNodes(NormalNodes(ns))
    decreases ns, 0
  {
    hide SameObject, NormalObject, TaggedObject;
    if ns != [] {
      assert ns[0].value < ns[0];
      NormalObjectSame(ns[0].value, f);
      NormalNodesSame(ns[1..], f);
      assert NormalNodes(ns)[1..] == NormalNodes(ns[1..]);
    }
  }

  lemma {:induction false} NormalNamedSame(ns: seq<Named>, f: File)
    ensures SameNamed(ns, NormalNamed(ns), Normalizing(f)) && TaggedNamed(NormalNamed(ns))
    decreases ns, 0
  {
    hide SameObject, NormalObject, TaggedObject;
    if ns != [] {
      assert ns[0].value < ns[0];
      NormalObjectSame(ns[0].value, f);
      NormalNamedSame(ns[1..], f);
      assert NormalNamed(ns)[1..] == NormalNamed(ns[1..]);
    }
  }

  /** The normal form differs from the file only in what the format loses, and has nothing more to lose. */
  lemma NormalFileIsEquivalent(f: File)
    ensures Equivalent(f, NormalFile(f)) && TaggedFile(NormalFile(f))
  {
    hide SameObject, SameNamed, NormalObject, NormalNamed, TaggedObject, TaggedNamed;
    var m := Normalizing(f);
    NormalObjectSame(f.object_, f);
    forall i | 0 <= i < |f.environments|
      ensures SameEnvironment(f.environments[i], m.g.environments[i], m)
      ensures TaggedNamed(m.g.environments[i].variables) && TaggedNamed(m.g.environments[i].attributes)
    {
      NormalNamedSame(f.environments[i].variables, f);
      NormalNamedSame(f.environments[i].attributes, f);
    }
    forall i | 0 <= i < |f.pointers|
      ensures SamePointer(f.pointers[i], m.g.pointers[i], m)
      ensures var p := m.g.pointers[i];
              && (p.protection.Some? ==> TaggedObject(p.protection.value))
              && (p.tag.Some? ==> TaggedObject(p.tag.value))
              && TaggedNamed(p.attributes)
    {
      var p := f.pointers[i];
      if p.protection.Some? { NormalObjectSame(p.protection.value, f); }
      if p.tag.Some? { NormalObjectSame(p.tag.value, f); }
      NormalNamedSame(p.attributes, f);
    }
  }

  /** Reading a file and writing what was read gives the bytes of its normal form. */
  lemma RewritingIsNormal(f: File)
    requires EmitFile(f).Some? && EmitFile(f).value.top < REFERENCE_LIMIT && ParseFile(EmitFile(f).value.out).Ok?
    ensures EmitFile(NormalFile(f)).Some?
    ensures var (o, _, st) := ParseFile(EmitFile(f).value.out).Extract();
            var again := EmitFile(ToFile(o, st));
            again.Some? && again.value.out == EmitFile(NormalFile(f)).value.out
  {
    hide EmitFile, ParseFile, Equivalent, TaggedFile, NormalFile, Representable, Mirror, RenameObject;
    RoundTripExactly(f, EmitFile(f).value.out);
    NormalFileIsEquivalent(f);
    EquivalentFilesReadAlike(f, NormalFile(f));
    RewritingSucceeds(NormalFile(f));
  }
}
