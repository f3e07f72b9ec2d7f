/** Alternative representations of vectors, as R writes them: a header, a list that starts with the
    name of the representation, a state and attributes. In any run they are read like the plain
    vector that they stand for, and what follows them is read as if the plain vector had been there. */
module AltrepForms {
  import opened Bytes
  import opened Objects
  import opened CompactSequences
  import opened WriterSpec
  import opened ParserSpec
  import opened ParserSafety
  import opened ItemRoundTrip
  import opened References
  import opened RoundTrip
  import opened DeferredStrings

  /** The list describes the representation called `name`; nothing else in it matters. */
  predicate Names(info: seq<Node>, name: Text, f: File)
  {
    info != [] && info[0].value.SymbolIndex? && info[0].value.symbol < |f.symbols|
    && f.symbols[info[0].value.symbol].name == name
  }

  function EmitInfo(info: seq<Node>, f: File, s: Sink): (r: Option<Sink>)
    ensures r.Some? ==> Extends(f, s, r.value)
  {
    EmitNodes([], info, f, EmitHeader(ALTREP, 0, s))
  }

  /** A compact sequence: the number of elements, the first one and the step. */
  function EmitCompact(info: seq<Node>, ranges: seq<u64>, f: File, s: Sink): (r: Option<Sink>)
    ensures r.Some? ==> Extends(f, s, r.value)
  {
    var t :- EmitInfo(info, f, s);
    var u :- EmitAtoms(Doubles(ranges), 0, t);
    Some(EmitHeader(NILVALUE, 0, u))
  }

  /** A wrapper around a compact sequence. */
  function EmitWrapped(
    info: seq<Node>, inner: seq<Node>, ranges: seq<u64>, ignored: seq<int32>, a: seq<Named>, f: File, s: Sink)
    : (r: Option<Sink>)
    ensures r.Some? ==> Extends(f, s, r.value)
  {
    var t :- EmitInfo(info, f, s);
    EmitState(inner, ranges, ignored, a, f, t)
  }

  /** The sequence, some integers and the attributes. */
  function EmitState(
    inner: seq<Node>, ranges: seq<u64>, ignored: seq<int32>, a: seq<Named>, f: File, s: Sink): (r: Option<Sink>)
    ensures r.Some? ==> Extends(f, s, r.value)
  {
    var u :- EmitCompact(inner, ranges, f, EmitHeader(LIST, 0, s));
    var v :- EmitAtoms(Integers(ignored), 0, u);
    EmitNodes([], AsNodes(a), f, v)
  }

  /** Strings that have not been made yet. */
  function EmitDeferred(info: seq<Node>, ints: seq<int32>, ignored: seq<int32>, f: File, s: Sink): (r: Option<Sink>)
    ensures r.Some? ==> Extends(f, s, r.value)
  {
    var t :- EmitInfo(info, f, s);
    EmitDeferredState(ints, ignored, t)
  }

  /** The integers to make them of and one more integer. */
  function EmitDeferredState(ints: seq<int32>, ignored: seq<int32>, s: Sink): (r: Option<Sink>)
    ensures r.Some? ==> Before(s, r.value) && r.value.log == s.log && r.value.top == s.top
  {
    var u :- EmitAtoms(Integers(ints), 0, EmitHeader(LIST, 0, s));
    var v :- EmitAtoms(Integers(ignored), 0, u);
    Some(EmitHeader(NILVALUE, 0, v))
  }

  // The list in front.

  lemma HeadWritten(n: Node, f: File, s: Sink, t: Sink)
    requires EmitNode([], n, f, s) == Some(t) && n.value.SymbolIndex? && n.value.symbol < |f.symbols|
    ensures Sym(f.symbols[n.value.symbol]) in t.log
  {
    hide EmitTag, Extends, EmitText, Position, Unwritten;
    var u := EmitTag(n.tag, f, EmitHeader(LIST, NodeFlags([], n.tag), s)).value;
    assert EmitSymbolIndex(n.value.symbol, f, u) == Some(t);
  }

  /** The parser has read the list, stands after it and finds the name of the representation. */
  lemma InfoTrip(info: seq<Node>, name: Text, s: Sink, t: Sink, open: set<Key>, c: Run)
    requires c.Valid() && Names(info, name, c.f) && EmitInfo(info, c.f, s) == Some(t) && c.Covers(t)
    requires c.Opened(open, s)
    ensures c.Covers(s) && |s.out| + 8 <= |c.end.out|
    ensures c.end.out[|s.out| + 3] == ALTREP && c.end.out[|s.out| + 7] == LIST
    ensures ParsePairs(c.end.out[|s.out| + 6], c.end.out, |s.out| + 8, c.Tables(s, open))
         == c.Expect(CleanNodes(info, c.f) && c.Clean(s, t), Pairs(RenameNodes(info, c.f, c.end.log), []), t, open)
    ensures var first := RenameNodes(info, c.f, c.end.log)[0].value;
            first.SymbolIndex? && NameOf(first.symbol, c.Tables(t, open)) == name
  {
    hide Before, NoDuplicates, Mirror, CleanKey, EmitNode, EmitNodes, ParsePairs, RenameSymbol, Unwritten;
    var h := EmitHeader(ALTREP, 0, s);
    NodesTrip([], info, h, t, open, c);
    HeaderTrip(s, [0, 0, 0, ALTREP], c.end);
    var i := info[0].value.symbol;
    InfoHead(info, h, t, c);
    NameTrip(i, t, open, c);
  }

  lemma InfoHead(info: seq<Node>, s: Sink, t: Sink, c: Run)
    requires info != [] && info[0].value.SymbolIndex? && info[0].value.symbol < |c.f.symbols|
    requires EmitNodes([], info, c.f, s) == Some(t) && c.Covers(t)
    ensures Sym(c.f.symbols[info[0].value.symbol]) in t.log
  {
    hide EmitNode, NoDuplicates, Unwritten;
    var u := EmitNode([], info[0], c.f, s).value;
    HeadWritten(info[0], c.f, s, u);
    KeyStays(c.f.symbols[info[0].value.symbol], u, t, c);
  }

  // Compact sequences.

  function Expansion(ranges: seq<u64>): Option<seq<int32>>
  {
    if |ranges| != 3 then None else ExpandDoubles(ranges[0], ranges[1], ranges[2])
  }

  ghost predicate StandsFor(ranges: seq<u64>, ints: seq<int32>)
  {
    |ranges| == 3 && Describes(ranges[0], ranges[1], ranges[2], ints)
  }

  lemma ExpansionStands(ranges: seq<u64>)
    ensures Expansion(ranges).Some? ==> StandsFor(ranges, Expansion(ranges).value)
  {
    hide Describes, ExpandDoubles;
    if Expansion(ranges).Some? { ExpandedElements(ranges[0], ranges[1], ranges[2]); }
  }

  lemma RangesTrip(ranges: seq<u64>, s: Sink, u: Sink, c: Run)
    requires EmitAtoms(Doubles(ranges), 0, s) == Some(u) && c.Covers(EmitHeader(NILVALUE, 0, u))
    ensures c.Covers(s)
    ensures ReadCompact(c.end.out, |s.out|)
         == match Expansion(ranges) case None => Bad case Some(ints) => Good(ints, |u.out| + 4)
  {
    hide Before, EmitAtoms, ReadAtoms, ExpandDoubles, Unwritten;
    HeaderTrip(u, [0, 0, 0, NILVALUE], c.end);
    AtomsTrip(Doubles(ranges), 0, s, c.end);
  }

  /** A compact sequence is read as the integers it stands for, element by element, if its endpoints pass the
      test, and refused if not. `ExpandsExactly` says what passing means for the elements. */
  lemma {:induction false} CompactTrip(info: seq<Node>, ranges: seq<u64>, s: Sink, t: Sink, open: set<Key>, c: Run)
    requires c.Valid() && Names(info, COMPACT_INTSEQ, c.f) && c.Opened(open, s)
    requires EmitCompact(info, ranges, c.f, s) == Some(t) && c.Covers(t)
    ensures c.Covers(s)
    ensures ParseObject(c.end.out, |s.out|, c.Tables(s, open))
         == match Expansion(ranges)
            case None => Fail
            case Some(ints) =>
              c.Expect(CleanNodes(info, c.f) && c.Clean(s, t), AtomicVector(Integers(ints), []), t, open)
    ensures Expansion(ranges).Some? ==> StandsFor(ranges, Expansion(ranges).value)
  {
    hide Before, NoDuplicates, Mirror, CleanKey, EmitInfo, EmitAtoms, ReadCompact, ParsePairs, Names, RenameNodes,
      NameOf, Expansion, StandsFor, ParseWrapper, ParseDeferred, ParseObject, Unwritten;
    ExpansionStands(ranges);
    var u := EmitInfo(info, c.f, s).value;
    var v := EmitAtoms(Doubles(ranges), 0, u).value;
    RangesTrip(ranges, u, v, c);
    InfoTrip(info, COMPACT_INTSEQ, s, u, open, c);
    Dispatch(c.end.out, |s.out|, c.Tables(s, open));
  }

  // Wrappers.

  /** The part of the state that is read before the attributes. */
  lemma {:induction false} StateTrip(
    o: RObject, clean: bool, ignored: seq<int32>, s: Sink, t: Sink, u: Sink, open: set<Key>, c: Run)
    requires |s.out| + 4 <= |c.end.out|
    requires ParseObject(c.end.out, |s.out| + 4, c.Tables(s, open)) == c.Expect(clean, o, t, open)
    requires EmitAtoms(Integers(ignored), 0, t) == Some(u) && c.Covers(u) && Before(EmitHeader(LIST, 0, s), t)
    ensures c.Covers(t) && c.Covers(s)
    ensures ParseState(|ignored|, c.end.out, |s.out|, c.Tables(s, open)) == c.Expect(clean, o, u, open)
  {
    hide NoDuplicates, Mirror, EmitAtoms, ReadAtoms, ParseObject, Unwritten;
    AtomsTrip(Integers(ignored), 0, t, c.end);
    BeforeTransitive(EmitHeader(LIST, 0, s), t, c.end);
    HeaderTrip(s, [0, 0, 0, LIST], c.end);
  }

  /** The state and the attributes of a wrapper. */
  lemma {:induction false} WrapperTrip(
    inner: seq<Node>, ranges: seq<u64>, ignored: seq<int32>, a: seq<Named>, s: Sink, t: Sink, open: set<Key>, c: Run)
    requires c.Valid() && Names(inner, COMPACT_INTSEQ, c.f) && c.Opened(open, s) && |ignored| == 2
    requires EmitState(inner, ranges, ignored, a, c.f, s) == Some(t) && c.Covers(t)
    ensures c.Covers(s)
    ensures ParseWrapper(c.end.out, |s.out|, c.Tables(s, open))
         == match Expansion(ranges)
            case None => Fail
            case Some(ints) =>
              c.Expect(CleanNodes(inner, c.f) && CleanNamed(a, c.f) && c.Clean(s, t),
                       AtomicVector(Integers(ints), RenameNamed(a, c.f, c.end.log)), t, open)
  {
    hide Before, NoDuplicates, Mirror, CleanKey, EmitCompact, EmitAtoms, EmitNodes, ParseState, ParseFinalAttributes,
      Names, RenameNamed, CleanNamed, CleanNodes, Expansion, ParseObject, Unwritten, RenameRef, RenameSymbol;
    var s2 := EmitHeader(LIST, 0, s);
    var s3 := EmitCompact(inner, ranges, c.f, s2).value;
    var s4 := EmitAtoms(Integers(ignored), 0, s3).value;
    FinalAttributesTrip(a, s4, t, open, c);
    AtomsTrip(Integers(ignored), 0, s3, c.end);
    CompactTrip(inner, ranges, s2, s3, open, c);
    HeaderTrip(s, [0, 0, 0, LIST], c.end);
    var ints := if Expansion(ranges).Some? then Expansion(ranges).value else [];
    StateTrip(AtomicVector(Integers(ints), []), Expansion(ranges).Some? && CleanNodes(inner, c.f) && c.Clean(s2, s3),
              ignored, s, s3, s4, open, c);
    assert [] + RenameNamed(a, c.f, c.end.log) == RenameNamed(a, c.f, c.end.log);
  }

  /** A wrapped compact sequence is read exactly as the plain vector with the same attributes: the run
      may have numbered more symbols, but every index in what follows still means the same. */
  lemma {:induction false} WrappedTrip(
    info: seq<Node>, inner: seq<Node>, ranges: seq<u64>, ignored: seq<int32>, a: seq<Named>,
    s: Sink, t: Sink, open: set<Key>, c: Run)
    requires c.Valid() && Names(info, WRAP_INTEGER, c.f) && Names(inner, COMPACT_INTSEQ, c.f) && c.Opened(open, s)
    requires EmitWrapped(info, inner, ranges, ignored, a, c.f, s) == Some(t) && c.Covers(t) && |ignored| == 2
    ensures c.Covers(s)
    ensures ParseObject(c.end.out, |s.out|, c.Tables(s, open))
         == match Expansion(ranges)
            case None => Fail
            case Some(ints) =>
              c.Expect(CleanNodes(info, c.f) && CleanNodes(inner, c.f) && CleanNamed(a, c.f) && c.Clean(s, t),
                       RenameObject(AtomicVector(Integers(ints), a), c.f, c.end.log), t, open)
  {
    hide Before, NoDuplicates, Mirror, CleanKey, EmitInfo, EmitState, ParsePairs, Names, RenameNodes, RenameNamed,
      CleanNamed, CleanNodes, NameOf, Expansion, ReadCompact, ParseDeferred, ParseWrapper, ParseObject, Unwritten;
    var u := EmitInfo(info, c.f, s).value;
    WrapperTrip(inner, ranges, ignored, a, u, t, open, c);
    InfoTrip(info, WRAP_INTEGER, s, u, open, c);
    Dispatch(c.end.out, |s.out|, c.Tables(s, open));
  }

  /** In the tables that the parser has at `t`, every name in the list stands for the symbol that it stands
      for in the file. */
  ghost predicate NamesKept(a: seq<Named>, t: Sink, open: set<Key>, c: Run)
  {
    forall j :: 0 <= j < |a| ==> NameKept(a[j].name, t, open, c)
  }

  ghost predicate NameKept(i: nat, t: Sink, open: set<Key>, c: Run)
  {
    var r, symbols := RenameSymbol(i, c.f, c.end.log), c.Tables(t, open).symbols;
    i < |c.f.symbols| && r < |symbols| && symbols[r] == c.f.symbols[i]
  }

  lemma {:induction false} NamesAreKept(a: seq<Named>, s: Sink, t: Sink, open: set<Key>, c: Run)
    requires c.Valid() && EmitNodes([], AsNodes(a), c.f, s) == Some(t) && c.Covers(t)
    ensures NamesKept(a, t, open, c)
  {
    hide EmitNodes, Before, NotShorter, Rank, NoDuplicates, Mirror, Unwritten;
    NamesWritten(a, s, t, c);
    forall j | 0 <= j < |a| ensures NameKept(a[j].name, t, open, c) {
      SymbolNameTrip(c.f.symbols[a[j].name], t, open, c);
    }
  }

  lemma {:induction false} PlainNamesAreKept(d: Atoms, a: seq<Named>, s: Sink, t: Sink, open: set<Key>, c: Run)
    requires c.Valid() && EmitObject(AtomicVector(d, a), c.f, s) == Some(t) && c.Covers(t)
    ensures NamesKept(a, t, open, c)
  {
    hide EmitNodes, EmitAtoms, Before, NotShorter, NoDuplicates, Mirror, NameKept, Unwritten;
    if a != [] { NamesAreKept(a, EmitAtoms(d, AttributeFlags(a, c.f), s).value, t, open, c); }
  }

  lemma WrappedNamesAreKept(
    info: seq<Node>, inner: seq<Node>, ranges: seq<u64>, ignored: seq<int32>, a: seq<Named>,
    s: Sink, t: Sink, open: set<Key>, c: Run)
    requires c.Valid() && EmitWrapped(info, inner, ranges, ignored, a, c.f, s) == Some(t) && c.Covers(t)
    ensures NamesKept(a, t, open, c)
  {
    hide EmitNodes, EmitInfo, EmitCompact, EmitAtoms, Before, NotShorter, NoDuplicates, Mirror, NamesKept, Unwritten;
    var u := EmitCompact(inner, ranges, c.f, EmitHeader(LIST, 0, EmitInfo(info, c.f, s).value)).value;
    NamesAreKept(a, EmitAtoms(Integers(ignored), 0, u).value, t, open, c);
  }

  /** The two encodings of one vector side by side, each in a run of its own, followed by anything. The
      wrapper brings up more symbols, so indices may differ between the runs, but each result is the
      same vector under the one-to-one renaming of its run, and the names of the attributes stand for
      the same symbols. Both readings stop where the writing stopped. */
  lemma {:induction false} WrapperIsTransparent(
    info: seq<Node>, inner: seq<Node>, ranges: seq<u64>, ignored: seq<int32>, a: seq<Named>, ints: seq<int32>,
    s: Sink, t: Sink, open: set<Key>, c: Run, s': Sink, t': Sink, open': set<Key>, c': Run)
    requires c.Valid() && c'.Valid() && c.f == c'.f && c.Opened(open, s) && c'.Opened(open', s')
    requires Names(info, WRAP_INTEGER, c.f) && Names(inner, COMPACT_INTSEQ, c.f)
    requires CleanNodes(info, c.f) && CleanNodes(inner, c.f) && |ignored| == 2 && Expansion(ranges) == Some(ints)
    requires EmitWrapped(info, inner, ranges, ignored, a, c.f, s) == Some(t) && c.Covers(t)
    requires EmitObject(AtomicVector(Integers(ints), a), c'.f, s') == Some(t') && c'.Covers(t')
    requires c.Clean(s, t) && c'.Clean(s', t')
    ensures c.Covers(s) && c'.Covers(s')
    ensures var v := AtomicVector(Integers(ints), a);
            var r, r' := ParseObject(c.end.out, |s.out|, c.Tables(s, open)),
                         ParseObject(c'.end.out, |s'.out|, c'.Tables(s', open'));
            && r.Ok? == r'.Ok? == CleanNamed(a, c.f)
            && (r.Ok? ==>
                  && r == Ok(RenameObject(v, c.f, c.end.log), |t.out|, c.Tables(t, open))
                  && r' == Ok(RenameObject(v, c.f, c'.end.log), |t'.out|, c'.Tables(t', open')))
    ensures NamesKept(a, t, open, c) && NamesKept(a, t', open', c')
  {
    hide Run.Valid, Before, NotShorter, Mirror, CleanKey, Run.Clean, Run.Opened, Names, CleanNodes, Expansion,
      EmitWrapped, EmitObject, ParseObject, NamesKept, RenameNamed, CleanNamed, Unwritten;
    WrappedTrip(info, inner, ranges, ignored, a, s, t, open, c);
    ObjectTrip(AtomicVector(Integers(ints), a), s', t', open', c');
    WrappedNamesAreKept(info, inner, ranges, ignored, a, s, t, open, c);
    PlainNamesAreKept(Integers(ints), a, s', t', open', c');
  }

  // Deferred strings.

  lemma {:induction false} DeferredStateTrip(
    ints: seq<int32>, ignored: seq<int32>, s: Sink, t: Sink, open: set<Key>, c: Run)
    requires c.Valid() && EmitDeferredState(ints, ignored, s) == Some(t) && c.Covers(t) && |ignored| == 1
    ensures c.Covers(s)
    ensures ParseDeferred(c.end.out, |s.out|, c.Tables(s, open))
         == Ok(StringVector(AsStrings(ints), []), |t.out|, c.Tables(t, open))
  {
    hide Before, NoDuplicates, Mirror, CleanKey, EmitAtoms, ReadAtoms, ParseState, ParseObject, AsStrings, Unwritten;
    var s2 := EmitHeader(LIST, 0, s);
    var s3 := EmitAtoms(Integers(ints), 0, s2).value;
    var s4 := EmitAtoms(Integers(ignored), 0, s3).value;
    HeaderTrip(s4, [0, 0, 0, NILVALUE], c.end);
    AtomsTrip(Integers(ignored), 0, s3, c.end);
    AtomsTrip(Integers(ints), 0, s2, c.end);
    HeaderTrip(s, [0, 0, 0, LIST], c.end);
    Dispatch(c.end.out, |s2.out|, c.Tables(s2, open));
    StateTrip(AtomicVector(Integers(ints), []), true, ignored, s, s3, s4, open, c);
  }

  /** Deferred strings are read as strings that spell the integers in decimal. */
  lemma {:induction false} DeferredTrip(
    info: seq<Node>, ints: seq<int32>, ignored: seq<int32>, s: Sink, t: Sink, open: set<Key>, c: Run)
    requires c.Valid() && Names(info, DEFERRED_STRING, c.f) && c.Opened(open, s)
    requires EmitDeferred(info, ints, ignored, c.f, s) == Some(t) && c.Covers(t) && |ignored| == 1
    ensures c.Covers(s)
    ensures ParseObject(c.end.out, |s.out|, c.Tables(s, open))
         == c.Expect(CleanNodes(info, c.f) && c.Clean(s, t),
                     RenameObject(StringVector(AsStrings(ints), []), c.f, c.end.log), t, open)
    ensures AllSpell(AsStrings(ints), ints)
  {
    hide Before, NoDuplicates, Mirror, CleanKey, EmitInfo, EmitDeferredState, ParsePairs, Names, RenameNodes, NameOf,
      ReadCompact, ParseWrapper, ParseDeferred, ParseObject, AsStrings, AllSpell, Unwritten;
    var u := EmitInfo(info, c.f, s).value;
    DeferredStateTrip(ints, ignored, u, t, open, c);
    InfoTrip(info, DEFERRED_STRING, s, u, open, c);
    Dispatch(c.end.out, |s.out|, c.Tables(s, open));
    StringsAreNormal(ints);
    StringsSpell(ints);
  }

  lemma StringsAreNormal(ints: seq<int32>)
    ensures NormalStrings(AsStrings(ints)) == AsStrings(ints)
  {
    NormalAll(AsStrings(ints));
  }
}
