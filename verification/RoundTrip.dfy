/** The parser undoes the writer. Writer and parser are followed in step through one run, with
    the output and the log of the whole run in view: wherever the writer stands, with output
    `s.out` and log `s.log`, the parser stands at position `|s.out|` with tables
    `Mirror(s.log, ...)`, also inside environments and pointers that are only half built. */
module RoundTrip {
  import opened Bytes
  import opened Objects
  import opened WriterSpec
  import opened ParserSpec
  import opened ItemRoundTrip
  import opened References

  // What the format can represent.

  /** No S4 object in the tree has a slot called "class". */
  predicate CleanObject(o: RObject, f: File)
  {
    match o
    case AtomicVector(_, a) => CleanNamed(a, f)
    case StringVector(_, a) => CleanNamed(a, f)
    case GenericVector(es, a) => CleanObjects(es, f) && CleanNamed(a, f)
    case ExpressionVector(es, a) => CleanObjects(es, f) && CleanNamed(a, f)
    case PairList(ns, a) => ns == [] || (CleanNodes(ns, f) && CleanNamed(a, f))
    case S4Object(_, _, a) => !NamesClass(a, f) && CleanNamed(a, f)
    case LanguageObject(_, ns, a) => CleanNodes(ns, f) && CleanNamed(a, f)
    case _ => true
  }

  predicate CleanObjects(os: seq<RObject>, f: File)
  {
    os == [] || (CleanObject(os[0], f) && CleanObjects(os[1..], f))
  }

  predicate CleanNodes(ns: seq<Node>, f: File)
  {
    ns == [] || (assert ns[0].value < ns[0]; CleanObject(ns[0].value, f) && CleanNodes(ns[1..], f))
  }

  predicate CleanNamed(ns: seq<Named>, f: File)
  {
    ns == [] || (assert ns[0].value < ns[0]; CleanObject(ns[0].value, f) && CleanNamed(ns[1..], f))
  }

  lemma {:induction false} CleanAsNodes(ns: seq<Named>, f: File)
    ensures CleanNodes(AsNodes(ns), f) == CleanNamed(ns, f)
  {
    if ns != [] {
      CleanAsNodes(ns[1..], f);
      assert AsNodes(ns)[1..] == AsNodes(ns[1..]);
    }
  }

  /** An environment has at least one variable, and what hangs off a table entry is clean. */
  predicate CleanKey(k: Key, f: File)
  {
    match k
    case Sym(_) => true
    case Env(i) =>
      i < |f.environments| ==>
        var e := f.environments[i];
        e.variables != [] && CleanNamed(e.variables, f) && CleanNamed(e.attributes, f)
    case Ptr(i) =>
      i < |f.pointers| ==>
        var p := f.pointers[i];
        && (p.protection.Some? ==> CleanObject(p.protection.value, f))
        && (p.tag.Some? ==> CleanObject(p.tag.value, f))
        && CleanNamed(p.attributes, f)
  }

  /** A run of the writer: the file, and the output and log at the end. Any input that starts with
      the whole output will do for `end.out`. */
  datatype Run = Run(f: File, end: Sink) {
    ghost predicate Valid() { NoDuplicates(end.log) && end.top < REFERENCE_LIMIT }

    ghost predicate Covers(s: Sink) { Before(s, end) && NotShorter(end, s) }

    /** No entity whose slot is open is numbered from `s` on. */
    ghost predicate Opened(open: set<Key>, s: Sink) { forall j :: |s.log| <= j < |end.log| ==> end.log[j] !in open }

    ghost function Tables(s: Sink, open: set<Key>): Tables { Mirror(s.log, open, f, end.log) }

    /** Every entity that is written in full between `s` and `t` is clean. */
    ghost predicate Clean(s: Sink, t: Sink)
    {
      forall j :: |s.log| <= j < |t.log| && j < |end.log| ==> CleanKey(end.log[j], f)
    }

    /** What the parser must return when it has reached `t`. */
    ghost function Expect<V>(clean: bool, v: V, t: Sink, open: set<Key>): Parse<V>
    {
      if clean then Ok(v, |t.out|, Tables(t, open)) else Fail
    }
  }

  // References and symbols.

  lemma {:induction false} PrefixDistinct(a: seq<Key>, b: seq<Key>)
    requires a <= b && NoDuplicates(b)
    ensures NoDuplicates(a)
    decreases |b|
  {
    if a != b {
      assert a == b[..|a|] && a <= b[..|b| - 1];
      PrefixDistinct(a, b[..|b| - 1]);
    }
  }

  lemma ReferenceTrip(k: Key, s: Sink, open: set<Key>, c: Run)
    requires c.Valid() && k in s.log && c.Covers(EmitReference(k, s))
    ensures c.Covers(s)
    ensures |s.out| + 4 <= |c.end.out| && c.end.out[|s.out| + 3] == REF
    ensures Lookup(c.end.out, |s.out|, c.Tables(s, open)) == Some(Mapping(KindOf(k), Rank(c.end.log, k)))
  {
    var j := Position(s.log, k);
    HeaderTrip(s, ReferenceHeader(j + 1), c.end);
    RankStable(s.log, c.end.log, k);
    ReferenceInverts(j + 1);
    PrefixDistinct(s.log, c.end.log);
    MirrorAt(s.log, j, open, c.f, c.end.log);
  }

  lemma SymbolTrip(symbol: Symbol, s: Sink, t: Sink, open: set<Key>, c: Run)
    requires c.Valid() && EmitSymbol(symbol, c.f, s) == Some(t) && c.Covers(t)
    ensures c.Covers(s) && c.Clean(s, t) && Sym(symbol) in t.log
    ensures ParseTag(c.end.out, |s.out|, c.Tables(s, open))
         == Ok(Rank(c.end.log, Sym(symbol)), |t.out|, c.Tables(t, open))
  {
    hide Unwritten, NoDuplicates, ReadString, EmitText;
    var k := Sym(symbol);
    if k in s.log {
      ReferenceTrip(k, s, open, c);
    } else {
      var s1 := EmitHeader(SYM, 0, s);
      var s2 := EmitText(symbol.name, symbol.encoding, s1).value;
      assert t == s2.(log := s.log + [k]);
      assert Before(s2, c.end);
      assert c.end.log[|s.log|] == k;
      StringTrip(RString(Some(symbol.name), symbol.encoding), s1, c.end);
      HeaderTrip(s, [0, 0, 0, SYM], c.end);
      MirrorAdd(s.log, k, open, c.f, c.end.log);
      MirrorSizes(s.log, open, c.f, c.end.log);
      RankOfLast(s.log, c.end.log, k);
    }
  }

  lemma SymbolIndexTrip(i: nat, s: Sink, t: Sink, open: set<Key>, c: Run)
    requires c.Valid() && EmitSymbolIndex(i, c.f, s) == Some(t) && c.Covers(t)
    ensures c.Covers(s) && c.Clean(s, t)
    ensures ParseTag(c.end.out, |s.out|, c.Tables(s, open))
         == Ok(RenameSymbol(i, c.f, c.end.log), |t.out|, c.Tables(t, open))
  {
    hide Before, Unwritten;
    SymbolTrip(c.f.symbols[i], s, t, open, c);
  }

  lemma TagTrip(tag: Option<nat>, flags: byte, s: Sink, t: Sink, open: set<Key>, c: Run)
    requires c.Valid() && EmitTag(tag, c.f, s) == Some(t) && c.Covers(t) && HasTag(flags) == tag.Some?
    ensures c.Covers(s) && c.Clean(s, t)
    ensures ParseOptionalTag(flags, c.end.out, |s.out|, c.Tables(s, open))
         == Ok(RenameTag(tag, c.f, c.end.log), |t.out|, c.Tables(t, open))
  {
    hide Before, NoDuplicates, Mirror, CleanKey, EmitSymbolIndex, ParseTag, Unwritten;
    if tag.Some? { SymbolIndexTrip(tag.value, s, t, open, c); }
  }

  // Objects.

  lemma {:induction false} ObjectTrip(o: RObject, s: Sink, t: Sink, open: set<Key>, c: Run)
    requires c.Valid() && EmitObject(o, c.f, s) == Some(t) && c.Covers(t) && c.Opened(open, s)
    ensures c.Covers(s)
    ensures ParseObject(c.end.out, |s.out|, c.Tables(s, open))
         == c.Expect(CleanObject(o, c.f) && c.Clean(s, t), RenameObject(o, c.f, c.end.log), t, open)
    decreases Budget(c.f, s.log), Size(o), 0
  {
    hide Before, NoDuplicates, Mirror, CleanKey, ParseObject, Unwritten;
    match o
    case Null => NullTrip(s, c);
    case SymbolIndex(i) =>
      SymbolIndexTrip(i, s, t, open, c);
      TagIsObject(c.end.out, |s.out|, c.Tables(s, open));
    case EnvironmentIndex(e) => EnvironmentTrip(e, s, t, open, c);
    case ExternalPointerIndex(i) => PointerTrip(i, s, t, open, c);
    case AtomicVector(d, a) => AtomicTrip(d, a, s, t, open, c);
    case StringVector(xs, a) => StringVectorTrip(xs, a, s, t, open, c);
    case GenericVector(es, a) => VectorTrip(VEC, es, a, s, t, open, c);
    case ExpressionVector(es, a) => VectorTrip(EXPR, es, a, s, t, open, c);
    case PairList(ns, a) => PairListTrip(ns, a, s, t, open, c);
    case S4Object(cl, p, a) => S4Trip(cl, p, a, s, t, open, c);
    case BuiltInFunction(name) => BuiltInFunctionTrip(name, s, t, open, c);
    case LanguageObject(i, ns, a) => CallTrip(i, ns, a, s, t, open, c);
  }

  lemma NullTrip(s: Sink, c: Run)
    requires c.Covers(EmitHeader(NILVALUE, 0, s))
    ensures c.Covers(s)
    ensures forall st :: ParseObject(c.end.out, |s.out|, st) == Ok(Null, |s.out| + 4, st)
  {
    HeaderTrip(s, [0, 0, 0, NILVALUE], c.end);
  }

  lemma {:induction false} AtomicTrip(d: Atoms, a: seq<Named>, s: Sink, t: Sink, open: set<Key>, c: Run)
    requires c.Valid() && EmitObject(AtomicVector(d, a), c.f, s) == Some(t) && c.Covers(t) && c.Opened(open, s)
    ensures c.Covers(s)
    ensures ParseObject(c.end.out, |s.out|, c.Tables(s, open))
         == c.Expect(CleanNamed(a, c.f) && c.Clean(s, t), AtomicVector(d, RenameNamed(a, c.f, c.end.log)), t, open)
    decreases Budget(c.f, s.log), NamedSize(a), 4
  {
    hide RenameNamed, CleanNamed, Before, NoDuplicates, Mirror, CleanKey, AttributeFlags, NodeFlags, HasAttributes,
      HasTag, EmitAtoms, ReadAtoms, EmitAttributes, ParseOptionalAttributes, ParseObject, Unwritten;
    var flags := AttributeFlags(a, c.f);
    FlagsSay(a, None, c.f);
    var s1 := EmitAtoms(d, flags, s).value;
    AttributesTrip(a, flags, s1, t, open, c);
    AtomsTrip(d, flags, s, c.end);
    Dispatch(c.end.out, |s.out|, c.Tables(s, open));
  }

  lemma {:induction false} StringVectorTrip(xs: seq<RString>, a: seq<Named>, s: Sink, t: Sink, open: set<Key>, c: Run)
    requires c.Valid() && EmitObject(StringVector(xs, a), c.f, s) == Some(t) && c.Covers(t) && c.Opened(open, s)
    ensures c.Covers(s)
    ensures ParseObject(c.end.out, |s.out|, c.Tables(s, open))
         == c.Expect(CleanNamed(a, c.f) && c.Clean(s, t),
                     StringVector(NormalStrings(xs), RenameNamed(a, c.f, c.end.log)), t, open)
    decreases Budget(c.f, s.log), NamedSize(a), 4
  {
    hide RenameNamed, CleanNamed, Before, NoDuplicates, Mirror, CleanKey, AttributeFlags, NodeFlags, HasAttributes,
      HasTag, EmitStringData, ReadStringData, EmitAttributes, ParseOptionalAttributes, ParseObject, Unwritten;
    var flags := AttributeFlags(a, c.f);
    FlagsSay(a, None, c.f);
    var s1 := EmitStringData(xs, flags, s).value;
    AttributesTrip(a, flags, s1, t, open, c);
    StringDataTrip(xs, flags, s, c.end);
    Dispatch(c.end.out, |s.out|, c.Tables(s, open));
  }

  lemma BuiltInFunctionTrip(name: Text, s: Sink, t: Sink, open: set<Key>, c: Run)
    requires EmitBuiltIn(name, s) == Some(t) && c.Covers(t)
    ensures c.Covers(s)
    ensures ParseObject(c.end.out, |s.out|, c.Tables(s, open)) == Ok(BuiltInFunction(name), |t.out|, c.Tables(t, open))
  {
    hide Before, NoDuplicates, Mirror, CleanKey, EmitBuiltIn, ReadBuiltIn, ParsePairs, ParseList, ParseEnvironment,
      Unwritten;
    BuiltInTrip(name, s, c.end);
  }

  lemma {:induction false} PairListTrip(ns: seq<Node>, a: seq<Named>, s: Sink, t: Sink, open: set<Key>, c: Run)
    requires c.Valid() && EmitNodes(a, ns, c.f, s) == Some(t) && c.Covers(t) && c.Opened(open, s)
    ensures c.Covers(s)
    ensures ParseObject(c.end.out, |s.out|, c.Tables(s, open))
         == c.Expect(CleanObject(PairList(ns, a), c.f) && c.Clean(s, t),
                     RenameObject(PairList(ns, a), c.f, c.end.log), t, open)
    decreases Budget(c.f, s.log), NodesSize(ns) + NamedSize(a), 2
  {
    hide Before, NoDuplicates, Mirror, CleanKey, EmitNodes, ParsePairs, Unwritten;
    NodesTrip(a, ns, s, t, open, c);
  }

  lemma {:induction false} VectorTrip(
    code: byte, es: seq<RObject>, a: seq<Named>, s: Sink, t: Sink, open: set<Key>, c: Run)
    requires code == VEC || code == EXPR
    requires c.Valid() && EmitVector(code, es, a, c.f, s) == Some(t) && c.Covers(t)
    requires c.Opened(open, s)
    ensures c.Covers(s)
    ensures ParseObject(c.end.out, |s.out|, c.Tables(s, open))
         == c.Expect(CleanObjects(es, c.f) && CleanNamed(a, c.f) && c.Clean(s, t),
                     RenameObject(if code == VEC then GenericVector(es, a) else ExpressionVector(es, a),
                                  c.f, c.end.log), t, open)
    decreases Budget(c.f, s.log), ObjectsSize(es) + NamedSize(a), 4
  {
    hide RenameObjects, CleanObjects, RenameNamed, CleanNamed, Before, NoDuplicates, Mirror, CleanKey, AttributeFlags,
      NodeFlags, HasAttributes, HasTag, EmitObjects, ParseObjects, EmitAttributes, ParseOptionalAttributes,
      EmitLength, ReadLength, ParseObject, Unwritten, RenameRef, RenameSymbol, ParsePairs, ParseNode, NotSmaller;
    var flags := AttributeFlags(a, c.f);
    FlagsSay(a, None, c.f);
    var s1 := EmitHeader(code, flags, s);
    var s2 := EmitLength(|es|, s1).value;
    var s3 := EmitObjects(es, c.f, s2).value;
    AttributesTrip(a, flags, s3, t, open, c);
    ObjectsTrip(es, s2, s3, open, c);
    LengthTrip(|es|, s1, c.end);
    HeaderTrip(s, [0, 0, flags, code], c.end);
    Dispatch(c.end.out, |s.out|, c.Tables(s, open));
  }

  lemma {:induction false} ObjectsTrip(os: seq<RObject>, s: Sink, t: Sink, open: set<Key>, c: Run)
    requires c.Valid() && EmitObjects(os, c.f, s) == Some(t) && c.Covers(t)
    requires c.Opened(open, s)
    ensures c.Covers(s)
    ensures ParseObjects(|os|, c.end.out, |s.out|, c.Tables(s, open))
         == c.Expect(CleanObjects(os, c.f) && c.Clean(s, t), RenameObjects(os, c.f, c.end.log), t, open)
    decreases Budget(c.f, s.log), ObjectsSize(os), 1
  {
    hide Before, NoDuplicates, Mirror, CleanKey, EmitObject, ParseObject, Unwritten;
    if os != [] {
      var s1 := EmitObject(os[0], c.f, s).value;
      ObjectsTrip(os[1..], s1, t, open, c);
      ObjectTrip(os[0], s, s1, open, c);
    }
  }

  lemma {:induction false} NodesTrip(
    a: seq<Named>, ns: seq<Node>, s: Sink, t: Sink, open: set<Key>, c: Run)
    requires c.Valid() && EmitNodes(a, ns, c.f, s) == Some(t) && c.Covers(t) && c.Opened(open, s)
    ensures c.Covers(s)
    ensures |s.out| + 4 <= |c.end.out| && c.end.out[|s.out| + 3] == if ns == [] then NILVALUE else LIST
    ensures ns == [] ==> t == EmitHeader(NILVALUE, 0, s)
    ensures ns != [] ==>
      ParsePairs(c.end.out[|s.out| + 2], c.end.out, |s.out| + 4, c.Tables(s, open))
      == c.Expect(CleanNodes(ns, c.f) && CleanNamed(a, c.f) && c.Clean(s, t),
                  Pairs(RenameNodes(ns, c.f, c.end.log), RenameNamed(a, c.f, c.end.log)), t, open)
    decreases Budget(c.f, s.log), NodesSize(ns) + NamedSize(a), 1
  {
    hide Before, NoDuplicates, Mirror, CleanKey, EmitNode, ParseNode, ParsePairs, Unwritten;
    if ns == [] {
      HeaderTrip(s, [0, 0, 0, NILVALUE], c.end);
    } else {
      var u := EmitNode(a, ns[0], c.f, s).value;
      var n' := Node(RenameTag(ns[0].tag, c.f, c.end.log), RenameObject(ns[0].value, c.f, c.end.log));
      TailTrip(ns[1..], u, t, open, c);
      NodeTrip(a, ns[0], s, u, open, c);
      Attach(c.end.out[|s.out| + 2], |s.out| + 4, c.Tables(s, open), [n'], RenameNamed(a, c.f, c.end.log),
             CleanObject(ns[0].value, c.f) && CleanNamed(a, c.f) && c.Clean(s, u), ns[1..], u, t, open, c);
    }
  }

  /** What follows the first node of a pairlist. */
  ghost predicate Continues(ns: seq<Node>, s: Sink, t: Sink, open: set<Key>, c: Run)
  {
    && |s.out| + 4 <= |c.end.out|
    && (if ns == [] then c.end.out[|s.out| + 3] == NILVALUE && t == EmitHeader(NILVALUE, 0, s)
        else
          && c.end.out[|s.out| + 3] == LIST
          && ParsePairs(c.end.out[|s.out| + 2], c.end.out, |s.out| + 4, c.Tables(s, open))
             == c.Expect(CleanNodes(ns, c.f) && c.Clean(s, t), Pairs(RenameNodes(ns, c.f, c.end.log), []), t, open))
  }

  lemma {:induction false} TailTrip(ns: seq<Node>, s: Sink, t: Sink, open: set<Key>, c: Run)
    requires c.Valid() && EmitNodes([], ns, c.f, s) == Some(t) && c.Covers(t) && c.Opened(open, s)
    ensures c.Covers(s) && Continues(ns, s, t, open, c)
    decreases Budget(c.f, s.log), NodesSize(ns), 2
  {
    hide Before, NoDuplicates, Mirror, CleanKey, EmitNodes, ParsePairs, Unwritten;
    NodesTrip([], ns, s, t, open, c);
  }

  /** A first node in front of the rest. */
  lemma Attach(flags: byte, pos: nat, st: Tables, first: seq<Node>, a: seq<Named>, clean: bool,
               ns: seq<Node>, s: Sink, t: Sink, open: set<Key>, c: Run)
    requires pos <= |c.end.out| && Continues(ns, s, t, open, c)
    requires ParseNode(flags, c.end.out, pos, st) == c.Expect(clean, Pairs(first, a), s, open)
    ensures ParsePairs(flags, c.end.out, pos, st)
         == c.Expect(clean && CleanNodes(ns, c.f) && c.Clean(s, t),
                     Pairs(first + RenameNodes(ns, c.f, c.end.log), a), t, open)
  {
    hide ParseNode, ParsePairs, CleanKey, Mirror, Unwritten;
    PairsUnfold(flags, c.end.out, pos, st);
    assert a + [] == a && first + [] == first;
  }

  lemma {:induction false} NodeTrip(a: seq<Named>, n: Node, s: Sink, t: Sink, open: set<Key>, c: Run)
    requires c.Valid() && EmitNode(a, n, c.f, s) == Some(t) && c.Covers(t) && c.Opened(open, s)
    ensures c.Covers(s)
    ensures |s.out| + 4 <= |c.end.out| && c.end.out[|s.out| + 3] == LIST
    ensures ParseNode(c.end.out[|s.out| + 2], c.end.out, |s.out| + 4, c.Tables(s, open))
         == c.Expect(CleanObject(n.value, c.f) && CleanNamed(a, c.f) && c.Clean(s, t),
                     Pairs([Node(RenameTag(n.tag, c.f, c.end.log), RenameObject(n.value, c.f, c.end.log))],
                           RenameNamed(a, c.f, c.end.log)), t, open)
    decreases Budget(c.f, s.log), 1 + Size(n.value) + NamedSize(a), 0
  {
    hide RenameNamed, CleanNamed, Before, NoDuplicates, Mirror, CleanKey, AttributeFlags, NodeFlags, HasAttributes,
      HasTag, EmitAttributes, ParseOptionalAttributes, EmitTag, ParseOptionalTag, EmitObject, ParseObject, Unwritten;
    var flags := NodeFlags(a, n.tag);
    FlagsSay(a, n.tag, c.f);
    var s1 := EmitHeader(LIST, flags, s);
    var s2 := EmitAttributes(a, c.f, s1).value;
    var s3 := EmitTag(n.tag, c.f, s2).value;
    ObjectTrip(n.value, s3, t, open, c);
    TagTrip(n.tag, flags, s2, s3, open, c);
    AttributesTrip(a, flags, s1, s2, open, c);
    HeaderTrip(s, [0, 0, flags, LIST], c.end);
  }

  lemma {:induction false} AttributesTrip(a: seq<Named>, flags: byte, s: Sink, t: Sink, open: set<Key>, c: Run)
    requires c.Valid() && EmitAttributes(a, c.f, s) == Some(t) && c.Covers(t)
    requires HasAttributes(flags) == (a != [])
    requires c.Opened(open, s)
    ensures c.Covers(s)
    ensures ParseOptionalAttributes(flags, c.end.out, |s.out|, c.Tables(s, open))
         == c.Expect(CleanNamed(a, c.f) && c.Clean(s, t), RenameNamed(a, c.f, c.end.log), t, open)
    decreases Budget(c.f, s.log), NamedSize(a), 3
  {
    if a != [] { NamedTrip(a, s, t, open, c); }
  }

  /** A pairlist in which every node is tagged. */
  lemma {:induction false} NamedTrip(a: seq<Named>, s: Sink, t: Sink, open: set<Key>, c: Run)
    requires c.Valid() && EmitNodes([], AsNodes(a), c.f, s) == Some(t) && c.Covers(t)
    requires c.Opened(open, s)
    ensures c.Covers(s)
    ensures |s.out| + 4 <= |c.end.out| && c.end.out[|s.out| + 3] == if a == [] then NILVALUE else LIST
    ensures a == [] ==> t == EmitHeader(NILVALUE, 0, s)
    ensures a != [] ==>
      ParseAttributes(c.end.out[|s.out| + 2], c.end.out, |s.out| + 4, c.Tables(s, open))
      == c.Expect(CleanNamed(a, c.f) && c.Clean(s, t), RenameNamed(a, c.f, c.end.log), t, open)
    decreases Budget(c.f, s.log), NamedSize(a), 2
  {
    hide Before, NoDuplicates, Mirror, CleanKey, EmitNodes, ParsePairs, Unwritten;
    AsNodesSize(a);
    NodesTrip([], AsNodes(a), s, t, open, c);
    RenameAsNodes(a, c.f, c.end.log);
    NamedInverts(RenameNamed(a, c.f, c.end.log));
    CleanAsNodes(a, c.f);
  }

  /** The function of a call is read as an untagged node. */
  lemma {:induction false} CallNodeTrip(
    i: nat, a: seq<Named>, s: Sink, u: Sink, t: Sink, open: set<Key>, c: Run)
    requires c.Valid() && EmitAttributes(a, c.f, EmitHeader(LANG, AttributeFlags(a, c.f), s)) == Some(u)
    requires EmitSymbolIndex(i, c.f, u) == Some(t) && c.Covers(t) && c.Opened(open, s)
    ensures c.Covers(s)
    ensures |s.out| + 4 <= |c.end.out| && c.end.out[|s.out| + 3] == LANG
    ensures ParseNode(c.end.out[|s.out| + 2], c.end.out, |s.out| + 4, c.Tables(s, open))
         == c.Expect(CleanNamed(a, c.f) && c.Clean(s, t),
                     Pairs([Node(None, SymbolIndex(RenameSymbol(i, c.f, c.end.log)))], RenameNamed(a, c.f, c.end.log)),
                     t, open)
    decreases Budget(c.f, s.log), NamedSize(a), 4
  {
    hide Before, NoDuplicates, Mirror, CleanKey, AttributeFlags, HasAttributes, HasTag, EmitAttributes,
      ParseOptionalAttributes, EmitSymbolIndex, ParseTag, ParseObject, Unwritten;
    var flags := AttributeFlags(a, c.f);
    FlagsSay(a, None, c.f);
    SymbolIndexTrip(i, u, t, open, c);
    AttributesTrip(a, flags, EmitHeader(LANG, flags, s), u, open, c);
    HeaderTrip(s, [0, 0, flags, LANG], c.end);
    TagIsObject(c.end.out, |u.out|, c.Tables(u, open));
  }

  lemma CallOf(i: nat, ns: seq<Node>, a: seq<Named>)
    ensures AsCall(Pairs([Node(None, SymbolIndex(i))] + ns, a)) == Some(LanguageObject(i, ns, a))
  {
    assert ([Node(None, SymbolIndex(i))] + ns)[1..] == ns;
  }

  lemma {:induction false} CallTrip(
    i: nat, ns: seq<Node>, a: seq<Named>, s: Sink, t: Sink, open: set<Key>, c: Run)
    requires c.Valid() && EmitCall(i, ns, a, c.f, s) == Some(t) && c.Covers(t)
    requires c.Opened(open, s)
    ensures c.Covers(s)
    ensures ParseObject(c.end.out, |s.out|, c.Tables(s, open))
         == c.Expect(CleanNodes(ns, c.f) && CleanNamed(a, c.f) && c.Clean(s, t),
                     RenameObject(LanguageObject(i, ns, a), c.f, c.end.log), t, open)
    decreases Budget(c.f, s.log), NodesSize(ns) + NamedSize(a), 5
  {
    hide AsCall, RenameNamed, CleanNamed, RenameNodes, CleanNodes, Before, NoDuplicates, Mirror, CleanKey,
      AttributeFlags, EmitAttributes, EmitSymbolIndex, EmitNodes, ParsePairs, ParseNode, ParseObject, Continues,
      Unwritten, RenameRef, RenameSymbol;
    var s2 := EmitAttributes(a, c.f, EmitHeader(LANG, AttributeFlags(a, c.f), s)).value;
    var s3 := EmitSymbolIndex(i, c.f, s2).value;
    TailTrip(ns, s3, t, open, c);
    CallNodeTrip(i, a, s, s2, s3, open, c);
    Dispatch(c.end.out, |s.out|, c.Tables(s, open));
    var call := [Node(None, SymbolIndex(RenameSymbol(i, c.f, c.end.log)))];
    Attach(c.end.out[|s.out| + 2], |s.out| + 4, c.Tables(s, open), call, RenameNamed(a, c.f, c.end.log),
           CleanNamed(a, c.f) && c.Clean(s, s3), ns, s3, t, open, c);
    CallOf(RenameSymbol(i, c.f, c.end.log), RenameNodes(ns, c.f, c.end.log), RenameNamed(a, c.f, c.end.log));
  }

  // Environments and external pointers.

  lemma {:induction false} EnvironmentTrip(e: EnvRef, s: Sink, t: Sink, open: set<Key>, c: Run)
    requires c.Valid() && EmitEnvironment(e, c.f, s) == Some(t) && c.Covers(t) && c.Opened(open, s)
    ensures c.Covers(s)
    ensures ParseParent(c.end.out, |s.out|, c.Tables(s, open))
         == c.Expect(c.Clean(s, t), RenameRef(e, c.end.log), t, open)
    ensures ParseObject(c.end.out, |s.out|, c.Tables(s, open))
         == c.Expect(c.Clean(s, t), EnvironmentIndex(RenameRef(e, c.end.log)), t, open)
    decreases Budget(c.f, s.log), 0, 1
  {
    hide Before, NoDuplicates, Mirror, CleanKey, ParseBody, ParseEnvironment, EmitNewEnvironment, Unwritten;
    match e
    case GlobalEnv => SpecialTrip(GLOBALENV, s, open, c);
    case BaseEnv => SpecialTrip(BASEENV, s, open, c);
    case EmptyEnv => SpecialTrip(EMPTYENV, s, open, c);
    case Ordinary(i) =>
      if Env(i) in s.log {
        ReferenceTrip(Env(i), s, open, c);
        ReferenceIsObject(c.end.out, |s.out|, c.Tables(s, open));
      } else {
        NewEnvironmentTrip(i, s, t, open, c);
        ParentIsObject(c.end.out, |s.out|, c.Tables(s, open));
      }
  }

  lemma SpecialTrip(code: byte, s: Sink, open: set<Key>, c: Run)
    requires code in {GLOBALENV, BASEENV, EMPTYENV} && c.Covers(EmitHeader(code, 0, s))
    ensures c.Covers(s)
    ensures var e := if code == GLOBALENV then GlobalEnv else if code == BASEENV then BaseEnv else EmptyEnv;
            var t := EmitHeader(code, 0, s);
            && ParseParent(c.end.out, |s.out|, c.Tables(s, open)) == Ok(e, |t.out|, c.Tables(t, open))
            && ParseObject(c.end.out, |s.out|, c.Tables(s, open)) == Ok(EnvironmentIndex(e), |t.out|, c.Tables(t, open))
  {
    HeaderTrip(s, [0, 0, 0, code], c.end);
    ParentIsObject(c.end.out, |s.out|, c.Tables(s, open));
  }

  lemma {:induction false} VariablesTrip(a: seq<Named>, s: Sink, t: Sink, open: set<Key>, c: Run)
    requires c.Valid() && EmitNodes([], AsNodes(a), c.f, s) == Some(t) && c.Covers(EmitHeader(NILVALUE, 0, t))
    requires c.Opened(open, s)
    ensures c.Covers(s)
    ensures ParseVariables(c.end.out, |s.out|, c.Tables(s, open))
         == c.Expect(a != [] && CleanNamed(a, c.f) && c.Clean(s, t),
                     (false, RenameNamed(a, c.f, c.end.log)), EmitHeader(NILVALUE, 0, t), open)
    decreases Budget(c.f, s.log), NamedSize(a), 3
  {
    hide Before, NoDuplicates, Mirror, CleanKey, EmitNodes, ParseAttributes, Unwritten;
    HeaderTrip(t, [0, 0, 0, NILVALUE], c.end);
    NamedTrip(a, s, t, open, c);
  }

  lemma {:induction false} FinalAttributesTrip(a: seq<Named>, s: Sink, t: Sink, open: set<Key>, c: Run)
    requires c.Valid() && EmitNodes([], AsNodes(a), c.f, s) == Some(t) && c.Covers(t) && c.Opened(open, s)
    ensures c.Covers(s)
    ensures ParseFinalAttributes(c.end.out, |s.out|, c.Tables(s, open))
         == c.Expect(CleanNamed(a, c.f) && c.Clean(s, t), RenameNamed(a, c.f, c.end.log), t, open)
    decreases Budget(c.f, s.log), NamedSize(a), 3
  {
    hide Before, NoDuplicates, Mirror, CleanKey, EmitNodes, ParseAttributes, Unwritten;
    NamedTrip(a, s, t, open, c);
  }

  /** While an entity is being written, its key is the last one given before `s0`. */
  lemma Opening(k: Key, s: Sink, s0: Sink, t: Sink, open: set<Key>, c: Run)
    requires c.Valid() && c.Opened(open, s) && s0 == s.(log := s.log + [k]) && Before(s0, t)
    requires NotShorter(t, s0) && c.Covers(t)
    ensures c.Covers(s) && c.Opened(open + {k}, s0) && k !in open && NoDuplicates(t.log) && Follows(s.log, k, t.log)
    ensures Rank(c.end.log, k) == Count(s.log, KindOf(k))
    ensures c.Clean(s, t) <==> CleanKey(k, c.f) && c.Clean(s0, t)
  {
    var n := |s.log|;
    assert c.end.log[n] == k;
    forall j | n < j < |c.end.log| ensures c.end.log[j] != k { Distinct(c.end.log, n, j); }
    PrefixDistinct(t.log, c.end.log);
    RankOfLast(s.log, c.end.log, k);
  }

  /** The number of an environment is handed out before its contents are read, so that they may
      refer to it; reading succeeds only if there is a variable. */
  lemma {:induction false} NewEnvironmentTrip(i: nat, s: Sink, t: Sink, open: set<Key>, c: Run)
    requires c.Valid() && i < |c.f.environments| && Env(i) !in s.log && c.Opened(open, s)
    requires EmitNewEnvironment(i, c.f, s) == Some(t) && c.Covers(t)
    ensures c.Covers(s)
    ensures |s.out| + 4 <= |c.end.out| && c.end.out[|s.out| + 3] == ENV
    ensures ParseEnvironment(c.end.out, |s.out| + 4, c.Tables(s, open))
         == c.Expect(c.Clean(s, t), Rank(c.end.log, Env(i)), t, open)
    decreases Budget(c.f, s.log), 0, 0
  {
    hide Before, NoDuplicates, Mirror, Rank, Follows, AttributeFlags, EmitEnvironmentBody, ParseEnvironmentBody,
      RenameEnvironment, CleanNamed, Unwritten;
    var k, env := Env(i), c.f.environments[i];
    var s0 := Register(c.f, s, k);
    var s1 := EmitHeader(ENV, AttributeFlags(env.attributes, c.f), s0);
    var open' := open + {k};
    Opening(k, s, s0, t, open, c);
    EnvironmentBodyTrip(env, s1, t, open', c);
    HeaderTrip(s0, [0, 0, AttributeFlags(env.attributes, c.f), ENV], c.end);
    OpeningEnvironment(s.log, i, open, c.f, c.end.log);
    ClosingEnvironment(s.log, t.log, i, open, c.f, c.end.log);
  }

  lemma {:induction false} EnvironmentBodyTrip(env: Environment, s: Sink, t: Sink, open: set<Key>, c: Run)
    requires c.Valid() && EmitEnvironmentBody(env, c.f, s) == Some(t) && c.Covers(t) && c.Opened(open, s)
    ensures c.Covers(s)
    ensures ParseEnvironmentBody(c.end.out, |s.out|, c.Tables(s, open))
         == c.Expect(env.variables != [] && CleanNamed(env.variables, c.f) && CleanNamed(env.attributes, c.f)
                     && c.Clean(s, t),
                     RenameEnvironment(env, c.f, c.end.log), t, open)
    decreases Budget(c.f, s.log), NamedSize(env.variables) + NamedSize(env.attributes), 4
  {
    hide Before, NoDuplicates, Mirror, CleanKey, EmitEnvironment, ParseParent, EmitNodes, ParseVariables,
      ParseFinalAttributes, ReadInt32, CleanNamed, RenameNamed, RenameRef, Unwritten;
    var locked := if env.locked then 1 else 0;
    var s1 := EmitInteger(locked, s);
    var s2 := EmitEnvironment(env.parent, c.f, s1).value;
    var s3 := EmitNodes([], AsNodes(env.variables), c.f, s2).value;
    var s4 := EmitHeader(NILVALUE, 0, s3);
    FinalAttributesTrip(env.attributes, s4, t, open, c);
    VariablesTrip(env.variables, s2, s3, open, c);
    EnvironmentTrip(env.parent, s1, s2, open, c);
    IntegerTrip(locked, s, c.end);
  }

  lemma {:induction false} PointerTrip(i: nat, s: Sink, t: Sink, open: set<Key>, c: Run)
    requires c.Valid() && EmitPointer(i, c.f, s) == Some(t) && c.Covers(t) && c.Opened(open, s)
    ensures c.Covers(s)
    ensures ParseObject(c.end.out, |s.out|, c.Tables(s, open))
         == c.Expect(c.Clean(s, t), ExternalPointerIndex(Rank(c.end.log, Ptr(i))), t, open)
    decreases Budget(c.f, s.log), 0, 1
  {
    hide Before, NoDuplicates, Mirror, CleanKey, EmitNewPointer, ParsePointer, ParseObject, Unwritten;
    if Ptr(i) in s.log {
      ReferenceTrip(Ptr(i), s, open, c);
      ReferenceIsObject(c.end.out, |s.out|, c.Tables(s, open));
    } else {
      NewPointerTrip(i, s, t, open, c);
      Dispatch(c.end.out, |s.out|, c.Tables(s, open));
    }
  }

  lemma {:induction false} NewPointerTrip(i: nat, s: Sink, t: Sink, open: set<Key>, c: Run)
    requires c.Valid() && i < |c.f.pointers| && Ptr(i) !in s.log && c.Opened(open, s)
    requires EmitNewPointer(i, c.f, s) == Some(t) && c.Covers(t)
    ensures c.Covers(s)
    ensures |s.out| + 4 <= |c.end.out| && c.end.out[|s.out| + 3] == EXTPTR
    ensures ParsePointer(c.end.out[|s.out| + 2], c.end.out, |s.out| + 4, c.Tables(s, open))
         == c.Expect(c.Clean(s, t), ExternalPointerIndex(Rank(c.end.log, Ptr(i))), t, open)
    decreases Budget(c.f, s.log), 0, 0
  {
    hide Before, NoDuplicates, Mirror, Rank, Follows, AttributeFlags, HasAttributes, EmitPointerBody,
      ParsePointerBody, RenamePointer, CleanNamed, CleanObject, Unwritten;
    var k, p := Ptr(i), c.f.pointers[i];
    var flags := AttributeFlags(p.attributes, c.f);
    var s0 := Register(c.f, s, k);
    var s1 := EmitHeader(EXTPTR, flags, s0);
    var open' := open + {k};
    FlagsSay(p.attributes, None, c.f);
    Opening(k, s, s0, t, open, c);
    PointerBodyTrip(p, flags, s1, t, open', c);
    HeaderTrip(s0, [0, 0, flags, EXTPTR], c.end);
    OpeningPointer(s.log, i, open, c.f, c.end.log);
    ClosingPointer(s.log, t.log, i, open, c.f, c.end.log);
  }

  lemma {:induction false} PointerBodyTrip(
    p: ExternalPointer, flags: byte, s: Sink, t: Sink, open: set<Key>, c: Run)
    requires p.protection.Some? && p.tag.Some? && HasAttributes(flags) == (p.attributes != [])
    requires c.Valid() && EmitPointerBody(p, c.f, s) == Some(t) && c.Covers(t) && c.Opened(open, s)
    ensures c.Covers(s)
    ensures ParsePointerBody(flags, c.end.out, |s.out|, c.Tables(s, open))
         == c.Expect(CleanObject(p.protection.value, c.f) && CleanObject(p.tag.value, c.f)
                     && CleanNamed(p.attributes, c.f) && c.Clean(s, t),
                     RenamePointer(p, c.f, c.end.log), t, open)
    decreases Budget(c.f, s.log), Size(p.protection.value) + Size(p.tag.value) + NamedSize(p.attributes), 4
  {
    hide Before, NoDuplicates, Mirror, CleanKey, HasAttributes, EmitObject, ParseObject, EmitAttributes,
      ParseOptionalAttributes, CleanObject, CleanNamed, RenameObject, RenameNamed, Unwritten;
    var s1 := EmitObject(p.protection.value, c.f, s).value;
    var s2 := EmitObject(p.tag.value, c.f, s1).value;
    AttributesTrip(p.attributes, flags, s2, t, open, c);
    ObjectTrip(p.tag.value, s1, s2, open, c);
    ObjectTrip(p.protection.value, s, s1, open, c);
  }

  // S4 objects.

  function PackageValue(p: Symbol, L: seq<Key>): seq<Named>
  {
    [Named(Rank(L, Sym(PACKAGE_SYMBOL)), StringVector([Present(p)], []))]
  }

  function ClassValue(cl: Symbol, p: Symbol, L: seq<Key>): RObject
  {
    StringVector([Present(cl)], PackageValue(p, L))
  }

  lemma PackageTrip(p: Symbol, s: Sink, t: Sink, open: set<Key>, c: Run)
    requires c.Valid() && EmitPackage(p, c.f, s) == Some(t) && c.Covers(t) && c.Opened(open, s)
    ensures c.Covers(s) && c.Clean(s, t) && Sym(PACKAGE_SYMBOL) in t.log
    ensures ParseOptionalAttributes(2, c.end.out, |s.out|, c.Tables(s, open))
         == Ok(PackageValue(p, c.end.log), |t.out|, c.Tables(t, open))
  {
    hide Before, NoDuplicates, Mirror, CleanKey, Rank, EmitSymbol, EmitStringData, ParseTag, ParseObject, ParsePairs,
      Unwritten;
    var s1 := EmitHeader(LIST, 4, s);
    var s2 := EmitSymbol(PACKAGE_SYMBOL, c.f, s1).value;
    var s3 := EmitStringData([Present(p)], 0, s2).value;
    var n := Node(Some(Rank(c.end.log, Sym(PACKAGE_SYMBOL))), StringVector([Present(p)], []));
    HeaderTrip(s3, [0, 0, 0, NILVALUE], c.end);
    PresentTrip(p, s2, s3, open, c);
    SymbolTrip(PACKAGE_SYMBOL, s1, s2, open, c);
    HeaderTrip(s, [0, 0, 4, LIST], c.end);
    assert ParseNode(4, c.end.out, |s1.out|, c.Tables(s, open)) == Ok(Pairs([n], []), |s3.out|, c.Tables(s3, open));
    Attach(4, |s1.out|, c.Tables(s, open), [n], [], true, [], s3, t, open, c);
    NamedInverts(PackageValue(p, c.end.log));
    assert AsNodes(PackageValue(p, c.end.log)) == [n] + [];
  }

  lemma PresentNormal(p: Symbol)
    ensures NormalStrings([Present(p)]) == [Present(p)]
  {
    assert NormalStrings([Present(p)][1..]) == [];
  }

  lemma PresentTrip(p: Symbol, s: Sink, t: Sink, open: set<Key>, c: Run)
    requires EmitStringData([Present(p)], 0, s) == Some(t) && c.Covers(t)
    ensures c.Covers(s)
    ensures ParseObject(c.end.out, |s.out|, c.Tables(s, open))
         == Ok(StringVector([Present(p)], []), |t.out|, c.Tables(t, open))
  {
    hide Before, NoDuplicates, Mirror, CleanKey, ParseObject, EmitStringData, ReadStringData, EmitStrings, Unwritten;
    StringDataTrip([Present(p)], 0, s, c.end);
    PresentNormal(p);
    Dispatch(c.end.out, |s.out|, c.Tables(s, open));
  }

  lemma ClassTrip(cl: Symbol, p: Symbol, s: Sink, u: Sink, t: Sink, open: set<Key>, c: Run)
    requires c.Valid() && EmitStringData([Present(cl)], 2, s) == Some(u) && c.Opened(open, s)
    requires EmitPackage(p, c.f, u) == Some(t) && c.Covers(t)
    ensures c.Covers(s) && c.Clean(s, t) && Sym(PACKAGE_SYMBOL) in t.log
    ensures ParseObject(c.end.out, |s.out|, c.Tables(s, open))
         == Ok(ClassValue(cl, p, c.end.log), |t.out|, c.Tables(t, open))
  {
    hide Before, NoDuplicates, Mirror, CleanKey, ParseObject, EmitPackage, EmitStringData, ReadStringData,
      ParseOptionalAttributes, PackageValue, Unwritten;
    PackageTrip(p, u, t, open, c);
    StringDataTrip([Present(cl)], 2, s, c.end);
    PresentNormal(cl);
    Dispatch(c.end.out, |s.out|, c.Tables(s, open));
  }

  /** The class slot is read as the first node of the list of slots. */
  lemma S4HeadTrip(cl: Symbol, p: Symbol, s: Sink, t: Sink, open: set<Key>, c: Run)
    requires c.Valid() && EmitS4Head(cl, p, c.f, s) == Some(t) && c.Covers(t) && c.Opened(open, s)
    ensures c.Covers(s) && c.Clean(s, t) && Sym(CLASS_SYMBOL) in t.log && Sym(PACKAGE_SYMBOL) in t.log
    ensures |s.out| + 8 <= |c.end.out|
    ensures var T, p1 := c.end.out, |s.out|;
            T[p1 + 1] == 1 && T[p1 + 2] == 3 && T[p1 + 3] == S4 && T[p1 + 6] == 4 && T[p1 + 7] == LIST
    ensures ParseNode(4, c.end.out, |s.out| + 8, c.Tables(s, open))
         == Ok(Pairs([Node(Some(Rank(c.end.log, Sym(CLASS_SYMBOL))), ClassValue(cl, p, c.end.log))], []),
               |t.out|, c.Tables(t, open))
  {
    hide Before, NoDuplicates, Mirror, CleanKey, Rank, EmitSymbol, EmitStringData, EmitPackage, ParseTag, ParseObject,
      ClassValue, Unwritten;
    var s1 := Put(s, [0, 1, 3, S4]);
    var s2 := EmitHeader(LIST, 4, s1);
    var s3 := EmitSymbol(CLASS_SYMBOL, c.f, s2).value;
    var s4 := EmitStringData([Present(cl)], 2, s3).value;
    ClassTrip(cl, p, s3, s4, t, open, c);
    SymbolTrip(CLASS_SYMBOL, s2, s3, open, c);
    HeaderTrip(s1, [0, 0, 4, LIST], c.end);
    HeaderTrip(s, [0, 1, 3, S4], c.end);
    KeyStays(CLASS_SYMBOL, s3, t, c);
  }

  lemma KeyStays(symbol: Symbol, s: Sink, t: Sink, c: Run)
    requires Sym(symbol) in s.log && c.Covers(s) && c.Covers(t) && NotShorter(t, s)
    ensures Sym(symbol) in t.log
  {
    var j := Position(s.log, Sym(symbol));
    assert s.log[j] == c.end.log[j] == t.log[j];
  }

  /** Every name in a list that has been written is in the log. */
  lemma {:induction false} NamesWritten(a: seq<Named>, s: Sink, t: Sink, c: Run)
    requires EmitNodes([], AsNodes(a), c.f, s) == Some(t) && c.Covers(t)
    ensures c.Covers(s)
    ensures forall j :: 0 <= j < |a| ==> a[j].name < |c.f.symbols| && Sym(c.f.symbols[a[j].name]) in t.log
  {
    hide Before, NoDuplicates, EmitNode, Unwritten;
    if a == [] {
      HeaderTrip(s, [0, 0, 0, NILVALUE], c.end);
    } else {
      var ns := AsNodes(a);
      assert ns[1..] == AsNodes(a[1..]);
      var u := EmitNode([], ns[0], c.f, s).value;
      NamesWritten(a[1..], u, t, c);
      NameWritten(ns[0], s, u, c);
      KeyStays(c.f.symbols[a[0].name], u, t, c);
      assert forall j :: 0 < j < |a| ==> a[j] == a[1..][j - 1];
    }
  }

  lemma NameWritten(n: Node, s: Sink, t: Sink, c: Run)
    requires EmitNode([], n, c.f, s) == Some(t) && c.Covers(t) && n.tag.Some?
    ensures c.Covers(s) && n.tag.value < |c.f.symbols| && Sym(c.f.symbols[n.tag.value]) in t.log
  {
    hide EmitObject, NoDuplicates, Unwritten, EmitText;
    var u := EmitSymbolIndex(n.tag.value, c.f, EmitHeader(LIST, NodeFlags([], n.tag), s)).value;
    assert c.Covers(u);
    KeyStays(c.f.symbols[n.tag.value], u, t, c);
  }

  /** The parser finds the name that the writer looked up. */
  lemma NameTrip(i: nat, t: Sink, open: set<Key>, c: Run)
    requires c.Valid() && c.Covers(t) && i < |c.f.symbols| && Sym(c.f.symbols[i]) in t.log
    ensures NameOf(RenameSymbol(i, c.f, c.end.log), c.Tables(t, open)) == c.f.symbols[i].name
  {
    SymbolNameTrip(c.f.symbols[i], t, open, c);
  }

  lemma SymbolNameTrip(symbol: Symbol, t: Sink, open: set<Key>, c: Run)
    requires c.Valid() && c.Covers(t) && Sym(symbol) in t.log
    ensures var i, symbols := Rank(c.end.log, Sym(symbol)), c.Tables(t, open).symbols;
            i < |symbols| && symbols[i] == symbol
    ensures NameOf(Rank(c.end.log, Sym(symbol)), c.Tables(t, open)) == symbol.name
  {
    RankStable(t.log, c.end.log, Sym(symbol));
    PrefixDistinct(t.log, c.end.log);
    MirrorAt(t.log, Position(t.log, Sym(symbol)), open, c.f, c.end.log);
  }

  /** Once the class has been found, the rest are slots, unless one of them is a second class. */
  lemma {:induction false} SlotsTrip(
    cp: (Symbol, Symbol), slots: seq<Named>, done: seq<Named>, t: Sink, open: set<Key>, c: Run)
    requires c.Valid() && c.Covers(t)
    requires forall j :: 0 <= j < |slots| ==> slots[j].name < |c.f.symbols| && Sym(c.f.symbols[slots[j].name]) in t.log
    ensures AsS4(AsNodes(RenameNamed(slots, c.f, c.end.log)), Some(cp), done, c.Tables(t, open))
         == if NamesClass(slots, c.f) then None
            else Some(S4Object(cp.0, cp.1, done + RenameNamed(slots, c.f, c.end.log)))
    decreases |slots|
  {
    hide Before, NoDuplicates, Mirror, RenameObject, RenameSymbol, Unwritten;
    var r := RenameNamed(slots, c.f, c.end.log);
    if slots == [] {
      assert done + r == done;
    } else {
      NameTrip(slots[0].name, t, open, c);
      var rest := RenameNamed(slots[1..], c.f, c.end.log);
      assert r[0].name == RenameSymbol(slots[0].name, c.f, c.end.log) && r[1..] == rest;
      assert AsNodes(r)[1..] == AsNodes(rest);
      assert NamesClass(slots, c.f)
        <==> c.f.symbols[slots[0].name].name == CLASS_NAME || NamesClass(slots[1..], c.f) by {
        forall j | 0 <= j < |slots[1..]| ensures slots[1..][j] == slots[j + 1] {}
        if NamesClass(slots, c.f) && c.f.symbols[slots[0].name].name != CLASS_NAME {
          var j :| 0 <= j < |slots| && slots[j].name < |c.f.symbols| && c.f.symbols[slots[j].name].name == CLASS_NAME;
          assert slots[1..][j - 1] == slots[j];
        }
      }
      SlotsTrip(cp, slots[1..], done + [r[0]], t, open, c);
      assert done + [r[0]] + rest == done + r;
    }
  }

  lemma {:induction false} ExtractTrip(cl: Symbol, p: Symbol, slots: seq<Named>, t: Sink, open: set<Key>, c: Run)
    requires c.Valid() && c.Covers(t) && Sym(CLASS_SYMBOL) in t.log && Sym(PACKAGE_SYMBOL) in t.log
    requires forall j :: 0 <= j < |slots| ==> slots[j].name < |c.f.symbols| && Sym(c.f.symbols[slots[j].name]) in t.log
    ensures AsS4([Node(Some(Rank(c.end.log, Sym(CLASS_SYMBOL))), ClassValue(cl, p, c.end.log))]
                 + AsNodes(RenameNamed(slots, c.f, c.end.log)), None, [], c.Tables(t, open))
         == if NamesClass(slots, c.f) then None else Some(S4Object(cl, p, RenameNamed(slots, c.f, c.end.log)))
  {
    hide Before, NoDuplicates, Mirror, RenameNamed, NamesClass, Rank, Unwritten;
    var head := [Node(Some(Rank(c.end.log, Sym(CLASS_SYMBOL))), ClassValue(cl, p, c.end.log))];
    var slots' := RenameNamed(slots, c.f, c.end.log);
    SymbolNameTrip(CLASS_SYMBOL, t, open, c);
    SymbolNameTrip(PACKAGE_SYMBOL, t, open, c);
    SlotsTrip((cl, p), slots, [], t, open, c);
    assert (head + AsNodes(slots'))[1..] == AsNodes(slots') && [] + slots' == slots';
  }

  /** The class that the writer puts among the slots is recognised and taken out again, with its
      package and both encodings, and the slots keep their order. This works exactly when no slot
      is itself called "class". */
  lemma {:induction false} S4Trip(
    cl: Symbol, p: Symbol, slots: seq<Named>, s: Sink, t: Sink, open: set<Key>, c: Run)
    requires c.Valid() && EmitS4(cl, p, slots, c.f, s) == Some(t) && c.Covers(t) && c.Opened(open, s)
    ensures c.Covers(s)
    ensures ParseObject(c.end.out, |s.out|, c.Tables(s, open))
         == c.Expect(!NamesClass(slots, c.f) && CleanNamed(slots, c.f) && c.Clean(s, t),
                     S4Object(cl, p, RenameNamed(slots, c.f, c.end.log)), t, open)
    decreases Budget(c.f, s.log), NamedSize(slots), 4
  {
    hide Before, NoDuplicates, Mirror, CleanKey, Rank, Continues, ClassValue, EmitS4Head, EmitNodes, ParsePairs,
      ParseNode, ParseObject, AsS4, NamesClass, RenameNamed, CleanNamed, RenameNodes, CleanNodes, AsNodes, Unwritten;
    var u := EmitS4Head(cl, p, c.f, s).value;
    var head := [Node(Some(Rank(c.end.log, Sym(CLASS_SYMBOL))), ClassValue(cl, p, c.end.log))];
    AsNodesSize(slots);
    TailTrip(AsNodes(slots), u, t, open, c);
    S4HeadTrip(cl, p, s, u, open, c);
    NamesWritten(slots, u, t, c);
    KeyStays(CLASS_SYMBOL, u, t, c);
    KeyStays(PACKAGE_SYMBOL, u, t, c);
    Attach(4, |s.out| + 8, c.Tables(s, open), head, [], true, AsNodes(slots), u, t, open, c);
    RenameAsNodes(slots, c.f, c.end.log);
    CleanAsNodes(slots, c.f);
    ExtractTrip(cl, p, slots, t, open, c);
    Dispatch(c.end.out, |s.out|, c.Tables(s, open));
  }
}
