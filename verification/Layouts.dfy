/** Environments whose variables are in a hash table: R writes them and this library only reads them. They are
    encoded here with the same sink as the library's own output, so that both layouts can be compared. */
module Layouts {
  import opened Bytes
  import opened Objects
  import opened WriterSpec
  import opened ParserSpec
  import opened ItemRoundTrip
  import opened References
  import opened RoundTrip
  import opened Correspondence
  import opened FixedPoint

  // What is numbered does not depend on the bytes.

  ghost function Self(f: File): Match { Match(f, f, Identity(), Identity(), false) }

  lemma {:induction false} SelfObject(o: RObject, f: File)
    ensures SameObject(o, o, Self(f))
    decreases o, 0
  {
    hide SameNamed, SameNodes, SameObjects, Unwritten;
    match o
    case AtomicVector(_, a) => SelfNamed(a, f);
    case StringVector(_, a) => SelfNamed(a, f);
    case GenericVector(es, a) => SelfObjects(es, f); SelfNamed(a, f);
    case ExpressionVector(es, a) => SelfObjects(es, f); SelfNamed(a, f);
    case PairList(ns, a) => SelfNodes(ns, f); SelfNamed(a, f);
    case S4Object(_, _, a) => SelfNamed(a, f);
    case LanguageObject(_, ns, a) => SelfNodes(ns, f); SelfNamed(a, f);
    case _ =>
  }

  lemma {:induction false} SelfObjects(os: seq<RObject>, f: File)
    ensures SameObjects(os, os, Self(f))
    decreases os, 0
  {
    hide SameObject, Unwritten;
    if os != [] {
      SelfObject(os[0], f);
      SelfObjects(os[1..], f);
    }
  }

  lemma {:induction false} SelfNodes(ns: seq<Node>, f: File)
    ensures SameNodes(ns, ns, Self(f))
    decreases ns, 0
  {
    hide SameObject, Unwritten;
    if ns != [] {
      assert ns[0].value < ns[0];
      SelfObject(ns[0].value, f);
      SelfNodes(ns[1..], f);
    }
  }

  lemma {:induction false} SelfNamed(ns: seq<Named>, f: File)
    ensures SameNamed(ns, ns, Self(f))
    decreases ns, 0
  {
    hide SameObject, Unwritten;
    if ns != [] {
      assert ns[0].value < ns[0];
      SelfObject(ns[0].value, f);
      SelfNamed(ns[1..], f);
    }
  }

  lemma SelfMatches(f: File)
    ensures FilesMatch(Self(f))
  {
    hide SameNamed, SameObject, Unwritten;
    forall i | 0 <= i < |f.environments| ensures SameEnvironment(f.environments[i], f.environments[i], Self(f)) {
      SelfNamed(f.environments[i].variables, f);
      SelfNamed(f.environments[i].attributes, f);
    }
    forall i | 0 <= i < |f.pointers| ensures SamePointer(f.pointers[i], f.pointers[i], Self(f)) {
      var p := f.pointers[i];
      if p.protection.Some? { SelfObject(p.protection.value, f); }
      if p.tag.Some? { SelfObject(p.tag.value, f); }
      SelfNamed(p.attributes, f);
    }
  }

  lemma {:induction false} SelfLog(log: seq<Key>, f: File)
    ensures MapLog(log, Self(f)) == log && LogMatched(log, Self(f))
  {
    if log != [] { SelfLog(log[..|log| - 1], f); }
  }

  /** The outcomes succeed alike and number the same entities. */
  ghost predicate Alike(r: Option<Sink>, r': Option<Sink>)
  {
    r.Some? == r'.Some? && (r.Some? ==> r.value.log == r'.value.log && r.value.top == r'.value.top)
  }

  lemma StepIsAlike(r: Option<Sink>, r': Option<Sink>, f: File)
    requires StaysInStep(r, r', Self(f))
    ensures Alike(r, r')
  {
    if r.Some? { SelfLog(r.value.log, f); }
  }

  lemma NodesAlike(ns: seq<Node>, f: File, s: Sink, s': Sink)
    requires s.log == s'.log && s.top == s'.top
    ensures Alike(EmitNodes([], ns, f, s), EmitNodes([], ns, f, s'))
  {
    hide EmitNodes, SameNodes, FilesMatch, Unwritten;
    SelfMatches(f);
    SelfLog(s.log, f);
    SelfNodes(ns, f);
    NodesSame([], [], ns, ns, s, s', Self(f));
    StepIsAlike(EmitNodes([], ns, f, s), EmitNodes([], ns, f, s'), f);
  }

  // Hashed environments.

  function Concat(buckets: seq<seq<Named>>): (names: seq<Named>)
  {
    if buckets == [] then [] else buckets[0] + Concat(buckets[1..])
  }

  /** Each bucket is a chain of tagged nodes; an empty one is a null. */
  function AsLists(buckets: seq<seq<Named>>): (os: seq<RObject>)
    ensures |os| == |buckets|
  {
    if buckets == [] then [] else [PairList(AsNodes(buckets[0]), [])] + AsLists(buckets[1..])
  }

  /** The variables in a hash table: no list of them all, and a vector of buckets. */
  function EmitHashed(buckets: seq<seq<Named>>, f: File, s: Sink): (r: Option<Sink>)
    ensures r.Some? ==> Extends(f, s, r.value)
  {
    EmitVector(VEC, AsLists(buckets), [], f, EmitHeader(NILVALUE, 0, s))
  }

  lemma HashedUnfold(buckets: seq<seq<Named>>, f: File, s: Sink)
    ensures EmitHashed(buckets, f, s)
         == match EmitLength(|buckets|, EmitHeader(VEC, 0, EmitHeader(NILVALUE, 0, s)))
            case None => None
            case Some(h) => EmitObjects(AsLists(buckets), f, h)
  {
    hide EmitObjects, EmitLength, Extends, Unwritten;
    var h := EmitLength(|buckets|, EmitHeader(VEC, 0, EmitHeader(NILVALUE, 0, s)));
    if h.Some? {
      var u := EmitObjects(AsLists(buckets), f, h.value);
      if u.Some? { NothingLeft([], f, u.value); }
    }
  }

  /** An environment with its variables in a hash table. */
  function EmitHashedBody(e: Environment, buckets: seq<seq<Named>>, f: File, s: Sink): (r: Option<Sink>)
  {
    var s1 :- EmitEnvironment(e.parent, f, EmitInteger(if e.locked then 1 else 0, s));
    var s2 :- EmitHashed(buckets, f, s1);
    EmitNodes([], AsNodes(e.attributes), f, s2)
  }

  lemma {:induction false} AsNodesConcat(a: seq<Named>, b: seq<Named>)
    ensures AsNodes(a + b) == AsNodes(a) + AsNodes(b)
  {
    if a == [] {
      assert a + b == b;
    } else {
      var first, rest := [Node(Some(a[0].name), a[0].value)], AsNodes(a[1..]);
      AsNodesConcat(a[1..], b);
      assert (a + b)[1..] == a[1..] + b && (a + b)[0] == a[0];
      assert AsNodes(a + b) == first + (rest + AsNodes(b)) == first + rest + AsNodes(b);
    }
  }

  /** Two lists one after the other number what their concatenation numbers. */
  lemma {:induction false} NodesConcat(ns: seq<Node>, ms: seq<Node>, f: File, s: Sink)
    ensures Alike(EmitNodes([], ns + ms, f, s),
                  match EmitNodes([], ns, f, s) case None => None case Some(u) => EmitNodes([], ms, f, u))
    decreases |ns|
  {
    hide EmitNode, Extends, Unwritten;
    if ns == [] {
      assert ns + ms == ms;
      NodesAlike(ms, f, s, EmitHeader(NILVALUE, 0, s));
    } else {
      assert (ns + ms)[1..] == ns[1..] + ms;
      var t := EmitNode([], ns[0], f, s);
      if t.Some? { NodesConcat(ns[1..], ms, f, t.value); }
    }
  }

  lemma {:induction false} BucketsNumberTheSame(buckets: seq<seq<Named>>, f: File, s: Sink, s': Sink)
    requires s.log == s'.log && s.top == s'.top
    ensures Alike(EmitObjects(AsLists(buckets), f, s), EmitNodes([], AsNodes(Concat(buckets)), f, s'))
    decreases |buckets|
  {
    hide Extends, EmitNodes, Unwritten;
    if buckets == [] {
      NothingLeft([], f, s');
    } else {
      var first, rest := AsNodes(buckets[0]), Concat(buckets[1..]);
      assert AsLists(buckets)[1..] == AsLists(buckets[1..]);
      AsNodesConcat(buckets[0], rest);
      NodesConcat(first, AsNodes(rest), f, s');
      NodesAlike(first, f, s, s');
      var t, t' := EmitNodes([], first, f, s), EmitNodes([], first, f, s');
      assert EmitObject(PairList(first, []), f, s) == t;
      if t.Some? { BucketsNumberTheSame(buckets[1..], f, t.value, t'.value); }
    }
  }

  /** Both layouts number the same entities in the same order. */
  lemma LayoutsNumberTheSame(e: Environment, buckets: seq<seq<Named>>, f: File, s: Sink)
    requires e.variables == Concat(buckets) && |buckets| < SIZE_LIMIT
    ensures Alike(EmitEnvironmentBody(e, f, s), EmitHashedBody(e, buckets, f, s))
  {
    hide Extends, EmitEnvironment, EmitNodes, EmitObjects, Unwritten;
    var s1 := EmitEnvironment(e.parent, f, EmitInteger(if e.locked then 1 else 0, s));
    if s1.Some? {
      var h := EmitLength(|buckets|, EmitHeader(VEC, 0, EmitHeader(NILVALUE, 0, s1.value))).value;
      BucketsNumberTheSame(buckets, f, h, s1.value);
      var u, u' := EmitNodes([], AsNodes(e.variables), f, s1.value), EmitObjects(AsLists(buckets), f, h);
      HashedUnfold(buckets, f, s1.value);
      if u.Some? { NodesAlike(AsNodes(e.attributes), f, EmitHeader(NILVALUE, 0, u.value), u'.value); }
    }
  }

  lemma {:induction false} CleanBuckets(buckets: seq<seq<Named>>, f: File)
    ensures CleanObjects(AsLists(buckets), f) == CleanNamed(Concat(buckets), f)
  {
    if buckets != [] {
      CleanBuckets(buckets[1..], f);
      CleanAsNodes(buckets[0], f);
      assert CleanObject(PairList(AsNodes(buckets[0]), []), f) == CleanNamed(buckets[0], f);
      CleanConcat(buckets[0], Concat(buckets[1..]), f);
      assert AsLists(buckets)[1..] == AsLists(buckets[1..]);
    }
  }

  lemma {:induction false} CleanConcat(a: seq<Named>, b: seq<Named>, f: File)
    ensures CleanNamed(a + b, f) == (CleanNamed(a, f) && CleanNamed(b, f))
  {
    if a == [] {
      assert a + b == b;
    } else {
      CleanConcat(a[1..], b, f);
      assert (a + b)[1..] == a[1..] + b;
    }
  }

  lemma {:induction false} RenameConcat(a: seq<Named>, b: seq<Named>, f: File, L: seq<Key>)
    ensures RenameNamed(a + b, f, L) == RenameNamed(a, f, L) + RenameNamed(b, f, L)
  {
    hide RenameObject, RenameSymbol, Unwritten;
    if a == [] {
      assert a + b == b;
    } else {
      RenameConcat(a[1..], b, f, L);
      assert (a + b)[1..] == a[1..] + b;
    }
  }

  /** The buckets are put together again. */
  lemma {:induction false} BucketsTrip(buckets: seq<seq<Named>>, f: File, L: seq<Key>)
    ensures AsVariables(RenameObjects(AsLists(buckets), f, L)) == Some(RenameNamed(Concat(buckets), f, L))
  {
    if buckets != [] {
      var a, rest := buckets[0], Concat(buckets[1..]);
      BucketsTrip(buckets[1..], f, L);
      assert AsLists(buckets)[1..] == AsLists(buckets[1..]);
      assert RenameObjects(AsLists(buckets), f, L)[1..] == RenameObjects(AsLists(buckets[1..]), f, L);
      RenameConcat(a, rest, f, L);
      if a == [] {
        assert a + rest == rest;
      } else {
        RenameAsNodes(a, f, L);
        NamedInverts(RenameNamed(a, f, L));
        assert RenameNamed([], f, L) == [];
      }
    }
  }

  /** A hash table is read as the concatenation of its buckets, whatever their number and lengths. */
  lemma HashedTrip(buckets: seq<seq<Named>>, s: Sink, t: Sink, open: set<Key>, c: Run)
    requires c.Valid() && EmitHashed(buckets, c.f, s) == Some(t) && c.Covers(t) && c.Opened(open, s)
    ensures c.Covers(s)
    ensures ParseVariables(c.end.out, |s.out|, c.Tables(s, open))
         == c.Expect(CleanNamed(Concat(buckets), c.f) && c.Clean(s, t),
                     (true, RenameNamed(Concat(buckets), c.f, c.end.log)), t, open)
  {
    hide Before, NoDuplicates, Mirror, CleanKey, EmitObjects, EmitLength, ReadLength, ParseObjects, ParseAttributes,
      AsVariables, Unwritten;
    var s1 := EmitHeader(NILVALUE, 0, s);
    var s2 := EmitHeader(VEC, 0, s1);
    var s3 := EmitLength(|buckets|, s2).value;
    HashedUnfold(buckets, c.f, s);
    ObjectsTrip(AsLists(buckets), s3, t, open, c);
    LengthTrip(|buckets|, s2, c.end);
    HeaderTrip(s1, [0, 0, 0, VEC], c.end);
    HeaderTrip(s, [0, 0, 0, NILVALUE], c.end);
    CleanBuckets(buckets, c.f);
    BucketsTrip(buckets, c.f, c.end.log);
  }

  lemma {:induction false} HashedBodyTrip(
    e: Environment, buckets: seq<seq<Named>>, s: Sink, t: Sink, open: set<Key>, c: Run)
    requires c.Valid() && EmitHashedBody(e, buckets, c.f, s) == Some(t) && c.Covers(t) && c.Opened(open, s)
    requires e.variables == Concat(buckets)
    ensures c.Covers(s)
    ensures ParseEnvironmentBody(c.end.out, |s.out|, c.Tables(s, open))
         == c.Expect(CleanNamed(e.variables, c.f) && CleanNamed(e.attributes, c.f) && c.Clean(s, t),
                     RenameEnvironment(e, c.f, c.end.log).(hashed := true), t, open)
  {
    hide Before, NoDuplicates, Mirror, CleanKey, EmitEnvironment, ParseParent, EmitNodes, EmitHashed, ParseVariables,
      ParseFinalAttributes, ReadInt32, CleanNamed, RenameNamed, RenameRef, Unwritten;
    var locked := if e.locked then 1 else 0;
    var s1 := EmitInteger(locked, s);
    var s2 := EmitEnvironment(e.parent, c.f, s1).value;
    var s3 := EmitHashed(buckets, c.f, s2).value;
    FinalAttributesTrip(e.attributes, s3, t, open, c);
    HashedTrip(buckets, s2, s3, open, c);
    EnvironmentTrip(e.parent, s1, s2, open, c);
    IntegerTrip(locked, s, c.end);
  }

  /** The same environment in either layout: the bytes differ, but the same entities get the same
      numbers, and both are read as the same environment with the same tables, up to the flag that
      tells the layouts apart. Only the hashed layout can do without variables. */
  lemma {:induction false} LayoutsAgree(
    e: Environment, buckets: seq<seq<Named>>, s: Sink, open: set<Key>, c: Run, d: Run)
    requires e.variables == Concat(buckets) && |buckets| < SIZE_LIMIT && e.variables != []
    requires c.Valid() && d.Valid() && c.f == d.f && c.end.log == d.end.log && c.Opened(open, s)
    requires EmitEnvironmentBody(e, c.f, s).Some? && c.Covers(EmitEnvironmentBody(e, c.f, s).value)
    requires EmitHashedBody(e, buckets, d.f, s).Some? && d.Covers(EmitHashedBody(e, buckets, d.f, s).value)
    ensures var t, t' := EmitEnvironmentBody(e, c.f, s).value, EmitHashedBody(e, buckets, d.f, s).value;
            var r, r' := ParseEnvironmentBody(c.end.out, |s.out|, c.Tables(s, open)),
                         ParseEnvironmentBody(d.end.out, |s.out|, d.Tables(s, open));
            && t.log == t'.log && r.Ok? == r'.Ok?
            && (r.Ok? ==> && r.pos == |t.out| && r'.pos == |t'.out| && r'.st == r.st
                          && !r.value.hashed && r'.value == r.value.(hashed := true))
  {
    hide Run.Valid, Before, NotShorter, Mirror, CleanKey, EmitEnvironmentBody, EmitHashedBody, ParseEnvironmentBody,
      CleanNamed, RenameNamed, Unwritten;
    LayoutsNumberTheSame(e, buckets, c.f, s);
    EnvironmentBodyTrip(e, s, EmitEnvironmentBody(e, c.f, s).value, open, c);
    HashedBodyTrip(e, buckets, s, EmitHashedBody(e, buckets, d.f, s).value, open, d);
  }
}
