/** Environments whose variables are in a hash table, as R writes them: on bytes of any origin, with any objects
    in the buckets, environments with hash tables of their own among them. */
module HashTables {
  import opened Bytes
  import opened Objects
  import opened ParserSpec
  import opened ParserSafety
  import opened ParserRuns

  const NULL: seq<byte> := [0, 0, 0, NILVALUE]
  const VECTOR: seq<byte> := [0, 0, 0, VEC]

  function Flat<T>(xss: seq<seq<T>>): seq<T>
  {
    if xss == [] then [] else xss[0] + Flat(xss[1..])
  }

  /** The bytes `x` stand in `T` from place `pos` on. */
  ghost predicate At(x: seq<byte>, T: seq<byte>, pos: nat) { pos + |x| <= |T| && T[pos..pos + |x|] == x }

  lemma AtBoth(x: seq<byte>, y: seq<byte>, T: seq<byte>, pos: nat)
    requires At(x + y, T, pos)
    ensures At(x, T, pos) && At(y, T, pos + |x|)
  {
    var z := x + y;
    assert T[pos..pos + |x|] == z[..|x|] == x;
    assert T[pos + |x|..pos + |x| + |y|] == z[|x|..] == y;
  }

  lemma AtHeader(x: seq<byte>, T: seq<byte>, pos: nat)
    requires At(x, T, pos) && 4 <= |x|
    ensures pos + 4 <= |T| && T[pos + 2] == x[2] && T[pos + 3] == x[3]
  {
    var y := T[pos..pos + |x|];
    assert y[2] == T[pos + 2] && y[3] == T[pos + 3];
  }

  // Variables one after the other.

  /** One variable from its own bytes: the header of a node and a node with a tag, and nothing more. */
  function ParseVariable(x: seq<byte>, st: Tables): Option<(Named, Tables)>
  {
    if |x| < 4 || x[3] != LIST then None
    else
      match ParseNode(x[2], x, 4, st)
      case Fail => None
      case Ok(l, p, s) =>
        if p != |x| || l.nodes[0].tag.None? then None
        else Some((Named(l.nodes[0].tag.value, l.nodes[0].value), s))
  }

  /** Several variables, each from its own bytes. */
  function ParseChain(xs: seq<seq<byte>>, st: Tables): Option<(seq<Named>, Tables)>
  {
    if xs == [] then Some(([], st))
    else
      var first :- ParseVariable(xs[0], st);
      var rest :- ParseChain(xs[1..], first.1);
      Some(([first.0] + rest.0, rest.1))
  }

  lemma {:induction false} ChainSplit(xs: seq<seq<byte>>, ys: seq<seq<byte>>, st: Tables)
    requires ParseChain(xs + ys, st).Some?
    ensures ParseChain(xs, st).Some? && ParseChain(ys, ParseChain(xs, st).value.1).Some?
    ensures var (a, s) := ParseChain(xs, st).value;
            var (b, t) := ParseChain(ys, s).value; ParseChain(xs + ys, st) == Some((a + b, t))
    decreases |xs|
  {
    hide ParseVariable;
    if xs == [] {
      assert xs + ys == ys;
      var (b, t) := ParseChain(ys, st).value;
      assert [] + b == b;
    } else {
      assert (xs + ys)[1..] == xs[1..] + ys;
      var (v, s) := ParseVariable(xs[0], st).value;
      ChainSplit(xs[1..], ys, s);
      var (a, t) := ParseChain(xs[1..], s).value;
      assert [v] + (a + ParseChain(ys, t).value.0) == [v] + a + ParseChain(ys, t).value.0;
    }
  }

  /** A variable is read alike wherever it stands. */
  lemma VariableRun(x: seq<byte>, T: seq<byte>, pos: nat, st: Tables)
    requires ParseVariable(x, st).Some? && At(x, T, pos) && Consistent(st)
    ensures pos + 4 <= |T| && T[pos + 3] == LIST && Consistent(ParseVariable(x, st).value.1)
    ensures var (v, s) := ParseVariable(x, st).value; var r := ParseNode(T[pos + 2], T, pos + 4, st);
            r.Ok? && r.pos == pos + |x| && r.st == s && r.value.nodes == [Node(Some(v.name), v.value)]
  {
    hide Consistent, Grows, ClosedNodes, ClosedNamed, ParseNode;
    var (l, p, s) := ParseNode(x[2], x, 4, st).Extract();
    var c := Reading(x, T, 0, |x|, pos, s);
    assert x[..|x|] == x;
    AtHeader(x, T, pos);
    NodeRun(x[2], 4, st, c);
    Onward(st, s, s);
    var n := l.nodes[0];
    assert l.nodes == [n] && n == Node(Some(n.tag.value), n.value);
  }

  /** A chain of variables with the null that ends it. */
  function Chained(xs: seq<seq<byte>>): seq<byte> { Flat(xs) + NULL }

  lemma ChainedUnfold(xs: seq<seq<byte>>)
    requires xs != []
    ensures Chained(xs) == xs[0] + Chained(xs[1..]) && (|xs| == 1 ==> Chained(xs[1..]) == NULL)
  {
    assert xs[0] + Flat(xs[1..]) + NULL == xs[0] + (Flat(xs[1..]) + NULL);
  }

  lemma {:induction false} ChainRun(xs: seq<seq<byte>>, T: seq<byte>, pos: nat, st: Tables)
    requires xs != [] && ParseChain(xs, st).Some? && At(Chained(xs), T, pos) && Consistent(st)
    ensures pos + 4 <= |T| && T[pos + 3] == LIST && Consistent(ParseChain(xs, st).value.1)
    ensures var (vs, s) := ParseChain(xs, st).value; var r := ParsePairs(T[pos + 2], T, pos + 4, st);
            r.Ok? && r.pos == pos + |Chained(xs)| && r.st == s && AsNamed(r.value.nodes) == Some(vs)
    decreases |xs|
  {
    hide Consistent, At, ParseVariable, ParseNode, ParsePairs, NotSmaller, Chained;
    var (v, s) := ParseVariable(xs[0], st).value;
    var p := pos + |xs[0]|;
    ChainedUnfold(xs);
    AtBoth(xs[0], Chained(xs[1..]), T, pos);
    VariableRun(xs[0], T, pos, st);
    PairsUnfold(T[pos + 2], T, pos + 4, st);
    if |xs| == 1 {
      AtHeader(NULL, T, p);
    } else {
      ChainRun(xs[1..], T, p, s);
    }
  }

  // Both layouts.

  /** A listed environment: all variables, and a null for the missing hash table. */
  function Listed(xs: seq<seq<byte>>): seq<byte> { Chained(xs) + NULL }

  function Buckets(xss: seq<seq<seq<byte>>>): seq<byte>
  {
    if xss == [] then [] else Chained(xss[0]) + Buckets(xss[1..])
  }

  /** A hashed environment: a null for the missing list, and a vector of chains, the empty ones being nulls. */
  function Hashed(length: seq<byte>, xss: seq<seq<seq<byte>>>): seq<byte>
  {
    NULL + (VECTOR + (length + Buckets(xss)))
  }

  lemma ListedRun(xs: seq<seq<byte>>, T: seq<byte>, pos: nat, st: Tables)
    requires xs != [] && ParseChain(xs, st).Some? && At(Listed(xs), T, pos) && Consistent(st)
    ensures var (vs, s) := ParseChain(xs, st).value;
            ParseVariables(T, pos, st) == Ok((false, vs), pos + |Listed(xs)|, s) && Consistent(s)
  {
    hide Consistent, At, ParseChain, Chained, ParsePairs, AsNamed;
    AtBoth(Chained(xs), NULL, T, pos);
    ChainRun(xs, T, pos, st);
    AtHeader(NULL, T, pos + |Chained(xs)|);
  }

  /** A bucket is read as an object: a pairlist or a null. */
  lemma BucketRun(xs: seq<seq<byte>>, T: seq<byte>, pos: nat, st: Tables)
    requires ParseChain(xs, st).Some? && At(Chained(xs), T, pos) && Consistent(st)
    ensures Consistent(ParseChain(xs, st).value.1) && pos + 4 <= |T|
    ensures var (vs, s) := ParseChain(xs, st).value; var r := ParseObject(T, pos, st);
            && r.Ok? && r.pos == pos + |Chained(xs)| && r.st == s
            && if xs == [] then r.value.Null? else r.value.PairList? && AsNamed(r.value.nodes) == Some(vs)
  {
    hide Consistent, At, ParsePairs, AsNamed, ParseVariable;
    if xs == [] {
      assert Chained(xs) == NULL;
      AtHeader(NULL, T, pos);
    } else {
      ChainRun(xs, T, pos, st);
    }
  }

  lemma FirstBucket(o: RObject, os: seq<RObject>, vs: seq<Named>, ws: seq<Named>)
    requires if o.Null? then vs == [] else o.PairList? && AsNamed(o.nodes) == Some(vs)
    requires AsVariables(os) == Some(ws)
    ensures AsVariables([o] + os) == Some(vs + ws)
  {
    hide AsNamed;
    assert ([o] + os)[1..] == os;
    if o.Null? { assert vs + ws == ws; }
  }

  lemma {:induction false} BucketsRun(xss: seq<seq<seq<byte>>>, T: seq<byte>, pos: nat, st: Tables)
    requires ParseChain(Flat(xss), st).Some? && pos <= |T| && At(Buckets(xss), T, pos) && Consistent(st)
    ensures Consistent(ParseChain(Flat(xss), st).value.1)
    ensures var (vs, s) := ParseChain(Flat(xss), st).value; var r := ParseObjects(|xss|, T, pos, st);
            r.Ok? && r.pos == pos + |Buckets(xss)| && r.st == s && AsVariables(r.value) == Some(vs)
    decreases |xss|
  {
    hide Consistent, At, Chained, ParseObject, AsNamed, ParseVariable, NotSmaller;
    if xss != [] {
      hide ParseChain, AsVariables;
      var xs, rest := xss[0], xss[1..];
      ChainSplit(xs, Flat(rest), st);
      AtBoth(Chained(xs), Buckets(rest), T, pos);
      BucketRun(xs, T, pos, st);
      var (o, p, s) := ParseObject(T, pos, st).Extract();
      BucketsRun(rest, T, p, s);
      var (ws, t) := ParseChain(Flat(rest), s).value;
      FirstBucket(o, ParseObjects(|rest|, T, p, s).value, ParseChain(xs, st).value.0, ws);
    }
  }

  lemma HashedRun(length: seq<byte>, xss: seq<seq<seq<byte>>>, T: seq<byte>, pos: nat, st: Tables)
    requires ReadLength(length, 0) == Good(|xss|, |length|) && ParseChain(Flat(xss), st).Some?
    requires At(Hashed(length, xss), T, pos) && Consistent(st)
    ensures var (vs, s) := ParseChain(Flat(xss), st).value;
            ParseVariables(T, pos, st) == Ok((true, vs), pos + |Hashed(length, xss)|, s) && Consistent(s)
  {
    hide Consistent, At, ParseChain, Flat, Buckets, ParseObjects, ReadLength, AsVariables;
    AtBoth(NULL, VECTOR + (length + Buckets(xss)), T, pos);
    AtHeader(NULL, T, pos);
    AtBoth(VECTOR, length + Buckets(xss), T, pos + 4);
    AtHeader(VECTOR, T, pos + 4);
    AtBoth(length, Buckets(xss), T, pos + 8);
    LengthAt(length, T, pos + 8);
    BucketsRun(xss, T, pos + 8 + |length|, st);
  }

  lemma LengthAt(length: seq<byte>, T: seq<byte>, pos: nat)
    requires ReadLength(length, 0).Good? && ReadLength(length, 0).pos == |length| && At(length, T, pos)
    ensures ReadLength(T, pos) == Good(ReadLength(length, 0).value, pos + |length|)
    ensures pos + |length| <= |T|
  {
    hide ReadLength;
    assert length[..|length|] == length;
    LengthRun(0, Reading(length, T, 0, |length|, pos, NO_TABLES));
  }

  // Whole environments.

  /** What stands around the variables in the bytes of an environment: the lock and the parent before them, the
      attributes after them. `before` are the tables when the variables begin, `after` those when they end. */
  datatype Frame = Frame(head: seq<byte>, tail: seq<byte>, before: Tables, after: Tables) {
    ghost predicate Reads(st: Tables)
    {
      && ReadInt32(head, 0).Good? && Consistent(st)
      && ParseParent(head, 4, st).Ok? && ParseParent(head, 4, st).pos == |head| && ParseParent(head, 4, st).st == before
      && ParseFinalAttributes(tail, 0, after).Ok? && ParseFinalAttributes(tail, 0, after).pos == |tail|
    }
  }

  lemma HeadRun(c: Frame, st: Tables, T: seq<byte>, pos: nat)
    requires c.Reads(st) && At(c.head, T, pos)
    ensures ReadInt32(T, pos) == Good(ReadInt32(c.head, 0).value, pos + 4) && Consistent(c.before)
    ensures ParseParent(T, pos + 4, st) == Ok(ParseParent(c.head, 4, st).value, pos + |c.head|, c.before)
  {
    hide Consistent, Grows, ReadU32, ParseParent;
    var r := Reading(c.head, T, 0, |c.head|, pos, c.before);
    assert c.head[..|c.head|] == c.head;
    U32Run(0, r);
    ParentRun(4, st, r);
    Onward(st, c.before, c.before);
  }

  lemma TailRun(c: Frame, st: Tables, T: seq<byte>, pos: nat)
    requires c.Reads(st) && At(c.tail, T, pos) && Consistent(c.after)
    ensures var (a, _, s) := ParseFinalAttributes(c.tail, 0, c.after).Extract();
            ParseFinalAttributes(T, pos, c.after) == Ok(a, pos + |c.tail|, s)
  {
    hide Consistent, Grows, ReadInt32, ParseParent, ParseFinalAttributes;
    var s := ParseFinalAttributes(c.tail, 0, c.after).st;
    assert c.tail[..|c.tail|] == c.tail;
    FinalAttributesRun(0, c.after, Reading(c.tail, T, 0, |c.tail|, pos, s));
  }

  /** The body of an environment is read as the same environment in either layout, up to the flag that tells them
      apart, and leaves the same tables. */
  lemma LayoutsReadAlike(c: Frame, length: seq<byte>, xss: seq<seq<seq<byte>>>,
                         T: seq<byte>, p: nat, U: seq<byte>, q: nat, st: Tables)
    requires c.Reads(st) && ReadLength(length, 0) == Good(|xss|, |length|) && Flat(xss) != []
    requires ParseChain(Flat(xss), c.before).Some? && ParseChain(Flat(xss), c.before).value.1 == c.after
    requires At(c.head + (Listed(Flat(xss)) + c.tail), T, p) && At(c.head + (Hashed(length, xss) + c.tail), U, q)
    ensures var r, r' := ParseEnvironmentBody(T, p, st), ParseEnvironmentBody(U, q, st);
            && r.Ok? && !r.value.hashed && r.pos == p + |c.head + (Listed(Flat(xss)) + c.tail)|
            && r.value.variables == ParseChain(Flat(xss), c.before).value.0
            && r' == Ok(r.value.(hashed := true), q + |c.head + (Hashed(length, xss) + c.tail)|, r.st)
  {
    hide Consistent, At, Frame.Reads, ParseChain, Flat, Listed, Hashed, ReadInt32, ParseParent, ParseVariables,
      ParseFinalAttributes, ReadLength;
    var x, y := Listed(Flat(xss)), Hashed(length, xss);
    AtBoth(c.head, x + c.tail, T, p);
    AtBoth(c.head, y + c.tail, U, q);
    AtBoth(x, c.tail, T, p + |c.head|);
    AtBoth(y, c.tail, U, q + |c.head|);
    HeadRun(c, st, T, p);
    HeadRun(c, st, U, q);
    ListedRun(Flat(xss), T, p + |c.head|, c.before);
    HashedRun(length, xss, U, q + |c.head|, c.before);
    TailRun(c, st, T, p + |c.head| + |x|);
    TailRun(c, st, U, q + |c.head| + |y|);
  }
}
