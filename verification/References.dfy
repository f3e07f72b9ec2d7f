/** The tables that the parser builds, as a function of the writer's log: the two sides number
    entities in the same order without ever communicating. `L` is the log of a whole run; every
    index in a parsed object is the rank of its entity among the entities of its kind in `L`. */
module References {
  import opened Objects
  import opened WriterSpec
  import opened ParserSpec

  function KindOf(k: Key): Kind
  {
    match k
    case Sym(_) => SymbolKind
    case Env(_) => EnvironmentKind
    case Ptr(_) => PointerKind
  }

  function Count(log: seq<Key>, kind: Kind): (n: nat)
    ensures n <= |log|
  {
    if log == [] then 0
    else Count(log[..|log| - 1], kind) + if KindOf(log[|log| - 1]) == kind then 1 else 0
  }

  /** The index that the parser gives to an entity. */
  function Rank(L: seq<Key>, k: Key): nat
  {
    if k in L then Count(L[..Position(L, k)], KindOf(k)) else 0
  }

  // Renaming of a tree, with what the format does not keep brought to a normal form.

  function RenameSymbol(i: nat, f: File, L: seq<Key>): nat
  {
    if i < |f.symbols| then Rank(L, Sym(f.symbols[i])) else 0
  }

  function RenameTag(tag: Option<nat>, f: File, L: seq<Key>): Option<nat>
  {
    if tag.None? then None else Some(RenameSymbol(tag.value, f, L))
  }

  function RenameRef(e: EnvRef, L: seq<Key>): EnvRef
  {
    if e.Ordinary? then Ordinary(Rank(L, Env(e.index))) else e
  }

  function RenameObject(o: RObject, f: File, L: seq<Key>): RObject
  {
    match o
    case Null => Null
    case SymbolIndex(i) => SymbolIndex(RenameSymbol(i, f, L))
    case EnvironmentIndex(e) => EnvironmentIndex(RenameRef(e, L))
    case ExternalPointerIndex(i) => ExternalPointerIndex(Rank(L, Ptr(i)))
    case AtomicVector(d, a) => AtomicVector(d, RenameNamed(a, f, L))
    case StringVector(xs, a) => StringVector(NormalStrings(xs), RenameNamed(a, f, L))
    case GenericVector(es, a) => GenericVector(RenameObjects(es, f, L), RenameNamed(a, f, L))
    case ExpressionVector(es, a) => ExpressionVector(RenameObjects(es, f, L), RenameNamed(a, f, L))
    case PairList(ns, a) => if ns == [] then Null else PairList(RenameNodes(ns, f, L), RenameNamed(a, f, L))
    case S4Object(c, p, a) => S4Object(c, p, RenameNamed(a, f, L))
    case BuiltInFunction(name) => BuiltInFunction(name)
    case LanguageObject(i, ns, a) =>
      LanguageObject(RenameSymbol(i, f, L), RenameNodes(ns, f, L), RenameNamed(a, f, L))
  }

  function RenameObjects(os: seq<RObject>, f: File, L: seq<Key>): (r: seq<RObject>)
    ensures |r| == |os|
  {
    if os == [] then [] else [RenameObject(os[0], f, L)] + RenameObjects(os[1..], f, L)
  }

  function RenameNodes(ns: seq<Node>, f: File, L: seq<Key>): (r: seq<Node>)
    ensures |r| == |ns|
  {
    if ns == [] then []
    else
      assert ns[0].value < ns[0];
      [Node(RenameTag(ns[0].tag, f, L), RenameObject(ns[0].value, f, L))] + RenameNodes(ns[1..], f, L)
  }

  function RenameNamed(ns: seq<Named>, f: File, L: seq<Key>): (r: seq<Named>)
    ensures |r| == |ns|
  {
    if ns == [] then []
    else
      assert ns[0].value < ns[0];
      [Named(RenameSymbol(ns[0].name, f, L), RenameObject(ns[0].value, f, L))] + RenameNamed(ns[1..], f, L)
  }

  lemma {:induction false} RenameAsNodes(ns: seq<Named>, f: File, L: seq<Key>)
    ensures RenameNodes(AsNodes(ns), f, L) == AsNodes(RenameNamed(ns, f, L))
  {
    if ns != [] {
      RenameAsNodes(ns[1..], f, L);
      var r := RenameNamed(ns, f, L);
      assert AsNodes(ns)[1..] == AsNodes(ns[1..]);
      assert r[1..] == RenameNamed(ns[1..], f, L);
    }
  }

  function RenameEnvironment(e: Environment, f: File, L: seq<Key>): Environment
  {
    Environment(e.locked, false, RenameRef(e.parent, L),
                RenameNamed(e.variables, f, L), RenameNamed(e.attributes, f, L))
  }

  function RenamePointer(p: ExternalPointer, f: File, L: seq<Key>): ExternalPointer
  {
    ExternalPointer(
      if p.protection.None? then None else Some(RenameObject(p.protection.value, f, L)),
      if p.tag.None? then None else Some(RenameObject(p.tag.value, f, L)),
      RenameNamed(p.attributes, f, L))
  }

  // The tables.

  ghost function EnvironmentSlot(i: nat, open: set<Key>, f: File, L: seq<Key>): Option<Environment>
  {
    if Env(i) in open || i >= |f.environments| then None else Some(RenameEnvironment(f.environments[i], f, L))
  }

  ghost function PointerSlot(i: nat, open: set<Key>, f: File, L: seq<Key>): ExternalPointer
  {
    if Ptr(i) in open || i >= |f.pointers| then UNSET else RenamePointer(f.pointers[i], f, L)
  }

  ghost function Add(st: Tables, k: Key, open: set<Key>, f: File, L: seq<Key>): Tables
  {
    match k
    case Sym(symbol) => AddSymbol(st, symbol)
    case Env(i) =>
      var t := AddEnvironment(st);
      t.(environments := t.environments[|st.environments| := EnvironmentSlot(i, open, f, L)])
    case Ptr(i) =>
      var t := AddPointer(st);
      t.(pointers := t.pointers[|st.pointers| := PointerSlot(i, open, f, L)])
  }

  /** The parser's tables when the writer's log is `log` and the entities in `open` are being read. */
  ghost function Mirror(log: seq<Key>, open: set<Key>, f: File, L: seq<Key>): Tables
  {
    if log == [] then NO_TABLES
    else Add(Mirror(log[..|log| - 1], open, f, L), log[|log| - 1], open, f, L)
  }

  lemma MirrorAdd(log: seq<Key>, k: Key, open: set<Key>, f: File, L: seq<Key>)
    ensures Mirror(log + [k], open, f, L) == Add(Mirror(log, open, f, L), k, open, f, L)
  {
    assert (log + [k])[..|log|] == log;
  }

  lemma {:induction false} MirrorSizes(log: seq<Key>, open: set<Key>, f: File, L: seq<Key>)
    ensures var m := Mirror(log, open, f, L);
            && |m.mappings| == |log|
            && |m.symbols| == Count(log, SymbolKind)
            && |m.environments| == Count(log, EnvironmentKind)
            && |m.pointers| == Count(log, PointerKind)
  {
    if log != [] { MirrorSizes(log[..|log| - 1], open, f, L); }
  }

  /** Row `r` of the table for the kind of `k` is the row of `k`. */
  ghost predicate Holds(st: Tables, k: Key, r: nat, open: set<Key>, f: File, L: seq<Key>)
  {
    match k
    case Sym(symbol) => r < |st.symbols| && st.symbols[r] == symbol
    case Env(i) => r < |st.environments| && st.environments[r] == EnvironmentSlot(i, open, f, L)
    case Ptr(i) => r < |st.pointers| && st.pointers[r] == PointerSlot(i, open, f, L)
  }

  /** The row that an entity gets in the table of its kind. */
  function NextRow(k: Key, st: Tables): nat
  {
    match k
    case Sym(_) => |st.symbols|
    case Env(_) => |st.environments|
    case Ptr(_) => |st.pointers|
  }

  lemma AddHolds(st: Tables, k: Key, k': Key, r: nat, open: set<Key>, f: File, L: seq<Key>)
    requires k == k' ==> r == NextRow(k, st)
    requires k != k' ==> Holds(st, k, r, open, f, L)
    ensures Holds(Add(st, k', open, f, L), k, r, open, f, L)
  {
  }

  /** What the tables say about the entity with number `j + 1`. */
  lemma {:induction false} MirrorAt(log: seq<Key>, j: nat, open: set<Key>, f: File, L: seq<Key>)
    requires j < |log| && NoDuplicates(log)
    ensures var m := Mirror(log, open, f, L);
            var r := Count(log[..j], KindOf(log[j]));
            && |m.mappings| == |log|
            && m.mappings[j] == Mapping(KindOf(log[j]), r)
            && Holds(m, log[j], r, open, f, L)
  {
    var n := |log| - 1;
    var st := Mirror(log[..n], open, f, L);
    var r := Count(log[..j], KindOf(log[j]));
    MirrorSizes(log[..n], open, f, L);
    if j < n {
      MirrorAt(log[..n], j, open, f, L);
      assert log[..n][..j] == log[..j];
      Distinct(log, j, n);
    }
    AddHolds(st, log[j], log[n], r, open, f, L);
  }

  // Facts about logs without duplicates.

  lemma {:induction false} Distinct(log: seq<Key>, i: nat, j: nat)
    requires NoDuplicates(log) && i < j < |log|
    ensures log[i] != log[j]
  {
    var n := |log| - 1;
    if j < n {
      Distinct(log[..n], i, j);
    } else {
      assert log[i] == log[..n][i];
    }
  }

  lemma PositionIs(log: seq<Key>, j: nat)
    requires NoDuplicates(log) && j < |log|
    ensures Position(log, log[j]) == j
  {
    var i := Position(log, log[j]);
    if i < j { Distinct(log, i, j); }
    assert log[j] !in log[..i];
  }

  /** A number and a rank never change once they are given. */
  lemma RankStable(log: seq<Key>, L: seq<Key>, k: Key)
    requires log <= L && k in log && NoDuplicates(L)
    ensures k in L && Position(L, k) == Position(log, k)
    ensures Rank(L, k) == Rank(log, k) == Count(log[..Position(log, k)], KindOf(k))
  {
    var j := Position(log, k);
    assert L[j] == k;
    PositionIs(L, j);
    assert log[..j] == L[..j];
  }

  lemma RankOfLast(log: seq<Key>, L: seq<Key>, k: Key)
    requires log + [k] <= L && NoDuplicates(L)
    ensures Rank(L, k) == Count(log, KindOf(k))
  {
    assert L[|log|] == k;
    PositionIs(L, |log|);
    assert L[..|log|] == log;
  }

  // Opening and closing a slot.

  lemma {:induction false} OpenElsewhere(log: seq<Key>, k: Key, open: set<Key>, f: File, L: seq<Key>)
    requires k !in log
    ensures Mirror(log, open + {k}, f, L) == Mirror(log, open, f, L)
  {
    if log != [] { OpenElsewhere(log[..|log| - 1], k, open, f, L); }
  }

  /** Filling the slot of an entity that was being read, without touching any other. */
  ghost function Close(st: Tables, k: Key, r: nat, open: set<Key>, f: File, L: seq<Key>): Tables
  {
    match k
    case Sym(_) => st
    case Env(i) =>
      if r < |st.environments| then st.(environments := st.environments[r := EnvironmentSlot(i, open, f, L)]) else st
    case Ptr(i) =>
      if r < |st.pointers| then st.(pointers := st.pointers[r := PointerSlot(i, open, f, L)]) else st
  }

  lemma CloseAdd(st: Tables, k: Key, k': Key, r: nat, open: set<Key>, f: File, L: seq<Key>)
    requires k != k' && Holds(st, k, r, open + {k}, f, L)
    ensures Close(Add(st, k', open + {k}, f, L), k, r, open, f, L) == Add(Close(st, k, r, open, f, L), k', open, f, L)
  {
  }

  lemma CloseLast(st: Tables, k: Key, r: nat, open: set<Key>, f: File, L: seq<Key>)
    requires r == NextRow(k, st)
    ensures Close(Add(st, k, open + {k}, f, L), k, r, open, f, L) == Add(st, k, open, f, L)
  {
  }

  lemma {:induction false} Closing(log: seq<Key>, j: nat, open: set<Key>, f: File, L: seq<Key>)
    requires NoDuplicates(log) && j < |log| && log[j] !in open
    ensures Close(Mirror(log, open + {log[j]}, f, L), log[j], Count(log[..j], KindOf(log[j])), open, f, L)
         == Mirror(log, open, f, L)
  {
    var n := |log| - 1;
    var k := log[j];
    var st := Mirror(log[..n], open + {k}, f, L);
    var r := Count(log[..j], KindOf(k));
    if j < n {
      Distinct(log, j, n);
      Closing(log[..n], j, open, f, L);
      MirrorAt(log[..n], j, open + {k}, f, L);
      assert log[..n][..j] == log[..j];
      CloseAdd(st, k, log[n], r, open, f, L);
    } else {
      MirrorSizes(log[..n], open + {k}, f, L);
      OpenElsewhere(log[..n], k, open, f, L);
      CloseLast(st, k, r, open, f, L);
    }
  }

  // The two ends of reading an entity: its number is handed out first, its slot is filled last.

  lemma OpeningEnvironment(log: seq<Key>, i: nat, open: set<Key>, f: File, L: seq<Key>)
    requires Env(i) !in log
    ensures AddEnvironment(Mirror(log, open, f, L)) == Mirror(log + [Env(i)], open + {Env(i)}, f, L)
    ensures |Mirror(log, open, f, L).environments| == Count(log, EnvironmentKind)
  {
    var k := Env(i);
    MirrorSizes(log, open, f, L);
    OpenElsewhere(log, k, open, f, L);
    MirrorAdd(log, k, open + {k}, f, L);
  }

  lemma OpeningPointer(log: seq<Key>, i: nat, open: set<Key>, f: File, L: seq<Key>)
    requires Ptr(i) !in log
    ensures AddPointer(Mirror(log, open, f, L)) == Mirror(log + [Ptr(i)], open + {Ptr(i)}, f, L)
    ensures |Mirror(log, open, f, L).pointers| == Count(log, PointerKind)
  {
    var k := Ptr(i);
    MirrorSizes(log, open, f, L);
    OpenElsewhere(log, k, open, f, L);
    MirrorAdd(log, k, open + {k}, f, L);
  }

  /** `k` is the entity numbered right after those in `log`. */
  ghost predicate Follows(log: seq<Key>, k: Key, later: seq<Key>)
  {
    |log| < |later| && later[..|log|] == log && later[|log|] == k
  }

  lemma ClosingEnvironment(log: seq<Key>, later: seq<Key>, i: nat, open: set<Key>, f: File, L: seq<Key>)
    requires Follows(log, Env(i), later) && NoDuplicates(later) && Env(i) !in open && i < |f.environments|
    ensures var st, r := Mirror(later, open + {Env(i)}, f, L), Count(log, EnvironmentKind);
            && r < |st.environments|
            && st.(environments := st.environments[r := Some(RenameEnvironment(f.environments[i], f, L))])
               == Mirror(later, open, f, L)
  {
    Closing(later, |log|, open, f, L);
    MirrorAt(later, |log|, open + {Env(i)}, f, L);
  }

  lemma ClosingPointer(log: seq<Key>, later: seq<Key>, i: nat, open: set<Key>, f: File, L: seq<Key>)
    requires Follows(log, Ptr(i), later) && NoDuplicates(later) && Ptr(i) !in open && i < |f.pointers|
    ensures var st, r := Mirror(later, open + {Ptr(i)}, f, L), Count(log, PointerKind);
            && r < |st.pointers|
            && st.(pointers := st.pointers[r := RenamePointer(f.pointers[i], f, L)]) == Mirror(later, open, f, L)
  {
    Closing(later, |log|, open, f, L);
    MirrorAt(later, |log|, open + {Ptr(i)}, f, L);
  }
}
