/** The parser on arbitrary bytes: what it returns depends only on the bytes it consumed, every
    index it returns is inside its table, it disturbs no slot that existed before, and it leaves
    no slot of its own unfilled. */
module ParserSafety {
  import opened Bytes
  import opened Objects
  import opened ParserSpec

  // Indices inside their tables, and trees in the normal form that the format can express. `b` holds
  // the tables at the end of a run.

  predicate ClosedRef(e: EnvRef, b: Tables) { e.Ordinary? ==> e.index < |b.environments| }

  ghost predicate ClosedObject(o: RObject, b: Tables)
  {
    match o
    case Null => true
    case SymbolIndex(i) => i < |b.symbols|
    case EnvironmentIndex(e) => ClosedRef(e, b)
    case ExternalPointerIndex(i) => i < |b.pointers|
    case AtomicVector(d, a) => AtomCount(d) < SIZE_LIMIT && ClosedNamed(a, b)
    case StringVector(xs, a) =>
      |xs| < SIZE_LIMIT && AllShort(xs) && NormalStrings(xs) == xs && ClosedNamed(a, b)
    case GenericVector(es, a) => |es| < SIZE_LIMIT && ClosedObjects(es, b) && ClosedNamed(a, b)
    case ExpressionVector(es, a) => |es| < SIZE_LIMIT && ClosedObjects(es, b) && ClosedNamed(a, b)
    case PairList(ns, a) => ns != [] && ClosedNodes(ns, b) && ClosedNamed(a, b)
    case S4Object(c, p, a) => IsShort(Present(c)) && IsShort(Present(p)) && NoneIsClass(a, b) && ClosedNamed(a, b)
    case BuiltInFunction(name) => |name| < SIZE_LIMIT
    case LanguageObject(i, ns, a) => i < |b.symbols| && ClosedNodes(ns, b) && ClosedNamed(a, b)
  }

  predicate AllShort(xs: seq<RString>) { forall j :: 0 <= j < |xs| ==> IsShort(xs[j]) }

  /** No slot of an S4 object that has been read is called "class". */
  ghost predicate NoneIsClass(slots: seq<Named>, b: Tables)
  {
    forall n :: n in slots ==> NameOf(n.name, b) != CLASS_NAME
  }

  ghost predicate ClosedObjects(os: seq<RObject>, b: Tables) { forall o :: o in os ==> ClosedObject(o, b) }

  predicate ClosedTag(tag: Option<nat>, b: Tables) { tag.Some? ==> tag.value < |b.symbols| }

  ghost predicate ClosedNode(n: Node, b: Tables) { ClosedTag(n.tag, b) && ClosedObject(n.value, b) }

  ghost predicate ClosedNodes(ns: seq<Node>, b: Tables) { forall n :: n in ns ==> ClosedNode(n, b) }

  ghost predicate ClosedName(n: Named, b: Tables) { n.name < |b.symbols| && ClosedObject(n.value, b) }

  ghost predicate ClosedNamed(ns: seq<Named>, b: Tables) { forall n :: n in ns ==> ClosedName(n, b) }

  lemma ObjectsTail(os: seq<RObject>, b: Tables)
    requires os != [] && ClosedObjects(os, b)
    ensures ClosedObject(os[0], b) && ClosedObjects(os[1..], b)
  {
    hide ClosedObject;
    forall o | o in os[1..] ensures ClosedObject(o, b) { assert o in os; }
  }

  lemma NodesTail(ns: seq<Node>, b: Tables)
    requires ns != [] && ClosedNodes(ns, b)
    ensures ClosedNode(ns[0], b) && ClosedNodes(ns[1..], b)
  {
    hide ClosedNode;
    forall n | n in ns[1..] ensures ClosedNode(n, b) { assert n in ns; }
  }

  lemma NamedTail(ns: seq<Named>, b: Tables)
    requires ns != [] && ClosedNamed(ns, b)
    ensures ClosedName(ns[0], b) && ClosedNamed(ns[1..], b)
  {
    hide ClosedName;
    forall n | n in ns[1..] ensures ClosedName(n, b) { assert n in ns; }
  }

  ghost predicate ClosedEnvironment(e: Environment, b: Tables)
  {
    ClosedRef(e.parent, b) && ClosedNamed(e.variables, b) && ClosedNamed(e.attributes, b)
  }

  ghost predicate ClosedPointer(p: ExternalPointer, b: Tables)
  {
    && p.protection.Some? && ClosedObject(p.protection.value, b)
    && p.tag.Some? && ClosedObject(p.tag.value, b)
    && ClosedNamed(p.attributes, b)
  }

  /** The mappings of each kind are 0, 1, 2, ... up to the size of the table of that kind. */
  ghost predicate Numbered(m: seq<Mapping>, symbols: nat, environments: nat, pointers: nat)
  {
    if m == [] then symbols == environments == pointers == 0
    else
      var last, rest := m[|m| - 1], m[..|m| - 1];
      match last.kind
      case SymbolKind => symbols == last.index + 1 && Numbered(rest, last.index, environments, pointers)
      case EnvironmentKind => environments == last.index + 1 && Numbered(rest, symbols, last.index, pointers)
      case PointerKind => pointers == last.index + 1 && Numbered(rest, symbols, environments, last.index)
  }

  ghost predicate Consistent(st: Tables)
  {
    Numbered(st.mappings, |st.symbols|, |st.environments|, |st.pointers|)
  }

  /** Every mapping points into the table of its kind: what makes it sound to treat anything that is
      neither an environment nor a symbol as an external pointer. */
  lemma {:induction false} MappingInside(m: seq<Mapping>, i: nat, symbols: nat, environments: nat, pointers: nat)
    requires i < |m| && Numbered(m, symbols, environments, pointers)
    ensures match m[i].kind
            case SymbolKind => m[i].index < symbols
            case EnvironmentKind => m[i].index < environments
            case PointerKind => m[i].index < pointers
  {
    var last, rest := m[|m| - 1], m[..|m| - 1];
    if i < |m| - 1 {
      match last.kind
      case SymbolKind => MappingInside(rest, i, last.index, environments, pointers);
      case EnvironmentKind => MappingInside(rest, i, symbols, last.index, pointers);
      case PointerKind => MappingInside(rest, i, symbols, environments, last.index);
    }
  }

  /** `t` keeps everything that is in `s`, and every slot that is new in `t` has been filled. */
  ghost predicate Grows(s: Tables, t: Tables, b: Tables)
  {
    && s.mappings <= t.mappings && s.symbols <= t.symbols
    && s.environments <= t.environments && s.pointers <= t.pointers
    && (forall i :: |s.symbols| <= i < |t.symbols| ==> |t.symbols[i].name| <= INT32_MAX)
    && (forall i :: |s.environments| <= i < |t.environments| ==>
          t.environments[i].Some? && ClosedEnvironment(t.environments[i].value, b))
    && (forall i :: |s.pointers| <= i < |t.pointers| ==> ClosedPointer(t.pointers[i], b))
    && (Consistent(s) ==> Consistent(t))
  }

  lemma GrowsTransitive(s: Tables, t: Tables, u: Tables, b: Tables)
    requires Grows(s, t, b) && Grows(t, u, b)
    ensures Grows(s, u, b)
  {
    hide Consistent, ClosedEnvironment, ClosedPointer;
    assert forall i :: 0 <= i < |t.environments| ==> t.environments[i] == u.environments[i];
    assert forall i :: 0 <= i < |t.pointers| ==> t.pointers[i] == u.pointers[i];
    assert forall i :: 0 <= i < |t.symbols| ==> t.symbols[i] == u.symbols[i];
  }

  lemma AddSymbolGrows(st: Tables, symbol: Symbol, b: Tables)
    requires |symbol.name| <= INT32_MAX
    ensures Grows(st, AddSymbol(st, symbol), b)
  {
    var t := AddSymbol(st, symbol);
    assert t.mappings[..|t.mappings| - 1] == st.mappings;
  }

  lemma AddEnvironmentConsistent(st: Tables)
    requires Consistent(st)
    ensures Consistent(AddEnvironment(st))
  {
    var t := AddEnvironment(st);
    assert t.mappings[..|t.mappings| - 1] == st.mappings;
  }

  lemma AddPointerConsistent(st: Tables)
    requires Consistent(st)
    ensures Consistent(AddPointer(st))
  {
    var t := AddPointer(st);
    assert t.mappings[..|t.mappings| - 1] == st.mappings;
  }

  /** Filling the slot that was added first keeps all the others. */
  lemma FillEnvironment(s: Tables, t: Tables, e: Environment, b: Tables)
    requires Grows(AddEnvironment(s), t, b) && ClosedEnvironment(e, b) && Consistent(s)
    ensures |s.environments| < |t.environments|
    ensures Grows(s, t.(environments := t.environments[|s.environments| := Some(e)]), b)
  {
    AddEnvironmentConsistent(s);
  }

  lemma FillPointer(s: Tables, t: Tables, p: ExternalPointer, b: Tables)
    requires Grows(AddPointer(s), t, b) && ClosedPointer(p, b) && Consistent(s)
    ensures |s.pointers| < |t.pointers|
    ensures Grows(s, t.(pointers := t.pointers[|s.pointers| := p]), b)
  {
    AddPointerConsistent(s);
  }

  lemma {:induction false} StringsNormal(n: nat, T: seq<byte>, pos: nat)
    requires pos <= |T| && ReadStrings(n, T, pos).Good?
    ensures NormalStrings(ReadStrings(n, T, pos).value) == ReadStrings(n, T, pos).value
    ensures AllShort(ReadStrings(n, T, pos).value)
    decreases n
  {
    if n > 0 {
      var (x, p) := ReadString(T, pos).Extract();
      var xs := ReadStrings(n - 1, T, p).value;
      StringsNormal(n - 1, T, p);
      assert ([x] + xs)[1..] == xs;
    }
  }

  lemma {:induction false} DigitsShort(n: nat)
    ensures |Digits(n)| <= n / 10 + 1
  {
    if n >= 10 { DigitsShort(n / 10); }
  }

  lemma StringsShort(ints: seq<int32>)
    ensures AllShort(AsStrings(ints))
  {
    forall j | 0 <= j < |ints| ensures IsShort(AsStrings(ints)[j]) {
      var magnitude: int := ints[j];
      DigitsShort(if magnitude < 0 then -magnitude else magnitude);
    }
  }

  lemma {:induction false} NormalAll(xs: seq<RString>)
    requires forall i :: 0 <= i < |xs| ==> NormalString(xs[i]) == xs[i]
    ensures NormalStrings(xs) == xs
  {
    if xs != [] {
      NormalAll(xs[1..]);
      assert xs == [xs[0]] + xs[1..];
    }
  }

  // Reinterpretation keeps indices inside.

  lemma {:induction false} NamedClosed(ns: seq<Node>, b: Tables)
    requires ClosedNodes(ns, b) && AsNamed(ns).Some?
    ensures ClosedNamed(AsNamed(ns).value, b)
  {
    if ns != [] {
      assert ns[0] in ns && ClosedNode(ns[0], b);
      assert forall n :: n in ns[1..] ==> n in ns;
      NamedClosed(ns[1..], b);
    }
  }

  lemma ClassShort(value: RObject, st: Tables, b: Tables)
    requires ClosedObject(value, b) && ClassOf(value, st).Some?
    ensures IsShort(Present(ClassOf(value, st).value.0)) && IsShort(Present(ClassOf(value, st).value.1))
  {
    assert ClosedNamed(value.attributes, b);
    assert value.attributes[0] in value.attributes && ClosedName(value.attributes[0], b);
    assert ClosedObject(value.attributes[0].value, b);
  }

  ghost predicate ClassIsShort(found: Option<(Symbol, Symbol)>)
  {
    found.Some? ==> IsShort(Present(found.value.0)) && IsShort(Present(found.value.1))
  }

  /** The slots are closed for the tables at which they were read, `st`, and for those at the end. */
  lemma {:induction false} S4Closed(
    ns: seq<Node>, found: Option<(Symbol, Symbol)>, slots: seq<Named>, st: Tables, b: Tables)
    requires ClosedNodes(ns, st) && ClosedNodes(ns, b) && st.symbols <= b.symbols
    requires ClosedNamed(slots, b) && NoneIsClass(slots, b) && ClassIsShort(found)
    requires AsS4(ns, found, slots, st).Some?
    ensures ClosedObject(AsS4(ns, found, slots, st).value, b)
    decreases |ns|
  {
    hide ClosedNodes, ClassOf;
    if ns != [] {
      NodesTail(ns, b);
      NodesTail(ns, st);
      var i := ns[0].tag.value;
      assert st.symbols[i] == b.symbols[i];
      if NameOf(i, st) != CLASS_NAME {
        S4Closed(ns[1..], found, slots + [Named(i, ns[0].value)], st, b);
      } else {
        ClassShort(ns[0].value, st, b);
        S4Closed(ns[1..], ClassOf(ns[0].value, st), slots, st, b);
      }
    }
  }

  lemma {:induction false} VariablesClosed(os: seq<RObject>, b: Tables)
    requires ClosedObjects(os, b) && AsVariables(os).Some?
    ensures ClosedNamed(AsVariables(os).value, b)
  {
    if os != [] {
      assert os[0] in os && ClosedObject(os[0], b);
      assert forall o :: o in os[1..] ==> o in os;
      VariablesClosed(os[1..], b);
      if os[0].PairList? { NamedClosed(os[0].nodes, b); }
    }
  }
}
