/** The in-memory representation of R objects. A tree owns its children; symbols, environments
    and external pointers live in the tables of a file and are named by index, so that the
    object graph may be cyclic. */
module Objects {
  import opened Bytes

  datatype Option<+T> = None | Some(value: T) {
    predicate IsFailure() { None? }
    function PropagateFailure<U>(): Option<U> requires None? { None }
    function Extract(): T requires Some? { value }
  }

  type Text = seq<byte>

  const CLASS_NAME: Text := [0x63, 0x6C, 0x61, 0x73, 0x73]
  const PACKAGE_NAME: Text := [0x70, 0x61, 0x63, 0x6B, 0x61, 0x67, 0x65]
  const WRAP_INTEGER: Text := [0x77, 0x72, 0x61, 0x70, 0x5F, 0x69, 0x6E, 0x74, 0x65, 0x67, 0x65, 0x72]
  const COMPACT_INTSEQ: Text :=
    [0x63, 0x6F, 0x6D, 0x70, 0x61, 0x63, 0x74, 0x5F, 0x69, 0x6E, 0x74, 0x73, 0x65, 0x71]

  const DEFERRED_STRING: Text :=
    [0x64, 0x65, 0x66, 0x65, 0x72, 0x72, 0x65, 0x64, 0x5F, 0x73, 0x74, 0x72, 0x69, 0x6E, 0x67]

  datatype Encoding = None_ | Latin1 | Utf8 | Ascii

  datatype Symbol = Symbol(name: Text, encoding: Encoding)

  /** A string; `None` is a missing one, which still has an encoding. */
  datatype RString = RString(value: Option<Text>, encoding: Encoding)

  /** The contents of an atomic vector. Doubles are opaque 64-bit patterns. */
  datatype Atoms =
    | Integers(ints: seq<int32>)
    | Logicals(lgls: seq<int32>)
    | Doubles(dbls: seq<u64>)
    | Complexes(cplx: seq<(u64, u64)>)
    | Raws(raws: seq<byte>)

  datatype EnvRef = GlobalEnv | BaseEnv | EmptyEnv | Ordinary(index: nat)

  datatype RObject =
    | Null
    | SymbolIndex(symbol: nat)
    | EnvironmentIndex(env: EnvRef)
    | ExternalPointerIndex(pointer: nat)
    | AtomicVector(atoms: Atoms, attributes: seq<Named>)
    | StringVector(strings: seq<RString>, attributes: seq<Named>)
    | GenericVector(elements: seq<RObject>, attributes: seq<Named>)
    | ExpressionVector(elements: seq<RObject>, attributes: seq<Named>)
    | PairList(nodes: seq<Node>, attributes: seq<Named>)
    | S4Object(className: Symbol, packageName: Symbol, attributes: seq<Named>)
    | BuiltInFunction(name: Text)
    | LanguageObject(function_: nat, arguments: seq<Node>, attributes: seq<Named>)

  /** An attribute, an S4 slot or a variable of an environment: the name is a symbol index. */
  datatype Named = Named(name: nat, value: RObject)

  /** An element of a pairlist or an argument of a call: the tag is optional. */
  datatype Node = Node(tag: Option<nat>, value: RObject)

  datatype Environment = Environment(
    locked: bool, hashed: bool, parent: EnvRef, variables: seq<Named>, attributes: seq<Named>)

  /** `None` stands for a pointer that has not been set. */
  datatype ExternalPointer = ExternalPointer(
    protection: Option<RObject>, tag: Option<RObject>, attributes: seq<Named>)

  datatype File = File(
    object_: RObject, symbols: seq<Symbol>, environments: seq<Environment>, pointers: seq<ExternalPointer>)

  function AsNodes(names: seq<Named>): (nodes: seq<Node>)
    ensures |nodes| == |names|
  {
    if names == [] then [] else [Node(Some(names[0].name), names[0].value)] + AsNodes(names[1..])
  }

  /** The same list with mandatory names; `None` when an element is untagged. */
  function AsNamed(nodes: seq<Node>): (names: Option<seq<Named>>)
    ensures names.Some? ==> |names.value| == |nodes|
  {
    if nodes == [] then Some([])
    else if nodes[0].tag.None? then None
    else
      var rest :- AsNamed(nodes[1..]);
      Some([Named(nodes[0].tag.value, nodes[0].value)] + rest)
  }

  lemma {:induction false} NamedInverts(names: seq<Named>)
    ensures AsNamed(AsNodes(names)) == Some(names)
  {
    if names != [] {
      NamedInverts(names[1..]);
      assert AsNodes(names)[1..] == AsNodes(names[1..]);
      assert names == [names[0]] + names[1..];
    }
  }

  function Present(name: Symbol): RString { RString(Some(name.name), name.encoding) }

  /** Short enough to be written; whatever is read is. */
  predicate IsShort(x: RString) { x.value.Some? ==> |x.value.value| <= INT32_MAX }

  // The format does not keep the encoding of a missing string.

  function NormalString(x: RString): RString
  {
    if x.value.None? then RString(None, Utf8) else x
  }

  function NormalStrings(xs: seq<RString>): (ys: seq<RString>)
    ensures |ys| == |xs|
  {
    if xs == [] then [] else [NormalString(xs[0])] + NormalStrings(xs[1..])
  }

  // Structural sizes: the part of the writer's termination measure that handles trees.

  function Size(o: RObject): nat
  {
    match o
    case AtomicVector(_, a) => 1 + NamedSize(a)
    case StringVector(_, a) => 1 + NamedSize(a)
    case GenericVector(es, a) => 1 + ObjectsSize(es) + NamedSize(a)
    case ExpressionVector(es, a) => 1 + ObjectsSize(es) + NamedSize(a)
    case PairList(ns, a) => 1 + NodesSize(ns) + NamedSize(a)
    case S4Object(_, _, a) => 1 + NamedSize(a)
    case LanguageObject(_, ns, a) => 1 + NodesSize(ns) + NamedSize(a)
    case _ => 1
  }

  function ObjectsSize(os: seq<RObject>): nat
  {
    if os == [] then 0 else 1 + Size(os[0]) + ObjectsSize(os[1..])
  }

  function NodesSize(ns: seq<Node>): nat
  {
    if ns == [] then 0 else assert ns[0].value < ns[0]; 1 + Size(ns[0].value) + NodesSize(ns[1..])
  }

  function NamedSize(ns: seq<Named>): nat
  {
    if ns == [] then 0 else assert ns[0].value < ns[0]; 1 + Size(ns[0].value) + NamedSize(ns[1..])
  }

  lemma {:induction false} AsNodesSize(names: seq<Named>)
    ensures NodesSize(AsNodes(names)) == NamedSize(names)
  {
    if names != [] {
      AsNodesSize(names[1..]);
      assert AsNodes(names)[1..] == AsNodes(names[1..]);
    }
  }

  // Atomic contents as machine words: two per complex number, one per element otherwise.

  function AtomCode(d: Atoms): byte
  {
    match d
    case Integers(_) => INT
    case Logicals(_) => LGL
    case Doubles(_) => REAL
    case Complexes(_) => CPLX
    case Raws(_) => RAW
  }

  function AtomCount(d: Atoms): nat
  {
    match d
    case Integers(v) => |v|
    case Logicals(v) => |v|
    case Doubles(v) => |v|
    case Complexes(v) => |v|
    case Raws(v) => |v|
  }

  function WordWidth(code: byte): (w: nat)
    ensures w in {1, 4, 8}
  {
    if code == INT || code == LGL then 4 else if code == RAW then 1 else 8
  }

  function WordsPerAtom(code: byte): nat { if code == CPLX then 2 else 1 }

  predicate IsAtomCode(code: byte) { code in {INT, LGL, REAL, CPLX, RAW} }

  function Words(d: Atoms): (ws: seq<nat>)
  {
    match d
    case Integers(v) => seq(|v|, i requires 0 <= i < |v| => ToU32(v[i]))
    case Logicals(v) => seq(|v|, i requires 0 <= i < |v| => ToU32(v[i]))
    case Doubles(v) => seq(|v|, i requires 0 <= i < |v| => v[i])
    case Complexes(v) => seq(2 * |v|, i requires 0 <= i < 2 * |v| => if i % 2 == 0 then v[i / 2].0 else v[i / 2].1)
    case Raws(v) => seq(|v|, i requires 0 <= i < |v| => v[i])
  }

  ghost predicate WordsFit(ws: seq<nat>, w: nat)
  {
    forall i :: 0 <= i < |ws| ==> ws[i] < Pow256(w)
  }

  /** Rebuilds `n` atoms from their words. */
  function FromWords(code: byte, n: nat, ws: seq<nat>): (d: Atoms)
    requires IsAtomCode(code)
    requires |ws| == n * WordsPerAtom(code) && WordsFit(ws, WordWidth(code))
    ensures AtomCode(d) == code && AtomCount(d) == n
  {
    Widths();
    assert forall i :: 0 <= i < |ws| ==> ws[i] < Pow256(WordWidth(code));
    if code == INT then Integers(seq(n, i requires 0 <= i < n => FromU32(ws[i])))
    else if code == LGL then Logicals(seq(n, i requires 0 <= i < n => FromU32(ws[i])))
    else if code == REAL then Doubles(seq(n, i requires 0 <= i < n => ws[i]))
    else if code == CPLX then Complexes(seq(n, i requires 0 <= i < n => (ws[2 * i], ws[2 * i + 1])))
    else Raws(seq(n, i requires 0 <= i < n => ws[i]))
  }

  lemma WordsInvert(d: Atoms)
    ensures IsAtomCode(AtomCode(d))
    ensures |Words(d)| == AtomCount(d) * WordsPerAtom(AtomCode(d))
    ensures WordsFit(Words(d), WordWidth(AtomCode(d)))
    ensures FromWords(AtomCode(d), AtomCount(d), Words(d)) == d
  {
    Widths();
    var e := FromWords(AtomCode(d), AtomCount(d), Words(d));
    match d
    case Integers(v) => assert e.ints == v;
    case Logicals(v) => assert e.lgls == v;
    case Doubles(v) => assert e.dbls == v;
    case Complexes(v) => assert e.cplx == v;
    case Raws(v) => assert e.raws == v;
  }
}
