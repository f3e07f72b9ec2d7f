/** What the parser reads, as functions of the whole input, a position in it and the reference
    tables so far. `Fail` is an exception. The mutable parser is proved against these functions. */
module ParserSpec {
  import opened Bytes
  import opened Objects
  import opened CompactSequences

  datatype Kind = SymbolKind | EnvironmentKind | PointerKind

  /** What reference number `i + 1` stands for: a kind and an index into the table of that kind. */
  datatype Mapping = Mapping(kind: Kind, index: nat)

  /** The tables under construction. An environment slot is `None` from the moment its number is
      handed out until its body has been read. */
  datatype Tables = Tables(
    mappings: seq<Mapping>, symbols: seq<Symbol>,
    environments: seq<Option<Environment>>, pointers: seq<ExternalPointer>)

  const NO_TABLES := Tables([], [], [], [])
  const UNSET := ExternalPointer(None, None, [])

  ghost predicate NotSmaller(t: Tables, s: Tables)
  {
    && |s.mappings| <= |t.mappings| && s.symbols <= t.symbols
    && |s.environments| <= |t.environments| && |s.pointers| <= |t.pointers|
  }

  /** The outcome of reading an item without references. */
  datatype Read<+T> = Bad | Good(value: T, pos: nat) {
    predicate IsFailure() { Bad? }
    function PropagateFailure<U>(): Read<U> requires Bad? { Bad }
    function Extract(): (T, nat) requires Good? { (value, pos) }
    function With(st: Tables): Parse<T> { if Bad? then Fail else Ok(value, pos, st) }
  }

  datatype Parse<+T> = Fail | Ok(value: T, pos: nat, st: Tables) {
    predicate IsFailure() { Fail? }
    function PropagateFailure<U>(): Parse<U> requires Fail? { Fail }
    function Extract(): (T, nat, Tables) requires Ok? { (value, pos, st) }
  }

  /** A pairlist with the attributes of all its nodes. */
  datatype Pairs = Pairs(nodes: seq<Node>, attributes: seq<Named>)

  // Items without references.

  function ReadU32(T: seq<byte>, pos: nat): (r: Read<u32>)
    ensures r.Good? ==> r.pos == pos + 4 <= |T|
  {
    if |T| < pos + 4 then Bad
    else
      Widths();
      FromBigEndianInverts(T[pos..pos + 4]);
      Good(FromBigEndian(T[pos..pos + 4]), pos + 4)
  }

  function ReadInt32(T: seq<byte>, pos: nat): (r: Read<int32>)
    ensures r.Good? ==> r.pos == pos + 4 <= |T|
  {
    var (x, p) :- ReadU32(T, pos);
    Good(FromU32(x), p)
  }

  function ReadLength(T: seq<byte>, pos: nat): (r: Read<u64>)
    ensures r.Good? ==> pos + 4 <= r.pos <= |T|
  {
    var (first, p) :- ReadInt32(T, pos);
    if first >= 0 then Good(first, p)
    else if first != -1 then Bad
    else
      var (upper, q) :- ReadU32(T, p);
      var (lower, r) :- ReadU32(T, q);
      Good(upper * 0x1_0000_0000 + lower, r)
  }

  function ReadEncoding(b1: byte, b2: byte): Encoding
  {
    if b2 / 0x20 % 2 == 1 then None_
    else if b2 / 0x40 % 2 == 1 then Latin1
    else if b2 / 0x80 % 2 == 1 then Utf8
    else if b1 / 4 % 2 == 1 then Ascii
    else Utf8
  }

  function ReadString(T: seq<byte>, pos: nat): (r: Read<RString>)
    ensures r.Good? ==> pos + 8 <= r.pos <= |T| && IsShort(r.value)
  {
    if |T| < pos + 4 || T[pos + 3] != CHAR then Bad
    else
      var (n, p) :- ReadInt32(T, pos + 4);
      if n == -1 then Good(RString(None, Utf8), p)
      else if n < 0 || |T| < p + n then Bad
      else Good(RString(Some(T[p..p + n]), ReadEncoding(T[pos + 1], T[pos + 2])), p + n)
  }

  function ReadStrings(n: nat, T: seq<byte>, pos: nat): (r: Read<seq<RString>>)
    requires pos <= |T|
    ensures r.Good? ==> pos <= r.pos <= |T| && |r.value| == n
    decreases |T| - pos
  {
    if n == 0 then Good([], pos)
    else
      var (x, p) :- ReadString(T, pos);
      var (xs, q) :- ReadStrings(n - 1, T, p);
      Good([x] + xs, q)
  }

  function ReadWords(n: nat, w: nat, T: seq<byte>, pos: nat): (r: Read<seq<nat>>)
    requires pos <= |T| && w > 0
    ensures r.Good? ==> pos <= r.pos <= |T| && |r.value| == n && WordsFit(r.value, w)
    decreases |T| - pos
  {
    if n == 0 then Good([], pos)
    else if |T| < pos + w then Bad
    else
      FromBigEndianInverts(T[pos..pos + w]);
      var (xs, q) :- ReadWords(n - 1, w, T, pos + w);
      Good([FromBigEndian(T[pos..pos + w])] + xs, q)
  }

  function ReadAtoms(code: byte, T: seq<byte>, pos: nat): (r: Read<Atoms>)
    requires IsAtomCode(code)
    ensures r.Good? ==> pos + 4 <= r.pos <= |T| && AtomCode(r.value) == code && AtomCount(r.value) < SIZE_LIMIT
  {
    var (n, p) :- ReadLength(T, pos);
    var (ws, q) :- ReadWords(n * WordsPerAtom(code), WordWidth(code), T, p);
    Good(FromWords(code, n, ws), q)
  }

  function ReadStringData(T: seq<byte>, pos: nat): (r: Read<seq<RString>>)
    ensures r.Good? ==> pos + 4 <= r.pos <= |T| && |r.value| < SIZE_LIMIT
  {
    var (n, p) :- ReadLength(T, pos);
    ReadStrings(n, T, p)
  }

  function ReadBuiltIn(T: seq<byte>, pos: nat): (r: Read<Text>)
    ensures r.Good? ==> pos + 4 <= r.pos <= |T| && |r.value| < SIZE_LIMIT
  {
    var (n, p) :- ReadLength(T, pos);
    if |T| < p + n then Bad else Good(T[p..p + n], p + n)
  }

  function ReadCompact(T: seq<byte>, pos: nat): (r: Read<seq<int32>>)
    ensures r.Good? ==> pos + 4 <= r.pos <= |T| && |r.value| < SIZE_LIMIT
  {
    if |T| < pos + 4 || T[pos + 3] != REAL then Bad
    else
      var (d, p) :- ReadAtoms(REAL, T, pos + 4);
      if |d.dbls| != 3 then Bad
      else
        var ints := ExpandDoubles(d.dbls[0], d.dbls[1], d.dbls[2]);
        if ints.None? || |T| < p + 4 || T[p + 3] != NILVALUE then Bad else Good(ints.value, p + 4)
  }

  // References.

  function Lookup(T: seq<byte>, pos: nat, st: Tables): (m: Option<Mapping>)
    requires pos + 4 <= |T|
  {
    var number := ReferenceNumber(T[pos], T[pos + 1], T[pos + 2]);
    if number == 0 || number > |st.mappings| then None else Some(st.mappings[number - 1])
  }

  function LookupKind(kind: Kind, T: seq<byte>, pos: nat, st: Tables): (index: Option<nat>)
    requires pos + 4 <= |T|
  {
    var m :- Lookup(T, pos, st);
    if m.kind != kind then None else Some(m.index)
  }

  function Resolve(m: Mapping): RObject
  {
    match m.kind
    case EnvironmentKind => EnvironmentIndex(Ordinary(m.index))
    case SymbolKind => SymbolIndex(m.index)
    case PointerKind => ExternalPointerIndex(m.index)
  }

  function AddSymbol(st: Tables, symbol: Symbol): Tables
  {
    st.(mappings := st.mappings + [Mapping(SymbolKind, |st.symbols|)], symbols := st.symbols + [symbol])
  }

  function AddEnvironment(st: Tables): Tables
  {
    st.(mappings := st.mappings + [Mapping(EnvironmentKind, |st.environments|)],
        environments := st.environments + [None])
  }

  function AddPointer(st: Tables): Tables
  {
    st.(mappings := st.mappings + [Mapping(PointerKind, |st.pointers|)], pointers := st.pointers + [UNSET])
  }

  /** The name of a symbol. The parser never asks for one outside its table. */
  function NameOf(i: nat, st: Tables): Text
  {
    if i < |st.symbols| then st.symbols[i].name else []
  }

  function ParseSymbolBody(T: seq<byte>, pos: nat, st: Tables): (r: Parse<nat>)
    ensures r.Ok? ==> pos + 4 <= r.pos <= |T| && NotSmaller(r.st, st)
  {
    var (x, p, _) :- ReadString(T, pos).With(st);
    if x.value.None? then Fail
    else Ok(|st.symbols|, p, AddSymbol(st, Symbol(x.value.value, x.encoding)))
  }

  function ParseTag(T: seq<byte>, pos: nat, st: Tables): (r: Parse<nat>)
    ensures r.Ok? ==> pos + 4 <= r.pos <= |T| && NotSmaller(r.st, st)
  {
    if |T| < pos + 4 then Fail
    else if T[pos + 3] == SYM then ParseSymbolBody(T, pos + 4, st)
    else if T[pos + 3] == REF then
      var index := LookupKind(SymbolKind, T, pos, st);
      if index.None? then Fail else Ok(index.value, pos + 4, st)
    else Fail
  }

  function ParseOptionalTag(flags: byte, T: seq<byte>, pos: nat, st: Tables): (r: Parse<Option<nat>>)
    requires pos <= |T|
    ensures r.Ok? ==> pos <= r.pos <= |T| && NotSmaller(r.st, st)
  {
    if !HasTag(flags) then Ok(None, pos, st)
    else
      var (i, p, s) :- ParseTag(T, pos, st);
      Ok(Some(i), p, s)
  }

  // Reinterpretation of what has been read.

  /** The object a call is made of: its first element must be a symbol. */
  function AsCall(l: Pairs): Option<RObject>
  {
    if l.nodes == [] || !l.nodes[0].value.SymbolIndex? then None
    else Some(LanguageObject(l.nodes[0].value.symbol, l.nodes[1..], l.attributes))
  }

  /** The class and package recorded by the class slot of an S4 object. */
  function ClassOf(value: RObject, st: Tables): Option<(Symbol, Symbol)>
  {
    if !value.StringVector? || |value.strings| != 1 || value.strings[0].value.None? then None
    else if |value.attributes| != 1 || NameOf(value.attributes[0].name, st) != PACKAGE_NAME then None
    else
      var package := value.attributes[0].value;
      if !package.StringVector? || |package.strings| != 1 || package.strings[0].value.None? then None
      else Some((Symbol(value.strings[0].value.value, value.strings[0].encoding),
                 Symbol(package.strings[0].value.value, package.strings[0].encoding)))
  }

  /** Separates the slots of an S4 object from its class, which must be there exactly once. */
  function AsS4(nodes: seq<Node>, found: Option<(Symbol, Symbol)>, slots: seq<Named>, st: Tables): Option<RObject>
  {
    if nodes == [] then
      if found.None? then None else Some(S4Object(found.value.0, found.value.1, slots))
    else if nodes[0].tag.None? then None
    else if NameOf(nodes[0].tag.value, st) != CLASS_NAME then
      AsS4(nodes[1..], found, slots + [Named(nodes[0].tag.value, nodes[0].value)], st)
    else if found.Some? then None
    else
      var c :- ClassOf(nodes[0].value, st);
      AsS4(nodes[1..], Some(c), slots, st)
  }

  /** The variables of a hashed environment: its buckets one after the other. */
  function AsVariables(buckets: seq<RObject>): Option<seq<Named>>
  {
    if buckets == [] then Some([])
    else if buckets[0].Null? then AsVariables(buckets[1..])
    else if !buckets[0].PairList? then None
    else
      var first :- AsNamed(buckets[0].nodes);
      var rest :- AsVariables(buckets[1..]);
      Some(first + rest)
  }

  function Digits(n: nat): Text
  {
    if n < 10 then [0x30 + n] else Digits(n / 10) + [0x30 + n % 10]
  }

  /** Integers as strings; the smallest one stands for a missing value. */
  function AsStrings(ints: seq<int32>): (xs: seq<RString>)
    ensures |xs| == |ints|
  {
    seq(|ints|, i requires 0 <= i < |ints| =>
      if ints[i] == -0x8000_0000 then RString(None, Utf8)
      else RString(Some(if ints[i] < 0 then [0x2D] + Digits(-ints[i]) else Digits(ints[i])), Ascii))
  }

  // Objects.

  function ParseObject(T: seq<byte>, pos: nat, st: Tables): (r: Parse<RObject>)
    requires pos <= |T|
    ensures r.Ok? ==> pos + 4 <= r.pos <= |T| && NotSmaller(r.st, st)
    decreases |T| - pos, 0
  {
    if |T| < pos + 4 then Fail else ParseBody(T[pos + 3], T[pos + 2], T, pos + 4, st)
  }

  /** Dispatch on the type code of the header that ends at `p`. */
  function ParseBody(code: byte, flags: byte, T: seq<byte>, p: nat, st: Tables): (r: Parse<RObject>)
    requires 4 <= p <= |T|
    ensures r.Ok? ==> p <= r.pos <= |T| && NotSmaller(r.st, st)
    decreases |T| - p, 5
  {
    if code == LIST then
      var (l, q, s) :- ParsePairs(flags, T, p, st);
      Ok(PairList(l.nodes, l.attributes), q, s)
    else if code == SYM then
      var (i, q, s) :- ParseSymbolBody(T, p, st);
      Ok(SymbolIndex(i), q, s)
    else if code == S4 then ParseS4(T[p - 3], flags, T, p, st)
    else if code == ALTREP then ParseAltrep(T, p, st)
    else if code == NIL || code == NILVALUE then Ok(Null, p, st)
    else if code == ENV then
      var (i, q, s) :- ParseEnvironment(T, p, st);
      Ok(EnvironmentIndex(Ordinary(i)), q, s)
    else if code == EXTPTR then ParsePointer(flags, T, p, st)
    else if code == GLOBALENV then Ok(EnvironmentIndex(GlobalEnv), p, st)
    else if code == BASEENV then Ok(EnvironmentIndex(BaseEnv), p, st)
    else if code == EMPTYENV then Ok(EnvironmentIndex(EmptyEnv), p, st)
    else if code == REF then
      var m := Lookup(T, p - 4, st);
      if m.None? then Fail else Ok(Resolve(m.value), p, st)
    else if code == BUILTIN then
      var (name, q, s) :- ReadBuiltIn(T, p).With(st);
      Ok(BuiltInFunction(name), q, s)
    else if code == LANG then ParseCall(flags, T, p, st)
    else if IsAtomCode(code) then ParseAtomic(code, flags, T, p, st)
    else if code == STR then ParseStringVector(flags, T, p, st)
    else if code == VEC || code == EXPR then ParseVector(code, flags, T, p, st)
    else Fail
  }

  function ParseCall(flags: byte, T: seq<byte>, pos: nat, st: Tables): (r: Parse<RObject>)
    requires pos <= |T|
    ensures r.Ok? ==> pos + 4 <= r.pos <= |T| && NotSmaller(r.st, st)
    decreases |T| - pos, 4
  {
    var (l, p, s) :- ParsePairs(flags, T, pos, st);
    var call := AsCall(l);
    if call.None? then Fail else Ok(call.value, p, s)
  }

  function ParseAtomic(code: byte, flags: byte, T: seq<byte>, pos: nat, st: Tables): (r: Parse<RObject>)
    requires IsAtomCode(code)
    ensures r.Ok? ==> pos + 4 <= r.pos <= |T| && NotSmaller(r.st, st)
    decreases |T| - pos, 3
  {
    var (d, p, _) :- ReadAtoms(code, T, pos).With(st);
    var (a, q, s) :- ParseOptionalAttributes(flags, T, p, st);
    Ok(AtomicVector(d, a), q, s)
  }

  function ParseStringVector(flags: byte, T: seq<byte>, pos: nat, st: Tables): (r: Parse<RObject>)
    ensures r.Ok? ==> pos + 4 <= r.pos <= |T| && NotSmaller(r.st, st)
    decreases |T| - pos, 3
  {
    var (xs, p, _) :- ReadStringData(T, pos).With(st);
    var (a, q, s) :- ParseOptionalAttributes(flags, T, p, st);
    Ok(StringVector(xs, a), q, s)
  }

  function ParseVector(code: byte, flags: byte, T: seq<byte>, pos: nat, st: Tables): (r: Parse<RObject>)
    ensures r.Ok? ==> pos + 4 <= r.pos <= |T| && NotSmaller(r.st, st)
    decreases |T| - pos, 3
  {
    var (es, p, t) :- ParseList(T, pos, st);
    var (a, q, s) :- ParseOptionalAttributes(flags, T, p, t);
    Ok(if code == VEC then GenericVector(es, a) else ExpressionVector(es, a), q, s)
  }

  function ParseList(T: seq<byte>, pos: nat, st: Tables): (r: Parse<seq<RObject>>)
    ensures r.Ok? ==> pos + 4 <= r.pos <= |T| && NotSmaller(r.st, st) && |r.value| < SIZE_LIMIT
    decreases |T| - pos, 0
  {
    var (n, p, _) :- ReadLength(T, pos).With(st);
    ParseObjects(n, T, p, st)
  }

  function ParseObjects(n: nat, T: seq<byte>, pos: nat, st: Tables): (r: Parse<seq<RObject>>)
    requires pos <= |T|
    ensures r.Ok? ==> pos <= r.pos <= |T| && |r.value| == n && NotSmaller(r.st, st)
    decreases |T| - pos, 1
  {
    if n == 0 then Ok([], pos, st)
    else
      var (o, p, s) :- ParseObject(T, pos, st);
      var (os, q, t) :- ParseObjects(n - 1, T, p, s);
      Ok([o] + os, q, t)
  }

  /** The rest of a pairlist whose first header, with the given flags, has been read. */
  function ParsePairs(flags: byte, T: seq<byte>, pos: nat, st: Tables): (r: Parse<Pairs>)
    requires pos <= |T|
    ensures r.Ok? ==> pos + 8 <= r.pos <= |T| && r.value.nodes != [] && NotSmaller(r.st, st)
    decreases |T| - pos, 3
  {
    var (first, p, s) :- ParseNode(flags, T, pos, st);
    if |T| < p + 4 then Fail
    else if T[p + 3] == NILVALUE then Ok(first, p + 4, s)
    else if T[p + 3] != LIST then Fail
    else
      var (rest, q, t) :- ParsePairs(T[p + 2], T, p + 4, s);
      Ok(Pairs(first.nodes + rest.nodes, first.attributes + rest.attributes), q, t)
  }

  /** One node: its attributes, its tag and its value, in that order. */
  function ParseNode(flags: byte, T: seq<byte>, pos: nat, st: Tables): (r: Parse<Pairs>)
    requires pos <= |T|
    ensures r.Ok? ==> pos + 4 <= r.pos <= |T| && |r.value.nodes| == 1 && NotSmaller(r.st, st)
    decreases |T| - pos, 2
  {
    var (a, p1, s1) :- ParseOptionalAttributes(flags, T, pos, st);
    var (tag, p2, s2) :- ParseOptionalTag(flags, T, p1, s1);
    var (o, p3, s3) :- ParseObject(T, p2, s2);
    Ok(Pairs([Node(tag, o)], a), p3, s3)
  }

  function ParseOptionalAttributes(flags: byte, T: seq<byte>, pos: nat, st: Tables): (r: Parse<seq<Named>>)
    requires pos <= |T|
    ensures r.Ok? ==> pos <= r.pos <= |T| && NotSmaller(r.st, st)
    decreases |T| - pos, 1
  {
    if !HasAttributes(flags) then Ok([], pos, st)
    else if |T| < pos + 4 || T[pos + 3] != LIST then Fail
    else ParseAttributes(T[pos + 2], T, pos + 4, st)
  }

  function ParseAttributes(flags: byte, T: seq<byte>, pos: nat, st: Tables): (r: Parse<seq<Named>>)
    requires pos <= |T|
    ensures r.Ok? ==> pos + 8 <= r.pos <= |T| && NotSmaller(r.st, st)
    decreases |T| - pos, 4
  {
    var (l, p, s) :- ParsePairs(flags, T, pos, st);
    var names := AsNamed(l.nodes);
    if names.None? then Fail else Ok(names.value, p, s)
  }

  /** Attributes or a null. */
  function ParseFinalAttributes(T: seq<byte>, pos: nat, st: Tables): (r: Parse<seq<Named>>)
    ensures r.Ok? ==> pos + 4 <= r.pos <= |T| && NotSmaller(r.st, st)
    decreases |T| - pos, 0
  {
    if |T| < pos + 4 then Fail
    else if T[pos + 3] == NILVALUE then Ok([], pos + 4, st)
    else if T[pos + 3] == LIST then ParseAttributes(T[pos + 2], T, pos + 4, st)
    else Fail
  }

  function ParseS4(gp: byte, flags: byte, T: seq<byte>, pos: nat, st: Tables): (r: Parse<RObject>)
    ensures r.Ok? ==> pos + 4 <= r.pos <= |T| && NotSmaller(r.st, st)
    decreases |T| - pos, 0
  {
    if !HasAttributes(flags) || !HasObject(flags) || gp % 2 == 0 then Fail
    else if |T| < pos + 4 || T[pos + 3] != LIST then Fail
    else
      var (l, p, s) :- ParsePairs(T[pos + 2], T, pos + 4, st);
      var o := AsS4(l.nodes, None, [], s);
      if o.None? then Fail else Ok(o.value, p, s)
  }

  /** The slot is there before the contents are read and filled when they have been. */
  function ParsePointer(flags: byte, T: seq<byte>, pos: nat, st: Tables): (r: Parse<RObject>)
    requires pos <= |T|
    ensures r.Ok? ==> pos + 4 <= r.pos <= |T| && NotSmaller(r.st, st)
    decreases |T| - pos, 2
  {
    var i := |st.pointers|;
    var (pointer, p, s) :- ParsePointerBody(flags, T, pos, AddPointer(st));
    Ok(ExternalPointerIndex(i), p, s.(pointers := s.pointers[i := pointer]))
  }

  function ParsePointerBody(flags: byte, T: seq<byte>, pos: nat, st: Tables): (r: Parse<ExternalPointer>)
    requires pos <= |T|
    ensures r.Ok? ==> pos + 4 <= r.pos <= |T| && NotSmaller(r.st, st)
    decreases |T| - pos, 1
  {
    var (protection, p1, s1) :- ParseObject(T, pos, st);
    var (tag, p2, s2) :- ParseObject(T, p1, s1);
    var (a, p3, s3) :- ParseOptionalAttributes(flags, T, p2, s2);
    Ok(ExternalPointer(Some(protection), Some(tag), a), p3, s3)
  }

  function ParseEnvironment(T: seq<byte>, pos: nat, st: Tables): (r: Parse<nat>)
    ensures r.Ok? ==> pos + 4 <= r.pos <= |T| && NotSmaller(r.st, st)
    decreases |T| - pos, 1
  {
    var i := |st.environments|;
    var (environment, p, s) :- ParseEnvironmentBody(T, pos, AddEnvironment(st));
    Ok(i, p, s.(environments := s.environments[i := Some(environment)]))
  }

  function ParseEnvironmentBody(T: seq<byte>, pos: nat, st: Tables): (r: Parse<Environment>)
    ensures r.Ok? ==> pos + 4 <= r.pos <= |T| && NotSmaller(r.st, st)
    decreases |T| - pos, 0
  {
    var (locked, p1, _) :- ReadInt32(T, pos).With(st);
    var (parent, p2, s2) :- ParseParent(T, p1, st);
    var (body, p3, s3) :- ParseVariables(T, p2, s2);
    var (a, p4, s4) :- ParseFinalAttributes(T, p3, s3);
    Ok(Environment(locked > 0, body.0, parent, body.1, a), p4, s4)
  }

  function ParseParent(T: seq<byte>, pos: nat, st: Tables): (r: Parse<EnvRef>)
    ensures r.Ok? ==> pos + 4 <= r.pos <= |T| && NotSmaller(r.st, st)
    decreases |T| - pos, 0
  {
    if |T| < pos + 4 then Fail
    else
      var code, p := T[pos + 3], pos + 4;
      if code == REF then
        var index := LookupKind(EnvironmentKind, T, pos, st);
        if index.None? then Fail else Ok(Ordinary(index.value), p, st)
      else if code == ENV then
        var (i, q, s) :- ParseEnvironment(T, p, st);
        Ok(Ordinary(i), q, s)
      else if code == GLOBALENV then Ok(GlobalEnv, p, st)
      else if code == BASEENV || code == NILVALUE then Ok(BaseEnv, p, st)
      else if code == EMPTYENV then Ok(EmptyEnv, p, st)
      else Fail
  }

  /** Whether the variables were hashed, and the variables in either layout. */
  function ParseVariables(T: seq<byte>, pos: nat, st: Tables): (r: Parse<(bool, seq<Named>)>)
    ensures r.Ok? ==> pos + 4 <= r.pos <= |T| && NotSmaller(r.st, st)
    decreases |T| - pos, 0
  {
    if |T| < pos + 4 then Fail
    else if T[pos + 3] == LIST then
      var (a, p, s) :- ParseAttributes(T[pos + 2], T, pos + 4, st);
      if |T| < p + 4 || T[p + 3] != NILVALUE then Fail else Ok((false, a), p + 4, s)
    else if T[pos + 3] == NILVALUE then
      if |T| < pos + 8 || T[pos + 7] != VEC then Fail
      else
        var (buckets, p, s) :- ParseList(T, pos + 8, st);
        var names := AsVariables(buckets);
        if names.None? then Fail else Ok((true, names.value), p, s)
    else Fail
  }

  function ParseAltrep(T: seq<byte>, pos: nat, st: Tables): (r: Parse<RObject>)
    ensures r.Ok? ==> pos + 4 <= r.pos <= |T| && NotSmaller(r.st, st)
    decreases |T| - pos, 0
  {
    if |T| < pos + 4 || T[pos + 3] != LIST then Fail
    else
      var (l, p, s) :- ParsePairs(T[pos + 2], T, pos + 4, st);
      if !l.nodes[0].value.SymbolIndex? then Fail
      else
        var name := NameOf(l.nodes[0].value.symbol, s);
        if name == WRAP_INTEGER then ParseWrapper(T, p, s)
        else if name == COMPACT_INTSEQ then
          var (ints, q, _) :- ReadCompact(T, p).With(s);
          Ok(AtomicVector(Integers(ints), []), q, s)
        else if name == DEFERRED_STRING then ParseDeferred(T, p, s)
        else Fail
  }

  /** The object in the first half of a wrapper's state and, in the second half, that many
      integers that are ignored. */
  function ParseState(ignored: nat, T: seq<byte>, pos: nat, st: Tables): (r: Parse<RObject>)
    ensures r.Ok? ==> pos + 4 <= r.pos <= |T| && NotSmaller(r.st, st)
    decreases |T| - pos, 0
  {
    if |T| < pos + 4 || T[pos + 3] != LIST then Fail
    else
      var (o, p, s) :- ParseObject(T, pos + 4, st);
      if |T| < p + 4 || T[p + 3] != INT then Fail
      else
        var (d, q, _) :- ReadAtoms(INT, T, p + 4).With(s);
        if |d.ints| != ignored then Fail else Ok(o, q, s)
  }

  function ParseWrapper(T: seq<byte>, pos: nat, st: Tables): (r: Parse<RObject>)
    ensures r.Ok? ==> pos + 4 <= r.pos <= |T| && NotSmaller(r.st, st)
    decreases |T| - pos, 1
  {
    var (o, p, s) :- ParseState(2, T, pos, st);
    if !o.AtomicVector? || !o.atoms.Integers? then Fail
    else
      var (a, q, t) :- ParseFinalAttributes(T, p, s);
      Ok(AtomicVector(o.atoms, o.attributes + a), q, t)
  }

  function ParseDeferred(T: seq<byte>, pos: nat, st: Tables): (r: Parse<RObject>)
    ensures r.Ok? ==> pos + 4 <= r.pos <= |T| && NotSmaller(r.st, st)
    decreases |T| - pos, 1
  {
    var (o, p, s) :- ParseState(1, T, pos, st);
    if !o.AtomicVector? || !o.atoms.Integers? then Fail
    else if |T| < p + 4 || T[p + 3] != NILVALUE then Fail
    else Ok(StringVector(AsStrings(o.atoms.ints), []), p + 4, s)
  }

  // What is made of the tables at the end: an environment that was never filled would be the default.

  const DEFAULT_ENVIRONMENT := Environment(false, false, GlobalEnv, [], [])

  function ToFile(o: RObject, st: Tables): File
  {
    var environments := seq(|st.environments|, i requires 0 <= i < |st.environments| =>
      if st.environments[i].Some? then st.environments[i].value else DEFAULT_ENVIRONMENT);
    File(o, st.symbols, environments, st.pointers)
  }

  /** The body of a file: one object, from empty tables. */
  function ParseFile(T: seq<byte>): (r: Parse<RObject>)
    ensures r.Ok? ==> 4 <= r.pos <= |T|
  {
    ParseObject(T, 0, NO_TABLES)
  }

  /** A pairlist tag is read like a symbol or a reference to one that stands on its own. */
  lemma TagIsObject(T: seq<byte>, pos: nat, st: Tables)
    requires ParseTag(T, pos, st).Ok?
    ensures var (i, p, s) := ParseTag(T, pos, st).Extract(); ParseObject(T, pos, st) == Ok(SymbolIndex(i), p, s)
  {
    hide ParsePairs, ParseEnvironment, ParseAltrep, ParseS4, ParsePointer, ParseCall, ParseAtomic, ParseStringVector,
      ParseVector;
  }

  /** A parent is read like an environment that stands on its own, except for a null. */
  lemma ParentIsObject(T: seq<byte>, pos: nat, st: Tables)
    requires pos + 4 <= |T| && T[pos + 3] in {ENV, GLOBALENV, BASEENV, EMPTYENV}
    ensures ParseObject(T, pos, st)
         == match ParseParent(T, pos, st) case Ok(e, p, s) => Ok(EnvironmentIndex(e), p, s) case Fail => Fail
  {
    hide ParsePairs, ParseEnvironment, ParseAltrep, ParseS4, ParsePointer, ParseCall, ParseAtomic, ParseStringVector,
      ParseVector;
  }

  lemma ReferenceIsObject(T: seq<byte>, pos: nat, st: Tables)
    requires pos + 4 <= |T| && T[pos + 3] == REF
    ensures ParseObject(T, pos, st)
         == match Lookup(T, pos, st) case Some(m) => Ok(Resolve(m), pos + 4, st) case None => Fail
  {
    hide ParsePairs, ParseEnvironment, ParseAltrep, ParseS4, ParsePointer, ParseCall, ParseAtomic, ParseStringVector,
      ParseVector;
  }

  /** Which function reads the rest of an object, by type code. */
  lemma Dispatch(T: seq<byte>, pos: nat, st: Tables)
    requires pos + 4 <= |T|
    ensures var gp, flags, code, p, o := T[pos + 1], T[pos + 2], T[pos + 3], pos + 4, ParseObject(T, pos, st);
            && (code == S4 ==> o == ParseS4(gp, flags, T, p, st))
            && (code == ALTREP ==> o == ParseAltrep(T, p, st))
            && (code == EXTPTR ==> o == ParsePointer(flags, T, p, st))
            && (code == LANG ==> o == ParseCall(flags, T, p, st))
            && (IsAtomCode(code) ==> o == ParseAtomic(code, flags, T, p, st))
            && (code == STR ==> o == ParseStringVector(flags, T, p, st))
            && (code == VEC || code == EXPR ==> o == ParseVector(code, flags, T, p, st))
  {
    hide ParsePairs, ParseEnvironment, ParseAltrep, ParseS4, ParsePointer, ParseCall, ParseAtomic, ParseStringVector,
      ParseVector;
  }

  lemma PairsUnfold(flags: byte, T: seq<byte>, pos: nat, st: Tables)
    requires pos <= |T|
    ensures ParsePairs(flags, T, pos, st)
         == match ParseNode(flags, T, pos, st)
            case Fail => Fail
            case Ok(first, p, s) =>
              if |T| < p + 4 then Fail
              else if T[p + 3] == NILVALUE then Ok(first, p + 4, s)
              else if T[p + 3] != LIST then Fail
              else
                match ParsePairs(T[p + 2], T, p + 4, s)
                case Fail => Fail
                case Ok(rest, q, t) => Ok(Pairs(first.nodes + rest.nodes, first.attributes + rest.attributes), q, t)
  {
  }
}
