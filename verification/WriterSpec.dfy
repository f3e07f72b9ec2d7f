/** What the writer appends to its output, as functions over a sink: the bytes so far, the entities
    that were given a reference number, in order (the k-th entity has number k + 1), and the largest
    number that a reference has been written for.
    `None` is an exception. The mutable writer is proved against these functions. */
module WriterSpec {
  import opened Bytes
  import opened Objects

  /** Something that is written in full at most once and referred to by number afterwards. */
  datatype Key = Sym(symbol: Symbol) | Env(index: nat) | Ptr(index: nat)

  datatype Sink = Sink(out: seq<byte>, log: seq<Key>, top: nat)

  const FRESH := Sink([], [], 0)

  const CLASS_SYMBOL := Symbol(CLASS_NAME, Ascii)
  const PACKAGE_SYMBOL := Symbol(PACKAGE_NAME, Ascii)

  ghost predicate NoDuplicates(log: seq<Key>)
  {
    log == [] || (log[|log| - 1] !in log[..|log| - 1] && NoDuplicates(log[..|log| - 1]))
  }

  /** The place of the first occurrence of a key. */
  function Position(log: seq<Key>, k: Key): (i: nat)
    requires k in log
    ensures i < |log| && log[i] == k && k !in log[..i]
  {
    if log[0] == k then 0
    else
      assert forall j :: 0 < j < |log| ==> log[1..][j - 1] == log[j];
      var i := 1 + Position(log[1..], k);
      assert log[..i] == [log[0]] + log[1..][..i - 1];
      i
  }

  // Termination of the writer on cyclic graphs: the table entries that have no number yet.

  ghost function Universe(f: File): set<Key>
  {
    (set i | 0 <= i < |f.environments| :: Env(i)) + set i | 0 <= i < |f.pointers| :: Ptr(i)
  }

  ghost function Unwritten(f: File, log: seq<Key>): set<Key>
  {
    if log == [] then Universe(f) else Unwritten(f, log[..|log| - 1]) - {log[|log| - 1]}
  }

  ghost function Budget(f: File, log: seq<Key>): nat { |Unwritten(f, log)| }

  lemma {:induction false} UnwrittenIs(f: File, log: seq<Key>, k: Key)
    ensures k in Unwritten(f, log) <==> k in Universe(f) && k !in log
  {
    if log != [] { UnwrittenIs(f, log[..|log| - 1], k); }
  }

  /** Output and log only ever grow at the end. */
  ghost predicate Before(s: Sink, t: Sink) { s.out <= t.out && s.log <= t.log && s.top <= t.top }

  ghost predicate NotShorter(t: Sink, s: Sink) { |s.out| <= |t.out| && |s.log| <= |t.log| }

  lemma BeforeTransitive(s: Sink, t: Sink, u: Sink)
    requires Before(s, t) && Before(t, u)
    ensures Before(s, u)
  {
  }

  /** Every step only appends, keeps the numbered entities distinct and never frees budget. */
  ghost predicate Extends(f: File, s: Sink, t: Sink)
  {
    && Before(s, t)
    && NotShorter(t, s)
    && (NoDuplicates(s.log) ==> NoDuplicates(t.log))
    && (s.top <= |s.log| ==> t.top <= |t.log|)
    && Budget(f, t.log) <= Budget(f, s.log)
  }

  lemma Chain(f: File, s: Sink, t: Sink, u: Sink)
    requires Extends(f, s, t) && Extends(f, t, u)
    ensures Extends(f, s, u) && Budget(f, u.log) <= Budget(f, t.log) <= Budget(f, s.log)
  {
  }

  lemma ItemExtends(f: File, s: Sink, t: Sink)
    requires Before(s, t) && t.log == s.log && t.top == s.top
    ensures Extends(f, s, t)
  {
  }

  function Put(s: Sink, bytes: seq<byte>): (t: Sink)
    ensures t.log == s.log && t.top == s.top && Before(s, t)
  {
    s.(out := s.out + bytes)
  }

  function Register(f: File, s: Sink, k: Key): (t: Sink)
    requires k !in s.log
    ensures Extends(f, s, t) && t.out == s.out && t.log == s.log + [k] && t.top == s.top
    ensures k in Universe(f) ==> Budget(f, t.log) < Budget(f, s.log)
  {
    UnwrittenIs(f, s.log, k);
    assert (s.log + [k])[..|s.log|] == s.log;
    s.(log := s.log + [k])
  }

  // Items without references.

  function EmitHeader(code: byte, flags: byte, s: Sink): Sink { Put(s, [0, 0, flags, code]) }

  function EmitInteger(x: int32, s: Sink): Sink { Put(s, BigEndian(ToU32(x), 4)) }

  function EmitLength(n: nat, s: Sink): (r: Option<Sink>)
    ensures r.Some? ==> Before(s, r.value) && r.value.log == s.log && r.value.top == s.top
  {
    if n <= INT32_MAX then Some(EmitInteger(n, s))
    else if n < SIZE_LIMIT then
      Some(Put(Put(EmitInteger(-1, s), BigEndian(n / 0x1_0000_0000, 4)), BigEndian(n % 0x1_0000_0000, 4)))
    else None
  }

  function CharHeader(encoding: Encoding): (h: seq<byte>)
    ensures |h| == 4
  {
    match encoding
    case None_ => [0, 0, 0x20, CHAR]
    case Latin1 => [0, 0, 0x40, CHAR]
    case Utf8 => [0, 0, 0x80, CHAR]
    case Ascii => [0, 4, 0, CHAR]
  }

  function EmitText(text: Text, encoding: Encoding, s: Sink): (r: Option<Sink>)
    ensures r.Some? ==> Before(s, r.value) && r.value.log == s.log && r.value.top == s.top
  {
    if |text| > INT32_MAX then None
    else Some(Put(EmitInteger(|text|, Put(s, CharHeader(encoding))), text))
  }

  function EmitString(x: RString, s: Sink): (r: Option<Sink>)
    ensures r.Some? ==> Before(s, r.value) && r.value.log == s.log && r.value.top == s.top
  {
    if x.value.Some? then EmitText(x.value.value, x.encoding, s)
    else Some(EmitInteger(-1, Put(s, CharHeader(x.encoding))))
  }

  function EmitStrings(xs: seq<RString>, s: Sink): (r: Option<Sink>)
    ensures r.Some? ==> Before(s, r.value) && r.value.log == s.log && r.value.top == s.top
  {
    if xs == [] then Some(s)
    else
      var t :- EmitString(xs[0], s);
      EmitStrings(xs[1..], t)
  }

  function EmitWords(ws: seq<nat>, w: nat, s: Sink): (t: Sink)
    ensures Before(s, t) && t.log == s.log && t.top == s.top
  {
    if ws == [] then s else EmitWords(ws[1..], w, Put(s, BigEndian(ws[0], w)))
  }

  function EmitAtoms(d: Atoms, flags: byte, s: Sink): (r: Option<Sink>)
    ensures r.Some? ==> Before(s, r.value) && r.value.log == s.log && r.value.top == s.top
  {
    var t :- EmitLength(AtomCount(d), EmitHeader(AtomCode(d), flags, s));
    Some(EmitWords(Words(d), WordWidth(AtomCode(d)), t))
  }

  function EmitStringData(xs: seq<RString>, flags: byte, s: Sink): (r: Option<Sink>)
    ensures r.Some? ==> Before(s, r.value) && r.value.log == s.log && r.value.top == s.top
  {
    var t :- EmitLength(|xs|, EmitHeader(STR, flags, s));
    EmitStrings(xs, t)
  }

  function EmitBuiltIn(name: Text, s: Sink): (r: Option<Sink>)
    ensures r.Some? ==> Before(s, r.value) && r.value.log == s.log && r.value.top == s.top
  {
    var t :- EmitLength(|name|, EmitHeader(BUILTIN, 0, s));
    Some(Put(t, name))
  }

  // References.

  function PutReference(number: nat, s: Sink): (t: Sink)
    ensures t.log == s.log && Before(s, t)
  {
    Put(s, ReferenceHeader(number)).(top := if number > s.top then number else s.top)
  }

  function EmitReference(k: Key, s: Sink): Sink
    requires k in s.log
  {
    PutReference(Position(s.log, k) + 1, s)
  }

  function EmitSymbol(symbol: Symbol, f: File, s: Sink): (r: Option<Sink>)
    ensures r.Some? ==> Extends(f, s, r.value)
  {
    if Sym(symbol) in s.log then Some(EmitReference(Sym(symbol), s))
    else
      var t :- EmitText(symbol.name, symbol.encoding, EmitHeader(SYM, 0, s));
      Some(Register(f, t, Sym(symbol)))
  }

  function EmitSymbolIndex(i: nat, f: File, s: Sink): (r: Option<Sink>)
    ensures r.Some? ==> Extends(f, s, r.value)
  {
    if i >= |f.symbols| then None else EmitSymbol(f.symbols[i], f, s)
  }

  function EmitTag(tag: Option<nat>, f: File, s: Sink): (r: Option<Sink>)
    ensures r.Some? ==> Extends(f, s, r.value)
  {
    if tag.None? then Some(s) else EmitSymbolIndex(tag.value, f, s)
  }

  predicate NamesClass(names: seq<Named>, f: File)
  {
    exists j :: 0 <= j < |names| && names[j].name < |f.symbols| && f.symbols[names[j].name].name == CLASS_NAME
  }

  function AttributeFlags(names: seq<Named>, f: File): byte
  {
    if names == [] then 0 else if NamesClass(names, f) then 3 else 2
  }

  function NodeFlags(attributes: seq<Named>, tag: Option<nat>): byte
  {
    (if attributes == [] then 0 else 2) + if tag.None? then 0 else 4
  }

  lemma FlagsSay(names: seq<Named>, tag: Option<nat>, f: File)
    ensures HasAttributes(NodeFlags(names, tag)) == (names != []) && HasTag(NodeFlags(names, tag)) == tag.Some?
    ensures HasAttributes(AttributeFlags(names, f)) == (names != []) && !HasTag(AttributeFlags(names, f))
  {
  }

  // Objects.

  function EmitObject(o: RObject, f: File, s: Sink): (r: Option<Sink>)
    ensures r.Some? ==> Extends(f, s, r.value)
    decreases Budget(f, s.log), Size(o), 0
  {
    match o
    case Null => Some(EmitHeader(NILVALUE, 0, s))
    case SymbolIndex(i) => EmitSymbolIndex(i, f, s)
    case EnvironmentIndex(e) => EmitEnvironment(e, f, s)
    case ExternalPointerIndex(i) => EmitPointer(i, f, s)
    case AtomicVector(d, a) =>
      var t :- EmitAtoms(d, AttributeFlags(a, f), s);
      EmitAttributes(a, f, t)
    case StringVector(xs, a) =>
      var t :- EmitStringData(xs, AttributeFlags(a, f), s);
      EmitAttributes(a, f, t)
    case GenericVector(es, a) => EmitVector(VEC, es, a, f, s)
    case ExpressionVector(es, a) => EmitVector(EXPR, es, a, f, s)
    case PairList(ns, a) => EmitNodes(a, ns, f, s)
    case S4Object(c, p, a) => EmitS4(c, p, a, f, s)
    case BuiltInFunction(name) => EmitBuiltIn(name, s)
    case LanguageObject(i, ns, a) => EmitCall(i, ns, a, f, s)
  }

  function EmitVector(code: byte, es: seq<RObject>, a: seq<Named>, f: File, s: Sink): (r: Option<Sink>)
    ensures r.Some? ==> Extends(f, s, r.value)
    decreases Budget(f, s.log), ObjectsSize(es) + NamedSize(a), 3
  {
    var t :- EmitLength(|es|, EmitHeader(code, AttributeFlags(a, f), s));
    var u :- EmitObjects(es, f, t);
    EmitAttributes(a, f, u)
  }

  function EmitS4(c: Symbol, p: Symbol, slots: seq<Named>, f: File, s: Sink): (r: Option<Sink>)
    ensures r.Some? ==> Extends(f, s, r.value)
    decreases Budget(f, s.log), NamedSize(slots), 3
  {
    var t :- EmitS4Head(c, p, f, s);
    AsNodesSize(slots);
    EmitNodes([], AsNodes(slots), f, t)
  }

  function EmitCall(i: nat, ns: seq<Node>, a: seq<Named>, f: File, s: Sink): (r: Option<Sink>)
    ensures r.Some? ==> Extends(f, s, r.value)
    decreases Budget(f, s.log), NodesSize(ns) + NamedSize(a), 3
  {
    var t :- EmitAttributes(a, f, EmitHeader(LANG, AttributeFlags(a, f), s));
    var u :- EmitSymbolIndex(i, f, t);
    EmitNodes([], ns, f, u)
  }

  function EmitObjects(os: seq<RObject>, f: File, s: Sink): (r: Option<Sink>)
    ensures r.Some? ==> Extends(f, s, r.value)
    decreases Budget(f, s.log), ObjectsSize(os), 1
  {
    if os == [] then Some(s)
    else
      var t :- EmitObject(os[0], f, s);
      EmitObjects(os[1..], f, t)
  }

  /** A pairlist up to and including its terminator; its attributes go with the first node. */
  function EmitNodes(attributes: seq<Named>, ns: seq<Node>, f: File, s: Sink): (r: Option<Sink>)
    ensures r.Some? ==> Extends(f, s, r.value)
    decreases Budget(f, s.log), NodesSize(ns) + NamedSize(attributes), 1
  {
    if ns == [] then Some(EmitHeader(NILVALUE, 0, s))
    else
      var t :- EmitNode(attributes, ns[0], f, s);
      EmitNodes([], ns[1..], f, t)
  }

  function EmitNode(attributes: seq<Named>, n: Node, f: File, s: Sink): (r: Option<Sink>)
    ensures r.Some? ==> Extends(f, s, r.value)
    decreases Budget(f, s.log), 1 + Size(n.value) + NamedSize(attributes), 0
  {
    var t :- EmitAttributes(attributes, f, EmitHeader(LIST, NodeFlags(attributes, n.tag), s));
    var u :- EmitTag(n.tag, f, t);
    EmitObject(n.value, f, u)
  }

  /** Nothing at all when there are no attributes: the header then says so. */
  function EmitAttributes(a: seq<Named>, f: File, s: Sink): (r: Option<Sink>)
    ensures r.Some? ==> Extends(f, s, r.value)
    decreases Budget(f, s.log), NamedSize(a), 2
  {
    AsNodesSize(a);
    if a == [] then Some(s) else EmitNodes([], AsNodes(a), f, s)
  }

  /** The class of an S4 object, as the first of its slots, with the package as its attribute. */
  function EmitS4Head(c: Symbol, p: Symbol, f: File, s: Sink): (r: Option<Sink>)
    ensures r.Some? ==> Extends(f, s, r.value)
  {
    var t :- EmitSymbol(CLASS_SYMBOL, f, EmitHeader(LIST, 4, Put(s, [0, 1, 3, S4])));
    var u :- EmitStringData([Present(c)], 2, t);
    EmitPackage(p, f, u)
  }

  function EmitPackage(p: Symbol, f: File, s: Sink): (r: Option<Sink>)
    ensures r.Some? ==> Extends(f, s, r.value)
  {
    var t :- EmitSymbol(PACKAGE_SYMBOL, f, EmitHeader(LIST, 4, s));
    var u :- EmitStringData([Present(p)], 0, t);
    Some(EmitHeader(NILVALUE, 0, u))
  }

  function EmitEnvironment(e: EnvRef, f: File, s: Sink): (r: Option<Sink>)
    ensures r.Some? ==> Extends(f, s, r.value)
    decreases Budget(f, s.log), 0, 1
  {
    match e
    case GlobalEnv => Some(EmitHeader(GLOBALENV, 0, s))
    case BaseEnv => Some(EmitHeader(BASEENV, 0, s))
    case EmptyEnv => Some(EmitHeader(EMPTYENV, 0, s))
    case Ordinary(i) =>
      if i >= |f.environments| then None
      else if Env(i) in s.log then Some(EmitReference(Env(i), s))
      else EmitNewEnvironment(i, f, s)
  }

  /** The number is given before the contents are written, so that they may refer to it. */
  function EmitNewEnvironment(i: nat, f: File, s: Sink): (r: Option<Sink>)
    requires i < |f.environments| && Env(i) !in s.log
    ensures r.Some? ==> Extends(f, s, r.value) && Extends(f, Register(f, s, Env(i)), r.value)
    decreases Budget(f, s.log), 0, 0
  {
    var e := f.environments[i];
    EmitEnvironmentBody(e, f, EmitHeader(ENV, AttributeFlags(e.attributes, f), Register(f, s, Env(i))))
  }

  function EmitEnvironmentBody(e: Environment, f: File, s: Sink): (r: Option<Sink>)
    ensures r.Some? ==> Extends(f, s, r.value)
    decreases Budget(f, s.log), NamedSize(e.variables) + NamedSize(e.attributes), 3
  {
    hide Extends;
    AsNodesSize(e.variables);
    AsNodesSize(e.attributes);
    var s0 := EmitInteger(if e.locked then 1 else 0, s);
    ItemExtends(f, s, s0);
    var s1 :- EmitEnvironment(e.parent, f, s0);
    Chain(f, s, s0, s1);
    var s2 :- EmitNodes([], AsNodes(e.variables), f, s1);
    Chain(f, s, s1, s2);
    var s3 := EmitHeader(NILVALUE, 0, s2);
    ItemExtends(f, s2, s3);
    Chain(f, s, s2, s3);
    var s4 :- EmitNodes([], AsNodes(e.attributes), f, s3);
    Chain(f, s, s3, s4);
    Some(s4)
  }

  function EmitPointer(i: nat, f: File, s: Sink): (r: Option<Sink>)
    ensures r.Some? ==> Extends(f, s, r.value)
    decreases Budget(f, s.log), 0, 1
  {
    if i >= |f.pointers| then None
    else if Ptr(i) in s.log then Some(EmitReference(Ptr(i), s))
    else EmitNewPointer(i, f, s)
  }

  function EmitNewPointer(i: nat, f: File, s: Sink): (r: Option<Sink>)
    requires i < |f.pointers| && Ptr(i) !in s.log
    ensures r.Some? ==> Extends(f, s, r.value) && Extends(f, Register(f, s, Ptr(i)), r.value)
    decreases Budget(f, s.log), 0, 0
  {
    var p := f.pointers[i];
    if p.protection.None? || p.tag.None? then None
    else EmitPointerBody(p, f, EmitHeader(EXTPTR, AttributeFlags(p.attributes, f), Register(f, s, Ptr(i))))
  }

  function EmitPointerBody(p: ExternalPointer, f: File, s: Sink): (r: Option<Sink>)
    requires p.protection.Some? && p.tag.Some?
    ensures r.Some? ==> Extends(f, s, r.value)
    decreases Budget(f, s.log), Size(p.protection.value) + Size(p.tag.value) + NamedSize(p.attributes), 3
  {
    var s1 :- EmitObject(p.protection.value, f, s);
    var s2 :- EmitObject(p.tag.value, f, s1);
    EmitAttributes(p.attributes, f, s2)
  }

  lemma NothingLeft(a: seq<Named>, f: File, s: Sink)
    ensures EmitObjects([], f, s) == Some(s) && EmitAttributes([], f, s) == Some(s)
    ensures EmitNodes(a, [], f, s) == Some(EmitHeader(NILVALUE, 0, s))
  {
  }

  /** The body of a file: its object, from a fresh sink. */
  function EmitFile(f: File): (r: Option<Sink>)
    ensures r.Some? ==> NoDuplicates(r.value.log) && r.value.top <= |r.value.log|
  {
    EmitObject(f.object_, f, FRESH)
  }
}
