/** The writer as a mutable object: an output buffer, a counter, one dictionary of symbols per
    encoding and one cached number per table entry. Every method is proved against the function of
    `WriterSpec` that says what is appended. */
module Writer {
  import opened Bytes
  import opened Objects
  import opened HostMemory
  import opened WriterSpec

  /** The number of an entity, or zero as long as it has none. */
  function Number(log: seq<Key>, k: Key): nat { if k in log then Position(log, k) + 1 else 0 }

  lemma {:induction false} NumberAppend(log: seq<Key>, k: Key, k': Key)
    requires k !in log
    ensures Number(log + [k], k') == if k' == k then |log| + 1 else Number(log, k')
  {
    if log != [] {
      assert log == [log[0]] + log[1..];
      assert (log + [k])[1..] == log[1..] + [k];
      assert forall x :: x in log + [k] <==> x == log[0] || x in log[1..] + [k];
      NumberAppend(log[1..], k, k');
    }
  }

  /** Different entities have different numbers. */
  lemma NumberInjective(log: seq<Key>, k: Key, k': Key)
    requires k in log && Number(log, k) == Number(log, k')
    ensures k == k'
  {
  }

  function EncodingIndex(e: Encoding): (i: nat)
    ensures i < 4
  {
    match e
    case None_ => 0
    case Latin1 => 1
    case Utf8 => 2
    case Ascii => 3
  }

  /** The number that the dictionaries give for a symbol. */
  function Find(mappings: seq<map<Text, nat>>, symbol: Symbol): Option<nat>
    requires |mappings| == 4
  {
    var host := mappings[EncodingIndex(symbol.encoding)];
    if symbol.name in host then Some(host[symbol.name]) else None
  }

  function Enter(mappings: seq<map<Text, nat>>, symbol: Symbol, number: nat): (r: seq<map<Text, nat>>)
    requires |mappings| == 4
    ensures |r| == 4
  {
    var e := EncodingIndex(symbol.encoding);
    var host: map<Text, nat> := mappings[e];
    mappings[e := host[symbol.name := number]]
  }

  /** The dictionaries hold the symbols in the log and nothing else. */
  ghost predicate Indexed(mappings: seq<map<Text, nat>>, log: seq<Key>)
  {
    && |mappings| == 4
    && forall s: Symbol :: Find(mappings, s) == if Sym(s) in log then Some(Number(log, Sym(s))) else None
  }

  lemma EnterKeepsIndexed(mappings: seq<map<Text, nat>>, symbol: Symbol, log: seq<Key>)
    requires Indexed(mappings, log) && Sym(symbol) !in log
    ensures Indexed(Enter(mappings, symbol, |log| + 1), log + [Sym(symbol)])
  {
    forall s: Symbol
      ensures Find(Enter(mappings, symbol, |log| + 1), s)
           == if Sym(s) in log + [Sym(symbol)] then Some(Number(log + [Sym(symbol)], Sym(s))) else None
    {
      assert Find(Enter(mappings, symbol, |log| + 1), s) == if s == symbol then Some(|log| + 1) else Find(mappings, s);
      NumberAppend(log, Sym(symbol), Sym(s));
    }
  }

  lemma KeepsIndexed(mappings: seq<map<Text, nat>>, k: Key, log: seq<Key>)
    requires Indexed(mappings, log) && !k.Sym? && k !in log
    ensures Indexed(mappings, log + [k])
  {
    forall s: Symbol
      ensures Find(mappings, s) == if Sym(s) in log + [k] then Some(Number(log + [k], Sym(s))) else None
    {
      NumberAppend(log, k, Sym(s));
    }
  }

  /** A symbol with a number is written as a reference to it. */
  lemma KnownSymbol(symbol: Symbol, f: File, s: Sink)
    ensures Number(s.log, Sym(symbol)) != 0 ==>
              EmitSymbol(symbol, f, s) == Some(PutReference(Number(s.log, Sym(symbol)), s))
  {
    hide Extends;
  }

  // One step of each loop.

  lemma NamedStep(a: seq<Named>, i: nat, f: File, s: Sink)
    requires i < |a|
    ensures Size(a[i].value) < NamedSize(a)
    ensures EmitNodes([], AsNodes(a[i..]), f, s)
         == match EmitSymbolIndex(a[i].name, f, EmitHeader(LIST, 4, s))
            case None => None
            case Some(u) =>
              match EmitObject(a[i].value, f, u)
              case None => None
              case Some(t) => EmitNodes([], AsNodes(a[i + 1..]), f, t)
  {
    hide EmitObject, EmitSymbolIndex, Extends;
    NamedSizeAt(a, i);
    var ns, rest := AsNodes(a[i..]), AsNodes(a[i + 1..]);
    assert a[i..][1..] == a[i + 1..] && ns[1..] == rest;
    assert ns[0] == Node(Some(a[i].name), a[i].value);
    assert EmitAttributes([], f, EmitHeader(LIST, 4, s)) == Some(EmitHeader(LIST, 4, s));
  }

  lemma {:induction false} NamedSizeAt(a: seq<Named>, i: nat)
    requires i < |a|
    ensures Size(a[i].value) < NamedSize(a)
  {
    if i > 0 { NamedSizeAt(a[1..], i - 1); }
  }

  lemma NodeStep(a: seq<Named>, ns: seq<Node>, i: nat, f: File, s: Sink)
    requires i < |ns|
    ensures Size(ns[i].value) < NodesSize(ns)
    ensures EmitNodes(a, ns[i..], f, s)
         == match EmitNode(a, ns[i], f, s) case None => None case Some(t) => EmitNodes([], ns[i + 1..], f, t)
  {
    hide EmitNode, Extends;
    NodesSizeAt(ns, i);
    assert ns[i..][1..] == ns[i + 1..];
  }

  lemma {:induction false} NodesSizeAt(ns: seq<Node>, i: nat)
    requires i < |ns|
    ensures Size(ns[i].value) < NodesSize(ns)
  {
    if i > 0 { NodesSizeAt(ns[1..], i - 1); }
  }

  lemma ObjectStep(os: seq<RObject>, i: nat, f: File, s: Sink)
    requires i < |os|
    ensures Size(os[i]) < ObjectsSize(os)
    ensures EmitObjects(os[i..], f, s)
         == match EmitObject(os[i], f, s) case None => None case Some(t) => EmitObjects(os[i + 1..], f, t)
  {
    hide EmitObject, Extends;
    ObjectsSizeAt(os, i);
    assert os[i..][1..] == os[i + 1..];
  }

  lemma {:induction false} ObjectsSizeAt(os: seq<RObject>, i: nat)
    requires i < |os|
    ensures Size(os[i]) < ObjectsSize(os)
  {
    if i > 0 { ObjectsSizeAt(os[1..], i - 1); }
  }

  lemma StringStep(xs: seq<RString>, i: nat, s: Sink)
    requires i < |xs|
    ensures EmitStrings(xs[i..], s)
         == match EmitString(xs[i], s) case None => None case Some(t) => EmitStrings(xs[i + 1..], t)
  {
    assert xs[i..][1..] == xs[i + 1..];
  }

  /** A big-endian host writes its memory as it is. */
  lemma {:induction false} WordsInOneGo(ws: seq<nat>, w: nat, s: Sink)
    ensures EmitWords(ws, w, s) == Put(s, StoredAll(ws, w, false))
  {
    if ws == [] {
      assert s.out + [] == s.out;
    } else {
      var b, rest := BigEndian(ws[0], w), StoredAll(ws[1..], w, false);
      WordsInOneGo(ws[1..], w, Put(s, b));
      assert s.out + b + rest == s.out + (b + rest);
    }
  }

  class SharedWriteInfo {
    const file: File
    const littleEndian: bool
    var out: seq<byte>
    var referenceCount: nat
    var symbolMappings: seq<map<Text, nat>>
    var knownSymbolMappings: seq<nat>
    var knownEnvironmentMappings: seq<nat>
    var knownPointerMappings: seq<nat>
    ghost var log: seq<Key>
    ghost var top: nat

    /** The counter is one ahead of the numbers given so far, and the caches agree with each other
        and with the order in which the numbers were given. An entry of the symbol cache may
        still be empty when the symbol has a number, because another entry with the same name and
        encoding or an S4 object has brought it up. */
    ghost predicate Valid()
      reads `log, `referenceCount, `symbolMappings
      reads `knownSymbolMappings, `knownEnvironmentMappings, `knownPointerMappings
    {
      && NoDuplicates(log) && referenceCount == |log| + 1
      && Indexed(symbolMappings, log)
      && SymbolsAgree(knownSymbolMappings)
      && |knownEnvironmentMappings| == |file.environments|
      && (forall i :: 0 <= i < |file.environments| ==> knownEnvironmentMappings[i] == Number(log, Env(i)))
      && |knownPointerMappings| == |file.pointers|
      && (forall i :: 0 <= i < |file.pointers| ==> knownPointerMappings[i] == Number(log, Ptr(i)))
    }

    ghost predicate SymbolsAgree(cache: seq<nat>)
      reads `log
    {
      && |cache| == |file.symbols|
      && (forall i :: 0 <= i < |cache| && cache[i] != 0 ==> cache[i] == Number(log, Sym(file.symbols[i])))
    }

    ghost function State(): Sink
      reads `out, `log, `top
    {
      Sink(out, log, top)
    }

    /** The outcome of a step that may throw: the object stays valid in any case. */
    ghost predicate Wrote(ok: bool, r: Option<Sink>)
      reads this
    {
      Valid() && ok == r.Some? && (ok ==> State() == r.value)
    }

    constructor (f: File, little: bool)
      ensures Valid() && State() == FRESH && file == f && littleEndian == little
    {
      file := f;
      littleEndian := little;
      out := [];
      referenceCount := 1;
      symbolMappings := [map[], map[], map[], map[]];
      knownSymbolMappings := seq(|f.symbols|, _ => 0);
      knownEnvironmentMappings := seq(|f.environments|, _ => 0);
      knownPointerMappings := seq(|f.pointers|, _ => 0);
      log := [];
      top := 0;
    }

    // Items without references.

    method Write(bytes: seq<byte>)
      modifies `out
      ensures State() == Put(old(State()), bytes)
    {
      out := out + bytes;
    }

    /** Builds the number in host memory and reverses it there if the host is little-endian. */
    method InjectInteger(n: nat, w: nat)
      modifies `out
      ensures State() == Put(old(State()), BigEndian(n, w))
    {
      var bytes := Stored(n, w, littleEndian);
      var ptr := new byte[w](i requires 0 <= i < w => bytes[i]);
      assert ptr[0..w] == bytes == ptr[..];
      if littleEndian {
        ReverseRange(ptr, 0, w);
        ReversedTwice(BigEndian(n, w));
        assert ptr[..] == ptr[0..w] == BigEndian(n, w);
      }
      Write(ptr[..]);
    }

    method InjectLength(n: nat) returns (ok: bool)
      modifies `out
      ensures ok == EmitLength(n, old(State())).Some?
      ensures ok ==> State() == EmitLength(n, old(State())).value
    {
      if n <= INT32_MAX {
        InjectInteger(n, 4);
      } else if n < SIZE_LIMIT {
        InjectInteger(ToU32(-1), 4);
        InjectInteger(n / 0x1_0000_0000, 4);
        InjectInteger(n % 0x1_0000_0000, 4);
      }
      return n < SIZE_LIMIT;
    }

    method InjectHeader(code: byte, flags: byte)
      modifies `out
      ensures State() == EmitHeader(code, flags, old(State()))
    {
      Write([0, 0, flags, code]);
    }

    /** The flag byte for some attributes, with a search for a class among them. */
    method InjectAttributeHeader(a: seq<Named>) returns (bits: byte)
      ensures bits == AttributeFlags(a, file) && bits < 4 && (bits >= 2 <==> a != [])
      ensures bits % 2 == 1 <==> exists j :: 0 <= j < |a| && a[j].name < |file.symbols|
                                   && file.symbols[a[j].name].name == [0x63, 0x6C, 0x61, 0x73, 0x73]
    {
      bits := 0;
      if a != [] {
        bits := 2;
        for i := 0 to |a|
          invariant bits == 2
          invariant forall j :: 0 <= j < i && a[j].name < |file.symbols| ==> file.symbols[a[j].name].name != CLASS_NAME
        {
          if a[i].name < |file.symbols| && file.symbols[a[i].name].name == CLASS_NAME {
            bits := 3;
            break;
          }
        }
      }
    }

    method SetEncodingBit(encoding: Encoding, details: array<byte>)
      requires details.Length == 4 && details[1] == 0 && details[2] == 0
      modifies details
      ensures details[0] == old(details[0]) && details[3] == old(details[3])
      ensures details[1] == CharHeader(encoding)[1] && details[2] == CharHeader(encoding)[2]
    {
      match encoding
      case None_ => details[2] := 0x20;
      case Latin1 => details[2] := 0x40;
      case Utf8 => details[2] := 0x80;
      case Ascii => details[1] := 4;
    }

    method WriteCharHeader(encoding: Encoding)
      modifies `out
      ensures State() == Put(old(State()), CharHeader(encoding))
    {
      var details := new byte[4](_ => 0);
      SetEncodingBit(encoding, details);
      details[3] := CHAR;
      assert details[..] == CharHeader(encoding);
      Write(details[..]);
    }

    method WriteText(value: Text, encoding: Encoding) returns (ok: bool)
      modifies `out
      ensures ok == EmitText(value, encoding, old(State())).Some?
      ensures ok ==> State() == EmitText(value, encoding, old(State())).value
    {
      WriteCharHeader(encoding);
      if |value| > INT32_MAX { return false; }
      InjectInteger(|value|, 4);
      Write(value);
      return true;
    }

    method WriteString(x: RString) returns (ok: bool)
      modifies `out
      ensures ok == EmitString(x, old(State())).Some?
      ensures ok ==> State() == EmitString(x, old(State())).value
    {
      if x.value.Some? {
        ok := WriteText(x.value.value, x.encoding);
      } else {
        WriteCharHeader(x.encoding);
        InjectInteger(ToU32(-1), 4);
        ok := true;
      }
    }

    /** One element at a time on a little-endian host, the whole memory at once on the other kind. */
    method WriteWords(values: seq<nat>, w: nat)
      modifies `out
      ensures State() == EmitWords(values, w, old(State()))
    {
      if littleEndian {
        for i := 0 to |values|
          invariant EmitWords(values, w, old(State())) == EmitWords(values[i..], w, State())
        {
          assert values[i..][1..] == values[i + 1..];
          InjectInteger(values[i], w);
        }
      } else {
        WordsInOneGo(values, w, State());
        Write(StoredAll(values, w, false));
      }
    }

    method WriteAtoms(d: Atoms, flags: byte) returns (ok: bool)
      modifies `out
      ensures ok == EmitAtoms(d, flags, old(State())).Some?
      ensures ok ==> State() == EmitAtoms(d, flags, old(State())).value
    {
      InjectHeader(AtomCode(d), flags);
      ok := InjectLength(AtomCount(d));
      if ok { WriteWords(Words(d), WordWidth(AtomCode(d))); }
    }

    method WriteStringData(xs: seq<RString>, flags: byte) returns (ok: bool)
      modifies `out
      ensures ok == EmitStringData(xs, flags, old(State())).Some?
      ensures ok ==> State() == EmitStringData(xs, flags, old(State())).value
    {
      InjectHeader(STR, flags);
      ok := InjectLength(|xs|);
      if !ok { return; }
      ghost var s := State();
      for i := 0 to |xs|
        invariant log == s.log && EmitStrings(xs, s) == EmitStrings(xs[i..], State())
      {
        StringStep(xs, i, State());
        ok := WriteString(xs[i]);
        if !ok { return; }
      }
      return true;
    }

    method WriteBuiltIn(name: Text) returns (ok: bool)
      modifies `out
      ensures ok == EmitBuiltIn(name, old(State())).Some?
      ensures ok ==> State() == EmitBuiltIn(name, old(State())).value
    {
      InjectHeader(BUILTIN, 0);
      ok := InjectLength(|name|);
      if ok { Write(name); }
    }

    // References.

    /** The low three bytes of a number, last one first, and the type code. */
    method WriteReference(number: nat)
      modifies `out, `top
      ensures State() == PutReference(number, old(State()))
    {
      var details := new byte[4];
      var rest := number;
      for i := 0 to 3
        invariant out == old(out) && top == old(top)
        invariant i == 0 ==> rest == number
        invariant i == 1 ==> rest == number / 0x100
        invariant i == 2 ==> rest == number / 0x100 / 0x100
        invariant i > 0 ==> details[2] == number % 0x100
        invariant i > 1 ==> details[1] == number / 0x100 % 0x100
        invariant i > 2 ==> details[0] == number / 0x100 / 0x100 % 0x100
      {
        details[2 - i] := rest % 0x100;
        rest := rest / 0x100;
      }
      details[3] := REF;
      assert number / 0x100 / 0x100 == number / 0x1_0000;
      assert details[..] == ReferenceHeader(number);
      Write(details[..]);
      top := if number > top then number else top;
    }

    /** Gives the next number to an entity. */
    ghost method Give(k: Key)
      requires NoDuplicates(log) && k !in log
      modifies `log
      ensures State() == Register(file, old(State()), k) && NoDuplicates(log)
      ensures forall k' :: Number(log, k') == if k' == k then |old(log)| + 1 else Number(old(log), k')
    {
      forall k' ensures Number(log + [k], k') == if k' == k then |log| + 1 else Number(log, k') {
        NumberAppend(log, k, k');
      }
      ghost var s := Register(file, State(), k);
      log := log + [k];
    }

    method RegisterSymbol(symbol: Symbol) returns (number: nat)
      requires Valid() && Sym(symbol) !in log
      modifies `log, `symbolMappings, `referenceCount
      ensures Valid() && State() == Register(file, old(State()), Sym(symbol))
      ensures number == Number(log, Sym(symbol)) == referenceCount - 1
    {
      hide Enter, Position;
      number := referenceCount;
      EnterKeepsIndexed(symbolMappings, symbol, log);
      symbolMappings := Enter(symbolMappings, symbol, referenceCount);
      referenceCount := referenceCount + 1;
      Give(Sym(symbol));
    }

    /** A symbol by name and encoding: the dictionaries decide whether it is new. */
    method WriteSymbol(symbol: Symbol) returns (ok: bool, number: nat)
      requires Valid()
      modifies `out, `log, `top, `symbolMappings, `referenceCount
      ensures Wrote(ok, EmitSymbol(symbol, file, old(State())))
      ensures ok ==> number == Number(log, Sym(symbol)) && number > 0
    {
      hide Extends, NoDuplicates, Position, Register;
      var it := Find(symbolMappings, symbol);
      if it.Some? {
        WriteReference(it.value);
        return true, it.value;
      }
      InjectHeader(SYM, 0);
      ok := WriteText(symbol.name, symbol.encoding);
      if !ok { return false, 0; }
      number := RegisterSymbol(symbol);
    }

    /** A symbol by index: the cached number, or else the dictionaries. */
    method WriteSymbolIndex(index: nat) returns (ok: bool)
      requires Valid()
      modifies this
      ensures Wrote(ok, EmitSymbolIndex(index, file, old(State())))
    {
      hide Extends, NoDuplicates, Number, Indexed, EmitSymbol, PutReference;
      if index >= |knownSymbolMappings| { return false; }
      KnownSymbol(file.symbols[index], file, State());
      var candidate := knownSymbolMappings[index];
      if candidate != 0 {
        WriteReference(candidate);
        return true;
      }
      ok, candidate := WriteSymbol(file.symbols[index]);
      if ok { knownSymbolMappings := knownSymbolMappings[index := candidate]; }
    }

    method RegisterEnvironment(index: nat)
      requires Valid() && index < |file.environments| && Env(index) !in log
      modifies `log, `knownEnvironmentMappings, `referenceCount
      ensures Valid() && State() == Register(file, old(State()), Env(index))
    {
      hide Indexed, Position;
      KeepsIndexed(symbolMappings, Env(index), log);
      knownEnvironmentMappings := knownEnvironmentMappings[index := referenceCount];
      referenceCount := referenceCount + 1;
      Give(Env(index));
    }

    method RegisterPointer(index: nat)
      requires Valid() && index < |file.pointers| && Ptr(index) !in log
      modifies `log, `knownPointerMappings, `referenceCount
      ensures Valid() && State() == Register(file, old(State()), Ptr(index))
    {
      hide Indexed, Position;
      KeepsIndexed(symbolMappings, Ptr(index), log);
      knownPointerMappings := knownPointerMappings[index := referenceCount];
      referenceCount := referenceCount + 1;
      Give(Ptr(index));
    }

    // Objects.

    method WriteObject(o: RObject) returns (ok: bool)
      requires Valid()
      modifies this
      ensures Wrote(ok, EmitObject(o, file, old(State())))
      decreases Budget(file, log), Size(o), 0
    {
      hide Extends, Valid, EmitSymbolIndex, EmitEnvironment, EmitPointer, EmitVector, EmitNodes, EmitS4, EmitCall,
        EmitBuiltIn, EmitAtoms, EmitStringData, EmitAttributes, Unwritten;
      match o
      case Null => InjectHeader(NILVALUE, 0); ok := true;
      case SymbolIndex(i) => ok := WriteSymbolIndex(i);
      case EnvironmentIndex(e) => ok := WriteEnvironment(e);
      case ExternalPointerIndex(i) => ok := WritePointer(i);
      case AtomicVector(d, a) =>
        var bits := InjectAttributeHeader(a);
        ok := WriteAtoms(d, bits);
        if ok { ok := WriteAttributes(a); }
      case StringVector(xs, a) =>
        var bits := InjectAttributeHeader(a);
        ok := WriteStringData(xs, bits);
        if ok { ok := WriteAttributes(a); }
      case GenericVector(es, a) => ok := WriteList(VEC, es, a);
      case ExpressionVector(es, a) => ok := WriteList(EXPR, es, a);
      case PairList(ns, a) => ok := WritePairList(ns, a);
      case S4Object(c, p, a) => ok := WriteS4(c, p, a);
      case BuiltInFunction(name) => ok := WriteBuiltIn(name);
      case LanguageObject(i, ns, a) => ok := WriteLanguage(i, ns, a);
    }

    method WriteList(code: byte, es: seq<RObject>, a: seq<Named>) returns (ok: bool)
      requires Valid()
      modifies this
      ensures Wrote(ok, EmitVector(code, es, a, file, old(State())))
      decreases Budget(file, log), ObjectsSize(es) + NamedSize(a), 3
    {
      hide Valid, EmitObject, EmitObjects, EmitAttributes, EmitLength, Unwritten, NoDuplicates;
      var bits := InjectAttributeHeader(a);
      InjectHeader(code, bits);
      ok := InjectLength(|es|);
      if !ok { return; }
      ghost var s := State();
      for i := 0 to |es|
        invariant Valid() && Budget(file, log) <= Budget(file, s.log)
        invariant EmitObjects(es, file, s) == EmitObjects(es[i..], file, State())
      {
        ObjectStep(es, i, file, State());
        ok := WriteObject(es[i]);
        if !ok { return; }
      }
      assert es[|es|..] == [];
      NothingLeft([], file, State());
      ok := WriteAttributes(a);
    }

    /** The attributes of a pairlist go with its first node. */
    method WritePairList(ns: seq<Node>, a: seq<Named>) returns (ok: bool)
      requires Valid()
      modifies this
      ensures Wrote(ok, EmitNodes(a, ns, file, old(State())))
      decreases Budget(file, log), NodesSize(ns) + NamedSize(a), 1
    {
      hide Valid, EmitObject, EmitNodes, EmitAttributes, EmitSymbolIndex, Unwritten, NoDuplicates;
      ghost var s := State();
      var start := true;
      for i := 0 to |ns|
        invariant start == (i == 0) && Valid() && Budget(file, log) <= Budget(file, s.log)
        invariant EmitNodes(a, ns, file, s) == EmitNodes(if start then a else [], ns[i..], file, State())
      {
        NodeStep(if start then a else [], ns, i, file, State());
        var n := ns[i];
        InjectHeader(LIST, (if start && a != [] then 2 else 0) + if n.tag.Some? then 4 else 0);
        NothingLeft([], file, State());
        if start && a != [] {
          ok := WriteAttributes(a);
          if !ok { return; }
        }
        if n.tag.Some? {
          ok := WriteSymbolIndex(n.tag.value);
          if !ok { return; }
        }
        ok := WriteObject(n.value);
        if !ok { return; }
        start := false;
      }
      assert ns[|ns|..] == [];
      NothingLeft(if start then a else [], file, State());
      InjectHeader(NILVALUE, 0);
      return true;
    }

    /** The arguments of a call. */
    method WriteArguments(ns: seq<Node>) returns (ok: bool)
      requires Valid()
      modifies this
      ensures Wrote(ok, EmitNodes([], ns, file, old(State())))
      decreases Budget(file, log), NodesSize(ns), 1
    {
      hide Valid, EmitObject, EmitNodes, EmitSymbolIndex, Unwritten, NoDuplicates;
      ghost var s := State();
      for i := 0 to |ns|
        invariant Valid() && Budget(file, log) <= Budget(file, s.log)
        invariant EmitNodes([], ns, file, s) == EmitNodes([], ns[i..], file, State())
      {
        NodeStep([], ns, i, file, State());
        var n := ns[i];
        InjectHeader(LIST, if n.tag.Some? then 4 else 0);
        if n.tag.Some? {
          ok := WriteSymbolIndex(n.tag.value);
          if !ok { return; }
        }
        ok := WriteObject(n.value);
        if !ok { return; }
      }
      assert ns[|ns|..] == [];
      NothingLeft([], file, State());
      InjectHeader(NILVALUE, 0);
      return true;
    }

    /** Attributes, slots or variables up to and including the terminator. */
    method WriteAttributesBody(a: seq<Named>) returns (ok: bool)
      requires Valid()
      modifies this
      ensures Wrote(ok, EmitNodes([], AsNodes(a), file, old(State())))
      decreases Budget(file, log), NamedSize(a), 1
    {
      hide Valid, EmitObject, EmitNodes, EmitSymbolIndex, Unwritten, NoDuplicates;
      ghost var s := State();
      for i := 0 to |a|
        invariant Valid() && Budget(file, log) <= Budget(file, s.log)
        invariant EmitNodes([], AsNodes(a), file, s) == EmitNodes([], AsNodes(a[i..]), file, State())
      {
        NamedStep(a, i, file, State());
        InjectHeader(LIST, 4);
        ok := WriteSymbolIndex(a[i].name);
        if !ok { return; }
        ok := WriteObject(a[i].value);
        if !ok { return; }
      }
      NothingLeft([], file, State());
      InjectHeader(NILVALUE, 0);
      return true;
    }

    method WriteAttributes(a: seq<Named>) returns (ok: bool)
      requires Valid()
      modifies this
      ensures Wrote(ok, EmitAttributes(a, file, old(State())))
      decreases Budget(file, log), NamedSize(a), 2
    {
      hide Valid, EmitNodes;
      if a == [] { return true; }
      ok := WriteAttributesBody(a);
    }

    /** The class is written as if it were the first slot, under names that need not be in the table. */
    method WriteS4(c: Symbol, p: Symbol, slots: seq<Named>) returns (ok: bool)
      requires Valid()
      modifies this
      ensures Wrote(ok, EmitS4(c, p, slots, file, old(State())))
      decreases Budget(file, log), NamedSize(slots), 3
    {
      hide Valid, EmitNodes, EmitSymbol, EmitStringData, Unwritten, NoDuplicates, PutReference, Before, NotShorter;
      Write([0, 1, 3, S4]);
      InjectHeader(LIST, 4);
      var number;
      ok, number := WriteSymbol(CLASS_SYMBOL);
      if !ok { return; }
      ok := WriteStringData([Present(c)], 2);
      if !ok { return; }
      InjectHeader(LIST, 4);
      ok, number := WriteSymbol(PACKAGE_SYMBOL);
      if !ok { return; }
      ok := WriteStringData([Present(p)], 0);
      if !ok { return; }
      InjectHeader(NILVALUE, 0);
      assert EmitS4Head(c, p, file, old(State())) == Some(State());
      ok := WriteAttributesBody(slots);
    }

    method WriteLanguage(function_: nat, arguments: seq<Node>, a: seq<Named>) returns (ok: bool)
      requires Valid()
      modifies this
      ensures Wrote(ok, EmitCall(function_, arguments, a, file, old(State())))
      decreases Budget(file, log), NodesSize(arguments) + NamedSize(a), 3
    {
      hide Valid, EmitNodes, EmitAttributes, EmitSymbolIndex, Unwritten, NoDuplicates;
      var bits := InjectAttributeHeader(a);
      InjectHeader(LANG, bits);
      ok := WriteAttributes(a);
      if !ok { return; }
      ok := WriteSymbolIndex(function_);
      if !ok { return; }
      ok := WriteArguments(arguments);
    }

    /** The number is stored before the recursion, so that an environment that contains itself, or is
        its own ancestor, is met as a reference. */
    method WriteEnvironment(e: EnvRef) returns (ok: bool)
      requires Valid()
      modifies this
      ensures Wrote(ok, EmitEnvironment(e, file, old(State())))
      decreases Budget(file, log), 0, 1
    {
      hide Extends, NoDuplicates, Indexed, Position, Unwritten, EmitEnvironmentBody, AttributeFlags;
      match e
      case GlobalEnv => InjectHeader(GLOBALENV, 0); ok := true;
      case BaseEnv => InjectHeader(BASEENV, 0); ok := true;
      case EmptyEnv => InjectHeader(EMPTYENV, 0); ok := true;
      case Ordinary(index) =>
        if index >= |knownEnvironmentMappings| { return false; }
        var candidate := knownEnvironmentMappings[index];
        if candidate != 0 {
          WriteReference(candidate);
          return true;
        }
        RegisterEnvironment(index);
        var env := file.environments[index];
        var bits := InjectAttributeHeader(env.attributes);
        InjectHeader(ENV, bits);
        ok := WriteEnvironmentBody(env);
    }

    method WriteEnvironmentBody(env: Environment) returns (ok: bool)
      requires Valid()
      modifies this
      ensures Wrote(ok, EmitEnvironmentBody(env, file, old(State())))
      decreases Budget(file, log), NamedSize(env.variables) + NamedSize(env.attributes), 3
    {
      hide Valid, EmitEnvironment, EmitNodes, Unwritten, NoDuplicates;
      InjectInteger(if env.locked then 1 else 0, 4);
      ok := WriteEnvironment(env.parent);
      if !ok { return; }
      ok := WriteAttributesBody(env.variables);
      if !ok { return; }
      InjectHeader(NILVALUE, 0);
      ok := WriteAttributesBody(env.attributes);
    }

    method WritePointer(index: nat) returns (ok: bool)
      requires Valid()
      modifies this
      ensures Wrote(ok, EmitPointer(index, file, old(State())))
      decreases Budget(file, log), 0, 1
    {
      hide Extends, NoDuplicates, Indexed, Position, Unwritten, EmitPointerBody, AttributeFlags;
      if index >= |knownPointerMappings| { return false; }
      var candidate := knownPointerMappings[index];
      if candidate != 0 {
        WriteReference(candidate);
        return true;
      }
      RegisterPointer(index);
      var ext := file.pointers[index];
      if ext.protection.None? || ext.tag.None? { return false; }
      var bits := InjectAttributeHeader(ext.attributes);
      InjectHeader(EXTPTR, bits);
      ok := WritePointerBody(ext);
    }

    method WritePointerBody(ext: ExternalPointer) returns (ok: bool)
      requires Valid() && ext.protection.Some? && ext.tag.Some?
      modifies this
      ensures Wrote(ok, EmitPointerBody(ext, file, old(State())))
      decreases Budget(file, log), Size(ext.protection.value) + Size(ext.tag.value) + NamedSize(ext.attributes), 3
    {
      hide Valid, EmitObject, EmitAttributes, Unwritten, NoDuplicates;
      ok := WriteObject(ext.protection.value);
      if !ok { return; }
      ok := WriteObject(ext.tag.value);
      if !ok { return; }
      ok := WriteAttributes(ext.attributes);
    }
  }

  /** Writes a file from scratch, on either kind of host. */
  method WriteFile(f: File, littleEndian: bool) returns (bytes: Option<seq<byte>>)
    ensures bytes == match EmitFile(f) case None => None case Some(t) => Some(t.out)
  {
    var shared := new SharedWriteInfo(f, littleEndian);
    var ok := shared.WriteObject(f.object_);
    return if ok then Some(shared.out) else None;
  }
}
