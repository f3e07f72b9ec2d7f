/** The parser as a mutable object: a cursor over the input and the tables of everything met so far.
    Every method is proved against the function of `ParserSpec` that says what is read. */
module Parser {
  import opened Bytes
  import opened Objects
  import opened HostMemory
  import opened CompactSequences
  import opened ParserSpec
  import opened ParserSafety
  import opened ItemFormat
  import opened DeferredStrings
  import Spec = ParserSpec
  import Runs = ParserRuns

  // Payloads.

  lemma OneLess(n: nat, w: nat)
    ensures n * w >= 0
    ensures n > 0 ==> n * w == w + (n - 1) * w && (n - 1) * w >= 0
  {
  }

  lemma SliceParts(T: seq<byte>, pos: nat, w: nat, size: nat)
    requires w <= size && pos + size <= |T|
    ensures T[pos..pos + size][..w] == T[pos..pos + w] && T[pos..pos + size][w..] == T[pos + w..pos + size]
  {
  }

  /** Reading numbers one by one is the same as loading them all from file order. */
  lemma {:induction false} WordsLoaded(n: nat, w: nat, T: seq<byte>, pos: nat, size: nat)
    requires w > 0 && pos <= |T| && size == n * w
    ensures ReadWords(n, w, T, pos)
         == if |T| < pos + size then Bad else Good(LoadedAll(T[pos..pos + size], w, false), pos + size)
  {
    hide Pow256, FromBigEndian, BigEndian, Reversed;
    if n > 0 {
      OneLess(n, w);
      if pos + w <= |T| {
        WordsLoaded(n - 1, w, T, pos + w, size - w);
        if pos + size <= |T| { SliceParts(T, pos, w, size); }
      }
    }
  }

  lemma {:induction false} SingleBytes(s: seq<byte>, littleEndian: bool)
    ensures LoadedAll(s, 1, littleEndian) == LoadedAll(s, 1, false)
  {
    if s != [] {
      assert Reversed(s[..1]) == s[..1];
      SingleBytes(s[1..], littleEndian);
    }
  }

  lemma ThreeBytes(header: seq<byte>)
    requires |header| == 4
    ensures FromBigEndian(header[..3]) == ReferenceNumber(header[0], header[1], header[2])
  {
    assert header[..3][..2] == header[..2] && header[..2][..1] == header[..1] && header[..1][..0] == [];
    assert FromBigEndian(header[..1]) == header[0];
    assert FromBigEndian(header[..2]) == 256 * FromBigEndian(header[..1]) + header[1];
  }

  /** A list whose first part is known. */
  function After<X>(done: seq<X>, rest: Read<seq<X>>): Read<seq<X>>
  {
    if rest.Bad? then Bad else Good(done + rest.value, rest.pos)
  }

  lemma StringsStep(done: seq<RString>, n: nat, T: seq<byte>, pos: nat)
    requires n > 0 && pos <= |T|
    ensures After(done, ReadStrings(n, T, pos))
         == match ReadString(T, pos)
            case Bad => Bad
            case Good(x, p) => After(done + [x], ReadStrings(n - 1, T, p))
  {
    hide ReadString;
    assert forall x, xs: seq<RString> :: done + ([x] + xs) == done + [x] + xs;
  }

  lemma StringsEnds(done: seq<RString>, n: nat, T: seq<byte>, pos: nat)
    requires pos <= |T|
    ensures After([], ReadStrings(n, T, pos)) == ReadStrings(n, T, pos)
    ensures After(done, ReadStrings(0, T, pos)) == Good(done, pos)
  {
    assert done + [] == done && forall xs: seq<RString> :: [] + xs == xs;
  }

  function AfterObjects(done: seq<RObject>, rest: Parse<seq<RObject>>): Parse<seq<RObject>>
  {
    if rest.Fail? then Fail else Ok(done + rest.value, rest.pos, rest.st)
  }

  lemma ObjectsStep(done: seq<RObject>, n: nat, T: seq<byte>, pos: nat, st: Tables)
    requires n > 0 && pos <= |T|
    ensures AfterObjects(done, ParseObjects(n, T, pos, st))
         == match Spec.ParseObject(T, pos, st)
            case Fail => Fail
            case Ok(o, p, s) => AfterObjects(done + [o], ParseObjects(n - 1, T, p, s))
  {
    hide Spec.ParseObject;
    assert forall o, os: seq<RObject> :: done + ([o] + os) == done + [o] + os;
  }

  lemma ObjectsEnd(done: seq<RObject>, n: nat, T: seq<byte>, pos: nat, st: Tables)
    requires pos <= |T|
    ensures AfterObjects([], ParseObjects(n, T, pos, st)) == ParseObjects(n, T, pos, st)
    ensures AfterObjects(done, ParseObjects(0, T, pos, st)) == Ok(done, pos, st)
  {
    assert done + [] == done && forall os: seq<RObject> :: [] + os == os;
  }

  /** A pairlist whose first nodes are known. */
  function AfterPairs(data: seq<Node>, attributes: seq<Named>, rest: Parse<Pairs>): Parse<Pairs>
  {
    if rest.Fail? then Fail
    else Ok(Pairs(data + rest.value.nodes, attributes + rest.value.attributes), rest.pos, rest.st)
  }

  lemma PairsStep(data: seq<Node>, attributes: seq<Named>, flags: byte, T: seq<byte>, pos: nat, st: Tables)
    requires pos <= |T|
    ensures AfterPairs([], [], ParsePairs(flags, T, pos, st)) == ParsePairs(flags, T, pos, st)
    ensures AfterPairs(data, attributes, ParsePairs(flags, T, pos, st))
         == match Spec.ParseNode(flags, T, pos, st)
            case Fail => Fail
            case Ok(first, p, s) =>
              if |T| < p + 4 then Fail
              else if T[p + 3] == NILVALUE then Ok(Pairs(data + first.nodes, attributes + first.attributes), p + 4, s)
              else if T[p + 3] != LIST then Fail
              else AfterPairs(data + first.nodes, attributes + first.attributes, ParsePairs(T[p + 2], T, p + 4, s))
  {
    hide ParsePairs, ParseNode;
    PairsUnfold(flags, T, pos, st);
    assert forall a, b: seq<Node> :: data + (a + b) == data + a + b;
    assert forall a, b: seq<Named> :: attributes + (a + b) == attributes + a + b;
    assert (forall a: seq<Node> :: [] + a == a) && forall a: seq<Named> :: [] + a == a;
  }

  function Slot(e: Option<Environment>): Environment { if e.Some? then e.value else DEFAULT_ENVIRONMENT }

  class SharedParseInfo {
    const src: seq<byte>
    const littleEndian: bool
    var pos: nat
    var mappings: seq<Mapping>
    var symbols: seq<Symbol>
    var environments: seq<Environment>
    var pointers: seq<ExternalPointer>

    /** The tables as the specification has them: an environment without contents is `None`, a pointer
        that is being read is unset. */
    ghost var st: Tables
    /** The pointers that are being read. */
    ghost var open: set<nat>

    ghost predicate Valid()
      reads this
    {
      pos <= |src| && ValidTables()
    }

    ghost predicate ValidTables()
      reads `mappings, `symbols, `environments, `pointers, `st, `open
    {
      && Consistent(st) && mappings == st.mappings && symbols == st.symbols
      && |environments| == |st.environments| && |pointers| == |st.pointers|
      && (forall i :: 0 <= i < |environments| ==> environments[i] == Slot(st.environments[i]))
      && (forall i :: 0 <= i < |pointers| && i !in open ==> pointers[i] == st.pointers[i])
      && (forall i :: i in open ==> i < |pointers|)
    }

    /** The outcome of a step that may throw. */
    ghost predicate Returned<V>(r: Option<V>, spec: Parse<V>)
      reads this
    {
      r.Some? == spec.Ok? && (r.Some? ==> Valid() && r.value == spec.value && pos == spec.pos && st == spec.st)
    }

    /** The pointers that were being read still are, with what they had. */
    twostate predicate KeepsOpen()
      reads this
    {
      open == old(open) && |old(pointers)| <= |pointers|
      && forall i :: i in open && i < |old(pointers)| ==> pointers[i] == old(pointers)[i]
    }

    ghost predicate Got<V>(r: Option<V>, spec: Read<V>)
      reads `pos
    {
      r.Some? == spec.Good? && (r.Some? ==> r.value == spec.value && pos == spec.pos)
    }

    constructor (input: seq<byte>, little: bool)
      ensures Valid() && src == input && littleEndian == little && pos == 0 && st == NO_TABLES && open == {}
    {
      src := input;
      littleEndian := little;
      pos := 0;
      mappings, symbols, environments, pointers := [], [], [], [];
      st := NO_TABLES;
      open := {};
    }

    // Items without references.

    method QuickExtract(len: nat) returns (r: Option<seq<byte>>)
      requires pos <= |src|
      modifies `pos
      ensures r == if |src| < old(pos) + len then None else Some(src[old(pos)..old(pos) + len])
      ensures r.Some? ==> pos == old(pos) + len
    {
      if len == 0 {
        assert src[pos..pos] == [];
        return Some([]);
      }
      if |src| < pos + len { return None; }
      pos := pos + len;
      return Some(src[pos - len..pos]);
    }

    method ParseHeader() returns (r: Option<seq<byte>>)
      requires pos <= |src|
      modifies `pos
      ensures r == if |src| < old(pos) + 4 then None else Some(src[old(pos)..old(pos) + 4])
      ensures r.Some? ==> pos == old(pos) + 4
    {
      r := QuickExtract(4);
    }

    /** The bytes go into a number's own memory and are reversed there on a little-endian host. */
    method QuickInteger() returns (r: Option<u32>)
      requires pos <= |src|
      modifies `pos
      ensures Got(r, ReadU32(src, old(pos)))
    {
      hide Reversed, FromBigEndian, BigEndian, Pow256;
      var bytes := QuickExtract(4);
      if bytes.None? { return None; }
      var val := new byte[4](i requires 0 <= i < 4 => bytes.value[i]);
      assert val[..] == bytes.value == val[0..4];
      if littleEndian {
        ReverseRange(val, 0, 4);
        assert val[..] == val[0..4] == Reversed(bytes.value);
        ReversedTwice(bytes.value);
      }
      Widths();
      FromBigEndianInverts(bytes.value);
      return Some(Loaded(val[..], littleEndian));
    }

    method GetLength() returns (r: Option<u64>)
      requires pos <= |src|
      modifies `pos
      ensures Got(r, ReadLength(src, old(pos)))
    {
      var initial := QuickInteger();
      if initial.None? { return None; }
      if FromU32(initial.value) != -1 {
        if FromU32(initial.value) < 0 { return None; }
        return Some(FromU32(initial.value));
      }
      var upper := QuickInteger();
      if upper.None? { return None; }
      var lower := QuickInteger();
      if lower.None? { return None; }
      var high: nat, low: nat := upper.value, lower.value;
      return Some(high * 0x1_0000_0000 + low);
    }

    method ParseSingleString() returns (r: Option<RString>)
      requires pos <= |src|
      modifies `pos
      ensures Got(r, ReadString(src, old(pos)))
      ensures r.Some? <==> HasString(src, old(pos))
      ensures r.Some? ==> StringIs(src, old(pos), r.value, pos)
    {
      hide HasString, StringIs;
      StringMeans(src, pos);
      var bytes := ParseHeader();
      if bytes.None? { return None; }
      var header := new byte[4](i requires 0 <= i < 4 => bytes.value[3 - i]);
      if header[0] != CHAR { return None; }
      var strlen := QuickInteger();
      if strlen.None? { return None; }
      var n := FromU32(strlen.value);
      if n == -1 { return Some(RString(None, Utf8)); }
      if n < 0 { return None; }
      var text := QuickExtract(n);
      if text.None? { return None; }
      var enc := if header[1] / 0x20 % 2 == 1 then None_
                 else if header[1] / 0x40 % 2 == 1 then Latin1
                 else if header[1] / 0x80 % 2 == 1 then Utf8
                 else if header[2] / 4 % 2 == 1 then Ascii
                 else Utf8;
      return Some(RString(text, enc));
    }

    /** The whole payload is copied into memory and, if asked, changed to the host's byte order in place. */
    method ExtractNumbers(n: nat, w: nat, flip: bool) returns (r: Option<seq<byte>>)
      requires pos <= |src| && w > 0
      modifies `pos
      ensures n * w >= 0
      ensures r == if |src| < old(pos) + n * w then None else Some(Flipped(src[old(pos)..old(pos) + n * w], w, flip))
      ensures r.Some? ==> pos == old(pos) + n * w
    {
      var bytes := QuickExtract(n * w);
      if bytes.None? { return None; }
      var ptr := new byte[n * w](i requires 0 <= i < |bytes.value| => bytes.value[i]);
      assert ptr[..] == bytes.value;
      ChunksAre(n, w);
      if flip { FlipChunks(ptr, w, n); }
      return Some(ptr[..]);
    }

    method ParseAtoms(code: byte) returns (r: Option<Atoms>)
      requires IsAtomCode(code) && pos <= |src|
      modifies `pos
      ensures Got(r, ReadAtoms(code, src, old(pos)))
    {
      hide ReadLength, ReadWords, LoadedAll, FromWords, ChunksReversed, Pow256;
      var len := GetLength();
      if len.None? { return None; }
      var w, n := WordWidth(code), len.value * WordsPerAtom(code);
      OneLess(n, w);
      WordsLoaded(n, w, src, pos, n * w);
      ghost var start := pos;
      var flip := littleEndian && code != RAW;
      var memory := ExtractNumbers(n, w, flip);
      if memory.None? { return None; }
      ghost var payload := src[start..start + n * w];
      FlippedLoaded(payload, w, flip);
      if code == RAW { SingleBytes(payload, littleEndian); }
      assert LoadedAll(memory.value, w, littleEndian) == LoadedAll(payload, w, false);
      return Some(FromWords(code, len.value, LoadedAll(memory.value, w, littleEndian)));
    }

    method ParseStringBody() returns (r: Option<seq<RString>>)
      requires pos <= |src|
      modifies `pos
      ensures Got(r, ReadStringData(src, old(pos)))
    {
      hide ReadLength, ReadString, ReadStrings;
      var len := GetLength();
      if len.None? { return None; }
      ghost var start := pos;
      var data := [];
      StringsEnds(data, len.value, src, pos);
      for i := 0 to len.value
        invariant pos <= |src|
        invariant After([], ReadStrings(len.value, src, start)) == After(data, ReadStrings(len.value - i, src, pos))
      {
        StringsStep(data, len.value - i, src, pos);
        var x := ParseSingleString();
        if x.None? { return None; }
        data := data + [x.value];
      }
      StringsEnds(data, 0, src, pos);
      return Some(data);
    }

    method ParseBuiltInBody() returns (r: Option<Text>)
      requires pos <= |src|
      modifies `pos
      ensures Got(r, ReadBuiltIn(src, old(pos)))
    {
      var len := GetLength();
      if len.None? { return None; }
      r := QuickExtract(len.value);
    }

    // Compact sequences.

    /** Adds the step over and over and stores each value, rounded towards zero. */
    method Accumulate(len: nat, count: real, first: real, step: real) returns (ints: seq<int32>)
      requires len == Trunc(count) && (len > 0 ==> Checked(count, first, step))
      ensures Counts(ints, len, first, step) && (len > 0 ==> ints[0] == Trunc(first))
    {
      hide Checked, Trunc, Element, Stepped;
      var data := new int32[len];
      var start := first;
      StepZero(first, step);
      for i := 0 to len
        invariant start == Stepped(first, step, i)
        invariant i > 0 ==> data[0] == Trunc(first)
        invariant forall k :: 0 <= k < i ==> data[k] == Trunc(Stepped(first, step, k))
      {
        StoredElement(count, first, step, i);
        data[i] := Trunc(start);
        StepOnce(first, step, i);
        start := start + step;
      }
      SteppedCounts(data[..], first, step);
      return data[..];
    }

    method ParseNumericCompactSeq() returns (r: Option<seq<int32>>)
      requires pos <= |src|
      modifies `pos
      ensures Got(r, ReadCompact(src, old(pos)))
    {
      hide ReadAtoms, EndpointFits, Trunc, DoubleValue, Expand, Counts;
      var header := ParseHeader();
      if header.None? || header.value[3] != REAL { return None; }
      var info := ParseAtoms(REAL);
      if info.None? || |info.value.dbls| != 3 { return None; }
      var ranges := info.value.dbls;
      var count := DoubleValue(ranges[0]);
      if count.None? || Trunc(count.value) < 0 || Trunc(count.value) >= SIZE_LIMIT { return None; }
      var ints := [];
      if Trunc(count.value) > 0 {
        var start, step := DoubleValue(ranges[1]), DoubleValue(ranges[2]);
        if start.None? || step.None? { return None; }
        var endpoints := [start.value, start.value + (count.value - 1.0) * step.value];
        for i := 0 to 2
          invariant forall k :: 0 <= k < i ==> EndpointFits(endpoints[k])
        {
          if !EndpointFits(endpoints[i]) {
            assert i == 0 || i == 1;
            assert !Checked(count.value, start.value, step.value);
            return None;
          }
        }
        assert EndpointFits(endpoints[0]) && EndpointFits(endpoints[1]);
        ints := Accumulate(Trunc(count.value), count.value, start.value, step.value);
        CountsExpand(ints, count.value, start.value, step.value);
      }
      var terminator := ParseHeader();
      if terminator.None? || terminator.value[3] != NILVALUE { return None; }
      return Some(ints);
    }

    // References and symbols.

    method ExtractReferenceIndex(header: seq<byte>) returns (r: Option<nat>)
      requires |header| == 4
      ensures var number := ReferenceNumber(header[0], header[1], header[2]);
              r == if number == 0 then None else Some(number - 1)
    {
      var index: nat := 0;
      for i := 0 to 3
        invariant index == FromBigEndian(header[..i])
      {
        assert header[..i + 1][..i] == header[..i];
        index := index * 0x100;
        index := index + header[i];
      }
      ThreeBytes(header);
      return if index <= 0 then None else Some(index - 1);
    }

    /** The header at `p` as the specification sees it. */
    method LookUp(header: seq<byte>, ghost p: nat) returns (m: Option<Mapping>)
      requires Valid() && p + 4 <= |src| && header == src[p..p + 4]
      ensures m == Lookup(src, p, st)
    {
      assert header[0] == src[p] && header[1] == src[p + 1] && header[2] == src[p + 2];
      var i := ExtractReferenceIndex(header);
      return if i.None? || i.value >= |mappings| then None else Some(mappings[i.value]);
    }

    method CheckReferenceIndex(kind: Kind, header: seq<byte>, ghost p: nat) returns (index: Option<nat>)
      requires Valid() && p + 4 <= |src| && header == src[p..p + 4]
      ensures index == LookupKind(kind, src, p, st)
    {
      var chosen := LookUp(header, p);
      return if chosen.None? || chosen.value.kind != kind then None else Some(chosen.value.index);
    }

    method ResolveReference(header: seq<byte>, ghost p: nat) returns (o: Option<RObject>)
      requires Valid() && p + 4 <= |src| && header == src[p..p + 4]
      ensures o == match Lookup(src, p, st) case None => None case Some(m) => Some(Resolve(m))
    {
      var chosen := LookUp(header, p);
      if chosen.None? { return None; }
      if chosen.value.kind == EnvironmentKind { return Some(EnvironmentIndex(Ordinary(chosen.value.index))); }
      if chosen.value.kind == SymbolKind { return Some(SymbolIndex(chosen.value.index)); }
      return Some(ExternalPointerIndex(chosen.value.index));
    }

    /** The string has been read when the symbol gets its place. */
    method ParseSymbolBody() returns (r: Option<nat>)
      requires Valid()
      modifies this
      ensures Returned(r, Spec.ParseSymbolBody(src, old(pos), old(st))) && (r.Some? ==> KeepsOpen())
    {
      var str := ParseSingleString();
      if str.None? || str.value.value.None? { return None; }
      var symbol := Symbol(str.value.value.value, str.value.encoding);
      AddSymbolGrows(st, symbol, st);
      var sindex := |symbols|;
      mappings := mappings + [Mapping(SymbolKind, sindex)];
      symbols := symbols + [Symbol([], Utf8)];
      symbols := symbols[sindex := symbol];
      st := AddSymbol(st, symbol);
      return Some(sindex);
    }

    method ParseTag() returns (r: Option<nat>)
      requires Valid()
      modifies this
      ensures Returned(r, Spec.ParseTag(src, old(pos), old(st))) && (r.Some? ==> KeepsOpen())
    {
      var header := ParseHeader();
      if header.None? { return None; }
      if header.value[3] == SYM {
        r := ParseSymbolBody();
      } else if header.value[3] == REF {
        r := CheckReferenceIndex(SymbolKind, header.value, pos - 4);
      } else {
        return None;
      }
    }

    method RequestNewEnvironment() returns (index: nat)
      requires Valid()
      modifies `mappings, `environments, `st
      ensures Valid() && st == AddEnvironment(old(st)) && index == |old(st).environments|
    {
      AddEnvironmentConsistent(st);
      index := |environments|;
      mappings := mappings + [Mapping(EnvironmentKind, index)];
      environments := environments + [DEFAULT_ENVIRONMENT];
      st := AddEnvironment(st);
    }

    method RequestNewPointer() returns (index: nat)
      requires Valid()
      modifies `mappings, `pointers, `st, `open
      ensures Valid() && st == AddPointer(old(st)) && index == |old(st).pointers|
      ensures open == old(open) + {index} && pointers == old(pointers) + [UNSET]
    {
      AddPointerConsistent(st);
      index := |pointers|;
      mappings := mappings + [Mapping(PointerKind, index)];
      pointers := pointers + [UNSET];
      st := AddPointer(st);
      open := open + {index};
    }

    // Reinterpretation.

    /** Appends the nodes of a pairlist, which must all be tagged. */
    method AppendNamed(initial: seq<Named>, nodes: seq<Node>) returns (r: Option<seq<Named>>)
      ensures r == match AsNamed(nodes) case None => None case Some(names) => Some(initial + names)
    {
      var output := initial;
      for i := 0 to |nodes|
        invariant (match AsNamed(nodes) case None => None case Some(names) => Some(initial + names))
               == match AsNamed(nodes[i..]) case None => None case Some(names) => Some(output + names)
      {
        assert nodes[i..][1..] == nodes[i + 1..];
        if nodes[i].tag.None? { return None; }
        var entry := Named(nodes[i].tag.value, nodes[i].value);
        assert forall rest: seq<Named> :: output + ([entry] + rest) == output + [entry] + rest;
        output := output + [entry];
      }
      assert nodes[|nodes|..] == [] && output + [] == output;
      return Some(output);
    }

    /** All buckets of a hash table, skipping the empty ones. */
    method CollectVariables(buckets: seq<RObject>) returns (r: Option<seq<Named>>)
      ensures r == AsVariables(buckets)
    {
      var variables := [];
      assert forall names: seq<Named> :: [] + names == names;
      for i := 0 to |buckets|
        invariant AsVariables(buckets)
               == match AsVariables(buckets[i..]) case None => None case Some(rest) => Some(variables + rest)
      {
        assert buckets[i..][1..] == buckets[i + 1..];
        if buckets[i].Null? { continue; }
        if !buckets[i].PairList? { return None; }
        var longer := AppendNamed(variables, buckets[i].nodes);
        if longer.None? { return None; }
        assert forall a, b: seq<Named> :: variables + (a + b) == variables + a + b;
        variables := longer.value;
      }
      assert buckets[|buckets|..] == [] && variables + [] == variables;
      return Some(variables);
    }

    /** The elements after the first become the arguments. */
    method ShiftArguments(contents: Pairs) returns (r: Option<RObject>)
      ensures r == AsCall(contents)
    {
      if |contents.nodes| < 1 || !contents.nodes[0].value.SymbolIndex? { return None; }
      var arguments := [];
      for i := 1 to |contents.nodes|
        invariant arguments == contents.nodes[1..i]
      {
        arguments := arguments + [contents.nodes[i]];
      }
      assert arguments == contents.nodes[1..];
      return Some(LanguageObject(contents.nodes[0].value.symbol, arguments, contents.attributes));
    }

    /** Takes the class and its package out of the slots. Every name that is looked up is in the
        table, because the nodes have been read with it. */
    method ExtractSlots(nodes: seq<Node>) returns (r: Option<RObject>)
      requires Valid() && ClosedNodes(nodes, st)
      ensures r == AsS4(nodes, None, [], st)
    {
      var foundClass := false;
      var class_, package := Symbol([], Utf8), Symbol([], Utf8);
      var attributes := [];
      for i := 0 to |nodes|
        invariant AsS4(nodes, None, [], st)
               == AsS4(nodes[i..], if foundClass then Some((class_, package)) else None, attributes, st)
      {
        var entry := nodes[i];
        assert nodes[i..][0] == entry && nodes[i..][1..] == nodes[i + 1..] && ClosedNode(entry, st);
        if entry.tag.None? { return None; }
        if symbols[entry.tag.value].name != CLASS_NAME {
          attributes := attributes + [Named(entry.tag.value, entry.value)];
          continue;
        }
        if foundClass { return None; }
        foundClass := true;
        var cls := entry.value;
        if !cls.StringVector? || |cls.strings| != 1 || cls.strings[0].value.None? { return None; }
        class_ := Symbol(cls.strings[0].value.value, cls.strings[0].encoding);
        if |cls.attributes| != 1 { return None; }
        assert ClosedObject(cls, st) && ClosedNamed(cls.attributes, st);
        assert cls.attributes[0] in cls.attributes && ClosedName(cls.attributes[0], st);
        if symbols[cls.attributes[0].name].name != PACKAGE_NAME { return None; }
        var pkg := cls.attributes[0].value;
        if !pkg.StringVector? || |pkg.strings| != 1 || pkg.strings[0].value.None? { return None; }
        package := Symbol(pkg.strings[0].value.value, pkg.strings[0].encoding);
      }
      assert nodes[|nodes|..] == [];
      return if foundClass then Some(S4Object(class_, package, attributes)) else None;
    }

    /** Integers become decimal strings; the smallest one stands for a missing value. */
    method ConvertIntegers(ints: seq<int32>) returns (xs: seq<RString>)
      ensures xs == AsStrings(ints) && AllSpell(xs, ints)
    {
      hide AllSpell;
      StringsSpell(ints);
      xs := [];
      for i := 0 to |ints|
        invariant xs == AsStrings(ints)[..i]
      {
        var x := RString(None, Utf8);
        if ints[i] != -0x8000_0000 {
          x := RString(Some(if ints[i] < 0 then [0x2D] + Digits(-ints[i]) else Digits(ints[i])), Ascii);
        }
        xs := xs + [x];
      }
    }

    // Objects.

    method ParseObject() returns (r: Option<RObject>)
      requires Valid()
      modifies this
      ensures Returned(r, Spec.ParseObject(src, old(pos), old(st))) && (r.Some? ==> KeepsOpen())
      decreases |src| - pos, 0
    {
      hide Spec.ParsePairs, Spec.ParseSymbolBody, Spec.ParseS4, Spec.ParseAltrep, Spec.ParseEnvironment,
        Spec.ParsePointer, Spec.ParseCall, Spec.ParseList, Spec.ParseOptionalAttributes, ReadAtoms, ReadStringData,
        ReadBuiltIn, Lookup, ValidTables;
      if pos + 4 <= |src| { Dispatch(src, pos, st); }
      var details := ParseHeader();
      if details.None? { return None; }
      var flags, code := details.value[2], details.value[3];
      if code == LIST {
        var l := ParsePairlistBody(flags);
        return if l.None? then None else Some(PairList(l.value.nodes, l.value.attributes));
      } else if code == SYM {
        var i := ParseSymbolBody();
        return if i.None? then None else Some(SymbolIndex(i.value));
      } else if code == S4 {
        r := ParseS4Body(details.value[1], flags);
      } else if code == ALTREP {
        r := ParseAltrepBody();
      } else if code == NIL || code == NILVALUE {
        return Some(Null);
      } else if code == ENV {
        var i := ParseNewEnvironmentBody();
        return if i.None? then None else Some(EnvironmentIndex(Ordinary(i.value)));
      } else if code == EXTPTR {
        r := ParseExternalPointerBody(flags);
      } else if code == GLOBALENV {
        return Some(EnvironmentIndex(GlobalEnv));
      } else if code == BASEENV {
        return Some(EnvironmentIndex(BaseEnv));
      } else if code == EMPTYENV {
        return Some(EnvironmentIndex(EmptyEnv));
      } else if code == REF {
        r := ResolveReference(details.value, pos - 4);
      } else if code == BUILTIN {
        var name := ParseBuiltInBody();
        return if name.None? then None else Some(BuiltInFunction(name.value));
      } else if code == LANG {
        r := ParseLanguageBody(flags);
      } else if IsAtomCode(code) {
        var d := ParseAtoms(code);
        if d.None? { return None; }
        var a := ParseOptionalAttributes(flags);
        return if a.None? then None else Some(AtomicVector(d.value, a.value));
      } else if code == STR {
        var xs := ParseStringBody();
        if xs.None? { return None; }
        var a := ParseOptionalAttributes(flags);
        return if a.None? then None else Some(StringVector(xs.value, a.value));
      } else if code == VEC || code == EXPR {
        var es := ParseListBody();
        if es.None? { return None; }
        var a := ParseOptionalAttributes(flags);
        return if a.None? then None
               else Some(if code == VEC then GenericVector(es.value, a.value) else ExpressionVector(es.value, a.value));
      } else {
        return None;
      }
    }

    method ParseListBody() returns (r: Option<seq<RObject>>)
      requires Valid()
      modifies this
      ensures Returned(r, Spec.ParseList(src, old(pos), old(st))) && (r.Some? ==> KeepsOpen())
      decreases |src| - pos, 0
    {
      hide ReadLength, Spec.ParseObject, ParseObjects, ValidTables;
      var len := GetLength();
      if len.None? { return None; }
      ghost var start := pos;
      var data := [];
      ObjectsEnd(data, len.value, src, pos, st);
      for i := 0 to len.value
        invariant Valid() && start <= pos && KeepsOpen()
        invariant AfterObjects([], ParseObjects(len.value, src, start, old(st)))
               == AfterObjects(data, ParseObjects(len.value - i, src, pos, st))
      {
        ObjectsStep(data, len.value - i, src, pos, st);
        var o := ParseObject();
        if o.None? { return None; }
        data := data + [o.value];
      }
      ObjectsEnd(data, 0, src, pos, st);
      return Some(data);
    }

    method ParsePairlistBody(flags: byte) returns (r: Option<Pairs>)
      requires Valid()
      modifies this
      ensures Returned(r, Spec.ParsePairs(flags, src, old(pos), old(st))) && (r.Some? ==> KeepsOpen())
      decreases |src| - pos, 4
    {
      hide Spec.ParsePairs, ValidTables;
      PairsStep([], [], flags, src, pos, st);
      r := RecursiveParse([], [], flags);
    }

    /** Pushes one node after the other, as long as headers announce more. */
    method RecursiveParse(data: seq<Node>, attributes: seq<Named>, flags: byte) returns (r: Option<Pairs>)
      requires Valid()
      modifies this
      ensures Returned(r, AfterPairs(data, attributes, Spec.ParsePairs(flags, src, old(pos), old(st))))
      ensures r.Some? ==> KeepsOpen()
      decreases |src| - pos, 3
    {
      hide Spec.ParsePairs, Spec.ParseNode, ValidTables;
      PairsStep(data, attributes, flags, src, pos, st);
      var first := ParseNode(flags);
      if first.None? { return None; }
      var data', attributes' := data + first.value.nodes, attributes + first.value.attributes;
      var nextHeader := ParseHeader();
      if nextHeader.None? { return None; }
      if nextHeader.value[3] == NILVALUE { return Some(Pairs(data', attributes')); }
      if nextHeader.value[3] != LIST { return None; }
      r := RecursiveParse(data', attributes', nextHeader.value[2]);
    }

    method ParseNode(flags: byte) returns (r: Option<Pairs>)
      requires Valid()
      modifies this
      ensures Returned(r, Spec.ParseNode(flags, src, old(pos), old(st))) && (r.Some? ==> KeepsOpen())
      decreases |src| - pos, 2
    {
      hide Spec.ParseObject, Spec.ParseTag, Spec.ParseOptionalAttributes, ValidTables;
      var a := ParseOptionalAttributes(flags);
      if a.None? { return None; }
      var tag: Option<nat> := None;
      if HasTag(flags) {
        tag := ParseTag();
        if tag.None? { return None; }
      }
      var o := ParseObject();
      if o.None? { return None; }
      return Some(Pairs([Node(tag, o.value)], a.value));
    }

    method ParseOptionalAttributes(flags: byte) returns (r: Option<seq<Named>>)
      requires Valid()
      modifies this
      ensures Returned(r, Spec.ParseOptionalAttributes(flags, src, old(pos), old(st))) && (r.Some? ==> KeepsOpen())
      decreases |src| - pos, 1
    {
      hide Spec.ParseAttributes, ValidTables;
      if !HasAttributes(flags) { return Some([]); }
      var header := ParseHeader();
      if header.None? || header.value[3] != LIST { return None; }
      r := ParseAttributesBody(header.value[2]);
    }

    method ParseAttributesBody(flags: byte) returns (r: Option<seq<Named>>)
      requires Valid()
      modifies this
      ensures Returned(r, Spec.ParseAttributes(flags, src, old(pos), old(st))) && (r.Some? ==> KeepsOpen())
      decreases |src| - pos, 5
    {
      hide Spec.ParsePairs, ValidTables;
      var plist := ParsePairlistBody(flags);
      if plist.None? { return None; }
      r := AppendNamed([], plist.value.nodes);
      assert forall names: seq<Named> :: [] + names == names;
    }

    /** Attributes or a null. */
    method ParseFinalAttributes() returns (r: Option<seq<Named>>)
      requires Valid()
      modifies this
      ensures Returned(r, Spec.ParseFinalAttributes(src, old(pos), old(st))) && (r.Some? ==> KeepsOpen())
      decreases |src| - pos, 0
    {
      hide Spec.ParseAttributes, ValidTables;
      var header := ParseHeader();
      if header.None? { return None; }
      if header.value[3] == NILVALUE { return Some([]); }
      if header.value[3] != LIST { return None; }
      r := ParseAttributesBody(header.value[2]);
    }

    method ParseLanguageBody(flags: byte) returns (r: Option<RObject>)
      requires Valid()
      modifies this
      ensures Returned(r, Spec.ParseCall(flags, src, old(pos), old(st))) && (r.Some? ==> KeepsOpen())
      decreases |src| - pos, 5
    {
      hide Spec.ParsePairs, ValidTables, AsCall;
      var contents := ParsePairlistBody(flags);
      if contents.None? { return None; }
      r := ShiftArguments(contents.value);
    }

    method ParseS4Body(gp: byte, flags: byte) returns (r: Option<RObject>)
      requires Valid()
      modifies this
      ensures Returned(r, Spec.ParseS4(gp, flags, src, old(pos), old(st))) && (r.Some? ==> KeepsOpen())
      decreases |src| - pos, 0
    {
      hide Spec.ParsePairs, Consistent, AsS4, ClosedNodes, Grows;
      if !HasAttributes(flags) || !HasObject(flags) || gp % 2 == 0 { return None; }
      var slotHeader := ParseHeader();
      if slotHeader.None? || slotHeader.value[3] != LIST { return None; }
      ghost var start := pos;
      var slots := ParsePairlistBody(slotHeader.value[2]);
      if slots.None? { return None; }
      Runs.PairsRun(slotHeader.value[2], start, old(st), Runs.Reading(src, src, 0, pos, 0, st));
      r := ExtractSlots(slots.value.nodes);
    }

    /** The slot is there before the contents are read. */
    method ParseExternalPointerBody(flags: byte) returns (r: Option<RObject>)
      requires Valid()
      modifies this
      ensures Returned(r, Spec.ParsePointer(flags, src, old(pos), old(st))) && (r.Some? ==> KeepsOpen())
      decreases |src| - pos, 2
    {
      hide Spec.ParsePointerBody, Numbered;
      var idx := RequestNewPointer();
      var pointer := FillSlot(idx, flags);
      if pointer.None? { return None; }
      st := st.(pointers := st.pointers[idx := pointers[idx]]);
      open := open - {idx};
      return Some(ExternalPointerIndex(idx));
    }

    /** The slot is filled in three stages, and only this one is touched. */
    method FillSlot(idx: nat, flags: byte) returns (r: Option<ExternalPointer>)
      requires Valid() && idx in open && pointers[idx] == UNSET
      modifies this
      ensures Returned(r, Spec.ParsePointerBody(flags, src, old(pos), old(st)))
      ensures r.Some? ==> open == old(open) && idx < |old(pointers)| <= |pointers| && pointers[idx] == r.value
      ensures r.Some? ==>
                forall i :: i in open && i != idx && i < |old(pointers)| ==> pointers[i] == old(pointers)[i]
      decreases |src| - pos, 1
    {
      hide Spec.ParseObject, Spec.ParseOptionalAttributes, Consistent;
      var protection := ParseObject();
      if protection.None? { return None; }
      pointers := pointers[idx := pointers[idx].(protection := protection)];
      var tag := ParseObject();
      if tag.None? { return None; }
      pointers := pointers[idx := pointers[idx].(tag := tag)];
      var a := ParseOptionalAttributes(flags);
      if a.None? { return None; }
      pointers := pointers[idx := pointers[idx].(attributes := a.value)];
      return Some(pointers[idx]);
    }

    /** The place is there before the contents are read; it is filled at the end. */
    method ParseNewEnvironmentBody() returns (r: Option<nat>)
      requires Valid()
      modifies this
      ensures Returned(r, Spec.ParseEnvironment(src, old(pos), old(st))) && (r.Some? ==> KeepsOpen())
      decreases |src| - pos, 1
    {
      hide ParseEnvironmentBody, Numbered;
      var eindex := RequestNewEnvironment();
      var newEnv := ParseEnvironmentContents();
      if newEnv.None? { return None; }
      environments := environments[eindex := newEnv.value];
      st := st.(environments := st.environments[eindex := newEnv]);
      return Some(eindex);
    }

    method ParseEnvironmentContents() returns (r: Option<Environment>)
      requires Valid()
      modifies this
      ensures Returned(r, ParseEnvironmentBody(src, old(pos), old(st))) && (r.Some? ==> KeepsOpen())
      decreases |src| - pos, 0
    {
      hide Spec.ParseParent, Spec.ParseVariables, Spec.ParseFinalAttributes, ReadU32, ValidTables;
      var locked := QuickInteger();
      if locked.None? { return None; }
      var parent := ParseParent();
      if parent.None? { return None; }
      var body := ParseVariables();
      if body.None? { return None; }
      var a := ParseFinalAttributes();
      if a.None? { return None; }
      return Some(Environment(FromU32(locked.value) > 0, body.value.0, parent.value, body.value.1, a.value));
    }

    method ParseParent() returns (r: Option<EnvRef>)
      requires Valid()
      modifies this
      ensures Returned(r, Spec.ParseParent(src, old(pos), old(st))) && (r.Some? ==> KeepsOpen())
      decreases |src| - pos, 0
    {
      hide Spec.ParseEnvironment, Lookup, ValidTables;
      var parent := ParseHeader();
      if parent.None? { return None; }
      var code := parent.value[3];
      if code == REF {
        var index := CheckReferenceIndex(EnvironmentKind, parent.value, pos - 4);
        return if index.None? then None else Some(Ordinary(index.value));
      } else if code == ENV {
        var i := ParseNewEnvironmentBody();
        return if i.None? then None else Some(Ordinary(i.value));
      } else if code == GLOBALENV {
        return Some(GlobalEnv);
      } else if code == BASEENV || code == NILVALUE {
        return Some(BaseEnv);
      } else if code == EMPTYENV {
        return Some(EmptyEnv);
      } else {
        return None;
      }
    }

    /** A pairlist of all the variables and no hash table, or no pairlist and a hash table. */
    method ParseVariables() returns (r: Option<(bool, seq<Named>)>)
      requires Valid()
      modifies this
      ensures Returned(r, Spec.ParseVariables(src, old(pos), old(st))) && (r.Some? ==> KeepsOpen())
      decreases |src| - pos, 0
    {
      hide Spec.ParsePairs, Spec.ParseList, ValidTables;
      var unhashed := ParseHeader();
      if unhashed.None? { return None; }
      if unhashed.value[3] == LIST {
        var plist := ParsePairlistBody(unhashed.value[2]);
        if plist.None? { return None; }
        var variables := AppendNamed([], plist.value.nodes);
        assert forall names: seq<Named> :: [] + names == names;
        if variables.None? { return None; }
        var hashed := ParseHeader();
        if hashed.None? || hashed.value[3] != NILVALUE { return None; }
        return Some((false, variables.value));
      } else if unhashed.value[3] == NILVALUE {
        var hashHeader := ParseHeader();
        if hashHeader.None? || hashHeader.value[3] != VEC { return None; }
        var buckets := ParseListBody();
        if buckets.None? { return None; }
        var variables := CollectVariables(buckets.value);
        return if variables.None? then None else Some((true, variables.value));
      } else {
        return None;
      }
    }

    method ParseAltrepBody() returns (r: Option<RObject>)
      requires Valid()
      modifies this
      ensures Returned(r, Spec.ParseAltrep(src, old(pos), old(st))) && (r.Some? ==> KeepsOpen())
      decreases |src| - pos, 0
    {
      hide Spec.ParsePairs, Spec.ParseWrapper, Spec.ParseDeferred, ReadCompact, Consistent, Grows;
      var header := ParseHeader();
      if header.None? || header.value[3] != LIST { return None; }
      ghost var start := pos;
      var plist := ParsePairlistBody(header.value[2]);
      if plist.None? || !plist.value.nodes[0].value.SymbolIndex? { return None; }
      Runs.PairsRun(header.value[2], start, old(st), Runs.Reading(src, src, 0, pos, 0, st));
      assert plist.value.nodes[0] in plist.value.nodes && ClosedNode(plist.value.nodes[0], st);
      assert ClosedObject(plist.value.nodes[0].value, st);
      var name := symbols[plist.value.nodes[0].value.symbol].name;
      if name == WRAP_INTEGER {
        r := ParseAttributeWrapper();
      } else if name == COMPACT_INTSEQ {
        var ints := ParseNumericCompactSeq();
        return if ints.None? then None else Some(AtomicVector(Integers(ints.value), []));
      } else if name == DEFERRED_STRING {
        r := ParseDeferredString();
      } else {
        return None;
      }
    }

    /** What a wrapper wraps, and the integers after it, which are ignored. */
    method ParseState(ignored: nat) returns (r: Option<RObject>)
      requires Valid()
      modifies this
      ensures Returned(r, Spec.ParseState(ignored, src, old(pos), old(st))) && (r.Some? ==> KeepsOpen())
      decreases |src| - pos, 0
    {
      hide Spec.ParseObject, ReadAtoms, ValidTables;
      var plistHeader := ParseHeader();
      if plistHeader.None? || plistHeader.value[3] != LIST { return None; }
      var contents := ParseObject();
      if contents.None? { return None; }
      var metaheader := ParseHeader();
      if metaheader.None? || metaheader.value[3] != INT { return None; }
      var metadata := ParseAtoms(INT);
      if metadata.None? || |metadata.value.ints| != ignored { return None; }
      return contents;
    }

    method ParseAttributeWrapper() returns (r: Option<RObject>)
      requires Valid()
      modifies this
      ensures Returned(r, Spec.ParseWrapper(src, old(pos), old(st))) && (r.Some? ==> KeepsOpen())
      decreases |src| - pos, 1
    {
      hide Spec.ParseState, Spec.ParseFinalAttributes, ValidTables;
      var o := ParseState(2);
      if o.None? || !o.value.AtomicVector? || !o.value.atoms.Integers? { return None; }
      var a := ParseFinalAttributes();
      if a.None? { return None; }
      return Some(AtomicVector(o.value.atoms, o.value.attributes + a.value));
    }

    method ParseDeferredString() returns (r: Option<RObject>)
      requires Valid()
      modifies this
      ensures Returned(r, Spec.ParseDeferred(src, old(pos), old(st))) && (r.Some? ==> KeepsOpen())
      decreases |src| - pos, 1
    {
      hide Spec.ParseState, AsStrings, ValidTables;
      var o := ParseState(1);
      if o.None? || !o.value.AtomicVector? || !o.value.atoms.Integers? { return None; }
      var terminator := ParseHeader();
      if terminator.None? || terminator.value[3] != NILVALUE { return None; }
      var xs := ConvertIntegers(o.value.atoms.ints);
      return Some(StringVector(xs, []));
    }
  }

  /** Reads a file from the start of some input, on either kind of host. No pointer is left open and no
      environment is left without contents. */
  method ReadFile(input: seq<byte>, littleEndian: bool) returns (f: Option<File>)
    ensures f == match ParseFile(input) case Fail => None case Ok(o, _, st) => Some(ToFile(o, st))
  {
    hide Spec.ParseObject;
    var shared := new SharedParseInfo(input, littleEndian);
    var o := shared.ParseObject();
    if o.None? { return None; }
    assert ToFile(o.value, shared.st).environments == shared.environments;
    assert shared.st.pointers == shared.pointers;
    return Some(File(o.value, shared.symbols, shared.environments, shared.pointers));
  }
}
