/** What bytes are read as, in plain numbers and whoever wrote them: type codes, flags, the order of the parts and
    the nulls that end them (section 1.8 of R Internals). */
module ReadFormat {
  import opened Bytes
  import opened Objects
  import opened CompactSequences
  import opened ParserSpec
  import opened ParserSafety
  import opened ParserRuns
  import opened ItemFormat
  import opened DeferredStrings

  // Type codes.

  /** The kind of object that each code announces. An environment or a pointer gets the next place in its table. */
  predicate Announces(code: byte, o: RObject, st: Tables)
  {
    match code
    case 0 => o.Null?
    case 1 => o == SymbolIndex(|st.symbols|)
    case 2 => o.PairList? && o.nodes != []
    case 4 => o == EnvironmentIndex(Ordinary(|st.environments|))
    case 6 => o.LanguageObject?
    case 8 => o.BuiltInFunction?
    case 10 => o.AtomicVector? && o.atoms.Logicals?
    case 13 => o.AtomicVector? && o.atoms.Integers?
    case 14 => o.AtomicVector? && o.atoms.Doubles?
    case 15 => o.AtomicVector? && o.atoms.Complexes?
    case 16 => o.StringVector?
    case 19 => o.GenericVector?
    case 20 => o.ExpressionVector?
    case 22 => o == ExternalPointerIndex(|st.pointers|)
    case 24 => o.AtomicVector? && o.atoms.Raws?
    case 25 => o.S4Object?
    case 238 => o.StringVector? || (o.AtomicVector? && o.atoms.Integers?)
    case 241 => o == EnvironmentIndex(BaseEnv)
    case 242 => o == EnvironmentIndex(EmptyEnv)
    case 253 => o == EnvironmentIndex(GlobalEnv)
    case 254 => o.Null?
    case 255 => o.SymbolIndex? || o.ExternalPointerIndex? || (o.EnvironmentIndex? && o.env.Ordinary?)
    case _ => false
  }

  // Slots and class of an S4 object.

  /** The values of the nodes called "class". */
  function ClassValues(nodes: seq<Node>, st: Tables): seq<RObject>
    requires AsNamed(nodes).Some?
  {
    if nodes == [] then []
    else if NameOf(nodes[0].tag.value, st) == [0x63, 0x6C, 0x61, 0x73, 0x73] then
      [nodes[0].value] + ClassValues(nodes[1..], st)
    else ClassValues(nodes[1..], st)
  }

  /** All other nodes, in their order. */
  function OtherSlots(nodes: seq<Node>, st: Tables): seq<Named>
    requires AsNamed(nodes).Some?
  {
    if nodes == [] then []
    else if NameOf(nodes[0].tag.value, st) == [0x63, 0x6C, 0x61, 0x73, 0x73] then OtherSlots(nodes[1..], st)
    else [Named(nodes[0].tag.value, nodes[0].value)] + OtherSlots(nodes[1..], st)
  }

  /** One string that is not missing. */
  predicate IsName(o: RObject, x: Symbol) { o.StringVector? && o.strings == [RString(Some(x.name), x.encoding)] }

  /** A class is a string with the string for the package as its only attribute. */
  predicate SaysClass(o: RObject, c: Symbol, p: Symbol, st: Tables)
  {
    && IsName(o, c) && |o.attributes| == 1
    && NameOf(o.attributes[0].name, st) == [0x70, 0x61, 0x63, 0x6B, 0x61, 0x67, 0x65]
    && IsName(o.attributes[0].value, p)
  }

  lemma ClassMeans(o: RObject, c: Symbol, p: Symbol, st: Tables)
    ensures ClassOf(o, st) == Some((c, p)) <==> SaysClass(o, c, p, st)
  {
    if o.StringVector? && |o.strings| == 1 {
      assert o.strings == [o.strings[0]];
      if |o.attributes| == 1 && o.attributes[0].value.StringVector? && |o.attributes[0].value.strings| == 1 {
        assert o.attributes[0].value.strings == [o.attributes[0].value.strings[0]];
      }
    }
  }

  lemma {:induction false} SlotsMean(
    nodes: seq<Node>, found: Option<(Symbol, Symbol)>, slots: seq<Named>, st: Tables, o: RObject)
    ensures AsS4(nodes, found, slots, st) == Some(o)
       <==> && o.S4Object? && AsNamed(nodes).Some? && o.attributes == slots + OtherSlots(nodes, st)
            && if found.Some? then ClassValues(nodes, st) == [] && found == Some((o.className, o.packageName))
               else |ClassValues(nodes, st)| == 1
                    && SaysClass(ClassValues(nodes, st)[0], o.className, o.packageName, st)
    decreases |nodes|
  {
    hide ClassOf, SaysClass, NameOf;
    if nodes == [] {
      assert slots + [] == slots;
    } else if nodes[0].tag.Some? {
      var entry := [Named(nodes[0].tag.value, nodes[0].value)];
      if NameOf(nodes[0].tag.value, st) != [0x63, 0x6C, 0x61, 0x73, 0x73] {
        SlotsMean(nodes[1..], found, slots + entry, st, o);
        if AsNamed(nodes).Some? {
          assert slots + entry + OtherSlots(nodes[1..], st) == slots + (entry + OtherSlots(nodes[1..], st));
        }
      } else {
        SlotsMean(nodes[1..], ClassOf(nodes[0].value, st), slots, st, o);
        if o.S4Object? { ClassMeans(nodes[0].value, o.className, o.packageName, st); }
      }
    }
  }

  /** A tagged pairlist with exactly one entry called "class", which says class and package of `o`; the other entries
      are its slots, in their order. */
  predicate HasSlots(o: RObject, nodes: seq<Node>, st: Tables)
  {
    && o.S4Object? && AsNamed(nodes).Some? && o.attributes == OtherSlots(nodes, st)
    && |ClassValues(nodes, st)| == 1
    && SaysClass(ClassValues(nodes, st)[0], o.className, o.packageName, st)
  }

  lemma S4Means(nodes: seq<Node>, st: Tables, o: RObject)
    ensures AsS4(nodes, None, [], st) == Some(o) <==> HasSlots(o, nodes, st)
  {
    hide SaysClass;
    SlotsMean(nodes, None, [], st, o);
    if AsNamed(nodes).Some? { assert [] + OtherSlots(nodes, st) == OtherSlots(nodes, st); }
  }

  /** An S4 object: a header with the bits for an object with attributes and for S4, and such a pairlist. */
  lemma S4Read(T: seq<byte>, pos: nat, st: Tables, o: RObject)
    requires pos + 4 <= |T| && T[pos + 3] == 25
    ensures var r := ParseObject(T, pos, st);
            r.Ok? && r.value == o
            <==> && T[pos + 1] % 2 == 1 && T[pos + 2] % 4 == 3 && pos + 8 <= |T| && T[pos + 7] == 2
                 && ParsePairs(T[pos + 6], T, pos + 8, st).Ok?
                 && var (l, p, s) := ParsePairs(T[pos + 6], T, pos + 8, st).Extract();
                    HasSlots(o, l.nodes, s) && r == Ok(o, p, s)
  {
    hide ParsePairs, AsS4, HasSlots, ParseObject;
    Dispatch(T, pos, st);
    if pos + 8 <= |T| {
      var l := ParsePairs(T[pos + 6], T, pos + 8, st);
      if l.Ok? { S4Means(l.value.nodes, l.st, o); }
    }
  }

  /** The codes that stand for themselves. */
  lemma LeafRead(T: seq<byte>, pos: nat, st: Tables)
    requires pos + 4 <= |T|
    ensures T[pos + 3] in {0, 254} ==> ParseObject(T, pos, st) == Ok(Null, pos + 4, st)
    ensures T[pos + 3] == 241 ==> ParseObject(T, pos, st) == Ok(EnvironmentIndex(BaseEnv), pos + 4, st)
    ensures T[pos + 3] == 242 ==> ParseObject(T, pos, st) == Ok(EnvironmentIndex(EmptyEnv), pos + 4, st)
    ensures T[pos + 3] == 253 ==> ParseObject(T, pos, st) == Ok(EnvironmentIndex(GlobalEnv), pos + 4, st)
  {
  }

  /** A back reference has a number that has been given, and stands for what got it. */
  lemma ReferenceRead(T: seq<byte>, pos: nat, st: Tables)
    requires pos + 4 <= |T| && T[pos + 3] == 255
    ensures var b0: nat, b1: nat, b2: nat := T[pos], T[pos + 1], T[pos + 2];
            var n := b0 * 0x1_0000 + b1 * 0x100 + b2;
            ParseObject(T, pos, st)
            == if n == 0 || n > |st.mappings| then Fail
               else match st.mappings[n - 1]
                    case Mapping(SymbolKind, i) => Ok(SymbolIndex(i), pos + 4, st)
                    case Mapping(EnvironmentKind, i) => Ok(EnvironmentIndex(Ordinary(i)), pos + 4, st)
                    case Mapping(PointerKind, i) => Ok(ExternalPointerIndex(i), pos + 4, st)
  {
    hide ParseObject;
    ReferenceIsObject(T, pos, st);
  }

  /** A symbol: a string that is not missing, which becomes the next one of its table and gets the next number. */
  lemma SymbolRead(T: seq<byte>, pos: nat, st: Tables)
    requires pos + 4 <= |T| && T[pos + 3] == 1
    ensures ParseObject(T, pos, st).Ok? <==> HasString(T, pos + 4) && T[pos + 8] < 0x80
    ensures ParseObject(T, pos, st).Ok? ==>
            var r := ParseObject(T, pos, st); var n := |st.symbols|;
            && r.value == SymbolIndex(n)
            && |r.st.symbols| == n + 1 && StringIs(T, pos + 4, Present(r.st.symbols[n]), r.pos)
            && r.st == st.(mappings := st.mappings + [Mapping(SymbolKind, n)],
                           symbols := st.symbols + [r.st.symbols[n]])
  {
    hide ReadString, Num32, MarkedAs;
    StringMeans(T, pos + 4);
  }

  /** A built-in function: its name, with a length in front. */
  lemma BuiltInRead(T: seq<byte>, pos: nat, st: Tables)
    requires pos + 4 <= |T| && T[pos + 3] == 8
    ensures var n := ReadLength(T, pos + 4);
            ParseObject(T, pos, st)
            == if n.Bad? || n.pos + n.value > |T| then Fail
               else Ok(BuiltInFunction(T[n.pos..n.pos + n.value]), n.pos + n.value, st)
  {
    hide ReadLength;
  }

  // Contents of vectors.

  /** Atomic vectors: a length and that many elements, in their order, before any attributes. */
  lemma AtomicRead(T: seq<byte>, pos: nat, st: Tables)
    requires pos + 4 <= |T| && T[pos + 3] in {10, 13, 14, 15, 24} && ParseObject(T, pos, st).Ok?
    ensures var d := ParseObject(T, pos, st).value; var n := ReadLength(T, pos + 4);
            && d.AtomicVector? && IsKind(T[pos + 3], d.atoms)
            && n.Good? && AtomCount(d.atoms) == n.value && AtomsAre(d.atoms, T, n.pos)
            && (Bit(T[pos + 2], 2) <==> d.attributes != [])
            && (d.attributes == [] ==> ParseObject(T, pos, st).pos == AtomsEnd(d.atoms, n.pos))
  {
    hide ReadAtoms, ReadLength, ParseObject, ParseAttributes, AtomsAre, AtomsEnd;
    Dispatch(T, pos, st);
    AtomsMean(T[pos + 3], T, pos + 4);
    AttributesByFlag(T[pos + 2], T, ReadAtoms(T[pos + 3], T, pos + 4).pos, st);
  }

  /** Without attributes nothing else is asked of an atomic vector. */
  lemma AtomicThere(T: seq<byte>, pos: nat, st: Tables)
    requires pos + 4 <= |T| && T[pos + 3] in {10, 13, 14, 15, 24} && !Bit(T[pos + 2], 2)
    ensures ParseObject(T, pos, st).Ok? <==> HasAtoms(T[pos + 3], T, pos + 4)
    ensures ParseObject(T, pos, st).Ok? ==> ParseObject(T, pos, st).st == st
  {
    hide ReadAtoms, HasAtoms, ParseObject;
    Dispatch(T, pos, st);
    AtomsThere(T[pos + 3], T, pos + 4);
  }

  /** Strings, lists and expressions: as many elements as the length says, before any attributes. */
  lemma VectorRead(T: seq<byte>, pos: nat, st: Tables)
    requires pos + 4 <= |T| && T[pos + 3] in {16, 19, 20} && ParseObject(T, pos, st).Ok?
    ensures var o := ParseObject(T, pos, st).value; var n := ReadLength(T, pos + 4);
            && n.Good?
            && (T[pos + 3] == 16 ==> o.StringVector? && |o.strings| == n.value)
            && (T[pos + 3] == 19 ==> o.GenericVector? && |o.elements| == n.value)
            && (T[pos + 3] == 20 ==> o.ExpressionVector? && |o.elements| == n.value)
            && (Bit(T[pos + 2], 2) <==> o.attributes != [])
  {
    hide ReadLength, ReadStrings, ParseObjects, ParseObject, ParseAttributes;
    Dispatch(T, pos, st);
    if T[pos + 3] == 16 {
      AttributesByFlag(T[pos + 2], T, ReadStringData(T, pos + 4).pos, st);
    } else {
      var l := ParseList(T, pos + 4, st);
      AttributesByFlag(T[pos + 2], T, l.pos, l.st);
    }
  }

  /** There are attributes exactly if the header says so; they are a pairlist that ends with a null. */
  lemma AttributesByFlag(flags: byte, T: seq<byte>, p: nat, st: Tables)
    requires p <= |T| && ParseOptionalAttributes(flags, T, p, st).Ok?
    ensures var r := ParseOptionalAttributes(flags, T, p, st);
            && (Bit(flags, 2) <==> r.value != [])
            && (Bit(flags, 2) ==> r.pos >= 12 && T[r.pos - 1] == 254 && T[p + 3] == 2)
  {
    hide ParsePairs;
    if Bit(flags, 2) { PairsEnd(T[p + 2], T, p + 4, st); }
  }

  // Pairlists.

  lemma {:induction false} PairsEnd(flags: byte, T: seq<byte>, p: nat, st: Tables)
    requires p <= |T| && ParsePairs(flags, T, p, st).Ok?
    ensures T[ParsePairs(flags, T, p, st).pos - 1] == 254
    decreases |T| - p
  {
    hide ParseNode, ParsePairs;
    PairsUnfold(flags, T, p, st);
    var q := ParseNode(flags, T, p, st).pos;
    if T[q + 3] == LIST { PairsEnd(T[q + 2], T, q + 4, ParseNode(flags, T, p, st).st); }
  }

  /** In a node the attributes come first and the tag comes before the value, each only if the header says so. */
  lemma NodeRead(flags: byte, T: seq<byte>, p: nat, st: Tables)
    requires p <= |T| && ParseNode(flags, T, p, st).Ok?
    ensures var r := ParseNode(flags, T, p, st);
            && p + 4 <= |T| && |r.value.nodes| == 1
            && (Bit(flags, 4) <==> r.value.nodes[0].tag.Some?)
            && (Bit(flags, 2) <==> r.value.attributes != [])
            && (Bit(flags, 2) ==> T[p + 3] == 2)
            && (!Bit(flags, 2) && Bit(flags, 4) ==> T[p + 3] == 1 || T[p + 3] == 255)
            && (!Bit(flags, 2) && !Bit(flags, 4) ==> ParseObject(T, p, st).Ok?
                                                     && ParseObject(T, p, st).value == r.value.nodes[0].value)
  {
    hide ParseAttributes, ParseObject, ParseSymbolBody, Lookup;
    var a := ParseOptionalAttributes(flags, T, p, st);
    AttributesByFlag(flags, T, p, st);
  }

  /** A call: the function before the arguments, and the attributes before both. */
  lemma CallRead(T: seq<byte>, pos: nat, st: Tables)
    requires pos + 4 <= |T| && T[pos + 3] == 6
    ensures var r := ParseObject(T, pos, st); var l := ParsePairs(T[pos + 2], T, pos + 4, st);
            r.Ok? <==> l.Ok? && l.value.nodes[0].value.SymbolIndex?
    ensures var r := ParseObject(T, pos, st); var l := ParsePairs(T[pos + 2], T, pos + 4, st);
            r.Ok? ==>
            && r.pos == l.pos && r.st == l.st && r.value.LanguageObject?
            && l.value.nodes[0].value == SymbolIndex(r.value.function_)
            && l.value.nodes == [l.value.nodes[0]] + r.value.arguments
            && r.value.attributes == l.value.attributes
  {
    hide ParsePairs, ParseObject;
    Dispatch(T, pos, st);
  }

  // Pointers and environments.

  /** An external pointer: what protects it, its tag and its attributes, in that order. It is found in the slot that
      was the next one when its header was read. */
  lemma PointerRead(T: seq<byte>, pos: nat, st: Tables)
    requires pos + 4 <= |T| && T[pos + 3] == 22 && ParseObject(T, pos, st).Ok?
    ensures var r := ParseObject(T, pos, st); var i := |st.pointers|;
            r.value == ExternalPointerIndex(i) && i < |r.st.pointers|
            && var first := ParseObject(T, pos + 4, AddPointer(st));
               first.Ok? && r.st.pointers[i].protection == Some(first.value)
               && var second := ParseObject(T, first.pos, first.st);
                  second.Ok? && r.st.pointers[i].tag == Some(second.value)
                  && (Bit(T[pos + 2], 2) <==> r.st.pointers[i].attributes != [])
  {
    hide ParseObject, ParseOptionalAttributes;
    Dispatch(T, pos, st);
    var s2 := ParseObject(T, pos + 4, AddPointer(st));
    var s3 := ParseObject(T, s2.pos, s2.st);
    AttributesByFlag(T[pos + 2], T, s3.pos, s3.st);
  }

  /** What the code in its header says of a parent. */
  predicate IsParent(code: byte, parent: EnvRef, st: Tables)
  {
    match code
    case 4 => parent == Ordinary(|st.environments|)
    case 241 => parent == BaseEnv
    case 242 => parent == EmptyEnv
    case 253 => parent == GlobalEnv
    case 254 => parent == BaseEnv
    case 255 => parent.Ordinary?
    case _ => false
  }

  lemma ParentRead(T: seq<byte>, p: nat, st: Tables)
    requires ParseParent(T, p, st).Ok?
    ensures var r := ParseParent(T, p, st);
            p + 4 <= |T| && IsParent(T[p + 3], r.value, st) && (T[p + 3] != 4 ==> r.pos == p + 4 && r.st == st)
  {
    hide ParseEnvironmentBody;
  }

  /** The variables: a list and a null, or a null and a vector of lists. */
  lemma VariablesRead(T: seq<byte>, p: nat, st: Tables)
    requires ParseVariables(T, p, st).Ok?
    ensures var r := ParseVariables(T, p, st);
            if r.value.0 then p + 8 <= |T| && T[p + 3] == 254 && T[p + 7] == 19
            else p + 4 <= |T| && T[p + 3] == 2 && r.value.1 != [] && T[r.pos - 1] == 254
  {
    hide ParsePairs, ParseList, AsVariables;
  }

  /** An environment: lock, parent, variables and attributes, in that order, and found in the slot that was the next
      one when its header was read. */
  lemma EnvironmentRead(T: seq<byte>, p: nat, st: Tables)
    requires ParseEnvironment(T, p, st).Ok?
    ensures var r := ParseEnvironment(T, p, st); var i := |st.environments|;
            && p + 8 <= |T| && r.value == i < |r.st.environments| && r.st.environments[i].Some?
            && var e := r.st.environments[i].value; var parent := ParseParent(T, p + 4, AddEnvironment(st));
               && (e.locked <==> Signed32(T, p) > 0)
               && parent.Ok? && e.parent == parent.value && IsParent(T[p + 7], e.parent, AddEnvironment(st))
               && var variables := ParseVariables(T, parent.pos, parent.st);
                  && variables.Ok? && (e.hashed, e.variables) == variables.value
                  && variables.pos + 4 <= |T|
                  && (e.attributes != [] <==> T[variables.pos + 3] == 2)
                  && (e.attributes == [] <==> T[variables.pos + 3] == 254)
                  && T[r.pos - 1] == 254
  {
    hide ParseParent, ParseVariables, ParsePairs, ReadU32, Num32, Signed32;
    IntegerMeans(T, p);
    var a := AddEnvironment(st);
    ParentRead(T, p + 4, a);
    var parent := ParseParent(T, p + 4, a);
    var variables := ParseVariables(T, parent.pos, parent.st);
    FinalAttributesRead(T, variables.pos, variables.st);
  }

  lemma FinalAttributesRead(T: seq<byte>, p: nat, st: Tables)
    requires ParseFinalAttributes(T, p, st).Ok?
    ensures var r := ParseFinalAttributes(T, p, st);
            && p + 4 <= |T| && (r.value != [] <==> T[p + 3] == 2) && (r.value == [] <==> T[p + 3] == 254)
            && T[r.pos - 1] == 254
  {
    hide ParsePairs;
    if T[p + 3] == LIST { PairsEnd(T[p + 2], T, p + 4, st); }
  }

  /** A null instead of a parent is the base environment: if its code is replaced by that of the base environment,
      the same is read, or nothing in either case. */
  lemma NullParentIsBase(T: seq<byte>, p: nat, st: Tables)
    requires p + 8 <= |T| && T[p + 7] == 254 && Consistent(st)
    ensures ParseEnvironment(T[p + 7 := 241], p, st) == ParseEnvironment(T, p, st)
  {
    hide ParseVariables, ParseFinalAttributes, Consistent, ReadU32;
    var U, a := T[p + 7 := 241], AddEnvironment(st);
    AddEnvironmentConsistent(st);
    assert U[p..p + 4] == T[p..p + 4];
    SameInteger(T, U, p);
    assert ParseParent(T, p + 4, a) == Ok(BaseEnv, p + 8, a) == ParseParent(U, p + 4, a);
    assert T[p + 8..] == U[p + 8..];
    RestIsSame(T, U, p + 8, a);
  }

  lemma SameInteger(T: seq<byte>, U: seq<byte>, p: nat)
    requires p + 4 <= |T| == |U| && T[p..p + 4] == U[p..p + 4]
    ensures ReadInt32(T, p) == ReadInt32(U, p)
  {
  }

  /** Variables and attributes, in two inputs that do not differ from `p` on. */
  lemma RestIsSame(T: seq<byte>, U: seq<byte>, p: nat, st: Tables)
    requires p <= |T| == |U| && T[p..] == U[p..] && Consistent(st)
    ensures ParseVariables(T, p, st) == ParseVariables(U, p, st)
    ensures var v := ParseVariables(T, p, st);
            v.Ok? ==> ParseFinalAttributes(T, v.pos, v.st) == ParseFinalAttributes(U, v.pos, v.st)
  {
    hide ParseVariables, ParseFinalAttributes, Consistent;
    if ParseVariables(T, p, st).Ok? { RestIsRead(T, U, p, st); }
    if ParseVariables(U, p, st).Ok? { RestIsRead(U, T, p, st); }
  }

  lemma SameSuffix(T: seq<byte>, U: seq<byte>, p: nat)
    requires p <= |T| == |U| && T[p..] == U[p..]
    ensures forall b :: Reading(T, U, p, |T|, 0, b).Agree()
  {
    assert T[p..|T|] == T[p..] && U[p..|T|] == U[p..];
  }

  lemma RestIsRead(T: seq<byte>, U: seq<byte>, p: nat, st: Tables)
    requires p <= |T| == |U| && T[p..] == U[p..] && Consistent(st) && ParseVariables(T, p, st).Ok?
    ensures ParseVariables(T, p, st) == ParseVariables(U, p, st)
    ensures var v := ParseVariables(T, p, st);
            ParseFinalAttributes(T, v.pos, v.st).Ok? ==>
              ParseFinalAttributes(T, v.pos, v.st) == ParseFinalAttributes(U, v.pos, v.st)
  {
    hide ParseVariables, ParseFinalAttributes, Consistent, Grows, Reading.Agree;
    var v := ParseVariables(T, p, st);
    SameSuffix(T, U, p);
    VariablesRun(p, st, Reading(T, U, p, |T|, 0, v.st));
    Onward(st, v.st, v.st);
    var a := ParseFinalAttributes(T, v.pos, v.st);
    if a.Ok? { FinalAttributesRun(v.pos, v.st, Reading(T, U, p, |T|, 0, a.st)); }
  }

  // Alternative representations.

  const WRAPPER: seq<byte> := [0x77, 0x72, 0x61, 0x70, 0x5F, 0x69, 0x6E, 0x74, 0x65, 0x67, 0x65, 0x72]
  const COMPACT: seq<byte> := [0x63, 0x6F, 0x6D, 0x70, 0x61, 0x63, 0x74, 0x5F, 0x69, 0x6E, 0x74, 0x73, 0x65, 0x71]
  const DEFERRED: seq<byte> :=
    [0x64, 0x65, 0x66, 0x65, 0x72, 0x72, 0x65, 0x64, 0x5F, 0x73, 0x74, 0x72, 0x69, 0x6E, 0x67]

  /** A list of an integer vector and so many integers starts at `p`. */
  predicate HasState(count: nat, T: seq<byte>, p: nat, st: Tables)
  {
    && p + 4 <= |T| && T[p + 3] == 2 && ParseObject(T, p + 4, st).Ok?
    && var (o, q, _) := ParseObject(T, p + 4, st).Extract();
       && o.AtomicVector? && o.atoms.Integers?
       && q + 4 <= |T| && T[q + 3] == 13 && HasAtoms(13, T, q + 4) && ReadLength(T, q + 4).value == count
  }

  function StateEnd(count: nat, T: seq<byte>, p: nat, st: Tables): (q: nat)
    requires HasState(count, T, p, st)
    ensures q <= |T|
  {
    ReadLength(T, ParseObject(T, p + 4, st).pos + 4).pos + 4 * count
  }

  lemma StateRead(count: nat, T: seq<byte>, p: nat, st: Tables)
    ensures HasState(count, T, p, st)
       <==> && ParseState(count, T, p, st).Ok? && ParseState(count, T, p, st).value.AtomicVector?
            && ParseState(count, T, p, st).value.atoms.Integers?
    ensures HasState(count, T, p, st) ==>
            var (o, _, s) := ParseObject(T, p + 4, st).Extract();
            ParseState(count, T, p, st) == Ok(o, StateEnd(count, T, p, st), s)
  {
    hide ParseObject, ReadAtoms, ReadLength, AtomsAre;
    if p + 4 <= |T| && ParseObject(T, p + 4, st).Ok? {
      var q := ParseObject(T, p + 4, st).pos;
      AtomsThere(13, T, q + 4);
      if ReadAtoms(INT, T, q + 4).Good? { AtomsMean(INT, T, q + 4); }
    }
  }

  predicate NullAt(T: seq<byte>, p: nat) { p + 4 <= |T| && T[p + 3] == 254 }

  /** Three doubles and a null: a sequence is read if they stand for one, and then it is the integers that they
      describe. */
  lemma CompactRead(T: seq<byte>, p: nat)
    ensures ReadCompact(T, p).Good?
       <==> && p + 4 <= |T| && T[p + 3] == 14 && HasAtoms(14, T, p + 4) && ReadLength(T, p + 4).value == 3
            && var q := ReadLength(T, p + 4).pos;
               NullAt(T, q + 24) && ExpandDoubles(Num64(T, q), Num64(T, q + 8), Num64(T, q + 16)).Some?
    ensures ReadCompact(T, p).Good? ==>
            var q := ReadLength(T, p + 4).pos;
            && ReadCompact(T, p).pos == q + 28
            && Describes(Num64(T, q), Num64(T, q + 8), Num64(T, q + 16), ReadCompact(T, p).value)
  {
    hide ReadAtoms, ReadLength, ExpandDoubles, Describes, Num64;
    if p + 4 <= |T| {
      AtomsThere(14, T, p + 4);
      if ReadAtoms(REAL, T, p + 4).Good? {
        AtomsMean(REAL, T, p + 4);
        var d := ReadAtoms(REAL, T, p + 4).value.dbls;
        var q := ReadLength(T, p + 4).pos;
        if |d| == 3 {
          assert d[0] == Num64(T, q + 8 * 0) && d[1] == Num64(T, q + 8 * 1) && d[2] == Num64(T, q + 8 * 2);
          if ExpandDoubles(d[0], d[1], d[2]).Some? { ExpandedElements(d[0], d[1], d[2]); }
        }
      }
    }
  }

  /** What follows the list that starts with the name of a representation: an integer vector and more attributes,
      a compact sequence, or integers for strings. No other name is understood. */
  predicate HasAltrep(name: Text, T: seq<byte>, p: nat, st: Tables)
  {
    if name == WRAPPER then
      && HasState(2, T, p, st)
      && ParseFinalAttributes(T, StateEnd(2, T, p, st), ParseObject(T, p + 4, st).st).Ok?
    else if name == COMPACT then ReadCompact(T, p).Good?
    else name == DEFERRED && HasState(1, T, p, st) && NullAt(T, StateEnd(1, T, p, st))
  }

  /** What that is read as: the integers with the attributes of both, the sequence, or the strings. */
  ghost predicate IsAltrep(o: RObject, name: Text, T: seq<byte>, p: nat, st: Tables)
    requires HasAltrep(name, T, p, st)
  {
    if name == WRAPPER then
      var (v, _, s) := ParseObject(T, p + 4, st).Extract();
      o == AtomicVector(v.atoms, v.attributes + ParseFinalAttributes(T, StateEnd(2, T, p, st), s).value)
    else if name == COMPACT then o == AtomicVector(Integers(ReadCompact(T, p).value), [])
    else o.StringVector? && o.attributes == [] && AllSpell(o.strings, ParseObject(T, p + 4, st).value.atoms.ints)
  }

  lemma WrapperRead(T: seq<byte>, p: nat, st: Tables)
    ensures var r := ParseWrapper(T, p, st);
            && (r.Ok? <==> HasAltrep(WRAPPER, T, p, st))
            && (r.Ok? ==> IsAltrep(r.value, WRAPPER, T, p, st) && r.value.atoms.Integers? && T[r.pos - 1] == 254)
  {
    hide ParseObject, ParseState, ParseFinalAttributes, HasState, StateEnd;
    StateRead(2, T, p, st);
    var v := ParseState(2, T, p, st);
    if v.Ok? && ParseFinalAttributes(T, v.pos, v.st).Ok? { FinalAttributesRead(T, v.pos, v.st); }
  }

  lemma DeferredRead(T: seq<byte>, p: nat, st: Tables)
    ensures var r := ParseDeferred(T, p, st);
            && (r.Ok? <==> HasAltrep(DEFERRED, T, p, st))
            && (r.Ok? ==> IsAltrep(r.value, DEFERRED, T, p, st) && T[r.pos - 1] == 254)
  {
    hide ParseObject, ParseState, HasState, StateEnd, AsStrings, AllSpell;
    StateRead(1, T, p, st);
    if HasState(1, T, p, st) { StringsSpell(ParseState(1, T, p, st).value.atoms.ints); }
  }

  lemma Names(name: Text)
    ensures name == WRAP_INTEGER <==> name == WRAPPER
    ensures name == COMPACT_INTSEQ <==> name == COMPACT
    ensures name == DEFERRED_STRING <==> name == DEFERRED
    ensures !(name == WRAPPER && name == COMPACT) && !(name == WRAPPER && name == DEFERRED)
    ensures !(name == COMPACT && name == DEFERRED)
  {
    assert |WRAPPER| == 12 && |COMPACT| == 14 && |DEFERRED| == 15;
  }

  /** The dispatch on the name. */
  function ParseNamed(name: Text, T: seq<byte>, p: nat, st: Tables): Parse<RObject>
  {
    if name == WRAP_INTEGER then ParseWrapper(T, p, st)
    else if name == COMPACT_INTSEQ then
      var (ints, q, _) :- ReadCompact(T, p).With(st);
      Ok(AtomicVector(Integers(ints), []), q, st)
    else if name == DEFERRED_STRING then ParseDeferred(T, p, st)
    else Fail
  }

  lemma NamedRead(name: Text, T: seq<byte>, p: nat, st: Tables)
    ensures var r := ParseNamed(name, T, p, st);
            && (r.Ok? <==> HasAltrep(name, T, p, st))
            && (r.Ok? ==> && IsAltrep(r.value, name, T, p, st) && 0 < r.pos <= |T| && T[r.pos - 1] == 254
                          && (r.value.StringVector? || (r.value.AtomicVector? && r.value.atoms.Integers?)))
  {
    hide ParseWrapper, ParseDeferred, ReadCompact, HasState, StateEnd, AllSpell, ParseFinalAttributes, ParseObject;
    Names(name);
    if name == WRAPPER {
      WrapperRead(T, p, st);
    } else if name == COMPACT {
      CompactRead(T, p);
    } else if name == DEFERRED {
      DeferredRead(T, p, st);
    }
  }

  /** A vector in an alternative representation: a list that starts with the name of the representation, and what
      goes with that name. */
  lemma AltrepRead(T: seq<byte>, pos: nat, st: Tables)
    requires pos + 4 <= |T| && T[pos + 3] == 238
    ensures ParseObject(T, pos, st).Ok?
       <==> && pos + 8 <= |T| && T[pos + 7] == 2 && ParsePairs(T[pos + 6], T, pos + 8, st).Ok?
            && var (l, p, s) := ParsePairs(T[pos + 6], T, pos + 8, st).Extract();
               l.nodes[0].value.SymbolIndex? && HasAltrep(NameOf(l.nodes[0].value.symbol, s), T, p, s)
    ensures ParseObject(T, pos, st).Ok? ==>
            var (l, p, s) := ParsePairs(T[pos + 6], T, pos + 8, st).Extract(); var r := ParseObject(T, pos, st);
            && IsAltrep(r.value, NameOf(l.nodes[0].value.symbol, s), T, p, s) && T[r.pos - 1] == 254
            && (r.value.StringVector? || (r.value.AtomicVector? && r.value.atoms.Integers?))
  {
    hide ParsePairs, ParseObject, ParseWrapper, ParseDeferred, ReadCompact, NameOf, HasAltrep, IsAltrep;
    Dispatch(T, pos, st);
    if pos + 8 <= |T| && T[pos + 7] == 2 && ParsePairs(T[pos + 6], T, pos + 8, st).Ok? {
      var (l, p, s) := ParsePairs(T[pos + 6], T, pos + 8, st).Extract();
      if l.nodes[0].value.SymbolIndex? { NamedRead(NameOf(l.nodes[0].value.symbol, s), T, p, s); }
    }
  }

  // Everything.

  lemma ListRead(T: seq<byte>, pos: nat, st: Tables)
    requires pos + 4 <= |T| && T[pos + 3] == 2
    ensures ParseObject(T, pos, st)
         == match ParsePairs(T[pos + 2], T, pos + 4, st)
            case Ok(l, p, s) => Ok(PairList(l.nodes, l.attributes), p, s)
            case Fail => Fail
  {
    hide ParsePairs;
  }

  lemma EnvironmentObject(T: seq<byte>, pos: nat, st: Tables)
    requires pos + 4 <= |T| && T[pos + 3] == 4
    ensures ParseObject(T, pos, st)
         == match ParseEnvironment(T, pos + 4, st)
            case Ok(i, p, s) => Ok(EnvironmentIndex(Ordinary(i)), p, s)
            case Fail => Fail
  {
    hide ParseEnvironment;
  }

  /** What is read is what the code announces; with any other code nothing is read. */
  lemma ObjectByCode(T: seq<byte>, pos: nat, st: Tables)
    requires pos <= |T| && ParseObject(T, pos, st).Ok?
    ensures pos + 4 <= |T| && Announces(T[pos + 3], ParseObject(T, pos, st).value, st)
  {
    hide ParsePairs, ParseSymbolBody, ReadBuiltIn, ParseEnvironment, Lookup, ReadLength, ParseS4, ParseAltrep,
      ParseCall, ParseAtomic, ParseStringVector, ParseVector, ParsePointer, AtomsAre, SaysClass, HasState, StateEnd,
      HasString, AllSpell, ParseFinalAttributes, ReadCompact;
    var code := T[pos + 3];
    if code in {10, 13, 14, 15, 24} {
      AtomicRead(T, pos, st);
    } else if code in {16, 19, 20} {
      VectorRead(T, pos, st);
    } else if code == 1 {
      SymbolRead(T, pos, st);
    } else if code == 8 {
      BuiltInRead(T, pos, st);
    } else if code == 2 {
      ListRead(T, pos, st);
    } else if code == 4 {
      EnvironmentObject(T, pos, st);
      EnvironmentRead(T, pos + 4, st);
    } else if code == 6 {
      CallRead(T, pos, st);
    } else if code == 22 {
      PointerRead(T, pos, st);
    } else if code == 25 {
      S4Read(T, pos, st, ParseObject(T, pos, st).value);
    } else if code == 238 {
      AltrepRead(T, pos, st);
    } else if code == 255 {
      ReferenceRead(T, pos, st);
    }
  }

  /** Lists, calls, environments, S4 objects and alternative representations end with a null. */
  lemma EndsWithNull(T: seq<byte>, pos: nat, st: Tables)
    requires pos + 4 <= |T| && ParseObject(T, pos, st).Ok? && T[pos + 3] in {2, 4, 6, 25, 238}
    ensures T[ParseObject(T, pos, st).pos - 1] == 254
  {
    hide ParsePairs, ParseEnvironment, ParseObject, ParseS4, ParseAltrep, ParseCall;
    var code := T[pos + 3];
    if code == 2 {
      ListRead(T, pos, st);
      PairsEnd(T[pos + 2], T, pos + 4, st);
    } else if code == 4 {
      EnvironmentObject(T, pos, st);
      EnvironmentRead(T, pos + 4, st);
    } else if code == 6 {
      CallRead(T, pos, st);
      PairsEnd(T[pos + 2], T, pos + 4, st);
    } else if code == 25 {
      S4Read(T, pos, st, ParseObject(T, pos, st).value);
      PairsEnd(T[pos + 6], T, pos + 8, st);
    } else {
      AltrepRead(T, pos, st);
    }
  }
}
