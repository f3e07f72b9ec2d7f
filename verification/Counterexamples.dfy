/** Files that are written without complaint and cannot be read back. */
module Counterexamples {
  import opened Bytes
  import opened Objects
  import opened WriterSpec
  import opened ParserSpec
  import opened RoundTrip
  import opened FileRoundTrip

  // An environment without variables: the writer puts two nulls where the parser, having seen the
  // first, expects a table of buckets.

  function EmptyEnvironment(hashed: bool): Environment { Environment(false, hashed, GlobalEnv, [], []) }

  function EmptyFile(hashed: bool): File
  {
    File(EnvironmentIndex(Ordinary(0)), [], [EmptyEnvironment(hashed)], [])
  }

  const NIL_BYTES: seq<byte> := [0, 0, 0, 254]

  lemma EmptyEnvironmentBytes(hashed: bool)
    ensures EmitFile(EmptyFile(hashed)).Some? && EmitFile(EmptyFile(hashed)).value.log == [Env(0)]
    ensures EmitFile(EmptyFile(hashed)).value.out
         == [0, 0, 0, 4] + [0, 0, 0, 0] + [0, 0, 0, 253] + NIL_BYTES + NIL_BYTES + NIL_BYTES
  {
    hide Unwritten, NoDuplicates, Universe, Extends, Before, NotShorter, BigEndian;
    var f, none, e := EmptyFile(hashed), FRESH, EmptyEnvironment(hashed);
    var s1 := EmitHeader(ENV, 0, Register(f, none, Env(0)));
    assert EmitObject(f.object_, f, none) == EmitEnvironment(Ordinary(0), f, none);
    assert EmitEnvironment(Ordinary(0), f, none) == EmitNewEnvironment(0, f, none);
    assert EmitNewEnvironment(0, f, none) == EmitEnvironmentBody(e, f, s1);
    ZeroBytes();
    assert s1.out == [0, 0, 0, ENV];
    var s2 := EmitHeader(GLOBALENV, 0, EmitInteger(0, s1));
    assert EmitEnvironment(GlobalEnv, f, EmitInteger(0, s1)) == Some(s2);
    var s3 := EmitHeader(NILVALUE, 0, s2);
    NothingLeft([], f, s2);
    NothingLeft([], f, EmitHeader(NILVALUE, 0, s3));
    assert EmitEnvironmentBody(e, f, s1) == Some(EmitHeader(NILVALUE, 0, EmitHeader(NILVALUE, 0, s3)));
  }

  lemma ZeroBytes()
    ensures BigEndian(0, 4) == [0, 0, 0, 0]
  {
    assert BigEndian(0, 2) == [0, 0];
  }

  lemma EmptyEnvironmentIsLost(hashed: bool)
    ensures EmitFile(EmptyFile(hashed)).Some? && ParseFile(EmitFile(EmptyFile(hashed)).value.out).Fail?
  {
    hide EmitFile, ParseFile;
    EmptyEnvironmentBytes(hashed);
    var log := [Env(0)];
    assert !CleanKey(log[0], EmptyFile(hashed));
    RoundTripExactly(EmptyFile(hashed), EmitFile(EmptyFile(hashed)).value.out);
  }

  /** An empty environment as R writes it, with a hash table of no buckets. */
  const HASHED_BYTES: seq<byte> :=
    [0, 0, 0, 4, 0, 0, 0, 0, 0, 0, 0, 253, 0, 0, 0, 254, 0, 0, 0, 19, 0, 0, 0, 0, 0, 0, 0, 254]

  lemma ZeroRead(T: seq<byte>, pos: nat)
    requires pos + 4 <= |T| && T[pos] == 0 && T[pos + 1] == 0 && T[pos + 2] == 0 && T[pos + 3] == 0
    ensures ReadInt32(T, pos) == Good(0, pos + 4) && ReadLength(T, pos) == Good(0, pos + 4)
  {
    assert T[pos..pos + 4] == [0, 0, 0, 0];
    ZeroBytes();
    BigEndianInverts(0, 4);
    Widths();
  }

  lemma HashedBodyIsRead(st: Tables)
    ensures ParseEnvironmentBody(HASHED_BYTES, 4, st) == Ok(EmptyEnvironment(true), 28, st)
  {
    hide ReadU32, ReadLength, ReadInt32, ParsePairs, ParseAttributes, ParseObjects, ParseObject, Lookup;
    var T := HASHED_BYTES;
    ZeroRead(T, 4);
    ZeroRead(T, 20);
    NothingRead(T, 24, st);
    assert ParseParent(T, 8, st) == Ok(GlobalEnv, 12, st);
    assert ParseVariables(T, 12, st) == Ok((true, []), 24, st);
    assert ParseFinalAttributes(T, 24, st) == Ok([], 28, st);
  }

  lemma HashedBytesAreRead()
    ensures ParseFile(HASHED_BYTES).Ok?
    ensures ToFile(ParseFile(HASHED_BYTES).value, ParseFile(HASHED_BYTES).st) == EmptyFile(true)
  {
    hide ParsePairs, ParseEnvironmentBody, Lookup, ParseSymbolBody, ParseS4, ParseAltrep, ParsePointer, ParseCall,
      ParseAtomic, ParseStringVector, ParseVector;
    var T, st := HASHED_BYTES, AddEnvironment(NO_TABLES);
    HashedBodyIsRead(st);
    var done := st.(environments := [Some(EmptyEnvironment(true))]);
    assert ParseEnvironment(T, 4, NO_TABLES) == Ok(0, 28, done);
    assert ParseBody(ENV, 0, T, 4, NO_TABLES) == Ok(EnvironmentIndex(Ordinary(0)), 28, done);
  }

  lemma NothingRead(T: seq<byte>, pos: nat, st: Tables)
    requires pos <= |T|
    ensures ParseObjects(0, T, pos, st) == Ok([], pos, st)
  {
  }

  /** What R has written is read, and what is then written cannot be read. */
  lemma HashedEmptyEnvironmentIsReadOnce()
    ensures ParseFile(HASHED_BYTES).Ok?
    ensures var g := ToFile(ParseFile(HASHED_BYTES).value, ParseFile(HASHED_BYTES).st);
            EmitFile(g).Some? && ParseFile(EmitFile(g).value.out).Fail?
  {
    hide EmitFile, ParseFile;
    HashedBytesAreRead();
    EmptyEnvironmentIsLost(true);
  }

  // An S4 object with a slot called "class": the parser finds two classes.

  const SLOT := Named(0, Null)
  const CLASS_FILE := File(S4Object(CLASS_SYMBOL, PACKAGE_SYMBOL, [SLOT]), [CLASS_SYMBOL], [], [])

  lemma ClassSlotIsLost()
    ensures EmitFile(CLASS_FILE).Some? && ParseFile(EmitFile(CLASS_FILE).value.out).Fail?
  {
    hide EmitFile, ParseFile;
    var t := ClassSlotWritten();
    assert CLASS_FILE.object_.attributes[0] == SLOT;
    assert NamesClass([SLOT], CLASS_FILE);
    RoundTripExactly(CLASS_FILE, t.out);
  }

  lemma ClassSlotWritten() returns (t: Sink)
    ensures EmitFile(CLASS_FILE) == Some(t) && |t.log| < REFERENCE_LIMIT
  {
    hide Extends, WritableFile, EmitS4Head, EmitNodes;
    var f, none := CLASS_FILE, FRESH;
    WriterSucceeds(f);
    t := EmitFile(f).value;
    assert EmitObject(f.object_, f, none) == EmitS4(CLASS_SYMBOL, PACKAGE_SYMBOL, [SLOT], f, none);
    var s := EmitS4Head(CLASS_SYMBOL, PACKAGE_SYMBOL, f, none).value;
    HeadWritten(f, s);
    SlotWritten(f, s, t);
  }

  lemma HeadWritten(f: File, t: Sink)
    requires EmitS4Head(CLASS_SYMBOL, PACKAGE_SYMBOL, f, FRESH) == Some(t)
    ensures t.log == [Sym(CLASS_SYMBOL), Sym(PACKAGE_SYMBOL)]
  {
    hide Extends, EmitText, EmitStringData, Position;
    var s := EmitSymbol(CLASS_SYMBOL, f, EmitHeader(LIST, 4, Put(FRESH, [0, 1, 3, S4]))).value;
    assert s.log == [Sym(CLASS_SYMBOL)];
    var u := EmitStringData([Present(CLASS_SYMBOL)], 2, s).value;
    assert EmitPackage(PACKAGE_SYMBOL, f, u) == Some(t);
    assert Sym(PACKAGE_SYMBOL) !in u.log;
  }

  lemma SlotWritten(f: File, s: Sink, t: Sink)
    requires f.symbols == [CLASS_SYMBOL] && |s.log| == 2 && s.log[0] == Sym(CLASS_SYMBOL)
    requires EmitNodes([], AsNodes([SLOT]), f, s) == Some(t)
    ensures |t.log| == 2
  {
    hide Extends, EmitText, EmitNode, EmitReference;
    var n := Node(Some(0), Null);
    assert AsNodes([SLOT]) == [n] && [n][1..] == [];
    var h := EmitHeader(LIST, 4, s);
    SlotNode(n, f, s, h);
    var u := EmitNode([], n, f, s).value;
    NothingLeft([], f, u);
    assert EmitNodes([], [n], f, s) == EmitNodes([], [], f, u);
  }

  lemma SlotNode(n: Node, f: File, s: Sink, h: Sink)
    requires n == Node(Some(0), Null) && h == EmitHeader(LIST, 4, s)
    requires f.symbols == [CLASS_SYMBOL] && |s.log| == 2 && s.log[0] == Sym(CLASS_SYMBOL)
    ensures EmitNode([], n, f, s).Some? && EmitNode([], n, f, s).value.log == s.log
  {
    hide Extends, EmitText, EmitReference;
    NothingLeft([], f, h);
    var u := EmitReference(Sym(CLASS_SYMBOL), h);
    assert EmitTag(n.tag, f, h) == Some(u);
    assert EmitObject(Null, f, u) == Some(EmitHeader(NILVALUE, 0, u));
    LogKept(h);
  }

  lemma LogKept(h: Sink)
    requires Sym(CLASS_SYMBOL) in h.log
    ensures EmitReference(Sym(CLASS_SYMBOL), h).log == h.log
  {
  }
}
