/** Writer and parser side by side: what the writer has cached and what the parser has in its tables
    when both stand at the same place of the stream. */
module Lockstep {
  import opened Bytes
  import opened Objects
  import opened WriterSpec
  import opened ParserSpec
  import opened References
  import opened RoundTrip
  import opened FileRoundTrip
  import opened FixedPoint
  import opened Writer
  import opened Parser

  /** A number that the writer knows denotes, for the parser, a row of the right table with the right
      contents. */
  lemma NumberIsMapped(k: Key, log: seq<Key>, open: set<Key>, f: File, L: seq<Key>)
    requires NoDuplicates(log) && k in log
    ensures var m, number := Mirror(log, open, f, L), Number(log, k);
            && 0 < number <= |m.mappings| == |log|
            && m.mappings[number - 1] == Mapping(KindOf(k), Rank(log, k))
            && Holds(m, k, Rank(log, k), open, f, L)
  {
    MirrorAt(log, Position(log, k), open, f, L);
  }

  /** At any moment of a run, even inside environments and pointers that are half built, the counter is
      one ahead of the parser's mappings, and every number in one of the caches denotes an entity
      of the same kind, for symbols with the same name and encoding. */
  lemma CachesMatchTables(w: SharedWriteInfo, open: set<Key>, L: seq<Key>)
    requires w.Valid()
    ensures var m := Mirror(w.log, open, w.file, L);
            && |m.mappings| == w.referenceCount - 1
            && (forall i :: 0 <= i < |w.knownSymbolMappings| && w.knownSymbolMappings[i] != 0 ==>
                  SymbolRow(m, w.knownSymbolMappings[i], w.file.symbols[i]))
            && (forall s: Symbol :: Find(w.symbolMappings, s).Some? ==>
                  SymbolRow(m, Find(w.symbolMappings, s).value, s))
            && (forall i :: 0 <= i < |w.knownEnvironmentMappings| && w.knownEnvironmentMappings[i] != 0 ==>
                  Row(m, w.knownEnvironmentMappings[i], EnvironmentKind, Rank(w.log, Env(i))))
            && (forall i :: 0 <= i < |w.knownPointerMappings| && w.knownPointerMappings[i] != 0 ==>
                  Row(m, w.knownPointerMappings[i], PointerKind, Rank(w.log, Ptr(i))))
  {
    hide Mirror, NoDuplicates, Rank;
    var m := Mirror(w.log, open, w.file, L);
    MirrorSizes(w.log, open, w.file, L);
    forall s: Symbol | Sym(s) in w.log ensures SymbolRow(m, Number(w.log, Sym(s)), s) {
      NumberIsMapped(Sym(s), w.log, open, w.file, L);
    }
    forall i: nat | Env(i) in w.log ensures Row(m, Number(w.log, Env(i)), EnvironmentKind, Rank(w.log, Env(i))) {
      NumberIsMapped(Env(i), w.log, open, w.file, L);
    }
    forall i: nat | Ptr(i) in w.log ensures Row(m, Number(w.log, Ptr(i)), PointerKind, Rank(w.log, Ptr(i))) {
      NumberIsMapped(Ptr(i), w.log, open, w.file, L);
    }
  }

  predicate Row(m: Tables, number: nat, kind: Kind, index: nat)
  {
    0 < number <= |m.mappings| && m.mappings[number - 1] == Mapping(kind, index)
  }

  predicate SymbolRow(m: Tables, number: nat, symbol: Symbol)
  {
    && 0 < number <= |m.mappings| && m.mappings[number - 1].kind == SymbolKind
    && m.mappings[number - 1].index < |m.symbols| && m.symbols[m.mappings[number - 1].index] == symbol
  }

  /** No two entities share a number, over all caches. */
  lemma NumbersAreDistinct(w: SharedWriteInfo, s: Symbol, s': Symbol)
    requires w.Valid() && Find(w.symbolMappings, s).Some? && Find(w.symbolMappings, s) == Find(w.symbolMappings, s')
    ensures s == s'
    ensures forall i :: 0 <= i < |w.knownEnvironmentMappings| ==>
              Find(w.symbolMappings, s) != Some(w.knownEnvironmentMappings[i])
    ensures forall i :: 0 <= i < |w.knownPointerMappings| ==>
              Find(w.symbolMappings, s) != Some(w.knownPointerMappings[i])
  {
    NumberInjective(w.log, Sym(s), Sym(s'));
    forall k | k in w.log && Number(w.log, k) == Number(w.log, Sym(s)) ensures k == Sym(s) {
      NumberInjective(w.log, k, Sym(s));
    }
  }

  /** A file written on one host and read on another, perhaps with more bytes after it. */
  method WriteAndRead(f: File, rest: seq<byte>, writerIsLittle: bool, readerIsLittle: bool) returns (g: Option<File>)
    ensures EmitFile(f).None? ==> g.None?
    ensures EmitFile(f).Some? && EmitFile(f).value.top < REFERENCE_LIMIT ==>
              var L := EmitFile(f).value.log;
              g == if Representable(f, L) then Some(Parsed(f, L)) else None
  {
    hide EmitFile, ParseFile, Representable, RenameObject, Mirror;
    var bytes := WriteFile(f, writerIsLittle);
    if bytes.None? { return None; }
    g := ReadFile(bytes.value + rest, readerIsLittle);
    if EmitFile(f).value.top < REFERENCE_LIMIT { RoundTripExactly(f, bytes.value + rest); }
  }
}
