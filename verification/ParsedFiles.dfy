/** What can be done with a file that has been parsed from arbitrary bytes: it can always be written,
    and it is known when what is then written can be read again. */
module ParsedFiles {
  import opened Bytes
  import opened Objects
  import opened WriterSpec
  import opened ParserSpec
  import opened References
  import opened RoundTrip
  import opened FileRoundTrip
  import opened ParserSafety
  import opened ParserRuns
  import opened Coverage
  import opened Reachability

  /** The tables of a file. */
  ghost predicate HasTables(g: File, b: Tables)
  {
    g.symbols == b.symbols && |g.environments| == |b.environments| && |g.pointers| == |b.pointers|
  }

  /** Whatever is closed can be written and has no slot called "class". */
  lemma {:induction false} ObjectIsWritable(o: RObject, g: File, b: Tables)
    requires HasTables(g, b) && ClosedObject(o, b)
    ensures WritableObject(o, g) && CleanObject(o, g)
    decreases o, 0
  {
    hide ClosedNamed, ClosedNodes, ClosedObjects, WritableNamed, WritableNodes, WritableObjects, CleanNamed,
      CleanNodes, CleanObjects, NamesClass, NoneIsClass, NormalStrings;
    match o
    case AtomicVector(_, a) => NamedIsWritable(a, g, b);
    case StringVector(xs, a) => NamedIsWritable(a, g, b);
    case GenericVector(es, a) => ObjectsAreWritable(es, g, b); NamedIsWritable(a, g, b);
    case ExpressionVector(es, a) => ObjectsAreWritable(es, g, b); NamedIsWritable(a, g, b);
    case PairList(ns, a) => NodesAreWritable(ns, g, b); NamedIsWritable(a, g, b);
    case S4Object(_, _, a) => NamedIsWritable(a, g, b); NoClassAmong(a, g, b);
    case LanguageObject(_, ns, a) => NodesAreWritable(ns, g, b); NamedIsWritable(a, g, b);
    case _ =>
  }

  lemma NoClassAmong(a: seq<Named>, g: File, b: Tables)
    requires g.symbols == b.symbols && NoneIsClass(a, b)
    ensures !NamesClass(a, g)
  {
    forall j | 0 <= j < |a| ensures NameOf(a[j].name, b) != CLASS_NAME { assert a[j] in a; }
  }

  lemma {:induction false} ObjectsAreWritable(os: seq<RObject>, g: File, b: Tables)
    requires HasTables(g, b) && ClosedObjects(os, b)
    ensures WritableObjects(os, g) && CleanObjects(os, g)
    decreases os, 0
  {
    hide ClosedObject, ClosedObjects, WritableObject, CleanObject;
    if os != [] {
      ObjectsTail(os, b);
      ObjectIsWritable(os[0], g, b);
      ObjectsAreWritable(os[1..], g, b);
    }
  }

  lemma {:induction false} NodesAreWritable(ns: seq<Node>, g: File, b: Tables)
    requires HasTables(g, b) && ClosedNodes(ns, b)
    ensures WritableNodes(ns, g) && CleanNodes(ns, g)
    decreases ns, 0
  {
    hide ClosedObject, ClosedNodes, WritableObject, CleanObject;
    if ns != [] {
      assert ns[0].value < ns[0];
      NodesTail(ns, b);
      ObjectIsWritable(ns[0].value, g, b);
      NodesAreWritable(ns[1..], g, b);
    }
  }

  lemma {:induction false} NamedIsWritable(ns: seq<Named>, g: File, b: Tables)
    requires HasTables(g, b) && ClosedNamed(ns, b)
    ensures WritableNamed(ns, g) && CleanNamed(ns, g)
    decreases ns, 0
  {
    hide ClosedObject, ClosedNamed, WritableObject, CleanObject;
    if ns != [] {
      assert ns[0].value < ns[0];
      NamedTail(ns, b);
      ObjectIsWritable(ns[0].value, g, b);
      NamedIsWritable(ns[1..], g, b);
    }
  }

  /** Apart from the number of its variables an environment that has been parsed is clean. */
  lemma EnvironmentIsWritable(i: nat, g: File, b: Tables)
    requires HasTables(g, b) && i < |g.environments| && ClosedEnvironment(g.environments[i], b)
    ensures WritableEnvironment(g.environments[i], g)
    ensures CleanKey(Env(i), g) <==> g.environments[i].variables != []
  {
    hide ClosedNamed, WritableNamed, CleanNamed;
    NamedIsWritable(g.environments[i].variables, g, b);
    NamedIsWritable(g.environments[i].attributes, g, b);
  }

  lemma PointerIsWritable(i: nat, g: File, b: Tables)
    requires HasTables(g, b) && i < |g.pointers| && ClosedPointer(g.pointers[i], b)
    ensures WritablePointer(g.pointers[i], g) && CleanKey(Ptr(i), g)
  {
    hide ClosedObject, ClosedNamed, WritableObject, WritableNamed, CleanObject, CleanNamed;
    ObjectIsWritable(g.pointers[i].protection.value, g, b);
    ObjectIsWritable(g.pointers[i].tag.value, g, b);
    NamedIsWritable(g.pointers[i].attributes, g, b);
  }

  ghost predicate FullEnvironments(g: File, log: seq<Key>)
  {
    forall k :: k in log && k.Env? && k.index < |g.environments| ==> g.environments[k.index].variables != []
  }

  /** The names in the table are short, because every one of them has been read. */
  lemma NamesAreShort(T: seq<byte>)
    requires ParseFile(T).Ok?
    ensures forall i :: 0 <= i < |ParseFile(T).st.symbols| ==> |ParseFile(T).st.symbols[i].name| <= INT32_MAX
  {
    ParserIsSafe(T, 0, NO_TABLES);
  }

  /** Whatever the bytes: a file that has been parsed can be written. */
  lemma ParsedFileIsWritable(T: seq<byte>)
    requires ParseFile(T).Ok?
    ensures var g := ToFile(ParseFile(T).value, ParseFile(T).st);
            && WritableFile(g) && EmitFile(g).Some? && CleanObject(g.object_, g)
            && (forall i :: 0 <= i < |g.environments| ==>
                  (CleanKey(Env(i), g) <==> g.environments[i].variables != []))
            && (forall i :: 0 <= i < |g.pointers| ==> CleanKey(Ptr(i), g))
  {
    hide ParseFile, EmitFile, ClosedObject, ClosedEnvironment, ClosedPointer, WritableObject, WritableEnvironment,
      WritablePointer, CleanObject, CleanKey;
    var b := ParseFile(T).st;
    var g := ToFile(ParseFile(T).value, b);
    ParsedFileIsClosed(T);
    NamesAreShort(T);
    ObjectIsWritable(g.object_, g, b);
    forall i | 0 <= i < |g.environments|
      ensures WritableEnvironment(g.environments[i], g)
      ensures CleanKey(Env(i), g) <==> g.environments[i].variables != []
    {
      EnvironmentIsWritable(i, g, b);
    }
    forall i | 0 <= i < |g.pointers| ensures WritablePointer(g.pointers[i], g) && CleanKey(Ptr(i), g) {
      PointerIsWritable(i, g, b);
    }
    WriterSucceeds(g);
  }

  /** Whatever the bytes: what is written of a file that has been parsed can be read again if and only if
      every environment that was written has a variable, and then it comes back up to the renaming. */
  lemma ParsedFileSurvives(T: seq<byte>)
    requires ParseFile(T).Ok?
    ensures var g := ToFile(ParseFile(T).value, ParseFile(T).st);
            && EmitFile(g).Some? && EmitFile(g).value.top <= TableSize(g)
            && (var t := EmitFile(g).value;
                t.top < REFERENCE_LIMIT ==>
                  ParseFile(t.out)
                  == if FullEnvironments(g, t.log)
                     then Ok(RenameObject(g.object_, g, t.log), |t.out|, Mirror(t.log, {}, g, t.log))
                     else Fail)
  {
    hide ParseFile, EmitFile, WritableFile, CleanObject, CleanKey, RenameObject, Mirror, CoveredObject, TableSize;
    var g := ToFile(ParseFile(T).value, ParseFile(T).st);
    ParsedFileIsWritable(T);
    FewNumbers(g);
    var t := EmitFile(g).value;
    if t.top < REFERENCE_LIMIT {
      RoundTripExactly(g, t.out);
      FileCovered(g, t.log);
      forall j | 0 <= j < |t.log| && FullEnvironments(g, t.log) ensures CleanKey(t.log[j], g) {
        EntryIsClean(t.log[j], g, t.log);
      }
      if !FullEnvironments(g, t.log) {
        var k :| k in t.log && k.Env? && k.index < |g.environments| && g.environments[k.index].variables == [];
        assert k == Env(k.index);
      }
    }
  }

  lemma EntryIsClean(k: Key, g: File, log: seq<Key>)
    requires k in log && CoveredKey(k, g, log) && FullEnvironments(g, log)
    requires forall i :: 0 <= i < |g.environments| ==> (CleanKey(Env(i), g) <==> g.environments[i].variables != [])
    requires forall i :: 0 <= i < |g.pointers| ==> CleanKey(Ptr(i), g)
    ensures CleanKey(k, g)
  {
    hide CleanNamed, CleanObject, CoveredNamed, CoveredObject;
    assert k.Sym? || k == Env(k.index) || k == Ptr(k.index);
  }
}
