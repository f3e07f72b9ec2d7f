# Reading and writing R's serialization format: a verified model

This project models the core of rds2cpp: the writer that turns a graph of R objects into bytes and
the parser that turns bytes into such a graph, in the format of section 1.8 (Serialization Formats)
of R Internals, with XDR numbers (sections 4.1, 4.2 and 4.7 of RFC 4506). Check everything with
`dafny verify dfyconfig.toml`.

A tree of objects owns its children, but symbols, environments and external pointers live in tables
and are named by index, so the graph may be cyclic. Both sides hand out reference numbers, in the
order in which they meet these entities, and the bytes only make sense if both do so in the same
order, through nested environments, parents, attributes, tags, S4 slots and calls. The two machines
never communicate; that they agree is what most of the project proves.

## How it is organised

- `Bytes`, `Objects`: bytes, big-endian numbers, headers, and the object datatypes.
- `HostMemory`: numbers in the memory of little- and big-endian hosts and the in-place reversals.
- `CompactSequences`: the arithmetic of compact integer sequences.
- `WriterSpec`, `ParserSpec`: what is appended and what is read, as functions. The writer's state is a
  *sink*: the output and the *log*, the entities in the order in which they were numbered.
- `Writer`, `Parser`: the mutable machines, with the fields, caches, loops and staged updates of the
  C++ code. Every method is proved equal to its function in `WriterSpec` or `ParserSpec`; the writer's
  invariant ties the counter, the four symbol dictionaries and the three caches to the log.
- `ItemRoundTrip`, `References`, `RoundTrip`, `FileRoundTrip`: the parser undoes the writer. `Mirror`
  gives the parser's tables for a log; lemmas follow both machines through one run, with the whole
  output in view, also inside entries that are half built.
- `ParserSafety`, `ParserRuns`: the parser on arbitrary bytes.
- `Coverage`, `Reachability`: what a run writes, and which files survive.
- `Correspondence`, `FixedPoint`, `NormalForm`, `ParsedFiles`: writing again what has been parsed.
- `ItemFormat`, `WrittenFormat`, `ReadFormat`, `DeferredStrings`: the format itself in plain numbers, for what is
  written and for what is read from any bytes, so that it does not rest on both sides making the same mistake.
- `Layouts`, `HashTables`, `AltrepForms`: forms that R writes and the library only reads.
- `Lockstep`: the mutable writer's caches beside the parser's tables, and both machines in a row.
- `Counterexamples`, `ReferenceLimit`: files that are written and cannot be read, or are read wrongly.

## Main results

- **Round trip, exactly** (`RoundTripExactly`). For every file the writer accepts, in which no back
  reference has a number of 2^24 or more, and any bytes after it, parsing succeeds if and only if every
  environment that was written has a variable and no S4 object that was written has a slot named "class". It then
  stops exactly after the written bytes and gives the original up to one renaming, which is
  one-to-one on environments and pointers, merges symbols exactly when name and encoding agree, and
  is onto the parser's tables (`RenamingIsConsistent`, `RenamingIsOnto`). What the format loses is
  explicit in `RenameObject` and `RenameEnvironment`: an empty pairlist becomes null, a missing
  string's encoding becomes the default one, `hashed` becomes false, unreached entries disappear.
  `SurvivesExactly` states the condition without running the writer: some list of entries supports
  the file, that is, contains all that the object and its own entries mention, and is clean. The number
  of table entries plus two bounds every number (`FewNumbers`), so below 2^24 nothing more is needed.
- **Fixed point** (`CanonicalFixedPoint`, `RewritingIsNormal`). After one trip nothing changes any more,
  and what is written then are, byte for byte, the bytes of the normal form `NormalFile` of the original.
- **Symbol numbers do not matter** (`SymbolNumbersDoNotMatter`), as `register_symbol` promises.
- **Any input** (`ParserIsLocal`, `ParserIsPlaceless`, `PrefixFails`, `ParserIsSafe`, `ParsedFileIsClosed`). The parser
  depends only on what it consumes, wherever that stands, fails on every shorter input, terminates whatever lengths are
  claimed, returns only indices that exist, disturbs no slot that was there before and leaves no
  slot of its own unfilled, although references to it are handed out midway. What has been parsed can
  be written, and it is known exactly when that can be read again (`ParsedFileSurvives`).
- **The format** (`ObjectHeader`, `ObjectByCode`, `AtomsMean`, `StringMeans`, `EnvironmentRead`, `AltrepRead`). Which
  type code, flags and numbers stand for which object, in what order the parts come and which bits say how a
  string is encoded: stated in plain numbers on the written bytes and on arbitrary input.
- **Lockstep** (`CachesMatchTables`). At any point, every number cached by the writer denotes a mapping of
  the parser with the same kind and, for symbols, the same name and encoding.
- **Other layouts** (`LayoutsAgree`, `LayoutsReadAlike`, `WrapperIsTransparent`, `ExpandsExactly`). Hashed and
  unhashed environments agree, in a run of the writer and on bytes of any origin; a wrapped compact sequence is read as the plain vector, up to the renaming of its
  run; for a whole count, testing two endpoints is the same as testing every element, and element `i` is
  `start + i * step` rounded towards zero (`ExpandedElements`, `RangeIsExpanded`). Deferred strings spell their
  integers (`StringsSpell`, `SpelledOnce`).
- **Hosts** (`HostsAgree`, `WriteAndRead`). Byte order makes no difference on either side.

## Where the code falls short of a plain reading

- An environment without variables is written as three nulls after its parent, but the parser, having
  met a null where the variables start, expects a hash table (`EmptyEnvironmentIsLost`). R's own hashed
  layout can express such an environment and is read correctly (`HashedBodyTrip`), but what is then
  written is unreadable (`HashedEmptyEnvironmentIsReadOnce`).
- An S4 slot named "class" is written without complaint and then found to be a second class
  (`ClassSlotIsLost`).
- From number 2^24 on a back reference loses its upper bits and leads to another entity or to none
  (`ReferenceResolves` gives the exact bound). A list of 2^24 external pointers that ends with the last of
  them again is unreadable, and one pointer more makes it end with the wrong one (`LateReferenceIsLost`,
  `LateReferenceIsMistaken`).
- The overflow test of a compact sequence looks at the point `count - 1`. If the stored count is not whole
  this lies past the last element, and a sequence whose elements all fit can be refused
  (`FractionalCountIsRefused`; the conversion of the count is assumed to truncate, see below).
- When an attribute of an external pointer holds a pointer that has not been met before, reading it grows
  the table of pointers while a reference to the attributes of the first pointer, an element of that
  table, is still in use (include/rds2cpp/parse_external_pointer.hpp:25), and it may be left dangling.
  The model uses indices throughout and reads such a file; see below.
- The encoding of a missing string is written but not read back, so rewriting may change bytes once
  (`RewritingIsNormal`); attributes of an empty pairlist are not written at all.

## Model

| member | source | states |
|---|---|---|
| `FileRoundTrip.RoundTripExactly` | include/rds2cpp/write_object.hpp:19-77 | Parsing the written bytes followed by anything gives the original object up to the renaming, with the tables that mirror the writer's log, and stops where the writer stopped; if something written cannot be represented the parse fails. An equation for every file the writer accepts, provided that no back reference has a number of 2^24 or more. |
| `FileRoundTrip.RenamingIsConsistent` | include/rds2cpp/SharedParseInfo.hpp:54-82 | The renaming is one-to-one on environments, on pointers and on (name, encoding) pairs, so two symbol indices merge exactly when name and encoding agree; every new index is inside its table and its row is the renamed entry. |
| `FileRoundTrip.RenamingIsOnto` | include/rds2cpp/SharedParseInfo.hpp:54-82 | No table of the parser has a row that does not stand for something that was written: unreached entries are dropped and nothing is invented. |
| `FileRoundTrip.ReferenceResolves` | include/rds2cpp/SharedWriteInfo.hpp:51-62 | A back reference leads the parser to the entity the writer meant if and only if its number is below 2^24. |
| `FileRoundTrip.WriterSucceeds` | include/rds2cpp/SharedWriteInfo.hpp:84-171 | The writer throws on no file whose indices are in range, whose pointers are set and whose strings are below 2^31 bytes, however cyclic its environments and pointers are. |
| `Reachability.SurvivesExactly` | include/rds2cpp/parse_environment.hpp:88-93 | For a file with at most 2^24 - 3 table entries, of the file alone: what has been written is read back if and only if some list of entries contains everything that the object and the entries in the list mention, each of its environments has a variable, and nothing in it or in the object has an S4 slot called class. Unreached entries do not matter. |
| `Reachability.RunIsLeastSupport` | include/rds2cpp/SharedWriteInfo.hpp:84-171 | The entities that get a number are such a list themselves, and are inside every other one, except perhaps the symbols for the class and the package of an S4 object. |
| `Reachability.SurvivesIfReferencesFit` | include/rds2cpp/SharedWriteInfo.hpp:51-62 | The same for a file of any size, provided that no back reference has a number of 2^24 or more. |
| `Reachability.FewNumbers` | include/rds2cpp/SharedWriteInfo.hpp:64-171 | A run gives at most as many numbers as the file has symbols, environments and pointers, and two more for the class and package symbols; no back reference has a larger one. |
| `Reachability.OnlyTableKeys` | include/rds2cpp/SharedWriteInfo.hpp:64-171 | Only entries of the three tables, and perhaps those two symbols, ever get a number. |
| `Reachability.CleanFilesSurvive` | include/rds2cpp/write_object.hpp:19-77 | A sufficient condition that can be checked before writing: indices in range, pointers set, strings short enough, no environment of the table without variables, no slot called class anywhere, and at most 2^24 - 3 table entries. |
| `FixedPoint.CanonicalFixedPoint` | include/rds2cpp/parse_object.hpp:31-135 | A file that has been parsed from written bytes can be written, and parsing that gives exactly the same file, tables and indices included. |
| `FixedPoint.SymbolNumbersDoNotMatter` | include/rds2cpp/RObject.hpp:106-121 | Two files that differ only in how symbols are numbered and how often they are listed are written to identical bytes, with identical numbers. |
| `FixedPoint.RewritingSucceeds` | include/rds2cpp/SharedWriteInfo.hpp:21-171 | What is parsed from a written file is always writable, numbers the images of the same entities in the same order, and gives the same bytes if missing strings carried the default encoding. |
| `FixedPoint.RewritingIsIdentical` | include/rds2cpp/parse_object.hpp:31-135 | write(parse(write(f))) equals write(f) byte for byte when the missing strings of f carry the default encoding. |
| `NormalForm.EquivalentFilesReadAlike` | include/rds2cpp/write_object.hpp:19-77 | Files that differ only in symbol numbering, in empty pairlists versus nulls and in the encodings of missing strings number the same entities and are parsed to the same file. |
| `NormalForm.RewritingIsNormal` | include/rds2cpp/write_single_string.hpp:49-60 | For every file that is read back, writing what was parsed gives, byte for byte, what writing its normal form NormalFile(f) gives. |
| `NormalForm.NormalFileIsEquivalent` | include/rds2cpp/write_single_string.hpp:49-60 | The normal form of any file (nulls for empty pairlists, the default encoding for missing strings, nothing hashed) differs from it only in what the format loses, and all its missing strings carry the default encoding. |
| `Counterexamples.EmptyEnvironmentIsLost` | include/rds2cpp/parse_environment.hpp:88-93 | A concrete file with an environment that has no variables is written without an error and fails to parse. |
| `Counterexamples.HashedEmptyEnvironmentIsReadOnce` | include/rds2cpp/parse_environment.hpp:88-115 | 28 concrete bytes with an empty hashed environment are read, and what is then written cannot be read. |
| `ReferenceLimit.LateReferenceIsLost` | include/rds2cpp/SharedWriteInfo.hpp:51-62 | A list that names 2^24 external pointers and then the last of them again is written without an error and fails to parse. |
| `ReferenceLimit.LateReferenceIsMistaken` | include/rds2cpp/SharedWriteInfo.hpp:51-62 | With one pointer more the file is read, and its last element is the first pointer instead of the last. |
| `ReferenceLimit.RepeatingIsRead` | include/rds2cpp/SharedParseInfo.hpp:28-39 | For every number n below 2^31 - 1 of pointers: n entities are numbered, the largest back reference is n, and it is read as n modulo 2^24, as a failure if that is zero. |
| `Counterexamples.EmptyEnvironmentBytes` | include/rds2cpp/SharedWriteInfo.hpp:144-170 | The exact 24 bytes written for that file: three nulls follow the parent. |
| `Counterexamples.ClassSlotIsLost` | include/rds2cpp/parse_s4.hpp:42-49 | A concrete S4 object with a slot called class is written without an error and fails to parse. |
| `ParserRuns.ParserIsPlaceless` | include/rds2cpp/parse_object.hpp:31-135 | For every input: if parse_object succeeds, the bytes it consumed, found anywhere in any other input, give the same object and the same tables. |
| `ParserRuns.ParserIsLocal` | include/rds2cpp/parse_object.hpp:31-135 | For every input: if parse_object succeeds, any other input with the same bytes between where it started and where it stopped gives the same object, position and tables. |
| `ParserRuns.PrefixFails` | include/rds2cpp/parse_object.hpp:31-135 | parse_object fails on every proper prefix of the bytes it consumes. |
| `ParserRuns.ParserIsSafe` | include/rds2cpp/parse_environment.hpp:30-134 | For every input: no slot that existed before is changed, every slot allocated during the call is filled when it returns, every returned index exists, and the mappings of each kind stay 0, 1, 2, ... |
| `ParserRuns.ParsedFileIsClosed` | include/rds2cpp/parse_rds.hpp:115-121 | For every input: in a parsed file all indices, also those inside environments and pointers, are inside their tables, no environment is a leftover default, no pointer is unset, strings and vectors are within the limits of the format, and no S4 object has a slot called class. |
| `ParsedFiles.ParsedFileIsWritable` | include/rds2cpp/parse_rds.hpp:115-121 | For every input: a file that has been parsed can be written. |
| `ParsedFiles.ParsedFileSurvives` | include/rds2cpp/parse_rds.hpp:115-121 | For every input: what is written of a parsed file is read back if and only if every environment that was written has a variable, and then up to the renaming, provided that no back reference has a number of 2^24 or more, which small enough tables guarantee. |
| `ParserSafety.MappingInside` | include/rds2cpp/SharedParseInfo.hpp:89-105 | Every mapping points into the table of its kind, which makes the fall-through of resolve_reference sound. |
| `ParserSafety.FillEnvironment` | include/rds2cpp/parse_environment.hpp:129-130 | Storing a finished environment into its slot keeps every slot that was there before the call and leaves no unfilled new one. |
| `Lockstep.CachesMatchTables` | include/rds2cpp/SharedWriteInfo.hpp:64-171 | At any point of a run, also inside half-built entries, the counter is one ahead of the parser's mappings, and every number in every cache denotes a mapping of the same kind, for symbols a row with the same name and encoding. |
| `Lockstep.NumberIsMapped` | include/rds2cpp/SharedParseInfo.hpp:54-82 | A number given by the writer is, for the parser, a mapping of the entity's kind to the row of that entity. |
| `Lockstep.NumbersAreDistinct` | include/rds2cpp/SharedWriteInfo.hpp:64-81 | The numbers over all the encoding dictionaries are pairwise distinct, and distinct from those of environments and pointers. |
| `Lockstep.WriteAndRead` | include/rds2cpp/parse_rds.hpp:115-121 | Writing on a host of either byte order and reading on another, with arbitrary bytes after the file, returns the renamed file exactly when it is representable. |
| `References.MirrorAt` | include/rds2cpp/SharedParseInfo.hpp:54-82 | What the parser's tables say about the entity with number j + 1: its kind, its index and, unless it is still being read, its contents. |
| `References.RankStable` | include/rds2cpp/SharedWriteInfo.hpp:64-171 | A number and an index never change once they are given. |
| `References.ClosingEnvironment` | include/rds2cpp/parse_environment.hpp:129-130 | Filling the slot of the environment that was opened first turns the tables with the slot open into the tables with the slot closed. |
| `References.OpeningEnvironment` | include/rds2cpp/SharedParseInfo.hpp:77-82 | Handing out a number for an environment before its contents matches the writer registering it before its contents. |
| `RoundTrip.ObjectTrip` | include/rds2cpp/write_object.hpp:19-77 | Wherever the writer stands, the parser at the same place with the mirrored tables reads the object just written, up to the renaming, ends where the writer ended with the tables mirrored again, or fails if and only if something unrepresentable was written. |
| `RoundTrip.ReferenceTrip` | include/rds2cpp/SharedWriteInfo.hpp:51-62 | A written reference is looked up to the kind and index of the entity it was written for. |
| `RoundTrip.SymbolTrip` | include/rds2cpp/SharedWriteInfo.hpp:64-81 | A symbol comes back under the index of its (name, encoding), whether it was written in full or as a reference. |
| `RoundTrip.VectorTrip` | include/rds2cpp/write_list.hpp:18-29 | A list or expression vector comes back element by element, with shared tables threaded through. |
| `RoundTrip.NodesTrip` | include/rds2cpp/write_pairlist.hpp:18-54 | A pairlist comes back with its attributes and its tags; the attributes are read from the first node only. |
| `RoundTrip.CallTrip` | include/rds2cpp/write_language.hpp:18-38 | A call, written as function and arguments, comes back from the pairlist that is read. |
| `RoundTrip.EnvironmentTrip` | include/rds2cpp/SharedWriteInfo.hpp:124-142 | A reference to an environment, special or not, new or known, comes back as an object and as a parent. |
| `RoundTrip.NewEnvironmentTrip` | include/rds2cpp/parse_environment.hpp:30-130 | A new environment, possibly containing itself, comes back under its index; reading succeeds only if it has variables. |
| `RoundTrip.EnvironmentBodyTrip` | include/rds2cpp/SharedWriteInfo.hpp:146-170 | Lock, parent, variables and attributes of an environment come back. |
| `RoundTrip.PointerTrip` | include/rds2cpp/SharedWriteInfo.hpp:101-121 | An external pointer, new or known, comes back under its index. |
| `RoundTrip.S4Trip` | include/rds2cpp/write_s4.hpp:18-65 | The synthesised class entry and its package are recognised and taken out again, with both encodings and the order of the slots, whether the two symbols are fresh or references; it works if and only if no slot is called class. |
| `RoundTrip.SlotsTrip` | include/rds2cpp/parse_s4.hpp:37-49 | Once a class has been found the rest are slots, and a second class is an error. |
| `ItemRoundTrip.LengthTrip` | include/rds2cpp/utils_parse.hpp:56-85 | Every length below 2^64 comes back, on both sides of the switch to the long form. |
| `ItemRoundTrip.StringTrip` | include/rds2cpp/parse_single_string.hpp:15-55 | A string comes back with its encoding; a missing one comes back with the default encoding. |
| `ItemRoundTrip.WordsTrip` | include/rds2cpp/parse_atomic.hpp:21-40 | Payloads of any length and width come back word by word. |
| `ItemRoundTrip.AtomsTrip` | include/rds2cpp/write_atomic.hpp:17-122 | Integers, logicals, doubles, complex numbers and raw bytes come back exactly, with header and length. |
| `Bytes.BigEndianInverts` | include/rds2cpp/utils_write.hpp:15-24 | A number survives the trip through w bytes if and only if it fits in them. |
| `Bytes.FromBigEndianInverts` | include/rds2cpp/utils_parse.hpp:44-53 | Every sequence of bytes is the encoding of the number it is read as. |
| `Bytes.ReferenceInverts` | include/rds2cpp/SharedParseInfo.hpp:28-39 | A reference header gives back its number if and only if it is below 2^24, and the number modulo 2^24 otherwise. |
| `Objects.WordsInvert` | include/rds2cpp/parse_atomic.hpp:21-121 | Vector contents are rebuilt from their machine words, two per complex number. |
| `Coverage.FileCovered` | include/rds2cpp/SharedWriteInfo.hpp:84-171 | Everything the file's object refers to, directly or through written table entries, has been written and has a number. |
| `Correspondence.ObjectSame` | include/rds2cpp/write_object.hpp:19-77 | Two writers on matching files stay in step: both fail or both append, with corresponding entities numbered alike and, in the exact case, the same bytes. |
| `Correspondence.SamePosition` | include/rds2cpp/SharedWriteInfo.hpp:64-142 | Under a one-to-one renaming of entities an entity has a number on one side if and only if it has the same number on the other. |
| `WriterSpec.EmitObject` | include/rds2cpp/write_object.hpp:19-77 | The writer terminates on every finite table set, by budget of entries without a number and then by size; it only appends, and never numbers an entity twice. |
| `WriterSpec.EmitNewEnvironment` | include/rds2cpp/SharedWriteInfo.hpp:143-170 | An environment is numbered before its contents: the log of the contents extends the log with the new entry. |
| `WriterSpec.EmitFile` | include/rds2cpp/write_rds.hpp:65-68 | Over a whole run no entity is numbered, and so written in full, more than once. |
| `WriterSpec.Register` | include/rds2cpp/SharedWriteInfo.hpp:76-78 | Numbering a new environment or pointer strictly lowers the number of unwritten entries. |
| `ParserSpec.ParseObject` | include/rds2cpp/parse_object.hpp:31-135 | The parser terminates on every input, consumes at least four bytes when it succeeds, never ends past the end of the input and never shrinks a table. |
| `ParserSpec.ParseObjects` | include/rds2cpp/parse_list.hpp:17-27 | A counted loop over objects terminates whatever length is claimed, and returns that many objects. |
| `Layouts.LayoutsAgree` | include/rds2cpp/parse_environment.hpp:71-119 | The hashed and the unhashed encoding of the same non-empty variables, with everything inside them in the library's own layout, number the same entities and are parsed to the same environment and the same tables, apart from the hashed flag. |
| `HashTables.LayoutsReadAlike` | include/rds2cpp/parse_environment.hpp:29-130 | On bytes of any origin: if every variable can be read from its own bytes, hash tables of nested environments among them, then listing them and spreading them over any chains of a hash table gives the same environment and the same tables, apart from the hashed flag. |
| `HashTables.HashedRun` | include/rds2cpp/parse_environment.hpp:88-115 | A hash table of any origin, with its length in either form, is read as the variables of its chains one after the other, also when there are none. |
| `Layouts.HashedTrip` | include/rds2cpp/parse_environment.hpp:88-115 | A hash table with any number of buckets, empty or of any length, is read as the concatenation of its buckets. |
| `Layouts.HashedBodyTrip` | include/rds2cpp/parse_environment.hpp:30-130 | An environment in the hashed layout is parsed, also when it has no variables. |
| `Layouts.LayoutsNumberTheSame` | include/rds2cpp/parse_environment.hpp:71-119 | Both layouts bring up the same entities in the same order. |
| `AltrepForms.WrapperIsTransparent` | include/rds2cpp/parse_altrep.hpp:89-121 | A wrap_integer around a compact_intseq and the plain integer vector, each in a run of its own: both readings succeed alike, stop where the writing stopped, and give the same vector under the one-to-one renaming of their run; indices may differ because the wrapper brings up more symbols, but attribute names stand for the same symbols. |
| `AltrepForms.WrappedTrip` | include/rds2cpp/parse_altrep.hpp:89-121 | Within one run a wrapped compact sequence is read as the renamed integer vector with its attributes, consumes exactly its own bytes and leaves the tables in step, so later references stay valid; it fails exactly when the expansion does. |
| `AltrepForms.CompactTrip` | include/rds2cpp/parse_altrep.hpp:38-82 | A compact sequence is read if the two endpoints pass the test and refused if they do not; what is read has as many elements as the first double says, and element i is the second one plus i times the third one, rounded towards zero. |
| `CompactSequences.ExpandsExactly` | include/rds2cpp/parse_altrep.hpp:50-75 | With a whole count and finite start and step, a compact sequence is expanded if and only if every element is a 32-bit integer. |
| `CompactSequences.TestExactly` | include/rds2cpp/parse_altrep.hpp:56-70 | For any count, the endpoint test passes if and only if every element and the point at count - 1, which lies past the last element if the count is not whole, truncate to 32-bit integers. |
| `CompactSequences.FractionalCountIsRefused` | include/rds2cpp/parse_altrep.hpp:56-70 | Concrete doubles 2.5, 2147483644 and 3, the count being truncated: both elements are 32-bit integers and the sequence is refused. |
| `AltrepForms.DeferredTrip` | include/rds2cpp/parse_altrep.hpp:128-150 | Deferred strings over integers are parsed to strings that spell these integers: a signed decimal reader gets each integer back, and exactly the smallest one is missing. |
| `DeferredStrings.DigitsInvert` | include/rds2cpp/parse_altrep.hpp:143-148 | Decimal strings mean the number they were made of, consist of digits and have no leading zeros. |
| `CompactSequences.EndpointTest` | include/rds2cpp/parse_altrep.hpp:58-68 | The bit test on an endpoint passes if and only if its truncation is a signed 32-bit integer. |
| `CompactSequences.ElementFits` | include/rds2cpp/parse_altrep.hpp:56-75 | Testing the two endpoints alone guarantees that every stored value is a signed 32-bit integer, for ascending, descending and fractional sequences. |
| `DeferredStrings.StringsSpell` | include/rds2cpp/parse_altrep.hpp:143-148 | Each string is missing exactly for the smallest integer, and otherwise plain ASCII, without a leading zero, with a minus sign exactly for negative integers, and read back as the integer. |
| `DeferredStrings.SpelledOnce` | include/rds2cpp/parse_altrep.hpp:143-148 | Only one string spells an integer, so this fixes every byte. |
| `CompactSequences.ExpandedElements` | include/rds2cpp/parse_altrep.hpp:50-75 | Whatever three doubles are expanded, there are as many elements as the first one truncated, the first element is the start truncated, and element i is start + i * step truncated. |
| `CompactSequences.RangeIsExpanded` | include/rds2cpp/parse_altrep.hpp:50-75 | Every sequence of 32-bit integers with a constant step, up or down, has three doubles that are expanded to just these integers in this order. |
| `CompactSequences.SignBit` | include/rds2cpp/parse_altrep.hpp:47-52 | Setting the first bit of a finite double negates it. |
| `CompactSequences.TruncMeans` | include/rds2cpp/parse_altrep.hpp:74-74 | Values are rounded towards zero, also negative ones. |
| `WrittenFormat.ObjectHeader` | include/rds2cpp/utils_write.hpp:47-107 | The first four bytes of every object, with type codes in plain numbers: for an entity that has a number, that number and code 255 and nothing else; otherwise two fixed bytes, a flag byte and the code. The object bit is set exactly if some attribute, also of an environment or a pointer, has a name that reads class, and the attribute bit exactly if there are attributes; a pairlist has no object bit and says whether its first node has a tag. |
| `WrittenFormat.EnvironmentHeader` | include/rds2cpp/SharedWriteInfo.hpp:147-148 | The eight bytes that open a new environment: its header, and one or zero for the lock. |
| `WrittenFormat.S4Written` | include/rds2cpp/write_s4.hpp:18-61 | All bytes of an S4 object up to its slots, in plain numbers, for any class and package. |
| `ItemFormat.LengthWritten` | include/rds2cpp/utils_write.hpp:27-37 | A length takes four bytes if it is below 2^31, and otherwise 32 ones and its 64 bits. |
| `ItemFormat.StringWritten` | include/rds2cpp/write_single_string.hpp:11-62 | The header of a string by encoding, in plain numbers, its length or minus one, and its bytes; for missing strings too. |
| `ItemFormat.IntegerMeans` | include/rds2cpp/utils_parse.hpp:44-53 | Four bytes are a number with the most significant byte first, and as a signed one they are in two's complement. |
| `ItemFormat.LengthMeans` | include/rds2cpp/utils_parse.hpp:56-85 | On every input: a length is a number below 2^31, or 32 ones and a number of 64 bits with the upper half first, and anything else is refused. |
| `ItemFormat.StringMeans` | include/rds2cpp/parse_single_string.hpp:15-55 | On every input: when there is a string, what its bytes are and where it ends; its encoding by the bits 0x20, 0x40 and 0x80 of the third header byte and 0x04 of the second, in that order of precedence, and UTF-8 if none is set. |
| `ItemFormat.StringIsKept` | include/rds2cpp/parse_single_string.hpp:15-55 | A string read from any header is the same after it is written and read again. |
| `ItemFormat.AtomsMean` | include/rds2cpp/parse_atomic.hpp:21-121 | On every input, by type code in plain numbers: which kind of elements is read, and element i is the number in the bytes at its place, the real part of a complex number first. |
| `ReadFormat.ObjectByCode` | include/rds2cpp/parse_object.hpp:31-135 | On every input: the kind of object that each type code, in plain numbers, is read as; no other code is accepted. |
| `ReadFormat.ReferenceRead` | include/rds2cpp/SharedParseInfo.hpp:28-105 | On every input: code 255 is read as the symbol, environment or pointer that has the number in the first three bytes, and refused if no entity has it. |
| `ReadFormat.SymbolRead` | include/rds2cpp/parse_symbol.hpp:13-26 | Code 1 is read if and only if a string that is not missing follows; it gets the next place and the next number, with that name and encoding. |
| `ReadFormat.AtomicRead` | include/rds2cpp/parse_atomic.hpp:21-121 | An atomic vector: length, elements and, exactly if the header says so, attributes. |
| `ReadFormat.AtomicThere` | include/rds2cpp/parse_atomic.hpp:21-121 | An atomic vector without attributes is read if and only if a length and enough bytes follow. |
| `ReadFormat.LeafRead` | include/rds2cpp/parse_object.hpp:61-84 | Codes 0 and 254 are null, and 241, 242 and 253 the base, empty and global environment; nothing else is read. |
| `ReadFormat.BuiltInRead` | include/rds2cpp/parse_builtin.hpp:14-25 | Code 8 is read if and only if a length and as many bytes follow, which are the name. |
| `ReadFormat.VectorRead` | include/rds2cpp/parse_list.hpp:17-27 | Strings, lists and expressions: as many elements as the length says and, exactly if the header says so, attributes. |
| `ReadFormat.NodeRead` | include/rds2cpp/parse_pairlist.hpp:22-69 | In a node of a pairlist attributes come first and the tag comes before the value, each exactly if the header says so. |
| `ReadFormat.CallRead` | include/rds2cpp/parse_language.hpp:17-45 | A call is read if and only if a pairlist follows whose first value is a symbol: that is the function, and the other nodes are the arguments. |
| `ReadFormat.S4Means` | include/rds2cpp/parse_s4.hpp:33-85 | A pairlist is read as an S4 object if and only if all its nodes are tagged, exactly one is called class, and that one is a single string whose only attribute is called package and is a single string; the other nodes are the slots, in their order. |
| `ReadFormat.S4Read` | include/rds2cpp/parse_s4.hpp:18-31 | Code 25 is read as an S4 object if and only if the header has the bits for objects, attributes and S4 and such a pairlist follows. |
| `ReadFormat.PointerRead` | include/rds2cpp/parse_external_pointer.hpp:16-28 | The slot of an external pointer holds, in the order of the input, protection, tag and, exactly if the header says so, attributes. |
| `ReadFormat.EnvironmentRead` | include/rds2cpp/parse_environment.hpp:30-130 | The slot of an environment holds lock, parent, variables and attributes, in the order of the input; locked means a positive number, the parent goes by its code, and the end is a null. |
| `ReadFormat.VariablesRead` | include/rds2cpp/parse_environment.hpp:71-119 | Variables that are listed are a pairlist and a null; variables in a hash table are a null and a list. |
| `ReadFormat.NullParentIsBase` | include/rds2cpp/parse_environment.hpp:61-62 | Replacing a null that stands for a parent by the code of the base environment changes nothing in what is read, nor whether it is read. |
| `ReadFormat.CompactRead` | include/rds2cpp/parse_altrep.hpp:38-82 | On every input: a compact sequence is read if and only if there are three doubles that can be expanded, and a null; the doubles then describe the integers that are read, element by element. |
| `ReadFormat.AltrepRead` | include/rds2cpp/parse_altrep.hpp:220-246 | On every input: code 238 is read if and only if a pairlist follows that starts with one of three names, and then what goes with that name; a wrapper gives the integers with the attributes of both, deferred strings spell their integers. |
| `ReadFormat.EndsWithNull` | include/rds2cpp/parse_pairlist.hpp:45-69 | Lists, calls, environments, S4 objects and alternative representations end with a null. |
| `HostMemory.HostsAgree` | include/rds2cpp/write_atomic.hpp:25-36 | Little- and big-endian hosts emit the same bytes for a vector, and any host decodes to the original numbers what any other host emitted. |
| `HostMemory.LoadInverts` | include/rds2cpp/utils_parse.hpp:38-53 | On either kind of host a number comes back from memory if and only if it fits. |
| `HostMemory.ReverseRange` | include/rds2cpp/utils_parse.hpp:49-51 | std::reverse on a stretch of memory: the stretch is reversed and nothing else changes. |
| `HostMemory.FlipChunks` | include/rds2cpp/parse_atomic.hpp:31-37 | The in-place loop over all chunks of a payload reverses every chunk. |
| `Writer.SharedWriteInfo.constructor` | include/rds2cpp/SharedWriteInfo.hpp:34-47 | A fresh writer has a counter of one, empty dictionaries and no cached number. |
| `Writer.SharedWriteInfo.InjectInteger` | include/rds2cpp/utils_write.hpp:15-24 | Appends the big-endian bytes on either kind of host, through a reversal in memory. |
| `Writer.SharedWriteInfo.InjectAttributeHeader` | include/rds2cpp/utils_write.hpp:48-63 | The loop over the attributes computes a flag byte that is odd exactly if some attribute has a name that reads class, and at least two exactly if there are attributes. |
| `Writer.SharedWriteInfo.WriteWords` | include/rds2cpp/write_atomic.hpp:25-36 | Element by element on a little-endian host and in one go on a big-endian one: the same bytes. |
| `Writer.SharedWriteInfo.WriteReference` | include/rds2cpp/SharedWriteInfo.hpp:51-62 | The shift loop stores the low 24 bits of a number, most significant first. |
| `Writer.SharedWriteInfo.WriteSymbol` | include/rds2cpp/SharedWriteInfo.hpp:64-81 | Writes a symbol in full only if its dictionary does not have it, keeps dictionaries, counter and log in agreement and returns the symbol's number. |
| `Writer.SharedWriteInfo.WriteSymbolIndex` | include/rds2cpp/SharedWriteInfo.hpp:83-98 | The cached number and the dictionaries agree before and after, whichever is used; an index out of range throws. |
| `Writer.SharedWriteInfo.RegisterEnvironment` | include/rds2cpp/SharedWriteInfo.hpp:138-144 | Stores the next number in the cache and advances the counter, keeping all caches in agreement. |
| `Writer.SharedWriteInfo.RegisterPointer` | include/rds2cpp/SharedWriteInfo.hpp:108-114 | The same for an external pointer. |
| `Writer.SharedWriteInfo.WritePointer` | include/rds2cpp/SharedWriteInfo.hpp:100-121 | Writes a reference or the whole pointer, with its number stored before the recursion. |
| `Writer.SharedWriteInfo.WriteEnvironment` | include/rds2cpp/SharedWriteInfo.hpp:123-171 | Writes a special environment, a reference or the whole environment, with its number stored before the recursion. |
| `Writer.SharedWriteInfo.WriteObject` | include/rds2cpp/write_object.hpp:18-77 | The switch over object types refines the specification, whose codes ObjectHeader fixes; the caches stay valid even when it throws. |
| `Writer.SharedWriteInfo.WritePairList` | include/rds2cpp/write_pairlist.hpp:17-54 | The loop with the start flag: attributes go with the first node, tags with theirs. |
| `Writer.SharedWriteInfo.WriteS4` | include/rds2cpp/write_s4.hpp:17-65 | The class and package as a first slot under symbols that need not be in the table, then the slots. |
| `Writer.WriteFile` | include/rds2cpp/write_rds.hpp:65-68 | A file written from scratch gives the bytes of the specification on either kind of host, or fails exactly when it does. |
| `Writer.EnterKeepsIndexed` | include/rds2cpp/SharedWriteInfo.hpp:64-81 | Entering a symbol under its encoding keeps the dictionaries equal to the log, name by name and encoding by encoding. |
| `Parser.SharedParseInfo.constructor` | include/rds2cpp/SharedParseInfo.hpp:18-26 | A fresh parser has empty tables. |
| `Parser.SharedParseInfo.QuickInteger` | include/rds2cpp/utils_parse.hpp:44-53 | Reads a big-endian number on either kind of host, through a reversal in memory. |
| `Parser.SharedParseInfo.ParseSingleString` | include/rds2cpp/parse_single_string.hpp:14-55 | Reads a string through the reversed header; when it succeeds, where it stops and what it returns, encoding included, are said in terms of the bytes. |
| `Parser.SharedParseInfo.ExtractNumbers` | include/rds2cpp/parse_atomic.hpp:26-37 | Copies a payload and changes its byte order in place, chunk by chunk. |
| `Parser.SharedParseInfo.ParseAtoms` | include/rds2cpp/parse_atomic.hpp:21-121 | Reads the contents of an atomic vector as the element-wise specification does. |
| `Parser.SharedParseInfo.Accumulate` | include/rds2cpp/parse_altrep.hpp:72-75 | The accumulating loop stores trunc(start + i * step) at every index i, and the start itself first, in exact arithmetic. |
| `Parser.SharedParseInfo.ParseNumericCompactSeq` | include/rds2cpp/parse_altrep.hpp:38-82 | Reads a compact sequence: ranges, endpoint tests, expansion and terminator. |
| `Parser.SharedParseInfo.ExtractReferenceIndex` | include/rds2cpp/SharedParseInfo.hpp:28-39 | The shift loop gives the number minus one, or throws for zero. |
| `Parser.SharedParseInfo.ResolveReference` | include/rds2cpp/SharedParseInfo.hpp:89-105 | The object a reference stands for. |
| `Parser.SharedParseInfo.ParseSymbolBody` | include/rds2cpp/parse_symbol.hpp:13-26 | The string is read first; then a slot is requested and filled. |
| `Parser.SharedParseInfo.RequestNewEnvironment` | include/rds2cpp/SharedParseInfo.hpp:77-82 | Appends a mapping and a default environment and keeps the tables consistent. |
| `Parser.SharedParseInfo.RequestNewPointer` | include/rds2cpp/SharedParseInfo.hpp:68-73 | Appends a mapping and an unset pointer and keeps the tables consistent. |
| `Parser.SharedParseInfo.CollectVariables` | include/rds2cpp/parse_environment.hpp:96-115 | The nested loop over buckets and chains collects all variables in order. |
| `Parser.SharedParseInfo.ExtractSlots` | include/rds2cpp/parse_s4.hpp:33-85 | The loop separates class and package from the slots; every symbol it looks up is inside the table. |
| `Parser.SharedParseInfo.ParseObject` | include/rds2cpp/parse_object.hpp:30-135 | The switch over type codes refines the specification, whose codes ObjectByCode fixes; pointers that are being read are left alone. |
| `Parser.SharedParseInfo.RecursiveParse` | include/rds2cpp/parse_pairlist.hpp:22-69 | The tail recursion pushes node after node onto the output. |
| `Parser.SharedParseInfo.ParseExternalPointerBody` | include/rds2cpp/parse_external_pointer.hpp:16-28 | The slot is requested first and then filled in three stages, while other pointers that are being read keep what they have. |
| `Parser.SharedParseInfo.ParseNewEnvironmentBody` | include/rds2cpp/parse_environment.hpp:29-130 | The slot is requested first and filled when everything has been read. |
| `Parser.SharedParseInfo.ParseAltrepBody` | include/rds2cpp/parse_altrep.hpp:220-246 | The dispatch on the name of the representation; the name is looked up inside the table. |
| `Parser.SharedParseInfo.ConvertIntegers` | include/rds2cpp/parse_altrep.hpp:139-148 | The loop makes strings that spell the integers. |
| `Parser.SharedParseInfo.ParseDeferredString` | include/rds2cpp/parse_altrep.hpp:127-212 | Deferred strings over integers. |
| `Parser.ReadFile` | include/rds2cpp/parse_rds.hpp:115-121 | Reading a file from scratch gives the file of the specification on either kind of host, or fails exactly when it does. |

## Left out

- FileRoundTrip.RoundTripExactly: assumes that no back reference has a number of 2^24 or more, because the format keeps 24 bits of a number; `ReferenceResolves` says exactly what happens to a reference beyond that, and `RepeatingIsRead` what happens to one family of files.
- Layouts.LayoutsAgree: one environment is in the hashed layout and what is inside it is in the library's own layout; nested hash tables are covered by `HashTables.LayoutsReadAlike`, for the parser alone, where both inputs hold the nested tables in the same bytes.
- CompactSequences.FractionalCountIsRefused: like everything said of counts that are not whole, it assumes that `sanisizer::from_float` (include/rds2cpp/parse_altrep.hpp:50) truncates a count that is not whole; if it threw instead, such a sequence would be refused all the same, whatever its elements.
- Writer.SharedWriteInfo.InjectAttributeHeader: an attribute whose symbol index is out of range makes the C++ code read outside the symbol table while it computes the flag byte (include/rds2cpp/utils_write.hpp:54-55); the model skips such a name and then throws as the symbol is written.
- Parser.SharedParseInfo.ParseNumericCompactSeq: the endpoints are computed exactly, where the code computes them in doubles.
- Parser.SharedParseInfo.Accumulate: additions are exact, where the code adds doubles and may round or overflow to infinity; doubles are decoded exactly from their bits.
- Parser.SharedParseInfo.ParseDeferredString: strings made from doubles (include/rds2cpp/parse_altrep.hpp:152-192) are treated as a failure, because their decimal formatting and NaN payloads are not modelled.
- Parser.SharedParseInfo.ParseExternalPointerBody: attributes are collected and then stored, where the code passes a reference into the table to the function that reads them (include/rds2cpp/parse_external_pointer.hpp:25); object lifetime and reallocation are not modelled, so the success that FileRoundTrip.RoundTripExactly promises for an attribute holding a new pointer is that of a table whose elements do not move.
- Parser.SharedParseInfo.ParseObject: after an exception nothing is said about the parser's state, since the caller discards it.
- Null pointers in trees: a null child of a vector, a pairlist or an attribute list is not representable; a null protection or tag of an external pointer is, and counts as a failure of the writer.
- Unusual kinds: environment and parent kinds other than the ordinary, global, base and empty environment, and the unused index of a special environment.
- Integer width: the counter of reference numbers and the positions are unbounded; lengths and 32- and 64-bit numbers have their width. Checked casts of the sanisizer library, which is not part of this model, are taken as failures when the value does not fit.
- Memory: allocation failure, also for vectors whose claimed length is huge.
- Input and output: byteme readers and writers, buffering, Gzip, and the parallel options; the input is a sequence of bytes with a cursor, the output a sequence that grows.
- Preambles: versions and encoding names of RDS files, and the header and pairlist of RDA files.
- Error messages: every exception is the same failure. One of them, for a symbol without a name, is thrown as a pointer (`throw new`, include/rds2cpp/parse_symbol.hpp:17), which no handler for `std::exception` catches; the model does not tell it apart.
- Names of encodings and the text of symbols are bytes; no character set is interpreted.
