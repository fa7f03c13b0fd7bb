/** The class-file indexer provider: its selectors, and one indexing pass that clears the working sets,
    runs the structural visitor, parses the pending descriptors, scans the constant pool and appends the
    container entry (and, for supertypes, the class's own name) to the shared indexes. Every fault inside a
    pass is caught and ends the pass silently; `PassOutcome` says where it ended. */
module Indexer {
  import opened Common
  import opened ClassFile
  import opened Symbols
  import opened PoolScan
  import opened IndexStore
  import opened Visitors
  import opened Reader

  /** The selector every class-file indexer answers to. */
  const ClassFileSelector := "*:file:*.class"

  /** How a pass ended: it ran to the end, or a fault was caught before the first write, or a fault was
      caught after some writes had been made. */
  datatype PassOutcome = Indexed | AbortedBeforeWrites | AbortedDuringWrites

  /** The signature reader's two entry points: `accept`, which the descriptor loop calls on a whole descriptor
      or signature, and `acceptType`, which the constant-pool scan calls on an array class name and which
      parses a single type. */
  datatype SignatureReaders = SignatureReaders(accept: SignatureReader, acceptType: SignatureReader)

  // ---------------------------------------------------------------------------------------------
  // What a pass collects, as functions of its input.

  /** The class types the signature reader reports for the descriptors of `ds` it does not throw on. */
  function TypesOf(ds: set<string>, accept: SignatureReader): set<Sym> {
    set d, t | d in ds && accept(d).Some? && t in accept(d).value :: Sym(t)
  }

  lemma TypesOfStep(ds: set<string>, d: string, accept: SignatureReader)
    requires accept(d).Some?
    ensures TypesOf(ds + {d}, accept) == TypesOf(ds, accept) + SymsOf(accept(d).value)
  {
  }

  /** The class types the signature reader reports across all pending descriptors, or `None` when it throws
      on one of them. */
  function DescriptorTypes(ds: set<string>, accept: SignatureReader): (r: Option<set<Sym>>)
    ensures r.Some? <==> forall d :: d in ds ==> accept(d).Some?
    ensures r.Some? ==> Null !in r.value
    ensures r.Some? ==> forall t :: Sym(t) in r.value <==>
                          exists d :: d in ds && accept(d).Some? && t in accept(d).value
  {
    if forall d :: d in ds ==> accept(d).Some?
    then Some(TypesOf(ds, accept))
    else None
  }

  /** The eleven working sets after a fault-free collection phase over class `cf`, or `None` when a fault
      ends the pass before the writes: the structural visit, then the class types of every pending
      descriptor, then the constant-pool scan. */
  function Collect(cf: ClassFile, readers: SignatureReaders): Option<SymbolTable> {
    var structural := StructureTable(cf.structure);
    match DescriptorTypes(structural.descriptors, readers.accept)
    case None => None
    case Some(types) =>
      var scan := Scan(cf.pool, readers.acceptType);
      if scan.ok then Some(Merge(structural.(typeReferences := structural.typeReferences + types), scan.refs))
      else None
  }

  /** `input` is `None` when the entry's bytes cannot be parsed as a class file at all. */
  function Collected(input: Option<ClassFile>, readers: SignatureReaders): Option<SymbolTable> {
    if input.None? then None else Collect(input.value, readers)
  }

  /** The ten write steps of a pass, in order: the entry under every symbol of the nine symbol sets, then the
      class's own name under every supertype name in `subTypeNames`. */
  function WriteTasks(t: SymbolTable, typeName: Sym, entry: Entry): seq<WriteTask> {
    [ WriteTask("typeDeclarations", t.typeDeclarations, EntryItem(entry)),
      WriteTask("constructorDeclarations", t.constructorDeclarations, EntryItem(entry)),
      WriteTask("methodDeclarations", t.methodDeclarations, EntryItem(entry)),
      WriteTask("fieldDeclarations", t.fieldDeclarations, EntryItem(entry)),
      WriteTask("typeReferences", t.typeReferences, EntryItem(entry)),
      WriteTask("constructorReferences", t.constructorReferences, EntryItem(entry)),
      WriteTask("methodReferences", t.methodReferences, EntryItem(entry)),
      WriteTask("fieldReferences", t.fieldReferences, EntryItem(entry)),
      WriteTask("strings", t.strings, EntryItem(entry)),
      WriteTask("subTypeNames", t.superTypeNames, SubTypeItem(typeName)) ]
  }

  /** The write steps of a pass over `input` whose collection phase completed. */
  function PassTasks(input: Option<ClassFile>, readers: SignatureReaders, entry: Entry): seq<WriteTask>
    requires Collected(input, readers).Some?
  {
    WriteTasks(Collected(input, readers).value, Sym(input.value.structure.name), entry)
  }

  // ---------------------------------------------------------------------------------------------
  // Writing.

  /** `addToIndex`, and the `subTypeNames` loop, which does the same with the class's own name as the item:
      when `keys` is empty nothing is looked up; otherwise the index is looked up (a missing one is `null`)
      and `item` is appended to the collection of every key, visited in no particular order; a missing index
      or collection faults. `done` is the set of keys already written when it faults. */
  method AddToIndex(indexes: Indexes, indexName: string, keys: set<Sym>, item: Item) returns (ok: bool, ghost done: set<Sym>)
    modifies indexes
    ensures ok <==> TaskOk(old(indexes.store), WriteTask(indexName, keys, item))
    ensures keys == {} ==> ok && indexes.store == old(indexes.store)
    ensures ok ==> indexes.store == Apply(old(indexes.store), WriteTask(indexName, keys, item))
    ensures !ok ==> StoppedPartway(old(indexes.store), WriteTask(indexName, keys, item), done, indexes.store)
  {
    done := {};
    if keys == {} {
      return true, done;
    }
    if indexName !in indexes.store {
      return false, done;
    }
    ghost var before := indexes.store;
    AppendedNothing(before[indexName], item);
    var rest := keys;
    while rest != {}
      invariant rest <= keys && done == keys - rest
      invariant done <= before[indexName].Keys
      invariant indexes.store == before[indexName := Appended(before[indexName], done, item)]
      decreases rest
    {
      var key :| key in rest;
      if key !in indexes.store[indexName] {
        return false, done;
      }
      AppendedStep(before[indexName], done, key, item);
      var index := indexes.store[indexName];
      indexes.store := indexes.store[indexName := index[key := index[key] + [item]]];
      rest := rest - {key};
      done := done + {key};
    }
    assert done == keys;
    return true, done;
  }

  /** The steps of a sequence run one after the other. */
  lemma ApplyTasksStep(store: Store, ts: seq<WriteTask>, j: nat)
    requires j < |ts| && ApplyTasks(store, ts[..j]).Some? && TaskOk(ApplyTasks(store, ts[..j]).value, ts[j])
    ensures ApplyTasks(store, ts[..j + 1]) == Some(Apply(ApplyTasks(store, ts[..j]).value, ts[j]))
  {
    assert ts[..j + 1][..j] == ts[..j];
  }

  /** A write step that ran to its end extends the prefix that ran; one cut short leaves the pass stopped
      there, and the steps as a whole do not run to their end. */
  lemma WriteStep(s0: Store, ts: seq<WriteTask>, j: nat, ok: bool, done: set<Sym>, before: Store, after: Store)
    requires j < |ts| && ApplyTasks(s0, ts[..j]) == Some(before)
    requires ok <==> TaskOk(before, ts[j])
    requires ok ==> after == Apply(before, ts[j])
    requires !ok ==> StoppedPartway(before, ts[j], done, after)
    ensures ok ==> ApplyTasks(s0, ts[..j + 1]) == Some(after)
    ensures !ok ==> StoppedAt(s0, ts, j, done, after) && ApplyTasks(s0, ts).None?
  {
    if ok {
      ApplyTasksStep(s0, ts, j);
    } else {
      ApplyTasksStuck(s0, ts, j);
    }
  }

  /** Write step `j` of the steps `ts` that began on store `s0`, the steps before it having run to their end. */
  method AddToIndexStep(indexes: Indexes, ghost s0: Store, ghost ts: seq<WriteTask>, ghost j: nat,
                        indexName: string, keys: set<Sym>, item: Item) returns (ok: bool, ghost done: set<Sym>)
    requires j < |ts| && ts[j] == WriteTask(indexName, keys, item)
    requires ApplyTasks(s0, ts[..j]) == Some(indexes.store)
    modifies indexes
    ensures ok ==> ApplyTasks(s0, ts[..j + 1]) == Some(indexes.store)
    ensures !ok ==> StoppedAt(s0, ts, j, done, indexes.store) && ApplyTasks(s0, ts).None?
  {
    ghost var before := indexes.store;
    ok, done := AddToIndex(indexes, indexName, keys, item);
    WriteStep(s0, ts, j, ok, done, before, indexes.store);
  }

  // ---------------------------------------------------------------------------------------------
  // Lemmas about a pass.

  /** The declaration sets, supertype names and descriptors of a completed collection phase come from the
      structural visit alone: the class's own name as its one type declaration, its super name (`Null`
      included) with every interface, and what its members and annotations declare. */
  lemma CollectedDeclarations(cf: ClassFile, readers: SignatureReaders)
    requires Collect(cf, readers).Some?
    ensures var t := Collect(cf, readers).value;
            var s := StructureTable(cf.structure);
      && t.typeDeclarations == {Sym(cf.structure.name)}
      && t.superTypeNames == {cf.structure.superName} + SymsOfSeq(cf.structure.interfaces)
      && t.constructorDeclarations == s.constructorDeclarations
      && t.methodDeclarations == s.methodDeclarations
      && t.fieldDeclarations == s.fieldDeclarations
      && t.descriptors == s.descriptors
  {
    var s := StructureTable(cf.structure);
    HeaderDeclarations(cf.structure);
    ScanOnlyReferences(cf.pool, readers.acceptType, 1);
    MergeScanned(s, DescriptorTypes(s.descriptors, readers.accept).value, Scan(cf.pool, readers.acceptType).refs);
  }

  /** The type references of a completed collection phase are the thrown exception types, the class types of
      every descriptor and signature, and the types the scan found. */
  lemma CollectedTypeReferences(cf: ClassFile, readers: SignatureReaders)
    requires Collect(cf, readers).Some?
    ensures var s := StructureTable(cf.structure);
      Collect(cf, readers).value.typeReferences
        == s.typeReferences + DescriptorTypes(s.descriptors, readers.accept).value + Scan(cf.pool, readers.acceptType).refs.typeReferences
  {
    var s := StructureTable(cf.structure);
    ScanOnlyReferences(cf.pool, readers.acceptType, 1);
    MergeScanned(s, DescriptorTypes(s.descriptors, readers.accept).value, Scan(cf.pool, readers.acceptType).refs);
  }

  /** The constructor, method and field references and the strings of a completed collection phase come from
      the scan alone. */
  lemma CollectedReferences(cf: ClassFile, readers: SignatureReaders)
    requires Collect(cf, readers).Some?
    ensures var t := Collect(cf, readers).value;
            var scan := Scan(cf.pool, readers.acceptType).refs;
      && t.constructorReferences == scan.constructorReferences
      && t.methodReferences == scan.methodReferences
      && t.fieldReferences == scan.fieldReferences
      && t.strings == scan.strings
  {
    var s := StructureTable(cf.structure);
    StructureReferencesNothing(cf.structure);
    ScanOnlyReferences(cf.pool, readers.acceptType, 1);
    MergeScanned(s, DescriptorTypes(s.descriptors, readers.accept).value, Scan(cf.pool, readers.acceptType).refs);
  }

  /** Merging a table that declares nothing into the structural one with extra type references keeps every
      declaration set and the descriptors, and adds to the reference sets. */
  lemma MergeScanned(s: SymbolTable, types: set<Sym>, scan: SymbolTable)
    requires OnlyReferences(scan)
    ensures var t := Merge(s.(typeReferences := s.typeReferences + types), scan);
      && t.typeDeclarations == s.typeDeclarations && t.superTypeNames == s.superTypeNames
      && t.constructorDeclarations == s.constructorDeclarations
      && t.methodDeclarations == s.methodDeclarations
      && t.fieldDeclarations == s.fieldDeclarations
      && t.descriptors == s.descriptors
      && t.typeReferences == s.typeReferences + types + scan.typeReferences
      && t.constructorReferences == s.constructorReferences + scan.constructorReferences
      && t.methodReferences == s.methodReferences + scan.methodReferences
      && t.fieldReferences == s.fieldReferences + scan.fieldReferences
      && t.strings == s.strings + scan.strings
  {
  }

  /** After a pass that ran to its end, the entry is recorded under the class's own name in
      `typeDeclarations`. */
  lemma IndexedPassDeclaresType(store: Store, input: Option<ClassFile>, readers: SignatureReaders, entry: Entry)
    requires Collected(input, readers).Some?
    requires ApplyTasks(store, PassTasks(input, readers, entry)).Some?
    ensures var after := ApplyTasks(store, PassTasks(input, readers, entry)).value;
      && "typeDeclarations" in after && Sym(input.value.structure.name) in after["typeDeclarations"]
      && EntryItem(entry) in after["typeDeclarations"][Sym(input.value.structure.name)]
  {
    CollectedDeclarations(input.value, readers);
    ApplyTasksRecords(store, PassTasks(input, readers, entry), 0, Sym(input.value.structure.name));
  }

  /** Write steps that all succeed leave `item` recorded in each declaration index under every symbol of the
      matching set of `t`. */
  lemma WriteTasksRecordDeclarations(store: Store, t: SymbolTable, typeName: Sym, entry: Entry)
    requires ApplyTasks(store, WriteTasks(t, typeName, entry)).Some?
    ensures var after := ApplyTasks(store, WriteTasks(t, typeName, entry)).value;
      && (forall x :: x in t.typeDeclarations ==> Recorded(after, "typeDeclarations", x, EntryItem(entry)))
      && (forall x :: x in t.constructorDeclarations ==> Recorded(after, "constructorDeclarations", x, EntryItem(entry)))
      && (forall x :: x in t.methodDeclarations ==> Recorded(after, "methodDeclarations", x, EntryItem(entry)))
      && (forall x :: x in t.fieldDeclarations ==> Recorded(after, "fieldDeclarations", x, EntryItem(entry)))
  {
    var ts := WriteTasks(t, typeName, entry);
    var e := EntryItem(entry);
    ApplyTasksRecordsStep(store, ts, 0, "typeDeclarations", t.typeDeclarations, e);
    ApplyTasksRecordsStep(store, ts, 1, "constructorDeclarations", t.constructorDeclarations, e);
    ApplyTasksRecordsStep(store, ts, 2, "methodDeclarations", t.methodDeclarations, e);
    ApplyTasksRecordsStep(store, ts, 3, "fieldDeclarations", t.fieldDeclarations, e);
  }

  /** Write steps that all succeed leave `item` recorded in each reference index and in `strings` under every
      symbol of the matching set of `t`. */
  lemma WriteTasksRecordReferences(store: Store, t: SymbolTable, typeName: Sym, entry: Entry)
    requires ApplyTasks(store, WriteTasks(t, typeName, entry)).Some?
    ensures var after := ApplyTasks(store, WriteTasks(t, typeName, entry)).value;
      && (forall x :: x in t.typeReferences ==> Recorded(after, "typeReferences", x, EntryItem(entry)))
      && (forall x :: x in t.constructorReferences ==> Recorded(after, "constructorReferences", x, EntryItem(entry)))
      && (forall x :: x in t.methodReferences ==> Recorded(after, "methodReferences", x, EntryItem(entry)))
      && (forall x :: x in t.fieldReferences ==> Recorded(after, "fieldReferences", x, EntryItem(entry)))
      && (forall x :: x in t.strings ==> Recorded(after, "strings", x, EntryItem(entry)))
  {
    var ts := WriteTasks(t, typeName, entry);
    var e := EntryItem(entry);
    ApplyTasksRecordsStep(store, ts, 4, "typeReferences", t.typeReferences, e);
    ApplyTasksRecordsStep(store, ts, 5, "constructorReferences", t.constructorReferences, e);
    ApplyTasksRecordsStep(store, ts, 6, "methodReferences", t.methodReferences, e);
    ApplyTasksRecordsStep(store, ts, 7, "fieldReferences", t.fieldReferences, e);
    ApplyTasksRecordsStep(store, ts, 8, "strings", t.strings, e);
  }

  /** After a pass that ran to its end, the entry is recorded in each declaration index under every symbol of
      the matching working set. */
  lemma IndexedPassRecordsDeclarations(store: Store, input: Option<ClassFile>, readers: SignatureReaders, entry: Entry)
    requires Collected(input, readers).Some?
    requires ApplyTasks(store, PassTasks(input, readers, entry)).Some?
    ensures var t := Collected(input, readers).value;
            var after := ApplyTasks(store, PassTasks(input, readers, entry)).value;
      && (forall x :: x in t.typeDeclarations ==> Recorded(after, "typeDeclarations", x, EntryItem(entry)))
      && (forall x :: x in t.constructorDeclarations ==> Recorded(after, "constructorDeclarations", x, EntryItem(entry)))
      && (forall x :: x in t.methodDeclarations ==> Recorded(after, "methodDeclarations", x, EntryItem(entry)))
      && (forall x :: x in t.fieldDeclarations ==> Recorded(after, "fieldDeclarations", x, EntryItem(entry)))
  {
    WriteTasksRecordDeclarations(store, Collected(input, readers).value, Sym(input.value.structure.name), entry);
  }

  /** After a pass that ran to its end, the entry is recorded in each reference index and in `strings` under
      every symbol of the matching working set. */
  lemma IndexedPassRecordsReferences(store: Store, input: Option<ClassFile>, readers: SignatureReaders, entry: Entry)
    requires Collected(input, readers).Some?
    requires ApplyTasks(store, PassTasks(input, readers, entry)).Some?
    ensures var t := Collected(input, readers).value;
            var after := ApplyTasks(store, PassTasks(input, readers, entry)).value;
      && (forall x :: x in t.typeReferences ==> Recorded(after, "typeReferences", x, EntryItem(entry)))
      && (forall x :: x in t.constructorReferences ==> Recorded(after, "constructorReferences", x, EntryItem(entry)))
      && (forall x :: x in t.methodReferences ==> Recorded(after, "methodReferences", x, EntryItem(entry)))
      && (forall x :: x in t.fieldReferences ==> Recorded(after, "fieldReferences", x, EntryItem(entry)))
      && (forall x :: x in t.strings ==> Recorded(after, "strings", x, EntryItem(entry)))
  {
    WriteTasksRecordReferences(store, Collected(input, readers).value, Sym(input.value.structure.name), entry);
  }

  /** After a pass that ran to its end, the entry is recorded in `typeReferences` under the name of every
      CONSTANT_Class entry of the pool that does not start with `[`. */
  lemma IndexedPassRecordsClassReference(store: Store, input: Option<ClassFile>, readers: SignatureReaders,
                                         entry: Entry, i: nat)
    requires Collected(input, readers).Some?
    requires ApplyTasks(store, PassTasks(input, readers, entry)).Some?
    requires 1 <= i < |input.value.pool| && input.value.pool[i].Class? && !IsArrayClass(input.value.pool[i])
    ensures Recorded(ApplyTasks(store, PassTasks(input, readers, entry)).value, "typeReferences",
                     input.value.pool[i].name, EntryItem(entry))
  {
    var cf := input.value;
    CollectedTypeReferences(cf, readers);
    ScannedTypeReferences(cf.pool, readers.acceptType);
    IndexedPassRecordsReferences(store, input, readers, entry);
  }

  /** After a pass that ran to its end, the class's own name is recorded in `subTypeNames` under its super
      name (`Null` for a class without one) and under every interface it implements. */
  lemma IndexedPassRecordsSubType(store: Store, input: Option<ClassFile>, readers: SignatureReaders, entry: Entry)
    requires Collected(input, readers).Some?
    requires ApplyTasks(store, PassTasks(input, readers, entry)).Some?
    ensures var after := ApplyTasks(store, PassTasks(input, readers, entry)).value;
            var cs := input.value.structure;
      && "subTypeNames" in after
      && cs.superName in after["subTypeNames"]
      && SubTypeItem(Sym(cs.name)) in after["subTypeNames"][cs.superName]
      && forall i :: 0 <= i < |cs.interfaces| ==>
           Sym(cs.interfaces[i]) in after["subTypeNames"]
           && SubTypeItem(Sym(cs.name)) in after["subTypeNames"][Sym(cs.interfaces[i])]
  {
    var cs := input.value.structure;
    var ts := PassTasks(input, readers, entry);
    CollectedDeclarations(input.value, readers);
    ApplyTasksRecords(store, ts, 9, cs.superName);
    forall i | 0 <= i < |cs.interfaces|
      ensures Sym(cs.interfaces[i]) in ApplyTasks(store, ts).value["subTypeNames"]
      ensures SubTypeItem(Sym(cs.name)) in ApplyTasks(store, ts).value["subTypeNames"][Sym(cs.interfaces[i])]
    {
      assert Sym(cs.interfaces[i]) in SymsOfSeq(cs.interfaces);
      ApplyTasksRecords(store, ts, 9, Sym(cs.interfaces[i]));
    }
  }

  /** After a pass that ran to its end, the entry is recorded under every string constant of the pool. */
  lemma IndexedPassRecordsStrings(store: Store, input: Option<ClassFile>, readers: SignatureReaders, entry: Entry,
                                  i: nat)
    requires Collected(input, readers).Some?
    requires ApplyTasks(store, PassTasks(input, readers, entry)).Some?
    requires 1 <= i < |input.value.pool| && input.value.pool[i].Str?
    ensures var after := ApplyTasks(store, PassTasks(input, readers, entry)).value;
      && "strings" in after && input.value.pool[i].s in after["strings"]
      && EntryItem(entry) in after["strings"][input.value.pool[i].s]
  {
    CollectedReferences(input.value, readers);
    ScannedStrings(input.value.pool, readers.acceptType);
    ApplyTasksRecords(store, PassTasks(input, readers, entry), 8, input.value.pool[i].s);
  }

  /** Whatever the outcome, a pass only appends: every index and key that existed still exists, and every
      collection still begins with what it held before. */
  lemma PassOnlyAppends(store: Store, ts: seq<WriteTask>, outcome: PassOutcome, k: nat, done: set<Sym>, after: Store)
    requires outcome == AbortedBeforeWrites ==> after == store
    requires outcome == Indexed ==> ApplyTasks(store, ts).Some? && after == ApplyTasks(store, ts).value
    requires outcome == AbortedDuringWrites ==> StoppedAt(store, ts, k, done, after)
    ensures Extends(store, after)
  {
    match outcome {
      case AbortedBeforeWrites =>
      case Indexed => ApplyTasksExtends(store, ts);
      case AbortedDuringWrites => StoppedAtExtends(store, ts, k, done, after);
    }
  }

  // ---------------------------------------------------------------------------------------------
  // The provider.

  class ClassFileIndexerProvider {
    /** The eleven working sets, shared with the two visitors below. */
    const sets: SymbolSets
    const classIndexer: ClassIndexer
    const signatureIndexer: SignatureIndexer

    ghost predicate Valid() {
      classIndexer.Valid() && classIndexer.sets == sets && signatureIndexer.sets == sets
    }

    constructor ()
      ensures Valid() && sets.table == EmptyTable && classIndexer.name == Null
    {
      var s := new SymbolSets();
      sets := s;
      classIndexer := new ClassIndexer(s);
      signatureIndexer := new SignatureIndexer(s);
    }

    /** The local selector, after the external selectors when there are any. `externalSelectors` is `None`
        when the provider was configured without them. */
    method GetSelectors(externalSelectors: Option<seq<string>>) returns (selectors: array<string>)
      ensures fresh(selectors)
      ensures externalSelectors.None? ==> selectors[..] == [ClassFileSelector]
      ensures externalSelectors.Some? ==> selectors[..] == externalSelectors.value + [ClassFileSelector]
    {
      if externalSelectors.None? {
        selectors := new string[1];
        selectors[0] := ClassFileSelector;
      } else {
        var external := externalSelectors.value;
        var size := |external|;
        selectors := new string[size + 1];
        var i := 0;
        while i < size
          invariant 0 <= i <= size
          invariant selectors[..i] == external[..i]
        {
          selectors[i] := external[i];
          i := i + 1;
        }
        selectors[size] := ClassFileSelector;
        assert selectors[..] == selectors[..size] + [selectors[size]];
      }
    }

    /** One pass over the class file read from `entry`. `input` is the parsed class file, `None` when the
        bytes cannot be parsed; `readers` stands for the two entry points of the signature reader. `k` and
        `done` locate the write step a fault cut short. */
    method Index(entry: Entry, input: Option<ClassFile>, readers: SignatureReaders, indexes: Indexes)
      returns (outcome: PassOutcome, ghost k: nat, ghost done: set<Sym>)
      requires Valid()
      modifies sets, classIndexer, indexes
      ensures outcome == AbortedBeforeWrites <==> Collected(input, readers).None?
      ensures outcome == AbortedBeforeWrites ==> indexes.store == old(indexes.store)
      ensures outcome != AbortedBeforeWrites ==>
                && Collected(input, readers).Some?
                && sets.table == Collected(input, readers).value
                && classIndexer.name == Sym(input.value.structure.name)
      ensures outcome == Indexed ==>
                && ApplyTasks(old(indexes.store), PassTasks(input, readers, entry)).Some?
                && indexes.store == ApplyTasks(old(indexes.store), PassTasks(input, readers, entry)).value
      ensures outcome == AbortedDuringWrites ==>
                && ApplyTasks(old(indexes.store), PassTasks(input, readers, entry)).None?
                && StoppedAt(old(indexes.store), PassTasks(input, readers, entry), k, done, indexes.store)
    {
      k, done := 0, {};
      var collected := CollectSymbols(input, readers);
      if !collected {
        return AbortedBeforeWrites, k, done;
      }
      var typeName := classIndexer.name;
      var written;
      written, k, done := WriteIndexes(indexes, entry, typeName);
      outcome := if written then Indexed else AbortedDuringWrites;
    }

    /** Everything before the first write: the clearing, the structural visit, the descriptor loop and
        the constant-pool scan. `ok` is false when a fault ended the pass. */
    method CollectSymbols(input: Option<ClassFile>, readers: SignatureReaders) returns (ok: bool)
      requires Valid()
      modifies sets, classIndexer
      ensures ok <==> Collected(input, readers).Some?
      ensures ok ==> sets.table == Collected(input, readers).value
                     && classIndexer.name == Sym(input.value.structure.name)
    {
      sets.Clear();
      if input.None? {
        return false;
      }
      var cf := input.value;
      AcceptClass(cf.structure, classIndexer);
      assert sets.table == StructureTable(cf.structure) by {
        MergeEmptyLeft(StructureTable(cf.structure));
      }
      ok := ResolveReferences(cf, readers);
    }

    /** After the structural visit: the descriptor loop, then the constant-pool scan. */
    method ResolveReferences(cf: ClassFile, readers: SignatureReaders) returns (ok: bool)
      requires Valid()
      requires sets.table == StructureTable(cf.structure)
      modifies sets
      ensures ok <==> Collect(cf, readers).Some?
      ensures ok ==> sets.table == Collect(cf, readers).value
    {
      ok := IndexDescriptors(readers.accept);
      if !ok {
        return;
      }
      ok := ScanConstantPool(cf.pool, readers.acceptType);
    }

    /** The descriptor loop: every pending descriptor, in no particular order, goes through the signature
        reader, whose class types become type references. The loop ends at the first descriptor the reader
        throws on. */
    method IndexDescriptors(accept: SignatureReader) returns (ok: bool)
      requires Valid()
      modifies sets
      ensures ok <==> DescriptorTypes(old(sets.table).descriptors, accept).Some?
      ensures ok ==> sets.table == old(sets.table).(typeReferences := old(sets.table).typeReferences
                                      + DescriptorTypes(old(sets.table).descriptors, accept).value)
    {
      ghost var start := sets.table;
      var rest := sets.table.descriptors;
      while rest != {}
        invariant rest <= start.descriptors
        invariant forall d :: d in start.descriptors - rest ==> accept(d).Some?
        invariant sets.table == start.(typeReferences := start.typeReferences + TypesOf(start.descriptors - rest, accept))
        decreases rest
      {
        var d :| d in rest;
        ok := AcceptSignature(d, accept, signatureIndexer);
        if !ok {
          return false;
        }
        TypesOfStep(start.descriptors - rest, d, accept);
        assert start.descriptors - (rest - {d}) == (start.descriptors - rest) + {d};
        rest := rest - {d};
      }
      assert start.descriptors - rest == start.descriptors;
      return true;
    }

    /** The constant-pool scan: slots from the highest down to 1, each read as `ScanEntry` does. The scan ends
        at the first slot whose reading faults. */
    method ScanConstantPool(pool: seq<CpEntry>, acceptType: SignatureReader) returns (ok: bool)
      requires Valid()
      modifies sets
      ensures ok <==> Scan(pool, acceptType).ok
      ensures ok ==> sets.table == Merge(old(sets.table), Scan(pool, acceptType).refs)
    {
      ghost var start := sets.table;
      MergeEmpty(start);
      var i := |pool| - 1;
      while i > 0
        invariant -1 <= i < |pool| && (i == -1 ==> |pool| == 0)
        invariant ScanDownTo(pool, acceptType, if i < 0 then 1 else i + 1).ok
        invariant sets.table == Merge(start, ScanDownTo(pool, acceptType, if i < 0 then 1 else i + 1).refs)
      {
        ok := ScanEntry(pool, i, acceptType);
        if !ok {
          ScanOkAbove(pool, acceptType, 1);
          return false;
        }
        MergeAssociative(start, ScanDownTo(pool, acceptType, i + 1).refs, EntryRefs(pool, i, acceptType).value);
        i := i - 1;
      }
      assert ScanDownTo(pool, acceptType, if i < 0 then 1 else i + 1) == Scan(pool, acceptType);
      return true;
    }

    /** One slot of the scan: a slot whose offset is 0 is skipped; otherwise its tag selects what is read. */
    method ScanEntry(pool: seq<CpEntry>, i: nat, acceptType: SignatureReader) returns (ok: bool)
      requires Valid() && 0 < i < |pool|
      modifies sets
      ensures ok <==> EntryRefs(pool, i, acceptType).Some?
      ensures ok ==> sets.table == Merge(old(sets.table), EntryRefs(pool, i, acceptType).value)
    {
      ghost var start := sets.table;
      MergeEmpty(start);
      ok := true;
      if pool[i].Unused? {
        return;
      }
      match pool[i] {
        case Class(className) =>
          if className.Null? {
            return false;
          }
          if IsArrayDescriptor(className.name) {
            ok := AcceptSignature(className.name, acceptType, signatureIndexer);
          } else {
            sets.table := sets.table.(typeReferences := sets.table.typeReferences + {className});
          }
        case Str(str) =>
          sets.table := sets.table.(strings := sets.table.strings + {str});
        case FieldRef(_, nameAndTypeItem) =>
          var nameAndType := TaggedEntryAt(pool, nameAndTypeItem);
          if nameAndType.None? {
            return false;
          }
          if nameAndType.value.NameAndType? {
            sets.table := sets.table.(fieldReferences := sets.table.fieldReferences + {nameAndType.value.name});
          }
        case MethodRef(classItem, nameAndTypeItem) =>
          ok := ScanMethodRef(pool, classItem, nameAndTypeItem);
        case IfaceMethodRef(classItem, nameAndTypeItem) =>
          ok := ScanMethodRef(pool, classItem, nameAndTypeItem);
        case NameAndType(_) =>
        case Other(_) =>
      }
    }

    /** A Methodref or InterfaceMethodref slot: the linked NameAndType entry's name, or, for `<init>`, the
        name of the owner class entry. */
    method ScanMethodRef(pool: seq<CpEntry>, classItem: nat, nameAndTypeItem: nat) returns (ok: bool)
      requires Valid()
      modifies sets
      ensures ok <==> MethodRefRefs(pool, classItem, nameAndTypeItem).Some?
      ensures ok ==> sets.table == Merge(old(sets.table), MethodRefRefs(pool, classItem, nameAndTypeItem).value)
    {
      ghost var start := sets.table;
      MergeEmpty(start);
      var nameAndType := TaggedEntryAt(pool, nameAndTypeItem);
      if nameAndType.None? {
        return false;
      }
      ok := true;
      if nameAndType.value.NameAndType? {
        var methodName := nameAndType.value.name;
        if methodName == Sym(ConstructorName) {
          var className := NameAt(pool, classItem);
          if className.None? {
            return false;
          }
          sets.table := sets.table.(constructorReferences := sets.table.constructorReferences + {className.value});
        } else {
          sets.table := sets.table.(methodReferences := sets.table.methodReferences + {methodName});
        }
      }
    }

    /** The write phase: the nine `addToIndex` calls, then the `subTypeNames` loop. `ok` is false when one of
        them faulted; `k` is that step and `done` the keys it had already written. */
    method WriteIndexes(indexes: Indexes, entry: Entry, typeName: Sym) returns (ok: bool, ghost k: nat, ghost done: set<Sym>)
      modifies indexes
      ensures ok <==> ApplyTasks(old(indexes.store), WriteTasks(sets.table, typeName, entry)).Some?
      ensures ok ==> indexes.store == ApplyTasks(old(indexes.store), WriteTasks(sets.table, typeName, entry)).value
      ensures !ok ==> StoppedAt(old(indexes.store), WriteTasks(sets.table, typeName, entry), k, done, indexes.store)
    {
      ghost var ts := WriteTasks(sets.table, typeName, entry);
      ghost var s0 := indexes.store;
      assert ts[..0] == [];
      ok, k, done := WriteDeclarations(indexes, s0, ts, entry, typeName);
      if !ok { return; }
      ok, k, done := WriteReferences(indexes, s0, ts, entry, typeName);
      if !ok { return; }
      ok, k, done := WriteFieldReferencesAndStrings(indexes, s0, ts, entry, typeName);
      if !ok { return; }
      k := 9;
      ok, done := AddToIndexStep(indexes, s0, ts, k, "subTypeNames", sets.table.superTypeNames, SubTypeItem(typeName));
      assert ts[..10] == ts;
    }

    /** Write steps 0 to 3: the four declaration sets. */
    method WriteDeclarations(indexes: Indexes, ghost s0: Store, ghost ts: seq<WriteTask>, entry: Entry, typeName: Sym)
      returns (ok: bool, ghost k: nat, ghost done: set<Sym>)
      requires ts == WriteTasks(sets.table, typeName, entry)
      requires ApplyTasks(s0, ts[..0]) == Some(indexes.store)
      modifies indexes
      ensures ok ==> ApplyTasks(s0, ts[..4]) == Some(indexes.store)
      ensures !ok ==> StoppedAt(s0, ts, k, done, indexes.store) && ApplyTasks(s0, ts).None?
    {
      var table := sets.table;
      var item := EntryItem(entry);
      k := 0;
      ok, done := AddToIndexStep(indexes, s0, ts, k, "typeDeclarations", table.typeDeclarations, item);
      if !ok { return; }
      k := 1;
      ok, done := AddToIndexStep(indexes, s0, ts, k, "constructorDeclarations", table.constructorDeclarations, item);
      if !ok { return; }
      k := 2;
      ok, done := AddToIndexStep(indexes, s0, ts, k, "methodDeclarations", table.methodDeclarations, item);
      if !ok { return; }
      k := 3;
      ok, done := AddToIndexStep(indexes, s0, ts, k, "fieldDeclarations", table.fieldDeclarations, item);
      if !ok { return; }
    }

    /** Write steps 4 to 6: the type, constructor and method reference sets. */
    method WriteReferences(indexes: Indexes, ghost s0: Store, ghost ts: seq<WriteTask>, entry: Entry, typeName: Sym)
      returns (ok: bool, ghost k: nat, ghost done: set<Sym>)
      requires ts == WriteTasks(sets.table, typeName, entry)
      requires ApplyTasks(s0, ts[..4]) == Some(indexes.store)
      modifies indexes
      ensures ok ==> ApplyTasks(s0, ts[..7]) == Some(indexes.store)
      ensures !ok ==> StoppedAt(s0, ts, k, done, indexes.store) && ApplyTasks(s0, ts).None?
    {
      var table := sets.table;
      var item := EntryItem(entry);
      k := 4;
      ok, done := AddToIndexStep(indexes, s0, ts, k, "typeReferences", table.typeReferences, item);
      if !ok { return; }
      k := 5;
      ok, done := AddToIndexStep(indexes, s0, ts, k, "constructorReferences", table.constructorReferences, item);
      if !ok { return; }
      k := 6;
      ok, done := AddToIndexStep(indexes, s0, ts, k, "methodReferences", table.methodReferences, item);
      if !ok { return; }
    }

    /** Write steps 7 and 8: the field reference set and the string set. */
    method WriteFieldReferencesAndStrings(indexes: Indexes, ghost s0: Store, ghost ts: seq<WriteTask>, entry: Entry,
                                          typeName: Sym)
      returns (ok: bool, ghost k: nat, ghost done: set<Sym>)
      requires ts == WriteTasks(sets.table, typeName, entry)
      requires ApplyTasks(s0, ts[..7]) == Some(indexes.store)
      modifies indexes
      ensures ok ==> ApplyTasks(s0, ts[..9]) == Some(indexes.store)
      ensures !ok ==> StoppedAt(s0, ts, k, done, indexes.store) && ApplyTasks(s0, ts).None?
    {
      var table := sets.table;
      var item := EntryItem(entry);
      k := 7;
      ok, done := AddToIndexStep(indexes, s0, ts, k, "fieldReferences", table.fieldReferences, item);
      if !ok { return; }
      k := 8;
      ok, done := AddToIndexStep(indexes, s0, ts, k, "strings", table.strings, item);
      if !ok { return; }
    }
  }
}
