# JD-GUI class-file indexer, modelled in Dafny

JD-GUI builds inverted indexes over the contents of the containers it opens. For every `.class` entry, the
class-file indexer provider runs one *pass*:

1. It clears its eleven working sets.
2. It runs a structural visitor over the class. The visitor records the declared type, constructors,
   methods and fields, the supertypes, thrown exception types, and the descriptor or signature strings,
   which are parsed later.
3. It hands every pending descriptor to the signature reader. Each class type the reader reports becomes a
   type reference.
4. It scans the constant pool from the highest slot down to slot 1, dispatching on the tag:
   - a class entry (7) is recorded as a type reference, unless its name starts with `[`: an array name is
     handed to the signature reader's type entry point, and the class types it reports become type
     references;
   - a string entry (8) is recorded directly;
   - field, method and interface-method references (9, 10, 11) are recorded through their NameAndType
     entry (12).

   A UTF-8 index of 0 reads as `null`. A `null` class name faults at the `[` test. A `null` string,
   field name or method name is recorded as `null`.
5. It appends the container entry to nine named indexes, under every symbol of the matching set. Then it
   appends the class's own name under each of its supertypes in `subTypeNames`.

Any exception inside a pass is caught and ends the pass silently.

The model has these modules:

- `Common`: the optional value, and Java `String` references (`Sym`, which may be `Null`).
- `ClassFile`: the class file as the bytecode reader exposes it:
  - the constant pool as a sequence of tagged entries, with `Unused` standing for an offset-0 slot;
  - the declared structure as a record.
- `Symbols`: the eleven working sets as one value (`SymbolTable`), and what each visitor callback adds to
  them, as functions. The lemmas state what the structural visit collects.
- `PoolScan`: the constant-pool scan as functions of the pool, with the exact fault conditions. The lemmas
  state, kind by kind, what the scan collects and that it collects nothing else.
- `IndexStore`: the index storage (`Indexes`, a map from index name to a map from symbol to a growable
  sequence), and the write steps of a pass as a function. The lemmas say that writes only append.
- `Visitors`: the visitor classes. They share one `SymbolSets` object by reference and update it in place.
- `Reader`: the callback traversal of the bytecode library's class reader and signature reader. It is
  written as loops over the structure record, so the effect of a whole visit can be stated.
- `Indexer`: the provider class. It holds `getSelectors`, `index` (split into the collection phase and the
  write phase), `addToIndex`, and the lemmas about a whole pass.

Every method is proved against a specification function of its inputs and old state. For example:

- When `CollectSymbols` reports `ok`, it leaves exactly `Collected(input, readers).value` in the working sets.
- When `Index` reports the `Indexed` outcome, it leaves exactly `ApplyTasks(old store, PassTasks(...))` in
  the store. It states the store left by the other outcomes separately.

The lemmas then state what those functions mean in the source's terms: which symbol ends up in which set,
and under which keys the entry is recorded.

The signature reader is a parameter, `readers: SignatureReaders`. It holds two functions of type
`string -> Option<set<string>>`, one per entry point of the reader: `accept`, used on the descriptors and
signatures, and `acceptType`, used on array class names from the pool. Each gives the class-type names
that entry point would report, or `None` when it throws. The parsed class file is an input,
`Option<ClassFile>`, which is `None` when the bytes cannot be read.

The model follows the code as written, in these points:

- The super name is added to the supertype set without a null check, so a class without one records
  `Null` (`Sym.Null`).
- The values inside array-valued annotation elements are not visited, because the inherited `visitArray`
  returns no visitor.
- A fault anywhere in the collection phase (the structural visit, the signature reader, or a constant-pool
  read) abandons the whole pass, and no index is written.
- A fault during the write phase leaves the writes already made in place.

## Model

All source paths are `services/src/main/java/jd/gui/service/indexer/ClassFileIndexerProvider.java`.

| member | source | states |
|---|---|---|
| ClassFile.Tag | services/src/main/java/jd/gui/service/indexer/ClassFileIndexerProvider.java:91-94 | an entry has a tag byte exactly when its slot offset is not 0, and that tag is a byte value |
| Visitors.SymbolSets.constructor | services/src/main/java/jd/gui/service/indexer/ClassFileIndexerProvider.java:23-33 | the eleven working sets start empty |
| Visitors.SymbolSets.Clear | services/src/main/java/jd/gui/service/indexer/ClassFileIndexerProvider.java:63-73 | after clearing, all eleven sets are empty, so no symbol of an earlier pass survives |
| Visitors.SymbolSets.AddTypeReferences | services/src/main/java/jd/gui/service/indexer/ClassFileIndexerProvider.java:251-255 | the loop over thrown exception types adds every one of them as a type reference and changes no other set |
| Visitors.SignatureIndexer.constructor | services/src/main/java/jd/gui/service/indexer/ClassFileIndexerProvider.java:263-266 | the signature visitor writes into the provider's own working sets |
| Visitors.SignatureIndexer.VisitClassType | services/src/main/java/jd/gui/service/indexer/ClassFileIndexerProvider.java:268-270 | a reported class type becomes a type reference; nothing else changes |
| Visitors.AnnotationIndexer.constructor | services/src/main/java/jd/gui/service/indexer/ClassFileIndexerProvider.java:276-279 | the annotation visitor shares the working sets |
| Visitors.AnnotationIndexer.VisitEnum | services/src/main/java/jd/gui/service/indexer/ClassFileIndexerProvider.java:281-283 | an enum value adds its enum type descriptor to the pending descriptors; nothing else changes |
| Visitors.AnnotationIndexer.VisitAnnotation | services/src/main/java/jd/gui/service/indexer/ClassFileIndexerProvider.java:285-288 | a nested annotation adds its descriptor and returns the same visitor, so nesting is followed to any depth |
| Visitors.FieldIndexer.constructor | services/src/main/java/jd/gui/service/indexer/ClassFileIndexerProvider.java:295-299 | the field visitor shares the working sets and the annotation visitor |
| Visitors.FieldIndexer.VisitAnnotation | services/src/main/java/jd/gui/service/indexer/ClassFileIndexerProvider.java:301-304 | a field annotation's descriptor becomes pending; the shared annotation visitor is returned |
| Visitors.FieldIndexer.VisitTypeAnnotation | services/src/main/java/jd/gui/service/indexer/ClassFileIndexerProvider.java:306-309 | a field type annotation's descriptor becomes pending; the shared annotation visitor is returned |
| Visitors.MethodIndexer.constructor | services/src/main/java/jd/gui/service/indexer/ClassFileIndexerProvider.java:316-320 | the method visitor shares the working sets and the annotation visitor |
| Visitors.MethodIndexer.VisitAnnotation | services/src/main/java/jd/gui/service/indexer/ClassFileIndexerProvider.java:322-325 | a method annotation's descriptor becomes pending; the shared annotation visitor is returned |
| Visitors.MethodIndexer.VisitTypeAnnotation | services/src/main/java/jd/gui/service/indexer/ClassFileIndexerProvider.java:327-330 | a method type annotation's descriptor becomes pending; the shared annotation visitor is returned |
| Visitors.MethodIndexer.VisitParameterAnnotation | services/src/main/java/jd/gui/service/indexer/ClassFileIndexerProvider.java:332-335 | a parameter annotation's descriptor becomes pending; the shared annotation visitor is returned |
| Visitors.ClassIndexer.constructor | services/src/main/java/jd/gui/service/indexer/ClassFileIndexerProvider.java:195-212 | the class visitor and its field, method and annotation helpers all share one set of working sets and one annotation visitor |
| Visitors.ClassIndexer.Visit | services/src/main/java/jd/gui/service/indexer/ClassFileIndexerProvider.java:214-224 | the header stores the class name, declares it as a type, and adds the super name (`Null` included) and every interface to the supertypes |
| Visitors.ClassIndexer.VisitAnnotation | services/src/main/java/jd/gui/service/indexer/ClassFileIndexerProvider.java:226-229 | a class annotation's descriptor becomes pending; the shared annotation visitor is returned |
| Visitors.ClassIndexer.VisitTypeAnnotation | services/src/main/java/jd/gui/service/indexer/ClassFileIndexerProvider.java:231-234 | a class type annotation's descriptor becomes pending; the shared annotation visitor is returned |
| Visitors.ClassIndexer.VisitField | services/src/main/java/jd/gui/service/indexer/ClassFileIndexerProvider.java:236-240 | a field declares its name, and its signature (or its descriptor when it has none) becomes pending |
| Visitors.ClassIndexer.VisitMethod | services/src/main/java/jd/gui/service/indexer/ClassFileIndexerProvider.java:242-257 | `<init>` declares a constructor under the stored class name, `<clinit>` declares nothing, any other name is a method declaration; the signature or descriptor becomes pending; thrown types become type references |
| Reader.AcceptValues | services/src/main/java/jd/gui/service/indexer/ClassFileIndexerProvider.java:281-288 | reading an annotation's element values adds exactly the enum and nested-annotation descriptors, at any depth, skipping array contents |
| Reader.VisitAnnotationHook | services/src/main/java/jd/gui/service/indexer/ClassFileIndexerProvider.java:226-234 | every annotation hook adds the descriptor and returns the one shared annotation visitor |
| Reader.AcceptAnnotations | services/src/main/java/jd/gui/service/indexer/ClassFileIndexerProvider.java:226-229 | visiting a list of annotations adds exactly the descriptors of those annotations and of everything nested in them |
| Reader.AcceptClass | services/src/main/java/jd/gui/service/indexer/ClassFileIndexerProvider.java:79-80 | the structural visit of a class adds exactly `StructureTable` of its structure and leaves its name stored in the visitor |
| Reader.AcceptFields | services/src/main/java/jd/gui/service/indexer/ClassFileIndexerProvider.java:236-240 | visiting every field adds exactly what the fields declare |
| Reader.AcceptMethods | services/src/main/java/jd/gui/service/indexer/ClassFileIndexerProvider.java:242-257 | visiting every method adds exactly what the methods declare, under the stored class name |
| Reader.AcceptField | services/src/main/java/jd/gui/service/indexer/ClassFileIndexerProvider.java:236-240 | one field with its annotations adds exactly its name and its descriptors |
| Reader.AcceptMethod | services/src/main/java/jd/gui/service/indexer/ClassFileIndexerProvider.java:242-257 | one method with its annotations adds exactly its declaration, its thrown types and its descriptors |
| Reader.AcceptParameterAnnotations | services/src/main/java/jd/gui/service/indexer/ClassFileIndexerProvider.java:332-335 | the annotations of every parameter add exactly their descriptors |
| Reader.AcceptSignature | services/src/main/java/jd/gui/service/indexer/ClassFileIndexerProvider.java:84 | parsing one string succeeds exactly when the reader does not throw, and then adds exactly its class types as type references |
| Symbols.ValuesDescriptorsAt | services/src/main/java/jd/gui/service/indexer/ClassFileIndexerProvider.java:281-288 | the descriptors of an annotation's values are exactly the union over its elements |
| Symbols.NestedAnnotationDescriptors | services/src/main/java/jd/gui/service/indexer/ClassFileIndexerProvider.java:285-288 | a nested annotation's descriptor and everything below it is collected |
| Symbols.EnumValueDescriptor | services/src/main/java/jd/gui/service/indexer/ClassFileIndexerProvider.java:281-283 | an enum element's type descriptor is collected |
| Symbols.ArrayValueIgnored | services/src/main/java/jd/gui/service/indexer/ClassFileIndexerProvider.java:273-289 | an array-valued element contributes nothing: removing it leaves the collected descriptors unchanged |
| Symbols.AnnotationsDescriptorsAt | services/src/main/java/jd/gui/service/indexer/ClassFileIndexerProvider.java:226-229 | the descriptors of an annotation list are exactly the union over its annotations |
| Symbols.ParameterAnnotationsDescriptorsAt | services/src/main/java/jd/gui/service/indexer/ClassFileIndexerProvider.java:332-335 | the parameter-annotation descriptors are exactly the union over the parameters |
| Symbols.AnnotationInListCollected | services/src/main/java/jd/gui/service/indexer/ClassFileIndexerProvider.java:226-229 | every annotation in a list has its descriptor and all nested ones collected |
| Symbols.FieldsTableOnlyDeclares | services/src/main/java/jd/gui/service/indexer/ClassFileIndexerProvider.java:236-240 | field visits touch only the field-declaration and descriptor sets |
| Symbols.FieldsTableHas | services/src/main/java/jd/gui/service/indexer/ClassFileIndexerProvider.java:236-240 | every field's name is declared and its descriptors are pending |
| Symbols.FieldsTableNameOrigin | services/src/main/java/jd/gui/service/indexer/ClassFileIndexerProvider.java:237 | every declared field name is some field's name |
| Symbols.FieldsTableNames | services/src/main/java/jd/gui/service/indexer/ClassFileIndexerProvider.java:237 | the declared field names are exactly the fields' names (a structure name is never `null` in the model) |
| Symbols.FieldsTableDescriptorOrigin | services/src/main/java/jd/gui/service/indexer/ClassFileIndexerProvider.java:238 | every pending descriptor from the fields belongs to some field |
| Symbols.MethodsTableOnlyDeclares | services/src/main/java/jd/gui/service/indexer/ClassFileIndexerProvider.java:242-257 | method visits touch only the constructor- and method-declaration, type-reference and descriptor sets |
| Symbols.MethodsTableHas | services/src/main/java/jd/gui/service/indexer/ClassFileIndexerProvider.java:242-257 | each method adds its constructor or method declaration (none for `<clinit>`), its thrown types and its descriptors |
| Symbols.MethodsTableConstructorOrigin | services/src/main/java/jd/gui/service/indexer/ClassFileIndexerProvider.java:243-244 | a constructor declaration is always the class name, and there is an `<init>` method |
| Symbols.MethodsTableNameOrigin | services/src/main/java/jd/gui/service/indexer/ClassFileIndexerProvider.java:245-246 | a method declaration is the name of a method that is neither `<init>` nor `<clinit>` |
| Symbols.MethodsTableThrownOrigin | services/src/main/java/jd/gui/service/indexer/ClassFileIndexerProvider.java:251-255 | a type reference from the methods is a thrown type of some method |
| Symbols.MethodsTableDescriptorOrigin | services/src/main/java/jd/gui/service/indexer/ClassFileIndexerProvider.java:249 | a pending descriptor from the methods belongs to some method |
| Symbols.MethodsTableConstructors | services/src/main/java/jd/gui/service/indexer/ClassFileIndexerProvider.java:243-244 | the constructor declarations are `{class name}` if some method is `<init>`, else empty |
| Symbols.MethodsTableNames | services/src/main/java/jd/gui/service/indexer/ClassFileIndexerProvider.java:243-247 | the method declarations are exactly the method names other than `<init>` and `<clinit>` |
| Symbols.MethodsTableThrown | services/src/main/java/jd/gui/service/indexer/ClassFileIndexerProvider.java:251-255 | the type references from the methods are exactly their thrown types |
| Symbols.HeaderDeclarations | services/src/main/java/jd/gui/service/indexer/ClassFileIndexerProvider.java:214-224 | the class's own name is its only type declaration; the supertypes are the super name (`Null` included) and every interface |
| Symbols.StructureReferencesNothing | services/src/main/java/jd/gui/service/indexer/ClassFileIndexerProvider.java:180-258 | the structural visit records no constructor, method or field reference and no string |
| Symbols.MethodDeclarations | services/src/main/java/jd/gui/service/indexer/ClassFileIndexerProvider.java:242-257 | over the whole class: constructor declarations, method declarations (never `<init>` or `<clinit>`; a structure name is never `null` in the model) and thrown types, both directions |
| Symbols.FieldDeclarations | services/src/main/java/jd/gui/service/indexer/ClassFileIndexerProvider.java:236-240 | over the whole class: the field declarations are exactly the field names |
| Symbols.DescriptorsCollected | services/src/main/java/jd/gui/service/indexer/ClassFileIndexerProvider.java:226-240 | every field's and method's signature-or-descriptor and every annotation descriptor at any nesting is pending |
| Symbols.DescriptorsOrigin | services/src/main/java/jd/gui/service/indexer/ClassFileIndexerProvider.java:226-240 | every pending descriptor comes from a class annotation, a field or a method |
| PoolScan.UnhandledTagsIgnored | services/src/main/java/jd/gui/service/indexer/ClassFileIndexerProvider.java:93-96 | an offset-0 slot, or a tag other than 7 to 11, adds nothing and never faults |
| PoolScan.EntryFaultsExactly | services/src/main/java/jd/gui/service/indexer/ClassFileIndexerProvider.java:97-134 | reading one slot faults exactly in the listed cases: a class entry whose name is `null` (the `startsWith` call), an array class the signature reader throws on, a member reference whose link is index 0, past the table or an offset-0 slot, or an `<init>` reference whose owner class cannot be read |
| PoolScan.ScanOkAbove | services/src/main/java/jd/gui/service/indexer/ClassFileIndexerProvider.java:90 | the scan from the top down to a slot completes exactly when none of those slots faults |
| PoolScan.ScanOnlyReferences | services/src/main/java/jd/gui/service/indexer/ClassFileIndexerProvider.java:90-137 | the scan fills only the reference and string sets |
| PoolScan.ScanCollects | services/src/main/java/jd/gui/service/indexer/ClassFileIndexerProvider.java:90-137 | a completed scan holds everything each visited slot adds |
| PoolScan.ScanOrigin | services/src/main/java/jd/gui/service/indexer/ClassFileIndexerProvider.java:90-137 | a completed scan holds nothing that no visited slot adds |
| PoolScan.ScanCompletes | services/src/main/java/jd/gui/service/indexer/ClassFileIndexerProvider.java:90-137 | the whole scan completes exactly when no slot from 1 upward faults |
| PoolScan.ScannedStrings | services/src/main/java/jd/gui/service/indexer/ClassFileIndexerProvider.java:105-108 | the strings are exactly the payloads of the CONSTANT_String entries in slots 1 and above, `null` included for a string whose UTF-8 index is 0 |
| PoolScan.ScannedTypeReferences | services/src/main/java/jd/gui/service/indexer/ClassFileIndexerProvider.java:97-104 | a class name not starting with `[` is a type reference as it stands; one starting with `[` contributes the class types the reader's type entry point reports instead; nothing else is a type reference, and never `null` |
| PoolScan.ScannedFieldReferences | services/src/main/java/jd/gui/service/indexer/ClassFileIndexerProvider.java:109-117 | the field references are exactly the names of the NameAndType entries Fieldref entries link to, `null` included for a name whose UTF-8 index is 0; a link to another tag adds nothing |
| PoolScan.ScannedMethodReferences | services/src/main/java/jd/gui/service/indexer/ClassFileIndexerProvider.java:118-134 | the method references are exactly the non-`<init>` names, `null` included, linked from Methodref and InterfaceMethodref entries through a NameAndType entry; `<init>` is never one |
| PoolScan.ScannedConstructorReferences | services/src/main/java/jd/gui/service/indexer/ClassFileIndexerProvider.java:125-129 | the constructor references are exactly the owner class names of method references named `<init>` |
| PoolScan.EntryIgnoresSlotZero | services/src/main/java/jd/gui/service/indexer/ClassFileIndexerProvider.java:90-134 | what a slot from 1 upward adds does not depend on slot 0 |
| PoolScan.ScanIgnoresSlotZero | services/src/main/java/jd/gui/service/indexer/ClassFileIndexerProvider.java:90 | the scan never visits slot 0: replacing it changes nothing |
| IndexStore.ApplyExtends | services/src/main/java/jd/gui/service/indexer/ClassFileIndexerProvider.java:170-178 | one completed write step creates and removes no index or key, and only appends |
| IndexStore.ApplyTasksExtends | services/src/main/java/jd/gui/service/indexer/ClassFileIndexerProvider.java:142-159 | a completed write phase only appends |
| IndexStore.StoppedAtExtends | services/src/main/java/jd/gui/service/indexer/ClassFileIndexerProvider.java:142-161 | a write phase cut short by a fault only appends too: earlier writes stay in place |
| IndexStore.ApplyTasksRecords | services/src/main/java/jd/gui/service/indexer/ClassFileIndexerProvider.java:174-176 | after a completed write phase every step's item is in the collection of every key of that step |
| IndexStore.ApplyTasksStuck | services/src/main/java/jd/gui/service/indexer/ClassFileIndexerProvider.java:142-161 | once one write step faults, the write phase as a whole does not complete |
| Indexer.AddToIndex | services/src/main/java/jd/gui/service/indexer/ClassFileIndexerProvider.java:170-178 | an empty set writes nothing and never looks up the index; otherwise the item is appended under every key and nothing else changes, or a missing index or key faults with the keys already written left in place |
| Indexer.CollectedDeclarations | services/src/main/java/jd/gui/service/indexer/ClassFileIndexerProvider.java:79-137 | after collection: one type declaration (the class's name), the super name and interfaces as supertypes, and declarations and descriptors from the structural visit alone |
| Indexer.CollectedTypeReferences | services/src/main/java/jd/gui/service/indexer/ClassFileIndexerProvider.java:79-137 | the type references are the thrown types, plus the class types the reader reports for every pending descriptor, plus those the scan finds |
| Indexer.CollectedReferences | services/src/main/java/jd/gui/service/indexer/ClassFileIndexerProvider.java:88-137 | constructor, method and field references and strings come from the constant-pool scan alone |
| Indexer.IndexedPassDeclaresType | services/src/main/java/jd/gui/service/indexer/ClassFileIndexerProvider.java:142 | after a completed pass the entry is recorded under the class's name in `typeDeclarations` |
| Indexer.IndexedPassRecordsDeclarations | services/src/main/java/jd/gui/service/indexer/ClassFileIndexerProvider.java:142-145 | after a completed pass the entry is recorded in each of the four declaration indexes under every symbol of the matching collected set |
| Indexer.IndexedPassRecordsReferences | services/src/main/java/jd/gui/service/indexer/ClassFileIndexerProvider.java:146-150 | after a completed pass the entry is recorded in each of the four reference indexes and in `strings` under every symbol of the matching collected set |
| Indexer.IndexedPassRecordsClassReference | services/src/main/java/jd/gui/service/indexer/ClassFileIndexerProvider.java:97-104 | after a completed pass the entry is recorded in `typeReferences` under the name of every CONSTANT_Class entry of the pool that does not start with `[` |
| Indexer.IndexedPassRecordsSubType | services/src/main/java/jd/gui/service/indexer/ClassFileIndexerProvider.java:153-159 | after a completed pass the class's own name is recorded in `subTypeNames` under its super name (`Null` for none) and under every interface |
| Indexer.IndexedPassRecordsStrings | services/src/main/java/jd/gui/service/indexer/ClassFileIndexerProvider.java:105-108 | after a completed pass the entry is recorded in `strings` under the payload of every CONSTANT_String of the pool, `null` included |
| Indexer.PassOnlyAppends | services/src/main/java/jd/gui/service/indexer/ClassFileIndexerProvider.java:142-166 | whatever the outcome, a pass only appends: every index, key and earlier item stays where it was |
| Indexer.ClassFileIndexerProvider.constructor | services/src/main/java/jd/gui/service/indexer/ClassFileIndexerProvider.java:23-38 | the provider's two visitors share its working sets, which start empty |
| Indexer.ClassFileIndexerProvider.GetSelectors | services/src/main/java/jd/gui/service/indexer/ClassFileIndexerProvider.java:43-55 | a freshly allocated array: without external selectors it is exactly `["*:file:*.class"]`; otherwise it is the external selectors in order, then `"*:file:*.class"` |
| Indexer.ClassFileIndexerProvider.Index | services/src/main/java/jd/gui/service/indexer/ClassFileIndexerProvider.java:61-167 | a pass aborts before any write exactly when collection faults, leaving the store untouched; otherwise the sets hold what was collected and the store is the completed write phase, or a phase cut short at one step |
| Indexer.ClassFileIndexerProvider.CollectSymbols | services/src/main/java/jd/gui/service/indexer/ClassFileIndexerProvider.java:63-137 | after clearing, the collection phase completes exactly when nothing faults, and then the sets hold exactly what the class contributes |
| Indexer.ClassFileIndexerProvider.ResolveReferences | services/src/main/java/jd/gui/service/indexer/ClassFileIndexerProvider.java:83-137 | after the structural visit, the descriptor loop and the scan complete exactly when neither faults, and then add exactly their symbols |
| Indexer.ClassFileIndexerProvider.IndexDescriptors | services/src/main/java/jd/gui/service/indexer/ClassFileIndexerProvider.java:83-85 | the descriptor loop completes exactly when the reader throws on none of them, and then adds exactly their class types as type references |
| Indexer.ClassFileIndexerProvider.ScanConstantPool | services/src/main/java/jd/gui/service/indexer/ClassFileIndexerProvider.java:90-137 | the descending loop completes exactly when the scan does, and then adds exactly what the scan finds |
| Indexer.ClassFileIndexerProvider.ScanEntry | services/src/main/java/jd/gui/service/indexer/ClassFileIndexerProvider.java:91-135 | one slot adds exactly what it contributes, and faults exactly when reading it faults |
| Indexer.ClassFileIndexerProvider.ScanMethodRef | services/src/main/java/jd/gui/service/indexer/ClassFileIndexerProvider.java:118-134 | a method reference adds its owner class as a constructor reference for `<init>`, else its method name, and only through a NameAndType entry |
| Indexer.ClassFileIndexerProvider.WriteIndexes | services/src/main/java/jd/gui/service/indexer/ClassFileIndexerProvider.java:139-159 | the write phase is the ten write steps of the collected sets run in order, completed or cut short at one step |
| Indexer.ClassFileIndexerProvider.WriteDeclarations | services/src/main/java/jd/gui/service/indexer/ClassFileIndexerProvider.java:142-145 | the four declaration writes complete in order, or the pass stops at the faulting one |
| Indexer.ClassFileIndexerProvider.WriteReferences | services/src/main/java/jd/gui/service/indexer/ClassFileIndexerProvider.java:146-148 | the type, constructor and method reference writes complete in order, or the pass stops at the faulting one |
| Indexer.ClassFileIndexerProvider.WriteFieldReferencesAndStrings | services/src/main/java/jd/gui/service/indexer/ClassFileIndexerProvider.java:149-150 | the field reference and string writes complete in order, or the pass stops at the faulting one |

## Left out

- Byte-level class-file decoding in the bytecode library is not modelled: header parsing, the offset table behind `getItem`, modified UTF-8 in `readUTF8`, and `getMaxStringLength`. The constant pool is a sequence of tagged entries and the structure a record.
- The signature reader's grammar is library code. Its two entry points are the parameters `accept` and `acceptType`, unrelated functions in the model. The library's `accept` parses a whole class or method signature and `acceptType` one type, so on a pool name such as `[Ljava/lang/String;Lfoo/Bar;` they report different class types. The scan uses `acceptType`, as the source does.
- The class file's structure and its constant pool are independent inputs. In a real class file the class name, the super name and the interfaces are CONSTANT_Class entries of the same pool, so they would also be type references; the model does not tie the two together, and its lemmas hold for every pairing.
- `Reader.AcceptSignature`: a reader that throws partway reports nothing in the model, though the library may already have reported some class types. Those partial reports would be lost anyway, because a throw abandons the pass before any write.
- A `readUTF8` on an entry whose first field is not a UTF-8 index is modelled as a fault. The library would decode unrelated bytes there; those bytes are not modelled.
- Opening the input stream, and closing it in the `finally` block, are I/O and are not modelled. The parsed class file is an input, `None` when it cannot be read.
- The `API` argument, `Container.Entry` and `getExternalSelectors` are foreign interfaces. The entry is an opaque value, and the external selectors are an optional input sequence.
- Thread safety is not modelled; the class is documented as unsafe for threads.
- The exception types are not modelled. A caught exception is a `PassOutcome` that says whether it came before or during the writes.
- The working sets after an aborted pass are not stated. The next pass clears them before it reads them.
- The eleven `HashSet` fields are one record of sets held by one object. Their aliasing as separate objects, shared between the provider, the class visitor and the signature visitor, is simplified to sharing that object.
- Iteration order of the `HashSet`s is not modelled. The loops pick set elements in no particular order, and the contracts hold for every order.
- The strings of the declared structure are never `null` in the model: the class name, field and method names, descriptors, interface names, thrown type names and annotation descriptors are plain strings. Only the super name can be `Null`. In the source a UTF-8 index of 0 reads as `null` there too. A `null` field or method name would be added to the declaration sets: a method name passes both `equals` tests at lines 243-246, and a field name is added at line 237. A `null` interface or thrown type would be added at lines 221 and 253. A `null` descriptor would reach `new SignatureReader(null)` at line 84 and abort the pass.
- A `null` interfaces or exceptions array is the empty sequence. The source skips its loop for `null`, which has the same effect.
- Annotation defaults, and callbacks the visitors inherit without change, are not issued: source file, outer and inner classes, attributes and the end markers. They add nothing.
- The bytecode library's visitor API versioning (`Opcodes.ASM5`) is not modelled.
