/** The references the constant-pool scan recovers, as functions of the pool. Indexes are those of the
    constant pool of section 4.4 of the Java Virtual Machine Specification (Java SE 8 edition); slot 0 is
    never a valid entry. */
module PoolScan {
  import opened Common
  import opened ClassFile
  import opened Symbols

  /** A signature reader: the class-type names it reports for a string, or `None` when it throws. The scan
      is given the one `acceptType` stands for, which parses a single type. */
  type SignatureReader = string -> Option<set<string>>

  /** The entry whose tag is read through `readByte(getItem(idx) - 1)`: `None` when the lookup faults,
      that is when `idx` is past the item table or the slot's offset is 0 (it is slot 0 or unused). */
  function TaggedEntryAt(pool: seq<CpEntry>, idx: nat): Option<CpEntry> {
    if idx == 0 || idx >= |pool| || pool[idx].Unused? then None else Some(pool[idx])
  }

  /** `readUTF8(getItem(idx))`: `None` when it faults. An index past the item table faults; a slot whose
      offset is 0 reads as `null`; a Class, String or NameAndType entry reads as the name it points to
      (`null` for a UTF-8 index of 0); an entry of another kind does not begin with a UTF-8 index and is
      treated as a fault. */
  function NameAt(pool: seq<CpEntry>, idx: nat): Option<Sym> {
    if idx >= |pool| then None
    else if idx == 0 || pool[idx].Unused? then Some(Null)
    else match pool[idx]
      case Class(n) => Some(n)
      case Str(s) => Some(s)
      case NameAndType(n) => Some(n)
      case _ => None
  }

  /** A CONSTANT_Class entry whose name starts with `[`. */
  predicate IsArrayClass(e: CpEntry) {
    e.Class? && e.name.Sym? && IsArrayDescriptor(e.name.name)
  }

  /** A Fieldref, Methodref or InterfaceMethodref entry. */
  predicate IsMemberRef(e: CpEntry) {
    e.FieldRef? || e.MethodRef? || e.IfaceMethodRef?
  }

  predicate IsMethodRef(e: CpEntry) {
    e.MethodRef? || e.IfaceMethodRef?
  }

  /** What the scan adds for the entry in slot `i`, or `None` when reading it faults. A Class entry whose name
      reads as `null` faults on `startsWith`; a `null` string or NameAndType name is added as it is. */
  function EntryRefs(pool: seq<CpEntry>, i: nat, acceptType: SignatureReader): Option<SymbolTable>
    requires i < |pool|
  {
    match pool[i]
    case Class(n) =>
      if n.Null? then None
      else if IsArrayDescriptor(n.name) then
        (match acceptType(n.name)
         case None => None
         case Some(ts) => Some(EmptyTable.(typeReferences := SymsOf(ts))))
      else Some(EmptyTable.(typeReferences := {n}))
    case Str(s) => Some(EmptyTable.(strings := {s}))
    case FieldRef(_, natIdx) =>
      (match TaggedEntryAt(pool, natIdx)
       case None => None
       case Some(NameAndType(n)) => Some(EmptyTable.(fieldReferences := {n}))
       case Some(_) => Some(EmptyTable))
    case MethodRef(classIdx, natIdx) => MethodRefRefs(pool, classIdx, natIdx)
    case IfaceMethodRef(classIdx, natIdx) => MethodRefRefs(pool, classIdx, natIdx)
    case Unused => Some(EmptyTable)
    case NameAndType(_) => Some(EmptyTable)
    case Other(_) => Some(EmptyTable)
  }

  function MethodRefRefs(pool: seq<CpEntry>, classIdx: nat, natIdx: nat): Option<SymbolTable> {
    match TaggedEntryAt(pool, natIdx)
    case None => None
    case Some(NameAndType(n)) =>
      if n == Sym(ConstructorName) then
        (match NameAt(pool, classIdx)
         case None => None
         case Some(owner) => Some(EmptyTable.(constructorReferences := {owner})))
      else Some(EmptyTable.(methodReferences := {n}))
    case Some(_) => Some(EmptyTable)
  }

  /** The state of the scan. `refs` is what it has added; `ok` is false once an entry faulted, after which
      nothing more is added. */
  datatype ScanState = ScanState(refs: SymbolTable, ok: bool)

  /** The scan after it has visited slots `|pool| - 1` down to `lo`, highest first. */
  function ScanDownTo(pool: seq<CpEntry>, acceptType: SignatureReader, lo: nat): ScanState
    requires lo >= 1
    decreases |pool| - lo
  {
    if lo >= |pool| then ScanState(EmptyTable, true)
    else
      var above := ScanDownTo(pool, acceptType, lo + 1);
      if !above.ok then above
      else match EntryRefs(pool, lo, acceptType)
        case None => ScanState(above.refs, false)
        case Some(r) => ScanState(Merge(above.refs, r), true)
  }

  /** The whole scan: slots `|pool| - 1` down to 1. */
  function Scan(pool: seq<CpEntry>, acceptType: SignatureReader): ScanState {
    ScanDownTo(pool, acceptType, 1)
  }

  /** The name a NameAndType entry in slot `idx` carries, if there is one. */
  function NameAndTypeAt(pool: seq<CpEntry>, idx: nat): Option<Sym> {
    if 0 < idx < |pool| && pool[idx].NameAndType? then Some(pool[idx].name) else None
  }

  /** When reading the entry in slot `i` faults, stated on the pool. */
  predicate EntryFaults(pool: seq<CpEntry>, i: nat, acceptType: SignatureReader)
    requires i < |pool|
  {
    || pool[i] == Class(Null)
    || (IsArrayClass(pool[i]) && acceptType(pool[i].name.name).None?)
    || (IsMemberRef(pool[i]) && TaggedEntryAt(pool, pool[i].natIdx).None?)
    || (IsMethodRef(pool[i]) && NameAndTypeAt(pool, pool[i].natIdx) == Some(Sym(ConstructorName))
        && NameAt(pool, pool[i].classIdx).None?)
  }

  // ---------------------------------------------------------------------------------------------
  // Lemmas.

  /** An entry whose tag is not 7, 8, 9, 10 or 11, or a slot whose offset is 0, adds nothing and never
      faults. */
  lemma UnhandledTagsIgnored(pool: seq<CpEntry>, i: nat, acceptType: SignatureReader)
    requires i < |pool|
    requires Tag(pool[i]).None? || !(7 <= Tag(pool[i]).value <= 11)
    ensures EntryRefs(pool, i, acceptType) == Some(EmptyTable)
  {
  }

  lemma EntryFaultsExactly(pool: seq<CpEntry>, i: nat, acceptType: SignatureReader)
    requires i < |pool|
    ensures EntryRefs(pool, i, acceptType).None? <==> EntryFaults(pool, i, acceptType)
  {
  }

  /** The scan completes exactly when no entry in slots `lo` and above faults. */
  lemma {:induction false} ScanOkAbove(pool: seq<CpEntry>, acceptType: SignatureReader, lo: nat)
    requires lo >= 1
    ensures ScanDownTo(pool, acceptType, lo).ok <==>
            forall i :: lo <= i < |pool| ==> EntryRefs(pool, i, acceptType).Some?
    decreases |pool| - lo
  {
    if lo < |pool| { ScanOkAbove(pool, acceptType, lo + 1); }
  }

  /** An entry adds only references and strings. */
  lemma EntryOnlyReferences(pool: seq<CpEntry>, i: nat, acceptType: SignatureReader)
    requires i < |pool| && EntryRefs(pool, i, acceptType).Some?
    ensures OnlyReferences(EntryRefs(pool, i, acceptType).value)
  {
  }

  /** The scan fills only the five reference sets. */
  lemma {:induction false} ScanOnlyReferences(pool: seq<CpEntry>, acceptType: SignatureReader, lo: nat)
    requires lo >= 1
    ensures OnlyReferences(ScanDownTo(pool, acceptType, lo).refs)
    decreases |pool| - lo
  {
    if lo < |pool| {
      ScanOnlyReferences(pool, acceptType, lo + 1);
      if ScanDownTo(pool, acceptType, lo + 1).ok && EntryRefs(pool, lo, acceptType).Some? {
        EntryOnlyReferences(pool, lo, acceptType);
      }
    }
  }

  /** The reference sets, by kind, so that one argument covers all five. */
  datatype RefKind = TypeRefs | ConstructorRefs | MethodRefs | FieldRefs | StringConsts

  function RefsOf(t: SymbolTable, kind: RefKind): set<Sym> {
    match kind
    case TypeRefs => t.typeReferences
    case ConstructorRefs => t.constructorReferences
    case MethodRefs => t.methodReferences
    case FieldRefs => t.fieldReferences
    case StringConsts => t.strings
  }

  /** A completed scan holds everything each visited entry adds. */
  lemma {:induction false} ScanCollects(pool: seq<CpEntry>, acceptType: SignatureReader, lo: nat, i: nat,
                                        kind: RefKind)
    requires 1 <= lo <= i < |pool|
    requires ScanDownTo(pool, acceptType, lo).ok
    ensures EntryRefs(pool, i, acceptType).Some?
    ensures RefsOf(EntryRefs(pool, i, acceptType).value, kind) <= RefsOf(ScanDownTo(pool, acceptType, lo).refs, kind)
    decreases i - lo
  {
    if lo < i { ScanCollects(pool, acceptType, lo + 1, i, kind); }
  }

  /** A completed scan holds nothing that no visited entry adds. */
  lemma {:induction false} ScanOrigin(pool: seq<CpEntry>, acceptType: SignatureReader, lo: nat, kind: RefKind,
                                      k: Sym)
    requires lo >= 1
    requires ScanDownTo(pool, acceptType, lo).ok
    requires k in RefsOf(ScanDownTo(pool, acceptType, lo).refs, kind)
    ensures exists i :: lo <= i < |pool| && EntryRefs(pool, i, acceptType).Some?
                        && k in RefsOf(EntryRefs(pool, i, acceptType).value, kind)
    decreases |pool| - lo
  {
    var above := ScanDownTo(pool, acceptType, lo + 1);
    var r := EntryRefs(pool, lo, acceptType).value;
    if k !in RefsOf(r, kind) {
      ScanOrigin(pool, acceptType, lo + 1, kind, k);
    }
  }

  /** The scan completes exactly when no entry in slots 1 and above faults; a fault in slot 0 is
      impossible because slot 0 is never visited. */
  lemma ScanCompletes(pool: seq<CpEntry>, acceptType: SignatureReader)
    ensures Scan(pool, acceptType).ok <==> forall i :: 1 <= i < |pool| ==> !EntryFaults(pool, i, acceptType)
  {
    ScanOkAbove(pool, acceptType, 1);
    forall i | 1 <= i < |pool| { EntryFaultsExactly(pool, i, acceptType); }
  }

  /** Every CONSTANT_String payload becomes a string symbol (`null` for a UTF-8 index of 0), and nothing
      else does. */
  lemma ScannedStrings(pool: seq<CpEntry>, acceptType: SignatureReader)
    requires Scan(pool, acceptType).ok
    ensures var r := Scan(pool, acceptType).refs;
      forall s :: s in r.strings <==> exists i :: 1 <= i < |pool| && pool[i] == Str(s)
  {
    var r := Scan(pool, acceptType).refs;
    forall k | k in r.strings ensures exists i :: 1 <= i < |pool| && pool[i] == Str(k) {
      ScanOrigin(pool, acceptType, 1, StringConsts, k);
    }
    forall i | 1 <= i < |pool| && pool[i].Str? ensures pool[i].s in r.strings {
      ScanCollects(pool, acceptType, 1, i, StringConsts);
    }
  }

  /** A completed scan met no CONSTANT_Class entry whose name reads as `null`. A Class name that does not
      start with `[` is a type reference as it stands; one that does is handed to the signature reader and
      contributes the class types it reports instead. Nothing else is a type reference found by the scan. */
  lemma ScannedTypeReferences(pool: seq<CpEntry>, acceptType: SignatureReader)
    requires Scan(pool, acceptType).ok
    ensures var r := Scan(pool, acceptType).refs;
      && Null !in r.typeReferences
      && (forall i :: 1 <= i < |pool| && pool[i].Class? ==> pool[i].name.Sym?)
      && (forall i :: 1 <= i < |pool| && pool[i].Class? && !IsArrayClass(pool[i]) ==> pool[i].name in r.typeReferences)
      && (forall i :: 1 <= i < |pool| && IsArrayClass(pool[i]) ==>
            acceptType(pool[i].name.name).Some? && SymsOf(acceptType(pool[i].name.name).value) <= r.typeReferences)
      && (forall t :: Sym(t) in r.typeReferences ==>
            exists i :: 1 <= i < |pool| && pool[i].Class? && pool[i].name.Sym? &&
              (if IsArrayDescriptor(pool[i].name.name)
               then acceptType(pool[i].name.name).Some? && t in acceptType(pool[i].name.name).value
               else t == pool[i].name.name))
  {
    var r := Scan(pool, acceptType).refs;
    forall k | k in r.typeReferences
      ensures k.Sym?
      ensures exists i :: 1 <= i < |pool| && pool[i].Class? && pool[i].name.Sym? &&
                (if IsArrayDescriptor(pool[i].name.name)
                 then acceptType(pool[i].name.name).Some? && k.name in acceptType(pool[i].name.name).value
                 else k.name == pool[i].name.name)
    {
      ScanOrigin(pool, acceptType, 1, TypeRefs, k);
    }
    forall i | 1 <= i < |pool| && pool[i].Class?
      ensures pool[i].name.Sym?
      ensures if IsArrayClass(pool[i])
              then acceptType(pool[i].name.name).Some? && SymsOf(acceptType(pool[i].name.name).value) <= r.typeReferences
              else pool[i].name in r.typeReferences
    {
      ScanCollects(pool, acceptType, 1, i, TypeRefs);
    }
  }

  /** What one entry adds to the field reference set. */
  lemma EntryFieldRefs(pool: seq<CpEntry>, i: nat, acceptType: SignatureReader)
    requires i < |pool| && EntryRefs(pool, i, acceptType).Some?
    ensures EntryRefs(pool, i, acceptType).value.fieldReferences ==
            (if pool[i].FieldRef? && NameAndTypeAt(pool, pool[i].natIdx).Some?
             then {NameAndTypeAt(pool, pool[i].natIdx).value} else {})
  {
  }

  /** A Fieldref contributes the name of its NameAndType entry (`null` for a UTF-8 index of 0), and only
      when the linked entry has tag 12. */
  lemma ScannedFieldReferences(pool: seq<CpEntry>, acceptType: SignatureReader)
    requires Scan(pool, acceptType).ok
    ensures var r := Scan(pool, acceptType).refs;
      forall n :: n in r.fieldReferences <==>
        exists i :: 1 <= i < |pool| && pool[i].FieldRef? && NameAndTypeAt(pool, pool[i].natIdx) == Some(n)
  {
    var r := Scan(pool, acceptType).refs;
    forall k | k in r.fieldReferences
      ensures exists i :: 1 <= i < |pool| && pool[i].FieldRef? && NameAndTypeAt(pool, pool[i].natIdx) == Some(k)
    {
      ScanOrigin(pool, acceptType, 1, FieldRefs, k);
      var i :| 1 <= i < |pool| && EntryRefs(pool, i, acceptType).Some?
               && k in RefsOf(EntryRefs(pool, i, acceptType).value, FieldRefs);
      EntryFieldRefs(pool, i, acceptType);
    }
    forall i | 1 <= i < |pool| && pool[i].FieldRef? && NameAndTypeAt(pool, pool[i].natIdx).Some?
      ensures NameAndTypeAt(pool, pool[i].natIdx).value in r.fieldReferences
    {
      ScanCollects(pool, acceptType, 1, i, FieldRefs);
      EntryFieldRefs(pool, i, acceptType);
    }
  }

  /** The NameAndType name a Methodref or InterfaceMethodref entry links to, if it is one and the link reads
      a NameAndType entry. */
  function MethodRefName(pool: seq<CpEntry>, i: nat): Option<Sym>
    requires i < |pool|
  {
    if IsMethodRef(pool[i]) then NameAndTypeAt(pool, pool[i].natIdx) else None
  }

  /** What one entry adds to the method and constructor reference sets. */
  lemma EntryMethodRefs(pool: seq<CpEntry>, i: nat, acceptType: SignatureReader)
    requires i < |pool| && EntryRefs(pool, i, acceptType).Some?
    ensures MethodRefName(pool, i) == Some(Sym(ConstructorName)) ==> NameAt(pool, pool[i].classIdx).Some?
    ensures var r := EntryRefs(pool, i, acceptType).value;
            var n := MethodRefName(pool, i);
      && r.methodReferences == (if n.Some? && n.value != Sym(ConstructorName) then {n.value} else {})
      && r.constructorReferences ==
           (if n == Some(Sym(ConstructorName)) then {NameAt(pool, pool[i].classIdx).value} else {})
  {
  }

  /** A Methodref or InterfaceMethodref whose NameAndType entry names a method other than `<init>`
      contributes that name (`null` for a UTF-8 index of 0, which `"<init>".equals` rejects); `<init>` itself
      is never a method reference. */
  lemma ScannedMethodReferences(pool: seq<CpEntry>, acceptType: SignatureReader)
    requires Scan(pool, acceptType).ok
    ensures var r := Scan(pool, acceptType).refs;
      && Sym(ConstructorName) !in r.methodReferences
      && forall n :: n in r.methodReferences <==>
           n != Sym(ConstructorName) &&
           exists i :: 1 <= i < |pool| && IsMethodRef(pool[i]) && NameAndTypeAt(pool, pool[i].natIdx) == Some(n)
  {
    var r := Scan(pool, acceptType).refs;
    forall k | k in r.methodReferences
      ensures k != Sym(ConstructorName) &&
              exists i :: 1 <= i < |pool| && IsMethodRef(pool[i]) && NameAndTypeAt(pool, pool[i].natIdx) == Some(k)
    {
      ScanOrigin(pool, acceptType, 1, MethodRefs, k);
      var i :| 1 <= i < |pool| && EntryRefs(pool, i, acceptType).Some?
               && k in RefsOf(EntryRefs(pool, i, acceptType).value, MethodRefs);
      EntryMethodRefs(pool, i, acceptType);
    }
    forall i | 1 <= i < |pool| && IsMethodRef(pool[i]) && NameAndTypeAt(pool, pool[i].natIdx).Some?
                 && NameAndTypeAt(pool, pool[i].natIdx).value != Sym(ConstructorName)
      ensures NameAndTypeAt(pool, pool[i].natIdx).value in r.methodReferences
    {
      ScanCollects(pool, acceptType, 1, i, MethodRefs);
      EntryMethodRefs(pool, i, acceptType);
    }
  }

  /** A method reference named `<init>` contributes the name of its owner class entry (`Null` when that
      slot's offset is 0 or its UTF-8 index is 0), never the name `<init>`. */
  lemma ScannedConstructorReferences(pool: seq<CpEntry>, acceptType: SignatureReader)
    requires Scan(pool, acceptType).ok
    ensures var r := Scan(pool, acceptType).refs;
      forall k :: k in r.constructorReferences <==>
        exists i :: 1 <= i < |pool| && IsMethodRef(pool[i])
                    && NameAndTypeAt(pool, pool[i].natIdx) == Some(Sym(ConstructorName))
                    && NameAt(pool, pool[i].classIdx) == Some(k)
  {
    var r := Scan(pool, acceptType).refs;
    forall k | k in r.constructorReferences
      ensures exists i :: 1 <= i < |pool| && IsMethodRef(pool[i])
                          && NameAndTypeAt(pool, pool[i].natIdx) == Some(Sym(ConstructorName))
                          && NameAt(pool, pool[i].classIdx) == Some(k)
    {
      ScanOrigin(pool, acceptType, 1, ConstructorRefs, k);
      var i :| 1 <= i < |pool| && EntryRefs(pool, i, acceptType).Some?
               && k in RefsOf(EntryRefs(pool, i, acceptType).value, ConstructorRefs);
      EntryMethodRefs(pool, i, acceptType);
    }
    forall i | 1 <= i < |pool| && IsMethodRef(pool[i])
                 && NameAndTypeAt(pool, pool[i].natIdx) == Some(Sym(ConstructorName))
                 && NameAt(pool, pool[i].classIdx).Some?
      ensures NameAt(pool, pool[i].classIdx).value in r.constructorReferences
    {
      ScanCollects(pool, acceptType, 1, i, ConstructorRefs);
      EntryMethodRefs(pool, i, acceptType);
    }
  }

  /** Each entry in slot 1 or above adds the same whatever slot 0 holds: a link to slot 0 reads its offset,
      which is always 0, never its content. */
  lemma EntryIgnoresSlotZero(pool: seq<CpEntry>, e: CpEntry, i: nat, acceptType: SignatureReader)
    requires 1 <= i < |pool|
    ensures EntryRefs(pool[0 := e], i, acceptType) == EntryRefs(pool, i, acceptType)
  {
    var q := pool[0 := e];
    assert q[i] == pool[i];
    forall idx: nat ensures TaggedEntryAt(q, idx) == TaggedEntryAt(pool, idx) && NameAt(q, idx) == NameAt(pool, idx) {
      if 0 < idx < |pool| { assert q[idx] == pool[idx]; }
    }
  }

  /** The scan never visits slot 0. */
  lemma {:induction false} ScanIgnoresSlotZero(pool: seq<CpEntry>, e: CpEntry, acceptType: SignatureReader, lo: nat)
    requires 1 <= lo && 0 < |pool|
    ensures ScanDownTo(pool[0 := e], acceptType, lo) == ScanDownTo(pool, acceptType, lo)
    decreases |pool| - lo
  {
    if lo < |pool| {
      ScanIgnoresSlotZero(pool, e, acceptType, lo + 1);
      EntryIgnoresSlotZero(pool, e, lo, acceptType);
    }
  }
}
