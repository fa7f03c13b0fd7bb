/** The symbols one indexing pass gathers, and what the structural visitor contributes to them. */
module Symbols {
  import opened Common
  import opened ClassFile

  /** The eleven working sets of one pass, as a value. `descriptors` holds the descriptor and signature
      strings still to be handed to the signature reader. */
  datatype SymbolTable = SymbolTable(
    typeDeclarations: set<Sym>,
    constructorDeclarations: set<Sym>,
    methodDeclarations: set<Sym>,
    fieldDeclarations: set<Sym>,
    typeReferences: set<Sym>,
    constructorReferences: set<Sym>,
    methodReferences: set<Sym>,
    fieldReferences: set<Sym>,
    strings: set<Sym>,
    superTypeNames: set<Sym>,
    descriptors: set<string>)

  const EmptyTable := SymbolTable({}, {}, {}, {}, {}, {}, {}, {}, {}, {}, {})

  /** Set by set union: what adding every symbol of `b` to the sets of `a` yields. */
  function Merge(a: SymbolTable, b: SymbolTable): SymbolTable {
    SymbolTable(
      a.typeDeclarations + b.typeDeclarations,
      a.constructorDeclarations + b.constructorDeclarations,
      a.methodDeclarations + b.methodDeclarations,
      a.fieldDeclarations + b.fieldDeclarations,
      a.typeReferences + b.typeReferences,
      a.constructorReferences + b.constructorReferences,
      a.methodReferences + b.methodReferences,
      a.fieldReferences + b.fieldReferences,
      a.strings + b.strings,
      a.superTypeNames + b.superTypeNames,
      a.descriptors + b.descriptors)
  }

  /** A table that holds only references and strings: no declaration, no supertype name, no descriptor. */
  predicate OnlyReferences(t: SymbolTable) {
    && t.typeDeclarations == {} && t.superTypeNames == {} && t.descriptors == {}
    && t.constructorDeclarations == {} && t.methodDeclarations == {} && t.fieldDeclarations == {}
  }

  // ---------------------------------------------------------------------------------------------
  // Annotations. The annotation indexer adds the descriptor of every enum value and of every nested
  // annotation, and recurses into nested annotations. It does not override `visitArray`, whose inherited
  // default returns no visitor, so the reader skips the contents of array-valued elements.

  function AnnotationDescriptors(a: Annotation): set<string>
    decreases a
  {
    {a.desc} + ValuesDescriptors(a.values)
  }

  function ValuesDescriptors(vs: seq<ElementValue>): set<string>
    decreases vs
  {
    if vs == [] then {} else ValuesDescriptors(vs[..|vs| - 1]) + ValueDescriptors(vs[|vs| - 1])
  }

  function ValueDescriptors(v: ElementValue): set<string>
    decreases v
  {
    match v
    case EnumValue(desc, _) => {desc}
    case AnnotationValue(a) => AnnotationDescriptors(a)
    case ConstValue => {}
    case ArrayValue(_) => {}
  }

  function AnnotationsDescriptors(anns: seq<Annotation>): set<string> {
    if anns == [] then {}
    else AnnotationsDescriptors(anns[..|anns| - 1]) + AnnotationDescriptors(anns[|anns| - 1])
  }

  function ParameterAnnotationsDescriptors(params: seq<seq<Annotation>>): set<string> {
    if params == [] then {}
    else ParameterAnnotationsDescriptors(params[..|params| - 1]) + AnnotationsDescriptors(params[|params| - 1])
  }

  /** `signature == null ? desc : signature` */
  function SignatureOrDesc(signature: Option<string>, desc: string): string {
    if signature.Some? then signature.value else desc
  }

  // ---------------------------------------------------------------------------------------------
  // What each visitor callback contributes.

  function HeaderTable(name: string, superName: Sym, interfaces: seq<string>): SymbolTable {
    EmptyTable.(typeDeclarations := {Sym(name)}, superTypeNames := {superName} + SymsOfSeq(interfaces))
  }

  function FieldDescriptors(f: FieldInfo): set<string> {
    {SignatureOrDesc(f.signature, f.desc)} + AnnotationsDescriptors(f.annotations)
    + AnnotationsDescriptors(f.typeAnnotations)
  }

  function MethodDescriptors(m: MethodInfo): set<string> {
    {SignatureOrDesc(m.signature, m.desc)} + AnnotationsDescriptors(m.annotations)
    + AnnotationsDescriptors(m.typeAnnotations) + ParameterAnnotationsDescriptors(m.parameterAnnotations)
  }

  function FieldTable(f: FieldInfo): SymbolTable {
    EmptyTable.(fieldDeclarations := {Sym(f.name)}, descriptors := FieldDescriptors(f))
  }

  /** `className` is the name the class header visit stored, which a constructor is declared under. */
  function MethodTable(className: Sym, m: MethodInfo): SymbolTable {
    EmptyTable.(
      constructorDeclarations := if m.name == ConstructorName then {className} else {},
      methodDeclarations :=
        if m.name == ConstructorName || m.name == StaticInitializerName then {} else {Sym(m.name)},
      typeReferences := SymsOfSeq(m.exceptions),
      descriptors := MethodDescriptors(m))
  }

  lemma MergeEmpty(a: SymbolTable)
    ensures Merge(a, EmptyTable) == a
  {
  }

  lemma MergeEmptyLeft(a: SymbolTable)
    ensures Merge(EmptyTable, a) == a
  {
  }

  lemma MergeAssociative(a: SymbolTable, b: SymbolTable, c: SymbolTable)
    ensures Merge(Merge(a, b), c) == Merge(a, Merge(b, c))
  {
  }

  lemma MergeAssociative4(a: SymbolTable, b: SymbolTable, c: SymbolTable, d: SymbolTable, e: SymbolTable)
    ensures Merge(Merge(Merge(Merge(a, b), c), d), e) == Merge(a, Merge(Merge(Merge(b, c), d), e))
  {
    MergeAssociative(a, b, c);
    MergeAssociative(a, Merge(b, c), d);
    MergeAssociative(a, Merge(Merge(b, c), d), e);
  }

  /** Adding type references after a merge is merging a table that holds them. */
  lemma MergeTypeReferences(a: SymbolTable, b: SymbolTable, refs: set<Sym>)
    requires b.typeReferences == {}
    ensures Merge(a, b).(typeReferences := Merge(a, b).typeReferences + refs) == Merge(a, b.(typeReferences := refs))
  {
  }

  /** The table of a method header as the class visitor sees it, before any of its annotations. */
  lemma BareMethodTable(className: Sym, name: string, desc: string, signature: Option<string>, exceptions: seq<string>)
    ensures MethodTable(className, MethodInfo(name, desc, signature, exceptions, [], [], [])) ==
            EmptyTable.(
              constructorDeclarations := if name == ConstructorName then {className} else {},
              methodDeclarations := if name == ConstructorName || name == StaticInitializerName then {} else {Sym(name)},
              typeReferences := SymsOfSeq(exceptions),
              descriptors := {SignatureOrDesc(signature, desc)})
  {
  }

  function FieldsTable(fs: seq<FieldInfo>): SymbolTable {
    if fs == [] then EmptyTable else Merge(FieldsTable(fs[..|fs| - 1]), FieldTable(fs[|fs| - 1]))
  }

  function MethodsTable(className: Sym, ms: seq<MethodInfo>): SymbolTable {
    if ms == [] then EmptyTable
    else Merge(MethodsTable(className, ms[..|ms| - 1]), MethodTable(className, ms[|ms| - 1]))
  }

  /** Everything the structural visitor adds for one class: header, class annotations and type
      annotations, then fields, then methods. */
  function StructureTable(cs: ClassStructure): SymbolTable {
    Merge(Merge(Merge(HeaderTable(cs.name, cs.superName, cs.interfaces),
                      EmptyTable.(descriptors := AnnotationsDescriptors(cs.annotations)
                                                 + AnnotationsDescriptors(cs.typeAnnotations))),
                FieldsTable(cs.fields)),
          MethodsTable(Sym(cs.name), cs.methods))
  }

  // ---------------------------------------------------------------------------------------------
  // Lemmas: what the collected descriptor strings are.

  /** The element values of an annotation contribute exactly what their top-level elements contribute;
      an array-valued element contributes nothing. */
  lemma {:induction false} ValuesDescriptorsAt(vs: seq<ElementValue>)
    ensures forall d :: d in ValuesDescriptors(vs) <==> exists i :: 0 <= i < |vs| && d in ValueDescriptors(vs[i])
  {
    if vs != [] {
      var p := vs[..|vs| - 1];
      ValuesDescriptorsAt(p);
      assert forall i :: 0 <= i < |p| ==> p[i] == vs[i];
    }
  }

  /** A nested annotation, at whatever depth, contributes its own descriptor and everything below it. */
  lemma NestedAnnotationDescriptors(a: Annotation, i: nat)
    requires i < |a.values| && a.values[i].AnnotationValue?
    ensures a.values[i].ann.desc in AnnotationDescriptors(a)
    ensures AnnotationDescriptors(a.values[i].ann) <= AnnotationDescriptors(a)
  {
    ValuesDescriptorsAt(a.values);
  }

  /** An enum-valued element contributes the descriptor of its enum type. */
  lemma EnumValueDescriptor(a: Annotation, i: nat)
    requires i < |a.values| && a.values[i].EnumValue?
    ensures a.values[i].desc in AnnotationDescriptors(a)
  {
    ValuesDescriptorsAt(a.values);
  }

  /** Removing an array-valued element changes nothing: the reader never visits the values inside it. */
  lemma ArrayValueIgnored(a: Annotation, i: nat)
    requires i < |a.values| && a.values[i].ArrayValue?
    ensures AnnotationDescriptors(a) == AnnotationDescriptors(a.(values := a.values[..i] + a.values[i + 1..]))
  {
    var vs := a.values;
    var ws := vs[..i] + vs[i + 1..];
    ValuesDescriptorsAt(vs);
    ValuesDescriptorsAt(ws);
    forall d | d in ValuesDescriptors(vs) ensures d in ValuesDescriptors(ws) {
      var j :| 0 <= j < |vs| && d in ValueDescriptors(vs[j]);
      if j < i { assert ws[j] == vs[j]; } else { assert j != i; assert ws[j - 1] == vs[j]; }
    }
    forall d | d in ValuesDescriptors(ws) ensures d in ValuesDescriptors(vs) {
      var j :| 0 <= j < |ws| && d in ValueDescriptors(ws[j]);
      if j < i { assert ws[j] == vs[j]; } else { assert ws[j] == vs[j + 1]; }
    }
  }

  lemma {:induction false} AnnotationsDescriptorsAt(anns: seq<Annotation>)
    ensures forall d :: d in AnnotationsDescriptors(anns) <==>
                        exists i :: 0 <= i < |anns| && d in AnnotationDescriptors(anns[i])
  {
    if anns != [] {
      var p := anns[..|anns| - 1];
      AnnotationsDescriptorsAt(p);
      assert forall i :: 0 <= i < |p| ==> p[i] == anns[i];
    }
  }

  lemma {:induction false} ParameterAnnotationsDescriptorsAt(params: seq<seq<Annotation>>)
    ensures forall d :: d in ParameterAnnotationsDescriptors(params) <==>
                        exists i :: 0 <= i < |params| && d in AnnotationsDescriptors(params[i])
  {
    if params != [] {
      var p := params[..|params| - 1];
      ParameterAnnotationsDescriptorsAt(p);
      assert forall i :: 0 <= i < |p| ==> p[i] == params[i];
    }
  }

  // ---------------------------------------------------------------------------------------------
  // Lemmas: what the structural visitor declares.

  /** The field visits touch only the field-declaration and descriptor sets. */
  lemma {:induction false} FieldsTableOnlyDeclares(fs: seq<FieldInfo>)
    ensures var t := FieldsTable(fs);
      t == EmptyTable.(fieldDeclarations := t.fieldDeclarations, descriptors := t.descriptors)
  {
    if fs != [] { FieldsTableOnlyDeclares(fs[..|fs| - 1]); }
  }

  /** Every field declares its name and contributes its descriptors. */
  lemma {:induction false} FieldsTableHas(fs: seq<FieldInfo>, i: nat)
    requires i < |fs|
    ensures Sym(fs[i].name) in FieldsTable(fs).fieldDeclarations
    ensures FieldDescriptors(fs[i]) <= FieldsTable(fs).descriptors
  {
    var p := fs[..|fs| - 1];
    if i < |p| {
      FieldsTableHas(p, i);
      assert p[i] == fs[i];
    }
  }

  /** Every declared field name is the name of some field. */
  lemma {:induction false} FieldsTableNameOrigin(fs: seq<FieldInfo>, x: Sym)
    requires x in FieldsTable(fs).fieldDeclarations
    ensures exists i :: 0 <= i < |fs| && x == Sym(fs[i].name)
  {
    var p := fs[..|fs| - 1];
    if x == Sym(fs[|fs| - 1].name) {
      assert x == Sym(fs[|fs| - 1].name);
    } else {
      FieldsTableNameOrigin(p, x);
      var i :| 0 <= i < |p| && x == Sym(p[i].name);
      assert p[i] == fs[i];
    }
  }

  lemma FieldsTableNames(fs: seq<FieldInfo>)
    ensures Null !in FieldsTable(fs).fieldDeclarations
    ensures forall n :: Sym(n) in FieldsTable(fs).fieldDeclarations <==> exists i :: 0 <= i < |fs| && fs[i].name == n
  {
    if Null in FieldsTable(fs).fieldDeclarations {
      FieldsTableNameOrigin(fs, Null);
    }
    forall n ensures Sym(n) in FieldsTable(fs).fieldDeclarations <==> exists i :: 0 <= i < |fs| && fs[i].name == n {
      if Sym(n) in FieldsTable(fs).fieldDeclarations {
        FieldsTableNameOrigin(fs, Sym(n));
      }
      if exists i :: 0 <= i < |fs| && fs[i].name == n {
        var i :| 0 <= i < |fs| && fs[i].name == n;
        FieldsTableHas(fs, i);
      }
    }
  }

  lemma {:induction false} FieldsTableDescriptorOrigin(fs: seq<FieldInfo>, d: string)
    requires d in FieldsTable(fs).descriptors
    ensures exists i :: 0 <= i < |fs| && d in FieldDescriptors(fs[i])
  {
    var p := fs[..|fs| - 1];
    var last := fs[|fs| - 1];
    assert FieldsTable(fs).descriptors == FieldsTable(p).descriptors + FieldDescriptors(last);
    if d in FieldDescriptors(last) {
      assert d in FieldDescriptors(fs[|fs| - 1]);
    } else {
      FieldsTableDescriptorOrigin(p, d);
      var i :| 0 <= i < |p| && d in FieldDescriptors(p[i]);
      assert p[i] == fs[i];
    }
  }

  /** The method visits touch only the constructor- and method-declaration sets, the type-reference set
      and the descriptor set. */
  lemma {:induction false} MethodsTableOnlyDeclares(className: Sym, ms: seq<MethodInfo>)
    ensures var t := MethodsTable(className, ms);
      t == EmptyTable.(constructorDeclarations := t.constructorDeclarations,
                       methodDeclarations := t.methodDeclarations,
                       typeReferences := t.typeReferences, descriptors := t.descriptors)
  {
    if ms != [] { MethodsTableOnlyDeclares(className, ms[..|ms| - 1]); }
  }

  /** What every method adds: a constructor declaration under `className` for `<init>`, its name for every
      other method but `<clinit>`, its thrown exception types and its descriptors. */
  lemma {:induction false} MethodsTableHas(className: Sym, ms: seq<MethodInfo>, i: nat)
    requires i < |ms|
    ensures var t := MethodsTable(className, ms);
      && (ms[i].name == ConstructorName ==> className in t.constructorDeclarations)
      && (ms[i].name != ConstructorName && ms[i].name != StaticInitializerName ==> Sym(ms[i].name) in t.methodDeclarations)
      && SymsOfSeq(ms[i].exceptions) <= t.typeReferences
      && MethodDescriptors(ms[i]) <= t.descriptors
  {
    var p := ms[..|ms| - 1];
    if i < |p| {
      MethodsTableHas(className, p, i);
      assert p[i] == ms[i];
    }
  }

  /** A constructor declaration is `className`, added by an `<init>` method. */
  lemma {:induction false} MethodsTableConstructorOrigin(className: Sym, ms: seq<MethodInfo>, x: Sym)
    requires x in MethodsTable(className, ms).constructorDeclarations
    ensures x == className && exists i :: 0 <= i < |ms| && ms[i].name == ConstructorName
  {
    var p := ms[..|ms| - 1];
    if x in MethodsTable(className, p).constructorDeclarations {
      MethodsTableConstructorOrigin(className, p, x);
      var i :| 0 <= i < |p| && p[i].name == ConstructorName;
      assert p[i] == ms[i];
    } else {
      assert ms[|ms| - 1].name == ConstructorName;
    }
  }

  /** A method declaration is the name of a method that is neither `<init>` nor `<clinit>`. */
  lemma {:induction false} MethodsTableNameOrigin(className: Sym, ms: seq<MethodInfo>, x: Sym)
    requires x in MethodsTable(className, ms).methodDeclarations
    ensures exists i :: 0 <= i < |ms| && x == Sym(ms[i].name)
                        && ms[i].name != ConstructorName && ms[i].name != StaticInitializerName
  {
    var p := ms[..|ms| - 1];
    var last := ms[|ms| - 1];
    if x == Sym(last.name) && last.name != ConstructorName && last.name != StaticInitializerName {
      assert x == Sym(ms[|ms| - 1].name);
    } else {
      MethodsTableNameOrigin(className, p, x);
      var i :| 0 <= i < |p| && x == Sym(p[i].name) && p[i].name != ConstructorName && p[i].name != StaticInitializerName;
      assert p[i] == ms[i];
    }
  }

  /** A type reference of the method visits is a thrown exception type of some method. */
  lemma {:induction false} MethodsTableThrownOrigin(className: Sym, ms: seq<MethodInfo>, x: Sym)
    requires x in MethodsTable(className, ms).typeReferences
    ensures exists i :: 0 <= i < |ms| && x in SymsOfSeq(ms[i].exceptions)
  {
    var p := ms[..|ms| - 1];
    if x in SymsOfSeq(ms[|ms| - 1].exceptions) {
      assert x in SymsOfSeq(ms[|ms| - 1].exceptions);
    } else {
      MethodsTableThrownOrigin(className, p, x);
      var i :| 0 <= i < |p| && x in SymsOfSeq(p[i].exceptions);
      assert p[i] == ms[i];
    }
  }

  lemma {:induction false} MethodsTableDescriptorOrigin(className: Sym, ms: seq<MethodInfo>, d: string)
    requires d in MethodsTable(className, ms).descriptors
    ensures exists i :: 0 <= i < |ms| && d in MethodDescriptors(ms[i])
  {
    var p := ms[..|ms| - 1];
    var last := ms[|ms| - 1];
    assert MethodsTable(className, ms).descriptors == MethodsTable(className, p).descriptors + MethodDescriptors(last);
    if d in MethodDescriptors(last) {
      assert d in MethodDescriptors(ms[|ms| - 1]);
    } else {
      MethodsTableDescriptorOrigin(className, p, d);
      var i :| 0 <= i < |p| && d in MethodDescriptors(p[i]);
      assert p[i] == ms[i];
    }
  }

  lemma MethodsTableConstructors(className: Sym, ms: seq<MethodInfo>)
    ensures MethodsTable(className, ms).constructorDeclarations ==
            (if exists i :: 0 <= i < |ms| && ms[i].name == ConstructorName then {className} else {})
  {
    var t := MethodsTable(className, ms);
    forall x | x in t.constructorDeclarations ensures x == className {
      MethodsTableConstructorOrigin(className, ms, x);
    }
    if exists i :: 0 <= i < |ms| && ms[i].name == ConstructorName {
      var i :| 0 <= i < |ms| && ms[i].name == ConstructorName;
      MethodsTableHas(className, ms, i);
    } else if t.constructorDeclarations != {} {
      var x :| x in t.constructorDeclarations;
      MethodsTableConstructorOrigin(className, ms, x);
    }
  }

  lemma MethodsTableNames(className: Sym, ms: seq<MethodInfo>)
    ensures Null !in MethodsTable(className, ms).methodDeclarations
    ensures forall n :: Sym(n) in MethodsTable(className, ms).methodDeclarations <==>
              n != ConstructorName && n != StaticInitializerName && exists i :: 0 <= i < |ms| && ms[i].name == n
  {
    var t := MethodsTable(className, ms);
    if Null in t.methodDeclarations {
      MethodsTableNameOrigin(className, ms, Null);
    }
    forall n ensures Sym(n) in t.methodDeclarations <==>
                     n != ConstructorName && n != StaticInitializerName && exists i :: 0 <= i < |ms| && ms[i].name == n
    {
      if Sym(n) in t.methodDeclarations {
        MethodsTableNameOrigin(className, ms, Sym(n));
      }
      if n != ConstructorName && n != StaticInitializerName && exists i :: 0 <= i < |ms| && ms[i].name == n {
        var i :| 0 <= i < |ms| && ms[i].name == n;
        MethodsTableHas(className, ms, i);
      }
    }
  }

  lemma MethodsTableThrown(className: Sym, ms: seq<MethodInfo>)
    ensures Null !in MethodsTable(className, ms).typeReferences
    ensures forall e :: Sym(e) in MethodsTable(className, ms).typeReferences <==>
              exists i :: 0 <= i < |ms| && e in ms[i].exceptions
  {
    var t := MethodsTable(className, ms);
    if Null in t.typeReferences {
      MethodsTableThrownOrigin(className, ms, Null);
    }
    forall e ensures Sym(e) in t.typeReferences <==> exists i :: 0 <= i < |ms| && e in ms[i].exceptions {
      if Sym(e) in t.typeReferences {
        MethodsTableThrownOrigin(className, ms, Sym(e));
        var i :| 0 <= i < |ms| && Sym(e) in SymsOfSeq(ms[i].exceptions);
        var k :| 0 <= k < |ms[i].exceptions| && Sym(ms[i].exceptions[k]) == Sym(e);
      }
      if exists i :: 0 <= i < |ms| && e in ms[i].exceptions {
        var i :| 0 <= i < |ms| && e in ms[i].exceptions;
        MethodsTableHas(className, ms, i);
        var k :| 0 <= k < |ms[i].exceptions| && ms[i].exceptions[k] == e;
        assert Sym(ms[i].exceptions[k]) in SymsOfSeq(ms[i].exceptions);
      }
    }
  }

  /** The class header stores the class's own name as its only type declaration and adds the super name,
      `Null` included, and every interface to the supertype set. */
  lemma HeaderDeclarations(cs: ClassStructure)
    ensures var t := StructureTable(cs);
      && t.typeDeclarations == {Sym(cs.name)}
      && t.superTypeNames == {cs.superName} + SymsOfSeq(cs.interfaces)
  {
    FieldsTableOnlyDeclares(cs.fields);
    MethodsTableOnlyDeclares(Sym(cs.name), cs.methods);
  }

  /** The structural visitors record no constructor, method or field reference and no string: all of those
      come from the constant pool. */
  lemma StructureReferencesNothing(cs: ClassStructure)
    ensures var t := StructureTable(cs);
      && t.constructorReferences == {} && t.methodReferences == {} && t.fieldReferences == {}
      && t.strings == {}
  {
    FieldsTableOnlyDeclares(cs.fields);
    MethodsTableOnlyDeclares(Sym(cs.name), cs.methods);
  }

  /** A method named `<init>` declares a constructor under the class's own name, `<clinit>` declares
      nothing, every other method declares its name, and thrown exception types are plain type references. */
  lemma MethodDeclarations(cs: ClassStructure)
    ensures var t := StructureTable(cs);
      && t.constructorDeclarations ==
           (if exists i :: 0 <= i < |cs.methods| && cs.methods[i].name == ConstructorName
            then {Sym(cs.name)} else {})
      && Sym(ConstructorName) !in t.methodDeclarations
      && Sym(StaticInitializerName) !in t.methodDeclarations
      && Null !in t.methodDeclarations
      && (forall n :: Sym(n) in t.methodDeclarations <==>
            n != ConstructorName && n != StaticInitializerName &&
            exists i :: 0 <= i < |cs.methods| && cs.methods[i].name == n)
      && Null !in t.typeReferences
      && (forall e :: Sym(e) in t.typeReferences <==>
            exists i :: 0 <= i < |cs.methods| && e in cs.methods[i].exceptions)
  {
    FieldsTableOnlyDeclares(cs.fields);
    MethodsTableOnlyDeclares(Sym(cs.name), cs.methods);
    MethodsTableConstructors(Sym(cs.name), cs.methods);
    MethodsTableNames(Sym(cs.name), cs.methods);
    MethodsTableThrown(Sym(cs.name), cs.methods);
  }

  /** Every field declares its name. */
  lemma FieldDeclarations(cs: ClassStructure)
    ensures var t := StructureTable(cs);
      && Null !in t.fieldDeclarations
      && forall n :: Sym(n) in t.fieldDeclarations <==> exists i :: 0 <= i < |cs.fields| && cs.fields[i].name == n
  {
    FieldsTableNames(cs.fields);
    MethodsTableOnlyDeclares(Sym(cs.name), cs.methods);
  }

  /** The pending descriptor strings include each field's and method's signature if it has one, else its
      descriptor, and the descriptor of every annotation, type annotation and parameter annotation on the
      class, its fields and its methods, with their nested annotations and enum values. */
  lemma DescriptorsCollected(cs: ClassStructure)
    ensures var t := StructureTable(cs);
      && (forall i :: 0 <= i < |cs.fields| ==> FieldDescriptors(cs.fields[i]) <= t.descriptors)
      && (forall i :: 0 <= i < |cs.methods| ==> MethodDescriptors(cs.methods[i]) <= t.descriptors)
      && AnnotationsDescriptors(cs.annotations) <= t.descriptors
      && AnnotationsDescriptors(cs.typeAnnotations) <= t.descriptors
  {
    var t := StructureTable(cs);
    assert t.descriptors == AnnotationsDescriptors(cs.annotations) + AnnotationsDescriptors(cs.typeAnnotations)
                            + FieldsTable(cs.fields).descriptors + MethodsTable(Sym(cs.name), cs.methods).descriptors;
    forall i | 0 <= i < |cs.fields| ensures FieldDescriptors(cs.fields[i]) <= t.descriptors {
      FieldsTableHas(cs.fields, i);
    }
    forall i | 0 <= i < |cs.methods| ensures MethodDescriptors(cs.methods[i]) <= t.descriptors {
      MethodsTableHas(Sym(cs.name), cs.methods, i);
    }
  }

  /** The pending descriptor strings are nothing but those: every one comes from a class annotation or type
      annotation, a field or a method. */
  lemma DescriptorsOrigin(cs: ClassStructure, d: string)
    requires d in StructureTable(cs).descriptors
    ensures || d in AnnotationsDescriptors(cs.annotations) || d in AnnotationsDescriptors(cs.typeAnnotations)
            || (exists i :: 0 <= i < |cs.fields| && d in FieldDescriptors(cs.fields[i]))
            || (exists i :: 0 <= i < |cs.methods| && d in MethodDescriptors(cs.methods[i]))
  {
    var t := StructureTable(cs);
    assert t.descriptors == AnnotationsDescriptors(cs.annotations) + AnnotationsDescriptors(cs.typeAnnotations)
                            + FieldsTable(cs.fields).descriptors + MethodsTable(Sym(cs.name), cs.methods).descriptors;
    if d in FieldsTable(cs.fields).descriptors {
      FieldsTableDescriptorOrigin(cs.fields, d);
    } else if d in MethodsTable(Sym(cs.name), cs.methods).descriptors {
      MethodsTableDescriptorOrigin(Sym(cs.name), cs.methods, d);
    }
  }

  /** Every descriptor of an annotation in a list is collected, however deeply it is nested. */
  lemma AnnotationInListCollected(anns: seq<Annotation>, i: nat)
    requires i < |anns|
    ensures anns[i].desc in AnnotationsDescriptors(anns)
    ensures AnnotationDescriptors(anns[i]) <= AnnotationsDescriptors(anns)
  {
    AnnotationsDescriptorsAt(anns);
  }
}
