/** The traversal the bytecode library's class reader performs when it hands a parsed class to the
    structural visitor, and the signature reader's traversal when it hands class types to the signature
    visitor. Both belong to the library, not to the indexer; they are written here as explicit loops over the
    structure record so that the effect of a whole pass of callbacks can be stated. Callbacks the indexer's
    visitors inherit unchanged (source file, outer class, inner classes, attributes, annotation defaults,
    plain constant element values, array-valued elements, the end marker) do nothing and are not issued. */
module Reader {
  import opened Common
  import opened ClassFile
  import opened Symbols
  import opened PoolScan
  import opened Visitors

  /** Issues the callbacks for the element values of annotation `a` on `av`: an enum value is reported, a
      nested annotation is reported and its own values are read with the visitor that call returns, and an
      array-valued element is skipped because the inherited `visitArray` returns no visitor. */
  method AcceptValues(a: Annotation, av: AnnotationIndexer)
    modifies av.sets
    ensures av.sets.table == old(av.sets.table).(descriptors := old(av.sets.table).descriptors + ValuesDescriptors(a.values))
    decreases a
  {
    var vs := a.values;
    ghost var start := av.sets.table;
    var i := 0;
    while i < |vs|
      invariant 0 <= i <= |vs|
      invariant av.sets.table == start.(descriptors := start.descriptors + ValuesDescriptors(vs[..i]))
    {
      assert vs[..i + 1][..i] == vs[..i];
      assert ValuesDescriptors(vs[..i + 1]) == ValuesDescriptors(vs[..i]) + ValueDescriptors(vs[i]);
      match vs[i] {
        case EnumValue(desc, _) =>
          av.VisitEnum(desc);
        case AnnotationValue(nested) =>
          assert ValueDescriptors(vs[i]) == {nested.desc} + ValuesDescriptors(nested.values);
          var nestedVisitor := av.VisitAnnotation(nested.desc);
          AcceptValues(nested, nestedVisitor);
        case ConstValue =>
        case ArrayValue(_) =>
      }
      i := i + 1;
    }
    assert vs[..|vs|] == vs;
  }

  /** The visitor hook an annotation list is reported through. */
  datatype AnnotationHook =
    | ClassAnnotation | ClassTypeAnnotation
    | FieldAnnotation | FieldTypeAnnotation
    | MethodAnnotation | MethodTypeAnnotation | ParameterAnnotation

  /** Reports one annotation descriptor through `hook`; every hook returns the shared annotation visitor. */
  method VisitAnnotationHook(desc: string, hook: AnnotationHook, ci: ClassIndexer) returns (av: AnnotationIndexer)
    requires ci.Valid()
    modifies ci.sets
    ensures av == ci.annotationIndexer
    ensures ci.sets.table == old(ci.sets.table).(descriptors := old(ci.sets.table).descriptors + {desc})
  {
    match hook {
      case ClassAnnotation => av := ci.VisitAnnotation(desc);
      case ClassTypeAnnotation => av := ci.VisitTypeAnnotation(desc);
      case FieldAnnotation => av := ci.fieldIndexer.VisitAnnotation(desc);
      case FieldTypeAnnotation => av := ci.fieldIndexer.VisitTypeAnnotation(desc);
      case MethodAnnotation => av := ci.methodIndexer.VisitAnnotation(desc);
      case MethodTypeAnnotation => av := ci.methodIndexer.VisitTypeAnnotation(desc);
      case ParameterAnnotation => av := ci.methodIndexer.VisitParameterAnnotation(desc);
    }
  }

  /** Reports every annotation of `anns` through `hook` and reads its element values with the annotation
      visitor the hook returns. */
  method AcceptAnnotations(anns: seq<Annotation>, hook: AnnotationHook, ci: ClassIndexer)
    requires ci.Valid()
    modifies ci.sets
    ensures ci.sets.table == old(ci.sets.table).(descriptors := old(ci.sets.table).descriptors + AnnotationsDescriptors(anns))
  {
    ghost var start := ci.sets.table;
    var i := 0;
    while i < |anns|
      invariant 0 <= i <= |anns|
      invariant ci.sets.table == start.(descriptors := start.descriptors + AnnotationsDescriptors(anns[..i]))
    {
      assert anns[..i + 1][..i] == anns[..i];
      var av := VisitAnnotationHook(anns[i].desc, hook, ci);
      AcceptValues(anns[i], av);
      i := i + 1;
    }
    assert anns[..|anns|] == anns;
  }

  /** The class-level callbacks: the header, then every annotation and type annotation with its values, then
      every field, then every method. The class's own signature attribute is passed to the header visit,
      which ignores it. */
  method AcceptClass(cs: ClassStructure, ci: ClassIndexer)
    requires ci.Valid()
    modifies ci, ci.sets
    ensures ci.name == Sym(cs.name)
    ensures ci.sets.table == Merge(old(ci.sets.table), StructureTable(cs))
  {
    ghost var before := ci.sets.table;
    ghost var annotations := EmptyTable.(descriptors := AnnotationsDescriptors(cs.annotations)
                                                        + AnnotationsDescriptors(cs.typeAnnotations));
    ci.Visit(cs.name, cs.signature, cs.superName, cs.interfaces);
    AcceptAnnotations(cs.annotations, ClassAnnotation, ci);
    AcceptAnnotations(cs.typeAnnotations, ClassTypeAnnotation, ci);
    assert ci.sets.table == Merge(Merge(before, HeaderTable(cs.name, cs.superName, cs.interfaces)), annotations);
    AcceptFields(cs.fields, ci);
    AcceptMethods(cs.methods, ci);
    MergeAssociative4(before, HeaderTable(cs.name, cs.superName, cs.interfaces), annotations,
                      FieldsTable(cs.fields), MethodsTable(Sym(cs.name), cs.methods));
  }

  /** Every field in turn. */
  method AcceptFields(fs: seq<FieldInfo>, ci: ClassIndexer)
    requires ci.Valid()
    modifies ci.sets
    ensures ci.sets.table == Merge(old(ci.sets.table), FieldsTable(fs))
  {
    ghost var start := ci.sets.table;
    MergeEmpty(start);
    var i := 0;
    while i < |fs|
      invariant 0 <= i <= |fs|
      invariant ci.sets.table == Merge(start, FieldsTable(fs[..i]))
    {
      assert fs[..i + 1][..i] == fs[..i];
      AcceptField(fs[i], ci);
      MergeAssociative(start, FieldsTable(fs[..i]), FieldTable(fs[i]));
      i := i + 1;
    }
    assert fs[..|fs|] == fs;
  }

  /** Every method in turn; a constructor is declared under the class name the header visit stored. */
  method AcceptMethods(ms: seq<MethodInfo>, ci: ClassIndexer)
    requires ci.Valid()
    modifies ci.sets
    ensures ci.sets.table == Merge(old(ci.sets.table), MethodsTable(ci.name, ms))
  {
    ghost var start := ci.sets.table;
    ghost var className := ci.name;
    MergeEmpty(start);
    var i := 0;
    while i < |ms|
      invariant 0 <= i <= |ms|
      invariant ci.sets.table == Merge(start, MethodsTable(className, ms[..i]))
    {
      assert ms[..i + 1][..i] == ms[..i];
      AcceptMethod(ms[i], ci);
      MergeAssociative(start, MethodsTable(className, ms[..i]), MethodTable(className, ms[i]));
      i := i + 1;
    }
    assert ms[..|ms|] == ms;
  }

  /** The callbacks for one field: the field itself, then its annotations and type annotations. */
  method AcceptField(f: FieldInfo, ci: ClassIndexer)
    requires ci.Valid()
    modifies ci.sets
    ensures ci.sets.table == Merge(old(ci.sets.table), FieldTable(f))
  {
    var fv := ci.VisitField(f.name, f.desc, f.signature);
    AcceptAnnotations(f.annotations, FieldAnnotation, ci);
    AcceptAnnotations(f.typeAnnotations, FieldTypeAnnotation, ci);
  }

  /** The callbacks for one method: the method itself, then its annotations, type annotations and the
      annotations of each parameter in turn. */
  method AcceptMethod(m: MethodInfo, ci: ClassIndexer)
    requires ci.Valid()
    modifies ci.sets
    ensures ci.sets.table == Merge(old(ci.sets.table), MethodTable(ci.name, m))
  {
    var mv := ci.VisitMethod(m.name, m.desc, m.signature, m.exceptions);
    BareMethodTable(ci.name, m.name, m.desc, m.signature, m.exceptions);
    AcceptAnnotations(m.annotations, MethodAnnotation, ci);
    AcceptAnnotations(m.typeAnnotations, MethodTypeAnnotation, ci);
    AcceptParameterAnnotations(m.parameterAnnotations, ci);
  }

  /** The annotations of each parameter in turn, through the parameter-annotation hook. */
  method AcceptParameterAnnotations(params: seq<seq<Annotation>>, ci: ClassIndexer)
    requires ci.Valid()
    modifies ci.sets
    ensures ci.sets.table == old(ci.sets.table).(descriptors := old(ci.sets.table).descriptors
                                                               + ParameterAnnotationsDescriptors(params))
  {
    ghost var start := ci.sets.table;
    var p := 0;
    while p < |params|
      invariant 0 <= p <= |params|
      invariant ci.sets.table == start.(descriptors := start.descriptors + ParameterAnnotationsDescriptors(params[..p]))
    {
      assert params[..p + 1][..p] == params[..p];
      AcceptAnnotations(params[p], ParameterAnnotation, ci);
      p := p + 1;
    }
    assert params[..|params|] == params;
  }

  /** `new SignatureReader(s).accept(signatureIndexer)`: every class type the reader recognises in `s` is
      reported, in no particular order. `ok` is false when the reader throws, and nothing is reported then. */
  method AcceptSignature(s: string, classTypesOf: SignatureReader, si: SignatureIndexer) returns (ok: bool)
    modifies si.sets
    ensures ok <==> classTypesOf(s).Some?
    ensures ok ==> si.sets.table == old(si.sets.table).(typeReferences := old(si.sets.table).typeReferences
                                                                          + SymsOf(classTypesOf(s).value))
  {
    var types := classTypesOf(s);
    if types.None? {
      return false;
    }
    ghost var start := si.sets.table;
    var rest := types.value;
    while rest != {}
      invariant rest <= types.value
      invariant si.sets.table == start.(typeReferences := start.typeReferences + SymsOf(types.value - rest))
      decreases rest
    {
      var t :| t in rest;
      si.VisitClassType(t);
      assert SymsOf(types.value - (rest - {t})) == SymsOf(types.value - rest) + {Sym(t)};
      rest := rest - {t};
    }
    assert types.value - rest == types.value;
    ok := true;
  }
}
