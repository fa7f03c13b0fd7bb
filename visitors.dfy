/** The working sets and the visitor objects that fill them. Every visitor holds a reference to the same
    `SymbolSets` object, so what one adds the provider and the other visitors see. Callback parameters the
    source ignores (access flags, visibility, type paths, parameter numbers) are left out. */
module Visitors {
  import opened Common
  import opened ClassFile
  import opened Symbols

  /** The eleven `HashSet` fields of the provider, reused from pass to pass, held as one record of sets
      that every visitor updates in place. */
  class SymbolSets {
    var table: SymbolTable

    constructor ()
      ensures table == EmptyTable
    {
      table := EmptyTable;
    }

    /** The clearing at the start of every pass: all eleven sets are empty afterwards, so nothing from an
        earlier pass survives. */
    method Clear()
      modifies this
      ensures table == EmptyTable
    {
      table := table.(typeDeclarations := {});
      table := table.(constructorDeclarations := {});
      table := table.(methodDeclarations := {});
      table := table.(fieldDeclarations := {});
      table := table.(typeReferences := {});
      table := table.(constructorReferences := {});
      table := table.(methodReferences := {});
      table := table.(fieldReferences := {});
      table := table.(strings := {});
      table := table.(superTypeNames := {});
      table := table.(descriptors := {});
    }

    /** Adds every name of `names`, last first, as a type reference: the loop over thrown exception types. */
    method AddTypeReferences(names: seq<string>)
      modifies this
      ensures table == old(table).(typeReferences := old(table).typeReferences + SymsOfSeq(names))
    {
      var i := |names| - 1;
      while i >= 0
        invariant -1 <= i < |names|
        invariant table == old(table).(typeReferences := old(table).typeReferences + SymsOfSeq(names[i + 1..]))
      {
        SymsOfSeqStep(names, i);
        table := table.(typeReferences := table.typeReferences + {Sym(names[i])});
        i := i - 1;
      }
      assert names[0..] == names;
    }
  }

  /** Receives every class type the signature reader recognises. */
  class SignatureIndexer {
    const sets: SymbolSets

    constructor (sets: SymbolSets)
      ensures this.sets == sets
    {
      this.sets := sets;
    }

    method VisitClassType(name: string)
      modifies sets
      ensures sets.table == old(sets.table).(typeReferences := old(sets.table).typeReferences + {Sym(name)})
    {
      sets.table := sets.table.(typeReferences := sets.table.typeReferences + {Sym(name)});
    }
  }

  /** Visits the element values of an annotation. */
  class AnnotationIndexer {
    const sets: SymbolSets

    constructor (sets: SymbolSets)
      ensures this.sets == sets
    {
      this.sets := sets;
    }

    /** An enum-valued element: the descriptor of the enum type is pending. */
    method VisitEnum(desc: string)
      modifies sets
      ensures sets.table == old(sets.table).(descriptors := old(sets.table).descriptors + {desc})
    {
      sets.table := sets.table.(descriptors := sets.table.descriptors + {desc});
    }

    /** A nested annotation: its descriptor is pending and this same visitor receives its elements. */
    method VisitAnnotation(desc: string) returns (av: AnnotationIndexer)
      modifies sets
      ensures av == this
      ensures sets.table == old(sets.table).(descriptors := old(sets.table).descriptors + {desc})
    {
      sets.table := sets.table.(descriptors := sets.table.descriptors + {desc});
      av := this;
    }
  }

  /** Receives the annotations of one field. */
  class FieldIndexer {
    const sets: SymbolSets
    const annotationIndexer: AnnotationIndexer

    constructor (sets: SymbolSets, annotationIndexer: AnnotationIndexer)
      ensures this.sets == sets && this.annotationIndexer == annotationIndexer
    {
      this.sets := sets;
      this.annotationIndexer := annotationIndexer;
    }

    method VisitAnnotation(desc: string) returns (av: AnnotationIndexer)
      modifies sets
      ensures av == annotationIndexer
      ensures sets.table == old(sets.table).(descriptors := old(sets.table).descriptors + {desc})
    {
      sets.table := sets.table.(descriptors := sets.table.descriptors + {desc});
      av := annotationIndexer;
    }

    method VisitTypeAnnotation(desc: string) returns (av: AnnotationIndexer)
      modifies sets
      ensures av == annotationIndexer
      ensures sets.table == old(sets.table).(descriptors := old(sets.table).descriptors + {desc})
    {
      sets.table := sets.table.(descriptors := sets.table.descriptors + {desc});
      av := annotationIndexer;
    }
  }

  /** Receives the annotations of one method. */
  class MethodIndexer {
    const sets: SymbolSets
    const annotationIndexer: AnnotationIndexer

    constructor (sets: SymbolSets, annotationIndexer: AnnotationIndexer)
      ensures this.sets == sets && this.annotationIndexer == annotationIndexer
    {
      this.sets := sets;
      this.annotationIndexer := annotationIndexer;
    }

    method VisitAnnotation(desc: string) returns (av: AnnotationIndexer)
      modifies sets
      ensures av == annotationIndexer
      ensures sets.table == old(sets.table).(descriptors := old(sets.table).descriptors + {desc})
    {
      sets.table := sets.table.(descriptors := sets.table.descriptors + {desc});
      av := annotationIndexer;
    }

    method VisitTypeAnnotation(desc: string) returns (av: AnnotationIndexer)
      modifies sets
      ensures av == annotationIndexer
      ensures sets.table == old(sets.table).(descriptors := old(sets.table).descriptors + {desc})
    {
      sets.table := sets.table.(descriptors := sets.table.descriptors + {desc});
      av := annotationIndexer;
    }

    method VisitParameterAnnotation(desc: string) returns (av: AnnotationIndexer)
      modifies sets
      ensures av == annotationIndexer
      ensures sets.table == old(sets.table).(descriptors := old(sets.table).descriptors + {desc})
    {
      sets.table := sets.table.(descriptors := sets.table.descriptors + {desc});
      av := annotationIndexer;
    }
  }

  /** The structural visitor of a class. `name` keeps the name of the last class header it visited. */
  class ClassIndexer {
    const sets: SymbolSets
    const annotationIndexer: AnnotationIndexer
    const fieldIndexer: FieldIndexer
    const methodIndexer: MethodIndexer
    var name: Sym

    /** All the helper visitors share this visitor's working sets and annotation visitor. */
    ghost predicate Valid() {
      && annotationIndexer.sets == sets
      && fieldIndexer.sets == sets && fieldIndexer.annotationIndexer == annotationIndexer
      && methodIndexer.sets == sets && methodIndexer.annotationIndexer == annotationIndexer
    }

    constructor (sets: SymbolSets)
      ensures Valid() && this.sets == sets && name == Null
    {
      this.sets := sets;
      var av := new AnnotationIndexer(sets);
      annotationIndexer := av;
      fieldIndexer := new FieldIndexer(sets, av);
      methodIndexer := new MethodIndexer(sets, av);
      name := Null;
    }

    /** The class header: stores the name, declares it as a type, and adds the super name (without a null
        check) and every interface, last first, to the supertype set. */
    method Visit(name: string, signature: Option<string>, superName: Sym, interfaces: seq<string>)
      modifies this`name, sets
      ensures this.name == Sym(name)
      ensures sets.table == Merge(old(sets.table), HeaderTable(name, superName, interfaces))
    {
      this.name := Sym(name);
      sets.table := sets.table.(typeDeclarations := sets.table.typeDeclarations + {Sym(name)});
      sets.table := sets.table.(superTypeNames := sets.table.superTypeNames + {superName});
      ghost var start := sets.table;
      var i := |interfaces| - 1;
      while i >= 0
        invariant -1 <= i < |interfaces|
        invariant this.name == Sym(name)
        invariant sets.table == start.(superTypeNames := start.superTypeNames + SymsOfSeq(interfaces[i + 1..]))
      {
        SymsOfSeqStep(interfaces, i);
        sets.table := sets.table.(superTypeNames := sets.table.superTypeNames + {Sym(interfaces[i])});
        i := i - 1;
      }
      assert interfaces[0..] == interfaces;
    }

    method VisitAnnotation(desc: string) returns (av: AnnotationIndexer)
      modifies sets
      ensures av == annotationIndexer
      ensures sets.table == old(sets.table).(descriptors := old(sets.table).descriptors + {desc})
    {
      sets.table := sets.table.(descriptors := sets.table.descriptors + {desc});
      av := annotationIndexer;
    }

    method VisitTypeAnnotation(desc: string) returns (av: AnnotationIndexer)
      modifies sets
      ensures av == annotationIndexer
      ensures sets.table == old(sets.table).(descriptors := old(sets.table).descriptors + {desc})
    {
      sets.table := sets.table.(descriptors := sets.table.descriptors + {desc});
      av := annotationIndexer;
    }

    /** A field declares its name; its signature, or its descriptor when it has none, is pending. */
    method VisitField(name: string, desc: string, signature: Option<string>) returns (fv: FieldIndexer)
      modifies sets
      ensures fv == fieldIndexer
      ensures sets.table == old(sets.table).(
                fieldDeclarations := old(sets.table).fieldDeclarations + {Sym(name)},
                descriptors := old(sets.table).descriptors + {SignatureOrDesc(signature, desc)})
    {
      sets.table := sets.table.(fieldDeclarations := sets.table.fieldDeclarations + {Sym(name)});
      sets.table := sets.table.(descriptors := sets.table.descriptors + {if signature.Some? then signature.value else desc});
      fv := fieldIndexer;
    }

    /** A method: `<init>` declares a constructor under the stored class name, `<clinit>` declares nothing,
        any other name is a method declaration; the signature or descriptor is pending, and every thrown
        exception type, last first, is a type reference. */
    method VisitMethod(name: string, desc: string, signature: Option<string>, exceptions: seq<string>)
      returns (mv: MethodIndexer)
      modifies sets
      ensures mv == methodIndexer
      ensures sets.table ==
              Merge(old(sets.table), MethodTable(this.name, MethodInfo(name, desc, signature, exceptions, [], [], [])))
    {
      ghost var before := sets.table;
      ghost var header := EmptyTable.(
        constructorDeclarations := if name == ConstructorName then {this.name} else {},
        methodDeclarations := if name == ConstructorName || name == StaticInitializerName then {} else {Sym(name)},
        descriptors := {SignatureOrDesc(signature, desc)});
      if name == ConstructorName {
        sets.table := sets.table.(constructorDeclarations := sets.table.constructorDeclarations + {this.name});
      } else if name != StaticInitializerName {
        sets.table := sets.table.(methodDeclarations := sets.table.methodDeclarations + {Sym(name)});
      }
      sets.table := sets.table.(descriptors := sets.table.descriptors + {if signature.Some? then signature.value else desc});
      assert sets.table == Merge(before, header);
      sets.AddTypeReferences(exceptions);
      BareMethodTable(this.name, name, desc, signature, exceptions);
      MergeTypeReferences(before, header, SymsOfSeq(exceptions));
      mv := methodIndexer;
    }
  }
}
