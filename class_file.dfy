/** What the bytecode reader exposes of one class file: the constant pool as a table of tagged entries and
    the declared structure as an explicit record. Byte-level decoding is not modelled. */
module ClassFile {
  import opened Common

  /** Constant-pool tags other than the ones the indexer dispatches on or follows (7 to 12). */
  type OtherTag = t: int | 0 <= t < 256 && !(7 <= t <= 12) witness 1

  /** One constant-pool slot.
      `Unused` is a slot whose start offset is 0: slot 0 and the second slot of a long or double constant
      (section 4.4.5 of the Java Virtual Machine Specification, Java SE 8 edition).
      Index fields are the raw unsigned 16-bit indexes stored in the entry. A Class, String or NameAndType
      entry carries the name its UTF-8 index points to as the reader's `readUTF8` returns it: `Null` when the
      index is 0. */
  datatype CpEntry =
    | Unused
    | Class(name: Sym)                            // CONSTANT_Class, tag 7
    | Str(s: Sym)                                 // CONSTANT_String, tag 8
    | FieldRef(classIdx: nat, natIdx: nat)        // CONSTANT_Fieldref, tag 9
    | MethodRef(classIdx: nat, natIdx: nat)       // CONSTANT_Methodref, tag 10
    | IfaceMethodRef(classIdx: nat, natIdx: nat)  // CONSTANT_InterfaceMethodref, tag 11
    | NameAndType(name: Sym)                      // CONSTANT_NameAndType, tag 12
    | Other(tag: OtherTag)

  /** The tag byte read just before the entry's data; an `Unused` slot has none. */
  function Tag(e: CpEntry): (r: Option<int>)
    ensures r.None? <==> e.Unused?
    ensures r.Some? ==> 0 <= r.value < 256
  {
    match e
    case Unused => None
    case Class(_) => Some(7)
    case Str(_) => Some(8)
    case FieldRef(_, _) => Some(9)
    case MethodRef(_, _) => Some(10)
    case IfaceMethodRef(_, _) => Some(11)
    case NameAndType(_) => Some(12)
    case Other(t) => Some(t as int)
  }

  /** An element value of an annotation. Constant values carry nothing the indexer looks at. */
  datatype ElementValue =
    | ConstValue
    | EnumValue(desc: string, value: string)
    | AnnotationValue(ann: Annotation)
    | ArrayValue(elements: seq<ElementValue>)

  /** An annotation (or type annotation) with its descriptor and element values. */
  datatype Annotation = Annotation(desc: string, values: seq<ElementValue>)

  datatype FieldInfo = FieldInfo(
    name: string,
    desc: string,
    signature: Option<string>,
    annotations: seq<Annotation>,
    typeAnnotations: seq<Annotation>)

  /** A method; `exceptions` is empty where the reader passes `null`, and `parameterAnnotations[p]` holds the
      annotations of parameter `p`. */
  datatype MethodInfo = MethodInfo(
    name: string,
    desc: string,
    signature: Option<string>,
    exceptions: seq<string>,
    annotations: seq<Annotation>,
    typeAnnotations: seq<Annotation>,
    parameterAnnotations: seq<seq<Annotation>>)

  /** The declared structure the structural visitor is shown, in declaration order. `superName` is `Null`
      for a class without a superclass (`java/lang/Object`, `module-info`). */
  datatype ClassStructure = ClassStructure(
    name: string,
    signature: Option<string>,
    superName: Sym,
    interfaces: seq<string>,
    annotations: seq<Annotation>,
    typeAnnotations: seq<Annotation>,
    fields: seq<FieldInfo>,
    methods: seq<MethodInfo>)

  /** A readable class file: its structure and its constant pool, slot 0 included. */
  datatype ClassFile = ClassFile(structure: ClassStructure, pool: seq<CpEntry>)

  /** `startsWith("[")`: the name of a CONSTANT_Class entry that denotes an array type. */
  predicate IsArrayDescriptor(name: string) {
    |name| > 0 && name[0] == '['
  }

  /** The special method names of section 2.9 of the Java Virtual Machine Specification. */
  const ConstructorName: string := "<init>"
  const StaticInitializerName: string := "<clinit>"
}
