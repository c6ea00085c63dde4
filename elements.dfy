/** What the annotation processor reads from the compiler's element model
    (javax.lang.model): a field's declared type, its modifiers and annotations, and the
    type that encloses it. The compiler computes these; here they are plain inputs. */
module Elements {

  /** The TypeKind constants the processor distinguishes. */
  datatype TypeKind =
    | Boolean | Byte | Short | Int | Long | Char | Float | Double
    | Void | NoType | NullType | Array | Declared | Error | TypeVar | Wildcard | Executable
    | OtherKind

  /** A field's declared type: its kind, the compiler's printed form of it (for instance
      "java.lang.String[][]"), and, for an array, the kind of its component type. */
  datatype FieldType = FieldType(kind: TypeKind, printedName: string, componentKind: TypeKind)

  /** An annotation present on the field, known by the package and the simple name of its type. */
  datatype Annotation = Annotation(packageName: string, simpleName: string)

  datatype Modifier = Public | Protected | Private | Static | Final | Transient | Volatile | Abstract

  datatype ElementKind = ClassKind | InterfaceKind | EnumKind | AnnotationTypeKind

  /** The type element that encloses a field. */
  datatype TypeInfo = TypeInfo(kind: ElementKind, modifiers: set<Modifier>,
                               packageName: string, qualifiedName: string)

  /** A field carrying the @JsonField annotation. `jsonName` and `optionalFlag` are the
      annotation's value() and optional(); `enclosing` identifies the enclosing type;
      `superficiallyValid` is the verdict of SuperficialValidation.validateElement. */
  datatype FieldElement = FieldElement(
    simpleName: string,
    fieldType: FieldType,
    jsonName: string,
    optionalFlag: bool,
    annotations: seq<Annotation>,
    modifiers: set<Modifier>,
    enclosing: nat,
    superficiallyValid: bool)

  /** The types of one compilation round. `superOf` is the superclass function: a type
      missing from it has no superclass (TypeKind.NONE). Type identifiers are numbered so
      that a superclass always has a smaller identifier than its subclass, which makes the
      chain finite and acyclic. */
  datatype Hierarchy = Hierarchy(info: map<nat, TypeInfo>, superOf: map<nat, nat>)

  ghost predicate ChainDescends(superOf: map<nat, nat>)
  {
    forall t :: t in superOf ==> superOf[t] < t
  }
}
