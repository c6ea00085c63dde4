/** EpoxyJsonBinding: the per-class binding the processor assembles. Each annotated field
    becomes a BindingElement that records which EpoxyJsonBinder helper reads it and which
    one writes it; the binding keeps its elements in order, an optional parent binding,
    and chooses the statements of the generated parseJson and parseModel bodies. */
module EpoxyJsonBinding {
  import opened Wrappers
  import opened Elements
  import EpoxyUtils

  const BOX := "[]"
  const BINDING_CLASS_SUFFIX := "$$EpoxyBinder"
  const PARSE_JSON := "parseJson"
  const PARSE_MODEL := "parseModel"

  const STRING_CLASS := "java.lang.String"
  const SHORT_CLASS := "java.lang.Short"
  const LONG_CLASS := "java.lang.Long"
  const FLOAT_CLASS := "java.lang.Float"
  const DOUBLE_CLASS := "java.lang.Double"
  const INT_CLASS := "java.lang.Integer"
  const BOOLEAN_CLASS := "java.lang.Boolean"

  const BOXED_TYPES := [STRING_CLASS, SHORT_CLASS, LONG_CLASS, FLOAT_CLASS,
                        DOUBLE_CLASS, INT_CLASS, BOOLEAN_CLASS]

  /** The EpoxyJsonBinder helper a generated parseJson calls to read a field. */
  datatype Getter =
    | ParseBoolean | ParseInteger | ParseLong | ParseDouble | ParseShort | ParseFloat
    | ParseBooleanArray | ParseIntegerArray | ParseLongArray | ParseDoubleArray
    | ParseShortArray | ParseFloatArray
    | ParseArray | GetArray | ParseValue | GetObject

  /** The helper a generated parseModel calls to write a field. */
  datatype Putter = PutBoolean | PutInteger | PutLong | PutDouble | PutObject | PutArray

  function GetterName(g: Getter): string
  {
    match g
    case ParseBoolean => "parseBoolean"
    case ParseInteger => "parseInteger"
    case ParseLong => "parseLong"
    case ParseDouble => "parseDouble"
    case ParseShort => "parseShort"
    case ParseFloat => "parseFloat"
    case ParseBooleanArray => "parseBooleanArray"
    case ParseIntegerArray => "parseIntegerArray"
    case ParseLongArray => "parseLongArray"
    case ParseDoubleArray => "parseDoubleArray"
    case ParseShortArray => "parseShortArray"
    case ParseFloatArray => "parseFloatArray"
    case ParseArray => "parseArray"
    case GetArray => "getArray"
    case ParseValue => "parseValue"
    case GetObject => "getObject"
  }

  function PutterName(p: Putter): string
  {
    match p
    case PutBoolean => "putBoolean"
    case PutInteger => "putInteger"
    case PutLong => "putLong"
    case PutDouble => "putDouble"
    case PutObject => "putObject"
    case PutArray => "putArray"
  }

  /** One bound field. `className` is the field's printed type with every "[]" removed. */
  datatype BindingElement = BindingElement(
    fieldName: string,
    className: string,
    jsonName: string,
    getMethod: Getter,
    putMethod: Putter,
    dimensions: nat,
    isOptional: bool,
    isPrimitive: bool,
    fromEpoxy: bool)

  /** The IllegalStateException the constructor throws for a kind it does not handle. */
  datatype ClassifyError = InvalidElement(kind: TypeKind) | InvalidArrayElement(componentKind: TypeKind)

  // ---------------------------------------------------------------------------
  // Scanning and removing the "[]" markers of an array type's printed name

  predicate BoxAt(s: string, k: int)
  {
    0 <= k && k + 2 <= |s| && s[k] == '[' && s[k + 1] == ']'
  }

  predicate NoBox(s: string)
  {
    forall k :: 0 <= k < |s| ==> !BoxAt(s, k)
  }

  /** String.indexOf("[]", from). */
  function IndexOfBox(s: string, from: nat): (j: int)
    ensures j == -1 || (from <= j && BoxAt(s, j))
    ensures j == -1 ==> forall k :: from <= k < |s| ==> !BoxAt(s, k)
    ensures j != -1 ==> forall k :: from <= k < j ==> !BoxAt(s, k)
    decreases |s| - from
  {
    if from + 2 > |s| then -1
    else if BoxAt(s, from) then from
    else IndexOfBox(s, from + 1)
  }

  /** The number of "[]" occurrences that start at or after `from`. */
  function BoxesFrom(s: string, from: nat): nat
    decreases |s| - from
  {
    if from >= |s| then 0
    else (if BoxAt(s, from) then 1 else 0) + BoxesFrom(s, from + 1)
  }

  /** The dimension count the constructor's scan arrives at: every "[]" of the name
      counts, except that a name starting with "[]" counts none, since the scan stops
      unless indexOf answers a position greater than 0. */
  function Dimensions(name: string): nat
  {
    if BoxAt(name, 0) then 0 else BoxesFrom(name, 0)
  }

  /** k copies of "[]". */
  function Boxes(k: nat): string
  {
    if k == 0 then "" else BOX + Boxes(k - 1)
  }

  /** className.replaceAll("\\[\\]", ""): a left-to-right scan that deletes each "[]". */
  function StripBoxes(s: string): string
    decreases |s|
  {
    if |s| == 0 then ""
    else if BoxAt(s, 0) then StripBoxes(s[2..])
    else [s[0]] + StripBoxes(s[1..])
  }

  lemma {:induction false} BoxesSkip(s: string, from: nat, j: nat)
    requires from <= j
    requires forall k :: from <= k < j ==> !BoxAt(s, k)
    ensures BoxesFrom(s, from) == BoxesFrom(s, j)
    decreases j - from
  {
    if from < j {
      BoxesSkip(s, from + 1, j);
    }
  }

  lemma {:induction false} NoBoxesFrom(s: string, from: nat)
    requires forall k :: from <= k < |s| ==> !BoxAt(s, k)
    ensures BoxesFrom(s, from) == 0
    decreases |s| - from
  {
    if from < |s| {
      NoBoxesFrom(s, from + 1);
    }
  }

  /** The while loop of the BindingElement constructor: repeatedly look for the next "[]"
      after the previous one and count it. */
  method ScanDimensions(name: string) returns (dimensions: nat)
    ensures dimensions == Dimensions(name)
  {
    var i := 0;
    dimensions := 0;
    while i < |name|
      invariant 0 <= i <= |name|
      invariant i == 0 ==> dimensions == 0
      invariant i > 0 ==> !BoxAt(name, 0) && dimensions + BoxesFrom(name, i) == BoxesFrom(name, 0)
      decreases |name| - i
    {
      var j := IndexOfBox(name, i);
      if j > 0 {
        BoxesSkip(name, i, j);
        dimensions := dimensions + 1;
        i := j + 1;
      } else {
        if j == -1 {
          NoBoxesFrom(name, i);
        }
        break;
      }
    }
  }

  /** A name followed by k markers strips back to the name. */
  lemma {:induction false} StripBoxedName(n: string, k: nat)
    requires NoBox(n)
    ensures StripBoxes(n + Boxes(k)) == n
    decreases |n|, k
  {
    if |n| == 0 {
      assert n + Boxes(k) == Boxes(k);
      if k > 0 {
        assert BoxAt(Boxes(k), 0);
        assert Boxes(k)[2..] == Boxes(k - 1);
        StripBoxedName(n, k - 1);
        assert n + Boxes(k - 1) == Boxes(k - 1);
      }
    } else {
      var s := n + Boxes(k);
      assert !BoxAt(n, 0);
      assert !BoxAt(s, 0) by {
        if |n| == 1 && k > 0 {
          assert s[1] == '[';
        }
      }
      assert s[1..] == n[1..] + Boxes(k);
      assert NoBox(n[1..]) by {
        forall q | 0 <= q < |n[1..]| ensures !BoxAt(n[1..], q) {
          assert !BoxAt(n, q + 1);
        }
      }
      StripBoxedName(n[1..], k);
      assert [n[0]] + n[1..] == n;
    }
  }

  lemma {:induction false} BoxesCountedFrom(p: string, k: nat)
    ensures BoxesFrom(p + Boxes(k), |p|) == k
    decreases k
  {
    var s := p + Boxes(k);
    if k > 0 {
      assert s == (p + BOX) + Boxes(k - 1);
      assert BoxAt(s, |p|);
      assert !BoxAt(s, |p| + 1);
      BoxesCountedFrom(p + BOX, k - 1);
    }
  }

  /** A name followed by k markers has k dimensions. */
  lemma DimensionsOfBoxedName(n: string, k: nat)
    requires NoBox(n) && |n| > 0
    ensures Dimensions(n + Boxes(k)) == k
  {
    var s := n + Boxes(k);
    assert forall q :: 0 <= q < |n| ==> !BoxAt(s, q) by {
      forall q | 0 <= q < |n| ensures !BoxAt(s, q) {
        if q + 1 < |n| {
          assert !BoxAt(n, q);
        } else if k > 0 {
          assert s[q + 1] == '[';
        }
      }
    }
    BoxesSkip(s, 0, |n|);
    BoxesCountedFrom(n, k);
  }

  // ---------------------------------------------------------------------------
  // Classification (the switch of the BindingElement constructor)

  function ArrayGetter(componentKind: TypeKind, className: string): Option<(Getter, bool, bool)>
  {
    match componentKind
    case Boolean => Some((ParseBooleanArray, true, false))
    case Int => Some((ParseIntegerArray, true, false))
    case Long => Some((ParseLongArray, true, false))
    case Double => Some((ParseDoubleArray, true, false))
    case Short => Some((ParseShortArray, true, false))
    case Float => Some((ParseFloatArray, true, false))
    case Array => Some((ParseArray, false, false))
    case Declared =>
      if className in BOXED_TYPES then Some((ParseArray, false, false))
      else Some((GetArray, false, true))
    case _ => None
  }

  function DeclaredGetter(className: string): Getter
  {
    if className == INT_CLASS then ParseInteger
    else if className == BOOLEAN_CLASS then ParseBoolean
    else if className == FLOAT_CLASS then ParseFloat
    else if className == LONG_CLASS then ParseLong
    else if className == SHORT_CLASS then ParseShort
    else if className == DOUBLE_CLASS then ParseDouble
    else if className in BOXED_TYPES then ParseValue
    else GetObject
  }

  /** The element the constructor builds once the scan has produced `dims`. */
  function ClassifyWith(e: FieldElement, dims: nat): Result<BindingElement, ClassifyError>
  {
    var t := e.fieldType;
    var optional := EpoxyUtils.IsOptional(e.optionalFlag, e.annotations);
    var name := t.printedName;
    match t.kind
    case Boolean => Success(BindingElement(e.simpleName, name, e.jsonName, ParseBoolean, PutBoolean, 0, optional, true, false))
    case Int => Success(BindingElement(e.simpleName, name, e.jsonName, ParseInteger, PutInteger, 0, optional, true, false))
    case Long => Success(BindingElement(e.simpleName, name, e.jsonName, ParseLong, PutLong, 0, optional, true, false))
    case Double => Success(BindingElement(e.simpleName, name, e.jsonName, ParseDouble, PutDouble, 0, optional, true, false))
    case Short => Success(BindingElement(e.simpleName, name, e.jsonName, ParseShort, PutInteger, 0, optional, true, false))
    case Float => Success(BindingElement(e.simpleName, name, e.jsonName, ParseFloat, PutDouble, 0, optional, true, false))
    case Array =>
      var stripped := StripBoxes(name);
      (match ArrayGetter(t.componentKind, stripped)
       case None => Failure(InvalidArrayElement(t.componentKind))
       case Some(choice) =>
         Success(BindingElement(e.simpleName, stripped, e.jsonName, choice.0, PutArray, dims,
                                optional, choice.1, choice.2)))
    case Declared =>
      var getter := DeclaredGetter(name);
      Success(BindingElement(e.simpleName, name, e.jsonName, getter, PutObject, 0, optional,
                             false, getter == GetObject))
    case _ => Failure(InvalidElement(t.kind))
  }

  /** The element built for field `e`, or the IllegalStateException. */
  function Classify(e: FieldElement): Result<BindingElement, ClassifyError>
  {
    ClassifyWith(e, if e.fieldType.kind == Array then Dimensions(e.fieldType.printedName) else 0)
  }

  /** The BindingElement constructor. */
  method NewBindingElement(e: FieldElement) returns (r: Result<BindingElement, ClassifyError>)
    ensures r == Classify(e)
  {
    var dims := 0;
    if e.fieldType.kind == Array {
      dims := ScanDimensions(e.fieldType.printedName);
    }
    r := ClassifyWith(e, dims);
  }

  /** Each primitive kind gets its fixed pair of helpers; SHORT is read by parseShort but
      written by putInteger, FLOAT is read by parseFloat but written by putDouble. */
  lemma PrimitiveFields(e: FieldElement)
    requires e.fieldType.kind in {Boolean, Int, Long, Double, Short, Float}
    ensures Classify(e).Success?
    ensures var el := Classify(e).value;
            && el.isPrimitive && !el.fromEpoxy && el.dimensions == 0
            && el.className == e.fieldType.printedName
            && (e.fieldType.kind == Boolean ==> el.getMethod == ParseBoolean && el.putMethod == PutBoolean)
            && (e.fieldType.kind == Int ==> el.getMethod == ParseInteger && el.putMethod == PutInteger)
            && (e.fieldType.kind == Long ==> el.getMethod == ParseLong && el.putMethod == PutLong)
            && (e.fieldType.kind == Double ==> el.getMethod == ParseDouble && el.putMethod == PutDouble)
            && (e.fieldType.kind == Short ==> el.getMethod == ParseShort && el.putMethod == PutInteger)
            && (e.fieldType.kind == Float ==> el.getMethod == ParseFloat && el.putMethod == PutDouble)
  {
  }

  /** A declared type: a listed boxed class gets its own parser (String gets parseValue),
      any other class is read by getObject and handed to Epoxy. The putter is putObject. */
  lemma DeclaredFields(e: FieldElement)
    requires e.fieldType.kind == Declared
    ensures Classify(e).Success?
    ensures var el := Classify(e).value; var n := e.fieldType.printedName;
            && el.putMethod == PutObject && !el.isPrimitive && el.dimensions == 0
            && (el.fromEpoxy <==> n !in BOXED_TYPES)
            && (n == STRING_CLASS ==> el.getMethod == ParseValue)
            && (n == SHORT_CLASS ==> el.getMethod == ParseShort)
            && (n == FLOAT_CLASS ==> el.getMethod == ParseFloat)
            && (n !in BOXED_TYPES ==> el.getMethod == GetObject)
  {
  }

  /** An element marked fromEpoxy is never primitive, whatever the field. */
  lemma FromEpoxyNotPrimitive(e: FieldElement)
    requires Classify(e).Success? && Classify(e).value.fromEpoxy
    ensures !Classify(e).value.isPrimitive
    ensures Classify(e).value.getMethod in {GetObject, GetArray}
  {
  }

  /** The constructor throws exactly for the kinds it has no case for, and, for arrays,
      for component kinds it has no case for (byte and char among them). */
  lemma ClassifyFailsExactly(e: FieldElement)
    ensures Classify(e).Failure? <==>
            (e.fieldType.kind !in {Boolean, Int, Long, Double, Short, Float, Array, Declared}) ||
            (e.fieldType.kind == Array &&
             e.fieldType.componentKind !in {Boolean, Int, Long, Double, Short, Float, Array, Declared})
    ensures Classify(e).Failure? && e.fieldType.kind == Array ==>
            Classify(e).error == InvalidArrayElement(e.fieldType.componentKind)
    ensures Classify(e).Failure? && e.fieldType.kind != Array ==>
            Classify(e).error == InvalidElement(e.fieldType.kind)
  {
  }

  /** An array field whose printed type is a name N followed by k markers is bound with
      the class name N and k dimensions. */
  lemma ArrayFields(e: FieldElement, n: string, k: nat)
    requires e.fieldType.kind == Array && e.fieldType.printedName == n + Boxes(k)
    requires NoBox(n) && |n| > 0
    requires e.fieldType.componentKind in {Boolean, Int, Long, Double, Short, Float, Array, Declared}
    ensures Classify(e).Success?
    ensures Classify(e).value.className == n && Classify(e).value.dimensions == k
    ensures Classify(e).value.putMethod == PutArray
  {
    StripBoxedName(n, k);
    DimensionsOfBoxedName(n, k);
  }

  // ---------------------------------------------------------------------------
  // getArrayElementName

  /** The class literal the generated code passes for an array element: the stripped name
      followed by one "[]" fewer than the element has dimensions. */
  function ArrayElementNameOf(el: BindingElement): string
  {
    el.className + Boxes(if el.dimensions > 0 then el.dimensions - 1 else 0)
  }

  lemma {:induction false} BoxesSucc(k: nat)
    ensures Boxes(k) + BOX == Boxes(k + 1)
  {
    if k > 0 {
      BoxesSucc(k - 1);
      assert Boxes(k) + BOX == BOX + (Boxes(k - 1) + BOX);
    }
  }

  /** getArrayElementName: appends "[]" once for every dimension beyond the first. */
  method ArrayElementName(el: BindingElement) returns (name: string)
    ensures name == ArrayElementNameOf(el)
  {
    name := el.className;
    var i := 1;
    while i < el.dimensions
      invariant 1 <= i <= if el.dimensions > 0 then el.dimensions else 1
      invariant name == el.className + Boxes(i - 1)
    {
      BoxesSucc(i - 1);
      name := name + BOX;
      i := i + 1;
    }
  }

  /** For a field typed N plus k markers (k at least 1) the element class is N plus k - 1 markers. */
  lemma ArrayElementNameDropsOneBox(e: FieldElement, n: string, k: nat)
    requires e.fieldType.kind == Array && e.fieldType.printedName == n + Boxes(k)
    requires NoBox(n) && |n| > 0 && k >= 1
    requires e.fieldType.componentKind in {Boolean, Int, Long, Double, Short, Float, Array, Declared}
    ensures Classify(e).Success? && ArrayElementNameOf(Classify(e).value) == n + Boxes(k - 1)
  {
    ArrayFields(e, n, k);
  }

  // ---------------------------------------------------------------------------
  // The binding and the statements of its generated methods

  datatype ClassName = ClassName(packageName: string, simpleName: string)

  const EPOXY_JSON_BINDER := ClassName("me.oriley.epoxy", "EpoxyJsonBinder")
  const EPOXY_JSON := ClassName("me.oriley.epoxy", "EpoxyJson")

  /** The statements of the generated methods, one constructor per template. */
  datatype Stmt =
    | SuperCall(methodName: string)
    | ReadArray(field: string, getter: Getter, jsonName: string, elementClass: string, optional: bool)
    | ReadViaEpoxy(field: string, getter: Getter, jsonName: string, optional: bool, className: string)
    | Read(field: string, getter: Getter, jsonName: string, optional: bool)
    | CallOnComplete(methodName: string)
    | WritePrimitive(putter: Putter, jsonName: string, field: string)
    | WriteViaEpoxy(putter: Putter, jsonName: string, field: string, className: string, optional: bool)
    | Write(putter: Putter, jsonName: string, field: string, optional: bool)
    | NewModel(className: string)
    | CallParseJson
    | ReturnModel

  /** The parseJson statement for one element:
      model.f = getter(json, name, Elem.class, optional) for non-primitive arrays not read through Epoxy,
      model.f = EpoxyJson.fromJson(getter(json, name, optional), Cls.class) for fromEpoxy elements,
      model.f = getter(json, name, optional) otherwise. */
  function ParseJsonStatement(el: BindingElement): Stmt
  {
    if el.dimensions > 0 && !el.isPrimitive && !el.fromEpoxy then
      ReadArray(el.fieldName, el.getMethod, el.jsonName, ArrayElementNameOf(el), el.isOptional)
    else if el.fromEpoxy then
      ReadViaEpoxy(el.fieldName, el.getMethod, el.jsonName, el.isOptional, el.className)
    else
      Read(el.fieldName, el.getMethod, el.jsonName, el.isOptional)
  }

  /** The parseModel statement for one element. */
  function ParseModelStatement(el: BindingElement): Stmt
  {
    if el.isPrimitive && el.dimensions <= 0 then
      WritePrimitive(el.putMethod, el.jsonName, el.fieldName)
    else if el.fromEpoxy then
      WriteViaEpoxy(el.putMethod, el.jsonName, el.fieldName, el.className, el.isOptional)
    else
      Write(el.putMethod, el.jsonName, el.fieldName, el.isOptional)
  }

  /** Which template a classified field gets, by the shape of its declared type. */
  lemma ParseJsonTemplateOfField(e: FieldElement)
    requires Classify(e).Success?
    ensures var el := Classify(e).value; var s := ParseJsonStatement(el);
            && (e.fieldType.kind in {Boolean, Int, Long, Double, Short, Float} ==> s.Read?)
            && (e.fieldType.kind == Declared ==>
                  (s.ReadViaEpoxy? <==> e.fieldType.printedName !in BOXED_TYPES) &&
                  (s.Read? <==> e.fieldType.printedName in BOXED_TYPES))
            && (e.fieldType.kind == Array && e.fieldType.componentKind in {Boolean, Int, Long, Double, Short, Float} ==> s.Read?)
            && (e.fieldType.kind == Array && e.fieldType.componentKind == Array ==>
                  (s.ReadArray? <==> el.dimensions > 0))
            && (e.fieldType.kind == Array && e.fieldType.componentKind == Declared ==>
                  (s.ReadViaEpoxy? <==> StripBoxes(e.fieldType.printedName) !in BOXED_TYPES))
            && (s.ReadViaEpoxy? ==> s.className == el.className)
  {
  }

  /** The generated binder class: the host class name with $$EpoxyBinder appended, in
      the host's package. */
  function BinderClassName(packageName: string, className: string): ClassName
  {
    ClassName(packageName, className + BINDING_CLASS_SUFFIX)
  }

  /** Distinct host classes get distinct binder classes. */
  lemma BinderClassNameInjective(p1: string, c1: string, p2: string, c2: string)
    requires BinderClassName(p1, c1) == BinderClassName(p2, c2)
    ensures p1 == p2 && c1 == c2
  {
    var s1 := c1 + BINDING_CLASS_SUFFIX;
    var s2 := c2 + BINDING_CLASS_SUFFIX;
    assert |c1| == |c2|;
    assert c1 == s1[..|c1|] && c2 == s2[..|c2|];
  }

  /** EpoxyJsonBinding. */
  class Binding {
    const packageName: string
    const className: string
    var elements: seq<BindingElement>
    var parentBinding: Binding?
    var onCompleteMethod: Option<string>

    constructor (packageName: string, className: string)
      ensures this.packageName == packageName && this.className == className
      ensures elements == [] && parentBinding == null && onCompleteMethod == None
    {
      this.packageName := packageName;
      this.className := className;
      elements := [];
      parentBinding := null;
      onCompleteMethod := None;
    }

    /** addElement: builds the element (which may throw) and appends it. */
    method AddElement(e: FieldElement) returns (outcome: Result<(), ClassifyError>)
      modifies this`elements
      ensures outcome.Success? <==> Classify(e).Success?
      ensures outcome.Failure? ==> outcome.error == Classify(e).error
      ensures elements == if Classify(e).Success? then old(elements) + [Classify(e).value]
                          else old(elements)
    {
      var element := NewBindingElement(e);
      if element.Failure? {
        return Failure(element.error);
      }
      elements := elements + [element.value];
      return Success(());
    }

    method SetParentBinding(parent: Binding)
      modifies this`parentBinding
      ensures parentBinding == parent
    {
      parentBinding := parent;
    }

    method SetOnCompleteMethod(name: string)
      modifies this`onCompleteMethod
      ensures onCompleteMethod == Some(name)
    {
      onCompleteMethod := Some(name);
    }

    function BindingClassName(): ClassName
    {
      BinderClassName(packageName, className)
    }

    function ObjectClassName(): ClassName
    {
      ClassName(packageName, className)
    }

    /** getSuperClassName: the parent's binder class, or EpoxyJsonBinder without a parent. */
    function SuperClassName(): (r: ClassName)
      reads this
      ensures parentBinding != null ==>
                r.packageName == parentBinding.packageName &&
                r.simpleName == parentBinding.className + BINDING_CLASS_SUFFIX
      ensures parentBinding == null ==> r == EPOXY_JSON_BINDER
    {
      if parentBinding != null then parentBinding.BindingClassName() else EPOXY_JSON_BINDER
    }

    /** createFromJsonMethod: allocate the model, delegate to parseJson, return the model. */
    function FromJsonBody(): seq<Stmt>
    {
      [NewModel(className), CallParseJson, ReturnModel]
    }

    /** createParseJsonMethod: the super call, one statement per element in order, then
        the onComplete call when one is set. */
    method CreateParseJsonMethod() returns (body: seq<Stmt>)
      ensures |body| == 1 + |elements| + (if onCompleteMethod.Some? then 1 else 0)
      ensures body[0] == SuperCall(PARSE_JSON)
      ensures forall i :: 0 <= i < |elements| ==> body[i + 1] == ParseJsonStatement(elements[i])
      ensures onCompleteMethod.Some? ==> body[|body| - 1] == CallOnComplete(onCompleteMethod.value)
    {
      body := [SuperCall(PARSE_JSON)];
      for i := 0 to |elements|
        invariant |body| == 1 + i
        invariant body[0] == SuperCall(PARSE_JSON)
        invariant forall k :: 0 <= k < i ==> body[k + 1] == ParseJsonStatement(elements[k])
      {
        var el := elements[i];
        var stmt;
        if el.dimensions > 0 && !el.isPrimitive && !el.fromEpoxy {
          var elementClass := ArrayElementName(el);
          stmt := ReadArray(el.fieldName, el.getMethod, el.jsonName, elementClass, el.isOptional);
        } else if el.fromEpoxy {
          stmt := ReadViaEpoxy(el.fieldName, el.getMethod, el.jsonName, el.isOptional, el.className);
        } else {
          stmt := Read(el.fieldName, el.getMethod, el.jsonName, el.isOptional);
        }
        body := body + [stmt];
      }
      if onCompleteMethod.Some? {
        body := body + [CallOnComplete(onCompleteMethod.value)];
      }
    }

    /** createParseModelMethod: the super call, then one statement per element in order. */
    method CreateParseModelMethod() returns (body: seq<Stmt>)
      ensures |body| == 1 + |elements|
      ensures body[0] == SuperCall(PARSE_MODEL)
      ensures forall i :: 0 <= i < |elements| ==> body[i + 1] == ParseModelStatement(elements[i])
    {
      body := [SuperCall(PARSE_MODEL)];
      for i := 0 to |elements|
        invariant |body| == 1 + i
        invariant body[0] == SuperCall(PARSE_MODEL)
        invariant forall k :: 0 <= k < i ==> body[k + 1] == ParseModelStatement(elements[k])
      {
        var el := elements[i];
        var stmt;
        if el.isPrimitive && el.dimensions <= 0 {
          stmt := WritePrimitive(el.putMethod, el.jsonName, el.fieldName);
        } else if el.fromEpoxy {
          stmt := WriteViaEpoxy(el.putMethod, el.jsonName, el.fieldName, el.className, el.isOptional);
        } else {
          stmt := Write(el.putMethod, el.jsonName, el.fieldName, el.isOptional);
        }
        body := body + [stmt];
      }
    }
  }
}
