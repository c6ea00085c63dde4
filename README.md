# Epoxy, modelled in Dafny

Epoxy is a JSON-binding framework for Java in two halves.

- **Compile-time processor.** It looks at every field annotated `@JsonField` and rejects the
  fields generated code cannot reach or whose kind has no JSON form. It classifies each
  remaining field into a parse/put strategy (a `BindingElement`) and groups the elements into
  one `EpoxyJsonBinding` per enclosing class. It links each binding to the binding of its
  nearest annotated ancestor class, and it decides which statement template each element gets
  in the generated `parseJson` and `parseModel` bodies.
- **Runtime.**
  - The `Epoxy` registry resolves a type to a `JsonAdapter` and memoises the result. It tries
    a generated `<Class>$$JsonAdapter` first, then the core factory `CoreAdapters.createAdapter`.
  - The adapters read from a JSON reader and write to a JSON writer. There are the primitive,
    boxed, String, enum, array, list, map and dynamic Object adapters, and the `nullSafe`
    wrapper.
  - `EpoxyJsonBinder` holds the `org.json` helpers that generated binders call.

The modules follow the source files.

| module | models |
|---|---|
| `Elements` | The compiler metadata a field carries (kind, printed type, modifiers, enclosing type, annotations) and the superclass chain, which is a finite map whose parent ids are smaller than child ids, so every climb ends. |
| `EpoxyUtils` | `isOptional` and `hasAnnotationWithName`. |
| `EpoxyJsonBinding` | The `BindingElement` constructor (the classification and the dimension scan), `getArrayElementName`, and the `Binding` class with its mutable element list, parent link and onComplete method. The generated method bodies are sequences of an abstract statement datatype. |
| `EpoxyProcessor` | `findParentType`, `getClassName`, `isValidType`, `isInaccessibleViaGeneratedCode`, and the grouping and linking loops of `process`, over a map of `Binding` objects. |
| `JsonTokens` | JSON tokens and a `TokenReader` (a token sequence and a cursor) and a `TokenWriter` (a token list). These stand for `JsonReader` and `JsonWriter`. The module also holds runtime type descriptors and runtime values. |
| `JsonAdapter` | The adapter datatype (each adapter object carries an identity), `nullSafe`, `rangeCheckNextInt`, `lengthCheckNextChar` and `handleNull`. |
| `CoreAdapters` | `createAdapter` as a resolution function. What every adapter reads, as a function of the tokens, and writes, as a function of the value. The reading loops of the array, list, map and Object adapters as methods over the reader, proved against those functions. Also `toJsonType` and the LinkedHashMap `put`. |
| `CoreAdaptersProofs` | What an adapter reads or writes does not depend on object identities. The dynamic Object adapter writes exactly the values without a list inside and reads back every value it writes. |
| `TypedRoundTrip` | Every value of a type is written by the type's adapter and read back unchanged. |
| `EpoxyRegistry` | The `Epoxy` class: the adapter cache, `typeAdapter`, the container construction of `createAdapter` (which calls back into `typeAdapter`), and `fromJson`/`toJson`. Writing is a set of methods that append to the writer, proved against the write functions. |
| `EpoxyJsonBinder` | The opt/get helpers and the array-filling loops over an abstract `JSONObject` (a member map) and `JSONArray` (a sequence). |

Notes on what the code does, which the model follows:

- The processor has no List or Map strategy for fields. A field of a declared type that is not
  a listed boxed class is read through `getObject` and handed to `EpoxyJson`.
- Generated `parseJson`/`parseModel` bodies always start with the super call, with or without
  a parent binding.
- A field whose element cannot be built (for example `byte[]`) throws from the
  `BindingElement` constructor. That aborts the whole `process` call, not one binding.
- The registry probes `<Class>$$JsonAdapter`, while the processor names its classes
  `<Class>$$EpoxyBinder` (`EpoxyJsonBinding.java:39`, `JsonAdapter.java:34`). The model keeps
  the two apart: what the registry can load is a parameter `generated`, and generated
  adapters read and write nothing the model can see.
- `createAdapter` has no Collection case. A `Collection<T>` type passes the Map and List checks,
  has no array component type, and gets `null`, so `typeAdapter` throws "No JsonAdapter" for
  it. The Object adapter looks every list up as `Collection.class`, so writing a list through
  a field declared as Object throws too.
- The map adapter raises "has multiple values" only when the earlier value of the name is
  not null.
- `lengthCheckNextChar` raises its JsonException only for strings longer than one character.
  The empty string fails later, in `charAt(0)`.
- `getClassName` drops one character too many for a class in the unnamed package.
- The model keeps each of these behaviours. Each also has a corrected variant, used only to
  state the intended behaviour next to the one as written. See "Findings".

## Model

| member | source | states |
|---|---|---|
| EpoxyUtils.NameListed | epoxy-processor/src/main/java/me/oriley/epoxy/EpoxyUtils.java:40-45 | The inner loop answers true exactly when the simple name equals one of the names. |
| EpoxyUtils.HasAnnotationWithNameIsExists | epoxy-processor/src/main/java/me/oriley/epoxy/EpoxyUtils.java:38-48 | The nested search with early return answers true iff some annotation's simple name equals some listed name. |
| EpoxyUtils.HasAnnotationWithNameOrderFree | epoxy-processor/src/main/java/me/oriley/epoxy/EpoxyUtils.java:38-48 | The answer depends neither on the order of the annotations nor on the order of the names. |
| EpoxyUtils.IsOptional | epoxy-processor/src/main/java/me/oriley/epoxy/EpoxyUtils.java:34-36 | A set `optional()` flag makes a field optional. Otherwise it is optional iff an annotation's simple name is "Optional" or "Nullable". |
| EpoxyUtils.MarkerSearch | epoxy-processor/src/main/java/me/oriley/epoxy/EpoxyUtils.java:35-48 | Searching for the two marker names is an existential over the annotations. |
| EpoxyUtils.NotOptionalByDefault | epoxy-processor/src/main/java/me/oriley/epoxy/EpoxyUtils.java:34-47 | With the flag off and no annotations, a field is required. |
| EpoxyUtils.IsOptionalIgnoresPackage | epoxy-processor/src/main/java/me/oriley/epoxy/EpoxyUtils.java:41-42 | Annotations with the same simple names in other packages give the same answer. |
| EpoxyJsonBinding.IndexOfBox | epoxy-processor/src/main/java/me/oriley/epoxy/EpoxyJsonBinding.java:304 | `indexOf("[]", from)` answers the first occurrence at or after `from`, or -1 when there is none. |
| EpoxyJsonBinding.ScanDimensions | epoxy-processor/src/main/java/me/oriley/epoxy/EpoxyJsonBinding.java:302-311 | The scanning loop counts the "[]" occurrences the way `Dimensions` defines: all of them, unless the first is at index 0. |
| EpoxyJsonBinding.DimensionsOfBoxedName | epoxy-processor/src/main/java/me/oriley/epoxy/EpoxyJsonBinding.java:302-311 | A non-empty name without "[]" followed by k markers has k dimensions. |
| EpoxyJsonBinding.StripBoxedName | epoxy-processor/src/main/java/me/oriley/epoxy/EpoxyJsonBinding.java:313 | Removing every "[]" from a box-free name followed by k markers gives the name back. |
| EpoxyJsonBinding.NewBindingElement | epoxy-processor/src/main/java/me/oriley/epoxy/EpoxyJsonBinding.java:255-389 | The constructor, with its scanning loop, builds `Classify(e)`, or fails with the IllegalStateException. |
| EpoxyJsonBinding.PrimitiveFields | epoxy-processor/src/main/java/me/oriley/epoxy/EpoxyJsonBinding.java:267-297 | Each primitive kind gets its fixed getter/putter pair (SHORT: parseShort/putInteger, FLOAT: parseFloat/putDouble), is primitive, not fromEpoxy, with no dimensions. |
| EpoxyJsonBinding.DeclaredFields | epoxy-processor/src/main/java/me/oriley/epoxy/EpoxyJsonBinding.java:358-380 | A declared type is fromEpoxy iff it is not a listed boxed class. String gets parseValue, Short parseShort, Float parseFloat, any other class getObject, and the putter is always putObject. |
| EpoxyJsonBinding.FromEpoxyNotPrimitive | epoxy-processor/src/main/java/me/oriley/epoxy/EpoxyJsonBinding.java:344-380 | An element marked fromEpoxy is never primitive and is read by getObject or getArray. |
| EpoxyJsonBinding.ClassifyFailsExactly | epoxy-processor/src/main/java/me/oriley/epoxy/EpoxyJsonBinding.java:267-383 | The constructor throws exactly for the kinds it has no case for, and for arrays, for the component kinds it has no case for. It names the kind that fails. |
| EpoxyJsonBinding.ArrayFields | epoxy-processor/src/main/java/me/oriley/epoxy/EpoxyJsonBinding.java:298-357 | An array field printed as a name N followed by k markers is bound with class name N, k dimensions and putArray. |
| EpoxyJsonBinding.ArrayElementName | epoxy-processor/src/main/java/me/oriley/epoxy/EpoxyJsonBinding.java:392-398 | The loop appends one "[]" to the class name for every dimension beyond the first. |
| EpoxyJsonBinding.ArrayElementNameDropsOneBox | epoxy-processor/src/main/java/me/oriley/epoxy/EpoxyJsonBinding.java:392-398 | For an array field typed N plus k markers (k at least 1), the element class is N plus k - 1 markers. |
| EpoxyJsonBinding.ParseJsonTemplateOfField | epoxy-processor/src/main/java/me/oriley/epoxy/EpoxyJsonBinding.java:161-171 | Which parseJson template a field gets, by the shape of its declared type. Primitive kinds and boxed classes get a plain read, other declared classes a read through `EpoxyJson`. Arrays of arrays get the array read iff they have dimensions. Arrays of classes are read through `EpoxyJson` iff the class is not boxed. |
| EpoxyJsonBinding.BinderClassNameInjective | epoxy-processor/src/main/java/me/oriley/epoxy/EpoxyJsonBinding.java:124-126 | The binder class is the host class name with `$$EpoxyBinder` appended, in the host's package. Distinct host classes get distinct binder classes. |
| EpoxyJsonBinding.Binding.constructor | epoxy-processor/src/main/java/me/oriley/epoxy/EpoxyJsonBinding.java:96-99 | A new binding has the given package and class name, no elements, no parent and no onComplete method. |
| EpoxyJsonBinding.Binding.AddElement | epoxy-processor/src/main/java/me/oriley/epoxy/EpoxyJsonBinding.java:102-104 | The built element is appended. If building it throws, the list is unchanged and the exception is reported. |
| EpoxyJsonBinding.Binding.SetParentBinding | epoxy-processor/src/main/java/me/oriley/epoxy/EpoxyJsonBinding.java:106-108 | The parent link is set to the given binding. |
| EpoxyJsonBinding.Binding.SetOnCompleteMethod | epoxy-processor/src/main/java/me/oriley/epoxy/EpoxyJsonBinding.java:110-112 | The onComplete method is set to the given name. |
| EpoxyJsonBinding.Binding.SuperClassName | epoxy-processor/src/main/java/me/oriley/epoxy/EpoxyJsonBinding.java:115-121 | The superclass is the parent's binder class, in the parent's package, when a parent is set, and `EpoxyJsonBinder` otherwise. |
| EpoxyJsonBinding.Binding.CreateParseJsonMethod | epoxy-processor/src/main/java/me/oriley/epoxy/EpoxyJsonBinding.java:150-179 | The body is the super call, then exactly one statement per element in list order (its template chosen by dims > 0 and not primitive and not fromEpoxy, then fromEpoxy, then otherwise), then the onComplete call when one is set. |
| EpoxyJsonBinding.Binding.CreateParseModelMethod | epoxy-processor/src/main/java/me/oriley/epoxy/EpoxyJsonBinding.java:198-223 | The body is the super call, then exactly one write statement per element in list order. The template is chosen by primitive with no dimensions, then fromEpoxy, then otherwise. |
| EpoxyProcessor.NearestAncestor | epoxy-processor/src/main/java/me/oriley/epoxy/EpoxyProcessor.java:369-381 | An answer is a strict ancestor in the given set, never the type itself. |
| EpoxyProcessor.NearestAncestorIsFirst | epoxy-processor/src/main/java/me/oriley/epoxy/EpoxyProcessor.java:369-381 | The answer is the first ancestor, climbing the superclass chain, that is in the set. It is None exactly when no ancestor is in the set. |
| EpoxyProcessor.FindParentType | epoxy-processor/src/main/java/me/oriley/epoxy/EpoxyProcessor.java:369-381 | The climbing loop ends and answers `NearestAncestor`. |
| EpoxyProcessor.ReplaceDots | epoxy-processor/src/main/java/me/oriley/epoxy/EpoxyProcessor.java:298 | `replace('.', '$')` keeps the length and turns each '.' into '$' and nothing else. |
| EpoxyProcessor.GetClassNameOfQualified | epoxy-processor/src/main/java/me/oriley/epoxy/EpoxyProcessor.java:296-299 | For p.Outer.Inner in package p the class name is Outer$Inner: the package and its dot are dropped, and every remaining '.' becomes '$'. |
| EpoxyProcessor.GetClassNameAgreesInNamedPackage | epoxy-processor/src/main/java/me/oriley/epoxy/EpoxyProcessor.java:296-299 | The corrected and the as-written `getClassName` agree on every type in a named package. |
| EpoxyProcessor.GetClassNameAsWrittenDropsFirstLetter | epoxy-processor/src/main/java/me/oriley/epoxy/EpoxyProcessor.java:297-298 | As written, a class Foo in the unnamed package is named "oo". |
| EpoxyProcessor.IsValidTypeExactly | epoxy-processor/src/main/java/me/oriley/epoxy/EpoxyProcessor.java:318-334 | Exactly the BYTE and CHAR kinds are rejected. `byte[]` and `char[]` pass this check and fail later, in the element constructor. |
| EpoxyProcessor.IsInaccessibleViaGeneratedCode | epoxy-processor/src/main/java/me/oriley/epoxy/EpoxyProcessor.java:336-367 | All three checks run. The result is true iff the field is static or private, or the enclosing element is not a class, or it is private. Each failing check reports its own diagnostic. |
| EpoxyProcessor.EnclosingTypes | epoxy-processor/src/main/java/me/oriley/epoxy/EpoxyProcessor.java:111-119 | Every bound type is a known enclosing type. |
| EpoxyProcessor.EnclosingTypesExactly | epoxy-processor/src/main/java/me/oriley/epoxy/EpoxyProcessor.java:106-121 | A type gets a binding exactly when one of its fields passes the three filters. |
| EpoxyProcessor.BoundElementsAppend | epoxy-processor/src/main/java/me/oriley/epoxy/EpoxyProcessor.java:106-121 | Grouping distributes over concatenation of the field list, so elements keep encounter order. |
| EpoxyProcessor.FieldBoundOnce | epoxy-processor/src/main/java/me/oriley/epoxy/EpoxyProcessor.java:106-121 | An accepted field adds its element to the binding of its own enclosing type, between the fields before and after it, and to no other binding. |
| EpoxyProcessor.RejectedFieldNotBound | epoxy-processor/src/main/java/me/oriley/epoxy/EpoxyProcessor.java:107-109 | Removing a field that fails a filter changes no binding's elements. |
| EpoxyProcessor.RejectedFieldNoTypeNoFailure | epoxy-processor/src/main/java/me/oriley/epoxy/EpoxyProcessor.java:107-109 | Removing such a field changes neither the set of bound types nor the outcome. |
| EpoxyProcessor.EnclosingTypesAppend | epoxy-processor/src/main/java/me/oriley/epoxy/EpoxyProcessor.java:106-121 | The bound types of a concatenation are those of both parts. |
| EpoxyProcessor.FirstFailureAppend | epoxy-processor/src/main/java/me/oriley/epoxy/EpoxyProcessor.java:106-121 | The first failure of a concatenation is that of the first part, if it has one. |
| EpoxyProcessor.UnboundTypeIsEmpty | epoxy-processor/src/main/java/me/oriley/epoxy/EpoxyProcessor.java:115-120 | A type with no accepted field has nothing bound to it. |
| EpoxyProcessor.AcceptedStep | epoxy-processor/src/main/java/me/oriley/epoxy/EpoxyProcessor.java:111-120 | An accepted field adds its type to the bound types and its element to its type's binding, and a failure to build the element becomes the first failure. |
| EpoxyProcessor.RejectedStep | epoxy-processor/src/main/java/me/oriley/epoxy/EpoxyProcessor.java:107-109 | Skipping a rejected field leaves the grouping of the fields before it unchanged. |
| EpoxyProcessor.GroupFields | epoxy-processor/src/main/java/me/oriley/epoxy/EpoxyProcessor.java:105-121 | The grouping loop fails iff some accepted field's element cannot be built, with the first such failure. Otherwise it yields one fresh binding per bound type, holding that type's elements in encounter order and named by `getClassName` as written. |
| EpoxyProcessor.BindField | epoxy-processor/src/main/java/me/oriley/epoxy/EpoxyProcessor.java:111-120 | The loop body for an accepted field extends the grouping by that field. Existing map entries keep their bindings, and any new entry is fresh. |
| EpoxyProcessor.BindingFor | epoxy-processor/src/main/java/me/oriley/epoxy/EpoxyProcessor.java:115-119 | The enclosing type's binding is the one in the map, or a new empty binding with the type's package and the class name `getClassName` gives as written, put into the map. |
| EpoxyProcessor.AddTo | epoxy-processor/src/main/java/me/oriley/epoxy/EpoxyProcessor.java:120 | `addElement` on that binding extends the grouping by the field, or reports the element's failure as the first failure. |
| EpoxyProcessor.LinkParents | epoxy-processor/src/main/java/me/oriley/epoxy/EpoxyProcessor.java:128-135 | After the linking loop, each binding's parent is the binding of its nearest bound ancestor, or unset when there is none. Elements and onComplete methods are unchanged. |
| EpoxyProcessor.Process | epoxy-processor/src/main/java/me/oriley/epoxy/EpoxyProcessor.java:104-159 | `process` fails iff some accepted element cannot be built, reports the first such failure and emits nothing. Otherwise there is one distinct fresh binding per bound type, with the type's package, the class name `getClassName` gives as written, the elements in order, no onComplete method, and the parent linked. It emits nothing iff there are no bindings, and otherwise the binder classes plus `EpoxyJson`; with no fields it emits nothing. |
| JsonTokens.Consume | epoxy-runtime/src/main/java/me/oriley/epoxy/CoreAdapters.java:287-291 | beginArray, endArray, beginObject, endObject and nextNull consume exactly the expected token, and otherwise fail at that position. |
| JsonTokens.ReadBool | epoxy-runtime/src/main/java/me/oriley/epoxy/CoreAdapters.java:35 | nextBoolean succeeds exactly on a boolean token and answers its value. |
| JsonTokens.ReadNumber | epoxy-runtime/src/main/java/me/oriley/epoxy/CoreAdapters.java:87 | nextDouble succeeds exactly on a number token and answers its value. |
| JsonTokens.ReadString | epoxy-runtime/src/main/java/me/oriley/epoxy/CoreAdapters.java:179 | nextString succeeds exactly on a string token and answers its value. |
| JsonTokens.ReadName | epoxy-runtime/src/main/java/me/oriley/epoxy/CoreAdapters.java:376 | nextName succeeds exactly on a name token and answers the name. |
| JsonTokens.ReadInteger | epoxy-runtime/src/main/java/me/oriley/epoxy/CoreAdapters.java:124-156 | nextInt and nextLong succeed exactly on an integral number within the range. Another number raises NumberFormatException, and any other token an unexpected-token error. |
| JsonTokens.TokenReader.constructor | epoxy-runtime/src/main/java/me/oriley/epoxy/Epoxy.java:39-45 | A new reader stands at the start of its input. |
| JsonTokens.TokenReader.ConsumeToken | epoxy-runtime/src/main/java/me/oriley/epoxy/CoreAdapters.java:287-291 | It advances exactly as `Consume` says, and stays put on failure. |
| JsonTokens.TokenReader.NextBoolean | epoxy-runtime/src/main/java/me/oriley/epoxy/CoreAdapters.java:35 | It answers and advances as `ReadBool` says, and stays put on failure. |
| JsonTokens.TokenReader.NextNumber | epoxy-runtime/src/main/java/me/oriley/epoxy/CoreAdapters.java:87 | It answers and advances as `ReadNumber` says, and stays put on failure. |
| JsonTokens.TokenReader.NextString | epoxy-runtime/src/main/java/me/oriley/epoxy/CoreAdapters.java:179 | It answers and advances as `ReadString` says, and stays put on failure. |
| JsonTokens.TokenReader.NextName | epoxy-runtime/src/main/java/me/oriley/epoxy/CoreAdapters.java:376 | It answers and advances as `ReadName` says, and stays put on failure. |
| JsonTokens.TokenReader.NextInteger | epoxy-runtime/src/main/java/me/oriley/epoxy/CoreAdapters.java:124-156 | It answers and advances as `ReadInteger` says, and stays put on failure. |
| JsonTokens.TokenWriter.constructor | epoxy-runtime/src/main/java/me/oriley/epoxy/Epoxy.java:51-53 | A new writer has written nothing. |
| JsonTokens.TokenWriter.Write | epoxy-runtime/src/main/java/me/oriley/epoxy/CoreAdapters.java:38-41 | Writing appends exactly one token. |
| JsonAdapter.RangeChecked | epoxy-runtime/src/main/java/me/oriley/epoxy/JsonAdapter.java:76-83 | It answers the int v iff min <= v <= max. It raises the range error for an int outside, and passes on nextInt's own error. |
| JsonAdapter.RangeCheckNextInt | epoxy-runtime/src/main/java/me/oriley/epoxy/JsonAdapter.java:76-83 | The method answers and advances as `RangeChecked` says. An out-of-range number has already been consumed when the range error is raised. When nextInt itself fails, the reader stays where it was. |
| JsonAdapter.LengthChecked | epoxy-runtime/src/main/java/me/oriley/epoxy/JsonAdapter.java:85-91 | The corrected check answers the sole character of a one-character string. Any other string raises the JsonException, and a non-string token an unexpected-token error. |
| JsonAdapter.LengthCheckEmptyString | epoxy-runtime/src/main/java/me/oriley/epoxy/JsonAdapter.java:87-90 | As written, the empty string escapes the check and fails in `charAt(0)`. On every other input the two versions agree. |
| JsonAdapter.LengthCheckedAsWritten | epoxy-runtime/src/main/java/me/oriley/epoxy/JsonAdapter.java:85-91 | A one-character string answers its character. A longer string raises the JsonException, the empty string the index error of `charAt(0)`, and any other token an unexpected-token error. |
| JsonAdapter.LengthCheckNextChar | epoxy-runtime/src/main/java/me/oriley/epoxy/JsonAdapter.java:85-91 | The method answers and advances as `LengthCheckedAsWritten` says. A rejected string has already been consumed. A token that is not a string is left in place. |
| JsonAdapter.HandleNull | epoxy-runtime/src/main/java/me/oriley/epoxy/JsonAdapter.java:93-100 | It answers true iff the next token is null, and consumes exactly that token in that case and nothing otherwise. |
| CoreAdapters.CanonWith | epoxy-runtime/src/main/java/me/oriley/epoxy/Epoxy.java:65-99 | A resolution holds no object identities, and the adapter of any type other than Object writes without a further lookup (rank at most 1). |
| CoreAdapters.CoreWith | epoxy-runtime/src/main/java/me/oriley/epoxy/CoreAdapters.java:199-239 | The same, for what `createAdapter` builds. |
| CoreAdapters.FailingType | epoxy-runtime/src/main/java/me/oriley/epoxy/Epoxy.java:86-98 | The type that "No JsonAdapter for" names has no adapter itself. It is either an application class with no generated adapter or a Collection type. |
| CoreAdapters.ContainerResolution | epoxy-runtime/src/main/java/me/oriley/epoxy/CoreAdapters.java:223-238 | A Map, List or array type resolves exactly when its element type does, and its adapter holds the element type's adapter. A Collection type never resolves. |
| CoreAdapters.ResolutionShapes | epoxy-runtime/src/main/java/me/oriley/epoxy/CoreAdapters.java:200-235 | A generated adapter wins when one loads. A primitive class gets its bare shared adapter, and any other application class and every Collection type nothing. Every other type that resolves gets a nullSafe wrapper. |
| CoreAdapters.NoCollectionAgrees | epoxy-runtime/src/main/java/me/oriley/epoxy/CoreAdapters.java:219-235 | Without a Collection type inside, the dispatch with Collection served like List agrees with the dispatch as written. |
| CoreAdapters.RuntimeType | epoxy-runtime/src/main/java/me/oriley/epoxy/CoreAdapters.java:444-445 | `getClass()` is Object exactly for a plain Object (and for the null the wrapper has already handled). |
| CoreAdapters.ToJsonType | epoxy-runtime/src/main/java/me/oriley/epoxy/CoreAdapters.java:462-470 | Map implementations are looked up as Map, Collection implementations as Collection, and any other class as itself. |
| CoreAdapters.ObjectListLookup | epoxy-runtime/src/main/java/me/oriley/epoxy/CoreAdapters.java:450-466 | A list handed to the Object adapter is looked up as Collection, which `createAdapter` does not serve, and the "No JsonAdapter" error names Collection. |
| CoreAdapters.CollectionServedLikeList | epoxy-runtime/src/main/java/me/oriley/epoxy/CoreAdapters.java:219-235 | With Collection served like List, `Collection<T>` resolves exactly as `List<T>`, and the Object adapter's lookup of a list gets the list adapter over Object. |
| CoreAdapters.KeyIndex | epoxy-runtime/src/main/java/me/oriley/epoxy/CoreAdapters.java:378 | It answers where a key sits in the map, or -1 exactly when the key is absent. |
| CoreAdapters.Put | epoxy-runtime/src/main/java/me/oriley/epoxy/CoreAdapters.java:418 | LinkedHashMap.put: an existing key keeps its place and takes the new value, and a new key goes last. |
| CoreAdapters.PutKeepsDistinct | epoxy-runtime/src/main/java/me/oriley/epoxy/CoreAdapters.java:373-381 | Put keeps keys distinct. |
| CoreAdapters.PutCheckedAsWritten | epoxy-runtime/src/main/java/me/oriley/epoxy/CoreAdapters.java:376-380 | With distinct names, the check raises "has multiple values" iff the name is already there with a non-null value. Otherwise the value is put (a null earlier value is replaced in place, and a new name goes last). |
| CoreAdapters.PutChecked | epoxy-runtime/src/main/java/me/oriley/epoxy/CoreAdapters.java:376-380 | The corrected check raises "has multiple values" iff the name is already in the map. Otherwise the entry is appended. |
| CoreAdapters.DuplicateAfterNull | epoxy-runtime/src/main/java/me/oriley/epoxy/CoreAdapters.java:378-380 | As written, a name repeated after a null value replaces it silently. The corrected check raises. |
| CoreAdapters.PutCheckedAgrees | epoxy-runtime/src/main/java/me/oriley/epoxy/CoreAdapters.java:378-380 | The two checks agree unless the earlier value of the name is null. |
| CoreAdapters.ToByte | epoxy-runtime/src/main/java/me/oriley/epoxy/CoreAdapters.java:53 | The `(byte)` cast keeps the value's low eight bits, as a signed byte. |
| CoreAdapters.Decode | epoxy-runtime/src/main/java/me/oriley/epoxy/CoreAdapters.java:32-266 | Every successful read consumes at least one token and stays within the input. |
| CoreAdapters.DecodeArray | epoxy-runtime/src/main/java/me/oriley/epoxy/CoreAdapters.java:321-329 | The same for beginArray, the elements, endArray. |
| CoreAdapters.DecodeObject | epoxy-runtime/src/main/java/me/oriley/epoxy/CoreAdapters.java:372-384 | The same for beginObject, the name-value pairs, endObject. |
| CoreAdapters.DecodeDynamic | epoxy-runtime/src/main/java/me/oriley/epoxy/CoreAdapters.java:403-440 | The same for the Object adapter's read. |
| CoreAdapters.FromJson | epoxy-runtime/src/main/java/me/oriley/epoxy/CoreAdapters.java:32-266 | `adapter.fromJson(reader)` answers what `Decode` says and leaves the reader where `Decode` says. |
| CoreAdapters.ListFromJson | epoxy-runtime/src/main/java/me/oriley/epoxy/CoreAdapters.java:321-329 | The list adapter's reading loop does what `DecodeArray` says. |
| CoreAdapters.ArrayFromJson | epoxy-runtime/src/main/java/me/oriley/epoxy/CoreAdapters.java:285-297 | The array adapter's reading loop and copy do what `DecodeArray` says. |
| CoreAdapters.ArrayOf | epoxy-runtime/src/main/java/me/oriley/epoxy/CoreAdapters.java:292-295 | The new array has the list's length and element i is the list's element i. |
| CoreAdapters.MapFromJson | epoxy-runtime/src/main/java/me/oriley/epoxy/CoreAdapters.java:372-384 | The map adapter's reading loop, with the duplicate check as written, does what `DecodeObject` says. |
| CoreAdapters.ObjectFromJson | epoxy-runtime/src/main/java/me/oriley/epoxy/CoreAdapters.java:403-440 | The Object adapter's read does what `DecodeDynamic` says. |
| CoreAdapters.ObjectArrayFromJson | epoxy-runtime/src/main/java/me/oriley/epoxy/CoreAdapters.java:405-412 | After BEGIN_ARRAY, its loop reads the elements and the closing bracket exactly as `DynElems` says. |
| CoreAdapters.ObjectMapFromJson | epoxy-runtime/src/main/java/me/oriley/epoxy/CoreAdapters.java:414-421 | After BEGIN_OBJECT, its loop reads the name-value pairs and the closing brace exactly as `DynEntries` says, where a repeated name overwrites. |
| CoreAdaptersProofs.DecodeIgnoresIds | epoxy-runtime/src/main/java/me/oriley/epoxy/CoreAdapters.java:268-390 | What an adapter reads does not depend on which adapter objects it is made of. |
| CoreAdaptersProofs.EncodeIgnoresIds | epoxy-runtime/src/main/java/me/oriley/epoxy/CoreAdapters.java:268-390 | What an adapter writes does not depend on which adapter objects it is made of. |
| CoreAdaptersProofs.EncodeFirstToken | epoxy-runtime/src/main/java/me/oriley/epoxy/JsonAdapter.java:60-67 | Every successful write starts with a token that starts a value, and only a null value is written as a leading null token. |
| CoreAdaptersProofs.EncodeItemsCons | epoxy-runtime/src/main/java/me/oriley/epoxy/CoreAdapters.java:332-338 | The elements' tokens are the first element's followed by the rest's, and the first failure stops the writing. |
| CoreAdaptersProofs.EncodeEntriesCons | epoxy-runtime/src/main/java/me/oriley/epoxy/CoreAdapters.java:358-368 | The entries' tokens are the first entry's followed by the rest's. |
| CoreAdaptersProofs.DecodeDynamicIsDynamic | epoxy-runtime/src/main/java/me/oriley/epoxy/CoreAdapters.java:403-440 | What the Object adapter reads is null, a boolean, a string, a double, or a list or a map with distinct names of such values. |
| CoreAdaptersProofs.ObjectResolution | epoxy-runtime/src/main/java/me/oriley/epoxy/CoreAdapters.java:217 | Object resolves to the nullSafe Object adapter. |
| CoreAdaptersProofs.ObjectDelegates | epoxy-runtime/src/main/java/me/oriley/epoxy/CoreAdapters.java:443-451 | The Object adapter writes a non-null value as the adapter of its runtime class does. |
| CoreAdaptersProofs.DynamicEncoding | epoxy-runtime/src/main/java/me/oriley/epoxy/CoreAdapters.java:443-451 | It writes booleans, strings, doubles and null as one token, and a map as a map of Object. A list fails with the missing Collection adapter. |
| CoreAdaptersProofs.DynamicEncodes | epoxy-runtime/src/main/java/me/oriley/epoxy/CoreAdapters.java:443-451 | What it writes for a list-free dynamic value is exactly that value's token sequence. |
| CoreAdaptersProofs.ListEncodingFails | epoxy-runtime/src/main/java/me/oriley/epoxy/CoreAdapters.java:443-451 | A dynamic value with a list anywhere inside fails with the missing Collection adapter, because the first list met stops the writing. |
| CoreAdaptersProofs.DynamicWrites | epoxy-runtime/src/main/java/me/oriley/epoxy/CoreAdapters.java:443-451 | A dynamic value is written iff it holds no list. Then it is written as its token sequence; otherwise it fails with the missing Collection adapter. |
| CoreAdaptersProofs.DynTokensRead | epoxy-runtime/src/main/java/me/oriley/epoxy/CoreAdapters.java:403-440 | A dynamic value's token sequence, on its own, is read back as the value. |
| CoreAdaptersProofs.DynamicDecodes | epoxy-runtime/src/main/java/me/oriley/epoxy/CoreAdapters.java:403-440 | It reads a dynamic value's token sequence back as that value, consuming exactly those tokens. |
| CoreAdaptersProofs.DynamicRoundTrip | epoxy-runtime/src/main/java/me/oriley/epoxy/CoreAdapters.java:403-451 | The Object adapter reads back every dynamic value it writes, which is every list-free one. |
| TypedRoundTrip.TypedFits | epoxy-runtime/src/main/java/me/oriley/epoxy/CoreAdapters.java:199-238 | Every value of a type fits the adapter that type resolves to. |
| TypedRoundTrip.FitEncodes | epoxy-runtime/src/main/java/me/oriley/epoxy/CoreAdapters.java:38-451 | What an adapter writes for a value that fits it is exactly `FitTokens`. |
| TypedRoundTrip.FitListEncodes | epoxy-runtime/src/main/java/me/oriley/epoxy/CoreAdapters.java:331-338 | The list adapter writes beginArray, the elements in index order, endArray. |
| TypedRoundTrip.FitArrayEncodes | epoxy-runtime/src/main/java/me/oriley/epoxy/CoreAdapters.java:299-306 | The array adapter writes the same way. |
| TypedRoundTrip.FitMapEncodes | epoxy-runtime/src/main/java/me/oriley/epoxy/CoreAdapters.java:357-368 | The map adapter writes beginObject, each entry's name and value in iteration order, endObject. |
| TypedRoundTrip.FitObjectEncodes | epoxy-runtime/src/main/java/me/oriley/epoxy/CoreAdapters.java:443-451 | The Object adapter writes a list-free dynamic value as its token sequence. |
| TypedRoundTrip.FitFirstToken | epoxy-runtime/src/main/java/me/oriley/epoxy/JsonAdapter.java:60-67 | A fitting value's tokens start with a token that starts a value, and only null starts with the null token. |
| TypedRoundTrip.ByteCast | epoxy-runtime/src/main/java/me/oriley/epoxy/CoreAdapters.java:53-58 | For a byte, `value & 0xff` is at most 0xff, and the `(byte)` cast of it gives back the byte. |
| TypedRoundTrip.FitDecodes | epoxy-runtime/src/main/java/me/oriley/epoxy/CoreAdapters.java:32-384 | Every adapter reads `FitTokens(a, v)` back as v, consuming exactly those tokens. |
| TypedRoundTrip.FitNullSafeDecodes | epoxy-runtime/src/main/java/me/oriley/epoxy/JsonAdapter.java:51-57 | The nullSafe wrapper reads a fitting value's tokens back as the value: null from the single null token, anything else through its delegate. |
| TypedRoundTrip.FitListDecodes | epoxy-runtime/src/main/java/me/oriley/epoxy/CoreAdapters.java:321-329 | The list adapter reads a list's tokens back as the list, with the count and order of its elements. |
| TypedRoundTrip.FitArrayDecodes | epoxy-runtime/src/main/java/me/oriley/epoxy/CoreAdapters.java:285-297 | The array adapter reads an array's tokens back as the array. |
| TypedRoundTrip.FitMapDecodes | epoxy-runtime/src/main/java/me/oriley/epoxy/CoreAdapters.java:372-384 | The map adapter reads a map's tokens back as the map, in insertion order. |
| TypedRoundTrip.FitRoundTrip | epoxy-runtime/src/main/java/me/oriley/epoxy/CoreAdapters.java:32-384 | Every value that fits an adapter is written without error and read back by the same adapter as the same value, consuming exactly what was written. |
| TypedRoundTrip.TypedRoundTrip | epoxy-runtime/src/main/java/me/oriley/epoxy/CoreAdapters.java:199-384 | toJson and then fromJson through the adapter a type resolves to gives back every value of that type, including enum constants by `name()`. Where the type says Object, that means every list-free dynamic value. |
| TypedRoundTrip.DecodedKeysDistinct | epoxy-runtime/src/main/java/me/oriley/epoxy/CoreAdapters.java:372-384 | The map adapter never reads a map that repeats a name. A repeat either raises or replaces the earlier null in place. |
| EpoxyRegistry.Wrapped | epoxy-runtime/src/main/java/me/oriley/epoxy/CoreAdapters.java:222-238 | A Map, List or array adapter is two new objects (the container and its nullSafe wrapper) around the element adapter. |
| EpoxyRegistry.WrappedResolves | epoxy-runtime/src/main/java/me/oriley/epoxy/CoreAdapters.java:222-238 | Wrapping a resolution of the element type resolves the container type. |
| EpoxyRegistry.InsertKeepsValid | epoxy-runtime/src/main/java/me/oriley/epoxy/Epoxy.java:91-94 | Caching the resolution of a new type that holds the cached element adapter keeps the cache resolved, linked and within the identities handed out. |
| EpoxyRegistry.ItemsFailureSticks | epoxy-runtime/src/main/java/me/oriley/epoxy/CoreAdapters.java:332-338 | Once a prefix of the elements fails to write, the whole sequence fails the same way. |
| EpoxyRegistry.EntriesFailureSticks | epoxy-runtime/src/main/java/me/oriley/epoxy/CoreAdapters.java:358-368 | Once a prefix of the entries fails to write, the whole map fails the same way. |
| EpoxyRegistry.ObjectLookup | epoxy-runtime/src/main/java/me/oriley/epoxy/CoreAdapters.java:449-451 | Without an adapter for the runtime class, writing through the Object adapter fails as that lookup does. |
| EpoxyRegistry.ObjectWritesAs | epoxy-runtime/src/main/java/me/oriley/epoxy/CoreAdapters.java:449-451 | With one, it writes what that adapter writes. |
| EpoxyRegistry.Epoxy.constructor | epoxy-runtime/src/main/java/me/oriley/epoxy/Epoxy.java:28-31 | A new registry has an empty cache. |
| EpoxyRegistry.Epoxy.TypeAdapter | epoxy-runtime/src/main/java/me/oriley/epoxy/Epoxy.java:65-99 | On a cache hit it answers the cached adapter and builds nothing. On a miss it answers the resolution (generated adapter first) in new objects and caches it, or fails with "No JsonAdapter" and leaves the cache as it was. The cache only grows, and only by the type and its element types. |
| EpoxyRegistry.Epoxy.Insert | epoxy-runtime/src/main/java/me/oriley/epoxy/Epoxy.java:91-94 | `mAdapterCache.put` stores the adapter under the type. |
| EpoxyRegistry.Epoxy.CreateAdapter | epoxy-runtime/src/main/java/me/oriley/epoxy/CoreAdapters.java:199-239 | createAdapter answers an adapter iff the core factory serves the type. It answers null exactly for an application class (which only a generated adapter serves) and for a Collection type. It fails exactly when the element type of a Map, List or array type has no adapter, and then the cache is unchanged. |
| EpoxyRegistry.Epoxy.Single | epoxy-runtime/src/main/java/me/oriley/epoxy/CoreAdapters.java:200-222 | A type without element types gets its shared primitive adapter, or a new String, Object or enum adapter behind nullSafe. |
| EpoxyRegistry.Epoxy.Container | epoxy-runtime/src/main/java/me/oriley/epoxy/CoreAdapters.java:223-238 | A Map, List or array type gets a new container adapter around the element adapter, behind a new nullSafe wrapper. |
| EpoxyRegistry.Epoxy.FromJson | epoxy-runtime/src/main/java/me/oriley/epoxy/Epoxy.java:35-37 | `fromJson(reader, type)` reads what the type's adapter reads. Without an adapter it fails and leaves the reader where it was. |
| EpoxyRegistry.Epoxy.FromJsonTokens | epoxy-runtime/src/main/java/me/oriley/epoxy/Epoxy.java:39-45 | `fromJson(string, class)` reads the whole input from the start. |
| EpoxyRegistry.Epoxy.ToJson | epoxy-runtime/src/main/java/me/oriley/epoxy/Epoxy.java:47-49 | `toJson(writer, value, type)` appends what the type's adapter writes. Without an adapter it fails and writes nothing. |
| EpoxyRegistry.Epoxy.ToJsonTokens | epoxy-runtime/src/main/java/me/oriley/epoxy/Epoxy.java:51-61 | `toJson(value, class)` answers the tokens the adapter writes to a new writer. |
| EpoxyRegistry.Epoxy.WriteThenRead | epoxy-runtime/src/main/java/me/oriley/epoxy/Epoxy.java:43-61 | `toJson(value, class)` followed by `fromJson(string, class)` gives back every value of a type that has an adapter. |
| EpoxyRegistry.Epoxy.WriteValue | epoxy-runtime/src/main/java/me/oriley/epoxy/JsonAdapter.java:60-67 | `adapter.toJson` appends exactly what the adapter writes, or fails with its error. |
| EpoxyRegistry.Epoxy.WriteObject | epoxy-runtime/src/main/java/me/oriley/epoxy/CoreAdapters.java:443-452 | A plain Object is written as an empty object, and any other value by the adapter of its runtime class. |
| EpoxyRegistry.Epoxy.WriteItems | epoxy-runtime/src/main/java/me/oriley/epoxy/CoreAdapters.java:332-338 | The writing loop appends the elements in index order and stops at the first that fails. |
| EpoxyRegistry.Epoxy.WriteEntries | epoxy-runtime/src/main/java/me/oriley/epoxy/CoreAdapters.java:357-368 | The writing loop appends each entry's name and value in iteration order and stops at the first null key or failing value. |
| EpoxyRegistry.Epoxy.WriteEntry | epoxy-runtime/src/main/java/me/oriley/epoxy/CoreAdapters.java:361-365 | A null key raises "Map key is null". Otherwise the name is written, then the value. |
| EpoxyRegistry.Epoxy.WriteLeaf | epoxy-runtime/src/main/java/me/oriley/epoxy/CoreAdapters.java:38-191 | The primitive, String and enum adapters write what the write function says: `value & 0xff` for a byte, the one-character string for a char, `name()` for an enum. |
| EpoxyJsonBinder.Int32 | epoxy-runtime/src/main/java/me/oriley/epoxy/EpoxyJsonBinder.java:62-66 | An int read from a number keeps its low 32 bits, as two's complement. |
| EpoxyJsonBinder.Int64 | epoxy-runtime/src/main/java/me/oriley/epoxy/EpoxyJsonBinder.java:110-114 | A long read from a number keeps its low 64 bits. |
| EpoxyJsonBinder.Int16 | epoxy-runtime/src/main/java/me/oriley/epoxy/EpoxyJsonBinder.java:89 | The `(short)` cast keeps the low 16 bits, as two's complement. |
| EpoxyJsonBinder.NarrowingKeepsInRange | epoxy-runtime/src/main/java/me/oriley/epoxy/EpoxyJsonBinder.java:89 | A cast to a width the value already fits leaves the value unchanged. |
| EpoxyJsonBinder.ShortOfInt | epoxy-runtime/src/main/java/me/oriley/epoxy/EpoxyJsonBinder.java:86-90 | `(short)` after the int conversion is `(short)` of the number itself. |
| EpoxyJsonBinder.AsShort | epoxy-runtime/src/main/java/me/oriley/epoxy/EpoxyJsonBinder.java:105 | `(short) getInt(i)` succeeds iff getInt does, and it answers the narrowed value. |
| EpoxyJsonBinder.Get | epoxy-runtime/src/main/java/me/oriley/epoxy/EpoxyJsonBinder.java:41 | `get<Kind>(name)` raises for a missing member and converts a present one. |
| EpoxyJsonBinder.OptIsGetOrDefault | epoxy-runtime/src/main/java/me/oriley/epoxy/EpoxyJsonBinder.java:41 | `opt<Kind>` is `get<Kind>` with its exception replaced by the default. |
| EpoxyJsonBinder.Select | epoxy-runtime/src/main/java/me/oriley/epoxy/EpoxyJsonBinder.java:38-42 | `optional ? opt : get` never fails when optional. Otherwise it succeeds iff the member is present and converts, and the converted member wins whenever there is one. |
| EpoxyJsonBinder.ParseBoolean | epoxy-runtime/src/main/java/me/oriley/epoxy/EpoxyJsonBinder.java:38-42 | parseBoolean answers a boolean member, false when optional and it is missing or not a boolean, and raises otherwise. |
| EpoxyJsonBinder.ParseInteger | epoxy-runtime/src/main/java/me/oriley/epoxy/EpoxyJsonBinder.java:62-66 | parseInteger answers a number member's low 32 bits, 0 when optional and the member is missing or not a number, and raises otherwise. |
| EpoxyJsonBinder.ParseShort | epoxy-runtime/src/main/java/me/oriley/epoxy/EpoxyJsonBinder.java:86-90 | parseShort is parseInteger narrowed to 16 bits, with the same failures, always in the short range. |
| EpoxyJsonBinder.ParseShortIsAsShort | epoxy-runtime/src/main/java/me/oriley/epoxy/EpoxyJsonBinder.java:86-106 | parseShort reads a member the way parseShortArray reads an element. |
| EpoxyJsonBinder.ParseLong | epoxy-runtime/src/main/java/me/oriley/epoxy/EpoxyJsonBinder.java:110-114 | parseLong answers a number member's low 64 bits, 0 when optional and the member is missing or not a number, and raises otherwise. |
| EpoxyJsonBinder.ParseString | epoxy-runtime/src/main/java/me/oriley/epoxy/EpoxyJsonBinder.java:182-187 | parseString answers a string member, "" when optional and the member is missing or not a string, and raises otherwise. |
| EpoxyJsonBinder.SelectNullable | epoxy-runtime/src/main/java/me/oriley/epoxy/EpoxyJsonBinder.java:48 | `optional ? optJSONArray : getJSONArray` answers the member when it converts. Otherwise it answers null when optional and raises when not. |
| EpoxyJsonBinder.GetObject | epoxy-runtime/src/main/java/me/oriley/epoxy/EpoxyJsonBinder.java:207-212 | getObject answers an object member, null when optional and the member is missing or not an object, and raises otherwise. |
| EpoxyJsonBinder.GetArray | epoxy-runtime/src/main/java/me/oriley/epoxy/EpoxyJsonBinder.java:214-219 | getArray answers an array member, null when optional and the member is missing or not an array, and raises otherwise. |
| EpoxyJsonBinder.FirstBad | epoxy-runtime/src/main/java/me/oriley/epoxy/EpoxyJsonBinder.java:56-58 | It answers the index of the first element the conversion rejects, every element before it converting. |
| EpoxyJsonBinder.CopyArray | epoxy-runtime/src/main/java/me/oriley/epoxy/EpoxyJsonBinder.java:45-60 | The shared array loop answers null when the looked-up array is null. Otherwise it answers a new array of the JSON array's length whose element i comes from index i, or the first failing element's exception. |
| EpoxyJsonBinder.ParseBooleanArray | epoxy-runtime/src/main/java/me/oriley/epoxy/EpoxyJsonBinder.java:44-60 | parseBooleanArray is that loop with getBoolean. |
| EpoxyJsonBinder.ParseIntegerArray | epoxy-runtime/src/main/java/me/oriley/epoxy/EpoxyJsonBinder.java:68-84 | parseIntegerArray is that loop with getInt. |
| EpoxyJsonBinder.ParseShortArray | epoxy-runtime/src/main/java/me/oriley/epoxy/EpoxyJsonBinder.java:92-108 | parseShortArray is that loop with every element narrowed to 16 bits. |
| EpoxyJsonBinder.ParseLongArray | epoxy-runtime/src/main/java/me/oriley/epoxy/EpoxyJsonBinder.java:116-132 | parseLongArray is that loop with getLong. |
| EpoxyJsonBinder.ParseStringArray | epoxy-runtime/src/main/java/me/oriley/epoxy/EpoxyJsonBinder.java:189-205 | parseStringArray is that loop with getString. |

## Left out

- Floating point. Numbers are exact reals. The Double and Float adapters read and write a number unchanged: there is no float rounding, no NaN or infinity, and no digit formatting. `parseFloat`, `parseDouble`, `parseFloatArray` and `parseDoubleArray` are not modelled. Their fields are classified (parseFloat/putDouble), because classification is string logic.
- The internals of `JsonReader`, `JsonWriter` and `org.json`. JSON text is a token sequence, and the text overloads of `fromJson`/`toJson` (Reader, Writer, String) read or produce the whole sequence. The reader's lenient coercions (a number read by `nextString`, a numeric string read by `nextInt`) are not modelled: each read accepts only its own token kind. `JSONObject`'s coercions are modelled only as far as the conversion functions say (a number member is read by getInt and getLong, and nothing else converts). Numbers in a `JSONObject` are integers in the model, so the truncation getInt and getLong apply to a fractional member is not modelled.
- Writing on failure. A failing `toJson` leaves the writer with the tokens written before the failure. The model states the error and not those partial tokens.
- Generated adapters (`<Class>$$JsonAdapter`). Which ones load is the parameter `generated`. They read and write through code outside this model, and report `External`.
- Reflection. `Class.forName`/`newInstance` is the `generated` parameter. `Array.newInstance`/`Array.set` is the `ArrayOf` loop, and the element class is kept as a type in the array value.
- The `Types` helper (`getRawType`, `mapKeyAndValueTypes`, `collectionElementType`, `arrayComponentType`). Runtime types are a datatype that already carries its element type. Map keys are always strings.
- Object identities. An adapter object is a datatype value with a number drawn from a counter in the registry. "The identical instance" means the same number.
- `synchronized` around the cache. The model is sequential.
- Annotation processing plumbing. `SuperficialValidation`, the annotation mirrors and `Elements.getPackageOf` become inputs of each field. The Messager diagnostics are a returned list. The Filer writes are the set of emitted class names.
- JavaPoet emission. The `EpoxyJson` facade, its static registry block and the `$L/$T` templates are not modelled. Statements are an abstract datatype. Generated `fromJson` (`createFromJsonMethod`) is the fixed three-statement body `FromJsonBody`, a constant whose templates are not modelled, so it has no contract and no row. `createToJsonMethod` (a fixed three-statement body as well) is not modelled.
- `toString` methods, and the exception message texts beyond the data they carry.
- `EpoxyJsonBinder.fromJson` and `parseJson`: one is abstract and the other has an empty body.
- EpoxyJsonBinder.SelectNullable: the JSONException raised for a present member of the wrong kind is not distinguished by message; only the missing-member error is stated exactly.
- EpoxyProcessor.Process: it does not model the I/O error path of writing a binding (report and continue), since Filer writes are left out.

## Findings

| source | as written | input that shows it | evidently intended | confidence | as-written member | corrected member |
|---|---|---|---|---|---|---|
| epoxy-runtime/src/main/java/me/oriley/epoxy/CoreAdapters.java:378-380 | The map adapter raises "has multiple values" only when `put` returns a non-null earlier value. | `{"a": null, "a": 1}` read as `Map<String, Integer>` gives `{a=1}` without an error. | Any repeated name raises, as the message says. | not executed | CoreAdapters.DuplicateAfterNull | CoreAdapters.PutChecked |
| epoxy-runtime/src/main/java/me/oriley/epoxy/CoreAdapters.java:450-466 | The Object adapter looks a List value up as `Collection.class`, and `createAdapter` has no Collection case, so it throws "No JsonAdapter". | Writing an `ArrayList` through a field declared as `Object`. | Collection served like List. | not executed | CoreAdapters.ObjectListLookup | CoreAdapters.CollectionServedLikeList |
| epoxy-processor/src/main/java/me/oriley/epoxy/EpoxyProcessor.java:297-298 | `getClassName` always skips the package name plus one character. | Class `Foo` in the unnamed package is named `oo`. | Skip the dot only when there is a package. | not executed | EpoxyProcessor.GetClassNameAsWrittenDropsFirstLetter | EpoxyProcessor.GetClassNameOfQualified |
| epoxy-runtime/src/main/java/me/oriley/epoxy/JsonAdapter.java:87-90 | `lengthCheckNextChar` rejects only strings longer than one character. | `""` read as a `char` throws StringIndexOutOfBoundsException from `charAt(0)`. | The JsonException for every string that is not one character. | not executed | JsonAdapter.LengthCheckEmptyString | JsonAdapter.LengthChecked |
