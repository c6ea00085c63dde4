/** CoreAdapters: the core factory's dispatch (createAdapter, with typeAdapter's probe for
    generated adapters in front of it), what every core adapter reads and writes, and the
    fromJson loops of the array, list, map and Object adapters over the token reader. */
module CoreAdapters {
  import opened Wrappers
  import opened JsonTokens
  import opened JsonAdapter

  // ---------------------------------------------------------------------------
  // Resolution of a type to an adapter, with object identities erased

  /** The class whose `<name>$$JsonAdapter` typeAdapter tries to load. Generated adapters
      exist only for application classes; JDK classes, arrays and parameterised types have
      none, so only enum and other application classes are probed. */
  function ProbeName(t: RType): Option<string>
  {
    match t
    case EnumT(e) => Some(e.name)
    case ClassT(n, _) => Some(n)
    case _ => None
  }

  /** The adapter typeAdapter(t) resolves to, given the classes `gen` whose generated adapter
      loads. `collections` says whether createAdapter serves Collection types like List. */
  function CanonWith(gen: set<string>, t: RType, collections: bool): (r: Option<Adapter>)
    ensures r.Some? && t != ObjectT ==> Rank(r.value) <= 1
    ensures r.Some? ==> Erase(r.value) == r.value
    decreases t, 1
  {
    var n := ProbeName(t);
    if n.Some? && n.value in gen then Some(Generated(0, n.value)) else CoreWith(gen, t, collections)
  }

  /** createAdapter: every element type is resolved through typeAdapter, and a failure
      there propagates. */
  function CoreWith(gen: set<string>, t: RType, collections: bool): (r: Option<Adapter>)
    ensures r.Some? && t != ObjectT ==> Rank(r.value) <= 1
    ensures r.Some? ==> Erase(r.value) == r.value
    decreases t, 0
  {
    match t
    case Prim(p) => Some(Bare(p))
    case Boxed(p) => Some(NullSafe(0, Bare(p)))
    case StringT => Some(NullSafe(0, StringA))
    case ObjectT => Some(NullSafe(0, ObjectA(0)))
    case EnumT(e) => Some(NullSafe(0, EnumA(0, e)))
    case ClassT(_, _) => None
    case MapT(vt) =>
      var va := CanonWith(gen, vt, collections);
      if va.None? then None else Some(NullSafe(0, MapA(0, va.value)))
    case ListT(et) =>
      var ea := CanonWith(gen, et, collections);
      if ea.None? then None else Some(NullSafe(0, ListA(0, ea.value)))
    case CollectionT(et) =>
      if !collections then None
      else
        var ea := CanonWith(gen, et, collections);
        if ea.None? then None else Some(NullSafe(0, ListA(0, ea.value)))
    case ArrayT(ct) =>
      var ea := CanonWith(gen, ct, collections);
      if ea.None? then None else Some(NullSafe(0, ArrayA(0, ct, ea.value)))
  }

  /** typeAdapter over createAdapter as written: a Collection type passes the Map and List
      checks, has no array component type and so has no adapter. */
  function Canon(gen: set<string>, t: RType): Option<Adapter>
  {
    CanonWith(gen, t, false)
  }

  /** The dispatch with Collection types served like List, as the Object adapter's lookup of
      a Collection implementation needs. */
  function CanonCorrected(gen: set<string>, t: RType): Option<Adapter>
  {
    CanonWith(gen, t, true)
  }

  /** The type named by the "No JsonAdapter for ..." exception: the innermost element type
      that has no adapter. */
  function FailingType(gen: set<string>, t: RType): (r: RType)
    requires Canon(gen, t).None?
    ensures Canon(gen, r).None?
    ensures (r.ClassT? && r.name !in gen) || r.CollectionT?
  {
    assert Canon(gen, t) == CoreWith(gen, t, false);
    match t
    case MapT(vt) => FailingType(gen, vt)
    case ListT(et) => FailingType(gen, et)
    case CollectionT(_) => t
    case ArrayT(ct) => FailingType(gen, ct)
    case ClassT(_, _) => t
  }

  /** The element or value type of a container type. */
  function Child(t: RType): Option<RType>
  {
    match t
    case MapT(vt) => Some(vt)
    case ListT(et) => Some(et)
    case CollectionT(et) => Some(et)
    case ArrayT(ct) => Some(ct)
    case _ => None
  }

  /** The element or value adapter a container adapter holds. */
  function Inner(a: Adapter): Option<Adapter>
  {
    match a
    case NullSafe(_, MapA(_, va)) => Some(va)
    case NullSafe(_, ListA(_, ea)) => Some(ea)
    case NullSafe(_, ArrayA(_, _, ea)) => Some(ea)
    case _ => None
  }

  /** A Map, List or array type resolves exactly when its element type does, and it holds
      the element type's adapter; a Collection type never resolves. */
  lemma ContainerResolution(gen: set<string>, t: RType)
    requires Child(t).Some?
    ensures t.CollectionT? ==> Canon(gen, t).None?
    ensures !t.CollectionT? ==> (Canon(gen, t).Some? <==> Canon(gen, Child(t).value).Some?)
    ensures Canon(gen, t).Some? ==> Inner(Canon(gen, t).value) == Canon(gen, Child(t).value)
  {
    assert Canon(gen, t) == CoreWith(gen, t, false);
  }

  /** The shape of what each kind of type resolves to: a generated adapter when one loads
      for an application class, else the bare shared adapter for a primitive class, nothing
      for any other application class, and a nullSafe wrapper for everything else. */
  lemma ResolutionShapes(gen: set<string>, t: RType)
    ensures ProbeName(t).Some? && ProbeName(t).value in gen ==>
              Canon(gen, t) == Some(Generated(0, ProbeName(t).value))
    ensures t.Prim? ==> Canon(gen, t) == Some(Bare(t.p))
    ensures t.ClassT? && t.name !in gen ==> Canon(gen, t).None?
    ensures t.CollectionT? ==> Canon(gen, t).None?
    ensures !t.Prim? && !t.ClassT? && !(t.EnumT? && t.e.name in gen) && Canon(gen, t).Some? ==>
              Canon(gen, t).value.NullSafe?
  {
    if !(ProbeName(t).Some? && ProbeName(t).value in gen) {
      assert Canon(gen, t) == CoreWith(gen, t, false);
    }
  }

  predicate HasCollection(t: RType)
  {
    match t
    case CollectionT(_) => true
    case MapT(vt) => HasCollection(vt)
    case ListT(et) => HasCollection(et)
    case ArrayT(ct) => HasCollection(ct)
    case _ => false
  }

  /** Without a Collection type anywhere inside, the corrected and the as-written dispatch
      agree. */
  lemma {:induction false} NoCollectionAgrees(gen: set<string>, t: RType)
    requires !HasCollection(t)
    ensures CanonCorrected(gen, t) == Canon(gen, t)
  {
    if ProbeName(t).Some? && ProbeName(t).value in gen {
      return;
    }
    assert CanonCorrected(gen, t) == CoreWith(gen, t, true);
    assert Canon(gen, t) == CoreWith(gen, t, false);
    match t
    case MapT(vt) => NoCollectionAgrees(gen, vt);
    case ListT(et) => NoCollectionAgrees(gen, et);
    case ArrayT(ct) => NoCollectionAgrees(gen, ct);
    case _ =>
  }

  // ---------------------------------------------------------------------------
  // Runtime types for the Object adapter

  /** value.getClass(), as a type. A list is an ArrayList and a map a LinkedHashMap. */
  function RuntimeType(v: JValue): (t: RType)
    ensures t == ObjectT <==> v == JNull || v == JPlainObject
  {
    match v
    case JNull => ObjectT
    case JBool(_) => Boxed(PBoolean)
    case JByte(_) => Boxed(PByte)
    case JChar(_) => Boxed(PChar)
    case JShort(_) => Boxed(PShort)
    case JInt(_) => Boxed(PInt)
    case JLong(_) => Boxed(PLong)
    case JFloat(_) => Boxed(PFloat)
    case JDouble(_) => Boxed(PDouble)
    case JString(_) => StringT
    case JEnum(e, _) => EnumT(e)
    case JArray(c, _) => ArrayT(c)
    case JList(_) => ClassT("java.util.ArrayList", CollectionImpl)
    case JMap(_) => ClassT("java.util.LinkedHashMap", MapImpl)
    case JPlainObject => ObjectT
    case JUser(n) => ClassT(n, Plain)
  }

  /** toJsonType: Map implementations are written as Map, Collection implementations as
      Collection, and every other class as itself. */
  function ToJsonType(t: RType): (r: RType)
    ensures t.ClassT? && t.shape == MapImpl ==> r == MapT(ObjectT)
    ensures t.ClassT? && t.shape == CollectionImpl ==> r == CollectionT(ObjectT)
    ensures !(t.ClassT? && t.shape != Plain) ==> r == t
  {
    match t
    case ClassT(_, MapImpl) => MapT(ObjectT)
    case ClassT(_, CollectionImpl) => CollectionT(ObjectT)
    case _ => t
  }

  /** Every list the Object adapter is asked to write is looked up as Collection, which the
      dispatch as written does not serve: the lookup names Collection as the failing type. */
  lemma ObjectListLookup(gen: set<string>, items: seq<JValue>)
    ensures Canon(gen, ToJsonType(RuntimeType(JList(items)))).None?
    ensures FailingType(gen, ToJsonType(RuntimeType(JList(items)))) == CollectionT(ObjectT)
  {
  }

  /** With Collection served like List, Collection<T> resolves exactly as List<T> does, and
      a list written through the Object adapter gets the list adapter over Object. */
  lemma CollectionServedLikeList(gen: set<string>, et: RType, items: seq<JValue>)
    ensures CanonCorrected(gen, CollectionT(et)) == CanonCorrected(gen, ListT(et))
    ensures CanonCorrected(gen, ToJsonType(RuntimeType(JList(items)))) ==
              Some(NullSafe(0, ListA(0, NullSafe(0, ObjectA(0)))))
  {
    CollectionLikeList(gen, et);
    assert ToJsonType(RuntimeType(JList(items))) == CollectionT(ObjectT);
    CollectionLikeList(gen, ObjectT);
    assert CanonCorrected(gen, ObjectT) == Some(NullSafe(0, ObjectA(0)));
    assert CanonCorrected(gen, ListT(ObjectT)) == CoreWith(gen, ListT(ObjectT), true);
  }

  lemma CollectionLikeList(gen: set<string>, et: RType)
    ensures CanonCorrected(gen, CollectionT(et)) == CanonCorrected(gen, ListT(et))
  {
    assert CanonCorrected(gen, CollectionT(et)) == CoreWith(gen, CollectionT(et), true);
    assert CanonCorrected(gen, ListT(et)) == CoreWith(gen, ListT(et), true);
  }

  // ---------------------------------------------------------------------------
  // Map insertion (LinkedHashMap)

  type Entries = seq<Entry>

  /** Where key `k` sits in the map, or -1. */
  function KeyIndex(es: Entries, k: Option<string>): (i: int)
    ensures -1 <= i < |es|
    ensures i >= 0 ==> es[i].key == k
    ensures i == -1 <==> forall j :: 0 <= j < |es| ==> es[j].key != k
  {
    if |es| == 0 then -1
    else if es[|es| - 1].key == k then |es| - 1
    else KeyIndex(es[..|es| - 1], k)
  }

  predicate DistinctKeys(es: Entries)
  {
    forall i, j :: 0 <= i < j < |es| ==> es[i].key != es[j].key
  }

  /** put: an existing key keeps its place and takes the new value; a new key goes last. */
  function Put(es: Entries, k: Option<string>, v: JValue): (r: Entries)
    ensures KeyIndex(es, k) >= 0 ==> r == es[KeyIndex(es, k) := Entry(k, v)]
    ensures KeyIndex(es, k) == -1 ==> r == es + [Entry(k, v)]
  {
    var i := KeyIndex(es, k);
    if i >= 0 then es[i := Entry(k, v)] else es + [Entry(k, v)]
  }

  /** Put preserves distinct keys. */
  lemma PutKeepsDistinct(es: Entries, k: Option<string>, v: JValue)
    requires DistinctKeys(es)
    ensures DistinctKeys(Put(es, k, v))
  {
    var r := Put(es, k, v);
    var i := KeyIndex(es, k);
    if i >= 0 {
      forall a, b | 0 <= a < b < |r|
        ensures r[a].key != r[b].key
      {
        assert r[a].key == es[a].key && r[b].key == es[b].key;
      }
    } else {
      forall a, b | 0 <= a < b < |r|
        ensures r[a].key != r[b].key
      {
        if b == |es| {
          assert r[a].key == es[a].key && r[b].key == k;
        }
      }
    }
  }

  /** The map adapter's put-and-check as written: it raises only when put returns a
      non-null earlier value, so a repeat of a name whose first value was null passes. */
  function PutCheckedAsWritten(es: Entries, name: string, v: JValue): (r: Result<Entries, Error>)
    ensures DistinctKeys(es) ==>
              (r.Failure? <==> exists j :: 0 <= j < |es| && es[j].key == Some(name) && es[j].val != JNull)
    ensures r.Failure? ==> r.error == DuplicateKey(name)
    ensures r.Success? ==> r.value == Put(es, Some(name), v)
    ensures r.Success? && (forall j :: 0 <= j < |es| ==> es[j].key != Some(name)) ==>
              r.value == es + [Entry(Some(name), v)]
  {
    var i := KeyIndex(es, Some(name));
    if i >= 0 && es[i].val != JNull then Failure(DuplicateKey(name))
    else Success(Put(es, Some(name), v))
  }

  /** The check the exception message promises: any repeated name raises. */
  function PutChecked(es: Entries, name: string, v: JValue): (r: Result<Entries, Error>)
    ensures r.Failure? <==> exists j :: 0 <= j < |es| && es[j].key == Some(name)
    ensures r.Failure? ==> r.error == DuplicateKey(name)
    ensures r.Success? ==> r.value == es + [Entry(Some(name), v)]
  {
    if KeyIndex(es, Some(name)) >= 0 then Failure(DuplicateKey(name))
    else Success(es + [Entry(Some(name), v)])
  }

  /** The two checks differ on a name repeated after a null value: as written the null is
      silently replaced. */
  lemma DuplicateAfterNull()
    ensures PutCheckedAsWritten([Entry(Some("a"), JNull)], "a", JInt(1)) == Success([Entry(Some("a"), JInt(1))])
    ensures PutChecked([Entry(Some("a"), JNull)], "a", JInt(1)) == Failure(DuplicateKey("a"))
  {
    var es: Entries := [Entry(Some("a"), JNull)];
    assert KeyIndex(es, Some("a")) == 0;
    assert Put(es, Some("a"), JInt(1)) == es[0 := Entry(Some("a"), JInt(1))] == [Entry(Some("a"), JInt(1))];
  }

  /** Otherwise they agree. */
  lemma PutCheckedAgrees(es: Entries, name: string, v: JValue)
    requires DistinctKeys(es)
    requires KeyIndex(es, Some(name)) == -1 || es[KeyIndex(es, Some(name))].val != JNull
    ensures PutCheckedAsWritten(es, name, v) == PutChecked(es, name, v)
  {
  }

  // ---------------------------------------------------------------------------
  // What each adapter reads: fromJson as a function of the tokens and the position

  /** The byte cast of the Byte adapter: the low eight bits as a signed value. */
  function ToByte(v: int): (b: int)
    ensures -128 <= b <= 127
    ensures (b - v) % 256 == 0
  {
    (v + 128) % 256 - 128
  }

  /** fromJson: the value read and the position after it. */
  function Decode(a: Adapter, toks: seq<Token>, pos: nat): (r: Result<(JValue, nat), Error>)
    requires pos <= |toks|
    ensures r.Success? ==> pos < r.value.1 <= |toks|
    decreases |toks| - pos, Size(a), 1
  {
    match a
    case BooleanA =>
      var b := ReadBool(toks, pos);
      if b.Failure? then Failure(b.error) else Success((JBool(b.value.0), b.value.1))
    case ByteA =>
      var n := RangeChecked(toks, pos, BYTE_MIN, 0xff);
      if n.Failure? then Failure(n.error) else Success((JByte(ToByte(n.value.0)), n.value.1))
    case CharA =>
      var c := LengthCheckedAsWritten(toks, pos);
      if c.Failure? then Failure(c.error) else Success((JChar(c.value.0), c.value.1))
    case DoubleA =>
      var n := ReadNumber(toks, pos);
      if n.Failure? then Failure(n.error) else Success((JDouble(n.value.0), n.value.1))
    case FloatA =>
      var n := ReadNumber(toks, pos);
      if n.Failure? then Failure(n.error) else Success((JFloat(n.value.0), n.value.1))
    case IntA =>
      var n := ReadInteger(toks, pos, INT_MIN, INT_MAX);
      if n.Failure? then Failure(n.error) else Success((JInt(n.value.0), n.value.1))
    case LongA =>
      var n := ReadInteger(toks, pos, LONG_MIN, LONG_MAX);
      if n.Failure? then Failure(n.error) else Success((JLong(n.value.0), n.value.1))
    case ShortA =>
      var n := RangeChecked(toks, pos, SHORT_MIN, SHORT_MAX);
      if n.Failure? then Failure(n.error) else Success((JShort(n.value.0), n.value.1))
    case StringA =>
      var s := ReadString(toks, pos);
      if s.Failure? then Failure(s.error) else Success((JString(s.value.0), s.value.1))
    case NullSafe(_, d) =>
      if pos < |toks| && toks[pos] == Null then Success((JNull, pos + 1)) else Decode(d, toks, pos)
    case ObjectA(_) => DecodeDynamic(toks, pos)
    case EnumA(_, e) =>
      var s := ReadString(toks, pos);
      if s.Failure? then Failure(s.error)
      else if s.value.0 in e.constants then Success((JEnum(e, s.value.0), s.value.1))
      else Failure(UnknownConstant(s.value.0, e.constants))
    case MapA(_, va) =>
      var m := DecodeObject(va, toks, pos);
      if m.Failure? then Failure(m.error) else Success((JMap(m.value.0), m.value.1))
    case ListA(_, ea) =>
      var l := DecodeArray(ea, toks, pos);
      if l.Failure? then Failure(l.error) else Success((JList(l.value.0), l.value.1))
    case ArrayA(_, c, ea) =>
      var l := DecodeArray(ea, toks, pos);
      if l.Failure? then Failure(l.error) else Success((JArray(c, l.value.0), l.value.1))
    case Generated(_, _) => Failure(External)
  }

  /** beginArray, elements until !hasNext, endArray. */
  function DecodeArray(ea: Adapter, toks: seq<Token>, pos: nat): (r: Result<(seq<JValue>, nat), Error>)
    requires pos <= |toks|
    ensures r.Success? ==> pos < r.value.1 <= |toks|
    decreases |toks| - pos, Size(ea) + 1, 0
  {
    var b := Consume(toks, pos, BeginArray);
    if b.Failure? then Failure(b.error) else DecodeElems(ea, toks, b.value, [])
  }

  /** The element loop, `acc` holding the elements read so far. */
  function DecodeElems(ea: Adapter, toks: seq<Token>, p: nat, acc: seq<JValue>): (r: Result<(seq<JValue>, nat), Error>)
    requires p <= |toks|
    ensures r.Success? ==> p < r.value.1 <= |toks|
    decreases |toks| - p, Size(ea) + 1, 1
  {
    if HasNext(toks, p) then
      var x := Decode(ea, toks, p);
      if x.Failure? then Failure(x.error) else DecodeElems(ea, toks, x.value.1, acc + [x.value.0])
    else
      var e := Consume(toks, p, EndArray);
      if e.Failure? then Failure(e.error) else Success((acc, e.value))
  }

  /** beginObject, name-value pairs until !hasNext, endObject. */
  function DecodeObject(va: Adapter, toks: seq<Token>, pos: nat): (r: Result<(Entries, nat), Error>)
    requires pos <= |toks|
    ensures r.Success? ==> pos < r.value.1 <= |toks|
    decreases |toks| - pos, Size(va) + 1, 0
  {
    var b := Consume(toks, pos, BeginObject);
    if b.Failure? then Failure(b.error) else DecodeEntries(va, toks, b.value, [])
  }

  function DecodeEntries(va: Adapter, toks: seq<Token>, p: nat, acc: Entries): (r: Result<(Entries, nat), Error>)
    requires p <= |toks|
    ensures r.Success? ==> p < r.value.1 <= |toks|
    decreases |toks| - p, Size(va) + 1, 1
  {
    if HasNext(toks, p) then
      var n := ReadName(toks, p);
      if n.Failure? then Failure(n.error)
      else
        var x := Decode(va, toks, n.value.1);
        if x.Failure? then Failure(x.error)
        else
          var m := PutCheckedAsWritten(acc, n.value.0, x.value.0);
          if m.Failure? then Failure(m.error) else DecodeEntries(va, toks, x.value.1, m.value)
    else
      var e := Consume(toks, p, EndObject);
      if e.Failure? then Failure(e.error) else Success((acc, e.value))
  }

  /** The Object adapter's fromJson: arrays become lists, objects ordered maps (a repeated
      name overwrites), numbers doubles. */
  function DecodeDynamic(toks: seq<Token>, pos: nat): (r: Result<(JValue, nat), Error>)
    requires pos <= |toks|
    ensures r.Success? ==> pos < r.value.1 <= |toks|
    decreases |toks| - pos, 0
  {
    if pos == |toks| then Failure(ExpectedValue(pos))
    else
      match toks[pos]
      case BeginArray =>
        var l := DynElems(toks, pos + 1, []);
        if l.Failure? then Failure(l.error) else Success((JList(l.value.0), l.value.1))
      case BeginObject =>
        var m := DynEntries(toks, pos + 1, []);
        if m.Failure? then Failure(m.error) else Success((JMap(m.value.0), m.value.1))
      case Str(s) => Success((JString(s), pos + 1))
      case Num(n) => Success((JDouble(n), pos + 1))
      case Bool(b) => Success((JBool(b), pos + 1))
      case Null => Success((JNull, pos + 1))
      case _ => Failure(ExpectedValue(pos))
  }

  function DynElems(toks: seq<Token>, p: nat, acc: seq<JValue>): (r: Result<(seq<JValue>, nat), Error>)
    requires p <= |toks|
    ensures r.Success? ==> p < r.value.1 <= |toks|
    decreases |toks| - p, 1
  {
    if HasNext(toks, p) then
      var x := DecodeDynamic(toks, p);
      if x.Failure? then Failure(x.error) else DynElems(toks, x.value.1, acc + [x.value.0])
    else
      var e := Consume(toks, p, EndArray);
      if e.Failure? then Failure(e.error) else Success((acc, e.value))
  }

  function DynEntries(toks: seq<Token>, p: nat, acc: Entries): (r: Result<(Entries, nat), Error>)
    requires p <= |toks|
    ensures r.Success? ==> p < r.value.1 <= |toks|
    decreases |toks| - p, 1
  {
    if HasNext(toks, p) then
      var n := ReadName(toks, p);
      if n.Failure? then Failure(n.error)
      else
        var x := DecodeDynamic(toks, n.value.1);
        if x.Failure? then Failure(x.error)
        else DynEntries(toks, x.value.1, Put(acc, Some(n.value.0), x.value.0))
    else
      var e := Consume(toks, p, EndObject);
      if e.Failure? then Failure(e.error) else Success((acc, e.value))
  }

  // ---------------------------------------------------------------------------
  // What each adapter writes: toJson as a function of the value

  /** A bare adapter handed a value it cannot take: a null unboxes to a
      NullPointerException, anything else fails its cast. */
  function Mismatch(v: JValue): (r: Result<seq<Token>, Error>)
    ensures r.Failure?
  {
    if v == JNull then Failure(NullValue) else Failure(WrongValue)
  }

  /** toJson: the tokens written. The Object adapter looks up the adapter of the value's
      runtime type, so the registry's generated adapters `gen` take part. */
  function Encode(gen: set<string>, a: Adapter, v: JValue): (r: Result<seq<Token>, Error>)
    decreases v, Rank(a)
  {
    match a
    case BooleanA => if v.JBool? then Success([Bool(v.b)]) else Mismatch(v)
    case ByteA => if v.JByte? then Success([Num((v.v % 256) as real)]) else Mismatch(v)
    case CharA => if v.JChar? then Success([Str([v.c])]) else Mismatch(v)
    case DoubleA => if v.JDouble? then Success([Num(v.r)]) else Mismatch(v)
    case FloatA => if v.JFloat? then Success([Num(v.r)]) else Mismatch(v)
    case IntA => if v.JInt? then Success([Num(v.v as real)]) else Mismatch(v)
    case LongA => if v.JLong? then Success([Num(v.v as real)]) else Mismatch(v)
    case ShortA => if v.JShort? then Success([Num(v.v as real)]) else Mismatch(v)
    case StringA =>
      if v.JString? then Success([Str(v.s)]) else if v == JNull then Success([Null]) else Failure(WrongValue)
    case NullSafe(_, d) => if v == JNull then Success([Null]) else Encode(gen, d, v)
    case ObjectA(_) =>
      if v == JNull then Failure(NullValue)
      else if v == JPlainObject then Success([BeginObject, EndObject])
      else
        var t := ToJsonType(RuntimeType(v));
        var a2 := Canon(gen, t);
        if a2.None? then Failure(NoAdapter(FailingType(gen, t))) else Encode(gen, a2.value, v)
    case EnumA(_, _) => if v.JEnum? then Success([Str(v.constant)]) else Mismatch(v)
    case MapA(_, va) =>
      if v.JMap? then
        var es := EncodeEntries(gen, va, v.entries);
        if es.Failure? then es else Success([BeginObject] + es.value + [EndObject])
      else Mismatch(v)
    case ListA(_, ea) =>
      if v.JList? then
        var xs := EncodeItems(gen, ea, v.items);
        if xs.Failure? then xs else Success([BeginArray] + xs.value + [EndArray])
      else Mismatch(v)
    case ArrayA(_, _, ea) =>
      if v.JArray? then
        var xs := EncodeItems(gen, ea, v.items);
        if xs.Failure? then xs else Success([BeginArray] + xs.value + [EndArray])
      else Mismatch(v)
    case Generated(_, _) => Failure(External)
  }

  /** Two pieces written one after the other: the first failure stops the writing. */
  function Then(a: Result<seq<Token>, Error>, b: Result<seq<Token>, Error>): (r: Result<seq<Token>, Error>)
    ensures r.Success? <==> a.Success? && b.Success?
    ensures r.Success? ==> r.value == a.value + b.value
    ensures a.Failure? ==> r == a
    ensures a.Success? && b.Failure? ==> r == b
  {
    if a.Failure? then a else if b.Failure? then b else Success(a.value + b.value)
  }

  /** The elements in index order. */
  function EncodeItems(gen: set<string>, ea: Adapter, items: seq<JValue>): (r: Result<seq<Token>, Error>)
    decreases items, 0
  {
    if |items| == 0 then Success([])
    else Then(EncodeItems(gen, ea, items[..|items| - 1]), Encode(gen, ea, items[|items| - 1]))
  }

  /** Name and value of every entry in iteration order. */
  function EncodeEntries(gen: set<string>, va: Adapter, es: Entries): (r: Result<seq<Token>, Error>)
    decreases es, 1
  {
    if |es| == 0 then Success([])
    else Then(EncodeEntries(gen, va, es[..|es| - 1]), EntryTokens(gen, va, es[|es| - 1]))
  }

  /** One entry: a null key raises. */
  function EntryTokens(gen: set<string>, va: Adapter, e: Entry): (r: Result<seq<Token>, Error>)
    decreases e, 0
  {
    assert e.val < e;
    if e.key.None? then Failure(NullMapKey)
    else Then(Success([Name(e.key.value)]), Encode(gen, va, e.val))
  }

  // ---------------------------------------------------------------------------
  // The fromJson methods over the reader

  /** `res` and the reader's new position are what the specification `spec` says. */
  predicate Agrees<T(==)>(spec: Result<(T, nat), Error>, res: Result<T, Error>, pos: nat)
  {
    if spec.Success? then res == Success(spec.value.0) && pos == spec.value.1
    else res == Failure(spec.error)
  }

  /** adapter.fromJson(epoxy, reader). */
  method FromJson(a: Adapter, r: TokenReader) returns (res: Result<JValue, Error>)
    requires r.Valid()
    modifies r
    ensures r.Valid()
    ensures Agrees(Decode(a, r.tokens, old(r.pos)), res, r.pos)
    decreases |r.tokens| - r.pos, Size(a), 1
  {
    match a
    case BooleanA =>
      var b := r.NextBoolean();
      if b.Failure? { return Failure(b.error); }
      return Success(JBool(b.value));
    case ByteA =>
      var n := RangeCheckNextInt(r, BYTE_MIN, 0xff);
      if n.Failure? { return Failure(n.error); }
      return Success(JByte(ToByte(n.value)));
    case CharA =>
      var c := LengthCheckNextChar(r);
      if c.Failure? { return Failure(c.error); }
      return Success(JChar(c.value));
    case DoubleA =>
      var n := r.NextNumber();
      if n.Failure? { return Failure(n.error); }
      return Success(JDouble(n.value));
    case FloatA =>
      var n := r.NextNumber();
      if n.Failure? { return Failure(n.error); }
      return Success(JFloat(n.value));
    case IntA =>
      var n := r.NextInteger(INT_MIN, INT_MAX);
      if n.Failure? { return Failure(n.error); }
      return Success(JInt(n.value));
    case LongA =>
      var n := r.NextInteger(LONG_MIN, LONG_MAX);
      if n.Failure? { return Failure(n.error); }
      return Success(JLong(n.value));
    case ShortA =>
      var n := RangeCheckNextInt(r, SHORT_MIN, SHORT_MAX);
      if n.Failure? { return Failure(n.error); }
      return Success(JShort(n.value));
    case StringA =>
      var s := r.NextString();
      if s.Failure? { return Failure(s.error); }
      return Success(JString(s.value));
    case NullSafe(_, d) =>
      if r.PeekIsNull() {
        var _ := r.ConsumeToken(Null);
        return Success(JNull);
      }
      res := FromJson(d, r);
    case ObjectA(_) =>
      res := ObjectFromJson(r);
    case EnumA(_, e) =>
      var s := r.NextString();
      if s.Failure? { return Failure(s.error); }
      if s.value in e.constants {
        return Success(JEnum(e, s.value));
      }
      return Failure(UnknownConstant(s.value, e.constants));
    case MapA(_, va) =>
      var m := MapFromJson(va, r);
      if m.Failure? { return Failure(m.error); }
      return Success(JMap(m.value));
    case ListA(_, ea) =>
      var l := ListFromJson(ea, r);
      if l.Failure? { return Failure(l.error); }
      return Success(JList(l.value));
    case ArrayA(_, c, ea) =>
      var items := ArrayFromJson(ea, r);
      if items.Failure? { return Failure(items.error); }
      return Success(JArray(c, items.value));
    case Generated(_, _) =>
      return Failure(External);
  }

  /** ListJsonAdapter.fromJson. */
  method ListFromJson(ea: Adapter, r: TokenReader) returns (res: Result<seq<JValue>, Error>)
    requires r.Valid()
    modifies r
    ensures r.Valid()
    ensures Agrees(DecodeArray(ea, r.tokens, old(r.pos)), res, r.pos)
    decreases |r.tokens| - r.pos, Size(ea) + 1, 0
  {
    var b := r.ConsumeToken(BeginArray);
    if b.Failure? { return Failure(b.error); }
    ghost var start := r.pos;
    var result: seq<JValue> := [];
    while r.HasNextToken()
      invariant r.Valid() && start <= r.pos
      invariant DecodeElems(ea, r.tokens, r.pos, result) == DecodeElems(ea, r.tokens, start, [])
      decreases |r.tokens| - r.pos
    {
      var x := FromJson(ea, r);
      if x.Failure? { return Failure(x.error); }
      result := result + [x.value];
    }
    var e := r.ConsumeToken(EndArray);
    if e.Failure? { return Failure(e.error); }
    return Success(result);
  }

  /** ArrayJsonAdapter.fromJson: the elements are gathered in a list, then copied into a
      new array of the list's length. */
  method ArrayFromJson(ea: Adapter, r: TokenReader) returns (res: Result<seq<JValue>, Error>)
    requires r.Valid()
    modifies r
    ensures r.Valid()
    ensures Agrees(DecodeArray(ea, r.tokens, old(r.pos)), res, r.pos)
    decreases |r.tokens| - r.pos, Size(ea) + 1, 0
  {
    var b := r.ConsumeToken(BeginArray);
    if b.Failure? { return Failure(b.error); }
    ghost var start := r.pos;
    var list: seq<JValue> := [];
    while r.HasNextToken()
      invariant r.Valid() && start <= r.pos
      invariant DecodeElems(ea, r.tokens, r.pos, list) == DecodeElems(ea, r.tokens, start, [])
      decreases |r.tokens| - r.pos
    {
      var x := FromJson(ea, r);
      if x.Failure? { return Failure(x.error); }
      list := list + [x.value];
    }
    var e := r.ConsumeToken(EndArray);
    if e.Failure? { return Failure(e.error); }
    var arr := ArrayOf(list);
    return Success(arr[..]);
  }

  /** A new array of the list's length holding the list's elements in order. */
  method ArrayOf(list: seq<JValue>) returns (arr: array<JValue>)
    ensures fresh(arr) && arr[..] == list
  {
    arr := new JValue[|list|];
    for i := 0 to |list|
      modifies arr
      invariant forall j :: 0 <= j < i ==> arr[j] == list[j]
    {
      arr[i] := list[i];
    }
    assert arr[..] == list;
  }

  /** MapJsonAdapter.fromJson, with the duplicate check as written. */
  method MapFromJson(va: Adapter, r: TokenReader) returns (res: Result<Entries, Error>)
    requires r.Valid()
    modifies r
    ensures r.Valid()
    ensures Agrees(DecodeObject(va, r.tokens, old(r.pos)), res, r.pos)
    decreases |r.tokens| - r.pos, Size(va) + 1, 0
  {
    var b := r.ConsumeToken(BeginObject);
    if b.Failure? { return Failure(b.error); }
    ghost var start := r.pos;
    var result: Entries := [];
    while r.HasNextToken()
      invariant r.Valid() && start <= r.pos
      invariant DecodeEntries(va, r.tokens, r.pos, result) == DecodeEntries(va, r.tokens, start, [])
      decreases |r.tokens| - r.pos
    {
      var name := r.NextName();
      if name.Failure? { return Failure(name.error); }
      var value := FromJson(va, r);
      if value.Failure? { return Failure(value.error); }
      var put := PutCheckedAsWritten(result, name.value, value.value);
      if put.Failure? { return Failure(put.error); }
      result := put.value;
    }
    var e := r.ConsumeToken(EndObject);
    if e.Failure? { return Failure(e.error); }
    return Success(result);
  }

  /** ObjectJsonAdapter.fromJson: dispatch on the next token. */
  method ObjectFromJson(r: TokenReader) returns (res: Result<JValue, Error>)
    requires r.Valid()
    modifies r
    ensures r.Valid()
    ensures Agrees(DecodeDynamic(r.tokens, old(r.pos)), res, r.pos)
    decreases |r.tokens| - r.pos, 1
  {
    if r.pos == |r.tokens| {
      return Failure(ExpectedValue(r.pos));
    }
    var start := r.pos;
    match r.tokens[r.pos]
    case BeginArray =>
      var l := ObjectArrayFromJson(r);
      if l.Failure? { return Failure(l.error); }
      return Success(JList(l.value));
    case BeginObject =>
      var m := ObjectMapFromJson(r);
      if m.Failure? { return Failure(m.error); }
      return Success(JMap(m.value));
    case Str(_) =>
      var s := r.NextString();
      return Success(JString(s.value));
    case Num(_) =>
      var n := r.NextNumber();
      return Success(JDouble(n.value));
    case Bool(_) =>
      var b := r.NextBoolean();
      return Success(JBool(b.value));
    case Null =>
      var _ := r.ConsumeToken(Null);
      return Success(JNull);
    case _ =>
      return Failure(ExpectedValue(start));
  }

  /** The BEGIN_ARRAY branch of the Object adapter. */
  method ObjectArrayFromJson(r: TokenReader) returns (res: Result<seq<JValue>, Error>)
    requires r.Valid() && r.pos < |r.tokens| && r.tokens[r.pos] == BeginArray
    modifies r
    ensures r.Valid()
    ensures Agrees(DynElems(r.tokens, old(r.pos) + 1, []), res, r.pos)
    decreases |r.tokens| - r.pos, 0
  {
    var _ := r.ConsumeToken(BeginArray);
    ghost var start := r.pos;
    var list: seq<JValue> := [];
    while r.HasNextToken()
      invariant r.Valid() && start <= r.pos
      invariant DynElems(r.tokens, r.pos, list) == DynElems(r.tokens, start, [])
      decreases |r.tokens| - r.pos
    {
      var x := ObjectFromJson(r);
      if x.Failure? { return Failure(x.error); }
      list := list + [x.value];
    }
    var e := r.ConsumeToken(EndArray);
    if e.Failure? { return Failure(e.error); }
    return Success(list);
  }

  /** The BEGIN_OBJECT branch of the Object adapter. */
  method ObjectMapFromJson(r: TokenReader) returns (res: Result<Entries, Error>)
    requires r.Valid() && r.pos < |r.tokens| && r.tokens[r.pos] == BeginObject
    modifies r
    ensures r.Valid()
    ensures Agrees(DynEntries(r.tokens, old(r.pos) + 1, []), res, r.pos)
    decreases |r.tokens| - r.pos, 0
  {
    var _ := r.ConsumeToken(BeginObject);
    ghost var start := r.pos;
    var map_: Entries := [];
    while r.HasNextToken()
      invariant r.Valid() && start <= r.pos
      invariant DynEntries(r.tokens, r.pos, map_) == DynEntries(r.tokens, start, [])
      decreases |r.tokens| - r.pos
    {
      var name := r.NextName();
      if name.Failure? { return Failure(name.error); }
      var value := ObjectFromJson(r);
      if value.Failure? { return Failure(value.error); }
      map_ := Put(map_, Some(name.value), value.value);
    }
    var e := r.ConsumeToken(EndObject);
    if e.Failure? { return Failure(e.error); }
    return Success(map_);
  }
}
