/** The round trip of the typed adapters: a value of a type, written by the adapter the
    type resolves to, is read back by that adapter as the same value, and a map the map
    adapter reads never repeats a name. */
module TypedRoundTrip {
  import opened Wrappers
  import opened JsonTokens
  import opened JsonAdapter
  import opened CoreAdapters
  import opened CoreAdaptersProofs

  // ---------------------------------------------------------------------------
  // Values of a type

  /** A value of the primitive class `p`, within the class's width. */
  predicate PrimValue(p: PrimKind, v: JValue)
  {
    match p
    case PBoolean => v.JBool?
    case PByte => v.JByte? && BYTE_MIN <= v.v <= 127
    case PChar => v.JChar?
    case PDouble => v.JDouble?
    case PFloat => v.JFloat?
    case PInt => v.JInt? && INT_MIN <= v.v <= INT_MAX
    case PLong => v.JLong? && LONG_MIN <= v.v <= LONG_MAX
    case PShort => v.JShort? && SHORT_MIN <= v.v <= SHORT_MAX
  }

  /** `v` is a value of type `t` that the core adapters serve: null wherever Java allows
      it, an enum without a generated adapter, maps without a null key, arrays of their
      declared component class, and only list-free dynamic values where the type says
      Object (the Object adapter reads every number back as a double, and has no adapter
      for a list's runtime class). */
  predicate Typed(gen: set<string>, t: RType, v: JValue)
    decreases t
  {
    match t
    case Prim(p) => PrimValue(p, v)
    case Boxed(p) => v == JNull || PrimValue(p, v)
    case StringT => v == JNull || v.JString?
    case ObjectT => Dynamic(v) && ListFree(v)
    case EnumT(e) =>
      e.name !in gen && (v == JNull || (v.JEnum? && v.e == e && v.constant in e.constants))
    case ClassT(_, _) => false
    case MapT(vt) =>
      v == JNull ||
      (v.JMap? && DistinctKeys(v.entries) &&
       forall i :: 0 <= i < |v.entries| ==> v.entries[i].key.Some? && Typed(gen, vt, v.entries[i].val))
    case ListT(et) =>
      v == JNull || (v.JList? && forall i :: 0 <= i < |v.items| ==> Typed(gen, et, v.items[i]))
    case CollectionT(et) =>
      v == JNull || (v.JList? && forall i :: 0 <= i < |v.items| ==> Typed(gen, et, v.items[i]))
    case ArrayT(ct) =>
      v == JNull ||
      (v.JArray? && v.component == ct && forall i :: 0 <= i < |v.items| ==> Typed(gen, ct, v.items[i]))
  }

  /** The values adapter `a` writes and reads back unchanged. */
  predicate Fits(a: Adapter, v: JValue)
    decreases a, 0
  {
    match a
    case BooleanA => v.JBool?
    case ByteA => v.JByte? && BYTE_MIN <= v.v <= 127
    case CharA => v.JChar?
    case DoubleA => v.JDouble?
    case FloatA => v.JFloat?
    case IntA => v.JInt? && INT_MIN <= v.v <= INT_MAX
    case LongA => v.JLong? && LONG_MIN <= v.v <= LONG_MAX
    case ShortA => v.JShort? && SHORT_MIN <= v.v <= SHORT_MAX
    case StringA => v.JString?
    case NullSafe(_, d) => v == JNull || Fits(d, v)
    case ObjectA(_) => v != JNull && Dynamic(v) && ListFree(v)
    case EnumA(_, e) => v.JEnum? && v.e == e && v.constant in e.constants
    case MapA(_, va) => v.JMap? && FitEntries(va, v.entries)
    case ListA(_, ea) => v.JList? && FitItems(ea, v.items)
    case ArrayA(_, c, ea) => v.JArray? && v.component == c && FitItems(ea, v.items)
    case Generated(_, _) => false
  }

  /** Elements that all fit `ea`. */
  predicate FitItems(ea: Adapter, items: seq<JValue>)
    decreases ea, 1
  {
    forall i :: 0 <= i < |items| ==> Fits(ea, items[i])
  }

  /** Entries with distinct, non-null names whose values all fit `va`. */
  predicate FitEntries(va: Adapter, es: Entries)
    decreases va, 1
  {
    DistinctKeys(es) && forall i :: 0 <= i < |es| ==> es[i].key.Some? && Fits(va, es[i].val)
  }

  /** Every value of a type fits the adapter the type resolves to. */
  lemma {:induction false} TypedFits(gen: set<string>, t: RType, v: JValue, a: Adapter)
    requires Canon(gen, t) == Some(a) && Typed(gen, t, v)
    ensures Fits(a, v)
    decreases t, 1
  {
    match t
    case ClassT(_, _) => assert false;
    case MapT(vt) => TypedMapFits(gen, vt, v, a);
    case ListT(et) => TypedListFits(gen, et, v, a);
    case CollectionT(_) =>
      ContainerResolution(gen, t);
      assert false;
    case ArrayT(ct) => TypedArrayFits(gen, ct, v, a);
    case _ => TypedLeafFits(gen, t, v, a);
  }

  lemma TypedLeafFits(gen: set<string>, t: RType, v: JValue, a: Adapter)
    requires Child(t).None? && !t.ClassT?
    requires Canon(gen, t) == Some(a) && Typed(gen, t, v)
    ensures Fits(a, v)
  {
    assert Canon(gen, t) == CoreWith(gen, t, false);
  }

  lemma {:induction false} TypedMapFits(gen: set<string>, vt: RType, v: JValue, a: Adapter)
    requires Canon(gen, MapT(vt)) == Some(a) && Typed(gen, MapT(vt), v)
    ensures Fits(a, v)
    decreases MapT(vt), 0
  {
    assert Canon(gen, MapT(vt)) == CoreWith(gen, MapT(vt), false);
    if v != JNull {
      TypedEntriesFit(gen, vt, v.entries, Canon(gen, vt).value);
    }
  }

  lemma {:induction false} TypedListFits(gen: set<string>, et: RType, v: JValue, a: Adapter)
    requires Canon(gen, ListT(et)) == Some(a) && Typed(gen, ListT(et), v)
    ensures Fits(a, v)
    decreases ListT(et), 0
  {
    assert Canon(gen, ListT(et)) == CoreWith(gen, ListT(et), false);
    if v != JNull {
      TypedItemsFit(gen, et, v.items, Canon(gen, et).value);
    }
  }

  lemma {:induction false} TypedArrayFits(gen: set<string>, ct: RType, v: JValue, a: Adapter)
    requires Canon(gen, ArrayT(ct)) == Some(a) && Typed(gen, ArrayT(ct), v)
    ensures Fits(a, v)
    decreases ArrayT(ct), 0
  {
    assert Canon(gen, ArrayT(ct)) == CoreWith(gen, ArrayT(ct), false);
    if v != JNull {
      TypedItemsFit(gen, ct, v.items, Canon(gen, ct).value);
    }
  }

  lemma {:induction false} TypedItemsFit(gen: set<string>, et: RType, items: seq<JValue>, ea: Adapter)
    requires Canon(gen, et) == Some(ea)
    requires forall i :: 0 <= i < |items| ==> Typed(gen, et, items[i])
    ensures FitItems(ea, items)
    decreases et, 2
  {
    forall i | 0 <= i < |items|
      ensures Fits(ea, items[i])
    {
      TypedFits(gen, et, items[i], ea);
    }
  }

  lemma {:induction false} TypedEntriesFit(gen: set<string>, vt: RType, es: Entries, va: Adapter)
    requires Canon(gen, vt) == Some(va) && DistinctKeys(es)
    requires forall i :: 0 <= i < |es| ==> es[i].key.Some? && Typed(gen, vt, es[i].val)
    ensures FitEntries(va, es)
    decreases vt, 2
  {
    forall i | 0 <= i < |es|
      ensures Fits(va, es[i].val)
    {
      TypedFits(gen, vt, es[i].val, va);
    }
  }

  // ---------------------------------------------------------------------------
  // What a fitting value is written as

  /** The tokens adapter `a` writes for a value that fits it, read front to back. */
  function FitTokens(a: Adapter, v: JValue): seq<Token>
    decreases a, 0
  {
    match a
    case BooleanA => if v.JBool? then [Bool(v.b)] else []
    case ByteA => if v.JByte? then [Num((v.v % 256) as real)] else []
    case CharA => if v.JChar? then [Str([v.c])] else []
    case DoubleA => if v.JDouble? then [Num(v.r)] else []
    case FloatA => if v.JFloat? then [Num(v.r)] else []
    case IntA => if v.JInt? then [Num(v.v as real)] else []
    case LongA => if v.JLong? then [Num(v.v as real)] else []
    case ShortA => if v.JShort? then [Num(v.v as real)] else []
    case StringA => if v.JString? then [Str(v.s)] else []
    case NullSafe(_, d) => if v == JNull then [Null] else FitTokens(d, v)
    case ObjectA(_) => DynTokens(v)
    case EnumA(_, _) => if v.JEnum? then [Str(v.constant)] else []
    case MapA(_, va) => if v.JMap? then [BeginObject] + FitEntriesTokens(va, v.entries) + [EndObject] else []
    case ListA(_, ea) => if v.JList? then [BeginArray] + FitItemsTokens(ea, v.items) + [EndArray] else []
    case ArrayA(_, _, ea) => if v.JArray? then [BeginArray] + FitItemsTokens(ea, v.items) + [EndArray] else []
    case Generated(_, _) => []
  }

  function FitItemsTokens(ea: Adapter, items: seq<JValue>): seq<Token>
    decreases ea, 1, |items|
  {
    if |items| == 0 then [] else FitTokens(ea, items[0]) + FitItemsTokens(ea, items[1..])
  }

  function FitEntryTokens(va: Adapter, e: Entry): seq<Token>
    decreases va, 1
  {
    [Name(if e.key.Some? then e.key.value else "")] + FitTokens(va, e.val)
  }

  function FitEntriesTokens(va: Adapter, es: Entries): seq<Token>
    decreases va, 2, |es|
  {
    if |es| == 0 then [] else FitEntryTokens(va, es[0]) + FitEntriesTokens(va, es[1..])
  }

  /** What an adapter writes for a value that fits it is exactly `FitTokens`. */
  lemma {:induction false} FitEncodes(gen: set<string>, a: Adapter, v: JValue)
    requires Fits(a, v)
    ensures Encode(gen, a, v) == Success(FitTokens(a, v))
    decreases a, 0
  {
    match a
    case NullSafe(_, d) =>
      if v != JNull {
        FitEncodes(gen, d, v);
      }
    case ObjectA(id) => FitObjectEncodes(gen, id, v);
    case MapA(id, va) => FitMapEncodes(gen, id, va, v);
    case ListA(id, ea) => FitListEncodes(gen, id, ea, v);
    case ArrayA(id, c, ea) => FitArrayEncodes(gen, id, c, ea, v);
    case Generated(_, _) => assert false;
    case _ => FitLeafEncodes(gen, a, v);
  }

  /** The adapters that hold no other adapter and write one token. */
  predicate Leaf(a: Adapter)
  {
    !(a.NullSafe? || a.ObjectA? || a.MapA? || a.ListA? || a.ArrayA? || a.Generated?)
  }

  lemma FitLeafEncodes(gen: set<string>, a: Adapter, v: JValue)
    requires Leaf(a) && Fits(a, v)
    ensures Encode(gen, a, v) == Success(FitTokens(a, v))
  {
  }

  lemma FitObjectEncodes(gen: set<string>, id: nat, v: JValue)
    requires Fits(ObjectA(id), v)
    ensures Encode(gen, ObjectA(id), v) == Success(FitTokens(ObjectA(id), v))
  {
    DynamicEncodes(gen, v);
    assert Encode(gen, OBJECT, v) == Encode(gen, ObjectA(id), v);
  }

  lemma {:induction false} FitMapEncodes(gen: set<string>, id: nat, va: Adapter, v: JValue)
    requires Fits(MapA(id, va), v)
    ensures Encode(gen, MapA(id, va), v) == Success(FitTokens(MapA(id, va), v))
    decreases va, 3
  {
    FitEntriesEncode(gen, va, v.entries);
  }

  lemma {:induction false} FitListEncodes(gen: set<string>, id: nat, ea: Adapter, v: JValue)
    requires Fits(ListA(id, ea), v)
    ensures Encode(gen, ListA(id, ea), v) == Success(FitTokens(ListA(id, ea), v))
    decreases ea, 2
  {
    FitItemsEncode(gen, ea, v.items);
  }

  lemma {:induction false} FitArrayEncodes(gen: set<string>, id: nat, c: RType, ea: Adapter, v: JValue)
    requires Fits(ArrayA(id, c, ea), v)
    ensures Encode(gen, ArrayA(id, c, ea), v) == Success(FitTokens(ArrayA(id, c, ea), v))
    decreases ea, 2
  {
    FitItemsEncode(gen, ea, v.items);
  }

  lemma {:induction false} FitItemsEncode(gen: set<string>, ea: Adapter, items: seq<JValue>)
    requires FitItems(ea, items)
    ensures EncodeItems(gen, ea, items) == Success(FitItemsTokens(ea, items))
    decreases ea, 1, |items|
  {
    if |items| > 0 {
      EncodeItemsCons(gen, ea, items);
      FitEncodes(gen, ea, items[0]);
      FitItemsEncode(gen, ea, items[1..]);
    }
  }

  lemma {:induction false} FitEntryEncodes(gen: set<string>, va: Adapter, e: Entry)
    requires e.key.Some? && Fits(va, e.val)
    ensures EntryTokens(gen, va, e) == Success(FitEntryTokens(va, e))
    decreases va, 1
  {
    FitEncodes(gen, va, e.val);
  }

  lemma {:induction false} FitEntriesEncode(gen: set<string>, va: Adapter, es: Entries)
    requires forall i :: 0 <= i < |es| ==> es[i].key.Some? && Fits(va, es[i].val)
    ensures EncodeEntries(gen, va, es) == Success(FitEntriesTokens(va, es))
    decreases va, 2, |es|
  {
    if |es| > 0 {
      EncodeEntriesCons(gen, va, es);
      FitEntryEncodes(gen, va, es[0]);
      FitEntriesEncode(gen, va, es[1..]);
    }
  }

  /** A fitting value's tokens start with a token that starts a value, and only null is
      written as a leading null. */
  lemma {:induction false} FitFirstToken(a: Adapter, v: JValue)
    requires Fits(a, v)
    ensures |FitTokens(a, v)| > 0 && Opens(FitTokens(a, v)[0])
    ensures v != JNull ==> FitTokens(a, v)[0] != Null
    decreases a
  {
    match a
    case NullSafe(_, d) =>
      if v != JNull {
        FitFirstToken(d, v);
      }
    case ObjectA(_) => DynFirstToken(v);
    case Generated(_, _) => assert false;
    case _ =>
  }

  // ---------------------------------------------------------------------------
  // What a fitting value is read back as

  /** The byte adapter writes a byte as its unsigned value and casts it back. */
  lemma ByteCast(x: int)
    requires BYTE_MIN <= x <= 127
    ensures BYTE_MIN <= x % 256 <= 0xff && ToByte(x % 256) == x
  {
    if x >= 0 {
      assert x % 256 == x;
      assert (x + 128) % 256 == x + 128;
    } else {
      assert x % 256 == x + 256;
      assert (x + 256 + 128) % 256 == x + 128;
    }
  }

  /** Every adapter reads `FitTokens(a, v)` back as `v`. */
  lemma {:induction false} FitDecodes(a: Adapter, v: JValue, toks: seq<Token>, pos: nat)
    requires Fits(a, v) && At(toks, pos, FitTokens(a, v))
    ensures pos <= |toks| && Decode(a, toks, pos) == Success((v, pos + |FitTokens(a, v)|))
    decreases a, 0
  {
    match a
    case NullSafe(id, d) => FitNullSafeDecodes(id, d, v, toks, pos);
    case ObjectA(_) => DynamicDecodes(v, toks, pos);
    case MapA(id, va) => FitMapDecodes(id, va, v.entries, toks, pos);
    case ListA(id, ea) => FitListDecodes(id, ea, v.items, toks, pos);
    case ArrayA(id, c, ea) => FitArrayDecodes(id, c, ea, v.items, toks, pos);
    case Generated(_, _) => assert false;
    case _ => FitLeafDecodes(a, v, toks, pos);
  }

  lemma FitLeafDecodes(a: Adapter, v: JValue, toks: seq<Token>, pos: nat)
    requires Leaf(a) && Fits(a, v) && At(toks, pos, FitTokens(a, v))
    ensures pos <= |toks| && Decode(a, toks, pos) == Success((v, pos + |FitTokens(a, v)|))
  {
    AtSingle(toks, pos, FitTokens(a, v)[0]);
    if a.ByteA? {
      ByteCast(v.v);
    }
  }

  /** A null is read as the null token; anything else by the delegate. */
  lemma {:induction false} FitNullSafeDecodes(id: nat, d: Adapter, v: JValue, toks: seq<Token>, pos: nat)
    requires Fits(NullSafe(id, d), v) && At(toks, pos, FitTokens(NullSafe(id, d), v))
    ensures pos <= |toks| && Decode(NullSafe(id, d), toks, pos) == Success((v, pos + |FitTokens(NullSafe(id, d), v)|))
    decreases d, 6
  {
    if v == JNull {
      AtSingle(toks, pos, Null);
    } else {
      FitFirstToken(d, v);
      assert toks[pos] == toks[pos..pos + |FitTokens(d, v)|][0];
      FitDecodes(d, v, toks, pos);
    }
  }

  lemma {:induction false} FitListDecodes(id: nat, ea: Adapter, items: seq<JValue>, toks: seq<Token>, pos: nat)
    requires FitItems(ea, items)
    requires At(toks, pos, [BeginArray] + FitItemsTokens(ea, items) + [EndArray])
    ensures Decode(ListA(id, ea), toks, pos) == Success((JList(items), pos + |FitItemsTokens(ea, items)| + 2))
    decreases ea, 3
  {
    FitBracketDecodes(ea, items, toks, pos);
  }

  lemma {:induction false} FitArrayDecodes(id: nat, c: RType, ea: Adapter, items: seq<JValue>, toks: seq<Token>, pos: nat)
    requires FitItems(ea, items)
    requires At(toks, pos, [BeginArray] + FitItemsTokens(ea, items) + [EndArray])
    ensures Decode(ArrayA(id, c, ea), toks, pos) == Success((JArray(c, items), pos + |FitItemsTokens(ea, items)| + 2))
    decreases ea, 3
  {
    FitBracketDecodes(ea, items, toks, pos);
  }

  /** beginArray, the elements, endArray. */
  lemma {:induction false} FitBracketDecodes(ea: Adapter, items: seq<JValue>, toks: seq<Token>, pos: nat)
    requires FitItems(ea, items)
    requires At(toks, pos, [BeginArray] + FitItemsTokens(ea, items) + [EndArray])
    ensures DecodeArray(ea, toks, pos) == Success((items, pos + |FitItemsTokens(ea, items)| + 2))
    decreases ea, 2
  {
    var p := pos + 1;
    var q := p + |FitItemsTokens(ea, items)| + 1;
    BracketSplit(toks, pos, BeginArray, FitItemsTokens(ea, items), EndArray);
    FitElemsDecodeAll(ea, items, toks, p);
    ArrayOpens(ea, toks, pos, items, q);
  }

  /** A bracketed token sequence: the opening token, then the body and the closing one. */
  lemma BracketSplit(toks: seq<Token>, pos: nat, open: Token, body: seq<Token>, close: Token)
    requires At(toks, pos, [open] + body + [close])
    ensures pos < |toks| && toks[pos] == open && At(toks, pos + 1, body + [close])
  {
    assert [open] + body + [close] == [open] + (body + [close]);
    AtSplit(toks, pos, [open], body + [close]);
    AtSingle(toks, pos, open);
  }

  lemma ArrayOpens(ea: Adapter, toks: seq<Token>, pos: nat, items: seq<JValue>, q: nat)
    requires pos < |toks| && toks[pos] == BeginArray
    requires DecodeElems(ea, toks, pos + 1, []) == Success((items, q))
    ensures DecodeArray(ea, toks, pos) == Success((items, q))
  {
  }

  lemma {:induction false} FitElemsDecodeAll(ea: Adapter, items: seq<JValue>, toks: seq<Token>, p: nat)
    requires FitItems(ea, items)
    requires At(toks, p, FitItemsTokens(ea, items) + [EndArray])
    ensures DecodeElems(ea, toks, p, []) == Success((items, p + |FitItemsTokens(ea, items)| + 1))
    decreases ea, 1, |items| + 1
  {
    FitElemsDecode(ea, items, toks, p, []);
    assert [] + items == items;
  }

  lemma {:induction false} FitElemsDecode(ea: Adapter, items: seq<JValue>, toks: seq<Token>, p: nat, acc: seq<JValue>)
    requires FitItems(ea, items)
    requires At(toks, p, FitItemsTokens(ea, items) + [EndArray])
    ensures DecodeElems(ea, toks, p, acc) == Success((acc + items, p + |FitItemsTokens(ea, items)| + 1))
    decreases ea, 1, |items|
  {
    if |items| == 0 {
      assert FitItemsTokens(ea, items) + [EndArray] == [EndArray];
      AtSingle(toks, p, EndArray);
      assert acc + items == acc;
      ElemsClose(ea, toks, p, acc);
    } else {
      var q, r := ItemsSplit(ea, items, toks, p);
      var rest := items[1..];
      var more := acc + [items[0]];
      FitElemsDecode(ea, rest, toks, q, more);
      ElemCombine(ea, items, toks, p, q, r, acc);
    }
  }

  /** The tokens of nonempty elements: the first element's, then the rest's. */
  lemma ItemsSplit(ea: Adapter, items: seq<JValue>, toks: seq<Token>, p: nat) returns (q: nat, r: nat)
    requires |items| > 0
    requires At(toks, p, FitItemsTokens(ea, items) + [EndArray])
    ensures q == p + |FitTokens(ea, items[0])|
    ensures r == p + |FitItemsTokens(ea, items)| + 1 && r == q + |FitItemsTokens(ea, items[1..])| + 1
    ensures At(toks, p, FitTokens(ea, items[0])) && At(toks, q, FitItemsTokens(ea, items[1..]) + [EndArray])
  {
    var h := FitTokens(ea, items[0]);
    var rest := FitItemsTokens(ea, items[1..]);
    q := p + |h|;
    r := q + |rest| + 1;
    assert FitItemsTokens(ea, items) + [EndArray] == h + (rest + [EndArray]);
    AtSplit(toks, p, h, rest + [EndArray]);
  }

  /** The first element, then the rest of the element loop. */
  lemma {:induction false} ElemCombine(ea: Adapter, items: seq<JValue>, toks: seq<Token>, p: nat, q: nat, r: nat, acc: seq<JValue>)
    requires |items| > 0 && Fits(ea, items[0]) && At(toks, p, FitTokens(ea, items[0]))
    requires q == p + |FitTokens(ea, items[0])|
    requires q <= |toks| && DecodeElems(ea, toks, q, acc + [items[0]]) == Success((acc + [items[0]] + items[1..], r))
    ensures DecodeElems(ea, toks, p, acc) == Success((acc + items, r))
    decreases ea, 1, 0
  {
    FitFirstToken(ea, items[0]);
    assert toks[p] == toks[p..q][0];
    FitDecodes(ea, items[0], toks, p);
    ElemStep(ea, toks, p, acc, items[0], q);
    assert acc + [items[0]] + items[1..] == acc + items;
  }

  /** The end of an array ends the element loop. */
  lemma ElemsClose(ea: Adapter, toks: seq<Token>, p: nat, acc: seq<JValue>)
    requires p < |toks| && toks[p] == EndArray
    ensures DecodeElems(ea, toks, p, acc) == Success((acc, p + 1))
  {
  }

  /** One step of the element loop. */
  lemma ElemStep(ea: Adapter, toks: seq<Token>, p: nat, acc: seq<JValue>, x: JValue, q: nat)
    requires HasNext(toks, p) && Decode(ea, toks, p) == Success((x, q))
    ensures q <= |toks| && DecodeElems(ea, toks, p, acc) == DecodeElems(ea, toks, q, acc + [x])
  {
  }

  lemma {:induction false} FitMapDecodes(id: nat, va: Adapter, es: Entries, toks: seq<Token>, pos: nat)
    requires FitEntries(va, es)
    requires At(toks, pos, [BeginObject] + FitEntriesTokens(va, es) + [EndObject])
    ensures Decode(MapA(id, va), toks, pos) == Success((JMap(es), pos + |FitEntriesTokens(va, es)| + 2))
    decreases va, 5
  {
    FitObjectDecodes(va, es, toks, pos);
  }

  /** beginObject, the name-value pairs, endObject. */
  lemma {:induction false} FitObjectDecodes(va: Adapter, es: Entries, toks: seq<Token>, pos: nat)
    requires FitEntries(va, es)
    requires At(toks, pos, [BeginObject] + FitEntriesTokens(va, es) + [EndObject])
    ensures DecodeObject(va, toks, pos) == Success((es, pos + |FitEntriesTokens(va, es)| + 2))
    decreases va, 4
  {
    var p := pos + 1;
    var q := p + |FitEntriesTokens(va, es)| + 1;
    BracketSplit(toks, pos, BeginObject, FitEntriesTokens(va, es), EndObject);
    FitEntriesDecodeAll(va, es, toks, p);
    ObjectOpens(va, toks, pos, es, q);
  }

  lemma ObjectOpens(va: Adapter, toks: seq<Token>, pos: nat, es: Entries, q: nat)
    requires pos < |toks| && toks[pos] == BeginObject
    requires DecodeEntries(va, toks, pos + 1, []) == Success((es, q))
    ensures DecodeObject(va, toks, pos) == Success((es, q))
  {
  }

  lemma {:induction false} FitEntriesDecodeAll(va: Adapter, es: Entries, toks: seq<Token>, p: nat)
    requires FitEntries(va, es)
    requires At(toks, p, FitEntriesTokens(va, es) + [EndObject])
    ensures DecodeEntries(va, toks, p, []) == Success((es, p + |FitEntriesTokens(va, es)| + 1))
    decreases va, 3, |es| + 1
  {
    assert es[0..] == es;
    FitEntriesDecode(va, es, 0, toks, p);
    assert es[..0] == [];
  }

  lemma {:induction false} FitEntriesDecode(va: Adapter, all: Entries, k: nat, toks: seq<Token>, p: nat)
    requires k <= |all| && FitEntries(va, all)
    requires At(toks, p, FitEntriesTokens(va, all[k..]) + [EndObject])
    ensures DecodeEntries(va, toks, p, all[..k]) == Success((all, p + |FitEntriesTokens(va, all[k..])| + 1))
    decreases va, 3, |all| - k
  {
    if k == |all| {
      assert FitEntriesTokens(va, all[k..]) + [EndObject] == [EndObject];
      AtSingle(toks, p, EndObject);
      assert all[..k] == all;
      EntriesClose(va, toks, p, all[..k]);
    } else {
      var j, q, r := EntriesSplit(va, all, k, toks, p);
      FitEntriesDecode(va, all, j, toks, q);
      EntryCombine(va, all, k, j, toks, p, q, r);
    }
  }

  /** The tokens of the entries from `k` on: the entry at `k`, then the rest. */
  lemma EntriesSplit(va: Adapter, all: Entries, k: nat, toks: seq<Token>, p: nat) returns (j: nat, q: nat, r: nat)
    requires k < |all|
    requires At(toks, p, FitEntriesTokens(va, all[k..]) + [EndObject])
    ensures j == k + 1 && q == p + |FitEntryTokens(va, all[k])|
    ensures r == p + |FitEntriesTokens(va, all[k..])| + 1 && r == q + |FitEntriesTokens(va, all[j..])| + 1
    ensures At(toks, p, FitEntryTokens(va, all[k])) && At(toks, q, FitEntriesTokens(va, all[j..]) + [EndObject])
  {
    j := k + 1;
    var x := FitEntryTokens(va, all[k]);
    var rest := FitEntriesTokens(va, all[j..]);
    q := p + |x|;
    r := q + |rest| + 1;
    assert all[k..][0] == all[k] && all[k..][1..] == all[j..];
    assert FitEntriesTokens(va, all[k..]) + [EndObject] == x + (rest + [EndObject]);
    AtSplit(toks, p, x, rest + [EndObject]);
  }

  /** The map adapter reads one entry's name and value. */
  lemma {:induction false} FitEntryDecodes(va: Adapter, e: Entry, toks: seq<Token>, p: nat)
    requires e.key.Some? && Fits(va, e.val) && At(toks, p, FitEntryTokens(va, e))
    ensures p < |toks| && toks[p] == Name(e.key.value)
    ensures Decode(va, toks, p + 1) == Success((e.val, p + |FitEntryTokens(va, e)|))
    decreases va, 2
  {
    AtSplit(toks, p, [Name(e.key.value)], FitTokens(va, e.val));
    AtSingle(toks, p, Name(e.key.value));
    FitDecodes(va, e.val, toks, p + 1);
  }

  /** A new name, its value and the rest of the map loop. */
  lemma {:induction false} EntryCombine(va: Adapter, all: Entries, k: nat, j: nat, toks: seq<Token>, p: nat, q: nat, r: nat)
    requires k < |all| && j == k + 1 && DistinctKeys(all) && all[k].key.Some?
    requires Fits(va, all[k].val) && At(toks, p, FitEntryTokens(va, all[k]))
    requires q == p + |FitEntryTokens(va, all[k])|
    requires q <= |toks| && DecodeEntries(va, toks, q, all[..j]) == Success((all, r))
    ensures DecodeEntries(va, toks, p, all[..k]) == Success((all, r))
    decreases va, 3, 0
  {
    FitEntryDecodes(va, all[k], toks, p);
    NextKeyFresh(all, k);
    EntryStep(va, toks, p, all[..k], all[k], q);
  }

  /** In a map with distinct keys, the next entry's name is new, so the checked put appends
      the entry. */
  lemma NextKeyFresh(all: Entries, k: nat)
    requires k < |all| && DistinctKeys(all) && all[k].key.Some?
    ensures PutCheckedAsWritten(all[..k], all[k].key.value, all[k].val) == Success(all[..k + 1])
  {
    forall i | 0 <= i < k
      ensures all[..k][i].key != all[k].key
    {
    }
    assert all[..k] + [all[k]] == all[..k + 1];
  }

  /** One name-value step of the map loop. */
  lemma EntryStep(va: Adapter, toks: seq<Token>, p: nat, acc: Entries, e: Entry, q: nat)
    requires e.key.Some? && p < |toks| && toks[p] == Name(e.key.value)
    requires Decode(va, toks, p + 1) == Success((e.val, q))
    requires PutCheckedAsWritten(acc, e.key.value, e.val) == Success(acc + [e])
    ensures q <= |toks| && DecodeEntries(va, toks, p, acc) == DecodeEntries(va, toks, q, acc + [e])
  {
  }

  /** The end of an object ends the map loop. */
  lemma EntriesClose(va: Adapter, toks: seq<Token>, p: nat, acc: Entries)
    requires p < |toks| && toks[p] == EndObject
    ensures DecodeEntries(va, toks, p, acc) == Success((acc, p + 1))
  {
  }

  // ---------------------------------------------------------------------------
  // The round trip

  /** A whole token sequence lies at its own start. */
  lemma AtWhole(toks: seq<Token>)
    ensures At(toks, 0, toks)
  {
    assert toks[0..|toks|] == toks;
  }

  /** Every value that fits an adapter is written without error and read back by the same
      adapter as the same value, consuming exactly what was written. */
  lemma FitRoundTrip(gen: set<string>, a: Adapter, v: JValue)
    requires Fits(a, v)
    ensures Encode(gen, a, v).Success?
    ensures Decode(a, Encode(gen, a, v).value, 0) == Success((v, |Encode(gen, a, v).value|))
  {
    FitEncodes(gen, a, v);
    var enc := FitTokens(a, v);
    AtWhole(enc);
    FitDecodes(a, v, enc, 0);
  }

  /** toJson then fromJson through the adapter a type resolves to gives back every value
      of that type. */
  lemma TypedRoundTrip(gen: set<string>, t: RType, v: JValue, a: Adapter)
    requires Canon(gen, t) == Some(a) && Typed(gen, t, v)
    ensures Encode(gen, a, v).Success?
    ensures Decode(a, Encode(gen, a, v).value, 0) == Success((v, |Encode(gen, a, v).value|))
  {
    TypedFits(gen, t, v, a);
    FitRoundTrip(gen, a, v);
  }

  // ---------------------------------------------------------------------------
  // Names in a decoded map

  /** The map adapter never reads a map that repeats a name. */
  lemma {:induction false} DecodedKeysDistinct(va: Adapter, toks: seq<Token>, p: nat, acc: Entries)
    requires p <= |toks| && DistinctKeys(acc)
    ensures DecodeEntries(va, toks, p, acc).Success? ==> DistinctKeys(DecodeEntries(va, toks, p, acc).value.0)
    decreases |toks| - p
  {
    if HasNext(toks, p) && toks[p].Name? {
      var x := Decode(va, toks, p + 1);
      if x.Success? {
        var m := PutCheckedAsWritten(acc, toks[p].name, x.value.0);
        if m.Success? {
          PutKeepsDistinct(acc, Some(toks[p].name), x.value.0);
          DecodedKeysDistinct(va, toks, x.value.1, m.value);
        }
      }
    }
  }
}
