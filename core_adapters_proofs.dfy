/** Properties of the core adapters: object identities do not matter to what an adapter
    reads or writes, a decoded map never repeats a name, the Object adapter reads exactly
    the values it can write back, and every typed value written by the adapter its type
    resolves to is read back as the same value. */
module CoreAdaptersProofs {
  import opened Wrappers
  import opened JsonTokens
  import opened JsonAdapter
  import opened CoreAdapters

  // ---------------------------------------------------------------------------
  // Tokens at a position

  /** `enc` lies in `toks` starting at `pos`. */
  predicate At(toks: seq<Token>, pos: nat, enc: seq<Token>)
  {
    pos + |enc| <= |toks| && toks[pos..pos + |enc|] == enc
  }

  lemma AtSplit(toks: seq<Token>, pos: nat, a: seq<Token>, b: seq<Token>)
    ensures At(toks, pos, a + b) <==> At(toks, pos, a) && At(toks, pos + |a|, b)
  {
    if At(toks, pos, a + b) {
      assert toks[pos..pos + |a|] == (a + b)[..|a|];
      assert toks[pos + |a|..pos + |a| + |b|] == (a + b)[|a|..];
    }
    if At(toks, pos, a) && At(toks, pos + |a|, b) {
      assert toks[pos..pos + |a| + |b|] == toks[pos..pos + |a|] + toks[pos + |a|..pos + |a| + |b|];
    }
  }

  lemma AtSingle(toks: seq<Token>, pos: nat, tok: Token)
    ensures At(toks, pos, [tok]) <==> pos < |toks| && toks[pos] == tok
  {
    if pos < |toks| && toks[pos] == tok {
      assert toks[pos..pos + 1] == [tok];
    }
  }

  // ---------------------------------------------------------------------------
  // Object identities

  /** What an adapter reads does not depend on which instance it is. */
  lemma {:induction false} DecodeIgnoresIds(a: Adapter, toks: seq<Token>, pos: nat)
    requires pos <= |toks|
    ensures Decode(Erase(a), toks, pos) == Decode(a, toks, pos)
    decreases |toks| - pos, Size(a), 1
  {
    match a
    case NullSafe(_, d) =>
      if !(pos < |toks| && toks[pos] == Null) {
        DecodeIgnoresIds(d, toks, pos);
      }
    case MapA(_, va) => ObjectIgnoresIds(va, toks, pos);
    case ListA(_, ea) => ArrayIgnoresIds(ea, toks, pos);
    case ArrayA(_, _, ea) => ArrayIgnoresIds(ea, toks, pos);
    case _ =>
  }

  lemma {:induction false} ArrayIgnoresIds(ea: Adapter, toks: seq<Token>, pos: nat)
    requires pos <= |toks|
    ensures DecodeArray(Erase(ea), toks, pos) == DecodeArray(ea, toks, pos)
    decreases |toks| - pos, Size(ea) + 1, 0
  {
    if pos < |toks| && toks[pos] == BeginArray {
      ElemsIgnoreIds(ea, toks, pos + 1, []);
    }
  }

  lemma {:induction false} ElemsIgnoreIds(ea: Adapter, toks: seq<Token>, p: nat, acc: seq<JValue>)
    requires p <= |toks|
    ensures DecodeElems(Erase(ea), toks, p, acc) == DecodeElems(ea, toks, p, acc)
    decreases |toks| - p, Size(ea) + 1, 1
  {
    if HasNext(toks, p) {
      DecodeIgnoresIds(ea, toks, p);
      var x := Decode(ea, toks, p);
      if x.Success? {
        ElemsIgnoreIds(ea, toks, x.value.1, acc + [x.value.0]);
      }
    }
  }

  lemma {:induction false} ObjectIgnoresIds(va: Adapter, toks: seq<Token>, pos: nat)
    requires pos <= |toks|
    ensures DecodeObject(Erase(va), toks, pos) == DecodeObject(va, toks, pos)
    decreases |toks| - pos, Size(va) + 1, 0
  {
    if pos < |toks| && toks[pos] == BeginObject {
      EntriesIgnoreIds(va, toks, pos + 1, []);
    }
  }

  lemma {:induction false} EntriesIgnoreIds(va: Adapter, toks: seq<Token>, p: nat, acc: Entries)
    requires p <= |toks|
    ensures DecodeEntries(Erase(va), toks, p, acc) == DecodeEntries(va, toks, p, acc)
    decreases |toks| - p, Size(va) + 1, 1
  {
    if HasNext(toks, p) && toks[p].Name? {
      DecodeIgnoresIds(va, toks, p + 1);
      var x := Decode(va, toks, p + 1);
      if x.Success? {
        var m := PutCheckedAsWritten(acc, toks[p].name, x.value.0);
        if m.Success? {
          EntriesIgnoreIds(va, toks, x.value.1, m.value);
        }
      }
    }
  }

  /** What an adapter writes does not depend on which instance it is. */
  lemma {:induction false} EncodeIgnoresIds(gen: set<string>, a: Adapter, v: JValue)
    ensures Encode(gen, Erase(a), v) == Encode(gen, a, v)
    decreases v, Rank(a)
  {
    match a
    case NullSafe(_, d) =>
      if v != JNull {
        EncodeIgnoresIds(gen, d, v);
      }
    case MapA(_, va) =>
      if v.JMap? {
        EntriesEncodingIgnoresIds(gen, va, v.entries);
      }
    case ListA(_, ea) =>
      if v.JList? {
        ItemsEncodingIgnoresIds(gen, ea, v.items);
      }
    case ArrayA(_, _, ea) =>
      if v.JArray? {
        ItemsEncodingIgnoresIds(gen, ea, v.items);
      }
    case _ =>
  }

  lemma {:induction false} ItemsEncodingIgnoresIds(gen: set<string>, ea: Adapter, items: seq<JValue>)
    ensures EncodeItems(gen, Erase(ea), items) == EncodeItems(gen, ea, items)
    decreases items, 0
  {
    if |items| > 0 {
      ItemsEncodingIgnoresIds(gen, ea, items[..|items| - 1]);
      EncodeIgnoresIds(gen, ea, items[|items| - 1]);
    }
  }

  lemma {:induction false} EntriesEncodingIgnoresIds(gen: set<string>, va: Adapter, es: Entries)
    ensures EncodeEntries(gen, Erase(va), es) == EncodeEntries(gen, va, es)
    decreases es, 0
  {
    if |es| > 0 {
      EntriesEncodingIgnoresIds(gen, va, es[..|es| - 1]);
      var e := es[|es| - 1];
      assert e.val < e;
      EncodeIgnoresIds(gen, va, e.val);
      assert EntryTokens(gen, Erase(va), e) == EntryTokens(gen, va, e);
    }
  }

  // ---------------------------------------------------------------------------
  // The shape of what is written

  /** A token that can start a value. */
  predicate Opens(tok: Token)
  {
    tok != EndArray && tok != EndObject && !tok.Name?
  }

  /** Every encoding starts with a token that starts a value, and only a null is written
      as a leading null token. */
  lemma {:induction false} EncodeFirstToken(gen: set<string>, a: Adapter, v: JValue)
    requires Encode(gen, a, v).Success?
    ensures |Encode(gen, a, v).value| > 0 && Opens(Encode(gen, a, v).value[0])
    ensures v != JNull ==> Encode(gen, a, v).value[0] != Null
    decreases v, Rank(a)
  {
    match a
    case NullSafe(_, d) =>
      if v != JNull {
        EncodeFirstToken(gen, d, v);
      }
    case ObjectA(_) =>
      if v != JNull && v != JPlainObject {
        EncodeFirstToken(gen, Canon(gen, ToJsonType(RuntimeType(v))).value, v);
      }
    case _ =>
  }

  lemma ThenAssoc(a: Result<seq<Token>, Error>, b: Result<seq<Token>, Error>, c: Result<seq<Token>, Error>)
    ensures Then(Then(a, b), c) == Then(a, Then(b, c))
  {
    if a.Success? && b.Success? && c.Success? {
      assert a.value + b.value + c.value == a.value + (b.value + c.value);
    }
  }

  /** The elements' encoding read front to back. */
  lemma {:induction false} EncodeItemsCons(gen: set<string>, ea: Adapter, items: seq<JValue>)
    requires |items| > 0
    ensures EncodeItems(gen, ea, items) == Then(Encode(gen, ea, items[0]), EncodeItems(gen, ea, items[1..]))
    decreases |items|
  {
    if |items| == 1 {
      assert items[..0] == [] && items[1..] == [];
      assert EncodeItems(gen, ea, items[1..]) == Success([]);
      assert EncodeItems(gen, ea, items[..0]) == Success([]);
      var h := Encode(gen, ea, items[0]);
      if h.Success? {
        assert h.value + [] == h.value == [] + h.value;
      }
    } else {
      var pre := items[..|items| - 1];
      EncodeItemsCons(gen, ea, pre);
      assert pre[0] == items[0];
      assert items[1..][..|items| - 2] == pre[1..];
      assert items[1..][|items| - 2] == items[|items| - 1];
      ThenAssoc(Encode(gen, ea, items[0]), EncodeItems(gen, ea, pre[1..]), Encode(gen, ea, items[|items| - 1]));
    }
  }

  /** The entries' encoding read front to back. */
  lemma {:induction false} EncodeEntriesCons(gen: set<string>, va: Adapter, es: Entries)
    requires |es| > 0
    ensures EncodeEntries(gen, va, es) == Then(EntryTokens(gen, va, es[0]), EncodeEntries(gen, va, es[1..]))
    decreases |es|
  {
    if |es| == 1 {
      assert es[..0] == [] && es[1..] == [];
      assert EncodeEntries(gen, va, es[1..]) == Success([]);
      assert EncodeEntries(gen, va, es[..0]) == Success([]);
      var h := EntryTokens(gen, va, es[0]);
      if h.Success? {
        assert h.value + [] == h.value == [] + h.value;
      }
    } else {
      var pre := es[..|es| - 1];
      EncodeEntriesCons(gen, va, pre);
      assert pre[0] == es[0];
      assert es[1..][..|es| - 2] == pre[1..];
      assert es[1..][|es| - 2] == es[|es| - 1];
      ThenAssoc(EntryTokens(gen, va, es[0]), EncodeEntries(gen, va, pre[1..]), EntryTokens(gen, va, es[|es| - 1]));
    }
  }

  // ---------------------------------------------------------------------------
  // The Object adapter

  /** The values the Object adapter reads: null, booleans, strings, doubles, and lists and
      maps (with distinct, non-null keys) of such values. */
  predicate Dynamic(v: JValue)
  {
    match v
    case JNull => true
    case JBool(_) => true
    case JString(_) => true
    case JDouble(_) => true
    case JList(items) => forall i :: 0 <= i < |items| ==> Dynamic(items[i])
    case JMap(es) =>
      DistinctKeys(es) && forall i :: 0 <= i < |es| ==> es[i].key.Some? && Dynamic(es[i].val)
    case _ => false
  }

  /** A value with no list anywhere inside: the values the Object adapter can write, since
      a list's runtime class is looked up as Collection, which has no adapter. */
  predicate ListFree(v: JValue)
  {
    match v
    case JList(_) => false
    case JMap(es) => forall i :: 0 <= i < |es| ==> ListFree(es[i].val)
    case _ => true
  }

  /** The error the Object adapter raises for a list. */
  const NO_COLLECTION_ADAPTER: Error := NoAdapter(CollectionT(ObjectT))

  predicate DynamicEntries(es: Entries)
  {
    DistinctKeys(es) && forall i :: 0 <= i < |es| ==> es[i].key.Some? && Dynamic(es[i].val)
  }

  /** What the Object adapter reads is always a dynamic value. */
  lemma {:induction false} DecodeDynamicIsDynamic(toks: seq<Token>, pos: nat)
    requires pos <= |toks|
    ensures DecodeDynamic(toks, pos).Success? ==> Dynamic(DecodeDynamic(toks, pos).value.0)
    decreases |toks| - pos, 0
  {
    if pos < |toks| {
      match toks[pos]
      case BeginArray => DynElemsAreDynamic(toks, pos + 1, []);
      case BeginObject => DynEntriesAreDynamic(toks, pos + 1, []);
      case _ =>
    }
  }

  lemma {:induction false} DynElemsAreDynamic(toks: seq<Token>, p: nat, acc: seq<JValue>)
    requires p <= |toks|
    requires forall i :: 0 <= i < |acc| ==> Dynamic(acc[i])
    ensures var r := DynElems(toks, p, acc);
            r.Success? ==> forall i :: 0 <= i < |r.value.0| ==> Dynamic(r.value.0[i])
    decreases |toks| - p, 1
  {
    if HasNext(toks, p) {
      DecodeDynamicIsDynamic(toks, p);
      var x := DecodeDynamic(toks, p);
      if x.Success? {
        DynElemsAreDynamic(toks, x.value.1, acc + [x.value.0]);
      }
    }
  }

  lemma {:induction false} DynEntriesAreDynamic(toks: seq<Token>, p: nat, acc: Entries)
    requires p <= |toks|
    requires DynamicEntries(acc)
    ensures var r := DynEntries(toks, p, acc);
            r.Success? ==> DynamicEntries(r.value.0)
    decreases |toks| - p, 1
  {
    if HasNext(toks, p) && toks[p].Name? {
      DecodeDynamicIsDynamic(toks, p + 1);
      var x := DecodeDynamic(toks, p + 1);
      if x.Success? {
        var k := Some(toks[p].name);
        var next := Put(acc, k, x.value.0);
        PutKeepsDistinct(acc, k, x.value.0);
        assert DynamicEntries(next) by {
          forall i | 0 <= i < |next|
            ensures next[i].key.Some? && Dynamic(next[i].val)
          {
            if KeyIndex(acc, k) >= 0 && i != KeyIndex(acc, k) {
              assert next[i] == acc[i];
            } else if KeyIndex(acc, k) == -1 && i < |acc| {
              assert next[i] == acc[i];
            }
          }
        }
        DynEntriesAreDynamic(toks, x.value.1, next);
      }
    }
  }

  /** The adapter Object resolves to. */
  const OBJECT: Adapter := NullSafe(0, ObjectA(0))

  lemma ObjectResolution(gen: set<string>)
    ensures Canon(gen, ObjectT) == Some(OBJECT)
  {
  }

  /** The Object adapter hands a non-null value to the adapter of its runtime class. */
  lemma ObjectDelegates(gen: set<string>, v: JValue, a: Adapter)
    requires v != JNull && v != JPlainObject
    requires Canon(gen, ToJsonType(RuntimeType(v))) == Some(a)
    ensures Encode(gen, OBJECT, v) == Encode(gen, a, v)
  {
    assert Encode(gen, OBJECT, v) == Encode(gen, ObjectA(0), v);
  }

  lemma DynamicEncoding(gen: set<string>, v: JValue)
    requires Dynamic(v)
    ensures v.JBool? ==> Encode(gen, OBJECT, v) == Success([Bool(v.b)])
    ensures v.JString? ==> Encode(gen, OBJECT, v) == Success([Str(v.s)])
    ensures v.JDouble? ==> Encode(gen, OBJECT, v) == Success([Num(v.r)])
    ensures v == JNull ==> Encode(gen, OBJECT, v) == Success([Null])
    ensures v.JList? ==> Encode(gen, OBJECT, v) == Failure(NO_COLLECTION_ADAPTER)
    ensures v.JMap? ==> Encode(gen, OBJECT, v) == Encode(gen, MapA(0, OBJECT), v)
  {
    if v.JBool? {
      assert Canon(gen, ToJsonType(RuntimeType(v))) == Some(NullSafe(0, BooleanA));
      ObjectDelegates(gen, v, NullSafe(0, BooleanA));
    } else if v.JString? {
      assert Canon(gen, ToJsonType(RuntimeType(v))) == Some(NullSafe(0, StringA));
      ObjectDelegates(gen, v, NullSafe(0, StringA));
    } else if v.JDouble? {
      assert Canon(gen, ToJsonType(RuntimeType(v))) == Some(NullSafe(0, DoubleA));
      ObjectDelegates(gen, v, NullSafe(0, DoubleA));
    } else if v.JList? {
      ObjectListLookup(gen, v.items);
      assert Encode(gen, OBJECT, v) == Encode(gen, ObjectA(0), v);
    } else if v.JMap? {
      assert Canon(gen, ToJsonType(RuntimeType(v))) == Some(NullSafe(0, MapA(0, OBJECT)));
      ObjectDelegates(gen, v, NullSafe(0, MapA(0, OBJECT)));
    }
  }

  /** The tokens the Object adapter writes for a dynamic value, read front to back. */
  function DynTokens(v: JValue): (r: seq<Token>)
    decreases v, 1
  {
    match v
    case JNull => [Null]
    case JBool(b) => [Bool(b)]
    case JString(s) => [Str(s)]
    case JDouble(n) => [Num(n)]
    case JList(items) => [BeginArray] + ItemsTokens(items) + [EndArray]
    case JMap(es) => [BeginObject] + EntriesTokens(es) + [EndObject]
    case _ => []
  }

  function ItemsTokens(items: seq<JValue>): (r: seq<Token>)
    decreases items, 0
  {
    if |items| == 0 then [] else DynTokens(items[0]) + ItemsTokens(items[1..])
  }

  function EntriesTokens(es: Entries): (r: seq<Token>)
    decreases es, 0
  {
    if |es| == 0 then [] else EntryTokensOf(es[0]) + EntriesTokens(es[1..])
  }

  function EntryTokensOf(e: Entry): (r: seq<Token>)
    decreases e, 0
  {
    assert e.val < e;
    [Name(if e.key.Some? then e.key.value else "")] + DynTokens(e.val)
  }

  /** What the Object adapter writes for a list-free dynamic value is exactly `DynTokens`. */
  lemma {:induction false} DynamicEncodes(gen: set<string>, v: JValue)
    requires Dynamic(v) && ListFree(v)
    ensures Encode(gen, OBJECT, v) == Success(DynTokens(v))
    decreases v, 1
  {
    DynamicEncoding(gen, v);
    match v
    case JNull =>
    case JBool(_) =>
    case JString(_) =>
    case JDouble(_) =>
    case JMap(es) => DynEntriesEncode(gen, es);
    case _ => assert false;
  }

  lemma {:induction false} DynEntriesEncode(gen: set<string>, es: Entries)
    requires forall i :: 0 <= i < |es| ==> es[i].key.Some? && Dynamic(es[i].val) && ListFree(es[i].val)
    ensures EncodeEntries(gen, OBJECT, es) == Success(EntriesTokens(es))
    decreases es, 0
  {
    if |es| > 0 {
      EncodeEntriesCons(gen, OBJECT, es);
      DynEntryEncodes(gen, es[0]);
      DynEntriesEncode(gen, es[1..]);
    }
  }

  lemma {:induction false} DynEntryEncodes(gen: set<string>, e: Entry)
    requires e.key.Some? && Dynamic(e.val) && ListFree(e.val)
    ensures EntryTokens(gen, OBJECT, e) == Success([Name(e.key.value)] + DynTokens(e.val))
    decreases e, 2
  {
    assert e.val < e;
    DynamicEncodes(gen, e.val);
  }

  /** A dynamic value with a list somewhere inside makes the Object adapter raise the
      missing Collection adapter: the first list met in writing order stops the writing. */
  lemma {:induction false} ListEncodingFails(gen: set<string>, v: JValue)
    requires Dynamic(v) && !ListFree(v)
    ensures Encode(gen, OBJECT, v) == Failure(NO_COLLECTION_ADAPTER)
    decreases v, 1
  {
    DynamicEncoding(gen, v);
    match v
    case JList(_) =>
    case JMap(es) => ListEntriesFail(gen, es);
    case _ => assert false;
  }

  lemma {:induction false} ListEntriesFail(gen: set<string>, es: Entries)
    requires forall i :: 0 <= i < |es| ==> es[i].key.Some? && Dynamic(es[i].val)
    requires exists i :: 0 <= i < |es| && !ListFree(es[i].val)
    ensures EncodeEntries(gen, OBJECT, es) == Failure(NO_COLLECTION_ADAPTER)
    decreases es, 0
  {
    EncodeEntriesCons(gen, OBJECT, es);
    if ListFree(es[0].val) {
      DynEntryEncodes(gen, es[0]);
      var i :| 0 <= i < |es| && !ListFree(es[i].val);
      assert es[1..][i - 1] == es[i];
      ListEntriesFail(gen, es[1..]);
    } else {
      ListEntryFails(gen, es[0]);
    }
  }

  lemma {:induction false} ListEntryFails(gen: set<string>, e: Entry)
    requires e.key.Some? && Dynamic(e.val) && !ListFree(e.val)
    ensures EntryTokens(gen, OBJECT, e) == Failure(NO_COLLECTION_ADAPTER)
    decreases e, 2
  {
    assert e.val < e;
    ListEncodingFails(gen, e.val);
  }

  /** The Object adapter writes a dynamic value exactly when it holds no list. */
  lemma DynamicWrites(gen: set<string>, v: JValue)
    requires Dynamic(v)
    ensures ListFree(v) ==> Encode(gen, OBJECT, v) == Success(DynTokens(v))
    ensures !ListFree(v) ==> Encode(gen, OBJECT, v) == Failure(NO_COLLECTION_ADAPTER)
  {
    if ListFree(v) {
      DynamicEncodes(gen, v);
    } else {
      ListEncodingFails(gen, v);
    }
  }

  /** The Object adapter reads `DynTokens(v)` back as `v`. */
  lemma {:induction false} DynamicDecodes(v: JValue, toks: seq<Token>, pos: nat)
    requires Dynamic(v) && At(toks, pos, DynTokens(v))
    ensures DecodeDynamic(toks, pos) == Success((v, pos + |DynTokens(v)|))
    decreases v, 1
  {
    match v
    case JNull => AtSingle(toks, pos, Null);
    case JBool(b) => AtSingle(toks, pos, Bool(b));
    case JString(s) => AtSingle(toks, pos, Str(s));
    case JDouble(r) => AtSingle(toks, pos, Num(r));
    case JList(items) => DynListDecodes(items, toks, pos);
    case JMap(es) =>
      MapAt(es, toks, pos);
      DynMapDecodes(es, toks, pos);
    case _ => assert false;
  }

  lemma {:induction false} DynListDecodes(items: seq<JValue>, toks: seq<Token>, pos: nat)
    requires forall i :: 0 <= i < |items| ==> Dynamic(items[i])
    requires At(toks, pos, DynTokens(JList(items)))
    ensures DecodeDynamic(toks, pos) == Success((JList(items), pos + |DynTokens(JList(items))|))
    decreases JList(items), 0
  {
    var q := pos + |DynTokens(JList(items))|;
    assert q == pos + 1 + |ItemsTokens(items)| + 1 by {
      ListLength(items);
    }
    assert DynElems(toks, pos + 1, []) == Success((items, q)) by {
      ListAt(items, toks, pos);
      DynItemsDecode(items, toks, pos + 1, []);
      assert [] + items == items;
    }
    ListAt(items, toks, pos);
    DynListOpens(toks, pos, items, q);
  }

  lemma {:induction false} DynMapDecodes(es: Entries, toks: seq<Token>, pos: nat)
    requires DynamicEntries(es)
    requires pos < |toks| && toks[pos] == BeginObject
    requires At(toks, pos + 1, EntriesTokens(es) + [EndObject])
    ensures DecodeDynamic(toks, pos) == Success((JMap(es), pos + |DynTokens(JMap(es))|))
    decreases JMap(es), 0
  {
    var q := pos + |DynTokens(JMap(es))|;
    assert q == pos + 1 + |EntriesTokens(es)| + 1 by {
      MapLength(es);
    }
    assert DynEntries(toks, pos + 1, []) == Success((es, q)) by {
      DynEntriesDecodeAll(es, toks, pos + 1);
    }
    DynMapOpens(toks, pos, es, q);
  }

  /** A list's tokens: an array start, the elements', an array end. */
  lemma ListAt(items: seq<JValue>, toks: seq<Token>, pos: nat)
    requires At(toks, pos, DynTokens(JList(items)))
    ensures pos < |toks| && toks[pos] == BeginArray
    ensures At(toks, pos + 1, ItemsTokens(items) + [EndArray])
  {
    var body := ItemsTokens(items);
    assert DynTokens(JList(items)) == [BeginArray] + (body + [EndArray]);
    AtSplit(toks, pos, [BeginArray], body + [EndArray]);
    AtSingle(toks, pos, BeginArray);
  }

  /** A map's tokens: an object start, the entries', an object end. */
  lemma MapAt(es: Entries, toks: seq<Token>, pos: nat)
    requires At(toks, pos, DynTokens(JMap(es)))
    ensures pos < |toks| && toks[pos] == BeginObject
    ensures At(toks, pos + 1, EntriesTokens(es) + [EndObject])
  {
    var body := EntriesTokens(es);
    assert DynTokens(JMap(es)) == [BeginObject] + (body + [EndObject]);
    AtSplit(toks, pos, [BeginObject], body + [EndObject]);
    AtSingle(toks, pos, BeginObject);
  }

  lemma ListLength(items: seq<JValue>)
    ensures |DynTokens(JList(items))| == |ItemsTokens(items)| + 2
  {
    assert DynTokens(JList(items)) == [BeginArray] + ItemsTokens(items) + [EndArray];
  }

  lemma MapLength(es: Entries)
    ensures |DynTokens(JMap(es))| == |EntriesTokens(es)| + 2
  {
    assert DynTokens(JMap(es)) == [BeginObject] + EntriesTokens(es) + [EndObject];
  }

  /** The Object adapter reads an array as a list of its elements. */
  lemma DynListOpens(toks: seq<Token>, pos: nat, items: seq<JValue>, q: nat)
    requires pos < |toks| && toks[pos] == BeginArray
    requires DynElems(toks, pos + 1, []) == Success((items, q))
    ensures DecodeDynamic(toks, pos) == Success((JList(items), q))
  {
  }

  /** The Object adapter reads an object as a map of its entries. */
  lemma DynMapOpens(toks: seq<Token>, pos: nat, es: Entries, q: nat)
    requires pos < |toks| && toks[pos] == BeginObject
    requires DynEntries(toks, pos + 1, []) == Success((es, q))
    ensures DecodeDynamic(toks, pos) == Success((JMap(es), q))
  {
  }

  /** A dynamic value's tokens start with a token that starts a value. */
  lemma DynFirstToken(v: JValue)
    requires Dynamic(v)
    ensures |DynTokens(v)| > 0 && Opens(DynTokens(v)[0])
  {
  }

  lemma {:induction false} DynItemsDecode(items: seq<JValue>, toks: seq<Token>, p: nat, acc: seq<JValue>)
    requires forall i :: 0 <= i < |items| ==> Dynamic(items[i])
    requires At(toks, p, ItemsTokens(items) + [EndArray])
    ensures DynElems(toks, p, acc) == Success((acc + items, p + |ItemsTokens(items)| + 1))
    decreases items, 1
  {
    if |items| == 0 {
      DynItemsEnd(items, toks, p, acc);
    } else {
      var x, rest := items[0], items[1..];
      var q := p + |DynTokens(x)|;
      ItemsAtSplit(items, toks, p, q);
      DynItemsDecode(rest, toks, q, acc + [x]);
      ItemsCombine(items, toks, p, q, acc);
    }
  }

  /** After the last element the array loop meets the end of the array. */
  lemma DynItemsEnd(items: seq<JValue>, toks: seq<Token>, p: nat, acc: seq<JValue>)
    requires items == [] && At(toks, p, ItemsTokens(items) + [EndArray])
    ensures DynElems(toks, p, acc) == Success((acc + items, p + |ItemsTokens(items)| + 1))
  {
    assert ItemsTokens(items) + [EndArray] == [EndArray];
    AtSingle(toks, p, EndArray);
    assert acc + items == acc;
    DynElemsClose(toks, p, acc);
  }

  /** The tokens of a non-empty element sequence are its first element's, which the
      Object adapter reads, and then the rest's. */
  lemma {:induction false} ItemsAtSplit(items: seq<JValue>, toks: seq<Token>, p: nat, q: nat)
    requires |items| > 0 && forall i :: 0 <= i < |items| ==> Dynamic(items[i])
    requires At(toks, p, ItemsTokens(items) + [EndArray])
    requires q == p + |DynTokens(items[0])|
    ensures HasNext(toks, p) && q <= |toks| && DecodeDynamic(toks, p) == Success((items[0], q))
    ensures forall i :: 0 <= i < |items[1..]| ==> Dynamic(items[1..][i])
    ensures At(toks, q, ItemsTokens(items[1..]) + [EndArray])
    decreases items, 0
  {
    var h := DynTokens(items[0]);
    var rest := ItemsTokens(items[1..]);
    assert ItemsTokens(items) + [EndArray] == h + (rest + [EndArray]);
    AtSplit(toks, p, h, rest + [EndArray]);
    DynFirstToken(items[0]);
    assert toks[p] == toks[p..p + |h|][0];
    assert forall i :: 0 <= i < |items[1..]| ==> items[1..][i] == items[i + 1];
    DynamicDecodes(items[0], toks, p);
  }

  /** A first element and the rest of the array loop. */
  lemma ItemsCombine(items: seq<JValue>, toks: seq<Token>, p: nat, q: nat, acc: seq<JValue>)
    requires |items| > 0 && HasNext(toks, p)
    requires q == p + |DynTokens(items[0])| && q <= |toks|
    requires DecodeDynamic(toks, p) == Success((items[0], q))
    requires DynElems(toks, q, acc + [items[0]]) == Success((acc + [items[0]] + items[1..], q + |ItemsTokens(items[1..])| + 1))
    ensures DynElems(toks, p, acc) == Success((acc + items, p + |ItemsTokens(items)| + 1))
  {
    var x := items[0];
    assert |ItemsTokens(items)| == |DynTokens(x)| + |ItemsTokens(items[1..])|;
    DynElemStep(toks, p, acc, x, q);
    assert acc + [x] + items[1..] == acc + items;
  }

  /** The end of an array ends the Object adapter's array loop. */
  lemma DynElemsClose(toks: seq<Token>, p: nat, acc: seq<JValue>)
    requires p < |toks| && toks[p] == EndArray
    ensures DynElems(toks, p, acc) == Success((acc, p + 1))
  {
  }

  /** The end of an object ends the Object adapter's map loop. */
  lemma DynEntriesClose(toks: seq<Token>, p: nat, acc: Entries)
    requires p < |toks| && toks[p] == EndObject
    ensures DynEntries(toks, p, acc) == Success((acc, p + 1))
  {
  }

  /** One element step of the Object adapter's array loop. */
  lemma DynElemStep(toks: seq<Token>, p: nat, acc: seq<JValue>, x: JValue, q: nat)
    requires HasNext(toks, p) && DecodeDynamic(toks, p) == Success((x, q))
    ensures q <= |toks| && DynElems(toks, p, acc) == DynElems(toks, q, acc + [x])
  {
  }

  lemma {:induction false} DynEntriesDecode(acc: Entries, es: Entries, toks: seq<Token>, p: nat)
    requires DynamicEntries(acc + es)
    requires At(toks, p, EntriesTokens(es) + [EndObject])
    ensures DynEntries(toks, p, acc) == Success((acc + es, p + |EntriesTokens(es)| + 1))
    decreases es, 1
  {
    if |es| == 0 {
      DynEntriesEnd(acc, es, toks, p);
    } else {
      var e, rest := es[0], es[1..];
      var q := p + |EntryTokensOf(e)|;
      EntriesAtSplit(acc, es, toks, p, q);
      DynEntriesDecode(acc + [e], rest, toks, q);
      DynEntryCombine(acc, es, e.key.value, toks, p, q);
    }
  }

  /** After the last entry the map loop meets the end of the object. */
  lemma DynEntriesEnd(acc: Entries, es: Entries, toks: seq<Token>, p: nat)
    requires es == [] && At(toks, p, EntriesTokens(es) + [EndObject])
    ensures DynEntries(toks, p, acc) == Success((acc + es, p + |EntriesTokens(es)| + 1))
  {
    assert EntriesTokens(es) + [EndObject] == [EndObject];
    AtSingle(toks, p, EndObject);
    assert acc + es == acc;
    DynEntriesClose(toks, p, acc);
  }

  /** The tokens of non-empty entries are the first entry's, which the Object adapter
      reads, and then the rest's; the rest still extends the read entries with distinct
      keys. */
  lemma {:induction false} EntriesAtSplit(acc: Entries, es: Entries, toks: seq<Token>, p: nat, q: nat)
    requires |es| > 0 && DynamicEntries(acc + es)
    requires At(toks, p, EntriesTokens(es) + [EndObject])
    requires q == p + |EntryTokensOf(es[0])|
    ensures DynamicEntries(acc + [es[0]] + es[1..]) && DistinctKeys(acc + es)
    ensures es[0].key.Some? && p < |toks| && toks[p] == Name(es[0].key.value)
    ensures q <= |toks| && DecodeDynamic(toks, p + 1) == Success((es[0].val, q))
    ensures At(toks, q, EntriesTokens(es[1..]) + [EndObject])
    decreases es, 0
  {
    var x := EntryTokensOf(es[0]);
    var rest := EntriesTokens(es[1..]);
    assert acc + [es[0]] + es[1..] == acc + es;
    assert (acc + es)[|acc|] == es[0];
    assert EntriesTokens(es) + [EndObject] == x + (rest + [EndObject]);
    AtSplit(toks, p, x, rest + [EndObject]);
    DynEntryDecodes(es[0], toks, p);
  }

  lemma {:induction false} DynEntriesDecodeAll(es: Entries, toks: seq<Token>, p: nat)
    requires DynamicEntries(es)
    requires At(toks, p, EntriesTokens(es) + [EndObject])
    ensures DynEntries(toks, p, []) == Success((es, p + |EntriesTokens(es)| + 1))
    decreases es, 2
  {
    assert [] + es == es;
    DynEntriesDecode([], es, toks, p);
  }

  /** The Object adapter reads one entry's name and value. */
  lemma {:induction false} DynEntryDecodes(e: Entry, toks: seq<Token>, p: nat)
    requires e.key.Some? && Dynamic(e.val) && At(toks, p, EntryTokensOf(e))
    ensures p < |toks| && toks[p] == Name(e.key.value)
    ensures DecodeDynamic(toks, p + 1) == Success((e.val, p + |EntryTokensOf(e)|))
    decreases e, 2
  {
    assert e.val < e;
    AtSplit(toks, p, [Name(e.key.value)], DynTokens(e.val));
    AtSingle(toks, p, Name(e.key.value));
    DynamicDecodes(e.val, toks, p + 1);
  }

  /** A new name, its value and the rest of the map loop. */
  lemma {:induction false} DynEntryCombine(acc: Entries, es: Entries, k: string, toks: seq<Token>, p: nat, q: nat)
    requires |es| > 0 && DistinctKeys(acc + es) && es[0].key == Some(k)
    requires p < |toks| && toks[p] == Name(k)
    requires q == p + |EntryTokensOf(es[0])| && q <= |toks|
    requires DecodeDynamic(toks, p + 1) == Success((es[0].val, q))
    requires DynEntries(toks, q, acc + [es[0]]) == Success((acc + [es[0]] + es[1..], q + |EntriesTokens(es[1..])| + 1))
    ensures DynEntries(toks, p, acc) == Success((acc + es, p + |EntriesTokens(es)| + 1))
  {
    var e := es[0];
    assert |EntriesTokens(es)| == |EntryTokensOf(e)| + |EntriesTokens(es[1..])|;
    NextKeyAppends(acc, es);
    DynEntryStep(toks, p, acc, e, q);
    assert acc + [e] + es[1..] == acc + es;
  }

  /** The Object adapter reads back every dynamic value it writes: every list-free one. */
  lemma DynamicRoundTrip(gen: set<string>, v: JValue)
    requires Dynamic(v) && ListFree(v)
    ensures Encode(gen, OBJECT, v).Success?
    ensures DecodeDynamic(Encode(gen, OBJECT, v).value, 0) == Success((v, |Encode(gen, OBJECT, v).value|))
  {
    DynamicEncodes(gen, v);
    DynTokensRead(v);
  }

  /** A dynamic value's tokens, on their own, are read back as the value. */
  lemma DynTokensRead(v: JValue)
    requires Dynamic(v)
    ensures DecodeDynamic(DynTokens(v), 0) == Success((v, |DynTokens(v)|))
  {
    var enc := DynTokens(v);
    assert enc[0..|enc|] == enc;
    DynamicDecodes(v, enc, 0);
  }

  /** The tokens of a nonempty sequence of elements followed by a closing token: the
      first element's tokens, then the rest's. */
  lemma ItemsAt(gen: set<string>, ea: Adapter, items: seq<JValue>, toks: seq<Token>, p: nat, close: Token)
    returns (h: seq<Token>, rest: seq<Token>)
    requires |items| > 0 && EncodeItems(gen, ea, items).Success?
    requires At(toks, p, EncodeItems(gen, ea, items).value + [close])
    ensures Encode(gen, ea, items[0]) == Success(h) && EncodeItems(gen, ea, items[1..]) == Success(rest)
    ensures |EncodeItems(gen, ea, items).value| == |h| + |rest|
    ensures At(toks, p, h) && At(toks, p + |h|, rest + [close])
    ensures HasNext(toks, p)
  {
    EncodeItemsCons(gen, ea, items);
    h := Encode(gen, ea, items[0]).value;
    rest := EncodeItems(gen, ea, items[1..]).value;
    assert EncodeItems(gen, ea, items).value + [close] == h + (rest + [close]);
    AtSplit(toks, p, h, rest + [close]);
    EncodeFirstToken(gen, ea, items[0]);
    assert toks[p] == toks[p..p + |h|][0];
  }

  /** The tokens of a nonempty sequence of entries with a first name followed by a closing
      token: the name, the first value's tokens, then the rest's. */
  lemma EntriesAt(gen: set<string>, va: Adapter, es: Entries, toks: seq<Token>, p: nat, close: Token)
    returns (x: seq<Token>, rest: seq<Token>)
    requires |es| > 0 && es[0].key.Some? && EncodeEntries(gen, va, es).Success?
    requires At(toks, p, EncodeEntries(gen, va, es).value + [close])
    ensures Encode(gen, va, es[0].val) == Success(x) && EncodeEntries(gen, va, es[1..]) == Success(rest)
    ensures |EncodeEntries(gen, va, es).value| == 1 + |x| + |rest|
    ensures p < |toks| && toks[p] == Name(es[0].key.value)
    ensures At(toks, p + 1, x) && At(toks, p + 1 + |x|, rest + [close])
  {
    EncodeEntriesCons(gen, va, es);
    x := Encode(gen, va, es[0].val).value;
    rest := EncodeEntries(gen, va, es[1..]).value;
    assert EncodeEntries(gen, va, es).value + [close] == [Name(es[0].key.value)] + x + (rest + [close]);
    EntryAt(toks, p, es[0].key.value, x, rest + [close]);
  }

  /** One name-value step of the Object adapter's map loop, for a new name. */
  lemma DynEntryStep(toks: seq<Token>, p: nat, acc: Entries, e: Entry, q: nat)
    requires e.key.Some? && p < |toks| && toks[p] == Name(e.key.value)
    requires DecodeDynamic(toks, p + 1) == Success((e.val, q))
    requires Put(acc, e.key, e.val) == acc + [e]
    ensures q <= |toks| && DynEntries(toks, p, acc) == DynEntries(toks, q, acc + [e])
  {
  }

  /** The tokens of one entry followed by more tokens. */
  lemma EntryAt(toks: seq<Token>, p: nat, k: string, x: seq<Token>, more: seq<Token>)
    requires At(toks, p, [Name(k)] + x + more)
    ensures p < |toks| && toks[p] == Name(k)
    ensures At(toks, p + 1, x) && At(toks, p + 1 + |x|, more)
  {
    assert [Name(k)] + x + more == [Name(k)] + (x + more);
    AtSplit(toks, p, [Name(k)], x + more);
    AtSplit(toks, p + 1, x, more);
    AtSingle(toks, p, Name(k));
  }

  /** In a map with distinct keys, the next entry's key is new, so put appends it. */
  lemma NextKeyAppends(acc: Entries, es: Entries)
    requires |es| > 0 && DistinctKeys(acc + es)
    ensures Put(acc, es[0].key, es[0].val) == acc + [es[0]]
  {
    forall j | 0 <= j < |acc|
      ensures acc[j].key != es[0].key
    {
      assert (acc + es)[j] == acc[j] && (acc + es)[|acc|] == es[0];
    }
  }

}
