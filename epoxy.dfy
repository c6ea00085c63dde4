/** EpoxyRegistry: the runtime entry point. An `Epoxy` instance caches one adapter per
    type; typeAdapter answers from the cache, else loads the generated adapter of an
    application class, else asks the core factory, whose container adapters look their
    element adapters up through typeAdapter in turn. fromJson and toJson run the adapter
    of the requested type over a reader or a writer. */
module EpoxyRegistry {
  import opened Wrappers
  import opened JsonTokens
  import opened JsonAdapter
  import opened CoreAdapters
  import opened CoreAdaptersProofs
  import TypedRoundTrip

  /** The object identities inside an adapter. */
  function Ids(a: Adapter): set<nat>
  {
    match a
    case NullSafe(i, d) => {i} + Ids(d)
    case ObjectA(i) => {i}
    case EnumA(i, _) => {i}
    case MapA(i, va) => {i} + Ids(va)
    case ListA(i, ea) => {i} + Ids(ea)
    case ArrayA(i, _, ea) => {i} + Ids(ea)
    case Generated(i, _) => {i}
    case _ => {}
  }

  /** The shared singletons of the primitive classes and String. */
  predicate Shared(a: Adapter)
  {
    a.BooleanA? || a.ByteA? || a.CharA? || a.DoubleA? || a.FloatA? || a.IntA? ||
    a.LongA? || a.ShortA? || a.StringA?
  }

  /** `after` keeps every entry of `before`. */
  predicate Extends(before: map<RType, Adapter>, after: map<RType, Adapter>)
  {
    forall t :: t in before ==> t in after && after[t] == before[t]
  }

  /** `u` is an element type of `t`, at any depth. */
  predicate SubType(u: RType, t: RType)
  {
    Child(t).Some? && (u == Child(t).value || SubType(u, Child(t).value))
  }

  /** How deeply container types nest. */
  function Depth(t: RType): nat
  {
    if Child(t).Some? then 1 + Depth(Child(t).value) else 0
  }

  lemma {:induction false} SubTypeShallower(u: RType, t: RType)
    requires SubType(u, t)
    ensures Depth(u) < Depth(t)
  {
    if u != Child(t).value {
      SubTypeShallower(u, Child(t).value);
    }
  }

  lemma ChildSmaller(t: RType)
    requires Child(t).Some?
    ensures Child(t).value < t
  {
  }

  /** The keys `after` has beyond `before` are `t` or element types of it. */
  predicate NewKeysWithin(before: map<RType, Adapter>, after: map<RType, Adapter>, t: RType, self: bool)
  {
    forall u :: u in after && u !in before ==> (self && u == t) || SubType(u, t)
  }

  /** Every cached adapter is the one its type resolves to. */
  predicate Resolved(gen: set<string>, cache: map<RType, Adapter>)
  {
    forall t :: t in cache ==> Canon(gen, t) == Some(Erase(cache[t]))
  }

  /** `a`, cached for `t`, holds the cached adapter of `t`'s element type. */
  predicate HoldsChild(cache: map<RType, Adapter>, t: RType, a: Adapter)
  {
    Child(t).Some? ==> Child(t).value in cache && Inner(a) == Some(cache[Child(t).value])
  }

  /** Every cached container adapter holds the cached adapter of its element type. */
  predicate Linked(cache: map<RType, Adapter>)
  {
    forall t :: t in cache ==> HoldsChild(cache, t, cache[t])
  }

  /** Every identity in `a` was handed out before `n`. */
  predicate Below(a: Adapter, n: nat)
  {
    forall i :: i in Ids(a) ==> i < n
  }

  predicate AllBelow(cache: map<RType, Adapter>, n: nat)
  {
    forall t :: t in cache ==> Below(cache[t], n)
  }

  /** `a` is a new object, handed out at or after `from`, unless it is a shared
      singleton. */
  predicate NewSince(a: Adapter, from: nat)
  {
    !Shared(a) ==> exists i :: i in Ids(a) && from <= i
  }

  /** What createAdapter builds for `t`: a resolution of `t`, made of objects handed out
      between `from` and `n`, holding the cached element adapter. */
  predicate Built(gen: set<string>, cache: map<RType, Adapter>, n: nat, t: RType, a: Adapter, from: nat)
  {
    CoreWith(gen, t, false) == Some(Erase(a)) && Below(a, n) && NewSince(a, from) && HoldsChild(cache, t, a)
  }

  /** The Map, List or array adapter of `t` around the element adapter `inner`,
      nullSafe-wrapped: `o` is the container object, `n` the wrapper. */
  function Wrapped(t: RType, o: nat, n: nat, inner: Adapter): (a: Adapter)
    requires Child(t).Some? && !t.CollectionT?
    ensures Inner(a) == Some(inner) && Ids(a) == {n, o} + Ids(inner)
  {
    match t
    case MapT(_) => NullSafe(n, MapA(o, inner))
    case ListT(_) => NullSafe(n, ListA(o, inner))
    case ArrayT(ct) => NullSafe(n, ArrayA(o, ct, inner))
  }

  /** Wrapping the element type's resolution resolves the container type. */
  lemma WrappedResolves(gen: set<string>, t: RType, o: nat, n: nat, inner: Adapter)
    requires Child(t).Some? && !t.CollectionT? && Canon(gen, Child(t).value) == Some(Erase(inner))
    ensures CoreWith(gen, t, false) == Some(Erase(Wrapped(t, o, n, inner)))
  {
  }

  /** Caching a resolution of a new type that holds the cached element adapter keeps the
      cache resolved, linked and below the next identity. */
  lemma InsertKeepsValid(gen: set<string>, cache: map<RType, Adapter>, n: nat, t: RType, a: Adapter)
    requires Resolved(gen, cache) && Linked(cache) && AllBelow(cache, n) && t !in cache
    requires Canon(gen, t) == Some(Erase(a)) && HoldsChild(cache, t, a) && Below(a, n)
    ensures Resolved(gen, cache[t := a]) && Linked(cache[t := a]) && AllBelow(cache[t := a], n)
  {
    var c := cache[t := a];
    forall u | u in c
      ensures HoldsChild(c, u, c[u])
    {
      if u == t {
        assert HoldsChild(cache, t, a);
      } else {
        assert HoldsChild(cache, u, cache[u]);
      }
    }
  }

  /** What a write leaves behind, against what the adapter writes: on success exactly
      those tokens appended; on failure the same error. */
  predicate Written(spec: Result<seq<Token>, Error>, res: Result<(), Error>, before: seq<Token>, after: seq<Token>)
  {
    if spec.Success? then res == Success(()) && after == before + spec.value
    else res == Failure(spec.error)
  }

  /** Once a prefix of the elements fails to write, the whole sequence fails the same way. */
  lemma {:induction false} ItemsFailureSticks(gen: set<string>, ea: Adapter, items: seq<JValue>, k: nat)
    requires k <= |items| && EncodeItems(gen, ea, items[..k]).Failure?
    ensures EncodeItems(gen, ea, items) == EncodeItems(gen, ea, items[..k])
    decreases |items| - k
  {
    if k < |items| {
      assert items[..k + 1][..k] == items[..k];
      ItemsFailureSticks(gen, ea, items, k + 1);
    } else {
      assert items[..k] == items;
    }
  }

  /** One more element written after the first `i`. */
  lemma ItemsStep(gen: set<string>, ea: Adapter, items: seq<JValue>, i: nat,
                  before: seq<Token>, mid: seq<Token>, x: Result<(), Error>, after: seq<Token>)
    requires i < |items| && EncodeItems(gen, ea, items[..i]).Success?
    requires mid == before + EncodeItems(gen, ea, items[..i]).value
    requires Written(Encode(gen, ea, items[i]), x, mid, after)
    ensures x.Failure? ==> EncodeItems(gen, ea, items[..i + 1]) == Failure(x.error)
    ensures x.Success? ==> EncodeItems(gen, ea, items[..i + 1]).Success? &&
                           after == before + EncodeItems(gen, ea, items[..i + 1]).value
  {
    assert items[..i + 1][..i] == items[..i];
  }

  /** One more entry written after the first `i`. */
  lemma EntriesStep(gen: set<string>, va: Adapter, es: Entries, i: nat,
                    before: seq<Token>, mid: seq<Token>, x: Result<(), Error>, after: seq<Token>)
    requires i < |es| && EncodeEntries(gen, va, es[..i]).Success?
    requires mid == before + EncodeEntries(gen, va, es[..i]).value
    requires Written(EntryTokens(gen, va, es[i]), x, mid, after)
    ensures x.Failure? ==> EncodeEntries(gen, va, es[..i + 1]) == Failure(x.error)
    ensures x.Success? ==> EncodeEntries(gen, va, es[..i + 1]).Success? &&
                           after == before + EncodeEntries(gen, va, es[..i + 1]).value
  {
    assert es[..i + 1][..i] == es[..i];
  }

  lemma {:induction false} EntriesFailureSticks(gen: set<string>, va: Adapter, es: Entries, k: nat)
    requires k <= |es| && EncodeEntries(gen, va, es[..k]).Failure?
    ensures EncodeEntries(gen, va, es) == EncodeEntries(gen, va, es[..k])
    decreases |es| - k
  {
    if k < |es| {
      assert es[..k + 1][..k] == es[..k];
      EntriesFailureSticks(gen, va, es, k + 1);
    } else {
      assert es[..k] == es;
    }
  }

  /** The Object adapter looks a non-null value up by its runtime class; without an
      adapter for it, writing fails as that lookup does. */
  lemma ObjectLookup(gen: set<string>, v: JValue, t: RType)
    requires v != JNull && v != JPlainObject && t == ToJsonType(RuntimeType(v))
    ensures t != ObjectT
    ensures Canon(gen, t).None? ==> Encode(gen, ObjectA(0), v) == Failure(NoAdapter(FailingType(gen, t)))
  {
  }

  /** ... and with one, it writes what that adapter writes. */
  lemma {:induction false} ObjectWritesAs(gen: set<string>, v: JValue, t: RType, a: Adapter)
    requires v != JNull && v != JPlainObject && t == ToJsonType(RuntimeType(v))
    requires Canon(gen, t) == Some(Erase(a))
    ensures Rank(a) <= 1
    ensures Encode(gen, ObjectA(0), v) == Encode(gen, a, v)
  {
    EraseKeepsShape(a);
    EncodeIgnoresIds(gen, a, v);
  }

  class Epoxy {
    /** The application classes whose generated `$$JsonAdapter` class loads. */
    const generated: set<string>
    /** mAdapterCache. */
    var cache: map<RType, Adapter>
    /** The identity the next adapter object created gets. */
    var nextId: nat

    /** Every cached adapter is the one its type resolves to, a container's adapter holds
        the cached adapter of its element type, and every identity in use is below
        `nextId`. */
    ghost predicate Valid()
      reads this
    {
      Resolved(generated, cache) && Linked(cache) && AllBelow(cache, nextId)
    }

    constructor (generated: set<string>)
      ensures Valid() && this.generated == generated && cache == map[] && nextId == 0
    {
      this.generated := generated;
      cache := map[];
      nextId := 0;
    }

    /** A new adapter object. */
    method Fresh() returns (id: nat)
      requires Valid()
      modifies this
      ensures Valid()
      ensures id == old(nextId) && nextId == old(nextId) + 1 && cache == old(cache)
    {
      id := nextId;
      nextId := nextId + 1;
    }

    /** typeAdapter: a cached adapter is returned as it is; otherwise the generated adapter
        of an application class, else the core factory's, is cached and returned; with
        neither, "No JsonAdapter" names the innermost type without one. */
    method TypeAdapter(t: RType) returns (r: Result<Adapter, Error>)
      requires Valid()
      modifies this
      ensures Valid() && Extends(old(cache), cache) && old(nextId) <= nextId
      ensures NewKeysWithin(old(cache), cache, t, true)
      ensures r.Success? <==> Canon(generated, t).Some?
      ensures r.Success? ==> t in cache && cache[t] == r.value && Canon(generated, t) == Some(Erase(r.value))
      ensures r.Failure? ==> r.error == NoAdapter(FailingType(generated, t)) && cache == old(cache) && nextId == old(nextId)
      ensures t in old(cache) ==> r == Success(old(cache)[t]) && cache == old(cache) && nextId == old(nextId)
      ensures t !in old(cache) && r.Success? ==> NewSince(r.value, old(nextId))
      decreases t, 1
    {
      if t in cache {
        return Success(cache[t]);
      }
      var n := ProbeName(t);
      var a: Adapter;
      if n.Some? && n.value in generated {
        var id := Fresh();
        a := Generated(id, n.value);
        assert id in Ids(a);
      } else {
        assert Canon(generated, t) == CoreWith(generated, t, false);
        var c := CreateAdapter(t);
        if c.Failure? {
          return Failure(c.error);
        }
        if c.value.None? {
          return Failure(NoAdapter(t));
        }
        a := c.value.value;
        if t in cache {
          SubTypeShallower(t, t);
        }
      }
      Insert(t, a);
      return Success(a);
    }

    /** mAdapterCache.put(type, result). */
    method Insert(t: RType, a: Adapter)
      requires Valid() && t !in cache
      requires Canon(generated, t) == Some(Erase(a)) && HoldsChild(cache, t, a) && Below(a, nextId)
      modifies this
      ensures Valid() && cache == old(cache)[t := a] && nextId == old(nextId)
    {
      InsertKeepsValid(generated, cache, nextId, t, a);
      cache := cache[t := a];
    }

    /** createAdapter(type, epoxy): Success(None) is the `null` it returns for an
        application class and for a Collection type (it is neither a Map nor a List and
        has no array component type); a failure is the exception of the element type's
        lookup. */
    method CreateAdapter(t: RType) returns (r: Result<Option<Adapter>, Error>)
      requires Valid()
      modifies this
      ensures Valid() && Extends(old(cache), cache) && old(nextId) <= nextId
      ensures NewKeysWithin(old(cache), cache, t, false)
      ensures r.Success? && r.value.Some? <==> CoreWith(generated, t, false).Some?
      ensures r == Success(None) <==> t.ClassT? || t.CollectionT?
      ensures r.Success? && r.value.Some? ==> Built(generated, cache, nextId, t, r.value.value, old(nextId))
      ensures r.Failure? ==>
                Child(t).Some? && !t.CollectionT? && Canon(generated, Child(t).value).None? &&
                r.error == NoAdapter(FailingType(generated, Child(t).value))
      ensures !(r.Success? && r.value.Some?) ==> cache == old(cache) && nextId == old(nextId)
      decreases t, 0
    {
      match t
      case ClassT(_, _) | CollectionT(_) =>
        return Success(None);
      case MapT(_) | ListT(_) | ArrayT(_) =>
        ChildSmaller(t);
        var c := TypeAdapter(Child(t).value);
        if c.Failure? {
          return Failure(c.error);
        }
        var a := Container(t, c.value);
        return Success(Some(a));
      case _ =>
        var a := Single(t);
        return Success(Some(a));
    }

    /** The adapter of a type without element types: a shared primitive adapter, or the
        String, Object or enum adapter with nullSafe in front. */
    method Single(t: RType) returns (a: Adapter)
      requires Valid() && Child(t).None? && !t.ClassT?
      modifies this
      ensures Valid() && cache == old(cache) && old(nextId) <= nextId
      ensures Built(generated, cache, nextId, t, a, old(nextId))
    {
      match t
      case Prim(p) =>
        a := Bare(p);
      case Boxed(p) =>
        var n := Fresh();
        a := NullSafe(n, Bare(p));
        assert n in Ids(a);
      case StringT =>
        var n := Fresh();
        a := NullSafe(n, StringA);
        assert n in Ids(a);
      case ObjectT =>
        var o := Fresh();
        var n := Fresh();
        a := NullSafe(n, ObjectA(o));
        assert n in Ids(a);
      case EnumT(e) =>
        var o := Fresh();
        var n := Fresh();
        a := NullSafe(n, EnumA(o, e));
        assert n in Ids(a);
    }

    /** new MapJsonAdapter / ListJsonAdapter / ArrayJsonAdapter around the element adapter,
        then nullSafe. */
    method Container(t: RType, inner: Adapter) returns (a: Adapter)
      requires Valid() && Child(t).Some? && !t.CollectionT? && Child(t).value in cache && cache[Child(t).value] == inner
      modifies this
      ensures Valid() && cache == old(cache) && nextId == old(nextId) + 2
      ensures Built(generated, cache, nextId, t, a, old(nextId))
    {
      assert Below(inner, nextId);
      var o := Fresh();
      var n := Fresh();
      WrappedResolves(generated, t, o, n, inner);
      a := Wrapped(t, o, n, inner);
      assert n in Ids(a);
    }

    // -------------------------------------------------------------------------
    // fromJson and toJson

    /** fromJson(reader, type): the adapter of `type` reads the value; without one the
        reader is left where it was. */
    method FromJson(r: TokenReader, t: RType) returns (res: Result<JValue, Error>)
      requires Valid() && r.Valid()
      modifies this, r
      ensures Valid() && Extends(old(cache), cache) && r.Valid()
      ensures Canon(generated, t).Some? ==> Agrees(Decode(Canon(generated, t).value, r.tokens, old(r.pos)), res, r.pos)
      ensures Canon(generated, t).None? ==>
                res == Failure(NoAdapter(FailingType(generated, t))) && r.pos == old(r.pos)
    {
      var c := TypeAdapter(t);
      if c.Failure? {
        return Failure(c.error);
      }
      DecodeIgnoresIds(c.value, r.tokens, r.pos);
      res := CoreAdapters.FromJson(c.value, r);
    }

    /** fromJson(string, class): a new reader over the whole input. */
    method FromJsonTokens(toks: seq<Token>, t: RType) returns (res: Result<JValue, Error>)
      requires Valid()
      modifies this
      ensures Valid() && Extends(old(cache), cache)
      ensures Canon(generated, t).Some? ==>
                var spec := Decode(Canon(generated, t).value, toks, 0);
                if spec.Success? then res == Success(spec.value.0) else res == Failure(spec.error)
      ensures Canon(generated, t).None? ==> res == Failure(NoAdapter(FailingType(generated, t)))
    {
      var r := new TokenReader(toks);
      res := FromJson(r, t);
    }

    /** toJson(writer, value, type): the adapter of `type` writes the value. */
    method ToJson(w: TokenWriter, v: JValue, t: RType) returns (res: Result<(), Error>)
      requires Valid()
      modifies this, w
      ensures Valid() && Extends(old(cache), cache)
      ensures Canon(generated, t).Some? ==> Written(Encode(generated, Canon(generated, t).value, v), res, old(w.tokens), w.tokens)
      ensures Canon(generated, t).None? ==>
                res == Failure(NoAdapter(FailingType(generated, t))) && w.tokens == old(w.tokens)
    {
      var c := TypeAdapter(t);
      if c.Failure? {
        return Failure(c.error);
      }
      EncodeIgnoresIds(generated, c.value, v);
      res := WriteValue(c.value, w, v);
    }

    /** toJson(value, class): the output of a new writer. */
    method ToJsonTokens(v: JValue, t: RType) returns (res: Result<seq<Token>, Error>)
      requires Valid()
      modifies this
      ensures Valid() && Extends(old(cache), cache)
      ensures Canon(generated, t).Some? ==> res == Encode(generated, Canon(generated, t).value, v)
      ensures Canon(generated, t).None? ==> res == Failure(NoAdapter(FailingType(generated, t)))
    {
      var w := new TokenWriter();
      var done := ToJson(w, v, t);
      if done.Failure? {
        return Failure(done.error);
      }
      if Canon(generated, t).Some? {
        var spec := Encode(generated, Canon(generated, t).value, v);
        assert spec.Success?;
        assert w.tokens == [] + spec.value;
        assert w.tokens == spec.value;
        assert Success(w.tokens) == spec;
      }
      return Success(w.tokens);
    }

    /** toJson(value, class) followed by fromJson(string, class) gives back every value of
        a type that has an adapter. */
    method WriteThenRead(v: JValue, t: RType) returns (res: Result<JValue, Error>)
      requires Valid() && Canon(generated, t).Some? && TypedRoundTrip.Typed(generated, t, v)
      modifies this
      ensures Valid() && res == Success(v)
    {
      TypedRoundTrip.TypedRoundTrip(generated, t, v, Canon(generated, t).value);
      var toks := ToJsonTokens(v, t);
      res := FromJsonTokens(toks.value, t);
    }

    /** adapter.toJson(epoxy, writer, value). */
    method WriteValue(a: Adapter, w: TokenWriter, v: JValue) returns (res: Result<(), Error>)
      requires Valid()
      modifies this, w
      ensures Valid() && Extends(old(cache), cache)
      ensures Written(Encode(generated, a, v), res, old(w.tokens), w.tokens)
      decreases v, Rank(a), 1
    {
      match a
      case NullSafe(_, d) =>
        if v == JNull {
          w.Write(Null);
          return Success(());
        }
        res := WriteValue(d, w, v);
      case ObjectA(_) =>
        res := WriteObject(w, v);
      case MapA(_, va) =>
        if !v.JMap? {
          return Failure(Mismatch(v).error);
        }
        w.Write(BeginObject);
        res := WriteEntries(va, w, v.entries);
        if res.Success? {
          w.Write(EndObject);
        }
      case ListA(_, ea) =>
        if !v.JList? {
          return Failure(Mismatch(v).error);
        }
        w.Write(BeginArray);
        res := WriteItems(ea, w, v.items);
        if res.Success? {
          w.Write(EndArray);
        }
      case ArrayA(_, _, ea) =>
        if !v.JArray? {
          return Failure(Mismatch(v).error);
        }
        w.Write(BeginArray);
        res := WriteItems(ea, w, v.items);
        if res.Success? {
          w.Write(EndArray);
        }
      case Generated(_, _) =>
        return Failure(External);
      case _ =>
        res := WriteLeaf(a, w, v);
    }

    /** ObjectJsonAdapter.toJson: a plain Object is written as an empty object, any other
        value by the adapter of its runtime class. */
    method WriteObject(w: TokenWriter, v: JValue) returns (res: Result<(), Error>)
      requires Valid()
      modifies this, w
      ensures Valid() && Extends(old(cache), cache)
      ensures Written(Encode(generated, ObjectA(0), v), res, old(w.tokens), w.tokens)
      decreases v, 2, 0
    {
      if v == JNull {
        return Failure(NullValue);
      }
      if v == JPlainObject {
        w.Write(BeginObject);
        w.Write(EndObject);
        return Success(());
      }
      var t := ToJsonType(RuntimeType(v));
      var c := TypeAdapter(t);
      ObjectLookup(generated, v, t);
      if c.Failure? {
        return Failure(c.error);
      }
      ObjectWritesAs(generated, v, t, c.value);
      res := WriteValue(c.value, w, v);
    }

    /** The elements in index order, stopping at the first that fails. */
    method WriteItems(ea: Adapter, w: TokenWriter, items: seq<JValue>) returns (res: Result<(), Error>)
      requires Valid()
      modifies this, w
      ensures Valid() && Extends(old(cache), cache)
      ensures Written(EncodeItems(generated, ea, items), res, old(w.tokens), w.tokens)
      decreases items, 0
    {
      var i := 0;
      while i < |items|
        invariant 0 <= i <= |items|
        invariant Valid() && Extends(old(cache), cache)
        invariant EncodeItems(generated, ea, items[..i]).Success?
        invariant w.tokens == old(w.tokens) + EncodeItems(generated, ea, items[..i]).value
      {
        ghost var mid := w.tokens;
        var x := WriteValue(ea, w, items[i]);
        ItemsStep(generated, ea, items, i, old(w.tokens), mid, x, w.tokens);
        if x.Failure? {
          ItemsFailureSticks(generated, ea, items, i + 1);
          return x;
        }
        i := i + 1;
      }
      assert items[..i] == items;
      return Success(());
    }

    /** The entries in iteration order, stopping at the first null key or failing value. */
    method WriteEntries(va: Adapter, w: TokenWriter, es: Entries) returns (res: Result<(), Error>)
      requires Valid()
      modifies this, w
      ensures Valid() && Extends(old(cache), cache)
      ensures Written(EncodeEntries(generated, va, es), res, old(w.tokens), w.tokens)
      decreases es, 1
    {
      var i := 0;
      while i < |es|
        invariant 0 <= i <= |es|
        invariant Valid() && Extends(old(cache), cache)
        invariant EncodeEntries(generated, va, es[..i]).Success?
        invariant w.tokens == old(w.tokens) + EncodeEntries(generated, va, es[..i]).value
      {
        ghost var mid := w.tokens;
        var x := WriteEntry(va, w, es[i]);
        EntriesStep(generated, va, es, i, old(w.tokens), mid, x, w.tokens);
        if x.Failure? {
          EntriesFailureSticks(generated, va, es, i + 1);
          return x;
        }
        i := i + 1;
      }
      assert es[..i] == es;
      return Success(());
    }

    /** One entry: a null key raises "Map key is null". */
    method WriteEntry(va: Adapter, w: TokenWriter, e: Entry) returns (res: Result<(), Error>)
      requires Valid()
      modifies this, w
      ensures Valid() && Extends(old(cache), cache)
      ensures Written(EntryTokens(generated, va, e), res, old(w.tokens), w.tokens)
      decreases e, 0
    {
      if e.key.None? {
        return Failure(NullMapKey);
      }
      w.Write(Name(e.key.value));
      assert e.val < e;
      res := WriteValue(va, w, e.val);
    }

    /** The bare adapters of the primitive classes, String and enums. */
    method WriteLeaf(a: Adapter, w: TokenWriter, v: JValue) returns (res: Result<(), Error>)
      requires a.BooleanA? || a.ByteA? || a.CharA? || a.DoubleA? || a.FloatA? || a.IntA? ||
               a.LongA? || a.ShortA? || a.StringA? || a.EnumA?
      modifies w
      ensures Written(Encode(generated, a, v), res, old(w.tokens), w.tokens)
    {
      match a {
        case BooleanA =>
          if !v.JBool? { return Failure(Mismatch(v).error); }
          w.Write(Bool(v.b));
        case ByteA =>
          if !v.JByte? { return Failure(Mismatch(v).error); }
          w.Write(Num((v.v % 256) as real));
        case CharA =>
          if !v.JChar? { return Failure(Mismatch(v).error); }
          w.Write(Str([v.c]));
        case DoubleA =>
          if !v.JDouble? { return Failure(Mismatch(v).error); }
          w.Write(Num(v.r));
        case FloatA =>
          if !v.JFloat? { return Failure(Mismatch(v).error); }
          w.Write(Num(v.r));
        case IntA =>
          if !v.JInt? { return Failure(Mismatch(v).error); }
          w.Write(Num(v.v as real));
        case LongA =>
          if !v.JLong? { return Failure(Mismatch(v).error); }
          w.Write(Num(v.v as real));
        case ShortA =>
          if !v.JShort? { return Failure(Mismatch(v).error); }
          w.Write(Num(v.v as real));
        case StringA =>
          if v.JString? {
            w.Write(Str(v.s));
          } else if v == JNull {
            w.Write(Null);
          } else {
            return Failure(WrongValue);
          }
        case EnumA(_, _) =>
          if !v.JEnum? { return Failure(Mismatch(v).error); }
          w.Write(Str(v.constant));
      }
      return Success(());
    }
  }
}
