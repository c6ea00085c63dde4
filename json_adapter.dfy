/** JsonAdapter: the adapters the registry hands out, as values, and the reader checks
    the core adapters share (rangeCheckNextInt, lengthCheckNextChar, handleNull).
    The bare primitive adapters are shared singletons; every other adapter is a fresh
    object when created, told apart by its `id`. */
module JsonAdapter {
  import opened Wrappers
  import opened JsonTokens

  /** The suffix of the generated adapter class the registry tries to load. */
  const CLASS_SUFFIX := "$$JsonAdapter"

  datatype Adapter =
    | BooleanA | ByteA | CharA | DoubleA | FloatA | IntA | LongA | ShortA | StringA
    | NullSafe(id: nat, delegate: Adapter)
    | ObjectA(id: nat)
    | EnumA(id: nat, e: EnumType)
    | MapA(id: nat, value: Adapter)
    | ListA(id: nat, element: Adapter)
    | ArrayA(id: nat, elementClass: RType, element: Adapter)
    | Generated(id: nat, className: string)

  /** The shared adapter of a primitive class. */
  function Bare(p: PrimKind): Adapter
  {
    match p
    case PBoolean => BooleanA
    case PByte => ByteA
    case PChar => CharA
    case PDouble => DoubleA
    case PFloat => FloatA
    case PInt => IntA
    case PLong => LongA
    case PShort => ShortA
  }

  function Size(a: Adapter): nat
  {
    match a
    case NullSafe(_, d) => 1 + Size(d)
    case MapA(_, v) => 1 + Size(v)
    case ListA(_, e) => 1 + Size(e)
    case ArrayA(_, _, e) => 1 + Size(e)
    case _ => 1
  }

  /** How many nullSafe wrappers stand in front of the adapter, with the Object adapter
      counting two: the measure that lets the Object adapter delegate to the adapter of a
      value's runtime type. */
  function Rank(a: Adapter): nat
  {
    match a
    case NullSafe(_, d) => 1 + Rank(d)
    case ObjectA(_) => 2
    case _ => 0
  }

  /** The adapter with every object identity forgotten. */
  function Erase(a: Adapter): Adapter
  {
    match a
    case NullSafe(_, d) => NullSafe(0, Erase(d))
    case ObjectA(_) => ObjectA(0)
    case EnumA(_, e) => EnumA(0, e)
    case MapA(_, v) => MapA(0, Erase(v))
    case ListA(_, e) => ListA(0, Erase(e))
    case ArrayA(_, c, e) => ArrayA(0, c, Erase(e))
    case Generated(_, n) => Generated(0, n)
    case _ => a
  }

  /** Erasing keeps the shape, the size and the rank, and erasing twice is erasing once. */
  lemma {:induction false} EraseKeepsShape(a: Adapter)
    ensures Size(Erase(a)) == Size(a) && Rank(Erase(a)) == Rank(a)
    ensures Erase(Erase(a)) == Erase(a)
  {
    match a
    case NullSafe(_, d) => EraseKeepsShape(d);
    case MapA(_, v) => EraseKeepsShape(v);
    case ListA(_, e) => EraseKeepsShape(e);
    case ArrayA(_, _, e) => EraseKeepsShape(e);
    case _ =>
  }

  // ---------------------------------------------------------------------------
  // rangeCheckNextInt

  /** nextInt followed by the bounds check. */
  function RangeChecked(toks: seq<Token>, pos: nat, min: int, max: int): (r: Result<(int, nat), Error>)
    ensures var n := ReadInteger(toks, pos, INT_MIN, INT_MAX);
            && (r.Success? <==> n.Success? && min <= n.value.0 <= max)
            && (r.Success? ==> r.value == n.value)
            && (n.Success? && !(min <= n.value.0 <= max) ==> r.error == OutOfRange(pos, n.value.0))
            && (n.Failure? ==> r.error == n.error)
  {
    var n := ReadInteger(toks, pos, INT_MIN, INT_MAX);
    if n.Failure? then Failure(n.error)
    else if n.value.0 < min || n.value.0 > max then Failure(OutOfRange(pos, n.value.0))
    else n
  }

  /** rangeCheckNextInt: the number is consumed even when it is out of range. */
  method RangeCheckNextInt(r: TokenReader, min: int, max: int) returns (res: Result<int, Error>)
    requires r.Valid()
    modifies r
    ensures r.Valid()
    ensures RangeChecked(r.tokens, old(r.pos), min, max).Success? ==>
              res == Success(RangeChecked(r.tokens, old(r.pos), min, max).value.0) &&
              r.pos == RangeChecked(r.tokens, old(r.pos), min, max).value.1
    ensures RangeChecked(r.tokens, old(r.pos), min, max).Failure? ==>
              res == Failure(RangeChecked(r.tokens, old(r.pos), min, max).error)
    ensures res.Failure? ==> r.pos == if res.error.OutOfRange? then old(r.pos) + 1 else old(r.pos)
  {
    var start := r.pos;
    var value := r.NextInteger(INT_MIN, INT_MAX);
    if value.Failure? {
      return Failure(value.error);
    }
    if value.value < min || value.value > max {
      return Failure(OutOfRange(start, value.value));
    }
    return Success(value.value);
  }

  // ---------------------------------------------------------------------------
  // lengthCheckNextChar

  /** lengthCheckNextChar as written: only a string longer than one character is
      rejected; the empty string reaches charAt(0), which throws an index exception. */
  function LengthCheckedAsWritten(toks: seq<Token>, pos: nat): (r: Result<(char, nat), Error>)
    ensures r.Success? <==> pos < |toks| && toks[pos].Str? && |toks[pos].s| == 1
    ensures r.Success? ==> r.value == (toks[pos].s[0], pos + 1)
    ensures pos < |toks| && toks[pos].Str? && |toks[pos].s| > 1 ==> r == Failure(CharLength(pos))
    ensures pos < |toks| && toks[pos] == Str("") ==> r == Failure(EmptyString(pos))
    ensures !(pos < |toks| && toks[pos].Str?) ==> r == Failure(Unexpected(pos))
  {
    var s := ReadString(toks, pos);
    if s.Failure? then Failure(s.error)
    else if |s.value.0| > 1 then Failure(CharLength(pos))
    else if |s.value.0| == 0 then Failure(EmptyString(pos))
    else Success((s.value.0[0], s.value.1))
  }

  /** lengthCheckNextChar with the length check covering the empty string too. */
  function LengthChecked(toks: seq<Token>, pos: nat): (r: Result<(char, nat), Error>)
    ensures r.Success? <==> pos < |toks| && toks[pos].Str? && |toks[pos].s| == 1
    ensures r.Success? ==> r.value == (toks[pos].s[0], pos + 1)
    ensures pos < |toks| && toks[pos].Str? && |toks[pos].s| != 1 ==> r == Failure(CharLength(pos))
    ensures !(pos < |toks| && toks[pos].Str?) ==> r == Failure(Unexpected(pos))
  {
    var s := ReadString(toks, pos);
    if s.Failure? then Failure(s.error)
    else if |s.value.0| != 1 then Failure(CharLength(pos))
    else Success((s.value.0[0], s.value.1))
  }

  /** The two agree except on the empty string, where the code as written escapes the
      JsonException the check is meant to raise. */
  lemma LengthCheckEmptyString(toks: seq<Token>, pos: nat)
    ensures pos < |toks| && toks[pos] == Str("") ==>
              LengthCheckedAsWritten(toks, pos) == Failure(EmptyString(pos)) &&
              LengthChecked(toks, pos) == Failure(CharLength(pos))
    ensures !(pos < |toks| && toks[pos] == Str("")) ==>
              LengthCheckedAsWritten(toks, pos) == LengthChecked(toks, pos)
  {
  }

  /** lengthCheckNextChar: nextString consumes the string token before its length is
      looked at, so a rejected string is consumed; any other token is left in place. */
  method LengthCheckNextChar(r: TokenReader) returns (res: Result<char, Error>)
    requires r.Valid()
    modifies r
    ensures r.Valid()
    ensures LengthCheckedAsWritten(r.tokens, old(r.pos)).Success? ==>
              res == Success(LengthCheckedAsWritten(r.tokens, old(r.pos)).value.0) &&
              r.pos == LengthCheckedAsWritten(r.tokens, old(r.pos)).value.1
    ensures LengthCheckedAsWritten(r.tokens, old(r.pos)).Failure? ==>
              res == Failure(LengthCheckedAsWritten(r.tokens, old(r.pos)).error)
    ensures res.Failure? ==>
              r.pos == if old(r.pos) < |r.tokens| && r.tokens[old(r.pos)].Str? then old(r.pos) + 1 else old(r.pos)
  {
    var start := r.pos;
    var value := r.NextString();
    if value.Failure? {
      return Failure(value.error);
    }
    if |value.value| > 1 {
      return Failure(CharLength(start));
    }
    if |value.value| == 0 {
      return Failure(EmptyString(start));
    }
    return Success(value.value[0]);
  }

  // ---------------------------------------------------------------------------
  // handleNull

  /** handleNull: consume a null token if one is next. */
  method HandleNull(r: TokenReader) returns (wasNull: bool)
    requires r.Valid()
    modifies r
    ensures r.Valid()
    ensures wasNull <==> old(r.PeekIsNull())
    ensures r.pos == if wasNull then old(r.pos) + 1 else old(r.pos)
  {
    if r.PeekIsNull() {
      var _ := r.ConsumeToken(Null);
      return true;
    }
    return false;
  }
}
