/** JsonTokens: the streaming reader and writer the runtime adapters work against, the
    runtime types adapters are looked up by, and the Java values they read and write.
    The reader is a cursor over a finite token sequence; the writer appends tokens. */
module JsonTokens {
  import opened Wrappers

  const INT_MIN: int := -0x8000_0000
  const INT_MAX: int := 0x7fff_ffff
  const LONG_MIN: int := -0x8000_0000_0000_0000
  const LONG_MAX: int := 0x7fff_ffff_ffff_ffff
  const BYTE_MIN: int := -0x80
  const SHORT_MIN: int := -0x8000
  const SHORT_MAX: int := 0x7fff

  /** One JSON token. Numbers carry their exact value. */
  datatype Token =
    | BeginArray | EndArray | BeginObject | EndObject
    | Name(name: string)
    | Str(s: string)
    | Num(n: real)
    | Bool(b: bool)
    | Null

  datatype PrimKind = PBoolean | PByte | PChar | PDouble | PFloat | PInt | PLong | PShort

  datatype EnumType = EnumType(name: string, constants: seq<string>)

  /** Whether a class implements Map, Collection, or neither. */
  datatype ClassShape = Plain | MapImpl | CollectionImpl

  /** The java.lang.reflect.Type an adapter is requested for. */
  datatype RType =
    | Prim(p: PrimKind)                  // boolean.class, int.class, ...
    | Boxed(p: PrimKind)                 // Boolean.class, Integer.class, ...
    | StringT                            // String.class
    | ObjectT                            // Object.class
    | EnumT(e: EnumType)                 // an enum class
    | ClassT(name: string, shape: ClassShape)  // any other class
    | MapT(value: RType)                 // Map<String, V>; raw Map is MapT(ObjectT)
    | ListT(element: RType)              // List<E>
    | CollectionT(element: RType)        // Collection<E>; raw Collection is CollectionT(ObjectT)
    | ArrayT(component: RType)           // C[]

  /** A Java value. Maps keep insertion order, and a key may be null. A list stands for any
      Collection and a map for any Map implementation; JUser for an instance of a class that
      implements neither. */
  datatype JValue =
    | JNull
    | JBool(b: bool)
    | JByte(v: int)
    | JChar(c: char)
    | JShort(v: int)
    | JInt(v: int)
    | JLong(v: int)
    | JFloat(r: real)
    | JDouble(r: real)
    | JString(s: string)
    | JEnum(e: EnumType, constant: string)
    | JArray(component: RType, items: seq<JValue>)
    | JList(items: seq<JValue>)
    | JMap(entries: seq<Entry>)
    | JPlainObject                       // new Object()
    | JUser(className: string)           // an instance of any other class

  /** One key-value pair of a map; the key may be null. */
  datatype Entry = Entry(key: Option<string>, val: JValue)

  /** The exceptions the runtime raises. */
  datatype Error =
    | Unexpected(pos: nat)               // the reader met another kind of token, or the end
    | NumberFormat(pos: nat)             // a number that is not an integer of the asked width
    | OutOfRange(pos: nat, value: int)   // rangeCheckNextInt
    | CharLength(pos: nat)               // lengthCheckNextChar
    | EmptyString(pos: nat)              // charAt(0) of ""
    | UnknownConstant(name: string, constants: seq<string>)
    | DuplicateKey(name: string)
    | NullMapKey
    | ExpectedValue(pos: nat)            // the Object adapter met no value
    | NoAdapter(t: RType)                // "No JsonAdapter for ..."
    | NullValue                          // NullPointerException on a null value
    | WrongValue                         // ClassCastException: the value does not fit
    | External                           // code of a generated adapter, outside this model

  // ---------------------------------------------------------------------------
  // The reader's primitives over a token sequence

  function IsIntegral(n: real): bool
  {
    n.Floor as real == n
  }

  /** hasNext: a value or name follows, not the end of the enclosing array or object. */
  predicate HasNext(toks: seq<Token>, pos: nat)
  {
    pos < |toks| && toks[pos] != EndArray && toks[pos] != EndObject
  }

  /** beginArray, endArray, beginObject, endObject and nextNull: consume exactly `tok`. */
  function Consume(toks: seq<Token>, pos: nat, tok: Token): (r: Result<nat, Error>)
    ensures r.Success? <==> pos < |toks| && toks[pos] == tok
    ensures r.Success? ==> r.value == pos + 1
    ensures r.Failure? ==> r.error == Unexpected(pos)
  {
    if pos < |toks| && toks[pos] == tok then Success(pos + 1) else Failure(Unexpected(pos))
  }

  function ReadBool(toks: seq<Token>, pos: nat): (r: Result<(bool, nat), Error>)
    ensures r.Success? <==> pos < |toks| && toks[pos].Bool?
    ensures r.Success? ==> r.value == (toks[pos].b, pos + 1)
    ensures r.Failure? ==> r.error == Unexpected(pos)
  {
    if pos < |toks| && toks[pos].Bool? then Success((toks[pos].b, pos + 1)) else Failure(Unexpected(pos))
  }

  function ReadNumber(toks: seq<Token>, pos: nat): (r: Result<(real, nat), Error>)
    ensures r.Success? <==> pos < |toks| && toks[pos].Num?
    ensures r.Success? ==> r.value == (toks[pos].n, pos + 1)
    ensures r.Failure? ==> r.error == Unexpected(pos)
  {
    if pos < |toks| && toks[pos].Num? then Success((toks[pos].n, pos + 1)) else Failure(Unexpected(pos))
  }

  function ReadString(toks: seq<Token>, pos: nat): (r: Result<(string, nat), Error>)
    ensures r.Success? <==> pos < |toks| && toks[pos].Str?
    ensures r.Success? ==> r.value == (toks[pos].s, pos + 1)
    ensures r.Failure? ==> r.error == Unexpected(pos)
  {
    if pos < |toks| && toks[pos].Str? then Success((toks[pos].s, pos + 1)) else Failure(Unexpected(pos))
  }

  function ReadName(toks: seq<Token>, pos: nat): (r: Result<(string, nat), Error>)
    ensures r.Success? <==> pos < |toks| && toks[pos].Name?
    ensures r.Success? ==> r.value == (toks[pos].name, pos + 1)
    ensures r.Failure? ==> r.error == Unexpected(pos)
  {
    if pos < |toks| && toks[pos].Name? then Success((toks[pos].name, pos + 1)) else Failure(Unexpected(pos))
  }

  /** nextInt (lo, hi = the int range) and nextLong (the long range): a number token
      holding an integer that fits, else NumberFormatException. */
  function ReadInteger(toks: seq<Token>, pos: nat, lo: int, hi: int): (r: Result<(int, nat), Error>)
    ensures r.Success? <==> pos < |toks| && toks[pos].Num? && IsIntegral(toks[pos].n) &&
                            lo as real <= toks[pos].n <= hi as real
    ensures r.Success? ==> r.value.0 as real == toks[pos].n && lo <= r.value.0 <= hi && r.value.1 == pos + 1
    ensures r.Failure? && pos < |toks| && toks[pos].Num? ==> r.error == NumberFormat(pos)
    ensures r.Failure? && !(pos < |toks| && toks[pos].Num?) ==> r.error == Unexpected(pos)
  {
    if pos < |toks| && toks[pos].Num? then
      var n := toks[pos].n;
      if IsIntegral(n) && lo as real <= n <= hi as real then Success((n.Floor, pos + 1))
      else Failure(NumberFormat(pos))
    else Failure(Unexpected(pos))
  }

  /** The reader: a cursor over the tokens of one document. */
  class TokenReader {
    const tokens: seq<Token>
    var pos: nat

    ghost predicate Valid()
      reads this
    {
      pos <= |tokens|
    }

    constructor (tokens: seq<Token>)
      ensures Valid() && this.tokens == tokens && pos == 0
    {
      this.tokens := tokens;
      pos := 0;
    }

    /** peek() == NULL. */
    predicate PeekIsNull()
      reads this
    {
      pos < |tokens| && tokens[pos] == Null
    }

    predicate HasNextToken()
      reads this
    {
      HasNext(tokens, pos)
    }

    method ConsumeToken(tok: Token) returns (r: Result<(), Error>)
      requires Valid()
      modifies this`pos
      ensures Valid()
      ensures Consume(tokens, old(pos), tok).Success? ==> r.Success? && pos == Consume(tokens, old(pos), tok).value
      ensures Consume(tokens, old(pos), tok).Failure? ==> r == Failure(Consume(tokens, old(pos), tok).error) && pos == old(pos)
    {
      var c := Consume(tokens, pos, tok);
      if c.Failure? {
        return Failure(c.error);
      }
      pos := c.value;
      return Success(());
    }

    method NextBoolean() returns (r: Result<bool, Error>)
      requires Valid()
      modifies this`pos
      ensures Valid()
      ensures ReadBool(tokens, old(pos)).Success? ==>
                r == Success(ReadBool(tokens, old(pos)).value.0) && pos == ReadBool(tokens, old(pos)).value.1
      ensures ReadBool(tokens, old(pos)).Failure? ==> r == Failure(ReadBool(tokens, old(pos)).error) && pos == old(pos)
    {
      var b := ReadBool(tokens, pos);
      if b.Failure? {
        return Failure(b.error);
      }
      pos := b.value.1;
      return Success(b.value.0);
    }

    method NextNumber() returns (r: Result<real, Error>)
      requires Valid()
      modifies this`pos
      ensures Valid()
      ensures ReadNumber(tokens, old(pos)).Success? ==>
                r == Success(ReadNumber(tokens, old(pos)).value.0) && pos == ReadNumber(tokens, old(pos)).value.1
      ensures ReadNumber(tokens, old(pos)).Failure? ==> r == Failure(ReadNumber(tokens, old(pos)).error) && pos == old(pos)
    {
      var n := ReadNumber(tokens, pos);
      if n.Failure? {
        return Failure(n.error);
      }
      pos := n.value.1;
      return Success(n.value.0);
    }

    method NextString() returns (r: Result<string, Error>)
      requires Valid()
      modifies this`pos
      ensures Valid()
      ensures ReadString(tokens, old(pos)).Success? ==>
                r == Success(ReadString(tokens, old(pos)).value.0) && pos == ReadString(tokens, old(pos)).value.1
      ensures ReadString(tokens, old(pos)).Failure? ==> r == Failure(ReadString(tokens, old(pos)).error) && pos == old(pos)
    {
      var s := ReadString(tokens, pos);
      if s.Failure? {
        return Failure(s.error);
      }
      pos := s.value.1;
      return Success(s.value.0);
    }

    method NextName() returns (r: Result<string, Error>)
      requires Valid()
      modifies this`pos
      ensures Valid()
      ensures ReadName(tokens, old(pos)).Success? ==>
                r == Success(ReadName(tokens, old(pos)).value.0) && pos == ReadName(tokens, old(pos)).value.1
      ensures ReadName(tokens, old(pos)).Failure? ==> r == Failure(ReadName(tokens, old(pos)).error) && pos == old(pos)
    {
      var s := ReadName(tokens, pos);
      if s.Failure? {
        return Failure(s.error);
      }
      pos := s.value.1;
      return Success(s.value.0);
    }

    /** nextInt and nextLong. */
    method NextInteger(lo: int, hi: int) returns (r: Result<int, Error>)
      requires Valid()
      modifies this`pos
      ensures Valid()
      ensures ReadInteger(tokens, old(pos), lo, hi).Success? ==>
                r == Success(ReadInteger(tokens, old(pos), lo, hi).value.0) &&
                pos == ReadInteger(tokens, old(pos), lo, hi).value.1
      ensures ReadInteger(tokens, old(pos), lo, hi).Failure? ==>
                r == Failure(ReadInteger(tokens, old(pos), lo, hi).error) && pos == old(pos)
    {
      var n := ReadInteger(tokens, pos, lo, hi);
      if n.Failure? {
        return Failure(n.error);
      }
      pos := n.value.1;
      return Success(n.value.0);
    }
  }

  /** The writer: the tokens written so far. */
  class TokenWriter {
    var tokens: seq<Token>

    constructor ()
      ensures tokens == []
    {
      tokens := [];
    }

    method Write(tok: Token)
      modifies this
      ensures tokens == old(tokens) + [tok]
    {
      tokens := tokens + [tok];
    }
  }
}
