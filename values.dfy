/** The values FluxCache stores and their remote encoding (encode in
    pkg/fluxcache/fluxcache.go). The memory tier keeps a value as it was
    given; the remote tier keeps the bytes `Encode` makes of it. */
module Values {
  import opened Base
  import opened Decimal

  /** The dynamic type of a value handed to FluxCache.Set, closed over the
      cases of encode's type switch. Go's narrower integer types fit into
      Int and Uint; a string is kept as its bytes. `Other` is any other type,
      carrying the outcome of its structured serialization (None when that
      serialization fails). */
  datatype Value =
    | Bytes(bytes: seq<byte>)
    | Str(text: seq<byte>)
    | Int(i: int64)
    | Uint(u: uint64)
    | Bool(b: bool)
    | Other(marshalled: Option<seq<byte>>)

  /** The case a value was stored as. */
  datatype Kind = BytesKind | StrKind | IntKind | UintKind | BoolKind | OtherKind

  function KindOf(v: Value): Kind {
    match v
    case Bytes(_) => BytesKind
    case Str(_) => StrKind
    case Int(_) => IntKind
    case Uint(_) => UintKind
    case Bool(_) => BoolKind
    case Other(_) => OtherKind
  }

  /** encode: bytes and strings as they are, integers in base 10, booleans as
      "1" and "0", anything else by its serialization. The only failure is a
      serialization that fails. */
  function Encode(v: Value): (r: Result<seq<byte>>)
    ensures r.Failure? <==> v == Other(None)
    ensures r.Failure? ==> r.error == Unencodable
    ensures v.Int? ==> ParseInt(r.value) == Some(v.i as int)
    ensures v.Uint? ==> ParseInt(r.value) == Some(v.u as int)
  {
    match v
    case Bytes(b) => Success(b)
    case Str(s) => Success(s)
    case Int(i) => ParseFormat(FormatInt(i), i); Success(FormatInt(i))
    case Uint(u) => ParseFormat(FormatInt(u), u); Success(FormatInt(u))
    case Bool(b) => Success(if b then [ZERO + 1] else [ZERO])
    case Other(m) => if m.Some? then Success(m.value) else Failure(Unencodable)
  }

  /** The value of kind `k` whose encoding is `b`, if there is one: the
      reference reading of encode's output, case by case. */
  function Decode(k: Kind, b: seq<byte>): (r: Option<Value>)
    ensures r.Some? ==> KindOf(r.value) == k
  {
    match k
    case BytesKind => Some(Bytes(b))
    case StrKind => Some(Str(b))
    case IntKind =>
      (match ParseInt(b)
       case Some(i) => if InInt64(i) then Some(Int(i)) else None
       case None => None)
    case UintKind =>
      (match ParseInt(b)
       case Some(i) => if 0 <= i < 0x1_0000_0000_0000_0000 then Some(Uint(i)) else None
       case None => None)
    case BoolKind =>
      if b == [ZERO + 1] then Some(Bool(true))
      else if b == [ZERO] then Some(Bool(false))
      else None
    case OtherKind => Some(Other(Some(b)))
  }

  /** Whatever encode writes reads back as the value it was made from. */
  lemma DecodeEncode(v: Value)
    requires Encode(v).Success?
    ensures Decode(KindOf(v), Encode(v).value) == Some(v)
  {
  }

  /** Encoding is canonical: every text that reads back as a value of a kind
      is exactly what encode writes for that value. */
  lemma EncodeDecode(k: Kind, b: seq<byte>)
    requires Decode(k, b).Some?
    ensures Encode(Decode(k, b).value) == Success(b)
  {
    match k
    case IntKind =>
      var i := ParseInt(b).value;
      ParseFormat(b, i);
    case UintKind =>
      var i := ParseInt(b).value;
      ParseFormat(b, i);
    case _ =>
  }

  /** Two values of the same kind with the same encoding are the same value. */
  lemma EncodeInjective(v: Value, w: Value)
    requires KindOf(v) == KindOf(w) && Encode(v).Success? && Encode(v) == Encode(w)
    ensures v == w
  {
    DecodeEncode(v);
    DecodeEncode(w);
  }
}
