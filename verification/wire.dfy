/**
  The wire record `UdfProto` (src/codec.rs, module `serde`): volatility,
  input types, optional result type and the pickled callable, under field
  tags 1, 2, 3 and 5. Its encoding follows the Protocol Buffers binary format
  (proto3 rules: a scalar or bytes field holding its default value is not
  written; a set embedded message is written as key, length and payload).
  The encoding of the embedded `ArrowType` message, the decoder of the whole
  record and the `DataType`/`ArrowType` conversions belong to other libraries
  and are received as functions.
 */
module Wire {
  import opened Results
  import opened Host

  // ---------------------------------------------------------------------------
  // Volatility on the wire
  // ---------------------------------------------------------------------------

  /** `serde::Volatility`, the wire enum. */
  datatype WireVolatility = Volatile | Immutable | Stable

  type Int32 = n: int | -0x8000_0000 <= n < 0x8000_0000

  /** The enum's declared discriminants. */
  function Discriminant(w: WireVolatility): (n: Int32)
    ensures 0 <= n <= 2
  {
    match w
    case Volatile => 0
    case Immutable => 1
    case Stable => 2
  }

  /**
    The generated getter `UdfProto::volatility()`: the stored integer read as
    the enum, where a value naming no variant reads as the default `Volatile`.
   */
  function FromDiscriminant(n: int): (w: WireVolatility)
    ensures n !in {0, 1, 2} ==> w == WireVolatility.Volatile
  {
    if n == 1 then WireVolatility.Immutable
    else if n == 2 then WireVolatility.Stable
    else WireVolatility.Volatile
  }

  /** `From<&Volatility> for serde::Volatility`. */
  function ToWire(v: Volatility): WireVolatility {
    match v
    case Immutable => WireVolatility.Immutable
    case Stable => WireVolatility.Stable
    case Volatile => WireVolatility.Volatile
  }

  /** `From<&serde::Volatility> for Volatility`. */
  function FromWire(w: WireVolatility): Volatility {
    match w
    case Volatile => Volatility.Volatile
    case Immutable => Volatility.Immutable
    case Stable => Volatility.Stable
  }

  /** The two `From` conversions are mutual inverses: a bijection between the two enums. */
  lemma VolatilityConversionsInverse(v: Volatility, w: WireVolatility)
    ensures FromWire(ToWire(v)) == v
    ensures ToWire(FromWire(w)) == w
  {
  }

  /** The discriminants are distinct, and the getter reads each one back as its variant. */
  lemma DiscriminantsReadBack(a: WireVolatility, b: WireVolatility)
    ensures Discriminant(a) == Discriminant(b) <==> a == b
    ensures FromDiscriminant(Discriminant(a)) == a
    ensures Discriminant(WireVolatility.Volatile) == 0
    ensures Discriminant(WireVolatility.Immutable) == 1
    ensures Discriminant(WireVolatility.Stable) == 2
  {
  }

  // ---------------------------------------------------------------------------
  // The record
  // ---------------------------------------------------------------------------

  /** The payload of the generated `ArrowType` message's `oneof`. */
  type ArrowTypeEnum(==, !new)

  /** The generated `ArrowType` message; its default has no variant set. */
  datatype ArrowType = ArrowType(arrowTypeEnum: Option<ArrowTypeEnum>)

  const DefaultArrowType: ArrowType := ArrowType(None)

  datatype UdfProto = UdfProto(
    volatility: Int32,               // tag 1
    inputTypes: seq<ArrowType>,      // tag 2, repeated
    resultType: Option<ArrowType>,   // tag 3
    blob: Bytes                      // tag 5
  )

  /** The record whose every field holds its default value. */
  const DefaultUdfProto: UdfProto := UdfProto(0, [], None, [])

  /** The type conversions of the plan-serialization library. */
  datatype TypeCodec = TypeCodec(
    toProto: DataType -> Result<ArrowType, ToProtoError>,
    fromProto: ArrowType -> Result<DataType, FromProtoError>
  )

  /** Assumed of the library: a type it could write out reads back as itself. */
  ghost predicate TypesRoundTripOn(tc: TypeCodec, types: seq<DataType>) {
    forall t :: t in types && tc.toProto(t).Ok? ==> tc.fromProto(tc.toProto(t).value) == Ok(t)
  }

  /** One input type on the encode side; a failure is lifted by the library's own `From`. */
  function ToProtoArg(tc: TypeCodec): DataType -> Result<ArrowType, Error> {
    t => tc.toProto(t).MapErr((e: ToProtoError) => ToProto(e))
  }

  /**
    `UdfProto::try_from_udf`: the result type is converted first, then the
    input types in order; the first failure is the error. On success the
    result type is always present, the input types keep their number and
    order, the blob is copied unchanged and the volatility reads back as given.
   */
  function TryFromUdf(
    tc: TypeCodec, volatility: Volatility, inputTypes: seq<DataType>, resultType: DataType, blob: Bytes
  ): (r: Result<UdfProto, Error>)
    ensures r.Ok? <==>
      tc.toProto(resultType).Ok? && forall i :: 0 <= i < |inputTypes| ==> tc.toProto(inputTypes[i]).Ok?
    ensures r.Ok? ==>
      && r.value.resultType == Some(tc.toProto(resultType).value)
      && r.value.blob == blob
      && |r.value.inputTypes| == |inputTypes|
      && (forall i :: 0 <= i < |inputTypes| ==> Ok(r.value.inputTypes[i]) == tc.toProto(inputTypes[i]))
      && FromWire(FromDiscriminant(r.value.volatility)) == volatility
    ensures tc.toProto(resultType).Err? ==> r == Err(ToProto(tc.toProto(resultType).error))
    ensures tc.toProto(resultType).Ok? && r.Err? ==> FirstFailure(inputTypes, ToProtoArg(tc), r.error)
  {
    var wire := ToWire(volatility);
    var returnType :- tc.toProto(resultType).MapErr((e: ToProtoError) => ToProto(e));
    var inputs :- Collect(inputTypes, ToProtoArg(tc));
    Ok(UdfProto(Discriminant(wire), inputs, Some(returnType), blob))
  }

  // ---------------------------------------------------------------------------
  // Encoding (section "Encoding" of the Protocol Buffers documentation)
  // ---------------------------------------------------------------------------

  const VarintWireType: nat := 0
  const LengthDelimitedWireType: nat := 2

  /** Base-128 varint: seven bits per byte, least significant group first, high bit = more follow. */
  function Varint(n: nat): (r: Bytes)
    ensures 1 <= |r|
    ensures r[|r| - 1] < 128
    ensures forall i :: 0 <= i < |r| - 1 ==> r[i] >= 128
    decreases n
  {
    if n < 128 then [n] else [128 + n % 128] + Varint(n / 128)
  }

  /** The value a varint denotes. */
  function VarintValue(r: Bytes): nat {
    if |r| == 0 then 0 else r[0] % 128 + 128 * VarintValue(r[1..])
  }

  /** A varint denotes the number it was written for. */
  lemma {:induction false} VarintDenotes(n: nat)
    ensures VarintValue(Varint(n)) == n
    decreases n
  {
    if n >= 128 {
      VarintDenotes(n / 128);
      assert Varint(n)[1..] == Varint(n / 128);
    }
  }

  /** A field key: field number and wire type packed into one varint. */
  function Key(field: nat, wireType: nat): Bytes {
    Varint(field * 8 + wireType)
  }

  /** An `int32` value on the wire: negative values as their 64-bit two's complement. */
  function Int32Varint(n: Int32): Bytes {
    Varint(if n >= 0 then n else n + 0x1_0000_0000_0000_0000)
  }

  /** A length-delimited field: key, payload length, payload. */
  function LengthDelimited(field: nat, payload: Bytes): (r: Bytes)
    ensures |r| > |payload|
    ensures r[|r| - |payload|..] == payload
  {
    Key(field, LengthDelimitedWireType) + Varint(|payload|) + payload
  }

  /** A repeated message field: one length-delimited record per element, in order. */
  function RepeatedMessages(field: nat, items: seq<ArrowType>, encodeArrowType: ArrowType -> Bytes): (r: Bytes)
    ensures |r| == 0 <==> |items| == 0
    ensures |r| >= |items|
    decreases |items|
  {
    if |items| == 0 then []
    else LengthDelimited(field, encodeArrowType(items[0])) + RepeatedMessages(field, items[1..], encodeArrowType)
  }

  /**
    `encode_to_vec` of a `UdfProto`: fields in tag order, each omitted while it
    holds its default. The encoding is empty exactly for the all-default
    record; in particular a record with a result type never encodes to nothing.
   */
  function EncodeUdfProto(m: UdfProto, encodeArrowType: ArrowType -> Bytes): (r: Bytes)
    ensures |r| == 0 <==> m == DefaultUdfProto
    ensures m.resultType.Some? ==> |r| > |encodeArrowType(m.resultType.value)|
  {
    var volatility := if m.volatility == 0 then [] else Key(1, VarintWireType) + Int32Varint(m.volatility);
    var inputs := RepeatedMessages(2, m.inputTypes, encodeArrowType);
    var result := match m.resultType
      case None => []
      case Some(t) => LengthDelimited(3, encodeArrowType(t));
    var blob := if |m.blob| == 0 then [] else LengthDelimited(5, m.blob);
    volatility + inputs + result + blob
  }

  // ---------------------------------------------------------------------------
  // Decoding
  // ---------------------------------------------------------------------------

  datatype DecodeError = DecodeError(message: string)

  /** The message library: the embedded `ArrowType` encoder and the `UdfProto` decoder. */
  datatype MessageCodec = MessageCodec(
    encodeArrowType: ArrowType -> Bytes,
    decode: Bytes -> Result<UdfProto, DecodeError>
  )

  function Encode(mc: MessageCodec, m: UdfProto): Bytes {
    EncodeUdfProto(m, mc.encodeArrowType)
  }

  ghost predicate DecodesEncodingOf(mc: MessageCodec, m: UdfProto) {
    mc.decode(Encode(mc, m)) == Ok(m)
  }

  /** Assumed of the message library: decoding inverts encoding. */
  ghost predicate MessagesRoundTrip(mc: MessageCodec) {
    forall m :: DecodesEncodingOf(mc, m)
  }

  /** Whatever `try_from_udf` builds encodes to at least one byte. */
  lemma BuiltRecordNeverEncodesEmpty(
    tc: TypeCodec, mc: MessageCodec, volatility: Volatility, inputTypes: seq<DataType>, resultType: DataType, blob: Bytes
  )
    requires TryFromUdf(tc, volatility, inputTypes, resultType, blob).Ok?
    ensures |Encode(mc, TryFromUdf(tc, volatility, inputTypes, resultType, blob).value)| > 0
  {
  }
}
