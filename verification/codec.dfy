/**
  The extension codecs `PyLogicalCodec` and `PyPhysicalCodec` (src/codec.rs).
  Each wraps an inner codec. The logical codec forwards every hook except the
  two scalar-UDF hooks to the inner codec; the physical codec forwards only
  its plan-node hooks and leaves its other hooks at the trait's defaults.
  In both, a UDF whose implementation is a `PythonUDF` is written as a
  `UdfProto` record, and non-empty bytes are read back as one. The emptiness
  of the bytes is the only thing telling the two paths apart.

  A codec is a record of its hooks (the trait's methods); the inner codec is
  such a record received from outside.
 */
module Codec {
  import opened Results
  import opened Host
  import opened Embedded
  import opened Udf
  import opened Wire

  /** The state of an encoder's `&mut Vec<u8>` after the call, and its status. */
  datatype Encoded = Encoded(buf: Bytes, status: Result<(), Error>)

  /** The foreign libraries the interception calls: cloudpickle, type conversions, messages. */
  datatype Collaborators = Collaborators(pickle: CloudPickle, types: TypeCodec, messages: MessageCodec)

  /** One input type on the decode side; a failure becomes an `Execution` error. */
  function FromProtoArg(tc: TypeCodec): ArrowType -> Result<DataType, Error> {
    a => tc.fromProto(a).MapErr((e: FromProtoError) => Execution(e.message))
  }

  // ---------------------------------------------------------------------------
  // PyCodec: the foreign path
  // ---------------------------------------------------------------------------

  /**
    `PyCodec::try_decode_udf`. A malformed record is an `Execution` error.
    Otherwise the errors take precedence in this order: the result type's
    conversion (lifted by the library's `From`), then the first failing input
    type, then the unpickling, although unpickling is attempted before any
    conversion. An absent result type reads as the default `ArrowType`. The
    function built is always a `PythonUDF` called `name`.
   */
  function PyDecodeUdf(env: Collaborators, name: string, buf: Bytes): (r: Result<ScalarUdf, Error>)
    ensures r.Ok? ==> r.value.Python? && Name(r.value.udf) == name
    ensures env.messages.decode(buf).Err? ==> r == Err(Execution(env.messages.decode(buf).error.message))
    ensures env.messages.decode(buf).Ok? ==>
      var m := env.messages.decode(buf).value;
      var returnType := env.types.fromProto(m.resultType.UnwrapOr(DefaultArrowType));
      var inputsOk := forall i :: 0 <= i < |m.inputTypes| ==> env.types.fromProto(m.inputTypes[i]).Ok?;
      var func := env.pickle.unpickle(m.blob);
      && (returnType.Err? ==> r == Err(FromProto(returnType.error)))
      && (returnType.Ok? && !inputsOk ==> r.Err? && FirstFailure(m.inputTypes, FromProtoArg(env.types), r.error))
      && (returnType.Ok? && inputsOk && func.Err? ==> r == Err(Execution(func.error.display)))
      && (r.Ok? <==> returnType.Ok? && inputsOk && func.Ok?)
      && (r.Ok? ==>
            var u := r.value.udf;
            && u.returnType == returnType.value
            && |u.inputTypes| == |m.inputTypes|
            && (forall i :: 0 <= i < |m.inputTypes| ==> env.types.fromProto(m.inputTypes[i]) == Ok(u.inputTypes[i]))
            && SignatureOf(u) == ExactSignature(u.inputTypes, FromWire(FromDiscriminant(m.volatility)))
            && u.func == func.value)
  {
    var proto :- env.messages.decode(buf).MapErr((e: DecodeError) => Execution(e.message));
    var func := env.pickle.unpickle(proto.blob).MapErr((e: PyErr) => Execution(e.display));
    var volatility := FromWire(FromDiscriminant(proto.volatility));
    var returnType :- env.types.fromProto(proto.resultType.UnwrapOr(DefaultArrowType))
                        .MapErr((e: FromProtoError) => FromProto(e));
    var inputTypes :- Collect(proto.inputTypes, FromProtoArg(env.types));
    var f :- func;
    Ok(Python(New(name, inputTypes, returnType, volatility, f)))
  }

  /** The record `PyCodec::try_encode_udf` builds for `udf` once its callable is pickled to `blob`. */
  function RecordFor(env: Collaborators, udf: PythonUdf, volatility: Volatility, blob: Bytes): Result<UdfProto, Error> {
    TryFromUdf(env.types, volatility, udf.inputTypes, udf.returnType, blob)
  }

  /**
    `PyCodec::try_encode_udf`. The callable is pickled first, then the record
    is built; only when both succeed are its encoded bytes appended. The prior
    contents of the buffer stay a prefix, a failure leaves the buffer as it
    was, and a success always appends at least one byte.
   */
  function PyEncodeUdf(env: Collaborators, udf: PythonUdf, volatility: Volatility, buf: Bytes): (r: Encoded)
    ensures buf <= r.buf
    ensures r.status.Err? ==> r.buf == buf
    ensures r.status.Ok? ==> |r.buf| > |buf|
    ensures env.pickle.pickle(udf.func).Err? ==> r.status == Err(Execution(env.pickle.pickle(udf.func).error.display))
    ensures r.status.Ok? <==>
      && env.pickle.pickle(udf.func).Ok?
      && env.types.toProto(udf.returnType).Ok?
      && forall i :: 0 <= i < |udf.inputTypes| ==> env.types.toProto(udf.inputTypes[i]).Ok?
    ensures r.status.Ok? ==>
      var record := RecordFor(env, udf, volatility, env.pickle.pickle(udf.func).value);
      record.Ok? && r.buf[|buf|..] == Encode(env.messages, record.value)
  {
    match env.pickle.pickle(udf.func)
    case Err(e) => Encoded(buf, Err(Execution(e.display)))
    case Ok(data) =>
      match RecordFor(env, udf, volatility, data)
      case Err(e) => Encoded(buf, Err(e))
      case Ok(proto) =>
        var bytes := Encode(env.messages, proto);
        assert (buf + bytes)[|buf|..] == bytes;
        Encoded(buf + bytes, Ok(()))
  }

  // ---------------------------------------------------------------------------
  // Routing, shared by both codecs
  // ---------------------------------------------------------------------------

  /**
    `try_decode_udf` of either codec: empty bytes go to the inner codec,
    non-empty bytes are taken to be a `UdfProto` whatever produced them.
   */
  function TryDecodeUdf(
    innerDecode: (string, Bytes) -> Result<ScalarUdf, Error>, env: Collaborators, name: string, buf: Bytes
  ): (r: Result<ScalarUdf, Error>)
    ensures |buf| == 0 ==> r == innerDecode(name, buf)
    ensures |buf| > 0 && r.Ok? ==> r.value.Python? && Name(r.value.udf) == name
  {
    if |buf| != 0 then PyDecodeUdf(env, name, buf) else innerDecode(name, buf)
  }

  /**
    `try_encode_udf` of either codec: a `PythonUDF` implementation is written
    by the foreign path with the volatility of the function's signature;
    anything else goes to the inner codec.
   */
  function TryEncodeUdf(
    innerEncode: (ScalarUdf, Bytes) -> Encoded, env: Collaborators, node: ScalarUdf, buf: Bytes
  ): (r: Encoded)
    ensures node.Native? ==> r == innerEncode(node, buf)
    ensures node.Python? ==> buf <= r.buf && (r.status.Err? ==> r.buf == buf)
  {
    match node
    case Python(udf) => PyEncodeUdf(env, udf, SignatureOf(udf).volatility, buf)
    case Native(_) => innerEncode(node, buf)
  }

  /**
    Decoding depends on the inner codec exactly when the bytes are empty:
    then the inner codec's answer is returned unchanged; otherwise any two
    inner codecs give the same answer.
   */
  lemma DecodeRoutesOnEmptiness(
    innerDecode: (string, Bytes) -> Result<ScalarUdf, Error>, otherDecode: (string, Bytes) -> Result<ScalarUdf, Error>,
    env: Collaborators, name: string, buf: Bytes
  )
    ensures |buf| == 0 ==> TryDecodeUdf(innerDecode, env, name, buf) == innerDecode(name, buf)
    ensures |buf| > 0 ==> TryDecodeUdf(innerDecode, env, name, buf) == TryDecodeUdf(otherDecode, env, name, buf)
  {
  }

  /**
    Encoding delegates exactly when the implementation is not a `PythonUDF`:
    then the inner codec's answer is returned unchanged; otherwise any two
    inner codecs give the same answer.
   */
  lemma EncodeDelegatesIffNative(
    innerEncode: (ScalarUdf, Bytes) -> Encoded, otherEncode: (ScalarUdf, Bytes) -> Encoded,
    env: Collaborators, node: ScalarUdf, buf: Bytes
  )
    ensures node.Native? ==> TryEncodeUdf(innerEncode, env, node, buf) == innerEncode(node, buf)
    ensures node.Python? ==> TryEncodeUdf(innerEncode, env, node, buf) == TryEncodeUdf(otherEncode, env, node, buf)
  {
  }

  /**
    The foreign round trip. Given that cloudpickle loads what it dumped, that
    the type conversions invert each other on the function's types and that
    the message decoder inverts the encoder, the bytes a successful encode
    appends are non-empty, so they are routed back to the foreign path, and
    decoding them yields a `PythonUDF` with the caller's name, the same input
    types, return type and volatility, and the callable cloudpickle loaded.
   */
  lemma ForeignRoundTrip(
    innerDecode: (string, Bytes) -> Result<ScalarUdf, Error>, innerEncode: (ScalarUdf, Bytes) -> Encoded,
    env: Collaborators, udf: PythonUdf, buf: Bytes, name: string
  )
    requires PickleRoundTrips(env.pickle, udf.func)
    requires TypesRoundTripOn(env.types, [udf.returnType] + udf.inputTypes)
    requires MessagesRoundTrip(env.messages)
    requires TryEncodeUdf(innerEncode, env, Python(udf), buf).status.Ok?
    ensures var written := TryEncodeUdf(innerEncode, env, Python(udf), buf).buf;
      var bytes := written[|buf|..];
      var r := TryDecodeUdf(innerDecode, env, name, bytes);
      && |bytes| > 0
      && r.Ok? && r.value.Python?
      && Name(r.value.udf) == name
      && r.value.udf.inputTypes == udf.inputTypes
      && r.value.udf.returnType == udf.returnType
      && SignatureOf(r.value.udf) == ExactSignature(udf.inputTypes, SignatureOf(udf).volatility)
      && r.value.udf.func == env.pickle.unpickle(env.pickle.pickle(udf.func).value).value
  {
    var volatility := SignatureOf(udf).volatility;
    var written := PyEncodeUdf(env, udf, volatility, buf);
    var blob := env.pickle.pickle(udf.func).value;
    var record := RecordFor(env, udf, volatility, blob).value;
    var bytes := written.buf[|buf|..];
    assert bytes == Encode(env.messages, record);
    assert DecodesEncodingOf(env.messages, record);
    assert env.messages.decode(bytes) == Ok(record);

    assert udf.returnType in [udf.returnType] + udf.inputTypes;
    var returnType := env.types.fromProto(record.resultType.UnwrapOr(DefaultArrowType));
    assert returnType == Ok(udf.returnType);

    forall i | 0 <= i < |record.inputTypes|
      ensures env.types.fromProto(record.inputTypes[i]) == Ok(udf.inputTypes[i])
    {
      assert udf.inputTypes[i] in [udf.returnType] + udf.inputTypes;
    }
    VolatilityConversionsInverse(volatility, ToWire(volatility));

    var r := PyDecodeUdf(env, name, bytes);
    assert r.Ok?;
    assert r.value.udf.inputTypes == udf.inputTypes;
  }

  /**
    The native dual and its hazard. A non-Python function is written by the
    inner codec alone; if those bytes are empty, reading them asks the inner
    codec; if they are not, the foreign path reads them, and what it yields
    is never a native function.
   */
  lemma NativeDualHazard(
    innerDecode: (string, Bytes) -> Result<ScalarUdf, Error>, innerEncode: (ScalarUdf, Bytes) -> Encoded,
    env: Collaborators, native: NativeUdf, name: string
  )
    ensures var bytes := TryEncodeUdf(innerEncode, env, Native(native), []).buf;
      && bytes == innerEncode(Native(native), []).buf
      && (|bytes| == 0 ==> TryDecodeUdf(innerDecode, env, name, bytes) == innerDecode(name, bytes))
      && (|bytes| > 0 && TryDecodeUdf(innerDecode, env, name, bytes).Ok? ==>
            TryDecodeUdf(innerDecode, env, name, bytes).value.Python?)
  {
  }

  /**
    When the inner codec round-trips a native function by itself, the
    extension codec round-trips it too exactly when the inner codec wrote no
    bytes for it.
   */
  lemma NativeRoundTripIffInnerWritesNothing(
    innerDecode: (string, Bytes) -> Result<ScalarUdf, Error>, innerEncode: (ScalarUdf, Bytes) -> Encoded,
    env: Collaborators, native: NativeUdf, name: string
  )
    requires innerDecode(name, innerEncode(Native(native), []).buf) == Ok(Native(native))
    ensures var bytes := TryEncodeUdf(innerEncode, env, Native(native), []).buf;
      TryDecodeUdf(innerDecode, env, name, bytes) == Ok(Native(native)) <==> |bytes| == 0
  {
    NativeDualHazard(innerDecode, innerEncode, env, native, name);
  }

  // ---------------------------------------------------------------------------
  // The two codecs
  // ---------------------------------------------------------------------------

  /** The hooks of the engine's logical extension codec. */
  datatype LogicalCodec = LogicalCodec(
    tryDecode: (Bytes, seq<LogicalPlan>, SessionContext) -> Result<Extension, Error>,
    tryEncode: (Extension, Bytes) -> Encoded,
    tryDecodeTableProvider: (Bytes, TableReference, SchemaRef, SessionContext) -> Result<TableProvider, Error>,
    tryEncodeTableProvider: (TableReference, TableProvider, Bytes) -> Encoded,
    tryDecodeFileFormat: (Bytes, SessionContext) -> Result<FileFormatFactory, Error>,
    tryEncodeFileFormat: (Bytes, FileFormatFactory) -> Encoded,
    tryDecodeUdf: (string, Bytes) -> Result<ScalarUdf, Error>,
    tryEncodeUdf: (ScalarUdf, Bytes) -> Encoded,
    tryDecodeUdaf: (string, Bytes) -> Result<AggregateUdf, Error>,
    tryEncodeUdaf: (AggregateUdf, Bytes) -> Encoded,
    tryDecodeUdwf: (string, Bytes) -> Result<WindowUdf, Error>,
    tryEncodeUdwf: (WindowUdf, Bytes) -> Encoded
  )

  /**
    `PyLogicalCodec` around `inner`: every hook except the two UDF hooks
    answers exactly as the inner codec does, for every argument.
   */
  function PyLogicalCodec(inner: LogicalCodec, env: Collaborators): (c: LogicalCodec)
    ensures forall buf, inputs, ctx :: c.tryDecode(buf, inputs, ctx) == inner.tryDecode(buf, inputs, ctx)
    ensures forall node, buf :: c.tryEncode(node, buf) == inner.tryEncode(node, buf)
    ensures forall buf, tableRef, schema, ctx ::
      c.tryDecodeTableProvider(buf, tableRef, schema, ctx) == inner.tryDecodeTableProvider(buf, tableRef, schema, ctx)
    ensures forall tableRef, provider, buf ::
      c.tryEncodeTableProvider(tableRef, provider, buf) == inner.tryEncodeTableProvider(tableRef, provider, buf)
    ensures forall buf, ctx :: c.tryDecodeFileFormat(buf, ctx) == inner.tryDecodeFileFormat(buf, ctx)
    ensures forall buf, format :: c.tryEncodeFileFormat(buf, format) == inner.tryEncodeFileFormat(buf, format)
    ensures forall name, buf :: c.tryDecodeUdaf(name, buf) == inner.tryDecodeUdaf(name, buf)
    ensures forall node, buf :: c.tryEncodeUdaf(node, buf) == inner.tryEncodeUdaf(node, buf)
    ensures forall name, buf :: c.tryDecodeUdwf(name, buf) == inner.tryDecodeUdwf(name, buf)
    ensures forall node, buf :: c.tryEncodeUdwf(node, buf) == inner.tryEncodeUdwf(node, buf)
    ensures forall name, buf :: c.tryDecodeUdf(name, buf) == TryDecodeUdf(inner.tryDecodeUdf, env, name, buf)
    ensures forall node, buf :: c.tryEncodeUdf(node, buf) == TryEncodeUdf(inner.tryEncodeUdf, env, node, buf)
  {
    LogicalCodec(
      inner.tryDecode,
      inner.tryEncode,
      inner.tryDecodeTableProvider,
      inner.tryEncodeTableProvider,
      inner.tryDecodeFileFormat,
      inner.tryEncodeFileFormat,
      (name: string, buf: Bytes) => TryDecodeUdf(inner.tryDecodeUdf, env, name, buf),
      (node: ScalarUdf, buf: Bytes) => TryEncodeUdf(inner.tryEncodeUdf, env, node, buf),
      inner.tryDecodeUdaf,
      inner.tryEncodeUdaf,
      inner.tryDecodeUdwf,
      inner.tryEncodeUdwf
    )
  }

  /** The hooks of the engine's physical extension codec that `PyPhysicalCodec` implements. */
  datatype PhysicalCodec = PhysicalCodec(
    tryDecode: (Bytes, seq<ExecutionPlan>, FunctionRegistry) -> Result<ExecutionPlan, Error>,
    tryEncode: (ExecutionPlan, Bytes) -> Encoded,
    tryDecodeUdf: (string, Bytes) -> Result<ScalarUdf, Error>,
    tryEncodeUdf: (ScalarUdf, Bytes) -> Encoded
  )

  /** `PyPhysicalCodec` around `inner`: plan nodes pass through, UDFs are intercepted. */
  function PyPhysicalCodec(inner: PhysicalCodec, env: Collaborators): (c: PhysicalCodec)
    ensures forall buf, inputs, registry :: c.tryDecode(buf, inputs, registry) == inner.tryDecode(buf, inputs, registry)
    ensures forall node, buf :: c.tryEncode(node, buf) == inner.tryEncode(node, buf)
    ensures forall name, buf :: c.tryDecodeUdf(name, buf) == TryDecodeUdf(inner.tryDecodeUdf, env, name, buf)
    ensures forall node, buf :: c.tryEncodeUdf(node, buf) == TryEncodeUdf(inner.tryEncodeUdf, env, node, buf)
  {
    PhysicalCodec(
      inner.tryDecode,
      inner.tryEncode,
      (name: string, buf: Bytes) => TryDecodeUdf(inner.tryDecodeUdf, env, name, buf),
      (node: ScalarUdf, buf: Bytes) => TryEncodeUdf(inner.tryEncodeUdf, env, node, buf)
    )
  }

  /** What decoding must give back for a plan holding `udf` under `name` to compare equal after the trip. */
  predicate DecodedAs(r: Result<ScalarUdf, Error>, udf: PythonUdf, name: string) {
    && r.Ok? && r.value.Python?
    && Name(r.value.udf) == name
    && r.value.udf.inputTypes == udf.inputTypes
    && r.value.udf.returnType == udf.returnType
    && SignatureOf(r.value.udf) == ExactSignature(udf.inputTypes, SignatureOf(udf).volatility)
  }

  /**
    Both codecs round-trip a `PythonUDF` through their own UDF hooks: the
    decoded function has the caller's name, the same types, and an exact
    signature with the original volatility; a function built by `New` (whose
    signature is exact) gets back its very signature.
   */
  lemma CodecsRoundTripPythonUdf(
    logical: LogicalCodec, physical: PhysicalCodec, env: Collaborators, udf: PythonUdf, name: string
  )
    requires PickleRoundTrips(env.pickle, udf.func)
    requires TypesRoundTripOn(env.types, [udf.returnType] + udf.inputTypes)
    requires MessagesRoundTrip(env.messages)
    requires PyEncodeUdf(env, udf, SignatureOf(udf).volatility, []).status.Ok?
    ensures var c := PyLogicalCodec(logical, env);
      var r := c.tryDecodeUdf(name, c.tryEncodeUdf(Python(udf), []).buf);
      && DecodedAs(r, udf, name)
      && (SignatureOf(udf) == ExactSignature(udf.inputTypes, SignatureOf(udf).volatility) ==>
            SignatureOf(r.value.udf) == SignatureOf(udf))
    ensures var c := PyPhysicalCodec(physical, env);
      var r := c.tryDecodeUdf(name, c.tryEncodeUdf(Python(udf), []).buf);
      && DecodedAs(r, udf, name)
      && (SignatureOf(udf) == ExactSignature(udf.inputTypes, SignatureOf(udf).volatility) ==>
            SignatureOf(r.value.udf) == SignatureOf(udf))
  {
    var written := PyEncodeUdf(env, udf, SignatureOf(udf).volatility, []);
    assert written.buf[0..] == written.buf;
    ForeignRoundTrip(logical.tryDecodeUdf, logical.tryEncodeUdf, env, udf, [], name);
    ForeignRoundTrip(physical.tryDecodeUdf, physical.tryEncodeUdf, env, udf, [], name);
  }
}
