# ballista_python UDF codecs, modelled in Dafny

This project models the part of ballista_python that lets a distributed query
plan carry Python scalar UDFs. `PyLogicalCodec` and `PyPhysicalCodec` wrap the
Ballista extension codecs. `PyLogicalCodec` forwards every hook to the
inner codec except the two scalar-UDF hooks. `PyPhysicalCodec` forwards only
its plan-node hooks and leaves its other hooks at the engine trait's
defaults. In both, scalar UDFs are handled like this:

- a UDF whose implementation is a `PythonUDF` is encoded as a `UdfProto`
  record (volatility, input types, result type, pickled callable; field
  tags 1, 2, 3 and 5) and appended to the buffer;
- non-empty bytes are decoded as such a record;
- empty bytes, and non-Python UDFs, go to the inner codec.

The project also models the `PythonUDF` wrapper (construction, accessors,
`from_code` defaults, the argument flow of `invoke_batch`) and the
`CREATE FUNCTION` factory.

Modules, one per file:

- `results.dfy` (`Results`): `Option`, `Result`, `Run` (a result, or a panic
  through `expect` that unwinds the calling thread or task), and `Collect`, the short-circuiting
  `collect::<Result<Vec<_>, _>>()`.
- `host.dfy` (`Host`): engine types. These are bytes, `DataType`,
  `Volatility`, `Signature`, the error type and columnar values. Plan objects
  the codecs only pass along are opaque types.
- `embedded.dfy` (`Embedded`): the interpreter primitives and the cloudpickle
  `dumps`/`loads` pair, received as functions.
- `udf.dfy` (`Udf`): `PythonUDF`, and `ScalarUdf = Python | Native` (the
  downcast).
- `wire.dfy` (`Wire`): the wire volatility enum and both `From` conversions,
  `UdfProto`, `try_from_udf`, and the record's Protocol Buffers encoding
  (proto3 field framing and base-128 varints).
- `codec.dfy` (`Codec`): `PyCodec` decode/encode, the routing shared by both
  codecs, the two codecs as records of hooks, and the round-trip lemmas.
- `factory.dfy` (`Factory`): `PythonFunctionFactory::create`.

Calls into other libraries are parameters: cloudpickle, the message decoder,
the `ArrowType` message encoder, the `DataType`/`ArrowType` conversions, the
inner codecs, the Python call, Arrow/PyArrow conversion and
`ColumnarValue::values_to_arrays`. Where a property needs those libraries to
behave, the lemma states the assumption as a `requires`:

- `PickleRoundTrips`: loading what was dumped succeeds;
- `TypesRoundTripOn`: a type that converts to an `ArrowType` converts back to
  itself;
- `MessagesRoundTrip`: the decoder inverts the encoding;
- `KeepsDeclaredTypes`: `from_code_with_types` builds a function with the
  declared name and types.

The UDF decoder picks its path by whether the bytes are empty. The model makes
the resulting hazard explicit. A native UDF comes back through the inner
codec only if the inner encoder wrote no bytes for it. Otherwise the bytes
are read as a `UdfProto`, and the result can never be a native function
(`NativeDualHazard`, `NativeRoundTripIffInnerWritesNothing`). Bytes the
foreign path writes are never empty, because the result type (field 3) is
always set. This is proved from the encoding, not assumed.

Notes on the code:

- `PyPhysicalCodec` overrides only the plan-node hooks and the two UDF hooks
  (src/codec.rs:179-220). Its UDAF, UDWF and other hooks are the engine
  trait's defaults, not pass-through to the inner codec.
- `from_code` panics through `expect` on a compile failure or a missing
  entry point (src/udf.rs:94); it never returns a compilation error.
- Decoding reports a return-type conversion error before an unpickling error,
  even though unpickling runs first.

## Model

| member | source | states |
|---|---|---|
| `Results.Collect` | src/codec.rs:300-303 | Conversions run in order. The result is `Ok` iff every element converts, and then holds each element's conversion in order. Otherwise the error is the one of the first failing element. |
| `Wire.DiscriminantsReadBack` | src/codec.rs:314-319 | The wire volatilities are `Volatile = 0`, `Immutable = 1`, `Stable = 2`; the three values are pairwise distinct, and the getter reads each one back as its variant. |
| `Wire.FromDiscriminant` | src/codec.rs:239 | The `volatility()` getter reads a stored integer that names no variant as `Volatile`. |
| `Wire.VolatilityConversionsInverse` | src/codec.rs:321-339 | Engine-to-wire then wire-to-engine volatility gives back the original, and so does the opposite order. The two `From` impls form a bijection. |
| `Wire.TryFromUdf` | src/codec.rs:292-311 | Fails exactly when the result type or some input type fails to convert; the result type's error wins, then the first failing input type's. On success the result type is always present, the input types keep their length and order, the blob is copied unchanged and the volatility reads back as the one given. |
| `Wire.EncodeUdfProto` | src/codec.rs:279-289 | The proto3 encoding of the record (tags 1, 2, 3, 5; default-valued fields omitted) is empty exactly for the all-default record, and a set result type alone makes it longer than that type's payload. |
| `Wire.VarintDenotes` | src/codec.rs:279-289 | The base-128 varint written for a number denotes that number. |
| `Wire.BuiltRecordNeverEncodesEmpty` | src/codec.rs:305-310 | Every record `try_from_udf` builds encodes to at least one byte, because field 3 is always set. |
| `Codec.PyDecodeUdf` | src/codec.rs:225-254 | A malformed record is an `Execution` error. Next in precedence come the result-type conversion error (the library's own lift), the first input-type error (as `Execution`) and the unpickling error (as `Execution`). An absent result type reads as the default `ArrowType`. On success the result is a `PythonUDF` with the caller's name, the decoded types, an exact signature with the decoded volatility and the unpickled callable. |
| `Codec.PyEncodeUdf` | src/codec.rs:256-272 | Pickling failure is an `Execution` error reported before any type conversion. Success requires pickling and every type conversion to succeed. The old buffer stays a prefix and an error leaves it untouched. A success appends exactly the encoding of the record `try_from_udf` built, at least one byte. |
| `Codec.TryDecodeUdf` | src/codec.rs:95-105 | Empty bytes return the inner codec's answer unchanged. Any success from non-empty bytes is a `PythonUDF` with the requested name. |
| `Codec.TryEncodeUdf` | src/codec.rs:107-117 | A non-Python implementation returns the inner codec's answer unchanged. For a `PythonUDF` the old buffer stays a prefix, and an error leaves it untouched. |
| `Codec.DecodeRoutesOnEmptiness` | src/codec.rs:197-207 | Decoding depends on the inner codec iff the bytes are empty. With non-empty bytes any two inner codecs give the same answer. |
| `Codec.EncodeDelegatesIffNative` | src/codec.rs:209-219 | Encoding delegates iff the implementation is not a `PythonUDF`; for a `PythonUDF` any two inner codecs give the same answer. |
| `Codec.ForeignRoundTrip` | src/codec.rs:225-272 | Under the library round-trip assumptions, the bytes a successful Python-branch encode appends are non-empty. They decode to a `PythonUDF` with the caller's name, the same input and return types, an exact signature with the original volatility, and the callable cloudpickle loads. |
| `Codec.NativeDualHazard` | src/codec.rs:95-117 | A native UDF's bytes are the inner encoder's bytes. If they are empty, decoding gives the inner decoder's answer. If they are not, the foreign path reads them and never yields a native function. |
| `Codec.NativeRoundTripIffInnerWritesNothing` | src/codec.rs:197-219 | If the inner codec alone round-trips a native UDF, the extension codec does too iff the inner encoder wrote zero bytes. |
| `Codec.PyLogicalCodec` | src/codec.rs:42-150 | Every hook of the logical codec except the two UDF hooks answers as the inner codec does, for all arguments. These hooks are plan node, table provider, file format, UDAF and UDWF, each for decode and encode. The UDF hooks are the shared routing over the inner codec's UDF hooks. |
| `Codec.PyPhysicalCodec` | src/codec.rs:179-220 | The physical codec's plan-node decode and encode answer as the inner codec does; its UDF hooks are the shared routing. |
| `Codec.CodecsRoundTripPythonUdf` | tests/e2e.rs:110-168 | Through each codec's own UDF hooks, a `PythonUDF` encoded into an empty buffer decodes back as a `PythonUDF` with the caller's name, the same input and return types, and an exact signature with the original volatility. A function whose signature is exact over its input types, as `PythonUDF::new` builds, gets back the very same signature, which the plan-equality checks of the end-to-end tests depend on. |
| `Udf.New` | src/udf.rs:38-52 | The signature accepts exactly the given input types in the given order, and carries the given volatility. Name, input types, callable and return type are kept. |
| `Udf.NewWithSignature` | src/udf.rs:56-72 | Name, signature, input types and callable are stored unchanged. The return type is reported for every argument list. |
| `Udf.AccessorsReportStoredFields` | src/udf.rs:106-116 | `name()` and `signature()` return what construction stored. `return_type` ignores its argument types and always returns the stored type. |
| `Udf.FromCode` | src/udf.rs:77-98 | Never returns `Err`. It panics exactly when compiling the code or finding the entry point fails. Otherwise it yields the requested name, input types `[Float64]`, return type `Float64` and an exact `Volatile` signature over the callable found. |
| `Udf.InvokeBatch` | src/udf.rs:118-143 | A failure of the host's value-to-array conversion propagates unchanged; any later failure is an `Execution` error and no column. The first array that fails to convert gives the error. Otherwise the callable receives exactly one converted argument per array, in order, and its value converted back is the result column. |
| `Factory.Create` | src/factory.rs:22-35 | A non-null `Utf8` literal body registers a scalar `PythonUDF`, or returns the constructor's error. It panics iff the return type is missing or the constructor itself panics; a missing return type gives the "return type expected" message. No body gives "function definition to be provided"; any other body, including a null `Utf8` or another literal or expression, gives "invalid function definition provided". |
| `Factory.ArgumentTypes` | src/factory.rs:26-29 | The argument types are the declared arguments' types in declaration order; an absent argument list gives none. |
| `Factory.CreatedFunctionHasDeclaredMetadata` | src/factory.rs:23-32 | A registered function carries the statement's name, the declared argument types and the declared return type. |
| `Factory.CreateIgnoresLanguage` | src/factory.rs:20-23 | The outcome does not depend on the declared language. |

## Left out

- src/pickle.rs: cloudpickle `dumps`/`loads` are a pair of functions that may fail. Resolving them from the interpreter (`CloudPickle::try_new`) is not modelled.
- `PyLogicalCodec::try_new`/`default` and `PyPhysicalCodec::try_new`/`default`: `try_new` returns the interpreter error if cloudpickle cannot be imported, and `default` panics on it. The model receives an already built codec.
- Decoding of the `UdfProto` message, encoding of the embedded `ArrowType` message, and `DataType`/`ArrowType` conversion: these belong to the message and plan-serialization libraries. They are parameters, and their round trips are assumptions (`MessagesRoundTrip`, `TypesRoundTripOn`). Whether the default `ArrowType` converts is up to that library.
- The inner Ballista codecs: records of hook functions whose answers are only compared.
- `PyPhysicalCodec` hooks other than plan node and UDF: the code does not override them, and the engine trait's defaults are not part of this repository.
- `Udf.InvokeBatch`: `ColumnarValue::values_to_arrays`, Arrow/PyArrow conversion and the Python computation are foreign calls received as functions. `number_rows` is unused by the code and by the model.
- `Udf.FromCode`: the panic message is the fixed `expect` text. The panic payload also carries the error's rendering, which is not modelled.
- `from_code_with_types` is not part of this model. It is a parameter that may return an error or panic, assumed to keep the declared name and types when it succeeds (`KeepsDeclaredTypes`).
- The interpreter lock (`Python::with_gil`), thread safety and reference release on drop: concurrency is not modelled.
- src/lib.rs (`sys.path` and SIGINT setup) and the example binaries: process environment and I/O.
- Logging, `Debug` impls and `as_any`.
- `DataType`, `ScalarValue`, `TypeSignature` and `Expr` have only the variants the model needs, plus stand-ins.
- Error texts (`to_string()`/`{:?}` of foreign errors) are a message field of each error.
