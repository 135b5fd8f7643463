/**
  The host query engine's vocabulary as far as the UDF codecs see it: bytes,
  data types, volatility, function signatures, columnar values and the
  engine's error type. Plan objects the codecs only pass along are opaque.
 */
module Host {
  import opened Results

  type Byte = b: int | 0 <= b < 256
  type Bytes = seq<Byte>

  /** Engine data types; the variants the model needs, plus a stand-in for every other one. */
  datatype DataType = Float64 | Int64 | Utf8 | Boolean | OtherType(typeName: string)

  /** Determinism class of a function, used by the optimizer. */
  datatype Volatility = Immutable | Stable | Volatile

  /** The shape of arguments a function accepts. */
  datatype TypeSignature =
    | Exact(types: seq<DataType>)          // exactly these types, in this order
    | Variadic(allowed: seq<DataType>)     // one or more arguments, each of an allowed type
    | Any(arity: nat)                      // this many arguments of any type

  datatype Signature = Signature(typeSignature: TypeSignature, volatility: Volatility)

  /** `Signature::exact`: exactly `types`, in order, with the given volatility. */
  function ExactSignature(types: seq<DataType>, volatility: Volatility): Signature {
    Signature(Exact(types), volatility)
  }

  /** Whether a call with these argument types matches the signature without coercion. */
  predicate Accepts(signature: Signature, argTypes: seq<DataType>) {
    match signature.typeSignature
    case Exact(types) => argTypes == types
    case Variadic(allowed) => |argTypes| > 0 && forall i :: 0 <= i < |argTypes| ==> argTypes[i] in allowed
    case Any(arity) => |argTypes| == arity
  }

  /** The text of a conversion error raised by the plan-serialization library. */
  datatype FromProtoError = FromProtoError(message: string)
  datatype ToProtoError = ToProtoError(message: string)

  /**
    The engine's error type, as far as this crate produces it. `Execution`
    carries a formatted message; the two conversion errors are lifted by the
    serialization library's own `From` implementations.
   */
  datatype Error =
    | Execution(message: string)
    | FromProto(fromCause: FromProtoError)
    | ToProto(toCause: ToProtoError)

  /** Plan objects and services the codecs hand to the inner codec without looking at them. */
  type LogicalPlan(==, !new)
  type Extension(==, !new)
  type SessionContext(==, !new)
  type TableReference(==, !new)
  type SchemaRef(==, !new)
  type TableProvider(==, !new)
  type FileFormatFactory(==, !new)
  type AggregateUdf(==, !new)
  type WindowUdf(==, !new)
  type ExecutionPlan(==, !new)
  type FunctionRegistry(==, !new)

  /** An Arrow array's data, produced and consumed by foreign conversions only. */
  type ArrayData(==, !new)

  /** A single (possibly null) value; the variants the model needs. */
  datatype ScalarValue =
    | Utf8Scalar(text: Option<string>)
    | LargeUtf8Scalar(largeText: Option<string>)
    | Int64Scalar(number: Option<int>)
    | BooleanScalar(flag: Option<bool>)

  /** An argument of a function call: a whole column or one value standing for every row. */
  datatype ColumnarValue = Array(data: ArrayData) | Scalar(scalar: ScalarValue)
}
