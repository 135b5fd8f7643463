/**
  `PythonUDF`: an interpreter callable adapted to the engine's scalar-function
  contract (src/udf.rs). Construction, the accessors, the default metadata of
  `from_code`, and the argument flow of `invoke_batch` with the interpreter
  calls received as functions.
 */
module Udf {
  import opened Results
  import opened Host
  import opened Embedded

  /** The engine's handle on a function implemented natively (not by this crate). */
  type NativeUdf(==, !new)

  datatype PythonUdf = PythonUdf(
    name: string,
    signature: Signature,
    inputTypes: seq<DataType>,
    returnType: DataType,
    func: PyObject
  )

  /**
    `ScalarUDF`, the engine's function value. Whether its implementation is a
    `PythonUDF` is what `downcast_ref::<PythonUDF>()` asks.
   */
  datatype ScalarUdf = Python(udf: PythonUdf) | Native(native: NativeUdf)

  /** `PythonUDF::new_with_signature`: every part is stored as given. */
  function NewWithSignature(
    name: string, signature: Signature, inputTypes: seq<DataType>, returnType: DataType, func: PyObject
  ): (u: PythonUdf)
    ensures Name(u) == name && SignatureOf(u) == signature
    ensures u.inputTypes == inputTypes && u.func == func
    ensures forall argTypes :: ReturnType(u, argTypes) == Ok(returnType)
  {
    PythonUdf(name, signature, inputTypes, returnType, func)
  }

  /**
    `PythonUDF::new`: the signature accepts exactly the declared input types,
    in order, and carries the given volatility.
   */
  function New(
    name: string, inputTypes: seq<DataType>, returnType: DataType, volatility: Volatility, func: PyObject
  ): (u: PythonUdf)
    ensures forall argTypes :: Accepts(SignatureOf(u), argTypes) <==> argTypes == inputTypes
    ensures SignatureOf(u).volatility == volatility
    ensures Name(u) == name && u.inputTypes == inputTypes && u.func == func
    ensures ReturnType(u, inputTypes) == Ok(returnType)
  {
    NewWithSignature(name, ExactSignature(inputTypes, volatility), inputTypes, returnType, func)
  }

  /** `ScalarUDFImpl::name`. */
  function Name(u: PythonUdf): string {
    u.name
  }

  /** `ScalarUDFImpl::signature`. */
  function SignatureOf(u: PythonUdf): Signature {
    u.signature
  }

  /** `ScalarUDFImpl::return_type`: the argument types are not consulted. */
  function ReturnType(u: PythonUdf, argTypes: seq<DataType>): Result<DataType, Error> {
    Ok(u.returnType)
  }

  /** The accessors report what construction stored, whatever the argument types asked about. */
  lemma AccessorsReportStoredFields(
    name: string, inputTypes: seq<DataType>, returnType: DataType, volatility: Volatility, func: PyObject,
    argTypes: seq<DataType>, otherArgTypes: seq<DataType>
  )
    ensures var u := New(name, inputTypes, returnType, volatility, func);
      && Name(u) == name
      && SignatureOf(u) == ExactSignature(inputTypes, volatility)
      && ReturnType(u, argTypes) == ReturnType(u, otherArgTypes) == Ok(returnType)
  {
  }

  const ModuleFileName := "main.py"
  const ModuleName := "__main__"
  const CompileExpectMessage := "function to compile "

  /** Compile `code` as a module and look up the entry point called `name`. */
  function LookupFunction(py: Interpreter, name: string, code: string): Result<PyObject, PyErr> {
    var compiled :- py.fromCode(code, ModuleFileName, ModuleName);
    py.getAttr(compiled, name)
  }

  /**
    `PythonUDF::from_code`: one `Float64` argument, a `Float64` result and
    `Volatile`, whatever the code. A compile failure or a missing entry point
    panics through `expect`; the declared `Err` is never returned.
   */
  function FromCode(py: Interpreter, name: string, code: string): (r: Run<PythonUdf, Error>)
    ensures r.Returned? ==> r.result.Ok?
    ensures r.Aborted? <==> LookupFunction(py, name, code).Err?
    ensures r.Aborted? ==> r.message == CompileExpectMessage
    ensures r.Returned? ==>
      var u := r.result.value;
      && Name(u) == name
      && u.inputTypes == [Float64]
      && u.returnType == Float64
      && SignatureOf(u) == ExactSignature([Float64], Volatile)
      && u.func == LookupFunction(py, name, code).value
  {
    match LookupFunction(py, name, code)
    case Err(_) => Aborted(CompileExpectMessage)
    case Ok(f) => Returned(Ok(New(name, [Float64], Float64, Volatile, f)))
  }

  /** Converting one argument array to PyArrow; a raised error becomes an `Execution` error. */
  function ToPyArg(py: Interpreter, a: ArrayData): Result<PyObject, Error> {
    py.toPyArrow(a).MapErr((e: PyErr) => Execution(e.debug))
  }

  function ArgConverter(py: Interpreter): ArrayData -> Result<PyObject, Error> {
    a => ToPyArg(py, a)
  }

  /** The positional arguments of the call: one converted array per input array, in order. */
  ghost function PyArgs(py: Interpreter, arrays: seq<ArrayData>): (args: seq<PyObject>)
    requires forall i :: 0 <= i < |arrays| ==> ToPyArg(py, arrays[i]).Ok?
  {
    seq(|arrays|, i requires 0 <= i < |arrays| => ToPyArg(py, arrays[i]).value)
  }

  /**
    `ScalarUDFImpl::invoke_batch`. The arguments become arrays (a host
    conversion whose error propagates as is), each array is converted in order,
    the callable is called with exactly one positional argument per array, and
    its value is converted back. Any failure after the first step is an
    `Execution` error, and a failure yields no column at all.
   */
  method InvokeBatch(
    u: PythonUdf, py: Interpreter, valuesToArrays: seq<ColumnarValue> -> Result<seq<ArrayData>, Error>,
    args: seq<ColumnarValue>, numberRows: nat
  ) returns (r: Result<ColumnarValue, Error>)
    ensures valuesToArrays(args).Err? ==> r == Err(valuesToArrays(args).error)
    ensures valuesToArrays(args).Ok? && r.Err? ==> r.error.Execution?
    ensures valuesToArrays(args).Ok? ==>
      var arrays := valuesToArrays(args).value;
      && ((exists i :: 0 <= i < |arrays| && ToPyArg(py, arrays[i]).Err?) ==>
            r.Err? && FirstFailure(arrays, ArgConverter(py), r.error))
      && ((forall i :: 0 <= i < |arrays| ==> ToPyArg(py, arrays[i]).Ok?) ==>
            var called := py.call(u.func, PyArgs(py, arrays));
            && |PyArgs(py, arrays)| == |arrays|
            && (called.Err? ==> r == Err(Execution(called.error.debug)))
            && (called.Ok? ==>
                  match py.fromPyArrow(called.value)
                  case Err(e) => r == Err(Execution(e.debug))
                  case Ok(data) => r == Ok(Array(data))))
  {
    var arrays :- valuesToArrays(args);
    var pyArgs: seq<PyObject> := [];
    var i := 0;
    while i < |arrays|
      invariant 0 <= i <= |arrays|
      invariant |pyArgs| == i
      invariant forall j :: 0 <= j < i ==> ToPyArg(py, arrays[j]) == Ok(pyArgs[j])
    {
      var converted := ToPyArg(py, arrays[i]);
      if converted.Err? {
        assert FirstFailureAt(arrays, ArgConverter(py), converted.error, i);
        return Err(converted.error);
      }
      pyArgs := pyArgs + [converted.value];
      i := i + 1;
    }
    assert pyArgs == PyArgs(py, arrays);
    var called := py.call(u.func, pyArgs);
    if called.Err? {
      return Err(Execution(called.error.debug));
    }
    var back := py.fromPyArrow(called.value);
    if back.Err? {
      return Err(Execution(back.error.debug));
    }
    return Ok(Array(back.value));
  }
}
