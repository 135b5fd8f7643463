/**
  `PythonFunctionFactory::create` (src/factory.rs): classifies a
  `CREATE FUNCTION` statement by its body and builds a `PythonUDF` from a
  string-literal body. The constructor `from_code_with_types` is not part of
  this model; it is received as a function.
 */
module Factory {
  import opened Results
  import opened Host
  import opened Udf

  /** The parts of an expression the classification distinguishes. */
  datatype Expr =
    | Literal(value: ScalarValue)
    | Column(columnName: string)
    | Call(functionName: string, args: seq<Expr>)

  /** One declared argument: optional name, type, optional default. */
  datatype OperateFunctionArg = OperateFunctionArg(argName: Option<string>, dataType: DataType, defaultExpr: Option<Expr>)

  datatype CreateFunctionBody = CreateFunctionBody(
    language: Option<string>,
    behavior: Option<Volatility>,
    functionBody: Option<Expr>
  )

  datatype CreateFunction = CreateFunction(
    orReplace: bool,
    temporary: bool,
    name: string,
    args: Option<seq<OperateFunctionArg>>,
    returnType: Option<DataType>,
    params: CreateFunctionBody
  )

  /** What the factory asks the session to register. */
  datatype RegisterFunction = Scalar(udf: ScalarUdf) | Aggregate(udaf: AggregateUdf) | Window(udwf: WindowUdf)

  /**
    `PythonUDF::from_code_with_types(name, code, argument_types, return_type)`:
    it may return an error, and, like its sibling `from_code`, it may panic.
   */
  type FromCodeWithTypes = (string, string, seq<DataType>, DataType) -> Run<PythonUdf, Error>

  /** Assumed of `from_code_with_types`: a function it builds carries the declared name and types. */
  ghost predicate KeepsDeclaredTypes(fromCodeWithTypes: FromCodeWithTypes) {
    forall name, code, argTypes, returnType
      | fromCodeWithTypes(name, code, argTypes, returnType).Returned? && fromCodeWithTypes(name, code, argTypes, returnType).result.Ok? ::
      var u := fromCodeWithTypes(name, code, argTypes, returnType).result.value;
      Name(u) == name && u.inputTypes == argTypes && u.returnType == returnType
  }

  const MissingBodyMessage := "function definition to be provided"
  const InvalidBodyMessage := "invalid function definition provided"
  const MissingReturnTypeMessage := "return type expected"

  /** The body is a non-null `Utf8` string literal: the only accepted form. */
  predicate IsCodeLiteral(body: Option<Expr>) {
    body.Some? && body.value.Literal? && body.value.value.Utf8Scalar? && body.value.value.text.Some?
  }

  /** The code of a string-literal body. */
  function Code(body: Option<Expr>): string
    requires IsCodeLiteral(body)
  {
    body.value.value.text.value
  }

  /** The constructor's outcome for a statement with a code body and a declared return type. */
  function Build(fromCodeWithTypes: FromCodeWithTypes, statement: CreateFunction): Run<PythonUdf, Error>
    requires IsCodeLiteral(statement.params.functionBody) && statement.returnType.Some?
  {
    fromCodeWithTypes(statement.name, Code(statement.params.functionBody), ArgumentTypes(statement.args), statement.returnType.value)
  }

  /** The declared argument types in declaration order; no argument list means none. */
  function ArgumentTypes(args: Option<seq<OperateFunctionArg>>): (types: seq<DataType>)
    ensures args.None? ==> types == []
    ensures args.Some? ==>
      |types| == |args.value| && forall i :: 0 <= i < |args.value| ==> types[i] == args.value[i].dataType
  {
    match args
    case None => []
    case Some(declared) => DataTypes(declared)
  }

  function DataTypes(declared: seq<OperateFunctionArg>): (types: seq<DataType>)
    ensures |types| == |declared|
    ensures forall i :: 0 <= i < |declared| ==> types[i] == declared[i].dataType
    decreases |declared|
  {
    if |declared| == 0 then [] else [declared[0].dataType] + DataTypes(declared[1..])
  }

  /**
    `PythonFunctionFactory::create`. A body that is a non-null `Utf8` literal
    yields a scalar `PythonUDF` registration (or whatever error its
    construction returns). It panics through `expect` when the statement
    declares no return type, and when the constructor itself panics. No body,
    and any other body, are `Execution` errors with fixed messages.
   */
  function Create(fromCodeWithTypes: FromCodeWithTypes, statement: CreateFunction): (r: Run<RegisterFunction, Error>)
    ensures r.Aborted? <==>
      && IsCodeLiteral(statement.params.functionBody)
      && (statement.returnType.None? || Build(fromCodeWithTypes, statement).Aborted?)
    ensures IsCodeLiteral(statement.params.functionBody) && statement.returnType.None? ==>
      r == Aborted(MissingReturnTypeMessage)
    ensures statement.params.functionBody.None? ==> r == Returned(Err(Execution(MissingBodyMessage)))
    ensures statement.params.functionBody.Some? && !IsCodeLiteral(statement.params.functionBody) ==>
      r == Returned(Err(Execution(InvalidBodyMessage)))
    ensures r.Returned? && r.result.Ok? ==>
      && IsCodeLiteral(statement.params.functionBody)
      && r.result.value.Scalar?
      && r.result.value.udf.Python?
    ensures IsCodeLiteral(statement.params.functionBody) && statement.returnType.Some? ==>
      var built := Build(fromCodeWithTypes, statement);
      && (built.Aborted? ==> r == Aborted(built.message))
      && (built.Returned? && built.result.Ok? ==> r == Returned(Ok(RegisterFunction.Scalar(Python(built.result.value)))))
      && (built.Returned? && built.result.Err? ==> r == Returned(Err(built.result.error)))
  {
    var body := statement.params.functionBody;
    if IsCodeLiteral(body) then
      var code := Code(body);
      var name := statement.name;
      if statement.returnType.None? then Aborted(MissingReturnTypeMessage)
      else
        var returnType := statement.returnType.value;
        var argumentTypes := ArgumentTypes(statement.args);
        match fromCodeWithTypes(name, code, argumentTypes, returnType)
        case Aborted(message) => Aborted(message)
        case Returned(Err(e)) => Returned(Err(e))
        case Returned(Ok(udf)) => Returned(Ok(RegisterFunction.Scalar(Python(udf))))
    else if body.None? then Returned(Err(Execution(MissingBodyMessage)))
    else Returned(Err(Execution(InvalidBodyMessage)))
  }

  /**
    A registered function is called by the statement's name and carries the
    declared argument types, in order, and the declared return type.
   */
  lemma CreatedFunctionHasDeclaredMetadata(fromCodeWithTypes: FromCodeWithTypes, statement: CreateFunction)
    requires KeepsDeclaredTypes(fromCodeWithTypes)
    requires Create(fromCodeWithTypes, statement).Returned?
    requires Create(fromCodeWithTypes, statement).result.Ok?
    ensures var u := Create(fromCodeWithTypes, statement).result.value.udf.udf;
      && Name(u) == statement.name
      && statement.returnType.Some? && u.returnType == statement.returnType.value
      && u.inputTypes == ArgumentTypes(statement.args)
  {
    var built := Build(fromCodeWithTypes, statement);
    assert built.Returned? && built.result.Ok?;
  }

  /** The declared language is never consulted: changing it changes nothing. */
  lemma CreateIgnoresLanguage(fromCodeWithTypes: FromCodeWithTypes, statement: CreateFunction, language: Option<string>)
    ensures Create(fromCodeWithTypes, statement)
         == Create(fromCodeWithTypes, statement.(params := statement.params.(language := language)))
  {
  }
}
