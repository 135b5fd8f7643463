/**
  Failure-compatible datatypes shared by the whole model: the Rust `Option`
  and `Result`, an outcome that may also end in a panic (`expect` on a
  failed value), and the short-circuiting `collect` of an iterator of results
  into a result of a vector.
 */
module Results {

  datatype Option<+T> = None | Some(value: T) {

    /** `Option::unwrap_or_default` with the default given explicitly. */
    function UnwrapOr(default: T): T {
      match this
      case Some(v) => v
      case None => default
    }
  }

  datatype Result<+T, +E> = Ok(value: T) | Err(error: E) {

    predicate IsFailure() {
      Err?
    }

    function PropagateFailure<U>(): Result<U, E>
      requires Err?
    {
      Err(error)
    }

    function Extract(): T
      requires Ok?
    {
      value
    }

    /** `Result::map_err`. */
    function MapErr<F>(f: E -> F): Result<T, F> {
      match this
      case Ok(v) => Ok(v)
      case Err(e) => Err(f(e))
    }
  }

  /**
    The outcome of a call that may also panic through `expect`. A panic
    unwinds the calling thread or task; `Aborted` records its message.
   */
  datatype Run<+T, +E> = Returned(result: Result<T, E>) | Aborted(message: string)

  /**
    `xs.iter().map(f).collect::<Result<Vec<_>, _>>()`: the conversions run in
    order and the first failure stops the iteration and becomes the result.
   */
  function Collect<A, B, E>(xs: seq<A>, f: A -> Result<B, E>): (r: Result<seq<B>, E>)
    ensures r.Ok? <==> forall i :: 0 <= i < |xs| ==> f(xs[i]).Ok?
    ensures r.Ok? ==> |r.value| == |xs| && forall i :: 0 <= i < |xs| ==> f(xs[i]) == Ok(r.value[i])
    ensures r.Err? ==> FirstFailure(xs, f, r.error)
    decreases |xs|
  {
    if |xs| == 0 then Ok([])
    else
      match f(xs[0])
      case Err(e) =>
        assert FirstFailureAt(xs, f, e, 0);
        Err(e)
      case Ok(y) =>
        match Collect(xs[1..], f)
        case Err(e) =>
          FirstFailureShift(xs, f, e);
          Err(e)
        case Ok(ys) =>
          Ok([y] + ys)
  }

  /** Position `i` is the first element whose conversion fails, and it fails with `e`. */
  ghost predicate FirstFailureAt<A, B, E>(xs: seq<A>, f: A -> Result<B, E>, e: E, i: int) {
    && 0 <= i < |xs|
    && f(xs[i]) == Err(e)
    && forall j :: 0 <= j < i ==> f(xs[j]).Ok?
  }

  ghost predicate FirstFailure<A, B, E>(xs: seq<A>, f: A -> Result<B, E>, e: E) {
    exists i :: FirstFailureAt(xs, f, e, i)
  }

  /** A first failure in the tail, after a successful head, is a first failure of the whole sequence. */
  lemma FirstFailureShift<A, B, E>(xs: seq<A>, f: A -> Result<B, E>, e: E)
    requires |xs| > 0 && f(xs[0]).Ok?
    requires FirstFailure(xs[1..], f, e)
    ensures FirstFailure(xs, f, e)
  {
    var i :| FirstFailureAt(xs[1..], f, e, i);
    assert FirstFailureAt(xs, f, e, i + 1);
  }
}
