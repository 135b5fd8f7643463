/**
  The embedded interpreter, seen from outside. Every entry point is a foreign
  call that may raise; the model receives them as functions and never looks
  inside. Holding the interpreter lock is not modelled.
 */
module Embedded {
  import opened Results
  import opened Host

  /** A strong reference to an interpreter object. */
  type PyObject(==, !new)

  /** A module compiled from source text. */
  type PyModule(==, !new)

  /** A raised exception, with its `Display` and its `Debug` rendering. */
  datatype PyErr = PyErr(display: string, debug: string)

  /** The interpreter primitives the UDF wrapper uses. */
  datatype Interpreter = Interpreter(
    // `PyModule::from_code_bound(code, file_name, module_name)`
    fromCode: (string, string, string) -> Result<PyModule, PyErr>,
    // attribute lookup on a module
    getAttr: (PyModule, string) -> Result<PyObject, PyErr>,
    // Arrow array data to a PyArrow array
    toPyArrow: ArrayData -> Result<PyObject, PyErr>,
    // positional call of a callable
    call: (PyObject, seq<PyObject>) -> Result<PyObject, PyErr>,
    // a PyArrow array back to Arrow array data
    fromPyArrow: PyObject -> Result<ArrayData, PyErr>
  )

  /** The cloudpickle `dumps`/`loads` pair, resolved once per codec. */
  datatype CloudPickle = CloudPickle(
    pickle: PyObject -> Result<Bytes, PyErr>,
    unpickle: Bytes -> Result<PyObject, PyErr>
  )

  /** Assumed of cloudpickle: bytes it produced for `f` load back (into a new object). */
  ghost predicate PickleRoundTrips(cp: CloudPickle, f: PyObject) {
    cp.pickle(f).Ok? ==> cp.unpickle(cp.pickle(f).value).Ok?
  }
}
