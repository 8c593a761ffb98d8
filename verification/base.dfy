/** Shared vocabulary of the statistics application: optional values, results
    carrying the Python exception a call would raise, the value cells rrdtool
    returns, and the components of an RRD index. */
module Base {

  datatype Option<+T> = None | Some(value: T)

  /** The exceptions the modelled code can raise (or, for NotFound, raise on
      purpose so that a caller can turn it into a 404 document). */
  datatype Error =
    | NotFound(app: string, index: Key)  // FileNotFoundError raised by RRD.fetch
    | IndexError                         // index[-1] of an empty index
    | TypeError                          // None/str/int operand mismatch
    | ZeroDivisionError
    | KeyError(key: string)
    | AttributeError(name: string)

  /** A value or the exception a Python call would raise; usable with `:-`. */
  datatype Result<+T> = Success(value: T) | Failure(error: Error) {
    predicate IsFailure() { Failure? }

    function PropagateFailure<U>(): Result<U>
      requires Failure?
    {
      Failure(error)
    }

    function Extract(): T
      requires Success?
    {
      value
    }
  }

  /** One value of an rrdtool row: a float, or None for "no data". */
  datatype Cell = Null | Value(x: real)

  /** One component of an RRD index: the switch dpid and flow ids are strings,
      a port number is an int. */
  datatype KeyPart = KStr(s: string) | KInt(n: nat)

  type Key = seq<KeyPart>
}
