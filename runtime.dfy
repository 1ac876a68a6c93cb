/** The parts of the .NET runtime that the services rely on: 32-bit integers with
    unchecked (wrapping) arithmetic, nullable values, the exception classes the
    error handler distinguishes, and the outcome of an awaited service call. */
module Runtime {

  const MinInt32: int := -0x8000_0000
  const MaxInt32: int := 0x7FFF_FFFF

  /** A C# `int`. */
  type int32 = x: int | MinInt32 <= x <= MaxInt32

  /** The value that unchecked C# arithmetic keeps of the mathematical result `x`:
      `x` reduced modulo 2^32 into the signed 32-bit range. */
  function Wrap32(x: int): (r: int32)
    ensures (r - x) % 0x1_0000_0000 == 0
    ensures MinInt32 <= x <= MaxInt32 ==> r == x
  {
    var m := (x - MinInt32) % 0x1_0000_0000;
    m + MinInt32
  }

  /** A nullable reference or `Nullable<T>`: `None` is C# `null`. */
  datatype Option<+T> = None | Some(value: T)

  /** The exception classes whose handling differs. `ArgumentNull` and
      `ArgumentOutOfRange` derive from `ArgumentException`; `ObjectDisposed`
      derives from `InvalidOperationException`; any class outside these families is
      `Other`. */
  datatype ExceptionClass =
    | UnauthorizedAccess
    | Timeout
    | Argument
    | ArgumentNull
    | ArgumentOutOfRange
    | InvalidOperation
    | ObjectDisposed
    | Other(typeName: string)

  /** `e is ArgumentException`: the class or one of its subclasses. */
  predicate IsArgumentException(c: ExceptionClass) {
    c == Argument || c == ArgumentNull || c == ArgumentOutOfRange
  }

  /** `e is InvalidOperationException`. */
  predicate IsInvalidOperationException(c: ExceptionClass) {
    c == InvalidOperation || c == ObjectDisposed
  }

  datatype Exception = Exception(kind: ExceptionClass, message: string)

  /** What an awaited call produced: a value, or the exception it threw. */
  datatype Call<+T> = Returned(value: T) | Threw(error: Exception)

  /** The exception `Enumerable.Max` throws on an empty sequence. */
  const NoElements: Exception := Exception(InvalidOperation, "Sequence contains no elements")
}
