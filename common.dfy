// Building blocks shared by every module: optional values (Java's nullable
// references), the exceptions the core raises, and a result wrapper.

module Common {

  /** A Java reference that may be null. */
  datatype Option<T> = None | Some(value: T)
  {
    function GetOr(default: T): (r: T)
      ensures this.Some? ==> r == value
      ensures this.None? ==> r == default
    {
      match this
      case None => default
      case Some(v) => v
    }
  }

  /** An update option: a present option replaces the field; an absent one keeps it. */
  function Fill<T>(option: Option<T>, field: T): (r: T)
    ensures option.Some? ==> r == option.value
    ensures option.None? ==> r == field
  {
    if option.Some? then option.value else field
  }

  /** The same for a nullable field: a present option replaces it with a non-null value. */
  function FillNullable<T>(option: Option<T>, field: Option<T>): (r: Option<T>)
    ensures option.Some? ==> r == option
    ensures option.None? ==> r == field
  {
    if option.Some? then option else field
  }

  /** A helper applied to a nullable value that leaves null as null (the sanitizers). */
  function MapOption<T>(o: Option<T>, f: T -> T): (r: Option<T>)
    ensures r.Some? <==> o.Some?
    ensures o.Some? ==> r.value == f(o.value)
  {
    if o.Some? then Some(f(o.value)) else None
  }

  /** The exceptions thrown by the modelled operations. */
  datatype Failure =
    | EntityDoesNotExist(message: string)
    | EntityAlreadyExists(message: string)
    | InvalidParameters(errors: seq<string>)
    | InvalidHttpRequestBody(message: string)
    | InvalidHttpParameter(message: string)
    | UnauthorizedAccess(message: string)
    | EnrollFailure(message: string)
    | AssertionFailure
    | NullPointer
    | IndexOutOfBounds
    | NumberFormat
    | TypeError

  /** String.valueOf / string concatenation: a null reference prints as "null". */
  function JStr(s: Option<string>): (r: string)
    ensures s.Some? ==> r == s.value
  {
    if s.Some? then s.value else "null"
  }

  /** Either a value or the exception that was thrown instead. */
  datatype Outcome<T> = Ok(value: T) | Fail(failure: Failure)

  /** java.time.Instant, as milliseconds since the epoch. */
  type Instant = int

  /** Integer.compare. */
  function IntCompare(a: int, b: int): (r: int)
    ensures r < 0 <==> a < b
    ensures r == 0 <==> a == b
    ensures r in {-1, 0, 1}
  {
    if a < b then -1 else if a == b then 0 else 1
  }

  /** The 32-bit two's-complement range of a Java int. */
  const INT_MIN: int := -0x8000_0000
  const INT_MAX: int := 0x7FFF_FFFF

  predicate IsInt32(n: int) { INT_MIN <= n <= INT_MAX }

  /** Java's int addition, which wraps around on overflow. */
  function Int32Add(a: int, b: int): (r: int)
    requires IsInt32(a) && IsInt32(b)
    ensures IsInt32(r)
    ensures IsInt32(a + b) ==> r == a + b
    ensures a + b > INT_MAX ==> r == a + b - 0x1_0000_0000
  {
    if a + b > INT_MAX then a + b - 0x1_0000_0000
    else if a + b < INT_MIN then a + b + 0x1_0000_0000
    else a + b
  }
}
