/** Outcomes of formatting: the three exceptions `Logging.h` throws, and the
    cases where the C++ has undefined behaviour, which the model stops on. */
module Errors {

  /** Inputs on which the C++ behaviour is undefined. The model reports them
      as errors; none of these is thrown by the source. */
  datatype UndefinedCase =
    | IndexOverflow     // placeholder digits overflow the 32-bit `int` accumulator
    | BufferOverflow    // a rendering does not fit the 256-byte argument buffer
    | UnsignedAsSigned  // an `unsigned int` above INT_MAX printed through `%i`

  datatype FormatError =
    | Unclosed          // "Argument brackets were not closed"
    | NotInteger        // "Argument index was not an integer"
    | UnsupportedType   // "Unsupported argument type"
    | Undefined(cause: UndefinedCase)

  datatype Result<+T> = Ok(value: T) | Err(error: FormatError)

  /** The text `p` followed by the outcome `r`; a failure stays that failure. */
  function Prepend(p: seq<char>, r: Result<seq<char>>): Result<seq<char>>
  {
    match r
    case Ok(s) => Ok(p + s)
    case Err(e) => Err(e)
  }

  /** The outcome `a` followed by the outcome `b`; the first failure wins. */
  function Then(a: Result<seq<char>>, b: Result<seq<char>>): Result<seq<char>>
  {
    match a
    case Ok(s) => Prepend(s, b)
    case Err(e) => Err(e)
  }

  lemma ThenAssociative(a: Result<seq<char>>, b: Result<seq<char>>, c: Result<seq<char>>)
    ensures Then(Then(a, b), c) == Then(a, Then(b, c))
  {
    if a.Ok? && b.Ok? && c.Ok? {
      assert (a.value + b.value) + c.value == a.value + (b.value + c.value);
    }
  }

  lemma PrependPrepend(a: seq<char>, b: seq<char>, r: Result<seq<char>>)
    ensures Prepend(a, Prepend(b, r)) == Prepend(a + b, r)
  {
    if r.Ok? {
      assert a + (b + r.value) == (a + b) + r.value;
    }
  }

  lemma ThenUnit(a: Result<seq<char>>)
    ensures Then(a, Ok([])) == a && Then(Ok([]), a) == a
  {
    if a.Ok? {
      assert a.value + [] == a.value;
      assert [] + a.value == a.value;
    }
  }
}
