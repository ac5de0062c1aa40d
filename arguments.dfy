/** The argument pack and loadArgument (Engine/Logging.h:170-194): positional
    lookup by counting the index down, then rendering by the argument's type
    into the 256-byte argument buffer. */
module Arguments {
  import opened Errors
  import opened CStrings
  import opened Decimal

  newtype i32 = x: int | -0x8000_0000 <= x < 0x8000_0000
  newtype u32 = x: int | 0 <= x < 0x1_0000_0000

  /** MAX_ARG_LEN: the size of argumentBuffer, terminator included. */
  const MAX_ARG_LEN: nat := 256

  /** One argument of the pack, tagged by its C++ type. A floating-point
      argument is represented by the text `%f` prints for it. */
  datatype Value =
    | Int(i: i32)          // int, printed with %d
    | UInt(u: u32)         // unsigned int, printed with %i
    | Float(f: string)     // float, printed with %f
    | Double(d: string)    // double, printed with %f
    | Char(c: char)        // char, printed with %c
    | Str(s: string)       // char* and const char*, printed with %s
    | Unsupported          // any other type (unsigned char, long, bool, ...)

  /** A 32-bit integer prints in at most eleven characters. */
  lemma IntTextFits(i: int)
    requires -0x8000_0000 <= i < 0x1_0000_0000
    ensures |IntToDecimal(i)| <= 11
  {
    NatToDecimalLength(if i < 0 then -i else i, 10);
  }

  /** What `sprintf` writes into argumentBuffer for `v`, before the terminator. */
  function Formatted(v: Value): (r: Result<seq<char>>)
    ensures (v.Int? || v.UInt?) && r.Ok? ==> |r.value| <= 11
  {
    match v
    case Int(i) => IntTextFits(i as int); Ok(IntToDecimal(i as int))
    case Double(d) => Ok(d)
    case Float(f) => Ok(f)
    case Char(c) => Ok([c])
    case Str(s) => Ok(CStr(s))
    case UInt(u) =>
      if u as int > INT_MAX then Err(Undefined(UnsignedAsSigned))
      else IntTextFits(u as int); Ok(IntToDecimal(u as int))
    case Unsupported => Err(UnsupportedType)
  }

  /** The text one argument contributes: what copyStrToVec reads back out of
      argumentBuffer after `sprintf` wrote the argument there. */
  function Render(v: Value): (r: Result<seq<char>>)
    ensures r == Err(UnsupportedType) <==> v.Unsupported?
    ensures r.Ok? ==> |r.value| < MAX_ARG_LEN && NUL !in r.value
    ensures v.Int? ==> r.Ok? && IsIntText(r.value) && IntValue(r.value) == v.i as int
    ensures v.Int? ==> r == Ok(IntToDecimal(v.i as int))
    ensures v.UInt? ==> (r.Ok? <==> v.u as int <= INT_MAX)
    ensures v.UInt? && r.Ok? ==> IsIntText(r.value) && IntValue(r.value) == v.u as int
    ensures v.UInt? && r.Ok? ==> r.value == IntToDecimal(v.u as int)
    ensures v.Char? ==> r == Ok(if v.c == NUL then [] else [v.c])
    ensures v.Str? ==> (r.Ok? <==> |CStr(v.s)| < MAX_ARG_LEN)
    ensures v.Str? && r.Ok? ==> r.value == CStr(v.s)
    ensures v.Double? && |v.d| < MAX_ARG_LEN && NUL !in v.d ==> r == Ok(v.d)
    ensures v.Float? && |v.f| < MAX_ARG_LEN && NUL !in v.f ==> r == Ok(v.f)
  {
    match Formatted(v)
    case Err(e) => Err(e)
    case Ok(text) =>
      if |text| >= MAX_ARG_LEN then Err(Undefined(BufferOverflow)) else Ok(CStr(text))
  }

  /** loadArgument(args..., index): the pack is `args` followed by the `int`
      `index`. At index 0 the first argument is rendered; otherwise the
      first argument is dropped and the call recurs on the rest of the pack,
      the old index included, followed by `index - 1`. */
  function LoadArgument(args: seq<Value>, index: nat): (r: Result<seq<char>>)
    requires |args| > 0 && index <= INT_MAX
    ensures r.Ok? ==> |r.value| < MAX_ARG_LEN && NUL !in r.value
    decreases index
  {
    if index == 0 then Render(args[0])
    else LoadArgument(args[1..] + [Int(index as i32)], index - 1)
  }

  /** Resolution is positional: an index inside the pack renders that argument. */
  lemma {:induction false} LoadPositional(args: seq<Value>, index: nat)
    requires index < |args| && index <= INT_MAX
    ensures LoadArgument(args, index) == Render(args[index])
    decreases index
  {
    if index > 0 {
      var rest := args[1..] + [Int(index as i32)];
      assert rest[index - 1] == args[index];
      LoadPositional(rest, index - 1);
    }
  }

  /** Index k > 0 renders what index k - 1 renders on the tail of the pack. */
  lemma LoadTail(args: seq<Value>, index: nat)
    requires 0 < index < |args| && index <= INT_MAX
    ensures LoadArgument(args, index) == LoadArgument(args[1..], index - 1)
  {
    LoadPositional(args, index);
    LoadPositional(args[1..], index - 1);
  }

  /** Int(top), Int(top - 1), ...: `len` bookkeeping indices the walk appended. */
  function Countdown(top: nat, len: nat): seq<Value>
    requires len <= top <= INT_MAX
    decreases len
  {
    if len == 0 then [] else [Int(top as i32)] + Countdown(top - 1, len - 1)
  }

  lemma {:induction false} CountdownSnoc(top: nat, len: nat)
    requires len < top <= INT_MAX
    ensures Countdown(top, len + 1) == Countdown(top, len) + [Int((top - len) as i32)]
    decreases len
  {
    if len > 0 {
      CountdownSnoc(top - 1, len - 1);
    }
  }

  /** After `j` steps the walk has dropped `j` arguments and appended `j` indices. */
  lemma {:induction false} LoadSteps(args: seq<Value>, index: nat, j: nat)
    requires |args| > 0 && j <= |args| && j <= index <= INT_MAX
    ensures LoadArgument(args, index) == LoadArgument(args[j..] + Countdown(index, j), index - j)
    decreases j
  {
    if j > 0 {
      LoadSteps(args, index, j - 1);
      var pack := args[j - 1..] + Countdown(index, j - 1);
      CountdownSnoc(index, j - 1);
      assert pack[1..] + [Int((index - (j - 1)) as i32)] == args[j..] + Countdown(index, j);
    } else {
      assert args[0..] + Countdown(index, 0) == args;
    }
  }

  /** Once only bookkeeping indices are left, the walk ends on the pack's length. */
  lemma {:induction false} LoadCountdown(n: nat, m: nat)
    requires 1 <= n && m + n <= INT_MAX
    ensures LoadArgument(Countdown(m + n, n), m) == Render(Int(n as i32))
    decreases m
  {
    if m > 0 {
      var pack := Countdown(m + n, n);
      CountdownSnoc(m + n - 1, n - 1);
      assert pack[1..] + [Int(m as i32)] == Countdown(m + n - 1, n);
      LoadCountdown(n, m - 1);
    }
  }

  /** There is no bounds check: an index at or past the end of the pack
      renders the `int` equal to the pack's length. */
  lemma LoadPastEnd(args: seq<Value>, index: nat)
    requires 0 < |args| <= index <= INT_MAX
    ensures LoadArgument(args, index) == Render(Int(|args| as i32))
  {
    LoadSteps(args, index, |args|);
    assert args[|args|..] + Countdown(index, |args|) == Countdown((index - |args|) + |args|, |args|);
    LoadCountdown(|args|, index - |args|);
  }
}
