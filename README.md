# Logging format evaluator

A Dafny model of the format evaluator in `Engine/Logging.h`. The debug-build
logging macros (`WARNING_LOG`, `ERROR_LOG`, `INFO_LOG`) call `log`. `log`
switches the console color when the level changes (`setColor`), then builds
the message with `evaluate`. `evaluate` writes the level prefix (`"Warning: "`,
`"Error: "` or `"Info: "`). It then copies the template. Each `{N}`
placeholder is replaced by the rendering of argument `N`:

- `getIndex` scans a placeholder. At `{` it reads decimal digits up to `}` and
  moves the cursor past it. At any other character it returns
  `INVALID_INDEX` (-1) and leaves the cursor in place.
- `loadArgument` walks the argument pack by counting the index down. It then
  renders the chosen argument by its C++ type.

Modules, one per part of the header:

- `Errors`: the exceptions the code throws (`Unclosed`, `NotInteger`,
  `UnsupportedType`), the `Result` type, and the `Undefined` cases.
- `CStrings`: NUL-terminated strings and `copyStrToVec`. A `const char*`
  cursor is modelled as the rest of the string from the cursor on. Reading
  past the end reads NUL.
- `Decimal`: the Horner value of a digit string and the text `%d` prints.
- `Arguments`: the `Value` type of one argument, its rendering (`Render`) and
  `loadArgument` (`LoadArgument`).
- `Scanner`: `getIndex` as the method `GetIndex`, specified by the function
  `Scan`.
- `Evaluator`: `evaluate` as the method `Evaluate`, specified by the functions
  `Expansion` and `Evaluated`.
- `Templates`: a second reading of a template as a list of pieces (literal
  characters and placeholders). It does not use the scanner. The lemmas here
  show that `Evaluated` gives the pieces' outputs in template order.
- `Examples`: two worked examples.
- `Logging`: the `Logger` class. It holds `setColor`'s static level cache and
  a ghost record of the color commands run. It also models `log` and the
  macros' extra `0` argument.

Notes on how the model reads the code:

- `loadArgument` is modelled literally. The pack is the arguments followed by
  the index. Each step drops the first argument and appends the index minus
  one. Nothing checks the index against the pack's length. `LoadPastEnd`
  proves what that means: an index at or past the end of the pack renders the
  `int` equal to the pack's length. Through a macro, index `n` (the number of
  user arguments) renders the appended `0`, and any larger index renders
  `n + 1` (`MacroIndex`).
- The code supports exactly `int`, `unsigned int`, `float`, `double`, `char`,
  `char*` and `const char*`. Any other type throws "Unsupported argument type",
  and so does `unsigned char`. The code has no index-out-of-range error, no
  `None` level and no file output.
- `char` and `char*` arguments go through `sprintf` into `argumentBuffer`.
  `copyStrToVec` then copies that buffer up to its first NUL. So the `char`
  `'\0'` renders as nothing, and a string renders up to its first NUL.
- Where the C++ behaviour is undefined, the model stops with
  `Undefined(...)`. The source has no such error; it is an addition of the
  model. There are three cases:
  - a placeholder index past `INT_MAX` overflows the `int` accumulator
    (`IndexOverflow`);
  - a rendering of 256 or more characters overflows `argumentBuffer[MAX_ARG_LEN]`
    (`BufferOverflow`);
  - an `unsigned int` above `INT_MAX` is printed through `%i`
    (`UnsignedAsSigned`).
- An empty pack does not compile: `loadArgument` uses `sizeof...(Args) - 1`.
  The macros always append `0`. So `Evaluate` requires a non-empty pack.

## Model

| member | source | states |
|---|---|---|
| `CStrings.CopyStrToVec` | Engine/Logging.h:128-135 | the vector afterwards is the old vector followed by the characters of the string before its terminator |
| `Decimal.DecimalPrefixBelow` | Engine/Logging.h:152-153 | accumulating more digits never lowers the index, so the first accumulation past INT_MAX decides overflow |
| `Decimal.NatToDecimal` | Engine/Logging.h:176 | `%d` digits of a non-negative value: at least one digit, no leading zero, and their Horner value is the value (round trip) |
| `Decimal.IntToDecimal` | Engine/Logging.h:176 | `%d` text parses back to the integer, with a minus sign exactly for negatives and no leading zero in the magnitude |
| `Arguments.IntTextFits` | Engine/Logging.h:28 | any 32-bit `int` or `unsigned int` prints in at most 11 characters, so it fits the 256-byte buffer |
| `Arguments.Render` | Engine/Logging.h:175-190 | by type: an `int` renders as its `%d` text (no padding, no leading zero), which parses back to it; an `unsigned int` renders the same way exactly when it is at most INT_MAX; a `char` renders as itself (NUL as nothing); a string renders as its characters before the first NUL when fewer than 256 of them; a short `%f` text verbatim; an unsupported type, and only that, throws "Unsupported argument type"; every success fits the buffer and holds no NUL |
| `Arguments.LoadArgument` | Engine/Logging.h:170-194 | whatever the walk resolves to, a successful rendering fits the buffer and contains no NUL |
| `Arguments.LoadPositional` | Engine/Logging.h:171-193 | an index inside the pack renders exactly the argument at that position |
| `Arguments.LoadTail` | Engine/Logging.h:193 | for 0 < k < the pack's length, index k renders what index k - 1 renders on the pack without its first argument |
| `Arguments.LoadPastEnd` | Engine/Logging.h:173-193 | with no bounds check, any index at or past the pack's end renders the `int` equal to the pack's length |
| `Scanner.ScanStopsAt` | Engine/Logging.h:145-150 | after the digits, `}` closes the placeholder with their Horner value, the terminator means not closed, anything else means not an integer |
| `Scanner.ScanOverflowsAt` | Engine/Logging.h:152-153 | digits worth more than INT_MAX are undefined behaviour, whatever follows them |
| `Scanner.GetIndex` | Engine/Logging.h:137-165 | at a character other than `{`: INVALID_INDEX and the cursor unchanged; at a placeholder: its index, and the cursor just past `}` when advancing or unchanged otherwise; else the scan's exception |
| `Scanner.ScanPlaceholder` | Engine/Logging.h:139-164 | `{d1...dk}` yields the Horner value of the digits and a width of k + 2, with leading zeros allowed and `{}` giving 0 |
| `Scanner.ScanUnclosed` | Engine/Logging.h:145-148 | digits followed by the terminator throw "not closed" |
| `Scanner.ScanNotInteger` | Engine/Logging.h:149-150 | digits followed by a character that is not a digit, `}` or NUL throw "not an integer" |
| `Scanner.ScanOverflow` | Engine/Logging.h:152-153 | digits worth more than INT_MAX overflow the accumulator, whatever follows |
| `Scanner.ScanExamples` | Engine/Logging.h:145-150 | the end check precedes the digit check: `{1` is not closed, `{1x` is not an integer; `{}` is 0 and `{007}` is 7 |
| `Evaluator.CopyLevelPrefix` | Engine/Logging.h:91-102 | the vector gains exactly the level's prefix |
| `Evaluator.Evaluate` | Engine/Logging.h:83-126 | the loop's result is the evaluation `Evaluated` of the level, template and pack, and on success it starts with the level's prefix |
| `Templates.ExpansionOfTemplate` | Engine/Logging.h:104-118 | a template made of literal characters and placeholders expands to their outputs in template order, each placeholder resolved against the whole pack, followed by what comes after |
| `Templates.EvaluatedTemplate` | Engine/Logging.h:91-118 | the output is the prefix followed by the pieces' outputs in order, or the first failing placeholder's exception |
| `Templates.ScanFailureAborts` | Engine/Logging.h:106 | a malformed placeholder after well-formed text makes the whole evaluation throw, with no output |
| `Templates.ExpansionOfLiterals` | Engine/Logging.h:113-117 | a run of characters other than `{` is copied unchanged |
| `Templates.ExpansionOfHole` | Engine/Logging.h:106-112 | a placeholder is replaced by the rendering of its index and scanning resumes after `}` |
| `Templates.NoPlaceholders` | Engine/Logging.h:91-118 | a template without `{` gives exactly the prefix followed by the template, whatever the arguments |
| `Examples.IntExample` | Engine/Logging.h:175-176 | `{0}` with the `int` 15 gives `Info: 15` |
| `Examples.UnclosedExample` | Engine/Logging.h:145-148 | `{0` throws "not closed" at every level, for any pack |
| `Logging.CommandsAppend` | Engine/Logging.h:59-80 | the commands of two runs of calls are those of the first, then those of the second from the level the first left cached |
| `Logging.RunOfOneLevel` | Engine/Logging.h:61-64 | a run of calls at one level runs at most one command, and none when that level is already cached (so a first Info call runs none) |
| `Logging.CommandsAlternate` | Engine/Logging.h:63-79 | no two consecutive color commands are the same, and the first differs from the cached level's |
| `Logging.MacroIndex` | Engine/Logging.h:4-6 | through a macro, index k < n renders user argument k, index n renders `0`, and larger indices render n + 1 |
| `Logging.Logger.constructor` | Engine/Logging.h:61 | the cache starts at Info with no command run |
| `Logging.Logger.SetColor` | Engine/Logging.h:59-80 | a command runs exactly when the level differs from the cached one, and the level becomes the cached one |
| `Logging.Logger.Log` | Engine/Logging.h:41-46 | `setColor` runs first, even when the evaluation then throws, and the result is the evaluation |

## Left out

- The `std::vprintf(..., nullptr)` output of `log`, which prints the built text. It is I/O, and it reads that text again as a `printf` format.
- The `system("color ...")` calls: they become entries in the ghost `commands` record of `Logger`.
- The copy of the vector into `new char[]`, its NUL terminator and the leaked allocation: `Evaluate` returns the text as a sequence.
- The global `argumentBuffer`: `LoadArgument` returns the text that `sprintf` leaves there. The buffer's size is kept as the `BufferOverflow` check.
- `%f` formatting of `float` and `double`: a floating-point argument carries the text `%f` prints for it. Floating-point formatting is not modelled.
- The template metaprogramming: `getArgumentByIndex`, `std::forward_as_tuple`, the `std::is_same` type dispatch and the `#pragma warning` blocks. The pack becomes a `seq<Value>` whose elements are tagged with their C++ type.
- The recursion depth of `loadArgument`: one call per unit of index. A very large index can exhaust the stack of a debug build; the model has no stack.
- A C `char` is a byte; the model uses Dafny's `char`.
- The overload `log(LogType, const char*)`, which the macros never reach, and the empty release-build macros.
- `Application/main.cpp` is not part of this model. It is a timing benchmark around the macros.
- `Scanner.GetIndex`: says nothing about the cursor when it throws. The throw ends `evaluate`, so the cursor is never read again.
