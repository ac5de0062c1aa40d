/** evaluate (Engine/Logging.h:83-126): the level prefix, then the template
    with every placeholder replaced by the argument it names. */
module Evaluator {
  import opened Errors
  import opened CStrings
  import opened Arguments
  import opened Scanner

  /** LogType (Engine/Logging.h:39). */
  datatype LogType = Warning | Error | Info

  function Prefix(level: LogType): string
  {
    match level
    case Warning => "Warning: "
    case Error => "Error: "
    case Info => "Info: "
  }

  /** What evaluate appends for `s`, the rest of the template from the
      cursor: nothing at the terminator; at a literal character, that
      character and then the rest after it; at a placeholder, the rendering
      of its index (resolved against the whole pack) and then the rest after
      the placeholder. The first exception ends the evaluation. */
  function Expansion(s: seq<char>, args: seq<Value>): Result<seq<char>>
    requires |args| > 0
    decreases |s|
  {
    if Head(s) == NUL then Ok([])
    else
      match Scan(s)
      case Err(e) => Err(e)
      case Ok(Literal) => Prepend([s[0]], Expansion(s[1..], args))
      case Ok(Placeholder(k, w)) => Then(LoadArgument(args, k), Expansion(s[w..], args))
  }

  /** One step of the expansion, for each kind of token at the cursor. */
  lemma ExpansionStep(s: seq<char>, args: seq<Value>)
    requires |args| > 0 && Head(s) != NUL
    ensures Scan(s).Err? ==> Expansion(s, args) == Err(Scan(s).error)
    ensures Scan(s) == Ok(Literal) ==> Expansion(s, args) == Prepend([s[0]], Expansion(s[1..], args))
    ensures Scan(s).Ok? && Scan(s).value.Placeholder? ==>
      Expansion(s, args) == Then(LoadArgument(args, Scan(s).value.index), Expansion(s[Scan(s).value.width..], args))
  {
  }

  lemma PrefixIsCString(level: LogType)
    ensures CStr(Prefix(level)) == Prefix(level)
  {
  }

  /** The text evaluate returns for `format` (before the NUL it appends). */
  function Evaluated(level: LogType, format: seq<char>, args: seq<Value>): Result<seq<char>>
    requires |args| > 0
  {
    Prepend(Prefix(level), Expansion(format, args))
  }

  /** The switch at the start of evaluate: copy the level's prefix. */
  method CopyLevelPrefix(level: LogType, vec: seq<char>) returns (res: seq<char>)
    ensures res == vec + Prefix(level)
  {
    PrefixIsCString(level);
    match level {
      case Warning => res := CopyStrToVec("Warning: ", vec);
      case Error => res := CopyStrToVec("Error: ", vec);
      case Info => res := CopyStrToVec("Info: ", vec);
    }
  }

  /** evaluate(logType, format, args...). The pack is never empty: for an
      empty pack `sizeof...(Args) - 1` in loadArgument does not compile, and
      the logging macros always append `0`. */
  method Evaluate(level: LogType, format: seq<char>, args: seq<Value>) returns (r: Result<seq<char>>)
    requires |args| > 0
    ensures r == Evaluated(level, format, args)
    ensures r.Ok? ==> Prefix(level) <= r.value
  {
    var evaluated: seq<char> := [];
    evaluated := CopyLevelPrefix(level, evaluated);
    assert evaluated == Prefix(level);

    var rest := format;
    while Head(rest) != NUL
      invariant Prefix(level) <= evaluated
      invariant Evaluated(level, format, args) == Prepend(evaluated, Expansion(rest, args))
      decreases |rest|
    {
      var argIndex, next := GetIndex(rest, true);
      ExpansionStep(rest, args);
      if argIndex.Err? {
        return Err(argIndex.error);
      }
      if argIndex.value != INVALID_INDEX {
        var text := LoadArgument(args, argIndex.value);
        if text.Err? {
          return Err(text.error);
        }
        assert Expansion(rest, args) == Prepend(text.value, Expansion(next, args));
        PrependPrepend(evaluated, text.value, Expansion(next, args));
        evaluated := CopyStrToVec(text.value, evaluated);
        rest := next;
      } else {
        assert Expansion(rest, args) == Prepend([rest[0]], Expansion(rest[1..], args));
        PrependPrepend(evaluated, [rest[0]], Expansion(rest[1..], args));
        evaluated := evaluated + [rest[0]];
        rest := rest[1..];
      }
    }
    assert evaluated + [] == evaluated;
    return Ok(evaluated);
  }
}
