/** setColor (Engine/Logging.h:59-80), the variadic log (Engine/Logging.h:41-46)
    and the logging macros (Engine/Logging.h:4-6). */
module Logging {
  import opened Errors
  import opened Decimal
  import opened Arguments
  import opened Evaluator

  /** The console command setColor runs for each level. */
  function ColorCommand(level: LogType): string
  {
    match level
    case Warning => "color 0E"
    case Error => "color C"
    case Info => "color 7"
  }

  /** The level cached after setColor was called at each of `levels` in turn. */
  function LastLevel(cache: LogType, levels: seq<LogType>): LogType
  {
    if levels == [] then cache else levels[|levels| - 1]
  }

  /** The commands setColor runs when called at each of `levels` in turn,
      starting from the cached level `cache`: one whenever the level differs
      from the one cached, which then becomes the cached level. */
  function Commands(cache: LogType, levels: seq<LogType>): seq<string>
    decreases |levels|
  {
    if levels == [] then []
    else (if levels[0] == cache then [] else [ColorCommand(levels[0])]) + Commands(levels[0], levels[1..])
  }

  /** Two runs of calls issue the commands of the first, then those of the
      second starting from the level the first left cached. */
  lemma {:induction false} CommandsAppend(cache: LogType, a: seq<LogType>, b: seq<LogType>)
    ensures Commands(cache, a + b) == Commands(cache, a) + Commands(LastLevel(cache, a), b)
    decreases |a|
  {
    if a == [] {
      assert a + b == b;
    } else {
      var head := if a[0] == cache then [] else [ColorCommand(a[0])];
      assert (a + b)[0] == a[0];
      assert (a + b)[1..] == a[1..] + b;
      assert Commands(cache, a + b) == head + Commands(a[0], a[1..] + b);
      CommandsAppend(a[0], a[1..], b);
      assert LastLevel(a[0], a[1..]) == LastLevel(cache, a);
      assert Commands(cache, a) == head + Commands(a[0], a[1..]);
    }
  }

  /** A run of calls at one level issues at most one command: none when the
      level is already cached (so a first call at Info issues none), else one. */
  lemma {:induction false} RunOfOneLevel(cache: LogType, level: LogType, levels: seq<LogType>)
    requires forall i :: 0 <= i < |levels| ==> levels[i] == level
    ensures Commands(cache, levels) == if levels == [] || cache == level then [] else [ColorCommand(level)]
    decreases |levels|
  {
    if levels != [] {
      RunOfOneLevel(level, level, levels[1..]);
    }
  }

  /** No two consecutive commands are the same, and the first differs from
      the command of the level cached before. */
  lemma {:induction false} CommandsAlternate(cache: LogType, levels: seq<LogType>)
    ensures var cs := Commands(cache, levels);
      (cs != [] ==> cs[0] != ColorCommand(cache)) &&
      forall i :: 0 < i < |cs| ==> cs[i - 1] != cs[i]
    decreases |levels|
  {
    if levels != [] {
      CommandsAlternate(levels[0], levels[1..]);
    }
  }

  /** The logging macros end the pack with the `int` 0. */
  function MacroArgs(userArgs: seq<Value>): seq<Value>
  {
    userArgs + [Int(0)]
  }

  /** Through a macro, index k < n (n user arguments) renders argument k,
      index n renders the appended 0, and any larger index renders n + 1. */
  lemma MacroIndex(userArgs: seq<Value>, index: nat)
    requires index <= INT_MAX
    ensures LoadArgument(MacroArgs(userArgs), index) ==
      if index < |userArgs| then Render(userArgs[index])
      else if index == |userArgs| then Ok("0")
      else Render(Int((|userArgs| + 1) as i32))
  {
    var args := MacroArgs(userArgs);
    if index <= |userArgs| {
      LoadPositional(args, index);
      if index == |userArgs| {
        assert NatToDecimal(0) == "0";
      }
    } else {
      LoadPastEnd(args, index);
    }
  }

  /** The static cache of setColor, and the console commands it ran. */
  class Logger {
    var logTypeCache: LogType
    ghost var calls: seq<LogType>
    ghost var commands: seq<string>

    ghost predicate Valid()
      reads this
    {
      logTypeCache == LastLevel(Info, calls) && commands == Commands(Info, calls)
    }

    /** The cache starts at Info, before any call. */
    constructor ()
      ensures Valid() && logTypeCache == Info && calls == [] && commands == []
    {
      logTypeCache := Info;
      calls := [];
      commands := [];
    }

    /** setColor(logType): run the level's color command unless the level is
        the cached one, then cache the level. */
    method SetColor(level: LogType)
      requires Valid()
      modifies this
      ensures Valid() && calls == old(calls) + [level] && logTypeCache == level
      ensures commands == old(commands) + if level == old(logTypeCache) then [] else [ColorCommand(level)]
    {
      CommandsAppend(Info, calls, [level]);
      calls := calls + [level];
      if logTypeCache == level {
        return;
      }
      commands := commands + [ColorCommand(level)];
      logTypeCache := level;
    }

    /** log(logType, format, args...): setColor, then evaluate. The color
        command runs even when the evaluation then throws. */
    method Log(level: LogType, format: seq<char>, args: seq<Value>) returns (r: Result<seq<char>>)
      requires Valid() && |args| > 0
      modifies this
      ensures Valid() && calls == old(calls) + [level] && logTypeCache == level
      ensures commands == old(commands) + if level == old(logTypeCache) then [] else [ColorCommand(level)]
      ensures r == Evaluated(level, format, args)
    {
      SetColor(level);
      r := Evaluate(level, format, args);
    }
  }
}
