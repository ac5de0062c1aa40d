/** A reference reading of a template, independent of the scanner: a list of
    pieces, each a literal character or a placeholder with its digits. */
module Templates {
  import opened Errors
  import opened CStrings
  import opened Decimal
  import opened Arguments
  import opened Scanner
  import opened Evaluator

  datatype Piece = Lit(c: char) | Hole(digits: seq<char>)

  predicate WellFormed(p: Piece)
  {
    match p
    case Lit(c) => c != '{' && c != NUL
    case Hole(ds) => AllDigits(ds) && DecimalValue(ds) <= INT_MAX
  }

  predicate AllWellFormed(ps: seq<Piece>)
  {
    forall i :: 0 <= i < |ps| ==> WellFormed(ps[i])
  }

  /** The template text a piece is written as. */
  function Source(p: Piece): seq<char>
  {
    match p
    case Lit(c) => [c]
    case Hole(ds) => "{" + ds + "}"
  }

  function Template(ps: seq<Piece>): seq<char>
  {
    if ps == [] then [] else Source(ps[0]) + Template(ps[1..])
  }

  /** What a piece contributes: the character itself, or the argument its
      index names, resolved against the whole pack. */
  function Output(p: Piece, args: seq<Value>): Result<seq<char>>
    requires |args| > 0 && WellFormed(p)
  {
    match p
    case Lit(c) => Ok([c])
    case Hole(ds) => LoadArgument(args, DecimalValue(ds))
  }

  /** The pieces' outputs in template order; the first failure wins. */
  function Expand(ps: seq<Piece>, args: seq<Value>): Result<seq<char>>
    requires |args| > 0 && AllWellFormed(ps)
  {
    if ps == [] then Ok([]) else Then(Output(ps[0], args), Expand(ps[1..], args))
  }

  /** Evaluating a template written as pieces yields the pieces' outputs in
      template order, followed by whatever the text after them yields. */
  lemma {:induction false} ExpansionOfTemplate(ps: seq<Piece>, rest: seq<char>, args: seq<Value>)
    requires |args| > 0 && AllWellFormed(ps)
    ensures Expansion(Template(ps) + rest, args) == Then(Expand(ps, args), Expansion(rest, args))
    decreases |ps|
  {
    if ps == [] {
      assert Template(ps) + rest == rest;
      ThenUnit(Expansion(rest, args));
    } else {
      var p := ps[0];
      var tail := Template(ps[1..]) + rest;
      var s := Template(ps) + rest;
      assert s == Source(p) + tail;
      assert AllWellFormed(ps[1..]) by {
        forall i | 0 <= i < |ps[1..]| ensures WellFormed(ps[1..][i]) {
          assert ps[1..][i] == ps[i + 1];
        }
      }
      assert WellFormed(p);
      ExpansionOfTemplate(ps[1..], rest, args);
      ExpansionStep(s, args);
      match p
      case Lit(c) =>
        assert s[1..] == tail;
        ThenAssociative(Ok([c]), Expand(ps[1..], args), Expansion(rest, args));
      case Hole(ds) =>
        assert s == "{" + ds + "}" + tail;
        ScanPlaceholder(ds, tail);
        assert s[|ds| + 2..] == tail;
        ThenAssociative(Output(p, args), Expand(ps[1..], args), Expansion(rest, args));
    }
  }

  /** The whole output: the level prefix, then the pieces' outputs in order.
      Every placeholder is resolved afresh against the whole pack, so two
      placeholders with the same index render the same text. */
  lemma EvaluatedTemplate(level: LogType, ps: seq<Piece>, args: seq<Value>)
    requires |args| > 0 && AllWellFormed(ps)
    ensures Evaluated(level, Template(ps), args) == Prepend(Prefix(level), Expand(ps, args))
  {
    ExpansionOfTemplate(ps, [], args);
    assert Template(ps) + [] == Template(ps);
    ThenUnit(Expand(ps, args));
  }

  /** Malformed text after well-formed pieces aborts the whole evaluation
      with the scanner's exception, unless an earlier argument failed first. */
  lemma ScanFailureAborts(level: LogType, ps: seq<Piece>, bad: seq<char>, args: seq<Value>)
    requires |args| > 0 && AllWellFormed(ps) && Expand(ps, args).Ok?
    requires Head(bad) != NUL && Scan(bad).Err?
    ensures Evaluated(level, Template(ps) + bad, args) == Err(Scan(bad).error)
  {
    ExpansionOfTemplate(ps, bad, args);
    ExpansionStep(bad, args);
  }

  /** Without a `{`, the output is the prefix followed by the template's text,
      whatever the arguments. */
  lemma {:induction false} ExpansionWithoutPlaceholders(s: seq<char>, args: seq<Value>)
    requires |args| > 0 && '{' !in CStr(s)
    ensures Expansion(s, args) == Ok(CStr(s))
    decreases |s|
  {
    if Head(s) != NUL {
      assert CStr(s) == [s[0]] + CStr(s[1..]);
      ExpansionStep(s, args);
      ExpansionWithoutPlaceholders(s[1..], args);
    }
  }

  lemma NoPlaceholders(level: LogType, format: seq<char>, args: seq<Value>)
    requires |args| > 0 && '{' !in CStr(format)
    ensures Evaluated(level, format, args) == Ok(Prefix(level) + CStr(format))
  {
    ExpansionWithoutPlaceholders(format, args);
  }

  /** A run of literal characters is copied through unchanged. */
  lemma {:induction false} ExpansionOfLiterals(lit: seq<char>, rest: seq<char>, args: seq<Value>)
    requires |args| > 0 && '{' !in lit && NUL !in lit
    ensures Expansion(lit + rest, args) == Prepend(lit, Expansion(rest, args))
    decreases |lit|
  {
    if lit == [] {
      assert lit + rest == rest;
      ThenUnit(Expansion(rest, args));
    } else {
      var s := lit + rest;
      ExpansionStep(s, args);
      assert s[1..] == lit[1..] + rest;
      ExpansionOfLiterals(lit[1..], rest, args);
      PrependPrepend([lit[0]], lit[1..], Expansion(rest, args));
      assert [lit[0]] + lit[1..] == lit;
    }
  }

  /** A placeholder is replaced by the rendering of its index. */
  lemma ExpansionOfHole(ds: seq<char>, rest: seq<char>, args: seq<Value>)
    requires |args| > 0 && AllDigits(ds) && DecimalValue(ds) <= INT_MAX
    ensures Expansion("{" + ds + "}" + rest, args)
         == Then(LoadArgument(args, DecimalValue(ds)), Expansion(rest, args))
  {
    var s := "{" + ds + "}" + rest;
    ScanPlaceholder(ds, rest);
    ExpansionStep(s, args);
    assert s[|ds| + 2..] == rest;
  }
}

/** Two worked examples: an `int` placeholder, and a placeholder never closed. */
module Examples {
  import opened Errors
  import opened Decimal
  import opened Arguments
  import opened Scanner
  import opened Evaluator
  import opened Templates

  /** An `int` argument prints in decimal: "{0}" with 15 gives "Info: 15". */
  lemma IntExample(format: string, args: seq<Value>)
    requires format == "{0}" && args == [Int(15), Int(0)]
    ensures Evaluated(Info, format, args) == Ok("Info: 15")
  {
    assert NatToDecimal(15) == "15";
    assert Render(Int(15)) == Ok("15");
    assert DecimalValue("0") == 0;
    ExpansionOfHole("0", "", args);
    assert format == "{" + "0" + "}" + "";
    ThenUnit(Ok("15"));
    assert "Info: " + "15" == "Info: 15";
  }

  /** "{0" is never closed: the evaluation throws and produces no text. */
  lemma UnclosedExample(level: LogType, format: string, args: seq<Value>)
    requires format == "{0" && |args| > 0
    ensures Evaluated(level, format, args) == Err(Unclosed)
  {
    assert DecimalValue("0") == 0;
    ScanUnclosed("0", "");
    assert format == "{" + "0" + "";
    ExpansionStep(format, args);
  }
}
