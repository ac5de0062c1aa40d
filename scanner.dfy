/** getIndex (Engine/Logging.h:137-165): recognise a `{digits}` placeholder
    at the cursor and read its decimal index. */
module Scanner {
  import opened Errors
  import opened CStrings
  import opened Decimal

  /** INVALID_INDEX: what getIndex returns when the cursor is not at `{`. */
  const INVALID_INDEX: int := -1

  /** What starts at the cursor: a literal character, or a placeholder with
      its index, `width` characters long from `{` to `}` inclusive. */
  datatype Token = Literal | Placeholder(index: nat, width: nat)

  /** The length of the run of digits `s` starts with. */
  function DigitRun(s: seq<char>): (k: nat)
    ensures k <= |s| && AllDigits(s[..k])
    ensures k < |s| ==> !IsDigit(s[k])
    decreases |s|
  {
    if s != [] && IsDigit(s[0]) then
      var k := 1 + DigitRun(s[1..]);
      assert s[..k] == [s[0]] + s[1..][..k - 1];
      k
    else 0
  }

  /** The token at the start of `s`, the rest of the template from the cursor.
      At `{` the digits are accumulated up to the first non-digit; an
      accumulated value past INT_MAX is undefined, then `}` closes the
      placeholder, the terminator means it was never closed, and anything
      else is not an integer. */
  function Scan(s: seq<char>): (r: Result<Token>)
    ensures r.Ok? && r.value.Placeholder? ==> 2 <= r.value.width <= |s| && r.value.index <= INT_MAX
  {
    if Head(s) != '{' then Ok(Literal)
    else
      var k := DigitRun(s[1..]);
      assert s[1..1 + k] == s[1..][..k];
      var n := DecimalValue(s[1..1 + k]);
      if n > INT_MAX then Err(Undefined(IndexOverflow))
      else if At(s, 1 + k) == '}' then Ok(Placeholder(n, k + 2))
      else if At(s, 1 + k) == NUL then Err(Unclosed)
      else Err(NotInteger)
  }

  /** A run of digits followed by a non-digit has exactly that length. */
  lemma {:induction false} DigitRunExact(s: seq<char>, k: nat)
    requires k <= |s| && AllDigits(s[..k]) && (k == |s| || !IsDigit(s[k]))
    ensures DigitRun(s) == k
    decreases k
  {
    if k > 0 {
      assert IsDigit(s[..k][0]);
      assert s[1..][..k - 1] == s[..k][1..];
      DigitRunExact(s[1..], k - 1);
    }
  }

  /** A run of digits is at least as long as any all-digit prefix. */
  lemma {:induction false} DigitRunAtLeast(s: seq<char>, k: nat)
    requires k <= |s| && AllDigits(s[..k])
    ensures DigitRun(s) >= k
    decreases k
  {
    if k > 0 {
      assert IsDigit(s[..k][0]);
      assert s[1..][..k - 1] == s[..k][1..];
      DigitRunAtLeast(s[1..], k - 1);
    }
  }

  /** At `{` followed by digits `format[1..n]` worth at most INT_MAX and a
      non-digit at `n`, that character decides the token. */
  lemma ScanStopsAt(format: seq<char>, n: nat)
    requires Head(format) == '{' && 1 <= n <= |format|
    requires AllDigits(format[1..n]) && DecimalValue(format[1..n]) <= INT_MAX
    requires !IsDigit(At(format, n))
    ensures Scan(format) ==
      if At(format, n) == '}' then Ok(Placeholder(DecimalValue(format[1..n]), n + 1))
      else if At(format, n) == NUL then Err(Unclosed)
      else Err(NotInteger)
  {
    assert format[1..][..n - 1] == format[1..n];
    DigitRunExact(format[1..], n - 1);
  }

  /** At `{` followed by digits `format[1..n]` worth more than INT_MAX, the
      accumulator overflows. */
  lemma ScanOverflowsAt(format: seq<char>, n: nat)
    requires Head(format) == '{' && 1 <= n <= |format|
    requires AllDigits(format[1..n]) && DecimalValue(format[1..n]) > INT_MAX
    ensures Scan(format) == Err(Undefined(IndexOverflow))
  {
    var digits := format[1..];
    assert digits[..n - 1] == format[1..n];
    DigitRunAtLeast(digits, n - 1);
    var k := DigitRun(digits);
    DecimalPrefixBelow(digits[..k], n - 1);
    assert digits[..k][..n - 1] == format[1..n];
    assert digits[..k] == format[1..1 + k];
  }

  /** getIndex(format, advance). On a character other than `{` it returns
      INVALID_INDEX and leaves the cursor where it was. At `{` it
      accumulates the digits up to `}` and, when `advance` is set, moves the
      cursor just past `}`. The source moves the cursor one character per
      digit and checks `*(format + 1)`; without `advance` it moves
      `formatIndex` instead. */
  method GetIndex(format: seq<char>, advance: bool) returns (r: Result<int>, format': seq<char>)
    ensures match Scan(format)
      case Ok(Literal) => r == Ok(INVALID_INDEX) && format' == format
      case Ok(Placeholder(k, w)) => r == Ok(k) && format' == if advance then format[w..] else format
      case Err(e) => r == Err(e)
  {
    var index := 0;
    var formatIndex := 1;
    var p := 0;

    if Head(format) != '{' {
      return Ok(INVALID_INDEX), format;
    }

    while At(format, p + formatIndex) != '}'
      invariant 1 <= p + formatIndex <= |format|
      invariant if advance then formatIndex == 1 else p == 0
      invariant AllDigits(format[1..p + formatIndex])
      invariant index == DecimalValue(format[1..p + formatIndex]) <= INT_MAX
      decreases |format| - (p + formatIndex)
    {
      var c := At(format, p + formatIndex);
      if c == NUL {
        ScanStopsAt(format, p + formatIndex);
        return Err(Unclosed), format[p..];
      }
      if c < '0' || c > '9' {
        ScanStopsAt(format, p + formatIndex);
        return Err(NotInteger), format[p..];
      }
      DecimalSnoc(format[1..p + formatIndex], c);
      assert format[1..p + formatIndex] + [c] == format[1..p + formatIndex + 1];
      if index * 10 + DigitValue(c) > INT_MAX {
        ScanOverflowsAt(format, p + formatIndex + 1);
        return Err(Undefined(IndexOverflow)), format[p..];
      }
      index := index * 10 + DigitValue(c);
      if advance {
        p := p + 1;
      } else {
        formatIndex := formatIndex + 1;
      }
    }

    ScanStopsAt(format, p + formatIndex);
    if advance {
      p := p + 2;
    }
    return Ok(index), format[p..];
  }

  /** `{d1...dk}` yields the Horner value of the digits (leading zeros and the
      empty `{}` included) and a width reaching just past `}`. */
  lemma ScanPlaceholder(ds: seq<char>, rest: seq<char>)
    requires AllDigits(ds) && DecimalValue(ds) <= INT_MAX
    ensures Scan("{" + ds + "}" + rest) == Ok(Placeholder(DecimalValue(ds), |ds| + 2))
  {
    var s := "{" + ds + "}" + rest;
    assert s[1..1 + |ds|] == ds;
    ScanStopsAt(s, 1 + |ds|);
  }

  /** Reaching the terminator before `}` means the placeholder was never closed. */
  lemma ScanUnclosed(ds: seq<char>, rest: seq<char>)
    requires AllDigits(ds) && DecimalValue(ds) <= INT_MAX && Head(rest) == NUL
    ensures Scan("{" + ds + rest) == Err(Unclosed)
  {
    var s := "{" + ds + rest;
    assert s[1..1 + |ds|] == ds;
    ScanStopsAt(s, 1 + |ds|);
  }

  /** Any other non-digit before `}` means the index is not an integer. */
  lemma ScanNotInteger(ds: seq<char>, c: char, rest: seq<char>)
    requires AllDigits(ds) && DecimalValue(ds) <= INT_MAX
    requires !IsDigit(c) && c != '}' && c != NUL
    ensures Scan("{" + ds + [c] + rest) == Err(NotInteger)
  {
    var s := "{" + ds + [c] + rest;
    assert s[1..1 + |ds|] == ds;
    ScanStopsAt(s, 1 + |ds|);
  }

  /** Digits worth more than INT_MAX overflow the accumulator, whatever follows. */
  lemma ScanOverflow(ds: seq<char>, rest: seq<char>)
    requires AllDigits(ds) && DecimalValue(ds) > INT_MAX
    ensures Scan("{" + ds + rest) == Err(Undefined(IndexOverflow))
  {
    var s := "{" + ds + rest;
    assert s[1..1 + |ds|] == ds;
    ScanOverflowsAt(s, 1 + |ds|);
  }

  /** The end-of-string check comes before the digit check: `{1` is not
      closed, `{1x` is not an integer; `{}` is index 0 and `{007}` index 7. */
  lemma ScanExamples()
    ensures Scan("{1") == Err(Unclosed)
    ensures Scan("{1x") == Err(NotInteger)
    ensures Scan("{}") == Ok(Placeholder(0, 2))
    ensures Scan("{007}") == Ok(Placeholder(7, 5))
  {
    assert DecimalValue("1") == 1;
    ScanUnclosed("1", "");
    assert "{1" == "{" + "1" + "";
    ScanNotInteger("1", 'x', "");
    assert "{1x" == "{" + "1" + ['x'] + "";
    ScanPlaceholder("", "");
    assert "{}" == "{" + "" + "}" + "";
    assert DecimalValue("007") == 7 by {
      assert "007"[..2] == "00";
      assert "00"[..1] == "0";
      assert "0"[..0] == "";
    }
    ScanPlaceholder("007", "");
    assert "{007}" == "{" + "007" + "}" + "";
  }
}
