/** NUL-terminated strings. A `const char*` into a string is modelled as the
    rest of the string from that pointer on; reading past the end of the
    sequence reads the terminator. */
module CStrings {

  const NUL: char := '\0'

  /** `*p`, where `s` is what `p` points to. */
  function Head(s: seq<char>): char
  {
    if s == [] then NUL else s[0]
  }

  /** `*(p + i)`, where `s` is what `p` points to. */
  function At(s: seq<char>, i: nat): char
  {
    if i < |s| then s[i] else NUL
  }

  /** The C string `s` denotes: its characters before the first NUL. */
  function CStr(s: seq<char>): (r: seq<char>)
    ensures r <= s
    ensures NUL !in r
    ensures |r| == |s| || s[|r|] == NUL
    ensures NUL !in s ==> r == s
    decreases |s|
  {
    if Head(s) == NUL then [] else [s[0]] + CStr(s[1..])
  }

  /** copyStrToVec (Engine/Logging.h:128-135): push the characters of `str`
      up to its terminator onto the vector `vec`. */
  method CopyStrToVec(str: seq<char>, vec: seq<char>) returns (res: seq<char>)
    ensures res == vec + CStr(str)
  {
    res := vec;
    var p := str;
    while Head(p) != NUL
      invariant res + CStr(p) == vec + CStr(str)
      decreases |p|
    {
      res := res + [p[0]];
      p := p[1..];
    }
  }
}
