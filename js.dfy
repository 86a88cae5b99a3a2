/** The few JavaScript primitives the fee logic relies on: numbers that may be
    NaN or infinite, truthiness of optional strings, the `\s` whitespace class
    (shared by regular expressions and `String.prototype.trim`) and
    `toLowerCase`. */
module Js {
  import opened Wrappers

  /** A JavaScript number as produced by `Number(...)`; finite values are exact. */
  datatype JsNumber = NaN | PosInf | NegInf | Finite(value: real)

  /** `x >= y` where `y` is a finite threshold: every comparison with NaN is false. */
  predicate AtLeast(x: JsNumber, y: real)
    ensures x.NaN? || x.NegInf? ==> !AtLeast(x, y)
    ensures x.PosInf? ==> AtLeast(x, y)
  {
    match x
    case NaN => false
    case PosInf => true
    case NegInf => false
    case Finite(v) => v >= y
  }

  /** `x <= y` between two JavaScript numbers (false as soon as one is NaN). */
  predicate LessEq(x: JsNumber, y: JsNumber)
  {
    match (x, y)
    case (NaN, _) => false
    case (_, NaN) => false
    case (NegInf, _) => true
    case (_, PosInf) => true
    case (Finite(a), Finite(b)) => a <= b
    case (_, _) => false
  }

  /** An optional string read from the environment or a request body is truthy
      when it is present and not empty. */
  predicate Truthy(s: Option<string>)
  {
    s.Some? && s.value != ""
  }

  /** `s || d` for an optional string `s`. */
  function OrDefault(s: Option<string>, d: string): (r: string)
    ensures Truthy(s) ==> r == s.value
    ensures !Truthy(s) ==> r == d
  {
    if Truthy(s) then s.value else d
  }

  /** The ECMAScript WhiteSpace and LineTerminator characters: the `\s` class of
      regular expressions and what `trim` removes. */
  predicate IsSpace(c: char)
    ensures c == ' ' || c == '\t' || c == '\n' || c == '\r' ==> IsSpace(c)
    ensures IsSpace(c) ==> c as int <= 0x20 || c as int >= 0xA0
  {
    var n := c as int;
    (9 <= n <= 13) || n == 0x20 || n == 0xA0 || n == 0x1680 ||
    (0x2000 <= n <= 0x200A) || n == 0x2028 || n == 0x2029 || n == 0x202F ||
    n == 0x205F || n == 0x3000 || n == 0xFEFF
  }

  /** `toLowerCase` on one character, for the Basic Latin and Latin-1 letters. */
  function LowerChar(c: char): (r: char)
    ensures 'A' <= c <= 'Z' ==> r as int == c as int + 32
    ensures 0xC0 <= c as int <= 0xDE && c as int != 0xD7 ==> r as int == c as int + 32
    ensures !('A' <= c <= 'Z') && !(0xC0 <= c as int <= 0xDE && c as int != 0xD7) ==> r == c
    ensures !('A' <= r <= 'Z')
  {
    var n := c as int;
    if 'A' <= c <= 'Z' then (n + 32) as char
    else if 0xC0 <= n <= 0xDE && n != 0xD7 then (n + 32) as char
    else c
  }

  /** `toLowerCase` on a string, character by character (so, unlike JavaScript
      on a few characters outside Latin-1, never changing the length). */
  function Lower(s: string): (r: string)
    ensures |r| == |s|
    ensures forall i :: 0 <= i < |s| ==> r[i] == LowerChar(s[i])
  {
    seq(|s|, i requires 0 <= i < |s| => LowerChar(s[i]))
  }

  /** Case-insensitive equality of one character against a pattern character
      of a regular expression with the `i` flag. The patterns matched this way
      here are ASCII letters, spaces and digits, and against those only ASCII
      letters match case-insensitively. */
  predicate CiEq(c: char, p: char)
    ensures 'a' <= p <= 'z' ==> (CiEq(c, p) <==> c == p || c as int == p as int - 32)
    ensures !('a' <= p <= 'z') && !('A' <= p <= 'Z') ==> (CiEq(c, p) <==> c == p)
  {
    AsciiFold(c) == AsciiFold(p)
  }

  /** Upper-case ASCII letters to lower case; every other character unchanged. */
  function AsciiFold(c: char): (r: char)
    ensures 'A' <= c <= 'Z' ==> r as int == c as int + 32
    ensures !('A' <= c <= 'Z') ==> r == c
    ensures !('A' <= r <= 'Z')
  {
    if 'A' <= c <= 'Z' then (c as int + 32) as char else c
  }

  /** `a` and `pat` have the same length and agree character by character,
      ignoring ASCII case. */
  predicate CiEqual(a: string, pat: string)
  {
    |a| == |pat| && forall k :: 0 <= k < |pat| ==> CiEq(a[k], pat[k])
  }

  /** `pat` occurs in `s` at position `i`, ignoring ASCII case. */
  predicate CiMatchAt(s: string, i: int, pat: string)
  {
    0 <= i && i + |pat| <= |s| && CiEqual(s[i..i + |pat|], pat)
  }

  /** `pat` occurs somewhere in `s`, ignoring ASCII case. */
  predicate CiContains(s: string, pat: string)
  {
    exists i :: 0 <= i <= |s| && CiMatchAt(s, i, pat)
  }
}
