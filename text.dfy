/**
 * Character helpers for the ASCII range: case mapping as `strings.ToLower`,
 * `unicode.ToUpper` and `model.NewCIStr` apply it to ASCII text, and the
 * character classes `unicode.IsDigit`, `IsLower` and `IsUpper` test.
 */
module Text {

  predicate IsDigit(c: char)
  {
    '0' <= c <= '9'
  }

  predicate IsLower(c: char)
  {
    'a' <= c <= 'z'
  }

  predicate IsUpper(c: char)
  {
    'A' <= c <= 'Z'
  }

  function ToUpperChar(c: char): (u: char)
  {
    if IsLower(c) then (c as int - 32) as char else c
  }

  function ToLowerChar(c: char): (l: char)
  {
    if IsUpper(c) then (c as int + 32) as char else c
  }

  /** The text with every ASCII upper-case letter lowered. */
  function Lower(s: string): (r: string)
    ensures |r| == |s|
    ensures forall i :: 0 <= i < |s| ==> r[i] == ToLowerChar(s[i])
  {
    seq(|s|, i requires 0 <= i < |s| => ToLowerChar(s[i]))
  }

  /** Lowering holds no upper-case letter, so lowering twice changes nothing. */
  lemma LowerIdempotent(s: string)
    ensures forall i :: 0 <= i < |s| ==> !IsUpper(Lower(s)[i])
    ensures Lower(Lower(s)) == Lower(s)
  {
  }
}
