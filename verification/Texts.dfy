/** Searching in texts. */
module Texts {
  /** The characters of s before the first c. */
  function UpTo(s: string, c: char): (r: string)
    ensures r <= s && c !in r && (|r| < |s| ==> s[|r|] == c)
  {
    if s == "" || s[0] == c then "" else [s[0]] + UpTo(s[1..], c)
  }

  /** The characters of s before the first line end. */
  function Line(s: string): (r: string)
    ensures r <= s && '\n' !in r && (|r| < |s| ==> s[|r|] == '\n')
  {
    UpTo(s, '\n')
  }
}
