/** The string operations of the Java side that several parts use. */
module Text {

  /** A character of the class `\s`. */
  predicate IsSpace(c: char)
  {
    c == ' ' || '\t' <= c <= '\r'
  }

  /** `String.trim` strips everything up to U+0020. */
  function TrimLeft(s: string): string
  {
    if s == [] || s[0] > ' ' then s else TrimLeft(s[1..])
  }

  function TrimRight(s: string): string
  {
    if s == [] || s[|s| - 1] > ' ' then s else TrimRight(s[..|s| - 1])
  }

  function Trim(s: string): string
  {
    TrimRight(TrimLeft(s))
  }

  lemma TrimmedStays(s: string)
    requires s != [] ==> s[0] > ' ' && s[|s| - 1] > ' '
    ensures Trim(s) == s
  {
  }
}
