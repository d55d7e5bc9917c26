/**
 Trimming of white space as the standard library does it.
 */
module Strings {

  predicate IsSpace(c: char)
  {
    || c in {' ', '\t', '\n', '\r', '\U{000B}', '\U{000C}', '\U{0085}', '\U{00A0}', '\U{1680}'}
    || '\U{2000}' <= c <= '\U{200A}'
    || c in {'\U{2028}', '\U{2029}', '\U{202F}', '\U{205F}', '\U{3000}'}
  }

  function TrimLeft(s: string): (r: string)
    ensures |r| <= |s| && (r != "" ==> !IsSpace(r[0]))
    ensures r == s[|s| - |r|..]
  {
    if s != "" && IsSpace(s[0]) then TrimLeft(s[1..]) else s
  }

  function TrimRight(s: string): (r: string)
    ensures |r| <= |s| && (r != "" ==> !IsSpace(r[|r| - 1]))
    ensures r == s[..|r|]
  {
    if s != "" && IsSpace(s[|s| - 1]) then TrimRight(s[..|s| - 1]) else s
  }

  function Trim(s: string): (r: string)
    ensures r != "" ==> !IsSpace(r[0]) && !IsSpace(r[|r| - 1])
  {
    TrimRight(TrimLeft(s))
  }

  predicate Trimmed(s: string)
  {
    s == "" || (!IsSpace(s[0]) && !IsSpace(s[|s| - 1]))
  }

  /** Trimming twice is trimming once. */
  lemma TrimTwice(s: string)
    ensures Trimmed(Trim(s)) && Trim(Trim(s)) == Trim(s)
  {
  }

  lemma TrimKeeps(s: string)
    requires Trimmed(s)
    ensures Trim(s) == s
  {
  }
}
