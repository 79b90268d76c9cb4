/** `String.prototype.trim` of ECMAScript: removes leading and trailing code
    points of the WhiteSpace and LineTerminator productions. */
module JsString {

  /** WhiteSpace (TAB, VT, FF, ZWNBSP and every Unicode "Zs" space separator)
      and LineTerminator (LF, CR, LS, PS). */
  predicate IsTrimmed(c: char)
  {
    || c == '\t' || c == '\U{000B}' || c == '\U{000C}' || c == ' '
    || c == '\U{00A0}' || c == '\U{1680}' || ('\U{2000}' <= c <= '\U{200A}')
    || c == '\U{202F}' || c == '\U{205F}' || c == '\U{3000}' || c == '\U{FEFF}'
    || c == '\n' || c == '\r' || c == '\U{2028}' || c == '\U{2029}'
  }

  /** True when `s` holds at least one code point that trim keeps. */
  ghost predicate HasContent(s: string)
  {
    exists k :: 0 <= k < |s| && !IsTrimmed(s[k])
  }

  /** Drops the longest trimmable prefix. */
  function TrimStart(s: string): (r: string)
    ensures |r| <= |s| && r == s[|s| - |r|..]
    ensures forall k :: 0 <= k < |s| - |r| ==> IsTrimmed(s[k])
    ensures r != [] ==> !IsTrimmed(r[0])
  {
    if |s| > 0 && IsTrimmed(s[0]) then TrimStart(s[1..]) else s
  }

  /** Drops the longest trimmable suffix. */
  function TrimEnd(s: string): (r: string)
    ensures |r| <= |s| && r == s[..|r|]
    ensures forall k :: |r| <= k < |s| ==> IsTrimmed(s[k])
    ensures r != [] ==> !IsTrimmed(r[|r| - 1])
  {
    if |s| > 0 && IsTrimmed(s[|s| - 1]) then TrimEnd(s[..|s| - 1]) else s
  }

  /** `s.trim()`: what remains neither starts nor ends with a trimmable code
      point, and it is empty exactly when every code point of `s` is
      trimmable. */
  function Trim(s: string): (r: string)
    ensures |r| <= |s|
    ensures r != [] ==> !IsTrimmed(r[0]) && !IsTrimmed(r[|r| - 1])
    ensures r == [] <==> !HasContent(s)
  {
    TrimEmptyIff(s);
    TrimEnd(TrimStart(s))
  }

  lemma TrimEmptyIff(s: string)
    ensures TrimEnd(TrimStart(s)) == [] <==> !HasContent(s)
    ensures TrimEnd(TrimStart(s)) != [] ==> !IsTrimmed(TrimEnd(TrimStart(s))[0])
  {
    var front := TrimStart(s);
    var r := TrimEnd(front);
    var off := |s| - |front|;
    if r == [] {
      assert front == [];
    } else {
      assert r[0] == front[0];
      assert front[0] == s[off];
    }
  }
}
