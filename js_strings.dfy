/** The JavaScript string operations the pages rely on: which characters
    `trim()` removes, `trim()` itself, and the emptiness test on its result. */
module JsStrings {

  /** True of the characters `String.prototype.trim` removes: the ECMAScript
      WhiteSpace code points (tab, vertical tab, form feed, the byte-order mark
      and the Unicode space separators) and the four LineTerminator code points.
      No letter, digit or '@' is among them. */
  predicate IsJsWhitespace(c: char)
    ensures IsJsWhitespace(c) ==> !('0' <= c <= '9' || 'A' <= c <= 'Z' || 'a' <= c <= 'z' || c == '@')
  {
    || c == '\t' || c == '\n' || c == '\U{000B}' || c == '\U{000C}' || c == '\r'
    || c == ' ' || c == '\U{00A0}' || c == '\U{1680}'
    || ('\U{2000}' <= c <= '\U{200A}')
    || c == '\U{2028}' || c == '\U{2029}' || c == '\U{202F}' || c == '\U{205F}'
    || c == '\U{3000}' || c == '\U{FEFF}'
  }

  /** `s.trimStart()`: the suffix left once the leading whitespace is gone. */
  function TrimStart(s: string): (r: string)
    ensures |r| <= |s| && r == s[|s| - |r|..]
    ensures r == [] <==> forall i :: 0 <= i < |s| ==> IsJsWhitespace(s[i])
    ensures r != [] ==> !IsJsWhitespace(r[0])
  {
    if s != [] && IsJsWhitespace(s[0]) then TrimStart(s[1..]) else s
  }

  /** `s.trimEnd()`: the prefix left once the trailing whitespace is gone. */
  function TrimEnd(s: string): (r: string)
    ensures |r| <= |s| && r == s[..|r|]
    ensures r == [] <==> forall i :: 0 <= i < |s| ==> IsJsWhitespace(s[i])
    ensures r != [] ==> !IsJsWhitespace(r[|r| - 1])
  {
    if s != [] && IsJsWhitespace(s[|s| - 1]) then TrimEnd(s[..|s| - 1]) else s
  }

  /** `s.trim()`: whitespace removed from both ends; what is left neither starts
      nor ends with whitespace, and it is empty exactly when `s` is all whitespace. */
  function Trim(s: string): (r: string)
    ensures |r| <= |s|
    ensures r == [] <==> forall i :: 0 <= i < |s| ==> IsJsWhitespace(s[i])
    ensures r != [] ==> !IsJsWhitespace(r[0]) && !IsJsWhitespace(r[|r| - 1])
  {
    TrimEnd(TrimStart(s))
  }

  /** What `trimStart()` drops is whitespace, and only at the start. */
  lemma {:induction false} TrimStartDropsOnlyWhitespace(s: string)
    ensures forall i :: 0 <= i < |s| - |TrimStart(s)| ==> IsJsWhitespace(s[i])
  {
    if s != [] && IsJsWhitespace(s[0]) {
      TrimStartDropsOnlyWhitespace(s[1..]);
      assert forall i :: 1 <= i < |s| - |TrimStart(s)| ==> s[i] == s[1..][i - 1];
    }
  }

  /** What `trimEnd()` drops is whitespace, and only at the end. */
  lemma {:induction false} TrimEndDropsOnlyWhitespace(s: string)
    ensures forall i :: |TrimEnd(s)| <= i < |s| ==> IsJsWhitespace(s[i])
  {
    if s != [] && IsJsWhitespace(s[|s| - 1]) {
      TrimEndDropsOnlyWhitespace(s[..|s| - 1]);
      assert forall i :: |TrimEnd(s)| <= i < |s| - 1 ==> s[i] == s[..|s| - 1][i];
    }
  }

  /** `trim()` is `trimEnd()` after `trimStart()`: the result is the slice of
      the input that starts where the leading whitespace ends. */
  lemma TrimIsSlice(s: string)
    ensures var a := |s| - |TrimStart(s)|;
      a + |Trim(s)| <= |s| && Trim(s) == s[a..a + |Trim(s)|]
  {
    var t := TrimStart(s);
    var a := |s| - |t|;
    var r := TrimEnd(t);
    assert t == s[a..] && r == t[..|r|];
    assert s[a..][..|r|] == s[a..a + |r|];
  }

  /** Everything `trim()` drops, before and after that slice, is whitespace. */
  lemma TrimDropsOnlyWhitespace(s: string)
    ensures var a := |s| - |TrimStart(s)|;
      && (forall i :: 0 <= i < a ==> IsJsWhitespace(s[i]))
      && (forall i :: a + |Trim(s)| <= i < |s| ==> IsJsWhitespace(s[i]))
  {
    var t := TrimStart(s);
    var a := |s| - |t|;
    TrimStartDropsOnlyWhitespace(s);
    TrimEndDropsOnlyWhitespace(t);
    forall i | a + |Trim(s)| <= i < |s|
      ensures IsJsWhitespace(s[i])
    {
      assert t == s[a..];
      assert s[i] == t[i - a];
    }
  }

  /** `!s.trim()`: the trimmed string is empty, that is, falsy. */
  predicate IsBlank(s: string)
  {
    forall i :: 0 <= i < |s| ==> IsJsWhitespace(s[i])
  }

  /** The blank test agrees with `trim()`: a text is blank exactly when trimming
      leaves nothing. */
  lemma BlankIffTrimEmpty(s: string)
    ensures IsBlank(s) <==> Trim(s) == []
  {
  }
}
