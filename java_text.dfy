/**
 * The string primitives of the Java platform and of Apache Commons Lang that the
 * configuration accessors rely on: `Character.isWhitespace`, `StringUtils.isBlank`,
 * `String.trim`, `String.equalsIgnoreCase` and `Boolean.valueOf(String)`.
 * A Java `String` is modelled as `seq<char>`.
 */
module JavaText {
  import opened Wrappers

  /** `Character.isWhitespace`: the Unicode space, line and paragraph separators other
      than the non-breaking spaces U+00A0, U+2007 and U+202F, plus the ASCII controls
      TAB, LF, VT, FF, CR and U+001C to U+001F. */
  predicate IsWhitespace(c: char)
  {
    || c == ' ' || c == '\t' || c == '\n' || c == '\U{000B}' || c == '\U{000C}' || c == '\r'
    || ('\U{001C}' <= c <= '\U{001F}')
    || c == '\U{1680}'
    || ('\U{2000}' <= c <= '\U{2006}')
    || ('\U{2008}' <= c <= '\U{200A}')
    || c == '\U{2028}' || c == '\U{2029}' || c == '\U{205F}' || c == '\U{3000}'
  }

  /** `StringUtils.isBlank` on a non-null string: empty or whitespace only. */
  predicate IsBlankString(s: string)
  {
    forall k | 0 <= k < |s| :: IsWhitespace(s[k])
  }

  /** `StringUtils.isBlank` on a possibly-null string: null counts as blank. */
  predicate IsBlank(s: Option<string>)
  {
    s.None? || IsBlankString(s.value)
  }

  /** `String.trim` strips every code unit at or below U+0020 from both ends. */
  predicate IsTrimmable(c: char)
  {
    c <= ' '
  }

  /** Every character of `s` is one that `trim` strips. */
  predicate AllTrimmable(s: string)
  {
    forall k | 0 <= k < |s| :: IsTrimmable(s[k])
  }

  /** The number of trimmable characters at the front of `s`. */
  function LeadingTrimmable(s: string): (n: nat)
    ensures n <= |s|
    ensures forall k | 0 <= k < n :: IsTrimmable(s[k])
    ensures n < |s| ==> !IsTrimmable(s[n])
  {
    if s == [] || !IsTrimmable(s[0]) then 0 else 1 + LeadingTrimmable(s[1..])
  }

  /** The number of trimmable characters at the back of `s`. */
  function TrailingTrimmable(s: string): (n: nat)
    ensures n <= |s|
    ensures forall k | |s| - n <= k < |s| :: IsTrimmable(s[k])
    ensures n < |s| ==> !IsTrimmable(s[|s| - n - 1])
  {
    if s == [] || !IsTrimmable(s[|s| - 1]) then 0 else 1 + TrailingTrimmable(s[..|s| - 1])
  }

  /** `String.trim`: the infix left once both trimmable ends are cut off. */
  function Trim(s: string): (r: string)
    ensures |r| <= |s|
    ensures r == [] || (!IsTrimmable(r[0]) && !IsTrimmable(r[|r| - 1]))
    ensures r == [] <==> forall k | 0 <= k < |s| :: IsTrimmable(s[k])
  {
    var front := LeadingTrimmable(s);
    var rest := s[front..];
    var back := TrailingTrimmable(rest);
    assert front < |s| ==> rest[0] == s[front];
    rest[..|rest| - back]
  }

  /** `trim` undoes any padding: the characterisation of `Trim` on all inputs. */
  lemma TrimPadded(pre: string, core: string, post: string)
    requires forall k | 0 <= k < |pre| :: IsTrimmable(pre[k])
    requires forall k | 0 <= k < |post| :: IsTrimmable(post[k])
    requires core == [] || (!IsTrimmable(core[0]) && !IsTrimmable(core[|core| - 1]))
    ensures Trim(pre + core + post) == core
  {
    var s := pre + core + post;
    var front := LeadingTrimmable(s);
    if core == [] {
      assert forall k | 0 <= k < |s| :: IsTrimmable(s[k]) by {
        forall k | 0 <= k < |s| ensures IsTrimmable(s[k]) {
          if k < |pre| { assert s[k] == pre[k]; } else { assert s[k] == post[k - |pre|]; }
        }
      }
    } else {
      assert s[|pre|] == core[0];
      forall k | 0 <= k < |pre| ensures IsTrimmable(s[k]) { assert s[k] == pre[k]; }
      assert front == |pre|;
      var rest := s[front..];
      assert rest == core + post;
      var back := TrailingTrimmable(rest);
      assert rest[|core| - 1] == core[|core| - 1];
      forall k | |core| <= k < |rest| ensures IsTrimmable(rest[k]) { assert rest[k] == post[k - |core|]; }
      assert back == |post|;
      assert rest[..|rest| - back] == core;
    }
  }

  /** Trimming twice is trimming once. */
  lemma TrimIdempotent(s: string)
    ensures Trim(Trim(s)) == Trim(s)
  {
  }

  /** `trim().isEmpty()` and `StringUtils.isBlank` are different tests: a control
      character such as U+0001 is trimmed away but is not whitespace, and the
      ideographic space U+3000 is whitespace but is not trimmed. */
  lemma TrimEmptyDiffersFromBlank()
    ensures Trim("\U{0001}") == [] && !IsBlankString("\U{0001}")
    ensures Trim("\U{3000}") != [] && IsBlankString("\U{3000}")
  {
  }

  /** Upper-casing of the ASCII letters; every other character is unchanged. */
  function AsciiUpper(c: char): (r: char)
  {
    if 'a' <= c <= 'z' then (c as int - 32) as char else c
  }

  /** `String.equalsIgnoreCase` (and `StringUtils.equalsIgnoreCase` on non-null
      arguments), folding the case of ASCII letters. */
  predicate EqualsIgnoreCase(a: string, b: string)
  {
    |a| == |b| && forall k | 0 <= k < |a| :: a[k] == b[k] || AsciiUpper(a[k]) == AsciiUpper(b[k])
  }

  /** `Boolean.valueOf(String)`: true exactly for "true" in any letter case. */
  predicate ParseBoolean(s: string)
  {
    EqualsIgnoreCase(s, "true")
  }

  /** "true" in any letter case, with nothing around it. */
  predicate SpellsTrue(s: string)
  {
    |s| == 4 && (s[0] == 't' || s[0] == 'T') && (s[1] == 'r' || s[1] == 'R')
             && (s[2] == 'u' || s[2] == 'U') && (s[3] == 'e' || s[3] == 'E')
  }

  /** The sixteen spellings `Boolean.valueOf` accepts, listed letter by letter. */
  lemma ParseBooleanSpellings(s: string)
    ensures ParseBoolean(s) <==> SpellsTrue(s)
  {
  }
}
