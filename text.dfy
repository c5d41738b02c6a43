/**
 * String helpers the fuel-type vocabulary and the save path rely on:
 * `String.prototype.trim` and the code-unit order used by the default
 * `Array.prototype.sort`.
 */
module Text {

  /** The ECMAScript WhiteSpace and LineTerminator code points, which `trim` strips. */
  predicate IsWhitespace(c: char) {
    c == ' ' || c == '\t' || c == '\n' || c == '\r' || c == '\U{B}' || c == '\U{C}'
    || c == '\U{A0}' || c == '\U{1680}' || ('\U{2000}' <= c <= '\U{200A}')
    || c == '\U{2028}' || c == '\U{2029}' || c == '\U{202F}' || c == '\U{205F}'
    || c == '\U{3000}' || c == '\U{FEFF}'
  }

  /** Drops the leading whitespace (`TrimStartSuffix` states what is left). */
  function TrimStart(s: string): (t: string)
    ensures |t| <= |s|
  {
    if |s| > 0 && IsWhitespace(s[0]) then TrimStart(s[1..]) else s
  }

  /** Drops the trailing whitespace (`TrimEndPrefix` states what is left). */
  function TrimEnd(s: string): (t: string)
    ensures |t| <= |s|
  {
    if |s| > 0 && IsWhitespace(s[|s| - 1]) then TrimEnd(s[..|s| - 1]) else s
  }

  /** `TrimStart` removes exactly the leading whitespace: what is left is a suffix that does not start with whitespace. */
  lemma {:induction false} TrimStartSuffix(s: string)
    ensures TrimStart(s) == s[|s| - |TrimStart(s)|..]
    ensures forall k :: 0 <= k < |s| - |TrimStart(s)| ==> IsWhitespace(s[k])
    ensures TrimStart(s) == [] || !IsWhitespace(TrimStart(s)[0])
  {
    if |s| > 0 && IsWhitespace(s[0]) {
      TrimStartSuffix(s[1..]);
    }
  }

  /** `TrimEnd` removes exactly the trailing whitespace: what is left is a prefix that does not end with whitespace. */
  lemma {:induction false} TrimEndPrefix(s: string)
    ensures TrimEnd(s) == s[..|TrimEnd(s)|]
    ensures forall k :: |TrimEnd(s)| <= k < |s| ==> IsWhitespace(s[k])
    ensures TrimEnd(s) == [] || !IsWhitespace(TrimEnd(s)[|TrimEnd(s)| - 1])
  {
    if |s| > 0 && IsWhitespace(s[|s| - 1]) {
      TrimEndPrefix(s[..|s| - 1]);
    }
  }

  /**
   * `s.trim()`: the text of `s` between its leading and its trailing
   * whitespace. It neither starts nor ends with whitespace, and it is empty
   * exactly when `s` is whitespace only.
   */
  function Trim(s: string): (t: string)
    ensures |t| <= |s|
    ensures t == [] || (!IsWhitespace(t[0]) && !IsWhitespace(t[|t| - 1]))
    ensures t == [] <==> forall k :: 0 <= k < |s| ==> IsWhitespace(s[k])
    // the result is the input's own text, starting where the leading whitespace ends
    // (`TrimStart` drops exactly that whitespace), with only whitespace after it
    ensures |s| - |TrimStart(s)| + |t| <= |s|
    ensures t == s[|s| - |TrimStart(s)|..|s| - |TrimStart(s)| + |t|]
    ensures forall k :: |s| - |TrimStart(s)| + |t| <= k < |s| ==> IsWhitespace(s[k])
  {
    TrimmedEnds(s, TrimStart(s), TrimEnd(TrimStart(s)));
    TrimmedInfix(s, TrimStart(s), TrimEnd(TrimStart(s)));
    TrimEnd(TrimStart(s))
  }

  /** The trimmed text neither starts nor ends with whitespace, and is empty exactly when `s` is all whitespace. */
  lemma TrimmedEnds(s: string, u: string, t: string)
    requires u == TrimStart(s) && t == TrimEnd(u)
    ensures |t| <= |s|
    ensures t == [] || (!IsWhitespace(t[0]) && !IsWhitespace(t[|t| - 1]))
    ensures t == [] <==> forall k :: 0 <= k < |s| ==> IsWhitespace(s[k])
  {
    TrimStartSuffix(s);
    TrimEndPrefix(u);
    EndsOfInfix(s, u, t);
  }

  /** A prefix `t` of a suffix `u` of `s`, each cut at whitespace, keeps the ends the cuts left. */
  lemma EndsOfInfix(s: string, u: string, t: string)
    requires |u| <= |s| && u == s[|s| - |u|..]
    requires forall k :: 0 <= k < |s| - |u| ==> IsWhitespace(s[k])
    requires u == [] || !IsWhitespace(u[0])
    requires |t| <= |u| && t == u[..|t|]
    requires forall k :: |t| <= k < |u| ==> IsWhitespace(u[k])
    requires t == [] || !IsWhitespace(t[|t| - 1])
    ensures t == [] || (!IsWhitespace(t[0]) && !IsWhitespace(t[|t| - 1]))
    ensures t == [] <==> forall k :: 0 <= k < |s| ==> IsWhitespace(s[k])
  {
    if t != [] {
      assert t[0] == u[0];
      assert !IsWhitespace(s[|s| - |u|]);
    } else {
      assert u == [];
    }
  }

  /**
   * Trimming the start and then the end leaves the text after the leading
   * whitespace, followed by whitespace only.
   */
  lemma TrimmedInfix(s: string, u: string, t: string)
    requires u == TrimStart(s) && t == TrimEnd(u)
    ensures |s| - |u| + |t| <= |s|
    ensures t == s[|s| - |u|..|s| - |u| + |t|]
    ensures forall k :: |s| - |u| + |t| <= k < |s| ==> IsWhitespace(s[k])
  {
    TrimStartSuffix(s);
    TrimEndPrefix(u);
    InfixOfSuffix(s, u, t);
  }

  /** A prefix `t` of the suffix `u` of `s`, followed in `u` by whitespace only. */
  lemma InfixOfSuffix(s: string, u: string, t: string)
    requires |u| <= |s| && u == s[|s| - |u|..]
    requires |t| <= |u| && t == u[..|t|]
    requires forall k :: |t| <= k < |u| ==> IsWhitespace(u[k])
    ensures t == s[|s| - |u|..|s| - |u| + |t|]
    ensures forall k :: |s| - |u| + |t| <= k < |s| ==> IsWhitespace(s[k])
  {
    forall k | |s| - |u| + |t| <= k < |s|
      ensures IsWhitespace(s[k])
    {
      assert s[k] == u[k - (|s| - |u|)];
    }
  }

  /** Lexicographic order on strings, character by character (a prefix comes first). */
  predicate StrLe(a: string, b: string) {
    if |a| == 0 then true
    else if |b| == 0 then false
    else if a[0] < b[0] then true
    else if b[0] < a[0] then false
    else StrLe(a[1..], b[1..])
  }

  lemma {:induction false} StrLeTotal(a: string, b: string)
    ensures StrLe(a, b) || StrLe(b, a)
  {
    if |a| > 0 && |b| > 0 && a[0] == b[0] {
      StrLeTotal(a[1..], b[1..]);
    }
  }

  lemma {:induction false} StrLeTransitive(a: string, b: string, c: string)
    requires StrLe(a, b) && StrLe(b, c)
    ensures StrLe(a, c)
  {
    if |a| > 0 && |b| > 0 && |c| > 0 && a[0] == b[0] && b[0] == c[0] {
      StrLeTransitive(a[1..], b[1..], c[1..]);
    }
  }

  lemma {:induction false} StrLeAntisymmetric(a: string, b: string)
    requires StrLe(a, b) && StrLe(b, a)
    ensures a == b
  {
    if |a| > 0 && |b| > 0 {
      StrLeAntisymmetric(a[1..], b[1..]);
      assert a == [a[0]] + a[1..] && b == [b[0]] + b[1..];
    }
  }
}
