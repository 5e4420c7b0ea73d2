/** The parts of JavaScript's string semantics the route handlers rely on.
    A `string` is a sequence of Unicode scalar values; where JavaScript counts
    UTF-16 code units instead, the difference is made explicit. */
module JsString {
  import opened Wrappers

  /** The characters `String.prototype.trim` removes: the WhiteSpace and
      LineTerminator productions of ECMA-262 (sections 12.2 and 12.3), that is
      TAB, VT, FF, ZWNBSP, the space separators of category Zs, LF, CR, LS and PS. */
  predicate IsTrimmable(c: char) {
    || c == '\t' || c == '\U{B}' || c == '\U{C}' || c == '\U{FEFF}'
    || c == ' ' || c == '\U{A0}' || c == '\U{1680}' || ('\U{2000}' <= c <= '\U{200A}')
    || c == '\U{202F}' || c == '\U{205F}' || c == '\U{3000}'
    || IsLineTerminator(c)
  }

  /** LF, CR, LS and PS: the characters a regular-expression `.` does not match. */
  predicate IsLineTerminator(c: char) {
    c == '\n' || c == '\r' || c == '\U{2028}' || c == '\U{2029}'
  }

  /** `s.trimStart()`: the longest suffix of `s` that does not begin with whitespace. */
  function TrimStart(s: string): (r: string)
    ensures |r| <= |s| && r == s[|s| - |r|..]
    ensures r != [] ==> !IsTrimmable(r[0])
    ensures forall i :: 0 <= i < |s| - |r| ==> IsTrimmable(s[i])
  {
    if s != [] && IsTrimmable(s[0]) then
      var r := TrimStart(s[1..]);
      assert s[1..][|s| - 1 - |r|..] == s[|s| - |r|..];
      assert forall i :: 1 <= i < |s| - |r| ==> s[i] == s[1..][i - 1];
      r
    else s
  }

  /** `s.trimEnd()`: the longest prefix of `s` that does not end with whitespace. */
  function TrimEnd(s: string): (r: string)
    ensures |r| <= |s| && r == s[..|r|]
    ensures r != [] ==> !IsTrimmable(r[|r| - 1])
    ensures forall i :: |r| <= i < |s| ==> IsTrimmable(s[i])
  {
    if s != [] && IsTrimmable(s[|s| - 1]) then
      var r := TrimEnd(s[..|s| - 1]);
      assert s[..|s| - 1][..|r|] == s[..|r|];
      assert forall i :: |r| <= i < |s| - 1 ==> s[i] == s[..|s| - 1][i];
      r
    else s
  }

  /** A text made of whitespace only. */
  predicate Blank(t: string) {
    forall k :: 0 <= k < |t| ==> IsTrimmable(t[k])
  }

  /** `s.trim()`: the part of `s` between its leading and its trailing
      whitespace (`TrimIsInfix` states where it sits). */
  function Trim(s: string): (r: string)
    ensures |r| <= |s|
    ensures r != [] ==> !IsTrimmable(r[0]) && !IsTrimmable(r[|r| - 1])
  {
    var t := TrimStart(s);
    var r := TrimEnd(t);
    assert r != [] ==> r[0] == t[0];
    r
  }

  /** What `Trim` drops is whitespace at both ends and nothing else: the
      result is an infix of the input with blank text on either side. With
      the end characters stated by `Trim`, this determines the result. */
  lemma TrimIsInfix(s: string)
    ensures exists i, j :: 0 <= i <= j <= |s| && Trim(s) == s[i..j] && Blank(s[..i]) && Blank(s[j..])
  {
    var i, j := TrimSpan(s);
    BlankInside(s, i, j);
    assert 0 <= i <= j <= |s| && Trim(s) == s[i..j] && Blank(s[..i]) && Blank(s[j..]);
  }

  /** A prefix `r` of a suffix `t` of `s` is an infix `s[i..j]`; if what the
      suffix drops and what the prefix drops all satisfy `p`, so does
      everything of `s` outside that infix, and the infix keeps its ends. */
  lemma SpanOfSuffixPrefix(s: string, t: string, r: string, p: char -> bool) returns (i: nat, j: nat)
    requires |t| <= |s| && t == s[|s| - |t|..]
    requires |r| <= |t| && r == t[..|r|]
    requires forall k :: 0 <= k < |s| - |t| ==> p(s[k])
    requires forall k :: |r| <= k < |t| ==> p(t[k])
    requires r != [] ==> !p(r[0]) && !p(r[|r| - 1])
    ensures i <= j <= |s| && r == s[i..j]
    ensures forall k :: 0 <= k < i ==> p(s[k])
    ensures forall k :: j <= k < |s| ==> p(s[k])
    ensures r != [] ==> !p(s[i]) && !p(s[j - 1])
  {
    i, j := |s| - |t|, |s| - |t| + |r|;
    forall k | j <= k < |s| ensures p(s[k]) {
      assert s[k] == t[k - i];
    }
    InfixEnds(s, r, i, j);
  }

  /** An infix `s[i..j]` begins with `s[i]` and ends with `s[j - 1]`. */
  lemma InfixEnds(s: string, r: string, i: nat, j: nat)
    requires i <= j <= |s| && r == s[i..j]
    ensures r != [] ==> r[0] == s[i] && r[|r| - 1] == s[j - 1]
  {
  }

  /** Where the result of `Trim` sits in its input. */
  lemma TrimSpan(s: string) returns (i: nat, j: nat)
    ensures i <= j <= |s| && Trim(s) == s[i..j]
    ensures forall k :: 0 <= k < i ==> IsTrimmable(s[k])
    ensures forall k :: j <= k < |s| ==> IsTrimmable(s[k])
    ensures Trim(s) != [] ==> !IsTrimmable(s[i]) && !IsTrimmable(s[j - 1])
  {
    var t := TrimStart(s);
    var r := TrimEnd(t);
    assert Trim(s) == r;
    i, j := SpanOfSuffixPrefix(s, t, r, IsTrimmable);
  }

  /** Slices of characters satisfying `IsTrimmable` index by index are blank. */
  lemma BlankInside(s: string, i: nat, j: nat)
    requires i <= j <= |s|
    requires forall k :: 0 <= k < i ==> IsTrimmable(s[k])
    requires forall k :: j <= k < |s| ==> IsTrimmable(s[k])
    ensures Blank(s[..i]) && Blank(s[j..])
  {
    forall k | 0 <= k < i ensures IsTrimmable(s[..i][k]) {
      assert s[..i][k] == s[k];
    }
    forall k | 0 <= k < |s| - j ensures IsTrimmable(s[j..][k]) {
      assert s[j..][k] == s[j + k];
    }
  }

  /** Trimming keeps only characters of the input. */
  lemma TrimBounds(s: string)
    ensures |Trim(s)| <= |s|
    ensures forall n :: 0 <= n < |Trim(s)| ==> Trim(s)[n] in s
  {
    var i, j := TrimSpan(s);
    forall n | 0 <= n < |Trim(s)| ensures Trim(s)[n] in s {
      assert Trim(s)[n] == s[i + n];
    }
  }

  /** A text without whitespace is its own trim. */
  lemma TrimPlain(s: string)
    requires forall n :: 0 <= n < |s| ==> !IsTrimmable(s[n])
    ensures Trim(s) == s
  {
    var i, j := TrimSpan(s);
    if |s| > 0 {
      assert !IsTrimmable(s[0]) && !IsTrimmable(s[|s| - 1]);
    }
    assert s[0..|s|] == s;
  }

  /** A text of whitespace only trims to the empty text. */
  lemma TrimBlank(s: string)
    requires forall n :: 0 <= n < |s| ==> IsTrimmable(s[n])
    ensures Trim(s) == []
  {
    var i, j := TrimSpan(s);
    if i < j {
      assert IsTrimmable(s[i]);
    }
  }

  /** `c.toLowerCase()` restricted to ASCII: `A`..`Z` become `a`..`z`. */
  function LowerChar(c: char): char {
    if 'A' <= c <= 'Z' then (c as int + 32) as char else c
  }

  /** `s.toLowerCase()` on the ASCII letters of `s`. */
  function ToLower(s: string): (r: string)
    ensures |r| == |s| && forall i :: 0 <= i < |s| ==> r[i] == LowerChar(s[i])
  {
    seq(|s|, i requires 0 <= i < |s| => LowerChar(s[i]))
  }

  /** `s.endsWith(suffix)`. */
  predicate EndsWith(s: string, suffix: string) {
    |suffix| <= |s| && s[|s| - |suffix|..] == suffix
  }

  /** `s.length`: the number of UTF-16 code units, two for a character outside
      the Basic Multilingual Plane. */
  function Utf16Length(s: string): (n: nat)
    ensures |s| <= n <= 2 * |s|
    ensures (forall i :: 0 <= i < |s| ==> s[i] as int < 0x10000) ==> n == |s|
  {
    if s == [] then 0 else (if s[0] as int < 0x10000 then 1 else 2) + Utf16Length(s[1..])
  }

  /** JavaScript truthiness of an optional string: present and not empty. */
  predicate TruthyString(s: Option<string>) {
    s.Some? && s.value != ""
  }
}
