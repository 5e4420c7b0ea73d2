/** The key patterns of the in-memory store's `keys`: the pattern becomes the
    regular expression `^` + pattern + `$` with every `*` replaced by `.*`. */
module Glob {
  import opened JsString

  /** Characters that would be regular-expression operators in the built
      RegExp; patterns are restricted to literal characters and `*`. */
  predicate IsRegExpSyntax(c: char) {
    c in "\\^$.|?+()[]{}"
  }

  /** A pattern whose only operator is `*`. */
  predicate IsGlob(p: string) {
    forall i :: 0 <= i < |p| ==> !IsRegExpSyntax(p[i])
  }

  predicate NoStar(p: string) {
    forall i :: 0 <= i < |p| ==> p[i] != '*'
  }

  predicate NoLineTerminator(s: string) {
    forall i :: 0 <= i < |s| ==> !IsLineTerminator(s[i])
  }

  /** The anchored match of the built RegExp: a literal character matches
      itself, and `*` (that is `.*`, without the `s` flag) matches any run of
      characters that are not line terminators. Without `*`, the anchors make
      a pattern match exactly itself. */
  predicate Matches(p: string, s: string): (r: bool)
    decreases |p| + |s|
    ensures NoStar(p) ==> (r <==> s == p)
  {
    if p == [] then s == []
    else if p[0] == '*' then
      Matches(p[1..], s) || (s != [] && !IsLineTerminator(s[0]) && Matches(p, s[1..]))
    else
      assert NoStar(p) ==> NoStar(p[1..]) by {
        if NoStar(p) {
          forall i | 0 <= i < |p[1..]| ensures p[1..][i] != '*' { assert p[1..][i] == p[i + 1]; }
        }
      }
      assert s != [] && s[0] == p[0] && s[1..] == p[1..] ==> s == p by {
        if s != [] && s[0] == p[0] && s[1..] == p[1..] {
          assert s == [s[0]] + s[1..] && p == [p[0]] + p[1..];
        }
      }
      s != [] && s[0] == p[0] && Matches(p[1..], s[1..])
  }

  /** `*` alone matches exactly the strings without line terminators. */
  lemma {:induction false} StarMatch(s: string)
    ensures Matches("*", s) <==> NoLineTerminator(s)
  {
    assert Matches("", s) <==> s == [];
    if s != [] {
      StarMatch(s[1..]);
      assert "*"[1..] == "";
      if NoLineTerminator(s) {
        assert NoLineTerminator(s[1..]) by {
          forall i | 0 <= i < |s[1..]| ensures !IsLineTerminator(s[1..][i]) {
            assert s[1..][i] == s[i + 1];
          }
        }
      }
      if Matches("*", s) {
        assert Matches("*", s[1..]) && !IsLineTerminator(s[0]);
        forall i | 0 <= i < |s| ensures !IsLineTerminator(s[i]) {
          if i > 0 { assert s[i] == s[1..][i - 1]; }
        }
      }
    }
  }

  /** A literal prefix followed by `*` (the store's `usage:*`, say) matches
      exactly the strings that begin with the prefix and continue without a
      line terminator. */
  lemma {:induction false} PrefixMatch(lit: string, s: string)
    requires NoStar(lit)
    ensures Matches(lit + "*", s) <==>
            |lit| <= |s| && s[..|lit|] == lit && NoLineTerminator(s[|lit|..])
  {
    if lit == [] {
      assert lit + "*" == "*";
      StarMatch(s);
      assert s[|lit|..] == s;
    } else {
      assert (lit + "*")[0] == lit[0] && (lit + "*")[1..] == lit[1..] + "*";
      if s != [] {
        PrefixMatch(lit[1..], s[1..]);
        if |lit| <= |s| && s[..|lit|] == lit {
          assert s[1..][..|lit| - 1] == s[..|lit|][1..];
          assert s[1..][|lit| - 1..] == s[|lit|..];
        }
        if Matches(lit + "*", s) {
          assert s[0] == lit[0];
          assert s[1..][|lit| - 1..] == s[|lit|..];
          assert s[..|lit|] == [s[0]] + s[1..][..|lit| - 1];
          assert lit == [lit[0]] + lit[1..];
        }
      }
    }
  }
}
