/**
 * ECMAScript's `String.prototype.trim`, which the `/define` handler applies to
 * the `word` query before anything else. `trim` removes, from both ends, every
 * code point that ECMAScript classes as WhiteSpace or LineTerminator.
 */
module JsString {

  /** ECMAScript WhiteSpace (TAB, VT, FF, SP, NBSP, ZWNBSP and the other
      Unicode space separators) and LineTerminator (LF, CR, LS, PS). */
  const Whitespace: set<char> := {
    '\t', '\n', '\U{000B}', '\U{000C}', '\r', ' ', '\U{00A0}', '\U{1680}',
    '\U{2000}', '\U{2001}', '\U{2002}', '\U{2003}', '\U{2004}', '\U{2005}',
    '\U{2006}', '\U{2007}', '\U{2008}', '\U{2009}', '\U{200A}',
    '\U{2028}', '\U{2029}', '\U{202F}', '\U{205F}', '\U{3000}', '\U{FEFF}'
  }

  predicate IsWhitespace(c: char) {
    c in Whitespace
  }

  /** Every code point of `s` is whitespace. */
  predicate AllWhitespace(s: string) {
    s == [] || (IsWhitespace(s[0]) && AllWhitespace(s[1..]))
  }

  /** Each code point of an all-whitespace string is whitespace. */
  lemma {:induction false} AllWhitespaceAt(s: string, i: int)
    requires AllWhitespace(s) && 0 <= i < |s|
    ensures IsWhitespace(s[i])
  {
    if i > 0 {
      AllWhitespaceAt(s[1..], i - 1);
    }
  }

  /** A concatenation is all whitespace exactly when both parts are. */
  lemma {:induction false} AllWhitespaceConcat(a: string, b: string)
    ensures AllWhitespace(a + b) <==> AllWhitespace(a) && AllWhitespace(b)
  {
    if a != [] {
      assert (a + b)[1..] == a[1..] + b;
      AllWhitespaceConcat(a[1..], b);
    } else {
      assert a + b == b;
    }
  }

  /** `r` is `s` with the whitespace-only prefix `s[..k]` and a whitespace-only
      suffix taken off. */
  ghost predicate Strips(s: string, r: string, k: int) {
    && 0 <= k && k + |r| <= |s|
    && s[k..k + |r|] == r
    && AllWhitespace(s[..k])
    && AllWhitespace(s[k + |r|..])
  }

  /** No whitespace at either end. */
  predicate Tight(r: string) {
    r == [] || (!IsWhitespace(r[0]) && !IsWhitespace(r[|r| - 1]))
  }

  /** Extending a whitespace prefix by one whitespace code point in front. */
  lemma WhitespacePrefixGrows(s: string, n: int)
    requires 1 <= n <= |s| && IsWhitespace(s[0]) && AllWhitespace(s[1..][..n - 1])
    ensures AllWhitespace(s[..n])
  {
    assert s[..n][1..] == s[1..][..n - 1];
  }

  /** Extending a whitespace suffix by one whitespace code point at the end. */
  lemma WhitespaceSuffixGrows(s: string, n: int)
    requires 1 <= n <= |s| && IsWhitespace(s[|s| - 1]) && AllWhitespace(s[..|s| - 1][|s| - n..])
    ensures AllWhitespace(s[|s| - n..])
  {
    assert s[|s| - n..] == s[..|s| - 1][|s| - n..] + [s[|s| - 1]];
    AllWhitespaceConcat(s[..|s| - 1][|s| - n..], [s[|s| - 1]]);
  }

  lemma WhitespaceInPrefix(s: string, k: int, i: int)
    requires 0 <= i < k <= |s| && AllWhitespace(s[..k])
    ensures IsWhitespace(s[i])
  {
    AllWhitespaceAt(s[..k], i);
  }

  lemma WhitespaceInSuffix(s: string, e: int, i: int)
    requires 0 <= e <= i < |s| && AllWhitespace(s[e..])
    ensures IsWhitespace(s[i])
  {
    AllWhitespaceAt(s[e..], i - e);
  }

  /** The number of whitespace code points `trim` drops at the front: they
      are all whitespace, and the next one, if any, is not. */
  function LeadingWhitespace(s: string): (n: nat)
    ensures n <= |s| && AllWhitespace(s[..n])
    ensures n < |s| ==> !IsWhitespace(s[n])
  {
    if s != [] && IsWhitespace(s[0]) then
      var m := LeadingWhitespace(s[1..]);
      WhitespacePrefixGrows(s, m + 1);
      m + 1
    else
      assert s[..0] == [];
      0
  }

  /** The number of whitespace code points `trim` drops at the end: they are
      all whitespace, and the one before them, if any, is not. */
  function TrailingWhitespace(s: string): (n: nat)
    ensures n <= |s| && AllWhitespace(s[|s| - n..])
    ensures n < |s| ==> !IsWhitespace(s[|s| - n - 1])
  {
    if s != [] && IsWhitespace(s[|s| - 1]) then
      var m := TrailingWhitespace(s[..|s| - 1]);
      WhitespaceSuffixGrows(s, m + 1);
      m + 1
    else
      assert s[|s|..] == [];
      0
  }

  /** `trim`: the result is `s` without a whitespace prefix and suffix, has no
      whitespace at either end, and is empty exactly when `s` is all whitespace. */
  function Trim(s: string): (r: string)
    ensures exists k :: Strips(s, r, k)
    ensures Tight(r)
    ensures r == [] <==> AllWhitespace(s)
  {
    var a := LeadingWhitespace(s);
    var e := |s| - TrailingWhitespace(s);
    if e <= a then
      assert a == |s| by {
        if a < |s| {
          assert e <= a < |s|;
          WhitespaceInSuffix(s, e, a);
        }
      }
      assert s[..a] == s;
      assert s[a..a + 0] == [] && s[a + 0..] == [];
      assert Strips(s, [], a);
      []
    else
      var r := s[a..e];
      assert s[a..a + |r|] == r;
      assert Strips(s, r, a);
      assert !AllWhitespace(s) by {
        if AllWhitespace(s) { AllWhitespaceAt(s, a); }
      }
      r
  }

  /** Two strippings of `s` with no whitespace at their ends, one of them
      non-empty, are the same. */
  lemma TightStripsAgree(s: string, t: string, k: int, r: string, j: int)
    requires Strips(s, t, k) && Tight(t) && t != []
    requires Strips(s, r, j) && Tight(r) && r != []
    ensures t == r
  {
    assert s[k] == t[0] && s[j] == r[0];
    if j < k { WhitespaceInPrefix(s, k, j); }
    if k < j { WhitespaceInPrefix(s, j, k); }
    assert s[k + |t| - 1] == t[|t| - 1] && s[k + |r| - 1] == r[|r| - 1];
    if |t| < |r| { WhitespaceInSuffix(s, k + |t|, k + |r| - 1); }
    if |r| < |t| { WhitespaceInSuffix(s, k + |r|, k + |t| - 1); }
  }

  /** Trim is the only stripping of `s` with no whitespace left at its ends. */
  lemma TrimUnique(s: string, t: string, k: int)
    requires Strips(s, t, k) && Tight(t)
    ensures t == Trim(s)
  {
    var r := Trim(s);
    var j :| Strips(s, r, j);
    if t == [] {
      assert s == s[..k] + s[k..];
      AllWhitespaceConcat(s[..k], s[k..]);
    } else {
      assert s[k] == t[0];
      if AllWhitespace(s) {
        AllWhitespaceAt(s, k);
      }
      TightStripsAgree(s, t, k, r, j);
    }
  }

  /** Trimming twice is trimming once. */
  lemma TrimIdempotent(s: string)
    ensures Trim(Trim(s)) == Trim(s)
  {
    var r := Trim(s);
    assert r[0..0 + |r|] == r;
    assert Strips(r, r, 0);
    TrimUnique(r, r, 0);
  }
}
