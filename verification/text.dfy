/**
 * String primitives shared by the two scripts: JavaScript's notion of white
 * space (used by String.prototype.trim and by the regular-expression class \s),
 * substring and prefix tests, and ASCII case folding.
 */
module Text {

  /** ECMAScript WhiteSpace and LineTerminator code points: the set removed by
      trim() and matched by \s. */
  predicate IsJsSpace(c: char) {
    || c == '\t' || c == '\n' || c == '\U{000B}' || c == '\U{000C}' || c == '\r'
    || c == ' ' || c == '\U{00A0}' || c == '\U{1680}'
    || ('\U{2000}' <= c <= '\U{200A}')
    || c == '\U{2028}' || c == '\U{2029}' || c == '\U{202F}' || c == '\U{205F}'
    || c == '\U{3000}' || c == '\U{FEFF}'
  }

  /** \d: the ASCII digits only. */
  predicate IsDigit(c: char) { '0' <= c <= '9' }

  /** \w outside unicode mode: ASCII letters, digits and underscore. */
  predicate IsWordChar(c: char) {
    ('a' <= c <= 'z') || ('A' <= c <= 'Z') || IsDigit(c) || c == '_'
  }

  /** Case folding as a case-insensitive regular expression without the u flag
      applies it to ASCII patterns: only A-Z fold (to a-z). */
  function AsciiLower(c: char): (d: char)
    ensures 'A' <= c <= 'Z' ==> 'a' <= d <= 'z' && d as int == c as int + 32
    ensures !('A' <= c <= 'Z') ==> d == c
  {
    if 'A' <= c <= 'Z' then (c as int + 32) as char else c
  }

  /** `sub` occurs in `s` starting at index `i`. */
  predicate OccursAt(s: string, sub: string, i: nat) {
    i + |sub| <= |s| && s[i..i + |sub|] == sub
  }

  /** String.prototype.includes */
  predicate Contains(s: string, sub: string) {
    exists i: nat | i <= |s| :: OccursAt(s, sub, i)
  }

  /** String.prototype.startsWith */
  predicate StartsWith(s: string, prefix: string) {
    |prefix| <= |s| && s[..|prefix|] == prefix
  }

  lemma ContainsInside(a: string, sub: string, b: string)
    ensures Contains(a + sub + b, sub)
  {
    var s := a + sub + b;
    assert s[|a|..|a| + |sub|] == sub;
    assert OccursAt(s, sub, |a|);
  }

  /** A string cannot start with a prefix whose first character differs from its own. */
  lemma NotStartsWithOtherHead(s: string, prefix: string)
    requires s != [] && prefix != [] && s[0] != prefix[0]
    ensures !StartsWith(s, prefix)
  {
  }

  /** The leading white space is dropped and nothing else. */
  function TrimStart(s: string): (r: string)
    ensures |r| <= |s| && r == s[|s| - |r|..]
    ensures forall k :: 0 <= k < |s| - |r| ==> IsJsSpace(s[k])
    ensures r != [] ==> !IsJsSpace(r[0])
    decreases |s|
  {
    if s != [] && IsJsSpace(s[0]) then TrimStart(s[1..]) else s
  }

  /** The trailing white space is dropped and nothing else. */
  function TrimEnd(s: string): (r: string)
    ensures |r| <= |s| && r == s[..|r|]
    ensures forall k :: |r| <= k < |s| ==> IsJsSpace(s[k])
    ensures r != [] ==> !IsJsSpace(r[|r| - 1])
    decreases |s|
  {
    if s != [] && IsJsSpace(s[|s| - 1]) then TrimEnd(s[..|s| - 1]) else s
  }

  /** `r` occurs in `s` at index d, and every character of `s` outside it is white space. */
  predicate OnlySpaceAround(s: string, r: string, d: nat) {
    && OccursAt(s, r, d)
    && forall k :: 0 <= k < |s| && !(d <= k < d + |r|) ==> IsJsSpace(s[k])
  }

  /** String.prototype.trim: a contiguous piece of the input that neither begins
      nor ends with white space, empty exactly when the input is all white space. */
  function Trim(s: string): (r: string)
    ensures exists d: nat :: OnlySpaceAround(s, r, d)
    ensures r != [] ==> !IsJsSpace(r[0]) && !IsJsSpace(r[|r| - 1])
    ensures r == [] <==> forall k :: 0 <= k < |s| ==> IsJsSpace(s[k])
  {
    TrimIsSlice(s);
    TrimEmptyIffBlank(s);
    TrimEnd(TrimStart(s))
  }

  lemma TrimIsSlice(s: string)
    ensures exists d: nat :: OnlySpaceAround(s, TrimEnd(TrimStart(s)), d)
  {
    var t := TrimStart(s);
    var r := TrimEnd(t);
    var d := |s| - |t|;
    assert t == s[d..];
    assert r == t[..|r|];
    SliceOfSuffix(s, d, |r|);
    forall k | 0 <= k < |s| && !(d <= k < d + |r|) ensures IsJsSpace(s[k]) {
      if k >= d + |r| {
        assert s[k] == t[k - d];
      }
    }
    assert OnlySpaceAround(s, r, d);
  }

  lemma SliceOfSuffix(s: string, d: nat, n: nat)
    requires d + n <= |s|
    ensures s[d..][..n] == s[d..d + n]
  {
  }

  lemma TrimEmptyIffBlank(s: string)
    ensures TrimEnd(TrimStart(s)) == [] <==> forall k :: 0 <= k < |s| ==> IsJsSpace(s[k])
  {
    var t := TrimStart(s);
    var r := TrimEnd(t);
    var d := |s| - |t|;
    if r == [] {
      forall k | 0 <= k < |s| ensures IsJsSpace(s[k]) {
        if k >= d {
          assert s[k] == t[k - d];
        }
      }
    } else {
      assert r[0] == t[0] == s[d];
    }
  }
}
