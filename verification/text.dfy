/**
  The string primitives the terminal relies on: JavaScript's `trim`,
  `toLowerCase`, `startsWith`, `endsWith` and `includes`, on strings of
  Unicode scalar values.
 */
module Text {

  /** The ECMAScript WhiteSpace and LineTerminator code points: exactly the
      characters `String.prototype.trim` strips and the regular-expression
      class `\s` matches. */
  predicate IsSpace(c: char) {
    || c == ' ' || c == '\t' || c == '\n' || c == '\r'
    || c == '\U{000B}' || c == '\U{000C}' || c == '\U{00A0}' || c == '\U{1680}'
    || ('\U{2000}' <= c <= '\U{200A}')
    || c == '\U{2028}' || c == '\U{2029}' || c == '\U{202F}' || c == '\U{205F}'
    || c == '\U{3000}' || c == '\U{FEFF}'
  }

  predicate AllSpace(s: string) {
    forall i :: 0 <= i < |s| ==> IsSpace(s[i])
  }

  predicate IsUpper(c: char) {
    'A' <= c <= 'Z'
  }

  /** Lower-cases one character; only the ASCII letters are mapped. */
  function LowerChar(c: char): char {
    if IsUpper(c) then (c as int + 32) as char else c
  }

  /** `toLowerCase`, restricted to ASCII letters: every character is mapped
      on its own and the length never changes. */
  function Lower(s: string): string {
    seq(|s|, i requires 0 <= i < |s| => LowerChar(s[i]))
  }

  /** Strips leading whitespace: the result is the suffix of `s` left after a
      run of whitespace, and it does not begin with whitespace itself. */
  function TrimStart(s: string): (r: string)
    ensures |r| <= |s| && r == s[|s| - |r|..]
    ensures AllSpace(s[..|s| - |r|])
    ensures |r| > 0 ==> !IsSpace(r[0])
  {
    if |s| > 0 && IsSpace(s[0]) then TrimStart(s[1..]) else s
  }

  /** Strips trailing whitespace: the result is the prefix of `s` before a
      run of whitespace, and it does not end with whitespace itself. */
  function TrimEnd(s: string): (r: string)
    ensures |r| <= |s| && r == s[..|r|]
    ensures AllSpace(s[|r|..])
    ensures |r| > 0 ==> !IsSpace(r[|r| - 1])
  {
    if |s| > 0 && IsSpace(s[|s| - 1]) then TrimEnd(s[..|s| - 1]) else s
  }

  /** `String.prototype.trim`. */
  function Trim(s: string): string {
    TrimEnd(TrimStart(s))
  }

  predicate StartsWith(s: string, p: string) {
    |p| <= |s| && s[..|p|] == p
  }

  predicate EndsWith(s: string, p: string) {
    |p| <= |s| && s[|s| - |p|..] == p
  }

  /** `p` occurs in `s` starting at index `i`. */
  predicate OccursAt(s: string, p: string, i: int) {
    0 <= i && i + |p| <= |s| && s[i..i + |p|] == p
  }

  /** `String.prototype.includes`. */
  predicate Contains(s: string, p: string) {
    exists i | 0 <= i <= |s| - |p| :: OccursAt(s, p, i)
  }

  /** A trimmed string never begins or ends with whitespace. */
  lemma TrimmedEnds(s: string)
    ensures |Trim(s)| > 0 ==> !IsSpace(Trim(s)[0]) && !IsSpace(Trim(s)[|Trim(s)| - 1])
  {
  }

  /** Whitespace padding on either side is exactly what `trim` removes. */
  lemma {:induction false} TrimPadded(pre: string, w: string, post: string)
    requires AllSpace(pre) && AllSpace(post)
    requires |w| > 0 && !IsSpace(w[0]) && !IsSpace(w[|w| - 1])
    ensures Trim(pre + w + post) == w
  {
    assert pre + w + post == pre + (w + post);
    TrimStartPadded(pre, w + post);
    TrimEndPadded(w, post);
  }

  lemma {:induction false} TrimStartPadded(pre: string, s: string)
    requires AllSpace(pre)
    requires |s| > 0 && !IsSpace(s[0])
    ensures TrimStart(pre + s) == s
  {
    if pre == [] {
      assert pre + s == s;
    } else {
      assert (pre + s)[1..] == pre[1..] + s;
      TrimStartPadded(pre[1..], s);
    }
  }

  lemma {:induction false} TrimEndPadded(s: string, post: string)
    requires AllSpace(post)
    requires |s| > 0 && !IsSpace(s[|s| - 1])
    ensures TrimEnd(s + post) == s
  {
    if post == [] {
      assert s + post == s;
    } else {
      var n := |post| - 1;
      assert (s + post)[..|s + post| - 1] == s + post[..n];
      TrimEndPadded(s, post[..n]);
    }
  }

  /** Lower-casing distributes over concatenation. */
  lemma LowerAppend(a: string, b: string)
    ensures Lower(a + b) == Lower(a) + Lower(b)
  {
    assert forall i :: 0 <= i < |a + b| ==> Lower(a + b)[i] == (Lower(a) + Lower(b))[i];
  }

  /** Lower-casing leaves whitespace untouched, character for character. */
  lemma LowerKeepsSpace(s: string)
    requires AllSpace(s)
    ensures Lower(s) == s
  {
    assert forall i :: 0 <= i < |s| ==> Lower(s)[i] == s[i];
  }

  /** Lower-casing commutes with taking a slice. */
  lemma LowerSlice(s: string, a: int, b: int)
    requires 0 <= a <= b <= |s|
    ensures Lower(s[a..b]) == Lower(s)[a..b]
  {
    var l, m := Lower(s), Lower(s[a..b]);
    assert forall i :: 0 <= i < b - a ==> m[i] == l[a..b][i];
  }

  /** Lower-casing makes whitespace only of whitespace. */
  lemma LowerCharSpace(c: char)
    ensures IsSpace(LowerChar(c)) ==> IsSpace(c)
  {
    if IsUpper(c) {
      assert 'a' <= LowerChar(c) <= 'z';
    }
  }

  /** A string whose lower case is all whitespace is all whitespace. */
  lemma SpaceBeforeLower(s: string)
    requires AllSpace(Lower(s))
    ensures AllSpace(s)
  {
    forall i | 0 <= i < |s|
      ensures IsSpace(s[i])
    {
      assert IsSpace(Lower(s)[i]);
      LowerCharSpace(s[i]);
    }
  }

  /** Cutting a suffix of `s` again at `k` cuts `s` at `a + k`. */
  lemma SuffixSlices(s: string, a: int, k: int)
    requires 0 <= a <= |s| && 0 <= k <= |s| - a
    ensures s[a..][..k] == s[a..a + k] && s[a..][k..] == s[a + k..]
  {
  }

  /** Where `trim` cuts a string: the whitespace it strips from the
      front, and the end of what it keeps. */
  lemma TrimCut(s: string) returns (a: int, b: int)
    ensures 0 <= a <= b <= |s|
    ensures AllSpace(s[..a]) && AllSpace(s[b..])
    ensures Trim(s) == s[a..b]
  {
    var t := TrimStart(s);
    a := |s| - |t|;
    var e := TrimEnd(t);
    b := a + |e|;
    SuffixSlices(s, a, |e|);
  }

  /** `trim` after lower-casing keeps a window of the original string,
      lower-cased, and strips only whitespace on either side of it. */
  lemma TrimLowerWindow(s: string)
    ensures exists a, b | 0 <= a <= b <= |s| ::
              AllSpace(s[..a]) && AllSpace(s[b..]) && Trim(Lower(s)) == Lower(s[a..b])
  {
    var l := Lower(s);
    var a, b := TrimCut(l);
    LowerSlice(s, 0, a);
    LowerSlice(s, b, |s|);
    LowerSlice(s, a, b);
    assert s[0..a] == s[..a] && s[b..|s|] == s[b..];
    assert l[0..a] == l[..a] && l[b..|s|] == l[b..];
    SpaceBeforeLower(s[..a]);
    SpaceBeforeLower(s[b..]);
  }

  /** A string that lacks some character of `p` cannot contain `p`. */
  lemma MissingCharNotContained(s: string, p: string, k: int)
    requires 0 <= k < |p|
    requires forall i :: 0 <= i < |s| ==> s[i] != p[k]
    ensures !Contains(s, p)
  {
    forall i | 0 <= i <= |s| - |p|
      ensures !OccursAt(s, p, i)
    {
      assert s[i..i + |p|][k] == s[i + k];
    }
  }
}
