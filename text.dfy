/** ASCII string helpers with the meaning of Python's `str.strip()`,
    `str.upper()`, `str.lower()`, `str.startswith` and the `in` operator on
    strings, restricted to the ASCII range. The functions carry no
    postconditions of their own; what they compute is stated by the `...Spec`
    lemmas below, which a proof calls when it needs them. */
module AsciiText {

  /** Python's `str.isspace` on ASCII: space, \t \n \v \f \r and the four
      separators \x1c..\x1f. */
  predicate IsSpace(c: char) {
    c == ' ' || ('\t' <= c <= '\r') || ('\U{1C}' <= c <= '\U{1F}')
  }

  /** Every character of `s` is whitespace. */
  predicate AllSpace(s: string) {
    forall i :: 0 <= i < |s| ==> IsSpace(s[i])
  }

  /** The string neither begins nor ends with whitespace. */
  predicate Unpadded(s: string) {
    s == [] || (!IsSpace(s[0]) && !IsSpace(s[|s| - 1]))
  }

  /** `s` is `r` placed at offset `k` with only whitespace before and after it. */
  predicate PaddedAt(s: string, r: string, k: int) {
    0 <= k <= |s| - |r| && r == s[k..k + |r|]
    && (forall i :: 0 <= i < k ==> IsSpace(s[i]))
    && (forall i :: k + |r| <= i < |s| ==> IsSpace(s[i]))
  }

  /** Drops the leading whitespace. */
  function TrimStart(s: string): string
    decreases |s|
  {
    if s != [] && IsSpace(s[0]) then TrimStart(s[1..]) else s
  }

  /** Drops the trailing whitespace. */
  function TrimEnd(s: string): string
    decreases |s|
  {
    if s != [] && IsSpace(s[|s| - 1]) then TrimEnd(s[..|s| - 1]) else s
  }

  /** `s.strip()`. */
  function Trim(s: string): string {
    TrimEnd(TrimStart(s))
  }

  function UpperChar(c: char): char {
    if 'a' <= c <= 'z' then (c as int - 32) as char else c
  }

  function LowerChar(c: char): char {
    if 'A' <= c <= 'Z' then (c as int + 32) as char else c
  }

  /** `s.upper()`. */
  function Upper(s: string): string {
    if s == [] then [] else [UpperChar(s[0])] + Upper(s[1..])
  }

  /** `s.lower()`. */
  function Lower(s: string): string {
    if s == [] then [] else [LowerChar(s[0])] + Lower(s[1..])
  }

  /** `s.startswith(p)`. */
  predicate StartsWith(s: string, p: string) {
    |p| <= |s| && s[..|p|] == p
  }

  /** `p` occurs in `s` beginning at index `i`. */
  predicate OccursAt(s: string, p: string, i: int) {
    0 <= i && i + |p| <= |s| && s[i..i + |p|] == p
  }

  /** `p in s` for strings: `p` is a substring of `s`. */
  predicate Contains(s: string, p: string) {
    exists i | 0 <= i <= |s| - |p| :: OccursAt(s, p, i)
  }

  // ---------------------------------------------------------------
  // What the helpers compute
  // ---------------------------------------------------------------

  /** `TrimStart` keeps a suffix, drops only whitespace, and what it keeps
      does not begin with whitespace. */
  lemma {:induction false} TrimStartSpec(s: string)
    ensures |TrimStart(s)| <= |s| && TrimStart(s) == s[|s| - |TrimStart(s)|..]
    ensures forall i :: 0 <= i < |s| - |TrimStart(s)| ==> IsSpace(s[i])
    ensures TrimStart(s) != [] ==> !IsSpace(TrimStart(s)[0])
    decreases |s|
  {
    if s != [] && IsSpace(s[0]) {
      var t := s[1..];
      TrimStartSpec(t);
      forall i | 1 <= i < |s| - |TrimStart(s)| ensures IsSpace(s[i]) {
        assert s[i] == t[i - 1];
      }
    }
  }

  /** `TrimEnd` keeps a prefix, drops only whitespace, and what it keeps
      does not end with whitespace. */
  lemma {:induction false} TrimEndSpec(s: string)
    ensures |TrimEnd(s)| <= |s| && TrimEnd(s) == s[..|TrimEnd(s)|]
    ensures forall i :: |TrimEnd(s)| <= i < |s| ==> IsSpace(s[i])
    ensures TrimEnd(s) != [] ==> !IsSpace(TrimEnd(s)[|TrimEnd(s)| - 1])
    decreases |s|
  {
    if s != [] && IsSpace(s[|s| - 1]) {
      var t := s[..|s| - 1];
      TrimEndSpec(t);
      forall i | |TrimEnd(s)| <= i < |s| - 1 ensures IsSpace(s[i]) {
        assert s[i] == t[i];
      }
    }
  }

  /** `s.strip()` is the infix of `s` that starts after the leading
      whitespace, has no whitespace at either end and has only whitespace
      after it. */
  lemma TrimSpec(s: string)
    ensures Unpadded(Trim(s))
    ensures PaddedAt(s, Trim(s), |s| - |TrimStart(s)|)
  {
    TrimStartSpec(s);
    TrimEndSpec(TrimStart(s));
    PaddedCompose(s, TrimStart(s), Trim(s));
  }

  lemma PaddedCompose(s: string, t: string, r: string)
    requires |t| <= |s| && t == s[|s| - |t|..]
    requires forall i :: 0 <= i < |s| - |t| ==> IsSpace(s[i])
    requires |r| <= |t| && r == t[..|r|]
    requires forall i :: |r| <= i < |t| ==> IsSpace(t[i])
    ensures PaddedAt(s, r, |s| - |t|)
  {
    var k := |s| - |t|;
    assert r == s[k..k + |r|];
    forall i | k + |r| <= i < |s|
      ensures IsSpace(s[i])
    {
      assert s[i] == t[i - k];
    }
  }

  /** `Upper` maps every character through `UpperChar`. */
  lemma {:induction false} UpperSpec(s: string)
    ensures |Upper(s)| == |s|
    ensures forall i :: 0 <= i < |s| ==> Upper(s)[i] == UpperChar(s[i])
  {
    if s != [] {
      UpperSpec(s[1..]);
    }
  }

  /** `Lower` maps every character through `LowerChar`. */
  lemma {:induction false} LowerSpec(s: string)
    ensures |Lower(s)| == |s|
    ensures forall i :: 0 <= i < |s| ==> Lower(s)[i] == LowerChar(s[i])
  {
    if s != [] {
      LowerSpec(s[1..]);
    }
  }

  // ---------------------------------------------------------------
  // Stripping
  // ---------------------------------------------------------------

  /** Two unpadded strings that both sit in `s` with only whitespace around
      them are equal: the description `TrimSpec` gives fixes the result. */
  lemma PaddedUnique(s: string, r1: string, k1: int, r2: string, k2: int)
    requires PaddedAt(s, r1, k1) && Unpadded(r1)
    requires PaddedAt(s, r2, k2) && Unpadded(r2)
    ensures r1 == r2
  {
    if r1 != [] && r2 != [] {
      assert s[k1] == r1[0] && s[k2] == r2[0];
      assert k1 == k2;
      var e1, e2 := k1 + |r1| - 1, k2 + |r2| - 1;
      assert s[e1] == r1[|r1| - 1] && s[e2] == r2[|r2| - 1];
      assert e1 == e2;
    }
  }

  /** Stripping a string that is `t` padded with whitespace gives `t`. */
  lemma TrimOfPadded(w: string, t: string, k: int)
    requires PaddedAt(w, t, k) && Unpadded(t)
    ensures Trim(w) == t
  {
    TrimSpec(w);
    PaddedUnique(w, Trim(w), |w| - |TrimStart(w)|, t, k);
  }

  /** A string without surrounding whitespace is left as it is. */
  lemma TrimUnpadded(s: string)
    requires Unpadded(s)
    ensures Trim(s) == s
  {
    assert PaddedAt(s, s, 0);
    TrimOfPadded(s, s, 0);
  }

  /** Stripping twice strips no more than stripping once. */
  lemma TrimIdempotent(s: string)
    ensures Trim(Trim(s)) == Trim(s)
  {
    TrimSpec(s);
    TrimUnpadded(Trim(s));
  }

  /** Whitespace added around a string does not survive stripping. */
  lemma TrimIgnoresPadding(pre: string, s: string, post: string)
    requires AllSpace(pre) && AllSpace(post)
    ensures Trim(pre + s + post) == Trim(s)
  {
    var t := Trim(s);
    var k := |s| - |TrimStart(s)|;
    TrimSpec(s);
    PadBefore(pre, s, t, k);
    PadAfter(pre + s, post, t, |pre| + k);
    TrimOfPadded(pre + s + post, t, |pre| + k);
  }

  lemma PadBefore(pre: string, s: string, t: string, k: int)
    requires AllSpace(pre) && PaddedAt(s, t, k)
    ensures PaddedAt(pre + s, t, |pre| + k)
  {
    var w := pre + s;
    assert w[|pre| + k..|pre| + k + |t|] == s[k..k + |t|];
    forall i | 0 <= i < |pre| + k ensures IsSpace(w[i]) {
      if i >= |pre| { assert w[i] == s[i - |pre|]; }
    }
    forall i | |pre| + k + |t| <= i < |w| ensures IsSpace(w[i]) {
      assert w[i] == s[i - |pre|];
    }
  }

  lemma PadAfter(s: string, post: string, t: string, k: int)
    requires AllSpace(post) && PaddedAt(s, t, k)
    ensures PaddedAt(s + post, t, k)
  {
    var w := s + post;
    assert w[k..k + |t|] == s[k..k + |t|];
    forall i | k + |t| <= i < |w| ensures IsSpace(w[i]) {
      if i >= |s| { assert w[i] == post[i - |s|]; }
    }
  }

  // ---------------------------------------------------------------
  // Case mapping
  // ---------------------------------------------------------------

  /** Case mapping never turns whitespace into something else or back. */
  lemma CaseKeepsSpace(c: char)
    ensures IsSpace(UpperChar(c)) == IsSpace(c)
    ensures IsSpace(LowerChar(c)) == IsSpace(c)
  {
  }

  /** A string without capitals is its own lower-case form. */
  lemma LowerNoCapitals(s: string)
    requires forall i :: 0 <= i < |s| ==> !('A' <= s[i] <= 'Z')
    ensures Lower(s) == s
  {
    LowerSpec(s);
  }

  /** Upper-casing forgets whether a letter was lower-cased first. */
  lemma UpperOfLower(s: string)
    ensures Upper(Lower(s)) == Upper(s)
  {
    LowerSpec(s);
    UpperSpec(s);
    UpperSpec(Lower(s));
  }

  /** Lower-casing forgets whether a letter was upper-cased first. */
  lemma LowerOfUpper(s: string)
    ensures Lower(Upper(s)) == Lower(s)
  {
    UpperSpec(s);
    LowerSpec(s);
    LowerSpec(Upper(s));
  }

  /** Lower-casing works character by character, so it distributes over
      concatenation and leaves whitespace whitespace. */
  lemma LowerConcat(pre: string, s: string, post: string)
    ensures Lower(pre + s + post) == Lower(pre) + Lower(s) + Lower(post)
    ensures AllSpace(pre) ==> AllSpace(Lower(pre))
    ensures AllSpace(post) ==> AllSpace(Lower(post))
  {
    var w := pre + s + post;
    LowerSpec(w);
    LowerSpec(pre);
    LowerSpec(s);
    LowerSpec(post);
    var a, b := Lower(w), Lower(pre) + Lower(s) + Lower(post);
    forall i | 0 <= i < |w| ensures a[i] == b[i] {
      if i < |pre| {
        assert w[i] == pre[i];
      } else if i < |pre| + |s| {
        assert w[i] == s[i - |pre|];
      } else {
        assert w[i] == post[i - |pre| - |s|];
      }
    }
    forall i | 0 <= i < |pre| ensures IsSpace(Lower(pre)[i]) == IsSpace(pre[i]) {
      CaseKeepsSpace(pre[i]);
    }
    forall i | 0 <= i < |post| ensures IsSpace(Lower(post)[i]) == IsSpace(post[i]) {
      CaseKeepsSpace(post[i]);
    }
  }

  /** A string `m` that maps `s` character by character while keeping
      whitespace keeps `t`'s padding at offset `k`. */
  lemma MappedPadded(s: string, t: string, k: int, m: string, mt: string)
    requires PaddedAt(s, t, k) && Unpadded(t)
    requires |m| == |s| && |mt| == |t|
    requires forall i :: 0 <= i < |s| ==> IsSpace(m[i]) == IsSpace(s[i])
    requires forall i :: 0 <= i < |t| ==> mt[i] == m[k + i]
    ensures PaddedAt(m, mt, k) && Unpadded(mt)
  {
    assert mt == m[k..k + |t|];
    if t != [] {
      assert s[k] == t[0] && s[k + |t| - 1] == t[|t| - 1];
    }
  }

  /** `Upper` keeps whitespace where it is and `t` at offset `k`. */
  lemma UpperPadded(s: string, t: string, k: int)
    requires PaddedAt(s, t, k) && Unpadded(t)
    ensures PaddedAt(Upper(s), Upper(t), k) && Unpadded(Upper(t))
  {
    UpperSpec(s);
    UpperSpec(t);
    var u, v := Upper(s), Upper(t);
    forall i | 0 <= i < |s| ensures IsSpace(u[i]) == IsSpace(s[i]) {
      CaseKeepsSpace(s[i]);
    }
    forall i | 0 <= i < |t| ensures v[i] == u[k + i] {
      assert t[i] == s[k + i];
    }
    MappedPadded(s, t, k, u, v);
  }

  /** `Lower` keeps whitespace where it is and `t` at offset `k`. */
  lemma LowerPadded(s: string, t: string, k: int)
    requires PaddedAt(s, t, k) && Unpadded(t)
    ensures PaddedAt(Lower(s), Lower(t), k) && Unpadded(Lower(t))
  {
    LowerSpec(s);
    LowerSpec(t);
    var u, v := Lower(s), Lower(t);
    forall i | 0 <= i < |s| ensures IsSpace(u[i]) == IsSpace(s[i]) {
      CaseKeepsSpace(s[i]);
    }
    forall i | 0 <= i < |t| ensures v[i] == u[k + i] {
      assert t[i] == s[k + i];
    }
    MappedPadded(s, t, k, u, v);
  }

  /** Stripping before or after upper-casing gives the same string. */
  lemma UpperTrimCommute(s: string)
    ensures Upper(Trim(s)) == Trim(Upper(s))
  {
    var t, k := Trim(s), |s| - |TrimStart(s)|;
    TrimSpec(s);
    UpperPadded(s, t, k);
    TrimOfPadded(Upper(s), Upper(t), k);
  }

  /** Stripping before or after lower-casing gives the same string. */
  lemma LowerTrimCommute(s: string)
    ensures Lower(Trim(s)) == Trim(Lower(s))
  {
    var t, k := Trim(s), |s| - |TrimStart(s)|;
    TrimSpec(s);
    LowerPadded(s, t, k);
    TrimOfPadded(Lower(s), Lower(t), k);
  }

}
