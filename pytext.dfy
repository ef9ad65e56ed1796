/**
 * The few Python string operations the backend relies on: `str.isspace`, `str.strip()`
 * without arguments, `str.replace(c, "")` for a single character, and `"\n".join`.
 */
module PyText {

  /** Python's `str.isspace()` on one character: what `str.strip()` removes when given no argument. */
  predicate IsSpace(c: char) {
    || ('\t' <= c <= '\r') || ('\U{1C}' <= c <= '\U{1F}') || c == ' ' || c == '\U{85}' || c == '\U{A0}'
    || c == '\U{1680}' || ('\U{2000}' <= c <= '\U{200A}') || c == '\U{2028}' || c == '\U{2029}'
    || c == '\U{202F}' || c == '\U{205F}' || c == '\U{3000}'
  }

  predicate AllSpace(s: string) {
    forall i :: 0 <= i < |s| ==> IsSpace(s[i])
  }

  /** Neither end of `s` is white space, which is what `str.strip()` leaves behind. */
  predicate Stripped(s: string) {
    s == [] || (!IsSpace(s[0]) && !IsSpace(s[|s| - 1]))
  }

  predicate Lacks(s: string, c: char) {
    forall i :: 0 <= i < |s| ==> s[i] != c
  }

  /** Where the run of white space that starts at index `i` of `s` ends. */
  function SpacesFrom(s: string, i: nat): (r: nat)
    requires i <= |s|
    ensures i <= r <= |s|
    ensures forall k :: i <= k < r ==> IsSpace(s[k])
    ensures r < |s| ==> !IsSpace(s[r])
    decreases |s| - i
  {
    if i < |s| && IsSpace(s[i]) then SpacesFrom(s, i + 1) else i
  }

  /** Where the run of white space that ends just before index `j` of `s` starts. */
  function SpacesBefore(s: string, j: nat): (r: nat)
    requires j <= |s|
    ensures r <= j
    ensures forall k :: r <= k < j ==> IsSpace(s[k])
    ensures r > 0 ==> !IsSpace(s[r - 1])
  {
    if j > 0 && IsSpace(s[j - 1]) then SpacesBefore(s, j - 1) else j
  }

  /** How many white-space characters `s` starts with. */
  function LeadingSpaces(s: string): (n: nat)
    ensures n <= |s|
    ensures forall k :: 0 <= k < n ==> IsSpace(s[k])
    ensures n < |s| ==> !IsSpace(s[n])
  {
    SpacesFrom(s, 0)
  }

  /** How many white-space characters `s` ends with. */
  function TrailingSpaces(s: string): (n: nat)
    ensures n <= |s|
    ensures forall k :: |s| - n <= k < |s| ==> IsSpace(s[k])
    ensures n < |s| ==> !IsSpace(s[|s| - 1 - n])
  {
    |s| - SpacesBefore(s, |s|)
  }

  lemma {:induction false} SpacesFromUnique(s: string, i: nat, n: nat)
    requires i <= n <= |s| && (forall k :: i <= k < n ==> IsSpace(s[k])) && (n < |s| ==> !IsSpace(s[n]))
    ensures SpacesFrom(s, i) == n
    decreases n - i
  {
    if i < n {
      SpacesFromUnique(s, i + 1, n);
    }
  }

  lemma {:induction false} SpacesBeforeUnique(s: string, j: nat, n: nat)
    requires n <= j <= |s| && (forall k :: n <= k < j ==> IsSpace(s[k])) && (n > 0 ==> !IsSpace(s[n - 1]))
    ensures SpacesBefore(s, j) == n
    decreases j - n
  {
    if n < j {
      SpacesBeforeUnique(s, j - 1, n);
    }
  }

  /** The leading white space of `s` is determined by its characters alone. */
  lemma LeadingSpacesUnique(s: string, n: nat)
    requires n <= |s| && (forall k :: 0 <= k < n ==> IsSpace(s[k])) && (n < |s| ==> !IsSpace(s[n]))
    ensures LeadingSpaces(s) == n
  {
    SpacesFromUnique(s, 0, n);
  }

  lemma TrailingSpacesUnique(s: string, n: nat)
    requires n <= |s| && (forall k :: |s| - n <= k < |s| ==> IsSpace(s[k]))
    requires n < |s| ==> !IsSpace(s[|s| - 1 - n])
    ensures TrailingSpaces(s) == n
  {
    SpacesBeforeUnique(s, |s|, |s| - n);
  }

  /** `str.lstrip()`. */
  function TrimStart(s: string): (r: string)
    ensures |r| <= |s| && r == s[|s| - |r|..]
    ensures r == [] || !IsSpace(r[0])
    ensures forall k :: 0 <= k < |s| - |r| ==> IsSpace(s[k])
  {
    s[LeadingSpaces(s)..]
  }

  /** `str.rstrip()`. */
  function TrimEnd(s: string): (r: string)
    ensures |r| <= |s| && r == s[..|r|]
    ensures r == [] || !IsSpace(r[|r| - 1])
    ensures forall k :: |r| <= k < |s| ==> IsSpace(s[k])
  {
    s[..|s| - TrailingSpaces(s)]
  }

  /** `s` has `a` leading and `b` trailing white-space characters around some text. */
  predicate Framed(s: string, a: nat, b: nat) {
    && a + b < |s|
    && (forall k :: 0 <= k < a ==> IsSpace(s[k]))
    && (forall k :: |s| - b <= k < |s| ==> IsSpace(s[k]))
    && !IsSpace(s[a]) && !IsSpace(s[|s| - 1 - b])
  }

  /** A string with some text is framed by its own leading and trailing white space. */
  lemma FramedByOwnSpaces(s: string)
    requires !AllSpace(s)
    ensures Framed(s, LeadingSpaces(s), TrailingSpaces(s))
  {
    var a := LeadingSpaces(s);
    var b := TrailingSpaces(s);
    assert a < |s| && b < |s|;
  }

  /** `str.strip()`: `s` without its leading and trailing white space. */
  function Strip(s: string): (r: string)
    ensures Stripped(r)
    ensures r == [] <==> AllSpace(s)
  {
    var a := LeadingSpaces(s);
    if a == |s| then []
    else
      assert !AllSpace(s) by { assert !IsSpace(s[a]); }
      FramedByOwnSpaces(s);
      s[a..|s| - TrailingSpaces(s)]
  }

  /** A framed string strips to what lies between its frames. */
  lemma StripFramed(s: string, a: nat, b: nat)
    requires Framed(s, a, b)
    ensures Strip(s) == s[a..|s| - b]
  {
    LeadingSpacesUnique(s, a);
    TrailingSpacesUnique(s, b);
  }

  /** What `Strip(s)` keeps is the part of `s` after its leading white space. */
  lemma StripChars(s: string)
    ensures LeadingSpaces(s) + |Strip(s)| <= |s|
    ensures forall k :: 0 <= k < |Strip(s)| ==> Strip(s)[k] == s[LeadingSpaces(s) + k]
  {
    if !AllSpace(s) {
      var a := LeadingSpaces(s);
      var t := s[a..|s| - TrailingSpaces(s)];
      assert Strip(s) == t;
      assert forall k :: 0 <= k < |t| ==> t[k] == s[a + k];
    }
  }

  /** `s.replace(c, "")`: `s` with every occurrence of the character `c` taken out. */
  function Without(s: string, c: char): (r: string)
    ensures Lacks(r, c)
    ensures |r| <= |s|
    ensures Lacks(s, c) ==> r == s
  {
    if s == [] then []
    else if s[0] == c then Without(s[1..], c)
    else [s[0]] + Without(s[1..], c)
  }

  /** Removing `c` from a single character keeps it exactly when it is not `c`. */
  lemma WithoutChar(x: char, c: char)
    ensures Without([x], c) == if x == c then [] else [x]
  {
    assert [x][1..] == [];
  }

  /** Removing `c` from two pieces of text is removing it from each, in order. */
  lemma {:induction false} WithoutAppend(a: string, b: string, c: char)
    ensures Without(a + b, c) == Without(a, c) + Without(b, c)
    decreases |a|
  {
    if a == [] {
      assert a + b == b;
    } else {
      assert (a + b)[0] == a[0];
      assert (a + b)[1..] == a[1..] + b;
      WithoutAppend(a[1..], b, c);
    }
  }

  /** `"\n".join(chunks)`. */
  function JoinLines(chunks: seq<string>): (r: string)
    ensures chunks == [] ==> r == []
    ensures chunks != [] ==> |chunks[0]| <= |r| && r[..|chunks[0]|] == chunks[0]
    ensures |chunks| >= 2 ==> |chunks[0]| < |r| && r[|chunks[0]|] == '\n'
  {
    if chunks == [] then []
    else if |chunks| == 1 then chunks[0]
    else chunks[0] + "\n" + JoinLines(chunks[1..])
  }

  /** Joining one more chunk adds it at the end, after a newline unless it is the only chunk. */
  lemma {:induction false} JoinSnoc(chunks: seq<string>, x: string)
    ensures JoinLines(chunks + [x]) == if chunks == [] then x else JoinLines(chunks) + "\n" + x
    decreases |chunks|
  {
    var all := chunks + [x];
    if chunks == [] {
      assert all == [x];
      return;
    }
    assert all[0] == chunks[0];
    if |chunks| == 1 {
      assert all[1..] == [x];
    } else {
      assert all[1..] == chunks[1..] + [x];
      JoinSnoc(chunks[1..], x);
    }
  }

  /** A string that is already stripped is its own strip. */
  lemma StrippedIsFixed(s: string)
    requires Stripped(s)
    ensures Strip(s) == s
  {
    if s != [] {
      StripFramed(s, 0, 0);
    }
  }

  /** `str.strip()` is idempotent, so stripping twice never changes a length check. */
  lemma StripIdempotent(s: string)
    ensures Strip(Strip(s)) == Strip(s)
  {
    StrippedIsFixed(Strip(s));
  }

  /** Padding only white space onto a string with text keeps its frames, shifted outwards. */
  lemma PaddedFramed(pre: string, s: string, post: string, a: nat, b: nat)
    requires AllSpace(pre) && AllSpace(post) && Framed(s, a, b)
    ensures Framed(pre + s + post, |pre| + a, b + |post|)
  {
    var x := pre + s + post;
    forall k | 0 <= k < |pre| + a ensures IsSpace(x[k]) {
      if k < |pre| { assert x[k] == pre[k]; } else { assert x[k] == s[k - |pre|]; }
    }
    forall k | |x| - (b + |post|) <= k < |x| ensures IsSpace(x[k]) {
      if k < |pre| + |s| { assert x[k] == s[k - |pre|]; } else { assert x[k] == post[k - |pre| - |s|]; }
    }
    assert x[|pre| + a] == s[a];
    assert x[|x| - 1 - (b + |post|)] == s[|s| - 1 - b];
  }

  /** Padding only white space onto white space gives white space. */
  lemma PaddedAllSpace(pre: string, s: string, post: string)
    requires AllSpace(pre) && AllSpace(s) && AllSpace(post)
    ensures AllSpace(pre + s + post)
  {
    var x := pre + s + post;
    forall k | 0 <= k < |x| ensures IsSpace(x[k]) {
      if k < |pre| { assert x[k] == pre[k]; }
      else if k < |pre| + |s| { assert x[k] == s[k - |pre|]; }
      else { assert x[k] == post[k - |pre| - |s|]; }
    }
  }

  /** Cutting inside the middle part of a concatenation cuts that part. */
  lemma MiddleSlice(pre: string, s: string, post: string, i: nat, j: nat)
    requires i <= j <= |s|
    ensures (pre + s + post)[|pre| + i..|pre| + j] == s[i..j]
  {
    var x := pre + s + post;
    assert forall k :: 0 <= k < j - i ==> x[|pre| + i..|pre| + j][k] == s[i..j][k];
  }

  /** Two framed strings with the same text between their frames strip alike. */
  lemma SameMiddleSameStrip(x: string, c: nat, d: nat, s: string, a: nat, b: nat)
    requires Framed(x, c, d) && Framed(s, a, b)
    requires x[c..|x| - d] == s[a..|s| - b]
    ensures Strip(x) == Strip(s)
  {
    StripFramed(x, c, d);
    StripFramed(s, a, b);
  }

  /** White space added on either side of a string does not change its strip. */
  lemma StripPadded(pre: string, s: string, post: string)
    requires AllSpace(pre) && AllSpace(post)
    ensures Strip(pre + s + post) == Strip(s)
  {
    if AllSpace(s) {
      PaddedAllSpace(pre, s, post);
    } else {
      var a := LeadingSpaces(s);
      var b := TrailingSpaces(s);
      FramedByOwnSpaces(s);
      PaddedFramed(pre, s, post, a, b);
      MiddleSlice(pre, s, post, a, |s| - b);
      SameMiddleSameStrip(pre + s + post, |pre| + a, b + |post|, s, a, b);
    }
  }

  /** Stripping text around a middle part with non-space ends only trims the outer parts. */
  lemma StripAround(pre: string, mid: string, post: string)
    requires mid != [] && Stripped(mid)
    ensures Strip(pre + mid + post) == TrimStart(pre) + mid + TrimEnd(post)
  {
    var a := LeadingSpaces(pre);
    var b := |post| - TrailingSpaces(post);
    var z := pre[a..] + mid + post[..b];
    assert pre + mid + post == pre[..a] + z + post[b..];
    assert z[0] == if a < |pre| then pre[a] else mid[0];
    assert z[|z| - 1] == if b > 0 then post[b - 1] else mid[|mid| - 1];
    StripPadded(pre[..a], z, post[b..]);
    StrippedIsFixed(z);
  }
}
