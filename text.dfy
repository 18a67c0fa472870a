/** The parts of Python's `str` behaviour the service relies on: whitespace and
    word characters as Python's Unicode tables classify them (restricted to
    Latin-1, see README), `strip`, `lower`, `in`, `join`, `replace`, `endswith`
    and prefix slicing `s[:k]` with a possibly negative `k`. */
module Text {

  /** `str.isspace()`, which is also what `\s` matches in a `str` pattern. */
  predicate IsSpace(c: char) {
    c == ' ' || ('\t' <= c <= '\r') || ('\U{1C}' <= c <= '\U{1F}')
    || c == '\U{85}' || c == '\U{A0}' || c == '\U{1680}'
    || ('\U{2000}' <= c <= '\U{200A}') || c == '\U{2028}' || c == '\U{2029}'
    || c == '\U{202F}' || c == '\U{205F}' || c == '\U{3000}'
  }

  /** ASCII decimal digit (what `\d` matches, restricted to ASCII). */
  predicate IsDigit(c: char) {
    '0' <= c <= '9'
  }

  /** ASCII letter, the `[A-Za-z]` class. */
  predicate IsAsciiLetter(c: char) {
    ('a' <= c <= 'z') || ('A' <= c <= 'Z')
  }

  /** A character `\w` matches (alphanumeric or `_`), for code points up to U+00FF. */
  predicate IsWordChar(c: char) {
    IsAsciiLetter(c) || IsDigit(c) || c == '_'
    || c == '\U{AA}' || c == '\U{B2}' || c == '\U{B3}' || c == '\U{B5}'
    || c == '\U{B9}' || c == '\U{BA}' || ('\U{BC}' <= c <= '\U{BE}')
    || ('\U{C0}' <= c <= '\U{D6}') || ('\U{D8}' <= c <= '\U{F6}')
    || ('\U{F8}' <= c <= '\U{FF}')
  }

  /** A capital letter `str.lower()` changes, for code points up to U+00FF
      (the Latin-1 capitals leave out the multiplication sign U+00D7). */
  predicate IsUpper(c: char) {
    ('A' <= c <= 'Z') || ('\U{C0}' <= c <= '\U{D6}') || ('\U{D8}' <= c <= '\U{DE}')
  }

  /** `str.lower()` on one character: a capital becomes its small letter, 32
      code points on, and every other character stays as it is. */
  function LowerChar(c: char): (r: char)
    ensures !IsUpper(r)
    ensures !IsUpper(c) <==> r == c
    ensures IsAsciiLetter(c) <==> IsAsciiLetter(r)
    ensures !IsAsciiLetter(c) && c < '\U{C0}' ==> r == c
  {
    if IsUpper(c) then (c as int + 32) as char else c
  }

  /** `str.lower()`: each character lowered on its own, so no capital remains. */
  function Lower(s: string): (r: string)
    ensures |r| == |s|
    ensures forall k :: 0 <= k < |s| ==> r[k] == LowerChar(s[k])
    ensures forall k :: 0 <= k < |r| ==> !IsUpper(r[k])
  {
    seq(|s|, k requires 0 <= k < |s| => LowerChar(s[k]))
  }

  /** Lowering keeps every occurrence: a text that contains `sub` lowers to one
      that contains `sub` lowered. */
  lemma {:induction false} LowerKeepsContains(s: string, sub: string)
    requires Contains(s, sub)
    ensures Contains(Lower(s), Lower(sub))
  {
    if StartsWith(s, sub) {
      assert Lower(s)[..|sub|] == Lower(sub);
    } else {
      LowerKeepsContains(s[1..], sub);
      assert Lower(s)[1..] == Lower(s[1..]);
    }
  }

  /** Lowering a slice is slicing the lowered text. */
  lemma LowerSlice(s: string, i: nat, j: nat)
    requires i <= j <= |s|
    ensures Lower(s)[i..j] == Lower(s[i..j])
  {
  }

  /** Lowering twice is lowering once. */
  lemma LowerIdempotent(s: string)
    ensures Lower(Lower(s)) == Lower(s)
  {
  }

  predicate StartsWith(s: string, prefix: string) {
    |prefix| <= |s| && s[..|prefix|] == prefix
  }

  /** `s.endswith(suffix)`. */
  predicate EndsWith(s: string, suffix: string) {
    |suffix| <= |s| && s[|s| - |suffix|..] == suffix
  }

  /** `sub in s`. */
  predicate Contains(s: string, sub: string)
    decreases |s|
  {
    StartsWith(s, sub) || (s != [] && Contains(s[1..], sub))
  }

  /** `sub in s` holds exactly when `sub` occurs at some position of `s`. */
  lemma {:induction false} ContainsAt(s: string, sub: string, k: nat)
    requires k + |sub| <= |s| && s[k..k + |sub|] == sub
    ensures Contains(s, sub)
    decreases k
  {
    if k > 0 {
      assert s[1..][k - 1..k - 1 + |sub|] == s[k..k + |sub|];
      ContainsAt(s[1..], sub, k - 1);
    } else {
      assert s[..|sub|] == s[0..|sub|];
    }
  }

  /** Leading whitespace removed (`str.lstrip()`). */
  function LStrip(s: string): (r: string)
    ensures |r| <= |s| && r == s[|s| - |r|..]
    ensures forall k :: 0 <= k < |s| - |r| ==> IsSpace(s[k])
    ensures r == [] || !IsSpace(r[0])
    decreases |s|
  {
    if s != [] && IsSpace(s[0]) then LStrip(s[1..]) else s
  }

  /** Trailing whitespace removed (`str.rstrip()`). */
  function RStrip(s: string): (r: string)
    ensures |r| <= |s| && r == s[..|r|]
    ensures forall k :: |r| <= k < |s| ==> IsSpace(s[k])
    ensures r == [] || !IsSpace(r[|r| - 1])
    decreases |s|
  {
    if s != [] && IsSpace(s[|s| - 1]) then RStrip(s[..|s| - 1]) else s
  }

  /** `str.strip()`: the longest slice of `s` with no whitespace at either end. */
  function Strip(s: string): (r: string)
    ensures |r| <= |s|
    ensures r == [] || (!IsSpace(r[0]) && !IsSpace(r[|r| - 1]))
    ensures (s == [] || (!IsSpace(s[0]) && !IsSpace(s[|s| - 1]))) ==> r == s
  {
    RStrip(LStrip(s))
  }

  /** Python's prefix slice `s[:k]`: a negative `k` counts from the end. */
  function PyPrefix(s: string, k: int): (r: string)
    ensures |r| <= |s| && r == s[..|r|]
    ensures 0 <= k ==> |r| == if k <= |s| then k else |s|
    ensures k < 0 ==> |r| == if |s| + k < 0 then 0 else |s| + k
  {
    if k >= 0 then (if k <= |s| then s[..k] else s)
    else if |s| + k < 0 then [] else s[..|s| + k]
  }

  /** `sep.join(xs)`. */
  function Join(xs: seq<string>, sep: string): (r: string)
    ensures xs == [] ==> r == []
    ensures xs != [] ==> StartsWith(r, xs[0])
    ensures |xs| == 1 ==> r == xs[0]
    decreases |xs|
  {
    if xs == [] then []
    else if |xs| == 1 then xs[0]
    else xs[0] + sep + Join(xs[1..], sep)
  }

  /** `s.replace(pat, rep)`: every non-overlapping occurrence, left to right. */
  function Replace(s: string, pat: string, rep: string): (r: string)
    requires pat != []
    ensures !Contains(s, pat) ==> r == s
    decreases |s|
  {
    if |s| < |pat| then s
    else if s[..|pat|] == pat then rep + Replace(s[|pat|..], pat, rep)
    else [s[0]] + Replace(s[1..], pat, rep)
  }

  /** Every character of `s` is whitespace (vacuously so for ""). */
  predicate AllSpace(s: string) {
    forall k :: 0 <= k < |s| ==> IsSpace(s[k])
  }

  /** Whitespace in front is what `lstrip` removes. */
  lemma {:induction false} LStripPadding(pad: string, t: string)
    requires AllSpace(pad)
    ensures LStrip(pad + t) == LStrip(t)
    decreases |pad|
  {
    if pad != [] {
      assert (pad + t)[1..] == pad[1..] + t;
      LStripPadding(pad[1..], t);
    } else {
      assert pad + t == t;
    }
  }

  lemma {:induction false} RStripPadding(t: string, pad: string)
    requires AllSpace(pad)
    ensures RStrip(t + pad) == RStrip(t)
    decreases |pad|
  {
    if pad != [] {
      var shorter := pad[..|pad| - 1];
      assert (t + pad)[..|t + pad| - 1] == t + shorter;
      RStripPadding(t, shorter);
    } else {
      assert t + pad == t;
    }
  }

  /** Left-stripping distributes over a suffix once a non-space character is met. */
  lemma {:induction false} LStripAppend(t: string, pad: string)
    requires !AllSpace(t)
    ensures LStrip(t + pad) == LStrip(t) + pad
    decreases |t|
  {
    if IsSpace(t[0]) {
      var k :| 0 <= k < |t| && !IsSpace(t[k]);
      assert k > 0 && !IsSpace(t[1..][k - 1]);
      assert (t + pad)[1..] == t[1..] + pad;
      LStripAppend(t[1..], pad);
    }
  }

  /** Whitespace around a text is exactly what `strip` removes. */
  lemma StripPadding(before: string, t: string, after: string)
    requires AllSpace(before) && AllSpace(after)
    ensures Strip(before + t + after) == Strip(t)
  {
    assert before + t + after == before + (t + after);
    LStripPadding(before, t + after);
    if AllSpace(t) {
      LStripPadding(t, after);
      LStripOfSpaces(after);
      LStripOfSpaces(t);
    } else {
      LStripAppend(t, after);
      RStripPadding(LStrip(t), after);
    }
  }

  /** Text made only of whitespace strips to nothing. */
  lemma LStripOfSpaces(t: string)
    requires AllSpace(t)
    ensures LStrip(t) == []
  {
  }

  /** A text found in `s` is found in anything that ends with `s`. */
  lemma {:induction false} ContainsExtend(pre: string, s: string, sub: string)
    requires Contains(s, sub)
    ensures Contains(pre + s, sub)
    decreases |pre|
  {
    if pre == [] {
      assert pre + s == s;
    } else {
      assert (pre + s)[1..] == pre[1..] + s;
      ContainsExtend(pre[1..], s, sub);
    }
  }

  /** Every element of a joined list occurs in the joined text. */
  lemma {:induction false} JoinHasPart(xs: seq<string>, sep: string, k: nat)
    requires k < |xs|
    ensures Contains(Join(xs, sep), xs[k])
    decreases |xs|
  {
    if k > 0 {
      JoinHasPart(xs[1..], sep, k - 1);
      ContainsExtend(xs[0] + sep, Join(xs[1..], sep), xs[k]);
    }
  }

  /** A joined list ends with its last element. */
  lemma {:induction false} JoinEndsWithLast(xs: seq<string>, sep: string)
    requires xs != []
    ensures EndsWith(Join(xs, sep), xs[|xs| - 1])
    decreases |xs|
  {
    if |xs| > 1 {
      JoinEndsWithLast(xs[1..], sep);
      var rest, last := Join(xs[1..], sep), xs[|xs| - 1];
      var whole := xs[0] + sep + rest;
      assert whole[|whole| - |last|..] == rest[|rest| - |last|..];
    }
  }

  /** Joining non-empty texts gives "" exactly when there is nothing to join. */
  lemma {:induction false} JoinEmpty(xs: seq<string>, sep: string)
    requires forall k :: 0 <= k < |xs| ==> xs[k] != []
    ensures Join(xs, sep) == [] <==> xs == []
  {
    if |xs| > 1 {
      assert |Join(xs, sep)| >= |xs[0]| > 0;
    }
  }
}
