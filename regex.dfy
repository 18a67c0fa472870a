/** The fragment of Python's `re` module the sanitizer uses: character classes,
    greedy repetition of a single class, concatenation, leftmost-preferred
    alternation and `\b`.  `Match` is a backtracking matcher over a stack of
    patterns still to match; it tries alternatives left to right and repetition
    counts from the longest down, as Python's matcher does, so it finds the match
    `re.sub` replaces. */
module Regex {
  import opened Wrappers
  import opened Text

  datatype CharClass =
    | Digit                          // \d
    | Space                          // \s
    | NotSpace                       // \S
    | AsciiLetter                    // A-Za-z inside a bracket class
    | Lit(c: char, ignoreCase: bool) // one literal character, under (?i) when ignoreCase
    | OneOf(cs: string)              // the literal characters listed in a bracket class
    | Union(left: CharClass, right: CharClass)

  predicate Matches(cls: CharClass, c: char) {
    match cls
    case Digit => IsDigit(c)
    case Space => IsSpace(c)
    case NotSpace => !IsSpace(c)
    case AsciiLetter => IsAsciiLetter(c)
    case Lit(d, ignoreCase) => if ignoreCase then LowerChar(c) == LowerChar(d) else c == d
    case OneOf(cs) => c in cs
    case Union(a, b) => Matches(a, c) || Matches(b, c)
  }

  datatype Re =
    | Empty                                             // matches the empty string
    | One(cls: CharClass)                               // exactly one character of the class
    | Text(t: string, ignoreCase: bool)                 // the literal text t, under (?i) when ignoreCase
    | Repeat(cls: CharClass, min: nat, max: Option<nat>) // cls{min,max}, greedy; max None is unbounded
    | Cat(first: Re, second: Re)
    | Alt(left: Re, right: Re)                          // left|right, left tried first
    | WordBoundary                                      // \b

  function Size(r: Re): nat {
    match r
    case Cat(a, b) => 1 + Size(a) + Size(b)
    case Alt(a, b) => 1 + Size(a) + Size(b)
    case _ => 1
  }

  function SizeAll(rs: seq<Re>): nat {
    if rs == [] then 0 else Size(rs[0]) + SizeAll(rs[1..])
  }

  lemma {:induction false} SizeAllAppend(xs: seq<Re>, ys: seq<Re>)
    ensures SizeAll(xs + ys) == SizeAll(xs) + SizeAll(ys)
    decreases |xs|
  {
    if xs != [] {
      assert (xs + ys)[1..] == xs[1..] + ys;
      SizeAllAppend(xs[1..], ys);
    } else {
      assert xs + ys == ys;
    }
  }

  /** `\b` at position `i`: a word character on exactly one side. */
  predicate IsBoundary(s: string, i: nat)
    requires i <= |s|
  {
    (i > 0 && IsWordChar(s[i - 1])) != (i < |s| && IsWordChar(s[i]))
  }

  /** The length of the run of characters of `cls` starting at `i`, at most `max`. */
  function Run(cls: CharClass, s: string, i: nat, max: Option<nat>): (n: nat)
    requires i <= |s|
    ensures i + n <= |s|
    ensures max.Some? ==> n <= max.value
    ensures forall k {:trigger Matches(cls, s[k])} :: i <= k < i + n ==> Matches(cls, s[k])
    ensures i + n < |s| && (max.None? || n < max.value) ==> !Matches(cls, s[i + n])
    ensures n > 0 <==> i < |s| && (max.None? || max.value > 0) && Matches(cls, s[i])
    decreases |s| - i
  {
    if i == |s| || (max.Some? && max.value == 0) || !Matches(cls, s[i]) then 0
    else 1 + Run(cls, s, i + 1, if max.Some? then Some(max.value - 1) else None)
  }

  /** Where the first match of `rs`, matched one after the other from `i`, ends. */
  function Match(rs: seq<Re>, s: string, i: nat): (e: Option<nat>)
    requires i <= |s|
    ensures e.Some? ==> i <= e.value <= |s|
    decreases SizeAll(rs), 0, |s| - i
  {
    if rs == [] then Some(i)
    else
      var rest := rs[1..];
      match rs[0]
      case Empty => Match(rest, s, i)
      case One(cls) => if i < |s| && Matches(cls, s[i]) then Match(rest, s, i + 1) else None
      case Text(t, ignoreCase) => if TextAt(s, i, t, ignoreCase) then Match(rest, s, i + |t|) else None
      case Repeat(cls, lo, hi) =>
        var n := Run(cls, s, i, hi);
        if n < lo then None else Backtrack(rest, s, i, lo, n)
      case Cat(a, b) =>
        SizeAllAppend([a, b], rest);
        Match([a, b] + rest, s, i)
      case Alt(a, b) =>
        SizeAllAppend([a], rest);
        SizeAllAppend([b], rest);
        var left := Match([a] + rest, s, i);
        if left.Some? then left else Match([b] + rest, s, i)
      case WordBoundary => if IsBoundary(s, i) then Match(rest, s, i) else None
  }

  /** A greedy repetition that took `n` characters gives them back one at a time,
      down to `lo`, until the rest of the pattern matches. */
  function Backtrack(rest: seq<Re>, s: string, i: nat, lo: nat, n: nat): (e: Option<nat>)
    requires lo <= n && i + n <= |s|
    ensures e.Some? ==> i + lo <= e.value <= |s|
    decreases SizeAll(rest), n - lo + 1, |s| - i
  {
    var e := Match(rest, s, i + n);
    if e.Some? then e
    else if n == lo then None
    else Backtrack(rest, s, i, lo, n - 1)
  }

  /** The length of the match `re.sub` replaces at `i`, or 0 when there is none
      (none of the sanitizer's patterns can match the empty string). */
  function MatchLen(r: Re, s: string, i: nat): (n: nat)
    requires i <= |s|
    ensures i + n <= |s|
    ensures n > 0 <==> Match([r], s, i).Some? && Match([r], s, i).value > i
  {
    match Match([r], s, i)
    case Some(e) => e - i
    case None => 0
  }

  /** `re.sub(r, repl, s[i:])`, scanning left to right over non-overlapping matches. */
  function SubFrom(r: Re, repl: string, s: string, i: nat): (out: string)
    requires i <= |s|
    ensures i == |s| ==> out == []
    decreases |s| - i
  {
    if i == |s| then []
    else
      var n := MatchLen(r, s, i);
      if n > 0 then repl + SubFrom(r, repl, s, i + n)
      else [s[i]] + SubFrom(r, repl, s, i + 1)
  }

  /** `re.sub(r, repl, s)`. */
  function Sub(r: Re, repl: string, s: string): (out: string)
    ensures s == [] ==> out == []
  {
    SubFrom(r, repl, s, 0)
  }

  // ---------------------------------------------------------------------
  // Substitution facts

  /** Where the pattern matches nowhere, `re.sub` returns its input unchanged. */
  lemma {:induction false} SubFromUnchanged(r: Re, repl: string, s: string, i: nat)
    requires i <= |s|
    requires forall k :: i <= k < |s| ==> MatchLen(r, s, k) == 0
    ensures SubFrom(r, repl, s, i) == s[i..]
    decreases |s| - i
  {
    if i < |s| {
      SubFromUnchanged(r, repl, s, i + 1);
      assert s[i..] == [s[i]] + s[i + 1..];
    }
  }

  lemma SubUnchanged(r: Re, repl: string, s: string)
    requires forall k :: 0 <= k < |s| ==> MatchLen(r, s, k) == 0
    ensures Sub(r, repl, s) == s
  {
    SubFromUnchanged(r, repl, s, 0);
  }

  /** Where the pattern matches somewhere, the replacement text appears in the output. */
  lemma {:induction false} SubFromShowsReplacement(r: Re, repl: string, s: string, i: nat, k: nat)
    requires i <= k < |s| && MatchLen(r, s, k) > 0
    ensures Contains(SubFrom(r, repl, s, i), repl)
    decreases k - i
  {
    var out := SubFrom(r, repl, s, i);
    if MatchLen(r, s, i) > 0 {
      ContainsAt(out, repl, 0);
    } else {
      SubFromShowsReplacement(r, repl, s, i + 1, k);
      var rest := SubFrom(r, repl, s, i + 1);
      assert out == [s[i]] + rest;
      assert out[1..] == rest;
    }
  }

  lemma SubShowsReplacement(r: Re, repl: string, s: string, k: nat)
    requires k < |s| && MatchLen(r, s, k) > 0
    ensures Contains(Sub(r, repl, s), repl)
  {
    SubFromShowsReplacement(r, repl, s, 0, k);
  }

  /** `t` occurs nowhere in `s`, whatever the case of its letters. */
  predicate Absent(s: string, t: string)
  {
    forall p :: 0 <= p <= |s| ==> !TextAt(s, p, t, true)
  }

  /** No character of `t` is a square bracket, in either case. */
  predicate Unbracketed(t: string)
  {
    forall k :: 0 <= k < |t| ==> LowerChar(t[k]) != '[' && LowerChar(t[k]) != ']'
  }

  /** Up to its first '[', `out` is `s` from `i` copied verbatim. */
  predicate CopiedToBracket(out: string, s: string, i: nat)
  {
    forall k :: 0 <= k < |out| && NoBracketTo(out, k) ==> i + k < |s| && out[k] == s[i + k]
  }

  /** None of the first `k + 1` characters of `out` is '['. */
  predicate NoBracketTo(out: string, k: nat)
  {
    forall j :: 0 <= j <= k && j < |out| ==> out[j] != '['
  }

  /** With a replacement that starts with '[', substitution copies its input up to the first '['. */
  lemma {:induction false} SubFromCopies(r: Re, repl: string, s: string, i: nat)
    requires i <= |s| && |repl| > 0 && repl[0] == '['
    ensures CopiedToBracket(SubFrom(r, repl, s, i), s, i)
    decreases |s| - i
  {
    var out := SubFrom(r, repl, s, i);
    if i < |s| && MatchLen(r, s, i) == 0 {
      SubFromCopies(r, repl, s, i + 1);
      var rest := SubFrom(r, repl, s, i + 1);
      assert out == [s[i]] + rest;
      forall k | 0 <= k < |out| && NoBracketTo(out, k)
        ensures i + k < |s| && out[k] == s[i + k]
      {
        if k > 0 {
          forall j | 0 <= j <= k - 1
            ensures rest[j] != '['
          {
            assert rest[j] == out[j + 1];
          }
          assert NoBracketTo(rest, k - 1);
          assert rest[k - 1] == out[k];
        }
      }
    } else if i < |s| {
      assert !NoBracketTo(out, 0) by {
        assert out[0] == repl[0];
      }
      forall k | 0 <= k < |out|
        ensures !NoBracketTo(out, k)
      {
        assert out[0] == repl[0];
      }
    }
  }

  /** An occurrence that starts after `head` is an occurrence in what follows it. */
  lemma ShiftOccurrence(head: string, rest: string, t: string, p: nat)
    requires |head| <= p && TextAt(head + rest, p, t, true)
    ensures TextAt(rest, p - |head|, t, true)
  {
    forall k | 0 <= k < |t|
      ensures Matches(Lit(t[k], true), rest[p - |head| + k])
    {
      assert rest[p - |head| + k] == (head + rest)[p + k];
    }
  }

  /** No unbracketed text starts inside a bracketed replacement that does not contain it. */
  lemma NoOccurrenceInReplacement(repl: string, rest: string, t: string, p: nat)
    requires Unbracketed(t) && Absent(repl, t) && |repl| > 0 && repl[|repl| - 1] == ']' && p < |repl|
    ensures !TextAt(repl + rest, p, t, true)
  {
    if p + |t| <= |repl| {
      forall k | 0 <= k < |t|
        ensures Matches(Lit(t[k], true), (repl + rest)[p + k]) == Matches(Lit(t[k], true), repl[p + k])
      {}
      assert !TextAt(repl, p, t, true);
    } else {
      var k := |repl| - 1 - p;
      assert (repl + rest)[p + k] == ']';
      assert !Matches(Lit(t[k], true), (repl + rest)[p + k]);
    }
  }

  /**
   * Substituting a bracketed replacement that does not contain `t`, with a
   * pattern that matches wherever `t` occurs, leaves no occurrence of `t`.
   */
  lemma {:induction false} SubFromAvoids(r: Re, repl: string, s: string, t: string, i: nat)
    requires i <= |s| && t != [] && Unbracketed(t) && Absent(repl, t)
    requires |repl| > 0 && repl[0] == '[' && repl[|repl| - 1] == ']'
    requires forall p :: i <= p < |s| && TextAt(s, p, t, true) ==> MatchLen(r, s, p) > 0
    ensures Absent(SubFrom(r, repl, s, i), t)
    decreases |s| - i
  {
    var out := SubFrom(r, repl, s, i);
    if i < |s| {
      var n := MatchLen(r, s, i);
      var next := if n > 0 then i + n else i + 1;
      SubFromAvoids(r, repl, s, t, next);
      var rest := SubFrom(r, repl, s, next);
      var head := if n > 0 then repl else [s[i]];
      assert out == head + rest;
      forall p: nat | p <= |out|
        ensures !TextAt(out, p, t, true)
      {
        if p >= |head| {
          if TextAt(out, p, t, true) {
            ShiftOccurrence(head, rest, t, p);
          }
        } else if n > 0 {
          NoOccurrenceInReplacement(repl, rest, t, p);
        } else if TextAt(out, p, t, true) {
          SubFromCopies(r, repl, s, i);
          CopiedOccurrence(out, s, i, t);
        }
      }
    }
  }

  /** An occurrence of an unbracketed text at the start of a verbatim copy is one in the original. */
  lemma CopiedOccurrence(out: string, s: string, i: nat, t: string)
    requires t != [] && Unbracketed(t) && CopiedToBracket(out, s, i) && TextAt(out, 0, t, true)
    ensures TextAt(s, i, t, true)
  {
    forall k | 0 <= k < |t|
      ensures NoBracketTo(out, k)
    {
      forall j | 0 <= j <= k
        ensures out[j] != '['
      {
        assert Matches(Lit(t[j], true), out[0 + j]);
      }
    }
    assert NoBracketTo(out, |t| - 1);
  }

  lemma SubAvoids(r: Re, repl: string, s: string, t: string)
    requires t != [] && Unbracketed(t) && Absent(repl, t)
    requires |repl| > 0 && repl[0] == '[' && repl[|repl| - 1] == ']'
    requires forall p :: 0 <= p < |s| && TextAt(s, p, t, true) ==> MatchLen(r, s, p) > 0
    ensures Absent(Sub(r, repl, s), t)
  {
    SubFromAvoids(r, repl, s, t, 0);
  }

  // ---------------------------------------------------------------------
  // Literal text

  /** The text `t` occurs in `s` at `i`, ignoring case when `ignoreCase`. */
  predicate TextAt(s: string, i: nat, t: string, ignoreCase: bool) {
    i + |t| <= |s| && forall k :: 0 <= k < |t| ==> Matches(Lit(t[k], ignoreCase), s[i + k])
  }

  /** Case-sensitive `TextAt` is slice equality. */
  lemma TextAtExact(s: string, i: nat, t: string)
    ensures TextAt(s, i, t, false) <==> i + |t| <= |s| && s[i..i + |t|] == t
  {
    if i + |t| <= |s| && s[i..i + |t|] == t {
      forall k | 0 <= k < |t| ensures s[i + k] == t[k] {
        assert s[i..i + |t|][k] == s[i + k];
      }
    }
  }

  /** Case-insensitive `TextAt` compares the lower-cased texts. */
  lemma TextAtIgnoringCase(s: string, i: nat, t: string)
    ensures TextAt(s, i, t, true) <==> i + |t| <= |s| && Lower(s[i..i + |t|]) == Lower(t)
  {
    if i + |t| <= |s| {
      var a := s[i..i + |t|];
      if Lower(a) == Lower(t) {
        forall k | 0 <= k < |t| ensures LowerChar(s[i + k]) == LowerChar(t[k]) {
          assert a[k] == s[i + k] && Lower(a)[k] == Lower(t)[k];
        }
      }
    }
  }

  /** Text made of two pieces occurs where the first does and the second follows it. */
  lemma TextAtConcat(s: string, i: nat, t: string, u: string, ignoreCase: bool)
    ensures TextAt(s, i, t + u, ignoreCase) <==> TextAt(s, i, t, ignoreCase) && TextAt(s, i + |t|, u, ignoreCase)
  {
    var tu := t + u;
    if TextAt(s, i, t, ignoreCase) && TextAt(s, i + |t|, u, ignoreCase) {
      forall k | 0 <= k < |tu| ensures Matches(Lit(tu[k], ignoreCase), s[i + k]) {
        if k >= |t| {
          assert tu[k] == u[k - |t|] && s[i + k] == s[i + |t| + (k - |t|)];
        }
      }
    }
    if TextAt(s, i, tu, ignoreCase) {
      forall k | 0 <= k < |t| ensures Matches(Lit(t[k], ignoreCase), s[i + k]) {
        assert tu[k] == t[k];
      }
      forall k | 0 <= k < |u| ensures Matches(Lit(u[k], ignoreCase), s[i + |t| + k]) {
        assert tu[|t| + k] == u[k];
      }
    }
  }

  /** A text pattern on its own matches exactly where the text occurs. */
  lemma TextAlone(t: string, ignoreCase: bool, s: string, p: nat)
    requires p <= |s|
    ensures Match([Text(t, ignoreCase)], s, p) == if TextAt(s, p, t, ignoreCase) then Some(p + |t|) else None
  {
    assert [Text(t, ignoreCase)][0] == Text(t, ignoreCase) && [Text(t, ignoreCase)][1..] == [];
  }

  /** Where a text occurs, its first two characters match. */
  lemma TextAtStart(s: string, i: nat, t: string, ignoreCase: bool)
    requires |t| >= 2
    ensures TextAt(s, i, t, ignoreCase) ==>
              Matches(Lit(t[0], ignoreCase), s[i]) && Matches(Lit(t[1], ignoreCase), s[i + 1])
  {
    if TextAt(s, i, t, ignoreCase) {
      assert s[i + 0] == s[i];
    }
  }

  // ---------------------------------------------------------------------
  // How each construct matches when it is followed by one more pattern

  lemma CatFirst(a: Re, b: Re, s: string, i: nat)
    requires i <= |s|
    ensures Match([Cat(a, b)], s, i) == Match([a, b], s, i)
  {
    assert [Cat(a, b)][0] == Cat(a, b) && [Cat(a, b)][1..] == [];
    assert [a, b] + [] == [a, b];
  }

  lemma TextFirst(t: string, ignoreCase: bool, b: Re, s: string, i: nat)
    requires i <= |s|
    ensures Match([Text(t, ignoreCase), b], s, i)
         == if TextAt(s, i, t, ignoreCase) then Match([b], s, i + |t|) else None
  {
    assert [Text(t, ignoreCase), b][1..] == [b];
  }

  /** A pattern that starts with a text matches what follows wherever the text occurs. */
  lemma TextThen(t: string, ignoreCase: bool, b: Re, s: string, i: nat)
    requires i <= |s|
    ensures Match([Cat(Text(t, ignoreCase), b)], s, i)
         == if TextAt(s, i, t, ignoreCase) then Match([b], s, i + |t|) else None
  {
    CatFirst(Text(t, ignoreCase), b, s, i);
    TextFirst(t, ignoreCase, b, s, i);
  }

  lemma BoundaryFirst(b: Re, s: string, i: nat)
    requires i <= |s|
    ensures Match([WordBoundary, b], s, i) == if IsBoundary(s, i) then Match([b], s, i) else None
  {
    assert [WordBoundary, b][1..] == [b];
  }

  lemma RepeatFirst(cls: CharClass, lo: nat, hi: Option<nat>, b: Re, s: string, i: nat)
    requires i <= |s|
    ensures var n := Run(cls, s, i, hi);
            Match([Repeat(cls, lo, hi), b], s, i) == if n < lo then None else Backtrack([b], s, i, lo, n)
  {
    assert [Repeat(cls, lo, hi), b][1..] == [b];
  }

  /** A repetition that ends the pattern keeps everything it took. */
  lemma RepeatAlone(cls: CharClass, lo: nat, hi: Option<nat>, s: string, i: nat)
    requires i <= |s|
    ensures var n := Run(cls, s, i, hi);
            Match([Repeat(cls, lo, hi)], s, i) == if n < lo then None else Some(i + n)
  {
    var n := Run(cls, s, i, hi);
    assert [Repeat(cls, lo, hi)][1..] == [];
    if n >= lo {
      assert Backtrack([], s, i, lo, n) == Some(i + n);
    }
  }

  /** Alternation tries its left branch first and its right branch only when the left fails. */
  lemma AltAlone(a: Re, b: Re, s: string, i: nat)
    requires i <= |s|
    ensures Match([Alt(a, b)], s, i)
         == if Match([a], s, i).Some? then Match([a], s, i) else Match([b], s, i)
  {
    assert [Alt(a, b)][0] == Alt(a, b) && [Alt(a, b)][1..] == [];
    assert [a] + [] == [a] && [b] + [] == [b];
  }

  /** An optional character `c?`: taken when what follows can then match, else skipped. */
  lemma OptionalFirst(c: char, b: Re, s: string, j: nat)
    requires j <= |s|
    ensures Match([Repeat(Lit(c, false), 0, Some(1)), b], s, j)
         == if j < |s| && s[j] == c && Match([b], s, j + 1).Some? then Match([b], s, j + 1)
            else Match([b], s, j)
  {
    var n := Run(Lit(c, false), s, j, Some(1));
    RepeatFirst(Lit(c, false), 0, Some(1), b, s, j);
    if j < |s| && s[j] == c {
      assert n == 1;
      assert Backtrack([b], s, j, 0, 0) == Match([b], s, j);
    } else {
      assert n == 0;
    }
  }
}
