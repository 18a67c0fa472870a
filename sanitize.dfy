/** Masking of personal data and sensitive terms before text reaches the model
    (app/utils/sanitize.py).  Every pattern is the source's regular expression
    written in the `Regex` fragment, and the masking steps run in the source's
    order: e-mail, phone, ID-like number, URL, then each sensitive term. */
module Sanitize {
  import opened Wrappers
  import opened Text
  import opened Regex

  // ---------------------------------------------------------------------
  // Patterns

  /** `[A-Za-z0-9._%+-]+@[A-Za-z0-9.-]+\.[A-Za-z]{2,}` */
  const Email: Re :=
    Cat(Repeat(Union(AsciiLetter, Union(Digit, OneOf("._%+-"))), 1, None),
    Cat(One(Lit('@', false)),
    Cat(Repeat(Union(AsciiLetter, Union(Digit, OneOf(".-"))), 1, None),
    Cat(One(Lit('.', false)),
        Repeat(AsciiLetter, 2, None)))))

  /** `[\s-]` */
  const PhoneSeparator: CharClass := Union(Space, OneOf("-"))

  /** `\b(?:\+?\d{1,3}[\s-]?)?(?:\(\d{2,4}\)|\d{2,4})[\s-]?\d{3,4}[\s-]?\d{3,4}\b` */
  const Phone: Re :=
    Cat(WordBoundary,
    Cat(Alt(Cat(Repeat(Lit('+', false), 0, Some(1)),
            Cat(Repeat(Digit, 1, Some(3)), Repeat(PhoneSeparator, 0, Some(1)))),
            Empty),
    Cat(Alt(Cat(One(Lit('(', false)), Cat(Repeat(Digit, 2, Some(4)), One(Lit(')', false)))),
            Repeat(Digit, 2, Some(4))),
    Cat(Repeat(PhoneSeparator, 0, Some(1)),
    Cat(Repeat(Digit, 3, Some(4)),
    Cat(Repeat(PhoneSeparator, 0, Some(1)),
    Cat(Repeat(Digit, 3, Some(4)),
        WordBoundary)))))))

  /** `\b\d{6,}\b` */
  const IdLike: Re := Cat(WordBoundary, Cat(Repeat(Digit, 6, None), WordBoundary))

  /** `https?://\S+` */
  const Url: Re :=
    Cat(Text("http", false),
    Cat(Repeat(Lit('s', false), 0, Some(1)),
    Cat(Text("://", false),
        Repeat(NotSpace, 1, None))))

  /** `(?i)expl(osiv|osivo)` */
  const Explosive: Re :=
    Cat(Text("expl", true), Alt(Text("osiv", true), Text("osivo", true)))

  /** `(?i)químico\s+peligroso` */
  const DangerousChemical: Re :=
    Cat(Text("químico", true), Cat(Repeat(Space, 1, None), Text("peligroso", true)))

  /** The sensitive-term patterns, applied in this order. */
  const SensitiveTerms: seq<Re> := [
    Text("veneno", true),
    Text("venenoso", true),
    Text("matar", true),
    Explosive,
    Text("arma", true),
    DangerousChemical,
    Text("gramoxone", true)
  ]

  const EmailMask := "[email]"
  const PhoneMask := "[phone]"
  const IdMask := "[id]"
  const UrlMask := "[url]"
  const TermMask := "[término sensible]"
  const Ellipsis := "..."
  const Unserializable := "[datos no serializables]"
  const DefaultMaxLen := 2000

  // ---------------------------------------------------------------------
  // Operations

  /** The loop over the sensitive terms: each substitution sees the previous one's output. */
  function MaskTerms(text: string, terms: seq<Re>): (r: string)
    ensures text == [] ==> r == []
    decreases |terms|
  {
    if terms == [] then text else MaskTerms(Sub(terms[0], TermMask, text), terms[1..])
  }

  /** `_mask_basic`: no plain sensitive term survives it, in any case. */
  function MaskBasic(text: string): (r: string)
    ensures NoPlainTerm(r)
  {
    var t1 := Sub(Email, EmailMask, text);
    var t2 := Sub(Phone, PhoneMask, t1);
    var t3 := Sub(IdLike, IdMask, t2);
    var t4 := Sub(Url, UrlMask, t3);
    MaskTermsRemovesPlainTerms(t4);
    MaskTerms(t4, SensitiveTerms)
  }

  /** The shared tail of both sanitizers: `t[:max_len - 3] + "..."` when `t` is too long. */
  function Truncate(t: string, maxLen: int): (r: string)
    ensures |t| <= maxLen ==> r == t
    ensures |t| > maxLen ==> EndsWith(r, Ellipsis)
    ensures |t| > maxLen && maxLen >= 3 ==> |r| == maxLen && r[..maxLen - 3] == t[..maxLen - 3]
    ensures |t| > maxLen && maxLen < 3 ==>
              |r| == 3 + (if |t| + maxLen - 3 < 0 then 0 else |t| + maxLen - 3)
  {
    if |t| > maxLen then PyPrefix(t, maxLen - 3) + Ellipsis else t
  }

  /** `sanitize_question`: `None` and the empty string both read as "". */
  function SanitizeQuestion(text: Option<string>, maxLen: int): (r: string)
    ensures var masked := MaskBasic(Strip(text.GetOr("")));
            (|masked| <= maxLen ==> r == masked)
            && (|masked| > maxLen && maxLen >= 3 ==> |r| == maxLen && r == masked[..maxLen - 3] + Ellipsis)
  {
    Truncate(MaskBasic(Strip(text.GetOr(""))), maxLen)
  }

  /** `sanitize_data_preview`; `serialized` is what `json.dumps` produced, `None` when it raised. */
  function SanitizeDataPreview(serialized: Option<string>, maxChars: int): (r: string)
    ensures serialized.None? ==> r == Unserializable
    ensures serialized.Some? ==> r == Truncate(MaskBasic(serialized.value), maxChars)
  {
    match serialized
    case None => Unserializable
    case Some(s) => Truncate(MaskBasic(s), maxChars)
  }

  // ---------------------------------------------------------------------
  // Properties of the sanitizers

  /** A missing or empty question sanitizes to "" for any non-negative limit, but to
      the bare ellipsis for a negative one (Python's `""[:k] + "..."`). */
  lemma SanitizeEmptyQuestion(maxLen: int)
    ensures maxLen >= 0 ==> SanitizeQuestion(None, maxLen) == "" && SanitizeQuestion(Some(""), maxLen) == ""
    ensures maxLen < 0 ==> SanitizeQuestion(None, maxLen) == Ellipsis
  {
    var e: string := "";
    assert Option<string>.None.GetOr(e) == e && Some(e).GetOr(e) == e;
    assert Strip(e) == e;
    assert SanitizeQuestion(None, maxLen) == Truncate(e, maxLen);
    assert SanitizeQuestion(Some(e), maxLen) == Truncate(e, maxLen);
  }

  /** `sanitize_question` trims its input before masking. */
  lemma SanitizeIgnoresPadding(before: string, t: string, after: string, maxLen: int)
    requires AllSpace(before) && AllSpace(after)
    ensures SanitizeQuestion(Some(before + t + after), maxLen) == SanitizeQuestion(Some(t), maxLen)
  {
    StripPadding(before, t, after);
  }

  /** The preview applies the same masking and the same truncation as the question
      sanitizer; JSON text never starts or ends with whitespace, so trimming is moot. */
  lemma PreviewMatchesQuestion(json: string, maxChars: int)
    requires json == [] || (!IsSpace(json[0]) && !IsSpace(json[|json| - 1]))
    ensures SanitizeDataPreview(Some(json), maxChars) == SanitizeQuestion(Some(json), maxChars)
  {
  }


  // ---------------------------------------------------------------------
  // What each concrete pattern matches

  /** Before the final `\b`, a run of digits gives back characters one at a time,
      and `\b` fails between two digits, so only the whole run can end the match. */
  lemma {:induction false} DigitsBacktrack(s: string, i: nat, lo: nat, m: nat, n: nat)
    requires 1 <= lo <= m <= n && i + n <= |s|
    requires forall k :: i <= k < i + n ==> Matches(Digit, s[k])
    ensures Backtrack([WordBoundary], s, i, lo, m)
         == if m == n && IsBoundary(s, i + n) then Some(i + n) else None
    decreases m
  {
    var wb := [WordBoundary];
    assert wb[0] == WordBoundary && wb[1..] == [];
    assert Match(wb, s, i + m) == if IsBoundary(s, i + m) then Some(i + m) else None;
    if m < n {
      assert IsWordChar(s[i + m - 1]) && IsWordChar(s[i + m]);
    }
    if m > lo {
      DigitsBacktrack(s, i, lo, m - 1, n);
    }
  }

  /** The ID step replaces a maximal run of six or more digits that has no word
      character directly before or after it, and nothing else. */
  lemma IdLikeMatch(s: string, i: nat)
    requires i < |s|
    ensures var n := Run(Digit, s, i, None);
            MatchLen(IdLike, s, i)
              == if (i == 0 || !IsWordChar(s[i - 1])) && n >= 6 && (i + n == |s| || !IsWordChar(s[i + n]))
                 then n else 0
  {
    var n := Run(Digit, s, i, None);
    var digits := Cat(Repeat(Digit, 6, None), WordBoundary);
    CatFirst(WordBoundary, digits, s, i);
    BoundaryFirst(digits, s, i);
    CatFirst(Repeat(Digit, 6, None), WordBoundary, s, i);
    RepeatFirst(Digit, 6, None, WordBoundary, s, i);
    if n >= 6 {
      DigitsBacktrack(s, i, 6, n, n);
      assert IsWordChar(s[i]);
    }
  }

  /** A digit run shorter than six characters is never an ID: text without six
      consecutive digits passes the ID step unchanged. */
  lemma IdStepKeepsShortRuns(s: string)
    requires forall k :: 0 <= k < |s| ==> Run(Digit, s, k, None) < 6
    ensures Sub(IdLike, IdMask, s) == s
  {
    forall k | 0 <= k < |s| ensures MatchLen(IdLike, s, k) == 0 {
      IdLikeMatch(s, k);
    }
    SubUnchanged(IdLike, IdMask, s);
  }

  // The three shapes below are proved for any texts, then applied to the
  // URL, explosive and dangerous-chemical patterns.

  /** Where `t\S+` ends when it matches at `j`: `t`, then the whole run of
      non-space characters after it, which must not be empty. */
  function NonSpaceRunEnd(s: string, j: nat, t: string): (e: Option<nat>)
    requires j <= |s|
    ensures e.Some? ==> j + |t| < e.value <= |s| && TextAt(s, j, t, false)
  {
    if TextAt(s, j, t, false) && j + |t| < |s| && !IsSpace(s[j + |t|])
    then Some(j + |t| + Run(NotSpace, s, j + |t|, None))
    else None
  }

  /** `t\S+`: the text, then the whole run of non-space characters after it. */
  lemma TextThenNonSpace(t: string, s: string, j: nat)
    requires j <= |s|
    ensures Match([Cat(Text(t, false), Repeat(NotSpace, 1, None))], s, j) == NonSpaceRunEnd(s, j, t)
  {
    var tail := Repeat(NotSpace, 1, None);
    CatFirst(Text(t, false), tail, s, j);
    TextFirst(t, false, tail, s, j);
    if TextAt(s, j, t, false) {
      RepeatAlone(NotSpace, 1, None, s, j + |t|);
    }
  }

  /** `c?t\S+` where `t` does not start with `c`: the optional character is
      taken when the rest matches after it, and left out otherwise. */
  lemma OptionalThenNonSpace(c: char, t: string, s: string, j: nat)
    requires j <= |s| && t != [] && t[0] != c
    ensures Match([Cat(Repeat(Lit(c, false), 0, Some(1)), Cat(Text(t, false), Repeat(NotSpace, 1, None)))], s, j)
         == if j < |s| && s[j] == c then NonSpaceRunEnd(s, j + 1, t) else NonSpaceRunEnd(s, j, t)
  {
    var rest := Cat(Text(t, false), Repeat(NotSpace, 1, None));
    CatFirst(Repeat(Lit(c, false), 0, Some(1)), rest, s, j);
    OptionalFirst(c, rest, s, j);
    if j < |s| && s[j] == c {
      TextThenNonSpace(t, s, j + 1);
      if NonSpaceRunEnd(s, j + 1, t).None? {
        TextThenNonSpace(t, s, j);
        var first, here := t[0], s[j + 0];
        assert TextAt(s, j, t, false) ==> Matches(Lit(first, false), here);
      }
    } else {
      TextThenNonSpace(t, s, j);
    }
  }

  /** `a(b|bc)` always ends after `ab`: the longer branch is tried only once
      its own prefix `b` has failed. */
  lemma PrefixFirstAlt(a: string, b: string, c: string, s: string, i: nat)
    requires i <= |s|
    ensures Match([Cat(Text(a, true), Alt(Text(b, true), Text(b + c, true)))], s, i)
         == if TextAt(s, i, a + b, true) then Some(i + |a| + |b|) else None
  {
    var alt := Alt(Text(b, true), Text(b + c, true));
    CatFirst(Text(a, true), alt, s, i);
    TextFirst(a, true, alt, s, i);
    if TextAt(s, i, a, true) {
      AltAlone(Text(b, true), Text(b + c, true), s, i + |a|);
      TextAlone(b, true, s, i + |a|);
      TextAlone(b + c, true, s, i + |a|);
      TextAtConcat(s, i + |a|, b, c, true);
    }
    TextAtConcat(s, i, a, b, true);
  }

  /** `\s+` followed by a text that starts with a non-space character: the run of
      spaces gives back characters one at a time, and the text can only start
      where the run ends. */
  lemma {:induction false} SpacesBacktrack(t: string, s: string, j: nat, m: nat, n: nat)
    requires t != [] && !IsSpace(t[0])
    requires 1 <= m <= n && j + n <= |s|
    requires forall k :: j <= k < j + n ==> Matches(Space, s[k])
    ensures Backtrack([Text(t, true)], s, j, 1, m)
         == if m == n && TextAt(s, j + n, t, true) then Some(j + n + |t|) else None
    decreases m
  {
    TextAlone(t, true, s, j + m);
    if m < n {
      assert IsSpace(s[j + m]);
      assert !TextAt(s, j + m, t, true);
    }
    if m > 1 {
      SpacesBacktrack(t, s, j, m - 1, n);
    }
  }

  /** Where `\s+b` ends when it matches at `j`: the whole run of whitespace,
      which must not be empty, then `b` in any case. */
  function SpacedTextEnd(s: string, j: nat, b: string): (e: Option<nat>)
    requires j <= |s|
    ensures e.Some? ==> j + |b| < e.value <= |s| && TextAt(s, e.value - |b|, b, true)
  {
    var n := Run(Space, s, j, None);
    if n >= 1 && TextAt(s, j + n, b, true) then Some(j + n + |b|) else None
  }

  /** `\s+b` where `b` starts with a non-space character: the run of whitespace
      gives back nothing, since `b` cannot start inside it. */
  lemma SpacesThenWord(b: string, s: string, j: nat)
    requires j <= |s| && b != [] && !IsSpace(b[0])
    ensures Match([Cat(Repeat(Space, 1, None), Text(b, true))], s, j) == SpacedTextEnd(s, j, b)
  {
    var tail := Text(b, true);
    var n := Run(Space, s, j, None);
    CatFirst(Repeat(Space, 1, None), tail, s, j);
    RepeatFirst(Space, 1, None, tail, s, j);
    if n >= 1 {
      SpacesBacktrack(b, s, j, n, n);
    }
  }

  /** `a\s+b` where `b` starts with a non-space character. */
  lemma WordsWithSpaces(a: string, b: string, s: string, i: nat)
    requires i <= |s| && b != [] && !IsSpace(b[0])
    ensures Match([Cat(Text(a, true), Cat(Repeat(Space, 1, None), Text(b, true)))], s, i)
         == if TextAt(s, i, a, true) then SpacedTextEnd(s, i + |a|, b) else None
  {
    TextThen(a, true, Cat(Repeat(Space, 1, None), Text(b, true)), s, i);
    if TextAt(s, i, a, true) {
      SpacesThenWord(b, s, i + |a|);
    }
  }

  /** `pc?t\S+` where `t` does not start with `c`, stated case by case. */
  lemma PrefixOptionalThenNonSpace(p: string, c: char, t: string, s: string, i: nat)
    requires i <= |s| && t != [] && t[0] != c
    ensures Match([Cat(Text(p, false), Cat(Repeat(Lit(c, false), 0, Some(1)), Cat(Text(t, false), Repeat(NotSpace, 1, None))))], s, i)
         == if !TextAt(s, i, p, false) then None
            else if i + |p| < |s| && s[i + |p|] == c then NonSpaceRunEnd(s, i + |p| + 1, t)
            else NonSpaceRunEnd(s, i + |p|, t)
  {
    TextThen(p, false, Cat(Repeat(Lit(c, false), 0, Some(1)), Cat(Text(t, false), Repeat(NotSpace, 1, None))), s, i);
    if TextAt(s, i, p, false) {
      OptionalThenNonSpace(c, t, s, i + |p|);
    }
  }

  /** The URL step replaces `http://` or `https://` followed by at least one
      non-space character, up to the next whitespace or the end of the text. */
  lemma UrlMatch(s: string, i: nat)
    requires i <= |s|
    ensures MatchLen(Url, s, i)
         == if !TextAt(s, i, "http", false) then 0
            else if i + 4 < |s| && s[i + 4] == 's' then
              (if NonSpaceRunEnd(s, i + 5, "://").Some? then 8 + Run(NotSpace, s, i + 8, None) else 0)
            else if NonSpaceRunEnd(s, i + 4, "://").Some? then 7 + Run(NotSpace, s, i + 7, None)
            else 0
  {
    var http, sep := "http", "://";
    assert |http| == 4 && |sep| == 3 && sep[0] == ':';
    PrefixOptionalThenNonSpace(http, 's', sep, s, i);
    assert i + |http| + 1 == i + 5 && i + 5 + |sep| == i + 8 && i + |http| + |sep| == i + 7;
  }

  /** A sensitive term given as plain text matches wherever the text occurs, in
      any case, whatever surrounds it (inside words too). */
  lemma TermMatch(t: string, s: string, i: nat)
    requires t != [] && i <= |s|
    ensures MatchLen(Text(t, true), s, i) == if TextAt(s, i, t, true) then |t| else 0
  {
    TextAlone(t, true, s, i);
  }

  /** `expl(osiv|osivo)` always ends after "explosiv", so the term masks exactly
      the letters "explosiv" in any case and leaves the "o" of "explosivo". */
  lemma ExplosiveMatch(s: string, i: nat)
    requires i <= |s|
    ensures MatchLen(Explosive, s, i) == if TextAt(s, i, "explosiv", true) then 8 else 0
  {
    assert "osiv" + "o" == "osivo";
    assert "expl" + "osiv" == "explosiv";
    PrefixFirstAlt("expl", "osiv", "o", s, i);
  }

  /** The dangerous-chemical term masks "químico", one or more whitespace
      characters and "peligroso", in any case. */
  lemma DangerousChemicalMatch(s: string, i: nat)
    requires i <= |s|
    ensures MatchLen(DangerousChemical, s, i)
         == if TextAt(s, i, "químico", true) then
              var n := Run(Space, s, i + 7, None);
              if n >= 1 && TextAt(s, i + 7 + n, "peligroso", true) then 16 + n else 0
            else 0
  {
    var a, b := "químico", "peligroso";
    assert |a| == 7 && |b| == 9 && b[0] == 'p';
    WordsWithSpaces(a, b, s, i);
  }

  /** What the masked "venenoso" is made of: no character of it starts a sensitive
      term, except an "m" and two "e"s that the character after them rules out. */
  lemma MaskedVenenosoChars(k: nat)
    requires k < |"[término sensible]so"|
    ensures var u := "[término sensible]so";
            var c := LowerChar(u[k]);
            c != 'v' && c != 'a' && c != 'q' && c != 'g'
            && (c == 'm' ==> k + 1 < |u| && LowerChar(u[k + 1]) != 'a')
            && (c == 'e' ==> k + 1 < |u| && LowerChar(u[k + 1]) != 'x')
  {
  }

  /** A text in which a pattern matches nowhere passes a step unchanged. */
  lemma TermsLeaveUnchanged(u: string, terms: seq<Re>)
    requires forall j :: 0 <= j < |terms| ==> Sub(terms[j], TermMask, u) == u
    ensures MaskTerms(u, terms) == u
    decreases |terms|
  {
    if terms != [] {
      TermsLeaveUnchanged(u, terms[1..]);
    }
  }

  /** The "veneno" step turns "venenoso" into the mask followed by "so". */
  lemma VenenoStep()
    ensures Sub(Text("veneno", true), TermMask, "venenoso") == TermMask + "so"
  {
    var v := "venenoso";
    var r := Text("veneno", true);
    TermMatch("veneno", v, 0);
    assert TextAt(v, 0, "veneno", true) by {
      forall k | 0 <= k < 6 ensures v[0 + k] == "veneno"[k] {
      }
    }
    TermMatch("veneno", v, 6);
    TermMatch("veneno", v, 7);
    assert SubFrom(r, TermMask, v, 8) == [];
    assert SubFrom(r, TermMask, v, 7) == [v[7]];
    assert SubFrom(r, TermMask, v, 6) == [v[6], v[7]];
    assert SubFrom(r, TermMask, v, 0) == TermMask + [v[6], v[7]];
  }

  /** No sensitive term after "veneno" matches anywhere in the masked "venenoso". */
  lemma NoTermInMaskedVenenoso(j: nat, k: nat)
    requires 1 <= j < |SensitiveTerms| && k < |"[término sensible]so"|
    ensures MatchLen(SensitiveTerms[j], "[término sensible]so", k) == 0
  {
    var u := "[término sensible]so";
    var p := SensitiveTerms[j];
    MaskedVenenosoChars(k);
    if j == 3 {
      ExplosiveMatch(u, k);
      TextAtStart(u, k, "explosiv", true);
    } else if j == 5 {
      DangerousChemicalMatch(u, k);
      TextAtStart(u, k, "químico", true);
    } else {
      TermMatch(p.t, u, k);
      TextAtStart(u, k, p.t, true);
    }
  }

  /** Because "veneno" is masked before "venenoso" is looked for, "venenoso"
      comes out of the term loop as the mask followed by "so". */
  lemma VenenosoKeepsSuffix()
    ensures MaskTerms("venenoso", SensitiveTerms) == TermMask + "so"
  {
    var u := TermMask + "so";
    assert u == "[término sensible]so";
    VenenoStep();
    forall j | 1 <= j < |SensitiveTerms| ensures Sub(SensitiveTerms[j], TermMask, u) == u {
      forall k | 0 <= k < |u| ensures MatchLen(SensitiveTerms[j], u, k) == 0 {
        NoTermInMaskedVenenoso(j, k);
      }
      SubUnchanged(SensitiveTerms[j], TermMask, u);
    }
    TermsLeaveUnchanged(u, SensitiveTerms[1..]);
  }

  /** A sensitive term is masked wherever it occurs, whatever text surrounds it. */
  lemma TermMaskedAnywhere(t: string, before: string, after: string)
    requires t != []
    ensures Contains(Sub(Text(t, true), TermMask, before + t + after), TermMask)
  {
    var s := before + t + after;
    TermMatch(t, s, |before|);
    forall k | 0 <= k < |t| ensures s[|before| + k] == t[k] {
    }
    SubShowsReplacement(Text(t, true), TermMask, s, |before|);
  }

  /** Terms are found inside words: the "arma" in "alarma" is masked. */
  lemma ArmaInsideWord()
    ensures Contains(Sub(Text("arma", true), TermMask, "alarma"), TermMask)
  {
    TermMaskedAnywhere("arma", "al", "");
    assert "al" + "arma" + "" == "alarma";
  }

  // ---------------------------------------------------------------------
  // What the term loop removes

  /** The sensitive terms that are plain words: every one but `Explosive` and `DangerousChemical`. */
  const PlainTerms: seq<string> := ["veneno", "venenoso", "matar", "arma", "gramoxone"]

  /** A non-empty word of lower-case ASCII letters. */
  predicate PlainWord(t: string)
  {
    t != [] && forall k :: 0 <= k < |t| ==> 'a' <= t[k] <= 'z'
  }

  /** A character that is not a letter never matches a letter of a plain word. */
  lemma PlainWordSkips(t: string, k: nat, c: char)
    requires PlainWord(t) && k < |t| && !IsAsciiLetter(c) && c < '\U{C0}'
    ensures !Matches(Lit(t[k], true), c)
  {
  }

  /** Lowered, no character of the mask starts a plain term: an "m" is followed by an "i". */
  lemma TermMaskChars(k: nat)
    requires k < |TermMask|
    ensures var c := LowerChar(TermMask[k]);
            c != 'v' && c != 'a' && c != 'g'
            && (c == 'm' ==> k + 1 < |TermMask| && LowerChar(TermMask[k + 1]) != 'a')
  {
  }

  /** Each plain term is a sensitive term, a plain word, and absent from the mask. */
  lemma PlainTermFacts(j: nat)
    requires j < |PlainTerms|
    ensures var t := PlainTerms[j];
            PlainWord(t) && Unbracketed(t) && Absent(TermMask, t) && Text(t, true) in SensitiveTerms
  {
    var t := PlainTerms[j];
    assert SensitiveTerms[if j < 3 then j else 2 * j - 2] == Text(t, true);
    forall k | 0 <= k < |t|
      ensures LowerChar(t[k]) != '[' && LowerChar(t[k]) != ']'
    {
      PlainWordSkips(t, k, '[');
      PlainWordSkips(t, k, ']');
    }
    forall p | 0 <= p <= |TermMask|
      ensures !TextAt(TermMask, p, t, true)
    {
      if p < |TermMask| {
        TermMaskChars(p);
        TextAtStart(TermMask, p, t, true);
      }
    }
  }

  /** Once a term is absent, no later substitution of the loop brings it back. */
  lemma {:induction false} MaskTermsKeepsAbsent(u: string, terms: seq<Re>, t: string)
    requires t != [] && Unbracketed(t) && Absent(TermMask, t) && Absent(u, t)
    ensures Absent(MaskTerms(u, terms), t)
    decreases |terms|
  {
    if terms != [] {
      SubAvoids(terms[0], TermMask, u, t);
      MaskTermsKeepsAbsent(Sub(terms[0], TermMask, u), terms[1..], t);
    }
  }

  /** The term loop leaves no occurrence, in any case, of a plain term it masks. */
  lemma {:induction false} MaskTermsRemoves(u: string, terms: seq<Re>, t: string)
    requires t != [] && Unbracketed(t) && Absent(TermMask, t) && Text(t, true) in terms
    ensures Absent(MaskTerms(u, terms), t)
    decreases |terms|
  {
    var v := Sub(terms[0], TermMask, u);
    if terms[0] == Text(t, true) {
      forall p | 0 <= p < |u| && TextAt(u, p, t, true)
        ensures MatchLen(terms[0], u, p) > 0
      {
        TermMatch(t, u, p);
      }
      SubAvoids(terms[0], TermMask, u, t);
      MaskTermsKeepsAbsent(v, terms[1..], t);
    } else {
      assert Text(t, true) in terms[1..];
      MaskTermsRemoves(v, terms[1..], t);
    }
  }

  /** No plain sensitive term occurs in `s`, in any case. */
  predicate NoPlainTerm(s: string)
  {
    forall j :: 0 <= j < |PlainTerms| ==> Absent(s, PlainTerms[j])
  }

  /** The whole term loop removes every plain term. */
  lemma MaskTermsRemovesPlainTerms(u: string)
    ensures NoPlainTerm(MaskTerms(u, SensitiveTerms))
  {
    forall j | 0 <= j < |PlainTerms|
      ensures Absent(MaskTerms(u, SensitiveTerms), PlainTerms[j])
    {
      PlainTermFacts(j);
      MaskTermsRemoves(u, SensitiveTerms, PlainTerms[j]);
    }
  }

  /** No plain sensitive term reaches the prompt through the question, in any case. */
  lemma SanitizedQuestionHasNoTerm(text: Option<string>, maxLen: int)
    ensures NoPlainTerm(SanitizeQuestion(text, maxLen))
  {
    var m := MaskBasic(Strip(text.GetOr("")));
    forall j | 0 <= j < |PlainTerms|
      ensures Absent(Truncate(m, maxLen), PlainTerms[j])
    {
      PlainTermFacts(j);
      TruncateKeepsAbsent(m, maxLen, PlainTerms[j]);
    }
  }

  /** Cutting a text short and appending the ellipsis adds no plain term. */
  lemma TruncateKeepsAbsent(m: string, maxLen: int, t: string)
    requires PlainWord(t) && Absent(m, t)
    ensures Absent(Truncate(m, maxLen), t)
  {
    if |m| > maxLen {
      var pre := PyPrefix(m, maxLen - 3);
      var r := pre + Ellipsis;
      forall p | 0 <= p <= |r|
        ensures !TextAt(r, p, t, true)
      {
        if p + |t| <= |pre| {
          forall k | 0 <= k < |t|
            ensures Matches(Lit(t[k], true), r[p + k]) == Matches(Lit(t[k], true), m[p + k])
          {
            assert r[p + k] == pre[p + k];
          }
          assert !TextAt(m, p, t, true);
        } else if p + |t| <= |r| {
          var k := |t| - 1;
          assert r[p + k] == '.';
          PlainWordSkips(t, k, '.');
        }
      }
    }
  }
}
