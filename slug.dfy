/**
 * `slugify` from app/owner/details/page.tsx: lower-case, trim, turn every run
 * of characters outside [a-z0-9] into one '-', strip one leading and one
 * trailing '-', and fall back to "id-" followed by the current time in
 * milliseconds when nothing is left.
 */
module Slug {
  import opened JsStrings

  /** The character class [a-z0-9] of the replacement pattern. */
  predicate IsSlugChar(c: char)
  {
    'a' <= c <= 'z' || '0' <= c <= '9'
  }

  /** Every character is a slug character or '-'. */
  predicate InSlugAlphabet(s: string)
  {
    forall i :: 0 <= i < |s| ==> IsSlugChar(s[i]) || s[i] == '-'
  }

  predicate NoDoubleHyphen(s: string)
  {
    forall i :: 0 <= i < |s| - 1 ==> !(s[i] == '-' && s[i + 1] == '-')
  }

  /** What `slugify` promises of its output. */
  predicate IsSlug(s: string)
  {
    |s| > 0 && InSlugAlphabet(s) && NoDoubleHyphen(s) && s[0] != '-' && s[|s| - 1] != '-'
  }

  /** Drops the leading run of characters outside [a-z0-9]. */
  function DropRun(s: string): (r: string)
    ensures |r| <= |s|
    ensures r == [] || IsSlugChar(r[0])
  {
    if |s| > 0 && !IsSlugChar(s[0]) then DropRun(s[1..]) else s
  }

  /** `.replace(/[^a-z0-9]+/g, "-")`. */
  function CollapseRuns(s: string): (r: string)
    ensures InSlugAlphabet(r) && NoDoubleHyphen(r)
    ensures r == [] <==> s == []
    ensures r != [] && r[0] == '-' ==> !IsSlugChar(s[0])
    decreases |s|
  {
    if s == [] then []
    else if IsSlugChar(s[0]) then [s[0]] + CollapseRuns(s[1..])
    else "-" + CollapseRuns(DropRun(s[1..]))
  }

  /** A string with no character of [a-z0-9] is dropped whole, and only such a string is. */
  lemma {:induction false} DropRunAll(s: string)
    ensures DropRun(s) == [] <==> forall i :: 0 <= i < |s| ==> !IsSlugChar(s[i])
  {
    if s != [] {
      DropRunAll(s[1..]);
      if !IsSlugChar(s[0]) {
        assert DropRun(s) == DropRun(s[1..]);
        assert (forall i :: 0 <= i < |s| ==> !IsSlugChar(s[i])) <==>
               (forall i :: 0 <= i < |s[1..]| ==> !IsSlugChar(s[1..][i])) by {
          assert forall i :: 1 <= i < |s| ==> s[i] == s[1..][i - 1];
        }
      } else {
        assert DropRun(s) == s;
      }
    }
  }

  /** Dropping a leading run from a concatenation: it ends inside the first part or runs on into the second. */
  lemma {:induction false} DropRunAppend(x: string, y: string)
    ensures DropRun(x + y) == if DropRun(x) != [] then DropRun(x) + y else DropRun(y)
  {
    if x == [] {
      assert x + y == y;
    } else {
      assert (x + y)[0] == x[0] && (x + y)[1..] == x[1..] + y;
      if !IsSlugChar(x[0]) {
        DropRunAppend(x[1..], y);
      }
    }
  }

  /** A non-empty run of characters outside [a-z0-9] becomes a single '-'. */
  lemma CollapseRunsRun(run: string)
    requires run != [] && forall i :: 0 <= i < |run| ==> !IsSlugChar(run[i])
    ensures CollapseRuns(run) == "-"
  {
    DropRunAll(run[1..]);
  }

  /**
   * The replacement works piece by piece wherever the cut does not fall
   * inside a run: after a character of [a-z0-9], before one, or at an end.
   */
  lemma {:induction false} CollapseRunsAppend(a: string, b: string)
    requires a == [] || IsSlugChar(a[|a| - 1]) || (b != [] && IsSlugChar(b[0]))
    ensures CollapseRuns(a + b) == CollapseRuns(a) + CollapseRuns(b)
    decreases |a|, 1
  {
    if a == [] {
      assert a + b == b;
    } else if IsSlugChar(a[0]) {
      CollapseRunsAppendWord(a, b);
    } else if DropRun(a[1..]) != [] {
      CollapseRunsAppendRun(a, b);
    } else {
      RunEndsOutside(a);
      CollapseRunsAppendWholeRun(a, b);
    }
  }

  /** The case of CollapseRunsAppend where `a` starts with a character of [a-z0-9]. */
  lemma CollapseRunsAppendWord(a: string, b: string)
    requires a != [] && IsSlugChar(a[0])
    requires IsSlugChar(a[|a| - 1]) || (b != [] && IsSlugChar(b[0]))
    ensures CollapseRuns(a + b) == CollapseRuns(a) + CollapseRuns(b)
    decreases |a|, 0
  {
    var ab, tail := a + b, a[1..];
    assert ab[0] == a[0] && ab[1..] == tail + b;
    assert tail == [] || tail[|tail| - 1] == a[|a| - 1];
    CollapseRunsAppend(tail, b);
    ConcatAssoc([a[0]], CollapseRuns(tail), CollapseRuns(b));
  }

  /** The case of CollapseRunsAppend where `a` starts with a run that ends inside it. */
  lemma CollapseRunsAppendRun(a: string, b: string)
    requires a != [] && !IsSlugChar(a[0]) && DropRun(a[1..]) != []
    requires IsSlugChar(a[|a| - 1]) || (b != [] && IsSlugChar(b[0]))
    ensures CollapseRuns(a + b) == CollapseRuns(a) + CollapseRuns(b)
    decreases |a|, 0
  {
    var tail := a[1..];
    var rest := DropRun(tail);
    DropRunAppend(tail, b);
    TailOfConcat(a, b);
    RunRestLast(a);
    CollapseRunsAppend(rest, b);
    ConcatAssoc("-", CollapseRuns(rest), CollapseRuns(b));
  }

  /** What is left after dropping a leading run is a suffix of the string. */
  lemma {:induction false} DropRunSuffix(s: string)
    ensures DropRun(s) == s[|s| - |DropRun(s)|..]
  {
    if |s| > 0 && !IsSlugChar(s[0]) {
      var r := DropRun(s[1..]);
      DropRunSuffix(s[1..]);
      assert s[1..][|s| - 1 - |r|..] == s[|s| - |r|..];
    }
  }

  /** What is left after a leading run ends where the whole string ends. */
  lemma {:induction false} DropRunLast(s: string)
    requires DropRun(s) != []
    ensures DropRun(s)[|DropRun(s)| - 1] == s[|s| - 1]
  {
    if !IsSlugChar(s[0]) {
      DropRunLast(s[1..]);
    }
  }

  /** After the first character and the run behind it, the last character is still `a`'s last. */
  lemma RunRestLast(a: string)
    requires a != [] && DropRun(a[1..]) != []
    ensures var rest := DropRun(a[1..]); rest[|rest| - 1] == a[|a| - 1]
  {
    DropRunLast(a[1..]);
  }

  /** The head and tail of a concatenation with a non-empty first part. */
  lemma TailOfConcat(a: string, b: string)
    requires a != []
    ensures (a + b)[0] == a[0] && (a + b)[1..] == a[1..] + b
  {
  }

  /** Concatenation is associative; stated apart so that the proofs above stay small. */
  lemma ConcatAssoc(p: string, q: string, r: string)
    ensures p + (q + r) == (p + q) + r
  {
  }

  /** A string that is one run ends with a character outside [a-z0-9]. */
  lemma RunEndsOutside(a: string)
    requires a != [] && !IsSlugChar(a[0]) && DropRun(a[1..]) == []
    ensures !IsSlugChar(a[|a| - 1])
  {
    DropRunAll(a[1..]);
    if |a| > 1 {
      assert a[|a| - 1] == a[1..][|a| - 2];
    }
  }

  /** The case of CollapseRunsAppend where `a` is one run and `b` starts a word. */
  lemma CollapseRunsAppendWholeRun(a: string, b: string)
    requires a != [] && !IsSlugChar(a[0]) && DropRun(a[1..]) == []
    requires b != [] && IsSlugChar(b[0])
    ensures CollapseRuns(a + b) == CollapseRuns(a) + CollapseRuns(b)
  {
    var tail, ab := a[1..], a + b;
    assert DropRun(ab[1..]) == b by {
      assert ab[1..] == tail + b;
      DropRunAppend(tail, b);
    }
    assert CollapseRuns(ab) == "-" + CollapseRuns(b) by {
      CollapseRunsRunStep(ab);
    }
    assert CollapseRuns(a) == "-" by {
      CollapseRunsRunStep(a);
    }
  }

  /** One step of the replacement at a character outside [a-z0-9]. */
  lemma CollapseRunsRunStep(s: string)
    requires s != [] && !IsSlugChar(s[0])
    ensures CollapseRuns(s) == "-" + CollapseRuns(DropRun(s[1..]))
  {
  }

  /** Two words with a gap between them come out joined by exactly one '-'. */
  lemma CollapseJoinsWords(w1: string, gap: string, w2: string)
    requires w1 != [] && forall i :: 0 <= i < |w1| ==> IsSlugChar(w1[i])
    requires w2 != [] && forall i :: 0 <= i < |w2| ==> IsSlugChar(w2[i])
    requires gap != [] && forall i :: 0 <= i < |gap| ==> !IsSlugChar(gap[i])
    ensures CollapseRuns(w1 + gap + w2) == w1 + "-" + w2
  {
    CollapseWord(w1);
    CollapseWord(w2);
    CollapseRunsRun(gap);
    CollapseRunsAppend(w1 + gap, w2);
    CollapseRunsAppend(w1, gap);
  }

  /** A string of [a-z0-9] alone is left as it is. */
  lemma {:induction false} CollapseWord(w: string)
    requires forall i :: 0 <= i < |w| ==> IsSlugChar(w[i])
    ensures CollapseRuns(w) == w
  {
    if w != [] {
      CollapseWord(w[1..]);
      assert w == [w[0]] + w[1..];
    }
  }

  /** `.replace(/^-|-$/g, "")`: one '-' removed at each end, if present. */
  function StripHyphens(s: string): (r: string)
    ensures r == s || (|s| >= 1 && s[0] == '-' && r == s[1..]) ||
            (|s| >= 1 && s[|s| - 1] == '-' && r == s[..|s| - 1]) ||
            (|s| >= 2 && s[0] == '-' && s[|s| - 1] == '-' && r == s[1..|s| - 1])
    ensures s != [] && s[0] != '-' && s[|s| - 1] != '-' ==> r == s
  {
    var t := if |s| > 0 && s[0] == '-' then s[1..] else s;
    if |t| > 0 && t[|t| - 1] == '-' then t[..|t| - 1] else t
  }

  /** The string before the `||` fallback. */
  function Cleaned(s: string): (r: string)
    ensures r == [] || IsSlug(r)
  {
    StripHyphensOfCollapsed(CollapseRuns(Trim(ToLower(s))));
    StripHyphens(CollapseRuns(Trim(ToLower(s))))
  }

  /** The fallback `id-${Date.now()}`. */
  function FallbackSlug(now: nat): string
  {
    "id-" + NatToString(now)
  }

  function Slugify(s: string, now: nat): (r: string)
    ensures IsSlug(r)
  {
    var c := Cleaned(s);
    FallbackIsSlug(now);
    if c != "" then c else FallbackSlug(now)
  }

  /** Stripping a collapsed string leaves a slug or nothing. */
  lemma StripHyphensOfCollapsed(s: string)
    requires InSlugAlphabet(s) && NoDoubleHyphen(s)
    ensures var r := StripHyphens(s); r == [] || IsSlug(r)
  {
    var t := if |s| > 0 && s[0] == '-' then s[1..] else s;
    forall i | 0 <= i < |t|
      ensures IsSlugChar(t[i]) || t[i] == '-'
    {
      assert t[i] == s[i + |s| - |t|];
    }
    forall i | 0 <= i < |t| - 1
      ensures !(t[i] == '-' && t[i + 1] == '-')
    {
      assert t[i] == s[i + |s| - |t|] && t[i + 1] == s[i + 1 + |s| - |t|];
    }
    assert t == [] || t[0] != '-' || |t| == 1 by {
      if |s| > 0 && s[0] == '-' && |t| > 1 {
        assert t[0] == s[1];
      }
    }
    var r := StripHyphens(s);
    assert r == if |t| > 0 && t[|t| - 1] == '-' then t[..|t| - 1] else t;
    if |t| > 0 && t[|t| - 1] == '-' {
      forall i | 0 <= i < |r|
        ensures IsSlugChar(r[i]) || r[i] == '-'
      {
        assert r[i] == t[i];
      }
      forall i | 0 <= i < |r| - 1
        ensures !(r[i] == '-' && r[i + 1] == '-')
      {
        assert r[i] == t[i] && r[i + 1] == t[i + 1];
      }
      if |r| > 0 {
        assert r[|r| - 1] == t[|t| - 2];
      }
    } else {
      assert r == t;
    }
  }

  lemma FallbackIsSlug(now: nat)
    ensures IsSlug(FallbackSlug(now))
  {
    var d := NatToString(now);
    var r := FallbackSlug(now);
    assert forall i :: 3 <= i < |r| ==> r[i] == d[i - 3];
  }

  /** The characters of `s` from [a-z0-9], in order. */
  function SlugChars(s: string): (r: string)
    ensures forall i :: 0 <= i < |r| ==> IsSlugChar(r[i])
  {
    if s == [] then [] else (if IsSlugChar(s[0]) then [s[0]] else []) + SlugChars(s[1..])
  }

  lemma {:induction false} SlugCharsAppend(a: string, b: string)
    ensures SlugChars(a + b) == SlugChars(a) + SlugChars(b)
  {
    if a == [] {
      assert a + b == b;
    } else {
      assert (a + b)[0] == a[0] && (a + b)[1..] == a[1..] + b;
      SlugCharsAppend(a[1..], b);
    }
  }

  lemma WhiteSpaceNotSlugChar(c: char)
    requires IsWhiteSpace(c)
    ensures !IsSlugChar(c)
  {
  }

  /** A leading character outside [a-z0-9] contributes nothing. */
  lemma SlugCharsSkip(s: string)
    requires |s| > 0 && !IsSlugChar(s[0])
    ensures SlugChars(s) == SlugChars(s[1..])
  {
  }

  /** Every character `trim` removes lies outside [a-z0-9]. */
  lemma {:induction false} SlugCharsTrimStart(s: string)
    ensures SlugChars(TrimStart(s)) == SlugChars(s)
  {
    if |s| > 0 && IsWhiteSpace(s[0]) {
      WhiteSpaceNotSlugChar(s[0]);
      SlugCharsSkip(s);
      SlugCharsTrimStart(s[1..]);
    }
  }

  lemma {:induction false} SlugCharsTrimEnd(s: string)
    ensures SlugChars(TrimEnd(s)) == SlugChars(s)
  {
    if |s| > 0 && IsWhiteSpace(s[|s| - 1]) {
      var init := s[..|s| - 1];
      assert s == init + [s[|s| - 1]];
      SlugCharsAppend(init, [s[|s| - 1]]);
      SlugCharsTrimEnd(init);
    }
  }

  lemma {:induction false} SlugCharsDropRun(s: string)
    ensures SlugChars(DropRun(s)) == SlugChars(s)
  {
    if |s| > 0 && !IsSlugChar(s[0]) {
      SlugCharsDropRun(s[1..]);
    }
  }

  lemma {:induction false} SlugCharsCollapse(s: string)
    ensures SlugChars(CollapseRuns(s)) == SlugChars(s)
    decreases |s|
  {
    if s == [] {
    } else if IsSlugChar(s[0]) {
      assert ([s[0]] + CollapseRuns(s[1..]))[1..] == CollapseRuns(s[1..]);
      SlugCharsCollapse(s[1..]);
    } else {
      var rest := CollapseRuns(DropRun(s[1..]));
      assert ("-" + rest)[1..] == rest;
      SlugCharsCollapse(DropRun(s[1..]));
      SlugCharsDropRun(s[1..]);
    }
  }

  lemma SlugCharsStrip(s: string)
    ensures SlugChars(StripHyphens(s)) == SlugChars(s)
  {
    var t := if |s| > 0 && s[0] == '-' then s[1..] else s;
    if |s| > 0 && s[0] == '-' {
      assert SlugChars(t) == SlugChars(s);
    }
    if |t| > 0 && t[|t| - 1] == '-' {
      assert t == t[..|t| - 1] + ['-'];
      SlugCharsAppend(t[..|t| - 1], ['-']);
    }
  }

  /**
   * `slugify` keeps exactly the letters and digits of the lower-cased input,
   * in order, and falls back to "id-<now>" exactly when the input has none.
   */
  lemma SlugifyKeepsAlphanumerics(s: string, now: nat)
    ensures Cleaned(s) == [] <==> SlugChars(ToLower(s)) == []
    ensures Cleaned(s) != [] ==> Slugify(s, now) == Cleaned(s) && SlugChars(Slugify(s, now)) == SlugChars(ToLower(s))
    ensures Cleaned(s) == [] ==> Slugify(s, now) == FallbackSlug(now)
  {
    var l := ToLower(s);
    var c := CollapseRuns(Trim(l));
    SlugCharsTrimStart(l);
    SlugCharsTrimEnd(TrimStart(l));
    SlugCharsCollapse(Trim(l));
    SlugCharsStrip(c);
    StripHyphensOfCollapsed(c);
    var r := Cleaned(s);
    if r != [] {
      assert IsSlugChar(r[0]);
      assert SlugChars(r) != [];
    }
  }

  /** An ASCII letter or digit survives lower-casing as a character of [a-z0-9], and nothing else does. */
  lemma LowerSlugChar(c: char)
    ensures IsSlugChar(LowerChar(c)) <==> ('a' <= c <= 'z' || 'A' <= c <= 'Z' || '0' <= c <= '9')
  {
  }

  /** The tail of a collapsed string with no trailing '-' is one too. */
  lemma CollapsedTail(s: string)
    requires s != [] && InSlugAlphabet(s) && NoDoubleHyphen(s) && s[|s| - 1] != '-'
    ensures InSlugAlphabet(s[1..]) && NoDoubleHyphen(s[1..])
    ensures s[1..] == [] || s[1..][|s[1..]| - 1] != '-'
  {
    var t := s[1..];
    forall i | 0 <= i < |t|
      ensures IsSlugChar(t[i]) || t[i] == '-'
    {
      assert t[i] == s[i + 1];
    }
    forall i | 0 <= i < |t| - 1
      ensures !(t[i] == '-' && t[i + 1] == '-')
    {
      assert t[i] == s[i + 1] && t[i + 1] == s[i + 2];
    }
  }

  lemma {:induction false} CollapseFixesSlugAlphabet(s: string)
    requires InSlugAlphabet(s) && NoDoubleHyphen(s)
    requires s == [] || s[|s| - 1] != '-'
    ensures CollapseRuns(s) == s
    decreases |s|
  {
    if s != [] {
      CollapsedTail(s);
      CollapseFixesSlugAlphabet(s[1..]);
      if IsSlugChar(s[0]) {
        assert CollapseRuns(s) == [s[0]] + CollapseRuns(s[1..]);
      } else {
        assert s[0] == '-' && |s| > 1;
        assert IsSlugChar(s[1]);
        assert DropRun(s[1..]) == s[1..];
        assert CollapseRuns(s) == "-" + CollapseRuns(s[1..]);
      }
      assert s == [s[0]] + s[1..];
    }
  }

  /** Lower-casing leaves a string over [a-z0-9-] unchanged. */
  lemma LowerFixesSlugAlphabet(s: string)
    requires InSlugAlphabet(s)
    ensures ToLower(s) == s
  {
    var l := ToLower(s);
    forall i | 0 <= i < |s|
      ensures l[i] == s[i]
    {
      assert IsSlugChar(s[i]) || s[i] == '-';
    }
  }

  /** Slugifying a slug returns it unchanged, whatever the clock says. */
  lemma SlugifyFixesSlugs(r: string, now: nat)
    requires IsSlug(r)
    ensures Slugify(r, now) == r
  {
    LowerFixesSlugAlphabet(r);
    assert IsSlugChar(r[0]) && IsSlugChar(r[|r| - 1]);
    TrimIdentity(r);
    CollapseFixesSlugAlphabet(r);
    assert Cleaned(r) == StripHyphens(r);
    assert StripHyphens(r) == r;
  }

  /** Lower-casing two lower-case words around a gap lower-cases the gap only. */
  lemma LowerWordsAndGap(w1: string, gap: string, w2: string)
    requires forall i :: 0 <= i < |w1| ==> IsSlugChar(w1[i])
    requires forall i :: 0 <= i < |w2| ==> IsSlugChar(w2[i])
    ensures ToLower(w1 + gap + w2) == w1 + ToLower(gap) + w2
  {
    LowerFixesSlugAlphabet(w1);
    LowerFixesSlugAlphabet(w2);
    ToLowerAppend(w1 + gap, w2);
    ToLowerAppend(w1, gap);
  }

  /**
   * Two lower-case words separated by a gap of characters that are neither
   * letters nor digits slugify to the words joined by a single '-'.
   */
  lemma SlugifyJoinsWords(w1: string, gap: string, w2: string, now: nat)
    requires w1 != [] && forall i :: 0 <= i < |w1| ==> IsSlugChar(w1[i])
    requires w2 != [] && forall i :: 0 <= i < |w2| ==> IsSlugChar(w2[i])
    requires gap != [] && forall i :: 0 <= i < |gap| ==> !IsSlugChar(LowerChar(gap[i]))
    ensures Slugify(w1 + gap + w2, now) == w1 + "-" + w2
  {
    var s := w1 + gap + w2;
    var lg := ToLower(gap);
    assert forall i :: 0 <= i < |lg| ==> !IsSlugChar(lg[i]);
    LowerWordsAndGap(w1, gap, w2);
    var l := w1 + lg + w2;
    assert IsSlugChar(l[0]) && IsSlugChar(l[|l| - 1]);
    TrimIdentity(l);
    CollapseJoinsWords(w1, lg, w2);
    var c := w1 + "-" + w2;
    assert IsSlugChar(c[0]) && IsSlugChar(c[|c| - 1]);
    assert StripHyphens(c) == c;
    assert Cleaned(s) == StripHyphens(CollapseRuns(Trim(l)));
  }

  /** `slugify` is idempotent, the fallback form included. */
  lemma SlugifyIdempotent(s: string, now: nat, later: nat)
    ensures Slugify(Slugify(s, now), later) == Slugify(s, now)
  {
    SlugifyFixesSlugs(Slugify(s, now), later);
  }
}
