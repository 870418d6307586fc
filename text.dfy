/** String operations of Python's `str` that the résumé transformation relies on:
    prefix tests, `str.replace`, `str.strip` and substring search. */
module Text {

  /** True when `t` begins with `p` (Python `t.startswith(p)`). */
  predicate StartsWith(t: string, p: string) {
    |p| <= |t| && t[..|p|] == p
  }

  lemma StartsWithAppend(p: string, t: string)
    ensures StartsWith(p + t, p)
  {
    assert (p + t)[..|p|] == p;
  }

  /** True when `p` occurs somewhere in `t` (Python `p in t`). */
  predicate Contains(t: string, p: string)
    decreases |t|
  {
    StartsWith(t, p) || (t != [] && Contains(t[1..], p))
  }

  /** No character of `t` equals `a` unless it is followed, inside `t`, by a
      character other than `b`. Hence no text that begins with `a` then `b`
      can start at a position of `t`, whatever follows `t`. */
  predicate Avoids(t: string, a: char, b: char)
    decreases |t|
  {
    t == [] || ((t[0] != a || (|t| > 1 && t[1] != b)) && Avoids(t[1..], a, b))
  }

  lemma {:induction false} AvoidsConcat(x: string, y: string, a: char, b: char)
    requires Avoids(x, a, b) && Avoids(y, a, b)
    ensures Avoids(x + y, a, b)
    decreases |x|
  {
    if x != [] {
      assert (x + y)[1..] == x[1..] + y;
      AvoidsConcat(x[1..], y, a, b);
    } else {
      assert x + y == y;
    }
  }

  /** A text with no `a` at all avoids `a` followed by anything. */
  lemma {:induction false} AvoidsWithout(t: string, a: char, b: char)
    requires forall i :: 0 <= i < |t| ==> t[i] != a
    ensures Avoids(t, a, b)
    decreases |t|
  {
    if t != [] {
      AvoidsWithout(t[1..], a, b);
    }
  }

  /** `Avoids`, read position by position: every `a` is followed, within
      `t`, by a character other than `b`. */
  lemma {:induction false} AvoidsAt(t: string, a: char, b: char)
    requires forall i :: 0 <= i < |t| && t[i] == a ==> i + 1 < |t| && t[i + 1] != b
    ensures Avoids(t, a, b)
    decreases |t|
  {
    if t != [] {
      assert forall i :: 0 <= i < |t[1..]| ==> t[1..][i] == t[i + 1];
      AvoidsAt(t[1..], a, b);
    }
  }

  /** The point of `Avoids`: no occurrence of `p` (beginning with `a`, `b`)
      starts inside `x`, whatever text `y` follows. */
  lemma {:induction false} AvoidsNoStart(x: string, y: string, p: string, k: nat)
    requires |p| >= 2 && Avoids(x, p[0], p[1]) && k < |x|
    ensures !StartsWith((x + y)[k..], p)
    decreases k
  {
    if k == 0 {
      if x[0] == p[0] {
        assert (x + y)[k..][1] == x[1];
      }
    } else {
      assert (x + y)[k..] == (x[1..] + y)[k - 1..];
      AvoidsNoStart(x[1..], y, p, k - 1);
    }
  }

  /** Python's `t.replace(pat, rep)`: every non-overlapping occurrence of `pat`,
      found scanning from the left, is replaced by `rep`. */
  function Replace(t: string, pat: string, rep: string): string
    requires pat != []
    decreases |t|
  {
    if StartsWith(t, pat) then rep + Replace(t[|pat|..], pat, rep)
    else if t == [] then []
    else [t[0]] + Replace(t[1..], pat, rep)
  }

  /** Replacing a text that does not occur changes nothing. */
  lemma {:induction false} ReplaceAbsent(t: string, pat: string, rep: string)
    requires |pat| >= 2 && Avoids(t, pat[0], pat[1])
    ensures Replace(t, pat, rep) == t
    decreases |t|
  {
    if t != [] {
      AvoidsNoStart(t, [], pat, 0);
      assert t + [] == t;
      ReplaceAbsent(t[1..], pat, rep);
    }
  }

  /** A prefix in which no occurrence of `pat` starts is copied unchanged. */
  lemma {:induction false} ReplaceSkip(x: string, y: string, pat: string, rep: string)
    requires |pat| >= 2 && Avoids(x, pat[0], pat[1])
    ensures Replace(x + y, pat, rep) == x + Replace(y, pat, rep)
    decreases |x|
  {
    if x == [] {
      assert x + y == y;
    } else {
      AvoidsNoStart(x, y, pat, 0);
      assert (x + y)[1..] == x[1..] + y;
      ReplaceSkip(x[1..], y, pat, rep);
      assert x == [x[0]] + x[1..];
    }
  }

  /** The characters Python's `str.isspace()` accepts, which `str.strip()`
      with no argument removes. */
  const PyWhitespace: set<char> := {
    '\t', '\n', '\U{0B}', '\U{0C}', '\r', '\U{1C}', '\U{1D}', '\U{1E}', '\U{1F}', ' ',
    '\U{85}', '\U{A0}', '\U{1680}',
    '\U{2000}', '\U{2001}', '\U{2002}', '\U{2003}', '\U{2004}', '\U{2005}',
    '\U{2006}', '\U{2007}', '\U{2008}', '\U{2009}', '\U{200A}',
    '\U{2028}', '\U{2029}', '\U{202F}', '\U{205F}', '\U{3000}'
  }

  /** How many characters at the start of `t` are in `cs`. */
  function LeadingRun(t: string, cs: set<char>): (n: nat)
    ensures n <= |t|
    ensures forall i :: 0 <= i < n ==> t[i] in cs
    ensures n < |t| ==> t[n] !in cs
    decreases |t|
  {
    if t != [] && t[0] in cs then
      var n := 1 + LeadingRun(t[1..], cs);
      assert forall i :: 1 <= i < n ==> t[i] == t[1..][i - 1];
      n
    else 0
  }

  /** How many characters at the end of `t` are in `cs`. */
  function TrailingRun(t: string, cs: set<char>): (n: nat)
    ensures n <= |t|
    ensures forall i :: |t| - n <= i < |t| ==> t[i] in cs
    ensures n < |t| ==> t[|t| - n - 1] !in cs
    decreases |t|
  {
    if t != [] && t[|t| - 1] in cs then 1 + TrailingRun(t[..|t| - 1], cs) else 0
  }

  /** Stripped text: it neither begins nor ends with a character of `cs`. */
  predicate Trimmed(t: string, cs: set<char>) {
    t == [] || (t[0] !in cs && t[|t| - 1] !in cs)
  }

  /** Python's `t.strip(chars)`: removes characters of the SET `cs` from both
      ends. The result is the slice of `t` after its leading run of `cs`
      characters, and everything after that slice is in `cs` too. */
  function StripChars(t: string, cs: set<char>): (r: string)
    ensures Trimmed(r, cs)
    ensures var a := LeadingRun(t, cs);
      && a + |r| <= |t| && r == t[a..a + |r|]
      && (forall i :: a + |r| <= i < |t| ==> t[i] in cs)
  {
    var a := LeadingRun(t, cs);
    var b := TrailingRun(t[a..], cs);
    StripEnds(t, cs, a, b);
    t[a..|t| - b]
  }

  /** The slice between the two runs begins and ends outside `cs`. */
  lemma StripEnds(t: string, cs: set<char>, a: nat, b: nat)
    requires a == LeadingRun(t, cs) && b == TrailingRun(t[a..], cs)
    ensures a <= |t| - b && Trimmed(t[a..|t| - b], cs)
    ensures forall i :: |t| - b <= i < |t| ==> t[i] in cs
  {
    assert forall i :: |t| - b <= i < |t| ==> t[i] == t[a..][i - a];
    if a < |t| {
      assert t[a..][0] == t[a];
      assert b < |t| - a;
      assert t[|t| - b - 1] == t[a..][|t| - a - b - 1];
    }
  }

  /** Python's `t.strip()`. */
  function Strip(t: string): string {
    StripChars(t, PyWhitespace)
  }

  /** Stripping only removes characters: one absent before is absent after. */
  lemma StripKeepsOut(t: string, c: char)
    requires forall i :: 0 <= i < |t| ==> t[i] != c
    ensures forall i :: 0 <= i < |Strip(t)| ==> Strip(t)[i] != c
  {
    var a := LeadingRun(t, PyWhitespace);
    assert forall i :: 0 <= i < |Strip(t)| ==> Strip(t)[i] == t[a + i];
  }

  lemma {:induction false} LeadingRunOf(w: string, rest: string, cs: set<char>)
    requires forall i :: 0 <= i < |w| ==> w[i] in cs
    requires rest == [] || rest[0] !in cs
    ensures LeadingRun(w + rest, cs) == |w|
    decreases |w|
  {
    if w == [] {
      assert w + rest == rest;
    } else {
      assert (w + rest)[1..] == w[1..] + rest;
      LeadingRunOf(w[1..], rest, cs);
    }
  }

  lemma {:induction false} TrailingRunOf(rest: string, w: string, cs: set<char>)
    requires forall i :: 0 <= i < |w| ==> w[i] in cs
    requires rest == [] || rest[|rest| - 1] !in cs
    ensures TrailingRun(rest + w, cs) == |w|
    decreases |w|
  {
    if w == [] {
      assert rest + w == rest;
    } else {
      var t := rest + w;
      assert t[..|t| - 1] == rest + w[..|w| - 1];
      TrailingRunOf(rest, w[..|w| - 1], cs);
    }
  }

  /** Stripping removes exactly the surrounding runs of `cs` characters. */
  lemma StripSurrounded(w1: string, core: string, w2: string, cs: set<char>)
    requires forall i :: 0 <= i < |w1| ==> w1[i] in cs
    requires forall i :: 0 <= i < |w2| ==> w2[i] in cs
    requires Trimmed(core, cs)
    ensures StripChars(w1 + core + w2, cs) == core
  {
    var t := w1 + core + w2;
    if core == [] {
      assert t == (w1 + w2) + [];
      LeadingRunOf(w1 + w2, [], cs);
    } else {
      assert t == w1 + (core + w2);
      LeadingRunOf(w1, core + w2, cs);
      assert t[|w1|..] == core + w2;
      TrailingRunOf(core, w2, cs);
      assert t[|w1|..|t| - |w2|] == core;
    }
  }

  /** A text already stripped is left as it is. */
  lemma StripTrimmed(t: string, cs: set<char>)
    requires Trimmed(t, cs)
    ensures StripChars(t, cs) == t
  {
    StripSurrounded([], t, [], cs);
    assert [] + t + [] == t;
  }
}
