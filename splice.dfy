/** The splice at the end of `Resume.create`:

      re.sub(r"(?<=\\section{Experience}).*?(?=\\section)",
             experience_latex, tailored_resume_latex, flags=re.DOTALL)

    where `experience_latex` is the serialised block with every backslash
    doubled. Two steps of `re.sub` are modelled: the processing of the
    replacement template, and the scan that finds and replaces the matches. */
module ExperienceSplice {
  import opened Results
  import opened Text

  // ------------------------------------------------------------------
  // The replacement template

  /** `experience_latex.replace("\\", "\\\\")`. */
  function Double(t: string): string {
    Replace(t, "\\", "\\\\")
  }

  predicate IsAsciiLetter(c: char) {
    ('a' <= c <= 'z') || ('A' <= c <= 'Z')
  }

  /** The template escapes that stand for one character. */
  function EscapedChar(c: char): Option<char> {
    match c
    case '\\' => Some('\\')
    case 'a' => Some('\U{07}')
    case 'b' => Some('\U{08}')
    case 'f' => Some('\U{0C}')
    case 'n' => Some('\n')
    case 'r' => Some('\r')
    case 't' => Some('\t')
    case 'v' => Some('\U{0B}')
    case _ => None
  }

  /** How `re.sub` reads its replacement string. A backslash followed by
      another backslash or by one of `a b f n r t v` stands for one character;
      followed by nothing, or by any other ASCII letter, it is None. It is also
      None before a digit: `\1` to `\9` name groups the pattern does not have,
      which Python rejects, but `\0` and other octal escapes, which Python
      reads as characters, are not modelled. `\g<0>`, which Python expands
      to the whole match, is likewise not modelled and gives None. A
      backslash followed by anything else is kept, with the backslash, as
      written. */
  function ExpandTemplate(t: string): (r: Option<string>)
    ensures (forall i :: 0 <= i < |t| ==> t[i] != '\\') ==> r == Some(t)
    decreases |t|
  {
    if t == [] then Some([])
    else if t[0] != '\\' then
      assert t == [t[0]] + t[1..];
      match ExpandTemplate(t[1..])
      case None => None
      case Some(rest) => Some([t[0]] + rest)
    else if |t| == 1 then None
    else
      var c := t[1];
      var head: Option<string> :=
        if EscapedChar(c).Some? then Some([EscapedChar(c).value])
        else if IsAsciiLetter(c) || ('0' <= c <= '9') then None
        else Some(['\\', c]);
      match head
      case None => None
      case Some(h) =>
        match ExpandTemplate(t[2..])
        case None => None
        case Some(rest) => Some(h + rest)
  }

  /** Doubling every backslash makes `re.sub` insert the text verbatim. */
  lemma {:induction false} ExpandDouble(t: string)
    ensures ExpandTemplate(Double(t)) == Some(t)
    decreases |t|
  {
    if t == [] {
    } else if t[0] == '\\' {
      ExpandDouble(t[1..]);
      assert StartsWith(t, "\\");
      assert Double(t) == "\\\\" + Double(t[1..]);
      assert ("\\\\" + Double(t[1..]))[2..] == Double(t[1..]);
      assert t == "\\" + t[1..];
    } else {
      ExpandDouble(t[1..]);
      assert !StartsWith(t, "\\");
      assert Double(t) == [t[0]] + Double(t[1..]);
      assert ([t[0]] + Double(t[1..]))[1..] == Double(t[1..]);
      assert t == [t[0]] + t[1..];
    }
  }

  /** Without the doubling, the serialised block could not be used at all:
      `\s` is not a template escape, so `re.sub` raises on `\subsection`. */
  lemma UndoubledIsRejected(rest: string)
    ensures ExpandTemplate("\\subsection{" + rest) == None
  {
  }

  // ------------------------------------------------------------------
  // The scan

  const ExperienceHeading: string := "\\section{Experience}"
  const SectionMacro: string := "\\section"

  /** The look-behind `(?<=\\section{Experience})` holds at position `p`. */
  predicate HeadingBefore(s: string, p: nat) {
    |ExperienceHeading| <= p <= |s| && s[p - |ExperienceHeading|..p] == ExperienceHeading
  }

  /** The first position from `k` on where `\section` starts: where the lazy
      `.*?` followed by the look-ahead `(?=\\section)` stops. */
  function NextSection(s: string, k: nat): (r: Option<nat>)
    ensures r.Some? ==> k <= r.value < |s| && StartsWith(s[r.value..], SectionMacro)
    ensures r.Some? ==> forall j :: k <= j < r.value ==> !StartsWith(s[j..], SectionMacro)
    ensures r.None? ==> forall j :: k <= j <= |s| ==> !StartsWith(s[j..], SectionMacro)
    decreases |s| - k
  {
    if k >= |s| then None
    else if StartsWith(s[k..], SectionMacro) then Some(k)
    else NextSection(s, k + 1)
  }

  /** The match the pattern has at position `p`, as the span `(p, q)`. When
      `nonEmpty`, the match must not be empty (CPython's rule after an empty
      match at the same position), so the lazy scan starts one further. */
  function MatchAt(s: string, p: nat, nonEmpty: bool): (r: Option<nat>)
    ensures r.Some? ==> HeadingBefore(s, p) && p <= r.value && (nonEmpty ==> p < r.value)
    ensures r.Some? ==> NextSection(s, if nonEmpty then p + 1 else p) == Some(r.value)
    ensures r.None? ==> !HeadingBefore(s, p) || NextSection(s, if nonEmpty then p + 1 else p).None?
  {
    if HeadingBefore(s, p) then NextSection(s, if nonEmpty then p + 1 else p) else None
  }

  /** A match found by the scan: it starts at `at` and ends at `end`. */
  datatype Span = Span(at: nat, end: nat)

  /** The search `re.sub` runs from position `i`: the leftmost position with a
      match; only the first position is subject to `nonEmpty`. */
  function FindMatch(s: string, i: nat, nonEmpty: bool): (r: Option<Span>)
    ensures r.Some? ==> i <= r.value.at <= r.value.end < |s|
    ensures r.Some? && r.value.at == i ==> MatchAt(s, i, nonEmpty) == Some(r.value.end)
    ensures r.Some? && r.value.at > i ==> MatchAt(s, i, nonEmpty).None? && MatchAt(s, r.value.at, false) == Some(r.value.end)
    ensures r.Some? ==> forall p :: i < p < r.value.at ==> MatchAt(s, p, false).None?
    ensures r.None? ==> MatchAt(s, i, nonEmpty).None? && forall p :: i < p <= |s| ==> MatchAt(s, p, false).None?
    decreases |s| - i
  {
    if i > |s| then None
    else match MatchAt(s, i, nonEmpty)
      case Some(q) => Some(Span(i, q))
      case None => if i == |s| then None else FindMatch(s, i + 1, false)
  }

  // ------------------------------------------------------------------
  // Replacing the matches

  /** `re.sub` from position `i`, as CPython 3.7 and later run it: every match
      is replaced, and after an empty match the search stays at the same
      position but may only accept a non-empty match there. */
  function SubFrom(s: string, i: nat, afterEmpty: bool, repl: string): string
    requires i <= |s|
    decreases |s| - i, if afterEmpty then 0 else 1
  {
    match FindMatch(s, i, afterEmpty)
    case None => s[i..]
    case Some(m) => s[i..m.at] + repl + SubFrom(s, m.end, m.end == m.at, repl)
  }

  /** The splice as written: `re.sub` of the whole document. */
  function Sub(s: string, repl: string): string {
    SubFrom(s, 0, false, repl)
  }

  /** The splice as intended: each span after a heading, up to the next
      `\section`, is replaced once, also when it is empty. */
  function SpliceFrom(s: string, i: nat, block: string): string
    requires i <= |s|
    decreases |s| - i
  {
    match FindMatch(s, i, false)
    case None => s[i..]
    case Some(m) =>
      if m.end > m.at then s[i..m.at] + block + SpliceFrom(s, m.end, block)
      else s[i..m.at] + block + [s[m.at]] + SpliceFrom(s, m.at + 1, block)
  }

  /** The intended splice of the whole document. */
  function Splice(s: string, block: string): string {
    SpliceFrom(s, 0, block)
  }

  /** No heading from `i` on: the rest of the document is copied unchanged. */
  lemma NothingToReplace(s: string, i: nat, afterEmpty: bool, block: string)
    requires i <= |s|
    requires forall p :: i <= p <= |s| ==> !HeadingBefore(s, p)
    ensures SubFrom(s, i, afterEmpty, block) == s[i..]
    ensures SpliceFrom(s, i, block) == s[i..]
  {
    assert FindMatch(s, i, afterEmpty).None?;
    assert FindMatch(s, i, false).None?;
  }

  /** The document is unchanged when no `\section{Experience}` is followed by a
      later `\section`. */
  lemma UnchangedWithoutSpan(s: string, block: string)
    requires forall p :: 0 <= p <= |s| && HeadingBefore(s, p) ==> NextSection(s, p).None?
    ensures Sub(s, block) == s
    ensures Splice(s, block) == s
  {
    assert FindMatch(s, 0, false).None?;
  }

  /** The single heading of `s` ends at `p`, and its span ends at `q`. */
  predicate OneSpan(s: string, p: nat, q: nat) {
    HeadingBefore(s, p) && (forall p' :: 0 <= p' <= |s| && p' != p ==> !HeadingBefore(s, p'))
    && NextSection(s, p) == Some(q)
  }

  lemma {:induction false} FirstSpan(s: string, p: nat, q: nat)
    requires OneSpan(s, p, q)
    ensures FindMatch(s, 0, false) == Some(Span(p, q))
  {
    if p > 0 {
      assert MatchAt(s, 0, false).None?;
      FindFrom(s, 1, p, q);
    }
  }

  lemma {:induction false} FindFrom(s: string, i: nat, p: nat, q: nat)
    requires OneSpan(s, p, q) && 0 < i <= p
    ensures FindMatch(s, i, false) == Some(Span(p, q))
    decreases p - i
  {
    if i < p {
      assert MatchAt(s, i, false).None?;
      FindFrom(s, i + 1, p, q);
    }
  }

  /** The intended splice keeps everything up to and including the heading and
      everything from the next `\section` on, and puts the block in between. */
  lemma SpliceReplacesSpan(s: string, p: nat, q: nat, block: string)
    requires OneSpan(s, p, q)
    ensures Splice(s, block) == s[..p] + block + s[q..]
  {
    FirstSpan(s, p, q);
    if q > p {
      NothingToReplace(s, q, false, block);
    } else {
      NothingToReplace(s, p + 1, false, block);
      assert [s[p]] + s[p + 1..] == s[p..];
    }
  }

  /** `re.sub` does the same when the old span is not empty. */
  lemma SubReplacesSpan(s: string, p: nat, q: nat, repl: string)
    requires OneSpan(s, p, q) && p < q
    ensures Sub(s, repl) == s[..p] + repl + s[q..]
  {
    FirstSpan(s, p, q);
    NothingToReplace(s, q, false, repl);
  }

  /** Where the single Experience heading is followed by a non-empty body,
      the intended splice and `re.sub` give the same document. */
  lemma SpliceAgreesWithSub(s: string, p: nat, q: nat, block: string)
    requires OneSpan(s, p, q) && p < q
    ensures Splice(s, block) == Sub(s, block)
  {
    SpliceReplacesSpan(s, p, q, block);
    SubReplacesSpan(s, p, q, block);
  }

  /** When the old span is empty (the heading is directly followed by the next
      section), `re.sub` replaces it, then matches again at the same place with
      a non-empty span up to the section after: the block is inserted twice
      and the following section is deleted. */
  lemma SubEmptySpan(s: string, p: nat, q: nat, repl: string)
    requires OneSpan(s, p, p) && NextSection(s, p + 1) == Some(q)
    ensures Sub(s, repl) == s[..p] + repl + repl + s[q..]
  {
    assert Sub(s, repl) == s[..p] + repl + SubFrom(s, p, true, repl) by {
      FirstSpan(s, p, p);
      assert s[0..p] == s[..p];
    }
    assert MatchAt(s, p, true) == Some(q);
    NothingToReplace(s, q, false, repl);
    SubOnceMore(s, p, q, repl);
  }

  /** The second, non-empty, match at `p` is replaced and nothing after it. */
  lemma SubOnceMore(s: string, p: nat, q: nat, repl: string)
    requires p <= q <= |s| && MatchAt(s, p, true) == Some(q) && SubFrom(s, q, false, repl) == s[q..]
    ensures SubFrom(s, p, true, repl) == repl + s[q..]
  {
    assert FindMatch(s, p, true) == Some(Span(p, q));
    assert s[p..p] == [];
  }

  /** No backslash in `s[k..m]`: the search for `\section` passes over it. */
  lemma {:induction false} NextSectionSkip(s: string, k: nat, m: nat)
    requires k <= m <= |s| && forall j :: k <= j < m ==> s[j] != '\\'
    ensures NextSection(s, k) == NextSection(s, m)
    decreases m - k
  {
    if k < m {
      assert s[k..][0] == s[k];
      NextSectionSkip(s, k + 1, m);
    }
  }

  /** A document that begins with the heading and has no other `x` after
      it has that one heading only. */
  lemma {:induction false} OnlyLeadingHeading(t: string)
    requires 'x' !in t
    ensures forall p :: 0 <= p <= |ExperienceHeading + t| && p != |ExperienceHeading| ==>
      !HeadingBefore(ExperienceHeading + t, p)
  {
    var s := ExperienceHeading + t;
    assert 'x' !in ExperienceHeading[11..];
    forall p | 0 <= p <= |s| && p != |ExperienceHeading|
      ensures !HeadingBefore(s, p)
    {
      if p > |ExperienceHeading| {
        if p - 10 < |ExperienceHeading| {
          assert s[p - 10] == ExperienceHeading[11..][p - 21];
        } else {
          assert s[p - 10] == t[p - 30];
        }
        assert s[p - |ExperienceHeading|..p][10] != ExperienceHeading[10];
      }
    }
  }

  /** A document whose Experience section is empty and followed by a section
      `a` with no other backslash: `re.sub` writes the block twice and drops
      `a`, while the intended splice inserts the block once and keeps `a`. */
  lemma EmptySpanDropsNextSection(a: string, u: string, block: string)
    requires StartsWith(a, SectionMacro) && '\\' !in a[1..]
    requires StartsWith(u, SectionMacro) && 'x' !in a + u
    ensures Sub(ExperienceHeading + a + u, block) == ExperienceHeading + block + block + u
    ensures Splice(ExperienceHeading + a + u, block) == ExperienceHeading + block + a + u
  {
    var h := ExperienceHeading;
    var s := h + a + u;
    EmptySpanShape(a, u);
    assert s[..|h|] == h && s[|h|..] == a + u && s[|h| + |a|..] == u;
    SubEmptySpan(s, |h|, |h| + |a|, block);
    SpliceReplacesSpan(s, |h|, |h|, block);
  }

  /** The document of `EmptySpanDropsNextSection` has one, empty,
      Experience span, and the section after it is `a`. */
  lemma EmptySpanShape(a: string, u: string)
    requires StartsWith(a, SectionMacro) && '\\' !in a[1..]
    requires StartsWith(u, SectionMacro) && 'x' !in a + u
    ensures var s := ExperienceHeading + a + u;
      OneSpan(s, |ExperienceHeading|, |ExperienceHeading|)
      && NextSection(s, |ExperienceHeading| + 1) == Some(|ExperienceHeading| + |a|)
  {
    var h := ExperienceHeading;
    var s := h + a + u;
    assert HeadingBefore(s, |h|) by {
      assert s[0..|h|] == h;
    }
    assert forall p :: 0 <= p <= |s| && p != |h| ==> !HeadingBefore(s, p) by {
      assert s == h + (a + u);
      OnlyLeadingHeading(a + u);
    }
    assert NextSection(s, |h|) == Some(|h|) by {
      assert s[|h|..] == a + u;
    }
    assert NextSection(s, |h| + 1) == Some(|h| + |a|) by {
      forall j | |h| + 1 <= j < |h| + |a|
        ensures s[j] != '\\'
      {
        assert s[j] == a[1..][j - |h| - 1];
      }
      NextSectionSkip(s, |h| + 1, |h| + |a|);
      assert s[|h| + |a|..] == u;
    }
  }

  /** The smallest such document: an empty Experience section followed by a
      Skills section holding `S` and an Education section. */
  lemma SkillsSectionLost()
    ensures Sub(ExperienceHeading + "\\section{Skills}S" + "\\section{Education}", "B")
         == ExperienceHeading + "BB" + "\\section{Education}"
    ensures Splice(ExperienceHeading + "\\section{Skills}S" + "\\section{Education}", "B")
         != Sub(ExperienceHeading + "\\section{Skills}S" + "\\section{Education}", "B")
  {
    var a, u := "\\section{Skills}S", "\\section{Education}";
    assert 'x' !in a + u;
    assert '\\' !in a[1..];
    EmptySpanDropsNextSection(a, u, "B");
    assert |ExperienceHeading + "B" + a + u| != |ExperienceHeading + "BB" + u|;
  }
}
