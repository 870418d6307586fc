/** The fixed regular expressions of the résumé parser, written as data.

    Every pattern the parser uses is a sequence of pieces. In each of those
    patterns every piece can match in at most one way once the pieces before
    it have matched, so no backtracking is needed: a pattern matches at a
    position exactly when its pieces match one after the other. A piece reads a
    prefix of the remaining text and yields the groups it captures and the text
    that is left. `Search` is Python's `re.search` (leftmost match) and
    `FindAll` is `re.findall` (left to right, non-overlapping). */
module Patterns {
  import opened Results
  import opened Text

  datatype Piece =
    | Lit(text: string)                                  // the literal text itself
    | Arg(nonEmpty: bool)                                // ([^}]*)\}   or, if nonEmpty, ([^}]+)\}
    | Digits                                             // (\d+)\}     (ASCII digits)
    | Lazy(stop: string, atLeastOne: bool, dotAll: bool) // (.*?)stop   or (.+?)stop; `.` excludes \n unless dotAll
    | UpToLookahead(stop: string)                        // (.*?)(?=stop|$)  with DOTALL
    | Line                                               // (.+)        without DOTALL (greedy, to the end of the line)

  type Pattern = seq<Piece>

  /** A successful match: the captured groups, in order, and the text after the match. */
  datatype Hit = Hit(groups: seq<string>, rest: string)

  /** Python's `$` without MULTILINE: the end of the text, or just before a final newline. */
  predicate AtEnd(t: string) {
    t == [] || t == "\n"
  }

  predicate IsDigit(c: char) {
    '0' <= c <= '9'
  }

  predicate IsSuffix(r: string, t: string) {
    |r| <= |t| && r == t[|t| - |r|..]
  }

  /** What a captured group satisfies, by the piece that captured it. */
  predicate FieldFits(p: Piece, g: string) {
    match p
    case Lit(_) => true
    case Arg(nonEmpty) => (forall i :: 0 <= i < |g| ==> g[i] != '}') && (nonEmpty ==> g != [])
    case Digits => g != [] && forall i :: 0 <= i < |g| ==> IsDigit(g[i])
    case Lazy(_, atLeastOne, dotAll) => (atLeastOne ==> g != []) && (!dotAll ==> forall i :: 0 <= i < |g| ==> g[i] != '\n')
    case UpToLookahead(_) => true
    case Line => g != [] && forall i :: 0 <= i < |g| ==> g[i] != '\n'
  }

  /** `groups` has one entry per capturing piece of `pat`, each fitting its piece. */
  predicate Fits(groups: seq<string>, pat: Pattern)
    decreases pat
  {
    if pat == [] then groups == []
    else if pat[0].Lit? then Fits(groups, pat[1..])
    else groups != [] && FieldFits(pat[0], groups[0]) && Fits(groups[1..], pat[1..])
  }

  /** The capturing pieces of a pattern, in order. */
  function Captures(pat: Pattern): (r: seq<Piece>)
    ensures forall p :: p in r ==> !p.Lit?
    decreases pat
  {
    if pat == [] then [] else if pat[0].Lit? then Captures(pat[1..]) else [pat[0]] + Captures(pat[1..])
  }

  /** The capturing pieces of two patterns in a row. */
  lemma {:induction false} CapturesAppend(p1: Pattern, p2: Pattern)
    ensures Captures(p1 + p2) == Captures(p1) + Captures(p2)
    decreases p1
  {
    if p1 == [] {
      assert p1 + p2 == p2;
    } else {
      assert (p1 + p2)[0] == p1[0];
      assert (p1 + p2)[1..] == p1[1..] + p2;
      CapturesAppend(p1[1..], p2);
    }
  }

  /** Fitting groups: one per capturing piece, each satisfying its piece. */
  lemma {:induction false} FitsCaptures(groups: seq<string>, pat: Pattern)
    requires Fits(groups, pat)
    ensures var c := Captures(pat); |groups| == |c| && forall i :: 0 <= i < |c| ==> FieldFits(c[i], groups[i])
    decreases pat
  {
    if pat != [] {
      FitsCaptures(if pat[0].Lit? then groups else groups[1..], pat[1..]);
    }
  }

  /** The groups of a literal followed by one capturing piece. */
  lemma FitsOne(groups: seq<string>, pat: Pattern)
    requires |pat| == 2 && pat[0].Lit? && !pat[1].Lit? && Fits(groups, pat)
    ensures |groups| == 1 && FieldFits(pat[1], groups[0])
  {
    assert Fits(groups, pat[1..]);
    assert Fits(groups[1..], pat[1..][1..]);
    assert pat[1..][1..] == [];
    assert groups[1..] == [];
  }

  function IndexOf(t: string, c: char): (r: Option<nat>)
    ensures r.Some? ==> r.value < |t| && t[r.value] == c && forall i :: 0 <= i < r.value ==> t[i] != c
    ensures r.None? ==> forall i :: 0 <= i < |t| ==> t[i] != c
    decreases |t|
  {
    if t == [] then None
    else if t[0] == c then Some(0)
    else match IndexOf(t[1..], c)
      case None => None
      case Some(k) => Some(k + 1)
  }

  function MatchLit(t: string, text: string): (r: Option<Hit>)
    ensures r.Some? <==> StartsWith(t, text)
    ensures r.Some? ==> r.value == Hit([], t[|text|..])
  {
    if StartsWith(t, text) then Some(Hit([], t[|text|..])) else None
  }

  /** `([^}]*)\}` (or `([^}]+)\}`): everything up to the first `}`. */
  function MatchArg(t: string, nonEmpty: bool): (r: Option<Hit>)
    ensures r.None? <==> (forall i :: 0 <= i < |t| ==> t[i] != '}') || (nonEmpty && t != [] && t[0] == '}')
    ensures r.Some? ==> |r.value.groups| == 1 && t == r.value.groups[0] + "}" + r.value.rest
    ensures r.Some? ==> FieldFits(Arg(nonEmpty), r.value.groups[0])
  {
    match IndexOf(t, '}')
    case None => None
    case Some(k) =>
      if nonEmpty && k == 0 then None
      else
        assert t == t[..k] + "}" + t[k + 1..];
        Some(Hit([t[..k]], t[k + 1..]))
  }

  function DigitRun(t: string): (n: nat)
    ensures n <= |t| && (forall i :: 0 <= i < n ==> IsDigit(t[i])) && (n < |t| ==> !IsDigit(t[n]))
    decreases |t|
  {
    if t != [] && IsDigit(t[0]) then 1 + DigitRun(t[1..]) else 0
  }

  /** `(\d+)\}`: a maximal non-empty run of digits, which must be followed by `}`. */
  function MatchDigits(t: string): (r: Option<Hit>)
    ensures r.Some? ==> |r.value.groups| == 1 && t == r.value.groups[0] + "}" + r.value.rest
    ensures r.Some? ==> FieldFits(Digits, r.value.groups[0])
    ensures r.None? ==> DigitRun(t) == 0 || DigitRun(t) == |t| || t[DigitRun(t)] != '}'
  {
    var n := DigitRun(t);
    if 0 < n < |t| && t[n] == '}' then
      assert t == t[..n] + "}" + t[n + 1..];
      Some(Hit([t[..n]], t[n + 1..]))
    else None
  }

  /** No newline among the first `k` characters of `t`, unless `.` matches newlines. */
  predicate DotSpan(t: string, k: nat, dotAll: bool)
    requires k <= |t|
  {
    dotAll || forall i :: 0 <= i < k ==> t[i] != '\n'
  }

  /** The lazy scan from position `k`: the first position `j >= max(k, need)` at
      which `stop` follows, the characters from `k` up to `j` being no newline
      unless `dotAll`. */
  function LazyFrom(t: string, stop: string, k: nat, need: nat, dotAll: bool): (r: Option<nat>)
    requires k <= |t|
    ensures r.Some? ==> k <= r.value <= |t| && r.value >= need && StartsWith(t[r.value..], stop)
    ensures r.Some? ==> forall j :: k <= j < r.value ==> (dotAll || t[j] != '\n') && (j < need || !StartsWith(t[j..], stop))
    ensures r.None? ==> forall j :: k <= j <= |t| && need <= j && (dotAll || forall i :: k <= i < j ==> t[i] != '\n') ==> !StartsWith(t[j..], stop)
    decreases |t| - k
  {
    if k >= need && StartsWith(t[k..], stop) then Some(k)
    else if k == |t| || (!dotAll && t[k] == '\n') then None
    else LazyFrom(t, stop, k + 1, need, dotAll)
  }

  /** The first position from `k` on where `stop` follows or `$` holds. */
  function LookaheadFrom(t: string, stop: string, k: nat): (n: nat)
    requires k <= |t|
    ensures k <= n <= |t| && (StartsWith(t[n..], stop) || AtEnd(t[n..]))
    ensures forall j :: k <= j < n ==> !StartsWith(t[j..], stop) && !AtEnd(t[j..])
    decreases |t| - k
  {
    if StartsWith(t[k..], stop) || AtEnd(t[k..]) then k else LookaheadFrom(t, stop, k + 1)
  }

  /** `(.*?)(?=stop|$)` with DOTALL: everything up to the first position where
      `stop` follows or `$` holds; nothing is consumed beyond the capture. */
  function ScanToLookahead(t: string, stop: string): (r: Hit)
    ensures |r.groups| == 1 && t == r.groups[0] + r.rest
    ensures StartsWith(r.rest, stop) || AtEnd(r.rest)
    ensures forall k :: 0 <= k < |r.groups[0]| ==> !StartsWith(t[k..], stop) && !AtEnd(t[k..])
  {
    var n := LookaheadFrom(t, stop, 0);
    assert t == t[..n] + t[n..];
    Hit([t[..n]], t[n..])
  }

  function LineRun(t: string): (n: nat)
    ensures n <= |t| && (forall i :: 0 <= i < n ==> t[i] != '\n') && (n < |t| ==> t[n] == '\n')
    decreases |t|
  {
    if t != [] && t[0] != '\n' then 1 + LineRun(t[1..]) else 0
  }

  /** `(.+)` without DOTALL: the rest of the current line, which must not be empty. */
  function MatchLine(t: string): (r: Option<Hit>)
    ensures r.Some? <==> t != [] && t[0] != '\n'
    ensures r.Some? ==> |r.value.groups| == 1 && t == r.value.groups[0] + r.value.rest
    ensures r.Some? ==> FieldFits(Line, r.value.groups[0]) && (r.value.rest == [] || r.value.rest[0] == '\n')
  {
    var n := LineRun(t);
    if n == 0 then None
    else
      assert t == t[..n] + t[n..];
      Some(Hit([t[..n]], t[n..]))
  }

  /** `(.*?)stop`, or `(.+?)stop` when `atLeastOne`: the shortest capture that
      `stop` follows, with no newline in it unless `dotAll`. */
  function MatchLazy(t: string, stop: string, atLeastOne: bool, dotAll: bool): (r: Option<Hit>)
    ensures r.Some? ==> |r.value.groups| == 1 && t == r.value.groups[0] + stop + r.value.rest
    ensures r.Some? ==> IsSuffix(r.value.rest, t) && FieldFits(Lazy(stop, atLeastOne, dotAll), r.value.groups[0])
    ensures r.Some? ==> forall k :: (if atLeastOne then 1 else 0) <= k < |r.value.groups[0]| ==> !StartsWith(t[k..], stop)
    ensures r.None? ==> forall k :: (if atLeastOne then 1 else 0) <= k <= |t| && DotSpan(t, k, dotAll) ==> !StartsWith(t[k..], stop)
  {
    match LazyFrom(t, stop, 0, if atLeastOne then 1 else 0, dotAll)
    case None => None
    case Some(j) =>
      LazySplit(t, stop, j);
      Some(Hit([t[..j]], t[j + |stop|..]))
  }

  lemma LazySplit(t: string, stop: string, j: nat)
    requires j <= |t| && StartsWith(t[j..], stop)
    ensures t == t[..j] + stop + t[j + |stop|..]
    ensures IsSuffix(t[j + |stop|..], t)
  {
    assert t[j..][..|stop|] == stop;
  }

  function MatchPiece(t: string, p: Piece): (r: Option<Hit>)
    ensures r.Some? ==> IsSuffix(r.value.rest, t)
    ensures r.Some? && p.Lit? ==> r.value.groups == [] && |r.value.rest| == |t| - |p.text|
    ensures r.Some? && !p.Lit? ==> |r.value.groups| == 1 && FieldFits(p, r.value.groups[0])
  {
    match p
    case Lit(text) => MatchLit(t, text)
    case Arg(nonEmpty) => MatchArg(t, nonEmpty)
    case Digits => MatchDigits(t)
    case Lazy(stop, atLeastOne, dotAll) => MatchLazy(t, stop, atLeastOne, dotAll)
    case UpToLookahead(stop) =>
      Some(ScanToLookahead(t, stop))
    case Line => MatchLine(t)
  }

  /** A pattern that starts with a non-empty literal consumes text whenever it matches. */
  predicate Advances(pat: Pattern) {
    pat != [] && pat[0].Lit? && pat[0].text != []
  }

  /** The pattern's pieces matched one after the other at the start of `t`. */
  function Match(t: string, pat: Pattern): (r: Option<Hit>)
    ensures r.Some? ==> Fits(r.value.groups, pat) && IsSuffix(r.value.rest, t)
    ensures r.Some? && Advances(pat) ==> |r.value.rest| < |t|
    decreases pat
  {
    if pat == [] then Some(Hit([], t))
    else match MatchPiece(t, pat[0])
      case None => None
      case Some(h) =>
        match Match(h.rest, pat[1..])
        case None => None
        case Some(h2) =>
          assert pat[0].Lit? ==> h.groups + h2.groups == h2.groups;
          assert !pat[0].Lit? ==> (h.groups + h2.groups)[1..] == h2.groups;
          Some(Hit(h.groups + h2.groups, h2.rest))
  }

  /** A pattern whose first literal `t` does not start with does not match there. */
  lemma NoMatchWithoutLit(t: string, pat: Pattern)
    requires pat != [] && pat[0].Lit? && !StartsWith(t, pat[0].text)
    ensures Match(t, pat).None?
  {
  }

  datatype Found = Found(at: nat, hit: Hit)

  /** `f` is the leftmost match of `pat` in `t`. */
  predicate FirstMatch(t: string, pat: Pattern, f: Found) {
    f.at <= |t| && Match(t[f.at..], pat) == Some(f.hit)
    && forall j :: 0 <= j < f.at ==> Match(t[j..], pat).None?
  }

  /** Group `k` of the leftmost match of `pat` in `t` is `g`. */
  ghost predicate FirstGroup(t: string, pat: Pattern, k: nat, g: string) {
    exists f :: FirstMatch(t, pat, f) && k < |f.hit.groups| && f.hit.groups[k] == g
  }

  /** `pat` matches at no position of `t`. */
  predicate Nowhere(t: string, pat: Pattern) {
    forall j :: 0 <= j <= |t| ==> Match(t[j..], pat).None?
  }

  /** The leftmost match is unique. */
  lemma FirstMatchUnique(t: string, pat: Pattern, f: Found, g: Found)
    requires FirstMatch(t, pat, f) && FirstMatch(t, pat, g)
    ensures f == g
  {
  }

  /** Searching on from the next position when there is no match here. */
  lemma NowhereStep(t: string, pat: Pattern)
    requires t != [] && Match(t, pat).None? && Nowhere(t[1..], pat)
    ensures Nowhere(t, pat)
  {
    forall j | 0 <= j <= |t|
      ensures Match(t[j..], pat).None?
    {
      if j > 0 {
        assert t[j..] == t[1..][j - 1..];
      }
    }
  }

  /** ... and likewise for a match further on. */
  lemma FirstMatchStep(t: string, pat: Pattern, f: Found)
    requires t != [] && Match(t, pat).None? && FirstMatch(t[1..], pat, f)
    ensures FirstMatch(t, pat, Found(f.at + 1, f.hit))
  {
    assert Match(t[f.at + 1..], pat) == Some(f.hit) by {
      assert t[f.at + 1..] == t[1..][f.at..];
    }
    forall j | 0 <= j < f.at + 1
      ensures Match(t[j..], pat).None?
    {
      if j == 0 {
        assert t[j..] == t;
      } else {
        assert t[j..] == t[1..][j - 1..];
      }
    }
  }

  lemma FirstGroupStep(t: string, pat: Pattern, k: nat, g: string)
    requires t != [] && Match(t, pat).None? && FirstGroup(t[1..], pat, k, g)
    ensures FirstGroup(t, pat, k, g)
  {
    var f :| FirstMatch(t[1..], pat, f) && k < |f.hit.groups| && f.hit.groups[k] == g;
    FirstMatchStep(t, pat, f);
  }

  /** A match at the very start is the leftmost one. */
  lemma FirstGroupHere(t: string, pat: Pattern, h: Hit, k: nat)
    requires Match(t, pat) == Some(h) && k < |h.groups|
    ensures FirstGroup(t, pat, k, h.groups[k])
  {
    assert t[0..] == t;
    assert FirstMatch(t, pat, Found(0, h));
  }

  /** A text shorter than the pattern's first literal holds no match. */
  lemma NowhereShort(t: string, pat: Pattern)
    requires pat != [] && pat[0].Lit? && |t| < |pat[0].text|
    ensures Nowhere(t, pat)
  {
    forall j | 0 <= j <= |t|
      ensures Match(t[j..], pat).None?
    {
      NoMatchWithoutLit(t[j..], pat);
    }
  }

  /** Python's `re.search`: the leftmost position where the pattern matches. */
  function Search(t: string, pat: Pattern): (r: Option<Found>)
    ensures r.Some? ==> FirstMatch(t, pat, r.value)
    ensures r.None? ==> Nowhere(t, pat)
    decreases |t|
  {
    match Match(t, pat)
    case Some(h) =>
      assert t[0..] == t;
      Some(Found(0, h))
    case None =>
      if t == [] then
        assert t[0..] == t;
        None
      else
        assert forall j :: 1 <= j <= |t| ==> t[j..] == t[1..][j - 1..];
        assert t[0..] == t;
        match Search(t[1..], pat)
        case None => None
        case Some(f) => Some(Found(f.at + 1, f.hit))
  }

  /** Python's `re.findall`: the groups of every match, left to right, each search
      resuming where the previous match ended. */
  function FindAll(t: string, pat: Pattern): (r: seq<seq<string>>)
    requires Advances(pat)
    ensures forall m :: m in r ==> Fits(m, pat)
    decreases |t|
  {
    match Match(t, pat)
    case Some(h) => [h.groups] + FindAll(h.rest, pat)
    case None => if t == [] then [] else FindAll(t[1..], pat)
  }

  /** `re.findall` in terms of `re.search`: no match gives nothing; otherwise
      the groups of the leftmost match come first, and the search goes on
      from where that match ended. */
  lemma {:induction false} FindAllSearch(t: string, pat: Pattern)
    requires Advances(pat)
    ensures FindAll(t, pat) == (match Search(t, pat)
                                case None => []
                                case Some(f) => [f.hit.groups] + FindAll(f.hit.rest, pat))
    ensures FindAll(t, pat) == [] <==> Nowhere(t, pat)
    decreases |t|
  {
    match Match(t, pat)
    case Some(h) =>
    case None =>
      if t != [] {
        FindAllSearch(t[1..], pat);
      }
  }

  /** The same, from the leftmost match however it is found. */
  lemma FindAllFirst(t: string, pat: Pattern, f: Found)
    requires Advances(pat) && FirstMatch(t, pat, f)
    ensures FindAll(t, pat) == [f.hit.groups] + FindAll(f.hit.rest, pat)
  {
    FindAllSearch(t, pat);
    FirstMatchUnique(t, pat, f, Search(t, pat).value);
  }

  /** Text that cannot start the pattern's first literal is skipped over unread. */
  lemma {:induction false} FindAllSkip(x: string, y: string, pat: Pattern)
    requires Advances(pat) && |pat[0].text| >= 2
    requires Avoids(x, pat[0].text[0], pat[0].text[1])
    ensures FindAll(x + y, pat) == FindAll(y, pat)
    decreases |x|
  {
    if x != [] {
      AvoidsNoStart(x, y, pat[0].text, 0);
      assert (x + y)[0..] == x + y;
      NoMatchWithoutLit(x + y, pat);
      assert (x + y)[1..] == x[1..] + y;
      FindAllSkip(x[1..], y, pat);
    } else {
      assert x + y == y;
    }
  }

  /** Text without the pattern's first character is skipped. */
  lemma SkipPad(pad: string, y: string, pat: Pattern)
    requires Advances(pat) && |pat[0].text| >= 2
    requires forall i :: 0 <= i < |pad| ==> pad[i] != pat[0].text[0]
    ensures FindAll(pad + y, pat) == FindAll(y, pat)
  {
    AvoidsWithout(pad, pat[0].text[0], pat[0].text[1]);
    FindAllSkip(pad, y, pat);
  }

  /** A match at the start is the first element, and the search resumes after it. */
  lemma FindAllHit(t: string, pat: Pattern, groups: seq<string>, rest: string)
    requires Advances(pat) && Match(t, pat) == Some(Hit(groups, rest))
    ensures FindAll(t, pat) == [groups] + FindAll(rest, pat)
  {
  }

  /** A match at the start, then text the pattern cannot start in. */
  lemma FindAllThen(h: string, skip: string, next: string, pat: Pattern, groups: seq<string>)
    requires Advances(pat) && |pat[0].text| >= 2
    requires Avoids(skip, pat[0].text[0], pat[0].text[1])
    requires Match(h + (skip + next), pat) == Some(Hit(groups, skip + next))
    ensures FindAll(h + (skip + next), pat) == [groups] + FindAll(next, pat)
  {
    FindAllHit(h + (skip + next), pat, groups, skip + next);
    FindAllSkip(skip, next, pat);
  }

  /** No occurrence of the first literal: nothing is found. */
  lemma FindAllNone(t: string, pat: Pattern)
    requires Advances(pat) && |pat[0].text| >= 2
    requires Avoids(t, pat[0].text[0], pat[0].text[1])
    ensures FindAll(t, pat) == []
  {
    FindAllSkip(t, [], pat);
    assert t + [] == t;
  }

  // ------------------------------------------------------------------
  // Matching text whose shape is known

  /** A pattern matches when its first piece matches and then the rest of it. */
  lemma MatchStep(t: string, pat: Pattern, h: Hit, h2: Hit)
    requires pat != [] && MatchPiece(t, pat[0]) == Some(h) && Match(h.rest, pat[1..]) == Some(h2)
    ensures Match(t, pat) == Some(Hit(h.groups + h2.groups, h2.rest))
  {
  }

  /** A literal reads itself. */
  lemma MatchLitOf(text: string, rest: string)
    ensures MatchPiece(text + rest, Lit(text)) == Some(Hit([], rest))
  {
    assert (text + rest)[..|text|] == text;
    assert (text + rest)[|text|..] == rest;
  }

  /** `([^}]*)\}` reads a field without `}` and the `}` after it. */
  lemma MatchArgOf(x: string, rest: string, nonEmpty: bool)
    requires forall i :: 0 <= i < |x| ==> x[i] != '}'
    requires nonEmpty ==> x != []
    ensures MatchPiece(x + "}" + rest, Arg(nonEmpty)) == Some(Hit([x], rest))
  {
    var t := x + "}" + rest;
    assert t[|x|] == '}';
    assert forall i :: 0 <= i < |x| ==> t[i] == x[i];
    assert IndexOf(t, '}') == Some(|x|);
    assert t[..|x|] == x;
    assert t[|x| + 1..] == rest;
  }

  /** A `}`-terminated field, before whatever `pat` reads. */
  lemma MatchArgThen(x: string, rest: string, nonEmpty: bool, pat: Pattern, h: Hit)
    requires forall i :: 0 <= i < |x| ==> x[i] != '}'
    requires nonEmpty ==> x != []
    requires Match(rest, pat) == Some(h)
    ensures Match(x + "}" + rest, [Arg(nonEmpty)] + pat) == Some(Hit([x] + h.groups, h.rest))
  {
    MatchArgOf(x, rest, nonEmpty);
    assert ([Arg(nonEmpty)] + pat)[1..] == pat;
    MatchStep(x + "}" + rest, [Arg(nonEmpty)] + pat, Hit([x], rest), h);
  }

  /** A literal then a `}`-terminated field, before whatever `pat` reads. */
  lemma MatchLitArg(a: string, x: string, rest: string, nonEmpty: bool, pat: Pattern, h: Hit)
    requires forall i :: 0 <= i < |x| ==> x[i] != '}'
    requires nonEmpty ==> x != []
    requires Match(rest, pat) == Some(h)
    ensures Match(a + (x + "}" + rest), [Lit(a), Arg(nonEmpty)] + pat) == Some(Hit([x] + h.groups, h.rest))
  {
    MatchArgThen(x, rest, nonEmpty, pat, h);
    MatchLitThen(a, x + "}" + rest, [Arg(nonEmpty)] + pat, Hit([x] + h.groups, h.rest));
    assert [Lit(a), Arg(nonEmpty)] + pat == [Lit(a)] + ([Arg(nonEmpty)] + pat);
  }

  /** A literal before whatever `pat` reads. */
  lemma MatchLitThen(a: string, rest: string, pat: Pattern, h: Hit)
    requires Match(rest, pat) == Some(h)
    ensures Match(a + rest, [Lit(a)] + pat) == Some(h)
  {
    var p := [Lit(a)] + pat;
    assert p[1..] == pat;
    MatchLitOf(a, rest);
    MatchStep(a + rest, p, Hit([], rest), h);
    assert [] + h.groups == h.groups;
  }

  /** A pattern of one piece. */
  lemma MatchOne(t: string, p: Piece, h: Hit)
    requires MatchPiece(t, p) == Some(h)
    ensures Match(t, [p]) == Some(h)
  {
    assert [p][1..] == [];
    MatchStep(t, [p], h, Hit([], h.rest));
    assert h.groups + [] == h.groups;
  }

  /** Three literal-and-field pairs in a row, as in `\cventry{a}{b}{c}`. */
  lemma MatchThreeArgs(a1: string, x1: string, n1: bool, a2: string, x2: string, n2: bool,
                       a3: string, x3: string, n3: bool, rest: string)
    requires forall i :: 0 <= i < |x1| ==> x1[i] != '}'
    requires forall i :: 0 <= i < |x2| ==> x2[i] != '}'
    requires forall i :: 0 <= i < |x3| ==> x3[i] != '}'
    requires (n1 ==> x1 != []) && (n2 ==> x2 != []) && (n3 ==> x3 != [])
    ensures Match(a1 + (x1 + "}" + (a2 + (x2 + "}" + (a3 + (x3 + "}" + rest))))),
                  [Lit(a1), Arg(n1)] + ([Lit(a2), Arg(n2)] + ([Lit(a3), Arg(n3)] + [])))
            == Some(Hit([x1, x2, x3], rest))
  {
    var s3 := a3 + (x3 + "}" + rest);
    var s2 := a2 + (x2 + "}" + s3);
    var p3 := [Lit(a3), Arg(n3)] + [];
    var p2 := [Lit(a2), Arg(n2)] + p3;
    assert Match(rest, []) == Some(Hit([], rest));
    MatchLitArg(a3, x3, rest, n3, [], Hit([], rest));
    MatchLitArg(a2, x2, s3, n2, p3, Hit([x3] + [], rest));
    MatchLitArg(a1, x1, s2, n1, p2, Hit([x2] + ([x3] + []), rest));
    assert [x1] + ([x2] + ([x3] + [])) == [x1, x2, x3];
  }

  /** `(.*?)stop` with DOTALL reads everything up to the first `stop`. */
  lemma MatchLazyOf(x: string, stop: string, rest: string, atLeastOne: bool)
    requires atLeastOne ==> x != []
    requires forall k :: 0 <= k < |x| ==> !StartsWith((x + stop + rest)[k..], stop)
    ensures MatchPiece(x + stop + rest, Lazy(stop, atLeastOne, true)) == Some(Hit([x], rest))
  {
    var t := x + stop + rest;
    assert t[|x|..] == stop + rest;
    assert (stop + rest)[..|stop|] == stop;
    assert LazyFrom(t, stop, 0, if atLeastOne then 1 else 0, true) == Some(|x|);
    assert t[..|x|] == x;
    assert t[|x| + |stop|..] == rest;
  }

  /** `(.+)` reads a non-empty line up to its newline. */
  lemma MatchLineOf(x: string, rest: string)
    requires x != [] && forall i :: 0 <= i < |x| ==> x[i] != '\n'
    requires rest == [] || rest[0] == '\n'
    ensures MatchPiece(x + rest, Line) == Some(Hit([x], rest))
  {
    var t := x + rest;
    assert forall i :: 0 <= i < |x| ==> t[i] == x[i];
    assert |x| < |t| ==> t[|x|] == rest[0];
    assert LineRun(t) == |x|;
    assert t[..|x|] == x;
    assert t[|x|..] == rest;
  }

  /** `(.*?)(?=stop|$)` reads everything up to a `stop` or a final newline
      when none starts earlier. */
  lemma ScanToLookaheadOf(x: string, y: string, stop: string)
    requires |stop| >= 2 && Avoids(x, stop[0], stop[1]) && y != []
    requires StartsWith(y, stop) || AtEnd(y)
    ensures MatchPiece(x + y, UpToLookahead(stop)) == Some(Hit([x], y))
  {
    var t := x + y;
    forall k | 0 <= k < |x|
      ensures !StartsWith(t[k..], stop) && !AtEnd(t[k..])
    {
      AvoidsNoStart(x, y, stop, k);
    }
    assert t[|x|..] == y;
    LookaheadAt(t, stop, |x|);
    assert t[..|x|] == x;
  }

  /** The scan stops at the first position where `stop` or `$` follows. */
  lemma LookaheadAt(t: string, stop: string, m: nat)
    requires m <= |t| && (StartsWith(t[m..], stop) || AtEnd(t[m..]))
    requires forall k :: 0 <= k < m ==> !StartsWith(t[k..], stop) && !AtEnd(t[k..])
    ensures LookaheadFrom(t, stop, 0) == m
  {
    var n := LookaheadFrom(t, stop, 0);
    assert n >= m;
    assert n <= m;
  }

  /** A non-empty lazy run up to a one-character stop it does not contain. */
  lemma MatchLazyChar(x: string, c: char, rest: string)
    requires x != [] && forall k :: 0 <= k < |x| ==> x[k] != c
    ensures MatchPiece(x + [c] + rest, Lazy([c], true, true)) == Some(Hit([x], rest))
  {
    forall k | 0 <= k < |x|
      ensures !StartsWith((x + [c] + rest)[k..], [c])
    {
      assert (x + [c] + rest)[k..][0] == x[k];
    }
    MatchLazyOf(x, [c], rest, true);
  }

  /** A name up to a one-character stop, then a body up to where `stop`
      or the end of the text follows. */
  lemma MatchNameBody(c: char, x: string, y: string, next: string, stop: string)
    requires x != [] && forall k :: 0 <= k < |x| ==> x[k] != c
    requires |stop| >= 2 && Avoids(y, stop[0], stop[1]) && next != []
    requires StartsWith(next, stop) || AtEnd(next)
    ensures Match(x + [c] + (y + next), [Lazy([c], true, true), UpToLookahead(stop)]) == Some(Hit([x] + [y], next))
  {
    ScanToLookaheadOf(y, next, stop);
    MatchOne(y + next, UpToLookahead(stop), Hit([y], next));
    MatchLazyChar(x, c, y + next);
    var p := [Lazy([c], true, true), UpToLookahead(stop)];
    assert p[1..] == [UpToLookahead(stop)];
    MatchStep(x + [c] + (y + next), p, Hit([x], y + next), Hit([y], next));
  }

  /** A literal, a non-empty lazy run up to a one-character stop, then an
      up-to-lookahead run: the shape of a heading with a name and a body. */
  lemma MatchLitLazyAhead(a: string, c: char, x: string, y: string, next: string, stop: string)
    requires x != [] && forall k :: 0 <= k < |x| ==> x[k] != c
    requires |stop| >= 2 && Avoids(y, stop[0], stop[1]) && next != []
    requires StartsWith(next, stop) || AtEnd(next)
    ensures Match(a + (x + [c] + (y + next)), [Lit(a)] + [Lazy([c], true, true), UpToLookahead(stop)])
      == Some(Hit([x, y], next))
  {
    MatchNameBody(c, x, y, next, stop);
    MatchLitThen(a, x + [c] + (y + next), [Lazy([c], true, true), UpToLookahead(stop)], Hit([x] + [y], next));
    assert [x] + [y] == [x, y];
  }

  /** Padding, then a literal and a line: the line is the one group, and
      the search goes on after the line's newline. */
  lemma PadLineStep(pad: string, a: string, d: string, r: string, pat: Pattern)
    requires pat == [Lit(a), Line] && |a| >= 2 && a[0] != '\n'
    requires forall i :: 0 <= i < |pad| ==> pad[i] != a[0]
    requires d != [] && forall i :: 0 <= i < |d| ==> d[i] != '\n'
    ensures FindAll(pad + (a + (d + ("\n" + r))), pat) == [[d]] + FindAll(r, pat)
  {
    var y := "\n" + r;
    MatchLineOf(d, y);
    MatchOne(d + y, Line, Hit([d], y));
    assert pat == [Lit(a)] + [Line];
    MatchLitThen(a, d + y, [Line], Hit([d], y));
    FindAllHit(a + (d + y), pat, [d], y);
    SkipPad(pad, a + (d + y), pat);
    SkipPad("\n", r, pat);
  }
}
