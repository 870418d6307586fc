/** Reading back what `_json_to_latex_experience` writes: for companies whose
    fields the LaTeX text carries verbatim, parsing the Experience text gives
    back the same companies. */
module RoundTrip {
  import opened Results
  import opened Text
  import opened Patterns
  import opened ResumeModel
  import opened Parser
  import opened Serializer

  predicate NoBackslash(s: string) {
    forall i :: 0 <= i < |s| ==> s[i] != '\\'
  }

  /** A field written between braces: no `}`, and no backslash, so that no
      macro starts inside it. */
  predicate PlainField(s: string) {
    NoCloseBrace(s) && NoBackslash(s)
  }

  predicate PlainRole(r: Role) {
    r.period != [] && r.jobTitle != [] && PlainField(r.period) && PlainField(r.jobTitle)
  }

  /** A bullet the `\item (.+)` line gives back as it was. */
  predicate PlainItem(d: string) {
    d != [] && NoBackslash(d) && SingleLine(d) && Trimmed(d, PyWhitespace)
  }

  /** A company whose fields the LaTeX text carries verbatim: plain fields,
      at least one role, bullets that are trimmed single lines. */
  predicate Writable(e: Experience) {
    && e.company != [] && PlainField(e.company) && Trimmed(e.company, PyWhitespace)
    && PlainField(e.location)
    && |e.roles| >= 1
    && (forall i :: 0 <= i < |e.roles| ==> PlainRole(e.roles[i]))
    && (forall i :: 0 <= i < |e.description| ==> PlainItem(e.description[i]))
  }

  /** A single role with bullets is written without the location, so it
      comes back empty. */
  function AsRead(e: Experience): Experience {
    if |e.roles| == 1 && e.description != [] then e.(location := "") else e
  }

  // ------------------------------------------------------------------
  // The role entries of one company

  /** Role `i`'s entry carries the bullets. */
  predicate WithBullets(e: Experience, i: nat) {
    i == |e.roles| - 1 && e.description != []
  }

  /** The third field written for role `i`. */
  function LocationField(e: Experience, i: nat): string {
    if i == 0 && !WithBullets(e, i) then e.location else ""
  }

  /** The three fields of role `i`'s entry that the parser reads. */
  function EntryHead(e: Experience, i: nat): string
    requires i < |e.roles|
  {
    "\\cventry{" + e.roles[i].period + "}{" + e.roles[i].jobTitle + "}{" + LocationField(e, i) + "}"
  }

  /** The rest of role `i`'s entry, up to its final newline. */
  function EntryTail(e: Experience, i: nat): string {
    if WithBullets(e, i) then
      "{}{}{\n" + "    \\begin{itemize}\n" + ItemLines(e.description) + "    \\end{itemize}\n" + "}"
    else "{}{}{}"
  }

  lemma EntrySplit(e: Experience, i: nat)
    requires i < |e.roles|
    ensures RoleEntry(e, i) == EntryHead(e, i) + EntryTail(e, i) + "\n"
  {
    var a := "\\cventry{" + e.roles[i].period + "}{" + e.roles[i].jobTitle;
    if WithBullets(e, i) {
      BulletEntryText(a, ItemizeBlock(e.description), "    \\begin{itemize}\n", ItemLines(e.description), "    \\end{itemize}\n");
    } else {
      PlainEntryText(a, LocationField(e, i));
    }
  }

  lemma BulletEntryText(a: string, block: string, b: string, l: string, c: string)
    requires block == b + l + c + "}\n"
    ensures a + "}{}{}{}{\n" + block == (a + "}{" + "" + "}") + ("{}{}{\n" + b + l + c + "}") + "\n"
  {
    assert "}{}{}{}{\n" == "}{" + "" + "}" + "{}{}{\n";
    var x := b + l + c;
    assert "{}{}{\n" + b + l + c + "}" == "{}{}{\n" + x + "}";
  }

  lemma PlainEntryText(a: string, location: string)
    ensures a + "}{" + location + "}{}{}{}\n" == (a + "}{" + location + "}") + "{}{}{}" + "\n"
  {
  }

  /** The role entries from role `i` on, without the final newline: what
      stripping the company's content leaves of them. */
  function Entries(e: Experience, i: nat): string
    requires i < |e.roles|
    decreases |e.roles| - i
  {
    if i == |e.roles| - 1 then EntryHead(e, i) + EntryTail(e, i)
    else EntryHead(e, i) + EntryTail(e, i) + "\n" + Entries(e, i + 1)
  }

  lemma {:induction false} EntriesNewline(e: Experience, i: nat)
    requires i < |e.roles|
    ensures RoleEntries(e, i) == Entries(e, i) + "\n"
    decreases |e.roles| - i
  {
    EntrySplit(e, i);
    var x := EntryHead(e, i) + EntryTail(e, i);
    if i == |e.roles| - 1 {
      assert RoleEntries(e, i + 1) == "";
      assert RoleEntries(e, i) == (x + "\n") + "";
    } else {
      EntriesNewline(e, i + 1);
      var y := Entries(e, i + 1);
      assert RoleEntries(e, i) == (x + "\n") + (y + "\n");
      assert (x + "\n") + (y + "\n") == (x + "\n" + y) + "\n";
    }
  }

  // ------------------------------------------------------------------
  // Where no macro of the parser starts

  lemma {:induction false} ItemLinesAvoid(ds: seq<string>, b: char)
    requires b != 'i' && forall k :: 0 <= k < |ds| ==> NoBackslash(ds[k])
    ensures Avoids(ItemLines(ds), '\\', b)
    decreases |ds|
  {
    if ds != [] {
      var x, d, rest := "        \\item ", ds[0], ItemLines(ds[1..]);
      assert ItemLines(ds) == x + d + "\n" + rest;
      assert Avoids(x + d, '\\', b) by {
        AvoidsAt(x, '\\', b);
        AvoidsWithout(d, '\\', b);
        AvoidsConcat(x, d, '\\', b);
      }
      assert Avoids(x + d + "\n", '\\', b) by {
        AvoidsWithout("\n", '\\', b);
        AvoidsConcat(x + d, "\n", '\\', b);
      }
      ItemLinesAvoid(ds[1..], b);
      AvoidsConcat(x + d + "\n", rest, '\\', b);
    }
  }

  /** The head of an entry has one macro, `\cventry`. */
  lemma HeadAvoids(e: Experience, i: nat, b: char)
    requires Writable(e) && i < |e.roles| && b != 'c'
    ensures Avoids(EntryHead(e, i), '\\', b)
  {
    assert PlainRole(e.roles[i]);
    HeadTextAvoids(e.roles[i].period, e.roles[i].jobTitle, LocationField(e, i), b);
  }

  lemma HeadTextAvoids(p: string, t: string, l: string, b: char)
    requires NoBackslash(p) && NoBackslash(t) && NoBackslash(l) && b != 'c'
    ensures Avoids("\\cventry{" + p + "}{" + t + "}{" + l + "}", '\\', b)
  {
    var x := "\\cventry{";
    assert Avoids(x + p, '\\', b) by {
      AvoidsAt(x, '\\', b);
      AvoidsWithout(p, '\\', b);
      AvoidsConcat(x, p, '\\', b);
    }
    assert Avoids(x + p + "}{" + t, '\\', b) by {
      AvoidsWithout("}{", '\\', b);
      AvoidsWithout(t, '\\', b);
      AvoidsConcat(x + p, "}{", '\\', b);
      AvoidsConcat(x + p + "}{", t, '\\', b);
    }
    AvoidsWithout("}{", '\\', b);
    AvoidsWithout(l, '\\', b);
    AvoidsWithout("}", '\\', b);
    AvoidsConcat(x + p + "}{" + t, "}{", '\\', b);
    AvoidsConcat(x + p + "}{" + t + "}{", l, '\\', b);
    AvoidsConcat(x + p + "}{" + t + "}{" + l, "}", '\\', b);
  }

  /** The tail of an entry has the macros of the itemize block, if any. */
  lemma TailAvoids(e: Experience, i: nat, b: char)
    requires Writable(e)
    requires WithBullets(e, i) ==> b != 'b' && b != 'i' && b != 'e'
    ensures Avoids(EntryTail(e, i), '\\', b)
  {
    if WithBullets(e, i) {
      BulletTailAvoids(e.description, b);
    } else {
      AvoidsWithout("{}{}{}", '\\', b);
    }
  }

  lemma BulletTailAvoids(ds: seq<string>, b: char)
    requires b != 'b' && b != 'i' && b != 'e' && forall k :: 0 <= k < |ds| ==> NoBackslash(ds[k])
    ensures Avoids("{}{}{\n" + "    \\begin{itemize}\n" + ItemLines(ds) + "    \\end{itemize}\n" + "}", '\\', b)
  {
    var x0, x1, l, x2 := "{}{}{\n", "    \\begin{itemize}\n", ItemLines(ds), "    \\end{itemize}\n";
    assert Avoids(x0 + x1, '\\', b) by {
      AvoidsWithout(x0, '\\', b);
      BeginAvoids(b);
      AvoidsConcat(x0, x1, '\\', b);
    }
    assert Avoids(x0 + x1 + l, '\\', b) by {
      ItemLinesAvoid(ds, b);
      AvoidsConcat(x0 + x1, l, '\\', b);
    }
    assert Avoids(x0 + x1 + l + x2, '\\', b) by {
      EndAvoids(b);
      AvoidsConcat(x0 + x1 + l, x2, '\\', b);
    }
    AvoidsWithout("}", '\\', b);
    AvoidsConcat(x0 + x1 + l + x2, "}", '\\', b);
  }

  lemma BeginAvoids(b: char)
    requires b != 'b'
    ensures Avoids("    \\begin{itemize}\n", '\\', b)
  {
    AvoidsAt("    \\begin{itemize}\n", '\\', b);
  }

  lemma EndAvoids(b: char)
    requires b != 'e'
    ensures Avoids("    \\end{itemize}\n", '\\', b)
  {
    AvoidsAt("    \\end{itemize}\n", '\\', b);
  }

  lemma {:induction false} EntriesAvoid(e: Experience, i: nat, b: char)
    requires Writable(e) && i < |e.roles| && b != 'c'
    requires e.description != [] ==> b != 'b' && b != 'i' && b != 'e'
    ensures Avoids(Entries(e, i), '\\', b)
    decreases |e.roles| - i
  {
    HeadAvoids(e, i, b);
    TailAvoids(e, i, b);
    var h, t := EntryHead(e, i), EntryTail(e, i);
    AvoidsConcat(h, t, '\\', b);
    if i < |e.roles| - 1 {
      AvoidsWithout("\n", '\\', b);
      AvoidsConcat(h + t, "\n", '\\', b);
      EntriesAvoid(e, i + 1, b);
      AvoidsConcat(h + t + "\n", Entries(e, i + 1), '\\', b);
    }
  }

  // ------------------------------------------------------------------
  // The roles read back

  /** `\cventry{p}{t}{l}` followed by anything yields the three fields. */
  lemma RoleHeadMatch(p: string, t: string, l: string, rest: string)
    requires p != [] && t != [] && NoCloseBrace(p) && NoCloseBrace(t) && NoCloseBrace(l)
    ensures Match("\\cventry{" + p + "}{" + t + "}{" + l + "}" + rest, RolePattern) == Some(Hit([p, t, l], rest))
  {
    MatchThreeArgs("\\cventry{", p, true, "{", t, true, "{", l, false, rest);
    RolePatternPieces();
    HeadText("\\cventry{", p, t, l, rest);
  }

  lemma RolePatternPieces()
    ensures RolePattern == [Lit("\\cventry{"), Arg(true)] + ([Lit("{"), Arg(true)] + ([Lit("{"), Arg(false)] + []))
  {
  }

  /** The role pattern starts with `\c`. */
  lemma RolePatternStart()
    ensures Advances(RolePattern) && |RolePattern[0].text| >= 2
    ensures RolePattern[0].text[0] == '\\' && RolePattern[0].text[1] == 'c'
  {
  }

  lemma HeadText(a: string, p: string, t: string, l: string, rest: string)
    ensures a + (p + "}" + ("{" + (t + "}" + ("{" + (l + "}" + rest))))) == a + p + "}{" + t + "}{" + l + "}" + rest
  {
    assert "}{" == "}" + "{";
  }

  /** The fields of roles `i`, `i + 1`, ... as the role pattern captures them. */
  function RoleFields(e: Experience, i: nat): seq<seq<string>>
    requires i <= |e.roles|
  {
    seq(|e.roles| - i, k requires 0 <= k < |e.roles| - i =>
      [e.roles[i + k].period, e.roles[i + k].jobTitle, LocationField(e, i + k)])
  }

  lemma RoleFieldsCons(e: Experience, i: nat)
    requires i < |e.roles|
    ensures RoleFields(e, i) == [[e.roles[i].period, e.roles[i].jobTitle, LocationField(e, i)]] + RoleFields(e, i + 1)
  {
  }

  /** An entry that is followed by more entries: its fields, then those of
      the entries after it. */
  lemma EntryThen(p: string, t: string, l: string, tail: string, next: string)
    requires p != [] && t != [] && NoCloseBrace(p) && NoCloseBrace(t) && NoCloseBrace(l)
    requires Avoids(tail, '\\', 'c')
    ensures FindAll("\\cventry{" + p + "}{" + t + "}{" + l + "}" + tail + "\n" + next, RolePattern)
      == [[p, t, l]] + FindAll(next, RolePattern)
  {
    var h := "\\cventry{" + p + "}{" + t + "}{" + l + "}";
    assert Avoids(tail + "\n", '\\', 'c') by {
      AvoidsWithout("\n", '\\', 'c');
      AvoidsConcat(tail, "\n", '\\', 'c');
    }
    RoleHeadMatch(p, t, l, (tail + "\n") + next);
    RolePatternStart();
    FindAllThen(h, tail + "\n", next, RolePattern, [p, t, l]);
    Regroup(h, tail, next);
  }

  lemma Regroup(h: string, tail: string, next: string)
    ensures h + tail + "\n" + next == h + ((tail + "\n") + next)
  {
  }

  /** The last entry: its fields and nothing more. */
  lemma EntryLast(p: string, t: string, l: string, tail: string)
    requires p != [] && t != [] && NoCloseBrace(p) && NoCloseBrace(t) && NoCloseBrace(l)
    requires Avoids(tail, '\\', 'c')
    ensures FindAll("\\cventry{" + p + "}{" + t + "}{" + l + "}" + tail, RolePattern) == [[p, t, l]]
  {
    var h := "\\cventry{" + p + "}{" + t + "}{" + l + "}";
    RoleHeadMatch(p, t, l, tail + []);
    RolePatternStart();
    FindAllThen(h, tail, [], RolePattern, [p, t, l]);
    assert FindAll([], RolePattern) == [];
    assert tail + [] == tail;
  }

  /** The entry of a role that is not the last: its match, then the next entries. */
  lemma RolesStep(e: Experience, i: nat)
    requires Writable(e) && i < |e.roles| - 1
    ensures FindAll(Entries(e, i), RolePattern)
      == [[e.roles[i].period, e.roles[i].jobTitle, LocationField(e, i)]] + FindAll(Entries(e, i + 1), RolePattern)
  {
    assert PlainRole(e.roles[i]);
    TailAvoids(e, i, 'c');
    EntryThen(e.roles[i].period, e.roles[i].jobTitle, LocationField(e, i), EntryTail(e, i), Entries(e, i + 1));
  }

  /** The entry of the last role: its match and nothing after it. */
  lemma RolesLast(e: Experience, i: nat)
    requires Writable(e) && i == |e.roles| - 1
    ensures FindAll(Entries(e, i), RolePattern) == [[e.roles[i].period, e.roles[i].jobTitle, LocationField(e, i)]]
  {
    assert PlainRole(e.roles[i]);
    TailAvoids(e, i, 'c');
    EntryLast(e.roles[i].period, e.roles[i].jobTitle, LocationField(e, i), EntryTail(e, i));
  }

  /** One match per entry, each giving its role's period, job title and
      written location. */
  lemma {:induction false} RolesFound(e: Experience, i: nat)
    requires Writable(e) && i < |e.roles|
    ensures FindAll(Entries(e, i), RolePattern) == RoleFields(e, i)
    decreases |e.roles| - i
  {
    RoleFieldsCons(e, i);
    if i == |e.roles| - 1 {
      RolesLast(e, i);
      assert RoleFields(e, i + 1) == [];
    } else {
      RolesStep(e, i);
      RolesFound(e, i + 1);
    }
  }

  // ------------------------------------------------------------------
  // The bullets read back

  /** The groups of `\item (.+)`, one per bullet. */
  function Singletons(ds: seq<string>): seq<seq<string>> {
    seq(|ds|, k requires 0 <= k < |ds| => [ds[k]])
  }

  lemma ItemPatternStart()
    ensures ItemPattern == [Lit("\\item ")] + [Line]
    ensures Advances(ItemPattern) && |ItemPattern[0].text| >= 2
    ensures ItemPattern[0].text[0] == '\\' && ItemPattern[0].text[1] == 'i'
  {
  }

  lemma ItemLineText(d: string, r: string)
    ensures "        \\item " + d + "\n" + r + "    " == "        " + ("\\item " + (d + ("\n" + (r + "    "))))
  {
    assert "        \\item " == "        " + "\\item ";
  }

  /** One `\item` line: its text, then the lines after it. */
  lemma ItemStep(d: string, r: string)
    requires d != [] && SingleLine(d)
    ensures FindAll("        \\item " + d + "\n" + r + "    ", ItemPattern) == [[d]] + FindAll(r + "    ", ItemPattern)
  {
    ItemLineText(d, r);
    ItemPatternStart();
    PadLineStep("        ", "\\item ", d, r + "    ", ItemPattern);
  }

  /** One match per `\item` line, capturing its text. */
  lemma {:induction false} ItemsFound(ds: seq<string>)
    requires forall k :: 0 <= k < |ds| ==> ds[k] != [] && SingleLine(ds[k])
    ensures FindAll(ItemLines(ds) + "    ", ItemPattern) == Singletons(ds)
    decreases |ds|
  {
    if ds == [] {
      ItemPatternStart();
      AvoidsWithout("    ", '\\', 'i');
      FindAllNone("    ", ItemPattern);
      assert ItemLines(ds) + "    " == "    ";
    } else {
      ItemStep(ds[0], ItemLines(ds[1..]));
      ItemsFound(ds[1..]);
      assert Singletons(ds) == [[ds[0]]] + Singletons(ds[1..]);
    }
  }

  /** The text between `\begin{itemize}` and `\end{itemize}`. */
  function BlockInner(ds: seq<string>): string {
    "\n" + ItemLines(ds) + "    "
  }

  /** Every bullet comes back from its `\item` line. */
  lemma ItemTextsBack(ds: seq<string>)
    requires forall k :: 0 <= k < |ds| ==> PlainItem(ds[k])
    ensures ItemTexts(BlockInner(ds)) == ds
  {
    ItemPatternStart();
    AvoidsWithout("\n", '\\', 'i');
    FindAllSkip("\n", ItemLines(ds) + "    ", ItemPattern);
    assert BlockInner(ds) == "\n" + (ItemLines(ds) + "    ");
    ItemsFound(ds);
    var r := ItemTexts(BlockInner(ds));
    forall k | 0 <= k < |ds|
      ensures r[k] == ds[k]
    {
      StripTrimmed(ds[k], PyWhitespace);
    }
  }

  lemma ItemizePatternStart()
    ensures ItemizePattern == [Lit("\\begin{itemize}")] + [Lazy("\\end{itemize}", false, true)]
    ensures Advances(ItemizePattern) && |ItemizePattern[0].text| >= 2
    ensures ItemizePattern[0].text[0] == '\\' && ItemizePattern[0].text[1] == 'b'
  {
  }

  lemma BlockText(h: string, l: string)
    ensures h + ("{}{}{\n" + "    \\begin{itemize}\n" + l + "    \\end{itemize}\n" + "}")
      == (h + "{}{}{\n    ") + ("\\begin{itemize}" + (("\n" + l + "    ") + "\\end{itemize}" + "\n}"))
  {
    assert "    \\begin{itemize}\n" == "    " + "\\begin{itemize}" + "\n";
    assert "    \\end{itemize}\n" == "    " + "\\end{itemize}" + "\n";
    assert "{}{}{\n" + "    " == "{}{}{\n    ";
    assert "\n" + "}" == "\n}";
    BlockPieces(h, "{}{}{\n", "    ", "\\begin{itemize}", "\n", l, "    ", "\\end{itemize}", "\n", "}");
  }

  lemma BlockPieces(h: string, a: string, b1: string, b2: string, b3: string, l: string,
                    e1: string, e2: string, e3: string, f: string)
    ensures h + (a + (b1 + b2 + b3) + l + (e1 + e2 + e3) + f)
      == (h + (a + b1)) + (b2 + ((b3 + l + e1) + e2 + (e3 + f)))
  {
  }

  lemma InnerAvoids(ds: seq<string>)
    requires forall k :: 0 <= k < |ds| ==> NoBackslash(ds[k])
    ensures Avoids(BlockInner(ds), '\\', 'e')
  {
    AvoidsWithout("\n", '\\', 'e');
    ItemLinesAvoid(ds, 'e');
    AvoidsWithout("    ", '\\', 'e');
    AvoidsConcat("\n", ItemLines(ds), '\\', 'e');
    AvoidsConcat("\n" + ItemLines(ds), "    ", '\\', 'e');
  }

  /** The block itself: `\begin{itemize}`, the items, `\end{itemize}`. */
  lemma BlockMatch(ds: seq<string>)
    requires forall k :: 0 <= k < |ds| ==> NoBackslash(ds[k])
    ensures Match("\\begin{itemize}" + (BlockInner(ds) + "\\end{itemize}" + "\n}"), ItemizePattern)
      == Some(Hit([BlockInner(ds)], "\n}"))
  {
    var inner, stop := BlockInner(ds), "\\end{itemize}";
    InnerAvoids(ds);
    forall k | 0 <= k < |inner|
      ensures !StartsWith((inner + stop + "\n}")[k..], stop)
    {
      AvoidsNoStart(inner, stop + "\n}", stop, k);
      assert inner + stop + "\n}" == inner + (stop + "\n}");
    }
    MatchLazyOf(inner, stop, "\n}", false);
    MatchOne(inner + stop + "\n}", Lazy(stop, false, true), Hit([inner], "\n}"));
    MatchLitThen("\\begin{itemize}", inner + stop + "\n}", [Lazy(stop, false, true)], Hit([inner], "\n}"));
    ItemizePatternStart();
  }

  /** The block is the one match from `\begin{itemize}` on. */
  lemma BlockHit(ds: seq<string>)
    requires forall k :: 0 <= k < |ds| ==> NoBackslash(ds[k])
    ensures FindAll("\\begin{itemize}" + (BlockInner(ds) + "\\end{itemize}" + "\n}"), ItemizePattern)
      == [[BlockInner(ds)]]
  {
    BlockMatch(ds);
    ItemizePatternStart();
    FindAllHit("\\begin{itemize}" + (BlockInner(ds) + "\\end{itemize}" + "\n}"), ItemizePattern, [BlockInner(ds)], "\n}");
    AvoidsWithout("\n}", '\\', 'b');
    FindAllNone("\n}", ItemizePattern);
  }

  /** Text without `\b` before the block leaves the block the one match. */
  lemma SkipToBlock(p: string, ds: seq<string>)
    requires Avoids(p, '\\', 'b') && forall k :: 0 <= k < |ds| ==> NoBackslash(ds[k])
    ensures FindAll(p + ("\\begin{itemize}" + (BlockInner(ds) + "\\end{itemize}" + "\n}")), ItemizePattern)
      == [[BlockInner(ds)]]
  {
    BlockHit(ds);
    ItemizePatternStart();
    FindAllSkip(p, "\\begin{itemize}" + (BlockInner(ds) + "\\end{itemize}" + "\n}"), ItemizePattern);
  }

  /** After a head without `\begin`, the block is the one match. */
  lemma BlockFound(h: string, ds: seq<string>)
    requires Avoids(h, '\\', 'b') && forall k :: 0 <= k < |ds| ==> NoBackslash(ds[k])
    ensures FindAll(h + ("{}{}{\n" + "    \\begin{itemize}\n" + ItemLines(ds) + "    \\end{itemize}\n" + "}"), ItemizePattern)
      == [[BlockInner(ds)]]
  {
    assert Avoids(h + "{}{}{\n    ", '\\', 'b') by {
      AvoidsWithout("{}{}{\n    ", '\\', 'b');
      AvoidsConcat(h, "{}{}{\n    ", '\\', 'b');
    }
    SkipToBlock(h + "{}{}{\n    ", ds);
    BlockText(h, ItemLines(ds));
  }

  /** The entries from role `i` up to, without, the last one. */
  function Before(e: Experience, i: nat): string
    requires i < |e.roles|
    decreases |e.roles| - i
  {
    if i == |e.roles| - 1 then "" else EntryHead(e, i) + EntryTail(e, i) + "\n" + Before(e, i + 1)
  }

  lemma {:induction false} EntriesBefore(e: Experience, i: nat, last: nat)
    requires last == |e.roles| - 1 && i <= last
    ensures Entries(e, i) == Before(e, i) + Entries(e, last)
    decreases last - i
  {
    if i == last {
      assert Before(e, i) == "";
    } else {
      EntriesBefore(e, i + 1, last);
      var x := EntryHead(e, i) + EntryTail(e, i) + "\n";
      assert x + (Before(e, i + 1) + Entries(e, last)) == (x + Before(e, i + 1)) + Entries(e, last);
    }
  }

  /** Before the last entry, the only macro is `\cventry`. */
  lemma {:induction false} BeforeAvoids(e: Experience, i: nat, b: char)
    requires Writable(e) && i < |e.roles| && b != 'c'
    ensures Avoids(Before(e, i), '\\', b)
    decreases |e.roles| - i
  {
    if i < |e.roles| - 1 {
      var h, t := EntryHead(e, i), EntryTail(e, i);
      assert Avoids(h + t + "\n", '\\', b) by {
        HeadAvoids(e, i, b);
        TailAvoids(e, i, b);
        AvoidsWithout("\n", '\\', b);
        AvoidsConcat(h, t, '\\', b);
        AvoidsConcat(h + t, "\n", '\\', b);
      }
      BeforeAvoids(e, i + 1, b);
      AvoidsConcat(h + t + "\n", Before(e, i + 1), '\\', b);
    }
  }

  lemma ItemizeLast(e: Experience, i: nat)
    requires Writable(e) && i == |e.roles| - 1 && e.description != []
    ensures FindAll(Entries(e, i), ItemizePattern) == [[BlockInner(e.description)]]
  {
    HeadAvoids(e, i, 'b');
    assert forall k :: 0 <= k < |e.description| ==> NoBackslash(e.description[k]);
    BlockFound(EntryHead(e, i), e.description);
  }

  /** The bullets of the written entries are the company's description. */
  lemma BulletsBack(e: Experience)
    requires Writable(e)
    ensures Bullets(Entries(e, 0)) == e.description
  {
    if e.description == [] {
      EntriesAvoid(e, 0, 'b');
      ItemizePatternStart();
      FindAllNone(Entries(e, 0), ItemizePattern);
    } else {
      var last := |e.roles| - 1;
      EntriesBefore(e, 0, last);
      BeforeAvoids(e, 0, 'b');
      ItemizePatternStart();
      FindAllSkip(Before(e, 0), Entries(e, last), ItemizePattern);
      ItemizeLast(e, last);
      ItemTextsBack(e.description);
    }
  }

  // ------------------------------------------------------------------
  // One company read back

  /** The entries begin with `\cventry` and end with a closing brace. */
  lemma {:induction false} EntriesEnds(e: Experience, i: nat)
    requires i < |e.roles|
    ensures var x := Entries(e, i); |x| > 0 && x[0] == '\\' && x[|x| - 1] == '}'
    decreases |e.roles| - i
  {
    var h, t := EntryHead(e, i), EntryTail(e, i);
    assert h[0] == '\\';
    assert t[|t| - 1] == '}';
    if i < |e.roles| - 1 {
      EntriesEnds(e, i + 1);
    }
  }

  /** What `_parse_experience` captures as a company's content: the entries
      between the heading's newline and the blank line (the last company's
      blank line ends the text and is not captured). */
  function CompanyContent(e: Experience, last: bool): string
    requires |e.roles| >= 1
  {
    "\n" + Entries(e, 0) + (if last then "\n" else "\n\n")
  }

  /** Stripping the content leaves the entries. */
  lemma ContentStripped(e: Experience, last: bool)
    requires |e.roles| >= 1
    ensures Strip(CompanyContent(e, last)) == Entries(e, 0)
  {
    EntriesEnds(e, 0);
    StripSurrounded("\n", Entries(e, 0), if last then "\n" else "\n\n", PyWhitespace);
  }

  /** A company whose trimmed content is its entries parses back to itself. */
  lemma CompanyOfEntries(e: Experience, content: string)
    requires Writable(e) && Strip(content) == Entries(e, 0)
    ensures ParseCompany(e.company, content) == Ok(AsRead(e))
  {
    RolesFound(e, 0);
    ParseCompanyFields(e.company, content);
    StripTrimmed(e.company, PyWhitespace);
    BulletsBack(e);
    var r := ParseCompany(e.company, content).value;
    assert r.location == AsRead(e).location;
    assert r.roles == e.roles;
  }

  /** A written company, parsed from its name and content, is the company,
      without the location when its single role carries the bullets. */
  lemma CompanyBack(e: Experience, last: bool)
    requires Writable(e)
    ensures ParseCompany(e.company, CompanyContent(e, last)) == Ok(AsRead(e))
  {
    ContentStripped(e, last);
    CompanyOfEntries(e, CompanyContent(e, last));
  }

  // ------------------------------------------------------------------
  // The companies read back

  lemma CompanyPatternPieces()
    ensures CompanyPattern == [Lit("\\subsection{")] + [Lazy("}", true, true), UpToLookahead("\\subsection")]
    ensures Advances(CompanyPattern) && |CompanyPattern[0].text| >= 2
    ensures CompanyPattern[0].text[0] == '\\' && CompanyPattern[0].text[1] == 's'
  {
  }

  /** A heading with a name, then the content up to where the next heading
      or the end of the text follows. */
  lemma CompanyMatch(name: string, body: string, next: string)
    requires name != [] && NoCloseBrace(name)
    requires Avoids(body, '\\', 's') && next != []
    requires StartsWith(next, "\\subsection") || AtEnd(next)
    ensures Match("\\subsection{" + (name + "}" + (body + next)), CompanyPattern) == Some(Hit([name, body], next))
  {
    var stop := "\\subsection";
    assert stop[0] == '\\' && stop[1] == 's';
    assert "}" == ['}'];
    MatchLitLazyAhead("\\subsection{", '}', name, body, next, stop);
    CompanyPatternPieces();
  }

  /** A company's block, then whatever follows, in the pattern's reading. */
  lemma CompanyThen(name: string, body: string, next: string)
    requires name != [] && NoCloseBrace(name)
    requires Avoids(body, '\\', 's') && next != []
    requires StartsWith(next, "\\subsection") || AtEnd(next)
    ensures FindAll("\\subsection{" + (name + "}" + (body + next)), CompanyPattern)
      == [[name, body]] + FindAll(next, CompanyPattern)
  {
    CompanyMatch(name, body, next);
    CompanyPatternPieces();
    FindAllHit("\\subsection{" + (name + "}" + (body + next)), CompanyPattern, [name, body], next);
  }

  /** The content of a company avoids `\s`: same entries, same macros. */
  lemma ContentAvoids(e: Experience, last: bool)
    requires Writable(e)
    ensures Avoids(CompanyContent(e, last), '\\', 's')
  {
    EntriesAvoid(e, 0, 's');
    var w := if last then "\n" else "\n\n";
    AvoidsWithout("\n", '\\', 's');
    AvoidsWithout(w, '\\', 's');
    AvoidsConcat("\n", Entries(e, 0), '\\', 's');
    AvoidsConcat("\n" + Entries(e, 0), w, '\\', 's');
  }

  /** The text of the companies, regrouped as the pattern reads it: the
      heading's name, the content, and what follows the content. */
  lemma CompanyText(es: seq<Experience>)
    requires es != [] && |es[0].roles| >= 1
    ensures var e, last := es[0], |es| == 1;
      ExperienceLatex(es) == "\\subsection{" + (e.company + "}" + (CompanyContent(e, last) + (if last then "\n" else ExperienceLatex(es[1..]))))
  {
    var e := es[0];
    var x, n := Entries(e, 0), ExperienceLatex(es[1..]);
    EntriesNewline(e, 0);
    assert ExperienceLatex(es) == "\\subsection{" + e.company + "}\n" + (x + "\n") + "\n" + n;
    BlockAround(e.company, x, n);
    if |es| == 1 {
      assert n == "";
    }
  }

  lemma BlockAround(name: string, x: string, n: string)
    ensures "\\subsection{" + name + "}\n" + (x + "\n") + "\n" + n
      == "\\subsection{" + (name + "}" + (("\n" + x + "\n\n") + n))
    ensures "\\subsection{" + name + "}\n" + (x + "\n") + "\n" + ""
      == "\\subsection{" + (name + "}" + (("\n" + x + "\n") + "\n"))
  {
    assert "}\n" == "}" + "\n";
    assert "\n\n" == "\n" + "\n";
  }

  predicate AllWritable(es: seq<Experience>) {
    forall k :: 0 <= k < |es| ==> Writable(es[k])
  }

  /** The companies' groups as the company pattern captures them: the name,
      and the content up to the next heading or the end. */
  function CompanyMatches(es: seq<Experience>): (ms: seq<seq<string>>)
    requires AllWritable(es)
    ensures |ms| == |es|
    ensures forall k :: 0 <= k < |es| ==> ms[k] == [es[k].company, CompanyContent(es[k], k == |es| - 1)]
    decreases |es|
  {
    if es == [] then []
    else
      assert Writable(es[0]);
      assert AllWritable(es[1..]) by {
        forall k | 0 <= k < |es[1..]| ensures Writable(es[1..][k]) {
          assert es[1..][k] == es[k + 1];
        }
      }
      var rest := CompanyMatches(es[1..]);
      assert forall k :: 1 <= k < |es| ==> es[k] == es[1..][k - 1];
      [[es[0].company, CompanyContent(es[0], |es| == 1)]] + rest
  }

  /** The text after the first company starts with the next heading. */
  lemma NextHeading(es: seq<Experience>)
    requires |es| >= 2
    ensures StartsWith(ExperienceLatex(es[1..]), "\\subsection")
  {
    var e := es[1..][0];
    var r, n := RoleEntries(e, 0), ExperienceLatex(es[1..][1..]);
    assert ExperienceLatex(es[1..]) == CompanyBlock(e) + n;
    HeadingPrefix(e.company, r, n);
    StartsWithAppend("\\subsection", "{" + e.company + "}\n" + r + "\n" + n);
  }

  lemma HeadingPrefix(name: string, r: string, n: string)
    ensures "\\subsection{" + name + "}\n" + r + "\n" + n == "\\subsection" + ("{" + name + "}\n" + r + "\n" + n)
  {
    assert "\\subsection{" == "\\subsection" + "{";
  }

  /** A company followed by more companies. */
  lemma CompanyStep(es: seq<Experience>)
    requires |es| >= 2 && Writable(es[0])
    ensures FindAll(ExperienceLatex(es), CompanyPattern)
      == [[es[0].company, CompanyContent(es[0], false)]] + FindAll(ExperienceLatex(es[1..]), CompanyPattern)
  {
    CompanyText(es);
    ContentAvoids(es[0], false);
    NextHeading(es);
    CompanyThen(es[0].company, CompanyContent(es[0], false), ExperienceLatex(es[1..]));
  }

  /** A company's block at the end of the text is the one match. */
  lemma CompanyEnd(name: string, body: string)
    requires name != [] && NoCloseBrace(name) && Avoids(body, '\\', 's')
    ensures FindAll("\\subsection{" + (name + "}" + (body + "\n")), CompanyPattern) == [[name, body]]
  {
    CompanyThen(name, body, "\n");
    CompanyPatternPieces();
    AvoidsWithout("\n", '\\', 's');
    FindAllNone("\n", CompanyPattern);
  }

  /** The last company. */
  lemma CompanyLast(es: seq<Experience>)
    requires |es| == 1 && Writable(es[0])
    ensures FindAll(ExperienceLatex(es), CompanyPattern) == [[es[0].company, CompanyContent(es[0], true)]]
  {
    CompanyText(es);
    ContentAvoids(es[0], true);
    CompanyEnd(es[0].company, CompanyContent(es[0], true));
  }

  /** One match per company, in order. */
  lemma {:induction false} CompaniesFound(es: seq<Experience>)
    requires AllWritable(es)
    ensures FindAll(ExperienceLatex(es), CompanyPattern) == CompanyMatches(es)
    decreases |es|
  {
    if es == [] {
      CompanyPatternPieces();
      assert ExperienceLatex(es) == "";
    } else if |es| == 1 {
      assert Writable(es[0]);
      CompanyLast(es);
    } else {
      assert Writable(es[0]);
      CompanyStep(es);
      assert AllWritable(es[1..]) by {
        forall k | 0 <= k < |es[1..]| ensures Writable(es[1..][k]) {
          assert es[1..][k] == es[k + 1];
        }
      }
      CompaniesFound(es[1..]);
    }
  }

  /** The companies as the parser gives them back. */
  function ReadBack(es: seq<Experience>): (rs: seq<Experience>)
    ensures |rs| == |es| && forall k :: 0 <= k < |es| ==> rs[k] == AsRead(es[k])
  {
    seq(|es|, k requires 0 <= k < |es| => AsRead(es[k]))
  }

  /** Each company match parses to the company it was written from. */
  lemma CompanyResultsBack(es: seq<Experience>)
    requires AllWritable(es)
    ensures var rs := CompanyResults(CompanyMatches(es));
      |rs| == |es| && forall k :: 0 <= k < |es| ==> rs[k] == Ok(ReadBack(es)[k])
  {
    var rs := CompanyResults(CompanyMatches(es));
    forall k | 0 <= k < |es| ensures rs[k] == Ok(ReadBack(es)[k]) {
      assert Writable(es[k]);
      CompanyBack(es[k], k == |es| - 1);
    }
  }

  /** Reading back the Experience text that `_json_to_latex_experience`
      writes gives the companies it was written from, except for the
      location of a company whose single role carries the bullets. */
  lemma ExperienceRoundTrip(es: seq<Experience>)
    requires AllWritable(es)
    ensures ParseExperienceSpan(ExperienceLatex(es)) == Ok(ReadBack(es))
  {
    CompaniesFound(es);
    CompanyResultsBack(es);
    CollectAllOk(CompanyResults(CompanyMatches(es)), ReadBack(es));
  }

  /** When no company has a single role with bullets, the companies come
      back exactly. */
  lemma ExperienceRoundTripExact(es: seq<Experience>)
    requires AllWritable(es)
    requires forall k :: 0 <= k < |es| ==> |es[k].roles| >= 2 || es[k].description == []
    ensures ParseExperienceSpan(ExperienceLatex(es)) == Ok(es)
  {
    ExperienceRoundTrip(es);
    assert ReadBack(es) == es;
  }

  /** A single role with bullets and a location: the location is lost. */
  lemma LocationLost(e: Experience)
    requires Writable(e) && |e.roles| == 1 && e.description != [] && e.location != ""
    ensures ParseExperienceSpan(ExperienceLatex([e])) == Ok([e.(location := "")])
    ensures ParseExperienceSpan(ExperienceLatex([e])) != Ok([e])
  {
    ExperienceRoundTrip([e]);
    assert ReadBack([e]) == [e.(location := "")];
  }
}
