/** `LaTeXtoJSONParser`: from moderncv résumé text to the structured model.

    All parsing works on the text after `\&` has been replaced by the sentinel
    `__AND__`; `parse_resume` maps the sentinel back in every string of its
    result, `parse_personal_information` does not. */
module Parser {
  import opened Results
  import opened Text
  import opened Patterns
  import opened ResumeModel

  // ------------------------------------------------------------------
  // The ampersand sentinel

  const Sentinel: string := "__AND__"
  const EscapedAmpersand: string := "\\&"

  /** `latex_content.replace("\\&", "__AND__")`. */
  function Escape(t: string): string {
    Replace(t, EscapedAmpersand, Sentinel)
  }

  /** `obj.replace("__AND__", "\\&")`, applied by `replace_in_dict` to every string. */
  function Unescape(t: string): string {
    Replace(t, Sentinel, EscapedAmpersand)
  }

  /** The sentinel round trip is lossless on text without underscores. */
  lemma {:induction false} EscapeRoundTrip(t: string)
    requires forall i :: 0 <= i < |t| ==> t[i] != '_'
    ensures Unescape(Escape(t)) == t
    decreases |t|
  {
    if StartsWith(t, EscapedAmpersand) {
      var rest := t[2..];
      EscapeRoundTrip(rest);
      var e := Escape(rest);
      assert Escape(t) == Sentinel + e;
      assert (Sentinel + e)[..7] == Sentinel;
      assert (Sentinel + e)[7..] == e;
      assert t == EscapedAmpersand + rest;
    } else if t != [] {
      EscapeRoundTrip(t[1..]);
      var e := Escape(t[1..]);
      assert Escape(t) == [t[0]] + e;
      assert ([t[0]] + e)[0] == t[0];
      assert ([t[0]] + e)[1..] == e;
      assert t == [t[0]] + t[1..];
    }
  }

  lemma EscapeOfCollision()
    ensures Escape("__AND_\\&") == "__AND___AND__"
  {
    var x := "__AND_";
    assert Escape(x + EscapedAmpersand) == x + Escape(EscapedAmpersand) by {
      AvoidsWithout(x, '\\', '&');
      ReplaceSkip(x, EscapedAmpersand, EscapedAmpersand, Sentinel);
    }
    assert Escape(EscapedAmpersand) == Sentinel by {
      assert Replace([], EscapedAmpersand, Sentinel) == [];
    }
    assert x + EscapedAmpersand == "__AND_\\&";
    assert x + Sentinel == "__AND___AND__";
  }

  lemma UnescapeOfCollision()
    ensures Unescape("__AND___AND__") == "\\&_AND__"
  {
    var y := "_AND__";
    assert Unescape(y) == y by {
      assert Avoids("_AND", '_', '_');
      ReplaceSkip("_AND", "__", Sentinel, EscapedAmpersand);
      assert "_AND" + "__" == y;
    }
    assert Unescape(Sentinel + y) == EscapedAmpersand + Unescape(y) by {
      assert StartsWith(Sentinel + y, Sentinel);
      assert (Sentinel + y)[7..] == y;
    }
    assert Sentinel + y == "__AND___AND__";
    assert EscapedAmpersand + y == "\\&_AND__";
  }

  /** ... and is not collision-free otherwise: `__AND_\&` comes back as `\&_AND__`. */
  lemma EscapeCollision()
    ensures Unescape(Escape("__AND_\\&")) == "\\&_AND__"
  {
    EscapeOfCollision();
    UnescapeOfCollision();
  }

  // ------------------------------------------------------------------
  // parse_personal_information

  const NamePattern: Pattern := [Lit("\\name{"), Arg(true), Lit("{"), Arg(true)]
  const AddressPattern: Pattern := [Lit("\\address{"), Arg(true)]
  const PhonePattern: Pattern := [Lit("\\phone[mobile]{"), Arg(true)]
  const EmailPattern: Pattern := [Lit("\\email{"), Arg(true)]

  predicate NoCloseBrace(s: string) {
    forall i :: 0 <= i < |s| ==> s[i] != '}'
  }

  /** The group of the leftmost match of a one-field macro `macro{arg}`. */
  function AnchorField(t: string, pat: Pattern): (r: Option<string>)
    requires |pat| == 2 && pat[0].Lit? && pat[1] == Arg(true)
    ensures r.None? <==> Nowhere(t, pat)
    ensures r.Some? ==> FirstGroup(t, pat, 0, r.value)
    ensures r.Some? ==> r.value != [] && NoCloseBrace(r.value)
  {
    match Search(t, pat)
    case None => None
    case Some(f) =>
      assert Fits(f.hit.groups, pat[1..]);
      assert pat[1..][1..] == [];
      Some(f.hit.groups[0])
  }

  /** The two groups of the leftmost `\name{first}{last}`. */
  function NameFields(t: string): (r: Option<(string, string)>)
    ensures r.None? <==> Nowhere(t, NamePattern)
    ensures r.Some? ==> FirstGroup(t, NamePattern, 0, r.value.0) && FirstGroup(t, NamePattern, 1, r.value.1)
    ensures r.Some? ==> r.value.0 != [] && NoCloseBrace(r.value.0) && r.value.1 != [] && NoCloseBrace(r.value.1)
  {
    match Search(t, NamePattern)
    case None => None
    case Some(f) =>
      var g := f.hit.groups;
      assert Fits(g, NamePattern[1..]);
      assert Fits(g[1..], NamePattern[2..]);
      assert Fits(g[1..], NamePattern[3..]);
      Some((g[0], g[1]))
  }

  /** `parse_personal_information`: the four macros are searched in the whole
      escaped text, not only in the document body, and the sentinel is not
      mapped back. A missing macro raises AttributeError. Which error, and
      where the fields come from: `PersonalInformationMissing`,
      `PersonalInformationFound`. */
  function ParsePersonalInformation(latex: string): (r: Result<PersonalInfo, ParseError>)
    ensures r.Err? ==> r.error.AnchorNotFound?
    ensures r.Ok? ==>
      && r.value.address != [] && NoCloseBrace(r.value.address)
      && r.value.phone != [] && NoCloseBrace(r.value.phone)
      && r.value.email != [] && NoCloseBrace(r.value.email)
  {
    var t := Escape(latex);
    var name := NameFields(t);
    var address := AnchorField(t, AddressPattern);
    var phone := AnchorField(t, PhonePattern);
    var email := AnchorField(t, EmailPattern);
    if name.None? then Err(AnchorNotFound(Name))
    else if address.None? then Err(AnchorNotFound(Address))
    else if phone.None? then Err(AnchorNotFound(Phone))
    else if email.None? then Err(AnchorNotFound(Email))
    else Ok(PersonalInfo(name.value.0 + " " + name.value.1, address.value, phone.value, email.value))
  }

  /** The error names the first missing macro in the order name, address,
      phone, email. */
  lemma PersonalInformationMissing(latex: string)
    ensures var r := ParsePersonalInformation(latex); var t := Escape(latex);
      && (r == Err(AnchorNotFound(Name)) <==> Nowhere(t, NamePattern))
      && (r == Err(AnchorNotFound(Address)) <==> !Nowhere(t, NamePattern) && Nowhere(t, AddressPattern))
      && (r == Err(AnchorNotFound(Phone)) <==>
            !Nowhere(t, NamePattern) && !Nowhere(t, AddressPattern) && Nowhere(t, PhonePattern))
      && (r == Err(AnchorNotFound(Email)) <==>
            !Nowhere(t, NamePattern) && !Nowhere(t, AddressPattern) && !Nowhere(t, PhonePattern)
            && Nowhere(t, EmailPattern))
  {
  }

  /** Each field is the group of the leftmost match of its macro; the name
      joins the two groups of `\name` with a space. */
  lemma PersonalInformationFound(latex: string)
    requires ParsePersonalInformation(latex).Ok?
    ensures var p := ParsePersonalInformation(latex).value; var t := Escape(latex);
      && (exists first, last ::
            FirstGroup(t, NamePattern, 0, first) && FirstGroup(t, NamePattern, 1, last)
            && p.name == first + " " + last)
      && FirstGroup(t, AddressPattern, 0, p.address)
      && FirstGroup(t, PhonePattern, 0, p.phone)
      && FirstGroup(t, EmailPattern, 0, p.email)
  {
    var t := Escape(latex);
    var p := ParsePersonalInformation(latex);
    var name, address := NameFields(t), AnchorField(t, AddressPattern);
    var phone, email := AnchorField(t, PhonePattern), AnchorField(t, EmailPattern);
    assert name.Some? && address.Some? && phone.Some? && email.Some?;
    assert p == Ok(PersonalInfo(name.value.0 + " " + name.value.1, address.value, phone.value, email.value));
    assert FirstGroup(t, NamePattern, 0, name.value.0) && FirstGroup(t, NamePattern, 1, name.value.1);
  }

  // ------------------------------------------------------------------
  // Section spans

  const SectionMacro: string := "\\section"

  function Heading(name: string): string {
    "\\section{" + name + "}"
  }

  /** `\\section\{name\}(.*?)\\section` with DOTALL: the heading, then the
      shortest text up to the next `\section`. */
  function SectionPattern(name: string): Pattern {
    [Lit(Heading(name)), Lazy(SectionMacro, false, true)]
  }

  /** `\\section\{name\}(.*?)(\\section|$)` with DOTALL: the heading, then the
      shortest text up to the next `\section` or the end. */
  function OpenSectionPattern(name: string): Pattern {
    [Lit(Heading(name)), UpToLookahead(SectionMacro)]
  }

  /** Group 1 of `re.search(r"\\section\{name\}(.*?)\\section|$", t, re.DOTALL)`.
      At each position the section alternative is tried before `$`; when only
      `$` matches, the match object exists but its group is None, and the
      caller's `re.findall(.., None)` raises TypeError. So the span exists
      exactly when a heading is followed by a later `\section`, and it is the
      group of the leftmost such match. */
  function DelimitedSection(t: string, name: string): (r: Option<string>)
    ensures r.None? <==> Nowhere(t, SectionPattern(name))
    ensures r.Some? ==> FirstGroup(t, SectionPattern(name), 0, r.value)
    decreases |t|
  {
    var pat := SectionPattern(name);
    match Match(t, pat)
    case Some(h) =>
      FitsOne(h.groups, pat);
      FirstGroupHere(t, pat, h, 0);
      Some(h.groups[0])
    case None =>
      if AtEnd(t) then
        NowhereShort(t, pat);
        None
      else
        var r := DelimitedSection(t[1..], name);
        if r.None? then NowhereStep(t, pat); r
        else FirstGroupStep(t, pat, 0, r.value); r
  }

  /** Group 1 of `re.search(r"\\section\{name\}(.*?)(\\section|$)", t, re.DOTALL)`,
      or None when the heading does not occur. */
  function OpenSection(t: string, name: string): (r: Option<string>)
    ensures r.None? <==> Nowhere(t, OpenSectionPattern(name))
    ensures r.Some? ==> FirstGroup(t, OpenSectionPattern(name), 0, r.value)
  {
    var pat := OpenSectionPattern(name);
    match Search(t, pat)
    case None => None
    case Some(f) =>
      FitsOne(f.hit.groups, pat);
      assert FirstMatch(t, pat, f);
      Some(f.hit.groups[0])
  }

  // ------------------------------------------------------------------
  // _parse_skills

  /** `\\cvitem\{([^}]+)\}\{([^}]+)\}` */
  const SkillPattern: Pattern := [Lit("\\cvitem{"), Arg(true), Lit("{"), Arg(true)]

  /** One `\cvitem{skill}{details}` match. */
  function SkillOf(m: seq<string>): (r: Skill)
    requires |m| == 2 && FieldFits(Arg(true), m[0]) && FieldFits(Arg(true), m[1])
    ensures [r.skill, r.details] == m
    ensures r.skill != [] && NoCloseBrace(r.skill) && r.details != [] && NoCloseBrace(r.details)
  {
    Skill(m[0], m[1])
  }

  /** Every `\cvitem{skill}{details}` of the span, in order. */
  function SkillItems(span: string): (r: seq<Skill>)
    ensures var ms := FindAll(span, SkillPattern);
      |r| == |ms| && forall i :: 0 <= i < |r| ==> [r[i].skill, r[i].details] == ms[i]
    ensures forall i :: 0 <= i < |r| ==>
      r[i].skill != [] && NoCloseBrace(r[i].skill) && r[i].details != [] && NoCloseBrace(r[i].details)
  {
    var ms := FindAll(span, SkillPattern);
    assert forall i :: 0 <= i < |ms| ==> |ms[i]| == 2 && FieldFits(Arg(true), ms[i][0]) && FieldFits(Arg(true), ms[i][1]) by {
      forall i | 0 <= i < |ms| { FitsCaptures(ms[i], SkillPattern); }
    }
    seq(|ms|, i requires 0 <= i < |ms| => SkillOf(ms[i]))
  }

  /** `_parse_skills`: TypeError unless a Skills heading is followed by a
      later `\section`; otherwise the items of the first such span. */
  function ParseSkills(body: string): (r: Result<seq<Skill>, ParseError>)
    ensures r.Err? <==> Nowhere(body, SectionPattern("Skills"))
    ensures r.Err? ==> r.error == SectionNotDelimited("Skills")
    ensures r.Ok? ==> exists span :: FirstGroup(body, SectionPattern("Skills"), 0, span) && r.value == SkillItems(span)
  {
    match DelimitedSection(body, "Skills")
    case None => Err(SectionNotDelimited("Skills"))
    case Some(span) => Ok(SkillItems(span))
  }

  // ------------------------------------------------------------------
  // _parse_certificates

  /** `\\cvitem\{(\d+)\}\{([^}]+)\}` */
  const CertificatePattern: Pattern := [Lit("\\cvitem{"), Digits, Lit("{"), Arg(true)]

  predicate AllDigits(s: string) {
    s != [] && forall i :: 0 <= i < |s| ==> IsDigit(s[i])
  }

  /** One `\cvitem{year}{title}` match. */
  function CertificateOf(m: seq<string>): (r: Certificate)
    requires |m| == 2 && FieldFits(Digits, m[0]) && FieldFits(Arg(true), m[1])
    ensures [r.year, r.title] == m
    ensures AllDigits(r.year) && r.title != [] && NoCloseBrace(r.title)
  {
    Certificate(m[0], m[1])
  }

  /** Every `\cvitem{year}{title}` of the span whose year is all digits, in order. */
  function CertificateItems(span: string): (r: seq<Certificate>)
    ensures var ms := FindAll(span, CertificatePattern);
      |r| == |ms| && forall i :: 0 <= i < |r| ==> [r[i].year, r[i].title] == ms[i]
    ensures forall i :: 0 <= i < |r| ==> AllDigits(r[i].year) && r[i].title != [] && NoCloseBrace(r[i].title)
  {
    var ms := FindAll(span, CertificatePattern);
    assert forall i :: 0 <= i < |ms| ==> |ms[i]| == 2 && FieldFits(Digits, ms[i][0]) && FieldFits(Arg(true), ms[i][1]) by {
      forall i | 0 <= i < |ms| { FitsCaptures(ms[i], CertificatePattern); }
    }
    seq(|ms|, i requires 0 <= i < |ms| => CertificateOf(ms[i]))
  }

  /** `_parse_certificates`, searched in the same way as the skills. */
  function ParseCertificates(body: string): (r: Result<seq<Certificate>, ParseError>)
    ensures r.Err? <==> Nowhere(body, SectionPattern("Certifications"))
    ensures r.Err? ==> r.error == SectionNotDelimited("Certifications")
    ensures r.Ok? ==>
      exists span :: FirstGroup(body, SectionPattern("Certifications"), 0, span) && r.value == CertificateItems(span)
  {
    match DelimitedSection(body, "Certifications")
    case None => Err(SectionNotDelimited("Certifications"))
    case Some(span) => Ok(CertificateItems(span))
  }

  // ------------------------------------------------------------------
  // _parse_experience

  /** `\\subsection\{(.+?)\}(.*?)(?=\\subsection|$)` with DOTALL */
  const CompanyPattern: Pattern := [Lit("\\subsection{"), Lazy("}", true, true), UpToLookahead("\\subsection")]
  /** `\\cventry\{([^}]+)\}\{([^}]+)\}\{([^}]*)\}` */
  const RolePattern: Pattern := [Lit("\\cventry{"), Arg(true), Lit("{"), Arg(true), Lit("{"), Arg(false)]
  /** `\\begin\{itemize\}(.*?)\\end\{itemize\}` with DOTALL */
  const ItemizePattern: Pattern := [Lit("\\begin{itemize}"), Lazy("\\end{itemize}", false, true)]
  /** `\\item (.+)` */
  const ItemPattern: Pattern := [Lit("\\item "), Line]

  predicate SingleLine(s: string) {
    forall i :: 0 <= i < |s| ==> s[i] != '\n'
  }

  /** One `\item` line, trimmed. */
  function ItemOf(m: seq<string>): (d: string)
    requires |m| == 1 && SingleLine(m[0])
    ensures d == Strip(m[0]) && SingleLine(d) && Trimmed(d, PyWhitespace)
  {
    StripKeepsOut(m[0], '\n');
    Strip(m[0])
  }

  /** The trimmed `\item` lines of an `itemize` block, in order. */
  function ItemTexts(block: string): (r: seq<string>)
    ensures var ms := FindAll(block, ItemPattern);
      |r| == |ms| && forall i :: 0 <= i < |r| ==> |ms[i]| == 1 && r[i] == Strip(ms[i][0])
    ensures forall i :: 0 <= i < |r| ==> SingleLine(r[i]) && Trimmed(r[i], PyWhitespace)
  {
    var ms := FindAll(block, ItemPattern);
    assert forall i :: 0 <= i < |ms| ==> |ms[i]| == 1 && SingleLine(ms[i][0]) by {
      forall i | 0 <= i < |ms| { FitsCaptures(ms[i], ItemPattern); }
    }
    seq(|ms|, i requires 0 <= i < |ms| => ItemOf(ms[i]))
  }

  /** The bullets of the LAST `itemize` block of a company, or none. */
  function Bullets(content: string): (r: seq<string>)
    ensures var blocks := FindAll(content, ItemizePattern);
      && (blocks == [] ==> r == [])
      && (blocks != [] ==> |blocks[|blocks| - 1]| == 1 && r == ItemTexts(blocks[|blocks| - 1][0]))
    ensures forall i :: 0 <= i < |r| ==> SingleLine(r[i]) && Trimmed(r[i], PyWhitespace)
  {
    var blocks := FindAll(content, ItemizePattern);
    if blocks == [] then []
    else
      var last := blocks[|blocks| - 1];
      FitsCaptures(last, ItemizePattern);
      ItemTexts(last[0])
  }

  /** The `{"job_title": role[1], "period": role[0]}` comprehension. */
  function RolesOf(ms: seq<seq<string>>): (r: seq<Role>)
    requires forall i :: 0 <= i < |ms| ==> |ms[i]| == 3
    ensures |r| == |ms| && forall i :: 0 <= i < |r| ==> r[i] == Role(ms[i][1], ms[i][0])
  {
    seq(|ms|, i requires 0 <= i < |ms| => Role(ms[i][1], ms[i][0]))
  }

  /** The groups of every three-field `\cventry` of a text, in order. */
  function RoleMatches(c: string): (r: seq<seq<string>>)
    ensures r == FindAll(c, RolePattern)
    ensures forall i :: 0 <= i < |r| ==>
      (|r[i]| == 3 && r[i][0] != [] && NoCloseBrace(r[i][0]) && r[i][1] != [] && NoCloseBrace(r[i][1])
       && NoCloseBrace(r[i][2]))
  {
    var ms := FindAll(c, RolePattern);
    forall i | 0 <= i < |ms|
      ensures |ms[i]| == 3 && FieldFits(Arg(true), ms[i][0]) && FieldFits(Arg(true), ms[i][1])
              && FieldFits(Arg(false), ms[i][2])
    {
      FitsCaptures(ms[i], RolePattern);
    }
    ms
  }

  /** One company (`company[0]`, `company[1]` of a match). A company without a
      role raises IndexError at `roles[0]`. */
  function ParseCompany(name: string, content: string): (r: Result<Experience, ParseError>)
    ensures r.Ok? ==> |r.value.roles| >= 1
    ensures r.Err? ==> r.error.CompanyWithoutRole?
  {
    var c := Strip(content);
    var roles := RoleMatches(c);
    if roles == [] then Err(CompanyWithoutRole(Strip(name)))
    else Ok(Experience(Strip(name), roles[0][2], RolesOf(roles), Bullets(c)))
  }

  /** A company fails exactly when its trimmed content has no three-field
      `\cventry`: IndexError at `roles[0]`. */
  lemma ParseCompanyFails(name: string, content: string)
    ensures ParseCompany(name, content).Err? <==> RoleMatches(Strip(content)) == []
    ensures ParseCompany(name, content).Err? ==> ParseCompany(name, content).error == CompanyWithoutRole(Strip(name))
  {
  }

  /** What a parsed company consists of: the trimmed name; its roles are
      every three-field `\cventry` of the trimmed content, in order, and the
      location is the third field of the FIRST of them; the description
      comes from the last `itemize` block. */
  lemma ParseCompanyFields(name: string, content: string)
    requires RoleMatches(Strip(content)) != []
    ensures var r := ParseCompany(name, content); var roles := RoleMatches(Strip(content));
      && r.Ok?
      && r.value.company == Strip(name)
      && r.value.location == roles[0][2]
      && |r.value.roles| == |roles|
      && (forall i :: 0 <= i < |roles| ==> r.value.roles[i] == Role(roles[i][1], roles[i][0]))
      && r.value.description == Bullets(Strip(content))
  {
  }

  /** A company match: its name group and its content group. */
  function CompanyOf(m: seq<string>): (r: Result<Experience, ParseError>)
    requires |m| == 2
    ensures r.Ok? ==> |r.value.roles| >= 1
    ensures r.Err? ==> r.error.CompanyWithoutRole?
  {
    ParseCompany(m[0], m[1])
  }

  /** The results of parsing each company match, in order. */
  function CompanyResults(ms: seq<seq<string>>): (rs: seq<Result<Experience, ParseError>>)
    requires forall i :: 0 <= i < |ms| ==> |ms[i]| == 2
    ensures |rs| == |ms| && forall i :: 0 <= i < |ms| ==> rs[i] == CompanyOf(ms[i])
  {
    seq(|ms|, i requires 0 <= i < |ms| => CompanyOf(ms[i]))
  }

  /** Every company has at least one role. */
  predicate AllHaveRoles(es: seq<Experience>) {
    forall i :: 0 <= i < |es| ==> |es[i].roles| >= 1
  }

  /** The loop over the company matches: every company is parsed, in order,
      and the first company without a role aborts the whole parse (the
      first-failure rule is the contract of `Collect`). */
  function ParseCompanies(ms: seq<seq<string>>): (r: Result<seq<Experience>, ParseError>)
    requires forall i :: 0 <= i < |ms| ==> |ms[i]| == 2
    ensures r.Ok? ==> AllHaveRoles(r.value)
    ensures r.Err? ==> r.error.CompanyWithoutRole?
  {
    var rs := CompanyResults(ms);
    var r := Collect(rs);
    assert r.Ok? ==> AllHaveRoles(r.value) by {
      if r.Ok? {
        forall i | 0 <= i < |r.value| ensures |r.value[i].roles| >= 1 {
          assert rs[i] == Ok(r.value[i]);
        }
      }
    }
    r
  }

  /** The companies of an Experience span. */
  function ParseExperienceSpan(span: string): (r: Result<seq<Experience>, ParseError>)
    ensures r.Ok? ==> AllHaveRoles(r.value)
    ensures r.Err? ==> r.error.CompanyWithoutRole?
  {
    var ms := FindAll(span, CompanyPattern);
    assert forall i :: 0 <= i < |ms| ==> |ms[i]| == 2 by {
      forall i | 0 <= i < |ms| { FitsCaptures(ms[i], CompanyPattern); }
    }
    ParseCompanies(ms)
  }

  /** `_parse_experience`. */
  function ParseExperience(body: string): (r: Result<seq<Experience>, ParseError>)
    ensures r == Err(SectionNotDelimited("Experience")) <==> Nowhere(body, SectionPattern("Experience"))
    ensures r != Err(SectionNotDelimited("Experience")) ==>
      exists span :: FirstGroup(body, SectionPattern("Experience"), 0, span) && r == ParseExperienceSpan(span)
    ensures r.Ok? ==> AllHaveRoles(r.value)
    ensures r.Err? ==> r.error.SectionNotDelimited? || r.error.CompanyWithoutRole?
  {
    match DelimitedSection(body, "Experience")
    case None => Err(SectionNotDelimited("Experience"))
    case Some(span) => ParseExperienceSpan(span)
  }

  // ------------------------------------------------------------------
  // _parse_education

  /** `\\cventry\{([^}]+)\}\{([^}]+)\}\{([^}]*?)\}\{([^}]*?)\}\{(.*?)\}\{\}`: the lazy
      `[^}]*?` fields behave like `[^}]*`, as each is followed by `}`; the fifth
      field runs, within one line, up to the first `}{}`. */
  const EducationPattern: Pattern :=
    [Lit("\\cventry{"), Arg(true)] + [Lit("{"), Arg(true)] + [Lit("{"), Arg(false)] + [Lit("{"), Arg(false)]
    + [Lit("{"), Lazy("}{}", false, false)]

  /** The characters of `"\\textit{}"`, which `str.strip` treats as a set. */
  const TextitChars: set<char> := {'\\', 't', 'e', 'x', 'i', '{', '}'}

  /** The entry of one match: year, degree, the FOURTH field as institution,
      and the fifth field stripped of `TextitChars`. */
  function EducationOf(m: seq<string>): (e: Education)
    requires |m| == 5
    ensures e.year == m[0] && e.degree == m[1] && e.institution == m[3]
    ensures e.gpa == StripChars(m[4], TextitChars) && Trimmed(e.gpa, TextitChars)
  {
    Education(m[0], m[1], m[3], StripChars(m[4], TextitChars))
  }

  /** The comprehension `[.. for edu in education_items if "GPA" in edu[4]]`. */
  function EducationEntries(ms: seq<seq<string>>): (r: seq<Education>)
    requires forall i :: 0 <= i < |ms| ==> |ms[i]| == 5
    ensures |r| <= |ms|
    decreases |ms|
  {
    if ms == [] then []
    else
      var rest := EducationEntries(ms[1..]);
      if Contains(ms[0][4], "GPA") then [EducationOf(ms[0])] + rest else rest
  }

  /** Match `i` is a GPA entry and `e` is its education entry. */
  ghost predicate GpaEntry(ms: seq<seq<string>>, e: Education)
    requires forall i :: 0 <= i < |ms| ==> |ms[i]| == 5
  {
    exists i :: 0 <= i < |ms| && Contains(ms[i][4], "GPA") && e == EducationOf(ms[i])
  }

  /** Every match whose fifth field mentions GPA is kept... */
  lemma {:induction false} EducationKept(ms: seq<seq<string>>, i: nat)
    requires forall j :: 0 <= j < |ms| ==> |ms[j]| == 5
    requires i < |ms| && Contains(ms[i][4], "GPA")
    ensures EducationOf(ms[i]) in EducationEntries(ms)
    decreases |ms|
  {
    if i > 0 {
      assert ms[i] == ms[1..][i - 1];
      EducationKept(ms[1..], i - 1);
    }
  }

  /** ... and every kept entry comes from such a match. */
  lemma {:induction false} EducationOnlyGpa(ms: seq<seq<string>>, e: Education)
    requires forall j :: 0 <= j < |ms| ==> |ms[j]| == 5
    requires e in EducationEntries(ms)
    ensures GpaEntry(ms, e)
    decreases |ms|
  {
    var rest := EducationEntries(ms[1..]);
    if e in rest {
      EducationOnlyGpa(ms[1..], e);
      var j :| 0 <= j < |ms[1..]| && Contains(ms[1..][j][4], "GPA") && e == EducationOf(ms[1..][j]);
      assert ms[j + 1] == ms[1..][j];
    } else {
      assert Contains(ms[0][4], "GPA") && e == EducationOf(ms[0]);
    }
  }

  /** The entries keep the order of the matches: a further match adds its
      entry at the end when it mentions GPA, and nothing otherwise. */
  lemma {:induction false} EducationAppend(ms: seq<seq<string>>, m: seq<string>)
    requires forall j :: 0 <= j < |ms| ==> |ms[j]| == 5
    requires |m| == 5
    ensures EducationEntries(ms + [m]) ==
      EducationEntries(ms) + (if Contains(m[4], "GPA") then [EducationOf(m)] else [])
    decreases |ms|
  {
    if ms == [] {
      assert ms + [m] == [m];
    } else {
      assert (ms + [m])[1..] == ms[1..] + [m];
      EducationAppend(ms[1..], m);
    }
  }

  /** A match of the education pattern has its five groups. */
  lemma EducationGroups(m: seq<string>)
    requires Fits(m, EducationPattern)
    ensures |m| == 5
  {
    FitsCaptures(m, EducationPattern);
    EducationCaptures();
  }

  lemma EducationCaptures()
    ensures |Captures(EducationPattern)| == 5
  {
    var f1, f2 := [Lit("\\cventry{"), Arg(true)], [Lit("{"), Arg(true)];
    var f3, f5 := [Lit("{"), Arg(false)], [Lit("{"), Lazy("}{}", false, false)];
    CapturesAppend(f1, f2);
    CapturesAppend(f1 + f2, f3);
    CapturesAppend(f1 + f2 + f3, f3);
    CapturesAppend(f1 + f2 + f3 + f3, f5);
  }

  /** The education entries of a span: every match has its five groups, and
      the entries are those of the matches that mention a GPA. */
  function EducationItems(span: string): (r: seq<Education>)
    ensures var ms := FindAll(span, EducationPattern);
      (forall i :: 0 <= i < |ms| ==> |ms[i]| == 5) && r == EducationEntries(ms)
  {
    var ms := FindAll(span, EducationPattern);
    forall i | 0 <= i < |ms|
      ensures |ms[i]| == 5
    {
      EducationGroups(ms[i]);
    }
    EducationEntries(ms)
  }

  /** `_parse_education`, searched in the same way as the skills. */
  function ParseEducation(body: string): (r: Result<seq<Education>, ParseError>)
    ensures r.Err? <==> Nowhere(body, SectionPattern("Education"))
    ensures r.Err? ==> r.error == SectionNotDelimited("Education")
    ensures r.Ok? ==>
      exists span :: FirstGroup(body, SectionPattern("Education"), 0, span) && r.value == EducationItems(span)
  {
    match DelimitedSection(body, "Education")
    case None => Err(SectionNotDelimited("Education"))
    case Some(span) => Ok(EducationItems(span))
  }

  // ------------------------------------------------------------------
  // _parse_publications

  /** `\\cventry\{([^}]+)\}\{([^}]+)\}\{\}\{\}\{\}\{([^}]+)\}` */
  const PublicationPattern: Pattern :=
    [Lit("\\cventry{"), Arg(true), Lit("{"), Arg(true), Lit("{}{}{}{"), Arg(true)]

  /** `{"year": pub[0], "title": pub[1], "description": pub[2].strip()}` */
  function PublicationOf(m: seq<string>): (p: Publication)
    requires |m| == 3 && FieldFits(Arg(true), m[0]) && FieldFits(Arg(true), m[1]) && NoCloseBrace(m[2])
    ensures [p.year, p.title] == m[..2] && p.description == Strip(m[2])
    ensures p.year != [] && NoCloseBrace(p.year) && p.title != [] && NoCloseBrace(p.title)
    ensures NoCloseBrace(p.description) && Trimmed(p.description, PyWhitespace)
  {
    StripKeepsOut(m[2], '}');
    Publication(m[0], m[1], Strip(m[2]))
  }

  /** Every `\cventry{year}{title}{}{}{}{description}` of the span, in order. */
  function PublicationItems(span: string): (r: seq<Publication>)
    ensures var ms := FindAll(span, PublicationPattern);
      |r| == |ms| && forall i :: 0 <= i < |r| ==>
        |ms[i]| == 3 && [r[i].year, r[i].title] == ms[i][..2] && r[i].description == Strip(ms[i][2])
    ensures forall i :: 0 <= i < |r| ==>
      r[i].year != [] && NoCloseBrace(r[i].year) && r[i].title != [] && NoCloseBrace(r[i].title)
      && NoCloseBrace(r[i].description) && Trimmed(r[i].description, PyWhitespace)
  {
    var ms := FindAll(span, PublicationPattern);
    assert forall i :: 0 <= i < |ms| ==>
      (|ms[i]| == 3 && FieldFits(Arg(true), ms[i][0]) && FieldFits(Arg(true), ms[i][1])
       && FieldFits(Arg(true), ms[i][2])) by {
      forall i | 0 <= i < |ms| { FitsCaptures(ms[i], PublicationPattern); }
    }
    seq(|ms|, i requires 0 <= i < |ms| => PublicationOf(ms[i]))
  }

  /** `_parse_publications`: None when the heading is absent; otherwise the
      entries of the span up to the next `\section` or the end. */
  function ParsePublications(body: string): (r: Option<seq<Publication>>)
    ensures r.None? <==> Nowhere(body, OpenSectionPattern("Publications"))
    ensures r.Some? ==>
      exists span :: FirstGroup(body, OpenSectionPattern("Publications"), 0, span) && r.value == PublicationItems(span)
  {
    match OpenSection(body, "Publications")
    case None => None
    case Some(span) => Some(PublicationItems(span))
  }

  // ------------------------------------------------------------------
  // _parse_projects

  /** `\\cvitem\{\}\{\\textbf\{([^}]+)\}\.(.*?)\}` with DOTALL */
  const ProjectPattern: Pattern := [Lit("\\cvitem{}{\\textbf{"), Arg(true), Lit("."), Lazy("}", false, true)]

  /** `{"name": proj[0].strip(), "description": proj[1].strip()}` */
  function ProjectOf(m: seq<string>): (p: Project)
    requires |m| == 2 && NoCloseBrace(m[0])
    ensures p.name == Strip(m[0]) && p.description == Strip(m[1])
    ensures NoCloseBrace(p.name) && Trimmed(p.name, PyWhitespace) && Trimmed(p.description, PyWhitespace)
  {
    StripKeepsOut(m[0], '}');
    Project(Strip(m[0]), Strip(m[1]))
  }

  /** Every `\cvitem{}{\textbf{name}.description}` of the span, in order. */
  function ProjectItems(span: string): (r: seq<Project>)
    ensures var ms := FindAll(span, ProjectPattern);
      |r| == |ms| && forall i :: 0 <= i < |r| ==>
        |ms[i]| == 2 && r[i].name == Strip(ms[i][0]) && r[i].description == Strip(ms[i][1])
    ensures forall i :: 0 <= i < |r| ==>
      NoCloseBrace(r[i].name) && Trimmed(r[i].name, PyWhitespace) && Trimmed(r[i].description, PyWhitespace)
  {
    var ms := FindAll(span, ProjectPattern);
    assert forall i :: 0 <= i < |ms| ==> |ms[i]| == 2 && FieldFits(Arg(true), ms[i][0]) by {
      forall i | 0 <= i < |ms| { FitsCaptures(ms[i], ProjectPattern); }
    }
    seq(|ms|, i requires 0 <= i < |ms| => ProjectOf(ms[i]))
  }

  /** `_parse_projects`: None when the heading is absent; otherwise the items
      of the span, both parts trimmed and the description running to the
      first `}`. */
  function ParseProjects(body: string): (r: Option<seq<Project>>)
    ensures r.None? <==> Nowhere(body, OpenSectionPattern("Projects"))
    ensures r.Some? ==>
      exists span :: FirstGroup(body, OpenSectionPattern("Projects"), 0, span) && r.value == ProjectItems(span)
  {
    match OpenSection(body, "Projects")
    case None => None
    case Some(span) => Some(ProjectItems(span))
  }

  // ------------------------------------------------------------------
  // replace_in_dict

  function UnescapeSkill(s: Skill): Skill {
    Skill(Unescape(s.skill), Unescape(s.details))
  }

  function UnescapeCertificate(c: Certificate): Certificate {
    Certificate(Unescape(c.year), Unescape(c.title))
  }

  function UnescapeRole(r: Role): Role {
    Role(Unescape(r.jobTitle), Unescape(r.period))
  }

  /** Every string of an experience entry has the sentinel mapped back; the
      roles and the description lines keep their number and their order. */
  function UnescapeExperience(e: Experience): (r: Experience)
    ensures r.company == Unescape(e.company) && r.location == Unescape(e.location)
    ensures |r.roles| == |e.roles| && |r.description| == |e.description|
    ensures forall i :: 0 <= i < |e.roles| ==> r.roles[i] == UnescapeRole(e.roles[i])
    ensures forall i :: 0 <= i < |e.description| ==> r.description[i] == Unescape(e.description[i])
  {
    Experience(Unescape(e.company), Unescape(e.location),
      seq(|e.roles|, i requires 0 <= i < |e.roles| => UnescapeRole(e.roles[i])),
      seq(|e.description|, i requires 0 <= i < |e.description| => Unescape(e.description[i])))
  }

  /** Text without underscores. */
  predicate Plain(t: string) {
    forall i :: 0 <= i < |t| ==> t[i] != '_'
  }

  /** The sentinel replacing `\&` in every string of an experience entry. */
  function EscapeExperience(e: Experience): Experience {
    Experience(Escape(e.company), Escape(e.location),
      seq(|e.roles|, i requires 0 <= i < |e.roles| => Role(Escape(e.roles[i].jobTitle), Escape(e.roles[i].period))),
      seq(|e.description|, i requires 0 <= i < |e.description| => Escape(e.description[i])))
  }

  /** An entry whose strings have no underscore comes back unchanged from the
      sentinel round trip, field by field. */
  lemma UnescapeExperienceInverts(e: Experience)
    requires Plain(e.company) && Plain(e.location)
    requires forall i :: 0 <= i < |e.roles| ==> Plain(e.roles[i].jobTitle) && Plain(e.roles[i].period)
    requires forall i :: 0 <= i < |e.description| ==> Plain(e.description[i])
    ensures UnescapeExperience(EscapeExperience(e)) == e
  {
    var r := UnescapeExperience(EscapeExperience(e));
    EscapeRoundTrip(e.company);
    EscapeRoundTrip(e.location);
    forall i | 0 <= i < |e.roles|
      ensures r.roles[i] == e.roles[i]
    {
      EscapeRoundTrip(e.roles[i].jobTitle);
      EscapeRoundTrip(e.roles[i].period);
    }
    forall i | 0 <= i < |e.description|
      ensures r.description[i] == e.description[i]
    {
      EscapeRoundTrip(e.description[i]);
    }
  }

  function UnescapeEducation(e: Education): Education {
    Education(Unescape(e.year), Unescape(e.degree), Unescape(e.institution), Unescape(e.gpa))
  }

  function UnescapePublication(p: Publication): Publication {
    Publication(Unescape(p.year), Unescape(p.title), Unescape(p.description))
  }

  function UnescapeProject(p: Project): Project {
    Project(Unescape(p.name), Unescape(p.description))
  }

  /** `replace_in_dict`: the sentinel is mapped back in every string, through
      every list and record; the shape of the résumé is unchanged. */
  function UnescapeResume(d: ResumeData): (r: ResumeData)
    ensures |r.skills| == |d.skills| && |r.certificates| == |d.certificates|
    ensures |r.experience| == |d.experience| && |r.education| == |d.education|
    ensures forall i :: 0 <= i < |d.skills| ==> r.skills[i] == UnescapeSkill(d.skills[i])
    ensures forall i :: 0 <= i < |d.certificates| ==> r.certificates[i] == UnescapeCertificate(d.certificates[i])
    ensures forall i :: 0 <= i < |d.experience| ==> r.experience[i] == UnescapeExperience(d.experience[i])
    ensures forall i :: 0 <= i < |d.experience| ==> |r.experience[i].roles| == |d.experience[i].roles|
    ensures forall i :: 0 <= i < |d.education| ==> r.education[i] == UnescapeEducation(d.education[i])
    ensures r.publications.Some? <==> d.publications.Some?
    ensures r.publications.Some? ==>
      (|r.publications.value| == |d.publications.value|
       && forall i :: 0 <= i < |d.publications.value| ==> r.publications.value[i] == UnescapePublication(d.publications.value[i]))
    ensures r.projects.Some? <==> d.projects.Some?
    ensures r.projects.Some? ==>
      (|r.projects.value| == |d.projects.value|
       && forall i :: 0 <= i < |d.projects.value| ==> r.projects.value[i] == UnescapeProject(d.projects.value[i]))
  {
    ResumeData(
      seq(|d.skills|, i requires 0 <= i < |d.skills| => UnescapeSkill(d.skills[i])),
      seq(|d.certificates|, i requires 0 <= i < |d.certificates| => UnescapeCertificate(d.certificates[i])),
      seq(|d.experience|, i requires 0 <= i < |d.experience| => UnescapeExperience(d.experience[i])),
      seq(|d.education|, i requires 0 <= i < |d.education| => UnescapeEducation(d.education[i])),
      match d.publications
      case None => None
      case Some(ps) => Some(seq(|ps|, i requires 0 <= i < |ps| => UnescapePublication(ps[i]))),
      match d.projects
      case None => None
      case Some(ps) => Some(seq(|ps|, i requires 0 <= i < |ps| => UnescapeProject(ps[i]))))
  }

  // ------------------------------------------------------------------
  // parse_resume

  /** `\\begin\{document\}(.*?)\\end\{document\}` with DOTALL */
  const BodyPattern: Pattern := [Lit("\\begin{document}"), Lazy("\\end{document}", false, true)]

  /** The document body; AttributeError when there is none. */
  function DocumentBody(t: string): (r: Result<string, ParseError>)
    ensures r.Err? <==> Nowhere(t, BodyPattern)
    ensures r.Err? ==> r.error == BodyNotFound
    ensures r.Ok? ==> FirstGroup(t, BodyPattern, 0, r.value)
  {
    match Search(t, BodyPattern)
    case None => Err(BodyNotFound)
    case Some(f) =>
      FitsOne(f.hit.groups, BodyPattern);
      assert FirstMatch(t, BodyPattern, f);
      Ok(f.hit.groups[0])
  }

  /** The six sections of a body, before the sentinel is mapped back. The
      dictionary entries are evaluated, and so fail, in the order skills,
      certificates, experience, education; publications and projects cannot
      fail. */
  function ParseSections(body: string): (r: Result<ResumeData, ParseError>)
    ensures Nowhere(body, SectionPattern("Skills")) ==> r == Err(SectionNotDelimited("Skills"))
    ensures ParseSkills(body).Err? ==> r == Err(ParseSkills(body).error)
    ensures ParseSkills(body).Ok? && ParseCertificates(body).Err? ==> r == Err(ParseCertificates(body).error)
    ensures ParseSkills(body).Ok? && ParseCertificates(body).Ok? && ParseExperience(body).Err? ==>
      r == Err(ParseExperience(body).error)
    ensures (ParseSkills(body).Ok? && ParseCertificates(body).Ok? && ParseExperience(body).Ok?
             && ParseEducation(body).Err?) ==> r == Err(ParseEducation(body).error)
    ensures r.Ok? <==>
      (ParseSkills(body).Ok? && ParseCertificates(body).Ok? && ParseExperience(body).Ok? && ParseEducation(body).Ok?)
    ensures r.Ok? ==>
      (ParseSkills(body).Ok? && ParseCertificates(body).Ok? && ParseExperience(body).Ok? && ParseEducation(body).Ok?
       && r.value == ResumeData(ParseSkills(body).value, ParseCertificates(body).value,
                                ParseExperience(body).value, ParseEducation(body).value,
                                ParsePublications(body), ParseProjects(body)))
    ensures r.Ok? ==>
      (!Nowhere(body, SectionPattern("Skills")) && !Nowhere(body, SectionPattern("Certifications"))
       && !Nowhere(body, SectionPattern("Experience")) && !Nowhere(body, SectionPattern("Education")))
    ensures r.Ok? ==> (r.value.publications.None? <==> Nowhere(body, OpenSectionPattern("Publications")))
    ensures r.Ok? ==> (r.value.projects.None? <==> Nowhere(body, OpenSectionPattern("Projects")))
    ensures r.Ok? ==> AllHaveRoles(r.value.experience)
    ensures r.Err? ==> r.error.SectionNotDelimited? || r.error.CompanyWithoutRole?
  {
    var skills :- ParseSkills(body);
    var certificates :- ParseCertificates(body);
    var experience :- ParseExperience(body);
    var education :- ParseEducation(body);
    Ok(ResumeData(skills, certificates, experience, education, ParsePublications(body), ParseProjects(body)))
  }

  /** `parse_resume`: the sections are looked for in the document body only,
      and the sentinel is mapped back in every string of the result
      (`ParseResumeBody`). */
  function ParseResume(latex: string): (r: Result<ResumeData, ParseError>)
    ensures r.Ok? ==> AllHaveRoles(r.value.experience)
  {
    var body :- DocumentBody(Escape(latex));
    var d :- ParseSections(body);
    Ok(UnescapeResume(d))
  }

  /** BodyNotFound exactly when there is no document body; otherwise the
      result is the sections of the leftmost body, unescaped. */
  lemma ParseResumeBody(latex: string)
    ensures ParseResume(latex) == Err(BodyNotFound) <==> Nowhere(Escape(latex), BodyPattern)
    ensures ParseResume(latex).Ok? ==>
      exists body :: FirstGroup(Escape(latex), BodyPattern, 0, body) && ParseSections(body).Ok?
                     && ParseResume(latex).value == UnescapeResume(ParseSections(body).value)
    ensures !Nowhere(Escape(latex), BodyPattern) ==>
      exists body :: FirstGroup(Escape(latex), BodyPattern, 0, body)
                     && ParseResume(latex) == (match ParseSections(body)
                                               case Err(e) => Err(e)
                                               case Ok(d) => Ok(UnescapeResume(d)))
  {
  }
}
