# LaTeX résumé tailoring core

This project models the text transformations at the heart of
`resume_ai_tailor.py`:

- **The `LaTeXtoJSONParser`.** It turns a moderncv résumé into structured
  data: personal information, skills, certifications, experience, education,
  publications and projects. It first escapes `\&` to the sentinel
  `__AND__`, and at the end `replace_in_dict` maps the sentinel back in
  every string of the result.
- **`Resume._json_to_latex_experience`.** It writes a list of experience
  records back as `\subsection` / `\cventry` / `itemize` text.
- **The tail of `Resume.create`.** It puts the tailored descriptions into
  the parsed experience, in place. It then replaces the body of the
  document's Experience section with the regenerated text, through
  `re.sub` with a look-behind and a look-ahead. Every backslash is doubled
  first, so that the replacement template hands the text back verbatim.

The modules:

| module | file | what it holds |
|---|---|---|
| `Results` | results.dfy | `Option`, `Result` (with `:-`), and `Collect`, the first failure of a sequence of results |
| `Text` | text.dfy | `str.replace`, `str.strip()` with Python's whitespace set, `str.strip(chars)` |
| `Patterns` | patterns.dfy | the fixed regular expressions as data, with `re.search` and `re.findall` over them |
| `ResumeModel` | model.dfy | one datatype per kind of parsed entry, and the exceptions the parser raises |
| `Parser` | parser.dfy | the `LaTeXtoJSONParser` functions |
| `Serializer` | serializer.dfy | the Experience text as a function of the experience records |
| `ExperienceSplice` | splice.dfy | `re.sub`'s replacement templates, the look-around match, the as-written `re.sub` and the intended splice |
| `Tailor` | tailor.dfy | `class Resume`: its fields, `load`, the loops of `_json_to_latex_experience`, and `create` |
| `RoundTrip` | roundtrip.dfy | what `_parse_experience` makes of the text `_json_to_latex_experience` writes |

How Python's behaviour is modelled:

- **Regular expressions.** Every pattern is a sequence of pieces. In each
  pattern the parser uses, a piece can match in only one way once the
  pieces before it have matched, so matching needs no backtracking.
  - `[^}]+\}` is a non-empty run without `}`.
  - `(.*?)X` stops at the first `X`. Without DOTALL it stops at a newline
    instead (and fails).
  - `(?=\\subsection|$)` stops at the first `\subsection` or at `$`.
  - `$` holds at the end of the text and also just before a final newline,
    as in Python.
- **Exceptions.** A Python exception is an `Err` of `ParseError`:
  - `None.group` on a missing personal-information macro, or a missing
    document body, is an `AttributeError`;
  - `re.findall(.., None)` is a `TypeError`;
  - `roles[0]` of a company without a `\cventry` is an `IndexError`.
- **Sections.** Skills, Certifications, Experience and Education use the
  pattern `\\section\{X\}(.*?)\\section|$`, whose second alternative is a
  bare `$`.
  - The search returns the first position where either alternative
    matches.
  - If the heading is absent, or no `\section` follows it, the `$`
    alternative matches at the end, group 1 is `None`, and the parse fails.
  - Publications and Projects group the alternatives as `(\\section|$)`, so
    they give `None` only when the heading is absent.

Writing the experience records and reading them back gives the records
again (`RoundTrip.ExperienceRoundTrip`), for records whose fields the LaTeX
text carries verbatim:

- the company name is non-empty and has no surrounding whitespace;
- period and job title are non-empty;
- no name, location, period or job title contains `}` or a backslash;
- every bullet is a non-empty single line without a backslash and without
  surrounding whitespace;
- every company has a role.

The one loss is the location of a company whose single role carries the
bullets: it comes back empty (`RoundTrip.LocationLost`).

Some facts about the code that the model keeps:

- The GPA is stripped of the characters `\ t e x i { }` at both ends. No
  `\textit{..}` wrapper is removed as a unit.
- The institution is the fourth field of an education entry, not the third.
- A company with a single role and a description loses its location when
  it is written back. The first role carries the location only when it is
  not also the last role with bullets.
- Parsing then serialising is not byte-identical.
- `re.sub` can damage the document when the Experience section is empty: it
  writes the block twice and deletes the next section (see Findings).
  `Tailor.Resume.Create` performs the intended splice. For a document with
  a single `\section{Experience}` heading whose section is not empty, that
  is the same document (`ExperienceSplice.SpliceAgreesWithSub`).

## Model

| member | source | states |
|---|---|---|
| Results.Collect | resume_ai_tailor.py:439-470 | the companies' results combine to Ok exactly when every one is Ok, with the values in order; otherwise the error is that of the first failure, every earlier one being Ok |
| Text.LeadingRun | resume_ai_tailor.py:500 | the length of the leading run of characters of the set: every character before it is in the set, the one after is not |
| Text.TrailingRun | resume_ai_tailor.py:500 | the length of the trailing run of characters of the set: every character in it is in the set, the one before is not |
| Text.StripChars | resume_ai_tailor.py:500 | `str.strip(chars)`: the result is the slice of the text right after its leading run of set characters, it neither begins nor ends with a set character, and every character after it is in the set |
| Text.StripEnds | resume_ai_tailor.py:500 | the slice between the leading and the trailing run is stripped, and the trailing run is all set characters |
| Text.StripKeepsOut | resume_ai_tailor.py:440-441 | `str.strip()` only removes characters: a character absent from the text is absent from the result |
| Text.LeadingRunOf | resume_ai_tailor.py:500 | a run of set characters followed by a non-set character (or nothing) is exactly the leading run |
| Text.TrailingRunOf | resume_ai_tailor.py:500 | a non-set character (or nothing) followed by a run of set characters: that run is exactly the trailing run |
| Text.StripSurrounded | resume_ai_tailor.py:440-441 | stripping a stripped core surrounded by runs of set characters gives the core back |
| Text.StripTrimmed | resume_ai_tailor.py:440-441 | stripping is idempotent: a stripped text is left as it is |
| Patterns.MatchArg | resume_ai_tailor.py:351 | `([^}]+)\}`: the capture is the run before the first `}`, non-empty when required, and the rest follows that `}` |
| Patterns.MatchDigits | resume_ai_tailor.py:405 | `(\d+)\}`: a non-empty run of digits followed by `}` |
| Patterns.LazyFrom | resume_ai_tailor.py:376 | the lazy scan stops at the first position where the stop text follows, passing no newline unless DOTALL; None exactly when there is no such position |
| Patterns.MatchLazy | resume_ai_tailor.py:376 | `(.*?)stop` / `(.+?)stop`: the capture is the shortest one followed by `stop`, and no shorter admissible one exists |
| Patterns.LookaheadFrom | resume_ai_tailor.py:435 | the first position from `k` on where `\subsection` follows or `$` holds, and no earlier one |
| Patterns.ScanToLookahead | resume_ai_tailor.py:435 | the lazy capture before the look-ahead for `\subsection` or `$`, with DOTALL: the capture is everything before the first `\subsection` or `$`, and nothing after it is consumed |
| Patterns.MatchLine | resume_ai_tailor.py:456 | `(.+)` without DOTALL: the rest of the current line, which must be non-empty |
| Patterns.MatchPiece | resume_ai_tailor.py:351-354 | one piece reads a prefix of the text; each capture fits its piece |
| Patterns.Match | resume_ai_tailor.py:351-354 | the pieces matched one after the other: one group per capturing piece, each fitting its piece; a pattern starting with a literal consumes text |
| Patterns.NoMatchWithoutLit | resume_ai_tailor.py:351-354 | a pattern does not match where its leading literal is absent |
| Patterns.FirstMatchUnique | resume_ai_tailor.py:351-354 | the leftmost match is unique |
| Patterns.NowhereStep | resume_ai_tailor.py:351-354 | no match anywhere means no match here and none in the rest |
| Patterns.FirstMatchStep | resume_ai_tailor.py:351-354 | when the first position does not match, the leftmost match of the rest, one position further on, is the leftmost match of the text |
| Patterns.FirstGroupStep | resume_ai_tailor.py:351-354 | the leftmost match in the rest of the text is the leftmost match of the text when the first position does not match |
| Patterns.FirstGroupHere | resume_ai_tailor.py:351-354 | a match at position 0 is the leftmost match |
| Patterns.NowhereShort | resume_ai_tailor.py:351-354 | a text too short for the leading literal has no match |
| Patterns.Search | resume_ai_tailor.py:351-354 | `re.search`: the match at the leftmost position where the pattern matches, None exactly when it matches nowhere |
| Patterns.FindAll | resume_ai_tailor.py:380 | `re.findall`: each element fits the pattern; order and non-overlap are stated by `Patterns.FindAllSearch` |
| Patterns.FindAllSearch | resume_ai_tailor.py:380 | `re.findall` in terms of `re.search`: empty exactly when the pattern matches nowhere; otherwise the groups of the leftmost match, then the matches after where it ended |
| Patterns.FindAllFirst | resume_ai_tailor.py:380 | the leftmost match, however it is found, gives the first element, and the search resumes after it |
| Patterns.FindAllSkip | resume_ai_tailor.py:380 | text without the pattern's leading literal adds no matches |
| Patterns.FindAllHit | resume_ai_tailor.py:380 | a match at the start is the first element, and the scan resumes after it |
| Patterns.FindAllNone | resume_ai_tailor.py:380 | text without the leading literal has no matches |
| Patterns.FitsCaptures | resume_ai_tailor.py:380-383 | a match has exactly one group per capturing piece, each fitting its piece |
| Patterns.FitsOne | resume_ai_tailor.py:380-383 | a literal-then-capture pattern yields one group that fits the capture |
| Parser.EscapeRoundTrip | resume_ai_tailor.py:574-598 | unescaping the escaped text gives it back whenever it contains no `_` |
| Parser.EscapeOfCollision | resume_ai_tailor.py:574 | escaping `__AND_\&` gives `__AND___AND__` |
| Parser.UnescapeOfCollision | resume_ai_tailor.py:595 | unescaping `__AND___AND__` gives `\&_AND__` |
| Parser.EscapeCollision | resume_ai_tailor.py:574-598 | the escape is not collision-free: `__AND_\&` comes back as `\&_AND__` |
| Parser.AnchorField | resume_ai_tailor.py:352-359 | the first brace-free argument of a macro anywhere in the text; None exactly when the macro matches nowhere |
| Parser.NameFields | resume_ai_tailor.py:351-356 | both arguments of the first `\name{..}{..}`; None exactly when there is none |
| Parser.ParsePersonalInformation | resume_ai_tailor.py:350-360 | a failure is a missing anchor; the address, phone and email are non-empty and brace-free |
| Parser.PersonalInformationMissing | resume_ai_tailor.py:350-360 | fails with the first missing anchor, in the order name, address, phone, email, each searched over the whole escaped text |
| Parser.PersonalInformationFound | resume_ai_tailor.py:350-360 | the name is `first + " " + last` of the first `\name{first}{last}`, the others are the first argument of their macro in the escaped text, with the sentinel left in place |
| Parser.DelimitedSection | resume_ai_tailor.py:375-377 | the ungrouped section pattern ending in a bare `$` alternative: None exactly when that pattern matches nowhere (heading absent or last); otherwise the shortest span from the leftmost heading to the next `\section` |
| Parser.OpenSection | resume_ai_tailor.py:520-522 | the section pattern with the grouped alternative of `\section` and `$`: None exactly when the heading is absent; otherwise the span after the heading to the next `\section` or the end |
| Parser.SkillOf | resume_ai_tailor.py:381-382 | a skill is the two groups of its match, both non-empty and brace-free |
| Parser.SkillItems | resume_ai_tailor.py:380-383 | one skill per `\cvitem{a}{b}` match in order, `a` and `b` non-empty and brace-free |
| Parser.ParseSkills | resume_ai_tailor.py:374-384 | TypeError exactly when the section is not delimited; otherwise the skills of the first span |
| Parser.CertificateOf | resume_ai_tailor.py:406-408 | a certificate is the two groups of its match, the year all digits and the title non-empty and brace-free |
| Parser.CertificateItems | resume_ai_tailor.py:404-409 | one certificate per `\cvitem{digits}{title}` match in order, the year all digits |
| Parser.ParseCertificates | resume_ai_tailor.py:398-410 | TypeError exactly when the section is not delimited; otherwise the certificates of the first span |
| Parser.ItemOf | resume_ai_tailor.py:454-456 | one `\item ` line, trimmed; it stays single-line |
| Parser.ItemTexts | resume_ai_tailor.py:452-457 | one text per `\item ` match, in order: its line, trimmed; each single-line and trimmed |
| Parser.Bullets | resume_ai_tailor.py:447-457 | the items of the LAST itemize block; none when there is no block; each single-line and trimmed |
| Parser.RolesOf | resume_ai_tailor.py:459-461 | one role per match, `period` the first field and `job_title` the second, in order |
| Parser.RoleMatches | resume_ai_tailor.py:443-445 | every `\cventry{p}{t}{l}` in order, `p`, `t` non-empty and all three brace-free |
| Parser.ParseCompany | resume_ai_tailor.py:440-468 | a parsed company has at least one role; the only failure is a company without a role |
| Parser.ParseCompanyFails | resume_ai_tailor.py:440-468 | IndexError exactly when the stripped content has no role. The model's error also carries the stripped company name, which Python's IndexError at line 446 does not |
| Parser.ParseCompanyFields | resume_ai_tailor.py:440-468 | with a role: name and content stripped, location the third field of the FIRST role, one role per match in order, description the last block's bullets |
| Parser.CompanyOf | resume_ai_tailor.py:439-468 | one `\subsection` match as a company |
| Parser.CompanyResults | resume_ai_tailor.py:439-470 | one result per company match, in order |
| Parser.ParseCompanies | resume_ai_tailor.py:439-470 | every company has at least one role; a failure is a company without a role |
| Parser.ParseExperienceSpan | resume_ai_tailor.py:434-471 | the companies of a span, each with at least one role |
| Parser.ParseExperience | resume_ai_tailor.py:427-471 | TypeError exactly when the section is not delimited; otherwise the result, the companies or the IndexError of a company without a role, is that of the first span; every parsed company has a role |
| Parser.EducationOf | resume_ai_tailor.py:496-501 | year and degree are fields 1 and 2, institution field 4 (not 3), and the GPA is field 5 with `\ t e x i { }` stripped at both ends, so it neither begins nor ends with one of those characters |
| Parser.EducationEntries | resume_ai_tailor.py:495-504 | at most one entry per match |
| Parser.EducationKept | resume_ai_tailor.py:495-504 | every match whose fifth field contains `GPA` gives an entry |
| Parser.EducationOnlyGpa | resume_ai_tailor.py:495-504 | every entry comes from a match whose fifth field contains `GPA` |
| Parser.EducationAppend | resume_ai_tailor.py:495-504 | the entries keep the order of the matches: one more match adds its entry at the end exactly when it mentions `GPA` |
| Parser.EducationGroups | resume_ai_tailor.py:491-494 | an education match has five groups |
| Parser.EducationItems | resume_ai_tailor.py:491-504 | every `re.findall` match of the six-field `\cventry` with an empty sixth field has five groups, and the entries are those of the matches with `GPA` in the fifth field |
| Parser.ParseEducation | resume_ai_tailor.py:485-505 | TypeError exactly when the section is not delimited; otherwise the entries of the first span |
| Parser.PublicationOf | resume_ai_tailor.py:529-531 | year and title are the first two groups, the description is the third, stripped; all brace-free |
| Parser.PublicationItems | resume_ai_tailor.py:525-531 | one publication per `\cventry{y}{t}{}{}{}{d}` match of the span, in order, from its groups |
| Parser.ParsePublications | resume_ai_tailor.py:519-533 | None exactly when the heading is absent; otherwise the publications of the leftmost span up to the next `\section` or the end |
| Parser.ProjectOf | resume_ai_tailor.py:556-558 | name and description are the two groups, stripped; the name stays brace-free |
| Parser.ProjectItems | resume_ai_tailor.py:553-558 | one project per `\cvitem{}{\textbf{n}.d}` match of the span, in order, from its groups |
| Parser.ParseProjects | resume_ai_tailor.py:547-560 | None exactly when the heading is absent; otherwise the projects of the leftmost span up to the next `\section` or the end |
| Parser.UnescapeExperience | resume_ai_tailor.py:588-596 | the sentinel mapped back in the company, the location, every role and every bullet, each in its place, with as many roles and bullets as before |
| Parser.UnescapeExperienceInverts | resume_ai_tailor.py:574-598 | an experience entry whose strings have no `_`, escaped field by field, is mapped back to itself |
| Parser.UnescapeResume | resume_ai_tailor.py:588-598 | the sentinel mapped back in every entry of every section, each in its place, keeping every length and which sections are None |
| Parser.DocumentBody | resume_ai_tailor.py:575-577 | AttributeError exactly when there is no `\begin{document}..\end{document}`; otherwise the body of the first one |
| Parser.ParseSections | resume_ai_tailor.py:579-586 | the sections in the order skills, certifications, experience, education: the error of the first that fails; Ok exactly when all four parse, with their results and those of publications and projects; publications and projects None exactly when their heading is absent |
| Parser.ParseResume | resume_ai_tailor.py:574-598 | every company of a parsed résumé has a role |
| Parser.ParseResumeBody | resume_ai_tailor.py:574-598 | AttributeError exactly when there is no body; otherwise the result is that of the sections of the leftmost body of the escaped text, its error or its value unescaped |
| ExperienceSplice.ExpandTemplate | resume_ai_tailor.py:799-804 | `re.sub`'s replacement template: text without a backslash is its own expansion |
| ExperienceSplice.ExpandDouble | resume_ai_tailor.py:796-804 | doubling every backslash and expanding the template gives the text back, for every text |
| ExperienceSplice.UndoubledIsRejected | resume_ai_tailor.py:796-804 | without the doubling, a block starting with `\subsection{` is rejected by `re.sub` as a bad escape |
| ExperienceSplice.NextSection | resume_ai_tailor.py:800 | the first position from `k` on where `\section` starts, or None when there is none |
| ExperienceSplice.MatchAt | resume_ai_tailor.py:800 | the look-around pattern matches at a position exactly when `\section{Experience}` ends there and a `\section` follows |
| ExperienceSplice.FindMatch | resume_ai_tailor.py:799-804 | the leftmost match from a position, non-empty at that position when required |
| ExperienceSplice.NothingToReplace | resume_ai_tailor.py:799-804 | without a further heading, the rest of the document is copied unchanged |
| ExperienceSplice.UnchangedWithoutSpan | resume_ai_tailor.py:799-804 | no heading, or no `\section` after it, leaves the document unchanged |
| ExperienceSplice.FirstSpan | resume_ai_tailor.py:799-804 | with a single heading, the first match is its span |
| ExperienceSplice.FindFrom | resume_ai_tailor.py:799-804 | the search from any position up to the heading finds its span |
| ExperienceSplice.SpliceReplacesSpan | resume_ai_tailor.py:799-804 | the intended splice keeps everything up to the heading and from the next `\section` on, with the block between |
| ExperienceSplice.SubReplacesSpan | resume_ai_tailor.py:799-804 | `re.sub` as written does the same when the single heading's span is not empty |
| ExperienceSplice.SpliceAgreesWithSub | resume_ai_tailor.py:799-804 | the intended splice and `re.sub` as written give the same document when the document has a single `\section{Experience}` heading and its span is not empty |
| ExperienceSplice.SubEmptySpan | resume_ai_tailor.py:799-804 | `re.sub` as written, on an empty span, inserts the block twice and drops the text up to the second `\section` |
| ExperienceSplice.NextSectionSkip | resume_ai_tailor.py:800 | text without a backslash is passed over by the look-ahead |
| ExperienceSplice.OnlyLeadingHeading | resume_ai_tailor.py:800 | a document starting with the heading and no further `x` has that heading only |
| ExperienceSplice.EmptySpanDropsNextSection | resume_ai_tailor.py:799-804 | on an empty Experience section followed by a section `a`, `re.sub` writes the block twice and loses `a`; the intended splice keeps `a` |
| ExperienceSplice.SkillsSectionLost | resume_ai_tailor.py:799-804 | the smallest such document, where the two differ |
| Results.CollectAllOk | resume_ai_tailor.py:439-470 | when every company parses, the result is the list of the parsed companies, in order |
| Patterns.MatchArgOf | resume_ai_tailor.py:444 | `([^}]+)\}` on a field without `}` (non-empty when required) followed by `}` captures exactly the field and leaves what follows the `}` |
| Patterns.MatchLazyOf | resume_ai_tailor.py:448-450 | `(.*?)stop` with DOTALL captures exactly the text before the first `stop` and leaves what follows it |
| Patterns.MatchLineOf | resume_ai_tailor.py:456 | `(.+)` captures exactly a non-empty line up to its newline or the end |
| Patterns.LookaheadAt | resume_ai_tailor.py:435 | the look-ahead scan stops at the first position where `\subsection` follows or `$` holds |
| Patterns.ScanToLookaheadOf | resume_ai_tailor.py:435 | `(.*?)` before the look-ahead for `\subsection` or `$` captures exactly a text without `\subsection` followed by the next heading or the end |
| Patterns.MatchLitLazyAhead | resume_ai_tailor.py:435 | the company pattern on a heading, a name without `}` and a body: the groups are the name and the body, and the next heading is left |
| Patterns.SkipPad | resume_ai_tailor.py:380 | `re.findall` finds nothing in text without the pattern's first character |
| Patterns.FindAllThen | resume_ai_tailor.py:380 | a match at the start, then text that cannot start a match: the match, then the matches of what follows |
| Patterns.PadLineStep | resume_ai_tailor.py:456 | `\item (.+)` after padding: the line is the one group and the search resumes at its newline |
| RoundTrip.RolesFound | resume_ai_tailor.py:443-445 | the `\cventry` pattern finds one match per written role, in order, with its period, job title and the location written for it |
| RoundTrip.ItemsFound | resume_ai_tailor.py:456 | the `\item (.+)` pattern finds one match per written bullet line, in order |
| RoundTrip.ItemTextsBack | resume_ai_tailor.py:452-457 | the trimmed item texts of a written itemize block are the bullets written |
| RoundTrip.BlockFound | resume_ai_tailor.py:447-451 | the itemize pattern finds exactly one block in a written bullet entry: the bullet lines |
| RoundTrip.BulletsBack | resume_ai_tailor.py:447-457 | the description of a written company's entries is its bullets, and none when it has none |
| RoundTrip.ContentStripped | resume_ai_tailor.py:441 | stripping a written company's content leaves exactly its role entries |
| RoundTrip.CompanyOfEntries | resume_ai_tailor.py:440-468 | a company whose stripped content is its written entries parses to the company, without the location when its single role has bullets |
| RoundTrip.CompanyBack | resume_ai_tailor.py:439-468 | a written company, parsed from its name and content, is the company, without the location when its single role has bullets |
| RoundTrip.CompanyMatches | resume_ai_tailor.py:434-438 | one group pair per company: its name, and its content up to the next heading or the end |
| RoundTrip.CompaniesFound | resume_ai_tailor.py:434-438 | the company pattern finds one match per written company, in order |
| RoundTrip.CompanyResultsBack | resume_ai_tailor.py:439-468 | every company match of the written text parses to its company |
| RoundTrip.ExperienceRoundTrip | resume_ai_tailor.py:434-471 | parsing the Experience text `_json_to_latex_experience` writes gives the companies back, in order; only the location of a company whose single role has bullets is lost |
| RoundTrip.ExperienceRoundTripExact | resume_ai_tailor.py:434-471 | without a single role carrying bullets, parsing the written text gives exactly the companies |
| RoundTrip.LocationLost | resume_ai_tailor.py:737-750 | a single role with bullets and a location is written without the location, which comes back empty |
| Text.Replace | resume_ai_tailor.py:574 | definition, no contract of its own; its properties are `Text.ReplaceAbsent`, `Text.ReplaceSkip`, `Parser.EscapeRoundTrip` and `ExperienceSplice.ExpandDouble` |
| Text.ReplaceAbsent | resume_ai_tailor.py:574 | `str.replace` of a two-character text that occurs nowhere gives the text back |
| Text.ReplaceSkip | resume_ai_tailor.py:574 | a prefix in which no occurrence of the two-character text starts is copied, and the replacement goes on after it |
| Text.Strip | resume_ai_tailor.py:440-441 | definition, no contract of its own; its properties are `Text.StripKeepsOut`, `Text.StripTrimmed` and `Text.StripSurrounded`, through `Text.StripChars` |
| Parser.Escape | resume_ai_tailor.py:574 | definition, no contract of its own; its properties are `Parser.EscapeRoundTrip`, `Parser.EscapeOfCollision` and `Parser.UnescapeExperienceInverts` |
| Parser.Unescape | resume_ai_tailor.py:595 | definition, no contract of its own; its properties are `Parser.EscapeRoundTrip`, `Parser.UnescapeOfCollision` and `Parser.EscapeCollision` |
| Parser.UnescapeSkill | resume_ai_tailor.py:588-596 | definition, no contract of its own; its properties are `Parser.UnescapeResume` |
| Parser.UnescapeCertificate | resume_ai_tailor.py:588-596 | definition, no contract of its own; its properties are `Parser.UnescapeResume` |
| Parser.UnescapeRole | resume_ai_tailor.py:588-596 | definition, no contract of its own; its properties are `Parser.UnescapeExperience` and `Parser.UnescapeExperienceInverts` |
| Parser.UnescapeEducation | resume_ai_tailor.py:588-596 | definition, no contract of its own; its properties are `Parser.UnescapeResume` |
| Parser.UnescapePublication | resume_ai_tailor.py:588-596 | definition, no contract of its own; its properties are `Parser.UnescapeResume` |
| Parser.UnescapeProject | resume_ai_tailor.py:588-596 | definition, no contract of its own; its properties are `Parser.UnescapeResume` |
| Serializer.ItemLines | resume_ai_tailor.py:743-744 | definition, no contract of its own; its properties are `RoundTrip.ItemsFound` and `RoundTrip.ItemTextsBack` |
| Serializer.ItemizeBlock | resume_ai_tailor.py:742-748 | definition, no contract of its own; its properties are `RoundTrip.BlockFound` and `RoundTrip.BulletsBack` |
| Serializer.RoleEntry | resume_ai_tailor.py:734-753 | definition, no contract of its own; its properties are `RoundTrip.RolesFound`, `RoundTrip.LocationLost` and `Tailor.Resume.RoleToLatex` |
| Serializer.RoleEntries | resume_ai_tailor.py:733-753 | definition, no contract of its own; its properties are `RoundTrip.RolesFound` and `RoundTrip.ContentStripped` |
| Serializer.CompanyBlock | resume_ai_tailor.py:730-754 | definition, no contract of its own; its properties are `RoundTrip.CompanyMatches` and `RoundTrip.CompanyBack` |
| Serializer.ExperienceLatex | resume_ai_tailor.py:729-756 | definition, no contract of its own; its properties are `RoundTrip.ExperienceRoundTrip`, `RoundTrip.ExperienceRoundTripExact`, `RoundTrip.LocationLost` and `Tailor.Resume.ExperienceToLatex` |
| ExperienceSplice.Double | resume_ai_tailor.py:796-798 | definition, no contract of its own; its properties are `ExperienceSplice.ExpandDouble` and `ExperienceSplice.UndoubledIsRejected` |
| ExperienceSplice.EscapedChar | resume_ai_tailor.py:799-804 | definition, no contract of its own; its properties are `ExperienceSplice.ExpandTemplate` and `ExperienceSplice.ExpandDouble` |
| ExperienceSplice.SubFrom | resume_ai_tailor.py:799-804 | definition, no contract of its own; its properties are `ExperienceSplice.NothingToReplace`, `ExperienceSplice.SubOnceMore` and `ExperienceSplice.SubEmptySpan` |
| ExperienceSplice.Sub | resume_ai_tailor.py:799-804 | definition, no contract of its own; its properties are `ExperienceSplice.SubReplacesSpan`, `ExperienceSplice.SubEmptySpan`, `ExperienceSplice.SkillsSectionLost` and `ExperienceSplice.SpliceAgreesWithSub` |
| ExperienceSplice.SpliceFrom | resume_ai_tailor.py:799-804 | definition, no contract of its own; its properties are `ExperienceSplice.NothingToReplace` and `ExperienceSplice.SpliceReplacesSpan` |
| ExperienceSplice.Splice | resume_ai_tailor.py:799-804 | definition, no contract of its own; its properties are `ExperienceSplice.SpliceReplacesSpan`, `ExperienceSplice.EmptySpanDropsNextSection`, `ExperienceSplice.SpliceAgreesWithSub` and `Tailor.Resume.Create` |
| Tailor.Retailored | resume_ai_tailor.py:786-792 | only the description changes, to the tailoring of the company's name and old description |
| Tailor.Resume.constructor | resume_ai_tailor.py:683-697 | nothing loaded |
| Tailor.Resume.Load | resume_ai_tailor.py:758-776 | the text is kept; the personal information and then the résumé are parsed, an exception leaving the later fields as they were |
| Tailor.Resume.ExperienceToLatex | resume_ai_tailor.py:729-756 | the accumulated text equals the Experience text of the records |
| Tailor.Resume.RoleToLatex | resume_ai_tailor.py:731-753 | the entry of one role, with the bullets loop for the last role |
| Tailor.Resume.Create | resume_ai_tailor.py:785-805 | every description replaced in place and nothing else in the résumé; the document becomes the splice of its old text with the Experience text of the tailored records, which is what `re.sub` gives when the old document has a single `\section{Experience}` heading whose span is not empty; without a loaded résumé nothing changes |

## Left out

- File input and output: `load` reads a file, and the model takes its text as a parameter. `save` and the `xelatex` compile are not modelled.
- The language model (`AIClient`), the job posting (`JobPosting`, Selenium), `CoverLetter`, the pipeline class and the command line are not modelled. Each company's tailored description is a function argument (`Tailor.Tailoring`) that stands for the AI answer after `json.loads`. As a function of the company name and old description, it gives two companies with the same name and description the same bullets, which a real AI call does not guarantee; no contract relies on this. A malformed answer and its exception are not modelled.
- `create` calls the AI once per company, in order. If a call fails midway, Python leaves the earlier companies already changed in place. The model treats the tailoring as total.
- `replace_in_dict` mutates the dictionaries in place. The model rebuilds the values, because no other reference to the parsed dictionaries is kept.
- Tailor.Resume.Create: on a document whose Experience section is empty it gives the intended splice, not the as-written `re.sub` result (see Findings). Its contract states the `re.sub` result only for a document with a single `\section{Experience}` heading whose span is not empty. For a document with two or more such headings it states only the intended splice, and nothing relates that to `re.sub`.
- ExperienceSplice.ExpandTemplate: it returns None after a backslash followed by a digit or by `g`. For `\1` to `\9` and `\g<1>` this matches Python, which rejects a reference to a group the pattern does not have. Python reads `\0` and other octal escapes as characters, and `\g<0>` as the whole match; neither is modelled. The doubled text never contains any of them.
- `Patterns.MatchDigits` accepts ASCII digits only, whereas Python's `\d` also accepts other Unicode decimal digits.
- RoundTrip.ExperienceRoundTrip: it covers the Experience span only. Reading the span out of a whole document, and the `\&` escape, are not part of the round trip.
- RoundTrip.ExperienceRoundTrip: fields containing a backslash are excluded. Such a field could open a macro the parser would pick up.
- Parser.ParseCompany: its contract states only that a parsed company has a role and what the failure is. The full characterization is in the lemmas `Parser.ParseCompanyFails` and `Parser.ParseCompanyFields`.
- Parser.ParsePersonalInformation: its contract states only the kind of failure and the shape of the fields. Which anchor is reported and where each field comes from are the lemmas `Parser.PersonalInformationMissing` and `Parser.PersonalInformationFound`.
- Parser.ParseResume: its contract states only that every company has a role. The full characterization is the lemma `Parser.ParseResumeBody`.
- Parser.EducationEntries: its contract bounds the number of entries. Which entries are kept, and in what order, is in the lemmas `Parser.EducationKept`, `Parser.EducationOnlyGpa` and `Parser.EducationAppend`.
- Parser.UnescapeExperience, Parser.UnescapeResume: the model does not relate the fields parsed from the escaped text to the text before escaping. So it does not prove that a `\&` of the document comes back as `\&` in a parsed field; it proves only that the unescaping inverts the escaping field by field (`Parser.UnescapeExperienceInverts`).
- The getters `get` and `get_personal_information` only return fields. The fields of `Tailor.Resume` stand for them.

## Findings

| source | as written | input that shows it | evidently intended | confidence | as-written member | corrected member |
|---|---|---|---|---|---|---|
| resume_ai_tailor.py:799-804 | `re.sub` replaces every match of `(?<=\\section{Experience}).*?(?=\\section)`. After an empty match it searches again at the same position for a non-empty match, which runs to the following `\section`. | `\section{Experience}\section{Skills}S\section{Education}` with the block `B` gives `\section{Experience}BB\section{Education}`: the block is written twice and the Skills section is deleted. | Insert the block once between the heading and the next `\section`, and keep every other byte: `\section{Experience}B\section{Skills}S\section{Education}`. | medium, not executed | ExperienceSplice.SkillsSectionLost | ExperienceSplice.SpliceReplacesSpan |
