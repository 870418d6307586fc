/** The `Resume` document: the text of the loaded LaTeX file, what the parser
    made of it, the loop that writes the Experience section back as LaTeX,
    and the step of `create` that puts tailored descriptions in and splices
    the new Experience section into the document. */
module Tailor {
  import opened Results
  import opened Text
  import opened ResumeModel
  import opened Parser
  import opened Serializer
  import opened ExperienceSplice

  /** What makes `load` or `create` stop: an exception of the parser, or
      `create` on a résumé that was never loaded (`None["experience"]`). */
  datatype DocumentError = Unparsable(cause: ParseError) | NotLoaded

  /** The new description of a company, as the language model answers it
      for the company's name and current description (already decoded
      from JSON). */
  type Tailoring = (string, seq<string>) -> seq<string>

  /** A company with its description replaced by the tailored one. */
  function Retailored(e: Experience, tailor: Tailoring): (r: Experience)
    ensures r.company == e.company && r.location == e.location && r.roles == e.roles
    ensures r.description == tailor(e.company, e.description)
  {
    e.(description := tailor(e.company, e.description))
  }

  /** Writing `piece` moves it from the text still to write to the text
      written. */
  lemma Emit(written: string, piece: string, rest: string, todo: string)
    requires todo == piece + rest
    ensures written + todo == (written + piece) + rest
  {
  }

  /** The entries from role `i` on are role `i`'s entry, then the rest. */
  lemma NextRole(e: Experience, i: nat, next: string)
    requires i < |e.roles|
    ensures RoleEntries(e, i) + next == RoleEntry(e, i) + (RoleEntries(e, i + 1) + next)
  {
    var x, y := RoleEntry(e, i), RoleEntries(e, i + 1);
    assert RoleEntries(e, i) == x + y;
    assert (x + y) + next == x + (y + next);
  }

  /** The text of the companies from `k` on is company `k`'s heading, its
      role entries and a blank line, then the rest. */
  lemma NextCompany(es: seq<Experience>, k: nat)
    requires k < |es|
    ensures ExperienceLatex(es[k..]) ==
      ("\\subsection{" + es[k].company + "}\n") + (RoleEntries(es[k], 0) + ("\n" + ExperienceLatex(es[k + 1..])))
  {
    assert es[k..][0] == es[k] && es[k..][1..] == es[k + 1..];
    var h, r, n := "\\subsection{" + es[k].company + "}\n", RoleEntries(es[k], 0), ExperienceLatex(es[k + 1..]);
    assert ((h + r) + "\n") + n == h + (r + ("\n" + n));
  }

  class Resume {
    /** `_doc_content`: None until a file is loaded. */
    var docContent: Option<string>
    /** `_personal_information`. */
    var personalInformation: Option<PersonalInfo>
    /** `_resume`. */
    var resume: Option<ResumeData>

    /** A parsed résumé always comes with the document it was parsed from. */
    predicate Valid()
      reads this
    {
      resume.Some? ==> docContent.Some?
    }

    /** `__init__`: nothing loaded yet. */
    constructor ()
      ensures docContent.None? && personalInformation.None? && resume.None?
      ensures Valid()
    {
      docContent := None;
      personalInformation := None;
      resume := None;
    }

    /** `load`, with the file's text given as `content`: the text is kept
        first, then the personal information is parsed, then the résumé; an
        exception leaves the fields it did not reach as they were. */
    method Load(content: string) returns (err: Option<DocumentError>)
      modifies this
      ensures docContent == Some(content)
      ensures ParsePersonalInformation(content).Err? ==>
        && err == Some(Unparsable(ParsePersonalInformation(content).error))
        && personalInformation == old(personalInformation) && resume == old(resume)
      ensures ParsePersonalInformation(content).Ok? ==>
        && personalInformation == Some(ParsePersonalInformation(content).value)
        && (ParseResume(content).Err? ==>
              err == Some(Unparsable(ParseResume(content).error)) && resume == old(resume))
        && (ParseResume(content).Ok? ==> err.None? && resume == Some(ParseResume(content).value))
      ensures Valid()
    {
      docContent := Some(content);
      var info := ParsePersonalInformation(content);
      if info.Err? {
        return Some(Unparsable(info.error));
      }
      personalInformation := Some(info.value);
      var parsed := ParseResume(content);
      if parsed.Err? {
        return Some(Unparsable(parsed.error));
      }
      resume := Some(parsed.value);
      err := None;
    }

    /** `_json_to_latex_experience`: the Experience text built with one loop
        over the companies and one over each company's roles. */
    static method ExperienceToLatex(es: seq<Experience>) returns (out: string)
      ensures out == ExperienceLatex(es)
    {
      out := "";
      ghost var todo := ExperienceLatex(es);
      var k := 0;
      while k < |es|
        invariant 0 <= k <= |es|
        invariant todo == ExperienceLatex(es[k..])
        invariant out + todo == ExperienceLatex(es)
      {
        var e := es[k];
        ghost var next := "\n" + ExperienceLatex(es[k + 1..]);
        var heading := "\\subsection{" + e.company + "}\n";
        NextCompany(es, k);
        Emit(out, heading, RoleEntries(e, 0) + next, todo);
        out, todo := out + heading, RoleEntries(e, 0) + next;
        var i := 0;
        while i < |e.roles|
          invariant 0 <= i <= |e.roles|
          invariant todo == RoleEntries(e, i) + next
          invariant out + todo == ExperienceLatex(es)
        {
          NextRole(e, i, next);
          var entry := RoleToLatex(e, i);
          Emit(out, entry, RoleEntries(e, i + 1) + next, todo);
          out, todo := out + entry, RoleEntries(e, i + 1) + next;
          i := i + 1;
        }
        Emit(out, "\n", ExperienceLatex(es[k + 1..]), todo);
        out, todo := out + "\n", ExperienceLatex(es[k + 1..]);
        k := k + 1;
      }
    }

    /** The body of the loop over roles in `_json_to_latex_experience`: the
        entry of role `i`, with the loop over the bullets when it is the last
        role and the company has a description. */
    static method RoleToLatex(e: Experience, i: nat) returns (entry: string)
      requires i < |e.roles|
      ensures entry == RoleEntry(e, i)
    {
      var role := e.roles[i];
      if i == |e.roles| - 1 && e.description != [] {
        entry := "\\cventry{" + role.period + "}{" + role.jobTitle + "}{}{}{}{\n";
        entry := entry + "    \\begin{itemize}\n";
        ghost var head := entry;
        var j := 0;
        while j < |e.description|
          invariant 0 <= j <= |e.description|
          invariant entry + ItemLines(e.description[j..]) == head + ItemLines(e.description)
        {
          assert e.description[j..][0] == e.description[j];
          assert e.description[j..][1..] == e.description[j + 1..];
          var item := "        \\item " + e.description[j] + "\n";
          Emit(entry, item, ItemLines(e.description[j + 1..]), ItemLines(e.description[j..]));
          entry := entry + item;
          j := j + 1;
        }
        assert e.description[j..] == [];
        entry := entry + "    \\end{itemize}\n";
        entry := entry + "}\n";
        assert entry == RoleEntry(e, i) by {
          var l := ItemLines(e.description);
          var a := "\\cventry{" + role.period + "}{" + role.jobTitle + "}{}{}{}{\n";
          var b, c, d := "    \\begin{itemize}\n", "    \\end{itemize}\n", "}\n";
          assert ((a + b) + l) + c + d == a + (((b + l) + c) + d);
        }
      } else if i == 0 {
        entry := "\\cventry{" + role.period + "}{" + role.jobTitle + "}{" + e.location + "}{}{}{}\n";
      } else {
        entry := "\\cventry{" + role.period + "}{" + role.jobTitle + "}{}{}{}{}\n";
      }
    }

    /** The part of `create` that changes the document: every company's
        description is replaced, in place, by the tailored one; the companies
        are written back as LaTeX, every backslash doubled so that the
        replacement template yields the text itself; and that text takes the
        place of the Experience section's body. This is the intended splice;
        `re.sub` gives the same document when there is a single Experience
        heading and its body is not empty. */
    method Create(tailor: Tailoring) returns (err: Option<DocumentError>)
      requires Valid()
      modifies this
      ensures Valid()
      ensures old(resume).None? ==> err == Some(NotLoaded) && unchanged(this)
      ensures old(resume).Some? ==>
        && err.None?
        && personalInformation == old(personalInformation)
        && resume.Some?
        && resume.value == old(resume.value).(experience := resume.value.experience)
        && |resume.value.experience| == |old(resume.value.experience)|
        && (forall i :: 0 <= i < |resume.value.experience| ==>
              resume.value.experience[i] == Retailored(old(resume.value.experience[i]), tailor))
        && docContent == Some(Splice(old(docContent.value), ExperienceLatex(resume.value.experience)))
        && (forall p, q :: OneSpan(old(docContent.value), p, q) && p < q ==>
              docContent == Some(Sub(old(docContent.value), ExperienceLatex(resume.value.experience))))
    {
      if resume.None? {
        return Some(NotLoaded);
      }
      var es := resume.value.experience;
      var tailored: seq<Experience> := [];
      var k := 0;
      while k < |es|
        invariant 0 <= k <= |es|
        invariant |tailored| == k
        invariant forall i :: 0 <= i < k ==> tailored[i] == Retailored(es[i], tailor)
      {
        var description := tailor(es[k].company, es[k].description);
        tailored := tailored + [es[k].(description := description)];
        k := k + 1;
      }
      resume := Some(resume.value.(experience := tailored));
      var latex := ExperienceToLatex(tailored);
      var template := ExpandTemplate(Double(latex));
      ExpandDouble(latex);
      var doc := docContent.value;
      forall p, q | OneSpan(doc, p, q) && p < q
        ensures Splice(doc, template.value) == Sub(doc, template.value)
      {
        SpliceAgreesWithSub(doc, p, q, template.value);
      }
      docContent := Some(Splice(doc, template.value));
      err := None;
    }
  }
}
