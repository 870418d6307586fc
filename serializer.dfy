/** `Resume._json_to_latex_experience` as a specification: the text it
    builds, defined company by company and role by role. The method that
    builds it with loops is `Tailor.Resume.ExperienceToLatex`. */
module Serializer {
  import opened ResumeModel

  /** One `        \item d` line per description string, in order. */
  function ItemLines(ds: seq<string>): string
    decreases |ds|
  {
    if ds == [] then "" else "        \\item " + ds[0] + "\n" + ItemLines(ds[1..])
  }

  /** The itemize block that closes the last role's entry. */
  function ItemizeBlock(ds: seq<string>): string {
    "    \\begin{itemize}\n" + ItemLines(ds) + "    \\end{itemize}\n" + "}\n"
  }

  /** Role `i` of a company: the LAST role opens its sixth field for the bullets
      when there are any; otherwise the FIRST role carries the location and
      every other role has empty fields. A single role with bullets therefore
      loses the location. */
  function RoleEntry(e: Experience, i: nat): string
    requires i < |e.roles|
  {
    var role := e.roles[i];
    if i == |e.roles| - 1 && e.description != [] then
      "\\cventry{" + role.period + "}{" + role.jobTitle + "}{}{}{}{\n" + ItemizeBlock(e.description)
    else if i == 0 then
      "\\cventry{" + role.period + "}{" + role.jobTitle + "}{" + e.location + "}{}{}{}\n"
    else
      "\\cventry{" + role.period + "}{" + role.jobTitle + "}{}{}{}{}\n"
  }

  /** The entries of roles `i`, `i + 1`, ... of a company. */
  function RoleEntries(e: Experience, i: nat): string
    requires i <= |e.roles|
    decreases |e.roles| - i
  {
    if i == |e.roles| then "" else RoleEntry(e, i) + RoleEntries(e, i + 1)
  }

  /** A company: its heading, its role entries, then a blank line. */
  function CompanyBlock(e: Experience): string {
    "\\subsection{" + e.company + "}\n" + RoleEntries(e, 0) + "\n"
  }

  /** The whole Experience text: the companies' blocks, in order. */
  function ExperienceLatex(es: seq<Experience>): string
    decreases |es|
  {
    if es == [] then "" else CompanyBlock(es[0]) + ExperienceLatex(es[1..])
  }
}
