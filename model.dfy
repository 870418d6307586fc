/** The structured form of a parsed résumé: one datatype per kind of entry
    the parser produces, named after the keys of the original dictionaries. */
module ResumeModel {
  import opened Results

  /** `parse_personal_information`: name, address, phone and email. */
  datatype PersonalInfo = PersonalInfo(name: string, address: string, phone: string, email: string)

  /** A `\cvitem{skill}{details}` of the Skills section. */
  datatype Skill = Skill(skill: string, details: string)

  /** A `\cvitem{year}{title}` of the Certifications section. */
  datatype Certificate = Certificate(year: string, title: string)

  /** One role of an employer: the first two fields of a `\cventry`. */
  datatype Role = Role(jobTitle: string, period: string)

  /** One `\subsection{company}` of the Experience section. */
  datatype Experience = Experience(company: string, location: string, roles: seq<Role>, description: seq<string>)

  /** A six-field `\cventry` of the Education section whose fifth field mentions GPA. */
  datatype Education = Education(year: string, degree: string, institution: string, gpa: string)

  /** A `\cventry{year}{title}{}{}{}{description}` of the Publications section. */
  datatype Publication = Publication(year: string, title: string, description: string)

  /** A `\cvitem{}{\textbf{name}.description}` of the Projects section. */
  datatype Project = Project(name: string, description: string)

  /** The dictionary `parse_resume` returns. Skills, certificates, experience and
      education are never None when parsing succeeds; publications and projects
      are None when their heading is absent. */
  datatype ResumeData = ResumeData(
    skills: seq<Skill>,
    certificates: seq<Certificate>,
    experience: seq<Experience>,
    education: seq<Education>,
    publications: Option<seq<Publication>>,
    projects: Option<seq<Project>>)

  datatype Anchor = Name | Address | Phone | Email

  /** The exceptions the original parser raises. */
  datatype ParseError =
    | AnchorNotFound(anchor: Anchor)      // AttributeError: `None.group` for a personal-information macro
    | BodyNotFound                        // AttributeError: no \begin{document}..\end{document}
    | SectionNotDelimited(section: string) // TypeError: `re.findall(.., None)` (heading absent, or last)
    | CompanyWithoutRole(company: string) // IndexError: `roles[0]` of a company with no \cventry
}
