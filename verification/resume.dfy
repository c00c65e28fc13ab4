/** The resume record edited by the wizard and shown by the templates, and
    the `(section, index, field)` addresses the edit-in-place views use to
    name one of its string leaves. */
module Resume {
  import opened Optional

  datatype PersonalDetails = PersonalDetails(
    fullName: string, email: string, phone: string,
    location: string, linkedin: string, github: string)

  datatype WorkEntry = WorkEntry(
    jobTitle: string, companyName: string, location: string,
    startDate: string, endDate: string, description: string)

  datatype EducationEntry = EducationEntry(
    degree: string, institution: string, location: string,
    startDate: string, endDate: string, grade: string)

  datatype SkillEntry = SkillEntry(category: string, skills: string)

  datatype ProjectEntry = ProjectEntry(projectName: string, description: string, link: string)

  /** `proficiency` is one of a fixed scale in the form, but stored as text. */
  datatype LanguageEntry = LanguageEntry(language: string, proficiency: string)

  datatype CertificationEntry = CertificationEntry(
    certificationName: string, issuingOrganization: string, issueDate: string)

  /** Every section is always present; sequence sections may be empty. */
  datatype ResumeRecord = ResumeRecord(
    personalDetails: PersonalDetails,
    objective: string,
    jobTitle: string,
    workExperience: seq<WorkEntry>,
    education: seq<EducationEntry>,
    skills: seq<SkillEntry>,
    projects: seq<ProjectEntry>,
    languages: seq<LanguageEntry>,
    certifications: seq<CertificationEntry>)

  /** The section names the templates pass as the first edit argument. */
  datatype Section =
    | PersonalDetailsSection | ObjectiveSection | WorkExperienceSection
    | ProjectsSection | EducationSection | SkillsSection
    | CertificationsSection | LanguagesSection
  {
    /** The record key of the section. */
    function Key(): string {
      match this
      case PersonalDetailsSection => "personalDetails"
      case ObjectiveSection => "objective"
      case WorkExperienceSection => "workExperience"
      case ProjectsSection => "projects"
      case EducationSection => "education"
      case SkillsSection => "skills"
      case CertificationsSection => "certifications"
      case LanguagesSection => "languages"
    }

    /** Sections that hold an ordered sequence of entries, addressed by index. */
    predicate IsSequence() {
      !(PersonalDetailsSection? || ObjectiveSection?)
    }
  }

  /** The leaf names the templates pass as the third edit argument. */
  datatype Field =
    | FullName | Email | Phone | Location | LinkedIn | GitHub
    | Objective
    | JobTitle | CompanyName | StartDate | EndDate | Description
    | Degree | Institution | Grade
    | Category | SkillList
    | ProjectName | Link
    | Language | Proficiency
    | CertificationName | IssuingOrganization | IssueDate
  {
    /** The record key of the leaf. */
    function Key(): string {
      match this
      case FullName => "fullName"
      case Email => "email"
      case Phone => "phone"
      case Location => "location"
      case LinkedIn => "linkedin"
      case GitHub => "github"
      case Objective => "objective"
      case JobTitle => "jobTitle"
      case CompanyName => "companyName"
      case StartDate => "startDate"
      case EndDate => "endDate"
      case Description => "description"
      case Degree => "degree"
      case Institution => "institution"
      case Grade => "grade"
      case Category => "category"
      case SkillList => "skills"
      case ProjectName => "projectName"
      case Link => "link"
      case Language => "language"
      case Proficiency => "proficiency"
      case CertificationName => "certificationName"
      case IssuingOrganization => "issuingOrganization"
      case IssueDate => "issueDate"
    }
  }

  /** `(section, index | null, field)`: index is `None` for the
      personal-details object and the objective scalar. */
  datatype Address = Address(section: Section, index: Option<nat>, field: Field)

  function PersonalField(p: PersonalDetails, f: Field): Option<string> {
    match f
    case FullName => Some(p.fullName)
    case Email => Some(p.email)
    case Phone => Some(p.phone)
    case Location => Some(p.location)
    case LinkedIn => Some(p.linkedin)
    case GitHub => Some(p.github)
    case _ => None
  }

  function WorkField(e: WorkEntry, f: Field): Option<string> {
    match f
    case JobTitle => Some(e.jobTitle)
    case CompanyName => Some(e.companyName)
    case Location => Some(e.location)
    case StartDate => Some(e.startDate)
    case EndDate => Some(e.endDate)
    case Description => Some(e.description)
    case _ => None
  }

  function EducationField(e: EducationEntry, f: Field): Option<string> {
    match f
    case Degree => Some(e.degree)
    case Institution => Some(e.institution)
    case Location => Some(e.location)
    case StartDate => Some(e.startDate)
    case EndDate => Some(e.endDate)
    case Grade => Some(e.grade)
    case _ => None
  }

  function SkillField(e: SkillEntry, f: Field): Option<string> {
    match f
    case Category => Some(e.category)
    case SkillList => Some(e.skills)
    case _ => None
  }

  function ProjectField(e: ProjectEntry, f: Field): Option<string> {
    match f
    case ProjectName => Some(e.projectName)
    case Description => Some(e.description)
    case Link => Some(e.link)
    case _ => None
  }

  function LanguageField(e: LanguageEntry, f: Field): Option<string> {
    match f
    case Language => Some(e.language)
    case Proficiency => Some(e.proficiency)
    case _ => None
  }

  function CertificationField(e: CertificationEntry, f: Field): Option<string> {
    match f
    case CertificationName => Some(e.certificationName)
    case IssuingOrganization => Some(e.issuingOrganization)
    case IssueDate => Some(e.issueDate)
    case _ => None
  }

  /** Number of entries of a sequence section (0 for the two others). */
  function SectionLength(r: ResumeRecord, s: Section): nat {
    match s
    case PersonalDetailsSection => 0
    case ObjectiveSection => 0
    case WorkExperienceSection => |r.workExperience|
    case ProjectsSection => |r.projects|
    case EducationSection => |r.education|
    case SkillsSection => |r.skills|
    case CertificationsSection => |r.certifications|
    case LanguagesSection => |r.languages|
  }

  /** The string leaf an address names in `r`, or `None` when the address
      does not resolve (wrong index kind, index out of range, or a field the
      section does not have). */
  function Lookup(r: ResumeRecord, a: Address): Option<string> {
    match a.section
    case PersonalDetailsSection =>
      if a.index.Some? then None else PersonalField(r.personalDetails, a.field)
    case ObjectiveSection =>
      if a.index.Some? || a.field != Objective then None else Some(r.objective)
    case WorkExperienceSection =>
      if InRange(a.index, |r.workExperience|) then WorkField(r.workExperience[a.index.value], a.field) else None
    case ProjectsSection =>
      if InRange(a.index, |r.projects|) then ProjectField(r.projects[a.index.value], a.field) else None
    case EducationSection =>
      if InRange(a.index, |r.education|) then EducationField(r.education[a.index.value], a.field) else None
    case SkillsSection =>
      if InRange(a.index, |r.skills|) then SkillField(r.skills[a.index.value], a.field) else None
    case CertificationsSection =>
      if InRange(a.index, |r.certifications|) then CertificationField(r.certifications[a.index.value], a.field) else None
    case LanguagesSection =>
      if InRange(a.index, |r.languages|) then LanguageField(r.languages[a.index.value], a.field) else None
  }

  /** An index that is present and below `n`. */
  predicate InRange(index: Option<nat>, n: nat) {
    index.Some? && index.value < n
  }

  /** An address that resolves carries an index exactly when its section is
      a sequence section, and the index is within the section. */
  lemma ResolvedAddressShape(r: ResumeRecord, a: Address)
    requires Lookup(r, a).Some?
    ensures a.index.Some? <==> a.section.IsSequence()
    ensures a.index.Some? ==> a.index.value < SectionLength(r, a.section)
  {
  }
}
