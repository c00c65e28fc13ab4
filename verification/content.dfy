/** The Minimal template's `hasContent(section: unknown)`, over a model of
    the JavaScript values a record section can hold, and the encoding of
    each section of a resume record as such a value. */
module Content {
  import opened Text
  import opened Resume

  /** JavaScript values as far as truthiness and `hasContent` distinguish
      them. Numbers are integers plus `NaN`; objects list their own
      enumerable properties in order. */
  datatype JsValue =
    | Undefined
    | Null
    | Bool(b: bool)
    | Num(n: int)
    | NaN
    | Str(s: string)
    | Arr(items: seq<JsValue>)
    | Obj(props: seq<(string, JsValue)>)

  /** `Boolean(v)`: `undefined`, `null`, `false`, `0`, `NaN` and `""` are
      falsy; every array and object, even an empty one, is truthy. */
  predicate Truthy(v: JsValue) {
    match v
    case Undefined => false
    case Null => false
    case Bool(b) => b
    case Num(n) => n != 0
    case NaN => false
    case Str(s) => s != ""
    case Arr(_) => true
    case Obj(_) => true
  }

  /** The test applied to each property value of an object. */
  predicate PropHasContent(v: JsValue)
    ensures v.Str? ==> (PropHasContent(v) <==> !IsBlank(v.s))
  {
    if v.Str? then Trim(v.s) != "" else Truthy(v)
  }

  /** `hasContent(section)`. */
  predicate HasContent(v: JsValue)
    ensures !Truthy(v) ==> !HasContent(v)
    ensures v.Arr? ==> (HasContent(v) <==> |v.items| > 0)
    ensures v.Str? ==> (HasContent(v) <==> !IsBlank(v.s))
    ensures v.Obj? ==> (HasContent(v) <==> exists i :: 0 <= i < |v.props| && PropHasContent(v.props[i].1))
    ensures v.Bool? || v.Num? ==> (HasContent(v) <==> Truthy(v))
  {
    if !Truthy(v) then false
    else if v.Arr? then |v.items| > 0
    else if v.Obj? then exists i :: 0 <= i < |v.props| && PropHasContent(v.props[i].1)
    else if v.Str? then Trim(v.s) != ""
    else Truthy(v)
  }

  function PersonalValue(p: PersonalDetails): JsValue {
    Obj([
      (FullName.Key(), Str(p.fullName)), (Email.Key(), Str(p.email)),
      (Phone.Key(), Str(p.phone)), (LinkedIn.Key(), Str(p.linkedin)),
      (GitHub.Key(), Str(p.github)), (Location.Key(), Str(p.location))])
  }

  function WorkValue(e: WorkEntry): JsValue {
    Obj([
      (JobTitle.Key(), Str(e.jobTitle)), (CompanyName.Key(), Str(e.companyName)),
      (Location.Key(), Str(e.location)), (StartDate.Key(), Str(e.startDate)),
      (EndDate.Key(), Str(e.endDate)), (Description.Key(), Str(e.description))])
  }

  function EducationValue(e: EducationEntry): JsValue {
    Obj([
      (Degree.Key(), Str(e.degree)), (Institution.Key(), Str(e.institution)),
      (Location.Key(), Str(e.location)), (StartDate.Key(), Str(e.startDate)),
      (EndDate.Key(), Str(e.endDate)), (Grade.Key(), Str(e.grade))])
  }

  function SkillValue(e: SkillEntry): JsValue {
    Obj([(Category.Key(), Str(e.category)), (SkillList.Key(), Str(e.skills))])
  }

  function ProjectValue(e: ProjectEntry): JsValue {
    Obj([
      (ProjectName.Key(), Str(e.projectName)), (Description.Key(), Str(e.description)),
      (Link.Key(), Str(e.link))])
  }

  function LanguageValue(e: LanguageEntry): JsValue {
    Obj([(Language.Key(), Str(e.language)), (Proficiency.Key(), Str(e.proficiency))])
  }

  function CertificationValue(e: CertificationEntry): JsValue {
    Obj([
      (CertificationName.Key(), Str(e.certificationName)),
      (IssuingOrganization.Key(), Str(e.issuingOrganization)),
      (IssueDate.Key(), Str(e.issueDate))])
  }

  /** `resumeData[section]` as a JavaScript value. */
  function SectionValue(r: ResumeRecord, s: Section): JsValue {
    match s
    case PersonalDetailsSection => PersonalValue(r.personalDetails)
    case ObjectiveSection => Str(r.objective)
    case WorkExperienceSection =>
      Arr(seq(|r.workExperience|, i requires 0 <= i < |r.workExperience| => WorkValue(r.workExperience[i])))
    case ProjectsSection =>
      Arr(seq(|r.projects|, i requires 0 <= i < |r.projects| => ProjectValue(r.projects[i])))
    case EducationSection =>
      Arr(seq(|r.education|, i requires 0 <= i < |r.education| => EducationValue(r.education[i])))
    case SkillsSection =>
      Arr(seq(|r.skills|, i requires 0 <= i < |r.skills| => SkillValue(r.skills[i])))
    case CertificationsSection =>
      Arr(seq(|r.certifications|, i requires 0 <= i < |r.certifications| => CertificationValue(r.certifications[i])))
    case LanguagesSection =>
      Arr(seq(|r.languages|, i requires 0 <= i < |r.languages| => LanguageValue(r.languages[i])))
  }

  /** A section is populated, stated on the typed record: the objective is
      not blank, a sequence section has at least one entry (however empty
      its fields), the personal details have some non-blank field. */
  predicate Populated(r: ResumeRecord, s: Section) {
    match s
    case PersonalDetailsSection =>
      var p := r.personalDetails;
      !(IsBlank(p.fullName) && IsBlank(p.email) && IsBlank(p.phone)
        && IsBlank(p.location) && IsBlank(p.linkedin) && IsBlank(p.github))
    case ObjectiveSection => !IsBlank(r.objective)
    case _ => SectionLength(r, s) > 0
  }

  /** `hasContent` of a record section agrees with the typed reading. */
  lemma SectionHasContent(r: ResumeRecord, s: Section)
    ensures HasContent(SectionValue(r, s)) <==> Populated(r, s)
  {
    match s
    case PersonalDetailsSection => PersonalHasContent(r.personalDetails);
    case ObjectiveSection =>
    case WorkExperienceSection =>
    case ProjectsSection =>
    case EducationSection =>
    case SkillsSection =>
    case CertificationsSection =>
    case LanguagesSection =>
  }

  lemma PersonalHasContent(p: PersonalDetails)
    ensures HasContent(PersonalValue(p)) <==>
      !(IsBlank(p.fullName) && IsBlank(p.email) && IsBlank(p.phone)
        && IsBlank(p.location) && IsBlank(p.linkedin) && IsBlank(p.github))
  {
    var ps := PersonalValue(p).props;
    assert |ps| == 6;
    assert ps[0].1 == Str(p.fullName) && ps[1].1 == Str(p.email) && ps[2].1 == Str(p.phone);
    assert ps[3].1 == Str(p.linkedin) && ps[4].1 == Str(p.github) && ps[5].1 == Str(p.location);
    if HasContent(PersonalValue(p)) {
      var i :| 0 <= i < 6 && PropHasContent(ps[i].1);
      assert i == 0 || i == 1 || i == 2 || i == 3 || i == 4 || i == 5;
    } else {
      assert !PropHasContent(ps[0].1) && !PropHasContent(ps[1].1) && !PropHasContent(ps[2].1);
      assert !PropHasContent(ps[3].1) && !PropHasContent(ps[4].1) && !PropHasContent(ps[5].1);
    }
  }
}
