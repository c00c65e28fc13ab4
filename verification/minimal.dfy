/** The Minimal resume template as a pure projection of a resume record:
    which sections and fields become visible, in what order, what each input
    shows in view and in edit mode, and the `(section, index, field)` address
    each input passes to `updateField` when edited. */
module Minimal {
  import opened Optional
  import opened Text
  import opened Markdown
  import opened Resume
  import opened Content

  /** What `renderInput` produces: a link, an HTML block filled from
      `renderMarkdown`, a multi-line or a one-line text box. */
  datatype Display =
    | Anchor(href: Option<string>)
    | Html(html: string)
    | TextArea(text: string)
    | TextBox(text: string)

  /** The arguments a call site passes to `renderInput`, besides the class
      name, the label and the change callback. */
  datatype InputProps = InputProps(value: Option<string>, multiline: bool, link: bool)

  /** One rendered element: a section heading, or an input bound to the
      address its change callback passes to `updateField`. */
  datatype Node =
    | Heading(section: Section)
    | Input(addr: Address, props: InputProps)

  /** `renderInput`: view mode shows a link's raw value or the markdown
      rendering of any other value; edit mode shows the value, or "" when it
      is absent, in a text area or a text box. */
  function RenderInput(editing: bool, value: Option<string>, multiline: bool, link: bool): (d: Display)
    ensures !editing && link ==> d == Anchor(value)
    ensures !editing && !link ==> d == Html(RenderMarkdown(value.Else("")))
    ensures editing ==> (d.TextArea? <==> multiline) && (d.TextArea? || d.TextBox?)
    ensures editing && d.TextArea? ==> d.text == value.Else("")
    ensures editing && d.TextBox? ==> d.text == value.Else("")
  {
    if !editing then
      if link then Anchor(value)
      else Html(if value.None? then "" else RenderMarkdown(value.value))
    else if multiline then TextArea(value.Else(""))
    else TextBox(value.Else(""))
  }

  /** For a one-line value with no bold markup that is not a bullet, the
      HTML that view mode injects is exactly the text edit mode holds. */
  lemma ViewMatchesEdit(value: string, multiline: bool)
    requires NoNewline(value) && NoPair(value) && !StartsWith(Trim(value), "- ")
    ensures RenderInput(false, Some(value), multiline, false).html
         == RenderInput(true, Some(value), multiline, false).text
  {
    if value != "" {
      OneLine(value);
      PlainLineUnchanged(value);
    }
  }

  /** What an input node shows in the given mode. */
  function Shown(props: InputProps, editing: bool): Display {
    RenderInput(editing, props.value, props.multiline, props.link)
  }

  /** An input for one leaf, as every call site in the template writes it. */
  function In(s: Section, index: Option<nat>, f: Field, value: string,
              multiline: bool, link: bool): Node
  {
    Input(Address(s, index, f), InputProps(Some(value), multiline, link))
  }

  /** `[node]` when the condition holds, else nothing (`cond && <…/>`). */
  function When(cond: bool, node: Node): seq<Node> {
    if cond then [node] else []
  }

  /** The header: the full name always, the contact fields and profile links
      only when non-empty. */
  function PersonalNodes(p: PersonalDetails): seq<Node> {
    [In(PersonalDetailsSection, None, FullName, p.fullName, false, false)]
    + (Contact(p, Email, false)
    + (Contact(p, Phone, false)
    + (Contact(p, Location, false)
    + (Contact(p, LinkedIn, true)
    + Contact(p, GitHub, true)))))
  }

  /** `{personalDetails.<f> && renderInput(…)}` for one optional header leaf. */
  function Contact(p: PersonalDetails, f: Field, link: bool): seq<Node> {
    var v := PersonalField(p, f).Else("");
    When(v != "", In(PersonalDetailsSection, None, f, v, false, link))
  }

  function WorkNodes(e: WorkEntry, i: nat): seq<Node> {
    var s := WorkExperienceSection;
    [In(s, Some(i), JobTitle, e.jobTitle, false, false)]
    + ([In(s, Some(i), StartDate, e.startDate, false, false)]
    + ([In(s, Some(i), EndDate, e.endDate, false, false)]
    + ([In(s, Some(i), CompanyName, e.companyName, false, false)]
    + [In(s, Some(i), Description, e.description, true, false)])))
  }

  function ProjectNodes(e: ProjectEntry, i: nat): seq<Node> {
    var s := ProjectsSection;
    [In(s, Some(i), ProjectName, e.projectName, false, false)]
    + (When(e.link != "", In(s, Some(i), Link, e.link, false, true))
    + [In(s, Some(i), Description, e.description, true, false)])
  }

  function EducationNodes(e: EducationEntry, i: nat): seq<Node> {
    var s := EducationSection;
    [In(s, Some(i), Degree, e.degree, false, false)]
    + ([In(s, Some(i), StartDate, e.startDate, false, false)]
    + ([In(s, Some(i), EndDate, e.endDate, false, false)]
    + ([In(s, Some(i), Institution, e.institution, false, false)]
    + When(e.grade != "", In(s, Some(i), Grade, e.grade, false, false)))))
  }

  function SkillNodes(e: SkillEntry, i: nat): seq<Node> {
    var s := SkillsSection;
    [In(s, Some(i), Category, e.category, false, false)]
    + [In(s, Some(i), SkillList, e.skills, false, false)]
  }

  function CertificationNodes(e: CertificationEntry, i: nat): seq<Node> {
    var s := CertificationsSection;
    [In(s, Some(i), CertificationName, e.certificationName, false, false)]
    + ([In(s, Some(i), IssueDate, e.issueDate, false, false)]
    + [In(s, Some(i), IssuingOrganization, e.issuingOrganization, false, false)])
  }

  function LanguageNodes(e: LanguageEntry, i: nat): seq<Node> {
    var s := LanguagesSection;
    [In(s, Some(i), Language, e.language, false, false)]
    + [In(s, Some(i), Proficiency, e.proficiency, false, false)]
  }

  /** The inputs of entry `i` of a sequence section (`section.map((x, index) => …)`). */
  function EntryNodes(r: ResumeRecord, s: Section, i: nat): seq<Node>
    requires s.IsSequence() && i < SectionLength(r, s)
  {
    match s
    case WorkExperienceSection => WorkNodes(r.workExperience[i], i)
    case ProjectsSection => ProjectNodes(r.projects[i], i)
    case EducationSection => EducationNodes(r.education[i], i)
    case SkillsSection => SkillNodes(r.skills[i], i)
    case CertificationsSection => CertificationNodes(r.certifications[i], i)
    case LanguagesSection => LanguageNodes(r.languages[i], i)
  }

  function Concat<T>(xss: seq<seq<T>>): seq<T> {
    if xss == [] then [] else xss[0] + Concat(xss[1..])
  }

  /** The contents of a section block below its heading. */
  function Body(r: ResumeRecord, s: Section): seq<Node>
    requires s != PersonalDetailsSection
  {
    if s == ObjectiveSection then
      [In(ObjectiveSection, None, Objective, r.objective, true, false)]
    else
      Concat(Entries(r, s))
  }

  /** The entries of a sequence section, one node list per entry. */
  function Entries(r: ResumeRecord, s: Section): (xss: seq<seq<Node>>)
    requires s.IsSequence()
    ensures |xss| == SectionLength(r, s)
  {
    var n := SectionLength(r, s);
    seq(n, i requires 0 <= i < n => EntryNodes(r, s, i))
  }

  /** `hasContent(resumeData[section]) && (<heading/> …)`. */
  function Block(r: ResumeRecord, s: Section): seq<Node>
    requires s != PersonalDetailsSection
  {
    if HasContent(SectionValue(r, s)) then [Heading(s)] + Body(r, s) else []
  }

  /** The sections below the header, in the template's order. */
  const BodyOrder: seq<Section> := [
    ObjectiveSection, WorkExperienceSection, ProjectsSection, EducationSection,
    SkillsSection, CertificationsSection, LanguagesSection]

  function Blocks(r: ResumeRecord, ss: seq<Section>): seq<Node>
    requires PersonalDetailsSection !in ss
  {
    if ss == [] then [] else Block(r, ss[0]) + Blocks(r, ss[1..])
  }

  /** `MinimalTemplate({resumeData, isEditing, updateField})`. */
  function Render(r: ResumeRecord): seq<Node> {
    PersonalNodes(r.personalDetails) + Blocks(r, BodyOrder)
  }

  /* ---------- Reference tables: what the template shows, stated per leaf ---------- */

  /** The leaves of each section the template has an input for, in order.
      (The work and education `location` leaves are never shown.) */
  function ShownFields(s: Section): seq<Field> {
    match s
    case PersonalDetailsSection => [FullName, Email, Phone, Location, LinkedIn, GitHub]
    case ObjectiveSection => [Objective]
    case WorkExperienceSection => [JobTitle, StartDate, EndDate, CompanyName, Description]
    case ProjectsSection => [ProjectName, Link, Description]
    case EducationSection => [Degree, StartDate, EndDate, Institution, Grade]
    case SkillsSection => [Category, SkillList]
    case CertificationsSection => [CertificationName, IssueDate, IssuingOrganization]
    case LanguagesSection => [Language, Proficiency]
  }

  /** Leaves shown as links in view mode. */
  predicate IsLinkField(s: Section, f: Field) {
    (s == PersonalDetailsSection && (f == LinkedIn || f == GitHub))
    || (s == ProjectsSection && f == Link)
  }

  /** Leaves edited in a multi-line text area. */
  predicate IsMultilineField(s: Section, f: Field) {
    s == ObjectiveSection
    || (f == Description && (s == WorkExperienceSection || s == ProjectsSection))
  }

  /** Leaves rendered only when their value is non-empty. */
  predicate IsOptionalField(s: Section, f: Field) {
    (s == PersonalDetailsSection && f != FullName)
    || (s == ProjectsSection && f == Link)
    || (s == EducationSection && f == Grade)
  }

  /** An input node shows the leaf its edit address names, with the text
      kind and link kind the leaf calls for. */
  ghost predicate Faithful(r: ResumeRecord, n: Node) {
    n.Input? ==>
      var a := n.addr;
      && a.field in ShownFields(a.section)
      && Lookup(r, a).Some?
      && n.props == InputProps(Lookup(r, a), IsMultilineField(a.section, a.field),
                               IsLinkField(a.section, a.field))
  }

  /** Some input of `ns` is bound to address `a`. */
  ghost predicate Shows(ns: seq<Node>, a: Address) {
    exists n :: n in ns && n.Input? && n.addr == a
  }

  /** The section headings of `ns`, in order. */
  function Headings(ns: seq<Node>): seq<Section> {
    if ns == [] then []
    else (if ns[0].Heading? then [ns[0].section] else []) + Headings(ns[1..])
  }

  /** Position of a section in the page, top to bottom. */
  function Rank(s: Section): nat {
    match s
    case PersonalDetailsSection => 0
    case ObjectiveSection => 1
    case WorkExperienceSection => 2
    case ProjectsSection => 3
    case EducationSection => 4
    case SkillsSection => 5
    case CertificationsSection => 6
    case LanguagesSection => 7
  }

  /* ---------- Lemmas ---------- */

  lemma {:induction false} ConcatMember<T>(xss: seq<seq<T>>, x: T)
    ensures x in Concat(xss) <==> exists i :: 0 <= i < |xss| && x in xss[i]
  {
    if xss != [] {
      ConcatMember(xss[1..], x);
      if x in Concat(xss[1..]) {
        var i :| 0 <= i < |xss[1..]| && x in xss[1..][i];
        assert x in xss[i + 1];
      }
      if exists i :: 0 <= i < |xss| && x in xss[i] {
        var i :| 0 <= i < |xss| && x in xss[i];
        if i > 0 {
          assert x in xss[1..][i - 1];
        }
      }
    }
  }

  lemma {:induction false} HeadingsAppend(xs: seq<Node>, ys: seq<Node>)
    ensures Headings(xs + ys) == Headings(xs) + Headings(ys)
  {
    if xs != [] {
      assert (xs + ys)[1..] == xs[1..] + ys;
      HeadingsAppend(xs[1..], ys);
    } else {
      assert xs + ys == ys;
    }
  }

  lemma {:induction false} HeadingsOfInputs(ns: seq<Node>)
    requires forall n :: n in ns ==> n.Input?
    ensures Headings(ns) == []
  {
    if ns != [] {
      assert ns[0] in ns;
      HeadingsOfInputs(ns[1..]);
    }
  }

  /** The reference rendering of one entry, driven by the tables above:
      an input for each shown leaf in table order, skipping an optional
      leaf whose value is empty, with the text and link kind the leaf calls
      for. */
  function Leaves(r: ResumeRecord, s: Section, index: Option<nat>, fs: seq<Field>): seq<Node> {
    if fs == [] then [] else Leaf(r, s, index, fs[0]) + Leaves(r, s, index, fs[1..])
  }

  /** The reference input of one leaf, if it is rendered. */
  function Leaf(r: ResumeRecord, s: Section, index: Option<nat>, f: Field): seq<Node> {
    var a := Address(s, index, f);
    var v := Lookup(r, a);
    When(v.Some? && (IsOptionalField(s, f) ==> v.value != ""),
         Input(a, InputProps(v, IsMultilineField(s, f), IsLinkField(s, f))))
  }

  /** The input of one leaf whose value is known. */
  lemma SingleLeaf(r: ResumeRecord, s: Section, index: Option<nat>, f: Field, v: string)
    requires Lookup(r, Address(s, index, f)) == Some(v)
    ensures Leaf(r, s, index, f)
         == When(!IsOptionalField(s, f) || v != "", In(s, index, f, v, IsMultilineField(s, f), IsLinkField(s, f)))
  {
  }

  lemma LeavesCons(r: ResumeRecord, s: Section, index: Option<nat>, f: Field, fs: seq<Field>)
    ensures Leaves(r, s, index, [f] + fs) == Leaf(r, s, index, f) + Leaves(r, s, index, fs)
  {
    assert ([f] + fs)[1..] == fs;
  }

  /** A leaf the template has an input for, which resolves, and which is not
      an empty optional leaf. */
  ghost predicate LeafShown(r: ResumeRecord, a: Address) {
    && a.field in ShownFields(a.section)
    && Lookup(r, a).Some?
    && (IsOptionalField(a.section, a.field) ==> Lookup(r, a).value != "")
  }

  /** A leaf the page shows: a shown leaf of the header, or of a populated
      section. */
  ghost predicate Visible(r: ResumeRecord, a: Address) {
    LeafShown(r, a) && (a.section == PersonalDetailsSection || Populated(r, a.section))
  }

  /** The reference rendering shows exactly the resolvable, non-empty-or-
      mandatory leaves it lists, at the given section and index. */
  lemma {:induction false} LeavesShows(r: ResumeRecord, s: Section, index: Option<nat>, fs: seq<Field>, a: Address)
    ensures Shows(Leaves(r, s, index, fs), a) <==>
      && a.section == s && a.index == index && a.field in fs
      && Lookup(r, a).Some? && (IsOptionalField(s, a.field) ==> Lookup(r, a).value != "")
  {
    if fs != [] {
      LeavesShows(r, s, index, fs[1..], a);
      var b := Address(s, index, fs[0]);
      var head := Leaves(r, s, index, [fs[0]]);
      assert Leaves(r, s, index, fs[1..]) == Leaves(r, s, index, fs)[|Leaves(r, s, index, fs)| - |Leaves(r, s, index, fs[1..])|..];
      assert fs == [fs[0]] + fs[1..];
      if Shows(Leaves(r, s, index, fs), a) {
        var n :| n in Leaves(r, s, index, fs) && n.Input? && n.addr == a;
        if n !in Leaves(r, s, index, fs[1..]) {
          assert a == b;
        }
      }
    }
  }

  /** Every input of the reference rendering of shown leaves is faithful. */
  lemma {:induction false} LeavesFaithful(r: ResumeRecord, s: Section, index: Option<nat>, fs: seq<Field>)
    requires forall k :: 0 <= k < |fs| ==> fs[k] in ShownFields(s)
    ensures forall n :: n in Leaves(r, s, index, fs) ==> n.Input? && Faithful(r, n)
  {
    if fs != [] {
      LeavesFaithful(r, s, index, fs[1..]);
    }
  }

  /* Each section's hand-written node list is the reference rendering. */

  lemma PersonalLeaves(r: ResumeRecord)
    ensures PersonalNodes(r.personalDetails) == Leaves(r, PersonalDetailsSection, None, ShownFields(PersonalDetailsSection))
  {
    PersonalContacts(r);
    LeavesCons(r, PersonalDetailsSection, None, FullName, [Email, Phone, Location, LinkedIn, GitHub]);
  }

  /** The optional part of the header, after the name. */
  lemma PersonalContacts(r: ResumeRecord)
    ensures var p := r.personalDetails;
      Leaves(r, PersonalDetailsSection, None, [Email, Phone, Location, LinkedIn, GitHub])
      == Contact(p, Email, false) + (Contact(p, Phone, false) + (Contact(p, Location, false)
         + (Contact(p, LinkedIn, true) + Contact(p, GitHub, true))))
  {
    var s := PersonalDetailsSection;
    ContactLeaf(r, GitHub);
    LeavesCons(r, s, None, GitHub, []);
    ContactLeaf(r, LinkedIn);
    LeavesCons(r, s, None, LinkedIn, [GitHub]);
    ContactLeaf(r, Location);
    LeavesCons(r, s, None, Location, [LinkedIn, GitHub]);
    ContactLeaf(r, Phone);
    LeavesCons(r, s, None, Phone, [Location, LinkedIn, GitHub]);
    ContactLeaf(r, Email);
    LeavesCons(r, s, None, Email, [Phone, Location, LinkedIn, GitHub]);
  }

  lemma ContactLeaf(r: ResumeRecord, f: Field)
    requires f in {Email, Phone, Location, LinkedIn, GitHub}
    ensures Leaf(r, PersonalDetailsSection, None, f) == Contact(r.personalDetails, f, f == LinkedIn || f == GitHub)
  {
  }

  lemma WorkLeaves(r: ResumeRecord, i: nat)
    requires i < |r.workExperience|
    ensures WorkNodes(r.workExperience[i], i) == Leaves(r, WorkExperienceSection, Some(i), ShownFields(WorkExperienceSection))
  {
    var s := WorkExperienceSection;
    var e := r.workExperience[i];
    SingleLeaf(r, s, Some(i), JobTitle, e.jobTitle);
    SingleLeaf(r, s, Some(i), StartDate, e.startDate);
    SingleLeaf(r, s, Some(i), EndDate, e.endDate);
    SingleLeaf(r, s, Some(i), CompanyName, e.companyName);
    SingleLeaf(r, s, Some(i), Description, e.description);
    LeavesCons(r, s, Some(i), JobTitle, [StartDate, EndDate, CompanyName, Description]);
    LeavesCons(r, s, Some(i), StartDate, [EndDate, CompanyName, Description]);
    LeavesCons(r, s, Some(i), EndDate, [CompanyName, Description]);
    LeavesCons(r, s, Some(i), CompanyName, [Description]);
    LeavesCons(r, s, Some(i), Description, []);
    assert Leaves(r, s, Some(i), []) == [];
  }

  lemma ProjectLeaves(r: ResumeRecord, i: nat)
    requires i < |r.projects|
    ensures ProjectNodes(r.projects[i], i) == Leaves(r, ProjectsSection, Some(i), ShownFields(ProjectsSection))
  {
    var s := ProjectsSection;
    var e := r.projects[i];
    SingleLeaf(r, s, Some(i), ProjectName, e.projectName);
    SingleLeaf(r, s, Some(i), Link, e.link);
    SingleLeaf(r, s, Some(i), Description, e.description);
    LeavesCons(r, s, Some(i), ProjectName, [Link, Description]);
    LeavesCons(r, s, Some(i), Link, [Description]);
    LeavesCons(r, s, Some(i), Description, []);
    assert Leaves(r, s, Some(i), []) == [];
  }

  lemma EducationLeaves(r: ResumeRecord, i: nat)
    requires i < |r.education|
    ensures EducationNodes(r.education[i], i) == Leaves(r, EducationSection, Some(i), ShownFields(EducationSection))
  {
    var s := EducationSection;
    var e := r.education[i];
    SingleLeaf(r, s, Some(i), Degree, e.degree);
    SingleLeaf(r, s, Some(i), StartDate, e.startDate);
    SingleLeaf(r, s, Some(i), EndDate, e.endDate);
    SingleLeaf(r, s, Some(i), Institution, e.institution);
    SingleLeaf(r, s, Some(i), Grade, e.grade);
    LeavesCons(r, s, Some(i), Degree, [StartDate, EndDate, Institution, Grade]);
    LeavesCons(r, s, Some(i), StartDate, [EndDate, Institution, Grade]);
    LeavesCons(r, s, Some(i), EndDate, [Institution, Grade]);
    LeavesCons(r, s, Some(i), Institution, [Grade]);
    LeavesCons(r, s, Some(i), Grade, []);
    assert Leaves(r, s, Some(i), []) == [];
  }

  lemma SkillLeaves(r: ResumeRecord, i: nat)
    requires i < |r.skills|
    ensures SkillNodes(r.skills[i], i) == Leaves(r, SkillsSection, Some(i), ShownFields(SkillsSection))
  {
    var s := SkillsSection;
    var e := r.skills[i];
    SingleLeaf(r, s, Some(i), Category, e.category);
    SingleLeaf(r, s, Some(i), SkillList, e.skills);
    LeavesCons(r, s, Some(i), Category, [SkillList]);
    LeavesCons(r, s, Some(i), SkillList, []);
    assert Leaves(r, s, Some(i), []) == [];
  }

  lemma CertificationLeaves(r: ResumeRecord, i: nat)
    requires i < |r.certifications|
    ensures CertificationNodes(r.certifications[i], i) == Leaves(r, CertificationsSection, Some(i), ShownFields(CertificationsSection))
  {
    var s := CertificationsSection;
    var e := r.certifications[i];
    SingleLeaf(r, s, Some(i), CertificationName, e.certificationName);
    SingleLeaf(r, s, Some(i), IssueDate, e.issueDate);
    SingleLeaf(r, s, Some(i), IssuingOrganization, e.issuingOrganization);
    LeavesCons(r, s, Some(i), CertificationName, [IssueDate, IssuingOrganization]);
    LeavesCons(r, s, Some(i), IssueDate, [IssuingOrganization]);
    LeavesCons(r, s, Some(i), IssuingOrganization, []);
    assert Leaves(r, s, Some(i), []) == [];
  }

  lemma LanguageLeaves(r: ResumeRecord, i: nat)
    requires i < |r.languages|
    ensures LanguageNodes(r.languages[i], i) == Leaves(r, LanguagesSection, Some(i), ShownFields(LanguagesSection))
  {
    var s := LanguagesSection;
    var e := r.languages[i];
    SingleLeaf(r, s, Some(i), Language, e.language);
    SingleLeaf(r, s, Some(i), Proficiency, e.proficiency);
    LeavesCons(r, s, Some(i), Language, [Proficiency]);
    LeavesCons(r, s, Some(i), Proficiency, []);
    assert Leaves(r, s, Some(i), []) == [];
  }

  lemma EntryLeaves(r: ResumeRecord, s: Section, i: nat)
    requires s.IsSequence() && i < SectionLength(r, s)
    ensures EntryNodes(r, s, i) == Leaves(r, s, Some(i), ShownFields(s))
  {
    match s
    case WorkExperienceSection => WorkLeaves(r, i);
    case ProjectsSection => ProjectLeaves(r, i);
    case EducationSection => EducationLeaves(r, i);
    case SkillsSection => SkillLeaves(r, i);
    case CertificationsSection => CertificationLeaves(r, i);
    case LanguagesSection => LanguageLeaves(r, i);
  }

  lemma ObjectiveLeaves(r: ResumeRecord)
    ensures Body(r, ObjectiveSection) == Leaves(r, ObjectiveSection, None, ShownFields(ObjectiveSection))
  {
    LeavesCons(r, ObjectiveSection, None, Objective, []);
  }

  lemma ShowsAppend(xs: seq<Node>, ys: seq<Node>, a: Address)
    ensures Shows(xs + ys, a) <==> Shows(xs, a) || Shows(ys, a)
  {
    if Shows(xs + ys, a) {
      var n: Node :| n in xs + ys && n.Input? && n.addr == a;
      assert n in xs || n in ys;
    }
    if Shows(xs, a) {
      var n: Node :| n in xs && n.Input? && n.addr == a;
      assert n in xs + ys;
    }
    if Shows(ys, a) {
      var n: Node :| n in ys && n.Input? && n.addr == a;
      assert n in xs + ys;
    }
  }

  /** The body of a section shows exactly the shown leaves of that section. */
  lemma BodyShows(r: ResumeRecord, s: Section, a: Address)
    requires s != PersonalDetailsSection
    ensures Shows(Body(r, s), a) <==> a.section == s && LeafShown(r, a)
  {
    if s == ObjectiveSection {
      ObjectiveLeaves(r);
      LeavesShows(r, s, None, ShownFields(s), a);
      if a.section == s && LeafShown(r, a) {
        ResolvedAddressShape(r, a);
      }
    } else {
      var xss := Entries(r, s);
      if Shows(Body(r, s), a) {
        var n: Node :| n in Concat(xss) && n.Input? && n.addr == a;
        ConcatMember(xss, n);
        var i :| 0 <= i < |xss| && n in xss[i];
        EntryLeaves(r, s, i);
        LeavesShows(r, s, Some(i), ShownFields(s), a);
      }
      if a.section == s && LeafShown(r, a) {
        ResolvedAddressShape(r, a);
        var i := a.index.value;
        EntryLeaves(r, s, i);
        LeavesShows(r, s, Some(i), ShownFields(s), a);
        var n: Node :| n in xss[i] && n.Input? && n.addr == a;
        ConcatMember(xss, n);
      }
    }
  }

  /** Every input of a section body is faithful. */
  lemma BodyFaithful(r: ResumeRecord, s: Section)
    requires s != PersonalDetailsSection
    ensures forall n :: n in Body(r, s) ==> n.Input? && Faithful(r, n)
  {
    if s == ObjectiveSection {
      ObjectiveLeaves(r);
      LeavesFaithful(r, s, None, ShownFields(s));
    } else {
      var xss := Entries(r, s);
      forall n | n in Body(r, s) ensures n.Input? && Faithful(r, n) {
        ConcatMember(xss, n);
        var i :| 0 <= i < |xss| && n in xss[i];
        EntryLeaves(r, s, i);
        LeavesFaithful(r, s, Some(i), ShownFields(s));
      }
    }
  }

  /** The blocks of `ss` show a leaf exactly when its section is one of
      `ss` and has content. */
  lemma {:induction false} BlocksShows(r: ResumeRecord, ss: seq<Section>, a: Address)
    requires PersonalDetailsSection !in ss
    ensures Shows(Blocks(r, ss), a) <==>
      a.section in ss && HasContent(SectionValue(r, a.section)) && LeafShown(r, a)
  {
    if ss != [] {
      var s := ss[0];
      assert PersonalDetailsSection !in ss[1..];
      BlocksShows(r, ss[1..], a);
      ShowsAppend(Block(r, s), Blocks(r, ss[1..]), a);
      BodyShows(r, s, a);
      if HasContent(SectionValue(r, s)) {
        ShowsAppend([Heading(s)], Body(r, s), a);
      }
      assert a.section in ss <==> a.section == s || a.section in ss[1..];
    }
  }

  lemma {:induction false} BlocksFaithful(r: ResumeRecord, ss: seq<Section>)
    requires PersonalDetailsSection !in ss
    ensures forall n :: n in Blocks(r, ss) ==> Faithful(r, n)
  {
    if ss != [] {
      assert PersonalDetailsSection !in ss[1..];
      BlocksFaithful(r, ss[1..]);
      BodyFaithful(r, ss[0]);
    }
  }

  /** The sections of `ss` that have content, in order. */
  function WithContent(r: ResumeRecord, ss: seq<Section>): seq<Section> {
    if ss == [] then []
    else (if HasContent(SectionValue(r, ss[0])) then [ss[0]] else []) + WithContent(r, ss[1..])
  }

  lemma {:induction false} BlocksHeadings(r: ResumeRecord, ss: seq<Section>)
    requires PersonalDetailsSection !in ss
    ensures Headings(Blocks(r, ss)) == WithContent(r, ss)
  {
    if ss != [] {
      var s := ss[0];
      assert PersonalDetailsSection !in ss[1..];
      BlocksHeadings(r, ss[1..]);
      HeadingsAppend(Block(r, s), Blocks(r, ss[1..]));
      if HasContent(SectionValue(r, s)) {
        BodyFaithful(r, s);
        HeadingsOfInputs(Body(r, s));
        HeadingsAppend([Heading(s)], Body(r, s));
      }
    }
  }

  /** The template shows an input for a leaf exactly when the leaf is one
      the template lists, resolves, is not an empty optional leaf, and its
      section is the header or a section with content. */
  lemma RenderShows(r: ResumeRecord, a: Address)
    ensures Shows(Render(r), a) <==> Visible(r, a)
  {
    ShowsAppend(PersonalNodes(r.personalDetails), Blocks(r, BodyOrder), a);
    PersonalShows(r, a);
    BlocksShows(r, BodyOrder, a);
    SectionHasContent(r, a.section);
  }

  /** The header shows exactly the shown leaves of the personal details. */
  lemma PersonalShows(r: ResumeRecord, a: Address)
    ensures Shows(PersonalNodes(r.personalDetails), a) <==> a.section == PersonalDetailsSection && LeafShown(r, a)
  {
    var s := PersonalDetailsSection;
    PersonalLeaves(r);
    LeavesShows(r, s, None, ShownFields(s), a);
    if a.section == s && LeafShown(r, a) {
      ResolvedAddressShape(r, a);
    }
  }

  /** Every input of the page is bound to the leaf whose value it shows. */
  lemma RenderFaithful(r: ResumeRecord)
    ensures forall n :: n in Render(r) ==> Faithful(r, n)
  {
    PersonalLeaves(r);
    LeavesFaithful(r, PersonalDetailsSection, None, ShownFields(PersonalDetailsSection));
    BlocksFaithful(r, BodyOrder);
  }

  /** The headings are those of the populated sections below the header, in
      page order. */
  lemma RenderHeadings(r: ResumeRecord)
    ensures Headings(Render(r)) == WithContent(r, BodyOrder)
    ensures forall s :: s in Headings(Render(r)) <==> s != PersonalDetailsSection && Populated(r, s)
    ensures forall j, k :: 0 <= j < k < |Headings(Render(r))| ==>
      Rank(Headings(Render(r))[j]) < Rank(Headings(Render(r))[k])
  {
    HeadingsOfRender(r);
    HeadingsFacts(r, Headings(Render(r)));
  }

  /** Membership and order of the populated sections below the header. */
  lemma HeadingsFacts(r: ResumeRecord, h: seq<Section>)
    requires h == WithContent(r, BodyOrder)
    ensures forall s :: s in h <==> s != PersonalDetailsSection && Populated(r, s)
    ensures forall j, k :: 0 <= j < k < |h| ==> Rank(h[j]) < Rank(h[k])
  {
    BodyOrderContent(r);
    WithContentRanked(r, BodyOrder);
  }

  lemma HeadingsOfRender(r: ResumeRecord)
    ensures Headings(Render(r)) == WithContent(r, BodyOrder)
  {
    PersonalLeaves(r);
    LeavesFaithful(r, PersonalDetailsSection, None, ShownFields(PersonalDetailsSection));
    HeadingsOfInputs(PersonalNodes(r.personalDetails));
    HeadingsAppend(PersonalNodes(r.personalDetails), Blocks(r, BodyOrder));
    BlocksHeadings(r, BodyOrder);
  }

  /** The sections below the header that get a heading are the populated ones. */
  lemma BodyOrderContent(r: ResumeRecord)
    ensures forall s :: s in WithContent(r, BodyOrder) <==> s != PersonalDetailsSection && Populated(r, s)
  {
    forall s ensures s in WithContent(r, BodyOrder) <==> s != PersonalDetailsSection && Populated(r, s) {
      WithContentMember(r, BodyOrder, s);
      SectionHasContent(r, s);
    }
  }

  lemma {:induction false} WithContentMember(r: ResumeRecord, ss: seq<Section>, s: Section)
    ensures s in WithContent(r, ss) <==> s in ss && HasContent(SectionValue(r, s))
  {
    if ss != [] {
      WithContentMember(r, ss[1..], s);
      assert s in ss <==> s == ss[0] || s in ss[1..];
    }
  }

  /** Sections listed in increasing rank stay so after dropping the empty ones. */
  lemma {:induction false} WithContentRanked(r: ResumeRecord, ss: seq<Section>)
    requires forall j, k :: 0 <= j < k < |ss| ==> Rank(ss[j]) < Rank(ss[k])
    ensures forall j, k :: 0 <= j < k < |WithContent(r, ss)| ==>
      Rank(WithContent(r, ss)[j]) < Rank(WithContent(r, ss)[k])
  {
    if ss != [] {
      WithContentRanked(r, ss[1..]);
      var w := WithContent(r, ss[1..]);
      forall k | 0 <= k < |w| ensures Rank(ss[0]) < Rank(w[k]) {
        WithContentMember(r, ss[1..], w[k]);
        var m :| 0 <= m < |ss[1..]| && ss[1..][m] == w[k];
        assert ss[m + 1] == w[k];
      }
    }
  }

  /** The page opens with the full name, whatever the record holds. */
  lemma RenderStartsWithName(r: ResumeRecord)
    ensures |Render(r)| >= 1
    ensures Render(r)[0] == Input(Address(PersonalDetailsSection, None, FullName),
                                  InputProps(Some(r.personalDetails.fullName), false, false))
  {
  }

  /** What an input of the page displays: in view mode a link leaf shows
      its raw value as a link and any other leaf its markdown rendering; in
      edit mode a text area exactly for the multi-line leaves, holding the
      leaf's value. */
  lemma RenderDisplay(r: ResumeRecord, n: Node, editing: bool)
    requires n in Render(r) && n.Input?
    ensures var a := n.addr;
      var v := Lookup(r, a);
      && v.Some?
      && (!editing && IsLinkField(a.section, a.field) ==> Shown(n.props, editing) == Anchor(v))
      && (!editing && !IsLinkField(a.section, a.field) ==>
            Shown(n.props, editing) == Html(RenderMarkdown(v.value)))
      && (editing && IsMultilineField(a.section, a.field) ==> Shown(n.props, editing) == TextArea(v.value))
      && (editing && !IsMultilineField(a.section, a.field) ==> Shown(n.props, editing) == TextBox(v.value))
  {
    RenderFaithful(r);
  }

  /** Every edit callback on the page passes a null index for the header
      and the summary, and for a sequence section the index of the entry it
      sits in, which is within the section. */
  lemma RenderAddresses(r: ResumeRecord, n: Node)
    requires n in Render(r) && n.Input?
    ensures n.addr.index.None? <==> !n.addr.section.IsSequence()
    ensures n.addr.index.Some? ==> n.addr.index.value < SectionLength(r, n.addr.section)
    ensures n.props.value == Lookup(r, n.addr)
  {
    RenderFaithful(r);
    ResolvedAddressShape(r, n.addr);
  }
}
