/** How the Minimal template shows the wizard's default record: the single
    placeholder entry of each sequence section counts as content, so every
    such section gets its heading and its mandatory inputs even though all
    of them are empty. */
module DefaultView {
  import opened Optional
  import opened Resume
  import opened Content
  import opened Minimal
  import opened Wizard

  /** The headings of a fresh form: every sequence section, in page order;
      the empty summary has none. */
  lemma DefaultHeadings(storedName: Option<string>, session: Option<User>)
    ensures Headings(Render(DefaultRecord(storedName, session))) ==
      [WorkExperienceSection, ProjectsSection, EducationSection, SkillsSection,
       CertificationsSection, LanguagesSection]
  {
    var r := DefaultRecord(storedName, session);
    forall s | s != PersonalDetailsSection
      ensures HasContent(SectionValue(r, s)) <==> s != ObjectiveSection
    {
      SectionHasContent(r, s);
    }
    RenderHeadings(r);
    SequenceHeadings(r);
  }

  /** With an empty summary and content in every sequence section, the
      headings are those of the sequence sections. */
  lemma SequenceHeadings(r: ResumeRecord)
    requires forall s :: s != PersonalDetailsSection ==> (HasContent(SectionValue(r, s)) <==> s != ObjectiveSection)
    ensures WithContent(r, BodyOrder) ==
      [WorkExperienceSection, ProjectsSection, EducationSection, SkillsSection,
       CertificationsSection, LanguagesSection]
  {
    var b := BodyOrder;
    assert b[6..][1..] == [];
    assert WithContent(r, b[6..]) == [LanguagesSection];
    assert b[5..][1..] == b[6..];
    assert WithContent(r, b[5..]) == [CertificationsSection] + WithContent(r, b[6..]);
    assert b[4..][1..] == b[5..];
    assert WithContent(r, b[4..]) == [SkillsSection] + WithContent(r, b[5..]);
    assert b[3..][1..] == b[4..];
    assert WithContent(r, b[3..]) == [EducationSection] + WithContent(r, b[4..]);
    assert b[2..][1..] == b[3..];
    assert WithContent(r, b[2..]) == [ProjectsSection] + WithContent(r, b[3..]);
    assert b[1..][1..] == b[2..];
    assert WithContent(r, b[1..]) == [WorkExperienceSection] + WithContent(r, b[2..]);
    assert WithContent(r, b) == WithContent(r, b[1..]);
  }

  /** In a fresh form the placeholder project shows its (empty) name but
      not its empty link, the placeholder education entry hides its empty
      grade, and the empty summary shows no input. */
  lemma DefaultPlaceholderInputs(storedName: Option<string>, session: Option<User>)
    ensures var r := DefaultRecord(storedName, session);
      && Shows(Render(r), Address(ProjectsSection, Some(0), ProjectName))
      && !Shows(Render(r), Address(ProjectsSection, Some(0), Link))
      && Shows(Render(r), Address(EducationSection, Some(0), Degree))
      && !Shows(Render(r), Address(EducationSection, Some(0), Grade))
      && !Shows(Render(r), Address(ObjectiveSection, None, Objective))
  {
    var r := DefaultRecord(storedName, session);
    PlaceholderInputs(r);
  }

  lemma PlaceholderInputs(r: ResumeRecord)
    requires r.projects == [ProjectEntry("", "", "")]
    requires r.education == [EducationEntry("", "", "", "", "", "")]
    requires r.objective == ""
    ensures Shows(Render(r), Address(ProjectsSection, Some(0), ProjectName))
    ensures !Shows(Render(r), Address(ProjectsSection, Some(0), Link))
    ensures Shows(Render(r), Address(EducationSection, Some(0), Degree))
    ensures !Shows(Render(r), Address(EducationSection, Some(0), Grade))
    ensures !Shows(Render(r), Address(ObjectiveSection, None, Objective))
  {
    ProjectPlaceholder(r);
    EducationPlaceholder(r);
    ObjectiveHidden(r);
  }

  lemma ProjectPlaceholder(r: ResumeRecord)
    requires r.projects == [ProjectEntry("", "", "")]
    ensures Shows(Render(r), Address(ProjectsSection, Some(0), ProjectName))
    ensures !Shows(Render(r), Address(ProjectsSection, Some(0), Link))
  {
    var name := Address(ProjectsSection, Some(0), ProjectName);
    var link := Address(ProjectsSection, Some(0), Link);
    assert Visible(r, name) && !Visible(r, link) by {
      assert Populated(r, ProjectsSection);
      assert LeafShown(r, name);
      assert !LeafShown(r, link);
    }
    RenderShows(r, name);
    RenderShows(r, link);
  }

  lemma EducationPlaceholder(r: ResumeRecord)
    requires r.education == [EducationEntry("", "", "", "", "", "")]
    ensures Shows(Render(r), Address(EducationSection, Some(0), Degree))
    ensures !Shows(Render(r), Address(EducationSection, Some(0), Grade))
  {
    var degree := Address(EducationSection, Some(0), Degree);
    var grade := Address(EducationSection, Some(0), Grade);
    assert Visible(r, degree) && !Visible(r, grade) by {
      assert Populated(r, EducationSection);
      assert LeafShown(r, degree);
      assert !LeafShown(r, grade);
    }
    RenderShows(r, degree);
    RenderShows(r, grade);
  }

  lemma ObjectiveHidden(r: ResumeRecord)
    requires r.objective == ""
    ensures !Shows(Render(r), Address(ObjectiveSection, None, Objective))
  {
    assert !Populated(r, ObjectiveSection);
    RenderShows(r, Address(ObjectiveSection, None, Objective));
  }
}
