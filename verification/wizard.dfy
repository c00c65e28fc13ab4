/** The resume wizard (`StepForm`): a step index over the nine form pages,
    the form's record, the `isSubmitting` and `isInitialLoad` flags, the
    browser-local snapshot of the form under one storage key, and the
    final-step submission to the remote store. Remote calls, validation and
    clock readings are parameters. */
module Wizard {
  import opened Optional
  import opened Resume

  /** The wizard has as many steps as `renderStep` has pages (0..8). */
  const StepCount: nat := 9

  /** The storage key of the form snapshot. */
  const SnapshotKey: string := "resumeitnow_form_data"

  /** The remote document holding the global resume counter. */
  const CounterPath: string := "info/resumesCreated"

  /** The owner segment used when the session has no email. */
  const AnonymousOwner: string := "temp_resumes"

  /* ---------- Session and default record ---------- */

  /** The signed-in user as far as the wizard reads it; every part may be
      missing (`session?.user?.name`). */
  datatype User = User(name: Option<string>, email: Option<string>)

  function SessionName(session: Option<User>): Option<string> {
    if session.Some? then session.value.name else None
  }

  function SessionEmail(session: Option<User>): Option<string> {
    if session.Some? then session.value.email else None
  }

  /** JavaScript `v || fallback` for a string that may be missing: the
      empty string is falsy. */
  function Or(v: Option<string>, fallback: string): (r: string)
    ensures v.Some? && v.value != "" ==> r == v.value
    ensures v.None? || v.value == "" ==> r == fallback
  {
    if v.Some? && v.value != "" then v.value else fallback
  }

  /** The form's `defaultValues`. `storedName` is the value of the
      separately stored name key, if any. */
  function DefaultRecord(storedName: Option<string>, session: Option<User>): ResumeRecord {
    ResumeRecord(
      PersonalDetails(Or(storedName, Or(SessionName(session), "")), Or(SessionEmail(session), ""), "", "", "", ""),
      "", "",
      [WorkEntry("", "", "", "", "", "")],
      [EducationEntry("", "", "", "", "", "")],
      [SkillEntry("", "")],
      [ProjectEntry("", "", "")],
      [LanguageEntry("", "Basic")],
      [CertificationEntry("", "", "")])
  }

  /** Every sequence section of the default record holds one placeholder
      entry, and every leaf of the record is empty except the name and email
      taken from the environment and the language proficiency "Basic". */
  lemma DefaultRecordShape(storedName: Option<string>, session: Option<User>, a: Address)
    ensures var r := DefaultRecord(storedName, session);
      && (a.section.IsSequence() ==> SectionLength(r, a.section) == 1)
      && r.jobTitle == ""
      && (Lookup(r, a).Some? ==>
            && (a.section.IsSequence() ==> a.index == Some(0))
            && Lookup(r, a).value ==
                 if a.field == FullName then Or(storedName, Or(SessionName(session), ""))
                 else if a.field == Email then Or(SessionEmail(session), "")
                 else if a.field == Proficiency then "Basic"
                 else "")
  {
  }

  /** The name falls back from the stored name to the session name to "";
      the email from the session email to "". */
  lemma DefaultNameFallback(storedName: Option<string>, session: Option<User>)
    ensures var p := DefaultRecord(storedName, session).personalDetails;
      && (storedName.Some? && storedName.value != "" ==> p.fullName == storedName.value)
      && (storedName.None? || storedName.value == "" ==>
            p.fullName == (if session.Some? && session.value.name.Some? then session.value.name.value else ""))
      && (p.email == (if session.Some? && session.value.email.Some? then session.value.email.value else ""))
  {
  }

  /* ---------- The local snapshot ---------- */

  /** `{formData, currentStep, timestamp}` as parsed back. A missing or
      falsy `formData` is `None`; a missing `currentStep` is `None`, and it
      restores like the falsy `Some(0)`, since `currentStep || 0` maps both
      to step 0. */
  datatype Snapshot = Snapshot(formData: Option<ResumeRecord>, currentStep: Option<int>, timestamp: string)

  /** What a storage key holds: text that does not parse (or parses to a
      falsy value), or a parsed snapshot. */
  datatype Entry = Malformed | Saved(snapshot: Snapshot)

  type Storage = map<string, Entry>

  /** `getFormDataFromLocalStorage`: the snapshot, or `None` when the key is
      absent or its text does not parse. */
  function Load(store: Storage): (r: Option<Snapshot>)
    ensures r.Some? <==> SnapshotKey in store && store[SnapshotKey].Saved?
    ensures r.Some? ==> store[SnapshotKey] == Saved(r.value)
  {
    if SnapshotKey in store && store[SnapshotKey].Saved? then Some(store[SnapshotKey].snapshot) else None
  }

  /** Keys other than the snapshot key are the same in both stores. */
  ghost predicate OthersUnchanged(before: Storage, after: Storage) {
    forall k :: k != SnapshotKey ==> (k in before <==> k in after) && (k in before ==> before[k] == after[k])
  }

  /** `saveFormDataToLocalStorage(data, step)` at time `timestamp`. */
  function Save(store: Storage, data: ResumeRecord, step: int, timestamp: string): (r: Storage)
    ensures Load(r) == Some(Snapshot(Some(data), Some(step), timestamp))
    ensures OthersUnchanged(store, r)
  {
    store[SnapshotKey := Saved(Snapshot(Some(data), Some(step), timestamp))]
  }

  /** `clearLocalStorageData()`. */
  function Clear(store: Storage): (r: Storage)
    ensures Load(r).None? && SnapshotKey !in r
    ensures OthersUnchanged(store, r)
  {
    store - {SnapshotKey}
  }

  /** Clearing is idempotent. */
  lemma ClearTwice(store: Storage)
    ensures Clear(Clear(store)) == Clear(store)
  {
    assert forall k :: k in Clear(Clear(store)) <==> k in Clear(store);
  }

  /* ---------- The wizard ---------- */

  datatype Wizard = Wizard(step: int, record: ResumeRecord, isSubmitting: bool, isInitialLoad: bool)

  /** The remote store: the resume counter and the resume documents by path. */
  datatype Document = Document(data: ResumeRecord, createdAt: string, updatedAt: string)
  datatype Database = Database(resumesCreated: int, documents: map<string, Document>)

  datatype System = System(wizard: Wizard, store: Storage, db: Database)

  predicate StepInRange(step: int) {
    0 <= step < StepCount
  }

  /** The first render: step 0, the default record, not submitting, initial
      load in progress. */
  function Init(storedName: Option<string>, session: Option<User>): (w: Wizard)
    ensures w.step == 0 && StepInRange(w.step) && !w.isSubmitting && w.isInitialLoad
  {
    Wizard(0, DefaultRecord(storedName, session), false, true)
  }

  /** The mount effect: a snapshot with form data replaces the record and
      sets the step to `currentStep || 0`, without any range check; then the
      initial load is over. */
  function Mount(w: Wizard, store: Storage): (m: Wizard)
    ensures !m.isInitialLoad && m.isSubmitting == w.isSubmitting
    ensures Load(store).None? || Load(store).value.formData.None? ==> m.step == w.step && m.record == w.record
  {
    var saved := Load(store);
    var restored :=
      if saved.Some? && saved.value.formData.Some?
      then w.(record := saved.value.formData.value, step := saved.value.currentStep.Else(0))
      else w;
    restored.(isInitialLoad := false)
  }

  /** A form value changed: the record takes the new value and, unless the
      initial load is still in progress, the snapshot is saved with the
      current step. */
  function Edit(sys: System, record: ResumeRecord, timestamp: string): (r: System)
    ensures r.wizard == sys.wizard.(record := record) && r.db == sys.db
    ensures sys.wizard.isInitialLoad ==> r.store == sys.store
    ensures !sys.wizard.isInitialLoad ==> Load(r.store) == Some(Snapshot(Some(record), Some(sys.wizard.step), timestamp))
    ensures OthersUnchanged(sys.store, r.store)
  {
    var w := sys.wizard.(record := record);
    if sys.wizard.isInitialLoad then sys.(wizard := w)
    else sys.(wizard := w, store := Save(sys.store, record, sys.wizard.step, timestamp))
  }

  /** `handlePrevious`: above step 0, step back by one and save the snapshot
      with the new step; at step 0 nothing happens. */
  function Retreat(sys: System, timestamp: string): (r: System)
    ensures sys.wizard.step > 0 ==>
      && r.wizard == sys.wizard.(step := sys.wizard.step - 1)
      && Load(r.store) == Some(Snapshot(Some(sys.wizard.record), Some(r.wizard.step), timestamp))
      && r.db == sys.db
    ensures sys.wizard.step <= 0 ==> r == sys
    ensures OthersUnchanged(sys.store, r.store)
  {
    var w := sys.wizard;
    if w.step > 0 then
      System(w.(step := w.step - 1), Save(sys.store, w.record, w.step - 1, timestamp), sys.db)
    else sys
  }

  /* ---------- Submission ---------- */

  datatype RemoteCall =
    | IncrementCounter(path: string)
    | SetDocument(path: string, doc: Document)

  /** What the environment decides during one submission: the resume id
      (`resume_` and the clock reading), the two timestamps, and whether each
      remote call succeeds. */
  datatype SubmitEnv = SubmitEnv(
    millis: string, createdAt: string, updatedAt: string,
    incrementOk: bool, writeOk: bool)

  /** The owner segment of the document path: the session email when it
      is present and non-empty, else the anonymous owner. */
  function Owner(session: Option<User>): (o: string)
    ensures o != ""
    ensures SessionEmail(session).Some? && SessionEmail(session).value != "" ==> o == SessionEmail(session).value
    ensures SessionEmail(session).None? || SessionEmail(session).value == "" ==> o == AnonymousOwner
  {
    Or(SessionEmail(session), AnonymousOwner)
  }

  function ResumeId(env: SubmitEnv): string {
    "resume_" + env.millis
  }

  /** `users/${owner}/resumes/${resumeId}`. */
  function DocumentPath(session: Option<User>, env: SubmitEnv): string {
    "users/" + Owner(session) + "/resumes/" + ResumeId(env)
  }

  /** One submission: the wizard while the calls are awaited, the state
      once they have settled, the remote calls issued in order, and whether
      the whole protocol succeeded. */
  datatype Submission = Submission(during: Wizard, after: System, calls: seq<RemoteCall>, succeeded: bool)

  /** The final-step branch of `onSubmit`: increment the counter, write the
      document (the form data with both timestamps), clear the snapshot
      twice; any failure skips the rest; `isSubmitting` is reset in every
      case. */
  function Submit(sys: System, session: Option<User>, env: SubmitEnv): (s: Submission)
    ensures s.during == sys.wizard.(isSubmitting := true)
    ensures s.after.wizard == sys.wizard.(isSubmitting := false)
    ensures s.succeeded <==> env.incrementOk && env.writeOk
    ensures |s.calls| >= 1 && s.calls[0] == IncrementCounter(CounterPath)
    ensures s.calls[1..] ==
      (if env.incrementOk
       then [SetDocument(DocumentPath(session, env), Document(sys.wizard.record, env.createdAt, env.updatedAt))]
       else [])
    ensures s.succeeded ==> s.after.store == Clear(sys.store)
    ensures !s.succeeded ==> s.after.store == sys.store
  {
    var w := sys.wizard;
    var path := DocumentPath(session, env);
    var doc := Document(w.record, env.createdAt, env.updatedAt);
    var counted := sys.db.(resumesCreated := sys.db.resumesCreated + 1);
    var during := w.(isSubmitting := true);
    var settled := w.(isSubmitting := false);
    if !env.incrementOk then
      Submission(during, System(settled, sys.store, sys.db), [IncrementCounter(CounterPath)], false)
    else if !env.writeOk then
      Submission(during, System(settled, sys.store, counted),
                 [IncrementCounter(CounterPath), SetDocument(path, doc)], false)
    else
      ClearTwice(sys.store);
      Submission(during, System(settled, Clear(Clear(sys.store)), counted.(documents := counted.documents[path := doc])),
                 [IncrementCounter(CounterPath), SetDocument(path, doc)], true)
  }

  /** The remote effects of a submission: a failed increment changes
      nothing remote; a successful one counts the resume even when the
      document write then fails; only full success stores the document. */
  lemma SubmitRemoteEffects(sys: System, session: Option<User>, env: SubmitEnv)
    ensures var db := Submit(sys, session, env).after.db;
      && (!env.incrementOk ==> db == sys.db)
      && (env.incrementOk ==> db.resumesCreated == sys.db.resumesCreated + 1)
      && (env.incrementOk && !env.writeOk ==> db.documents == sys.db.documents)
      && (env.incrementOk && env.writeOk ==>
            db.documents == sys.db.documents[DocumentPath(session, env) :=
                                              Document(sys.wizard.record, env.createdAt, env.updatedAt)])
  {
  }

  /** The outcome of `handleSubmit(onSubmit)`. */
  datatype Advanced =
    | Rejected
    | Moved(sys: System)
    | Submitted(submission: Submission)

  /** The forward button: the current step's schema must accept the record;
      below the last step the step moves forward by one with no write of any
      kind; otherwise the record is submitted. */
  function Advance(sys: System, valid: bool, session: Option<User>, env: SubmitEnv): (r: Advanced)
    ensures !valid <==> r.Rejected?
    ensures r.Moved? <==> valid && sys.wizard.step < StepCount - 1
    ensures r.Moved? ==> r.sys == sys.(wizard := sys.wizard.(step := sys.wizard.step + 1))
    ensures r.Submitted? ==> r.submission == Submit(sys, session, env)
    ensures r.Submitted? ==> r.submission.after.wizard.step == sys.wizard.step
  {
    if !valid then Rejected
    else if sys.wizard.step < StepCount - 1 then Moved(sys.(wizard := sys.wizard.(step := sys.wizard.step + 1)))
    else Submitted(Submit(sys, session, env))
  }

  /** The state once an advance has settled. */
  function Settled(sys: System, a: Advanced): System {
    match a
    case Rejected => sys
    case Moved(next) => next
    case Submitted(s) => s.after
  }

  /* ---------- Runs of user events ---------- */

  datatype Event =
    | Change(record: ResumeRecord, timestamp: string)
    | Next(env: SubmitEnv)
    | Back(timestamp: string)

  /** The current step's schema, as a predicate on (step, record); the
      schemas themselves are not part of this model. */
  type Validator = (int, ResumeRecord) -> bool

  function Apply(sys: System, e: Event, validate: Validator, session: Option<User>): System {
    match e
    case Change(record, timestamp) => Edit(sys, record, timestamp)
    case Next(env) => Settled(sys, Advance(sys, validate(sys.wizard.step, sys.wizard.record), session, env))
    case Back(timestamp) => Retreat(sys, timestamp)
  }

  function Run(sys: System, events: seq<Event>, validate: Validator, session: Option<User>): System
    decreases |events|
  {
    if events == [] then sys else Run(Apply(sys, events[0], validate, session), events[1..], validate, session)
  }

  /** A stored snapshot, if it would restore form data, restores a step in
      range. */
  ghost predicate RestoresInRange(store: Storage) {
    forall s :: Load(store) == Some(s) && s.formData.Some? ==> StepInRange(s.currentStep.Else(0))
  }

  /** The wizard invariant between events. */
  ghost predicate Good(sys: System) {
    StepInRange(sys.wizard.step) && !sys.wizard.isSubmitting && RestoresInRange(sys.store)
  }

  /** Every event keeps the step in range, leaves no submission pending,
      and writes only snapshots that restore a step in range. */
  lemma ApplyGood(sys: System, e: Event, validate: Validator, session: Option<User>)
    requires Good(sys)
    ensures Good(Apply(sys, e, validate, session))
    ensures Apply(sys, e, validate, session).wizard.isInitialLoad == sys.wizard.isInitialLoad
  {
    match e
    case Change(record, timestamp) =>
    case Next(env) =>
      var a := Advance(sys, validate(sys.wizard.step, sys.wizard.record), session, env);
      if a.Submitted? {
        assert forall s :: Load(Clear(sys.store)) != Some(s);
      }
    case Back(timestamp) =>
  }

  lemma {:induction false} RunGood(sys: System, events: seq<Event>, validate: Validator, session: Option<User>)
    requires Good(sys)
    ensures Good(Run(sys, events, validate, session))
    ensures Run(sys, events, validate, session).wizard.isInitialLoad == sys.wizard.isInitialLoad
    decreases |events|
  {
    if events != [] {
      ApplyGood(sys, events[0], validate, session);
      RunGood(Apply(sys, events[0], validate, session), events[1..], validate, session);
    }
  }

  /** Each event keeps the step in range, whatever the store holds: the
      step moves only by the guarded increment and decrement. */
  lemma ApplyInRange(sys: System, e: Event, validate: Validator, session: Option<User>)
    requires StepInRange(sys.wizard.step)
    ensures StepInRange(Apply(sys, e, validate, session).wizard.step)
  {
    match e
    case Change(record, timestamp) =>
    case Next(env) =>
      var a := Advance(sys, validate(sys.wizard.step, sys.wizard.record), session, env);
      assert a.Submitted? ==> Settled(sys, a).wizard.step == sys.wizard.step;
    case Back(timestamp) =>
  }

  /** Any run of change, forward and back events from a step in range stays
      in range; no assumption about the store is needed. */
  lemma {:induction false} RunInRange(sys: System, events: seq<Event>, validate: Validator, session: Option<User>)
    requires StepInRange(sys.wizard.step)
    ensures StepInRange(Run(sys, events, validate, session).wizard.step)
    decreases |events|
  {
    if events != [] {
      ApplyInRange(sys, events[0], validate, session);
      RunInRange(Apply(sys, events[0], validate, session), events[1..], validate, session);
    }
  }

  /** Without a snapshot holding form data, the mounted form is the default
      record at step 0. */
  lemma MountWithoutSnapshot(storedName: Option<string>, session: Option<User>, store: Storage)
    requires Load(store).None? || Load(store).value.formData.None?
    ensures Mount(Init(storedName, session), store).step == 0
    ensures Mount(Init(storedName, session), store).record == DefaultRecord(storedName, session)
    ensures !Mount(Init(storedName, session), store).isSubmitting
  {
  }

  /** Mounting over a store the wizard itself wrote restores a step in
      range, and the session that follows keeps it there. */
  lemma MountGood(storedName: Option<string>, session: Option<User>, store: Storage, db: Database)
    requires RestoresInRange(store)
    ensures Good(System(Mount(Init(storedName, session), store), store, db))
  {
  }

  /** Without the range guarantee of the store, the restored step is taken
      as stored: a snapshot at step 12 mounts at step 12. */
  lemma MountDoesNotClamp(w: Wizard, store: Storage, s: Snapshot)
    requires Load(store) == Some(s) && s.formData.Some?
    ensures Mount(w, store).step == s.currentStep.Else(0)
    ensures Mount(w, store).record == s.formData.value
  {
  }

  /* ---------- Reload round trips ---------- */

  /** After a change, a reload restores the changed record at the same step. */
  lemma ReloadAfterChange(sys: System, record: ResumeRecord, timestamp: string,
                          storedName: Option<string>, session: Option<User>)
    requires !sys.wizard.isInitialLoad
    ensures var m := Mount(Init(storedName, session), Edit(sys, record, timestamp).store);
      m.record == record && m.step == sys.wizard.step
  {
  }

  /** After stepping back, a reload restores the record at the new step. */
  lemma ReloadAfterBack(sys: System, timestamp: string, storedName: Option<string>, session: Option<User>)
    requires sys.wizard.step > 0
    ensures var m := Mount(Init(storedName, session), Retreat(sys, timestamp).store);
      m.record == sys.wizard.record && m.step == sys.wizard.step - 1
  {
  }

  /** Stepping forward writes nothing, so a reload right after it restores
      whatever the store held before: the new step is not remembered until
      the next change. */
  lemma ReloadAfterForward(sys: System, valid: bool, session: Option<User>, env: SubmitEnv, storedName: Option<string>)
    requires Advance(sys, valid, session, env).Moved?
    ensures Settled(sys, Advance(sys, valid, session, env)).store == sys.store
    ensures Mount(Init(storedName, session), Settled(sys, Advance(sys, valid, session, env)).store)
         == Mount(Init(storedName, session), sys.store)
  {
  }

  /** After a successful submission a reload starts over from the default
      record at step 0; after a failed one it finds the same store. */
  lemma ReloadAfterSubmit(sys: System, session: Option<User>, env: SubmitEnv, storedName: Option<string>)
    ensures var s := Submit(sys, session, env);
      && (s.succeeded ==> Mount(Init(storedName, session), s.after.store)
                          == Init(storedName, session).(isInitialLoad := false))
      && (!s.succeeded ==> s.after.store == sys.store && s.after.wizard.record == sys.wizard.record)
  {
  }

  /* ---------- Step markers and pages ---------- */

  datatype Marker = Completed | Current | Upcoming

  /** The marker of step `i` while the wizard is at `step`. */
  function MarkerAt(i: int, step: int): (m: Marker)
    ensures m == Completed <==> i < step
    ensures m == Current <==> i == step
  {
    if i < step then Completed else if i == step then Current else Upcoming
  }

  function Markers(step: int): (ms: seq<Marker>)
    ensures |ms| == StepCount
  {
    seq(StepCount, i requires 0 <= i < StepCount => MarkerAt(i, step))
  }

  /** Exactly one marker is current when the step is in range, none
      otherwise; the completed markers are exactly those before it. */
  lemma MarkersCurrent(step: int)
    ensures (exists i :: 0 <= i < StepCount && Markers(step)[i] == Current) <==> StepInRange(step)
    ensures forall i, j :: 0 <= i < StepCount && 0 <= j < StepCount ==>
      (Markers(step)[i] == Current && Markers(step)[j] == Current ==> i == j)
    ensures forall i :: 0 <= i < StepCount ==> (Markers(step)[i] == Completed <==> i < step)
  {
    if StepInRange(step) {
      assert Markers(step)[step] == Current;
    }
  }

  /** The form page of each step. */
  datatype Page =
    | PersonalInfoPage | CareerObjectivePage | JobTitlePage | WorkExperiencePage
    | ProjectsPage | EducationPage | SkillsPage | LanguagesPage | CertificationsPage

  /** The `renderStep()` switch: no page for a step outside 0..8. Such a
      step is not rendered at all in the source, since `steps[step]` fails
      first. */
  function RenderStep(step: int): Option<Page> {
    match step
    case 0 => Some(PersonalInfoPage)
    case 1 => Some(CareerObjectivePage)
    case 2 => Some(JobTitlePage)
    case 3 => Some(WorkExperiencePage)
    case 4 => Some(ProjectsPage)
    case 5 => Some(EducationPage)
    case 6 => Some(SkillsPage)
    case 7 => Some(LanguagesPage)
    case 8 => Some(CertificationsPage)
    case _ => None
  }

  /** The step at which each page is shown. */
  function PageStep(p: Page): (i: nat)
    ensures i < StepCount
  {
    match p
    case PersonalInfoPage => 0
    case CareerObjectivePage => 1
    case JobTitlePage => 2
    case WorkExperiencePage => 3
    case ProjectsPage => 4
    case EducationPage => 5
    case SkillsPage => 6
    case LanguagesPage => 7
    case CertificationsPage => 8
  }

  /** Every step in range shows exactly one page, each page at exactly one
      step, and out-of-range steps show nothing. */
  lemma RenderStepBijective(step: int, p: Page)
    ensures RenderStep(step).Some? <==> StepInRange(step)
    ensures RenderStep(step) == Some(p) <==> step == PageStep(p)
  {
  }
}
