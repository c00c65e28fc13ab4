# Resume builder core, modelled in Dafny

This project models two pieces of the resume builder.

**The resume wizard (`StepForm`)** is a nine-step form. The model covers:
- its step index, moved by the forward and back buttons;
- the default record the form starts from;
- the browser-local snapshot `{formData, currentStep, timestamp}` under the key `resumeitnow_form_data`, including when the snapshot is written, restored and cleared;
- the final-step submission. Submission increments the `info/resumesCreated` counter, writes the form data with `createdAt` and `updatedAt` to `users/<email or "temp_resumes">/resumes/resume_<millis>`, then clears the snapshot twice. `isSubmitting` is reset on both the success and the failure path;
- the step markers and the page shown for each step.

**The Minimal resume template** is modelled as a pure projection of a resume record. The model covers:
- `renderMarkdown`: split at line feeds, apply the lazy global `\*\*(.*?)\*\*` bold rule, wrap lines whose trimmed form starts with "- " in `<li>…</li>`, and join;
- `hasContent` over JavaScript values;
- `renderInput`'s choice between a link, markdown HTML, a text area and a text box;
- which sections and leaves get an input, in which order;
- the `(section, index | null, field)` address each input passes to `updateField`.

Modules, one per file:

| module | file | contents |
|---|---|---|
| `Optional` | optional.dfy | `Option`, for values that may be absent |
| `Text` | text.dfy | JavaScript `trim` (ECMAScript white space and line terminators), `startsWith`, `split('\n')`, `join('\n')` |
| `Resume` | resume.dfy | the resume record, sections, leaf names, edit addresses and their lookup |
| `Markdown` | markdown.dfy | `renderMarkdown` |
| `Content` | content.dfy | JavaScript values, truthiness, `hasContent`, the encoding of each record section as a value |
| `Minimal` | minimal.dfy | the template: input nodes, headings, the reference (table-driven) rendering, visibility and faithfulness |
| `Wizard` | wizard.dfy | the step machine, snapshot storage, submission protocol, event runs, markers and pages |
| `DefaultView` | default_view.dfy | how the template shows the wizard's default record |

The template's hand-written node lists are proved equal to an independent reference rendering. That rendering is driven by four tables: the leaves shown per section, link leaves, multi-line leaves and optional leaves. The visibility, address and faithfulness theorems are proved against the reference rendering.

Behaviour of the wizard's code worth noting:
- A change is not saved while the initial load is in progress.
- The restored step is the stored `currentStep` (0 when it is missing or 0), with no range check. A restored step outside 0..8 makes every render fail at `steps[step]` (StepForm.tsx:87 and :357); the model does not represent that failure (see "Left out").
- The forward button submits at the last step; the guard is `step < steps.length - 1`, so a larger step would submit too, but such a step is never rendered.
- Submission has only the `isSubmitting` flag; there is no separate "failed" state.
- A session without an email still writes the resume, under `temp_resumes`.
- The forward step does not write the snapshot.

## Model

| member | source | states |
|---|---|---|
| `Text.Trim` | components/resume/templates/Minimal.tsx:17 | trimming never lengthens a string, and the result is empty exactly when the string is all ECMAScript white space or line terminators |
| `Text.JoinSplit` | components/resume/templates/Minimal.tsx:10-22 | splitting at line feeds and joining with line feeds gives the text back |
| `Text.SplitJoin` | components/resume/templates/Minimal.tsx:10-22 | joining line-feed-free lines and splitting again gives the same lines |
| `Markdown.FindClose` | components/resume/templates/Minimal.tsx:14 | returns the first `**` at or after the content start with no regex line terminator before it, and `None` exactly when no such closing exists |
| `Markdown.Bold` | components/resume/templates/Minimal.tsx:14 | the global lazy replacement of `**…**` by `<strong>…</strong>` on one line; it never introduces a line feed |
| `Markdown.RenderLine` | components/resume/templates/Minimal.tsx:12-21 | bold first, then the bullet test on the bolded line; a line without a line feed renders to one without |
| `Markdown.RenderMarkdown` | components/resume/templates/Minimal.tsx:7-23 | "" for empty text, otherwise split at line feeds, render each line, join with line feeds; its properties are `LineWise`, `RenderMarkdownEmpty` and the line lemmas |
| `Markdown.BoldNoPair` | components/resume/templates/Minimal.tsx:14 | a line without `**` is left unchanged by the bold rule |
| `Markdown.BoldFirstPair` | components/resume/templates/Minimal.tsx:14 | the first `**…**` pair is replaced with the shortest content, and the rest of the line is processed independently |
| `Markdown.BoldUnmatchedTail` | components/resume/templates/Minimal.tsx:14 | an unmatched trailing `**` is kept as is |
| `Markdown.BoldPlainPrefix` | components/resume/templates/Minimal.tsx:14 | text containing no `*` passes through the bold rule unchanged in front of whatever follows |
| `Markdown.RenderMarkdownEmpty` | components/resume/templates/Minimal.tsx:8 | the empty (or absent) text renders as the empty string |
| `Markdown.LineWise` | components/resume/templates/Minimal.tsx:10-22 | the output has exactly as many lines as the input, and output line i is the per-line rendering of input line i |
| `Markdown.PlainLineUnchanged` | components/resume/templates/Minimal.tsx:14-20 | a line with no `**` whose trimmed form does not start with "- " is unchanged |
| `Markdown.NonBulletLine` | components/resume/templates/Minimal.tsx:14-20 | the converse of `Markdown.BulletLine`: when the bold rendering, trimmed, does not start with "- ", the line renders as its bold rendering alone |
| `Markdown.BulletLine` | components/resume/templates/Minimal.tsx:14-19 | a line whose trimmed form starts with "- ", bold or not, becomes `<li>` + the bold rendering of the line minus its first two characters + `</li>`; those two characters are "-" or white space, all in the Basic Multilingual Plane |
| `Markdown.BoldInsideBullet` | components/resume/templates/Minimal.tsx:14-19 | bold runs before the bullet rule: "- **x**" becomes `<li><strong>x</strong></li>` |
| `Content.HasContent` | components/resume/templates/Minimal.tsx:91-100 | a falsy value has no content; an array has content iff it is non-empty; a string iff its trim is non-empty; an object iff some property is a non-blank string or a truthy non-string |
| `Content.SectionHasContent` | components/resume/templates/Minimal.tsx:91-100 | for every record section, `hasContent` means: the summary is not blank, a sequence section has at least one entry (however empty), the personal details have a non-blank field; the template calls `hasContent` only on the summary and the six arrays (the header is rendered unconditionally), so the object case is stated for completeness and gates nothing |
| `Content.PersonalHasContent` | components/resume/templates/Minimal.tsx:94-98 | the personal-details object has content iff one of its six strings is not blank; proved for completeness, since no call of the template passes the personal details and the header is not gated by it |
| `Minimal.RenderInput` | components/resume/templates/Minimal.tsx:25-83 | view mode gives a link to the raw value for link inputs, and otherwise HTML that is `renderMarkdown` of the value (of "" when it is absent); edit mode gives a text area iff multiline, holding the value or "" |
| `Minimal.ViewMatchesEdit` | components/resume/templates/Minimal.tsx:7-83 | for a one-line value without `**` that is not a bullet, the HTML string view mode injects is exactly the text edit mode holds |
| `Minimal.LeavesShows` | components/resume/templates/Minimal.tsx:104-413 | the table-driven reference rendering shows an input for an address iff it is one of the listed leaves of that section and index, resolves, and is not an empty optional leaf |
| `Minimal.Render` | components/resume/templates/Minimal.tsx:102-413 | the header nodes followed by a heading and body for each section with content, in page order; its properties are the `Render…` lemmas below |
| `Minimal.PersonalLeaves` | components/resume/templates/Minimal.tsx:104-170 | the header is the reference rendering: the full name always, then email, phone and location, then LinkedIn and GitHub as links, each only when non-empty |
| `Minimal.WorkLeaves` | components/resume/templates/Minimal.tsx:194-235 | a work entry shows title, start, end, company and a multi-line description, in that order; its location is never shown |
| `Minimal.ProjectLeaves` | components/resume/templates/Minimal.tsx:245-270 | a project shows its name, its link (as a link) only when non-empty, and a multi-line description |
| `Minimal.EducationLeaves` | components/resume/templates/Minimal.tsx:280-320 | an education entry shows degree, start, end and institution, and the grade only when non-empty |
| `Minimal.SkillLeaves` | components/resume/templates/Minimal.tsx:331-347 | a skill entry shows category then skills |
| `Minimal.CertificationLeaves` | components/resume/templates/Minimal.tsx:358-385 | a certification shows name, issue date, then issuing organization |
| `Minimal.LanguageLeaves` | components/resume/templates/Minimal.tsx:394-410 | a language entry shows language then proficiency |
| `Minimal.PersonalShows` | components/resume/templates/Minimal.tsx:104-170 | the header shows exactly the listed personal leaves that are the name or non-empty |
| `Minimal.BodyShows` | components/resume/templates/Minimal.tsx:178-410 | a section body shows exactly the shown leaves of that section, each entry at its own index |
| `Minimal.BlocksShows` | components/resume/templates/Minimal.tsx:173-413 | the section blocks show a leaf iff its section is among them and has content |
| `Minimal.RenderShows` | components/resume/templates/Minimal.tsx:104-413 | the page has an input for an address iff the leaf is listed for its section, resolves, is not an empty optional leaf, and lies in the header or in a section with content |
| `Minimal.RenderFaithful` | components/resume/templates/Minimal.tsx:107-410 | every input shows the value of the very leaf its change callback edits, with the link and multi-line kind that leaf calls for |
| `Minimal.RenderAddresses` | components/resume/templates/Minimal.tsx:109 | every edit callback passes a null index for the header and summary, and for a sequence section the in-range index of its own entry |
| `Minimal.RenderHeadings` | components/resume/templates/Minimal.tsx:173-413 | the headings are exactly the populated sections below the header, in the order summary, work, projects, education, skills, certifications, languages |
| `Minimal.WithContentRanked` | components/resume/templates/Minimal.tsx:173-390 | dropping sections without content keeps the remaining headings in page order |
| `Minimal.RenderStartsWithName` | components/resume/templates/Minimal.tsx:107-112 | the page always opens with the full-name input, whatever the record holds |
| `Minimal.RenderDisplay` | components/resume/templates/Minimal.tsx:40-82 | in view mode a link leaf shows its raw value as a link and any other leaf its markdown rendering; in edit mode a leaf gets a text area iff it is multi-line, holding the value |
| `DefaultView.DefaultHeadings` | components/resume/templates/Minimal.tsx:93 | a fresh form's single placeholder entry counts as content: all six sequence sections get a heading, the empty summary does not |
| `DefaultView.DefaultPlaceholderInputs` | components/resume/templates/Minimal.tsx:245-318 | in a fresh form the placeholder project shows its empty name but not its empty link, and the placeholder education entry hides its empty grade |
| `Wizard.DefaultRecordShape` | components/resume-builder/StepForm.tsx:88-133 | the default record has one placeholder entry per sequence section; every leaf is empty except the prefilled name and email and the proficiency "Basic" |
| `Wizard.DefaultNameFallback` | components/resume-builder/StepForm.tsx:90-91 | the name falls back from the stored name to the session name to ""; the email falls back from the session email to "" |
| `Wizard.DefaultRecord` | components/resume-builder/StepForm.tsx:88-133 | the form's `defaultValues`; stated by `DefaultRecordShape` and `DefaultNameFallback` |
| `Wizard.Load` | components/resume-builder/StepForm.tsx:51-58 | a snapshot is loaded exactly when the key holds text that parses, and it is the stored one; its partners `Wizard.Save` and `Wizard.Clear` state the round trips through it |
| `Wizard.Save` | components/resume-builder/StepForm.tsx:38-49 | saving makes the next load return exactly the record, step and timestamp saved; other keys are untouched |
| `Wizard.Clear` | components/resume-builder/StepForm.tsx:61-67 | after clearing no snapshot can be loaded; other keys are untouched |
| `Wizard.ClearTwice` | components/resume-builder/StepForm.tsx:200-204 | clearing twice is the same as clearing once |
| `Wizard.Init` | components/resume-builder/StepForm.tsx:71-73 | the wizard starts at step 0, not submitting, with the initial load in progress |
| `Wizard.Mount` | components/resume-builder/StepForm.tsx:137-148 | mounting always ends the initial load; without a snapshot that carries form data, step and record stay as they were |
| `Wizard.MountWithoutSnapshot` | components/resume-builder/StepForm.tsx:71-148 | with no stored snapshot, an unparseable one, or one without form data, the mounted form is the default record at step 0, not submitting |
| `Wizard.MountDoesNotClamp` | components/resume-builder/StepForm.tsx:140-144 | a snapshot with form data restores that record and exactly the stored step (0 when it is missing or 0), with no range check |
| `Wizard.Edit` | components/resume-builder/StepForm.tsx:150-163 | a change updates the record; it writes a snapshot with the current step only once the initial load is over, and otherwise leaves storage alone |
| `Wizard.Retreat` | components/resume-builder/StepForm.tsx:254-262 | above step 0, back decrements the step by one and saves a snapshot holding the new step; at step 0 nothing changes |
| `Wizard.Advance` | components/resume-builder/StepForm.tsx:165-221 | a rejected record changes nothing; below the last step, forward adds exactly one to the step with no write of any kind; otherwise the outcome is exactly the submission protocol `Submit`, which leaves the step unchanged |
| `Wizard.Submit` | components/resume-builder/StepForm.tsx:171-221 | `isSubmitting` is true while the calls are awaited and false afterwards on both paths; the counter call comes first; the document call happens only after a successful increment; success clears the snapshot; failure keeps the snapshot |
| `Wizard.Owner` | components/resume-builder/StepForm.tsx:173 | the owner segment is the session email when it is present and non-empty, and "temp_resumes" otherwise; it is never empty |
| `Wizard.SubmitRemoteEffects` | components/resume-builder/StepForm.tsx:173-191 | a failed increment changes nothing remote; a successful increment counts the resume even if the write then fails; only full success stores the form data with both timestamps under the user's path |
| `Wizard.Apply` | components/resume-builder/StepForm.tsx:150-262 | one user event: a change goes through `Edit`, forward through validation and `Advance`, back through `Retreat`; stated by `ApplyInRange` and `ApplyGood` |
| `Wizard.Run` | components/resume-builder/StepForm.tsx:150-262 | a sequence of user events applied in order; stated by `RunInRange` and `RunGood` |
| `Wizard.ApplyGood` | components/resume-builder/StepForm.tsx:166-169 | each change, forward or back event keeps the step in range, leaves no submission pending, and writes only snapshots that restore an in-range step |
| `Wizard.RunGood` | components/resume-builder/StepForm.tsx:137-262 | from an in-range, idle wizard whose stored snapshot restores an in-range step, any sequence of events keeps all three: the step in range, nothing pending, and every written snapshot restoring an in-range step |
| `Wizard.ApplyInRange` | components/resume-builder/StepForm.tsx:165-262 | change, forward and back each keep an in-range step in range, whatever storage holds |
| `Wizard.RunInRange` | components/resume-builder/StepForm.tsx:165-262 | any sequence of change, forward and back events from an in-range step stays in range, whatever storage holds |
| `Wizard.MountGood` | components/resume-builder/StepForm.tsx:137-148 | mounting over storage the wizard itself wrote yields an in-range step |
| `Wizard.ReloadAfterChange` | components/resume-builder/StepForm.tsx:150-163 | after a change, a reload restores the changed record at the same step |
| `Wizard.ReloadAfterBack` | components/resume-builder/StepForm.tsx:254-262 | after stepping back, a reload restores the record at the decremented step |
| `Wizard.ReloadAfterForward` | components/resume-builder/StepForm.tsx:166-169 | stepping forward writes nothing, so a reload right after it restores the state saved before it |
| `Wizard.ReloadAfterSubmit` | components/resume-builder/StepForm.tsx:200-221 | after a successful submission a reload starts from the default record at step 0; after a failed one storage and record are unchanged |
| `Wizard.MarkerAt` | components/resume-builder/StepForm.tsx:317-319 | marker i is completed iff i < step and current iff i == step |
| `Wizard.MarkersCurrent` | components/resume-builder/StepForm.tsx:317-319 | exactly one marker is current iff the step is in range; the completed markers are exactly those before it |
| `Wizard.PageStep` | components/resume-builder/StepForm.tsx:274-292 | every page is shown at an in-range step |
| `Wizard.RenderStep` | components/resume-builder/StepForm.tsx:265-296 | the page of each step 0..8, and nothing for any other step; stated by `RenderStepBijective` |
| `Wizard.RenderStepBijective` | components/resume-builder/StepForm.tsx:274-295 | steps 0..8 each show exactly one page, each page at exactly one step, and any other step shows nothing |

## Left out

- Minimal.ViewMatchesEdit: equates the HTML string given to `dangerouslySetInnerHTML` with the edit text; the browser then parses that string as HTML (there is no escaping), so a value with `<`, `&` or runs of spaces displays differently from the text box, and browser display is not modelled.
- Firebase calls and the next-auth session are not modelled as such. The two remote calls are outcomes chosen by the caller, and the session is a parameter.
- The wall clock is a parameter. The `resume_<millis>` id and both ISO timestamps are opaque strings.
- JSON text is not modelled: storage is a map from key to "malformed" or a parsed snapshot. Storage quota and access errors are not modelled; their writes are only logged.
- The snapshot's `formData` is a whole record, not a `Partial` one. `reset` with a partial record is therefore not modelled.
- A stored `currentStep` is an integer or missing. NaN, fractional and non-number values are not modelled.
- The name stored under `resumeitnow_name` is a parameter of `Init`.
- The step schemas in `./schema` are not part of this model. Validation is a caller-supplied predicate on (step, record), and the step count 9 is taken from the `renderStep` cases.
- react-hook-form internals, `useFieldArray` append and remove, the `updateField` implementation and any record-flattening save path are not modelled.
- Toasts, router navigation, the delayed redirect, the progress-bar percentage (floating point), marker positions, CSS and print styles are not modelled.
- `renderMarkdown` performs no HTML escaping, and the model claims none.
- Strings are sequences of Unicode scalar values, not UTF-16 code units. The template inspects only characters of the Basic Multilingual Plane (white space, line terminators, `*`, `-`), and `substring(2)` applies only to a line whose first two characters are "-" or white space (`Markdown.BulletLine`), so the two readings agree on the modelled operations.
- While the awaited remote calls are pending, the model records only the `isSubmitting` state (`Submission.during`). Events interleaved with a pending submission are not modelled.
- Wizard.Submit: a session email with an odd number of `/` gives `doc()` (StepForm.tsx:176) a path with an odd number of segments; `doc()` then throws before the counter call, so nothing remote happens. The model builds the path string without interpreting it and still issues the counter call in that case.
- Wizard.MountDoesNotClamp: the model carries on after restoring a step outside 0..8. The source does not: every render evaluates `steps[step].schema` (StepForm.tsx:87) and `steps[step].title` (StepForm.tsx:357), which throw for such a step, so the wizard fails to render and the forward button is unreachable. That render failure is not modelled.
- Wizard.RenderStepBijective: "any other step shows nothing" describes `renderStep` alone; for a step outside 0..8 the surrounding render has already failed at `steps[step]`.
- Wizard.Advance: a step above the last one would submit, but it is reachable only through such an out-of-range restore, where the page has already failed to render.
