# DAARESUME in Dafny

A model of the logic at the heart of the DAARESUME resume builder, with proofs about it. The model covers:
- the resume document store: a reducer over one personal record, three id-keyed lists and a "fresher" flag, plus the provider's id counter;
- the four wizard steps (personal info, experience, education, skills): their date checks and formatting, their required-field checks, their staging lists and how they flush into the store;
- the wizard shell: the step counter, back and forward navigation, the progress bar, and picking a template from the address;
- the inline-editing resume template: which document it shows, how it splits the skills into columns, and how each editable field is seeded on click and parsed back on save;
- the backend's input validators;
- the download-name and HTML-assembly helpers of the PDF export;
- the route builder.

Modules, one per source file, plus one of shared JavaScript string semantics and one for the staging shared by three wizard steps:

| module | file | models |
|---|---|---|
| `Wrappers`, `JsStrings` | `js_strings.dfy` | `Option`; `trim` over the ECMAScript white-space set, `indexOf`, `split`/`join` with a non-empty separator, `parseInt`, `Number#toString` |
| `ResumeContext` | `resume_context.dfy` | `resumeReducer` as `Reduce`; class `ResumeProvider` with the document and the id counter |
| `DateField` | `date_field.dfy` | the two `validateDateFormat` checks and `handleDateChange`'s formatting |
| `ExperienceStep`, `EducationStep`, `SkillsStep`, `PersonalInfoStep` | `*_step.dfy` | one class per wizard form, holding that component's state |
| `Staging` | `staging.dfy` | the staged entry (a local id and the form's fields) that the experience, education and skills steps share |
| `ResumeCraft` | `resume_craft.dfy` | step mapping, navigation, progress, template selection; class `Wizard` |
| `InlineTemplate` | `inline_template.dfy` | display selection, skill columns, field parsers, commits; class `InlineEditor` |
| `Validation` | `validation.dfy` | the regular expressions as predicates over characters; the request checks over a JSON value type |
| `PdfExport` | `pdf_export.dfy` | `createPDFHTML`, the title capture and file name of `generatePDF`, and the fallbacks of `extractResumeHTML` |
| `Routes` | `routes.dfy` | `ROUTES`, `RESUME_SECTIONS`, `getResumeUrl` |

Conventions:
- JavaScript's falsy empty string (`x || ''`, `if (id)`) is modelled explicitly.
- A clock reading (`Date.now()`) is a parameter.
- Browser storage arrives already parsed, as a `Stored` value.
- A state-changing method states its whole new state. Lemmas about the pure functions it is specified by carry the properties.

Finding-related members:
- `InlineTemplate.DatesRoundTripNeedsCleanEnd` and `InlineTemplate.DatesRoundTripNeedsPlainEnd` exhibit the two conditions the date round trip needs besides "the start has no separator":
  - the start must not end in ` -`;
  - the end must hold no separator.
- `ResumeCraft.Wizard.ApplyUrl` adopts what the `in` test accepts, as written. `ResumeCraft.InRegistryAcceptsInherited` shows that `toString` passes it. `ResumeCraft.Wizard.ApplyUrlChecked` and `ResumeCraft.TemplateKeyIff` are the corrected check.
- `InlineTemplate.InlineEditor.ClickExclusive` is the corrected click of the edit-exclusivity finding. `InlineTemplate.InlineEditor.Click` keeps each handler's clear set as written.

## Model

| member | source | states |
|---|---|---|
| JsStrings.TrimStart | Resume2/src/components/resume-templates/ResumeTemplate3.tsx:195 | the result is a suffix of the input, what was cut is all white space, and the result does not start with white space |
| JsStrings.TrimEnd | Resume2/src/components/resume-templates/ResumeTemplate3.tsx:195 | the result is a prefix, what was cut is all white space, and the result does not end with white space |
| JsStrings.BlankIffAllSpace | Resume2/src/components/PersonalInfo.tsx:64 | `s.trim() === ''` holds exactly when every character of `s` is white space |
| JsStrings.TrimIdempotent | Resume2/src/components/resume-templates/ResumeTemplate3.tsx:294-304 | trimming twice is trimming once |
| JsStrings.TrimEnds | Resume2/src/components/resume-templates/ResumeTemplate3.tsx:195 | a trimmed string is empty or neither starts nor ends with white space |
| JsStrings.IndexFrom | Resume2/src/components/resume-templates/ResumeTemplate3.tsx:743 | the result is the first occurrence of the separator at or after the start, and none means there is no occurrence |
| JsStrings.Split | Resume2/src/components/resume-templates/ResumeTemplate3.tsx:743 | `split` with a non-empty separator gives at least one piece, and the first piece is a prefix of the input |
| JsStrings.JoinSplit | Resume2/src/components/resume-templates/ResumeTemplate3.tsx:196-198 | joining the pieces of a split with the separator gives the input back |
| JsStrings.SplitPiecesFree | Resume2/src/components/resume-templates/ResumeTemplate3.tsx:503 | no piece of a split contains the separator |
| JsStrings.SplitNoSeparator | Resume2/src/components/resume-templates/ResumeTemplate3.tsx:503 | text without the separator splits into itself alone |
| JsStrings.SplitAfterFirst | Resume2/src/components/resume-templates/ResumeTemplate3.tsx:743 | when the first separator sits after `a`, the split is `a` followed by the split of the rest |
| JsStrings.FirstAfter | Resume2/src/components/resume-templates/ResumeTemplate3.tsx:743 | a piece that no occurrence can start inside puts the first separator right after it |
| JsStrings.SplitOfJoin | Resume2/src/components/resume-templates/ResumeTemplate3.tsx:502-507 | pieces that no separator occurrence can start inside are recovered by splitting their join |
| JsStrings.ParseDigits | Resume2/src/context/ResumeContext.tsx:238 | `parseInt` of decimal digits is their value |
| JsStrings.ParseNatToString | Resume2/src/context/ResumeContext.tsx:270 | `parseInt(n.toString())` is `n` |
| JsStrings.NatToStringInjective | Resume2/src/context/ResumeContext.tsx:270 | different counters give different id strings |
| ResumeContext.With | Resume2/src/components/PersonalInfo.tsx:44-47 | `{...p, [f]: v}` changes key `f` to `v` and keeps every other key |
| ResumeContext.PersonalInfoExt | Resume2/src/context/ResumeContext.tsx:66-78 | two personal records with the same value at every key are equal |
| ResumeContext.FullPatch | Resume2/src/components/resume-templates/ResumeTemplate3.tsx:203 | spreading a whole record into a payload makes every key present with the record's value |
| ResumeContext.MergeGet | Resume2/src/context/ResumeContext.tsx:113 | after `{...p, ...q}` each key holds the payload's value when present and the old one otherwise |
| ResumeContext.MergeFullPatch | Resume2/src/context/ResumeContext.tsx:113 | merging a whole record replaces the stored one by it |
| ResumeContext.RemoveIdMembers | Resume2/src/context/ResumeContext.tsx:135 | `filter` keeps exactly the elements whose id differs, and the removed count is the number carrying the id |
| ResumeContext.RemoveIdConcat | Resume2/src/context/ResumeContext.tsx:135 | filtering distributes over concatenation, so the survivors keep their relative order |
| ResumeContext.RemoveAbsentId | Resume2/src/context/ResumeContext.tsx:135 | filtering an id nobody carries changes nothing |
| ResumeContext.UpdatePersonalInfoMerges | Resume2/src/context/ResumeContext.tsx:110-114 | `UPDATE_PERSONAL_INFO` is a merge-patch that moves none of the lists or the flag |
| ResumeContext.AddAppends | Resume2/src/context/ResumeContext.tsx:116-164 | each `ADD_*` grows its own list by one at the end, keeps the old prefix, and touches nothing else |
| ResumeContext.UpdateExperienceSpec | Resume2/src/context/ResumeContext.tsx:122-130 | `UPDATE_EXPERIENCE` keeps length and order, merges exactly the records with the id, and is a no-op for an unknown id |
| ResumeContext.UpdateEducationSpec | Resume2/src/context/ResumeContext.tsx:144-152 | the same for `UPDATE_EDUCATION` |
| ResumeContext.UpdateSkillSpec | Resume2/src/context/ResumeContext.tsx:166-174 | the same for `UPDATE_SKILL` |
| ResumeContext.DeleteExperienceRemoves | Resume2/src/context/ResumeContext.tsx:132-136 | `DELETE_EXPERIENCE` removes exactly the records with the id; an absent id changes nothing |
| ResumeContext.DeleteEducationRemoves | Resume2/src/context/ResumeContext.tsx:154-158 | the same for `DELETE_EDUCATION` |
| ResumeContext.DeleteSkillRemoves | Resume2/src/context/ResumeContext.tsx:176-180 | the same for `DELETE_SKILL` |
| ResumeContext.SetFresherOnlyFlag | Resume2/src/context/ResumeContext.tsx:182-186 | `SET_FRESHER` changes the flag only and keeps the experience list |
| ResumeContext.LoadAndReset | Resume2/src/context/ResumeContext.tsx:188-192 | `LOAD_DATA` yields its payload; `RESET_DATA` yields empty lists, a false flag and every personal key empty |
| ResumeContext.MaxKey | Resume2/src/context/ResumeContext.tsx:236-245 | `Math.max(floor, ...keys)` is at least the floor, at least every key, and is the floor or some key |
| ResumeContext.CounterIdUnused | Resume2/src/context/ResumeContext.tsx:270 | a counter above every parsed stored id gives an id string no record carries |
| ResumeContext.SeedCounterFresh | Resume2/src/context/ResumeContext.tsx:236-246 | after a load the counter is at least 201, above every parsed stored id, and its string is unused |
| ResumeContext.StaleBatchSharesId | Resume2/src/components/Experience.tsx:227-237 | a batch saved in one click shares one id, so deleting one of its records deletes them all |
| ResumeContext.SequentialBatchDistinct | Resume2/src/context/ResumeContext.tsx:267-274 | with the counter read afresh for every add, the ids of a batch are pairwise distinct |
| ResumeContext.ResumeProvider.constructor | Resume2/src/context/ResumeContext.tsx:224-225 | the store starts at the initial document with the counter at 200 |
| ResumeContext.ResumeProvider.Mount | Resume2/src/context/ResumeContext.tsx:228-251 | a parsed saved document replaces the state and seeds the counter above every parsed id; nothing stored or unreadable data keeps the state |
| ResumeContext.ResumeProvider.Dispatch | Resume2/src/context/ResumeContext.tsx:224 | one reducer step; the counter is untouched |
| ResumeContext.ResumeProvider.UpdatePersonalInfo | Resume2/src/context/ResumeContext.tsx:263-265 | dispatches the merge-patch |
| ResumeContext.ResumeProvider.AddExperience | Resume2/src/context/ResumeContext.tsx:267-274 | appends the record under the counter's string and increments the counter; when the counter was ahead of every stored id, that string was unused |
| ResumeContext.ResumeProvider.AddEducation | Resume2/src/context/ResumeContext.tsx:284-291 | the same for education |
| ResumeContext.ResumeProvider.AddSkill | Resume2/src/context/ResumeContext.tsx:301-308 | the same for skills |
| ResumeContext.ResumeProvider.AddExperiences | Resume2/src/components/Experience.tsx:227-237 | several adds in one handler append the batch under one captured id and raise the counter by the batch size |
| ResumeContext.ResumeProvider.AddEducations | Resume2/src/components/Education.tsx:165-177 | the same for education |
| ResumeContext.ResumeProvider.AddSkills | Resume2/src/components/Skills.tsx:72-77 | the same for skills |
| ResumeContext.ResumeProvider.AddSkillsSequentially | Resume2/src/context/ResumeContext.tsx:301-308 | the intended batch: consecutive counter values as ids |
| ResumeContext.ResumeProvider.UpdateExperience | Resume2/src/context/ResumeContext.tsx:276-278 | dispatches `UPDATE_EXPERIENCE` |
| ResumeContext.ResumeProvider.DeleteExperience | Resume2/src/context/ResumeContext.tsx:280-282 | dispatches `DELETE_EXPERIENCE` |
| ResumeContext.ResumeProvider.UpdateEducation | Resume2/src/context/ResumeContext.tsx:293-295 | dispatches `UPDATE_EDUCATION` |
| ResumeContext.ResumeProvider.DeleteEducation | Resume2/src/context/ResumeContext.tsx:297-299 | dispatches `DELETE_EDUCATION` |
| ResumeContext.ResumeProvider.UpdateSkill | Resume2/src/context/ResumeContext.tsx:310-312 | dispatches `UPDATE_SKILL` |
| ResumeContext.ResumeProvider.DeleteSkill | Resume2/src/context/ResumeContext.tsx:314-316 | dispatches `DELETE_SKILL` |
| ResumeContext.ResumeProvider.SetFresher | Resume2/src/context/ResumeContext.tsx:318-320 | sets the flag only |
| ResumeContext.ResumeProvider.ResetData | Resume2/src/context/ResumeContext.tsx:322-325 | the initial document and the counter back at 200 |
| DateField.Pad2Value | Resume2/src/components/Experience.tsx:58 | a month written with two digits reads back as itself |
| DateField.Pad4Value | Resume2/src/components/Experience.tsx:59 | a year written with four digits reads back as itself |
| DateField.MonthYearShaped | Resume2/src/components/Experience.tsx:53 | the text of a month 1-12 of a year 0-9999 matches the pattern |
| DateField.ShapeParts | Resume2/src/components/Experience.tsx:56-59 | a matching text splits at its slash into month and year, which `parseInt` reads as their values |
| DateField.ShapeIff | Resume2/src/components/Experience.tsx:53 | the pattern matches exactly the texts of months 01-12 of four-digit years |
| DateField.MonthYearReadBack | Resume2/src/components/Experience.tsx:56-66 | on a month's text the check reads that month and year back |
| DateField.ExperienceDateValidIff | Resume2/src/components/Experience.tsx:51-72 | the experience check accepts exactly the empty text and months 01-12 of the years 1900-2100 |
| DateField.EducationDateValidIff | Resume2/src/components/Education.tsx:43-47 | the education check accepts exactly the empty text and months 01-12 of any four-digit year |
| DateField.ExperienceDateStricter | Resume2/src/components/Education.tsx:43-47 | the experience check implies the education one, and `01/1899` separates them |
| DateField.KeepDateChars | Resume2/src/components/Experience.tsx:94 | the filter keeps only digits and slashes and never lengthens |
| DateField.KeepDateCharsIdentity | Resume2/src/components/Experience.tsx:94 | text of digits and slashes passes the filter unchanged |
| DateField.FormatDateInput | Resume2/src/components/Experience.tsx:92-107 | the formatted text has at most seven characters, all digits or slashes |
| DateField.FormatDateInputIdempotent | Resume2/src/components/Experience.tsx:92-107 | formatting formatted text changes nothing |
| DateField.FormatKeepsMonthYear | Resume2/src/components/Experience.tsx:92-107 | a complete month/year text is kept as typed |
| DateField.FormatAddsSlash | Resume2/src/components/Experience.tsx:100-102 | two digits get a slash appended |
| DateField.DateError | Resume2/src/components/Experience.tsx:115-134 | an error is recorded exactly for a text of seven or more characters that fails the check |
| DateField.ExperienceKeystrokeError | Resume2/src/components/Experience.tsx:92-134 | after a keystroke the experience field errs exactly on a complete text that is no month of 1900-2100 |
| DateField.EducationKeystrokeError | Resume2/src/components/Education.tsx:64-107 | the same for education, where any four-digit year passes |
| ExperienceStep.CheckFormIff | Resume2/src/components/Experience.tsx:155-185 | an entry is staged exactly when company and position are filled and each date is empty or valid; the first failing check is named |
| ExperienceStep.ExperienceStep.constructor | Resume2/src/components/Experience.tsx:31-49 | empty form, nothing staged, no errors, fresher flag copied from the document |
| ExperienceStep.ExperienceStep.InputChange | Resume2/src/components/Experience.tsx:74-90 | one field set, that date's error cleared, nothing else changed |
| ExperienceStep.ExperienceStep.DateChange | Resume2/src/components/Experience.tsx:92-135 | the formatted text is stored and its error set exactly when it is complete and rejected |
| ExperienceStep.ExperienceStep.FresherChange | Resume2/src/components/Experience.tsx:137-153 | the flag is set locally and in the document; checking it drops the staged entries and empties the form |
| ExperienceStep.ExperienceStep.AddExperience | Resume2/src/components/Experience.tsx:155-203 | on success the form is staged under the clock's id and reset; a missing field changes nothing; a bad date sets only its error |
| ExperienceStep.ExperienceStep.DeletePending | Resume2/src/components/Experience.tsx:205-207 | exactly the staged entries with the id are dropped, the rest keep their order |
| ExperienceStep.ExperienceStep.Save | Resume2/src/components/Experience.tsx:209-245 | a fresher adds nothing; nothing staged or saved refuses; otherwise every staged entry is added in order and staging empties |
| EducationStep.CheckFormIff | Resume2/src/components/Education.tsx:109-131 | an entry is staged exactly when institution and degree are filled and each date is empty or valid |
| EducationStep.EducationStep.constructor | Resume2/src/components/Education.tsx:27-40 | empty form, nothing staged, no errors |
| EducationStep.EducationStep.InputChange | Resume2/src/components/Education.tsx:49-62 | one field set, that date's error cleared |
| EducationStep.EducationStep.DateChange | Resume2/src/components/Education.tsx:64-107 | the formatted text is stored and its error set exactly when it is complete and fails the pattern |
| EducationStep.EducationStep.AddEducation | Resume2/src/components/Education.tsx:109-151 | on success the whole form is staged under the clock's id, and form and errors are reset; failures change only what the source changes |
| EducationStep.EducationStep.DeletePending | Resume2/src/components/Education.tsx:153-155 | exactly the staged entries with the id are dropped |
| EducationStep.EducationStep.Save | Resume2/src/components/Education.tsx:157-185 | nothing staged or saved refuses; otherwise every staged entry is added in order with all fields, and staging empties |
| SkillsStep.PendingSkillIdInjective | Resume2/src/components/Skills.tsx:45 | `pending-${n}` ids differ for different `n` |
| SkillsStep.RemoveKeepsDistinct | Resume2/src/components/Skills.tsx:56-58 | deleting keeps the staged ids distinct |
| SkillsStep.SkillsStep.constructor | Resume2/src/components/Skills.tsx:20-28 | empty form, nothing staged, local counter at 1 |
| SkillsStep.SkillsStep.NameChange | Resume2/src/components/Skills.tsx:30-35 | sets the name only |
| SkillsStep.SkillsStep.LevelChange | Resume2/src/components/Skills.tsx:30-35 | sets the level only |
| SkillsStep.SkillsStep.AddSkill | Resume2/src/components/Skills.tsx:37-54 | with name and level filled, stages under `pending-${counter}` (a fresh id), increments and resets; otherwise nothing changes |
| SkillsStep.SkillsStep.DeletePending | Resume2/src/components/Skills.tsx:56-58 | exactly the staged skills with the id are dropped; ids stay distinct |
| SkillsStep.SkillsStep.DeleteSaved | Resume2/src/components/Skills.tsx:60-62 | deletes a saved skill from the document |
| SkillsStep.SkillsStep.Save | Resume2/src/components/Skills.tsx:64-85 | nothing staged or saved refuses; otherwise each staged skill is added in order and staging empties |
| PersonalInfoStep.RequiredFieldsIndexed | Resume2/src/components/PersonalInfo.tsx:34-41 | the required list holds first name, last name, role, email, city and summary once each, with their labels |
| PersonalInfoStep.ErrorsUpToSpec | Resume2/src/components/PersonalInfo.tsx:62-68 | after `i` keys, a key has an error exactly when it is among them and blank, and the error names its label |
| PersonalInfoStep.IsMissingValue | Resume2/src/components/PersonalInfo.tsx:64 | `!value \|\| value.trim() === ''` holds exactly for all-white-space values |
| PersonalInfoStep.AllErrorsSpec | Resume2/src/components/PersonalInfo.tsx:58-71 | the finished error map has one `<label> is required` per blank required key, none for optional keys, and is empty exactly when none is blank |
| PersonalInfoStep.CollectFieldErrors | Resume2/src/components/PersonalInfo.tsx:58-72 | the loop's errors are those of the blank required keys, and it is valid exactly when there are none |
| PersonalInfoStep.PersonalInfoStep.constructor | Resume2/src/components/PersonalInfo.tsx:30-31 | the form starts from the document's record with no errors |
| PersonalInfoStep.PersonalInfoStep.InputChange | Resume2/src/components/PersonalInfo.tsx:43-56 | one field set; a shown error on that field is blanked and no other error moves |
| PersonalInfoStep.PersonalInfoStep.ValidateForm | Resume2/src/components/PersonalInfo.tsx:58-72 | the collected errors replace the shown ones and the result is validity |
| PersonalInfoStep.PersonalInfoStep.Save | Resume2/src/components/PersonalInfo.tsx:58-84 | only a valid form replaces the document's personal record, after which the errors are cleared; a failed save leaves the record alone and shows exactly the blank required fields, each with the message "<label> is required" and none on an optional field |
| ResumeCraft.InRegistryAcceptsInherited | Resume2/src/components/ResumeCraft.tsx:41 | as written, the inherited name `toString` passes the `in` check though no template has it |
| ResumeCraft.TemplateKeyIff | Resume2/src/components/ResumeCraft.tsx:41 | the corrected check accepts exactly the registered key, which the written check also accepts |
| ResumeCraft.TemplateToUse | Resume2/src/components/ResumeCraft.tsx:39 | `||` picks one of its two operands, the address's value whenever it is truthy, and is falsy only when both are |
| ResumeCraft.StepOf | Resume2/src/components/ResumeCraft.tsx:81-96 | the five sections map to steps 1-5 in order; anything else is step 1 |
| ResumeCraft.StepLabel | Resume2/src/components/ResumeCraft.tsx:98-113 | a caption exactly for steps 1-5 |
| ResumeCraft.BackOf | Resume2/src/components/ResumeCraft.tsx:62-79 | the personal section and unknown sections stay put |
| ResumeCraft.NextOf | Resume2/src/components/ResumeCraft.tsx:150-180 | the preview and unknown sections stay put |
| ResumeCraft.StepsNumberSections | Resume2/src/components/ResumeCraft.tsx:81-96 | steps number the sections one to one; an unknown section is step 1 |
| ResumeCraft.BackLowersStep | Resume2/src/components/ResumeCraft.tsx:62-96 | from steps 2-5 going back lowers the step by exactly one; elsewhere nothing moves |
| ResumeCraft.BackUndoesNext | Resume2/src/components/ResumeCraft.tsx:150-185 | for the four form sections, back after forward returns to the same section, one step up and down |
| ResumeCraft.Rendered | Resume2/src/components/ResumeCraft.tsx:148-189 | the preview is shown exactly for the sections that are not one of the four forms |
| ResumeCraft.RenderedMatchesStep | Resume2/src/components/ResumeCraft.tsx:81-189 | for a known section the preview is shown exactly at step 5; an unknown section shows the preview at step 1 |
| ResumeCraft.CompletedSteps | Resume2/src/components/ResumeCraft.tsx:115-143 | at most four, four exactly when all parts are complete, zero exactly when none is |
| ResumeCraft.RoundQuotientNearest | Resume2/src/components/ResumeCraft.tsx:145 | `Math.round` of a non-negative quotient is the nearest whole number, halves up |
| ResumeCraft.ProgressIsQuarters | Resume2/src/components/ResumeCraft.tsx:145 | the percentage is `25 * completed`, in {0, 25, 50, 75, 100} |
| ResumeCraft.AllFilledIff | Resume2/src/components/ResumeCraft.tsx:126-128 | `every(f => p[f]?.trim() !== '')` holds exactly when no listed value is all white space |
| ResumeCraft.SameKeys | Resume2/src/components/ResumeCraft.tsx:118-125 | the progress bar's six keys are the form's six required keys |
| ResumeCraft.PersonalCompleteIffValid | Resume2/src/components/ResumeCraft.tsx:118-128 | the progress bar counts the personal part complete exactly when the personal form would accept it |
| ResumeCraft.CalculateProgress | Resume2/src/components/ResumeCraft.tsx:115-146 | the loop's result is `25 * completed`, a quarter value, and 100 exactly when all four parts are complete |
| ResumeCraft.Wizard.constructor | Resume2/src/components/ResumeCraft.tsx:26-30 | the personal section and the default template |
| ResumeCraft.Wizard.ApplyUrl | Resume2/src/components/ResumeCraft.tsx:35-51 | as written: a truthy template that passes the `in` test is adopted, so `?template=toString` makes `toString` the current template; a template that passes `in` stays one that passes it; the section comes from the address, defaulting to personal info |
| ResumeCraft.Wizard.ApplyUrlChecked | Resume2/src/components/ResumeCraft.tsx:35-51 | the corrected effect: only a registered key is adopted, `?template=toString` keeps the old template, and a registered template stays registered; the section as in `ApplyUrl` |
| ResumeCraft.Wizard.SelectSection | Resume2/src/components/ResumeCraft.tsx:53-60 | any section may be chosen; the template stays |
| ResumeCraft.Wizard.SelectTemplate | Resume2/src/components/ResumeCraft.tsx:223-224 | the picked key is taken as it is |
| ResumeCraft.Wizard.BackNavigation | Resume2/src/components/ResumeCraft.tsx:62-79 | the section before the named one becomes active; an unknown name changes nothing |
| ResumeCraft.Wizard.CompleteStep | Resume2/src/components/ResumeCraft.tsx:150-180 | the form's completion moves to the next section, one step up |
| ResumeCraft.Wizard.CurrentStep | Resume2/src/components/ResumeCraft.tsx:81-113 | the shown step lies in 1-5 and has a caption |
| InlineTemplate.DisplayedIsUsers | Resume2/src/components/resume-templates/ResumeTemplate3.tsx:136-145 | the sample when asked for; otherwise the user's lists, and the user's record unless name, email and summary are all blank |
| InlineTemplate.SkillColumns | Resume2/src/components/resume-templates/ResumeTemplate3.tsx:169-170 | the first `ceil(n/2)` skills and the rest; together they are the list, the first as long as the second or one longer |
| InlineTemplate.SplitNameSpec | Resume2/src/components/resume-templates/ResumeTemplate3.tsx:193-206 | the first name has no space, and the trimmed text is the first name, or first and last name around one space |
| InlineTemplate.NameRoundTrip | Resume2/src/components/resume-templates/ResumeTemplate3.tsx:188-198 | the name line `first last` parses back to the same first and last name when the first is non-empty without white space and the last does not end in white space |
| InlineTemplate.ParseDatesSpec | Resume2/src/components/resume-templates/ResumeTemplate3.tsx:741-757 | the start is the text before the first separator; current means an empty end; no separator means all start |
| InlineTemplate.StartSeparable | Resume2/src/components/resume-templates/ResumeTemplate3.tsx:737 | a start without the separator that does not end in ` -` puts the first separator right after it |
| InlineTemplate.DatesRoundTrip | Resume2/src/components/resume-templates/ResumeTemplate3.tsx:737-745 | a seeded dates line saved unchanged gives back start and current flag, and the end when not current |
| InlineTemplate.DatesRoundTripNeedsCleanEnd | Resume2/src/components/resume-templates/ResumeTemplate3.tsx:737-745 | a start `Jan -` without the separator still reads back as `Jan` |
| InlineTemplate.DatesRoundTripNeedsPlainEnd | Resume2/src/components/resume-templates/ResumeTemplate3.tsx:737-745 | an end `May - June` reads back as `May` |
| InlineTemplate.PieceFree | Resume2/src/components/resume-templates/ResumeTemplate3.tsx:502-505 | `parts[k] \|\| ''` never holds the separator |
| InlineTemplate.ParseContactSpec | Resume2/src/components/resume-templates/ResumeTemplate3.tsx:500-519 | email and website hold no ` \| `, address and city no `, `, and text without ` \| ` leaves email and website empty |
| InlineTemplate.ContactRoundTrip | Resume2/src/components/resume-templates/ResumeTemplate3.tsx:496-507 | a seeded contact line saved unchanged gives back its four parts when none holds `\|` and address and city hold no `,` |
| InlineTemplate.SkillCommitEffect | Resume2/src/components/resume-templates/ResumeTemplate3.tsx:292-306 | blank text deletes exactly the skills with the id; other text renames exactly those to the trimmed text; nothing else changes |
| InlineTemplate.AddSkillActionAppends | Resume2/src/components/resume-templates/ResumeTemplate3.tsx:333-346 | a non-blank input appends one `Advanced` skill with the trimmed name and the clock's id |
| InlineTemplate.AllSlotsComplete | Resume2/src/components/resume-templates/ResumeTemplate3.tsx:14-54 | the slot list names every editing state |
| InlineTemplate.ExclusiveClicks | Resume2/src/components/resume-templates/ResumeTemplate3.tsx:172-1005 | exactly six clicks close every other slot; each of the other eleven fails to close one of the address, email, website or experience company slots |
| InlineTemplate.NameClickKeepsAddressOpen | Resume2/src/components/resume-templates/ResumeTemplate3.tsx:172-191 | as written, clicking the name with the address open leaves both open |
| InlineTemplate.BlurSaveThenClick | Resume2/src/components/resume-templates/ResumeTemplate3.tsx:1114-1118 | when at most one field is open, its blur-save (which closes it) followed by any click leaves only the clicked field open |
| InlineTemplate.ExclusiveClick | Resume2/src/components/resume-templates/ResumeTemplate3.tsx:172-191 | the intended click leaves exactly the clicked slot open, whatever was open before |
| InlineTemplate.WrittenFrame | Resume2/src/components/resume-templates/ResumeTemplate3.tsx:199-206 | a personal save keeps every key it does not write |
| InlineTemplate.SendWholeRecord | Resume2/src/components/resume-templates/ResumeTemplate3.tsx:199-206 | sending `{...personalInfo, …}` replaces the stored record and nothing else |
| InlineTemplate.PersonalCommitFrame | Resume2/src/components/resume-templates/ResumeTemplate3.tsx:193-668 | a personal field's save changes only its own keys and no list or flag |
| InlineTemplate.RecordCommitFrame | Resume2/src/components/resume-templates/ResumeTemplate3.tsx:292-1005 | a record field's save leaves the personal record and the flag alone |
| InlineTemplate.UnchangedNameSaveKeeps | Resume2/src/components/resume-templates/ResumeTemplate3.tsx:172-210 | clicking the name and saving it unchanged leaves the document as it was |
| InlineTemplate.UnchangedDatesSaveKeeps | Resume2/src/components/resume-templates/ResumeTemplate3.tsx:720-760 | clicking an experience's dates and saving them unchanged writes the same start, end and flag back |
| InlineTemplate.UnchangedContactSaveKeeps | Resume2/src/components/resume-templates/ResumeTemplate3.tsx:479-522 | clicking the contact line and saving it unchanged leaves the document as it was |
| InlineTemplate.HiddenRoleErased | Resume2/src/components/resume-templates/ResumeTemplate3.tsx:436-468 | while the document has no user data the role shown is empty, and a click and save over it erases the stored role |
| InlineTemplate.RoleOnEmptyResumeHidden | Resume2/src/components/resume-templates/ResumeTemplate3.tsx:136-145 | a role typed into an empty resume is stored, yet the resume still counts as having no data |
| InlineTemplate.SeedRecordKeeps | Resume2/src/components/resume-templates/ResumeTemplate3.tsx:436-660 | seeded from the stored record, saving summary, role, address, email or website unchanged keeps the document |
| InlineTemplate.InlineEditor.constructor | Resume2/src/components/resume-templates/ResumeTemplate3.tsx:11-54 | no slot open, every draft empty, add-skill input closed |
| InlineTemplate.InlineEditor.Click | Resume2/src/components/resume-templates/ResumeTemplate3.tsx:172-994 | when editable, the handler's own clear set closes, the clicked slot opens with the record's id, and the draft is seeded from the displayed document |
| InlineTemplate.InlineEditor.ClickExclusive | Resume2/src/components/resume-templates/ResumeTemplate3.tsx:172-191 | the corrected click: exactly the clicked slot is open afterwards |
| InlineTemplate.InlineEditor.Type | Resume2/src/components/resume-templates/ResumeTemplate3.tsx:1035 | typing replaces the field's draft only |
| InlineTemplate.InlineEditor.Cancel | Resume2/src/components/resume-templates/ResumeTemplate3.tsx:427-434 | Escape closes the field and dispatches nothing |
| InlineTemplate.InlineEditor.Save | Resume2/src/components/resume-templates/ResumeTemplate3.tsx:193-1005 | under the guard (editable, not the sample, an id for record fields) the field's commit is dispatched with the stored record; the field closes |
| InlineTemplate.InlineEditor.DeleteSkill | Resume2/src/components/resume-templates/ResumeTemplate3.tsx:311-318 | under the guard the skill is deleted |
| InlineTemplate.InlineEditor.AddSkillClick | Resume2/src/components/resume-templates/ResumeTemplate3.tsx:328-331 | the add-skill input opens empty |
| InlineTemplate.InlineEditor.TypeNewSkill | Resume2/src/components/resume-templates/ResumeTemplate3.tsx:1285 | typing sets the new skill's text |
| InlineTemplate.InlineEditor.CancelAddSkill | Resume2/src/components/resume-templates/ResumeTemplate3.tsx:348-355 | Escape closes and empties the add-skill input |
| InlineTemplate.InlineEditor.AddSkillSave | Resume2/src/components/resume-templates/ResumeTemplate3.tsx:333-346 | a non-blank input adds a skill whatever the editable and sample flags say; the input closes and empties |
| InlineTemplate.InlineEditor.ExperiencePlaceholderClick | Resume2/src/components/resume-templates/ResumeTemplate3.tsx:1439-1467 | with nothing shown, an empty experience under the clock's id is added and its field opened; otherwise the first shown one is opened |
| InlineTemplate.InlineEditor.EducationPlaceholderClick | Resume2/src/components/resume-templates/ResumeTemplate3.tsx:1714-1744 | the same for education |
| Validation.ValidateEmailIff | resume-backend/src/utilities/validation.ts:3-6 | valid exactly with no white space, a single `@` with something before it, and a dot after it that is neither first nor last |
| Validation.ValidatePasswordIff | resume-backend/src/utilities/validation.ts:8-12 | valid exactly with at least eight characters from `[A-Za-z0-9@$!%*?&]`, among them a letter and a digit |
| Validation.RemoveAngles | resume-backend/src/utilities/validation.ts:21 | drops every angle bracket, keeps every other character, never lengthens |
| Validation.SanitizeInput | resume-backend/src/utilities/validation.ts:20-22 | no `<` or `>`, no longer than the input, and exactly the trimmed input's other characters |
| Validation.RemoveAnglesNoBrackets | resume-backend/src/utilities/validation.ts:21 | text without brackets passes unchanged |
| Validation.RemoveAnglesConcat | resume-backend/src/utilities/validation.ts:21 | the filter works piece by piece |
| Validation.SanitizeNotIdempotent | resume-backend/src/utilities/validation.ts:21 | `"< a"` sanitises to `" a"`, which sanitises to `"a"` |
| Validation.SanitizeFixedPoint | resume-backend/src/utilities/validation.ts:20-22 | trimmed text without brackets is its own sanitised form |
| Validation.SanitizeKeepsUsername | resume-backend/src/utilities/validation.ts:14-22 | every valid username passes the sanitiser unchanged |
| Validation.Property | resume-backend/src/utilities/validation.ts:27 | a string property can only come from an object's own key |
| Validation.RegisterRequestIff | resume-backend/src/utilities/validation.ts:24-37 | valid exactly for an object whose username, email and password are strings passing their checks |
| Validation.LoginRequestIff | resume-backend/src/utilities/validation.ts:39-50 | valid exactly for an object with a passing email string and a non-empty password string |
| Validation.RegisterImpliesLogin | resume-backend/src/utilities/validation.ts:24-50 | every accepted register body is an accepted login body |
| Validation.LoginDoesNotImplyRegister | resume-backend/src/utilities/validation.ts:39-50 | a body with a one-letter password logs in but does not register |
| PdfExport.AssembleLayout | Resume2/src/utils/pdfUtils.ts:80-130 | after the title come the style opening, the collected styles, the overrides and the style closing; the content alone fills the body |
| PdfExport.LazyCapture | Resume2/src/utils/pdfUtils.ts:17 | a lazy `(.*?)` capture that succeeds ends at an occurrence of the closing text at or after its start |
| PdfExport.ReplaceSpaceRuns | Resume2/src/utils/pdfUtils.ts:19 | the result has no white space and is no longer than the input |
| PdfExport.ReplaceNoSpace | Resume2/src/utils/pdfUtils.ts:19 | text without white space is left alone |
| PdfExport.ReplaceOneRun | Resume2/src/utils/pdfUtils.ts:19 | one white-space run between two words becomes one underscore |
| PdfExport.FilenameWithoutTitle | Resume2/src/utils/pdfUtils.ts:17-19 | without a title match the file is `resume_resume.pdf` |
| PdfExport.EmptyDocumentFilename | Resume2/src/utils/pdfUtils.ts:17-19 | the empty document downloads as `resume_resume.pdf` |
| PdfExport.HeadHasNoTitle | Resume2/src/utils/pdfUtils.ts:80-85 | the fixed head opens no `<t…` tag, so no match starts in it |
| PdfExport.SkipHead | Resume2/src/utils/pdfUtils.ts:17 | no match starts inside a safe head |
| PdfExport.CaptureName | Resume2/src/utils/pdfUtils.ts:17 | within the title the capture runs to the closing text after the name |
| PdfExport.TitleAfterHead | Resume2/src/utils/pdfUtils.ts:17 | after a safe head and the title's opening, the match captures exactly the name |
| PdfExport.AssembleTitleRoundTrip | Resume2/src/utils/pdfUtils.ts:17-86 | the template around any safe head reads its name back |
| PdfExport.FilenameOfTitle | Resume2/src/utils/pdfUtils.ts:17-19 | a captured name gives the file name with its white space replaced then `_resume.pdf` |
| PdfExport.TitleRoundTrip | Resume2/src/utils/pdfUtils.ts:17-86 | `createPDFHTML(c, n, s)` reads back `n` when `n` has no line break and no closing text, and downloads under it |
| PdfExport.PersonName | Resume2/src/utils/pdfUtils.ts:74 | the name used is never empty and has no white space at either end |
| PdfExport.PersonNameTrimmed | Resume2/src/utils/pdfUtils.ts:74 | the name used is already trimmed: trimming it again changes nothing |
| PdfExport.NotFoundIff | Resume2/src/utils/pdfUtils.ts:38-57 | nothing is found exactly when every lookup comes back empty |
| PdfExport.ExportedFilename | Resume2/src/utils/pdfUtils.ts:17-76 | a found element downloads under its person name with white-space runs made `_`, when that name fits in a title; no element gives `resume_resume.pdf` |
| PdfExport.NotFoundFilename | Resume2/src/utils/pdfUtils.ts:54-57 | without an element the document is empty and the name is the default |
| PdfExport.FoundFilename | Resume2/src/utils/pdfUtils.ts:73-76 | a found element's document downloads under the person name with white-space runs made `_`, when that name fits in a title |
| PdfExport.DefaultNameFits | Resume2/src/utils/pdfUtils.ts:18 | the default name reads back whole and has no white space |
| PdfExport.DefaultFilename | Resume2/src/utils/pdfUtils.ts:73-76 | without a name element the download is `resume_resume.pdf` |
| Routes.GetResumeUrl | Resume2/src/constants/routes.ts:18-20 | every address starts with `/resume`, and it is the bare `/resume` exactly when the section is falsy (absent or empty) |
| Routes.SectionOf | Resume2/src/constants/routes.ts:19 | the raw inverse of the builder: a section read back from an address is the text behind `/resume?section=` |
| Routes.SectionRoundTrip | Resume2/src/constants/routes.ts:18-20 | every non-empty section survives the builder followed by the raw inverse `SectionOf` |
| Routes.GetResumeUrlInjective | Resume2/src/constants/routes.ts:18-20 | distinct non-empty sections give distinct addresses |
| Routes.SectionsDistinct | Resume2/src/constants/routes.ts:10-16 | the five section names are pairwise different and non-empty |

## Left out

- Browser storage and JSON: reading `resumeData` on mount and writing on every change are not modelled. `ResumeProvider.Mount` takes the already-parsed document, or nothing, or an unreadable marker.
- The store is loaded in a mount effect after the first render, not when it is constructed.
- The template waits 200 ms before its first render (`isDataLoaded`). Timers are not modelled.
- Every save closes its field 50 ms after dispatching; here it closes at once.
- Rendering, DOM look-ups, `alert`, `console`, text-area resizing, focus and blur: JSX is not part of this model.
  - A DOM look-up becomes a `Page` value in `PdfExport`.
  - Blur and Enter are both `InlineEditor.Save`; Escape is `InlineEditor.Cancel`.
- The clock: `Date.now()` ids are a `now` parameter.
- Large ids: a `Date.now()` id is a decimal string, and its `parseInt` value is an unbounded integer. Floating-point precision above 2^53 is not modelled.
- The reducer's `default` branch cannot be reached with the typed actions, so it is not modelled.
- PDF rendering, `fetch`, blobs and the download link: the server route (`generate-pdf/route.ts`) drives a headless browser, which is not part of this model. Only the file-name derivation and the HTML assembly are modelled.
- The backend server, database and authentication handlers are not part of this model. Only the validators are.
- `ResumePreview`'s download still calls `generatePDF('')` when no element is found, so a request is made. That component is not part of this model. `PdfExport.NotFoundFilename` states what that empty document's file name would be.
- `InlineTemplate.InlineEditor.Click`: the JSX wires no contact click (`handleContactClick`), no education click (`handleEducationClick`) and no skill delete (`handleSkillDelete`). Only the separate address, email and website fields are shown. Their handlers are still modelled, as written.
- Two template values are computed but not rendered in columns: `professionalSkills` and `technicalSkills`. `SkillColumns` models them.
- `Routes.SectionOf`: the wizard reads the address with `searchParams.get('section')`, which decodes percent escapes, turns `+` into a space and stops at `&`. The model reads back the raw text instead. So `SectionRoundTrip` describes what the app reads back only for sections free of `%`, `+`, `&` and `#`, which includes the five wizard sections. For example, the app reads `getResumeUrl("a&b")` back as `a`.
- The sidebar's template picker sets any key without a registry check. `ResumeCraft.Wizard.SelectTemplate` takes the key as it is.
- `PdfExport.TitleRoundTrip`: the name must not contain a line break or ` - Resume</title>`. Otherwise the capture stops early, or finds nothing and falls back to `resume`.
- `InlineTemplate.DatesRoundTrip`: the start must not end in ` -`, and the end must hold no ` - `. `InlineTemplate.DatesRoundTripNeedsCleanEnd` and `InlineTemplate.DatesRoundTripNeedsPlainEnd` show that neither condition can be dropped.
- `InlineTemplate.NameRoundTrip`: the first name must be non-empty and must not hold white space, and the last name must not end with white space. Otherwise trimming or splitting moves text between them.
- `InlineTemplate.ContactRoundTrip`: the parts must not hold `|`, and address and city must not hold `,`. Otherwise the line splits differently.
- `InlineTemplate.UnchangedContactSaveKeeps`: the source seeds the contact line from the displayed record, and the lemma states the round trip for the stored one. The two differ on a resume with no user data that stores an address, city or website. Such a resume has name, email and summary blank, so the empty record is displayed. There the click seeds the line from that empty record, and an unchanged save writes the blanks over the stored address, city and website.

## Findings

| source | as written | input that shows it | evidently intended | confidence | as-written member | corrected member |
|---|---|---|---|---|---|---|
| Resume2/src/context/ResumeContext.tsx:267-274 | the add helpers read the counter captured at render and only schedule the increment, so the `forEach` saves of the wizard steps stamp every record of one click with the same id | two staged experiences saved in one click; deleting one deletes both | each add takes the next counter value, so ids are distinct | not executed | ResumeContext.StaleBatchSharesId | ResumeContext.SequentialBatchDistinct |
| Resume2/src/components/resume-templates/ResumeTemplate3.tsx:172-191 | each click handler clears its own hand-written list of editing states; eleven of seventeen leave some other field open | open the address, then click the name without its input losing focus: both are in edit mode. In the browser the click blurs the address input, whose save closes it 50 ms later, so the visible double edit lasts for that window (`InlineTemplate.BlurSaveThenClick`) | a click closes every other field, so at most one is open | not executed; the effect is transient | InlineTemplate.NameClickKeepsAddressOpen | InlineTemplate.ExclusiveClick |
| Resume2/src/components/ResumeCraft.tsx:41 | `templateToUse in resumeTemplates` also accepts names inherited from `Object.prototype` | `?template=toString` is adopted as the current template | only registered template keys are adopted | not executed | ResumeCraft.Wizard.ApplyUrl | ResumeCraft.Wizard.ApplyUrlChecked |
| Resume2/src/components/resume-templates/ResumeTemplate3.tsx:436-468 | the role is seeded from the displayed record, which is the empty one while name, email and summary are blank | type a role into an empty resume; it is stored but not shown, and clicking it again and leaving erases it | seed from the stored record, so an unchanged save changes nothing | not executed | InlineTemplate.HiddenRoleErased | InlineTemplate.SeedRecordKeeps |
