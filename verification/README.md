# Dashboards core, modelled in Dafny

This project models the state logic of a role-based dashboards web
application. The app has four dashboards: admin, mentor, student and company.
Each dashboard keeps lists of id-keyed records in memory and edits them through
small handlers:

- create or edit a user, whose shape depends on the role;
- add, edit or delete workshops and internship positions;
- filter the candidates by skill;
- schedule interviews;
- record project and weekly evaluations;
- advance course progress and pick calendar days.

Two generic dialogs feed these handlers. The form dialog turns a list of field
descriptions plus its picker state into a flat string record. The evaluation
dialog turns its fixed form into a numeric payload. A generic table renders
columns over rows.

Every handler is modelled as a pure function from the old state to the new
one. A `throw` becomes the `Err` case of a `Result`. The JavaScript behaviour
the handlers rely on is written out in module `Js`:

- truthiness and `||`;
- `parseInt` and `Number` on form text;
- `toLowerCase`, `includes` and `split`;
- template literals showing `undefined`.

Foreign calls are parameters of the functions that use them: the browser's
form snapshot, date formatting, `toDateString` and the current time.

Modules, one per file:

- `Wrappers`: `Option`, `Result`.
- `Js`: the built-ins above.
- `IdLists`: the three list conventions every dashboard uses. These are map-replace by id, filter-delete by id, and append with id `length + 1`.
- `Entities`: the records of types/dashboard.d.ts.
- `AdminDashboard`, `CompanyDashboard`, `MentorDashboard`, `StudentDashboard`: the handlers.
- `FormDialog`, `EvaluationDialog`, `DataTable`: the shared components.

The model keeps several behaviours of the code as they are, and lemmas state them:

- A cohort of 0 or NaN counts as missing.
- Editing falls back to the old name, email, role and cohort through `||`.
- The edit form with no user id appends a new user.
- A workshop edit is skipped when the id is 0.
- The workshop forms are never submitted: their only buttons add or apply fixed values, whatever was typed.
- The empty skill filter shows every candidate, even one without skills. Any non-empty filter hides such a candidate.
- An interview record is replaced whole.
- Deleting an entry and then adding one can give two entries the same id.
- Weekly progress grows by one per update, with no cap. The value picked in the dialog is discarded.
- A time default without a space composes with the text "undefined".
- All time fields of a form share one hour, minute and period.

## Model

| member | source | states |
|---|---|---|
| IdLists.UpdateWhere | components/dashboards/admin-dashboard/AdminDashboard.tsx:214-218 | the map-by-id update keeps the length, replaces every matching entry by the callback's result and keeps every other entry |
| IdLists.RemoveWhere | components/dashboards/admin-dashboard/AdminDashboard.tsx:197-199 | the filter-by-id delete keeps no matching entry and keeps every other one, in order (a subsequence); its length drops by the number of matches |
| IdLists.TryUpdateWhere | components/dashboards/admin-dashboard/AdminDashboard.tsx:128-150 | a map whose callback may throw succeeds exactly when no selected entry's callback throws; on success it behaves as the update; on failure the error is that of the first selected entry that throws |
| IdLists.RemoveAfterUpdate | components/dashboards/admin-dashboard/AdminDashboard.tsx:210-223 | deleting by id after an edit that keeps the id gives the same list as deleting without the edit |
| IdLists.AppendAfterDeleteCollides | components/dashboards/admin-dashboard/AdminDashboard.tsx:201-208 | with distinct ids and a last entry whose id is the length, deleting any other entry and then appending hands out the last entry's id again |
| Js.NatToString | components/dashboard/FormDialog.tsx:114 | `toString` of a natural number gives a non-empty digit string whose decimal value is the number |
| Js.ParseInt | components/dashboards/admin-dashboard/AdminDashboard.tsx:184 | `parseInt`: the empty text is NaN; a run of digits is its value; a minus before digits negates; a text starting with anything but a digit or sign is NaN |
| Js.ParseIntStopsAtNonDigit | components/dashboards/mentor-dashboard/MentorDashboard.tsx:282 | `parseInt` reads a digit run and ignores whatever follows from the first non-digit on |
| Js.NumberOf | components/dashboard/EvaluationDialog.tsx:78-80 | `Number` of a form value: `null` and the empty text are 0, a digit text is its value, any other text is NaN |
| Js.NumberAgreesWithParseInt | components/dashboard/EvaluationDialog.tsx:78-80 | `Number` and `parseInt` agree on a non-empty digit text and part on the empty text, 0 against NaN |
| Js.FormDataGet | components/dashboards/admin-dashboard/AdminDashboard.tsx:231-238 | `formData.get` gives a control's text exactly when a control with that name is submitted, and `null` otherwise |
| Js.ParseIntOfNatToString | components/dashboards/mentor-dashboard/MentorDashboard.tsx:282 | `parseInt` reads back the number that `toString` wrote |
| Js.NumberOfNatToString | components/dashboard/EvaluationDialog.tsx:78-80 | `Number` reads back the number that `toString` wrote |
| Js.IncludesIff | components/dashboards/company-dashboard/CompanyDashboard.tsx:53-55 | `includes` holds exactly when the needle occurs at some position of the string |
| Js.IncludesPrefix | components/dashboards/company-dashboard/CompanyDashboard.tsx:53-55 | a string that includes `t + u` includes `t` |
| Js.LowerIdempotent | components/dashboards/company-dashboard/CompanyDashboard.tsx:54 | lower-casing twice is lower-casing once |
| Js.Split | components/dashboard/FormDialog.tsx:89-90 | `split` by one character gives at least one part; no part holds the separator; the parts joined with the separator give the input back |
| Js.SplitJoin | components/dashboard/FormDialog.tsx:89-90 | splitting the join of separator-free parts gives the parts back |
| Entities.ParseRole | types/dashboard.d.ts:30-54 | a recognised role tag is the tag of the role it yields |
| Entities.RoleNameRoundTrip | types/dashboard.d.ts:30-54 | every role's tag parses back to that role |
| Entities.User.CohortField | types/dashboard.d.ts:36-44 | exactly the student and mentor variants carry a cohort, and it is a number |
| Entities.StatusNameRoundTrip | types/dashboard.d.ts:133 | every evaluation status tag parses back to its status |
| Entities.ParseWorkshopType | types/dashboard.d.ts:79 | a recognised workshop type tag is the tag of the type it yields |
| Entities.WorkshopTypeNameRoundTrip | types/dashboard.d.ts:79 | every workshop type's tag parses back to that type |
| AdminDashboard.CreateUserByRole | components/dashboards/admin-dashboard/AdminDashboard.tsx:75-118 | succeeds exactly when the role tag is known and, for student and mentor, the cohort is truthy; the user keeps id, name, email and role; the cohort is the given one; errors name the role that needed a cohort, or an invalid role |
| AdminDashboard.FalsyCohortIsMissing | components/dashboards/admin-dashboard/AdminDashboard.tsx:86-87 | a student or mentor with cohort 0, NaN or none is rejected |
| AdminDashboard.AdminAndCompanyDropCohort | components/dashboards/admin-dashboard/AdminDashboard.tsx:103-113 | admins and companies are always built, without a cohort, whatever cohort was passed |
| AdminDashboard.EditUser | components/dashboards/admin-dashboard/AdminDashboard.tsx:128-150 | the edited user keeps its id; empty form fields fall back to the old name, email and role; the cohort is the form's if truthy, else the old one; it fails exactly when the resulting role needs a cohort and neither supplies one |
| AdminDashboard.UpsertUser | components/dashboards/admin-dashboard/AdminDashboard.tsx:120-164 | with an id, matching users are edited, the others are kept, and the first failure aborts; without an id, one user with id length + 1 is appended, with the cohort only if truthy |
| AdminDashboard.PromotionNeedsCohort | components/dashboards/admin-dashboard/AdminDashboard.tsx:131-149 | turning an admin or company into a student without a truthy cohort fails with the student error |
| AdminDashboard.EditUnknownIdIsNoop | components/dashboards/admin-dashboard/AdminDashboard.tsx:128-130 | editing an id no user has leaves the list unchanged |
| AdminDashboard.UserDataFromForm | components/dashboards/admin-dashboard/AdminDashboard.tsx:172-186 | name, email and role pass through; a cohort is present exactly for student or mentor with non-empty text, and it is the `parseInt` of that text |
| AdminDashboard.UserFormSubmit | components/dashboards/admin-dashboard/AdminDashboard.tsx:166-195 | the add form, or an edit form without an id, succeeds exactly when the role tag is known and a student or mentor has a truthy parsed cohort, and then appends a user with id length + 1, the form's name, email and role, and the parsed cohort; an edit with an id succeeds exactly when every matching user's edit does, and then edits matching users with the form's data and keeps the others |
| AdminDashboard.EditWithoutIdAdds | components/dashboards/admin-dashboard/AdminDashboard.tsx:188 | the edit form without a user id behaves as the add form |
| AdminDashboard.CohortIgnoredForOtherRoles | components/dashboards/admin-dashboard/AdminDashboard.tsx:181-186 | a cohort typed for an admin or company is dropped |
| AdminDashboard.DeleteUser | components/dashboards/admin-dashboard/AdminDashboard.tsx:197-199 | no user with the id remains; every other user remains, in order |
| AdminDashboard.AddWorkshop | components/dashboards/admin-dashboard/AdminDashboard.tsx:201-208 | appends one workshop with id length + 1 and the submitted fields; attendees come from the payload if present, else 0 |
| AdminDashboard.EditWorkshop | components/dashboards/admin-dashboard/AdminDashboard.tsx:210-219 | matching workshops take the patch's keys over their own; others are unchanged |
| AdminDashboard.EditWithEmptyPatch | components/dashboards/admin-dashboard/AdminDashboard.tsx:216 | a patch without keys changes nothing |
| AdminDashboard.EditWorkshopIdempotent | components/dashboards/admin-dashboard/AdminDashboard.tsx:210-219 | applying an id-preserving patch twice is applying it once |
| AdminDashboard.DeleteWorkshop | components/dashboards/admin-dashboard/AdminDashboard.tsx:221-223 | no workshop with the id remains; every other workshop remains, in order |
| AdminDashboard.WorkshopFormSubmit | components/dashboards/admin-dashboard/AdminDashboard.tsx:225-245 | the add form appends with 0 attendees; the edit form overwrites the five form fields of matching workshops when the id is truthy, and does nothing when the id is absent or 0 |
| AdminDashboard.ReadWorkshopForm | components/dashboards/admin-dashboard/AdminDashboard.tsx:231-238 | a usable payload exists exactly when all five keys the handler reads are submitted and the type text names a workshop type; it then holds the submitted texts |
| AdminDashboard.RenderedWorkshopFormReadsNull | components/dashboards/admin-dashboard/AdminDashboard.tsx:652-692 | the workshop forms as rendered name no control, so every key the handler reads comes back `null` and no usable payload exists |
| AdminDashboard.NamedWorkshopFormAdds | components/dashboards/admin-dashboard/AdminDashboard.tsx:225-245 | with controls named after the keys, the add form appends a workshop with id length + 1, exactly the entered texts and type, and 0 attendees |
| AdminDashboard.ScheduleWorkshopButton | components/dashboards/admin-dashboard/AdminDashboard.tsx:694-708 | the add form's only button appends the fixed workshop "New Workshop", technical, 2024-05-01, 14:00, Room 101, with id length + 1 and 0 attendees |
| AdminDashboard.UpdateWorkshopButton | components/dashboards/admin-dashboard/AdminDashboard.tsx:803-817 | the edit form's only button gives every workshop with the clicked one's id the fixed title, date, time and location and the clicked one's type and attendees, and leaves the others unchanged |
| AdminDashboard.UpdateButtonKeepsTypeAndAttendees | components/dashboards/admin-dashboard/AdminDashboard.tsx:803-817 | updating a listed workshop through its button keeps its id, type and attendees |
| CompanyDashboard.FilterBySkill | components/dashboards/company-dashboard/CompanyDashboard.tsx:47-59 | the empty filter gives the fixture; otherwise only candidates with a skill that includes the filter case-insensitively remain, every such candidate remains, in fixture order, and the length drops by the number of candidates without one |
| CompanyDashboard.OnSkillFilter | components/dashboards/company-dashboard/CompanyDashboard.tsx:385 | the filter input's handler ignores the list shown and always gives a subsequence of the candidate fixture |
| CompanyDashboard.FilterNotCumulative | components/dashboards/company-dashboard/CompanyDashboard.tsx:47-59 | filtering twice is filtering by the second term, since the filter restarts from the fixture |
| CompanyDashboard.LongerFilterNarrows | components/dashboards/company-dashboard/CompanyDashboard.tsx:52-56 | a candidate shown for `t + u` is shown for `t` |
| CompanyDashboard.EmptyFilterShowsSkillless | components/dashboards/company-dashboard/CompanyDashboard.tsx:48-56 | a candidate without skills is shown for the empty filter and hidden by any other |
| CompanyDashboard.ReactSelectsAlice | mocks/dashboardData.ts:185-198 | filtering the candidate fixture by "react" shows Alice Johnson alone |
| CompanyDashboard.ScheduleInterview | components/dashboards/company-dashboard/CompanyDashboard.tsx:61-71 | the candidate's record becomes date, time and notes with no decision fields; the key set grows by that id; other records are unchanged |
| CompanyDashboard.RescheduleOverwrites | components/dashboards/company-dashboard/CompanyDashboard.tsx:67-70 | scheduling a candidate twice keeps only the later record |
| CompanyDashboard.SchedulesCommute | components/dashboards/company-dashboard/CompanyDashboard.tsx:67-70 | schedules for different candidates commute |
| CompanyDashboard.AddPosition | components/dashboards/company-dashboard/CompanyDashboard.tsx:73-85 | appends one position with id length + 1, the form's fields and 0 applicants |
| CompanyDashboard.DeletePosition | components/dashboards/company-dashboard/CompanyDashboard.tsx:87-89 | no position with the id remains; every other position remains, in order |
| CompanyDashboard.EditPosition | components/dashboards/company-dashboard/CompanyDashboard.tsx:91-100 | matching positions take the patch's keys over their own; others are unchanged |
| CompanyDashboard.ClosingChangesOnlyStatus | components/dashboards/company-dashboard/CompanyDashboard.tsx:91-100 | a status-only patch to "closed" changes that position's status and nothing else |
| CompanyDashboard.PositionIdCollision | components/dashboards/company-dashboard/CompanyDashboard.tsx:73-89 | deleting position 1 of positions 1 and 2 and then adding one gives two positions with id 2 |
| MentorDashboard.SubmitEvaluation | components/dashboards/mentor-dashboard/MentorDashboard.tsx:44-55 | only the status of the matching evaluations changes |
| MentorDashboard.LaterStatusWins | components/dashboards/mentor-dashboard/MentorDashboard.tsx:44-55 | recording two statuses in a row keeps the later |
| MentorDashboard.SubmitWeeklyEvaluation | components/dashboards/mentor-dashboard/MentorDashboard.tsx:57-77 | matching entries take the new skills, notes and time, and their progress goes up by one; other entries are unchanged |
| MentorDashboard.WeeklyProgressArgumentIgnored | components/dashboards/mentor-dashboard/MentorDashboard.tsx:57-77 | the `weeklyProgress` argument makes no difference to the result |
| MentorDashboard.WeeklyProgressLeavesScale | components/dashboards/mentor-dashboard/MentorDashboard.tsx:70 | an entry at progress 5 goes to 6, outside the 1-5 scale |
| MentorDashboard.AddWeeklyEvaluation | components/dashboards/mentor-dashboard/MentorDashboard.tsx:79-94 | appends one entry with id length + 1, progress 1, the feedback as notes and the current time |
| MentorDashboard.WeeklyDataFromRecord | components/dashboards/mentor-dashboard/MentorDashboard.tsx:279-285 | the add form's record maps to a payload whose skills rating is the `parseInt` of its text |
| MentorDashboard.WeeklyFormRecordKeys | components/dashboards/mentor-dashboard/MentorDashboard.tsx:252-285 | the form dialog always hands the add handler exactly the three keys it reads |
| MentorDashboard.WeeklyFormRatingParses | components/dashboards/mentor-dashboard/MentorDashboard.tsx:264-283 | picking rating option k in the add form appends an entry whose skills are the number k |
| MentorDashboard.OnProjectDialogSubmit | components/dashboards/mentor-dashboard/MentorDashboard.tsx:231-242 | the project dialog updates the list exactly when its status text names a status; entries with the row's id then take that status and all others are unchanged |
| MentorDashboard.ProjectDialogPasses | components/dashboards/mentor-dashboard/MentorDashboard.tsx:231-242 | picking "passed" in a row's dialog marks that row passed and leaves rows with other ids alone |
| MentorDashboard.OnWeeklyDialogSubmit | components/dashboards/mentor-dashboard/MentorDashboard.tsx:316-333 | entries with the row's id take the dialog's skills and notes and the current time, their progress goes up by one and nothing else of them changes; all other entries are unchanged |
| MentorDashboard.WeeklyDialogProgressDiscarded | components/dashboards/mentor-dashboard/MentorDashboard.tsx:319-327 | two dialog snapshots that agree on skills and notes give the same list, whatever progress was picked |
| StudentDashboard.UpdateProgress | components/dashboards/student-dashboard/StudentDashboard.tsx:45-48 | progress goes up by one below 100 and is capped at 100 |
| StudentDashboard.SubmissionDisabled | components/dashboards/student-dashboard/StudentDashboard.tsx:98 | for progress from 0 to 100, the submit button is disabled exactly while another click still changes the progress |
| StudentDashboard.ClicksCap | components/dashboards/student-dashboard/StudentDashboard.tsx:45-48 | from at most 100, n clicks give the smaller of p + n and 100 |
| StudentDashboard.ProgressMonotone | components/dashboards/student-dashboard/StudentDashboard.tsx:46 | progress never goes down |
| StudentDashboard.ProgressFixedPoint | components/dashboards/student-dashboard/StudentDashboard.tsx:46 | 100 stays 100 |
| StudentDashboard.SubmissionCaption | components/dashboards/student-dashboard/StudentDashboard.tsx:90-92 | the card asks to complete the coursework exactly when submission is disabled, that is below 100 |
| StudentDashboard.FortyOneClicksUnlock | components/dashboards/student-dashboard/StudentDashboard.tsx:39-48 | from the initial 59, 41 clicks unlock submission and 40 do not |
| StudentDashboard.EventsOn | components/dashboards/student-dashboard/StudentDashboard.tsx:57-60 | the events of the first day on the same calendar day, or none when no day matches |
| StudentDashboard.SelectDate | components/dashboards/student-dashboard/StudentDashboard.tsx:54-65 | stores the date; shows the events of its first matching day, or none; clearing the date clears the events |
| StudentDashboard.SameDaySameEvents | components/dashboards/student-dashboard/StudentDashboard.tsx:58-59 | two moments on the same calendar day select the same events |
| StudentDashboard.StoredDayShowsItsEvents | components/dashboards/student-dashboard/StudentDashboard.tsx:54-65 | selecting a stored day's date shows its events when no earlier day shares its calendar day |
| FormDialog.ParseTime | components/dashboard/FormDialog.tsx:89-90 | a period is present exactly when the text has a space; the hour holds no colon; a text without space or colon is all hour |
| FormDialog.ComposeTime | components/dashboard/FormDialog.tsx:219-222 | parts free of the separators compose into a text that parses back into them; a missing period ends the text with "undefined" |
| FormDialog.ParseComposedTime | components/dashboard/FormDialog.tsx:87-94 | splitting a composed "h:m p" gives back h, m and p |
| FormDialog.ComposeParsedTime | components/dashboard/FormDialog.tsx:219-222 | a time with one space and one colon before it is composed back from its parsed parts unchanged |
| FormDialog.ParseWithoutPeriod | components/dashboard/FormDialog.tsx:87-94 | a stored time with no space, "9:30", splits into hour "9", minute "30" and no period |
| FormDialog.MissingPeriodShowsUndefined | components/dashboard/FormDialog.tsx:89-93 | the default "9:30" is emitted as "9:30 undefined" |
| FormDialog.Pad2 | components/dashboard/FormDialog.tsx:114 | `padStart(2, "0")` of a number below 100 gives two digits with that value |
| FormDialog.HourOptions | components/dashboard/FormDialog.tsx:113-120 | twelve two-digit options with values 1 to 12 |
| FormDialog.MinuteOptions | components/dashboard/FormDialog.tsx:131-138 | sixty two-digit options with values 0 to 59 |
| FormDialog.PickedTimeRoundTrip | components/dashboard/FormDialog.tsx:113-153 | a time picked from the three pickers parses back into the same picks |
| FormDialog.InitialSelectValues | components/dashboard/FormDialog.tsx:79-85 | the keys are the ids of select fields with a default, and each holds the last such default |
| FormDialog.OnOpenChange | components/dashboard/FormDialog.tsx:77-101 | `open` becomes the argument; opening reloads the select defaults, makes the picked date the last date default and the shared time the parts of the last time default, keeping the old ones where there is none; closing changes nothing else |
| FormDialog.LastDefault | components/dashboard/FormDialog.tsx:87-98 | the default of the last field of a kind that has one, or none when no field of that kind has one |
| FormDialog.LoadDefaultsTime | components/dashboard/FormDialog.tsx:87-94 | after opening, the shared hour, minute and period are the parts of the last time default, or unchanged when there is none |
| FormDialog.LoadDefaultsDate | components/dashboard/FormDialog.tsx:95-97 | after opening, the picked date is the last date default, or unchanged when there is none |
| FormDialog.LoadDefaultsKeepsSelects | components/dashboard/FormDialog.tsx:87-98 | loading time and date defaults leaves the select values alone |
| FormDialog.Emit | components/dashboard/FormDialog.tsx:214-228 | a date field emits the formatted picked date or ""; a time field the composed shared time; a select its picked value when non-empty, else the form's text; any other field the form's text |
| FormDialog.RecordOf | components/dashboard/FormDialog.tsx:212-229 | filling a record field by field leaves one key per id, holding the value of the last field with that id |
| FormDialog.BuildRecord | components/dashboard/FormDialog.tsx:212-229 | the record has one key per field id, holding what the last field with that id emits |
| FormDialog.Submit | components/dashboard/FormDialog.tsx:209-238 | emits the record, closes the dialog and clears the date, hour, minute, period and select values |
| FormDialog.TimeFieldsAgree | components/dashboard/FormDialog.tsx:219-222 | every time field of a form emits the same string |
| FormDialog.UnpickedDateIsEmpty | components/dashboard/FormDialog.tsx:215-218 | a date field emits "" when no date is picked |
| FormDialog.OpenSubmitTimeRoundTrip | components/dashboard/FormDialog.tsx:77-101 | opening with a well-formed time default and submitting untouched emits that default |
| FormDialog.OpenSubmitSelectDefault | components/dashboard/FormDialog.tsx:79-85 | opening and submitting without touching a select emits its default |
| EvaluationDialog.RenderedFields | components/dashboard/EvaluationDialog.tsx:165-204 | the three ratings and the feedback are always rendered; the status only for projects; weekly progress only for weekly |
| EvaluationDialog.FormGet | components/dashboard/EvaluationDialog.tsx:76-88 | a field read gives its text exactly when the field is rendered |
| EvaluationDialog.StatusOptionsParse | components/dashboard/EvaluationDialog.tsx:173-174 | the status options are passed and failed, never pending |
| EvaluationDialog.RatingLabel | components/dashboard/EvaluationDialog.tsx:103-111 | a label exists exactly for the ratings 1 to 5 |
| EvaluationDialog.RatingLabels | components/dashboard/EvaluationDialog.tsx:106-110 | 1 is Poor, 2 Fair, 3 Good, 4 Very Good, 5 Excellent |
| EvaluationDialog.RatingLabelInjective | components/dashboard/EvaluationDialog.tsx:106-110 | no two ratings share a label |
| EvaluationDialog.RatingOptionNumber | components/dashboard/EvaluationDialog.tsx:103-104 | every rating option reads back through `Number` as its number |
| EvaluationDialog.SubmitDialog | components/dashboard/EvaluationDialog.tsx:74-91 | the dialog closes; weekly progress is present exactly for weekly, the status exactly for projects; the ratings are `Number` of their texts |
| EvaluationDialog.PickedRatingsArrive | components/dashboard/EvaluationDialog.tsx:78-88 | with every rating select on an option, every rating in the payload is that option's number |
| EvaluationDialog.WeeklyScenario | components/dashboard/EvaluationDialog.tsx:74-91 | a weekly submission of "3", "4" and "ok" gives skills 3, progress 4, feedback "ok" and no status |
| DataTable.Row | components/dashboard/DataTable.tsx:37-47 | one cell per column in column order, plus the actions cell exactly when actions are given |
| DataTable.Head | components/dashboard/DataTable.tsx:28-34 | one header per column, plus "Actions" exactly when actions are given |
| DataTable.Render | components/dashboard/DataTable.tsx:21-52 | one row per item, each as wide as the header; cells apply the column's accessor; the last cell is the actions renderer's when given |
| DataTable.BodyConcat | components/dashboard/DataTable.tsx:37-48 | the rows of two lists rendered back to back are the rows of each list |
| DataTable.NameScenario | components/dashboard/DataTable.tsx:21-52 | a "Name" column over one record named Alice gives one row with the cell "Alice" and no Actions column |

## Left out

- JSX, styling, icons, charts, the page shell and the navigation are left out because they compute no state.
- The `console.log` placeholder handlers are left out because they change nothing. These are the project submission, the standup form and the chart-card forms.
- The matching modal is not part of this model.
- Dialog open and close flags of the admin dashboard are left out. The model gives the resulting list only.
- `new Date(s)`, `format(d, "PPP")`, `toDateString`, `toLocaleString` and `new Date()` are foreign. They are parameters, or the opaque `DateValue` and `Instant`.
- `Js.ParseInt` skips leading whitespace handling and radix prefixes. The forms feed it select values and typed cohort numbers.
- `Js.NumberOf` reads only digit strings, the empty string and `null`. Signs, decimals, exponents and whitespace give NaN here. Every value the dialogs feed it is a rating option.
- `Js.Lower` lower-cases only ASCII letters. Full Unicode case mapping is left out.
- `Js.Num` holds integers and NaN only. Fractional numbers and float rounding are left out, because every number the handlers see comes from `parseInt` or `Number` of integer text.
- A key present with the value `undefined` in a spread payload is modelled as an absent key (`None`). The two differ only by overwriting a field with `undefined`.
- `MentorDashboard.OnProjectDialogSubmit`: a status text outside the union has no value in the model, and the result is then `None`. The empty text of an unpicked status is one such text. The source stores that text through its `!` cast.
- `Entities.ScheduledInterview`: `interviewDate` is declared required in types/dashboard.d.ts:8-15, but the scheduling handler stores records without it. The model follows the handler.
- The evaluation dialog's default values, which pre-select options, are not modelled separately. The snapshot parameter `raw` covers whatever each field holds at submit time.
- AdminDashboard.WorkshopFormSubmit: as rendered, no button submits the workshop forms, so this handler is modelled for a form that is submitted. It takes the five values as texts and a `WorkshopType`. A `null` value, or a type text outside the union that the `as` cast would let through, is not stored in a `Workshop`; `AdminDashboard.ReadWorkshopForm` gives no payload for them instead.
- Ids are not unique. Every handler is stated for any number of entries with the id, and the collision lemmas show how duplicates arise.
- The weekly dialog renders no status field, so `formData.get("status")` gives `null` (components/dashboard/EvaluationDialog.tsx:76-88). The model's `None` stands for it.

## Findings

| source | as written | input that shows it | evidently intended | confidence | as-written member | corrected member |
|---|---|---|---|---|---|---|
| components/dashboards/admin-dashboard/AdminDashboard.tsx:231-238 | the workshop forms give their controls an `id` but no `name` (lines 652-692 and 756-801), so every `formData.get` of the submit handler returns `null`; besides, the forms have no submit button (their only buttons, lines 694 and 803, are `type="button"`), so the handler is never reached as rendered | a form whose handler did run, which needs a submit button first: the appended workshop would have `null` title, type, date, time and location | a submit button and controls named `title`, `type`, `date`, `time` and `location`, so the workshop holds what was entered | not executed; high, since a control without a name is not part of a form's data | AdminDashboard.RenderedWorkshopFormReadsNull | AdminDashboard.NamedWorkshopFormAdds |
