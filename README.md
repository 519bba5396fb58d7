# CareerConnect Lesotho — a Dafny model of the page logic

CareerConnect Lesotho is a web front end with four kinds of users:
- students apply to courses at institutions and for jobs at companies;
- institutions manage courses and admissions;
- companies post jobs;
- administrators approve institutions and companies.

This project models the decisions the pages make in the browser:
- who may open which page (the route guard, the header's dashboard link, where a new account is sent);
- whether a student meets a course's or a job's requirements, and the two-applications-per-institution cap;
- the grade sheet: its rows, the projected GPA, and what is sent on submit;
- the forms of the institution, company and administrator pages, and the payloads built from them;
- the status badges, the actions each status offers, and the lifecycle of an approved organisation;
- the figures the dashboards and the reports page show, and the student dashboard's notification counter.

The model takes the form of the code it follows:
- Pure helpers (status colours, requirement checks, payload builders) are Dafny functions with lemmas about them.
- Page state that handlers replace step by step is a `class` whose methods update its fields:
  - the grade rows (`GradeEntry.GradeForm`);
  - the experience entries (`StudentProfile.ExperienceEditor`);
  - the applied and saved job ids (`JobApplications.JobLists`);
  - the notification panel (`StudentDashboard.NotificationPanel`).

Values from the browser are handled as follows:
- A value JavaScript treats as falsy (`undefined`, `null`, `''`, `0`, `NaN`) is `None` or the empty string.
- A numeric field the course and job pages compare is an `Option<Numbers.JsNumber>`: `None` when the raw value is falsy, `Some(x)` when it is truthy, where `x` is its number, `Num(v)` or `NaN`. Comparisons follow JavaScript, so every `<` or `>=` with `NaN` is false.
- `Number(x)` and `parseFloat(x)` on form text are a parameter of type `Text.NumberParser`; `None` stands for `NaN`.
- A server reply is a parameter. A failed request is a `bool` or a `Failed` value.

Shared modules:
- `Wrappers`: `Option` and `Result`.
- `Numbers`: JavaScript numbers with `NaN`, and the `<` and `>=` comparisons.
- `Text`: lower-casing, trimming, `includes`, `split` and `join`.
- `Lists`: `filter`, `map`, `[...new Set(...)]`, and removal by index.
- `Forms`: the two-level form objects with `requirements.X` fields.
- `Statuses`: the badge classes and the status filter.
- `OrgApproval`: the shared approval lifecycle of the two administrator pages.

## Model

| member | source | states |
|---|---|---|
| AppRoutes.Guard | src/App.js:46-58 | no user is sent to `/login`; a user whose role is not in the allowed list is sent to `/`; the page is shown exactly when there is a user and either no list or the role is in it; every redirect goes to one of those two pages |
| AppRoutes.GuardCases | src/App.js:49-55 | no user goes to `/login` whatever the list; an absent list admits any user; an empty list admits nobody |
| AppRoutes.RouteOf | src/App.js:74-178 | the route found has the path asked for and is one of the declared protected routes; no route means no protected route has that path |
| AppRoutes.FirstRoute | src/App.js:74-178 | a match carries the requested path and comes from the table searched; no match means no route in it has that path |
| AppRoutes.Resolve | src/App.js:67-182 | the three public pages always render; an undeclared path redirects to `/` (the catch-all route); a protected path is decided by the guard with that route's roles |
| AppRoutes.StudentRoutesInArea | src/App.js:74-103 | every student route lies under `/student/` and admits exactly the student role |
| AppRoutes.InstitutionRoutesInArea | src/App.js:106-135 | every institution route lies under `/institution/` and admits exactly the institution role |
| AppRoutes.CompanyRoutesInArea | src/App.js:138-157 | every company route lies under `/company/` and admits exactly the company role |
| AppRoutes.AdminRoutesInArea | src/App.js:160-178 | every administrator route lies under `/admin/` and admits exactly the admin role |
| AppRoutes.GroupAdmitsOneRole | src/App.js:74-178 | a group of routes inside one role's area admits one role per route, and that role is the area's |
| AppRoutes.AllAdmitOneRoleConcat | src/App.js:74-178 | joining route groups that each admit one role per route keeps that property |
| AppRoutes.RoutesAdmitOneRole | src/App.js:74-178 | every protected route admits exactly one role, the one whose area holds its path |
| AppRoutes.AreasDisjoint | src/App.js:74-178 | no path lies in the areas of two different roles |
| AppRoutes.FirstRouteAdmits | src/App.js:74-178 | in a table of one-role routes, a declared path is found, is not public, and admits a role exactly when it lies in that role's area |
| AppRoutes.ProtectedAccess | src/App.js:74-178 | a signed-in user sees a protected page exactly when the path lies in the area of the user's role; a visitor is sent to `/login` |
| AppRoutes.InGroup | src/App.js:74-178 | a route of any role's group is a protected route |
| AppRoutes.DashboardPathsSpelled | src/App.js:74 | the four dashboard paths are `/student/dashboard`, `/institution/dashboard`, `/company/dashboard` and `/admin/dashboard` |
| AppRoutes.DashboardDeclared | src/App.js:74-178 | each role's dashboard is declared as a route for that role alone |
| AppRoutes.DashboardInArea | src/App.js:74-178 | a role's dashboard lies in another role's area exactly when the two roles are the same |
| AppRoutes.DashboardAdmitsItsRole | src/App.js:74-178 | every dashboard is a declared route and renders for a user exactly when the user has that dashboard's role |
| AppRoutes.UnknownRoleSeesNoProtectedPage | src/App.js:74-178 | a signed-in user whose role is none of the four is sent to `/` from every page that is not public |
| Header.DashboardLink | src/components/common/Header.js:14-24 | a visitor gets `#`; each of the four roles gets its dashboard; any other role gets `#` |
| Header.DashboardLinkValues | src/components/common/Header.js:14-24 | the link is one of five fixed strings |
| Header.DashboardLinkOpens | src/components/common/Header.js:14-24 | a link other than `#` opens a page the router shows to that user; the link is `#` exactly when there is no user or the role is unknown |
| Register.NavigateByRole | src/pages/Register.js:407-424 | each known role is sent to its dashboard and any other role to `/` |
| Register.NavigationAgreesWithHeader | src/pages/Register.js:407-424 | the page reached after registering is the header's dashboard link for that role, or `/` where the header shows `#` |
| Register.NavigationOpens | src/pages/Register.js:407-424 | the page a role is sent to renders for a user with that role, so the user is not redirected again |
| Register.AdditionalData | src/pages/Register.js:437-447 | a student sends `phone` and `address`; an institution sends its address as `location` and `type` `university`; a company sends its phone as `industry` and its address as `location`; other roles send nothing; no other value is ever sent |
| Register.AdminSendsNoData | src/pages/Register.js:437-447 | an administrator's extra data is empty |
| Register.RegisterRequest | src/pages/Register.js:449-455 | the request carries the typed email, password, name and role, with the role's extra data |
| Register.AfterRegister | src/pages/Register.js:458-462 | the user is sent to a page exactly in development mode or when the account is already verified, and then to the page for the role the server returned; otherwise the code must be entered |
| Register.RegisteredUserLands | src/pages/Register.js:458-462 | when verification is skipped, the page reached renders for the new user |
| Register.AfterVerification | src/pages/Register.js:478 | the role the server returned decides the page, and the role on the form does when the server returned none |
| Register.VerifiedUserLands | src/pages/Register.js:478 | with the signed-in user kept from registration (`src/context/AuthContext.js:76` keeps it on verification), the dashboard reached renders exactly when the kept role is the role the page was chosen for; a role that is none of the four lands on `/`, which always renders |
| Register.LoginBody | src/context/AuthContext.js:15-21 | the login body always carries the `email` argument as given, carries `password` exactly when one is passed, and has no other key |
| Register.DevBypassLoginLosesCredentials | src/pages/Register.js:503-506 | the login the development bypass makes, as written, sends no `password` key and an `email` that is not the typed address |
| Register.DevBypassLoginSendsCredentials | src/pages/Register.js:503-506 | the corrected bypass login sends exactly the typed address and password under `email` and `password` |
| Register.ErrorMessage | src/pages/Register.js:464 | the server's error wins, then the error's own message, then the page's fallback; a non-empty fallback means the message shown is never empty |
| Text.Lower | src/pages/Student/CourseApplication.js:78 | the lower-cased string has the same length and lower-cases each letter in place |
| Text.Trim | src/pages/Company/PostJob.js:56 | the trimmed string neither starts nor ends with white space, holds only characters of the input, and is empty exactly when the input is all white space |
| Text.TrimIdempotent | src/pages/Company/PostJob.js:56 | trimming twice is trimming once |
| Text.ContainsIff | src/pages/Student/JobApplications.js:61 | `includes` holds exactly when the needle occurs at some position |
| Text.Split | src/pages/Company/PostJob.js:56 | splitting gives one piece more than there are separators, and no piece holds the separator |
| Text.JoinSplit | src/pages/Company/PostJob.js:56 | joining the pieces of a split gives back the string |
| Text.SplitJoin | src/pages/Company/PostJob.js:56 | splitting a join of separator-free pieces gives back the pieces |
| Text.OrElse | src/pages/Admin/ManageInstitutions.js:105 | `a \|\| b` on text: a non-empty `a` is kept, otherwise `b` |
| Numbers.LessAtLeast | src/pages/Student/CourseApplication.js:73-88 | JavaScript's `<` and `>=` never both hold, and both fail exactly when one side is `NaN` |
| Lists.Dedup | src/pages/Student/JobApplications.js:91 | the result has no duplicates and holds exactly the input's elements |
| Lists.DedupAppend | src/pages/Student/JobApplications.js:91 | after appending a new element, de-duplicating adds it once at the end; after appending a known one, de-duplicating gives what it gave before |
| Lists.RemoveAt | src/pages/Student/GradeEntry.js:34 | filtering out an index in range drops exactly that element; an index out of range leaves the list as it was |
| Lists.FilterPartition | src/pages/Student/Admissions.js:72-73 | filtering by a predicate and by its negation splits a list into two parts whose lengths and multisets add up to the list's |
| Forms.Update | src/pages/Company/PostJob.js:29-47 | a `requirements.X` name changes only requirement X; any other name changes only that top-level field |
| Forms.UpdateRequirement | src/pages/Institution/ManageCourses.js:128-137 | writing `requirements.X` sets X in the requirements and leaves everything else as it was |
| Forms.RequirementKeyOf | src/pages/Institution/ManageCourses.js:130 | the field named after `requirements.` is read back exactly, for any name without a dot |
| Statuses.StatusQuery | src/pages/Institution/StudentApplications.js:19 | the filter `all` sends no status; any other filter is sent as the status |
| Statuses.StatusQueryInjective | src/pages/Admin/ManageInstitutions.js:49 | different filters never send the same query |
| CourseApplication.Remaining | src/pages/Student/CourseApplication.js:175 | the count shown is at most 2, and it is positive exactly when the student may still apply there |
| CourseApplication.CanApplyTo | src/pages/Student/CourseApplication.js:65-68 | a student with no application at an institution may apply there; a refusal means some application names it |
| CourseApplication.CanApplyIff | src/pages/Student/CourseApplication.js:61-68 | a student may apply exactly when no two of their applications are at that institution |
| CourseApplication.CanApplyIgnoresStatus | src/pages/Student/CourseApplication.js:61-68 | the cap counts applications whatever their status or course |
| CourseApplication.FindGrade | src/pages/Student/CourseApplication.js:78 | no grade is found exactly when no grade's subject equals the required one ignoring case; otherwise the first such grade is returned |
| CourseApplication.FirstUnmet | src/pages/Student/CourseApplication.js:93-98 | nothing is returned exactly when every required subject is met; otherwise the first subject not met, all before it met |
| CourseApplication.GpaCases | src/pages/Student/CourseApplication.js:73-88 | the GPA test of the check passes exactly when the test of the reason does not fire and neither side is `NaN`; the reason test never fires on `NaN` |
| CourseApplication.Meets | src/pages/Student/CourseApplication.js:70-83 | a met course has a loaded profile, passes the GPA test and meets every required subject |
| CourseApplication.RequirementReason | src/pages/Student/CourseApplication.js:85-101 | without a profile the reason is the loading notice, and only then |
| CourseApplication.NotMetWhileLoading | src/pages/Student/CourseApplication.js:71 | while the profile is loading, no course is met and the reason is the loading notice |
| CourseApplication.MeetsIff | src/pages/Student/CourseApplication.js:70-83 | a course is met exactly when there is a profile, the GPA is at least a set minimum (false on `NaN`), and the first grade for each required subject is not below the minimum subject grade (a `NaN` grade or minimum passes) |
| CourseApplication.AllSubjectsMetIff | src/pages/Student/CourseApplication.js:75-81 | every required subject is met exactly when, for each, the first grade in that subject is not below the minimum |
| CourseApplication.FirstMatchUnique | src/pages/Student/CourseApplication.js:78 | the grade found is the one at the first index whose subject matches |
| CourseApplication.NoRequirementsMet | src/pages/Student/CourseApplication.js:72-82 | with a profile, a course with no minimum GPA JavaScript treats as set and no required subjects is met, and no reason is shown |
| CourseApplication.MissingSubjectFails | src/pages/Student/CourseApplication.js:79 | a required subject the student has no grade for fails the course |
| CourseApplication.ReasonAgreesWithMeets | src/pages/Student/CourseApplication.js:85-101 | a met course shows no reason; unless the GPA comparison involves `NaN`, no reason is shown exactly when the course is met; a GPA below the minimum gives the GPA reason; a subject reason names the first subject not met |
| CourseApplication.UndecidedGpaNotMet | src/pages/Student/CourseApplication.js:70-101 | when the GPA comparison involves `NaN` the course is not met, and the reason is empty (so the generic message shows) exactly when every required subject is met |
| CourseApplication.ApplyEnabled | src/pages/Student/CourseApplication.js:201-209 | the button is disabled while submitting and before the profile loads; when enabled, the institution has a free slot and no application names this course there |
| CourseApplication.EnabledApplyKeepsCap | src/pages/Student/CourseApplication.js:201-209 | applying through an enabled button never lets a student exceed two applications at one institution, and never duplicates a course |
| JobApplications.Certificates | src/pages/Student/JobApplications.js:27 | the documents kept are exactly those typed `certificate` or `diploma`, ignoring case |
| JobApplications.Meets | src/pages/Student/JobApplications.js:40-86 | a qualifying student has a loaded profile and every required certificate on file |
| JobApplications.MeetsIff | src/pages/Student/JobApplications.js:40-86 | a job is met exactly when there is a profile, neither the GPA nor the summed experience years is below a set minimum (so `NaN` passes), each required certificate occurs in some certificate file name, and each keyword occurs in the skills text, all ignoring case |
| JobApplications.NaNGpaPasses | src/pages/Student/JobApplications.js:43-46 | a GPA that is not a number is judged as if the job had no GPA minimum |
| JobApplications.CertificateOnFileIff | src/pages/Student/JobApplications.js:55-64 | a required certificate is on file exactly when an uploaded document typed `certificate` or `diploma` has a file name containing it; no other document counts |
| JobApplications.NoRequirementsQualifies | src/pages/Student/JobApplications.js:40-86 | a job with no minimums, certificates or keywords is met by any profile |
| JobApplications.TotalYearsIgnoresNonNumeric | src/pages/Student/JobApplications.js:48-50 | experience entries whose years are not a number add nothing to the total |
| JobApplications.KeywordInSkills | src/pages/Student/JobApplications.js:72-79 | a keyword found in the skills field is found in the skills text |
| JobApplications.WithId | src/pages/Student/JobApplications.js:91 | the new list holds exactly the old ids and the added one, without duplicates |
| JobApplications.WithIdAdds | src/pages/Student/JobApplications.js:91 | the added id is present exactly once, and adding it again changes nothing |
| JobApplications.JobLists.constructor | src/pages/Student/JobApplications.js:28-29 | the lists start as the server returned them |
| JobApplications.JobLists.ApplyToJob | src/pages/Student/JobApplications.js:88-95 | a successful apply adds the id to the applied list without duplicates; a failed one changes nothing; the saved list never changes |
| JobApplications.JobLists.SaveJob | src/pages/Student/JobApplications.js:97-104 | a successful save adds the id to the saved list without duplicates; a failed one changes nothing; the applied list never changes |
| JobApplications.ApplyDisabled | src/pages/Student/JobApplications.js:179 | the apply button is disabled without a profile and for a job already applied to; when enabled, every required certificate is on file |
| JobApplications.SaveDisabled | src/pages/Student/JobApplications.js:186 | no job is saved-disabled on an empty list; saving an enabled job keeps a duplicate-free list duplicate-free |
| JobApplications.DisabledAfterApply | src/pages/Student/JobApplications.js:179 | once a job's id is in the applied list, its apply button is disabled |
| GradeEntry.IsValid | src/pages/Student/GradeEntry.js:46-48 | a valid row has a non-negative grade, and a row whose subject is blank is never valid |
| GradeEntry.ValidRows | src/pages/Student/GradeEntry.js:46-48 | the rows kept are exactly the valid ones |
| GradeEntry.ProjectedGpa | src/pages/Student/GradeEntry.js:45-54 | with no valid row the projection is 0; otherwise it lies between the smallest and largest valid grade |
| GradeEntry.MinGrade | src/pages/Student/GradeEntry.js:52-53 | the smallest grade among the rows: no row is below it and some row has it |
| GradeEntry.MaxGrade | src/pages/Student/GradeEntry.js:52-53 | the largest grade among the rows: no row is above it and some row has it |
| GradeEntry.TotalBounds | src/pages/Student/GradeEntry.js:52 | a sum of grades that all lie in a range lies between count times its bounds |
| GradeEntry.MeanBetween | src/pages/Student/GradeEntry.js:53 | an average of values in a range lies in the range |
| GradeEntry.MeanWithin | src/pages/Student/GradeEntry.js:52-53 | the mean of grades that all lie in a range lies in the range |
| GradeEntry.MeanOfRows | src/pages/Student/GradeEntry.js:52-53 | the mean of the rows lies between their smallest and largest grade |
| GradeEntry.ProjectedGpaIsMean | src/pages/Student/GradeEntry.js:45-54 | with no valid row the projected GPA is 0; otherwise it lies between the smallest and the largest valid grade; it is never negative |
| GradeEntry.Submit | src/pages/Student/GradeEntry.js:61-87 | submitting fails with the no-valid-grade message exactly when no row is valid; when it succeeds, it sends one grade per valid row |
| GradeEntry.SubmitAcceptedIff | src/pages/Student/GradeEntry.js:66-81 | a submission is accepted exactly when some row is valid and every row with a subject has a grade between 0 and 100 |
| GradeEntry.SubmittedGrades | src/pages/Student/GradeEntry.js:84-87 | each grade sent has the trimmed, non-empty subject of its valid row and that row's grade parsed, between 0 and 100 |
| GradeEntry.GradeForm.constructor | src/pages/Student/GradeEntry.js:7-9 | the sheet opens with one blank row |
| GradeEntry.GradeForm.AddRow | src/pages/Student/GradeEntry.js:28-30 | a blank row is appended |
| GradeEntry.GradeForm.RemoveRow | src/pages/Student/GradeEntry.js:32-37 | with more than one row, an index in range removes exactly that row; otherwise nothing changes, so the sheet never becomes empty |
| GradeEntry.GradeForm.UpdateRow | src/pages/Student/GradeEntry.js:39-43 | the field named in the row at that index takes the new value; every other row and field stays |
| PostJob.ParseList | src/pages/Company/PostJob.js:55-60 | an empty input gives no entries; there is at most one entry more than commas; every entry is non-empty, trimmed and comma-free |
| PostJob.ParseListIsPieces | src/pages/Company/PostJob.js:55-57 | the guard for the empty string agrees with splitting it |
| PostJob.ParseListConcat | src/pages/Company/PostJob.js:56 | a list is read entry by entry: the text before the first comma, then the list read from the rest |
| PostJob.ParseListJoin | src/pages/Company/PostJob.js:56 | entries that are non-empty, trimmed and comma-free, typed joined by commas, read back as exactly those entries |
| PostJob.Pieces | src/pages/Company/PostJob.js:56 | there are no more pieces than parts of the split, and none is empty |
| PostJob.PiecesClean | src/pages/Company/PostJob.js:56 | each piece kept is trimmed and comma-free |
| PostJob.TrimmedPart | src/pages/Company/PostJob.js:56 | trimming a comma-free piece gives a comma-free piece that trimming no longer changes |
| PostJob.ToNumeric | src/pages/Company/PostJob.js:64-65 | an empty input is sent as blank, and any other input as its conversion to a number |
| PostJob.BuildPayload | src/pages/Company/PostJob.js:53-73 | the other top-level fields are copied as typed; each numeric minimum is its input converted (blank exactly when left empty); the three text requirements are copied; the certificates and keywords are their inputs read as comma-separated lists, so non-empty, comma-free entries |
| PostJob.PayloadListsRoundTrip | src/pages/Company/PostJob.js:53-60 | certificates and keywords typed as clean entries joined by commas are sent as exactly those entries |
| PostJob.HandleChange | src/pages/Company/PostJob.js:29-47 | a `requirements.X` input changes only the requirements; any other input changes only the top level |
| PostJob.HandleChangeRequirement | src/pages/Company/PostJob.js:32-40 | typing into `requirements.X` sets X, keeps every other requirement and leaves the top level alone |
| StudentProfile.Normalise | src/pages/Student/StudentProfile.js:97-102 | a saved entry has exactly the four fields, each the entry's value or blank |
| StudentProfile.Normalised | src/pages/Student/StudentProfile.js:97-102 | the saved list has one normalised entry per entry |
| StudentProfile.NormaliseIdempotent | src/pages/Student/StudentProfile.js:97-102 | normalising twice is normalising once, and a complete entry is unchanged |
| StudentProfile.NormaliseEdited | src/pages/Student/StudentProfile.js:68-82 | entries made by the editor (blank entries, and complete entries with one field edited) are saved unchanged |
| StudentProfile.ExperienceEditor.constructor | src/pages/Student/StudentProfile.js:49 | the editor starts with the stored list, or empty when none is stored |
| StudentProfile.ExperienceEditor.Add | src/pages/Student/StudentProfile.js:68-73 | a blank entry is appended |
| StudentProfile.ExperienceEditor.Update | src/pages/Student/StudentProfile.js:75-82 | the entry at the index gets the field set; every other entry stays |
| StudentProfile.ExperienceEditor.Remove | src/pages/Student/StudentProfile.js:84-87 | an index in range removes exactly that entry; an index out of range changes nothing |
| StudentProfile.SubmitDocument | src/pages/Student/StudentProfile.js:125-130 | a document without a file name is refused with the fixed message, and only then; otherwise the form is sent as it is |
| StudentProfile.AdditionalDocuments | src/pages/Student/StudentProfile.js:421 | the section lists exactly the documents typed `additional` |
| StudentProfile.AcademicDocuments | src/pages/Student/StudentProfile.js:453 | the section lists exactly the documents typed `transcript`, `certificate` or `diploma` |
| StudentProfile.SectionsDisjoint | src/pages/Student/StudentProfile.js:421-453 | no document is listed in both the additional and the academic section, and documents typed `other` are listed in neither |
| ManageCourses.OpenEditForm | src/pages/Institution/ManageCourses.js:92-107 | the edit form has the fields of the blank form; each of the five course fields and the three requirements is the stored value, or blank (an empty list for the subjects) when absent |
| ManageCourses.OpenEditEmptyIsBlank | src/pages/Institution/ManageCourses.js:92-107 | editing a course with nothing stored opens the blank form |
| ManageCourses.AfterAdd | src/pages/Institution/ManageCourses.js:72-83 | after a course is added the form is exactly the blank form; after a failure it is kept |
| ManageCourses.HandleFormChange | src/pages/Institution/ManageCourses.js:128-144 | a `requirements.X` field changes only the requirements; any other field changes only the top level |
| ManageCourses.HandleFormChangeOnlyTouchesField | src/pages/Institution/ManageCourses.js:128-144 | exactly the named field takes the new value and every other field keeps its own |
| ManageCourses.ToggleSubject | src/pages/Institution/ManageCourses.js:341-346 | a checkbox changes only the required-subject list, by appending the subject or filtering it out |
| ManageCourses.UncheckRemoves | src/pages/Institution/ManageCourses.js:345 | unchecking removes every copy of the subject, keeps all other subjects, and works piece by piece |
| ManageCourses.CheckThenUncheck | src/pages/Institution/ManageCourses.js:343-345 | checking a new subject and then unchecking it restores the list |
| ManageInstitutions.OpenEditForm | src/pages/Admin/ManageInstitutions.js:97-110 | the edit form has the seven fields, a blank password, and the contact email falling back to the login email |
| ManageInstitutions.UpdatePayload | src/pages/Admin/ManageInstitutions.js:118-121 | the update never sends a password and sends every other field as typed |
| ManageInstitutions.EditRoundTrip | src/pages/Admin/ManageInstitutions.js:97-121 | the form's contact email is non-empty whenever either email was stored, and saving the form unchanged sends every field but the password |
| Admissions.StatusColor | src/pages/Student/Admissions.js:27-40 | admitted and accepted are green, rejected and declined red, waiting list amber, anything else the info colour |
| Admissions.StatusText | src/pages/Student/Admissions.js:42-52 | pending reads `Under Review`; an unknown status is shown as it is |
| Admissions.StatusTextDistinct | src/pages/Student/Admissions.js:42-52 | no two known statuses share a label |
| Admissions.PartitionOfApplications | src/pages/Student/Admissions.js:72-73 | the offers and the other applications split the list: lengths and multisets add up, each application is in exactly one, and the split works piece by piece |
| Admissions.OfferActions | src/pages/Student/Admissions.js:83-107 | an application has accept and decline buttons exactly when it is admitted |
| Admissions.OfferActionsOnlyForOffers | src/pages/Student/Admissions.js:83-107 | every offer has both buttons and no other application has any |
| StudentApplications.DecisionTargets | src/pages/Institution/StudentApplications.js:112-136 | a pending application can be admitted, rejected or wait-listed; any other has no action |
| StudentApplications.StatusColor | src/pages/Institution/StudentApplications.js:42-49 | admitted green, rejected red, waiting list amber, anything else the info colour |
| StudentApplications.DecisionIsFinal | src/pages/Institution/StudentApplications.js:112-139 | a decision leads to a status offering no further decision, and `Decision made` is shown exactly when no action is offered |
| StudentApplications.ColoursAgreeWithStudentPage | src/pages/Institution/StudentApplications.js:42-49 | the institution's and the student's pages colour the statuses an institution can set the same way |
| OrgApproval.Transitions | src/pages/Admin/ManageInstitutions.js:309-344 | pending can be approved or rejected, approved suspended, suspended re-approved; rejected and unknown statuses offer nothing |
| OrgApproval.StatusColor | src/pages/Admin/ManageCompanies.js:56-64 | approved green, pending amber, suspended and rejected red, anything outside the lifecycle the info colour |
| OrgApproval.TransitionsShape | src/pages/Admin/ManageCompanies.js:131-166 | no action leads back to pending or stays put, and every target is in the lifecycle |
| OrgApproval.RunsStayInLifecycle | src/pages/Admin/ManageCompanies.js:131-166 | any run of actions from a lifecycle status stays in the lifecycle, never returns to pending, and stops at rejected |
| OrgApproval.ApprovedRunsAlternate | src/pages/Admin/ManageInstitutions.js:327-344 | from approved, actions alternate between approved and suspended |
| SystemReports.Stats | src/pages/Admin/SystemReports.js:61-67 | each role count is at most the number of users |
| SystemReports.VerifiedSplit | src/pages/Admin/SystemReports.js:65-66 | verified plus unverified is every user |
| SystemReports.DisplayedTotal | src/pages/Admin/SystemReports.js:82 | the total is at least each of the three role counts, and 0 exactly when all three are |
| SystemReports.DisplayedTotalExcludesOthers | src/pages/Admin/SystemReports.js:82 | the total shown plus the users of other roles is every user, so an administrator makes it smaller than the user count |
| SystemReports.RecentUsers | src/pages/Admin/SystemReports.js:138 | the first ten users, or all when there are fewer, in order |
| SystemReports.PublishMessage | src/pages/Admin/SystemReports.js:46 | `open` reads as opened and any other action as closed |
| SystemReports.InstitutionArgument | src/pages/Admin/SystemReports.js:45 | no institution is passed exactly when none is selected, otherwise the selected one |
| StudentDashboard.ApplicationCount | src/pages/Student/StudentDashboard.js:25 | the number of applications, or 0 when the list is missing |
| StudentDashboard.ShownGpa | src/pages/Student/StudentDashboard.js:26 | a GPA that is set is shown as it is, and the text shown is never empty |
| StudentDashboard.FirstFive | src/pages/Student/StudentDashboard.js:37 | at most five notifications, the first ones in order, and five whenever there are that many |
| StudentDashboard.Loaded | src/pages/Student/StudentDashboard.js:30-43 | a failure leaves a zero counter and an empty panel; otherwise the counter is the unread count and the panel the first five |
| StudentDashboard.MarkedRead | src/pages/Student/StudentDashboard.js:57-59 | the notification with that id is read and every other is unchanged |
| StudentDashboard.MarkedReadIdempotent | src/pages/Student/StudentDashboard.js:57-59 | marking twice is marking once |
| StudentDashboard.CounterAfterClick | src/pages/Student/StudentDashboard.js:60 | the counter goes down by one and never below zero |
| StudentDashboard.NotificationPanel.constructor | src/pages/Student/StudentDashboard.js:30-43 | the panel starts as loaded |
| StudentDashboard.NotificationPanel.MarkAsRead | src/pages/Student/StudentDashboard.js:54-64 | a click on a listed notification, when accepted, marks it read and lowers the counter; with distinct ids the counter minus the unread notifications listed stays the same; a refused click changes nothing |
| StudentDashboard.ShownUnread | src/pages/Student/StudentDashboard.js:133 | at most five notifications are listed, all unread and from the loaded list, and at least one when any is unread |
| StudentDashboard.OfferedIsUnread | src/pages/Student/StudentDashboard.js:133-144 | a notification that can be clicked is an unread one of the loaded list |
| StudentDashboard.CounterTracksList | src/pages/Student/StudentDashboard.js:54-64 | with distinct ids, clicking a listed notification keeps the counter exactly as far above the number of unread notifications listed as it was |
| StudentDashboard.UnreadAfterMark | src/pages/Student/StudentDashboard.js:57-59 | marking an unread notification read lowers the unread count shown by exactly one |
| CompanyDashboard.JobsOf | src/pages/Company/CompanyDashboard.js:22 | a missing job list is read as empty |
| CompanyDashboard.TotalApplicants | src/pages/Company/CompanyDashboard.js:23 | the total is 0 when no job has applicants, and a positive total has some job with applicants |
| CompanyDashboard.TotalApplicantsConcat | src/pages/Company/CompanyDashboard.js:23 | the applicant total of two lists is the sum of their totals |
| CompanyDashboard.TotalApplicantsBounds | src/pages/Company/CompanyDashboard.js:23 | no job has more applicants than the total |
| CompanyDashboard.JobsCount | src/pages/Company/CompanyDashboard.js:26 | a non-empty list counts its jobs; an empty one falls back to the profile's count, or 0 |
| CompanyDashboard.ActiveJobs | src/pages/Company/CompanyDashboard.js:30 | at most all jobs are active, and all are exactly when every job's status is active |
| InstitutionDashboard.CountOf | src/pages/Institution/InstitutionDashboard.js:23-24 | a missing list counts 0, otherwise its length |
| InstitutionDashboard.PendingApplications | src/pages/Institution/InstitutionDashboard.js:25 | the pending count is at most the applications count, and 0 exactly when none is pending |
| InstitutionDashboard.AdmissionsTile | src/pages/Institution/InstitutionDashboard.js:79-80 | the tile reads `Open` in the success colour exactly when admissions are open, otherwise `Closed` in the warning colour |

## Left out

- Number conversion: which strings `Number` and `parseFloat` accept is not modelled; form text goes through an oracle parameter, and stored values carry their number (`Numbers.JsNumber`) directly. Infinities are not modelled.
- Number formatting: `toFixed(2)` is not modelled. GPAs are exact rationals and the text shown is not.
- Text: only ASCII letters are lower-cased, and trimming uses the ASCII white space plus NBSP and BOM, not every Unicode space.
- Asynchrony: the requests, the loading flags, `setTimeout`, console logging and the order of asynchronous updates are left out. A failed request is a parameter.
- Server side: what the server does on receiving a request is not part of this model. That includes the real admission cap, cascading deletes, the waiting list and scoring.
- CourseApplication.RequirementReason: a datatype names the reason. The exact wording, and the GPA printed with `toFixed`, are not modelled.
- StudentProfile: `handleFileSelect` and the profile form's `handleChange` are not modelled. They only copy an input into state.
- Register: the form's `handleChange` is not modelled, for the same reason.
- Register: the `dev-verify` request of the development bypass and the server's answer to its login are not modelled; only the login body it sends is. A failure is a message parameter of `Register.ErrorMessage`.
- Login and Home: their redirects are not part of this model. Neither is the date helper.
- GradeEntry.GradeForm.UpdateRow: requires an index in range. Out of range, the JavaScript throws on the missing row.
- StudentProfile.ExperienceEditor.Update: requires an index in range. Out of range, the JavaScript writes a new, sparse entry.
- AppRoutes: a role is a string, so a user whose role is `undefined` is read as an unknown role.
- AppRoutes.Resolve: matches paths exactly. React Router's parameters and trailing slashes are not modelled, and the catch-all route is read as "any other path".
- StudentDashboard.NotificationPanel.MarkAsRead: requires a positive counter and a listed notification, because the page offers the click only on the unread notifications it lists while the counter is positive; its counter promise also assumes distinct notification ids.
- Statuses: a badge class is its text. Styling is not modelled.

## Findings

| source | as written | input that shows it | evidently intended | confidence | as-written member | corrected member |
|---|---|---|---|---|---|---|
| src/pages/Register.js:503-506 | the development bypass calls `login` with one object holding both credentials, while `login(email, password)` at `src/context/AuthContext.js:15-21` takes them as two arguments | any form: the login body is `{"email": {"email": …, "password": …}}` with no `password` key | `login(formData.email, formData.password)` | high, not executed | Register.DevBypassLoginLosesCredentials | Register.DevBypassLoginSendsCredentials |
