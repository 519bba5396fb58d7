/**
 * The course-application page of a student: which courses the student may
 * apply to. A student holds at most two applications per institution, and a
 * course may ask for a minimum GPA and for minimum grades in named subjects.
 *
 * A numeric field is an `Option<JsNumber>`: `None` is a value JavaScript
 * treats as false (absent, `0`, `''`, `NaN`), and `Some(x)` a value it treats
 * as true whose `Number(...)` is `x` (which may be `NaN`, or `0` for the
 * string `"0"`).
 */
module CourseApplication {
  import opened Wrappers
  import opened Text
  import opened Lists
  import opened Numbers

  datatype Application = Application(institutionId: string, courseId: string, status: string)

  /** The loaded student record; only its GPA is read here. */
  datatype Profile = Profile(gpa: Option<JsNumber>)

  /** One of the student's grades, as fetched with the profile. */
  datatype StudentGrade = StudentGrade(subject: Option<string>, grade: Option<JsNumber>)

  /** `requiredSubjects` is `None` when the stored value is not an array. */
  datatype Requirements = Requirements(
    minGPA: Option<JsNumber>,
    requiredSubjects: Option<seq<string>>,
    minSubjectGrade: Option<JsNumber>)

  datatype Course = Course(id: string, requirements: Option<Requirements>)

  /** Why the page says a course is out of reach; `NoReason` is the empty
      string. The GPA case carries the required and the student's GPA, the
      subject case the subject and the minimum grade it quotes. */
  datatype Reason =
    | LoadingProfile
    | GpaTooLow(required: real, yours: real)
    | SubjectTooLow(subject: string, minGrade: JsNumber)
    | NoReason

  const Cap: nat := 2

  // ------------------------------------------------------ the 2-per-institution cap

  function AtInstitution(institutionId: string): Application -> bool {
    (app: Application) => app.institutionId == institutionId
  }

  function ApplicationsAt(apps: seq<Application>, institutionId: string): seq<Application> {
    Filter(AtInstitution(institutionId), apps)
  }

  /** `canApplyToInstitution`: fewer than two applications there. */
  predicate CanApplyTo(apps: seq<Application>, institutionId: string)
    ensures (forall k :: 0 <= k < |apps| ==> apps[k].institutionId != institutionId) ==>
      CanApplyTo(apps, institutionId)
    ensures !CanApplyTo(apps, institutionId) ==>
      exists k :: 0 <= k < |apps| && apps[k].institutionId == institutionId
  {
    FilterEmpty(AtInstitution(institutionId), apps);
    |ApplicationsAt(apps, institutionId)| < Cap
  }

  /** The number of further applications the page says are left. */
  function Remaining(apps: seq<Application>, institutionId: string): (r: int)
    ensures r <= Cap
    ensures r > 0 <==> CanApplyTo(apps, institutionId)
  {
    Cap - |ApplicationsAt(apps, institutionId)|
  }

  /** The cap counts applications of every status: a student may apply to an
      institution exactly when no two different applications of theirs name
      it. */
  lemma CanApplyIff(apps: seq<Application>, institutionId: string)
    ensures CanApplyTo(apps, institutionId) <==>
      !exists i, j :: 0 <= i < j < |apps| &&
        apps[i].institutionId == institutionId && apps[j].institutionId == institutionId
  {
    FilterAtLeastTwo(AtInstitution(institutionId), apps);
  }

  /** Changing the status of applications (say, rejecting one) never frees a
      slot. */
  lemma CanApplyIgnoresStatus(apps: seq<Application>, apps': seq<Application>, institutionId: string)
    requires |apps| == |apps'|
    requires forall k :: 0 <= k < |apps| ==> apps'[k].institutionId == apps[k].institutionId
    ensures CanApplyTo(apps, institutionId) == CanApplyTo(apps', institutionId)
  {
    CanApplyIff(apps, institutionId);
    CanApplyIff(apps', institutionId);
  }

  // ------------------------------------------------------ requirements

  /** A numeric field that JavaScript treats as false; its check is
      skipped. */
  predicate Unset(v: Option<JsNumber>) {
    v.None?
  }

  function ReqsOf(course: Course): Requirements {
    course.requirements.GetOr(Requirements(None, None, None))
  }

  /** The subjects to check: the list when it is a non-empty array. */
  function SubjectsOf(reqs: Requirements): seq<string> {
    if reqs.requiredSubjects.Some? && |reqs.requiredSubjects.value| > 0 then reqs.requiredSubjects.value else []
  }

  /** `Number(reqs.minSubjectGrade || 0)` */
  function MinSubjectGrade(reqs: Requirements): JsNumber {
    reqs.minSubjectGrade.GetOr(Num(0.0))
  }

  /** `Number(studentProfile.gpa || 0)` */
  function GpaOf(profile: Profile): JsNumber {
    profile.gpa.GetOr(Num(0.0))
  }

  /** The GPA test of `meetsCourseRequirements`: no minimum, or a GPA that
      is at least the minimum (false when either side is `NaN`). */
  predicate GpaOk(profile: Profile, reqs: Requirements) {
    Unset(reqs.minGPA) || AtLeast(GpaOf(profile), reqs.minGPA.value)
  }

  /** The GPA test of `requirementReason`: a minimum, and a GPA below it
      (false when either side is `NaN`). */
  predicate GpaShort(profile: Profile, reqs: Requirements) {
    !Unset(reqs.minGPA) && Less(GpaOf(profile), reqs.minGPA.value)
  }

  /** A minimum GPA is set but one side of the comparison is `NaN`: the
      course is not met, yet no GPA reason is given. */
  predicate GpaUndecided(profile: Profile, reqs: Requirements) {
    !Unset(reqs.minGPA) && (GpaOf(profile).NaN? || reqs.minGPA.value.NaN?)
  }

  /** The two GPA tests of the page are each other's negation except when
      the comparison involves `NaN`. */
  lemma GpaCases(profile: Profile, reqs: Requirements)
    ensures GpaOk(profile, reqs) <==> !GpaShort(profile, reqs) && !GpaUndecided(profile, reqs)
    ensures !(GpaShort(profile, reqs) && GpaUndecided(profile, reqs))
  {
  }

  predicate SameSubject(g: StudentGrade, subject: string) {
    Lower(g.subject.GetOr("")) == Lower(subject)
  }

  /** `studentGrades.find(...)`: the first grade whose subject equals
      `subject`, ignoring case. */
  function FindGrade(grades: seq<StudentGrade>, subject: string): (r: Option<StudentGrade>)
    ensures r.None? <==> forall k :: 0 <= k < |grades| ==> !SameSubject(grades[k], subject)
    ensures r.Some? ==>
      exists k :: 0 <= k < |grades| && grades[k] == r.value && SameSubject(grades[k], subject) &&
        forall j :: 0 <= j < k ==> !SameSubject(grades[j], subject)
    decreases |grades|
  {
    if grades == [] then None
    else if SameSubject(grades[0], subject) then Some(grades[0])
    else
      var r := FindGrade(grades[1..], subject);
      assert forall k :: 1 <= k < |grades| ==> grades[k] == grades[1..][k - 1];
      r
  }

  /** A required subject is met when a grade for it is found and that grade
      (missing counts as 0) is not below `minGrade`; a `NaN` on either side
      is never below, so it passes. */
  predicate SubjectMet(grades: seq<StudentGrade>, subject: string, minGrade: JsNumber) {
    var found := FindGrade(grades, subject);
    found.Some? && !Less(found.value.grade.GetOr(Num(0.0)), minGrade)
  }

  /** The `for ... of` loop: the first required subject that is not met. */
  function FirstUnmet(grades: seq<StudentGrade>, subjects: seq<string>, minGrade: JsNumber): (r: Option<nat>)
    ensures r.None? <==> forall k :: 0 <= k < |subjects| ==> SubjectMet(grades, subjects[k], minGrade)
    ensures r.Some? ==>
      && r.value < |subjects|
      && !SubjectMet(grades, subjects[r.value], minGrade)
      && forall k :: 0 <= k < r.value ==> SubjectMet(grades, subjects[k], minGrade)
    decreases |subjects|
  {
    if subjects == [] then None
    else if !SubjectMet(grades, subjects[0], minGrade) then Some(0)
    else
      var r := FirstUnmet(grades, subjects[1..], minGrade);
      assert forall k :: 1 <= k < |subjects| ==> subjects[k] == subjects[1..][k - 1];
      if r.None? then None else Some(r.value + 1)
  }

  /** `meetsCourseRequirements`: a met course has a loaded profile, passes
      the GPA test and meets every required subject. */
  predicate Meets(profile: Option<Profile>, grades: seq<StudentGrade>, course: Course)
    ensures Meets(profile, grades, course) ==> profile.Some? && GpaOk(profile.value, ReqsOf(course))
    ensures Meets(profile, grades, course) ==>
      forall s :: s in SubjectsOf(ReqsOf(course)) ==> SubjectMet(grades, s, MinSubjectGrade(ReqsOf(course)))
  {
    profile.Some? &&
    var reqs := ReqsOf(course);
    GpaOk(profile.value, reqs) &&
    FirstUnmet(grades, SubjectsOf(reqs), MinSubjectGrade(reqs)).None?
  }

  /** `requirementReason` */
  function RequirementReason(profile: Option<Profile>, grades: seq<StudentGrade>, course: Course): (r: Reason)
    ensures r == LoadingProfile <==> profile.None?
  {
    if profile.None? then LoadingProfile
    else
      var reqs := ReqsOf(course);
      if GpaShort(profile.value, reqs) then GpaTooLow(reqs.minGPA.value.value, GpaOf(profile.value).value)
      else
        var subjects := SubjectsOf(reqs);
        var unmet := FirstUnmet(grades, subjects, MinSubjectGrade(reqs));
        if unmet.Some? then SubjectTooLow(subjects[unmet.value], MinSubjectGrade(reqs))
        else NoReason
  }

  /** Before the profile has loaded nothing is met. */
  lemma NotMetWhileLoading(grades: seq<StudentGrade>, course: Course)
    ensures !Meets(None, grades, course)
    ensures RequirementReason(None, grades, course) == LoadingProfile
  {
  }

  /** The requirements as one statement: a loaded profile, the GPA check and
      every required subject met. */
  lemma MeetsIff(profile: Option<Profile>, grades: seq<StudentGrade>, course: Course)
    ensures Meets(profile, grades, course) <==>
      profile.Some? &&
      (Unset(ReqsOf(course).minGPA) || AtLeast(GpaOf(profile.value), ReqsOf(course).minGPA.value)) &&
      forall s :: s in SubjectsOf(ReqsOf(course)) ==>
        exists k :: 0 <= k < |grades| && SameSubject(grades[k], s) &&
          (forall j :: 0 <= j < k ==> !SameSubject(grades[j], s)) &&
          !Less(grades[k].grade.GetOr(Num(0.0)), MinSubjectGrade(ReqsOf(course)))
  {
    var reqs := ReqsOf(course);
    AllSubjectsMetIff(grades, SubjectsOf(reqs), MinSubjectGrade(reqs));
  }

  /** Every required subject is met exactly when, for each of them, the
      first grade naming it is not below the minimum. */
  lemma AllSubjectsMetIff(grades: seq<StudentGrade>, subjects: seq<string>, m: JsNumber)
    ensures FirstUnmet(grades, subjects, m).None? <==>
      forall s :: s in subjects ==>
        exists k :: 0 <= k < |grades| && SameSubject(grades[k], s) &&
          (forall j :: 0 <= j < k ==> !SameSubject(grades[j], s)) &&
          !Less(grades[k].grade.GetOr(Num(0.0)), m)
  {
    forall s | s in subjects
      ensures SubjectMet(grades, s, m) <==>
        exists k :: 0 <= k < |grades| && SameSubject(grades[k], s) &&
          (forall j :: 0 <= j < k ==> !SameSubject(grades[j], s)) &&
          !Less(grades[k].grade.GetOr(Num(0.0)), m)
    {
      FirstMatchUnique(grades, s);
    }
    assert (forall k :: 0 <= k < |subjects| ==> SubjectMet(grades, subjects[k], m)) <==>
      (forall s :: s in subjects ==> SubjectMet(grades, s, m));
  }

  /** The first grade matching a subject is the one `FindGrade` returns. */
  lemma FirstMatchUnique(grades: seq<StudentGrade>, s: string)
    ensures forall k ::
      (0 <= k < |grades| && SameSubject(grades[k], s) && forall j :: 0 <= j < k ==> !SameSubject(grades[j], s))
      ==> FindGrade(grades, s) == Some(grades[k])
  {
    forall k | 0 <= k < |grades| && SameSubject(grades[k], s) &&
      (forall j :: 0 <= j < k ==> !SameSubject(grades[j], s))
      ensures FindGrade(grades, s) == Some(grades[k])
    {
      var r := FindGrade(grades, s);
      var k' :| 0 <= k' < |grades| && grades[k'] == r.value && SameSubject(grades[k'], s) &&
        forall j :: 0 <= j < k' ==> !SameSubject(grades[j], s);
      assert k' == k;
    }
  }

  /** A course without requirements, without a minimum GPA that JavaScript
      treats as set and without a non-empty subject list is open to every
      loaded profile. */
  lemma NoRequirementsMet(profile: Profile, grades: seq<StudentGrade>, course: Course)
    requires Unset(ReqsOf(course).minGPA)
    requires ReqsOf(course).requiredSubjects.None? || ReqsOf(course).requiredSubjects.value == []
    ensures Meets(Some(profile), grades, course)
    ensures RequirementReason(Some(profile), grades, course) == NoReason
  {
    assert SubjectsOf(ReqsOf(course)) == [];
  }

  /** A required subject the student has no grade for fails the check, even
      when the minimum grade is 0. */
  lemma MissingSubjectFails(profile: Option<Profile>, grades: seq<StudentGrade>, course: Course, s: string)
    requires s in SubjectsOf(ReqsOf(course))
    requires forall k :: 0 <= k < |grades| ==> !SameSubject(grades[k], s)
    ensures !Meets(profile, grades, course)
  {
    var subjects := SubjectsOf(ReqsOf(course));
    var k :| 0 <= k < |subjects| && subjects[k] == s;
    assert !SubjectMet(grades, subjects[k], MinSubjectGrade(ReqsOf(course)));
  }

  /** For a loaded profile: a met course has no reason, and unless the GPA
      comparison involves `NaN` the reason is empty exactly when the course
      is not met. The GPA reason comes first, and a subject reason names the
      first required subject (in list order) that is not met. */
  lemma ReasonAgreesWithMeets(profile: Profile, grades: seq<StudentGrade>, course: Course)
    ensures Meets(Some(profile), grades, course) ==> RequirementReason(Some(profile), grades, course) == NoReason
    ensures !GpaUndecided(profile, ReqsOf(course)) ==>
      (RequirementReason(Some(profile), grades, course) == NoReason <==> Meets(Some(profile), grades, course))
    ensures GpaShort(profile, ReqsOf(course)) ==>
      RequirementReason(Some(profile), grades, course) ==
        GpaTooLow(ReqsOf(course).minGPA.value.value, GpaOf(profile).value)
    ensures RequirementReason(Some(profile), grades, course).SubjectTooLow? ==>
      var subjects := SubjectsOf(ReqsOf(course));
      var m := MinSubjectGrade(ReqsOf(course));
      var r := RequirementReason(Some(profile), grades, course);
      !GpaShort(profile, ReqsOf(course)) && r.minGrade == m &&
      exists k :: 0 <= k < |subjects| && subjects[k] == r.subject &&
        !SubjectMet(grades, subjects[k], m) &&
        forall j :: 0 <= j < k ==> SubjectMet(grades, subjects[j], m)
  {
    var reqs := ReqsOf(course);
    GpaCases(profile, reqs);
    var unmet := FirstUnmet(grades, SubjectsOf(reqs), MinSubjectGrade(reqs));
    if !GpaShort(profile, reqs) && unmet.Some? {
      assert SubjectsOf(reqs)[unmet.value] == RequirementReason(Some(profile), grades, course).subject;
    }
  }

  /** When the GPA comparison involves `NaN` the course is not met, yet
      `requirementReason` moves on to the subjects: with every subject met
      it is empty, and the page falls back to its generic message. */
  lemma UndecidedGpaNotMet(profile: Profile, grades: seq<StudentGrade>, course: Course)
    requires GpaUndecided(profile, ReqsOf(course))
    ensures !Meets(Some(profile), grades, course)
    ensures RequirementReason(Some(profile), grades, course) == NoReason <==>
      forall s :: s in SubjectsOf(ReqsOf(course)) ==> SubjectMet(grades, s, MinSubjectGrade(ReqsOf(course)))
  {
    var reqs := ReqsOf(course);
    GpaCases(profile, reqs);
    var subjects := SubjectsOf(reqs);
    assert (forall k :: 0 <= k < |subjects| ==> SubjectMet(grades, subjects[k], MinSubjectGrade(reqs))) <==>
      (forall s :: s in subjects ==> SubjectMet(grades, s, MinSubjectGrade(reqs)));
  }

  // ------------------------------------------------------ the Apply button

  predicate AlreadyApplied(apps: seq<Application>, institutionId: string, courseId: string) {
    exists k :: 0 <= k < |apps| && apps[k].institutionId == institutionId && apps[k].courseId == courseId
  }

  /** The Apply button is enabled when nothing is being submitted, the
      institution has a free slot, the course is met and the student has not
      applied to this course at this institution. */
  predicate ApplyEnabled(submitting: bool, apps: seq<Application>, institutionId: string,
                         profile: Option<Profile>, grades: seq<StudentGrade>, course: Course)
    ensures submitting || profile.None? ==> !ApplyEnabled(submitting, apps, institutionId, profile, grades, course)
    ensures ApplyEnabled(submitting, apps, institutionId, profile, grades, course) ==>
      Remaining(apps, institutionId) > 0 &&
      forall k :: 0 <= k < |apps| ==> !(apps[k].institutionId == institutionId && apps[k].courseId == course.id)
  {
    !submitting && CanApplyTo(apps, institutionId) && Meets(profile, grades, course) &&
    !AlreadyApplied(apps, institutionId, course.id)
  }

  function SamePair(institutionId: string, courseId: string): Application -> bool {
    (app: Application) => app.institutionId == institutionId && app.courseId == courseId
  }

  /** An application made through an enabled button leaves at most two
      applications at the institution and exactly one for the course. */
  lemma EnabledApplyKeepsCap(submitting: bool, apps: seq<Application>, institutionId: string,
                             profile: Option<Profile>, grades: seq<StudentGrade>, course: Course, status: string)
    requires ApplyEnabled(submitting, apps, institutionId, profile, grades, course)
    ensures var after := apps + [Application(institutionId, course.id, status)];
      |ApplicationsAt(after, institutionId)| <= Cap &&
      |Filter(SamePair(institutionId, course.id), after)| == 1
  {
    var app := Application(institutionId, course.id, status);
    FilterConcat(AtInstitution(institutionId), apps, [app]);
    FilterConcat(SamePair(institutionId, course.id), apps, [app]);
    FilterEmpty(SamePair(institutionId, course.id), apps);
  }
}
