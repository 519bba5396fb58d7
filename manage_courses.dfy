/**
 * The course form of an institution: its blank state, the form filled from
 * a stored course for editing, the change handler and the subject
 * checkboxes.
 */
module ManageCourses {
  import opened Wrappers
  import opened Lists
  import opened Forms

  const SubjectsKey: string := "requiredSubjects"

  /** The name the checkboxes report their change under. */
  const SubjectsPath: string := RequirementsPrefix + SubjectsKey

  /** The form on first display and after a course was added. */
  const BlankCourseForm: Form := Form(
    map["name" := Str(""), "faculty" := Str(""), "description" := Str(""), "duration" := Str(""), "capacity" := Str("")],
    map["minGPA" := Str(""), "requiredSubjects" := List([]), "minSubjectGrade" := Str("")])

  /** A course as stored; absent fields are `None`. */
  datatype StoredRequirements = StoredRequirements(
    minGPA: Option<string>,
    requiredSubjects: Option<seq<string>>,
    minSubjectGrade: Option<string>)

  datatype StoredCourse = StoredCourse(
    name: Option<string>,
    faculty: Option<string>,
    description: Option<string>,
    duration: Option<string>,
    capacity: Option<string>,
    requirements: Option<StoredRequirements>)

  /** `openEditModal`: every absent text becomes `''`, an absent subject list
      becomes `[]`. */
  function OpenEditForm(c: StoredCourse): (f: Form)
    ensures f.fields.Keys == BlankCourseForm.fields.Keys
    ensures f.requirements.Keys == BlankCourseForm.requirements.Keys
    ensures TextOf(f.fields, "name") == c.name.GetOr("")
    ensures TextOf(f.fields, "faculty") == c.faculty.GetOr("")
    ensures TextOf(f.fields, "description") == c.description.GetOr("")
    ensures TextOf(f.fields, "duration") == c.duration.GetOr("")
    ensures TextOf(f.fields, "capacity") == c.capacity.GetOr("")
    ensures TextOf(f.requirements, "minGPA") ==
      if c.requirements.Some? then c.requirements.value.minGPA.GetOr("") else ""
    ensures ItemsOf(f.requirements, "requiredSubjects") ==
      if c.requirements.Some? then c.requirements.value.requiredSubjects.GetOr([]) else []
    ensures TextOf(f.requirements, "minSubjectGrade") ==
      if c.requirements.Some? then c.requirements.value.minSubjectGrade.GetOr("") else ""
  {
    var reqs := c.requirements.GetOr(StoredRequirements(None, None, None));
    Form(
      map["name" := Str(c.name.GetOr("")), "faculty" := Str(c.faculty.GetOr("")),
          "description" := Str(c.description.GetOr("")), "duration" := Str(c.duration.GetOr("")),
          "capacity" := Str(c.capacity.GetOr(""))],
      map["minGPA" := Str(reqs.minGPA.GetOr("")), "requiredSubjects" := List(reqs.requiredSubjects.GetOr([])),
          "minSubjectGrade" := Str(reqs.minSubjectGrade.GetOr(""))])
  }

  /** Editing a course that stores nothing shows the blank form. */
  lemma OpenEditEmptyIsBlank()
    ensures OpenEditForm(StoredCourse(None, None, None, None, None, None)) == BlankCourseForm
  {
  }

  /** The form after `handleAddCourse`: blank again when the course was
      added, unchanged when the server refused it. */
  function AfterAdd(f: Form, added: bool): (r: Form)
    ensures added ==> r == BlankCourseForm
    ensures added ==> ItemsOf(r.requirements, "requiredSubjects") == [] && TextOf(r.fields, "name") == ""
    ensures !added ==> r == f
  {
    if added then BlankCourseForm else f
  }

  /** `handleFormChange` */
  function HandleFormChange(f: Form, field: string, value: Value): (r: Form)
    ensures IsRequirementPath(field) ==> r.fields == f.fields
    ensures !IsRequirementPath(field) ==> r.requirements == f.requirements
  {
    Update(f, field, value)
  }

  /** A dotted change writes one requirement and leaves the others, and all
      top-level fields, as they were; any other change writes one top-level
      field only. */
  lemma HandleFormChangeOnlyTouchesField(f: Form, field: string, value: Value)
    ensures var r := HandleFormChange(f, field, value);
      if IsRequirementPath(field) then
        r.fields == f.fields && r.requirements == f.requirements[RequirementKey(field) := value]
      else
        r.requirements == f.requirements && r.fields == f.fields[field := value]
  {
  }

  /** The subject list after a checkbox change: a checked subject is added at
      the end, an unchecked one is removed wherever it occurs. */
  function Toggled(current: seq<string>, subject: string, checked: bool): seq<string> {
    if checked then current + [subject] else Filter((s: string) => s != subject, current)
  }

  /** The checkbox handler: writes the new list through `handleFormChange`. */
  function ToggleSubject(f: Form, subject: string, checked: bool): (r: Form)
    ensures r.fields == f.fields
    ensures ItemsOf(r.requirements, "requiredSubjects") == Toggled(ItemsOf(f.requirements, "requiredSubjects"), subject, checked)
    ensures forall k :: k != "requiredSubjects" ==> TextOf(r.requirements, k) == TextOf(f.requirements, k)
  {
    var v := List(Toggled(ItemsOf(f.requirements, SubjectsKey), subject, checked));
    UpdateRequirement(f, SubjectsKey, v);
    HandleFormChange(f, SubjectsPath, v)
  }

  /** Unchecking removes every occurrence of the subject and keeps the other
      subjects, in order: what stood before and after a part of the list is
      filtered separately. */
  lemma UncheckRemoves(current: seq<string>, subject: string)
    ensures subject !in Toggled(current, subject, false)
    ensures forall s :: s != subject ==> (s in Toggled(current, subject, false) <==> s in current)
    ensures forall a, b :: current == a + b ==>
      Toggled(current, subject, false) == Toggled(a, subject, false) + Toggled(b, subject, false)
  {
    forall a, b | current == a + b
      ensures Toggled(current, subject, false) == Toggled(a, subject, false) + Toggled(b, subject, false)
    {
      FilterConcat((s: string) => s != subject, a, b);
    }
  }

  /** Checking a new subject and unchecking it again restores the list. */
  lemma CheckThenUncheck(current: seq<string>, subject: string)
    requires subject !in current
    ensures Toggled(Toggled(current, subject, true), subject, false) == current
  {
    var p := (s: string) => s != subject;
    FilterConcat(p, current, [subject]);
    FilterAll(p, current);
    assert Filter(p, [subject]) == [];
  }
}
