/**
 * Page forms held in component state: a flat record of fields plus a nested
 * `requirements` record, both replaced by object spread on every change.
 * The job form (PostJob) and the course form (ManageCourses) update them
 * through the same dotted-name rule.
 */
module Forms {
  import opened Text

  /** A form value: the text of an input, or a list (the checked subjects). */
  datatype Value = Str(s: string) | List(items: seq<string>)

  datatype Form = Form(fields: map<string, Value>, requirements: map<string, Value>)

  const RequirementsPrefix: string := "requirements."

  /** `name.startsWith('requirements.')` */
  predicate IsRequirementPath(name: string) {
    |RequirementsPrefix| <= |name| && name[..|RequirementsPrefix|] == RequirementsPrefix
  }

  /** `name.split('.')[1]`: the segment after the first dot. */
  function RequirementKey(name: string): string
    requires IsRequirementPath(name)
  {
    assert name[..|RequirementsPrefix|][12] == '.';
    OccurrencesZero(name, '.');
    Split(name, '.')[1]
  }

  /** The dotted name selects the requirement field written after the dot. */
  lemma {:induction false} RequirementKeyOf(key: string)
    requires '.' !in key
    ensures IsRequirementPath(RequirementsPrefix + key)
    ensures RequirementKey(RequirementsPrefix + key) == key
  {
    var name := RequirementsPrefix + key;
    assert name[..|RequirementsPrefix|] == RequirementsPrefix;
    assert name == "requirements" + ['.'] + key;
    SplitAfterPiece("requirements", key, '.');
    SplitNoSeparator(key, '.');
  }

  /** `m2` is `m` with `k` set to `v` and every other key as it was. */
  ghost predicate Assigned(m: map<string, Value>, m2: map<string, Value>, k: string, v: Value) {
    && k in m2 && m2[k] == v
    && (forall j :: j != k ==> (j in m2 <==> j in m))
    && (forall j :: j != k && j in m ==> m2[j] == m[j])
  }

  /** The change handler: `requirements.X` writes `X` of the nested record,
      any other name writes that top-level field; nothing else changes. */
  function Update(f: Form, name: string, v: Value): (r: Form)
    ensures IsRequirementPath(name) ==>
      r.fields == f.fields && Assigned(f.requirements, r.requirements, RequirementKey(name), v)
    ensures !IsRequirementPath(name) ==>
      r.requirements == f.requirements && Assigned(f.fields, r.fields, name, v)
  {
    if IsRequirementPath(name) then
      f.(requirements := f.requirements[RequirementKey(name) := v])
    else
      f.(fields := f.fields[name := v])
  }

  /** A change to `requirements.X` is the change of key `X` of the nested
      record. */
  lemma UpdateRequirement(f: Form, key: string, v: Value)
    requires '.' !in key
    ensures Update(f, RequirementsPrefix + key, v) == f.(requirements := f.requirements[key := v])
  {
    RequirementKeyOf(key);
  }

  /** The text of a field, `''` when it is absent or not text. */
  function TextOf(m: map<string, Value>, k: string): string {
    if k in m && m[k].Str? then m[k].s else ""
  }

  /** `m[k] || []` for a list-valued field. */
  function ItemsOf(m: map<string, Value>, k: string): seq<string> {
    if k in m && m[k].List? then m[k].items else []
  }
}
