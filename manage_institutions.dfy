/**
 * The institution editor of the administrator: the form filled from a
 * stored institution and the data sent when the edit is saved. The
 * approval buttons and colours are in `OrgApproval`.
 */
module ManageInstitutions {
  import opened Wrappers
  import opened Text

  /** A form of text inputs, by name. */
  type Form = map<string, string>

  datatype StoredInstitution = StoredInstitution(
    name: Option<string>,
    email: Option<string>,
    location: Option<string>,
    kind: Option<string>,
    contactEmail: Option<string>,
    phone: Option<string>)

  const FormFields: set<string> := {"name", "email", "password", "location", "type", "contactEmail", "phone"}

  /** `openEditModal`: the password starts blank and the contact email falls
      back to the login email, then to `''`. */
  function OpenEditForm(i: StoredInstitution): (f: Form)
    ensures f.Keys == FormFields
    ensures f["password"] == ""
    ensures f["contactEmail"] == OrElse(i.contactEmail, OrElse(i.email, ""))
    ensures f["name"] == OrElse(i.name, "") && f["email"] == OrElse(i.email, "")
  {
    map[
      "name" := OrElse(i.name, ""),
      "email" := OrElse(i.email, ""),
      "password" := "",
      "location" := OrElse(i.location, ""),
      "type" := OrElse(i.kind, ""),
      "contactEmail" := OrElse(i.contactEmail, OrElse(i.email, "")),
      "phone" := OrElse(i.phone, "")]
  }

  /** The data `handleUpdateInstitution` sends: the form without its
      password, whatever the password holds. */
  function UpdatePayload(f: Form): (p: Form)
    ensures "password" !in p
    ensures forall k :: k in f && k != "password" ==> k in p && p[k] == f[k]
    ensures p.Keys <= f.Keys
  {
    f - {"password"}
  }

  /** An institution with any email on record is edited with a non-empty
      contact email, and the saved edit carries every form field except the
      password. */
  lemma EditRoundTrip(i: StoredInstitution)
    ensures (i.contactEmail.Some? && i.contactEmail.value != "") || (i.email.Some? && i.email.value != "") ==>
      OpenEditForm(i)["contactEmail"] != ""
    ensures UpdatePayload(OpenEditForm(i)).Keys == FormFields - {"password"}
  {
  }
}
