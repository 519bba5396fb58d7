/**
 * The profile page of a student: the editable list of work-experience
 * entries, the shape those entries are sent in, and the document sections.
 *
 * An experience entry is a record of text fields; a key that is absent, or
 * whose value is the empty string, is what JavaScript treats as false.
 */
module StudentProfile {
  import opened Wrappers
  import opened Lists

  type Entry = map<string, string>

  const Company: string := "company"
  const Role: string := "role"
  const Years: string := "years"
  const Description: string := "description"

  /** The four fields an entry is sent with. */
  const EntryFields: set<string> := {Company, Role, Years, Description}

  /** The entry `addExperienceEntry` appends: the four fields, all blank. */
  const BlankEntry: Entry := map[Company := "", Role := "", Years := "", Description := ""]

  /** The value of a field as sent: `exp[field] || ''`. */
  function FieldOr(e: Entry, field: string): string {
    if field in e then e[field] else ""
  }

  /** One entry as submitted: exactly the four fields, each taken from the
      entry or blank. */
  function Normalise(e: Entry): (r: Entry)
    ensures r.Keys == EntryFields
    ensures forall f :: f in EntryFields ==> r[f] == FieldOr(e, f)
  {
    map f | f in EntryFields :: FieldOr(e, f)
  }

  /** `experience.map(...)` in `handleSubmit`. */
  function Normalised(entries: seq<Entry>): (r: seq<Entry>)
    ensures |r| == |entries|
    ensures forall i :: 0 <= i < |r| ==> r[i].Keys == EntryFields
  {
    Map(Normalise, entries)
  }

  /** Normalising twice is normalising once; an entry with just the four
      fields comes out as it went in. */
  lemma NormaliseIdempotent(e: Entry)
    ensures Normalise(Normalise(e)) == Normalise(e)
    ensures e.Keys == EntryFields ==> Normalise(e) == e
  {
  }

  /** The entries the page starts from: the stored list, or none when the
      stored value is not a list. */
  function InitialExperience(stored: Option<seq<Entry>>): seq<Entry> {
    if stored.Some? then stored.value else []
  }

  /** The experience list of the profile form. */
  class ExperienceEditor {
    var entries: seq<Entry>

    constructor (stored: Option<seq<Entry>>)
      ensures entries == InitialExperience(stored)
      ensures stored.None? ==> entries == []
    {
      entries := InitialExperience(stored);
    }

    /** `addExperienceEntry` */
    method Add()
      modifies this
      ensures entries == old(entries) + [BlankEntry]
    {
      entries := entries + [BlankEntry];
    }

    /** `updateExperienceEntry`: sets one field of the entry at `index`. */
    method Update(index: int, field: string, value: string)
      requires 0 <= index < |entries|
      modifies this
      ensures |entries| == |old(entries)|
      ensures forall i :: 0 <= i < |entries| && i != index ==> entries[i] == old(entries)[i]
      ensures entries[index] == old(entries)[index][field := value]
    {
      entries := entries[index := entries[index][field := value]];
    }

    /** `removeExperienceEntry`: drops the entry at `index`, keeping the
        others in order; an index outside the list removes nothing. */
    method Remove(index: int)
      modifies this
      ensures 0 <= index < |old(entries)| ==> entries == old(entries)[..index] + old(entries)[index + 1..]
      ensures !(0 <= index < |old(entries)|) ==> entries == old(entries)
    {
      entries := RemoveAt(entries, index);
    }
  }

  /** Entries added with the Add button and then edited field by field are
      sent with exactly the values typed into them. */
  lemma NormaliseEdited(e: Entry, field: string, value: string)
    requires e.Keys == EntryFields && field in EntryFields
    ensures Normalise(e[field := value]) == e[field := value]
    ensures Normalise(BlankEntry) == BlankEntry
  {
    NormaliseIdempotent(e[field := value]);
    NormaliseIdempotent(BlankEntry);
  }

  // ------------------------------------------------------ documents

  datatype DocumentForm = DocumentForm(documentType: string, fileName: string, fileUrl: string, description: string)

  /** The document form when the dialog opens and after an upload. */
  const EmptyDocumentForm: DocumentForm := DocumentForm("additional", "", "", "")

  const MissingFileMessage: string := "Please select a file or enter a file name"

  /** `handleDocumentSubmit`: the form is sent only when it names a file. */
  function SubmitDocument(form: DocumentForm): (r: Result<DocumentForm, string>)
    ensures r.Failure? <==> form.fileName == ""
    ensures r.Failure? ==> r.error == MissingFileMessage
    ensures r.Success? ==> r.value == form
  {
    if form.fileName == "" then Failure(MissingFileMessage) else Success(form)
  }

  datatype Document = Document(documentType: string, fileName: string)

  predicate IsAdditional(d: Document) {
    d.documentType == "additional"
  }

  predicate IsAcademic(d: Document) {
    d.documentType in ["transcript", "certificate", "diploma"]
  }

  /** The "Additional Documents" section. */
  function AdditionalDocuments(docs: seq<Document>): (r: seq<Document>)
    ensures |r| <= |docs|
    ensures forall d :: d in r <==> d in docs && d.documentType == "additional"
  {
    Filter(IsAdditional, docs)
  }

  /** The transcripts, certificates and diplomas section. */
  function AcademicDocuments(docs: seq<Document>): (r: seq<Document>)
    ensures |r| <= |docs|
    ensures forall d :: d in r <==> d in docs && d.documentType in ["transcript", "certificate", "diploma"]
  {
    Filter(IsAcademic, docs)
  }

  /** No document is listed in both sections, and a document of type
      `other` (which the upload form offers) is listed in neither. */
  lemma SectionsDisjoint(docs: seq<Document>)
    ensures forall d :: d in AdditionalDocuments(docs) ==> d !in AcademicDocuments(docs)
    ensures forall d :: d in docs && d.documentType == "other" ==>
      d !in AdditionalDocuments(docs) && d !in AcademicDocuments(docs)
  {
  }
}
