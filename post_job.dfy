/**
 * The job-posting form of a company: the change handler and the payload
 * built on submit, where the certificate and keyword inputs are read as
 * comma-separated lists and the numeric minimums are converted.
 */
module PostJob {
  import opened Wrappers
  import opened Text
  import opened Lists
  import opened Forms

  predicate NonEmpty(s: string) {
    s != ""
  }

  /** The trimmed, non-empty comma-separated pieces of `s`: never more than
      the parts the split yields, and none of them empty. */
  function Pieces(s: string): (r: seq<string>)
    ensures |r| <= |Split(s, ',')|
    ensures forall k :: 0 <= k < |r| ==> r[k] != ""
  {
    Filter(NonEmpty, Map(Trim, Split(s, ',')))
  }

  lemma TrimmedPart(part: string)
    requires ',' !in part
    ensures Trim(Trim(part)) == Trim(part) && ',' !in Trim(part)
  {
    TrimIdempotent(part);
  }

  /** Every piece is trimmed and holds no comma. */
  lemma PiecesClean(s: string)
    ensures forall k :: 0 <= k < |Pieces(s)| ==> Trim(Pieces(s)[k]) == Pieces(s)[k] && ',' !in Pieces(s)[k]
  {
    var parts := Split(s, ',');
    var trimmed := Map(Trim, parts);
    var r := Filter(NonEmpty, trimmed);
    forall k | 0 <= k < |r|
      ensures Trim(r[k]) == r[k] && ',' !in r[k]
    {
      var piece := r[k];
      assert piece in trimmed;
      var j :| 0 <= j < |trimmed| && trimmed[j] == piece;
      TrimmedPart(parts[j]);
    }
  }

  /** `s ? s.split(',').map(item => item.trim()).filter(Boolean) : []` */
  function ParseList(s: string): (r: seq<string>)
    ensures s == "" ==> r == []
    ensures |r| <= Occurrences(s, ',') + 1
    ensures forall k :: 0 <= k < |r| ==> r[k] != "" && Trim(r[k]) == r[k] && ',' !in r[k]
  {
    if s == "" then []
    else
      PiecesClean(s);
      Pieces(s)
  }

  lemma ParseListIsPieces(s: string)
    ensures ParseList(s) == Pieces(s)
  {
    if s == "" {
      assert Split(s, ',') == [""];
      assert Map(Trim, [""]) == [""];
    }
  }

  /** The list is read piece by piece, left to right: what comes before the
      first comma is followed by the list read from the rest. */
  lemma ParseListConcat(x: string, rest: string)
    requires ',' !in x
    ensures ParseList(x + [','] + rest) == ParseList(x) + ParseList(rest)
  {
    ParseListIsPieces(x + [','] + rest);
    ParseListIsPieces(x);
    ParseListIsPieces(rest);
    SplitAfterPiece(x, rest, ',');
    SplitNoSeparator(x, ',');
    MapConcat(Trim, [x], Split(rest, ','));
    FilterConcat(NonEmpty, Map(Trim, [x]), Map(Trim, Split(rest, ',')));
  }

  /** A list typed as its entries joined by commas reads back as those
      entries. */
  lemma ParseListJoin(entries: seq<string>)
    requires |entries| >= 1
    requires forall k :: 0 <= k < |entries| ==> entries[k] != "" && Trim(entries[k]) == entries[k] && ',' !in entries[k]
    ensures ParseList(Join(entries, ',')) == entries
  {
    var joined := Join(entries, ',');
    ParseListIsPieces(joined);
    assert Split(joined, ',') == entries by {
      SplitJoin(entries, ',');
    }
    MapFixed(Trim, entries);
    FilterAll(NonEmpty, entries);
  }

  // ------------------------------------------------------ the payload

  /** A numeric minimum as sent: blank when the input is empty, otherwise the
      converted number (`None` for a value that is not a number). */
  datatype Numeric = Blank | Num(value: Option<real>)

  function ToNumeric(parse: NumberParser, s: string): (r: Numeric)
    ensures r.Blank? <==> s == ""
    ensures r.Num? ==> r.value == parse(s)
  {
    if s == "" then Blank else Num(parse(s))
  }

  /** The requirements record of the payload: exactly these five fields. */
  datatype PayloadRequirements = PayloadRequirements(
    education: string,
    experience: string,
    skills: string,
    requiredCertificates: seq<string>,
    keywords: seq<string>)

  /** `fields` holds the remaining top-level inputs, copied from the form. */
  datatype Payload = Payload(
    fields: map<string, Value>,
    minGPA: Numeric,
    minExperienceYears: Numeric,
    requirements: PayloadRequirements)

  /** The payload `handleSubmit` sends. */
  function BuildPayload(parse: NumberParser, f: Form): (p: Payload)
    ensures p.fields.Keys == f.fields.Keys - {"minGPA", "minExperienceYears"}
    ensures forall k :: k in p.fields ==> p.fields[k] == f.fields[k]
    ensures p.minGPA == ToNumeric(parse, TextOf(f.fields, "minGPA"))
    ensures p.minExperienceYears == ToNumeric(parse, TextOf(f.fields, "minExperienceYears"))
    ensures p.minGPA.Blank? <==> TextOf(f.fields, "minGPA") == ""
    ensures p.minExperienceYears.Blank? <==> TextOf(f.fields, "minExperienceYears") == ""
    ensures p.requirements.education == TextOf(f.requirements, "education")
    ensures p.requirements.experience == TextOf(f.requirements, "experience")
    ensures p.requirements.skills == TextOf(f.requirements, "skills")
    ensures p.requirements.requiredCertificates == ParseList(TextOf(f.requirements, "requiredCertificates"))
    ensures p.requirements.keywords == ParseList(TextOf(f.requirements, "keywords"))
    ensures forall k :: 0 <= k < |p.requirements.requiredCertificates| ==>
      p.requirements.requiredCertificates[k] != "" && ',' !in p.requirements.requiredCertificates[k]
    ensures forall k :: 0 <= k < |p.requirements.keywords| ==>
      p.requirements.keywords[k] != "" && ',' !in p.requirements.keywords[k]
  {
    Payload(
      f.fields - {"minGPA", "minExperienceYears"},
      ToNumeric(parse, TextOf(f.fields, "minGPA")),
      ToNumeric(parse, TextOf(f.fields, "minExperienceYears")),
      PayloadRequirements(
        TextOf(f.requirements, "education"),
        TextOf(f.requirements, "experience"),
        TextOf(f.requirements, "skills"),
        ParseList(TextOf(f.requirements, "requiredCertificates")),
        ParseList(TextOf(f.requirements, "keywords"))))
  }

  /** Certificates and keywords typed as their entries joined by commas are
      sent as exactly those entries. */
  lemma PayloadListsRoundTrip(parse: NumberParser, f: Form, certs: seq<string>, keywords: seq<string>)
    requires |certs| >= 1 && |keywords| >= 1
    requires forall k :: 0 <= k < |certs| ==> certs[k] != "" && Trim(certs[k]) == certs[k] && ',' !in certs[k]
    requires forall k :: 0 <= k < |keywords| ==> keywords[k] != "" && Trim(keywords[k]) == keywords[k] && ',' !in keywords[k]
    requires TextOf(f.requirements, "requiredCertificates") == Join(certs, ',')
    requires TextOf(f.requirements, "keywords") == Join(keywords, ',')
    ensures BuildPayload(parse, f).requirements.requiredCertificates == certs
    ensures BuildPayload(parse, f).requirements.keywords == keywords
  {
    ParseListJoin(certs);
    ParseListJoin(keywords);
  }

  /** `handleChange` for an input named `name` holding `value`. */
  function HandleChange(f: Form, name: string, value: string): (r: Form)
    ensures IsRequirementPath(name) ==> r.fields == f.fields && r.requirements.Keys == f.requirements.Keys + {RequirementKey(name)}
    ensures !IsRequirementPath(name) ==> r.requirements == f.requirements && r.fields.Keys == f.fields.Keys + {name}
  {
    Update(f, name, Str(value))
  }

  /** Typing into `requirements.X` changes only X among the requirement
      fields, and leaves every top-level field alone. */
  lemma HandleChangeRequirement(f: Form, key: string, value: string)
    requires '.' !in key
    ensures var r := HandleChange(f, RequirementsPrefix + key, value);
      r.fields == f.fields &&
      TextOf(r.requirements, key) == value &&
      forall k :: k != key ==> TextOf(r.requirements, k) == TextOf(f.requirements, k)
  {
    RequirementKeyOf(key);
  }
}
