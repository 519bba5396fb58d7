/**
 * The job board of a student: whether the student qualifies for a posted
 * job (minimum GPA, years of experience, certificates on file, keywords in
 * the profile) and the lists of jobs the student has applied to or saved.
 *
 * A numeric field is an `Option<JsNumber>`: `None` is a value JavaScript
 * treats as false, and `Some(x)` a value it treats as true whose numeric
 * value is `x` (which may be `NaN`).
 */
module JobApplications {
  import opened Wrappers
  import opened Text
  import opened Lists
  import opened Numbers

  /** An uploaded document; only certificates and diplomas are read here. */
  datatype Document = Document(documentType: Option<string>, fileName: string)

  /** `years` is `None` when `Number(years)` is `NaN` or 0 (`|| 0`). */
  datatype Experience = Experience(role: Option<string>, description: Option<string>, years: Option<real>)

  /** `experience` is `None` when the stored value is not an array. */
  datatype Profile = Profile(gpa: Option<JsNumber>, experience: Option<seq<Experience>>, skills: Option<string>)

  /** The list requirements of a job; `None` where the value is not an array. */
  datatype JobRequirements = JobRequirements(requiredCertificates: Option<seq<string>>, keywords: Option<seq<string>>)

  datatype Job = Job(
    id: string,
    minGPA: Option<JsNumber>,
    minExperienceYears: Option<JsNumber>,
    requirements: Option<JobRequirements>)

  // ------------------------------------------------------ certificates on file

  predicate IsCertificate(doc: Document) {
    var t := Lower(doc.documentType.GetOr(""));
    t == "certificate" || t == "diploma"
  }

  /** The documents the page keeps as certificates: those whose type is
      `certificate` or `diploma`, ignoring case, in their original order. */
  function Certificates(docs: seq<Document>): (r: seq<Document>)
    ensures |r| <= |docs|
    ensures forall d :: d in r <==> d in docs && IsCertificate(d)
  {
    Filter(IsCertificate, docs)
  }

  // ------------------------------------------------------ qualification

  /** A numeric requirement that JavaScript treats as false; its check is
      skipped. */
  predicate Unset(v: Option<JsNumber>) {
    v.None?
  }

  /** `parseFloat(profile.gpa || 0)` */
  function GpaOf(profile: Profile): JsNumber {
    profile.gpa.GetOr(Num(0.0))
  }

  /** The summed `years` of some experience entries; an entry whose years are
      not a number adds 0. */
  function TotalYears(exps: seq<Experience>): real
    decreases |exps|
  {
    if exps == [] then 0.0 else exps[0].years.GetOr(0.0) + TotalYears(exps[1..])
  }

  function ExperienceYears(profile: Profile): real {
    if profile.experience.Some? then TotalYears(profile.experience.value) else 0.0
  }

  function ExperienceText(e: Experience): string {
    e.role.GetOr("") + " " + e.description.GetOr("")
  }

  /** The skills followed by the role and description of every experience
      entry, joined by spaces and lower-cased. */
  function SkillsText(profile: Profile): string {
    var entries := if profile.experience.Some? then Map(ExperienceText, profile.experience.value) else [];
    Lower(Join([profile.skills.GetOr("")] + entries, ' '))
  }

  function RequiredCertificates(job: Job): seq<string> {
    if job.requirements.Some? && job.requirements.value.requiredCertificates.Some?
    then job.requirements.value.requiredCertificates.value else []
  }

  function Keywords(job: Job): seq<string> {
    if job.requirements.Some? && job.requirements.value.keywords.Some?
    then job.requirements.value.keywords.value else []
  }

  /** A required certificate is on file when its lower-cased name occurs in
      the lower-cased file name of some certificate. */
  predicate CertificateOnFile(certs: seq<Document>, required: string) {
    Any((cert: Document) => Contains(Lower(cert.fileName), Lower(required)), certs)
  }

  predicate KeywordFound(profile: Profile, keyword: string) {
    Contains(SkillsText(profile), Lower(keyword))
  }

  /** `meetsRequirements`, check by check in the order of the page. A
      qualifying student has a loaded profile and every required certificate
      on file. */
  predicate Meets(profile: Option<Profile>, certs: seq<Document>, job: Job)
    ensures Meets(profile, certs, job) ==> profile.Some?
    ensures Meets(profile, certs, job) ==> forall r :: r in RequiredCertificates(job) ==> CertificateOnFile(certs, r)
  {
    if profile.None? then false
    else if !Unset(job.minGPA) && Less(GpaOf(profile.value), job.minGPA.value) then false
    else if !Unset(job.minExperienceYears) && Less(Num(ExperienceYears(profile.value)), job.minExperienceYears.value) then false
    else if |RequiredCertificates(job)| > 0 &&
      Any((r: string) => !CertificateOnFile(certs, r), RequiredCertificates(job)) then false
    else if |Keywords(job)| > 0 &&
      Any((k: string) => !KeywordFound(profile.value, k), Keywords(job)) then false
    else true
  }

  /** The qualification rule as one statement. A numeric minimum is passed
      unless the value is below it, so a `NaN` on either side passes. */
  lemma MeetsIff(profile: Option<Profile>, certs: seq<Document>, job: Job)
    ensures Meets(profile, certs, job) <==>
      && profile.Some?
      && (Unset(job.minGPA) || !Less(GpaOf(profile.value), job.minGPA.value))
      && (Unset(job.minExperienceYears) || !Less(Num(ExperienceYears(profile.value)), job.minExperienceYears.value))
      && (forall r :: r in RequiredCertificates(job) ==>
            exists c :: c in certs && Contains(Lower(c.fileName), Lower(r)))
      && (forall k :: k in Keywords(job) ==> Contains(SkillsText(profile.value), Lower(k)))
  {
    var reqs := RequiredCertificates(job);
    forall r | r in reqs
      ensures CertificateOnFile(certs, r) <==> exists c :: c in certs && Contains(Lower(c.fileName), Lower(r))
    {
      if c :| c in certs && Contains(Lower(c.fileName), Lower(r)) {
        var i :| 0 <= i < |certs| && certs[i] == c;
      }
    }
  }

  /** A GPA that is not a number never fails the GPA minimum: the job is
      judged as if it had none. */
  lemma NaNGpaPasses(profile: Profile, certs: seq<Document>, job: Job)
    requires profile.gpa == Some(NaN)
    ensures Meets(Some(profile), certs, job) == Meets(Some(profile), certs, job.(minGPA := None))
  {
  }

  /** A required certificate is on file exactly when some uploaded document
      typed `certificate` or `diploma` has a file name containing it; other
      documents never count. */
  lemma CertificateOnFileIff(docs: seq<Document>, required: string)
    ensures CertificateOnFile(Certificates(docs), required) <==>
      exists d :: d in docs && IsCertificate(d) && Contains(Lower(d.fileName), Lower(required))
  {
    var certs := Certificates(docs);
    if d :| d in docs && IsCertificate(d) && Contains(Lower(d.fileName), Lower(required)) {
      var i :| 0 <= i < |certs| && certs[i] == d;
    }
  }

  /** A job without a GPA or experience minimum JavaScript treats as set and
      without
      certificates or keywords is open to every loaded profile. */
  lemma NoRequirementsQualifies(profile: Profile, certs: seq<Document>, job: Job)
    requires Unset(job.minGPA) && Unset(job.minExperienceYears)
    requires RequiredCertificates(job) == [] && Keywords(job) == []
    ensures Meets(Some(profile), certs, job)
  {
  }

  /** Entries whose years are not a number contribute nothing: dropping them
      leaves the total unchanged. */
  lemma {:induction false} TotalYearsIgnoresNonNumeric(exps: seq<Experience>)
    ensures TotalYears(Filter((e: Experience) => e.years.Some?, exps)) == TotalYears(exps)
    decreases |exps|
  {
    if exps != [] {
      TotalYearsIgnoresNonNumeric(exps[1..]);
      var p := (e: Experience) => e.years.Some?;
      var rest := Filter(p, exps[1..]);
      if p(exps[0]) {
        assert Filter(p, exps) == [exps[0]] + rest;
        assert ([exps[0]] + rest)[1..] == rest;
      } else {
        assert Filter(p, exps) == rest;
      }
    }
  }

  /** A keyword that occurs in the profile's skills, ignoring case, is found. */
  lemma KeywordInSkills(profile: Profile, keyword: string)
    requires Contains(Lower(profile.skills.GetOr("")), Lower(keyword))
    ensures KeywordFound(profile, keyword)
  {
    var skills := profile.skills.GetOr("");
    var entries := if profile.experience.Some? then Map(ExperienceText, profile.experience.value) else [];
    var parts := [skills] + entries;
    var tail := if |parts| == 1 then "" else [' '] + Join(parts[1..], ' ');
    assert Join(parts, ' ') == skills + tail;
    LowerConcat(skills, tail);
    ContainsInConcat("", Lower(skills), Lower(tail), Lower(keyword));
    assert "" + Lower(skills) + Lower(tail) == Lower(skills + tail);
  }

  // ------------------------------------------------------ applied and saved jobs

  /** `[...new Set([...ids, jobId])]`: the ids so far and `jobId`, each
      once. */
  function WithId(ids: seq<string>, jobId: string): (r: seq<string>)
    ensures forall x :: x in r <==> x in ids || x == jobId
    ensures NoDuplicates(r)
  {
    Dedup(ids + [jobId])
  }

  /** After adding, the id occurs exactly once, and adding it again changes
      nothing. */
  lemma WithIdAdds(ids: seq<string>, jobId: string)
    ensures multiset(WithId(ids, jobId))[jobId] == 1
    ensures WithId(WithId(ids, jobId), jobId) == WithId(ids, jobId)
  {
    OccursOnce(WithId(ids, jobId), jobId);
    DedupAddIdempotent(ids, jobId);
  }

  /** The Apply button is disabled for an ineligible student and for a job
      already applied to; the Save button for a job already saved. */
  predicate ApplyDisabled(profile: Option<Profile>, certs: seq<Document>, job: Job, applied: seq<string>)
    ensures profile.None? || job.id in applied ==> ApplyDisabled(profile, certs, job, applied)
    ensures !ApplyDisabled(profile, certs, job, applied) ==>
      forall r :: r in RequiredCertificates(job) ==> CertificateOnFile(certs, r)
  {
    !Meets(profile, certs, job) || job.id in applied
  }

  predicate SaveDisabled(job: Job, saved: seq<string>)
    ensures saved == [] ==> !SaveDisabled(job, saved)
    ensures NoDuplicates(saved) && !SaveDisabled(job, saved) ==> NoDuplicates(saved + [job.id])
  {
    job.id in saved
  }

  /** The applied and saved job ids the page holds. Each update is made only
      after the server call succeeds, reported here as `ok`. */
  class JobLists {
    var appliedJobIds: seq<string>
    var savedJobIds: seq<string>

    constructor (applied: seq<string>, saved: seq<string>)
      ensures appliedJobIds == applied && savedJobIds == saved
    {
      appliedJobIds := applied;
      savedJobIds := saved;
    }

    /** `applyToJob` */
    method ApplyToJob(jobId: string, ok: bool)
      modifies this
      ensures savedJobIds == old(savedJobIds)
      ensures ok ==> appliedJobIds == WithId(old(appliedJobIds), jobId)
      ensures !ok ==> appliedJobIds == old(appliedJobIds)
    {
      if ok {
        appliedJobIds := WithId(appliedJobIds, jobId);
      }
    }

    /** `saveJob` */
    method SaveJob(jobId: string, ok: bool)
      modifies this
      ensures appliedJobIds == old(appliedJobIds)
      ensures ok ==> savedJobIds == WithId(old(savedJobIds), jobId)
      ensures !ok ==> savedJobIds == old(savedJobIds)
    {
      if ok {
        savedJobIds := WithId(savedJobIds, jobId);
      }
    }
  }

  /** Once a job has been applied to, its Apply button stays disabled. */
  lemma DisabledAfterApply(profile: Option<Profile>, certs: seq<Document>, job: Job, applied: seq<string>)
    ensures ApplyDisabled(profile, certs, job, WithId(applied, job.id))
    ensures SaveDisabled(job, WithId(applied, job.id))
  {
    WithIdAdds(applied, job.id);
  }
}
