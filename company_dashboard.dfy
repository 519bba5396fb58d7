/**
 * The dashboard of a company: number of jobs, active jobs and applicants.
 */
module CompanyDashboard {
  import opened Wrappers
  import opened Lists

  /** `applicantCount` is `None` when the job carries none. */
  datatype Job = Job(status: string, applicantCount: Option<nat>)

  /** `jobsData?.jobs || []` */
  function JobsOf(reply: Option<seq<Job>>): (jobs: seq<Job>)
    ensures reply.None? ==> jobs == []
    ensures reply.Some? ==> jobs == reply.value
  {
    if reply.Some? then reply.value else []
  }

  /** The applicants of all jobs; a job without a count adds 0. */
  function TotalApplicants(jobs: seq<Job>): (n: nat)
    ensures (forall i :: 0 <= i < |jobs| ==> jobs[i].applicantCount.GetOr(0) == 0) ==> n == 0
    ensures n > 0 ==> exists i :: 0 <= i < |jobs| && jobs[i].applicantCount.GetOr(0) > 0
    decreases |jobs|
  {
    if jobs == [] then 0
    else
      var rest := TotalApplicants(jobs[1..]);
      assert forall i :: 1 <= i < |jobs| ==> jobs[i] == jobs[1..][i - 1];
      jobs[0].applicantCount.GetOr(0) + rest
  }

  /** The total is additive over any split of the job list, so every job
      contributes its own count and nothing else. */
  lemma {:induction false} TotalApplicantsConcat(a: seq<Job>, b: seq<Job>)
    ensures TotalApplicants(a + b) == TotalApplicants(a) + TotalApplicants(b)
    decreases |a|
  {
    if a == [] {
      assert a + b == b;
    } else {
      assert (a + b)[1..] == a[1..] + b;
      TotalApplicantsConcat(a[1..], b);
    }
  }

  /** Each job's count is part of the total. */
  lemma TotalApplicantsBounds(jobs: seq<Job>, i: nat)
    requires i < |jobs|
    ensures jobs[i].applicantCount.GetOr(0) <= TotalApplicants(jobs)
  {
    TotalApplicantsConcat(jobs[..i], jobs[i..]);
    assert jobs == jobs[..i] + jobs[i..];
    assert jobs[i..] == [jobs[i]] + jobs[i + 1..];
  }

  /** The number of jobs shown: the list length when the list is not empty,
      otherwise the count stored on the profile, otherwise 0. */
  function JobsCount(jobs: seq<Job>, profileJobsCount: Option<nat>): (n: nat)
    ensures |jobs| > 0 ==> n == |jobs|
    ensures |jobs| == 0 ==> n == profileJobsCount.GetOr(0)
  {
    if |jobs| > 0 then |jobs| else profileJobsCount.GetOr(0)
  }

  predicate IsActive(job: Job) {
    job.status == "active"
  }

  function ActiveJobs(jobs: seq<Job>): (n: nat)
    ensures n <= |jobs|
    ensures n == |jobs| <==> forall i :: 0 <= i < |jobs| ==> IsActive(jobs[i])
  {
    var active := Filter(IsActive, jobs);
    FilterPartition(IsActive, (j: Job) => !IsActive(j), jobs);
    FilterEmpty((j: Job) => !IsActive(j), jobs);
    |active|
  }
}
