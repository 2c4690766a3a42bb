/**
 * manage_jobs in employer_profile/views.py: every post of the employer
 * gets a status (active, deactivated or expired) and the days left until
 * its deadline, and the listing is ordered by a status rank computed in the
 * query, then newest first. Dates are day numbers; `today` is date.today().
 */
module ManageJobs {
  import opened JobViews
  import IndexViews

  datatype Status = Active | Deactivated | Expired

  /** The status the view shows: a switched-off post is deactivated whatever its deadline. */
  function StatusOf(isActive: bool, deadline: int, today: int): Status {
    if !isActive then Deactivated
    else if deadline < today then Expired
    else Active
  }

  /**
   * The `status_rank` annotation: the first matching `When` of the `Case`,
   * 3 when none matches.
   */
  function Rank(isActive: bool, deadline: int, today: int): int {
    if isActive && deadline >= today then 0
    else if !isActive then 1
    else if isActive && deadline < today then 2
    else 3
  }

  /** Where a status stands in the listing: active, then deactivated, then expired. */
  function StatusPlace(s: Status): nat {
    match s
    case Active => 0
    case Deactivated => 1
    case Expired => 2
  }

  /** The rank the query sorts by is the place of the status the page shows; the default never applies. */
  lemma RankIsStatusPlace(isActive: bool, deadline: int, today: int)
    ensures Rank(isActive, deadline, today) == StatusPlace(StatusOf(isActive, deadline, today))
    ensures Rank(isActive, deadline, today) != 3
  {
  }

  function JobRank(job: JobPost, today: int): int {
    Rank(job.isActive, job.details.applicationDeadline, today)
  }

  function JobStatus(job: JobPost, today: int): Status {
    StatusOf(job.isActive, job.details.applicationDeadline, today)
  }

  /** `order_by('status_rank', '-posted_at')`: lower rank first, then the newer post. */
  predicate ListedBefore(a: JobPost, b: JobPost, today: int) {
    JobRank(a, today) < JobRank(b, today)
    || (JobRank(a, today) == JobRank(b, today) && a.postedAt >= b.postedAt)
  }

  predicate Listed(jobs: seq<JobPost>, today: int) {
    forall i, j :: 0 <= i < j < |jobs| ==> ListedBefore(jobs[i], jobs[j], today)
  }

  /**
   * In a listing in query order, active posts come first, then deactivated,
   * then expired ones, and within one status the newer post comes first.
   */
  lemma ListingGroupsByStatus(jobs: seq<JobPost>, today: int, i: int, j: int)
    requires Listed(jobs, today) && 0 <= i < j < |jobs|
    ensures StatusPlace(JobStatus(jobs[i], today)) <= StatusPlace(JobStatus(jobs[j], today))
    ensures JobStatus(jobs[i], today) == JobStatus(jobs[j], today) ==> jobs[i].postedAt >= jobs[j].postedAt
  {
    assert ListedBefore(jobs[i], jobs[j], today);
    RankIsStatusPlace(jobs[i].isActive, jobs[i].details.applicationDeadline, today);
    RankIsStatusPlace(jobs[j].isActive, jobs[j].details.applicationDeadline, today);
  }

  /** One entry of the listing. */
  datatype Row = Row(
    jobId: int,
    title: string,
    postedAt: int,
    deadline: int,
    daysLeft: int,
    status: Status,
    department: string,
    workType: string,
    numCandidatesRequired: int)

  /** The entry the view builds for one post: `days_left` is the signed count of days to the deadline. */
  function RowOf(job: JobPost, today: int): Row {
    var d := job.details;
    Row(job.jobId, d.title, job.postedAt, d.applicationDeadline, d.applicationDeadline - today,
        JobStatus(job, today), d.department, d.workType, d.numCandidatesRequired)
  }

  /**
   * What an entry tells: an active post has days left and they are the days
   * job_details shows; an expired one is past its deadline and job_details
   * shows 0; a deactivated one may be either.
   */
  lemma RowMeaning(job: JobPost, today: int)
    ensures var r := RowOf(job, today);
      && (r.status == Active <==> job.isActive && r.daysLeft >= 0)
      && (r.status == Expired <==> job.isActive && r.daysLeft < 0)
      && (r.status == Deactivated <==> !job.isActive)
      && (r.daysLeft > 0 ==> IndexViews.DaysRemaining(r.deadline, today) == r.daysLeft)
      && (r.status == Expired ==> IndexViews.DaysRemaining(r.deadline, today) == 0)
  {
  }

  /** The loop that turns the page of posts into entries. */
  method ListRows(jobs: seq<JobPost>, today: int) returns (rows: seq<Row>)
    ensures |rows| == |jobs|
    ensures forall i :: 0 <= i < |jobs| ==> rows[i] == RowOf(jobs[i], today)
  {
    rows := [];
    for k := 0 to |jobs|
      invariant |rows| == k
      invariant forall i :: 0 <= i < k ==> rows[i] == RowOf(jobs[i], today)
    {
      var job := jobs[k];
      var status;
      if !job.isActive {
        status := Deactivated;
      } else if job.details.applicationDeadline < today {
        status := Expired;
      } else {
        status := Active;
      }
      var daysLeft := job.details.applicationDeadline - today;
      var d := job.details;
      rows := rows + [Row(job.jobId, d.title, job.postedAt, d.applicationDeadline, daysLeft,
                          status, d.department, d.workType, d.numCandidatesRequired)];
    }
  }

  /** Entries built from a listing in query order keep the status grouping. */
  lemma RowsGrouped(jobs: seq<JobPost>, rows: seq<Row>, today: int)
    requires Listed(jobs, today)
    requires |rows| == |jobs| && forall i :: 0 <= i < |jobs| ==> rows[i] == RowOf(jobs[i], today)
    ensures forall i, j :: 0 <= i < j < |rows| ==> StatusPlace(rows[i].status) <= StatusPlace(rows[j].status)
  {
    forall i, j | 0 <= i < j < |rows| ensures StatusPlace(rows[i].status) <= StatusPlace(rows[j].status) {
      ListingGroupsByStatus(jobs, today, i, j);
    }
  }
}
