/** The two job listings of app.py, `list_running_jobs_for_user` and
    `list_completed_jobs_for_user`. Each takes the full job listing of the
    batch service (here an input sequence: the client call is not modelled)
    and keeps, in listing order, the jobs whose `user` label equals the
    caller's normalised email and whose state is one of two given states. */
module JobFilter {
  import opened Identity

  datatype Option<T> = None | Some(value: T)

  /** The lifecycle state the batch service reports for a job. The filters
      name five states; `Other` stands for every other state the service may
      report (unspecified, deletion in progress and the like), none of which
      either filter keeps. */
  datatype JobState = Queued | Scheduled | Running | Succeeded | Failed | Other

  /** A job as the listing returns it: its name, its label map and its state. */
  datatype Job = Job(name: string, labels: map<string, string>, state: JobState)

  /** The label key that attributes a job to a user. */
  const UserLabelKey: string := "user"

  /** The states `list_running_jobs_for_user` keeps. */
  const RunningStates: seq<JobState> := [Running, Queued]

  /** The states `list_completed_jobs_for_user` keeps. */
  const CompletedStates: seq<JobState> := [Succeeded, Failed]

  /** Python's `labels.get(key)`: `None` when the key is missing. */
  function LabelGet(labels: map<string, string>, key: string): Option<string> {
    if key in labels then Some(labels[key]) else None
  }

  /** The condition of both list comprehensions:
      `job.labels.get("user") == user_label and job.status.state in states`.
      A job without a `user` label compares `None` with a string and fails. */
  predicate Selected(job: Job, userLabel: string, states: seq<JobState>) {
    LabelGet(job.labels, UserLabelKey) == Some(userLabel) && job.state in states
  }

  /** The list comprehension `[job for job in jobs if Selected(job)]`. */
  function FilterJobs(jobs: seq<Job>, userLabel: string, states: seq<JobState>): (r: seq<Job>)
    ensures |r| <= |jobs|
    ensures forall j :: j in r ==> j in jobs && Selected(j, userLabel, states)
  {
    if jobs == [] then []
    else (if Selected(jobs[0], userLabel, states) then [jobs[0]] else [])
         + FilterJobs(jobs[1..], userLabel, states)
  }

  /** `list_running_jobs_for_user`: the caller's jobs that are RUNNING or QUEUED. */
  function RunningJobsForUser(allJobs: seq<Job>, userEmail: string): (r: seq<Job>)
    ensures forall j :: j in r ==> j in allJobs
    ensures forall j :: j in r ==> UserLabelKey in j.labels && j.labels[UserLabelKey] == Normalize(userEmail)
    ensures forall j :: j in r ==> j.state == Running || j.state == Queued
  {
    FilterJobs(allJobs, Normalize(userEmail), RunningStates)
  }

  /** `list_completed_jobs_for_user`: the caller's jobs that SUCCEEDED or FAILED. */
  function CompletedJobsForUser(allJobs: seq<Job>, userEmail: string): (r: seq<Job>)
    ensures forall j :: j in r ==> j in allJobs
    ensures forall j :: j in r ==> UserLabelKey in j.labels && j.labels[UserLabelKey] == Normalize(userEmail)
    ensures forall j :: j in r ==> j.state == Succeeded || j.state == Failed
  {
    FilterJobs(allJobs, Normalize(userEmail), CompletedStates)
  }

  /** `a` is `b` with some elements left out, the rest in their order. */
  predicate IsSubsequence<T(==)>(a: seq<T>, b: seq<T>)
    decreases |b|
  {
    if a == [] then true
    else if b == [] then false
    else (a[0] == b[0] && IsSubsequence(a[1..], b[1..])) || IsSubsequence(a, b[1..])
  }

  /** What a filter promises, stated without computing it: `r` keeps the
      order of `jobs`, and holds every selected job exactly as often as
      `jobs` does and no other job. */
  ghost predicate IsFilterOf(r: seq<Job>, jobs: seq<Job>, userLabel: string, states: seq<JobState>) {
    && IsSubsequence(r, jobs)
    && forall x :: multiset(r)[x] == if Selected(x, userLabel, states) then multiset(jobs)[x] else 0
  }

  /** The filter meets its specification. */
  lemma FilterJobsMeetsSpec(jobs: seq<Job>, userLabel: string, states: seq<JobState>)
    ensures IsFilterOf(FilterJobs(jobs, userLabel, states), jobs, userLabel, states)
  {
    FilterJobsOrder(jobs, userLabel, states);
    FilterJobsCounts(jobs, userLabel, states);
  }

  lemma {:induction false} FilterJobsOrder(jobs: seq<Job>, userLabel: string, states: seq<JobState>)
    ensures IsSubsequence(FilterJobs(jobs, userLabel, states), jobs)
  {
    if jobs != [] {
      var rest := FilterJobs(jobs[1..], userLabel, states);
      FilterJobsOrder(jobs[1..], userLabel, states);
      if Selected(jobs[0], userLabel, states) {
        var r := [jobs[0]] + rest;
        assert r[0] == jobs[0] && r[1..] == rest;
      } else {
        assert FilterJobs(jobs, userLabel, states) == [] + rest == rest;
      }
    }
  }

  lemma {:induction false} FilterJobsCounts(jobs: seq<Job>, userLabel: string, states: seq<JobState>)
    ensures forall x :: multiset(FilterJobs(jobs, userLabel, states))[x] ==
              (if Selected(x, userLabel, states) then multiset(jobs)[x] else 0)
  {
    if jobs != [] {
      var h, t := jobs[0], jobs[1..];
      FilterJobsCounts(t, userLabel, states);
      assert jobs == [h] + t;
      assert multiset(jobs) == multiset{h} + multiset(t);
      if Selected(h, userLabel, states) {
        assert multiset(FilterJobs(jobs, userLabel, states)) == multiset{h} + multiset(FilterJobs(t, userLabel, states));
      }
    }
  }

  lemma {:induction false} SubsequenceMultiset<T>(a: seq<T>, b: seq<T>)
    requires IsSubsequence(a, b)
    ensures multiset(a) <= multiset(b)
    decreases |b|
  {
    if a != [] {
      assert b == [b[0]] + b[1..];
      if a[0] == b[0] && IsSubsequence(a[1..], b[1..]) {
        SubsequenceMultiset(a[1..], b[1..]);
        assert a == [a[0]] + a[1..];
      } else {
        SubsequenceMultiset(a, b[1..]);
      }
    }
  }

  /** The specification determines the result: any sequence that keeps the
      listing order and holds exactly the selected jobs IS the filter. */
  lemma {:induction false} FilterJobsUnique(r: seq<Job>, jobs: seq<Job>, userLabel: string, states: seq<JobState>)
    requires IsFilterOf(r, jobs, userLabel, states)
    ensures r == FilterJobs(jobs, userLabel, states)
  {
    if jobs == [] {
      assert multiset(r) == multiset{};
    } else {
      var h, t := jobs[0], jobs[1..];
      assert jobs == [h] + t;
      if r == [] {
        forall x | x in t ensures !Selected(x, userLabel, states) {
          assert multiset(jobs)[x] > 0;
        }
        assert IsFilterOf(r, t, userLabel, states);
        FilterJobsUnique(r, t, userLabel, states);
        assert multiset(jobs)[h] > 0;
      } else if Selected(h, userLabel, states) {
        assert multiset(r)[h] == multiset(t)[h] + 1;
        if IsSubsequence(r, t) {
          SubsequenceMultiset(r, t);
          assert false;
        }
        assert r == [h] + r[1..];
        assert IsFilterOf(r[1..], t, userLabel, states);
        FilterJobsUnique(r[1..], t, userLabel, states);
      } else {
        assert multiset(r)[h] == 0;
        assert r[0] in multiset(r);
        assert IsSubsequence(r, t);
        forall x ensures multiset(r)[x] == if Selected(x, userLabel, states) then multiset(t)[x] else 0 {
          if Selected(x, userLabel, states) {
            assert x != h;
          }
        }
        FilterJobsUnique(r, t, userLabel, states);
      }
    }
  }

  /** Soundness and completeness of the running listing: it holds exactly the
      caller's RUNNING or QUEUED jobs, each as often as the listing does, in
      listing order; so never a SCHEDULED, SUCCEEDED or FAILED job, and never
      a job without a `user` label. */
  lemma RunningJobsExact(allJobs: seq<Job>, userEmail: string)
    ensures IsSubsequence(RunningJobsForUser(allJobs, userEmail), allJobs)
    ensures forall i :: 0 <= i < |allJobs| ==>
              (allJobs[i] in RunningJobsForUser(allJobs, userEmail) <==>
                 LabelGet(allJobs[i].labels, UserLabelKey) == Some(Normalize(userEmail)) &&
                 (allJobs[i].state == Running || allJobs[i].state == Queued))
    ensures forall x :: multiset(RunningJobsForUser(allJobs, userEmail))[x] ==
              (if Selected(x, Normalize(userEmail), RunningStates) then multiset(allJobs)[x] else 0)
  {
    FilterJobsMeetsSpec(allJobs, Normalize(userEmail), RunningStates);
    var r := RunningJobsForUser(allJobs, userEmail);
    forall i | 0 <= i < |allJobs| && Selected(allJobs[i], Normalize(userEmail), RunningStates)
      ensures allJobs[i] in r
    {
      assert multiset(allJobs)[allJobs[i]] > 0;
    }
  }

  /** The same for the completed listing: exactly the caller's SUCCEEDED or
      FAILED jobs, in listing order. */
  lemma CompletedJobsExact(allJobs: seq<Job>, userEmail: string)
    ensures IsSubsequence(CompletedJobsForUser(allJobs, userEmail), allJobs)
    ensures forall i :: 0 <= i < |allJobs| ==>
              (allJobs[i] in CompletedJobsForUser(allJobs, userEmail) <==>
                 LabelGet(allJobs[i].labels, UserLabelKey) == Some(Normalize(userEmail)) &&
                 (allJobs[i].state == Succeeded || allJobs[i].state == Failed))
    ensures forall x :: multiset(CompletedJobsForUser(allJobs, userEmail))[x] ==
              (if Selected(x, Normalize(userEmail), CompletedStates) then multiset(allJobs)[x] else 0)
  {
    FilterJobsMeetsSpec(allJobs, Normalize(userEmail), CompletedStates);
    var r := CompletedJobsForUser(allJobs, userEmail);
    forall i | 0 <= i < |allJobs| && Selected(allJobs[i], Normalize(userEmail), CompletedStates)
      ensures allJobs[i] in r
    {
      assert multiset(allJobs)[allJobs[i]] > 0;
    }
  }

  /** No job is both running and completed, whoever asks. */
  lemma RunningCompletedDisjoint(allJobs: seq<Job>, email1: string, email2: string)
    ensures forall j :: j in RunningJobsForUser(allJobs, email1) ==> j !in CompletedJobsForUser(allJobs, email2)
  {
  }

  /** A job that is SCHEDULED, or in any state the filters do not name,
      shows in neither listing, even to its owner. */
  lemma ScheduledJobHidden(allJobs: seq<Job>, userEmail: string, job: Job)
    requires job.state == Scheduled || job.state == Other
    ensures job !in RunningJobsForUser(allJobs, userEmail)
    ensures job !in CompletedJobsForUser(allJobs, userEmail)
  {
  }

  /** Isolation between users: callers whose emails normalise differently
      never see a common job, in either listing. */
  lemma UsersIsolated(allJobs: seq<Job>, email1: string, email2: string)
    requires Normalize(email1) != Normalize(email2)
    ensures forall j :: j in RunningJobsForUser(allJobs, email1) ==> j !in RunningJobsForUser(allJobs, email2)
    ensures forall j :: j in CompletedJobsForUser(allJobs, email1) ==> j !in CompletedJobsForUser(allJobs, email2)
  {
  }

  /** The converse limit of that isolation: callers whose emails normalise
      alike see exactly the same jobs. */
  lemma SameLabelSameJobs(allJobs: seq<Job>, email1: string, email2: string)
    requires Normalize(email1) == Normalize(email2)
    ensures RunningJobsForUser(allJobs, email1) == RunningJobsForUser(allJobs, email2)
    ensures CompletedJobsForUser(allJobs, email1) == CompletedJobsForUser(allJobs, email2)
  {
  }

  /** The listing works job by job: filtering a concatenated listing gives
      the concatenation of the filtered parts. */
  lemma {:induction false} FilterJobsAppend(a: seq<Job>, b: seq<Job>, userLabel: string, states: seq<JobState>)
    ensures FilterJobs(a + b, userLabel, states) == FilterJobs(a, userLabel, states) + FilterJobs(b, userLabel, states)
  {
    if a == [] {
      assert a + b == b;
    } else {
      assert (a + b)[0] == a[0] && (a + b)[1..] == a[1..] + b;
      FilterJobsAppend(a[1..], b, userLabel, states);
    }
  }
}
