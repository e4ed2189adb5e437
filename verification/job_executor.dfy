/** Submitting jobs and collecting their results (JobExecutor in lib/cli.py). */
module JobExecutors {
  import opened Basics

  const CHOOSE_BATCH: nat := 25

  /** A job id, a job's result or an error message. */
  type Data = string

  datatype Queued = Queued(idx: nat, name: string, ops: seq<string>)
  datatype Job = Job(idx: nat, status: bool, id: Data, name: string)
  datatype Submitted = Submitted(status: bool, data: Data)

  datatype JobStatus = Waiting | InQueue | Canceling | Running | Canceled | Success | Error
  /** One row of QueryJobs; Gone stands for anything but a non-empty list. */
  datatype Answer = Gone | Row(status: JobStatus)

  datatype Polled = Finished(result: Data) | JobLost(message: Data) | Failed(message: Data)

  datatype Indexed = Indexed(idx: nat, success: bool, data: Data)
  datatype Result = Result(success: bool, data: Data)

  // ----- what is to be returned -----

  /** The result of a job, given what polling the job of each index comes to. */
  function ResultOf(job: Job, poll: nat -> Polled): (r: Indexed) {
    if !job.status then Indexed(job.idx, false, job.id)
    else
      match poll(job.idx)
      case Finished(result) => Indexed(job.idx, true, result)
      case JobLost(message) => Indexed(job.idx, false, message)
      case Failed(message) => Indexed(job.idx, false, message)
  }

  function ResultsOf(jobs: seq<Job>, poll: nat -> Polled): (r: seq<Indexed>)
    ensures |r| == |jobs| && forall i | 0 <= i < |jobs| :: r[i] == ResultOf(jobs[i], poll)
  {
    seq(|jobs|, i requires 0 <= i < |jobs| => ResultOf(jobs[i], poll))
  }

  /** What the caller is told about a job: a success only if it was submitted and polling brought its result,
      else what went wrong in submitting it or in polling. */
  predicate Tells(r: Result, job: Job, polled: Polled) {
    && (r.success <==> job.status && polled.Finished?)
    && (!job.status ==> r.data == job.id)
    && (job.status && polled.Finished? ==> r.data == polled.result)
    && (job.status && !polled.Finished? ==> r.data == polled.message)
  }

  predicate DistinctJobs(jobs: seq<Job>) {
    forall i, j | 0 <= i < j < |jobs| :: jobs[i].idx != jobs[j].idx
  }

  predicate DistinctResults(rs: seq<Indexed>) {
    forall i, j | 0 <= i < j < |rs| :: rs[i].idx != rs[j].idx
  }

  predicate Ascending(rs: seq<Indexed>) {
    forall i, j | 0 <= i < j < |rs| :: rs[i].idx < rs[j].idx
  }

  function Insert(x: Indexed, rs: seq<Indexed>): (r: seq<Indexed>) {
    if rs == [] || x.idx <= rs[0].idx then [x] + rs else [rs[0]] + Insert(x, rs[1..])
  }

  function Sort(rs: seq<Indexed>): (r: seq<Indexed>) {
    if rs == [] then [] else Insert(rs[0], Sort(rs[1..]))
  }

  function Strip(rs: seq<Indexed>): (r: seq<Result>)
    ensures |r| == |rs| && forall i | 0 <= i < |rs| :: r[i] == Result(rs[i].success, rs[i].data)
  {
    seq(|rs|, i requires 0 <= i < |rs| => Result(rs[i].success, rs[i].data))
  }

  lemma {:induction false} InsertSorts(x: Indexed, rs: seq<Indexed>)
    requires Ascending(rs) && forall y | y in rs :: y.idx != x.idx
    ensures Ascending(Insert(x, rs)) && |Insert(x, rs)| == |rs| + 1
    ensures forall y :: y in Insert(x, rs) <==> y == x || y in rs
  {
    if rs != [] && x.idx > rs[0].idx {
      InsertSorts(x, rs[1..]);
      var more := Insert(x, rs[1..]);
      assert forall y | y in more :: y.idx > rs[0].idx;
    }
  }

  /** Sorting puts results with different indices in ascending order, without losing or inventing any. */
  lemma {:induction false} SortSorts(rs: seq<Indexed>)
    requires DistinctResults(rs)
    ensures Ascending(Sort(rs)) && |Sort(rs)| == |rs|
    ensures forall y :: y in Sort(rs) <==> y in rs
  {
    if rs != [] {
      SortSorts(rs[1..]);
      InsertSorts(rs[0], Sort(rs[1..]));
    }
  }

  /** There is only one way to put the same results in ascending order. */
  lemma {:induction false} OneOrder(a: seq<Indexed>, b: seq<Indexed>)
    requires Ascending(a) && Ascending(b) && |a| == |b| && forall y :: y in a <==> y in b
    ensures a == b
  {
    if a != [] {
      assert a[0] in b;
      assert b[0] in a;
      assert a[0] == b[0];
      forall y ensures y in a[1..] <==> y in b[1..] {
        assert y in a[1..] <==> y in a && y != a[0];
        assert y in b[1..] <==> y in b && y != b[0];
      }
      OneOrder(a[1..], b[1..]);
    }
  }

  lemma ResultsDistinct(jobs: seq<Job>, poll: nat -> Polled)
    requires DistinctJobs(jobs)
    ensures DistinctResults(ResultsOf(jobs, poll))
  {
  }

  lemma ResultsSame(a: seq<Job>, b: seq<Job>, poll: nat -> Polled, y: Indexed)
    requires forall job :: job in a ==> job in b
    ensures y in ResultsOf(a, poll) ==> y in ResultsOf(b, poll)
  {
    var ra, rb := ResultsOf(a, poll), ResultsOf(b, poll);
    if y in ra {
      var i :| 0 <= i < |ra| && ra[i] == y;
      assert a[i] in b;
      var j :| 0 <= j < |b| && b[j] == a[i];
      assert rb[j] == y;
    }
  }

  /** Whatever the order in which the jobs were polled, sorting gives the same list. */
  lemma OrderDoesNotMatter(polled: seq<Job>, jobs: seq<Job>, poll: nat -> Polled)
    requires DistinctJobs(polled) && DistinctJobs(jobs)
    requires |polled| == |jobs| && forall job :: job in polled <==> job in jobs
    ensures Sort(ResultsOf(polled, poll)) == Sort(ResultsOf(jobs, poll))
  {
    hide ResultsOf;
    var a, b := ResultsOf(polled, poll), ResultsOf(jobs, poll);
    ResultsDistinct(polled, poll);
    ResultsDistinct(jobs, poll);
    SortSorts(a);
    SortSorts(b);
    forall y ensures y in Sort(a) <==> y in Sort(b) {
      ResultsSame(polled, jobs, poll, y);
      ResultsSame(jobs, polled, poll, y);
    }
    OneOrder(Sort(a), Sort(b));
  }

  /** However the jobs were recorded: of two jobs the one with the smaller index has its result first. */
  ghost predicate InIndexOrder(jobs: seq<Job>, poll: nat -> Polled, results: seq<Result>, order: seq<nat>) {
    && |order| == |jobs| == |results|
    && (forall k | 0 <= k < |order| :: order[k] < |jobs| && Tells(results[k], jobs[order[k]], poll(jobs[order[k]].idx)))
    && (forall k, m | 0 <= k < m < |order| :: order[k] < |jobs| && order[m] < |jobs| && jobs[order[k]].idx < jobs[order[m]].idx)
  }

  /** The job that a result came from. */
  lemma JobOf(jobs: seq<Job>, poll: nat -> Polled, y: Indexed) returns (i: nat)
    requires y in ResultsOf(jobs, poll)
    ensures i < |jobs| && y.idx == jobs[i].idx && Tells(Result(y.success, y.data), jobs[i], poll(jobs[i].idx))
  {
    var rs := ResultsOf(jobs, poll);
    i :| 0 <= i < |rs| && rs[i] == y;
  }

  lemma {:induction false} JobsOf(jobs: seq<Job>, poll: nat -> Polled, rs: seq<Indexed>) returns (order: seq<nat>)
    requires forall y <- rs :: y in ResultsOf(jobs, poll)
    ensures |order| == |rs|
    ensures forall k | 0 <= k < |rs| ::
              && order[k] < |jobs| && rs[k].idx == jobs[order[k]].idx
              && Tells(Result(rs[k].success, rs[k].data), jobs[order[k]], poll(jobs[order[k]].idx))
  {
    hide ResultsOf, Tells;
    order := [];
    if rs != [] {
      var n := |rs| - 1;
      assert forall y <- rs[..n] :: y in rs;
      order := JobsOf(jobs, poll, rs[..n]);
      assert rs[n] in rs;
      var i := JobOf(jobs, poll, rs[n]);
      order := order + [i];
    }
  }

  /** The results are those of all jobs in the order of their indices, each telling what became of its job. */
  lemma ResultsTell(jobs: seq<Job>, poll: nat -> Polled) returns (order: seq<nat>)
    requires DistinctJobs(jobs)
    ensures InIndexOrder(jobs, poll, Strip(Sort(ResultsOf(jobs, poll))), order)
  {
    var rs := ResultsOf(jobs, poll);
    ResultsDistinct(jobs, poll);
    SortSorts(rs);
    hide ResultsOf, Tells, Sort;
    order := JobsOf(jobs, poll, Sort(rs));
  }

  /** Some jobs are done with, others are left, and together they are the recorded ones. */
  ghost predicate Progress(done: seq<Job>, left: seq<Job>, recorded: seq<Job>) {
    && DistinctJobs(done) && DistinctJobs(left) && |done| + |left| == |recorded|
    && (forall i, j | 0 <= i < |done| && 0 <= j < |left| :: done[i].idx != left[j].idx)
    && (forall job :: job in recorded <==> job in done || job in left)
  }

  // ----- the executor -----

  predicate IsWaiting(a: Answer) {
    a.Row? && (a.status.InQueue? || a.status.Waiting? || a.status.Canceling?)
  }

  function Ids(jobs: seq<Job>): (r: seq<Data>)
    ensures |r| == |jobs| && forall i | 0 <= i < |jobs| :: r[i] == jobs[i].id
  {
    seq(|jobs|, i requires 0 <= i < |jobs| => jobs[i].id)
  }

  function Min(a: nat, b: nat): (r: nat) {
    if a <= b then a else b
  }

  /** The ids that a status query names. */
  function Queried(jobs: seq<Job>): (r: seq<Data>) {
    Ids(jobs[..Min(|jobs|, CHOOSE_BATCH)])
  }

  /** Everything before the chosen place waits; the place itself does not, unless everything does. */
  predicate Chosen(answers: seq<Answer>, n: nat, at: nat) {
    && at < n
    && (forall i | 0 <= i < at :: i < |answers| && IsWaiting(answers[i]))
    && ((at < |answers| && !IsWaiting(answers[at]))
        || (at == 0 && forall i | 0 <= i < Min(n, |answers|) :: IsWaiting(answers[i])))
  }

  /** The server is asked about the first twenty-five jobs, in order, or about all if there are fewer. */
  lemma QueriedAre(jobs: seq<Job>)
    ensures |Queried(jobs)| == (if |jobs| < 25 then |jobs| else 25)
    ensures forall i | 0 <= i < |Queried(jobs)| :: Queried(jobs)[i] == jobs[i].id
  {
  }

  /** If any of the queried jobs is gone, runs or has ended, the chosen one is the first such job. */
  lemma ReadyIsChosen(answers: seq<Answer>, n: nat, at: nat, k: nat)
    requires Chosen(answers, n, at) && k < n && k < |answers|
    requires answers[k].Gone? || answers[k].status in {Running, Canceled, Success, Error}
    ensures at <= k && at < |answers| && (answers[at].Row? ==> answers[at].status !in {InQueue, Waiting, Canceling})
  {
  }

  /** list.remove: drops the first element that is equal. */
  function Remove(jobs: seq<Job>, job: Job): (r: seq<Job>) {
    if jobs == [] then [] else if jobs[0] == job then jobs[1..] else [jobs[0]] + Remove(jobs[1..], job)
  }

  lemma {:induction false} RemoveAt(jobs: seq<Job>, i: nat)
    requires DistinctJobs(jobs) && i < |jobs|
    ensures Remove(jobs, jobs[i]) == jobs[..i] + jobs[i + 1..]
  {
    if i > 0 {
      var rest := jobs[1..];
      RemoveAt(rest, i - 1);
      assert rest[i - 1] == jobs[i] && jobs[0].idx != jobs[i].idx;
      assert jobs[..i] + jobs[i + 1..] == [jobs[0]] + (rest[..i - 1] + rest[i..]);
    }
  }

  lemma TakenOut(jobs: seq<Job>, at: nat, counter: nat)
    requires JobsValid(jobs, counter) && at < |jobs|
    ensures JobsValid(jobs[..at] + jobs[at + 1..], counter)
    ensures Remove(jobs, jobs[at]) == jobs[..at] + jobs[at + 1..]
  {
    hide Remove;
    RemoveAt(jobs, at);
    var r := jobs[..at] + jobs[at + 1..];
    forall i | 0 <= i < |r| ensures r[i] == jobs[if i < at then i else i + 1] {
    }
    forall i, k | 0 <= i < k < |r| ensures r[i].idx != r[k].idx {
      assert jobs[if i < at then i else i + 1].idx != jobs[if k < at then k else k + 1].idx;
    }
  }

  /** The jobs that the answers of a submission add to the list. */
  function Recorded(queue: seq<Queued>, answers: seq<Submitted>): (r: seq<Job>)
    ensures |r| == Min(|queue|, |answers|)
    ensures forall i | 0 <= i < |r| :: r[i] == Job(queue[i].idx, answers[i].status, answers[i].data, queue[i].name)
  {
    seq(Min(|queue|, |answers|), i requires 0 <= i < Min(|queue|, |answers|) =>
      Job(queue[i].idx, answers[i].status, answers[i].data, queue[i].name))
  }

  predicate QueueValid(queue: seq<Queued>, counter: nat) {
    && (forall i | 0 <= i < |queue| :: queue[i].idx < counter)
    && (forall i, j | 0 <= i < j < |queue| :: queue[i].idx < queue[j].idx)
  }

  predicate JobsValid(jobs: seq<Job>, counter: nat) {
    (forall i | 0 <= i < |jobs| :: jobs[i].idx < counter) && DistinctJobs(jobs)
  }

  predicate Apart(queue: seq<Queued>, jobs: seq<Job>) {
    forall i, j | 0 <= i < |queue| && 0 <= j < |jobs| :: queue[i].idx != jobs[j].idx
  }

  lemma RecordedValid(jobs: seq<Job>, queue: seq<Queued>, answers: seq<Submitted>, counter: nat)
    requires QueueValid(queue, counter) && JobsValid(jobs, counter) && Apart(queue, jobs)
    ensures JobsValid(jobs + Recorded(queue, answers), counter)
  {
  }

  /** What is true when no job is left. */
  lemma AllDone(done: seq<Job>, recorded: seq<Job>, poll: nat -> Polled, counter: nat)
    requires Progress(done, [], recorded) && JobsValid(recorded, counter)
    ensures Sort(ResultsOf(done, poll)) == Sort(ResultsOf(recorded, poll))
    ensures |Sort(ResultsOf(recorded, poll))| == |recorded|
  {
    OrderDoesNotMatter(done, recorded, poll);
    ResultsDistinct(recorded, poll);
    SortSorts(ResultsOf(recorded, poll));
  }

  lemma ResultsAppend(done: seq<Job>, job: Job, poll: nat -> Polled)
    ensures ResultsOf(done + [job], poll) == ResultsOf(done, poll) + [ResultOf(job, poll)]
  {
  }

  class JobExecutor {
    var queue: seq<Queued>
    var jobs: seq<Job>
    var counter: nat

    /** Indices are handed out once. */
    predicate Valid()
      reads this
    {
      QueueValid(queue, counter) && JobsValid(jobs, counter)
    }

    /** SubmitPending has not been called for the jobs that are queued. */
    predicate Unsubmitted()
      reads this
    {
      Apart(queue, jobs)
    }

    constructor ()
      ensures Valid() && Unsubmitted() && queue == [] && jobs == []
    {
      queue, jobs, counter := [], [], 0;
    }

    method QueueJob(name: string, ops: seq<string>)
      requires Valid()
      modifies this
      ensures Valid() && (old(Unsubmitted()) ==> Unsubmitted())
      ensures queue == old(queue) + [Queued(old(counter), name, ops)]
      ensures jobs == old(jobs) && counter == old(counter) + 1
    {
      queue := queue + [Queued(counter, name, ops)];
      counter := counter + 1;
    }

    method AddJobId(name: string, status: bool, id: Data)
      requires Valid()
      modifies this
      ensures Valid() && (old(Unsubmitted()) ==> Unsubmitted())
      ensures jobs == old(jobs) + [Job(old(counter), status, id, name)]
      ensures queue == old(queue) && counter == old(counter) + 1
    {
      jobs := jobs + [Job(counter, status, id, name)];
      counter := counter + 1;
    }

    /** The answers are those of SubmitManyJobs, or of one SubmitJob after the other; of those a failure raises. */
    method SubmitPending(each: bool, answers: seq<Submitted>) returns (raised: bool)
      requires Valid()
      modifies this`jobs
      ensures old(Unsubmitted()) ==> Valid()
      ensures raised <==> each && exists i | 0 <= i < Min(|queue|, |answers|) :: !answers[i].status
      ensures jobs == old(jobs) + (if raised then [] else Recorded(queue, answers))
    {
      hide QueueValid, JobsValid, Apart, Recorded;
      var results := answers;
      if each {
        var n := 0;
        results := [];
        while n < |queue| && n < |answers|
          invariant 0 <= n <= Min(|queue|, |answers|) && results == answers[..n]
          invariant forall i | 0 <= i < n :: answers[i].status
          modifies {}
        {
          if !answers[n].status {
            return true;
          }
          results := results + [Submitted(true, answers[n].data)];
          n := n + 1;
        }
        assert Recorded(queue, results) == Recorded(queue, answers);
      }
      var k := 0;
      while k < |results| && k < |queue|
        invariant 0 <= k <= Min(|queue|, |results|)
        invariant jobs == old(jobs) + Recorded(queue, results)[..k]
      {
        jobs := jobs + [Job(queue[k].idx, results[k].status, results[k].data, queue[k].name)];
        k := k + 1;
      }
      assert jobs == old(jobs) + Recorded(queue, answers);
      if old(Unsubmitted()) {
        RecordedValid(old(jobs), queue, answers, counter);
      }
      raised := false;
    }

    /** The first of the queried jobs that does not wait any more, or else the first job of all; None stands
        for a failed assertion. */
    method ChooseJob(query: seq<Data> -> seq<Answer>) returns (job: Option<Job>, ghost at: nat)
      requires Valid()
      modifies this`jobs
      ensures Valid()
      ensures job.None? <==> old(jobs) == [] || query(Queried(old(jobs))) == []
      ensures job.None? ==> jobs == old(jobs)
      ensures job.Some? ==> at < |old(jobs)| && job.value == old(jobs)[at]
      ensures job.Some? ==> jobs == old(jobs)[..at] + old(jobs)[at + 1..]
      ensures job.Some? ==> Chosen(query(Queried(old(jobs))), |old(jobs)|, at)
    {
      hide JobsValid, QueueValid, Remove, Queried;
      at := 0;
      if jobs == [] {
        return None, 0;
      }
      var result := query(Queried(jobs));
      if result == [] {
        return None, 0;
      }
      var k := 0;
      while k < |jobs| && k < |result|
        invariant 0 <= k <= Min(|jobs|, |result|) && jobs == old(jobs)
        invariant forall i | 0 <= i < k :: IsWaiting(result[i])
      {
        if !IsWaiting(result[k]) {
          TakenOut(jobs, k, counter);
          job, at := Some(jobs[k]), k;
          jobs := Remove(jobs, jobs[k]);
          return;
        }
        k := k + 1;
      }
      TakenOut(jobs, 0, counter);
      assert jobs[..0] + jobs[1..] == jobs[1..];
      job := Some(jobs[0]);
      jobs := jobs[1..];
    }

    /**
     * One result per job, in the order of the indices, whatever the server says about the jobs' states:
     * query(k) is its answer the k-th time it is asked. None stands for a failed assertion, which happens
     * exactly when the last question, about the jobs that are left, has an empty answer.
     */
    method GetResults(answers: seq<Submitted>, query: nat -> seq<Data> -> seq<Answer>, poll: nat -> Polled)
      returns (results: Option<seq<Result>>, ghost asked: nat)
      requires Valid()
      modifies this`jobs
      ensures var recorded := if old(jobs) == [] then Recorded(queue, answers) else old(jobs);
              results.Some? ==>
                |results.value| == |recorded| && results.value == Strip(Sort(ResultsOf(recorded, poll)))
      ensures results.Some? ==> jobs == []
      ensures results.None? <==> jobs != [] && query(asked)(Queried(jobs)) == []
    {
      hide ResultsOf, Progress, JobsValid, QueueValid, Sort, Recorded;
      if jobs == [] {
        var _ := SubmitPending(false, answers);
        assert jobs == Recorded(queue, answers);
      }
      hide Apart;
      ghost var recorded := jobs;
      var came;
      ghost var done;
      came, done := SetFailuresAside(poll);
      var times := 0;
      asked := 0;
      while jobs != []
        invariant Valid() && AllSubmitted(jobs)
        invariant Progress(done, jobs, recorded) && came == ResultsOf(done, poll) && asked == times
        decreases |jobs|
      {
        ghost var before := jobs;
        var choice, at := ChooseJob(query(times));
        if choice.None? {
          results := None;
          return;
        }
        var job := choice.value;
        times := times + 1;
        asked := times;
        TakeOut(done, before, recorded, at);
        var polled := poll(job.idx);
        var success := polled.Finished?;
        var jobResult := if success then polled.result else polled.message;
        assert job in before && Indexed(job.idx, success, jobResult) == ResultOf(job, poll);
        ResultsAppend(done, job, poll);
        came := came + [Indexed(job.idx, success, jobResult)];
        done := done + [job];
      }
      AllDone(done, recorded, poll, counter);
      results := Some(Strip(Sort(came)));
    }

    /** compat.partition and the loop over the failures. */
    method SetFailuresAside(ghost poll: nat -> Polled) returns (came: seq<Indexed>, ghost done: seq<Job>)
      requires Valid()
      modifies this`jobs
      ensures Valid() && AllSubmitted(jobs)
      ensures Progress(done, jobs, old(jobs)) && came == ResultsOf(done, poll)
    {
      var failures := Select(jobs, false);
      hide Progress, JobsValid, Select;
      SelectProgress(jobs, counter);
      jobs := Select(jobs, true);
      came := [];
      var k := 0;
      while k < |failures|
        invariant 0 <= k <= |failures| && came == ResultsOf(failures[..k], poll)
        modifies {}
      {
        came := came + [Indexed(failures[k].idx, false, failures[k].id)];
        k := k + 1;
      }
      done := failures;
      assert failures[..k] == failures;
    }
  }

  predicate AllSubmitted(jobs: seq<Job>) {
    forall i | 0 <= i < |jobs| :: jobs[i].status
  }

  function Select(jobs: seq<Job>, status: bool): (r: seq<Job>) {
    if jobs == [] then []
    else (if jobs[0].status == status then [jobs[0]] else []) + Select(jobs[1..], status)
  }

  lemma {:induction false} SelectIs(jobs: seq<Job>, status: bool)
    requires DistinctJobs(jobs)
    ensures DistinctJobs(Select(jobs, status))
    ensures forall job :: job in Select(jobs, status) <==> job in jobs && job.status == status
  {
    if jobs != [] {
      SelectIs(jobs[1..], status);
    }
  }

  lemma {:induction false} SelectCounts(jobs: seq<Job>)
    ensures |Select(jobs, true)| + |Select(jobs, false)| == |jobs|
  {
    if jobs != [] {
      SelectCounts(jobs[1..]);
    }
  }

  lemma SelectProgress(jobs: seq<Job>, counter: nat)
    requires JobsValid(jobs, counter)
    ensures Progress(Select(jobs, false), Select(jobs, true), jobs)
    ensures JobsValid(Select(jobs, true), counter) && AllSubmitted(Select(jobs, true))
    ensures forall job | job in Select(jobs, false) :: !job.status
  {
    SelectIs(jobs, true);
    SelectIs(jobs, false);
    SelectCounts(jobs);
    var failures, rest := Select(jobs, false), Select(jobs, true);
    assert forall i | 0 <= i < |rest| :: rest[i] in jobs;
    forall i, j | 0 <= i < |failures| && 0 <= j < |rest| ensures failures[i].idx != rest[j].idx {
      assert failures[i] in jobs && rest[j] in jobs;
    }
  }

  lemma TakeOut(done: seq<Job>, left: seq<Job>, recorded: seq<Job>, at: nat)
    requires Progress(done, left, recorded) && at < |left|
    ensures Progress(done + [left[at]], left[..at] + left[at + 1..], recorded)
  {
  }
}
