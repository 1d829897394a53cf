/** `createExecutionJob` in api-server/src/execution/execution.service.ts: file, transaction, then queue. */
module JobSubmission {
  import opened Sequences
  import opened JobLifecycle

  type JobId = string

  datatype Outcome = Died | Created | Threw

  class ExecutionService {
    var files: set<JobId>  // the source file stored for each job
    var jobs: map<JobId, Database>
    var queue: seq<JobId>

    constructor ()
      ensures Valid() && jobs == map[] && queue == []
    {
      files, jobs, queue := {}, map[], [];
    }

    /** Whatever is in the queue has its file, its row and its first log entry, and nothing else yet. */
    ghost predicate Valid()
      reads this
    {
      && (forall id :: id in queue ==> id in jobs && id in files)
      && (forall id :: id in jobs ==> exists at :: jobs[id] == Submitted(at))
    }

    /**
     `answers` says of each await in turn whether it succeeded; when they run out, the process has died there.
     The order is mkdir, writeFile, save job, save log, commit, enqueue.
     */
    method CreateExecutionJob(id: JobId, now: int, answers: seq<bool>) returns (r: Outcome)
      requires Valid() && id !in jobs
      modifies this
      ensures Valid()
      ensures var n, row := Successes(answers), Row(Queued, now);
              && files == (if n >= 2 then old(files) + {id} else old(files))
              && jobs == (if n >= 5 then old(jobs)[id := Database(Job(None, None, None, None), [row], [row])]
                          else old(jobs))
              && queue == (if n >= 6 then old(queue) + [id] else old(queue))
              && r == (if n >= 6 then Created else if n < |answers| then Threw else Died)
    {
      ghost var n := Successes(answers);
      var i := 0;
      // mkdir
      if i == |answers| { return Died; }
      if !answers[i] { return Threw; }
      i := i + 1;
      // writeFile
      if i == |answers| { return Died; }
      if !answers[i] { return Threw; }
      files := files + {id};
      i := i + 1;
      // the transaction's own copy of the new rows; only the commit publishes it
      var job, log: seq<Row> := BLANK, [];
      // save(newJob)
      if i == |answers| { return Died; }
      if !answers[i] { return Threw; }
      i := i + 1;
      // save(initialStatusLog)
      if i == |answers| { return Died; }
      if !answers[i] { return Threw; }
      log := [Row(Queued, now)];
      i := i + 1;
      // commit
      if i == |answers| { return Died; }
      if !answers[i] { return Threw; }
      jobs := jobs[id := Database(job, log, log)];
      assert jobs[id] == Submitted(now);
      i := i + 1;
      // queue.add
      if i == |answers| { return Died; }
      if !answers[i] { return Threw; }
      queue := queue + [id];
      return Created;
    }
  }

  /** How many awaits succeed before the first failure, or before the process dies. */
  function Successes(answers: seq<bool>): (n: nat)
    ensures n <= |answers|
    ensures forall i :: 0 <= i < n ==> answers[i]
    ensures n < |answers| ==> !answers[n]
  {
    if answers == [] || !answers[0] then 0
    else
      var n := Successes(answers[1..]);
      assert forall i :: 1 <= i <= n ==> answers[i] == answers[1..][i - 1];
      1 + n
  }
}
