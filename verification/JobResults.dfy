/**
 What the answers of a job's awaits leave in its columns: the container's exit code and output if it exits, the
 timeout's or the failure's report if not, each stamped with the time at which the update was answered.
 */
module JobResults {
  import opened Sequences
  import opened JobLifecycle

  /** The first `n` awaits are answered. */
  predicate AllReply(events: seq<Event>, n: nat) {
    n <= |events| && forall i :: 0 <= i < n ==> events[i].Reply?
  }

  // ---- A run without a failure ----

  /** Await 6 answers the exit code, 7 the output, and 9 is the update. */
  function ExitColumns(job: Job, events: seq<Event>): Job
    requires AllReply(events, 10)
  {
    if events[6].code == 0
    then job.(output := Some(events[7].text), exitCode := Some(0), completedAt := Some(events[9].at))
    else job.(error := Some(events[7].text), exitCode := Some(events[6].code), completedAt := Some(events[9].at))
  }

  function ColumnsAfter(job: Job, events: seq<Event>, n: nat): Job
    requires AllReply(events, n)
  {
    if n < 10 then job else ExitColumns(job, events)
  }

  function LogAfter(log: seq<Row>, events: seq<Event>, n: nat): seq<Row>
    requires AllReply(events, n)
  {
    if n < 2 then log
    else if n < 4 then log + [Row(Ready, events[1].at)]
    else if n < 11 then log + [Row(Ready, events[1].at), Row(Running, events[3].at)]
    else
      var verdict := if events[6].code == 0 then FinishedWithSuccess else FinishedWithError;
      log + [Row(Ready, events[1].at), Row(Running, events[3].at), Row(verdict, events[10].at)]
  }

  /** Where the process stands after `n` answers. */
  function PcAfter(events: seq<Event>, n: nat): Pc
    requires AllReply(events, n) && n <= 11
  {
    match n
    case 0 => Find
    case 1 => LogReady
    case 2 => Access
    case 3 => LogRunning
    case 4 => Create
    case 5 => Start
    case 6 => Wait
    case 7 => FetchLogs(events[6].code)
    case 8 => Remove(events[6].code, events[7].text)
    case 9 =>
      if events[6].code == 0 then SuccessUpdate(events[7].text) else ErrorUpdate(events[6].code, events[7].text)
    case 10 => if events[6].code == 0 then SuccessLog else ErrorLog
    case _ => Resolved
  }

  lemma {:induction false} StageReached(db: Database, events: seq<Event>, n: nat)
    requires AllReply(events, n) && n <= 11
    ensures var p := Run(Begin(db), events[..n]);
            && p.pc == PcAfter(events, n) && p.caught == None
            && p.db.job == ColumnsAfter(db.job, events, n) && p.db.log == LogAfter(db.log, events, n)
  {
    hide Run;
    if n == 0 {
      RunNothing(Begin(db), events);
    } else {
      StageReached(db, events, n - 1);
      RunSteps(Begin(db), events, n - 1);
    }
  }

  // ---- A failure ----

  /** Once an await has failed the process resolves no more. */
  predicate Failing(pc: Pc) {
    pc.Kill? || pc.Discard? || pc.TimeoutUpdate? || pc.TimeoutLog? || pc.FailUpdate? || pc.FailLog? || pc.Rejected?
  }

  lemma {:induction false} FailingStays(start: Process, events: seq<Event>, i: nat)
    requires i <= |events| && Failing(Run(start, events[..i]).pc)
    ensures Failing(Run(start, events).pc)
    decreases |events| - i
  {
    hide Run;
    if i == |events| {
      assert events[..i] == events;
    } else {
      RunSteps(start, events, i);
      FailingStays(start, events, i + 1);
    }
  }

  function FirstFailure(events: seq<Event>): (f: nat)
    requires !AllReply(events, |events|)
    ensures f < |events| && AllReply(events, f) && events[f].Fail?
  {
    if events[0].Fail? then 0
    else
      var f := FirstFailure(events[1..]);
      assert forall i :: 1 <= i <= f + 1 ==> events[i] == events[1..][i - 1];
      f + 1
  }

  lemma FailureTaken(db: Database, events: seq<Event>, f: nat)
    requires f < 11 && f < |events| && AllReply(events, f) && events[f].Fail?
    ensures var p, thrown := Run(Begin(db), events[..f + 1]), events[f].message;
            && p.pc == (if f == 6 then Kill(thrown) else FailUpdate(thrown)) && Failing(p.pc)
            && p.db.job == ColumnsAfter(db.job, events, f) && p.db.log == LogAfter(db.log, events, f)
  {
    hide Run, ColumnsAfter, LogAfter;
    StageReached(db, events, f);
    RunSteps(Begin(db), events, f);
  }

  /** The job resolves exactly when eleven awaits are answered; then the columns are the container's answers. */
  lemma ResolvedIff(db: Database, events: seq<Event>)
    ensures var p := Run(Begin(db), events);
            && (p.pc.Resolved? <==> AllReply(events, 11))
            && (p.pc.Resolved? ==> p.db.job == ExitColumns(db.job, events) && p.db.log == LogAfter(db.log, events, 11))
  {
    hide Run, Step;
    if AllReply(events, 11) {
      StageReached(db, events, 11);
      FinishedStays(Begin(db), events, 11);
    } else if AllReply(events, |events|) {
      StageReached(db, events, |events|);
      assert events[..|events|] == events;
    } else {
      var f := FirstFailure(events);
      FailureTaken(db, events, f);
      FailingStays(Begin(db), events, f + 1);
    }
  }

  /** What the outer catch leaves if it is entered with `thrown` before await `g`: nothing, unless that is answered. */
  function Reported(job: Job, events: seq<Event>, g: nat, thrown: string): Job {
    if g < |events| && events[g].Reply?
    then job.(error := Some(if thrown == "" then "Error" else thrown),
              exitCode := Some(-1),
              completedAt := Some(events[g].at))
    else job
  }

  function FailureLogged(log: seq<Row>, events: seq<Event>, g: nat): seq<Row> {
    if g + 1 < |events| && events[g].Reply? && events[g + 1].Reply?
    then log + [Row(Failed, events[g + 1].at)]
    else log
  }

  lemma ReportFollows(start: Process, events: seq<Event>, g: nat, thrown: string)
    requires g <= |events| && Run(start, events[..g]).pc == FailUpdate(thrown)
    ensures var p, q := Run(start, events[..g]), Run(start, events);
            && q.db.job == Reported(p.db.job, events, g, thrown)
            && q.db.log == FailureLogged(p.db.log, events, g)
  {
    hide Run;
    assert events[..|events|] == events;
    if g < |events| {
      RunSteps(start, events, g);
      if events[g].Fail? {
        FinishedStays(start, events, g + 1);
      } else if g + 1 < |events| {
        RunSteps(start, events, g + 1);
        FinishedStays(start, events, g + 2);
      }
    }
  }

  /** An await other than the container's exit fails: what the columns held by then, and the failure's report. */
  lemma FailureIsReported(db: Database, events: seq<Event>, f: nat)
    requires f < 11 && f != 6 && f < |events| && AllReply(events, f) && events[f].Fail?
    ensures var q := Run(Begin(db), events).db;
            && q.job == Reported(ColumnsAfter(db.job, events, f), events, f + 1, events[f].message)
            && q.log == FailureLogged(LogAfter(db.log, events, f), events, f + 1)
  {
    hide Run, ColumnsAfter, LogAfter, Reported, FailureLogged;
    FailureTaken(db, events, f);
    ReportFollows(Begin(db), events, f + 1, events[f].message);
  }

  /** What the inner catch leaves, whatever becomes of `kill` and `remove`: await 9 is its update. */
  function TimedOutColumns(job: Job, events: seq<Event>): Job {
    if 9 < |events| && events[9].Reply?
    then job.(error := Some("Execution timeout (30s)"), exitCode := Some(-1), completedAt := Some(events[9].at))
    else job
  }

  function TimedOutLog(log: seq<Row>, events: seq<Event>): seq<Row> {
    if 10 < |events| && events[9].Reply? && events[10].Reply?
    then log + [Row(FinishedWithError, events[10].at)]
    else log
  }

  lemma TimeoutCaught(db: Database, events: seq<Event>)
    requires AllReply(events, 6) && 9 <= |events| && events[6].Fail?
    ensures var p := Run(Begin(db), events[..9]);
            && p.pc == TimeoutUpdate(events[6].message)
            && p.db.job == db.job && p.db.log == LogAfter(db.log, events, 6)
  {
    hide Run, LogAfter;
    FailureTaken(db, events, 6);
    RunSteps(Begin(db), events, 7);
    RunSteps(Begin(db), events, 8);
  }

  lemma TimeoutPending(db: Database, events: seq<Event>)
    requires AllReply(events, 6) && 6 < |events| <= 9 && events[6].Fail?
    ensures var q := Run(Begin(db), events).db;
            q.job == db.job && q.log == LogAfter(db.log, events, 6)
  {
    hide Run, LogAfter;
    assert events[..|events|] == events;
    FailureTaken(db, events, 6);
    if 8 <= |events| { RunSteps(Begin(db), events, 7); }
    if 9 <= |events| { RunSteps(Begin(db), events, 8); }
  }

  lemma TimeoutUpdated(db: Database, events: seq<Event>)
    requires AllReply(events, 6) && 10 <= |events| && events[6].Fail?
    ensures var p := Run(Begin(db), events[..10]);
            && p.pc == (if events[9].Fail? then FailUpdate(events[9].message) else TimeoutLog(events[6].message))
            && p.db.job == TimedOutColumns(db.job, events) && p.db.log == LogAfter(db.log, events, 6)
  {
    hide Run, LogAfter;
    TimeoutCaught(db, events);
    RunSteps(Begin(db), events, 9);
  }

  lemma TimeoutLogged(db: Database, events: seq<Event>)
    requires AllReply(events, 6) && 11 <= |events| && events[6].Fail? && events[9].Reply?
    ensures var p := Run(Begin(db), events[..11]);
            && p.pc == FailUpdate(if events[10].Fail? then events[10].message else events[6].message)
            && p.db.job == TimedOutColumns(db.job, events)
            && p.db.log == TimedOutLog(LogAfter(db.log, events, 6), events)
  {
    hide Run, LogAfter, TimedOutColumns;
    TimeoutUpdated(db, events);
    RunSteps(Begin(db), events, 10);
  }

  /**
   The container's exit is not awaited to its end: the timeout's report, then the failure's. `g` is the await at which
   the outer catch is entered, and what it has caught is what came last: the failure of the timeout's update or row,
   or else what the inner catch caught.
   */
  lemma TimeoutIsReported(db: Database, events: seq<Event>)
    requires AllReply(events, 6) && 6 < |events| && events[6].Fail?
    ensures var q, early := Run(Begin(db), events).db, 9 < |events| && events[9].Fail?;
            var g := if early then 10 else 11;
            var thrown := if early then events[9].message
                          else if 10 < |events| && events[10].Fail? then events[10].message
                          else events[6].message;
            && q.job == Reported(TimedOutColumns(db.job, events), events, g, thrown)
            && q.log == FailureLogged(TimedOutLog(LogAfter(db.log, events, 6), events), events, g)
  {
    hide Run, Step, LogAfter;
    assert events[..|events|] == events;
    if |events| <= 9 {
      TimeoutPending(db, events);
    } else {
      TimeoutUpdated(db, events);
      if events[9].Fail? {
        ReportFollows(Begin(db), events, 10, events[9].message);
      } else if 10 < |events| {
        TimeoutLogged(db, events);
        ReportFollows(Begin(db), events, 11, if events[10].Fail? then events[10].message else events[6].message);
      }
    }
  }

  // ---- The submitted job ----

  /** The columns and the rows of a job that resolves, from the answers alone. */
  lemma ResolvedShowsTheAnswers(at: int, events: seq<Event>)
    requires Run(Begin(Submitted(at)), events).pc.Resolved?
    ensures AllReply(events, 11)
    ensures var code, text, db := events[6].code, events[7].text, Run(Begin(Submitted(at)), events).db;
            && db.job == (if code == 0 then Job(Some(text), None, Some(0), Some(events[9].at))
                          else Job(None, Some(text), Some(code), Some(events[9].at)))
            && db.log == [Row(Queued, at), Row(Ready, events[1].at), Row(Running, events[3].at),
                          Row(if code == 0 then FinishedWithSuccess else FinishedWithError, events[10].at)]
  {
    hide Run;
    ResolvedIff(Submitted(at), events);
  }

  /** Success is logged exactly when all eleven awaits are answered and the container's exit code is 0. */
  lemma SuccessIff(at: int, events: seq<Event>)
    ensures FinishedWithSuccess in Statuses(Run(Begin(Submitted(at)), events).db.log)
            <==> AllReply(events, 11) && events[6].code == 0
  {
    hide Run, Step;
    var db := Submitted(at);
    if AllReply(events, 11) {
      ResolvedIff(db, events);
      assert AllReply(events, 11);
      LogSays(Run(Begin(db), events).db.log, 3);
    } else if AllReply(events, |events|) {
      StageReached(db, events, |events|);
      assert events[..|events|] == events;
    } else {
      var f := FirstFailure(events);
      if f == 6 { TimeoutIsReported(db, events); } else { FailureIsReported(db, events, f); }
    }
  }

  lemma LogSays(log: seq<Row>, i: nat)
    requires i < |log|
    ensures Statuses(log)[i] == log[i].status && log[i].status in Statuses(log)
  {
    assert Statuses(log)[i] == log[i].status;
  }
}
