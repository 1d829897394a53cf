/**
 `processJob` as the source writes it, with its nested try/catch, against the await-by-await account of
 `JobLifecycle`. Every await consumes one event; when they run out, the process has died there.
 */
module JobProcessor {
  import opened Sequences
  import opened JobLifecycle
  import opened JobResults

  datatype Outcome = Died | Done | Threw(message: string)

  /** After `i` answers the process that began at `start` stands at `pc`, having left the database as `db`. */
  ghost predicate Stands(start: Process, events: seq<Event>, i: nat, db: Database, pc: Pc, caught: Option<string>) {
    i <= |events| && Run(start, events[..i]) == Process(db, pc, caught)
  }

  /** How a block of code ended: normally at `pc`, with an error on its way to the outer catch, or not at all. */
  ghost predicate Ended(start: Process, events: seq<Event>, i: nat, db: Database, r: Outcome, pc: Pc) {
    match r
    case Died => i == |events| && var p := Run(start, events); p.db == db && !p.pc.Resolved? && !p.pc.Rejected?
    case Done => Stands(start, events, i, db, pc, None)
    case Threw(m) => exists caught :: Stands(start, events, i, db, FailUpdate(m), caught)
  }

  /** The awaits whose failure goes straight to the outer catch. */
  predicate Guarded(pc: Pc) {
    !pc.Wait? && !pc.Kill? && !pc.Discard? && !pc.FailUpdate? && !pc.FailLog? && !pc.Resolved? && !pc.Rejected?
  }

  lemma Answered(start: Process, events: seq<Event>, i: nat, db: Database, pc: Pc, caught: Option<string>)
    requires Stands(start, events, i, db, pc, caught) && i < |events|
    ensures Run(start, events[..i + 1]) == Step(Process(db, pc, caught), events[i])
    ensures events[i].Fail? && Guarded(pc) ==>
              Stands(start, events, i + 1, db, FailUpdate(events[i].message), caught)
  {
    RunSteps(start, events, i);
  }

  lemma DiedAt(start: Process, events: seq<Event>, db: Database, pc: Pc, caught: Option<string>)
    requires Stands(start, events, |events|, db, pc, caught) && !pc.Resolved? && !pc.Rejected?
    ensures forall after :: Ended(start, events, |events|, db, Died, after)
  {
    assert events[..|events|] == events;
  }

  class ExecutionProcessor {
    var db: Database

    /** One row more: last in the log, anywhere among the rows a query returns; the job's columns stay. */
    method CreateStatusLog(status: Status, e: Event)
      requires e.Reply?
      modifies this
      ensures db.log == old(db.log) + [Row(status, e.at)] && db.job == old(db.job)
      ensures multiset(db.table) == multiset(old(db.table)) + multiset{Row(status, e.at)}
      ensures db == Append(old(db), status, e)
    {
      var row := Row(status, e.at);
      var k := if e.slot <= |db.table| then e.slot else |db.table|;
      assert db.table == db.table[..k] + db.table[k..];
      db := Database(db.job, db.log + [row], db.table[..k] + [row] + db.table[k..]);
    }

    /** From the delivery of the job to the start of its container. */
    method Prepare(events: seq<Event>, ghost start: Process) returns (r: Outcome, i: nat)
      requires start == Begin(db)
      modifies this
      ensures i <= |events| && Ended(start, events, i, db, r, Wait)
    {
      hide Run, Append;
      i := 0;
      assert Run(start, events[..0]) == start by { RunNothing(start, events); }
      // findOne
      if i == |events| { DiedAt(start, events, db, Find, None); return Died, i; }
      Answered(start, events, i, db, Find, None);
      if events[i].Fail? { return Threw(events[i].message), i + 1; }
      i := i + 1;
      // createStatusLog(READY)
      if i == |events| { DiedAt(start, events, db, LogReady, None); return Died, i; }
      Answered(start, events, i, db, LogReady, None);
      if events[i].Fail? { return Threw(events[i].message), i + 1; }
      CreateStatusLog(Ready, events[i]);
      i := i + 1;
      // access
      if i == |events| { DiedAt(start, events, db, Access, None); return Died, i; }
      Answered(start, events, i, db, Access, None);
      if events[i].Fail? { return Threw(events[i].message), i + 1; }
      i := i + 1;
      // createStatusLog(RUNNING)
      if i == |events| { DiedAt(start, events, db, LogRunning, None); return Died, i; }
      Answered(start, events, i, db, LogRunning, None);
      if events[i].Fail? { return Threw(events[i].message), i + 1; }
      CreateStatusLog(Running, events[i]);
      i := i + 1;
      // createContainer
      if i == |events| { DiedAt(start, events, db, Create, None); return Died, i; }
      Answered(start, events, i, db, Create, None);
      if events[i].Fail? { return Threw(events[i].message), i + 1; }
      i := i + 1;
      // start
      if i == |events| { DiedAt(start, events, db, Start, None); return Died, i; }
      Answered(start, events, i, db, Start, None);
      if events[i].Fail? { return Threw(events[i].message), i + 1; }
      return Done, i + 1;
    }

    /** The race between the container's exit and the timer, with the inner catch. */
    method AwaitExit(events: seq<Event>, at: nat, ghost start: Process) returns (r: Outcome, i: nat, code: int)
      requires Stands(start, events, at, db, Wait, None)
      modifies this
      ensures i <= |events| && Ended(start, events, i, db, r, FetchLogs(code))
    {
      hide Run, Append;
      i, code := at, 0;
      if i == |events| { DiedAt(start, events, db, Wait, None); return Died, i, code; }
      Answered(start, events, i, db, Wait, None);
      if events[i].Reply? { return Done, i + 1, events[i].code; }
      // catch (timeoutError)
      var timeoutError := events[i].message;
      ghost var caught := Some(timeoutError);
      i := i + 1;
      // kill().catch(() => {})
      if i == |events| { DiedAt(start, events, db, Kill(timeoutError), caught); return Died, i, code; }
      Answered(start, events, i, db, Kill(timeoutError), caught);
      i := i + 1;
      // remove().catch(() => {})
      if i == |events| { DiedAt(start, events, db, Discard(timeoutError), caught); return Died, i, code; }
      Answered(start, events, i, db, Discard(timeoutError), caught);
      i := i + 1;
      // update
      if i == |events| { DiedAt(start, events, db, TimeoutUpdate(timeoutError), caught); return Died, i, code; }
      Answered(start, events, i, db, TimeoutUpdate(timeoutError), caught);
      if events[i].Fail? { return Threw(events[i].message), i + 1, code; }
      db := db.(job := db.job.(error := Some(TIMEOUT), exitCode := Some(-1), completedAt := Some(events[i].at)));
      i := i + 1;
      // createStatusLog(FINISHED_WITH_ERROR), then rethrow
      if i == |events| { DiedAt(start, events, db, TimeoutLog(timeoutError), caught); return Died, i, code; }
      Answered(start, events, i, db, TimeoutLog(timeoutError), caught);
      if events[i].Fail? { return Threw(events[i].message), i + 1, code; }
      CreateStatusLog(FinishedWithError, events[i]);
      assert Stands(start, events, i + 1, db, FailUpdate(timeoutError), caught);
      return Threw(timeoutError), i + 1, code;
    }

    /** The container's output and its removal, then the result. */
    method Collect(events: seq<Event>, at: nat, code: int, ghost start: Process) returns (r: Outcome, i: nat)
      requires Stands(start, events, at, db, FetchLogs(code), None)
      modifies this
      ensures i <= |events| && Ended(start, events, i, db, r, Resolved)
    {
      hide Run, Append;
      i := at;
      // logs
      if i == |events| { DiedAt(start, events, db, FetchLogs(code), None); return Died, i; }
      Answered(start, events, i, db, FetchLogs(code), None);
      if events[i].Fail? { return Threw(events[i].message), i + 1; }
      var output := events[i].text;
      i := i + 1;
      // remove
      if i == |events| { DiedAt(start, events, db, Remove(code, output), None); return Died, i; }
      Answered(start, events, i, db, Remove(code, output), None);
      if events[i].Fail? { return Threw(events[i].message), i + 1; }
      r, i := Record(events, i + 1, code, output, start);
    }

    /** The columns first, then the row that announces them. */
    method Record(events: seq<Event>, at: nat, code: int, output: string, ghost start: Process)
      returns (r: Outcome, i: nat)
      requires var pc := if code == 0 then SuccessUpdate(output) else ErrorUpdate(code, output);
               Stands(start, events, at, db, pc, None)
      modifies this
      ensures i <= |events| && Ended(start, events, i, db, r, Resolved)
    {
      hide Run, Append;
      i := at;
      if code == 0 {
        // update
        if i == |events| { DiedAt(start, events, db, SuccessUpdate(output), None); return Died, i; }
        Answered(start, events, i, db, SuccessUpdate(output), None);
        if events[i].Fail? { return Threw(events[i].message), i + 1; }
        db := db.(job := db.job.(output := Some(output), exitCode := Some(code), completedAt := Some(events[i].at)));
        i := i + 1;
        // createStatusLog(FINISHED_WITH_SUCCESS)
        if i == |events| { DiedAt(start, events, db, SuccessLog, None); return Died, i; }
        Answered(start, events, i, db, SuccessLog, None);
        if events[i].Fail? { return Threw(events[i].message), i + 1; }
        CreateStatusLog(FinishedWithSuccess, events[i]);
      } else {
        // update
        if i == |events| { DiedAt(start, events, db, ErrorUpdate(code, output), None); return Died, i; }
        Answered(start, events, i, db, ErrorUpdate(code, output), None);
        if events[i].Fail? { return Threw(events[i].message), i + 1; }
        db := db.(job := db.job.(error := Some(output), exitCode := Some(code), completedAt := Some(events[i].at)));
        i := i + 1;
        // createStatusLog(FINISHED_WITH_ERROR)
        if i == |events| { DiedAt(start, events, db, ErrorLog, None); return Died, i; }
        Answered(start, events, i, db, ErrorLog, None);
        if events[i].Fail? { return Threw(events[i].message), i + 1; }
        CreateStatusLog(FinishedWithError, events[i]);
      }
      return Done, i + 1;
    }

    method Try(events: seq<Event>, ghost start: Process) returns (r: Outcome, i: nat)
      requires start == Begin(db)
      modifies this
      ensures i <= |events| && Ended(start, events, i, db, r, Resolved)
    {
      hide Run, Append, Stands;
      r, i := Prepare(events, start);
      if r != Done { return; }
      var code;
      r, i, code := AwaitExit(events, i, start);
      if r != Done { return; }
      r, i := Collect(events, i, code, start);
    }

    method ProcessJob(events: seq<Event>) returns (r: Outcome)
      modifies this
      ensures var p := Run(Begin(old(db)), events);
              && db == p.db
              && (r == Done <==> p.pc.Resolved?)
              && (r.Threw? <==> p.pc.Rejected?)
              && (r.Threw? ==> p.pc == Rejected(r.message))
      ensures r == Done <==> AllReply(events, 11)
      ensures r == Done ==>
                var code, text, finished := events[6].code, events[7].text, Some(events[9].at);
                db.job == if code == 0
                          then old(db.job).(output := Some(text), exitCode := Some(0), completedAt := finished)
                          else old(db.job).(error := Some(text), exitCode := Some(code), completedAt := finished)
    {
      hide Run, Append, AllReply, ColumnsAfter, LogAfter;
      ghost var start := Begin(db);
      ResolvedIff(db, events);
      var i;
      r, i := Try(events, start);
      if r == Done { FinishedStays(start, events, i); return; }
      if r == Died { return; }
      // catch (error)
      var error := r.message;
      ghost var caught :| Stands(start, events, i, db, FailUpdate(error), caught);
      // update
      if i == |events| {
        DiedAt(start, events, db, FailUpdate(error), caught);
        assert events[..i] == events;
        return Died;
      }
      Answered(start, events, i, db, FailUpdate(error), caught);
      if events[i].Fail? { FinishedStays(start, events, i + 1); return Threw(events[i].message); }
      var finished := Some(events[i].at);
      db := db.(job := db.job.(error := Some(ErrorText(error)), exitCode := Some(-1), completedAt := finished));
      i := i + 1;
      // createStatusLog(FAILED), then rethrow
      if i == |events| { assert events[..i] == events; return Died; }
      Answered(start, events, i, db, FailLog(error), caught);
      if events[i].Fail? { FinishedStays(start, events, i + 1); return Threw(events[i].message); }
      CreateStatusLog(Failed, events[i]);
      FinishedStays(start, events, i + 1);
      return Threw(error);
    }
  }
}
