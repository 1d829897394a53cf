/**
 The life of an execution job in worker-service/src/worker/execution.processor.ts, one await at a time.

 `Step` is what the process does with the answer to the await it is suspended at; an answer is a reply or a
 failure, and a failed call has no effect. A crash is a run that simply stops, so every prefix of a run counts.
 */
module JobLifecycle {
  import opened Sequences

  datatype Status = Queued | Ready | Running | FinishedWithSuccess | FinishedWithError | Failed

  /** A row of the status log; the clock that stamps it is arbitrary. */
  datatype Row = Row(status: Status, createdAt: int)

  datatype Job = Job(output: Option<string>, error: Option<string>, exitCode: Option<int>, completedAt: Option<int>)

  /** The job's columns, its rows in the order they were written, and in the order a query returns them. */
  datatype Database = Database(job: Job, log: seq<Row>, table: seq<Row>)

  /** The answer to an await: at what time, in which place a new row lands, and what the call returned. */
  datatype Event = Reply(at: int, slot: nat, code: int, text: string) | Fail(message: string)

  datatype Pc =
    | Find | LogReady | Access | LogRunning | Create | Start | Wait
    | Kill(thrown: string) | Discard(thrown: string) | TimeoutUpdate(thrown: string) | TimeoutLog(thrown: string)
    | FetchLogs(code: int) | Remove(code: int, output: string)
    | SuccessUpdate(output: string) | SuccessLog
    | ErrorUpdate(code: int, output: string) | ErrorLog
    | FailUpdate(thrown: string) | FailLog(thrown: string)
    | Resolved | Rejected(thrown: string)

  /** `caught` is history: what the inner catch caught, if it caught anything. */
  datatype Process = Process(db: Database, pc: Pc, caught: Option<string>)

  const TIMEOUT := "Execution timeout (30s)"
  const BLANK := Job(None, None, None, None)

  /** `error.message || String(error)` */
  function ErrorText(message: string): string { if message == "" then "Error" else message }

  /** A new row appears somewhere among the rows a query returns, and last in the log. */
  function Append(db: Database, status: Status, e: Event): Database
    requires e.Reply?
  {
    var row := Row(status, e.at);
    var k := if e.slot <= |db.table| then e.slot else |db.table|;
    db.(log := db.log + [row], table := db.table[..k] + [row] + db.table[k..])
  }

  function Begin(db: Database): Process { Process(db, Find, None) }

  /** What `createExecutionJob` committed. */
  function Submitted(at: int): Database { Database(BLANK, [Row(Queued, at)], [Row(Queued, at)]) }

  function Step(p: Process, e: Event): Process {
    match p.pc
    case Resolved => p
    case Rejected(_) => p
    // the inner catch swallows these two failures
    case Kill(thrown) => p.(pc := Discard(thrown))
    case Discard(thrown) => p.(pc := TimeoutUpdate(thrown))
    case Wait => if e.Fail? then p.(pc := Kill(e.message), caught := Some(e.message)) else p.(pc := FetchLogs(e.code))
    // a failure inside the outer catch leaves the process
    case FailUpdate(thrown) => if e.Fail? then p.(pc := Rejected(e.message)) else RecordFailure(p, thrown, e)
    case FailLog(thrown) =>
      if e.Fail? then p.(pc := Rejected(e.message))
      else p.(db := Append(p.db, Failed, e), pc := Rejected(thrown))
    case _ => if e.Fail? then p.(pc := FailUpdate(e.message)) else Proceed(p, e)
  }

  function RecordFailure(p: Process, thrown: string, e: Event): Process
    requires e.Reply?
  {
    p.(db := p.db.(job := p.db.job.(error := Some(ErrorText(thrown)), exitCode := Some(-1), completedAt := Some(e.at))),
       pc := FailLog(thrown))
  }

  /** The straight line through the outer try. */
  function Proceed(p: Process, e: Event): Process
    requires e.Reply?
  {
    var db := p.db;
    match p.pc
    case Find => p.(pc := LogReady)
    case LogReady => p.(db := Append(db, Ready, e), pc := Access)
    case Access => p.(pc := LogRunning)
    case LogRunning => p.(db := Append(db, Running, e), pc := Create)
    case Create => p.(pc := Start)
    case Start => p.(pc := Wait)
    case TimeoutUpdate(thrown) =>
      p.(db := db.(job := db.job.(error := Some(TIMEOUT), exitCode := Some(-1), completedAt := Some(e.at))),
         pc := TimeoutLog(thrown))
    case TimeoutLog(thrown) => p.(db := Append(db, FinishedWithError, e), pc := FailUpdate(thrown))
    case FetchLogs(code) => p.(pc := Remove(code, e.text))
    case Remove(code, output) => p.(pc := if code == 0 then SuccessUpdate(output) else ErrorUpdate(code, output))
    case SuccessUpdate(output) =>
      p.(db := db.(job := db.job.(output := Some(output), exitCode := Some(0), completedAt := Some(e.at))),
         pc := SuccessLog)
    case SuccessLog => p.(db := Append(db, FinishedWithSuccess, e), pc := Resolved)
    case ErrorUpdate(code, output) =>
      p.(db := db.(job := db.job.(error := Some(output), exitCode := Some(code), completedAt := Some(e.at))),
         pc := ErrorLog)
    case ErrorLog => p.(db := Append(db, FinishedWithError, e), pc := Resolved)
    case _ => p
  }

  function Run(p: Process, events: seq<Event>): Process {
    if events == [] then p else Step(Run(p, events[..|events| - 1]), events[|events| - 1])
  }

  lemma RunSteps(p: Process, events: seq<Event>, i: nat)
    requires i < |events|
    ensures Run(p, events[..i + 1]) == Step(Run(p, events[..i]), events[i])
  {
    assert events[..i + 1][..i] == events[..i];
  }

  lemma RunNothing(start: Process, events: seq<Event>)
    ensures Run(start, events[..0]) == start
  {}

  lemma {:induction false} FinishedStays(start: Process, events: seq<Event>, i: nat)
    requires i <= |events| && var pc := Run(start, events[..i]).pc; pc.Resolved? || pc.Rejected?
    ensures Run(start, events) == Run(start, events[..i])
    decreases |events| - i
  {
    if i == |events| {
      assert events[..i] == events;
    } else {
      RunSteps(start, events, i);
      FinishedStays(start, events, i + 1);
    }
  }

  // ---- The log's language ----

  function Statuses(log: seq<Row>): seq<Status> { seq(|log|, i requires 0 <= i < |log| => log[i].status) }

  lemma StatusesOfAppend(log: seq<Row>, row: Row)
    ensures Statuses(log + [row]) == Statuses(log) + [row.status]
  {}

  /** The nine words: a prefix of the normal course, or one cut short by a failure. */
  predicate InLanguage(w: seq<Status>) {
    || w == [Queued] || w == [Queued, Failed]
    || w == [Queued, Ready] || w == [Queued, Ready, Failed]
    || w == [Queued, Ready, Running] || w == [Queued, Ready, Running, Failed]
    || w == [Queued, Ready, Running, FinishedWithSuccess]
    || w == [Queued, Ready, Running, FinishedWithError]
    || w == [Queued, Ready, Running, FinishedWithError, Failed]
  }

  /** What has been written by the time the process is at `pc`. */
  predicate WrittenBy(pc: Pc, caught: Option<string>, w: seq<Status>) {
    match pc
    case Find | LogReady => w == [Queued] && caught.None?
    case Access | LogRunning => w == [Queued, Ready] && caught.None?
    case Create | Start | Wait => w == [Queued, Ready, Running] && caught.None?
    case Kill(thrown) => w == [Queued, Ready, Running] && caught == Some(thrown)
    case Discard(thrown) => w == [Queued, Ready, Running] && caught == Some(thrown)
    case TimeoutUpdate(thrown) => w == [Queued, Ready, Running] && caught == Some(thrown)
    case TimeoutLog(thrown) => w == [Queued, Ready, Running] && caught == Some(thrown)
    case FetchLogs(_) | Remove(_, _) => w == [Queued, Ready, Running] && caught.None?
    case SuccessUpdate(_) | SuccessLog | ErrorUpdate(_, _) | ErrorLog => w == [Queued, Ready, Running] && caught.None?
    case FailUpdate(thrown) => BeforeFailure(caught, thrown, w)
    case FailLog(thrown) => BeforeFailure(caught, thrown, w)
    case Resolved =>
      && caught.None?
      && (w == [Queued, Ready, Running, FinishedWithSuccess] || w == [Queued, Ready, Running, FinishedWithError])
    case Rejected(_) =>
      || (w == [Queued] || w == [Queued, Ready] || w == [Queued, Ready, Running])
      || (w == [Queued, Failed] || w == [Queued, Ready, Failed] || w == [Queued, Ready, Running, Failed])
      || (w == [Queued, Ready, Running, FinishedWithError] && caught.Some?)
      || (w == [Queued, Ready, Running, FinishedWithError, Failed] && caught.Some?)
  }

  /** The log when the outer catch is entered; an error row is there only if the inner catch wrote it. */
  predicate BeforeFailure(caught: Option<string>, thrown: string, w: seq<Status>) {
    || (w == [Queued] || w == [Queued, Ready] || w == [Queued, Ready, Running])
    || (w == [Queued, Ready, Running, FinishedWithError] && caught == Some(thrown))
  }

  predicate Ordered(p: Process) { WrittenBy(p.pc, p.caught, Statuses(p.db.log)) }

  lemma Words()
    ensures [Queued] + [Ready] == [Queued, Ready]
    ensures [Queued] + [Failed] == [Queued, Failed]
    ensures [Queued, Ready] + [Running] == [Queued, Ready, Running]
    ensures [Queued, Ready] + [Failed] == [Queued, Ready, Failed]
    ensures [Queued, Ready, Running] + [FinishedWithSuccess] == [Queued, Ready, Running, FinishedWithSuccess]
    ensures [Queued, Ready, Running] + [FinishedWithError] == [Queued, Ready, Running, FinishedWithError]
    ensures [Queued, Ready, Running] + [Failed] == [Queued, Ready, Running, Failed]
    ensures [Queued, Ready, Running, FinishedWithError] + [Failed]
            == [Queued, Ready, Running, FinishedWithError, Failed]
  {}

  lemma StepKeepsOrder(p: Process, e: Event)
    requires Ordered(p)
    ensures Ordered(Step(p, e))
  {
    var q := Step(p, e);
    Words();
    if |q.db.log| > |p.db.log| {
      StatusesOfAppend(p.db.log, q.db.log[|p.db.log|]);
    }
  }

  lemma {:induction false} OrderedAlways(p: Process, events: seq<Event>)
    requires Ordered(p)
    ensures Ordered(Run(p, events))
  {
    if events != [] {
      OrderedAlways(p, events[..|events| - 1]);
      StepKeepsOrder(Run(p, events[..|events| - 1]), events[|events| - 1]);
    }
  }

  /** Whatever fails and wherever the process dies, the log is one of the nine words. */
  lemma LogIsInLanguage(at: int, events: seq<Event>)
    ensures InLanguage(Statuses(Run(Begin(Submitted(at)), events).db.log))
  {
    assert Statuses(Submitted(at).log) == [Queued];
    OrderedAlways(Begin(Submitted(at)), events);
  }

  // ---- The language is exact ----

  const OK := Reply(0, 0, 0, "")
  const NO := Fail(TIMEOUT)

  ghost predicate Reachable(p: Process) {
    exists events :: Run(Begin(Submitted(0)), events) == p
  }

  ghost predicate Occurs(w: seq<Status>) {
    exists p :: Reachable(p) && Statuses(p.db.log) == w
  }

  lemma Next(p: Process, e: Event)
    requires Reachable(p)
    ensures Reachable(Step(p, e))
  {
    var events :| Run(Begin(Submitted(0)), events) == p;
    assert (events + [e])[..|events|] == events;
    assert Run(Begin(Submitted(0)), events + [e]) == Step(p, e);
  }

  /** The process at the `n`th await, when nothing has failed. */
  function OnTheWay(n: nat): Process {
    if n == 0 then Begin(Submitted(0)) else Step(OnTheWay(n - 1), OK)
  }

  lemma {:induction false} OnTheWayIsReachable(n: nat)
    ensures Reachable(OnTheWay(n))
  {
    hide Step;
    if n == 0 {
      assert Run(Begin(Submitted(0)), []) == OnTheWay(0);
    } else {
      OnTheWayIsReachable(n - 1);
      Next(OnTheWay(n - 1), OK);
    }
  }

  lemma TheWay()
    ensures OnTheWay(0).pc == Find && Statuses(OnTheWay(0).db.log) == [Queued]
    ensures OnTheWay(2).pc == Access && Statuses(OnTheWay(2).db.log) == [Queued, Ready]
    ensures OnTheWay(4).pc == Create && Statuses(OnTheWay(4).db.log) == [Queued, Ready, Running]
    ensures OnTheWay(6).pc == Wait && Statuses(OnTheWay(6).db.log) == [Queued, Ready, Running]
  {
    assert OnTheWay(1) == Step(OnTheWay(0), OK);
    assert OnTheWay(2) == Step(OnTheWay(1), OK);
    assert OnTheWay(3) == Step(OnTheWay(2), OK);
    assert OnTheWay(4) == Step(OnTheWay(3), OK);
    assert OnTheWay(5) == Step(OnTheWay(4), OK);
    assert OnTheWay(6) == Step(OnTheWay(5), OK);
    StatusesOfAppend(OnTheWay(1).db.log, Row(Ready, 0));
    StatusesOfAppend(OnTheWay(3).db.log, Row(Running, 0));
    Words();
  }

  /** The outer catch records a failure behind whatever is in the log. */
  lemma FailureOccurs(p: Process)
    requires Reachable(p) && p.pc.FailUpdate?
    ensures Occurs(Statuses(p.db.log) + [Failed])
  {
    hide Reachable, Run;
    var q := Step(p, OK);
    Next(p, OK);
    Next(q, OK);
    StatusesOfAppend(q.db.log, Row(Failed, 0));
  }

  lemma EarlyFailureOccurs(n: nat)
    requires n == 0 || n == 2 || n == 4
    ensures Occurs(Statuses(OnTheWay(n).db.log)) && Occurs(Statuses(OnTheWay(n).db.log) + [Failed])
  {
    TheWay();
    OnTheWayIsReachable(n);
    hide Reachable, Run, OnTheWay;
    Next(OnTheWay(n), NO);
    FailureOccurs(Step(OnTheWay(n), NO));
  }

  /** The container exits, with either code, and the result is recorded. */
  lemma ExitOccurs(p: Process, code: int)
    requires Reachable(p) && p.pc == Wait
    ensures Occurs(Statuses(p.db.log) + [if code == 0 then FinishedWithSuccess else FinishedWithError])
  {
    hide Reachable, Run, Append, Statuses;
    Next(p, Reply(0, 0, code, ""));
    Next(p.(pc := FetchLogs(code)), OK);
    Next(p.(pc := Remove(code, "")), OK);
    ExitIsRecorded(p, code);
  }

  lemma ExitIsRecorded(p: Process, code: int)
    requires Reachable(p.(pc := if code == 0 then SuccessUpdate("") else ErrorUpdate(code, "")))
    ensures Occurs(Statuses(p.db.log) + [if code == 0 then FinishedWithSuccess else FinishedWithError])
  {
    hide Reachable, Run, Statuses;
    var update := p.(pc := if code == 0 then SuccessUpdate("") else ErrorUpdate(code, ""));
    var log := Step(update, OK);
    Next(update, OK);
    Next(log, OK);
    StatusesOfAppend(log.db.log, Row(if code == 0 then FinishedWithSuccess else FinishedWithError, 0));
  }

  lemma TimeoutOccurs(p: Process)
    requires Reachable(p) && p.pc == Wait
    ensures Occurs(Statuses(p.db.log) + [FinishedWithError] + [Failed])
  {
    hide Reachable, Run, Append, Statuses;
    var q := p.(caught := Some(TIMEOUT));
    Next(p, NO);
    Next(q.(pc := Kill(TIMEOUT)), OK);
    Next(q.(pc := Discard(TIMEOUT)), OK);
    TimeoutIsRecorded(q);
  }

  lemma TimeoutIsRecorded(p: Process)
    requires Reachable(p.(pc := TimeoutUpdate(TIMEOUT)))
    ensures Occurs(Statuses(p.db.log) + [FinishedWithError] + [Failed])
  {
    hide Reachable, Run, Statuses;
    var update := p.(pc := TimeoutUpdate(TIMEOUT));
    var log := Step(update, OK);
    Next(update, OK);
    Next(log, OK);
    StatusesOfAppend(log.db.log, Row(FinishedWithError, 0));
    FailureOccurs(Step(log, OK));
  }

  /** Every one of the nine words is the log of some run, and no other word is. */
  lemma LanguageIsExact(w: seq<Status>)
    ensures Occurs(w) <==> InLanguage(w)
  {
    hide Run, OnTheWay;
    if Occurs(w) {
      var p :| Reachable(p) && Statuses(p.db.log) == w;
      var events :| Run(Begin(Submitted(0)), events) == p;
      LogIsInLanguage(0, events);
    }
    Words();
    TheWay();
    EarlyFailureOccurs(0);
    EarlyFailureOccurs(2);
    EarlyFailureOccurs(4);
    OnTheWayIsReachable(6);
    ExitOccurs(OnTheWay(6), 0);
    ExitOccurs(OnTheWay(6), 1);
    TimeoutOccurs(OnTheWay(6));
  }

  /** Two terminal rows mean the inner catch ran: an error row followed by a failure row has no other origin. */
  lemma ErrorThenFailedIsCaught(at: int, events: seq<Event>)
    requires var w := Statuses(Run(Begin(Submitted(at)), events).db.log);
             FinishedWithError in w && Failed in w
    ensures Run(Begin(Submitted(at)), events).caught.Some?
  {
    assert Statuses(Submitted(at).log) == [Queued];
    OrderedAlways(Begin(Submitted(at)), events);
  }

  // ---- Results before verdict ----

  function LastStatus(log: seq<Row>): Status
    requires log != []
  {
    log[|log| - 1].status
  }

  /** The columns the process has filled in by the time it is at `pc`. */
  predicate ColumnsAt(p: Process)
    requires p.db.log != []
  {
    var j, last := p.db.job, LastStatus(p.db.log);
    match p.pc
    case TimeoutLog(_) => TimedOut(j)
    case SuccessLog => Succeeded(j)
    case ErrorUpdate(code, _) => j == BLANK && code != 0
    case ErrorLog => ExitedNonZero(j)
    case FailUpdate(_) => last == FinishedWithError ==> TimedOut(j)
    case FailLog(thrown) => FailedWith(j, thrown)
    case Resolved =>
      (last == FinishedWithSuccess ==> Succeeded(j)) && (last == FinishedWithError ==> ExitedNonZero(j))
    case Rejected(thrown) =>
      && (last == FinishedWithError ==>
            ExitedNonZero(j) && j.exitCode == Some(-1) && (p.caught == Some(TIMEOUT) ==> TimedOut(j)))
      && (last == Failed ==> FailedWith(j, thrown) && (|p.db.log| == 5 ==> p.caught == Some(thrown)))
    case _ => j == BLANK
  }

  predicate ExitedNonZero(j: Job) {
    j.error.Some? && j.exitCode.Some? && j.exitCode.value != 0 && j.completedAt.Some?
  }

  predicate Succeeded(j: Job) { j.exitCode == Some(0) && j.output.Some? && j.error.None? && j.completedAt.Some? }

  predicate TimedOut(j: Job) { j.error == Some(TIMEOUT) && j.exitCode == Some(-1) && j.completedAt.Some? }

  predicate FailedWith(j: Job, thrown: string) {
    j.error == Some(ErrorText(thrown)) && j.exitCode == Some(-1) && j.completedAt.Some?
  }

  predicate InStep(p: Process) { Ordered(p) && p.db.log != [] && ColumnsAt(p) }

  lemma LastIsLast(log: seq<Row>)
    requires log != []
    ensures |Statuses(log)| == |log| && Statuses(log)[|log| - 1] == LastStatus(log)
  {}

  lemma StepKeepsColumns(p: Process, e: Event)
    requires InStep(p)
    ensures InStep(Step(p, e))
  {
    hide Statuses;
    StepKeepsOrder(p, e);
    var w := Statuses(p.db.log);
    LastIsLast(p.db.log);
  }

  lemma {:induction false} InStepAlways(at: int, events: seq<Event>)
    ensures InStep(Run(Begin(Submitted(at)), events))
  {
    if events == [] {
      assert Statuses(Submitted(at).log) == [Queued];
    } else {
      InStepAlways(at, events[..|events| - 1]);
      StepKeepsColumns(Run(Begin(Submitted(at)), events[..|events| - 1]), events[|events| - 1]);
    }
  }

  /** Whatever verdict the log shows, at whatever moment, the columns already back it. */
  predicate VerdictIsBacked(db: Database) {
    var w, j := Statuses(db.log), db.job;
    && (FinishedWithSuccess in w ==> Succeeded(j))
    && (FinishedWithError in w ==> ExitedNonZero(j))
    && (Failed in w ==> j.error.Some? && j.exitCode == Some(-1) && j.completedAt.Some?)
  }

  lemma ResultsBeforeVerdict(at: int, events: seq<Event>)
    ensures VerdictIsBacked(Run(Begin(Submitted(at)), events).db)
  {
    hide Run, Step;
    InStepAlways(at, events);
    LastIsLast(Run(Begin(Submitted(at)), events).db.log);
  }

  /** After a genuine timeout the failure row changes neither the error nor the exit code of the error row. */
  lemma TimeoutIsReportedOnce(at: int, events: seq<Event>)
    requires var p := Run(Begin(Submitted(at)), events);
             p.caught == Some("Execution timeout (30s)") && FinishedWithError in Statuses(p.db.log)
    ensures var j := Run(Begin(Submitted(at)), events).db.job;
            j.error == Some("Execution timeout (30s)") && j.exitCode == Some(-1)
  {
    hide Run, Step;
    InStepAlways(at, events);
    LastIsLast(Run(Begin(Submitted(at)), events).db.log);
  }
}
