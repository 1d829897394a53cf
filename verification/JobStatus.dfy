/**
 The status a reader is shown: the two computations of api-server/src/execution/execution.controller.ts and the
 polling loop of cli/lib/api/execution_api.dart.

 `sort` in the source is the host's stable sort. `IsStableSort` says what that means, `StableSort` is one, and
 `StableSortIsUnique` shows there is no other, so nothing depends on how it is done.
 */
module JobStatus {
  import opened Sequences
  import opened JobLifecycle
  import opened JobResults

  // ---- Stable sorting by a key, ascending or descending ----

  predicate Precedes(descending: bool, a: Row, b: Row) {
    if descending then a.createdAt >= b.createdAt else a.createdAt <= b.createdAt
  }

  predicate Sorted(descending: bool, rows: seq<Row>) {
    forall i, j :: 0 <= i < j < |rows| ==> Precedes(descending, rows[i], rows[j])
  }

  /** The rows stamped `t`, in the order they stand. */
  function At(rows: seq<Row>, t: int): seq<Row> {
    if rows == [] then []
    else if rows[0].createdAt == t then [rows[0]] + At(rows[1..], t)
    else At(rows[1..], t)
  }

  ghost predicate IsStableSort(descending: bool, rows: seq<Row>, sorted: seq<Row>) {
    && multiset(sorted) == multiset(rows)
    && Sorted(descending, sorted)
    && forall t :: At(sorted, t) == At(rows, t)
  }

  function Insert(descending: bool, row: Row, rows: seq<Row>): seq<Row> {
    if rows == [] || Precedes(descending, row, rows[0]) then [row] + rows
    else [rows[0]] + Insert(descending, row, rows[1..])
  }

  function StableSort(descending: bool, rows: seq<Row>): seq<Row> {
    if rows == [] then [] else Insert(descending, rows[0], StableSort(descending, rows[1..]))
  }

  lemma {:induction false} InsertKeepsRows(descending: bool, row: Row, rows: seq<Row>)
    ensures multiset(Insert(descending, row, rows)) == multiset(rows) + multiset{row}
  {
    if rows == [] || Precedes(descending, row, rows[0]) {
    } else {
      InsertKeepsRows(descending, row, rows[1..]);
      assert rows == [rows[0]] + rows[1..];
    }
  }

  lemma {:induction false} InsertSorts(descending: bool, row: Row, rows: seq<Row>)
    requires Sorted(descending, rows)
    ensures Sorted(descending, Insert(descending, row, rows))
  {
    if rows == [] || Precedes(descending, row, rows[0]) {
    } else {
      var rest := Insert(descending, row, rows[1..]);
      InsertSorts(descending, row, rows[1..]);
      InsertKeepsRows(descending, row, rows[1..]);
      forall j | 0 <= j < |rest| ensures Precedes(descending, rows[0], rest[j]) {
        assert rest[j] in multiset(rest);
        assert rest[j] == row || rest[j] in multiset(rows[1..]);
      }
    }
  }

  /** A row inserted before the rows that followed it stays before those of its own time. */
  lemma {:induction false} InsertIsStable(descending: bool, row: Row, rows: seq<Row>, t: int)
    requires Sorted(descending, rows)
    ensures At(Insert(descending, row, rows), t) == At([row] + rows, t)
  {
    assert ([row] + rows)[1..] == rows;
    if rows == [] || Precedes(descending, row, rows[0]) {
    } else {
      InsertIsStable(descending, row, rows[1..], t);
      assert ([row] + rows[1..])[1..] == rows[1..];
      assert Insert(descending, row, rows)[1..] == Insert(descending, row, rows[1..]);
    }
  }

  lemma {:induction false} StableSortSorts(descending: bool, rows: seq<Row>)
    ensures IsStableSort(descending, rows, StableSort(descending, rows))
  {
    if rows != [] {
      var rest := StableSort(descending, rows[1..]);
      StableSortSorts(descending, rows[1..]);
      InsertKeepsRows(descending, rows[0], rest);
      InsertSorts(descending, rows[0], rest);
      assert rows == [rows[0]] + rows[1..];
      forall t ensures At(StableSort(descending, rows), t) == At(rows, t) {
        InsertIsStable(descending, rows[0], rest, t);
        assert ([rows[0]] + rest)[1..] == rest;
      }
    }
  }

  lemma {:induction false} AtHasOnly(rows: seq<Row>, t: int)
    ensures forall r :: r in At(rows, t) ==> r in rows && r.createdAt == t
    ensures forall r :: r in rows && r.createdAt == t ==> r in At(rows, t)
  {
    if rows != [] {
      AtHasOnly(rows[1..], t);
      assert forall r :: r in rows <==> r == rows[0] || r in rows[1..];
    }
  }

  lemma HeadShows(rows: seq<Row>)
    ensures rows != [] ==> At(rows, rows[0].createdAt) != []
  {}

  lemma {:induction false} SameByTimeIsSame(descending: bool, a: seq<Row>, b: seq<Row>)
    requires Sorted(descending, a) && Sorted(descending, b) && forall t :: At(a, t) == At(b, t)
    ensures a == b
  {
    if a == [] || b == [] {
      HeadShows(a);
      HeadShows(b);
    } else {
      AtHasOnly(b, a[0].createdAt);
      AtHasOnly(a, b[0].createdAt);
      assert At(a, a[0].createdAt)[0] == a[0] && At(b, b[0].createdAt)[0] == b[0];
      assert a[0] in At(b, a[0].createdAt) && b[0] in At(a, b[0].createdAt);
      assert a[0].createdAt == b[0].createdAt && a[0] == b[0];
      forall t ensures At(a[1..], t) == At(b[1..], t) {
        assert At(a, t) == At(b, t);
        assert a[0].createdAt == t ==> At(a, t)[1..] == At(a[1..], t) && At(b, t)[1..] == At(b[1..], t);
      }
      SameByTimeIsSame(descending, a[1..], b[1..]);
    }
  }

  lemma StableSortIsUnique(descending: bool, rows: seq<Row>, sorted: seq<Row>)
    ensures IsStableSort(descending, rows, sorted) <==> sorted == StableSort(descending, rows)
  {
    StableSortSorts(descending, rows);
    if IsStableSort(descending, rows, sorted) {
      SameByTimeIsSame(descending, sorted, StableSort(descending, rows));
    }
  }

  // ---- The two endpoints ----

  /** The detail endpoint: sort ascending, take the last. */
  function Detail(rows: seq<Row>): Option<Row> {
    var sorted := StableSort(false, rows);
    if sorted == [] then None else Some(sorted[|sorted| - 1])
  }

  /** The list endpoint: sort descending, take the first. */
  function Listed(rows: seq<Row>): Option<Row> {
    var sorted := StableSort(true, rows);
    if sorted == [] then None else Some(sorted[0])
  }

  predicate IsLastLatest(rows: seq<Row>, i: nat) {
    && i < |rows|
    && (forall j :: 0 <= j < i ==> rows[j].createdAt <= rows[i].createdAt)
    && (forall j :: i < j < |rows| ==> rows[j].createdAt < rows[i].createdAt)
  }

  predicate IsFirstLatest(rows: seq<Row>, i: nat) {
    && i < |rows|
    && (forall j :: 0 <= j < i ==> rows[j].createdAt < rows[i].createdAt)
    && (forall j :: i < j < |rows| ==> rows[j].createdAt <= rows[i].createdAt)
  }

  datatype Endpoint = DetailEndpoint | ListEndpoint

  function Latest(endpoint: Endpoint, rows: seq<Row>): Option<Row> {
    match endpoint
    case DetailEndpoint => Detail(rows)
    case ListEndpoint => Listed(rows)
  }

  /** The row an endpoint shows: the last of the latest rows, or the first of them. */
  predicate IsLatest(endpoint: Endpoint, rows: seq<Row>, i: nat) {
    match endpoint
    case DetailEndpoint => IsLastLatest(rows, i)
    case ListEndpoint => IsFirstLatest(rows, i)
  }

  lemma InsertEnds(descending: bool, row: Row, rows: seq<Row>)
    ensures Insert(descending, row, rows) != []
    ensures Insert(descending, row, rows)[0] ==
            if rows == [] || Precedes(descending, row, rows[0]) then row else rows[0]
  {}

  lemma {:induction false} InsertLast(row: Row, rows: seq<Row>)
    requires Sorted(false, rows)
    ensures var r := Insert(false, row, rows);
            r != [] && r[|r| - 1] ==
            if rows == [] || row.createdAt > rows[|rows| - 1].createdAt then row else rows[|rows| - 1]
  {
    if rows == [] || Precedes(false, row, rows[0]) {
    } else {
      InsertLast(row, rows[1..]);
    }
  }

  /** The detail endpoint shows the last of the latest rows in the order the database returns them. */
  lemma {:induction false} DetailIsLastLatest(rows: seq<Row>, i: nat)
    requires IsLastLatest(rows, i)
    ensures Detail(rows) == Some(rows[i])
  {
    var rest := rows[1..];
    StableSortSorts(false, rest);
    InsertLast(rows[0], StableSort(false, rest));
    if i > 0 {
      assert IsLastLatest(rest, i - 1);
      DetailIsLastLatest(rest, i - 1);
    } else if rest != [] {
      var k := SomeLastLatest(rest);
      DetailIsLastLatest(rest, k);
    }
  }

  /** The list endpoint shows the first of them. */
  lemma {:induction false} ListedIsFirstLatest(rows: seq<Row>, i: nat)
    requires IsFirstLatest(rows, i)
    ensures Listed(rows) == Some(rows[i])
  {
    var rest := rows[1..];
    InsertEnds(true, rows[0], StableSort(true, rest));
    if i > 0 {
      assert IsFirstLatest(rest, i - 1);
      ListedIsFirstLatest(rest, i - 1);
    } else if rest != [] {
      var k := SomeFirstLatest(rest);
      ListedIsFirstLatest(rest, k);
    }
  }

  function SomeLastLatest(rows: seq<Row>): (i: nat)
    requires rows != []
    ensures IsLastLatest(rows, i)
  {
    if |rows| == 1 then 0
    else
      var k := SomeLastLatest(rows[1..]);
      assert forall j :: 1 <= j < |rows| ==> rows[j] == rows[1..][j - 1];
      if rows[0].createdAt > rows[k + 1].createdAt then 0 else k + 1
  }

  function SomeFirstLatest(rows: seq<Row>): (i: nat)
    requires rows != []
    ensures IsFirstLatest(rows, i)
  {
    if |rows| == 1 then 0
    else
      var k := SomeFirstLatest(rows[1..]);
      assert forall j :: 1 <= j < |rows| ==> rows[j] == rows[1..][j - 1];
      if rows[0].createdAt >= rows[k + 1].createdAt then 0 else k + 1
  }

  function SomeLatest(endpoint: Endpoint, rows: seq<Row>): (i: nat)
    requires rows != []
    ensures IsLatest(endpoint, rows, i)
  {
    match endpoint
    case DetailEndpoint => SomeLastLatest(rows)
    case ListEndpoint => SomeFirstLatest(rows)
  }

  lemma LatestIsShown(endpoint: Endpoint, rows: seq<Row>, i: nat)
    requires IsLatest(endpoint, rows, i)
    ensures Latest(endpoint, rows) == Some(rows[i])
  {
    match endpoint
    case DetailEndpoint => DetailIsLastLatest(rows, i);
    case ListEndpoint => ListedIsFirstLatest(rows, i);
  }

  /** The endpoints agree on the row exactly when the first and the last of the latest rows are the same row. */
  lemma EndpointsAgree(rows: seq<Row>, i: nat, j: nat)
    requires IsFirstLatest(rows, i) && IsLastLatest(rows, j)
    ensures Listed(rows) == Detail(rows) <==> rows[i] == rows[j]
    ensures i == j <==> forall k :: 0 <= k < |rows| && k != i ==> rows[k].createdAt < rows[i].createdAt
  {
    ListedIsFirstLatest(rows, i);
    DetailIsLastLatest(rows, j);
  }

  // ---- Successive reads ----

  function Rank(s: Status): int {
    match s
    case Queued => 0
    case Ready => 1
    case Running => 2
    case FinishedWithSuccess | FinishedWithError | Failed => 3
  }

  /** A row that turns up anywhere in the table either is what an endpoint shows next, or changes nothing. */
  lemma InsertedRowShowsOrNot(endpoint: Endpoint, rows: seq<Row>, k: nat, row: Row)
    requires k <= |rows| && rows != []
    ensures Latest(endpoint, rows[..k] + [row] + rows[k..]) == Some(row)
            || Latest(endpoint, rows[..k] + [row] + rows[k..]) == Latest(endpoint, rows)
  {
    hide Latest, SomeLatest;
    var grown := rows[..k] + [row] + rows[k..];
    var i := SomeLatest(endpoint, rows);
    LatestIsShown(endpoint, rows, i);
    var j := SomeLatest(endpoint, grown);
    LatestIsShown(endpoint, grown, j);
    if j != k {
      var back := if j < k then j else j - 1;
      assert grown[j] == rows[back];
      assert forall m :: 0 <= m < |rows| ==> rows[m] == grown[if m < k then m else m + 1];
      assert IsLatest(endpoint, rows, back);
    }
  }

  /** The table holds the rows of the log, in whatever order. */
  predicate SameRows(db: Database) { multiset(db.table) == multiset(db.log) }

  lemma AppendKeepsSameRows(db: Database, status: Status, e: Event)
    requires SameRows(db) && e.Reply?
    ensures SameRows(Append(db, status, e))
  {
    var k := if e.slot <= |db.table| then e.slot else |db.table|;
    assert db.table == db.table[..k] + db.table[k..];
  }

  /** The status of the row that an answered await at `pc` appends. */
  function Writes(pc: Pc): Option<Status> {
    match pc
    case LogReady => Some(Ready)
    case LogRunning => Some(Running)
    case TimeoutLog(_) | ErrorLog => Some(FinishedWithError)
    case SuccessLog => Some(FinishedWithSuccess)
    case FailLog(_) => Some(Failed)
    case _ => None
  }

  lemma StepWrites(p: Process, e: Event)
    ensures var q, status := Step(p, e).db, if e.Reply? then Writes(p.pc) else None;
            if status.None? then q.table == p.db.table && q.log == p.db.log
            else q.table == Append(p.db, status.value, e).table && q.log == Append(p.db, status.value, e).log
  {
    hide Append;
  }

  lemma WritesAtTheTop(p: Process)
    requires Ordered(p) && Writes(p.pc).Some?
    ensures forall s :: s in Statuses(p.db.log) ==> Rank(s) <= Rank(Writes(p.pc).value)
  {
    hide Statuses;
  }

  lemma EveryRowIsLogged(db: Database)
    requires SameRows(db)
    ensures forall r :: r in db.table ==> r.status in Statuses(db.log)
  {
    forall r | r in db.table ensures r.status in Statuses(db.log) {
      assert r in multiset(db.table);
      assert r in multiset(db.log);
      var i :| 0 <= i < |db.log| && db.log[i] == r;
      assert Statuses(db.log)[i] == r.status;
    }
  }

  /** A step either leaves the rows alone or adds one that ranks at least as high as every row there. */
  lemma StepAddsTopRow(p: Process, e: Event)
    requires Ordered(p) && SameRows(p.db)
    ensures var q := Step(p, e);
            || (q.db.table == p.db.table && q.db.log == p.db.log)
            || (exists status :: e.Reply? && q.db.table == Append(p.db, status, e).table
                                 && q.db.log == Append(p.db, status, e).log
                                 && forall r :: r in p.db.table ==> Rank(r.status) <= Rank(status))
  {
    hide Step, Append, Ordered, SameRows, Statuses, Rank, Writes;
    StepWrites(p, e);
    if e.Reply? && Writes(p.pc).Some? {
      WritesAtTheTop(p);
      EveryRowIsLogged(p.db);
    }
  }

  predicate Readable(p: Process) { Ordered(p) && SameRows(p.db) && p.db.table != [] }

  lemma StepNeverRegresses(endpoint: Endpoint, p: Process, e: Event)
    requires Readable(p)
    ensures Readable(Step(p, e))
    ensures Latest(endpoint, p.db.table).Some? && Latest(endpoint, Step(p, e).db.table).Some?
    ensures Rank(Latest(endpoint, p.db.table).value.status) <= Rank(Latest(endpoint, Step(p, e).db.table).value.status)
  {
    var q := Step(p, e);
    StepKeepsOrder(p, e);
    StepAddsTopRow(p, e);
    var i := SomeLatest(endpoint, p.db.table);
    LatestIsShown(endpoint, p.db.table, i);
    hide Step, Ordered;
    if q.db.table != p.db.table || q.db.log != p.db.log {
      var status :| e.Reply? && q.db.table == Append(p.db, status, e).table
        && q.db.log == Append(p.db, status, e).log
        && forall r :: r in p.db.table ==> Rank(r.status) <= Rank(status);
      AppendKeepsSameRows(p.db, status, e);
      var k := if e.slot <= |p.db.table| then e.slot else |p.db.table|;
      InsertedRowShowsOrNot(endpoint, p.db.table, k, Row(status, e.at));
      assert p.db.table[i] in p.db.table;
    }
  }

  function Shown(endpoint: Endpoint, at: int, events: seq<Event>): Option<Row> {
    Latest(endpoint, Run(Begin(Submitted(at)), events).db.table)
  }

  lemma {:induction false} AlwaysReadable(endpoint: Endpoint, at: int, events: seq<Event>)
    ensures Readable(Run(Begin(Submitted(at)), events)) && Shown(endpoint, at, events).Some?
  {
    if events == [] {
      assert Statuses(Submitted(at).log) == [Queued];
      LatestIsShown(endpoint, Submitted(at).table, 0);
    } else {
      var before := events[..|events| - 1];
      AlwaysReadable(endpoint, at, before);
      StepNeverRegresses(endpoint, Run(Begin(Submitted(at)), before), events[|events| - 1]);
    }
  }

  /** However the clocks run and wherever rows land, what an endpoint shows never goes back, and a
      terminal status stays terminal. */
  lemma {:induction false} ShownNeverRegresses(endpoint: Endpoint, at: int, events: seq<Event>, i: nat, j: nat)
    requires i <= j <= |events|
    ensures Shown(endpoint, at, events[..i]).Some? && Shown(endpoint, at, events[..j]).Some?
    ensures Rank(Shown(endpoint, at, events[..i]).value.status) <= Rank(Shown(endpoint, at, events[..j]).value.status)
    ensures var earlier, later :=
              Shown(endpoint, at, events[..i]).value.status, Shown(endpoint, at, events[..j]).value.status;
            && (earlier == Ready ==> later != Queued)
            && (earlier == Running ==> later !in {Queued, Ready})
            && (earlier in {FinishedWithSuccess, FinishedWithError, Failed} ==>
                  later in {FinishedWithSuccess, FinishedWithError, Failed})
    decreases j
  {
    hide Step, Run, Latest;
    AlwaysReadable(endpoint, at, events[..i]);
    if i < j {
      ShownNeverRegresses(endpoint, at, events, i, j - 1);
      AlwaysReadable(endpoint, at, events[..j - 1]);
      RunSteps(Begin(Submitted(at)), events, j - 1);
      StepNeverRegresses(endpoint, Run(Begin(Submitted(at)), events[..j - 1]), events[j - 1]);
    }
  }

  /** What a reader sees is backed by the columns it reads along with it. */
  lemma ShownVerdictIsBacked(endpoint: Endpoint, at: int, events: seq<Event>)
    ensures var j := Run(Begin(Submitted(at)), events).db.job;
            Shown(endpoint, at, events).Some? && match Shown(endpoint, at, events).value.status
            case FinishedWithSuccess =>
              AllReply(events, 11) && events[6].code == 0
              && j == Job(Some(events[7].text), None, Some(0), Some(events[9].at))
            case FinishedWithError => ExitedNonZero(j)
            case Failed => j.error.Some? && j.exitCode == Some(-1) && j.completedAt.Some?
            case _ => true
  {
    var db := Run(Begin(Submitted(at)), events).db;
    SuccessIff(at, events);
    ResolvedIff(Submitted(at), events);
    AlwaysReadable(endpoint, at, events);
    ResultsBeforeVerdict(at, events);
    var i := SomeLatest(endpoint, db.table);
    LatestIsShown(endpoint, db.table, i);
    hide Run, Step;
    EveryRowIsLogged(db);
    assert db.table[i].status in Statuses(db.log);
  }

  // ---- Polling ----

  datatype Answer = Got(status: Option<Status>) | Unreachable(message: string)
  datatype PollResult = Finished(attempt: nat) | Broken(message: string) | TimedOutPolling

  /** The first `n` answers all come, and show none of the three statuses a job ends with. */
  ghost predicate Unsettled(answers: nat -> Answer, n: nat) {
    forall j :: 0 <= j < n ==>
      && answers(j).Got?
      && answers(j).status !in {Some(FinishedWithSuccess), Some(FinishedWithError), Some(Failed)}
  }

  predicate Terminal(s: Status) { s.FinishedWithSuccess? || s.FinishedWithError? || s.Failed? }

  /** `answers(i)` is what the `i`th request would return; the first that settles the matter is the result. */
  method PollUntilComplete(answers: nat -> Answer, maxAttempts: nat) returns (r: PollResult)
    ensures match r
      case Finished(i) =>
        i < maxAttempts && Unsettled(answers, i) && answers(i).Got?
        && answers(i).status in {Some(FinishedWithSuccess), Some(FinishedWithError), Some(Failed)}
      case Broken(m) =>
        exists i: nat :: i < maxAttempts && Unsettled(answers, i) && answers(i) == Unreachable(m)
      case TimedOutPolling => Unsettled(answers, maxAttempts)
  {
    for i := 0 to maxAttempts
      invariant Unsettled(answers, i)
    {
      match answers(i)
      case Unreachable(message) => return Broken(message);
      case Got(status) =>
        if status.Some? && Terminal(status.value) {
          return Finished(i);
        }
    }
    return TimedOutPolling;
  }

  /** A poller that reads a job along its run, and is told it finished, is told so by every later read too. */
  lemma FinishedStaysFinished(at: int, events: seq<Event>, when: nat -> nat, answers: nat -> Answer, i: nat, j: nat)
    requires forall k :: when(k) <= |events|
    requires forall k, m :: k <= m ==> when(k) <= when(m)
    requires forall k :: answers(k).Got? ==> answers(k).status == StatusShown(at, events[..when(k)])
    requires i <= j && answers(i).Got? && answers(j).Got?
    requires answers(i).status in {Some(FinishedWithSuccess), Some(FinishedWithError), Some(Failed)}
    ensures answers(j).status in {Some(FinishedWithSuccess), Some(FinishedWithError), Some(Failed)}
  {
    ShownNeverRegresses(DetailEndpoint, at, events, when(i), when(j));
  }

  function StatusShown(at: int, events: seq<Event>): Option<Status> {
    match Shown(DetailEndpoint, at, events)
    case Some(row) => Some(row.status)
    case None => None
  }
}
