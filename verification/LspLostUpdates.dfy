/**
 What the split reads and writes allow. The indivisible steps are the split ones taken with nothing in between;
 with something in between, an upload can erase the worker's container from a session, for good.
 */
module LspLostUpdates {
  import opened Sequences
  import opened LspSessions
  import opened LspSessionSafety
  import opened LspRuns

  // ---- The two vocabularies agree when nothing interferes ----

  lemma AtomicIsUninterruptedSplit(st: State, i: nat, s: SessionId, user: User, file: string)
    requires i !in st.ops
    ensures OwnerOf(st, s) == Some(user) ==>
              Runs(st, [RenewRead(i, s, user), RenewExpire(i)], Apply(st, RenewAtomic(s, user)))
    ensures s in st.redis ==> Runs(st, [ActivityRead(i, s), ActivityWrite(i)], Apply(st, ActivityAtomic(s)))
    ensures OwnerOf(st, s) == Some(user) && Ttl(st, s) > 0 ==>
              Runs(st, [UploadRead(i, s, user, file), UploadTtl(i), UploadWrite(i)],
                Apply(st, UploadAtomic(s, user, file)))
  {
    hide Runs, Apply;
    if s in st.redis {
      ActivityUninterrupted(st, i, s);
      if st.redis[s].data.userId == user {
        RenewUninterrupted(st, i, s, user);
        if Ttl(st, s) > 0 {
          UploadUninterrupted(st, i, s, user, file);
        }
      }
    }
  }

  lemma RunsTwo(st: State, a: Step, b: Step, mid: State, end: State)
    requires Enabled(st, a) && Apply(st, a) == mid && Enabled(mid, b) && Apply(mid, b) == end
    ensures Runs(st, [a, b], end)
  {
    assert [a, b][1..] == [b];
    assert Runs(mid, [b], end);
  }

  lemma RunsOn(st: State, a: Step, steps: seq<Step>, end: State)
    requires Enabled(st, a) && Runs(Apply(st, a), steps, end)
    ensures Runs(st, [a] + steps, end)
  {
    assert ([a] + steps)[1..] == steps;
  }

  lemma ActivityUninterrupted(st: State, i: nat, s: SessionId)
    requires i !in st.ops && s in st.redis
    ensures Runs(st, [ActivityRead(i, s), ActivityWrite(i)], Apply(st, ActivityAtomic(s)))
  {
    hide Runs;
    var mid := Apply(st, ActivityRead(i, s));
    assert mid.ops - {i} == st.ops;
    RunsTwo(st, ActivityRead(i, s), ActivityWrite(i), mid, Apply(st, ActivityAtomic(s)));
  }

  lemma RenewUninterrupted(st: State, i: nat, s: SessionId, user: User)
    requires i !in st.ops && OwnerOf(st, s) == Some(user)
    ensures Runs(st, [RenewRead(i, s, user), RenewExpire(i)], Apply(st, RenewAtomic(s, user)))
  {
    hide Runs;
    var mid := Apply(st, RenewRead(i, s, user));
    assert mid.ops - {i} == st.ops;
    RunsTwo(st, RenewRead(i, s, user), RenewExpire(i), mid, Apply(st, RenewAtomic(s, user)));
  }

  lemma UploadUninterrupted(st: State, i: nat, s: SessionId, user: User, file: string)
    requires i !in st.ops && OwnerOf(st, s) == Some(user) && Ttl(st, s) > 0
    ensures Runs(st, [UploadRead(i, s, user, file), UploadTtl(i), UploadWrite(i)],
              Apply(st, UploadAtomic(s, user, file)))
  {
    var read := UploadRead(i, s, user, file);
    UploadTail(st, i, s, user, file);
    hide Runs;
    RunsOn(st, read, [UploadTtl(i), UploadWrite(i)], Apply(st, UploadAtomic(s, user, file)));
    assert [read] + [UploadTtl(i), UploadWrite(i)] == [read, UploadTtl(i), UploadWrite(i)];
  }

  lemma UploadTail(st: State, i: nat, s: SessionId, user: User, file: string)
    requires i !in st.ops && OwnerOf(st, s) == Some(user) && Ttl(st, s) > 0
    ensures Runs(Apply(st, UploadRead(i, s, user, file)), [UploadTtl(i), UploadWrite(i)],
              Apply(st, UploadAtomic(s, user, file)))
  {
    var read := Apply(st, UploadRead(i, s, user, file));
    var timed := Apply(read, UploadTtl(i));
    assert timed.ops - {i} == st.ops;
    hide Runs;
    RunsTwo(read, UploadTtl(i), UploadWrite(i), timed, Apply(st, UploadAtomic(s, user, file)));
  }

  lemma AttachUninterrupted(st: State)
    requires st.worker.scan.ScanReget? && Ttl(st, st.worker.scan.s) > 0
    ensures Runs(st, [ScanReread, ScanReadTtl, ScanStore], Apply(st, AttachAtomic))
  {
    AttachTail(st);
    hide Runs;
    RunsOn(st, ScanReread, [ScanReadTtl, ScanStore], Apply(st, AttachAtomic));
    assert [ScanReread] + [ScanReadTtl, ScanStore] == [ScanReread, ScanReadTtl, ScanStore];
  }

  lemma AttachTail(st: State)
    requires st.worker.scan.ScanReget? && Ttl(st, st.worker.scan.s) > 0
    ensures Runs(Apply(st, ScanReread), [ScanReadTtl, ScanStore], Apply(st, AttachAtomic))
  {
    var ScanReget(s, c, rest) := st.worker.scan;
    var d := Attach(st.redis[s].data, s, c);
    var read := st.(worker := st.worker.(scan := ScanTtl(s, d, rest)));
    var timed := st.(worker := st.worker.(scan := ScanWrite(s, d, Ttl(st, s), rest)));
    AttachReads(st);
    AttachStores(st);
    hide Apply, Attach, Runs;
    RunsTwo(read, ScanReadTtl, ScanStore, timed, Apply(st, AttachAtomic));
  }

  lemma AttachReads(st: State)
    requires st.worker.scan.ScanReget? && Ttl(st, st.worker.scan.s) > 0
    ensures var ScanReget(s, c, rest) := st.worker.scan;
            var d := Attach(st.redis[s].data, s, c);
            var read := st.(worker := st.worker.(scan := ScanTtl(s, d, rest)));
            && Apply(st, ScanReread) == read && Enabled(read, ScanReadTtl)
            && Apply(read, ScanReadTtl) == st.(worker := st.worker.(scan := ScanWrite(s, d, Ttl(st, s), rest)))
  {
    hide Attach, ApplySplit, ApplyAtomic, ApplyGateway, ApplyScan, ApplyClean;
  }

  lemma AttachStores(st: State)
    requires st.worker.scan.ScanReget? && Ttl(st, st.worker.scan.s) > 0
    ensures var ScanReget(s, c, rest) := st.worker.scan;
            var d := Attach(st.redis[s].data, s, c);
            var timed := st.(worker := st.worker.(scan := ScanWrite(s, d, Ttl(st, s), rest)));
            Enabled(timed, ScanStore) && Apply(timed, ScanStore) == Apply(st, AttachAtomic)
  {
    hide Attach, ApplySplit, ApplyGateway, ApplyScan, ApplyClean;
  }

  // ---- The stuck state ----

  predicate Unattached(op: Op, s: SessionId) {
    CopyIn(op).Some? && CopyIn(op).value.0 == s ==> CopyIn(op).value.1.containerId.None?
  }

  /** The scan is past `s` and not about to write its record. */
  predicate ScanPast(scan: Scan, s: SessionId) {
    match scan
    case ScanReget(r, _, _) => r != s
    case ScanTtl(r, _, _) => r != s
    case ScanWrite(r, _, _, _) => r != s
    case _ => true
  }

  /**
   The worker believes `s` has its container, and no copy of `s` anywhere says so: `lsp-connect` answers
   'Container not ready' and the scan skips the session.
   */
  predicate Stuck(st: State, s: SessionId) {
    && s in st.worker.containerMap
    && (s in st.redis ==> st.redis[s].data.containerId.None?)
    && (forall i :: i in st.ops ==> Unattached(st.ops[i], s))
    && ScanPast(st.worker.scan, s)
  }

  lemma ScanKeepsStuck(st: State, step: Step, s: SessionId)
    requires Safe(st) && Stuck(st, s) && Enabled(st, step)
    ensures Stuck(ApplyScan(st, step), s)
  {
    hide Ownership, GoodClean;
  }

  lemma StartKeepsStuck(st: State, step: Step, s: SessionId)
    requires Safe(st) && Stuck(st, s) && Enabled(st, step)
    ensures Stuck(ApplyStart(st, step), s)
  {
    hide Ownership, GoodClean, ContainerNameOf, RootOf, Attach;
  }

  lemma SplitKeepsStuck(st: State, step: Step, s: SessionId)
    requires Stuck(st, s) && Enabled(st, step)
    ensures Stuck(ApplySplit(st, step), s)
  {
    if step.RenewRead? || step.ActivityRead? || step.UploadRead? {
      hide Stuck, Touch, Upload;
      ReadKeepsStuck(st, step, s);
    } else {
      hide Stuck;
      WriteKeepsStuck(st, step, s);
    }
  }

  lemma ReadKeepsStuck(st: State, step: Step, s: SessionId)
    requires Stuck(st, s) && Enabled(st, step) && (step.RenewRead? || step.ActivityRead? || step.UploadRead?)
    ensures Stuck(ApplySplit(st, step), s)
  {}

  lemma WriteKeepsStuck(st: State, step: Step, s: SessionId)
    requires Stuck(st, s) && Enabled(st, step) && !(step.RenewRead? || step.ActivityRead? || step.UploadRead?)
    ensures Stuck(ApplySplit(st, step), s)
  {}

  lemma AtomicKeepsStuck(st: State, step: Step, s: SessionId)
    requires Stuck(st, s) && Enabled(st, step)
    ensures Stuck(ApplyAtomic(st, step), s)
  {
    hide ContainerNameOf, RootOf;
  }

  lemma GatewayKeepsStuck(st: State, step: Step, s: SessionId)
    requires Stuck(st, s) && Enabled(st, step)
    ensures Stuck(ApplyGateway(st, step), s)
  {}

  lemma CleanKeepsStuck(st: State, step: Step, s: SessionId)
    requires Stuck(st, s) && Enabled(st, step)
    ensures Stuck(ApplyClean(st, step), s) || (step == CleanEnd && s in Expired(st.worker.clean))
  {}

  /** Every step, of either vocabulary, leaves the session stuck, except the end of a sweep that condemned it. */
  lemma StuckKept(st: State, step: Step, s: SessionId)
    requires Safe(st) && Stuck(st, s) && Enabled(st, step)
    ensures Stuck(Apply(st, step), s) || (step == CleanEnd && s in Expired(st.worker.clean))
  {
    hide Safe, ApplySplit, ApplyAtomic, ApplyGateway, ApplyScan, ApplyStart, ApplyClean;
    ScanKeepsStuck(st, step, s);
    StartKeepsStuck(st, step, s);
    SplitKeepsStuck(st, step, s);
    AtomicKeepsStuck(st, step, s);
    GatewayKeepsStuck(st, step, s);
    CleanKeepsStuck(st, step, s);
  }

  predicate AliveThroughout(st: State, steps: seq<Step>, s: SessionId)
    decreases |steps|
  {
    && s in st.redis
    && (steps != [] && Enabled(st, steps[0]) ==> AliveThroughout(Apply(st, steps[0]), steps[1..], s))
  }

  lemma SpareTheLiving(st: State, step: Step, s: SessionId)
    requires Enabled(st, step) && s in st.redis && s !in Expired(st.worker.clean)
    ensures s !in Expired(Apply(st, step).worker.clean)
  {
    hide Enabled, FamilyOf, ApplySplit, ApplyAtomic, ApplyGateway, ApplyScan, ApplyStart, ApplyClean;
    SweepSparesTheLiving(st, step, s);
    match FamilyOf(step)
    case SweepStep =>
    case Creation =>
    case ClockStep =>
    case SplitCall =>
    case AtomicCall =>
    case GatewayCall =>
    case ScanStep =>
    case StartStep =>
  }

  lemma SweepSparesTheLiving(st: State, step: Step, s: SessionId)
    requires Enabled(st, step) && s in st.redis && s !in Expired(st.worker.clean)
    ensures s !in Expired(ApplyClean(st, step).worker.clean)
  {}

  /**
   The longer the owner keeps a stuck session alive, the longer it stays stuck: while the key lives no sweep
   condemns it, and every read of it finds no container.
   */
  lemma {:induction false} StuckWhileAlive(st: State, steps: seq<Step>, end: State, s: SessionId)
    requires Safe(st) && Stuck(st, s) && s !in Expired(st.worker.clean)
    requires Runs(st, steps, end) && AliveThroughout(st, steps, s)
    ensures Stuck(end, s) && s in end.redis && end.redis[s].data.containerId.None?
    decreases |steps|
  {
    hide Safe, Apply, Enabled;
    if steps != [] {
      SafeKept(st, steps[0]);
      StuckKept(st, steps[0], s);
      SpareTheLiving(st, steps[0], s);
      StuckWhileAlive(Apply(st, steps[0]), steps[1..], end, s);
    }
  }

  // ---- The runs that get there ----

  /** The scan is about to look at `s`, which has no container on record, a free name, and time left. */
  predicate Due(st: State, s: SessionId, rest: seq<SessionId>) {
    && st.worker.scan == ScanAt([s] + rest) && s !in st.worker.containerMap && s !in st.worker.names
    && s in st.redis && st.redis[s].data.containerId.None? && Ttl(st, s) > 0
  }

  /** The container runs and is recorded; the record in Redis does not say so yet. */
  function Recording(st: State, s: SessionId, c: ContainerId, rest: seq<SessionId>): State {
    st.(worker := st.worker.(
      scan := ScanReget(s, c, rest),
      containerMap := st.worker.containerMap[s := c],
      running := st.worker.running + {c},
      names := st.worker.names[s := c]),
      ledger := st.ledger.(owners := st.ledger.owners[c := s]))
  }

  function Attached(st: State, s: SessionId, c: ContainerId, rest: seq<SessionId>): State
    requires s in st.redis
  {
    WithScan(Recording(st, s, c, rest), ScanAt(rest)).(
      redis := st.redis[s := Entry(Attach(st.redis[s].data, s, c), st.now + Ttl(st, s))])
  }

  lemma FindRuns(st: State, s: SessionId, rest: seq<SessionId>)
    requires Due(st, s, rest)
    ensures LeadsIndivisibly(st, WithScan(st, ScanCreate(s, rest)))
  {
    hide LeadsIndivisibly, Apply, Enabled;
    var get, got := WithScan(st, ScanGet(s, rest)), WithScan(st, ScanGot(s, st.redis[s].data, rest));
    StaysIndivisibly(st);
    ScanAdvances(st, s, rest);
    GoesIndivisibly(st, st, ScanNext, get);
    ScanReads(get);
    GoesIndivisibly(st, get, ScanRead, got);
    ScanDecides(got);
    GoesIndivisibly(st, got, ScanDecide, WithScan(st, ScanCreate(s, rest)));
  }

  lemma StartRuns(st: State, s: SessionId, c: ContainerId, rest: seq<SessionId>)
    requires st.worker.scan == ScanCreate(s, rest) && c !in st.ledger.owners && s !in st.worker.names
    ensures LeadsIndivisibly(st, Recording(st, s, c, rest))
  {
    hide LeadsIndivisibly, Apply, Enabled;
    var made := Making(st, s, c, rest);
    var started := made.(worker := made.worker.(scan := ScanStarted(s, c, rest), running := made.worker.running + {c}));
    StaysIndivisibly(st);
    StartCreates(st, c);
    GoesIndivisibly(st, st, ScanMake(c), made);
    StartRunsIt(made);
    GoesIndivisibly(st, made, ScanRun, started);
    StartRecords(started);
    GoesIndivisibly(st, started, ScanRecord, Recording(st, s, c, rest));
  }

  lemma RecordingIsReached(st: State, s: SessionId, c: ContainerId, rest: seq<SessionId>)
    requires Due(st, s, rest) && c !in st.ledger.owners
    ensures LeadsIndivisibly(st, Recording(st, s, c, rest))
  {
    hide LeadsIndivisibly;
    var found := WithScan(st, ScanCreate(s, rest));
    FindRuns(st, s, rest);
    StartRuns(found, s, c, rest);
    JoinsIndivisibly(st, found, Recording(st, s, c, rest));
  }

  /**
   Left alone, the scan gives a session that has no container one, and says so in the record; split and indivisible
   attachment come to the same.
   */
  lemma ProvisionRuns(st: State, s: SessionId, c: ContainerId, rest: seq<SessionId>)
    requires Due(st, s, rest) && c !in st.ledger.owners
    ensures Leads(st, Attached(st, s, c, rest)) && LeadsIndivisibly(st, Attached(st, s, c, rest))
  {
    hide Leads, LeadsIndivisibly, Apply, Enabled, Runs;
    var mid := Recording(st, s, c, rest);
    RecordingIsReached(st, s, c, rest);
    AttachesAtOnce(st, s, c, rest);
    GoesIndivisibly(st, mid, AttachAtomic, Attached(st, s, c, rest));
    IndivisiblyLeads(st, Attached(st, s, c, rest));
  }

  lemma AttachesAtOnce(st: State, s: SessionId, c: ContainerId, rest: seq<SessionId>)
    requires Due(st, s, rest)
    ensures var mid := Recording(st, s, c, rest);
            Enabled(mid, AttachAtomic) && Apply(mid, AttachAtomic) == Attached(st, s, c, rest)
  {
    hide ContainerNameOf, RootOf, Attach;
  }

  /** An upload that read the record before the container was attached and writes it afterwards. */
  lemma UploadErasesContainer(
    st: State, i: nat, s: SessionId, c: ContainerId, d: SessionData, rest: seq<SessionId>)
    requires i in st.ops && st.ops[i] == UploadReadingTtl(s, d) && d.containerId.None?
    requires forall j :: j in st.ops ==> Unattached(st.ops[j], s)
    requires Due(st, s, rest) && c !in st.ledger.owners
    ensures exists end :: Leads(st, end) && Stuck(end, s) && s in end.redis && c in end.worker.running
  {
    var mid := Attached(st, s, c, rest);
    var ttl := Ttl(mid, s);
    var timed := mid.(ops := mid.ops[i := UploadWriting(s, d, ttl)]);
    var end := timed.(ops := timed.ops - {i}, redis := timed.redis[s := Entry(d, timed.now + ttl)]);
    assert Stuck(end, s);
    hide Leads, Apply, Enabled, Stuck;
    ProvisionRuns(st, s, c, rest);
    UploadTimes(mid, i);
    Goes(st, mid, UploadTtl(i), timed);
    UploadWrites(timed, i);
    Goes(st, timed, UploadWrite(i), end);
  }

  // ---- From the start ----

  /** The first session, listed by the scan. */
  function Listed(ops: map<nat, Op>): State { WithScan(Created(), ScanAt([SESSION])).(ops := ops) }

  lemma ListedIsDue(ops: map<nat, Op>)
    ensures Due(Listed(ops), SESSION, []) && 0 !in Listed(ops).ledger.owners
  {
    hide RootOf;
    assert [SESSION] + [] == [SESSION];
  }

  lemma ListedIsReached()
    ensures LeadsIndivisibly(INITIAL, Listed(map[]))
  {
    hide LeadsIndivisibly, Apply, Enabled, RootOf;
    CreatedIsReached();
    assert (set k | k in [SESSION]) == {SESSION};
    ScanLists(Created(), [SESSION]);
    GoesIndivisibly(INITIAL, Created(), ScanKeys([SESSION]), Listed(map[]));
  }

  function Uploading(): Op { UploadReadingTtl(SESSION, Upload(RECORD, "main.dart")) }

  lemma UploadingIsReached()
    ensures Leads(INITIAL, Listed(map[0 := Uploading()]))
  {
    hide Leads, LeadsIndivisibly, Apply, Enabled, RootOf, Upload;
    var st := Listed(map[]);
    ListedIsReached();
    IndivisiblyLeads(INITIAL, st);
    UploadReads(st, 0, SESSION, ALICE, "main.dart");
    assert st.ops[0 := Uploading()] == map[0 := Uploading()];
    Goes(INITIAL, st, UploadRead(0, SESSION, ALICE, "main.dart"), Listed(map[0 := Uploading()]));
  }

  /** The stuck state is reachable: the key is live, its container runs, and the record does not say so. */
  lemma StuckIsReachable()
    ensures exists st, s, c :: Leads(INITIAL, st) && Stuck(st, s) && s in st.redis && c in st.worker.running
  {
    hide Leads, Due, Stuck, RootOf, Upload;
    var ops := map[0 := Uploading()];
    var st := Listed(ops);
    UploadingIsReached();
    ListedIsDue(ops);
    UploadHasNone();
    UploadErasesContainer(st, 0, SESSION, 0, Upload(RECORD, "main.dart"), []);
    var end :| Leads(st, end) && Stuck(end, SESSION) && SESSION in end.redis && 0 in end.worker.running;
    Joins(INITIAL, st, end);
  }

  lemma UploadHasNone()
    ensures Upload(RECORD, "main.dart").containerId.None?
  {}

  /** A failed read right after the start leaves the session stuck as well. */
  lemma FailedAttachSticks(st: State, s: SessionId, c: ContainerId, rest: seq<SessionId>)
    requires st.worker.scan == ScanReget(s, c, rest) && s in st.worker.containerMap
    requires s in st.redis ==> st.redis[s].data.containerId.None?
    requires forall i :: i in st.ops ==> Unattached(st.ops[i], s)
    ensures Stuck(WithScan(st, ScanAt(rest)), s)
  {}

  /** It happens with indivisible updates too: no update is lost here, it is never made. */
  lemma FailedAttachIsReachable()
    ensures exists st, s, c ::
              LeadsIndivisibly(INITIAL, st) && Stuck(st, s) && s in st.redis && c in st.worker.running
  {
    hide LeadsIndivisibly, Due, Apply, Enabled, RootOf;
    var mid := Recording(Listed(map[]), SESSION, 0, []);
    var end := WithScan(mid, ScanAt([]));
    ListedIsReached();
    ListedIsDue(map[]);
    RecordingIsReached(Listed(map[]), SESSION, 0, []);
    JoinsIndivisibly(INITIAL, Listed(map[]), mid);
    ScanGivesUp(mid);
    GoesIndivisibly(INITIAL, mid, ScanFails, end);
    FailedAttachSticks(mid, SESSION, 0, []);
    hide Stuck;
    assert 0 in end.worker.running && SESSION in end.redis;
  }

  // ---- The sweep of a session whose key is gone ----

  /** The sweep has found the key of `s` missing, and is about to stop its container. */
  function Stopping(st: State, s: SessionId, c: ContainerId): State { WithClean(st, CleanStop(s, c, {s}, {s})) }

  lemma SweepFinds(st: State, s: SessionId, c: ContainerId)
    requires st.worker.clean.CleanIdle? && s in st.worker.containerMap && st.worker.containerMap[s] == c
    requires s !in st.redis
    ensures LeadsIndivisibly(st, Stopping(st, s, c))
  {
    hide LeadsIndivisibly, Apply, Enabled;
    var begun, picked := WithClean(st, CleanAt({}, {})), WithClean(st, CleanExists(s, c, {s}, {}));
    assert {} + {s} == {s};
    StaysIndivisibly(st);
    SweepOpens(st);
    GoesIndivisibly(st, st, CleanBegin, begun);
    SweepPicks(begun, s);
    GoesIndivisibly(st, begun, CleanPick(s), picked);
    SweepChecks(picked);
    GoesIndivisibly(st, picked, CleanCheck, Stopping(st, s, c));
  }

  /** At the moment the key expires. */
  function Late(st: State, s: SessionId): State
    requires s in st.redis
  {
    st.(now := st.redis[s].expiresAt, redis := Live(st.redis, st.redis[s].expiresAt))
  }

  lemma LateIsReached(st: State, s: SessionId)
    requires s in st.redis && Ttl(st, s) > 0
    ensures LeadsIndivisibly(st, Late(st, s)) && s !in Late(st, s).redis
  {
    StaysIndivisibly(st);
    hide LeadsIndivisibly;
    GoesIndivisibly(st, st, Tick(Ttl(st, s)), Late(st, s));
  }

  /** An activity update that read the record before it expired writes it back after the sweep. */
  lemma ActivityRevivesSession(st: State, i: nat, s: SessionId, c: ContainerId, d: SessionData)
    returns (late: State, end: State)
    requires i in st.ops && st.ops[i] == ActivityWriting(s, d) && d.containerId == Some(c)
    requires st.worker.clean.CleanIdle? && s in st.worker.containerMap && st.worker.containerMap[s] == c
    requires Exists(st.worker, s, c) && s in st.redis && Ttl(st, s) > 0
    ensures Leads(st, late) && s !in late.redis && late.ledger == st.ledger && Leads(late, end)
    ensures s in end.redis && end.redis[s].data.containerId == Some(c) && c !in end.worker.running
  {
    hide Leads, LeadsIndivisibly, Apply, Enabled, Live;
    late := Late(st, s);
    LateIsReached(st, s);
    IndivisiblyLeads(st, late);
    SweepFinds(late, s, c);
    var stopping := Stopping(late, s, c);
    IndivisiblyLeads(late, stopping);
    SweepHalts(stopping);
    var stopped := Halting(stopping, s, c);
    Goes(late, stopping, CleanStopped, stopped);
    ActivityWrites(stopped, i);
    end := stopped.(ops := stopped.ops - {i},
      redis := stopped.redis[s := Entry(d, stopped.now + SESSION_TTL)],
      refreshed := stopped.refreshed[s := stopped.now]);
    Goes(late, stopped, ActivityWrite(i), end);
  }

  /** The first session with its container. */
  function Provided(): State { Attached(Listed(map[]), SESSION, 0, []) }

  lemma ProvidedIsReached()
    ensures LeadsIndivisibly(INITIAL, Provided())
    ensures SESSION in Provided().redis && Provided().redis[SESSION].data.containerId == Some(0)
    ensures Ttl(Provided(), SESSION) > 0 && SESSION in Provided().ledger.creators && Provided().ops == map[]
    ensures Provided().worker ==
            Worker(map[SESSION := 0], ScanAt([]), CleanIdle, {0}, {}, map[SESSION := 0])
    ensures Provided().ledger.owners == map[0 := SESSION]
  {
    hide LeadsIndivisibly, RootOf, ContainerNameOf;
    ListedIsReached();
    ListedIsDue(map[]);
    ProvisionRuns(Listed(map[]), SESSION, 0, []);
    JoinsIndivisibly(INITIAL, Listed(map[]), Provided());
  }

  /**
   With split updates an expired id can come back, and the container it names may be gone: what holds of a run in
   which every `setex` finds its key does not hold of every run.
   */
  lemma DeadContainerIsReachable()
    ensures exists mid, st, s ::
              && Leads(INITIAL, mid) && s in mid.ledger.creators && s !in mid.redis
              && Leads(mid, st) && s in st.redis && st.redis[s].data.containerId.Some?
              && st.redis[s].data.containerId.value !in st.worker.running
  {
    hide Leads, LeadsIndivisibly, Provided, Apply, Enabled, Touch;
    ProvidedIsReached();
    var full := Provided();
    var d := Touch(full.redis[SESSION].data, full.now);
    var read := Begin(full, 0, ActivityWriting(SESSION, d));
    IndivisiblyLeads(INITIAL, full);
    ActivityReads(full, 0, SESSION);
    Goes(INITIAL, full, ActivityRead(0, SESSION), read);
    assert d.containerId == Some(0) by { TouchKeepsContainer(full.redis[SESSION].data, full.now); }
    var late, end := ActivityRevivesSession(read, 0, SESSION, 0, d);
    Joins(INITIAL, read, late);
    assert SESSION in late.ledger.creators;
  }

  lemma TouchKeepsContainer(d: SessionData, now: int)
    ensures Touch(d, now).containerId == d.containerId
  {}

  /** Docker refuses once, and the end of the sweep forgets a container that runs on. */
  lemma LeakIsReachable()
    ensures exists st, c ::
              LeadsIndivisibly(INITIAL, st) && c in st.worker.running && !Tracked(st.worker, st.ledger.owners, c)
  {
    hide LeadsIndivisibly, Provided, Apply, Enabled, Live;
    ProvidedIsReached();
    var late := Late(Provided(), SESSION);
    var stopping := Stopping(late, SESSION, 0);
    LateIsReached(Provided(), SESSION);
    JoinsIndivisibly(INITIAL, Provided(), late);
    SweepFinds(late, SESSION, 0);
    JoinsIndivisibly(INITIAL, late, stopping);
    RefusalRuns(stopping);
  }

  lemma RefusalRuns(st: State)
    requires LeadsIndivisibly(INITIAL, st)
    requires st.worker.containerMap == map[SESSION := 0] && st.worker.running == {0} && st.worker.stopRefused == {}
    requires st.worker.clean == CleanStop(SESSION, 0, {SESSION}, {SESSION}) && st.worker.scan == ScanAt([])
    ensures exists end, c ::
              LeadsIndivisibly(INITIAL, end) && c in end.worker.running && !Tracked(end.worker, end.ledger.owners, c)
  {
    hide LeadsIndivisibly, Apply, Enabled;
    var refused := st.(worker := st.worker.(clean := CleanAt({SESSION}, {SESSION}), stopRefused := {0}));
    var end := refused.(worker := refused.worker.(clean := CleanIdle, containerMap := map[]));
    SweepHalts(st);
    assert {} + {0} == {0};
    GoesIndivisibly(INITIAL, st, CleanStopRefused, refused);
    SweepCloses(refused);
    assert map[SESSION := 0] - {SESSION} == map[];
    GoesIndivisibly(INITIAL, refused, CleanEnd, end);
    assert 0 in end.worker.running && !Tracked(end.worker, end.ledger.owners, 0);
  }
}
