/** Runs without their steps spelled out, and what each step comes to at its place in the code. */
module LspRuns {
  import opened Sequences
  import opened LspSessions
  import opened LspSessionSafety

  lemma {:induction false} RunsJoin(st: State, xs: seq<Step>, mid: State, ys: seq<Step>, end: State)
    requires Runs(st, xs, mid) && Runs(mid, ys, end)
    ensures Runs(st, xs + ys, end)
    decreases |xs|
  {
    hide Apply, Enabled;
    if xs == [] {
      assert xs + ys == ys;
    } else {
      RunsJoin(Apply(st, xs[0]), xs[1..], mid, ys, end);
      assert (xs + ys)[0] == xs[0] && (xs + ys)[1..] == xs[1..] + ys;
    }
  }

  lemma RunsOne(st: State, a: Step, end: State)
    requires Enabled(st, a) && Apply(st, a) == end
    ensures Runs(st, [a], end)
  {
    assert [a][1..] == [];
  }

  /** Some run leads from `st` to `end`. */
  ghost predicate Leads(st: State, end: State) { exists steps :: Runs(st, steps, end) }

  lemma Stays(st: State)
    ensures Leads(st, st)
  {
    assert Runs(st, [], st);
  }

  lemma Goes(start: State, before: State, step: Step, after: State)
    requires Leads(start, before) && Enabled(before, step) && Apply(before, step) == after
    ensures Leads(start, after)
  {
    var steps :| Runs(start, steps, before);
    RunsOne(before, step, after);
    hide Runs, Apply, Enabled;
    RunsJoin(start, steps, before, [step], after);
  }

  lemma Joins(st: State, mid: State, end: State)
    requires Leads(st, mid) && Leads(mid, end)
    ensures Leads(st, end)
  {
    hide Runs;
    var xs :| Runs(st, xs, mid);
    var ys :| Runs(mid, ys, end);
    RunsJoin(st, xs, mid, ys, end);
  }

  lemma LeadsKeepsSafe(st: State, end: State)
    requires Safe(st) && Leads(st, end)
    ensures Safe(end) && Grows(st.ledger, end.ledger)
  {
    hide Safe, Runs, Grows;
    var steps :| Runs(st, steps, end);
    SafeAlways(st, steps, end);
    LedgerGrows(st, steps, end);
  }

  lemma LeadsGrows(st: State, end: State)
    requires Leads(st, end)
    ensures Grows(st.ledger, end.ledger)
  {
    hide Runs, Grows;
    var steps :| Runs(st, steps, end);
    LedgerGrows(st, steps, end);
  }

  /** The same, with indivisible steps only. */
  ghost predicate LeadsIndivisibly(st: State, end: State) {
    exists steps :: Runs(st, steps, end) && AllAtomic(steps)
  }

  lemma StaysIndivisibly(st: State)
    ensures LeadsIndivisibly(st, st)
  {
    assert Runs(st, [], st) && AllAtomic([]);
  }

  lemma GoesIndivisibly(start: State, before: State, step: Step, after: State)
    requires LeadsIndivisibly(start, before) && Enabled(before, step) && Apply(before, step) == after && IsAtomic(step)
    ensures LeadsIndivisibly(start, after)
  {
    var steps :| Runs(start, steps, before) && AllAtomic(steps);
    RunsOne(before, step, after);
    hide Runs, Apply, Enabled, IsAtomic;
    RunsJoin(start, steps, before, [step], after);
    assert AllAtomic(steps + [step]);
  }

  lemma JoinsIndivisibly(st: State, mid: State, end: State)
    requires LeadsIndivisibly(st, mid) && LeadsIndivisibly(mid, end)
    ensures LeadsIndivisibly(st, end)
  {
    hide Runs, IsAtomic;
    var xs :| Runs(st, xs, mid) && AllAtomic(xs);
    var ys :| Runs(mid, ys, end) && AllAtomic(ys);
    RunsJoin(st, xs, mid, ys, end);
    assert AllAtomic(xs + ys);
  }

  lemma IndivisiblyLeads(st: State, end: State)
    requires LeadsIndivisibly(st, end)
    ensures Leads(st, end)
  {}

  function WithScan(st: State, scan: Scan): State { st.(worker := st.worker.(scan := scan)) }

  function WithClean(st: State, clean: Clean): State { st.(worker := st.worker.(clean := clean)) }

  /** Docker has an id it has not given yet. */
  lemma FreshContainer(owners: map<ContainerId, SessionId>) returns (c: ContainerId)
    ensures c !in owners
  {
    c := 0;
    var left := owners.Keys;
    while left != {}
      invariant left <= owners.Keys && forall k :: k in owners.Keys && k !in left ==> k < c
      decreases left
    {
      var k :| k in left;
      left := left - {k};
      if k >= c {
        c := k + 1;
      }
    }
  }

  // ---- One session, just created ----

  const ALICE: User := "alice"
  const SESSION := SessionId("01")
  const RECORD := SessionData(ALICE, RootOf(SESSION), None, None, [], None)

  function Created(): State {
    INITIAL.(redis := map[SESSION := Entry(RECORD, SESSION_TTL)],
      refreshed := map[SESSION := 0],
      ledger := Ledger(map[SESSION := ALICE], map[]))
  }

  lemma CreatedIsReached()
    ensures Leads(INITIAL, Created()) && LeadsIndivisibly(INITIAL, Created())
  {
    hide RootOf;
    StaysIndivisibly(INITIAL);
    Creates(INITIAL, SESSION, ALICE);
    assert Apply(INITIAL, CreateSession(SESSION, ALICE)) == Created();
    GoesIndivisibly(INITIAL, INITIAL, CreateSession(SESSION, ALICE), Created());
  }

  // ---- The steps, one place in the code at a time ----

  lemma Creates(st: State, s: SessionId, user: User)
    requires s !in st.ledger.creators
    ensures Enabled(st, CreateSession(s, user))
    ensures Apply(st, CreateSession(s, user)) ==
            st.(redis := st.redis[s := Entry(SessionData(user, RootOf(s), None, None, [], None), st.now + SESSION_TTL)],
                refreshed := st.refreshed[s := st.now],
                ledger := st.ledger.(creators := st.ledger.creators[s := user]))
  {
  }

  lemma Gives(st: State, i: nat)
    requires i in st.ops
    ensures Enabled(st, OpFails(i)) && Apply(st, OpFails(i)) == Finish(st, i)
  {
  }

  lemma RenewReads(st: State, i: nat, s: SessionId, user: User)
    requires i !in st.ops && OwnerOf(st, s) == Some(user)
    ensures Enabled(st, RenewRead(i, s, user))
    ensures Apply(st, RenewRead(i, s, user)) == Begin(st, i, RenewExpiring(s))
  {
  }

  lemma RenewExpires(st: State, i: nat)
    requires i in st.ops && st.ops[i].RenewExpiring?
    ensures Enabled(st, RenewExpire(i))
    ensures var s := st.ops[i].s;
            Apply(st, RenewExpire(i)) ==
            if s !in st.redis then Finish(st, i)
            else st.(ops := st.ops - {i},
                     redis := st.redis[s := Entry(st.redis[s].data, st.now + SESSION_TTL)],
                     refreshed := st.refreshed[s := st.now])
  {
  }

  lemma ActivityReads(st: State, i: nat, s: SessionId)
    requires i !in st.ops && s in st.redis
    ensures Enabled(st, ActivityRead(i, s))
    ensures Apply(st, ActivityRead(i, s)) == Begin(st, i, ActivityWriting(s, Touch(st.redis[s].data, st.now)))
  {
  }

  lemma ActivityWrites(st: State, i: nat)
    requires i in st.ops && st.ops[i].ActivityWriting?
    ensures Enabled(st, ActivityWrite(i))
    ensures var op := st.ops[i];
            Apply(st, ActivityWrite(i)) ==
            st.(ops := st.ops - {i},
                redis := st.redis[op.s := Entry(op.data, st.now + SESSION_TTL)],
                refreshed := st.refreshed[op.s := st.now])
  {
  }

  lemma UploadReads(st: State, i: nat, s: SessionId, user: User, file: string)
    requires i !in st.ops && OwnerOf(st, s) == Some(user)
    ensures Enabled(st, UploadRead(i, s, user, file))
    ensures Apply(st, UploadRead(i, s, user, file)) ==
            Begin(st, i, UploadReadingTtl(s, Upload(st.redis[s].data, file)))
  {
  }

  lemma UploadTimes(st: State, i: nat)
    requires i in st.ops && st.ops[i].UploadReadingTtl?
    ensures Enabled(st, UploadTtl(i))
    ensures var op := st.ops[i];
            Apply(st, UploadTtl(i)) ==
            if Ttl(st, op.s) > 0 then Begin(st, i, UploadWriting(op.s, op.data, Ttl(st, op.s))) else Finish(st, i)
  {
  }

  lemma UploadWrites(st: State, i: nat)
    requires i in st.ops && st.ops[i].UploadWriting?
    ensures Enabled(st, UploadWrite(i))
    ensures var op := st.ops[i];
            Apply(st, UploadWrite(i)) ==
            st.(ops := st.ops - {i}, redis := st.redis[op.s := Entry(op.data, st.now + op.ttl)])
  {
  }

  lemma ConnectChecks(st: State, i: nat, client: Client, s: SessionId, user: Option<User>)
    requires i !in st.ops && OwnerOf(st, s) == user
    ensures Enabled(st, ConnectOwn(i, client, s, user))
    ensures Apply(st, ConnectOwn(i, client, s, user)) == Begin(st, i, ConnectReading(client, s, user))
  {
  }

  lemma ConnectReads(st: State, i: nat)
    requires i in st.ops && st.ops[i].ConnectReading?
    ensures Enabled(st, ConnectRead(i))
    ensures var op := st.ops[i];
            Apply(st, ConnectRead(i)) ==
            if op.s in st.redis && st.redis[op.s].data.containerId.Some? && st.redis[op.s].data.containerName.Some?
            then Begin(st, i, ConnectDialling(op.client, op.s, op.user, st.redis[op.s].data.workspaceRoot))
            else Finish(st, i)
  {
  }

  lemma ConnectReaches(st: State, i: nat)
    requires i in st.ops && st.ops[i].ConnectDialling?
    ensures Enabled(st, ConnectDone(i))
    ensures var op := st.ops[i];
            Apply(st, ConnectDone(i)) ==
            st.(ops := st.ops - {i}, clients := st.clients[op.client := ClientSession(op.s, op.user, op.root)])
  {
  }

  lemma ClientLeaves(st: State, client: Client)
    ensures Enabled(st, ClientGone(client))
    ensures Apply(st, ClientGone(client)) == st.(clients := st.clients - {client})
  {
  }

  lemma ScanLists(st: State, keys: seq<SessionId>)
    requires st.worker.scan == ScanIdle && (set s | s in keys) == st.redis.Keys
    ensures Enabled(st, ScanKeys(keys)) && Apply(st, ScanKeys(keys)) == WithScan(st, ScanAt(keys))
  {
  }

  lemma ScanEnds(st: State)
    requires st.worker.scan == ScanAt([])
    ensures Enabled(st, ScanNext) && Apply(st, ScanNext) == WithScan(st, ScanIdle)
  {
  }

  lemma ScanAdvances(st: State, s: SessionId, rest: seq<SessionId>)
    requires st.worker.scan == ScanAt([s] + rest)
    ensures Enabled(st, ScanNext)
    ensures Apply(st, ScanNext) ==
            WithScan(st, if s in st.worker.containerMap then ScanAt(rest) else ScanGet(s, rest))
  {
    assert ([s] + rest)[1..] == rest;
  }

  lemma ScanReads(st: State)
    requires st.worker.scan.ScanGet?
    ensures Enabled(st, ScanRead)
    ensures var ScanGet(s, rest) := st.worker.scan;
            Apply(st, ScanRead) ==
            WithScan(st, if s in st.redis then ScanGot(s, st.redis[s].data, rest) else ScanAt(rest))
  {
  }

  lemma ScanDecides(st: State)
    requires st.worker.scan.ScanGot?
    ensures Enabled(st, ScanDecide)
    ensures var ScanGot(s, d, rest) := st.worker.scan;
            Apply(st, ScanDecide) ==
            match d.containerId
            case None => WithScan(st, ScanCreate(s, rest))
            case Some(c) =>
              st.(worker := st.worker.(scan := ScanAt(rest), containerMap := st.worker.containerMap[s := c]))
  {
  }

  predicate MayThrow(scan: Scan) {
    scan.ScanGet? || scan.ScanCreate? || scan.ScanStart? || scan.ScanReget? || scan.ScanTtl? || scan.ScanWrite?
  }

  lemma ScanGivesUp(st: State)
    requires MayThrow(st.worker.scan)
    ensures Enabled(st, ScanFails)
    ensures Apply(st, ScanFails) ==
            WithScan(st, if st.worker.scan.ScanGet? then ScanIdle else ScanAt(st.worker.scan.rest))
  {
  }

  /** Container `c` exists under the name of `s`, and is about to be started. */
  function Making(st: State, s: SessionId, c: ContainerId, rest: seq<SessionId>): State {
    st.(worker := st.worker.(scan := ScanStart(s, c, rest), names := st.worker.names[s := c]),
        ledger := st.ledger.(owners := st.ledger.owners[c := s]))
  }

  lemma StartCreates(st: State, c: ContainerId)
    requires st.worker.scan.ScanCreate? && c !in st.ledger.owners && st.worker.scan.s !in st.worker.names
    ensures Enabled(st, ScanMake(c))
    ensures Apply(st, ScanMake(c)) == Making(st, st.worker.scan.s, c, st.worker.scan.rest)
  {
  }

  lemma StartRunsIt(st: State)
    requires st.worker.scan.ScanStart?
    ensures Enabled(st, ScanRun)
    ensures var ScanStart(s, c, rest) := st.worker.scan;
            Apply(st, ScanRun) ==
            st.(worker := st.worker.(scan := ScanStarted(s, c, rest), running := st.worker.running + {c}))
  {
  }

  lemma StartRecords(st: State)
    requires st.worker.scan.ScanStarted?
    ensures Enabled(st, ScanRecord)
    ensures var ScanStarted(s, c, rest) := st.worker.scan;
            Apply(st, ScanRecord) ==
            st.(worker := st.worker.(scan := ScanReget(s, c, rest), containerMap := st.worker.containerMap[s := c]))
  {
  }

  lemma StartRereads(st: State)
    requires st.worker.scan.ScanReget?
    ensures Enabled(st, ScanReread)
    ensures var ScanReget(s, c, rest) := st.worker.scan;
            Apply(st, ScanReread) ==
            WithScan(st, if s in st.redis then ScanTtl(s, Attach(st.redis[s].data, s, c), rest) else ScanAt(rest))
  {
  }

  lemma StartTimes(st: State)
    requires st.worker.scan.ScanTtl?
    ensures Enabled(st, ScanReadTtl)
    ensures var ScanTtl(s, d, rest) := st.worker.scan;
            Apply(st, ScanReadTtl) ==
            WithScan(st, if Ttl(st, s) > 0 then ScanWrite(s, d, Ttl(st, s), rest) else ScanAt(rest))
  {
  }

  lemma StartStores(st: State)
    requires st.worker.scan.ScanWrite?
    ensures Enabled(st, ScanStore)
    ensures var ScanWrite(s, d, ttl, rest) := st.worker.scan;
            Apply(st, ScanStore) ==
            WithScan(st, ScanAt(rest)).(redis := st.redis[s := Entry(d, st.now + ttl)])
  {
  }

  lemma SweepOpens(st: State)
    requires st.worker.clean == CleanIdle
    ensures Enabled(st, CleanBegin) && Apply(st, CleanBegin) == WithClean(st, CleanAt({}, {}))
  {
  }

  lemma SweepPicks(st: State, s: SessionId)
    requires st.worker.clean.CleanAt? && s in st.worker.containerMap && s !in st.worker.clean.visited
    ensures Enabled(st, CleanPick(s))
    ensures var CleanAt(visited, expired) := st.worker.clean;
            Apply(st, CleanPick(s)) ==
            WithClean(st, CleanExists(s, st.worker.containerMap[s], visited + {s}, expired))
  {
  }

  lemma SweepChecks(st: State)
    requires st.worker.clean.CleanExists?
    ensures Enabled(st, CleanCheck) && Enabled(st, CleanFails)
    ensures Apply(st, CleanFails) == WithClean(st, CleanIdle)
    ensures var CleanExists(s, c, visited, expired) := st.worker.clean;
            Apply(st, CleanCheck) ==
            WithClean(st,
              if s in st.redis then CleanAt(visited, expired) else CleanStop(s, c, visited, expired + {s}))
  {
  }

  /** Container `c` has been stopped, and is about to be removed. */
  function Halting(st: State, s: SessionId, c: ContainerId): State
    requires !st.worker.clean.CleanIdle?
  {
    var clean := CleanRemove(s, c, st.worker.clean.visited, st.worker.clean.expired);
    st.(worker := st.worker.(clean := clean, running := st.worker.running - {c}))
  }

  lemma SweepHalts(st: State)
    requires st.worker.clean.CleanStop?
    ensures Enabled(st, CleanStopRefused)
    ensures Exists(st.worker, st.worker.clean.s, st.worker.clean.c) ==>
              Enabled(st, CleanStopped)
              && Apply(st, CleanStopped) == Halting(st, st.worker.clean.s, st.worker.clean.c)
    ensures var CleanStop(s, c, visited, expired) := st.worker.clean;
            Apply(st, CleanStopRefused) ==
            st.(worker := st.worker.(clean := CleanAt(visited, expired), stopRefused := st.worker.stopRefused + {c}))
  {
  }

  lemma SweepRemoves(st: State)
    requires st.worker.clean.CleanRemove?
    ensures Enabled(st, CleanRemoved) && Enabled(st, CleanRemoveRefused)
    ensures var CleanRemove(s, c, visited, expired) := st.worker.clean;
            Apply(st, CleanRemoved) ==
            st.(worker := st.worker.(clean := CleanAt(visited, expired), names := st.worker.names - {s}))
    ensures Apply(st, CleanRemoveRefused) == WithClean(st, CleanAt(st.worker.clean.visited, st.worker.clean.expired))
  {
  }

  lemma SweepCloses(st: State)
    requires st.worker.clean.CleanAt? && st.worker.containerMap.Keys <= st.worker.clean.visited
    ensures Enabled(st, CleanEnd)
    ensures Apply(st, CleanEnd) ==
            st.(worker := st.worker.(
                clean := CleanIdle, containerMap := st.worker.containerMap - st.worker.clean.expired))
  {
  }

  // ---- The rest of a start ----

  /** Once the container is recorded, its session's record is reread and written back. */
  lemma AttachmentFinishes(st: State) returns (end: State)
    requires st.worker.scan.ScanReget? && st.worker.scan.s in st.redis && Ttl(st, st.worker.scan.s) > 0
    ensures var ScanReget(s, c, rest) := st.worker.scan;
            end == WithScan(st, ScanAt(rest)).(
                     redis := st.redis[s := Entry(Attach(st.redis[s].data, s, c), st.now + Ttl(st, s))])
            && Leads(st, end)
  {
    hide Leads, Apply, Enabled, Attach;
    var ScanReget(s, c, rest) := st.worker.scan;
    var d := Attach(st.redis[s].data, s, c);
    var read, timed := WithScan(st, ScanTtl(s, d, rest)), WithScan(st, ScanWrite(s, d, Ttl(st, s), rest));
    Stays(st);
    StartRereads(st);
    Goes(st, st, ScanReread, read);
    StartTimes(read);
    Goes(st, read, ScanReadTtl, timed);
    StartStores(timed);
    end := WithScan(st, ScanAt(rest)).(redis := st.redis[s := Entry(d, st.now + Ttl(st, s))]);
    Goes(st, timed, ScanStore, end);
  }

  /** Left alone, a container that has been created ends up in its session's record. */
  lemma StartFinishes(st: State) returns (end: State)
    requires st.worker.scan.ScanStart? || st.worker.scan.ScanStarted? || st.worker.scan.ScanReget?
    requires st.worker.scan.s in st.redis && Ttl(st, st.worker.scan.s) > 0
    ensures Leads(st, end)
    ensures var s := st.worker.scan.s;
            s in end.redis && end.redis[s].data == Attach(st.redis[s].data, s, st.worker.scan.c)
  {
    hide Leads, Apply, Enabled, Attach;
    var s, c, rest := st.worker.scan.s, st.worker.scan.c, st.worker.scan.rest;
    var started, recorded := st, st;
    Stays(st);
    if st.worker.scan.ScanStart? {
      StartRunsIt(st);
      started := st.(worker := st.worker.(scan := ScanStarted(s, c, rest), running := st.worker.running + {c}));
      Goes(st, st, ScanRun, started);
    }
    if !st.worker.scan.ScanReget? {
      StartRecords(started);
      recorded := started.(worker := started.worker.(
        scan := ScanReget(s, c, rest), containerMap := started.worker.containerMap[s := c]));
      Goes(st, started, ScanRecord, recorded);
    }
    end := AttachmentFinishes(recorded);
    Joins(st, recorded, end);
  }
}
