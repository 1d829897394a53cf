/**
 What can still become of a session: whether some run lets its record name a container, and whether some run leaves
 it naming one that does not run. Both come down to the same condition on the present state.
 */
module LspFates {
  import opened Sequences
  import opened LspSessions
  import opened LspSessionSafety
  import opened LspRuns
  import opened LspLiveSessions
  import opened LspNames
  import opened LspLostUpdates
  import opened LspDrives

  // ---- Sessions that never get a container ----

  predicate CopyNames(op: Op, s: SessionId) {
    CopyIn(op).Some? && CopyIn(op).value.0 == s && CopyIn(op).value.1.containerId.Some?
  }

  /** The scan neither is starting a container for `s` nor is about to write one into its record. */
  predicate ScanNamesNone(scan: Scan, s: SessionId) {
    match scan
    case ScanStart(r, _, _) => r != s
    case ScanStarted(r, _, _) => r != s
    case ScanReget(r, _, _) => r != s
    case ScanTtl(r, d, _) => r == s ==> d.containerId.None?
    case ScanWrite(r, d, _, _) => r == s ==> d.containerId.None?
    case _ => true
  }

  /** Neither the record of `s` nor a copy in flight names a container, and none is being started. */
  predicate Nameless(st: State, s: SessionId) {
    && (s in st.redis ==> st.redis[s].data.containerId.None?)
    && (forall i :: i in st.ops ==> !CopyNames(st.ops[i], s))
    && ScanNamesNone(st.worker.scan, s)
  }

  /** The container that has the session's name is the one the worker has recorded: a sweep can free the name. */
  predicate Reapable(w: Worker, s: SessionId) { s in w.containerMap && Exists(w, s, w.containerMap[s]) }

  /** The scan is about to record the container that has the session's name. */
  predicate Adoptable(w: Worker, s: SessionId) {
    w.scan.ScanGot? && w.scan.s == s && w.scan.data.containerId.Some? && Exists(w, s, w.scan.data.containerId.value)
  }

  /** The session's name is taken by a container that no record names and the worker does not know. */
  predicate Blocked(st: State, s: SessionId) {
    Nameless(st, s) && s in st.worker.names && !Reapable(st.worker, s) && !Adoptable(st.worker, s)
  }

  lemma ReadKeepsNameless(st: State, step: Step, s: SessionId)
    requires Nameless(st, s) && Enabled(st, step) && (step.RenewRead? || step.ActivityRead? || step.UploadRead?)
    ensures Nameless(ApplySplit(st, step), s)
  {
    var t := ApplySplit(st, step);
    assert forall i :: i in t.ops && !(i in st.ops && t.ops[i] == st.ops[i]) ==> !CopyNames(t.ops[i], s);
  }

  lemma WriteKeepsNameless(st: State, step: Step, s: SessionId)
    requires Nameless(st, s) && Enabled(st, step)
    requires !(step.RenewRead? || step.ActivityRead? || step.UploadRead?)
    ensures Nameless(ApplySplit(st, step), s)
  {
    var t := ApplySplit(st, step);
    assert forall i :: i in t.ops && !(i in st.ops && t.ops[i] == st.ops[i]) ==> !CopyNames(t.ops[i], s);
  }

  lemma GatewayKeepsNameless(st: State, step: Step, s: SessionId)
    requires Nameless(st, s) && Enabled(st, step)
    ensures Nameless(ApplyGateway(st, step), s)
  {
    var t := ApplyGateway(st, step);
    assert forall i :: i in t.ops && !(i in st.ops && t.ops[i] == st.ops[i]) ==> !CopyNames(t.ops[i], s);
  }

  lemma AtomicKeepsNameless(st: State, step: Step, s: SessionId)
    requires Nameless(st, s) && Enabled(st, step)
    ensures Nameless(ApplyAtomic(st, step), s)
  {
    hide ContainerNameOf, RootOf;
  }

  lemma SameBlocked(st: State, t: State, s: SessionId)
    requires Blocked(st, s) && Nameless(t, s) && t.worker == st.worker
    ensures Blocked(t, s)
  {}

  lemma SplitKeepsBlocked(st: State, step: Step, s: SessionId)
    requires Blocked(st, s) && Enabled(st, step)
    ensures Blocked(ApplySplit(st, step), s)
  {
    hide Blocked, Nameless, ApplySplit;
    assert Nameless(st, s) by { BlockedIsNameless(st, s); }
    if step.RenewRead? || step.ActivityRead? || step.UploadRead? {
      ReadKeepsNameless(st, step, s);
    } else {
      WriteKeepsNameless(st, step, s);
    }
    SameBlocked(st, ApplySplit(st, step), s);
  }

  lemma BlockedIsNameless(st: State, s: SessionId)
    requires Blocked(st, s)
    ensures Nameless(st, s)
  {}

  lemma AtomicKeepsBlocked(st: State, step: Step, s: SessionId)
    requires Blocked(st, s) && Enabled(st, step)
    ensures Blocked(ApplyAtomic(st, step), s)
  {
    hide Nameless, ContainerNameOf, RootOf, Attach, Touch, Upload;
    AtomicKeepsNameless(st, step, s);
  }

  lemma ScanKeepsBlocked(st: State, step: Step, s: SessionId)
    requires Blocked(st, s) && Enabled(st, step)
    ensures Blocked(ApplyScan(st, step), s)
  {
    hide CopyNames;
  }

  lemma StartKeepsBlocked(st: State, step: Step, s: SessionId)
    requires Blocked(st, s) && Enabled(st, step)
    ensures Blocked(ApplyStart(st, step), s)
  {
    hide CopyNames, ContainerNameOf, RootOf, Attach, Ttl;
  }

  /** A sweep frees no name but that of a container the worker has recorded. */
  lemma SweepKeepsBlocked(st: State, step: Step, s: SessionId)
    requires Sound(st) && Blocked(st, s) && Enabled(st, step)
    ensures Blocked(ApplyClean(st, step), s)
  {
    hide Ownership, GoodFleet, NamesKnown, RunningExist, CopyNames;
  }

  lemma CreationKeepsBlocked(st: State, r: SessionId, user: User, s: SessionId)
    requires Sound(st) && Blocked(st, s) && r !in st.ledger.creators
    ensures Blocked(Create(st, r, user), s)
  {
    hide Safe;
    assert Made(st.ledger, s, st.worker.names[s]);
  }

  lemma TickKeepsBlocked(st: State, n: nat, s: SessionId)
    requires Blocked(st, s)
    ensures Blocked(st.(now := st.now + n, redis := Live(st.redis, st.now + n)), s)
  {}

  lemma BlockedKept(st: State, step: Step, s: SessionId)
    requires Sound(st) && Blocked(st, s) && Enabled(st, step)
    ensures Blocked(Apply(st, step), s)
  {
    hide Sound, Blocked, Enabled, FamilyOf, Create, Live;
    hide ApplySplit, ApplyAtomic, ApplyGateway, ApplyScan, ApplyStart, ApplyClean;
    match FamilyOf(step)
    case ClockStep => TickKeepsBlocked(st, step.seconds, s);
    case Creation =>
      CreatesFresh(st, step);
      CreationKeepsBlocked(st, step.s, step.user, s);
    case SplitCall => SplitKeepsBlocked(st, step, s);
    case AtomicCall => AtomicKeepsBlocked(st, step, s);
    case GatewayCall =>
      BlockedIsNameless(st, s);
      GatewayKeepsNameless(st, step, s);
      SameBlocked(st, ApplyGateway(st, step), s);
    case ScanStep => ScanKeepsBlocked(st, step, s);
    case StartStep => StartKeepsBlocked(st, step, s);
    case SweepStep => SweepKeepsBlocked(st, step, s);
  }

  /** Such a session stays without a container in every run, for as long as it lives and whatever is done for it. */
  lemma {:induction false} BlockedForever(st: State, steps: seq<Step>, end: State, s: SessionId)
    requires Sound(st) && Blocked(st, s) && Runs(st, steps, end)
    ensures Blocked(end, s)
    decreases |steps|
  {
    hide Sound, Blocked, Apply, Enabled;
    if steps != [] {
      SoundKept(st, steps[0]);
      BlockedKept(st, steps[0], s);
      BlockedForever(Apply(st, steps[0]), steps[1..], end, s);
    }
  }

  /** A container that was created but would not start is enough, if no other was ever recorded for the session. */
  lemma FailedStartBlocks(st: State, s: SessionId, c: ContainerId, rest: seq<SessionId>)
    requires Sound(st) && st.worker.scan == ScanStart(s, c, rest)
    requires s in st.redis ==> st.redis[s].data.containerId.None?
    requires forall i :: i in st.ops ==> !CopyNames(st.ops[i], s)
    ensures Enabled(st, ScanFails) && Blocked(Apply(st, ScanFails), s)
  {
    hide Ownership, GoodClean, NamesKnown, RunningExist;
    ScanGivesUp(st);
    StartingIsVacant(st.worker, st.ledger.owners);
    hide Apply, GoodFleet;
  }

  /** It happens, with indivisible updates too: the first `start` fails, and the session stays without a container. */
  lemma BlockedIsReachable()
    ensures exists st, s :: LeadsIndivisibly(INITIAL, st) && Blocked(st, s) && s in st.redis
  {
    hide LeadsIndivisibly, Apply, Enabled, RootOf, Sound;
    var found := WithScan(Listed(map[]), ScanCreate(SESSION, []));
    var made := Making(found, SESSION, 0, []);
    ListedIsReached();
    ListedIsDue(map[]);
    FindRuns(Listed(map[]), SESSION, []);
    JoinsIndivisibly(INITIAL, Listed(map[]), found);
    StartCreates(found, 0);
    GoesIndivisibly(INITIAL, found, ScanMake(0), made);
    ScanGivesUp(made);
    GoesIndivisibly(INITIAL, made, ScanFails, WithScan(made, ScanAt([])));
    InitialIsSound();
    IndivisiblyLeads(INITIAL, made);
    LeadsKeepsSound(INITIAL, made);
    FailedStartBlocks(made, SESSION, 0, []);
    assert SESSION in WithScan(made, ScanAt([])).redis;
  }

  // ---- Everybody at rest ----

  lemma TimeIsLeft(st: State, s: SessionId)
    requires Safe(st) && s in st.redis
    ensures s in st.ledger.creators && Ttl(st, s) > 0
  {
    hide GoodOps, GoodClients, GoodClean, GoodFleet, GoodScan, GoodMap;
    assert GoodEntry(st.ledger, st.now, s, st.redis[s]);
  }

  /** The scan and the sweep can come to rest with nothing changed for `s`, but for what the scan had in hand. */
  lemma ComesToRest(st: State, s: SessionId) returns (end: State)
    requires Sound(st) && s in st.ledger.creators
    ensures Leads(st, end) && SameFor(Rested(st), end, s)
    ensures end.worker.scan == ScanIdle && end.worker.clean == CleanIdle
  {
    hide Leads, Sound, SameFor;
    ScanSettles(st);
    LeadsKeepsSound(st, Rested(st));
    end := SweepBreaks(Rested(st), s);
    Joins(st, Rested(st), end);
  }

  /** The scan gives a container to a session that has none, if its name is free. */
  lemma CanProvide(st: State, s: SessionId) returns (end: State)
    requires st.worker.scan == ScanIdle && s in st.redis && st.redis[s].data.containerId.None? && Ttl(st, s) > 0
    requires s !in st.worker.containerMap && s !in st.worker.names
    ensures Leads(st, end) && s in end.redis && end.redis[s].data.containerId.Some?
  {
    hide Leads, LeadsIndivisibly, Apply, Enabled;
    var rest := Listing(st.redis.Keys, s);
    var listed := WithScan(st, ScanAt([s] + rest));
    Stays(st);
    ScanLists(st, [s] + rest);
    Goes(st, st, ScanKeys([s] + rest), listed);
    var c := FreshContainer(st.ledger.owners);
    ProvisionRuns(listed, s, c, rest);
    end := Attached(listed, s, c, rest);
    Joins(st, listed, end);
  }

  /** The scan adopts the container a record names. */
  lemma CanAdopt(st: State, s: SessionId, c: ContainerId) returns (end: State)
    requires st.worker.scan == ScanIdle && s in st.redis && st.redis[s].data.containerId == Some(c)
    requires s !in st.worker.containerMap
    ensures Leads(st, end) && end.worker.scan.ScanAt?
    ensures end == st.(worker := st.worker.(
                     scan := end.worker.scan, containerMap := st.worker.containerMap[s := c]))
  {
    hide Leads, Apply, Enabled;
    var rest := Listing(st.redis.Keys, s);
    var listed := WithScan(st, ScanAt([s] + rest));
    var get, got := WithScan(st, ScanGet(s, rest)), WithScan(st, ScanGot(s, st.redis[s].data, rest));
    Stays(st);
    ScanLists(st, [s] + rest);
    Goes(st, st, ScanKeys([s] + rest), listed);
    ScanAdvances(listed, s, rest);
    Goes(st, listed, ScanNext, get);
    ScanReads(get);
    Goes(st, get, ScanRead, got);
    ScanDecides(got);
    end := st.(worker := st.worker.(scan := ScanAt(rest), containerMap := st.worker.containerMap[s := c]));
    Goes(st, got, ScanDecide, end);
  }

  // ---- A session is swept out of the map, and kept by an update that straddles its expiry ----

  /** The sweep that has found the key of `s` missing stops and removes its container, or is refused. */
  lemma SweepTakes(st: State, s: SessionId, stop: bool) returns (end: State)
    requires st.worker.clean.CleanIdle? && s in st.worker.containerMap && s !in st.redis
    requires stop ==> Reapable(st.worker, s)
    ensures Leads(st, end) && end.worker.clean == CleanAt({s}, {s})
    ensures end == st.(worker := st.worker.(
                     clean := end.worker.clean,
                     stopRefused := end.worker.stopRefused,
                     running := if stop then st.worker.running - {st.worker.containerMap[s]} else st.worker.running,
                     names := if stop then st.worker.names - {s} else st.worker.names))
  {
    hide Leads, LeadsIndivisibly, Apply, Enabled;
    var c := st.worker.containerMap[s];
    var stopping := Stopping(st, s, c);
    SweepFinds(st, s, c);
    IndivisiblyLeads(st, stopping);
    SweepHalts(stopping);
    if stop {
      var halted := Halting(stopping, s, c);
      Goes(st, stopping, CleanStopped, halted);
      SweepRemoves(halted);
      end := halted.(worker := halted.worker.(clean := CleanAt({s}, {s}), names := halted.worker.names - {s}));
      Goes(st, halted, CleanRemoved, end);
    } else {
      end := stopping.(worker := stopping.worker.(
        clean := CleanAt({s}, {s}), stopRefused := stopping.worker.stopRefused + {c}));
      Goes(st, stopping, CleanStopRefused, end);
    }
  }

  /** What is left of `s` and its container when the worker has forgotten it while an update of it was in flight. */
  predicate Forgotten(st: State, end: State, s: SessionId, d: SessionData, stop: bool) {
    && s in end.redis && end.redis[s].data == d && Ttl(end, s) > 0
    && s !in end.worker.containerMap && end.ledger == st.ledger
    && end.worker.scan == st.worker.scan && end.worker.clean == CleanIdle
    && end.worker.names == (if stop then st.worker.names - {s} else st.worker.names)
    && (!stop ==> end.worker.running == st.worker.running)
  }

  lemma CanForget(st: State, i: nat, s: SessionId, d: SessionData, stop: bool) returns (end: State)
    requires st.worker.clean.CleanIdle? && s in st.worker.containerMap && (stop ==> Reapable(st.worker, s))
    requires s in st.redis && Ttl(st, s) > 0 && i in st.ops && st.ops[i] == ActivityWriting(s, d)
    ensures Leads(st, end) && Forgotten(st, end, s, d, stop)
  {
    hide Leads, LeadsIndivisibly, Apply, Enabled, Live;
    var late := Late(st, s);
    LateIsReached(st, s);
    IndivisiblyLeads(st, late);
    var taken := SweepTakes(late, s, stop);
    Joins(st, late, taken);
    var swept := SweepFinishes(taken);
    Joins(st, taken, swept);
    ActivityWrites(swept, i);
    end := swept.(ops := swept.ops - {i},
      redis := swept.redis[s := Entry(d, swept.now + SESSION_TTL)],
      refreshed := swept.refreshed[s := swept.now]);
    Goes(st, swept, ActivityWrite(i), end);
  }

  lemma ReadsForActivity(st: State, s: SessionId) returns (read: State, i: nat)
    requires s in st.redis
    ensures i in read.ops && read == st.(ops := st.ops[i := ActivityWriting(s, Touch(st.redis[s].data, st.now))])
    ensures Leads(st, read) && Touch(st.redis[s].data, st.now).containerId == st.redis[s].data.containerId
  {
    hide Leads, Apply, Enabled;
    i := FreshCall(st.ops);
    Stays(st);
    ActivityReads(st, i, s);
    read := Begin(st, i, ActivityWriting(s, Touch(st.redis[s].data, st.now)));
    Goes(st, st, ActivityRead(i, s), read);
  }

  // ---- A session that is not blocked can get a container ----

  lemma SettledFree(st: State, s: SessionId)
    requires Safe(st) && Nameless(st, s)
    requires s !in st.worker.names || Reapable(st.worker, s) || Adoptable(st.worker, s)
    ensures s !in Rested(st).worker.names || Reapable(Rested(st).worker, s)
  {
    hide Ownership, GoodClean;
    StartingIsVacant(st.worker, st.ledger.owners);
    hide GoodFleet;
  }

  lemma NamelessCanName(st: State, s: SessionId) returns (end: State)
    requires Sound(st) && Nameless(st, s) && s in st.redis
    requires s !in st.worker.names || Reapable(st.worker, s) || Adoptable(st.worker, s)
    ensures Leads(st, end) && s in end.redis && end.redis[s].data.containerId.Some?
  {
    hide Leads, Sound, Nameless, Settled, Touch;
    TimeOf(st, s);
    NoneNamed(st, s);
    SettledFreeOf(st, s);
    var rest := ComesToRest(st, s);
    if s !in rest.worker.containerMap {
      end := CanProvide(rest, s);
      Joins(st, rest, end);
    } else {
      var read, i := ReadsForActivity(rest, s);
      var d := Touch(rest.redis[s].data, rest.now);
      var forgotten := CanForget(read, i, s, d, s in rest.worker.names);
      end := CanProvide(forgotten, s);
      Joins(st, rest, read);
      Joins(st, read, forgotten);
      Joins(st, forgotten, end);
    }
  }

  lemma TimeOf(st: State, s: SessionId)
    requires Sound(st) && s in st.redis
    ensures s in st.ledger.creators && Ttl(st, s) > 0
  {
    hide Safe;
    TimeIsLeft(st, s);
  }

  lemma NoneNamed(st: State, s: SessionId)
    requires Nameless(st, s) && s in st.redis
    ensures st.redis[s].data.containerId.None?
  {}

  lemma SettledFreeOf(st: State, s: SessionId)
    requires Sound(st) && Nameless(st, s)
    requires s !in st.worker.names || Reapable(st.worker, s) || Adoptable(st.worker, s)
    ensures s !in Rested(st).worker.names || Reapable(Rested(st).worker, s)
  {
    hide Safe;
    SettledFree(st, s);
  }

  lemma CopyGetsWritten(st: State, i: nat, s: SessionId) returns (end: State)
    requires i in st.ops && CopyNames(st.ops[i], s) && s in st.redis && Ttl(st, s) > 0
    ensures Leads(st, end) && s in end.redis && end.redis[s].data.containerId.Some?
  {
    hide Leads, Apply, Enabled;
    Stays(st);
    match st.ops[i]
    case ActivityWriting(_, d) =>
      ActivityWrites(st, i);
      end := st.(ops := st.ops - {i},
        redis := st.redis[s := Entry(d, st.now + SESSION_TTL)], refreshed := st.refreshed[s := st.now]);
      Goes(st, st, ActivityWrite(i), end);
    case UploadReadingTtl(_, d) =>
      UploadTimes(st, i);
      var timed := Begin(st, i, UploadWriting(s, d, Ttl(st, s)));
      Goes(st, st, UploadTtl(i), timed);
      UploadWrites(timed, i);
      end := timed.(ops := timed.ops - {i}, redis := timed.redis[s := Entry(d, timed.now + Ttl(st, s))]);
      Goes(st, timed, UploadWrite(i), end);
    case UploadWriting(_, d, ttl) =>
      UploadWrites(st, i);
      end := st.(ops := st.ops - {i}, redis := st.redis[s := Entry(d, st.now + ttl)]);
      Goes(st, st, UploadWrite(i), end);
  }

  lemma ScanCopyGetsWritten(st: State, s: SessionId) returns (end: State)
    requires st.worker.scan.ScanTtl? || st.worker.scan.ScanWrite?
    requires st.worker.scan.s == s && st.worker.scan.data.containerId.Some? && s in st.redis && Ttl(st, s) > 0
    ensures Leads(st, end) && s in end.redis && end.redis[s].data.containerId.Some?
  {
    hide Leads, Apply, Enabled;
    Stays(st);
    var d, rest := st.worker.scan.data, st.worker.scan.rest;
    var timed := st;
    if st.worker.scan.ScanTtl? {
      StartTimes(st);
      timed := WithScan(st, ScanWrite(s, d, Ttl(st, s), rest));
      Goes(st, st, ScanReadTtl, timed);
    }
    StartStores(timed);
    end := WithScan(timed, ScanAt(rest)).(redis := timed.redis[s := Entry(d, timed.now + timed.worker.scan.ttl)]);
    Goes(st, timed, ScanStore, end);
  }

  lemma CanName(st: State, s: SessionId) returns (end: State)
    requires Sound(st) && s in st.redis && !Blocked(st, s)
    ensures Leads(st, end) && s in end.redis && end.redis[s].data.containerId.Some?
  {
    TimeOf(st, s);
    hide Leads, Sound;
    if st.redis[s].data.containerId.Some? {
      Stays(st);
      end := st;
    } else if i :| i in st.ops && CopyNames(st.ops[i], s) {
      end := CopyGetsWritten(st, i, s);
    } else if ScanNamesNone(st.worker.scan, s) {
      end := NamelessCanName(st, s);
    } else if st.worker.scan.ScanTtl? || st.worker.scan.ScanWrite? {
      end := ScanCopyGetsWritten(st, s);
    } else {
      end := StartFinishes(st);
    }
  }

  // ---- A session whose record names a container can be left with a dead one ----

  /** The container named runs, so it exists under its session's name. */
  lemma NamedExists(st: State, s: SessionId, c: ContainerId)
    requires Sound(st) && s in st.redis && st.redis[s].data.containerId == Some(c) && c in st.worker.running
    ensures Exists(st.worker, s, c)
  {
    hide GoodOps, GoodClients, GoodScan, GoodMap, Containers;
    assert GoodEntry(st.ledger, st.now, s, st.redis[s]);
  }

  lemma RecordedCanDie(st: State, s: SessionId, c: ContainerId) returns (end: State)
    requires st.worker.clean.CleanIdle? && s in st.worker.containerMap && st.worker.containerMap[s] == c
    requires s in st.redis && st.redis[s].data.containerId == Some(c) && Ttl(st, s) > 0 && Exists(st.worker, s, c)
    ensures Leads(st, end) && s in end.redis && end.redis[s].data.containerId == Some(c) && c !in end.worker.running
  {
    hide Leads, Touch;
    var read, i := ReadsForActivity(st, s);
    var late, dead := ActivityRevivesSession(read, i, s, c, Touch(st.redis[s].data, st.now));
    end := dead;
    Joins(st, read, late);
    Joins(st, late, end);
  }

  lemma UnrecordedCanDie(st: State, s: SessionId, c: ContainerId) returns (end: State)
    requires st.worker.scan == ScanIdle && st.worker.clean.CleanIdle? && s !in st.worker.containerMap
    requires s in st.redis && st.redis[s].data.containerId == Some(c) && Ttl(st, s) > 0 && Exists(st.worker, s, c)
    ensures Leads(st, end) && s in end.redis && end.redis[s].data.containerId == Some(c) && c !in end.worker.running
  {
    hide Leads;
    var adopted := CanAdopt(st, s, c);
    end := RecordedCanDie(adopted, s, c);
    Joins(st, adopted, end);
  }

  /** Where the worker has another container recorded, it is swept out first. */
  lemma RestedCanDie(st: State, s: SessionId, c: ContainerId) returns (end: State)
    requires st.worker.scan == ScanIdle && st.worker.clean.CleanIdle?
    requires s in st.redis && st.redis[s].data.containerId == Some(c) && Ttl(st, s) > 0 && Exists(st.worker, s, c)
    ensures Leads(st, end) && s in end.redis && end.redis[s].data.containerId == Some(c) && c !in end.worker.running
  {
    hide Leads, Touch;
    if s !in st.worker.containerMap {
      end := UnrecordedCanDie(st, s, c);
    } else if st.worker.containerMap[s] == c {
      end := RecordedCanDie(st, s, c);
    } else {
      var read, i := ReadsForActivity(st, s);
      var forgotten := CanForget(read, i, s, Touch(st.redis[s].data, st.now), false);
      end := UnrecordedCanDie(forgotten, s, c);
      Joins(st, read, forgotten);
      Joins(st, forgotten, end);
    }
  }

  lemma CanDie(st: State, s: SessionId) returns (end: State)
    requires Sound(st) && s in st.redis && st.redis[s].data.containerId.Some?
    ensures Leads(st, end) && NamesDead(end, s)
  {
    hide Leads, Sound;
    var c := st.redis[s].data.containerId.value;
    TimeOf(st, s);
    var rest := ComesToRest(st, s);
    LeadsKeepsSound(st, rest);
    if c in rest.worker.running {
      NamedExists(rest, s, c);
      end := RestedCanDie(rest, s, c);
      Joins(st, rest, end);
    } else {
      end := rest;
    }
  }

  // ---- The condition ----

  predicate NamesSome(st: State, s: SessionId) { s in st.redis && st.redis[s].data.containerId.Some? }

  /** The record of `s` names a container that does not run. */
  predicate NamesDead(st: State, s: SessionId) {
    NamesSome(st, s) && st.redis[s].data.containerId.value !in st.worker.running
  }

  ghost predicate MayName(st: State, s: SessionId) { exists end :: Leads(st, end) && NamesSome(end, s) }

  ghost predicate MayDie(st: State, s: SessionId) { exists end :: Leads(st, end) && NamesDead(end, s) }

  lemma NamingCanDie(st: State, s: SessionId)
    requires Sound(st)
    ensures MayDie(st, s) <==> MayName(st, s)
  {
    hide Leads, Sound;
    if MayName(st, s) {
      var mid :| Leads(st, mid) && NamesSome(mid, s);
      LeadsKeepsSound(st, mid);
      var end := CanDie(mid, s);
      Joins(st, mid, end);
    }
    if MayDie(st, s) {
      var end :| Leads(st, end) && NamesDead(end, s);
      assert NamesSome(end, s);
    }
  }

  /** The `setex` that brings a key back leaves the session no more blocked than it was. */
  lemma ReturnsUnblocked(st: State, s: SessionId) returns (next: State)
    requires s !in st.redis && Storing(st, s) && !Blocked(st, s)
    ensures Leads(st, next) && s in next.redis && !Blocked(next, s)
  {
    hide Leads, Apply, Enabled;
    Stays(st);
    if st.worker.scan.ScanWrite? && st.worker.scan.s == s {
      var ScanWrite(_, d, ttl, rest) := st.worker.scan;
      StartStores(st);
      next := WithScan(st, ScanAt(rest)).(redis := st.redis[s := Entry(d, st.now + ttl)]);
      Goes(st, st, ScanStore, next);
    } else {
      var i :| i in st.ops && AboutToStore(st.ops[i], s);
      if st.ops[i].ActivityWriting? {
        ActivityWrites(st, i);
        next := st.(ops := st.ops - {i},
          redis := st.redis[s := Entry(st.ops[i].data, st.now + SESSION_TTL)],
          refreshed := st.refreshed[s := st.now]);
        Goes(st, st, ActivityWrite(i), next);
      } else {
        UploadWrites(st, i);
        next := st.(ops := st.ops - {i}, redis := st.redis[s := Entry(st.ops[i].data, st.now + st.ops[i].ttl)]);
        Goes(st, st, UploadWrite(i), next);
      }
      StoredFromCall(st, next, i, s);
    }
  }

  lemma StoredFromCall(st: State, next: State, i: nat, s: SessionId)
    requires i in st.ops && AboutToStore(st.ops[i], s) && s !in st.redis
    requires next.ops == st.ops - {i} && next.worker == st.worker
    requires s in next.redis && next.redis[s].data == st.ops[i].data
    ensures Blocked(next, s) ==> Blocked(st, s)
  {
    assert forall j :: j in st.ops && j != i ==> j in next.ops && next.ops[j] == st.ops[j];
  }

  /**
   From a sound state, some run lets a session's record name a container, and some run leaves it naming one that does
   not run, exactly when its key is there or about to come back, and its name is not taken for good.
   */
  lemma DeadContainerIsPossibleIff(st: State, s: SessionId)
    requires Sound(st) && s in st.ledger.creators
    ensures MayDie(st, s) <==> (s in st.redis || Storing(st, s)) && !Blocked(st, s)
    ensures MayName(st, s) <==> (s in st.redis || Storing(st, s)) && !Blocked(st, s)
  {
    hide Leads, Sound, Storing, Blocked;
    NamingCanDie(st, s);
    if Blocked(st, s) {
      BlockedNamesNone(st, s);
    } else if s in st.redis {
      var end := CanName(st, s);
      assert NamesSome(end, s);
    } else if Storing(st, s) {
      var next := ReturnsUnblocked(st, s);
      LeadsKeepsSound(st, next);
      var end := CanName(next, s);
      Joins(st, next, end);
      assert NamesSome(end, s);
    } else {
      GoneComesBackIff(st, s);
      assert forall end :: Leads(st, end) && NamesSome(end, s) ==> s in end.redis;
    }
  }

  lemma BlockedNamesNone(st: State, s: SessionId)
    requires Sound(st) && Blocked(st, s)
    ensures !MayName(st, s)
  {
    if MayName(st, s) {
      var end :| Leads(st, end) && NamesSome(end, s);
      var steps :| Runs(st, steps, end);
      hide Sound, Runs;
      BlockedForever(st, steps, end, s);
    }
  }
}
