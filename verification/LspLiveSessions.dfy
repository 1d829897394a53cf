/**
 When a session's key stays gone, and when a live key names a live container. Both depend on one thing only: a
 `setex` of that session that finds its key missing puts it back. What happens to other sessions does not matter,
 and with indivisible updates no `setex` misses.
 */
module LspLiveSessions {
  import opened LspSessions
  import opened LspSessionSafety
  import opened LspRuns

  // ---- When a key can come back ----

  /** Issued, and its key is not there. */
  predicate Gone(st: State, s: SessionId) { s in st.ledger.creators && s !in st.redis }

  predicate AboutToStore(op: Op, s: SessionId) { (op.ActivityWriting? || op.UploadWriting?) && op.s == s }

  /** Some `setex` of `s` is the next thing a suspended call, or the scan, will do. */
  ghost predicate Storing(st: State, s: SessionId) {
    (exists i :: i in st.ops && AboutToStore(st.ops[i], s)) || (st.worker.scan.ScanWrite? && st.worker.scan.s == s)
  }

  ghost predicate MayReturn(st: State, s: SessionId) { exists end :: Leads(st, end) && s in end.redis }

  lemma StoringReturns(st: State, s: SessionId)
    requires Storing(st, s)
    ensures MayReturn(st, s)
  {
    hide Leads;
    Stays(st);
    if st.worker.scan.ScanWrite? && st.worker.scan.s == s {
      StartStores(st);
      ReturnsBy(st, ScanStore, s);
    } else {
      var i :| i in st.ops && AboutToStore(st.ops[i], s);
      if st.ops[i].ActivityWriting? {
        ActivityWrites(st, i);
        ReturnsBy(st, ActivityWrite(i), s);
      } else {
        UploadWrites(st, i);
        ReturnsBy(st, UploadWrite(i), s);
      }
    }
  }

  lemma ReturnsBy(st: State, step: Step, s: SessionId)
    requires Enabled(st, step) && s in Apply(st, step).redis
    ensures MayReturn(st, s)
  {
    Stays(st);
    Goes(st, st, step, Apply(st, step));
  }

  ghost predicate GoneQuietly(st: State, s: SessionId) { Gone(st, s) && !Storing(st, s) }

  lemma SplitKeepsQuiet(st: State, step: Step, s: SessionId)
    requires GoneQuietly(st, s) && Enabled(st, step)
    ensures GoneQuietly(ApplySplit(st, step), s)
  {
    var t := ApplySplit(st, step);
    assert forall i :: i in st.ops ==> !AboutToStore(st.ops[i], s);
    assert forall i :: i in t.ops && !(i in st.ops && t.ops[i] == st.ops[i]) ==> !AboutToStore(t.ops[i], s);
  }

  lemma GatewayKeepsQuiet(st: State, step: Step, s: SessionId)
    requires GoneQuietly(st, s) && Enabled(st, step)
    ensures GoneQuietly(ApplyGateway(st, step), s)
  {
    var t := ApplyGateway(st, step);
    assert forall i :: i in st.ops ==> !AboutToStore(st.ops[i], s);
    assert forall i :: i in t.ops && !(i in st.ops && t.ops[i] == st.ops[i]) ==> !AboutToStore(t.ops[i], s);
  }

  lemma WorkerKeepsQuiet(st: State, step: Step, s: SessionId)
    requires GoneQuietly(st, s) && Enabled(st, step)
    ensures GoneQuietly(ApplyScan(st, step), s) && GoneQuietly(ApplyStart(st, step), s)
  {
    hide ContainerNameOf, RootOf, Attach;
  }

  lemma AtomicKeepsQuiet(st: State, step: Step, s: SessionId)
    requires GoneQuietly(st, s) && Enabled(st, step)
    ensures GoneQuietly(ApplyAtomic(st, step), s)
  {
    hide ContainerNameOf, RootOf, Attach, Touch, Upload;
  }

  lemma CreationKeepsQuiet(st: State, r: SessionId, user: User, s: SessionId)
    requires GoneQuietly(st, s) && r !in st.ledger.creators
    ensures GoneQuietly(Create(st, r, user), s)
  {}

  lemma TickKeepsQuiet(st: State, n: nat, s: SessionId)
    requires GoneQuietly(st, s)
    ensures GoneQuietly(st.(now := st.now + n, redis := Live(st.redis, st.now + n)), s)
  {}

  lemma QuietKept(st: State, step: Step, s: SessionId)
    requires GoneQuietly(st, s) && Enabled(st, step)
    ensures GoneQuietly(Apply(st, step), s)
  {
    hide GoneQuietly, Enabled, FamilyOf, Create, Live;
    hide ApplySplit, ApplyAtomic, ApplyGateway, ApplyScan, ApplyStart, ApplyClean;
    match FamilyOf(step)
    case ClockStep => TickKeepsQuiet(st, step.seconds, s);
    case Creation =>
      CreatesFresh(st, step);
      CreationKeepsQuiet(st, step.s, step.user, s);
    case SplitCall => SplitKeepsQuiet(st, step, s);
    case AtomicCall => AtomicKeepsQuiet(st, step, s);
    case GatewayCall => GatewayKeepsQuiet(st, step, s);
    case ScanStep => WorkerKeepsQuiet(st, step, s);
    case StartStep => WorkerKeepsQuiet(st, step, s);
    case SweepStep => SameKeysSameQuiet(st, ApplyClean(st, step), s);
  }

  lemma SameKeysSameQuiet(st: State, t: State, s: SessionId)
    requires GoneQuietly(st, s) && t.redis == st.redis && t.ops == st.ops && t.ledger == st.ledger
    requires t.worker.scan == st.worker.scan
    ensures GoneQuietly(t, s)
  {}

  lemma {:induction false} QuietAlways(st: State, steps: seq<Step>, end: State, s: SessionId)
    requires GoneQuietly(st, s) && Runs(st, steps, end)
    ensures GoneQuietly(end, s)
    decreases |steps|
  {
    hide GoneQuietly, Apply, Enabled;
    if steps != [] {
      QuietKept(st, steps[0], s);
      QuietAlways(Apply(st, steps[0]), steps[1..], end, s);
    }
  }

  /** A key that is gone comes back in some run exactly when a `setex` of it is under way now. */
  lemma GoneComesBackIff(st: State, s: SessionId)
    requires Gone(st, s)
    ensures MayReturn(st, s) <==> Storing(st, s)
  {
    hide Storing, Runs;
    if Storing(st, s) {
      StoringReturns(st, s);
    } else if MayReturn(st, s) {
      var end :| Leads(st, end) && s in end.redis;
      var steps :| Runs(st, steps, end);
      QuietAlways(st, steps, end, s);
    }
  }

  // ---- Runs in which every `setex` of a session finds its key ----

  /** If the step is a `setex` of `s` that ends a split update, the key of `s` is there. */
  predicate Lands(st: State, step: Step, s: SessionId) {
    match step
    case ActivityWrite(i) => i in st.ops && AboutToStore(st.ops[i], s) ==> s in st.redis
    case UploadWrite(i) => i in st.ops && AboutToStore(st.ops[i], s) ==> s in st.redis
    case ScanStore => st.worker.scan.ScanWrite? && st.worker.scan.s == s ==> s in st.redis
    case _ => true
  }

  predicate AllLand(st: State, steps: seq<Step>, s: SessionId)
    decreases |steps|
  {
    steps != [] && Enabled(st, steps[0]) ==> Lands(st, steps[0], s) && AllLand(Apply(st, steps[0]), steps[1..], s)
  }

  lemma {:induction false} IndivisibleRunsLand(st: State, steps: seq<Step>, s: SessionId)
    requires AllAtomic(steps)
    ensures AllLand(st, steps, s)
    decreases |steps|
  {
    hide Apply, Enabled;
    if steps != [] && Enabled(st, steps[0]) {
      assert IsAtomic(steps[0]);
      assert AllAtomic(steps[1..]);
      IndivisibleRunsLand(Apply(st, steps[0]), steps[1..], s);
    }
  }

  /** The worker has the container that this copy of `s` names, if it names one. */
  predicate Named(w: Worker, s: SessionId, d: SessionData) {
    d.containerId.Some? ==> s in w.containerMap && w.containerMap[s] == d.containerId.value
  }

  predicate LiveKey(st: State, s: SessionId) {
    s in st.redis ==>
      Named(st.worker, s, st.redis[s].data)
      && (s in st.worker.containerMap ==> st.worker.containerMap[s] in st.worker.running)
  }

  predicate NamedCopy(w: Worker, op: Op, s: SessionId) {
    CopyIn(op).Some? && CopyIn(op).value.0 == s ==> Named(w, s, CopyIn(op).value.1)
  }

  predicate LiveCopies(st: State, s: SessionId) {
    s in st.redis ==> forall i :: i in st.ops ==> NamedCopy(st.worker, st.ops[i], s)
  }

  predicate LiveSweep(st: State, s: SessionId) {
    s in st.redis ==> s !in Expired(st.worker.clean) && !(st.worker.clean.CleanStop? && st.worker.clean.s == s)
  }

  predicate LiveScan(st: State, s: SessionId) {
    match st.worker.scan
    case ScanGot(r, d, _) => r == s ==> d.containerId.None?
    case ScanStarted(r, c, _) => r == s ==> c in st.worker.running
    case ScanReget(r, c, _) =>
      r == s && s in st.redis ==> s in st.worker.containerMap && st.worker.containerMap[s] == c
    case ScanTtl(r, d, _) => r == s && s in st.redis ==> Named(st.worker, s, d)
    case ScanWrite(r, d, _, _) => r == s && s in st.redis ==> Named(st.worker, s, d)
    case _ => true
  }

  predicate Alive(st: State, s: SessionId) {
    LiveKey(st, s) && LiveCopies(st, s) && LiveSweep(st, s) && LiveScan(st, s)
  }

  lemma TickKeepsAlive(st: State, n: nat, s: SessionId)
    requires Alive(st, s)
    ensures Alive(st.(now := st.now + n, redis := Live(st.redis, st.now + n)), s)
  {
    hide Named, NamedCopy;
  }

  lemma CreationKeepsAlive(st: State, r: SessionId, user: User, s: SessionId)
    requires Safe(st) && Alive(st, s) && r !in st.ledger.creators
    ensures Alive(Create(st, r, user), s)
  {
    NewIsNowhere(st, r);
    hide Safe;
  }

  /** An id never issued is neither recorded, nor copied, nor under way. */
  lemma NewIsNowhere(st: State, s: SessionId)
    requires Safe(st) && s !in st.ledger.creators
    ensures s !in st.worker.containerMap && s !in Expired(st.worker.clean) && s !in st.redis
    ensures st.worker.clean.CleanStop? ==> st.worker.clean.s != s
    ensures forall i :: i in st.ops && CopyIn(st.ops[i]).Some? ==> CopyIn(st.ops[i]).value.0 != s
    ensures var scan := st.worker.scan;
            scan.ScanReget? || scan.ScanTtl? || scan.ScanWrite? ==> scan.s != s
  {
    hide GoodClients, GoodFleet, Known;
    assert s in st.worker.containerMap ==> Made(st.ledger, s, st.worker.containerMap[s]);
    assert s in st.redis ==> GoodEntry(st.ledger, st.now, s, st.redis[s]);
    forall i | i in st.ops && CopyIn(st.ops[i]).Some? ensures CopyIn(st.ops[i]).value.0 != s {
      assert GoodOp(st.ledger, st.ops[i]);
    }
  }

  lemma ReadKeepsAlive(st: State, step: Step, s: SessionId)
    requires Alive(st, s) && Enabled(st, step) && (step.RenewRead? || step.ActivityRead? || step.UploadRead?)
    ensures Alive(ApplySplit(st, step), s)
  {
    hide LiveSweep, LiveScan;
    var t := ApplySplit(st, step);
    SameWorkerSameLife(st, t, s);
    assert s in st.redis ==> forall i :: i in st.ops ==> NamedCopy(st.worker, st.ops[i], s);
    assert s in st.redis ==>
             forall i :: i in t.ops && !(i in st.ops && t.ops[i] == st.ops[i]) ==> NamedCopy(t.worker, t.ops[i], s);
  }

  lemma SameWorkerSameLife(st: State, t: State, s: SessionId)
    requires LiveSweep(st, s) && LiveScan(st, s)
    requires t.worker == st.worker && (s in t.redis ==> s in st.redis)
    ensures LiveSweep(t, s) && LiveScan(t, s)
  {}

  lemma WriteKeepsAlive(st: State, step: Step, s: SessionId)
    requires Alive(st, s) && Enabled(st, step) && Lands(st, step, s)
    requires !(step.RenewRead? || step.ActivityRead? || step.UploadRead?)
    ensures Alive(ApplySplit(st, step), s)
  {
    hide LiveSweep, LiveScan, Named;
    var t := ApplySplit(st, step);
    assert s in t.redis ==> s in st.redis;
    SameWorkerSameLife(st, t, s);
    assert s in st.redis ==> forall i :: i in st.ops ==> NamedCopy(st.worker, st.ops[i], s);
    assert s in st.redis ==>
             forall i :: i in t.ops && !(i in st.ops && t.ops[i] == st.ops[i]) ==> NamedCopy(t.worker, t.ops[i], s);
  }

  lemma SplitKeepsAlive(st: State, step: Step, s: SessionId)
    requires Alive(st, s) && Enabled(st, step) && Lands(st, step, s)
    ensures Alive(ApplySplit(st, step), s)
  {
    hide Alive, Lands, ApplySplit;
    if step.RenewRead? || step.ActivityRead? || step.UploadRead? {
      ReadKeepsAlive(st, step, s);
    } else {
      WriteKeepsAlive(st, step, s);
    }
  }

  lemma AtomicKeepsAlive(st: State, step: Step, s: SessionId)
    requires Alive(st, s) && Enabled(st, step)
    ensures Alive(ApplyAtomic(st, step), s)
  {
    hide NamedCopy, ContainerNameOf, RootOf;
    var t := ApplyAtomic(st, step);
    assert t.worker.containerMap == st.worker.containerMap;
    assert s in t.redis ==> s in st.redis;
    assert LiveCopies(t, s) by { CopiesFollowMap(st, t, s); }
  }

  lemma CopiesFollowMap(st: State, t: State, s: SessionId)
    requires LiveCopies(st, s) && t.ops == st.ops && (s in t.redis ==> s in st.redis)
    requires s in t.redis && s in st.worker.containerMap ==>
               s in t.worker.containerMap && t.worker.containerMap[s] == st.worker.containerMap[s]
    ensures LiveCopies(t, s)
  {
    if s in t.redis {
      forall i | i in t.ops ensures NamedCopy(t.worker, t.ops[i], s) {
        assert NamedCopy(st.worker, st.ops[i], s);
      }
    }
  }

  lemma GatewayKeepsAlive(st: State, step: Step, s: SessionId)
    requires Alive(st, s) && Enabled(st, step)
    ensures Alive(ApplyGateway(st, step), s)
  {
    hide LiveSweep, LiveScan, Named;
    var t := ApplyGateway(st, step);
    SameWorkerSameLife(st, t, s);
    assert s in st.redis ==> forall i :: i in st.ops ==> NamedCopy(st.worker, st.ops[i], s);
    assert forall i :: i in t.ops && !(i in st.ops && t.ops[i] == st.ops[i]) ==> NamedCopy(t.worker, t.ops[i], s);
  }

  /** The scan never finds a container named in a live session it does not have recorded: it never adopts one. */
  lemma ScanKeepsAlive(st: State, step: Step, s: SessionId)
    requires Safe(st) && Alive(st, s) && Enabled(st, step)
    ensures Alive(ApplyScan(st, step), s)
  {
    hide Ownership, GoodClean, LiveCopies;
    var t := ApplyScan(st, step);
    StartingIsVacant(st.worker, st.ledger.owners);
    hide GoodFleet;
    assert s in t.redis && s in st.worker.containerMap ==>
             s in t.worker.containerMap && t.worker.containerMap[s] == st.worker.containerMap[s];
    CopiesFollowMap(st, t, s);
  }

  lemma StartKeepsAlive(st: State, step: Step, s: SessionId)
    requires Safe(st) && Alive(st, s) && Enabled(st, step) && Lands(st, step, s)
    ensures Alive(ApplyStart(st, step), s)
  {
    hide Ownership, GoodClean, LiveCopies, ContainerNameOf, RootOf, Ttl;
    var t := ApplyStart(st, step);
    StartingIsVacant(st.worker, st.ledger.owners);
    hide GoodFleet;
    assert s in t.redis ==> s in st.redis;
    assert s in t.redis && s in st.worker.containerMap ==>
             s in t.worker.containerMap && t.worker.containerMap[s] == st.worker.containerMap[s];
    CopiesFollowMap(st, t, s);
  }

  lemma CleanKeepsAlive(st: State, step: Step, s: SessionId)
    requires Safe(st) && Alive(st, s) && Enabled(st, step)
    ensures Alive(ApplyClean(st, step), s)
  {
    hide LiveCopies, Ownership, Containers;
    var t := ApplyClean(st, step);
    if step.CleanStopped? {
      AnotherIsStopped(st, s);
    }
    assert LiveKey(t, s) && LiveSweep(t, s) && LiveScan(t, s);
    CopiesFollowMap(st, t, s);
  }

  /** Stopping the container of another session is not stopping the one recorded for `s`, or just started for it. */
  lemma AnotherIsStopped(st: State, s: SessionId)
    requires Safe(st) && st.worker.clean.CleanStop?
    ensures st.worker.clean.s != s && s in st.worker.containerMap ==> st.worker.containerMap[s] != st.worker.clean.c
    ensures st.worker.scan.ScanStarted? && st.worker.scan.s == s ==> st.worker.scan.c != st.worker.clean.c
  {
    hide GoodRedis, GoodOps, GoodClients, Known, GoodFleet;
    StartingIsVacant(st.worker, st.ledger.owners);
    assert Made(st.ledger, st.worker.clean.s, st.worker.clean.c);
    assert s in st.worker.containerMap ==> Made(st.ledger, s, st.worker.containerMap[s]);
  }

  lemma AliveKept(st: State, step: Step, s: SessionId)
    requires Safe(st) && Alive(st, s) && Enabled(st, step) && Lands(st, step, s)
    ensures Alive(Apply(st, step), s)
  {
    hide Safe, Alive, Lands, Enabled, FamilyOf, Create, Live;
    hide ApplySplit, ApplyAtomic, ApplyGateway, ApplyScan, ApplyStart, ApplyClean;
    match FamilyOf(step)
    case ClockStep => TickKeepsAlive(st, step.seconds, s);
    case Creation =>
      CreatesFresh(st, step);
      CreationKeepsAlive(st, step.s, step.user, s);
    case SplitCall => SplitKeepsAlive(st, step, s);
    case AtomicCall => AtomicKeepsAlive(st, step, s);
    case GatewayCall => GatewayKeepsAlive(st, step, s);
    case ScanStep => ScanKeepsAlive(st, step, s);
    case StartStep => StartKeepsAlive(st, step, s);
    case SweepStep => CleanKeepsAlive(st, step, s);
  }

  lemma {:induction false} AliveAlways(st: State, steps: seq<Step>, end: State, s: SessionId)
    requires Safe(st) && Alive(st, s) && Runs(st, steps, end) && AllLand(st, steps, s)
    ensures Safe(end) && Alive(end, s)
    decreases |steps|
  {
    hide Safe, Alive, Apply, Enabled, Lands;
    if steps != [] {
      SafeKept(st, steps[0]);
      AliveKept(st, steps[0], s);
      AliveAlways(Apply(st, steps[0]), steps[1..], end, s);
    }
  }

  lemma InitialIsAlive(s: SessionId)
    ensures Safe(INITIAL) && Alive(INITIAL, s)
  {}

  /** A key that names a container names one that is running, and the worker has it recorded. */
  lemma LiveSessionHasLiveContainer(steps: seq<Step>, st: State, s: SessionId)
    requires Reachable(steps, st) && AllLand(INITIAL, steps, s)
    requires s in st.redis && st.redis[s].data.containerId.Some?
    ensures var c := st.redis[s].data.containerId.value;
            c in st.worker.running && s in st.worker.containerMap && st.worker.containerMap[s] == c
  {
    hide Runs, AllLand;
    InitialIsAlive(s);
    AliveAlways(INITIAL, steps, st, s);
  }

  lemma IndivisibleSessionHasLiveContainer(steps: seq<Step>, st: State, s: SessionId)
    requires Reachable(steps, st) && AllAtomic(steps)
    requires s in st.redis && st.redis[s].data.containerId.Some?
    ensures var c := st.redis[s].data.containerId.value;
            c in st.worker.running && s in st.worker.containerMap && st.worker.containerMap[s] == c
  {
    IndivisibleRunsLand(INITIAL, steps, s);
    LiveSessionHasLiveContainer(steps, st, s);
  }

  // ---- Keys that stay gone ----

  /** A step brings back a key that is gone if and only if it is a `setex` of it that does not land. */
  lemma GoneKeptIff(st: State, step: Step, s: SessionId)
    requires Gone(st, s) && Enabled(st, step)
    ensures Gone(Apply(st, step), s) <==> Lands(st, step, s)
  {
    OnlyStoresMiss(st, step, s);
    hide Lands, Enabled, FamilyOf, Create, Live;
    hide ApplySplit, ApplyAtomic, ApplyGateway, ApplyScan, ApplyStart, ApplyClean;
    match FamilyOf(step)
    case ClockStep => LiveIsLess(st.redis, st.now + step.seconds, s);
    case Creation =>
      CreatesFresh(st, step);
      CreationKeepsGone(st, step.s, step.user, s);
    case SplitCall => SplitKeepsGoneIff(st, step, s);
    case AtomicCall => AtomicKeepsGone(st, step, s);
    case GatewayCall =>
    case ScanStep =>
    case StartStep => StartKeepsGoneIff(st, step, s);
    case SweepStep =>
  }

  lemma OnlyStoresMiss(st: State, step: Step, s: SessionId)
    ensures !Lands(st, step, s) ==> FamilyOf(step).SplitCall? || FamilyOf(step).StartStep?
  {}

  lemma LiveIsLess(redis: map<SessionId, Entry>, now: int, s: SessionId)
    requires s !in redis
    ensures s !in Live(redis, now)
  {}

  lemma CreationKeepsGone(st: State, r: SessionId, user: User, s: SessionId)
    requires Gone(st, s) && r !in st.ledger.creators
    ensures Gone(Create(st, r, user), s)
  {}

  lemma SplitKeepsGoneIff(st: State, step: Step, s: SessionId)
    requires Enabled(st, step) && s !in st.redis && FamilyOf(step).SplitCall?
    ensures s !in ApplySplit(st, step).redis <==> Lands(st, step, s)
  {
    hide Touch, Upload;
  }

  lemma StartKeepsGoneIff(st: State, step: Step, s: SessionId)
    requires Enabled(st, step) && Gone(st, s) && FamilyOf(step).StartStep?
    ensures Gone(ApplyStart(st, step), s) <==> Lands(st, step, s)
  {
    hide ContainerNameOf, RootOf, Attach, Ttl;
  }

  lemma AtomicKeepsGone(st: State, step: Step, s: SessionId)
    requires Enabled(st, step) && s !in st.redis
    ensures s !in ApplyAtomic(st, step).redis
  {
    hide ContainerNameOf, RootOf, Attach, Touch, Upload;
  }

  /** Along the run there is no moment at which the key of `s` is there. */
  predicate GoneThroughout(st: State, steps: seq<Step>, s: SessionId)
    decreases |steps|
  {
    Gone(st, s) && (steps != [] && Enabled(st, steps[0]) ==> GoneThroughout(Apply(st, steps[0]), steps[1..], s))
  }

  /** An id whose key is gone has no key again at any moment of a run exactly when no `setex` of it misses its key. */
  lemma {:induction false} GoneForeverIff(st: State, steps: seq<Step>, end: State, s: SessionId)
    requires Runs(st, steps, end) && Gone(st, s)
    ensures GoneThroughout(st, steps, s) <==> AllLand(st, steps, s)
    ensures AllLand(st, steps, s) ==> Gone(end, s)
    decreases |steps|
  {
    hide Apply, Enabled, Lands, Gone;
    if steps != [] {
      GoneKeptIff(st, steps[0], s);
      if Lands(st, steps[0], s) {
        GoneForeverIff(Apply(st, steps[0]), steps[1..], end, s);
      }
    }
  }

  lemma IndivisiblyGoneForever(st: State, steps: seq<Step>, end: State, s: SessionId)
    requires Runs(st, steps, end) && AllAtomic(steps) && Gone(st, s)
    ensures Gone(end, s)
  {
    IndivisibleRunsLand(st, steps, s);
    GoneForeverIff(st, steps, end, s);
  }
}
