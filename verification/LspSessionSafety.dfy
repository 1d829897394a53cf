/** What every interleaving keeps, lost updates included: ownership, roots, and the fate of containers. */
module LspSessionSafety {
  import opened Sequences
  import opened LspSessions

  // ---- Ownership ----

  predicate Made(l: Ledger, s: SessionId, c: ContainerId) {
    s in l.creators && c in l.owners && l.owners[c] == s
  }

  /** A copy of session `s`'s record, wherever it is held. */
  predicate GoodCopy(l: Ledger, s: SessionId, d: SessionData) {
    && s in l.creators && d.userId == l.creators[s]
    && d.workspaceRoot == RootOf(s)
    && d.containerName == (if d.containerId.Some? then Some(ContainerNameOf(s)) else None)
    && (d.containerId.Some? ==> Made(l, s, d.containerId.value))
  }

  predicate OwnedBy(l: Ledger, s: SessionId, user: Option<User>) {
    user.Some? ==> s in l.creators && l.creators[s] == user.value
  }

  predicate GoodOp(l: Ledger, op: Op) {
    match op
    case RenewExpiring(s) => s in l.creators
    case ActivityWriting(s, d) => GoodCopy(l, s, d)
    case UploadReadingTtl(s, d) => GoodCopy(l, s, d)
    case UploadWriting(s, d, ttl) => GoodCopy(l, s, d) && ttl > 0
    case ConnectReading(_, s, user) => OwnedBy(l, s, user)
    case ConnectDialling(_, s, user, root) => OwnedBy(l, s, user) && root == RootOf(s)
  }

  predicate GoodEntry(l: Ledger, now: int, s: SessionId, e: Entry) {
    GoodCopy(l, s, e.data) && now < e.expiresAt
  }

  predicate GoodClient(l: Ledger, k: ClientSession) {
    OwnedBy(l, k.s, k.user) && k.workspaceRoot == RootOf(k.s)
  }

  predicate Known(l: Ledger, keys: seq<SessionId>) { forall s :: s in keys ==> s in l.creators }

  predicate GoodScan(l: Ledger, scan: Scan) {
    match scan
    case ScanIdle => true
    case ScanAt(keys) => Known(l, keys)
    case ScanGet(s, rest) => s in l.creators && Known(l, rest)
    case ScanGot(s, d, rest) => GoodCopy(l, s, d) && Known(l, rest)
    case ScanCreate(s, rest) => s in l.creators && Known(l, rest)
    case ScanStart(s, c, rest) => Made(l, s, c) && Known(l, rest)
    case ScanStarted(s, c, rest) => Made(l, s, c) && Known(l, rest)
    case ScanReget(s, c, rest) => Made(l, s, c) && Known(l, rest)
    case ScanTtl(s, d, rest) => GoodCopy(l, s, d) && Known(l, rest)
    case ScanWrite(s, d, ttl, rest) => GoodCopy(l, s, d) && ttl > 0 && Known(l, rest)
  }

  predicate GoodRedis(l: Ledger, now: int, redis: map<SessionId, Entry>) {
    forall s :: s in redis ==> GoodEntry(l, now, s, redis[s])
  }

  predicate GoodOps(l: Ledger, ops: map<nat, Op>) { forall i :: i in ops ==> GoodOp(l, ops[i]) }

  predicate GoodClients(l: Ledger, clients: map<Client, ClientSession>) {
    forall k :: k in clients ==> GoodClient(l, clients[k])
  }

  predicate GoodMap(l: Ledger, m: map<SessionId, ContainerId>) { forall s :: s in m ==> Made(l, s, m[s]) }

  /** Every stored or in-flight copy of a session carries its creator, its own root and only its own containers. */
  predicate Ownership(st: State) {
    && GoodRedis(st.ledger, st.now, st.redis)
    && GoodOps(st.ledger, st.ops)
    && GoodClients(st.ledger, st.clients)
    && GoodMap(st.ledger, st.worker.containerMap)
    && GoodScan(st.ledger, st.worker.scan)
  }

  predicate Grows(l: Ledger, k: Ledger) {
    && (forall s :: s in l.creators ==> s in k.creators && k.creators[s] == l.creators[s])
    && (forall c :: c in l.owners ==> c in k.owners && k.owners[c] == l.owners[c])
  }

  lemma OwnershipUnderGrowth(st: State, k: Ledger)
    requires Ownership(st) && Grows(st.ledger, k)
    ensures Ownership(st.(ledger := k))
  {
    forall s | s in st.redis ensures GoodEntry(k, st.now, s, st.redis[s]) {
      assert GoodEntry(st.ledger, st.now, s, st.redis[s]);
    }
    forall i | i in st.ops ensures GoodOp(k, st.ops[i]) {
      assert GoodOp(st.ledger, st.ops[i]);
    }
    forall i | i in st.clients ensures GoodClient(k, st.clients[i]) {
      assert GoodClient(st.ledger, st.clients[i]);
    }
  }

  lemma SplitKeepsOwnership(st: State, step: Step)
    requires Ownership(st) && Enabled(st, step)
    ensures Ownership(ApplySplit(st, step))
  {}

  lemma AtomicKeepsOwnership(st: State, step: Step)
    requires Ownership(st) && Enabled(st, step)
    ensures Ownership(ApplyAtomic(st, step))
  {
    hide GoodOps, GoodClients, GoodMap, Known, ContainerNameOf, RootOf;
  }

  lemma GatewayKeepsOwnership(st: State, step: Step)
    requires Ownership(st) && Enabled(st, step)
    ensures Ownership(ApplyGateway(st, step))
  {}

  lemma AttachedIsGood(l: Ledger, s: SessionId, c: ContainerId, d: SessionData)
    requires GoodCopy(l, s, d) && Made(l, s, c)
    ensures GoodCopy(l, s, Attach(d, s, c))
  {}

  lemma ListedAreKnown(st: State, keys: seq<SessionId>)
    requires GoodRedis(st.ledger, st.now, st.redis) && (set s | s in keys) == st.redis.Keys
    ensures Known(st.ledger, keys)
  {
    forall s | s in keys ensures s in st.ledger.creators {
      assert s in (set k | k in keys);
      assert GoodEntry(st.ledger, st.now, s, st.redis[s]);
    }
  }

  lemma ScanMovesWithin(st: State, step: Step)
    requires Ownership(st) && Enabled(st, step)
    ensures GoodScan(st.ledger, ApplyScan(st, step).worker.scan)
  {
    hide GoodOps, GoodClients, GoodMap, Known, ContainerNameOf, RootOf;
    match step
    case ScanKeys(keys) =>
      hide GoodRedis, GoodCopy;
      ListedAreKnown(st, keys);
    case ScanNext =>
      hide GoodRedis, GoodCopy;
      RestIsKnown(st.ledger, st.worker.scan.keys);
    case ScanRead => hide GoodCopy;
    case ScanDecide => hide GoodRedis;
    case _ => hide GoodRedis, GoodCopy;
  }

  lemma RestIsKnown(l: Ledger, keys: seq<SessionId>)
    requires Known(l, keys)
    ensures keys != [] ==> keys[0] in l.creators && Known(l, keys[1..])
  {}

  lemma ScanMapsWell(st: State, step: Step)
    requires Ownership(st) && Enabled(st, step)
    ensures GoodMap(st.ledger, ApplyScan(st, step).worker.containerMap)
  {
    hide GoodRedis, GoodOps, GoodClients, Known, ContainerNameOf, RootOf;
  }

  lemma ScanKeepsOwnership(st: State, step: Step)
    requires Ownership(st) && Enabled(st, step)
    ensures Ownership(ApplyScan(st, step))
  {
    ScanMovesWithin(st, step);
    ScanMapsWell(st, step);
    hide GoodRedis, GoodOps, GoodClients, GoodMap, GoodScan, ScanOn, Enabled;
  }

  lemma StartKeepsOwnership(st: State, step: Step)
    requires Ownership(st) && Enabled(st, step)
    ensures Ownership(ApplyStart(st, step))
  {
    hide GoodRedis, GoodOps, GoodClients, GoodMap, Known, GoodCopy, ContainerNameOf, RootOf, Ttl;
    match step
    case ScanMake(c) => MakeKeepsOwnership(st, c);
    case ScanReread => RereadKeepsOwnership(st);
    case ScanStore => StoreKeepsOwnership(st);
    case ScanRecord => RecordKeepsOwnership(st);
    case ScanReadTtl => TtlReadKeepsOwnership(st);
    case _ =>
  }

  lemma MakeKeepsOwnership(st: State, c: ContainerId)
    requires Ownership(st) && Enabled(st, ScanMake(c))
    ensures Ownership(ApplyStart(st, ScanMake(c)))
  {
    hide GoodRedis, GoodOps, GoodClients, GoodMap, Known, ContainerNameOf, RootOf;
    OwnershipUnderGrowth(st, st.ledger.(owners := st.ledger.owners[c := st.worker.scan.s]));
  }

  lemma RereadKeepsOwnership(st: State)
    requires Ownership(st) && st.worker.scan.ScanReget?
    ensures Ownership(ApplyStart(st, ScanReread))
  {
    hide GoodOps, GoodClients, GoodMap, Known, GoodCopy, Attach, ContainerNameOf, RootOf;
    var ScanReget(s, c, rest) := st.worker.scan;
    if s in st.redis {
      assert GoodEntry(st.ledger, st.now, s, st.redis[s]);
      AttachedIsGood(st.ledger, s, c, st.redis[s].data);
    }
  }

  lemma StoreKeepsOwnership(st: State)
    requires Ownership(st) && st.worker.scan.ScanWrite?
    ensures Ownership(ApplyStart(st, ScanStore))
  {
    hide GoodOps, GoodClients, GoodMap, Known, GoodCopy, ContainerNameOf, RootOf;
  }

  lemma RecordKeepsOwnership(st: State)
    requires Ownership(st) && st.worker.scan.ScanStarted?
    ensures Ownership(ApplyStart(st, ScanRecord))
  {
    hide GoodRedis, GoodOps, GoodClients, Known, GoodCopy, ContainerNameOf, RootOf;
  }

  lemma TtlReadKeepsOwnership(st: State)
    requires Ownership(st) && st.worker.scan.ScanTtl?
    ensures Ownership(ApplyStart(st, ScanReadTtl))
  {
    hide GoodRedis, GoodOps, GoodClients, GoodMap, Known, GoodCopy, ContainerNameOf, RootOf;
  }

  lemma CleanKeepsOwnership(st: State, step: Step)
    requires Ownership(st) && Enabled(st, step)
    ensures Ownership(ApplyClean(st, step))
  {}

  lemma OwnershipKept(st: State, step: Step)
    requires Ownership(st) && Enabled(st, step)
    ensures Ownership(Apply(st, step))
  {
    hide ApplySplit, ApplyAtomic, ApplyGateway, ApplyScan, ApplyStart, ApplyClean;
    SplitKeepsOwnership(st, step);
    AtomicKeepsOwnership(st, step);
    GatewayKeepsOwnership(st, step);
    ScanKeepsOwnership(st, step);
    StartKeepsOwnership(st, step);
    CleanKeepsOwnership(st, step);
    if step.CreateSession? {
      OwnershipUnderGrowth(st, st.ledger.(creators := st.ledger.creators[step.s := step.user]));
    }
  }

  // ---- Containers ----

  /** The session whose container the scan is bringing up, from the `has` check until it is recorded. */
  function Starting(scan: Scan): Option<SessionId> {
    match scan
    case ScanGet(s, _) => Some(s)
    case ScanGot(s, _, _) => Some(s)
    case ScanCreate(s, _) => Some(s)
    case ScanStart(s, _, _) => Some(s)
    case ScanStarted(s, _, _) => Some(s)
    case _ => None
  }

  predicate Recorded(w: Worker, owners: map<ContainerId, SessionId>, c: ContainerId) {
    c in owners && owners[c] in w.containerMap && w.containerMap[owners[c]] == c
  }

  predicate JustStarted(w: Worker, c: ContainerId) { w.scan.ScanStarted? && w.scan.c == c }

  /** A running container nobody has lost sight of. */
  predicate Tracked(w: Worker, owners: map<ContainerId, SessionId>, c: ContainerId) {
    Recorded(w, owners, c) || JustStarted(w, c)
  }

  function Expired(clean: Clean): set<SessionId> { if clean.CleanIdle? then {} else clean.expired }

  predicate Halted(w: Worker, s: SessionId)
    requires s in w.containerMap
  {
    w.containerMap[s] !in w.running || w.containerMap[s] in w.stopRefused
  }

  predicate GoodClean(w: Worker) {
    && Expired(w.clean) <= w.containerMap.Keys
    && (w.clean.CleanExists? || w.clean.CleanStop? || w.clean.CleanRemove? ==>
          w.clean.s in w.containerMap && w.containerMap[w.clean.s] == w.clean.c)
    && (w.clean.CleanStop? || w.clean.CleanRemove? ==> w.clean.s in w.clean.expired)
    && (forall s :: s in Expired(w.clean) && !(w.clean.CleanStop? && w.clean.s == s) ==> Halted(w, s))
  }

  predicate GoodFleet(w: Worker, owners: map<ContainerId, SessionId>) {
    && (forall c :: c in w.running ==> c in owners)
    && (forall c :: c in w.running ==> Tracked(w, owners, c) || c in w.stopRefused)
    && (Starting(w.scan).Some? ==> Starting(w.scan).value !in w.containerMap)
    && (w.scan.ScanStart? ==> w.scan.c !in w.running)
  }

  predicate Containers(w: Worker, owners: map<ContainerId, SessionId>) { GoodFleet(w, owners) && GoodClean(w) }

  lemma SweepKeepsContainers(w: Worker, owners: map<ContainerId, SessionId>, live: set<SessionId>, step: Step)
    requires Containers(w, owners)
    requires Sweep.requires(w, live, step)
    ensures Containers(Sweep(w, live, step), owners)
  {}

  lemma RecordKeepsClean(w: Worker, s: SessionId, c: ContainerId, scan: Scan)
    requires GoodClean(w) && s !in w.containerMap
    ensures GoodClean(w.(scan := scan, containerMap := w.containerMap[s := c]))
  {}

  lemma MakeKeepsClean(w: Worker, scan: Scan, names: map<SessionId, ContainerId>)
    requires GoodClean(w)
    ensures GoodClean(w.(scan := scan, names := names))
  {}

  lemma RunKeepsClean(w: Worker, c: ContainerId, scan: Scan)
    requires GoodClean(w) && forall s :: s in w.containerMap ==> w.containerMap[s] != c
    ensures GoodClean(w.(scan := scan, running := w.running + {c}))
  {}

  lemma MakeKeepsFleet(
    w: Worker, owners: map<ContainerId, SessionId>, s: SessionId, c: ContainerId, rest: seq<SessionId>)
    requires GoodFleet(w, owners) && w.scan == ScanCreate(s, rest) && c !in owners
    ensures GoodFleet(w.(scan := ScanStart(s, c, rest), names := w.names[s := c]), owners[c := s])
  {}

  lemma RunKeepsFleet(
    w: Worker, owners: map<ContainerId, SessionId>, s: SessionId, c: ContainerId, rest: seq<SessionId>)
    requires GoodFleet(w, owners) && w.scan == ScanStart(s, c, rest) && c in owners
    ensures GoodFleet(w.(scan := ScanStarted(s, c, rest), running := w.running + {c}), owners)
  {}

  /** Recording a container under its session, whose entry is still vacant, hides no other running container. */
  lemma RecordKeepsFleet(w: Worker, owners: map<ContainerId, SessionId>, s: SessionId, c: ContainerId, scan: Scan)
    requires GoodFleet(w, owners) && c in owners && owners[c] == s
    requires Starting(w.scan) == Some(s) && (w.scan.ScanStarted? ==> w.scan.c == c)
    requires Starting(scan).None?
    ensures GoodFleet(w.(scan := scan, containerMap := w.containerMap[s := c]), owners)
  {}

  lemma MoveKeepsFleet(w: Worker, owners: map<ContainerId, SessionId>, scan: Scan)
    requires GoodFleet(w, owners) && !w.scan.ScanStarted? && !scan.ScanStarted? && !scan.ScanStart?
    requires Starting(scan).Some? ==> Starting(scan).value !in w.containerMap
    ensures GoodFleet(w.(scan := scan), owners)
  {}

  lemma ScanKeepsContainers(st: State, step: Step)
    requires Ownership(st) && Containers(st.worker, st.ledger.owners) && Enabled(st, step)
    ensures Containers(ApplyScan(st, step).worker, st.ledger.owners)
  {
    hide Ownership, GoodFleet, GoodClean, ContainerNameOf, RootOf;
    var w, owners := st.worker, st.ledger.owners;
    StartingIsVacant(w, owners);
    if step == ScanDecide {
      DecideKeepsContainers(st);
    } else {
      ScanOnlyMoves(st, step);
      hide ApplyScan, Enabled;
      if ApplyScan(st, step).worker != w {
        MoveKeepsFleet(w, owners, ApplyScan(st, step).worker.scan);
        MoveKeepsClean(w, ApplyScan(st, step).worker.scan);
      }
    }
  }

  lemma ScanOnlyMoves(st: State, step: Step)
    requires Enabled(st, step) && step != ScanDecide
    requires Starting(st.worker.scan).Some? ==> Starting(st.worker.scan).value !in st.worker.containerMap
    ensures var w, v := st.worker, ApplyScan(st, step).worker;
            || v == w
            || (&& v == w.(scan := v.scan) && !w.scan.ScanStarted? && !v.scan.ScanStarted? && !v.scan.ScanStart?
                && (Starting(v.scan).Some? ==> Starting(v.scan).value !in w.containerMap))
  {}

  lemma NewContainerIsUnmapped(st: State)
    requires Ownership(st) && GoodFleet(st.worker, st.ledger.owners) && st.worker.scan.ScanStart?
    ensures st.worker.scan.c in st.ledger.owners
    ensures forall s :: s in st.worker.containerMap ==> st.worker.containerMap[s] != st.worker.scan.c
  {
    hide GoodRedis, GoodOps, GoodClients, Known;
    forall s | s in st.worker.containerMap ensures st.worker.containerMap[s] != st.worker.scan.c {
      assert Made(st.ledger, s, st.worker.containerMap[s]);
    }
  }

  lemma DecideKeepsContainers(st: State)
    requires Ownership(st) && Containers(st.worker, st.ledger.owners) && Enabled(st, ScanDecide)
    ensures Containers(ApplyScan(st, ScanDecide).worker, st.ledger.owners)
  {
    hide GoodRedis, GoodOps, GoodClients, GoodMap, Known, GoodFleet, GoodClean, ContainerNameOf, RootOf;
    var w, owners := st.worker, st.ledger.owners;
    var ScanGot(s, d, rest) := w.scan;
    StartingIsVacant(w, owners);
    if d.containerId.Some? {
      RecordKeepsFleet(w, owners, s, d.containerId.value, ScanAt(rest));
      RecordKeepsClean(w, s, d.containerId.value, ScanAt(rest));
    } else {
      MoveKeepsFleet(w, owners, ScanCreate(s, rest));
      MoveKeepsClean(w, ScanCreate(s, rest));
    }
  }

  lemma StartKeepsContainers(st: State, step: Step)
    requires Ownership(st) && Containers(st.worker, st.ledger.owners) && Enabled(st, step)
    ensures var t := ApplyStart(st, step);
            Containers(t.worker, t.ledger.owners)
  {
    hide Ownership, GoodFleet, GoodClean, ContainerNameOf, RootOf, Attach, Ttl;
    var w, owners := st.worker, st.ledger.owners;
    match step
    case ScanMake(c) =>
      MakeKeepsFleet(w, owners, w.scan.s, c, w.scan.rest);
      MakeKeepsClean(w, ScanStart(w.scan.s, c, w.scan.rest), w.names[w.scan.s := c]);
    case ScanRun => RunKeepsContainers(st);
    case ScanRecord => RecordKeepsContainers(st);
    case ScanReread | ScanReadTtl | ScanStore =>
      MoveKeepsFleet(w, owners, ApplyStart(st, step).worker.scan);
      MoveKeepsClean(w, ApplyStart(st, step).worker.scan);
    case _ =>
  }

  lemma RunKeepsContainers(st: State)
    requires Ownership(st) && Containers(st.worker, st.ledger.owners) && st.worker.scan.ScanStart?
    ensures var t := ApplyStart(st, ScanRun);
            Containers(t.worker, t.ledger.owners)
  {
    hide Ownership, GoodFleet, GoodClean;
    var w, owners := st.worker, st.ledger.owners;
    NewContainerIsUnmapped(st);
    RunKeepsFleet(w, owners, w.scan.s, w.scan.c, w.scan.rest);
    RunKeepsClean(w, w.scan.c, ScanStarted(w.scan.s, w.scan.c, w.scan.rest));
  }

  lemma RecordKeepsContainers(st: State)
    requires Ownership(st) && Containers(st.worker, st.ledger.owners) && st.worker.scan.ScanStarted?
    ensures var t := ApplyStart(st, ScanRecord);
            Containers(t.worker, t.ledger.owners)
  {
    hide GoodRedis, GoodOps, GoodClients, GoodMap, Known, GoodFleet, GoodClean, GoodCopy;
    var w, owners := st.worker, st.ledger.owners;
    StartingIsVacant(w, owners);
    RecordKeepsFleet(w, owners, w.scan.s, w.scan.c, ScanReget(w.scan.s, w.scan.c, w.scan.rest));
    RecordKeepsClean(w, w.scan.s, w.scan.c, ScanReget(w.scan.s, w.scan.c, w.scan.rest));
  }

  lemma MoveKeepsClean(w: Worker, scan: Scan)
    requires GoodClean(w)
    ensures GoodClean(w.(scan := scan))
  {}

  lemma StartingIsVacant(w: Worker, owners: map<ContainerId, SessionId>)
    requires GoodFleet(w, owners)
    ensures Starting(w.scan).Some? ==> Starting(w.scan).value !in w.containerMap
  {}

  predicate Safe(st: State) { Ownership(st) && Containers(st.worker, st.ledger.owners) }

  lemma AttachKeepsContainers(w: Worker, owners: map<ContainerId, SessionId>)
    requires Containers(w, owners) && w.scan.ScanReget?
    ensures Containers(w.(scan := ScanAt(w.scan.rest)), owners)
  {}

  lemma ContainersKept(st: State, step: Step)
    requires Safe(st) && Enabled(st, step)
    ensures var t := Apply(st, step);
            Containers(t.worker, t.ledger.owners)
  {
    hide Ownership, Containers, Enabled, FamilyOf;
    hide ApplySplit, ApplyAtomic, ApplyGateway, ApplyScan, ApplyStart, ApplyClean;
    match FamilyOf(step)
    case ScanStep => ScanKeepsContainers(st, step);
    case StartStep => StartKeepsContainers(st, step);
    case SweepStep => CleanKeepsContainers(st, step);
    case AtomicCall => AtomicKeepsContainers(st, step);
    case ClockStep =>
    case Creation =>
    case SplitCall =>
    case GatewayCall =>
  }

  lemma CleanKeepsContainers(st: State, step: Step)
    requires Containers(st.worker, st.ledger.owners) && Enabled(st, step)
    ensures var t := ApplyClean(st, step);
            Containers(t.worker, t.ledger.owners)
  {
    hide Containers, Sweep;
    SweepKeepsContainers(st.worker, st.ledger.owners, st.redis.Keys, step);
  }

  lemma AtomicKeepsContainers(st: State, step: Step)
    requires Containers(st.worker, st.ledger.owners) && Enabled(st, step)
    ensures var t := ApplyAtomic(st, step);
            Containers(t.worker, t.ledger.owners)
  {
    hide Containers;
    if step.AttachAtomic? {
      AttachKeepsContainers(st.worker, st.ledger.owners);
    }
  }

  lemma SafeKept(st: State, step: Step)
    requires Safe(st) && Enabled(st, step)
    ensures Safe(Apply(st, step))
  {
    OwnershipKept(st, step);
    ContainersKept(st, step);
  }

  lemma {:induction false} SafeAlways(st: State, steps: seq<Step>, end: State)
    requires Safe(st) && Runs(st, steps, end)
    ensures Safe(end)
    decreases |steps|
  {
    hide Safe, Apply, Enabled;
    if steps != [] {
      SafeKept(st, steps[0]);
      SafeAlways(Apply(st, steps[0]), steps[1..], end);
    }
  }

  predicate Reachable(steps: seq<Step>, st: State) { Runs(INITIAL, steps, st) }

  lemma ReachableIsSafe(steps: seq<Step>, st: State)
    requires Reachable(steps, st)
    ensures Safe(st)
  {
    SafeAlways(INITIAL, steps, st);
  }

  // ---- What it means ----

  /**
   No container is lost: unless Docker once refused to stop it, a running container is the value recorded
   under its own session, or the one whose start has just been answered.
   */
  lemma NoLeakedContainer(steps: seq<Step>, st: State, c: ContainerId)
    requires Reachable(steps, st) && c in st.worker.running && c !in st.worker.stopRefused
    ensures c in st.ledger.owners
    ensures var s := st.ledger.owners[c];
            || (s in st.worker.containerMap && st.worker.containerMap[s] == c)
            || (st.worker.scan.ScanStarted? && st.worker.scan.s == s && st.worker.scan.c == c)
  {
    ReachableIsSafe(steps, st);
    assert Tracked(st.worker, st.ledger.owners, c);
  }

  /** The running containers Docker never refused to stop. */
  function Obedient(st: State): set<ContainerId> { st.worker.running - st.worker.stopRefused }

  /** Two sessions never share a container, and one session never runs two. */
  lemma OneToOne(steps: seq<Step>, st: State)
    requires Reachable(steps, st)
    ensures forall s, r :: s in st.worker.containerMap && r in st.worker.containerMap && s != r ==>
              st.worker.containerMap[s] != st.worker.containerMap[r]
    ensures forall c, d :: c in Obedient(st) && d in Obedient(st) && c != d ==>
              c in st.ledger.owners && d in st.ledger.owners && st.ledger.owners[c] != st.ledger.owners[d]
  {
    ReachableIsSafe(steps, st);
    var w, l := st.worker, st.ledger;
    forall s, r | s in w.containerMap && r in w.containerMap && s != r ensures w.containerMap[s] != w.containerMap[r] {
      assert Made(l, s, w.containerMap[s]) && Made(l, r, w.containerMap[r]);
    }
    forall c, d | c in Obedient(st) && d in Obedient(st) && c != d
      ensures c in l.owners && d in l.owners && l.owners[c] != l.owners[d]
    {
      assert Tracked(w, l.owners, c) && Tracked(w, l.owners, d);
      assert w.scan.ScanStarted? ==> Made(l, w.scan.s, w.scan.c);
    }
  }

  /**
   Why refusals are set apart. A step leaves a tracked, running container running and untracked exactly when it is
   the end of the sweep that condemned its session; and then Docker had refused to stop it. Until then, and if the
   sweep breaks off, a refused container stays tracked.
   */
  lemma ContainerLeaksIff(st: State, step: Step, c: ContainerId)
    requires Safe(st) && Enabled(st, step) && c in st.worker.running && Tracked(st.worker, st.ledger.owners, c)
    ensures var t := Apply(st, step);
            (c in t.worker.running && !Tracked(t.worker, t.ledger.owners, c))
            <==> Condemned(st, step, c)
    ensures Condemned(st, step, c) ==> c in st.worker.stopRefused
  {
    hide Ownership, Containers, Enabled, FamilyOf, Tracked, Condemned;
    hide ApplySplit, ApplyAtomic, ApplyGateway, ApplyScan, ApplyStart, ApplyClean;
    ScanKeepsTrack(st, step, c);
    StartKeepsTrack(st, step, c);
    SweepLosesTrackIff(st, step, c);
    OnlySweepsCondemn(st, step, c);
    match FamilyOf(step)
    case ClockStep =>
    case Creation =>
    case SplitCall =>
    case AtomicCall => AtomicKeepsTrack(st, step, c);
    case GatewayCall =>
    case ScanStep =>
    case StartStep =>
    case SweepStep =>
  }

  /** The step ends the sweep that has condemned the session of `c`. */
  predicate Condemned(st: State, step: Step, c: ContainerId) {
    step.CleanEnd? && c in st.ledger.owners && st.ledger.owners[c] in Expired(st.worker.clean)
  }

  lemma OnlySweepsCondemn(st: State, step: Step, c: ContainerId)
    ensures Condemned(st, step, c) ==> FamilyOf(step).SweepStep?
  {}

  lemma ScanKeepsTrack(st: State, step: Step, c: ContainerId)
    requires Safe(st) && Enabled(st, step) && Tracked(st.worker, st.ledger.owners, c)
    ensures Tracked(ApplyScan(st, step).worker, st.ledger.owners, c)
  {
    hide Ownership, GoodFleet, GoodClean;
    StartingIsVacant(st.worker, st.ledger.owners);
  }

  lemma StartKeepsTrack(st: State, step: Step, c: ContainerId)
    requires Safe(st) && Enabled(st, step) && c in st.worker.running && Tracked(st.worker, st.ledger.owners, c)
    ensures var t := ApplyStart(st, step);
            Tracked(t.worker, t.ledger.owners, c)
  {
    hide GoodRedis, GoodOps, GoodClients, GoodMap, Known, GoodClean, ContainerNameOf, RootOf, Attach, GoodCopy;
    StartingIsVacant(st.worker, st.ledger.owners);
  }

  lemma AtomicKeepsTrack(st: State, step: Step, c: ContainerId)
    requires Enabled(st, step) && Tracked(st.worker, st.ledger.owners, c)
    ensures Tracked(ApplyAtomic(st, step).worker, st.ledger.owners, c)
  {
    hide ContainerNameOf, RootOf, Attach, Touch, Upload;
  }

  lemma SweepLosesTrackIff(st: State, step: Step, c: ContainerId)
    requires Safe(st) && Enabled(st, step) && c in st.worker.running && Tracked(st.worker, st.ledger.owners, c)
    ensures FamilyOf(step).SweepStep? ==>
              var t := ApplyClean(st, step);
              (c in t.worker.running && !Tracked(t.worker, t.ledger.owners, c)) <==> Condemned(st, step, c)
    ensures Condemned(st, step, c) ==> c in st.worker.stopRefused
  {
    hide GoodRedis, GoodOps, GoodClients, GoodMap, Known, GoodCopy;
    StartingIsVacant(st.worker, st.ledger.owners);
    hide GoodFleet;
  }

  /** The copy of a session an API call holds between two awaits. */
  function CopyIn(op: Op): Option<(SessionId, SessionData)> {
    match op
    case ActivityWriting(s, d) => Some((s, d))
    case UploadReadingTtl(s, d) => Some((s, d))
    case UploadWriting(s, d, _) => Some((s, d))
    case _ => None
  }

  predicate HeldByScan(scan: Scan, s: SessionId, d: SessionData) {
    (scan.ScanGot? || scan.ScanTtl? || scan.ScanWrite?) && scan.s == s && scan.data == d
  }

  /** `d` is what Redis, an API call or the scan holds of session `s`. */
  ghost predicate IsCopy(st: State, s: SessionId, d: SessionData) {
    || (s in st.redis && st.redis[s].data == d)
    || (exists i :: i in st.ops && CopyIn(st.ops[i]) == Some((s, d)))
    || HeldByScan(st.worker.scan, s, d)
  }

  /** Different sessions have different roots and container names. */
  lemma SessionsAreApart(s: SessionId, t: SessionId)
    ensures RootOf(s) == RootOf(t) <==> s == t
    ensures ContainerNameOf(s) == ContainerNameOf(t) <==> s == t
  {
    if s != t {
      LeftCancel("/lsp-files/", s.ulid, t.ulid);
      LeftCancel("lsp-", s.ulid, t.ulid);
    }
  }

  lemma LeftCancel(head: string, a: string, b: string)
    ensures head + a == head + b <==> a == b
  {
    assert (head + a)[|head|..] == a && (head + b)[|head|..] == b;
  }

  /** Every copy, stored or in flight, names the creator, the session's own root, and only its own container. */
  lemma EveryCopyIsTheCreators(steps: seq<Step>, st: State, s: SessionId, d: SessionData)
    requires Reachable(steps, st) && IsCopy(st, s, d)
    ensures s in st.ledger.creators && d.userId == st.ledger.creators[s] && d.workspaceRoot == "/lsp-files/" + s.ulid
    ensures d.containerName == if d.containerId.Some? then Some("lsp-" + s.ulid) else None
    ensures d.containerId.Some? ==>
              d.containerId.value in st.ledger.owners && st.ledger.owners[d.containerId.value] == s
  {
    ReachableIsSafe(steps, st);
    hide Containers;
    if s in st.redis && st.redis[s].data == d {
      assert GoodEntry(st.ledger, st.now, s, st.redis[s]);
    } else if !HeldByScan(st.worker.scan, s, d) {
      var i :| i in st.ops && CopyIn(st.ops[i]) == Some((s, d));
      assert GoodOp(st.ledger, st.ops[i]);
    }
    assert GoodCopy(st.ledger, s, d);
  }

  /** A gateway client that authenticated is only ever joined to a session it created, at that session's root. */
  lemma ClientsAreOwners(steps: seq<Step>, st: State, k: Client)
    requires Reachable(steps, st) && k in st.clients
    ensures var e := st.clients[k];
            && e.workspaceRoot == "/lsp-files/" + e.s.ulid
            && (e.user.Some? ==> e.s in st.ledger.creators && st.ledger.creators[e.s] == e.user.value)
  {
    ReachableIsSafe(steps, st);
    assert GoodClient(st.ledger, st.clients[k]);
  }

  /** The creator and the root of a session never change for as long as its key is there, whoever writes it. */
  lemma IdentityIsImmutable(before: seq<Step>, st: State, steps: seq<Step>, end: State, s: SessionId)
    requires Reachable(before, st) && Runs(st, steps, end) && s in st.redis && s in end.redis
    ensures end.redis[s].data.userId == st.redis[s].data.userId
    ensures end.redis[s].data.workspaceRoot == st.redis[s].data.workspaceRoot == "/lsp-files/" + s.ulid
  {
    ReachableIsSafe(before, st);
    SafeAlways(st, steps, end);
    LedgerGrows(st, steps, end);
    assert GoodEntry(st.ledger, st.now, s, st.redis[s]);
    assert GoodEntry(end.ledger, end.now, s, end.redis[s]);
  }

  lemma {:induction false} LedgerGrows(st: State, steps: seq<Step>, end: State)
    requires Runs(st, steps, end)
    ensures Grows(st.ledger, end.ledger)
    decreases |steps|
  {
    hide Apply, Enabled;
    if steps != [] {
      StepGrowsLedger(st, steps[0]);
      LedgerGrows(Apply(st, steps[0]), steps[1..], end);
    }
  }

  lemma StepGrowsLedger(st: State, step: Step)
    requires Enabled(st, step)
    ensures Grows(st.ledger, Apply(st, step).ledger)
  {
    hide Enabled, FamilyOf, ApplySplit, ApplyAtomic, ApplyGateway, ApplyScan, ApplyStart, ApplyClean;
    match FamilyOf(step)
    case Creation => CreatesFresh(st, step);
    case StartStep => StartGrowsLedger(st, step);
    case ClockStep =>
    case SplitCall =>
    case AtomicCall =>
    case GatewayCall =>
    case ScanStep =>
    case SweepStep =>
  }

  lemma StartGrowsLedger(st: State, step: Step)
    requires Enabled(st, step)
    ensures Grows(st.ledger, ApplyStart(st, step).ledger)
  {}
}
