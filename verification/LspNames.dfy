/**
 Docker's names. A container exists under its session's name from its creation to its removal, started or not, and
 while it does no other can be created under that name.
 */
module LspNames {
  import opened LspSessions
  import opened LspSessionSafety
  import opened LspRuns

  predicate NamesKnown(st: State) {
    forall s :: s in st.worker.names ==> Made(st.ledger, s, st.worker.names[s])
  }

  predicate RunningExist(w: Worker, owners: map<ContainerId, SessionId>) {
    forall c :: c in w.running ==> c in owners && Exists(w, owners[c], c)
  }

  predicate InHand(w: Worker) {
    && (w.scan.ScanStart? || w.scan.ScanStarted? ==> Exists(w, w.scan.s, w.scan.c))
    && (w.clean.CleanRemove? ==> Exists(w, w.clean.s, w.clean.c) && w.clean.c !in w.running)
  }

  /** What runs, or is being started or removed, exists under its own session's name. */
  predicate Registered(st: State) {
    NamesKnown(st) && RunningExist(st.worker, st.ledger.owners) && InHand(st.worker)
  }

  predicate Sound(st: State) { Safe(st) && Registered(st) }

  lemma MakeKeepsRegistered(st: State, c: ContainerId)
    requires Sound(st) && Enabled(st, ScanMake(c))
    ensures Registered(ApplyStart(st, ScanMake(c)))
  {
    hide GoodRedis, GoodOps, GoodClients, GoodMap, Known, Containers;
    assert st.worker.scan.s in st.ledger.creators;
    hide Ownership;
  }

  lemma RunKeepsRegistered(st: State)
    requires Sound(st) && st.worker.scan.ScanStart?
    ensures Registered(ApplyStart(st, ScanRun))
  {
    hide GoodRedis, GoodOps, GoodClients, GoodMap, Known, GoodFleet;
    StartingIsVacant(st.worker, st.ledger.owners);
    assert st.worker.clean.CleanRemove? ==> Made(st.ledger, st.worker.clean.s, st.worker.names[st.worker.clean.s]);
  }

  lemma StartKeepsRegistered(st: State, step: Step)
    requires Sound(st) && Enabled(st, step)
    ensures Registered(ApplyStart(st, step))
  {
    hide Safe, ContainerNameOf, RootOf, Attach, Ttl;
    match step
    case ScanMake(c) => MakeKeepsRegistered(st, c);
    case ScanRun => RunKeepsRegistered(st);
    case _ =>
  }

  lemma SweepKeepsRegistered(st: State, step: Step)
    requires Sound(st) && Enabled(st, step)
    ensures Registered(ApplyClean(st, step))
  {
    hide Ownership, GoodFleet;
    StartingIsVacant(st.worker, st.ledger.owners);
  }

  lemma SameRegister(st: State, t: State)
    requires Registered(st) && Grows(st.ledger, t.ledger) && t.ledger.owners == st.ledger.owners
    requires t.worker.names == st.worker.names && t.worker.running == st.worker.running
    requires t.worker.clean == st.worker.clean
    requires t.worker.scan == st.worker.scan || !(t.worker.scan.ScanStart? || t.worker.scan.ScanStarted?)
    ensures Registered(t)
  {}

  lemma AtomicMovesOn(st: State, step: Step)
    requires Enabled(st, step)
    ensures var scan := ApplyAtomic(st, step).worker.scan;
            scan == st.worker.scan || !(scan.ScanStart? || scan.ScanStarted?)
  {
    hide ContainerNameOf, RootOf, Attach, Touch, Upload;
  }

  lemma ScanMovesOn(st: State, step: Step)
    requires Enabled(st, step)
    ensures var w := ApplyScan(st, step).worker;
            (w.scan == st.worker.scan || !(w.scan.ScanStart? || w.scan.ScanStarted?))
            && w.names == st.worker.names && w.running == st.worker.running
  {}

  lemma CreationKeepsWorker(st: State, s: SessionId, user: User)
    requires s !in st.ledger.creators
    ensures Create(st, s, user).worker == st.worker && Grows(st.ledger, Create(st, s, user).ledger)
    ensures Create(st, s, user).ledger.owners == st.ledger.owners
  {}

  lemma RegisteredKept(st: State, step: Step)
    requires Sound(st) && Enabled(st, step)
    ensures Registered(Apply(st, step))
  {
    hide Safe, Registered, Enabled, FamilyOf, Create, Live;
    hide ApplySplit, ApplyAtomic, ApplyGateway, ApplyScan, ApplyStart, ApplyClean;
    match FamilyOf(step)
    case ClockStep => SameRegister(st, Apply(st, step));
    case Creation =>
      CreatesFresh(st, step);
      CreationKeepsWorker(st, step.s, step.user);
      SameRegister(st, Apply(st, step));
    case SplitCall => SameRegister(st, ApplySplit(st, step));
    case AtomicCall =>
      AtomicMovesOn(st, step);
      SameRegister(st, ApplyAtomic(st, step));
    case GatewayCall => SameRegister(st, ApplyGateway(st, step));
    case ScanStep =>
      ScanMovesOn(st, step);
      SameRegister(st, ApplyScan(st, step));
    case StartStep => StartKeepsRegistered(st, step);
    case SweepStep => SweepKeepsRegistered(st, step);
  }

  lemma SoundKept(st: State, step: Step)
    requires Sound(st) && Enabled(st, step)
    ensures Sound(Apply(st, step))
  {
    hide Safe, Registered, Apply, Enabled;
    SafeKept(st, step);
    RegisteredKept(st, step);
  }

  lemma {:induction false} SoundAlways(st: State, steps: seq<Step>, end: State)
    requires Sound(st) && Runs(st, steps, end)
    ensures Sound(end)
    decreases |steps|
  {
    hide Sound, Apply, Enabled;
    if steps != [] {
      SoundKept(st, steps[0]);
      SoundAlways(Apply(st, steps[0]), steps[1..], end);
    }
  }

  lemma LeadsKeepsSound(st: State, end: State)
    requires Sound(st) && Leads(st, end)
    ensures Sound(end)
  {
    hide Sound, Runs;
    var steps :| Runs(st, steps, end);
    SoundAlways(st, steps, end);
  }

  /** In every reachable state a session has at most one container, whatever Docker refused. */
  lemma OneContainerEach(steps: seq<Step>, st: State, c: ContainerId, d: ContainerId)
    requires Reachable(steps, st) && c in st.worker.running && d in st.worker.running
    ensures c in st.ledger.owners && d in st.ledger.owners
    ensures st.ledger.owners[c] == st.ledger.owners[d] ==> c == d
  {
    hide Runs, Safe;
    InitialIsSound();
    SoundAlways(INITIAL, steps, st);
  }

  lemma InitialIsSound()
    ensures Sound(INITIAL)
  {}
}
