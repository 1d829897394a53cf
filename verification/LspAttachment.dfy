/**
 When a session's record keeps what it says: that it has a container, which one, which files it lists. Every split
 update writes back the whole record it has read, so what decides is which copies of the record are in flight now;
 later calls read it as it is.
 */
module LspAttachment {
  import opened Sequences
  import opened LspSessions
  import opened LspSessionSafety
  import opened LspRuns
  import opened LspLiveSessions

  /** What a record may say. */
  datatype Claim = HasContainer | Names(c: ContainerId) | Lists(file: string)

  predicate Agrees(d: SessionData, claim: Claim) {
    match claim
    case HasContainer => d.containerId.Some?
    case Names(c) => d.containerId == Some(c)
    case Lists(file) => file in d.uploadedFiles
  }

  predicate RivalCopy(op: Op, s: SessionId, claim: Claim) {
    CopyIn(op).Some? && CopyIn(op).value.0 == s && !Agrees(CopyIn(op).value.1, claim)
  }

  /** The scan is giving `s` a container other than `c`, or about to under a name that is free. */
  predicate Starts(w: Worker, s: SessionId, c: ContainerId) {
    match w.scan
    case ScanGot(r, d, _) => r == s && d.containerId.None? && s !in w.names
    case ScanCreate(r, _) => r == s && s !in w.names
    case ScanStart(r, k, _) => r == s && k != c
    case ScanStarted(r, k, _) => r == s && k != c
    case ScanReget(r, k, _) => r == s && k != c
    case _ => false
  }

  /** The scan holds a copy that does not agree, or is giving `s` a container other than the one claimed. */
  predicate RivalScan(w: Worker, s: SessionId, claim: Claim) {
    || ((w.scan.ScanTtl? || w.scan.ScanWrite?) && w.scan.s == s && !Agrees(w.scan.data, claim))
    || (claim.Names? && Starts(w, s, claim.c))
  }

  /** Something in flight will write a record of `s` that does not agree. */
  ghost predicate Rival(st: State, s: SessionId, claim: Claim) {
    (exists i :: i in st.ops && RivalCopy(st.ops[i], s, claim)) || RivalScan(st.worker, s, claim)
  }

  predicate Says(st: State, s: SessionId, claim: Claim) { s in st.redis && Agrees(st.redis[s].data, claim) }

  ghost predicate MayChange(st: State, s: SessionId, claim: Claim) {
    exists end :: Leads(st, end) && s in end.redis && !Agrees(end.redis[s].data, claim)
  }

  // ---- Without a rival nothing changes ----

  ghost predicate Settled(st: State, s: SessionId, claim: Claim) {
    && s in st.ledger.creators
    && (s in st.redis ==> Agrees(st.redis[s].data, claim))
    && !Rival(st, s, claim)
  }

  lemma SplitKeepsSettled(st: State, step: Step, s: SessionId, claim: Claim)
    requires Settled(st, s, claim) && Enabled(st, step)
    ensures Settled(ApplySplit(st, step), s, claim)
  {
    if step.RenewRead? || step.ActivityRead? || step.UploadRead? {
      hide Settled, Touch, Upload;
      ReadKeepsSettled(st, step, s, claim);
    } else {
      WriteKeepsSettled(st, step, s, claim);
    }
  }

  lemma ReadKeepsSettled(st: State, step: Step, s: SessionId, claim: Claim)
    requires Settled(st, s, claim) && Enabled(st, step) && (step.RenewRead? || step.ActivityRead? || step.UploadRead?)
    ensures Settled(ApplySplit(st, step), s, claim)
  {
    var t := ApplySplit(st, step);
    assert forall i :: i in st.ops ==> !RivalCopy(st.ops[i], s, claim);
    assert forall i :: i in t.ops && !(i in st.ops && t.ops[i] == st.ops[i]) ==> !RivalCopy(t.ops[i], s, claim);
  }

  /** Copies that were there before, under the same numbers. */
  predicate NoNewCopies(ops: map<nat, Op>, after: map<nat, Op>) {
    forall i :: i in after ==> i in ops && CopyIn(after[i]) == CopyIn(ops[i])
  }

  lemma NoNewRivals(st: State, t: State, s: SessionId, claim: Claim)
    requires !Rival(st, s, claim) && t.worker == st.worker && NoNewCopies(st.ops, t.ops)
    ensures !Rival(t, s, claim)
  {
    hide RivalScan, Agrees;
    forall i | i in t.ops ensures !RivalCopy(t.ops[i], s, claim) {
      assert !RivalCopy(st.ops[i], s, claim);
    }
  }

  lemma WriteKeepsSettled(st: State, step: Step, s: SessionId, claim: Claim)
    requires Settled(st, s, claim) && Enabled(st, step) && !(step.RenewRead? || step.ActivityRead? || step.UploadRead?)
    ensures Settled(ApplySplit(st, step), s, claim)
  {
    assert forall i :: i in st.ops ==> !RivalCopy(st.ops[i], s, claim);
    hide Agrees, Touch, Upload, RivalScan, Rival;
    NoNewRivals(st, ApplySplit(st, step), s, claim);
  }

  lemma GatewayKeepsSettled(st: State, step: Step, s: SessionId, claim: Claim)
    requires Settled(st, s, claim) && Enabled(st, step)
    ensures Settled(ApplyGateway(st, step), s, claim)
  {
    var t := ApplyGateway(st, step);
    assert forall i :: i in st.ops ==> !RivalCopy(st.ops[i], s, claim);
    assert forall i :: i in t.ops && !(i in st.ops && t.ops[i] == st.ops[i]) ==> !RivalCopy(t.ops[i], s, claim);
  }

  lemma ScanKeepsSettled(st: State, step: Step, s: SessionId, claim: Claim)
    requires Settled(st, s, claim) && Enabled(st, step)
    ensures Settled(ApplyScan(st, step), s, claim)
  {}

  lemma StartKeepsSettled(st: State, step: Step, s: SessionId, claim: Claim)
    requires Settled(st, s, claim) && Enabled(st, step)
    ensures Settled(ApplyStart(st, step), s, claim)
  {
    hide ContainerNameOf, RootOf;
  }

  lemma EditsAgree(d: SessionData, now: int, file: string, claim: Claim)
    requires Agrees(d, claim)
    ensures Agrees(Touch(d, now), claim) && Agrees(Upload(d, file), claim)
  {}

  lemma AttachKeepsSettled(st: State, s: SessionId, claim: Claim)
    requires Settled(st, s, claim) && st.worker.scan.ScanReget?
    ensures Settled(ApplyAtomic(st, AttachAtomic), s, claim)
  {
    hide ContainerNameOf, RootOf, RivalCopy;
  }

  lemma SameRivals(st: State, t: State, s: SessionId, claim: Claim)
    requires t.ops == st.ops && t.worker == st.worker
    ensures Rival(t, s, claim) <==> Rival(st, s, claim)
  {}

  lemma AtomicKeepsSettled(st: State, step: Step, s: SessionId, claim: Claim)
    requires Settled(st, s, claim) && Enabled(st, step)
    ensures Settled(ApplyAtomic(st, step), s, claim)
  {
    if step == AttachAtomic {
      AttachKeepsSettled(st, s, claim);
    } else {
      hide Rival, Agrees, Touch, Upload;
      SameRivals(st, ApplyAtomic(st, step), s, claim);
      if s in st.redis {
        EditsAgree(st.redis[s].data, st.now, if step.UploadAtomic? then step.file else "", claim);
      }
    }
  }

  lemma CreationKeepsSettled(st: State, r: SessionId, user: User, s: SessionId, claim: Claim)
    requires Settled(st, s, claim) && r !in st.ledger.creators
    ensures Settled(Create(st, r, user), s, claim)
  {}

  lemma TickKeepsSettled(st: State, n: nat, s: SessionId, claim: Claim)
    requires Settled(st, s, claim)
    ensures Settled(st.(now := st.now + n, redis := Live(st.redis, st.now + n)), s, claim)
  {}

  /** No name is freed while the scan is at its session: what is removed is recorded, and what is started is not. */
  lemma SweepKeepsSettled(st: State, step: Step, s: SessionId, claim: Claim)
    requires Safe(st) && Settled(st, s, claim) && Enabled(st, step)
    ensures Settled(ApplyClean(st, step), s, claim)
  {
    hide Ownership, GoodFleet;
    StartingIsVacant(st.worker, st.ledger.owners);
  }

  lemma SettledKept(st: State, step: Step, s: SessionId, claim: Claim)
    requires Safe(st) && Settled(st, s, claim) && Enabled(st, step)
    ensures Settled(Apply(st, step), s, claim)
  {
    hide Safe, Settled, Enabled, FamilyOf, Create, Live;
    hide ApplySplit, ApplyAtomic, ApplyGateway, ApplyScan, ApplyStart, ApplyClean;
    match FamilyOf(step)
    case ClockStep => TickKeepsSettled(st, step.seconds, s, claim);
    case Creation =>
      CreatesFresh(st, step);
      CreationKeepsSettled(st, step.s, step.user, s, claim);
    case SplitCall => SplitKeepsSettled(st, step, s, claim);
    case AtomicCall => AtomicKeepsSettled(st, step, s, claim);
    case GatewayCall => GatewayKeepsSettled(st, step, s, claim);
    case ScanStep => ScanKeepsSettled(st, step, s, claim);
    case StartStep => StartKeepsSettled(st, step, s, claim);
    case SweepStep => SweepKeepsSettled(st, step, s, claim);
  }

  lemma {:induction false} SettledAlways(st: State, steps: seq<Step>, end: State, s: SessionId, claim: Claim)
    requires Safe(st) && Settled(st, s, claim) && Runs(st, steps, end)
    ensures Settled(end, s, claim)
    decreases |steps|
  {
    hide Safe, Settled, Apply, Enabled;
    if steps != [] {
      SafeKept(st, steps[0]);
      SettledKept(st, steps[0], s, claim);
      SettledAlways(Apply(st, steps[0]), steps[1..], end, s, claim);
    }
  }

  // ---- A rival gets its way ----

  predicate Given(st: State, claim: Claim) { claim.Names? ==> claim.c in st.ledger.owners }

  lemma ChangesBy(st: State, mid: State, step: Step, s: SessionId, claim: Claim)
    requires Leads(st, mid) && Enabled(mid, step)
    requires s in Apply(mid, step).redis && !Agrees(Apply(mid, step).redis[s].data, claim)
    ensures MayChange(st, s, claim)
  {
    Goes(st, mid, step, Apply(mid, step));
  }

  lemma RivalCopyChanges(st: State, i: nat, s: SessionId, claim: Claim)
    requires i in st.ops && RivalCopy(st.ops[i], s, claim) && s in st.redis && Ttl(st, s) > 0
    ensures MayChange(st, s, claim)
  {
    hide Leads, MayChange, Apply, Enabled;
    Stays(st);
    match st.ops[i]
    case ActivityWriting(_, d) =>
      ActivityWrites(st, i);
      ChangesBy(st, st, ActivityWrite(i), s, claim);
    case UploadReadingTtl(_, d) =>
      UploadTimes(st, i);
      var timed := Begin(st, i, UploadWriting(s, d, Ttl(st, s)));
      Goes(st, st, UploadTtl(i), timed);
      UploadWrites(timed, i);
      ChangesBy(st, timed, UploadWrite(i), s, claim);
    case UploadWriting(_, d, _) =>
      UploadWrites(st, i);
      ChangesBy(st, st, UploadWrite(i), s, claim);
  }

  lemma RivalWriteChanges(start: State, st: State, s: SessionId, claim: Claim)
    requires Leads(start, st) && RivalScan(st.worker, s, claim)
    requires st.worker.scan.ScanTtl? || st.worker.scan.ScanWrite?
    requires s in st.redis && Ttl(st, s) > 0
    ensures MayChange(start, s, claim)
  {
    hide Leads, MayChange, Apply, Enabled;
    if st.worker.scan.ScanWrite? {
      StartStores(st);
      ChangesBy(start, st, ScanStore, s, claim);
    } else {
      StartTimes(st);
      var timed := WithScan(st, ScanWrite(s, st.worker.scan.data, Ttl(st, s), st.worker.scan.rest));
      Goes(start, st, ScanReadTtl, timed);
      StartStores(timed);
      ChangesBy(start, timed, ScanStore, s, claim);
    }
  }

  lemma StartedRivalChanges(start: State, st: State, s: SessionId, c: ContainerId)
    requires Leads(start, st) && s in st.redis && Ttl(st, s) > 0
    requires st.worker.scan.ScanStart? || st.worker.scan.ScanStarted? || st.worker.scan.ScanReget?
    requires st.worker.scan.s == s && st.worker.scan.c != c
    ensures MayChange(start, s, Names(c))
  {
    hide Leads;
    var end := StartFinishes(st);
    Joins(start, st, end);
    assert !Agrees(end.redis[s].data, Names(c));
  }

  /** The scan creates a container under a free name, and it is not the one given before. */
  lemma FoundRivalChanges(start: State, st: State, s: SessionId, c: ContainerId)
    requires Leads(start, st) && s in st.redis && Ttl(st, s) > 0 && c in st.ledger.owners
    requires st.worker.scan.ScanCreate? && st.worker.scan.s == s && s !in st.worker.names
    ensures MayChange(start, s, Names(c))
  {
    hide Leads, MayChange, Apply, Enabled;
    var k := FreshContainer(st.ledger.owners);
    var made := Making(st, s, k, st.worker.scan.rest);
    StartCreates(st, k);
    Goes(start, st, ScanMake(k), made);
    StartedRivalChanges(start, made, s, c);
  }

  lemma RivalScanChanges(st: State, s: SessionId, claim: Claim)
    requires RivalScan(st.worker, s, claim) && s in st.redis && Ttl(st, s) > 0 && Given(st, claim)
    ensures MayChange(st, s, claim)
  {
    hide Leads, MayChange, Apply, Enabled, Agrees;
    Stays(st);
    match st.worker.scan
    case ScanGot(_, _, rest) =>
      ScanDecides(st);
      Goes(st, st, ScanDecide, WithScan(st, ScanCreate(s, rest)));
      FoundRivalChanges(st, WithScan(st, ScanCreate(s, rest)), s, claim.c);
    case ScanCreate(_, _) => FoundRivalChanges(st, st, s, claim.c);
    case ScanStart(_, _, _) => StartedRivalChanges(st, st, s, claim.c);
    case ScanStarted(_, _, _) => StartedRivalChanges(st, st, s, claim.c);
    case ScanReget(_, _, _) => StartedRivalChanges(st, st, s, claim.c);
    case ScanTtl(_, _, _) => RivalWriteChanges(st, st, s, claim);
    case ScanWrite(_, _, _, _) => RivalWriteChanges(st, st, s, claim);
  }

  lemma RivalChanges(st: State, s: SessionId, claim: Claim)
    requires Rival(st, s, claim) && s in st.redis && Ttl(st, s) > 0 && Given(st, claim)
    ensures MayChange(st, s, claim)
  {
    hide RivalCopy, RivalScan, MayChange, Leads;
    Stays(st);
    if RivalScan(st.worker, s, claim) {
      RivalScanChanges(st, s, claim);
    } else {
      var i :| i in st.ops && RivalCopy(st.ops[i], s, claim);
      RivalCopyChanges(st, i, s, claim);
    }
  }

  /**
   In every run from here, whenever the key of `s` is there its record says what it says now, exactly when nothing
   in flight is about to write otherwise. Calls made later are no threat.
   */
  lemma RecordKeepsAgreeingIff(st: State, s: SessionId, claim: Claim)
    requires Safe(st) && Says(st, s, claim)
    ensures MayChange(st, s, claim) <==> Rival(st, s, claim)
  {
    hide Rival, Runs, Containers, RivalCopy, RivalScan, RootOf, Known, GoodOps, GoodClients, GoodScan, GoodMap;
    assert GoodEntry(st.ledger, st.now, s, st.redis[s]);
    hide Ownership;
    Stays(st);
    if Rival(st, s, claim) {
      RivalChanges(st, s, claim);
    } else if MayChange(st, s, claim) {
      var end :| Leads(st, end) && s in end.redis && !Agrees(end.redis[s].data, claim);
      var steps :| Runs(st, steps, end);
      SettledAlways(st, steps, end, s, claim);
    }
  }

  /**
   A session that has its container can be found without one, in some run from here, exactly when a call now in
   flight read it before the attachment and will write that back.
   */
  lemma ContainerIsLostIff(st: State, s: SessionId)
    requires Safe(st) && s in st.redis && st.redis[s].data.containerId.Some?
    ensures (exists end :: Leads(st, end) && s in end.redis && end.redis[s].data.containerId.None?)
            <==> (exists i :: i in st.ops && Outdated(st.ops[i], s)) || OutdatedScan(st.worker.scan, s)
  {
    hide Safe, Leads;
    RecordKeepsAgreeingIff(st, s, HasContainer);
    assert forall i :: i in st.ops ==> (Outdated(st.ops[i], s) <==> RivalCopy(st.ops[i], s, HasContainer));
    assert OutdatedScan(st.worker.scan, s) <==> RivalScan(st.worker, s, HasContainer);
  }

  /** The call read `s` before it had a container. */
  predicate Outdated(op: Op, s: SessionId) {
    CopyIn(op).Some? && CopyIn(op).value.0 == s && CopyIn(op).value.1.containerId.None?
  }

  predicate OutdatedScan(scan: Scan, s: SessionId) {
    (scan.ScanTtl? || scan.ScanWrite?) && scan.s == s && scan.data.containerId.None?
  }

  /** The same for the container's identity: it is write-once unless something in flight names another or none. */
  lemma ContainerIsWriteOnceIff(st: State, s: SessionId, c: ContainerId)
    requires Safe(st) && s in st.redis && st.redis[s].data.containerId == Some(c)
    ensures (exists end :: Leads(st, end) && s in end.redis && end.redis[s].data.containerId != Some(c))
            <==> Rival(st, s, Names(c))
  {
    hide Safe, Leads, Rival;
    RecordKeepsAgreeingIff(st, s, Names(c));
  }

  // ---- With indivisible updates no copy is ever in flight ----

  predicate NoCopies(st: State) {
    && (forall i :: i in st.ops ==> CopyIn(st.ops[i]).None?)
    && !st.worker.scan.ScanTtl? && !st.worker.scan.ScanWrite?
  }

  lemma NoCopiesKept(st: State, step: Step)
    requires NoCopies(st) && Enabled(st, step) && IsAtomic(step)
    ensures NoCopies(Apply(st, step))
  {
    hide IsAtomic, Enabled, FamilyOf, Live, Create;
    hide ApplySplit, ApplyAtomic, ApplyGateway, ApplyScan, ApplyStart, ApplyClean;
    CallsKeepNoCopies(st, step);
    WorkerKeepsNoCopies(st, step);
    AtomicKeepsNoCopies(st, step);
    match FamilyOf(step)
    case Creation => CreateStartsNothing(st, step.s, step.user);
    case ClockStep =>
    case SplitCall =>
    case AtomicCall =>
    case GatewayCall =>
    case ScanStep =>
    case StartStep =>
    case SweepStep =>
  }

  lemma CallsKeepNoCopies(st: State, step: Step)
    requires NoCopies(st) && Enabled(st, step) && IsAtomic(step)
    ensures NoCopies(ApplySplit(st, step)) && NoCopies(ApplyGateway(st, step))
  {}

  lemma WorkerKeepsNoCopies(st: State, step: Step)
    requires NoCopies(st) && Enabled(st, step) && IsAtomic(step)
    ensures NoCopies(ApplyScan(st, step)) && NoCopies(ApplyStart(st, step))
  {
    hide ContainerNameOf, RootOf, Attach;
  }

  lemma AtomicKeepsNoCopies(st: State, step: Step)
    requires NoCopies(st) && Enabled(st, step)
    ensures NoCopies(ApplyAtomic(st, step))
  {
    hide ContainerNameOf, RootOf, Attach, Touch, Upload;
  }

  lemma CreateStartsNothing(st: State, s: SessionId, user: User)
    ensures Create(st, s, user).ops == st.ops && Create(st, s, user).worker == st.worker
  {}

  lemma {:induction false} NoCopiesAlways(st: State, steps: seq<Step>, end: State)
    requires NoCopies(st) && Runs(st, steps, end) && AllAtomic(steps)
    ensures NoCopies(end)
    decreases |steps|
  {
    hide NoCopies, Apply, Enabled, IsAtomic;
    if steps != [] {
      assert IsAtomic(steps[0]);
      NoCopiesKept(st, steps[0]);
      assert AllAtomic(steps[1..]);
      NoCopiesAlways(Apply(st, steps[0]), steps[1..], end);
    }
  }

  lemma NoRivalWhenAlive(st: State, s: SessionId, c: ContainerId)
    requires Safe(st) && Alive(st, s) && NoCopies(st) && Says(st, s, Names(c))
    ensures !Rival(st, s, Names(c))
  {
    hide Ownership, GoodClean, LiveCopies, LiveSweep;
    StartingIsVacant(st.worker, st.ledger.owners);
    hide GoodFleet;
  }

  /** Reached by indivisible updates, a session's container is write-once, whatever comes after. */
  lemma ContainerIsWriteOnce(
    before: seq<Step>, st: State, steps: seq<Step>, end: State, s: SessionId)
    requires Reachable(before, st) && AllAtomic(before) && Runs(st, steps, end)
    requires s in st.redis && st.redis[s].data.containerId.Some? && s in end.redis
    ensures end.redis[s].data.containerId == st.redis[s].data.containerId
  {
    hide Runs, Safe, Alive, NoCopies, Rival;
    InitialIsAlive(s);
    IndivisibleRunsLand(INITIAL, before, s);
    AliveAlways(INITIAL, before, st, s);
    assert NoCopies(INITIAL) by { NothingInFlight(); }
    NoCopiesAlways(INITIAL, before, st);
    var c := st.redis[s].data.containerId.value;
    NoRivalWhenAlive(st, s, c);
    ContainerIsWriteOnceIff(st, s, c);
    assert Leads(st, end);
  }

  lemma NothingInFlight()
    ensures NoCopies(INITIAL)
  {}
}
