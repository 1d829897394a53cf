/** What a sweep achieves: it reaps every session it finds expired, whatever the rest of the system does meanwhile. */
module LspReaping {
  import opened LspSessions
  import opened LspSessionSafety
  import opened LspLiveSessions
  import opened LspRuns

  /** The key of `s` is missing at every moment of the run. */
  predicate AbsentThroughout(st: State, steps: seq<Step>, s: SessionId)
    decreases |steps|
  {
    && s !in st.redis
    && (steps != [] && Enabled(st, steps[0]) ==> AbsentThroughout(Apply(st, steps[0]), steps[1..], s))
  }

  predicate EndsSweep(step: Step) { step.CleanEnd? || step.CleanFails? }

  /** A sweep is under way, and it has `s` still to look at, is looking at it, or has condemned it. */
  predicate Doomed(w: Worker, s: SessionId, c: ContainerId) {
    && s in w.containerMap && w.containerMap[s] == c
    && !w.clean.CleanIdle?
    && (s in w.clean.visited ==> s in w.clean.expired || (w.clean.CleanExists? && w.clean.s == s))
  }

  /** The scan records containers only under sessions that have none. */
  lemma ScanKeepsDoomed(st: State, step: Step, s: SessionId, c: ContainerId)
    requires Containers(st.worker, st.ledger.owners) && Enabled(st, step) && Doomed(st.worker, s, c)
    ensures Doomed(ApplyScan(st, step).worker, s, c)
  {
    hide GoodFleet, GoodClean;
    StartingIsVacant(st.worker, st.ledger.owners);
  }

  lemma StartKeepsDoomed(st: State, step: Step, s: SessionId, c: ContainerId)
    requires Containers(st.worker, st.ledger.owners) && Enabled(st, step) && Doomed(st.worker, s, c)
    ensures Doomed(ApplyStart(st, step).worker, s, c)
  {
    hide GoodFleet, GoodClean, RootOf, ContainerNameOf, Attach;
    StartingIsVacant(st.worker, st.ledger.owners);
  }

  lemma SweepKeepsDoomed(st: State, step: Step, s: SessionId, c: ContainerId)
    requires Enabled(st, step) && !EndsSweep(step) && Doomed(st.worker, s, c) && s !in st.redis
    ensures Doomed(ApplyClean(st, step).worker, s, c)
  {}

  lemma DoomedKept(st: State, step: Step, s: SessionId, c: ContainerId)
    requires Safe(st) && Enabled(st, step) && !EndsSweep(step) && Doomed(st.worker, s, c) && s !in st.redis
    ensures Doomed(Apply(st, step).worker, s, c)
  {
    hide Ownership, Containers, Enabled, FamilyOf, EndsSweep;
    hide ApplySplit, ApplyAtomic, ApplyGateway, ApplyScan, ApplyStart, ApplyClean;
    ScanKeepsDoomed(st, step, s, c);
    StartKeepsDoomed(st, step, s, c);
    SweepKeepsDoomed(st, step, s, c);
    match FamilyOf(step)
    case ClockStep =>
    case Creation =>
    case SplitCall =>
    case AtomicCall =>
    case GatewayCall =>
    case ScanStep =>
    case StartStep =>
    case SweepStep =>
  }

  lemma {:induction false} DoomedThroughout(st: State, steps: seq<Step>, end: State, s: SessionId, c: ContainerId)
    requires Safe(st) && Runs(st, steps, end) && AbsentThroughout(st, steps, s) && Doomed(st.worker, s, c)
    requires forall i :: 0 <= i < |steps| ==> !EndsSweep(steps[i])
    ensures Safe(end) && Doomed(end.worker, s, c)
    decreases |steps|
  {
    hide Safe, Apply, Enabled, Doomed, EndsSweep;
    if steps != [] {
      SafeKept(st, steps[0]);
      DoomedKept(st, steps[0], s, c);
      assert forall i :: 0 <= i < |steps[1..]| ==> steps[1..][i] == steps[i + 1];
      DoomedThroughout(Apply(st, steps[0]), steps[1..], end, s, c);
    }
  }

  /**
   A session recorded when a sweep begins, and without a key until the sweep ends, is forgotten by then and its
   container is stopped, unless Docker refused to. Split or indivisible, the updates of other sessions do not matter.
   */
  lemma CompletedSweepReaps(st: State, steps: seq<Step>, end: State, s: SessionId)
    requires Safe(st) && st.worker.clean.CleanIdle? && s in st.worker.containerMap
    requires var begun := WithClean(st, CleanAt({}, {}));
             Runs(begun, steps, end) && AbsentThroughout(begun, steps, s)
    requires Enabled(end, CleanEnd) && forall i :: 0 <= i < |steps| ==> !EndsSweep(steps[i])
    ensures var c, t := st.worker.containerMap[s], Apply(end, CleanEnd);
            s !in t.worker.containerMap && (c !in t.worker.running || c in t.worker.stopRefused)
  {
    var c := st.worker.containerMap[s];
    var begun := WithClean(st, CleanAt({}, {}));
    SweepOpensSafely(st);
    DoomedThroughout(begun, steps, end, s, c);
    ReapedAtEnd(end, s, c);
  }

  lemma SweepOpensSafely(st: State)
    requires Safe(st) && st.worker.clean.CleanIdle?
    ensures Apply(st, CleanBegin) == WithClean(st, CleanAt({}, {}))
    ensures Safe(Apply(st, CleanBegin))
  {
    hide Safe;
    SafeKept(st, CleanBegin);
  }

  lemma ReapedAtEnd(st: State, s: SessionId, c: ContainerId)
    requires Safe(st) && Doomed(st.worker, s, c) && Enabled(st, CleanEnd)
    ensures var t := Apply(st, CleanEnd);
            s !in t.worker.containerMap && (c !in t.worker.running || c in t.worker.stopRefused)
  {
    hide Ownership, GoodFleet;
  }

  // ---- A missing key that nobody is about to store is enough ----

  lemma {:induction false} QuietIsAbsent(st: State, steps: seq<Step>, end: State, s: SessionId)
    requires GoneQuietly(st, s) && Runs(st, steps, end)
    ensures AbsentThroughout(st, steps, s)
    decreases |steps|
  {
    assert s !in st.redis;
    hide GoneQuietly, Apply, Enabled;
    if steps != [] {
      QuietKept(st, steps[0], s);
      QuietIsAbsent(Apply(st, steps[0]), steps[1..], end, s);
    }
  }

  /** An expired session with no `setex` of it under way when the sweep begins is reaped by the time it completes. */
  lemma ExpiredSessionIsReaped(st: State, steps: seq<Step>, end: State, s: SessionId)
    requires Safe(st) && st.worker.clean.CleanIdle? && s in st.worker.containerMap
    requires s !in st.redis && !Storing(st, s)
    requires Runs(WithClean(st, CleanAt({}, {})), steps, end)
    requires Enabled(end, CleanEnd) && forall i :: 0 <= i < |steps| ==> !EndsSweep(steps[i])
    ensures var c, t := st.worker.containerMap[s], Apply(end, CleanEnd);
            s !in t.worker.containerMap && (c !in t.worker.running || c in t.worker.stopRefused)
  {
    RecordedIsKnown(st, s);
    assert GoneQuietly(WithClean(st, CleanAt({}, {})), s);
    hide Apply, Enabled, EndsSweep, Runs, Safe, GoneQuietly, Storing;
    QuietIsAbsent(WithClean(st, CleanAt({}, {})), steps, end, s);
    CompletedSweepReaps(st, steps, end, s);
  }

  lemma RecordedIsKnown(st: State, s: SessionId)
    requires Safe(st) && s in st.worker.containerMap
    ensures s in st.ledger.creators
  {
    hide GoodRedis, GoodOps, GoodClients, GoodScan, GoodFleet, GoodClean;
    assert Made(st.ledger, s, st.worker.containerMap[s]);
  }

  // ---- A stopped container stays stopped ----

  /** `c` was made, does not run, and is not about to be started. */
  predicate Retired(st: State, c: ContainerId) {
    c in st.ledger.owners && c !in st.worker.running && !(st.worker.scan.ScanStart? && st.worker.scan.c == c)
  }

  lemma StoppedIsRetired(st: State)
    requires Safe(st) && Enabled(st, CleanStopped)
    ensures Retired(Apply(st, CleanStopped), st.worker.clean.c)
  {
    hide GoodRedis, GoodOps, GoodClients, GoodFleet, Known;
    var s, c := st.worker.clean.s, st.worker.clean.c;
    assert Made(st.ledger, s, c);
    StartingIsVacant(st.worker, st.ledger.owners);
  }

  lemma StartKeepsRetired(st: State, step: Step, c: ContainerId)
    requires Enabled(st, step) && Retired(st, c)
    ensures Retired(ApplyScan(st, step), c) && Retired(ApplyStart(st, step), c)
  {
    hide ContainerNameOf, RootOf, Attach, Ttl;
  }

  lemma SweepKeepsRetired(st: State, step: Step, c: ContainerId)
    requires Enabled(st, step) && Retired(st, c)
    ensures Retired(ApplyClean(st, step), c)
  {}

  lemma AtomicKeepsRetired(st: State, step: Step, c: ContainerId)
    requires Enabled(st, step) && Retired(st, c)
    ensures Retired(ApplyAtomic(st, step), c)
  {
    hide ContainerNameOf, RootOf, Attach, Touch, Upload;
  }

  lemma RetiredKept(st: State, step: Step, c: ContainerId)
    requires Enabled(st, step) && Retired(st, c)
    ensures Retired(Apply(st, step), c)
  {
    hide Enabled, FamilyOf, Live;
    hide ApplySplit, ApplyAtomic, ApplyGateway, ApplyScan, ApplyStart, ApplyClean;
    match FamilyOf(step)
    case ClockStep =>
    case Creation =>
    case SplitCall =>
    case AtomicCall => AtomicKeepsRetired(st, step, c);
    case GatewayCall =>
    case ScanStep => StartKeepsRetired(st, step, c);
    case StartStep => StartKeepsRetired(st, step, c);
    case SweepStep => SweepKeepsRetired(st, step, c);
  }

  /** Docker's ids are never reused, and the worker starts a container once: a stopped one never runs again. */
  lemma {:induction false} StoppedStaysStopped(st: State, steps: seq<Step>, end: State, c: ContainerId)
    requires Retired(st, c) && Runs(st, steps, end)
    ensures Retired(end, c)
    decreases |steps|
  {
    hide Retired, Apply, Enabled;
    if steps != [] {
      RetiredKept(st, steps[0], c);
      StoppedStaysStopped(Apply(st, steps[0]), steps[1..], end, c);
    }
  }

  lemma LeadsKeepsRetired(st: State, end: State, c: ContainerId)
    requires Retired(st, c) && Leads(st, end)
    ensures c !in end.worker.running
  {
    hide Runs;
    var steps :| Runs(st, steps, end);
    StoppedStaysStopped(st, steps, end, c);
  }
}
