/**
 Leases. A session's deadline is 600 seconds after its last refresh (creation, renewal or activity) for as long as
 every write of that session that carries a `ttl` read earlier (an upload's, or the attachment's) still finds that
 much time left. Such a write that does not is the only way the deadline slips; what happens to other sessions does
 not matter.
 */
module LspLease {
  import opened LspSessions
  import opened LspSessionSafety
  import opened LspRuns


  predicate LeaseOf(st: State, s: SessionId) {
    && s in st.refreshed
    && (s in st.redis <==> st.now < st.refreshed[s] + 600)
    && (s in st.redis ==> st.redis[s].expiresAt == st.refreshed[s] + 600)
    && st.refreshed[s] <= st.now
  }

  predicate StillLeft(st: State, s: SessionId, ttl: int) { s in st.redis && st.redis[s].expiresAt == st.now + ttl }

  /** If the step writes back a `ttl` of `s` read earlier, that is still the time the key has left. */
  predicate OnTime(st: State, step: Step, s: SessionId) {
    match step
    case UploadWrite(i) =>
      i in st.ops && st.ops[i].UploadWriting? && st.ops[i].s == s ==> StillLeft(st, s, st.ops[i].ttl)
    case ScanStore =>
      st.worker.scan.ScanWrite? && st.worker.scan.s == s ==> StillLeft(st, s, st.worker.scan.ttl)
    case _ => true
  }

  predicate Punctual(st: State, steps: seq<Step>, s: SessionId)
    decreases |steps|
  {
    steps != [] && Enabled(st, steps[0]) ==> OnTime(st, steps[0], s) && Punctual(Apply(st, steps[0]), steps[1..], s)
  }

  lemma {:induction false} IndivisibleRunsArePunctual(st: State, steps: seq<Step>, s: SessionId)
    requires AllAtomic(steps)
    ensures Punctual(st, steps, s)
    decreases |steps|
  {
    hide Apply, Enabled;
    if steps != [] && Enabled(st, steps[0]) {
      assert IsAtomic(steps[0]);
      assert AllAtomic(steps[1..]);
      IndivisibleRunsArePunctual(Apply(st, steps[0]), steps[1..], s);
    }
  }

  // ---- One step ----

  lemma AtomicKeepsLease(st: State, step: Step, s: SessionId)
    requires LeaseOf(st, s) && Enabled(st, step)
    ensures LeaseOf(ApplyAtomic(st, step), s)
  {
    hide ContainerNameOf, RootOf, Attach, Touch, Upload;
  }

  lemma SplitKeepsLease(st: State, step: Step, s: SessionId)
    requires LeaseOf(st, s) && Enabled(st, step) && OnTime(st, step, s)
    ensures LeaseOf(ApplySplit(st, step), s)
  {
    hide Touch, Upload;
  }

  lemma StartKeepsLease(st: State, step: Step, s: SessionId)
    requires LeaseOf(st, s) && Enabled(st, step) && OnTime(st, step, s)
    ensures LeaseOf(ApplyStart(st, step), s)
  {
    hide ContainerNameOf, RootOf, Attach;
  }

  lemma TickKeepsLease(st: State, n: nat, s: SessionId)
    requires LeaseOf(st, s)
    ensures LeaseOf(st.(now := st.now + n, redis := Live(st.redis, st.now + n)), s)
  {}

  lemma CreationLeases(st: State, r: SessionId, user: User, s: SessionId)
    requires s == r || LeaseOf(st, s)
    ensures LeaseOf(Create(st, r, user), s)
  {}

  lemma SameLease(st: State, t: State, s: SessionId)
    requires LeaseOf(st, s) && t.now == st.now && t.redis == st.redis && t.refreshed == st.refreshed
    ensures LeaseOf(t, s)
  {}

  lemma LeaseKept(st: State, step: Step, s: SessionId)
    requires LeaseOf(st, s) && Enabled(st, step) && OnTime(st, step, s)
    ensures LeaseOf(Apply(st, step), s)
  {
    hide LeaseOf, OnTime, Enabled, FamilyOf, Create, Live;
    hide ApplySplit, ApplyAtomic, ApplyGateway, ApplyScan, ApplyStart, ApplyClean;
    match FamilyOf(step)
    case ClockStep => TickKeepsLease(st, step.seconds, s);
    case Creation => CreationLeases(st, step.s, step.user, s);
    case SplitCall => SplitKeepsLease(st, step, s);
    case AtomicCall => AtomicKeepsLease(st, step, s);
    case GatewayCall => SameLease(st, ApplyGateway(st, step), s);
    case ScanStep => SameLease(st, ApplyScan(st, step), s);
    case StartStep => StartKeepsLease(st, step, s);
    case SweepStep => SameLease(st, ApplyClean(st, step), s);
  }

  /** A write of `s` that carries a stale `ttl` leaves the deadline somewhere else. */
  lemma LateWriteBreaksLease(st: State, step: Step, s: SessionId)
    requires Safe(st) && LeaseOf(st, s) && Enabled(st, step) && !OnTime(st, step, s)
    ensures !LeaseOf(Apply(st, step), s)
  {
    TtlIsPositive(st, step, s);
    hide Safe;
    match step
    case UploadWrite(i) => UploadWrites(st, i);
    case ScanStore => StartStores(st);
    hide Apply;
  }

  lemma TtlIsPositive(st: State, step: Step, s: SessionId)
    requires Safe(st) && Enabled(st, step) && !OnTime(st, step, s)
    ensures step.UploadWrite? ==> st.ops[step.i].ttl > 0
    ensures step.ScanStore? ==> st.worker.scan.ttl > 0
  {
    hide GoodRedis, GoodClients, GoodClean, GoodFleet, GoodMap, Known, GoodCopy;
    if step.UploadWrite? {
      assert GoodOp(st.ledger, st.ops[step.i]);
    }
  }

  /** A step leaves the deadline of `s` exact if and only if it is on time for `s`. */
  lemma LeaseKeptIff(st: State, step: Step, s: SessionId)
    requires Safe(st) && LeaseOf(st, s) && Enabled(st, step)
    ensures LeaseOf(Apply(st, step), s) <==> OnTime(st, step, s)
  {
    hide Safe, LeaseOf, OnTime, Apply, Enabled;
    if OnTime(st, step, s) {
      LeaseKept(st, step, s);
    } else {
      LateWriteBreaksLease(st, step, s);
    }
  }

  // ---- Runs ----

  lemma {:induction false} LeaseAlways(st: State, steps: seq<Step>, end: State, s: SessionId)
    requires LeaseOf(st, s) && Runs(st, steps, end) && Punctual(st, steps, s)
    ensures LeaseOf(end, s)
    decreases |steps|
  {
    hide LeaseOf, Apply, Enabled, OnTime;
    if steps != [] {
      LeaseKept(st, steps[0], s);
      LeaseAlways(Apply(st, steps[0]), steps[1..], end, s);
    }
  }

  /** The deadline of `s` is exact at every moment of the run. */
  predicate LeaseThroughout(st: State, steps: seq<Step>, s: SessionId)
    decreases |steps|
  {
    LeaseOf(st, s) && (steps != [] && Enabled(st, steps[0]) ==> LeaseThroughout(Apply(st, steps[0]), steps[1..], s))
  }

  lemma {:induction false} LeaseThroughoutIff(st: State, steps: seq<Step>, end: State, s: SessionId)
    requires Safe(st) && LeaseOf(st, s) && Runs(st, steps, end)
    ensures LeaseThroughout(st, steps, s) <==> Punctual(st, steps, s)
    decreases |steps|
  {
    hide Apply, Enabled, OnTime, LeaseOf, Safe;
    if steps != [] {
      LeaseKeptIff(st, steps[0], s);
      if OnTime(st, steps[0], s) {
        SafeKept(st, steps[0]);
        LeaseThroughoutIff(Apply(st, steps[0]), steps[1..], end, s);
      }
    }
  }

  lemma CreatorsAppear(st: State, step: Step, s: SessionId)
    requires Enabled(st, step) && s !in st.ledger.creators && s in Apply(st, step).ledger.creators
    ensures step.CreateSession? && step.s == s
    ensures LeaseOf(Apply(st, step), s)
  {
    StartCreatesNoSession(st, step);
    hide Enabled, FamilyOf, ApplySplit, ApplyAtomic, ApplyGateway, ApplyScan, ApplyStart, ApplyClean;
    match FamilyOf(step)
    case Creation => CreationLeases(st, step.s, step.user, s);
    case ClockStep =>
    case SplitCall =>
    case AtomicCall =>
    case GatewayCall =>
    case ScanStep =>
    case StartStep =>
    case SweepStep =>
  }

  lemma StartCreatesNoSession(st: State, step: Step)
    requires Enabled(st, step)
    ensures ApplyStart(st, step).ledger.creators == st.ledger.creators
  {
    hide ContainerNameOf, RootOf, Attach, Ttl;
  }

  lemma {:induction false} LeasedFromCreation(st: State, steps: seq<Step>, end: State, s: SessionId)
    requires s in st.ledger.creators ==> LeaseOf(st, s)
    requires Runs(st, steps, end) && Punctual(st, steps, s) && s in end.ledger.creators
    ensures LeaseOf(end, s)
    decreases |steps|
  {
    hide LeaseOf, Apply, Enabled, OnTime;
    if s in st.ledger.creators {
      LeaseAlways(st, steps, end, s);
    } else {
      var t := Apply(st, steps[0]);
      if s in t.ledger.creators {
        CreatorsAppear(st, steps[0], s);
      }
      LeasedFromCreation(t, steps[1..], end, s);
    }
  }

  /**
   In every run that is punctual for `s`, its key is there exactly for 600 seconds after its last refresh.
   */
  lemma LeaseIsExact(steps: seq<Step>, st: State, s: SessionId)
    requires Reachable(steps, st) && Punctual(INITIAL, steps, s) && s in st.ledger.creators
    ensures s in st.refreshed
    ensures s in st.redis <==> st.now - st.refreshed[s] < 600
    ensures s in st.redis ==> st.redis[s].expiresAt == st.refreshed[s] + 600
  {
    hide Runs, Punctual;
    LeasedFromCreation(INITIAL, steps, st, s);
  }

  // ---- When a write that carries an old `ttl` is late ----

  /**
   An upload asks for the time left and writes it back later. The write is on time exactly when, since the
   question, the clock and the last refresh have moved by the same amount: in practice, when neither has moved.
   */
  lemma UploadIsOnTimeIff(st: State, i: nat, s: SessionId, d: SessionData, steps: seq<Step>, end: State)
    requires LeaseOf(st, s) && i in st.ops && st.ops[i] == UploadReadingTtl(s, d) && Ttl(st, s) > 0
    requires var asked := Begin(st, i, UploadWriting(s, d, Ttl(st, s)));
             Runs(asked, steps, end) && Punctual(asked, steps, s)
    requires i in end.ops && end.ops[i] == UploadWriting(s, d, Ttl(st, s))
    ensures s in end.refreshed
    ensures OnTime(end, UploadWrite(i), s) <==> end.now - st.now == end.refreshed[s] - st.refreshed[s]
  {
    AskedIsOnTime(st, s, Begin(st, i, UploadWriting(s, d, Ttl(st, s))), steps, end);
  }

  /** The same for the attachment of a container. */
  lemma AttachmentIsOnTimeIff(
    st: State, s: SessionId, d: SessionData, rest: seq<SessionId>, steps: seq<Step>, end: State)
    requires LeaseOf(st, s) && st.worker.scan == ScanTtl(s, d, rest) && Ttl(st, s) > 0
    requires var asked := WithScan(st, ScanWrite(s, d, Ttl(st, s), rest));
             Runs(asked, steps, end) && Punctual(asked, steps, s)
    requires end.worker.scan == ScanWrite(s, d, Ttl(st, s), rest)
    ensures s in end.refreshed
    ensures OnTime(end, ScanStore, s) <==> end.now - st.now == end.refreshed[s] - st.refreshed[s]
  {
    AskedIsOnTime(st, s, WithScan(st, ScanWrite(s, d, Ttl(st, s), rest)), steps, end);
  }

  /** What a `ttl` read at `st` is worth at `end`. */
  lemma AskedIsOnTime(st: State, s: SessionId, asked: State, steps: seq<Step>, end: State)
    requires LeaseOf(st, s) && Ttl(st, s) > 0
    requires asked.now == st.now && asked.redis == st.redis && asked.refreshed == st.refreshed
    requires Runs(asked, steps, end) && Punctual(asked, steps, s)
    ensures s in end.refreshed
    ensures StillLeft(end, s, Ttl(st, s)) <==> end.now - st.now == end.refreshed[s] - st.refreshed[s]
  {
    hide Runs, Punctual;
    SameLease(st, asked, s);
    LeaseAlways(asked, steps, end, s);
  }

  // ---- Late uploads cut leases short ----

  /** A call that asked for the time left, `g` seconds, while the session is renewed. */
  function Uploading(g: int): Op { UploadWriting(SESSION, Upload(RECORD, "main.dart"), g) }

  function Waiting(g: int): State {
    Created().(now := SESSION_TTL - g, ops := map[0 := Uploading(g)])
  }

  lemma WaitingIsReached(g: int)
    requires 1 <= g < 600
    ensures Leads(INITIAL, Waiting(g))
  {
    hide RootOf, Upload, Leads;
    var d := Upload(RECORD, "main.dart");
    var later := Created().(now := SESSION_TTL - g);
    var read := later.(ops := map[0 := UploadReadingTtl(SESSION, d)]);
    CreatedIsReached();
    assert Live(Created().redis, SESSION_TTL - g) == Created().redis;
    Goes(INITIAL, Created(), Tick(SESSION_TTL - g), later);
    hide Apply, Enabled;
    UploadReads(later, 0, SESSION, ALICE, "main.dart");
    assert later.ops[0 := UploadReadingTtl(SESSION, d)] == map[0 := UploadReadingTtl(SESSION, d)];
    Goes(INITIAL, later, UploadRead(0, SESSION, ALICE, "main.dart"), read);
    UploadTimes(read, 0);
    assert read.ops[0 := Uploading(g)] == map[0 := Uploading(g)];
    Goes(INITIAL, read, UploadTtl(0), Waiting(g));
  }

  /** The renewal is granted in full. */
  function Renewed(g: int): State {
    Waiting(g).(
      redis := map[SESSION := Entry(RECORD, 2 * SESSION_TTL - g)],
      refreshed := map[SESSION := SESSION_TTL - g])
  }

  lemma RenewedIsReached(g: int)
    requires 1 <= g < 600
    ensures Leads(INITIAL, Renewed(g))
  {
    hide RootOf, Upload, Leads, Apply, Enabled;
    var st := Waiting(g);
    var asking := st.(ops := st.ops[1 := RenewExpiring(SESSION)]);
    WaitingIsReached(g);
    RenewReads(st, 1, SESSION, ALICE);
    Goes(INITIAL, st, RenewRead(1, SESSION, ALICE), asking);
    RenewExpires(asking, 1);
    assert asking.ops - {1} == st.ops;
    assert asking.redis[SESSION := Entry(RECORD, 2 * SESSION_TTL - g)] == Renewed(g).redis;
    assert asking.refreshed[SESSION := SESSION_TTL - g] == Renewed(g).refreshed;
    Goes(INITIAL, asking, RenewExpire(1), Renewed(g));
  }

  /**
   For every `g` from one second up to the full lease: some run grants a renewal, and `g` seconds later the key is
   gone, because an upload then wrote back the time it had read before.
   */
  lemma LateUploadCutsLease(g: int)
    requires 1 <= g < 600
    ensures exists st, s ::
              Leads(INITIAL, st) && s in st.ledger.creators && s !in st.redis
              && s in st.refreshed && st.now - st.refreshed[s] == g
  {
    hide RootOf, Upload, Leads;
    var st := Renewed(g);
    var cut := st.(ops := map[], redis := map[SESSION := Entry(Uploading(g).data, SESSION_TTL)]);
    var end := cut.(now := SESSION_TTL, redis := map[]);
    RenewedIsReached(g);
    UploadWrites(st, 0);
    assert st.ops - {0} == map[];
    assert st.redis[SESSION := Entry(Uploading(g).data, SESSION_TTL)] == cut.redis;
    Goes(INITIAL, st, UploadWrite(0), cut);
    assert Live(cut.redis, SESSION_TTL) == map[];
    Goes(INITIAL, cut, Tick(g), end);
    assert SESSION in end.ledger.creators && SESSION in end.refreshed;
  }

  // ---- Renewals ----

  /** The step asks Redis for a full lease of `s`: its owner's renewal, or a record of activity. */
  predicate Asks(st: State, step: Step, s: SessionId) {
    match step
    case RenewAtomic(r, user) => r == s && s in st.ledger.creators && user == st.ledger.creators[s]
    case RenewExpire(i) => i in st.ops && st.ops[i] == RenewExpiring(s)
    case ActivityAtomic(r) => r == s
    case ActivityWrite(i) => i in st.ops && st.ops[i].ActivityWriting? && st.ops[i].s == s
    case _ => false
  }

  /** Along the run a full lease is asked for at least every `gap` seconds; `last` is when it last was. */
  predicate AsksWithin(st: State, steps: seq<Step>, s: SessionId, last: int, gap: int)
    decreases |steps|
  {
    steps != [] && Enabled(st, steps[0]) ==>
      var t := Apply(st, steps[0]);
      var asked := if Asks(st, steps[0], s) then st.now else last;
      t.now - asked <= gap && AsksWithin(t, steps[1..], s, asked, gap)
  }

  /** What is asked for a key that is there is granted; a refresh never moves back, and moves only when asked for. */
  lemma RefreshedIff(st: State, step: Step, s: SessionId)
    requires Safe(st) && LeaseOf(st, s) && Enabled(st, step) && s in st.ledger.creators
    ensures var t := Apply(st, step);
            s in st.refreshed && s in t.ledger.creators && s in t.refreshed
            && st.refreshed[s] <= t.refreshed[s]
            && (Asks(st, step, s) && s in st.redis ==> t.refreshed[s] == st.now)
            && (!Asks(st, step, s) ==> t.refreshed[s] == st.refreshed[s])
  {
    OnlyTheseAsk(st, step, s);
    StepGrowsLedger(st, step);
    assert s in st.refreshed && st.refreshed[s] <= st.now;
    hide LeaseOf, Safe, Asks, Enabled, FamilyOf;
    hide ApplySplit, ApplyAtomic, ApplyGateway, ApplyScan, ApplyStart, ApplyClean;
    match FamilyOf(step)
    case Creation => CreatesFresh(st, step);
    case ClockStep =>
    case SplitCall => SplitRefreshesIff(st, step, s);
    case AtomicCall => AtomicRefreshes(st, step, s);
    case GatewayCall =>
    case ScanStep =>
    case StartStep =>
    case SweepStep =>
  }

  lemma SplitRefreshesIff(st: State, step: Step, s: SessionId)
    requires Enabled(st, step) && LeaseOf(st, s) && FamilyOf(step).SplitCall?
    ensures var t := ApplySplit(st, step);
            s in t.refreshed && st.refreshed[s] <= t.refreshed[s]
            && (Asks(st, step, s) && s in st.redis ==> t.refreshed[s] == st.now)
            && (!Asks(st, step, s) ==> t.refreshed[s] == st.refreshed[s])
  {
    hide ApplySplit, FamilyOf;
    if step.RenewExpire? || step.ActivityWrite? {
      SplitRefreshes(st, step, s);
    } else {
      SplitReadsRefreshNothing(st, step, s);
    }
  }

  lemma OnlyTheseAsk(st: State, step: Step, s: SessionId)
    ensures Asks(st, step, s) ==> FamilyOf(step).SplitCall? || FamilyOf(step).AtomicCall?
  {}

  lemma SplitRefreshes(st: State, step: Step, s: SessionId)
    requires Enabled(st, step) && LeaseOf(st, s)
    requires step.RenewExpire? || step.ActivityWrite?
    ensures var t := ApplySplit(st, step);
            s in t.refreshed && st.refreshed[s] <= t.refreshed[s]
            && (Asks(st, step, s) && s in st.redis ==> t.refreshed[s] == st.now)
            && (!Asks(st, step, s) ==> t.refreshed[s] == st.refreshed[s])
  {}

  lemma SplitReadsRefreshNothing(st: State, step: Step, s: SessionId)
    requires Enabled(st, step) && FamilyOf(step).SplitCall? && !step.RenewExpire? && !step.ActivityWrite?
    ensures ApplySplit(st, step).refreshed == st.refreshed && !Asks(st, step, s)
  {
    hide Touch, Upload;
  }

  lemma AtomicRefreshes(st: State, step: Step, s: SessionId)
    requires Safe(st) && Enabled(st, step) && LeaseOf(st, s) && FamilyOf(step).AtomicCall?
    ensures var t := ApplyAtomic(st, step);
            s in t.refreshed && st.refreshed[s] <= t.refreshed[s]
            && (Asks(st, step, s) && s in st.redis ==> t.refreshed[s] == st.now)
            && (!Asks(st, step, s) ==> t.refreshed[s] == st.refreshed[s])
  {
    hide Safe, Touch, Upload, Attach, Setex;
    if s in st.redis {
      OwnerIsCreator(st, s);
    }
    SetexRefreshesNothing();
  }

  lemma SetexRefreshesNothing()
    ensures forall st, s, d, ttl :: Setex(st, s, d, ttl).refreshed == st.refreshed
                                    && Setex(st, s, d, ttl).now == st.now
  {}

  lemma OwnerIsCreator(st: State, s: SessionId)
    requires Safe(st) && s in st.redis
    ensures s in st.ledger.creators && st.redis[s].data.userId == st.ledger.creators[s]
  {
    hide GoodOps, GoodClients, GoodClean, GoodFleet, GoodScan, GoodMap;
    assert GoodEntry(st.ledger, st.now, s, st.redis[s]);
  }

  /** A refresh that is granted makes the deadline exact, whatever it was before. */
  lemma RefreshRestoresLease(st: State, step: Step, s: SessionId)
    requires Safe(st) && Enabled(st, step) && Asks(st, step, s) && s in st.redis
    ensures LeaseOf(Apply(st, step), s)
  {
    hide Safe, Apply, Enabled, LeaseOf;
    match step
    case RenewAtomic(_, _) =>
      OwnerIsCreator(st, s);
      AtomicRestoresLease(st, step, s);
    case ActivityAtomic(_) => AtomicRestoresLease(st, step, s);
    case RenewExpire(i) =>
      RenewExpires(st, i);
      FreshLease(Apply(st, step), s);
    case ActivityWrite(i) =>
      ActivityWrites(st, i);
      FreshLease(Apply(st, step), s);
  }

  lemma FreshLease(st: State, s: SessionId)
    requires s in st.redis && st.redis[s].expiresAt == st.now + SESSION_TTL
    requires s in st.refreshed && st.refreshed[s] == st.now
    ensures LeaseOf(st, s)
  {}

  lemma AtomicRestoresLease(st: State, step: Step, s: SessionId)
    requires Enabled(st, step) && s in st.redis
    requires step == RenewAtomic(s, st.redis[s].data.userId) || step == ActivityAtomic(s)
    ensures LeaseOf(Apply(st, step), s)
  {
    hide Touch, ApplySplit, ApplyGateway, ApplyScan, ApplyStart, ApplyClean;
  }

  /** In a run that is punctual for it, asking more often than every 600 seconds keeps a session: all is granted. */
  lemma {:induction false} AskingKeepsSession(
    st: State, steps: seq<Step>, end: State, s: SessionId, last: int, gap: int)
    requires Safe(st) && LeaseOf(st, s) && Runs(st, steps, end) && Punctual(st, steps, s)
    requires s in st.ledger.creators && s in st.redis && last <= st.refreshed[s]
    requires gap < 600 && AsksWithin(st, steps, s, last, gap)
    ensures s in end.redis
    decreases |steps|
  {
    hide Safe, Apply, Enabled, OnTime, Asks;
    if steps != [] {
      var t := Apply(st, steps[0]);
      var asked := if Asks(st, steps[0], s) then st.now else last;
      SafeKept(st, steps[0]);
      LeaseKept(st, steps[0], s);
      RefreshedIff(st, steps[0], s);
      AskingKeepsSession(t, steps[1..], end, s, asked, gap);
    }
  }

  /** The client's five-minute timer is enough in such a run, given under five minutes of delay on the way. */
  lemma ClientTimerKeepsSession(
    before: seq<Step>, st: State, steps: seq<Step>, end: State, s: SessionId, last: int, delay: int)
    requires Reachable(before, st) && LeaseOf(st, s) && Runs(st, steps, end) && Punctual(st, steps, s)
    requires s in st.ledger.creators && s in st.redis && last <= st.refreshed[s]
    requires delay < 300 && AsksWithin(st, steps, s, last, 300 + delay)
    ensures s in end.redis
  {
    hide Apply, Enabled, Safe, Runs, Punctual, AsksWithin;
    ReachableIsSafe(before, st);
    AskingKeepsSession(st, steps, end, s, last, 300 + delay);
  }

  predicate NeverAsks(st: State, steps: seq<Step>, s: SessionId)
    decreases |steps|
  {
    steps != [] && Enabled(st, steps[0]) ==>
      !Asks(st, steps[0], s) && NeverAsks(Apply(st, steps[0]), steps[1..], s)
  }

  lemma {:induction false} NothingRefreshes(st: State, steps: seq<Step>, end: State, s: SessionId)
    requires Safe(st) && LeaseOf(st, s) && Runs(st, steps, end) && Punctual(st, steps, s)
    requires s in st.ledger.creators && NeverAsks(st, steps, s)
    ensures s in end.refreshed && end.refreshed[s] == st.refreshed[s]
    decreases |steps|
  {
    hide Safe, Apply, Enabled, OnTime, Asks;
    if steps != [] {
      SafeKept(st, steps[0]);
      LeaseKept(st, steps[0], s);
      RefreshedIff(st, steps[0], s);
      NothingRefreshes(Apply(st, steps[0]), steps[1..], end, s);
    }
  }

  /** With nothing else going on for `s`, one missed renewal is one too many: the next is due as the key expires. */
  lemma OneMissedRenewalIsFatal(before: seq<Step>, st: State, steps: seq<Step>, end: State, s: SessionId)
    requires Reachable(before, st) && LeaseOf(st, s) && Runs(st, steps, end) && Punctual(st, steps, s)
    requires s in st.ledger.creators && st.refreshed[s] == st.now && NeverAsks(st, steps, s)
    ensures s in end.redis <==> end.now < st.now + 2 * 300
  {
    hide Apply, Enabled, Safe, Runs, Punctual, NeverAsks;
    ReachableIsSafe(before, st);
    LeaseAlways(st, steps, end, s);
    NothingRefreshes(st, steps, end, s);
  }
}
