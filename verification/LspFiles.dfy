/**
 What writing a session's record may change in it, field by field, and what follows for the files it lists: no copy
 of a record ever lists a file twice, indivisible updates never lose one, and split ones lose one exactly when a copy in
 flight lacks it.
 */
module LspFiles {
  import opened Sequences
  import opened LspSessions
  import opened LspSessionSafety
  import opened LspRuns
  import opened LspLiveSessions
  import opened LspAttachment

  // ---- Where copies come from ----

  /** `d` is `d0`, or `d0` with one thing done to it at `now`: touched, given a file, or given a container. */
  predicate Edited(now: int, s: SessionId, d0: SessionData, d: SessionData) {
    || d == d0
    || d == d0.(lastActivity := Some(now))
    || (d.uploadedFiles != [] && var file := d.uploadedFiles[|d.uploadedFiles| - 1];
        file !in d0.uploadedFiles && d == d0.(uploadedFiles := d0.uploadedFiles + [file]))
    || (d.containerId.Some?
        && d == d0.(containerId := d.containerId, containerName := Some("lsp-" + s.ulid),
                    workspaceRoot := "/lsp-files/" + s.ulid))
  }

  lemma EditsAreEdits(d: SessionData, now: int, file: string, s: SessionId, c: ContainerId)
    ensures Edited(now, s, d, Touch(d, now)) && Edited(now, s, d, Upload(d, file)) && Edited(now, s, d, Attach(d, s, c))
  {}

  lemma StoredIsCopy(st: State, s: SessionId)
    ensures s in st.redis ==> IsCopy(st, s, st.redis[s].data)
    ensures forall i :: i in st.ops && CopyIn(st.ops[i]).Some? ==>
              IsCopy(st, CopyIn(st.ops[i]).value.0, CopyIn(st.ops[i]).value.1)
    ensures forall d :: HeldByScan(st.worker.scan, s, d) ==> IsCopy(st, s, d)
  {}

  lemma SplitCopies(st: State, step: Step, s: SessionId, d: SessionData)
    requires Enabled(st, step) && IsCopy(ApplySplit(st, step), s, d)
    ensures IsCopy(st, s, d) || (s in st.redis && Edited(st.now, s, st.redis[s].data, d))
  {
    hide Edited, Touch, Upload, Attach;
    if s in st.redis {
      EditsAreEdits(st.redis[s].data, st.now, if step.UploadRead? then step.file else "", s, 0);
    }
  }

  lemma AtomicCopies(st: State, step: Step, s: SessionId, d: SessionData)
    requires Enabled(st, step) && IsCopy(ApplyAtomic(st, step), s, d)
    ensures IsCopy(st, s, d) || (s in st.redis && Edited(st.now, s, st.redis[s].data, d))
  {
    hide Edited, Touch, Upload, Attach;
    if s in st.redis {
      var c := if st.worker.scan.ScanReget? then st.worker.scan.c else 0;
      EditsAreEdits(st.redis[s].data, st.now, if step.UploadAtomic? then step.file else "", s, c);
    }
  }

  lemma GatewayCopies(st: State, step: Step, s: SessionId, d: SessionData)
    requires Enabled(st, step) && IsCopy(ApplyGateway(st, step), s, d)
    ensures IsCopy(st, s, d)
  {
    StoredIsCopy(st, s);
  }

  lemma ScanCopies(st: State, step: Step, s: SessionId, d: SessionData)
    requires Enabled(st, step) && IsCopy(ApplyScan(st, step), s, d)
    ensures IsCopy(st, s, d)
  {}

  lemma StartCopies(st: State, step: Step, s: SessionId, d: SessionData)
    requires Enabled(st, step) && IsCopy(ApplyStart(st, step), s, d)
    ensures IsCopy(st, s, d) || (s in st.redis && Edited(st.now, s, st.redis[s].data, d))
  {
    hide Edited, Attach;
    if s in st.redis && st.worker.scan.ScanReget? {
      EditsAreEdits(st.redis[s].data, st.now, "", s, st.worker.scan.c);
    }
  }

  lemma SweepCopies(st: State, step: Step, s: SessionId, d: SessionData)
    requires Enabled(st, step) && IsCopy(ApplyClean(st, step), s, d)
    ensures IsCopy(st, s, d)
  {}

  lemma CreationCopies(st: State, r: SessionId, user: User, s: SessionId, d: SessionData)
    requires IsCopy(Create(st, r, user), s, d)
    ensures IsCopy(st, s, d)
            || (s == r && d == SessionData(user, "/lsp-files/" + s.ulid, None, None, [], None))
  {}

  lemma TickCopies(st: State, n: nat, s: SessionId, d: SessionData)
    requires IsCopy(st.(now := st.now + n, redis := Live(st.redis, st.now + n)), s, d)
    ensures IsCopy(st, s, d)
  {}

  /**
   Every copy of a record, in Redis or in flight, is the record as it was created, a copy that was there before the
   step, or the stored record with one edit.
   */
  lemma EveryCopyComesFromOne(st: State, step: Step, s: SessionId, d: SessionData)
    requires Enabled(st, step) && IsCopy(Apply(st, step), s, d)
    ensures (step.CreateSession? && s == step.s
             && d == SessionData(step.user, "/lsp-files/" + s.ulid, None, None, [], None))
            || IsCopy(st, s, d) || (s in st.redis && Edited(st.now, s, st.redis[s].data, d))
  {
    hide IsCopy, Edited, Enabled, FamilyOf, Create, Live;
    hide ApplySplit, ApplyAtomic, ApplyGateway, ApplyScan, ApplyStart, ApplyClean;
    match FamilyOf(step)
    case ClockStep => TickCopies(st, step.seconds, s, d);
    case Creation => CreationCopies(st, step.s, step.user, s, d);
    case SplitCall => SplitCopies(st, step, s, d);
    case AtomicCall => AtomicCopies(st, step, s, d);
    case GatewayCall => GatewayCopies(st, step, s, d);
    case ScanStep => ScanCopies(st, step, s, d);
    case StartStep => StartCopies(st, step, s, d);
    case SweepStep => SweepCopies(st, step, s, d);
  }

  // ---- No file is listed twice ----

  predicate NoRepeats(files: seq<string>) { forall i, j :: 0 <= i < j < |files| ==> files[i] != files[j] }

  lemma EditKeepsNoRepeats(now: int, s: SessionId, d0: SessionData, d: SessionData)
    requires NoRepeats(d0.uploadedFiles) && Edited(now, s, d0, d)
    ensures NoRepeats(d.uploadedFiles)
  {}

  ghost predicate AllDistinct(st: State) { forall s, d :: IsCopy(st, s, d) ==> NoRepeats(d.uploadedFiles) }

  lemma {:induction false} DistinctAlways(st: State, steps: seq<Step>, end: State)
    requires AllDistinct(st) && Runs(st, steps, end)
    ensures AllDistinct(end)
    decreases |steps|
  {
    if steps != [] {
      var next := Apply(st, steps[0]);
      hide Apply, Enabled, IsCopy, Edited, NoRepeats;
      forall s, d | IsCopy(next, s, d) ensures NoRepeats(d.uploadedFiles) {
        EveryCopyComesFromOne(st, steps[0], s, d);
        StoredIsCopy(st, s);
        if s in st.redis && Edited(st.now, s, st.redis[s].data, d) {
          EditKeepsNoRepeats(st.now, s, st.redis[s].data, d);
        }
        NothingRepeats();
      }
      DistinctAlways(next, steps[1..], end);
    }
  }

  lemma NothingRepeats()
    ensures NoRepeats([])
  {}

  /** Whatever interleaves, no copy of any record lists a file twice. */
  lemma FilesAreDistinct(steps: seq<Step>, st: State, s: SessionId, d: SessionData)
    requires Reachable(steps, st) && IsCopy(st, s, d)
    ensures forall i, j :: 0 <= i < j < |d.uploadedFiles| ==> d.uploadedFiles[i] != d.uploadedFiles[j]
  {
    NoCopyAtFirst();
    hide Runs, IsCopy;
    DistinctAlways(INITIAL, steps, st);
  }

  lemma NoCopyAtFirst()
    ensures AllDistinct(INITIAL)
  {}

  // ---- Indivisible updates lose nothing ----

  lemma AtomicEdits(st: State, step: Step, s: SessionId)
    requires Enabled(st, step) && s in st.redis && s in ApplyAtomic(st, step).redis
    ensures Edited(st.now, s, st.redis[s].data, ApplyAtomic(st, step).redis[s].data)
  {
    hide Edited, Touch, Upload, Attach;
    var c := if st.worker.scan.ScanReget? then st.worker.scan.c else 0;
    EditsAreEdits(st.redis[s].data, st.now, if step.UploadAtomic? then step.file else "", s, c);
    Unedited(st.now, s, st.redis[s].data);
  }

  lemma Unedited(now: int, s: SessionId, d: SessionData)
    ensures Edited(now, s, d, d)
  {}

  lemma OnlyFailureIsAtomic(st: State, step: Step)
    requires Enabled(st, step) && IsAtomic(step)
    ensures FamilyOf(step).SplitCall? ==> ApplySplit(st, step).redis == st.redis
    ensures FamilyOf(step).StartStep? ==> ApplyStart(st, step).redis == st.redis
  {}

  lemma CreationSpares(st: State, r: SessionId, user: User, s: SessionId)
    requires Safe(st) && r !in st.ledger.creators && s in st.redis
    ensures s in Create(st, r, user).redis && Create(st, r, user).redis[s] == st.redis[s]
  {
    assert GoodEntry(st.ledger, st.now, s, st.redis[s]);
  }

  /** An indivisible update of a record that stays is one edit of it. */
  lemma IndivisiblyEdited(st: State, step: Step, s: SessionId)
    requires Safe(st) && Enabled(st, step) && IsAtomic(step) && s in st.redis && s in Apply(st, step).redis
    ensures Edited(st.now, s, st.redis[s].data, Apply(st, step).redis[s].data)
  {
    Unedited(st.now, s, st.redis[s].data);
    OnlyFailureIsAtomic(st, step);
    hide Safe, Edited, Enabled, IsAtomic, FamilyOf, Create;
    hide ApplySplit, ApplyAtomic, ApplyGateway, ApplyScan, ApplyStart, ApplyClean;
    match FamilyOf(step)
    case ClockStep =>
    case Creation =>
      CreatesFresh(st, step);
      CreationSpares(st, step.s, step.user, s);
    case SplitCall =>
    case AtomicCall => AtomicEdits(st, step, s);
    case GatewayCall =>
    case ScanStep =>
    case StartStep =>
    case SweepStep =>
  }

  lemma StoredIsCreated(st: State, s: SessionId)
    requires Safe(st) && s in st.redis
    ensures s in st.ledger.creators
  {
    assert GoodEntry(st.ledger, st.now, s, st.redis[s]);
  }

  lemma EditKeepsFiles(now: int, s: SessionId, d0: SessionData, d: SessionData)
    requires Edited(now, s, d0, d)
    ensures d0.uploadedFiles <= d.uploadedFiles
  {}

  lemma {:induction false} FilesGrow(st: State, steps: seq<Step>, end: State, s: SessionId)
    requires Safe(st) && Runs(st, steps, end) && AllAtomic(steps)
    requires s in st.redis && s in end.redis
    ensures st.redis[s].data.uploadedFiles <= end.redis[s].data.uploadedFiles
    decreases |steps|
  {
    if steps != [] {
      var next := Apply(st, steps[0]);
      assert IsAtomic(steps[0]) && AllAtomic(steps[1..]);
      SafeKept(st, steps[0]);
      StoredIsCreated(st, s);
      hide Apply, Enabled, Safe, IsAtomic, Edited;
      if s in next.redis {
        IndivisiblyEdited(st, steps[0], s);
        EditKeepsFiles(st.now, s, st.redis[s].data, next.redis[s].data);
        FilesGrow(next, steps[1..], end, s);
      } else {
        assert Gone(next, s) by { StepKeepsCreators(st, steps[0], s); }
        IndivisiblyGoneForever(next, steps[1..], end, s);
        assert false;
      }
    }
  }

  lemma StepKeepsCreators(st: State, step: Step, s: SessionId)
    requires Enabled(st, step) && s in st.ledger.creators
    ensures s in Apply(st, step).ledger.creators
  {
    hide Apply, Enabled;
    StepGrowsLedger(st, step);
  }

  /** With indivisible updates the list of a key that stays only gets longer, at its end, and lists no file twice. */
  lemma IndivisibleFilesGrow(before: seq<Step>, st: State, steps: seq<Step>, end: State, s: SessionId)
    requires Reachable(before, st) && Runs(st, steps, end) && AllAtomic(steps) && s in st.redis && s in end.redis
    ensures st.redis[s].data.uploadedFiles <= end.redis[s].data.uploadedFiles
    ensures var files := end.redis[s].data.uploadedFiles;
            forall i, j :: 0 <= i < j < |files| ==> files[i] != files[j]
  {
    ReachableIsSafe(before, st);
    NoCopyAtFirst();
    StoredIsCopy(end, s);
    hide Runs, IsCopy, Safe, AllAtomic;
    DistinctAlways(INITIAL, before, st);
    DistinctAlways(st, steps, end);
    FilesGrow(st, steps, end, s);
  }

  // ---- Split updates lose what a copy in flight lacks ----

  /** A call in flight, or the scan, holds a copy of the record without the file. */
  ghost predicate LackingCopy(st: State, s: SessionId, file: string) {
    || (exists i :: i in st.ops && Lacks(st.ops[i], s, file))
    || ((st.worker.scan.ScanTtl? || st.worker.scan.ScanWrite?) && st.worker.scan.s == s
        && file !in st.worker.scan.data.uploadedFiles)
  }

  predicate Lacks(op: Op, s: SessionId, file: string) {
    (op.ActivityWriting? || op.UploadReadingTtl? || op.UploadWriting?) && op.s == s && file !in op.data.uploadedFiles
  }

  /** A recorded file is missing from the record in some run exactly when a copy in flight is without it. */
  lemma FileIsLostIff(st: State, s: SessionId, file: string)
    requires Safe(st) && s in st.redis && file in st.redis[s].data.uploadedFiles
    ensures (exists end :: Leads(st, end) && s in end.redis && file !in end.redis[s].data.uploadedFiles)
            <==> LackingCopy(st, s, file)
  {
    hide Safe, Leads;
    RecordKeepsAgreeingIff(st, s, Lists(file));
    assert forall i :: i in st.ops ==> (Lacks(st.ops[i], s, file) <==> RivalCopy(st.ops[i], s, Lists(file)));
  }
}
