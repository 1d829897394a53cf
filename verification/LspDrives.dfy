/** Runs that exist from any state: the scan and the sweep can be brought to rest, and a sweep to its end. */
module LspDrives {
  import opened Sequences
  import opened LspSessions
  import opened LspSessionSafety
  import opened LspRuns
  import opened LspNames
  import opened LspLostUpdates

  // ---- The scan comes to rest ----

  /** What the scan has in hand for the map, if it is let go on until it has to ask again. */
  function Settled(w: Worker): map<SessionId, ContainerId> {
    match w.scan
    case ScanGot(s, d, _) => if d.containerId.Some? then w.containerMap[s := d.containerId.value] else w.containerMap
    case ScanStarted(s, c, _) => w.containerMap[s := c]
    case _ => w.containerMap
  }

  function Rested(st: State): State {
    st.(worker := st.worker.(scan := ScanIdle, containerMap := Settled(st.worker)))
  }

  lemma {:induction false} ListSettles(st: State)
    requires st.worker.scan.ScanAt?
    ensures Leads(st, WithScan(st, ScanIdle))
    decreases |st.worker.scan.keys|
  {
    hide Leads, Apply, Enabled;
    Stays(st);
    var keys := st.worker.scan.keys;
    if keys == [] {
      ScanEnds(st);
      Goes(st, st, ScanNext, WithScan(st, ScanIdle));
    } else {
      var s, rest := keys[0], keys[1..];
      assert keys == [s] + rest;
      ScanAdvances(st, s, rest);
      if s in st.worker.containerMap {
        var next := WithScan(st, ScanAt(rest));
        Goes(st, st, ScanNext, next);
        ListSettles(next);
        Joins(st, next, WithScan(st, ScanIdle));
      } else {
        var get := WithScan(st, ScanGet(s, rest));
        Goes(st, st, ScanNext, get);
        ScanGivesUp(get);
        Goes(st, get, ScanFails, WithScan(st, ScanIdle));
      }
    }
  }

  lemma GivesUpAndSettles(st: State)
    requires MayThrow(st.worker.scan)
    ensures Leads(st, WithScan(st, ScanIdle))
  {
    hide Leads, Apply, Enabled;
    Stays(st);
    ScanGivesUp(st);
    if st.worker.scan.ScanGet? {
      Goes(st, st, ScanFails, WithScan(st, ScanIdle));
    } else {
      var next := WithScan(st, ScanAt(st.worker.scan.rest));
      Goes(st, st, ScanFails, next);
      ListSettles(next);
      Joins(st, next, WithScan(st, ScanIdle));
    }
  }

  lemma StartedSettles(st: State)
    requires st.worker.scan.ScanStarted?
    ensures Leads(st, Rested(st))
  {
    hide Leads, Apply, Enabled;
    var ScanStarted(s, c, rest) := st.worker.scan;
    var recorded :=
      st.(worker := st.worker.(scan := ScanReget(s, c, rest), containerMap := st.worker.containerMap[s := c]));
    Stays(st);
    StartRecords(st);
    Goes(st, st, ScanRecord, recorded);
    GivesUpAndSettles(recorded);
    Joins(st, recorded, Rested(st));
  }

  lemma GotSettles(st: State)
    requires st.worker.scan.ScanGot?
    ensures Leads(st, Rested(st))
  {
    hide Leads, Apply, Enabled;
    var ScanGot(s, d, rest) := st.worker.scan;
    Stays(st);
    ScanDecides(st);
    if d.containerId.Some? {
      var next := WithScan(st, ScanAt(rest)).(
        worker := st.worker.(scan := ScanAt(rest), containerMap := st.worker.containerMap[s := d.containerId.value]));
      Goes(st, st, ScanDecide, next);
      ListSettles(next);
      Joins(st, next, Rested(st));
    } else {
      var next := WithScan(st, ScanCreate(s, rest));
      Goes(st, st, ScanDecide, next);
      GivesUpAndSettles(next);
      Joins(st, next, Rested(st));
    }
  }

  lemma ScanSettles(st: State)
    ensures Leads(st, Rested(st))
  {
    hide Leads;
    match st.worker.scan
    case ScanIdle =>
      Stays(st);
      assert Rested(st) == st;
    case ScanAt(_) => ListSettles(st);
    case ScanGot(_, _, _) => GotSettles(st);
    case ScanStarted(_, _, _) => StartedSettles(st);
    case _ => GivesUpAndSettles(st);
  }

  // ---- A sweep comes to its end ----

  /** `end` is `st` after a sweep that stopped nothing and forgot `gone`, and perhaps others whose keys are missing. */
  predicate SweptTo(st: State, end: State, gone: set<SessionId>) {
    && end == st.(worker := st.worker.(
                  clean := CleanIdle, containerMap := end.worker.containerMap, stopRefused := end.worker.stopRefused))
    && end.worker.containerMap.Keys <= st.worker.containerMap.Keys - gone
  }

  lemma {:induction false} SweepFinishes(st: State) returns (end: State)
    requires st.worker.clean.CleanAt?
    ensures Leads(st, end) && SweptTo(st, end, st.worker.clean.expired)
    decreases st.worker.containerMap.Keys - st.worker.clean.visited
  {
    hide Leads, Apply, Enabled;
    Stays(st);
    var CleanAt(visited, expired) := st.worker.clean;
    if st.worker.containerMap.Keys <= visited {
      SweepCloses(st);
      end := st.(worker := st.worker.(clean := CleanIdle, containerMap := st.worker.containerMap - expired));
      Goes(st, st, CleanEnd, end);
    } else {
      var s :| s in st.worker.containerMap.Keys && s !in visited;
      var next := SweepPasses(st, s);
      end := SweepFinishes(next);
      Joins(st, next, end);
    }
  }

  /** The sweep looks at one more entry, and does not get to stop its container. */
  lemma SweepPasses(st: State, s: SessionId) returns (next: State)
    requires st.worker.clean.CleanAt? && s in st.worker.containerMap && s !in st.worker.clean.visited
    ensures Leads(st, next) && next.worker.clean.CleanAt? && next.worker.clean.visited == st.worker.clean.visited + {s}
    ensures st.worker.clean.expired <= next.worker.clean.expired
    ensures next == st.(worker := st.worker.(clean := next.worker.clean, stopRefused := next.worker.stopRefused))
  {
    hide Leads, Apply, Enabled;
    var CleanAt(visited, expired) := st.worker.clean;
    var c := st.worker.containerMap[s];
    var picked := WithClean(st, CleanExists(s, c, visited + {s}, expired));
    Stays(st);
    SweepPicks(st, s);
    Goes(st, st, CleanPick(s), picked);
    SweepChecks(picked);
    if s in st.redis {
      next := WithClean(st, CleanAt(visited + {s}, expired));
      Goes(st, picked, CleanCheck, next);
    } else {
      var stopping := WithClean(st, CleanStop(s, c, visited + {s}, expired + {s}));
      Goes(st, picked, CleanCheck, stopping);
      SweepHalts(stopping);
      next := st.(worker := st.worker.(
        clean := CleanAt(visited + {s}, expired + {s}), stopRefused := st.worker.stopRefused + {c}));
      Goes(st, stopping, CleanStopRefused, next);
    }
  }

  // ---- A sweep is broken off ----

  /** An id of a session that neither exists nor is in `taken`. */
  lemma FreshSession(taken: set<SessionId>) returns (s: SessionId)
    ensures s !in taken
  {
    var ulid: string := "";
    var left := taken;
    while left != {}
      invariant left <= taken && forall k :: k in taken && k !in left ==> |k.ulid| < |ulid|
      decreases left
    {
      var k :| k in left;
      left := left - {k};
      while |ulid| <= |k.ulid|
        invariant forall r :: r in taken && r !in left && r != k ==> |r.ulid| < |ulid|
        decreases |k.ulid| - |ulid|
      {
        ulid := ulid + "0";
      }
    }
    s := SessionId(ulid);
  }

  /** All of a set, in some order, `first` at the head. */
  lemma Listing(keys: set<SessionId>, first: SessionId) returns (rest: seq<SessionId>)
    requires first in keys
    ensures (set k | k in [first] + rest) == keys
  {
    rest := [];
    var left := keys;
    while left != {}
      invariant left <= keys && forall k :: k in keys <==> k in left || k in rest
      decreases left
    {
      var k :| k in left;
      left := left - {k};
      rest := rest + [k];
    }
  }

  /** Nothing about `s` has changed, except that containers may have started elsewhere. */
  predicate SameFor(st: State, end: State, s: SessionId) {
    && end.now == st.now && end.ops == st.ops
    && (s in end.redis <==> s in st.redis) && (s in st.redis ==> end.redis[s] == st.redis[s])
    && (s in end.worker.names <==> s in st.worker.names)
    && (s in st.worker.names ==> end.worker.names[s] == st.worker.names[s])
    && (s in end.worker.containerMap <==> s in st.worker.containerMap)
    && (s in st.worker.containerMap ==> end.worker.containerMap[s] == st.worker.containerMap[s])
    && st.worker.running <= end.worker.running
    && (s in st.ledger.creators ==> s in end.ledger.creators)
  }

  lemma NewHasNoName(st: State, s: SessionId)
    requires Sound(st) && s !in st.ledger.creators
    ensures s !in st.worker.names && s !in st.worker.containerMap
  {
    hide GoodRedis, GoodOps, GoodClients, GoodScan, Containers;
    assert s in st.worker.names ==> Made(st.ledger, s, st.worker.names[s]);
    assert s in st.worker.containerMap ==> Made(st.ledger, s, st.worker.containerMap[s]);
  }

  /** Listed for the scan, a session that is new has nothing yet. */
  lemma AnotherSession(st: State, s: SessionId, visited: set<SessionId>)
    returns (listed: State, r: SessionId, rest: seq<SessionId>)
    requires Sound(st) && st.worker.scan == ScanIdle && s in st.ledger.creators
    ensures Leads(st, listed) && SameFor(st, listed, s) && listed.worker.clean == st.worker.clean
    ensures Due(listed, r, rest) && r !in visited && r != s
  {
    hide Leads, Apply, Enabled, Sound, RootOf;
    r := FreshSession(st.ledger.creators.Keys + visited);
    NewHasNoName(st, r);
    var d := SessionData("", RootOf(r), None, None, [], None);
    var created := st.(redis := st.redis[r := Entry(d, st.now + SESSION_TTL)],
      refreshed := st.refreshed[r := st.now],
      ledger := st.ledger.(creators := st.ledger.creators[r := ""]));
    Stays(st);
    Creates(st, r, "");
    Goes(st, st, CreateSession(r, ""), created);
    rest := Listing(created.redis.Keys, r);
    listed := WithScan(created, ScanAt([r] + rest));
    ScanLists(created, [r] + rest);
    Goes(st, created, ScanKeys([r] + rest), listed);
  }

  /** A session is created and given a container, while the sweep stands. */
  lemma AnotherEntry(st: State, s: SessionId, visited: set<SessionId>) returns (next: State, r: SessionId)
    requires Sound(st) && st.worker.scan == ScanIdle && s in st.ledger.creators
    ensures Leads(st, next) && SameFor(st, next, s) && next.worker.clean == st.worker.clean
    ensures next.worker.scan.ScanAt? && r in next.worker.containerMap && r !in visited
  {
    hide Leads, LeadsIndivisibly, Apply, Enabled, Sound, Due, SameFor;
    var listed, q, rest := AnotherSession(st, s, visited);
    r := q;
    var c := FreshContainer(listed.ledger.owners);
    RecordingIsReached(listed, r, c, rest);
    var recording := Recording(listed, r, c, rest);
    IndivisiblyLeads(listed, recording);
    Joins(st, listed, recording);
    ScanGivesUp(recording);
    next := WithScan(recording, ScanAt(rest));
    Goes(st, recording, ScanFails, next);
    EntryElsewhere(st, listed, s, r, c, rest);
  }

  lemma EntryElsewhere(st: State, listed: State, s: SessionId, r: SessionId, c: ContainerId, rest: seq<SessionId>)
    requires SameFor(st, listed, s) && r != s
    ensures SameFor(st, WithScan(Recording(listed, r, c, rest), ScanAt(rest)), s)
  {}

  /** A failing `exists` breaks a sweep off, with nothing forgotten. */
  lemma PickFails(st: State, r: SessionId)
    requires st.worker.clean.CleanAt? && r in st.worker.containerMap && r !in st.worker.clean.visited
    ensures Leads(st, WithClean(st, CleanIdle))
  {
    hide Leads, Apply, Enabled;
    var CleanAt(visited, expired) := st.worker.clean;
    var picked := WithClean(st, CleanExists(r, st.worker.containerMap[r], visited + {r}, expired));
    Stays(st);
    SweepPicks(st, r);
    Goes(st, st, CleanPick(r), picked);
    SweepChecks(picked);
    Goes(st, picked, CleanFails, WithClean(st, CleanIdle));
  }

  lemma SameSession(st: State, next: State, end: State, s: SessionId)
    requires SameFor(st, next, s)
    requires end == next.(worker := next.worker.(
                       scan := end.worker.scan, clean := end.worker.clean, stopRefused := end.worker.stopRefused))
    ensures SameFor(st, end, s)
  {}

  lemma Same(st: State, s: SessionId)
    ensures SameFor(st, st, s)
  {}

  lemma SameJoins(st: State, mid: State, end: State, s: SessionId)
    requires SameFor(st, mid, s) && SameFor(mid, end, s)
    ensures SameFor(st, end, s)
  {}

  lemma StandingSweepBreaks(st: State, s: SessionId) returns (end: State)
    requires Sound(st) && st.worker.scan == ScanIdle && st.worker.clean.CleanAt? && s in st.ledger.creators
    ensures Leads(st, end) && SameFor(st, end, s) && end.worker.clean == CleanIdle && end.worker.scan == ScanIdle
  {
    hide Leads, Sound, SameFor;
    var next, r := AnotherEntry(st, s, st.worker.clean.visited);
    PickFails(next, r);
    var broken := WithClean(next, CleanIdle);
    Joins(st, next, broken);
    ListSettles(broken);
    end := WithScan(broken, ScanIdle);
    Joins(st, broken, end);
    SameSession(st, next, end, s);
  }

  /** A sweep that is busy with a container lets go of it, or breaks off. */
  lemma SweepStands(st: State) returns (end: State)
    ensures Leads(st, end) && (end.worker.clean.CleanAt? || end.worker.clean.CleanIdle?)
    ensures end == st.(worker := st.worker.(clean := end.worker.clean, stopRefused := end.worker.stopRefused))
  {
    hide Leads, Apply, Enabled;
    Stays(st);
    end := st;
    match st.worker.clean
    case CleanIdle =>
    case CleanAt(_, _) =>
    case CleanExists(_, _, _, _) =>
      SweepChecks(st);
      end := WithClean(st, CleanIdle);
      Goes(st, st, CleanFails, end);
    case CleanStop(_, c, visited, expired) =>
      SweepHalts(st);
      end := st.(worker := st.worker.(
        clean := CleanAt(visited, expired), stopRefused := st.worker.stopRefused + {c}));
      Goes(st, st, CleanStopRefused, end);
    case CleanRemove(_, _, visited, expired) =>
      SweepRemoves(st);
      end := WithClean(st, CleanAt(visited, expired));
      Goes(st, st, CleanRemoveRefused, end);
  }

  /** Wherever the sweep is, it can come to rest with nothing changed for `s`. */
  lemma SweepBreaks(st: State, s: SessionId) returns (end: State)
    requires Sound(st) && st.worker.scan == ScanIdle && s in st.ledger.creators
    ensures Leads(st, end) && SameFor(st, end, s) && end.worker.clean == CleanIdle && end.worker.scan == ScanIdle
  {
    hide Leads, Sound, SameFor;
    var next := SweepStands(st);
    Same(st, s);
    SameSession(st, st, next, s);
    LeadsKeepsSound(st, next);
    if next.worker.clean.CleanIdle? {
      end := next;
    } else {
      end := StandingSweepBreaks(next, s);
      Joins(st, next, end);
      SameJoins(st, next, end, s);
    }
  }

  lemma FreshCall(ops: map<nat, Op>) returns (i: nat)
    ensures i !in ops
  {
    i := 0;
    var left := ops.Keys;
    while left != {}
      invariant left <= ops.Keys && forall k :: k in ops.Keys && k !in left ==> k < i
      decreases left
    {
      var k :| k in left;
      left := left - {k};
      if k >= i {
        i := k + 1;
      }
    }
  }
}
