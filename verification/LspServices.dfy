/**
 The code that takes the steps of `LspSessions`: the API server's calls, the worker's scan and its sweep, each in
 the form the source has them. At every await the rest of the system may do anything (`Others`), and what the
 code does in between is still a run of the step relation. So whatever holds of every run holds of this code under
 every interleaving. Each method also says what it does with the answers it gets.
 */
module LspServices {
  import opened Sequences
  import opened LspSessions
  import opened LspSessionSafety
  import opened LspRuns
  import opened LspReaping
  import opened LspNames

  /** Whose place in the code the rest of the system leaves alone. */
  datatype Thread = Scanner | Sweeper | Call(i: nat)

  predicate SamePlace(k: Thread, before: State, after: State) {
    match k
    case Scanner => after.worker.scan == before.worker.scan
    case Sweeper => after.worker.clean == before.worker.clean
    case Call(i) => (i in after.ops <==> i in before.ops) && (i in after.ops ==> after.ops[i] == before.ops[i])
  }

  datatype Reply = Done | NotFound | Forbidden | Thrown

  /** The record shows `lsp-connect` a container. */
  predicate Ready(st: State, s: SessionId) {
    s in st.redis && st.redis[s].data.containerId.Some? && st.redis[s].data.containerName.Some?
  }

  /** Remote calls `from`, ..., `k - 1` are answered. */
  predicate Answered(ok: nat -> bool, from: nat, k: nat) { forall j :: from <= j < k ==> ok(j) }

  /**
   What one turn of the scan does for `s` with the answers to its calls `from`, ..., `k - 1`: nothing if the session
   is recorded; else its container is in the record, or was adopted from it, or its name is taken, or the key had run
   out, or call `k` was not answered.
   */
  predicate Served(ok: nat -> bool, from: nat, k: nat, s: SessionId, before: State, after: State) {
    && from <= k <= from + 6 && Answered(ok, from, k)
    && (s in before.worker.containerMap ==> k == from)
    && (s !in before.worker.containerMap ==>
          || (k == from + 6 && s in after.redis && after.redis[s].data.containerId.Some?)
          || (k == from + 1 && s in after.worker.containerMap)
          || (k == from + 1 && s in after.worker.names)
          || (k > from && Ttl(after, s) <= 0)
          || (k > from && !ok(k)))
  }

  /** A session's turn in a scan: the number of its first call, of the next session's, and the states around it. */
  datatype Turn = Turn(from: nat, k: nat, before: State, after: State)

  /** Turn `j` of a scan over `keys` that began at `start`. */
  ghost predicate TakesTurn(ok: nat -> bool, keys: seq<SessionId>, turns: seq<Turn>, j: nat, start: State)
    requires j < |turns| <= |keys|
  {
    var t := turns[j];
    && Leads(start, t.before) && t.before.worker.scan == ScanAt(keys[j..])
    && Served(ok, t.from, t.k, keys[j], t.before, t.after)
    && t.from == NextCall(turns[..j])
  }

  function NextCall(turns: seq<Turn>): nat { if turns == [] then 0 else turns[|turns| - 1].k }

  lemma TurnsExtend(ok: nat -> bool, keys: seq<SessionId>, turns: seq<Turn>, t: Turn, start: State)
    requires |turns| < |keys| && forall j :: 0 <= j < |turns| ==> TakesTurn(ok, keys, turns, j, start)
    requires Leads(start, t.before) && t.before.worker.scan == ScanAt(keys[|turns|..])
    requires Served(ok, t.from, t.k, keys[|turns|], t.before, t.after) && t.from == NextCall(turns)
    ensures forall j :: 0 <= j < |turns + [t]| ==> TakesTurn(ok, keys, turns + [t], j, start)
  {
    hide Leads, Served;
    assert (turns + [t])[..|turns|] == turns;
    forall j | 0 <= j < |turns| ensures TakesTurn(ok, keys, turns + [t], j, start) {
      assert (turns + [t])[..j] == turns[..j];
      assert TakesTurn(ok, keys, turns, j, start);
    }
  }

  datatype SweepEnd = Completed(cleaned: set<SessionId>) | Aborted | Unfinished

  class Backend {
    var now: int
    var redis: map<SessionId, Entry>
    var ops: map<nat, Op>
    var clientSessions: map<Client, ClientSession>
    var containerMap: map<SessionId, ContainerId>
    var running: set<ContainerId>
    var names: map<SessionId, ContainerId>
    var ledger: Ledger
    ghost var scan: Scan
    ghost var clean: Clean
    ghost var stopRefused: set<ContainerId>
    ghost var refreshed: map<SessionId, int>

    ghost function Now(): State
      reads this
    {
      var worker := Worker(containerMap, scan, clean, running, stopRefused, names);
      State(now, redis, ops, clientSessions, worker, ledger, refreshed)
    }

    constructor ()
      ensures Now() == INITIAL
    {
      now, redis, ops, clientSessions, containerMap := 0, map[], map[], map[], map[];
      running, names, ledger, scan, clean := {}, map[], Ledger(map[], map[]), ScanIdle, CleanIdle;
      stopRefused, refreshed := {}, map[];
    }

    /**
     An await: everybody else may take any number of steps. A caller knows no more than this contract, whatever
     the body.
     */
    method Others(ghost k: Thread, ghost start: State)
      requires Leads(start, Now())
      modifies this
      ensures Leads(start, Now()) && SamePlace(k, old(Now()), Now())
    {
    }

    // ---- api-server: LanguageServerService ----

    method CreateSession(s: SessionId, user: User)
      requires s !in ledger.creators
      modifies this
      ensures Leads(old(Now()), Now())
      ensures redis == old(redis)[
                s := Entry(SessionData(user, "/lsp-files/" + s.ulid, None, None, [], None), old(now) + 600)]
      ensures ledger == old(ledger).(creators := old(ledger).creators[s := user])
      ensures refreshed == old(refreshed)[s := old(now)] && now == old(now) && ops == old(ops)
      ensures clientSessions == old(clientSessions) && Now().worker == old(Now()).worker
    {
      hide Leads, Runs, Apply, Enabled;
      ghost var start := Now();
      Stays(start);
      Creates(start, s, user);
      redis := redis[s := Entry(SessionData(user, RootOf(s), None, None, [], None), now + SESSION_TTL)];
      ledger := ledger.(creators := ledger.creators[s := user]);
      refreshed := refreshed[s := now];
      Goes(start, start, LspSessions.CreateSession(s, user), Now());
    }

    /** `asked` is the state in which `expire` is answered: it moves the deadline and nothing else. */
    method RenewSession(i: nat, s: SessionId, user: User, ok: bool) returns (r: Reply, ghost asked: State)
      requires i !in ops
      modifies this
      ensures Leads(old(Now()), Now()) && i !in ops
      ensures r == NotFound <==> s !in old(redis)
      ensures r == Forbidden <==> OwnerOf(old(Now()), s) !in {None, Some(user)}
      ensures r in {NotFound, Forbidden} ==> Now() == old(Now())
      ensures OwnerOf(old(Now()), s) == Some(user) ==> r == if ok then Done else Thrown
      ensures r == Done ==> Leads(old(Now()), asked) && now == asked.now
      ensures r == Done ==> redis == if s in asked.redis
                                     then asked.redis[s := Entry(asked.redis[s].data, asked.now + 600)]
                                     else asked.redis
    {
      hide Leads, Runs, Apply, Enabled;
      ghost var start := Now();
      Stays(start);
      // get
      if s !in redis { return NotFound, start; }
      if redis[s].data.userId != user { return Forbidden, start; }
      RenewReads(start, i, s, user);
      ops := ops[i := RenewExpiring(s)];
      Goes(start, start, RenewRead(i, s, user), Now());
      Others(Call(i), start);
      // expire
      if !ok { Abandon(i, start); return Thrown, Now(); }
      asked := Now();
      RenewExpires(asked, i);
      ops := ops - {i};
      if s in redis {
        redis := redis[s := Entry(redis[s].data, now + SESSION_TTL)];
        refreshed := refreshed[s := now];
      }
      Goes(start, asked, RenewExpire(i), Now());
      return Done, asked;
    }

    /** What is stored at the end is what was read at the start, whoever wrote in between. */
    method UpdateLastActivity(i: nat, s: SessionId, ok: bool)
      requires i !in ops
      modifies this
      ensures Leads(old(Now()), Now()) && i !in ops
      ensures s !in old(redis) ==> Now() == old(Now())
      ensures ok && s in old(redis) ==> s in redis
      ensures ok && s in old(redis) ==>
                redis[s] == Entry(old(redis[s].data).(lastActivity := Some(old(now))), now + 600)
    {
      hide Leads, Runs, Apply, Enabled;
      ghost var start := Now();
      Stays(start);
      // get
      if s !in redis { return; }
      var sessionData := redis[s].data.(lastActivity := Some(now));
      ActivityReads(start, i, s);
      ops := ops[i := ActivityWriting(s, sessionData)];
      Goes(start, start, ActivityRead(i, s), Now());
      Others(Call(i), start);
      // setex
      if !ok { Abandon(i, start); return; }
      ghost var before := Now();
      ActivityWrites(before, i);
      ops := ops - {i};
      redis := redis[s := Entry(sessionData, now + SESSION_TTL)];
      refreshed := refreshed[s := now];
      Goes(start, before, ActivityWrite(i), Now());
    }

    /** `recorded` says whether the session was written back: with all calls answered, unless its time had run out. */
    method UploadFile(i: nat, s: SessionId, user: User, name: string, saved: bool, timed: bool, stored: bool)
      returns (r: Reply, recorded: bool)
      requires i !in ops
      modifies this
      ensures Leads(old(Now()), Now()) && i !in ops
      ensures r == NotFound <==> s !in old(redis)
      ensures r == Forbidden <==> OwnerOf(old(Now()), s) !in {None, Some(user)}
      ensures r in {NotFound, Forbidden} ==> Now() == old(Now())
      ensures OwnerOf(old(Now()), s) == Some(user) && !(saved && timed) ==> r == Thrown
      ensures OwnerOf(old(Now()), s) == Some(user) && saved && timed ==>
                || (recorded && stored && r == Done)
                || (!recorded && !stored && r == Thrown)
                || (!recorded && r == Done && Ttl(Now(), s) <= 0)
      ensures recorded ==> r == Done && s in old(redis) && s in redis
      ensures recorded ==>
                var d := old(redis[s].data);
                var files := if name in d.uploadedFiles then d.uploadedFiles else d.uploadedFiles + [name];
                redis[s].data == d.(uploadedFiles := files) && redis[s].expiresAt > now
    {
      hide Leads, Runs, Apply, Enabled;
      ghost var start := Now();
      Stays(start);
      recorded := false;
      // get
      if s !in redis { return NotFound, false; }
      var sessionData := redis[s].data;
      if sessionData.userId != user { return Forbidden, false; }
      // what is recorded once the file is written
      if name !in sessionData.uploadedFiles {
        sessionData := sessionData.(uploadedFiles := sessionData.uploadedFiles + [name]);
      }
      UploadReads(start, i, s, user, name);
      ops := ops[i := UploadReadingTtl(s, sessionData)];
      Goes(start, start, UploadRead(i, s, user, name), Now());
      // mkdir, writeFile
      Others(Call(i), start);
      if !saved { Abandon(i, start); return Thrown, false; }
      r, recorded := RecordUpload(i, s, sessionData, timed, stored, start);
    }

    /** Asks for the time left and, if there is any, writes the record back with it. */
    method RecordUpload(i: nat, s: SessionId, sessionData: SessionData, timed: bool, stored: bool, ghost start: State)
      returns (r: Reply, recorded: bool)
      requires Leads(start, Now()) && i in ops && ops[i] == UploadReadingTtl(s, sessionData)
      modifies this
      ensures Leads(start, Now()) && i !in ops
      ensures !timed ==> r == Thrown
      ensures timed && Ttl(old(Now()), s) <= 0 ==> r == Done && Now() == Finish(old(Now()), i)
      ensures timed && Ttl(old(Now()), s) > 0 ==> r == if stored then Done else Thrown
      ensures recorded <==> timed && stored && Ttl(old(Now()), s) > 0
      ensures recorded ==> s in redis && redis[s] == Entry(sessionData, now + Ttl(old(Now()), s))
    {
      hide Leads, Runs, Apply, Enabled;
      // ttl
      if !timed { Abandon(i, start); return Thrown, false; }
      ghost var before := Now();
      UploadTimes(before, i);
      var ttl := if s in redis then redis[s].expiresAt - now else -2;
      if ttl <= 0 {
        ops := ops - {i};
        Goes(start, before, UploadTtl(i), Now());
        return Done, false;
      }
      ops := ops[i := UploadWriting(s, sessionData, ttl)];
      Goes(start, before, UploadTtl(i), Now());
      Others(Call(i), start);
      // setex
      if !stored { Abandon(i, start); return Thrown, false; }
      before := Now();
      UploadWrites(before, i);
      ops := ops - {i};
      redis := redis[s := Entry(sessionData, now + ttl)];
      Goes(start, before, UploadWrite(i), Now());
      return Done, true;
    }

    /** A rejected await ends the call. */
    method Abandon(i: nat, ghost start: State)
      requires Leads(start, Now()) && i in ops
      modifies this`ops
      ensures Leads(start, Now()) && ops == old(ops) - {i}
    {
      hide Leads, Runs, Apply, Enabled;
      ghost var before := Now();
      Gives(before, i);
      ops := ops - {i};
      Goes(start, before, OpFails(i), Now());
    }

    // ---- api-server: LanguageServerGateway ----

    /**
     Up to the answer of the TCP connection to the container. `read`, `inspected` and `connected` say whether Redis,
     Docker and the container answer; `addressed`, whether Docker shows an address for it on the backend network.
     */
    method HandleLspConnect(
      i: nat, client: Client, s: SessionId, user: Option<User>, read: bool, inspected: bool, addressed: bool,
      connected: bool)
      returns (r: Reply)
      requires i !in ops
      modifies this
      ensures Leads(old(Now()), Now()) && i !in ops
      ensures r == Forbidden <==> OwnerOf(old(Now()), s) != user
      ensures r == Forbidden ==> Now() == old(Now())
      ensures r != Forbidden && !read ==> r == Thrown
      ensures r == NotFound ==> !Ready(Now(), s) || (inspected && !addressed)
      ensures r !in {Forbidden, NotFound} && read ==> r == if inspected && connected then Done else Thrown
      ensures r == Done ==> read && inspected && addressed && connected && client in clientSessions
      ensures r == Done ==> clientSessions[client].s == s && clientSessions[client].user == user
      ensures r == Done && Safe(old(Now())) ==> clientSessions[client].workspaceRoot == "/lsp-files/" + s.ulid
    {
      hide Leads, Runs, Apply, Enabled, Safe;
      ghost var start := Now();
      Stays(start);
      // validateSessionOwnership
      var owner := if s in redis then Some(redis[s].data.userId) else None;
      if owner != user { return Forbidden; }
      ConnectChecks(start, i, client, s, user);
      ops := ops[i := ConnectReading(client, s, user)];
      Goes(start, start, ConnectOwn(i, client, s, user), Now());
      Others(Call(i), start);
      if !read { Abandon(i, start); return Thrown; }
      if Safe(start) && s in redis {
        LeadsKeepsSafe(start, Now());
        StoredAtItsRoot(Now(), s);
      }
      r := Dial(i, client, s, user, inspected, addressed, connected, start);
    }

    /** 404 when the record shows no container, or Docker no address for it; 500 when Docker or the container fails. */
    method Dial(
      i: nat, client: Client, s: SessionId, user: Option<User>, inspected: bool, addressed: bool, connected: bool,
      ghost start: State)
      returns (r: Reply)
      requires Leads(start, Now()) && i in ops && ops[i] == ConnectReading(client, s, user)
      modifies this
      ensures Leads(start, Now()) && i !in ops
      ensures r == if !Ready(old(Now()), s) then NotFound
                   else if !inspected then Thrown
                   else if !addressed then NotFound
                   else if !connected then Thrown
                   else Done
      ensures !Ready(old(Now()), s) ==> Now() == Finish(old(Now()), i)
      ensures r == Done ==>
                client in clientSessions
                && clientSessions[client] == ClientSession(s, user, old(redis)[s].data.workspaceRoot)
    {
      hide Leads, Runs, Apply, Enabled;
      // getSession
      ghost var before := Now();
      ConnectReads(before, i);
      if s !in redis || redis[s].data.containerId.None? || redis[s].data.containerName.None? {
        ops := ops - {i};
        Goes(start, before, ConnectRead(i), Now());
        return NotFound;
      }
      var workspaceRoot := redis[s].data.workspaceRoot;
      ops := ops[i := ConnectDialling(client, s, user, workspaceRoot)];
      Goes(start, before, ConnectRead(i), Now());
      Others(Call(i), start);
      // inspect
      if !inspected { Abandon(i, start); return Thrown; }
      if !addressed { Abandon(i, start); return NotFound; }
      Others(Call(i), start);
      // connect
      if !connected { Abandon(i, start); return Thrown; }
      Join(i, client, s, user, workspaceRoot, start);
      return Done;
    }

    /** The connection's callback. */
    method Join(i: nat, client: Client, s: SessionId, user: Option<User>, root: string, ghost start: State)
      requires Leads(start, Now()) && i in ops && ops[i] == ConnectDialling(client, s, user, root)
      modifies this`ops, this`clientSessions
      ensures Leads(start, Now()) && ops == old(ops) - {i}
      ensures clientSessions == old(clientSessions)[client := ClientSession(s, user, root)]
    {
      hide Leads, Runs, Apply, Enabled;
      ghost var before := Now();
      ConnectReaches(before, i);
      ops := ops - {i};
      clientSessions := clientSessions[client := ClientSession(s, user, root)];
      Goes(start, before, ConnectDone(i), Now());
    }

    method HandleDisconnect(client: Client)
      modifies this`clientSessions
      ensures Leads(old(Now()), Now()) && clientSessions == old(clientSessions) - {client}
    {
      hide Leads, Runs, Apply, Enabled;
      ghost var start := Now();
      Stays(start);
      ClientLeaves(start, client);
      clientSessions := clientSessions - {client};
      Goes(start, start, ClientGone(client), Now());
    }

    // ---- worker: LanguageServerManager, the scan ----

    /**
     One pass; `ok(k)` says whether its `k`th remote call is answered. Every listed session gets its turn, in order,
     up to a `get` that is not answered.
     */
    method ScanAndCreateContainers(keys: seq<SessionId>, ok: nat -> bool) returns (ghost turns: seq<Turn>, done: bool)
      requires scan == ScanIdle && (set s | s in keys) == redis.Keys
      modifies this
      ensures Leads(old(Now()), Now()) && scan == ScanIdle && |turns| <= |keys|
      ensures forall j :: 0 <= j < |turns| ==> TakesTurn(ok, keys, turns, j, old(Now()))
      ensures if done then |turns| == |keys| else |turns| < |keys| && !ok(NextCall(turns))
    {
      hide Leads, Runs, Apply, Enabled, TakesTurn, Served;
      ghost var start := Now();
      Stays(start);
      ScanLists(start, keys);
      MoveScan(start, ScanAt(keys), ScanKeys(keys));
      var k: nat := 0;
      turns := [];
      for i := 0 to |keys|
        invariant Leads(start, Now()) && scan == ScanAt(keys[i..])
        invariant |turns| == i && k == NextCall(turns)
        invariant forall j :: 0 <= j < |turns| ==> TakesTurn(ok, keys, turns, j, start)
      {
        assert keys[i..] == [keys[i]] + keys[i + 1..];
        ghost var before, from := Now(), k;
        var thrown;
        k, thrown := ScanSession(keys[i], keys[i + 1..], ok, k, start);
        if thrown { return turns, false; }
        TurnsExtend(ok, keys, turns, Turn(from, k, before, Now()), start);
        turns := turns + [Turn(from, k, before, Now())];
        Others(Scanner, start);
      }
      ScanEnds(Now());
      MoveScan(start, ScanIdle, ScanNext);
      done := true;
    }

    /** The body of the loop, for one key; only a failing `get` escapes its `try`. */
    method ScanSession(
      sessionId: SessionId, ghost rest: seq<SessionId>, ok: nat -> bool, from: nat, ghost start: State)
      returns (k: nat, thrown: bool)
      requires Leads(start, Now()) && scan == ScanAt([sessionId] + rest)
      modifies this
      ensures Leads(start, Now()) && scan == if thrown then ScanIdle else ScanAt(rest)
      ensures thrown ==> k == from && !ok(from) && sessionId !in old(containerMap)
      ensures !thrown ==> Served(ok, from, k, sessionId, old(Now()), Now())
      ensures sessionId in old(containerMap) ==> Now() == WithScan(old(Now()), ScanAt(rest))
    {
      hide Leads, Runs, Apply, Enabled;
      k, thrown := from, false;
      ScanAdvances(Now(), sessionId, rest);
      if sessionId in containerMap {
        MoveScan(start, ScanAt(rest), ScanNext);
        return;
      }
      MoveScan(start, ScanGet(sessionId, rest), ScanNext);
      Others(Scanner, start);
      // get
      if !ok(k) {
        FailScan(start, ScanIdle);
        return k, true;
      }
      ScanReads(Now());
      if sessionId !in redis {
        MoveScan(start, ScanAt(rest), ScanRead);
        return k + 1, false;
      }
      var sessionData := redis[sessionId].data;
      MoveScan(start, ScanGot(sessionId, sessionData, rest), ScanRead);
      Others(Scanner, start);
      k := Provide(sessionId, sessionData, rest, ok, k + 1, start);
    }

    /** Starts a container, or adopts the one the record names. */
    method Provide(
      sessionId: SessionId, sessionData: SessionData, ghost rest: seq<SessionId>, ok: nat -> bool, from: nat,
      ghost start: State)
      returns (k: nat)
      requires Leads(start, Now()) && scan == ScanGot(sessionId, sessionData, rest)
      modifies this
      ensures Leads(start, Now()) && scan == ScanAt(rest) && from <= k <= from + 5 && Answered(ok, from, k)
      ensures sessionData.containerId.Some? ==>
                k == from && containerMap == old(containerMap)[sessionId := sessionData.containerId.value]
      ensures sessionData.containerId.None? ==>
                || (k == from + 5 && sessionId in redis && redis[sessionId].data.containerId.Some?)
                || (k == from && sessionId in names)
                || Ttl(Now(), sessionId) <= 0
                || !ok(k)
    {
      hide Leads, Runs, Apply, Enabled;
      k := from;
      ghost var before := Now();
      ScanDecides(before);
      match sessionData.containerId {
        case None =>
          MoveScan(start, ScanCreate(sessionId, rest), ScanDecide);
          var containerId;
          ghost var asked;
          k, containerId, asked := StartContainer(sessionId, rest, ok, k, start);
        case Some(containerId) =>
          containerMap := containerMap[sessionId := containerId];
          scan := ScanAt(rest);
          Goes(start, before, ScanDecide, Now());
      }
    }

    /**
     An error ends it early, and the caller catches it; `k - from` calls succeeded. All five mean that the record
     names the new container; fewer, that the next was not answered, or that Docker had the name in use when `asked` for
     a container, or that the key had run out.
     */
    method StartContainer(
      sessionId: SessionId, ghost rest: seq<SessionId>, ok: nat -> bool, from: nat, ghost start: State)
      returns (k: nat, containerId: ContainerId, ghost asked: State)
      requires Leads(start, Now()) && scan == ScanCreate(sessionId, rest)
      modifies this
      ensures Leads(start, Now()) && scan == ScanAt(rest) && from <= k <= from + 5 && Answered(ok, from, k)
      ensures Leads(start, asked) && asked.worker.scan == ScanCreate(sessionId, rest)
      ensures k == from <==> !ok(from) || sessionId in asked.worker.names
      ensures k == from ==> Now() == WithScan(asked, ScanAt(rest))
      ensures k > from ==> containerId in ledger.owners && ledger.owners[containerId] == sessionId
      ensures k == from + 5 ==> sessionId in redis && redis[sessionId].data.containerId == Some(containerId)
      ensures k == from + 5 ==> redis[sessionId].data.containerName == Some("lsp-" + sessionId.ulid)
      ensures from < k < from + 5 ==> !ok(k) || (k >= from + 3 && Ttl(Now(), sessionId) <= 0)
    {
      hide Leads, Runs, Apply, Enabled;
      // mkdir
      Others(Scanner, start);
      // createContainer, whose answer is an id never given before
      asked := Now();
      ghost var unused := FreshContainer(ledger.owners);
      containerId :| containerId !in ledger.owners;
      if !ok(from) || sessionId in names {
        FailScan(start, ScanAt(rest));
        return from, containerId, asked;
      }
      StartCreates(asked, containerId);
      ledger := ledger.(owners := ledger.owners[containerId := sessionId]);
      names := names[sessionId := containerId];
      scan := ScanStart(sessionId, containerId, rest);
      ghost var made := Now();
      Goes(start, asked, ScanMake(containerId), made);
      Stays(made);
      k := RunContainer(sessionId, containerId, rest, ok, from + 1, made);
      LeadsGrows(made, Now());
      Joins(start, made, Now());
    }

    /** From `start()` on. */
    method RunContainer(
      sessionId: SessionId, containerId: ContainerId, ghost rest: seq<SessionId>, ok: nat -> bool, from: nat,
      ghost start: State)
      returns (k: nat)
      requires Leads(start, Now()) && scan == ScanStart(sessionId, containerId, rest)
      modifies this
      ensures Leads(start, Now()) && scan == ScanAt(rest) && from <= k <= from + 4 && Answered(ok, from, k)
      ensures k == from + 4 ==> sessionId in redis && redis[sessionId].data.containerId == Some(containerId)
      ensures k == from + 4 ==> redis[sessionId].data.containerName == Some("lsp-" + sessionId.ulid)
      ensures k < from + 4 ==> !ok(k) || (k >= from + 2 && Ttl(Now(), sessionId) <= 0)
    {
      hide Leads, Runs, Apply, Enabled;
      Others(Scanner, start);
      if !ok(from) {
        FailScan(start, ScanAt(rest));
        return from;
      }
      LaunchContainer(sessionId, containerId, rest, start);
      Others(Scanner, start);
      k := AttachContainer(sessionId, containerId, rest, ok, from + 1, start);
    }

    method LaunchContainer(
      sessionId: SessionId, containerId: ContainerId, ghost rest: seq<SessionId>, ghost start: State)
      requires Leads(start, Now()) && scan == ScanStart(sessionId, containerId, rest)
      modifies this
      ensures Leads(start, Now()) && scan == ScanReget(sessionId, containerId, rest)
      ensures sessionId in containerMap && containerMap[sessionId] == containerId
    {
      hide Leads, Runs, Apply, Enabled;
      ghost var before := Now();
      StartRunsIt(before);
      running := running + {containerId};
      scan := ScanStarted(sessionId, containerId, rest);
      Goes(start, before, ScanRun, Now());
      Others(Scanner, start);
      before := Now();
      StartRecords(before);
      containerMap := containerMap[sessionId := containerId];
      scan := ScanReget(sessionId, containerId, rest);
      Goes(start, before, ScanRecord, Now());
    }

    /** Rereads the record, and writes it back with the container in it, if the key is there and has time left. */
    method AttachContainer(
      sessionId: SessionId, containerId: ContainerId, ghost rest: seq<SessionId>, ok: nat -> bool, from: nat,
      ghost start: State)
      returns (k: nat)
      requires Leads(start, Now()) && scan == ScanReget(sessionId, containerId, rest)
      modifies this
      ensures Leads(start, Now()) && scan == ScanAt(rest) && from <= k <= from + 3 && Answered(ok, from, k)
      ensures k == from + 3 ==>
                sessionId in old(redis) && sessionId in redis
                && redis[sessionId].data
                   == old(redis)[sessionId].data.(
                        containerId := Some(containerId),
                        containerName := Some("lsp-" + sessionId.ulid),
                        workspaceRoot := "/lsp-files/" + sessionId.ulid)
      ensures k < from + 3 ==> !ok(k) || (k > from && Ttl(Now(), sessionId) <= 0)
    {
      hide Leads, Runs, Apply, Enabled;
      k := from;
      // get
      if !ok(k) {
        FailScan(start, ScanAt(rest));
        return;
      }
      k := k + 1;
      StartRereads(Now());
      if sessionId !in redis {
        MoveScan(start, ScanAt(rest), ScanReread);
        return;
      }
      var sessionData := redis[sessionId].data.(
        containerId := Some(containerId),
        containerName := Some(ContainerNameOf(sessionId)),
        workspaceRoot := RootOf(sessionId));
      MoveScan(start, ScanTtl(sessionId, sessionData, rest), ScanReread);
      Others(Scanner, start);
      k := StoreContainer(sessionId, sessionData, rest, ok, k, start);
    }

    method StoreContainer(
      sessionId: SessionId, sessionData: SessionData, ghost rest: seq<SessionId>, ok: nat -> bool, from: nat,
      ghost start: State)
      returns (k: nat)
      requires Leads(start, Now()) && scan == ScanTtl(sessionId, sessionData, rest)
      modifies this
      ensures Leads(start, Now()) && scan == ScanAt(rest)
      ensures k == if !ok(from) then from
                   else if Ttl(old(Now()), sessionId) <= 0 || !ok(from + 1) then from + 1
                   else from + 2
      ensures k == from + 1 && ok(from + 1) ==> Now() == WithScan(old(Now()), ScanAt(rest))
      ensures k == from + 2 ==>
                sessionId in redis && redis[sessionId] == Entry(sessionData, now + Ttl(old(Now()), sessionId))
    {
      hide Leads, Runs, Apply, Enabled;
      k := from;
      // ttl
      if !ok(k) {
        FailScan(start, ScanAt(rest));
        return;
      }
      k := k + 1;
      StartTimes(Now());
      var ttl := if sessionId in redis then redis[sessionId].expiresAt - now else -2;
      if ttl <= 0 {
        MoveScan(start, ScanAt(rest), ScanReadTtl);
        return;
      }
      MoveScan(start, ScanWrite(sessionId, sessionData, ttl, rest), ScanReadTtl);
      Others(Scanner, start);
      // setex
      if !ok(k) {
        FailScan(start, ScanAt(rest));
        return;
      }
      k := k + 1;
      ghost var before := Now();
      StartStores(before);
      redis := redis[sessionId := Entry(sessionData, now + ttl)];
      scan := ScanAt(rest);
      Goes(start, before, ScanStore, Now());
    }

    ghost method MoveScan(start: State, to: Scan, step: Step)
      requires Leads(start, Now()) && Enabled(Now(), step) && Apply(Now(), step) == WithScan(Now(), to)
      modifies this`scan
      ensures scan == to && Leads(start, Now())
    {
      hide Leads, Runs, Apply, Enabled;
      var before := Now();
      scan := to;
      Goes(start, before, step, Now());
    }

    ghost method FailScan(start: State, to: Scan)
      requires Leads(start, Now()) && MayThrow(scan)
      requires to == if scan.ScanGet? then ScanIdle else ScanAt(scan.rest)
      modifies this`scan
      ensures scan == to && Leads(start, Now())
    {
      ScanGivesUp(Now());
      hide Leads, Runs, Apply, Enabled;
      MoveScan(start, to, ScanFails);
    }

    // ---- worker: LanguageServerManager, the sweep ----

    /**
     The sweep over `containerMap`, whose iterator also visits what is added meanwhile; `rounds` bounds how long
     it is watched. It completes when every entry has been visited, and then forgets what it has condemned. A
     failing `exists` aborts it, and it forgets nothing, even if it has stopped containers by then. `last` is the
     state in which it ended.
     */
    method CleanupExpiredSessions(rounds: nat, ok: nat -> bool) returns (outcome: SweepEnd, ghost last: State)
      requires clean == CleanIdle
      modifies this
      ensures Leads(old(Now()), Now()) && Leads(old(Now()), last)
      ensures match outcome
              case Completed(cleaned) =>
                last.worker.clean.CleanAt? && last.worker.clean.expired == cleaned
                && Enabled(last, CleanEnd) && Now() == Apply(last, CleanEnd)
              case Aborted => clean == CleanIdle && exists k: nat :: k < rounds && !ok(3 * k)
              case Unfinished => clean.CleanAt? && |clean.visited| == rounds
    {
      hide Leads, Runs, Apply, Enabled;
      ghost var start := Now();
      Stays(start);
      var visited: set<SessionId>, sessionsToClean: set<SessionId> := {}, {};
      SweepOpens(start);
      MoveClean(start, CleanAt({}, {}), CleanBegin);
      for k := 0 to rounds
        invariant Leads(start, Now()) && clean == CleanAt(visited, sessionsToClean) && |visited| == k
      {
        var left := containerMap.Keys - visited;
        if left == {} {
          assert forall s :: s in containerMap.Keys && s !in visited ==> s in left;
          last := Now();
          Forget(sessionsToClean, visited, start);
          return Completed(sessionsToClean), last;
        }
        var sessionId :| sessionId in left;
        var thrown;
        ghost var asked;
        thrown, sessionsToClean, asked :=
          SweepSession(sessionId, visited, sessionsToClean, ok(3 * k), ok(3 * k + 1), ok(3 * k + 2), start);
        visited := visited + {sessionId};
        if thrown {
          return Aborted, Now();
        }
        Others(Sweeper, start);
      }
      return Unfinished, Now();
    }

    method Forget(sessionsToClean: set<SessionId>, ghost visited: set<SessionId>, ghost start: State)
      requires Leads(start, Now()) && clean == CleanAt(visited, sessionsToClean) && containerMap.Keys <= visited
      modifies this
      ensures Leads(start, Now()) && clean == CleanIdle && containerMap == old(containerMap) - sessionsToClean
      ensures Enabled(old(Now()), CleanEnd) && Now() == Apply(old(Now()), CleanEnd)
    {
      hide Leads, Runs, Apply, Enabled;
      ghost var before := Now();
      SweepCloses(before);
      containerMap := containerMap - sessionsToClean;
      clean := CleanIdle;
      Goes(start, before, CleanEnd, Now());
    }

    /**
     The body of the loop, for one entry of the map. At `asked`, when `exists` is answered, the session is condemned if
     its key is missing, and only then; and its container is stopped for good, unless Docker refuses.
     */
    method SweepSession(
      sessionId: SessionId, ghost visited: set<SessionId>, sessionsToClean: set<SessionId>, answered: bool,
      stopped: bool, removed: bool, ghost start: State)
      returns (thrown: bool, expired: set<SessionId>, ghost asked: State)
      requires Leads(start, Now()) && clean == CleanAt(visited, sessionsToClean)
      requires sessionId in containerMap && sessionId !in visited
      modifies this
      ensures Leads(start, Now()) && thrown == !answered
      ensures clean == if thrown then CleanIdle else CleanAt(visited + {sessionId}, expired)
      ensures Leads(start, asked)
      ensures asked.worker.clean ==
              CleanExists(sessionId, old(containerMap)[sessionId], visited + {sessionId}, sessionsToClean)
      ensures answered ==>
                expired == if sessionId in asked.redis then sessionsToClean else sessionsToClean + {sessionId}
      ensures answered && sessionId !in asked.redis && stopped && Sound(start) ==>
                old(containerMap)[sessionId] !in running
      ensures answered && sessionId !in asked.redis && !stopped ==> old(containerMap)[sessionId] in stopRefused
    {
      hide Leads, Runs, Apply, Enabled, Sound;
      var containerId := containerMap[sessionId];
      SweepPicks(Now(), sessionId);
      ghost var looking := CleanExists(sessionId, containerId, visited + {sessionId}, sessionsToClean);
      MoveClean(start, looking, CleanPick(sessionId));
      Others(Sweeper, start);
      // exists
      asked := Now();
      SweepChecks(asked);
      if !answered {
        MoveClean(start, CleanIdle, CleanFails);
        return true, sessionsToClean, asked;
      }
      if sessionId in redis {
        MoveClean(start, CleanAt(visited + {sessionId}, sessionsToClean), CleanCheck);
        return false, sessionsToClean, asked;
      }
      expired := sessionsToClean + {sessionId};
      MoveClean(start, CleanStop(sessionId, containerId, visited + {sessionId}, expired), CleanCheck);
      Others(Sweeper, start);
      StopContainer(sessionId, containerId, visited + {sessionId}, expired, stopped, removed, start);
      return false, expired, asked;
    }

    /**
     Catches its own errors: a refusal is logged and forgotten. A container that stops does not run again; its name is
     free once it is removed, and only then. What does not exist cannot be stopped, and does not run either.
     */
    method StopContainer(
      sessionId: SessionId, containerId: ContainerId, ghost visited: set<SessionId>, ghost expired: set<SessionId>,
      stopped: bool, removed: bool, ghost start: State)
      requires Leads(start, Now()) && clean == CleanStop(sessionId, containerId, visited, expired)
      modifies this
      ensures Leads(start, Now()) && clean == CleanAt(visited, expired)
      ensures stopped && Sound(start) ==> containerId !in running
      ensures !(stopped && Exists(old(Now()).worker, sessionId, containerId)) ==>
                containerId in stopRefused && running == old(running) && names == old(names)
      ensures stopped && Exists(old(Now()).worker, sessionId, containerId) && removed ==> sessionId !in names
      ensures stopped && Exists(old(Now()).worker, sessionId, containerId) && !removed && Sound(start) ==>
                Exists(Now().worker, sessionId, containerId)
    {
      hide Leads, Runs, Apply, Enabled, Sound;
      ghost var before := Now();
      SweepHalts(before);
      if !stopped || sessionId !in names || names[sessionId] != containerId {
        stopRefused := stopRefused + {containerId};
        clean := CleanAt(visited, expired);
        Goes(start, before, CleanStopRefused, Now());
        if stopped && Sound(start) {
          LeadsKeepsSound(start, before);
          OnlyTheExistingRun(before);
        }
        return;
      }
      running := running - {containerId};
      clean := CleanRemove(sessionId, containerId, visited, expired);
      ghost var halted := Now();
      Goes(start, before, CleanStopped, halted);
      Stays(halted);
      if Sound(start) {
        LeadsKeepsSound(start, halted);
      }
      Others(Sweeper, halted);
      // remove
      RemoveContainer(sessionId, containerId, visited, expired, removed, halted);
      Joins(start, halted, Now());
      if Sound(start) {
        LeadsKeepsSound(start, before);
        StoppedForGood(before, halted, Now());
      }
    }

    method RemoveContainer(
      sessionId: SessionId, containerId: ContainerId, ghost visited: set<SessionId>, ghost expired: set<SessionId>,
      removed: bool, ghost start: State)
      requires Leads(start, Now()) && clean == CleanRemove(sessionId, containerId, visited, expired)
      modifies this
      ensures Leads(start, Now()) && clean == CleanAt(visited, expired)
      ensures names == if removed then old(names) - {sessionId} else old(names)
      ensures !removed && Sound(start) ==> Exists(Now().worker, sessionId, containerId)
    {
      hide Leads, Runs, Apply, Enabled, Sound;
      ghost var before := Now();
      SweepRemoves(before);
      if Sound(start) {
        LeadsKeepsSound(start, before);
        RemovedExists(before);
      }
      if removed {
        names := names - {sessionId};
        clean := CleanAt(visited, expired);
        Goes(start, before, CleanRemoved, Now());
      } else {
        MoveClean(start, CleanAt(visited, expired), CleanRemoveRefused);
      }
    }

    ghost method MoveClean(start: State, to: Clean, step: Step)
      requires Leads(start, Now()) && Enabled(Now(), step) && Apply(Now(), step) == WithClean(Now(), to)
      modifies this`clean
      ensures clean == to && Leads(start, Now())
    {
      hide Leads, Runs, Apply, Enabled;
      var before := Now();
      clean := to;
      Goes(start, before, step, Now());
    }
  }

  lemma StoredAtItsRoot(st: State, s: SessionId)
    requires Safe(st) && s in st.redis
    ensures st.redis[s].data.workspaceRoot == RootOf(s)
  {
    hide GoodOps, GoodClients, GoodClean, GoodFleet, GoodScan, GoodMap;
    assert GoodEntry(st.ledger, st.now, s, st.redis[s]);
  }

  lemma OnlyTheExistingRun(st: State)
    requires Sound(st) && st.worker.clean.CleanStop? && !Exists(st.worker, st.worker.clean.s, st.worker.clean.c)
    ensures st.worker.clean.c !in st.worker.running
  {
    hide GoodRedis, GoodOps, GoodClients, GoodScan, GoodFleet;
    assert Made(st.ledger, st.worker.clean.s, st.worker.clean.c);
  }

  lemma RemovedExists(st: State)
    requires Sound(st) && st.worker.clean.CleanRemove?
    ensures Exists(st.worker, st.worker.clean.s, st.worker.clean.c)
  {
    hide Safe;
  }

  lemma StoppedForGood(before: State, halted: State, end: State)
    requires Sound(before) && Enabled(before, CleanStopped) && halted == Apply(before, CleanStopped)
    requires Leads(halted, end)
    ensures before.worker.clean.c !in end.worker.running
  {
    StoppedIsRetired(before);
    hide Leads, Apply, Enabled, Safe, Registered;
    LeadsKeepsRetired(halted, end, before.worker.clean.c);
  }
}
