/**
 Sessions and their containers, shared by the API server and the worker through Redis.

 One `Step` is what happens between two scheduling points: either one remote effect (Redis or Docker executes
 a request) or one stretch of local code between two awaits. A read-modify-write of a session appears twice:
 split into its separate effects (`ActivityRead`, `ActivityWrite`, ...), and as one indivisible step
 (`ActivityAtomic`, ...). `IsAtomic` picks the second vocabulary.

 Time is in whole seconds. `creators`, `owners`, `stopRefused` and `refreshed` are history: no code reads them.
 */
module LspSessions {
  import opened Sequences

  datatype SessionId = SessionId(ulid: string)
  type ContainerId = nat
  type User = string
  type Client = nat

  const SESSION_TTL := 600

  function RootOf(s: SessionId): string { "/lsp-files/" + s.ulid }

  function ContainerNameOf(s: SessionId): string { "lsp-" + s.ulid }

  datatype SessionData = SessionData(
    userId: User,
    workspaceRoot: string,
    containerId: Option<ContainerId>,
    containerName: Option<string>,
    uploadedFiles: seq<string>,
    lastActivity: Option<int>)

  datatype Entry = Entry(data: SessionData, expiresAt: int)

  /** Where `scanAndCreateContainers` and the `startContainer` it awaits are suspended. */
  datatype Scan =
    | ScanIdle
    | ScanAt(keys: seq<SessionId>)
    | ScanGet(s: SessionId, rest: seq<SessionId>)
    | ScanGot(s: SessionId, data: SessionData, rest: seq<SessionId>)
    | ScanCreate(s: SessionId, rest: seq<SessionId>)
    | ScanStart(s: SessionId, c: ContainerId, rest: seq<SessionId>)
    | ScanStarted(s: SessionId, c: ContainerId, rest: seq<SessionId>)
    | ScanReget(s: SessionId, c: ContainerId, rest: seq<SessionId>)
    | ScanTtl(s: SessionId, data: SessionData, rest: seq<SessionId>)
    | ScanWrite(s: SessionId, data: SessionData, ttl: int, rest: seq<SessionId>)

  /** Where `cleanupExpiredSessions` is suspended; `expired` is its `sessionsToClean`. */
  datatype Clean =
    | CleanIdle
    | CleanAt(visited: set<SessionId>, expired: set<SessionId>)
    | CleanExists(s: SessionId, c: ContainerId, visited: set<SessionId>, expired: set<SessionId>)
    | CleanStop(s: SessionId, c: ContainerId, visited: set<SessionId>, expired: set<SessionId>)
    | CleanRemove(s: SessionId, c: ContainerId, visited: set<SessionId>, expired: set<SessionId>)

  /** An API call suspended between two awaits, with what it has read so far. */
  datatype Op =
    | RenewExpiring(s: SessionId)
    | ActivityWriting(s: SessionId, data: SessionData)
    | UploadReadingTtl(s: SessionId, data: SessionData)
    | UploadWriting(s: SessionId, data: SessionData, ttl: int)
    | ConnectReading(client: Client, s: SessionId, user: Option<User>)
    | ConnectDialling(client: Client, s: SessionId, user: Option<User>, root: string)

  datatype ClientSession = ClientSession(s: SessionId, user: Option<User>, workspaceRoot: string)

  /**
   The worker's memory and its containers. `names` are the containers that exist, running or not, under the names
   they were created with: Docker gives a name to one container at a time. `stopRefused` remembers the containers
   Docker would not stop.
   */
  datatype Worker = Worker(
    containerMap: map<SessionId, ContainerId>,
    scan: Scan,
    clean: Clean,
    running: set<ContainerId>,
    stopRefused: set<ContainerId>,
    names: map<SessionId, ContainerId>)

  /** Who created each session, and which session each container was made for. */
  datatype Ledger = Ledger(creators: map<SessionId, User>, owners: map<ContainerId, SessionId>)

  datatype State = State(
    now: int,
    redis: map<SessionId, Entry>,
    ops: map<nat, Op>,
    clients: map<Client, ClientSession>,
    worker: Worker,
    ledger: Ledger,
    refreshed: map<SessionId, int>)

  const INITIAL :=
    State(0, map[], map[], map[], Worker(map[], ScanIdle, CleanIdle, {}, {}, map[]), Ledger(map[], map[]), map[])

  datatype Step =
    | Tick(seconds: nat)
    | CreateSession(s: SessionId, user: User)
    // split read-modify-writes; `i` names the call
    | RenewRead(i: nat, s: SessionId, user: User)
    | RenewExpire(i: nat)
    | ActivityRead(i: nat, s: SessionId)
    | ActivityWrite(i: nat)
    | UploadRead(i: nat, s: SessionId, user: User, file: string)
    | UploadTtl(i: nat)
    | UploadWrite(i: nat)
    | OpFails(i: nat)
    // the same, indivisible
    | RenewAtomic(s: SessionId, user: User)
    | ActivityAtomic(s: SessionId)
    | UploadAtomic(s: SessionId, user: User, file: string)
    | AttachAtomic
    // gateway
    | ConnectOwn(i: nat, client: Client, s: SessionId, claimed: Option<User>)
    | ConnectRead(i: nat)
    | ConnectDone(i: nat)
    | ClientGone(client: Client)
    // worker: scan
    | ScanKeys(keys: seq<SessionId>)
    | ScanNext
    | ScanRead
    | ScanDecide
    | ScanMake(c: ContainerId)
    | ScanRun
    | ScanRecord
    | ScanReread
    | ScanReadTtl
    | ScanStore
    | ScanFails
    // worker: cleanup
    | CleanBegin
    | CleanPick(s: SessionId)
    | CleanCheck
    | CleanStopped
    | CleanStopRefused
    | CleanRemoved
    | CleanRemoveRefused
    | CleanEnd
    | CleanFails

  /** The steps of the variant in which every Redis read-modify-write is indivisible. */
  predicate IsAtomic(step: Step) {
    match step
    case RenewRead(_, _, _) | RenewExpire(_) | ActivityRead(_, _) | ActivityWrite(_) => false
    case UploadRead(_, _, _, _) | UploadTtl(_) | UploadWrite(_) => false
    case ScanReread | ScanReadTtl | ScanStore => false
    case _ => true
  }

  // ---- What the pieces of code compute ----

  function Attach(d: SessionData, s: SessionId, c: ContainerId): SessionData {
    d.(containerId := Some(c), containerName := Some(ContainerNameOf(s)), workspaceRoot := RootOf(s))
  }

  function Upload(d: SessionData, file: string): SessionData {
    if file in d.uploadedFiles then d else d.(uploadedFiles := d.uploadedFiles + [file])
  }

  function Touch(d: SessionData, now: int): SessionData { d.(lastActivity := Some(now)) }

  function Live(redis: map<SessionId, Entry>, now: int): map<SessionId, Entry> {
    map s | s in redis && now < redis[s].expiresAt :: redis[s]
  }

  function OwnerOf(st: State, s: SessionId): Option<User> {
    if s in st.redis then Some(st.redis[s].data.userId) else None
  }

  /** `ttl`: -2 for a missing key. */
  function Ttl(st: State, s: SessionId): int {
    if s in st.redis then st.redis[s].expiresAt - st.now else -2
  }

  function Begin(st: State, i: nat, op: Op): State { st.(ops := st.ops[i := op]) }

  function Finish(st: State, i: nat): State { st.(ops := st.ops - {i}) }

  /** `setex`: stores the whole record with a fresh lease, whether or not the key is still there. */
  function Setex(st: State, s: SessionId, d: SessionData, ttl: int): State {
    st.(redis := st.redis[s := Entry(d, st.now + ttl)])
  }

  function Refresh(st: State, s: SessionId): State { st.(refreshed := st.refreshed[s := st.now]) }

  // ---- The step relation ----

  /** Docker has container `c`, under the name of `s`. */
  predicate Exists(w: Worker, s: SessionId, c: ContainerId) { s in w.names && w.names[s] == c }

  predicate Enabled(st: State, step: Step) {
    match step
    case Tick(_) => true
    case CreateSession(s, _) => s !in st.ledger.creators
    case RenewRead(i, _, _) => i !in st.ops
    case RenewExpire(i) => i in st.ops && st.ops[i].RenewExpiring?
    case ActivityRead(i, _) => i !in st.ops
    case ActivityWrite(i) => i in st.ops && st.ops[i].ActivityWriting?
    case UploadRead(i, _, _, _) => i !in st.ops
    case UploadTtl(i) => i in st.ops && st.ops[i].UploadReadingTtl?
    case UploadWrite(i) => i in st.ops && st.ops[i].UploadWriting?
    case OpFails(i) => i in st.ops
    case RenewAtomic(_, _) => true
    case ActivityAtomic(_) => true
    case UploadAtomic(_, _, _) => true
    case AttachAtomic => st.worker.scan.ScanReget?
    case ConnectOwn(i, _, _, _) => i !in st.ops
    case ConnectRead(i) => i in st.ops && st.ops[i].ConnectReading?
    case ConnectDone(i) => i in st.ops && st.ops[i].ConnectDialling?
    case ClientGone(_) => true
    case ScanKeys(keys) => st.worker.scan.ScanIdle? && (set s | s in keys) == st.redis.Keys
    case ScanNext => st.worker.scan.ScanAt?
    case ScanRead => st.worker.scan.ScanGet?
    case ScanDecide => st.worker.scan.ScanGot?
    case ScanMake(c) =>
      st.worker.scan.ScanCreate? && c !in st.ledger.owners && st.worker.scan.s !in st.worker.names
    case ScanRun => st.worker.scan.ScanStart?
    case ScanRecord => st.worker.scan.ScanStarted?
    case ScanReread => st.worker.scan.ScanReget?
    case ScanReadTtl => st.worker.scan.ScanTtl?
    case ScanStore => st.worker.scan.ScanWrite?
    case ScanFails =>
      var scan := st.worker.scan;
      scan.ScanGet? || scan.ScanCreate? || scan.ScanStart? || scan.ScanReget? || scan.ScanTtl? || scan.ScanWrite?
    case CleanBegin => st.worker.clean.CleanIdle?
    case CleanPick(s) => st.worker.clean.CleanAt? && s in st.worker.containerMap && s !in st.worker.clean.visited
    case CleanCheck => st.worker.clean.CleanExists?
    case CleanStopped => st.worker.clean.CleanStop? && Exists(st.worker, st.worker.clean.s, st.worker.clean.c)
    case CleanStopRefused => st.worker.clean.CleanStop?
    case CleanRemoved => st.worker.clean.CleanRemove?
    case CleanRemoveRefused => st.worker.clean.CleanRemove?
    case CleanEnd => st.worker.clean.CleanAt? && st.worker.containerMap.Keys <= st.worker.clean.visited
    case CleanFails => st.worker.clean.CleanExists?
  }

  datatype Family =
    | ClockStep | Creation | SplitCall | AtomicCall | GatewayCall | ScanStep | StartStep | SweepStep

  /** Whose code takes the step. */
  function FamilyOf(step: Step): (f: Family)
    ensures f.ClockStep? <==> step.Tick?
    ensures f.Creation? <==> step.CreateSession?
  {
    match step
    case Tick(_) => ClockStep
    case CreateSession(_, _) => Creation
    case RenewRead(_, _, _) | RenewExpire(_) | ActivityRead(_, _) | ActivityWrite(_)
       | UploadRead(_, _, _, _) | UploadTtl(_) | UploadWrite(_) | OpFails(_) => SplitCall
    case RenewAtomic(_, _) | ActivityAtomic(_) | UploadAtomic(_, _, _) | AttachAtomic => AtomicCall
    case ConnectOwn(_, _, _, _) | ConnectRead(_) | ConnectDone(_) | ClientGone(_) => GatewayCall
    case ScanKeys(_) | ScanNext | ScanRead | ScanDecide | ScanFails => ScanStep
    case CleanBegin | CleanPick(_) | CleanCheck | CleanStopped | CleanStopRefused | CleanRemoved
       | CleanRemoveRefused | CleanEnd | CleanFails => SweepStep
    case _ => StartStep
  }

  function Apply(st: State, step: Step): State
    requires Enabled(st, step)
  {
    match FamilyOf(step)
    case ClockStep => st.(now := st.now + step.seconds, redis := Live(st.redis, st.now + step.seconds))
    case Creation => Create(st, step.s, step.user)
    case SplitCall => ApplySplit(st, step)
    case AtomicCall => ApplyAtomic(st, step)
    case GatewayCall => ApplyGateway(st, step)
    case ScanStep => ApplyScan(st, step)
    case StartStep => ApplyStart(st, step)
    case SweepStep => ApplyClean(st, step)
  }

  lemma CreatesFresh(st: State, step: Step)
    requires Enabled(st, step)
    ensures step.CreateSession? ==> step.s !in st.ledger.creators
  {}

  function Create(st: State, s: SessionId, user: User): State {
    var d := SessionData(user, RootOf(s), None, None, [], None);
    Refresh(Setex(st, s, d, SESSION_TTL), s).(ledger := st.ledger.(creators := st.ledger.creators[s := user]))
  }

  function ApplySplit(st: State, step: Step): (t: State)
    requires Enabled(st, step)
    ensures t.now == st.now && t.clients == st.clients && t.worker == st.worker && t.ledger == st.ledger
  {
    match step
    case RenewRead(i, s, user) => if OwnerOf(st, s) == Some(user) then Begin(st, i, RenewExpiring(s)) else st
    case RenewExpire(i) =>
      var s := st.ops[i].s;
      var done := Finish(st, i);
      if s in st.redis then Refresh(Setex(done, s, st.redis[s].data, SESSION_TTL), s) else done
    case ActivityRead(i, s) =>
      if s in st.redis then Begin(st, i, ActivityWriting(s, Touch(st.redis[s].data, st.now))) else st
    case ActivityWrite(i) =>
      var op := st.ops[i];
      Refresh(Setex(Finish(st, i), op.s, op.data, SESSION_TTL), op.s)
    case UploadRead(i, s, user, file) =>
      if OwnerOf(st, s) == Some(user)
      then Begin(st, i, UploadReadingTtl(s, Upload(st.redis[s].data, file)))
      else st
    case UploadTtl(i) =>
      var op := st.ops[i];
      if Ttl(st, op.s) > 0 then Begin(st, i, UploadWriting(op.s, op.data, Ttl(st, op.s))) else Finish(st, i)
    case UploadWrite(i) =>
      var op := st.ops[i];
      Setex(Finish(st, i), op.s, op.data, op.ttl)
    case OpFails(i) => Finish(st, i)
    case _ => st
  }

  function ApplyAtomic(st: State, step: Step): (t: State)
    requires Enabled(st, step)
    ensures t.now == st.now && t.ops == st.ops && t.clients == st.clients && t.ledger == st.ledger
    ensures t.worker == st.worker.(scan := t.worker.scan)
  {
    match step
    case RenewAtomic(s, user) =>
      if OwnerOf(st, s) == Some(user) then Refresh(Setex(st, s, st.redis[s].data, SESSION_TTL), s) else st
    case ActivityAtomic(s) =>
      if s in st.redis then Refresh(Setex(st, s, Touch(st.redis[s].data, st.now), SESSION_TTL), s) else st
    case UploadAtomic(s, user, file) =>
      if OwnerOf(st, s) == Some(user) && Ttl(st, s) > 0
      then Setex(st, s, Upload(st.redis[s].data, file), Ttl(st, s))
      else st
    case AttachAtomic =>
      var ScanReget(s, c, rest) := st.worker.scan;
      var done := st.(worker := st.worker.(scan := ScanAt(rest)));
      if s in st.redis && Ttl(st, s) > 0 then Setex(done, s, Attach(st.redis[s].data, s, c), Ttl(st, s)) else done
    case _ => st
  }

  function ApplyGateway(st: State, step: Step): (t: State)
    requires Enabled(st, step)
    ensures t.now == st.now && t.redis == st.redis && t.worker == st.worker
    ensures t.ledger == st.ledger && t.refreshed == st.refreshed
  {
    match step
    case ConnectOwn(i, client, s, claimed) =>
      // `sessionData?.userId === userId`: an absent session matches an absent user
      if OwnerOf(st, s) == claimed then Begin(st, i, ConnectReading(client, s, claimed)) else st
    case ConnectRead(i) =>
      var op := st.ops[i];
      if op.s in st.redis && st.redis[op.s].data.containerId.Some? && st.redis[op.s].data.containerName.Some?
      then Begin(st, i, ConnectDialling(op.client, op.s, op.user, st.redis[op.s].data.workspaceRoot))
      else Finish(st, i)
    case ConnectDone(i) =>
      var op := st.ops[i];
      Finish(st, i).(clients := st.clients[op.client := ClientSession(op.s, op.user, op.root)])
    case ClientGone(client) => st.(clients := st.clients - {client})
    case _ => st
  }

  /** `scanAndCreateContainers`, up to the call that starts a container, and the failure of any of its awaits. */
  function ApplyScan(st: State, step: Step): (t: State)
    requires Enabled(st, step)
    ensures t.now == st.now && t.redis == st.redis && t.ops == st.ops && t.clients == st.clients
    ensures t.ledger == st.ledger && t.refreshed == st.refreshed && t.worker.clean == st.worker.clean
  {
    st.(worker := ScanOn(st.worker, st.redis, step))
  }

  function ScanOn(w: Worker, redis: map<SessionId, Entry>, step: Step): (v: Worker)
    requires match step
      case ScanNext => w.scan.ScanAt?
      case ScanRead => w.scan.ScanGet?
      case ScanDecide => w.scan.ScanGot?
      case ScanFails => !w.scan.ScanGet? ==> w.scan.ScanCreate? || w.scan.ScanStart? || w.scan.ScanReget?
                                             || w.scan.ScanTtl? || w.scan.ScanWrite?
      case _ => true
    ensures v.clean == w.clean
  {
    match step
    case ScanKeys(keys) => w.(scan := ScanAt(keys))
    case ScanNext =>
      var keys := w.scan.keys;
      w.(scan :=
        if keys == [] then ScanIdle
        else if keys[0] in w.containerMap then ScanAt(keys[1..])
        else ScanGet(keys[0], keys[1..]))
    case ScanRead =>
      var ScanGet(s, rest) := w.scan;
      w.(scan := if s in redis then ScanGot(s, redis[s].data, rest) else ScanAt(rest))
    case ScanDecide =>
      var ScanGot(s, d, rest) := w.scan;
      (match d.containerId
       case None => w.(scan := ScanCreate(s, rest))
       case Some(c) => w.(scan := ScanAt(rest), containerMap := w.containerMap[s := c]))
    case ScanFails => w.(scan := if w.scan.ScanGet? then ScanIdle else ScanAt(w.scan.rest))
    case _ => w
  }

  /** `startContainer`, from Docker's answer to the stored record. */
  function ApplyStart(st: State, step: Step): (t: State)
    requires Enabled(st, step)
    ensures t.now == st.now && t.ops == st.ops && t.clients == st.clients && t.refreshed == st.refreshed
    ensures t.worker.clean == st.worker.clean
  {
    var w := st.worker;
    match step
    case ScanMake(c) =>
      var ScanCreate(s, rest) := w.scan;
      st.(worker := w.(scan := ScanStart(s, c, rest), names := w.names[s := c]),
          ledger := st.ledger.(owners := st.ledger.owners[c := s]))
    case ScanRun =>
      var ScanStart(s, c, rest) := w.scan;
      st.(worker := w.(scan := ScanStarted(s, c, rest), running := w.running + {c}))
    case ScanRecord =>
      var ScanStarted(s, c, rest) := w.scan;
      st.(worker := w.(scan := ScanReget(s, c, rest), containerMap := w.containerMap[s := c]))
    case ScanReread =>
      var ScanReget(s, c, rest) := w.scan;
      st.(worker := w.(scan :=
        if s in st.redis then ScanTtl(s, Attach(st.redis[s].data, s, c), rest) else ScanAt(rest)))
    case ScanReadTtl =>
      var ScanTtl(s, d, rest) := w.scan;
      st.(worker := w.(scan := if Ttl(st, s) > 0 then ScanWrite(s, d, Ttl(st, s), rest) else ScanAt(rest)))
    case ScanStore =>
      var ScanWrite(s, d, ttl, rest) := w.scan;
      Setex(st, s, d, ttl).(worker := w.(scan := ScanAt(rest)))
    case _ => st
  }

  function ApplyClean(st: State, step: Step): (t: State)
    requires Enabled(st, step)
    ensures t.now == st.now && t.redis == st.redis && t.ops == st.ops && t.clients == st.clients
    ensures t.ledger == st.ledger && t.refreshed == st.refreshed && t.worker.scan == st.worker.scan
  {
    st.(worker := Sweep(st.worker, st.redis.Keys, step))
  }

  function Sweep(w: Worker, live: set<SessionId>, step: Step): Worker
    requires match step
      case CleanBegin => w.clean.CleanIdle?
      case CleanPick(s) => w.clean.CleanAt? && s in w.containerMap
      case CleanCheck | CleanFails => w.clean.CleanExists?
      case CleanStopped | CleanStopRefused => w.clean.CleanStop?
      case CleanRemoved | CleanRemoveRefused => w.clean.CleanRemove?
      case CleanEnd => w.clean.CleanAt?
      case _ => true
  {
    match step
    case CleanBegin => w.(clean := CleanAt({}, {}))
    case CleanPick(s) => w.(clean := CleanExists(s, w.containerMap[s], w.clean.visited + {s}, w.clean.expired))
    case CleanCheck =>
      var CleanExists(s, c, visited, expired) := w.clean;
      w.(clean := if s in live then CleanAt(visited, expired) else CleanStop(s, c, visited, expired + {s}))
    case CleanStopped =>
      var CleanStop(s, c, visited, expired) := w.clean;
      w.(clean := CleanRemove(s, c, visited, expired), running := w.running - {c})
    case CleanStopRefused =>
      var CleanStop(s, c, visited, expired) := w.clean;
      w.(clean := CleanAt(visited, expired), stopRefused := w.stopRefused + {c})
    case CleanRemoved =>
      w.(clean := CleanAt(w.clean.visited, w.clean.expired), names := w.names - {w.clean.s})
    case CleanRemoveRefused => w.(clean := CleanAt(w.clean.visited, w.clean.expired))
    case CleanEnd => w.(clean := CleanIdle, containerMap := w.containerMap - w.clean.expired)
    case CleanFails => w.(clean := CleanIdle)
    case _ => w
  }

  /** `steps` can be taken one after the other from `st`, and end in `end`. */
  predicate Runs(st: State, steps: seq<Step>, end: State)
    decreases |steps|
  {
    if steps == [] then st == end
    else Enabled(st, steps[0]) && Runs(Apply(st, steps[0]), steps[1..], end)
  }

  predicate AllAtomic(steps: seq<Step>) {
    forall i :: 0 <= i < |steps| ==> IsAtomic(steps[i])
  }
}
