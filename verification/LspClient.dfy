/**
 Request correlation in cli/lib/lsp/lsp_client.dart: ids, pending completers, responses and timeouts.

 `Calls` is the bookkeeping and `Apply` one event of it; `LspClient` is the object, whose methods do exactly
 that. A completer removed from the pending map by a response it could not digest is `lost`: its caller hears
 nothing until the timer fires.
 */
module LspClient {
  import opened Sequences

  datatype IdField = NoId | NullId | IntId(id: int) | OtherId
  datatype ErrorField = NoError | ErrorObject(message: string) | OddError
  datatype Result = Nothing | Object(text: string) | List(items: seq<string>) | Scalar(text: string)

  /** An incoming message, as far as the client looks at it. */
  datatype Message = Unparsable | Message(id: IdField, error: ErrorField, result: Result)

  /** What a request's completer takes: an object or null (`initialize`), or anything (`definition`). */
  datatype Kind = ObjectOrNull | Anything

  predicate Accepts(kind: Kind, result: Result) { kind.Anything? || result.Nothing? || result.Object? }

  datatype Settlement = Completed(result: Result) | Errored(message: string) | TimedOut

  datatype Calls = Calls(nextId: int, pending: map<int, Kind>, lost: set<int>, settled: map<int, Settlement>)

  const NO_CALLS := Calls(1, map[], {}, map[])

  /** `Expire` is a request's timer firing; a settled request's timer has been cancelled. */
  datatype Event = Send(kind: Kind) | Receive(m: Message) | Expire(id: int) | Disconnect

  predicate Possible(c: Calls, e: Event) {
    e.Expire? ==> e.id in c.pending || e.id in c.lost
  }

  function Apply(c: Calls, e: Event): Calls {
    match e
    case Send(kind) => c.(nextId := c.nextId + 1, pending := c.pending[c.nextId := kind])
    case Receive(m) => Digest(c, m)
    case Expire(id) =>
      c.(pending := c.pending - {id}, lost := c.lost - {id}, settled := c.settled[id := TimedOut])
    case Disconnect => c
  }

  /** The completer is taken out before anything in the message is looked at; what it refuses is lost. */
  function Digest(c: Calls, m: Message): Calls {
    match m
    case Message(IntId(id), error, result) =>
      if id !in c.pending then c
      else
        var removed := c.(pending := c.pending - {id});
        (match error
         case NoError =>
           if Accepts(c.pending[id], result)
           then removed.(settled := c.settled[id := Completed(result)])
           else removed.(lost := c.lost + {id})
         case ErrorObject(message) => removed.(settled := c.settled[id := Errored(message)])
         case OddError => removed.(lost := c.lost + {id}))
    case _ => c
  }

  predicate Runs(c: Calls, events: seq<Event>, end: Calls)
    decreases |events|
  {
    if events == [] then c == end
    else Possible(c, events[0]) && Runs(Apply(c, events[0]), events[1..], end)
  }

  // ---- Every id is in one place ----

  /** Every id issued so far is pending, lost or settled, and in one of these only. */
  ghost predicate Accounted(c: Calls) {
    && (forall id :: 1 <= id < c.nextId <==> id in c.pending || id in c.lost || id in c.settled)
    && c.pending.Keys !! c.lost && c.pending.Keys !! c.settled.Keys && c.lost !! c.settled.Keys
    && 1 <= c.nextId
  }

  lemma AccountKept(c: Calls, e: Event)
    requires Accounted(c) && Possible(c, e)
    ensures Accounted(Apply(c, e))
    ensures forall id :: id in c.settled ==> id in Apply(c, e).settled && Apply(c, e).settled[id] == c.settled[id]
  {}

  lemma {:induction false} AccountedAlways(c: Calls, events: seq<Event>, end: Calls)
    requires Accounted(c) && Runs(c, events, end)
    ensures Accounted(end)
    ensures forall id :: id in c.settled ==> id in end.settled && end.settled[id] == c.settled[id]
    decreases |events|
  {
    if events != [] {
      AccountKept(c, events[0]);
      AccountedAlways(Apply(c, events[0]), events[1..], end);
    }
  }

  /** The message is one its request can digest: an error object; any result, or for `initialize` an object or null. */
  predicate Fits(c: Calls, e: Event) {
    match e
    case Receive(Message(IntId(id), error, result)) =>
      id in c.pending ==>
        || error.ErrorObject?
        || (error.NoError? && (c.pending[id] == Anything || result == Nothing || result.Object?))
    case _ => true
  }

  predicate AllFit(c: Calls, events: seq<Event>)
    decreases |events|
  {
    events == [] || (Fits(c, events[0]) && AllFit(Apply(c, events[0]), events[1..]))
  }

  predicate NeverLoses(c: Calls, events: seq<Event>)
    decreases |events|
  {
    c.lost == {} && (events == [] || NeverLoses(Apply(c, events[0]), events[1..]))
  }

  lemma FitsIff(c: Calls, e: Event)
    requires c.lost == {}
    ensures Apply(c, e).lost == {} <==> Fits(c, e)
  {
    if !Fits(c, e) {
      assert e.m.id.id in Apply(c, e).lost;
    }
  }

  /** A caller is at no time left hanging if and only if every answer to a pending request fits that request. */
  lemma {:induction false} NothingIsLostIff(c: Calls, events: seq<Event>)
    requires c.lost == {}
    ensures NeverLoses(c, events) <==> AllFit(c, events)
    decreases |events|
  {
    if events != [] {
      FitsIff(c, events[0]);
      if Fits(c, events[0]) {
        NothingIsLostIff(Apply(c, events[0]), events[1..]);
      } else {
        assert Apply(c, events[0]).lost != {};
      }
    }
  }

  lemma {:induction false} NeverLosesAtEnd(c: Calls, events: seq<Event>, end: Calls)
    requires Runs(c, events, end) && NeverLoses(c, events)
    ensures end.lost == {}
    decreases |events|
  {
    if events != [] {
      NeverLosesAtEnd(Apply(c, events[0]), events[1..], end);
    }
  }

  function Answered(c: Calls): set<int> { set id | id in c.settled && !c.settled[id].TimedOut? }
  function Expired(c: Calls): set<int> { set id | id in c.settled && c.settled[id].TimedOut? }

  /**
   With a peer whose answers fit their requests, the ids issued are exactly the pending, the answered and the
   timed-out ones, no id is two of these, and every pending id lies below the next one to be issued.
   */
  lemma IdsAreConserved(events: seq<Event>, c: Calls)
    requires Runs(NO_CALLS, events, c) && AllFit(NO_CALLS, events)
    ensures forall id :: 1 <= id < c.nextId <==> id in c.pending.Keys + Answered(c) + Expired(c)
    ensures c.pending.Keys !! Answered(c) && c.pending.Keys !! Expired(c) && Answered(c) !! Expired(c)
  {
    AccountedAlways(NO_CALLS, events, c);
    NothingIsLostIff(NO_CALLS, events);
    NeverLosesAtEnd(NO_CALLS, events, c);
  }

  // ---- A request's fate depends on nothing but its own events ----

  datatype Fate = Unsent | Waiting(kind: Kind) | Adrift | Settled(s: Settlement)

  function FateOf(c: Calls, id: int): Fate {
    if id in c.pending then Waiting(c.pending[id])
    else if id in c.lost then Adrift
    else if id in c.settled then Settled(c.settled[id])
    else Unsent
  }

  /** The events that bear the request's id. */
  predicate Concerns(e: Event, id: int) {
    || (e.Receive? && e.m.Message? && e.m.id == IntId(id))
    || (e.Expire? && e.id == id)
  }

  function Own(events: seq<Event>, id: int): seq<Event> {
    if events == [] then []
    else if Concerns(events[0], id) then [events[0]] + Own(events[1..], id)
    else Own(events[1..], id)
  }

  /** What becomes of a request of that kind, given the events that bear its id: the first of them decides. */
  ghost predicate Decided(kind: Kind, own: seq<Event>, id: int, fate: Fate) {
    if own == [] then fate == Waiting(kind)
    else
      match own[0]
      case Expire(_) => fate == Settled(TimedOut)
      case Receive(Message(_, ErrorObject(message), _)) => fate == Settled(Errored(message))
      case Receive(Message(_, NoError, result)) =>
        if kind == Anything || result == Nothing || result.Object? then fate == Settled(Completed(result))
        else fate == if Expire(id) in own then Settled(TimedOut) else Adrift
      case _ => fate == if Expire(id) in own then Settled(TimedOut) else Adrift
  }

  lemma SettledStays(c: Calls, events: seq<Event>, end: Calls, id: int)
    requires Accounted(c) && Runs(c, events, end) && id in c.settled
    ensures FateOf(end, id) == Settled(c.settled[id])
  {
    AccountedAlways(c, events, end);
    assert 1 <= id < c.nextId;
  }

  /** A lost completer waits for its timer and for nothing else. */
  lemma {:induction false} LostWaitsForItsTimer(c: Calls, events: seq<Event>, end: Calls, id: int)
    requires Accounted(c) && Runs(c, events, end) && id in c.lost
    ensures FateOf(end, id) == if Expire(id) in Own(events, id) then Settled(TimedOut) else Adrift
    decreases |events|
  {
    if events != [] {
      var next := Apply(c, events[0]);
      AccountKept(c, events[0]);
      if events[0] == Expire(id) {
        SettledStays(next, events[1..], end, id);
      } else {
        LostWaitsForItsTimer(next, events[1..], end, id);
      }
    }
  }

  lemma {:induction false} FirstEventDecides(c: Calls, events: seq<Event>, end: Calls, id: int)
    requires Accounted(c) && Runs(c, events, end) && id in c.pending
    ensures Decided(c.pending[id], Own(events, id), id, FateOf(end, id))
    decreases |events|
  {
    if events != [] {
      var next := Apply(c, events[0]);
      AccountKept(c, events[0]);
      if !Concerns(events[0], id) {
        assert id in next.pending && next.pending[id] == c.pending[id];
        FirstEventDecides(next, events[1..], end, id);
      } else if id in next.settled {
        SettledStays(next, events[1..], end, id);
      } else {
        LostWaitsForItsTimer(next, events[1..], end, id);
      }
    }
  }

  /**
   However the traffic of other requests is interleaved, with disconnections and stray messages in between, a
   request ends as its own responses and its own timer say: the first response bearing its id settles it, later
   ones change nothing.
   */
  lemma RequestsDoNotInterfere(before: seq<Event>, c: Calls, kind: Kind, events: seq<Event>, end: Calls)
    requires Runs(NO_CALLS, before, c) && Runs(Apply(c, Send(kind)), events, end)
    ensures Decided(kind, Own(events, c.nextId), c.nextId, FateOf(end, c.nextId))
  {
    AccountedAlways(NO_CALLS, before, c);
    AccountKept(c, Send(kind));
    FirstEventDecides(Apply(c, Send(kind)), events, end, c.nextId);
  }

  /** A message bearing an id nobody waits for changes nothing at all. */
  lemma UnknownIdsAreIgnored(c: Calls, m: Message)
    ensures Digest(c, m) == c <==> !(m.Message? && m.id.IntId? && m.id.id in c.pending)
  {}

  // ---- The object ----

  datatype State = Disconnected | Connecting | Connected | Initializing | Initialized | Failed

  /** A promise of the reply to `request`. */
  datatype Completer = Completer(request: int, kind: Kind)

  function Kinds(pending: map<int, Completer>): (kinds: map<int, Kind>)
    ensures kinds.Keys == pending.Keys
  {
    map id | id in pending :: pending[id].kind
  }

  lemma KindsFollow(pending: map<int, Completer>, id: int, c: Completer)
    ensures Kinds(pending[id := c]) == Kinds(pending)[id := c.kind]
    ensures Kinds(pending - {id}) == Kinds(pending) - {id}
  {}

  class LspClient {
    var state: State
    var nextId: int
    var pendingRequests: map<int, Completer>
    var settled: map<int, Settlement>  // what each caller has been told
    ghost var lost: set<int>

    constructor ()
      ensures Bookkeeping() == NO_CALLS && Valid() && state == Disconnected
      ensures nextId == 1 && pendingRequests == map[] && settled == map[]
    {
      state, nextId, pendingRequests, settled, lost := Disconnected, 1, map[], map[], {};
    }

    ghost function Bookkeeping(): Calls
      reads this
    {
      Calls(nextId, Kinds(pendingRequests), lost, settled)
    }

    /** A pending completer is the one its own request is waiting on. */
    ghost predicate Valid()
      reads this
    {
      Accounted(Bookkeeping()) && forall id :: id in pendingRequests ==> pendingRequests[id].request == id
    }

    /** An id never issued before, and from now on issued. */
    method GenerateId() returns (id: int)
      requires Valid()
      modifies this`nextId
      ensures id !in pendingRequests && id !in lost && id !in settled
      ensures forall k :: k in pendingRequests || k in lost || k in settled ==> k < id
      ensures id == old(nextId) < nextId == id + 1
    {
      assert forall k :: k in pendingRequests <==> k in Bookkeeping().pending;
      id := nextId;
      nextId := nextId + 1;
    }

    /** Takes an id and registers its completer. */
    method SendRequest(kind: Kind) returns (id: int)
      requires Valid()
      modifies this`nextId, this`pendingRequests
      ensures Valid() && id == old(nextId)
      ensures pendingRequests == old(pendingRequests)[id := Completer(id, kind)] && nextId == old(nextId) + 1
      ensures Bookkeeping() == Apply(old(Bookkeeping()), Send(kind))
    {
      AccountKept(Bookkeeping(), Send(kind));
      id := GenerateId();
      KindsFollow(pendingRequests, id, Completer(id, kind));
      pendingRequests := pendingRequests[id := Completer(id, kind)];
    }

    /** Refuses unless the connection is up, and then issues no id. */
    method Initialize() returns (id: Option<int>)
      requires Valid()
      modifies this
      ensures Valid()
      ensures old(state) != Connected ==>
                id == None && state == old(state) && Bookkeeping() == old(Bookkeeping())
      ensures old(state) == Connected ==>
                id == Some(old(nextId)) && state == Initializing
                && pendingRequests == old(pendingRequests)[old(nextId) := Completer(old(nextId), ObjectOrNull)]
                && Bookkeeping() == Apply(old(Bookkeeping()), Send(ObjectOrNull))
    {
      if state != Connected { return None; }
      state := Initializing;
      var i := SendRequest(ObjectOrNull);
      return Some(i);
    }

    method GoToDefinition() returns (id: Option<int>)
      requires Valid()
      modifies this
      ensures Valid() && state == old(state)
      ensures old(state) != Initialized ==> id == None && Bookkeeping() == old(Bookkeeping())
      ensures old(state) == Initialized ==>
                id == Some(old(nextId))
                && pendingRequests == old(pendingRequests)[old(nextId) := Completer(old(nextId), Anything)]
                && Bookkeeping() == Apply(old(Bookkeeping()), Send(Anything))
    {
      if state != Initialized { return None; }
      var i := SendRequest(Anything);
      return Some(i);
    }

    method Complete(c: Completer, s: Settlement)
      modifies this`settled
      ensures settled == old(settled)[c.request := s]
    {
      settled := settled[c.request := s];
    }

    /**
     The completer that bears the message's id goes, and hears of an error object, or of a result it takes; of anything
     else it hears nothing. No message without such a completer changes anything.
     */
    method HandleLspMessage(m: Message)
      requires Valid()
      modifies this
      ensures Valid() && state == old(state) && nextId == old(nextId)
      ensures forall id :: m.Message? && m.id == IntId(id) && id in old(pendingRequests) ==>
                && pendingRequests == old(pendingRequests) - {id}
                && match m.error
                   case ErrorObject(message) =>
                     settled == old(settled)[id := Errored(message)] && lost == old(lost)
                   case NoError =>
                     if old(pendingRequests)[id].kind == Anything || m.result == Nothing || m.result.Object?
                     then settled == old(settled)[id := Completed(m.result)] && lost == old(lost)
                     else settled == old(settled) && lost == old(lost) + {id}
                   case OddError => settled == old(settled) && lost == old(lost) + {id}
      ensures !(m.Message? && m.id.IntId? && m.id.id in old(pendingRequests)) ==>
                pendingRequests == old(pendingRequests) && settled == old(settled) && lost == old(lost)
      ensures Bookkeeping() == Apply(old(Bookkeeping()), Receive(m))
    {
      AccountKept(Bookkeeping(), Receive(m));
      match m
      case Message(IntId(id), error, result) =>
        if id in pendingRequests {
          var completer := pendingRequests[id];
          KindsFollow(pendingRequests, id, completer);
          pendingRequests := pendingRequests - {id};
          match error
          case NoError =>
            if Accepts(completer.kind, result) {
              Complete(completer, Completed(result));
            } else {
              lost := lost + {id};  // `complete` throws: a result of a type this completer does not take
            }
          case ErrorObject(message) => Complete(completer, Errored(message));
          case OddError => lost := lost + {id};  // the cast throws: the completer is gone and was never completed
        }
      case _ =>  // no id, a null id, one of another type, or no JSON object: nobody is told anything
    }

    /** The timer of `id`, which is cancelled as soon as the completer completes. */
    method OnTimeout(id: int)
      requires Valid() && Possible(Bookkeeping(), Expire(id))
      modifies this
      ensures Valid() && state == old(state) && nextId == old(nextId)
      ensures pendingRequests == old(pendingRequests) - {id} && settled == old(settled)[id := TimedOut]
      ensures lost == old(lost) - {id}
      ensures Bookkeeping() == Apply(old(Bookkeeping()), Expire(id))
    {
      AccountKept(Bookkeeping(), Expire(id));
      KindsFollow(pendingRequests, id, Completer(id, Anything));
      pendingRequests := pendingRequests - {id};
      lost := lost - {id};
      settled := settled[id := TimedOut];
    }

    /** Drops the socket; requests in flight stay pending until their timers fire. */
    method Disconnect()
      requires Valid()
      modifies this
      ensures Valid() && state == Disconnected && nextId == old(nextId)
      ensures pendingRequests == old(pendingRequests) && settled == old(settled) && lost == old(lost)
      ensures Bookkeeping() == Apply(old(Bookkeeping()), Event.Disconnect)
    {
      state := Disconnected;
    }
  }
}
