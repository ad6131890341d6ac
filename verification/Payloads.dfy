/**
 Moving the payload of an invocation to an actor and its response back. Payloads over a threshold go
 through an object store, under the invocation's id and, for responses, the id with "-r" behind it.
 */
module Payloads {
  import opened Options

  /** One character a byte. */
  type Bytes = string

  const REQUEST_THRESHOLD: nat := 1024 * 700
  const RESPONSE_THRESHOLD: nat := 900 * 1024

  /** Invocation ids are UUIDs in text form. */
  const ID_LENGTH: nat := 36

  /** The chunk store may not have been set up. */
  datatype Store = NoStore | Objects(objects: map<string, Bytes>)

  /** What the actor's code gives back. */
  datatype Reply = Success(payload: Bytes) | Failure(reason: string)

  datatype Request = Request(id: string, msg: Bytes, contentLength: nat)

  datatype Response = Response(id: string, msg: Bytes, contentLength: Option<nat>, error: Option<string>)

  function ResponseKey(id: string): string {
    id + "-r"
  }

  function Chonk(store: Store, key: string, bytes: Bytes): Store {
    match store
    case NoStore => NoStore
    case Objects(objects) => Objects(objects[key := bytes])
  }

  /** Takes an object out; without a store there is nothing to take and no error either. */
  function Unchonk(store: Store, key: string): (Store, Result<Bytes>) {
    match store
    case NoStore => (NoStore, Ok([]))
    case Objects(objects) =>
      if key in objects then (Objects(objects - {key}), Ok(objects[key])) else (store, Err("no such object"))
  }

  function OrEmpty(r: Result<Bytes>): Bytes {
    if r.Ok? then r.value else []
  }

  /** Building the invocation to send. */
  function Send(store: Store, id: string, payload: Bytes): (Store, Request) {
    if |payload| > REQUEST_THRESHOLD
    then (Chonk(store, id, payload), Request(id, [], |payload|))
    else (store, Request(id, payload, |payload|))
  }

  /** What the actor is invoked with. */
  function Receive(store: Store, request: Request): (Store, Bytes) {
    if request.contentLength > |request.msg| then
      var (rest, taken) := Unchonk(store, request.id);
      (rest, OrEmpty(taken))
    else (store, request.msg)
  }

  function Respond(store: Store, id: string, reply: Reply): (Store, Response) {
    match reply
    case Failure(reason) => (store, Response(id, [], Some(0), Some(reason)))
    case Success(payload) =>
      if |payload| > RESPONSE_THRESHOLD
      then (Chonk(store, ResponseKey(id), payload), Response(id, [], Some(|payload|), None))
      else (store, Response(id, payload, Some(|payload|), None))
  }

  /** An invocation turned away by the checks before the actor: an error and nothing else. */
  function Refuse(id: string, reason: string): Response {
    Response(id, [], None, Some(reason))
  }

  /** What the caller is told. */
  function Accept(store: Store, response: Response): (Store, Reply) {
    if response.error.Some? then (store, Failure(response.error.value))
    else if response.contentLength.Some? && response.contentLength.value > |response.msg| then
      var (rest, taken) := Unchonk(store, ResponseKey(response.id));
      (rest, Success(OrEmpty(taken)))
    else (store, Success(response.msg))
  }

  // ---------- the store in place ----------

  class ObjectStore {
    var configured: bool
    var objects: map<string, Bytes>

    ghost function Abstract(): Store
      reads this
    {
      if configured then Objects(objects) else NoStore
    }

    constructor (configured: bool)
      ensures Abstract() == if configured then Objects(map[]) else NoStore
    {
      this.configured, objects := configured, map[];
    }

    method ChonkToObjectStore(key: string, bytes: Bytes)
      modifies this
      ensures Abstract() == Chonk(old(Abstract()), key, bytes)
    {
      if configured {
        objects := objects[key := bytes];
      }
    }

    method UnchonkFromObjectStore(key: string) returns (r: Result<Bytes>)
      modifies this
      ensures (Abstract(), r) == Unchonk(old(Abstract()), key)
    {
      var result: Bytes := [];
      if configured {
        if key !in objects {
          return Err("no such object");
        }
        result := objects[key];
        objects := objects - {key};
      }
      return Ok(result);
    }

    method GenerateInvocation(id: string, payload: Bytes) returns (request: Request)
      modifies this
      ensures (Abstract(), request) == Send(old(Abstract()), id, payload)
    {
      var msg := payload;
      if |payload| > REQUEST_THRESHOLD {
        msg := [];
        ChonkToObjectStore(id, payload);
      }
      request := Request(id, msg, |payload|);
    }
  }

  // ---------- any number of invocations at once ----------

  datatype Phase =
    | Requested(request: Request)
    | Running
    | Replied(response: Response)
    | Done(told: Reply)

  /** `seen` is what the actor was invoked with, `made` what it gave back, if it got that far. */
  datatype Call = Call(payload: Bytes, phase: Phase, seen: Option<Bytes>, made: Option<Reply>)

  datatype World = World(store: Store, calls: map<string, Call>)

  datatype Step =
    | Invoke(id: string, payload: Bytes)
    | Arrive(id: string)
    | TurnAway(id: string, reason: string)
    | Finish(id: string, reply: Reply)
    | Collect(id: string)

  predicate Enabled(w: World, step: Step) {
    match step
    case Invoke(id, _) => |id| == ID_LENGTH && id !in w.calls
    case Arrive(id) => id in w.calls && w.calls[id].phase.Requested?
    case TurnAway(id, _) => id in w.calls && w.calls[id].phase.Requested?
    case Finish(id, _) => id in w.calls && w.calls[id].phase.Running?
    case Collect(id) => id in w.calls && w.calls[id].phase.Replied?
  }

  function Next(w: World, step: Step): World
    requires Enabled(w, step)
  {
    match step
    case Invoke(id, payload) =>
      var (store, request) := Send(w.store, id, payload);
      World(store, w.calls[id := Call(payload, Requested(request), None, None)])
    case Arrive(id) =>
      var call := w.calls[id];
      var (store, msg) := Receive(w.store, call.phase.request);
      World(store, w.calls[id := call.(phase := Running, seen := Some(msg))])
    case TurnAway(id, reason) =>
      World(w.store, w.calls[id := w.calls[id].(phase := Replied(Refuse(id, reason)), made := Some(Failure(reason)))])
    case Finish(id, reply) =>
      var (store, response) := Respond(w.store, id, reply);
      World(store, w.calls[id := w.calls[id].(phase := Replied(response), made := Some(reply))])
    case Collect(id) =>
      var call := w.calls[id];
      var (store, told) := Accept(w.store, call.phase.response);
      World(store, w.calls[id := call.(phase := Done(told))])
  }

  ghost predicate Reaches(w: World, steps: seq<Step>, w': World)
    decreases |steps|
  {
    if steps == [] then w == w' else Enabled(w, steps[0]) && Reaches(Next(w, steps[0]), steps[1..], w')
  }

  function Start(configured: bool): World {
    World(if configured then Objects(map[]) else NoStore, map[])
  }

  /** The request went through the store and the actor has not taken it out: it is on its way, or was turned away. */
  predicate RequestStored(c: Call) {
    |c.payload| > REQUEST_THRESHOLD && c.seen.None?
  }

  /** The response went through the store and the caller has not taken it out. */
  predicate ResponseStored(c: Call) {
    c.phase.Replied? && c.made.Some? && c.made.value.Success? && |c.made.value.payload| > RESPONSE_THRESHOLD
  }

  /** What a store object under a key should be, given the calls. */
  function Expected(calls: map<string, Call>, key: string): Option<Bytes> {
    if key in calls && RequestStored(calls[key]) then Some(calls[key].payload)
    else if |key| == ID_LENGTH + 2 && key[ID_LENGTH..] == "-r"
         && key[..ID_LENGTH] in calls && ResponseStored(calls[key[..ID_LENGTH]])
    then Some(calls[key[..ID_LENGTH]].made.value.payload)
    else None
  }

  /** A payload as it comes through without a store: whole, or not at all. */
  function Through(store: Store, payload: Bytes, threshold: nat): Bytes {
    if store.NoStore? && |payload| > threshold then [] else payload
  }

  predicate CallSound(id: string, c: Call, store: Store) {
    && |id| == ID_LENGTH
    && (c.seen.Some? ==> c.seen.value == Through(store, c.payload, REQUEST_THRESHOLD))
    && match c.phase
       case Requested(request) => request == Send(store, id, c.payload).1 && c.seen.None? && c.made.None?
       case Running => c.seen.Some? && c.made.None?
       case Replied(response) =>
         c.made.Some? && if c.seen.Some? then response == Respond(store, id, c.made.value).1
                         else c.made.value.Failure? && response == Refuse(id, c.made.value.reason)
       case Done(told) =>
         c.made.Some? && told == match c.made.value
                                 case Failure(_) => c.made.value
                                 case Success(payload) => Success(Through(store, payload, RESPONSE_THRESHOLD))
  }

  ghost predicate Invariant(w: World) {
    && (forall id :: id in w.calls ==> CallSound(id, w.calls[id], w.store))
    && (w.store.Objects? ==> forall key :: Get(w.store.objects, key) == Expected(w.calls, key))
  }

  lemma StepKeepsCalls(w: World, step: Step)
    requires Invariant(w) && Enabled(w, step)
    ensures var w' := Next(w, step);
      w'.store.Objects? == w.store.Objects? && forall id :: id in w'.calls ==> CallSound(id, w'.calls[id], w'.store)
  {
    var w', id := Next(w, step), step.id;
    if w.store.Objects? {
      assert Get(w.store.objects, id) == Expected(w.calls, id);
      assert |id| == ID_LENGTH && ResponseKey(id)[..ID_LENGTH] == id && ResponseKey(id)[ID_LENGTH..] == "-r";
      assert Get(w.store.objects, ResponseKey(id)) == Expected(w.calls, ResponseKey(id));
    }
    forall o | o in w.calls && o != id ensures CallSound(o, w'.calls[o], w'.store) {
      assert CallSound(o, w.calls[o], w.store);
    }
  }

  lemma StepKeepsStore(w: World, step: Step, key: string)
    requires Invariant(w) && Enabled(w, step) && w.store.Objects?
    ensures Next(w, step).store.Objects? && Get(Next(w, step).store.objects, key) == Expected(Next(w, step).calls, key)
  {
    var id := step.id;
    assert Get(w.store.objects, key) == Expected(w.calls, key);
    assert |id| == ID_LENGTH && ResponseKey(id)[..ID_LENGTH] == id && ResponseKey(id)[ID_LENGTH..] == "-r";
    if |key| == ID_LENGTH + 2 {
      assert key == key[..ID_LENGTH] + key[ID_LENGTH..];
    }
  }

  lemma StepKeeps(w: World, step: Step)
    requires Invariant(w) && Enabled(w, step)
    ensures Invariant(Next(w, step)) && Next(w, step).store.Objects? == w.store.Objects?
  {
    var w' := Next(w, step);
    StepKeepsCalls(w, step);
    if w.store.Objects? {
      forall key ensures Get(w'.store.objects, key) == Expected(w'.calls, key) {
        StepKeepsStore(w, step, key);
      }
    }
  }

  lemma {:induction false} RunKeeps(w: World, steps: seq<Step>, w': World)
    requires Invariant(w) && Reaches(w, steps, w')
    ensures Invariant(w') && w'.store.Objects? == w.store.Objects?
    decreases |steps|
  {
    if steps != [] {
      StepKeeps(w, steps[0]);
      RunKeeps(Next(w, steps[0]), steps[1..], w');
    }
  }

  /**
   In any interleaving the actor is invoked with exactly the payload sent, and the caller told exactly what
   the actor gave back, unless no chunk store is set up and the payload is over its threshold: then it is lost.
   */
  lemma PayloadsComeThroughIff(configured: bool, steps: seq<Step>, w: World, id: string)
    requires Reaches(Start(configured), steps, w) && id in w.calls
    ensures var c := w.calls[id];
      && (c.seen.Some? ==> (c.seen.value == c.payload <==> configured || |c.payload| <= REQUEST_THRESHOLD))
      && (c.phase.Done? ==> c.made.Some?)
      && (c.phase.Done? ==>
            (c.phase.told == c.made.value <==>
              configured || c.made.value.Failure? || |c.made.value.payload| <= RESPONSE_THRESHOLD))
  {
    RunKeeps(Start(configured), steps, w);
    assert CallSound(id, w.calls[id], w.store);
  }

  /**
   The store holds exactly the large requests no actor took and the large responses no caller took. A large
   request that was turned away before the actor is never taken.
   */
  lemma StoreHoldsWhatIsOwed(steps: seq<Step>, w: World)
    requires Reaches(Start(true), steps, w)
    ensures w.store.Objects? && forall key :: Get(w.store.objects, key) == Expected(w.calls, key)
    ensures (forall id :: id in w.calls ==> w.calls[id].phase.Done?) ==>
      (w.store.objects == map[] <==> forall id :: id in w.calls ==> !RequestStored(w.calls[id]))
  {
    RunKeeps(Start(true), steps, w);
    if forall id :: id in w.calls ==> w.calls[id].phase.Done? {
      if id :| id in w.calls && RequestStored(w.calls[id]) {
        assert Get(w.store.objects, id).Some?;
        assert id in w.store.objects;
      } else {
        forall key ensures key !in w.store.objects {
          assert Get(w.store.objects, key) == Expected(w.calls, key);
        }
      }
    }
  }

  /** Ids of one length keep requests and responses apart: no id is another's response key. */
  lemma KeysStayApart(a: string, b: string)
    requires |a| == ID_LENGTH && |b| == ID_LENGTH
    ensures ResponseKey(a) != b && (ResponseKey(a) == ResponseKey(b) ==> a == b)
  {
    if ResponseKey(a) == ResponseKey(b) {
      assert a == ResponseKey(a)[..ID_LENGTH] == ResponseKey(b)[..ID_LENGTH] == b;
    }
  }

  // ---------- runs in which payloads are lost or left ----------

  /** An id of the right length, and a payload over every threshold. */
  const SOME_ID: string := seq(ID_LENGTH, _ => 'a')
  const LARGE: Bytes := seq(REQUEST_THRESHOLD + 1, _ => 'x')

  /** Without a store the actor is invoked with nothing, and nobody is told. */
  lemma LostWithoutStore() returns (steps: seq<Step>, w: World)
    ensures steps == [Invoke(SOME_ID, LARGE), Arrive(SOME_ID)] && Reaches(Start(false), steps, w)
    ensures SOME_ID in w.calls && w.calls[SOME_ID].seen == Some([]) && w.calls[SOME_ID].payload == LARGE != []
  {
    var w1 := Next(Start(false), Invoke(SOME_ID, LARGE));
    w, steps := Next(w1, Arrive(SOME_ID)), [Invoke(SOME_ID, LARGE), Arrive(SOME_ID)];
    assert steps[1..] == [Arrive(SOME_ID)] && steps[1..][1..] == [];
    assert |LARGE| == REQUEST_THRESHOLD + 1;
  }

  /** A large request turned away is in the store for good: the caller has its answer, no call is open. */
  lemma LeftWhenTurnedAway() returns (steps: seq<Step>, w: World)
    ensures steps == [Invoke(SOME_ID, LARGE), TurnAway(SOME_ID, "denied"), Collect(SOME_ID)]
    ensures Reaches(Start(true), steps, w) && (forall id :: id in w.calls ==> w.calls[id].phase.Done?)
    ensures w.store == Objects(map[SOME_ID := LARGE])
  {
    var turnAway, collect := TurnAway(SOME_ID, "denied"), Collect(SOME_ID);
    var w1 := Next(Start(true), Invoke(SOME_ID, LARGE));
    var w2 := Next(w1, turnAway);
    w, steps := Next(w2, collect), [Invoke(SOME_ID, LARGE), turnAway, collect];
    assert steps[1..] == [turnAway, collect] && [turnAway, collect][1..] == [collect] && [collect][1..] == [];
    assert Reaches(w2, [collect], w);
    assert Reaches(w1, [turnAway, collect], w);
    assert |LARGE| == REQUEST_THRESHOLD + 1;
  }
}
