/**
 The hand-off of a host call's result from the Elixir side back to the waiting wasm runtime: a mutex
 around an optional result and a condition variable the runtime's handler waits on.
 */
module Callback {
  import opened Options

  /** The result of a host call: whether it succeeded, and its bytes. */
  type Value = (bool, string)

  /** What the handler gives the actor for it. */
  function Outcome(v: Value): Result<string> {
    if v.0 then Ok(v.1) else Err("Host call function failed: " + v.1)
  }

  /** Asleep is inside the wait, without the lock; Waking has left it and wants the lock back. */
  datatype Handler = Locking | Checking | Asleep | Waking | Returned(outcome: Result<string>)

  datatype Phase = Ready | Holding | Stored | Notified | Finished

  /** One call of `receive_callback_result`. */
  datatype Poster = Poster(value: Value, phase: Phase)

  datatype Owner = Free | TheHandler | ThePoster(index: nat)

  /** `stored` lists the values written into the result, in order. */
  datatype World =
    World(owner: Owner, result: Option<Value>, handler: Handler, posters: seq<Poster>, stored: seq<Value>)

  datatype Step =
    | Lock
    | Check
    | WakeSpuriously
    | Acquire(index: nat)
    | Store(index: nat)
    | Notify(index: nat)
    | Release(index: nat)

  predicate InPhase(w: World, i: nat, phase: Phase) {
    i < |w.posters| && w.posters[i].phase == phase
  }

  predicate Enabled(w: World, step: Step) {
    match step
    case Lock => (w.handler.Locking? || w.handler.Waking?) && w.owner.Free?
    case Check => w.handler.Checking?
    case WakeSpuriously => w.handler.Asleep?
    case Acquire(i) => InPhase(w, i, Ready) && w.owner.Free?
    case Store(i) => InPhase(w, i, Holding)
    case Notify(i) => InPhase(w, i, Stored)
    case Release(i) => InPhase(w, i, Notified)
  }

  function Move(w: World, i: nat, phase: Phase): World
    requires i < |w.posters|
  {
    w.(posters := w.posters[i := w.posters[i].(phase := phase)])
  }

  /** Going to sleep gives up the lock in the same step; a notification reaches a handler only while it sleeps. */
  function Next(w: World, step: Step): World
    requires Enabled(w, step)
  {
    match step
    case Lock => w.(owner := TheHandler, handler := Checking)
    case Check =>
      (match w.result
       case None => w.(owner := Free, handler := Asleep)
       case Some(v) => w.(owner := Free, handler := Returned(Outcome(v))))
    case WakeSpuriously => w.(handler := Waking)
    case Acquire(i) => Move(w, i, Holding).(owner := ThePoster(i))
    case Store(i) =>
      var v := w.posters[i].value;
      Move(w, i, Stored).(result := Some(v), stored := w.stored + [v])
    case Notify(i) => Move(w, i, Notified).(handler := if w.handler.Asleep? then Waking else w.handler)
    case Release(i) => Move(w, i, Finished).(owner := Free)
  }

  ghost predicate Reaches(w: World, steps: seq<Step>, w': World)
    decreases |steps|
  {
    if steps == [] then w == w' else Enabled(w, steps[0]) && Reaches(Next(w, steps[0]), steps[1..], w')
  }

  function Start(posters: seq<Poster>): World {
    World(Free, None, Locking, posters, [])
  }

  predicate HasLock(p: Poster) {
    p.phase.Holding? || p.phase.Stored? || p.phase.Notified?
  }

  /** Exactly the owner of the lock is between taking and releasing it. */
  ghost predicate LockSound(w: World) {
    && (w.owner.TheHandler? <==> w.handler.Checking?)
    && (forall i: nat :: i < |w.posters| ==> (HasLock(w.posters[i]) <==> w.owner == ThePoster(i)))
    && (w.owner.ThePoster? ==> w.owner.index < |w.posters|)
  }

  /** A handler asleep although there is a result is about to be notified. */
  ghost predicate WakeupPending(w: World) {
    w.handler.Asleep? && w.result.Some? ==> w.owner.ThePoster? && InPhase(w, w.owner.index, Stored)
  }

  ghost predicate ResultSound(w: World) {
    && w.result == (if w.stored == [] then None else Some(w.stored[|w.stored| - 1]))
    && (forall v :: v in w.stored ==> exists p :: p in w.posters && p.value == v)
    && (w.handler.Returned? ==> exists v :: v in w.stored && w.handler.outcome == Outcome(v))
  }

  ghost predicate Sound(w: World) {
    LockSound(w) && WakeupPending(w) && ResultSound(w)
  }

  lemma StepKeepsLock(w: World, step: Step)
    requires LockSound(w) && WakeupPending(w) && Enabled(w, step)
    ensures LockSound(Next(w, step)) && WakeupPending(Next(w, step))
  {
  }

  lemma MoveKeepsValues(w: World, i: nat, phase: Phase, v: Value)
    requires i < |w.posters| && exists p :: p in w.posters && p.value == v
    ensures exists p :: p in Move(w, i, phase).posters && p.value == v
  {
    var p :| p in w.posters && p.value == v;
    var k :| 0 <= k < |w.posters| && w.posters[k] == p;
    assert Move(w, i, phase).posters[k].value == v;
  }

  lemma StepKeepsResult(w: World, step: Step)
    requires ResultSound(w) && Enabled(w, step)
    ensures ResultSound(Next(w, step))
  {
    var w' := Next(w, step);
    forall v | v in w'.stored ensures exists p :: p in w'.posters && p.value == v {
      if step.Acquire? || step.Store? || step.Notify? || step.Release? {
        assert w.posters[step.index] in w.posters;
        MoveKeepsValues(w, step.index, w'.posters[step.index].phase, v);
      }
    }
    assert forall v :: v in w.stored ==> v in w'.stored;
  }

  lemma {:induction false} RunKeeps(w: World, steps: seq<Step>, w': World)
    requires Sound(w) && Reaches(w, steps, w')
    ensures Sound(w') && |w'.posters| == |w.posters|
    ensures forall i :: 0 <= i < |w.posters| ==> w'.posters[i].value == w.posters[i].value
    ensures w.result.Some? ==> w'.result.Some?
    decreases |steps|
  {
    if steps != [] {
      StepKeepsLock(w, steps[0]);
      StepKeepsResult(w, steps[0]);
      RunKeeps(Next(w, steps[0]), steps[1..], w');
    }
  }

  ghost predicate AllReady(posters: seq<Poster>) {
    forall p :: p in posters ==> p.phase.Ready?
  }

  /** In no interleaving is a wakeup lost: a handler left asleep, with nobody at the lock, has no result to miss. */
  lemma NoWakeupIsLost(posters: seq<Poster>, steps: seq<Step>, w: World)
    requires AllReady(posters) && Reaches(Start(posters), steps, w)
    ensures w.handler.Asleep? && w.result.Some? ==> exists i :: InPhase(w, i, Stored)
    ensures w.handler.Asleep? && w.owner.Free? ==> w.result.None?
  {
    RunKeeps(Start(posters), steps, w);
  }

  lemma StoredIsPosted(w: World, posters: seq<Poster>, v: Value) returns (i: nat)
    requires ResultSound(w) && v in w.stored && |posters| == |w.posters|
    requires forall k :: 0 <= k < |posters| ==> w.posters[k].value == posters[k].value
    ensures i < |posters| && posters[i].value == v
  {
    var p :| p in w.posters && p.value == v;
    i :| 0 <= i < |w.posters| && w.posters[i] == p;
  }

  /** What the handler returns was stored by a poster: by the only one, if there is one. */
  lemma HandlerReturnsWhatWasStored(posters: seq<Poster>, steps: seq<Step>, w: World) returns (i: nat)
    requires AllReady(posters) && Reaches(Start(posters), steps, w) && w.handler.Returned?
    ensures i < |posters| && posters[i].value in w.stored && w.handler.outcome == Outcome(posters[i].value)
    ensures |posters| == 1 ==> w.handler.outcome == Outcome(posters[0].value)
  {
    RunKeeps(Start(posters), steps, w);
    var v :| v in w.stored && w.handler.outcome == Outcome(v);
    i := StoredIsPosted(w, posters, v);
  }

  // ---------- progress ----------

  function HandlerRank(h: Handler): nat {
    match h
    case Asleep => 3
    case Locking => 2
    case Waking => 2
    case Checking => 1
    case Returned(_) => 0
  }

  function PosterRank(p: Poster): nat {
    match p.phase
    case Ready => 4
    case Holding => 3
    case Stored => 2
    case Notified => 1
    case Finished => 0
  }

  function PostersRank(posters: seq<Poster>): nat {
    if posters == [] then 0 else PosterRank(posters[0]) + PostersRank(posters[1..])
  }

  function Rank(w: World): nat {
    HandlerRank(w.handler) + PostersRank(w.posters)
  }

  lemma {:induction false} RankOfMoved(posters: seq<Poster>, i: nat, p: Poster)
    requires i < |posters|
    ensures PostersRank(posters[i := p]) == PostersRank(posters) - PosterRank(posters[i]) + PosterRank(p)
    decreases |posters|
  {
    if i > 0 {
      RankOfMoved(posters[1..], i - 1, p);
      assert posters[i := p][1..] == posters[1..][i - 1 := p];
    } else {
      assert posters[i := p][1..] == posters[1..];
    }
  }

  /** Once there is a result, every step of anyone brings the end nearer. */
  lemma StepLowersRank(w: World, step: Step)
    requires Enabled(w, step) && w.result.Some?
    ensures Next(w, step).result.Some? && Rank(Next(w, step)) < Rank(w)
  {
    if step.Acquire? || step.Store? || step.Notify? || step.Release? {
      var i := step.index;
      RankOfMoved(w.posters, i, Next(w, step).posters[i]);
    }
  }

  /** Until the handler has returned and every poster is through, somebody can go on. */
  lemma SomebodyCanStep(w: World) returns (step: Step)
    requires LockSound(w) && WakeupPending(w) && w.result.Some?
    requires !w.handler.Returned? || exists i :: 0 <= i < |w.posters| && !w.posters[i].phase.Finished?
    ensures Enabled(w, step)
  {
    if w.owner.TheHandler? {
      return Check;
    }
    if w.owner.ThePoster? {
      var i := w.owner.index;
      assert HasLock(w.posters[i]);
      return match w.posters[i].phase case Holding => Store(i) case Stored => Notify(i) case _ => Release(i);
    }
    if !w.handler.Returned? {
      return Lock;
    }
    var i :| 0 <= i < |w.posters| && !w.posters[i].phase.Finished?;
    assert !HasLock(w.posters[i]);
    return Acquire(i);
  }

  lemma {:induction false} RunsAreShort(w: World, steps: seq<Step>, w': World)
    requires w.result.Some? && Reaches(w, steps, w')
    ensures w'.result.Some? && Rank(w') + |steps| <= Rank(w)
    decreases |steps|
  {
    if steps != [] {
      StepLowersRank(w, steps[0]);
      RunsAreShort(Next(w, steps[0]), steps[1..], w');
    }
  }

  /**
   From the moment a result is stored, no interleaving goes on for more than a fixed number of steps, and
   one that cannot go on has the handler returned with a stored result and every poster finished.
   */
  lemma HandlerReturns(posters: seq<Poster>, before: seq<Step>, w: World, steps: seq<Step>, w': World)
    requires AllReady(posters) && Reaches(Start(posters), before, w) && w.result.Some?
    requires Reaches(w, steps, w')
    ensures |steps| <= Rank(w)
    ensures (forall step :: !Enabled(w', step)) ==>
      w'.handler.Returned? && (exists v :: v in w'.stored && w'.handler.outcome == Outcome(v))
      && forall i :: 0 <= i < |w'.posters| ==> w'.posters[i].phase.Finished?
  {
    RunKeeps(Start(posters), before, w);
    RunKeeps(w, steps, w');
    RunsAreShort(w, steps, w');
    if !w'.handler.Returned? || exists i :: 0 <= i < |w'.posters| && !w'.posters[i].phase.Finished? {
      var step := SomebodyCanStep(w');
    }
  }
}
