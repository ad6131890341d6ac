/**
 Starting, stopping, scaling and updating actor instances on the virtual hosts of one application, and
 the queue subscription through which an actor is called.
 */
module Actors {
  import opened Events
  import opened Options

  type Annotations = map<string, string>

  datatype Instance = Instance(
    pid: nat,
    host: string,
    publicKey: string,
    ociref: string,
    annotations: Annotations,
    code: string
  )

  /** A module fetched by reference; one that does not compile starts no instance. */
  datatype Module = Module(publicKey: string, revision: int, code: string, compiles: bool)

  /** What references resolve to at the moment; the rest fail to download or carry no claims. */
  type Fetchable = map<string, Module>

  /**
   `hosts` maps each running host to its lattice; `revisions` is the claims cache's revision per lattice and
   actor.
   */
  datatype State = State(
    hosts: map<string, string>,
    running: seq<Instance>,
    subscribers: set<(string, string)>,
    revisions: map<(string, string), int>,
    events: seq<Event>,
    nextPid: nat
  )

  const INITIAL := State(map[], [], {}, map[], [], 0)

  function FindActor(running: seq<Instance>, host: string, pk: string): seq<Instance> {
    if running == [] then []
    else
      var found := if running[0].host == host && running[0].publicKey == pk then [running[0]] else [];
      found + FindActor(running[1..], host, pk)
  }

  function CountOf(s: State, host: string, pk: string): nat {
    |FindActor(s.running, host, pk)|
  }

  // ---------- starting ----------

  predicate OtherReferenceRunning(running: seq<Instance>, host: string, pk: string, oci: string) {
    exists i :: 0 <= i < |running| && running[i].host == host && running[i].publicKey == pk && running[i].ociref != oci
  }

  /** How many numbers the range from 1 to `count` has: it runs downwards when `count` is below 1. */
  function RangeSize(count: int): nat {
    if count >= 1 then count else 2 - count
  }

  function StartOne(s: State, host: string, m: Module, oci: string, annotations: Annotations): State
    requires host in s.hosts
  {
    if m.compiles then
      var entry := (s.hosts[host], m.publicKey);
      State(
        s.hosts,
        s.running + [Instance(s.nextPid, host, m.publicKey, oci, annotations, m.code)],
        s.subscribers + {entry},
        s.revisions[entry := m.revision],
        s.events + [ActorStarted(host, m.publicKey)],
        s.nextPid + 1)
    else s.(events := s.events + [ActorStartFailed(host, m.publicKey)])
  }

  function StartMany(s: State, host: string, m: Module, oci: string, annotations: Annotations, n: nat): State
    requires host in s.hosts
    decreases n
  {
    if n == 0 then s else StartMany(StartOne(s, host, m, oci, annotations), host, m, oci, annotations, n - 1)
  }

  /** Starts instances of a fetched module; the answer is how many there are now more. */
  function StartActor(s: State, host: string, m: Module, oci: string, count: int, annotations: Annotations,
          permitted: bool): (State, Result<nat>)
  {
    if host !in s.hosts then (s, Err("Failed to find host"))
    else if !permitted then (s.(events := s.events + [ActorsStartFailed(host, "policy")]), Err("denied"))
    else if OtherReferenceRunning(s.running, host, m.publicKey, oci) then
      (s.(events := s.events + [ActorsStartFailed(host, "reference")]), Err("already running with different reference"))
    else
      var started := StartMany(s, host, m, oci, annotations, RangeSize(count));
      var n := if m.compiles then RangeSize(count) else 0;
      (started.(events := started.events + [ActorsStarted(host, m.publicKey, n)]), Ok(n))
  }

  function StartActorFromRef(s: State, host: string, oci: string, count: int, annotations: Annotations,
          fetchable: Fetchable, permitted: bool): (State, Result<nat>)
  {
    if oci in fetchable
    then StartActor(s, host, fetchable[oci], oci, count, annotations, permitted)
    else (s, Err("fetch"))
  }

  // ---------- stopping ----------

  /** The instance carries every annotation asked for. */
  predicate Matches(i: Instance, annotations: Annotations) {
    forall k :: k in annotations ==> k in i.annotations && i.annotations[k] == annotations[k]
  }

  function Without(running: seq<Instance>, i: Instance): seq<Instance> {
    if running == [] then [] else if running[0] == i then running[1..] else [running[0]] + Without(running[1..], i)
  }

  /** Halts those of the targets that match, one after the other. */
  function HaltEach(s: State, targets: seq<Instance>, annotations: Annotations): (halted: State)
    ensures halted == s.(running := halted.running, events := halted.events)
    decreases |targets|
  {
    if targets == [] then s
    else HaltEach(if Matches(targets[0], annotations) then Halt(s, targets[0]) else s, targets[1..], annotations)
  }

  function Halt(s: State, i: Instance): State {
    s.(running := Without(s.running, i), events := s.events + [ActorStopped(i.host, i.publicKey)])
  }

  function Take(actors: seq<Instance>, n: nat): seq<Instance> {
    if n <= |actors| then actors[..n] else actors
  }

  /** The first `count` instances are picked before their annotations are looked at. */
  function HaltRequired(s: State, host: string, pk: string, annotations: Annotations, count: nat): State {
    HaltEach(s, Take(FindActor(s.running, host, pk), count), annotations)
  }

  function StopSubscriber(s: State, host: string, pk: string): State
    requires host in s.hosts
  {
    s.(subscribers := s.subscribers - {(s.hosts[host], pk)})
  }

  /** Zero means all instances. */
  function TerminateActor(s: State, host: string, pk: string, count: nat, annotations: Annotations): State
    requires host in s.hosts
  {
    if count > 0 then
      var remaining := CountOf(s, host, pk) - count;
      var halted := HaltRequired(s, host, pk, annotations, count);
      var told := halted.(events := halted.events + [ActorsStopped(host, pk, count, remaining)]);
      if remaining <= 0 then StopSubscriber(told, host, pk) else told
    else StopSubscriber(HaltRequired(s, host, pk, annotations, CountOf(s, host, pk)), host, pk)
  }

  function FirstOn(running: seq<Instance>, host: string): Option<string> {
    if running == [] then None
    else if running[0].host == host then Some(running[0].publicKey)
    else FirstOn(running[1..], host)
  }

  /** Purging a host: every actor on it, all its instances, subscriptions left alone. */
  function TerminateAll(s: State, host: string): (purged: State)
    ensures purged == s.(running := purged.running, events := purged.events)
    decreases |s.running|
  {
    match FirstOn(s.running, host)
    case None => s
    case Some(pk) =>
      HaltingFirstShrinks(s, host);
      TerminateAll(HaltRequired(s, host, pk, map[], CountOf(s, host, pk)), host)
  }

  lemma HaltingFirstShrinks(s: State, host: string)
    requires FirstOn(s.running, host).Some?
    ensures var pk := FirstOn(s.running, host).value;
      |HaltRequired(s, host, pk, map[], CountOf(s, host, pk)).running| < |s.running|
  {
    var pk := FirstOn(s.running, host).value;
    FirstOnIsFound(s.running, host);
    var targets := FindActor(s.running, host, pk);
    FoundIsRunning(s.running, host, pk);
    assert targets[0] in targets && Matches(targets[0], map[]) && Take(targets, |targets|) == targets;
    WithoutOne(s.running, targets[0]);
    HaltEachNeverAdds(Halt(s, targets[0]), targets[1..], map[]);
  }

  lemma {:induction false} FirstOnIsFound(running: seq<Instance>, host: string)
    requires FirstOn(running, host).Some?
    ensures FindActor(running, host, FirstOn(running, host).value) != []
  {
    if running[0].host != host {
      FirstOnIsFound(running[1..], host);
    }
  }

  /** What is found runs, on that host, under that key; and everything that does is found. */
  lemma {:induction false} FoundIsRunning(running: seq<Instance>, host: string, pk: string)
    ensures forall i :: i in FindActor(running, host, pk) <==> i in running && i.host == host && i.publicKey == pk
  {
    if running != [] {
      FoundIsRunning(running[1..], host, pk);
      assert running == [running[0]] + running[1..];
    }
  }

  lemma {:induction false} WithoutOne(running: seq<Instance>, i: Instance)
    ensures |Without(running, i)| == if i in running then |running| - 1 else |running|
    ensures forall x :: x in Without(running, i) ==> x in running
  {
    if running != [] && running[0] != i {
      WithoutOne(running[1..], i);
    }
  }

  lemma {:induction false} HaltEachNeverAdds(s: State, targets: seq<Instance>, annotations: Annotations)
    ensures |HaltEach(s, targets, annotations).running| <= |s.running|
    ensures forall x :: x in HaltEach(s, targets, annotations).running ==> x in s.running
    decreases |targets|
  {
    if targets != [] {
      WithoutOne(s.running, targets[0]);
      HaltEachNeverAdds(if Matches(targets[0], annotations) then Halt(s, targets[0]) else s, targets[1..], annotations);
    }
  }

  // ---------- scaling and updating ----------

  function ScaleReference(s: State, host: string, pk: string, oci: string): string {
    if oci != "" then oci
    else if CountOf(s, host, pk) >= 1 then FindActor(s.running, host, pk)[0].ociref
    else ""
  }

  function ScaleActor(s: State, host: string, pk: string, desired: int, oci: string, fetchable: Fetchable,
          permitted: bool): (State, Result<nat>)
    requires host in s.hosts
  {
    var diff := CountOf(s, host, pk) - desired;
    var ociref := ScaleReference(s, host, pk, oci);
    if diff == 0 then (s, Ok(0))
    else if diff > 0 then (TerminateActor(s, host, pk, diff, map[]), Ok(0))
    else if ociref != "" then StartActorFromRef(s, host, ociref, -diff, map[], fetchable, permitted)
    else (s, Err("no reference"))
  }

  function Recoded(running: seq<Instance>, host: string, m: Module): seq<Instance> {
    seq(|running|, i requires 0 <= i < |running| =>
      if running[i].host == host && running[i].publicKey == m.publicKey
      then running[i].(code := m.code)
      else running[i])
  }

  function Repeat(e: Event, n: nat): seq<Event> {
    seq(n, _ => e)
  }

  /** Replaces the code of running instances by a newer revision's; their recorded reference stays. */
  function LiveUpdate(s: State, host: string, oci: string, fetchable: Fetchable): (State, Result<nat>)
    requires host in s.hosts
  {
    if oci !in fetchable then (s, Err("fetch"))
    else
      var m := fetchable[oci];
      var entry := (s.hosts[host], m.publicKey);
      if entry !in s.revisions then (s, Err("no claims"))
      else if m.revision <= s.revisions[entry] then (s, Err("not newer"))
      else
        var n := CountOf(s, host, m.publicKey);
        var cached := s.(revisions := s.revisions[entry := m.revision]);
        if m.compiles then
          var told := Repeat(ActorUpdated(host, m.publicKey), n);
          (cached.(running := Recoded(s.running, host, m), events := s.events + told), Ok(n))
        else
          var told := Repeat(ActorUpdateFailed(host, m.publicKey), n);
          (cached.(events := s.events + told), Ok(n))
  }

  // ---------- which instances a stop leaves ----------

  function Unmatched(actors: seq<Instance>, annotations: Annotations): seq<Instance> {
    if actors == [] then []
    else (if Matches(actors[0], annotations) then [] else [actors[0]]) + Unmatched(actors[1..], annotations)
  }

  lemma {:induction false} WithoutFinds(running: seq<Instance>, i: Instance, host: string, pk: string)
    ensures FindActor(Without(running, i), host, pk)
         == if i.host == host && i.publicKey == pk
            then Without(FindActor(running, host, pk), i)
            else FindActor(running, host, pk)
  {
    if running != [] {
      var first, rest := running[0], FindActor(running[1..], host, pk);
      assert ([first] + rest)[1..] == rest && [] + rest == rest;
      if first != i {
        WithoutFinds(running[1..], i, host, pk);
        assert ([first] + Without(running[1..], i))[1..] == Without(running[1..], i);
      }
    }
  }

  /** Removing in turn every matching element of a list's stretch leaves its unmatched elements, in order. */
  function RemoveEach(actors: seq<Instance>, targets: seq<Instance>, annotations: Annotations): seq<Instance>
    decreases |targets|
  {
    if targets == [] then actors
    else
      var next := if Matches(targets[0], annotations) then Without(actors, targets[0]) else actors;
      RemoveEach(next, targets[1..], annotations)
  }

  lemma {:induction false} HaltEachFinds(s: State, targets: seq<Instance>, annotations: Annotations, host: string,
          pk: string)
    requires forall i :: i in targets ==> i.host == host && i.publicKey == pk
    ensures FindActor(HaltEach(s, targets, annotations).running, host, pk)
      == RemoveEach(FindActor(s.running, host, pk), targets, annotations)
    decreases |targets|
  {
    if targets != [] {
      assert targets[0] in targets && forall i :: i in targets[1..] ==> i in targets;
      WithoutFinds(s.running, targets[0], host, pk);
      var next := if Matches(targets[0], annotations) then Halt(s, targets[0]) else s;
      HaltEachFinds(next, targets[1..], annotations, host, pk);
    }
  }

  lemma {:induction false} HaltEachSpares(s: State, targets: seq<Instance>, annotations: Annotations, host: string,
          pk: string)
    requires forall i :: i in targets ==> !(i.host == host && i.publicKey == pk)
    ensures FindActor(HaltEach(s, targets, annotations).running, host, pk) == FindActor(s.running, host, pk)
    decreases |targets|
  {
    if targets != [] {
      assert targets[0] in targets && forall i :: i in targets[1..] ==> i in targets;
      WithoutFinds(s.running, targets[0], host, pk);
      var next := if Matches(targets[0], annotations) then Halt(s, targets[0]) else s;
      HaltEachSpares(next, targets[1..], annotations, host, pk);
    }
  }

  lemma {:induction false} WithoutAfter(kept: seq<Instance>, i: Instance, rest: seq<Instance>)
    requires i !in kept
    ensures Without(kept + [i] + rest, i) == kept + rest
  {
    var whole := kept + [i] + rest;
    if kept == [] {
      assert whole[1..] == kept + rest;
    } else {
      WithoutAfter(kept[1..], i, rest);
      assert whole[1..] == kept[1..] + [i] + rest;
    }
  }

  lemma {:induction false} RemoveStretch(kept: seq<Instance>, targets: seq<Instance>, rest: seq<Instance>,
          annotations: Annotations)
    requires forall i :: i in kept ==> !Matches(i, annotations)
    ensures RemoveEach(kept + targets + rest, targets, annotations) == kept + Unmatched(targets, annotations) + rest
    decreases |targets|
  {
    if targets == [] {
      assert Unmatched(targets, annotations) == targets;
    } else {
      var i, more := targets[0], targets[1..];
      Regroup(kept, i, more, rest);
      Regroup(kept, i, Unmatched(more, annotations), rest);
      assert [i] + more == targets;
      if Matches(i, annotations) {
        WithoutAfter(kept, i, more + rest);
        RemoveStretch(kept, more, rest, annotations);
        assert [] + Unmatched(more, annotations) == Unmatched(more, annotations);
      } else {
        RemoveStretch(kept + [i], more, rest, annotations);
      }
    }
  }

  lemma RemoveTaken(actors: seq<Instance>, count: nat, annotations: Annotations)
    ensures var targets := Take(actors, count);
      RemoveEach(actors, targets, annotations) == Unmatched(targets, annotations) + actors[|targets|..]
  {
    var targets := Take(actors, count);
    RemoveFront(targets, actors[|targets|..], annotations);
    TakeAndRest(actors, count);
  }

  lemma RemoveFront(targets: seq<Instance>, rest: seq<Instance>, annotations: Annotations)
    ensures RemoveEach(targets + rest, targets, annotations) == Unmatched(targets, annotations) + rest
  {
    RemoveStretch([], targets, rest, annotations);
    NothingInFront(targets, rest);
    NothingInFront(Unmatched(targets, annotations), rest);
  }

  lemma NothingInFront(a: seq<Instance>, b: seq<Instance>)
    ensures [] + a + b == a + b
  {
  }

  lemma TakeAndRest(actors: seq<Instance>, count: nat)
    ensures Take(actors, count) + actors[|Take(actors, count)|..] == actors
  {
  }

  lemma Regroup(kept: seq<Instance>, i: Instance, more: seq<Instance>, rest: seq<Instance>)
    ensures kept + ([i] + more) + rest == kept + [i] + (more + rest) == (kept + [i]) + more + rest
    ensures kept + (more + rest) == kept + more + rest
  {
  }

  /** Of the first `count` instances those that match are gone; the others, and all later ones, are left in order. */
  lemma HaltRequiredLeaves(s: State, host: string, pk: string, annotations: Annotations, count: nat)
    ensures var actors := FindActor(s.running, host, pk);
      FindActor(HaltRequired(s, host, pk, annotations, count).running, host, pk)
      == Unmatched(Take(actors, count), annotations) + actors[|Take(actors, count)|..]
  {
    var actors := FindActor(s.running, host, pk);
    FoundIsRunning(s.running, host, pk);
    HaltEachFinds(s, Take(actors, count), annotations, host, pk);
    RemoveTaken(actors, count, annotations);
  }

  lemma HaltRequiredSpares(s: State, host: string, pk: string, annotations: Annotations, count: nat)
    ensures forall h, p :: !(h == host && p == pk) ==>
      FindActor(HaltRequired(s, host, pk, annotations, count).running, h, p) == FindActor(s.running, h, p)
  {
    var targets := Take(FindActor(s.running, host, pk), count);
    FoundIsRunning(s.running, host, pk);
    forall h, p | !(h == host && p == pk)
      ensures FindActor(HaltRequired(s, host, pk, annotations, count).running, h, p) == FindActor(s.running, h, p)
    {
      HaltEachSpares(s, targets, annotations, h, p);
    }
  }

  lemma {:induction false} EverythingMatchesNothing(actors: seq<Instance>)
    ensures Unmatched(actors, map[]) == []
  {
    if actors != [] {
      EverythingMatchesNothing(actors[1..]);
    }
  }

  lemma {:induction false} UnmatchedIsFewer(actors: seq<Instance>, annotations: Annotations)
    ensures |Unmatched(actors, annotations)| <= |actors|
  {
    if actors != [] {
      UnmatchedIsFewer(actors[1..], annotations);
    }
  }
}
