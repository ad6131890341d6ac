/** Whole runs of actor operations over any number of hosts: counts, references and subscriptions. */
module ActorRuns {
  import opened Actors
  import opened Events
  import opened Options

  datatype Op =
    | HostUp(host: string, lattice: string, labels: Labels)
    | HostDown(host: string)
    | Start(host: string, oci: string, count: int, annotations: Annotations, fetchable: Fetchable, permitted: bool)
    | Terminate(host: string, pk: string, halts: nat, annotations: Annotations)
    | Scale(host: string, pk: string, desired: int, oci: string, fetchable: Fetchable, permitted: bool)
    | Update(host: string, oci: string, fetchable: Fetchable)
    | Heartbeat(host: string, providers: seq<ProviderListing>, labels: Labels)

  /** The heartbeat's inventory: one more for each registered instance met. */
  function CountAll(running: seq<Instance>, host: string): map<string, int> {
    if running == [] then map[]
    else
      var i, counts := running[|running| - 1], CountAll(running[..|running| - 1], host);
      if i.host != host then counts
      else counts[i.publicKey := if i.publicKey in counts then counts[i.publicKey] + 1 else 1]
  }

  predicate Enabled(s: State, op: Op) {
    if op.HostUp? then op.host !in s.hosts else op.host in s.hosts
  }

  function Next(s: State, op: Op): State
    requires Enabled(s, op)
  {
    match op
    case HostUp(host, lattice, labels) =>
      s.(hosts := s.hosts[host := lattice], events := s.events + [HostStarted(host, labels)])
    case HostDown(host) =>
      var purged := TerminateAll(s, host);
      purged.(hosts := purged.hosts - {host}, events := purged.events + [HostStopped(host)])
    case Start(host, oci, count, annotations, fetchable, permitted) =>
      StartActorFromRef(s, host, oci, count, annotations, fetchable, permitted).0
    case Terminate(host, pk, count, annotations) => TerminateActor(s, host, pk, count, annotations)
    case Scale(host, pk, desired, oci, fetchable, permitted) =>
      ScaleActor(s, host, pk, desired, oci, fetchable, permitted).0
    case Update(host, oci, fetchable) => LiveUpdate(s, host, oci, fetchable).0
    case Heartbeat(host, providers, labels) =>
      s.(events := s.events + [HostHeartbeat(host, CountAll(s.running, host), providers, labels)])
  }

  ghost predicate Reaches(s: State, ops: seq<Op>, s': State)
    decreases |ops|
  {
    if ops == [] then s == s' else Enabled(s, ops[0]) && Reaches(Next(s, ops[0]), ops[1..], s')
  }

  // ---------- how many are started ----------

  lemma {:induction false} FindAppended(running: seq<Instance>, i: Instance, host: string, pk: string)
    ensures FindActor(running + [i], host, pk)
         == FindActor(running, host, pk) + if i.host == host && i.publicKey == pk then [i] else []
  {
    if running == [] {
      assert running + [i] == [i];
    } else {
      FindAppended(running[1..], i, host, pk);
      assert (running + [i])[1..] == running[1..] + [i];
    }
  }

  lemma {:induction false} StartManyAdds(s: State, host: string, m: Module, oci: string, annotations: Annotations,
          n: nat)
    requires host in s.hosts
    ensures var r := StartMany(s, host, m, oci, annotations, n);
      && r.hosts == s.hosts
      && CountOf(r, host, m.publicKey) == CountOf(s, host, m.publicKey) + (if m.compiles then n else 0)
      && (forall h, p :: !(h == host && p == m.publicKey) ==> FindActor(r.running, h, p) == FindActor(s.running, h, p))
      && (forall i :: i in r.running ==>
            i in s.running || (m.compiles && n > 0 && i.host == host && i.publicKey == m.publicKey && i.ociref == oci))
      && r.subscribers == s.subscribers + (if m.compiles && n > 0 then {(s.hosts[host], m.publicKey)} else {})
    decreases n
  {
    if n > 0 {
      var t := StartOne(s, host, m, oci, annotations);
      StartManyAdds(t, host, m, oci, annotations, n - 1);
      if m.compiles {
        var i := t.running[|t.running| - 1];
        assert t.running == s.running + [i];
        forall h, p
          ensures FindActor(t.running, h, p)
               == FindActor(s.running, h, p) + if h == host && p == m.publicKey then [i] else []
        {
          FindAppended(s.running, i, h, p);
        }
      }
    }
  }

  /**
   A successful start reports how many instances there are now more; that is `count` only for a positive count
   that compiles.
   */
  lemma StartAddsCountIff(s: State, host: string, m: Module, oci: string, count: int, annotations: Annotations,
          permitted: bool)
    requires StartActor(s, host, m, oci, count, annotations, permitted).1.Ok?
    ensures var (r, n) := StartActor(s, host, m, oci, count, annotations, permitted);
      && CountOf(r, host, m.publicKey) == CountOf(s, host, m.publicKey) + n.value
      && (n.value == count <==> if m.compiles then count >= 1 else count == 0)
      && r.events != [] && r.events[|r.events| - 1] == ActorsStarted(host, m.publicKey, n.value)
  {
    StartManyAdds(s, host, m, oci, annotations, RangeSize(count));
  }

  // ---------- scaling ----------

  lemma TerminateLeaves(s: State, host: string, pk: string, count: nat)
    requires host in s.hosts
    ensures var r, actors := TerminateActor(s, host, pk, count, map[]), FindActor(s.running, host, pk);
      && FindActor(r.running, host, pk) == (if count == 0 || count >= |actors| then [] else actors[count..])
      && (forall h, p :: !(h == host && p == pk) ==> FindActor(r.running, h, p) == FindActor(s.running, h, p))
      && r.subscribers
        == (if FindActor(r.running, host, pk) == [] then s.subscribers - {(s.hosts[host], pk)} else s.subscribers)
  {
    var actors := FindActor(s.running, host, pk);
    var n := if count > 0 then count else |actors|;
    HaltRequiredLeaves(s, host, pk, map[], n);
    HaltRequiredSpares(s, host, pk, map[], n);
    EverythingMatchesNothing(Take(actors, n));
  }

  lemma {:induction false} UnmatchedIsAllIff(actors: seq<Instance>, annotations: Annotations)
    ensures |Unmatched(actors, annotations)| == 0 <==> forall i :: i in actors ==> Matches(i, annotations)
  {
    if actors != [] {
      UnmatchedIsAllIff(actors[1..], annotations);
      assert actors == [actors[0]] + actors[1..];
    }
  }

  /**
   A stop announces how many instances remain; it is right exactly when there were enough to stop and all of
   those matched.
   */
  lemma RemainingIsRightIff(s: State, host: string, pk: string, count: nat, annotations: Annotations)
    requires host in s.hosts && count > 0
    ensures var r, actors := TerminateActor(s, host, pk, count, annotations), FindActor(s.running, host, pk);
      && r.events != [] && var last := r.events[|r.events| - 1];
      && last.ActorsStopped? && last.host == host && last.publicKey == pk
      && (last.remaining == CountOf(r, host, pk) <==>
        count <= |actors| && forall i :: i in actors[..count] ==> Matches(i, annotations))
  {
    var actors := FindActor(s.running, host, pk);
    HaltRequiredLeaves(s, host, pk, annotations, count);
    UnmatchedIsAllIff(Take(actors, count), annotations);
  }

  /** What the reference a scale uses must resolve to for the scale to do what it was asked. */
  predicate ResolvesTo(fetchable: Fetchable, oci: string, pk: string) {
    oci in fetchable && fetchable[oci].publicKey == pk && fetchable[oci].compiles
  }

  /**
   A scale that succeeds leaves exactly the desired count, provided more instances come from a reference to that
   very actor.
   */
  lemma ScaleLeavesDesiredIff(s: State, host: string, pk: string, desired: int, oci: string, fetchable: Fetchable,
          permitted: bool)
    requires host in s.hosts && ScaleActor(s, host, pk, desired, oci, fetchable, permitted).1.Ok?
    ensures var r := ScaleActor(s, host, pk, desired, oci, fetchable, permitted).0;
      CountOf(r, host, pk) == desired
      <==>
        0 <= desired && (CountOf(s, host, pk) < desired ==> ResolvesTo(fetchable, ScaleReference(s, host, pk, oci), pk))
  {
    var diff := CountOf(s, host, pk) - desired;
    if diff > 0 {
      TerminateLeaves(s, host, pk, diff);
    } else if diff < 0 {
      var m := fetchable[ScaleReference(s, host, pk, oci)];
      StartManyAdds(s, host, m, ScaleReference(s, host, pk, oci), map[], -diff);
    }
  }

  /** And it touches nothing else: any other actor, on this or another host, keeps its instances. */
  lemma ScaleSparesOthers(s: State, host: string, pk: string, desired: int, oci: string, fetchable: Fetchable,
          permitted: bool, h: string, p: string)
    requires host in s.hosts && !(h == host && p == pk)
    requires CountOf(s, host, pk) < desired && h == host ==>
      var ref := ScaleReference(s, host, pk, oci); ref in fetchable ==> fetchable[ref].publicKey != p
    ensures FindActor(ScaleActor(s, host, pk, desired, oci, fetchable, permitted).0.running, h, p)
      == FindActor(s.running, h, p)
  {
    var diff := CountOf(s, host, pk) - desired;
    if diff > 0 {
      TerminateLeaves(s, host, pk, diff);
    } else if diff < 0 {
      var ref := ScaleReference(s, host, pk, oci);
      if ref in fetchable {
        StartManyAdds(s, host, fetchable[ref], ref, map[], -diff);
      }
    }
  }

  // ---------- purging ----------

  lemma {:induction false} NoneOnHost(running: seq<Instance>, host: string, pk: string)
    requires FirstOn(running, host).None?
    ensures FindActor(running, host, pk) == []
    ensures forall i :: i in running ==> i.host != host
  {
    if running != [] {
      NoneOnHost(running[1..], host, pk);
      assert running == [running[0]] + running[1..];
    }
  }

  lemma {:induction false} NothingFound(running: seq<Instance>, host: string, pk: string)
    requires forall i :: i in running ==> i.host != host
    ensures FindActor(running, host, pk) == []
  {
    if running != [] {
      assert running[0] in running && forall i :: i in running[1..] ==> i in running;
      NothingFound(running[1..], host, pk);
    }
  }

  lemma {:induction false} TerminateAllClears(s: State, host: string)
    ensures forall i :: i in TerminateAll(s, host).running ==> i in s.running && i.host != host
    ensures forall h, p :: h != host ==> FindActor(TerminateAll(s, host).running, h, p) == FindActor(s.running, h, p)
    decreases |s.running|
  {
    match FirstOn(s.running, host)
    case None => NoneOnHost(s.running, host, "");
    case Some(pk) =>
      HaltingFirstShrinks(s, host);
      HaltRequiredLeaves(s, host, pk, map[], CountOf(s, host, pk));
      HaltRequiredSpares(s, host, pk, map[], CountOf(s, host, pk));
      HaltEachNeverAdds(s, Take(FindActor(s.running, host, pk), CountOf(s, host, pk)), map[]);
      TerminateAllClears(HaltRequired(s, host, pk, map[], CountOf(s, host, pk)), host);
  }

  // ---------- references ----------

  ghost predicate OneReferenceEach(s: State) {
    forall i, j :: i in s.running && j in s.running && i.host == j.host && i.publicKey == j.publicKey ==>
      i.ociref == j.ociref
  }

  lemma StartKeepsReferences(s: State, host: string, oci: string, count: int, annotations: Annotations,
          fetchable: Fetchable, permitted: bool)
    requires OneReferenceEach(s)
    ensures OneReferenceEach(StartActorFromRef(s, host, oci, count, annotations, fetchable, permitted).0)
  {
    if oci in fetchable && host in s.hosts {
      var m := fetchable[oci];
      StartManyAdds(s, host, m, oci, annotations, RangeSize(count));
      if !OtherReferenceRunning(s.running, host, m.publicKey, oci) {
        forall i | i in s.running && i.host == host && i.publicKey == m.publicKey ensures i.ociref == oci {
          var k :| 0 <= k < |s.running| && s.running[k] == i;
        }
      }
    }
  }

  lemma TerminateKeepsSome(s: State, host: string, pk: string, count: nat, annotations: Annotations)
    requires host in s.hosts
    ensures forall i :: i in TerminateActor(s, host, pk, count, annotations).running ==> i in s.running
  {
    var n := if count > 0 then count else CountOf(s, host, pk);
    HaltEachNeverAdds(s, Take(FindActor(s.running, host, pk), n), annotations);
  }

  /**
   A live update changes what instances run, never which instances there are or the reference they are recorded
   under.
   */
  lemma UpdateKeepsInstances(s: State, host: string, oci: string, fetchable: Fetchable)
    requires host in s.hosts
    ensures var r := LiveUpdate(s, host, oci, fetchable).0;
      && |r.running| == |s.running| && r.subscribers == s.subscribers && r.hosts == s.hosts
      && forall k :: 0 <= k < |s.running| ==> r.running[k] == s.running[k].(code := r.running[k].code)
  {
  }

  lemma UpdateKeepsReferences(s: State, host: string, oci: string, fetchable: Fetchable)
    requires OneReferenceEach(s) && host in s.hosts
    ensures OneReferenceEach(LiveUpdate(s, host, oci, fetchable).0)
  {
    UpdateKeepsInstances(s, host, oci, fetchable);
    var r := LiveUpdate(s, host, oci, fetchable).0;
    forall i, j | i in r.running && j in r.running && i.host == j.host && i.publicKey == j.publicKey
      ensures i.ociref == j.ociref
    {
      var a :| 0 <= a < |r.running| && r.running[a] == i;
      var b :| 0 <= b < |r.running| && r.running[b] == j;
      assert s.running[a] in s.running && s.running[b] in s.running;
    }
  }

  lemma StepKeepsReferences(s: State, op: Op)
    requires OneReferenceEach(s) && Enabled(s, op)
    ensures OneReferenceEach(Next(s, op))
  {
    match op
    case HostUp(_, _, _) =>
    case HostDown(host) => TerminateAllClears(s, host);
    case Start(host, oci, count, annotations, fetchable, permitted) =>
      StartKeepsReferences(s, host, oci, count, annotations, fetchable, permitted);
    case Terminate(host, pk, count, annotations) => TerminateKeepsSome(s, host, pk, count, annotations);
    case Scale(host, pk, desired, oci, fetchable, permitted) =>
      var diff := CountOf(s, host, pk) - desired;
      if diff > 0 {
        TerminateKeepsSome(s, host, pk, diff, map[]);
      } else if diff < 0 {
        StartKeepsReferences(s, host, ScaleReference(s, host, pk, oci), -diff, map[], fetchable, permitted);
      }
    case Update(host, oci, fetchable) => UpdateKeepsReferences(s, host, oci, fetchable);
    case Heartbeat(_, _, _) =>
  }

  /** On each host all running instances of one actor carry the same recorded reference, through any run. */
  lemma {:induction false} ReferencesAgree(s: State, ops: seq<Op>, s': State)
    requires OneReferenceEach(s) && Reaches(s, ops, s')
    ensures OneReferenceEach(s')
    decreases |ops|
  {
    if ops != [] {
      StepKeepsReferences(s, ops[0]);
      ReferencesAgree(Next(s, ops[0]), ops[1..], s');
    }
  }

  // ---------- subscriptions ----------

  /** Instances run on running hosts, and each can be called. */
  ghost predicate Subscribed(s: State) {
    forall i :: i in s.running ==> i.host in s.hosts && (s.hosts[i.host], i.publicKey) in s.subscribers
  }

  /** Exactly when a stop leaves every running actor callable. */
  lemma TerminateKeepsSubscribedIff(s: State, host: string, pk: string, count: nat, annotations: Annotations)
    requires Subscribed(s) && host in s.hosts
    ensures Subscribed(TerminateActor(s, host, pk, count, annotations)) <==>
      || (count > 0 && CountOf(s, host, pk) > count)
      || (forall i :: i in s.running && s.hosts[i.host] == s.hosts[host] && i.publicKey == pk ==>
            i.host == host && Matches(i, annotations))
  {
    var r := TerminateActor(s, host, pk, count, annotations);
    var actors := FindActor(s.running, host, pk);
    var n := if count > 0 then count else |actors|;
    TerminateKeepsSome(s, host, pk, count, annotations);
    if !(count > 0 && |actors| > count) {
      HaltRequiredLeaves(s, host, pk, annotations, n);
      HaltRequiredSpares(s, host, pk, annotations, n);
      assert Take(actors, n) == actors && actors[|actors|..] == [];
      forall i | i in s.running && s.hosts[i.host] == s.hosts[host] && i.publicKey == pk
        ensures i in r.running <==> !(i.host == host && Matches(i, annotations))
      {
        FoundIsRunning(s.running, i.host, pk);
        FoundIsRunning(r.running, i.host, pk);
        UnmatchedHolds(actors, annotations);
      }
    }
  }

  lemma {:induction false} UnmatchedHolds(actors: seq<Instance>, annotations: Annotations)
    ensures forall i :: i in Unmatched(actors, annotations) <==> i in actors && !Matches(i, annotations)
  {
    if actors != [] {
      UnmatchedHolds(actors[1..], annotations);
      assert actors == [actors[0]] + actors[1..];
    }
  }

  ghost predicate OneHostPerLattice(s: State) {
    forall a, b :: a in s.hosts && b in s.hosts && s.hosts[a] == s.hosts[b] ==> a == b
  }

  /** No stop asks for annotations, and no second host joins a lattice. */
  ghost predicate Orderly(s: State, op: Op) {
    && (op.Terminate? ==> op.annotations == map[])
    && (op.HostUp? ==> forall h :: h in s.hosts ==> s.hosts[h] != op.lattice)
  }

  ghost predicate ReachesOrderly(s: State, ops: seq<Op>, s': State)
    decreases |ops|
  {
    if ops == [] then s == s'
    else Enabled(s, ops[0]) && Orderly(s, ops[0]) && ReachesOrderly(Next(s, ops[0]), ops[1..], s')
  }

  lemma StartKeepsSubscribed(s: State, host: string, oci: string, count: int, annotations: Annotations,
          fetchable: Fetchable, permitted: bool)
    requires Subscribed(s) && host in s.hosts
    ensures var r := StartActorFromRef(s, host, oci, count, annotations, fetchable, permitted).0;
      Subscribed(r) && r.hosts == s.hosts
  {
    if oci in fetchable {
      StartManyAdds(s, host, fetchable[oci], oci, annotations, RangeSize(count));
    }
  }

  lemma UpdateKeepsSubscribed(s: State, host: string, oci: string, fetchable: Fetchable)
    requires Subscribed(s) && host in s.hosts
    ensures var r := LiveUpdate(s, host, oci, fetchable).0; Subscribed(r) && r.hosts == s.hosts
  {
    UpdateKeepsInstances(s, host, oci, fetchable);
    var r := LiveUpdate(s, host, oci, fetchable).0;
    forall i | i in r.running ensures i.host in s.hosts && (s.hosts[i.host], i.publicKey) in s.subscribers {
      var a :| 0 <= a < |r.running| && r.running[a] == i;
      assert s.running[a] in s.running;
    }
  }

  lemma StepKeepsSubscribed(s: State, op: Op)
    requires Subscribed(s) && OneHostPerLattice(s) && Enabled(s, op) && Orderly(s, op)
    ensures Subscribed(Next(s, op)) && OneHostPerLattice(Next(s, op))
  {
    match op
    case HostUp(_, _, _) =>
    case HostDown(host) => TerminateAllClears(s, host);
    case Start(host, oci, count, annotations, fetchable, permitted) =>
      StartKeepsSubscribed(s, host, oci, count, annotations, fetchable, permitted);
    case Terminate(host, pk, count, annotations) => TerminateKeepsSubscribedIff(s, host, pk, count, annotations);
    case Scale(host, pk, desired, oci, fetchable, permitted) =>
      var diff := CountOf(s, host, pk) - desired;
      if diff > 0 {
        TerminateKeepsSubscribedIff(s, host, pk, diff, map[]);
      } else if diff < 0 {
        StartKeepsSubscribed(s, host, ScaleReference(s, host, pk, oci), -diff, map[], fetchable, permitted);
      }
    case Update(host, oci, fetchable) => UpdateKeepsSubscribed(s, host, oci, fetchable);
    case Heartbeat(_, _, _) =>
  }

  /** In every orderly run each actor with a running instance has its subscription. */
  lemma {:induction false} RunningActorsAreCallable(s: State, ops: seq<Op>, s': State)
    requires Subscribed(s) && OneHostPerLattice(s) && ReachesOrderly(s, ops, s')
    ensures Subscribed(s') && OneHostPerLattice(s')
    decreases |ops|
  {
    if ops != [] {
      StepKeepsSubscribed(s, ops[0]);
      RunningActorsAreCallable(Next(s, ops[0]), ops[1..], s');
    }
  }

  /** A stop without annotations ends the subscription exactly when it leaves no instance on the host. */
  lemma LastStopUnsubscribes(s: State, host: string, pk: string, count: nat)
    requires host in s.hosts
    ensures var r := TerminateActor(s, host, pk, count, map[]);
      && ((s.hosts[host], pk) in r.subscribers <==> (s.hosts[host], pk) in s.subscribers && CountOf(r, host, pk) > 0)
      && (CountOf(r, host, pk) == 0 <==> count == 0 || CountOf(s, host, pk) <= count)
  {
    TerminateLeaves(s, host, pk, count);
  }

  /** Stopping a host halts its instances but leaves their subscriptions. */
  lemma HostDownKeepsSubscriptions(s: State, host: string, pk: string)
    requires Subscribed(s) && host in s.hosts && CountOf(s, host, pk) > 0
    ensures var r := Next(s, HostDown(host)); CountOf(r, host, pk) == 0 && (s.hosts[host], pk) in r.subscribers
  {
    TerminateAllClears(s, host);
    FoundIsRunning(s.running, host, pk);
    var i := FindActor(s.running, host, pk)[0];
    assert i in s.running && i.host == host && i.publicKey == pk;
    NothingFound(TerminateAll(s, host).running, host, pk);
  }

  // ---------- runs in which things go otherwise ----------

  lemma ReachesOne(s: State, a: Op)
    requires Enabled(s, a)
    ensures Reaches(s, [a], Next(s, a))
  {
    assert [a][1..] == [];
  }

  lemma ReachesTwo(s: State, a: Op, b: Op, s': State)
    requires Enabled(s, a) && Enabled(Next(s, a), b) && s' == Next(Next(s, a), b)
    ensures Reaches(s, [a, b], s')
  {
    ReachesOne(Next(s, a), b);
    assert [a, b][1..] == [b];
  }

  lemma ReachesThree(s: State, a: Op, b: Op, c: Op, s': State)
    requires Enabled(s, a) && Reaches(Next(s, a), [b, c], s')
    ensures Reaches(s, [a, b, c], s')
  {
    assert [a, b, c][1..] == [b, c];
  }

  lemma ReachesFive(s: State, a: Op, b: Op, c: Op, d: Op, e: Op, s': State)
    requires Enabled(s, a) && Enabled(Next(s, a), b) && Reaches(Next(Next(s, a), b), [c, d, e], s')
    ensures Reaches(s, [a, b, c, d, e], s')
  {
    assert [b, c, d, e][1..] == [c, d, e];
    assert Reaches(Next(s, a), [b, c, d, e], s');
    assert [a, b, c, d, e][1..] == [b, c, d, e];
  }

  /** A module that compiles, to be had by the reference "ref". */
  function Offer(pk: string): map<string, Module> {
    map["ref" := Module(pk, 1, "code", true)]
  }

  function FirstHost(): State {
    Next(INITIAL, HostUp("N1", "L", map[]))
  }

  /** A start of no instances starts two. */
  lemma StartOfNoneStartsTwo() returns (ops: seq<Op>, s: State)
    ensures ops == [HostUp("N1", "L", map[]), Start("N1", "ref", 0, map[], Offer("M1"), true)]
    ensures Reaches(INITIAL, ops, s) && CountOf(s, "N1", "M1") == 2
  {
    var start := Start("N1", "ref", 0, map[], Offer("M1"), true);
    s, ops := Next(FirstHost(), start), [HostUp("N1", "L", map[]), start];
    ReachesTwo(INITIAL, HostUp("N1", "L", map[]), start, s);
    StartManyAdds(FirstHost(), "N1", Offer("M1")["ref"], "ref", map[], RangeSize(0));
  }

  /** A scale to one instance succeeds and leaves none, because the reference has come to mean another actor. */
  lemma ScaleMisses() returns (ops: seq<Op>, s: State)
    ensures ops == [HostUp("N1", "L", map[]), Scale("N1", "M1", 1, "ref", Offer("M2"), true)]
    ensures Reaches(INITIAL, ops, s) && ScaleActor(FirstHost(), "N1", "M1", 1, "ref", Offer("M2"), true) == (s, Ok(1))
    ensures CountOf(s, "N1", "M1") == 0
  {
    var scale := Scale("N1", "M1", 1, "ref", Offer("M2"), true);
    s, ops := Next(FirstHost(), scale), [HostUp("N1", "L", map[]), scale];
    ReachesTwo(INITIAL, HostUp("N1", "L", map[]), scale, s);
    StartManyAdds(FirstHost(), "N1", Offer("M2")["ref"], "ref", map[], 1);
  }

  /** A stop of one instance where none runs announces that one less than none remain. */
  lemma RemainingIsNegative() returns (ops: seq<Op>, s: State)
    ensures ops == [HostUp("N1", "L", map[]), Terminate("N1", "M1", 1, map[])]
    ensures Reaches(INITIAL, ops, s) && CountOf(s, "N1", "M1") == 0
    ensures s.events == [HostStarted("N1", map[]), ActorsStopped("N1", "M1", 1, -1)]
  {
    var stop := Terminate("N1", "M1", 1, map[]);
    s, ops := Next(FirstHost(), stop), [HostUp("N1", "L", map[]), stop];
    ReachesTwo(INITIAL, HostUp("N1", "L", map[]), stop, s);
  }

  function StartedOn(s: State, host: string): State
    requires host in s.hosts
  {
    Next(s, Start(host, "ref", 1, map[], Offer("M1"), true))
  }

  lemma StartedOnRuns(s: State, host: string)
    requires host in s.hosts && forall i :: i in s.running ==> i.ociref == "ref"
    ensures var r := StartedOn(s, host);
      && r.hosts == s.hosts && CountOf(r, host, "M1") == CountOf(s, host, "M1") + 1
      && (forall i :: i in r.running ==> i.ociref == "ref")
      && r.running == s.running + [Instance(s.nextPid, host, "M1", "ref", map[], "code")]
      && r.subscribers == s.subscribers + {(s.hosts[host], "M1")}
  {
    var m := Offer("M1")["ref"];
    StartManyAdds(s, host, m, "ref", map[], 1);
    assert StartMany(s, host, m, "ref", map[], 1) == StartOne(s, host, m, "ref", map[]);
  }

  lemma StopMissesAnnotation()
    ensures var t := StartedOn(FirstHost(), "N1");
      var s := TerminateActor(t, "N1", "M1", 1, map["app" := "a"]);
      CountOf(s, "N1", "M1") == 1 && ("L", "M1") !in s.subscribers
  {
    var t, wanted := StartedOn(FirstHost(), "N1"), map["app" := "a"];
    StartedOnRuns(FirstHost(), "N1");
    var actors := FindActor(t.running, "N1", "M1");
    assert t.running == [Instance(0, "N1", "M1", "ref", map[], "code")];
    assert actors == t.running && "app" in wanted && "app" !in actors[0].annotations;
    assert !Matches(actors[0], wanted);
    HaltRequiredLeaves(t, "N1", "M1", wanted, 1);
    assert Unmatched(Take(actors, 1), wanted) == actors;
  }

  /** A stop that asks for an annotation no instance has halts none, and ends the subscription of the one running. */
  lemma AnnotationEndsSubscription() returns (ops: seq<Op>, s: State)
    ensures ops == [
      HostUp("N1", "L", map[]),
      Start("N1", "ref", 1, map[], Offer("M1"), true),
      Terminate("N1", "M1", 1, map["app" := "a"])]
    ensures Reaches(INITIAL, ops, s) && CountOf(s, "N1", "M1") == 1 && ("L", "M1") !in s.subscribers
  {
    var up, start := HostUp("N1", "L", map[]), Start("N1", "ref", 1, map[], Offer("M1"), true);
    var stop := Terminate("N1", "M1", 1, map["app" := "a"]);
    StartedOnRuns(FirstHost(), "N1");
    StopMissesAnnotation();
    s, ops := Next(StartedOn(FirstHost(), "N1"), stop), [up, start, stop];
    ReachesTwo(FirstHost(), start, stop, s);
    ReachesThree(INITIAL, up, start, stop, s);
  }

  function SecondHost(): State {
    Next(FirstHost(), HostUp("N2", "L", map[]))
  }

  function StartedOnBoth(): State {
    var t := StartedOn(SecondHost(), "N1");
    if "N2" in t.hosts then StartedOn(t, "N2") else t
  }

  lemma StopOnOneHost()
    ensures "N2" in StartedOn(SecondHost(), "N1").hosts && "N1" in StartedOnBoth().hosts
    ensures var s := TerminateActor(StartedOnBoth(), "N1", "M1", 0, map[]);
      CountOf(s, "N2", "M1") == 1 && ("L", "M1") !in s.subscribers
  {
    StartedOnRuns(SecondHost(), "N1");
    StartedOnRuns(StartedOn(SecondHost(), "N1"), "N2");
    TerminateLeaves(StartedOnBoth(), "N1", "M1", 0);
  }

  /** With two hosts in a lattice, stopping an actor on one ends the subscription of the instance on the other. */
  lemma SecondHostEndsSubscription() returns (ops: seq<Op>, s: State)
    ensures ops == [
      HostUp("N1", "L", map[]),
      HostUp("N2", "L", map[]),
      Start("N1", "ref", 1, map[], Offer("M1"), true),
      Start("N2", "ref", 1, map[], Offer("M1"), true),
      Terminate("N1", "M1", 0, map[])]
    ensures Reaches(INITIAL, ops, s) && CountOf(s, "N2", "M1") == 1 && ("L", "M1") !in s.subscribers
  {
    var one, two := HostUp("N1", "L", map[]), HostUp("N2", "L", map[]);
    var first := Start("N1", "ref", 1, map[], Offer("M1"), true);
    var second := Start("N2", "ref", 1, map[], Offer("M1"), true);
    var stop := Terminate("N1", "M1", 0, map[]);
    StopOnOneHost();
    s, ops := Next(StartedOnBoth(), stop), [one, two, first, second, stop];
    ReachesTwo(StartedOn(SecondHost(), "N1"), second, stop, s);
    ReachesThree(SecondHost(), first, second, stop, s);
    ReachesFive(INITIAL, one, two, first, second, stop, s);
  }
}
