/** The events published to one lattice, each processed once and in order, show its hosts and what runs on them. */
module LatticeMirror {
  import opened ActorRuns
  import opened Actors
  import opened Dashboard
  import opened Events
  import opened Mirror
  import opened Options

  // ---------- what an operation publishes ----------

  /** More events, all about one host. */
  ghost predicate MoreAbout(before: seq<Event>, after: seq<Event>, host: string) {
    before <= after && forall i :: |before| <= i < |after| ==> after[i].host == host
  }

  lemma {:induction false} StartManyPublishes(s: State, host: string, m: Module, oci: string, annotations: Annotations,
          n: nat)
    requires host in s.hosts
    ensures MoreAbout(s.events, StartMany(s, host, m, oci, annotations, n).events, host)
    decreases n
  {
    if n > 0 {
      StartManyPublishes(StartOne(s, host, m, oci, annotations), host, m, oci, annotations, n - 1);
    }
  }

  lemma {:induction false} HaltEachPublishes(s: State, targets: seq<Instance>, annotations: Annotations, host: string)
    requires forall i :: i in targets ==> i.host == host
    ensures MoreAbout(s.events, HaltEach(s, targets, annotations).events, host)
    decreases |targets|
  {
    if targets != [] {
      assert targets[0] in targets && forall i :: i in targets[1..] ==> i in targets;
      var next := if Matches(targets[0], annotations) then Halt(s, targets[0]) else s;
      HaltEachPublishes(next, targets[1..], annotations, host);
    }
  }

  lemma HaltRequiredPublishes(s: State, host: string, pk: string, annotations: Annotations, count: nat)
    ensures MoreAbout(s.events, HaltRequired(s, host, pk, annotations, count).events, host)
  {
    FoundIsRunning(s.running, host, pk);
    HaltEachPublishes(s, Take(FindActor(s.running, host, pk), count), annotations, host);
  }

  lemma TerminatePublishes(s: State, host: string, pk: string, count: nat, annotations: Annotations)
    requires host in s.hosts
    ensures MoreAbout(s.events, TerminateActor(s, host, pk, count, annotations).events, host)
  {
    HaltRequiredPublishes(s, host, pk, annotations, if count > 0 then count else CountOf(s, host, pk));
  }

  lemma {:induction false} TerminateAllPublishes(s: State, host: string)
    ensures MoreAbout(s.events, TerminateAll(s, host).events, host)
    decreases |s.running|
  {
    match FirstOn(s.running, host)
    case None =>
    case Some(pk) =>
      HaltingFirstShrinks(s, host);
      HaltRequiredPublishes(s, host, pk, map[], CountOf(s, host, pk));
      TerminateAllPublishes(HaltRequired(s, host, pk, map[], CountOf(s, host, pk)), host);
  }

  lemma StartPublishes(s: State, host: string, oci: string, count: int, annotations: Annotations, fetchable: Fetchable,
          permitted: bool)
    requires host in s.hosts
    ensures MoreAbout(s.events, StartActorFromRef(s, host, oci, count, annotations, fetchable, permitted).0.events,
      host)
  {
    if oci in fetchable {
      StartManyPublishes(s, host, fetchable[oci], oci, annotations, RangeSize(count));
    }
  }

  /** An operation on a host publishes events about that host only. */
  lemma StepPublishes(s: State, op: Op)
    requires Enabled(s, op)
    ensures MoreAbout(s.events, Next(s, op).events, op.host)
  {
    match op
    case HostDown(host) => TerminateAllPublishes(s, host);
    case Start(host, oci, count, annotations, fetchable, permitted) =>
      StartPublishes(s, host, oci, count, annotations, fetchable, permitted);
    case Terminate(host, pk, count, annotations) => TerminatePublishes(s, host, pk, count, annotations);
    case Scale(host, pk, desired, oci, fetchable, permitted) =>
      var diff := CountOf(s, host, pk) - desired;
      if diff > 0 {
        TerminatePublishes(s, host, pk, diff, map[]);
      } else if diff < 0 {
        StartPublishes(s, host, ScaleReference(s, host, pk, oci), -diff, map[], fetchable, permitted);
      }
    case _ =>
  }

  // ---------- one lattice ----------

  function Published(s: State, op: Op): seq<Event>
    requires Enabled(s, op)
  {
    var all := Next(s, op).events;
    if |s.events| <= |all| then all[|s.events|..] else []
  }

  /** The lattice whose topic an operation's events go to: that of its host. */
  function LatticeOf(s: State, op: Op): string
    requires Enabled(s, op)
  {
    if op.HostUp? then op.lattice else s.hosts[op.host]
  }

  /** What is published to a lattice's topic in a run. */
  function Heard(s: State, ops: seq<Op>, lattice: string): seq<Event>
    decreases |ops|
  {
    if ops == [] || !Enabled(s, ops[0]) then []
    else
      var heard := if LatticeOf(s, ops[0]) == lattice then Published(s, ops[0]) else [];
      heard + Heard(Next(s, ops[0]), ops[1..], lattice)
  }

  /** The hosts shown are those of the lattice, and every count shown is the number of running instances. */
  ghost predicate MirrorsLattice(hosts: Hosts, s: State, lattice: string) {
    && WellCounted(hosts)
    && (forall h :: h in hosts <==> h in s.hosts && s.hosts[h] == lattice)
    && (forall h, p :: h in hosts ==> Shown(hosts, h, p) == CountOf(s, h, p))
  }

  predicate SameHost(a: Hosts, b: Hosts, h: string) {
    (h in a <==> h in b) && (h in a ==> a[h] == b[h])
  }

  /** Events about one host change that host's entry only, and from its old entry alone. */
  lemma {:induction false} EventsAreLocal(a: Hosts, b: Hosts, events: seq<Event>, host: string, h: string)
    requires forall e :: e in events ==> e.host == host
    ensures h != host ==> SameHost(ProcessAll(a, events), a, h)
    ensures SameHost(a, b, host) ==> SameHost(ProcessAll(a, events), ProcessAll(b, events), host)
    decreases |events|
  {
    if events != [] {
      assert events[0] in events && forall e :: e in events[1..] ==> e in events;
      EventIsLocal(a, b, events[0], h);
      EventsAreLocal(ProcessEvent(a, events[0]), ProcessEvent(b, events[0]), events[1..], host, h);
    }
  }

  lemma EventIsLocal(a: Hosts, b: Hosts, e: Event, h: string)
    ensures h != e.host ==> SameHost(ProcessEvent(a, e), a, h)
    ensures SameHost(a, b, e.host) ==> SameHost(ProcessEvent(a, e), ProcessEvent(b, e), e.host)
  {
  }

  /** The picture of one lattice is the picture of all, cut down to the lattice's hosts. */
  ghost predicate CutDown(part: Hosts, all: Hosts, s: State, lattice: string) {
    forall h :: (h in part <==> h in s.hosts && s.hosts[h] == lattice) && (h in part ==> SameHost(part, all, h))
  }

  lemma HostsChange(s: State, op: Op, h: string)
    requires Enabled(s, op)
    ensures h != op.host || (!op.HostUp? && !op.HostDown?) ==> Get(Next(s, op).hosts, h) == Get(s.hosts, h)
    ensures op.HostUp? ==> Get(Next(s, op).hosts, op.host) == Some(op.lattice)
    ensures op.HostDown? ==> op.host !in Next(s, op).hosts
  {
    match op
    case Start(host, oci, count, annotations, fetchable, permitted) => StartKeepsHosts(s, op);
    case Scale(host, pk, desired, oci, fetchable, permitted) => StartKeepsHosts(s, op);
    case _ =>
  }

  lemma StartKeepsHosts(s: State, op: Op)
    requires Enabled(s, op) && (op.Start? || op.Scale?)
    ensures Next(s, op).hosts == s.hosts
  {
    match op
    case Start(host, oci, count, annotations, fetchable, permitted) =>
      if oci in fetchable {
        StartManyAdds(s, host, fetchable[oci], oci, annotations, RangeSize(count));
      }
    case Scale(host, pk, desired, oci, fetchable, permitted) =>
      var ref, diff := ScaleReference(s, host, pk, oci), CountOf(s, host, pk) - desired;
      if diff < 0 && ref in fetchable {
        StartManyAdds(s, host, fetchable[ref], ref, map[], RangeSize(-diff));
      }
  }

  lemma StepCutsDown(part: Hosts, all: Hosts, s: State, op: Op, lattice: string, published: seq<Event>)
    requires Mirrors(all, s) && CutDown(part, all, s, lattice) && Enabled(s, op)
    requires (forall e :: e in published ==> e.host == op.host) && Mirrors(ProcessAll(all, published), Next(s, op))
    ensures var heard := if LatticeOf(s, op) == lattice then published else [];
      CutDown(ProcessAll(part, heard), ProcessAll(all, published), Next(s, op), lattice)
  {
    var heard := if LatticeOf(s, op) == lattice then published else [];
    var part', all' := ProcessAll(part, heard), ProcessAll(all, published);
    forall h ensures h in part' <==> h in Next(s, op).hosts && Next(s, op).hosts[h] == lattice
             ensures h in part' ==> SameHost(part', all', h)
    {
      HostsChange(s, op, h);
      EventsAreLocal(part, all, heard, op.host, h);
      EventsAreLocal(all, part, published, op.host, h);
    }
  }

  lemma {:induction false} LatticeRun(part: Hosts, all: Hosts, s: State, ops: seq<Op>, s': State, lattice: string)
    requires Mirrors(all, s) && CutDown(part, all, s, lattice) && Reaches(s, ops, s')
    ensures MirrorsLattice(ProcessAll(part, Heard(s, ops, lattice)), s', lattice)
    decreases |ops|
  {
    if ops == [] {
      CutDownMirrors(part, all, s, lattice);
    } else {
      var op := ops[0];
      var published := StepMirrors(all, s, op);
      PublishedIs(s, op, published);
      StepCutsDown(part, all, s, op, lattice, published);
      var heard := if LatticeOf(s, op) == lattice then published else [];
      LatticeRun(ProcessAll(part, heard), ProcessAll(all, published), Next(s, op), ops[1..], s', lattice);
      ProcessAppended(part, heard, Heard(Next(s, op), ops[1..], lattice));
    }
  }

  lemma PublishedIs(s: State, op: Op, published: seq<Event>)
    requires Enabled(s, op) && Next(s, op).events == s.events + published
    ensures Published(s, op) == published && forall e :: e in published ==> e.host == op.host
  {
    StepPublishes(s, op);
    forall e | e in published ensures e.host == op.host {
      var i :| 0 <= i < |published| && published[i] == e;
      assert Next(s, op).events[|s.events| + i] == e;
    }
  }

  lemma CutDownMirrors(part: Hosts, all: Hosts, s: State, lattice: string)
    requires Mirrors(all, s) && CutDown(part, all, s, lattice)
    ensures MirrorsLattice(part, s, lattice)
  {
    forall h, p | h in part ensures Shown(part, h, p) == CountOf(s, h, p) {
      assert SameHost(part, all, h) && Shown(all, h, p) == CountOf(s, h, p);
    }
    forall h, p | h in part && p in part[h].actors ensures part[h].actors[p].count >= 1 {
      assert SameHost(part, all, h);
    }
  }

  /** From nothing: what is published to a lattice's topic, in order, leaves exactly the lattice's hosts and counts. */
  lemma LatticeMirrorsFromStart(ops: seq<Op>, s: State, lattice: string)
    requires Reaches(INITIAL, ops, s)
    ensures MirrorsLattice(ProcessAll(map[], Heard(INITIAL, ops, lattice)), s, lattice)
  {
    LatticeRun(map[], map[], INITIAL, ops, s, lattice);
  }
}
