/** The events of any run of actor operations, each processed once and in order, show what is running. */
module Mirror {
  import opened ActorRuns
  import opened Actors
  import opened Dashboard
  import opened Events

  /** The hosts shown are the hosts running, and every count shown is the number of running instances. */
  ghost predicate Mirrors(hosts: Hosts, s: State) {
    && WellCounted(hosts)
    && (forall h :: h in hosts <==> h in s.hosts)
    && (forall h, p :: Shown(hosts, h, p) == CountOf(s, h, p))
  }

  lemma StartOneMirrors(hosts: Hosts, s: State, host: string, m: Module, oci: string, annotations: Annotations)
    returns (e: Event)
    requires Mirrors(hosts, s) && host in s.hosts
    ensures var t := StartOne(s, host, m, oci, annotations);
      t.events == s.events + [e] && Mirrors(ProcessEvent(hosts, e), t)
  {
    var t := StartOne(s, host, m, oci, annotations);
    e := t.events[|s.events|];
    forall h, p ensures Shown(ProcessEvent(hosts, e), h, p) == CountOf(t, h, p) {
      assert Shown(hosts, h, p) == CountOf(s, h, p);
      if m.compiles {
        FindAppended(s.running, t.running[|s.running|], h, p);
      }
    }
  }

  lemma {:induction false} StartManyMirrors(hosts: Hosts, s: State, host: string, m: Module, oci: string,
          annotations: Annotations, n: nat)
    returns (published: seq<Event>)
    requires Mirrors(hosts, s) && host in s.hosts
    ensures var t := StartMany(s, host, m, oci, annotations, n);
      t.events == s.events + published && Mirrors(ProcessAll(hosts, published), t)
    decreases n
  {
    if n == 0 {
      published := [];
    } else {
      var e := StartOneMirrors(hosts, s, host, m, oci, annotations);
      var t := StartOne(s, host, m, oci, annotations);
      var more := StartManyMirrors(ProcessEvent(hosts, e), t, host, m, oci, annotations, n - 1);
      published := [e] + more;
    }
  }

  /** An event that only tells of something else leaves the picture right. */
  lemma ToldAlso(hosts: Hosts, s: State, e: Event)
    requires Mirrors(hosts, s) && ProcessEvent(hosts, e) == hosts
    ensures Mirrors(ProcessAll(hosts, [e]), s.(events := s.events + [e]))
  {
    assert [e][1..] == [];
  }

  lemma Followed(hosts: Hosts, a: seq<Event>, b: seq<Event>, s: State)
    requires Mirrors(ProcessAll(ProcessAll(hosts, a), b), s)
    ensures Mirrors(ProcessAll(hosts, a + b), s)
  {
    ProcessAppended(hosts, a, b);
  }

  lemma StartMirrors(hosts: Hosts, s: State, host: string, oci: string, count: int, annotations: Annotations,
          fetchable: Fetchable, permitted: bool)
    returns (published: seq<Event>)
    requires Mirrors(hosts, s) && host in s.hosts
    ensures var t := StartActorFromRef(s, host, oci, count, annotations, fetchable, permitted).0;
      t.events == s.events + published && Mirrors(ProcessAll(hosts, published), t)
  {
    if oci !in fetchable {
      published := [];
    } else {
      var m := fetchable[oci];
      var t := StartActor(s, host, m, oci, count, annotations, permitted).0;
      if permitted && !OtherReferenceRunning(s.running, host, m.publicKey, oci) {
        var some := StartManyMirrors(hosts, s, host, m, oci, annotations, RangeSize(count));
        var started := StartMany(s, host, m, oci, annotations, RangeSize(count));
        StartManyAdds(s, host, m, oci, annotations, RangeSize(count));
        var last := t.events[|t.events| - 1];
        assert t == started.(events := started.events + [last]);
        published := some + [last];
        ToldAlso(ProcessAll(hosts, some), started, last);
        Followed(hosts, some, [last], t);
      } else {
        published := [t.events[|s.events|]];
        ToldAlso(hosts, s, published[0]);
      }
    }
  }

  // ---------- stops ----------

  lemma {:induction false} WithoutTakesOne(running: seq<Instance>, i: Instance)
    requires i in running
    ensures multiset(Without(running, i)) == multiset(running) - multiset{i}
  {
    assert running == [running[0]] + running[1..];
    if running[0] != i {
      WithoutTakesOne(running[1..], i);
    }
  }

  lemma {:induction false} FoundAmongRunning(running: seq<Instance>, host: string, pk: string)
    ensures multiset(FindActor(running, host, pk)) <= multiset(running)
  {
    if running != [] {
      assert running == [running[0]] + running[1..];
      FoundAmongRunning(running[1..], host, pk);
    }
  }

  lemma {:induction false} WithoutLosesOne(running: seq<Instance>, i: Instance, host: string, pk: string)
    requires i in running
    ensures |FindActor(Without(running, i), host, pk)|
         == |FindActor(running, host, pk)| - if i.host == host && i.publicKey == pk then 1 else 0
  {
    WithoutFinds(running, i, host, pk);
    FoundIsRunning(running, host, pk);
    WithoutOne(FindActor(running, host, pk), i);
  }

  lemma HaltMirrors(hosts: Hosts, s: State, i: Instance)
    requires Mirrors(hosts, s) && i in s.running
    ensures Mirrors(ProcessEvent(hosts, ActorStopped(i.host, i.publicKey)), Halt(s, i))
  {
    FoundIsRunning(s.running, i.host, i.publicKey);
    assert Shown(hosts, i.host, i.publicKey) == CountOf(s, i.host, i.publicKey) > 0;
    var hosts' := ProcessEvent(hosts, ActorStopped(i.host, i.publicKey));
    forall h, p ensures Shown(hosts', h, p) == CountOf(Halt(s, i), h, p) {
      assert Shown(hosts, h, p) == CountOf(s, h, p);
      WithoutLosesOne(s.running, i, h, p);
    }
  }

  /** Halting the first of several running instances leaves the others running. */
  lemma StillRunning(running: seq<Instance>, targets: seq<Instance>)
    requires targets != [] && multiset(targets) <= multiset(running)
    ensures targets[0] in running
    ensures multiset(targets[1..]) <= multiset(running) &&
      multiset(targets[1..]) <= multiset(Without(running, targets[0]))
  {
    var i := targets[0];
    assert targets == [i] + targets[1..];
    assert i in multiset(targets) && i in multiset(running);
    WithoutTakesOne(running, i);
  }

  lemma Regrouped(before: seq<Event>, some: seq<Event>, more: seq<Event>)
    ensures before + some + more == before + (some + more)
  {
  }

  lemma OneMore(hosts: Hosts, e: Event, more: seq<Event>)
    ensures ProcessAll(hosts, [e] + more) == ProcessAll(ProcessEvent(hosts, e), more)
  {
    assert ([e] + more)[1..] == more;
  }

  lemma {:induction false} HaltEachMirrors(hosts: Hosts, s: State, targets: seq<Instance>, annotations: Annotations)
    returns (published: seq<Event>)
    requires Mirrors(hosts, s) && multiset(targets) <= multiset(s.running)
    ensures var t := HaltEach(s, targets, annotations);
      t.events == s.events + published && Mirrors(ProcessAll(hosts, published), t)
    decreases |targets|
  {
    if targets == [] {
      published := [];
    } else {
      var i := targets[0];
      StillRunning(s.running, targets);
      if Matches(i, annotations) {
        var e := ActorStopped(i.host, i.publicKey);
        HaltMirrors(hosts, s, i);
        var more := HaltEachMirrors(ProcessEvent(hosts, e), Halt(s, i), targets[1..], annotations);
        published := [e] + more;
        Regrouped(s.events, [e], more);
        OneMore(hosts, e, more);
      } else {
        published := HaltEachMirrors(hosts, s, targets[1..], annotations);
      }
    }
  }

  lemma HaltRequiredMirrors(hosts: Hosts, s: State, host: string, pk: string, annotations: Annotations, count: nat)
    returns (published: seq<Event>)
    requires Mirrors(hosts, s)
    ensures var t := HaltRequired(s, host, pk, annotations, count);
      t.events == s.events + published && Mirrors(ProcessAll(hosts, published), t)
  {
    var actors := FindActor(s.running, host, pk);
    FoundAmongRunning(s.running, host, pk);
    assert actors == Take(actors, count) + actors[|Take(actors, count)|..];
    published := HaltEachMirrors(hosts, s, Take(actors, count), annotations);
  }

  lemma TerminateMirrors(hosts: Hosts, s: State, host: string, pk: string, count: nat, annotations: Annotations)
    returns (published: seq<Event>)
    requires Mirrors(hosts, s) && host in s.hosts
    ensures var t := TerminateActor(s, host, pk, count, annotations);
      t.events == s.events + published && Mirrors(ProcessAll(hosts, published), t)
  {
    var t := TerminateActor(s, host, pk, count, annotations);
    if count > 0 {
      var some := HaltRequiredMirrors(hosts, s, host, pk, annotations, count);
      var halted := HaltRequired(s, host, pk, annotations, count);
      var last := ActorsStopped(host, pk, count, CountOf(s, host, pk) - count);
      published := some + [last];
      ToldAlso(ProcessAll(hosts, some), halted, last);
      Followed(hosts, some, [last], halted.(events := halted.events + [last]));
      assert forall h, p :: CountOf(t, h, p) == CountOf(halted, h, p);
    } else {
      published := HaltRequiredMirrors(hosts, s, host, pk, annotations, CountOf(s, host, pk));
      var halted := HaltRequired(s, host, pk, annotations, CountOf(s, host, pk));
      assert forall h, p :: CountOf(t, h, p) == CountOf(halted, h, p);
    }
  }

  lemma {:induction false} TerminateAllMirrors(hosts: Hosts, s: State, host: string) returns (published: seq<Event>)
    requires Mirrors(hosts, s)
    ensures var t := TerminateAll(s, host); t.events == s.events + published && Mirrors(ProcessAll(hosts, published), t)
    decreases |s.running|
  {
    match FirstOn(s.running, host)
    case None => published := [];
    case Some(pk) =>
      HaltingFirstShrinks(s, host);
      var some := HaltRequiredMirrors(hosts, s, host, pk, map[], CountOf(s, host, pk));
      var halted := HaltRequired(s, host, pk, map[], CountOf(s, host, pk));
      var more := TerminateAllMirrors(ProcessAll(hosts, some), halted, host);
      published := some + more;
      Followed(hosts, some, more, TerminateAll(halted, host));
  }

  // ---------- heartbeats ----------

  /** The inventory a heartbeat carries lists the actors with an instance, each with its number of instances. */
  lemma {:induction false} InventoryCounts(running: seq<Instance>, host: string, pk: string)
    ensures var counts, n := CountAll(running, host), |FindActor(running, host, pk)|;
      (pk in counts <==> n > 0) && (pk in counts ==> counts[pk] == n)
  {
    if running != [] {
      var init, last := running[..|running| - 1], running[|running| - 1];
      assert running == init + [last];
      FindAppended(init, last, host, pk);
      InventoryCounts(init, host, pk);
    }
  }

  lemma HeartbeatSets(hosts: Hosts, host: string, counts: map<string, int>, providers: seq<ProviderListing>,
          labels: Labels)
    ensures var hosts' := ProcessEvent(hosts, HostHeartbeat(host, counts, providers, labels));
      && (forall p :: Shown(hosts', host, p) == if p in counts then counts[p] else 0)
      && (forall h, p :: h != host ==> Shown(hosts', h, p) == Shown(hosts, h, p))
      && (WellCounted(hosts) && (forall p :: p in counts ==> counts[p] >= 1) ==> WellCounted(hosts'))
  {
  }

  /** From whatever the dashboard showed before, one heartbeat makes a host's counts right. */
  lemma HeartbeatRestores(hosts: Hosts, s: State, host: string, providers: seq<ProviderListing>, labels: Labels)
    ensures var hosts' := ProcessEvent(hosts, HostHeartbeat(host, CountAll(s.running, host), providers, labels));
      && (forall p :: Shown(hosts', host, p) == CountOf(s, host, p))
      && (forall h, p :: h != host ==> Shown(hosts', h, p) == Shown(hosts, h, p))
      && (WellCounted(hosts) ==> WellCounted(hosts'))
  {
    var counts := CountAll(s.running, host);
    HeartbeatSets(hosts, host, counts, providers, labels);
    forall p ensures (p in counts <==> CountOf(s, host, p) > 0) && (p in counts ==> counts[p] == CountOf(s, host, p)) {
      InventoryCounts(s.running, host, p);
    }
  }

  // ---------- any run ----------

  lemma {:induction false} RecodedCounts(running: seq<Instance>, host: string, m: Module, h: string, p: string)
    ensures |FindActor(Recoded(running, host, m), h, p)| == |FindActor(running, h, p)|
  {
    if running != [] {
      RecodedCounts(running[1..], host, m, h, p);
      assert Recoded(running, host, m)[1..] == Recoded(running[1..], host, m);
    }
  }

  lemma {:induction false} RepeatedNews(hosts: Hosts, e: Event, n: nat)
    requires ProcessEvent(hosts, e) == hosts
    ensures ProcessAll(hosts, Repeat(e, n)) == hosts
    decreases n
  {
    if n > 0 {
      assert Repeat(e, n)[1..] == Repeat(e, n - 1);
      RepeatedNews(hosts, e, n - 1);
    }
  }

  lemma UpdateMirrors(hosts: Hosts, s: State, host: string, oci: string, fetchable: Fetchable)
    returns (published: seq<Event>)
    requires Mirrors(hosts, s) && host in s.hosts
    ensures var t := LiveUpdate(s, host, oci, fetchable).0;
      t.events == s.events + published && Mirrors(ProcessAll(hosts, published), t)
  {
    var t := LiveUpdate(s, host, oci, fetchable).0;
    published := t.events[|s.events|..];
    if LiveUpdate(s, host, oci, fetchable).1.Ok? {
      var m := fetchable[oci];
      var e := if m.compiles then ActorUpdated(host, m.publicKey) else ActorUpdateFailed(host, m.publicKey);
      assert published == Repeat(e, CountOf(s, host, m.publicKey));
      RepeatedNews(hosts, e, CountOf(s, host, m.publicKey));
      forall h, p ensures CountOf(t, h, p) == CountOf(s, h, p) {
        RecodedCounts(s.running, host, m, h, p);
      }
    }
  }

  lemma HostUpMirrors(hosts: Hosts, s: State, host: string, lattice: string, labels: Labels)
    requires Mirrors(hosts, s) && host !in s.hosts
    ensures Mirrors(ProcessAll(hosts, [HostStarted(host, labels)]), Next(s, HostUp(host, lattice, labels)))
  {
    var e := HostStarted(host, labels);
    assert [e][1..] == [];
    forall h, p ensures Shown(ProcessEvent(hosts, e), h, p) == CountOf(Next(s, HostUp(host, lattice, labels)), h, p) {
      assert Shown(hosts, h, p) == CountOf(s, h, p);
    }
  }

  lemma HeartbeatMirrors(hosts: Hosts, s: State, host: string, providers: seq<ProviderListing>, labels: Labels)
    requires Mirrors(hosts, s) && host in s.hosts
    ensures Mirrors(ProcessAll(hosts, [HostHeartbeat(host, CountAll(s.running, host), providers, labels)]),
      Next(s, Heartbeat(host, providers, labels)))
  {
    var e := HostHeartbeat(host, CountAll(s.running, host), providers, labels);
    assert [e][1..] == [];
    HeartbeatRestores(hosts, s, host, providers, labels);
    forall h, p
      ensures Shown(ProcessEvent(hosts, e), h, p) == CountOf(Next(s, Heartbeat(host, providers, labels)), h, p)
    {
      assert Shown(hosts, h, p) == CountOf(s, h, p);
    }
  }

  lemma ScaleMirrors(hosts: Hosts, s: State, host: string, pk: string, desired: int, oci: string, fetchable: Fetchable,
          permitted: bool)
    returns (published: seq<Event>)
    requires Mirrors(hosts, s) && host in s.hosts
    ensures var t := ScaleActor(s, host, pk, desired, oci, fetchable, permitted).0;
      t.events == s.events + published && Mirrors(ProcessAll(hosts, published), t)
  {
    var diff := CountOf(s, host, pk) - desired;
    var ref := ScaleReference(s, host, pk, oci);
    if diff > 0 {
      published := TerminateMirrors(hosts, s, host, pk, diff, map[]);
    } else if diff < 0 && ref != "" {
      published := StartMirrors(hosts, s, host, ref, -diff, map[], fetchable, permitted);
    } else {
      published := [];
    }
  }

  lemma HostDownMirrors(hosts: Hosts, s: State, host: string) returns (published: seq<Event>)
    requires Mirrors(hosts, s) && host in s.hosts
    ensures var t := Next(s, HostDown(host));
      t.events == s.events + published && Mirrors(ProcessAll(hosts, published), t)
  {
    var some := TerminateAllMirrors(hosts, s, host);
    var purged, t := TerminateAll(s, host), Next(s, HostDown(host));
    published := some + [HostStopped(host)];
    var before := ProcessAll(hosts, some);
    ProcessAppended(hosts, some, [HostStopped(host)]);
    assert [HostStopped(host)][1..] == [];
    TerminateAllClears(s, host);
    forall h, p ensures Shown(before - {host}, h, p) == CountOf(t, h, p) {
      assert Shown(before, h, p) == CountOf(purged, h, p);
      NothingFound(purged.running, host, p);
    }
  }

  lemma StepMirrors(hosts: Hosts, s: State, op: Op) returns (published: seq<Event>)
    requires Mirrors(hosts, s) && Enabled(s, op)
    ensures Next(s, op).events == s.events + published && Mirrors(ProcessAll(hosts, published), Next(s, op))
  {
    match op
    case HostUp(host, lattice, labels) =>
      published := [HostStarted(host, labels)];
      HostUpMirrors(hosts, s, host, lattice, labels);
    case HostDown(host) => published := HostDownMirrors(hosts, s, host);
    case Start(host, oci, count, annotations, fetchable, permitted) =>
      published := StartMirrors(hosts, s, host, oci, count, annotations, fetchable, permitted);
    case Terminate(host, pk, count, annotations) =>
      published := TerminateMirrors(hosts, s, host, pk, count, annotations);
    case Scale(host, pk, desired, oci, fetchable, permitted) =>
      published := ScaleMirrors(hosts, s, host, pk, desired, oci, fetchable, permitted);
    case Update(host, oci, fetchable) => published := UpdateMirrors(hosts, s, host, oci, fetchable);
    case Heartbeat(host, providers, labels) =>
      published := [HostHeartbeat(host, CountAll(s.running, host), providers, labels)];
      HeartbeatMirrors(hosts, s, host, providers, labels);
  }

  lemma FirstStepMirrors(hosts: Hosts, s: State, ops: seq<Op>, s': State) returns (published: seq<Event>, t: State)
    requires Mirrors(hosts, s) && ops != [] && Reaches(s, ops, s')
    ensures t.events == s.events + published && Mirrors(ProcessAll(hosts, published), t) && Reaches(t, ops[1..], s')
  {
    t := Next(s, ops[0]);
    published := StepMirrors(hosts, s, ops[0]);
  }

  /** After any run, once its events are processed in order, the dashboard shows exactly what is running, and where. */
  lemma {:induction false} DashboardMirrorsRun(hosts: Hosts, s: State, ops: seq<Op>, s': State)
    returns (published: seq<Event>)
    requires Mirrors(hosts, s) && Reaches(s, ops, s')
    ensures s'.events == s.events + published && Mirrors(ProcessAll(hosts, published), s')
    decreases |ops|
  {
    if ops == [] {
      published := [];
    } else {
      var some, t := FirstStepMirrors(hosts, s, ops, s');
      var more := DashboardMirrorsRun(ProcessAll(hosts, some), t, ops[1..], s');
      published := some + more;
      Regrouped(s.events, some, more);
      ProcessAppended(hosts, some, more);
    }
  }

  /** From nothing: everything ever published, processed in order, is what runs now. */
  lemma DashboardMirrorsFromStart(ops: seq<Op>, s: State)
    requires Reaches(INITIAL, ops, s)
    ensures Mirrors(ProcessAll(map[], s.events), s)
  {
    var published := DashboardMirrorsRun(map[], INITIAL, ops, s);
    assert INITIAL.events + published == published;
  }
}
