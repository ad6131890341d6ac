/**
 How events reach a dashboard: each is published to NATS and, within the application, to a local bus. The dashboard
 listens to both, and of what comes over NATS it leaves out the events of its application's first host.
 */
module LatticeMonitor {
  import opened ActorRuns
  import opened Actors
  import opened Dashboard
  import opened Events
  import opened LatticeMirror
  import opened Mirror
  import opened Options

  /** A dashboard in the lattice of its application's first host; `local` are the hosts that run in that application. */
  datatype Monitor = Monitor(lattice: string, first: string, local: set<string>) {
    predicate Valid() {
      first in local
    }

    /** Hosts of the same application other than the first are heard on both paths. */
    predicate HearsTwice(host: string) {
      host in local && host != first
    }
  }

  /** The queues hold what has been published on each path and not been taken yet. */
  datatype World = World(s: State, hosts: Hosts, bus: seq<Event>, nats: seq<Event>)

  datatype Step = Do(op: Op) | TakeFromBus | TakeFromNats

  /** What an operation publishes to the monitor's lattice. */
  function Sent(m: Monitor, s: State, op: Op): seq<Event>
    requires ActorRuns.Enabled(s, op)
  {
    if LatticeOf(s, op) == m.lattice then Published(s, op) else []
  }

  /** The first host stays up, as the monitor would have another first host otherwise. */
  predicate Enabled(m: Monitor, w: World, step: Step) {
    match step
    case Do(op) => ActorRuns.Enabled(w.s, op) && !(op.HostDown? && op.host == m.first)
    case TakeFromBus => w.bus != []
    case TakeFromNats => w.nats != []
  }

  function Next(m: Monitor, w: World, step: Step): World
    requires Enabled(m, w, step)
  {
    match step
    case Do(op) =>
      var sent := Sent(m, w.s, op);
      World(ActorRuns.Next(w.s, op), w.hosts, w.bus + if op.host in m.local then sent else [], w.nats + sent)
    case TakeFromBus => w.(hosts := ProcessEvent(w.hosts, w.bus[0]), bus := w.bus[1..])
    case TakeFromNats =>
      var e := w.nats[0];
      w.(hosts := if e.host == m.first then w.hosts else ProcessEvent(w.hosts, e), nats := w.nats[1..])
  }

  ghost predicate Reaches(m: Monitor, w: World, steps: seq<Step>, w': World)
    decreases |steps|
  {
    if steps == [] then w == w' else Enabled(m, w, steps[0]) && Reaches(m, Next(m, w, steps[0]), steps[1..], w')
  }

  predicate Settled(w: World) {
    w.bus == [] && w.nats == []
  }

  /** The monitor starts when the first host is up, and with it in the picture. */
  function Start(m: Monitor, labels: Labels): World {
    World(ActorRuns.Next(INITIAL, HostUp(m.first, m.lattice, labels)),
          map[m.first := HostInfo(map[], map[], Some(labels))], [], [])
  }

  // ---------- right about a host ----------

  /** The host is shown if it runs in the lattice, with the number of running instances of each actor. */
  ghost predicate RightAt(hosts: Hosts, s: State, h: string, lattice: string) {
    && (h in hosts <==> h in s.hosts && s.hosts[h] == lattice)
    && (h in hosts ==> forall p :: Shown(hosts, h, p) == CountOf(s, h, p))
    && (h in hosts ==> forall p :: p in hosts[h].actors ==> hosts[h].actors[p].count >= 1)
  }

  /** Whatever runs can be shown: everything ever published shows it. */
  ghost predicate Sound(m: Monitor, w: World) {
    && Mirrors(ProcessAll(map[], w.s.events), w.s)
    && forall e :: e in w.bus ==> e.host in m.local
  }

  lemma {:induction false} AgreeStays(a: Hosts, b: Hosts, events: seq<Event>, h: string)
    requires SameHost(a, b, h)
    ensures SameHost(ProcessAll(a, events), ProcessAll(b, events), h)
    decreases |events|
  {
    if events != [] {
      EventIsLocal(a, b, events[0], h);
      EventIsLocal(b, a, events[0], h);
      AgreeStays(ProcessEvent(a, events[0]), ProcessEvent(b, events[0]), events[1..], h);
    }
  }

  lemma {:induction false} OthersDoNotMatter(a: Hosts, events: seq<Event>, h: string)
    requires forall e :: e in events ==> e.host != h
    ensures SameHost(ProcessAll(a, events), a, h)
    decreases |events|
  {
    if events != [] {
      assert events[0] in events && forall e :: e in events[1..] ==> e in events;
      EventIsLocal(a, a, events[0], h);
      OthersDoNotMatter(ProcessEvent(a, events[0]), events[1..], h);
    }
  }

  lemma RightStays(a: Hosts, b: Hosts, s: State, h: string, lattice: string)
    requires RightAt(a, s, h, lattice) && SameHost(a, b, h)
    ensures RightAt(b, s, h, lattice)
  {
    if h in b {
      forall p ensures Shown(b, h, p) == CountOf(s, h, p) {
        assert Shown(a, h, p) == CountOf(s, h, p);
      }
    }
  }

  /** An operation on another host leaves a host's instances alone. */
  lemma OtherHostsStay(all: Hosts, s: State, op: Op, h: string, p: string)
    requires Mirrors(all, s) && ActorRuns.Enabled(s, op) && op.host != h
    ensures CountOf(ActorRuns.Next(s, op), h, p) == CountOf(s, h, p)
    ensures Get(ActorRuns.Next(s, op).hosts, h) == Get(s.hosts, h)
  {
    var published := StepMirrors(all, s, op);
    PublishedIs(s, op, published);
    EventsAreLocal(all, all, published, op.host, h);
    HostsChange(s, op, h);
    assert Shown(all, h, p) == CountOf(s, h, p);
    assert Shown(ProcessAll(all, published), h, p) == CountOf(ActorRuns.Next(s, op), h, p);
  }

  /** A picture of all hosts, with one host's entry from another picture that is right about it. */
  lemma Transplanted(all: Hosts, part: Hosts, s: State, h: string, lattice: string) returns (mixed: Hosts)
    requires Mirrors(all, s) && RightAt(part, s, h, lattice) && (h in s.hosts ==> s.hosts[h] == lattice)
    ensures Mirrors(mixed, s) && SameHost(mixed, part, h)
  {
    if h in part {
      mixed := all[h := part[h]];
      forall g, p ensures Shown(mixed, g, p) == CountOf(s, g, p) {
        assert Shown(all, g, p) == CountOf(s, g, p);
        if g == h {
          assert Shown(part, h, p) == CountOf(s, h, p);
        }
      }
    } else {
      mixed := all;
    }
  }

  lemma OwnOpKeepsRight(all: Hosts, part: Hosts, m: Monitor, s: State, op: Op)
    requires Mirrors(all, s) && RightAt(part, s, op.host, m.lattice) && ActorRuns.Enabled(s, op)
    ensures RightAt(ProcessAll(part, Sent(m, s, op)), ActorRuns.Next(s, op), op.host, m.lattice)
  {
    var h := op.host;
    HostsChange(s, op, h);
    if LatticeOf(s, op) == m.lattice {
      var mixed := Transplanted(all, part, s, h, m.lattice);
      var published := StepMirrors(mixed, s, op);
      PublishedIs(s, op, published);
      EventsAreLocal(mixed, part, published, h, h);
      MirrorsIsRight(ProcessAll(mixed, published), ActorRuns.Next(s, op), h, m.lattice);
      RightStays(ProcessAll(mixed, published), ProcessAll(part, published), ActorRuns.Next(s, op), h, m.lattice);
    }
  }

  lemma MirrorsIsRight(all: Hosts, s: State, h: string, lattice: string)
    requires Mirrors(all, s) && (h in s.hosts ==> s.hosts[h] == lattice)
    ensures RightAt(all, s, h, lattice)
  {
    forall p ensures Shown(all, h, p) == CountOf(s, h, p) {
    }
  }

  lemma OpKeepsRight(all: Hosts, part: Hosts, m: Monitor, s: State, op: Op, h: string, heard: seq<Event>)
    requires Mirrors(all, s) && RightAt(part, s, h, m.lattice) && ActorRuns.Enabled(s, op)
    requires heard == Sent(m, s, op) || (heard == [] && op.host != h)
    ensures RightAt(ProcessAll(part, heard), ActorRuns.Next(s, op), h, m.lattice)
  {
    if op.host == h {
      OwnOpKeepsRight(all, part, m, s, op);
    } else {
      SentIsAbout(all, m, s, op);
      OthersDoNotMatter(part, heard, h);
      HostsChange(s, op, h);
      forall p ensures CountOf(ActorRuns.Next(s, op), h, p) == CountOf(s, h, p) {
        OtherHostsStay(all, s, op, h, p);
      }
      assert RightAt(part, ActorRuns.Next(s, op), h, m.lattice);
      RightStays(part, ProcessAll(part, heard), ActorRuns.Next(s, op), h, m.lattice);
    }
  }

  lemma SentIsAbout(all: Hosts, m: Monitor, s: State, op: Op)
    requires Mirrors(all, s) && ActorRuns.Enabled(s, op)
    ensures forall e :: e in Sent(m, s, op) ==> e.host == op.host
  {
    var published := StepMirrors(all, s, op);
    PublishedIs(s, op, published);
  }

  lemma StepKeepsSound(m: Monitor, w: World, step: Step)
    requires Sound(m, w) && Enabled(m, w, step)
    ensures Sound(m, Next(m, w, step))
  {
    if step.Do? {
      var all := ProcessAll(map[], w.s.events);
      SentIsAbout(all, m, w.s, step.op);
      var published := StepMirrors(all, w.s, step.op);
      ProcessAppended(map[], w.s.events, published);
    }
  }

  // ---------- hosts heard once ----------

  /** The one path on which a host is heard, if it is heard on one. */
  function Path(m: Monitor, w: World, h: string): seq<Event> {
    if h in m.local then w.bus else w.nats
  }

  /** Once everything published on its path is taken, the picture will be right about the host. */
  ghost predicate WillBeRight(m: Monitor, w: World, h: string) {
    RightAt(ProcessAll(w.hosts, Path(m, w, h)), w.s, h, m.lattice)
  }

  lemma DoKeepsRight(m: Monitor, w: World, op: Op, h: string)
    requires Sound(m, w) && Enabled(m, w, Do(op)) && WillBeRight(m, w, h)
    ensures WillBeRight(m, Next(m, w, Do(op)), h)
  {
    var heard := if h in m.local && op.host !in m.local then [] else Sent(m, w.s, op);
    ProcessAppended(w.hosts, Path(m, w, h), heard);
    OpKeepsRight(ProcessAll(map[], w.s.events), ProcessAll(w.hosts, Path(m, w, h)), m, w.s, op, h, heard);
  }

  lemma TakeKeepsRight(m: Monitor, w: World, step: Step, h: string)
    requires m.Valid() && !m.HearsTwice(h) && Sound(m, w) && !step.Do? && Enabled(m, w, step) && WillBeRight(m, w, h)
    ensures WillBeRight(m, Next(m, w, step), h)
  {
    var w' := Next(m, w, step);
    var e := if step.TakeFromBus? then w.bus[0] else w.nats[0];
    assert step.TakeFromBus? ==> e in w.bus;
    if step.TakeFromBus? == (h in m.local) {
      if step.TakeFromNats? && e.host == m.first {
        EventIsLocal(w.hosts, w.hosts, e, h);
        AgreeStays(ProcessEvent(w.hosts, e), w.hosts, w'.nats, h);
        RightStays(ProcessAll(w.hosts, w.nats), ProcessAll(w'.hosts, w'.nats), w.s, h, m.lattice);
      }
    } else {
      EventIsLocal(w.hosts, w.hosts, e, h);
      AgreeStays(w.hosts, w'.hosts, Path(m, w, h), h);
      RightStays(ProcessAll(w.hosts, Path(m, w, h)), ProcessAll(w'.hosts, Path(m, w', h)), w.s, h, m.lattice);
    }
  }

  lemma {:induction false} RunKeepsRight(m: Monitor, w: World, steps: seq<Step>, w': World, h: string)
    requires m.Valid() && !m.HearsTwice(h) && Sound(m, w) && WillBeRight(m, w, h) && Reaches(m, w, steps, w')
    ensures Sound(m, w') && WillBeRight(m, w', h)
    decreases |steps|
  {
    if steps != [] {
      StepKeepsSound(m, w, steps[0]);
      if steps[0].Do? {
        DoKeepsRight(m, w, steps[0].op, h);
      } else {
        TakeKeepsRight(m, w, steps[0], h);
      }
      RunKeepsRight(m, Next(m, w, steps[0]), steps[1..], w', h);
    }
  }

  lemma StartIsRight(m: Monitor, labels: Labels, h: string)
    requires m.Valid()
    ensures Sound(m, Start(m, labels)) && WillBeRight(m, Start(m, labels), h)
  {
    var w := Start(m, labels);
    assert INITIAL.events + [HostStarted(m.first, labels)] == [HostStarted(m.first, labels)];
    DashboardMirrorsFromStart([HostUp(m.first, m.lattice, labels)], w.s) by {
      assert [HostUp(m.first, m.lattice, labels)][1..] == [];
    }
  }

  /** About a host it hears once, the first host or one of another application, a settled monitor is right. */
  lemma HeardOnceIsRight(m: Monitor, labels: Labels, steps: seq<Step>, w: World, h: string)
    requires m.Valid() && !m.HearsTwice(h) && Reaches(m, Start(m, labels), steps, w) && Settled(w)
    ensures RightAt(w.hosts, w.s, h, m.lattice)
  {
    StartIsRight(m, labels, h);
    RunKeepsRight(m, Start(m, labels), steps, w, h);
  }

  // ---------- heartbeats ----------

  /** An event that is a host's heartbeat with the inventory of what runs there. */
  ghost predicate RightBeat(e: Event, s: State, h: string) {
    && e.HostHeartbeat? && e.host == h
    && forall p :: (p in e.actors <==> CountOf(s, h, p) > 0) && (p in e.actors ==> e.actors[p] == CountOf(s, h, p))
  }

  lemma BeatMakesRight(hosts: Hosts, s: State, e: Event, h: string, lattice: string)
    requires RightBeat(e, s, h) && h in s.hosts && s.hosts[h] == lattice
    ensures RightAt(ProcessEvent(hosts, e), s, h, lattice)
  {
    HeartbeatSets(hosts, h, e.actors, e.providers, e.labels);
  }

  lemma BeatIsSent(m: Monitor, s: State, h: string, providers: seq<ProviderListing>, labels: Labels) returns (e: Event)
    requires h in s.hosts && s.hosts[h] == m.lattice
    ensures var op := Heartbeat(h, providers, labels);
      Sent(m, s, op) == [e] && RightBeat(e, ActorRuns.Next(s, op), h)
  {
    e := HostHeartbeat(h, CountAll(s.running, h), providers, labels);
    PublishedIs(s, Heartbeat(h, providers, labels), [e]);
    forall p
      ensures (p in e.actors <==> CountOf(s, h, p) > 0) && (p in e.actors ==> e.actors[p] == CountOf(s, h, p))
    {
      InventoryCounts(s.running, h, p);
    }
  }

  /** From whatever picture, a heartbeat makes a settled monitor right about a host it hears once, from then on. */
  lemma HeartbeatRestoresHeardOnce(m: Monitor, w: World, providers: seq<ProviderListing>, labels: Labels,
          steps: seq<Step>, w': World, h: string)
    requires m.Valid() && !m.HearsTwice(h) && Sound(m, w) && h in w.s.hosts && w.s.hosts[h] == m.lattice
    requires Reaches(m, Next(m, w, Do(Heartbeat(h, providers, labels))), steps, w') && Settled(w')
    ensures RightAt(w'.hosts, w'.s, h, m.lattice)
  {
    var beat := Do(Heartbeat(h, providers, labels));
    var e := BeatIsSent(m, w.s, h, providers, labels);
    ProcessAppended(w.hosts, Path(m, w, h), [e]);
    assert [e][1..] == [];
    BeatMakesRight(ProcessAll(w.hosts, Path(m, w, h)), Next(m, w, beat).s, e, h, m.lattice);
    StepKeepsSound(m, w, beat);
    RunKeepsRight(m, Next(m, w, beat), steps, w', h);
  }

  /** The last event about a host in a queue. */
  function LastAbout(events: seq<Event>, h: string): Option<Event> {
    if events == [] then None
    else if LastAbout(events[1..], h).Some? then LastAbout(events[1..], h)
    else if events[0].host == h then Some(events[0]) else None
  }

  lemma {:induction false} LastAboutAppended(a: seq<Event>, b: seq<Event>, h: string)
    ensures LastAbout(a + b, h) == if LastAbout(b, h).Some? then LastAbout(b, h) else LastAbout(a, h)
  {
    if a == [] {
      assert a + b == b;
    } else {
      LastAboutAppended(a[1..], b, h);
      assert (a + b)[1..] == a[1..] + b;
    }
  }

  lemma {:induction false} NothingAbout(events: seq<Event>, h: string)
    requires forall e :: e in events ==> e.host != h
    ensures LastAbout(events, h) == None
  {
    if events != [] {
      assert events[0] in events && forall e :: e in events[1..] ==> e in events;
      NothingAbout(events[1..], h);
    }
  }

  /** What is still to come about the host ends with its heartbeat; once all of that is taken, the picture is right. */
  ghost predicate BeatPending(m: Monitor, w: World, h: string) {
    && h in w.s.hosts && w.s.hosts[h] == m.lattice
    && (LastAbout(w.bus, h).Some? ==> RightBeat(LastAbout(w.bus, h).value, w.s, h))
    && (LastAbout(w.nats, h).Some? ==> RightBeat(LastAbout(w.nats, h).value, w.s, h))
    && (LastAbout(w.bus, h).None? && LastAbout(w.nats, h).None? ==> RightAt(w.hosts, w.s, h, m.lattice))
  }

  lemma OtherOpKeepsBeat(m: Monitor, w: World, op: Op, h: string)
    requires Sound(m, w) && BeatPending(m, w, h) && Enabled(m, w, Do(op)) && op.host != h
    ensures BeatPending(m, Next(m, w, Do(op)), h)
  {
    var all, sent := ProcessAll(map[], w.s.events), Sent(m, w.s, op);
    SentIsAbout(all, m, w.s, op);
    NothingAbout(sent, h);
    LastAboutAppended(w.bus, if op.host in m.local then sent else [], h);
    LastAboutAppended(w.nats, sent, h);
    HostsChange(w.s, op, h);
    forall p ensures CountOf(ActorRuns.Next(w.s, op), h, p) == CountOf(w.s, h, p) {
      OtherHostsStay(all, w.s, op, h, p);
    }
  }

  lemma TakeKeepsBeat(m: Monitor, w: World, step: Step, h: string)
    requires BeatPending(m, w, h) && h != m.first && !step.Do? && Enabled(m, w, step)
    ensures BeatPending(m, Next(m, w, step), h)
  {
    var w', e := Next(m, w, step), if step.TakeFromBus? then w.bus[0] else w.nats[0];
    if e.host == h {
      var rest := if step.TakeFromBus? then w'.bus else w'.nats;
      if LastAbout(rest, h).None? {
        BeatMakesRight(w.hosts, w.s, e, h, m.lattice);
      }
    } else {
      EventIsLocal(w.hosts, w.hosts, e, h);
      if RightAt(w.hosts, w.s, h, m.lattice) {
        RightStays(w.hosts, w'.hosts, w.s, h, m.lattice);
      }
    }
  }

  ghost predicate NothingDoneOn(steps: seq<Step>, h: string) {
    forall step :: step in steps && step.Do? ==> step.op.host != h
  }

  lemma {:induction false} RunKeepsBeat(m: Monitor, w: World, steps: seq<Step>, w': World, h: string)
    requires h != m.first && Sound(m, w) && BeatPending(m, w, h) && Reaches(m, w, steps, w') && NothingDoneOn(steps, h)
    ensures BeatPending(m, w', h)
    decreases |steps|
  {
    if steps != [] {
      assert steps[0] in steps && forall step :: step in steps[1..] ==> step in steps;
      StepKeepsSound(m, w, steps[0]);
      if steps[0].Do? {
        OtherOpKeepsBeat(m, w, steps[0].op, h);
      } else {
        TakeKeepsBeat(m, w, steps[0], h);
      }
      RunKeepsBeat(m, Next(m, w, steps[0]), steps[1..], w', h);
    }
  }

  /** About a host heard twice it makes the settled monitor right too, until something else is done on that host. */
  lemma HeartbeatRestoresHeardTwice(m: Monitor, w: World, providers: seq<ProviderListing>, labels: Labels,
          steps: seq<Step>, w': World, h: string)
    requires m.HearsTwice(h) && Sound(m, w) && h in w.s.hosts && w.s.hosts[h] == m.lattice
    requires Reaches(m, Next(m, w, Do(Heartbeat(h, providers, labels))), steps, w') && Settled(w')
    requires NothingDoneOn(steps, h)
    ensures RightAt(w'.hosts, w'.s, h, m.lattice)
  {
    var beat := Do(Heartbeat(h, providers, labels));
    var e := BeatIsSent(m, w.s, h, providers, labels);
    LastAboutAppended(w.bus, [e], h);
    LastAboutAppended(w.nats, [e], h);
    assert [e][1..] == [] && LastAbout([e], h) == Some(e);
    StepKeepsSound(m, w, beat);
    RunKeepsBeat(m, Next(m, w, beat), steps, w', h);
  }

  // ---------- hosts heard twice ----------

  /** Every event twice, one copy right after the other. */
  function Doubled(events: seq<Event>): seq<Event> {
    if events == [] then [] else [events[0], events[0]] + Doubled(events[1..])
  }

  lemma {:induction false} Extend(m: Monitor, w: World, steps: seq<Step>, t: World, step: Step)
    returns (u: World, more: seq<Step>)
    requires Reaches(m, w, steps, t) && Enabled(m, t, step)
    ensures u == Next(m, t, step) && more == steps + [step] && Reaches(m, w, more, u)
    decreases |steps|
  {
    u, more := Next(m, t, step), steps + [step];
    if steps == [] {
      assert more[1..] == [];
    } else {
      var _, rest := Extend(m, Next(m, w, steps[0]), steps[1..], t, step);
      assert more[1..] == rest;
    }
  }

  lemma TwoOfOne(hosts: Hosts, events: seq<Event>)
    requires events != []
    ensures ProcessAll(hosts, Doubled(events))
         == ProcessAll(ProcessEvent(ProcessEvent(hosts, events[0]), events[0]), Doubled(events[1..]))
  {
    var e, rest := events[0], Doubled(events[1..]);
    assert ([e, e] + rest)[1..] == [e] + rest && ([e] + rest)[1..] == rest;
  }

  lemma {:induction false} TakeInPairs(m: Monitor, w: World, steps: seq<Step>, t: World)
    returns (u: World, more: seq<Step>)
    requires Reaches(m, w, steps, t) && t.bus == t.nats && forall e :: e in t.bus ==> e.host != m.first
    ensures Reaches(m, w, more, u) && u == World(t.s, ProcessAll(t.hosts, Doubled(t.bus)), [], [])
    decreases |t.bus|
  {
    if t.bus == [] {
      u, more := t, steps;
    } else {
      var e := t.bus[0];
      assert e in t.bus && forall x :: x in t.bus[1..] ==> x in t.bus;
      var t1, r1 := Extend(m, w, steps, t, TakeFromBus);
      var t2, r2 := Extend(m, w, r1, t1, TakeFromNats);
      u, more := TakeInPairs(m, w, r2, t2);
      TwoOfOne(t.hosts, t.bus);
    }
  }

  /** An operation on a host heard twice, after which its events are taken in pairs. */
  lemma DoAndTake(m: Monitor, w: World, steps: seq<Step>, t: World, op: Op) returns (u: World, more: seq<Step>)
    requires Reaches(m, w, steps, t) && Settled(t) && Sound(m, t) && ActorRuns.Enabled(t.s, op)
    requires m.HearsTwice(op.host) && LatticeOf(t.s, op) == m.lattice
    ensures Reaches(m, w, more, u) && Sound(m, u)
    ensures u == World(ActorRuns.Next(t.s, op), ProcessAll(t.hosts, Doubled(Published(t.s, op))), [], [])
  {
    SentIsAbout(ProcessAll(map[], t.s.events), m, t.s, op);
    StepKeepsSound(m, t, Do(op));
    var t1, r1 := Extend(m, w, steps, t, Do(op));
    assert t1.bus == t1.nats == Published(t.s, op);
    u, more := TakeInPairs(m, w, r1, t1);
  }

  function StartOf(h: string, count: int): Op {
    ActorRuns.Start(h, "ref", count, map[], Offer("M1"), true)
  }

  lemma StartPublished(s: State, h: string)
    requires h in s.hosts && s.running == []
    ensures Published(s, StartOf(h, 1)) == [ActorStarted(h, "M1"), ActorsStarted(h, "M1", 1)]
    ensures Published(s, StartOf(h, 2)) == [ActorStarted(h, "M1"), ActorStarted(h, "M1"), ActorsStarted(h, "M1", 2)]
    ensures CountOf(ActorRuns.Next(s, StartOf(h, 1)), h, "M1") == 1
    ensures CountOf(ActorRuns.Next(s, StartOf(h, 2)), h, "M1") == 2
    ensures ActorRuns.Next(s, StartOf(h, 1)).hosts == s.hosts == ActorRuns.Next(s, StartOf(h, 2)).hosts
  {
    var m := Offer("M1")["ref"];
    var once := StartOne(s, h, m, "ref", map[]);
    assert StartMany(s, h, m, "ref", map[], 1) == once;
    assert StartMany(s, h, m, "ref", map[], 2) == StartOne(once, h, m, "ref", map[]);
    StartManyAdds(s, h, m, "ref", map[], 1);
    StartManyAdds(s, h, m, "ref", map[], 2);
    PublishedIs(s, StartOf(h, 1), [ActorStarted(h, "M1"), ActorsStarted(h, "M1", 1)]);
    PublishedIs(s, StartOf(h, 2), [ActorStarted(h, "M1"), ActorStarted(h, "M1"), ActorsStarted(h, "M1", 2)]);
  }

  /** A second host of the application starts, in a monitor that has taken everything. */
  lemma SecondHostStarts(m: Monitor, labels: Labels, h: string) returns (w: World, steps: seq<Step>)
    requires m.Valid() && m.HearsTwice(h)
    ensures Reaches(m, Start(m, labels), steps, w) && Settled(w) && Sound(m, w) && w.s.running == []
    ensures h in w.s.hosts && w.s.hosts[h] == m.lattice
    ensures h in w.hosts && w.hosts[h] == HostInfo(map[], map[], Some(labels))
  {
    var w0, op := Start(m, labels), HostUp(h, m.lattice, labels);
    StartIsRight(m, labels, m.first);
    PublishedIs(w0.s, op, [HostStarted(h, labels)]);
    w, steps := DoAndTake(m, w0, [], w0, op);
    TwoOfOne(w0.hosts, [HostStarted(h, labels)]);
    assert [HostStarted(h, labels)][1..] == [];
  }

  lemma StartsCountTwice(hosts: Hosts, h: string, labels: Labels)
    requires h in hosts && hosts[h] == HostInfo(map[], map[], Some(labels))
    ensures Shown(ProcessAll(hosts, Doubled([ActorStarted(h, "M1"), ActorsStarted(h, "M1", 1)])), h, "M1") == 2
  {
    var started, told := ActorStarted(h, "M1"), ActorsStarted(h, "M1", 1);
    TwoOfOne(hosts, [started, told]);
    assert [started, told][1..] == [told] && [told][1..] == [];
    var one := ProcessEvent(ProcessEvent(hosts, started), started);
    TwoOfOne(one, [told]);
  }

  /** One instance runs on the second host, and two are shown. */
  lemma OneIsShownAsTwo(m: Monitor, labels: Labels, h: string) returns (w: World, steps: seq<Step>)
    requires m.Valid() && m.HearsTwice(h)
    ensures Reaches(m, Start(m, labels), steps, w) && Settled(w)
    ensures CountOf(w.s, h, "M1") == 1 && Shown(w.hosts, h, "M1") == 2 && !RightAt(w.hosts, w.s, h, m.lattice)
  {
    var w1, r1 := SecondHostStarts(m, labels, h);
    StartPublished(w1.s, h);
    w, steps := DoAndTake(m, Start(m, labels), r1, w1, StartOf(h, 1));
    StartsCountTwice(w1.hosts, h, labels);
  }

  lemma StopsCountTwice(hosts: Hosts, h: string, last: Event)
    requires Shown(hosts, h, "M1") == 2 && last.ActorsStopped?
    ensures Shown(ProcessAll(hosts, Doubled([ActorStopped(h, "M1"), last])), h, "M1") == 0
  {
    var stopped := ActorStopped(h, "M1");
    TwoOfOne(hosts, [stopped, last]);
    assert [stopped, last][1..] == [last] && [last][1..] == [];
    TwoOfOne(ProcessEvent(ProcessEvent(hosts, stopped), stopped), [last]);
  }

  lemma OneHalted(s: State, h: string)
    requires CountOf(s, h, "M1") == 2
    ensures HaltRequired(s, h, "M1", map[], 1).events == s.events + [ActorStopped(h, "M1")]
  {
    var actors := FindActor(s.running, h, "M1");
    FoundIsRunning(s.running, h, "M1");
    assert actors[0] in actors && Matches(actors[0], map[]);
    assert Take(actors, 1) == [actors[0]] && [actors[0]][1..] == [];
    assert HaltEach(s, [actors[0]], map[]) == HaltEach(Halt(s, actors[0]), [], map[]);
  }

  lemma StopPublished(s: State, h: string)
    requires h in s.hosts && CountOf(s, h, "M1") == 2
    ensures Published(s, Terminate(h, "M1", 1, map[])) == [ActorStopped(h, "M1"), ActorsStopped(h, "M1", 1, 1)]
    ensures CountOf(ActorRuns.Next(s, Terminate(h, "M1", 1, map[])), h, "M1") == 1
  {
    OneHalted(s, h);
    TerminateLeaves(s, h, "M1", 1);
    var sent := [ActorStopped(h, "M1"), ActorsStopped(h, "M1", 1, 1)];
    assert TerminateActor(s, h, "M1", 1, map[]).events == s.events + sent;
    PublishedIs(s, Terminate(h, "M1", 1, map[]), sent);
  }

  /** A heartbeat shows two running instances on the second host; one is stopped, and none is shown. */
  lemma OneIsShownAsNone(m: Monitor, labels: Labels, h: string) returns (w: World, steps: seq<Step>)
    requires m.Valid() && m.HearsTwice(h)
    ensures Reaches(m, Start(m, labels), steps, w) && Settled(w)
    ensures CountOf(w.s, h, "M1") == 1 && Shown(w.hosts, h, "M1") == 0
  {
    var w1, r1 := SecondHostStarts(m, labels, h);
    StartPublished(w1.s, h);
    var w2, r2 := DoAndTake(m, Start(m, labels), r1, w1, StartOf(h, 2));
    var w3, r3 := DoAndTake(m, Start(m, labels), r2, w2, Heartbeat(h, [], labels));
    var e := BeatIsSent(m, w2.s, h, [], labels);
    TwoOfOne(w2.hosts, [e]);
    assert [e][1..] == [];
    BeatMakesRight(ProcessEvent(w2.hosts, e), w3.s, e, h, m.lattice);
    StopPublished(w3.s, h);
    w, steps := DoAndTake(m, Start(m, labels), r3, w3, Terminate(h, "M1", 1, map[]));
    StopsCountTwice(w3.hosts, h, ActorsStopped(h, "M1", 1, 1));
  }

  /** In every run a settled monitor is right about the host. */
  ghost predicate AlwaysRight(m: Monitor, h: string) {
    forall labels, steps, w :: Reaches(m, Start(m, labels), steps, w) && Settled(w) ==>
      RightAt(w.hosts, w.s, h, m.lattice)
  }

  /** That holds exactly for the first host and the hosts of other applications. */
  lemma AlwaysRightIff(m: Monitor, h: string)
    requires m.Valid()
    ensures AlwaysRight(m, h) <==> h == m.first || h !in m.local
  {
    if m.HearsTwice(h) {
      var w, steps := OneIsShownAsTwo(m, map[], h);
    } else {
      forall labels, steps, w | Reaches(m, Start(m, labels), steps, w) && Settled(w)
        ensures RightAt(w.hosts, w.s, h, m.lattice)
      {
        HeardOnceIsRight(m, labels, steps, w, h);
      }
    }
  }
}
