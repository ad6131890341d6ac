/** Provider health: probes, the events they lead to, and the status the dashboard derives from those. */
module Health {
  import opened Dashboard
  import opened Events
  import opened Options

  datatype Provider = Provider(host: string, publicKey: string, linkName: string, contractId: string)

  /** What happens to a running provider: a probe, answered or not, or its host's heartbeat. */
  datatype Happening =
    | Probe(answered: bool)
    | Beat(actors: map<string, int>, listed: seq<ProviderListing>, labels: Labels)

  /** The provider process's own flag after a probe. */
  function AfterProbe(healthy: bool, answered: bool): bool {
    if answered && !healthy then true
    else if !answered && healthy then false
    else healthy
  }

  function ProbeEvent(p: Provider, before: bool, now: bool): Event {
    if now && !before then HealthCheckPassed(p.host, p.publicKey, p.linkName)
    else if !now && before then HealthCheckFailed(p.host, p.publicKey, p.linkName)
    else HealthCheckStatus(p.host, p.publicKey, p.linkName)
  }

  function EventOf(p: Provider, healthy: bool, h: Happening): Event {
    match h
    case Probe(answered) => ProbeEvent(p, healthy, AfterProbe(healthy, answered))
    case Beat(actors, listed, labels) => HostHeartbeat(p.host, actors, listed, labels)
  }

  function FlagAfter(healthy: bool, h: Happening): bool {
    if h.Probe? then AfterProbe(healthy, h.answered) else healthy
  }

  function EventsOf(p: Provider, healthy: bool, hs: seq<Happening>): seq<Event>
    decreases |hs|
  {
    if hs == [] then [] else [EventOf(p, healthy, hs[0])] + EventsOf(p, FlagAfter(healthy, hs[0]), hs[1..])
  }

  // ---------- alternation ----------

  /** The passed and failed events alone: true for passed. */
  function Transitions(events: seq<Event>): seq<bool> {
    if events == [] then []
    else if events[0].HealthCheckPassed? then [true] + Transitions(events[1..])
    else if events[0].HealthCheckFailed? then [false] + Transitions(events[1..])
    else Transitions(events[1..])
  }

  /** Whatever the probes find, passed and failed events strictly alternate; a provider not yet healthy passes first. */
  lemma {:induction false} TransitionsAlternate(p: Provider, healthy: bool, hs: seq<Happening>)
    ensures var ts := Transitions(EventsOf(p, healthy, hs));
      (ts != [] ==> ts[0] != healthy) && forall i :: 0 <= i < |ts| - 1 ==> ts[i] != ts[i + 1]
    decreases |hs|
  {
    if hs != [] {
      var now := FlagAfter(healthy, hs[0]);
      var rest := EventsOf(p, now, hs[1..]);
      TransitionsAlternate(p, now, hs[1..]);
      assert EventsOf(p, healthy, hs)[1..] == rest;
      assert Transitions(EventsOf(p, healthy, hs))
          == if now == healthy then Transitions(rest) else [now] + Transitions(rest);
    }
  }

  // ---------- what the dashboard shows ----------

  function StatusShown(hosts: Hosts, p: Provider): Option<string> {
    if p.host in hosts && (p.publicKey, p.linkName) in hosts[p.host].providers
    then Some(hosts[p.host].providers[(p.publicKey, p.linkName)].status)
    else None
  }

  /** The answer to the latest probe, if there was one. */
  function LatestAnswer(hs: seq<Happening>): Option<bool> {
    if hs == [] then None
    else
      var rest := LatestAnswer(hs[1..]);
      if rest.Some? then rest else if hs[0].Probe? then Some(hs[0].answered) else None
  }

  predicate EverAnswered(hs: seq<Happening>) {
    exists i :: 0 <= i < |hs| && hs[i].Probe? && hs[i].answered
  }

  predicate Lists(listed: seq<ProviderListing>, p: Provider) {
    exists i :: 0 <= i < |listed| && listed[i].publicKey == p.publicKey && listed[i].linkName == p.linkName
  }

  /** Every heartbeat lists the provider, and no actor has its key. */
  predicate AlwaysListed(p: Provider, hs: seq<Happening>) {
    forall i :: 0 <= i < |hs| && hs[i].Beat? ==> Lists(hs[i].listed, p) && p.publicKey !in hs[i].actors
  }

  lemma {:induction false} ListedKeepsKnown(known: Providers, listed: seq<ProviderListing>, p: Provider)
    ensures var key, after := (p.publicKey, p.linkName), ListedProviders(known, listed);
      && (key in after <==> Lists(listed, p))
      && (key in after && key in known ==> after[key] == known[key])
      && (key in after && key !in known ==> after[key].status == "Awaiting")
  {
    if listed != [] {
      var last, init := listed[|listed| - 1], listed[..|listed| - 1];
      ListedKeepsKnown(known, init, p);
      assert listed == init + [last];
      assert forall i :: 0 <= i < |init| ==> listed[i] == init[i];
      if Lists(listed, p) && !Lists(init, p) {
        assert last.publicKey == p.publicKey && last.linkName == p.linkName;
      }
      if Lists(init, p) {
        var i :| 0 <= i < |init| && init[i].publicKey == p.publicKey && init[i].linkName == p.linkName;
        assert listed[i] == init[i];
      }
    }
  }

  /** The dashboard knows the provider and no actor by its key. */
  predicate Known(hosts: Hosts, p: Provider) {
    p.host in hosts && (p.publicKey, p.linkName) in hosts[p.host].providers && p.publicKey !in hosts[p.host].actors
  }

  lemma OneHappening(hosts: Hosts, p: Provider, healthy: bool, h: Happening)
    requires Known(hosts, p) && AlwaysListed(p, [h])
    ensures var hosts', now := ProcessEvent(hosts, EventOf(p, healthy, h)), FlagAfter(healthy, h);
      && Known(hosts', p)
      && StatusShown(hosts', p)
         == if now == healthy then StatusShown(hosts, p) else Some(if now then "Healthy" else "Unhealthy")
  {
    if h.Beat? {
      assert [h][0].Beat?;
      ListedKeepsKnown(hosts[p.host].providers, h.listed, p);
    }
  }

  /** The provider's flag says how the latest probe went, and the dashboard follows the flag's changes. */
  lemma {:induction false} StatusFollowsFlag(hosts: Hosts, p: Provider, healthy: bool, hs: seq<Happening>)
    requires Known(hosts, p) && AlwaysListed(p, hs)
    ensures var hosts' := ProcessAll(hosts, EventsOf(p, healthy, hs));
      && Known(hosts', p)
      && var changed := exists i :: 0 <= i < |hs| && hs[i].Probe? && hs[i].answered != healthy;
         var flag := if LatestAnswer(hs).Some? then LatestAnswer(hs).value else healthy;
         StatusShown(hosts', p)
         == if changed then Some(if flag then "Healthy" else "Unhealthy") else StatusShown(hosts, p)
    decreases |hs|
  {
    if hs != [] {
      var h, now := hs[0], FlagAfter(healthy, hs[0]);
      var rest := hs[1..];
      OneHappening(hosts, p, healthy, h);
      StatusFollowsFlag(ProcessEvent(hosts, EventOf(p, healthy, h)), p, now, rest);
      assert EventsOf(p, healthy, hs)[1..] == EventsOf(p, now, rest);
      assert forall i :: 0 <= i < |rest| ==> rest[i] == hs[i + 1];
      AnswersSoFar(rest, now);
      if exists i :: 0 <= i < |rest| && rest[i].Probe? && rest[i].answered != healthy {
        var i :| 0 <= i < |rest| && rest[i].Probe? && rest[i].answered != healthy;
        assert hs[i + 1] == rest[i];
      }
    }
  }

  /** If no probe's answer differs from a flag, the latest answer, if any, is the flag. */
  lemma {:induction false} AnswersSoFar(hs: seq<Happening>, flag: bool)
    ensures (forall i :: 0 <= i < |hs| && hs[i].Probe? ==> hs[i].answered == flag) ==> LatestAnswer(hs) != Some(!flag)
    ensures LatestAnswer(hs).Some? ==>
      exists i :: 0 <= i < |hs| && hs[i].Probe? && hs[i].answered == LatestAnswer(hs).value
  {
    if hs != [] {
      AnswersSoFar(hs[1..], flag);
      assert forall i :: 0 <= i < |hs| - 1 ==> hs[1..][i] == hs[i + 1];
      if LatestAnswer(hs[1..]).Some? {
        var i :| 0 <= i < |hs[1..]| && hs[1..][i].Probe? && hs[1..][i].answered == LatestAnswer(hs[1..]).value;
        assert hs[i + 1].Probe?;
      }
    }
  }

  /** The provider's own flag after it starts unhealthy: how its latest probe went. */
  predicate Flag(hs: seq<Happening>) {
    LatestAnswer(hs) == Some(true)
  }

  /** What the dashboard should show: awaiting until the first answered probe, then the flag. */
  function TrueStatus(hs: seq<Happening>): string {
    if !EverAnswered(hs) then "Awaiting" else if Flag(hs) then "Healthy" else "Unhealthy"
  }

  /** Neither the provider nor an actor by its key is known on the host. */
  predicate NotYetShown(hosts: Hosts, p: Provider) {
    (p.publicKey, p.linkName) !in HostOf(hosts, p.host).providers && p.publicKey !in HostOf(hosts, p.host).actors
  }

  predicate ShownAwaiting(hosts: Hosts, p: Provider) {
    Known(hosts, p) && StatusShown(hosts, p) == Some("Awaiting")
  }

  function Started(hosts: Hosts, p: Provider): Hosts {
    ProcessEvent(hosts, ProviderStarted(p.host, p.publicKey, p.linkName, p.contractId))
  }

  function After(hosts: Hosts, p: Provider, healthy: bool, hs: seq<Happening>): Hosts {
    ProcessAll(hosts, EventsOf(p, healthy, hs))
  }

  lemma {:induction false} LatestAnswerAppended(a: seq<Happening>, b: seq<Happening>)
    ensures LatestAnswer(a + b) == if LatestAnswer(b).Some? then LatestAnswer(b) else LatestAnswer(a)
  {
    if a == [] {
      assert a + b == b;
    } else {
      LatestAnswerAppended(a[1..], b);
      assert (a + b)[1..] == a[1..] + b;
    }
  }

  lemma {:induction false} AfterSplits(hosts: Hosts, p: Provider, healthy: bool, a: seq<Happening>, b: seq<Happening>)
    ensures var flag := if LatestAnswer(a).Some? then LatestAnswer(a).value else healthy;
      After(hosts, p, healthy, a + b) == After(After(hosts, p, healthy, a), p, flag, b)
    decreases |a|
  {
    if a == [] {
      assert a + b == b;
    } else {
      var now := FlagAfter(healthy, a[0]);
      assert (a + b)[1..] == a[1..] + b;
      assert EventsOf(p, healthy, a + b)[1..] == EventsOf(p, now, a[1..] + b);
      assert EventsOf(p, healthy, a)[1..] == EventsOf(p, now, a[1..]);
      AfterSplits(ProcessEvent(hosts, EventOf(p, healthy, a[0])), p, now, a[1..], b);
    }
  }

  // ---------- heartbeats that leave the provider out ----------

  predicate Omits(p: Provider, h: Happening) {
    h.Beat? && !Lists(h.listed, p)
  }

  /** No actor has the provider's key. */
  predicate NoActorNamed(p: Provider, hs: seq<Happening>) {
    forall i :: 0 <= i < |hs| && hs[i].Beat? ==> p.publicKey !in hs[i].actors
  }

  function LastOmissionBefore(p: Provider, hs: seq<Happening>, end: nat): (at: Option<nat>)
    requires end <= |hs|
    ensures at.Some? ==> at.value < end && Omits(p, hs[at.value])
    ensures at.Some? ==> forall i :: at.value < i < end ==> !Omits(p, hs[i])
    ensures at.None? ==> forall i :: 0 <= i < end ==> !Omits(p, hs[i])
  {
    if end == 0 then None
    else if Omits(p, hs[end - 1]) then Some(end - 1)
    else LastOmissionBefore(p, hs, end - 1)
  }

  function LastOmission(p: Provider, hs: seq<Happening>): Option<nat> {
    LastOmissionBefore(p, hs, |hs|)
  }

  function NextBeat(hs: seq<Happening>, start: nat): (at: Option<nat>)
    ensures at.Some? ==> start <= at.value < |hs| && hs[at.value].Beat?
    ensures at.Some? ==> forall i :: start <= i < at.value ==> hs[i].Probe?
    ensures at.None? ==> forall i :: start <= i < |hs| ==> hs[i].Probe?
    decreases |hs| - start
  {
    if start >= |hs| then None
    else if hs[start].Beat? then Some(start)
    else NextBeat(hs, start + 1)
  }

  /** Since when the provider has been on show: its start, or the first heartbeat after the last that left it out. */
  function ShownSince(p: Provider, hs: seq<Happening>): (since: Option<nat>)
    ensures since.Some? ==> since.value <= |hs|
  {
    match LastOmission(p, hs)
    case None => Some(0)
    case Some(j) =>
      match NextBeat(hs, j + 1)
      case None => None
      case Some(k) => Some(k + 1)
  }

  /** A probe since then went differently from how the flag stood then. */
  predicate FlagChanged(hs: seq<Happening>, since: nat)
    requires since <= |hs|
  {
    exists i :: since <= i < |hs| && hs[i].Probe? && hs[i].answered != Flag(hs[..since])
  }

  /** The status of a provider on show since then: awaiting until its flag changes, and then its flag. */
  function StatusFrom(hs: seq<Happening>, since: nat): string
    requires since <= |hs|
  {
    if !FlagChanged(hs, since) then "Awaiting" else if Flag(hs) then "Healthy" else "Unhealthy"
  }

  /** The dashboard knows the host but neither the provider nor an actor by its key. */
  predicate Absent(hosts: Hosts, p: Provider) {
    p.host in hosts && (p.publicKey, p.linkName) !in hosts[p.host].providers && p.publicKey !in hosts[p.host].actors
  }

  lemma AfterOne(hosts: Hosts, p: Provider, healthy: bool, h: Happening)
    ensures After(hosts, p, healthy, [h]) == ProcessEvent(hosts, EventOf(p, healthy, h))
  {
    var e := EventOf(p, healthy, h);
    assert [h][1..] == [] && EventsOf(p, healthy, [h]) == [e] && [e][1..] == [];
    assert ProcessAll(hosts, [e]) == ProcessAll(ProcessEvent(hosts, e), []);
  }

  lemma OmissionForgets(hosts: Hosts, p: Provider, healthy: bool, h: Happening)
    requires Omits(p, h) && p.publicKey !in h.actors
    ensures Absent(After(hosts, p, healthy, [h]), p)
  {
    AfterOne(hosts, p, healthy, h);
    ListedKeepsKnown(HostOf(hosts, p.host).providers, h.listed, p);
  }

  lemma {:induction false} ProbesDoNotShow(hosts: Hosts, p: Provider, healthy: bool, hs: seq<Happening>)
    requires Absent(hosts, p) && forall i :: 0 <= i < |hs| ==> hs[i].Probe?
    ensures Absent(After(hosts, p, healthy, hs), p)
    decreases |hs|
  {
    if hs != [] {
      assert EventsOf(p, healthy, hs)[1..] == EventsOf(p, FlagAfter(healthy, hs[0]), hs[1..]);
      ProbesDoNotShow(ProcessEvent(hosts, EventOf(p, healthy, hs[0])), p, FlagAfter(healthy, hs[0]), hs[1..]);
    }
  }

  lemma ListingShowsAwaiting(hosts: Hosts, p: Provider, healthy: bool, h: Happening)
    requires Absent(hosts, p) && h.Beat? && Lists(h.listed, p) && p.publicKey !in h.actors
    ensures ShownAwaiting(After(hosts, p, healthy, [h]), p)
  {
    AfterOne(hosts, p, healthy, h);
    ListedKeepsKnown(hosts[p.host].providers, h.listed, p);
  }

  lemma AbsentAfterOmission(hosts: Hosts, p: Provider, hs: seq<Happening>, j: nat, end: nat)
    requires j < end <= |hs| && Omits(p, hs[j]) && NoActorNamed(p, hs)
    requires forall i :: j < i < end ==> hs[i].Probe?
    ensures Absent(After(hosts, p, false, hs[..end]), p)
  {
    var before := After(hosts, p, false, hs[..j]);
    assert hs[..end] == hs[..j] + ([hs[j]] + hs[j + 1..end]);
    AfterSplits(hosts, p, false, hs[..j], [hs[j]] + hs[j + 1..end]);
    var flag := if LatestAnswer(hs[..j]).Some? then LatestAnswer(hs[..j]).value else false;
    AfterSplits(before, p, flag, [hs[j]], hs[j + 1..end]);
    assert [hs[j]][1..] == [];
    OmissionForgets(before, p, flag, hs[j]);
    ProbesDoNotShow(After(before, p, flag, [hs[j]]), p, flag, hs[j + 1..end]);
  }

  lemma AwaitingAfterRelisting(hosts: Hosts, p: Provider, hs: seq<Happening>, j: nat, k: nat)
    requires j < k < |hs| && Omits(p, hs[j]) && NoActorNamed(p, hs)
    requires hs[k].Beat? && Lists(hs[k].listed, p) && forall i :: j < i < k ==> hs[i].Probe?
    ensures ShownAwaiting(After(hosts, p, false, hs[..k + 1]), p)
  {
    AbsentAfterOmission(hosts, p, hs, j, k);
    assert hs[..k + 1] == hs[..k] + [hs[k]];
    AfterSplits(hosts, p, false, hs[..k], [hs[k]]);
    var flag := if LatestAnswer(hs[..k]).Some? then LatestAnswer(hs[..k]).value else false;
    ListingShowsAwaiting(After(hosts, p, false, hs[..k]), p, flag, hs[k]);
  }

  lemma StartShowsAwaiting(hosts: Hosts, p: Provider)
    requires NotYetShown(hosts, p)
    ensures ShownAwaiting(After(Started(hosts, p), p, false, []), p)
  {
  }

  /** Shown as awaiting at some point and listed ever since, a provider's status is its flag once that has changed. */
  lemma StatusSince(hosts: Hosts, p: Provider, hs: seq<Happening>, since: nat)
    requires since <= |hs| && AlwaysListed(p, hs[since..])
    requires ShownAwaiting(After(hosts, p, false, hs[..since]), p)
    ensures StatusShown(After(hosts, p, false, hs), p) == Some(StatusFrom(hs, since))
  {
    var rest := hs[since..];
    assert hs == hs[..since] + rest;
    AfterSplits(hosts, p, false, hs[..since], rest);
    LatestAnswerAppended(hs[..since], rest);
    AnswersSoFar(hs[..since], true);
    StatusFollowsFlag(After(hosts, p, false, hs[..since]), p, Flag(hs[..since]), rest);
    assert forall i :: 0 <= i < |rest| ==> rest[i] == hs[since + i];
    if FlagChanged(hs, since) {
      var i :| since <= i < |hs| && hs[i].Probe? && hs[i].answered != Flag(hs[..since]);
      assert rest[i - since] == hs[i];
    }
  }

  lemma ListedSince(p: Provider, hs: seq<Happening>, since: nat)
    requires since <= |hs| && NoActorNamed(p, hs) && forall i :: since <= i < |hs| ==> !Omits(p, hs[i])
    ensures AlwaysListed(p, hs[since..])
  {
    forall i | 0 <= i < |hs| - since && hs[since..][i].Beat?
      ensures Lists(hs[since..][i].listed, p) && p.publicKey !in hs[since..][i].actors
    {
      assert hs[since..][i] == hs[since + i] && !Omits(p, hs[since + i]);
    }
  }

  /**
   A provider the latest heartbeat left out is not shown. Otherwise it shows as awaiting until its flag has
   changed since it came on show, and then as its flag.
   */
  function ExpectedStatus(p: Provider, hs: seq<Happening>): Option<string> {
    match ShownSince(p, hs)
    case None => None
    case Some(since) => Some(StatusFrom(hs, since))
  }

  lemma StatusOmitted(hosts: Hosts, p: Provider, hs: seq<Happening>, j: nat)
    requires NoActorNamed(p, hs) && LastOmission(p, hs) == Some(j) && NextBeat(hs, j + 1) == None
    ensures StatusShown(After(hosts, p, false, hs), p) == ExpectedStatus(p, hs)
  {
    AbsentAfterOmission(hosts, p, hs, j, |hs|);
    assert hs[..|hs|] == hs;
  }

  lemma RelistedAt(p: Provider, hs: seq<Happening>, j: nat, k: nat)
    requires NoActorNamed(p, hs) && LastOmission(p, hs) == Some(j) && NextBeat(hs, j + 1) == Some(k)
    ensures j < k < |hs| && Omits(p, hs[j]) && hs[k].Beat? && Lists(hs[k].listed, p)
    ensures forall i :: j < i < k ==> hs[i].Probe?
    ensures AlwaysListed(p, hs[k + 1..])
  {
    assert !Omits(p, hs[k]);
    ListedSince(p, hs, k + 1);
  }

  lemma StatusSinceRelisting(hosts: Hosts, p: Provider, hs: seq<Happening>, j: nat, k: nat)
    requires NoActorNamed(p, hs) && j < k < |hs| && Omits(p, hs[j]) && forall i :: j < i < k ==> hs[i].Probe?
    requires hs[k].Beat? && Lists(hs[k].listed, p) && AlwaysListed(p, hs[k + 1..])
    ensures StatusShown(After(hosts, p, false, hs), p) == Some(StatusFrom(hs, k + 1))
  {
    AwaitingAfterRelisting(hosts, p, hs, j, k);
    StatusSince(hosts, p, hs, k + 1);
  }

  lemma StatusAfterRelisting(hosts: Hosts, p: Provider, hs: seq<Happening>, j: nat, k: nat)
    requires NoActorNamed(p, hs) && LastOmission(p, hs) == Some(j) && NextBeat(hs, j + 1) == Some(k)
    ensures StatusShown(After(hosts, p, false, hs), p) == ExpectedStatus(p, hs)
  {
    RelistedAt(p, hs, j, k);
    StatusSinceRelisting(hosts, p, hs, j, k);
  }

  lemma StatusFromStart(hosts: Hosts, p: Provider, hs: seq<Happening>)
    requires NotYetShown(hosts, p) && NoActorNamed(p, hs) && LastOmission(p, hs) == None
    ensures StatusShown(After(Started(hosts, p), p, false, hs), p) == ExpectedStatus(p, hs)
  {
    StartShowsAwaiting(hosts, p);
    assert hs[..0] == [];
    ListedSince(p, hs, 0);
    StatusSince(Started(hosts, p), p, hs, 0);
  }

  lemma OnceOmitted(hosts: Hosts, p: Provider, hs: seq<Happening>)
    requires NoActorNamed(p, hs) && LastOmission(p, hs).Some?
    ensures StatusShown(After(hosts, p, false, hs), p) == ExpectedStatus(p, hs)
  {
    var j := LastOmission(p, hs).value;
    if NextBeat(hs, j + 1).None? {
      StatusOmitted(hosts, p, hs, j);
    } else {
      StatusAfterRelisting(hosts, p, hs, j, NextBeat(hs, j + 1).value);
    }
  }

  /** From its start, through any probes and heartbeats, this is what the dashboard shows. */
  lemma ShownStatus(hosts: Hosts, p: Provider, hs: seq<Happening>)
    requires NotYetShown(hosts, p) && NoActorNamed(p, hs)
    ensures StatusShown(After(Started(hosts, p), p, false, hs), p) == ExpectedStatus(p, hs)
  {
    if LastOmission(p, hs).None? {
      StatusFromStart(hosts, p, hs);
    } else {
      OnceOmitted(Started(hosts, p), p, hs);
    }
  }

  /** The dashboard is right exactly when the provider is on show and, once it has answered, its flag changed since. */
  lemma StatusIsRightIff(hosts: Hosts, p: Provider, hs: seq<Happening>)
    requires NotYetShown(hosts, p)
    requires NoActorNamed(p, hs)
    ensures StatusShown(After(Started(hosts, p), p, false, hs), p) == Some(TrueStatus(hs))
       <==> ShownSince(p, hs).Some? && (EverAnswered(hs) ==> FlagChanged(hs, ShownSince(p, hs).value))
  {
    ShownStatus(hosts, p, hs);
    if ShownSince(p, hs).Some? {
      var since := ShownSince(p, hs).value;
      AnswersSoFar(hs[..since], true);
      assert forall i :: 0 <= i < since ==> hs[..since][i] == hs[i];
    }
  }

  /** In particular it is always right while every heartbeat lists the provider. */
  lemma ListedIsRight(hosts: Hosts, p: Provider, hs: seq<Happening>)
    requires NotYetShown(hosts, p)
    requires AlwaysListed(p, hs)
    ensures StatusShown(After(Started(hosts, p), p, false, hs), p) == Some(TrueStatus(hs))
  {
    StatusIsRightIff(hosts, p, hs);
    assert hs[..0] == [] && ShownSince(p, hs) == Some(0);
  }

  /** Healthy, left out of one heartbeat and back in the next, with every probe since answered. */
  function OmittedOnce(p: Provider, n: nat): seq<Happening> {
    var listing := ProviderListing(p.publicKey, p.linkName, p.contractId);
    [Probe(true), Beat(map[], [], map[]), Beat(map[], [listing], map[])] + seq(n, _ => Probe(true))
  }

  lemma OmittedOnceFacts(p: Provider, n: nat)
    ensures var hs := OmittedOnce(p, n);
      NoActorNamed(p, hs) && ShownSince(p, hs) == Some(3) && !FlagChanged(hs, 3) && TrueStatus(hs) == "Healthy"
  {
    var hs := OmittedOnce(p, n);
    assert hs[2].listed[0].publicKey == p.publicKey && Lists(hs[2].listed, p) && Omits(p, hs[1]);
    assert hs[0] == Probe(true) && forall i :: 3 <= i < |hs| ==> hs[i] == Probe(true);
    assert forall i :: 0 <= i < |hs| && hs[i].Probe? ==> hs[i].answered == true;
    assert LastOmission(p, hs) == Some(1) && NextBeat(hs, 2) == Some(2);
    AnswersSoFar(hs, true);
    assert EverAnswered(hs);
    EverAnsweredIffChanged(hs);
    var opening := hs[..3];
    assert forall i :: 0 <= i < 3 && opening[i].Probe? ==> opening[i].answered == true;
    assert opening[0] == Probe(true) && EverAnswered(opening);
    AnswersSoFar(opening, true);
    EverAnsweredIffChanged(opening);
  }

  /** The dashboard then shows the provider as awaiting through any number of answered probes. */
  lemma StuckAwaiting(hosts: Hosts, p: Provider, n: nat)
    requires NotYetShown(hosts, p)
    ensures StatusShown(After(Started(hosts, p), p, false, OmittedOnce(p, n)), p) == Some("Awaiting")
    ensures TrueStatus(OmittedOnce(p, n)) == "Healthy"
  {
    OmittedOnceFacts(p, n);
    ShownStatus(hosts, p, OmittedOnce(p, n));
  }

  lemma {:induction false} EverAnsweredIffChanged(hs: seq<Happening>)
    ensures EverAnswered(hs) ==> LatestAnswer(hs).Some?
  {
    if hs != [] && EverAnswered(hs) && LatestAnswer(hs[1..]).None? && !hs[0].Probe? {
      var i :| 0 <= i < |hs| && hs[i].Probe? && hs[i].answered;
      assert hs[1..][i - 1] == hs[i];
      EverAnsweredIffChanged(hs[1..]);
    }
  }

  /**
   A heartbeat that leaves a provider out makes the dashboard forget its status, whatever that was; the next that
   lists it shows it as awaiting.
   */
  lemma OmittedProviderIsAwaiting(hosts: Hosts, p: Provider, healthy: bool, without: Happening, with: Happening)
    requires without.Beat? && !Lists(without.listed, p) && with.Beat? && Lists(with.listed, p)
    ensures var forgotten := ProcessEvent(hosts, EventOf(p, healthy, without));
      && StatusShown(forgotten, p) == None
      && StatusShown(ProcessEvent(forgotten, EventOf(p, healthy, with)), p) == Some("Awaiting")
  {
    ListedKeepsKnown(HostOf(hosts, p.host).providers, without.listed, p);
    ListedKeepsKnown(HostOf(ProcessEvent(hosts, EventOf(p, healthy, without)), p.host).providers, with.listed, p);
  }
}
