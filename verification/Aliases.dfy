/** Call aliases over whole runs of the lattice: which actor each node answers with, and when all nodes agree. */
module Aliases {
  import opened Lattice
  import opened MetadataStream
  import opened Options
  import opened Replication

  /** The key of the actor that claims an alias in a message, if it does. */
  function Claimant(m: Msg, alias: string): Option<string> {
    if m.key.ClaimsKey? && m.body.Some? && m.body.value.ClaimsRecord? && m.body.value.claims.callAlias == Some(alias)
    then Some(m.key.publicKey) else None
  }

  /** The claim a step puts or handles on a node. */
  function ClaimAt(s: System, step: Step, n: NodeId, alias: string): Option<string>
    requires Enabled(s, step)
  {
    match step
    case PutClaims(o, pk, claims) => if o == n && claims.callAlias == Some(alias) then Some(pk) else None
    case Deliver(o) => if o == n then Claimant(s.sites[o].pending[0], alias) else None
    case _ => None
  }

  function FirstClaim(s: System, steps: seq<Step>, n: NodeId, alias: string): Option<string>
    decreases |steps|
  {
    if steps == [] || !Enabled(s, steps[0]) then None
    else if ClaimAt(s, steps[0], n, alias).Some? then ClaimAt(s, steps[0], n, alias)
    else FirstClaim(Next(s, steps[0]), steps[1..], n, alias)
  }

  function AliasOn(s: System, n: NodeId, alias: string): Option<string> {
    if n in s.sites then Get(s.sites[n].node.aliases, alias) else None
  }

  function Earlier(first: Option<string>, second: Option<string>): Option<string> {
    if first.Some? then first else second
  }

  lemma HandleClaims(node: Node, m: Msg, alias: string)
    requires |alias| > 1
    ensures Get(Handle(node, m).aliases, alias) == Earlier(Get(node.aliases, alias), Claimant(m, alias))
  {
  }

  lemma StepClaims(s: System, step: Step, n: NodeId, alias: string)
    requires Enabled(s, step) && |alias| > 1
    ensures AliasOn(Next(s, step), n, alias) == Earlier(AliasOn(s, n, alias), ClaimAt(s, step, n, alias))
  {
    if step.Deliver? {
      HandleClaims(s.sites[step.n].node, s.sites[step.n].pending[0], alias);
    }
  }

  /** A node answers an alias with the actor of the first claims with that alias it put or handled. */
  lemma {:induction false} AliasIsFirstClaim(s: System, steps: seq<Step>, s': System, n: NodeId, alias: string)
    requires Reaches(s, steps, s') && |alias| > 1
    ensures AliasOn(s', n, alias) == Earlier(AliasOn(s, n, alias), FirstClaim(s, steps, n, alias))
    decreases |steps|
  {
    if steps != [] {
      StepClaims(s, steps[0], n, alias);
      AliasIsFirstClaim(Next(s, steps[0]), steps[1..], s', n, alias);
    }
  }

  /** So two nodes agree exactly when their first claims name one actor. */
  lemma NodesAgreeOnAliasIff(steps: seq<Step>, s: System, a: NodeId, b: NodeId, alias: string)
    requires Reaches(EMPTY, steps, s) && a in s.sites && b in s.sites && |alias| > 1
    ensures Get(s.sites[a].node.aliases, alias) == Get(s.sites[b].node.aliases, alias)
       <==> FirstClaim(EMPTY, steps, a, alias) == FirstClaim(EMPTY, steps, b, alias)
  {
    AliasIsFirstClaim(EMPTY, steps, s, a, alias);
    AliasIsFirstClaim(EMPTY, steps, s, b, alias);
  }

  // ---------- where claims come from ----------

  ghost predicate Sent(s: System, m: Msg) {
    m in s.log || exists n :: (n, m) in s.unwritten
  }

  /** Every alias answered was claimed in a message sent, and claims held have their alias answered. */
  ghost predicate Sourced(s: System, n: NodeId, alias: string) {
    n in s.sites ==>
      && (AliasOn(s, n, alias).Some? ==> exists m :: Sent(s, m) && Claimant(m, alias) == AliasOn(s, n, alias))
      && (forall pk :: Holds(s, n, pk, alias) ==> AliasOn(s, n, alias).Some?)
  }

  lemma SentStays(s: System, step: Step, m: Msg)
    requires Enabled(s, step) && Sent(s, m)
    ensures Sent(Next(s, step), m)
  {
    if m !in s.log {
      var n :| (n, m) in s.unwritten;
      if step != Write(n, m) {
        assert (n, m) in Next(s, step).unwritten;
      }
    }
  }

  lemma ClaimsAtAreSent(s: System, step: Step, n: NodeId, alias: string) returns (m: Msg)
    requires Invariant(s) && Enabled(s, step) && ClaimAt(s, step, n, alias).Some?
    ensures Sent(Next(s, step), m) && Claimant(m, alias) == ClaimAt(s, step, n, alias)
  {
    match step
    case PutClaims(_, pk, claims) =>
      m := Message(ClaimsKey(pk), Some(ClaimsRecord(claims)));
      assert (n, m) in Next(s, step).unwritten;
    case Deliver(_) =>
      m := s.sites[n].pending[0];
      assert PendingWasWritten(s, n) && m in s.sites[n].pending;
  }

  ghost predicate Holds(s: System, n: NodeId, pk: string, alias: string) {
    n in s.sites && pk in s.sites[n].node.claims && s.sites[n].node.claims[pk].callAlias == Some(alias)
  }

  lemma HandledClaims(node: Node, m: Msg, pk: string, alias: string)
    requires pk in Handle(node, m).claims && Handle(node, m).claims[pk].callAlias == Some(alias)
    ensures Claimant(m, alias).Some? || (pk in node.claims && node.claims[pk].callAlias == Some(alias))
  {
  }

  lemma PublishedClaims(s: System, m: Msg, n: NodeId, pk: string, alias: string)
    ensures Holds(Publish(s, m), n, pk, alias) ==> Holds(s, n, pk, alias)
  {
  }

  /** Claims a node holds after a step it held before, or the step brought them. */
  lemma NewClaims(s: System, step: Step, n: NodeId, pk: string, alias: string)
    requires Enabled(s, step) && Holds(Next(s, step), n, pk, alias)
    ensures ClaimAt(s, step, n, alias).Some? || Holds(s, n, pk, alias)
  {
    match step
    case Write(_, m) => PublishedClaims(s, m, n, pk, alias);
    case Outside(m) => PublishedClaims(s, m, n, pk, alias);
    case Deliver(o) =>
      if o == n {
        HandledClaims(s.sites[n].node, s.sites[n].pending[0], pk, alias);
      }
    case _ =>
  }

  lemma StepKeepsSourced(s: System, step: Step, n: NodeId, alias: string)
    requires Invariant(s) && Sourced(s, n, alias) && Enabled(s, step) && |alias| > 1
    ensures Sourced(Next(s, step), n, alias)
  {
    var s' := Next(s, step);
    StepClaims(s, step, n, alias);
    if AliasOn(s, n, alias).Some? {
      var m :| Sent(s, m) && Claimant(m, alias) == AliasOn(s, n, alias);
      SentStays(s, step, m);
    } else if ClaimAt(s, step, n, alias).Some? {
      var m := ClaimsAtAreSent(s, step, n, alias);
    }
    forall pk | Holds(s', n, pk, alias) ensures AliasOn(s', n, alias).Some? {
      NewClaims(s, step, n, pk, alias);
    }
  }

  lemma {:induction false} RunKeepsSourced(s: System, steps: seq<Step>, s': System, n: NodeId, alias: string)
    requires Invariant(s) && Sourced(s, n, alias) && Reaches(s, steps, s') && |alias| > 1
    ensures Sourced(s', n, alias)
    decreases |steps|
  {
    if steps != [] {
      StepKeepsSourced(s, steps[0], n, alias);
      StepKeeps(s, steps[0]);
      RunKeepsSourced(Next(s, steps[0]), steps[1..], s', n, alias);
    }
  }

  // ---------- when every node answers with one actor ----------

  /** Nobody else ever claimed the alias. */
  ghost predicate OnlyClaimant(log: seq<Msg>, alias: string, pk: string) {
    forall m :: m in log && Claimant(m, alias).Some? ==> Claimant(m, alias) == Some(pk)
  }

  /** The actor's last claims still carry the alias. */
  predicate StillClaims(log: seq<Msg>, alias: string, pk: string) {
    var last := LastFor(log, ClaimsKey(pk));
    last.Some? && Claimant(last.value, alias) == Some(pk)
  }

  lemma SettledNodeAnswers(steps: seq<Step>, s: System, n: NodeId, alias: string, pk: string)
    requires Reaches(EMPTY, steps, s) && Quiet(s) && n in s.sites && |alias| > 1
    requires OnlyClaimant(s.log, alias, pk) && StillClaims(s.log, alias, pk)
    ensures Get(s.sites[n].node.aliases, alias) == Some(pk)
  {
    RunKeepsSourced(EMPTY, steps, s, n, alias);
    Convergence(steps, s, n, ClaimsKey(pk));
    assert Lookup(s.sites[n].node, ClaimsKey(pk)) == Bucket(s.log, ClaimsKey(pk));
    assert Holds(s, n, pk, alias);
    var m :| Sent(s, m) && Claimant(m, alias) == AliasOn(s, n, alias);
    assert m in s.log;
  }

  // ---------- runs with a given log ----------

  /** The first claim of an alias in a list of messages. */
  function FirstIn(ms: seq<Msg>, alias: string): Option<string> {
    if ms == [] then None else Earlier(Claimant(ms[0], alias), FirstIn(ms[1..], alias))
  }

  lemma {:induction false} FirstInIsIn(ms: seq<Msg>, alias: string) returns (m: Msg)
    requires FirstIn(ms, alias).Some?
    ensures m in ms && Claimant(m, alias) == FirstIn(ms, alias)
  {
    if Claimant(ms[0], alias).Some? {
      m := ms[0];
    } else {
      m := FirstInIsIn(ms[1..], alias);
    }
  }

  lemma OutsideEffect(s: System, m: Msg)
    requires Writable(m)
    ensures Enabled(s, Outside(m))
    ensures var s' := Next(s, Outside(m));
      && s'.sites.Keys == s.sites.Keys && s'.unwritten == s.unwritten && s'.log == s.log + [m]
      && (forall n :: n in s.sites ==> s'.sites[n] == Site(s.sites[n].node, s.sites[n].pending + [m]))
  {
  }

  lemma FirstThenRest(log: seq<Msg>, ms: seq<Msg>)
    requires ms != []
    ensures log + [ms[0]] + ms[1..] == log + ms
  {
  }

  lemma {:induction false} OutsideAll(s: System, steps: seq<Step>, ms: seq<Msg>) returns (s': System, steps': seq<Step>)
    requires Reaches(EMPTY, steps, s) && forall m :: m in ms ==> Writable(m)
    ensures Reaches(EMPTY, steps', s') && s'.sites.Keys == s.sites.Keys && s'.unwritten == s.unwritten
    ensures s'.log == s.log + ms
    ensures forall n :: n in s.sites ==> s'.sites[n].node == s.sites[n].node
    decreases |ms|
  {
    if ms == [] {
      s', steps' := s, steps;
    } else {
      assert ms[0] in ms && forall m :: m in ms[1..] ==> m in ms;
      OutsideEffect(s, ms[0]);
      var t, more := Extend(EMPTY, steps, s, Outside(ms[0]));
      s', steps' := OutsideAll(t, more, ms[1..]);
      FirstThenRest(s.log, ms);
    }
  }

  lemma DeliverClaims(s: System, n: NodeId, alias: string)
    requires n in s.sites && s.sites[n].pending != [] && |alias| > 1
    ensures var s' := Next(s, Deliver(n));
      s'.log == s.log && AliasOn(s', n, alias) == Earlier(AliasOn(s, n, alias), Claimant(s.sites[n].pending[0], alias))
  {
    HandleClaims(s.sites[n].node, s.sites[n].pending[0], alias);
  }

  lemma {:induction false} DeliverAll(s: System, steps: seq<Step>, n: NodeId, alias: string)
    returns (s': System, steps': seq<Step>)
    requires Reaches(EMPTY, steps, s) && n in s.sites && |alias| > 1
    ensures Reaches(EMPTY, steps', s') && s'.sites.Keys == s.sites.Keys && s'.unwritten == s.unwritten &&
      s'.log == s.log
    ensures s'.sites[n].pending == [] && forall o :: o in s.sites && o != n ==> s'.sites[o] == s.sites[o]
    ensures AliasOn(s', n, alias) == Earlier(AliasOn(s, n, alias), FirstIn(s.sites[n].pending, alias))
    decreases |s.sites[n].pending|
  {
    if s.sites[n].pending == [] {
      s', steps' := s, steps;
    } else {
      DeliverEffect(s, n);
      DeliverClaims(s, n, alias);
      var t, more := Extend(EMPTY, steps, s, Deliver(n));
      s', steps' := DeliverAll(t, more, n, alias);
    }
  }

  lemma JoinEffect(s: System, n: NodeId)
    requires n !in s.sites
    ensures Enabled(s, Join(n))
    ensures var s' := Next(s, Join(n));
      && s'.sites == s.sites[n := Site(EMPTY_NODE, s.stream)] && s'.unwritten == s.unwritten
      && s'.log == s.log && s'.stream == s.stream
  {
  }

  /** A node that joins and catches up answers with the first claim among the messages the stream retains. */
  lemma JoinerAnswersFirstRetained(s: System, steps: seq<Step>, n: NodeId, alias: string)
    returns (s': System, steps': seq<Step>)
    requires Reaches(EMPTY, steps, s) && n !in s.sites && |alias| > 1
    ensures Reaches(EMPTY, steps', s') && s'.sites.Keys == s.sites.Keys + {n} && s'.unwritten == s.unwritten &&
      s'.log == s.log
    ensures s'.sites[n].pending == [] && forall o :: o in s.sites ==> s'.sites[o] == s.sites[o]
    ensures Get(s'.sites[n].node.aliases, alias) == FirstIn(LastPerSubject(s.log), alias)
  {
    RunKeeps(EMPTY, steps, s);
    JoinEffect(s, n);
    var t, more := Extend(EMPTY, steps, s, Join(n));
    s', steps' := DeliverAll(t, more, n, alias);
  }

  lemma {:induction false} RetainedIsLast(log: seq<Msg>, m: Msg)
    requires m in LastPerSubject(log)
    ensures LastFor(log, m.key) == Some(m)
  {
    if LastFor(log[1..], log[0].key).Some? || m != log[0] {
      RetainedIsLast(log[1..], m);
    }
  }

  /** A run with a given log in which a node claims the alias for itself before anything else happens. */
  lemma EarlyClaimer(log: seq<Msg>, i: nat, alias: string) returns (s: System, steps: seq<Step>)
    requires (forall m :: m in log ==> Writable(m)) && |alias| > 1
    requires i < |log| && Claimant(log[i], alias).Some?
    ensures Reaches(EMPTY, steps, s) && Quiet(s) && s.log == log && "A" in s.sites
    ensures Get(s.sites["A"].node.aliases, alias) == Claimant(log[i], alias)
  {
    var s2, r2 := ClaimAlone(log[i], alias);
    var s3, r3 := WriteInItsPlace(s2, r2, log, i);
    s, steps := DeliverAll(s3, r3, "A", alias);
  }

  /** The node's own write comes at its place among the others'. */
  lemma WriteInItsPlace(s: System, steps: seq<Step>, log: seq<Msg>, i: nat) returns (s': System, steps': seq<Step>)
    requires Reaches(EMPTY, steps, s) && s.sites.Keys == {"A"} && s.log == []
    requires (forall m :: m in log ==> Writable(m)) && i < |log| && s.unwritten == multiset{("A", log[i])}
    ensures Reaches(EMPTY, steps', s') && s'.sites.Keys == {"A"} && s'.log == log && s'.unwritten == multiset{}
    ensures s'.sites["A"].node == s.sites["A"].node
  {
    var s1, r1 := OutsideAll(s, steps, log[..i]);
    var s2, r2 := WriteLast(s1, r1, log[i]);
    s', steps' := OutsideAll(s2, r2, log[i + 1..]);
    assert [] + log[..i] + [log[i]] + log[i + 1..] == log;
  }

  lemma WriteLast(s: System, steps: seq<Step>, m: Msg) returns (s': System, steps': seq<Step>)
    requires Reaches(EMPTY, steps, s) && s.sites.Keys == {"A"} && s.unwritten == multiset{("A", m)}
    ensures Reaches(EMPTY, steps', s') && s'.sites.Keys == {"A"} && s'.log == s.log + [m] && s'.unwritten == multiset{}
    ensures s'.sites["A"].node == s.sites["A"].node
  {
    WriteEffect(s, "A", m);
    s', steps' := Extend(EMPTY, steps, s, Write("A", m));
    assert s'.unwritten == multiset{};
  }

  lemma ClaimAlone(m: Msg, alias: string) returns (s: System, steps: seq<Step>)
    requires Claimant(m, alias).Some? && |alias| > 1
    ensures Reaches(EMPTY, steps, s) && s.sites.Keys == {"A"} && s.unwritten == multiset{("A", m)} && s.log == []
    ensures Get(s.sites["A"].node.aliases, alias) == Claimant(m, alias)
  {
    var s1, r1 := Extend(EMPTY, [], EMPTY, Join("A"));
    var step := PutClaims("A", m.key.publicKey, m.body.value.claims);
    StepClaims(s1, step, "A", alias);
    s, steps := Extend(EMPTY, r1, s1, step);
  }

  /** After every settled run with these bucket writes, every node answers the alias with the actor. */
  ghost predicate AllAnswer(log: seq<Msg>, alias: string, pk: string) {
    forall steps, s, n :: Reaches(EMPTY, steps, s) && Quiet(s) && s.log == log && n in s.sites ==>
      Get(s.sites[n].node.aliases, alias) == Some(pk)
  }

  /**
   That is so exactly when no other actor ever claimed the alias in the bucket and the actor's last claims still
   do.
   */
  lemma AllAnswerIff(log: seq<Msg>, alias: string, pk: string)
    requires (forall m :: m in log ==> Writable(m)) && |alias| > 1
    ensures AllAnswer(log, alias, pk) <==> OnlyClaimant(log, alias, pk) && StillClaims(log, alias, pk)
  {
    if !OnlyClaimant(log, alias, pk) {
      var m :| m in log && Claimant(m, alias).Some? && Claimant(m, alias) != Some(pk);
      var i :| 0 <= i < |log| && log[i] == m;
      var s, steps := EarlyClaimer(log, i, alias);
    } else if !StillClaims(log, alias, pk) {
      var s, steps := LoneJoiner(log, alias);
      if Get(s.sites["A"].node.aliases, alias) == Some(pk) {
        var m := FirstInIsIn(LastPerSubject(log), alias);
        RetainedIsLast(log, m);
        assert false;
      }
    } else {
      forall steps, s, n | Reaches(EMPTY, steps, s) && Quiet(s) && s.log == log && n in s.sites
        ensures Get(s.sites[n].node.aliases, alias) == Some(pk)
      {
        SettledNodeAnswers(steps, s, n, alias, pk);
      }
    }
  }

  lemma LoneJoiner(log: seq<Msg>, alias: string) returns (s: System, steps: seq<Step>)
    requires (forall m :: m in log ==> Writable(m)) && |alias| > 1
    ensures Reaches(EMPTY, steps, s) && Quiet(s) && s.log == log && "A" in s.sites
    ensures Get(s.sites["A"].node.aliases, alias) == FirstIn(LastPerSubject(log), alias)
  {
    var t, r := OutsideAll(EMPTY, [], log);
    assert [] + log == log;
    s, steps := JoinerAnswersFirstRetained(t, r, "A", alias);
  }
}
