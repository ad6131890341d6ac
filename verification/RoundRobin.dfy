/**
 Choosing which instance of an actor answers a call: a shared counter per actor and lattice, modulo the number
 of instances.
 */
module RoundRobin {

  function CounterKey(pk: string, lattice: string): string {
    pk + "-" + lattice
  }

  /** The counter starts one below zero and is read after it is raised. */
  function Bumped(counters: map<string, nat>, key: string): nat {
    (if key in counters then counters[key] else -1) + 1
  }

  /**
   An actor is known by its instances in the registry; of those, the ones on a host of the caller's lattice can
   be chosen.
   */
  datatype Choice<T> = NotRunning | Crashes | Chosen(instance: T)

  function Dispatch<T>(counters: map<string, nat>, pk: string, lattice: string, registered: seq<T>,
          eligible: seq<T>): (map<string, nat>, Choice<T>)
  {
    if registered == [] then (counters, NotRunning)
    else
      var key := CounterKey(pk, lattice);
      var next := Bumped(counters, key);
      var counters' := counters[key := next];
      if eligible == [] then (counters', Crashes)
      else (counters', Chosen(eligible[next % |eligible|]))
  }

  class CallCounter {
    var counters: map<string, nat>

    constructor ()
      ensures counters == map[]
    {
      counters := map[];
    }

    method ReadAndIncrement(pk: string, lattice: string) returns (next: nat)
      modifies this
      ensures next == Bumped(old(counters), CounterKey(pk, lattice))
      ensures counters == old(counters)[CounterKey(pk, lattice) := next]
    {
      var key := CounterKey(pk, lattice);
      next := (if key in counters then counters[key] else -1) + 1;
      counters := counters[key := next];
    }

    method Request<T>(pk: string, lattice: string, registered: seq<T>, eligible: seq<T>) returns (choice: Choice<T>)
      modifies this
      ensures (counters, choice) == Dispatch(old(counters), pk, lattice, registered, eligible)
    {
      if registered == [] {
        return NotRunning;
      }
      var next := ReadAndIncrement(pk, lattice);
      if eligible == [] {
        return Crashes;
      }
      return Chosen(eligible[next % |eligible|]);
    }
  }

  /** Keys of equal length, as public keys are, keep the counters of different actors and lattices apart. */
  lemma KeysAreDistinct(pk: string, lattice: string, pk': string, lattice': string)
    requires |pk| == |pk'| && CounterKey(pk, lattice) == CounterKey(pk', lattice')
    ensures pk == pk' && lattice == lattice'
  {
    var key := CounterKey(pk, lattice);
    assert key[..|pk|] == pk && key[..|pk'|] == pk';
    assert key[|pk| + 1..] == lattice && key[|pk'| + 1..] == lattice';
  }

  // ---------- a stretch of calls ----------

  /** A call for an actor in a lattice, with the instances registered and those of them eligible at the time. */
  datatype Call = Call(pk: string, lattice: string, registered: seq<string>, eligible: seq<string>)

  /** The answers to the calls for one actor and lattice, whatever other calls come in between. */
  function Answers(counters: map<string, nat>, calls: seq<Call>, pk: string, lattice: string): seq<Choice<string>>
    decreases |calls|
  {
    if calls == [] then []
    else
      var c := calls[0];
      var (counters', choice) := Dispatch(counters, c.pk, c.lattice, c.registered, c.eligible);
      (if c.pk == pk && c.lattice == lattice then [choice] else []) + Answers(counters', calls[1..], pk, lattice)
  }

  /** Public keys have one length, and the actor's instances stay the same over its calls. */
  ghost predicate Steady(calls: seq<Call>, pk: string, lattice: string, instances: seq<string>) {
    forall c :: c in calls ==>
      |c.pk| == |pk| && (c.pk == pk && c.lattice == lattice ==> c.registered != [] && c.eligible == instances)
  }

  /** The instances taken in turn, from one of them on. */
  ghost predicate GoRound(answers: seq<Choice<string>>, first: nat, instances: seq<string>)
    requires instances != []
    decreases |answers|
  {
    answers != [] ==>
      answers[0] == Chosen(instances[first % |instances|]) && GoRound(answers[1..], first + 1, instances)
  }

  lemma {:induction false} GoRoundAt(answers: seq<Choice<string>>, first: nat, instances: seq<string>, i: nat)
    requires instances != [] && GoRound(answers, first, instances) && i < |answers|
    ensures answers[i] == Chosen(instances[(first + i) % |instances|])
    decreases i
  {
    if i > 0 {
      GoRoundAt(answers[1..], first + 1, instances, i - 1);
      assert first + 1 + (i - 1) == first + i;
    }
  }

  /** A call moves its own actor's counter, and no other. */
  lemma CallMovesOwnCounter(counters: map<string, nat>, c: Call, pk: string, lattice: string)
    requires |c.pk| == |pk|
    ensures var own := c.pk == pk && c.lattice == lattice && c.registered != [];
      Bumped(Dispatch(counters, c.pk, c.lattice, c.registered, c.eligible).0, CounterKey(pk, lattice))
      == Bumped(counters, CounterKey(pk, lattice)) + if own then 1 else 0
  {
    if CounterKey(c.pk, c.lattice) == CounterKey(pk, lattice) {
      KeysAreDistinct(c.pk, c.lattice, pk, lattice);
    }
  }

  lemma AnswersToOne(counters: map<string, nat>, calls: seq<Call>, pk: string, lattice: string)
    requires calls != [] &&
      (calls[0].pk == pk && calls[0].lattice == lattice ==> calls[0].registered != [] && calls[0].eligible != [])
    ensures
      var c := calls[0];
      var rest := Answers(Dispatch(counters, c.pk, c.lattice, c.registered, c.eligible).0, calls[1..], pk, lattice);
      Answers(counters, calls, pk, lattice)
      == if c.pk == pk && c.lattice == lattice
         then [Chosen(c.eligible[Bumped(counters, CounterKey(pk, lattice)) % |c.eligible|])] + rest
         else rest
  {
    var c := calls[0];
    var rest := Answers(Dispatch(counters, c.pk, c.lattice, c.registered, c.eligible).0, calls[1..], pk, lattice);
    assert [] + rest == rest;
  }

  /** However calls to other actors and lattices come in between, one actor's calls go round its instances in turn. */
  lemma {:induction false} AnswersGoRound(counters: map<string, nat>, calls: seq<Call>, pk: string, lattice: string,
          instances: seq<string>)
    requires instances != [] && Steady(calls, pk, lattice, instances)
    ensures GoRound(Answers(counters, calls, pk, lattice), Bumped(counters, CounterKey(pk, lattice)), instances)
    decreases |calls|
  {
    if calls != [] {
      var c, first := calls[0], Bumped(counters, CounterKey(pk, lattice));
      assert c in calls;
      var counters' := Dispatch(counters, c.pk, c.lattice, c.registered, c.eligible).0;
      CallMovesOwnCounter(counters, c, pk, lattice);
      AnswersToOne(counters, calls, pk, lattice);
      AnswersGoRound(counters', calls[1..], pk, lattice, instances);
      assert Answers(counters, calls, pk, lattice) != [] && c.pk == pk && c.lattice == lattice ==>
        Answers(counters, calls, pk, lattice)[1..] == Answers(counters', calls[1..], pk, lattice);
    }
  }

  /** How often the `m` counter values from `from` on fall on position `j`. */
  function Hits(from: int, m: nat, n: nat, j: nat): nat
    requires n > 0
    decreases m
  {
    if m == 0 then 0 else Hits(from, m - 1, n, j) + if (from + m - 1) % n == j then 1 else 0
  }

  lemma {:induction false} HitsSplit(from: int, a: nat, b: nat, n: nat, j: nat)
    requires n > 0
    ensures Hits(from, a + b, n, j) == Hits(from, a, n, j) + Hits(from + a, b, n, j)
    decreases b
  {
    if b > 0 {
      HitsSplit(from, a, b - 1, n, j);
    }
  }

  /** Fewer than a full turn of values never meets a position twice. */
  lemma {:induction false} ShortStretchHits(from: int, m: nat, n: nat, j: nat)
    requires n > 0 && m <= n && j < n
    ensures Hits(from, m, n, j) == if (j - from) % n < m then 1 else 0
    decreases m
  {
    if m > 0 {
      ShortStretchHits(from, m - 1, n, j);
      ResidueOffset(from, m - 1, n, j);
    }
  }

  lemma ResidueOffset(from: int, k: nat, n: nat, j: nat)
    requires k < n && j < n
    ensures (from + k) % n == j <==> (j - from) % n == k
  {
    var q, r := from / n, from % n;
    assert from == q * n + r;
    ModOfSum(q, n, r + k);
    ModOfSum(-q, n, j - r);
    assert q * n + (r + k) == from + k;
    assert -q * n + (j - r) == j - from;
  }

  lemma ModOfSum(q: int, n: int, x: int)
    requires n > 0 && -n < x < 2 * n
    ensures (q * n + x) % n == if x < 0 then x + n else if x < n then x else x - n
  {
    var total := q * n + x;
    var r := if x < 0 then x + n else if x < n then x else x - n;
    var p := if x < 0 then q - 1 else if x < n then q else q + 1;
    assert total == p * n + r;
    RemainderIsUnique(total, n, p, r);
  }

  lemma RemainderIsUnique(total: int, n: int, p: int, r: int)
    requires n > 0 && 0 <= r < n && total == p * n + r
    ensures total % n == r && total / n == p
  {
    var d := total / n - p;
    assert total == (total / n) * n + total % n;
    assert d * n == r - total % n;
    MultiplesAreFar(d, n);
  }

  lemma MultiplesAreFar(d: int, n: int)
    requires n > 0
    ensures d >= 1 ==> d * n >= n
    ensures d <= -1 ==> d * n <= -n
  {
  }

  lemma OneTurnLess(m: nat, n: nat)
    requires m >= n > 0
    ensures m / n == (m - n) / n + 1 && m % n == (m - n) % n
  {
    var q, r := (m - n) / n, (m - n) % n;
    assert m - n == q * n + r;
    assert m == (q + 1) * n + r;
    RemainderIsUnique(m, n, q + 1, r);
  }

  /** `m` consecutive values meet each of `n` positions floor(m/n) or ceil(m/n) times. */
  lemma {:induction false} HitsAreFair(from: int, m: nat, n: nat, j: nat)
    requires n > 0 && j < n
    ensures m / n <= Hits(from, m, n, j) <= m / n + (if m % n == 0 then 0 else 1)
    decreases m
  {
    if m < n {
      ShortStretchHits(from, m, n, j);
      RemainderIsUnique(m, n, 0, m);
    } else {
      HitsSplit(from, n, m - n, n, j);
      ShortStretchHits(from, n, n, j);
      HitsAreFair(from + n, m - n, n, j);
      OneTurnLess(m, n);
    }
  }

  function TimesChosen(answers: seq<Choice<string>>, instance: string): nat {
    if answers == [] then 0
    else TimesChosen(answers[..|answers| - 1], instance) + if answers[|answers| - 1] == Chosen(instance) then 1 else 0
  }

  ghost predicate Distinct(instances: seq<string>) {
    forall i, j :: 0 <= i < j < |instances| ==> instances[i] != instances[j]
  }

  lemma {:induction false} ChosenAreHits(answers: seq<Choice<string>>, from: nat, instances: seq<string>, j: nat)
    requires Distinct(instances) && j < |instances|
    requires forall i :: 0 <= i < |answers| ==> answers[i] == Chosen(instances[(from + i) % |instances|])
    ensures TimesChosen(answers, instances[j]) == Hits(from, |answers|, |instances|, j)
    decreases |answers|
  {
    if answers != [] {
      ChosenAreHits(answers[..|answers| - 1], from, instances, j);
      var k := (from + (|answers| - 1)) % |instances|;
      assert from + (|answers| - 1) == from + |answers| - 1;
      assert instances[k] == instances[j] <==> k == j;
    }
  }

  lemma NeighboursDiffer(answers: seq<Choice<string>>, from: nat, instances: seq<string>, i: nat)
    requires Distinct(instances) && |instances| >= 2 && GoRound(answers, from, instances) && i + 1 < |answers|
    ensures answers[i] != answers[i + 1]
  {
    GoRoundAt(answers, from, instances, i);
    GoRoundAt(answers, from, instances, i + 1);
    var j, k := (from + i) % |instances|, (from + (i + 1)) % |instances|;
    ResidueOffset(from + i, 0, |instances|, j);
    ResidueOffset(from + i, 1, |instances|, j);
    assert j != k;
  }

  /**
   Over any calls, interleaved with any others, each of an actor's instances is chosen as often as any other
   give or take one, and with at least two instances none is chosen twice in a row.
   */
  lemma DispatchIsFair(counters: map<string, nat>, calls: seq<Call>, pk: string, lattice: string,
          instances: seq<string>, j: nat)
    requires Distinct(instances) && j < |instances| && Steady(calls, pk, lattice, instances)
    ensures var answers, n := Answers(counters, calls, pk, lattice), |instances|;
      && |answers| / n <= TimesChosen(answers, instances[j]) <= |answers| / n + (if |answers| % n == 0 then 0 else 1)
      && (n >= 2 ==> forall i :: 0 <= i < |answers| - 1 ==> answers[i] != answers[i + 1])
  {
    var answers, n := Answers(counters, calls, pk, lattice), |instances|;
    var first := Bumped(counters, CounterKey(pk, lattice));
    AnswersGoRound(counters, calls, pk, lattice, instances);
    forall i | 0 <= i < |answers| ensures answers[i] == Chosen(instances[(first + i) % n]) {
      GoRoundAt(answers, first, instances, i);
    }
    ChosenAreHits(answers, first, instances, j);
    HitsAreFair(first, |answers|, n, j);
    if n >= 2 {
      forall i | 0 <= i < |answers| - 1 ensures answers[i] != answers[i + 1] {
        NeighboursDiffer(answers, first, instances, i);
      }
    }
  }

  /** Without equal lengths two actors can share a counter. */
  lemma CountersCanBeShared()
    ensures CounterKey("M", "1-x") == CounterKey("M-1", "x")
  {
    assert "M" + "-" + "1-x" == "M-1" + "-" + "x";
  }
}
