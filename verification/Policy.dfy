/**
 Asking a policy server whether an action is allowed. One table caches decisions by what was asked and,
 for overrides, remembers what each answered request was about.
 */
module Policy {
  import opened Options

  /** Arguments come from all over the host: a map with fields (some of them nil), a string, or something else. */
  datatype Value = Fields(fields: map<string, Option<string>>) | Text(text: string) | Other

  datatype Query = Query(source: Value, target: Value, action: Value, lattice: string)

  datatype Decision = Decision(permitted: bool, message: string, requestId: string)

  datatype Reply = Decoded(decision: Decision) | Undecodable | NoResponders | TimedOut | Unencodable

  datatype Key = ByQuery(query: Query) | ByRequest(id: string)
  datatype Row = Verdict(decision: Decision) | About(query: Query)
  type Table = map<Key, Row>

  const SOURCE_FIELDS: seq<string> := ["publicKey", "capabilities", "issuer", "issuedOn", "expired", "expiresAt"]
  const TARGET_FIELDS: seq<string> := ["publicKey", "issuer"]

  ghost predicate Valid(table: Table) {
    && (forall q :: ByQuery(q) in table ==> table[ByQuery(q)].Verdict?)
    && (forall id :: ByRequest(id) in table ==> table[ByRequest(id)].About?)
  }

  function Cached(table: Table, q: Query): Option<Decision> {
    if ByQuery(q) in table && table[ByQuery(q)].Verdict? then Some(table[ByQuery(q)].decision) else None
  }

  function Subject(table: Table, id: string): Option<Query> {
    if ByRequest(id) in table && table[ByRequest(id)].About? then Some(table[ByRequest(id)].query) else None
  }

  function Missing(names: seq<string>, fields: map<string, Option<string>>): seq<string> {
    if names == [] then []
    else (if names[0] in fields && fields[names[0]].Some? then [] else [names[0]]) + Missing(names[1..], fields)
  }

  function Join(parts: seq<string>): string {
    if parts == [] then "" else if |parts| == 1 then parts[0] else parts[0] + ", " + Join(parts[1..])
  }

  /** Only the presence of the fields is required; the message lists those that are absent or nil. */
  function Lacking(what: string, v: Value, names: seq<string>): Option<string> {
    match v
    case Fields(fields) =>
      if forall n :: n in names ==> n in fields then None
      else Some("Invalid " + what + " argument, missing required fields: " + Join(Missing(names, fields)))
    case _ => Some("Invalid " + what + " argument, " + what + " was not a map")
  }

  function Invalid(q: Query): Option<string> {
    var source, target := Lacking("source", q.source, SOURCE_FIELDS), Lacking("target", q.target, TARGET_FIELDS);
    if source.Some? then source
    else if target.Some? then target
    else if q.action.Text? then None
    else Some("Invalid action argument, action was not a string")
  }

  predicate Disabled(topic: Option<string>) {
    topic.None? || topic.value == ""
  }

  function Allow(): Decision {
    Decision(true, "Policy evaluation disabled, allowing action", "")
  }

  function Deny(message: string, id: string): Decision {
    Decision(false, message, id)
  }

  /** The decision reached without asking the server, if there is one. */
  function Unasked(table: Table, topic: Option<string>, q: Query): Option<Decision> {
    if Disabled(topic) then Some(Allow())
    else if Cached(table, q).Some? then Cached(table, q)
    else match Invalid(q)
         case Some(reason) => Some(Deny(reason, ""))
         case None => None
  }

  function WithoutAnswer(reply: Reply, id: string): Decision
    requires !reply.Decoded?
  {
    match reply
    case Undecodable => Deny("Policy response failed to decode", id)
    case NoResponders => Deny("No responders to policy request (policy server not listening?)", id)
    case TimedOut => Deny("Policy request timed out", id)
    case Unencodable => Deny("", id)
  }

  /** `reply` is what the server would answer to a request with this id. */
  function Evaluate(table: Table, topic: Option<string>, q: Query, id: string, reply: Reply): (Table, Decision) {
    match Unasked(table, topic, q)
    case Some(d) => (table, d)
    case None =>
      if reply.Decoded? then (table[ByQuery(q) := Verdict(reply.decision)][ByRequest(id) := About(q)], reply.decision)
      else (table, WithoutAnswer(reply, id))
  }

  function Override(table: Table, id: string, permitted: bool, message: string): Table {
    match Subject(table, id)
    case Some(q) => table[ByQuery(q) := Verdict(Decision(permitted, message, id))]
    case None => table
  }

  class Manager {
    var table: Table

    constructor ()
      ensures table == map[]
    {
      table := map[];
    }

    method EvaluateAction(topic: Option<string>, q: Query, id: string, reply: Reply) returns (decision: Decision)
      requires Valid(table)
      modifies this
      ensures Valid(table) && (table, decision) == Evaluate(old(table), topic, q, id, reply)
      ensures decision.permitted ==>
        Disabled(topic) || Cached(old(table), q) == Some(decision) || reply == Decoded(decision)
    {
      if Disabled(topic) {
        return Allow();
      }
      if ByQuery(q) in table {
        return table[ByQuery(q)].decision;
      }
      var invalid := Invalid(q);
      if invalid.Some? {
        return Deny(invalid.value, "");
      }
      if !reply.Decoded? {
        return WithoutAnswer(reply, id);
      }
      table := table[ByQuery(q) := Verdict(reply.decision)];
      table := table[ByRequest(id) := About(q)];
      return reply.decision;
    }

    method OverrideDecision(id: string, permitted: bool, message: string)
      requires Valid(table)
      modifies this
      ensures Valid(table) && table == Override(old(table), id, permitted, message)
    {
      if ByRequest(id) in table {
        var q := table[ByRequest(id)].query;
        table := table[ByQuery(q) := Verdict(Decision(permitted, message, id))];
      }
    }
  }

  // ---------- one call after the other ----------

  datatype Call =
    | Ask(topic: Option<string>, query: Query, id: string, reply: Reply)
    | Overrule(id: string, permitted: bool, message: string)

  function After(table: Table, c: Call): Table {
    match c
    case Ask(topic, q, id, reply) => Evaluate(table, topic, q, id, reply).0
    case Overrule(id, permitted, message) => Override(table, id, permitted, message)
  }

  function Run(calls: seq<Call>): Table {
    if calls == [] then map[] else After(Run(calls[..|calls| - 1]), calls[|calls| - 1])
  }

  /** A call whose question would get an answer from the server if it were put to it. */
  predicate Answerable(c: Call, q: Query) {
    c.Ask? && c.query == q && !Disabled(c.topic) && Invalid(q).None? && c.reply.Decoded?
  }

  function FirstAnswer(calls: seq<Call>, q: Query): (at: Option<nat>)
    ensures at.Some? ==> at.value < |calls| && Answerable(calls[at.value], q)
    ensures at.Some? ==> forall i :: 0 <= i < at.value ==> !Answerable(calls[i], q)
    ensures at.None? ==> forall i :: 0 <= i < |calls| ==> !Answerable(calls[i], q)
  {
    if calls == [] then None
    else
      var before := FirstAnswer(calls[..|calls| - 1], q);
      if before.Some? then before
      else if Answerable(calls[|calls| - 1], q) then Some(|calls| - 1) else None
  }

  function LatestOverride(calls: seq<Call>, id: string, from: nat): (at: Option<nat>)
    ensures at.Some? ==> from <= at.value < |calls| && calls[at.value].Overrule? && calls[at.value].id == id
    ensures at.Some? ==> forall i :: at.value < i < |calls| ==> !(calls[i].Overrule? && calls[i].id == id)
    ensures at.None? ==> forall i :: from <= i < |calls| ==> !(calls[i].Overrule? && calls[i].id == id)
    decreases |calls|
  {
    if |calls| <= from then None
    else
      var last := calls[|calls| - 1];
      if last.Overrule? && last.id == id then Some(|calls| - 1) else LatestOverride(calls[..|calls| - 1], id, from)
  }

  /** The server's first answer to a question, then the latest override naming the request that got it. */
  function InForce(calls: seq<Call>, q: Query): Option<Decision> {
    match FirstAnswer(calls, q)
    case None => None
    case Some(k) =>
      match LatestOverride(calls, calls[k].id, k + 1)
      case None => Some(calls[k].reply.decision)
      case Some(j) => Some(Decision(calls[j].permitted, calls[j].message, calls[j].id))
  }

  /** The question whose first answer came with a request id. */
  ghost predicate AnsweredWith(calls: seq<Call>, q: Query, id: string) {
    FirstAnswer(calls, q).Some? && calls[FirstAnswer(calls, q).value].id == id
  }

  /** Request ids are drawn fresh. */
  ghost predicate FreshIds(calls: seq<Call>) {
    forall i, j :: 0 <= i < j < |calls| && calls[i].Ask? && calls[j].Ask? ==> calls[i].id != calls[j].id
  }

  /** One more call leaves a first answer where it was; the call may itself be the first. */
  lemma FirstAnswerOfOneMore(before: seq<Call>, c: Call, q: Query)
    ensures FirstAnswer(before + [c], q) ==
      if FirstAnswer(before, q).Some? then FirstAnswer(before, q)
      else if Answerable(c, q) then Some(|before|) else None
  {
    assert (before + [c])[..|before|] == before;
  }

  lemma LatestOverrideOfOneMore(before: seq<Call>, c: Call, id: string, from: nat)
    requires from <= |before|
    ensures LatestOverride(before + [c], id, from) ==
      if c.Overrule? && c.id == id then Some(|before|) else LatestOverride(before, id, from)
  {
    assert (before + [c])[..|before|] == before;
  }

  lemma InForceOfOneMore(before: seq<Call>, c: Call, q: Query)
    ensures InForce(before + [c], q) ==
      match FirstAnswer(before, q)
      case None => if Answerable(c, q) then Some(c.reply.decision) else None
      case Some(k) =>
        if c.Overrule? && c.id == before[k].id then Some(Decision(c.permitted, c.message, c.id)) else InForce(before, q)
  {
    FirstAnswerOfOneMore(before, c, q);
    match FirstAnswer(before, q)
    case None =>
      assert LatestOverride(before + [c], c.id, |before| + 1).None?;
    case Some(k) =>
      assert (before + [c])[k] == before[k];
      LatestOverrideOfOneMore(before, c, before[k].id, k + 1);
  }

  lemma CallKeepsSubjects(before: seq<Call>, c: Call, q: Query, id: string)
    requires FreshIds(before + [c]) && Cached(Run(before), q) == InForce(before, q)
    requires Subject(Run(before), id) == Some(q) <==> AnsweredWith(before, q, id)
    ensures Subject(After(Run(before), c), id) == Some(q) <==> AnsweredWith(before + [c], q, id)
  {
    FirstAnswerOfOneMore(before, c, q);
    if c.Ask? && c.id == id && FirstAnswer(before, q).Some? {
      var k := FirstAnswer(before, q).value;
      assert (before + [c])[k] == before[k] && (before + [c])[|before|] == c;
      assert before[k].id != c.id;
    }
  }

  lemma CallKeepsInForce(before: seq<Call>, c: Call, q: Query)
    requires Cached(Run(before), q) == InForce(before, q)
    requires c.Overrule? ==> (Subject(Run(before), c.id) == Some(q) <==> AnsweredWith(before, q, c.id))
    ensures Cached(After(Run(before), c), q) == InForce(before + [c], q)
  {
    InForceOfOneMore(before, c, q);
  }

  /** The table is exactly, for every question, the server's first answer to it and then the latest override. */
  lemma {:induction false} TableIsFirstAnswerThenOverride(calls: seq<Call>, q: Query)
    requires FreshIds(calls)
    ensures Cached(Run(calls), q) == InForce(calls, q)
    ensures forall id :: Subject(Run(calls), id) == Some(q) <==> AnsweredWith(calls, q, id)
    decreases |calls|
  {
    if calls != [] {
      var before, c := calls[..|calls| - 1], calls[|calls| - 1];
      assert before + [c] == calls;
      TableIsFirstAnswerThenOverride(before, q);
      CallKeepsInForce(before, c, q);
      forall id ensures Subject(Run(calls), id) == Some(q) <==> AnsweredWith(calls, q, id) {
        CallKeepsSubjects(before, c, q, id);
      }
    }
  }

  predicate Sends(table: Table, c: Call) {
    c.Ask? && Unasked(table, c.topic, c.query).None?
  }

  lemma {:induction false} DecisionsStay(calls: seq<Call>, i: nat, q: Query)
    requires i <= |calls| && Cached(Run(calls[..i]), q).Some?
    ensures Cached(Run(calls), q).Some?
    decreases |calls|
  {
    if i == |calls| {
      assert calls[..i] == calls;
    } else {
      var before := calls[..|calls| - 1];
      assert before[..i] == calls[..i];
      DecisionsStay(before, i, q);
    }
  }

  /** Once the server has answered a question it is never asked it again. */
  lemma AnsweredOnce(calls: seq<Call>, i: nat, j: nat)
    requires i < j < |calls| && Sends(Run(calls[..i]), calls[i]) && calls[i].reply.Decoded?
    requires calls[j].Ask? && calls[j].query == calls[i].query
    ensures !Sends(Run(calls[..j]), calls[j])
  {
    assert calls[..i + 1][..i] == calls[..i];
    assert Cached(Run(calls[..i + 1]), calls[i].query).Some?;
    assert calls[..j][..i + 1] == calls[..i + 1];
    DecisionsStay(calls[..j], i + 1, calls[i].query);
  }

  // ---------- any number of callers at once ----------

  datatype Origin = Server(id: string) | Operator(id: string)
  datatype Said = Said(query: Query, decision: Decision, origin: Origin)
  datatype Told = Told(topic: Option<string>, query: Query, decision: Decision)

  /** A request is out, or its answer has been cached but not yet the request's id, or all is done. */
  datatype Request =
    Waiting(topic: Option<string>, query: Query) | Heard(topic: Option<string>, query: Query, decision: Decision)
      | Settled

  /** An override that has found what its request id was about and is about to be cached. */
  datatype Overruling = Overruling(query: Query, decision: Decision)

  /** `said` lists what was cached, in order; `told` what callers got back. */
  datatype World = World(
    table: Table, requests: map<string, Request>, overruling: seq<Overruling>, said: seq<Said>, told: seq<Told>)

  datatype Step =
    | Decide(topic: Option<string>, query: Query)
    | Send(topic: Option<string>, query: Query, id: string)
    | Hear(id: string, reply: Reply)
    | Settle(id: string)
    | FindSubject(id: string, permitted: bool, message: string)
    | StoreOverride(index: nat)

  predicate Enabled(w: World, step: Step) {
    match step
    case Decide(topic, q) => Unasked(w.table, topic, q).Some?
    case Send(topic, q, id) => Unasked(w.table, topic, q).None? && id !in w.requests
    case Hear(id, _) => id in w.requests && w.requests[id].Waiting?
    case Settle(id) => id in w.requests && w.requests[id].Heard?
    case FindSubject(_, _, _) => true
    case StoreOverride(i) => i < |w.overruling|
  }

  function Next(w: World, step: Step): World
    requires Enabled(w, step)
  {
    match step
    case Decide(topic, q) => w.(told := w.told + [Told(topic, q, Unasked(w.table, topic, q).value)])
    case Send(topic, q, id) => w.(requests := w.requests[id := Waiting(topic, q)])
    case Hear(id, reply) =>
      var topic, q := w.requests[id].topic, w.requests[id].query;
      if reply.Decoded? then
        w.(table := w.table[ByQuery(q) := Verdict(reply.decision)],
           requests := w.requests[id := Heard(topic, q, reply.decision)],
           said := w.said + [Said(q, reply.decision, Server(id))])
      else
        w.(requests := w.requests[id := Settled], told := w.told + [Told(topic, q, WithoutAnswer(reply, id))])
    case Settle(id) =>
      var r := w.requests[id];
      w.(table := w.table[ByRequest(id) := About(r.query)],
         requests := w.requests[id := Settled],
         told := w.told + [Told(r.topic, r.query, r.decision)])
    case FindSubject(id, permitted, message) =>
      (match Subject(w.table, id)
       case Some(q) => w.(overruling := w.overruling + [Overruling(q, Decision(permitted, message, id))])
       case None => w)
    case StoreOverride(i) =>
      var o := w.overruling[i];
      w.(table := w.table[ByQuery(o.query) := Verdict(o.decision)],
         overruling := w.overruling[..i] + w.overruling[i + 1..],
         said := w.said + [Said(o.query, o.decision, Operator(o.decision.requestId))])
  }

  ghost predicate Reaches(w: World, steps: seq<Step>, w': World)
    decreases |steps|
  {
    if steps == [] then w == w' else Enabled(w, steps[0]) && Reaches(Next(w, steps[0]), steps[1..], w')
  }

  const START := World(map[], map[], [], [], [])

  function Latest(said: seq<Said>, q: Query): Option<Decision> {
    if said == [] then None
    else if said[|said| - 1].query == q then Some(said[|said| - 1].decision)
    else Latest(said[..|said| - 1], q)
  }

  lemma LatestOfOneMore(said: seq<Said>, s: Said, q: Query)
    ensures Latest(said + [s], q) == if s.query == q then Some(s.decision) else Latest(said, q)
  {
    assert (said + [s])[..|said|] == said;
  }

  ghost predicate WasSaid(said: seq<Said>, q: Query, d: Decision) {
    exists s :: s in said && s.query == q && s.decision == d
  }

  /** The server answered this question in reply to this request. */
  ghost predicate ServerAnswered(said: seq<Said>, q: Query, id: string) {
    exists s :: s in said && s.query == q && s.origin == Server(id)
  }

  lemma {:induction false} LatestWasSaid(said: seq<Said>, q: Query)
    ensures Latest(said, q).Some? ==> WasSaid(said, q, Latest(said, q).value)
    decreases |said|
  {
    if said != [] {
      var before := said[..|said| - 1];
      LatestWasSaid(before, q);
      assert said[|said| - 1] in said && forall s :: s in before ==> s in said;
    }
  }

  ghost predicate RowsSound(w: World) {
    && Valid(w.table)
    && (forall q :: Cached(w.table, q) == Latest(w.said, q))
  }

  ghost predicate OriginsSound(w: World) {
    && (forall id :: Subject(w.table, id).Some? ==> ServerAnswered(w.said, Subject(w.table, id).value, id))
    && (forall id :: id in w.requests && w.requests[id].Heard? ==>
          Said(w.requests[id].query, w.requests[id].decision, Server(id)) in w.said)
    && (forall o :: o in w.overruling ==> ServerAnswered(w.said, o.query, o.decision.requestId))
    && (forall s :: s in w.said && s.origin.Operator? ==> ServerAnswered(w.said, s.query, s.origin.id))
  }

  ghost predicate ToldSound(w: World) {
    forall t :: t in w.told && t.decision.permitted ==> Disabled(t.topic) || WasSaid(w.said, t.query, t.decision)
  }

  lemma CachingIsSaying(table: Table, said: seq<Said>, s: Said, q: Query)
    requires Cached(table, q) == Latest(said, q)
    ensures Cached(table[ByQuery(s.query) := Verdict(s.decision)], q) == Latest(said + [s], q)
  {
    LatestOfOneMore(said, s, q);
  }

  lemma StepKeepsRows(w: World, step: Step)
    requires RowsSound(w) && Enabled(w, step)
    ensures RowsSound(Next(w, step))
  {
    var w' := Next(w, step);
    if |w'.said| > |w.said| {
      var s := w'.said[|w.said|];
      forall q ensures Cached(w'.table, q) == Latest(w'.said, q) {
        CachingIsSaying(w.table, w.said, s, q);
      }
    } else {
      forall q ensures Cached(w'.table, q) == Latest(w'.said, q) {
        assert Cached(w'.table, q) == Cached(w.table, q);
      }
    }
  }

  lemma StepKeepsAnswers(w: World, step: Step, q: Query, id: string)
    requires Enabled(w, step)
    ensures ServerAnswered(w.said, q, id) ==> ServerAnswered(Next(w, step).said, q, id)
  {
    assert forall s :: s in w.said ==> s in Next(w, step).said;
  }

  lemma StepKeepsSubjects(w: World, step: Step, id: string)
    requires OriginsSound(w) && Enabled(w, step)
    ensures var w' := Next(w, step);
      Subject(w'.table, id).Some? ==> ServerAnswered(w'.said, Subject(w'.table, id).value, id)
  {
    var w' := Next(w, step);
    if Subject(w'.table, id).Some? {
      StepKeepsAnswers(w, step, Subject(w'.table, id).value, id);
      assert Subject(w.table, id).Some? ==> ServerAnswered(w.said, Subject(w.table, id).value, id);
    }
  }

  lemma StepKeepsOrigins(w: World, step: Step)
    requires OriginsSound(w) && Enabled(w, step)
    ensures OriginsSound(Next(w, step))
  {
    var w' := Next(w, step);
    forall id | Subject(w'.table, id).Some? ensures ServerAnswered(w'.said, Subject(w'.table, id).value, id) {
      StepKeepsSubjects(w, step, id);
    }
    forall q, id | ServerAnswered(w.said, q, id) ensures ServerAnswered(w'.said, q, id) {
      StepKeepsAnswers(w, step, q, id);
    }
    if step.StoreOverride? {
      assert w.overruling[step.index] in w.overruling;
    }
  }

  lemma StepKeepsTold(w: World, step: Step)
    requires RowsSound(w) && OriginsSound(w) && ToldSound(w) && Enabled(w, step)
    ensures ToldSound(Next(w, step))
  {
    var w' := Next(w, step);
    assert forall s :: s in w.said ==> s in w'.said;
    forall q, d | WasSaid(w.said, q, d) ensures WasSaid(w'.said, q, d) {
    }
    if step.Decide? {
      LatestWasSaid(w.said, step.query);
      assert Cached(w.table, step.query) == Latest(w.said, step.query);
    }
  }

  lemma {:induction false} RunKeeps(w: World, steps: seq<Step>, w': World)
    requires RowsSound(w) && OriginsSound(w) && ToldSound(w) && Reaches(w, steps, w')
    ensures RowsSound(w') && OriginsSound(w') && ToldSound(w')
    decreases |steps|
  {
    if steps != [] {
      StepKeepsRows(w, steps[0]);
      StepKeepsOrigins(w, steps[0]);
      StepKeepsTold(w, steps[0]);
      RunKeeps(Next(w, steps[0]), steps[1..], w');
    }
  }

  /**
   In any interleaving of callers, answers and overrides, the cached decision is the latest said; every
   request id points at a question that has one; an override only ever changes the question its request
   was about; and no caller is told yes unless policy is off or the server or an operator said so.
   */
  lemma PolicyIsFollowed(steps: seq<Step>, w: World)
    requires Reaches(START, steps, w)
    ensures forall q :: Cached(w.table, q) == Latest(w.said, q)
    ensures forall id :: ByRequest(id) in w.table ==>
      Subject(w.table, id).Some? && Cached(w.table, Subject(w.table, id).value).Some?
    ensures forall s :: s in w.said && s.origin.Operator? ==> ServerAnswered(w.said, s.query, s.origin.id)
    ensures forall t :: t in w.told && t.decision.permitted ==>
      Disabled(t.topic) || WasSaid(w.said, t.query, t.decision)
  {
    RunKeeps(START, steps, w);
    forall id | ByRequest(id) in w.table ensures Cached(w.table, Subject(w.table, id).value).Some? {
      var q := Subject(w.table, id).value;
      var s :| s in w.said && s.query == q && s.origin == Server(id);
      SaidHasLatest(w.said, s);
    }
  }

  lemma {:induction false} SaidHasLatest(said: seq<Said>, s: Said)
    requires s in said
    ensures Latest(said, s.query).Some?
    decreases |said|
  {
    if said[|said| - 1] != s {
      assert s in said[..|said| - 1];
      SaidHasLatest(said[..|said| - 1], s);
    }
  }
}
