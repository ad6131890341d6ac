/**
 The link definition table of one node. It is keyed by the hash of actor, contract and link name
 written one after the other without a delimiter; callers think of it as keyed by the triple.
 */
module Linkdefs {
  import opened Hashes
  import opened Options

  datatype Triple = Triple(actor: string, contract: string, link: string)

  datatype Linkdef = Linkdef(
    id: Digest,
    actorId: string,
    contractId: string,
    linkName: string,
    providerId: string,
    values: map<string, string>
  )

  type Table = map<Digest, Linkdef>

  function LinkdefHash(actor: string, contract: string, link: string): Digest {
    Sha256(actor + contract + link)
  }

  function HashOf(t: Triple): Digest {
    LinkdefHash(t.actor, t.contract, t.link)
  }

  function TripleOf(ld: Linkdef): Triple {
    Triple(ld.actorId, ld.contractId, ld.linkName)
  }

  function MakeLinkdef(t: Triple, provider: string, values: map<string, string>): Linkdef {
    Linkdef(HashOf(t), t.actor, t.contract, t.link, provider, values)
  }

  function LookupById(table: Table, id: Digest): Option<Linkdef> {
    Get(table, id)
  }

  function LookupByTriple(table: Table, t: Triple): Option<Linkdef> {
    LookupById(table, HashOf(t))
  }

  // ---------- the manager ----------

  /** What an operation sends out, besides changing the table. */
  datatype Effect =
    | LinkdefSet(ld: Linkdef)
    | LinkdefDeleted(ld: Linkdef)
    | KvPut(id: Digest, ld: Linkdef)
    | KvDel(id: Digest)

  datatype State = State(table: Table, sent: seq<Effect>)

  /** A put reaches the bucket only when some virtual host of the lattice supplies its JetStream domain. */
  function PutState(s: State, t: Triple, provider: string, values: map<string, string>, hostPresent: bool): State {
    var ld := MakeLinkdef(t, provider, values);
    State(s.table[ld.id := ld], s.sent + [LinkdefSet(ld)] + if hostPresent then [KvPut(ld.id, ld)] else [])
  }

  function DelState(s: State, id: Digest, hostPresent: bool): State {
    match LookupById(s.table, id)
    case None => s
    case Some(ld) =>
      if hostPresent
      then State(s.table - {ld.id}, s.sent + [KvDel(id), LinkdefDeleted(ld)])
      else s.(sent := s.sent + [LinkdefDeleted(ld)])
  }

  function DelTripleState(s: State, t: Triple, hostPresent: bool): State {
    match LookupByTriple(s.table, t)
    case None => s
    case Some(ld) => DelState(s, ld.id, hostPresent)
  }

  class Manager {
    var table: Table
    var sent: seq<Effect>

    ghost function Abstract(): State
      reads this
    {
      State(table, sent)
    }

    constructor ()
      ensures Abstract() == State(map[], [])
    {
      table, sent := map[], [];
    }

    method LookupLinkDefinition(id: Digest) returns (found: Option<Linkdef>)
      ensures found == LookupById(table, id)
    {
      if id in table {
        found := Some(table[id]);
      } else {
        found := None;
      }
    }

    /** Stores a definition; a caller that has no id for it leaves the hashing to the table. */
    method CacheLinkDefinition(id: Option<Digest>, t: Triple, provider: string, values: map<string, string>)
      modifies this
      ensures sent == old(sent)
      ensures id.None? ==> table == old(table)[HashOf(t) := MakeLinkdef(t, provider, values)]
      ensures id.Some? ==> table == old(table)[id.value := MakeLinkdef(t, provider, values).(id := id.value)]
    {
      var ldid := if id.None? then LinkdefHash(t.actor, t.contract, t.link) else id.value;
      var ld := Linkdef(ldid, t.actor, t.contract, t.link, provider, values);
      table := table[ldid := ld];
    }

    method UncacheLinkDefinition(id: Digest)
      modifies this
      ensures table == old(table) - {id} && sent == old(sent)
    {
      table := map k | k in table && k != id :: table[k];
    }

    method PutLinkDefinition(t: Triple, provider: string, values: map<string, string>, hostPresent: bool)
      modifies this
      ensures Abstract() == PutState(old(Abstract()), t, provider, values, hostPresent)
    {
      var ldid := LinkdefHash(t.actor, t.contract, t.link);
      CacheLinkDefinition(Some(ldid), t, provider, values);
      var ld := Linkdef(ldid, t.actor, t.contract, t.link, provider, values);
      sent := sent + [LinkdefSet(ld)];
      if hostPresent {
        sent := sent + [KvPut(ld.id, ld)];
      }
    }

    method DelLinkDefinition(id: Digest, hostPresent: bool)
      modifies this
      ensures Abstract() == DelState(old(Abstract()), id, hostPresent)
    {
      var found := LookupLinkDefinition(id);
      if found.Some? {
        if hostPresent {
          UncacheLinkDefinition(found.value.id);
          sent := sent + [KvDel(id)];
        }
        sent := sent + [LinkdefDeleted(found.value)];
      }
    }

    method DelLinkDefinitionByTriple(t: Triple, hostPresent: bool)
      modifies this
      ensures Abstract() == DelTripleState(old(Abstract()), t, hostPresent)
    {
      var found := LookupLinkDefinition(HashOf(t));
      if found.Some? {
        DelLinkDefinition(found.value.id, hostPresent);
      }
    }
  }

  // ---------- when the concatenation is injective ----------

  ghost predicate InUse(t: Triple, actorLength: nat, contracts: iset<string>) {
    |t.actor| == actorLength && t.contract in contracts
  }

  ghost predicate PrefixFree(contracts: iset<string>) {
    forall c, d :: c in contracts && d in contracts && c <= d ==> c == d
  }

  ghost predicate HashInjective(actorLength: nat, contracts: iset<string>) {
    forall t, u :: InUse(t, actorLength, contracts) && InUse(u, actorLength, contracts) && HashOf(t) == HashOf(u) ==>
      t == u
  }

  lemma PrefixFreeSeparates(t: Triple, u: Triple, actorLength: nat, contracts: iset<string>)
    requires PrefixFree(contracts)
    requires InUse(t, actorLength, contracts) && InUse(u, actorLength, contracts)
    requires HashOf(t) == HashOf(u)
    ensures t == u
  {
    var whole := t.actor + t.contract + t.link;
    assert whole == u.actor + u.contract + u.link;
    assert whole[..actorLength] == t.actor && whole[..actorLength] == u.actor;
    var rest := whole[actorLength..];
    assert rest == t.contract + t.link && rest == u.contract + u.link;
    assert rest[..|t.contract|] == t.contract && rest[..|u.contract|] == u.contract;
    assert t.contract <= u.contract || u.contract <= t.contract;
    assert rest[|t.contract|..] == t.link && rest[|u.contract|..] == u.link;
  }

  /** Two triples that only differ in where the contract ends and the link name begins. */
  lemma PrefixCollides(actorLength: nat, c: string, d: string) returns (t: Triple, u: Triple)
    requires c <= d && c != d
    ensures |t.actor| == |u.actor| == actorLength && t.contract == c && u.contract == d
    ensures HashOf(t) == HashOf(u)
  {
    var actor := seq(actorLength, _ => 'M');
    t, u := Triple(actor, c, d[|c|..]), Triple(actor, d, "");
    assert c + d[|c|..] == d;
    assert actor + c + d[|c|..] == actor + (c + d[|c|..]);
    assert actor + d + "" == actor + d;
  }

  lemma HashInjectiveIffPrefixFree(actorLength: nat, contracts: iset<string>)
    ensures HashInjective(actorLength, contracts) <==> PrefixFree(contracts)
  {
    if PrefixFree(contracts) {
      forall t, u | InUse(t, actorLength, contracts) && InUse(u, actorLength, contracts) && HashOf(t) == HashOf(u)
        ensures t == u
      {
        PrefixFreeSeparates(t, u, actorLength, contracts);
      }
    } else {
      var c, d :| c in contracts && d in contracts && c <= d && c != d;
      var t, u := PrefixCollides(actorLength, c, d);
    }
  }

  // ---------- the table is a map keyed by triples ----------

  datatype Target = Target(provider: string, values: map<string, string>)

  type Plain = map<Triple, Target>

  datatype Op = Put(triple: Triple, target: Target) | Delete(triple: Triple)

  function TargetOf(ld: Linkdef): Target {
    Target(ld.providerId, ld.values)
  }

  /** The table after one operation, on a node with a host. */
  function Hashed(table: Table, op: Op): Table {
    match op
    case Put(t, target) => PutState(State(table, []), t, target.provider, target.values, true).table
    case Delete(t) => DelTripleState(State(table, []), t, true).table
  }

  function RunHashed(table: Table, ops: seq<Op>): Table
    decreases |ops|
  {
    if ops == [] then table else RunHashed(Hashed(table, ops[0]), ops[1..])
  }

  function Intended(m: Plain, op: Op): Plain {
    match op
    case Put(t, target) => m[t := target]
    case Delete(t) => m - {t}
  }

  function RunIntended(m: Plain, ops: seq<Op>): Plain
    decreases |ops|
  {
    if ops == [] then m else RunIntended(Intended(m, ops[0]), ops[1..])
  }

  ghost predicate AllInUse(ops: seq<Op>, actorLength: nat, contracts: iset<string>) {
    forall i :: 0 <= i < |ops| ==> InUse(ops[i].triple, actorLength, contracts)
  }

  /** An entry is under the hash of its own triple and has the plain map's target. */
  ghost predicate EntryAgrees(table: Table, m: Plain, id: Digest) {
    id in table ==>
      table[id].id == id == HashOf(TripleOf(table[id])) && Get(m, TripleOf(table[id])) == Some(TargetOf(table[id]))
  }

  ghost predicate TripleStored(table: Table, m: Plain, t: Triple, actorLength: nat, contracts: iset<string>) {
    t in m ==> InUse(t, actorLength, contracts) && HashOf(t) in table
  }

  ghost predicate Represents(table: Table, m: Plain, actorLength: nat, contracts: iset<string>) {
    && (forall id {:trigger EntryAgrees(table, m, id)} :: EntryAgrees(table, m, id))
    && (forall t {:trigger TripleStored(table, m, t, actorLength, contracts)} ::
      TripleStored(table, m, t, actorLength, contracts))
  }

  /** Under a representation, a triple's hash is only ever the key of that triple's own entry. */
  lemma KeyIsOwnHash(table: Table, m: Plain, t: Triple, id: Digest, actorLength: nat, contracts: iset<string>)
    requires PrefixFree(contracts) && InUse(t, actorLength, contracts)
    requires Represents(table, m, actorLength, contracts) && id in table
    ensures TripleOf(table[id]) == t <==> id == HashOf(t)
  {
    var u := TripleOf(table[id]);
    assert EntryAgrees(table, m, id);
    assert TripleStored(table, m, u, actorLength, contracts);
    if id == HashOf(t) {
      PrefixFreeSeparates(u, t, actorLength, contracts);
    }
  }

  lemma PutRepresents(table: Table, m: Plain, t: Triple, target: Target, actorLength: nat, contracts: iset<string>)
    requires PrefixFree(contracts) && InUse(t, actorLength, contracts)
    requires Represents(table, m, actorLength, contracts)
    ensures Represents(Hashed(table, Put(t, target)), m[t := target], actorLength, contracts)
  {
    var table', m' := table[HashOf(t) := MakeLinkdef(t, target.provider, target.values)], m[t := target];
    forall id ensures EntryAgrees(table', m', id) {
      if id in table && id != HashOf(t) {
        assert EntryAgrees(table, m, id);
        KeyIsOwnHash(table, m, t, id, actorLength, contracts);
      }
    }
    forall u ensures TripleStored(table', m', u, actorLength, contracts) {
      assert TripleStored(table, m, u, actorLength, contracts);
    }
  }

  lemma DeleteRepresents(table: Table, m: Plain, t: Triple, actorLength: nat, contracts: iset<string>)
    requires PrefixFree(contracts) && InUse(t, actorLength, contracts)
    requires Represents(table, m, actorLength, contracts)
    ensures Represents(Hashed(table, Delete(t)), m - {t}, actorLength, contracts)
  {
    var table', m' := table - {HashOf(t)}, m - {t};
    assert EntryAgrees(table, m, HashOf(t));
    assert Hashed(table, Delete(t)) == table';
    forall id ensures EntryAgrees(table', m', id) {
      if id in table' {
        assert EntryAgrees(table, m, id);
        KeyIsOwnHash(table, m, t, id, actorLength, contracts);
      }
    }
    forall u ensures TripleStored(table', m', u, actorLength, contracts) {
      assert TripleStored(table, m, u, actorLength, contracts);
      if u in m' && HashOf(u) == HashOf(t) {
        PrefixFreeSeparates(u, t, actorLength, contracts);
      }
    }
  }

  lemma StepRepresents(table: Table, m: Plain, op: Op, actorLength: nat, contracts: iset<string>)
    requires PrefixFree(contracts) && InUse(op.triple, actorLength, contracts)
    requires Represents(table, m, actorLength, contracts)
    ensures Represents(Hashed(table, op), Intended(m, op), actorLength, contracts)
  {
    match op
    case Put(t, target) => PutRepresents(table, m, t, target, actorLength, contracts);
    case Delete(t) => DeleteRepresents(table, m, t, actorLength, contracts);
  }

  lemma {:induction false} RunRepresents(table: Table, m: Plain, ops: seq<Op>, actorLength: nat,
          contracts: iset<string>)
    requires PrefixFree(contracts) && AllInUse(ops, actorLength, contracts)
    requires Represents(table, m, actorLength, contracts)
    ensures Represents(RunHashed(table, ops), RunIntended(m, ops), actorLength, contracts)
    decreases |ops|
  {
    if ops != [] {
      StepRepresents(table, m, ops[0], actorLength, contracts);
      RunRepresents(Hashed(table, ops[0]), Intended(m, ops[0]), ops[1..], actorLength, contracts);
    }
  }

  /** Enumerating the table yields exactly the entries of the plain map, each once. */
  lemma EnumerationAgrees(table: Table, m: Plain, actorLength: nat, contracts: iset<string>)
    requires PrefixFree(contracts) && Represents(table, m, actorLength, contracts)
    ensures (set id | id in table :: (TripleOf(table[id]), TargetOf(table[id]))) == m.Items
    ensures forall i, j :: i in table && j in table && TripleOf(table[i]) == TripleOf(table[j]) ==> i == j
  {
    var listed := set id | id in table :: (TripleOf(table[id]), TargetOf(table[id]));
    forall entry | entry in m.Items ensures entry in listed {
      var t, id := entry.0, HashOf(entry.0);
      assert TripleStored(table, m, t, actorLength, contracts);
      assert EntryAgrees(table, m, id);
      KeyIsOwnHash(table, m, t, id, actorLength, contracts);
    }
    forall id | id in table ensures (TripleOf(table[id]), TargetOf(table[id])) in m.Items {
      assert EntryAgrees(table, m, id);
    }
    forall i, j | i in table && j in table && TripleOf(table[i]) == TripleOf(table[j]) ensures i == j {
      assert EntryAgrees(table, m, i) && EntryAgrees(table, m, j);
    }
  }

  /** After any operations on triples in use, a lookup by triple answers as the plain map would. */
  ghost predicate RefinesPlainMap(actorLength: nat, contracts: iset<string>) {
    forall ops, t :: AllInUse(ops, actorLength, contracts) && InUse(t, actorLength, contracts) ==>
      LookupTarget(RunHashed(map[], ops), t) == Get(RunIntended(map[], ops), t)
  }

  function LookupTarget(table: Table, t: Triple): Option<Target> {
    match LookupByTriple(table, t)
    case None => None
    case Some(ld) => Some(TargetOf(ld))
  }

  lemma LookupAgrees(table: Table, m: Plain, t: Triple, actorLength: nat, contracts: iset<string>)
    requires PrefixFree(contracts) && Represents(table, m, actorLength, contracts) && InUse(t, actorLength, contracts)
    ensures LookupTarget(table, t) == Get(m, t)
  {
    assert TripleStored(table, m, t, actorLength, contracts);
    if HashOf(t) in table {
      assert EntryAgrees(table, m, HashOf(t));
      KeyIsOwnHash(table, m, t, HashOf(t), actorLength, contracts);
    }
  }

  /** The hash-keyed table is a map keyed by triples exactly when no contract id in use is a prefix of another. */
  lemma RefinesPlainMapIffPrefixFree(actorLength: nat, contracts: iset<string>)
    ensures RefinesPlainMap(actorLength, contracts) <==> PrefixFree(contracts)
  {
    if PrefixFree(contracts) {
      forall ops, t | AllInUse(ops, actorLength, contracts) && InUse(t, actorLength, contracts)
        ensures LookupTarget(RunHashed(map[], ops), t) == Get(RunIntended(map[], ops), t)
      {
        RunRepresents(map[], map[], ops, actorLength, contracts);
        LookupAgrees(RunHashed(map[], ops), RunIntended(map[], ops), t, actorLength, contracts);
      }
    } else {
      var c, d :| c in contracts && d in contracts && c <= d && c != d;
      var t, u := PrefixCollides(actorLength, c, d);
      var ops := [Put(t, Target("V", map[]))];
      assert RunHashed(map[], ops) == Hashed(map[], ops[0]) by {
        assert ops[1..] == [];
      }
      assert RunIntended(map[], ops) == map[t := Target("V", map[])] by {
        assert ops[1..] == [];
      }
      assert InUse(u, actorLength, contracts) && AllInUse(ops, actorLength, contracts);
      assert LookupTarget(RunHashed(map[], ops), u).Some? && u !in RunIntended(map[], ops);
    }
  }
}
