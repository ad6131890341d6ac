/**
 The lattice as a state machine: local writes, bucket writes, deliveries, dropped messages and late
 joiners in any order, over any number of nodes.
 */
module Replication {
  import opened Hashes
  import opened Lattice
  import opened Linkdefs
  import opened MetadataStream
  import opened Options

  type NodeId = string

  /** A node and the messages its consumer has not handled yet. */
  datatype Site = Site(node: Node, pending: seq<Msg>)

  /** `unwritten` are the local changes whose bucket write is still to come; `log` is every bucket write so far. */
  datatype System = System(
    sites: map<NodeId, Site>,
    unwritten: multiset<(NodeId, Msg)>,
    stream: seq<Msg>,
    log: seq<Msg>
  )

  const EMPTY := System(map[], multiset{}, [], [])

  datatype Step =
    | PutLinkdef(n: NodeId, triple: Triple, target: Target)
    | DeleteLinkdef(n: NodeId, id: Digest)
    | PutClaims(n: NodeId, publicKey: string, claims: Claims)
    | PutRefmap(n: NodeId, url: string, publicKey: string)
    | Write(n: NodeId, m: Msg)
    | Deliver(n: NodeId)
    | Lose(n: NodeId, i: nat)
    | Join(n: NodeId)
    | Outside(m: Msg)

  // ---------- local changes ----------

  function PutLinkdefMsg(t: Triple, target: Target): Msg {
    Message(LinkdefKey(HashOf(t)), Some(LinkdefRecord(Some(HashOf(t)), t, target)))
  }

  /** The node after the table manager's put or delete. */
  function AfterPut(node: Node, t: Triple, target: Target): Node {
    node.(linkdefs := PutState(State(node.linkdefs, []), t, target.provider, target.values, true).table)
  }

  function AfterDelete(node: Node, id: Digest): Node {
    node.(linkdefs := DelState(State(node.linkdefs, []), id, true).table)
  }

  function WithNode(s: System, n: NodeId, node: Node): map<NodeId, Site>
    requires n in s.sites
  {
    s.sites[n := s.sites[n].(node := node)]
  }

  /** Changes a node's own tables and leaves the bucket write for later. */
  function Local(s: System, n: NodeId, node: Node, m: Msg): System
    requires n in s.sites
  {
    s.(sites := WithNode(s, n, node), unwritten := s.unwritten + multiset{(n, m)})
  }

  function Delivered(sites: map<NodeId, Site>, m: Msg): map<NodeId, Site> {
    map n | n in sites :: sites[n].(pending := sites[n].pending + [m])
  }

  /** A bucket write reaches the stream and every consumer. */
  function Publish(s: System, m: Msg): System {
    s.(sites := Delivered(s.sites, m),
       stream := Retain(s.stream, m),
       log := s.log + [m])
  }

  predicate Enabled(s: System, step: Step) {
    match step
    case PutLinkdef(n, _, _) => n in s.sites
    case DeleteLinkdef(n, _) => n in s.sites
    case PutClaims(n, _, _) => n in s.sites
    case PutRefmap(n, _, _) => n in s.sites
    case Write(n, m) => (n, m) in s.unwritten
    case Deliver(n) => n in s.sites && s.sites[n].pending != []
    case Lose(n, i) => n in s.sites && Superseded(s.sites[n].pending, i)
    case Join(n) => n !in s.sites
    case Outside(m) => Writable(m)
  }

  function Next(s: System, step: Step): System
    requires Enabled(s, step)
  {
    match step
    case PutLinkdef(n, t, target) => Local(s, n, AfterPut(s.sites[n].node, t, target), PutLinkdefMsg(t, target))
    case DeleteLinkdef(n, id) =>
      var node := s.sites[n].node;
      if id in node.linkdefs then Local(s, n, AfterDelete(node, id), Message(LinkdefKey(id), None)) else s
    case PutClaims(n, pk, claims) =>
      Local(s, n, CacheClaims(s.sites[n].node, pk, claims), Message(ClaimsKey(pk), Some(ClaimsRecord(claims))))
    case PutRefmap(n, url, pk) =>
      var node := s.sites[n].node;
      Local(s, n, node.(refmaps := node.refmaps[url := pk]), Message(RefmapKey(url), Some(RefmapRecord(url, pk))))
    case Write(n, m) => Publish(s.(unwritten := s.unwritten - multiset{(n, m)}), m)
    case Deliver(n) =>
      var site := s.sites[n];
      s.(sites := s.sites[n := Site(Handle(site.node, site.pending[0]), site.pending[1..])])
    case Lose(n, i) =>
      var site := s.sites[n];
      s.(sites := s.sites[n := site.(pending := site.pending[..i] + site.pending[i + 1..])])
    case Join(n) => s.(sites := s.sites[n := Site(EMPTY_NODE, s.stream)])
    case Outside(m) => Publish(s, m)
  }

  ghost predicate Reaches(s: System, steps: seq<Step>, s': System)
    decreases |steps|
  {
    if steps == [] then s == s' else Enabled(s, steps[0]) && Reaches(Next(s, steps[0]), steps[1..], s')
  }

  ghost predicate Quiet(s: System) {
    s.unwritten == multiset{} && forall n :: n in s.sites ==> s.sites[n].pending == []
  }

  // ---------- the invariant ----------

  /** What the full history of writes leaves under a key. */
  function Bucket(log: seq<Msg>, k: Key): Option<Held> {
    match LastFor(log, k)
    case None => None
    case Some(m) => Meaning(m.body)
  }

  /** What a site will hold for a key once its pending messages are handled. */
  function Due(site: Site, k: Key): Option<Held> {
    match LastFor(site.pending, k)
    case None => Lookup(site.node, k)
    case Some(m) => Meaning(m.body)
  }

  ghost predicate Waiting(s: System, n: NodeId, k: Key) {
    exists m :: (n, m) in s.unwritten && m.key == k
  }

  /** A key whose last write nodes do not act upon as meant is not tracked. */
  predicate Tracked(log: seq<Msg>, k: Key) {
    match LastFor(log, k)
    case None => true
    case Some(m) => Faithful(m)
  }

  ghost predicate InStep(s: System, n: NodeId, k: Key)
    requires n in s.sites
  {
    Tracked(s.log, k) && !Waiting(s, n, k) ==> Due(s.sites[n], k) == Bucket(s.log, k)
  }

  ghost predicate SiteSound(site: Site) {
    && (forall id :: id in site.node.linkdefs ==> site.node.linkdefs[id].id == id)
    && (forall m :: m in site.pending ==> Writable(m))
  }

  ghost predicate PendingWasWritten(s: System, n: NodeId)
    requires n in s.sites
  {
    forall m :: m in s.sites[n].pending ==> m in s.log
  }

  /** The last message pending for a key is the last written. */
  predicate PendingIsLast(site: Site, log: seq<Msg>, k: Key) {
    LastFor(site.pending, k).Some? ==> LastFor(site.pending, k) == LastFor(log, k)
  }

  ghost predicate Invariant(s: System) {
    && s.stream == LastPerSubject(s.log)
    && (forall m :: m in s.log ==> Writable(m))
    && (forall w :: w in s.unwritten ==> Writable(w.1))
    && (forall n :: n in s.sites ==> SiteSound(s.sites[n]))
    && (forall n :: n in s.sites ==> PendingWasWritten(s, n))
    && (forall n, k :: n in s.sites ==> PendingIsLast(s.sites[n], s.log, k))
    && (forall n, k :: n in s.sites ==> InStep(s, n, k))
  }

  // ---------- it is kept ----------

  lemma LocalKeeps(s: System, n: NodeId, node: Node, m: Msg)
    requires Invariant(s) && n in s.sites && Faithful(m)
    requires SiteSound(s.sites[n].(node := node))
    requires forall k :: k != m.key ==> Lookup(node, k) == Lookup(s.sites[n].node, k)
    ensures Invariant(Local(s, n, node, m))
  {
    var s' := Local(s, n, node, m);
    forall x, k | x in s'.sites ensures InStep(s', x, k) && PendingIsLast(s'.sites[x], s'.log, k) {
      assert InStep(s, x, k) && PendingIsLast(s.sites[x], s.log, k);
      assert forall w :: w in s.unwritten ==> w in s'.unwritten;
      if x == n && k == m.key {
        assert (n, m) in s'.unwritten;
      }
    }
  }

  lemma PublishKeeps(s: System, m: Msg, writer: Option<NodeId>)
    requires Writable(m)
    requires s.stream == LastPerSubject(s.log)
    requires forall x :: x in s.log ==> Writable(x)
    requires forall w :: w in s.unwritten ==> Writable(w.1)
    requires forall n :: n in s.sites ==> SiteSound(s.sites[n]) && PendingWasWritten(s, n)
    requires forall n, k :: n in s.sites ==> PendingIsLast(s.sites[n], s.log, k)
    requires forall n, k :: n in s.sites && !(writer == Some(n) && k == m.key) ==> InStep(s, n, k)
    ensures Invariant(Publish(s, m))
  {
    var s' := Publish(s, m);
    RetainIsLastPerSubject(s.log, m);
    forall n, k | n in s'.sites ensures InStep(s', n, k) && PendingIsLast(s'.sites[n], s'.log, k) {
      LastForAppended(s.sites[n].pending, [m], k);
      LastForAppended(s.log, [m], k);
      assert PendingIsLast(s.sites[n], s.log, k);
      if k != m.key {
        assert LastFor([m], k).None?;
        assert InStep(s, n, k);
      }
    }
  }

  lemma WriteKeeps(s: System, n: NodeId, m: Msg)
    requires Invariant(s) && (n, m) in s.unwritten
    ensures Invariant(Next(s, Write(n, m)))
  {
    var t := s.(unwritten := s.unwritten - multiset{(n, m)});
    forall x, k | x in t.sites && !(n == x && k == m.key) ensures InStep(t, x, k) {
      assert InStep(s, x, k);
      if Waiting(s, x, k) {
        var o :| (x, o) in s.unwritten && o.key == k;
        assert (x, o) in t.unwritten;
      }
    }
    PublishKeeps(t, m, Some(n));
  }

  /** A change to one site that leaves every tracked key due the same. */
  lemma SiteChangeKeeps(s: System, n: NodeId, site: Site)
    requires Invariant(s) && n in s.sites && SiteSound(site)
    requires forall m :: m in site.pending ==> m in s.sites[n].pending
    requires forall k :: PendingIsLast(site, s.log, k)
    requires forall k :: Tracked(s.log, k) && !Waiting(s, n, k) ==> Due(site, k) == Due(s.sites[n], k)
    ensures Invariant(s.(sites := s.sites[n := site]))
  {
    var s' := s.(sites := s.sites[n := site]);
    assert PendingWasWritten(s, n);
    forall x, k | x in s'.sites ensures InStep(s', x, k) && PendingIsLast(s'.sites[x], s'.log, k) {
      assert InStep(s, x, k) && PendingIsLast(s.sites[x], s.log, k);
      assert Waiting(s, x, k) == Waiting(s', x, k);
    }
    forall x | x in s'.sites ensures PendingWasWritten(s', x) {
      assert PendingWasWritten(s, x);
    }
  }

  /** Handling the first pending message brings a tracked key no nearer to, and no farther from, what is due. */
  lemma HandlingKeepsDue(s: System, n: NodeId, k: Key)
    requires Invariant(s) && Enabled(s, Deliver(n)) && Tracked(s.log, k)
    ensures Due(Next(s, Deliver(n)).sites[n], k) == Due(s.sites[n], k)
  {
    var site := s.sites[n];
    var m := site.pending[0];
    assert m in site.pending && Writable(m) && PendingIsLast(site, s.log, k);
    HandleAt(site.node, m, k);
  }

  lemma DroppingKeepsLast(site: Site, log: seq<Msg>, k: Key)
    requires PendingIsLast(site, log, k) && site.pending != []
    ensures PendingIsLast(site.(pending := site.pending[1..]), log, k)
  {
  }

  lemma DeliverKeeps(s: System, n: NodeId)
    requires Invariant(s) && Enabled(s, Deliver(n))
    ensures Invariant(Next(s, Deliver(n)))
  {
    var site := s.sites[n];
    var site' := Site(Handle(site.node, site.pending[0]), site.pending[1..]);
    assert site.pending[0] in site.pending;
    forall k ensures PendingIsLast(site', s.log, k) {
      assert PendingIsLast(site, s.log, k);
      DroppingKeepsLast(site, s.log, k);
    }
    forall k | Tracked(s.log, k) && !Waiting(s, n, k) ensures Due(site', k) == Due(site, k) {
      HandlingKeepsDue(s, n, k);
    }
    SiteChangeKeeps(s, n, site');
  }

  lemma LoseKeeps(s: System, n: NodeId, i: nat)
    requires Invariant(s) && Enabled(s, Lose(n, i))
    ensures Invariant(Next(s, Lose(n, i)))
  {
    var site := s.sites[n];
    var kept := site.pending[..i] + site.pending[i + 1..];
    DropIsCompaction(site.pending, i);
    forall k ensures LastFor(kept, k) == LastFor(site.pending, k) && PendingIsLast(site.(pending := kept), s.log, k) {
      CompactionKeepsLast(site.pending, kept, k);
      assert PendingIsLast(site, s.log, k);
    }
    SiteChangeKeeps(s, n, site.(pending := kept));
  }

  lemma JoinKeeps(s: System, n: NodeId)
    requires Invariant(s) && Enabled(s, Join(n))
    ensures Invariant(Next(s, Join(n)))
  {
    var s' := Next(s, Join(n));
    LastPerSubjectIsCompaction(s.log);
    forall m | m in s.stream ensures m in s.log {
      CompactionIsInside(s.log, s.stream, m);
    }
    forall x, k | x in s'.sites ensures InStep(s', x, k) && PendingIsLast(s'.sites[x], s'.log, k) {
      CompactionKeepsLast(s.log, s.stream, k);
      if x != n {
        assert InStep(s, x, k) && PendingIsLast(s.sites[x], s.log, k);
        assert Waiting(s, x, k) == Waiting(s', x, k);
      }
    }
  }

  lemma {:induction false} CompactionIsInside(full: seq<Msg>, kept: seq<Msg>, m: Msg)
    requires IsCompaction(full, kept) && m in kept
    ensures m in full
    decreases |full|
  {
    if kept[0] == full[0] && IsCompaction(full[1..], kept[1..]) {
      if m != kept[0] {
        CompactionIsInside(full[1..], kept[1..], m);
      }
    } else {
      CompactionIsInside(full[1..], kept, m);
    }
  }

  lemma StepKeeps(s: System, step: Step)
    requires Invariant(s) && Enabled(s, step)
    ensures Invariant(Next(s, step))
  {
    match step
    case PutLinkdef(n, t, target) =>
      LocalKeeps(s, n, AfterPut(s.sites[n].node, t, target), PutLinkdefMsg(t, target));
    case DeleteLinkdef(n, id) =>
      if id in s.sites[n].node.linkdefs {
        LocalKeeps(s, n, AfterDelete(s.sites[n].node, id), Message(LinkdefKey(id), None));
      }
    case PutClaims(n, pk, claims) =>
      LocalKeeps(s, n, CacheClaims(s.sites[n].node, pk, claims), Message(ClaimsKey(pk), Some(ClaimsRecord(claims))));
    case PutRefmap(n, url, pk) =>
      var node := s.sites[n].node;
      LocalKeeps(s, n, node.(refmaps := node.refmaps[url := pk]), Message(RefmapKey(url), Some(RefmapRecord(url, pk))));
    case Write(n, m) => WriteKeeps(s, n, m);
    case Deliver(n) => DeliverKeeps(s, n);
    case Lose(n, i) => LoseKeeps(s, n, i);
    case Join(n) => JoinKeeps(s, n);
    case Outside(m) => PublishKeeps(s, m, None);
  }

  lemma {:induction false} RunKeeps(s: System, steps: seq<Step>, s': System)
    requires Invariant(s) && Reaches(s, steps, s')
    ensures Invariant(s')
    decreases |steps|
  {
    if steps != [] {
      StepKeeps(s, steps[0]);
      RunKeeps(Next(s, steps[0]), steps[1..], s');
    }
  }

  // ---------- what it gives ----------

  /** In every reachable state, a key a node is not itself writing is due to become what the bucket holds. */
  lemma DeliveriesLeadToBucket(steps: seq<Step>, s: System, n: NodeId, k: Key)
    requires Reaches(EMPTY, steps, s) && n in s.sites && !Waiting(s, n, k) && Tracked(s.log, k)
    ensures Due(s.sites[n], k) == Bucket(s.log, k)
  {
    RunKeeps(EMPTY, steps, s);
    assert InStep(s, n, k);
  }

  /** The history's last word on a key is what the retained stream, one message a key, says about it. */
  lemma BucketIsRetained(steps: seq<Step>, s: System, k: Key)
    requires Reaches(EMPTY, steps, s)
    ensures Bucket(s.log, k) == Meaning(Get(Replay(map[], s.stream), k))
    ensures forall i, j :: 0 <= i < j < |s.stream| ==> s.stream[i].key != s.stream[j].key
  {
    RunKeeps(EMPTY, steps, s);
    LastPerSubjectIsCompaction(s.log);
    CompactionKeepsLast(s.log, s.stream, k);
    ReplayAt(map[], s.stream, k);
    KeysAreDistinct(s.log);
  }

  lemma {:induction false} KeysAreDistinct(log: seq<Msg>)
    ensures forall i, j :: 0 <= i < j < |LastPerSubject(log)| ==>
      LastPerSubject(log)[i].key != LastPerSubject(log)[j].key
  {
    if log != [] {
      KeysAreDistinct(log[1..]);
      LastPerSubjectIsCompaction(log[1..]);
      CompactionKeepsLast(log[1..], LastPerSubject(log[1..]), log[0].key);
    }
  }

  /** A step that puts or handles, on a node, a reference map record for a URL. */
  predicate Maps(s: System, step: Step, n: NodeId, url: string)
    requires Enabled(s, step)
  {
    match step
    case PutRefmap(o, u, _) => o == n && u == url
    case Deliver(o) =>
      var m := s.sites[o].pending[0];
      o == n && m.key.RefmapKey? && m.body.Some? && m.body.value.RefmapRecord? && m.body.value.url == url
    case _ => false
  }

  predicate EverMapped(s: System, steps: seq<Step>, n: NodeId, url: string)
    decreases |steps|
  {
    && steps != [] && Enabled(s, steps[0])
    && (Maps(s, steps[0], n, url) || EverMapped(Next(s, steps[0]), steps[1..], n, url))
  }

  predicate HasRefmap(s: System, n: NodeId, url: string) {
    n in s.sites && url in s.sites[n].node.refmaps
  }

  lemma HandleMaps(node: Node, m: Msg, url: string)
    ensures url in Handle(node, m).refmaps <==>
      || url in node.refmaps
      || (m.key.RefmapKey? && m.body.Some? && m.body.value.RefmapRecord? && m.body.value.url == url)
  {
  }

  lemma StepMaps(s: System, step: Step, n: NodeId, url: string)
    requires Enabled(s, step)
    ensures HasRefmap(Next(s, step), n, url) <==> HasRefmap(s, n, url) || Maps(s, step, n, url)
  {
    match step
    case Write(_, m) => PublishMaps(s, m, n, url);
    case Outside(m) => PublishMaps(s, m, n, url);
    case Deliver(o) => HandleMaps(s.sites[o].node, s.sites[o].pending[0], url);
    case _ =>
  }

  lemma PublishMaps(s: System, m: Msg, n: NodeId, url: string)
    ensures HasRefmap(Publish(s, m), n, url) <==> HasRefmap(s, n, url)
  {
  }

  /** A node has an entry for a URL exactly when it once put or handled a record for it. */
  lemma {:induction false} RefmapsAreThoseMapped(s: System, steps: seq<Step>, s': System, n: NodeId, url: string)
    requires Reaches(s, steps, s')
    ensures HasRefmap(s', n, url) <==> HasRefmap(s, n, url) || EverMapped(s, steps, n, url)
    decreases |steps|
  {
    if steps != [] {
      StepMaps(s, steps[0], n, url);
      RefmapsAreThoseMapped(Next(s, steps[0]), steps[1..], s', n, url);
    }
  }

  /** What a step files on a node under a key, or takes away from there, if it does either. */
  function Filed(s: System, step: Step, n: NodeId, k: Key): Option<Option<Held>>
    requires Enabled(s, step)
  {
    match step
    case PutLinkdef(o, t, target) =>
      if o == n && k == LinkdefKey(HashOf(t))
      then Some(Some(HeldLinkdef(MakeLinkdef(t, target.provider, target.values)))) else None
    case DeleteLinkdef(o, id) =>
      if o == n && k == LinkdefKey(id) && id in s.sites[o].node.linkdefs then Some(None) else None
    case PutClaims(o, pk, claims) => if o == n && k == ClaimsKey(pk) then Some(Some(HeldClaims(claims))) else None
    case PutRefmap(o, url, pk) => if o == n && k == RefmapKey(url) then Some(Some(HeldRefmap(pk))) else None
    case Deliver(o) =>
      var m := s.sites[o].pending[0];
      if o == n && k == m.key && Faithful(m) then Some(Meaning(m.body)) else None
    case _ => None
  }

  /** What was last filed on a node under a key in a run, starting from what it held. */
  function LastFiled(s: System, steps: seq<Step>, n: NodeId, k: Key, held: Option<Held>): Option<Held>
    decreases |steps|
  {
    if steps == [] || !Enabled(s, steps[0]) then held
    else
      var filed := Filed(s, steps[0], n, k);
      LastFiled(Next(s, steps[0]), steps[1..], n, k, if filed.Some? then filed.value else held)
  }

  function HeldAt(s: System, n: NodeId, k: Key): Option<Held> {
    if n in s.sites then Lookup(s.sites[n].node, k) else None
  }

  lemma PublishFilesNothing(s: System, m: Msg, n: NodeId, k: Key)
    ensures HeldAt(Publish(s, m), n, k) == HeldAt(s, n, k)
  {
  }

  lemma DeliveryFiles(s: System, o: NodeId, n: NodeId, k: Key)
    requires Invariant(s) && Enabled(s, Deliver(o))
    ensures var filed := Filed(s, Deliver(o), n, k);
      HeldAt(Next(s, Deliver(o)), n, k) == if filed.Some? then filed.value else HeldAt(s, n, k)
  {
    assert s.sites[o].pending[0] in s.sites[o].pending;
    HandleAt(s.sites[o].node, s.sites[o].pending[0], k);
  }

  lemma LocalChangeFiles(s: System, step: Step, n: NodeId, k: Key)
    requires Invariant(s) && Enabled(s, step)
    requires step.PutClaims? || step.PutRefmap?
    ensures HeldAt(Next(s, step), n, k)
         == if Filed(s, step, n, k).Some? then Filed(s, step, n, k).value else HeldAt(s, n, k)
  {
  }

  lemma PutLinkdefFiles(s: System, o: NodeId, t: Triple, target: Target, n: NodeId, k: Key)
    requires o in s.sites
    ensures var filed := Filed(s, PutLinkdef(o, t, target), n, k);
      HeldAt(Next(s, PutLinkdef(o, t, target)), n, k) == if filed.Some? then filed.value else HeldAt(s, n, k)
  {
  }

  lemma DeleteLinkdefFiles(s: System, o: NodeId, id: Digest, n: NodeId, k: Key)
    requires o in s.sites && SiteSound(s.sites[o])
    ensures var filed := Filed(s, DeleteLinkdef(o, id), n, k);
      HeldAt(Next(s, DeleteLinkdef(o, id)), n, k) == if filed.Some? then filed.value else HeldAt(s, n, k)
  {
  }

  lemma StepFiles(s: System, step: Step, n: NodeId, k: Key)
    requires Invariant(s) && Enabled(s, step)
    ensures HeldAt(Next(s, step), n, k)
         == if Filed(s, step, n, k).Some? then Filed(s, step, n, k).value else HeldAt(s, n, k)
  {
    match step
    case Write(_, m) => PublishFilesNothing(s, m, n, k);
    case Outside(m) => PublishFilesNothing(s, m, n, k);
    case Deliver(o) => DeliveryFiles(s, o, n, k);
    case Lose(_, _) =>
    case Join(_) =>
    case PutLinkdef(o, t, target) => PutLinkdefFiles(s, o, t, target, n, k);
    case DeleteLinkdef(o, id) => DeleteLinkdefFiles(s, o, id, n, k);
    case _ => LocalChangeFiles(s, step, n, k);
  }

  /** What a node holds under a key is what was last filed there. */
  lemma {:induction false} NodeHoldsLastFiled(s: System, steps: seq<Step>, s': System, n: NodeId, k: Key)
    requires Invariant(s) && Reaches(s, steps, s')
    ensures HeldAt(s', n, k) == LastFiled(s, steps, n, k, HeldAt(s, n, k))
    decreases |steps|
  {
    if steps != [] {
      StepFiles(s, steps[0], n, k);
      StepKeeps(s, steps[0]);
      NodeHoldsLastFiled(Next(s, steps[0]), steps[1..], s', n, k);
    }
  }

  /**
   Once nothing is waiting to be written or handled, every node holds exactly what the bucket holds under each
   key whose last write nodes act upon as meant. Under another key a node agrees with the bucket exactly if what
   was last filed there does; where the last write purges a reference map, exactly if the node never put or
   handled a record for that URL.
   */
  lemma Convergence(steps: seq<Step>, s: System, n: NodeId, k: Key)
    requires Reaches(EMPTY, steps, s) && Quiet(s) && n in s.sites
    ensures Lookup(s.sites[n].node, k) == Bucket(s.log, k) <==>
      Tracked(s.log, k) || LastFiled(EMPTY, steps, n, k, None) == Bucket(s.log, k)
    ensures LastFor(s.log, k).Some? && RefmapPurge(LastFor(s.log, k).value) ==>
      (Lookup(s.sites[n].node, k) == Bucket(s.log, k) <==> !EverMapped(EMPTY, steps, n, k.url))
  {
    RunKeeps(EMPTY, steps, s);
    assert InStep(s, n, k);
    if Tracked(s.log, k) {
      assert LastFor(s.sites[n].pending, k).None?;
    } else {
      NodeHoldsLastFiled(EMPTY, steps, s, n, k);
      if k.RefmapKey? {
        RefmapsAreThoseMapped(EMPTY, steps, s, n, k.url);
      }
    }
  }

  /** Two nodes agree on a key exactly if it is tracked or the same was last filed on both. */
  lemma NodesAgreeIff(steps: seq<Step>, s: System, a: NodeId, b: NodeId, k: Key)
    requires Reaches(EMPTY, steps, s) && Quiet(s) && a in s.sites && b in s.sites
    ensures Lookup(s.sites[a].node, k) == Lookup(s.sites[b].node, k) <==>
      Tracked(s.log, k) || LastFiled(EMPTY, steps, a, k, None) == LastFiled(EMPTY, steps, b, k, None)
  {
    Convergence(steps, s, a, k);
    Convergence(steps, s, b, k);
    NodeHoldsLastFiled(EMPTY, steps, s, a, k);
    NodeHoldsLastFiled(EMPTY, steps, s, b, k);
  }

  /** So tables all of whose keys are tracked are equal. */
  lemma NodesAgree(steps: seq<Step>, s: System, a: NodeId, b: NodeId)
    requires Reaches(EMPTY, steps, s) && Quiet(s) && a in s.sites && b in s.sites
    ensures (forall id :: Tracked(s.log, LinkdefKey(id))) ==> s.sites[a].node.linkdefs == s.sites[b].node.linkdefs
    ensures (forall pk :: Tracked(s.log, ClaimsKey(pk))) ==> s.sites[a].node.claims == s.sites[b].node.claims
    ensures (forall url :: Tracked(s.log, RefmapKey(url))) ==> s.sites[a].node.refmaps == s.sites[b].node.refmaps
  {
    var x, y := s.sites[a].node, s.sites[b].node;
    forall k | Tracked(s.log, k) ensures Lookup(x, k) == Lookup(y, k) {
      NodesAgreeIff(steps, s, a, b, k);
    }
    if forall id :: Tracked(s.log, LinkdefKey(id)) {
      forall id
        ensures (id in x.linkdefs <==> id in y.linkdefs) && (id in x.linkdefs ==> x.linkdefs[id] == y.linkdefs[id])
      {
        assert Lookup(x, LinkdefKey(id)) == Lookup(y, LinkdefKey(id));
      }
    }
    if forall pk :: Tracked(s.log, ClaimsKey(pk)) {
      forall pk ensures (pk in x.claims <==> pk in y.claims) && (pk in x.claims ==> x.claims[pk] == y.claims[pk]) {
        assert Lookup(x, ClaimsKey(pk)) == Lookup(y, ClaimsKey(pk));
      }
    }
    if forall url :: Tracked(s.log, RefmapKey(url)) {
      forall url
        ensures (url in x.refmaps <==> url in y.refmaps) && (url in x.refmaps ==> x.refmaps[url] == y.refmaps[url])
      {
        assert Lookup(x, RefmapKey(url)) == Lookup(y, RefmapKey(url));
      }
    }
  }

  // ---------- it is reached ----------

  ghost function Backlog(sites: map<NodeId, Site>): nat {
    if sites == map[] then 0
    else
      var n :| n in sites;
      |sites[n].pending| + Backlog(sites - {n})
  }

  lemma {:induction false} BacklogAt(sites: map<NodeId, Site>, n: NodeId)
    requires n in sites
    ensures Backlog(sites) == |sites[n].pending| + Backlog(sites - {n})
    decreases |sites|
  {
    var c :| c in sites && Backlog(sites) == |sites[c].pending| + Backlog(sites - {c});
    if c != n {
      BacklogAt(sites - {c}, n);
      BacklogAt(sites - {n}, c);
      assert sites - {c} - {n} == sites - {n} - {c};
    }
  }

  lemma {:induction false} BacklogAfterPublish(sites: map<NodeId, Site>, m: Msg)
    ensures Backlog(Delivered(sites, m)) == Backlog(sites) + |sites|
    decreases |sites|
  {
    if sites != map[] {
      var n :| n in sites;
      BacklogAt(sites, n);
      BacklogAt(Delivered(sites, m), n);
      BacklogAfterPublish(sites - {n}, m);
      assert Delivered(sites, m) - {n} == Delivered(sites - {n}, m);
      assert |sites - {n}| == |sites| - 1;
    }
  }

  lemma BacklogAfterUpdate(sites: map<NodeId, Site>, n: NodeId, site: Site)
    requires n in sites
    ensures Backlog(sites[n := site]) == Backlog(sites) - |sites[n].pending| + |site.pending|
  {
    BacklogAt(sites, n);
    BacklogAt(sites[n := site], n);
    assert sites[n := site] - {n} == sites - {n};
  }

  /** The steps that remain when nobody starts a new write. */
  predicate Settling(step: Step) {
    step.Write? || step.Deliver? || step.Lose?
  }

  function Times(n: nat, width: nat): nat {
    if n == 0 then 0 else width + Times(n - 1, width)
  }

  /** Each unwritten change still costs one bucket write and one delivery a node. */
  ghost function Remaining(s: System): nat {
    Times(|s.unwritten|, 1 + |s.sites|) + Backlog(s.sites)
  }

  lemma SameSize(a: map<NodeId, Site>, b: map<NodeId, Site>)
    requires a.Keys == b.Keys
    ensures |a| == |b|
  {
    assert |a| == |a.Keys| && |b| == |b.Keys|;
  }

  lemma WriteSettles(s: System, t: System, m: Msg)
    requires t.sites == Delivered(s.sites, m) && |t.unwritten| == |s.unwritten| - 1
    ensures Remaining(t) == Remaining(s) - 1
  {
    SameSize(t.sites, s.sites);
    BacklogAfterPublish(s.sites, m);
  }

  lemma ShorterQueueSettles(s: System, n: NodeId, site: Site)
    requires n in s.sites && |site.pending| == |s.sites[n].pending| - 1
    ensures Remaining(s.(sites := s.sites[n := site])) == Remaining(s) - 1
  {
    BacklogAfterUpdate(s.sites, n, site);
    assert s.sites[n := site].Keys == s.sites.Keys;
    SameSize(s.sites[n := site], s.sites);
  }

  lemma SettlingStep(s: System, step: Step)
    requires Settling(step) && Enabled(s, step)
    ensures Remaining(Next(s, step)) == Remaining(s) - 1
  {
    match step
    case Write(n, m) => WriteSettles(s, Next(s, step), m);
    case Deliver(n) => ShorterQueueSettles(s, n, Next(s, step).sites[n]);
    case Lose(n, i) => ShorterQueueSettles(s, n, Next(s, step).sites[n]);
  }

  /**
   Without new local writes the system settles: every run of writes, deliveries and losses takes one unit
   of the remaining work a step, and some such step is possible until the system is quiet.
   */
  lemma {:induction false} SettlesInBoundedSteps(s: System, steps: seq<Step>, s': System)
    requires Reaches(s, steps, s') && forall i :: 0 <= i < |steps| ==> Settling(steps[i])
    ensures |steps| + Remaining(s') == Remaining(s)
    ensures Quiet(s') || exists step :: Settling(step) && Enabled(s', step)
    decreases |steps|
  {
    if steps == [] {
      if s.unwritten != multiset{} {
        var w :| w in s.unwritten;
        assert Settling(Write(w.0, w.1)) && Enabled(s, Write(w.0, w.1));
      } else if !Quiet(s) {
        var n :| n in s.sites && s.sites[n].pending != [];
        assert Settling(Deliver(n)) && Enabled(s, Deliver(n));
      }
    } else {
      SettlingStep(s, steps[0]);
      SettlesInBoundedSteps(Next(s, steps[0]), steps[1..], s');
    }
  }

  // ---------- what replication does not give ----------

  /** Entries of the alias and reference map tables are never taken out, and an alias never changes its key. */
  lemma {:induction false} AliasesAndRefmapsStay(s: System, steps: seq<Step>, s': System, n: NodeId)
    requires Reaches(s, steps, s') && n in s.sites
    ensures n in s'.sites && KeepsAliasesAndRefmaps(s.sites[n].node, s'.sites[n].node)
    decreases |steps|
  {
    if steps != [] {
      StepKeepsAliasesAndRefmaps(s, steps[0], n);
      AliasesAndRefmapsStay(Next(s, steps[0]), steps[1..], s', n);
    }
  }

  ghost predicate KeepsAliasesAndRefmaps(node: Node, node': Node) {
    && (forall a :: a in node.aliases ==> Get(node'.aliases, a) == Some(node.aliases[a]))
    && (forall url :: url in node.refmaps ==> url in node'.refmaps)
  }

  lemma HandleKeepsAliasesAndRefmaps(node: Node, m: Msg)
    ensures KeepsAliasesAndRefmaps(node, Handle(node, m))
  {
  }

  lemma StepKeepsAliasesAndRefmaps(s: System, step: Step, n: NodeId)
    requires Enabled(s, step) && n in s.sites
    ensures n in Next(s, step).sites && KeepsAliasesAndRefmaps(s.sites[n].node, Next(s, step).sites[n].node)
  {
    match step
    case Write(_, m) => PublishKeepsNode(s, m, n);
    case Outside(m) => PublishKeepsNode(s, m, n);
    case Deliver(o) => HandleKeepsAliasesAndRefmaps(s.sites[o].node, s.sites[o].pending[0]);
    case _ =>
  }

  lemma PublishKeepsNode(s: System, m: Msg, n: NodeId)
    requires n in s.sites
    ensures n in Publish(s, m).sites && Publish(s, m).sites[n].node == s.sites[n].node
  {
  }

  /**
   Two nodes that start actors with the same alias keep different answers for it, even when everything has
   settled.
   */
  lemma AliasesDiverge() returns (steps: seq<Step>, s: System)
    ensures Reaches(EMPTY, steps, s) && Quiet(s) && "A" in s.sites && "B" in s.sites
    ensures Get(s.sites["A"].node.aliases, "kv") == Some("M1")
    ensures Get(s.sites["B"].node.aliases, "kv") == Some("M2")
  {
    var s4, r4 := BothClaimTheAlias();
    var s6, r6 := WriteBoth(s4, r4, AliasClaim("M1"), AliasClaim("M2"));
    var s8, r8 := DeliverTwo(s6, r6, "A");
    s, steps := DeliverTwo(s8, r8, "B");
  }

  function AliasClaim(pk: string): Msg {
    Message(ClaimsKey(pk), Some(ClaimsRecord(Claims(Some("kv"), map[]))))
  }

  lemma BothClaimTheAlias() returns (s: System, steps: seq<Step>)
    ensures Reaches(EMPTY, steps, s) && s.sites.Keys == {"A", "B"}
    ensures s.unwritten == multiset{("A", AliasClaim("M1")), ("B", AliasClaim("M2"))}
    ensures s.sites["A"].pending == [] == s.sites["B"].pending
    ensures s.sites["A"].node.aliases == map["kv" := "M1"] && s.sites["B"].node.aliases == map["kv" := "M2"]
  {
    var s2, r2 := BothJoin();
    ClaimEffect(s2, "A", "M1");
    var s3, r3 := Extend(EMPTY, r2, s2, PutClaims("A", "M1", Claims(Some("kv"), map[])));
    ClaimEffect(s3, "B", "M2");
    s, steps := Extend(EMPTY, r3, s3, PutClaims("B", "M2", Claims(Some("kv"), map[])));
  }

  lemma BothJoin() returns (s: System, steps: seq<Step>)
    ensures Reaches(EMPTY, steps, s) && s.unwritten == multiset{}
    ensures s.sites == map["A" := Site(EMPTY_NODE, []), "B" := Site(EMPTY_NODE, [])]
  {
    var s1, r1 := Extend(EMPTY, [], EMPTY, Join("A"));
    s, steps := Extend(EMPTY, r1, s1, Join("B"));
  }

  lemma ClaimEffect(s: System, n: NodeId, pk: string)
    requires n in s.sites && s.sites[n].node.aliases == map[]
    ensures var step := PutClaims(n, pk, Claims(Some("kv"), map[]));
      && Enabled(s, step)
      && Next(s, step).unwritten == s.unwritten + multiset{(n, AliasClaim(pk))}
      && Next(s, step).sites.Keys == s.sites.Keys
      && (forall o :: o in s.sites && o != n ==> Next(s, step).sites[o] == s.sites[o])
      && Next(s, step).sites[n].pending == s.sites[n].pending && Next(s, step).sites[n].node.aliases == map["kv" := pk]
  {
  }

  lemma DeliverEffect(s: System, n: NodeId)
    requires n in s.sites && s.sites[n].pending != []
    ensures Enabled(s, Deliver(n))
    ensures var s' := Next(s, Deliver(n));
      && s'.sites.Keys == s.sites.Keys && s'.unwritten == s.unwritten && s'.sites[n].pending == s.sites[n].pending[1..]
      && (forall o :: o in s.sites && o != n ==> s'.sites[o] == s.sites[o])
      && KeepsAliasesAndRefmaps(s.sites[n].node, s'.sites[n].node)
  {
  }

  lemma DeliverTwo(s: System, steps: seq<Step>, n: NodeId) returns (s': System, steps': seq<Step>)
    requires Reaches(EMPTY, steps, s) && n in s.sites && |s.sites[n].pending| == 2
    ensures Reaches(EMPTY, steps', s') && s'.sites.Keys == s.sites.Keys && s'.unwritten == s.unwritten
    ensures s'.sites[n].pending == [] && forall o :: o in s.sites && o != n ==> s'.sites[o] == s.sites[o]
    ensures KeepsAliasesAndRefmaps(s.sites[n].node, s'.sites[n].node)
  {
    DeliverEffect(s, n);
    var s1, r1 := Extend(EMPTY, steps, s, Deliver(n));
    DeliverEffect(s1, n);
    s', steps' := Extend(EMPTY, r1, s1, Deliver(n));
  }

  lemma WriteEffect(s: System, n: NodeId, m: Msg)
    requires (n, m) in s.unwritten
    ensures Enabled(s, Write(n, m))
    ensures var s' := Next(s, Write(n, m));
      && s'.sites.Keys == s.sites.Keys && s'.unwritten == s.unwritten - multiset{(n, m)}
      && (forall o :: o in s.sites ==> s'.sites[o] == Site(s.sites[o].node, s.sites[o].pending + [m]))
  {
  }

  lemma WriteBoth(s: System, steps: seq<Step>, m1: Msg, m2: Msg) returns (s': System, steps': seq<Step>)
    requires Reaches(EMPTY, steps, s) && s.unwritten == multiset{("A", m1), ("B", m2)}
    requires forall n :: n in s.sites ==> s.sites[n].pending == []
    ensures Reaches(EMPTY, steps', s') && s'.sites.Keys == s.sites.Keys && s'.unwritten == multiset{}
    ensures forall n :: n in s.sites ==> s'.sites[n] == Site(s.sites[n].node, [m1, m2])
  {
    WriteEffect(s, "A", m1);
    var s1, r1 := Extend(EMPTY, steps, s, Write("A", m1));
    assert s1.unwritten == multiset{("B", m2)};
    WriteEffect(s1, "B", m2);
    s', steps' := Extend(EMPTY, r1, s1, Write("B", m2));
  }

  /** A reference map purged from the bucket stays on the nodes that had it. */
  lemma PurgedRefmapStays() returns (steps: seq<Step>, s: System)
    ensures Reaches(EMPTY, steps, s) && Quiet(s) && "A" in s.sites
    ensures Bucket(s.log, RefmapKey("ref")) == None && Get(s.sites["A"].node.refmaps, "ref") == Some("M1")
  {
    var put, purge := Message(RefmapKey("ref"), Some(RefmapRecord("ref", "M1"))), Message(RefmapKey("ref"), None);
    var s1, r1 := Extend(EMPTY, [], EMPTY, Join("A"));
    var s3, r3 := WriteAndDeliver(s1, r1, put);
    s, steps := WriteAndDeliver(s3, r3, purge);
    assert s.log == [put, purge] && s.log[1..] == [purge];
  }

  function ClaimsOfM1(body: Record): Msg {
    Message(ClaimsKey("M1"), Some(body))
  }

  /**
   Claims followed in the bucket by something that is not claims: the node that had them keeps them, one that
   joins later never gets any.
   */
  lemma OverwrittenClaimsDiverge() returns (steps: seq<Step>, s: System)
    ensures Reaches(EMPTY, steps, s) && Quiet(s) && "A" in s.sites && "B" in s.sites
    ensures s.log == [ClaimsOfM1(ClaimsRecord(Claims(None, map[]))), ClaimsOfM1(Foreign)]
    ensures "M1" in s.sites["A"].node.claims && "M1" !in s.sites["B"].node.claims
  {
    var put, foreign := ClaimsOfM1(ClaimsRecord(Claims(None, map[]))), ClaimsOfM1(Foreign);
    var s1, r1 := Extend(EMPTY, [], EMPTY, Join("A"));
    var s3, r3 := WriteAndDeliver(s1, r1, put);
    var s5, r5 := WriteAndDeliver(s3, r3, foreign);
    assert s5.log == [put, foreign];
    LastOfTwo(put, foreign);
    s, steps := JoinAndDeliver(s5, r5, foreign);
  }

  lemma LastOfTwo(a: Msg, b: Msg)
    requires a.key == b.key
    ensures LastPerSubject([a, b]) == [b]
  {
    assert [a, b][1..] == [b] && [b][1..] == [];
    assert LastPerSubject([b]) == [b] + LastPerSubject([]);
  }

  lemma JoinAndDeliver(s: System, steps: seq<Step>, m: Msg) returns (s': System, steps': seq<Step>)
    requires Reaches(EMPTY, steps, s) && Quiet(s) && s.sites.Keys == {"A"} && LastPerSubject(s.log) == [m]
    ensures Reaches(EMPTY, steps', s') && Quiet(s') && s'.log == s.log
    ensures s'.sites == s.sites["B" := Site(Handle(EMPTY_NODE, m), [])]
  {
    RunKeeps(EMPTY, steps, s);
    JoinThenDeliver(s, m);
    var t, r := Extend(EMPTY, steps, s, Join("B"));
    s', steps' := Extend(EMPTY, r, t, Deliver("B"));
  }

  lemma JoinThenDeliver(s: System, m: Msg)
    requires "B" !in s.sites && s.stream == [m] && Quiet(s)
    ensures Enabled(Next(s, Join("B")), Deliver("B"))
    ensures Next(Next(s, Join("B")), Deliver("B")) == s.(sites := s.sites["B" := Site(Handle(EMPTY_NODE, m), [])])
    ensures Quiet(Next(Next(s, Join("B")), Deliver("B")))
  {
    var joined, site := Next(s, Join("B")), Site(Handle(EMPTY_NODE, m), []);
    assert joined.sites["B"] == Site(EMPTY_NODE, [m]) && [m][1..] == [];
    assert joined.sites["B" := site] == s.sites["B" := site];
  }

  lemma WriteAndDeliver(s: System, steps: seq<Step>, m: Msg) returns (s': System, steps': seq<Step>)
    requires Reaches(EMPTY, steps, s) && Writable(m)
    requires s.sites.Keys == {"A"} && s.sites["A"].pending == [] && s.unwritten == multiset{}
    ensures Reaches(EMPTY, steps', s') && s'.log == s.log + [m] && s'.unwritten == multiset{}
    ensures s'.sites.Keys == {"A"} && s'.sites["A"] == Site(Handle(s.sites["A"].node, m), [])
  {
    var t, r := Extend(EMPTY, steps, s, Outside(m));
    assert t.sites["A"] == Site(s.sites["A"].node, [m]) && t.sites.Keys == {"A"};
    s', steps' := Extend(EMPTY, r, t, Deliver("A"));
  }

  lemma {:induction false} Extend(s: System, steps: seq<Step>, t: System, step: Step)
    returns (u: System, more: seq<Step>)
    requires Reaches(s, steps, t) && Enabled(t, step)
    ensures u == Next(t, step) && more == steps + [step] && Reaches(s, more, u)
    decreases |steps|
  {
    u, more := Next(t, step), steps + [step];
    if steps == [] {
      assert more[1..] == [];
    } else {
      var _, rest := Extend(Next(s, steps[0]), steps[1..], t, step);
      assert more[1..] == rest;
    }
  }
}
