/**
 Replication of lattice metadata. Every node keeps its own tables, changes them first, writes the change
 to the bucket afterwards, and applies whatever the bucket's stream delivers, in stream order.
 */
module Lattice {
  import opened Hashes
  import opened Linkdefs
  import opened MetadataStream
  import opened Options

  datatype Key = LinkdefKey(id: Digest) | ClaimsKey(publicKey: string) | RefmapKey(url: string)

  datatype Claims = Claims(callAlias: Option<string>, details: map<string, string>)

  /**
   The decoded body of a message; a link definition from an older writer may lack its id, and a foreign
   body decodes to something that is none of the three kinds.
   */
  datatype Record =
    | LinkdefRecord(id: Option<Digest>, triple: Triple, target: Target)
    | ClaimsRecord(claims: Claims)
    | RefmapRecord(url: string, publicKey: string)
    | Foreign
    | Undecodable

  type Msg = Message<Key, Record>

  datatype Node = Node(
    linkdefs: Table,
    claims: map<string, Claims>,
    aliases: map<string, string>,
    refmaps: map<string, string>
  )

  const EMPTY_NODE := Node(map[], map[], map[], map[])

  // ---------- one node ----------

  function EnsureLinkdefId(r: Record): Linkdef
    requires r.LinkdefRecord?
  {
    var id := if r.id.Some? then r.id.value else HashOf(r.triple);
    MakeLinkdef(r.triple, r.target.provider, r.target.values).(id := id)
  }

  /** The first public key to claim an alias keeps it; aliases of fewer than two characters are ignored. */
  function CacheCallAlias(aliases: map<string, string>, callAlias: Option<string>, publicKey: string)
    : map<string, string>
  {
    if callAlias.Some? && |callAlias.value| > 1 && callAlias.value !in aliases
    then aliases[callAlias.value := publicKey]
    else aliases
  }

  function CacheClaims(node: Node, publicKey: string, claims: Claims): Node {
    node.(
      aliases := CacheCallAlias(node.aliases, claims.callAlias, publicKey),
      claims := node.claims[publicKey := claims])
  }

  /** The metadata loader's reaction to one message; unexpected actions are only logged. */
  function Handle(node: Node, m: Msg): Node {
    match (m.key, m.body)
    case (ClaimsKey(pk), Some(ClaimsRecord(claims))) => CacheClaims(node, pk, claims)
    case (RefmapKey(_), Some(RefmapRecord(url, pk))) => node.(refmaps := node.refmaps[url := pk])
    case (LinkdefKey(_), Some(LinkdefRecord(id, triple, target))) =>
      var ld := EnsureLinkdefId(m.body.value);
      node.(linkdefs := node.linkdefs[ld.id := ld])
    case (LinkdefKey(id), None) => node.(linkdefs := node.linkdefs - {id})
    case (ClaimsKey(pk), None) => node.(claims := node.claims - {pk})
    case _ => node
  }

  /** What a node or the bucket holds for a key. */
  datatype Held = HeldLinkdef(ld: Linkdef) | HeldClaims(claims: Claims) | HeldRefmap(publicKey: string)

  function Lookup(node: Node, k: Key): Option<Held> {
    match k
    case LinkdefKey(id) => if id in node.linkdefs then Some(HeldLinkdef(node.linkdefs[id])) else None
    case ClaimsKey(pk) => if pk in node.claims then Some(HeldClaims(node.claims[pk])) else None
    case RefmapKey(url) => if url in node.refmaps then Some(HeldRefmap(node.refmaps[url])) else None
  }

  function Meaning(body: Option<Record>): Option<Held> {
    match body
    case None => None
    case Some(LinkdefRecord(_, _, _)) => Some(HeldLinkdef(EnsureLinkdefId(body.value)))
    case Some(ClaimsRecord(claims)) => Some(HeldClaims(claims))
    case Some(RefmapRecord(_, pk)) => Some(HeldRefmap(pk))
    case Some(Foreign) => None
    case Some(Undecodable) => None
  }

  /** The body is of the key's kind and names the key's own entry. */
  predicate WellFormed(m: Msg) {
    m.body.None? ||
    match (m.key, m.body.value)
    case (LinkdefKey(id), LinkdefRecord(_, _, _)) => EnsureLinkdefId(m.body.value).id == id
    case (ClaimsKey(_), ClaimsRecord(_)) => true
    case (RefmapKey(url), RefmapRecord(u, _)) => url == u
    case _ => false
  }

  predicate RefmapPurge(m: Msg) {
    m.key.RefmapKey? && m.body.None?
  }

  predicate Faithful(m: Msg) {
    WellFormed(m) && !RefmapPurge(m)
  }

  /**
   What gets into the bucket: what the tables' managers write is well formed, the migration writes anything that
   decodes under a claims key, and anyone may write what does not decode.
   */
  predicate Writable(m: Msg) {
    WellFormed(m) || m.key.ClaimsKey? || m.body == Some(Undecodable)
  }

  /** Handling a message stores what it means under its key, and touches nothing else that is replicated. */
  ghost predicate HandledFaithfully(m: Msg) {
    forall node, k :: Lookup(Handle(node, m), k) == if k == m.key then Meaning(m.body) else Lookup(node, k)
  }

  lemma HandledFaithfullyIff(m: Msg)
    ensures HandledFaithfully(m) <==> Faithful(m)
  {
    if Faithful(m) {
      forall node, k ensures Lookup(Handle(node, m), k) == if k == m.key then Meaning(m.body) else Lookup(node, k) {
        HandleAt(node, m, k);
      }
    } else {
      var node := if Meaning(m.body).Some? then EMPTY_NODE else Holding(m.key);
      assert Lookup(Handle(node, m), m.key) != Meaning(m.body);
    }
  }

  /** A node that already has something for a key. */
  ghost function Holding(k: Key): (node: Node)
    ensures Lookup(node, k).Some?
  {
    match k
    case LinkdefKey(id) => EMPTY_NODE.(linkdefs := map[id := Linkdef(id, "", "", "", "", map[])])
    case ClaimsKey(pk) => EMPTY_NODE.(claims := map[pk := Claims(None, map[])])
    case RefmapKey(url) => EMPTY_NODE.(refmaps := map[url := ""])
  }

  lemma HandleAt(node: Node, m: Msg, k: Key)
    requires Writable(m)
    ensures Lookup(Handle(node, m), k) == if k == m.key && Faithful(m) then Meaning(m.body) else Lookup(node, k)
  {
  }

  // ---------- the tables in place ----------

  predicate IsRemoval(headers: seq<(string, string)>) {
    ("kv-operation", "DEL") in headers || ("kv-operation", "PURGE") in headers
  }

  /** A delivery with a delete or purge header removes the key, whatever its body. */
  function Received(key: Key, headers: seq<(string, string)>, body: Record): Msg {
    Message(key, if IsRemoval(headers) then None else Some(body))
  }

  class MetadataCacheLoader {
    var linkdefs: Table
    var claims: map<string, Claims>
    var aliases: map<string, string>
    var refmaps: map<string, string>

    ghost function Abstract(): Node
      reads this
    {
      Node(linkdefs, claims, aliases, refmaps)
    }

    constructor ()
      ensures Abstract() == EMPTY_NODE
    {
      linkdefs, claims, aliases, refmaps := map[], map[], map[], map[];
    }

    /** The claims manager's insertion: the alias only if it is new, the claims always. */
    method InsertClaims(publicKey: string, c: Claims)
      modifies this
      ensures Abstract() == CacheClaims(old(Abstract()), publicKey, c)
    {
      if c.callAlias.Some? && |c.callAlias.value| > 1 {
        if c.callAlias.value !in aliases {
          aliases := aliases[c.callAlias.value := publicKey];
        }
      }
      claims := claims[publicKey := c];
    }

    method KeyAdded(key: Key, body: Record)
      modifies this
      ensures Abstract() == Handle(old(Abstract()), Message(key, Some(body)))
    {
      if key.ClaimsKey? && body.ClaimsRecord? {
        InsertClaims(key.publicKey, body.claims);
      } else if key.RefmapKey? && body.RefmapRecord? {
        refmaps := refmaps[body.url := body.publicKey];
      } else if key.LinkdefKey? && body.LinkdefRecord? {
        var ld := EnsureLinkdefId(body);
        linkdefs := linkdefs[ld.id := ld];
      }
    }

    method KeyDeleted(key: Key)
      modifies this
      ensures Abstract() == Handle(old(Abstract()), Message(key, None))
    {
      if key.LinkdefKey? {
        linkdefs := linkdefs - {key.id};
      } else if key.ClaimsKey? {
        claims := claims - {key.publicKey};
      }
    }

    method Request(key: Key, headers: seq<(string, string)>, body: Record)
      modifies this
      ensures Abstract() == Handle(old(Abstract()), Received(key, headers, body))
    {
      if ("kv-operation", "DEL") in headers || ("kv-operation", "PURGE") in headers {
        KeyDeleted(key);
      } else {
        KeyAdded(key, body);
      }
    }
  }
}
