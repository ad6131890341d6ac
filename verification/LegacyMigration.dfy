/** Moving the messages of the old lattice cache stream into the metadata bucket, one by one. */
module LegacyMigration {
  import opened Hashes
  import opened Lattice
  import opened Linkdefs
  import opened MetadataStream
  import opened Options
  import opened Strings

  /** The body of an old message: of one of the three kinds, decodable to something else, or not decodable. */
  datatype Body =
    | OldLinkdef(id: Option<Digest>, triple: Triple, target: Target, deleted: bool)
    | OldClaims(claims: Claims)
    | OldRefmap(url: string, publicKey: string)
    | OldOther
    | Garbage

  datatype OldMessage = OldMessage(topic: string, body: Body)

  /** A bucket entry is addressed by lattice prefix and key. */
  type Address = (string, Key)

  type Bucket = map<Address, Record>

  /** A message is skipped, writes one entry, or raises and ends the migration. */
  datatype Outcome = Skips | Writes(at: Address, value: Record) | Raises

  function Reidentified(triple: Triple, target: Target): Record {
    LinkdefRecord(Some(HashOf(triple)), triple, target)
  }

  /** A decodable body as a bucket record, with its fields as they are. */
  function RecordOf(body: Body): Record
    requires !body.Garbage?
  {
    match body
    case OldLinkdef(id, triple, target, _) => LinkdefRecord(id, triple, target)
    case OldClaims(claims) => ClaimsRecord(claims)
    case OldRefmap(url, pk) => RefmapRecord(url, pk)
    case OldOther => Foreign
  }

  /**
   The four tokens are stream, lattice prefix, kind of record and the old key; claims are moved without a look
   at them.
   */
  function OutcomeOf(m: OldMessage): Outcome {
    var tokens := Split(m.topic, '.');
    if |tokens| < 3 then Skips
    else if |tokens| != 4 then Raises
    else
      var prefix, kind, oldKey := tokens[1], tokens[2], tokens[3];
      if kind == "linkdefs" then
        match m.body
        case OldLinkdef(_, triple, target, deleted) =>
          if deleted then Skips else Writes((prefix, LinkdefKey(HashOf(triple))), Reidentified(triple, target))
        case _ => Raises
      else if kind == "claims" then
        if m.body.Garbage? then Skips else Writes((prefix, ClaimsKey(oldKey)), RecordOf(m.body))
      else if kind == "refmap" then
        match m.body
        case OldRefmap(url, pk) => Writes((prefix, RefmapKey(url)), RefmapRecord(url, pk))
        case Garbage => Skips
        case _ => Raises
      else Raises
  }

  function MigrateOne(bucket: Bucket, m: OldMessage): Bucket {
    match OutcomeOf(m)
    case Writes(at, value) => bucket[at := value]
    case _ => bucket
  }

  /** The bucket after the messages up to the first that raises, and whether none did. */
  function MigrateAll(bucket: Bucket, ms: seq<OldMessage>): (Bucket, bool)
    decreases |ms|
  {
    if ms == [] then (bucket, true)
    else if OutcomeOf(ms[0]).Raises? then (bucket, false)
    else MigrateAll(MigrateOne(bucket, ms[0]), ms[1..])
  }

  /** The receive loop: takes messages until none is left, handling each before the next. */
  method MigrateBucketKeys(bucket: Bucket, ms: seq<OldMessage>) returns (result: Bucket, completed: bool)
    ensures (result, completed) == MigrateAll(bucket, ms)
  {
    result, completed := bucket, true;
    var i := 0;
    while i < |ms|
      invariant 0 <= i <= |ms| && completed
      invariant MigrateAll(bucket, ms) == MigrateAll(result, ms[i..])
    {
      var outcome := OutcomeOf(ms[i]);
      if outcome.Raises? {
        completed := false;
        return;
      }
      if outcome.Writes? {
        result := result[outcome.at := outcome.value];
      }
      i := i + 1;
    }
  }

  /** Whether a message is one the migration can handle. */
  predicate Recognised(m: OldMessage) {
    var tokens := Split(m.topic, '.');
    |tokens| < 3 ||
    (|tokens| == 4 &&
     match tokens[2]
     case "linkdefs" => m.body.OldLinkdef?
     case "claims" => true
     case "refmap" => m.body.OldRefmap? || m.body.Garbage?
     case _ => false)
  }

  /** The migration finishes exactly when every message is recognised. */
  lemma {:induction false} CompletesIffRecognised(bucket: Bucket, ms: seq<OldMessage>)
    ensures MigrateAll(bucket, ms).1 <==> forall m :: m in ms ==> Recognised(m)
    decreases |ms|
  {
    if ms != [] {
      assert OutcomeOf(ms[0]).Raises? <==> !Recognised(ms[0]);
      assert ms[0] in ms && forall m :: m in ms[1..] ==> m in ms;
      assert forall m :: m in ms ==> m == ms[0] || m in ms[1..];
      CompletesIffRecognised(MigrateOne(bucket, ms[0]), ms[1..]);
    }
  }

  function Topic(stream: string, prefix: string, kind: string, key: string): string {
    stream + ['.'] + (prefix + ['.'] + (kind + ['.'] + key))
  }

  lemma TopicSplits(stream: string, prefix: string, kind: string, key: string)
    requires '.' !in stream && '.' !in prefix && '.' !in kind && '.' !in key
    ensures Split(Topic(stream, prefix, kind, key), '.') == [stream, prefix, kind, key]
  {
    SplitJoined(stream, '.', prefix + ['.'] + (kind + ['.'] + key));
    SplitJoined(prefix, '.', kind + ['.'] + key);
    SplitJoined(kind, '.', key);
    SplitWhole(stream, '.');
    SplitWhole(prefix, '.');
    SplitWhole(kind, '.');
    SplitWhole(key, '.');
  }

  /** A message that cannot be handled ends the migration: what came before it is moved, what follows stays behind. */
  lemma {:induction false} UnrecognisedStops(bucket: Bucket, before: seq<OldMessage>, bad: OldMessage,
          rest: seq<OldMessage>)
    requires !Recognised(bad) && forall m :: m in before ==> Recognised(m)
    ensures MigrateAll(bucket, before + [bad] + rest) == (MigrateAll(bucket, before).0, false)
    decreases |before|
  {
    var ms := before + [bad] + rest;
    if before == [] {
      assert ms[0] == bad;
    } else {
      assert before[0] in before && forall m :: m in before[1..] ==> m in before;
      assert ms[0] == before[0] && ms[1..] == before[1..] + [bad] + rest;
      UnrecognisedStops(MigrateOne(bucket, before[0]), before[1..], bad, rest);
    }
  }

  /** One of a kind nobody knows is such a message, wherever it comes. */
  lemma UnknownKindStops(bucket: Bucket, before: seq<OldMessage>, stream: string, prefix: string, kind: string,
          key: string, body: Body, rest: seq<OldMessage>)
    requires '.' !in stream && '.' !in prefix && '.' !in kind && '.' !in key
    requires kind != "linkdefs" && kind != "claims" && kind != "refmap"
    requires forall m :: m in before ==> Recognised(m)
    ensures MigrateAll(bucket, before + [OldMessage(Topic(stream, prefix, kind, key), body)] + rest)
         == (MigrateAll(bucket, before).0, false)
  {
    TopicSplits(stream, prefix, kind, key);
    UnrecognisedStops(bucket, before, OldMessage(Topic(stream, prefix, kind, key), body), rest);
  }

  /** And so is a link definition that does not decode. */
  lemma GarbledLinkdefStops(bucket: Bucket, before: seq<OldMessage>, stream: string, prefix: string, key: string,
          rest: seq<OldMessage>)
    requires '.' !in stream && '.' !in prefix && '.' !in key
    requires forall m :: m in before ==> Recognised(m)
    ensures MigrateAll(bucket, before + [OldMessage(Topic(stream, prefix, "linkdefs", key), Garbage)] + rest)
         == (MigrateAll(bucket, before).0, false)
  {
    TopicSplits(stream, prefix, "linkdefs", key);
    UnrecognisedStops(bucket, before, OldMessage(Topic(stream, prefix, "linkdefs", key), Garbage), rest);
  }

  // ---------- what the bucket holds afterwards ----------

  function WritesOf(ms: seq<OldMessage>): seq<Message<Address, Record>> {
    if ms == [] then []
    else
      match OutcomeOf(ms[0])
      case Writes(at, value) => [Message(at, Some(value))] + WritesOf(ms[1..])
      case _ => WritesOf(ms[1..])
  }

  lemma {:induction false} MigrationReplaysWrites(bucket: Bucket, ms: seq<OldMessage>)
    requires forall m :: m in ms ==> Recognised(m)
    ensures MigrateAll(bucket, ms) == (Replay(bucket, WritesOf(ms)), true)
    decreases |ms|
  {
    if ms != [] {
      assert ms[0] in ms && forall m :: m in ms[1..] ==> m in ms;
      MigrationReplaysWrites(MigrateOne(bucket, ms[0]), ms[1..]);
    }
  }

  /** The last version, not marked deleted, of the link definition with this id in this lattice. */
  function LastLive(ms: seq<OldMessage>, prefix: string, id: Digest): (live: Option<OldMessage>)
    ensures live.Some? ==> live.value in ms && IsLive(live.value, prefix, id)
  {
    if ms == [] then None
    else
      var rest := LastLive(ms[1..], prefix, id);
      if rest.Some? then rest
      else if IsLive(ms[0], prefix, id) then Some(ms[0])
      else None
  }

  predicate IsLive(m: OldMessage, prefix: string, id: Digest) {
    var tokens := Split(m.topic, '.');
    && |tokens| == 4 && tokens[1] == prefix && tokens[2] == "linkdefs"
    && m.body.OldLinkdef? && !m.body.deleted && HashOf(m.body.triple) == id
  }

  lemma {:induction false} LastLiveIsLastWrite(ms: seq<OldMessage>, prefix: string, id: Digest)
    ensures var live := LastLive(ms, prefix, id);
      LastFor(WritesOf(ms), (prefix, LinkdefKey(id)))
         == if live.None? then None
            else Some(Message((prefix, LinkdefKey(id)),
                              Some(Reidentified(live.value.body.triple, live.value.body.target))))
  {
    if ms != [] {
      LastLiveIsLastWrite(ms[1..], prefix, id);
      var head := OutcomeOf(ms[0]);
      if head.Writes? {
        assert WritesOf(ms)[1..] == WritesOf(ms[1..]);
      }
    }
  }

  /**
   Each link definition ends up under the hash of its own triple with its last live version, fields
   unchanged; one that only has deleted versions, or none, keeps what the bucket had.
   */
  lemma MigratedLinkdef(bucket: Bucket, ms: seq<OldMessage>, prefix: string, id: Digest)
    requires forall m :: m in ms ==> Recognised(m)
    ensures var live := LastLive(ms, prefix, id);
      Get(MigrateAll(bucket, ms).0, (prefix, LinkdefKey(id)))
      == if live.Some?
         then Some(Reidentified(live.value.body.triple, live.value.body.target))
         else Get(bucket, (prefix, LinkdefKey(id)))
  {
    MigrationReplaysWrites(bucket, ms);
    LastLiveIsLastWrite(ms, prefix, id);
    ReplayAt(bucket, WritesOf(ms), (prefix, LinkdefKey(id)));
  }

  /** Keys that no migrated message addresses are left as they were, whether or not the migration finishes. */
  lemma {:induction false} OtherKeysUntouched(bucket: Bucket, ms: seq<OldMessage>, at: Address)
    requires forall m :: m in ms && OutcomeOf(m).Writes? ==> OutcomeOf(m).at != at
    ensures Get(MigrateAll(bucket, ms).0, at) == Get(bucket, at)
    decreases |ms|
  {
    if ms != [] && !OutcomeOf(ms[0]).Raises? {
      assert ms[0] in ms && forall m :: m in ms[1..] ==> m in ms;
      OtherKeysUntouched(MigrateOne(bucket, ms[0]), ms[1..], at);
    }
  }

  /** The last message that moves something to a claims or reference map key, as a record. */
  function LastMoved(ms: seq<OldMessage>, at: Address): (moved: Option<Record>)
    requires !at.1.LinkdefKey?
    ensures moved.Some? ==> exists m :: m in ms && Moves(m, at) && moved.value == RecordOf(m.body)
    ensures moved.None? <==> forall m :: m in ms ==> !Moves(m, at)
  {
    if ms == [] then None
    else if LastMoved(ms[1..], at).Some? then LastMoved(ms[1..], at)
    else if Moves(ms[0], at) then Some(RecordOf(ms[0].body))
    else None
  }

  /** Claims go to the key in their topic, whatever they are; reference maps to the URL in their body. */
  predicate Moves(m: OldMessage, at: Address)
    requires !at.1.LinkdefKey?
  {
    var tokens := Split(m.topic, '.');
    && |tokens| == 4 && tokens[1] == at.0
    && match at.1
       case ClaimsKey(pk) => tokens[2] == "claims" && tokens[3] == pk && !m.body.Garbage?
       case RefmapKey(url) => tokens[2] == "refmap" && m.body.OldRefmap? && m.body.url == url
  }

  lemma {:induction false} LastMovedIsLastWrite(ms: seq<OldMessage>, at: Address)
    requires !at.1.LinkdefKey?
    ensures LastFor(WritesOf(ms), at) == if LastMoved(ms, at).Some? then Some(Message(at, LastMoved(ms, at))) else None
  {
    if ms != [] {
      LastMovedIsLastWrite(ms[1..], at);
      if OutcomeOf(ms[0]).Writes? {
        assert WritesOf(ms)[1..] == WritesOf(ms[1..]);
      }
    }
  }

  /** Each claims and reference map key ends up with the last record moved to it, or keeps what the bucket had. */
  lemma MigratedRecord(bucket: Bucket, ms: seq<OldMessage>, at: Address)
    requires !at.1.LinkdefKey? && forall m :: m in ms ==> Recognised(m)
    ensures Get(MigrateAll(bucket, ms).0, at) == if LastMoved(ms, at).Some? then LastMoved(ms, at) else Get(bucket, at)
  {
    MigrationReplaysWrites(bucket, ms);
    LastMovedIsLastWrite(ms, at);
    ReplayAt(bucket, WritesOf(ms), at);
  }

  /** Whatever is migrated is among what the bucket's readers have to expect. */
  lemma MigratedIsWritable(m: OldMessage)
    requires OutcomeOf(m).Writes?
    ensures Writable(Message(OutcomeOf(m).at.1, Some(OutcomeOf(m).value)))
  {
  }

  /**
   What is migrated is a message every node's loader files as meant, exactly unless a claims topic carried
   something else.
   */
  lemma MigratedIsFaithfulIff(m: OldMessage)
    requires OutcomeOf(m).Writes?
    ensures var out := OutcomeOf(m);
      HandledFaithfully(Message(out.at.1, Some(out.value))) <==> (out.at.1.ClaimsKey? ==> m.body.OldClaims?)
  {
    var out := OutcomeOf(m);
    HandledFaithfullyIff(Message(out.at.1, Some(out.value)));
  }
}
