/** Bucket subjects: how a key is written into one, and how the loader reads it back. */
module Topics {
  import opened Options
  import opened Strings

  const BUCKET_PREFIX := "LATTICEDATA_"

  /** The parts the loader works with; a subject of any other length than three or four tokens has none. */
  datatype TokenMap = TokenMap(key: string, prefix: string, domain: Option<string>)

  datatype RecordKind = ClaimsKind | RefmapKind | LinkdefKind

  function KindPrefix(kind: RecordKind): string {
    match kind
    case ClaimsKind => "CLAIMS_"
    case RefmapKind => "REFMAP_"
    case LinkdefKind => "LINKDEF_"
  }

  function KeyName(kind: RecordKind, id: string): string {
    KindPrefix(kind) + id
  }

  /** The kind and id a key names, as the loader's clauses match it. */
  function ReadKey(key: string): Option<(RecordKind, string)> {
    if KindPrefix(ClaimsKind) <= key then Some((ClaimsKind, key[7..]))
    else if KindPrefix(RefmapKind) <= key then Some((RefmapKind, key[7..]))
    else if KindPrefix(LinkdefKind) <= key then Some((LinkdefKind, key[8..]))
    else None
  }

  function OperationTopic(latticePrefix: string, key: string, domain: Option<string>): string {
    match domain
    case None => "$KV." + BUCKET_PREFIX + latticePrefix + "." + key
    case Some(d) => "$JS." + d + ".API.$KV." + BUCKET_PREFIX + latticePrefix + "." + key
  }

  function Tokenize(topic: string): Option<TokenMap> {
    var tokens := Split(topic, '.');
    if |tokens| == 3 then Some(TokenMap(tokens[2], RemoveAll(tokens[1], BUCKET_PREFIX), None))
    else if |tokens| == 4 then Some(TokenMap(tokens[3], RemoveAll(tokens[2], BUCKET_PREFIX), Some(tokens[1])))
    else None
  }

  lemma KindsReadBack(kind: RecordKind, id: string)
    ensures ReadKey(KeyName(kind, id)) == Some((kind, id))
  {
    var key := KeyName(kind, id);
    assert key[0] == KindPrefix(kind)[0];
    assert key[..|KindPrefix(kind)|] == KindPrefix(kind) && key[|KindPrefix(kind)|..] == id;
  }

  /** The bucket's name is taken off its own token, and nothing else is, when the lattice prefix does not contain it. */
  lemma BucketPrefixComesOff(latticePrefix: string)
    ensures RemoveAll(BUCKET_PREFIX + latticePrefix, BUCKET_PREFIX) == RemoveAll(latticePrefix, BUCKET_PREFIX)
  {
    var token := BUCKET_PREFIX + latticePrefix;
    assert token[0..|BUCKET_PREFIX|] == BUCKET_PREFIX;
    assert OccursAt(token, BUCKET_PREFIX, 0);
    assert IndexOf(token, BUCKET_PREFIX) == Some(0);
    assert token[0 + |BUCKET_PREFIX|..] == latticePrefix;
    assert token[..0] == "";
  }

  lemma TopicTokens(latticePrefix: string, key: string)
    ensures Split(OperationTopic(latticePrefix, key, None), '.')
         == ["$KV"] + Split(BUCKET_PREFIX + latticePrefix, '.') + Split(key, '.')
  {
    var token := BUCKET_PREFIX + latticePrefix;
    assert "$KV." + BUCKET_PREFIX + latticePrefix + "." + key == "$KV" + ['.'] + (token + ['.'] + key);
    SplitWhole("$KV", '.');
    SplitJoined("$KV", '.', token + ['.'] + key);
    SplitJoined(token, '.', key);
  }

  /** A dot in the lattice prefix or the key makes more tokens than a subject without a domain has. */
  lemma DotsAddTokens(latticePrefix: string, key: string)
    ensures var tokens := Split(OperationTopic(latticePrefix, key, None), '.');
      if '.' in latticePrefix || '.' in key then |tokens| > 3
      else tokens == ["$KV", BUCKET_PREFIX + latticePrefix, key]
  {
    var token := BUCKET_PREFIX + latticePrefix;
    TopicTokens(latticePrefix, key);
    SplitPartsAreClean(token, '.');
    SplitPartsAreClean(key, '.');
    assert '.' in token <==> '.' in latticePrefix by {
      assert forall c :: c in token <==> c in BUCKET_PREFIX || c in latticePrefix;
    }
    if '.' !in latticePrefix && '.' !in key {
      SplitWhole(token, '.');
      SplitWhole(key, '.');
    }
  }

  /**
   A key written into a subject without a JetStream domain is read back with the same lattice prefix
   exactly when neither has a '.' and the prefix does not contain the bucket's own name.
   */
  lemma TopicReadsBackIff(latticePrefix: string, key: string)
    ensures Tokenize(OperationTopic(latticePrefix, key, None)) == Some(TokenMap(key, latticePrefix, None))
       <==> '.' !in latticePrefix && '.' !in key && !Occurs(latticePrefix, BUCKET_PREFIX)
  {
    DotsAddTokens(latticePrefix, key);
    BucketPrefixComesOff(latticePrefix);
    RemoveAllShrinks(latticePrefix, BUCKET_PREFIX);
  }

  /** So the loader updates the record, of the kind and id and in the lattice, that the writer meant. */
  lemma RecordReadsBack(latticePrefix: string, kind: RecordKind, id: string)
    requires '.' !in latticePrefix && '.' !in id && !Occurs(latticePrefix, BUCKET_PREFIX)
    ensures var read := Tokenize(OperationTopic(latticePrefix, KeyName(kind, id), None));
      read.Some? && read.value.prefix == latticePrefix && ReadKey(read.value.key) == Some((kind, id))
  {
    assert '.' !in KindPrefix(kind);
    TopicReadsBackIff(latticePrefix, KeyName(kind, id));
    KindsReadBack(kind, id);
  }

  /** A subject that still carries its JetStream domain's API prefix is not understood. */
  lemma DomainTopicsAreNotRead(latticePrefix: string, key: string, domain: string)
    ensures Tokenize(OperationTopic(latticePrefix, key, Some(domain))) == None
  {
    var token := BUCKET_PREFIX + latticePrefix;
    var last := token + ['.'] + key;
    var tail := "API" + ['.'] + ("$KV" + ['.'] + last);
    assert OperationTopic(latticePrefix, key, Some(domain)) == "$JS" + ['.'] + (domain + ['.'] + tail);
    SplitWhole("$JS", '.');
    SplitWhole("API", '.');
    SplitWhole("$KV", '.');
    SplitJoined("$JS", '.', domain + ['.'] + tail);
    SplitJoined(domain, '.', tail);
    SplitJoined("API", '.', "$KV" + ['.'] + last);
    SplitJoined("$KV", '.', last);
    SplitJoined(token, '.', key);
  }
}
