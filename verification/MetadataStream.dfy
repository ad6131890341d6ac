/**
 The stream behind a key-value bucket: writes and purges in order. The bucket keeps one message per key,
 a reader may miss any message that a later one for the same key replaces, and a new reader is
 started on the last message of each key.
 */
module MetadataStream {
  import opened Options

  /** A value for a key; no body is a purge. */
  datatype Message<K, V> = Message(key: K, body: Option<V>)

  function Apply<K, V>(t: map<K, V>, m: Message<K, V>): map<K, V> {
    match m.body
    case Some(v) => t[m.key := v]
    case None => t - {m.key}
  }

  function Replay<K, V>(t: map<K, V>, ms: seq<Message<K, V>>): map<K, V>
    decreases |ms|
  {
    if ms == [] then t else Replay(Apply(t, ms[0]), ms[1..])
  }

  function LastFor<K(==), V>(ms: seq<Message<K, V>>, k: K): (last: Option<Message<K, V>>)
    ensures last.Some? ==> last.value.key == k && last.value in ms
    ensures last.None? <==> forall m :: m in ms ==> m.key != k
  {
    if ms == [] then None
    else
      var rest := LastFor(ms[1..], k);
      if rest.Some? then rest else if ms[0].key == k then Some(ms[0]) else None
  }

  lemma {:induction false} LastForAppended<K, V>(a: seq<Message<K, V>>, b: seq<Message<K, V>>, k: K)
    ensures LastFor(a + b, k) == if LastFor(b, k).Some? then LastFor(b, k) else LastFor(a, k)
  {
    if a == [] {
      assert a + b == b;
    } else {
      LastForAppended(a[1..], b, k);
      assert (a + b)[1..] == a[1..] + b;
    }
  }

  /** A replayed table holds, under each key, the body of the last message for it. */
  lemma {:induction false} ReplayAt<K, V>(t: map<K, V>, ms: seq<Message<K, V>>, k: K)
    ensures Get(Replay(t, ms), k) == if LastFor(ms, k).Some? then LastFor(ms, k).value.body else Get(t, k)
    decreases |ms|
  {
    if ms != [] {
      ReplayAt(Apply(t, ms[0]), ms[1..], k);
    }
  }

  lemma SameLastSameReplay<K(!new), V>(t: map<K, V>, a: seq<Message<K, V>>, b: seq<Message<K, V>>)
    requires forall k :: LastFor(a, k) == LastFor(b, k)
    ensures Replay(t, a) == Replay(t, b)
  {
    var x, y := Replay(t, a), Replay(t, b);
    forall k ensures (k in x <==> k in y) && (k in x ==> x[k] == y[k]) {
      ReplayAt(t, a, k);
      ReplayAt(t, b, k);
    }
    assert x.Keys == y.Keys;
    assert x == y;
  }

  // ---------- compaction ----------

  /** `kept` is `full` with any number of messages left out, each replaced later by one for the same key. */
  predicate IsCompaction<K(==), V(==)>(full: seq<Message<K, V>>, kept: seq<Message<K, V>>)
    decreases |full|
  {
    if full == [] then kept == []
    else
      || (kept != [] && kept[0] == full[0] && IsCompaction(full[1..], kept[1..]))
      || (LastFor(full[1..], full[0].key).Some? && IsCompaction(full[1..], kept))
  }

  lemma {:induction false} CompactionKeepsLast<K, V>(full: seq<Message<K, V>>, kept: seq<Message<K, V>>, k: K)
    requires IsCompaction(full, kept)
    ensures LastFor(kept, k) == LastFor(full, k)
    decreases |full|
  {
    if full != [] {
      if kept != [] && kept[0] == full[0] && IsCompaction(full[1..], kept[1..]) {
        CompactionKeepsLast(full[1..], kept[1..], k);
      } else {
        CompactionKeepsLast(full[1..], kept, k);
      }
    }
  }

  /** Whatever superseded messages a reader misses, it ends with the table the full history gives. */
  lemma CompactionKeepsReplay<K(!new), V>(t: map<K, V>, full: seq<Message<K, V>>, kept: seq<Message<K, V>>)
    requires IsCompaction(full, kept)
    ensures Replay(t, kept) == Replay(t, full)
  {
    forall k ensures LastFor(kept, k) == LastFor(full, k) {
      CompactionKeepsLast(full, kept, k);
    }
    SameLastSameReplay(t, kept, full);
  }

  predicate Superseded<K(==), V>(ms: seq<Message<K, V>>, i: int) {
    0 <= i < |ms| && LastFor(ms[i + 1..], ms[i].key).Some?
  }

  lemma {:induction false} NothingDropped<K, V>(ms: seq<Message<K, V>>)
    ensures IsCompaction(ms, ms)
  {
    if ms != [] {
      NothingDropped(ms[1..]);
    }
  }

  lemma {:induction false} DropIsCompaction<K, V>(ms: seq<Message<K, V>>, i: nat)
    requires Superseded(ms, i)
    ensures IsCompaction(ms, ms[..i] + ms[i + 1..])
    decreases i
  {
    var kept := ms[..i] + ms[i + 1..];
    if i == 0 {
      NothingDropped(ms[1..]);
      assert kept == ms[1..];
    } else {
      assert ms[1..][i..] == ms[i + 1..];
      DropIsCompaction(ms[1..], i - 1);
      assert kept[1..] == ms[1..][..i - 1] + ms[1..][i..];
    }
  }

  /** What a new reader with delivery policy "last per subject" is sent. */
  function LastPerSubject<K(==), V>(ms: seq<Message<K, V>>): seq<Message<K, V>> {
    if ms == [] then []
    else if LastFor(ms[1..], ms[0].key).Some? then LastPerSubject(ms[1..])
    else [ms[0]] + LastPerSubject(ms[1..])
  }

  lemma {:induction false} LastPerSubjectIsCompaction<K, V>(ms: seq<Message<K, V>>)
    ensures IsCompaction(ms, LastPerSubject(ms))
  {
    if ms != [] {
      LastPerSubjectIsCompaction(ms[1..]);
    }
  }

  /** No compaction is shorter than one message per key. */
  lemma {:induction false} LastPerSubjectIsShortest<K, V>(full: seq<Message<K, V>>, kept: seq<Message<K, V>>)
    requires IsCompaction(full, kept)
    ensures |LastPerSubject(full)| <= |kept|
    decreases |full|
  {
    if full != [] {
      if kept != [] && kept[0] == full[0] && IsCompaction(full[1..], kept[1..]) {
        LastPerSubjectIsShortest(full[1..], kept[1..]);
      } else {
        LastPerSubjectIsShortest(full[1..], kept);
      }
    }
  }

  /** The stream's own upkeep: a new message pushes out the one its key had. */
  function Retain<K(==), V>(stream: seq<Message<K, V>>, m: Message<K, V>): seq<Message<K, V>> {
    Without(stream, m.key) + [m]
  }

  function Without<K(==), V>(ms: seq<Message<K, V>>, k: K): seq<Message<K, V>> {
    if ms == [] then [] else (if ms[0].key == k then [] else [ms[0]]) + Without(ms[1..], k)
  }

  /** Pushing out one message at a time keeps exactly the last message of each key of the whole history. */
  lemma {:induction false} RetainIsLastPerSubject<K, V>(log: seq<Message<K, V>>, m: Message<K, V>)
    ensures Retain(LastPerSubject(log), m) == LastPerSubject(log + [m])
  {
    if log == [] {
      assert log + [m] == [m];
    } else {
      RetainIsLastPerSubject(log[1..], m);
      assert (log + [m])[1..] == log[1..] + [m];
      LastForAppended(log[1..], [m], log[0].key);
      var rest := LastPerSubject(log[1..]);
      assert ([log[0]] + rest)[1..] == rest;
      if log[0].key == m.key {
        assert Without([log[0]] + rest, m.key) == Without(rest, m.key);
      } else {
        assert Without([log[0]] + rest, m.key) + [m] == [log[0]] + (Without(rest, m.key) + [m]);
      }
    }
  }
}
