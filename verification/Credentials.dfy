/**
 Registry credentials kept by a host: entries are filed under the server their key names, and looked up by image
 reference.
 */
module Credentials {
  import opened Options
  import opened Strings

  datatype Registry = Bindle | Oci

  /** An entry as it arrives: named strings. */
  type Entry = map<string, string>

  function TypeName(t: Registry): string {
    match t case Bindle => "bindle" case Oci => "oci"
  }

  /** The kinds of registry a server name can be extracted for; any other name crashes the host's process. */
  function TypeOf(name: string): Option<Registry> {
    if name == "bindle" then Some(Bindle) else if name == "oci" then Some(Oci) else None
  }

  const SCHEMES: seq<string> := ["bindle", "oci", "http", "https"]

  function StripEach(schemes: seq<string>, s: string): string {
    if schemes == [] then s else StripEach(schemes[1..], AfterLast(s, schemes[0] + "://"))
  }

  function StripScheme(s: string): string {
    StripEach(SCHEMES, s)
  }

  function NonEmpty(parts: seq<string>): seq<string> {
    if parts == [] then [] else (if parts[0] == "" then [] else [parts[0]]) + NonEmpty(parts[1..])
  }

  function LastOf(parts: seq<string>): Option<string> {
    if parts == [] then None else Some(parts[|parts| - 1])
  }

  /** A bindle reference without a non-empty part has no server. */
  function ExtractServer(t: Registry, s: string): Option<string> {
    match t
    case Bindle => LastOf(NonEmpty(Split(StripScheme(s), '@')))
    case Oci => Some(Split(StripScheme(s), '/')[0])
  }

  // ---------- normal forms ----------

  ghost predicate NoScheme(schemes: seq<string>, s: string) {
    forall i :: 0 <= i < |schemes| ==> !Occurs(s, schemes[i] + "://")
  }

  lemma {:induction false} StripEachStrips(schemes: seq<string>, s: string) returns (at: nat)
    ensures at <= |s| && StripEach(schemes, s) == s[at..] && NoScheme(schemes, s[at..])
    decreases |schemes|
  {
    if schemes == [] {
      at := 0;
    } else {
      var first := AfterLastIsSuffix(s, schemes[0] + "://");
      var rest := StripEachStrips(schemes[1..], s[first..]);
      at := first + rest;
      assert s[first..][rest..] == s[at..];
      if Occurs(s[at..], schemes[0] + "://") {
        assert s[first..][rest..|s| - first] == s[at..];
        OccursInside(s[first..], rest, |s| - first, schemes[0] + "://");
      }
      assert forall i :: 0 < i < |schemes| ==> schemes[i] == schemes[1..][i - 1];
    }
  }

  lemma {:induction false} StripEachKeeps(schemes: seq<string>, s: string)
    requires NoScheme(schemes, s)
    ensures StripEach(schemes, s) == s
    decreases |schemes|
  {
    if schemes != [] {
      assert !Occurs(s, schemes[0] + "://");
      assert IndexOf(s, schemes[0] + "://").None?;
      assert forall i :: 0 <= i < |schemes| - 1 ==> schemes[1..][i] == schemes[i + 1];
      StripEachKeeps(schemes[1..], s);
    }
  }

  /** Any stretch of a stripped string is left alone by stripping. */
  lemma InsideStripped(s: string, lo: nat, hi: nat)
    requires lo <= hi <= |StripScheme(s)|
    ensures StripScheme(StripScheme(s)[lo..hi]) == StripScheme(s)[lo..hi]
  {
    var at := StripEachStrips(SCHEMES, s);
    var stripped := StripScheme(s);
    forall i | 0 <= i < |SCHEMES| ensures !Occurs(stripped[lo..hi], SCHEMES[i] + "://") {
      if Occurs(stripped[lo..hi], SCHEMES[i] + "://") {
        OccursInside(stripped, lo, hi, SCHEMES[i] + "://");
      }
    }
    StripEachKeeps(SCHEMES, stripped[lo..hi]);
  }

  lemma StripSchemeIsIdempotent(s: string)
    ensures StripScheme(StripScheme(s)) == StripScheme(s)
  {
    InsideStripped(s, 0, |StripScheme(s)|);
    assert StripScheme(s)[0..|StripScheme(s)|] == StripScheme(s);
  }

  lemma {:induction false} NonEmptyParts(parts: seq<string>)
    ensures forall p :: p in NonEmpty(parts) ==> p in parts && p != ""
    decreases |parts|
  {
    if parts != [] {
      NonEmptyParts(parts[1..]);
    }
  }

  /** A part of a stripped string has no scheme to strip and no separator to split at. */
  lemma PartIsNormal(s: string, sep: char, i: nat)
    requires i < |Split(StripScheme(s), sep)|
    ensures var part := Split(StripScheme(s), sep)[i]; StripScheme(part) == part && Split(part, sep) == [part]
  {
    var stripped, part := StripScheme(s), Split(StripScheme(s), sep)[i];
    var at := SplitPartsAreInside(stripped, sep, i);
    InsideStripped(s, at, at + |part|);
    SplitPartsAreClean(stripped, sep);
    SplitWhole(part, sep);
  }

  /** A server's name is the server of itself. */
  lemma ExtractServerIsIdempotent(t: Registry, s: string)
    ensures ExtractServer(t, s).Some? ==> ExtractServer(t, ExtractServer(t, s).value) == ExtractServer(t, s)
  {
    match t
    case Oci => PartIsNormal(s, '/', 0);
    case Bindle =>
      var parts := Split(StripScheme(s), '@');
      NonEmptyParts(parts);
      if ExtractServer(t, s).Some? {
        var server := ExtractServer(t, s).value;
        assert server in NonEmpty(parts);
        var i :| 0 <= i < |parts| && parts[i] == server;
        PartIsNormal(s, '@', i);
        assert server != "" && [server][1..] == [];
        assert NonEmpty([server]) == [server];
      }
  }

  // ---------- a scheme in front ----------

  lemma AfterLastOfOwn(p: string, s: string)
    requires p != ""
    ensures AfterLast(p + s, p) == AfterLast(s, p)
  {
    assert OccursAt(p + s, p, 0);
    assert IndexOf(p + s, p) == Some(0);
    assert (p + s)[0 + |p|..] == s;
  }

  lemma OccursBehind(front: string, s: string, p: string, i: int)
    ensures i >= |front| ==> (OccursAt(front + s, p, i) <==> OccursAt(s, p, i - |front|))
  {
    var whole := front + s;
    if |front| <= i <= |whole| - |p| {
      assert whole[i..i + |p|] == s[i - |front|..i - |front| + |p|];
    }
  }

  lemma IndexOfBehind(front: string, s: string, p: string)
    requires forall i :: 0 <= i < |front| ==> !OccursAt(front + s, p, i)
    ensures IndexOf(front + s, p) == if IndexOf(s, p).Some? then Some(|front| + IndexOf(s, p).value) else None
  {
    var here, there := IndexOf(front + s, p), IndexOf(s, p);
    if here.Some? {
      OccursBehind(front, s, p, here.value);
    }
    if there.Some? {
      OccursBehind(front, s, p, |front| + there.value);
    }
  }

  lemma AfterLastOfSameRest(a: string, b: string, p: string, i: nat, j: nat)
    requires p != "" && IndexOf(a, p) == Some(i) && IndexOf(b, p) == Some(j) && a[i + |p|..] == b[j + |p|..]
    ensures AfterLast(a, p) == AfterLast(b, p)
  {
  }

  lemma AfterLastOfNone(s: string, p: string)
    requires p != "" && IndexOf(s, p).None?
    ensures AfterLast(s, p) == s
  {
  }

  lemma SameTail(front: string, s: string, i: nat)
    requires i <= |s|
    ensures (front + s)[|front| + i..] == s[i..]
  {
  }

  /** Something in front that no occurrence of the pattern begins in stays, or goes with the rest. */
  lemma AfterLastOfOther(front: string, s: string, p: string)
    requires p != "" && forall i :: 0 <= i < |front| ==> !OccursAt(front + s, p, i)
    ensures AfterLast(front + s, p) == AfterLast(s, p) || (AfterLast(front + s, p) == front + s && AfterLast(s, p) == s)
  {
    IndexOfBehind(front, s, p);
    match IndexOf(s, p)
    case None =>
      AfterLastOfNone(s, p);
      AfterLastOfNone(front + s, p);
    case Some(i) =>
      SameTail(front, s, i + |p|);
      assert |front| + (i + |p|) == |front| + i + |p|;
      AfterLastOfSameRest(front + s, s, p, |front| + i, i);
  }

  lemma OccurrenceHasCharacter(s: string, p: string, i: int, k: nat)
    requires k < |p|
    ensures OccursAt(s, p, i) ==> s[i + k] == p[k]
  {
    if OccursAt(s, p, i) {
      assert s[i..i + |p|][k] == s[i + k];
    }
  }

  /** No scheme's pattern begins inside another that is stripped later. */
  lemma LaterSchemeHidesNone(scheme: string, earlier: string, s: string, i: nat)
    requires (earlier == "bindle" && scheme in ["oci", "http", "https"]) || (earlier == "oci" &&
      scheme in ["http", "https"])
             || (earlier == "http" && scheme == "https")
    requires i < |scheme + "://"|
    ensures !OccursAt(scheme + "://" + s, earlier + "://", i)
  {
    OccurrenceHasCharacter(scheme + "://" + s, earlier + "://", i, 0);
    OccurrenceHasCharacter(scheme + "://" + s, earlier + "://", i, 4);
  }

  lemma {:induction false} StripEachIgnores(schemes: seq<string>, k: nat, s: string)
    requires k < |schemes|
    requires forall j, t, i: nat :: 0 <= j < k && i < |schemes[k] + "://"| ==>
      !OccursAt(schemes[k] + "://" + t, schemes[j] + "://", i)
    ensures StripEach(schemes, schemes[k] + "://" + s) == StripEach(schemes, s)
    decreases |schemes|
  {
    var front := schemes[k] + "://";
    if k == 0 {
      AfterLastOfOwn(front, s);
    } else {
      var p := schemes[0] + "://";
      AfterLastOfOther(front, s, p);
      assert schemes[1..][k - 1] == schemes[k];
      StripEachIgnores(schemes[1..], k - 1, s);
    }
  }

  /** A leading scheme never changes the server. */
  lemma SchemeDoesNotMatter(t: Registry, scheme: string, s: string)
    requires scheme in SCHEMES
    ensures StripScheme(scheme + "://" + s) == StripScheme(s)
    ensures ExtractServer(t, scheme + "://" + s) == ExtractServer(t, s)
  {
    var k :| 0 <= k < |SCHEMES| && SCHEMES[k] == scheme;
    forall j, u, i: nat | 0 <= j < k && i < |scheme + "://"|
      ensures !OccursAt(scheme + "://" + u, SCHEMES[j] + "://", i)
    {
      LaterSchemeHidesNone(scheme, SCHEMES[j], u, i);
    }
    StripEachIgnores(SCHEMES, k, s);
  }

  // ---------- which server it is ----------

  /** An image reference's server is what comes before its first '/', behind any of the schemes. */
  lemma OciServerIsHost(scheme: string, host: string, path: string)
    requires scheme in SCHEMES && '/' !in host && NoScheme(SCHEMES, host + "/" + path)
    ensures ExtractServer(Oci, host + "/" + path) == Some(host)
    ensures ExtractServer(Oci, scheme + "://" + (host + "/" + path)) == Some(host)
  {
    StripEachKeeps(SCHEMES, host + "/" + path);
    SplitJoined(host, '/', path);
    SplitWhole(host, '/');
    assert host + "/" + path == host + ['/'] + path;
    SchemeDoesNotMatter(Oci, scheme, host + "/" + path);
  }

  lemma {:induction false} NonEmptyAppended(parts: seq<string>, last: string)
    requires last != ""
    ensures NonEmpty(parts + [last]) == NonEmpty(parts) + [last]
    decreases |parts|
  {
    if parts == [] {
      assert parts + [last] == [last] && [last][1..] == [];
    } else {
      NonEmptyAppended(parts[1..], last);
      assert (parts + [last])[1..] == parts[1..] + [last];
    }
  }

  /** A bindle reference's server is what comes after its last '@', behind any of the schemes. */
  lemma BindleServerIsLast(scheme: string, name: string, server: string)
    requires scheme in SCHEMES && '@' !in server && server != "" && NoScheme(SCHEMES, name + "@" + server)
    ensures ExtractServer(Bindle, name + "@" + server) == Some(server)
    ensures ExtractServer(Bindle, scheme + "://" + (name + "@" + server)) == Some(server)
  {
    StripEachKeeps(SCHEMES, name + "@" + server);
    SplitJoined(name, '@', server);
    SplitWhole(server, '@');
    assert name + "@" + server == name + ['@'] + server;
    NonEmptyAppended(Split(name, '@'), server);
    SchemeDoesNotMatter(Bindle, scheme, name + "@" + server);
  }

  // ---------- puts and lookups ----------

  /** What is filed, by server; a host may have no supplemental configuration at all. */
  type Filed = map<Option<string>, Entry>
  type State = Option<Filed>

  predicate Accepted(e: Entry) {
    "registryType" in e && ("username" in e || "password" in e || "token" in e)
  }

  /** The server an accepted entry is filed under. */
  function ServerOf(key: string, e: Entry): Option<string>
    requires Accepted(e) && TypeOf(e["registryType"]).Some?
  {
    ExtractServer(TypeOf(e["registryType"]).value, key)
  }

  /** The map put, in the order it is gone through. */
  type Listing = seq<(string, Entry)>

  predicate Fileable(listing: Listing) {
    forall kv :: kv in listing && Accepted(kv.1) ==> TypeOf(kv.1["registryType"]).Some?
  }

  function FileAll(listing: Listing): Filed
    requires Fileable(listing)
  {
    if listing == [] then map[]
    else
      var before, (key, e) := FileAll(listing[..|listing| - 1]), listing[|listing| - 1];
      if Accepted(e) then before[ServerOf(key, e) := e] else before
  }

  datatype Op = Put(listing: Listing) | Clear

  predicate Survives(op: Op) {
    op.Put? ==> Fileable(op.listing)
  }

  function Apply(state: State, op: Op): State
    requires Survives(op)
  {
    match op
    case Put(listing) => Some((if state.Some? then state.value else map[]) + FileAll(listing))
    case Clear => if state.Some? then Some(map[]) else None
  }

  function Run(state: State, ops: seq<Op>): State
    requires forall op :: op in ops ==> Survives(op)
  {
    if ops == [] then state
    else Apply(Run(state, ops[..|ops| - 1]), ops[|ops| - 1])
  }

  function GetCreds(state: State, t: Registry, ref: string): Option<Entry> {
    if state.None? then None
    else
      var server := ExtractServer(t, ref);
      var creds: Entry := if server in state.value then state.value[server] else map[];
      if "registryType" in creds && creds["registryType"] == TypeName(t) then Some(creds) else None
  }

  /** The last accepted entry for a server. */
  function LastIn(listing: Listing, server: Option<string>): Option<Entry>
    requires Fileable(listing)
  {
    if listing == [] then None
    else
      var (key, e) := listing[|listing| - 1];
      if Accepted(e) && ServerOf(key, e) == server then Some(e) else LastIn(listing[..|listing| - 1], server)
  }

  /** The last accepted entry for a server since credentials were last cleared. */
  function LastPut(ops: seq<Op>, server: Option<string>): Option<Entry>
    requires forall op :: op in ops ==> Survives(op)
  {
    if ops == [] then None
    else
      var op, before := ops[|ops| - 1], ops[..|ops| - 1];
      assert Survives(op);
      match op
      case Clear => None
      case Put(listing) => if LastIn(listing, server).Some? then LastIn(listing, server) else LastPut(before, server)
  }

  lemma {:induction false} FiledIsLastIn(listing: Listing, server: Option<string>)
    requires Fileable(listing)
    ensures Get(FileAll(listing), server) == LastIn(listing, server)
    decreases |listing|
  {
    if listing != [] {
      FiledIsLastIn(listing[..|listing| - 1], server);
    }
  }

  function CredentialsOf(state: State): Filed {
    if state.Some? then state.value else map[]
  }

  lemma {:induction false} StateIsLastPut(ops: seq<Op>, server: Option<string>)
    requires forall op :: op in ops ==> Survives(op)
    ensures Get(CredentialsOf(Run(None, ops)), server) == LastPut(ops, server)
    decreases |ops|
  {
    if ops != [] {
      var before, op := ops[..|ops| - 1], ops[|ops| - 1];
      assert Survives(op);
      StateIsLastPut(before, server);
      if op.Put? {
        FiledIsLastIn(op.listing, server);
      }
    }
  }

  /**
   A lookup gives the last entry accepted for the reference's server, if it is for the kind of registry asked
   about.
   */
  lemma LookupIsLastAccepted(ops: seq<Op>, t: Registry, ref: string)
    requires forall op :: op in ops ==> Survives(op)
    ensures var last := LastPut(ops, ExtractServer(t, ref));
      GetCreds(Run(None, ops), t, ref) ==
      if last.Some? && "registryType" in last.value && last.value["registryType"] == TypeName(t) then last else None
  {
    StateIsLastPut(ops, ExtractServer(t, ref));
  }

  /** Entries for other servers make no difference, whatever was put before. */
  lemma OtherServersDoNotMatter(state: State, listing: Listing, t: Registry, ref: string)
    requires Fileable(listing)
    requires forall kv :: kv in listing && Accepted(kv.1) ==> ServerOf(kv.0, kv.1) != ExtractServer(t, ref)
    ensures GetCreds(Apply(state, Put(listing)), t, ref) == GetCreds(state, t, ref)
  {
    NothingFiled(listing, ExtractServer(t, ref));
    FiledIsLastIn(listing, ExtractServer(t, ref));
  }

  lemma {:induction false} NothingFiled(listing: Listing, server: Option<string>)
    requires Fileable(listing)
    requires forall kv :: kv in listing && Accepted(kv.1) ==> ServerOf(kv.0, kv.1) != server
    ensures LastIn(listing, server).None?
    decreases |listing|
  {
    if listing != [] {
      assert listing[|listing| - 1] in listing;
      NothingFiled(listing[..|listing| - 1], server);
    }
  }

  /** No two accepted entries are for one server. */
  ghost predicate ServersDiffer(listing: Listing)
    requires Fileable(listing)
  {
    forall a, b :: a in listing && b in listing && Accepted(a.1) && Accepted(b.1) && a != b ==>
      ServerOf(a.0, a.1) != ServerOf(b.0, b.1)
  }

  lemma {:induction false} OnlyOneFits(listing: Listing, kv: (string, Entry))
    requires Fileable(listing) && ServersDiffer(listing) && kv in listing && Accepted(kv.1)
    ensures LastIn(listing, ServerOf(kv.0, kv.1)) == Some(kv.1)
    decreases |listing|
  {
    if listing[|listing| - 1] != kv {
      OnlyOneFits(listing[..|listing| - 1], kv);
    }
  }

  lemma {:induction false} FiledComesFrom(listing: Listing, server: Option<string>) returns (kv: (string, Entry))
    requires Fileable(listing) && LastIn(listing, server).Some?
    ensures kv in listing && Accepted(kv.1) && ServerOf(kv.0, kv.1) == server && LastIn(listing, server) == Some(kv.1)
    decreases |listing|
  {
    var last := listing[|listing| - 1];
    if Accepted(last.1) && ServerOf(last.0, last.1) == server {
      kv := last;
    } else {
      kv := FiledComesFrom(listing[..|listing| - 1], server);
    }
  }

  /** The order a map is gone through makes no difference when its keys name different servers. */
  lemma OrderDoesNotMatter(a: Listing, b: Listing)
    requires Fileable(a) && Fileable(b) && ServersDiffer(a)
    requires forall kv :: kv in a <==> kv in b
    ensures FileAll(a) == FileAll(b)
  {
    forall server ensures Get(FileAll(a), server) == Get(FileAll(b), server) {
      FiledIsLastIn(a, server);
      FiledIsLastIn(b, server);
      if LastIn(a, server).Some? {
        var kv := FiledComesFrom(a, server);
        OnlyOneFits(b, kv);
      } else if LastIn(b, server).Some? {
        var kv := FiledComesFrom(b, server);
        OnlyOneFits(a, kv);
      }
    }
    SameRows(FileAll(a), FileAll(b));
  }

  lemma SameRows(m: Filed, n: Filed)
    requires forall k :: Get(m, k) == Get(n, k)
    ensures m == n
  {
    forall k ensures k in m <==> k in n {
      assert Get(m, k) == Get(n, k);
    }
    forall k | k in m ensures m[k] == n[k] {
      assert Get(m, k) == Get(n, k);
    }
  }
}
