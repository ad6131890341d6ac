/**
 The file cache of OCI images: a content file and a digest file for each image reference, under a name
 that several references may share. The digest the registry serves decides whether a cached file is used.
 */
module OciCache {
  import opened Options
  import opened Strings

  /** Files by path; a file's bytes are written as characters. */
  type Files = map<string, string>

  datatype Image = Image(layers: seq<string>, digest: Option<string>)

  /** What a registry serves for a reference at one moment. */
  datatype Served = Served(manifestDigest: string, image: Image)

  /** References it does not list (or that do not parse, or that it fails to serve) are errors. */
  type Registry = map<string, Served>

  const CACHE_DIR := "/tmp/wasmcloud_ocicache/"

  function Mangle(img: string): string {
    ReplaceChar(ReplaceChar(ReplaceChar(img, ':', '_'), '/', '_'), '.', '_')
  }

  function CachedFilepath(img: string): string {
    CACHE_DIR + Mangle(img) + ".bin"
  }

  function DigestFilepath(img: string): string {
    CACHE_DIR + Mangle(img) + ".digest"
  }

  predicate EndsWith(s: string, suffix: string) {
    |suffix| <= |s| && s[|s| - |suffix|..] == suffix
  }

  function Content(layers: seq<string>): string {
    if layers == [] then "" else layers[0] + Content(layers[1..])
  }

  /** Writes the content file, and the digest file if the image came with a digest. */
  function StoreImage(files: Files, img: string, image: Image): Files {
    var stored := files[CachedFilepath(img) := Content(image.layers)];
    match image.digest
    case None => stored
    case Some(d) => stored[DigestFilepath(img) := d]
  }

  function FileDigest(files: Files, img: string): string {
    if DigestFilepath(img) in files then files[DigestFilepath(img)] else ""
  }

  predicate MustPull(files: Files, img: string, manifestDigest: string) {
    || CachedFilepath(img) !in files
    || manifestDigest == "" || FileDigest(files, img) == "" || FileDigest(files, img) != manifestDigest
  }

  datatype Fetched = Fetched(files: Files, path: Result<string>)

  /** One fetch; the registry may change between the manifest request and the pull. */
  function Fetch(files: Files, reference: string, allowLatest: bool, atManifest: Registry, atPull: Registry): Fetched {
    var img := Lower(reference);
    if !allowLatest && EndsWith(img, ":latest") then Fetched(files, Err("latest"))
    else if CachedFilepath(img) !in files then Pull(files, img, atPull)
    else if img !in atManifest then Fetched(files, Err("manifest"))
    else if MustPull(files, img, atManifest[img].manifestDigest) then Pull(files, img, atPull)
    else Fetched(files, Ok(CachedFilepath(img)))
  }

  function Pull(files: Files, img: string, atPull: Registry): Fetched {
    if img in atPull
    then Fetched(StoreImage(files, img, atPull[img].image), Ok(CachedFilepath(img)))
    else Fetched(files, Err("pull"))
  }

  // ---------- the cache in place ----------

  class Cache {
    var files: Files

    constructor (existing: Files)
      ensures files == existing
    {
      files := existing;
    }

    method CacheOciImage(image: Image, cacheFile: string, digestFile: string)
      requires cacheFile != digestFile
      modifies this
      ensures image.digest.None? ==> files == old(files)[cacheFile := Content(image.layers)]
      ensures image.digest.Some? ==>
        files == old(files)[cacheFile := Content(image.layers)][digestFile := image.digest.value]
    {
      files := files[cacheFile := ""];
      var content := "";
      for i := 0 to |image.layers|
        invariant content + Content(image.layers[i..]) == Content(image.layers)
        invariant files == old(files)[cacheFile := ""]
      {
        content := content + image.layers[i];
      }
      assert content == content + Content(image.layers[|image.layers|..]);
      files := files[cacheFile := content];
      if image.digest.Some? {
        files := files[digestFile := ""];
        files := files[digestFile := image.digest.value];
      }
    }

    method FetchOciPath(reference: string, allowLatest: bool, atManifest: Registry, atPull: Registry)
      returns (path: Result<string>)
      modifies this
      ensures Fetched(files, path) == Fetch(old(files), reference, allowLatest, atManifest, atPull)
    {
      var img := Lower(reference);
      if !allowLatest && EndsWith(img, ":latest") {
        return Err("latest");
      }
      var cacheFile, digestFile := CachedFilepath(img), DigestFilepath(img);
      FilesOfTwoKinds(img, img);
      if cacheFile !in files {
        if img !in atPull {
          return Err("pull");
        }
        CacheOciImage(atPull[img].image, cacheFile, digestFile);
      } else {
        if img !in atManifest {
          return Err("manifest");
        }
        var ociDigest := atManifest[img].manifestDigest;
        var fileDigest := if digestFile in files then files[digestFile] else "";
        if ociDigest == "" || fileDigest == "" || fileDigest != ociDigest {
          if img !in atPull {
            return Err("pull");
          }
          CacheOciImage(atPull[img].image, cacheFile, digestFile);
        }
      }
      return Ok(cacheFile);
    }
  }

  // ---------- what a cached file holds ----------

  /** No reference's content file is any reference's digest file. */
  lemma FilesOfTwoKinds(a: string, b: string)
    ensures CachedFilepath(a) != DigestFilepath(b)
  {
    var x, y := CachedFilepath(a), DigestFilepath(b);
    assert x[|x| - 1] == 'n' && y[|y| - 1] == 't';
  }

  /** Two references share a content file exactly when they share a digest file. */
  lemma FilesAreShared(a: string, b: string)
    ensures CachedFilepath(a) == CachedFilepath(b) <==> Mangle(a) == Mangle(b)
    ensures DigestFilepath(a) == DigestFilepath(b) <==> Mangle(a) == Mangle(b)
  {
    var ca, cb, da, db := CachedFilepath(a), CachedFilepath(b), DigestFilepath(a), DigestFilepath(b);
    var n := |CACHE_DIR|;
    assert ca[n..|ca| - 4] == Mangle(a) && cb[n..|cb| - 4] == Mangle(b);
    assert da[n..|da| - 7] == Mangle(a) && db[n..|db| - 7] == Mangle(b);
  }

  /** Names do collide: these two references are one file. */
  lemma NamesCollide()
    ensures CachedFilepath("host.io/echo:1.0") == CachedFilepath("host.io/echo_1:0")
  {
    assert Mangle("host.io/echo:1.0") == "host_io_echo_1_0" == Mangle("host.io/echo_1:0");
  }

  /** `named` says which content each digest stands for; a registry is honest when its digests do not lie. */
  ghost predicate Honest(registry: Registry, named: string -> string) {
    forall img :: img in registry ==>
      && (registry[img].manifestDigest != "" ==>
        Content(registry[img].image.layers) == named(registry[img].manifestDigest))
      && registry[img].image.digest == Some(registry[img].manifestDigest)
  }

  /** A digest file that is not empty has, beside it, the content it stands for. */
  ghost predicate Matching(files: Files, named: string -> string) {
    forall img :: FileDigest(files, img) != "" && CachedFilepath(img) in files ==>
      files[CachedFilepath(img)] == named(FileDigest(files, img))
  }

  /** Exactly when a store keeps the digest files matching, for an image that may have come without a digest. */
  lemma StoreKeepsMatchingIff(files: Files, named: string -> string, img: string, image: Image)
    requires Matching(files, named)
    ensures var digest := if image.digest.Some? then image.digest.value else FileDigest(files, img);
      Matching(StoreImage(files, img, image), named) <==> digest == "" || Content(image.layers) == named(digest)
  {
    var files' := StoreImage(files, img, image);
    FilesOfTwoKinds(img, img);
    var digest := if image.digest.Some? then image.digest.value else FileDigest(files, img);
    assert FileDigest(files', img) == digest && files'[CachedFilepath(img)] == Content(image.layers);
    if digest == "" || Content(image.layers) == named(digest) {
      forall o | FileDigest(files', o) != "" && CachedFilepath(o) in files'
        ensures files'[CachedFilepath(o)] == named(FileDigest(files', o))
      {
        FilesOfTwoKinds(img, o);
        FilesOfTwoKinds(o, img);
        FilesAreShared(o, img);
      }
    }
  }

  /** What the registry served for the fetch: at the pull if there was one, otherwise when asked for the manifest. */
  function Wanted(files: Files, img: string, atManifest: Registry, atPull: Registry): Option<string> {
    if CachedFilepath(img) !in files then
      if img in atPull then Some(Content(atPull[img].image.layers)) else None
    else if img !in atManifest then None
    else if MustPull(files, img, atManifest[img].manifestDigest) then
      if img in atPull then Some(Content(atPull[img].image.layers)) else None
    else Some(Content(atManifest[img].image.layers))
  }

  lemma FetchIsFresh(files: Files, named: string -> string, reference: string, allowLatest: bool, atManifest: Registry,
          atPull: Registry)
    requires Matching(files, named) && Honest(atManifest, named) && Honest(atPull, named)
    ensures var img := Lower(reference);
      var after := Fetch(files, reference, allowLatest, atManifest, atPull);
      && Matching(after.files, named)
      && (after.path.Err? ==> after.files == files)
      && (after.path.Ok? ==>
            && after.path.value in after.files
            && Some(after.files[after.path.value]) == Wanted(files, img, atManifest, atPull))
  {
    var img := Lower(reference);
    FilesOfTwoKinds(img, img);
    if img in atPull {
      StoreKeepsMatchingIff(files, named, img, atPull[img].image);
    }
  }

  // ---------- any history of fetches ----------

  datatype Request = Request(reference: string, allowLatest: bool, atManifest: Registry, atPull: Registry)

  function FetchAll(files: Files, history: seq<Request>): Files
    decreases |history|
  {
    if history == [] then files
    else
      var r := history[0];
      FetchAll(Fetch(files, r.reference, r.allowLatest, r.atManifest, r.atPull).files, history[1..])
  }

  ghost predicate AllHonest(history: seq<Request>, named: string -> string) {
    forall r :: r in history ==> Honest(r.atManifest, named) && Honest(r.atPull, named)
  }

  /**
   After any fetches of any references, colliding or not, with the registry changing all the while, the
   next fetch that succeeds returns a file with what the registry serves for its reference now.
   */
  lemma CurrentContent(start: Files, named: string -> string, history: seq<Request>, reference: string,
          allowLatest: bool, now: Registry)
    requires Matching(start, named) && AllHonest(history, named) && Honest(now, named)
    ensures var after := Fetch(FetchAll(start, history), reference, allowLatest, now, now);
      after.path.Ok? ==>
        Lower(reference) in now &&
          Get(after.files, after.path.value) == Some(Content(now[Lower(reference)].image.layers))
  {
    HistoryKeepsMatching(start, named, history);
    FetchIsFresh(FetchAll(start, history), named, reference, allowLatest, now, now);
  }

  lemma {:induction false} HistoryKeepsMatching(files: Files, named: string -> string, history: seq<Request>)
    requires Matching(files, named) && AllHonest(history, named)
    ensures Matching(FetchAll(files, history), named)
    decreases |history|
  {
    if history != [] {
      var r := history[0];
      assert r in history;
      FetchIsFresh(files, named, r.reference, r.allowLatest, r.atManifest, r.atPull);
      HistoryKeepsMatching(Fetch(files, r.reference, r.allowLatest, r.atManifest, r.atPull).files, named, history[1..]);
    }
  }
}
