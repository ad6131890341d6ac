/**
 Fetches of OCI images that overlap: each asks for the manifest, pulls, writes the content file and writes the
 digest file in steps of its own, while the registry and the files change in between.
 */
module OciFetches {
  import opened OciCache
  import opened Options
  import opened Strings

  /** How far a fetch has come; a fetch that asks has seen its content file. */
  datatype Fetching =
    | Asking(img: string)
    | Pulling(img: string)
    | Storing(img: string, image: Image)
    | Marking(img: string, image: Image)
    | Over(path: Result<string>)

  datatype Step =
    | Begin(fetch: nat, reference: string, allowLatest: bool)
    | AskManifest(fetch: nat, registry: Registry)
    | PullImage(fetch: nat, registry: Registry)
    | WriteContent(fetch: nat)
    | WriteDigest(fetch: nat)

  datatype File = ContentFile | DigestFile

  /** One file write: by which fetch, for which reference, of what image. */
  datatype Write = Write(file: File, fetch: nat, img: string, image: Image)

  /** `writes` lists every file write so far, in order. */
  datatype World = World(files: Files, fetches: map<nat, Fetching>, writes: seq<Write>)

  const START := World(map[], map[], [])

  predicate Enabled(w: World, step: Step) {
    match step
    case Begin(f, _, _) => f !in w.fetches
    case AskManifest(f, _) => f in w.fetches && w.fetches[f].Asking?
    case PullImage(f, _) => f in w.fetches && w.fetches[f].Pulling?
    case WriteContent(f) => f in w.fetches && w.fetches[f].Storing?
    case WriteDigest(f) => f in w.fetches && w.fetches[f].Marking?
  }

  function Begun(files: Files, reference: string, allowLatest: bool): Fetching {
    var img := Lower(reference);
    if !allowLatest && EndsWith(img, ":latest") then Over(Err("latest"))
    else if CachedFilepath(img) !in files then Pulling(img)
    else Asking(img)
  }

  function Asked(files: Files, img: string, registry: Registry): Fetching {
    if img !in registry then Over(Err("manifest"))
    else if MustPull(files, img, registry[img].manifestDigest) then Pulling(img)
    else Over(Ok(CachedFilepath(img)))
  }

  function Pulled(img: string, registry: Registry): Fetching {
    if img in registry then Storing(img, registry[img].image) else Over(Err("pull"))
  }

  function DigestOf(image: Image): string {
    if image.digest.Some? then image.digest.value else ""
  }

  function Written(files: Files, wr: Write): Files {
    match wr.file
    case ContentFile => files[CachedFilepath(wr.img) := Content(wr.image.layers)]
    case DigestFile => files[DigestFilepath(wr.img) := DigestOf(wr.image)]
  }

  function WriteOut(w: World, wr: Write, next: Fetching): World {
    World(Written(w.files, wr), w.fetches[wr.fetch := next], w.writes + [wr])
  }

  function Next(w: World, step: Step): World
    requires Enabled(w, step)
  {
    match step
    case Begin(f, reference, allowLatest) => w.(fetches := w.fetches[f := Begun(w.files, reference, allowLatest)])
    case AskManifest(f, registry) => w.(fetches := w.fetches[f := Asked(w.files, w.fetches[f].img, registry)])
    case PullImage(f, registry) => w.(fetches := w.fetches[f := Pulled(w.fetches[f].img, registry)])
    case WriteContent(f) =>
      var (img, image) := (w.fetches[f].img, w.fetches[f].image);
      WriteOut(w, Write(ContentFile, f, img, image),
               if image.digest.Some? then Marking(img, image) else Over(Ok(CachedFilepath(img))))
    case WriteDigest(f) =>
      var (img, image) := (w.fetches[f].img, w.fetches[f].image);
      WriteOut(w, Write(DigestFile, f, img, image), Over(Ok(CachedFilepath(img))))
  }

  ghost predicate Reaches(w: World, steps: seq<Step>, w': World)
    decreases |steps|
  {
    if steps == [] then w == w' else Enabled(w, steps[0]) && Reaches(Next(w, steps[0]), steps[1..], w')
  }

  // ---------- what the files hold ----------

  function FilesAfter(writes: seq<Write>): Files {
    if writes == [] then map[] else Written(FilesAfter(writes[..|writes| - 1]), writes[|writes| - 1])
  }

  /** The last write of a file of this kind that goes by this mangled name. */
  function LastWrite(writes: seq<Write>, file: File, name: string): (last: Option<Write>)
    ensures last.Some? ==> last.value in writes && last.value.file == file && Mangle(last.value.img) == name
    ensures last.None? ==> forall wr :: wr in writes ==> !(wr.file == file && Mangle(wr.img) == name)
  {
    if writes == [] then None
    else
      var wr := writes[|writes| - 1];
      if wr.file == file && Mangle(wr.img) == name then Some(wr) else LastWrite(writes[..|writes| - 1], file, name)
  }

  lemma {:induction false} FilesHoldLastWrites(writes: seq<Write>, img: string)
    ensures var content := LastWrite(writes, ContentFile, Mangle(img));
      Get(FilesAfter(writes), CachedFilepath(img))
      == if content.Some? then Some(Content(content.value.image.layers)) else None
    ensures var digest := LastWrite(writes, DigestFile, Mangle(img));
      Get(FilesAfter(writes), DigestFilepath(img)) == if digest.Some? then Some(DigestOf(digest.value.image)) else None
    decreases |writes|
  {
    if writes != [] {
      var wr := writes[|writes| - 1];
      FilesHoldLastWrites(writes[..|writes| - 1], img);
      FilesAreShared(wr.img, img);
      FilesOfTwoKinds(wr.img, img);
      FilesOfTwoKinds(img, wr.img);
    }
  }

  /** A digest names one content, and an image comes with the manifest's digest or with none. */
  ghost predicate Truthful(registry: Registry, named: string -> string) {
    forall img :: img in registry ==>
      && (registry[img].manifestDigest != "" ==>
        Content(registry[img].image.layers) == named(registry[img].manifestDigest))
      && (registry[img].image.digest.Some? ==> registry[img].image.digest.value == registry[img].manifestDigest)
  }

  ghost predicate TruthfulImage(image: Image, named: string -> string) {
    DigestOf(image) != "" ==> Content(image.layers) == named(DigestOf(image))
  }

  ghost predicate TruthfulSteps(steps: seq<Step>, named: string -> string) {
    forall step :: step in steps && (step.AskManifest? || step.PullImage?) ==> Truthful(step.registry, named)
  }

  /** Of a name's last content and last digest, if there is one, both are from one image or from equal ones. */
  predicate LastWritesAgree(writes: seq<Write>, name: string) {
    var content, digest := LastWrite(writes, ContentFile, name), LastWrite(writes, DigestFile, name);
    content.Some? && digest.Some? && DigestOf(digest.value.image) != "" ==>
      Content(content.value.image.layers) == Content(digest.value.image.layers)
  }

  // ---------- the invariant ----------

  /** What a fetch has written so far is the image it holds. */
  ghost predicate FetchSound(w: World, f: nat, named: string -> string)
    requires f in w.fetches
  {
    match w.fetches[f]
    case Storing(img, image) => TruthfulImage(image, named) && forall wr :: wr in w.writes ==> wr.fetch != f
    case Marking(img, image) =>
      && TruthfulImage(image, named) && Write(ContentFile, f, img, image) in w.writes
      && forall wr :: wr in w.writes && wr.fetch == f ==> wr.img == img && wr.image == image
    case Over(path) => forall wr :: wr in w.writes && wr.fetch == f ==> path == Ok(CachedFilepath(wr.img))
    case _ => forall wr :: wr in w.writes ==> wr.fetch != f
  }

  ghost predicate WritesSound(w: World, named: string -> string) {
    && w.files == FilesAfter(w.writes)
    && (forall wr :: wr in w.writes ==> wr.fetch in w.fetches && TruthfulImage(wr.image, named))
    && (forall u, v :: u in w.writes && v in w.writes && u.fetch == v.fetch ==> u.img == v.img && u.image == v.image)
    && (forall wr :: wr in w.writes && wr.file.DigestFile? ==>
      Write(ContentFile, wr.fetch, wr.img, wr.image) in w.writes)
  }

  ghost predicate Sound(w: World, named: string -> string) {
    WritesSound(w, named) && forall f :: f in w.fetches ==> FetchSound(w, f, named)
  }

  /** The write is the next one of the fetch that makes it. */
  predicate Due(w: World, wr: Write) {
    && wr.fetch in w.fetches
    && w.fetches[wr.fetch] == if wr.file.ContentFile? then Storing(wr.img, wr.image) else Marking(wr.img, wr.image)
  }

  lemma FilesAfterOneMore(writes: seq<Write>, wr: Write)
    ensures FilesAfter(writes + [wr]) == Written(FilesAfter(writes), wr)
  {
    assert (writes + [wr])[..|writes|] == writes;
  }

  lemma WriteKeepsWrites(w: World, wr: Write, next: Fetching, named: string -> string)
    requires Sound(w, named) && Due(w, wr)
    ensures WritesSound(WriteOut(w, wr, next), named)
  {
    var w' := WriteOut(w, wr, next);
    FilesAfterOneMore(w.writes, wr);
    assert FetchSound(w, wr.fetch, named);
    assert forall x :: x in w'.writes <==> x in w.writes || x == wr;
    forall u | u in w'.writes && u.fetch == wr.fetch ensures u.img == wr.img && u.image == wr.image {
    }
    forall x | x in w'.writes && x.file.DigestFile?
      ensures Write(ContentFile, x.fetch, x.img, x.image) in w'.writes
    {
      assert Write(ContentFile, x.fetch, x.img, x.image) in w.writes;
    }
  }

  lemma WriteKeepsFetch(w: World, wr: Write, next: Fetching, named: string -> string, f: nat)
    requires Sound(w, named) && Due(w, wr) && f in WriteOut(w, wr, next).fetches
    requires (next == Marking(wr.img, wr.image) && wr.file.ContentFile?) || next == Over(Ok(CachedFilepath(wr.img)))
    ensures FetchSound(WriteOut(w, wr, next), f, named)
  {
    var w' := WriteOut(w, wr, next);
    assert forall x :: x in w'.writes <==> x in w.writes || x == wr;
    assert FetchSound(w, wr.fetch, named) && FetchSound(w, f, named);
  }

  lemma WriteKeeps(w: World, wr: Write, next: Fetching, named: string -> string)
    requires Sound(w, named) && Due(w, wr)
    requires (next == Marking(wr.img, wr.image) && wr.file.ContentFile?) || next == Over(Ok(CachedFilepath(wr.img)))
    ensures Sound(WriteOut(w, wr, next), named)
  {
    WriteKeepsWrites(w, wr, next, named);
    forall f | f in WriteOut(w, wr, next).fetches ensures FetchSound(WriteOut(w, wr, next), f, named) {
      WriteKeepsFetch(w, wr, next, named, f);
    }
  }

  lemma StepKeeps(w: World, step: Step, named: string -> string)
    requires Sound(w, named) && Enabled(w, step)
    requires (step.AskManifest? || step.PullImage?) ==> Truthful(step.registry, named)
    ensures Sound(Next(w, step), named)
  {
    var w', f := Next(w, step), step.fetch;
    match step
    case WriteContent(_) =>
      var (img, image) := (w.fetches[f].img, w.fetches[f].image);
      WriteKeeps(w, Write(ContentFile, f, img, image), w'.fetches[f], named);
    case WriteDigest(_) =>
      var (img, image) := (w.fetches[f].img, w.fetches[f].image);
      WriteKeeps(w, Write(DigestFile, f, img, image), w'.fetches[f], named);
    case _ =>
      forall o | o in w'.fetches ensures FetchSound(w', o, named) {
        if o in w.fetches {
          assert FetchSound(w, o, named);
        }
      }
  }

  lemma {:induction false} RunKeeps(w: World, steps: seq<Step>, w': World, named: string -> string)
    requires Sound(w, named) && Reaches(w, steps, w') && TruthfulSteps(steps, named)
    ensures Sound(w', named)
    decreases |steps|
  {
    if steps != [] {
      assert steps[0] in steps && forall step :: step in steps[1..] ==> step in steps;
      StepKeeps(w, steps[0], named);
      RunKeeps(Next(w, steps[0]), steps[1..], w', named);
    }
  }

  // ---------- when files match and fetches are current ----------

  /** After any run, the digest files match exactly when, for each name, the last content and the last digest agree. */
  lemma MatchingIffLastWritesAgree(steps: seq<Step>, w: World, named: string -> string)
    requires Reaches(START, steps, w) && TruthfulSteps(steps, named)
    ensures Matching(w.files, named) <==> forall img :: LastWritesAgree(w.writes, Mangle(img))
  {
    RunKeeps(START, steps, w, named);
    forall img
      ensures LastWritesAgree(w.writes, Mangle(img)) <==>
        (FileDigest(w.files, img) != "" && CachedFilepath(img) in w.files ==>
           w.files[CachedFilepath(img)] == named(FileDigest(w.files, img)))
    {
      FilesHoldLastWrites(w.writes, img);
    }
  }

  /** Writes of one fetch always agree: it is enough that nobody else's write comes between. */
  lemma OneFetchAgrees(steps: seq<Step>, w: World, named: string -> string, name: string)
    requires Reaches(START, steps, w) && TruthfulSteps(steps, named)
    requires var content, digest := LastWrite(w.writes, ContentFile, name), LastWrite(w.writes, DigestFile, name);
      content.Some? && digest.Some? ==> content.value.fetch == digest.value.fetch
    ensures LastWritesAgree(w.writes, name)
  {
    RunKeeps(START, steps, w, named);
  }

  /**
   A fetch that runs after the others, with the registry as it is now, returns something other than what is
   served.
   */
  predicate Stale(files: Files, reference: string, allowLatest: bool, now: Registry) {
    var after, img := Fetch(files, reference, allowLatest, now, now), Lower(reference);
    && after.path.Ok? && img in now
    && Get(after.files, after.path.value) != Some(Content(now[img].image.layers))
  }

  /**
   Exactly when a later fetch is stale: the registry serves the digest last written under the name, and the
   content last written under it is not the one that digest came with.
   */
  lemma StaleIff(steps: seq<Step>, w: World, named: string -> string, reference: string, allowLatest: bool,
          now: Registry)
    requires Reaches(START, steps, w) && TruthfulSteps(steps, named) && Truthful(now, named)
    ensures var img := Lower(reference);
      var content, digest :=
        LastWrite(w.writes, ContentFile, Mangle(img)), LastWrite(w.writes, DigestFile, Mangle(img));
      Stale(w.files, reference, allowLatest, now) <==>
        && (allowLatest || !EndsWith(img, ":latest")) && img in now
        && content.Some? && digest.Some? && DigestOf(digest.value.image) == now[img].manifestDigest != ""
        && Content(content.value.image.layers) != Content(digest.value.image.layers)
  {
    var img := Lower(reference);
    RunKeeps(START, steps, w, named);
    FilesHoldLastWrites(w.writes, img);
    FilesOfTwoKinds(img, img);
  }

  /** Whatever the registry serves from now on, no fetch is stale. */
  ghost predicate NeverStale(files: Files, named: string -> string) {
    forall reference, now :: Truthful(now, named) ==> !Stale(files, reference, true, now)
  }

  lemma NeverStaleIff(steps: seq<Step>, w: World, named: string -> string)
    requires Reaches(START, steps, w) && TruthfulSteps(steps, named)
    ensures NeverStale(w.files, named) <==> forall reference :: LastWritesAgree(w.writes, Mangle(Lower(reference)))
  {
    if forall reference :: LastWritesAgree(w.writes, Mangle(Lower(reference))) {
      forall reference, now | Truthful(now, named) ensures !Stale(w.files, reference, true, now) {
        StaleIff(steps, w, named, reference, true, now);
        assert LastWritesAgree(w.writes, Mangle(Lower(reference)));
      }
    } else {
      var reference :| !LastWritesAgree(w.writes, Mangle(Lower(reference)));
      var now := DisagreementShows(steps, w, named, reference);
    }
  }

  /** The registry that serves the image the last digest came with gives the disagreement away. */
  lemma DisagreementShows(steps: seq<Step>, w: World, named: string -> string, reference: string)
    returns (now: Registry)
    requires Reaches(START, steps, w) && TruthfulSteps(steps, named)
    requires !LastWritesAgree(w.writes, Mangle(Lower(reference)))
    ensures Truthful(now, named) && Stale(w.files, reference, true, now)
  {
    var img := Lower(reference);
    var image := LastWrite(w.writes, DigestFile, Mangle(img)).value.image;
    LastWriteIsTruthful(steps, w, named, DigestFile, Mangle(img));
    now := map[img := Served(DigestOf(image), image)];
    StaleIff(steps, w, named, reference, true, now);
  }

  lemma LastWriteIsTruthful(steps: seq<Step>, w: World, named: string -> string, file: File, name: string)
    requires Reaches(START, steps, w) && TruthfulSteps(steps, named) && LastWrite(w.writes, file, name).Some?
    ensures TruthfulImage(LastWrite(w.writes, file, name).value.image, named)
  {
    RunKeeps(START, steps, w, named);
  }

  // ---------- what an overlapping fetch returns ----------

  /**
   At any moment after a fetch that stored an image has ended, its file holds that image exactly when the last
   content written under its name is its own, or equal to it.
   */
  lemma OwnImageIff(steps: seq<Step>, w: World, named: string -> string, wr: Write)
    requires Reaches(START, steps, w) && TruthfulSteps(steps, named)
    requires wr in w.writes && wr.file.ContentFile? && wr.fetch in w.fetches && w.fetches[wr.fetch].Over?
    ensures w.fetches[wr.fetch] == Over(Ok(CachedFilepath(wr.img)))
    ensures var last := LastWrite(w.writes, ContentFile, Mangle(wr.img));
      && last.Some?
      && (Get(w.files, CachedFilepath(wr.img)) == Some(Content(wr.image.layers)) <==>
            last.value.fetch == wr.fetch || Content(last.value.image.layers) == Content(wr.image.layers))
  {
    RunKeeps(START, steps, w, named);
    assert FetchSound(w, wr.fetch, named);
    FilesHoldLastWrites(w.writes, wr.img);
  }

  /**
   A fetch that ends because the digest file has the manifest's digest returns a file with the content served
   exactly when, at that moment, the last content and the last digest written under its name agree.
   */
  lemma UnpulledIsServedIff(steps: seq<Step>, w: World, named: string -> string, f: nat, registry: Registry)
    requires Reaches(START, steps, w) && TruthfulSteps(steps, named) && Truthful(registry, named)
    requires Enabled(w, AskManifest(f, registry))
    requires Asked(w.files, w.fetches[f].img, registry) == Over(Ok(CachedFilepath(w.fetches[f].img)))
    ensures var img := w.fetches[f].img;
      Get(w.files, CachedFilepath(img)) == Some(Content(registry[img].image.layers)) <==>
        LastWritesAgree(w.writes, Mangle(img))
  {
    RunKeeps(START, steps, w, named);
    FilesHoldLastWrites(w.writes, w.fetches[f].img);
  }

  // ---------- one fetch after the other ----------

  lemma {:induction false} Extend(w: World, steps: seq<Step>, t: World, step: Step) returns (u: World, more: seq<Step>)
    requires Reaches(w, steps, t) && Enabled(t, step)
    ensures u == Next(t, step) && more == steps + [step] && Reaches(w, more, u)
    decreases |steps|
  {
    u, more := Next(t, step), steps + [step];
    if steps == [] {
      assert more[1..] == [];
    } else {
      var _, rest := Extend(Next(w, steps[0]), steps[1..], t, step);
      assert more[1..] == rest;
    }
  }

  lemma PullAlone(w: World, steps: seq<Step>, f: nat, registry: Registry) returns (w': World, steps': seq<Step>)
    requires Reaches(START, steps, w) && f in w.fetches && w.fetches[f].Pulling?
    ensures Reaches(START, steps', w') && w'.fetches.Keys == w.fetches.Keys
    ensures var after := Pull(w.files, w.fetches[f].img, registry);
      w'.files == after.files && w'.fetches[f] == Over(after.path)
    ensures forall step :: step in steps' ==>
      step in steps || step == PullImage(f, registry) || step.WriteContent? || step.WriteDigest?
  {
    w', steps' := Extend(START, steps, w, PullImage(f, registry));
    if w'.fetches[f].Storing? {
      w', steps' := Extend(START, steps', w', WriteContent(f));
      if w'.fetches[f].Marking? {
        w', steps' := Extend(START, steps', w', WriteDigest(f));
      }
    }
  }

  /** A fetch that nothing overlaps does what the fetch as a whole is said to do. */
  lemma FetchAlone(w: World, steps: seq<Step>, f: nat, r: Request) returns (w': World, steps': seq<Step>)
    requires Reaches(START, steps, w) && f !in w.fetches
    ensures Reaches(START, steps', w') && w'.fetches.Keys == w.fetches.Keys + {f}
    ensures var after := Fetch(w.files, r.reference, r.allowLatest, r.atManifest, r.atPull);
      w'.files == after.files && w'.fetches[f] == Over(after.path)
    ensures forall step :: step in steps' && (step.AskManifest? || step.PullImage?) ==>
      step in steps || step.registry == r.atManifest || step.registry == r.atPull
  {
    var t, more := AskAlone(w, steps, f, r);
    if t.fetches[f].Pulling? {
      w', steps' := PullAlone(t, more, f, r.atPull);
    } else {
      w', steps' := t, more;
    }
  }

  lemma AskAlone(w: World, steps: seq<Step>, f: nat, r: Request) returns (w': World, steps': seq<Step>)
    requires Reaches(START, steps, w) && f !in w.fetches
    ensures Reaches(START, steps', w') && w'.fetches.Keys == w.fetches.Keys + {f} && w'.files == w.files
    ensures w'.fetches[f] == match Begun(w.files, r.reference, r.allowLatest)
                             case Asking(img) => Asked(w.files, img, r.atManifest)
                             case fetching => fetching
    ensures forall step :: step in steps' && (step.AskManifest? || step.PullImage?) ==>
      step in steps || step.registry == r.atManifest
  {
    w', steps' := Extend(START, steps, w, Begin(f, r.reference, r.allowLatest));
    if w'.fetches[f].Asking? {
      w', steps' := Extend(START, steps', w', AskManifest(f, r.atManifest));
    }
  }

  ghost predicate AllTruthful(history: seq<Request>, named: string -> string) {
    forall r :: r in history ==> Truthful(r.atManifest, named) && Truthful(r.atPull, named)
  }

  /** So any history of fetches, one after the other, is a run. */
  lemma {:induction false} HistoryIsRun(history: seq<Request>, named: string -> string)
    returns (w: World, steps: seq<Step>)
    requires AllTruthful(history, named)
    ensures Reaches(START, steps, w) && TruthfulSteps(steps, named)
    ensures w.files == FetchAll(map[], history) && forall f :: f in w.fetches ==> f < |history|
    decreases |history|
  {
    if history == [] {
      w, steps := START, [];
    } else {
      var before, r := history[..|history| - 1], history[|history| - 1];
      assert r in history && forall x :: x in before ==> x in history;
      var w1, s1 := HistoryIsRun(before, named);
      w, steps := FetchAlone(w1, s1, |before|, r);
      FetchAllLast(map[], history);
      StaysTruthful(s1, steps, r, named);
    }
  }

  lemma StaysTruthful(steps: seq<Step>, more: seq<Step>, r: Request, named: string -> string)
    requires TruthfulSteps(steps, named) && Truthful(r.atManifest, named) && Truthful(r.atPull, named)
    requires forall step :: step in more && (step.AskManifest? || step.PullImage?) ==>
      step in steps || step.registry == r.atManifest || step.registry == r.atPull
    ensures TruthfulSteps(more, named)
  {
  }

  lemma FetchAllLast(files: Files, history: seq<Request>)
    requires history != []
    ensures var before, r := FetchAll(files, history[..|history| - 1]), history[|history| - 1];
      FetchAll(files, history) == Fetch(before, r.reference, r.allowLatest, r.atManifest, r.atPull).files
  {
    assert history[..|history| - 1] + [history[|history| - 1]] == history;
    FetchAllAppended(files, history[..|history| - 1], history[|history| - 1]);
  }

  lemma {:induction false} FetchAllAppended(files: Files, before: seq<Request>, r: Request)
    ensures FetchAll(files, before + [r])
         == Fetch(FetchAll(files, before), r.reference, r.allowLatest, r.atManifest, r.atPull).files
    decreases |before|
  {
    if before == [] {
      assert (before + [r])[1..] == [];
    } else {
      var first := before[0];
      assert (before + [r])[1..] == before[1..] + [r];
      FetchAllAppended(Fetch(files, first.reference, first.allowLatest, first.atManifest, first.atPull).files,
        before[1..], r);
    }
  }

  /** The image a fetch stores, if it pulls one. */
  function StoredBy(files: Files, r: Request): Option<Image> {
    var img := Lower(r.reference);
    if !r.allowLatest && EndsWith(img, ":latest") then None
    else if CachedFilepath(img) in files
         && (img !in r.atManifest || !MustPull(files, img, r.atManifest[img].manifestDigest)) then None
    else if img in r.atPull then Some(r.atPull[img].image) else None
  }

  /** The last image a history stored under a name; of those that had a digest, if that is asked for. */
  function LastStored(history: seq<Request>, name: string, digested: bool): Option<Image> {
    if history == [] then None
    else
      var before, r := history[..|history| - 1], history[|history| - 1];
      var stored := StoredBy(FetchAll(map[], before), r);
      if stored.Some? && Mangle(Lower(r.reference)) == name && (digested ==> stored.value.digest.Some?) then stored
      else LastStored(before, name, digested)
  }

  lemma FetchStores(files: Files, r: Request)
    ensures Fetch(files, r.reference, r.allowLatest, r.atManifest, r.atPull).files ==
      var stored := StoredBy(files, r);
      if stored.Some? then StoreImage(files, Lower(r.reference), stored.value) else files
  {
  }

  lemma StoreImageAt(files: Files, img: string, image: Image, o: string)
    ensures var after, same := StoreImage(files, img, image), Mangle(img) == Mangle(o);
      && Get(after, CachedFilepath(o)) == (if same then Some(Content(image.layers)) else Get(files, CachedFilepath(o)))
      && Get(after, DigestFilepath(o))
        == (if same && image.digest.Some? then image.digest else Get(files, DigestFilepath(o)))
  {
    FilesAreShared(img, o);
    FilesOfTwoKinds(img, o);
    FilesOfTwoKinds(o, img);
    FilesOfTwoKinds(img, img);
  }

  lemma {:induction false} HistoryFiles(history: seq<Request>, img: string)
    ensures var files := FetchAll(map[], history);
      var stored, marked := LastStored(history, Mangle(img), false), LastStored(history, Mangle(img), true);
      && Get(files, CachedFilepath(img)) == (if stored.Some? then Some(Content(stored.value.layers)) else None)
      && Get(files, DigestFilepath(img)) == (if marked.Some? then marked.value.digest else None)
      && (marked.Some? ==> marked.value.digest.Some? && stored.Some?)
    decreases |history|
  {
    if history != [] {
      var before, r := history[..|history| - 1], history[|history| - 1];
      var files := FetchAll(map[], before);
      HistoryFiles(before, img);
      FetchAllLast(map[], history);
      FetchStores(files, r);
      if StoredBy(files, r).Some? {
        StoreImageAt(files, Lower(r.reference), StoredBy(files, r).value, img);
      }
    }
  }

  lemma {:induction false} StoredIsTruthful(history: seq<Request>, named: string -> string, name: string,
          digested: bool)
    requires AllTruthful(history, named)
    ensures var stored := LastStored(history, name, digested); stored.Some? ==> TruthfulImage(stored.value, named)
    decreases |history|
  {
    if history != [] {
      var before, r := history[..|history| - 1], history[|history| - 1];
      assert r in history && forall x :: x in before ==> x in history;
      StoredIsTruthful(before, named, name, digested);
    }
  }

  /**
   Images that come without a digest are the only way to a stale fetch when fetches do not overlap: it is
   stale exactly when the last image stored under its name that had a digest had the one served now, and
   other content than the last image stored.
   */
  lemma HistoryStaleIff(history: seq<Request>, named: string -> string, reference: string, allowLatest: bool,
          now: Registry)
    requires AllTruthful(history, named) && Truthful(now, named)
    ensures var img := Lower(reference);
      var stored, marked := LastStored(history, Mangle(img), false), LastStored(history, Mangle(img), true);
      Stale(FetchAll(map[], history), reference, allowLatest, now) <==>
        && (allowLatest || !EndsWith(img, ":latest")) && img in now
        && marked.Some? && DigestOf(marked.value) == now[img].manifestDigest != ""
        && stored.Some? && Content(stored.value.layers) != Content(marked.value.layers)
  {
    var img := Lower(reference);
    HistoryFiles(history, img);
    StoredIsTruthful(history, named, Mangle(img), true);
    FilesOfTwoKinds(img, img);
  }

  // ---------- how a fetch goes stale ----------

  const REFERENCE := "r.io/a:1"

  function Names(digest: string): string {
    "content of " + digest
  }

  function Named(digest: string, withDigest: bool): Image {
    Image([Names(digest)], if withDigest then Some(digest) else None)
  }

  /** A registry that serves one image under the reference. */
  function Serving(digest: string, withDigest: bool): Registry {
    map[Lower(REFERENCE) := Served(digest, Named(digest, withDigest))]
  }

  lemma ServingIsTruthful(digest: string, withDigest: bool)
    ensures Truthful(Serving(digest, withDigest), Names) && Content(Named(digest, withDigest).layers) == Names(digest)
  {
    assert Content([Names(digest)]) == Names(digest) + Content([]);
  }

  /** Two overlapping fetches of one reference, both honest, after which a third returns what is no longer served. */
  lemma OverlapGoesStale() returns (steps: seq<Step>, w: World)
    ensures Reaches(START, steps, w) && TruthfulSteps(steps, Names) &&
      (forall f :: f in w.fetches ==> w.fetches[f].Over?)
    ensures !Matching(w.files, Names) && Stale(w.files, REFERENCE, true, Serving("d2", true))
    ensures Write(ContentFile, 1, Lower(REFERENCE), Named("d2", true)) in w.writes
    ensures Get(w.files, CachedFilepath(Lower(REFERENCE))) == Some(Names("d1"))
  {
    var w6, r6 := BothContentsWritten();
    var w7, r7 := Extend(START, r6, w6, WriteDigest(0));
    w, steps := Extend(START, r7, w7, WriteDigest(1));
    FilesOfTwoKinds(Lower(REFERENCE), Lower(REFERENCE));
    MixedFilesAreStale(w.files);
  }

  lemma BothContentsWritten() returns (w: World, steps: seq<Step>)
    ensures Reaches(START, steps, w) && TruthfulSteps(steps, Names) && w.fetches.Keys == {0, 1}
    ensures w.files == map[CachedFilepath(Lower(REFERENCE)) := Names("d1")]
    ensures w.fetches[0] == Marking(Lower(REFERENCE), Named("d1", true))
    ensures w.fetches[1] == Marking(Lower(REFERENCE), Named("d2", true))
    ensures Write(ContentFile, 1, Lower(REFERENCE), Named("d2", true)) in w.writes
  {
    ServingIsTruthful("d1", true);
    var w4, r4 := BothPulled();
    var w5, r5 := Extend(START, r4, w4, WriteContent(1));
    w, steps := Extend(START, r5, w5, WriteContent(0));
  }

  lemma MixedFilesAreStale(files: Files)
    requires Get(files, CachedFilepath(Lower(REFERENCE))) == Some(Names("d1"))
    requires Get(files, DigestFilepath(Lower(REFERENCE))) == Some("d2")
    ensures !Matching(files, Names) && Stale(files, REFERENCE, true, Serving("d2", true))
  {
    ServingIsTruthful("d2", true);
    assert Names("d1")[|Names("d1")| - 1] != Names("d2")[|Names("d2")| - 1];
    assert FileDigest(files, Lower(REFERENCE)) == "d2";
  }

  lemma BothPulled() returns (w: World, steps: seq<Step>)
    ensures Reaches(START, steps, w) && w.files == map[] && w.writes == [] && w.fetches.Keys == {0, 1}
    ensures w.fetches[0] == Storing(Lower(REFERENCE), Named("d1", true))
    ensures w.fetches[1] == Storing(Lower(REFERENCE), Named("d2", true))
    ensures TruthfulSteps(steps, Names)
  {
    ServingIsTruthful("d1", true);
    ServingIsTruthful("d2", true);
    var w1, r1 := Extend(START, [], START, Begin(0, REFERENCE, true));
    var w2, r2 := Extend(START, r1, w1, Begin(1, REFERENCE, true));
    var w3, r3 := Extend(START, r2, w2, PullImage(0, Serving("d1", true)));
    w, steps := Extend(START, r3, w3, PullImage(1, Serving("d2", true)));
  }

  /** Two fetches, the second of an image that came without a digest; then the registry goes back to the first image. */
  lemma DigestlessGoesStale()
    ensures var history := [
        Request(REFERENCE, true, Serving("d1", true), Serving("d1", true)),
        Request(REFERENCE, true, Serving("d2", false), Serving("d2", false))];
      && AllTruthful(history, Names) && !Matching(FetchAll(map[], history), Names)
      && Stale(FetchAll(map[], history), REFERENCE, true, Serving("d1", true))
  {
    ServingIsTruthful("d1", true);
    ServingIsTruthful("d2", false);
    var img := Lower(REFERENCE);
    var first := Request(REFERENCE, true, Serving("d1", true), Serving("d1", true));
    var second := Request(REFERENCE, true, Serving("d2", false), Serving("d2", false));
    FetchAllAppended(map[], [first], second);
    FetchAllAppended(map[], [], first);
    assert [] + [first] == [first] && [first] + [second] == [first, second];
    FilesOfTwoKinds(img, img);
    assert Names("d1")[|Names("d1")| - 1] != Names("d2")[|Names("d2")| - 1];
  }
}
