/** What holds of numbers, layers and references over whole histories. */
module Histories {
  import opened Types
  import opened Seqs
  import opened HostTree
  import opened Layers
  import opened Sorting
  import opened Store
  import opened Chunks
  import opened ChunkAssignment
  import opened Plans
  import opened View
  import opened LiveNumbers
  import opened Numbers
  import opened Deltas
  import opened RootNumber
  import opened Display
  import opened Images
  import opened Steps
  import opened Splits
  import opened Runs

  // Numbers.

  /** Some path resolves to an inode of that number. */
  ghost predicate InUse(layers: seq<Layer>, x: Ino)
    requires NonEmpty(layers)
  {
    exists p :: Uses(layers, x, p)
  }

  ghost predicate Uses(layers: seq<Layer>, x: Ino, p: Path)
    requires NonEmpty(layers)
  {
    Resolves(layers, p) && InodeAt(layers, p).ino == x
  }

  lemma NumberShown(env: Env, layers: seq<Layer>, t: Tree, plan: Plan, p: Path)
    requires Shows(env, layers, t, plan)
    ensures Resolves(layers, p) <==> p in t
    ensures p in t ==> t[p].hino in plan.alloc && InodeAt(layers, p).ino == plan.alloc[t[p].hino]
  {
    if p in t {
      LookupLive(env, layers, t, plan, p);
      RenderParts(env, t, plan, p);
    } else {
      LookupGone(env, layers, t, plan, p);
    }
  }

  lemma UsedIsPlanned(env: Env, layers: seq<Layer>, t: Tree, plan: Plan, x: Ino)
    requires Shows(env, layers, t, plan)
    ensures InUse(layers, x) <==> exists h :: h in plan.alloc && plan.alloc[h] == x
  {
    if p :| Uses(layers, x, p) {
      NumberShown(env, layers, t, plan, p);
    }
    if h :| h in plan.alloc && plan.alloc[h] == x {
      var p :| p in t && t[p].hino == h;
      NumberShown(env, layers, t, plan, p);
      assert Uses(layers, x, p);
    }
  }

  lemma LeaderOldOrFresh(env: Env, layers: seq<Layer>, t: Tree, plan: Plan, u: Tree, p: Path)
    requires Shows(env, layers, t, plan) && ValidTree(u) && p in Firsts(u, Visits(u))
    ensures p in u && u[p].hino in PlanOf(Some(layers), u).alloc
    ensures var x := PlanOf(Some(layers), u).alloc[u[p].hino]; Uses(layers, x, p) || MaxIno(layers) < x
  {
    AllocOf(Some(layers), u, p);
    BaseIsUse(env, layers, t, plan, p);
  }

  lemma BaseIsUse(env: Env, layers: seq<Layer>, t: Tree, plan: Plan, p: Path)
    requires Shows(env, layers, t, plan)
    ensures BaseIno(Some(layers), p).Some? ==> Uses(layers, BaseIno(Some(layers), p).value, p)
  {
    BaseShows(env, layers, t, plan, p);
    NumberShown(env, layers, t, plan, p);
  }

  ghost predicate AboveAll(layers: seq<Layer>, x: Ino) {
    forall k, y | k in layers && y in k :: y.ino < x
  }

  /** A delta gives out only numbers that are in use and numbers above everything in every layer. */
  lemma PlannedAreOldOrFresh(env: Env, layers: seq<Layer>, t: Tree, plan: Plan, u: Tree, h: HostIno)
    requires Shows(env, layers, t, plan) && ValidTree(u) && h in PlanOf(Some(layers), u).alloc
    ensures var x := PlanOf(Some(layers), u).alloc[h];
            InUse(layers, x) || (MaxIno(layers) < x && (WellFormed(layers) ==> AboveAll(layers, x)))
  {
    PlanShape(Some(layers), u);
    if WellFormed(layers) {
      MaxInoIsMaximum(layers);
    }
    if h == u[[]].hino {
      NumberShown(env, layers, t, plan, []);
      assert Uses(layers, 1, []);
    } else {
      var p := FirstOfHino(Some(layers), u, h);
      LeaderOldOrFresh(env, layers, t, plan, u, p);
    }
  }

  lemma MaxGrows(l: Layer, layers: seq<Layer>)
    requires WellFormed(layers) && WellFormed([l] + layers)
    ensures MaxIno(layers) <= MaxIno([l] + layers)
  {
    MaxInoIsMaximum(layers);
    MaxInoIsMaximum([l] + layers);
    if k, x :| k in layers && x in k && x.ino == MaxIno(layers) {
      assert k in [l] + layers;
    }
  }

  /** Some layer may have had the number, and no path has it now. */
  ghost predicate Retired(layers: seq<Layer>, x: Ino) {
    NonEmpty(layers) && !InUse(layers, x) && x <= MaxIno(layers)
  }

  /** A delta that adds a layer and splits nothing gives no retired number out again. */
  lemma StaysRetired(env: Env, other: Env, ser: Rootfs -> Bytes, s: ImageState, t: Tree, plan: Plan, u: Tree, l: Layer,
                     s': ImageState, x: Ino)
    requires Trusted(other) && SameLibraries(env, other) && Good(env, s, t, plan) && DeltaStep(other, ser, s, u, l, s')
    requires NoSplit(Some(s.rootfs.metadatas), u) && l !in s.rootfs.metadatas && Retired(s.rootfs.metadatas, x)
    ensures Retired(s'.rootfs.metadatas, x)
  {
    var layers, layers' := s.rootfs.metadatas, s'.rootfs.metadatas;
    var plan' := PlanOf(Some(layers), u);
    DeltaGood(env, other, ser, s, t, plan, u, l, s');
    UsedIsPlanned(other, layers', u, plan', x);
    if h :| h in plan'.alloc && plan'.alloc[h] == x {
      PlannedAreOldOrFresh(env, layers, t, plan, u, h);
    }
    MaxGrows(l, layers);
  }

  lemma BuildKeepsRetired(env: Env, ser: Rootfs -> Bytes, r: Run, k: nat, j: nat, x: Ino)
    requires Trusted(env) && IsRun(env, ser, r) && From(r, k, j) && Unsplit(r, k) && Retired(LayersAt(r, j), x)
    ensures Retired(LayersAt(r, k), x)
  {
    var m := Shown(r, j);
    RunShows(env, ser, r, j);
    BaseGood(env, ser, r, k, j, m);
    DeltaAt(env, ser, r, k, j);
    if r[k].layer !in LayersAt(r, j) {
      StaysRetired(EnvAt(env, r, m), EnvAt(env, r, k), ser, Found(r, k, j), r[m].tree, PlanAt(r, m), r[k].tree, r[k].layer,
                   r[k].state, x);
    }
  }

  /** Along any line of builds whose new layers split nothing: a number given up is never used again. */
  lemma {:induction false} NeverReused(env: Env, ser: Rootfs -> Bytes, r: Run, i: nat, k: nat, x: Ino)
    requires Trusted(env) && IsRun(env, ser, r) && Ancestor(r, i, k) && Unsplit(r, k) && Retired(LayersAt(r, i), x)
    ensures Retired(LayersAt(r, k), x)
    decreases k
  {
    if i != k {
      var j := r[k].base.value;
      NeverReused(env, ser, r, i, j, x);
      BuildKeepsRetired(env, ser, r, k, j, x);
    }
  }

  /** A path that leads its group keeps its number, or gets one above everything in every layer if it is new. */
  lemma LeaderKeepsNumber(env: Env, other: Env, ser: Rootfs -> Bytes, s: ImageState, t: Tree, plan: Plan, u: Tree, l: Layer,
                          s': ImageState, p: Path)
    requires Trusted(other) && SameLibraries(env, other) && Good(env, s, t, plan) && DeltaStep(other, ser, s, u, l, s')
    requires NoSplit(Some(s.rootfs.metadatas), u) && l !in s.rootfs.metadatas && p in u && Leads(u, p)
    ensures Resolves(s.rootfs.metadatas, p) <==> p in t
    ensures NonEmpty(s'.rootfs.metadatas) && Resolves(s'.rootfs.metadatas, p)
    ensures p in t ==> InodeAt(s'.rootfs.metadatas, p).ino == InodeAt(s.rootfs.metadatas, p).ino
    ensures p !in t ==> AboveAll(s.rootfs.metadatas, InodeAt(s'.rootfs.metadatas, p).ino)
  {
    var layers, layers' := s.rootfs.metadatas, s'.rootfs.metadatas;
    var plan' := PlanOf(Some(layers), u);
    DeltaGood(env, other, ser, s, t, plan, u, l, s');
    NumberShown(env, layers, t, plan, p);
    NumberShown(other, layers', u, plan', p);
    if p != [] {
      AllocOf(Some(layers), u, p);
      BaseShows(env, layers, t, plan, p);
      MaxInoIsMaximum(layers);
    }
  }

  /** Under that number the path resolves. */
  ghost predicate HasNumber(layers: seq<Layer>, p: Path, x: Ino) {
    NonEmpty(layers) && Uses(layers, x, p)
  }

  lemma LiveInLayers(env: Env, layers: seq<Layer>, t: Tree, plan: Plan, p: Path)
    requires Shows(env, layers, t, plan) && p in t
    ensures Resolves(layers, p) && InodeAt(layers, p) in layers[0]
  {
    LookupLive(env, layers, t, plan, p);
    RenderedIn(env, t, plan, p);
    SameMembers(layers[0], Unsorted(env, t, plan));
  }

  /**
   * The number of any path after a delta that adds a layer and splits nothing: the one its leader has.
   * A path that was there keeps its own number if and only if it was linked to that leader before.
   */
  lemma KeepsNumberIff(env: Env, other: Env, ser: Rootfs -> Bytes, s: ImageState, t: Tree, plan: Plan, u: Tree, l: Layer,
                       s': ImageState, p: Path, q: Path)
    requires Trusted(other) && SameLibraries(env, other) && Good(env, s, t, plan) && DeltaStep(other, ser, s, u, l, s')
    requires NoSplit(Some(s.rootfs.metadatas), u) && l !in s.rootfs.metadatas && Leads(u, q) && SameInode(u, p, q)
    ensures NonEmpty(s'.rootfs.metadatas) && Resolves(s'.rootfs.metadatas, p) && Resolves(s'.rootfs.metadatas, q)
    ensures InodeAt(s'.rootfs.metadatas, p).ino == InodeAt(s'.rootfs.metadatas, q).ino
    ensures p in t ==>
              && Resolves(s.rootfs.metadatas, p)
              && (InodeAt(s'.rootfs.metadatas, p).ino == InodeAt(s.rootfs.metadatas, p).ino <==> SameInode(t, p, q))
  {
    var layers, layers' := s.rootfs.metadatas, s'.rootfs.metadatas;
    LeaderKeepsNumber(env, other, ser, s, t, plan, u, l, s', q);
    DeltaGood(env, other, ser, s, t, plan, u, l, s');
    SharedNumber(other, layers', u, PlanOf(Some(layers), u), p, q);
    if p in t {
      NumberShown(env, layers, t, plan, p);
      if q in t {
        NumberShown(env, layers, t, plan, q);
      } else {
        LiveInLayers(env, layers, t, plan, p);
        assert layers[0] in layers;
      }
    }
  }

  lemma SharedNumber(env: Env, layers: seq<Layer>, u: Tree, plan: Plan, p: Path, q: Path)
    requires Shows(env, layers, u, plan) && SameInode(u, p, q)
    ensures Resolves(layers, p) && Resolves(layers, q) && InodeAt(layers, p).ino == InodeAt(layers, q).ino
  {
    NumberShown(env, layers, u, plan, p);
    NumberShown(env, layers, u, plan, q);
  }

  /** From one tree to the next the path stays linked to the path that leads its group in the second. */
  ghost predicate StaysLinked(t: Tree, u: Tree, p: Path) {
    exists q :: Leads(u, q) && SameInode(u, p, q) && SameInode(t, p, q)
  }

  lemma AddedKeepsNumberIff(env: Env, other: Env, ser: Rootfs -> Bytes, s: ImageState, t: Tree, plan: Plan, u: Tree, l: Layer,
                            s': ImageState, p: Path)
    requires Trusted(other) && SameLibraries(env, other) && Good(env, s, t, plan) && DeltaStep(other, ser, s, u, l, s')
    requires NoSplit(Some(s.rootfs.metadatas), u) && l !in s.rootfs.metadatas && p in t && p in u
    ensures NonEmpty(s'.rootfs.metadatas) && Resolves(s.rootfs.metadatas, p) && Resolves(s'.rootfs.metadatas, p)
    ensures InodeAt(s'.rootfs.metadatas, p).ino == InodeAt(s.rootfs.metadatas, p).ino <==> StaysLinked(t, u, p)
  {
    var q := LeaderOf(u, p);
    KeepsNumberIff(env, other, ser, s, t, plan, u, l, s', p, q);
    if q' :| Leads(u, q') && SameInode(u, p, q') && SameInode(t, p, q') {
      KeepsNumberIff(env, other, ser, s, t, plan, u, l, s', p, q');
    }
  }

  /**
   * At every step of any line of builds whose new layers split nothing, a path that is shown before and
   * after keeps its number if and only if it stays linked.
   */
  lemma RunKeepsNumberIff(env: Env, ser: Rootfs -> Bytes, r: Run, k: nat, j: nat, p: Path, x: Ino)
    requires Trusted(env) && IsRun(env, ser, r) && From(r, k, j) && Unsplit(r, k)
    requires p in r[Shown(r, j)].tree && p in r[Shown(r, k)].tree && HasNumber(LayersAt(r, j), p, x)
    ensures HasNumber(LayersAt(r, k), p, x) <==> StaysLinked(r[Shown(r, j)].tree, r[Shown(r, k)].tree, p)
  {
    var m := Shown(r, j);
    RunShows(env, ser, r, j);
    BaseGood(env, ser, r, k, j, m);
    DeltaAt(env, ser, r, k, j);
    if r[k].layer in LayersAt(r, j) {
      var q := LeaderOf(r[m].tree, p);
      assert StaysLinked(r[m].tree, r[m].tree, p);
    } else {
      AddedKeepsNumberIff(EnvAt(env, r, m), EnvAt(env, r, k), ser, Found(r, k, j), r[m].tree, PlanAt(r, m), r[k].tree, r[k].layer,
                          r[k].state, p);
    }
  }

  /** From build i on, the path has stayed linked. */
  ghost predicate LinkedSince(r: Run, i: nat, k: nat, p: Path)
    requires k < |r|
    decreases k
  {
    i == k || (r[k].base.Some? && r[k].base.value < k && LinkedSince(r, i, r[k].base.value, p) &&
               StaysLinked(r[Shown(r, r[k].base.value)].tree, r[Shown(r, k)].tree, p))
  }

  /** So along any such line a path keeps one number for as long as it stays linked. */
  lemma {:induction false} KeepsNumberThroughout(env: Env, ser: Rootfs -> Bytes, r: Run, i: nat, k: nat, p: Path, x: Ino)
    requires Trusted(env) && IsRun(env, ser, r) && k < |r| && i < |r| && Unsplit(r, k) && LinkedSince(r, i, k, p)
    requires p in r[Shown(r, i)].tree && HasNumber(LayersAt(r, i), p, x)
    ensures p in r[Shown(r, k)].tree && HasNumber(LayersAt(r, k), p, x)
    decreases k
  {
    if i != k {
      var j := r[k].base.value;
      KeepsNumberThroughout(env, ser, r, i, j, p, x);
      RunKeepsNumberIff(env, ser, r, k, j, p, x);
    }
  }

  // Layers.

  /** Every layer of an image was rendered by some build it goes back to, and was new then. */
  lemma {:induction false} LayerOrigin(env: Env, ser: Rootfs -> Bytes, r: Run, k: nat, l: Layer) returns (i: nat)
    requires IsRun(env, ser, r) && k < |r| && l in LayersAt(r, k)
    ensures Ancestor(r, i, k) && r[i].layer == l && Shown(r, i) == i
    decreases k
  {
    assert Built(env, ser, r, k);
    match r[k].base
    case None => i := k;
    case Some(j) =>
      if l in LayersAt(r, j) {
        i := LayerOrigin(env, ser, r, j, l);
      } else {
        i := k;
      }
  }

  lemma LayerRendered(env: Env, ser: Rootfs -> Bytes, r: Run, i: nat)
    requires IsRun(env, ser, r) && i < |r|
    ensures Sane(r, i) && Rendering(EnvAt(env, r, i), BaseAt(r, i), r[i].tree, r[i].layer)
  {
    assert Built(env, ser, r, i);
  }

  /** In every history, whatever was split, every layer of every image is sorted and not empty. */
  lemma RunSorted(env: Env, ser: Rootfs -> Bytes, r: Run, k: nat)
    requires IsRun(env, ser, r) && k < |r|
    ensures WellFormed(LayersAt(r, k))
  {
    var layers := LayersAt(r, k);
    forall n | 0 <= n < |layers| ensures Sorted(layers[n]) && layers[n] != [] {
      var i := LayerOrigin(env, ser, r, k, layers[n]);
      LayerRendered(env, ser, r, i);
      RenderedNotEmpty(EnvAt(env, r, i), BaseAt(r, i), r[i].tree, r[i].layer);
    }
  }

  lemma {:induction false} AncestorUnsplit(r: Run, i: nat, k: nat)
    requires Ancestor(r, i, k) && Unsplit(r, k)
    ensures i < |r| && Unsplit(r, i)
    decreases k
  {
    if i != k {
      AncestorUnsplit(r, i, r[k].base.value);
    }
  }

  /** Where no new layer split anything, a number that stands twice in a layer stands for whiteouts only. */
  lemma RunLiveOnce(env: Env, ser: Rootfs -> Bytes, r: Run, k: nat, l: Layer)
    requires Trusted(env) && IsRun(env, ser, r) && k < |r| && Unsplit(r, k) && l in LayersAt(r, k)
    ensures LiveOnce(l)
  {
    var i := LayerOrigin(env, ser, r, k, l);
    AncestorUnsplit(r, i, k);
    RunShows(env, ser, r, i);
    TopIsOwn(env, ser, r, i);
    AssembleLiveOnce(EnvAt(env, r, i), r[i].tree, PlanAt(r, i));
  }

  lemma TopIsOwn(env: Env, ser: Rootfs -> Bytes, r: Run, i: nat)
    requires IsRun(env, ser, r) && i < |r| && Shown(r, i) == i
    ensures LayersAt(r, i) != [] && LayersAt(r, i)[0] == r[i].layer
  {
    assert Built(env, ser, r, i);
  }

  /** There inode search is lookup in the one merged map of all layers. */
  lemma RunSearchIsMerged(env: Env, ser: Rootfs -> Bytes, r: Run, k: nat, ino: Ino)
    requires Trusted(env) && IsRun(env, ser, r) && k < |r| && Unsplit(r, k)
    ensures var layers := LayersAt(r, k);
            NonEmpty(layers) && FindInode(layers, ino) == if ino in Merged(layers) then Ok(Merged(layers)[ino]) else Err(ENOENT)
  {
    RunShows(env, ser, r, k);
    FindInodeIsMerged(LayersAt(r, k), ino);
  }

  // The number 1.

  ghost predicate RootReserved(layers: seq<Layer>) {
    NonEmpty(layers) && RootUnlisted(layers)
  }

  lemma PushUnlisted(l: Layer, layers: seq<Layer>)
    requires RootReserved(layers) && RootUnlistedIn(l) && l != []
    ensures RootReserved(Push(layers, l))
  {
    var pushed := [l] + layers;
    assert forall k | k in pushed :: k == l || k in layers;
    assert forall k | 0 <= k < |pushed| :: pushed[k] == if k == 0 then l else layers[k - 1];
  }

  lemma InitialReserved(env: Env, ser: Rootfs -> Bytes, blobs: Blobs, t: Tree, s: ImageState)
    requires InitialStep(env, ser, blobs, t, s)
    ensures RootReserved(s.rootfs.metadatas)
  {
    var layers := s.rootfs.metadatas;
    RenderingUnlisted(env, None, t, layers[0]);
    PushUnlisted(layers[0], []);
    SameSingle(layers, [layers[0]] + []);
  }

  lemma DeltaReserved(env: Env, ser: Rootfs -> Bytes, s: ImageState, t: Tree, l: Layer, s': ImageState)
    requires DeltaStep(env, ser, s, t, l, s') && RootReserved(s.rootfs.metadatas)
    ensures RootReserved(s'.rootfs.metadatas)
  {
    RenderingUnlisted(env, Some(s.rootfs.metadatas), t, l);
    PushUnlisted(l, s.rootfs.metadatas);
  }

  /** In every history, whatever was split, no directory of any layer lists the number 1. */
  lemma {:induction false} RunReserved(env: Env, ser: Rootfs -> Bytes, r: Run, k: nat)
    requires IsRun(env, ser, r) && k < |r|
    ensures RootReserved(LayersAt(r, k))
    decreases k
  {
    assert Built(env, ser, r, k);
    match r[k].base
    case None => InitialReserved(EnvAt(env, r, k), ser, r[k].store, r[k].tree, r[k].state);
    case Some(j) =>
      RunReserved(env, ser, r, j);
      DeltaReserved(EnvAt(env, r, k), ser, Found(r, k, j), r[k].tree, r[k].layer, r[k].state);
  }

  /** So whatever tree is built next, the number 1 is offered to "/" alone. */
  lemma RunRootAlone(env: Env, ser: Rootfs -> Bytes, r: Run, k: nat, u: Tree)
    requires IsRun(env, ser, r) && k < |r|
    ensures NonEmpty(LayersAt(r, k)) && RootAlone(Some(LayersAt(r, k)), u)
  {
    RunReserved(env, ser, r, k);
    UnlistedIsAlone(Some(LayersAt(r, k)), u);
  }

  // References.

  predicate Referenced(verity: map<Digest, Digest>, chunks: seq<FileChunk>) {
    forall k | 0 <= k < |chunks| :: chunks[k].blob.digest in verity
  }

  /** Every chunk that any inode of any layer names has a verity digest. */
  ghost predicate RefsClosed(rootfs: Rootfs) {
    forall l, x | l in rootfs.metadatas && x in l && x.mode.File? :: Referenced(rootfs.verity, x.mode.chunks)
  }

  lemma {:induction false} WindowDigests(rs: seq<ChunkRef>, lo: nat, hi: nat, verity: map<Digest, Digest>)
    requires forall k | 0 <= k < |rs| :: rs[k].digest in verity
    ensures Referenced(verity, Window(rs, lo, hi))
  {
    if rs != [] {
      WindowDigests(Init(rs), lo, hi, verity);
    }
  }

  lemma ChunksReferenced(env: Env, stream: Bytes, start: nat, len: nat, blobs: Blobs)
    ensures Referenced(StoreAll(env, Effects(blobs, map[], []), env.cut(stream)).verity, ChunksAt(env, stream, start, len))
  {
    var cs := env.cut(stream);
    StoreAllRecords(env, Effects(blobs, map[], []), cs);
    WindowDigests(Refs(env, cs), start, start + len, StoreAll(env, Effects(blobs, map[], []), cs).verity);
  }

  lemma FileChunks(env: Env, t: Tree, plan: Plan, q: Path)
    requires Covers(t, plan) && q in t && Render(env, t, plan, q).mode.File?
    ensures t[q].HFile? && Render(env, t, plan, q).mode.chunks == ChunksFor(env, t, t[q].hino, |t[q].content|)
  {
    assert t[q].HOther? ==> !OtherMode(t[q].kind).File?;
  }

  lemma FileReferenced(env: Env, t: Tree, plan: Plan, q: Path, blobs: Blobs)
    requires Covers(t, plan) && q in t && Render(env, t, plan, q).mode.File?
    ensures Referenced(EffectsOf(env, blobs, t).verity, Render(env, t, plan, q).mode.chunks)
  {
    FileChunks(env, t, plan, q);
    ChunksReferenced(env, Stream(t), StartOf(t, FilePaths(t), t[q].hino), |t[q].content|, blobs);
  }

  lemma RenderingReferenced(env: Env, ex: Base, t: Tree, l: Layer, blobs: Blobs, x: Inode)
    requires Usable(ex) && ValidTree(t) && Rendering(env, ex, t, l) && x in l && x.mode.File?
    ensures Referenced(EffectsOf(env, blobs, t).verity, x.mode.chunks)
  {
    PlanShape(ex, t);
    SameMembers(l, Unsorted(env, t, PlanOf(ex, t)));
    UnsortedOrigin(env, t, PlanOf(ex, t), x);
    var q :| q in t && x == Render(env, t, PlanOf(ex, t), q);
    FileReferenced(env, t, PlanOf(ex, t), q, blobs);
  }

  lemma InitialRefsClosed(env: Env, ser: Rootfs -> Bytes, blobs: Blobs, t: Tree, s: ImageState)
    requires InitialStep(env, ser, blobs, t, s)
    ensures RefsClosed(s.rootfs)
  {
    forall l, x | l in s.rootfs.metadatas && x in l && x.mode.File? ensures Referenced(s.rootfs.verity, x.mode.chunks) {
      OnlyMember(s.rootfs.metadatas, l);
      RenderingReferenced(env, None, t, l, blobs, x);
    }
  }

  lemma DeltaRefsClosed(env: Env, ser: Rootfs -> Bytes, s: ImageState, t: Tree, l: Layer, s': ImageState)
    requires DeltaStep(env, ser, s, t, l, s') && RefsClosed(s.rootfs)
    ensures RefsClosed(s'.rootfs)
  {
    forall k, x | k in s'.rootfs.metadatas && x in k && x.mode.File? ensures Referenced(s'.rootfs.verity, x.mode.chunks) {
      if k in s.rootfs.metadatas {
        assert Referenced(s.rootfs.verity, x.mode.chunks);
      } else {
        RenderingReferenced(env, Some(s.rootfs.metadatas), t, k, s.blobs, x);
      }
    }
  }

  /** In every history, whatever was split, no layer names a chunk without a verity digest. */
  lemma {:induction false} RunRefsClosed(env: Env, ser: Rootfs -> Bytes, r: Run, k: nat)
    requires IsRun(env, ser, r) && k < |r|
    ensures RefsClosed(r[k].state.rootfs)
    decreases k
  {
    assert Built(env, ser, r, k);
    match r[k].base
    case None => InitialRefsClosed(EnvAt(env, r, k), ser, r[k].store, r[k].tree, r[k].state);
    case Some(j) =>
      RunRefsClosed(env, ser, r, j);
      DeltaRefsClosed(EnvAt(env, r, k), ser, Found(r, k, j), r[k].tree, r[k].layer, r[k].state);
  }

  // Manifests.

  lemma DescribedInMore(env: Env, blobs: Blobs, more: Blobs, metadata: Bytes, cs: seq<Bytes>, layers: seq<Descriptor>)
    requires Described(env, blobs, metadata, cs, layers) && AppendOnly(blobs, more)
    ensures Described(env, more, metadata, cs, layers)
  {
    forall k | 0 <= k < |cs| ensures ChunkDescribed(env, more, cs[k], layers[k + 1]) {
      assert ChunkDescribed(env, blobs, cs[k], layers[k + 1]);
    }
  }

  /** Every descriptor of the manifest of every build names a blob that is there, of the length it says, then and later. */
  lemma RunDescribed(env: Env, ser: Rootfs -> Bytes, r: Run, k: nat, layers: seq<Descriptor>, later: Blobs)
    requires Trusted(env) && IsRun(env, ser, r) && k < |r| && AppendOnly(r[k].state.blobs, later)
    requires ValidTree(r[k].tree) && ManifestOf(EnvAt(env, r, k), ser, r[k].tree, r[k].state.rootfs, layers)
    ensures Described(EnvAt(env, r, k), later, ser(r[k].state.rootfs), env.cut(Stream(r[k].tree)), layers)
    ensures forall d | d in layers :: d.digest in later && d.size == |later[d.digest]|
  {
    var other, t, rootfs := EnvAt(env, r, k), r[k].tree, r[k].state.rootfs;
    assert StoreKept(env, r, k) && Built(env, ser, r, k);
    ManifestDescribed(other, ser, t, rootfs, r[k].store, layers);
    DescribedInMore(other, r[k].state.blobs, later, ser(rootfs), env.cut(Stream(t)), layers);
    forall d | d in layers ensures Sized(later, d) {
      var n :| 0 <= n < |layers| && layers[n] == d;
      if n > 0 {
        assert ChunkDescribed(other, later, env.cut(Stream(t))[n - 1], layers[(n - 1) + 1]);
      }
    }
  }
}
