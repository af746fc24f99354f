/** One build: what it does to an image, when it is displayed, and when it changes nothing. */
module Steps {
  import opened Types
  import opened HostTree
  import opened Layers
  import opened Store
  import opened Chunks
  import opened ChunkAssignment
  import opened Plans
  import opened View
  import opened Numbers
  import opened Deltas
  import opened Reproducible
  import opened Display
  import opened Images

  /** The libraries do what they promise. */
  ghost predicate Trusted(env: Env) {
    LosslessCodec(env) && CollisionFree(env) && GoodChunker(env)
  }

  // The store.

  /** What is stored stays readable when blobs are added. */
  lemma StoredInMore(env: Env, blobs: Blobs, more: Blobs, t: Tree)
    requires ValidTree(t) && Stored(env, blobs, t) && AppendOnly(blobs, more)
    ensures Stored(env, more, t)
  {
    var cs := env.cut(Stream(t));
    forall k | 0 <= k < |cs| ensures ReadsBack(env, more, cs[k]) {
      assert ReadsBack(env, blobs, cs[k]);
    }
  }

  /** After a build its chunks read back; whatever was stored before is untouched. */
  lemma BuildStores(env: Env, blobs: Blobs, t: Tree)
    requires Trusted(env) && ValidTree(t) && ContentAddressed(env, blobs)
    ensures var after := EffectsOf(env, blobs, t).blobs;
            Stored(env, after, t) && ContentAddressed(env, after) && AppendOnly(blobs, after)
  {
    var cs := env.cut(Stream(t));
    StoreAllRecords(env, Effects(blobs, map[], []), cs);
    PutAllGrows(env, blobs, cs);
    forall k | 0 <= k < |cs| ensures ReadsBack(env, PutAll(env, blobs, cs), cs[k]) {
      assert cs[k] in cs;
      KeptReadsBack(env, PutAll(env, blobs, cs), Write(env.zstd, cs[k]));
    }
  }

  lemma PutGrows(env: Env, blobs: Blobs, c: Bytes)
    requires ContentAddressed(env, blobs)
    ensures ContentAddressed(env, Put(env, false, blobs, c)) && AppendOnly(blobs, Put(env, false, blobs, c))
  {
  }

  lemma GrowsTwice(a: Blobs, b: Blobs, c: Blobs)
    requires AppendOnly(a, b) && AppendOnly(b, c)
    ensures AppendOnly(a, c)
  {
  }

  /** The blob directory after a build of tree t that wrote this metadata. */
  ghost function StoreAfter(env: Env, blobs: Blobs, t: Tree, metadata: Bytes): Blobs
    requires ValidTree(t)
  {
    Put(env, false, EffectsOf(env, blobs, t).blobs, metadata)
  }

  lemma BuildGrows(env: Env, blobs: Blobs, t: Tree, metadata: Bytes)
    requires Trusted(env) && ValidTree(t) && ContentAddressed(env, blobs)
    ensures var after := StoreAfter(env, blobs, t, metadata);
            Stored(env, after, t) && ContentAddressed(env, after) && AppendOnly(blobs, after)
  {
    var built := EffectsOf(env, blobs, t).blobs;
    BuildStores(env, blobs, t);
    PutGrows(env, built, metadata);
    StoredInMore(env, built, StoreAfter(env, blobs, t, metadata), t);
    GrowsTwice(blobs, built, StoreAfter(env, blobs, t, metadata));
  }

  // What an image is like after a build.

  ghost predicate AllFunctional(layers: seq<Layer>) {
    forall k | 0 <= k < |layers| :: Functional(layers[k])
  }

  /** The state shows tree t by plan; every layer is sorted and gives no number two inodes; the chunks are there. */
  ghost predicate Good(env: Env, s: ImageState, t: Tree, plan: Plan) {
    && Shows(env, s.rootfs.metadatas, t, plan)
    && WellFormed(s.rootfs.metadatas) && AllFunctional(s.rootfs.metadatas)
    && ContentAddressed(env, s.blobs) && Stored(env, s.blobs, t)
  }

  /** An image stays good while its blob directory grows. */
  lemma GoodInMore(env: Env, s: ImageState, t: Tree, plan: Plan, more: Blobs)
    requires Good(env, s, t, plan) && AppendOnly(s.blobs, more) && ContentAddressed(env, more)
    ensures Good(env, ImageState(s.rootfs, more), t, plan)
  {
    StoredInMore(env, s.blobs, more, t);
  }

  lemma GoodDisplays(env: Env, other: Env, s: ImageState, t: Tree, plan: Plan)
    requires SameLibraries(env, other) && Good(other, s, t, plan) && GoodChunker(env)
    ensures Displays(env, s.blobs, s.rootfs.metadatas, t)
  {
    ShowsDisplays(other, s.blobs, s.rootfs.metadatas, t, plan);
    DisplaysAny(env, other, s.blobs, s.rootfs.metadatas, t);
  }

  /** An image that is good for a tree displays another exactly when the two are one up to host inode numbers. */
  lemma GoodDisplaysIff(env: Env, other: Env, s: ImageState, t: Tree, plan: Plan, u: Tree)
    requires SameLibraries(env, other) && Good(other, s, t, plan) && GoodChunker(env)
    ensures Displays(env, s.blobs, s.rootfs.metadatas, u) <==> Iso(t, u)
  {
    GoodDisplays(env, other, s, t, plan);
    if Displays(env, s.blobs, s.rootfs.metadatas, u) {
      DisplaysDetermines(env, s.blobs, s.rootfs.metadatas, t, u);
    } else if Iso(t, u) {
      DisplaysIso(env, s.blobs, s.rootfs.metadatas, t, u);
    }
  }

  lemma PushedFunctional(env: Env, ex: Base, t: Tree, l: Layer, below: seq<Layer>)
    requires Usable(ex) && ValidTree(t) && Rendering(env, ex, t, l) && Distinct(PlanOf(ex, t)) && AllFunctional(below)
    ensures AllFunctional([l] + below)
  {
    RenderingUnique(env, ex, t, l);
    AssembleFunctional(env, t, PlanOf(ex, t));
    AlsoFunctional(l, below);
  }

  lemma AlsoFunctional(l: Layer, below: seq<Layer>)
    requires Functional(l) && AllFunctional(below)
    ensures AllFunctional([l] + below)
  {
    var layers := [l] + below;
    forall k | 0 <= k < |layers| ensures Functional(layers[k]) {
      assert layers[k] == if k == 0 then l else below[k - 1];
    }
  }

  lemma InitialLayer(env: Env, t: Tree, l: Layer, layers: seq<Layer>)
    requires ValidTree(t) && Rendering(env, None, t, l) && layers == [l]
    ensures Shows(env, layers, t, PlanOf(None, t)) && WellFormed(layers) && AllFunctional(layers)
  {
    InitialDistinct(t);
    NewLayerShows(env, None, t, l, []);
    PushedFunctional(env, None, t, l, []);
    assert layers == [l] + [];
  }

  lemma InitialGood(env: Env, ser: Rootfs -> Bytes, blobs: Blobs, t: Tree, s: ImageState)
    requires Trusted(env) && ContentAddressed(env, blobs) && InitialStep(env, ser, blobs, t, s)
    ensures Good(env, s, t, PlanOf(None, t))
  {
    InitialLayer(env, t, s.rootfs.metadatas[0], s.rootfs.metadatas);
    InitialGrows(env, ser, blobs, t, s);
  }

  lemma InitialGrows(env: Env, ser: Rootfs -> Bytes, blobs: Blobs, t: Tree, s: ImageState)
    requires Trusted(env) && ContentAddressed(env, blobs) && InitialStep(env, ser, blobs, t, s)
    ensures Stored(env, s.blobs, t) && ContentAddressed(env, s.blobs) && AppendOnly(blobs, s.blobs)
  {
    BuildGrows(env, blobs, t, ser(s.rootfs));
  }

  lemma DeltaGrows(env: Env, ser: Rootfs -> Bytes, s: ImageState, u: Tree, l: Layer, s': ImageState)
    requires Trusted(env) && ContentAddressed(env, s.blobs) && DeltaStep(env, ser, s, u, l, s')
    ensures Stored(env, s'.blobs, u) && ContentAddressed(env, s'.blobs) && AppendOnly(s.blobs, s'.blobs)
  {
    BuildGrows(env, s.blobs, u, ser(s'.rootfs));
  }

  /**
   * A delta that adds a layer and splits no hard links shows its tree, whatever was there before and
   * whether or not that was compressed.
   */
  lemma DeltaGood(env: Env, other: Env, ser: Rootfs -> Bytes, s: ImageState, t: Tree, plan: Plan, u: Tree, l: Layer,
                  s': ImageState)
    requires Trusted(other) && SameLibraries(env, other) && Good(env, s, t, plan) && DeltaStep(other, ser, s, u, l, s')
    requires NoSplit(Some(s.rootfs.metadatas), u) && l !in s.rootfs.metadatas
    ensures Good(other, s', u, PlanOf(Some(s.rootfs.metadatas), u))
  {
    var layers := s.rootfs.metadatas;
    DistinctIffNoSplit(env, layers, t, plan, u);
    DeltaGrows(other, ser, s, u, l, s');
    NewLayerShows(other, Some(layers), u, l, layers);
    PushedFunctional(other, Some(layers), u, l, layers);
  }

  /** A delta whose layer is already there changes nothing that is shown. */
  lemma StaleKeepsOldView(env: Env, other: Env, ser: Rootfs -> Bytes, s: ImageState, t: Tree, plan: Plan, u: Tree, l: Layer,
                          s': ImageState)
    requires Trusted(other) && SameLibraries(env, other) && Good(env, s, t, plan) && DeltaStep(other, ser, s, u, l, s')
    requires l in s.rootfs.metadatas
    ensures s'.rootfs.metadatas == s.rootfs.metadatas && Good(env, s', t, plan)
  {
    DeltaGrows(other, ser, s, u, l, s');
    StoredInMore(env, s.blobs, s'.blobs, t);
  }

  /** What makes a delta over an image of tree t good: its tree is t, or it adds a layer and splits no hard links. */
  ghost predicate Clean(layers: seq<Layer>, t: Tree, u: Tree, l: Layer) {
    if l in layers then Iso(t, u) else ValidTree(u) && NonEmpty(layers) && NoSplit(Some(layers), u)
  }

  // Builds with one choice of compression.

  /** Over one image, trees equal up to host inode numbers render to one layer. */
  lemma IsoSameLayer(env: Env, layers: seq<Layer>, t: Tree, plan: Plan, u: Tree, l: Layer)
    requires Shows(env, layers, t, plan) && ValidTree(u) && Iso(t, u) && Rendering(env, Some(layers), u, l)
    ensures l == layers[0]
  {
    SameRendering(env, Some(layers), t, u);
    assert Rendering(env, Some(layers), t, l);
    RebuildIsTop(env, layers, t, plan, l);
  }

  /** The newest layer, rendered again without splitting links, renders the tree the image shows. */
  lemma TopIsSameTree(env: Env, blobs: Blobs, layers: seq<Layer>, t: Tree, plan: Plan, u: Tree, l: Layer)
    requires Shows(env, layers, t, plan) && WellFormed(layers) && ValidTree(u) && Rendering(env, Some(layers), u, l)
    requires GoodChunker(env) && Stored(env, blobs, t) && Stored(env, blobs, u)
    requires NoSplit(Some(layers), u) && l == layers[0]
    ensures Iso(t, u)
  {
    DistinctIffNoSplit(env, layers, t, plan, u);
    RenderingUnique(env, Some(layers), u, l);
    ShowsDisplays(env, blobs, layers, t, plan);
    ShowsDisplays(env, blobs, layers, u, PlanOf(Some(layers), u));
    DisplaysDetermines(env, blobs, layers, t, u);
  }
}
