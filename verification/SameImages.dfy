/** Trees equal up to host inode numbers give the same images, byte for byte, over whole histories. */
module SameImages {
  import opened Types
  import opened Seqs
  import opened HostTree
  import opened Layers
  import opened Store
  import opened Plans
  import opened View
  import opened Numbers
  import opened Deltas
  import opened Reproducible
  import opened Images
  import opened Steps
  import opened Splits
  import opened Runs

  lemma SameStream(t: Tree, u: Tree)
    requires Iso(t, u) && ValidTree(t) && ValidTree(u)
    ensures Stream(t) == Stream(u)
  {
    IsoPaths(t, u);
    IsoContents(t, u, FilePaths(t));
  }

  /** They are cut, stored, measured and described alike. */
  lemma SameEffects(env: Env, ser: Rootfs -> Bytes, blobs: Blobs, t: Tree, u: Tree, rootfs: Rootfs, layers: seq<Descriptor>)
    requires Iso(t, u) && ValidTree(t) && ValidTree(u)
    ensures EffectsOf(env, blobs, t) == EffectsOf(env, blobs, u)
    ensures ManifestOf(env, ser, t, rootfs, layers) <==> ManifestOf(env, ser, u, rootfs, layers)
  {
    SameStream(t, u);
  }

  lemma SameInitialLayer(env: Env, t: Tree, u: Tree, l: Layer, l': Layer)
    requires Iso(t, u) && ValidTree(t) && ValidTree(u) && Rendering(env, None, t, l) && Rendering(env, None, u, l')
    ensures l == l'
  {
    SameRendering(env, None, t, u);
    InitialDistinct(t);
    RenderingUnique(env, None, t, l);
    RenderingUnique(env, None, t, l');
  }

  /** A first build gives one image: metadata, verity map and blobs. */
  lemma SameInitialImage(env: Env, ser: Rootfs -> Bytes, blobs: Blobs, t: Tree, u: Tree, s: ImageState, s': ImageState)
    requires Iso(t, u) && InitialStep(env, ser, blobs, t, s) && InitialStep(env, ser, blobs, u, s')
    ensures s == s'
  {
    SameInitialLayer(env, t, u, s.rootfs.metadatas[0], s'.rootfs.metadatas[0]);
    SameSingle(s.rootfs.metadatas, s'.rootfs.metadatas);
    SameEffects(env, ser, blobs, t, u, s.rootfs, []);
    assert s.rootfs == s'.rootfs;
  }

  lemma SameDeltaLayer(env: Env, other: Env, layers: seq<Layer>, t: Tree, plan: Plan, u: Tree, v: Tree, l: Layer, l': Layer)
    requires Shows(env, layers, t, plan) && WellFormed(layers) && ValidTree(u) && ValidTree(v) && Iso(u, v)
    requires NoSplit(Some(layers), u) && Rendering(other, Some(layers), u, l) && Rendering(other, Some(layers), v, l')
    ensures l == l'
  {
    SameRendering(other, Some(layers), u, v);
    DistinctIffNoSplit(env, layers, t, plan, u);
    RenderingUnique(other, Some(layers), u, l);
    RenderingUnique(other, Some(layers), u, l');
  }

  /** So does a delta that splits no hard links. */
  lemma SameDeltaImage(env: Env, other: Env, ser: Rootfs -> Bytes, s: ImageState, t: Tree, plan: Plan, u: Tree, v: Tree,
                       l: Layer, l': Layer, s1: ImageState, s2: ImageState)
    requires Good(env, s, t, plan) && ValidTree(u) && NoSplit(Some(s.rootfs.metadatas), u) && Iso(u, v)
    requires DeltaStep(other, ser, s, u, l, s1) && DeltaStep(other, ser, s, v, l', s2)
    ensures l == l' && s1 == s2
  {
    SameDeltaLayer(env, other, s.rootfs.metadatas, t, plan, u, v, l, l');
    SameEffects(other, ser, s.blobs, u, v, s1.rootfs, []);
  }

  /** The two builds are given the same: choice, base, blob directory, and the tree up to host inode numbers. */
  ghost predicate SameInputs(r: Run, r': Run, k: nat)
    requires k < |r| && k < |r'|
  {
    r[k].zstd == r'[k].zstd && r[k].base == r'[k].base && r[k].store == r'[k].store && Iso(r[k].tree, r'[k].tree)
  }

  /** No build that the image of build k goes back to split hard links. */
  ghost predicate NeverSplit(r: Run, k: nat)
    requires k < |r|
    decreases k
  {
    && Sane(r, k) && NoSplit(BaseAt(r, k), r[k].tree)
    && (r[k].base.Some? && r[k].base.value < k ==> NeverSplit(r, r[k].base.value))
  }

  lemma {:induction false} NeverSplitUnsplit(r: Run, k: nat)
    requires k < |r| && NeverSplit(r, k)
    ensures Unsplit(r, k)
    decreases k
  {
    if r[k].base.Some? && r[k].base.value < k {
      NeverSplitUnsplit(r, r[k].base.value);
    }
  }

  lemma SameStep(env: Env, ser: Rootfs -> Bytes, r: Run, r': Run, k: nat, j: nat)
    requires Trusted(env) && IsRun(env, ser, r) && IsRun(env, ser, r') && k < |r| == |r'| && From(r, k, j)
    requires NeverSplit(r, k) && SameInputs(r, r', k) && r[j].state.rootfs == r'[j].state.rootfs
    ensures r[k].layer == r'[k].layer && r[k].state == r'[k].state
  {
    var m := Shown(r, j);
    NeverSplitUnsplit(r, j);
    RunShows(env, ser, r, j);
    BaseGood(env, ser, r, k, j, m);
    DeltaAt(env, ser, r, k, j);
    DeltaAt(env, ser, r', k, j);
    SameDeltaImage(EnvAt(env, r, m), EnvAt(env, r, k), ser, Found(r, k, j), r[m].tree, PlanAt(r, m), r[k].tree, r'[k].tree,
                   r[k].layer, r'[k].layer, r[k].state, r'[k].state);
  }

  /** Two histories that are given the same go through the same images, as long as no links are split. */
  lemma {:induction false} SameHistory(env: Env, ser: Rootfs -> Bytes, r: Run, r': Run, k: nat)
    requires Trusted(env) && IsRun(env, ser, r) && IsRun(env, ser, r') && k < |r| == |r'| && NeverSplit(r, k)
    requires forall j | 0 <= j < |r| :: SameInputs(r, r', j)
    ensures r[k].layer == r'[k].layer && r[k].state == r'[k].state
    decreases k
  {
    assert SameInputs(r, r', k);
    match r[k].base
    case None =>
      FirstStep(env, ser, r, k);
      FirstStep(env, ser, r', k);
      SameInitialImage(EnvAt(env, r, k), ser, r[k].store, r[k].tree, r'[k].tree, r[k].state, r'[k].state);
    case Some(j) =>
      assert Built(env, ser, r, k);
      SameHistory(env, ser, r, r', j);
      SameStep(env, ser, r, r', k, j);
  }

  /** That is the case for every history of clean builds. */
  lemma {:induction false} CleanNeverSplits(env: Env, ser: Rootfs -> Bytes, r: Run, k: nat)
    requires Trusted(env) && IsRun(env, ser, r) && k < |r| && CleanUpTo(r, k)
    ensures NeverSplit(r, k)
    decreases k
  {
    BuiltSane(env, ser, r, k);
    match r[k].base
    case None => InitialDistinct(r[k].tree);
    case Some(j) =>
      assert Built(env, ser, r, k);
      CleanNeverSplits(env, ser, r, j);
      if r[k].layer in LayersAt(r, j) {
        CleanIsUnsplit(env, ser, r, j);
        RunShows(env, ser, r, j);
        IsoTrans(r[Shown(r, j)].tree, r[j].tree, r[k].tree);
        IsoSplitsNothing(EnvAt(env, r, Shown(r, j)), LayersAt(r, j), r[Shown(r, j)].tree, PlanAt(r, Shown(r, j)), r[k].tree);
      }
  }
}
