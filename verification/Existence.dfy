/** Histories exist: every build that is not barred has an outcome. */
module Existence {
  import opened Types
  import opened HostTree
  import opened Layers
  import opened Sorting
  import opened Store
  import opened Plans
  import opened View
  import opened Numbers
  import opened Deltas
  import opened ShownWalk
  import opened Images
  import opened Steps
  import opened Splits
  import opened Runs
  import opened Drops

  lemma RenderingExists(env: Env, ex: Base, t: Tree) returns (l: Layer)
    requires Usable(ex) && ValidTree(t)
    ensures Rendering(env, ex, t, l)
  {
    PlanShape(ex, t);
    l := SortByIno(Unsorted(env, t, PlanOf(ex, t)));
  }

  lemma InitialExists(env: Env, ser: Rootfs -> Bytes, blobs: Blobs, t: Tree) returns (l: Layer, s: ImageState)
    requires ValidTree(t)
    ensures InitialStep(env, ser, blobs, t, s) && s.rootfs.metadatas == [l]
  {
    l := RenderingExists(env, None, t);
    var e := EffectsOf(env, blobs, t);
    var rootfs := Rootfs([l], e.verity);
    s := ImageState(rootfs, Put(env, false, e.blobs, ser(rootfs)));
  }

  lemma DeltaExists(env: Env, ser: Rootfs -> Bytes, s: ImageState, t: Tree) returns (l: Layer, s': ImageState)
    requires ValidTree(t) && NonEmpty(s.rootfs.metadatas) && Buildable(Some(s.rootfs.metadatas), t)
    ensures DeltaStep(env, ser, s, t, l, s')
  {
    l := RenderingExists(env, Some(s.rootfs.metadatas), t);
    var e := EffectsOf(env, s.blobs, t);
    var rootfs := Rootfs(Push(s.rootfs.metadatas, l), s.rootfs.verity + e.verity);
    s' := ImageState(rootfs, Put(env, false, e.blobs, ser(rootfs)));
  }

  lemma StoreKeptInMore(env: Env, r: Run, b: Build, k: nat)
    requires k < |r| && StoreKept(env, r, k)
    ensures StoreKept(env, r + [b], k)
  {
    if k > 0 {
      assert StillThere(r, k - 1, k);
      assert StillThere(r + [b], k - 1, k);
    }
  }

  lemma BuiltInMore(env: Env, ser: Rootfs -> Bytes, r: Run, b: Build, k: nat)
    requires k < |r| && Built(env, ser, r, k)
    ensures Built(env, ser, r + [b], k)
  {
    assert (r + [b])[k] == r[k] && forall j | 0 <= j < k :: (r + [b])[j] == r[j];
  }

  lemma Extended(env: Env, ser: Rootfs -> Bytes, r: Run, b: Build)
    requires IsRun(env, ser, r) && StoreKept(env, r + [b], |r|) && Built(env, ser, r + [b], |r|)
    ensures IsRun(env, ser, r + [b])
  {
    KeptExtended(env, ser, r, b, r + [b]);
    BuiltExtended(env, ser, r, b, r + [b]);
  }

  lemma KeptExtended(env: Env, ser: Rootfs -> Bytes, r: Run, b: Build, more: Run)
    requires IsRun(env, ser, r) && more == r + [b] && StoreKept(env, more, |r|)
    ensures forall k {:trigger StoreKept(env, more, k)} | 0 <= k < |more| :: StoreKept(env, more, k)
  {
    forall k | 0 <= k < |more| ensures StoreKept(env, more, k) {
      if k < |r| {
        assert StoreKept(env, r, k);
        StoreKeptInMore(env, r, b, k);
      }
    }
  }

  lemma BuiltExtended(env: Env, ser: Rootfs -> Bytes, r: Run, b: Build, more: Run)
    requires IsRun(env, ser, r) && more == r + [b] && Built(env, ser, more, |r|)
    ensures forall k {:trigger Built(env, ser, more, k)} | 0 <= k < |more| :: Built(env, ser, more, k)
  {
    forall k | 0 <= k < |more| ensures Built(env, ser, more, k) {
      if k < |r| {
        assert Built(env, ser, r, k);
        BuiltInMore(env, ser, r, b, k);
      }
    }
  }

  /** A history can start with any tree, any choice of compression and any store. */
  lemma FirstExists(env: Env, ser: Rootfs -> Bytes, blobs: Blobs, zstd: bool, t: Tree) returns (r: Run)
    requires ContentAddressed(env, blobs) && ValidTree(t)
    ensures IsRun(env, ser, r) && |r| == 1 && r[0].tree == t && r[0].zstd == zstd && r[0].base == None
  {
    var l, s := InitialExists(env.(zstd := zstd), ser, blobs, t);
    var b := Build(zstd, None, t, l, blobs, s);
    assert IsRun(env, ser, []);
    assert [] + [b] == [b];
    assert StoreKept(env, [b], 0);
    assert Built(env, ser, [b], 0);
    Extended(env, ser, [], b);
    r := [b];
  }

  lemma NextStore(env: Env, r: Run, k: nat, last: nat)
    requires k < |r| && k == last + 1 && ContentAddressed(env, r[k].store) && r[k].store == r[last].state.blobs
    ensures StoreKept(env, r, k)
  {
    assert StillThere(r, last, k);
  }

  lemma NextIsBuilt(env: Env, ser: Rootfs -> Bytes, r: Run, k: nat, j: nat, other: Env, s: ImageState)
    requires k < |r| && j < k && r[k].base == Some(j) && other == EnvAt(env, r, k) && s == Found(r, k, j)
    requires DeltaStep(other, ser, s, r[k].tree, r[k].layer, r[k].state)
    ensures Built(env, ser, r, k)
  {
  }

  lemma ExtendBy(env: Env, ser: Rootfs -> Bytes, r: Run, b: Build, j: nat, last: nat)
    requires IsRun(env, ser, r) && j < |r| == last + 1 && b.base == Some(j)
    requires ContentAddressed(env, b.store) && b.store == r[last].state.blobs
    requires DeltaStep(env.(zstd := b.zstd), ser, ImageState(r[j].state.rootfs, b.store), b.tree, b.layer, b.state)
    ensures IsRun(env, ser, r + [b])
  {
    var more, k := r + [b], |r|;
    assert more[k] == b && more[last] == r[last] && more[j] == r[j];
    NextStore(env, more, k, last);
    NextIsBuilt(env, ser, more, k, j, env.(zstd := b.zstd), ImageState(r[j].state.rootfs, b.store));
    Extended(env, ser, r, b);
  }

  /** And it can go on from any image with any tree that is not barred by a whiteout. */
  lemma NextExists(env: Env, ser: Rootfs -> Bytes, r: Run, j: nat, zstd: bool, t: Tree) returns (b: Build)
    requires Trusted(env) && IsRun(env, ser, r) && j < |r| && ValidTree(t)
    requires NonEmpty(LayersAt(r, j)) && Buildable(Some(LayersAt(r, j)), t)
    ensures IsRun(env, ser, r + [b]) && b.tree == t && b.zstd == zstd && b.base == Some(j)
  {
    var last := |r| - 1;
    var blobs := r[last].state.blobs;
    BuildAdds(env, ser, r, last);
    var l, s := DeltaExists(env.(zstd := zstd), ser, ImageState(r[j].state.rootfs, blobs), t);
    b := Build(zstd, Some(j), t, l, blobs, s);
    ExtendBy(env, ser, r, b, j, last);
  }

  /** An image without whiteouts can be followed by any tree. */
  lemma AnyTreeBuilds(env: Env, layers: seq<Layer>, t: Tree, plan: Plan, u: Tree)
    requires Shows(env, layers, t, plan) && DropsNothing(plan)
    ensures Buildable(Some(layers), u)
  {
    BuildableIff(env, layers, t, plan, u);
    forall p | p in u ensures !Whited(t, plan, p) {
      forall k | 0 <= k < |p| ensures !WhitedAt(t, plan, p, k) {
      }
    }
  }

  lemma FirstFollowed(env: Env, ser: Rootfs -> Bytes, r: Run, k: nat, u: Tree)
    requires Trusted(env) && IsRun(env, ser, r) && k < |r| && r[k].base == None
    ensures NonEmpty(LayersAt(r, k)) && Buildable(Some(LayersAt(r, k)), u)
  {
    FirstShows(env, ser, r, k);
    InitialDropsNothing(r[k].tree);
    AnyTreeBuilds(EnvAt(env, r, k), LayersAt(r, k), r[k].tree, PlanAt(r, k), u);
  }

  /** Any two trees have a history, with any choices of compression. */
  lemma TwoBuildsExist(env: Env, ser: Rootfs -> Bytes, blobs: Blobs, t: Tree, u: Tree, z: bool, z': bool) returns (r: Run)
    requires Trusted(env) && ContentAddressed(env, blobs) && ValidTree(t) && ValidTree(u)
    ensures IsRun(env, ser, r) && |r| == 2 && r[0].base == None && From(r, 1, 0)
    ensures r[0].tree == t && r[1].tree == u && r[0].zstd == z && r[1].zstd == z'
  {
    var first := FirstExists(env, ser, blobs, z, t);
    FirstFollowed(env, ser, first, 0, u);
    var b := NextExists(env, ser, first, 0, z', u);
    r := first + [b];
  }

  lemma RetouchFollowed(env: Env, ser: Rootfs -> Bytes, r: Run, v: Tree)
    requires Trusted(env) && IsRun(env, ser, r) && From(r, 1, 0) && r[0].base == None && Retouched(r[0].tree, r[1].tree)
    ensures NonEmpty(LayersAt(r, 1)) && Buildable(Some(LayersAt(r, 1)), v)
  {
    FirstShows(env, ser, r, 0);
    BuiltSane(env, ser, r, 1);
    RetouchSplitsNothing(EnvAt(env, r, 0), LayersAt(r, 0), r[0].tree, PlanAt(r, 0), r[1].tree);
    PlanRepeats(EnvAt(env, r, 0), LayersAt(r, 0), r[0].tree, PlanAt(r, 0), r[1].tree);
    InitialDistinct(r[0].tree);
    RunShows(env, ser, r, 1);
    InitialDropsNothing(r[0].tree);
    var m := Shown(r, 1);
    AnyTreeBuilds(EnvAt(env, r, m), LayersAt(r, 1), r[m].tree, PlanAt(r, m), v);
  }

  /** So has any change of contents or metadata, or none, that is followed by any tree. */
  lemma RetouchExists(env: Env, ser: Rootfs -> Bytes, blobs: Blobs, t: Tree, u: Tree, v: Tree, z: bool, z': bool, z'': bool)
    returns (r: Run)
    requires Trusted(env) && ContentAddressed(env, blobs) && ValidTree(t) && ValidTree(u) && ValidTree(v) && Retouched(t, u)
    ensures IsRun(env, ser, r) && |r| == 3 && r[0].base == None && From(r, 1, 0) && From(r, 2, 1)
    ensures r[0].tree == t && r[1].tree == u && r[2].tree == v && r[0].zstd == z && r[1].zstd == z' && r[2].zstd == z''
  {
    var two := TwoBuildsExist(env, ser, blobs, t, u, z, z');
    RetouchFollowed(env, ser, two, v);
    var b := NextExists(env, ser, two, 1, z'', v);
    r := two + [b];
  }
}
