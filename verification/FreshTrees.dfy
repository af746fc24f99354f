/** When a history is displayed, told from its trees alone. */
module FreshTrees {
  import opened Types
  import opened HostTree
  import opened Layers
  import opened Store
  import opened Plans
  import opened View
  import opened Numbers
  import opened Deltas
  import opened Reproducible
  import opened Display
  import opened Images
  import opened Steps
  import opened Splits
  import opened Runs
  import opened Histories

  /** A layer renders one tree up to host inode numbers, whether it was compressed or not. */
  lemma SameLayerIso(env: Env, other: Env, blobs: Blobs, l: Layer, t: Tree, plan: Plan, u: Tree, plan': Plan)
    requires SameLibraries(env, other) && Shows(env, [l], t, plan) && Shows(other, [l], u, plan') && GoodChunker(env)
    requires Stored(env, blobs, t) && Stored(other, blobs, u)
    ensures Iso(t, u)
  {
    ShowsDisplays(env, blobs, [l], t, plan);
    ShowsDisplays(other, blobs, [l], u, plan');
    DisplaysAny(env, other, blobs, [l], u);
    DisplaysDetermines(env, blobs, [l], t, u);
  }

  lemma TopAlone(env: Env, layers: seq<Layer>, t: Tree, plan: Plan, l: Layer)
    requires Shows(env, layers, t, plan) && l == layers[0]
    ensures Shows(env, [l], t, plan)
  {
  }

  /** A build that adds its layer without splitting anything: the layer alone shows the tree. */
  lemma LayerShows(env: Env, ser: Rootfs -> Bytes, r: Run, i: nat)
    requires Trusted(env) && IsRun(env, ser, r) && i < |r| && Unsplit(r, i) && Shown(r, i) == i
    ensures Sane(r, i) && Shows(EnvAt(env, r, i), [r[i].layer], r[i].tree, PlanAt(r, i))
  {
    RunShows(env, ser, r, i);
    TopIsOwn(env, ser, r, i);
    TopAlone(EnvAt(env, r, i), LayersAt(r, i), r[i].tree, PlanAt(r, i), r[i].layer);
  }

  lemma KeptLinksShow(env: Env, other: Env, layers: seq<Layer>, t: Tree, plan: Plan, u: Tree, l: Layer)
    requires Shows(env, layers, t, plan) && WellFormed(layers) && ValidTree(u) && LinksKept(t, u)
    requires Rendering(other, Some(layers), u, l)
    ensures NoSplit(Some(layers), u) && Shows(other, [l], u, PlanOf(Some(layers), u))
  {
    NoSplitIffLinksKept(env, layers, t, plan, u);
    DistinctIffNoSplit(env, layers, t, plan, u);
    NewLayerShows(other, Some(layers), u, l, []);
    assert [l] + [] == [l];
  }

  lemma LinksKeptByIso(t: Tree, t': Tree, u: Tree)
    requires Iso(t, t') && LinksKept(t', u)
    ensures LinksKept(t, u)
  {
    var fs := Firsts(u, Visits(u));
    forall p, q | p in fs && q in fs && SameInode(t, p, q) ensures p == q {
      assert SameInode(t', p, q);
    }
    forall p, w | p in fs && DeletedFrom(t, u, w) ensures !SameInode(t, p, w) {
      assert DeletedFrom(t', u, w) && (SameInode(t, p, w) <==> SameInode(t', p, w));
    }
  }

  /** The links of the base's tree are kept, and the tree is like none before, or like the base's. */
  ghost predicate FreshAt(r: Run, k: nat, j: nat)
    requires k < |r| && j < |r|
  {
    && LinksKept(r[j].tree, r[k].tree)
    && forall i: nat | Ancestor(r, i, j) && Iso(r[i].tree, r[k].tree) :: Iso(r[j].tree, r[k].tree)
  }

  ghost predicate FreshUpTo(r: Run, k: nat)
    requires k < |r|
    decreases k
  {
    r[k].base.Some? && r[k].base.value < k ==> FreshAt(r, k, r[k].base.value) && FreshUpTo(r, r[k].base.value)
  }

  lemma BaseShowsLinks(env: Env, ser: Rootfs -> Bytes, r: Run, k: nat, j: nat)
    requires Trusted(env) && IsRun(env, ser, r) && From(r, k, j) && CleanUpTo(r, j) && LinksKept(r[j].tree, r[k].tree)
    ensures Sane(r, k) && NoSplit(Some(LayersAt(r, j)), r[k].tree)
    ensures Shows(EnvAt(env, r, k), [r[k].layer], r[k].tree, PlanAt(r, k))
  {
    var m := Shown(r, j);
    BuiltSane(env, ser, r, k);
    CleanIsUnsplit(env, ser, r, j);
    RunShows(env, ser, r, j);
    LinksKeptByIso(r[m].tree, r[j].tree, r[k].tree);
    DeltaAt(env, ser, r, k, j);
    KeptLinksShow(EnvAt(env, r, m), EnvAt(env, r, k), LayersAt(r, j), r[m].tree, PlanAt(r, m), r[k].tree, r[k].layer);
  }

  lemma StoredFor(env: Env, ser: Rootfs -> Bytes, r: Run, i: nat, k: nat)
    requires Trusted(env) && IsRun(env, ser, r) && i <= k < |r|
    ensures ValidTree(r[i].tree) && Stored(EnvAt(env, r, i), r[k].state.blobs, r[i].tree)
  {
    BuildAdds(env, ser, r, i);
    if i < k {
      StoreGrows(env, ser, r, i, k);
      StoreLeft(env, ser, r, k);
      GrowsTwice(r[i].state.blobs, r[k].store, r[k].state.blobs);
      StoredInMore(EnvAt(env, r, i), r[i].state.blobs, r[k].state.blobs, r[i].tree);
    }
  }

  /** A build that renders a layer of an earlier image builds the tree of the build that layer comes from. */
  lemma SameLayerSameTree(env: Env, ser: Rootfs -> Bytes, r: Run, k: nat, i: nat)
    requires Trusted(env) && IsRun(env, ser, r) && i <= k < |r| && r[i].layer == r[k].layer
    requires Unsplit(r, i) && Shown(r, i) == i && Sane(r, k) && Shows(EnvAt(env, r, k), [r[k].layer], r[k].tree, PlanAt(r, k))
    ensures Iso(r[i].tree, r[k].tree)
  {
    LayerShows(env, ser, r, i);
    StoredFor(env, ser, r, i, k);
    StoredFor(env, ser, r, k, k);
    TrustedAny(env, EnvAt(env, r, i));
    SameLayerIso(EnvAt(env, r, i), EnvAt(env, r, k), r[k].state.blobs, r[k].layer, r[i].tree, PlanAt(r, i), r[k].tree,
                 PlanAt(r, k));
  }

  lemma FreshStep(env: Env, ser: Rootfs -> Bytes, r: Run, k: nat, j: nat)
    requires Trusted(env) && IsRun(env, ser, r) && From(r, k, j) && CleanUpTo(r, j) && FreshAt(r, k, j)
    ensures CleanAt(r, k)
  {
    BaseShowsLinks(env, ser, r, k, j);
    if r[k].layer in LayersAt(r, j) {
      var i := LayerOrigin(env, ser, r, j, r[k].layer);
      CleanIsUnsplit(env, ser, r, j);
      AncestorUnsplit(r, i, j);
      SameLayerSameTree(env, ser, r, k, i);
    }
  }

  lemma {:induction false} FreshIsClean(env: Env, ser: Rootfs -> Bytes, r: Run, k: nat)
    requires Trusted(env) && IsRun(env, ser, r) && k < |r| && FreshUpTo(r, k)
    ensures CleanUpTo(r, k)
    decreases k
  {
    if r[k].base.Some? && r[k].base.value < k {
      FreshIsClean(env, ser, r, r[k].base.value);
      FreshStep(env, ser, r, k, r[k].base.value);
    }
  }

  /**
   * If every build on the way to an image keeps the hard links of the tree before, and no tree repeats
   * one that is older than the last, then the image displays its tree.
   */
  lemma FreshTreesAreDisplayed(env: Env, ser: Rootfs -> Bytes, r: Run, k: nat)
    requires Trusted(env) && IsRun(env, ser, r) && k < |r| && FreshUpTo(r, k)
    ensures DisplaysAt(env, r, k)
  {
    FreshIsClean(env, ser, r, k);
    DisplaysIffCleanUpTo(env, ser, r, k);
  }
}
