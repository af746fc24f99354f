/**
 * Histories of a blob directory: any number of builds, each from nothing or on any image built before,
 * each with or without compression, with anything else stored in between.
 */
module Runs {
  import opened Types
  import opened HostTree
  import opened Store
  import opened Plans
  import opened Numbers
  import opened Reproducible
  import opened Display
  import opened Images
  import opened Steps
  import opened Splits

  /**
   * One build: whether it compresses, the earlier build whose image it starts from, the tree, the layer
   * rendered, the blob directory it finds, and the image and blob directory it leaves.
   */
  datatype Build = Build(zstd: bool, base: Option<nat>, tree: Tree, layer: Layer, store: Blobs, state: ImageState)

  type Run = seq<Build>

  function EnvAt(env: Env, r: Run, k: nat): Env
    requires k < |r|
  {
    env.(zstd := r[k].zstd)
  }

  function LayersAt(r: Run, k: nat): seq<Layer>
    requires k < |r|
  {
    r[k].state.rootfs.metadatas
  }

  /** The image that build k starts from, in the blob directory the build finds. */
  function Found(r: Run, k: nat, j: nat): ImageState
    requires k < |r| && j < |r|
  {
    ImageState(r[j].state.rootfs, r[k].store)
  }

  /** What build i left is still there when build k starts. */
  ghost predicate StillThere(r: Run, i: nat, k: nat)
    requires i < |r| && k < |r|
  {
    AppendOnly(r[i].state.blobs, r[k].store)
  }

  ghost predicate StoreKept(env: Env, r: Run, k: nat)
    requires k < |r|
  {
    ContentAddressed(env, r[k].store) && (k > 0 ==> StillThere(r, k - 1, k))
  }

  ghost predicate Built(env: Env, ser: Rootfs -> Bytes, r: Run, k: nat)
    requires k < |r|
  {
    match r[k].base
    case None => InitialStep(EnvAt(env, r, k), ser, r[k].store, r[k].tree, r[k].state) && LayersAt(r, k) == [r[k].layer]
    case Some(j) => j < k && DeltaStep(EnvAt(env, r, k), ser, Found(r, k, j), r[k].tree, r[k].layer, r[k].state)
  }

  ghost predicate IsRun(env: Env, ser: Rootfs -> Bytes, r: Run) {
    && (forall k {:trigger StoreKept(env, r, k)} | 0 <= k < |r| :: StoreKept(env, r, k))
    && (forall k {:trigger Built(env, ser, r, k)} | 0 <= k < |r| :: Built(env, ser, r, k))
  }

  /** Build k starts from the image of build j. */
  predicate From(r: Run, k: nat, j: nat) {
    k < |r| && r[k].base == Some(j) && j < k
  }

  /** Build i is build k, or one whose image that of build k goes back to. */
  predicate Ancestor(r: Run, i: nat, k: nat): (goesBack: bool)
    ensures goesBack ==> i <= k < |r|
    decreases k
  {
    k < |r| && (i == k || (r[k].base.Some? && r[k].base.value < k && Ancestor(r, i, r[k].base.value)))
  }

  lemma TrustedAny(env: Env, other: Env)
    requires SameLibraries(env, other) && Trusted(env)
    ensures Trusted(other)
  {
  }

  lemma DeltaAt(env: Env, ser: Rootfs -> Bytes, r: Run, k: nat, j: nat)
    requires Trusted(env) && IsRun(env, ser, r) && From(r, k, j)
    ensures Trusted(EnvAt(env, r, k)) && ContentAddressed(env, r[k].store)
    ensures DeltaStep(EnvAt(env, r, k), ser, Found(r, k, j), r[k].tree, r[k].layer, r[k].state)
  {
    assert StoreKept(env, r, k) && Built(env, ser, r, k);
    TrustedAny(env, EnvAt(env, r, k));
  }

  // The blob directory.

  lemma BuildAdds(env: Env, ser: Rootfs -> Bytes, r: Run, k: nat)
    requires Trusted(env) && IsRun(env, ser, r) && k < |r|
    ensures ValidTree(r[k].tree) && Stored(EnvAt(env, r, k), r[k].state.blobs, r[k].tree)
    ensures ContentAddressed(env, r[k].state.blobs) && AppendOnly(r[k].store, r[k].state.blobs)
  {
    assert StoreKept(env, r, k) && Built(env, ser, r, k);
    TrustedAny(env, EnvAt(env, r, k));
    match r[k].base
    case None => InitialGrows(EnvAt(env, r, k), ser, r[k].store, r[k].tree, r[k].state);
    case Some(j) => DeltaGrows(EnvAt(env, r, k), ser, Found(r, k, j), r[k].tree, r[k].layer, r[k].state);
  }

  lemma StoreFound(env: Env, ser: Rootfs -> Bytes, r: Run, k: nat, j: nat)
    requires IsRun(env, ser, r) && k < |r| && k == j + 1
    ensures StillThere(r, j, k)
  {
    assert StoreKept(env, r, k);
  }

  lemma StoreLeft(env: Env, ser: Rootfs -> Bytes, r: Run, k: nat)
    requires Trusted(env) && IsRun(env, ser, r) && k < |r|
    ensures AppendOnly(r[k].store, r[k].state.blobs)
  {
    BuildAdds(env, ser, r, k);
  }

  /** Nothing that is stored ever goes away. */
  lemma {:induction false} StoreGrows(env: Env, ser: Rootfs -> Bytes, r: Run, i: nat, k: nat)
    requires Trusted(env) && IsRun(env, ser, r) && i < k < |r|
    ensures StillThere(r, i, k)
    decreases k
  {
    var j := k - 1;
    StoreFound(env, ser, r, k, j);
    if i < j {
      StoreGrows(env, ser, r, i, j);
      StoreLeft(env, ser, r, j);
      GrowsTwice(r[i].state.blobs, r[j].store, r[j].state.blobs);
      GrowsTwice(r[i].state.blobs, r[j].state.blobs, r[k].store);
    }
  }

  // Which build an image shows.

  /** A build whose layer its base has already leaves what is shown as it was. */
  function Shown(r: Run, k: nat): (m: nat)
    requires k < |r|
    ensures m <= k
    decreases k
  {
    match r[k].base
    case Some(j) => if j < k && r[k].layer in LayersAt(r, j) then Shown(r, j) else k
    case None => k
  }

  ghost function BaseAt(r: Run, k: nat): Base
    requires k < |r|
  {
    match r[k].base
    case Some(j) => if j < k then Some(LayersAt(r, j)) else None
    case None => None
  }

  ghost predicate Sane(r: Run, k: nat)
    requires k < |r|
  {
    ValidTree(r[k].tree) && Usable(BaseAt(r, k))
  }

  ghost function PlanAt(r: Run, k: nat): Plan
    requires k < |r| && Sane(r, k)
  {
    PlanOf(BaseAt(r, k), r[k].tree)
  }

  lemma BuiltSane(env: Env, ser: Rootfs -> Bytes, r: Run, k: nat)
    requires IsRun(env, ser, r) && k < |r|
    ensures Sane(r, k)
  {
    assert Built(env, ser, r, k);
  }

  /** No layer that the image of build k goes back to was added by a build that split hard links. */
  ghost predicate Unsplit(r: Run, k: nat)
    requires k < |r|
    decreases k
  {
    && Sane(r, k) && (Shown(r, k) == k ==> NoSplit(BaseAt(r, k), r[k].tree))
    && (r[k].base.Some? && r[k].base.value < k ==> Unsplit(r, r[k].base.value))
  }

  /** The image of build k is good for the tree of build m, by that build's plan. */
  ghost predicate GoodFor(env: Env, r: Run, k: nat, m: nat, blobs: Blobs)
    requires k < |r| && m < |r|
  {
    Sane(r, m) && Good(EnvAt(env, r, m), ImageState(r[k].state.rootfs, blobs), r[m].tree, PlanAt(r, m))
  }

  lemma GoodLater(env: Env, r: Run, k: nat, m: nat, blobs: Blobs, more: Blobs)
    requires k < |r| && m < |r| && GoodFor(env, r, k, m, blobs) && AppendOnly(blobs, more) && ContentAddressed(env, more)
    ensures GoodFor(env, r, k, m, more)
  {
    GoodInMore(EnvAt(env, r, m), ImageState(r[k].state.rootfs, blobs), r[m].tree, PlanAt(r, m), more);
  }

  lemma FirstShows(env: Env, ser: Rootfs -> Bytes, r: Run, k: nat)
    requires Trusted(env) && IsRun(env, ser, r) && k < |r| && r[k].base == None
    ensures GoodFor(env, r, k, k, r[k].state.blobs)
  {
    FirstStep(env, ser, r, k);
    InitialGood(EnvAt(env, r, k), ser, r[k].store, r[k].tree, r[k].state);
    assert ImageState(r[k].state.rootfs, r[k].state.blobs) == r[k].state;
  }

  lemma FirstStep(env: Env, ser: Rootfs -> Bytes, r: Run, k: nat)
    requires Trusted(env) && IsRun(env, ser, r) && k < |r| && r[k].base == None
    ensures Trusted(EnvAt(env, r, k)) && ContentAddressed(EnvAt(env, r, k), r[k].store)
    ensures InitialStep(EnvAt(env, r, k), ser, r[k].store, r[k].tree, r[k].state) && LayersAt(r, k) == [r[k].layer]
  {
    assert StoreKept(env, r, k) && Built(env, ser, r, k);
    TrustedAny(env, EnvAt(env, r, k));
  }

  lemma DeltaShows(env: Env, ser: Rootfs -> Bytes, r: Run, k: nat, j: nat, m: nat)
    requires Trusted(env) && IsRun(env, ser, r) && From(r, k, j) && m < |r| && GoodFor(env, r, j, m, r[k].store)
    requires Sane(r, k) && (Shown(r, k) == k ==> NoSplit(BaseAt(r, k), r[k].tree))
    ensures GoodFor(env, r, k, if r[k].layer in LayersAt(r, j) then m else k, r[k].state.blobs)
  {
    DeltaAt(env, ser, r, k, j);
    if r[k].layer in LayersAt(r, j) {
      StaleKeepsOldView(EnvAt(env, r, m), EnvAt(env, r, k), ser, Found(r, k, j), r[m].tree, PlanAt(r, m), r[k].tree,
                        r[k].layer, r[k].state);
    } else {
      DeltaGood(EnvAt(env, r, m), EnvAt(env, r, k), ser, Found(r, k, j), r[m].tree, PlanAt(r, m), r[k].tree, r[k].layer,
                r[k].state);
    }
  }

  lemma BaseGood(env: Env, ser: Rootfs -> Bytes, r: Run, k: nat, j: nat, m: nat)
    requires Trusted(env) && IsRun(env, ser, r) && From(r, k, j) && m < |r| && GoodFor(env, r, j, m, r[j].state.blobs)
    ensures GoodFor(env, r, j, m, r[k].store)
  {
    assert StoreKept(env, r, k);
    StoreGrows(env, ser, r, j, k);
    GoodLater(env, r, j, m, r[j].state.blobs, r[k].store);
  }

  /** Which tree an image shows: that of the last build on the way to it whose layer was new. */
  lemma {:induction false} RunShows(env: Env, ser: Rootfs -> Bytes, r: Run, k: nat)
    requires Trusted(env) && IsRun(env, ser, r) && k < |r| && Unsplit(r, k)
    ensures GoodFor(env, r, k, Shown(r, k), r[k].state.blobs)
    decreases k
  {
    match r[k].base
    case None => FirstShows(env, ser, r, k);
    case Some(j) =>
      assert Built(env, ser, r, k);
      RunShows(env, ser, r, j);
      BaseGood(env, ser, r, k, j, Shown(r, j));
      DeltaShows(env, ser, r, k, j, Shown(r, j));
  }

  /** And it displays that tree, and no other, in every blob directory that the first one grows into. */
  lemma RunDisplays(env: Env, ser: Rootfs -> Bytes, r: Run, k: nat, blobs: Blobs, u: Tree)
    requires Trusted(env) && IsRun(env, ser, r) && k < |r| && Unsplit(r, k)
    requires AppendOnly(r[k].state.blobs, blobs) && ContentAddressed(env, blobs)
    ensures Displays(env, blobs, LayersAt(r, k), u) <==> Iso(r[Shown(r, k)].tree, u)
  {
    var m := Shown(r, k);
    RunShows(env, ser, r, k);
    GoodLater(env, r, k, m, r[k].state.blobs, blobs);
    GoodDisplaysIff(env, EnvAt(env, r, m), ImageState(r[k].state.rootfs, blobs), r[m].tree, PlanAt(r, m), u);
  }

  // When every image displays its own tree.

  /** A first build, or a delta that adds a layer and splits nothing, or one of the tree its base is for. */
  ghost predicate CleanAt(r: Run, k: nat)
    requires k < |r|
  {
    r[k].base.Some? && r[k].base.value < k ==>
      Clean(LayersAt(r, r[k].base.value), r[r[k].base.value].tree, r[k].tree, r[k].layer)
  }

  /** Every build that the image of build k goes back to is clean. */
  ghost predicate CleanUpTo(r: Run, k: nat)
    requires k < |r|
    decreases k
  {
    CleanAt(r, k) && (r[k].base.Some? && r[k].base.value < k ==> CleanUpTo(r, r[k].base.value))
  }

  ghost predicate DisplaysAt(env: Env, r: Run, k: nat)
    requires k < |r|
  {
    Displays(env, r[k].state.blobs, LayersAt(r, k), r[k].tree)
  }

  ghost predicate DisplaysUpTo(env: Env, r: Run, k: nat)
    requires k < |r|
    decreases k
  {
    DisplaysAt(env, r, k) && (r[k].base.Some? && r[k].base.value < k ==> DisplaysUpTo(env, r, r[k].base.value))
  }

  lemma IsoSelf(t: Tree)
    ensures Iso(t, t)
  {
  }

  lemma IsoTrans(t: Tree, u: Tree, v: Tree)
    requires Iso(t, u) && Iso(u, v)
    ensures Iso(t, v)
  {
    forall p | p in t ensures SameFace(t[p], v[p]) {
      assert SameFace(t[p], u[p]) && SameFace(u[p], v[p]);
    }
  }

  lemma {:induction false} CleanIsUnsplit(env: Env, ser: Rootfs -> Bytes, r: Run, k: nat)
    requires IsRun(env, ser, r) && k < |r| && CleanUpTo(r, k)
    ensures Unsplit(r, k) && Iso(r[Shown(r, k)].tree, r[k].tree)
    decreases k
  {
    BuiltSane(env, ser, r, k);
    match r[k].base
    case None => InitialDistinct(r[k].tree);
    case Some(j) =>
      assert Built(env, ser, r, k);
      CleanIsUnsplit(env, ser, r, j);
      if r[k].layer in LayersAt(r, j) {
        IsoTrans(r[Shown(r, j)].tree, r[j].tree, r[k].tree);
      }
  }

  /** The image of a clean history shows the tree it was built from, and displays it in every later blob directory. */
  lemma CleanDisplays(env: Env, ser: Rootfs -> Bytes, r: Run, k: nat, blobs: Blobs)
    requires Trusted(env) && IsRun(env, ser, r) && k < |r| && CleanUpTo(r, k)
    requires AppendOnly(r[k].state.blobs, blobs) && ContentAddressed(env, blobs)
    ensures Displays(env, blobs, LayersAt(r, k), r[k].tree)
  {
    CleanIsUnsplit(env, ser, r, k);
    RunDisplays(env, ser, r, k, blobs, r[k].tree);
  }

  /** So in a clean history every image still displays its tree, whatever has been built since. */
  lemma EarlierStillDisplays(env: Env, ser: Rootfs -> Bytes, r: Run, i: nat, k: nat)
    requires Trusted(env) && IsRun(env, ser, r) && i <= k < |r| && CleanUpTo(r, i)
    ensures Displays(env, r[k].state.blobs, LayersAt(r, i), r[i].tree)
  {
    BuildAdds(env, ser, r, k);
    if i < k {
      StoreGrows(env, ser, r, i, k);
      GrowsTwice(r[i].state.blobs, r[k].store, r[k].state.blobs);
    }
    CleanDisplays(env, ser, r, i, r[k].state.blobs);
  }

  /** Over a base that shows some tree, a build is displayed exactly when it is clean with respect to that tree. */
  lemma BuildDisplaysIff(env: Env, ser: Rootfs -> Bytes, r: Run, k: nat, j: nat)
    requires Trusted(env) && IsRun(env, ser, r) && From(r, k, j) && Unsplit(r, j)
    ensures DisplaysAt(env, r, k) <==> Clean(LayersAt(r, j), r[Shown(r, j)].tree, r[k].tree, r[k].layer)
  {
    var m := Shown(r, j);
    RunShows(env, ser, r, j);
    BaseGood(env, ser, r, k, j, m);
    DeltaAt(env, ser, r, k, j);
    TrustedAny(env, EnvAt(env, r, m));
    DisplaysIffClean(EnvAt(env, r, m), EnvAt(env, r, k), ser, Found(r, k, j), r[m].tree, PlanAt(r, m), r[k].tree,
                     r[k].layer, r[k].state);
    DisplaysAny(env, EnvAt(env, r, m), r[k].state.blobs, LayersAt(r, k), r[k].tree);
  }

  /** Among trees equal up to host inode numbers it does not matter which one the base shows. */
  lemma CleanByIso(layers: seq<Layer>, t: Tree, t': Tree, u: Tree, l: Layer)
    requires Iso(t, t')
    ensures Clean(layers, t, u, l) <==> Clean(layers, t', u, l)
  {
    IsoSym(t, t');
    if Iso(t, u) {
      IsoTrans(t', t, u);
    } else if Iso(t', u) {
      IsoTrans(t, t', u);
    }
  }

  lemma IsoSym(t: Tree, u: Tree)
    requires Iso(t, u)
    ensures Iso(u, t)
  {
    forall p | p in u ensures SameFace(u[p], t[p]) {
      assert SameFace(t[p], u[p]);
    }
  }

  /**
   * The exact condition: an image and all those it goes back to display the trees they were built from
   * if and only if every build on the way was clean.
   */
  lemma {:induction false} DisplaysIffCleanUpTo(env: Env, ser: Rootfs -> Bytes, r: Run, k: nat)
    requires Trusted(env) && IsRun(env, ser, r) && k < |r|
    ensures DisplaysUpTo(env, r, k) <==> CleanUpTo(r, k)
    decreases k
  {
    match r[k].base
    case None =>
      FirstShows(env, ser, r, k);
      GoodDisplays(env, EnvAt(env, r, k), r[k].state, r[k].tree, PlanAt(r, k));
    case Some(j) =>
      assert Built(env, ser, r, k);
      DisplaysIffCleanUpTo(env, ser, r, j);
      if CleanUpTo(r, j) {
        CleanIsUnsplit(env, ser, r, j);
        BuildDisplaysIff(env, ser, r, k, j);
        CleanByIso(LayersAt(r, j), r[Shown(r, j)].tree, r[j].tree, r[k].tree, r[k].layer);
      }
  }

  lemma {:induction false} CleanRunUpTo(r: Run, k: nat)
    requires k < |r| && forall i | 0 <= i < |r| :: CleanAt(r, i)
    ensures CleanUpTo(r, k)
    decreases k
  {
    if r[k].base.Some? && r[k].base.value < k {
      CleanRunUpTo(r, r[k].base.value);
    }
  }

  lemma {:induction false} DisplaysRunUpTo(env: Env, r: Run, k: nat)
    requires k < |r| && forall i | 0 <= i < |r| :: DisplaysAt(env, r, i)
    ensures DisplaysUpTo(env, r, k)
    decreases k
  {
    if r[k].base.Some? && r[k].base.value < k {
      DisplaysRunUpTo(env, r, r[k].base.value);
    }
  }

  /** Main theorem: over any history, every image displays its own tree if and only if every build was clean. */
  lemma RunDisplaysIffClean(env: Env, ser: Rootfs -> Bytes, r: Run)
    requires Trusted(env) && IsRun(env, ser, r)
    ensures (forall k | 0 <= k < |r| :: DisplaysAt(env, r, k)) <==> (forall k | 0 <= k < |r| :: CleanAt(r, k))
  {
    if forall k | 0 <= k < |r| :: CleanAt(r, k) {
      forall k | 0 <= k < |r| ensures DisplaysAt(env, r, k) {
        CleanRunUpTo(r, k);
        DisplaysIffCleanUpTo(env, ser, r, k);
      }
    }
    if forall k | 0 <= k < |r| :: DisplaysAt(env, r, k) {
      forall k | 0 <= k < |r| ensures CleanAt(r, k) {
        DisplaysRunUpTo(env, r, k);
        DisplaysIffCleanUpTo(env, ser, r, k);
      }
    }
  }
}
