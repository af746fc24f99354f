/** When a delta can be built, and when what it builds can be walked. */
module Drops {
  import opened Types
  import opened Seqs
  import opened HostTree
  import opened Layers
  import opened Resolution
  import opened Store
  import opened Plans
  import opened View
  import opened Deltas
  import opened Walk
  import opened ShownWalk
  import opened Images
  import opened Steps
  import opened Runs

  lemma InitialDropsNothing(t: Tree)
    requires ValidTree(t)
    ensures DropsNothing(PlanOf(None, t))
  {
  }

  /** After a first build a path that is not there is simply not found; no whiteout is met. */
  lemma InitialAbsent(env: Env, ser: Rootfs -> Bytes, blobs: Blobs, t: Tree, s: ImageState, p: Path)
    requires Trusted(env) && ContentAddressed(env, blobs) && InitialStep(env, ser, blobs, t, s) && p !in t
    ensures NonEmpty(s.rootfs.metadatas) && Lookup(s.rootfs.metadatas, p) == Ok(None)
  {
    InitialGood(env, ser, blobs, t, s);
    InitialDropsNothing(t);
    LookupGone(env, s.rootfs.metadatas, t, PlanOf(None, t), p);
    forall k | 0 <= k < |p| ensures !WhitedAt(t, PlanOf(None, t), p, k) {
    }
  }

  /** A delta gets through exactly when no path of its tree runs through an entry whited out before. */
  lemma BuildableIff(env: Env, layers: seq<Layer>, t: Tree, plan: Plan, u: Tree)
    requires Shows(env, layers, t, plan)
    ensures Buildable(Some(layers), u) <==> forall p | p in u :: !Whited(t, plan, p)
  {
    forall p | p in u ensures LookupExisting(Some(layers), p).Ok? <==> !Whited(t, plan, p) {
      if p in t {
        LookupLive(env, layers, t, plan, p);
        LiveNotWhited(t, plan, p);
      } else {
        LookupGone(env, layers, t, plan, p);
      }
    }
  }

  /** Nothing that a surviving directory listed is gone, now or before. */
  ghost predicate KeepsAll(t: Tree, plan: Plan, u: Tree) {
    forall d | d in DirSet(t) && d in DirSet(u) :: d in plan.whites && plan.whites[d] == [] && Children(t, d) <= u.Keys
  }

  lemma DirKeepsAll(env: Env, layers: seq<Layer>, t: Tree, plan: Plan, u: Tree, d: Path)
    requires Shows(env, layers, t, plan) && d in DirSet(u)
    requires forall p | p in u :: !Whited(t, plan, p)
    ensures Dropped(u, d, BaseEntries(Some(layers), d)) == [] <==>
            (d in DirSet(t) ==> d in plan.whites && plan.whites[d] == [] && Children(t, d) <= u.Keys)
  {
    BaseShows(env, layers, t, plan, d);
    if d in DirSet(t) {
      ShapeHas(t, plan, d);
      var es := DirEntries(t, plan, d);
      if plan.whites[d] != [] {
        WhitedName(t, plan, u, d, plan.whites[d][0]);
        assert plan.whites[d][0] in es;
      }
      forall p | p in Children(t, d) && p !in u ensures Dropped(u, d, es) != [] {
        ChildListed(t, plan, d, p);
        assert DirEnt(plan.alloc[t[p].hino], Last(p)) in Dropped(u, d, es);
      }
      if Dropped(u, d, es) != [] {
        var e := Dropped(u, d, es)[0];
        assert e in Dropped(u, d, es);
        EntryOrigin(t, plan, d, e);
        assert Init(d + [e.name]) == d;
      }
    }
  }

  lemma WhitedName(t: Tree, plan: Plan, u: Tree, d: Path, e: DirEnt)
    requires d in plan.whites && e in plan.whites[d] && forall p | p in u :: !Whited(t, plan, p)
    ensures d + [e.name] !in u
  {
    var p := d + [e.name];
    assert p[..|d|] == d && p[|d|] == e.name;
    assert WhitedAt(t, plan, p, |d|);
  }

  /** A delta drops nothing exactly when every directory that survives keeps all its entries. */
  lemma DropsNothingIff(env: Env, layers: seq<Layer>, t: Tree, plan: Plan, u: Tree)
    requires Shows(env, layers, t, plan) && ValidTree(u) && Buildable(Some(layers), u)
    ensures DropsNothing(PlanOf(Some(layers), u)) <==> KeepsAll(t, plan, u)
  {
    BuildableIff(env, layers, t, plan, u);
    var plan' := PlanOf(Some(layers), u);
    forall d | d in DirSet(u) ensures plan'.whites[d] == [] <==>
      (d in DirSet(t) ==> d in plan.whites && plan.whites[d] == [] && Children(t, d) <= u.Keys)
    {
      DirKeepsAll(env, layers, t, plan, u, d);
    }
  }

  lemma GrowingKeepsAll(t: Tree, plan: Plan, u: Tree)
    requires Covers(t, plan) && DropsNothing(plan) && t.Keys <= u.Keys
    ensures KeepsAll(t, plan, u)
  {
    forall d | d in DirSet(t) && d in DirSet(u) ensures d in plan.whites && plan.whites[d] == [] && Children(t, d) <= u.Keys {
      ShapeHas(t, plan, d);
    }
  }

  // Names that are gone.

  /** The directory of path p lists it as deleted. */
  ghost predicate Gone(plan: Plan, p: Path) {
    p != [] && Init(p) in plan.whites && HasName(plan.whites[Init(p)], Last(p))
  }

  /** Deleting a path from a directory that stays lists it there as deleted. */
  lemma DeletedIsGone(env: Env, layers: seq<Layer>, t: Tree, plan: Plan, u: Tree, p: Path)
    requires Shows(env, layers, t, plan) && ValidTree(u) && p in t && p !in u && p != [] && Init(p) in DirSet(u)
    ensures Gone(PlanOf(Some(layers), u), p)
  {
    var d := Init(p);
    Parent(t, p);
    BaseShows(env, layers, t, plan, d);
    ChildListed(t, plan, d, p);
    assert DirEnt(plan.alloc[t[p].hino], Last(p)) in Dropped(u, d, BaseEntries(Some(layers), d));
  }

  /** No tree with a deleted path in it can be built. */
  lemma GoneCannotReturn(env: Env, layers: seq<Layer>, t: Tree, plan: Plan, u: Tree, p: Path)
    requires Shows(env, layers, t, plan) && Gone(plan, p) && p in u
    ensures !Buildable(Some(layers), u)
  {
    WhitedLast(t, plan, p);
    assert Whited(t, plan, p);
    BuildableIff(env, layers, t, plan, u);
  }

  /** And the next build lists the path as deleted again, if its directory stays. */
  lemma GoneAgain(env: Env, layers: seq<Layer>, t: Tree, plan: Plan, u: Tree, p: Path)
    requires Shows(env, layers, t, plan) && ValidTree(u) && Gone(plan, p) && Buildable(Some(layers), u) && Init(p) in DirSet(u)
    ensures p !in u && Gone(PlanOf(Some(layers), u), p)
  {
    var d := Init(p);
    if p in u {
      GoneCannotReturn(env, layers, t, plan, u, p);
    }
    BaseShows(env, layers, t, plan, d);
    var e :| e in plan.whites[d] && e.name == Last(p);
    Rejoin(p);
    assert e in DirEntries(t, plan, d);
    assert e in Dropped(u, d, BaseEntries(Some(layers), d));
  }

  /** Path d is a directory in every tree built since build i. */
  ghost predicate DirStays(r: Run, i: nat, k: nat, d: Path)
    requires k < |r|
    decreases k
  {
    i == k || (d in DirSet(r[k].tree) && (r[k].base.Some? && r[k].base.value < k ==> DirStays(r, i, r[k].base.value, d)))
  }

  ghost predicate GoneAt(r: Run, m: nat, p: Path)
    requires m < |r|
  {
    Sane(r, m) && Gone(PlanAt(r, m), p)
  }

  lemma GoneStep(env: Env, ser: Rootfs -> Bytes, r: Run, k: nat, j: nat, p: Path)
    requires Trusted(env) && IsRun(env, ser, r) && From(r, k, j) && Unsplit(r, k)
    requires GoneAt(r, Shown(r, j), p) && Init(p) in DirSet(r[k].tree)
    ensures p !in r[k].tree && GoneAt(r, Shown(r, k), p)
  {
    var m := Shown(r, j);
    RunShows(env, ser, r, j);
    DeltaAt(env, ser, r, k, j);
    GoneAgain(EnvAt(env, r, m), LayersAt(r, j), r[m].tree, PlanAt(r, m), r[k].tree, p);
  }

  /**
   * Along any line of builds whose new layers split nothing: as long as its directory stays, a path
   * that was deleted never comes back, since the build of a tree that has it fails.
   */
  lemma {:induction false} DeletedStaysDeleted(env: Env, ser: Rootfs -> Bytes, r: Run, i: nat, k: nat, p: Path)
    requires Trusted(env) && IsRun(env, ser, r) && Ancestor(r, i, k) && Unsplit(r, k)
    requires GoneAt(r, Shown(r, i), p) && DirStays(r, i, k, Init(p))
    ensures GoneAt(r, Shown(r, k), p) && (i != k ==> p !in r[k].tree)
    decreases k
  {
    if i != k {
      var j := r[k].base.value;
      DeletedStaysDeleted(env, ser, r, i, j, p);
      GoneStep(env, ser, r, k, j, p);
    }
  }

  // Histories in which nothing goes.

  /** On the way to the image of build k no path ever disappeared. */
  ghost predicate GrowsUpTo(r: Run, k: nat)
    requires k < |r|
    decreases k
  {
    r[k].base.Some? && r[k].base.value < k ==>
      r[r[k].base.value].tree.Keys <= r[k].tree.Keys && GrowsUpTo(r, r[k].base.value)
  }

  lemma {:induction false} ShownGrows(r: Run, k: nat)
    requires k < |r| && GrowsUpTo(r, k)
    ensures r[Shown(r, k)].tree.Keys <= r[k].tree.Keys
    decreases k
  {
    if r[k].base.Some? && r[k].base.value < k {
      ShownGrows(r, r[k].base.value);
    }
  }

  lemma GrowingStep(env: Env, ser: Rootfs -> Bytes, r: Run, k: nat, j: nat)
    requires Trusted(env) && IsRun(env, ser, r) && From(r, k, j) && Unsplit(r, j) && GrowsUpTo(r, k) && Sane(r, k)
    requires Sane(r, Shown(r, j)) && DropsNothing(PlanAt(r, Shown(r, j)))
    ensures DropsNothing(PlanAt(r, k))
  {
    var m := Shown(r, j);
    RunShows(env, ser, r, j);
    ShownGrows(r, j);
    assert Built(env, ser, r, k);
    GrowingKeepsAll(r[m].tree, PlanAt(r, m), r[k].tree);
    DropsNothingIff(EnvAt(env, r, m), LayersAt(r, j), r[m].tree, PlanAt(r, m), r[k].tree);
  }

  /** Then what it shows was built without dropping anything. */
  lemma {:induction false} GrowingDropsNothing(env: Env, ser: Rootfs -> Bytes, r: Run, k: nat)
    requires Trusted(env) && IsRun(env, ser, r) && k < |r| && Unsplit(r, k) && GrowsUpTo(r, k)
    ensures Sane(r, Shown(r, k)) && DropsNothing(PlanAt(r, Shown(r, k)))
    decreases k
  {
    match r[k].base
    case None => InitialDropsNothing(r[k].tree);
    case Some(j) =>
      assert Built(env, ser, r, k);
      GrowingDropsNothing(env, ser, r, j);
      if r[k].layer !in LayersAt(r, j) {
        GrowingStep(env, ser, r, k, j);
      }
  }

  /** So where no path ever disappeared the walk over an image meets no whiteout. */
  lemma GrowingIsWalked(env: Env, ser: Rootfs -> Bytes, r: Run, k: nat)
    requires Trusted(env) && IsRun(env, ser, r) && k < |r| && Unsplit(r, k) && GrowsUpTo(r, k)
    ensures Finite(LayersAt(r, k), r[Shown(r, k)].tree.Keys) && WhiteoutFree(LayersAt(r, k), r[Shown(r, k)].tree.Keys)
  {
    var m := Shown(r, k);
    RunShows(env, ser, r, k);
    GrowingDropsNothing(env, ser, r, k);
    ShownIsFinite(EnvAt(env, r, m), LayersAt(r, k), r[m].tree, PlanAt(r, m));
  }
}
