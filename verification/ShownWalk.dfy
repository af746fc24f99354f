/** Walking an image that shows a tree. */
module ShownWalk {
  import opened Types
  import opened Seqs
  import opened Paths
  import opened HostTree
  import opened Layers
  import opened Store
  import opened Plans
  import opened View
  import opened Display
  import opened Walk

  /** The build dropped no entry of its base. */
  ghost predicate DropsNothing(plan: Plan) {
    forall d | d in plan.whites :: plan.whites[d] == []
  }

  lemma ShownInode(env: Env, layers: seq<Layer>, t: Tree, plan: Plan, p: Path)
    requires Shows(env, layers, t, plan) && p in t
    ensures Resolves(layers, p) && InodeAt(layers, p) == Render(env, t, plan, p)
    ensures t[p].HDir? ==> EntriesOf(InodeAt(layers, p)) == DirEntries(t, plan, p)
    ensures !t[p].HDir? ==> EntriesOf(InodeAt(layers, p)) == []
  {
    LookupLive(env, layers, t, plan, p);
    RenderLive(env, t, plan, p);
  }

  lemma ListingOnce(t: Tree, d: Path, i: nat, j: nat)
    requires i < j < |Listing(t, d)|
    ensures Listing(t, d)[i] != [] && Listing(t, d)[j] != [] && Last(Listing(t, d)[i]) != Last(Listing(t, d)[j])
  {
    var ls := Listing(t, d);
    SortIsSorted(Children(t, d));
    assert ls[i] in ls && ls[j] in ls;
    if Last(ls[i]) == Last(ls[j]) {
      SameParentSameName(ls[i], ls[j]);
    }
  }

  /** A directory that drops nothing lists distinct names, all of which can be found. */
  lemma LiveDir(env: Env, layers: seq<Layer>, t: Tree, plan: Plan, d: Path)
    requires Shows(env, layers, t, plan) && d in t && t[d].HDir? && d in plan.whites && plan.whites[d] == []
    ensures DistinctNames(DirEntries(t, plan, d)) && Findable(layers, DirEntries(t, plan, d))
  {
    ListingListed(t, plan, d);
    var ls := Listing(t, d);
    var es := LiveEntries(t, plan.alloc, ls);
    LiveEntriesAt(t, plan.alloc, ls);
    assert DirEntries(t, plan, d) == es;
    forall k | 0 <= k < |es| ensures FindInode(layers, es[k].ino).Ok? {
      assert ls[k] in ls;
      FindRendered(env, layers, t, plan, ls[k]);
    }
    forall i, j | 0 <= i < j < |es| ensures es[i].name != es[j].name {
      ListingOnce(t, d, i, j);
    }
  }

  lemma DroppingDir(env: Env, layers: seq<Layer>, t: Tree, plan: Plan, d: Path)
    requires Shows(env, layers, t, plan) && d in t && t[d].HDir? && d in plan.whites && plan.whites[d] != []
    ensures !Findable(layers, DirEntries(t, plan, d))
  {
    var e := plan.whites[d][0];
    assert e in plan.whites[d];
    FindWhite(env, layers, t, plan, e.ino);
    assert DirEntries(t, plan, d)[0] == e;
  }

  lemma DirWalks(env: Env, layers: seq<Layer>, t: Tree, plan: Plan, p: Path)
    requires Shows(env, layers, t, plan) && p in t
    ensures Resolves(layers, p) && NamesOnce(layers, EntriesOf(InodeAt(layers, p)))
    ensures Findable(layers, EntriesOf(InodeAt(layers, p))) <==> p !in plan.whites || plan.whites[p] == []
  {
    ShownInode(env, layers, t, plan, p);
    ShapeHas(t, plan, p);
    if t[p].HDir? {
      if plan.whites[p] == [] {
        LiveDir(env, layers, t, plan, p);
      } else {
        DroppingDir(env, layers, t, plan, p);
      }
    }
  }

  /**
   * In an image that shows a tree exactly the tree's paths can be walked to, and the walk meets no
   * whiteout exactly when the build dropped nothing.
   */
  lemma ShownIsFinite(env: Env, layers: seq<Layer>, t: Tree, plan: Plan)
    requires Shows(env, layers, t, plan)
    ensures Finite(layers, t.Keys) && (WhiteoutFree(layers, t.Keys) <==> DropsNothing(plan))
  {
    forall p ensures Resolves(layers, p) <==> p in t {
      if p in t {
        ShownInode(env, layers, t, plan, p);
      } else {
        LookupGone(env, layers, t, plan, p);
      }
    }
    forall p | p in t
      ensures NamesOnce(layers, EntriesOf(InodeAt(layers, p)))
      ensures Findable(layers, EntriesOf(InodeAt(layers, p))) <==> p !in plan.whites || plan.whites[p] == []
    {
      DirWalks(env, layers, t, plan, p);
    }
    assert forall d | d in plan.whites :: d in t;
  }
}
