/** What the whiteouts and the directories of a rendered layer look like, whatever the base and whatever was split. */
module LayerContents {
  import opened Types
  import opened Seqs
  import opened Paths
  import opened HostTree
  import opened Sorting
  import opened Store
  import opened Plans
  import opened View
  import opened Numbers
  import opened Deltas
  import opened Images
  import opened Runs
  import opened Histories

  /** An entry of directory d of the base whose name is gone from the tree. */
  ghost predicate IsDropped(ex: Base, t: Tree, d: Path, e: DirEnt)
    requires Usable(ex)
  {
    d in t && t[d].HDir? && e in BaseEntries(ex, d) && d + [e.name] !in t
  }

  lemma WhitesAreGone(ex: Base, t: Tree, d: Path, e: DirEnt)
    requires Usable(ex) && ValidTree(t)
    ensures d in PlanOf(ex, t).whites && e in PlanOf(ex, t).whites[d] <==> IsDropped(ex, t, d, e)
  {
    assert d in DirSet(t) <==> d in t && t[d].HDir?;
  }

  /** The whiteouts of a layer are those of the entries that are gone: owned by root, 0644, nothing else. */
  lemma WhiteoutsExactly(env: Env, ex: Base, t: Tree, l: Layer, x: Inode)
    requires Usable(ex) && ValidTree(t) && Rendering(env, ex, t, l)
    ensures x in l && x.mode.Wht? <==> exists d, e :: IsDropped(ex, t, d, e) && x == Inode(e.ino, Wht, Meta(0, 0, 0x1a4, None))
  {
    PlanShape(ex, t);
    var plan := PlanOf(ex, t);
    SameMembers(l, Unsorted(env, t, plan));
    if x in l && x.mode.Wht? {
      UnsortedOrigin(env, t, plan, x);
      if q :| q in t && x == Render(env, t, plan, q) {
        RenderLive(env, t, plan, q);
      } else {
        var d, e :| d in plan.whites && e in plan.whites[d] && e.ino == x.ino;
        WhitesAreGone(ex, t, d, e);
      }
    }
    if d, e :| IsDropped(ex, t, d, e) && x == Inode(e.ino, Wht, Meta(0, 0, 0x1a4, None)) {
      WhitesAreGone(ex, t, d, e);
      WhitesIn(env, t, plan, e.ino);
    }
  }

  // Directories.

  /** Strictly before in byte order: a proper prefix, or smaller at the first byte that differs. */
  ghost predicate ByteBefore(a: Name, b: Name) {
    a < b || exists k: nat :: SmallerAt(a, b, k)
  }

  lemma SiblingsBefore(p: Path, q: Path)
    requires p != [] && q != [] && Init(p) == Init(q) && p != q && PathLe(p, q)
    ensures ByteBefore(Last(p), Last(q))
  {
    PathLeIff(p, q);
    Rejoin(p);
    Rejoin(q);
    assert |p| == |q|;
    var k: nat :| EarlierAt(p, q, k);
    assert k == |p| - 1;
    NameLeIff(p[k], q[k]);
  }

  /**
   * The inode is that of directory d of the tree.  It lists first the entries of the base that are gone,
   * then one entry for every child, and these ascend by the bytes of their names.
   */
  ghost predicate LaysOut(ex: Base, t: Tree, x: Inode, d: Path, white: seq<DirEnt>, live: seq<DirEnt>)
    requires Usable(ex)
  {
    && d in t && t[d].HDir? && x.meta == t[d].meta && x.mode == Dir(false, white + live)
    && (forall e :: e in white <==> IsDropped(ex, t, d, e))
    && (forall k | 0 <= k < |live| :: d + [live[k].name] in t)
    && (forall i, j | 0 <= i < j < |live| :: ByteBefore(live[i].name, live[j].name))
    && |live| == |Children(t, d)|
  }

  lemma LiveAscend(t: Tree, plan: Plan, d: Path, i: nat, j: nat)
    requires Covers(t, plan) && d in t && t[d].HDir? && i < j < |Listing(t, d)|
    ensures Listed(t, plan.alloc, Listing(t, d))
    ensures |LiveEntries(t, plan.alloc, Listing(t, d))| == |Listing(t, d)|
    ensures var es := LiveEntries(t, plan.alloc, Listing(t, d)); ByteBefore(es[i].name, es[j].name)
  {
    var ls := Listing(t, d);
    ListingListed(t, plan, d);
    LiveEntriesAt(t, plan.alloc, ls);
    SortIsSorted(Children(t, d));
    assert ls[i] in ls && ls[j] in ls;
    SiblingsBefore(ls[i], ls[j]);
  }

  lemma LiveAreChildren(t: Tree, plan: Plan, d: Path, live: seq<DirEnt>)
    requires Covers(t, plan) && d in t && t[d].HDir?
    requires Listed(t, plan.alloc, Listing(t, d)) && live == LiveEntries(t, plan.alloc, Listing(t, d))
    ensures |live| == |Children(t, d)| && forall k | 0 <= k < |live| :: d + [live[k].name] in t
  {
    var ls := Listing(t, d);
    LiveEntriesAt(t, plan.alloc, ls);
    SortIsSorted(Children(t, d));
    forall k | 0 <= k < |live| ensures d + [live[k].name] in t {
      assert ls[k] in ls;
      Rejoin(ls[k]);
    }
  }

  lemma DirLaysOut(env: Env, ex: Base, t: Tree, d: Path, plan: Plan) returns (white: seq<DirEnt>, live: seq<DirEnt>)
    requires Usable(ex) && ValidTree(t) && plan == PlanOf(ex, t) && Covers(t, plan) && d in t && t[d].HDir?
    ensures LaysOut(ex, t, Render(env, t, plan, d), d, white, live)
  {
    ListingListed(t, plan, d);
    white, live := plan.whites[d], LiveEntries(t, plan.alloc, Listing(t, d));
    LiveAreChildren(t, plan, d, live);
    forall e ensures e in white <==> IsDropped(ex, t, d, e) {
      WhitesAreGone(ex, t, d, e);
    }
    forall i, j | 0 <= i < j < |live| ensures ByteBefore(live[i].name, live[j].name) {
      LiveEntriesAt(t, plan.alloc, Listing(t, d));
      LiveAscend(t, plan, d, i, j);
    }
  }

  /** Every directory inode of a rendered layer lays out a directory of the tree, and every directory has one. */
  lemma DirectoriesExactly(env: Env, ex: Base, t: Tree, l: Layer, x: Inode)
    requires Usable(ex) && ValidTree(t) && Rendering(env, ex, t, l)
    ensures x in l && x.mode.Dir? ==> exists d, white, live :: LaysOut(ex, t, x, d, white, live)
    ensures forall d | d in t && t[d].HDir? :: exists y, white, live :: y in l && LaysOut(ex, t, y, d, white, live)
  {
    PlanShape(ex, t);
    var plan := PlanOf(ex, t);
    SameMembers(l, Unsorted(env, t, plan));
    if x in l && x.mode.Dir? {
      UnsortedOrigin(env, t, plan, x);
      var d :| d in t && x == Render(env, t, plan, d);
      RenderLive(env, t, plan, d);
      var white, live := DirLaysOut(env, ex, t, d, plan);
    }
    forall d | d in t && t[d].HDir? ensures exists y, white, live :: y in l && LaysOut(ex, t, y, d, white, live) {
      var white, live := DirLaysOut(env, ex, t, d, plan);
      RenderedIn(env, t, plan, d);
      assert Render(env, t, plan, d) in l;
    }
  }

  /** So it is in every layer of every image of every history, whatever was split. */
  lemma RunLayers(env: Env, ser: Rootfs -> Bytes, r: Run, k: nat, l: Layer, x: Inode) returns (i: nat)
    requires IsRun(env, ser, r) && k < |r| && l in LayersAt(r, k) && x in l
    ensures Ancestor(r, i, k) && r[i].layer == l && Sane(r, i)
    ensures x.mode.Wht? ==>
              exists d, e :: IsDropped(BaseAt(r, i), r[i].tree, d, e) && x == Inode(e.ino, Wht, Meta(0, 0, 0x1a4, None))
    ensures x.mode.Dir? ==> exists d, white, live :: LaysOut(BaseAt(r, i), r[i].tree, x, d, white, live)
  {
    i := LayerOrigin(env, ser, r, k, l);
    LayerRendered(env, ser, r, i);
    WhiteoutsExactly(EnvAt(env, r, i), BaseAt(r, i), r[i].tree, l, x);
    DirectoriesExactly(EnvAt(env, r, i), BaseAt(r, i), r[i].tree, l, x);
  }
}
