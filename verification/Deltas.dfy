/** Building on an image: what carries over, when it is sound, and when it changes nothing. */
module Deltas {
  import opened Types
  import opened Seqs
  import opened HostTree
  import opened Layers
  import opened Resolution
  import opened Sorting
  import opened Store
  import opened Plans
  import opened View
  import opened Numbers

  lemma BaseOf(layers: seq<Layer>, p: Path)
    requires NonEmpty(layers)
    ensures match Lookup(layers, p)
            case Ok(Some(i)) =>
              && BaseIno(Some(layers), p) == Some(i.ino)
              && BaseEntries(Some(layers), p) == if i.mode.Dir? then i.mode.entries else []
            case _ => BaseIno(Some(layers), p) == None && BaseEntries(Some(layers), p) == []
  {
  }

  lemma RenderParts(env: Env, t: Tree, plan: Plan, p: Path)
    requires Covers(t, plan) && p in t
    ensures t[p].hino in plan.alloc && Render(env, t, plan, p).ino == plan.alloc[t[p].hino]
    ensures Render(env, t, plan, p).mode.Dir? <==> t[p].HDir?
    ensures t[p].HDir? ==> Render(env, t, plan, p).mode.entries == DirEntries(t, plan, p)
  {
    ShapeHas(t, plan, p);
  }

  /** A base that shows tree t offers every path of t its number, and no other path. */
  lemma BaseShows(env: Env, layers: seq<Layer>, t: Tree, plan: Plan, p: Path)
    requires Shows(env, layers, t, plan)
    ensures p in t ==> t[p].hino in plan.alloc && BaseIno(Some(layers), p) == Some(plan.alloc[t[p].hino])
    ensures p !in t ==> BaseIno(Some(layers), p) == None
    ensures BaseEntries(Some(layers), p) == if p in t && t[p].HDir? then DirEntries(t, plan, p) else []
  {
    BaseOf(layers, p);
    if p in t {
      LookupLive(env, layers, t, plan, p);
      RenderParts(env, t, plan, p);
    } else {
      LookupGone(env, layers, t, plan, p);
    }
  }

  lemma LiveBelowMax(env: Env, layers: seq<Layer>, t: Tree, plan: Plan, p: Path)
    requires Shows(env, layers, t, plan) && WellFormed(layers) && p in t
    ensures t[p].hino in plan.alloc && plan.alloc[t[p].hino] <= MaxIno(layers)
    ensures p != [] ==> plan.alloc[t[p].hino] != 1
  {
    ShapeHas(t, plan, p);
    var x := Render(env, t, plan, p);
    RenderedIn(env, t, plan, p);
    SameMembers(layers[0], Unsorted(env, t, plan));
    MaxInoIsMaximum(layers);
    assert x in layers[0] && layers[0] in layers;
    if p != [] {
      assert !SameInode(t, p, []);
    }
  }

  lemma WhiteBelowMax(env: Env, layers: seq<Layer>, t: Tree, plan: Plan, ino: Ino)
    requires Shows(env, layers, t, plan) && WellFormed(layers) && ino in WhiteInos(plan)
    ensures 1 != ino <= MaxIno(layers)
  {
    WhitesIn(env, t, plan, ino);
    SameMembers(layers[0], Unsorted(env, t, plan));
    MaxInoIsMaximum(layers);
    assert NewWhiteout(ino) in layers[0] && layers[0] in layers;
  }

  /** An entry of a shown directory is a whited-out one or belongs to a path of the tree. */
  lemma EntryOrigin(t: Tree, plan: Plan, d: Path, e: DirEnt)
    requires Covers(t, plan) && d in t && t[d].HDir? && e in DirEntries(t, plan, d)
    ensures e in plan.whites[d] ||
            (d + [e.name] in t && t[d + [e.name]].hino in plan.alloc && plan.alloc[t[d + [e.name]].hino] == e.ino)
  {
    ListingListed(t, plan, d);
    var ls := Listing(t, d);
    LiveEntriesAt(t, plan.alloc, ls);
    if e !in plan.whites[d] {
      var live := LiveEntries(t, plan.alloc, ls);
      var i :| 0 <= i < |live| && live[i] == e;
      assert ls[i] in ls;
      Rejoin(ls[i]);
    }
  }

  /** Every child is listed in its directory under its number. */
  lemma ChildListed(t: Tree, plan: Plan, d: Path, p: Path)
    requires Covers(t, plan) && d in DirSet(t) && p in Children(t, d)
    ensures t[p].hino in plan.alloc && DirEnt(plan.alloc[t[p].hino], Last(p)) in DirEntries(t, plan, d) && d + [Last(p)] == p
  {
    ListingListed(t, plan, d);
    var ls := Listing(t, d);
    LiveEntriesAt(t, plan.alloc, ls);
    assert p in ls;
    var i :| 0 <= i < |ls| && ls[i] == p;
    assert LiveEntries(t, plan.alloc, ls)[i] == DirEnt(plan.alloc[t[p].hino], Last(p));
    Rejoin(p);
  }

  lemma DroppedBelowMax(env: Env, layers: seq<Layer>, t: Tree, plan: Plan, t': Tree, ino: Ino)
    requires Shows(env, layers, t, plan) && WellFormed(layers) && ValidTree(t')
    requires ino in WhiteInos(PlanOf(Some(layers), t'))
    ensures 1 != ino <= MaxIno(layers)
  {
    var plan' := PlanOf(Some(layers), t');
    var d, e :| d in plan'.whites && e in plan'.whites[d] && e.ino == ino;
    BaseShows(env, layers, t, plan, d);
    EntryOrigin(t, plan, d, e);
    if e in plan.whites[d] {
      WhiteBelowMax(env, layers, t, plan, ino);
    } else {
      LiveBelowMax(env, layers, t, plan, d + [e.name]);
    }
  }

  lemma OfferedBelowMax(env: Env, layers: seq<Layer>, t: Tree, plan: Plan, p: Path)
    requires Shows(env, layers, t, plan) && WellFormed(layers) && p != [] && BaseIno(Some(layers), p).Some?
    ensures 1 != BaseIno(Some(layers), p).value <= MaxIno(layers)
  {
    BaseShows(env, layers, t, plan, p);
    LiveBelowMax(env, layers, t, plan, p);
  }

  lemma ShownIsSound(env: Env, layers: seq<Layer>, t: Tree, plan: Plan, t': Tree)
    requires Shows(env, layers, t, plan) && WellFormed(layers) && ValidTree(t')
    ensures SoundBase(Some(layers), t')
  {
    var ex := Some(layers);
    assert FirstFree(ex) == MaxIno(layers) + 1;
    forall p | p in t' && p != [] && BaseIno(ex, p).Some? ensures 1 != BaseIno(ex, p).value < FirstFree(ex) {
      OfferedBelowMax(env, layers, t, plan, p);
    }
    forall i | i in WhiteInos(PlanOf(ex, t')) ensures 1 != i < FirstFree(ex) {
      DroppedBelowMax(env, layers, t, plan, t', i);
    }
  }

  /** A delta's numbers are distinct exactly when it splits no hard-link group of its base. */
  lemma DistinctIffNoSplit(env: Env, layers: seq<Layer>, t: Tree, plan: Plan, t': Tree)
    requires Shows(env, layers, t, plan) && WellFormed(layers) && ValidTree(t')
    ensures Distinct(PlanOf(Some(layers), t')) <==> NoSplit(Some(layers), t')
  {
    if NoSplit(Some(layers), t') {
      ShownIsSound(env, layers, t, plan, t');
      NoSplitImpliesDistinct(Some(layers), t');
    } else if Distinct(PlanOf(Some(layers), t')) {
      DistinctImpliesNoSplit(Some(layers), t');
    }
  }

  /** What a build may return: the rendered inodes, sorted by number, in whatever order they were collected. */
  ghost predicate Rendering(env: Env, ex: Base, t: Tree, l: Layer)
    requires Usable(ex) && ValidTree(t)
  {
    PlanShape(ex, t);
    Sorted(l) && multiset(l) == multiset(Unsorted(env, t, PlanOf(ex, t)))
  }

  /** Without clashes the order of collection does not matter: there is one possible layer. */
  lemma RenderingUnique(env: Env, ex: Base, t: Tree, l: Layer)
    requires Usable(ex) && ValidTree(t) && Rendering(env, ex, t, l) && Distinct(PlanOf(ex, t))
    ensures Covers(t, PlanOf(ex, t)) && l == Assemble(env, t, PlanOf(ex, t)) && l != []
  {
    PlanShape(ex, t);
    var plan := PlanOf(ex, t);
    AssembleFunctional(env, t, plan);
    SortedUnique(Assemble(env, t, plan), l);
    RenderedIn(env, t, plan, []);
    SameMembers(l, Unsorted(env, t, plan));
  }

  /** A layer rendered without clashes, put on top, shows its tree whatever lies below. */
  lemma NewLayerShows(env: Env, ex: Base, t: Tree, l: Layer, below: seq<Layer>)
    requires Usable(ex) && ValidTree(t) && Rendering(env, ex, t, l) && Distinct(PlanOf(ex, t)) && WellFormed(below)
    ensures Shows(env, [l] + below, t, PlanOf(ex, t)) && WellFormed([l] + below)
  {
    RenderingUnique(env, ex, t, l);
    PushLayer(l, below);
  }

  /** A rendered layer is closed: it holds "/", and an inode for every entry of every directory in it. */
  lemma RenderingClosed(env: Env, ex: Base, t: Tree, l: Layer, x: Inode, e: DirEnt)
    requires Usable(ex) && ValidTree(t) && Rendering(env, ex, t, l)
    ensures exists y :: y in l && y.ino == 1 && y.mode.Dir?
    ensures x in l && x.mode.Dir? && e in x.mode.entries ==> exists y :: y in l && y.ino == e.ino
  {
    PlanShape(ex, t);
    var plan := PlanOf(ex, t);
    SameMembers(l, Unsorted(env, t, plan));
    RenderedIn(env, t, plan, []);
    RenderParts(env, t, plan, []);
    if x in l && x.mode.Dir? && e in x.mode.entries {
      UnsortedOrigin(env, t, plan, x);
      var d :| d in t && x == Render(env, t, plan, d);
      EntryRendered(env, t, plan, d, e);
    }
  }

  lemma EntryRendered(env: Env, t: Tree, plan: Plan, d: Path, e: DirEnt)
    requires Covers(t, plan) && d in t && Render(env, t, plan, d).mode.Dir? && e in Render(env, t, plan, d).mode.entries
    ensures exists y :: y in Unsorted(env, t, plan) && y.ino == e.ino
  {
    RenderParts(env, t, plan, d);
    ShapeHas(t, plan, d);
    EntryOrigin(t, plan, d, e);
    if e in plan.whites[d] {
      WhitesIn(env, t, plan, e.ino);
      assert NewWhiteout(e.ino) in Unsorted(env, t, plan);
    } else {
      RenderedIn(env, t, plan, d + [e.name]);
      RenderParts(env, t, plan, d + [e.name]);
    }
  }

  /** Under a layer that shows a tree, older layers do not matter: no path resolves differently without them. */
  lemma OlderLayersDoNotMatter(env: Env, l: Layer, below: seq<Layer>, other: seq<Layer>, t: Tree, plan: Plan, p: Path)
    requires Shows(env, [l] + below, t, plan) && NonEmpty([l] + other)
    ensures Lookup([l] + below, p) == Lookup([l] + other, p)
  {
    assert ([l] + below)[0] == l == ([l] + other)[0];
    if p in t {
      LookupLive(env, [l] + below, t, plan, p);
      LookupLive(env, [l] + other, t, plan, p);
    } else {
      LookupGone(env, [l] + below, t, plan, p);
      LookupGone(env, [l] + other, t, plan, p);
    }
  }

  // Building the same tree again.

  ghost predicate Offers(ex: Base, t: Tree, alloc: map<HostIno, Ino>, p: Path)
    requires Usable(ex)
  {
    p in t && t[p].hino in alloc && BaseIno(ex, p) == Some(alloc[t[p].hino])
  }

  /** The numbers offered to a tree's own paths are the ones it already has. */
  lemma {:induction false} NumbersRepeat(ex: Base, t: Tree, alloc: map<HostIno, Ino>, vs: seq<Path>, h: HostIno)
    requires Usable(ex) && Within(t, vs) && forall p | p in vs :: Offers(ex, t, alloc, p)
    requires h in NumberAll(ex, t, vs).inos
    ensures h in alloc && NumberAll(ex, t, vs).inos[h] == alloc[h]
  {
    assert Offers(ex, t, alloc, Last(vs));
    if h in NumberAll(ex, t, Init(vs)).inos {
      assert forall p | p in Init(vs) :: p in vs;
      NumbersRepeat(ex, t, alloc, Init(vs), h);
    }
  }

  /** Of a shown directory exactly the whited-out entries are dropped again. */
  lemma DroppedRepeat(t: Tree, plan: Plan, d: Path)
    requires Covers(t, plan) && d in t && t[d].HDir?
    ensures Dropped(t, d, DirEntries(t, plan, d)) == plan.whites[d]
  {
    ListingListed(t, plan, d);
    var ls := Listing(t, d);
    LiveEntriesAt(t, plan.alloc, ls);
    var white, live := plan.whites[d], LiveEntries(t, plan.alloc, ls);
    forall e | e in live ensures d + [e.name] in t {
      var i :| 0 <= i < |live| && live[i] == e;
      assert ls[i] in ls;
      Rejoin(ls[i]);
    }
    DroppedAll(t, d, white);
    DroppedNone(t, d, white, live);
  }

  lemma {:induction false} DroppedAll(t: Tree, d: Path, a: seq<DirEnt>)
    requires forall e | e in a :: d + [e.name] !in t
    ensures Dropped(t, d, a) == a
  {
    if a != [] {
      assert forall e | e in Init(a) :: e in a;
      DroppedAll(t, d, Init(a));
      assert Last(a) in a;
      Rejoin(a);
    }
  }

  lemma {:induction false} DroppedNone(t: Tree, d: Path, a: seq<DirEnt>, b: seq<DirEnt>)
    requires forall e | e in b :: d + [e.name] in t
    ensures Dropped(t, d, a + b) == Dropped(t, d, a)
  {
    if b == [] {
      assert a + b == a;
    } else {
      assert forall e | e in Init(b) :: e in b;
      DroppedNone(t, d, a, Init(b));
      assert Init(a + b) == a + Init(b) && Last(a + b) == Last(b) && Last(b) in b;
    }
  }

  /** The same paths with the same host inodes; contents, metadata and kinds of files may differ. */
  ghost predicate Retouched(t: Tree, u: Tree) {
    && t.Keys == u.Keys
    && forall p | p in t :: t[p].hino == u[p].hino && (t[p].HDir? <==> u[p].HDir?)
  }

  lemma AllocRepeats(env: Env, layers: seq<Layer>, t: Tree, plan: Plan, u: Tree, h: HostIno)
    requires Shows(env, layers, t, plan) && ValidTree(u) && Retouched(t, u) && h in Hinos(u)
    ensures h in PlanOf(Some(layers), u).alloc && h in plan.alloc
    ensures PlanOf(Some(layers), u).alloc[h] == plan.alloc[h]
  {
    PlanShape(Some(layers), u);
    if h != u[[]].hino {
      VisitsComplete(u);
      forall p | p in Visits(u) ensures Offers(Some(layers), u, plan.alloc, p) {
        BaseShows(env, layers, t, plan, p);
      }
      NumbersRepeat(Some(layers), u, plan.alloc, Visits(u), h);
    }
  }

  lemma {:induction false} DroppedByPaths(t: Tree, u: Tree, d: Path, es: seq<DirEnt>)
    requires t.Keys == u.Keys
    ensures Dropped(t, d, es) == Dropped(u, d, es)
  {
    if es != [] {
      DroppedByPaths(t, u, d, Init(es));
    }
  }

  lemma WhitesRepeat(env: Env, layers: seq<Layer>, t: Tree, plan: Plan, u: Tree, d: Path)
    requires Shows(env, layers, t, plan) && ValidTree(u) && Retouched(t, u) && d in DirSet(u)
    ensures d in PlanOf(Some(layers), u).whites && d in plan.whites
    ensures PlanOf(Some(layers), u).whites[d] == plan.whites[d]
  {
    BaseShows(env, layers, t, plan, d);
    DroppedRepeat(t, plan, d);
    DroppedByPaths(t, u, d, DirEntries(t, plan, d));
  }

  lemma MapsEqual<K, V>(a: map<K, V>, b: map<K, V>)
    requires a.Keys == b.Keys && forall k | k in a :: a[k] == b[k]
    ensures a == b
  {
  }

  lemma RetouchedSets(t: Tree, u: Tree)
    requires Retouched(t, u)
    ensures Hinos(t) == Hinos(u) && DirSet(t) == DirSet(u)
  {
  }

  /** Planning a tree with the same paths and links as the shown one yields the plan it was rendered from. */
  lemma PlanRepeats(env: Env, layers: seq<Layer>, t: Tree, plan: Plan, u: Tree)
    requires Shows(env, layers, t, plan) && ValidTree(u) && Retouched(t, u)
    ensures PlanOf(Some(layers), u) == plan
  {
    var plan' := PlanOf(Some(layers), u);
    PlanShape(Some(layers), u);
    RetouchedSets(t, u);
    forall h | h in plan'.alloc ensures plan'.alloc[h] == plan.alloc[h] {
      AllocRepeats(env, layers, t, plan, u, h);
    }
    MapsEqual(plan'.alloc, plan.alloc);
    forall d | d in plan'.whites ensures plan'.whites[d] == plan.whites[d] {
      WhitesRepeat(env, layers, t, plan, u, d);
    }
    MapsEqual(plan'.whites, plan.whites);
  }

  /** Rebuilding the tree an image shows renders its newest layer again, inode for inode. */
  lemma RebuildIsTop(env: Env, layers: seq<Layer>, t: Tree, plan: Plan, l: Layer)
    requires Shows(env, layers, t, plan) && Rendering(env, Some(layers), t, l)
    ensures l == layers[0]
  {
    PlanRepeats(env, layers, t, plan, t);
    RenderingUnique(env, Some(layers), t, l);
  }
}
