/** Trees that differ only in host inode numbers render to the same layer. */
module Reproducible {
  import opened Types
  import opened Seqs
  import opened HostTree
  import opened Store
  import opened Plans
  import opened Numbers
  import opened Deltas

  ghost predicate SameFace(a: HNode, b: HNode) {
    a.(hino := b.hino) == b
  }

  /** The same paths with the same kinds, metadata and contents, and the same hard links. */
  ghost predicate Iso(t: Tree, u: Tree) {
    && t.Keys == u.Keys
    && (forall p | p in t :: SameFace(t[p], u[p]))
    && (forall p, q :: SameInode(t, p, q) <==> SameInode(u, p, q))
  }

  lemma IsoLists(t: Tree, u: Tree)
    requires Iso(t, u)
    ensures DirOrder(t) == DirOrder(u)
    ensures forall d :: Children(t, d) == Children(u, d)
  {
    IsoDirs(t, u);
  }

  lemma {:induction false} IsoVisits(t: Tree, u: Tree, ds: seq<Path>)
    requires Iso(t, u)
    ensures VisitsOf(t, ds) == VisitsOf(u, ds)
  {
    if ds != [] {
      IsoLists(t, u);
      IsoVisits(t, u, Init(ds));
    }
  }

  lemma {:induction false} IsoFirsts(t: Tree, u: Tree, vs: seq<Path>)
    requires Iso(t, u) && Within(t, vs)
    ensures Within(u, vs) && Firsts(t, vs) == Firsts(u, vs)
  {
    if vs != [] {
      IsoFirsts(t, u, Init(vs));
    }
  }

  lemma {:induction false} IsoFiles(t: Tree, u: Tree, ps: seq<Path>)
    requires Iso(t, u) && Within(t, ps)
    ensures Within(u, ps) && FilesIn(t, ps) == FilesIn(u, ps) && OthersIn(t, ps) == OthersIn(u, ps)
  {
    if ps != [] {
      IsoFiles(t, u, Init(ps));
      assert SameFace(t[Last(ps)], u[Last(ps)]);
    }
  }

  lemma IsoPaths(t: Tree, u: Tree)
    requires Iso(t, u) && ValidTree(t) && ValidTree(u)
    ensures Visits(t) == Visits(u) && FilePaths(t) == FilePaths(u) && OtherPaths(t) == OtherPaths(u)
  {
    IsoLists(t, u);
    IsoVisits(t, u, DirOrder(t));
    IsoFirsts(t, u, Visits(t));
    IsoFiles(t, u, Firsts(t, Visits(t)));
  }

  ghost predicate SameNumber(t: Tree, u: Tree, a: map<HostIno, Ino>, b: map<HostIno, Ino>, p: Path)
    requires p in t && p in u
  {
    (t[p].hino in a <==> u[p].hino in b) && (t[p].hino in a ==> a[t[p].hino] == b[u[p].hino])
  }

  /** Corresponding paths are numbered alike all along. */
  lemma {:induction false} IsoNumbers(ex: Base, t: Tree, u: Tree, vs: seq<Path>, p: Path)
    requires Usable(ex) && Iso(t, u) && Within(t, vs) && p in t
    ensures Within(u, vs) && p in u
    ensures NumberAll(ex, t, vs).next == NumberAll(ex, u, vs).next
    ensures SameNumber(t, u, NumberAll(ex, t, vs).inos, NumberAll(ex, u, vs).inos, p)
  {
    if vs != [] {
      IsoNumbers(ex, t, u, Init(vs), p);
      IsoNumbers(ex, t, u, Init(vs), Last(vs));
      assert SameInode(t, p, Last(vs)) <==> SameInode(u, p, Last(vs));
    }
  }

  lemma {:induction false} IsoContents(t: Tree, u: Tree, fs: seq<Path>)
    requires Iso(t, u) && forall p | p in fs :: p in t && t[p].HFile?
    ensures forall p | p in fs :: p in u && u[p].HFile?
    ensures ContentsAt(t, fs) == ContentsAt(u, fs)
  {
    forall p | p in fs ensures p in u && u[p].HFile? && u[p].content == t[p].content {
      assert SameFace(t[p], u[p]);
    }
    forall i | 0 <= i < |fs| ensures ContentsAt(t, fs)[i] == ContentsAt(u, fs)[i] {
      assert fs[i] in fs;
    }
  }

  lemma {:induction false} IsoStart(t: Tree, u: Tree, fs: seq<Path>, p: Path)
    requires Iso(t, u) && (forall p | p in fs :: p in t && t[p].HFile?) && p in t
    ensures forall p | p in fs :: p in u && u[p].HFile?
    ensures p in u && StartOf(t, fs, t[p].hino) == StartOf(u, fs, u[p].hino)
  {
    IsoContents(t, u, fs);
    if fs != [] {
      assert forall q | q in Init(fs) :: q in fs;
      IsoContents(t, u, Init(fs));
      IsoStart(t, u, Init(fs), p);
      assert Last(fs) in fs;
      assert SameInode(t, p, Last(fs)) <==> SameInode(u, p, Last(fs));
    }
  }

  ghost predicate SamePlan(t: Tree, u: Tree, a: Plan, b: Plan) {
    && Covers(t, a) && Covers(u, b)
    && (forall p | p in t && p in u :: SameNumber(t, u, a.alloc, b.alloc, p))
    && a.whites == b.whites
  }

  lemma IsoAlloc(ex: Base, t: Tree, u: Tree, p: Path)
    requires Usable(ex) && Iso(t, u) && ValidTree(t) && ValidTree(u) && p in t
    ensures p in u && SameNumber(t, u, PlanOf(ex, t).alloc, PlanOf(ex, u).alloc, p)
  {
    IsoPaths(t, u);
    VisitsComplete(t);
    IsoNumbers(ex, t, u, Visits(t), p);
    assert SameInode(t, p, []) <==> SameInode(u, p, []);
  }

  lemma IsoWhites(ex: Base, t: Tree, u: Tree)
    requires Usable(ex) && Iso(t, u) && ValidTree(t) && ValidTree(u)
    ensures PlanOf(ex, t).whites == PlanOf(ex, u).whites
  {
    assert DirSet(t) == DirSet(u) by {
      IsoDirs(t, u);
    }
    forall d | d in DirSet(t) ensures Dropped(t, d, BaseEntries(ex, d)) == Dropped(u, d, BaseEntries(ex, d)) {
      DroppedByPaths(t, u, d, BaseEntries(ex, d));
    }
  }

  lemma IsoDirs(t: Tree, u: Tree)
    requires Iso(t, u)
    ensures DirSet(t) == DirSet(u)
  {
    forall d | d in t ensures t[d].HDir? <==> u[d].HDir? {
      assert SameFace(t[d], u[d]);
    }
  }

  lemma IsoPlans(ex: Base, t: Tree, u: Tree)
    requires Usable(ex) && Iso(t, u) && ValidTree(t) && ValidTree(u)
    ensures SamePlan(t, u, PlanOf(ex, t), PlanOf(ex, u))
  {
    PlanShape(ex, t);
    PlanShape(ex, u);
    forall p | p in t && p in u ensures SameNumber(t, u, PlanOf(ex, t).alloc, PlanOf(ex, u).alloc, p) {
      IsoAlloc(ex, t, u, p);
    }
    IsoWhites(ex, t, u);
  }

  lemma {:induction false} IsoEntries(t: Tree, u: Tree, a: map<HostIno, Ino>, b: map<HostIno, Ino>, ps: seq<Path>)
    requires Listed(t, a, ps) && Listed(u, b, ps)
    requires forall p | p in t && p in u :: SameNumber(t, u, a, b, p)
    ensures LiveEntries(t, a, ps) == LiveEntries(u, b, ps)
  {
    if ps != [] {
      IsoEntries(t, u, a, b, Init(ps));
    }
  }

  lemma IsoChunks(env: Env, t: Tree, u: Tree, p: Path, len: nat)
    requires Iso(t, u) && ValidTree(t) && ValidTree(u) && p in t
    ensures p in u && ChunksFor(env, t, t[p].hino, len) == ChunksFor(env, u, u[p].hino, len)
  {
    IsoPaths(t, u);
    IsoContents(t, u, FilePaths(t));
    IsoStart(t, u, FilePaths(t), p);
  }

  lemma IsoDirEntries(t: Tree, u: Tree, a: Plan, b: Plan, d: Path)
    requires Iso(t, u) && SamePlan(t, u, a, b) && d in t && t[d].HDir?
    ensures d in u && u[d].HDir? && DirEntries(t, a, d) == DirEntries(u, b, d)
  {
    assert SameFace(t[d], u[d]);
    IsoLists(t, u);
    assert Listing(t, d) == Listing(u, d);
    ListingListed(t, a, d);
    ListingListed(u, b, d);
    IsoEntries(t, u, a.alloc, b.alloc, Listing(t, d));
  }

  lemma IsoRender(env: Env, t: Tree, u: Tree, a: Plan, b: Plan, p: Path)
    requires Iso(t, u) && SamePlan(t, u, a, b) && p in t
    ensures p in u && Render(env, t, a, p) == Render(env, u, b, p)
  {
    assert SameFace(t[p], u[p]) && SameNumber(t, u, a.alloc, b.alloc, p);
    ShapeHas(t, a, p);
    match t[p]
    case HDir(_, _) => IsoDirEntries(t, u, a, b, p);
    case HFile(_, _, c) => IsoChunks(env, t, u, p, |c|);
    case HOther(_, _, _) =>
  }

  lemma {:induction false} IsoRenderAll(env: Env, t: Tree, u: Tree, a: Plan, b: Plan, ps: seq<Path>)
    requires Iso(t, u) && SamePlan(t, u, a, b) && Within(t, ps)
    ensures Within(u, ps) && RenderAll(env, t, a, ps) == RenderAll(env, u, b, ps)
  {
    if ps != [] {
      IsoRenderAll(env, t, u, a, b, Init(ps));
      IsoRender(env, t, u, a, b, Last(ps));
    }
  }

  lemma {:induction false} IsoWhiteouts(a: Plan, b: Plan, ds: seq<Path>)
    requires a.whites == b.whites && forall d | d in ds :: d in a.whites
    ensures Whiteouts(a, ds) == Whiteouts(b, ds)
  {
    if ds != [] {
      IsoWhiteouts(a, b, Init(ds));
    }
  }

  /** Over the same base, trees equal up to host inode numbers render the same inodes. */
  lemma SameRendering(env: Env, ex: Base, t: Tree, u: Tree)
    requires Usable(ex) && Iso(t, u) && ValidTree(t) && ValidTree(u)
    ensures Covers(t, PlanOf(ex, t)) && Covers(u, PlanOf(ex, u))
    ensures Unsorted(env, t, PlanOf(ex, t)) == Unsorted(env, u, PlanOf(ex, u))
  {
    IsoPlans(ex, t, u);
    IsoPaths(t, u);
    IsoLists(t, u);
    var a, b := PlanOf(ex, t), PlanOf(ex, u);
    IsoWhiteouts(a, b, DirOrder(t));
    IsoRenderAll(env, t, u, a, b, DirOrder(t));
    IsoRenderAll(env, t, u, a, b, FilePaths(t));
    IsoRenderAll(env, t, u, a, b, OtherPaths(t));
  }

  /** Trees equal up to host inode numbers give the same layer, whatever order their inodes were collected in. */
  lemma SameLayer(env: Env, ex: Base, t: Tree, u: Tree, l: Layer, l': Layer)
    requires Usable(ex) && Iso(t, u) && ValidTree(t) && ValidTree(u) && NoSplit(ex, t) && SoundBase(ex, t)
    requires Rendering(env, ex, t, l) && Rendering(env, ex, u, l')
    ensures l == l'
  {
    SameRendering(env, ex, t, u);
    NoSplitImpliesDistinct(ex, t);
    RenderingUnique(env, ex, t, l);
    RenderingUnique(env, ex, t, l');
  }
}
