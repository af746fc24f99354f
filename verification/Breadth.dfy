/** The order in which an image that shows a tree is walked: by depth, then by path. */
module Breadth {
  import opened Types
  import opened Seqs
  import opened Paths
  import opened HostTree
  import opened Layers
  import opened Store
  import opened Plans
  import opened View
  import opened Display
  import opened Walk
  import opened ShownWalk

  predicate Precedes(p: Path, q: Path) {
    |p| < |q| || (|p| == |q| && PathLe(p, q))
  }

  lemma PrecedesTotal(p: Path, q: Path)
    ensures Precedes(p, q) || Precedes(q, p)
    ensures Precedes(p, q) && Precedes(q, p) ==> p == q
  {
    PathTotal(p, q);
  }

  lemma PrecedesTrans(p: Path, q: Path, r: Path)
    requires Precedes(p, q) && Precedes(q, r)
    ensures Precedes(p, r)
  {
    if |p| == |r| {
      PathTrans(p, q, r);
    }
  }

  ghost predicate InOrderAt(ps: seq<Path>, i: nat, j: nat)
    requires i < |ps| && j < |ps|
  {
    Precedes(ps[i], ps[j])
  }

  ghost predicate InBreadthOrder(ps: seq<Path>) {
    forall i, j {:trigger InOrderAt(ps, i, j)} | 0 <= i < j < |ps| :: InOrderAt(ps, i, j)
  }

  /** Children come in the order of their parents. */
  lemma {:induction false} ChildOrder(a: Path, b: Path, p: Path, q: Path)
    requires |a| == |b| && a != b && PathLe(a, b) && p != [] && q != [] && Init(p) == a && Init(q) == b
    ensures PathLe(p, q)
    decreases |a|
  {
    if a[0] == b[0] {
      ChildOrder(a[1..], b[1..], p[1..], q[1..]);
    }
    assert p[0] == a[0] && q[0] == b[0];
  }

  lemma KidAfter(layers: seq<Layer>, ps: seq<Path>, n: nat, i: nat, kid: Path)
    requires NonEmpty(layers) && n < |ps| && Ordered(layers, ps, n) && InBreadthOrder(ps)
    requires i < |ps| && kid != [] && Init(kid) == ps[n]
    ensures Precedes(ps[i], kid)
  {
    if i < |ps| - 1 {
      assert NoDeeper(ps, i, |ps| - 1);
    }
    if |ps[i]| == |kid| {
      assert ParentBefore(ps, n, i);
      var m :| 0 <= m < Min(i, n) && ps[m] == Init(ps[i]);
      assert InOrderAt(ps, m, n);
      ChildOrder(ps[m], ps[n], ps[i], kid);
    }
  }

  lemma StepInOrder(layers: seq<Layer>, ps: seq<Path>, n: nat, kids: seq<Path>)
    requires NonEmpty(layers) && n < |ps| && Ordered(layers, ps, n) && InBreadthOrder(ps)
    requires AreBelow(ps[n], kids) && SortedPaths(kids)
    ensures InBreadthOrder(ps + kids)
  {
    var more := ps + kids;
    forall i, j | 0 <= i < j < |more| ensures InOrderAt(more, i, j) {
      if j < |ps| {
        assert InOrderAt(ps, i, j);
      } else if i < |ps| {
        KidAfter(layers, ps, n, i, kids[j - |ps|]);
      } else {
        assert PathLe(kids[i - |ps|], kids[j - |ps|]);
      }
    }
  }

  /** What a directory that drops nothing holds is walked in the order of its listing. */
  lemma KidsAreListing(env: Env, layers: seq<Layer>, t: Tree, plan: Plan, d: Path)
    requires Shows(env, layers, t, plan) && DropsNothing(plan) && d in t && t[d].HDir?
    ensures Findable(layers, DirEntries(t, plan, d))
    ensures PathsOf(Below(layers, d, DirEntries(t, plan, d))) == Listing(t, d)
  {
    ShapeHas(t, plan, d);
    LiveDir(env, layers, t, plan, d);
    ListingListed(t, plan, d);
    var ls := Listing(t, d);
    LiveEntriesAt(t, plan.alloc, ls);
    assert DirEntries(t, plan, d) == LiveEntries(t, plan.alloc, ls);
    var kids := PathsOf(Below(layers, d, DirEntries(t, plan, d)));
    forall i | 0 <= i < |ls| ensures kids[i] == ls[i] {
      assert ls[i] in ls;
      Rejoin(ls[i]);
    }
    SameElements(kids, ls);
  }

  lemma KidsSorted(env: Env, layers: seq<Layer>, t: Tree, plan: Plan, e: Entry)
    requires Shows(env, layers, t, plan) && DropsNothing(plan) && Agrees(layers, e) && e.path in t
    ensures Findable(layers, EntriesOf(e.inode)) && DistinctNames(EntriesOf(e.inode))
    ensures SortedPaths(PathsOf(Below(layers, e.path, EntriesOf(e.inode))))
  {
    ShownInode(env, layers, t, plan, e.path);
    ShapeHas(t, plan, e.path);
    if t[e.path].HDir? {
      LiveDir(env, layers, t, plan, e.path);
      KidsAreListing(env, layers, t, plan, e.path);
      SortIsSorted(Children(t, e.path));
    }
  }

  lemma StepsInOrder(layers: seq<Layer>, all: seq<Entry>, n: nat, es: seq<DirEnt>)
    requires Walked(layers, all, n) && n < |all| && InBreadthOrder(PathsOf(all))
    requires es == EntriesOf(all[n].inode) && Findable(layers, es) && DistinctNames(es)
    requires SortedPaths(PathsOf(Below(layers, all[n].path, es)))
    ensures Walked(layers, all + Below(layers, all[n].path, es), n + 1)
    ensures InBreadthOrder(PathsOf(all + Below(layers, all[n].path, es)))
  {
    var kids := Below(layers, all[n].path, es);
    WalkStep(layers, all, n, es);
    KidsBelow(layers, all[n].path, es);
    PathsAppend(all, kids);
    StepInOrder(layers, PathsOf(all), n, PathsOf(kids));
  }

  /** What a reachable directory holds comes in the order of paths. */
  ghost predicate SortedAt(layers: seq<Layer>, p: Path)
    requires NonEmpty(layers) && Resolves(layers, p)
  {
    var es := EntriesOf(InodeAt(layers, p));
    Findable(layers, es) ==> SortedPaths(PathsOf(Below(layers, p, es)))
  }

  ghost predicate SortedDirs(layers: seq<Layer>, paths: set<Path>)
    requires Finite(layers, paths)
  {
    forall p {:trigger InodeAt(layers, p)} | p in paths :: SortedAt(layers, p)
  }

  lemma NextSorted(layers: seq<Layer>, paths: set<Path>, all: seq<Entry>, n: nat)
    requires Finite(layers, paths) && SortedDirs(layers, paths) && Walked(layers, all, n) && n < |all|
    requires Findable(layers, EntriesOf(all[n].inode))
    ensures DistinctNames(EntriesOf(all[n].inode)) && SortedPaths(PathsOf(Below(layers, all[n].path, EntriesOf(all[n].inode))))
  {
    assert Agrees(layers, all[n]);
    assert all[n].path in paths && all[n].inode == InodeAt(layers, all[n].path);
    assert SortedAt(layers, all[n].path);
  }

  lemma Further(layers: seq<Layer>, paths: set<Path>, all: seq<Entry>, n: nat, bound: nat) returns (more: seq<Entry>)
    requires Finite(layers, paths) && SortedDirs(layers, paths)
    requires Walked(layers, all, n) && InBreadthOrder(PathsOf(all))
    requires bound > 0 && n < |all| && Findable(layers, EntriesOf(all[n].inode))
    ensures Walked(layers, more, n + 1) && InBreadthOrder(PathsOf(more))
    ensures Onward(layers, all, n, bound) == Onward(layers, more, n + 1, bound - 1)
  {
    var es := EntriesOf(all[n].inode);
    more := all + Below(layers, all[n].path, es);
    NextSorted(layers, paths, all, n);
    StepsInOrder(layers, all, n, es);
  }

  lemma {:induction false} OnwardInOrder(layers: seq<Layer>, paths: set<Path>, all: seq<Entry>, n: nat, bound: nat)
    requires Finite(layers, paths) && SortedDirs(layers, paths)
    requires Walked(layers, all, n) && InBreadthOrder(PathsOf(all))
    ensures InBreadthOrder(PathsOf(Onward(layers, all, n, bound)))
    decreases bound
  {
    if bound > 0 && n < |all| && Findable(layers, EntriesOf(all[n].inode)) {
      var more := Further(layers, paths, all, n, bound);
      OnwardInOrder(layers, paths, more, n + 1, bound - 1);
    }
  }

  lemma ShownSorted(env: Env, layers: seq<Layer>, t: Tree, plan: Plan)
    requires Shows(env, layers, t, plan) && DropsNothing(plan) && Finite(layers, t.Keys)
    ensures SortedDirs(layers, t.Keys)
  {
    forall p | p in t ensures SortedAt(layers, p) {
      KidsSorted(env, layers, t, plan, Entry(p, InodeAt(layers, p)));
    }
  }

  /** The walk over a shown tree yields exactly its paths, by depth and then by path. */
  lemma WalkInOrder(env: Env, layers: seq<Layer>, t: Tree, plan: Plan)
    requires Shows(env, layers, t, plan) && DropsNothing(plan)
    ensures Finite(layers, t.Keys) && Enumerates(layers, t.Keys, WalkOf(layers, t.Keys))
    ensures InBreadthOrder(PathsOf(WalkOf(layers, t.Keys)))
  {
    ShownIsFinite(env, layers, t, plan);
    WalkEnumerates(layers, t.Keys);
    assert Resolves(layers, []);
    var root := FindInode(layers, 1).value;
    WalkStarts(layers, root);
    ShownSorted(env, layers, t, plan);
    OnwardInOrder(layers, t.Keys, [Entry([], root)], 0, |t.Keys|);
  }

  /** The paths yielded up to one are those that precede it. */
  lemma YieldedBefore(ps: seq<Path>, k: nat, q: Path)
    requires InBreadthOrder(ps) && NoDups(ps) && k < |ps| && q in ps
    ensures q in ps[..k + 1] <==> Precedes(q, ps[k])
  {
    var i :| 0 <= i < |ps| && ps[i] == q;
    var k' := k + 1;
    if i < k' {
      assert ps[..k'][i] == q;
      if i < k {
        assert InOrderAt(ps, i, k);
      } else {
        PrecedesTotal(q, q);
      }
    } else {
      assert InOrderAt(ps, k, i);
      PrecedesTotal(q, ps[k]);
    }
  }
}
