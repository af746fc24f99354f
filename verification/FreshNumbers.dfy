/** The exact number of every path, by its position in the order of visits. */
module FreshNumbers {
  import opened Types
  import opened Seqs
  import opened Paths
  import opened HostTree
  import opened Layers
  import opened Resolution
  import opened Store
  import opened Plans
  import opened View
  import opened Numbers
  import opened Display
  import opened Images
  import opened Steps
  import opened Runs
  import opened Histories
  import opened ShownWalk
  import opened Visiting

  /** The base does not resolve the path. */
  predicate NewToBase(ex: Base, p: Path)
    requires Usable(ex)
  {
    ex.None? || Lookup(ex.value, p).Err? || Lookup(ex.value, p).value.None?
  }

  /** The positions of the paths that the base does not resolve. */
  function NewAmong(ex: Base, vs: seq<Path>): set<nat>
    requires Usable(ex)
  {
    set k: nat | k < |vs| && NewToBase(ex, vs[k])
  }

  /** The numbers of a build start at 2 without a base, and after the largest number of any inode with one. */
  ghost predicate StartsAt(ex: Base, first: Ino) {
    match ex
    case None => first == 2
    case Some(layers) =>
      && first >= 2
      && (forall l, x | l in layers && x in l :: x.ino < first)
      && (first > 2 ==> exists l, x :: l in layers && x in l && x.ino == first - 1)
  }

  lemma StartsOnce(ex: Base, first: Ino)
    requires Usable(ex) && (ex.Some? ==> WellFormed(ex.value))
    ensures StartsAt(ex, first) <==> first == FirstFree(ex)
  {
    if ex.Some? {
      MaxInoIsMaximum(ex.value);
    }
  }

  lemma OneMoreNew(ex: Base, vs: seq<Path>, ws: seq<Path>, p: Path)
    requires Usable(ex) && ws == vs + [p]
    ensures |NewAmong(ex, ws)| == |NewAmong(ex, vs)| + if NewToBase(ex, p) then 1 else 0
  {
    assert forall k: nat | k < |vs| :: ws[k] == vs[k];
    forall k: nat ensures k in NewAmong(ex, ws) <==> k in NewAmong(ex, vs) || (k == |vs| && NewToBase(ex, p)) {
    }
    var was, n: nat := NewAmong(ex, vs), |vs|;
    assert NewAmong(ex, ws) == if NewToBase(ex, p) then was + {n} else was;
  }

  /** The next free number counts the paths visited so far that the base does not resolve. */
  lemma {:induction false} NextCounts(ex: Base, t: Tree, vs: seq<Path>)
    requires Usable(ex) && Within(t, vs)
    ensures NumberAll(ex, t, vs).next == FirstFree(ex) + |NewAmong(ex, vs)|
  {
    if vs == [] {
      assert NewAmong(ex, vs) == {};
    } else {
      NextCounts(ex, t, Init(vs));
      Rejoin(vs);
      OneMoreNew(ex, Init(vs), vs, Last(vs));
    }
  }

  /** Position i of the order of visits is the first path of its host inode. */
  ghost predicate FirstVisit(t: Tree, i: nat) {
    i < |Visits(t)| && forall k | 0 <= k < i :: !SameInode(t, Visits(t)[k], Visits(t)[i])
  }

  lemma FirstGets(ex: Base, t: Tree, vs: seq<Path>, p: Path)
    requires Usable(ex) && Within(t, vs) && Within(t, vs + [p]) && p in t && forall q | q in vs :: !SameInode(t, q, p)
    ensures t[p].hino in NumberAll(ex, t, vs + [p]).inos
    ensures NumberAll(ex, t, vs + [p]).inos[t[p].hino] ==
            if NewToBase(ex, p) then FirstFree(ex) + |NewAmong(ex, vs)| else Lookup(ex.value, p).value.value.ino
  {
    NumberKeys(ex, t, vs);
    NextCounts(ex, t, vs);
    assert Init(vs + [p]) == vs && Last(vs + [p]) == p;
  }

  /**
   * The number of the first path of a host inode: the one the base has for it, or, if the base does not
   * resolve it, the first free one plus the number of paths visited before it that the base does not resolve.
   */
  lemma NumberExactly(ex: Base, t: Tree, i: nat, p: Path, first: Ino)
    requires Usable(ex) && ValidTree(t) && (ex.Some? ==> WellFormed(ex.value)) && StartsAt(ex, first)
    requires FirstVisit(t, i) && p == Visits(t)[i]
    ensures p in t && t[p].hino in PlanOf(ex, t).alloc
    ensures NewToBase(ex, p) ==> PlanOf(ex, t).alloc[t[p].hino] == first + |NewAmong(ex, Visits(t)[..i])|
    ensures !NewToBase(ex, p) ==> PlanOf(ex, t).alloc[t[p].hino] == Lookup(ex.value, p).value.value.ino
  {
    var vs := Visits(t);
    var before, after := vs[..i], vs[i + 1..];
    VisitsComplete(t);
    assert p in vs;
    StartsOnce(ex, first);
    assert vs == (before + [p]) + after;
    FirstGets(ex, t, before, p);
    NumberKeeps(ex, t, before + [p], after, t[p].hino);
    assert !SameInode(t, p, []);
  }

  // In the image.

  ghost function NumberDue(ex: Base, t: Tree, i: nat, first: Ino): Ino
    requires Usable(ex) && i < |Visits(t)|
  {
    var p := Visits(t)[i];
    if NewToBase(ex, p) then first + |NewAmong(ex, Visits(t)[..i])| else Lookup(ex.value, p).value.value.ino
  }

  /** That is the number under which the image that was built resolves the path. */
  lemma ShownNumber(env: Env, layers: seq<Layer>, ex: Base, t: Tree, plan: Plan, i: nat, p: Path, first: Ino)
    requires Usable(ex) && ValidTree(t) && (ex.Some? ==> WellFormed(ex.value)) && StartsAt(ex, first)
    requires plan == PlanOf(ex, t) && Shows(env, layers, t, plan) && FirstVisit(t, i) && p == Visits(t)[i]
    ensures Resolves(layers, p) && InodeAt(layers, p).ino == NumberDue(ex, t, i, first)
  {
    NumberExactly(ex, t, i, p, first);
    ShownInode(env, layers, t, plan, p);
  }

  /** In every history that splits nothing the image of every build numbers the tree it shows in this way. */
  lemma RunNumber(env: Env, ser: Rootfs -> Bytes, r: Run, k: nat, m: nat, i: nat, p: Path, first: Ino)
    requires Trusted(env) && IsRun(env, ser, r) && k < |r| && Unsplit(r, k) && m == Shown(r, k) && Sane(r, m)
    requires StartsAt(BaseAt(r, m), first) && FirstVisit(r[m].tree, i) && p == Visits(r[m].tree)[i]
    ensures NonEmpty(LayersAt(r, k)) && Resolves(LayersAt(r, k), p)
    ensures InodeAt(LayersAt(r, k), p).ino == NumberDue(BaseAt(r, m), r[m].tree, i, first)
  {
    RunShows(env, ser, r, k);
    if r[m].base.Some? && r[m].base.value < m {
      RunSorted(env, ser, r, r[m].base.value);
    }
    ShownNumber(EnvAt(env, r, m), LayersAt(r, k), BaseAt(r, m), r[m].tree, PlanAt(r, m), i, p, first);
  }

  // First builds.

  ghost predicate NoHardLinks(t: Tree) {
    forall p, q | SameInode(t, p, q) :: p == q
  }

  lemma AllAreFirst(t: Tree, i: nat)
    requires NoHardLinks(t) && i < |Visits(t)|
    ensures FirstVisit(t, i)
  {
    SortIsSorted(DirSet(t));
    VisitsNoDups(t, DirOrder(t));
  }

  lemma AllAreNew(vs: seq<Path>)
    ensures |NewAmong(None, vs)| == |vs|
  {
    CountBelow(NewAmong(None, vs), |vs|);
  }

  lemma {:induction false} CountBelow(s: set<nat>, n: nat)
    requires forall k: nat :: k in s <==> k < n
    ensures |s| == n
  {
    if n == 0 {
      assert s == {};
    } else {
      CountBelow(s - {n - 1}, n - 1);
    }
  }

  /** A first build without hard links numbers the paths 2, 3, .. in the order of visits, without a gap. */
  lemma FirstBuildCounts(env: Env, layers: seq<Layer>, t: Tree, plan: Plan, i: nat, p: Path)
    requires ValidTree(t) && NoHardLinks(t) && plan == PlanOf(None, t) && Shows(env, layers, t, plan)
    requires i < |Visits(t)| && p == Visits(t)[i]
    ensures Resolves(layers, p) && InodeAt(layers, p).ino == 2 + i
  {
    AllAreFirst(t, i);
    AllAreNew(Visits(t)[..i]);
    ShownNumber(env, layers, None, t, plan, i, p, 2);
  }
}
