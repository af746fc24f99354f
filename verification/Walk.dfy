/** The queue-based walk over an image. */
module Walk {
  import opened Types
  import opened Seqs
  import opened Layers
  import opened Resolution
  import opened Display

  datatype Entry = Entry(path: Path, inode: Inode)

  function EntriesOf(i: Inode): seq<DirEnt> {
    if i.mode.Dir? then i.mode.entries else []
  }

  predicate Findable(layers: seq<Layer>, es: seq<DirEnt>)
    requires NonEmpty(layers)
  {
    forall k | 0 <= k < |es| :: FindInode(layers, es[k].ino).Ok?
  }

  /** The queue entries for directory entries found in the directory at path d. */
  function Below(layers: seq<Layer>, d: Path, es: seq<DirEnt>): (r: seq<Entry>)
    requires NonEmpty(layers) && Findable(layers, es)
    ensures |r| == |es|
  {
    seq(|es|, k requires 0 <= k < |es| => Entry(d + [es[k].name], FindInode(layers, es[k].ino).value))
  }

  class Walker {
    const layers: seq<Layer>
    var q: seq<Entry>

    constructor (layers: seq<Layer>, root: Inode)
      ensures this.layers == layers && q == [Entry([], root)]
    {
      this.layers := layers;
      q := [Entry([], root)];
    }

    static method Start(layers: seq<Layer>) returns (r: Result<Walker>)
      requires NonEmpty(layers)
      ensures r.Ok? <==> FindInode(layers, 1).Ok?
      ensures r.Ok? ==> fresh(r.value) && r.value.layers == layers && r.value.q == [Entry([], FindInode(layers, 1).value)]
    {
      var root := FindInodeInLayers(layers, 1);
      if root.Err? {
        return Err(root.error);
      }
      var walker := new Walker(layers, root.value);
      return Ok(walker);
    }

    method AddDirEntries(dir: Entry) returns (r: Result<()>)
      requires NonEmpty(layers)
      modifies this
      ensures r.Ok? <==> Findable(layers, EntriesOf(dir.inode))
      ensures r.Ok? ==> q == old(q) + Below(layers, dir.path, EntriesOf(dir.inode))
    {
      var es := EntriesOf(dir.inode);
      for k := 0 to |es|
        invariant Findable(layers, es[..k])
        invariant q == old(q) + Below(layers, dir.path, es[..k])
      {
        var inode := FindInodeInLayers(layers, es[k].ino);
        if inode.Err? {
          return Err(inode.error);
        }
        assert es[..k + 1] == es[..k] + [es[k]];
        q := q + [Entry(dir.path + [es[k].name], inode.value)];
        assert Below(layers, dir.path, es[..k + 1]) == Below(layers, dir.path, es[..k]) + [Entry(dir.path + [es[k].name], inode.value)];
      }
      assert es[..|es|] == es;
      return Ok(());
    }

    /** Takes the oldest entry off the queue and queues what is in it. */
    method Next() returns (r: Option<Result<Entry>>)
      requires NonEmpty(layers)
      modifies this
      ensures r.None? <==> old(q) == []
      ensures r.None? ==> q == old(q)
      ensures r.Some? ==> (r.value.Ok? <==> Findable(layers, EntriesOf(old(q)[0].inode)))
      ensures r.Some? && r.value.Ok? ==>
                && r.value.value == old(q)[0]
                && q == old(q)[1..] + Below(layers, old(q)[0].path, EntriesOf(old(q)[0].inode))
    {
      if q == [] {
        return None;
      }
      var de := q[0];
      q := q[1..];
      var added := AddDirEntries(de);
      if added.Err? {
        return Some(Err(added.error));
      }
      return Some(Ok(de));
    }
  }

  // What an image must be like, and what a walk then yields.

  predicate DistinctNames(es: seq<DirEnt>) {
    forall i, j | 0 <= i < j < |es| :: es[i].name != es[j].name
  }

  predicate NamesOnce(layers: seq<Layer>, es: seq<DirEnt>)
    requires NonEmpty(layers)
  {
    Findable(layers, es) ==> DistinctNames(es)
  }

  /** Exactly the given, finitely many, paths resolve, and no directory free of whiteouts repeats a name. */
  ghost predicate Finite(layers: seq<Layer>, paths: set<Path>) {
    && NonEmpty(layers)
    && (forall p {:trigger Resolves(layers, p)} :: Resolves(layers, p) <==> p in paths)
    && (forall p {:trigger InodeAt(layers, p)} | p in paths :: Resolves(layers, p) && NamesOnce(layers, EntriesOf(InodeAt(layers, p))))
  }

  /** Every entry of every reachable directory can be found: no whiteouts. */
  ghost predicate WhiteoutFree(layers: seq<Layer>, paths: set<Path>)
    requires Finite(layers, paths)
  {
    forall p {:trigger InodeAt(layers, p)} | p in paths :: Findable(layers, EntriesOf(InodeAt(layers, p)))
  }

  ghost predicate Agrees(layers: seq<Layer>, e: Entry)
    requires NonEmpty(layers)
  {
    Resolves(layers, e.path) && e.inode == InodeAt(layers, e.path)
  }

  ghost predicate AllAgree(layers: seq<Layer>, all: seq<Entry>)
    requires NonEmpty(layers)
  {
    forall i {:trigger Agrees(layers, all[i])} | 0 <= i < |all| :: Agrees(layers, all[i])
  }

  function PathsOf(all: seq<Entry>): (ps: seq<Path>)
    ensures |ps| == |all| && forall i | 0 <= i < |all| :: ps[i] == all[i].path
  {
    seq(|all|, i requires 0 <= i < |all| => all[i].path)
  }

  ghost predicate NoDeeper(ps: seq<Path>, i: nat, j: nat)
    requires i < |ps| && j < |ps|
  {
    |ps[i]| <= |ps[j]|
  }

  ghost predicate DepthGrows(ps: seq<Path>) {
    forall i, j {:trigger NoDeeper(ps, i, j)} | 0 <= i < j < |ps| :: NoDeeper(ps, i, j)
  }

  /** Every path has its parent before it, and among the first n. */
  ghost predicate ParentsBefore(ps: seq<Path>, n: nat) {
    forall i | 0 <= i < |ps| :: ParentBefore(ps, n, i)
  }

  ghost predicate ParentBefore(ps: seq<Path>, n: nat, i: nat)
    requires i < |ps|
  {
    ps[i] == [] || Init(ps[i]) in ps[..Min(i, n)]
  }

  /** Whatever resolves directly below one of the first n is there. */
  ghost predicate Closed(layers: seq<Layer>, ps: seq<Path>, n: nat)
    requires NonEmpty(layers) && n <= |ps|
  {
    forall p {:trigger Resolves(layers, p)} | Resolves(layers, p) && p != [] && Init(p) in ps[..n] :: p in ps
  }

  /** The entries yielded so far, the first n, followed by the queue. */
  ghost predicate Walked(layers: seq<Layer>, all: seq<Entry>, n: nat) {
    && NonEmpty(layers) && n <= |all| && AllAgree(layers, all)
    && Ordered(layers, PathsOf(all), n)
  }

  ghost predicate Ordered(layers: seq<Layer>, ps: seq<Path>, n: nat)
    requires NonEmpty(layers) && n <= |ps|
  {
    && [] in ps && NoDups(ps) && DepthGrows(ps) && ParentsBefore(ps, n) && Closed(layers, ps, n)
    && (n < |ps| ==> |Last(ps)| <= |ps[n]| + 1)
  }

  // One step.

  ghost predicate AreBelow(d: Path, kids: seq<Path>) {
    forall k | 0 <= k < |kids| :: kids[k] != [] && Init(kids[k]) == d
  }

  lemma NoDupsAppend<T>(a: seq<T>, b: seq<T>)
    requires NoDups(a) && NoDups(b) && forall x | x in b :: x !in a
    ensures NoDups(a + b)
  {
    forall i, j | 0 <= i < j < |a + b| ensures (a + b)[i] != (a + b)[j] {
      if i < |a| <= j {
        assert b[j - |a|] in b;
      }
    }
  }

  lemma TakeOfAppend<T>(a: seq<T>, b: seq<T>, m: nat)
    requires m <= |a|
    ensures (a + b)[..m] == a[..m]
  {
  }

  lemma KidIsNew(ps: seq<Path>, n: nat, p: Path)
    requires n < |ps| && NoDups(ps) && ParentsBefore(ps, n) && p != [] && Init(p) == ps[n]
    ensures p !in ps
  {
    forall j | 0 <= j < |ps| ensures ps[j] != p {
      assert ParentBefore(ps, n, j);
      assert ps[n] !in ps[..Min(j, n)];
    }
  }

  lemma StepNoDups(ps: seq<Path>, n: nat, kids: seq<Path>)
    requires n < |ps| && NoDups(ps) && ParentsBefore(ps, n) && AreBelow(ps[n], kids) && NoDups(kids)
    ensures NoDups(ps + kids)
  {
    forall p | p in kids ensures p !in ps {
      KidIsNew(ps, n, p);
    }
    NoDupsAppend(ps, kids);
  }

  lemma StepParents(ps: seq<Path>, n: nat, kids: seq<Path>)
    requires n < |ps| && ParentsBefore(ps, n) && AreBelow(ps[n], kids)
    ensures ParentsBefore(ps + kids, n + 1)
  {
    var more := ps + kids;
    var n' := n + 1;
    forall i | 0 <= i < |more| ensures ParentBefore(more, n', i) {
      var m := Min(i, n');
      TakeOfAppend(ps, kids, m);
      if i < |ps| {
        assert ParentBefore(ps, n, i);
        assert forall p | p in ps[..Min(i, n)] :: p in ps[..m];
      } else {
        assert ps[n] in ps[..m];
      }
    }
  }

  lemma StepDepth(ps: seq<Path>, n: nat, kids: seq<Path>)
    requires n < |ps| && DepthGrows(ps) && |Last(ps)| <= |ps[n]| + 1 && AreBelow(ps[n], kids)
    ensures DepthGrows(ps + kids)
    ensures n + 1 < |ps + kids| ==> |Last(ps + kids)| <= |(ps + kids)[n + 1]| + 1
  {
    var more, last := ps + kids, |ps| - 1;
    forall i, j | 0 <= i < j < |more| ensures NoDeeper(more, i, j) {
      if j < |ps| {
        assert NoDeeper(ps, i, j);
      } else if i < last {
        assert NoDeeper(ps, i, last);
      }
    }
    if n + 1 <= last {
      assert NoDeeper(ps, n, n + 1);
    }
  }

  lemma StepClosed(layers: seq<Layer>, ps: seq<Path>, n: nat, kids: seq<Path>)
    requires NonEmpty(layers) && n < |ps| && Closed(layers, ps, n)
    requires forall p | Resolves(layers, p) && p != [] && Init(p) == ps[n] :: p in kids
    ensures Closed(layers, ps + kids, n + 1)
  {
    var more := ps + kids;
    TakeOfAppend(ps, kids, n + 1);
    TakeMore(ps, n);
    forall p | Resolves(layers, p) && p != [] && Init(p) in more[..n + 1] ensures p in more {
      assert Init(p) in ps[..n] || Init(p) == ps[n];
    }
  }

  lemma KidAgrees(layers: seq<Layer>, d: Entry, es: seq<DirEnt>, k: nat)
    requires NonEmpty(layers) && Agrees(layers, d) && es == EntriesOf(d.inode) && DistinctNames(es) &&
             Findable(layers, es) && k < |es|
    ensures Agrees(layers, Below(layers, d.path, es)[k])
  {
    FindEntryIsFirst(es, es[k].name, k);
    LookupStep(layers, d.path + [es[k].name], d.inode);
  }

  lemma KidsComplete(layers: seq<Layer>, d: Entry, es: seq<DirEnt>, p: Path)
    requires NonEmpty(layers) && Agrees(layers, d) && es == EntriesOf(d.inode) && Findable(layers, es)
    requires p != [] && Init(p) == d.path && Resolves(layers, p)
    ensures p in PathsOf(Below(layers, d.path, es))
  {
    LookupStep(layers, p, d.inode);
    FindEntryNone(es, Last(p));
    var e :| e in es && e.name == Last(p);
    var k :| 0 <= k < |es| && es[k] == e;
    Rejoin(p);
    assert PathsOf(Below(layers, d.path, es))[k] == p;
  }

  lemma KidsBelow(layers: seq<Layer>, d: Path, es: seq<DirEnt>)
    requires NonEmpty(layers) && Findable(layers, es) && DistinctNames(es)
    ensures AreBelow(d, PathsOf(Below(layers, d, es))) && NoDups(PathsOf(Below(layers, d, es)))
  {
    var kids := PathsOf(Below(layers, d, es));
    assert forall k | 0 <= k < |es| :: kids[k] == d + [es[k].name] && Last(kids[k]) == es[k].name;
  }

  /** Yielding one more entry and queueing what is in it. */
  lemma WalkStep(layers: seq<Layer>, all: seq<Entry>, n: nat, es: seq<DirEnt>)
    requires Walked(layers, all, n) && n < |all|
    requires es == EntriesOf(all[n].inode) && DistinctNames(es) && Findable(layers, es)
    ensures Walked(layers, all + Below(layers, all[n].path, es), n + 1)
  {
    var below := Below(layers, all[n].path, es);
    BelowAgree(layers, all[n], es);
    AgreeAppend(layers, all, below);
    QueueStep(layers, PathsOf(all), n, all[n], es);
    PathsAppend(all, below);
  }

  lemma PathsAppend(a: seq<Entry>, b: seq<Entry>)
    ensures PathsOf(a + b) == PathsOf(a) + PathsOf(b)
  {
  }

  lemma AgreeAppend(layers: seq<Layer>, a: seq<Entry>, b: seq<Entry>)
    requires NonEmpty(layers) && AllAgree(layers, a) && AllAgree(layers, b)
    ensures AllAgree(layers, a + b)
  {
  }

  lemma BelowAgree(layers: seq<Layer>, d: Entry, es: seq<DirEnt>)
    requires NonEmpty(layers) && Agrees(layers, d) && es == EntriesOf(d.inode) && DistinctNames(es) && Findable(layers, es)
    ensures AllAgree(layers, Below(layers, d.path, es))
  {
    forall i | 0 <= i < |es| ensures Agrees(layers, Below(layers, d.path, es)[i]) {
      KidAgrees(layers, d, es, i);
    }
  }

  lemma QueueStep(layers: seq<Layer>, ps: seq<Path>, n: nat, d: Entry, es: seq<DirEnt>)
    requires NonEmpty(layers) && n < |ps| && Ordered(layers, ps, n) && ps[n] == d.path
    requires Agrees(layers, d) && es == EntriesOf(d.inode) && DistinctNames(es) && Findable(layers, es)
    ensures Ordered(layers, ps + PathsOf(Below(layers, d.path, es)), n + 1)
  {
    var kids := PathsOf(Below(layers, d.path, es));
    forall p | Resolves(layers, p) && p != [] && Init(p) == ps[n] ensures p in kids {
      KidsComplete(layers, d, es, p);
    }
    KidsBelow(layers, d.path, es);
    OrderedStep(layers, ps, n, kids);
  }

  lemma OrderedStep(layers: seq<Layer>, ps: seq<Path>, n: nat, kids: seq<Path>)
    requires NonEmpty(layers) && n < |ps| && Ordered(layers, ps, n) && AreBelow(ps[n], kids) && NoDups(kids)
    requires forall p | Resolves(layers, p) && p != [] && Init(p) == ps[n] :: p in kids
    ensures Ordered(layers, ps + kids, n + 1)
  {
    StepNoDups(ps, n, kids);
    StepParents(ps, n, kids);
    StepDepth(ps, n, kids);
    StepClosed(layers, ps, n, kids);
  }

  // A whole walk.

  lemma {:induction false} DistinctFit(ps: seq<Path>, paths: set<Path>)
    requires NoDups(ps) && forall i | 0 <= i < |ps| :: ps[i] in paths
    ensures |ps| <= |paths|
    decreases |ps|
  {
    if ps != [] {
      DistinctFit(Init(ps), paths - {Last(ps)});
    }
  }

  lemma {:induction false} AllYielded(layers: seq<Layer>, ps: seq<Path>, p: Path)
    requires NonEmpty(layers) && [] in ps && Closed(layers, ps, |ps|) && Resolves(layers, p)
    ensures p in ps
    decreases |p|
  {
    if p != [] {
      assert Resolves(layers, Init(p));
      AllYielded(layers, ps, Init(p));
      TakeAll(ps);
    }
  }

  /** The walk yields the paths, each once, as resolution gives them, parents first and by depth. */
  ghost predicate Enumerates(layers: seq<Layer>, paths: set<Path>, out: seq<Entry>)
    requires NonEmpty(layers)
  {
    var ps := PathsOf(out);
    && (forall p :: p in ps <==> p in paths) && NoDups(ps)
    && AllAgree(layers, out)
    && ParentsBefore(ps, |ps|) && DepthGrows(ps)
  }

  lemma WalkedFits(layers: seq<Layer>, paths: set<Path>, all: seq<Entry>, n: nat)
    requires Finite(layers, paths) && Walked(layers, all, n)
    ensures |all| <= |paths| && forall p | p in PathsOf(all) :: p in paths
  {
    forall i | 0 <= i < |all| ensures all[i].path in paths {
      assert Agrees(layers, all[i]);
    }
    DistinctFit(PathsOf(all), paths);
  }

  lemma WalkEnds(layers: seq<Layer>, paths: set<Path>, all: seq<Entry>)
    requires Finite(layers, paths) && Walked(layers, all, |all|)
    requires forall i | 0 <= i < |all| :: Findable(layers, EntriesOf(all[i].inode))
    ensures Enumerates(layers, paths, all) && [] in paths && WhiteoutFree(layers, paths)
  {
    WalkedFits(layers, paths, all, |all|);
    forall p | p in paths ensures p in PathsOf(all) && Findable(layers, EntriesOf(InodeAt(layers, p))) {
      AllYielded(layers, PathsOf(all), p);
      var i :| 0 <= i < |all| && PathsOf(all)[i] == p;
      assert Agrees(layers, all[i]);
    }
  }

  lemma WalkStarts(layers: seq<Layer>, root: Inode)
    requires NonEmpty(layers) && FindInode(layers, 1) == Ok(root)
    ensures Walked(layers, [Entry([], root)], 0)
  {
    var all := [Entry([], root)];
    assert PathsOf(all) == [[]];
    assert PathsOf(all)[0] == [];
  }

  /** The walker, its queue being q, stands after the first n of all entries it has met. */
  ghost predicate Walking(layers: seq<Layer>, q: seq<Entry>, all: seq<Entry>, n: nat) {
    && Walked(layers, all, n) && q == all[n..]
    && forall i | 0 <= i < n :: Findable(layers, EntriesOf(all[i].inode))
  }

  lemma QueueMoves(all: seq<Entry>, n: nat, kids: seq<Entry>)
    requires n < |all|
    ensures all[n..][0] == all[n] && all[n..][1..] + kids == (all + kids)[n + 1..]
  {
  }

  lemma FoundSoFar(layers: seq<Layer>, all: seq<Entry>, n: nat, more: seq<Entry>)
    requires NonEmpty(layers) && n < |all| && all <= more
    requires (forall i | 0 <= i < n :: Findable(layers, EntriesOf(all[i].inode))) && Findable(layers, EntriesOf(all[n].inode))
    ensures forall i | 0 <= i < n + 1 :: Findable(layers, EntriesOf(more[i].inode))
  {
  }

  // The walk as a function of the image.

  /** All entries met from here on, at most bound steps further. */
  ghost function Onward(layers: seq<Layer>, all: seq<Entry>, n: nat, bound: nat): seq<Entry>
    requires NonEmpty(layers)
    decreases bound
  {
    if bound == 0 || n >= |all| || !Findable(layers, EntriesOf(all[n].inode)) then all
    else Onward(layers, all + Below(layers, all[n].path, EntriesOf(all[n].inode)), n + 1, bound - 1)
  }

  /** The entries of a walk over an image with these paths, in order. */
  ghost function WalkOf(layers: seq<Layer>, paths: set<Path>): seq<Entry>
    requires NonEmpty(layers)
  {
    match FindInode(layers, 1)
    case Ok(root) => Onward(layers, [Entry([], root)], 0, |paths|)
    case Err(_) => []
  }

  /** The walk that has met these entries will be the walk of the image. */
  ghost predicate Toward(layers: seq<Layer>, paths: set<Path>, all: seq<Entry>, n: nat)
    requires NonEmpty(layers)
  {
    n <= |paths| && Onward(layers, all, n, |paths| - n) == WalkOf(layers, paths)
  }

  lemma {:induction false} OnwardExtends(layers: seq<Layer>, all: seq<Entry>, n: nat, bound: nat)
    requires NonEmpty(layers)
    ensures all <= Onward(layers, all, n, bound)
    decreases bound
  {
    if bound > 0 && n < |all| && Findable(layers, EntriesOf(all[n].inode)) {
      OnwardExtends(layers, all + Below(layers, all[n].path, EntriesOf(all[n].inode)), n + 1, bound - 1);
    }
  }

  /** A walk without whiteouts goes on until it has yielded every path. */
  lemma {:induction false} OnwardEnumerates(layers: seq<Layer>, paths: set<Path>, all: seq<Entry>, n: nat, bound: nat)
    requires Finite(layers, paths) && WhiteoutFree(layers, paths) && Walked(layers, all, n) && bound == |paths| - n
    ensures Enumerates(layers, paths, Onward(layers, all, n, bound))
    decreases bound
  {
    WalkedFits(layers, paths, all, n);
    forall i | 0 <= i < |all| ensures all[i].path in paths && Findable(layers, EntriesOf(all[i].inode)) {
      assert Agrees(layers, all[i]) && PathsOf(all)[i] in PathsOf(all);
    }
    if n == |all| {
      WalkEnds(layers, paths, all);
    } else {
      assert Agrees(layers, all[n]);
      WalkStep(layers, all, n, EntriesOf(all[n].inode));
      OnwardEnumerates(layers, paths, all + Below(layers, all[n].path, EntriesOf(all[n].inode)), n + 1, bound - 1);
    }
  }

  lemma WalkEnumerates(layers: seq<Layer>, paths: set<Path>)
    requires Finite(layers, paths) && WhiteoutFree(layers, paths) && [] in paths
    ensures Enumerates(layers, paths, WalkOf(layers, paths))
  {
    assert Resolves(layers, []);
    WalkStarts(layers, FindInode(layers, 1).value);
    OnwardEnumerates(layers, paths, [Entry([], FindInode(layers, 1).value)], 0, |paths|);
  }

  lemma OnwardStep(layers: seq<Layer>, paths: set<Path>, all: seq<Entry>, n: nat, kids: seq<Entry>)
    requires NonEmpty(layers) && Toward(layers, paths, all, n) && n < |all| && n < |paths|
    requires Findable(layers, EntriesOf(all[n].inode)) && kids == Below(layers, all[n].path, EntriesOf(all[n].inode))
    ensures Toward(layers, paths, all + kids, n + 1)
  {
    var b, b' := |paths| - n, |paths| - (n + 1);
    assert b' == b - 1;
  }

  /**
   * One step of a walk over an image with finitely many paths.  The walk is over once every path
   * has been yielded; it stops early exactly at a directory that lists a whiteout.
   */
  method Advance(walker: Walker, ghost paths: set<Path>, ghost all: seq<Entry>, ghost n: nat)
    returns (r: Option<Result<Entry>>, ghost all': seq<Entry>)
    requires Finite(walker.layers, paths) && Walking(walker.layers, walker.q, all, n) && Toward(walker.layers, paths, all, n)
    modifies walker
    ensures n <= |paths| && (r.Some? ==> n < |paths|)
    ensures r.None? ==>
              && n == |all| && all == WalkOf(walker.layers, paths) && Enumerates(walker.layers, paths, all)
              && [] in paths && WhiteoutFree(walker.layers, paths)
    ensures r.Some? && r.value.Err? ==> !WhiteoutFree(walker.layers, paths)
    ensures r.Some? && r.value.Ok? ==>
              && n < |all| <= |all'| && all == all'[..|all|] && r.value.value == all[n]
              && Walking(walker.layers, walker.q, all', n + 1) && Toward(walker.layers, paths, all', n + 1)
  {
    ghost var layers := walker.layers;
    all' := all;
    WalkedFits(layers, paths, all, n);
    r := walker.Next();
    if r.None? {
      WalkEnds(layers, paths, all);
    } else {
      QueueMoves(all, n, []);
      assert Agrees(layers, all[n]) && PathsOf(all)[n] == all[n].path && all[n].path in paths;
      if r.value.Ok? {
        ghost var kids := Below(layers, all[n].path, EntriesOf(all[n].inode));
        WalkStep(layers, all, n, EntriesOf(all[n].inode));
        QueueMoves(all, n, kids);
        all' := all + kids;
        FoundSoFar(layers, all, n, all');
        OnwardStep(layers, paths, all, n, kids);
      }
    }
  }

  /**
   * A whole walk.  It terminates; it fails exactly when some reachable directory still lists a
   * whiteout; otherwise it yields every path that resolves exactly once, with the inode that path
   * resolution gives, parents before children and never a shorter path after a longer one.
   */
  method WalkAll(layers: seq<Layer>, ghost paths: set<Path>) returns (r: Result<seq<Entry>>)
    requires Finite(layers, paths)
    ensures r.Ok? <==> [] in paths && WhiteoutFree(layers, paths)
    ensures r.Ok? ==> r.value == WalkOf(layers, paths) && Enumerates(layers, paths, r.value)
  {
    assert Resolves(layers, []) <==> FindInode(layers, 1).Ok?;
    var start := Walker.Start(layers);
    if start.Err? {
      return Err(start.error);
    }
    var walker := start.value;
    var out: seq<Entry> := [];
    ghost var all := walker.q;
    WalkStarts(layers, walker.q[0].inode);
    while true
      invariant walker.layers == layers && Walking(layers, walker.q, all, |out|) && Toward(layers, paths, all, |out|)
      invariant out == all[..|out|]
      decreases |paths| - |out|
    {
      ghost var was := all;
      var next;
      next, all := Advance(walker, paths, all, |out|);
      if next.None? {
        TakeAll(was);
        return Ok(out);
      }
      if next.value.Err? {
        return Err(next.value.error);
      }
      TakeMore(was, |out|);
      Rejoin(was[..|out| + 1]);
      out := out + [next.value.value];
      TakeOfTake(all, |was|, |out|);
    }
  }

  lemma TakeOfTake<T>(s: seq<T>, a: nat, b: nat)
    requires b <= a <= |s|
    ensures s[..a][..b] == s[..b]
  {
  }
}
