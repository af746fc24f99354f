/** What becomes of a tree that is extracted, node by node. */
module Outcomes {
  import opened Types
  import opened Seqs
  import opened HostTree
  import opened Store
  import opened Reproducible
  import opened Display
  import opened Reading
  import opened Walk
  import opened Breadth
  import opened Links
  import opened Target
  import opened Nodes
  import opened Extraction
  import opened TreeExtraction

  // What becomes of each node.

  /** The node as it is made, before its metadata is set. */
  function RawNode(me: User, p: Path, n: HNode): HNode {
    match n
    case HDir(_, _) => HDir(0, Blank(me, p))
    case HFile(_, _, c) => HFile(0, Blank(me, p), c)
    case HOther(_, m, k) =>
      if k.LnkKind? then HOther(0, Meta(me.uid, me.group(p), LINK_PERMISSIONS, Extras([], LinkTarget(m))), k)
      else HOther(0, Blank(me, p), k)
  }

  function NodeOwner(n: HNode): Owner {
    Owner(n.meta.uid, n.meta.gid)
  }

  /** The node once the metadata of n is set on it. */
  function SettledNode(me: User, start: HNode, n: HNode): HNode {
    var tagged := Tagged(start, Xattrs(n.meta));
    if IsLinkNode(n) then tagged else
    var moded := Chmodded(me, tagged, n.meta.permissions);
    if me.privileged then Chowned(moded, NodeOwner(n)) else moded
  }

  /** The owner given last, through a link, to the inode of path q. */
  ghost function LastHit(log: seq<Hit>, dir: Path, t: Tree, q: Path): Option<Owner> {
    if log == [] then None
    else if dir <= Last(log).path && SameInode(t, Last(log).path[|dir|..], q) then Some(Last(log).owner)
    else LastHit(Init(log), dir, t, q)
  }

  /** What the node at a path starts from; for "/" that is the extract directory. */
  function Started(me: User, before: Disk, dir: Path, t: Tree, q: Path): HNode
    requires q in t && before.Has(dir)
  {
    if q == [] then before.At(dir) else RawNode(me, dir + q, t[q])
  }

  /** What the node at a first path is in the end. */
  ghost function Outcome(me: User, before: Disk, dir: Path, t: Tree, log: seq<Hit>, q: Path): HNode
    requires q in t && before.Has(dir)
  {
    var n := SettledNode(me, Started(me, before, dir, t, q), t[q]);
    match LastHit(log, dir, t, q)
    case Some(o) => Chowned(n, o)
    case None => n
  }

  lemma PresentedSettles(env: Env, blobs: Blobs, me: User, p: Path, i: Inode, n: HNode)
    requires Presents(env, blobs, i, n) && Extractable(env, blobs, me, i)
    ensures Raw(env, blobs, me, p, i) == RawNode(me, p, n)
    ensures forall start :: Settled(me, start, i) == SettledNode(me, start, n)
  {
    if i.mode.File? {
      ContentLength(env, blobs, i.mode.chunks);
    }
  }

  // What lies under the directory afterwards.

  /** What lies under dir, as a tree. */
  ghost function TreeUnder(dir: Path, disk: Disk): Tree
    requires disk.Sound()
  {
    var ps := set p | p in disk.names && dir <= p :: p[|dir|..];
    map q | q in ps && disk.Has(dir + q) :: disk.At(dir + q)
  }

  lemma UnderHas(dir: Path, disk: Disk, q: Path)
    requires disk.Sound()
    ensures q in TreeUnder(dir, disk) <==> Placed(dir, disk, q)
    ensures Placed(dir, disk, q) ==> TreeUnder(dir, disk)[q] == disk.At(dir + q)
  {
    var p := dir + q;
    assert dir <= p && p[|dir|..] == q;
    assert forall p | dir <= p :: dir + p[|dir|..] == p;
  }

  /** The same paths linked in the same way, and at every first path the outcome for its node. */
  ghost predicate Remade(me: User, before: Disk, dir: Path, t: Tree, log: seq<Hit>, u: Tree)
    requires before.Has(dir)
  {
    && u.Keys == t.Keys
    && (forall p, q :: SameInode(u, p, q) <==> SameInode(t, p, q))
    && (forall p, q | SameInode(u, p, q) :: u[p] == u[q])
    && (forall q | q in t && FirstOf(t, q) :: SameFace(Outcome(me, before, dir, t, log, q), u[q]))
  }

  /** Names under dir are those of the tree, shared as there, and shared with nothing outside. */
  ghost predicate NamedAs(dir: Path, t: Tree, disk: Disk) {
    && (forall q {:trigger Placed(dir, disk, q)} :: Placed(dir, disk, q) <==> q in t)
    && (forall p, q | p in t && q in t :: Placed(dir, disk, p) && Placed(dir, disk, q) &&
          (disk.names[dir + p] == disk.names[dir + q] <==> SameInode(t, p, q)))
    && (forall r, q | r in disk.names && !(dir <= r) && q in t :: Placed(dir, disk, q) && disk.names[r] != disk.names[dir + q])
  }

  lemma OutsideApart(before: Disk, dir: Path, disk: Disk, log: seq<Hit>, r: Path, q: Path)
    requires before.Sound() && ConfinedBut(before, dir, disk, log) && OneName(before, dir)
    requires r in disk.names && !(dir <= r) && dir + q in disk.names
    ensures disk.names[r] != disk.names[dir + q]
  {
    if q == [] {
      assert dir + q == dir;
      StillOneName(before, dir, disk, log);
    } else {
      ProperlyUnder(dir, dir + q);
    }
  }

  lemma ExtractedNames(env: Env, blobs: Blobs, me: User, before: Disk, dir: Path, t: Tree, all: seq<Entry>,
                       disk: Disk, log: seq<Hit>)
    requires WalksTree(env, blobs, t, all) && [] in t && Extracted(env, blobs, me, before, dir, all, disk, log)
    requires before.Sound() && ConfinedBut(before, dir, disk, log) && OneName(before, dir)
    ensures NamedAs(dir, t, disk)
  {
    forall q ensures Placed(dir, disk, q) <==> q in t {
      assert Placed(dir, disk, q) <==> q == [] || q in PathsOf(all);
    }
    forall p, q | p in t && q in t
      ensures Placed(dir, disk, p) && Placed(dir, disk, q) && (disk.names[dir + p] == disk.names[dir + q] <==> SameInode(t, p, q))
    {
      var i :| 0 <= i < |all| && PathsOf(all)[i] == p;
      var j :| 0 <= j < |all| && PathsOf(all)[j] == q;
      LinkedAsNumbered(dir, all, disk, SeenOf(dir, all), i, j);
      assert LinkedAt(t, all, i, j);
    }
    forall r, q | r in disk.names && !(dir <= r) && q in t ensures Placed(dir, disk, q) && disk.names[r] != disk.names[dir + q] {
      OutsideApart(before, dir, disk, log, r, q);
    }
  }

  lemma {:induction false} HitsAgree(dir: Path, t: Tree, disk: Disk, log: seq<Hit>, q: Path)
    requires NamedAs(dir, t, disk) && Logged(log, disk.names) && q in t
    ensures Placed(dir, disk, q) && LastOn(log, disk.names, disk.names[dir + q]) == LastHit(log, dir, t, q)
  {
    assert Placed(dir, disk, q);
    if log != [] {
      HitsAgree(dir, t, disk, Init(log), q);
      var r := Last(log).path;
      assert r == log[|log| - 1].path;
      if dir <= r {
        var a := r[|dir|..];
        assert dir + a == r && Placed(dir, disk, a);
      }
    }
  }

  lemma FirstIsOutcome(env: Env, blobs: Blobs, me: User, before: Disk, dir: Path, t: Tree, all: seq<Entry>,
                       disk: Disk, log: seq<Hit>, k: nat)
    requires WalksTree(env, blobs, t, all) && Extracted(env, blobs, me, before, dir, all, disk, log) && NamedAs(dir, t, disk)
    requires k < |all| && all[k].path in t && FirstOf(t, all[k].path) && before.Has(dir) && disk.Sound()
    ensures Placed(dir, disk, all[k].path) && SameFace(Outcome(me, before, dir, t, log, all[k].path), disk.At(dir + all[k].path))
  {
    var q := all[k].path;
    NewIffFirst(env, blobs, dir, t, all, k);
    TakeMore(all, k);
    SeenGrows(dir, all, k + 1, all[k].inode.ino);
    assert CopyAt(env, blobs, me, before, dir, disk, log, all[k]);
    assert PresentedAt(env, blobs, t, all, k);
    PresentedSettles(env, blobs, me, dir + q, all[k].inode, t[q]);
    HitsAgree(dir, t, disk, log, q);
  }

  lemma {:induction false} FirstExists(t: Tree, p: Path) returns (q: Path)
    requires p in t
    ensures SameInode(t, q, p) && FirstOf(t, q)
    decreases t.Keys
  {
    q := p;
    if !FirstOf(t, p) {
      var r :| SameInode(t, r, p) && Precedes(r, p) && r != p;
      var rest := t - {p};
      q := FirstExists(rest, r);
      forall s | SameInode(t, s, q) && Precedes(s, q) ensures s == q {
        PrecedesTotal(p, r);
        if s == p {
          assert SameInode(rest, r, q);
          PrecedesTotal(q, r);
          PrecedesTrans(p, q, r);
        } else {
          assert SameInode(rest, s, q);
        }
      }
    }
  }

  /** Extracting the walk of a tree leaves the outcome of every node, linked as in the tree. */
  lemma ExtractedRemakes(env: Env, blobs: Blobs, me: User, before: Disk, dir: Path, t: Tree, all: seq<Entry>,
                         disk: Disk, log: seq<Hit>)
    requires WalksTree(env, blobs, t, all) && Extracted(env, blobs, me, before, dir, all, disk, log) && NamedAs(dir, t, disk)
    requires before.Has(dir) && disk.Sound()
    ensures Remade(me, before, dir, t, log, TreeUnder(dir, disk))
  {
    var u := TreeUnder(dir, disk);
    forall p ensures (p in u <==> p in t) && (p in t ==> disk.Has(dir + p) && u[p] == disk.At(dir + p)) {
      UnderHas(dir, disk, p);
      assert Placed(dir, disk, p) <==> p in t;
    }
    assert u.Keys == t.Keys;
    forall q | q in t && FirstOf(t, q) ensures SameFace(Outcome(me, before, dir, t, log, q), u[q]) {
      var k :| 0 <= k < |all| && PathsOf(all)[k] == q;
      FirstIsOutcome(env, blobs, me, before, dir, t, all, disk, log, k);
    }
  }

  // The log, read off the tree.

  ghost predicate BreadthOf(t: Tree, ps: seq<Path>) {
    (forall p :: p in ps <==> p in t) && NoDups(ps) && InBreadthOrder(ps)
  }

  /** The changes of owner made through the links of the tree, in the order of the paths. */
  ghost function TreeLog(me: User, before: Disk, dir: Path, t: Tree, ps: seq<Path>): seq<Hit> {
    if ps == [] then [] else
    var log, p := TreeLog(me, before, dir, t, Init(ps)), Last(ps);
    if me.privileged && FirstOf(t, p) && IsLinkNode(t[p]) && LeadsTo(before, dir, t, p).Some?
    then log + [Hit(LeadsTo(before, dir, t, p).value, NodeOwner(t[p]))]
    else log
  }

  /** The log is that of extracting the whole tree. */
  ghost predicate Followed(me: User, before: Disk, dir: Path, t: Tree, log: seq<Hit>) {
    exists ps :: BreadthOf(t, ps) && log == TreeLog(me, before, dir, t, ps)
  }

  lemma LogStep(env: Env, blobs: Blobs, me: User, before: Disk, dir: Path, t: Tree, all: seq<Entry>, j: nat)
    requires WalksTree(env, blobs, t, all) && j < |all|
    ensures all[j].path in t && OwnerOf(all[j].inode) == NodeOwner(t[all[j].path])
    ensures Shoots(me, dir, all[..j], all[j]) <==> me.privileged && FirstOf(t, all[j].path) && IsLinkNode(t[all[j].path])
    ensures AimOf(before, dir, all[..j], all[j]) == LeadsTo(before, dir, t, all[j].path)
  {
    assert PresentedAt(env, blobs, t, all, j);
    PresentedExtracts(env, blobs, me, all[j].inode, t[all[j].path]);
    NewIffFirst(env, blobs, dir, t, all, j);
    SceneIsTree(env, blobs, before, dir, t, all, j);
  }

  lemma TreeLogMore(me: User, before: Disk, dir: Path, t: Tree, done: seq<Entry>, ps: seq<Path>, e: Entry)
    requires LogOf(me, before, dir, done) == TreeLog(me, before, dir, t, ps) && e.path in t &&
             OwnerOf(e.inode) == NodeOwner(t[e.path])
    requires Shoots(me, dir, done, e) <==> me.privileged && FirstOf(t, e.path) && IsLinkNode(t[e.path])
    requires AimOf(before, dir, done, e) == LeadsTo(before, dir, t, e.path)
    ensures LogOf(me, before, dir, done + [e]) == TreeLog(me, before, dir, t, ps + [e.path])
  {
    InitAppend(done, [e]);
    InitAppend(ps, [e.path]);
    assert done + [] == done && ps + [] == ps;
  }

  lemma {:induction false} LogIsTree(env: Env, blobs: Blobs, me: User, before: Disk, dir: Path, t: Tree, all: seq<Entry>, k: nat)
    requires WalksTree(env, blobs, t, all) && k <= |all|
    ensures LogOf(me, before, dir, all[..k]) == TreeLog(me, before, dir, t, PathsOf(all)[..k])
  {
    if k > 0 {
      var j := k - 1;
      LogIsTree(env, blobs, me, before, dir, t, all, j);
      LogStep(env, blobs, me, before, dir, t, all, j);
      TreeLogMore(me, before, dir, t, all[..j], PathsOf(all)[..j], all[j]);
      TakeNext(all, j, k);
      TakeNext(PathsOf(all), j, k);
    }
  }

  lemma ExtractedFollows(env: Env, blobs: Blobs, me: User, before: Disk, dir: Path, t: Tree, all: seq<Entry>,
                         disk: Disk, log: seq<Hit>)
    requires WalksTree(env, blobs, t, all) && Extracted(env, blobs, me, before, dir, all, disk, log)
    ensures Followed(me, before, dir, t, log)
  {
    TakeAll(all);
    TakeAll(PathsOf(all));
    LogIsTree(env, blobs, me, before, dir, t, all, |all|);
    assert BreadthOf(t, PathsOf(all));
  }

  lemma {:induction false} BreadthUnique(t: Tree, ps: seq<Path>, qs: seq<Path>, k: nat)
    requires BreadthOf(t, ps) && BreadthOf(t, qs) && k < |ps|
    ensures k < |qs| && ps[k] == qs[k]
  {
    SameSetSameMultiset(ps, qs);
    assert |multiset(ps)| == |ps| && |multiset(qs)| == |qs|;
    assert qs[k] in ps && ps[k] in qs;
    var i :| 0 <= i < |ps| && ps[i] == qs[k];
    var j :| 0 <= j < |qs| && qs[j] == ps[k];
    if i < k {
      BreadthUnique(t, ps, qs, i);
    } else if j < k {
      BreadthUnique(t, ps, qs, j);
    } else if i > k {
      assert InOrderAt(ps, k, i);
      if j > k {
        assert InOrderAt(qs, k, j);
      }
      PrecedesTotal(ps[k], qs[k]);
    }
  }

  /** The tree, the user and the disk fix the log. */
  lemma FollowedOnce(me: User, before: Disk, dir: Path, t: Tree, log: seq<Hit>, other: seq<Hit>)
    requires Followed(me, before, dir, t, log) && Followed(me, before, dir, t, other)
    ensures log == other
  {
    var ps :| BreadthOf(t, ps) && log == TreeLog(me, before, dir, t, ps);
    var qs :| BreadthOf(t, qs) && other == TreeLog(me, before, dir, t, qs);
    SameSetSameMultiset(ps, qs);
    assert |multiset(ps)| == |ps| && |multiset(qs)| == |qs|;
    forall k | 0 <= k < |ps| ensures ps[k] == qs[k] {
      BreadthUnique(t, ps, qs, k);
    }
    assert ps == qs;
  }
}
