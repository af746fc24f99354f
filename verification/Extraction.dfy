/** Extracting an image into a directory. */
module Extraction {
  import opened Types
  import opened Seqs
  import opened HostTree
  import opened Layers
  import opened Resolution
  import opened Store
  import opened Display
  import opened Walk
  import opened Links
  import opened Target
  import opened Nodes

  // What entries done so far amount to, as functions of the entries.

  /** What resolution sees once the entries are extracted. */
  ghost function SceneOf(before: Disk, dir: Path, done: seq<Entry>): Scene {
    if done == [] then before.View()
    else SceneOf(before, dir, Init(done))[dir + Last(done).path := InodeKind(Last(done).inode)]
  }

  /** The first path of every inode number met. */
  ghost function SeenOf(dir: Path, done: seq<Entry>): map<Ino, Path> {
    if done == [] then map[]
    else if Last(done).inode.ino in SeenOf(dir, Init(done)) then SeenOf(dir, Init(done))
    else SeenOf(dir, Init(done))[Last(done).inode.ino := dir + Last(done).path]
  }

  ghost predicate IsNew(dir: Path, done: seq<Entry>, e: Entry) {
    e.inode.ino !in SeenOf(dir, done)
  }

  /** A symbolic link whose owner is set, and so the owner of what it leads to. */
  ghost predicate Shoots(me: User, dir: Path, done: seq<Entry>, e: Entry) {
    me.privileged && e.inode.mode.Lnk? && IsNew(dir, done, e)
  }

  ghost function AimOf(before: Disk, dir: Path, done: seq<Entry>, e: Entry): Option<Path> {
    Follow(SceneOf(before, dir, done)[dir + e.path := InodeKind(e.inode)], dir + e.path)
  }

  /** The changes of owner made through links. */
  ghost function LogOf(me: User, before: Disk, dir: Path, done: seq<Entry>): seq<Hit> {
    if done == [] then [] else
    var log, e := LogOf(me, before, dir, Init(done)), Last(done);
    if Shoots(me, dir, Init(done), e) && AimOf(before, dir, Init(done), e).Some?
    then log + [Hit(AimOf(before, dir, Init(done), e).value, OwnerOf(e.inode))]
    else log
  }

  /** Without privileges a node can only be made in a directory its owner may use, and "/" must be one's own. */
  ghost predicate Admits(me: User, before: Disk, dir: Path, done: seq<Entry>, e: Entry) {
    !me.privileged ==>
      if e.path == [] then before.Has(dir) && before.At(dir).meta.uid == me.uid
      else dir + Init(e.path) in SceneOf(before, dir, done) && SceneOf(before, dir, done)[dir + Init(e.path)] == Folder(true)
  }

  /**
   * The entry can be extracted next.  A known number is linked, which a directory does not allow; a
   * new inode must be extractable, and a link whose owner is to be set must lead somewhere.
   */
  ghost predicate Fits(env: Env, blobs: Blobs, me: User, before: Disk, dir: Path, done: seq<Entry>, e: Entry) {
    && Admits(me, before, dir, done, e)
    && if !IsNew(dir, done, e) then !e.inode.mode.Dir?
       else
         && Extractable(env, blobs, me, e.inode) && (e.path == [] ==> e.inode.mode.Dir?)
         && (Shoots(me, dir, done, e) ==> AimOf(before, dir, done, e).Some?)
  }

  ghost predicate FitsAt(env: Env, blobs: Blobs, me: User, before: Disk, dir: Path, all: seq<Entry>, k: nat)
    requires k < |all|
  {
    Fits(env, blobs, me, before, dir, all[..k], all[k])
  }

  ghost predicate AllFit(env: Env, blobs: Blobs, me: User, before: Disk, dir: Path, all: seq<Entry>) {
    forall k {:trigger FitsAt(env, blobs, me, before, dir, all, k)} | 0 <= k < |all| :: FitsAt(env, blobs, me, before, dir, all, k)
  }

  // What lies under the directory.

  ghost predicate Placed(dir: Path, disk: Disk, q: Path) {
    dir + q in disk.names
  }

  /** Nothing but the given paths lies under dir. */
  ghost predicate Holds(dir: Path, disk: Disk, ps: seq<Path>) {
    forall q {:trigger Placed(dir, disk, q)} :: Placed(dir, disk, q) <==> q == [] || q in ps
  }

  /** What the node for a first path started from; for "/" that is the extract directory. */
  ghost function RawAt(env: Env, blobs: Blobs, me: User, before: Disk, dir: Path, e: Entry): HNode
    requires Extractable(env, blobs, me, e.inode) && (e.path == [] ==> before.Has(dir))
  {
    if e.path == [] then before.At(dir) else Raw(env, blobs, me, dir + e.path, e.inode)
  }

  /** The node is what extracting the inode makes of it, but for owners changed later through links. */
  ghost predicate CopyAt(env: Env, blobs: Blobs, me: User, before: Disk, dir: Path, disk: Disk, log: seq<Hit>, e: Entry) {
    && disk.Has(dir + e.path) && Extractable(env, blobs, me, e.inode) && (e.path == [] ==> before.IsDir(dir) && e.inode.mode.Dir?)
    && var h := disk.names[dir + e.path];
    disk.At(dir + e.path) == Worn(log, disk.names, h, Settled(me, RawAt(env, blobs, me, before, dir, e), e.inode).(hino := h))
  }

  ghost predicate IsFirstPath(dir: Path, done: seq<Entry>, e: Entry) {
    e.inode.ino in SeenOf(dir, done) && SeenOf(dir, done)[e.inode.ino] == dir + e.path
  }

  ghost predicate AllCopied(env: Env, blobs: Blobs, me: User, before: Disk, dir: Path, disk: Disk, log: seq<Hit>,
                            done: seq<Entry>) {
    forall i {:trigger CopyAt(env, blobs, me, before, dir, disk, log, done[i])} | 0 <= i < |done| && IsFirstPath(dir, done, done[i]) ::
      CopyAt(env, blobs, me, before, dir, disk, log, done[i])
  }

  /** The inode of the entry is recorded, under a path that is the same target inode. */
  ghost predicate Recorded(dir: Path, disk: Disk, seen: map<Ino, Path>, e: Entry) {
    && dir + e.path in disk.names && e.inode.ino in seen && seen[e.inode.ino] in disk.names
    && disk.names[seen[e.inode.ino]] == disk.names[dir + e.path]
  }

  ghost predicate Origin(dir: Path, done: seq<Entry>, seen: map<Ino, Path>, x: Ino) {
    x in seen && exists i :: 0 <= i < |done| && done[i].inode.ino == x && seen[x] == dir + done[i].path
  }

  ghost predicate SameTarget(disk: Disk, seen: map<Ino, Path>, x: Ino, y: Ino) {
    x in seen && y in seen && seen[x] in disk.names && seen[y] in disk.names && disk.names[seen[x]] == disk.names[seen[y]]
  }

  ghost predicate SeenIs(dir: Path, done: seq<Entry>, disk: Disk, seen: map<Ino, Path>) {
    && (forall i {:trigger Recorded(dir, disk, seen, done[i])} | 0 <= i < |done| :: Recorded(dir, disk, seen, done[i]))
    && (forall x {:trigger Origin(dir, done, seen, x)} | x in seen :: Origin(dir, done, seen, x))
    && (forall x, y | x in seen && y in seen && SameTarget(disk, seen, x, y) :: x == y)
  }

  /** Exactly the entries done lie under dir, linked as their numbers are, each a copy of its inode. */
  ghost predicate Extracted(env: Env, blobs: Blobs, me: User, before: Disk, dir: Path, done: seq<Entry>, disk: Disk,
                            log: seq<Hit>) {
    Laid(env, blobs, me, before, dir, done, disk, log) && log == LogOf(me, before, dir, done)
  }

  ghost predicate Laid(env: Env, blobs: Blobs, me: User, before: Disk, dir: Path, done: seq<Entry>, disk: Disk, log: seq<Hit>) {
    && Holds(dir, disk, PathsOf(done))
    && disk.View() == SceneOf(before, dir, done)
    && Logged(log, disk.names)
    && SeenIs(dir, done, disk, SeenOf(dir, done))
    && AllCopied(env, blobs, me, before, dir, disk, log, done)
  }

  /** Two extracted entries are hard links of each other exactly when they have one inode number. */
  lemma LinkedAsNumbered(dir: Path, done: seq<Entry>, disk: Disk, seen: map<Ino, Path>, i: nat, j: nat)
    requires SeenIs(dir, done, disk, seen) && i < |done| && j < |done|
    ensures dir + done[i].path in disk.names && dir + done[j].path in disk.names
    ensures disk.names[dir + done[i].path] == disk.names[dir + done[j].path] <==> done[i].inode.ino == done[j].inode.ino
  {
    assert Recorded(dir, disk, seen, done[i]) && Recorded(dir, disk, seen, done[j]);
    if disk.names[dir + done[i].path] == disk.names[dir + done[j].path] {
      assert SameTarget(disk, seen, done[i].inode.ino, done[j].inode.ino);
    }
  }

  lemma JoinInjective(dir: Path, p: Path, q: Path)
    ensures dir + p == dir + q <==> p == q
  {
    assert (dir + p)[|dir|..] == p && (dir + q)[|dir|..] == q;
  }

  lemma PathsSnoc(done: seq<Entry>, e: Entry)
    ensures PathsOf(done + [e]) == PathsOf(done) + [e.path]
  {
  }

  lemma Snoc(done: seq<Entry>, e: Entry)
    ensures done + [e] != [] && Init(done + [e]) == done && Last(done + [e]) == e
  {
  }

  lemma HoldsMore(dir: Path, ps: seq<Path>, p: Path, disk: Disk, disk': Disk)
    requires Holds(dir, disk, ps) && disk'.names.Keys == disk.names.Keys + {dir + p}
    ensures Holds(dir, disk', ps + [p])
  {
    forall q ensures Placed(dir, disk', q) <==> q == [] || q in ps + [p] {
      JoinInjective(dir, q, p);
      assert Placed(dir, disk, q) <==> q == [] || q in ps;
    }
  }

  ghost predicate KeepsNames(disk: Disk, disk': Disk) {
    forall p | p in disk.names :: p in disk'.names && disk'.names[p] == disk.names[p]
  }

  /** Whatever was there is still there. */
  ghost predicate Extends(disk: Disk, disk': Disk) {
    && KeepsNames(disk, disk')
    && (forall h | h in disk.nodes :: h in disk'.nodes && disk'.nodes[h] == disk.nodes[h])
  }

  lemma CopyStays(env: Env, blobs: Blobs, me: User, before: Disk, dir: Path, disk: Disk, log: seq<Hit>, e: Entry, disk': Disk)
    requires Extends(disk, disk') && Logged(log, disk.names) && CopyAt(env, blobs, me, before, dir, disk, log, e)
    ensures CopyAt(env, blobs, me, before, dir, disk', log, e)
  {
    WornStable(log, disk.names, disk'.names);
  }

  lemma SeenStays(dir: Path, done: seq<Entry>, disk: Disk, seen: map<Ino, Path>, disk': Disk, x: Ino)
    requires SeenIs(dir, done, disk, seen) && KeepsNames(disk, disk') && x in seen
    ensures seen[x] in disk.names && seen[x] in disk'.names && disk'.names[seen[x]] == disk.names[seen[x]]
  {
    assert Origin(dir, done, seen, x);
    var i :| 0 <= i < |done| && done[i].inode.ino == x && seen[x] == dir + done[i].path;
    assert Recorded(dir, disk, seen, done[i]);
  }

  lemma OriginMore(dir: Path, done: seq<Entry>, e: Entry, seen: map<Ino, Path>, seen': map<Ino, Path>, x: Ino)
    requires Origin(dir, done, seen, x) && x in seen' && seen'[x] == seen[x]
    ensures Origin(dir, done + [e], seen', x)
  {
    var i :| 0 <= i < |done| && done[i].inode.ino == x && seen[x] == dir + done[i].path;
    assert (done + [e])[i] == done[i];
  }

  /** The record after one more entry: a new inode under its own path, or a known one. */
  lemma SeenMore(dir: Path, done: seq<Entry>, e: Entry, disk: Disk, seen: map<Ino, Path>, disk': Disk, seen': map<Ino, Path>)
    requires SeenIs(dir, done, disk, seen) && KeepsNames(disk, disk') && dir + e.path in disk'.names
    requires forall x | x in seen :: x in seen' && seen'[x] == seen[x]
    requires seen'.Keys == seen.Keys + {e.inode.ino}
    requires e.inode.ino in seen ==> seen[e.inode.ino] in disk.names && disk'.names[dir + e.path] == disk.names[seen[e.inode.ino]]
    requires e.inode.ino !in seen ==>
               && seen'[e.inode.ino] == dir + e.path
               && forall p | p in disk.names :: disk.names[p] != disk'.names[dir + e.path]
    ensures SeenIs(dir, done + [e], disk', seen')
  {
    var done' := done + [e];
    forall i | 0 <= i < |done'| ensures Recorded(dir, disk', seen', done'[i]) {
      if i < |done| {
        assert Recorded(dir, disk, seen, done[i]);
      }
    }
    forall x | x in seen' ensures Origin(dir, done', seen', x) {
      if x in seen {
        assert Origin(dir, done, seen, x);
        OriginMore(dir, done, e, seen, seen', x);
      } else {
        assert done'[|done|] == e;
      }
    }
    forall x, y | x in seen' && y in seen' && SameTarget(disk', seen', x, y) ensures x == y {
      if x in seen {
        SeenStays(dir, done, disk, seen, disk', x);
      }
      if y in seen {
        SeenStays(dir, done, disk, seen, disk', y);
      }
      if x in seen && y in seen {
        assert SameTarget(disk, seen, x, y);
      }
    }
  }

  /** Entries keep leading, and the new one leads exactly if its number is new. */
  lemma FirstPathMore(dir: Path, done: seq<Entry>, e: Entry, x: Entry)
    requires x.inode.ino in SeenOf(dir, done)
    ensures IsFirstPath(dir, done + [e], x) <==> IsFirstPath(dir, done, x)
  {
    Snoc(done, e);
  }

  lemma CopiedMore(env: Env, blobs: Blobs, me: User, before: Disk, dir: Path, disk: Disk, log: seq<Hit>,
                   done: seq<Entry>, e: Entry, disk': Disk)
    requires AllCopied(env, blobs, me, before, dir, disk, log, done) && Logged(log, disk.names) && Extends(disk, disk')
    requires forall i | 0 <= i < |done| :: done[i].inode.ino in SeenOf(dir, done)
    requires IsFirstPath(dir, done + [e], e) ==> CopyAt(env, blobs, me, before, dir, disk', log, e)
    ensures AllCopied(env, blobs, me, before, dir, disk', log, done + [e])
  {
    var done' := done + [e];
    forall i | 0 <= i < |done'| && IsFirstPath(dir, done', done'[i])
      ensures CopyAt(env, blobs, me, before, dir, disk', log, done'[i])
    {
      if i < |done| {
        FirstPathMore(dir, done, e, done[i]);
        CopyStays(env, blobs, me, before, dir, disk, log, done[i], disk');
      }
    }
  }

  lemma AllSeen(dir: Path, done: seq<Entry>, disk: Disk)
    requires SeenIs(dir, done, disk, SeenOf(dir, done))
    ensures forall i | 0 <= i < |done| :: done[i].inode.ino in SeenOf(dir, done)
  {
    forall i | 0 <= i < |done| ensures done[i].inode.ino in SeenOf(dir, done) {
      assert Recorded(dir, disk, SeenOf(dir, done), done[i]);
    }
  }

  /** A new inode is not among the inodes that owners were changed of. */
  lemma {:induction false} Untouched(log: seq<Hit>, names: map<Path, HostIno>, h: HostIno)
    requires forall p | p in names :: names[p] != h
    ensures LastOn(log, names, h) == None
  {
    if log != [] {
      Untouched(Init(log), names, h);
    }
  }

  lemma MadeKind(env: Env, blobs: Blobs, me: User, p: Path, i: Inode, n: HNode)
    requires Extractable(env, blobs, me, i) && n == Settled(me, Raw(env, blobs, me, p, i), i)
    ensures KindOf(n) == InodeKind(i)
  {
    RawKind(env, blobs, me, p, i);
    SettledKind(me, Raw(env, blobs, me, p, i), i);
  }

  lemma AddedLies(env: Env, blobs: Blobs, me: User, before: Disk, dir: Path, done: seq<Entry>, e: Entry, disk: Disk,
                  log: seq<Hit>, n: HNode, disk': Disk)
    requires disk.Sound() && Laid(env, blobs, me, before, dir, done, disk, log)
    requires dir + e.path !in disk.names && IsNew(dir, done, e) && KindOf(n) == InodeKind(e.inode)
    requires disk' == disk.Add(dir + e.path, n) && CopyAt(env, blobs, me, before, dir, disk', log, e)
    ensures Laid(env, blobs, me, before, dir, done + [e], disk', log)
  {
    Snoc(done, e);
    PathsSnoc(done, e);
    HoldsMore(dir, PathsOf(done), e.path, disk, disk');
    ViewAdd(disk, dir + e.path, n);
    AllSeen(dir, done, disk);
    SeenNew(dir, done, e, disk, disk');
    CopiedMore(env, blobs, me, before, dir, disk, log, done, e, disk');
  }

  /** A first entry of an inode gets a fresh target inode. */
  lemma NodeAdded(env: Env, blobs: Blobs, me: User, before: Disk, dir: Path, done: seq<Entry>, e: Entry, disk: Disk,
                  log: seq<Hit>, n: HNode)
    requires disk.Sound() && Laid(env, blobs, me, before, dir, done, disk, log)
    requires e.path != [] && dir + e.path !in disk.names && IsNew(dir, done, e) && Extractable(env, blobs, me, e.inode)
    requires n == Settled(me, Raw(env, blobs, me, dir + e.path, e.inode), e.inode)
    ensures Laid(env, blobs, me, before, dir, done + [e], disk.Add(dir + e.path, n), log)
  {
    MadeKind(env, blobs, me, dir + e.path, e.inode, n);
    NewCopy(env, blobs, me, before, dir, e, disk, log, n);
    AddedLies(env, blobs, me, before, dir, done, e, disk, log, n, disk.Add(dir + e.path, n));
  }

  lemma SeenNew(dir: Path, done: seq<Entry>, e: Entry, disk: Disk, disk': Disk)
    requires SeenIs(dir, done, disk, SeenOf(dir, done)) && KeepsNames(disk, disk') && IsNew(dir, done, e)
    requires dir + e.path in disk'.names && forall p | p in disk.names :: disk.names[p] != disk'.names[dir + e.path]
    ensures SeenIs(dir, done + [e], disk', SeenOf(dir, done + [e]))
  {
    Snoc(done, e);
    var seen' := SeenOf(dir, done)[e.inode.ino := dir + e.path];
    assert SeenOf(dir, done + [e]) == seen';
    SeenMore(dir, done, e, disk, SeenOf(dir, done), disk', seen');
  }

  lemma NewCopy(env: Env, blobs: Blobs, me: User, before: Disk, dir: Path, e: Entry, disk: Disk, log: seq<Hit>, n: HNode)
    requires disk.Sound() && Logged(log, disk.names)
    requires e.path != [] && dir + e.path !in disk.names && Extractable(env, blobs, me, e.inode)
    requires n == Settled(me, Raw(env, blobs, me, dir + e.path, e.inode), e.inode)
    ensures CopyAt(env, blobs, me, before, dir, disk.Add(dir + e.path, n), log, e)
  {
    var disk' := disk.Add(dir + e.path, n);
    Untouched(log, disk.names, disk.next);
    LastOnStable(log, disk.names, disk'.names, disk.next);
  }

  lemma KnownNode(env: Env, blobs: Blobs, me: User, before: Disk, dir: Path, done: seq<Entry>, e: Entry, disk: Disk,
                  log: seq<Hit>)
    requires Laid(env, blobs, me, before, dir, done, disk, log) && !IsNew(dir, done, e)
    requires forall i | 0 <= i < |done| && done[i].inode.ino == e.inode.ino :: done[i].inode == e.inode
    ensures var p := SeenOf(dir, done)[e.inode.ino];
            disk.Has(p) && KindOf(disk.At(p)) == InodeKind(e.inode) && (disk.At(p).HDir? <==> e.inode.mode.Dir?) && dir <= p
  {
    var seen := SeenOf(dir, done);
    assert Origin(dir, done, seen, e.inode.ino);
    var k :| 0 <= k < |done| && done[k].inode.ino == e.inode.ino && seen[e.inode.ino] == dir + done[k].path;
    assert CopyAt(env, blobs, me, before, dir, disk, log, done[k]);
    CopyKind(env, blobs, me, before, dir, disk, log, done[k]);
  }

  lemma CopyKind(env: Env, blobs: Blobs, me: User, before: Disk, dir: Path, disk: Disk, log: seq<Hit>, e: Entry)
    requires CopyAt(env, blobs, me, before, dir, disk, log, e)
    ensures KindOf(disk.At(dir + e.path)) == InodeKind(e.inode) && (disk.At(dir + e.path).HDir? <==> e.inode.mode.Dir?)
    ensures !me.privileged && log == [] ==> disk.At(dir + e.path).meta.uid == RawAt(env, blobs, me, before, dir, e).meta.uid
  {
    var n, h := RawAt(env, blobs, me, before, dir, e), disk.names[dir + e.path];
    RawKind(env, blobs, me, dir + e.path, e.inode);
    SettledKind(me, n, e.inode);
    var m := Settled(me, n, e.inode).(hino := h);
    match LastOn(log, disk.names, h)
    case Some(o) => ChownedKind(m, o);
    case None =>
  }

  /** A further entry of an inode becomes one more link. */
  lemma LinkAdded(env: Env, blobs: Blobs, me: User, before: Disk, dir: Path, done: seq<Entry>, e: Entry, disk: Disk,
                  log: seq<Hit>)
    requires Laid(env, blobs, me, before, dir, done, disk, log) && !IsNew(dir, done, e) && dir + e.path !in disk.names
    requires disk.Has(SeenOf(dir, done)[e.inode.ino]) && KindOf(disk.At(SeenOf(dir, done)[e.inode.ino])) == InodeKind(e.inode)
    ensures Laid(env, blobs, me, before, dir, done + [e], disk.Link(SeenOf(dir, done)[e.inode.ino], dir + e.path), log)
  {
    var from := SeenOf(dir, done)[e.inode.ino];
    var disk' := disk.Link(from, dir + e.path);
    Snoc(done, e);
    PathsSnoc(done, e);
    HoldsMore(dir, PathsOf(done), e.path, disk, disk');
    ViewLink(disk, from, dir + e.path);
    WornStable(log, disk.names, disk'.names);
    AllSeen(dir, done, disk);
    SeenMore(dir, done, e, disk, SeenOf(dir, done), disk', SeenOf(dir, done + [e]));
    assert Origin(dir, done, SeenOf(dir, done), e.inode.ino);
    SeenStays(dir, done, disk, SeenOf(dir, done), disk', e.inode.ino);
    assert !IsFirstPath(dir, done + [e], e);
    CopiedMore(env, blobs, me, before, dir, disk, log, done, e, disk');
  }

  /** Changing an owner through a link changes one node and nothing that resolution sees. */
  lemma HitAdded(env: Env, blobs: Blobs, me: User, before: Disk, dir: Path, done: seq<Entry>, disk: Disk, log: seq<Hit>, hit: Hit)
    requires disk.Sound() && Laid(env, blobs, me, before, dir, done, disk, log) && disk.Has(hit.path)
    ensures Laid(env, blobs, me, before, dir, done, disk.Update(hit.path, Chowned(disk.At(hit.path), hit.owner)), log + [hit])
  {
    var n := Chowned(disk.At(hit.path), hit.owner);
    var disk', log' := disk.Update(hit.path, n), log + [hit];
    ChownedKind(disk.At(hit.path), hit.owner);
    ViewUpdate(disk, hit.path, n);
    forall i | 0 <= i < |done| && IsFirstPath(dir, done, done[i])
      ensures CopyAt(env, blobs, me, before, dir, disk', log', done[i])
    {
      assert CopyAt(env, blobs, me, before, dir, disk, log, done[i]);
      CopyHit(env, blobs, me, before, dir, disk, log, done[i], hit);
    }
    SeenSame(dir, done, disk, disk');
    HoldsSame(dir, PathsOf(done), disk, disk');
  }

  lemma CopyHit(env: Env, blobs: Blobs, me: User, before: Disk, dir: Path, disk: Disk, log: seq<Hit>, e: Entry, hit: Hit)
    requires disk.Sound() && CopyAt(env, blobs, me, before, dir, disk, log, e) && disk.Has(hit.path)
    ensures CopyAt(env, blobs, me, before, dir, disk.Update(hit.path, Chowned(disk.At(hit.path), hit.owner)), log + [hit], e)
  {
    var h := disk.names[dir + e.path];
    ChownedKind(disk.At(hit.path), hit.owner);
    WornMore(log, disk.names, hit, h, Settled(me, RawAt(env, blobs, me, before, dir, e), e.inode).(hino := h));
  }

  lemma SeenSame(dir: Path, done: seq<Entry>, disk: Disk, disk': Disk)
    requires SeenIs(dir, done, disk, SeenOf(dir, done)) && disk'.names == disk.names
    ensures SeenIs(dir, done, disk', SeenOf(dir, done))
  {
    var seen := SeenOf(dir, done);
    forall i | 0 <= i < |done| ensures Recorded(dir, disk', seen, done[i]) {
      assert Recorded(dir, disk, seen, done[i]);
    }
    forall x, y | x in seen && y in seen && SameTarget(disk', seen, x, y) ensures x == y {
      assert SameTarget(disk, seen, x, y);
    }
  }

  lemma HoldsSame(dir: Path, ps: seq<Path>, disk: Disk, disk': Disk)
    requires Holds(dir, disk, ps) && disk'.names == disk.names
    ensures Holds(dir, disk', ps)
  {
    forall q ensures Placed(dir, disk', q) <==> q == [] || q in ps {
      assert Placed(dir, disk, q) <==> q == [] || q in ps;
    }
  }

  /** The root is the extract directory itself. */
  lemma RootAdded(env: Env, blobs: Blobs, me: User, before: Disk, dir: Path, e: Entry, disk: Disk)
    requires disk.Sound() && Extracted(env, blobs, me, before, dir, [], disk, [])
    requires disk.Has(dir) && OneName(disk, dir) && before.IsDir(dir) && disk.At(dir) == before.At(dir)
    requires e.path == [] && e.inode.mode.Dir? && Extractable(env, blobs, me, e.inode)
    ensures Extracted(env, blobs, me, before, dir, [e], disk.Update(dir, Settled(me, before.At(dir), e.inode)), [])
  {
    var n := Settled(me, before.At(dir), e.inode);
    var disk' := disk.Update(dir, n);
    SettledKind(me, before.At(dir), e.inode);
    assert dir + [] == dir;
    assert [e][0] == e && PathsOf([e]) == [[]] && Init([e]) == [] && Last([e]) == e;
    forall q ensures Placed(dir, disk', q) <==> q == [] || q in PathsOf([e]) {
      assert Placed(dir, disk, q) <==> q == [] || q in PathsOf([]);
    }
    RootView(before, dir, disk, n);
    assert SeenOf(dir, [e]) == map[e.inode.ino := dir];
    assert Origin(dir, [e], SeenOf(dir, [e]), e.inode.ino);
    assert SceneOf(before, dir, []) == before.View();
  }

  lemma RootView(before: Disk, dir: Path, disk: Disk, n: HNode)
    requires disk.View() == before.View() && disk.Has(dir) && OneName(disk, dir)
    ensures disk.Update(dir, n).View() == before.View()[dir := KindOf(n)]
  {
    KindIgnoresNumber(n, disk.names[dir]);
  }

  // From the walk to the disk.

  lemma {:induction false} FoundHasNumber(layers: seq<Layer>, ino: Ino)
    requires NonEmpty(layers) && FindInode(layers, ino).Ok?
    ensures FindInode(layers, ino).value.ino == ino
  {
    SearchSound(layers[0], ino, 0, |layers[0]| - 1);
    if FindInLayer(layers[0], ino).None? {
      FoundHasNumber(layers[1..], ino);
    }
  }

  /** A path resolves to what the search finds under its number: one number, one inode. */
  lemma ResolvedByNumber(layers: seq<Layer>, p: Path)
    requires NonEmpty(layers) && Resolves(layers, p)
    ensures FindInode(layers, InodeAt(layers, p).ino) == Ok(InodeAt(layers, p))
  {
    if p == [] {
      FoundHasNumber(layers, 1);
    } else {
      var d := InodeAt(layers, Init(p));
      LookupStep(layers, p, d);
      FoundHasNumber(layers, FindEntry(d.mode.entries, Last(p)).value);
    }
  }

  lemma OneInodePerNumber(layers: seq<Layer>, all: seq<Entry>, i: nat, j: nat)
    requires NonEmpty(layers) && AllAgree(layers, all) && i < |all| && j < |all| && all[i].inode.ino == all[j].inode.ino
    ensures all[i].inode == all[j].inode
  {
    assert Agrees(layers, all[i]) && Agrees(layers, all[j]);
    ResolvedByNumber(layers, all[i].path);
    ResolvedByNumber(layers, all[j].path);
  }

  lemma {:induction false} PrefixResolves(layers: seq<Layer>, p: Path, k: nat)
    requires NonEmpty(layers) && Resolves(layers, p) && k <= |p|
    ensures Resolves(layers, p[..k]) && (k < |p| ==> InodeAt(layers, p[..k]).mode.Dir?)
    decreases |p|
  {
    if k == |p| {
      TakeAll(p);
    } else {
      assert Resolves(layers, Init(p));
      LookupStep(layers, p, InodeAt(layers, Init(p)));
      PrefixResolves(layers, Init(p), k);
      TakeOfTake(p, |p| - 1, k);
    }
  }

  lemma ShortestFirst(ps: seq<Path>, n: nat)
    requires DepthGrows(ps) && n < |ps|
    ensures |ps[0]| <= |ps[n]|
  {
    if n > 0 {
      assert NoDeeper(ps, 0, n);
    }
  }

  lemma RootComesFirst(layers: seq<Layer>, ps: seq<Path>, n: nat)
    requires NonEmpty(layers) && n < |ps| && Ordered(layers, ps, n) && ps[n] == []
    ensures n == 0
  {
    ShortestFirst(ps, n);
  }

  /** Every directory on the way to a path that is met was yielded before it. */
  lemma {:induction false} PrefixDone(ps: seq<Path>, n: nat, i: nat, k: nat) returns (j: nat)
    requires ParentsBefore(ps, n) && i < |ps| && n <= |ps| && k < |ps[i]|
    ensures j < i && j < n && ps[j] == ps[i][..k]
    decreases |ps[i]|
  {
    assert ParentBefore(ps, n, i);
    var p := Init(ps[i]);
    var m :| 0 <= m < Min(i, n) && ps[m] == p;
    if k < |p| {
      j := PrefixDone(ps, n, m, k);
      TakeOfTake(ps[i], |p|, k);
    } else {
      j := m;
      assert ps[i][..k] == p;
    }
  }

  /** Resolution sees every entry done as its inode says. */
  lemma {:induction false} SceneAt(before: Disk, dir: Path, done: seq<Entry>, i: nat)
    requires i < |done| && NoDups(PathsOf(done))
    ensures dir + done[i].path in SceneOf(before, dir, done) &&
            SceneOf(before, dir, done)[dir + done[i].path] == InodeKind(done[i].inode)
  {
    if i < |done| - 1 {
      SceneAt(before, dir, Init(done), i);
      assert PathsOf(done)[i] != PathsOf(done)[|done| - 1];
      JoinInjective(dir, done[i].path, Last(done).path);
    }
  }

  lemma {:induction false} SeenGrows(dir: Path, done: seq<Entry>, k: nat, x: Ino)
    requires k <= |done| && x in SeenOf(dir, done[..k])
    ensures x in SeenOf(dir, done) && SeenOf(dir, done)[x] == SeenOf(dir, done[..k])[x]
    decreases |done|
  {
    if k == |done| {
      TakeAll(done);
    } else {
      assert Init(done)[..k] == done[..k];
      SeenGrows(dir, Init(done), k, x);
    }
  }

  /** A directory is extracted under one path only. */
  lemma DirIsFirst(env: Env, blobs: Blobs, me: User, before: Disk, dir: Path, done: seq<Entry>, i: nat)
    requires i < |done| && FitsAt(env, blobs, me, before, dir, done, i) && done[i].inode.mode.Dir?
    ensures IsFirstPath(dir, done, done[i])
  {
    TakeMore(done, i);
    SeenGrows(dir, done, i + 1, done[i].inode.ino);
  }

  /** Without privileges every directory made is the user's own. */
  lemma OwnDir(env: Env, blobs: Blobs, me: User, before: Disk, dir: Path, done: seq<Entry>, disk: Disk, log: seq<Hit>, i: nat)
    requires Laid(env, blobs, me, before, dir, done, disk, log) && i < |done| && done[i].inode.mode.Dir?
    requires FitsAt(env, blobs, me, before, dir, done, i)
    ensures disk.IsDir(dir + done[i].path) && KindOf(disk.At(dir + done[i].path)) == InodeKind(done[i].inode)
    ensures !me.privileged && log == [] ==> disk.At(dir + done[i].path).meta.uid == me.uid
  {
    DirIsFirst(env, blobs, me, before, dir, done, i);
    assert CopyAt(env, blobs, me, before, dir, disk, log, done[i]);
    CopyKind(env, blobs, me, before, dir, disk, log, done[i]);
  }

  /** A directory in which something was made without privileges may be used by its owner. */
  lemma ParentOpen(env: Env, blobs: Blobs, me: User, before: Disk, dir: Path, done: seq<Entry>, i: nat, j: nat)
    requires i < j < |done| && NoDups(PathsOf(done)) && FitsAt(env, blobs, me, before, dir, done, j)
    requires !me.privileged && done[j].path != [] && Init(done[j].path) == done[i].path
    ensures InodeKind(done[i].inode) == Folder(true)
  {
    assert PathsOf(done[..j]) == PathsOf(done)[..j];
    assert done[..j][i] == done[i];
    SceneAt(before, dir, done[..j], i);
  }

  lemma OwnMayUse(me: User, n: HNode)
    requires n.HDir? && (!me.privileged ==> n.meta.uid == me.uid)
    ensures me.privileged || KindOf(n) == Folder(true) ==> MaySearch(me, n.meta) && MayAddTo(me, n.meta)
    ensures MayAddTo(me, n.meta) <==> me.privileged || KindOf(n) == Folder(true)
  {
  }

  /** The way to the path: all directories but the last have been worked in, and the last is the user's own. */
  ghost predicate Access(me: User, disk: Disk, dir: Path, p: Path) {
    p != [] ==>
      && (forall k | 0 <= k < |p| - 1 :: SearchAt(me, disk, dir, p, k))
      && disk.IsDir(dir + Init(p)) && (!me.privileged ==> disk.At(dir + Init(p)).meta.uid == me.uid)
  }

  ghost predicate Met(env: Env, blobs: Blobs, me: User, before: Disk, dir: Path, layers: seq<Layer>, all: seq<Entry>,
                      n: nat, disk: Disk, log: seq<Hit>) {
    && Walked(layers, all, n) && n < |all|
    && Extracted(env, blobs, me, before, dir, all[..n], disk, log) && (!me.privileged ==> log == [])
    && AllFit(env, blobs, me, before, dir, all[..n])
  }

  lemma AgreeTake(layers: seq<Layer>, all: seq<Entry>, n: nat)
    requires NonEmpty(layers) && AllAgree(layers, all) && n <= |all|
    ensures AllAgree(layers, all[..n]) && PathsOf(all[..n]) == PathsOf(all)[..n]
  {
  }

  lemma DoneDir(env: Env, blobs: Blobs, me: User, before: Disk, dir: Path, layers: seq<Layer>, all: seq<Entry>,
                n: nat, disk: Disk, log: seq<Hit>, k: nat)
    requires Met(env, blobs, me, before, dir, layers, all, n, disk, log) && k < |all[n].path|
    ensures disk.IsDir(dir + all[n].path[..k])
    ensures !me.privileged ==> disk.At(dir + all[n].path[..k]).meta.uid == me.uid
    ensures k < |all[n].path| - 1 ==> SearchAt(me, disk, dir, all[n].path, k)
  {
    var p, ps, done := all[n].path, PathsOf(all), all[..n];
    AgreeTake(layers, all, n);
    assert Agrees(layers, all[n]) && ps[n] == p;
    PrefixResolves(layers, p, k);
    var j := PrefixDone(ps, n, n, k);
    assert done[j] == all[j] && Agrees(layers, all[j]);
    assert FitsAt(env, blobs, me, before, dir, done, j);
    OwnDir(env, blobs, me, before, dir, done, disk, log, j);
    if k < |p| - 1 {
      var m := PrefixDone(ps, n, n, k + 1);
      TakeMore(p, k);
      StepBelow(env, blobs, me, before, dir, all, n, j, m, ps, p, k);
      OwnMayUse(me, disk.At(dir + p[..k]));
    }
  }

  lemma StepBelow(env: Env, blobs: Blobs, me: User, before: Disk, dir: Path, all: seq<Entry>, n: nat, j: nat, m: nat,
                  ps: seq<Path>, p: Path, k: nat)
    requires n <= |all| && j < n && m < n && ps == PathsOf(all) && NoDups(ps) && ParentsBefore(ps, n)
    requires AllFit(env, blobs, me, before, dir, all[..n])
    requires k + 1 < |p| && ps[j] == p[..k] && ps[m] == p[..k + 1]
    ensures me.privileged || InodeKind(all[j].inode) == Folder(true)
  {
    var done := all[..n];
    TakeMore(p, k);
    assert ParentBefore(ps, n, m);
    var i :| 0 <= i < Min(m, n) && ps[i] == Init(ps[m]);
    assert i == j;
    assert done[j] == all[j] && done[m] == all[m];
    assert FitsAt(env, blobs, me, before, dir, done, m);
    assert PathsOf(done) == ps[..n];
    if !me.privileged {
      ParentOpen(env, blobs, me, before, dir, done, j, m);
    }
  }

  /** When the walk yields an entry, its parents have been extracted and its own place is free. */
  lemma ReadyNext(env: Env, blobs: Blobs, me: User, before: Disk, dir: Path, layers: seq<Layer>, all: seq<Entry>,
                  n: nat, disk: Disk, log: seq<Hit>)
    requires Met(env, blobs, me, before, dir, layers, all, n, disk, log)
    ensures Ready(disk, dir, all[n].path) && Access(me, disk, dir, all[n].path) && (all[n].path == [] ==> n == 0)
  {
    var p, ps, done := all[n].path, PathsOf(all), all[..n];
    AgreeTake(layers, all, n);
    assert ps[n] == p;
    forall k | 0 <= k < |p| ensures DirAt(disk, dir, p, k) && (k < |p| - 1 ==> SearchAt(me, disk, dir, p, k)) {
      DoneDir(env, blobs, me, before, dir, layers, all, n, disk, log, k);
    }
    if p == [] {
      RootComesFirst(layers, ps, n);
    } else {
      DoneDir(env, blobs, me, before, dir, layers, all, n, disk, log, |p| - 1);
      assert Placed(dir, disk, p) <==> p == [] || p in PathsOf(done);
      assert p !in ps[..n];
    }
  }
}
