/** When an image that shows a tree can be extracted, read off the tree. */
module TreeExtraction {
  import opened Types
  import opened Seqs
  import opened HostTree
  import opened Store
  import opened Plans
  import opened View
  import opened Display
  import opened Reading
  import opened Walk
  import opened ShownWalk
  import opened Breadth
  import opened Links
  import opened Target
  import opened Nodes
  import opened Extraction
  import opened Extractor

  // Extraction read off the tree.

  function FormOfNode(n: HNode): Option<Form> {
    match n
    case HDir(_, _) => Some(FolderForm)
    case HFile(_, _, _) => Some(FileForm)
    case HOther(_, _, k) => if k.SockKind? || k.UnknownKind? then None else Some(OtherForm(k))
  }

  /** The node is of a kind the user can make, its attributes are accepted, and a link leads somewhere. */
  predicate Restorable(me: User, n: HNode) {
    && FormOfNode(n).Some? && MayMake(me, FormOfNode(n).value) && AllAccepted(me, FormOfNode(n).value, Xattrs(n.meta))
    && (IsLinkNode(n) ==> LinkTarget(n.meta).Some? && LinkTarget(n.meta).value != [])
  }

  /** Which nodes can be made, kind by kind: no socket, nothing unknown, devices with privileges, links that lead somewhere. */
  predicate CanMake(me: User, n: HNode) {
    match n
    case HDir(_, _) => true
    case HFile(_, _, _) => true
    case HOther(_, _, FifoKind) => true
    case HOther(_, _, ChrKind(major, minor)) => me.privileged || (major == 0 && minor == 0)
    case HOther(_, _, BlkKind(_, _)) => me.privileged
    case HOther(_, Meta(_, _, _, Some(Additional(_, Some(target)))), LnkKind) => target != []
    case HOther(_, _, _) => false
  }

  lemma RestorableKinds(me: User, n: HNode)
    ensures Restorable(me, n) ==> CanMake(me, n)
    ensures CanMake(me, n) && (forall form, x :: me.accepts(form, x)) ==> Restorable(me, n)
  {
    if CanMake(me, n) && forall form, x :: me.accepts(form, x) {
      AnyAccepted(me, FormOfNode(n).value, Xattrs(n.meta));
    }
  }

  lemma {:induction false} AnyAccepted(me: User, form: Form, xs: seq<Xattr>)
    requires forall form, x :: me.accepts(form, x)
    ensures AllAccepted(me, form, xs)
  {
    if xs != [] {
      AnyAccepted(me, form, Init(xs));
    }
  }

  /** The first path of its host inode in the order of extraction. */
  ghost predicate FirstOf(t: Tree, p: Path) {
    p in t && forall q | SameInode(t, q, p) && Precedes(q, p) :: q == p
  }

  predicate InPlace(dir: Path, t: Tree, p: Path, r: Path) {
    dir <= r && r[|dir|..] in t && Precedes(r[|dir|..], p)
  }

  /** What resolution sees once the tree is extracted up to path p. */
  ghost function TreeScene(before: Disk, dir: Path, t: Tree, p: Path): (scene: Scene)
    ensures forall r :: r in scene <==> InPlace(dir, t, p, r) || r in before.View()
    ensures forall r | r in scene :: scene[r] == if InPlace(dir, t, p, r) then KindOf(t[r[|dir|..]]) else before.View()[r]
  {
    var laid := set q | q in t && Precedes(q, p) :: dir + q;
    assert forall r :: r in laid <==> InPlace(dir, t, p, r) by {
      forall r ensures r in laid <==> InPlace(dir, t, p, r) {
        if InPlace(dir, t, p, r) {
          assert dir + r[|dir|..] == r;
        }
        if q :| q in t && Precedes(q, p) && r == dir + q {
          assert r[|dir|..] == q;
        }
      }
    }
    map r | r in laid + before.View().Keys :: if InPlace(dir, t, p, r) then KindOf(t[r[|dir|..]]) else before.View()[r]
  }

  /** Where the link at p leads when it is extracted. */
  ghost function LeadsTo(before: Disk, dir: Path, t: Tree, p: Path): Option<Path> {
    Follow(TreeScene(before, dir, t, p), dir + p)
  }

  /** The path can be extracted: its directory allows it and, if it is the first of its inode, the node can be made. */
  ghost predicate RestorableAt(me: User, before: Disk, dir: Path, t: Tree, p: Path)
    requires p in t && before.Has(dir)
  {
    && (!me.privileged ==>
          if p == [] then before.At(dir).meta.uid == me.uid
          else Init(p) in t && OwnerMayUse(t[Init(p)].meta.permissions))
    && (FirstOf(t, p) ==>
          && Restorable(me, t[p])
          && (me.privileged && IsLinkNode(t[p]) ==> LeadsTo(before, dir, t, p).Some?))
  }

  ghost predicate CanRestore(me: User, before: Disk, dir: Path, t: Tree)
    requires before.Has(dir)
  {
    forall p | p in t :: RestorableAt(me, before, dir, t, p)
  }

  lemma PresentedKind(env: Env, blobs: Blobs, i: Inode, n: HNode)
    requires Presents(env, blobs, i, n)
    ensures NoShortFile(env, blobs, i) && InodeKind(i) == KindOf(n) && (i.mode.Dir? <==> n.HDir?) && (i.mode.Lnk? <==>
            IsLinkNode(n))
  {
    if i.mode.File? {
      AllOpen(env, blobs, i.mode.chunks, 0);
    }
  }

  lemma PresentedExtracts(env: Env, blobs: Blobs, me: User, i: Inode, n: HNode)
    requires Presents(env, blobs, i, n)
    ensures NoShortFile(env, blobs, i) && InodeKind(i) == KindOf(n) && (i.mode.Dir? <==> n.HDir?) && (i.mode.Lnk? <==>
            IsLinkNode(n))
    ensures FormOf(i.mode) == FormOfNode(n)
    ensures Extractable(env, blobs, me, i) <==> Restorable(me, n)
  {
    PresentedKind(env, blobs, i, n);
    if i.mode.File? {
      AllOpen(env, blobs, i.mode.chunks, 0);
    }
  }

  /** The walk of an image that displays the tree: its paths in order, presented by their inodes, linked as in the tree. */
  ghost predicate WalksTree(env: Env, blobs: Blobs, t: Tree, all: seq<Entry>) {
    && (forall p :: p in PathsOf(all) <==> p in t) && NoDups(PathsOf(all)) && InBreadthOrder(PathsOf(all))
    && (forall i {:trigger PresentedAt(env, blobs, t, all, i)} | 0 <= i < |all| :: PresentedAt(env, blobs, t, all, i))
    && (forall i, j {:trigger LinkedAt(t, all, i, j)} | 0 <= i < |all| && 0 <= j < |all| :: LinkedAt(t, all, i, j))
  }

  ghost predicate PresentedAt(env: Env, blobs: Blobs, t: Tree, all: seq<Entry>, i: nat)
    requires i < |all|
  {
    all[i].path in t && Presents(env, blobs, all[i].inode, t[all[i].path])
  }

  ghost predicate LinkedAt(t: Tree, all: seq<Entry>, i: nat, j: nat)
    requires i < |all| && j < |all|
  {
    all[i].inode.ino == all[j].inode.ino <==> SameInode(t, all[i].path, all[j].path)
  }

  lemma DisplayedWalks(env: Env, blobs: Blobs, layers: seq<Layer>, t: Tree, all: seq<Entry>)
    requires Displays(env, blobs, layers, t) && Enumerates(layers, t.Keys, all) && InBreadthOrder(PathsOf(all))
    ensures WalksTree(env, blobs, t, all)
  {
    forall i | 0 <= i < |all| ensures PresentedAt(env, blobs, t, all, i) {
      assert Agrees(layers, all[i]) && PathsOf(all)[i] in PathsOf(all);
      assert PathShown(env, blobs, layers, t, all[i].path);
    }
    forall i, j | 0 <= i < |all| && 0 <= j < |all| ensures LinkedAt(t, all, i, j) {
      assert PresentedAt(env, blobs, t, all, i) && PresentedAt(env, blobs, t, all, j);
      assert Agrees(layers, all[i]) && Agrees(layers, all[j]);
      assert LinkShown(layers, t, all[i].path, all[j].path);
    }
  }

  lemma ShownWalks(env: Env, other: Env, blobs: Blobs, layers: seq<Layer>, t: Tree, plan: Plan)
    requires Shows(other, layers, t, plan) && Displays(env, blobs, layers, t) && DropsNothing(plan)
    ensures Finite(layers, t.Keys) && WalksTree(env, blobs, t, WalkOf(layers, t.Keys))
  {
    WalkInOrder(other, layers, t, plan);
    DisplayedWalks(env, blobs, layers, t, WalkOf(layers, t.Keys));
  }

  // The condition on the walk is the condition on the tree.

  lemma {:induction false} SeenIff(dir: Path, done: seq<Entry>, x: Ino)
    ensures x in SeenOf(dir, done) <==> exists i :: 0 <= i < |done| && done[i].inode.ino == x
  {
    if done != [] {
      SeenIff(dir, Init(done), x);
      if i :| 0 <= i < |done| && done[i].inode.ino == x {
        if i < |done| - 1 {
          assert Init(done)[i].inode.ino == x;
        }
      }
      if x in SeenOf(dir, done) && x !in SeenOf(dir, Init(done)) {
        assert done[|done| - 1].inode.ino == x;
      } else if x in SeenOf(dir, Init(done)) {
        var i :| 0 <= i < |done| - 1 && Init(done)[i].inode.ino == x;
        assert done[i].inode.ino == x;
      }
    }
  }

  lemma NewIffFirst(env: Env, blobs: Blobs, dir: Path, t: Tree, all: seq<Entry>, k: nat)
    requires WalksTree(env, blobs, t, all) && k < |all|
    ensures IsNew(dir, all[..k], all[k]) <==> FirstOf(t, all[k].path)
  {
    var ps, p := PathsOf(all), all[k].path;
    SeenIff(dir, all[..k], all[k].inode.ino);
    assert PresentedAt(env, blobs, t, all, k);
    if i :| 0 <= i < k && all[..k][i].inode.ino == all[k].inode.ino {
      assert LinkedAt(t, all, i, k) && InOrderAt(ps, i, k);
      assert SameInode(t, all[i].path, p) && Precedes(all[i].path, p) && ps[i] != ps[k];
    }
    if !FirstOf(t, p) {
      var q :| SameInode(t, q, p) && Precedes(q, p) && q != p;
      YieldedBefore(ps, k, q);
      var i :| 0 <= i < k + 1 && ps[..k + 1][i] == q;
      assert LinkedAt(t, all, i, k);
      assert all[..k][i].inode.ino == all[k].inode.ino;
    }
  }

  lemma {:induction false} SceneElse(before: Disk, dir: Path, done: seq<Entry>, r: Path)
    requires forall i | 0 <= i < |done| :: r != dir + done[i].path
    ensures r in SceneOf(before, dir, done) <==> r in before.View()
    ensures r in before.View() ==> SceneOf(before, dir, done)[r] == before.View()[r]
  {
    if done != [] {
      SceneElse(before, dir, Init(done), r);
    }
  }

  /** What resolution sees, path by path. */
  lemma SceneIsTreeAt(env: Env, blobs: Blobs, before: Disk, dir: Path, t: Tree, all: seq<Entry>, k: nat,
                      done: seq<Entry>, r: Path)
    requires WalksTree(env, blobs, t, all) && k < |all| && done == all[..k + 1]
    ensures var scene, tree := SceneOf(before, dir, done), TreeScene(before, dir, t, all[k].path);
            (r in scene <==> r in tree) && (r in scene ==> scene[r] == tree[r])
  {
    var ps, p := PathsOf(all), all[k].path;
    assert PathsOf(done) == ps[..k + 1];
    if InPlace(dir, t, p, r) {
      var q := r[|dir|..];
      assert dir + q == r;
      YieldedBefore(ps, k, q);
      var i :| 0 <= i < k + 1 && ps[..k + 1][i] == q;
      SceneAt(before, dir, done, i);
      assert PresentedAt(env, blobs, t, all, i);
      PresentedKind(env, blobs, all[i].inode, t[q]);
    } else {
      forall i | 0 <= i < |done| ensures r != dir + done[i].path {
        if r == dir + done[i].path {
          assert r[|dir|..] == done[i].path && PathsOf(done)[i] == done[i].path;
          assert PresentedAt(env, blobs, t, all, i);
          YieldedBefore(ps, k, done[i].path);
        }
      }
      SceneElse(before, dir, done, r);
    }
  }

  lemma SceneIsTree(env: Env, blobs: Blobs, before: Disk, dir: Path, t: Tree, all: seq<Entry>, k: nat)
    requires WalksTree(env, blobs, t, all) && k < |all|
    ensures SceneOf(before, dir, all[..k + 1]) == TreeScene(before, dir, t, all[k].path)
    ensures AimOf(before, dir, all[..k], all[k]) == LeadsTo(before, dir, t, all[k].path)
  {
    var scene, tree := SceneOf(before, dir, all[..k + 1]), TreeScene(before, dir, t, all[k].path);
    forall r ensures (r in scene <==> r in tree) && (r in scene ==> scene[r] == tree[r]) {
      SceneIsTreeAt(env, blobs, before, dir, t, all, k, all[..k + 1], r);
    }
    assert scene == tree;
    TakeMore(all, k);
  }

  lemma AdmitsIff(env: Env, blobs: Blobs, me: User, before: Disk, dir: Path, t: Tree, all: seq<Entry>, k: nat)
    requires ValidTree(t) && WalksTree(env, blobs, t, all) && k < |all| && before.Has(dir) && all[k].path in t
    ensures Admits(me, before, dir, all[..k], all[k]) <==>
            (!me.privileged ==>
               if all[k].path == [] then before.At(dir).meta.uid == me.uid
               else Init(all[k].path) in t && OwnerMayUse(t[Init(all[k].path)].meta.permissions))
  {
    var p, ps, done := all[k].path, PathsOf(all), all[..k];
    if p != [] {
      Parent(t, p);
      YieldedBefore(ps, k, Init(p));
      var i :| 0 <= i < k + 1 && ps[..k + 1][i] == Init(p);
      assert i < k && done[i] == all[i];
      assert PathsOf(done) == ps[..k];
      SceneAt(before, dir, done, i);
      assert PresentedAt(env, blobs, t, all, i);
      PresentedExtracts(env, blobs, me, all[i].inode, t[Init(p)]);
    }
  }

  lemma FitsIff(env: Env, blobs: Blobs, me: User, before: Disk, dir: Path, t: Tree, all: seq<Entry>, k: nat)
    requires ValidTree(t) && WalksTree(env, blobs, t, all) && k < |all| && before.Has(dir)
    ensures all[k].path in t
    ensures FitsAt(env, blobs, me, before, dir, all, k) <==> RestorableAt(me, before, dir, t, all[k].path)
  {
    var p := all[k].path;
    assert PresentedAt(env, blobs, t, all, k);
    PresentedExtracts(env, blobs, me, all[k].inode, t[p]);
    AdmitsIff(env, blobs, me, before, dir, t, all, k);
    NewIffFirst(env, blobs, dir, t, all, k);
    SceneIsTree(env, blobs, before, dir, t, all, k);
    if t[p].HDir? {
      DirFirst(t, p);
    }
  }

  lemma DirFirst(t: Tree, p: Path)
    requires ValidTree(t) && p in t && t[p].HDir?
    ensures FirstOf(t, p)
  {
  }

  lemma AllFitIff(env: Env, blobs: Blobs, me: User, before: Disk, dir: Path, t: Tree, all: seq<Entry>)
    requires ValidTree(t) && WalksTree(env, blobs, t, all) && before.Has(dir)
    ensures AllFit(env, blobs, me, before, dir, all) <==> CanRestore(me, before, dir, t)
  {
    forall k | 0 <= k < |all|
      ensures all[k].path in t && (FitsAt(env, blobs, me, before, dir, all, k) <==> RestorableAt(me, before, dir, t, all[k].path))
    {
      FitsIff(env, blobs, me, before, dir, t, all, k);
    }
    if AllFit(env, blobs, me, before, dir, all) {
      forall p | p in t ensures RestorableAt(me, before, dir, t, p) {
        var k :| 0 <= k < |all| && PathsOf(all)[k] == p;
        assert FitsAt(env, blobs, me, before, dir, all, k);
      }
    }
  }

  lemma ShownReady(env: Env, other: Env, blobs: Blobs, layers: seq<Layer>, t: Tree, plan: Plan)
    requires Shows(other, layers, t, plan) && Displays(env, blobs, layers, t)
    ensures Finite(layers, t.Keys) && NoShortFiles(env, blobs, layers, t.Keys)
  {
    ShownIsFinite(other, layers, t, plan);
    forall p | p in t ensures NoShortFile(env, blobs, InodeAt(layers, p)) {
      assert PathShown(env, blobs, layers, t, p);
      PresentedKind(env, blobs, InodeAt(layers, p), t[p]);
    }
  }

  /** An image that shows a tree can be extracted if and only if the build dropped nothing and every path can be restored. */
  lemma ShownCanExtract(env: Env, other: Env, blobs: Blobs, me: User, before: Disk, dir: Path, layers: seq<Layer>,
                        t: Tree, plan: Plan)
    requires Shows(other, layers, t, plan) && Displays(env, blobs, layers, t) && before.Has(dir)
    ensures Finite(layers, t.Keys)
    ensures CanExtract(env, blobs, me, before, dir, layers, t.Keys) <==> DropsNothing(plan) && CanRestore(me, before, dir, t)
  {
    ShownIsFinite(other, layers, t, plan);
    if DropsNothing(plan) {
      ShownWalks(env, other, blobs, layers, t, plan);
      AllFitIff(env, blobs, me, before, dir, t, WalkOf(layers, t.Keys));
    }
  }
}
