/** What a listing of a directory of an image says about the tree the image shows. */
module Listings {
  import opened Types
  import opened Seqs
  import opened HostTree
  import opened Layers
  import opened Resolution
  import opened Store
  import opened Plans
  import opened View
  import opened Display
  import opened Walk
  import opened ShownWalk
  import opened Images
  import opened Steps
  import opened Runs
  import opened LayerContents
  import opened Mount

  // Kinds.

  /** In an image that displays a tree the inode of a path is of a kind exactly when the node there is. */
  lemma KindShown(env: Env, blobs: Blobs, layers: seq<Layer>, t: Tree, p: Path)
    requires Displays(env, blobs, layers, t) && p in t
    ensures Resolves(layers, p)
    ensures var i, n := InodeAt(layers, p), t[p];
            && i.meta == n.meta
            && (i.mode.Dir? <==> n.HDir?)
            && (i.mode.File? <==> n.HFile?)
            && (i.mode == Fifo <==> n.HOther? && n.kind == FifoKind)
            && (i.mode == Lnk <==> n.HOther? && n.kind == LnkKind)
            && (i.mode == Sock <==> n.HOther? && n.kind == SockKind)
            && (i.mode == Unknown <==> n.HOther? && n.kind == UnknownKind)
            && (forall major, minor :: i.mode == Chr(major, minor) <==> n.HOther? && n.kind == ChrKind(major, minor))
            && (forall major, minor :: i.mode == Blk(major, minor) <==> n.HOther? && n.kind == BlkKind(major, minor))
  {
    assert PathShown(env, blobs, layers, t, p);
  }

  predicate OfUnknownKind(n: HNode) {
    n.HOther? && n.kind == UnknownKind
  }

  /** What a node must be listed as; there is nothing to list a node of unknown kind as. */
  predicate ListedAs(n: HNode, k: FileType) {
    match n
    case HDir(_, _) => k == Directory
    case HFile(_, _, _) => k == RegularFile
    case HOther(_, _, FifoKind) => k == NamedPipe
    case HOther(_, _, ChrKind(_, _)) => k == CharDevice
    case HOther(_, _, BlkKind(_, _)) => k == BlockDevice
    case HOther(_, _, LnkKind) => k == Symlink
    case HOther(_, _, SockKind) => k == Socket
    case HOther(_, _, UnknownKind) => false
  }

  lemma FuseTypeShown(env: Env, blobs: Blobs, layers: seq<Layer>, t: Tree, p: Path)
    requires Displays(env, blobs, layers, t) && p in t
    ensures Resolves(layers, p)
    ensures FuseType(InodeAt(layers, p)).Err? <==> OfUnknownKind(t[p])
    ensures FuseType(InodeAt(layers, p)).Ok? ==> ListedAs(t[p], FuseType(InodeAt(layers, p)).value)
  {
    KindShown(env, blobs, layers, t, p);
  }

  // Entries and children.

  /** The inode a path resolves to is found again under its number. */
  lemma ResolvedFound(layers: seq<Layer>, p: Path)
    requires NonEmpty(layers) && Resolves(layers, p)
    ensures FindInode(layers, InodeAt(layers, p).ino) == Ok(InodeAt(layers, p))
  {
    if p == [] {
      FoundInLayers(layers, 1);
    } else {
      var d := Lookup(layers, Init(p));
      var ino := FindEntry(d.value.value.mode.entries, Last(p)).value;
      FoundInLayers(layers, ino);
    }
  }

  /** An entry whose name is not repeated before it leads to the inode of its path. */
  lemma EntryResolves(layers: seq<Layer>, d: Path, es: seq<DirEnt>, k: nat)
    requires NonEmpty(layers) && Resolves(layers, d) && es == EntriesOf(InodeAt(layers, d)) && k < |es|
    requires FindInode(layers, es[k].ino).Ok? && forall i | 0 <= i < k :: es[i].name != es[k].name
    ensures Resolves(layers, d + [es[k].name]) && Ok(InodeAt(layers, d + [es[k].name])) == FindInode(layers, es[k].ino)
  {
    var p := d + [es[k].name];
    FindEntryIsFirst(es, es[k].name, k);
    assert Init(p) == d && Last(p) == es[k].name;
    LookupStep(layers, p, InodeAt(layers, d));
  }

  /** Every path that resolves in a directory is one of its entries. */
  lemma ResolvedListed(layers: seq<Layer>, p: Path) returns (k: nat)
    requires NonEmpty(layers) && p != [] && Resolves(layers, p)
    ensures Resolves(layers, Init(p))
    ensures var es := EntriesOf(InodeAt(layers, Init(p))); k < |es| && es[k].name == Last(p)
  {
    var d := InodeAt(layers, Init(p));
    LookupStep(layers, p, d);
    FindEntryNone(d.mode.entries, Last(p));
    var e :| e in d.mode.entries && e.name == Last(p);
    k :| 0 <= k < |d.mode.entries| && d.mode.entries[k] == e;
  }

  /** The record names a child of directory d, and gives its kind and the number of its inode. */
  ghost predicate RecordsChild(layers: seq<Layer>, t: Tree, d: Path, x: Dirent)
    requires NonEmpty(layers)
  {
    var p := d + [x.name];
    p in t && ListedAs(t[p], x.kind) && Resolves(layers, p) && x.ino == InodeAt(layers, p).ino
  }

  /** The records are the children of directory d of the tree, each once. */
  ghost predicate Lists(layers: seq<Layer>, t: Tree, d: Path, rs: seq<Dirent>)
    requires NonEmpty(layers)
  {
    && (forall k | 0 <= k < |rs| :: RecordsChild(layers, t, d, rs[k]))
    && (forall i, j | 0 <= i < j < |rs| :: rs[i].name != rs[j].name)
    && (forall p | p in Children(t, d) :: exists k :: 0 <= k < |rs| && rs[k].name == Last(p))
  }

  /** The records follow the entries, and each tells where the next one is. */
  predicate InOrder(es: seq<DirEnt>, rs: seq<Dirent>) {
    |rs| == |es| && forall k | 0 <= k < |rs| :: rs[k].name == es[k].name && rs[k].offset == k + 1
  }

  /** The image displays the tree, and d is a directory there with these entries. */
  ghost predicate ShownDir(env: Env, blobs: Blobs, layers: seq<Layer>, t: Tree, d: Path, es: seq<DirEnt>) {
    && Displays(env, blobs, layers, t) && Finite(layers, t.Keys)
    && d in t && t[d].HDir? && Resolves(layers, d) && es == EntriesOf(InodeAt(layers, d))
  }

  lemma EntryIsChild(env: Env, blobs: Blobs, layers: seq<Layer>, t: Tree, d: Path, es: seq<DirEnt>, k: nat)
    requires ShownDir(env, blobs, layers, t, d, es) && Findable(layers, es) && k < |es|
    ensures var p := d + [es[k].name];
            && p in Children(t, d) && Resolves(layers, p) && es[k].ino == InodeAt(layers, p).ino
            && FindInode(layers, es[k].ino) == Ok(InodeAt(layers, p))
  {
    assert NamesOnce(layers, EntriesOf(InodeAt(layers, d)));
    EntryResolves(layers, d, es, k);
    FoundInLayers(layers, es[k].ino);
    assert Init(d + [es[k].name]) == d;
  }

  lemma ChildIsEntry(env: Env, blobs: Blobs, layers: seq<Layer>, t: Tree, d: Path, es: seq<DirEnt>, p: Path) returns (k: nat)
    requires ShownDir(env, blobs, layers, t, d, es) && p in Children(t, d)
    ensures k < |es| && es[k].name == Last(p) && p == d + [es[k].name]
  {
    assert Resolves(layers, p);
    k := ResolvedListed(layers, p);
    Rejoin(p);
  }

  ghost predicate HasUnknownChild(t: Tree, d: Path) {
    exists p :: p in Children(t, d) && OfUnknownKind(t[p])
  }

  /** All entries can be served exactly when none is whited out and no child is of unknown kind. */
  lemma ServableIff(env: Env, blobs: Blobs, layers: seq<Layer>, t: Tree, d: Path, es: seq<DirEnt>)
    requires ShownDir(env, blobs, layers, t, d, es)
    ensures AllServable(layers, es) <==> Findable(layers, es) && !HasUnknownChild(t, d)
  {
    if Findable(layers, es) {
      forall k | 0 <= k < |es|
        ensures var p := d + [es[k].name]; p in Children(t, d) && (Servable(layers, es[k]) <==> !OfUnknownKind(t[p]))
      {
        EntryIsChild(env, blobs, layers, t, d, es, k);
        FuseTypeShown(env, blobs, layers, t, d + [es[k].name]);
      }
      if p :| p in Children(t, d) && OfUnknownKind(t[p]) {
        var k := ChildIsEntry(env, blobs, layers, t, d, es, p);
        assert !Servable(layers, es[k]);
      }
      assert AllServable(layers, es) <==> !HasUnknownChild(t, d);
    } else {
      var k :| 0 <= k < |es| && FindInode(layers, es[k].ino).Err?;
      assert !Servable(layers, es[k]);
    }
  }

  lemma RecordIsChild(env: Env, blobs: Blobs, layers: seq<Layer>, t: Tree, d: Path, es: seq<DirEnt>, k: nat)
    requires ShownDir(env, blobs, layers, t, d, es) && Findable(layers, es) && k < |es| && Servable(layers, es[k])
    ensures RecordsChild(layers, t, d, RecordAt(layers, es, k)) && RecordAt(layers, es, k).name == es[k].name
  {
    EntryIsChild(env, blobs, layers, t, d, es, k);
    FuseTypeShown(env, blobs, layers, t, d + [es[k].name]);
  }

  lemma RecordsList(env: Env, blobs: Blobs, layers: seq<Layer>, t: Tree, d: Path, es: seq<DirEnt>, rs: seq<Dirent>)
    requires ShownDir(env, blobs, layers, t, d, es) && AllServable(layers, es)
    requires |rs| == |es| && forall k | 0 <= k < |es| :: rs[k] == RecordAt(layers, es, k)
    ensures Lists(layers, t, d, rs)
  {
    assert forall k | 0 <= k < |es| :: Servable(layers, es[k]);
    assert NamesOnce(layers, EntriesOf(InodeAt(layers, d)));
    forall k | 0 <= k < |rs| ensures RecordsChild(layers, t, d, rs[k]) && rs[k].name == es[k].name {
      RecordIsChild(env, blobs, layers, t, d, es, k);
    }
    forall p | p in Children(t, d) ensures exists k :: 0 <= k < |rs| && rs[k].name == Last(p) {
      var k := ChildIsEntry(env, blobs, layers, t, d, es, p);
    }
  }

  /**
   * Listing a directory of an image that displays a tree, page by page: it gives every child of that
   * directory once, with its kind and the number of its inode.  It fails exactly when an entry is
   * whited out or a child is of unknown kind.
   */
  method ListShown(ghost env: Env, ghost blobs: Blobs, layers: seq<Layer>, ghost t: Tree, d: Path,
                   capacity: nat -> nat, room: Name -> nat)
    returns (r: Result<seq<Dirent>>)
    requires Displays(env, blobs, layers, t) && Finite(layers, t.Keys) && d in t && t[d].HDir? && Resolves(layers, d)
    requires forall k, e | e in EntriesOf(InodeAt(layers, d)) :: room(e.name) <= capacity(k)
    ensures r.Err? <==> || (exists e :: e in EntriesOf(InodeAt(layers, d)) && FindInode(layers, e.ino).Err?)
                        || exists p :: p in Children(t, d) && t[p].HOther? && t[p].kind == UnknownKind
    ensures r.Ok? ==> Lists(layers, t, d, r.value) && InOrder(EntriesOf(InodeAt(layers, d)), r.value)
  {
    var i := InodeAt(layers, d);
    KindShown(env, blobs, layers, t, d);
    ResolvedFound(layers, d);
    r := ListDir(layers, i.ino, capacity, room);
    ServableIff(env, blobs, layers, t, d, i.mode.entries);
    if r.Ok? {
      RecordsList(env, blobs, layers, t, d, i.mode.entries, r.value);
    }
  }

  lemma NoneGone(ex: Base, t: Tree, plan: Plan, d: Path)
    requires Usable(ex) && ValidTree(t) && plan == PlanOf(ex, t) && d in plan.whites
    ensures plan.whites[d] == [] <==> forall e :: !IsDropped(ex, t, d, e)
  {
    forall e ensures e in plan.whites[d] <==> IsDropped(ex, t, d, e) {
      WhitesAreGone(ex, t, d, e);
    }
    if plan.whites[d] != [] {
      assert plan.whites[d][0] in plan.whites[d];
    }
  }

  lemma NotFindable(layers: seq<Layer>, es: seq<DirEnt>)
    requires NonEmpty(layers)
    ensures (exists e :: e in es && FindInode(layers, e.ino).Err?) <==> !Findable(layers, es)
  {
    if !Findable(layers, es) {
      var k :| 0 <= k < |es| && FindInode(layers, es[k].ino).Err?;
      assert es[k] in es;
    }
  }

  /** All entries of a directory of an image that was just built can be found exactly when nothing was dropped there. */
  lemma FindableIff(env: Env, layers: seq<Layer>, ex: Base, t: Tree, plan: Plan, d: Path)
    requires Usable(ex) && ValidTree(t) && plan == PlanOf(ex, t) && Shows(env, layers, t, plan) && d in t && t[d].HDir?
    ensures Resolves(layers, d)
    ensures var es := EntriesOf(InodeAt(layers, d));
            (exists e :: e in es && FindInode(layers, e.ino).Err?) <==> exists e :: IsDropped(ex, t, d, e)
  {
    DirWalks(env, layers, t, plan, d);
    ShapeHas(t, plan, d);
    NoneGone(ex, t, plan, d);
    NotFindable(layers, EntriesOf(InodeAt(layers, d)));
  }

  lemma KeptAscend(ex: Base, t: Tree, x: Inode, d: Path, white: seq<DirEnt>, live: seq<DirEnt>)
    requires Usable(ex) && LaysOut(ex, t, x, d, white, live) && forall e :: !IsDropped(ex, t, d, e)
    ensures var es := EntriesOf(x); forall i, j | 0 <= i < j < |es| :: ByteBefore(es[i].name, es[j].name)
  {
    if white != [] {
      HasMember(white);
    }
    assert white + live == live;
  }

  lemma EntriesAscend(env: Env, layers: seq<Layer>, ex: Base, t: Tree, plan: Plan, d: Path, es: seq<DirEnt>)
    requires Usable(ex) && ValidTree(t) && plan == PlanOf(ex, t) && Shows(env, layers, t, plan) && d in t && t[d].HDir?
    requires Resolves(layers, d) && es == EntriesOf(InodeAt(layers, d)) && forall e :: !IsDropped(ex, t, d, e)
    ensures forall i, j | 0 <= i < j < |es| :: ByteBefore(es[i].name, es[j].name)
  {
    ShownInode(env, layers, t, plan, d);
    var white, live := DirLaysOut(env, ex, t, d, plan);
    KeptAscend(ex, t, InodeAt(layers, d), d, white, live);
  }

  /**
   * In an image that was just built: a listing fails exactly when the build dropped an entry of that
   * directory or a child is of unknown kind; otherwise the names come in byte order.
   */
  method ListBuilt(ghost env: Env, ghost blobs: Blobs, layers: seq<Layer>, ghost ex: Base, ghost t: Tree, ghost plan: Plan,
                   d: Path, capacity: nat -> nat, room: Name -> nat)
    returns (r: Result<seq<Dirent>>)
    requires Usable(ex) && ValidTree(t) && plan == PlanOf(ex, t) && Shows(env, layers, t, plan)
    requires GoodChunker(env) && Stored(env, blobs, t) && d in t && t[d].HDir? && Resolves(layers, d)
    requires forall k, e | e in EntriesOf(InodeAt(layers, d)) :: room(e.name) <= capacity(k)
    ensures r.Err? <==> (exists e :: IsDropped(ex, t, d, e)) || HasUnknownChild(t, d)
    ensures r.Ok? ==> Lists(layers, t, d, r.value)
    ensures r.Ok? ==> forall i, j | 0 <= i < j < |r.value| :: ByteBefore(r.value[i].name, r.value[j].name)
  {
    ShowsDisplays(env, blobs, layers, t, plan);
    ShownIsFinite(env, layers, t, plan);
    FindableIff(env, layers, ex, t, plan, d);
    r := ListShown(env, blobs, layers, t, d, capacity, room);
    if r.Ok? {
      EntriesAscend(env, layers, ex, t, plan, d, EntriesOf(InodeAt(layers, d)));
    }
  }

  lemma RunBuilt(env: Env, ser: Rootfs -> Bytes, r: Run, k: nat, m: nat, blobs: Blobs)
    requires Trusted(env) && IsRun(env, ser, r) && k < |r| && Unsplit(r, k) && m == Shown(r, k)
    requires AppendOnly(r[k].state.blobs, blobs) && ContentAddressed(env, blobs)
    ensures Sane(r, m) && Shows(EnvAt(env, r, m), LayersAt(r, k), r[m].tree, PlanAt(r, m))
    ensures GoodChunker(EnvAt(env, r, m)) && Stored(EnvAt(env, r, m), blobs, r[m].tree)
  {
    RunShows(env, ser, r, k);
    GoodLater(env, r, k, m, r[k].state.blobs, blobs);
    TrustedAny(env, EnvAt(env, r, m));
  }

  /** So it is for the image of every build of every history that splits nothing, in every later blob directory. */
  method ListInRun(ghost env: Env, ghost ser: Rootfs -> Bytes, ghost r: Run, ghost k: nat, ghost m: nat, ghost blobs: Blobs,
                   layers: seq<Layer>, d: Path, capacity: nat -> nat, room: Name -> nat)
    returns (listed: Result<seq<Dirent>>)
    requires Trusted(env) && IsRun(env, ser, r) && k < |r| && Unsplit(r, k) && m == Shown(r, k) && layers == LayersAt(r, k)
    requires AppendOnly(r[k].state.blobs, blobs) && ContentAddressed(env, blobs)
    requires Sane(r, m) && d in r[m].tree && r[m].tree[d].HDir? && NonEmpty(layers) && Resolves(layers, d)
    requires forall n, e | e in EntriesOf(InodeAt(layers, d)) :: room(e.name) <= capacity(n)
    ensures listed.Err? <==> (exists e :: IsDropped(BaseAt(r, m), r[m].tree, d, e)) || HasUnknownChild(r[m].tree, d)
    ensures listed.Ok? ==> Lists(layers, r[m].tree, d, listed.value)
    ensures listed.Ok? ==> var rs := listed.value; forall i, j | 0 <= i < j < |rs| :: ByteBefore(rs[i].name, rs[j].name)
  {
    RunBuilt(env, ser, r, k, m, blobs);
    listed := ListBuilt(EnvAt(env, r, m), blobs, layers, BaseAt(r, m), r[m].tree, PlanAt(r, m), d, capacity, room);
  }
}
