/** Extracting one inode: the node that is made for it, and the calls that make it. */
module Nodes {
  import opened Types
  import opened Seqs
  import opened HostTree
  import opened Store
  import opened Chunks
  import opened Reading
  import opened Links
  import opened Target

  // One node.

  function FormOf(m: InodeMode): Option<Form> {
    match m
    case File(_) => Some(FileForm)
    case Dir(_, _) => Some(FolderForm)
    case Fifo => Some(OtherForm(FifoKind))
    case Chr(major, minor) => Some(OtherForm(ChrKind(major, minor)))
    case Blk(major, minor) => Some(OtherForm(BlkKind(major, minor)))
    case Lnk => Some(OtherForm(LnkKind))
    case _ => None
  }

  /** Device nodes take privileges, all but the character device 0:0. */
  predicate MayMake(me: User, form: Form) {
    match form
    case OtherForm(ChrKind(major, minor)) => me.privileged || (major == 0 && minor == 0)
    case OtherForm(BlkKind(_, _)) => me.privileged
    case _ => true
  }

  predicate Readable(env: Env, blobs: Blobs, chunks: seq<FileChunk>) {
    FileLen(chunks) == 0 || AllInBlobs(env, blobs, chunks)
  }

  function FileData(env: Env, blobs: Blobs, chunks: seq<FileChunk>): Bytes
    requires Readable(env, blobs, chunks)
  {
    if FileLen(chunks) == 0 then [] else Content(env, blobs, chunks)
  }

  /** Sockets, whiteouts and unknown kinds cannot be made, links need a target, files their chunks. */
  predicate Makeable(env: Env, blobs: Blobs, me: User, i: Inode) {
    && FormOf(i.mode).Some? && MayMake(me, FormOf(i.mode).value)
    && (i.mode.File? ==> Readable(env, blobs, i.mode.chunks))
    && (i.mode.Lnk? ==> LinkTarget(i.meta).Some? && LinkTarget(i.meta).value != [])
  }

  predicate AllAccepted(me: User, form: Form, xs: seq<Xattr>) {
    xs == [] || (AllAccepted(me, form, Init(xs)) && me.accepts(form, Last(xs)))
  }

  lemma {:induction false} AcceptedPrefix(me: User, form: Form, xs: seq<Xattr>, k: nat)
    requires AllAccepted(me, form, xs) && k <= |xs|
    ensures AllAccepted(me, form, xs[..k])
    decreases |xs|
  {
    if k == |xs| {
      TakeAll(xs);
    } else {
      AcceptedPrefix(me, form, Init(xs), k);
      assert Init(xs)[..k] == xs[..k];
    }
  }

  predicate Extractable(env: Env, blobs: Blobs, me: User, i: Inode) {
    Makeable(env, blobs, me, i) && AllAccepted(me, FormOf(i.mode).value, Xattrs(i.meta))
  }

  function Blank(me: User, p: Path): Meta {
    Meta(me.uid, me.group(p), 448, None)
  }

  /** The node as it is made, before its metadata is set. */
  function Raw(env: Env, blobs: Blobs, me: User, p: Path, i: Inode): HNode
    requires Makeable(env, blobs, me, i)
  {
    match FormOf(i.mode).value
    case FileForm => HFile(0, Blank(me, p), FileData(env, blobs, i.mode.chunks))
    case FolderForm => HDir(0, Blank(me, p))
    case OtherForm(k) =>
      if k.LnkKind? then HOther(0, Meta(me.uid, me.group(p), LINK_PERMISSIONS, Extras([], LinkTarget(i.meta))), k)
      else HOther(0, Blank(me, p), k)
  }

  function OwnerOf(i: Inode): Owner {
    Owner(i.meta.uid, i.meta.gid)
  }

  /** The node once its own metadata is set.  The permissions and the owner of a link are never set. */
  function Settled(me: User, n: HNode, i: Inode): HNode {
    var tagged := Tagged(n, Xattrs(i.meta));
    if i.mode.Lnk? then tagged else
    var moded := Chmodded(me, tagged, i.meta.permissions);
    if me.privileged then Chowned(moded, OwnerOf(i)) else moded
  }

  function InodeKind(i: Inode): Kind {
    match i.mode
    case Dir(_, _) => Folder(OwnerMayUse(i.meta.permissions))
    case Lnk => LinkKindOf(i.meta)
    case _ => Leaf
  }

  lemma TaggedSnoc(n: HNode, xs: seq<Xattr>)
    requires xs != []
    ensures Tagged(Tagged(n, Init(xs)), [Last(xs)]) == Tagged(n, xs)
  {
    var x, had := Last(xs), Xattrs(n.meta);
    if Init(xs) == [] {
      Rejoin(xs);
    } else {
      var mid := SetXattrs(had, Init(xs));
      SetOne(mid, x);
      assert mid != [];
      assert Xattrs(Tagged(n, Init(xs)).meta) == mid;
    }
  }

  lemma SetOne(xs: seq<Xattr>, x: Xattr)
    ensures SetXattrs(xs, [x]) == SetXattr(xs, x)
  {
    assert Init([x]) == [] && Last([x]) == x;
  }

  lemma TaggedKind(n: HNode, xs: seq<Xattr>)
    ensures KindOf(Tagged(n, xs)) == KindOf(n) && Tagged(n, xs).hino == n.hino && Tagged(n, xs).meta.uid == n.meta.uid
  {
  }

  lemma RawKind(env: Env, blobs: Blobs, me: User, p: Path, i: Inode)
    requires Makeable(env, blobs, me, i)
    ensures Raw(env, blobs, me, p, i).HDir? <==> i.mode.Dir?
    ensures i.mode.Lnk? ==> KindOf(Raw(env, blobs, me, p, i)) == InodeKind(i)
    ensures !i.mode.Lnk? && !i.mode.Dir? ==> KindOf(Raw(env, blobs, me, p, i)) == Leaf
  {
  }

  lemma RawFile(env: Env, blobs: Blobs, me: User, p: Path, i: Inode)
    ensures i.mode.File? ==> (Makeable(env, blobs, me, i) <==> Readable(env, blobs, i.mode.chunks))
    ensures i.mode.File? && Makeable(env, blobs, me, i) ==>
              Raw(env, blobs, me, p, i) == HFile(0, Blank(me, p), FileData(env, blobs, i.mode.chunks))
  {
  }

  lemma RawDir(env: Env, blobs: Blobs, me: User, p: Path, i: Inode)
    ensures i.mode.Dir? ==> Makeable(env, blobs, me, i) && Raw(env, blobs, me, p, i) == HDir(0, Blank(me, p))
  {
  }

  /** A node is settled as a directory, a link or neither, as its inode says. */
  lemma SettledKind(me: User, n: HNode, i: Inode)
    requires n.HDir? <==> i.mode.Dir?
    requires i.mode.Lnk? ==> KindOf(n) == InodeKind(i)
    requires !i.mode.Lnk? && !i.mode.Dir? ==> KindOf(n) == Leaf
    ensures KindOf(Settled(me, n, i)) == InodeKind(i) && Settled(me, n, i).hino == n.hino
    ensures !me.privileged ==> Settled(me, n, i).meta.uid == n.meta.uid
  {
    TaggedKind(n, Xattrs(i.meta));
    WithoutSgidKeeps(i.meta.permissions);
    ChownedKind(Chmodded(me, Tagged(n, Xattrs(i.meta)), i.meta.permissions), OwnerOf(i));
  }

  lemma SettledIgnoresNumber(me: User, n: HNode, i: Inode, h: HostIno)
    ensures Settled(me, n.(hino := h), i) == Settled(me, n, i).(hino := h)
  {
  }

  // The calls that make one node.

  ghost predicate NoShortFile(env: Env, blobs: Blobs, i: Inode) {
    i.mode.File? ==> NoShortBlobs(env, blobs, i.mode.chunks, None)
  }

  /** Opens a file and copies all of it out. */
  method ReadWhole(env: Env, oci: Image, inode: Inode, size: nat) returns (r: Result<Bytes>)
    requires inode.mode.File?
    requires size > 0
    ensures NoShortFile(env, oci.blobs, inode) ==>
              && (r.Ok? <==> Readable(env, oci.blobs, inode.mode.chunks))
              && (r.Ok? ==> r.value == FileData(env, oci.blobs, inode.mode.chunks))
  {
    var open := FileReader.Open(oci, inode);
    r := CopyOut(env, open.value, _ => size);
    if NoShortFile(env, oci.blobs, inode) {
      OpensFromStart(env, oci.blobs, inode.mode.chunks);
    }
    if AllInBlobs(env, oci.blobs, inode.mode.chunks) {
      ContentLength(env, oci.blobs, inode.mode.chunks);
      assert r.value == Content(env, oci.blobs, inode.mode.chunks);
    }
  }

  method ExtractFile(env: Env, oci: Image, host: Host, p: Path, inode: Inode, size: nat) returns (r: Result<()>)
    requires inode.mode.File?
    requires host.Valid() && host.dir <= p && !host.disk.IsLink(p)
    requires size > 0
    modifies host
    ensures host.Valid() && host.log == old(host.log) && (r.Ok? ==> host.disk.IsFile(p))
    ensures old(host.disk).IsDir(p) ==> r.Err?
    ensures !old(host.disk).IsFile(p) && NoShortFile(env, oci.blobs, inode) ==>
              && (r.Ok? <==> Readable(env, oci.blobs, inode.mode.chunks) && old(host.disk).Vacant(host.me, p))
              && (r.Ok? ==> host.disk == old(host.disk).Add(p, HFile(0, Blank(host.me, p), FileData(env, oci.blobs, inode.mode.chunks))))
  {
    var made := host.CreateFile(p, Blank(host.me, p));
    if made.Err? {
      return Err(made.error);
    }
    var data := ReadWhole(env, oci, inode, size);
    if data.Err? {
      return Err(data.error);
    }
    host.Write(p, data.value);
    if !old(host.disk).IsFile(p) {
      AddThenUpdate(old(host.disk), p, HFile(0, Blank(host.me, p), []), HFile(old(host.disk).next, Blank(host.me, p),
                    data.value));
    }
    return Ok(());
  }

  /** Makes a node of the right kind.  Only a directory, or a file that is emptied, may be there already. */
  method CreateNode(env: Env, oci: Image, host: Host, p: Path, inode: Inode, size: nat) returns (r: Result<()>)
    requires host.Valid() && host.dir <= p && !host.disk.IsLink(p)
    requires size > 0
    modifies host
    ensures host.Valid() && host.log == old(host.log)
    ensures r.Ok? ==> host.disk.Has(p) && FormOf(inode.mode).Some? && (host.disk.IsLink(p) <==> inode.mode.Lnk?)
    ensures p !in old(host.disk).names && NoShortFile(env, oci.blobs, inode) ==>
              && (r.Ok? <==> Makeable(env, oci.blobs, host.me, inode) && old(host.disk).Vacant(host.me, p))
              && (r.Ok? ==> host.disk == old(host.disk).Add(p, Raw(env, oci.blobs, host.me, p, inode)))
    ensures old(host.disk).IsDir(p) ==> (r.Ok? <==> inode.mode.Dir?) && (r.Ok? ==> host.disk == old(host.disk))
  {
    RawFile(env, oci.blobs, host.me, p, inode);
    RawDir(env, oci.blobs, host.me, p, inode);
    if inode.mode.File? {
      r := ExtractFile(env, oci, host, p, inode, size);
    } else if inode.mode.Dir? {
      r := host.CreateDir(p, Blank(host.me, p));
    } else {
      r := MakeOther(env, oci.blobs, host, p, inode);
    }
  }

  /** Makes a fifo, a device node or a symbolic link. */
  method MakeOther(env: Env, blobs: Blobs, host: Host, p: Path, inode: Inode) returns (r: Result<()>)
    requires host.Valid() && host.dir <= p && !inode.mode.File? && !inode.mode.Dir?
    modifies host
    ensures host.Valid() && host.log == old(host.log)
    ensures r.Ok? <==> Makeable(env, blobs, host.me, inode) && old(host.disk).Vacant(host.me, p)
    ensures r.Ok? ==> host.disk == old(host.disk).Add(p, Raw(env, blobs, host.me, p, inode))
    ensures r.Ok? ==> host.disk.Has(p) && (host.disk.IsLink(p) <==> inode.mode.Lnk?)
  {
    if FormOf(inode.mode).None? {
      return Err(BadMode);
    }
    if Makeable(env, blobs, host.me, inode) {
      RawKind(env, blobs, host.me, p, inode);
    }
    if inode.mode.Lnk? && (LinkTarget(inode.meta).None? || LinkTarget(inode.meta).value == []) {
      return Err(ENOENT);
    }
    if !MayMake(host.me, FormOf(inode.mode).value) {
      return Err(EPERM);
    }
    r := host.Make(p, Raw(env, blobs, host.me, p, inode));
  }

  lemma AttributeStep(was: Disk, p: Path, xs: seq<Xattr>, disk: Disk)
    requires was.Sound() && was.Has(p) && xs != [] && disk == was.Update(p, Tagged(was.At(p), Init(xs)))
    ensures disk.Has(p) && disk.Update(p, Tagged(disk.At(p), [Last(xs)])) == was.Update(p, Tagged(was.At(p), xs))
  {
    TaggedKind(was.At(p), Init(xs));
    assert disk.At(p) == Tagged(was.At(p), Init(xs));
    TaggedSnoc(was.At(p), xs);
    UpdateTwice(was, p, disk.At(p), Tagged(was.At(p), xs));
  }

  method SetAttributes(host: Host, p: Path, form: Form, xs: seq<Xattr>) returns (r: Result<()>)
    requires host.Valid() && host.dir <= p && host.disk.Has(p)
    modifies host
    ensures host.Valid() && host.log == old(host.log) && (r.Ok? <==> AllAccepted(host.me, form, xs))
    ensures r.Ok? ==> host.disk == old(host.disk).Update(p, Tagged(old(host.disk).At(p), xs))
  {
    ghost var was := host.disk;
    TakeAll(xs);
    UpdateSame(was, p);
    for k := 0 to |xs|
      invariant host.Valid() && host.log == old(host.log) && AllAccepted(host.me, form, xs[..k])
      invariant host.disk == was.Update(p, Tagged(was.At(p), xs[..k]))
    {
      TakeMore(xs, k);
      AttributeStep(was, p, xs[..k + 1], host.disk);
      var done := host.SetAttribute(p, form, xs[k]);
      if done.Err? {
        if AllAccepted(host.me, form, xs) {
          AcceptedPrefix(host.me, form, xs, k + 1);
        }
        return Err(done.error);
      }
    }
    return Ok(());
  }

  /** Where a link that has just been made leads. */
  ghost function Landing(disk: Disk, p: Path): Option<Path> {
    Follow(disk.View(), p)
  }

  /** Sets attributes, permissions and owner.  Changing the owner of a link changes that of what it leads to. */
  method Dress(host: Host, p: Path, inode: Inode) returns (r: Result<()>)
    requires host.Valid() && host.dir <= p && host.disk.Has(p) && FormOf(inode.mode).Some?
    requires host.disk.IsLink(p) <==> inode.mode.Lnk?
    modifies host
    ensures host.Valid() && (r.Err? ==> host.log == old(host.log))
    ensures r.Ok? <==>
              && AllAccepted(host.me, FormOf(inode.mode).value, Xattrs(inode.meta))
              && (!inode.mode.Lnk? ==> host.me.privileged || old(host.disk).At(p).meta.uid == host.me.uid)
              && (inode.mode.Lnk? && host.me.privileged ==> Landing(old(host.disk), p).Some?)
    ensures r.Ok? && !(inode.mode.Lnk? && host.me.privileged) ==>
              host.log == old(host.log) && host.disk == old(host.disk).Update(p, Settled(host.me, old(host.disk).At(p), inode))
    ensures r.Ok? && inode.mode.Lnk? && host.me.privileged ==>
              var q, dressed := Landing(old(host.disk), p).value, old(host.disk).Update(p, Settled(host.me, old(host.disk).At(p), inode));
              && dressed.Has(q) && host.log == old(host.log) + [Hit(q, OwnerOf(inode))]
              && host.disk == dressed.Update(q, Chowned(dressed.At(q), OwnerOf(inode)))
  {
    ghost var was, n := host.disk, host.disk.At(p);
    r := SetAttributes(host, p, FormOf(inode.mode).value, Xattrs(inode.meta));
    if r.Err? {
      return;
    }
    TaggedKind(n, Xattrs(inode.meta));
    ViewUpdate(was, p, Tagged(n, Xattrs(inode.meta)));
    assert host.disk.At(p) == Tagged(n, Xattrs(inode.meta));
    assert Landing(host.disk, p) == Landing(was, p);
    if !inode.mode.Lnk? {
      UpdateTwice(was, p, Tagged(n, Xattrs(inode.meta)), Settled(host.me, n, inode));
      r := SetModeAndOwner(host, p, inode);
    } else if host.me.privileged {
      r := host.Chown(p, OwnerOf(inode));
    }
  }

  /** Permissions first, then the owner. */
  method SetModeAndOwner(host: Host, p: Path, inode: Inode) returns (r: Result<()>)
    requires host.Valid() && host.dir <= p && host.disk.Has(p) && !host.disk.IsLink(p)
    modifies host
    ensures host.Valid() && host.log == old(host.log)
    ensures r.Ok? <==> host.me.privileged || old(host.disk).At(p).meta.uid == host.me.uid
    ensures r.Ok? ==>
              var moded := Chmodded(host.me, old(host.disk).At(p), inode.meta.permissions);
              host.disk == old(host.disk).Update(p, if host.me.privileged then Chowned(moded, OwnerOf(inode)) else moded)
  {
    ghost var was := host.disk;
    r := host.Chmod(p, inode.meta.permissions);
    if r.Ok? && host.me.privileged {
      ghost var moded := Chmodded(host.me, was.At(p), inode.meta.permissions);
      assert host.disk.At(p) == moded;
      UpdateTwice(was, p, moded, Chowned(moded, OwnerOf(inode)));
      r := host.Chown(p, OwnerOf(inode));
    }
  }

  /** Where the link made at p for the inode will lead. */
  ghost function LandingOf(disk: Disk, p: Path, i: Inode): Option<Path> {
    Follow(disk.View()[p := InodeKind(i)], p)
  }

  /** The disk with a node added, and an owner changed through it if it is a link and the user privileged. */
  ghost predicate Made(me: User, disk: Disk, log: seq<Hit>, p: Path, i: Inode, n: HNode, disk': Disk, log': seq<Hit>) {
    var dressed := disk.Add(p, n);
    if i.mode.Lnk? && me.privileged then
      && LandingOf(disk, p, i).Some? && dressed.Has(LandingOf(disk, p, i).value)
      && var q := LandingOf(disk, p, i).value;
      disk' == dressed.Update(q, Chowned(dressed.At(q), OwnerOf(i))) && log' == log + [Hit(q, OwnerOf(i))]
    else disk' == dressed && log' == log
  }

  lemma RawView(env: Env, blobs: Blobs, me: User, disk: Disk, p: Path, i: Inode)
    requires disk.Sound() && p !in disk.names && Makeable(env, blobs, me, i)
    ensures i.mode.Lnk? ==> Landing(disk.Add(p, Raw(env, blobs, me, p, i)), p) == LandingOf(disk, p, i)
    ensures disk.Add(p, Raw(env, blobs, me, p, i)).At(p).meta.uid == me.uid
    ensures Settled(me, disk.Add(p, Raw(env, blobs, me, p, i)).At(p), i) == Settled(me, Raw(env, blobs, me, p, i), i).(hino := disk.next)
  {
    ViewAdd(disk, p, Raw(env, blobs, me, p, i));
    RawKind(env, blobs, me, p, i);
    SettledIgnoresNumber(me, Raw(env, blobs, me, p, i), i, disk.next);
  }

  /** Makes the node for an inode met for the first time, with its metadata. */
  method MakeNode(env: Env, oci: Image, host: Host, p: Path, inode: Inode, size: nat) returns (r: Result<()>)
    requires host.Valid() && host.dir <= p && !host.disk.IsLink(p)
    requires size > 0
    modifies host
    ensures host.Valid() && (r.Err? ==> host.log == old(host.log))
    ensures p !in old(host.disk).names && NoShortFile(env, oci.blobs, inode) ==>
              && (r.Ok? <==>
                    && Extractable(env, oci.blobs, host.me, inode) && old(host.disk).Vacant(host.me, p)
                    && (inode.mode.Lnk? && host.me.privileged ==> LandingOf(old(host.disk), p, inode).Some?))
              && (r.Ok? ==>
                    Made(host.me, old(host.disk), old(host.log), p, inode,
                         Settled(host.me, Raw(env, oci.blobs, host.me, p, inode), inode), host.disk, host.log))
    ensures old(host.disk).IsDir(p) ==>
              && (r.Ok? <==>
                    && inode.mode.Dir? && AllAccepted(host.me, FolderForm, Xattrs(inode.meta))
                    && (host.me.privileged || old(host.disk).At(p).meta.uid == host.me.uid))
              && (r.Ok? ==>
                    && host.disk == old(host.disk).Update(p, Settled(host.me, old(host.disk).At(p), inode))
                    && host.log == old(host.log))
  {
    ghost var was := host.disk;
    r := CreateNode(env, oci, host, p, inode, size);
    if r.Err? {
      return;
    }
    if p !in was.names && NoShortFile(env, oci.blobs, inode) {
      RawView(env, oci.blobs, host.me, was, p, inode);
      AddThenUpdate(was, p, Raw(env, oci.blobs, host.me, p, inode), Settled(host.me, host.disk.At(p), inode));
    } else if was.IsDir(p) {
      assert FormOf(inode.mode) == Some(FolderForm) && host.disk == was;
    }
    r := Dress(host, p, inode);
  }
}
