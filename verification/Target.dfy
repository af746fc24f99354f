/** The file system an image is extracted into: what the calls of an extractor do to it, and to whom it lets them be. */
module Target {
  import opened Types
  import opened Seqs
  import opened HostTree
  import opened Resolution
  import opened Links

  // Users, permissions and ownership.

  datatype Form = FolderForm | FileForm | OtherForm(kind: OtherKind)

  /**
   * Who extracts, and what the host decides for them: the group it gives a node made at a path, and
   * the extended attributes it accepts on a node of a form.
   */
  datatype User = User(privileged: bool, uid: nat, groups: set<nat>, group: Path -> nat, accepts: (Form, Xattr) -> bool)

  datatype Owner = Owner(uid: nat, gid: nat)

  const SUID: Permissions := 2048
  const SGID: Permissions := 1024
  const GROUP_WRITE: Permissions := 16
  const GROUP_EXEC: Permissions := 8
  const OTHER_WRITE: Permissions := 2
  const OTHER_EXEC: Permissions := 1
  const LINK_PERMISSIONS: Permissions := 511

  /** The attribute "security.capability", which a change of owner removes. */
  const CAPABILITY: Bytes := [115, 101, 99, 117, 114, 105, 116, 121, 46, 99, 97, 112, 97, 98, 105, 108, 105, 116, 121]

  function Without(permissions: Permissions, bit: Permissions): Permissions {
    permissions & !bit
  }

  /** A change of owner drops set-user-ID, and set-group-ID where the group may execute. */
  function Cleared(permissions: Permissions): Permissions {
    var p := Without(permissions, SUID);
    if HasBit(p, GROUP_EXEC) then Without(p, SGID) else p
  }

  /** Nothing more is dropped the second time. */
  lemma ClearedTwice(permissions: Permissions)
    ensures Cleared(Cleared(permissions)) == Cleared(permissions)
  {
  }

  lemma WithoutSgidKeeps(permissions: Permissions)
    ensures OwnerMayUse(Without(permissions, SGID)) == OwnerMayUse(permissions)
  {
  }

  predicate Granted(me: User, m: Meta, owner: Permissions, group: Permissions, other: Permissions) {
    || me.privileged
    || if m.uid == me.uid then HasBit(m.permissions, owner)
       else if m.gid in me.groups then HasBit(m.permissions, group)
       else HasBit(m.permissions, other)
  }

  predicate MaySearch(me: User, m: Meta) {
    Granted(me, m, OWNER_EXEC, GROUP_EXEC, OTHER_EXEC)
  }

  predicate MayAddTo(me: User, m: Meta) {
    MaySearch(me, m) && Granted(me, m, OWNER_WRITE, GROUP_WRITE, OTHER_WRITE)
  }

  /** The octal digit of the permissions that applies to the user: owner, group or others. */
  function DigitFor(me: User, m: Meta): Permissions {
    if m.uid == me.uid then (m.permissions >> 6) & 7
    else if m.gid in me.groups then (m.permissions >> 3) & 7
    else m.permissions & 7
  }

  /** A directory can be searched with the bit 1 of the digit and added to with the bits 1 and 2. */
  lemma MayByDigit(me: User, m: Meta)
    ensures MaySearch(me, m) <==> me.privileged || DigitFor(me, m) & 1 == 1
    ensures MayAddTo(me, m) <==> me.privileged || DigitFor(me, m) & 3 == 3
    ensures OwnerMayUse(m.permissions) <==> (m.permissions >> 6) & 3 == 3
  {
  }

  /** A change of owner leaves 01777, and where the group may not execute 03777. */
  lemma ClearedExactly(permissions: Permissions)
    ensures Cleared(permissions) == permissions & if (permissions >> 3) & 1 == 1 then 0x3ff else 0x7ff
  {
  }

  function Xattrs(m: Meta): seq<Xattr> {
    if m.additional.Some? then m.additional.value.xattrs else []
  }

  function Extras(xattrs: seq<Xattr>, target: Option<Bytes>): Option<Additional> {
    if xattrs == [] && target == None then None else Some(Additional(xattrs, target))
  }

  function Stripped(xs: seq<Xattr>): (r: seq<Xattr>)
    ensures forall x :: x in r <==> x in xs && x.key != CAPABILITY
  {
    if xs == [] then [] else
    assert forall x :: x in xs <==> x in Init(xs) || x == Last(xs);
    if Last(xs).key == CAPABILITY then Stripped(Init(xs)) else Stripped(Init(xs)) + [Last(xs)]
  }

  lemma {:induction false} StrippedAlready(xs: seq<Xattr>)
    requires forall x | x in xs :: x.key != CAPABILITY
    ensures Stripped(xs) == xs
  {
    if xs != [] {
      assert Last(xs) in xs && forall x | x in Init(xs) :: x in xs;
      StrippedAlready(Init(xs));
      Rejoin(xs);
    }
  }

  lemma {:induction false} StrippedIff(xs: seq<Xattr>)
    ensures Stripped(xs) == xs <==> forall x | x in xs :: x.key != CAPABILITY
  {
    if forall x | x in xs :: x.key != CAPABILITY {
      StrippedAlready(xs);
    } else {
      var x :| x in xs && x.key == CAPABILITY;
      assert x !in Stripped(xs);
    }
  }

  /** The node has something that a change of owner takes away. */
  ghost predicate Marked(n: HNode) {
    !n.HDir? &&
      (|| HasBit(n.meta.permissions, SUID)
       || (HasBit(n.meta.permissions, SGID) && HasBit(n.meta.permissions, GROUP_EXEC))
       || exists x :: x in Xattrs(n.meta) && x.key == CAPABILITY)
  }

  lemma ClearedIff(permissions: Permissions)
    ensures Cleared(permissions) == permissions <==>
            !HasBit(permissions, SUID) && !(HasBit(permissions, SGID) && HasBit(permissions, GROUP_EXEC))
  {
  }

  lemma MarkedIff(n: HNode)
    ensures !Marked(n) <==> n.HDir? || (Cleared(n.meta.permissions) == n.meta.permissions && Stripped(Xattrs(n.meta)) == Xattrs(n.meta))
  {
    ClearedIff(n.meta.permissions);
    StrippedIff(Xattrs(n.meta));
  }

  function Chowned(n: HNode, o: Owner): HNode {
    var m := n.meta.(uid := o.uid, gid := o.gid);
    n.(meta :=
      if n.HDir? then m
      else m.(permissions := Cleared(m.permissions), additional := Extras(Stripped(Xattrs(m)), LinkTarget(m))))
  }

  /** Of several changes of owner the last one counts. */
  lemma ChownedTwice(n: HNode, a: Owner, b: Owner)
    ensures Chowned(Chowned(n, a), b) == Chowned(n, b)
  {
    ClearedTwice(n.meta.permissions);
    StrippedAlready(Stripped(Xattrs(n.meta)));
  }

  lemma ChownedKind(n: HNode, o: Owner)
    ensures KindOf(Chowned(n, o)) == KindOf(n) && Chowned(n, o).hino == n.hino
  {
  }

  /** Without privileges set-group-ID is only kept for one's own groups. */
  function Chmodded(me: User, n: HNode, permissions: Permissions): HNode {
    n.(meta := n.meta.(permissions :=
      if me.privileged || n.meta.gid in me.groups then permissions else Without(permissions, SGID)))
  }

  function SetXattr(xs: seq<Xattr>, x: Xattr): seq<Xattr> {
    if xs == [] then [x]
    else if xs[0].key == x.key then [x] + xs[1..]
    else [xs[0]] + SetXattr(xs[1..], x)
  }

  function SetXattrs(xs: seq<Xattr>, ys: seq<Xattr>): seq<Xattr> {
    if ys == [] then xs else SetXattr(SetXattrs(xs, Init(ys)), Last(ys))
  }

  /** The value that is read for a key. */
  function ValueOf(xs: seq<Xattr>, key: Bytes): Option<Bytes> {
    if xs == [] then None else if xs[0].key == key then Some(xs[0].val) else ValueOf(xs[1..], key)
  }

  lemma {:induction false} SetXattrSets(xs: seq<Xattr>, x: Xattr, key: Bytes)
    ensures ValueOf(SetXattr(xs, x), key) == if key == x.key then Some(x.val) else ValueOf(xs, key)
  {
    if xs != [] && xs[0].key != x.key {
      SetXattrSets(xs[1..], x, key);
      assert ([xs[0]] + SetXattr(xs[1..], x))[1..] == SetXattr(xs[1..], x);
    } else if xs != [] {
      assert ([x] + xs[1..])[1..] == xs[1..];
    }
  }

  /** Of the attributes set the last one of a key counts; other keys keep the value they had. */
  lemma {:induction false} SetXattrsSet(xs: seq<Xattr>, ys: seq<Xattr>, key: Bytes, k: nat)
    requires k < |ys| ==> ys[k].key == key
    requires forall j | k < j < |ys| :: ys[j].key != key
    requires k >= |ys| ==> forall y | y in ys :: y.key != key
    ensures ValueOf(SetXattrs(xs, ys), key) == if k < |ys| then Some(ys[k].val) else ValueOf(xs, key)
    decreases |ys|
  {
    if ys != [] {
      SetXattrSets(SetXattrs(xs, Init(ys)), Last(ys), key);
      if Last(ys).key != key {
        assert forall y | y in Init(ys) :: y in ys;
        SetXattrsSet(xs, Init(ys), key, k);
      }
    }
  }

  function Tagged(n: HNode, xs: seq<Xattr>): HNode {
    if xs == [] then n else
    n.(meta := n.meta.(additional := Extras(SetXattrs(Xattrs(n.meta), xs), LinkTarget(n.meta))))
  }

  predicate IsLinkNode(n: HNode) {
    n.HOther? && n.kind.LnkKind?
  }

  // The disk.

  /** A file system at one moment: a name table over inodes, so that hard links share one inode. */
  datatype Disk = Disk(names: map<Path, HostIno>, nodes: map<HostIno, HNode>, next: HostIno) {
    ghost predicate Sound() {
      && (forall p | p in names :: names[p] in nodes)
      && (forall h | h in nodes :: h < next && nodes[h].hino == h)
    }

    predicate Has(p: Path) {
      p in names && names[p] in nodes
    }

    function At(p: Path): HNode
      requires Has(p)
    {
      nodes[names[p]]
    }

    predicate IsDir(p: Path) {
      Has(p) && At(p).HDir?
    }

    predicate IsLink(p: Path) {
      Has(p) && IsLinkNode(At(p))
    }

    predicate IsFile(p: Path) {
      Has(p) && At(p).HFile?
    }

    /** A node can be made at the path: nothing is there and its parent is a directory one may add to. */
    predicate Vacant(me: User, p: Path) {
      p != [] && p !in names && IsDir(Init(p)) && MayAddTo(me, At(Init(p)).meta)
    }

    function Add(p: Path, node: HNode): Disk {
      Disk(names[p := next], nodes[next := node.(hino := next)], next + 1)
    }

    function Update(p: Path, node: HNode): Disk
      requires p in names
    {
      Disk(names, nodes[names[p] := node.(hino := names[p])], next)
    }

    function Link(from: Path, p: Path): Disk
      requires from in names
    {
      Disk(names[p := names[from]], nodes, next)
    }

    function View(): (scene: Scene)
      ensures forall p :: p in scene <==> Has(p)
      ensures forall p | p in scene :: scene[p] == KindOf(At(p))
    {
      map p | p in names && names[p] in nodes :: KindOf(nodes[names[p]])
    }
  }

  lemma AddThenUpdate(disk: Disk, p: Path, a: HNode, b: HNode)
    ensures disk.Add(p, a).Update(p, b) == disk.Add(p, b)
  {
  }

  lemma UpdateTwice(disk: Disk, p: Path, a: HNode, b: HNode)
    requires p in disk.names
    ensures disk.Update(p, a).Update(p, b) == disk.Update(p, b)
  {
  }

  lemma UpdateSame(disk: Disk, p: Path)
    requires disk.Sound() && disk.Has(p)
    ensures disk.Update(p, disk.At(p)) == disk
  {
    assert disk.nodes[disk.names[p] := disk.At(p)] == disk.nodes;
  }

  lemma KindIgnoresNumber(n: HNode, h: HostIno)
    ensures KindOf(n.(hino := h)) == KindOf(n)
  {
  }

  lemma ViewAdd(disk: Disk, p: Path, n: HNode)
    requires disk.Sound() && p !in disk.names
    ensures disk.Add(p, n).View() == disk.View()[p := KindOf(n)]
  {
    KindIgnoresNumber(n, disk.next);
  }

  lemma ViewLink(disk: Disk, from: Path, p: Path)
    requires disk.Has(from)
    ensures disk.Link(from, p).View() == disk.View()[p := KindOf(disk.At(from))]
  {
  }

  lemma ViewUpdate(disk: Disk, p: Path, n: HNode)
    requires disk.Has(p) && KindOf(n) == KindOf(disk.At(p))
    ensures disk.Update(p, n).View() == disk.View()
  {
    KindIgnoresNumber(n, disk.names[p]);
  }

  // Following a link to change an owner.

  /** A change of owner that was made through a symbolic link. */
  datatype Hit = Hit(path: Path, owner: Owner)

  /** The owner an inode was last given through a link. */
  function LastOn(log: seq<Hit>, names: map<Path, HostIno>, h: HostIno): Option<Owner> {
    if log == [] then None
    else if Last(log).path in names && names[Last(log).path] == h then Some(Last(log).owner)
    else LastOn(Init(log), names, h)
  }

  /** What is left of a node after the changes of owner that reached it through links. */
  function Worn(log: seq<Hit>, names: map<Path, HostIno>, h: HostIno, n: HNode): HNode {
    match LastOn(log, names, h)
    case Some(o) => Chowned(n, o)
    case None => n
  }

  ghost predicate Logged(log: seq<Hit>, names: map<Path, HostIno>) {
    forall k | 0 <= k < |log| :: log[k].path in names
  }

  lemma {:induction false} LastOnStable(log: seq<Hit>, names: map<Path, HostIno>, more: map<Path, HostIno>, h: HostIno)
    requires Logged(log, names) && forall p | p in names :: p in more && more[p] == names[p]
    ensures LastOn(log, more, h) == LastOn(log, names, h)
  {
    if log != [] {
      LastOnStable(Init(log), names, more, h);
    }
  }

  lemma WornMore(log: seq<Hit>, names: map<Path, HostIno>, hit: Hit, h: HostIno, n: HNode)
    requires hit.path in names
    ensures Worn(log + [hit], names, h, n) ==
            if names[hit.path] == h then Chowned(Worn(log, names, h, n), hit.owner) else Worn(log, names, h, n)
  {
    assert Init(log + [hit]) == log && Last(log + [hit]) == hit;
    match LastOn(log, names, h)
    case Some(o) => ChownedTwice(n, o, hit.owner);
    case None =>
  }

  /**
   * Compared with before, everything outside dir is there under the same names, changed at most by
   * owner through the logged links, and everything below dir is new.
   */
  ghost predicate ConfinedBut(before: Disk, dir: Path, now: Disk, log: seq<Hit>) {
    && before.IsDir(dir) && now.IsDir(dir) && now.names[dir] == before.names[dir] && before.next <= now.next
    && Logged(log, now.names)
    && (forall q | !(dir <= q) :: q in now.names <==> q in before.names)
    && (forall q | !(dir <= q) && q in now.names :: now.names[q] == before.names[q])
    && (forall q | q in now.names && dir < q :: before.next <= now.names[q])
    && (forall h | h in before.nodes && h != before.names[dir] ::
          h in now.nodes && now.nodes[h] == Worn(log, now.names, h, before.nodes[h]))
  }

  /** The directory has one name, as directories do. */
  ghost predicate OneName(disk: Disk, dir: Path) {
    dir in disk.names && forall q | q in disk.names && disk.names[q] == disk.names[dir] :: q == dir
  }

  lemma StillOneName(before: Disk, dir: Path, now: Disk, log: seq<Hit>)
    requires before.Sound() && ConfinedBut(before, dir, now, log) && OneName(before, dir)
    ensures OneName(now, dir)
  {
    forall q | q in now.names && now.names[q] == now.names[dir] ensures q == dir {
      if dir <= q && q != dir {
        ProperlyUnder(dir, q);
      }
    }
  }

  /** Everything outside dir is as before. */
  ghost predicate Confined(before: Disk, dir: Path, now: Disk) {
    ConfinedBut(before, dir, now, [])
  }

  lemma WornStable(log: seq<Hit>, names: map<Path, HostIno>, more: map<Path, HostIno>)
    requires Logged(log, names) && forall p | p in names :: p in more && more[p] == names[p]
    ensures Logged(log, more) && forall h, n :: Worn(log, more, h, n) == Worn(log, names, h, n)
  {
    forall h, n ensures Worn(log, more, h, n) == Worn(log, names, h, n) {
      LastOnStable(log, names, more, h);
    }
  }

  lemma ConfinedAdd(before: Disk, dir: Path, now: Disk, log: seq<Hit>, p: Path, node: HNode)
    requires before.Sound() && ConfinedBut(before, dir, now, log) && dir <= p && p !in now.names
    ensures ConfinedBut(before, dir, now.Add(p, node), log)
  {
    WornStable(log, now.names, now.Add(p, node).names);
  }

  lemma ProperlyUnder(dir: Path, p: Path)
    requires dir <= p && p != dir
    ensures dir < p
  {
    assert p[..|dir|] == dir;
  }

  lemma ConfinedUpdate(before: Disk, dir: Path, now: Disk, log: seq<Hit>, p: Path, node: HNode)
    requires before.Sound() && ConfinedBut(before, dir, now, log) && dir <= p && p in now.names && (p == dir ==> node.HDir?)
    ensures ConfinedBut(before, dir, now.Update(p, node), log)
  {
    if p != dir {
      ProperlyUnder(dir, p);
      assert before.next <= now.names[p];
    }
  }

  lemma ConfinedLink(before: Disk, dir: Path, now: Disk, log: seq<Hit>, from: Path, p: Path)
    requires ConfinedBut(before, dir, now, log) && dir <= p && p !in now.names && dir < from && from in now.names
    ensures ConfinedBut(before, dir, now.Link(from, p), log)
  {
    WornStable(log, now.names, now.Link(from, p).names);
  }

  lemma ConfinedHit(before: Disk, dir: Path, now: Disk, log: seq<Hit>, hit: Hit)
    requires before.Sound() && now.Sound() && ConfinedBut(before, dir, now, log) && now.Has(hit.path)
    ensures ConfinedBut(before, dir, now.Update(hit.path, Chowned(now.At(hit.path), hit.owner)), log + [hit])
  {
    forall h | h in before.nodes ensures Worn(log + [hit], now.names, h, before.nodes[h]) ==
      if now.names[hit.path] == h then Chowned(Worn(log, now.names, h, before.nodes[h]), hit.owner) else Worn(log, now.names, h, before.nodes[h])
    {
      WornMore(log, now.names, hit, h, before.nodes[h]);
    }
  }

  /** The host while an image is extracted into dir. */
  class Host {
    const dir: Path
    const me: User
    ghost const before: Disk
    var disk: Disk
    ghost var log: seq<Hit>

    ghost predicate Valid() reads this {
      && before.Sound() && disk.Sound() && OneName(before, dir) && ConfinedBut(before, dir, disk, log)
      && (!me.privileged ==> log == [])
    }

    constructor (dir: Path, disk: Disk, me: User)
      requires disk.Sound() && disk.IsDir(dir) && OneName(disk, dir) && forall q | q in disk.names && dir <= q :: q == dir
      ensures Valid() && this.dir == dir && this.disk == disk && this.me == me && before == disk && log == []
    {
      this.dir, this.disk, this.me, this.before, this.log := dir, disk, me, disk, [];
    }

    /** Stat without following a link: the node, nothing there, or another problem. */
    function Stat(p: Path): Result<Option<HNode>>
      requires p != []
      reads this
    {
      if disk.IsDir(Init(p)) && !MaySearch(me, disk.At(Init(p)).meta) then Err(EACCES)
      else if disk.Has(p) then Ok(Some(disk.At(p)))
      else if Init(p) in disk.names && !disk.IsDir(Init(p)) then Err(ENOTDIR)
      else Ok(None)
    }

    /** Makes a new node, as mknod, mkfifo, symlink and mkdir do. */
    method Make(p: Path, node: HNode) returns (r: Result<()>)
      requires Valid() && dir <= p
      modifies this
      ensures Valid() && log == old(log) && (r.Ok? <==> old(disk).Vacant(me, p))
      ensures disk == if r.Ok? then old(disk).Add(p, node) else old(disk)
    {
      if p in disk.names {
        return Err(AlreadyExists);
      }
      if p == [] || !disk.IsDir(Init(p)) {
        return Err(ENOENT);
      }
      if !MayAddTo(me, disk.At(Init(p)).meta) {
        return Err(EACCES);
      }
      ConfinedAdd(before, dir, disk, log, p, node);
      disk := disk.Add(p, node);
      return Ok(());
    }

    /** Creates a regular file, or empties the one that is there. */
    method CreateFile(p: Path, meta: Meta) returns (r: Result<()>)
      requires Valid() && dir <= p && !disk.IsLink(p)
      modifies this
      ensures Valid() && log == old(log) && (r.Ok? ==> disk.IsFile(p))
      ensures !old(disk).IsFile(p) ==>
                && (r.Ok? <==> old(disk).Vacant(me, p))
                && disk == if r.Ok? then old(disk).Add(p, HFile(0, meta, [])) else old(disk)
    {
      if disk.IsFile(p) {
        if Granted(me, disk.At(p).meta, OWNER_WRITE, GROUP_WRITE, OTHER_WRITE) {
          ConfinedUpdate(before, dir, disk, log, p, disk.At(p).(content := []));
          disk := disk.Update(p, disk.At(p).(content := []));
          return Ok(());
        }
        return Err(EACCES);
      }
      r := Make(p, HFile(0, meta, []));
    }

    /** A directory that is there is fine. */
    method CreateDir(p: Path, meta: Meta) returns (r: Result<()>)
      requires Valid() && dir <= p
      modifies this
      ensures Valid() && log == old(log) && (r.Ok? <==> old(disk).Vacant(me, p) || old(disk).IsDir(p))
      ensures disk == if old(disk).Vacant(me, p) then old(disk).Add(p, HDir(0, meta)) else old(disk)
    {
      if disk.IsDir(p) {
        return Ok(());
      }
      r := Make(p, HDir(0, meta));
    }

    /** Directories cannot be linked, and an existing name is not replaced. */
    method HardLink(from: Path, p: Path) returns (r: Result<()>)
      requires Valid() && dir <= p && dir <= from
      modifies this
      ensures Valid() && log == old(log)
      ensures r.Ok? <==> from in old(disk).names && !old(disk).IsDir(from) && old(disk).Vacant(me, p)
      ensures disk == if r.Ok? then old(disk).Link(from, p) else old(disk)
    {
      if from !in disk.names {
        return Err(ENOENT);
      }
      if disk.IsDir(from) || p in disk.names {
        return Err(AlreadyExists);
      }
      if p == [] || !disk.IsDir(Init(p)) {
        return Err(ENOENT);
      }
      if !MayAddTo(me, disk.At(Init(p)).meta) {
        return Err(EACCES);
      }
      ProperlyUnder(dir, from);
      ConfinedLink(before, dir, disk, log, from, p);
      disk := disk.Link(from, p);
      return Ok(());
    }

    method Write(p: Path, data: Bytes)
      requires Valid() && dir <= p && disk.IsFile(p)
      modifies this
      ensures Valid() && log == old(log) && disk == old(disk).Update(p, old(disk).At(p).(content := data))
    {
      ConfinedUpdate(before, dir, disk, log, p, disk.At(p).(content := data));
      disk := disk.Update(p, disk.At(p).(content := data));
    }

    /** Sets an extended attribute on the node itself, link or not, if the host accepts it. */
    method SetAttribute(p: Path, form: Form, x: Xattr) returns (r: Result<()>)
      requires Valid() && dir <= p && disk.Has(p)
      modifies this
      ensures Valid() && log == old(log) && (r.Ok? <==> me.accepts(form, x))
      ensures disk == if r.Ok? then old(disk).Update(p, Tagged(old(disk).At(p), [x])) else old(disk)
    {
      if !me.accepts(form, x) {
        return Err(EPERM);
      }
      ConfinedUpdate(before, dir, disk, log, p, Tagged(disk.At(p), [x]));
      disk := disk.Update(p, Tagged(disk.At(p), [x]));
      return Ok(());
    }

    /** Only the owner and a privileged user may change permissions. */
    method Chmod(p: Path, permissions: Permissions) returns (r: Result<()>)
      requires Valid() && dir <= p && disk.Has(p)
      modifies this
      ensures Valid() && log == old(log) && (r.Ok? <==> me.privileged || old(disk).At(p).meta.uid == me.uid)
      ensures disk == if r.Ok? then old(disk).Update(p, Chmodded(me, old(disk).At(p), permissions)) else old(disk)
    {
      if !me.privileged && disk.At(p).meta.uid != me.uid {
        return Err(EPERM);
      }
      ConfinedUpdate(before, dir, disk, log, p, Chmodded(me, disk.At(p), permissions));
      disk := disk.Update(p, Chmodded(me, disk.At(p), permissions));
      return Ok(());
    }

    /** Changes the owner of what the path leads to, which for a link is not the link; an error if it leads nowhere. */
    method Chown(p: Path, o: Owner) returns (r: Result<()>)
      requires Valid() && me.privileged && dir <= p && disk.Has(p)
      modifies this
      ensures Valid() && (r.Ok? <==> !old(disk).IsLink(p) || Follow(old(disk).View(), p).Some?)
      ensures r.Err? ==> disk == old(disk) && log == old(log)
      ensures !old(disk).IsLink(p) ==> log == old(log) && disk == old(disk).Update(p, Chowned(old(disk).At(p), o))
      ensures old(disk).IsLink(p) && r.Ok? ==>
                var q := Follow(old(disk).View(), p).value;
                log == old(log) + [Hit(q, o)] && disk == old(disk).Update(q, Chowned(old(disk).At(q), o))
    {
      if !disk.IsLink(p) {
        ConfinedUpdate(before, dir, disk, log, p, Chowned(disk.At(p), o));
        disk := disk.Update(p, Chowned(disk.At(p), o));
        return Ok(());
      }
      match Follow(disk.View(), p) {
        case None => return Err(ENOENT);
        case Some(q) =>
          ConfinedHit(before, dir, disk, log, Hit(q, o));
          disk := disk.Update(q, Chowned(disk.At(q), o));
          log := log + [Hit(q, o)];
          return Ok(());
      }
    }
  }

  // The path an entry is extracted to.

  /** How far below the start the components lead. */
  function Depth(cs: seq<Component>): int {
    if cs == [] then 0
    else Depth(Init(cs)) + (if Last(cs).Normal? then 1 else if Last(cs).ParentDir? then -1 else 0)
  }

  ghost predicate Escapes(cs: seq<Component>) {
    exists k :: 0 <= k <= |cs| && Depth(cs[..k]) < 0
  }

  ghost predicate Between(dir: Path, p: Path, q: Path) {
    dir < q <= p
  }

  ghost predicate NoLinkAt(disk: Disk, q: Path) {
    disk.Has(q) && !disk.IsLink(q)
  }

  /** The path lies under dir and every name below dir on the way exists and is no symbolic link. */
  ghost predicate Reached(disk: Disk, dir: Path, p: Path) {
    dir <= p && forall q {:trigger Between(dir, p, q)} | Between(dir, p, q) :: NoLinkAt(disk, q)
  }

  lemma ReachedMore(disk: Disk, dir: Path, p: Path, name: Name)
    requires Reached(disk, dir, p) && NoLinkAt(disk, p + [name])
    ensures Reached(disk, dir, p + [name])
  {
    forall q | Between(dir, p + [name], q) ensures NoLinkAt(disk, q) {
      if q != p + [name] {
        assert Between(dir, p, q);
      }
    }
  }

  lemma ReachedLess(disk: Disk, dir: Path, p: Path)
    requires Reached(disk, dir, p) && |dir| < |p|
    ensures Reached(disk, dir, Init(p)) && !disk.IsLink(p)
  {
    assert Between(dir, p, p);
    forall q | Between(dir, Init(p), q) ensures NoLinkAt(disk, q) {
      assert Between(dir, p, q);
    }
  }

  lemma DepthStep(cs: seq<Component>, k: nat)
    requires k < |cs|
    ensures Depth(cs[..k + 1]) == Depth(cs[..k]) + (if cs[k].Normal? then 1 else if cs[k].ParentDir? then -1 else 0)
  {
    TakeMore(cs, k);
  }

  ghost predicate DirAt(disk: Disk, dir: Path, p: Path, k: nat)
    requires k <= |p|
  {
    disk.IsDir(dir + p[..k])
  }

  /** All directories on the way to dir/p are there, and dir/p itself is not. */
  ghost predicate Ready(disk: Disk, dir: Path, p: Path) {
    && (forall k | 0 <= k < |p| :: DirAt(disk, dir, p, k))
    && (p != [] ==> dir + p !in disk.names)
  }

  ghost predicate SearchAt(me: User, disk: Disk, dir: Path, p: Path, k: nat)
    requires k <= |p|
  {
    disk.IsDir(dir + p[..k]) && MaySearch(me, disk.At(dir + p[..k]).meta)
  }

  /** And all of them may be searched. */
  ghost predicate Passable(me: User, disk: Disk, dir: Path, p: Path) {
    forall k | 0 <= k < |p| :: SearchAt(me, disk, dir, p, k)
  }

  lemma ReadyStep(host: Host, p: Path, k: nat)
    requires host.disk.Sound() && Ready(host.disk, host.dir, p) && k < |p|
    ensures var buf := host.dir + p[..k] + [p[k]];
            && buf == host.dir + p[..k + 1] && Init(buf) == host.dir + p[..k] && host.disk.IsDir(Init(buf))
            && (if !SearchAt(host.me, host.disk, host.dir, p, k) then host.Stat(buf).Err?
                else if k + 1 == |p| then buf == host.dir + p && host.Stat(buf) == Ok(None)
                else host.disk.IsDir(buf) && host.Stat(buf) == Ok(Some(host.disk.At(buf))))
  {
    var buf, k' := host.dir + p[..k] + [p[k]], k + 1;
    assert buf == host.dir + p[..k'] && Init(buf) == host.dir + p[..k];
    assert DirAt(host.disk, host.dir, p, k);
    if k' == |p| {
      TakeAll(p);
    } else {
      assert DirAt(host.disk, host.dir, p, k');
    }
  }

  /** Where the first k components of an image path whose parents are there have led. */
  ghost predicate OnWay(host: Host, cs: seq<Component>, p: Path, k: nat, buf: Path)
    reads host
  {
    cs == Absolute(p) && Ready(host.disk, host.dir, p) ==>
      && Max(0, k - 1) <= |p| && buf == host.dir + p[..Max(0, k - 1)]
      && forall j | 0 <= j < k - 1 :: SearchAt(host.me, host.disk, host.dir, p, j)
  }

  lemma WayEnds(host: Host, cs: seq<Component>, p: Path, buf: Path)
    requires OnWay(host, cs, p, |cs|, buf) && cs == Absolute(p) && Ready(host.disk, host.dir, p)
    ensures Passable(host.me, host.disk, host.dir, p) && buf == host.dir + p
  {
    TakeAll(p);
    forall k | 0 <= k < |p| ensures SearchAt(host.me, host.disk, host.dir, p, k) {
    }
  }

  lemma WayStays(host: Host, cs: seq<Component>, p: Path, k: nat, buf: Path, buf': Path)
    requires OnWay(host, cs, p, k, buf) && k < |cs| && !cs[k].Normal?
    requires cs[k].RootDir? ==> buf' == buf
    ensures OnWay(host, cs, p, k + 1, buf')
  {
  }

  /** Where the components lead by name alone. */
  function Lexical(cs: seq<Component>): Path {
    if cs == [] then [] else
    var p := Lexical(Init(cs));
    match Last(cs)
    case Normal(name) => p + [name]
    case ParentDir => if p == [] then [] else Init(p)
    case _ => p
  }

  /** Component k leads on: a name that is there and is no link, or up from below dir. */
  predicate LeadsOn(host: Host, cs: seq<Component>, k: nat)
    requires k < |cs|
    reads host
  {
    match cs[k]
    case Normal(name) =>
      var there := host.Stat(host.dir + Lexical(cs[..k]) + [name]);
      there.Ok? && there.value.Some? && !IsLinkNode(there.value.value)
    case ParentDir => Lexical(cs[..k]) != []
    case _ => true
  }

  /** What comes of the path if component k does not lead on: only a name that is not there yet is fine. */
  function EndsAt(host: Host, cs: seq<Component>, k: nat): Result<Path>
    requires k < |cs|
    reads host
  {
    match cs[k]
    case Normal(name) =>
      var q := host.dir + Lexical(cs[..k]) + [name];
      (match host.Stat(q)
       case Ok(None) => Ok(q)
       case Ok(Some(_)) => Err(SymlinkPrefix)
       case Err(e) => Err(e))
    case _ => Err(Escape)
  }

  /** The first k components lead on. */
  ghost predicate LeadOn(host: Host, cs: seq<Component>, k: nat)
    requires k <= |cs|
    reads host
  {
    forall j | 0 <= j < k :: LeadsOn(host, cs, j)
  }

  /** Component k is the first that does not lead on. */
  ghost predicate FirstNot(host: Host, cs: seq<Component>, k: nat)
    requires k < |cs|
    reads host
  {
    LeadOn(host, cs, k) && !LeadsOn(host, cs, k)
  }

  /** As long as the components lead on they lead as far down as they go down. */
  lemma {:induction false} DepthOf(host: Host, cs: seq<Component>, k: nat)
    requires k <= |cs| && LeadOn(host, cs, k)
    ensures Depth(cs[..k]) == |Lexical(cs[..k])|
  {
    if k > 0 {
      DepthOf(host, cs, k - 1);
      assert LeadsOn(host, cs, k - 1);
      DepthStep(cs, k - 1);
      LexicalStep(cs, k - 1);
    }
  }

  lemma UpAndOut(host: Host, cs: seq<Component>, k: nat)
    requires k < |cs| && FirstNot(host, cs, k) && cs[k].ParentDir?
    ensures Escapes(cs)
  {
    DepthOf(host, cs, k);
    DepthStep(cs, k);
    assert Depth(cs[..k + 1]) < 0;
  }

  /** What the components come to: where they lead if all lead on, otherwise what the first that does not decides. */
  ghost predicate Decides(host: Host, cs: seq<Component>, r: Result<Path>)
    reads host
  {
    && (LeadOn(host, cs, |cs|) ==> r == Ok(host.dir + Lexical(cs)))
    && (forall k | 0 <= k < |cs| && FirstNot(host, cs, k) :: r == EndsAt(host, cs, k))
  }

  lemma EndDecides(host: Host, cs: seq<Component>, k: nat)
    requires k < |cs| && FirstNot(host, cs, k)
    ensures Decides(host, cs, EndsAt(host, cs, k))
  {
    forall j | 0 <= j < |cs| && FirstNot(host, cs, j) ensures j == k {
    }
  }

  lemma LexicalStep(cs: seq<Component>, k: nat)
    requires k < |cs|
    ensures Lexical(cs[..k + 1]) ==
            match cs[k]
            case Normal(name) => Lexical(cs[..k]) + [name]
            case ParentDir => if Lexical(cs[..k]) == [] then [] else Init(Lexical(cs[..k]))
            case _ => Lexical(cs[..k])
  {
    assert Init(cs[..k + 1]) == cs[..k] && Last(cs[..k + 1]) == cs[k];
  }

  /** The first k components have led on, to buf. */
  ghost predicate GotTo(host: Host, cs: seq<Component>, k: nat, buf: Path)
    requires k <= |cs|
    reads host
  {
    LeadOn(host, cs, k) && buf == host.dir + Lexical(cs[..k])
  }

  /** One component more. */
  lemma GetOn(host: Host, cs: seq<Component>, k: nat, buf: Path)
    requires k < |cs| && GotTo(host, cs, k, buf)
    ensures match cs[k]
            case Normal(name) => LeadsOn(host, cs, k) ==> GotTo(host, cs, k + 1, buf + [name])
            case ParentDir =>
              if |buf| <= |host.dir| then FirstNot(host, cs, k) && EndsAt(host, cs, k) == Err(Escape)
              else GotTo(host, cs, k + 1, Init(buf))
            case _ => GotTo(host, cs, k + 1, buf)
  {
    var p := Lexical(cs[..k]);
    LexicalStep(cs, k);
    if p != [] {
      InitAppend(host.dir, p);
    }
    match cs[k]
    case Normal(name) => assert host.dir + (p + [name]) == buf + [name];
    case _ =>
  }

  lemma PathDecides(host: Host, cs: seq<Component>, buf: Path)
    requires GotTo(host, cs, |cs|, buf)
    ensures Decides(host, cs, Ok(buf))
  {
    TakeAll(cs);
  }

  /** Goes down one name. */
  method Enter(host: Host, buf: Path, name: Name, cs: seq<Component>, ghost p: Path,
               ghost k: nat) returns (r: Result<Option<Path>>)
    requires host.disk.Sound() && k < |cs| && cs[k] == Normal(name)
    requires Reached(host.disk, host.dir, buf) && OnWay(host, cs, p, k, buf) && GotTo(host, cs, k, buf)
    ensures r.Ok? && r.value.Some? ==>
              r.value.value == buf + [name] && Reached(host.disk, host.dir, r.value.value) && OnWay(host, cs, p, k + 1, r.value.value)
    ensures r.Ok? && r.value.None? ==> buf + [name] !in host.disk.names
    ensures r != Err(Escape)
    ensures r.Ok? && r.value.Some? <==> LeadsOn(host, cs, k)
    ensures !LeadsOn(host, cs, k) ==> EndsAt(host, cs, k) == if r.Ok? then Ok(buf + [name]) else Err(r.error)
    ensures cs == Absolute(p) && Ready(host.disk, host.dir, p) ==>
              && k > 0 && (r.Err? <==> !SearchAt(host.me, host.disk, host.dir, p, k - 1))
              && (r.Ok? ==> (r.value.None? <==> k == |p|)) && (k == |p| ==> buf + [name] == host.dir + p)
              && (r.Ok? && k == |p| ==> Passable(host.me, host.disk, host.dir, p))
  {
    if cs == Absolute(p) && Ready(host.disk, host.dir, p) {
      ReadyStep(host, p, k - 1);
    }
    var next := buf + [name];
    assert Init(next) == buf;
    match host.Stat(next)
    case Ok(None) =>
      return Ok(None);
    case Ok(Some(md)) =>
      if IsLinkNode(md) {
        return Err(SymlinkPrefix);
      }
      ReachedMore(host.disk, host.dir, buf, name);
      return Ok(Some(next));
    case Err(e) =>
      return Err(e);
  }

  /**
   * Whatever the components, the result lies under the extract directory, reached through names that
   * exist and are no symbolic links, and is no symbolic link itself.  For an image path whose parents
   * have been extracted it is the extract directory joined with that path, unless a directory on the
   * way may not be searched.
   */
  method SafePath(host: Host, cs: seq<Component>, ghost p: Path) returns (r: Result<Path>)
    requires host.disk.Sound() && host.disk.IsDir(host.dir)
    ensures r.Ok? ==>
              && host.dir <= r.value && !host.disk.IsLink(r.value)
              && (r.value == host.dir || (|host.dir| < |r.value| && Reached(host.disk, host.dir, Init(r.value))))
    ensures r == Err(Escape) ==> Escapes(cs)
    ensures Decides(host, cs, r)
    ensures cs == Absolute(p) && Ready(host.disk, host.dir, p) ==>
              && (r.Ok? <==> Passable(host.me, host.disk, host.dir, p))
              && (r.Ok? ==> r.value == host.dir + p)
  {
    var buf := host.dir;
    var level := 1;
    for k := 0 to |cs|
      invariant level == |buf| - |host.dir| + 1
      invariant Reached(host.disk, host.dir, buf)
      invariant OnWay(host, cs, p, k, buf)
      invariant GotTo(host, cs, k, buf)
    {
      GetOn(host, cs, k, buf);
      if cs[k].Normal? {
        var next := Enter(host, buf, cs[k].name, cs, p, k);
        if next.Err? {
          EndDecides(host, cs, k);
          return Err(next.error);
        }
        if next.value.None? {
          EndDecides(host, cs, k);
          assert Init(buf + [cs[k].name]) == buf;
          return Ok(buf + [cs[k].name]);
        }
        buf := next.value.value;
        level := level + 1;
      } else if cs[k].ParentDir? {
        level := level - 1;
        if level <= 0 {
          EndDecides(host, cs, k);
          UpAndOut(host, cs, k);
          return Err(Escape);
        }
        ReachedLess(host.disk, host.dir, buf);
        WayStays(host, cs, p, k, buf, Init(buf));
        buf := Init(buf);
      } else {
        WayStays(host, cs, p, k, buf, buf);
      }
    }
    PathDecides(host, cs, buf);
    if buf != host.dir {
      ProperlyUnder(host.dir, buf);
      ReachedLess(host.disk, host.dir, buf);
    }
    if cs == Absolute(p) && Ready(host.disk, host.dir, p) {
      WayEnds(host, cs, p, buf);
    }
    return Ok(buf);
  }
}
