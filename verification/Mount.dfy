/** Directory requests on a mounted image. */
module Mount {
  import opened Types
  import opened Layers

  datatype FileType = RegularFile | Directory | NamedPipe | CharDevice | BlockDevice | Symlink | Socket

  function FuseType(i: Inode): Result<FileType> {
    match i.mode
    case File(_) => Ok(RegularFile)
    case Dir(_, _) => Ok(Directory)
    case Fifo => Ok(NamedPipe)
    case Chr(_, _) => Ok(CharDevice)
    case Blk(_, _) => Ok(BlockDevice)
    case Lnk => Ok(Symlink)
    case Sock => Ok(Socket)
    case _ => Err(EINVAL)
  }

  /** One record of a reply: the offset is where a later request resumes after it. */
  datatype Dirent = Dirent(ino: Ino, offset: nat, kind: FileType, name: Name)

  /** The reply buffer of one request; how much room a record takes depends on its name. */
  class Reply {
    const capacity: nat
    const room: Name -> nat
    var used: nat
    var records: seq<Dirent>

    constructor (capacity: nat, room: Name -> nat)
      ensures this.capacity == capacity && this.room == room && used == 0 && records == []
    {
      this.capacity, this.room, used, records := capacity, room, 0, [];
    }

    /** Adds the record unless it does not fit any more, which is reported as full. */
    method Add(d: Dirent) returns (full: bool)
      modifies this
      ensures full <==> old(used) + room(d.name) > capacity
      ensures full ==> unchanged(this)
      ensures !full ==> records == old(records) + [d] && used == old(used) + room(d.name)
    {
      if used + room(d.name) > capacity {
        return true;
      }
      records, used := records + [d], used + room(d.name);
      return false;
    }
  }

  /** The entry can be found and is of a kind a mount can show. */
  predicate Servable(layers: seq<Layer>, e: DirEnt)
    requires NonEmpty(layers)
  {
    FindInode(layers, e.ino).Ok? && FuseType(FindInode(layers, e.ino).value).Ok?
  }

  predicate AllServable(layers: seq<Layer>, es: seq<DirEnt>)
    requires NonEmpty(layers)
  {
    forall k | 0 <= k < |es| :: Servable(layers, es[k])
  }

  function RecordAt(layers: seq<Layer>, es: seq<DirEnt>, k: nat): Dirent
    requires NonEmpty(layers) && k < |es| && Servable(layers, es[k])
  {
    Dirent(es[k].ino, k + 1, FuseType(FindInode(layers, es[k].ino).value).value, es[k].name)
  }

  /** The records are those of the entries from..from + |rs|, in order. */
  ghost predicate ArePage(layers: seq<Layer>, es: seq<DirEnt>, from: nat, rs: seq<Dirent>)
    requires NonEmpty(layers)
  {
    forall k | 0 <= k < |rs| :: IsRecord(layers, es, from, rs, k)
  }

  ghost predicate IsRecord(layers: seq<Layer>, es: seq<DirEnt>, from: nat, rs: seq<Dirent>, k: nat)
    requires NonEmpty(layers) && k < |rs|
  {
    from + k < |es| && Servable(layers, es[from + k]) && rs[k] == RecordAt(layers, es, from + k)
  }

  lemma PageAppend(layers: seq<Layer>, es: seq<DirEnt>, from: nat, a: seq<Dirent>, b: seq<Dirent>, mid: nat)
    requires NonEmpty(layers) && ArePage(layers, es, from, a) && mid == from + |a| && ArePage(layers, es, mid, b)
    ensures ArePage(layers, es, from, a + b)
  {
    var rs := a + b;
    forall k | 0 <= k < |rs| ensures IsRecord(layers, es, from, rs, k) {
      if k < |a| {
        assert IsRecord(layers, es, from, a, k);
      } else {
        assert IsRecord(layers, es, mid, b, k - |a|);
      }
    }
  }

  lemma PageSnoc(layers: seq<Layer>, es: seq<DirEnt>, from: nat, a: seq<Dirent>, mid: nat)
    requires NonEmpty(layers) && ArePage(layers, es, from, a) && mid == from + |a| < |es| && Servable(layers, es[mid])
    ensures ArePage(layers, es, from, a + [RecordAt(layers, es, mid)])
  {
    var b := [RecordAt(layers, es, mid)];
    assert IsRecord(layers, es, mid, b, 0);
    PageAppend(layers, es, from, a, b, mid);
  }

  lemma WholePage(layers: seq<Layer>, es: seq<DirEnt>, rs: seq<Dirent>)
    requires NonEmpty(layers) && ArePage(layers, es, 0, rs) && |rs| == |es|
    ensures AllServable(layers, es) && forall k | 0 <= k < |es| :: rs[k] == RecordAt(layers, es, k)
  {
    forall k | 0 <= k < |es| ensures Servable(layers, es[k]) && rs[k] == RecordAt(layers, es, k) {
      assert IsRecord(layers, es, 0, rs, k);
    }
  }

  /** The room the records of the entries from..end take. */
  function Taken(es: seq<DirEnt>, room: Name -> nat, from: nat, end: nat): nat
    requires from <= end <= |es|
  {
    if from == end then 0 else Taken(es, room, from, end - 1) + room(es[end - 1].name)
  }

  lemma {:induction false} TakenGrows(es: seq<DirEnt>, room: Name -> nat, from: nat, mid: nat, end: nat)
    requires from <= mid <= end <= |es|
    ensures Taken(es, room, from, mid) <= Taken(es, room, from, end)
    decreases end
  {
    if mid < end {
      TakenGrows(es, room, from, mid, end - 1);
    }
  }

  ghost predicate ServedTo(layers: seq<Layer>, es: seq<DirEnt>, from: nat, end: nat)
    requires NonEmpty(layers) && end <= |es|
  {
    forall j | from <= j < end :: Servable(layers, es[j])
  }

  /** The first entry that cannot be served, if the records before it fit. */
  ghost predicate FailsAt(layers: seq<Layer>, es: seq<DirEnt>, room: Name -> nat, capacity: nat, from: nat, k: nat)
    requires NonEmpty(layers)
  {
    from <= k < |es| && ServedTo(layers, es, from, k) && !Servable(layers, es[k]) && Taken(es, room, from, k) <= capacity
  }

  /** The records up to entry n fill the page: there are no more, or the next one does not fit. */
  ghost predicate FilledTo(es: seq<DirEnt>, room: Name -> nat, capacity: nat, from: nat, n: nat) {
    from <= n <= |es| && (n < |es| ==> Taken(es, room, from, n + 1) > capacity)
  }

  lemma FilledFailsNowhere(layers: seq<Layer>, es: seq<DirEnt>, room: Name -> nat, capacity: nat, from: nat, n: nat, k: nat)
    requires NonEmpty(layers) && FilledTo(es, room, capacity, from, n) && ServedTo(layers, es, from, n)
    requires n < |es| ==> Servable(layers, es[n])
    ensures !FailsAt(layers, es, room, capacity, from, k)
  {
    if n < k < |es| {
      TakenGrows(es, room, from, n + 1, k);
    }
  }

  lemma OneFits(es: seq<DirEnt>, room: Name -> nat, capacity: nat, k: nat)
    requires k < |es| && forall e | e in es :: room(e.name) <= capacity
    ensures Taken(es, room, k, k + 1) <= capacity
  {
    assert Taken(es, room, k, k) == 0 && es[k] in es;
  }

  /**
   * One page, from the offset on.  An entry is looked at before it is known whether it still fits, so
   * the request fails exactly when the first entry that cannot be served comes before the page is full
   * or right after.
   */
  method ReadDir(layers: seq<Layer>, ino: Ino, offset: nat, reply: Reply) returns (r: Result<()>)
    requires NonEmpty(layers) && reply.records == [] && reply.used == 0
    modifies reply
    ensures FindInode(layers, ino).Err? ==> r == Err(FindInode(layers, ino).error)
    ensures FindInode(layers, ino).Ok? && !FindInode(layers, ino).value.mode.Dir? ==> r == Err(ENOTDIR)
    ensures FindInode(layers, ino).Ok? && FindInode(layers, ino).value.mode.Dir? ==>
              var es := FindInode(layers, ino).value.mode.entries;
              && ArePage(layers, es, offset, reply.records)
              && (r.Err? <==> exists k :: FailsAt(layers, es, reply.room, reply.capacity, offset, k))
              && (r.Ok? && offset <= |es| ==> FilledTo(es, reply.room, reply.capacity, offset, offset + |reply.records|))
  {
    var inode := FindInodeInLayers(layers, ino);
    if inode.Err? {
      return Err(inode.error);
    }
    if !inode.value.mode.Dir? {
      return Err(ENOTDIR);
    }
    var es := inode.value.mode.entries;
    var index := offset;
    while index < |es|
      invariant index == offset + |reply.records| && (offset <= |es| ==> index <= |es|)
      invariant ArePage(layers, es, offset, reply.records)
      invariant offset <= |es| ==> ServedTo(layers, es, offset, index)
      invariant offset <= |es| ==> reply.used == Taken(es, reply.room, offset, index) <= reply.capacity
    {
      var entry := FindInodeInLayers(layers, es[index].ino);
      if entry.Err? {
        assert FailsAt(layers, es, reply.room, reply.capacity, offset, index);
        return Err(entry.error);
      }
      var kind := FuseType(entry.value);
      if kind.Err? {
        assert FailsAt(layers, es, reply.room, reply.capacity, offset, index);
        return Err(kind.error);
      }
      PageSnoc(layers, es, offset, reply.records, index);
      var full := reply.Add(Dirent(es[index].ino, index + 1, kind.value, es[index].name));
      if full {
        break;
      }
      index := index + 1;
    }
    if offset <= |es| {
      forall k ensures !FailsAt(layers, es, reply.room, reply.capacity, offset, k) {
        FilledFailsNowhere(layers, es, reply.room, reply.capacity, offset, index, k);
      }
    }
    return Ok(());
  }

  /**
   * Listing a directory page by page, each request resuming at the offset of the last record, until
   * a page is empty.  As long as every page has room for one record, whatever the sizes, this yields
   * every entry exactly once and in order; it fails exactly when some entry cannot be served.
   */
  method ListDir(layers: seq<Layer>, ino: Ino, capacity: nat -> nat, room: Name -> nat) returns (r: Result<seq<Dirent>>)
    requires NonEmpty(layers) && FindInode(layers, ino).Ok? && FindInode(layers, ino).value.mode.Dir?
    requires forall k, e | e in FindInode(layers, ino).value.mode.entries :: room(e.name) <= capacity(k)
    ensures var es := FindInode(layers, ino).value.mode.entries;
            && (r.Ok? <==> AllServable(layers, es))
            && (r.Ok? ==> |r.value| == |es| && forall k | 0 <= k < |es| :: r.value[k] == RecordAt(layers, es, k))
  {
    ghost var es := FindInode(layers, ino).value.mode.entries;
    var offset, page, out: seq<Dirent> := 0, 0, [];
    while true
      invariant offset == |out| <= |es| && ArePage(layers, es, 0, out)
      decreases |es| - offset
    {
      var reply := new Reply(capacity(page), room);
      var read := ReadDir(layers, ino, offset, reply);
      if read.Err? {
        return Err(read.error);
      }
      if reply.records == [] {
        if offset < |es| {
          OneFits(es, room, reply.capacity, offset);
        }
        WholePage(layers, es, out);
        return Ok(out);
      }
      ghost var n := |reply.records| - 1;
      assert IsRecord(layers, es, offset, reply.records, n);
      PageAppend(layers, es, 0, out, reply.records, offset);
      out := out + reply.records;
      offset := reply.records[|reply.records| - 1].offset;
      page := page + 1;
    }
  }
}
