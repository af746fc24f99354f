/** The extractor: what it does with each entry of a walk, and with a whole image. */
module Extractor {
  import opened Types
  import opened Seqs
  import opened HostTree
  import opened Layers
  import opened Store
  import opened Display
  import opened Walk
  import opened Links
  import opened Target
  import opened Nodes
  import opened Extraction

  ghost predicate SeenUnder(dir: Path, seen: map<Ino, Path>) {
    forall x | x in seen :: dir <= seen[x]
  }

  /** What holds before the next entry of a walk, over plain names, is extracted. */
  ghost predicate Expected(env: Env, blobs: Blobs, me: User, before: Disk, dir: Path, done: seq<Entry>, disk: Disk, log: seq<Hit>,
                           seen: map<Ino, Path>, e: Entry) {
    && Extracted(env, blobs, me, before, dir, done, disk, log) && seen == SeenOf(dir, done)
    && Plain(e.path) && NoShortFile(env, blobs, e.inode) && Ready(disk, dir, e.path) && Access(me, disk, dir, e.path)
    && (e.path == [] ==> done == [] && disk == before && log == [])
    && forall i | 0 <= i < |done| && done[i].inode.ino == e.inode.ino :: done[i].inode == e.inode
  }

  /** A node can be made at the path exactly when the entry is admitted, and the path can then be reached. */
  lemma AdmittedIsVacant(env: Env, blobs: Blobs, me: User, before: Disk, dir: Path, done: seq<Entry>, disk: Disk, log: seq<Hit>,
                         seen: map<Ino, Path>, e: Entry)
    requires disk.Sound() && Expected(env, blobs, me, before, dir, done, disk, log, seen, e) && e.path != []
    ensures disk.Vacant(me, dir + e.path) <==> Admits(me, before, dir, done, e)
    ensures disk.Vacant(me, dir + e.path) ==> Passable(me, disk, dir, e.path)
  {
    var p, k := e.path, |e.path| - 1;
    var d := dir + Init(p);
    assert Init(dir + p) == d && p[..k] == Init(p);
    OwnMayUse(me, disk.At(d));
    assert disk.View()[d] == KindOf(disk.At(d));
    if disk.Vacant(me, dir + p) {
      forall j | 0 <= j < |p| ensures SearchAt(me, disk, dir, p, j) {
      }
    }
  }

  /** Where the entry goes. */
  method Locate(env: Env, blobs: Blobs, host: Host, e: Entry, seen: map<Ino, Path>,
                ghost done: seq<Entry>) returns (r: Result<Path>)
    requires host.Valid()
    ensures r.Ok? ==> host.dir <= r.value && !host.disk.IsLink(r.value)
    ensures Expected(env, blobs, host.me, host.before, host.dir, done, host.disk, host.log, seen, e) ==>
              && (r.Ok? ==> r.value == host.dir + e.path)
              && (r.Err? ==> !Admits(host.me, host.before, host.dir, done, e))
  {
    if Expected(env, blobs, host.me, host.before, host.dir, done, host.disk, host.log, seen, e) {
      PlainComponents(e.path);
      if e.path != [] {
        AdmittedIsVacant(env, blobs, host.me, host.before, host.dir, done, host.disk, host.log, seen, e);
      }
    }
    r := SafePath(host, ComponentsOf(e.path), e.path);
  }

  lemma SeenSnoc(dir: Path, done: seq<Entry>, e: Entry)
    ensures SeenOf(dir, done + [e]) ==
            if IsNew(dir, done, e) then SeenOf(dir, done)[e.inode.ino := dir + e.path] else SeenOf(dir, done)
  {
    Snoc(done, e);
  }

  lemma AddedIsSound(disk: Disk, p: Path, n: HNode)
    requires disk.Sound()
    ensures disk.Add(p, n).Sound()
  {
  }

  lemma LogMore(me: User, before: Disk, dir: Path, done: seq<Entry>, e: Entry)
    ensures LogOf(me, before, dir, done + [e]) ==
            if Shoots(me, dir, done, e) && AimOf(before, dir, done, e).Some?
            then LogOf(me, before, dir, done) + [Hit(AimOf(before, dir, done, e).value, OwnerOf(e.inode))]
            else LogOf(me, before, dir, done)
  {
    Snoc(done, e);
  }

  /** The entry has joined what is extracted. */
  ghost predicate Joined(env: Env, blobs: Blobs, me: User, before: Disk, dir: Path, done: seq<Entry>, e: Entry, disk: Disk,
                         log: seq<Hit>, seen: map<Ino, Path>) {
    Extracted(env, blobs, me, before, dir, done + [e], disk, log) && seen == SeenOf(dir, done + [e])
  }

  lemma KnownIsNotRoot(env: Env, blobs: Blobs, me: User, before: Disk, dir: Path, done: seq<Entry>, disk: Disk, log: seq<Hit>,
                       seen: map<Ino, Path>, e: Entry)
    requires Expected(env, blobs, me, before, dir, done, disk, log, seen, e) && e.inode.ino in seen
    ensures e.path != []
  {
  }

  /** A number met before becomes one more link. */
  method LinkEntry(env: Env, blobs: Blobs, host: Host, p: Path, e: Entry, seen: map<Ino, Path>, ghost done: seq<Entry>)
    returns (r: Result<()>)
    requires host.Valid() && SeenUnder(host.dir, seen) && host.dir <= p && e.inode.ino in seen
    modifies host
    ensures host.Valid() && host.log == old(host.log)
    ensures Expected(env, blobs, host.me, host.before, host.dir, done, old(host.disk), old(host.log), seen, e) &&
            p == host.dir + e.path ==>
              && (r.Ok? <==> Fits(env, blobs, host.me, host.before, host.dir, done, e))
              && (r.Ok? ==> Joined(env, blobs, host.me, host.before, host.dir, done, e, host.disk, host.log, seen))
  {
    if Expected(env, blobs, host.me, host.before, host.dir, done, host.disk, host.log, seen, e) && p == host.dir + e.path {
      KnownIsNotRoot(env, blobs, host.me, host.before, host.dir, done, host.disk, host.log, seen, e);
      AdmittedIsVacant(env, blobs, host.me, host.before, host.dir, done, host.disk, host.log, seen, e);
      KnownNode(env, blobs, host.me, host.before, host.dir, done, e, host.disk, host.log);
      LinkAdded(env, blobs, host.me, host.before, host.dir, done, e, host.disk, host.log);
      LogMore(host.me, host.before, host.dir, done, e);
      SeenSnoc(host.dir, done, e);
    }
    r := host.HardLink(seen[e.inode.ino], p);
  }

  lemma EntryMade(env: Env, blobs: Blobs, me: User, before: Disk, dir: Path, done: seq<Entry>, e: Entry, disk: Disk,
                  log: seq<Hit>,
                  disk': Disk, log': seq<Hit>)
    requires disk.Sound() && Extracted(env, blobs, me, before, dir, done, disk, log)
    requires e.path != [] && dir + e.path !in disk.names && IsNew(dir, done, e) && Extractable(env, blobs, me, e.inode)
    requires Made(me, disk, log, dir + e.path, e.inode, Settled(me, Raw(env, blobs, me, dir + e.path, e.inode), e.inode), disk', log')
    ensures Extracted(env, blobs, me, before, dir, done + [e], disk', log')
  {
    var n := Settled(me, Raw(env, blobs, me, dir + e.path, e.inode), e.inode);
    NodeAdded(env, blobs, me, before, dir, done, e, disk, log, n);
    LogMore(me, before, dir, done, e);
    assert AimOf(before, dir, done, e) == LandingOf(disk, dir + e.path, e.inode);
    if Shoots(me, dir, done, e) {
      var hit := Hit(AimOf(before, dir, done, e).value, OwnerOf(e.inode));
      AddedIsSound(disk, dir + e.path, n);
      HitAdded(env, blobs, me, before, dir, done + [e], disk.Add(dir + e.path, n), log, hit);
    }
  }

  /** What extracting a new inode at its path takes, apart from its place. */
  lemma NewFits(env: Env, blobs: Blobs, me: User, before: Disk, dir: Path, done: seq<Entry>, disk: Disk, log: seq<Hit>, e: Entry)
    requires disk.Sound() && IsNew(dir, done, e) && before.IsDir(dir)
    requires Expected(env, blobs, me, before, dir, done, disk, log, SeenOf(dir, done), e)
    ensures e.path != [] ==>
              (Fits(env, blobs, me, before, dir, done, e) <==>
                 && Extractable(env, blobs, me, e.inode) && disk.Vacant(me, dir + e.path)
                 && (e.inode.mode.Lnk? && me.privileged ==> LandingOf(disk, dir + e.path, e.inode).Some?))
    ensures e.path == [] ==>
              (Fits(env, blobs, me, before, dir, done, e) <==>
                 && e.inode.mode.Dir? && AllAccepted(me, FolderForm, Xattrs(e.inode.meta))
                 && (me.privileged || before.At(dir).meta.uid == me.uid))
  {
    if e.path != [] {
      AdmittedIsVacant(env, blobs, me, before, dir, done, disk, log, SeenOf(dir, done), e);
      assert AimOf(before, dir, done, e) == LandingOf(disk, dir + e.path, e.inode);
    } else {
      RawDir(env, blobs, me, dir, e.inode);
    }
  }

  lemma EntryJoins(env: Env, blobs: Blobs, me: User, before: Disk, dir: Path, done: seq<Entry>, e: Entry, disk: Disk,
                   log: seq<Hit>,
                   disk': Disk, log': seq<Hit>)
    requires disk.Sound() && OneName(disk, dir) && before.IsDir(dir) && IsNew(dir, done, e)
    requires Expected(env, blobs, me, before, dir, done, disk, log, SeenOf(dir, done), e) &&
             Fits(env, blobs, me, before, dir, done, e)
    requires e.path != [] ==>
               Made(me, disk, log, dir + e.path, e.inode, Settled(me, Raw(env, blobs, me, dir + e.path, e.inode), e.inode), disk', log')
    requires e.path == [] ==> disk' == disk.Update(dir, Settled(me, disk.At(dir), e.inode)) && log' == log
    ensures Joined(env, blobs, me, before, dir, done, e, disk', log', SeenOf(dir, done)[e.inode.ino := dir + e.path])
  {
    SeenSnoc(dir, done, e);
    if e.path != [] {
      EntryMade(env, blobs, me, before, dir, done, e, disk, log, disk', log');
    } else {
      RootAdded(env, blobs, me, before, dir, e, disk);
      assert done + [e] == [e];
    }
  }

  /** An inode met for the first time is made. */
  method NewEntry(env: Env, oci: Image, host: Host, p: Path, e: Entry, seen: map<Ino, Path>, size: nat, ghost done: seq<Entry>)
    returns (r: Result<()>)
    requires host.Valid() && host.dir <= p && !host.disk.IsLink(p) && e.inode.ino !in seen
    requires size > 0
    modifies host
    ensures host.Valid() && (r.Err? ==> host.log == old(host.log))
    ensures Expected(env, oci.blobs, host.me, host.before, host.dir, done, old(host.disk), old(host.log), seen, e) &&
            p == host.dir + e.path ==>
              && (r.Ok? <==> Fits(env, oci.blobs, host.me, host.before, host.dir, done, e))
              && (r.Ok? ==> Joined(env, oci.blobs, host.me, host.before, host.dir, done, e, host.disk, host.log, seen[e.inode.ino := p]))
  {
    ghost var was, log := host.disk, host.log;
    ghost var expected := Expected(env, oci.blobs, host.me, host.before, host.dir, done, host.disk, host.log, seen, e) && p == host.dir + e.path;
    if expected {
      NewFits(env, oci.blobs, host.me, host.before, host.dir, done, was, log, e);
      StillOneName(host.before, host.dir, was, log);
      assert e.path == [] ==> p == host.dir;
    }
    r := MakeNode(env, oci, host, p, e.inode, size);
    if expected && r.Ok? {
      EntryJoins(env, oci.blobs, host.me, host.before, host.dir, done, e, was, log, host.disk, host.log);
    }
  }

  /**
   * Extracts one entry.  Whatever it is, what lies outside the extract directory changes at most by
   * owner, through a link.  Along a walk it succeeds exactly when the entry fits, and then the entry
   * has joined what is extracted.
   */
  method ExtractEntry(env: Env, oci: Image, host: Host, e: Entry, seen: map<Ino, Path>, size: nat, ghost done: seq<Entry>)
    returns (r: Result<()>, seen': map<Ino, Path>)
    requires host.Valid() && SeenUnder(host.dir, seen)
    requires size > 0
    modifies host
    ensures host.Valid() && SeenUnder(host.dir, seen') && (r.Err? ==> host.log == old(host.log))
    ensures Expected(env, oci.blobs, host.me, host.before, host.dir, done, old(host.disk), old(host.log), seen, e) ==>
              && (r.Ok? <==> Fits(env, oci.blobs, host.me, host.before, host.dir, done, e))
              && (r.Ok? ==> Joined(env, oci.blobs, host.me, host.before, host.dir, done, e, host.disk, host.log, seen'))
  {
    seen' := seen;
    var place := Locate(env, oci.blobs, host, e, seen, done);
    if place.Err? {
      return Err(place.error), seen';
    }
    if e.inode.ino in seen {
      r := LinkEntry(env, oci.blobs, host, place.value, e, seen, done);
    } else {
      seen' := seen[e.inode.ino := place.value];
      r := NewEntry(env, oci, host, place.value, e, seen, size, done);
    }
  }

  // The whole extraction.

  ghost predicate PlainNames(paths: set<Path>) {
    forall p | p in paths :: Plain(p)
  }

  ghost predicate NoShortFiles(env: Env, blobs: Blobs, layers: seq<Layer>, paths: set<Path>)
    requires Finite(layers, paths)
  {
    forall p {:trigger InodeAt(layers, p)} | p in paths :: NoShortFile(env, blobs, InodeAt(layers, p))
  }

  /** The names of the image are plain, and the blobs of its files hold what their chunks promise. */
  ghost predicate Regular(env: Env, blobs: Blobs, layers: seq<Layer>, paths: set<Path>) {
    PlainNames(paths) && Finite(layers, paths) && NoShortFiles(env, blobs, layers, paths)
  }

  /** No directory lists a whiteout, and every entry of the walk fits when it is met. */
  ghost predicate CanExtract(env: Env, blobs: Blobs, me: User, before: Disk, dir: Path, layers: seq<Layer>, paths: set<Path>)
    requires Finite(layers, paths)
  {
    [] in paths && WhiteoutFree(layers, paths) && AllFit(env, blobs, me, before, dir, WalkOf(layers, paths))
  }

  /** The log is that of the walk up to some point. */
  ghost predicate LogUpTo(me: User, before: Disk, dir: Path, all: seq<Entry>, log: seq<Hit>) {
    exists n :: 0 <= n <= |all| && log == LogOf(me, before, dir, all[..n])
  }

  /** How an extraction ends, if the image is regular. */
  ghost predicate Ends(env: Env, blobs: Blobs, me: User, before: Disk, dir: Path, layers: seq<Layer>, paths: set<Path>,
                       disk: Disk, log: seq<Hit>, ok: bool)
    requires Finite(layers, paths)
  {
    Regular(env, blobs, layers, paths) ==>
      && (ok <==> CanExtract(env, blobs, me, before, dir, layers, paths))
      && (ok ==> Extracted(env, blobs, me, before, dir, WalkOf(layers, paths), disk, log))
      && LogUpTo(me, before, dir, WalkOf(layers, paths), log)
  }

  /** The walk has yielded n entries and they, if the image is regular, have been extracted. */
  ghost predicate Underway(env: Env, blobs: Blobs, me: User, before: Disk, dir: Path, layers: seq<Layer>, paths: set<Path>,
                           disk: Disk, log: seq<Hit>, q: seq<Entry>, all: seq<Entry>, n: nat, seen: map<Ino, Path>) {
    && Walking(layers, q, all, n) && Toward(layers, paths, all, n) && SeenUnder(dir, seen)
    && (n == 0 ==> disk == before && log == [])
    && (Regular(env, blobs, layers, paths) ==>
          && Extracted(env, blobs, me, before, dir, all[..n], disk, log) && seen == SeenOf(dir, all[..n])
          && AllFit(env, blobs, me, before, dir, all[..n]))
  }

  lemma UnderwayStarts(env: Env, blobs: Blobs, me: User, before: Disk, dir: Path, layers: seq<Layer>,
                       paths: set<Path>, root: Inode)
    requires Finite(layers, paths) && FindInode(layers, 1) == Ok(root) && Holds(dir, before, [])
    ensures Underway(env, blobs, me, before, dir, layers, paths, before, [], [Entry([], root)], [Entry([], root)], 0, map[])
  {
    var all := [Entry([], root)];
    WalkStarts(layers, root);
    assert all[..0] == [] && PathsOf([]) == [] && all[0..] == all;
    assert SeenOf(dir, []) == map[] && LogOf(me, before, dir, []) == [] && SceneOf(before, dir, []) == before.View();
  }

  /** The next entry of the walk meets what extracting it expects. */
  lemma NextExpected(env: Env, blobs: Blobs, me: User, before: Disk, dir: Path, layers: seq<Layer>, paths: set<Path>, disk: Disk,
                     log: seq<Hit>, q: seq<Entry>, all: seq<Entry>, n: nat, seen: map<Ino, Path>)
    requires Finite(layers, paths) && Regular(env, blobs, layers, paths) && n < |all| && (!me.privileged ==> log == [])
    requires Underway(env, blobs, me, before, dir, layers, paths, disk, log, q, all, n, seen)
    ensures Expected(env, blobs, me, before, dir, all[..n], disk, log, seen, all[n])
  {
    assert Agrees(layers, all[n]) && all[n].path in paths;
    ReadyNext(env, blobs, me, before, dir, layers, all, n, disk, log);
    forall i | 0 <= i < n && all[..n][i].inode.ino == all[n].inode.ino ensures all[..n][i].inode == all[n].inode {
      OneInodePerNumber(layers, all, i, n);
    }
  }

  lemma TakenMore(was: seq<Entry>, all: seq<Entry>, n: nat)
    requires n < |was| <= |all| && was == all[..|was|]
    ensures all[..n + 1] == was[..n] + [was[n]]
  {
  }

  lemma FitMore(env: Env, blobs: Blobs, me: User, before: Disk, dir: Path, done: seq<Entry>, e: Entry)
    requires AllFit(env, blobs, me, before, dir, done) && Fits(env, blobs, me, before, dir, done, e)
    ensures AllFit(env, blobs, me, before, dir, done + [e])
  {
    var done' := done + [e];
    forall k | 0 <= k < |done'| ensures FitsAt(env, blobs, me, before, dir, done', k) {
      if k < |done| {
        assert FitsAt(env, blobs, me, before, dir, done, k);
        assert done'[..k] == done[..k];
      } else {
        assert done'[..k] == done;
      }
    }
  }

  /** The walk so far is where the walk of the image starts. */
  lemma WalkSoFar(layers: seq<Layer>, paths: set<Path>, all: seq<Entry>, n: nat, m: nat)
    requires NonEmpty(layers) && Toward(layers, paths, all, n) && m <= |all|
    ensures m <= |WalkOf(layers, paths)| && WalkOf(layers, paths)[..m] == all[..m]
    ensures m < |all| ==> m < |WalkOf(layers, paths)| && WalkOf(layers, paths)[m] == all[m]
  {
    OnwardExtends(layers, all, n, |paths| - n);
  }

  lemma LogSoFar(me: User, before: Disk, dir: Path, layers: seq<Layer>, paths: set<Path>, all: seq<Entry>, n: nat, log: seq<Hit>)
    requires NonEmpty(layers) && Toward(layers, paths, all, n) && n <= |all| && log == LogOf(me, before, dir, all[..n])
    ensures LogUpTo(me, before, dir, WalkOf(layers, paths), log)
  {
    WalkSoFar(layers, paths, all, n, n);
  }

  /** An entry that does not fit ends the extraction. */
  lemma Misfit(env: Env, blobs: Blobs, me: User, before: Disk, dir: Path, layers: seq<Layer>, paths: set<Path>,
               all: seq<Entry>, n: nat)
    requires Finite(layers, paths) && Toward(layers, paths, all, n) && n < |all| &&
             !Fits(env, blobs, me, before, dir, all[..n], all[n])
    ensures !CanExtract(env, blobs, me, before, dir, layers, paths)
  {
    var walk := WalkOf(layers, paths);
    WalkSoFar(layers, paths, all, n, n);
    assert !FitsAt(env, blobs, me, before, dir, walk, n);
  }

  lemma AllDone(env: Env, blobs: Blobs, me: User, before: Disk, dir: Path, layers: seq<Layer>, paths: set<Path>, disk: Disk,
                log: seq<Hit>, q: seq<Entry>, all: seq<Entry>, n: nat, seen: map<Ino, Path>)
    requires Finite(layers, paths) && Underway(env, blobs, me, before, dir, layers, paths, disk, log, q, all, n, seen)
    requires n == |all| && all == WalkOf(layers, paths) && [] in paths && WhiteoutFree(layers, paths)
    ensures Ends(env, blobs, me, before, dir, layers, paths, disk, log, true)
  {
    TakeAll(all);
    if Regular(env, blobs, layers, paths) {
      LogSoFar(me, before, dir, layers, paths, all, n, log);
    }
  }

  /** The walk met a whiteout, or the entry did not fit; the owners changed through links are those of the entries done. */
  lemma CutShort(env: Env, blobs: Blobs, me: User, before: Disk, dir: Path, layers: seq<Layer>, paths: set<Path>, disk: Disk,
                 log: seq<Hit>, q: seq<Entry>, all: seq<Entry>, n: nat, seen: map<Ino, Path>, disk': Disk)
    requires Finite(layers, paths) && Underway(env, blobs, me, before, dir, layers, paths, disk, log, q, all, n, seen)
    requires Regular(env, blobs, layers, paths) ==>
               !WhiteoutFree(layers, paths) || (n < |all| && !Fits(env, blobs, me, before, dir, all[..n], all[n]))
    ensures Ends(env, blobs, me, before, dir, layers, paths, disk', log, false)
  {
    if Regular(env, blobs, layers, paths) {
      LogSoFar(me, before, dir, layers, paths, all, n, log);
      if WhiteoutFree(layers, paths) {
        Misfit(env, blobs, me, before, dir, layers, paths, all, n);
      }
    }
  }

  lemma UnderwayNext(env: Env, blobs: Blobs, me: User, before: Disk, dir: Path, layers: seq<Layer>, paths: set<Path>, disk: Disk,
                     log: seq<Hit>, q: seq<Entry>, all: seq<Entry>, n: nat, seen: map<Ino, Path>,
                     disk': Disk, log': seq<Hit>, q': seq<Entry>, all': seq<Entry>, n': nat, seen': map<Ino, Path>)
    requires Finite(layers, paths) && Underway(env, blobs, me, before, dir, layers, paths, disk, log, q, all, n, seen)
    requires n < |all| <= |all'| && all == all'[..|all|] && n' == n + 1
    requires Walking(layers, q', all', n') && Toward(layers, paths, all', n') && SeenUnder(dir, seen')
    requires Regular(env, blobs, layers, paths) ==>
               && Fits(env, blobs, me, before, dir, all[..n], all[n])
               && Joined(env, blobs, me, before, dir, all[..n], all[n], disk', log', seen')
    ensures Underway(env, blobs, me, before, dir, layers, paths, disk', log', q', all', n', seen')
  {
    TakenMore(all, all', n);
    if Regular(env, blobs, layers, paths) {
      FitMore(env, blobs, me, before, dir, all[..n], all[n]);
    }
  }

  /** Extracts the entry that the walk has just yielded. */
  method ExtractYielded(env: Env, oci: Image, host: Host, e: Entry, seen: map<Ino, Path>, size: nat, ghost layers: seq<Layer>,
                        ghost paths: set<Path>, ghost q: seq<Entry>, ghost all: seq<Entry>, ghost n: nat,
                        ghost q': seq<Entry>, ghost all': seq<Entry>, ghost n': nat)
    returns (r: Result<()>, seen': map<Ino, Path>)
    requires Finite(layers, paths) && size > 0
    requires host.Valid()
    requires Underway(env, oci.blobs, host.me, host.before, host.dir, layers, paths, host.disk, host.log, q, all, n, seen)
    requires n < |all| <= |all'| && all == all'[..|all|] && e == all[n] && n' == n + 1
    requires Walking(layers, q', all', n') && Toward(layers, paths, all', n')
    modifies host
    ensures host.Valid()
    ensures r.Err? ==> Ends(env, oci.blobs, host.me, host.before, host.dir, layers, paths, host.disk, host.log, false)
    ensures r.Ok? ==> Underway(env, oci.blobs, host.me, host.before, host.dir, layers, paths, host.disk, host.log, q', all', n', seen')
  {
    ghost var was, log := host.disk, host.log;
    assert Agrees(layers, e) && e.path in paths;
    if Regular(env, oci.blobs, layers, paths) {
      NextExpected(env, oci.blobs, host.me, host.before, host.dir, layers, paths, was, log, q, all, n, seen);
    }
    r, seen' := ExtractEntry(env, oci, host, e, seen, size, all[..n]);
    if r.Ok? {
      UnderwayNext(env, oci.blobs, host.me, host.before, host.dir, layers, paths, was, log, q, all, n, seen, host.disk,
                   host.log, q', all', n', seen');
    } else {
      CutShort(env, oci.blobs, host.me, host.before, host.dir, layers, paths, was, log, q, all, n, seen, host.disk);
    }
  }

  /** Takes the next entry from the walk and extracts it. */
  method ExtractNext(env: Env, oci: Image, walker: Walker, host: Host, seen: map<Ino, Path>, size: nat,
                     ghost paths: set<Path>, ghost all: seq<Entry>, ghost n: nat)
    returns (r: Option<Result<()>>, seen': map<Ino, Path>, ghost all': seq<Entry>, ghost n': nat)
    requires Finite(walker.layers, paths)
    requires host.Valid()
    requires Underway(env, oci.blobs, host.me, host.before, host.dir, walker.layers, paths, host.disk, host.log, walker.q, all, n, seen)
    requires size > 0
    modifies walker, host
    ensures host.Valid() && n <= |paths| && (r.Some? ==> n < |paths|) && n' == n + 1
    ensures r.None? ==> Ends(env, oci.blobs, host.me, host.before, host.dir, walker.layers, paths, host.disk, host.log, true)
    ensures r.Some? && r.value.Err? ==>
              Ends(env, oci.blobs, host.me, host.before, host.dir, walker.layers, paths, host.disk, host.log, false)
    ensures r.Some? && r.value.Ok? ==>
              Underway(env, oci.blobs, host.me, host.before, host.dir, walker.layers, paths, host.disk, host.log, walker.q, all', n', seen')
  {
    seen', n' := seen, n + 1;
    ghost var layers, was, log, q := walker.layers, host.disk, host.log, walker.q;
    var next;
    next, all' := Advance(walker, paths, all, n);
    if next.None? {
      AllDone(env, oci.blobs, host.me, host.before, host.dir, layers, paths, was, log, q, all, n, seen);
      return None, seen', all', n';
    }
    if next.value.Err? {
      CutShort(env, oci.blobs, host.me, host.before, host.dir, layers, paths, was, log, q, all, n, seen, was);
      return Some(Err(next.value.error)), seen', all', n';
    }
    var done;
    done, seen' := ExtractYielded(env, oci, host, next.value.value, seen, size, layers, paths, q, all, n, walker.q, all', n');
    r := Some(done);
  }

  method ExtractAll(env: Env, oci: Image, walker: Walker, host: Host, size: nat, ghost paths: set<Path>, ghost root: seq<Entry>)
    returns (r: Result<()>)
    requires Finite(walker.layers, paths)
    requires host.Valid()
    requires Underway(env, oci.blobs, host.me, host.before, host.dir, walker.layers, paths, host.disk, host.log, walker.q, root, 0, map[])
    requires size > 0
    modifies walker, host
    ensures host.Valid() && Ends(env, oci.blobs, host.me, host.before, host.dir, walker.layers, paths, host.disk, host.log, r.Ok?)
  {
    var seen: map<Ino, Path> := map[];
    ghost var all, n := root, 0;
    while true
      invariant host.Valid()
      invariant Underway(env, oci.blobs, host.me, host.before, host.dir, walker.layers, paths, host.disk, host.log, walker.q, all, n, seen)
      decreases |paths| - n
    {
      var next;
      next, seen, all, n := ExtractNext(env, oci, walker, host, seen, size, paths, all, n);
      if next.None? {
        return Ok(());
      }
      if next.value.Err? {
        return Err(next.value.error);
      }
    }
  }

  lemma NoRoot(env: Env, blobs: Blobs, me: User, before: Disk, dir: Path, layers: seq<Layer>, paths: set<Path>)
    requires Finite(layers, paths) && FindInode(layers, 1).Err?
    ensures Ends(env, blobs, me, before, dir, layers, paths, before, [], false)
  {
    assert !Resolves(layers, []);
    assert WalkOf(layers, paths)[..0] == [] && LogOf(me, before, dir, []) == [];
  }

  // Any image at all.

  /**
   * Extracts any entries, in any order, with any names, numbers, targets and chunks.  What lies outside
   * the directory changes at most by owner, and without privileges not at all.
   */
  method ExtractEntries(env: Env, oci: Image, host: Host, entries: seq<Entry>, size: nat) returns (r: Result<()>)
    requires host.Valid()
    requires size > 0
    modifies host
    ensures host.Valid() && (!host.me.privileged ==> Confined(host.before, host.dir, host.disk))
  {
    var seen: map<Ino, Path> := map[];
    for k := 0 to |entries|
      invariant host.Valid() && SeenUnder(host.dir, seen)
    {
      r, seen := ExtractEntry(env, oci, host, entries[k], seen, size, []);
      if r.Err? {
        return;
      }
    }
    return Ok(());
  }

  /**
   * Extracts any image, up to any point of its walk: one that lists a name twice, one whose walk never
   * ends, one whose blobs are missing or short.  What lies outside changes at most by owner, and without
   * privileges not at all.
   */
  method ExtractUpTo(env: Env, oci: Image, layers: seq<Layer>, host: Host, size: nat, steps: nat) returns (r: Result<()>)
    requires NonEmpty(layers) && host.Valid()
    requires size > 0
    modifies host
    ensures host.Valid() && (!host.me.privileged ==> Confined(host.before, host.dir, host.disk))
  {
    var start := Walker.Start(layers);
    if start.Err? {
      return Err(start.error);
    }
    var walker := start.value;
    var seen: map<Ino, Path> := map[];
    for k := 0 to steps
      invariant walker.layers == layers && host.Valid() && SeenUnder(host.dir, seen)
    {
      var next := walker.Next();
      if next.None? {
        return Ok(());
      }
      if next.value.Err? {
        return Err(next.value.error);
      }
      r, seen := ExtractEntry(env, oci, host, next.value.value, seen, size, []);
      if r.Err? {
        return;
      }
    }
    return Ok(());
  }

  /**
   * Extracts the image into an empty directory.  It always terminates.  What lies outside changes at
   * most by owner, and only through links that a privileged user extracts.  If the image is
   * regular it succeeds exactly when every entry of the walk fits; then the directory holds the image.
   */
  method ExtractRootfs(env: Env, oci: Image, layers: seq<Layer>, host: Host, size: nat,
                       ghost paths: set<Path>) returns (r: Result<()>)
    requires Finite(layers, paths)
    requires host.Valid() && host.disk == host.before && host.log == [] && Holds(host.dir, host.disk, [])
    requires size > 0
    modifies host
    ensures host.Valid() && Ends(env, oci.blobs, host.me, host.before, host.dir, layers, paths, host.disk, host.log, r.Ok?)
  {
    var start := Walker.Start(layers);
    if start.Err? {
      NoRoot(env, oci.blobs, host.me, host.before, host.dir, layers, paths);
      return Err(start.error);
    }
    var walker := start.value;
    UnderwayStarts(env, oci.blobs, host.me, host.before, host.dir, layers, paths, walker.q[0].inode);
    r := ExtractAll(env, oci, walker, host, size, paths, walker.q);
  }
}
