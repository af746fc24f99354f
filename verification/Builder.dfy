/** Rendering a directory tree into one layer of inodes. */
module Builder {
  import opened Types
  import opened Seqs
  import opened Paths
  import opened HostTree
  import opened Layers
  import opened Resolution
  import opened Sorting
  import opened Store
  import opened ChunkAssignment
  import opened Streams
  import opened Plans
  import opened Numbers
  import opened Deltas
  import opened RootNumber
  import opened Collect
  import opened Visiting
  import opened Walking

  /** A whole path, or "/" itself, looked up in the base. */
  method LookupBase(ex: Base, p: Path) returns (r: Result<Option<Inode>>)
    requires Usable(ex)
    ensures r == LookupExisting(ex, p)
  {
    if ex.None? {
      return Ok(None);
    }
    NamesOf(Absolute(p)[1..], |p|);
    assert Names(Absolute(p)[1..]) == p;
    r := LookupPath(ex.value, Absolute(p));
  }

  method FirstFreeIno(ex: Base) returns (next: Ino)
    requires Usable(ex)
    ensures next == FirstFree(ex)
  {
    if ex.None? {
      return 2;
    }
    var m := MaxInode(ex.value);
    return m + 1;
  }

  /** What a build has collected while walking the tree: directory records, numbers, files, other nodes. */
  datatype State = State(dirs: map<HostIno, DirRec>, got: Collected)

  /** Everything collected is what the plan says about the paths visited so far. */
  ghost predicate Tracks(ex: Base, t: Tree, plan: Plan, vs: seq<Path>, s: State, ents: Entries)
    requires Usable(ex) && Covers(t, plan) && Within(t, vs)
  {
    s.got == CollectedFor(ex, t, plan, vs) && DirsAre(t, plan.alloc, s.dirs, ents)
  }

  /** "/" is no directory's entry; it is set up beforehand, as number 1. */
  method Start(ex: Base, t: Tree, ghost plan: Plan) returns (s: State, ghost ents: Entries)
    requires Usable(ex) && Covers(t, plan)
    ensures Tracks(ex, t, plan, [], s, ents) && ents == map[[] := []]
  {
    var next := FirstFreeIno(ex);
    s := State(map[t[[]].hino := DirRec(1, t[[]].meta, [])], Collected(Numbering(map[], next), [], []));
    ents := map[[] := []];
    DirsAddDir(t, plan.alloc, map[], map[], []);
    assert s.dirs == map[][t[[]].hino := DirRec(plan.alloc[t[[]].hino], t[[]].meta, [])];
    assert ents == map[][[] := []];
  }

  method AddEntry(t: Tree, dirs: map<HostIno, DirRec>, d: Path, e: DirEnt, ghost alloc: map<HostIno, Ino>,
                  ghost ents: Entries)
    returns (dirs': map<HostIno, DirRec>, ghost ents': Entries)
    requires ValidTree(t) && DirsAre(t, alloc, dirs, ents) && d in ents
    ensures DirsAre(t, alloc, dirs', ents') && ents' == ents[d := ents[d] + [e]]
  {
    DirsAddEntry(t, alloc, dirs, ents, d, e);
    var h := t[d].hino;
    dirs' := dirs[h := dirs[h].(entries := dirs[h].entries + [e])];
    ents' := ents[d := ents[d] + [e]];
  }

  /**
   * Gives the entry its number: its old one or the next free one, or that of its hard-link group.  An
   * entry whose old number is 1 is not listed, and is rendered even if it is a known hard link.
   */
  method NumberEntry(ex: Base, t: Tree, p: Path, existing: Option<Inode>, was: Numbering)
    returns (now: Numbering, theIno: Ino, listed: bool, linked: bool)
    requires Usable(ex) && p in t && LookupExisting(ex, p) == Ok(existing)
    ensures listed <==> match BaseIno(ex, p) case Some(i) => i != 1 case None => was.next != 1
    ensures listed ==> now == Number(ex, t, was, p) && linked == (t[p].hino in was.inos)
    ensures !listed ==> now.inos == was.inos[t[p].hino := 1] && !linked
    ensures t[p].hino in now.inos && theIno == now.inos[t[p].hino]
  {
    var hostToPfs, nextIno := was.inos, was.next;
    var curIno := nextIno;
    if existing.Some? {
      curIno := existing.value.ino;
    } else {
      nextIno := nextIno + 1;
    }
    var h := t[p].hino;
    theIno, listed, linked := curIno, curIno != 1, false;
    if listed && h in hostToPfs {
      theIno, linked := hostToPfs[h], true;
    }
    if !linked {
      hostToPfs := hostToPfs[h := curIno];
    }
    now := Numbering(hostToPfs, nextIno);
  }

  /** Handles one entry of a directory: numbers it, enters it into its parent, renders it if it is new. */
  method VisitEntry(ex: Base, t: Tree, p: Path, s: State, ghost plan: Plan, ghost vs: seq<Path>,
                    ghost vs': seq<Path>, ghost ents: Entries)
    returns (r: Result<State>, ghost ents': Entries)
    requires Usable(ex) && RootAlone(ex, t) && Covers(t, plan) && plan == PlanOf(ex, t)
    requires vs' == vs + [p] && vs' <= Visits(t) && Within(t, vs) && Within(t, vs') && Tracks(ex, t, plan, vs, s, ents)
    requires p in t && p != [] && t[p].hino in plan.alloc && Init(p) in ents
    ensures r.Ok? <==> LookupExisting(ex, p).Ok?
    ensures r.Ok? ==> Tracks(ex, t, plan, vs', r.value, ents') && ents' == Entered(t, plan, ents, p)
  {
    ents' := ents;
    var existing := LookupBase(ex, p);
    if existing.Err? {
      return Err(existing.error), ents;
    }
    VisitNumbers(ex, t, vs, p);
    CoversNumbers(t, plan, Firsts(t, vs));
    NumberKeys(ex, t, vs);
    var numbers, theIno, listed, linked := NumberEntry(ex, t, p, existing.value, s.got.numbers);
    assert numbers == NumberAll(ex, t, vs');
    var dirs := s.dirs;
    if listed {
      dirs, ents' := AddEntry(t, s.dirs, Init(p), DirEnt(theIno, Last(p)), plan.alloc, ents);
    }
    assert linked ==> !t[p].HDir? by {
      if t[p].HDir? {
        DirIsNew(ex, t, vs, p);
      }
    }
    var files, others;
    dirs, files, others, ents' :=
      CollectNew(t, p, theIno, linked, dirs, s.got.files, s.got.others, plan.alloc, Firsts(t, vs), Firsts(t, vs'), ents');
    return Ok(State(dirs, Collected(numbers, files, others))), ents';
  }

  /** The j-th entry of the k-th directory. */
  method VisitNth(ex: Base, t: Tree, p: Path, s: State, ghost plan: Plan, ghost k: nat, ghost j: nat, ghost j': nat,
                  ghost ents0: Entries, ghost ents: Entries)
    returns (r: Result<State>, ghost ents': Entries)
    requires Usable(ex) && RootAlone(ex, t) && Covers(t, plan) && plan == PlanOf(ex, t)
    requires k < |DirOrder(t)| && j < |Listing(t, DirOrder(t)[k])| && j' == j + 1 && p == Listing(t, DirOrder(t)[k])[j]
    requires Tracks(ex, t, plan, Before(t, k, j), s, ents)
    requires DirOrder(t)[k] in ents0 && ents == EnteredTo(t, plan, ents0, DirOrder(t)[k], j)
    ensures r.Ok? <==> LookupExisting(ex, p).Ok?
    ensures r.Ok? ==> Tracks(ex, t, plan, Before(t, k, j'), r.value, ents')
    ensures r.Ok? ==> ents' == EnteredTo(t, plan, ents0, DirOrder(t)[k], j')
  {
    BeforeWithin(t, k, j');
    ListedAt(t, plan, DirOrder(t)[k], j);
    assert Before(t, k, j') == Before(t, k, j) + [p];
    r, ents' := VisitEntry(ex, t, p, s, plan, Before(t, k, j), Before(t, k, j'), ents);
  }

  /** Renders as much of an inode as is known while walking, unless it was rendered before. */
  method CollectNew(t: Tree, p: Path, ino: Ino, linked: bool, dirs: map<HostIno, DirRec>, files: seq<FileRec>,
                    others: seq<OtherRec>,
                    ghost alloc: map<HostIno, Ino>, ghost fs: seq<Path>, ghost fs': seq<Path>, ghost ents: Entries)
    returns (dirs': map<HostIno, DirRec>, files': seq<FileRec>, others': seq<OtherRec>, ghost ents': Entries)
    requires ValidTree(t) && p in t && t[p].hino in alloc && alloc[t[p].hino] == ino
    requires AllNumbered(t, alloc, fs) && fs' == if linked then fs else fs + [p]
    requires linked ==> !t[p].HDir?
    requires files == FileRecs(t, alloc, fs) && others == OtherRecs(t, alloc, fs) && DirsAre(t, alloc, dirs, ents)
    ensures AllNumbered(t, alloc, fs')
    ensures files' == FileRecs(t, alloc, fs') && others' == OtherRecs(t, alloc, fs') && DirsAre(t, alloc, dirs', ents')
    ensures ents' == if t[p].HDir? then ents[p := []] else ents
  {
    dirs', files', others', ents' := dirs, files, others, ents;
    if linked {
      return;
    }
    assert Init(fs') == fs && Last(fs') == p;
    match t[p]
    case HDir(h, meta) =>
      DirsAddDir(t, alloc, dirs, ents, p);
      dirs' := dirs[h := DirRec(ino, meta, [])];
      ents' := ents[p := []];
    case HFile(_, meta, content) =>
      files' := files + [FileRec(ino, meta, content, [])];
    case HOther(_, meta, kind) =>
      others' := others + [OtherRec(ino, meta, kind)];
  }

  /** Whites out every base entry that is gone. */
  method AddWhiteouts(t: Tree, d: Path, existing: seq<DirEnt>, listing: seq<Path>, dirs0: map<HostIno, DirRec>,
                      inodes0: seq<Inode>,
                      ghost alloc: map<HostIno, Ino>, ghost ents0: Entries)
    returns (dirs: map<HostIno, DirRec>, inodes: seq<Inode>, ghost ents: Entries)
    requires ValidTree(t) && DirsAre(t, alloc, dirs0, ents0) && d in ents0 && ents0[d] == []
    requires forall p :: p in listing <==> p in Children(t, d)
    ensures DirsAre(t, alloc, dirs, ents)
    ensures ents == ents0[d := Dropped(t, d, existing)]
    ensures inodes == inodes0 + WhiteoutsFor(Dropped(t, d, existing))
  {
    dirs, inodes, ents := dirs0, inodes0, ents0;
    var i := 0;
    TakeAll(existing);
    while i < |existing|
      invariant 0 <= i <= |existing|
      invariant DirsAre(t, alloc, dirs, ents)
      invariant ents == ents0[d := Dropped(t, d, existing[..i])]
      invariant inodes == inodes0 + WhiteoutsFor(Dropped(t, d, existing[..i]))
    {
      var e := existing[i];
      TakeMore(existing, i);
      InitOfChild(d, e.name);
      if d + [e.name] !in listing {
        DroppedMore(t, d, existing[..i + 1], inodes0);
        inodes := inodes + [NewWhiteout(e.ino)];
        dirs, ents := AddEntry(t, dirs, d, e, alloc, ents);
      }
      i := i + 1;
    }
  }

  /** Handles the entries of the k-th directory in order. */
  method VisitListing(ex: Base, t: Tree, listing: seq<Path>, s0: State, ghost plan: Plan, ghost k: nat, ghost ents0: Entries)
    returns (r: Result<State>, ghost ents: Entries)
    requires Usable(ex) && RootAlone(ex, t) && Covers(t, plan) && plan == PlanOf(ex, t)
    requires k < |DirOrder(t)| && listing == Listing(t, DirOrder(t)[k])
    requires Tracks(ex, t, plan, Before(t, k, 0), s0, ents0) && DirOrder(t)[k] in ents0
    ensures r.Ok? <==> AllFound(ex, listing, |listing|)
    ensures r.Ok? ==> Tracks(ex, t, plan, Before(t, k, |listing|), r.value, ents)
    ensures r.Ok? ==> ents == EnteredTo(t, plan, ents0, DirOrder(t)[k], |listing|)
  {
    ents := ents0;
    var s, j := s0, 0;
    while j < |listing|
      invariant 0 <= j <= |listing|
      invariant Tracks(ex, t, plan, Before(t, k, j), s, ents)
      invariant ents == EnteredTo(t, plan, ents0, DirOrder(t)[k], j)
      invariant AllFound(ex, listing, j)
    {
      var next := j + 1;
      var visited;
      visited, ents := VisitNth(ex, t, listing[j], s, plan, k, j, next, ents0, ents);
      if visited.Err? {
        NotAllFound(ex, listing, j);
        return Err(visited.error), ents;
      }
      AllFoundNext(ex, listing, j, next);
      s := visited.value;
      j := next;
    }
    return Ok(s), ents;
  }

  /** Handles the k-th directory: white out what is gone, then handle what is there. */
  method VisitDir(ex: Base, t: Tree, d: Path, s: State, inodes0: seq<Inode>, ghost plan: Plan, ghost k: nat,
                  ghost k': nat, ghost ents0: Entries)
    returns (r: Result<State>, inodes: seq<Inode>, ghost ents: Entries)
    requires Usable(ex) && RootAlone(ex, t) && Covers(t, plan) && plan == PlanOf(ex, t)
    requires k < |DirOrder(t)| && k' == k + 1 && d == DirOrder(t)[k] && d in t && t[d].HDir?
    requires Tracks(ex, t, plan, VisitsOf(t, DirOrder(t)[..k]), s, ents0) && d in ents0 && ents0[d] == []
    ensures r.Ok? <==> LookupExisting(ex, d).Ok? && AllFound(ex, Listing(t, d), |Listing(t, d)|)
    ensures r.Ok? ==> Tracks(ex, t, plan, VisitsOf(t, DirOrder(t)[..k']), r.value, ents)
    ensures r.Ok? ==> inodes == inodes0 + WhiteoutsFor(plan.whites[d])
    ensures r.Ok? ==> ents == EnteredTo(t, plan, ents0[d := plan.whites[d]], d, |Listing(t, d)|)
  {
    inodes, ents := inodes0, ents0;
    var existing := BaseDirEntries(ex, d);
    if existing.Err? {
      return Err(existing.error), inodes, ents;
    }
    WhitesOf(ex, t, d);
    var listing := ListSorted(Children(t, d));
    var dirs;
    dirs, inodes, ents := AddWhiteouts(t, d, existing.value, listing, s.dirs, inodes, plan.alloc, ents);
    r, ents := VisitListing(ex, t, listing, s.(dirs := dirs), plan, k, ents);
    BeforeWithin(t, k, |listing|);
  }

  /** The entries the base has in a directory; none if there is no such directory. */
  method BaseDirEntries(ex: Base, d: Path) returns (r: Result<seq<DirEnt>>)
    requires Usable(ex)
    ensures r.Ok? <==> LookupExisting(ex, d).Ok?
    ensures r.Ok? ==> r.value == BaseEntries(ex, d)
  {
    var existing := LookupBase(ex, d);
    match existing
    case Err(e) => return Err(e);
    case Ok(None) => return Ok([]);
    case Ok(Some(i)) => return Ok(if i.mode.Dir? then i.mode.entries else []);
  }

  lemma DroppedMore(t: Tree, d: Path, es: seq<DirEnt>, inodes: seq<Inode>)
    requires es != [] && d + [Last(es).name] !in t
    ensures var a, b := Dropped(t, d, Init(es)), Dropped(t, d, es);
            && b == a + [Last(es)]
            && inodes + WhiteoutsFor(b) == (inodes + WhiteoutsFor(a)) + [NewWhiteout(Last(es).ino)]
  {
    var a := Dropped(t, d, Init(es));
    assert Init(a + [Last(es)]) == a && Last(a + [Last(es)]) == Last(es);
    AppendSnoc(inodes, WhiteoutsFor(a), NewWhiteout(Last(es).ino));
  }

  lemma InitOfChild(d: Path, name: Name)
    ensures d + [name] != [] && Init(d + [name]) == d
  {
  }

  /** Walks the whole tree. */
  method WalkTree(ex: Base, t: Tree, ghost plan: Plan) returns (r: Result<State>, inodes: seq<Inode>, ghost ents: Entries)
    requires Usable(ex) && RootAlone(ex, t) && Covers(t, plan) && plan == PlanOf(ex, t)
    ensures r.Ok? <==> Buildable(ex, t)
    ensures r.Ok? ==> Tracks(ex, t, plan, Visits(t), r.value, ents) && EntsAre(t, plan, ents, |DirOrder(t)|)
    ensures r.Ok? ==> inodes == Whiteouts(plan, DirOrder(t))
  {
    var s;
    s, ents := Start(ex, t, plan);
    inodes := [];
    var ds := ListSorted(DirSet(t));
    var k := 0;
    EntsStart(t, plan);
    TakeAll(ds);
    while k < |ds|
      invariant 0 <= k <= |ds|
      invariant Tracks(ex, t, plan, VisitsOf(t, ds[..k]), s, ents)
      invariant EntsAre(t, plan, ents, k)
      invariant inodes == Whiteouts(plan, ds[..k])
      invariant DirsFound(ex, t, k)
    {
      var next := k + 1;
      NextIsEmpty(t, plan, ents, k);
      EntsNext(t, plan, ents, k, next);
      TakeMore(ds, k);
      var visited;
      visited, inodes, ents := VisitDir(ex, t, ds[k], s, inodes, plan, k, next, ents);
      if visited.Err? {
        NotBuildable(ex, t, ds[k]);
        return Err(visited.error), inodes, ents;
      }
      DirsFoundNext(ex, t, k, next);
      s := visited.value;
      k := next;
    }
    DirsFoundBuildable(ex, t);
    return Ok(s), inodes, ents;
  }

  lemma NotBuildable(ex: Base, t: Tree, d: Path)
    requires Usable(ex) && d in t && !DirFound(ex, t, d)
    ensures !Buildable(ex, t)
  {
    if Buildable(ex, t) {
      DirFoundIfBuildable(ex, t, d);
    }
  }

  lemma DirsFoundNext(ex: Base, t: Tree, k: nat, k': nat)
    requires Usable(ex) && k < |DirOrder(t)| && k' == k + 1 && DirsFound(ex, t, k) && DirFound(ex, t, DirOrder(t)[k])
    ensures DirsFound(ex, t, k')
  {
  }

  /** Drains the directory records in whatever order they come. */
  method DrainDirs(env: Env, t: Tree, dirs: map<HostIno, DirRec>, ghost plan: Plan, ghost ents: Entries)
    returns (inodes: seq<Inode>)
    requires Covers(t, plan) && DirsAre(t, plan.alloc, dirs, ents)
    requires ents.Keys == DirSet(t)
    requires forall d | d in ents :: d in t && t[d].HDir? && ents[d] == DirEntries(t, plan, d)
    ensures multiset(inodes) == multiset(RenderAll(env, t, plan, DirOrder(t)))
  {
    inodes := [];
    var rest := dirs;
    ghost var ps: seq<Path> := [];
    forall p | p in DirSet(t) ensures t[p].hino in dirs {
      assert DirIs(t, plan.alloc, dirs, ents, p);
    }
    while rest != map[]
      invariant rest.Keys <= dirs.Keys && forall h | h in rest :: rest[h] == dirs[h]
      invariant NoDups(ps) && (forall p :: p in ps <==> p in DirSet(t) && t[p].hino !in rest)
      invariant inodes == RenderAll(env, t, plan, ps)
      decreases |rest|
    {
      var h :| h in rest;
      ghost var p := DirOfHino(t, plan.alloc, dirs, ents, h);
      Drained(t, ps, p, rest, h);
      assert Init(ps + [p]) == ps && Last(ps + [p]) == p;
      assert NewDir(rest[h]) == Render(env, t, plan, p);
      inodes := inodes + [NewDir(rest[h])];
      rest := rest - {h};
      ps := ps + [p];
    }
    SortIsSorted(DirSet(t));
    SameSetSameMultiset(ps, DirOrder(t));
    RenderAllPermuted(env, t, plan, ps, DirOrder(t));
  }

  lemma DirOfHino(t: Tree, alloc: map<HostIno, Ino>, dirs: map<HostIno, DirRec>, ents: Entries, h: HostIno) returns (p: Path)
    requires DirsAre(t, alloc, dirs, ents) && h in dirs
    ensures p in ents && p in t && t[p].HDir? && t[p].hino == h && h in alloc && dirs[h] == DirRec(alloc[h], t[p].meta, ents[p])
  {
    assert Backed(t, ents, h);
    p :| p in ents && p in t && t[p].hino == h;
    assert DirIs(t, alloc, dirs, ents, p);
  }

  /** Taking out one record accounts for exactly one directory. */
  lemma Drained(t: Tree, ps: seq<Path>, p: Path, rest: map<HostIno, DirRec>, h: HostIno)
    requires ValidTree(t) && NoDups(ps) && (forall p :: p in ps <==> p in DirSet(t) && t[p].hino !in rest)
    requires p in DirSet(t) && t[p].hino == h && h in rest
    ensures NoDups(ps + [p])
    ensures forall q :: q in ps + [p] <==> q in DirSet(t) && t[q].hino !in rest - {h}
  {
    forall q ensures q in ps + [p] <==> q in DirSet(t) && t[q].hino !in rest - {h} {
      if q in DirSet(t) && t[q].hino == h {
        assert SameInode(t, p, q);
      }
    }
  }

  /** Reads all files as one stream. */
  method ReadFiles(files: seq<FileRec>, bufferSize: nat) returns (stream: Bytes)
    requires bufferSize > 0
    ensures stream == Flatten(ContentsOf(files))
  {
    var fsStream := new FilesystemStream();
    var i := 0;
    TakeAll(ContentsOf(files));
    while i < |files|
      invariant 0 <= i <= |files| && fsStream.Valid() && fresh(fsStream)
      invariant fsStream.Remaining() == Flatten(ContentsOf(files)[..i])
    {
      TakeMore(ContentsOf(files), i);
      fsStream.Push(files[i].content);
      i := i + 1;
    }
    stream := fsStream.ReadToEnd(_ => bufferSize);
  }

  /**
   * Renders the tree over the base.  The build gets through exactly when no path of the tree runs
   * through an entry the base has whited out, and touches the store only then.  What it returns is
   * the rendering of the tree, sorted by number, and every chunk of the stream has been stored.
   */
  method BuildDelta(env: Env, t: Tree, oci: Image, ex: Base, verity: VerityData, manifest: Manifest)
    returns (r: Result<Layer>)
    requires Usable(ex) && BaseUnlisted(ex) && ValidTree(t) && GoodChunker(env)
    modifies oci, verity, manifest
    ensures !Buildable(ex, t) ==> r.Err? && unchanged(oci, verity, manifest)
    ensures Buildable(ex, t) && ContentAddressed(env, old(oci.blobs)) ==> r.Ok?
    ensures r.Ok? ==>
              && Rendering(env, ex, t, r.value) && RootUnlistedIn(r.value)
              && Effects(oci.blobs, verity.m, manifest.layers) ==
                 StoreAll(env, old(Effects(oci.blobs, verity.m, manifest.layers)), env.cut(Stream(t)))
  {
    ghost var plan := PlanOf(ex, t);
    PlanShape(ex, t);
    UnlistedIsAlone(ex, t);
    var walked, pfsInodes;
    ghost var ents;
    walked, pfsInodes, ents := WalkTree(ex, t, plan);
    if walked.Err? {
      return Err(walked.error);
    }
    var s := walked.value;
    VisitsComplete(t);
    CoversNumbers(t, plan, Firsts(t, Visits(t)));
    CollectedContents(t, plan.alloc, Firsts(t, Visits(t)));
    var stream := ReadFiles(s.got.files, 1024);
    assert stream == Stream(t);
    var processed := ProcessChunks(env, oci, env.cut(stream), s.got.files, verity, manifest);
    if processed.Err? {
      return Err(processed.error);
    }
    EntsEnd(t, plan, ents);
    var dirInodes := DrainDirs(env, t, s.dirs, plan, ents);
    var fileInodes := NewFiles(processed.value);
    var otherInodes := NewOthers(s.got.others);
    FilesRender(env, t, plan, s.got.files);
    OtherRecsRender(env, t, plan, Firsts(t, Visits(t)));
    assert multiset(pfsInodes + dirInodes + fileInodes + otherInodes) == multiset(Unsorted(env, t, plan));
    var inodes := SortByIno(pfsInodes + dirInodes + fileInodes + otherInodes);
    RenderingUnlisted(env, ex, t, inodes);
    return Ok(inodes);
  }
}
