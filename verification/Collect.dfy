/** Turning what a build has collected into inodes. */
module Collect {
  import opened Types
  import opened Seqs
  import opened HostTree
  import opened Store
  import opened Chunks
  import opened ChunkAssignment
  import opened Plans

  datatype DirRec = DirRec(ino: Ino, meta: Meta, entries: seq<DirEnt>)
  datatype OtherRec = OtherRec(ino: Ino, meta: Meta, kind: OtherKind)

  function NewDir(d: DirRec): Inode {
    Inode(d.ino, Dir(false, d.entries), d.meta)
  }

  function NewFile(f: FileRec): Inode {
    Inode(f.ino, File(f.chunks), f.meta)
  }

  function NewOther(o: OtherRec): Inode {
    Inode(o.ino, OtherMode(o.kind), o.meta)
  }

  ghost predicate AllNumbered(t: Tree, alloc: map<HostIno, Ino>, ps: seq<Path>) {
    forall p | p in ps :: p in t && t[p].hino in alloc
  }

  ghost function FileRecOf(t: Tree, alloc: map<HostIno, Ino>, p: Path): FileRec
    requires p in t && t[p].HFile? && t[p].hino in alloc
  {
    FileRec(alloc[t[p].hino], t[p].meta, t[p].content, [])
  }

  ghost function FileRecs(t: Tree, alloc: map<HostIno, Ino>, ps: seq<Path>): seq<FileRec>
    requires AllNumbered(t, alloc, ps)
  {
    if ps == [] then [] else
    var rest, p := FileRecs(t, alloc, Init(ps)), Last(ps);
    if t[p].HFile? then rest + [FileRecOf(t, alloc, p)] else rest
  }

  ghost function OtherRecs(t: Tree, alloc: map<HostIno, Ino>, ps: seq<Path>): seq<OtherRec>
    requires AllNumbered(t, alloc, ps)
  {
    if ps == [] then [] else
    var rest, p := OtherRecs(t, alloc, Init(ps)), Last(ps);
    if t[p].HOther? then rest + [OtherRec(alloc[t[p].hino], t[p].meta, t[p].kind)] else rest
  }

  lemma {:induction false} FileRecsLength(t: Tree, alloc: map<HostIno, Ino>, ps: seq<Path>)
    requires AllNumbered(t, alloc, ps)
    ensures |FileRecs(t, alloc, ps)| == |FilesIn(t, ps)|
  {
    if ps != [] {
      FileRecsLength(t, alloc, Init(ps));
    }
  }

  /** The collected files are those of the file paths, in order. */
  lemma {:induction false} FileRecsAt(t: Tree, alloc: map<HostIno, Ino>, ps: seq<Path>, i: nat)
    requires AllNumbered(t, alloc, ps) && i < |FilesIn(t, ps)|
    ensures |FileRecs(t, alloc, ps)| == |FilesIn(t, ps)|
    ensures var p := FilesIn(t, ps)[i];
            p in t && t[p].HFile? && t[p].hino in alloc && FileRecs(t, alloc, ps)[i] == FileRecOf(t, alloc, p)
  {
    FileRecsLength(t, alloc, ps);
    FileRecsLength(t, alloc, Init(ps));
    if i < |FilesIn(t, Init(ps))| {
      FileRecsAt(t, alloc, Init(ps), i);
    }
  }

  lemma {:induction false} OtherRecsRender(env: Env, t: Tree, plan: Plan, ps: seq<Path>)
    requires Covers(t, plan) && AllNumbered(t, plan.alloc, ps)
    ensures NewOthers(OtherRecs(t, plan.alloc, ps)) == RenderAll(env, t, plan, OthersIn(t, ps))
  {
    if ps != [] {
      assert forall p | p in Init(ps) :: p in ps;
      OtherRecsRender(env, t, plan, Init(ps));
    }
  }

  function NewOthers(os: seq<OtherRec>): seq<Inode> {
    if os == [] then [] else NewOthers(Init(os)) + [NewOther(Last(os))]
  }

  function NewFiles(fs: seq<FileRec>): seq<Inode> {
    if fs == [] then [] else NewFiles(Init(fs)) + [NewFile(Last(fs))]
  }

  // The files' chunks.

  /** A file's place in the stream, found by its host inode, is where its index says. */
  lemma {:induction false} StartIsOffset(t: Tree, fs: seq<Path>, i: nat)
    requires (forall p | p in fs :: p in t && t[p].HFile?) && Apart(t, fs) && i < |fs|
    ensures StartOf(t, fs, t[fs[i]].hino) == Offset(ContentsAt(t, fs), i)
  {
    assert fs[i] in fs && Last(fs) in fs;
    var init := Init(fs);
    if i < |init| {
      assert forall p | p in init :: p in fs;
      StartIsOffset(t, init, i);
      assert !SameInode(t, fs[i], fs[|fs| - 1]);
      assert ContentsAt(t, init)[..i] == ContentsAt(t, fs)[..i];
    } else {
      assert ContentsAt(t, init) == ContentsAt(t, fs)[..i];
    }
  }

  lemma CollectedContents(t: Tree, alloc: map<HostIno, Ino>, ps: seq<Path>)
    requires AllNumbered(t, alloc, ps)
    ensures ContentsOf(FileRecs(t, alloc, ps)) == ContentsAt(t, FilesIn(t, ps))
    ensures forall i | 0 <= i < |FileRecs(t, alloc, ps)| :: FileRecs(t, alloc, ps)[i].chunks == []
  {
    var fs, rs := FilesIn(t, ps), FileRecs(t, alloc, ps);
    FileRecsLength(t, alloc, ps);
    forall i | 0 <= i < |rs| ensures rs[i].chunks == [] && ContentsOf(rs)[i] == ContentsAt(t, fs)[i] {
      FileRecsAt(t, alloc, ps, i);
    }
  }

  lemma WindowIsChunks(env: Env, contents: seq<Bytes>, i: nat)
    requires i < |contents|
    ensures Window(Refs(env, env.cut(Flatten(contents))), Offset(contents, i), Offset(contents, i + 1)) ==
            ChunksAt(env, Flatten(contents), Offset(contents, i), |contents[i]|)
  {
    FlattenSplit(contents, i);
    WindowByLength(Refs(env, env.cut(Flatten(contents))), Offset(contents, i), Offset(contents, i + 1), |contents[i]|);
  }

  lemma RenderFile(env: Env, t: Tree, plan: Plan, p: Path)
    requires Covers(t, plan) && p in t && t[p].HFile?
    ensures t[p].hino in plan.alloc
    ensures Render(env, t, plan, p) ==
            Inode(plan.alloc[t[p].hino], File(ChunksAt(env, Stream(t), StartOf(t, FilePaths(t), t[p].hino), |t[p].content|)), t[p].meta)
  {
    ShapeHas(t, plan, p);
  }

  /** The i-th collected file, with the pieces handed out to it, renders as its path does. */
  lemma FileRenders(env: Env, t: Tree, plan: Plan, files: seq<FileRec>, i: nat)
    requires Covers(t, plan) && i < |FilePaths(t)|
    requires AllNumbered(t, plan.alloc, Firsts(t, Visits(t)))
    requires files == FileRecs(t, plan.alloc, Firsts(t, Visits(t)))
    ensures |files| == |FilePaths(t)| && FilePaths(t)[i] in t
    ensures NewFile(WithWindows(files, Refs(env, env.cut(Stream(t))))[i]) == Render(env, t, plan, FilePaths(t)[i])
  {
    var fs := FilePaths(t);
    assert fs[i] in fs;
    FileRecsAt(t, plan.alloc, Firsts(t, Visits(t)), i);
    CollectedContents(t, plan.alloc, Firsts(t, Visits(t)));
    ListsApart(t);
    StartIsOffset(t, fs, i);
    WindowIsChunks(env, ContentsAt(t, fs), i);
    RenderFile(env, t, plan, fs[i]);
  }

  lemma FilesRender(env: Env, t: Tree, plan: Plan, files: seq<FileRec>)
    requires Covers(t, plan) && AllNumbered(t, plan.alloc, Firsts(t, Visits(t)))
    requires files == FileRecs(t, plan.alloc, Firsts(t, Visits(t)))
    ensures NewFiles(WithWindows(files, Refs(env, env.cut(Stream(t))))) == RenderAll(env, t, plan, FilePaths(t))
  {
    var fs, with := FilePaths(t), WithWindows(files, Refs(env, env.cut(Stream(t))));
    FileRecsLength(t, plan.alloc, Firsts(t, Visits(t)));
    forall i | 0 <= i < |fs| ensures RendersAs(env, t, plan, with[i], fs[i]) {
      FileRenders(env, t, plan, files, i);
    }
    NewFilesAre(env, t, plan, with, fs);
  }

  ghost predicate RendersAs(env: Env, t: Tree, plan: Plan, f: FileRec, p: Path)
    requires Covers(t, plan)
  {
    p in t && NewFile(f) == Render(env, t, plan, p)
  }

  lemma {:induction false} NewFilesAre(env: Env, t: Tree, plan: Plan, files: seq<FileRec>, fs: seq<Path>)
    requires Covers(t, plan) && |files| == |fs| && forall i | 0 <= i < |fs| :: RendersAs(env, t, plan, files[i], fs[i])
    ensures (forall p | p in fs :: p in t) && NewFiles(files) == RenderAll(env, t, plan, fs)
  {
    if fs != [] {
      NewFilesAre(env, t, plan, Init(files), Init(fs));
      assert RendersAs(env, t, plan, files[|fs| - 1], fs[|fs| - 1]);
    }
  }

  // Draining the directories in any order.

  lemma {:induction false} RenderAllAppend(env: Env, t: Tree, plan: Plan, a: seq<Path>, b: seq<Path>)
    requires Covers(t, plan) && (forall p | p in a :: p in t) && (forall p | p in b :: p in t)
    ensures RenderAll(env, t, plan, a + b) == RenderAll(env, t, plan, a) + RenderAll(env, t, plan, b)
  {
    if b == [] {
      assert a + b == a;
    } else {
      InitAppend(a, b);
      RenderAllAppend(env, t, plan, a, Init(b));
      AppendSnoc(RenderAll(env, t, plan, a), RenderAll(env, t, plan, Init(b)), Render(env, t, plan, Last(b)));
    }
  }

  lemma RenderAllRemove(env: Env, t: Tree, plan: Plan, ps: seq<Path>, j: nat)
    requires Covers(t, plan) && (forall p | p in ps :: p in t) && j < |ps|
    ensures ps[j] in t && forall p | p in ps[..j] + ps[j + 1..] :: p in t
    ensures multiset(RenderAll(env, t, plan, ps)) ==
            multiset(RenderAll(env, t, plan, ps[..j] + ps[j + 1..])) + multiset{Render(env, t, plan, ps[j])}
  {
    var a, x, b := ps[..j], ps[j], ps[j + 1..];
    assert ps == a + [x] + b;
    RenderAllAppend(env, t, plan, a + [x], b);
    RenderAllAppend(env, t, plan, a, b);
    assert Init(a + [x]) == a && Last(a + [x]) == x;
  }

  /** Rendering the same paths in another order yields the same inodes the same number of times. */
  lemma {:induction false} RenderAllPermuted(env: Env, t: Tree, plan: Plan, ps: seq<Path>, qs: seq<Path>)
    requires Covers(t, plan) && (forall p | p in ps :: p in t) && (forall p | p in qs :: p in t)
    requires multiset(ps) == multiset(qs)
    ensures multiset(RenderAll(env, t, plan, ps)) == multiset(RenderAll(env, t, plan, qs))
    decreases |ps|
  {
    assert |multiset(ps)| == |ps| && |multiset(qs)| == |qs|;
    if ps != [] {
      var j := IndexIn(ps, qs);
      var ps', qs' := Init(ps), qs[..j] + qs[j + 1..];
      RenderAllRemove(env, t, plan, qs, j);
      RemoveSame(ps, qs, j);
      RenderAllPermuted(env, t, plan, ps', qs');
    }
  }

  lemma IndexIn<T>(ps: seq<T>, qs: seq<T>) returns (j: nat)
    requires ps != [] && multiset(ps) == multiset(qs)
    ensures j < |qs| && qs[j] == Last(ps)
  {
    assert Last(ps) in multiset(qs);
    j :| 0 <= j < |qs| && qs[j] == Last(ps);
  }

  lemma RemoveSame<T>(ps: seq<T>, qs: seq<T>, j: nat)
    requires ps != [] && multiset(ps) == multiset(qs) && j < |qs| && qs[j] == Last(ps)
    ensures multiset(Init(ps)) == multiset(qs[..j] + qs[j + 1..])
  {
    Rejoin(ps);
    assert multiset(ps) == multiset(Init(ps)) + multiset{Last(ps)};
    MultisetOfSplit(qs, j);
    assert multiset(Init(ps)) == multiset(ps) - multiset{Last(ps)};
    assert multiset(qs[..j] + qs[j + 1..]) == multiset(qs) - multiset{Last(ps)};
  }
}
