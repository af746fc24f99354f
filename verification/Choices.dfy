/** What the choice of compression makes of a layer, and what a rebuild with another choice adds. */
module Choices {
  import opened Types
  import opened Seqs
  import opened HostTree
  import opened Sorting
  import opened Store
  import opened Chunks
  import opened ChunkAssignment
  import opened Plans
  import opened View
  import opened Deltas
  import opened Collect
  import opened Images
  import opened Steps

  /** Every chunk is stored in the same form under both choices. */
  ghost predicate StoredAlike(env: Env, other: Env, cs: seq<Bytes>) {
    forall k | 0 <= k < |cs| :: StoredCompressed(env, env.zstd, cs[k]) == StoredCompressed(other, other.zstd, cs[k])
  }

  /** That is so exactly when the choices are the same or no chunk shrinks. */
  lemma StoredAlikeIff(env: Env, other: Env, cs: seq<Bytes>)
    requires SameLibraries(env, other)
    ensures StoredAlike(env, other, cs) <==>
            env.zstd == other.zstd || forall k | 0 <= k < |cs| :: |env.compress(cs[k])| >= |cs[k]|
  {
    if StoredAlike(env, other, cs) && env.zstd != other.zstd {
      forall k | 0 <= k < |cs| ensures |env.compress(cs[k])| >= |cs[k]| {
        assert StoredCompressed(env, env.zstd, cs[k]) == StoredCompressed(other, other.zstd, cs[k]);
      }
    }
  }

  // Chunks stored alike give the same inodes.

  lemma SameRefs(env: Env, other: Env, cs: seq<Bytes>)
    requires SameLibraries(env, other) && StoredAlike(env, other, cs)
    ensures Refs(env, cs) == Refs(other, cs)
  {
    forall k | 0 <= k < |cs| ensures Refs(env, cs)[k] == Refs(other, cs)[k] {
      assert StoredCompressed(env, env.zstd, cs[k]) == StoredCompressed(other, other.zstd, cs[k]);
    }
  }

  lemma SameChunks(env: Env, other: Env, t: Tree, h: HostIno, len: nat)
    requires ValidTree(t) && Refs(env, env.cut(Stream(t))) == Refs(other, other.cut(Stream(t)))
    ensures ChunksFor(env, t, h, len) == ChunksFor(other, t, h, len)
  {
  }

  lemma SameRender(env: Env, other: Env, t: Tree, plan: Plan, p: Path)
    requires Covers(t, plan) && p in t && Refs(env, env.cut(Stream(t))) == Refs(other, other.cut(Stream(t)))
    ensures Render(env, t, plan, p) == Render(other, t, plan, p)
  {
    ShapeHas(t, plan, p);
    match t[p]
    case HDir(_, _) =>
    case HFile(_, _, c) => SameChunks(env, other, t, t[p].hino, |c|);
    case HOther(_, _, _) =>
  }

  lemma {:induction false} SameRenderAll(env: Env, other: Env, t: Tree, plan: Plan, ps: seq<Path>)
    requires Covers(t, plan) && Refs(env, env.cut(Stream(t))) == Refs(other, other.cut(Stream(t)))
    requires forall p | p in ps :: p in t
    ensures RenderAll(env, t, plan, ps) == RenderAll(other, t, plan, ps)
  {
    if ps != [] {
      assert forall p | p in Init(ps) :: p in ps;
      SameRenderAll(env, other, t, plan, Init(ps));
      SameRender(env, other, t, plan, Last(ps));
    }
  }

  lemma AlikeAssembles(env: Env, other: Env, t: Tree, plan: Plan)
    requires SameLibraries(env, other) && Covers(t, plan) && StoredAlike(env, other, env.cut(Stream(t)))
    ensures Assemble(env, t, plan) == Assemble(other, t, plan)
  {
    SameRefs(env, other, env.cut(Stream(t)));
    SameRenderAll(env, other, t, plan, DirOrder(t));
    SameRenderAll(env, other, t, plan, FilePaths(t));
    SameRenderAll(env, other, t, plan, OtherPaths(t));
  }

  // A chunk stored in two forms shows in some file.

  ghost predicate SameLengths(rs: seq<ChunkRef>, rs': seq<ChunkRef>) {
    |rs| == |rs'| && forall k | 0 <= k < |rs| :: rs[k].len == rs'[k].len
  }

  lemma {:induction false} SameTotals(rs: seq<ChunkRef>, rs': seq<ChunkRef>)
    requires SameLengths(rs, rs')
    ensures Total(rs) == Total(rs')
  {
    if rs != [] {
      SameTotals(Init(rs), Init(rs'));
    }
  }

  /** Chunk k and the window share a byte. */
  ghost predicate Across(rs: seq<ChunkRef>, k: nat, lo: nat, hi: nat)
    requires k < |rs|
  {
    Max(lo, Total(rs[..k])) < Min(hi, Total(rs[..k]) + rs[k].len)
  }

  /** A chunk that lies across the window is told by the window's pieces. */
  lemma {:induction false} WindowTells(rs: seq<ChunkRef>, rs': seq<ChunkRef>, lo: nat, hi: nat, k: nat)
    requires SameLengths(rs, rs') && Window(rs, lo, hi) == Window(rs', lo, hi) && k < |rs| && Across(rs, k, lo, hi)
    ensures rs[k].compressed == rs'[k].compressed
    decreases |rs|
  {
    var a, b := Piece(Last(rs), Total(Init(rs)), lo, hi), Piece(Last(rs'), Total(Init(rs')), lo, hi);
    SameTotals(Init(rs), Init(rs'));
    assert |a| == |b|;
    SplitEqual(Window(Init(rs), lo, hi), a, Window(Init(rs'), lo, hi), b);
    if k < |rs| - 1 {
      assert Init(rs)[..k] == rs[..k];
      WindowTells(Init(rs), Init(rs'), lo, hi, k);
    } else {
      assert Init(rs) == rs[..k];
    }
  }

  lemma SplitEqual<T>(a: seq<T>, b: seq<T>, a': seq<T>, b': seq<T>)
    requires a + b == a' + b' && |b| == |b'|
    ensures a == a' && b == b'
  {
    assert |a| == |a'|;
    assert a == (a + b)[..|a|] && a' == (a' + b')[..|a|];
    assert b == (a + b)[|a|..] && b' == (a' + b')[|a|..];
  }

  /** Every byte of the stream belongs to some file. */
  lemma {:induction false} FileAt(contents: seq<Bytes>, x: nat) returns (i: nat)
    requires x < |Flatten(contents)|
    ensures i < |contents| && Offset(contents, i) <= x < Offset(contents, i + 1)
  {
    var init := Init(contents);
    i := |init|;
    assert contents[..i] == init && contents[..i + 1] == contents;
    if x < |Flatten(init)| {
      i := FileAt(init, x);
      assert contents[..i] == init[..i] && contents[..i + 1] == init[..i + 1];
    }
  }

  lemma {:induction false} ChunkStart(env: Env, cs: seq<Bytes>, k: nat)
    requires k < |cs| && forall j | 0 <= j < |cs| :: cs[j] != []
    ensures Total(Refs(env, cs)[..k]) + |cs[k]| <= |Flatten(cs)|
  {
    assert Refs(env, cs)[..k] == Refs(env, cs[..k]);
    TotalOfRefs(env, cs[..k]);
    FlattenSplit(cs, k);
  }

  /** Every chunk lies across the window of some file. */
  lemma ChunkInFile(env: Env, cs: seq<Bytes>, contents: seq<Bytes>, k: nat) returns (i: nat)
    requires Flatten(cs) == Flatten(contents) && k < |cs| && forall j | 0 <= j < |cs| :: cs[j] != []
    ensures i < |contents| && Across(Refs(env, cs), k, Offset(contents, i), Offset(contents, i + 1))
  {
    ChunkStart(env, cs, k);
    i := FileAt(contents, Total(Refs(env, cs)[..k]));
  }

  /** The pieces of file i when cs are the chunks of the files' stream. */
  function PiecesOf(env: Env, cs: seq<Bytes>, contents: seq<Bytes>, i: nat): seq<FileChunk>
    requires i < |contents|
  {
    Window(Refs(env, cs), Offset(contents, i), Offset(contents, i + 1))
  }

  /** If all files get the same pieces, all chunks are stored in the same form. */
  lemma SamePiecesTell(env: Env, other: Env, cs: seq<Bytes>, contents: seq<Bytes>, k: nat)
    requires Flatten(cs) == Flatten(contents) && k < |cs| && forall j | 0 <= j < |cs| :: cs[j] != []
    requires forall i | 0 <= i < |contents| :: PiecesOf(env, cs, contents, i) == PiecesOf(other, cs, contents, i)
    ensures StoredCompressed(env, env.zstd, cs[k]) == StoredCompressed(other, other.zstd, cs[k])
  {
    var i := ChunkInFile(env, cs, contents, k);
    assert PiecesOf(env, cs, contents, i) == PiecesOf(other, cs, contents, i);
    WindowTells(Refs(env, cs), Refs(other, cs), Offset(contents, i), Offset(contents, i + 1), k);
  }

  /** A file's pieces, by its index. */
  lemma PiecesAt(env: Env, t: Tree, i: nat)
    requires ValidTree(t) && i < |FilePaths(t)|
    ensures FilePaths(t)[i] in FilePaths(t)
    ensures var p := FilePaths(t)[i];
            ChunksFor(env, t, t[p].hino, |t[p].content|) == PiecesOf(env, env.cut(Stream(t)), ContentsAt(t, FilePaths(t)), i)
  {
    var fs := FilePaths(t);
    assert fs[i] in fs;
    ListsApart(t);
    StartIsOffset(t, fs, i);
    WindowIsChunks(env, ContentsAt(t, fs), i);
  }

  lemma SamePiecesAlike(env: Env, other: Env, t: Tree)
    requires SameLibraries(env, other) && GoodChunker(env) && ValidTree(t)
    requires forall p | p in FilePaths(t) ::
               ChunksFor(env, t, t[p].hino, |t[p].content|) == ChunksFor(other, t, t[p].hino, |t[p].content|)
    ensures StoredAlike(env, other, env.cut(Stream(t)))
  {
    var cs, contents := env.cut(Stream(t)), ContentsAt(t, FilePaths(t));
    forall i | 0 <= i < |contents| ensures PiecesOf(env, cs, contents, i) == PiecesOf(other, cs, contents, i) {
      PiecesAt(env, t, i);
      PiecesAt(other, t, i);
    }
    AllTell(env, other, cs, contents);
  }

  lemma AllTell(env: Env, other: Env, cs: seq<Bytes>, contents: seq<Bytes>)
    requires Flatten(cs) == Flatten(contents) && forall j | 0 <= j < |cs| :: cs[j] != []
    requires forall i | 0 <= i < |contents| :: PiecesOf(env, cs, contents, i) == PiecesOf(other, cs, contents, i)
    ensures StoredAlike(env, other, cs)
  {
    forall k | 0 <= k < |cs| ensures StoredCompressed(env, env.zstd, cs[k]) == StoredCompressed(other, other.zstd, cs[k]) {
      SamePiecesTell(env, other, cs, contents, k);
    }
  }

  lemma SameLayerSamePieces(env: Env, other: Env, t: Tree, plan: Plan, p: Path)
    requires Covers(t, plan) && Distinct(plan) && Assemble(env, t, plan) == Assemble(other, t, plan) && p in t && t[p].HFile?
    ensures ChunksFor(env, t, t[p].hino, |t[p].content|) == ChunksFor(other, t, t[p].hino, |t[p].content|)
  {
    var l := Assemble(env, t, plan);
    AssembleFunctional(env, t, plan);
    RenderedIn(env, t, plan, p);
    RenderedIn(other, t, plan, p);
    SameMembers(l, Unsorted(env, t, plan));
    SameMembers(l, Unsorted(other, t, plan));
    assert Render(env, t, plan, p) in l && Render(other, t, plan, p) in l;
  }

  /** Two choices of compression give one layer if and only if they store every chunk in the same form. */
  lemma SameAssembleIff(env: Env, other: Env, t: Tree, plan: Plan)
    requires SameLibraries(env, other) && GoodChunker(env) && Covers(t, plan) && Distinct(plan)
    ensures Assemble(env, t, plan) == Assemble(other, t, plan) <==> StoredAlike(env, other, env.cut(Stream(t)))
  {
    if StoredAlike(env, other, env.cut(Stream(t))) {
      AlikeAssembles(env, other, t, plan);
    } else if Assemble(env, t, plan) == Assemble(other, t, plan) {
      forall p | p in FilePaths(t)
        ensures ChunksFor(env, t, t[p].hino, |t[p].content|) == ChunksFor(other, t, t[p].hino, |t[p].content|)
      {
        SameLayerSamePieces(env, other, t, plan, p);
      }
      SamePiecesAlike(env, other, t);
    }
  }

  /**
   * Building the tree an image shows once more, with any choice of compression, renders the newest
   * layer again if and only if every chunk is stored in the same form; it goes on showing the tree.
   */
  lemma RebuildIsTopIff(env: Env, other: Env, ser: Rootfs -> Bytes, s: ImageState, t: Tree, plan: Plan, l: Layer, s': ImageState)
    requires Trusted(other) && SameLibraries(env, other) && Good(env, s, t, plan) && DeltaStep(other, ser, s, t, l, s')
    ensures l == s.rootfs.metadatas[0] <==> StoredAlike(env, other, env.cut(Stream(t)))
    ensures l == s.rootfs.metadatas[0] ==> s'.rootfs.metadatas == s.rootfs.metadatas
    ensures Good(if l in s.rootfs.metadatas then env else other, s', t, plan)
  {
    var layers := s.rootfs.metadatas;
    PlanRepeats(env, layers, t, plan, t);
    RenderingUnique(other, Some(layers), t, l);
    SameAssembleIff(env, other, t, plan);
    if l in layers {
      StaleKeepsOldView(env, other, ser, s, t, plan, t, l, s');
    } else {
      DistinctIffNoSplit(env, layers, t, plan, t);
      DeltaGood(env, other, ser, s, t, plan, t, l, s');
    }
  }

  /** So with one choice a delta of the tree an image shows adds no layer. */
  lemma RebuildAddsNothing(env: Env, ser: Rootfs -> Bytes, s: ImageState, t: Tree, plan: Plan, l: Layer, s': ImageState)
    requires Trusted(env) && Good(env, s, t, plan) && DeltaStep(env, ser, s, t, l, s')
    ensures l == s.rootfs.metadatas[0] && s'.rootfs.metadatas == s.rootfs.metadatas && Good(env, s', t, plan)
  {
    StoredAlikeIff(env, env, env.cut(Stream(t)));
    RebuildIsTopIff(env, env, ser, s, t, plan, l, s');
  }
}
