/** What a user of an image sees: paths, kinds, metadata, file contents and hard links. */
module Display {
  import opened Types
  import opened Seqs
  import opened HostTree
  import opened Layers
  import opened Resolution
  import opened Store
  import opened Chunks
  import opened Plans
  import opened View
  import opened Reproducible

  // File contents.

  lemma ClipWhole(a: Bytes, c: Bytes, start: nat)
    requires start == |a|
    ensures Clip(a + c, start, start + |c|) == c
  {
  }

  lemma ClipPrefix(a: Bytes, c: Bytes, lo: nat, hi: nat)
    requires lo <= hi <= |a|
    ensures Clip(a + c, lo, hi) == Clip(a, lo, hi)
  {
  }

  lemma StreamSnoc(t: Tree, fs: seq<Path>)
    requires fs != [] && forall q | q in fs :: q in t && t[q].HFile?
    ensures (forall q | q in Init(fs) :: q in t && t[q].HFile?) && Last(fs) in fs
    ensures Flatten(ContentsAt(t, fs)) == Flatten(ContentsAt(t, Init(fs))) + t[Last(fs)].content
  {
    assert forall q | q in Init(fs) :: q in fs;
    assert Init(ContentsAt(t, fs)) == ContentsAt(t, Init(fs));
  }

  ghost predicate HoldsAt(stream: Bytes, start: nat, c: Bytes) {
    start + |c| <= |stream| && Clip(stream, start, start + |c|) == c
  }

  lemma HoldsLast(a: Bytes, c: Bytes)
    ensures HoldsAt(a + c, |a|, c)
  {
    ClipWhole(a, c, |a|);
  }

  lemma HoldsMore(a: Bytes, b: Bytes, start: nat, c: Bytes)
    requires HoldsAt(a, start, c)
    ensures HoldsAt(a + b, start, c)
  {
    ClipPrefix(a, b, start, start + |c|);
  }

  /** A file's window of the stream holds its content. */
  lemma {:induction false} StartHolds(t: Tree, fs: seq<Path>, p: Path)
    requires ValidTree(t) && (forall q | q in fs :: q in t && t[q].HFile?) && p in t && t[p].HFile? && Seen(t, fs, p)
    ensures HoldsAt(Flatten(ContentsAt(t, fs)), StartOf(t, fs, t[p].hino), t[p].content)
  {
    var q :| q in fs && SameInode(t, p, q);
    var init, last := Init(fs), Last(fs);
    StreamSnoc(t, fs);
    var a, c := Flatten(ContentsAt(t, init)), t[last].content;
    if t[last].hino == t[p].hino {
      assert SameInode(t, p, last);
      HoldsLast(a, c);
    } else {
      assert q in init;
      assert Seen(t, init, p);
      StartHolds(t, init, p);
      HoldsMore(a, c, StartOf(t, init, t[p].hino), t[p].content);
    }
  }

  /** Every chunk of the tree's stream can be read back. */
  ghost predicate Stored(env: Env, blobs: Blobs, t: Tree)
    requires ValidTree(t)
  {
    AllReadBack(env, blobs, env.cut(Stream(t)))
  }

  lemma ChunksAtRead(env: Env, blobs: Blobs, stream: Bytes, start: nat, len: nat)
    requires AllReadBack(env, blobs, env.cut(stream)) && Flatten(env.cut(stream)) == stream
    ensures AllInBlobs(env, blobs, ChunksAt(env, stream, start, len))
    ensures Content(env, blobs, ChunksAt(env, stream, start, len)) == Clip(stream, start, start + len)
  {
    WindowReads(env, blobs, env.cut(stream), start, start + len);
  }

  lemma ChunksAtHold(env: Env, blobs: Blobs, stream: Bytes, start: nat, c: Bytes)
    requires AllReadBack(env, blobs, env.cut(stream)) && Flatten(env.cut(stream)) == stream &&
             Clip(stream, start, start + |c|) == c
    ensures AllInBlobs(env, blobs, ChunksAt(env, stream, start, |c|)) &&
            Content(env, blobs, ChunksAt(env, stream, start, |c|)) == c
  {
    ChunksAtRead(env, blobs, stream, start, |c|);
  }

  /** The pieces rendered for a file read back, in order, as that file. */
  lemma FileReadsBack(env: Env, blobs: Blobs, t: Tree, p: Path)
    requires ValidTree(t) && p in t && t[p].HFile? && GoodChunker(env) && Stored(env, blobs, t)
    ensures var chunks := ChunksFor(env, t, t[p].hino, |t[p].content|);
            AllInBlobs(env, blobs, chunks) && Content(env, blobs, chunks) == t[p].content
  {
    FileIsStreamed(t, p);
    StartHolds(t, FilePaths(t), p);
    assert Flatten(env.cut(Stream(t))) == Stream(t);
    ChunksAtHold(env, blobs, Stream(t), StartOf(t, FilePaths(t), t[p].hino), t[p].content);
  }

  lemma FileIsStreamed(t: Tree, p: Path)
    requires ValidTree(t) && p in t && t[p].HFile?
    ensures Seen(t, FilePaths(t), p)
  {
    VisitsComplete(t);
    FirstsCover(t, Visits(t), p);
    var q :| q in Firsts(t, Visits(t)) && SameInode(t, p, q);
    assert q in FilePaths(t);
  }

  // The view.

  /** The inode presents the node: kind, metadata, and for a file its content in the store. */
  ghost predicate Presents(env: Env, blobs: Blobs, i: Inode, n: HNode) {
    && i.meta == n.meta
    && match n
       case HDir(_, _) => i.mode.Dir?
       case HFile(_, _, c) => i.mode.File? && AllInBlobs(env, blobs, i.mode.chunks) && Content(env, blobs, i.mode.chunks) == c
       case HOther(_, _, k) => i.mode == OtherMode(k)
  }

  ghost predicate Resolves(layers: seq<Layer>, p: Path)
    requires NonEmpty(layers)
  {
    Lookup(layers, p).Ok? && Lookup(layers, p).value.Some?
  }

  function InodeAt(layers: seq<Layer>, p: Path): Inode
    requires NonEmpty(layers) && Resolves(layers, p)
  {
    Lookup(layers, p).value.value
  }

  ghost predicate PathShown(env: Env, blobs: Blobs, layers: seq<Layer>, t: Tree, p: Path)
    requires NonEmpty(layers)
  {
    if p in t then Resolves(layers, p) && Presents(env, blobs, InodeAt(layers, p), t[p])
    else Lookup(layers, p) == Ok(None) || Lookup(layers, p) == Err(ENOENT)
  }

  ghost predicate LinkShown(layers: seq<Layer>, t: Tree, p: Path, q: Path)
    requires NonEmpty(layers)
  {
    p in t && q in t && Resolves(layers, p) && Resolves(layers, q) ==>
      (InodeAt(layers, p).ino == InodeAt(layers, q).ino <==> SameInode(t, p, q))
  }

  /**
   * The image shows exactly the tree: every path resolves to an inode of the same kind, metadata and
   * content, no other path resolves, and two paths share an inode exactly when they do in the tree.
   */
  ghost predicate Displays(env: Env, blobs: Blobs, layers: seq<Layer>, t: Tree) {
    && NonEmpty(layers)
    && (forall p {:trigger PathShown(env, blobs, layers, t, p)} :: PathShown(env, blobs, layers, t, p))
    && (forall p, q {:trigger LinkShown(layers, t, p, q)} :: LinkShown(layers, t, p, q))
  }

  lemma RenderPresents(env: Env, blobs: Blobs, t: Tree, plan: Plan, p: Path)
    requires Covers(t, plan) && p in t && GoodChunker(env) && Stored(env, blobs, t)
    ensures Presents(env, blobs, Render(env, t, plan, p), t[p])
  {
    if t[p].HFile? {
      FileReadsBack(env, blobs, t, p);
    }
  }

  lemma ShownPath(env: Env, blobs: Blobs, layers: seq<Layer>, t: Tree, plan: Plan, p: Path)
    requires Shows(env, layers, t, plan) && GoodChunker(env) && Stored(env, blobs, t)
    ensures PathShown(env, blobs, layers, t, p)
  {
    if p in t {
      ShownLive(env, blobs, layers, t, plan, p);
    } else {
      LookupGone(env, layers, t, plan, p);
    }
  }

  lemma ShownLive(env: Env, blobs: Blobs, layers: seq<Layer>, t: Tree, plan: Plan, p: Path)
    requires Shows(env, layers, t, plan) && GoodChunker(env) && Stored(env, blobs, t) && p in t
    ensures Resolves(layers, p) && InodeAt(layers, p) == Render(env, t, plan, p)
    ensures Presents(env, blobs, Render(env, t, plan, p), t[p])
  {
    LookupLive(env, layers, t, plan, p);
    RenderPresents(env, blobs, t, plan, p);
  }

  lemma ShownLink(env: Env, layers: seq<Layer>, t: Tree, plan: Plan, p: Path, q: Path)
    requires Shows(env, layers, t, plan)
    ensures LinkShown(layers, t, p, q)
  {
    if p in t && q in t {
      LookupLive(env, layers, t, plan, p);
      LookupLive(env, layers, t, plan, q);
      ShapeHas(t, plan, p);
      ShapeHas(t, plan, q);
    }
  }

  /** An image whose newest layer is the rendering of a tree, and whose store holds its chunks, displays it. */
  lemma ShowsDisplays(env: Env, blobs: Blobs, layers: seq<Layer>, t: Tree, plan: Plan)
    requires Shows(env, layers, t, plan) && GoodChunker(env) && Stored(env, blobs, t)
    ensures Displays(env, blobs, layers, t)
  {
    forall p ensures PathShown(env, blobs, layers, t, p) {
      ShownPath(env, blobs, layers, t, plan, p);
    }
    forall p, q ensures LinkShown(layers, t, p, q) {
      ShownLink(env, layers, t, plan, p, q);
    }
  }

  /** What an image displays determines the tree, up to host inode numbers. */
  lemma DisplaysDetermines(env: Env, blobs: Blobs, layers: seq<Layer>, t: Tree, u: Tree)
    requires Displays(env, blobs, layers, t) && Displays(env, blobs, layers, u)
    ensures Iso(t, u)
  {
    forall p ensures p in t <==> p in u {
      assert PathShown(env, blobs, layers, t, p) && PathShown(env, blobs, layers, u, p);
    }
    forall p | p in t ensures SameFace(t[p], u[p]) {
      assert PathShown(env, blobs, layers, t, p) && PathShown(env, blobs, layers, u, p);
      SamePresented(env, blobs, InodeAt(layers, p), t[p], u[p]);
    }
    forall p, q ensures SameInode(t, p, q) <==> SameInode(u, p, q) {
      assert PathShown(env, blobs, layers, t, p) && PathShown(env, blobs, layers, t, q);
      assert LinkShown(layers, t, p, q) && LinkShown(layers, u, p, q);
    }
  }

  lemma SamePresented(env: Env, blobs: Blobs, i: Inode, m: HNode, n: HNode)
    requires Presents(env, blobs, i, m) && Presents(env, blobs, i, n)
    ensures SameFace(m, n)
  {
  }

  // Reading does not depend on how the reader would build.

  lemma {:induction false} ContentAny(env: Env, other: Env, blobs: Blobs, chunks: seq<FileChunk>)
    requires SameLibraries(env, other)
    ensures AllInBlobs(env, blobs, chunks) <==> AllInBlobs(other, blobs, chunks)
    ensures AllInBlobs(env, blobs, chunks) ==> Content(env, blobs, chunks) == Content(other, blobs, chunks)
  {
    forall k | 0 <= k < |chunks| ensures InBlob(env, blobs, chunks[k]) <==> InBlob(other, blobs, chunks[k]) {
    }
    if chunks != [] {
      ContentAny(env, other, blobs, Init(chunks));
    }
  }

  lemma PathShownAny(env: Env, other: Env, blobs: Blobs, layers: seq<Layer>, t: Tree, p: Path)
    requires SameLibraries(env, other) && NonEmpty(layers)
    ensures PathShown(env, blobs, layers, t, p) <==> PathShown(other, blobs, layers, t, p)
  {
    if p in t && Resolves(layers, p) && InodeAt(layers, p).mode.File? {
      ContentAny(env, other, blobs, InodeAt(layers, p).mode.chunks);
    }
  }

  /** An image built with and without compression displays the same to everyone. */
  lemma DisplaysAny(env: Env, other: Env, blobs: Blobs, layers: seq<Layer>, t: Tree)
    requires SameLibraries(env, other)
    ensures Displays(env, blobs, layers, t) <==> Displays(other, blobs, layers, t)
  {
    if NonEmpty(layers) {
      forall p ensures PathShown(env, blobs, layers, t, p) <==> PathShown(other, blobs, layers, t, p) {
        PathShownAny(env, other, blobs, layers, t, p);
      }
    }
  }

  /** Trees equal up to host inode numbers are displayed together. */
  lemma DisplaysIso(env: Env, blobs: Blobs, layers: seq<Layer>, t: Tree, u: Tree)
    requires Displays(env, blobs, layers, t) && Iso(t, u)
    ensures Displays(env, blobs, layers, u)
  {
    forall p ensures PathShown(env, blobs, layers, u, p) {
      assert PathShown(env, blobs, layers, t, p);
      assert p in t ==> SameFace(t[p], u[p]);
    }
    forall p, q ensures LinkShown(layers, u, p, q) {
      assert LinkShown(layers, t, p, q);
    }
  }
}
