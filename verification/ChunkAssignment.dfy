/** Storing the chunks of the stream and handing them out to the files. */
module ChunkAssignment {
  import opened Types
  import opened Seqs
  import opened Store
  import opened Chunks

  datatype FileRec = FileRec(ino: Ino, meta: Meta, content: Bytes, chunks: seq<FileChunk>)

  class VerityData {
    var m: map<Digest, Digest>

    constructor ()
      ensures m == map[]
    {
      m := map[];
    }
  }

  /** What a build leaves behind besides metadata: blobs, verity digests, manifest layers. */
  datatype Effects = Effects(blobs: Blobs, verity: map<Digest, Digest>, layers: seq<Descriptor>)

  /** Storing a chunk: its blob, the verity digest of its encoded form, its descriptor at the end. */
  function StoreOne(env: Env, e: Effects, c: Bytes): Effects {
    Effects(Put(env, env.zstd, e.blobs, c),
            e.verity[RefOf(env, c).digest := env.measure(Encoded(env, env.zstd, c))],
            e.layers + [DescriptorOf(env, env.zstd, c, ChunkMedia)])
  }

  function StoreAll(env: Env, e: Effects, cs: seq<Bytes>): Effects {
    if cs == [] then e else StoreOne(env, StoreAll(env, e, Init(cs)), Last(cs))
  }

  /** Every chunk has a blob and a verity entry, and one descriptor, in stream order after what was there. */
  lemma {:induction false} StoreAllRecords(env: Env, e: Effects, cs: seq<Bytes>)
    ensures var r := StoreAll(env, e, cs);
            && r.blobs == PutAll(env, e.blobs, cs)
            && e.verity.Keys <= r.verity.Keys
            && (forall k | 0 <= k < |cs| :: RefOf(env, cs[k]).digest in r.verity)
            && |r.layers| == |e.layers| + |cs| && r.layers[..|e.layers|] == e.layers
            && (forall k | 0 <= k < |cs| :: r.layers[|e.layers| + k] == DescriptorOf(env, env.zstd, cs[k], ChunkMedia))
  {
    if cs != [] {
      StoreAllRecords(env, e, Init(cs));
    }
  }

  /** Where file i starts in the stream. */
  function Offset(contents: seq<Bytes>, i: nat): nat
    requires i <= |contents|
  {
    SumLen(contents[..i])
  }

  lemma {:induction false} OffsetMonotone(contents: seq<Bytes>, i: nat, j: nat)
    requires i <= j <= |contents|
    ensures Offset(contents, i) <= Offset(contents, j)
    ensures (forall k | i <= k < j :: contents[k] == []) ==> Offset(contents, i) == Offset(contents, j)
    ensures i < j ==> Offset(contents, i) + |contents[i]| <= Offset(contents, j)
    decreases j
  {
    if i < j {
      OffsetMonotone(contents, i, j - 1);
      FlattenSplit(contents, j - 1);
    }
  }

  /** The pieces file i has received once the first pos bytes of the stream are handed out. */
  function Given(rs: seq<ChunkRef>, contents: seq<Bytes>, i: nat, pos: nat): seq<FileChunk>
    requires i < |contents|
  {
    Window(rs, Offset(contents, i), Min(Offset(contents, i + 1), pos))
  }

  /** A new chunk starting at pos changes nothing yet. */
  lemma GivenNewChunk(rs: seq<ChunkRef>, contents: seq<Bytes>, i: nat, pos: nat)
    requires i < |contents| && rs != [] && pos == Total(Init(rs))
    ensures Given(rs, contents, i, pos) == Given(Init(rs), contents, i, pos)
  {
  }

  /** Handing out more bytes of the last chunk gives the current file exactly one piece. */
  lemma GivenStep(rs: seq<ChunkRef>, contents: seq<Bytes>, f: nat, pos: nat, pos': nat)
    requires f < |contents| && rs != []
    requires Total(Init(rs)) <= pos < pos' <= Total(rs)
    requires Offset(contents, f) <= pos && pos' <= Offset(contents, f + 1)
    requires pos == Offset(contents, f) || pos == Total(Init(rs))
    ensures Given(rs, contents, f, pos') == Given(rs, contents, f, pos) +
            [FileChunk(BlobRef(Last(rs).digest, pos - Total(Init(rs)), Last(rs).compressed), pos' - pos)]
  {
    WindowClip(Init(rs), Offset(contents, f), pos, pos');
  }

  /** The other files receive nothing meanwhile. */
  lemma GivenOther(rs: seq<ChunkRef>, contents: seq<Bytes>, f: nat, i: nat, pos: nat, pos': nat)
    requires f < |contents| && i < |contents| && i != f
    requires Offset(contents, f) <= pos <= pos' <= Offset(contents, f + 1)
    ensures Given(rs, contents, i, pos') == Given(rs, contents, i, pos)
  {
    if i < f {
      OffsetMonotone(contents, i + 1, f);
    } else {
      OffsetMonotone(contents, f + 1, i);
      WindowEmpty(rs, Offset(contents, i), Min(Offset(contents, i + 1), pos'));
      WindowEmpty(rs, Offset(contents, i), Min(Offset(contents, i + 1), pos));
    }
  }

  /** When everything is handed out every file has the window it occupies in the stream. */
  lemma GivenAll(rs: seq<ChunkRef>, contents: seq<Bytes>, i: nat, pos: nat)
    requires i < |contents| && pos == SumLen(contents)
    ensures Given(rs, contents, i, pos) == Window(rs, Offset(contents, i), Offset(contents, i + 1))
  {
    OffsetMonotone(contents, i + 1, |contents|);
    assert contents[..|contents|] == contents;
  }

  /** Chunks are not empty, so all bytes are handed out only when no chunk is left. */
  lemma {:induction false} TotalStrict(rs: seq<ChunkRef>, k: nat)
    requires NonEmptyRefs(rs) && k <= |rs|
    ensures Total(rs[..k]) <= Total(rs)
    ensures k < |rs| ==> Total(rs[..k]) < Total(rs)
  {
    if k < |rs| {
      assert Init(rs)[..k] == rs[..k];
      TotalStrict(Init(rs), k);
      assert 0 < rs[|rs| - 1].len;
    } else {
      assert rs[..k] == rs;
    }
  }

  method NextNonEmpty(files: seq<FileRec>, from: nat) returns (f: nat)
    requires from <= |files|
    ensures from <= f <= |files|
    ensures forall i | from <= i < f :: files[i].content == []
    ensures f < |files| ==> files[f].content != []
  {
    f := from;
    while f < |files| && |files[f].content| == 0
      invariant from <= f <= |files|
      invariant forall i | from <= i < f :: files[i].content == []
    {
      f := f + 1;
    }
  }

  /** The first n files with exactly the pieces due to them after pos bytes. */
  ghost function HandedTo(n: nat, was: seq<FileRec>, contents: seq<Bytes>, rs: seq<ChunkRef>, pos: nat): seq<FileRec>
    requires n <= |was| == |contents|
  {
    if n == 0 then [] else
    HandedTo(n - 1, was, contents, rs, pos) + [was[n - 1].(chunks := Given(rs, contents, n - 1, pos))]
  }

  ghost function Handed(was: seq<FileRec>, contents: seq<Bytes>, rs: seq<ChunkRef>, pos: nat): seq<FileRec>
    requires |was| == |contents|
  {
    HandedTo(|was|, was, contents, rs, pos)
  }

  lemma {:induction false} HandedAt(n: nat, was: seq<FileRec>, contents: seq<Bytes>, rs: seq<ChunkRef>, pos: nat)
    requires n <= |was| == |contents|
    ensures |HandedTo(n, was, contents, rs, pos)| == n
    ensures forall i | 0 <= i < n :: HandedTo(n, was, contents, rs, pos)[i] == was[i].(chunks := Given(rs, contents, i, pos))
  {
    if n > 0 {
      HandedAt(n - 1, was, contents, rs, pos);
    }
  }

  function ContentsOf(files: seq<FileRec>): (cs: seq<Bytes>)
    ensures |cs| == |files| && forall i | 0 <= i < |files| :: cs[i] == files[i].content
  {
    seq(|files|, i requires 0 <= i < |files| => files[i].content)
  }

  /** The next byte goes to byte used of file f; pos bytes have been handed out. */
  ghost predicate Cursor(contents: seq<Bytes>, f: nat, used: nat, pos: nat) {
    && f <= |contents|
    && pos == Offset(contents, f) + used
    && (if f < |contents| then used < |contents[f]| else used == 0)
  }

  lemma CursorBounds(contents: seq<Bytes>, f: nat, used: nat, pos: nat)
    requires Cursor(contents, f, used, pos)
    ensures pos <= SumLen(contents) && (f == |contents| <==> pos == SumLen(contents))
    ensures f < |contents| ==> Offset(contents, f + 1) == Offset(contents, f) + |contents[f]|
  {
    assert contents[..|contents|] == contents;
    if f < |contents| {
      FlattenSplit(contents, f);
      OffsetMonotone(contents, f, |contents|);
    }
  }

  /** Hands out one chunk, the last of rs, from the cursor on. */
  method HandOut(files0: seq<FileRec>, f0: nat, used0: nat, chunk: ChunkRef,
                 ghost was: seq<FileRec>, ghost contents: seq<Bytes>, ghost rs: seq<ChunkRef>, ghost start: nat)
    returns (files: seq<FileRec>, f: nat, used: nat, ghost pos: nat)
    requires rs != [] && Last(rs) == chunk && chunk.len > 0 && Total(rs) <= SumLen(contents)
    requires |was| == |contents| && ContentsOf(was) == contents && start == Total(Init(rs))
    requires files0 == Handed(was, contents, rs, start) && Cursor(contents, f0, used0, start)
    ensures pos == Total(rs)
    ensures files == Handed(was, contents, rs, pos) && |files| == |was|
    ensures Cursor(contents, f, used, pos)
  {
    files, f, used := files0, f0, used0;
    pos := start;
    HandedAt(|was|, was, contents, rs, pos);
    var chunkUsed := 0;
    while chunkUsed < chunk.len
      invariant 0 <= chunkUsed <= chunk.len && pos == start + chunkUsed
      invariant files == Handed(was, contents, rs, pos) && |files| == |was| && ContentsOf(files) == contents
      invariant Cursor(contents, f, used, pos)
      invariant chunkUsed == 0 || used == 0 || chunkUsed == chunk.len
    {
      assert f < |contents| && Offset(contents, f + 1) == pos - used + |contents[f]| by {
        CursorBounds(contents, f, used, pos);
      }
      var room := Min(|files[f].content| - used, chunk.len - chunkUsed);
      files, pos := Give(files, f, FileChunk(BlobRef(chunk.digest, chunkUsed, chunk.compressed), room), was, contents, rs, pos);
      chunkUsed := chunkUsed + room;
      f, used := Advance(files, f, used + room, contents, pos);
      if f == |files| {
        break;
      }
    }
  }

  /** Pushes a piece onto the list of file f. */
  method Give(files0: seq<FileRec>, f: nat, piece: FileChunk,
              ghost was: seq<FileRec>, ghost contents: seq<Bytes>, ghost rs: seq<ChunkRef>, ghost pos0: nat)
    returns (files: seq<FileRec>, ghost pos: nat)
    requires |was| == |contents| && contents == ContentsOf(was) && files0 == Handed(was, contents, rs, pos0)
    requires f < |files0| && |files0| == |was| && rs != [] && piece.len > 0
    requires Total(Init(rs)) <= pos0 && pos0 + piece.len <= Total(rs)
    requires Offset(contents, f) <= pos0 && pos0 + piece.len <= Offset(contents, f + 1)
    requires pos0 == Offset(contents, f) || pos0 == Total(Init(rs))
    requires piece.blob == BlobRef(Last(rs).digest, pos0 - Total(Init(rs)), Last(rs).compressed)
    ensures pos == pos0 + piece.len
    ensures files == Handed(was, contents, rs, pos) && |files| == |was| && ContentsOf(files) == contents
  {
    pos := pos0 + piece.len;
    HandedStep(was, contents, rs, f, pos0, piece, pos);
    files := files0[f := files0[f].(chunks := files0[f].chunks + [piece])];
  }

  /** Goes on to the next file that is not empty once the current one is full. */
  method Advance(files: seq<FileRec>, f0: nat, used0: nat, ghost contents: seq<Bytes>, ghost pos: nat)
    returns (f: nat, used: nat)
    requires contents == ContentsOf(files)
    requires f0 < |contents| && used0 <= |contents[f0]| && pos == Offset(contents, f0) + used0
    ensures Cursor(contents, f, used, pos)
    ensures used0 < |contents[f0]| ==> f == f0 && used == used0
    ensures used0 == |contents[f0]| ==> used == 0
    ensures f == |contents| ==> pos == SumLen(contents)
  {
    f, used := f0, used0;
    if used == |files[f].content| {
      used := 0;
      f := NextNonEmpty(files, f + 1);
      FlattenSplit(contents, f0);
      OffsetMonotone(contents, f0 + 1, f);
    }
    CursorBounds(contents, f, used, pos);
  }

  /** Handing out one more piece to the file at the cursor. */
  lemma HandedStep(was: seq<FileRec>, contents: seq<Bytes>, rs: seq<ChunkRef>, f: nat, pos: nat, piece: FileChunk, pos': nat)
    requires |was| == |contents| && contents == ContentsOf(was)
    requires f < |contents| && rs != []
    requires Total(Init(rs)) <= pos < pos' <= Total(rs)
    requires Offset(contents, f) <= pos && pos' <= Offset(contents, f + 1)
    requires pos == Offset(contents, f) || pos == Total(Init(rs))
    requires piece == FileChunk(BlobRef(Last(rs).digest, pos - Total(Init(rs)), Last(rs).compressed), pos' - pos)
    ensures var files, files' := Handed(was, contents, rs, pos), Handed(was, contents, rs, pos');
            && |files| == |was| == |files'| && ContentsOf(files') == contents
            && files' == files[f := files[f].(chunks := files[f].chunks + [piece])]
  {
    var a, b := Handed(was, contents, rs, pos), Handed(was, contents, rs, pos');
    HandedAt(|was|, was, contents, rs, pos);
    HandedAt(|was|, was, contents, rs, pos');
    assert b[f] == a[f].(chunks := a[f].chunks + [piece]) by {
      GivenStep(rs, contents, f, pos, pos');
    }
    forall i | 0 <= i < |was| && i != f ensures b[i] == a[i] {
      GivenOther(rs, contents, f, i, pos, pos');
    }
    UpdatedAt(a, b, f);
    SameElements(ContentsOf(b), contents);
  }

  /** Every file still waits: nothing has been handed out. */
  lemma HandedInit(was: seq<FileRec>)
    requires forall i | 0 <= i < |was| :: was[i].chunks == []
    ensures Handed(was, ContentsOf(was), [], 0) == was
  {
    HandedAt(|was|, was, ContentsOf(was), [], 0);
  }

  lemma HandedNewChunk(was: seq<FileRec>, contents: seq<Bytes>, rs: seq<ChunkRef>, done: seq<ChunkRef>, pos: nat)
    requires rs != [] && |was| == |contents| && done == Init(rs) && pos == Total(done)
    ensures Handed(was, contents, rs, pos) == Handed(was, contents, done, pos)
  {
    HandedAt(|was|, was, contents, rs, pos);
    HandedAt(|was|, was, contents, done, pos);
    forall i | 0 <= i < |was| ensures Given(rs, contents, i, pos) == Given(done, contents, i, pos) {
      GivenNewChunk(rs, contents, i, pos);
    }
  }

  /** What every file gets in the end: the pieces of the window it occupies in the stream. */
  ghost function WithWindows(was: seq<FileRec>, rs: seq<ChunkRef>): (files: seq<FileRec>)
    ensures |files| == |was|
    ensures forall i | 0 <= i < |was| ::
              files[i] == was[i].(chunks := Window(rs, Offset(ContentsOf(was), i), Offset(ContentsOf(was), i + 1)))
  {
    seq(|was|, i requires 0 <= i < |was| =>
      was[i].(chunks := Window(rs, Offset(ContentsOf(was), i), Offset(ContentsOf(was), i + 1))))
  }

  lemma HandedDoneAt(was: seq<FileRec>, rs: seq<ChunkRef>, pos: nat, i: nat)
    requires pos == SumLen(ContentsOf(was)) && i < |was|
    ensures |Handed(was, ContentsOf(was), rs, pos)| == |was|
    ensures Handed(was, ContentsOf(was), rs, pos)[i] == WithWindows(was, rs)[i]
  {
    HandedAt(|was|, was, ContentsOf(was), rs, pos);
    GivenAll(rs, ContentsOf(was), i, pos);
  }

  lemma HandedDone(was: seq<FileRec>, rs: seq<ChunkRef>, pos: nat)
    requires pos == SumLen(ContentsOf(was))
    ensures Handed(was, ContentsOf(was), rs, pos) == WithWindows(was, rs)
  {
    HandedAt(|was|, was, ContentsOf(was), rs, pos);
    forall i | 0 <= i < |was| ensures Handed(was, ContentsOf(was), rs, pos)[i] == WithWindows(was, rs)[i] {
      HandedDoneAt(was, rs, pos, i);
    }
    SameElements(Handed(was, ContentsOf(was), rs, pos), WithWindows(was, rs));
  }

  /** Stores one chunk and notes its verity digest. */
  method StoreChunk(env: Env, oci: Image, chunk: Bytes, verity: VerityData, manifest: Manifest) returns (r: Result<ChunkRef>)
    modifies oci, verity, manifest
    ensures ContentAddressed(env, old(oci.blobs)) ==> r.Ok?
    ensures r.Ok? ==>
              && r.value == RefOf(env, chunk)
              && Effects(oci.blobs, verity.m, manifest.layers) ==
                 StoreOne(env, old(Effects(oci.blobs, verity.m, manifest.layers)), chunk)
  {
    var put := oci.PutBlob(env, env.zstd, chunk, manifest, ChunkMedia);
    if put.Err? {
      return Err(put.error);
    }
    var (descriptor, verityHash, compressed) := put.value;
    verity.m := verity.m[descriptor.digest := verityHash];
    return Ok(ChunkRef(descriptor.digest, compressed, |chunk|));
  }

  lemma StaysAddressed(env: Env, e: Effects, cs: seq<Bytes>)
    requires ContentAddressed(env, e.blobs)
    ensures ContentAddressed(env, StoreAll(env, e, cs).blobs)
  {
    StoreAllRecords(env, e, cs);
    PutAllGrows(env, e.blobs, cs);
  }

  /** Stores the next chunk. */
  method StoreNext(env: Env, oci: Image, chunks: seq<Bytes>, next: nat, verity: VerityData, manifest: Manifest,
                   ghost effects: Effects)
    returns (r: Result<ChunkRef>)
    requires next < |chunks| && Effects(oci.blobs, verity.m, manifest.layers) == StoreAll(env, effects, chunks[..next])
    modifies oci, verity, manifest
    ensures ContentAddressed(env, effects.blobs) ==> r.Ok?
    ensures r.Ok? ==>
              && r.value == RefOf(env, chunks[next])
              && Effects(oci.blobs, verity.m, manifest.layers) == StoreAll(env, effects, chunks[..next + 1])
  {
    TakeMore(chunks, next);
    if ContentAddressed(env, effects.blobs) {
      StaysAddressed(env, effects, chunks[..next]);
    }
    r := StoreChunk(env, oci, chunks[next], verity, manifest);
  }

  /** The first next chunks have been handed out, and nothing else. */
  ghost predicate OnTrack(was: seq<FileRec>, rs: seq<ChunkRef>, next: nat, files: seq<FileRec>, f: nat, used: nat) {
    && next <= |rs| && |files| == |was|
    && files == Handed(was, ContentsOf(was), rs[..next], Total(rs[..next]))
    && Cursor(ContentsOf(was), f, used, Total(rs[..next]))
  }

  method PlaceNext(files0: seq<FileRec>, f0: nat, used0: nat, chunk: ChunkRef, ghost was: seq<FileRec>,
                   ghost rs: seq<ChunkRef>, ghost next: nat)
    returns (files: seq<FileRec>, f: nat, used: nat)
    requires next < |rs| && rs[next] == chunk && NonEmptyRefs(rs) && Total(rs) == SumLen(ContentsOf(was))
    requires OnTrack(was, rs, next, files0, f0, used0)
    ensures OnTrack(was, rs, next + 1, files, f, used)
  {
    ghost var pos := Total(rs[..next]);
    TakeMore(rs, next);
    TotalStrict(rs, next + 1);
    HandedNewChunk(was, ContentsOf(was), rs[..next + 1], rs[..next], pos);
    files, f, used, pos := HandOut(files0, f0, used0, chunk, was, ContentsOf(was), rs[..next + 1], pos);
  }

  /** When the files are full or the chunks used up, both are. */
  lemma AllPlaced(was: seq<FileRec>, rs: seq<ChunkRef>, next: nat, files: seq<FileRec>, f: nat, used: nat)
    requires NonEmptyRefs(rs) && Total(rs) == SumLen(ContentsOf(was))
    requires OnTrack(was, rs, next, files, f, used) && (f == |files| || next == |rs|)
    ensures next == |rs| && files == WithWindows(was, rs)
  {
    TakeAll(rs);
    CursorBounds(ContentsOf(was), f, used, Total(rs[..next]));
    TotalStrict(rs, next);
    HandedDone(was, rs, Total(rs));
  }

  /**
   * Every chunk is stored, and file i ends up with the pieces of its window of the stream.  The
   * files' sizes add up to the chunks', so no chunk is left when the last file is full.
   */
  method ProcessChunks(env: Env, oci: Image, chunks: seq<Bytes>, was: seq<FileRec>, verity: VerityData, manifest: Manifest)
    returns (r: Result<seq<FileRec>>)
    requires Flatten(chunks) == Flatten(ContentsOf(was))
    requires forall k | 0 <= k < |chunks| :: chunks[k] != []
    requires forall i | 0 <= i < |was| :: was[i].chunks == []
    modifies oci, verity, manifest
    ensures ContentAddressed(env, old(oci.blobs)) ==> r.Ok?
    ensures r.Ok? ==>
              && r.value == WithWindows(was, Refs(env, chunks))
              && Effects(oci.blobs, verity.m, manifest.layers) ==
                 StoreAll(env, old(Effects(oci.blobs, verity.m, manifest.layers)), chunks)
  {
    ghost var rs, effects := Refs(env, chunks), Effects(oci.blobs, verity.m, manifest.layers);
    TotalOfRefs(env, chunks);
    HandedInit(was);
    var files, fileUsed, next := was, 0, 0;
    var f := NextNonEmpty(files, 0);
    OffsetMonotone(ContentsOf(was), 0, f);
    TakeAll(chunks);
    TakeAll(rs);
    while next < |chunks|
      invariant 0 <= next <= |chunks| && OnTrack(was, rs, next, files, f, fileUsed)
      invariant Effects(oci.blobs, verity.m, manifest.layers) == StoreAll(env, effects, chunks[..next])
    {
      var stored := StoreNext(env, oci, chunks, next, verity, manifest, effects);
      if stored.Err? {
        return Err(stored.error);
      }
      files, f, fileUsed := PlaceNext(files, f, fileUsed, stored.value, was, rs, next);
      next := next + 1;
      if f == |files| {
        break;
      }
    }
    AllPlaced(was, rs, next, files, f, fileUsed);
    assert next == |chunks|;
    return Ok(files);
  }

  // How many pieces there are.

  /** The number of pieces the files have between them. */
  function Pieces(files: seq<FileRec>): nat {
    if files == [] then 0 else Pieces(Init(files)) + |Last(files).chunks|
  }

  lemma WindowsOfInit(was: seq<FileRec>, rs: seq<ChunkRef>)
    requires was != []
    ensures Init(WithWindows(was, rs)) == WithWindows(Init(was), rs) && ContentsOf(Init(was)) == Init(ContentsOf(was))
  {
    var cs, ini := ContentsOf(was), ContentsOf(Init(was));
    assert ini == Init(cs);
    forall i | 0 <= i < |was| - 1 ensures Init(WithWindows(was, rs))[i] == WithWindows(Init(was), rs)[i] {
      assert cs[..i] == ini[..i] && cs[..i + 1] == ini[..i + 1];
    }
  }

  /** The pieces handed out are those that are counted. */
  lemma {:induction false} PiecesAreCounted(was: seq<FileRec>, rs: seq<ChunkRef>)
    ensures Pieces(WithWindows(was, rs)) == PieceCount(rs, ContentsOf(was))
  {
    if was != [] {
      var cs := ContentsOf(was);
      WindowsOfInit(was, rs);
      PiecesAreCounted(Init(was), rs);
      TakeAll(cs);
      assert cs[..|was| - 1] == Init(cs);
    }
  }

  /** So the files get, between them, at most one piece for every chunk and every non-empty file, less one. */
  lemma PiecesBounded(env: Env, chunks: seq<Bytes>, was: seq<FileRec>)
    requires forall k | 0 <= k < |chunks| :: chunks[k] != []
    ensures var n := NonEmptyFiles(ContentsOf(was));
            Pieces(WithWindows(was, Refs(env, chunks))) <= if n == 0 then 0 else |chunks| + n - 1
  {
    PiecesAreCounted(was, Refs(env, chunks));
    PieceCountBound(Refs(env, chunks), ContentsOf(was));
  }
}
