/** Random access into a file, and readers that stream a whole file. */
module Reading {
  import opened Types
  import opened Seqs
  import opened HostTree
  import opened Layers
  import opened Resolution
  import opened Store
  import opened Chunks
  import opened Display

  function FileLen(chunks: seq<FileChunk>): nat {
    if chunks == [] then 0 else FileLen(Init(chunks)) + Last(chunks).len
  }

  lemma {:induction false} ContentLength(env: Env, blobs: Blobs, chunks: seq<FileChunk>)
    requires AllInBlobs(env, blobs, chunks)
    ensures |Content(env, blobs, chunks)| == FileLen(chunks)
  {
    if chunks != [] {
      ContentLength(env, blobs, Init(chunks));
    }
  }

  /** A chunk that can be opened holds every byte its reference promises. */
  ghost predicate NoShortBlobs(env: Env, blobs: Blobs, chunks: seq<FileChunk>, verity: Option<map<Digest, Digest>>) {
    forall k | 0 <= k < |chunks| :: Openable(env, blobs, chunks[k].blob.digest, verity) ==> InBlob(env, blobs, chunks[k])
  }

  /** Every chunk that ends at or after the offset can be opened, those behind the wanted range included. */
  ghost predicate OpensFrom(env: Env, blobs: Blobs, chunks: seq<FileChunk>, verity: Option<map<Digest, Digest>>,
                            offset: nat) {
    forall k | 0 <= k < |chunks| :: OpensAt(env, blobs, chunks, verity, offset, k)
  }

  ghost predicate OpensAt(env: Env, blobs: Blobs, chunks: seq<FileChunk>, verity: Option<map<Digest, Digest>>,
                          offset: nat, k: nat)
    requires k < |chunks|
  {
    offset <= FileLen(chunks[..k]) + chunks[k].len ==> Openable(env, blobs, chunks[k].blob.digest, verity)
  }

  /** How much of a range of len bytes at the offset lies before pos. */
  function Filled(pos: nat, offset: nat, len: nat): nat {
    Max(0, Min(pos, offset + len) - offset)
  }

  /** The bytes one chunk contributes to a read are those of the range that fall into it. */
  lemma ChunkShare(piece: Bytes, pos: nat, offset: nat, len: nat, addl: nat, n: nat)
    requires offset <= pos + |piece|
    requires addl == Max(0, offset - Min(pos, offset + len))
    requires n == Min(len - Filled(pos, offset, len), |piece| - addl)
    ensures addl <= |piece| && addl + n <= |piece|
    ensures piece[addl..addl + n] == PieceBytes(piece, pos, offset, offset + len)
    ensures Filled(pos + |piece|, offset, len) == Filled(pos, offset, len) + n
    ensures Min(pos + |piece|, offset + len) == Min(pos, offset + len) + addl + n
  {
  }

  lemma ChunkSkipped(piece: Bytes, pos: nat, offset: nat, len: nat)
    requires pos + |piece| < offset
    ensures PieceBytes(piece, pos, offset, offset + len) == []
    ensures Filled(pos + |piece|, offset, len) == Filled(pos, offset, len) == 0
  {
  }

  /** The range of the content, as far as the first k chunks have it. */
  ghost function Got(env: Env, blobs: Blobs, chunks: seq<FileChunk>, k: nat, offset: nat, len: nat): Bytes
    requires k <= |chunks| && AllInBlobs(env, blobs, chunks)
  {
    Clip(Content(env, blobs, chunks[..k]), offset, offset + len)
  }

  lemma GotMore(env: Env, blobs: Blobs, chunks: seq<FileChunk>, k: nat, offset: nat, len: nat)
    requires k < |chunks| && AllInBlobs(env, blobs, chunks)
    ensures InBlob(env, blobs, chunks[k])
    ensures Got(env, blobs, chunks, k + 1, offset, len) ==
            Got(env, blobs, chunks, k, offset, len) + PieceBytes(PieceData(env, blobs, chunks[k]), FileLen(chunks[..k]), offset, offset + len)
  {
    TakeMore(chunks, k);
    ContentLength(env, blobs, chunks[..k]);
    ClipAppend(Content(env, blobs, chunks[..k]), PieceData(env, blobs, chunks[k]), offset, offset + len);
  }

  lemma SliceOfSlice(s: Bytes, a: nat, b: nat, c: nat, d: nat)
    requires c <= d && a + d <= b <= |s|
    ensures s[a..b][c..d] == s[a + c..a + d]
  {
    var x, y := s[a..b][c..d], s[a + c..a + d];
    forall k | 0 <= k < |x| ensures x[k] == y[k] {
      assert x[k] == s[a..b][c + k] == s[a + (c + k)];
    }
  }

  lemma PieceSlice(env: Env, blobs: Blobs, c: FileChunk, addl: nat, n: nat)
    requires InBlob(env, blobs, c) && addl + n <= c.len
    ensures var at := c.blob.offset + addl;
            PieceData(env, blobs, c)[addl..addl + n] == Decode(env, c.blob.compressed, blobs[c.blob.digest])[at..at + n]
  {
    SliceOfSlice(Decode(env, c.blob.compressed, blobs[c.blob.digest]), c.blob.offset, c.blob.offset + c.len, addl, addl + n);
  }

  lemma SplitAt(s: Bytes, a: nat, b: nat)
    requires a <= b <= |s|
    ensures s[..b] == s[..a] + s[a..b]
  {
  }

  /** One fill step, on values: b bytes were filled before, n are filled now from the chunk at pos. */
  lemma FillStep(env: Env, blobs: Blobs, chunks: seq<FileChunk>, i: nat, offset: nat, len: nat, addl: nat, n: nat,
                 after: Bytes, b: nat, piece: Bytes, pos: nat)
    requires i < |chunks| && AllInBlobs(env, blobs, chunks) && InBlob(env, blobs, chunks[i])
    requires piece == PieceData(env, blobs, chunks[i]) && pos == FileLen(chunks[..i]) && offset <= pos + |piece|
    requires addl == Max(0, offset - Min(pos, offset + len))
    requires b == Filled(pos, offset, len) && n == Min(len - b, |piece| - addl)
    requires b + n <= |after| && addl + n <= |piece| && after[..b] == Got(env, blobs, chunks, i, offset, len)
    requires after[b..b + n] == piece[addl..addl + n]
    ensures after[..b + n] == Got(env, blobs, chunks, i + 1, offset, len)
  {
    ChunkShare(piece, pos, offset, len, addl, n);
    GotMore(env, blobs, chunks, i, offset, len);
    SplitAt(after, b, b + n);
  }

  /** After k chunks: the offsets, the bytes filled so far, and the rest of the buffer untouched. */
  ghost predicate Progress(env: Env, blobs: Blobs, chunks: seq<FileChunk>, k: nat, offset: nat, len: nat,
                           fileOffset: nat, bufOffset: nat, now: Bytes, before: Bytes) {
    && k <= |chunks| && len <= |now| == |before|
    && fileOffset == Min(FileLen(chunks[..k]), offset + len)
    && bufOffset == Filled(FileLen(chunks[..k]), offset, len)
    && now[bufOffset..] == before[bufOffset..]
    && (AllInBlobs(env, blobs, chunks) ==> now[..bufOffset] == Got(env, blobs, chunks, k, offset, len))
  }

  lemma Unfilled(a: Bytes, b: Bytes, c: Bytes, i: nat, n: nat)
    requires |a| == |b| == |c| && i + n <= |a| && a[i..] == b[i..] && c[i + n..] == b[i + n..]
    ensures c[i + n..] == a[i + n..]
  {
    assert a[i + n..] == a[i..][n..] && b[i + n..] == b[i..][n..];
  }

  lemma SkipStep(env: Env, blobs: Blobs, chunks: seq<FileChunk>, i: nat, offset: nat, len: nat,
                 fileOffset: nat, bufOffset: nat, now: Bytes, before: Bytes)
    requires i < |chunks| && Progress(env, blobs, chunks, i, offset, len, fileOffset, bufOffset, now, before)
    requires fileOffset + chunks[i].len < offset
    ensures Progress(env, blobs, chunks, i + 1, offset, len, fileOffset + chunks[i].len, bufOffset, now, before)
  {
    TakeMore(chunks, i);
    if AllInBlobs(env, blobs, chunks) {
      GotMore(env, blobs, chunks, i, offset, len);
      ChunkSkipped(PieceData(env, blobs, chunks[i]), FileLen(chunks[..i]), offset, len);
    }
  }

  /** The buffer after a fill of n bytes at b with what the blob of chunk i holds there. */
  ghost predicate FilledFrom(env: Env, blobs: Blobs, c: FileChunk, addl: nat, was: Bytes, now: Bytes, b: nat, n: nat) {
    && InBlob(env, blobs, c) && addl + n <= c.len
    && |now| == |was| && b + n <= |now| && now[..b] == was[..b] && now[b + n..] == was[b + n..]
    && (n > 0 ==>
          var at := c.blob.offset + addl;
          now[b..b + n] == Decode(env, c.blob.compressed, blobs[c.blob.digest])[at..at + n])
  }

  lemma FilledPiece(env: Env, blobs: Blobs, c: FileChunk, addl: nat, was: Bytes, now: Bytes, b: nat, n: nat)
    requires FilledFrom(env, blobs, c, addl, was, now, b, n)
    ensures now[b..b + n] == PieceData(env, blobs, c)[addl..addl + n]
  {
    PieceSlice(env, blobs, c, addl, n);
    if n == 0 {
      assert now[b..b] == [];
    }
  }

  lemma FillProgress(env: Env, blobs: Blobs, chunks: seq<FileChunk>, i: nat, offset: nat, len: nat,
                     fileOffset: nat, b: nat, was: Bytes, before: Bytes, addl: nat, n: nat, now: Bytes)
    requires i < |chunks| && Progress(env, blobs, chunks, i, offset, len, fileOffset, b, was, before)
    requires offset <= fileOffset + chunks[i].len && addl == Max(0, offset - fileOffset) &&
             n == Min(len - b, chunks[i].len - addl)
    requires FilledFrom(env, blobs, chunks[i], addl, was, now, b, n)
    ensures Progress(env, blobs, chunks, i + 1, offset, len, fileOffset + addl + n, b + n, now, before)
  {
    TakeMore(chunks, i);
    Unfilled(before, was, now, b, n);
    var piece, pos := PieceData(env, blobs, chunks[i]), FileLen(chunks[..i]);
    ChunkShare(piece, pos, offset, len, addl, n);
    FilledPiece(env, blobs, chunks[i], addl, was, now, b, n);
    if AllInBlobs(env, blobs, chunks) {
      FillStep(env, blobs, chunks, i, offset, len, addl, n, now, b, piece, pos);
    }
  }

  /** How far a read has come: within the buffer, and the rest of it untouched; and, without short blobs, exactly so far. */
  ghost predicate ReadTo(env: Env, blobs: Blobs, chunks: seq<FileChunk>, k: nat, offset: nat, len: nat,
                         fileOffset: nat, bufOffset: nat, now: Bytes, before: Bytes, exact: bool) {
    && bufOffset <= len <= |now| == |before| && now[bufOffset..] == before[bufOffset..]
    && (exact ==> Progress(env, blobs, chunks, k, offset, len, fileOffset, bufOffset, now, before))
  }

  /** Reads the part of the range that falls into chunk i. */
  method ReadChunk(env: Env, oci: Image, chunks: seq<FileChunk>, i: nat, offset: nat, buf: array<Byte>, len: nat,
                   verity: Option<map<Digest, Digest>>, fileOffset: nat, bufOffset: nat, ghost before: Bytes, ghost exact: bool)
    returns (r: Result<nat>, fileOffset': nat)
    requires i < |chunks| && (exact ==> NoShortBlobs(env, oci.blobs, chunks, verity))
    requires ReadTo(env, oci.blobs, chunks, i, offset, len, fileOffset, bufOffset, buf[..], before, exact)
    requires offset <= fileOffset + chunks[i].len
    modifies buf
    ensures exact ==> (r.Ok? <==> Openable(env, oci.blobs, chunks[i].blob.digest, verity))
    ensures r.Ok? ==>
              ReadTo(env, oci.blobs, chunks, i + 1, offset, len, fileOffset', bufOffset + r.value, buf[..], before, exact)
  {
    TakeMore(chunks, i);
    var chunk := chunks[i];
    var addl := if offset <= fileOffset then 0 else offset - fileOffset;
    var leftInBuf := len - bufOffset;
    var toRead := Min(leftInBuf, chunk.len - addl);
    var start := bufOffset;
    var finish := start + toRead;
    fileOffset' := fileOffset + addl;
    ghost var was := buf[..];
    r := oci.FillFromChunk(env, chunk.blob, addl, buf, start, finish, verity);
    if r.Ok? {
      fileOffset' := fileOffset' + r.value;
      Unfilled(before, was, buf[..], start, r.value);
      if exact {
        FillProgress(env, oci.blobs, chunks, i, offset, len, fileOffset, start, was, before, addl, r.value, buf[..]);
      }
    }
  }

  /**
   * Fills buf[..len] from the offset on.  Bytes past the end of the file are left alone.  Chunks
   * behind the filled range are still opened, so the read fails if one of those is missing.
   */
  method FileRead(env: Env, oci: Image, inode: Inode, offset: nat, buf: array<Byte>, len: nat,
                  verity: Option<map<Digest, Digest>>)
    returns (r: Result<nat>)
    requires len <= buf.Length
    modifies buf
    ensures !inode.mode.File? ==> r == Err(ENOTDIR)
    ensures r.Ok? ==> r.value <= len && buf[r.value..] == old(buf[r.value..])
    ensures inode.mode.File? && NoShortBlobs(env, oci.blobs, inode.mode.chunks, verity) ==>
              && (r.Ok? <==> OpensFrom(env, oci.blobs, inode.mode.chunks, verity, offset))
              && (r.Ok? ==> r.value == Min(len, Max(0, FileLen(inode.mode.chunks) - offset)))
    ensures r.Ok? && AllInBlobs(env, oci.blobs, inode.mode.chunks) ==>
              buf[..r.value] == Clip(Content(env, oci.blobs, inode.mode.chunks), offset, offset + len)
  {
    if !inode.mode.File? {
      return Err(ENOTDIR);
    }
    var chunks := inode.mode.chunks;
    var end := offset + len;
    var fileOffset: nat, bufOffset: nat := 0, 0;
    ghost var before := buf[..];
    ghost var exact := NoShortBlobs(env, oci.blobs, chunks, verity);
    for i := 0 to |chunks|
      invariant ReadTo(env, oci.blobs, chunks, i, offset, len, fileOffset, bufOffset, buf[..], before, exact)
      invariant exact ==> forall k | 0 <= k < i :: OpensAt(env, oci.blobs, chunks, verity, offset, k)
    {
      if fileOffset > end {
        assert !exact;
        break;
      }
      if fileOffset + chunks[i].len < offset {
        if exact {
          SkipStep(env, oci.blobs, chunks, i, offset, len, fileOffset, bufOffset, buf[..], before);
        }
        fileOffset := fileOffset + chunks[i].len;
        continue;
      }
      var n, next := ReadChunk(env, oci, chunks, i, offset, buf, len, verity, fileOffset, bufOffset, before, exact);
      if n.Err? {
        assert exact ==> !OpensAt(env, oci.blobs, chunks, verity, offset, i);
        return Err(n.error);
      }
      fileOffset := next;
      bufOffset := bufOffset + n.value;
    }
    ReadEnds(env, oci.blobs, chunks, offset, len, fileOffset, bufOffset, buf[..], before, exact, verity);
    return Ok(bufOffset);
  }

  lemma ReadEnds(env: Env, blobs: Blobs, chunks: seq<FileChunk>, offset: nat, len: nat, fileOffset: nat, bufOffset: nat,
                 now: Bytes, before: Bytes, exact: bool, verity: Option<map<Digest, Digest>>)
    requires ReadTo(env, blobs, chunks, |chunks|, offset, len, fileOffset, bufOffset, now, before, exact) || !exact
    requires exact <==> NoShortBlobs(env, blobs, chunks, verity)
    ensures exact ==> bufOffset == Min(len, Max(0, FileLen(chunks) - offset))
    ensures AllInBlobs(env, blobs, chunks) ==>
              exact && bufOffset <= |now| && now[..bufOffset] == Clip(Content(env, blobs, chunks), offset, offset + len)
  {
    TakeAll(chunks);
  }

  lemma AllOpen(env: Env, blobs: Blobs, chunks: seq<FileChunk>, offset: nat)
    requires AllInBlobs(env, blobs, chunks)
    ensures NoShortBlobs(env, blobs, chunks, None) && OpensFrom(env, blobs, chunks, None, offset)
  {
    forall k | 0 <= k < |chunks| ensures OpensAt(env, blobs, chunks, None, offset, k) {
      assert InBlob(env, blobs, chunks[k]);
    }
  }

  /** Streams a file; the offset never passes the length. */
  class FileReader {
    const oci: Image
    const inode: Inode
    const len: nat
    var offset: nat

    ghost predicate Valid() reads this {
      inode.mode.File? && len == FileLen(inode.mode.chunks) && offset <= len
    }

    constructor (oci: Image, inode: Inode)
      requires inode.mode.File?
      ensures Valid() && this.oci == oci && this.inode == inode && offset == 0
    {
      this.oci, this.inode, this.len := oci, inode, FileLen(inode.mode.chunks);
      offset := 0;
    }

    static method Open(oci: Image, inode: Inode) returns (r: Result<FileReader>)
      ensures r.Ok? <==> inode.mode.File?
      ensures r.Err? ==> r.error == ENOTDIR
      ensures r.Ok? ==> fresh(r.value) && r.value.Valid() && r.value.oci == oci && r.value.inode == inode && r.value.offset == 0
    {
      if !inode.mode.File? {
        return Err(ENOTDIR);
      }
      var reader := new FileReader(oci, inode);
      return Ok(reader);
    }

    /** Fills the buffer as far as the file goes, and moves on by that much. */
    method Read(env: Env, buf: array<Byte>) returns (r: Result<nat>)
      requires Valid()
      modifies this, buf
      ensures Valid() && (r.Err? ==> offset == old(offset))
      ensures r.Ok? ==>
                && r.value <= Min(len - old(offset), buf.Length) && offset == old(offset) + r.value
                && buf[r.value..] == old(buf[r.value..])
      ensures NoShortBlobs(env, oci.blobs, inode.mode.chunks, None) ==>
                var n := Min(len - old(offset), buf.Length);
                && (r.Ok? <==> n == 0 || OpensFrom(env, oci.blobs, inode.mode.chunks, None, old(offset)))
                && (r.Ok? ==> r.value == n)
      ensures r.Ok? && AllInBlobs(env, oci.blobs, inode.mode.chunks) ==>
                buf[..r.value] == Clip(Content(env, oci.blobs, inode.mode.chunks), old(offset), offset)
    {
      var toRead := Min(len - offset, buf.Length);
      if toRead == 0 {
        return Ok(0);
      }
      r := FileRead(env, oci, inode, offset, buf, toRead, None);
      if AllInBlobs(env, oci.blobs, inode.mode.chunks) {
        AllOpen(env, oci.blobs, inode.mode.chunks, offset);
      }
      if r.Ok? {
        offset := offset + r.value;
      }
    }
  }

  lemma ClipMore(s: Bytes, a: nat, b: nat, c: nat)
    requires a <= b <= c
    ensures Clip(s, a, b) + Clip(s, b, c) == Clip(s, a, c)
  {
  }

  /** From the start on, and without verity, a file opens exactly when all its chunks are there. */
  lemma OpensFromStart(env: Env, blobs: Blobs, chunks: seq<FileChunk>)
    requires NoShortBlobs(env, blobs, chunks, None)
    ensures OpensFrom(env, blobs, chunks, None, 0) <==> AllInBlobs(env, blobs, chunks)
  {
    forall k | 0 <= k < |chunks| ensures OpensAt(env, blobs, chunks, None, 0, k) <==> InBlob(env, blobs, chunks[k]) {
    }
  }

  /**
   * Reads until nothing is left, with buffers of any sizes.  It always ends.  Without short blobs it
   * returns the rest of the file, and fails exactly when the first read would.
   */
  method CopyOut(env: Env, reader: FileReader, size: nat -> nat) returns (r: Result<Bytes>)
    requires reader.Valid()
    requires forall k :: size(k) > 0
    modifies reader
    ensures reader.Valid()
    ensures NoShortBlobs(env, reader.oci.blobs, reader.inode.mode.chunks, None) ==>
              && (r.Ok? ==> reader.offset == reader.len)
              && (r.Ok? <==>
                    || old(reader.offset) == reader.len
                    || OpensFrom(env, reader.oci.blobs, reader.inode.mode.chunks, None, old(reader.offset)))
    ensures r.Ok? && old(reader.offset) == reader.len ==> r.value == []
    ensures AllInBlobs(env, reader.oci.blobs, reader.inode.mode.chunks) ==>
              r == Ok(Clip(Content(env, reader.oci.blobs, reader.inode.mode.chunks), old(reader.offset), reader.len))
  {
    var out: Bytes, k := [], 0;
    ghost var whole := AllInBlobs(env, reader.oci.blobs, reader.inode.mode.chunks);
    ghost var exact := NoShortBlobs(env, reader.oci.blobs, reader.inode.mode.chunks, None);
    ghost var from0 := reader.offset;
    while true
      invariant reader.Valid() && reader.oci.blobs == old(reader.oci.blobs)
      invariant from0 <= reader.offset && (reader.offset == from0 ==> out == [])
      invariant exact && reader.offset > from0 ==> OpensFrom(env, reader.oci.blobs, reader.inode.mode.chunks, None, from0)
      invariant whole ==> out == Clip(Content(env, reader.oci.blobs, reader.inode.mode.chunks), from0, reader.offset)
      decreases reader.len - reader.offset
    {
      ghost var from := reader.offset;
      var buf := new Byte[size(k)];
      if whole {
        AllOpen(env, reader.oci.blobs, reader.inode.mode.chunks, from);
        AllOpen(env, reader.oci.blobs, reader.inode.mode.chunks, from0);
      }
      var n := reader.Read(env, buf);
      if OpensFrom(env, reader.oci.blobs, reader.inode.mode.chunks, None, from0) {
        StillOpens(env, reader.oci.blobs, reader.inode.mode.chunks, from0, from);
      }
      if n.Err? {
        return Err(n.error);
      }
      if n.value == 0 {
        return Ok(out);
      }
      if whole {
        ClipMore(Content(env, reader.oci.blobs, reader.inode.mode.chunks), from0, from, reader.offset);
      }
      out := out + buf[..n.value];
      k := k + 1;
    }
  }

  lemma StillOpens(env: Env, blobs: Blobs, chunks: seq<FileChunk>, a: nat, b: nat)
    requires a <= b && OpensFrom(env, blobs, chunks, None, a)
    ensures OpensFrom(env, blobs, chunks, None, b)
  {
    forall k | 0 <= k < |chunks| ensures OpensAt(env, blobs, chunks, None, b, k) {
      assert OpensAt(env, blobs, chunks, None, a, k);
    }
  }

  /** A read request on a mounted image. */
  method ReadInode(env: Env, oci: Image, layers: seq<Layer>, ino: Ino, offset: nat, size: nat,
                   verity: Option<map<Digest, Digest>>)
    returns (r: Result<Bytes>)
    requires NonEmpty(layers)
    ensures FindInode(layers, ino).Err? ==> r == Err(FindInode(layers, ino).error)
    ensures FindInode(layers, ino).Ok? && !FindInode(layers, ino).value.mode.File? ==> r == Err(ENOTDIR)
    ensures FindInode(layers, ino).Ok? && FindInode(layers, ino).value.mode.File? ==>
              var chunks := FindInode(layers, ino).value.mode.chunks;
              && (NoShortBlobs(env, oci.blobs, chunks, verity) ==> (r.Ok? <==> OpensFrom(env, oci.blobs, chunks, verity, offset)))
              && (r.Ok? ==> |r.value| <= size)
              && (r.Ok? && AllInBlobs(env, oci.blobs, chunks) ==>
                    r.value == Clip(Content(env, oci.blobs, chunks), offset, offset + size))
  {
    var inode := FindInodeInLayers(layers, ino);
    if inode.Err? {
      return Err(inode.error);
    }
    var buf := new Byte[size](_ => 0);
    var read := FileRead(env, oci, inode.value, offset, buf, size, verity);
    if read.Err? {
      return Err(read.error);
    }
    return Ok(buf[..read.value]);
  }

  /**
   * Whatever the chunking, the compression, the offset and the size: looking a path up and reading
   * from it gives that slice of the host file.
   */
  method ReadPath(env: Env, oci: Image, layers: seq<Layer>, p: Path, offset: nat, size: nat, ghost t: Tree)
    returns (r: Result<Bytes>)
    requires Displays(env, oci.blobs, layers, t)
    ensures p !in t ==> r == Err(ENOENT)
    ensures p in t && !t[p].HFile? ==> r == Err(ENOTDIR)
    ensures p in t && t[p].HFile? ==> r == Ok(Clip(t[p].content, offset, offset + size))
  {
    assert PathShown(env, oci.blobs, layers, t, p);
    AbsoluteNames(p);
    var found := LookupPath(layers, Absolute(p));
    if found.Err? || found.value.None? {
      return Err(ENOENT);
    }
    var inode := found.value.value;
    if inode.mode.File? {
      AllOpen(env, oci.blobs, inode.mode.chunks, offset);
    }
    var buf := new Byte[size](_ => 0);
    var read := FileRead(env, oci, inode, offset, buf, size, None);
    if read.Err? {
      return Err(read.error);
    }
    return Ok(buf[..read.value]);
  }

  lemma AbsoluteNames(p: Path)
    ensures Absolute(p) != [] && Absolute(p)[0].RootDir? && Names(Absolute(p)[1..]) == p
  {
    var cs := Absolute(p)[1..];
    NamesOf(cs, |p|);
  }
}
