/**
 * How the chunks of the concatenated files are handed out to the files.  The reference is plain
 * geometry: a file's pieces are the intersections of its window of the stream with the chunks.
 */
module Chunks {
  import opened Types
  import opened Seqs
  import opened Store

  datatype ChunkRef = ChunkRef(digest: Digest, compressed: bool, len: nat)

  function RefOf(env: Env, c: Bytes): ChunkRef {
    ChunkRef(env.hash(Payload(env, env.zstd, c)), StoredCompressed(env, env.zstd, c), |c|)
  }

  function Refs(env: Env, cs: seq<Bytes>): (rs: seq<ChunkRef>)
    ensures |rs| == |cs| && forall k | 0 <= k < |cs| :: rs[k] == RefOf(env, cs[k])
  {
    seq(|cs|, k requires 0 <= k < |cs| => RefOf(env, cs[k]))
  }

  function Total(rs: seq<ChunkRef>): nat {
    if rs == [] then 0 else Total(Init(rs)) + Last(rs).len
  }

  /** The part of the window [lo, hi) that falls into the chunk starting at start. */
  function Piece(r: ChunkRef, start: nat, lo: nat, hi: nat): seq<FileChunk> {
    var s, e := Max(lo, start), Min(hi, start + r.len);
    if s < e then [FileChunk(BlobRef(r.digest, s - start, r.compressed), e - s)] else []
  }

  function Window(rs: seq<ChunkRef>, lo: nat, hi: nat): seq<FileChunk> {
    if rs == [] then [] else Window(Init(rs), lo, hi) + Piece(Last(rs), Total(Init(rs)), lo, hi)
  }

  lemma {:induction false} TotalOfRefs(env: Env, cs: seq<Bytes>)
    ensures Total(Refs(env, cs)) == |Flatten(cs)|
  {
    if cs != [] {
      assert Init(Refs(env, cs)) == Refs(env, Init(cs));
      TotalOfRefs(env, Init(cs));
    }
  }

  /** Beyond the end of the chunks the upper bound no longer matters. */
  lemma {:induction false} WindowClip(rs: seq<ChunkRef>, lo: nat, hi: nat, hi': nat)
    requires Total(rs) <= hi && Total(rs) <= hi'
    ensures Window(rs, lo, hi) == Window(rs, lo, hi')
  {
    if rs != [] {
      WindowClip(Init(rs), lo, hi, hi');
    }
  }

  lemma WindowByLength(rs: seq<ChunkRef>, lo: nat, hi: nat, len: nat)
    requires hi == lo + len
    ensures Window(rs, lo, hi) == Window(rs, lo, lo + len)
  {
  }

  lemma {:induction false} WindowEmpty(rs: seq<ChunkRef>, lo: nat, hi: nat)
    requires hi <= lo || Total(rs) <= lo
    ensures Window(rs, lo, hi) == []
  {
    if rs != [] {
      WindowEmpty(Init(rs), lo, hi);
    }
  }

  // Reading pieces back.

  predicate InBlob(env: Env, blobs: Blobs, c: FileChunk) {
    && c.blob.digest in blobs
    && c.blob.offset + c.len <= |Decode(env, c.blob.compressed, blobs[c.blob.digest])|
  }

  predicate AllInBlobs(env: Env, blobs: Blobs, chunks: seq<FileChunk>) {
    forall k | 0 <= k < |chunks| :: InBlob(env, blobs, chunks[k])
  }

  function PieceData(env: Env, blobs: Blobs, c: FileChunk): Bytes
    requires InBlob(env, blobs, c)
  {
    Decode(env, c.blob.compressed, blobs[c.blob.digest])[c.blob.offset..c.blob.offset + c.len]
  }

  function Content(env: Env, blobs: Blobs, chunks: seq<FileChunk>): Bytes
    requires AllInBlobs(env, blobs, chunks)
  {
    if chunks == [] then [] else Content(env, blobs, Init(chunks)) + PieceData(env, blobs, Last(chunks))
  }

  /** The reference of chunk c leads back to c. */
  predicate ReadsBack(env: Env, blobs: Blobs, c: Bytes) {
    var r := RefOf(env, c);
    r.digest in blobs && Decode(env, r.compressed, blobs[r.digest]) == c
  }

  predicate AllReadBack(env: Env, blobs: Blobs, cs: seq<Bytes>) {
    forall k | 0 <= k < |cs| :: ReadsBack(env, blobs, cs[k])
  }

  function PieceBytes(c: Bytes, start: nat, lo: nat, hi: nat): Bytes {
    var s, e := Max(lo, start), Min(hi, start + |c|);
    if s < e then c[s - start..e - start] else []
  }

  lemma PieceReads(env: Env, blobs: Blobs, c: Bytes, start: nat, lo: nat, hi: nat)
    requires ReadsBack(env, blobs, c)
    ensures var ps := Piece(RefOf(env, c), start, lo, hi);
            AllInBlobs(env, blobs, ps) && Content(env, blobs, ps) == PieceBytes(c, start, lo, hi)
  {
    var ps := Piece(RefOf(env, c), start, lo, hi);
    if ps != [] {
      assert Init(ps) == [] && Content(env, blobs, Init(ps)) == [];
      assert InBlob(env, blobs, Last(ps));
    }
  }

  lemma {:induction false} ContentAppend(env: Env, blobs: Blobs, a: seq<FileChunk>, b: seq<FileChunk>)
    requires AllInBlobs(env, blobs, a) && AllInBlobs(env, blobs, b)
    ensures AllInBlobs(env, blobs, a + b)
    ensures Content(env, blobs, a + b) == Content(env, blobs, a) + Content(env, blobs, b)
  {
    forall k | 0 <= k < |a + b| ensures InBlob(env, blobs, (a + b)[k]) {
      assert (a + b)[k] == if k < |a| then a[k] else b[k - |a|];
    }
    if b == [] {
      assert a + b == a;
    } else {
      ContentAppend(env, blobs, a, Init(b));
      InitAppend(a, b);
      Regroup(Content(env, blobs, a), Content(env, blobs, Init(b)), PieceData(env, blobs, Last(b)));
    }
  }

  function Clip(s: Bytes, lo: nat, hi: nat): Bytes
    requires lo <= hi
  {
    s[Min(lo, |s|)..Min(hi, |s|)]
  }

  lemma ClipAppend(a: Bytes, c: Bytes, lo: nat, hi: nat)
    requires lo <= hi
    ensures Clip(a + c, lo, hi) == Clip(a, lo, hi) + PieceBytes(c, |a|, lo, hi)
  {
    if hi <= |a| {
      assert (a + c)[lo..hi] == a[lo..hi];
    } else if lo <= |a| {
      SliceAcross(a, c, lo, Min(hi, |a + c|));
    } else {
      SliceBeyond(a, c, Min(lo, |a + c|), Min(hi, |a + c|));
    }
  }

  lemma SliceAcross(a: Bytes, c: Bytes, lo: nat, hi: nat)
    requires lo <= |a| <= hi <= |a + c|
    ensures (a + c)[lo..hi] == a[lo..] + c[..hi - |a|]
  {
  }

  lemma SliceBeyond(a: Bytes, c: Bytes, lo: nat, hi: nat)
    requires |a| <= lo <= hi <= |a + c|
    ensures (a + c)[lo..hi] == c[lo - |a|..hi - |a|]
  {
  }

  lemma {:induction false} WindowPositive(rs: seq<ChunkRef>, lo: nat, hi: nat)
    ensures forall k | 0 <= k < |Window(rs, lo, hi)| :: 0 < Window(rs, lo, hi)[k].len
  {
    if rs != [] {
      WindowPositive(Init(rs), lo, hi);
    }
  }

  /** A window read back piece by piece is that slice of the stream, and no piece leaves its blob. */
  lemma {:induction false} WindowReads(env: Env, blobs: Blobs, cs: seq<Bytes>, lo: nat, hi: nat)
    requires AllReadBack(env, blobs, cs)
    requires lo <= hi
    ensures AllInBlobs(env, blobs, Window(Refs(env, cs), lo, hi))
    ensures Content(env, blobs, Window(Refs(env, cs), lo, hi)) == Clip(Flatten(cs), lo, hi)
  {
    if cs != [] {
      var init, c := Init(cs), Last(cs);
      var w, p := Window(Refs(env, init), lo, hi), Piece(RefOf(env, c), |Flatten(init)|, lo, hi);
      assert Window(Refs(env, cs), lo, hi) == w + p by {
        assert Init(Refs(env, cs)) == Refs(env, init);
        TotalOfRefs(env, init);
      }
      WindowReads(env, blobs, init, lo, hi);
      PieceReads(env, blobs, c, |Flatten(init)|, lo, hi);
      ContentAppend(env, blobs, w, p);
      ClipAppend(Flatten(init), c, lo, hi);
      assert Flatten(cs) == Flatten(init) + c;
    }
  }

  /** The bytes of a stored file do not change when blobs are added. */
  lemma {:induction false} ContentStable(env: Env, a: Blobs, b: Blobs, chunks: seq<FileChunk>)
    requires AppendOnly(a, b) && AllInBlobs(env, a, chunks)
    ensures AllInBlobs(env, b, chunks) && Content(env, b, chunks) == Content(env, a, chunks)
  {
    forall k | 0 <= k < |chunks| ensures InBlob(env, b, chunks[k]) {
      assert InBlob(env, a, chunks[k]);
    }
    if chunks != [] {
      ContentStable(env, a, b, Init(chunks));
      assert InBlob(env, a, Last(chunks));
    }
  }

  // How many pieces there are.

  /** The number of chunks that start before x. */
  function StartsBefore(rs: seq<ChunkRef>, x: nat): nat {
    if rs == [] then 0 else StartsBefore(Init(rs), x) + if Total(Init(rs)) < x then 1 else 0
  }

  /** The number of chunks that end at or before x. */
  function EndsBy(rs: seq<ChunkRef>, x: nat): nat {
    if rs == [] then 0 else EndsBy(Init(rs), x) + if Total(rs) <= x then 1 else 0
  }

  predicate NonEmptyRefs(rs: seq<ChunkRef>) {
    forall k | 0 <= k < |rs| :: 0 < rs[k].len
  }

  lemma {:induction false} WindowCount(rs: seq<ChunkRef>, lo: nat, hi: nat)
    requires NonEmptyRefs(rs) && lo < hi
    ensures |Window(rs, lo, hi)| + EndsBy(rs, lo) == StartsBefore(rs, hi)
    ensures StartsBefore(rs, hi) <= EndsBy(rs, hi) + 1
    ensures Total(rs) <= hi ==> StartsBefore(rs, hi) == EndsBy(rs, hi)
    ensures StartsBefore(rs, hi) <= |rs|
  {
    if rs != [] {
      WindowCount(Init(rs), lo, hi);
    }
  }

  function SumLen(fs: seq<Bytes>): nat {
    |Flatten(fs)|
  }

  function PieceCount(rs: seq<ChunkRef>, fs: seq<Bytes>): nat {
    if fs == [] then 0
    else PieceCount(rs, Init(fs)) + |Window(rs, SumLen(Init(fs)), SumLen(fs))|
  }

  function NonEmptyFiles(fs: seq<Bytes>): nat {
    if fs == [] then 0 else NonEmptyFiles(Init(fs)) + if Last(fs) == [] then 0 else 1
  }

  /** Each file boundary splits at most one chunk: at most chunks + non-empty files - 1 pieces in all. */
  lemma {:induction false} PieceCountBound(rs: seq<ChunkRef>, fs: seq<Bytes>)
    requires NonEmptyRefs(rs)
    ensures NonEmptyFiles(fs) == 0 ==> PieceCount(rs, fs) == 0 && SumLen(fs) == 0
    ensures NonEmptyFiles(fs) > 0 ==>
              && SumLen(fs) > 0
              && PieceCount(rs, fs) <= StartsBefore(rs, SumLen(fs)) + NonEmptyFiles(fs) - 1
              && PieceCount(rs, fs) <= |rs| + NonEmptyFiles(fs) - 1
  {
    if fs != [] {
      var init, lo, hi := Init(fs), SumLen(Init(fs)), SumLen(fs);
      PieceCountBound(rs, init);
      assert hi == lo + |Last(fs)|;
      if Last(fs) == [] {
        WindowEmpty(rs, lo, hi);
      } else {
        WindowCount(rs, lo, hi);
        if NonEmptyFiles(init) > 0 {
          WindowCount(rs, 0, lo);
        }
      }
    }
  }
}
