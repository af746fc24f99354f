/** The content-addressed blob directory of an OCI image, and readers positioned inside blobs. */
module Store {
  import opened Types
  import opened Seqs

  /**
   * The libraries a build relies on: SHA-256, the fs-verity measurement, the Zstd codec, the
   * content-defined chunker; and whether the build compresses (Zstd) or not (Noop).
   */
  datatype Env = Env(
    hash: Bytes -> Digest,
    measure: Bytes -> Digest,
    compress: Bytes -> Bytes,
    decompress: Bytes -> Bytes,
    cut: Bytes -> seq<Bytes>,
    zstd: bool)

  /** Two builds may differ in whether they compress, and in nothing else. */
  ghost predicate SameLibraries(env: Env, other: Env) {
    other == env.(zstd := other.zstd)
  }

  ghost predicate LosslessCodec(env: Env) {
    forall x :: env.decompress(env.compress(x)) == x
  }

  ghost predicate CollisionFree(env: Env) {
    forall x, y | env.hash(x) == env.hash(y) :: x == y
  }

  ghost predicate GoodChunker(env: Env) {
    forall s :: Flatten(env.cut(s)) == s && forall k | 0 <= k < |env.cut(s)| :: env.cut(s)[k] != []
  }

  type Blobs = map<Digest, Bytes>

  ghost predicate ContentAddressed(env: Env, blobs: Blobs) {
    forall d | d in blobs :: env.hash(blobs[d]) == d
  }

  function Encoded(env: Env, zstd: bool, c: Bytes): Bytes {
    if zstd then env.compress(c) else c
  }

  predicate StoredCompressed(env: Env, zstd: bool, c: Bytes) {
    zstd && |env.compress(c)| < |c|
  }

  /** What is written for a buffer: its compressed form only if that is smaller. */
  function Payload(env: Env, zstd: bool, c: Bytes): Bytes {
    if StoredCompressed(env, zstd, c) then env.compress(c) else c
  }

  function Decode(env: Env, compressed: bool, payload: Bytes): Bytes {
    if compressed then env.decompress(payload) else payload
  }

  function Put(env: Env, zstd: bool, blobs: Blobs, c: Bytes): Blobs {
    var x := Payload(env, zstd, c);
    if env.hash(x) in blobs then blobs else blobs[env.hash(x) := x]
  }

  function PutAll(env: Env, blobs: Blobs, cs: seq<Bytes>): Blobs {
    if cs == [] then blobs else Put(env, env.zstd, PutAll(env, blobs, Init(cs)), Last(cs))
  }

  /** The blob named by the hash of the bytes holds them. */
  predicate Intact(env: Env, blobs: Blobs, x: Bytes) {
    env.hash(x) in blobs && blobs[env.hash(x)] == x
  }

  ghost predicate AppendOnly(a: Blobs, b: Blobs) {
    forall d | d in a :: d in b && b[d] == a[d]
  }

  lemma {:induction false} PutAllGrows(env: Env, blobs: Blobs, cs: seq<Bytes>)
    ensures AppendOnly(blobs, PutAll(env, blobs, cs))
    ensures ContentAddressed(env, blobs) ==> ContentAddressed(env, PutAll(env, blobs, cs))
    ensures forall c | c in cs :: env.hash(Payload(env, env.zstd, c)) in PutAll(env, blobs, cs)
  {
    if cs != [] {
      PutAllGrows(env, blobs, Init(cs));
      assert forall c | c in cs :: c in Init(cs) || c == Last(cs);
    }
  }

  /** One call that stores a buffer, with or without compression. */
  datatype Write = Write(zstd: bool, data: Bytes)

  function Written(env: Env, w: Write): Bytes {
    Payload(env, w.zstd, w.data)
  }

  function PutEach(env: Env, blobs: Blobs, ws: seq<Write>): Blobs {
    if ws == [] then blobs else Put(env, Last(ws).zstd, PutEach(env, blobs, Init(ws)), Last(ws).data)
  }

  ghost predicate NoClash(env: Env, blobs: Blobs, ws: seq<Write>) {
    && (forall a, b | a in ws && b in ws && env.hash(Written(env, a)) == env.hash(Written(env, b)) :: Written(env, a) == Written(env, b))
    && (forall a | a in ws && env.hash(Written(env, a)) in blobs :: Intact(env, blobs, Written(env, a)))
  }

  /**
   * Whatever the store holds, however many buffers are put into it, and in whatever order: all of them
   * can still be read from it exactly when no two of the written payloads collide and none collides
   * with a blob that was there.
   */
  lemma PutEachKeeps(env: Env, blobs: Blobs, ws: seq<Write>)
    ensures (forall w | w in ws :: Intact(env, PutEach(env, blobs, ws), Written(env, w))) <==> NoClash(env, blobs, ws)
  {
    PutEachGrows(env, blobs, ws);
    if NoClash(env, blobs, ws) {
      forall w | w in ws ensures Intact(env, PutEach(env, blobs, ws), Written(env, w)) {
        PutEachOrigin(env, blobs, ws, env.hash(Written(env, w)));
      }
    }
  }

  lemma {:induction false} PutEachGrows(env: Env, blobs: Blobs, ws: seq<Write>)
    ensures AppendOnly(blobs, PutEach(env, blobs, ws))
    ensures forall w | w in ws :: env.hash(Written(env, w)) in PutEach(env, blobs, ws)
  {
    if ws != [] {
      PutEachGrows(env, blobs, Init(ws));
      assert forall w | w in ws :: w in Init(ws) || w == Last(ws);
    }
  }

  lemma {:induction false} PutEachOrigin(env: Env, blobs: Blobs, ws: seq<Write>, d: Digest)
    requires d in PutEach(env, blobs, ws)
    ensures || (d in blobs && PutEach(env, blobs, ws)[d] == blobs[d])
            || exists w :: w in ws && env.hash(Written(env, w)) == d && PutEach(env, blobs, ws)[d] == Written(env, w)
  {
    if ws != [] {
      if d in PutEach(env, blobs, Init(ws)) {
        PutEachOrigin(env, blobs, Init(ws), d);
      } else {
        assert Last(ws) in ws;
      }
    }
  }

  function WritesOf(zstd: bool, cs: seq<Bytes>): seq<Write> {
    if cs == [] then [] else WritesOf(zstd, Init(cs)) + [Write(zstd, Last(cs))]
  }

  /** A payload that is intact decodes to the buffer it was written for, under the flag that was returned for it. */
  lemma WrittenReadsBack(env: Env, blobs: Blobs, w: Write)
    requires LosslessCodec(env) && Intact(env, blobs, Written(env, w))
    ensures Decode(env, StoredCompressed(env, w.zstd, w.data), blobs[env.hash(Written(env, w))]) == w.data
  {
    assert env.decompress(env.compress(w.data)) == w.data;
  }

  /** So every digest and flag ever returned, for whatever mixture of puts, leads back to what was put. */
  lemma PutEachReadsBack(env: Env, blobs: Blobs, ws: seq<Write>, w: Write)
    requires LosslessCodec(env) && NoClash(env, blobs, ws) && w in ws
    ensures var after := PutEach(env, blobs, ws);
            && env.hash(Written(env, w)) in after
            && Decode(env, StoredCompressed(env, w.zstd, w.data), after[env.hash(Written(env, w))]) == w.data
  {
    PutEachKeeps(env, blobs, ws);
    WrittenReadsBack(env, PutEach(env, blobs, ws), w);
  }

  /**
   * What was ever put into a content-addressed store is intact and decodes to itself with the flag it
   * was stored under, even where its payload is at the same time the raw or compressed form of something else.
   */
  lemma KeptReadsBack(env: Env, blobs: Blobs, w: Write)
    requires LosslessCodec(env)
    requires CollisionFree(env) && ContentAddressed(env, blobs) && env.hash(Written(env, w)) in blobs
    ensures Intact(env, blobs, Written(env, w))
    ensures Decode(env, StoredCompressed(env, w.zstd, w.data), blobs[env.hash(Written(env, w))]) == w.data
  {
    var x := Written(env, w);
    assert env.hash(blobs[env.hash(x)]) == env.hash(x);
    WrittenReadsBack(env, blobs, w);
  }

  /**
   * The verity digest is measured over the encoded form.  It is the measurement of the stored
   * blob exactly when the encoded form is what was stored or measures the same.
   */
  lemma VerityMatchesStored(env: Env, zstd: bool, c: Bytes)
    requires forall x, y | env.measure(x) == env.measure(y) :: x == y
    ensures env.measure(Encoded(env, zstd, c)) == env.measure(Payload(env, zstd, c)) <==>
            !zstd || |env.compress(c)| < |c| || env.compress(c) == c
  {
  }

  datatype Media = RootfsMedia | ChunkMedia

  datatype Descriptor = Descriptor(media: Media, zstd: bool, size: nat, digest: Digest, annotation: Option<Digest>)

  class Manifest {
    var layers: seq<Descriptor>

    constructor ()
      ensures layers == []
    {
      layers := [];
    }
  }

  function DescriptorOf(env: Env, zstd: bool, c: Bytes, media: Media): Descriptor {
    Descriptor(media, zstd, Min(|Encoded(env, zstd, c)|, |c|), env.hash(Payload(env, zstd, c)),
               if media.RootfsMedia? then Some(env.measure(Encoded(env, zstd, c))) else None)
  }

  /** The blob the descriptor names is there and is as long as the descriptor says. */
  predicate Sized(blobs: Blobs, d: Descriptor) {
    d.digest in blobs && d.size == |blobs[d.digest]|
  }

  /** In a content-addressed store what was written for a buffer is found under its hash, and sized right. */
  lemma DescriptorSized(env: Env, zstd: bool, c: Bytes, media: Media, blobs: Blobs)
    requires CollisionFree(env) && ContentAddressed(env, blobs) && env.hash(Payload(env, zstd, c)) in blobs
    ensures var d := DescriptorOf(env, zstd, c, media); Sized(blobs, d) && blobs[d.digest] == Payload(env, zstd, c)
  {
    assert env.hash(blobs[env.hash(Payload(env, zstd, c))]) == env.hash(Payload(env, zstd, c));
  }

  function WithDescriptor(layers: seq<Descriptor>, d: Descriptor): seq<Descriptor> {
    if d.media.RootfsMedia? then [d] + layers else layers + [d]
  }

  class Image {
    var blobs: Blobs

    constructor (blobs: Blobs)
      ensures this.blobs == blobs
    {
      this.blobs := blobs;
    }

    /**
     * An existing blob is never replaced.  The call fails exactly when a blob of that name has
     * other content by its hash, which a content-addressed store excludes.
     */
    method PutBlob(env: Env, zstd: bool, buf: Bytes, manifest: Manifest, media: Media)
      returns (r: Result<(Descriptor, Digest, bool)>)
      modifies this, manifest
      ensures r.Err? <==> var d := env.hash(Payload(env, zstd, buf)); d in old(blobs) && env.hash(old(blobs)[d]) != d
      ensures r.Err? ==> blobs == old(blobs) && manifest.layers == old(manifest.layers)
      ensures r.Ok? ==>
                && r.value == (DescriptorOf(env, zstd, buf, media), env.measure(Encoded(env, zstd, buf)), StoredCompressed(env, zstd, buf))
                && blobs == Put(env, zstd, old(blobs), buf)
                && manifest.layers == WithDescriptor(old(manifest.layers), r.value.0)
      ensures r.Ok? && CollisionFree(env) && ContentAddressed(env, old(blobs)) ==>
                && Sized(blobs, r.value.0) && env.hash(blobs[r.value.0.digest]) == r.value.0.digest
                && Decode(env, r.value.2, blobs[r.value.0.digest]) == if r.value.2 then env.decompress(env.compress(buf)) else buf
    {
      var compressedData := if zstd then env.compress(buf) else buf;
      var compressedBlob := zstd;
      var finalSize := if |compressedData| <= |buf| then |compressedData| else |buf|;
      var finalData := compressedData;
      if compressedBlob && |compressedData| >= |buf| {
        compressedBlob := false;
        finalData := buf;
      }
      var digest := env.hash(finalData);
      var verity := env.measure(compressedData);
      var descriptor := Descriptor(media, zstd, finalSize, digest, if media.RootfsMedia? then Some(verity) else None);
      if digest in blobs {
        if env.hash(blobs[digest]) != digest {
          return Err(AlreadyExists);
        }
      } else {
        blobs := blobs[digest := finalData];
      }
      if media.RootfsMedia? {
        manifest.layers := [descriptor] + manifest.layers;
      } else {
        manifest.layers := manifest.layers + [descriptor];
      }
      assert blobs == Put(env, zstd, old(blobs), buf);
      if CollisionFree(env) && ContentAddressed(env, old(blobs)) {
        DescriptorSized(env, zstd, buf, media, blobs);
      }
      return Ok((descriptor, verity, compressedBlob));
    }

    /** Fills buf[start..finish] from the referenced blob, addl bytes after the reference's offset. */
    method FillFromChunk(env: Env, chunk: BlobRef, addl: nat, buf: array<Byte>, start: nat, finish: nat,
                         verity: Option<map<Digest, Digest>>) returns (r: Result<nat>)
      requires start <= finish <= buf.Length
      modifies buf
      ensures r.Ok? <==>
              && Openable(env, blobs, chunk.digest, verity)
              && (chunk.compressed ==> chunk.offset + addl <= |env.decompress(blobs[chunk.digest])|)
      ensures r.Err? ==> buf[..] == old(buf[..])
      ensures r.Ok? ==>
                var data := Decode(env, chunk.compressed, blobs[chunk.digest]);
                var at := chunk.offset + addl;
                && r.value == Min(finish - start, Max(0, |data| - at))
                && buf[..start] == old(buf[..start])
                && (r.value > 0 ==> buf[start..start + r.value] == data[at..at + r.value])
                && buf[start + r.value..] == old(buf[start + r.value..])
    {
      if verity.Some? && chunk.digest !in verity.value {
        return Err(MissingVerity);
      }
      if chunk.digest !in blobs {
        return Err(ENOENT);
      }
      if verity.Some? && env.measure(blobs[chunk.digest]) != verity.value[chunk.digest] {
        return Err(VerityMismatch);
      }
      var reader := new BlobReader(Decode(env, chunk.compressed, blobs[chunk.digest]), chunk.compressed);
      var pos := reader.Seek(Start(chunk.offset + addl));
      r := reader.Read(buf, start, finish);
    }
  }

  /** A blob can be opened: it exists and, when verity is on, it has an entry that matches. */
  predicate Openable(env: Env, blobs: Blobs, d: Digest, verity: Option<map<Digest, Digest>>) {
    d in blobs && (verity.Some? ==> d in verity.value && verity.value[d] == env.measure(blobs[d]))
  }

  datatype SeekFrom = Start(n: nat) | End(delta: int) | Current(delta: int)

  /** A reader over the decoded bytes of a blob.  The Zstd one cannot read past the end. */
  class BlobReader {
    const data: Bytes
    const zstd: bool
    var offset: nat

    constructor (data: Bytes, zstd: bool)
      ensures this.data == data && this.zstd == zstd && offset == 0
    {
      this.data := data;
      this.zstd := zstd;
      offset := 0;
    }

    /** The position that is asked for. */
    function Sought(to: SeekFrom): int
      reads this
    {
      match to
      case Start(n) => n
      case End(e) => |data| + e
      case Current(c) => offset + c
    }

    /** Fails exactly for a position before the start, and with Zstd for one given as past the end. */
    method Seek(to: SeekFrom) returns (r: Result<nat>)
      modifies this
      ensures r.Ok? <==> old(Sought(to)) >= 0 && !(zstd && to.End? && to.delta > 0)
      ensures r.Ok? ==> r.value == offset == old(Sought(to))
      ensures r.Err? ==> offset == old(offset)
    {
      if zstd && to.End? && to.delta > 0 {
        return Err(EINVAL);
      }
      var sought := match to { case Start(n) => n case End(e) => |data| + e case Current(c) => offset + c };
      if sought < 0 {
        return Err(EINVAL);
      }
      offset := sought;
      return Ok(offset);
    }

    /** Fills as much of buf[start..finish] as there is data left. */
    method Read(buf: array<Byte>, start: nat, finish: nat) returns (r: Result<nat>)
      requires start <= finish <= buf.Length
      modifies this, buf
      ensures r.Ok? <==> (zstd ==> old(offset) <= |data|)
      ensures r.Err? ==> offset == old(offset) && buf[..] == old(buf[..])
      ensures r.Ok? ==>
                var n := r.value;
                && n == Min(finish - start, Max(0, |data| - old(offset))) && offset == old(offset) + n
                && buf[..start] == old(buf[..start])
                && (n > 0 ==> buf[start..start + n] == data[old(offset)..offset])
                && buf[start + n..] == old(buf[start + n..])
    {
      if zstd && offset > |data| {
        return Err(EINVAL);
      }
      var n := if offset <= |data| then Min(finish - start, |data| - offset) else 0;
      var k := 0;
      while k < n
        invariant 0 <= k <= n && offset == old(offset)
        invariant buf[..start] == old(buf[..start])
        invariant k > 0 ==> buf[start..start + k] == data[offset..offset + k]
        invariant buf[start + k..] == old(buf[start + k..])
      {
        buf[start + k] := data[offset + k];
        k := k + 1;
      }
      offset := offset + n;
      return Ok(n);
    }
  }

  /** The end of a blob can be read without reading what comes before it. */
  method ReadLast(reader: BlobReader, buf: array<Byte>) returns (r: Result<nat>)
    requires buf.Length <= |reader.data|
    modifies reader, buf
    ensures r == Ok(buf.Length) && buf[..] == reader.data[|reader.data| - buf.Length..] && reader.offset == |reader.data|
  {
    var pos := reader.Seek(End(-buf.Length));
    r := reader.Read(buf, 0, buf.Length);
    assert buf[0..0 + buf.Length] == buf[..];
  }

  /** Going back by what was read, the same bytes come again. */
  method ReadAgain(reader: BlobReader, a: array<Byte>, b: array<Byte>) returns (r: Result<nat>)
    requires a != b && a.Length == b.Length
    modifies reader, a, b
    ensures r.Ok? <==> (reader.zstd ==> old(reader.offset) <= |reader.data|)
    ensures r.Ok? ==>
              && r.value <= a.Length && a[..r.value] == b[..r.value]
              && reader.offset == old(reader.offset) + r.value
  {
    r := reader.Read(a, 0, a.Length);
    if r.Err? {
      return;
    }
    var n: int := r.value;
    assert n > 0 ==> a[0..0 + n] == a[..n];
    var back := reader.Seek(Current(-n));
    r := reader.Read(b, 0, b.Length);
    assert n > 0 ==> b[0..0 + n] == b[..n];
  }
}
