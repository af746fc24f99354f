/** Opening blobs with fs-verity enforced. */
module Verity {
  import opened Types
  import opened Seqs
  import opened HostTree
  import opened Store
  import opened ChunkAssignment
  import opened Plans
  import opened Images
  import opened Steps
  import opened Runs

  /** The last write that went to the blob of that digest. */
  function LastWrite(env: Env, ws: seq<Write>, d: Digest): Option<Write> {
    if ws == [] then None
    else if env.hash(Written(env, Last(ws))) == d then Some(Last(ws))
    else LastWrite(env, Init(ws), d)
  }

  lemma {:induction false} LastWriteIs(env: Env, ws: seq<Write>, d: Digest)
    ensures match LastWrite(env, ws, d)
            case Some(w) => w in ws && env.hash(Written(env, w)) == d
            case None => forall w | w in ws :: env.hash(Written(env, w)) != d
  {
    if ws != [] {
      LastWriteIs(env, Init(ws), d);
      assert forall w :: w in ws <==> w in Init(ws) || w == Last(ws);
    }
  }

  lemma {:induction false} LastWriteOf(env: Env, a: seq<Write>, b: seq<Write>, d: Digest)
    ensures LastWrite(env, a + b, d) == if LastWrite(env, b, d).Some? then LastWrite(env, b, d) else LastWrite(env, a, d)
  {
    if b == [] {
      assert a + b == a;
    } else {
      InitAppend(a, b);
      LastWriteOf(env, a, Init(b), d);
    }
  }

  ghost predicate MeasuresAt(env: Env, verity: map<Digest, Digest>, ws: seq<Write>, d: Digest) {
    match LastWrite(env, ws, d)
    case Some(w) => d in verity && verity[d] == env.measure(Encoded(env, w.zstd, w.data))
    case None => d !in verity
  }

  /** The verity map holds, for every blob written to, the measurement of the encoded form of the last write. */
  ghost predicate Measures(env: Env, verity: map<Digest, Digest>, ws: seq<Write>) {
    forall d {:trigger MeasuresAt(env, verity, ws, d)} :: MeasuresAt(env, verity, ws, d)
  }

  /** Writes that follow are entered over those before. */
  lemma MeasuresMore(env: Env, v: map<Digest, Digest>, a: seq<Write>, v': map<Digest, Digest>, b: seq<Write>)
    requires Measures(env, v, a) && Measures(env, v', b)
    ensures Measures(env, v + v', a + b)
  {
    forall d ensures MeasuresAt(env, v + v', a + b, d) {
      LastWriteOf(env, a, b, d);
      assert MeasuresAt(env, v, a, d) && MeasuresAt(env, v', b, d);
    }
  }

  lemma {:induction false} BuildMeasures(env: Env, other: Env, blobs: Blobs, layers: seq<Descriptor>, cs: seq<Bytes>)
    requires SameLibraries(env, other)
    ensures Measures(env, StoreAll(other, Effects(blobs, map[], layers), cs).verity, WritesOf(other.zstd, cs))
  {
    if cs != [] {
      BuildMeasures(env, other, blobs, layers, Init(cs));
      var ws, w := WritesOf(other.zstd, Init(cs)), Write(other.zstd, Last(cs));
      var v := StoreAll(other, Effects(blobs, map[], layers), Init(cs)).verity;
      assert Init(ws + [w]) == ws && Last(ws + [w]) == w;
      forall d ensures MeasuresAt(env, StoreAll(other, Effects(blobs, map[], layers), cs).verity, ws + [w], d) {
        assert MeasuresAt(env, v, ws, d);
      }
    }
  }

  ghost predicate ExactMeasure(env: Env) {
    forall x, y | env.measure(x) == env.measure(y) :: x == y
  }

  /** The write does not compress, or compressing the data pays, or changes nothing. */
  predicate MeasuredAsStored(env: Env, w: Write) {
    !w.zstd || |env.compress(w.data)| < |w.data| || env.compress(w.data) == w.data
  }

  /**
   * With verity enforced a blob opens exactly when the last write to it was measured as it was stored.
   * Data that Zstd does not shrink is measured compressed but stored raw.
   */
  lemma OpensUnderVerity(env: Env, blobs: Blobs, verity: map<Digest, Digest>, ws: seq<Write>, w: Write)
    requires CollisionFree(env) && ExactMeasure(env) && ContentAddressed(env, blobs) && Measures(env, verity, ws)
    requires w in ws && env.hash(Written(env, w)) in blobs
    ensures LastWrite(env, ws, env.hash(Written(env, w))).Some?
    ensures Openable(env, blobs, env.hash(Written(env, w)), Some(verity)) <==>
            MeasuredAsStored(env, LastWrite(env, ws, env.hash(Written(env, w))).value)
  {
    var d := env.hash(Written(env, w));
    LastWriteIs(env, ws, d);
    assert MeasuresAt(env, verity, ws, d);
    var last := LastWrite(env, ws, d).value;
    assert env.hash(blobs[d]) == d == env.hash(Written(env, last));
    VerityMatchesStored(env, last.zstd, last.data);
  }

  // Over histories.

  /** Every chunk that build k wrote, in order. */
  ghost function WritesAt(env: Env, r: Run, k: nat): seq<Write>
    requires k < |r|
  {
    if ValidTree(r[k].tree) then WritesOf(r[k].zstd, env.cut(Stream(r[k].tree))) else []
  }

  /** Every chunk written by the builds that the image of build k goes back to, in order. */
  ghost function WritesUpTo(env: Env, r: Run, k: nat): seq<Write>
    requires k < |r|
    decreases k
  {
    (if r[k].base.Some? && r[k].base.value < k then WritesUpTo(env, r, r[k].base.value) else [])
    + WritesAt(env, r, k)
  }

  /** What build k enters into the verity map. */
  lemma VerityAt(env: Env, ser: Rootfs -> Bytes, r: Run, k: nat)
    requires IsRun(env, ser, r) && k < |r|
    ensures ValidTree(r[k].tree) && (r[k].base.Some? ==> r[k].base.value < k)
    ensures var entered := StoreAll(EnvAt(env, r, k), Effects(r[k].store, map[], []), env.cut(Stream(r[k].tree))).verity;
            r[k].state.rootfs.verity == if r[k].base.Some? then r[r[k].base.value].state.rootfs.verity + entered else entered
  {
    assert Built(env, ser, r, k);
  }

  lemma {:induction false} RunMeasures(env: Env, ser: Rootfs -> Bytes, r: Run, k: nat)
    requires IsRun(env, ser, r) && k < |r|
    ensures Measures(env, r[k].state.rootfs.verity, WritesUpTo(env, r, k))
    decreases k
  {
    VerityAt(env, ser, r, k);
    var cs := env.cut(Stream(r[k].tree));
    var entered := StoreAll(EnvAt(env, r, k), Effects(r[k].store, map[], []), cs).verity;
    BuildMeasures(env, EnvAt(env, r, k), r[k].store, [], cs);
    match r[k].base
    case None => assert [] + WritesOf(r[k].zstd, cs) == WritesOf(r[k].zstd, cs);
    case Some(j) =>
      RunMeasures(env, ser, r, j);
      MeasuresMore(env, r[j].state.rootfs.verity, WritesUpTo(env, r, j), entered, WritesOf(r[k].zstd, cs));
  }

  lemma {:induction false} WrittenHeld(env: Env, blobs: Blobs, cs: seq<Bytes>, w: Write)
    requires w in WritesOf(env.zstd, cs)
    ensures env.hash(Written(env, w)) in PutAll(env, blobs, cs)
  {
    PutAllGrows(env, blobs, cs);
    if w in WritesOf(env.zstd, Init(cs)) {
      WrittenHeld(env, blobs, Init(cs), w);
    } else {
      assert Last(cs) in cs;
    }
  }

  lemma WrittenStays(env: Env, blobs: Blobs, t: Tree, metadata: Bytes, w: Write)
    requires ValidTree(t) && w in WritesOf(env.zstd, env.cut(Stream(t)))
    ensures env.hash(Written(env, w)) in StoreAfter(env, blobs, t, metadata)
  {
    StoreAllRecords(env, Effects(blobs, map[], []), env.cut(Stream(t)));
    WrittenHeld(env, blobs, env.cut(Stream(t)), w);
  }

  lemma BlobsLeft(env: Env, ser: Rootfs -> Bytes, r: Run, k: nat)
    requires IsRun(env, ser, r) && k < |r|
    ensures ValidTree(r[k].tree)
    ensures r[k].state.blobs == StoreAfter(EnvAt(env, r, k), r[k].store, r[k].tree, ser(r[k].state.rootfs))
  {
    assert Built(env, ser, r, k);
  }

  lemma BuildHolds(env: Env, ser: Rootfs -> Bytes, r: Run, k: nat, w: Write)
    requires IsRun(env, ser, r) && k < |r| && w in WritesAt(env, r, k)
    ensures env.hash(Written(env, w)) in r[k].state.blobs
  {
    BlobsLeft(env, ser, r, k);
    WrittenStays(EnvAt(env, r, k), r[k].store, r[k].tree, ser(r[k].state.rootfs), w);
  }

  /** Whatever was written on the way is in the blob directory. */
  lemma {:induction false} RunHolds(env: Env, ser: Rootfs -> Bytes, r: Run, k: nat, w: Write)
    requires Trusted(env) && IsRun(env, ser, r) && k < |r| && w in WritesUpTo(env, r, k)
    ensures env.hash(Written(env, w)) in r[k].state.blobs
    decreases k
  {
    if w in WritesAt(env, r, k) {
      BuildHolds(env, ser, r, k, w);
    } else {
      var j := r[k].base.value;
      RunHolds(env, ser, r, j, w);
      StoreGrows(env, ser, r, j, k);
      StoreLeft(env, ser, r, k);
    }
  }

  /**
   * Over any history, whatever was split: a chunk that any build on the way to an image wrote opens
   * under the image's verity map, in any later blob directory, if and only if the last of those builds
   * that wrote to its blob last wrote something measured as it was stored.
   */
  lemma RunOpensUnderVerity(env: Env, ser: Rootfs -> Bytes, r: Run, k: nat, blobs: Blobs, w: Write)
    requires Trusted(env) && ExactMeasure(env) && IsRun(env, ser, r) && k < |r|
    requires AppendOnly(r[k].state.blobs, blobs) && ContentAddressed(env, blobs) && w in WritesUpTo(env, r, k)
    ensures LastWrite(env, WritesUpTo(env, r, k), env.hash(Written(env, w))).Some?
    ensures Openable(env, blobs, env.hash(Written(env, w)), Some(r[k].state.rootfs.verity)) <==>
            MeasuredAsStored(env, LastWrite(env, WritesUpTo(env, r, k), env.hash(Written(env, w))).value)
  {
    RunMeasures(env, ser, r, k);
    RunHolds(env, ser, r, k, w);
    OpensUnderVerity(env, blobs, r[k].state.rootfs.verity, WritesUpTo(env, r, k), w);
  }
}
