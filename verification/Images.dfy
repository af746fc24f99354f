/** Building an image and building deltas on it: one step each of an image's history. */
module Images {
  import opened Types
  import opened HostTree
  import opened Layers
  import opened Store
  import opened ChunkAssignment
  import opened Plans
  import opened Deltas
  import opened RootNumber
  import opened Builder

  /** The metadata of an image: its layers, newest first, and the verity digests of its blobs. */
  datatype Rootfs = Rootfs(metadatas: seq<Layer>, verity: map<Digest, Digest>)

  /** An image together with the blob directory it lives in. */
  datatype ImageState = ImageState(rootfs: Rootfs, blobs: Blobs)

  /** A layer that equals one the image has is not added again. */
  function Push(layers: seq<Layer>, l: Layer): seq<Layer> {
    if l in layers then layers else [l] + layers
  }

  ghost function EffectsOf(env: Env, blobs: Blobs, t: Tree): Effects
    requires ValidTree(t)
  {
    StoreAll(env, Effects(blobs, map[], []), env.cut(Stream(t)))
  }

  /** What building tree t from nothing may lead to. */
  ghost predicate InitialStep(env: Env, ser: Rootfs -> Bytes, blobs: Blobs, t: Tree, s: ImageState) {
    && ValidTree(t)
    && |s.rootfs.metadatas| == 1 && Rendering(env, None, t, s.rootfs.metadatas[0])
    && s.rootfs.verity == EffectsOf(env, blobs, t).verity
    && s.blobs == Put(env, false, EffectsOf(env, blobs, t).blobs, ser(s.rootfs))
  }

  /** What building tree t on an image may lead to, when l is the layer rendered. */
  ghost predicate DeltaStep(env: Env, ser: Rootfs -> Bytes, s: ImageState, t: Tree, l: Layer, s': ImageState) {
    var layers := s.rootfs.metadatas;
    && ValidTree(t) && NonEmpty(layers)
    && Buildable(Some(layers), t)
    && Rendering(env, Some(layers), t, l)
    && s'.rootfs.metadatas == Push(layers, l)
    && s'.rootfs.verity == s.rootfs.verity + EffectsOf(env, s.blobs, t).verity
    && s'.blobs == Put(env, false, EffectsOf(env, s.blobs, t).blobs, ser(s'.rootfs))
  }

  /** A new manifest: the rootfs first, then one descriptor per chunk in stream order. */
  ghost predicate ManifestOf(env: Env, ser: Rootfs -> Bytes, t: Tree, rootfs: Rootfs, layers: seq<Descriptor>)
    requires ValidTree(t)
  {
    var cs := env.cut(Stream(t));
    && |layers| == |cs| + 1
    && layers[0] == DescriptorOf(env, false, ser(rootfs), RootfsMedia)
    && forall k | 0 <= k < |cs| :: layers[k + 1] == DescriptorOf(env, env.zstd, cs[k], ChunkMedia)
  }

  lemma ManifestIs(env: Env, ser: Rootfs -> Bytes, t: Tree, rootfs: Rootfs, blobs: Blobs)
    requires ValidTree(t)
    ensures ManifestOf(env, ser, t, rootfs, [DescriptorOf(env, false, ser(rootfs), RootfsMedia)] + EffectsOf(env, blobs, t).layers)
  {
    StoreAllRecords(env, Effects(blobs, map[], []), env.cut(Stream(t)));
  }

  /** The first descriptor of a manifest: the metadata, as it is, and the digest to verify it by. */
  ghost predicate RootDescribed(env: Env, blobs: Blobs, metadata: Bytes, d: Descriptor) {
    && Sized(blobs, d) && blobs[d.digest] == metadata
    && d.media == RootfsMedia && !d.zstd && d.annotation == Some(env.measure(metadata))
  }

  /** Any other descriptor: a chunk, or its compressed form if that is shorter. */
  ghost predicate ChunkDescribed(env: Env, blobs: Blobs, c: Bytes, d: Descriptor) {
    && Sized(blobs, d) && d.media == ChunkMedia && d.zstd == env.zstd && d.annotation == None
    && blobs[d.digest] == if env.zstd && |env.compress(c)| < |c| then env.compress(c) else c
  }

  /** A manifest that is right about the blob directory: one descriptor for the metadata, one for each chunk. */
  ghost predicate Described(env: Env, blobs: Blobs, metadata: Bytes, cs: seq<Bytes>, layers: seq<Descriptor>) {
    && |layers| == |cs| + 1
    && RootDescribed(env, blobs, metadata, layers[0])
    && forall k | 0 <= k < |cs| :: ChunkDescribed(env, blobs, cs[k], layers[k + 1])
  }

  lemma ManifestDescribed(env: Env, ser: Rootfs -> Bytes, t: Tree, rootfs: Rootfs, before: Blobs, layers: seq<Descriptor>)
    requires ValidTree(t) && CollisionFree(env) && ContentAddressed(env, before) && ManifestOf(env, ser, t, rootfs, layers)
    ensures var after := Put(env, false, EffectsOf(env, before, t).blobs, ser(rootfs));
            Described(env, after, ser(rootfs), env.cut(Stream(t)), layers)
  {
    var cs := env.cut(Stream(t));
    StoreAllRecords(env, Effects(before, map[], []), cs);
    PutAllGrows(env, before, cs);
    var after := Put(env, false, PutAll(env, before, cs), ser(rootfs));
    DescriptorSized(env, false, ser(rootfs), RootfsMedia, after);
    forall k | 0 <= k < |cs| ensures ChunkDescribed(env, after, cs[k], layers[k + 1]) {
      assert cs[k] in cs;
      DescriptorSized(env, env.zstd, cs[k], ChunkMedia, after);
    }
  }

  /** Stores the serialized metadata, uncompressed, as the first layer of the manifest. */
  method PutRootfs(env: Env, ser: Rootfs -> Bytes, oci: Image, manifest: Manifest, rootfs: Rootfs) returns (r: Result<()>)
    modifies oci, manifest
    ensures ContentAddressed(env, old(oci.blobs)) ==> r.Ok?
    ensures r.Ok? ==>
              && oci.blobs == Put(env, false, old(oci.blobs), ser(rootfs))
              && manifest.layers == [DescriptorOf(env, false, ser(rootfs), RootfsMedia)] + old(manifest.layers)
  {
    var put := oci.PutBlob(env, false, ser(rootfs), manifest, RootfsMedia);
    match put
    case Ok(_) => return Ok(());
    case Err(e) => return Err(e);
  }

  lemma StaysContentAddressed(env: Env, blobs: Blobs, t: Tree)
    requires ValidTree(t) && ContentAddressed(env, blobs)
    ensures ContentAddressed(env, EffectsOf(env, blobs, t).blobs)
  {
    StaysAddressed(env, Effects(blobs, map[], []), env.cut(Stream(t)));
  }

  method BuildInitialRootfs(env: Env, ser: Rootfs -> Bytes, t: Tree, oci: Image)
    returns (r: Result<Rootfs>, layers: seq<Descriptor>)
    requires ValidTree(t) && GoodChunker(env)
    modifies oci
    ensures ContentAddressed(env, old(oci.blobs)) ==> r.Ok?
    ensures r.Ok? ==>
              && InitialStep(env, ser, old(oci.blobs), t, ImageState(r.value, oci.blobs)) && RootUnlisted(r.value.metadatas)
              && ManifestOf(env, ser, t, r.value, layers)
    ensures r.Ok? && CollisionFree(env) && ContentAddressed(env, old(oci.blobs)) ==>
              Described(env, oci.blobs, ser(r.value), env.cut(Stream(t)), layers)
  {
    layers := [];
    var verity := new VerityData();
    var manifest := new Manifest();
    ghost var blobs := oci.blobs;
    var built := BuildDelta(env, t, oci, None, verity, manifest);
    if ContentAddressed(env, blobs) {
      StaysContentAddressed(env, blobs, t);
    }
    if built.Err? {
      return Err(built.error), [];
    }
    assert Effects(oci.blobs, verity.m, manifest.layers) == EffectsOf(env, blobs, t);
    var rootfs := Rootfs([built.value], verity.m);
    ManifestIs(env, ser, t, rootfs, blobs);
    var put := PutRootfs(env, ser, oci, manifest, rootfs);
    if put.Err? {
      return Err(put.error), [];
    }
    if CollisionFree(env) && ContentAddressed(env, blobs) {
      ManifestDescribed(env, ser, t, rootfs, blobs, manifest.layers);
    }
    return Ok(rootfs), manifest.layers;
  }

  /** Adds whatever the delta between the tree and the base image is. */
  method AddRootfsDelta(env: Env, ser: Rootfs -> Bytes, t: Tree, oci: Image, base: Rootfs)
    returns (r: Result<Rootfs>, layers: seq<Descriptor>, ghost l: Layer)
    requires ValidTree(t) && GoodChunker(env) && NonEmpty(base.metadatas) && RootUnlisted(base.metadatas)
    modifies oci
    ensures !Buildable(Some(base.metadatas), t) ==> r.Err? && oci.blobs == old(oci.blobs)
    ensures Buildable(Some(base.metadatas), t) && ContentAddressed(env, old(oci.blobs)) ==> r.Ok?
    ensures r.Ok? ==>
              && DeltaStep(env, ser, ImageState(base, old(oci.blobs)), t, l, ImageState(r.value, oci.blobs))
              && RootUnlisted(r.value.metadatas)
              && ManifestOf(env, ser, t, r.value, layers)
    ensures r.Ok? && CollisionFree(env) && ContentAddressed(env, old(oci.blobs)) ==>
              Described(env, oci.blobs, ser(r.value), env.cut(Stream(t)), layers)
  {
    layers, l := [], [];
    var verity := new VerityData();
    var manifest := new Manifest();
    ghost var blobs := oci.blobs;
    var built := BuildDelta(env, t, oci, Some(base.metadatas), verity, manifest);
    if ContentAddressed(env, blobs) {
      StaysContentAddressed(env, blobs, t);
    }
    if built.Err? {
      return Err(built.error), [], [];
    }
    assert Effects(oci.blobs, verity.m, manifest.layers) == EffectsOf(env, blobs, t);
    l := built.value;
    var metadatas := base.metadatas;
    if built.value !in metadatas {
      metadatas := [built.value] + metadatas;
    }
    var rootfs := Rootfs(metadatas, base.verity + verity.m);
    ManifestIs(env, ser, t, rootfs, blobs);
    var put := PutRootfs(env, ser, oci, manifest, rootfs);
    if put.Err? {
      return Err(put.error), [], l;
    }
    if CollisionFree(env) && ContentAddressed(env, blobs) {
      ManifestDescribed(env, ser, t, rootfs, blobs, manifest.layers);
    }
    return Ok(rootfs), manifest.layers, l;
  }
}
