/** Small histories in which the image does not display the tree built last. */
module Examples {
  import opened Types
  import opened Seqs
  import opened HostTree
  import opened Layers
  import opened Store
  import opened Plans
  import opened Numbers
  import opened Deltas
  import opened Reproducible
  import opened Display
  import opened Images
  import opened Steps
  import opened Splits
  import opened Runs
  import opened Histories
  import opened FreshTrees
  import opened ChunkAssignment
  import opened Chunks
  import opened Choices
  import opened Existence
  import opened Verity
  import opened Walk
  import opened ShownWalk
  import opened Drops

  const PLAIN: Meta := Meta(0, 0, DEFAULT_FILE_PERMISSIONS, None)
  const A: Name := [97]
  const B: Name := [98]

  function Single(content: Bytes): Tree {
    map[[] := HDir(1, PLAIN), [A] := HFile(2, PLAIN, content)]
  }

  function Pair(a: HNode, b: HNode): Tree {
    map[[] := HDir(1, PLAIN), [A] := a, [B] := b]
  }

  /** One file under two names. */
  function Linked(): Tree {
    Pair(HFile(2, PLAIN, [1]), HFile(2, PLAIN, [1]))
  }

  /** The second name has become a file of its own. */
  function Apart(): Tree {
    Pair(HFile(2, PLAIN, [1]), HFile(3, PLAIN, [2]))
  }

  /** The first edit of an image is always seen. */
  lemma FirstEdit(env: Env, other: Env, ser: Rootfs -> Bytes, s: ImageState, t: Tree, plan: Plan, u: Tree, l: Layer,
                  s': ImageState)
    requires Trusted(other) && SameLibraries(env, other) && Retouched(t, u) && !Iso(t, u)
    requires Good(env, s, t, plan) && |s.rootfs.metadatas| == 1 && DeltaStep(other, ser, s, u, l, s')
    ensures l !in s.rootfs.metadatas && Good(other, s', u, plan)
  {
    EditIsSeen(env, other, ser, s, t, plan, u, l, s');
    OnlyMember(s.rootfs.metadatas, l);
  }

  lemma ApartIsValid()
    ensures ValidTree(Apart()) && ValidTree(Single([1]))
  {
    var t, s := Apart(), Single([1]);
    forall p | p in t && p != [] ensures HasParent(t, p) {
      assert Init(p) == [];
    }
    forall p | p in s && p != [] ensures HasParent(s, p) {
      assert Init(p) == [];
    }
  }

  lemma LeaderAlone(u: Tree, p: Path)
    requires ValidTree(u) && p in u && p != [] && forall q | SameInode(u, p, q) :: q == p
    ensures p in Firsts(u, Visits(u))
  {
    AloneLeads(u, p);
  }

  lemma ApartLeads()
    requires ValidTree(Apart())
    ensures [A] in Firsts(Apart(), Visits(Apart())) && [B] in Firsts(Apart(), Visits(Apart())) && [A] != [B]
  {
    var u := Apart();
    assert forall q | SameInode(u, [A], q) :: q == [A];
    assert forall q | SameInode(u, [B], q) :: q == [B];
    LeaderAlone(u, [A]);
    LeaderAlone(u, [B]);
  }

  /** Giving one of two links its own content splits the group. */
  lemma ApartSplits()
    ensures ValidTree(Apart()) && !LinksKept(Linked(), Apart())
  {
    ApartIsValid();
    ApartLeads();
    assert SameInode(Linked(), [A], [B]);
  }

  /** So does deleting one of two links. */
  lemma DeletingOneSplits()
    ensures ValidTree(Single([1])) && !LinksKept(Linked(), Single([1]))
  {
    ApartIsValid();
    var t, u := Linked(), Single([1]);
    LeaderAlone(u, [A]);
    assert SameInode(t, [A], [B]) && Init([B]) == [] && DeletedFrom(t, u, [B]);
  }

  /** Builds one after the other, each on the image before. */
  predicate Chain(r: Run, trees: seq<Tree>) {
    |r| == |trees| && forall k | 0 <= k < |r| :: r[k].tree == trees[k] && r[k].base == if k == 0 then None else Some(k - 1)
  }

  lemma FirstIsGood(env: Env, ser: Rootfs -> Bytes, r: Run, trees: seq<Tree>)
    requires Trusted(env) && IsRun(env, ser, r) && Chain(r, trees) && |r| > 0
    ensures Sane(r, 0) && Shown(r, 0) == 0 && Unsplit(r, 0) && |LayersAt(r, 0)| == 1 && GoodFor(env, r, 0, 0, r[0].state.blobs)
  {
    FirstStep(env, ser, r, 0);
    FirstShows(env, ser, r, 0);
    InitialDistinct(r[0].tree);
  }

  lemma NewSplitIsNotDisplayed(env: Env, ser: Rootfs -> Bytes, r: Run, t: Tree, u: Tree)
    requires Trusted(env) && IsRun(env, ser, r) && Chain(r, [t, u]) && !LinksKept(t, u) && !Iso(t, u)
    ensures !DisplaysAt(env, r, 1)
  {
    FirstIsGood(env, ser, r, [t, u]);
    BuiltSane(env, ser, r, 1);
    NoSplitIffLinksKept(EnvAt(env, r, 0), LayersAt(r, 0), t, PlanAt(r, 0), u);
    BuildDisplaysIff(env, ser, r, 1, 0);
  }

  /** Neither change of the links is displayed, whether the builds compress or not. */
  lemma SplitIsNotDisplayed(env: Env, ser: Rootfs -> Bytes, r: Run, u: Tree)
    requires Trusted(env) && IsRun(env, ser, r) && Chain(r, [Linked(), u]) && (u == Apart() || u == Single([1]))
    ensures !DisplaysAt(env, r, 1)
  {
    ApartSplits();
    DeletingOneSplits();
    NotOneTree(u);
    NewSplitIsNotDisplayed(env, ser, r, Linked(), u);
  }

  lemma NotOneTree(u: Tree)
    requires u == Apart() || u == Single([1])
    ensures !Iso(Linked(), u)
  {
    assert SameInode(Linked(), [A], [B]) && !SameInode(u, [A], [B]);
  }

  // Undoing an edit.

  /** Changing contents or metadata and undoing that with the first choice of compression is lost. */
  lemma UndoneEditIsLost(env: Env, ser: Rootfs -> Bytes, r: Run, t: Tree, u: Tree)
    requires Trusted(env) && IsRun(env, ser, r) && Chain(r, [t, u, t]) && Retouched(t, u) && !Iso(t, u) && r[2].zstd == r[0].zstd
    ensures Displays(env, r[2].state.blobs, LayersAt(r, 2), u) && !DisplaysAt(env, r, 2)
  {
    UndoneEditShown(env, ser, r, t, u);
    BuildAdds(env, ser, r, 2);
    RunDisplays(env, ser, r, 2, r[2].state.blobs, u);
    RunDisplays(env, ser, r, 2, r[2].state.blobs, t);
    IsoSelf(u);
    if Iso(u, t) {
      IsoSym(u, t);
    }
  }

  lemma EditIsNew(env: Env, ser: Rootfs -> Bytes, r: Run, t: Tree, u: Tree)
    requires Trusted(env) && IsRun(env, ser, r) && From(r, 1, 0) && GoodFor(env, r, 0, 0, r[0].state.blobs)
    requires |LayersAt(r, 0)| == 1
    requires r[0].tree == t && r[1].tree == u && Retouched(t, u) && !Iso(t, u)
    ensures r[1].layer !in LayersAt(r, 0)
  {
    BaseGood(env, ser, r, 1, 0, 0);
    DeltaAt(env, ser, r, 1, 0);
    FirstEdit(EnvAt(env, r, 0), EnvAt(env, r, 1), ser, Found(r, 1, 0), t, PlanAt(r, 0), u, r[1].layer, r[1].state);
  }

  lemma EditPlanned(env: Env, r: Run, t: Tree, u: Tree)
    requires From(r, 1, 0) && Sane(r, 1) && GoodFor(env, r, 0, 0, r[0].state.blobs)
    requires r[0].tree == t && r[1].tree == u && Retouched(t, u)
    ensures NoSplit(BaseAt(r, 1), u) && PlanAt(r, 1) == PlanAt(r, 0)
  {
    RetouchSplitsNothing(EnvAt(env, r, 0), LayersAt(r, 0), t, PlanAt(r, 0), u);
    PlanRepeats(EnvAt(env, r, 0), LayersAt(r, 0), t, PlanAt(r, 0), u);
  }

  lemma EditShown(env: Env, ser: Rootfs -> Bytes, r: Run, t: Tree, u: Tree)
    requires Trusted(env) && IsRun(env, ser, r) && Chain(r, [t, u, t]) && Retouched(t, u) && !Iso(t, u)
    ensures Sane(r, 0) && Unsplit(r, 1) && Shown(r, 1) == 1 && PlanAt(r, 1) == PlanAt(r, 0)
  {
    FirstIsGood(env, ser, r, [t, u, t]);
    BuiltSane(env, ser, r, 1);
    EditIsNew(env, ser, r, t, u);
    EditPlanned(env, r, t, u);
  }

  lemma EditOnTop(env: Env, ser: Rootfs -> Bytes, r: Run)
    requires Trusted(env) && IsRun(env, ser, r) && From(r, 1, 0) && r[0].base == None && r[1].layer !in LayersAt(r, 0)
    ensures LayersAt(r, 1) == [r[1].layer] + [r[0].layer]
  {
    FirstStep(env, ser, r, 0);
    DeltaAt(env, ser, r, 1, 0);
  }

  /** The third build renders the first layer, which is buried by then. */
  lemma RevertIsBuried(env: Env, ser: Rootfs -> Bytes, r: Run)
    requires Trusted(env) && IsRun(env, ser, r) && From(r, 1, 0) && From(r, 2, 1) && r[0].base == None && r[2].tree == r[0].tree
    requires Sane(r, 0) && GoodFor(env, r, 0, 0, r[0].state.blobs) && r[2].zstd == r[0].zstd && r[1].layer !in LayersAt(r, 0)
    requires Retouched(r[1].tree, r[0].tree) && Sane(r, 1) && PlanAt(r, 1) == PlanAt(r, 0)
    requires GoodFor(env, r, 1, 1, r[1].state.blobs)
    ensures r[2].layer == r[0].layer && LayersAt(r, 1) == [r[1].layer] + [r[0].layer]
  {
    var t := r[0].tree;
    DeltaAt(env, ser, r, 2, 1);
    RenderingOfPlan(EnvAt(env, r, 2), EnvAt(env, r, 1), LayersAt(r, 1), r[1].tree, PlanAt(r, 0), t, r[2].layer);
    TopIsOwn(env, ser, r, 0);
    EditOnTop(env, ser, r);
  }

  lemma UndoneEditShown(env: Env, ser: Rootfs -> Bytes, r: Run, t: Tree, u: Tree)
    requires Trusted(env) && IsRun(env, ser, r) && Chain(r, [t, u, t]) && Retouched(t, u) && !Iso(t, u) && r[2].zstd == r[0].zstd
    ensures Unsplit(r, 2) && Shown(r, 2) == 1
  {
    EditShown(env, ser, r, t, u);
    FirstIsGood(env, ser, r, [t, u, t]);
    RunShows(env, ser, r, 1);
    BuiltSane(env, ser, r, 2);
    RevertIsBuried(env, ser, r);
  }

  /** A file is edited and the edit undone: the third build changes nothing and the edit stays visible. */
  lemma UndoneEditStays(env: Env, ser: Rootfs -> Bytes, r: Run)
    requires Trusted(env) && IsRun(env, ser, r) && Chain(r, [Single([1]), Single([2]), Single([1])]) && r[2].zstd == r[0].zstd
    ensures Displays(env, r[2].state.blobs, LayersAt(r, 2), Single([2])) && !DisplaysAt(env, r, 2)
  {
    var t, u := Single([1]), Single([2]);
    assert !SameFace(t[[A]], u[[A]]);
    UndoneEditIsLost(env, ser, r, t, u);
  }

  // These histories exist.

  function Whole(s: Bytes): seq<Bytes> {
    if s == [] then [] else [s]
  }

  /** An environment with all the properties the results ask for. */
  function Simple(): Env {
    Env((x: Bytes) => x, (x: Bytes) => x, (x: Bytes) => x, (x: Bytes) => x, (x: Bytes) => Whole(x), false)
  }

  lemma WholeCuts(s: Bytes)
    ensures Flatten(Whole(s)) == s && forall k | 0 <= k < |Whole(s)| :: Whole(s)[k] != []
  {
    if s != [] {
      assert Init([s]) == [] && Last([s]) == s;
    }
  }

  lemma SimpleIsTrusted()
    ensures Trusted(Simple())
  {
    forall s ensures Flatten(Whole(s)) == s && forall k | 0 <= k < |Whole(s)| :: Whole(s)[k] != [] {
      WholeCuts(s);
    }
  }

  /** A chunk that compression shrinks. */
  const REGULAR: Bytes := [1, 1]

  function Squeeze(x: Bytes): Bytes {
    if x == REGULAR then [7] else [0] + x
  }

  function Expand(y: Bytes): Bytes {
    if y == [7] then REGULAR else if y == [] then [] else y[1..]
  }

  /** A compressing environment with all the properties the results ask for: one chunk shrinks, all others grow. */
  function Squeezing(): Env {
    Env((x: Bytes) => x, (x: Bytes) => x, (x: Bytes) => Squeeze(x), (y: Bytes) => Expand(y), (x: Bytes) => Whole(x), true)
  }

  lemma SqueezingIsTrusted()
    ensures Trusted(Squeezing()) && ExactMeasure(Squeezing())
  {
    forall s ensures Flatten(Whole(s)) == s && forall k | 0 <= k < |Whole(s)| :: Whole(s)[k] != [] {
      WholeCuts(s);
    }
    forall x ensures Expand(Squeeze(x)) == x {
      if x != REGULAR {
        assert Squeeze(x)[0] == 0 && Squeeze(x)[1..] == x;
      }
    }
  }

  // With verity enforced.

  /**
   * Of two chunks written one after the other with compression, the one that shrinks opens under verity
   * and the one that does not shrink does not open.
   */
  lemma RawChunkFailsVerity(blobs: Blobs)
    requires ContentAddressed(Squeezing(), blobs)
    ensures var env := Squeezing();
            var e := StoreAll(env, Effects(blobs, map[], []), [REGULAR, [2]]);
            && Openable(env, e.blobs, RefOf(env, REGULAR).digest, Some(e.verity))
            && !Openable(env, e.blobs, RefOf(env, [2]).digest, Some(e.verity))
            && Openable(env, e.blobs, RefOf(env, [2]).digest, None)
  {
    var env, cs := Squeezing(), [REGULAR, [2]];
    var e := StoreAll(env, Effects(blobs, map[], []), cs);
    var a, b := Write(true, REGULAR), Write(true, [2]);
    SqueezingIsTrusted();
    TwoWrites(REGULAR, [2]);
    assert Squeeze([2]) == [0, 2];
    assert Written(env, a) == [7] && Written(env, b) == [2];
    BuildMeasures(env, env, blobs, [], cs);
    StoreAllRecords(env, Effects(blobs, map[], []), cs);
    PutAllGrows(env, blobs, cs);
    assert cs[0] in cs && cs[1] in cs;
    assert LastWrite(env, [a], [7]) == Some(a);
    OpensUnderVerity(env, e.blobs, e.verity, [a, b], a);
    OpensUnderVerity(env, e.blobs, e.verity, [a, b], b);
  }

  lemma TwoWrites(c: Bytes, d: Bytes)
    ensures WritesOf(true, [c, d]) == [Write(true, c), Write(true, d)]
    ensures Init([Write(true, c), Write(true, d)]) == [Write(true, c)] && Init([Write(true, c)]) == []
  {
    assert Init([c, d]) == [c] && Last([c, d]) == d && Init([c]) == [] && Last([c]) == c;
    assert WritesOf(true, [c]) == [] + [Write(true, c)];
  }

  // Changing the choice of compression and changing it back.

  lemma OtherChoiceIsNew(env: Env, ser: Rootfs -> Bytes, r: Run, t: Tree)
    requires Trusted(env) && IsRun(env, ser, r) && From(r, 1, 0) && r[0].tree == t && r[1].tree == t
    requires GoodFor(env, r, 0, 0, r[0].state.blobs) && |LayersAt(r, 0)| == 1
    requires !StoredAlike(EnvAt(env, r, 0), EnvAt(env, r, 1), env.cut(Stream(t)))
    ensures r[1].layer !in LayersAt(r, 0)
  {
    BaseGood(env, ser, r, 1, 0, 0);
    DeltaAt(env, ser, r, 1, 0);
    RebuildIsTopIff(EnvAt(env, r, 0), EnvAt(env, r, 1), ser, Found(r, 1, 0), t, PlanAt(r, 0), r[1].layer, r[1].state);
    OnlyMember(LayersAt(r, 0), r[1].layer);
  }

  lemma OtherChoiceShown(env: Env, ser: Rootfs -> Bytes, r: Run, t: Tree)
    requires Trusted(env) && IsRun(env, ser, r) && Chain(r, [t, t, t]) && ValidTree(t)
    requires !StoredAlike(EnvAt(env, r, 0), EnvAt(env, r, 1), env.cut(Stream(t)))
    ensures Sane(r, 0) && Unsplit(r, 1) && Shown(r, 1) == 1 && PlanAt(r, 1) == PlanAt(r, 0) && CleanUpTo(r, 1)
  {
    FirstIsGood(env, ser, r, [t, t, t]);
    BuiltSane(env, ser, r, 1);
    OtherChoiceIsNew(env, ser, r, t);
    EditPlanned(env, r, t, t);
    assert CleanAt(r, 1);
  }

  lemma ChoiceAndBackLayers(env: Env, ser: Rootfs -> Bytes, r: Run, t: Tree)
    requires Trusted(env) && IsRun(env, ser, r) && Chain(r, [t, t, t]) && ValidTree(t) && r[2].zstd == r[0].zstd
    requires Sane(r, 0) && Unsplit(r, 1) && Shown(r, 1) == 1 && PlanAt(r, 1) == PlanAt(r, 0)
    ensures r[2].layer == r[0].layer && LayersAt(r, 1) == [r[1].layer] + [r[0].layer]
  {
    FirstIsGood(env, ser, r, [t, t, t]);
    RunShows(env, ser, r, 1);
    RevertIsBuried(env, ser, r);
  }

  /**
   * One tree built three times, with another choice of compression in the middle.  If any chunk is
   * stored in two forms the second build adds a layer.  The third renders the first layer, which is
   * buried, and adds nothing; yet every one of the images displays the tree.
   */
  lemma ChoiceAndBack(env: Env, ser: Rootfs -> Bytes, r: Run, t: Tree)
    requires Trusted(env) && IsRun(env, ser, r) && Chain(r, [t, t, t]) && r[2].zstd == r[0].zstd
    requires ValidTree(t) && !StoredAlike(EnvAt(env, r, 0), EnvAt(env, r, 1), env.cut(Stream(t)))
    ensures LayersAt(r, 2) == LayersAt(r, 1) == [r[1].layer] + [r[0].layer]
    ensures r[2].layer == r[0].layer != r[1].layer
    ensures DisplaysAt(env, r, 0) && DisplaysAt(env, r, 1) && DisplaysAt(env, r, 2)
  {
    OtherChoiceShown(env, ser, r, t);
    ChoiceAndBackLayers(env, ser, r, t);
    StaleLayers(env, ser, r, 2, 1);
    TopIsOwn(env, ser, r, 0);
    IsoSelf(t);
    DisplaysIffCleanUpTo(env, ser, r, 2);
  }

  lemma StaleLayers(env: Env, ser: Rootfs -> Bytes, r: Run, k: nat, j: nat)
    requires Trusted(env) && IsRun(env, ser, r) && From(r, k, j) && r[k].layer in LayersAt(r, j)
    ensures LayersAt(r, k) == LayersAt(r, j)
  {
    DeltaAt(env, ser, r, k, j);
  }

  lemma SingleStream(content: Bytes)
    ensures ValidTree(Single(content)) && Stream(Single(content)) == content
  {
    var t := Single(content);
    SingleIsValid(content);
    var fs := FilePaths(t);
    ListsApart(t);
    FileIsStreamed(t, [A]);
    assert [A] in fs;
    assert forall i | 0 <= i < |fs| :: fs[i] in fs && fs[i] == [A];
    DistinctFit(fs, {[A]});
    assert ContentsAt(t, fs) == [content];
    assert Init([content]) == [] && Last([content]) == content;
    assert Flatten([content]) == [] + content;
  }

  lemma SingleIsValid(content: Bytes)
    ensures ValidTree(Single(content))
  {
    var t := Single(content);
    forall p | p in t && p != [] ensures HasParent(t, p) {
      assert Init(p) == [];
    }
  }

  /** Such a history exists: a file of one chunk that shrinks, built raw, compressed, and raw again. */
  lemma RawCompressedRaw(ser: Rootfs -> Bytes, blobs: Blobs) returns (r: Run)
    requires ContentAddressed(Squeezing(), blobs)
    ensures IsRun(Squeezing(), ser, r) && Chain(r, [Single(REGULAR), Single(REGULAR), Single(REGULAR)])
    ensures !r[0].zstd && r[1].zstd && !r[2].zstd
    ensures LayersAt(r, 2) == [r[1].layer] + [r[0].layer] && r[2].layer == r[0].layer != r[1].layer
    ensures DisplaysAt(Squeezing(), r, 2)
  {
    var env, t := Squeezing(), Single(REGULAR);
    SqueezingIsTrusted();
    SingleStream(REGULAR);
    r := RetouchExists(env, ser, blobs, t, t, t, false, true, false);
    var cs := env.cut(Stream(t));
    assert cs == [REGULAR] && cs[0] == REGULAR;
    assert StoredCompressed(EnvAt(env, r, 0), false, cs[0]) != StoredCompressed(EnvAt(env, r, 1), true, cs[0]);
    ChoiceAndBack(env, ser, r, t);
  }

  // Deleting a name.

  lemma DeletingKeepsLinks()
    ensures ValidTree(Single([1])) && LinksKept(Apart(), Single([1])) && !Iso(Apart(), Single([1]))
  {
    var t, u := Apart(), Single([1]);
    SingleIsValid([1]);
    VisitsComplete(u);
    assert [B] in t && [B] !in u;
    forall p | p in Firsts(u, Visits(u)) ensures p == [A] {
      assert p in Visits(u);
    }
    assert !SameInode(t, [A], [B]);
  }

  lemma DeletionShown(env: Env, ser: Rootfs -> Bytes, r: Run)
    requires Trusted(env) && IsRun(env, ser, r) && Chain(r, [Apart(), Single([1])])
    ensures Shown(r, 1) == 1 && CleanUpTo(r, 1) && Unsplit(r, 1)
  {
    DeletingKeepsLinks();
    assert forall i: nat | Ancestor(r, i, 0) :: i == 0;
    assert FreshAt(r, 1, 0);
    FreshIsClean(env, ser, r, 1);
    CleanIsUnsplit(env, ser, r, 1);
  }

  lemma DeletionLeaves(env: Env, ser: Rootfs -> Bytes, r: Run, p: Path)
    requires Trusted(env) && IsRun(env, ser, r) && From(r, 1, 0) && r[0].base == None && Sane(r, 1)
    requires p in r[0].tree && p !in r[1].tree && p != [] && Init(p) in DirSet(r[1].tree)
    ensures GoneAt(r, 1, p)
  {
    FirstShows(env, ser, r, 0);
    DeletedIsGone(EnvAt(env, r, 0), LayersAt(r, 0), r[0].tree, PlanAt(r, 0), r[1].tree, p);
  }

  /** After a deletion the image cannot be walked, and no tree that has the path can be built on it. */
  lemma DeletionBars(env: Env, ser: Rootfs -> Bytes, r: Run, p: Path, v: Tree)
    requires Trusted(env) && IsRun(env, ser, r) && 1 < |r| && Unsplit(r, 1) && Shown(r, 1) == 1 && GoneAt(r, 1, p) && p in v
    ensures NonEmpty(LayersAt(r, 1)) && !Buildable(Some(LayersAt(r, 1)), v)
    ensures Finite(LayersAt(r, 1), r[1].tree.Keys) && !WhiteoutFree(LayersAt(r, 1), r[1].tree.Keys)
  {
    RunShows(env, ser, r, 1);
    GoneCannotReturn(EnvAt(env, r, 1), LayersAt(r, 1), r[1].tree, PlanAt(r, 1), v, p);
    ShownIsFinite(EnvAt(env, r, 1), LayersAt(r, 1), r[1].tree, PlanAt(r, 1));
    assert PlanAt(r, 1).whites[Init(p)] != [];
  }

  /** A file is deleted: the image displays that, but cannot be walked, and the file cannot come back. */
  lemma DeletedNameIsBarred(env: Env, ser: Rootfs -> Bytes, r: Run)
    requires Trusted(env) && IsRun(env, ser, r) && Chain(r, [Apart(), Single([1])])
    ensures DisplaysAt(env, r, 1) && NonEmpty(LayersAt(r, 1)) && !Buildable(Some(LayersAt(r, 1)), Apart())
    ensures Finite(LayersAt(r, 1), Single([1]).Keys) && !WhiteoutFree(LayersAt(r, 1), Single([1]).Keys)
  {
    DeletionShown(env, ser, r);
    assert Init([B]) == [] && [B] in Apart() && [B] !in Single([1]);
    DeletionLeaves(env, ser, r, [B]);
    DeletionBars(env, ser, r, [B], Apart());
    DisplaysIffCleanUpTo(env, ser, r, 1);
  }
}
