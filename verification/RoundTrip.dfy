/** Building an image and extracting it again: when that works, what comes back, and what it does outside. */
module RoundTrip {
  import opened Types
  import opened Seqs
  import opened HostTree
  import opened Store
  import opened Plans
  import opened View
  import opened Reproducible
  import opened Display
  import opened Walk
  import opened ShownWalk
  import opened Links
  import opened Target
  import opened Extraction
  import opened Extractor
  import opened Confinement
  import opened TreeExtraction
  import opened Outcomes
  import opened Images
  import opened Steps
  import opened Runs
  import opened Drops

  // What comes back as it was.

  /** The metadata of the node survives extraction. */
  ghost predicate KeptAt(me: User, before: Disk, dir: Path, t: Tree, log: seq<Hit>, q: Path)
    requires q in t && before.Has(dir)
  {
    var n, m := t[q], t[q].meta;
    var tagged := Tagged(Started(me, before, dir, t, q), Xattrs(m)).meta;
    if IsLinkNode(n) then
      m.uid == me.uid && m.gid == me.group(dir + q) && m.permissions == LINK_PERMISSIONS && m.additional == tagged.additional
    else if me.privileged then
      && LastHit(log, dir, t, q) in {None, Some(NodeOwner(n))}
      && if n.HDir? then m.additional == tagged.additional
         else m.permissions == Cleared(m.permissions) && m.additional == Extras(Stripped(Xattrs(tagged)), None)
    else
      && m.uid == tagged.uid && m.gid == tagged.gid && m.additional == tagged.additional
      && (HasBit(m.permissions, SGID) ==> m.gid in me.groups)
  }

  lemma WithoutIff(permissions: Permissions, bit: Permissions)
    requires bit == SGID
    ensures Without(permissions, bit) == permissions <==> !HasBit(permissions, bit)
  {
  }

  /** A change of owner that comes back to the owner already set does nothing more. */
  lemma OutcomeIs(me: User, before: Disk, dir: Path, t: Tree, log: seq<Hit>, q: Path)
    requires q in t && before.IsDir(dir) && (q == [] ==> t[q].HDir?)
    requires IsLinkNode(t[q]) || !me.privileged ==> LastHit(log, dir, t, q) == None
    ensures var n := t[q];
            var tagged := Tagged(Started(me, before, dir, t, q), Xattrs(n.meta));
            Outcome(me, before, dir, t, log, q) ==
              if IsLinkNode(n) then tagged
              else if me.privileged then
                var o := if LastHit(log, dir, t, q).Some? then LastHit(log, dir, t, q).value else NodeOwner(n);
                Chowned(tagged.(meta := tagged.meta.(permissions := n.meta.permissions)), o)
              else Chmodded(me, tagged, n.meta.permissions)
  {
    var n := t[q];
    var tagged := Tagged(Started(me, before, dir, t, q), Xattrs(n.meta));
    match LastHit(log, dir, t, q)
    case Some(o) => ChownedTwice(Chmodded(me, tagged, n.meta.permissions), NodeOwner(n), o);
    case None =>
  }

  lemma StartedFace(me: User, before: Disk, dir: Path, t: Tree, q: Path)
    requires q in t && before.IsDir(dir) && (q == [] ==> t[q].HDir?)
    ensures var s := Started(me, before, dir, t, q);
            s.(hino := t[q].hino, meta := t[q].meta) == t[q]
    ensures q != [] && !IsLinkNode(t[q]) ==> LinkTarget(Started(me, before, dir, t, q).meta) == None
  {
  }

  lemma SameFaceIff(n: HNode, s: HNode, r: HNode)
    requires s.(hino := n.hino, meta := n.meta) == n && r == s.(meta := r.meta)
    ensures SameFace(n, r) <==> n.meta == r.meta
  {
  }

  lemma SettledKept(me: User, s: HNode, m: Meta)
    requires !me.privileged
    ensures m == Chmodded(me, s, m.permissions).meta <==>
            && m.uid == s.meta.uid && m.gid == s.meta.gid && m.additional == s.meta.additional
            && (HasBit(m.permissions, SGID) ==> m.gid in me.groups)
  {
    WithoutIff(m.permissions, SGID);
  }

  lemma ChownedKept(s: HNode, m: Meta, o: Owner)
    requires s.meta.permissions == m.permissions && (!s.HDir? ==> LinkTarget(s.meta) == None)
    ensures m == Chowned(s, o).meta <==>
            && m.uid == o.uid && m.gid == o.gid
            && if s.HDir? then m.additional == s.meta.additional
               else m.permissions == Cleared(m.permissions) && m.additional == Extras(Stripped(Xattrs(s.meta)), None)
  {
  }

  lemma TaggedKeeps(s: HNode, xs: seq<Xattr>)
    ensures Tagged(s, xs) == s.(meta := s.meta.(additional := Tagged(s, xs).meta.additional))
    ensures LinkTarget(Tagged(s, xs).meta) == LinkTarget(s.meta)
  {
  }

  lemma KeptIff(me: User, before: Disk, dir: Path, t: Tree, log: seq<Hit>, q: Path)
    requires q in t && before.IsDir(dir) && (q == [] ==> t[q].HDir?)
    requires IsLinkNode(t[q]) || !me.privileged ==> LastHit(log, dir, t, q) == None
    ensures SameFace(t[q], Outcome(me, before, dir, t, log, q)) <==> KeptAt(me, before, dir, t, log, q)
  {
    var n, m, s, r := t[q], t[q].meta, Started(me, before, dir, t, q), Outcome(me, before, dir, t, log, q);
    var tagged := Tagged(s, Xattrs(m));
    OutcomeIs(me, before, dir, t, log, q);
    StartedFace(me, before, dir, t, q);
    TaggedKeeps(s, Xattrs(m));
    SameFaceIff(n, s, r);
    if IsLinkNode(n) {
    } else if me.privileged {
      var o := if LastHit(log, dir, t, q).Some? then LastHit(log, dir, t, q).value else NodeOwner(n);
      ChownedKept(tagged.(meta := tagged.meta.(permissions := m.permissions)), m, o);
    } else {
      SettledKept(me, tagged, m);
    }
  }

  /** A link is never what another link leads to. */
  lemma {:induction false} LinksNotHit(me: User, before: Disk, dir: Path, t: Tree, ps: seq<Path>, q: Path)
    requires ValidTree(t) && Holds(dir, before, []) && q in t && (me.privileged ==> IsLinkNode(t[q]))
    ensures LastHit(TreeLog(me, before, dir, t, ps), dir, t, q) == None
  {
    if ps != [] {
      LinksNotHit(me, before, dir, t, Init(ps), q);
      var log, p := TreeLog(me, before, dir, t, Init(ps)), Last(ps);
      if me.privileged && FirstOf(t, p) && IsLinkNode(t[p]) && LeadsTo(before, dir, t, p).Some? {
        var r := LeadsTo(before, dir, t, p).value;
        if dir <= r && SameInode(t, r[|dir|..], q) {
          LandingIsNoLink(before, dir, t, p, r);
        }
        InitAppend(log, [Hit(r, NodeOwner(t[p]))]);
        assert log + [] == log;
      }
    }
  }

  lemma LandingIsNoLink(before: Disk, dir: Path, t: Tree, p: Path, r: Path)
    requires ValidTree(t) && Holds(dir, before, []) && LeadsTo(before, dir, t, p) == Some(r) && dir <= r && r[|dir|..] in t
    ensures !IsLinkNode(t[r[|dir|..]])
  {
    var a := r[|dir|..];
    assert dir + a == r;
    if !InPlace(dir, t, p, r) {
      assert Placed(dir, before, a);
    }
  }

  lemma RemadeKeeps(me: User, before: Disk, dir: Path, t: Tree, log: seq<Hit>, u: Tree, q: Path)
    requires ValidTree(t) && before.IsDir(dir) && Holds(dir, before, []) && Followed(me, before, dir, t, log)
    requires Remade(me, before, dir, t, log, u) && q in t && FirstOf(t, q)
    ensures SameFace(t[q], u[q]) <==> KeptAt(me, before, dir, t, log, q)
  {
    if IsLinkNode(t[q]) || !me.privileged {
      var ps :| BreadthOf(t, ps) && log == TreeLog(me, before, dir, t, ps);
      LinksNotHit(me, before, dir, t, ps, q);
    }
    KeptIff(me, before, dir, t, log, q);
    assert SameFace(Outcome(me, before, dir, t, log, q), u[q]);
  }

  ghost predicate KeptAll(me: User, before: Disk, dir: Path, t: Tree, log: seq<Hit>)
    requires before.Has(dir)
  {
    forall q | q in t && FirstOf(t, q) :: KeptAt(me, before, dir, t, log, q)
  }

  /** Extraction gives the tree back if and only if the metadata of every node survives it. */
  lemma RestoresAllIff(me: User, before: Disk, dir: Path, t: Tree, log: seq<Hit>, u: Tree)
    requires ValidTree(t) && before.IsDir(dir) && Holds(dir, before, []) && Followed(me, before, dir, t, log)
    requires Remade(me, before, dir, t, log, u)
    ensures Iso(t, u) <==> KeptAll(me, before, dir, t, log)
  {
    forall q | q in t && FirstOf(t, q) ensures SameFace(t[q], u[q]) <==> KeptAt(me, before, dir, t, log, q) {
      RemadeKeeps(me, before, dir, t, log, u, q);
    }
    if KeptAll(me, before, dir, t, log) {
      forall p | p in t ensures SameFace(t[p], u[p]) {
        var q := FirstExists(t, p);
        assert SameInode(u, q, p);
      }
    }
  }

  // Metadata as a Linux host reports it.

  ghost predicate DistinctKeys(xs: seq<Xattr>) {
    forall i, j | 0 <= i < j < |xs| :: xs[i].key != xs[j].key
  }

  /** Links have a target and all permissions, nothing else has a target, and no attribute is listed twice. */
  ghost predicate Natural(n: HNode) {
    && (IsLinkNode(n) ==> n.meta.permissions == 0x1ff)
    && (LinkTarget(n.meta).Some? <==> IsLinkNode(n))
    && n.meta.additional == Extras(Xattrs(n.meta), LinkTarget(n.meta))
    && DistinctKeys(Xattrs(n.meta))
  }

  lemma {:induction false} SetXattrNew(xs: seq<Xattr>, x: Xattr)
    requires forall y | y in xs :: y.key != x.key
    ensures SetXattr(xs, x) == xs + [x]
  {
    if xs != [] {
      assert xs[0] in xs && forall y | y in xs[1..] :: y in xs;
      SetXattrNew(xs[1..], x);
      assert [xs[0]] + (xs[1..] + [x]) == xs + [x];
    }
  }

  lemma {:induction false} SetXattrsFresh(ys: seq<Xattr>)
    requires DistinctKeys(ys)
    ensures SetXattrs([], ys) == ys
  {
    if ys != [] {
      SetXattrsFresh(Init(ys));
      SetXattrNew(Init(ys), Last(ys));
      Rejoin(ys);
    }
  }

  /** For such metadata, extracted into a directory without attributes, what survives is plain to see. */
  ghost predicate SurvivesAt(me: User, before: Disk, dir: Path, t: Tree, log: seq<Hit>, q: Path)
    requires q in t && before.Has(dir)
  {
    var n, m := t[q], t[q].meta;
    if IsLinkNode(n) then m.uid == me.uid && m.gid == me.group(dir + q)
    else if me.privileged then
      && LastHit(log, dir, t, q) in {None, Some(NodeOwner(n))}
      && !Marked(n)
    else
      && (if q == [] then m.uid == before.At(dir).meta.uid && m.gid == before.At(dir).meta.gid
          else m.uid == me.uid && m.gid == me.group(dir + q))
      && (HasBit(m.permissions, SGID) ==> m.gid in me.groups)
  }

  lemma TaggedFresh(me: User, before: Disk, dir: Path, t: Tree, q: Path)
    requires q in t && Natural(t[q]) && before.IsDir(dir) && (q == [] ==> t[q].HDir? && before.At(dir).meta.additional == None)
    ensures var tagged := Tagged(Started(me, before, dir, t, q), Xattrs(t[q].meta)).meta;
            tagged.additional == t[q].meta.additional && Xattrs(tagged) == Xattrs(t[q].meta)
  {
    SetXattrsFresh(Xattrs(t[q].meta));
    assert Xattrs(Started(me, before, dir, t, q).meta) == [];
  }

  lemma NaturalKept(me: User, before: Disk, dir: Path, t: Tree, log: seq<Hit>, q: Path)
    requires q in t && Natural(t[q]) && before.IsDir(dir) && (q == [] ==> t[q].HDir? && before.At(dir).meta.additional == None)
    ensures KeptAt(me, before, dir, t, log, q) <==> SurvivesAt(me, before, dir, t, log, q)
  {
    TaggedFresh(me, before, dir, t, q);
    MarkedIff(t[q]);
  }

  // What changes outside.

  /** Every link that is extracted leads to somewhere under the directory. */
  ghost predicate LinksStayInside(before: Disk, dir: Path, t: Tree) {
    forall p | p in t && FirstOf(t, p) && IsLinkNode(t[p]) && LeadsTo(before, dir, t, p).Some? :: dir <= LeadsTo(before, dir, t, p).value
  }

  lemma {:induction false} TreeLogHits(me: User, before: Disk, dir: Path, t: Tree, ps: seq<Path>, p: Path)
    requires me.privileged && p in ps && FirstOf(t, p) && IsLinkNode(t[p]) && LeadsTo(before, dir, t, p).Some?
    ensures Hit(LeadsTo(before, dir, t, p).value, NodeOwner(t[p])) in TreeLog(me, before, dir, t, ps)
  {
    Rejoin(ps);
    if p != Last(ps) {
      assert p in Init(ps) + [Last(ps)];
      TreeLogHits(me, before, dir, t, Init(ps), p);
    }
  }

  lemma {:induction false} TreeLogFrom(me: User, before: Disk, dir: Path, t: Tree, ps: seq<Path>, hit: Hit)
    requires hit in TreeLog(me, before, dir, t, ps)
    ensures me.privileged
    ensures exists p :: p in ps && FirstOf(t, p) && IsLinkNode(t[p]) && LeadsTo(before, dir, t, p) == Some(hit.path)
  {
    if hit in TreeLog(me, before, dir, t, Init(ps)) {
      TreeLogFrom(me, before, dir, t, Init(ps), hit);
    }
  }

  /** Owners are changed only under the directory if and only if the user is not privileged or every link leads there. */
  lemma HitsInsideIff(me: User, before: Disk, dir: Path, t: Tree, log: seq<Hit>)
    requires Followed(me, before, dir, t, log)
    ensures (forall k | 0 <= k < |log| :: dir <= log[k].path) <==> !me.privileged || LinksStayInside(before, dir, t)
  {
    var ps :| BreadthOf(t, ps) && log == TreeLog(me, before, dir, t, ps);
    if !me.privileged || LinksStayInside(before, dir, t) {
      forall k | 0 <= k < |log| ensures dir <= log[k].path {
        TreeLogFrom(me, before, dir, t, ps, log[k]);
      }
    } else {
      var p :| p in t && FirstOf(t, p) && IsLinkNode(t[p]) && LeadsTo(before, dir, t, p).Some? && !(dir <= LeadsTo(before, dir, t, p).value);
      TreeLogHits(me, before, dir, t, ps, p);
      var k :| 0 <= k < |log| && log[k] == Hit(LeadsTo(before, dir, t, p).value, NodeOwner(t[p]));
    }
  }

  /** What a finished extraction of a tree has done. */
  ghost predicate Finished(me: User, before: Disk, dir: Path, t: Tree, disk: Disk, log: seq<Hit>) {
    && disk.Sound() && before.Has(dir) && Followed(me, before, dir, t, log)
    && Remade(me, before, dir, t, log, TreeUnder(dir, disk))
    && (Confined(before, dir, disk) <==> Spares(before, dir, log))
  }

  lemma Finishes(env: Env, blobs: Blobs, me: User, before: Disk, dir: Path, t: Tree, all: seq<Entry>, disk: Disk, log: seq<Hit>)
    requires ValidTree(t) && WalksTree(env, blobs, t, all) && Extracted(env, blobs, me, before, dir, all, disk, log)
    requires before.Sound() && disk.Sound() && OneName(before, dir) && ConfinedBut(before, dir, disk, log) &&
             Holds(dir, before, [])
    ensures Finished(me, before, dir, t, disk, log)
  {
    ExtractedNames(env, blobs, me, before, dir, t, all, disk, log);
    ExtractedRemakes(env, blobs, me, before, dir, t, all, disk, log);
    ExtractedFollows(env, blobs, me, before, dir, t, all, disk, log);
    ConfinedIff(before, dir, disk, log);
  }

  /** Extracts an image whose walk is that of a tree. */
  method ExtractWalked(env: Env, oci: Image, layers: seq<Layer>, host: Host, size: nat, ghost t: Tree, ghost able: bool)
    returns (r: Result<()>)
    requires ValidTree(t) && PlainNames(t.Keys) && Finite(layers, t.Keys) && NoShortFiles(env, oci.blobs, layers, t.Keys)
    requires host.Valid() && host.disk == host.before && host.log == [] && Holds(host.dir, host.disk, [])
    requires able <==> CanExtract(env, oci.blobs, host.me, host.before, host.dir, layers, t.Keys)
    requires able ==> WalksTree(env, oci.blobs, t, WalkOf(layers, t.Keys))
    requires size > 0
    modifies host
    ensures host.Valid() && (r.Ok? <==> able)
    ensures r.Ok? ==> Finished(host.me, host.before, host.dir, t, host.disk, host.log)
    ensures !host.me.privileged ==> Confined(host.before, host.dir, host.disk)
  {
    r := ExtractRootfs(env, oci, layers, host, size, t.Keys);
    if r.Ok? {
      Finishes(env, oci.blobs, host.me, host.before, host.dir, t, WalkOf(layers, t.Keys), host.disk, host.log);
    }
  }

  /**
   * Extracts an image that shows a tree.  It succeeds exactly when the newest build dropped nothing and
   * every path can be restored.  Then every node has become its outcome, and everything outside is as
   * before exactly when the links that were followed spare it.
   */
  method ExtractShown(env: Env, oci: Image, layers: seq<Layer>, host: Host, size: nat, ghost other: Env,
                      ghost t: Tree, ghost plan: Plan)
    returns (r: Result<()>)
    requires Shows(other, layers, t, plan) && Displays(env, oci.blobs, layers, t) && PlainNames(t.Keys)
    requires host.Valid() && host.disk == host.before && host.log == [] && Holds(host.dir, host.disk, [])
    requires size > 0
    modifies host
    ensures host.Valid() && (r.Ok? <==> DropsNothing(plan) && CanRestore(host.me, host.before, host.dir, t))
    ensures r.Ok? ==> Finished(host.me, host.before, host.dir, t, host.disk, host.log)
    ensures !host.me.privileged ==> Confined(host.before, host.dir, host.disk)
  {
    ShownReady(env, other, oci.blobs, layers, t, plan);
    ShownCanExtract(env, other, oci.blobs, host.me, host.before, host.dir, layers, t, plan);
    ghost var able := DropsNothing(plan) && CanRestore(host.me, host.before, host.dir, t);
    if able {
      ShownWalks(env, other, oci.blobs, layers, t, plan);
    }
    r := ExtractWalked(env, oci, layers, host, size, t, able);
  }

  /** Building a tree and extracting the image at once: it works exactly when every path can be restored. */
  method BuildThenExtract(env: Env, ser: Rootfs -> Bytes, t: Tree, oci: Image, host: Host, size: nat) returns (r: Result<()>)
    requires Trusted(env) && ValidTree(t) && PlainNames(t.Keys) && ContentAddressed(env, oci.blobs)
    requires host.Valid() && host.disk == host.before && host.log == [] && Holds(host.dir, host.disk, [])
    requires size > 0
    modifies oci, host
    ensures host.Valid() && (r.Ok? <==> CanRestore(host.me, host.before, host.dir, t))
    ensures r.Ok? ==> Finished(host.me, host.before, host.dir, t, host.disk, host.log)
    ensures !host.me.privileged ==> Confined(host.before, host.dir, host.disk)
  {
    ghost var blobs := oci.blobs;
    var built, layers := BuildInitialRootfs(env, ser, t, oci);
    InitialGood(env, ser, blobs, t, ImageState(built.value, oci.blobs));
    GoodDisplays(env, env, ImageState(built.value, oci.blobs), t, PlanOf(None, t));
    InitialDropsNothing(t);
    r := ExtractShown(env, oci, built.value.metadatas, host, size, env, t, PlanOf(None, t));
  }

  /**
   * Extracts any image of any history whose new layers split nothing, from any blob directory that
   * still has its blobs.  It succeeds exactly when the build it shows dropped nothing and every path of
   * that build's tree can be restored.
   */
  method ExtractBuilt(env: Env, oci: Image, layers: seq<Layer>, host: Host, size: nat, ghost ser: Rootfs -> Bytes,
                      ghost r: Run, ghost k: nat)
    returns (ok: Result<()>)
    requires Trusted(env) && IsRun(env, ser, r) && k < |r| && Unsplit(r, k) && layers == LayersAt(r, k)
    requires AppendOnly(r[k].state.blobs, oci.blobs) && ContentAddressed(env, oci.blobs) && PlainNames(r[Shown(r, k)].tree.Keys)
    requires host.Valid() && host.disk == host.before && host.log == [] && Holds(host.dir, host.disk, [])
    requires size > 0
    modifies host
    ensures host.Valid() && Sane(r, Shown(r, k))
    ensures ok.Ok? <==> DropsNothing(PlanAt(r, Shown(r, k))) && CanRestore(host.me, host.before, host.dir, r[Shown(r, k)].tree)
    ensures ok.Ok? ==> Finished(host.me, host.before, host.dir, r[Shown(r, k)].tree, host.disk, host.log)
    ensures !host.me.privileged ==> Confined(host.before, host.dir, host.disk)
  {
    ghost var m := Shown(r, k);
    RunShows(env, ser, r, k);
    IsoSelf(r[m].tree);
    RunDisplays(env, ser, r, k, oci.blobs, r[m].tree);
    ok := ExtractShown(env, oci, layers, host, size, EnvAt(env, r, m), r[m].tree, PlanAt(r, m));
  }
}
