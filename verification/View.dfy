/** What a rendered layer shows when it is on top: exactly the tree it was rendered from. */
module View {
  import opened Types
  import opened Seqs
  import opened Paths
  import opened HostTree
  import opened Layers
  import opened Resolution
  import opened Sorting
  import opened Store
  import opened Plans

  // The members of a layer.

  lemma RenderShared(env: Env, t: Tree, plan: Plan, p: Path, q: Path)
    requires Covers(t, plan) && SameInode(t, p, q)
    ensures Render(env, t, plan, p) == Render(env, t, plan, q)
  {
  }

  lemma {:induction false} WhiteoutsMembers(plan: Plan, ds: seq<Path>, x: Inode)
    requires forall d | d in ds :: d in plan.whites
    ensures x in Whiteouts(plan, ds) <==> exists d, e :: d in ds && e in plan.whites[d] && x == NewWhiteout(e.ino)
  {
    if ds != [] {
      WhiteoutsMembers(plan, Init(ds), x);
      assert forall d :: d in ds <==> d in Init(ds) || d == Last(ds);
    }
  }

  lemma RenderedIn(env: Env, t: Tree, plan: Plan, p: Path)
    requires Covers(t, plan) && p in t
    ensures Render(env, t, plan, p) in Unsorted(env, t, plan)
  {
    var q := p;
    if !t[p].HDir? {
      VisitsComplete(t);
      FirstsCover(t, Visits(t), p);
      q :| q in Firsts(t, Visits(t)) && SameInode(t, p, q);
      RenderShared(env, t, plan, p, q);
    }
    RenderAllHas(env, t, plan, if t[p].HDir? then DirOrder(t) else if t[p].HFile? then FilePaths(t) else OtherPaths(t), q);
  }

  lemma WhitesIn(env: Env, t: Tree, plan: Plan, ino: Ino)
    requires Covers(t, plan)
    ensures NewWhiteout(ino) in Whiteouts(plan, DirOrder(t)) <==> ino in WhiteInos(plan)
  {
    WhiteoutsMembers(plan, DirOrder(t), NewWhiteout(ino));
  }

  /** Every member of a layer is a whiteout of a dropped entry or the rendering of a path. */
  lemma UnsortedOrigin(env: Env, t: Tree, plan: Plan, x: Inode)
    requires Covers(t, plan) && x in Unsorted(env, t, plan)
    ensures (x == NewWhiteout(x.ino) && x.ino in WhiteInos(plan)) || exists q :: q in t && x == Render(env, t, plan, q)
  {
    if x in Whiteouts(plan, DirOrder(t)) {
      WhiteoutsMembers(plan, DirOrder(t), x);
    } else if x in RenderAll(env, t, plan, DirOrder(t)) {
      var q := RenderAllOrigin(env, t, plan, DirOrder(t), x);
    } else if x in RenderAll(env, t, plan, FilePaths(t)) {
      var q := RenderAllOrigin(env, t, plan, FilePaths(t), x);
    } else {
      var q := RenderAllOrigin(env, t, plan, OtherPaths(t), x);
    }
  }

  /** A distinct plan gives every number one inode: no live number is repeated or also whited out. */
  lemma AssembleFunctional(env: Env, t: Tree, plan: Plan)
    requires Covers(t, plan) && Distinct(plan)
    ensures Functional(Unsorted(env, t, plan)) && Functional(Assemble(env, t, plan))
  {
    var u := Unsorted(env, t, plan);
    forall x, y | x in u && y in u && x.ino == y.ino ensures x == y {
      UnsortedOrigin(env, t, plan, x);
      UnsortedOrigin(env, t, plan, y);
      if p, q :| p in t && q in t && x == Render(env, t, plan, p) && y == Render(env, t, plan, q) {
        ShapeHas(t, plan, p);
        ShapeHas(t, plan, q);
        assert SameInode(t, p, q);
        RenderShared(env, t, plan, p, q);
      } else {
        forall p | p in t ensures Render(env, t, plan, p).ino !in WhiteInos(plan) {
          ShapeHas(t, plan, p);
        }
      }
    }
    SameMembers(u, Assemble(env, t, plan));
  }

  /** The newest layer is the rendering of the tree. */
  ghost predicate Shows(env: Env, layers: seq<Layer>, t: Tree, plan: Plan) {
    && Covers(t, plan) && Distinct(plan)
    && NonEmpty(layers) && layers != []
    && layers[0] == Assemble(env, t, plan)
  }

  lemma TopIsRendering(env: Env, layers: seq<Layer>, t: Tree, plan: Plan)
    requires Shows(env, layers, t, plan)
    ensures Sorted(layers[0]) && Functional(layers[0])
    ensures forall x :: x in layers[0] <==> x in Unsorted(env, t, plan)
  {
    SameMembers(layers[0], Unsorted(env, t, plan));
    AssembleFunctional(env, t, plan);
  }

  /** The search finds, under the number of a path, the rendering of that path. */
  lemma FindRendered(env: Env, layers: seq<Layer>, t: Tree, plan: Plan, p: Path)
    requires Shows(env, layers, t, plan) && p in t
    ensures FindInode(layers, Render(env, t, plan, p).ino) == Ok(Render(env, t, plan, p))
  {
    var x := Render(env, t, plan, p);
    assert x in layers[0] by {
      RenderedIn(env, t, plan, p);
      SameMembers(layers[0], Unsorted(env, t, plan));
    }
    AssembleFunctional(env, t, plan);
    FindInTop(layers, x);
    RenderLive(env, t, plan, p);
  }

  lemma RenderLive(env: Env, t: Tree, plan: Plan, p: Path)
    requires Covers(t, plan) && p in t
    ensures !Render(env, t, plan, p).mode.Wht?
    ensures Render(env, t, plan, p).mode.Dir? <==> t[p].HDir?
  {
  }

  lemma FindWhite(env: Env, layers: seq<Layer>, t: Tree, plan: Plan, ino: Ino)
    requires Shows(env, layers, t, plan) && ino in WhiteInos(plan)
    ensures FindInode(layers, ino) == Err(ENOENT)
  {
    TopIsRendering(env, layers, t, plan);
    WhitesIn(env, t, plan, ino);
    FindInTop(layers, NewWhiteout(ino));
  }

  // Directory entries.

  lemma {:induction false} LiveEntriesAt(t: Tree, alloc: map<HostIno, Ino>, ps: seq<Path>)
    requires Listed(t, alloc, ps)
    ensures |LiveEntries(t, alloc, ps)| == |ps|
    ensures forall i | 0 <= i < |ps| :: LiveEntries(t, alloc, ps)[i] == DirEnt(alloc[t[ps[i]].hino], Last(ps[i]))
  {
    if ps != [] {
      LiveEntriesAt(t, alloc, Init(ps));
    }
  }

  lemma SameParentSameName(p: Path, q: Path)
    requires p != [] && q != [] && Init(p) == Init(q) && Last(p) == Last(q)
    ensures p == q
  {
    Rejoin(p);
    Rejoin(q);
  }

  /** The listing has the name exactly at the path's position. */
  lemma ListingNames(t: Tree, d: Path, p: Path) returns (k: nat)
    requires p in t && p != [] && Init(p) == d
    ensures k < |Listing(t, d)| && Listing(t, d)[k] == p
    ensures forall i | 0 <= i < k :: Listing(t, d)[i] != [] && Last(Listing(t, d)[i]) != Last(p)
  {
    var ls := Listing(t, d);
    assert p in ls;
    k :| 0 <= k < |ls| && ls[k] == p;
    SortIsSorted(Children(t, d));
    forall i | 0 <= i < k ensures ls[i] != [] && Last(ls[i]) != Last(p) {
      assert ls[i] in ls;
      if Last(ls[i]) == Last(p) {
        SameParentSameName(ls[i], p);
      }
    }
  }

  lemma ListingLacks(t: Tree, d: Path, name: Name)
    requires d + [name] !in t
    ensures forall i | 0 <= i < |Listing(t, d)| :: Listing(t, d)[i] != [] && Last(Listing(t, d)[i]) != name
  {
    var ls := Listing(t, d);
    forall i | 0 <= i < |ls| ensures ls[i] != [] && Last(ls[i]) != name {
      assert ls[i] in ls;
      Rejoin(ls[i]);
    }
  }

  /** A name of the tree leads to the number of its path. */
  lemma EntryFound(t: Tree, plan: Plan, p: Path)
    requires Covers(t, plan) && p in t && p != []
    ensures t[p].hino in plan.alloc && Init(p) in t && t[Init(p)].HDir?
    ensures FindEntry(DirEntries(t, plan, Init(p)), Last(p)) == Some(plan.alloc[t[p].hino])
  {
    Parent(t, p);
    var d, name := Init(p), Last(p);
    ShapeHas(t, plan, p);
    ListingListed(t, plan, d);
    var white, live := plan.whites[d], LiveEntries(t, plan.alloc, Listing(t, d));
    LiveEntriesAt(t, plan.alloc, Listing(t, d));
    var k := ListingNames(t, d, p);
    assert forall i | 0 <= i < |white| :: white[i].name != name by {
      Rejoin(p);
      assert forall i | 0 <= i < |white| :: white[i] in white;
    }
    FindEntryAfter(white, live, name, k);
  }

  /** A name outside the tree leads nowhere or to a whited-out number. */
  lemma EntryGone(t: Tree, plan: Plan, d: Path, name: Name)
    requires Covers(t, plan) && d in t && t[d].HDir? && d + [name] !in t
    ensures var r := FindEntry(DirEntries(t, plan, d), name);
            && (r.Some? ==> r.value in WhiteInos(plan))
            && (r.Some? <==> HasName(plan.whites[d], name))
  {
    ListingListed(t, plan, d);
    LiveEntriesAt(t, plan.alloc, Listing(t, d));
    ListingLacks(t, d, name);
    FindEntryOnlyIn(plan.whites[d], LiveEntries(t, plan.alloc, Listing(t, d)), name);
  }

  // Paths.

  /** Every path of the tree resolves to its rendering. */
  lemma {:induction false} LookupLive(env: Env, layers: seq<Layer>, t: Tree, plan: Plan, p: Path)
    requires Shows(env, layers, t, plan) && p in t
    ensures Lookup(layers, p) == Ok(Some(Render(env, t, plan, p)))
    decreases |p|
  {
    FindRendered(env, layers, t, plan, p);
    if p != [] {
      Parent(t, p);
      LookupLive(env, layers, t, plan, Init(p));
      EntryFound(t, plan, p);
      LookupStep(layers, p, Render(env, t, plan, Init(p)));
    }
  }

  /** Some component of the path is an entry that the layer whites out. */
  ghost predicate Whited(t: Tree, plan: Plan, p: Path) {
    exists k :: 0 <= k < |p| && WhitedAt(t, plan, p, k)
  }

  ghost predicate WhitedAt(t: Tree, plan: Plan, p: Path, k: nat) {
    k < |p| && p[..k] in plan.whites && HasName(plan.whites[p[..k]], p[k])
  }

  lemma WhitedParent(t: Tree, plan: Plan, p: Path)
    requires p != []
    ensures Whited(t, plan, p) <==> Whited(t, plan, Init(p)) || WhitedAt(t, plan, p, |p| - 1)
  {
    var d := Init(p);
    forall k | 0 <= k < |d| ensures WhitedAt(t, plan, d, k) <==> WhitedAt(t, plan, p, k) {
      assert d[..k] == p[..k] && d[k] == p[k];
    }
  }

  /** No other path resolves: it is absent, or an error when it runs through a whited-out entry. */
  lemma {:induction false} LookupGone(env: Env, layers: seq<Layer>, t: Tree, plan: Plan, p: Path)
    requires Shows(env, layers, t, plan) && p !in t
    ensures Lookup(layers, p) == if Whited(t, plan, p) then Err(ENOENT) else Ok(None)
    decreases |p|
  {
    WhitedParent(t, plan, p);
    if Init(p) in t {
      LookupGoneBelow(env, layers, t, plan, p);
    } else {
      LookupGone(env, layers, t, plan, Init(p));
      WhitedLast(t, plan, p);
    }
  }

  ghost predicate HasName(es: seq<DirEnt>, name: Name) {
    exists e :: e in es && e.name == name
  }

  lemma WhitedLast(t: Tree, plan: Plan, p: Path)
    requires p != []
    ensures WhitedAt(t, plan, p, |p| - 1) <==> Init(p) in plan.whites && HasName(plan.whites[Init(p)], Last(p))
  {
    assert p[..|p| - 1] == Init(p);
  }

  lemma LookupGoneBelow(env: Env, layers: seq<Layer>, t: Tree, plan: Plan, p: Path)
    requires Shows(env, layers, t, plan) && p !in t && Init(p) in t
    ensures !Whited(t, plan, Init(p))
    ensures Lookup(layers, p) == if WhitedAt(t, plan, p, |p| - 1) then Err(ENOENT) else Ok(None)
  {
    WhitedLast(t, plan, p);
    LiveNotWhited(t, plan, Init(p));
    if t[Init(p)].HDir? {
      LookupGoneInDir(env, layers, t, plan, p);
    } else {
      LookupLive(env, layers, t, plan, Init(p));
      LookupStep(layers, p, Render(env, t, plan, Init(p)));
      RenderLive(env, t, plan, Init(p));
    }
  }

  lemma LookupGoneInDir(env: Env, layers: seq<Layer>, t: Tree, plan: Plan, p: Path)
    requires Shows(env, layers, t, plan) && p !in t && Init(p) in t && t[Init(p)].HDir?
    ensures Init(p) in plan.whites
    ensures Lookup(layers, p) == if HasName(plan.whites[Init(p)], Last(p)) then Err(ENOENT) else Ok(None)
  {
    var d := Init(p);
    Rejoin(p);
    EntryGone(t, plan, d, Last(p));
    LookupLive(env, layers, t, plan, d);
    LookupStep(layers, p, Render(env, t, plan, d));
    var r := FindEntry(DirEntries(t, plan, d), Last(p));
    if r.Some? {
      FindWhite(env, layers, t, plan, r.value);
    }
  }

  lemma {:induction false} PrefixesLive(t: Tree, p: Path, k: nat)
    requires ValidTree(t) && p in t && k <= |p|
    ensures p[..k] in t
    ensures k < |p| ==> t[p[..k]].HDir?
    decreases |p|
  {
    if k == |p| {
      assert p[..k] == p;
    } else {
      Parent(t, p);
      PrefixesLive(t, Init(p), k);
      assert Init(p)[..k] == p[..k];
      if k == |p| - 1 {
        assert p[..k] == Init(p);
      }
    }
  }

  lemma LiveNotWhited(t: Tree, plan: Plan, p: Path)
    requires Covers(t, plan) && p in t
    ensures !Whited(t, plan, p)
  {
    forall k | 0 <= k < |p| ensures !WhitedAt(t, plan, p, k) {
      PrefixesLive(t, p, k + 1);
      assert p[..k] + [p[k]] == p[..k + 1];
    }
  }
}
