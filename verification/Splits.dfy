/**
 * Deltas that split a hard-link group of their base: two paths that shared an inode get different
 * ones, or some but not all links are deleted.  Such a delta is never displayed correctly.
 */
module Splits {
  import opened Types
  import opened Seqs
  import opened HostTree
  import opened Layers
  import opened Resolution
  import opened Sorting
  import opened Store
  import opened Plans
  import opened View
  import opened Numbers
  import opened Deltas
  import opened Reproducible
  import opened Display
  import opened Images
  import opened Steps

  /** A layer rendered for tree u over an image that shows t, lying on top of it. */
  ghost predicate OnTop(env: Env, other: Env, layers: seq<Layer>, t: Tree, plan: Plan, u: Tree, l: Layer) {
    && Shows(env, layers, t, plan) && WellFormed(layers)
    && ValidTree(u) && Rendering(other, Some(layers), u, l) && l != []
  }

  ghost predicate DirInBoth(t: Tree, u: Tree, d: Path) {
    d in t && t[d].HDir? && d in u && u[d].HDir?
  }

  /** A directory that stays keeps its number. */
  lemma DirKeepsNumber(env: Env, layers: seq<Layer>, t: Tree, plan: Plan, u: Tree, d: Path)
    requires Shows(env, layers, t, plan) && ValidTree(u) && DirInBoth(t, u, d)
    ensures t[d].hino in plan.alloc && u[d].hino in PlanOf(Some(layers), u).alloc
    ensures PlanOf(Some(layers), u).alloc[u[d].hino] == plan.alloc[t[d].hino]
  {
    ShapeHas(t, plan, d);
    if d != [] {
      AloneLeads(u, d);
      AllocOf(Some(layers), u, d);
      BaseShows(env, layers, t, plan, d);
    }
  }

  /** No dropped entry has the number of a directory that stays. */
  lemma DirNotDropped(env: Env, layers: seq<Layer>, t: Tree, plan: Plan, u: Tree, d: Path)
    requires Shows(env, layers, t, plan) && ValidTree(u) && DirInBoth(t, u, d)
    ensures t[d].hino in plan.alloc && plan.alloc[t[d].hino] !in WhiteInos(PlanOf(Some(layers), u))
  {
    ShapeHas(t, plan, d);
    var y, plan' := plan.alloc[t[d].hino], PlanOf(Some(layers), u);
    if y in WhiteInos(plan') {
      var c, e :| c in plan'.whites && e in plan'.whites[c] && e.ino == y;
      BaseShows(env, layers, t, plan, c);
      EntryOrigin(t, plan, c, e);
      assert e !in plan.whites[c];
      assert SameInode(t, c + [e.name], d);
    }
  }

  /** Only the directory itself has its number. */
  lemma DirNumberAlone(env: Env, layers: seq<Layer>, t: Tree, plan: Plan, u: Tree, d: Path, q: Path)
    requires Shows(env, layers, t, plan) && WellFormed(layers) && ValidTree(u) && DirInBoth(t, u, d) && q in u
    requires t[d].hino in plan.alloc && u[q].hino in PlanOf(Some(layers), u).alloc
    requires PlanOf(Some(layers), u).alloc[u[q].hino] == plan.alloc[t[d].hino]
    ensures q == d
  {
    PlanShape(Some(layers), u);
    LiveBelowMax(env, layers, t, plan, d);
    var h := u[q].hino;
    if h == u[[]].hino {
      assert SameInode(u, q, []);
      ShapeHas(t, plan, []);
      assert SameInode(t, d, []);
    } else {
      var f := FirstOfHino(Some(layers), u, h);
      LeaderOfDir(env, layers, t, plan, u, d, f);
      assert SameInode(u, q, d);
    }
  }

  /** A leader that is given the number of a directory that stays is that directory. */
  lemma LeaderOfDir(env: Env, layers: seq<Layer>, t: Tree, plan: Plan, u: Tree, d: Path, f: Path)
    requires Shows(env, layers, t, plan) && WellFormed(layers) && ValidTree(u) && d in t && t[d].HDir?
    requires f in Firsts(u, Visits(u)) && f in u && t[d].hino in plan.alloc && u[f].hino in PlanOf(Some(layers), u).alloc
    requires PlanOf(Some(layers), u).alloc[u[f].hino] == plan.alloc[t[d].hino]
    ensures f == d
  {
    LeaderWasThere(env, layers, t, plan, u, d, f);
    SameNumberSameInode(t, plan, f, d);
  }

  lemma LeaderWasThere(env: Env, layers: seq<Layer>, t: Tree, plan: Plan, u: Tree, d: Path, f: Path)
    requires Shows(env, layers, t, plan) && WellFormed(layers) && ValidTree(u) && d in t
    requires f in Firsts(u, Visits(u)) && f in u && t[d].hino in plan.alloc && u[f].hino in PlanOf(Some(layers), u).alloc
    requires PlanOf(Some(layers), u).alloc[u[f].hino] == plan.alloc[t[d].hino]
    ensures f in t && t[f].hino in plan.alloc && plan.alloc[t[f].hino] == plan.alloc[t[d].hino]
  {
    LiveBelowMax(env, layers, t, plan, d);
    OldOrAbove(layers, u, f);
    BaseShows(env, layers, t, plan, f);
  }

  lemma OldOrAbove(layers: seq<Layer>, u: Tree, f: Path)
    requires NonEmpty(layers) && ValidTree(u) && f in Firsts(u, Visits(u)) && f in u && u[f].hino in PlanOf(Some(layers), u).alloc
    ensures var x := PlanOf(Some(layers), u).alloc[u[f].hino];
            BaseIno(Some(layers), f) == Some(x) || MaxIno(layers) < x
  {
    AllocOf(Some(layers), u, f);
  }

  lemma SameNumberSameInode(t: Tree, plan: Plan, f: Path, d: Path)
    requires ValidTree(t) && Distinct(plan) && f in t && d in t && t[d].HDir?
    requires t[f].hino in plan.alloc && t[d].hino in plan.alloc && plan.alloc[t[f].hino] == plan.alloc[t[d].hino]
    ensures f == d
  {
    assert SameInode(t, f, d);
  }

  lemma TopMembers(env: Env, other: Env, layers: seq<Layer>, t: Tree, plan: Plan, u: Tree, l: Layer)
    requires OnTop(env, other, layers, t, plan, u, l)
    ensures Covers(u, PlanOf(Some(layers), u)) && Sorted(l)
    ensures forall x :: x in l <==> x in Unsorted(other, u, PlanOf(Some(layers), u))
  {
    PlanShape(Some(layers), u);
    SameMembers(l, Unsorted(other, u, PlanOf(Some(layers), u)));
  }

  /** The layer holds nothing else under the number of a directory that stays. */
  lemma DirInodeAlone(env: Env, other: Env, layers: seq<Layer>, t: Tree, plan: Plan, u: Tree, l: Layer, d: Path, x: Inode)
    requires OnTop(env, other, layers, t, plan, u, l) && DirInBoth(t, u, d) && Covers(u, PlanOf(Some(layers), u))
    requires x in l && x.ino == Render(other, u, PlanOf(Some(layers), u), d).ino
    ensures x == Render(other, u, PlanOf(Some(layers), u), d)
  {
    var plan' := PlanOf(Some(layers), u);
    TopMembers(env, other, layers, t, plan, u, l);
    DirKeepsNumber(env, layers, t, plan, u, d);
    DirNotDropped(env, layers, t, plan, u, d);
    UnsortedOrigin(other, u, plan', x);
    var q :| q in u && x == Render(other, u, plan', q);
    ShapeHas(u, plan', q);
    DirNumberAlone(env, layers, t, plan, u, d, q);
  }

  lemma TopIsFirst(l: Layer, layers: seq<Layer>)
    ensures ([l] + layers)[0] == l && (NonEmpty(layers) && l != [] ==> NonEmpty([l] + layers))
  {
  }

  /** The search still finds a directory that stays, however the delta splits links. */
  lemma DirFound(env: Env, other: Env, layers: seq<Layer>, t: Tree, plan: Plan, u: Tree, l: Layer, d: Path)
    requires OnTop(env, other, layers, t, plan, u, l) && DirInBoth(t, u, d)
    ensures NonEmpty([l] + layers) && Covers(u, PlanOf(Some(layers), u))
    ensures FindInode([l] + layers, Render(other, u, PlanOf(Some(layers), u), d).ino) == Ok(Render(other, u, PlanOf(Some(layers), u), d))
  {
    var plan' := PlanOf(Some(layers), u);
    TopIsFirst(l, layers);
    TopMembers(env, other, layers, t, plan, u, l);
    var x := Render(other, u, plan', d);
    RenderedIn(other, u, plan', d);
    RenderLive(other, u, plan', d);
    FindInLayerCorrect(l, x.ino);
    DirInodeAlone(env, other, layers, t, plan, u, l, d, FindInLayer(l, x.ino).value);
  }

  /** What a path resolves to, once its directory does. */
  ghost predicate StepsTo(layers: seq<Layer>, p: Path, ino: Ino)
    requires NonEmpty(layers)
  {
    match FindInode(layers, ino)
    case Ok(i) => Lookup(layers, p) == Ok(Some(i))
    case Err(e) => Lookup(layers, p) == Err(e)
  }

  lemma EntrySteps(env: Env, layers: seq<Layer>, u: Tree, plan: Plan, p: Path)
    requires NonEmpty(layers) && Covers(u, plan) && p in u && p != [] && Init(p) in u && u[Init(p)].HDir?
    requires Lookup(layers, Init(p)) == Ok(Some(Render(env, u, plan, Init(p))))
    ensures u[p].hino in plan.alloc && StepsTo(layers, p, plan.alloc[u[p].hino])
  {
    EntryFound(u, plan, p);
    RenderParts(env, u, plan, Init(p));
    LookupStep(layers, p, Render(env, u, plan, Init(p)));
  }

  /** Directories that stay resolve to their renderings. */
  lemma {:induction false} DirResolves(env: Env, other: Env, layers: seq<Layer>, t: Tree, plan: Plan, u: Tree, l: Layer, d: Path)
    requires OnTop(env, other, layers, t, plan, u, l) && DirInBoth(t, u, d)
    ensures NonEmpty([l] + layers) && Covers(u, PlanOf(Some(layers), u))
    ensures Lookup([l] + layers, d) == Ok(Some(Render(other, u, PlanOf(Some(layers), u), d)))
    decreases |d|
  {
    DirFound(env, other, layers, t, plan, u, l, d);
    RenderParts(other, u, PlanOf(Some(layers), u), d);
    if d != [] {
      Parent(t, d);
      Parent(u, d);
      DirResolves(env, other, layers, t, plan, u, l, Init(d));
      EntrySteps(other, [l] + layers, u, PlanOf(Some(layers), u), d);
    }
  }

  /** A path of both trees resolves to whatever the search finds under its number. */
  lemma PathSteps(env: Env, other: Env, layers: seq<Layer>, t: Tree, plan: Plan, u: Tree, l: Layer, p: Path)
    requires OnTop(env, other, layers, t, plan, u, l) && p in t && p in u && p != []
    ensures NonEmpty([l] + layers) && u[p].hino in PlanOf(Some(layers), u).alloc
    ensures StepsTo([l] + layers, p, PlanOf(Some(layers), u).alloc[u[p].hino])
  {
    Parent(t, p);
    Parent(u, p);
    DirResolves(env, other, layers, t, plan, u, l, Init(p));
    EntrySteps(other, [l] + layers, u, PlanOf(Some(layers), u), p);
  }

  /** Two paths that shared an inode and no longer do get one number, so they cannot both be right. */
  lemma SplitPair(env: Env, other: Env, blobs: Blobs, layers: seq<Layer>, t: Tree, plan: Plan, u: Tree, l: Layer, i: nat, j: nat)
    requires OnTop(env, other, layers, t, plan, u, l) && i < j < |Firsts(u, Visits(u))|
    requires BaseIno(Some(layers), Firsts(u, Visits(u))[i]).Some?
    requires BaseIno(Some(layers), Firsts(u, Visits(u))[i]) == BaseIno(Some(layers), Firsts(u, Visits(u))[j])
    ensures !Displays(env, blobs, [l] + layers, u)
  {
    var fs := Firsts(u, Visits(u));
    var p, q := fs[i], fs[j];
    assert p in fs && q in fs;
    AllocOf(Some(layers), u, p);
    AllocOf(Some(layers), u, q);
    BaseShows(env, layers, t, plan, p);
    BaseShows(env, layers, t, plan, q);
    PathSteps(env, other, layers, t, plan, u, l, p);
    PathSteps(env, other, layers, t, plan, u, l, q);
    FirstsDiffer(u, Visits(u), i, j);
    OneNumberForTwo(env, blobs, [l] + layers, u, p, q, PlanOf(Some(layers), u).alloc[u[p].hino]);
  }

  lemma OneNumberForTwo(env: Env, blobs: Blobs, layers: seq<Layer>, u: Tree, p: Path, q: Path, x: Ino)
    requires NonEmpty(layers) && p in u && q in u && !SameInode(u, p, q) && StepsTo(layers, p, x) && StepsTo(layers, q, x)
    ensures !Displays(env, blobs, layers, u)
  {
    if FindInode(layers, x).Ok? {
      assert !LinkShown(layers, u, p, q);
    } else {
      assert !PathShown(env, blobs, layers, u, p);
    }
  }

  lemma LiveAndWhitedOut(env: Env, blobs: Blobs, layers: seq<Layer>, u: Tree, p: Path, w: Path, x: Ino)
    requires NonEmpty(layers) && p in u && w !in u && StepsTo(layers, p, x) && StepsTo(layers, w, x)
    ensures !Displays(env, blobs, layers, u)
  {
    if FindInode(layers, x).Ok? {
      assert !PathShown(env, blobs, layers, u, w);
    } else {
      assert !PathShown(env, blobs, layers, u, p);
    }
  }

  /** A dropped entry whose number is still offered to some path was the entry of another link to it. */
  lemma DroppedLink(env: Env, layers: seq<Layer>, t: Tree, plan: Plan, u: Tree, x: Ino, p: Path) returns (d: Path, e: DirEnt)
    requires Shows(env, layers, t, plan) && ValidTree(u) && x in WhiteInos(PlanOf(Some(layers), u)) &&
             BaseIno(Some(layers), p) == Some(x)
    ensures DirInBoth(t, u, d) && e in DirEntries(t, plan, d) && e.ino == x && d + [e.name] in t && d + [e.name] !in u
  {
    var plan' := PlanOf(Some(layers), u);
    d, e :| d in plan'.whites && e in plan'.whites[d] && e.ino == x;
    BaseShows(env, layers, t, plan, d);
    BaseShows(env, layers, t, plan, p);
    EntryOrigin(t, plan, d, e);
    assert e !in plan.whites[d];
  }

  /** In the new directory the dropped name still leads to its number. */
  lemma DroppedNameFound(env: Env, layers: seq<Layer>, t: Tree, plan: Plan, u: Tree, d: Path, e: DirEnt)
    requires Shows(env, layers, t, plan) && ValidTree(u) && DirInBoth(t, u, d) && Covers(u, PlanOf(Some(layers), u))
    requires e in DirEntries(t, plan, d) && d + [e.name] in t && d + [e.name] !in u
    ensures FindEntry(DirEntries(u, PlanOf(Some(layers), u), d), e.name) == Some(e.ino)
  {
    var plan', w := PlanOf(Some(layers), u), d + [e.name];
    BaseShows(env, layers, t, plan, d);
    EntryGone(u, plan', d, e.name);
    assert e in plan'.whites[d];
    assert HasName(plan'.whites[d], e.name);
    var ino := FindEntry(DirEntries(u, plan', d), e.name).value;
    FindEntryNone(DirEntries(u, plan', d), e.name);
    var f :| f in DirEntries(u, plan', d) && f.name == e.name && f.ino == ino;
    EntryOrigin(u, plan', d, f);
    assert f in DirEntries(t, plan, d);
    EntryOrigin(t, plan, d, f);
    EntryOrigin(t, plan, d, e);
  }

  /** Deleting some but not all links leaves one number live and whited out: some name is wrong whichever is found. */
  lemma SplitWhite(env: Env, other: Env, blobs: Blobs, layers: seq<Layer>, t: Tree, plan: Plan, u: Tree, l: Layer, p: Path)
    requires OnTop(env, other, layers, t, plan, u, l) && p in Firsts(u, Visits(u)) && BaseIno(Some(layers), p).Some?
    requires BaseIno(Some(layers), p).value in WhiteInos(PlanOf(Some(layers), u))
    ensures !Displays(env, blobs, [l] + layers, u)
  {
    var x, plan' := BaseIno(Some(layers), p).value, PlanOf(Some(layers), u);
    AllocOf(Some(layers), u, p);
    BaseShows(env, layers, t, plan, p);
    PathSteps(env, other, layers, t, plan, u, l, p);
    var d, e := DroppedLink(env, layers, t, plan, u, x, p);
    DroppedNameSteps(env, other, layers, t, plan, u, l, d, e);
    LiveAndWhitedOut(env, blobs, [l] + layers, u, p, d + [e.name], x);
  }

  lemma DroppedNameSteps(env: Env, other: Env, layers: seq<Layer>, t: Tree, plan: Plan, u: Tree, l: Layer, d: Path, e: DirEnt)
    requires OnTop(env, other, layers, t, plan, u, l) && DirInBoth(t, u, d)
    requires e in DirEntries(t, plan, d) && d + [e.name] in t && d + [e.name] !in u
    ensures NonEmpty([l] + layers) && StepsTo([l] + layers, d + [e.name], e.ino)
  {
    var plan', w := PlanOf(Some(layers), u), d + [e.name];
    DirResolves(env, other, layers, t, plan, u, l, d);
    DroppedNameFound(env, layers, t, plan, u, d, e);
    RenderParts(other, u, plan', d);
    assert Init(w) == d && Last(w) == e.name;
    LookupStep([l] + layers, w, Render(other, u, plan', d));
  }

  /** A delta that splits a hard-link group of its base and adds its layer is not displayed. */
  lemma SplitNotDisplayed(env: Env, other: Env, blobs: Blobs, layers: seq<Layer>, t: Tree, plan: Plan, u: Tree, l: Layer)
    requires OnTop(env, other, layers, t, plan, u, l) && !NoSplit(Some(layers), u)
    ensures !Displays(env, blobs, [l] + layers, u)
  {
    var ex, fs := Some(layers), Firsts(u, Visits(u));
    if i, j :| 0 <= i < j < |fs| && BaseIno(ex, fs[i]).Some? && BaseIno(ex, fs[i]) == BaseIno(ex, fs[j]) {
      SplitPair(env, other, blobs, layers, t, plan, u, l, i, j);
    } else {
      var p :| p in fs && BaseIno(ex, p).Some? && BaseIno(ex, p).value in WhiteInos(PlanOf(ex, u));
      SplitWhite(env, other, blobs, layers, t, plan, u, l, p);
    }
  }

  /**
   * In terms of the trees: paths that lead different groups now did not share an inode before, and no
   * link of a group that lives on has been deleted from a directory that stays.
   */
  ghost predicate LinksKept(t: Tree, u: Tree) {
    var fs := Firsts(u, Visits(u));
    && (forall p, q | p in fs && q in fs && SameInode(t, p, q) :: p == q)
    && (forall p, w | p in fs && DeletedFrom(t, u, w) :: !SameInode(t, p, w))
  }

  predicate DeletedFrom(t: Tree, u: Tree, w: Path) {
    w in t && w !in u && w != [] && Init(w) in u && u[Init(w)].HDir?
  }

  lemma SharedBefore(env: Env, layers: seq<Layer>, t: Tree, plan: Plan, p: Path, q: Path)
    requires Shows(env, layers, t, plan)
    ensures SameInode(t, p, q) <==> BaseIno(Some(layers), p).Some? && BaseIno(Some(layers), p) == BaseIno(Some(layers), q)
  {
    BaseShows(env, layers, t, plan, p);
    BaseShows(env, layers, t, plan, q);
  }

  lemma DeletedNumber(env: Env, layers: seq<Layer>, t: Tree, plan: Plan, u: Tree, w: Path)
    requires Shows(env, layers, t, plan) && ValidTree(u) && DeletedFrom(t, u, w)
    ensures BaseIno(Some(layers), w).Some? && BaseIno(Some(layers), w).value in WhiteInos(PlanOf(Some(layers), u))
  {
    var d, plan' := Init(w), PlanOf(Some(layers), u);
    Parent(t, w);
    BaseShows(env, layers, t, plan, w);
    BaseShows(env, layers, t, plan, d);
    ChildListed(t, plan, d, w);
    assert DirEnt(plan.alloc[t[w].hino], Last(w)) in plan'.whites[d];
  }

  /** A group has one leader. */
  lemma OneLeader(u: Tree, p: Path, q: Path)
    requires p in Firsts(u, Visits(u)) && q in Firsts(u, Visits(u)) && SameInode(u, p, q)
    ensures p == q
  {
    var fs := Firsts(u, Visits(u));
    var i :| 0 <= i < |fs| && fs[i] == p;
    var j :| 0 <= j < |fs| && fs[j] == q;
    if i < j {
      FirstsDiffer(u, Visits(u), i, j);
    } else if j < i {
      FirstsDiffer(u, Visits(u), j, i);
    }
  }

  lemma KeptPair(env: Env, layers: seq<Layer>, t: Tree, plan: Plan, u: Tree, i: nat, j: nat)
    requires Shows(env, layers, t, plan) && LinksKept(t, u) && i < j < |Firsts(u, Visits(u))|
    requires BaseIno(Some(layers), Firsts(u, Visits(u))[i]).Some?
    ensures BaseIno(Some(layers), Firsts(u, Visits(u))[i]) != BaseIno(Some(layers), Firsts(u, Visits(u))[j])
  {
    var fs := Firsts(u, Visits(u));
    assert fs[i] in fs && fs[j] in fs;
    assert SameInode(u, fs[i], fs[i]);
    FirstsDiffer(u, Visits(u), i, j);
    SharedBefore(env, layers, t, plan, fs[i], fs[j]);
  }

  lemma KeptNumber(env: Env, layers: seq<Layer>, t: Tree, plan: Plan, u: Tree, p: Path)
    requires Shows(env, layers, t, plan) && ValidTree(u) && BaseIno(Some(layers), p).Some?
    requires forall w | DeletedFrom(t, u, w) :: !SameInode(t, p, w)
    ensures BaseIno(Some(layers), p).value !in WhiteInos(PlanOf(Some(layers), u))
  {
    var x := BaseIno(Some(layers), p).value;
    if x in WhiteInos(PlanOf(Some(layers), u)) {
      var d, e := DroppedLink(env, layers, t, plan, u, x, p);
      DroppedLinkShared(env, layers, t, plan, u, x, p, d, e);
    }
  }

  lemma DroppedLinkShared(env: Env, layers: seq<Layer>, t: Tree, plan: Plan, u: Tree, x: Ino, p: Path, d: Path, e: DirEnt)
    requires Shows(env, layers, t, plan) && BaseIno(Some(layers), p) == Some(x)
    requires DirInBoth(t, u, d) && e in DirEntries(t, plan, d) && e.ino == x && d + [e.name] in t && d + [e.name] !in u
    ensures DeletedFrom(t, u, d + [e.name]) && SameInode(t, p, d + [e.name])
  {
    var w := d + [e.name];
    assert Init(w) == d;
    BaseShows(env, layers, t, plan, p);
    EntryOrigin(t, plan, d, e);
  }

  lemma LinksKeptNoSplit(env: Env, layers: seq<Layer>, t: Tree, plan: Plan, u: Tree)
    requires Shows(env, layers, t, plan) && ValidTree(u) && LinksKept(t, u)
    ensures NoSplit(Some(layers), u)
  {
    var ex, fs := Some(layers), Firsts(u, Visits(u));
    forall i, j | 0 <= i < j < |fs| && BaseIno(ex, fs[i]).Some? ensures BaseIno(ex, fs[i]) != BaseIno(ex, fs[j]) {
      KeptPair(env, layers, t, plan, u, i, j);
    }
    forall p | p in fs && BaseIno(ex, p).Some? ensures BaseIno(ex, p).value !in WhiteInos(PlanOf(ex, u)) {
      KeptNumber(env, layers, t, plan, u, p);
    }
  }

  lemma OneOffered(ex: Base, u: Tree, p: Path, q: Path)
    requires Usable(ex) && ValidTree(u) && NoSplit(ex, u) && p in Firsts(u, Visits(u)) && q in Firsts(u, Visits(u))
    requires BaseIno(ex, p).Some? && BaseIno(ex, p) == BaseIno(ex, q)
    ensures p == q
  {
    var fs := Firsts(u, Visits(u));
    var i :| 0 <= i < |fs| && fs[i] == p;
    var j :| 0 <= j < |fs| && fs[j] == q;
  }

  lemma NoSplitLinksKept(env: Env, layers: seq<Layer>, t: Tree, plan: Plan, u: Tree)
    requires Shows(env, layers, t, plan) && ValidTree(u) && NoSplit(Some(layers), u)
    ensures LinksKept(t, u)
  {
    var ex, fs := Some(layers), Firsts(u, Visits(u));
    forall p, q | p in fs && q in fs && SameInode(t, p, q) ensures p == q {
      SharedBefore(env, layers, t, plan, p, q);
      OneOffered(ex, u, p, q);
    }
    forall p, w | p in fs && DeletedFrom(t, u, w) ensures !SameInode(t, p, w) {
      DeletedNumber(env, layers, t, plan, u, w);
      SharedBefore(env, layers, t, plan, p, w);
    }
  }

  /** Whether a delta splits links can be told from the two trees. */
  lemma NoSplitIffLinksKept(env: Env, layers: seq<Layer>, t: Tree, plan: Plan, u: Tree)
    requires Shows(env, layers, t, plan) && ValidTree(u)
    ensures NoSplit(Some(layers), u) <==> LinksKept(t, u)
  {
    if LinksKept(t, u) {
      LinksKeptNoSplit(env, layers, t, plan, u);
    } else if NoSplit(Some(layers), u) {
      NoSplitLinksKept(env, layers, t, plan, u);
    }
  }

  lemma IsoSplitsNothing(env: Env, layers: seq<Layer>, t: Tree, plan: Plan, u: Tree)
    requires Shows(env, layers, t, plan) && ValidTree(u) && Iso(t, u)
    ensures NoSplit(Some(layers), u)
  {
    IsoLinksKept(t, u);
    LinksKeptNoSplit(env, layers, t, plan, u);
  }

  lemma IsoLinksKept(t: Tree, u: Tree)
    requires Iso(t, u)
    ensures LinksKept(t, u)
  {
    var fs := Firsts(u, Visits(u));
    forall p, q | p in fs && q in fs && SameInode(t, p, q) ensures p == q {
      assert SameInode(u, p, q);
      OneLeader(u, p, q);
    }
  }

  lemma RenderedNotEmpty(env: Env, ex: Base, u: Tree, l: Layer)
    requires Usable(ex) && ValidTree(u) && Rendering(env, ex, u, l)
    ensures l != []
  {
    PlanShape(ex, u);
    RenderedIn(env, u, PlanOf(ex, u), []);
    SameMembers(l, Unsorted(env, u, PlanOf(ex, u)));
  }

  /**
   * The exact condition for one delta: the image displays the delta's tree if and only if that is the
   * tree it displayed before, or the delta adds a layer and splits no hard-link group of its base.
   */
  lemma DisplaysIffClean(env: Env, other: Env, ser: Rootfs -> Bytes, s: ImageState, t: Tree, plan: Plan, u: Tree, l: Layer,
                         s': ImageState)
    requires Trusted(other) && SameLibraries(env, other) && Good(env, s, t, plan) && DeltaStep(other, ser, s, u, l, s')
    ensures Displays(env, s'.blobs, s'.rootfs.metadatas, u) <==> Clean(s.rootfs.metadatas, t, u, l)
  {
    var layers := s.rootfs.metadatas;
    if l in layers {
      StaleKeepsOldView(env, other, ser, s, t, plan, u, l, s');
      GoodDisplaysIff(env, env, s', t, plan, u);
    } else if NoSplit(Some(layers), u) {
      DeltaGood(env, other, ser, s, t, plan, u, l, s');
      GoodDisplays(env, other, s', u, PlanOf(Some(layers), u));
    } else {
      RenderedNotEmpty(other, Some(layers), u, l);
      SplitNotDisplayed(env, other, s'.blobs, layers, t, plan, u, l);
    }
  }

  /**
   * With the choice of compression that the image was built with, the condition can be read off the
   * layers: the delta splits nothing, and its layer is new or the newest one.
   */
  lemma SameChoiceCleanIff(env: Env, ser: Rootfs -> Bytes, s: ImageState, t: Tree, plan: Plan, u: Tree, l: Layer, s': ImageState)
    requires Trusted(env) && Good(env, s, t, plan) && DeltaStep(env, ser, s, u, l, s')
    ensures Clean(s.rootfs.metadatas, t, u, l) <==>
            NoSplit(Some(s.rootfs.metadatas), u) && (l !in s.rootfs.metadatas || l == s.rootfs.metadatas[0])
  {
    var layers := s.rootfs.metadatas;
    if l in layers && Iso(t, u) {
      IsoSplitsNothing(env, layers, t, plan, u);
      IsoSameLayer(env, layers, t, plan, u, l);
    } else if l == layers[0] && NoSplit(Some(layers), u) {
      DeltaGrows(env, ser, s, u, l, s');
      StoredInMore(env, s.blobs, s'.blobs, t);
      TopIsSameTree(env, s'.blobs, layers, t, plan, u, l);
    }
  }

  // Editing and undoing.

  lemma RetouchSplitsNothing(env: Env, layers: seq<Layer>, t: Tree, plan: Plan, u: Tree)
    requires Shows(env, layers, t, plan) && ValidTree(u) && Retouched(t, u)
    ensures NoSplit(Some(layers), u)
  {
    PlanRepeats(env, layers, t, plan, u);
    DistinctImpliesNoSplit(Some(layers), u);
  }

  /**
   * An edit of contents or metadata never renders the newest layer again.  It is displayed if and only
   * if its layer is not buried either; then that layer is put on top.
   */
  lemma EditIsSeen(env: Env, other: Env, ser: Rootfs -> Bytes, s: ImageState, t: Tree, plan: Plan, u: Tree, l: Layer,
                   s': ImageState)
    requires Trusted(other) && SameLibraries(env, other) && Good(env, s, t, plan) && DeltaStep(other, ser, s, u, l, s')
    requires Retouched(t, u) && !Iso(t, u)
    ensures l != s.rootfs.metadatas[0]
    ensures Displays(env, s'.blobs, s'.rootfs.metadatas, u) <==> l !in s.rootfs.metadatas
    ensures l !in s.rootfs.metadatas ==> s'.rootfs.metadatas == [l] + s.rootfs.metadatas && Good(other, s', u, plan)
  {
    var layers := s.rootfs.metadatas;
    PlanRepeats(env, layers, t, plan, u);
    RetouchSplitsNothing(env, layers, t, plan, u);
    DisplaysIffClean(env, other, ser, s, t, plan, u, l, s');
    if l !in layers {
      DeltaGood(env, other, ser, s, t, plan, u, l, s');
    } else if l == layers[0] {
      RenderingUnique(other, Some(layers), u, l);
      DeltaGrows(other, ser, s, u, l, s');
      ShowsDisplays(other, s'.blobs, layers, u, plan);
      DisplaysAny(env, other, s'.blobs, layers, u);
    }
  }

  /**
   * Undoing an edit is lost: whatever the image, change only contents or metadata, build that with any
   * choice of compression, and build the old tree again with its own.  Its rendering is the layer just
   * buried, so nothing is added and the image goes on displaying the edited tree.
   */
  lemma RevertIsLost(env: Env, other: Env, ser: Rootfs -> Bytes, s: ImageState, t: Tree, plan: Plan, u: Tree, l: Layer,
                     s': ImageState, l': Layer, s'': ImageState)
    requires Trusted(env) && Trusted(other) && SameLibraries(env, other) && Good(env, s, t, plan)
    requires Retouched(t, u) && !Iso(t, u) && l !in s.rootfs.metadatas
    requires DeltaStep(other, ser, s, u, l, s') && DeltaStep(env, ser, s', t, l', s'')
    ensures l' == s.rootfs.metadatas[0] && s''.rootfs.metadatas == s'.rootfs.metadatas
    ensures Displays(env, s''.blobs, s''.rootfs.metadatas, u) && !Displays(env, s''.blobs, s''.rootfs.metadatas, t)
  {
    var layers, layers' := s.rootfs.metadatas, s'.rootfs.metadatas;
    EditIsSeen(env, other, ser, s, t, plan, u, l, s');
    RenderingOfPlan(env, other, layers', u, plan, t, l');
    assert l' == layers[0] && layers[0] in layers';
    StaleKeepsOldView(other, env, ser, s', u, plan, t, l', s'');
    GoodDisplays(env, other, s'', u, plan);
    if Displays(env, s''.blobs, layers', t) {
      DisplaysDetermines(env, s''.blobs, layers', t, u);
    }
  }

  lemma RenderingOfPlan(env: Env, other: Env, layers: seq<Layer>, t: Tree, plan: Plan, u: Tree, l: Layer)
    requires Shows(other, layers, t, plan) && ValidTree(u) && Retouched(t, u) && Rendering(env, Some(layers), u, l)
    ensures Covers(u, plan) && l == Assemble(env, u, plan)
  {
    PlanRepeats(other, layers, t, plan, u);
    RenderingUnique(env, Some(layers), u, l);
  }

  /**
   * Building a tree twice in a row with one choice of compression adds at most one layer, whether or
   * not the first build is seen.
   */
  lemma TwiceAddsOne(env: Env, other: Env, ser: Rootfs -> Bytes, s: ImageState, t: Tree, plan: Plan, u: Tree, l: Layer,
                     s': ImageState, l': Layer, s'': ImageState)
    requires Trusted(other) && SameLibraries(env, other) && Good(env, s, t, plan)
    requires ValidTree(u) && NoSplit(Some(s.rootfs.metadatas), u)
    requires DeltaStep(other, ser, s, u, l, s') && DeltaStep(other, ser, s', u, l', s'')
    ensures l' == l && s''.rootfs.metadatas == s'.rootfs.metadatas && |s''.rootfs.metadatas| <= |s.rootfs.metadatas| + 1
  {
    var layers := s.rootfs.metadatas;
    if l !in layers {
      DeltaGood(env, other, ser, s, t, plan, u, l, s');
      RebuildIsTop(other, s'.rootfs.metadatas, u, PlanOf(Some(layers), u), l');
    } else {
      DistinctIffNoSplit(env, layers, t, plan, u);
      RenderingUnique(other, Some(layers), u, l);
      RenderingUnique(other, Some(layers), u, l');
    }
  }
}
