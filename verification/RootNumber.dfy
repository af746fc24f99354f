/** The number 1 belongs to "/" alone, in every image that was ever built. */
module RootNumber {
  import opened Types
  import opened Seqs
  import opened HostTree
  import opened Layers
  import opened Resolution
  import opened Sorting
  import opened Store
  import opened Plans
  import opened View
  import opened Numbers
  import opened Deltas

  predicate NoneIsRoot(entries: seq<DirEnt>) {
    forall e | e in entries :: e.ino != 1
  }

  ghost predicate RootUnlistedIn(l: Layer) {
    forall x | x in l && x.mode.Dir? :: NoneIsRoot(x.mode.entries)
  }

  /** No directory of any layer lists the number 1. */
  ghost predicate RootUnlisted(layers: seq<Layer>) {
    forall l | l in layers :: RootUnlistedIn(l)
  }

  ghost predicate BaseUnlisted(ex: Base) {
    ex.Some? ==> RootUnlisted(ex.value)
  }

  /** No path of the tree but "/" is offered the number 1. */
  ghost predicate RootAlone(ex: Base, t: Tree)
    requires Usable(ex)
  {
    forall p | p in t && p != [] :: BaseIno(ex, p) != Some(1)
  }

  /** What a path resolves to is in some layer, and has the number 1 only if the path is "/". */
  lemma {:induction false} ResolvedNumber(layers: seq<Layer>, p: Path, i: Inode)
    requires NonEmpty(layers) && RootUnlisted(layers) && Lookup(layers, p) == Ok(Some(i))
    ensures (exists l :: l in layers && i in l) && (i.ino == 1 <==> p == [])
  {
    if p == [] {
      FoundInLayers(layers, 1);
    } else {
      LookupPrefix(layers, p, |p| - 1);
      var d := Lookup(layers, Init(p)).value.value;
      ResolvedNumber(layers, Init(p), d);
      FindEntryNone(d.mode.entries, Last(p));
      FoundInLayers(layers, FindEntry(d.mode.entries, Last(p)).value);
    }
  }

  /** An image without such an entry offers the number 1 to "/" alone. */
  lemma UnlistedIsAlone(ex: Base, t: Tree)
    requires Usable(ex) && BaseUnlisted(ex)
    ensures RootAlone(ex, t)
  {
    forall p | p in t && p != [] ensures BaseIno(ex, p) != Some(1) {
      NotOfferedOne(ex, p);
    }
  }

  lemma NotOfferedOne(ex: Base, p: Path)
    requires Usable(ex) && BaseUnlisted(ex) && p != []
    ensures BaseIno(ex, p) != Some(1)
  {
    if BaseIno(ex, p).Some? {
      ResolvedNumber(ex.value, p, Lookup(ex.value, p).value.value);
    }
  }

  lemma BaseEntriesUnlisted(ex: Base, d: Path)
    requires Usable(ex) && BaseUnlisted(ex)
    ensures NoneIsRoot(BaseEntries(ex, d))
  {
    if BaseEntries(ex, d) != [] {
      ResolvedNumber(ex.value, d, Lookup(ex.value, d).value.value);
    }
  }

  lemma PlannedNumber(ex: Base, t: Tree, p: Path)
    requires Usable(ex) && BaseUnlisted(ex) && ValidTree(t) && p in t && p != []
    ensures t[p].hino in PlanOf(ex, t).alloc && PlanOf(ex, t).alloc[t[p].hino] != 1
  {
    PlanShape(ex, t);
    ShapeHas(t, PlanOf(ex, t), p);
    assert !SameInode(t, p, []);
    var q := FirstOfHino(ex, t, t[p].hino);
    AllocOf(ex, t, q);
    NotOfferedOne(ex, q);
  }

  lemma PlannedEntries(ex: Base, t: Tree, d: Path)
    requires Usable(ex) && BaseUnlisted(ex) && ValidTree(t) && Covers(t, PlanOf(ex, t)) && d in t && t[d].HDir?
    ensures NoneIsRoot(DirEntries(t, PlanOf(ex, t), d))
  {
    var plan := PlanOf(ex, t);
    BaseEntriesUnlisted(ex, d);
    forall e | e in DirEntries(t, plan, d) ensures e.ino != 1 {
      EntryOrigin(t, plan, d, e);
      if e !in plan.whites[d] {
        PlannedNumber(ex, t, d + [e.name]);
      }
    }
  }

  /** A layer rendered over such a base is such a layer, whether or not links were split. */
  lemma RenderingUnlisted(env: Env, ex: Base, t: Tree, l: Layer)
    requires Usable(ex) && BaseUnlisted(ex) && ValidTree(t) && Rendering(env, ex, t, l)
    ensures RootUnlistedIn(l) && l != []
  {
    PlanShape(ex, t);
    var plan := PlanOf(ex, t);
    RenderedIn(env, t, plan, []);
    SameMembers(l, Unsorted(env, t, plan));
    forall x | x in l && x.mode.Dir? ensures NoneIsRoot(x.mode.entries) {
      UnsortedOrigin(env, t, plan, x);
      var d :| d in t && x == Render(env, t, plan, d);
      RenderParts(env, t, plan, d);
      PlannedEntries(ex, t, d);
    }
  }
}
