/** One step of the build's traversal, in terms of the collected state. */
module Visiting {
  import opened Types
  import opened Seqs
  import opened Paths
  import opened HostTree
  import opened ChunkAssignment
  import opened Plans
  import opened Numbers
  import opened Collect

  type Entries = map<Path, seq<DirEnt>>

  ghost predicate DirIs(t: Tree, alloc: map<HostIno, Ino>, dirs: map<HostIno, DirRec>, ents: Entries, p: Path) {
    && p in ents && p in t && t[p].HDir? && t[p].hino in alloc && t[p].hino in dirs
    && dirs[t[p].hino] == DirRec(alloc[t[p].hino], t[p].meta, ents[p])
  }

  ghost predicate Backed(t: Tree, ents: Entries, h: HostIno) {
    exists p :: p in ents && p in t && t[p].hino == h
  }

  /** The directory records, kept by host inode, hold exactly the entries collected by path. */
  ghost predicate DirsAre(t: Tree, alloc: map<HostIno, Ino>, dirs: map<HostIno, DirRec>, ents: Entries) {
    && (forall p {:trigger DirIs(t, alloc, dirs, ents, p)} | p in ents :: DirIs(t, alloc, dirs, ents, p))
    && (forall h {:trigger Backed(t, ents, h)} | h in dirs :: Backed(t, ents, h))
  }

  lemma DirsAddEntry(t: Tree, alloc: map<HostIno, Ino>, dirs: map<HostIno, DirRec>, ents: Entries, d: Path, e: DirEnt)
    requires ValidTree(t) && DirsAre(t, alloc, dirs, ents) && d in ents
    ensures d in t && t[d].hino in dirs
    ensures var h := t[d].hino;
            DirsAre(t, alloc, dirs[h := dirs[h].(entries := dirs[h].entries + [e])], ents[d := ents[d] + [e]])
  {
    assert DirIs(t, alloc, dirs, ents, d);
    var h := t[d].hino;
    var dirs', ents' := dirs[h := dirs[h].(entries := dirs[h].entries + [e])], ents[d := ents[d] + [e]];
    forall p | p in ents' ensures DirIs(t, alloc, dirs', ents', p) {
      assert DirIs(t, alloc, dirs, ents, p);
      if p != d {
        assert !SameInode(t, p, d);
      }
    }
    forall k | k in dirs' ensures Backed(t, ents', k) {
      assert Backed(t, ents, k);
      var p :| p in ents && p in t && t[p].hino == k;
      assert p in ents';
    }
  }

  lemma DirsAddDir(t: Tree, alloc: map<HostIno, Ino>, dirs: map<HostIno, DirRec>, ents: Entries, d: Path)
    requires ValidTree(t) && DirsAre(t, alloc, dirs, ents) && d in t && t[d].HDir? && t[d].hino in alloc
    ensures var h := t[d].hino;
            DirsAre(t, alloc, dirs[h := DirRec(alloc[h], t[d].meta, [])], ents[d := []])
  {
    var h := t[d].hino;
    var dirs', ents' := dirs[h := DirRec(alloc[h], t[d].meta, [])], ents[d := []];
    forall p | p in ents' ensures DirIs(t, alloc, dirs', ents', p) {
      if p != d {
        assert DirIs(t, alloc, dirs, ents, p);
        assert !SameInode(t, p, d);
      }
    }
    forall k | k in dirs' ensures Backed(t, ents', k) {
      if k == h {
        assert d in ents';
      } else {
        assert Backed(t, ents, k);
        var p :| p in ents && p in t && t[p].hino == k;
        assert p in ents';
      }
    }
  }

  /** Visiting p enters it into its parent, and opens an empty list if it is a directory. */
  ghost function Entered(t: Tree, plan: Plan, ents: Entries, p: Path): Entries
    requires p in t && p != [] && t[p].hino in plan.alloc && Init(p) in ents
  {
    var e := DirEnt(plan.alloc[t[p].hino], Last(p));
    var more := ents[Init(p) := ents[Init(p)] + [e]];
    if t[p].HDir? then more[p := []] else more
  }

  lemma CoversNumbers(t: Tree, plan: Plan, ps: seq<Path>)
    requires Covers(t, plan) && Within(t, ps)
    ensures AllNumbered(t, plan.alloc, ps)
  {
    forall p | p in ps ensures t[p].hino in plan.alloc {
      ShapeHas(t, plan, p);
    }
  }

  /** The numbers, files and other nodes collected during the walk. */
  datatype Collected = Collected(numbers: Numbering, files: seq<FileRec>, others: seq<OtherRec>)

  ghost function CollectedFor(ex: Base, t: Tree, plan: Plan, vs: seq<Path>): Collected
    requires Usable(ex) && Covers(t, plan) && Within(t, vs)
  {
    CoversNumbers(t, plan, Firsts(t, vs));
    Collected(NumberAll(ex, t, vs), FileRecs(t, plan.alloc, Firsts(t, vs)), OtherRecs(t, plan.alloc, Firsts(t, vs)))
  }

  /** These are entries of directory d, all of them numbered. */
  ghost predicate ListingOf(t: Tree, plan: Plan, d: Path, ps: seq<Path>) {
    Listed(t, plan.alloc, ps) && forall i | 0 <= i < |ps| :: Init(ps[i]) == d
  }

  lemma ListingFits(t: Tree, plan: Plan, d: Path)
    requires Covers(t, plan)
    ensures ListingOf(t, plan, d, Listing(t, d))
  {
    ListingListed(t, plan, d);
    forall i | 0 <= i < |Listing(t, d)| ensures Init(Listing(t, d)[i]) == d {
      assert Listing(t, d)[i] in Listing(t, d);
    }
  }

  lemma ListedAt(t: Tree, plan: Plan, d: Path, j: nat)
    requires Covers(t, plan) && j < |Listing(t, d)|
    ensures var p := Listing(t, d)[j]; p in t && p != [] && t[p].hino in plan.alloc && Init(p) == d
  {
    ListingFits(t, plan, d);
  }

  /** The first j entries of directory d have been entered. */
  ghost function EnteredTo(t: Tree, plan: Plan, ents: Entries, d: Path, j: nat): (r: Entries)
    requires Covers(t, plan) && d in ents && j <= |Listing(t, d)|
    ensures d in r
  {
    if j == 0 then ents else
    ListedAt(t, plan, d, j - 1);
    Entered(t, plan, EnteredTo(t, plan, ents, d, j - 1), Listing(t, d)[j - 1])
  }

  lemma {:induction false} EnteredDir(t: Tree, plan: Plan, ents: Entries, d: Path, j: nat)
    requires Covers(t, plan) && d in ents && j <= |Listing(t, d)|
    ensures Listed(t, plan.alloc, Listing(t, d)[..j])
    ensures EnteredTo(t, plan, ents, d, j)[d] == ents[d] + LiveEntries(t, plan.alloc, Listing(t, d)[..j])
  {
    ListingFits(t, plan, d);
    var ps := Listing(t, d);
    if j > 0 {
      EnteredDir(t, plan, ents, d, j - 1);
      TakeMore(ps, j - 1);
      assert ps[j - 1] != d;
      AppendSnoc(ents[d], LiveEntries(t, plan.alloc, ps[..j - 1]), DirEnt(plan.alloc[t[ps[j - 1]].hino], Last(ps[j - 1])));
    }
  }

  /** A subdirectory among the first j entries of d. */
  ghost predicate Opened(t: Tree, d: Path, j: nat, q: Path)
    requires j <= |Listing(t, d)|
  {
    q in t && t[q].HDir? && exists i :: 0 <= i < j && Listing(t, d)[i] == q
  }

  lemma {:induction false} EnteredOther(t: Tree, plan: Plan, ents: Entries, d: Path, j: nat, q: Path)
    requires Covers(t, plan) && d in ents && j <= |Listing(t, d)| && q != d
    ensures q in EnteredTo(t, plan, ents, d, j) <==> q in ents || Opened(t, d, j, q)
    ensures q in EnteredTo(t, plan, ents, d, j) ==>
              EnteredTo(t, plan, ents, d, j)[q] == if Opened(t, d, j, q) then [] else ents[q]
  {
    if j > 0 {
      ListedAt(t, plan, d, j - 1);
      EnteredOther(t, plan, ents, d, j - 1, q);
      assert Opened(t, d, j, q) <==> Opened(t, d, j - 1, q) || (q == Listing(t, d)[j - 1] && t[q].HDir?);
    }
  }

  /** No path is visited twice. */
  lemma {:induction false} VisitsNoDups(t: Tree, ds: seq<Path>)
    requires NoDups(ds)
    ensures NoDups(VisitsOf(t, ds))
  {
    if ds != [] {
      VisitsNoDups(t, Init(ds));
      SortIsSorted(Children(t, Last(ds)));
      var a, b := VisitsOf(t, Init(ds)), Listing(t, Last(ds));
      forall i, j | 0 <= i < |a| && 0 <= j < |b| ensures a[i] != b[j] {
        assert a[i] in a && b[j] in b;
        VisitsOfMember(t, Init(ds), a[i]);
        assert Init(b[j]) == Last(ds) == ds[|ds| - 1];
      }
    }
  }

  lemma {:induction false} VisitsPrefix(t: Tree, ds: seq<Path>, es: seq<Path>)
    ensures VisitsOf(t, ds) <= VisitsOf(t, ds + es)
  {
    if es == [] {
      assert ds + es == ds;
    } else {
      InitAppend(ds, es);
      VisitsPrefix(t, ds, Init(es));
    }
  }

  /** What has been visited when the walk stands at entry j of its k-th directory. */
  ghost function Before(t: Tree, k: nat, j: nat): (vs: seq<Path>)
    requires k < |DirOrder(t)| && j <= |Listing(t, DirOrder(t)[k])|
    ensures Within(t, vs)
  {
    if j == 0 then VisitsOf(t, DirOrder(t)[..k])
    else
      assert Listing(t, DirOrder(t)[k])[j - 1] in Listing(t, DirOrder(t)[k]);
      Before(t, k, j - 1) + [Listing(t, DirOrder(t)[k])[j - 1]]
  }

  lemma {:induction false} BeforeIs(t: Tree, k: nat, j: nat)
    requires k < |DirOrder(t)| && j <= |Listing(t, DirOrder(t)[k])|
    ensures Before(t, k, j) == VisitsOf(t, DirOrder(t)[..k]) + Listing(t, DirOrder(t)[k])[..j]
  {
    var vs, ls := VisitsOf(t, DirOrder(t)[..k]), Listing(t, DirOrder(t)[k]);
    if j == 0 {
      assert ls[..0] == [];
    } else {
      BeforeIs(t, k, j - 1);
      TakeMore(ls, j - 1);
      Rejoin(ls[..j]);
      AppendSnoc(vs, ls[..j - 1], ls[j - 1]);
    }
  }

  lemma BeforeWithin(t: Tree, k: nat, j: nat)
    requires k < |DirOrder(t)| && j <= |Listing(t, DirOrder(t)[k])|
    ensures Before(t, k, j) <= Visits(t)
    ensures j == |Listing(t, DirOrder(t)[k])| ==> Before(t, k, j) == VisitsOf(t, DirOrder(t)[..k + 1])
  {
    var ds := DirOrder(t);
    BeforeIs(t, k, j);
    TakeMore(ds, k);
    TakeAll(Listing(t, ds[k]));
    assert ds[..k + 1] + ds[k + 1..] == ds;
    VisitsPrefix(t, ds[..k + 1], ds[k + 1..]);
  }

  /** While visiting, the numbers given so far are those of the finished plan. */
  lemma NumberIsFinal(ex: Base, t: Tree, vs: seq<Path>, h: HostIno)
    requires Usable(ex) && ValidTree(t) && vs <= Visits(t) && Within(t, vs) && h in NumberAll(ex, t, vs).inos
    ensures h in PlanOf(ex, t).alloc && PlanOf(ex, t).alloc[h] == NumberAll(ex, t, vs).inos[h]
  {
    VisitsComplete(t);
    var rest := Visits(t)[|vs|..];
    assert vs + rest == Visits(t);
    NumberKeeps(ex, t, vs, rest, h);
    NumberKeys(ex, t, vs);
    var p :| p in vs && t[p].hino == h;
    assert p in Visits(t);
    assert !SameInode(t, p, []);
  }

  /** The base resolves the first j of these paths, to an inode or to nothing. */
  ghost predicate AllFound(ex: Base, ps: seq<Path>, j: nat)
    requires Usable(ex) && j <= |ps|
  {
    j == 0 || (AllFound(ex, ps, j - 1) && LookupExisting(ex, ps[j - 1]).Ok?)
  }

  lemma {:induction false} AllFoundAt(ex: Base, ps: seq<Path>, j: nat, i: nat)
    requires Usable(ex) && i < j <= |ps| && AllFound(ex, ps, j)
    ensures LookupExisting(ex, ps[i]).Ok?
  {
    if i < j - 1 {
      AllFoundAt(ex, ps, j - 1, i);
    }
  }

  lemma AllFoundNext(ex: Base, ps: seq<Path>, j: nat, k: nat)
    requires Usable(ex) && j < |ps| && k == j + 1 && AllFound(ex, ps, j) && LookupExisting(ex, ps[j]).Ok?
    ensures AllFound(ex, ps, k)
  {
  }

  lemma NotAllFound(ex: Base, ps: seq<Path>, i: nat)
    requires Usable(ex) && i < |ps| && LookupExisting(ex, ps[i]).Err?
    ensures !AllFound(ex, ps, |ps|)
  {
    if AllFound(ex, ps, |ps|) {
      AllFoundAt(ex, ps, |ps|, i);
    }
  }

  lemma WhitesOf(ex: Base, t: Tree, d: Path)
    requires Usable(ex) && ValidTree(t) && d in t && t[d].HDir?
    ensures d in PlanOf(ex, t).whites && PlanOf(ex, t).whites[d] == Dropped(t, d, BaseEntries(ex, d))
  {
  }

  /** The number a visited path is entered under, and whether it is rendered. */
  lemma VisitNumbers(ex: Base, t: Tree, vs: seq<Path>, p: Path)
    requires Usable(ex) && ValidTree(t) && vs + [p] <= Visits(t) && Within(t, vs) && p in t
    ensures Within(t, vs + [p])
    ensures NumberAll(ex, t, vs + [p]) == Number(ex, t, NumberAll(ex, t, vs), p)
    ensures t[p].hino in PlanOf(ex, t).alloc
    ensures PlanOf(ex, t).alloc[t[p].hino] == NumberAll(ex, t, vs + [p]).inos[t[p].hino]
    ensures Firsts(t, vs + [p]) ==
            if t[p].hino in NumberAll(ex, t, vs).inos then Firsts(t, vs) else Firsts(t, vs) + [p]
  {
    var ws := vs + [p];
    assert Init(ws) == vs && Last(ws) == p;
    NumberIsFinal(ex, t, ws, t[p].hino);
    SeenIsNumbered(ex, t, vs, p);
  }

  /** A directory is always met for the first time. */
  lemma DirIsNew(ex: Base, t: Tree, vs: seq<Path>, p: Path)
    requires Usable(ex) && ValidTree(t) && vs + [p] <= Visits(t) && Within(t, vs) && p in t && t[p].HDir?
    ensures t[p].hino !in NumberAll(ex, t, vs).inos
  {
    SortIsSorted(DirSet(t));
    VisitsNoDups(t, DirOrder(t));
    NumberKeys(ex, t, vs);
    var ws := vs + [p];
    forall q | q in vs ensures !SameInode(t, p, q) {
      var i :| 0 <= i < |vs| && vs[i] == q;
      assert ws[i] == q && ws[|vs|] == p;
      assert Visits(t)[i] == q && Visits(t)[|vs|] == p;
    }
  }
}
