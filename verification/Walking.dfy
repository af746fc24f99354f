/** The outer loop of a build: what is collected after each directory, and in the end. */
module Walking {
  import opened Types
  import opened Seqs
  import opened Paths
  import opened HostTree
  import opened Plans
  import opened Visiting

  ghost predicate Walked(t: Tree, k: nat, q: Path)
    requires k <= |DirOrder(t)|
  {
    exists i :: 0 <= i < k && DirOrder(t)[i] == q
  }

  /** After k directories: walked ones have all their entries, met ones are still empty. */
  ghost predicate EntAt(t: Tree, plan: Plan, ents: Entries, k: nat, q: Path)
    requires Covers(t, plan) && k <= |DirOrder(t)|
  {
    && (q in ents <==> q in t && t[q].HDir? && (q == [] || Walked(t, k, Init(q))))
    && (q in ents ==> ents[q] == if Walked(t, k, q) then DirEntries(t, plan, q) else [])
  }

  ghost predicate EntsAre(t: Tree, plan: Plan, ents: Entries, k: nat)
    requires Covers(t, plan) && k <= |DirOrder(t)|
  {
    forall q {:trigger EntAt(t, plan, ents, k, q)} :: EntAt(t, plan, ents, k, q)
  }

  lemma EntsStart(t: Tree, plan: Plan)
    requires Covers(t, plan)
    ensures EntsAre(t, plan, map[[] := []], 0)
  {
  }

  /** The next directory to walk has been met and is still empty. */
  lemma NextIsEmpty(t: Tree, plan: Plan, ents: Entries, k: nat)
    requires Covers(t, plan) && k < |DirOrder(t)| && EntsAre(t, plan, ents, k)
    ensures var d := DirOrder(t)[k]; d in t && t[d].HDir? && d in ents && ents[d] == []
  {
    var ds := DirOrder(t);
    var d := ds[k];
    assert d in ds;
    assert EntAt(t, plan, ents, k, d);
    SortIsSorted(DirSet(t));
    if d != [] {
      var j := ParentFirst(t, k);
      assert Walked(t, k, Init(d));
    }
  }

  lemma WalkedNext(t: Tree, k: nat, k': nat, q: Path)
    requires k < |DirOrder(t)| && k' == k + 1
    ensures Walked(t, k', q) <==> Walked(t, k, q) || q == DirOrder(t)[k]
  {
  }

  /** A subdirectory comes after its parent. */
  lemma ChildNotWalked(t: Tree, k: nat, k': nat, q: Path)
    requires ValidTree(t) && k < |DirOrder(t)| && k' == k + 1 && q in t && q != [] && Init(q) == DirOrder(t)[k]
    ensures !Walked(t, k', q)
  {
    var ds := DirOrder(t);
    SortIsSorted(DirSet(t));
    if i :| 0 <= i < k' && ds[i] == q {
      var j := ParentFirst(t, i);
    }
  }

  lemma OpenedAll(t: Tree, d: Path, q: Path)
    ensures Opened(t, d, |Listing(t, d)|, q) <==> q in t && t[q].HDir? && q != [] && Init(q) == d
  {
    if q in t && t[q].HDir? && q != [] && Init(q) == d {
      assert q in Listing(t, d);
    }
    if Opened(t, d, |Listing(t, d)|, q) {
      assert q in Listing(t, d);
    }
  }

  ghost function AfterDir(t: Tree, plan: Plan, ents: Entries, d: Path): Entries
    requires Covers(t, plan) && d in ents && d in t && t[d].HDir?
  {
    EnteredTo(t, plan, ents[d := plan.whites[d]], d, |Listing(t, d)|)
  }

  lemma EntNext(t: Tree, plan: Plan, ents: Entries, k: nat, k': nat, q: Path)
    requires Covers(t, plan) && k < |DirOrder(t)| && k' == k + 1 && EntsAre(t, plan, ents, k)
    requires var d := DirOrder(t)[k]; d in ents && d in t && t[d].HDir?
    ensures EntAt(t, plan, AfterDir(t, plan, ents, DirOrder(t)[k]), k', q)
  {
    var d := DirOrder(t)[k];
    assert EntAt(t, plan, ents, k, q);
    WalkedNext(t, k, k', q);
    if q == d {
      assert EntAt(t, plan, ents, k, d);
      EnteredDir(t, plan, ents[d := plan.whites[d]], d, |Listing(t, d)|);
      TakeAll(Listing(t, d));
      if d != [] {
        WalkedNext(t, k, k', Init(d));
      }
    } else {
      EnteredOther(t, plan, ents[d := plan.whites[d]], d, |Listing(t, d)|, q);
      OpenedAll(t, d, q);
      if q != [] {
        WalkedNext(t, k, k', Init(q));
        if q in t && Init(q) == d {
          ChildNotWalked(t, k, k', q);
        }
      }
    }
  }

  lemma EntsNext(t: Tree, plan: Plan, ents: Entries, k: nat, k': nat)
    requires Covers(t, plan) && k < |DirOrder(t)| && k' == k + 1 && EntsAre(t, plan, ents, k)
    requires var d := DirOrder(t)[k]; d in ents && d in t && t[d].HDir?
    ensures EntsAre(t, plan, AfterDir(t, plan, ents, DirOrder(t)[k]), k')
  {
    forall q ensures EntAt(t, plan, AfterDir(t, plan, ents, DirOrder(t)[k]), k', q) {
      EntNext(t, plan, ents, k, k', q);
    }
  }

  /** In the end every directory of the tree has exactly its entries. */
  lemma EntsEnd(t: Tree, plan: Plan, ents: Entries)
    requires Covers(t, plan) && EntsAre(t, plan, ents, |DirOrder(t)|)
    ensures ents.Keys == DirSet(t)
    ensures forall d | d in ents :: d in t && t[d].HDir? && ents[d] == DirEntries(t, plan, d)
  {
    var ds := DirOrder(t);
    forall q ensures q in ents <==> q in DirSet(t) {
      assert EntAt(t, plan, ents, |ds|, q);
      if q in DirSet(t) && q != [] {
        Parent(t, q);
        assert Init(q) in ds;
      }
    }
    forall d | d in ents ensures d in t && t[d].HDir? && ents[d] == DirEntries(t, plan, d) {
      assert EntAt(t, plan, ents, |ds|, d);
      assert d in ds;
    }
  }

  // Which builds get through.

  ghost predicate DirFound(ex: Base, t: Tree, d: Path)
    requires Usable(ex)
  {
    LookupExisting(ex, d).Ok? && AllFound(ex, Listing(t, d), |Listing(t, d)|)
  }

  ghost predicate DirsFound(ex: Base, t: Tree, k: nat)
    requires Usable(ex) && k <= |DirOrder(t)|
  {
    k == 0 || (DirsFound(ex, t, k - 1) && DirFound(ex, t, DirOrder(t)[k - 1]))
  }

  lemma {:induction false} DirsFoundAt(ex: Base, t: Tree, k: nat, i: nat)
    requires Usable(ex) && i < k <= |DirOrder(t)| && DirsFound(ex, t, k)
    ensures DirFound(ex, t, DirOrder(t)[i])
  {
    if i < k - 1 {
      DirsFoundAt(ex, t, k - 1, i);
    }
  }

  lemma {:induction false} FoundIfBuildable(ex: Base, ps: seq<Path>, j: nat)
    requires Usable(ex) && j <= |ps| && forall i | 0 <= i < j :: LookupExisting(ex, ps[i]).Ok?
    ensures AllFound(ex, ps, j)
  {
    if j > 0 {
      FoundIfBuildable(ex, ps, j - 1);
    }
  }

  lemma DirFoundIfBuildable(ex: Base, t: Tree, d: Path)
    requires Usable(ex) && Buildable(ex, t) && d in t
    ensures DirFound(ex, t, d)
  {
    var ls := Listing(t, d);
    forall i | 0 <= i < |ls| ensures LookupExisting(ex, ls[i]).Ok? {
      assert ls[i] in ls;
    }
    FoundIfBuildable(ex, ls, |ls|);
  }

  /** A walk that finds every directory and entry in the base, or nothing there, has looked up every path. */
  lemma DirsFoundBuildable(ex: Base, t: Tree)
    requires Usable(ex) && ValidTree(t) && DirsFound(ex, t, |DirOrder(t)|)
    ensures Buildable(ex, t)
  {
    var ds := DirOrder(t);
    forall p | p in t ensures LookupExisting(ex, p).Ok? {
      var d := if p == [] then [] else Init(p);
      if p != [] {
        Parent(t, p);
      }
      assert d in ds;
      var i :| 0 <= i < |ds| && ds[i] == d;
      DirsFoundAt(ex, t, |ds|, i);
      if p != [] {
        assert p in Listing(t, d);
        var j :| 0 <= j < |Listing(t, d)| && Listing(t, d)[j] == p;
        AllFoundAt(ex, Listing(t, d), |Listing(t, d)|, j);
      }
    }
  }
}
