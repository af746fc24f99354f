/** How inode numbers are given out, and when two things end up with the same one. */
module Numbers {
  import opened Types
  import opened Seqs
  import opened HostTree
  import opened Plans

  ghost predicate Within(t: Tree, vs: seq<Path>) {
    forall p | p in vs :: p in t
  }

  lemma {:induction false} NumberKeys(ex: Base, t: Tree, vs: seq<Path>)
    requires Usable(ex) && Within(t, vs)
    ensures NumberAll(ex, t, vs).inos.Keys == set p | p in vs :: t[p].hino
    ensures FirstFree(ex) <= NumberAll(ex, t, vs).next
  {
    if vs != [] {
      NumberKeys(ex, t, Init(vs));
      assert forall p :: p in vs <==> p in Init(vs) || p == Last(vs);
    }
  }

  /** A path is the first of its host inode exactly when that host inode has no number yet. */
  lemma SeenIsNumbered(ex: Base, t: Tree, vs: seq<Path>, p: Path)
    requires Usable(ex) && Within(t, vs) && p in t
    ensures Seen(t, Firsts(t, vs), p) <==> t[p].hino in NumberAll(ex, t, vs).inos
  {
    NumberKeys(ex, t, vs);
    if q :| q in vs && t[q].hino == t[p].hino {
      FirstsCover(t, vs, q);
      var r :| r in Firsts(t, vs) && SameInode(t, q, r);
      assert SameInode(t, p, r);
    }
  }

  /** The first path of a host inode passes on its old number, or a fresh one if it is new. */
  ghost predicate Numbered(ex: Base, t: Tree, n: Numbering, p: Path)
    requires Usable(ex) && p in t
  {
    && t[p].hino in n.inos
    && match BaseIno(ex, p)
       case Some(i) => n.inos[t[p].hino] == i
       case None => FirstFree(ex) <= n.inos[t[p].hino] < n.next
  }

  lemma {:induction false} FirstNumbered(ex: Base, t: Tree, vs: seq<Path>, p: Path)
    requires Usable(ex) && Within(t, vs) && p in Firsts(t, vs)
    ensures Numbered(ex, t, NumberAll(ex, t, vs), p)
  {
    var init := Init(vs);
    NumberKeys(ex, t, init);
    SeenIsNumbered(ex, t, init, Last(vs));
    if p in Firsts(t, init) {
      FirstNumbered(ex, t, init, p);
    }
  }

  /** Fresh numbers are given out in visiting order, each once. */
  lemma {:induction false} FreshIncrease(ex: Base, t: Tree, vs: seq<Path>, i: nat, j: nat)
    requires Usable(ex) && Within(t, vs) && i < j < |Firsts(t, vs)|
    requires BaseIno(ex, Firsts(t, vs)[i]).None? && BaseIno(ex, Firsts(t, vs)[j]).None?
    ensures Firsts(t, vs)[i] in t && Firsts(t, vs)[j] in t
    ensures var inos := NumberAll(ex, t, vs).inos;
            && t[Firsts(t, vs)[i]].hino in inos && t[Firsts(t, vs)[j]].hino in inos
            && inos[t[Firsts(t, vs)[i]].hino] < inos[t[Firsts(t, vs)[j]].hino]
  {
    var init, fs := Init(vs), Firsts(t, vs);
    assert fs[i] in fs && fs[j] in fs;
    FirstNumbered(ex, t, vs, fs[i]);
    FirstNumbered(ex, t, vs, fs[j]);
    SeenIsNumbered(ex, t, init, Last(vs));
    if j < |Firsts(t, init)| {
      FreshIncrease(ex, t, init, i, j);
    } else {
      assert Firsts(t, init)[i] in Firsts(t, init);
      FirstNumbered(ex, t, init, fs[i]);
    }
  }

  /** Numbers never change once given. */
  lemma {:induction false} NumberKeeps(ex: Base, t: Tree, vs: seq<Path>, ws: seq<Path>, h: HostIno)
    requires Usable(ex) && Within(t, vs) && Within(t, vs + ws) && h in NumberAll(ex, t, vs).inos
    ensures h in NumberAll(ex, t, vs + ws).inos
    ensures NumberAll(ex, t, vs + ws).inos[h] == NumberAll(ex, t, vs).inos[h]
  {
    if ws == [] {
      assert vs + ws == vs;
    } else {
      assert Init(vs + ws) == vs + Init(ws) && Last(vs + ws) == Last(ws);
      NumberKeeps(ex, t, vs, Init(ws), h);
    }
  }

  /** Every build's plan covers its tree. */
  lemma PlanShape(ex: Base, t: Tree)
    requires Usable(ex) && ValidTree(t)
    ensures Shape(t, PlanOf(ex, t))
  {
    var vs := Visits(t);
    VisitsComplete(t);
    NumberKeys(ex, t, vs);
    var plan := PlanOf(ex, t);
    forall h ensures h in plan.alloc.Keys <==> h in Hinos(t) {
      if h in Hinos(t) {
        var p :| p in t && t[p].hino == h;
        if p != [] {
          assert p in vs;
        }
      }
    }
    assert plan.alloc.Keys == Hinos(t);
  }

  /** In terms of first paths: who has which number. */
  lemma AllocOf(ex: Base, t: Tree, p: Path)
    requires Usable(ex) && ValidTree(t) && p in Firsts(t, Visits(t))
    ensures p in t && p != [] && t[p].hino in PlanOf(ex, t).alloc
    ensures match BaseIno(ex, p)
            case Some(i) => PlanOf(ex, t).alloc[t[p].hino] == i
            case None => FirstFree(ex) <= PlanOf(ex, t).alloc[t[p].hino]
  {
    VisitsComplete(t);
    assert p in Visits(t);
    FirstNumbered(ex, t, Visits(t), p);
    assert !SameInode(t, p, []);
  }

  lemma FirstOfHino(ex: Base, t: Tree, h: HostIno) returns (p: Path)
    requires ValidTree(t) && h in Hinos(t) && h != t[[]].hino
    ensures p in Firsts(t, Visits(t)) && p in t && t[p].hino == h
  {
    var q :| q in t && t[q].hino == h;
    VisitsComplete(t);
    FirstsCover(t, Visits(t), q);
    p :| p in Firsts(t, Visits(t)) && SameInode(t, q, p);
  }

  // When numbers clash.

  /**
   * The delta splits no hard-link group of its base: no two first paths of different host inodes,
   * and no first path and dropped entry, stand under one number in the base.
   */
  ghost predicate NoSplit(ex: Base, t: Tree)
    requires Usable(ex) && ValidTree(t)
  {
    var fs := Firsts(t, Visits(t));
    && (forall i, j | 0 <= i < j < |fs| :: BaseIno(ex, fs[i]).Some? ==> BaseIno(ex, fs[i]) != BaseIno(ex, fs[j]))
    && (forall p | p in fs && BaseIno(ex, p).Some? :: BaseIno(ex, p).value !in WhiteInos(PlanOf(ex, t)))
  }

  lemma DistinctImpliesNoSplit(ex: Base, t: Tree)
    requires Usable(ex) && ValidTree(t) && Distinct(PlanOf(ex, t))
    ensures NoSplit(ex, t)
  {
    var fs := Firsts(t, Visits(t));
    forall i, j | 0 <= i < j < |fs| && BaseIno(ex, fs[i]).Some? ensures BaseIno(ex, fs[i]) != BaseIno(ex, fs[j]) {
      assert fs[i] in fs && fs[j] in fs;
      AllocOf(ex, t, fs[i]);
      AllocOf(ex, t, fs[j]);
      FirstsDiffer(t, Visits(t), i, j);
    }
    forall p | p in fs && BaseIno(ex, p).Some? ensures BaseIno(ex, p).value !in WhiteInos(PlanOf(ex, t)) {
      AllocOf(ex, t, p);
    }
  }

  /** Old numbers are below the fresh ones and belong to "/" only at "/". */
  ghost predicate SoundBase(ex: Base, t: Tree)
    requires Usable(ex) && ValidTree(t)
  {
    && FirstFree(ex) >= 2
    && (forall p | p in t && p != [] && BaseIno(ex, p).Some? :: 1 != BaseIno(ex, p).value < FirstFree(ex))
    && (forall i | i in WhiteInos(PlanOf(ex, t)) :: 1 != i < FirstFree(ex))
  }

  lemma NoSplitImpliesDistinct(ex: Base, t: Tree)
    requires Usable(ex) && ValidTree(t) && SoundBase(ex, t) && NoSplit(ex, t)
    ensures Distinct(PlanOf(ex, t))
  {
    var plan, root := PlanOf(ex, t), t[[]].hino;
    PlanShape(ex, t);
    forall h | h in plan.alloc && h != root ensures plan.alloc[h] != 1 && plan.alloc[h] !in WhiteInos(plan) {
      var p := FirstOfHino(ex, t, h);
      AllocOf(ex, t, p);
    }
    forall h, k | h in plan.alloc && k in plan.alloc && plan.alloc[h] == plan.alloc[k] ensures h == k {
      if h != root && k != root {
        var p := FirstOfHino(ex, t, h);
        var q := FirstOfHino(ex, t, k);
        FirstsClash(ex, t, p, q);
      }
    }
  }

  lemma FirstsClash(ex: Base, t: Tree, p: Path, q: Path)
    requires Usable(ex) && ValidTree(t) && SoundBase(ex, t) && NoSplit(ex, t)
    requires p in Firsts(t, Visits(t)) && q in Firsts(t, Visits(t))
    requires p in t && q in t && t[p].hino in PlanOf(ex, t).alloc && t[q].hino in PlanOf(ex, t).alloc
    requires PlanOf(ex, t).alloc[t[p].hino] == PlanOf(ex, t).alloc[t[q].hino]
    ensures p == q
  {
    var fs := Firsts(t, Visits(t));
    var i :| 0 <= i < |fs| && fs[i] == p;
    var j :| 0 <= j < |fs| && fs[j] == q;
    if i < j {
      FirstsNumbersDiffer(ex, t, i, j);
    } else if j < i {
      FirstsNumbersDiffer(ex, t, j, i);
    }
  }

  lemma FirstsNumbersDiffer(ex: Base, t: Tree, i: nat, j: nat)
    requires Usable(ex) && ValidTree(t) && SoundBase(ex, t) && NoSplit(ex, t)
    requires i < j < |Firsts(t, Visits(t))|
    ensures var p, q := Firsts(t, Visits(t))[i], Firsts(t, Visits(t))[j];
            && p in t && q in t && t[p].hino in PlanOf(ex, t).alloc && t[q].hino in PlanOf(ex, t).alloc
            && PlanOf(ex, t).alloc[t[p].hino] != PlanOf(ex, t).alloc[t[q].hino]
  {
    var fs := Firsts(t, Visits(t));
    var p, q := fs[i], fs[j];
    assert p in fs && q in fs;
    AllocOf(ex, t, p);
    AllocOf(ex, t, q);
    if BaseIno(ex, p).None? && BaseIno(ex, q).None? {
      FreshIncrease(ex, t, Visits(t), i, j);
      assert !SameInode(t, p, []) && !SameInode(t, q, []);
    }
  }

  /** An initial build never clashes. */
  lemma InitialDistinct(t: Tree)
    requires ValidTree(t)
    ensures NoSplit(None, t) && Distinct(PlanOf(None, t)) && WhiteInos(PlanOf(None, t)) == {}
  {
    NoSplitImpliesDistinct(None, t);
  }
}
