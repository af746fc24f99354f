/**
 * The walk over any image whose directories do not contain themselves, even one that lists a name
 * twice.  The reference is the unfolding of the image, depth first.
 */
module Unfolding {
  import opened Types
  import opened Seqs
  import opened Layers
  import opened Walk

  /** Ranks of inode numbers that fall from every directory to what it lists show that none contains itself. */
  ghost predicate Falls(layers: seq<Layer>, rank: Ino -> nat, d: Inode)
    requires NonEmpty(layers)
  {
    forall k | 0 <= k < |EntriesOf(d)| :: FindInode(layers, EntriesOf(d)[k].ino).Ok? ==>
      rank(FindInode(layers, EntriesOf(d)[k].ino).value.ino) < rank(d.ino)
  }

  ghost predicate Acyclic(layers: seq<Layer>, rank: Ino -> nat)
    requires NonEmpty(layers)
  {
    forall l, d {:trigger Listed(layers, l, d)} | Listed(layers, l, d) :: Falls(layers, rank, d)
  }

  predicate Listed(layers: seq<Layer>, l: Layer, d: Inode) {
    l in layers && d in l
  }

  /** What a directory entry of the walk leads to directly. */
  function Kids(layers: seq<Layer>, e: Entry): seq<Entry>
    requires NonEmpty(layers)
  {
    if Findable(layers, EntriesOf(e.inode)) then Below(layers, e.path, EntriesOf(e.inode)) else []
  }

  ghost predicate InImage(layers: seq<Layer>, e: Entry) {
    exists l :: Listed(layers, l, e.inode)
  }

  ghost predicate RankedBelow(layers: seq<Layer>, rank: Ino -> nat, es: seq<Entry>, bound: nat) {
    forall k | 0 <= k < |es| :: InImage(layers, es[k]) && rank(es[k].inode.ino) < bound
  }

  lemma FoundListed(layers: seq<Layer>, ino: Ino)
    requires NonEmpty(layers) && FindInode(layers, ino).Ok?
    ensures exists l :: Listed(layers, l, FindInode(layers, ino).value)
  {
    FoundInLayers(layers, ino);
    var l :| l in layers && FindInode(layers, ino).value in l;
    assert Listed(layers, l, FindInode(layers, ino).value);
  }

  lemma KidsFall(layers: seq<Layer>, rank: Ino -> nat, e: Entry)
    requires NonEmpty(layers) && Acyclic(layers, rank) && InImage(layers, e)
    ensures RankedBelow(layers, rank, Kids(layers, e), rank(e.inode.ino))
  {
    var l :| Listed(layers, l, e.inode);
    assert Falls(layers, rank, e.inode);
    var kids := Kids(layers, e);
    forall k | 0 <= k < |kids| ensures InImage(layers, kids[k]) && rank(kids[k].inode.ino) < rank(e.inode.ino) {
      FoundListed(layers, EntriesOf(e.inode)[k].ino);
    }
  }

  /** The entry and everything below it, depth first. */
  ghost function Unfold(layers: seq<Layer>, rank: Ino -> nat, e: Entry): seq<Entry>
    requires NonEmpty(layers) && Acyclic(layers, rank) && InImage(layers, e)
    decreases rank(e.inode.ino), 1, 0
  {
    KidsFall(layers, rank, e);
    [e] + UnfoldAll(layers, rank, Kids(layers, e), rank(e.inode.ino))
  }

  ghost function UnfoldAll(layers: seq<Layer>, rank: Ino -> nat, es: seq<Entry>, bound: nat): seq<Entry>
    requires NonEmpty(layers) && Acyclic(layers, rank) && RankedBelow(layers, rank, es, bound)
    decreases bound, 0, |es|
  {
    if es == [] then [] else UnfoldAll(layers, rank, Init(es), bound) + Unfold(layers, rank, Last(es))
  }

  lemma {:induction false} AnyBound(layers: seq<Layer>, rank: Ino -> nat, es: seq<Entry>, a: nat, b: nat)
    requires NonEmpty(layers) && Acyclic(layers, rank) && RankedBelow(layers, rank, es, a) && RankedBelow(layers, rank, es, b)
    ensures UnfoldAll(layers, rank, es, a) == UnfoldAll(layers, rank, es, b)
  {
    if es != [] {
      AnyBound(layers, rank, Init(es), a, b);
    }
  }

  lemma {:induction false} UnfoldAppend(layers: seq<Layer>, rank: Ino -> nat, a: seq<Entry>, b: seq<Entry>, bound: nat)
    requires NonEmpty(layers) && Acyclic(layers, rank) && RankedBelow(layers, rank, a, bound)
    requires RankedBelow(layers, rank, b, bound)
    ensures RankedBelow(layers, rank, a + b, bound)
    ensures UnfoldAll(layers, rank, a + b, bound) == UnfoldAll(layers, rank, a, bound) + UnfoldAll(layers, rank, b, bound)
  {
    if b == [] {
      assert a + b == a;
    } else {
      InitAppend(a, b);
      UnfoldAppend(layers, rank, a, Init(b), bound);
      Regroup(UnfoldAll(layers, rank, a, bound), UnfoldAll(layers, rank, Init(b), bound), Unfold(layers, rank, Last(b)));
    }
  }

  /** Taking the first entry off the queue and queueing what is in it takes just that entry off what is to come. */
  lemma StepUnfolds(layers: seq<Layer>, rank: Ino -> nat, q: seq<Entry>, bound: nat)
    requires NonEmpty(layers) && Acyclic(layers, rank) && RankedBelow(layers, rank, q, bound) && q != []
    ensures RankedBelow(layers, rank, q[1..] + Kids(layers, q[0]), bound)
    ensures multiset(UnfoldAll(layers, rank, q, bound)) ==
            multiset{q[0]} + multiset(UnfoldAll(layers, rank, q[1..] + Kids(layers, q[0]), bound))
  {
    var e, rest, kids := q[0], q[1..], Kids(layers, q[0]);
    KidsFall(layers, rank, e);
    assert q == [e] + rest;
    assert RankedBelow(layers, rank, [e], bound) && RankedBelow(layers, rank, rest, bound) && RankedBelow(layers, rank, kids, bound);
    UnfoldAppend(layers, rank, [e], rest, bound);
    UnfoldAppend(layers, rank, rest, kids, bound);
    AnyBound(layers, rank, kids, rank(e.inode.ino), bound);
    OneUnfolds(layers, rank, e, bound);
  }

  lemma OneUnfolds(layers: seq<Layer>, rank: Ino -> nat, e: Entry, bound: nat)
    requires NonEmpty(layers) && Acyclic(layers, rank) && RankedBelow(layers, rank, [e], bound) && InImage(layers, e)
    ensures UnfoldAll(layers, rank, [e], bound) == Unfold(layers, rank, e)
  {
    assert Init([e]) == [] && Last([e]) == e;
  }

  /** Every directory met can be listed: none has a whiteout. */
  ghost predicate AllListable(layers: seq<Layer>, es: seq<Entry>)
    requires NonEmpty(layers)
  {
    forall e | e in es :: Findable(layers, EntriesOf(e.inode))
  }

  lemma ListableByMembers(layers: seq<Layer>, a: seq<Entry>, b: seq<Entry>, whole: seq<Entry>)
    requires NonEmpty(layers) && multiset(whole) == multiset(a) + multiset(b) && AllListable(layers, a)
    ensures AllListable(layers, whole) <==> AllListable(layers, b)
  {
    forall e ensures e in whole <==> e in a || e in b {
      assert e in multiset(whole) <==> e in multiset(a) || e in multiset(b);
    }
  }

  lemma RootUnfolds(layers: seq<Layer>, rank: Ino -> nat, root: Inode, bound: nat)
    requires NonEmpty(layers) && Acyclic(layers, rank) && FindInode(layers, 1) == Ok(root) && bound == rank(root.ino) + 1
    ensures InImage(layers, Entry([], root)) && RankedBelow(layers, rank, [Entry([], root)], bound)
    ensures UnfoldAll(layers, rank, [Entry([], root)], bound) == Unfold(layers, rank, Entry([], root))
  {
    FoundListed(layers, 1);
    OneUnfolds(layers, rank, Entry([], root), bound);
  }

  /**
   * The walk over any image without cycles.  It terminates; it fails exactly when "/" cannot be found or
   * some directory lists a whiteout; otherwise it yields every entry of the unfolding, as often as it is there.
   */
  method WalkAcyclic(layers: seq<Layer>, ghost rank: Ino -> nat) returns (r: Result<seq<Entry>>)
    requires NonEmpty(layers) && Acyclic(layers, rank)
    ensures FindInode(layers, 1).Err? ==> r.Err?
    ensures FindInode(layers, 1).Ok? ==>
              var root := Entry([], FindInode(layers, 1).value);
              && InImage(layers, root)
              && (r.Ok? <==> AllListable(layers, Unfold(layers, rank, root)))
              && (r.Ok? ==> multiset(r.value) == multiset(Unfold(layers, rank, root)))
  {
    var start := Walker.Start(layers);
    if start.Err? {
      return Err(start.error);
    }
    var walker := start.value;
    ghost var root := walker.q[0];
    ghost var bound := rank(root.inode.ino) + 1;
    RootUnfolds(layers, rank, root.inode, bound);
    ghost var whole := Unfold(layers, rank, root);
    var out: seq<Entry> := [];
    while true
      invariant walker.layers == layers && RankedBelow(layers, rank, walker.q, bound) && AllListable(layers, out)
      invariant multiset(whole) == multiset(out) + multiset(UnfoldAll(layers, rank, walker.q, bound))
      decreases |UnfoldAll(layers, rank, walker.q, bound)|
    {
      ghost var q := walker.q;
      var next := walker.Next();
      if next.None? {
        ListableByMembers(layers, out, [], whole);
        return Ok(out);
      }
      StepUnfolds(layers, rank, q, bound);
      ListableByMembers(layers, out, UnfoldAll(layers, rank, q, bound), whole);
      FirstIsMet(layers, rank, q, bound);
      if next.value.Err? {
        return Err(next.value.error);
      }
      assert Kids(layers, q[0]) == Below(layers, q[0].path, EntriesOf(q[0].inode));
      Shorter(UnfoldAll(layers, rank, q, bound), q[0], UnfoldAll(layers, rank, walker.q, bound));
      out := out + [next.value.value];
    }
  }

  lemma Shorter<T>(a: seq<T>, x: T, b: seq<T>)
    requires multiset(a) == multiset{x} + multiset(b)
    ensures |b| < |a|
  {
    assert |multiset(a)| == |a| && |multiset(b)| == |b|;
  }

  lemma FirstIsMet(layers: seq<Layer>, rank: Ino -> nat, q: seq<Entry>, bound: nat)
    requires NonEmpty(layers) && Acyclic(layers, rank) && RankedBelow(layers, rank, q, bound) && q != []
    ensures q[0] in UnfoldAll(layers, rank, q, bound)
  {
    StepUnfolds(layers, rank, q, bound);
    assert q[0] in multiset(UnfoldAll(layers, rank, q, bound));
  }
}
