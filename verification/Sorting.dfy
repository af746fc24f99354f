/** Sorting inodes by number, and why the result does not depend on the order they arrive in. */
module Sorting {
  import opened Types
  import opened Seqs
  import opened Layers

  /** How many inodes of a sorted list stay before x: those whose number is not larger. */
  function Place(s: seq<Inode>, x: Inode): (k: nat)
    requires Sorted(s)
    ensures k <= |s|
    ensures forall i | 0 <= i < |s| :: if i < k then s[i].ino <= x.ino else s[i].ino > x.ino
  {
    if s == [] then 0 else if Last(s).ino <= x.ino then |s| else Place(Init(s), x)
  }

  function InsertByIno(s: seq<Inode>, x: Inode): (r: seq<Inode>)
    requires Sorted(s)
    ensures Sorted(r) && multiset(r) == multiset(s) + multiset{x}
  {
    var k := Place(s, x);
    assert multiset(s) == multiset(s[..k]) + multiset(s[k..]) by {
      assert s == s[..k] + s[k..];
    }
    s[..k] + [x] + s[k..]
  }

  /** The stable sort by inode number. */
  function SortByIno(s: seq<Inode>): (r: seq<Inode>)
    ensures Sorted(r) && multiset(r) == multiset(s) && |r| == |s|
  {
    if s == [] then [] else
    assert s == Init(s) + [Last(s)];
    var r := InsertByIno(SortByIno(Init(s)), Last(s));
    assert |r| == |multiset(r)|;
    r
  }

  lemma SameMembers(a: seq<Inode>, b: seq<Inode>)
    requires multiset(a) == multiset(b)
    ensures forall x :: x in a <==> x in b
  {
    forall x ensures x in a <==> x in b {
      assert x in a <==> x in multiset(a);
      assert x in b <==> x in multiset(b);
    }
  }

  lemma SameLast(a: seq<Inode>, b: seq<Inode>)
    requires Sorted(a) && Sorted(b) && multiset(a) == multiset(b) && Functional(a) && a != [] && b != []
    ensures Last(a) == Last(b)
  {
    SameMembers(a, b);
    assert Last(a) in b && Last(b) in a;
    var i :| 0 <= i < |b| && b[i] == Last(a);
    var j :| 0 <= j < |a| && a[j] == Last(b);
  }

  lemma WithoutLast(s: seq<Inode>)
    requires s != []
    ensures multiset(Init(s)) == multiset(s) - multiset{Last(s)}
    ensures Sorted(s) ==> Sorted(Init(s))
    ensures Functional(s) ==> Functional(Init(s))
  {
    assert s == Init(s) + [Last(s)];
    assert forall x | x in Init(s) :: x in s;
  }

  /** If one number stands for one inode, there is only one way to sort. */
  lemma {:induction false} SortedUnique(a: seq<Inode>, b: seq<Inode>)
    requires Sorted(a) && Sorted(b) && multiset(a) == multiset(b) && Functional(a)
    ensures a == b
  {
    SameLength(a, b);
    if a != [] {
      SameLast(a, b);
      WithoutLast(a);
      WithoutLast(b);
      SortedUnique(Init(a), Init(b));
      Rejoin(a);
      Rejoin(b);
    }
  }

  lemma SameLength(a: seq<Inode>, b: seq<Inode>)
    requires multiset(a) == multiset(b)
    ensures |a| == |b|
  {
    assert |multiset(a)| == |a| && |multiset(b)| == |b|;
  }
}
