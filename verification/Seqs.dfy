/** Sequence facts shared by the proofs. */
module Seqs {

  function Init<T>(s: seq<T>): seq<T>
    requires s != []
  {
    s[..|s| - 1]
  }

  function Last<T>(s: seq<T>): T
    requires s != []
  {
    s[|s| - 1]
  }

  lemma Rejoin<T>(s: seq<T>)
    requires s != []
    ensures Init(s) + [Last(s)] == s
  {
  }

  lemma InitAppend<T>(a: seq<T>, b: seq<T>)
    requires b != []
    ensures Init(a + b) == a + Init(b) && Last(a + b) == Last(b)
  {
  }

  lemma AppendSnoc<T>(a: seq<T>, b: seq<T>, x: T)
    ensures a + (b + [x]) == (a + b) + [x]
  {
  }

  lemma Regroup<T>(a: seq<T>, b: seq<T>, c: seq<T>)
    ensures a + (b + c) == (a + b) + c
  {
  }

  lemma MoveOver<T>(a: seq<T>, b: seq<T>, n: nat)
    requires n <= |b|
    ensures a + b == (a + b[..n]) + b[n..]
  {
  }

  lemma OnlyMember<T>(s: seq<T>, x: T)
    requires |s| == 1
    ensures x in s <==> x == s[0]
  {
  }

  lemma SameSingle<T>(a: seq<T>, b: seq<T>)
    requires |a| == |b| == 1 && a[0] == b[0]
    ensures a == b
  {
  }

  lemma SameElements<T>(a: seq<T>, b: seq<T>)
    requires |a| == |b| && forall i | 0 <= i < |a| :: a[i] == b[i]
    ensures a == b
  {
  }

  lemma UpdatedAt<T>(a: seq<T>, b: seq<T>, k: nat)
    requires k < |a| == |b| && forall i | 0 <= i < |a| && i != k :: b[i] == a[i]
    ensures b == a[k := b[k]]
  {
  }

  lemma TakeMore<T>(s: seq<T>, k: nat)
    requires k < |s|
    ensures s[..k + 1] != [] && Init(s[..k + 1]) == s[..k] && Last(s[..k + 1]) == s[k]
  {
  }

  lemma TakeNext<T>(s: seq<T>, j: nat, k: nat)
    requires j < |s| && k == j + 1
    ensures s[..k] == s[..j] + [s[j]]
  {
  }

  lemma TakeAll<T>(s: seq<T>)
    ensures s[..|s|] == s && s[..0] == []
  {
  }

  function Min(a: int, b: int): int { if a <= b then a else b }

  function Max(a: int, b: int): int { if a <= b then b else a }

  function Flatten<T>(ss: seq<seq<T>>): seq<T> {
    if ss == [] then [] else Flatten(Init(ss)) + Last(ss)
  }

  ghost predicate NoDups<T>(s: seq<T>) {
    forall i, j | 0 <= i < j < |s| :: s[i] != s[j]
  }

  lemma {:induction false} FlattenAppend<T>(a: seq<seq<T>>, b: seq<seq<T>>)
    ensures Flatten(a + b) == Flatten(a) + Flatten(b)
  {
    if b == [] {
      assert a + b == a;
    } else {
      FlattenAppend(a, Init(b));
      assert Init(a + b) == a + Init(b) && Last(a + b) == Last(b);
    }
  }

  lemma FlattenSplit<T>(ss: seq<seq<T>>, k: nat)
    requires k < |ss|
    ensures |Flatten(ss[..k])| + |ss[k]| <= |Flatten(ss)|
    ensures Flatten(ss)[|Flatten(ss[..k])|..|Flatten(ss[..k])| + |ss[k]|] == ss[k]
    ensures Flatten(ss[..k + 1]) == Flatten(ss[..k]) + ss[k]
  {
    assert Init(ss[..k + 1]) == ss[..k];
    FlattenAppend(ss[..k + 1], ss[k + 1..]);
    assert ss[..k + 1] + ss[k + 1..] == ss;
  }

  lemma MultisetOfSplit<T>(s: seq<T>, i: nat)
    requires i < |s|
    ensures multiset(s) == multiset(s[..i] + s[i + 1..]) + multiset{s[i]}
  {
    assert s == s[..i] + [s[i]] + s[i + 1..];
  }

  lemma {:induction false} CountOnce<T>(s: seq<T>, x: T)
    requires NoDups(s)
    ensures multiset(s)[x] == if x in s then 1 else 0
  {
    if s != [] {
      CountOnce(s[1..], x);
      assert s == [s[0]] + s[1..];
    }
  }

  lemma TwiceCounts<T>(s: seq<T>, i: nat, j: nat)
    requires i < j < |s| && s[i] == s[j]
    ensures multiset(s)[s[i]] >= 2
  {
    MultisetOfSplit(s, i);
    assert (s[..i] + s[i + 1..])[j - 1] == s[j];
    assert s[j] in multiset(s[..i] + s[i + 1..]);
  }

  /** Two duplicate-free enumerations of one set hold the same elements the same number of times. */
  lemma SameSetSameMultiset<T>(a: seq<T>, b: seq<T>)
    requires NoDups(a) && NoDups(b)
    requires forall x :: x in a <==> x in b
    ensures multiset(a) == multiset(b)
  {
    forall x ensures multiset(a)[x] == multiset(b)[x] {
      CountOnce(a, x);
      CountOnce(b, x);
    }
  }

  lemma HasMember<T>(s: seq<T>)
    requires s != []
    ensures exists x :: x in s
  {
    assert s[0] in s;
  }
}
