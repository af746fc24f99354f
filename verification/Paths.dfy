/**
 * The byte-wise order on file names, the component-wise lexicographic order on paths, and
 * the enumeration of a set of paths in that order.  Directory listings are sorted by name;
 * a pre-order walk with sorted siblings visits paths in exactly the lexicographic order.
 */
module Paths {
  import opened Types
  import opened Seqs

  predicate NameLe(a: Name, b: Name) {
    a == [] || (b != [] && (a[0] < b[0] || (a[0] == b[0] && NameLe(a[1..], b[1..]))))
  }

  predicate PathLe(a: Path, b: Path) {
    || a == []
    || (b != [] && if a[0] == b[0] then PathLe(a[1..], b[1..]) else NameLe(a[0], b[0]))
  }

  /** The names agree before position k and a has the smaller byte there. */
  predicate SmallerAt(a: Name, b: Name, k: nat) {
    k < |a| && k < |b| && a[..k] == b[..k] && a[k] < b[k]
  }

  /** The paths agree before position k and a has the component there that comes first in byte order. */
  predicate EarlierAt(a: Path, b: Path, k: nat) {
    k < |a| && k < |b| && a[..k] == b[..k] && a[k] != b[k] && NameLe(a[k], b[k])
  }

  lemma AgreeLater<T>(a: seq<T>, b: seq<T>, k: nat)
    requires a != [] && b != [] && k < |a| && k < |b|
    ensures k > 0 ==> (a[..k] == b[..k] <==> a[0] == b[0] && a[1..][..k - 1] == b[1..][..k - 1])
    ensures a <= b <==> a[0] == b[0] && a[1..] <= b[1..]
  {
    assert a == [a[0]] + a[1..] && b == [b[0]] + b[1..];
    if k > 0 {
      assert a[..k] == [a[0]] + a[1..][..k - 1] && b[..k] == [b[0]] + b[1..][..k - 1];
    }
  }

  /** Byte order: a prefix comes first, otherwise the first byte that differs decides. */
  lemma {:induction false} NameLeIff(a: Name, b: Name)
    ensures NameLe(a, b) <==> a <= b || exists k: nat :: SmallerAt(a, b, k)
  {
    if a != [] && b != [] {
      var a', b' := a[1..], b[1..];
      AgreeLater(a, b, 0);
      forall k: nat | 0 < k < |a| && k < |b| ensures SmallerAt(a, b, k) <==> a[0] == b[0] && SmallerAt(a', b', k - 1) {
        AgreeLater(a, b, k);
      }
      if a[0] == b[0] {
        NameLeIff(a', b');
        if k: nat :| SmallerAt(a', b', k) {
          assert SmallerAt(a, b, k + 1);
        }
      } else if a[0] < b[0] {
        assert SmallerAt(a, b, 0);
      }
    }
  }

  /** Path order: a parent comes first, otherwise the first component that differs decides. */
  lemma {:induction false} PathLeIff(a: Path, b: Path)
    ensures PathLe(a, b) <==> a <= b || exists k: nat :: EarlierAt(a, b, k)
  {
    if a != [] && b != [] {
      var a', b' := a[1..], b[1..];
      AgreeLater(a, b, 0);
      forall k: nat | 0 < k < |a| && k < |b| ensures EarlierAt(a, b, k) <==> a[0] == b[0] && EarlierAt(a', b', k - 1) {
        AgreeLater(a, b, k);
      }
      if a[0] == b[0] {
        PathLeIff(a', b');
        if k: nat :| EarlierAt(a', b', k) {
          assert EarlierAt(a, b, k + 1);
        }
      } else if NameLe(a[0], b[0]) {
        assert EarlierAt(a, b, 0);
      }
    }
  }

  lemma {:induction false} NameTotal(a: Name, b: Name)
    ensures NameLe(a, b) || NameLe(b, a)
    ensures NameLe(a, b) && NameLe(b, a) ==> a == b
  {
    if a != [] && b != [] {
      NameTotal(a[1..], b[1..]);
    }
  }

  lemma {:induction false} NameTrans(a: Name, b: Name, c: Name)
    requires NameLe(a, b) && NameLe(b, c)
    ensures NameLe(a, c)
  {
    if a != [] && a[0] == b[0] == c[0] {
      NameTrans(a[1..], b[1..], c[1..]);
    }
  }

  lemma {:induction false} PathTotal(a: Path, b: Path)
    ensures PathLe(a, b) || PathLe(b, a)
    ensures PathLe(a, b) && PathLe(b, a) ==> a == b
  {
    if a != [] && b != [] {
      NameTotal(a[0], b[0]);
      PathTotal(a[1..], b[1..]);
    }
  }

  lemma {:induction false} PathTrans(a: Path, b: Path, c: Path)
    requires PathLe(a, b) && PathLe(b, c)
    ensures PathLe(a, c)
  {
    if a != [] {
      if a[0] == b[0] == c[0] {
        PathTrans(a[1..], b[1..], c[1..]);
      } else {
        NameTotal(a[0], b[0]);
        NameTotal(b[0], c[0]);
        if a[0] != b[0] && b[0] != c[0] {
          NameTrans(a[0], b[0], c[0]);
        }
      }
    }
  }

  lemma {:induction false} PrefixLe(a: Path, b: Path)
    requires a <= b
    ensures PathLe(a, b)
  {
    if a != [] {
      assert a[0] == b[0];
      PrefixLe(a[1..], b[1..]);
    }
  }

  ghost predicate SortedPaths(s: seq<Path>) {
    forall i, j | 0 <= i < j < |s| :: PathLe(s[i], s[j])
  }

  lemma {:induction false} LeastExists(S: set<Path>) returns (m: Path)
    requires S != {}
    ensures m in S && forall x | x in S :: PathLe(m, x)
    decreases |S|
  {
    var x :| x in S;
    if S == {x} {
      PathTotal(x, x);
      m := x;
    } else {
      var R := S - {x};
      assert S == R + {x};
      var r := LeastExists(R);
      PathTotal(x, r);
      if PathLe(x, r) {
        PathTotal(x, x);
        forall y | y in S ensures PathLe(x, y) {
          if y != x {
            assert y in R;
            PathTrans(x, r, y);
          }
        }
        m := x;
      } else {
        forall y | y in S ensures PathLe(r, y) {
          if y != x {
            assert y in R;
          }
        }
        m := r;
      }
    }
  }

  ghost function Least(S: set<Path>): (m: Path)
    requires S != {}
    ensures m in S && forall x | x in S :: PathLe(m, x)
  {
    assert exists m :: m in S && forall x | x in S :: PathLe(m, x) by {
      var w := LeastExists(S);
    }
    var m :| m in S && forall x | x in S :: PathLe(m, x);
    m
  }

  /** The elements of S in lexicographic order. */
  ghost function SortPaths(S: set<Path>): (s: seq<Path>)
    ensures forall x :: x in s <==> x in S
    decreases |S|
  {
    if S == {} then [] else
    var m := Least(S);
    [m] + SortPaths(S - {m})
  }

  lemma {:induction false} SortIsSorted(S: set<Path>)
    ensures SortedPaths(SortPaths(S)) && NoDups(SortPaths(S)) && |SortPaths(S)| == |S|
    decreases |S|
  {
    if S != {} {
      var m := Least(S);
      SortIsSorted(S - {m});
      var rest := SortPaths(S - {m});
      forall j | 0 <= j < |rest| ensures PathLe(m, rest[j]) && m != rest[j] {
        assert rest[j] in rest;
      }
    }
  }

  /** There is only one sorted duplicate-free enumeration. */
  lemma {:induction false} SortUnique(s: seq<Path>, S: set<Path>)
    requires SortedPaths(s) && NoDups(s)
    requires forall x :: x in s <==> x in S
    ensures s == SortPaths(S)
    decreases |s|
  {
    if s == [] {
      assert forall x :: x !in S;
    } else {
      assert s[0] in S;
      var m := Least(S);
      assert m in s;
      PathTotal(s[0], m);
      assert s[0] == m by {
        var k :| 0 <= k < |s| && s[k] == m;
      }
      forall x ensures x in s[1..] <==> x in S - {m} {
        if x in s[1..] {
          assert x in s;
        }
        if x in S - {m} {
          assert x in s && x != s[0];
        }
      }
      SortUnique(s[1..], S - {m});
    }
  }

  /**
   * Reading a directory yields its names in any order; the entries are then sorted.  Whatever
   * the order of arrival, the result is the one sorted enumeration.
   */
  method ListSorted(S: set<Path>) returns (s: seq<Path>)
    ensures s == SortPaths(S)
  {
    s := [];
    var rest := S;
    while rest != {}
      invariant rest <= S
      invariant SortedPaths(s) && NoDups(s)
      invariant forall x :: x in s <==> x in S - rest
      decreases |rest|
    {
      var x :| x in rest;
      s := Insert(s, x);
      rest := rest - {x};
    }
    SortUnique(s, S);
  }

  method Insert(s: seq<Path>, x: Path) returns (r: seq<Path>)
    requires SortedPaths(s) && NoDups(s) && x !in s
    ensures SortedPaths(r) && NoDups(r)
    ensures forall y :: y in r <==> y in s || y == x
  {
    var i := 0;
    while i < |s| && PathLe(s[i], x)
      invariant 0 <= i <= |s|
      invariant forall k | 0 <= k < i :: PathLe(s[k], x)
    {
      i := i + 1;
    }
    r := s[..i] + [x] + s[i..];
    if i < |s| {
      PathTotal(s[i], x);
      forall k | i <= k < |s| ensures PathLe(x, s[k]) {
        if k > i {
          PathTrans(x, s[i], s[k]);
        }
      }
    }
    assert forall k | 0 <= k < |r| :: r[k] == if k < i then s[k] else if k == i then x else s[k - 1];
  }

  /**
   * Lexicographic order is pre-order: whatever is listed between a directory and one of its
   * descendants is itself a descendant of that directory.
   */
  lemma {:induction false} DescendantsContiguous(d: Path, p: Path, e: Path)
    requires PathLe(d, p) && PathLe(p, e) && d <= e
    ensures d <= p
  {
    if d != [] {
      assert d[0] == e[0];
      NameTotal(d[0], p[0]);
      DescendantsContiguous(d[1..], p[1..], e[1..]);
      assert d == [d[0]] + d[1..] && p == [p[0]] + p[1..];
    }
  }
}
