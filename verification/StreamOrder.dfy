/** The order of the file stream, and where in it every file lies, by the order of visits. */
module StreamOrder {
  import opened Types
  import opened Seqs
  import opened HostTree
  import opened Store
  import opened Chunks
  import opened Plans
  import opened View
  import opened FreshNumbers
  import opened Display
  import opened ShownWalk

  /** Position k of the order of visits is the first path of a file. */
  ghost predicate NewFileAt(t: Tree, k: nat) {
    FirstVisit(t, k) && Visits(t)[k] in t && t[Visits(t)[k]].HFile?
  }

  /** The files met in the first n visits, one after the other, each host inode once. */
  ghost function StreamTo(t: Tree, n: nat): Bytes
    requires n <= |Visits(t)|
  {
    if n == 0 then []
    else StreamTo(t, n - 1) + if NewFileAt(t, n - 1) then t[Visits(t)[n - 1]].content else []
  }

  lemma SeenBefore(t: Tree, vs: seq<Path>, p: Path)
    requires (forall q | q in vs :: q in t) && p in t
    ensures Seen(t, Firsts(t, vs), p) <==> exists k :: 0 <= k < |vs| && SameInode(t, vs[k], p)
  {
    if k :| 0 <= k < |vs| && SameInode(t, vs[k], p) {
      FirstsCover(t, vs, vs[k]);
      var r :| r in Firsts(t, vs) && SameInode(t, vs[k], r);
      assert SameInode(t, p, r);
    }
  }

  /** The files among the first n visits. */
  ghost function FilesTo(t: Tree, n: nat): seq<Path>
    requires n <= |Visits(t)|
  {
    FilesIn(t, Firsts(t, Visits(t)[..n]))
  }

  lemma FilesStep(t: Tree, n: nat, m: nat)
    requires n < |Visits(t)| && m == n + 1
    ensures FilesTo(t, m) == FilesTo(t, n) + if NewFileAt(t, n) then [Visits(t)[n]] else []
  {
    var vs := Visits(t);
    assert Init(vs[..m]) == vs[..n] && Last(vs[..m]) == vs[n] && vs[n] in vs;
    SeenBefore(t, vs[..n], vs[n]);
    assert FirstVisit(t, n) <==> !Seen(t, Firsts(t, vs[..n]), vs[n]);
  }

  /** The stream is what the files met in all visits make up. */
  lemma {:induction false} StreamMet(t: Tree, n: nat)
    requires n <= |Visits(t)|
    ensures forall p | p in FilesTo(t, n) :: p in t && t[p].HFile?
    ensures Flatten(ContentsAt(t, FilesTo(t, n))) == StreamTo(t, n)
  {
    if n > 0 {
      StreamMet(t, n - 1);
      FilesStep(t, n - 1, n);
      if NewFileAt(t, n - 1) {
        StreamSnoc(t, FilesTo(t, n));
        InitAppend(FilesTo(t, n - 1), [Visits(t)[n - 1]]);
      } else {
        assert FilesTo(t, n) == FilesTo(t, n - 1);
      }
    }
  }

  lemma {:induction false} StartMet(t: Tree, n: nat, i: nat, p: Path)
    requires i < n <= |Visits(t)| && NewFileAt(t, i) && p == Visits(t)[i]
    requires forall p | p in FilesTo(t, n) :: p in t && t[p].HFile?
    ensures StartOf(t, FilesTo(t, n), t[p].hino) == |StreamTo(t, i)|
  {
    var k := n - 1;
    FilesStep(t, k, n);
    StreamMet(t, k);
    if NewFileAt(t, k) {
      InitAppend(FilesTo(t, k), [Visits(t)[k]]);
      assert FilesTo(t, n) != [] && Init(FilesTo(t, n)) == FilesTo(t, k);
      if k > i {
        assert !SameInode(t, p, Visits(t)[k]);
        StartMet(t, k, i, p);
      }
    } else {
      assert FilesTo(t, n) == FilesTo(t, k);
      StartMet(t, k, i, p);
    }
  }

  /** The stream a build cuts into chunks is the files in the order in which they are first visited. */
  lemma StreamInOrder(t: Tree)
    requires ValidTree(t)
    ensures Stream(t) == StreamTo(t, |Visits(t)|)
  {
    TakeAll(Visits(t));
    StreamMet(t, |Visits(t)|);
  }

  /** A file starts in it right after those visited before it. */
  lemma FileStarts(t: Tree, i: nat, p: Path)
    requires ValidTree(t) && NewFileAt(t, i) && p == Visits(t)[i]
    ensures StartOf(t, FilePaths(t), t[p].hino) == |StreamTo(t, i)|
  {
    TakeAll(Visits(t));
    StreamMet(t, |Visits(t)|);
    StartMet(t, |Visits(t)|, i, p);
  }

  /** So the pieces of a file in the image that was built are those of the chunked stream in that place. */
  lemma PiecesInOrder(env: Env, layers: seq<Layer>, t: Tree, plan: Plan, i: nat, p: Path)
    requires Shows(env, layers, t, plan) && NewFileAt(t, i) && p == Visits(t)[i]
    ensures Resolves(layers, p)
    ensures var start := |StreamTo(t, i)|;
            InodeAt(layers, p).mode ==
            File(Window(Refs(env, env.cut(StreamTo(t, |Visits(t)|))), start, start + |t[p].content|))
  {
    StreamInOrder(t);
    FileStarts(t, i, p);
    ShownInode(env, layers, t, plan, p);
  }
}
