/**
 * The directory tree an image is built from, and the order in which the builder visits it.
 * A tree maps every path to what is there; two paths with one host inode number are hard links.
 */
module HostTree {
  import opened Types
  import opened Seqs
  import opened Paths

  datatype OtherKind =
    | FifoKind
    | ChrKind(major: nat, minor: nat)
    | BlkKind(major: nat, minor: nat)
    | LnkKind
    | SockKind
    | UnknownKind

  datatype HNode =
    | HDir(hino: HostIno, meta: Meta)
    | HFile(hino: HostIno, meta: Meta, content: Bytes)
    | HOther(hino: HostIno, meta: Meta, kind: OtherKind)

  type Tree = map<Path, HNode>

  predicate SameInode(t: Tree, p: Path, q: Path) {
    p in t && q in t && t[p].hino == t[q].hino
  }

  predicate HasParent(t: Tree, p: Path) {
    p != [] && Init(p) in t && t[Init(p)].HDir?
  }

  /** The root is a directory, every parent is a directory, directories have one path, links agree. */
  ghost predicate ValidTree(t: Tree) {
    && [] in t && t[[]].HDir?
    && (forall p {:trigger HasParent(t, p)} | p in t && p != [] :: HasParent(t, p))
    && (forall p, q | SameInode(t, p, q) :: t[p] == t[q] && (t[p].HDir? ==> p == q))
  }

  lemma Parent(t: Tree, p: Path)
    requires ValidTree(t) && p in t && p != []
    ensures Init(p) in t && t[Init(p)].HDir?
  {
    assert HasParent(t, p);
  }

  function Children(t: Tree, d: Path): set<Path> {
    set p | p in t && p != [] && Init(p) == d
  }

  function DirSet(t: Tree): set<Path> {
    set p | p in t && t[p].HDir?
  }

  /** The entries of directory d, in the order the builder handles them. */
  ghost function Listing(t: Tree, d: Path): seq<Path> {
    SortPaths(Children(t, d))
  }

  /** All directories, in the order the walker yields them. */
  ghost function DirOrder(t: Tree): seq<Path> {
    SortPaths(DirSet(t))
  }

  ghost function VisitsOf(t: Tree, ds: seq<Path>): (vs: seq<Path>)
    ensures forall p | p in vs :: p in t
  {
    if ds == [] then [] else VisitsOf(t, Init(ds)) + Listing(t, Last(ds))
  }

  lemma {:induction false} VisitsOfMember(t: Tree, ds: seq<Path>, p: Path)
    ensures p in VisitsOf(t, ds) <==> p in t && p != [] && Init(p) in ds
  {
    if ds != [] {
      VisitsOfMember(t, Init(ds), p);
    }
  }

  /** Every path but "/", in the order the builder visits the directory entries. */
  ghost function Visits(t: Tree): seq<Path> {
    VisitsOf(t, DirOrder(t))
  }

  lemma VisitsComplete(t: Tree)
    requires ValidTree(t)
    ensures forall p :: p in Visits(t) <==> p in t && p != []
  {
    forall p ensures p in Visits(t) <==> p in t && p != [] {
      VisitsOfMember(t, DirOrder(t), p);
      if p in t && p != [] {
        Parent(t, p);
      }
    }
  }

  /** The walker yields a directory only after its parent. */
  lemma ParentFirst(t: Tree, i: nat) returns (j: nat)
    requires ValidTree(t) && i < |DirOrder(t)| && DirOrder(t)[i] != []
    ensures j < i && DirOrder(t)[j] == Init(DirOrder(t)[i])
  {
    var ds := DirOrder(t);
    var p := ds[i];
    assert p in ds;
    Parent(t, p);
    assert Init(p) in ds;
    j :| 0 <= j < |ds| && ds[j] == Init(p);
    PrefixLe(Init(p), p);
    SortIsSorted(DirSet(t));
    if j > i {
      PathTotal(p, Init(p));
    }
  }

  ghost predicate Seen(t: Tree, fs: seq<Path>, p: Path) {
    exists q :: q in fs && SameInode(t, p, q)
  }

  /** The first visited path of every host inode: the ones that are rendered. */
  ghost function Firsts(t: Tree, vs: seq<Path>): (fs: seq<Path>)
    requires forall p | p in vs :: p in t
    ensures forall p | p in fs :: p in vs
  {
    if vs == [] then [] else
    var fs := Firsts(t, Init(vs));
    if Seen(t, fs, Last(vs)) then fs else fs + [Last(vs)]
  }

  lemma {:induction false} FirstsCover(t: Tree, vs: seq<Path>, p: Path)
    requires (forall p | p in vs :: p in t) && p in vs
    ensures Seen(t, Firsts(t, vs), p)
  {
    var fs := Firsts(t, Init(vs));
    if p == Last(vs) {
      if !Seen(t, fs, p) {
        assert p in fs + [p] && SameInode(t, p, p);
      }
    } else {
      assert p in Init(vs);
      FirstsCover(t, Init(vs), p);
      var q :| q in fs && SameInode(t, p, q);
      assert q in Firsts(t, vs);
    }
  }

  lemma {:induction false} FirstsDiffer(t: Tree, vs: seq<Path>, i: nat, j: nat)
    requires forall p | p in vs :: p in t
    requires i < j < |Firsts(t, vs)|
    ensures !SameInode(t, Firsts(t, vs)[i], Firsts(t, vs)[j])
  {
    var fs := Firsts(t, Init(vs));
    if j < |fs| {
      FirstsDiffer(t, Init(vs), i, j);
    } else {
      assert fs[i] in fs;
    }
  }

  ghost function FilesIn(t: Tree, ps: seq<Path>): (fs: seq<Path>)
    requires forall p | p in ps :: p in t
    ensures forall p :: p in fs <==> p in ps && t[p].HFile?
  {
    if ps == [] then [] else
    var fs := FilesIn(t, Init(ps));
    if t[Last(ps)].HFile? then fs + [Last(ps)] else fs
  }

  ghost function OthersIn(t: Tree, ps: seq<Path>): (os: seq<Path>)
    requires forall p | p in ps :: p in t
    ensures forall p :: p in os <==> p in ps && t[p].HOther?
  {
    if ps == [] then [] else
    var os := OthersIn(t, Init(ps));
    if t[Last(ps)].HOther? then os + [Last(ps)] else os
  }

  /** No two of the paths are hard links of each other. */
  ghost predicate Apart(t: Tree, ps: seq<Path>) {
    forall i, j | 0 <= i < j < |ps| :: !SameInode(t, ps[i], ps[j])
  }

  lemma {:induction false} FirstsApart(t: Tree, fs: seq<Path>)
    requires Apart(t, fs) && forall p | p in fs :: p in t
    ensures Apart(t, FilesIn(t, fs)) && Apart(t, OthersIn(t, fs))
    ensures forall p | p in FilesIn(t, fs) :: p in fs
    ensures forall p | p in OthersIn(t, fs) :: p in fs
  {
    if fs != [] {
      FirstsApart(t, Init(fs));
      forall p | p in Init(fs) ensures !SameInode(t, p, Last(fs)) {
        var i :| 0 <= i < |fs| - 1 && Init(fs)[i] == p;
        assert fs[i] == p;
      }
    }
  }

  lemma DirsApart(t: Tree)
    requires ValidTree(t)
    ensures Apart(t, DirOrder(t))
  {
    var ds := DirOrder(t);
    SortIsSorted(DirSet(t));
    forall i, j | 0 <= i < j < |ds| ensures !SameInode(t, ds[i], ds[j]) {
      assert ds[i] in ds && ds[j] in ds;
    }
  }

  // Leaders.

  /** "/" and every path that is the first of its hard-link group. */
  ghost predicate Leads(t: Tree, p: Path) {
    p == [] || p in Firsts(t, Visits(t))
  }

  lemma AloneLeads(t: Tree, p: Path)
    requires ValidTree(t) && p in t && forall q | SameInode(t, p, q) :: q == p
    ensures Leads(t, p)
  {
    if p != [] {
      VisitsComplete(t);
      FirstsCover(t, Visits(t), p);
    }
  }

  /** Every path belongs to a group that some path leads. */
  lemma LeaderOf(t: Tree, p: Path) returns (q: Path)
    requires ValidTree(t) && p in t
    ensures SameInode(t, p, q) && Leads(t, q)
  {
    if p == [] {
      q := [];
    } else {
      VisitsComplete(t);
      FirstsCover(t, Visits(t), p);
      q :| q in Firsts(t, Visits(t)) && SameInode(t, p, q);
    }
  }
}
