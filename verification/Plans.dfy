/**
 * What a build renders, stated without its loops: which inode number every host inode gets,
 * which entries every directory drops, and the layer that follows from that.
 */
module Plans {
  import opened Types
  import opened Seqs
  import opened HostTree
  import opened Layers
  import opened Resolution
  import opened Sorting
  import opened Store
  import opened Chunks

  /** The image a delta is built against, if any. */
  type Base = Option<seq<Layer>>

  predicate Usable(ex: Base) {
    ex.Some? ==> NonEmpty(ex.value)
  }

  function LookupExisting(ex: Base, p: Path): Result<Option<Inode>>
    requires Usable(ex)
  {
    if ex.None? then Ok(None) else Lookup(ex.value, p)
  }

  function BaseIno(ex: Base, p: Path): Option<Ino>
    requires Usable(ex)
  {
    match LookupExisting(ex, p)
    case Ok(Some(i)) => Some(i.ino)
    case _ => None
  }

  function BaseEntries(ex: Base, p: Path): seq<DirEnt>
    requires Usable(ex)
  {
    match LookupExisting(ex, p)
    case Ok(Some(i)) => if i.mode.Dir? then i.mode.entries else []
    case _ => []
  }

  function FirstFree(ex: Base): Ino
    requires Usable(ex)
  {
    if ex.None? then 2 else MaxIno(ex.value) + 1
  }

  /** No path of the tree leads through an entry the base has whited out. */
  ghost predicate Buildable(ex: Base, t: Tree)
    requires Usable(ex)
  {
    forall p | p in t :: LookupExisting(ex, p).Ok?
  }

  // Numbering.

  datatype Numbering = Numbering(inos: map<HostIno, Ino>, next: Ino)

  /** Visiting a path: it is offered its old number or a fresh one, and takes it unless it is a known hard link. */
  function Number(ex: Base, t: Tree, n: Numbering, p: Path): Numbering
    requires Usable(ex) && p in t
  {
    var cur := match BaseIno(ex, p) case Some(i) => i case None => n.next;
    var next := if BaseIno(ex, p).None? then n.next + 1 else n.next;
    if t[p].hino in n.inos then Numbering(n.inos, next)
    else Numbering(n.inos[t[p].hino := cur], next)
  }

  ghost function NumberAll(ex: Base, t: Tree, vs: seq<Path>): Numbering
    requires Usable(ex) && forall p | p in vs :: p in t
  {
    if vs == [] then Numbering(map[], FirstFree(ex))
    else Number(ex, t, NumberAll(ex, t, Init(vs)), Last(vs))
  }

  /** The entries of a base directory that are gone from directory d of the tree. */
  function Dropped(t: Tree, d: Path, entries: seq<DirEnt>): (r: seq<DirEnt>)
    ensures forall e :: e in r <==> e in entries && d + [e.name] !in t
  {
    if entries == [] then [] else
    var r := Dropped(t, d, Init(entries));
    assert forall e :: e in entries <==> e in Init(entries) || e == Last(entries);
    if d + [Last(entries).name] in t then r else r + [Last(entries)]
  }

  // Plans.

  datatype Plan = Plan(alloc: map<HostIno, Ino>, whites: map<Path, seq<DirEnt>>)

  ghost function PlanOf(ex: Base, t: Tree): Plan
    requires Usable(ex) && ValidTree(t)
  {
    Plan(NumberAll(ex, t, Visits(t)).inos[t[[]].hino := 1],
         map d | d in DirSet(t) :: Dropped(t, d, BaseEntries(ex, d)))
  }

  ghost function Hinos(t: Tree): set<HostIno> {
    set p | p in t :: t[p].hino
  }

  /** A plan that covers exactly the tree, numbers the root 1 and drops only names that are gone. */
  ghost predicate Shape(t: Tree, plan: Plan) {
    && [] in t
    && plan.alloc.Keys == Hinos(t)
    && plan.alloc[t[[]].hino] == 1
    && plan.whites.Keys == DirSet(t)
    && forall d, e | d in plan.whites && e in plan.whites[d] :: d + [e.name] !in t
  }

  ghost function WhiteInos(plan: Plan): set<Ino> {
    set d, e | d in plan.whites && e in plan.whites[d] :: e.ino
  }

  /** No number stands for two live inodes, or for a live one and a dropped one. */
  ghost predicate Distinct(plan: Plan) {
    && (forall h, k | h in plan.alloc && k in plan.alloc && plan.alloc[h] == plan.alloc[k] :: h == k)
    && forall h | h in plan.alloc :: plan.alloc[h] !in WhiteInos(plan)
  }

  lemma ShapeHas(t: Tree, plan: Plan, p: Path)
    requires Shape(t, plan) && p in t
    ensures t[p].hino in plan.alloc
    ensures t[p].HDir? ==> p in plan.whites
  {
    assert t[p].hino in Hinos(t);
  }

  // Rendering.

  ghost function FilePaths(t: Tree): seq<Path>
    requires ValidTree(t)
  {
    FilesIn(t, Firsts(t, Visits(t)))
  }

  ghost function OtherPaths(t: Tree): seq<Path>
    requires ValidTree(t)
  {
    OthersIn(t, Firsts(t, Visits(t)))
  }

  lemma ListsApart(t: Tree)
    requires ValidTree(t)
    ensures Apart(t, DirOrder(t)) && Apart(t, FilePaths(t)) && Apart(t, OtherPaths(t))
  {
    DirsApart(t);
    VisitsComplete(t);
    var fs := Firsts(t, Visits(t));
    forall i, j | 0 <= i < j < |fs| ensures !SameInode(t, fs[i], fs[j]) {
      FirstsDiffer(t, Visits(t), i, j);
    }
    FirstsApart(t, fs);
  }

  function ContentsAt(t: Tree, fs: seq<Path>): (cs: seq<Bytes>)
    requires forall p | p in fs :: p in t && t[p].HFile?
    ensures |cs| == |fs| && forall i | 0 <= i < |fs| :: cs[i] == t[fs[i]].content
  {
    seq(|fs|, i requires 0 <= i < |fs| => assert fs[i] in fs; t[fs[i]].content)
  }

  /** The concatenation of all files, each host inode once. */
  ghost function Stream(t: Tree): Bytes
    requires ValidTree(t)
  {
    Flatten(ContentsAt(t, FilePaths(t)))
  }

  /** Where the file with host inode h starts in the stream of the files fs. */
  ghost function StartOf(t: Tree, fs: seq<Path>, h: HostIno): nat
    requires forall p | p in fs :: p in t && t[p].HFile?
  {
    if fs == [] then 0
    else if t[Last(fs)].hino == h then |Flatten(ContentsAt(t, Init(fs)))|
    else StartOf(t, Init(fs), h)
  }

  /** The pieces of the chunked stream that make up the len bytes from start on. */
  function ChunksAt(env: Env, stream: Bytes, start: nat, len: nat): seq<FileChunk> {
    Window(Refs(env, env.cut(stream)), start, start + len)
  }

  ghost function ChunksFor(env: Env, t: Tree, h: HostIno, len: nat): seq<FileChunk>
    requires ValidTree(t)
  {
    ChunksAt(env, Stream(t), StartOf(t, FilePaths(t), h), len)
  }

  ghost predicate Listed(t: Tree, alloc: map<HostIno, Ino>, ps: seq<Path>) {
    forall i | 0 <= i < |ps| :: ps[i] in t && ps[i] != [] && t[ps[i]].hino in alloc
  }

  ghost function LiveEntries(t: Tree, alloc: map<HostIno, Ino>, ps: seq<Path>): (es: seq<DirEnt>)
    requires Listed(t, alloc, ps)
  {
    if ps == [] then [] else LiveEntries(t, alloc, Init(ps)) + [DirEnt(alloc[t[Last(ps)].hino], Last(Last(ps)))]
  }

  function OtherMode(kind: OtherKind): InodeMode {
    match kind
    case FifoKind => Fifo
    case ChrKind(major, minor) => Chr(major, minor)
    case BlkKind(major, minor) => Blk(major, minor)
    case LnkKind => Lnk
    case SockKind => Sock
    case UnknownKind => Unknown
  }

  ghost predicate Covers(t: Tree, plan: Plan) {
    ValidTree(t) && Shape(t, plan)
  }

  lemma ListingListed(t: Tree, plan: Plan, d: Path)
    requires Covers(t, plan)
    ensures Listed(t, plan.alloc, Listing(t, d))
  {
    var ls := Listing(t, d);
    forall i | 0 <= i < |ls| ensures ls[i] in t && ls[i] != [] && t[ls[i]].hino in plan.alloc {
      assert ls[i] in ls;
      ShapeHas(t, plan, ls[i]);
    }
  }

  ghost function DirEntries(t: Tree, plan: Plan, d: Path): seq<DirEnt>
    requires Covers(t, plan) && d in t && t[d].HDir?
  {
    ListingListed(t, plan, d);
    plan.whites[d] + LiveEntries(t, plan.alloc, Listing(t, d))
  }

  ghost function Render(env: Env, t: Tree, plan: Plan, p: Path): Inode
    requires Covers(t, plan) && p in t
  {
    ShapeHas(t, plan, p);
    var mode := match t[p]
      case HDir(_, _) => Dir(false, DirEntries(t, plan, p))
      case HFile(h, _, c) => File(ChunksFor(env, t, h, |c|))
      case HOther(_, _, k) => OtherMode(k);
    Inode(plan.alloc[t[p].hino], mode, t[p].meta)
  }

  ghost function RenderAll(env: Env, t: Tree, plan: Plan, ps: seq<Path>): seq<Inode>
    requires Covers(t, plan) && forall p | p in ps :: p in t
  {
    if ps == [] then [] else RenderAll(env, t, plan, Init(ps)) + [Render(env, t, plan, Last(ps))]
  }

  lemma {:induction false} RenderAllAt(env: Env, t: Tree, plan: Plan, ps: seq<Path>, i: nat)
    requires Covers(t, plan) && (forall p | p in ps :: p in t) && i < |ps|
    ensures |RenderAll(env, t, plan, ps)| == |ps| && ps[i] in t
    ensures RenderAll(env, t, plan, ps)[i] == Render(env, t, plan, ps[i])
  {
    if i < |ps| - 1 {
      RenderAllAt(env, t, plan, Init(ps), i);
    } else if i > 0 {
      RenderAllAt(env, t, plan, Init(ps), i - 1);
    }
  }

  lemma {:induction false} RenderAllHas(env: Env, t: Tree, plan: Plan, ps: seq<Path>, q: Path)
    requires Covers(t, plan) && (forall p | p in ps :: p in t) && q in ps
    ensures Render(env, t, plan, q) in RenderAll(env, t, plan, ps)
  {
    if q != Last(ps) {
      assert q in Init(ps);
      RenderAllHas(env, t, plan, Init(ps), q);
    }
  }

  lemma {:induction false} RenderAllOrigin(env: Env, t: Tree, plan: Plan, ps: seq<Path>, x: Inode) returns (q: Path)
    requires Covers(t, plan) && (forall p | p in ps :: p in t) && x in RenderAll(env, t, plan, ps)
    ensures q in ps && q in t && x == Render(env, t, plan, q)
  {
    if x in RenderAll(env, t, plan, Init(ps)) {
      q := RenderAllOrigin(env, t, plan, Init(ps), x);
    } else {
      q := Last(ps);
    }
  }

  function WhiteoutsFor(es: seq<DirEnt>): (r: seq<Inode>)
    ensures forall x :: x in r <==> exists e :: e in es && x == NewWhiteout(e.ino)
  {
    if es == [] then [] else
    assert forall e :: e in es <==> e in Init(es) || e == Last(es);
    WhiteoutsFor(Init(es)) + [NewWhiteout(Last(es).ino)]
  }

  ghost function Whiteouts(plan: Plan, ds: seq<Path>): seq<Inode>
    requires forall d | d in ds :: d in plan.whites
  {
    if ds == [] then [] else Whiteouts(plan, Init(ds)) + WhiteoutsFor(plan.whites[Last(ds)])
  }

  ghost function Unsorted(env: Env, t: Tree, plan: Plan): seq<Inode>
    requires Covers(t, plan)
  {
    Whiteouts(plan, DirOrder(t))
    + RenderAll(env, t, plan, DirOrder(t))
    + RenderAll(env, t, plan, FilePaths(t))
    + RenderAll(env, t, plan, OtherPaths(t))
  }

  /** The layer a plan stands for. */
  ghost function Assemble(env: Env, t: Tree, plan: Plan): Layer
    requires Covers(t, plan)
  {
    SortByIno(Unsorted(env, t, plan))
  }
}
