/** How a host follows symbolic links. */
module Links {
  import opened Types
  import opened Seqs
  import opened HostTree
  import opened Resolution

  const SLASH: Byte := 47
  const DOT: Name := [46]
  const DOT_DOT: Name := [46, 46]

  /** The most links that are followed for one path. */
  const MAX_LINKS: nat := 40

  const OWNER_WRITE: Permissions := 128
  const OWNER_EXEC: Permissions := 64

  predicate HasBit(permissions: Permissions, bit: Permissions) {
    permissions & bit != 0
  }

  // Names and paths as bytes.

  /** The parts between slashes, empty ones included. */
  function Fields(s: Bytes): (fs: seq<Bytes>)
    ensures fs != []
  {
    if s == [] then [[]]
    else if Last(s) == SLASH then Fields(Init(s)) + [[]]
    else var fs := Fields(Init(s)); Init(fs) + [Last(fs) + [Last(s)]]
  }

  function Parse(name: Name): Component {
    if name == [] || name == DOT then CurDir else if name == DOT_DOT then ParentDir else Normal(name)
  }

  function ParseAll(names: seq<Name>): (cs: seq<Component>)
    ensures |cs| == |names| && forall i | 0 <= i < |names| :: cs[i] == Parse(names[i])
  {
    seq(|names|, i requires 0 <= i < |names| => Parse(names[i]))
  }

  predicate Rooted(s: Bytes) {
    s != [] && s[0] == SLASH
  }

  /** A path written out; an empty part at the end asks for a directory, as "." does. */
  function Components(s: Bytes): seq<Component> {
    (if Rooted(s) then [RootDir] else []) + ParseAll(Fields(s))
  }

  /** The path of an image entry, taken apart again: names are joined one by one, and a rooted name starts over. */
  function ComponentsOf(p: Path): seq<Component> {
    if p == [] then [RootDir]
    else if Rooted(Last(p)) then Components(Last(p))
    else ComponentsOf(Init(p)) + ParseAll(Fields(Last(p)))
  }

  predicate PlainName(name: Name) {
    name != [] && name != DOT && name != DOT_DOT && SLASH !in name
  }

  predicate Plain(p: Path) {
    forall i | 0 <= i < |p| :: PlainName(p[i])
  }

  lemma {:induction false} OneField(s: Bytes)
    requires SLASH !in s
    ensures Fields(s) == [s]
  {
    if s != [] {
      assert Last(s) in s && forall b | b in Init(s) :: b in s;
      OneField(Init(s));
      assert Init([Init(s)]) == [] && Last([Init(s)]) == Init(s);
      Rejoin(s);
    }
  }

  lemma {:induction false} PlainComponents(p: Path)
    requires Plain(p)
    ensures ComponentsOf(p) == Absolute(p)
  {
    if p != [] {
      PlainComponents(Init(p));
      var name := Last(p);
      assert PlainName(name) && !Rooted(name);
      OneField(name);
      ParseOne(name);
      AbsoluteSnoc(p);
    }
  }

  lemma ParseOne(name: Name)
    requires PlainName(name)
    ensures ParseAll([name]) == [Normal(name)]
  {
  }

  lemma AbsoluteSnoc(p: Path)
    requires p != []
    ensures Absolute(p) == Absolute(Init(p)) + [Normal(Last(p))]
  {
    var a, b := Absolute(p), Absolute(Init(p)) + [Normal(Last(p))];
    forall k | 0 <= k < |a| ensures a[k] == b[k] {
    }
  }

  // Resolution.

  /** What resolution needs to know of a node: a directory, and whether its owner may work in it; a link and where it leads. */
  datatype Kind = Folder(open: bool) | SymLink(target: Bytes) | Leaf

  type Scene = map<Path, Kind>

  function LinkTarget(m: Meta): Option<Bytes> {
    if m.additional.Some? then m.additional.value.symlinkTarget else None
  }

  predicate OwnerMayUse(permissions: Permissions) {
    HasBit(permissions, OWNER_WRITE) && HasBit(permissions, OWNER_EXEC)
  }

  function LinkKindOf(m: Meta): Kind {
    SymLink(if LinkTarget(m).Some? then LinkTarget(m).value else [])
  }

  function KindOf(n: HNode): Kind {
    match n
    case HDir(_, m) => Folder(OwnerMayUse(m.permissions))
    case HFile(_, _, _) => Leaf
    case HOther(_, m, k) => if k.LnkKind? then LinkKindOf(m) else Leaf
  }

  /** From directory cur along the components; at most so many links are followed. */
  function Resolve(scene: Scene, cur: Path, rest: seq<Component>, budget: nat): (r: Option<Path>)
    ensures r.Some? ==> r.value in scene && !scene[r.value].SymLink?
    decreases budget, |rest|
  {
    if rest == [] then
      if cur in scene && !scene[cur].SymLink? then Some(cur) else None
    else if cur !in scene || !scene[cur].Folder? then None
    else
      match rest[0]
      case RootDir => Resolve(scene, [], rest[1..], budget)
      case CurDir => Resolve(scene, cur, rest[1..], budget)
      case ParentDir => Resolve(scene, if cur == [] then [] else Init(cur), rest[1..], budget)
      case Normal(name) =>
        var p := cur + [name];
        if p in scene && scene[p].SymLink? then
          if budget == 0 then None else Resolve(scene, cur, Components(scene[p].target) + rest[1..], budget - 1)
        else Resolve(scene, p, rest[1..], budget)
  }

  /** The node a path leads to once all links are followed. */
  function Follow(scene: Scene, p: Path): (r: Option<Path>)
    ensures r.Some? ==> r.value in scene && !scene[r.value].SymLink?
  {
    if p == [] then if p in scene && !scene[p].SymLink? then Some(p) else None
    else Resolve(scene, Init(p), [Normal(Last(p))], MAX_LINKS)
  }

  /** Where a path leads does not change when nodes are added. */
  lemma {:induction false} ResolveStable(scene: Scene, more: Scene, cur: Path, rest: seq<Component>, budget: nat)
    requires forall p | p in scene :: p in more && (more[p] == scene[p] || (more[p].Folder? && scene[p].Folder?))
    requires Resolve(scene, cur, rest, budget).Some?
    ensures Resolve(more, cur, rest, budget) == Resolve(scene, cur, rest, budget)
    decreases budget, |rest|
  {
    if rest != [] {
      match rest[0]
      case RootDir => ResolveStable(scene, more, [], rest[1..], budget);
      case CurDir => ResolveStable(scene, more, cur, rest[1..], budget);
      case ParentDir => ResolveStable(scene, more, if cur == [] then [] else Init(cur), rest[1..], budget);
      case Normal(name) =>
        var p := cur + [name];
        if p in scene && scene[p].SymLink? {
          ResolveStable(scene, more, cur, Components(scene[p].target) + rest[1..], budget - 1);
        } else {
          NotThere(scene, p, rest[1..], budget);
          ResolveStable(scene, more, p, rest[1..], budget);
        }
    }
  }

  lemma NotThere(scene: Scene, p: Path, rest: seq<Component>, budget: nat)
    requires Resolve(scene, p, rest, budget).Some?
    ensures p in scene
  {
  }

  /** Paths as a link may hold them: "/", "." and ".." lead to the root, nowhere else and one up, where "/" is its own parent. */
  lemma DotsLead(scene: Scene, cur: Path, budget: nat)
    requires cur in scene && scene[cur].Folder? && [] in scene && scene[[]].Folder?
    requires cur != [] ==> Init(cur) in scene && scene[Init(cur)].Folder?
    ensures Resolve(scene, cur, Components([47]), budget) == Some([])
    ensures Resolve(scene, cur, Components([46]), budget) == Some(cur)
    ensures Resolve(scene, cur, Components([46, 46]), budget) == if cur == [] then Some([]) else Some(Init(cur))
  {
    var up: Component := ParentDir;
    assert Fields([46]) == [[46]] by { OneField([46]); }
    assert Fields([46, 46]) == [[46, 46]] by { OneField([46, 46]); }
    assert Fields([47]) == [[], []] by {
      assert Init([SLASH]) == [];
    }
    assert Components([46]) == [CurDir] && Components([46, 46]) == [up] && Components([47]) == [RootDir, CurDir, CurDir];
    assert [CurDir][1..] == [] && [up][1..] == [];
    assert [RootDir, CurDir, CurDir][1..] == [CurDir, CurDir] && [CurDir, CurDir][1..] == [CurDir];
    assert Resolve(scene, [], [CurDir], budget) == Some([]);
    assert Resolve(scene, [], [CurDir, CurDir], budget) == Some([]);
  }

  /** A name leads to the node of that name, or, if that is a link, to where its target leads from the same directory. */
  lemma NameLeads(scene: Scene, cur: Path, name: Name, budget: nat)
    requires cur in scene && scene[cur].Folder? && PlainName(name) && cur + [name] in scene
    ensures var p := cur + [name];
            Resolve(scene, cur, Components(name), budget) ==
            if !scene[p].SymLink? then Some(p)
            else if budget == 0 then None
            else Resolve(scene, cur, Components(scene[p].target), budget - 1)
  {
    OneField(name);
    ParseOne(name);
    assert Components(name) == [Normal(name)];
    assert [Normal(name)][1..] == [];
    if scene[cur + [name]].SymLink? {
      assert Components(scene[cur + [name]].target) + [] == Components(scene[cur + [name]].target);
    }
  }
}
