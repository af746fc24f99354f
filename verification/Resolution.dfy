/** Path resolution in an image. */
module Resolution {
  import opened Types
  import opened Seqs
  import opened Layers

  function FindEntry(entries: seq<DirEnt>, name: Name): Option<Ino> {
    if entries == [] then None
    else if entries[0].name == name then Some(entries[0].ino)
    else FindEntry(entries[1..], name)
  }

  lemma {:induction false} FindEntryIsFirst(entries: seq<DirEnt>, name: Name, k: nat)
    requires k < |entries| && entries[k].name == name
    requires forall i | 0 <= i < k :: entries[i].name != name
    ensures FindEntry(entries, name) == Some(entries[k].ino)
  {
    if k > 0 {
      FindEntryIsFirst(entries[1..], name, k - 1);
    }
  }

  /** A name found first in the second of two lists, and not in the first. */
  lemma FindEntryAfter(a: seq<DirEnt>, b: seq<DirEnt>, name: Name, k: nat)
    requires k < |b| && b[k].name == name
    requires forall i | 0 <= i < |a| :: a[i].name != name
    requires forall i | 0 <= i < k :: b[i].name != name
    ensures FindEntry(a + b, name) == Some(b[k].ino)
  {
    var es := a + b;
    assert forall i | 0 <= i < |a| + k :: es[i] == if i < |a| then a[i] else b[i - |a|];
    FindEntryIsFirst(es, name, |a| + k);
  }

  /** A name that is not in the second list is found only through the first. */
  lemma FindEntryOnlyIn(a: seq<DirEnt>, b: seq<DirEnt>, name: Name)
    requires forall i | 0 <= i < |b| :: b[i].name != name
    ensures FindEntry(a + b, name) == None <==> forall e | e in a :: e.name != name
    ensures FindEntry(a + b, name).Some? ==> exists e :: e in a && e.name == name && Some(e.ino) == FindEntry(a + b, name)
  {
    FindEntryNone(a + b, name);
  }

  lemma {:induction false} FindEntryNone(entries: seq<DirEnt>, name: Name)
    ensures FindEntry(entries, name) == None <==> forall e | e in entries :: e.name != name
    ensures FindEntry(entries, name).Some? ==>
              exists e :: e in entries && e.name == name && Some(e.ino) == FindEntry(entries, name)
  {
    if entries != [] {
      FindEntryNone(entries[1..], name);
      assert entries == [entries[0]] + entries[1..];
      if entries[0].name == name {
        assert entries[0] in entries;
      } else if FindEntry(entries, name).Some? {
        var e :| e in entries[1..] && e.name == name && Some(e.ino) == FindEntry(entries[1..], name);
        assert e in entries;
      }
    }
  }

  /** One step: from an inode to what it holds under a name. */
  function Descend(layers: seq<Layer>, cur: Result<Option<Inode>>, name: Name): Result<Option<Inode>>
    requires NonEmpty(layers)
  {
    if cur.Ok? && cur.value.Some? then
      if cur.value.value.mode.Dir? then
        match FindEntry(cur.value.value.mode.entries, name)
        case None => Ok(None)
        case Some(ino) =>
          match FindInode(layers, ino)
          case Ok(i) => Ok(Some(i))
          case Err(e) => Err(e)
      else Ok(None)
    else cur
  }

  function Lookup(layers: seq<Layer>, p: Path): Result<Option<Inode>>
    requires NonEmpty(layers)
  {
    if p == [] then
      match FindInode(layers, 1)
      case Ok(i) => Ok(Some(i))
      case Err(e) => Err(e)
    else Descend(layers, Lookup(layers, Init(p)), Last(p))
  }

  /** The outcomes of one more step from a directory that resolved. */
  lemma LookupStep(layers: seq<Layer>, p: Path, d: Inode)
    requires NonEmpty(layers) && p != [] && Lookup(layers, Init(p)) == Ok(Some(d))
    ensures !d.mode.Dir? ==> Lookup(layers, p) == Ok(None)
    ensures d.mode.Dir? ==>
              match FindEntry(d.mode.entries, Last(p))
              case None => Lookup(layers, p) == Ok(None)
              case Some(ino) =>
                match FindInode(layers, ino)
                case Ok(i) => Lookup(layers, p) == Ok(Some(i))
                case Err(e) => Lookup(layers, p) == Err(e)
  {
  }

  datatype Component = RootDir | CurDir | ParentDir | Normal(name: Name)

  function Absolute(p: Path): (cs: seq<Component>) {
    [RootDir] + seq(|p|, i requires 0 <= i < |p| => Normal(p[i]))
  }

  /** The names of the leading normal components. */
  function Names(cs: seq<Component>): Path {
    if cs != [] && cs[0].Normal? then [cs[0].name] + Names(cs[1..]) else []
  }

  lemma {:induction false} NamesOf(cs: seq<Component>, k: nat)
    requires k <= |cs| && forall i | 0 <= i < k :: cs[i].Normal?
    requires k < |cs| ==> !cs[k].Normal?
    ensures |Names(cs)| == k && forall i | 0 <= i < k :: Names(cs)[i] == cs[i].name
  {
    if k > 0 {
      NamesOf(cs[1..], k - 1);
    }
  }

  /**
   * The path must start at "/".  The names up to the first component that is not a plain name
   * are resolved; that component is an error unless resolution stopped before it.
   */
  method LookupPath(layers: seq<Layer>, components: seq<Component>) returns (r: Result<Option<Inode>>)
    requires NonEmpty(layers) && components != []
    ensures !components[0].RootDir? ==> r == Err(EINVAL)
    ensures components[0].RootDir? ==>
              var names := Names(components[1..]);
              var found := Lookup(layers, names);
              r == if |names| == |components| - 1 || found.Err? || found.value.None? then found else Err(EINVAL)
  {
    if !components[0].RootDir? {
      return Err(EINVAL);
    }
    var rest := components[1..];
    var root := FindInodeInLayers(layers, 1);
    if root.Err? {
      LookupPrefix(layers, Names(rest), 0);
      return Err(root.error);
    }
    var cur := root.value;
    for k := 0 to |rest|
      invariant forall i | 0 <= i < k :: rest[i].Normal?
      invariant k <= |Names(rest)|
      invariant Lookup(layers, Names(rest)[..k]) == Ok(Some(cur))
    {
      NamesLonger(rest, k);
      if !rest[k].Normal? {
        NamesOf(rest, k);
        assert Names(rest)[..k] == Names(rest);
        return Err(EINVAL);
      }
      assert Init(Names(rest)[..k + 1]) == Names(rest)[..k];
      LookupPrefix(layers, Names(rest), k + 1);
      var found := None;
      if cur.mode.Dir? {
        found := FindEntry(cur.mode.entries, rest[k].name);
      }
      if found.None? {
        return Ok(None);
      }
      var next := FindInodeInLayers(layers, found.value);
      if next.Err? {
        return Err(next.error);
      }
      cur := next.value;
    }
    NamesOf(rest, |rest|);
    assert Names(rest)[..|rest|] == Names(rest);
    return Ok(Some(cur));
  }

  lemma {:induction false} NamesLonger(cs: seq<Component>, k: nat)
    requires k < |cs| && forall i | 0 <= i < k :: cs[i].Normal?
    ensures cs[k].Normal? ==> k < |Names(cs)| && Names(cs)[k] == cs[k].name
  {
    if k > 0 {
      NamesLonger(cs[1..], k - 1);
    }
  }

  /** Once resolution ends early, longer paths end the same way. */
  lemma {:induction false} LookupPrefix(layers: seq<Layer>, p: Path, k: nat)
    requires NonEmpty(layers) && k <= |p|
    ensures var r := Lookup(layers, p[..k]); r.Err? || r.value.None? ==> Lookup(layers, p) == r
    decreases |p|
  {
    if k < |p| {
      LookupPrefix(layers, Init(p), k);
      assert Init(p)[..k] == p[..k];
    } else {
      assert p[..k] == p;
    }
  }
}
