/** Inode search: a binary search in each layer, newest layer first, whiteouts hide. */
module Layers {
  import opened Types
  import opened Seqs

  ghost predicate Sorted(l: Layer) {
    forall i, j | 0 <= i < j < |l| :: l[i].ino <= l[j].ino
  }

  /** One inode number stands for one inode within the layer. */
  ghost predicate Functional(l: Layer) {
    forall x, y | x in l && y in l && x.ino == y.ino :: x == y
  }

  predicate NonEmpty(layers: seq<Layer>) {
    forall k | 0 <= k < |layers| :: layers[k] != []
  }

  ghost predicate WellFormed(layers: seq<Layer>) {
    NonEmpty(layers) && forall k | 0 <= k < |layers| :: Sorted(layers[k])
  }

  function Search(l: Layer, ino: Ino, left: nat, right: nat): Option<Inode>
    requires right < |l|
    decreases right + 1 - left
  {
    if left > right then None else
    var mid := left + (right - left) / 2;
    if l[mid].ino == ino then Some(l[mid])
    else if l[mid].ino < ino then Search(l, ino, mid + 1, right)
    else if mid == 0 then None
    else Search(l, ino, left, mid - 1)
  }

  function FindInLayer(l: Layer, ino: Ino): Option<Inode>
    requires l != []
  {
    Search(l, ino, 0, |l| - 1)
  }

  function FindInode(layers: seq<Layer>, ino: Ino): Result<Inode>
    requires NonEmpty(layers)
  {
    if layers == [] then Err(ENOENT) else
    match FindInLayer(layers[0], ino)
    case Some(i) => if i.mode.Wht? then Err(ENOENT) else Ok(i)
    case None => FindInode(layers[1..], ino)
  }

  lemma {:induction false} SearchSound(l: Layer, ino: Ino, left: nat, right: nat)
    requires right < |l|
    ensures var r := Search(l, ino, left, right); r.Some? ==> r.value in l && r.value.ino == ino
    decreases right + 1 - left
  {
    if left <= right {
      var mid := left + (right - left) / 2;
      if l[mid].ino < ino {
        SearchSound(l, ino, mid + 1, right);
      } else if l[mid].ino > ino && mid > 0 {
        SearchSound(l, ino, left, mid - 1);
      }
    }
  }

  lemma {:induction false} SearchComplete(l: Layer, ino: Ino, left: nat, right: nat, k: nat)
    requires Sorted(l) && right < |l|
    requires left <= k <= right && l[k].ino == ino
    ensures Search(l, ino, left, right).Some?
    decreases right + 1 - left
  {
    var mid := left + (right - left) / 2;
    if l[mid].ino < ino {
      SearchComplete(l, ino, mid + 1, right, k);
    } else if l[mid].ino > ino {
      SearchComplete(l, ino, left, mid - 1, k);
    }
  }

  /** In a sorted layer the search finds a number exactly when the layer has it. */
  lemma FindInLayerCorrect(l: Layer, ino: Ino)
    requires Sorted(l) && l != []
    ensures var r := FindInLayer(l, ino);
            && (r.Some? <==> exists x :: x in l && x.ino == ino)
            && (r.Some? ==> r.value in l && r.value.ino == ino)
  {
    SearchSound(l, ino, 0, |l| - 1);
    if x :| x in l && x.ino == ino {
      var k :| 0 <= k < |l| && l[k] == x;
      SearchComplete(l, ino, 0, |l| - 1, k);
    }
  }

  /** What the newest layer has under a number hides whatever older layers have there. */
  lemma FindInTop(layers: seq<Layer>, x: Inode)
    requires NonEmpty(layers) && layers != []
    requires Sorted(layers[0]) && Functional(layers[0]) && x in layers[0]
    ensures FindInode(layers, x.ino) == if x.mode.Wht? then Err(ENOENT) else Ok(x)
  {
    FindInLayerCorrect(layers[0], x.ino);
  }

  /** What the search finds has the number searched for and is in some layer. */
  lemma {:induction false} FoundInLayers(layers: seq<Layer>, ino: Ino)
    requires NonEmpty(layers) && FindInode(layers, ino).Ok?
    ensures FindInode(layers, ino).value.ino == ino
    ensures exists l :: l in layers && FindInode(layers, ino).value in l
  {
    var top := layers[0];
    SearchSound(top, ino, 0, |top| - 1);
    if FindInLayer(top, ino).Some? {
      assert top in layers;
    } else {
      FoundInLayers(layers[1..], ino);
      var l :| l in layers[1..] && FindInode(layers, ino).value in l;
      assert l in layers;
    }
  }

  lemma PushLayer(l: Layer, below: seq<Layer>)
    requires Sorted(l) && l != [] && WellFormed(below)
    ensures WellFormed([l] + below) && ([l] + below)[0] == l
  {
  }

  /** All layers as one map: upper layers override lower ones, whiteouts remove. */
  ghost function Merged(layers: seq<Layer>): map<Ino, Inode> {
    if layers == [] then map[] else
    var top := layers[0];
    var below := Merged(layers[1..]);
    var hidden := set x | x in top :: x.ino;
    (below - hidden) + LiveOf(top)
  }

  ghost function LiveOf(l: Layer): (m: map<Ino, Inode>)
    ensures forall i :: i in m <==> exists x :: x in l && x.ino == i && !x.mode.Wht?
    ensures forall i | i in m :: m[i] in l && m[i].ino == i && !m[i].mode.Wht?
  {
    var inos := set x | x in l && !x.mode.Wht? :: x.ino;
    map i | i in inos :: var x :| x in l && x.ino == i && !x.mode.Wht?; x
  }

  /** The layered binary search is lookup in the merged map. */
  lemma {:induction false} FindInodeIsMerged(layers: seq<Layer>, ino: Ino)
    requires WellFormed(layers)
    requires forall k | 0 <= k < |layers| :: Functional(layers[k])
    ensures FindInode(layers, ino) == if ino in Merged(layers) then Ok(Merged(layers)[ino]) else Err(ENOENT)
  {
    if layers != [] {
      var top := layers[0];
      FindInLayerCorrect(top, ino);
      FindInodeIsMerged(layers[1..], ino);
      var r := FindInLayer(top, ino);
      if r.Some? {
        assert r.value in top;
        assert ino in (set x | x in top :: x.ino);
      }
    }
  }

  method FindInodeInVector(inodes: Layer, ino: Ino) returns (r: Option<Inode>)
    requires inodes != []
    ensures r == FindInLayer(inodes, ino)
  {
    var left: nat := 0;
    var right: nat := |inodes| - 1;
    while left <= right
      invariant right < |inodes|
      invariant FindInLayer(inodes, ino) == Search(inodes, ino, left, right)
      decreases right + 1 - left
    {
      var mid := left + (right - left) / 2;
      var i := inodes[mid];
      if i.ino == ino {
        return Some(i);
      }
      if i.ino < ino {
        left := mid + 1;
      } else {
        if mid == 0 {
          break;
        }
        right := mid - 1;
      }
    }
    return None;
  }

  method FindInodeInLayers(layers: seq<Layer>, ino: Ino) returns (r: Result<Inode>)
    requires NonEmpty(layers)
    ensures r == FindInode(layers, ino)
  {
    for k := 0 to |layers|
      invariant FindInode(layers, ino) == FindInode(layers[k..], ino)
    {
      assert layers[k..][1..] == layers[k + 1..];
      var found := FindInodeInVector(layers[k], ino);
      if found.Some? {
        if found.value.mode.Wht? {
          return Err(ENOENT);
        }
        return Ok(found.value);
      }
    }
    assert layers[|layers|..] == [];
    return Err(ENOENT);
  }

  ghost predicate Bounds(layers: seq<Layer>, m: Ino) {
    forall l, x | l in layers && x in l :: x.ino <= m
  }

  /** The number after the result is free in every layer, whiteouts included. */
  method MaxInode(layers: seq<Layer>) returns (m: Ino)
    requires NonEmpty(layers)
    ensures m == MaxIno(layers)
  {
    m := 1;
    for k := 0 to |layers|
      invariant m == MaxIno(layers[..k])
    {
      assert Init(layers[..k + 1]) == layers[..k];
      var ino := Last(layers[k]).ino;
      m := if ino > m then ino else m;
    }
    assert layers[..|layers|] == layers;
  }

  function MaxIno(layers: seq<Layer>): (m: Ino)
    requires NonEmpty(layers)
    ensures m >= 1
  {
    if layers == [] then 1 else
    Max(MaxIno(Init(layers)), Last(Last(layers)).ino)
  }

  /** On sorted layers the largest number of the last inodes is the maximum over all inodes. */
  lemma {:induction false} MaxInoIsMaximum(layers: seq<Layer>)
    requires WellFormed(layers)
    ensures Bounds(layers, MaxIno(layers))
    ensures MaxIno(layers) == 1 || exists l, x :: l in layers && x in l && x.ino == MaxIno(layers)
  {
    if layers != [] {
      var init, top := Init(layers), Last(layers);
      assert top in layers && forall l | l in init :: l in layers;
      MaxInoIsMaximum(init);
      assert Last(top) in top;
      forall l, x | l in layers && x in l ensures x.ino <= MaxIno(layers) {
        if l == top {
          var k :| 0 <= k < |top| && top[k] == x;
        } else {
          assert l in init;
        }
      }
    }
  }
}
