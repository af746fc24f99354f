/** What an extraction may change outside the directory it extracts into. */
module Confinement {
  import opened Types
  import opened Seqs
  import opened HostTree
  import opened Links
  import opened Target
  import opened Extraction

  /** Owners changed through links are, for nodes outside, read off the names there were before. */
  lemma {:induction false} OutsideHits(before: Disk, dir: Path, now: Disk, full: seq<Hit>, log: seq<Hit>, h: HostIno)
    requires before.Sound() && ConfinedBut(before, dir, now, full) && Holds(dir, before, [])
    requires h in before.nodes && h != before.names[dir]
    ensures LastOn(log, now.names, h) == LastOn(log, before.names, h)
  {
    if log != [] {
      OutsideHits(before, dir, now, full, Init(log), h);
      var q := Last(log).path;
      if dir <= q && q != dir {
        ProperlyUnder(dir, q);
        NothingBelow(before, dir, q);
      }
    }
  }

  lemma NothingBelow(before: Disk, dir: Path, q: Path)
    requires Holds(dir, before, []) && dir < q
    ensures q !in before.names
  {
    var r := q[|dir|..];
    assert q == dir + r;
    assert Placed(dir, before, r) <==> r == [] || r in [];
  }

  /** No node outside ends up different: none is hit, or the last hit leaves it as it was. */
  ghost predicate Spares(before: Disk, dir: Path, log: seq<Hit>) {
    forall h | h in before.nodes && dir in before.names && h != before.names[dir] ::
      Worn(log, before.names, h, before.nodes[h]) == before.nodes[h]
  }

  /** The exact condition under which everything outside is as before. */
  lemma ConfinedIff(before: Disk, dir: Path, now: Disk, log: seq<Hit>)
    requires before.Sound() && ConfinedBut(before, dir, now, log) && Holds(dir, before, [])
    ensures Confined(before, dir, now) <==> Spares(before, dir, log)
  {
    forall h | h in before.nodes && h != before.names[dir]
      ensures now.nodes[h] == Worn(log, before.names, h, before.nodes[h]) &&
              Worn([], now.names, h, before.nodes[h]) == before.nodes[h]
    {
      OutsideHits(before, dir, now, log, log, h);
    }
  }

  lemma {:induction false} InsideSpares(before: Disk, dir: Path, log: seq<Hit>, h: HostIno)
    requires before.Sound() && Holds(dir, before, []) && dir in before.names && h in before.nodes && h != before.names[dir]
    requires forall k | 0 <= k < |log| :: dir <= log[k].path
    ensures LastOn(log, before.names, h) == None
  {
    if log != [] {
      InsideSpares(before, dir, Init(log), h);
      var q := Last(log).path;
      assert dir <= log[|log| - 1].path;
      if q != dir {
        ProperlyUnder(dir, q);
        NothingBelow(before, dir, q);
      }
    }
  }

  /** If every link that is followed leads to somewhere under the directory, nothing outside changes. */
  lemma LinksInsideSpare(before: Disk, dir: Path, log: seq<Hit>)
    requires before.Sound() && Holds(dir, before, []) && dir in before.names
    requires forall k | 0 <= k < |log| :: dir <= log[k].path
    ensures Spares(before, dir, log)
  {
    forall h | h in before.nodes && h != before.names[dir]
      ensures Worn(log, before.names, h, before.nodes[h]) == before.nodes[h]
    {
      InsideSpares(before, dir, log, h);
    }
  }

  /** The optional part of the metadata is there exactly when it says something. */
  predicate Tidy(n: HNode) {
    n.meta.additional == Extras(Xattrs(n.meta), LinkTarget(n.meta))
  }

  /** A change of owner leaves a node alone if and only if it has that owner already and nothing to lose. */
  lemma UnchangedIff(n: HNode, o: Owner)
    requires Tidy(n)
    ensures Chowned(n, o) == n <==> n.meta.uid == o.uid && n.meta.gid == o.gid && !Marked(n)
  {
    MarkedIff(n);
  }

  /**
   * So everything outside is as before if and only if each node there that links led to had, all along,
   * the owner it was last given, no set-user-ID, no set-group-ID for its group, and no capability.
   */
  lemma SparesIff(before: Disk, dir: Path, log: seq<Hit>)
    requires dir in before.names && forall h | h in before.nodes :: Tidy(before.nodes[h])
    ensures Spares(before, dir, log) <==>
            forall h | h in before.nodes && h != before.names[dir] ::
              match LastOn(log, before.names, h)
              case None => true
              case Some(o) => before.nodes[h].meta.uid == o.uid && before.nodes[h].meta.gid == o.gid && !Marked(before.nodes[h])
  {
    forall h | h in before.nodes && h != before.names[dir]
      ensures Worn(log, before.names, h, before.nodes[h]) == before.nodes[h] <==>
              match LastOn(log, before.names, h)
              case None => true
              case Some(o) => before.nodes[h].meta.uid == o.uid && before.nodes[h].meta.gid == o.gid && !Marked(before.nodes[h])
    {
      match LastOn(log, before.names, h)
      case Some(o) => UnchangedIff(before.nodes[h], o);
      case None =>
    }
  }

  /** If the last link followed leads to a node outside that has another owner, that node is changed. */
  lemma LastLinkOutsideHits(before: Disk, dir: Path, log: seq<Hit>)
    requires before.Sound() && log != [] && before.Has(Last(log).path) && dir in before.names
    requires before.names[Last(log).path] != before.names[dir]
    requires before.At(Last(log).path).meta.uid != Last(log).owner.uid || before.At(Last(log).path).meta.gid != Last(log).owner.gid
    ensures !Spares(before, dir, log)
  {
    var h := before.names[Last(log).path];
    assert Worn(log, before.names, h, before.nodes[h]) != before.nodes[h];
  }
}
