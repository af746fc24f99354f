/** Small images whose extraction changes what lies outside, fails, or does not give the tree back. */
module ExtractionExamples {
  import opened Types
  import opened Seqs
  import opened HostTree
  import opened Resolution
  import opened Reproducible
  import opened Breadth
  import opened Links
  import opened Target
  import opened Extraction
  import opened Confinement
  import opened TreeExtraction
  import opened Outcomes

  const OPEN: Meta := Meta(1, 1, 448, None)
  const E: Name := [101]
  const L: Name := [108]
  const X: Name := [120]

  /** Extraction goes to "/x"; "/e" is someone else's file. */
  function Around(): Disk {
    Disk(map[[] := 0, [X] := 1, [E] := 2],
         map[0 := HDir(0, OPEN), 1 := HDir(1, OPEN), 2 := HFile(2, Meta(5, 5, 420, None), [])], 3)
  }

  /** User 1, who may do anything or only what anyone may do. */
  function Someone(privileged: bool): User {
    User(privileged, 1, {1}, (_: Path) => 1, (_: Form, _: Xattr) => true)
  }

  /** A root directory with one entry. */
  function With(n: HNode): Tree {
    map[[] := HDir(1, OPEN), [L] := n]
  }

  function LinkTo(target: Bytes): HNode {
    HOther(2, Meta(7, 7, LINK_PERMISSIONS, Some(Additional([], Some(target)))), LnkKind)
  }

  const TO_E: Bytes := [47, 101]
  const TO_NOTHING: Bytes := [47, 110]

  lemma WithIsValid(n: HNode)
    requires n.hino == 2 && !n.HDir?
    ensures ValidTree(With(n)) && FirstOf(With(n), []) && FirstOf(With(n), [L])
  {
    var t := With(n);
    forall p | p in t && p != [] ensures HasParent(t, p) {
      assert Init(p) == [];
    }
  }

  lemma AroundIsSound()
    ensures Around().Sound() && Around().IsDir([X]) && OneName(Around(), [X]) && Holds([X], Around(), [])
  {
    var disk := Around();
    forall q ensures Placed([X], disk, q) <==> q == [] || q in [] {
      if q == [] {
        assert [X] + q == [X];
      }
    }
  }

  lemma RootedComponents(b: Byte)
    requires b != SLASH && [b] != DOT
    ensures Components([SLASH, b]) == [RootDir, CurDir, Normal([b])]
  {
    var s := [SLASH, b];
    assert Init(s) == [SLASH] && Last(s) == b && Init([SLASH]) == [] && Last([SLASH]) == SLASH;
    assert Fields([]) == [[]];
    assert Fields([SLASH]) == [[], []];
    var fs := Fields([SLASH]);
    assert Init(fs) == [[]] && Last(fs) == [];
    assert Fields(s) == Init(fs) + [Last(fs) + [b]];
    assert Last(fs) + [b] == [b];
    assert Fields(s) == [[], [b]];
    assert ParseAll([[], [b]]) == [CurDir, Normal([b])];
  }

  ghost function Seen(target: Bytes): Scene {
    TreeScene(Around(), [X], With(LinkTo(target)), [L])
  }

  lemma SeenAbove(target: Bytes, r: Path)
    requires r == [] || |r| == 1
    ensures r in Seen(target) <==> r in Around().names
    ensures r in Seen(target) ==> !Seen(target)[r].SymLink? && (r == [] || r == [X] ==> Seen(target)[r].Folder?)
  {
    var t := With(LinkTo(target));
    if InPlace([X], t, [L], r) {
      assert r[1..] == [] && r == [X];
    }
  }

  lemma SeenLink(target: Bytes)
    ensures [X, L] in Seen(target) && Seen(target)[[X, L]] == SymLink(target)
  {
    var t, r := With(LinkTo(target)), [X, L];
    PrecedesTotal([L], [L]);
    assert [X] <= r && r[1..] == [L];
    assert InPlace([X], t, [L], r);
  }

  lemma RootedLink(scene: Scene, b: Byte)
    requires b != SLASH && [b] != DOT && [] in scene && scene[[]].Folder? && [X] in scene && scene[[X]].Folder?
    requires [X, L] in scene && scene[[X, L]] == SymLink([SLASH, b]) && ([[b]] in scene ==> !scene[[[b]]].SymLink?)
    ensures Follow(scene, [X, L]) == if [[b]] in scene then Some([[b]]) else None
  {
    var p, cs := [X, L], [RootDir, CurDir, Normal([b])];
    RootedComponents(b);
    assert Init(p) == [X] && Last(p) == L && [X] + [L] == p;
    assert [Normal(L)][1..] == [] && cs + [] == cs;
    assert Follow(scene, p) == Resolve(scene, [X], cs, 39);
    assert cs[1..] == [CurDir, Normal([b])] && cs[1..][1..] == [Normal([b])] && [Normal([b])][1..] == [];
    assert Resolve(scene, [X], cs, 39) == Resolve(scene, [], [Normal([b])], 39);
    assert [] + [[b]] == [[b]];
    assert Resolve(scene, [], [Normal([b])], 39) == Resolve(scene, [[b]], [], 39);
  }

  /** Where a link to a path in "/" leads. */
  lemma Leads(b: Byte)
    requires b != SLASH && [b] != DOT
    ensures LeadsTo(Around(), [X], With(LinkTo([SLASH, b])), [L]) == if [[b]] in Around().names then Some([[b]]) else None
  {
    var target := [SLASH, b];
    SeenAbove(target, []);
    SeenAbove(target, [X]);
    SeenAbove(target, [[b]]);
    SeenLink(target);
    RootedLink(Seen(target), b);
    assert [X] + [L] == [X, L];
  }

  /** The paths of such a tree can be restored, but for what a privileged user does with a link. */
  lemma WithRestores(privileged: bool, n: HNode)
    requires n.hino == 2 && !n.HDir? && Restorable(Someone(privileged), n)
    ensures CanRestore(Someone(privileged), Around(), [X], With(n)) <==>
            (privileged && IsLinkNode(n) ==> LeadsTo(Around(), [X], With(n), [L]).Some?)
  {
    var me, t := Someone(privileged), With(n);
    WithIsValid(n);
    AroundIsSound();
    assert Init([L]) == [];
    assert RestorableAt(me, Around(), [X], t, []);
    assert RestorableAt(me, Around(), [X], t, [L]) <==> (privileged && IsLinkNode(n) ==> LeadsTo(Around(), [X], t, [L]).Some?);
  }

  /** Only the link itself can be followed. */
  lemma WithLog(me: User, n: HNode)
    requires n.hino == 2 && !n.HDir?
    ensures Followed(me, Around(), [X], With(n),
                     if me.privileged && IsLinkNode(n) && LeadsTo(Around(), [X], With(n), [L]).Some?
                     then [Hit(LeadsTo(Around(), [X], With(n), [L]).value, NodeOwner(n))] else [])
  {
    var root: seq<Path> := [[]];
    var ps: seq<Path> := [[], [L]];
    WithIsValid(n);
    assert Init(ps) == root && Last(ps) == [L] && Init(root) == [] && Last(root) == [];
    assert TreeLog(me, Around(), [X], With(n), []) == [];
    assert TreeLog(me, Around(), [X], With(n), root) == [];
    assert BreadthOf(With(n), ps);
  }

  /** A privileged user who extracts a link to a file outside gives that file the owner of the link. */
  lemma LinkOutsideIsHit()
    ensures CanRestore(Someone(true), Around(), [X], With(LinkTo(TO_E)))
    ensures Followed(Someone(true), Around(), [X], With(LinkTo(TO_E)), [Hit([E], Owner(7, 7))])
    ensures !Spares(Around(), [X], [Hit([E], Owner(7, 7))])
  {
    Leads(101);
    WithRestores(true, LinkTo(TO_E));
    WithLog(Someone(true), LinkTo(TO_E));
    AroundIsSound();
    LastLinkOutsideHits(Around(), [X], [Hit([E], Owner(7, 7))]);
  }

  /** A link that leads nowhere can be extracted, unless the user is privileged. */
  lemma DanglingLinkFails()
    ensures !CanRestore(Someone(true), Around(), [X], With(LinkTo(TO_NOTHING)))
    ensures CanRestore(Someone(false), Around(), [X], With(LinkTo(TO_NOTHING)))
  {
    Leads(110);
    WithRestores(true, LinkTo(TO_NOTHING));
    WithRestores(false, LinkTo(TO_NOTHING));
  }

  function SetUserId(): HNode {
    HFile(2, Meta(7, 7, SUID | 493, None), [1])
  }

  /** A file that sets the user ID does not come back as it was, though a privileged user extracts it. */
  lemma SetUserIdIsLost(log: seq<Hit>, u: Tree)
    requires Followed(Someone(true), Around(), [X], With(SetUserId()), log) && Around().Has([X])
    requires Remade(Someone(true), Around(), [X], With(SetUserId()), log, u)
    ensures CanRestore(Someone(true), Around(), [X], With(SetUserId()))
    ensures [L] in u && u[[L]].meta == Meta(7, 7, 493, None) && !Iso(With(SetUserId()), u)
  {
    var me, n := Someone(true), SetUserId();
    var t := With(n);
    WithRestores(true, n);
    WithIsValid(n);
    WithLog(me, n);
    FollowedOnce(me, Around(), [X], t, log, []);
    assert SameFace(Outcome(me, Around(), [X], t, log, [L]), u[[L]]);
    SuidCleared();
  }

  lemma SuidCleared()
    ensures Cleared(SUID | 493) == 493 && SUID | 493 != 493
  {
  }

  /** A device node can be extracted by a privileged user only; so can a directory that bars its owner, if it has entries. */
  lemma PrivilegeNeeded(disk: HNode, barred: Tree)
    requires disk.hino == 2 && disk.HOther? && disk.kind == BlkKind(8, 1) && disk.meta == OPEN
    requires barred == map[[] := HDir(1, OPEN.(permissions := 365)), [L] := HFile(2, OPEN, [])]
    ensures forall privileged :: CanRestore(Someone(privileged), Around(), [X], With(disk)) <==> privileged
    ensures forall privileged :: CanRestore(Someone(privileged), Around(), [X], barred) <==> privileged
  {
    AroundIsSound();
    WithIsValid(disk);
    WithRestores(true, disk);
    assert Init([L]) == [];
    forall privileged ensures CanRestore(Someone(privileged), Around(), [X], With(disk)) <==> privileged {
      assert RestorableAt(Someone(privileged), Around(), [X], With(disk), [L]) ==> privileged;
    }
    forall privileged ensures CanRestore(Someone(privileged), Around(), [X], barred) <==> privileged {
      assert RestorableAt(Someone(privileged), Around(), [X], barred, [L]) ==> privileged;
    }
  }
}
