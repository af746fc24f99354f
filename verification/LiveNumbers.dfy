/** In a rendered layer no live number is repeated. */
module LiveNumbers {
  import opened Types
  import opened Seqs
  import opened HostTree
  import opened Store
  import opened Plans
  import opened View

  lemma RenderedOnce(env: Env, t: Tree, plan: Plan, ps: seq<Path>)
    requires Covers(t, plan) && Distinct(plan) && Apart(t, ps) && forall p | p in ps :: p in t
    ensures NoDups(RenderAll(env, t, plan, ps))
  {
    var rs := RenderAll(env, t, plan, ps);
    if ps != [] {
      RenderAllAt(env, t, plan, ps, 0);
      forall i, j | 0 <= i < j < |rs| ensures rs[i] != rs[j] {
        RenderAllAt(env, t, plan, ps, i);
        RenderAllAt(env, t, plan, ps, j);
        ShapeHas(t, plan, ps[i]);
        ShapeHas(t, plan, ps[j]);
      }
    }
  }

  /** Within a number's repetitions all are whiteouts. */
  ghost predicate LiveOnce(l: Layer) {
    forall i, j | 0 <= i < j < |l| && l[i].ino == l[j].ino :: l[i].mode.Wht? && l[j].mode.Wht?
  }

  lemma CountParts(a: Layer, b: Layer, c: Layer, d: Layer, x: Inode)
    requires NoDups(b) && NoDups(c) && NoDups(d) && x !in a
    requires (x in b ==> x !in c && x !in d) && (x in c ==> x !in d)
    ensures multiset(a + b + c + d)[x] <= 1
  {
    CountOnce(b, x);
    CountOnce(c, x);
    CountOnce(d, x);
    assert multiset(a + b + c + d) == multiset(a) + multiset(b) + multiset(c) + multiset(d);
  }

  lemma LiveCountedOnce(env: Env, t: Tree, plan: Plan, x: Inode)
    requires Covers(t, plan) && Distinct(plan) && !x.mode.Wht?
    ensures multiset(Unsorted(env, t, plan))[x] <= 1
  {
    ListsApart(t);
    RenderedOnce(env, t, plan, DirOrder(t));
    RenderedOnce(env, t, plan, FilePaths(t));
    RenderedOnce(env, t, plan, OtherPaths(t));
    WhiteoutsMembers(plan, DirOrder(t), x);
    KindsDiffer(env, t, plan, x);
    CountParts(Whiteouts(plan, DirOrder(t)), RenderAll(env, t, plan, DirOrder(t)), RenderAll(env, t, plan, FilePaths(t)),
               RenderAll(env, t, plan, OtherPaths(t)), x);
  }

  lemma RenderedKind(env: Env, t: Tree, plan: Plan, p: Path)
    requires Covers(t, plan) && p in t
    ensures Render(env, t, plan, p).mode.Dir? <==> t[p].HDir?
    ensures Render(env, t, plan, p).mode.File? <==> t[p].HFile?
  {
    assert t[p].HOther? ==> !OtherMode(t[p].kind).File? && !OtherMode(t[p].kind).Dir?;
  }

  lemma KindsIn(env: Env, t: Tree, plan: Plan, ps: seq<Path>, x: Inode, dir: bool, file: bool)
    requires Covers(t, plan) && forall p | p in ps :: p in t && (t[p].HDir? <==> dir) && (t[p].HFile? <==> file)
    ensures x in RenderAll(env, t, plan, ps) ==> (x.mode.Dir? <==> dir) && (x.mode.File? <==> file)
  {
    if x in RenderAll(env, t, plan, ps) {
      var q := RenderAllOrigin(env, t, plan, ps, x);
      RenderedKind(env, t, plan, q);
    }
  }

  lemma KindsDiffer(env: Env, t: Tree, plan: Plan, x: Inode)
    requires Covers(t, plan)
    ensures x in RenderAll(env, t, plan, DirOrder(t)) ==> x.mode.Dir?
    ensures x in RenderAll(env, t, plan, FilePaths(t)) ==> x.mode.File?
    ensures x in RenderAll(env, t, plan, OtherPaths(t)) ==> !x.mode.Dir? && !x.mode.File?
  {
    KindsIn(env, t, plan, DirOrder(t), x, true, false);
    KindsIn(env, t, plan, FilePaths(t), x, false, true);
    KindsIn(env, t, plan, OtherPaths(t), x, false, false);
  }

  /** By position: a number that stands twice in a layer rendered without clashes stands for whiteouts only. */
  lemma AssembleLiveOnce(env: Env, t: Tree, plan: Plan)
    requires Covers(t, plan) && Distinct(plan)
    ensures LiveOnce(Assemble(env, t, plan))
  {
    var l, u := Assemble(env, t, plan), Unsorted(env, t, plan);
    AssembleFunctional(env, t, plan);
    forall i, j | 0 <= i < j < |l| && l[i].ino == l[j].ino ensures l[i].mode.Wht? && l[j].mode.Wht? {
      assert l[i] in l && l[j] in l;
      TwiceCounts(l, i, j);
      if !l[i].mode.Wht? {
        LiveCountedOnce(env, t, plan, l[i]);
      }
    }
  }
}
