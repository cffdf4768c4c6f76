/** When a backup goes through: exactly if nothing it needs is in its way, in the project or in an older backup. */
module BackupSuccess {
  import opened Wrappers
  import opened Backup

  /** A file where a directory on the way to the path should be. */
  ghost predicate Blocked(t: Tree, p: Path) {
    exists i :: 0 <= i < |p| && IsFile(t, p[..i])
  }

  /** What was in the backup directory before is in the way of a candidate. */
  ghost predicate Obstructed(t0: Tree, dir: Path, c: Candidate) {
    match c
    case Tree(p) => IsDir(t0, p) && (p == [] || dir + p in t0 || Blocked(t0, dir + p))
    case Single(name) => IsFile(t0, [name]) && IsDir(t0, dir + [name, name])
  }

  ghost predicate Unobstructed(t0: Tree, dir: Path, plan: seq<Candidate>) {
    forall i :: 0 <= i < |plan| ==> !Obstructed(t0, dir, plan[i])
  }

  /** The name of the manifest is free. */
  ghost predicate ManifestFree(t0: Tree, dir: Path, items: seq<Path>) {
    !IsDir(t0, dir + [MANIFEST]) && forall i :: 0 <= i < |items| ==> !([MANIFEST] <= items[i])
  }

  predicate Related(x: Path, q: Path) {
    x <= q || q <= x
  }

  ghost predicate RelatedToSome(items: seq<Path>, q: Path) {
    exists i :: 0 <= i < |items| && Related(items[i], q)
  }

  /** The backup directory differs from what it was only around the items copied so far. */
  ghost predicate Explained(s: Progress, t0: Tree, dir: Path) {
    forall q: Path {:trigger SameAt(s.tree, t0, dir + q)} ::
      q == [] || SameAt(s.tree, t0, dir + q) || RelatedToSome(s.items, q)
  }

  /** Nothing that was there is gone or has changed its kind. */
  ghost predicate KindsStay(t: Tree, t': Tree) {
    forall p {:trigger p in t'} :: p in t ==> p in t' && (t[p].Dir? <==> t'[p].Dir?)
  }

  ghost predicate Tracked(s: Progress, t0: Tree, dir: Path) {
    BackedUp(s, t0, dir) && Explained(s, t0, dir) && KindsStay(t0, s.tree)
  }

  // ---------------------------------------------------------------------------
  // One candidate

  lemma RelatedOn(items: seq<Path>, x: Path, q: Path)
    requires RelatedToSome(items, q) || Related(x, q)
    ensures RelatedToSome(items + [x], q)
  {
    if RelatedToSome(items, q) {
      var i :| 0 <= i < |items| && Related(items[i], q);
      assert (items + [x])[i] == items[i];
    } else {
      assert (items + [x])[|items|] == x;
    }
  }

  /** A tree is copied exactly if its place is free and reachable. */
  lemma TreeGoes(s: Progress, t0: Tree, dir: Path, x: Path)
    requires Tracked(s, t0, dir) && !(dir <= x) && IsDir(t0, x)
    requires forall i :: 0 <= i < |s.items| ==> Apart(s.items[i], x)
    ensures CopyTree(s.tree, x, dir + x).Some? <==> !Obstructed(t0, dir, Tree(x))
  {
    var t := s.tree;
    assert dir + [] == dir;
    if dir + x in t0 {
      assert dir + x in t;
    } else if Blocked(t0, dir + x) {
      var i :| 0 <= i < |dir + x| && IsFile(t0, (dir + x)[..i]);
      var p := (dir + x)[..i];
      assert p in t && IsFile(t, p) && p in Ancestors(dir + x);
    } else if x != [] {
      assert SameAt(t, t0, dir + x);
      forall p | p in Ancestors(dir + x)
        ensures !IsFile(t, p)
      {
        FreeWay(s, t0, dir, x, p);
      }
    }
  }

  lemma FreeWay(s: Progress, t0: Tree, dir: Path, x: Path, p: Path)
    requires Tracked(s, t0, dir) && !Blocked(t0, dir + x) && p in Ancestors(dir + x)
    requires forall i :: 0 <= i < |s.items| ==> Apart(s.items[i], x)
    ensures !IsFile(s.tree, p)
  {
    var i :| 0 <= i < |dir + x| && (dir + x)[..i] == p;
    if i == 0 {
      assert Rooted(s.tree, dir) && dir[..0] == p;
    } else {
      var q := x[..i - 1];
      assert p == dir + q && q <= x;
      if q == [] {
        assert p == dir;
      } else if SameAt(s.tree, t0, dir + q) {
        assert !IsFile(t0, p);
      } else {
        var k :| 0 <= k < |s.items| && Related(s.items[k], q);
        var y := s.items[k];
        assert q <= y by { if y <= q { PrefixOn(y, q, x); } }
        ItemThere(s, t0, dir, k);
        DirAbove(s.tree, dir, q, y);
      }
    }
  }

  lemma PrefixOn(a: Path, b: Path, c: Path)
    requires a <= b && b <= c
    ensures a <= c
  {
  }

  lemma ItemThere(s: Progress, t0: Tree, dir: Path, k: nat)
    requires BackedUp(s, t0, dir) && k < |s.items|
    ensures dir + s.items[k] in s.tree
  {
    var y := s.items[k];
    if Clashes(t0, dir, y) {
      assert IsDir(s.tree, dir + y);
    } else {
      assert CopyOf(s.tree, t0, dir, y) && CopyAt(s.tree, t0, dir, y);
    }
  }

  lemma DirAbove(t: Tree, dir: Path, q: Path, y: Path)
    requires WellFormed(t) && dir + y in t && q <= y && q != y
    ensures IsDir(t, dir + q)
  {
    assert Rooted(t, dir + y) && (dir + y)[..|dir + q|] == dir + q;
  }

  /** A single file is copied exactly if there is no directory of its name in a directory of its name. */
  lemma SingleGoes(s: Progress, t0: Tree, dir: Path, name: string)
    requires Tracked(s, t0, dir) && dir != [name] && IsFile(t0, [name]) && [name] !in s.items
    ensures IsFile(s.tree, [name])
    ensures CopyFile(s.tree, [name], dir + [name]).Some? <==> !Obstructed(t0, dir, Single(name))
  {
    var t, x: Path, xx: Path := s.tree, [name], [name, name];
    assert SameAt(t, t0, x);
    assert dir + x + [name] == dir + xx && (dir + xx)[..|dir + x|] == dir + x && (dir + x)[..|dir|] == dir;
    if IsDir(t0, dir + xx) {
      assert Rooted(t0, dir + xx) && IsDir(t0, dir + x);
      assert dir + xx in t && dir + x in t;
    } else if IsDir(t, dir + x) {
      assert !IsDir(t, dir + xx) by {
        if !SameAt(t, t0, dir + xx) {
          var k :| 0 <= k < |s.items| && Related(s.items[k], xx);
          SingleApart(s, t0, dir, name, k);
          NearTwice(s.items[k], name);
        }
      }
    }
  }

  lemma NearTwice(y: Path, name: string)
    requires Related(y, [name, name])
    ensures Related(y, [name])
  {
    assert [name] <= [name, name];
    if y <= [name, name] { CommonDescendant(y, [name], [name, name]); }
  }

  lemma TreeTracked(s: Progress, t0: Tree, dir: Path, x: Path)
    requires Tracked(s, t0, dir) && !(dir <= x) && IsDir(s.tree, x) && CopyTree(s.tree, x, dir + x).Some?
    ensures Tracked(Progress(Copied(s.tree, x, dir + x), s.items + [x]), t0, dir)
  {
    var t, t' := s.tree, Copied(s.tree, x, dir + x);
    TreeBackedUp(s, t0, dir, x);
    forall p | p in t0
      ensures p in t' && (t0[p].Dir? <==> t'[p].Dir?)
    {
      assert p in t;
      CopyKeeps(t, x, dir + x, p);
    }
    forall q: Path
      ensures q == [] || SameAt(t', t0, dir + q) || RelatedToSome(s.items + [x], q)
    {
      if RelatedToSome(s.items, q) || Related(x, q) {
        RelatedOn(s.items, x, q);
      } else if q != [] {
        assert SameAt(t, t0, dir + q);
        TreeElsewhere(t, dir, x, q);
      }
    }
  }

  lemma TreeElsewhere(t: Tree, dir: Path, x: Path, q: Path)
    requires !Related(x, q)
    ensures SameAt(Copied(t, x, dir + x), t, dir + q)
  {
    assert !(dir + x <= dir + q) by { if dir + x <= dir + q { BelowBoth(dir, x, q); } }
    assert dir + q !in Ancestors(dir + x) by { if dir + q in Ancestors(dir + x) { ParentOf(dir, x, q); } }
    CopiedElsewhere(t, x, dir + x, dir + q);
  }

  lemma SingleTracked(s: Progress, t0: Tree, dir: Path, name: string)
    requires Tracked(s, t0, dir) && dir != [name] && name != MANIFEST && [name] !in s.items
    requires IsFile(s.tree, [name]) && CopyFile(s.tree, [name], dir + [name]).Some?
    ensures Tracked(Progress(CopyFile(s.tree, [name], dir + [name]).value, s.items + [[name]]), t0, dir)
  {
    var t, x: Path, to := s.tree, [name], Destination(s.tree, dir, name);
    var t' := t[to := t[x]];
    SingleBackedUp(s, t0, dir, name);
    SingleSound(t, t0, dir, name);
    assert dir + x <= to && !IsDir(t, to);
    forall p | p in t0
      ensures p in t' && (t0[p].Dir? <==> t'[p].Dir?)
    {
      assert p in t;
    }
    forall q: Path
      ensures q == [] || SameAt(t', t0, dir + q) || RelatedToSome(s.items + [x], q)
    {
      if RelatedToSome(s.items, q) || Related(x, q) {
        RelatedOn(s.items, x, q);
      } else if q != [] {
        assert SameAt(t, t0, dir + q);
        assert dir + q != to by { if dir + q == to { BelowBoth(dir, x, q); } }
      }
    }
  }

  // ---------------------------------------------------------------------------
  // The whole plan

  ghost predicate Going(s: Progress, t0: Tree, dir: Path, plan: seq<Candidate>) {
    Tracked(s, t0, dir) && GoodPlan(plan, dir) && SinglesAhead(s, t0, plan)
  }

  /** The items to come are apart from each other and from those already copied. */
  ghost predicate NextApart(s: Progress, t0: Tree, c: Candidate) {
    Present(t0, c) ==> forall i :: 0 <= i < |s.items| ==> Apart(s.items[i], At(c))
  }

  /** A candidate goes through exactly if nothing is in its way; a tree that overlaps an earlier item does not. */
  lemma OneGoes(s: Progress, t0: Tree, dir: Path, c: Candidate)
    requires Tracked(s, t0, dir) && !(dir <= At(c)) && c != Single(MANIFEST)
    requires c.Single? && IsFile(t0, At(c)) ==> At(c) !in s.items
    ensures BackUpOne(s, dir, c).Some? <==> !Obstructed(t0, dir, c) && NextApart(s, t0, c)
    ensures BackUpOne(s, dir, c).Some? ==> Tracked(BackUpOne(s, dir, c).value, t0, dir)
  {
    assert SameAt(s.tree, t0, At(c));
    match c
    case Tree(x) =>
      if IsDir(t0, x) {
        if NextApart(s, t0, c) {
          TreeGoes(s, t0, dir, x);
        } else {
          OverlapRefused(s, t0, dir, x);
        }
        if CopyTree(s.tree, x, dir + x).Some? { TreeTracked(s, t0, dir, x); }
      }
    case Single(name) =>
      if IsFile(t0, [name]) {
        SingleGoes(s, t0, dir, name);
        forall i | 0 <= i < |s.items|
          ensures Apart(s.items[i], [name])
        {
          SingleApart(s, t0, dir, name, i);
        }
        if CopyFile(s.tree, [name], dir + [name]).Some? { SingleTracked(s, t0, dir, name); }
      }
  }

  lemma OverlapRefused(s: Progress, t0: Tree, dir: Path, x: Path)
    requires Tracked(s, t0, dir) && IsDir(t0, x) && !NextApart(s, t0, Tree(x))
    ensures CopyTree(s.tree, x, dir + x).None?
  {
    if dir + x !in s.tree {
      forall i | 0 <= i < |s.items|
        ensures Apart(s.items[i], x)
      {
        NewIsApart(s, t0, dir, x, i);
      }
    }
  }

  lemma {:induction false} AllGo(s: Progress, t0: Tree, dir: Path, plan: seq<Candidate>)
    requires Going(s, t0, dir, plan)
    ensures BackUpAll(s, dir, plan).Some? <==>
            Unobstructed(t0, dir, plan) && AllApart(s.items + Existing(t0, plan))
    ensures BackUpAll(s, dir, plan).Some? ==>
              var s' := BackUpAll(s, dir, plan).value;
              Tracked(s', t0, dir) && s'.items == s.items + Existing(t0, plan)
    decreases |plan|
  {
    if plan == [] {
      assert s.items + [] == s.items;
    } else {
      var c, rest := plan[0], plan[1..];
      GoodTail(plan, dir);
      OneGoes(s, t0, dir, c);
      UnobstructedTail(t0, dir, plan);
      ItemsOn(s.items, t0, plan);
      if BackUpOne(s, dir, c).Some? {
        var s1 := BackUpOne(s, dir, c).value;
        OneSound(s, t0, dir, c);
        PlanTail(s, s1, t0, dir, plan);
        AllGo(s1, t0, dir, rest);
      } else {
        OverlapStays(s, t0, plan);
      }
    }
  }

  lemma UnobstructedTail(t0: Tree, dir: Path, plan: seq<Candidate>)
    requires plan != []
    ensures Unobstructed(t0, dir, plan) <==> !Obstructed(t0, dir, plan[0]) && Unobstructed(t0, dir, plan[1..])
  {
    assert forall i :: 0 <= i < |plan[1..]| ==> plan[1..][i] == plan[i + 1];
    if !Obstructed(t0, dir, plan[0]) && Unobstructed(t0, dir, plan[1..]) {
      forall i | 0 <= i < |plan|
        ensures !Obstructed(t0, dir, plan[i])
      {
        if i > 0 { assert plan[i] == plan[1..][i - 1]; }
      }
    }
  }

  lemma OverlapStays(s: Progress, t0: Tree, plan: seq<Candidate>)
    requires plan != []
    ensures AllApart(s.items + Existing(t0, plan)) ==> NextApart(s, t0, plan[0])
  {
    if Present(t0, plan[0]) {
      var all := s.items + Existing(t0, plan);
      assert all[|s.items|] == At(plan[0]);
      assert forall i :: 0 <= i < |s.items| ==> all[i] == s.items[i];
    }
  }

  /** The backup writes its manifest exactly if the name is free. */
  lemma ManifestGoes(s: Progress, t0: Tree, dir: Path)
    requires Tracked(s, t0, dir)
    ensures WriteManifest(s, dir).Some? <==> ManifestFree(t0, dir, s.items)
  {
    var m: Path := [MANIFEST];
    if IsDir(t0, dir + m) {
      assert dir + m in s.tree;
    } else if k :| 0 <= k < |s.items| && m <= s.items[k] {
      var y := s.items[k];
      ItemThere(s, t0, dir, k);
      if y == m {
        assert CopyOf(s.tree, t0, dir, y) && CopyAt(s.tree, t0, dir, y);
      } else {
        DirAbove(s.tree, dir, m, y);
      }
    } else {
      assert SameAt(s.tree, t0, dir + m) || RelatedToSome(s.items, m);
    }
  }

  lemma MadeTracked(t0: Tree, dir: Path)
    requires WellFormed(t0) && IsDir(t0, []) && |dir| == 1 && !IsFile(t0, dir)
    ensures Tracked(Progress(t0[dir := Dir], []), t0, dir)
  {
    MadeSound(t0, dir);
    assert forall q: Path :: q != [] ==> dir + q != dir;
  }

  /**
   A backup goes through exactly if there is no file in the place of its directory, the paths it is to copy do not
   overlap, nothing left from an older backup is in the way of any, and the name of the manifest is free.
   */
  lemma BackUpSucceedsExactly(t0: Tree, dir: Path, plan: seq<Candidate>)
    requires Ready(t0, dir, plan)
    ensures BackUp(t0, dir, plan).Some? <==>
            && !IsFile(t0, dir) && AllApart(Existing(t0, plan)) && Unobstructed(t0, dir, plan)
            && ManifestFree(t0, dir, Existing(t0, plan))
  {
    if !IsFile(t0, dir) {
      var s := Progress(t0[dir := Dir], []);
      MadeTracked(t0, dir);
      AllGo(s, t0, dir, plan);
      assert [] + Existing(t0, plan) == Existing(t0, plan);
      if BackUpAll(s, dir, plan).Some? { ManifestGoes(BackUpAll(s, dir, plan).value, t0, dir); }
    }
  }

  /** Into a new directory: exactly if the paths do not overlap and none is the project itself or the manifest's. */
  lemma FreshBackUpExactly(t0: Tree, dir: Path, plan: seq<Candidate>)
    requires Ready(t0, dir, plan) && dir !in t0
    ensures BackUp(t0, dir, plan).Some? <==>
            && AllApart(Existing(t0, plan)) && (forall i :: 0 <= i < |plan| ==> plan[i] != Tree([]))
            && forall i :: 0 <= i < |Existing(t0, plan)| ==> !(["manifest.json"] <= Existing(t0, plan)[i])
  {
    BackUpSucceedsExactly(t0, dir, plan);
    forall p: Path | dir <= p
      ensures p !in t0
    {
      BelowNothing(t0, dir, p);
    }
    assert dir <= dir + [MANIFEST];
    forall i | 0 <= i < |plan|
      ensures Obstructed(t0, dir, plan[i]) <==> plan[i] == Tree([])
    {
      FreshFree(t0, dir, plan[i]);
    }
  }

  lemma FreshFree(t0: Tree, dir: Path, c: Candidate)
    requires WellFormed(t0) && IsDir(t0, []) && |dir| == 1 && forall p: Path :: dir <= p ==> p !in t0
    ensures Obstructed(t0, dir, c) <==> c == Tree([])
  {
    match c
    case Tree(x) =>
      assert dir <= dir + x;
      if i :| 0 <= i < |dir + x| && IsFile(t0, (dir + x)[..i]) {
        ShortAncestor(dir, x, (dir + x)[..i]);
      }
    case Single(name) => assert dir <= dir + [name, name];
  }
}
