/** Rollback of a migration from its backup. */
module Rollback {
  import opened Wrappers
  import opened Backup
  import opened BackupSuccess

  // ---------------------------------------------------------------------------
  // Rollback

  /** The backup's copy is put in the place of whatever is there. An item missing from the backup is only removed. */
  function Restore(t: Tree, dir: Path, item: Path): Option<Tree> {
    var cleared := Remove(t, item);
    var src := dir + item;
    if IsDir(cleared, src) then CopyTree(cleared, src, item)
    else if IsFile(cleared, src) && item != [] then CopyFile(cleared, src, item)
    else Some(cleared)
  }

  /** An I/O error while restoring an item leaves anything below it, and perhaps new parents of it. */
  function Spoilt(t: Tree, item: Path, left: Tree): Tree {
    Remove(t, item) +
    map p | p in left && (item <= p || (p in Ancestors(item) && p !in t)) :: if item <= p then left[p] else Dir
  }

  datatype Result = Result(tree: Tree, restored: seq<Path>, failed: seq<Path>)

  /** `trouble` says for which items an I/O error strikes, and what it leaves. */
  function RestoreOne(t: Tree, dir: Path, item: Path, trouble: Path -> Option<Tree>): (Tree, bool) {
    var r := Restore(t, dir, item);
    if trouble(item).Some? then (Spoilt(t, item, trouble(item).value), false)
    else if r.None? then (Remove(t, item), false)
    else (r.value, true)
  }

  function RestoreAll(t: Tree, dir: Path, items: seq<Path>, trouble: Path -> Option<Tree>): Result
    decreases |items|
  {
    if items == [] then Result(t, [], [])
    else
      var (t', ok) := RestoreOne(t, dir, items[0], trouble);
      var r := RestoreAll(t', dir, items[1..], trouble);
      if ok then r.(restored := [items[0]] + r.restored) else r.(failed := [items[0]] + r.failed)
  }

  /** `None` if there is no readable manifest. */
  function RollBack(t: Tree, dir: Path, trouble: Path -> Option<Tree>): Option<Result> {
    var m := dir + [MANIFEST];
    if !IsFile(t, m) || !t[m].content.Manifest? then None
    else Some(RestoreAll(t, dir, t[m].content.items, trouble))
  }

  // ---------------------------------------------------------------------------
  // Rollback restores

  lemma RestoreFrame(t: Tree, dir: Path, item: Path, trouble: Path -> Option<Tree>, p: Path)
    requires !(item <= p) && p !in Ancestors(item)
    ensures SameAt(RestoreOne(t, dir, item, trouble).0, t, p)
  {
    var cleared := Remove(t, item);
    if IsDir(cleared, dir + item) { CopiedElsewhere(cleared, dir + item, item, p); }
  }

  /** Restoring one item leaves everything apart from it alone. */
  lemma RestoreLeaves(t: Tree, dir: Path, item: Path, trouble: Path -> Option<Tree>, y: Path)
    requires Apart(y, item)
    ensures SameBelow(RestoreOne(t, dir, item, trouble).0, t, y)
  {
    forall p | y <= p
      ensures SameAt(RestoreOne(t, dir, item, trouble).0, t, p)
    {
      assert !(item <= p) by { if item <= p { CommonDescendant(y, item, p); } }
      assert p !in Ancestors(item);
      RestoreFrame(t, dir, item, trouble, p);
    }
  }

  lemma SameTransitive(a: Tree, b: Tree, c: Tree, y: Path)
    requires SameBelow(a, b, y) && SameBelow(b, c, y)
    ensures SameBelow(a, c, y)
  {
    forall p | y <= p
      ensures SameAt(a, c, p)
    {
      assert SameAt(a, b, p) && SameAt(b, c, p);
    }
  }

  lemma {:induction false} RestoreAllLeaves(
    t: Tree, dir: Path, items: seq<Path>, trouble: Path -> Option<Tree>, y: Path)
    requires forall i :: 0 <= i < |items| ==> Apart(y, items[i])
    ensures SameBelow(RestoreAll(t, dir, items, trouble).tree, t, y)
    decreases |items|
  {
    if items == [] {
      assert forall p :: SameAt(t, t, p);
    } else {
      var t' := RestoreOne(t, dir, items[0], trouble).0;
      RestoreLeaves(t, dir, items[0], trouble, y);
      RestoreAllLeaves(t', dir, items[1..], trouble, y);
      SameTransitive(RestoreAll(t', dir, items[1..], trouble).tree, t', t, y);
    }
  }

  lemma CopySurvives(t: Tree, t': Tree, t0: Tree, dir: Path, item: Path)
    requires CopyOf(t, t0, dir, item) && SameBelow(t', t, dir)
    ensures CopyOf(t', t0, dir, item)
  {
    forall p | item <= p
      ensures CopyAt(t', t0, dir, p)
    {
      assert CopyAt(t, t0, dir, p) && SameAt(t', t, dir + p);
    }
  }

  /** An item listed as restored is exactly as it was. */
  lemma OneRestored(t: Tree, t0: Tree, dir: Path, item: Path, trouble: Path -> Option<Tree>)
    requires WellFormed(t0) && CopyOf(t, t0, dir, item) && RestoreOne(t, dir, item, trouble).1
    ensures SameBelow(RestoreOne(t, dir, item, trouble).0, t0, item)
  {
    var t' := RestoreOne(t, dir, item, trouble).0;
    var cleared := Remove(t, item);
    assert item != [];
    forall p | item <= p
      ensures SameAt(t', t0, p)
    {
      assert CopyAt(t, t0, dir, p) && CopyAt(t, t0, dir, item);
      assert !(item <= dir + p) by { if item <= dir + p { CommonDescendant(item, dir, dir + p); } }
      assert !(item <= dir + item) by { if item <= dir + item { CommonDescendant(item, dir, dir + item); } }
      if IsDir(cleared, dir + item) {
        OriginIs(dir, item, p);
        CopiedBelow(cleared, dir + item, item, p);
      } else {
        BelowFile(t0, item, p);
      }
    }
  }

  /** A file that clashed in the backup comes back as a directory. */
  lemma ClashedComesBackWrong(t: Tree, t0: Tree, dir: Path, item: Path, trouble: Path -> Option<Tree>)
    requires IsFile(t0, item) && IsDir(t, dir + item) && Apart(dir, item) && RestoreOne(t, dir, item, trouble).1
    ensures IsDir(RestoreOne(t, dir, item, trouble).0, item)
  {
    var cleared := Remove(t, item);
    assert !(item <= dir + item) by { if item <= dir + item { CommonDescendant(item, dir, dir + item); } }
    OriginIs(dir, item, item);
    CopiedBelow(cleared, dir + item, item, item);
  }

  /** What the backup must hold of the items for a rollback to be judged. */
  ghost predicate Restorable(t: Tree, t0: Tree, dir: Path, item: Path) {
    && item in t0 && Apart(dir, item)
    && (if Clashes(t0, dir, item) then IsDir(t, dir + item) else CopyOf(t, t0, dir, item))
  }

  lemma RestorableSurvives(t: Tree, t': Tree, t0: Tree, dir: Path, item: Path)
    requires Restorable(t, t0, dir, item) && SameBelow(t', t, dir)
    ensures Restorable(t', t0, dir, item)
  {
    if Clashes(t0, dir, item) {
      assert SameAt(t', t, dir + item);
    } else {
      CopySurvives(t, t', t0, dir, item);
    }
  }

  /** Restored first, and left alone by everything after it. */
  lemma FirstRestored(t: Tree, t0: Tree, dir: Path, x: Path, rest: seq<Path>, trouble: Path -> Option<Tree>)
    requires WellFormed(t0) && Restorable(t, t0, dir, x) && RestoreOne(t, dir, x, trouble).1
    requires forall i :: 0 <= i < |rest| ==> Apart(x, rest[i])
    ensures var end := RestoreAll(RestoreOne(t, dir, x, trouble).0, dir, rest, trouble).tree;
            SameBelow(end, t0, x) <==> !Clashes(t0, dir, x)
  {
    var t' := RestoreOne(t, dir, x, trouble).0;
    var end := RestoreAll(t', dir, rest, trouble).tree;
    RestoreAllLeaves(t', dir, rest, trouble, x);
    if Clashes(t0, dir, x) {
      ClashedComesBackWrong(t, t0, dir, x, trouble);
      assert SameAt(end, t', x) && !SameAt(end, t0, x);
    } else {
      OneRestored(t, t0, dir, x, trouble);
      SameTransitive(end, t', t0, x);
    }
  }

  lemma {:induction false} AllRestored(t: Tree, t0: Tree, dir: Path, items: seq<Path>, trouble: Path -> Option<Tree>)
    requires WellFormed(t0) && AllApart(items)
    requires forall i :: 0 <= i < |items| ==> Restorable(t, t0, dir, items[i])
    ensures var r := RestoreAll(t, dir, items, trouble);
            && (forall y :: y in r.restored ==> (SameBelow(r.tree, t0, y) <==> !Clashes(t0, dir, y)))
            && (forall y :: y in items <==> y in r.restored || y in r.failed)
            && (r.failed == [] ==> r.restored == items)
    decreases |items|
  {
    if items != [] {
      var x, rest := items[0], items[1..];
      var (t', ok) := RestoreOne(t, dir, x, trouble);
      RestoreLeaves(t, dir, x, trouble, dir);
      forall i | 0 <= i < |rest|
        ensures Restorable(t', t0, dir, rest[i])
      {
        RestorableSurvives(t, t', t0, dir, items[i + 1]);
      }
      AllRestored(t', t0, dir, rest, trouble);
      if ok { FirstRestored(t, t0, dir, x, rest, trouble); }
      assert items == [x] + rest;
    }
  }

  lemma BackupRestorable(t0: Tree, dir: Path, plan: seq<Candidate>, t: Tree, i: nat)
    requires Ready(t0, dir, plan) && BackUp(t0, dir, plan).Some? && i < |Existing(t0, plan)|
    requires SameBelow(t, BackUp(t0, dir, plan).value, dir)
    ensures Restorable(t, t0, dir, Existing(t0, plan)[i])
  {
    var t1, y := BackUp(t0, dir, plan).value, Existing(t0, plan)[i];
    BackUpCopies(t0, dir, plan);
    BackUpLists(t0, dir, plan);
    assert y in t0 && Apart(dir, y);
    assert Restorable(t1, t0, dir, y);
    RestorableSurvives(t1, t, t0, dir, y);
  }

  /**
   Migration rollback: after a backup that succeeded, and whatever happened since outside the backup directory, every
   path a rollback lists as restored is exactly as at backup time if and only if it did not clash in the backup,
   whatever errors struck on the others; without errors the listed paths are all that were backed up. The backup
   itself survives.
   */
  lemma RollbackExactly(t0: Tree, dir: Path, plan: seq<Candidate>, t: Tree, trouble: Path -> Option<Tree>)
    requires Ready(t0, dir, plan)
    requires BackUp(t0, dir, plan).Some? && SameBelow(t, BackUp(t0, dir, plan).value, dir)
    ensures var r := RollBack(t, dir, trouble);
            && r.Some? && SameBelow(r.value.tree, t, dir)
            && (forall y :: y in r.value.restored ==> (SameBelow(r.value.tree, t0, y) <==> !Clashes(t0, dir, y)))
            && (forall y :: y in Existing(t0, plan) <==> y in r.value.restored || y in r.value.failed)
            && (r.value.failed == [] ==> r.value.restored == Existing(t0, plan))
  {
    var t1, items := BackUp(t0, dir, plan).value, Existing(t0, plan);
    BackUpCopies(t0, dir, plan);
    assert SameAt(t, t1, dir + [MANIFEST]);
    forall i | 0 <= i < |items|
      ensures Restorable(t, t0, dir, items[i])
    {
      BackupRestorable(t0, dir, plan, t, i);
    }
    AllRestored(t, t0, dir, items, trouble);
    RestoreAllLeaves(t, dir, items, trouble, dir);
  }

  ghost predicate NoClash(t0: Tree, dir: Path, plan: seq<Candidate>) {
    forall i :: 0 <= i < |plan| && plan[i].Single? ==> !Clashes(t0, dir, At(plan[i]))
  }

  lemma {:induction false} ExistingHas(t0: Tree, plan: seq<Candidate>, i: nat)
    requires i < |plan| && Present(t0, plan[i])
    ensures At(plan[i]) in Existing(t0, plan)
    decreases |plan|
  {
    if i > 0 { ExistingHas(t0, plan[1..], i - 1); }
  }

  lemma {:induction false} ExistingFrom(t0: Tree, plan: seq<Candidate>, y: Path) returns (i: nat)
    requires y in Existing(t0, plan)
    ensures i < |plan| && Present(t0, plan[i]) && At(plan[i]) == y
    decreases |plan|
  {
    if Present(t0, plan[0]) && At(plan[0]) == y {
      i := 0;
    } else {
      i := ExistingFrom(t0, plan[1..], y);
      i := i + 1;
    }
  }

  /** What a caller can check before: a rollback without errors brings everything back exactly iff no file clashes. */
  lemma RollbackRestoresAllExactly(t0: Tree, dir: Path, plan: seq<Candidate>, t: Tree, trouble: Path -> Option<Tree>)
    requires Ready(t0, dir, plan)
    requires BackUp(t0, dir, plan).Some? && SameBelow(t, BackUp(t0, dir, plan).value, dir)
    ensures var r := RollBack(t, dir, trouble);
            && r.Some?
            && (r.value.failed == [] ==>
                  ((forall y :: y in Existing(t0, plan) ==> SameBelow(r.value.tree, t0, y))
                   <==> NoClash(t0, dir, plan)))
  {
    RollbackExactly(t0, dir, plan, t, trouble);
    var r := RollBack(t, dir, trouble).value;
    if r.failed == [] {
      if NoClash(t0, dir, plan) {
        forall y | y in Existing(t0, plan)
          ensures SameBelow(r.tree, t0, y)
        {
          var i := ExistingFrom(t0, plan, y);
          assert !Clashes(t0, dir, At(plan[i]));
        }
      } else {
        var i :| 0 <= i < |plan| && plan[i].Single? && Clashes(t0, dir, At(plan[i]));
        ExistingHas(t0, plan, i);
        assert !SameBelow(r.tree, t0, At(plan[i]));
      }
    }
  }

  // ---------------------------------------------------------------------------
  // Which items are restored

  /** Files stay where they are on the way to another item, and none appears there. */
  lemma WayKept(t: Tree, dir: Path, x: Path, trouble: Path -> Option<Tree>, y: Path)
    requires Apart(x, y) && x != []
    ensures var t' := RestoreOne(t, dir, x, trouble).0;
            (Blocked(t', y) <==> Blocked(t, y)) && (IsDir(t, []) ==> IsDir(t', []))
  {
    var t' := RestoreOne(t, dir, x, trouble).0;
    forall i | 0 <= i < |y|
      ensures IsFile(t', y[..i]) <==> IsFile(t, y[..i])
    {
      assert !(x <= y[..i]);
      RestoreAbove(t, dir, x, trouble, y[..i]);
    }
    RestoreAbove(t, dir, x, trouble, []);
  }

  lemma RestoreAbove(t: Tree, dir: Path, x: Path, trouble: Path -> Option<Tree>, p: Path)
    requires !(x <= p)
    ensures var t' := RestoreOne(t, dir, x, trouble).0;
            (IsFile(t', p) <==> IsFile(t, p)) && (IsDir(t, p) ==> IsDir(t', p))
  {
    var cleared := Remove(t, x);
    if IsDir(cleared, dir + x) { CopiedElsewhere(cleared, dir + x, x, p); }
  }

  /** An item of the backup is restored exactly if no error strikes it and no file is in its way. */
  lemma OneGoesBack(t: Tree, t0: Tree, dir: Path, item: Path, trouble: Path -> Option<Tree>)
    requires Restorable(t, t0, dir, item) && IsDir(t, []) && (IsFile(t0, item) ==> |item| == 1)
    ensures RestoreOne(t, dir, item, trouble).1 <==> trouble(item).None? && !Blocked(t, item)
  {
    var cleared, src := Remove(t, item), dir + item;
    assert !(item <= src) by { if item <= src { CommonDescendant(item, dir, src); } }
    assert item != [] && dir <= src;
    forall i | 0 <= i < |item|
      ensures item[..i] in Ancestors(item) && (IsFile(cleared, item[..i]) <==> IsFile(t, item[..i]))
    {
      assert !(item <= item[..i]);
    }
    if !Clashes(t0, dir, item) {
      assert CopyAt(t, t0, dir, item);
      if IsFile(t0, item) { assert item[..0] == [] && IsDir(cleared, []); }
    }
  }

  lemma {:induction false} AllGoBack(t: Tree, t0: Tree, dir: Path, items: seq<Path>, trouble: Path -> Option<Tree>)
    requires AllApart(items) && IsDir(t, [])
    requires forall i :: 0 <= i < |items| ==> Restorable(t, t0, dir, items[i])
    requires forall i :: 0 <= i < |items| && IsFile(t0, items[i]) ==> |items[i]| == 1
    ensures var r := RestoreAll(t, dir, items, trouble);
            forall y :: (y in r.restored <==> y in items && trouble(y).None? && !Blocked(t, y))
                        && (y in r.failed <==> y in items && (trouble(y).Some? || Blocked(t, y)))
    decreases |items|
  {
    if items != [] {
      var x, rest := items[0], items[1..];
      var t' := RestoreOne(t, dir, x, trouble).0;
      OneGoesBack(t, t0, dir, x, trouble);
      RestoreLeaves(t, dir, x, trouble, dir);
      assert x != [];
      forall i | 0 <= i < |rest|
        ensures Restorable(t', t0, dir, rest[i]) && (Blocked(t', rest[i]) <==> Blocked(t, rest[i])) && rest[i] != x
      {
        RestorableSurvives(t, t', t0, dir, items[i + 1]);
        WayKept(t, dir, x, trouble, items[i + 1]);
      }
      RestoreAbove(t, dir, x, trouble, []);
      AllGoBack(t', t0, dir, rest, trouble);
      assert items == [x] + rest;
    }
  }

  /**
   Which items a rollback restores: exactly those that no error strikes and that no file is in the way of, whatever
   happened since the backup outside its directory.
   */
  lemma RestoredExactly(t0: Tree, dir: Path, plan: seq<Candidate>, t: Tree, trouble: Path -> Option<Tree>)
    requires Ready(t0, dir, plan) && IsDir(t, [])
    requires BackUp(t0, dir, plan).Some? && SameBelow(t, BackUp(t0, dir, plan).value, dir)
    ensures var r := RollBack(t, dir, trouble);
            && r.Some?
            && forall y ::
                 && (y in r.value.restored <==> y in Existing(t0, plan) && trouble(y).None? && !Blocked(t, y))
                 && (y in r.value.failed <==> y in Existing(t0, plan) && (trouble(y).Some? || Blocked(t, y)))
  {
    var t1, items := BackUp(t0, dir, plan).value, Existing(t0, plan);
    BackUpCopies(t0, dir, plan);
    assert SameAt(t, t1, dir + [MANIFEST]);
    forall i | 0 <= i < |items|
      ensures Restorable(t, t0, dir, items[i]) && (IsFile(t0, items[i]) ==> |items[i]| == 1)
    {
      BackupRestorable(t0, dir, plan, t, i);
      var k := ExistingFrom(t0, plan, items[i]);
    }
    AllGoBack(t, t0, dir, items, trouble);
  }

  // ---------------------------------------------------------------------------
  // A backup directory that is itself to be backed up

  lemma {:induction false} NothingToRestore(t: Tree, dir: Path, items: seq<Path>, trouble: Path -> Option<Tree>)
    requires (forall p :: p in t ==> !(dir <= p)) && (forall i :: 0 <= i < |items| ==> Apart(dir, items[i]))
    requires forall i :: 0 <= i < |items| ==> trouble(items[i]).None?
    ensures var r := RestoreAll(t, dir, items, trouble);
            && r.restored == items && (forall p :: p in r.tree ==> p in t)
            && (forall i :: 0 <= i < |items| ==> items[i] !in r.tree)
    decreases |items|
  {
    if items != [] {
      assert dir <= dir + items[0];
      assert RestoreOne(t, dir, items[0], trouble) == (Remove(t, items[0]), true);
      NothingToRestore(Remove(t, items[0]), dir, items[1..], trouble);
      assert forall i :: 1 <= i < |items| ==> items[i] == items[1..][i - 1];
    }
  }

  /**
   Why the configured paths must lie outside the backup directory: if that directory is the first item, a rollback
   without errors deletes the backup, then every other item, and reports all of them as restored.
   */
  lemma OwnDirectoryLosesAll(t: Tree, dir: Path, others: seq<Path>, trouble: Path -> Option<Tree>)
    requires forall i :: 0 <= i < |others| ==> Apart(dir, others[i])
    requires forall p :: trouble(p).None?
    ensures var r := RestoreAll(t, dir, [dir] + others, trouble);
            r.restored == [dir] + others && forall i :: 0 <= i < |others| ==> others[i] !in r.tree
  {
    assert dir <= dir + dir;
    assert RestoreOne(t, dir, dir, trouble) == (Remove(t, dir), true);
    assert ([dir] + others)[1..] == others;
    NothingToRestore(Remove(t, dir), dir, others, trouble);
  }

  // ---------------------------------------------------------------------------
  // A clash can happen

  lemma {:induction false} BackUpAbsent(s: Progress, dir: Path, plan: seq<Candidate>)
    requires forall i :: 0 <= i < |plan| ==> !Present(s.tree, plan[i])
    ensures BackUpAll(s, dir, plan) == Some(s)
    decreases |plan|
  {
    if plan != [] {
      assert BackUpOne(s, dir, plan[0]) == Some(s);
      BackUpAbsent(s, dir, plan[1..]);
    }
  }

  lemma {:induction false} BackUpFirst(s: Progress, dir: Path, absent: seq<Candidate>, rest: seq<Candidate>)
    requires forall i :: 0 <= i < |absent| ==> !Present(s.tree, absent[i])
    ensures BackUpAll(s, dir, absent + rest) == BackUpAll(s, dir, rest)
    decreases |absent|
  {
    if absent == [] {
      assert absent + rest == rest;
    } else {
      assert BackUpOne(s, dir, absent[0]) == Some(s);
      assert (absent + rest)[1..] == absent[1..] + rest;
      BackUpFirst(s, dir, absent[1..], rest);
    }
  }

  /** A project with an AGENTS.md, and a backup directory in which that name is a directory. */
  function ClashedProject(dir: Path, text: string): Tree {
    map[[] := Dir, ["AGENTS.md"] := File(Text(text)), dir := Dir, dir + ["AGENTS.md"] := Dir]
  }

  lemma ClashedProjectRooted(dir: Path, text: string)
    requires |dir| == 1 && dir != ["AGENTS.md"]
    ensures WellFormed(ClashedProject(dir, text))
  {
    var t := ClashedProject(dir, text);
    forall p | p in t
      ensures Rooted(t, p)
    {
      assert |p| == 2 ==> p[..1] == dir;
      assert |p| >= 1 ==> p[..0] == [];
    }
  }

  /** The backup succeeds on it, with any plan that looks for AGENTS.md and for nothing else that is there. */
  lemma ClashHappens(dir: Path, text: string, before: seq<Candidate>, after: seq<Candidate>)
    requires var t0, plan := ClashedProject(dir, text), before + [Single("AGENTS.md")] + after;
             && |dir| == 1 && GoodPlan(plan, dir)
             && (forall i :: 0 <= i < |before| ==> !Present(t0, before[i]))
             && (forall i :: 0 <= i < |after| ==> !Present(t0, after[i]))
    ensures var t0, plan := ClashedProject(dir, text), before + [Single("AGENTS.md")] + after;
            Ready(t0, dir, plan) && BackUp(t0, dir, plan).Some? && !NoClash(t0, dir, plan)
  {
    var t0, plan := ClashedProject(dir, text), before + [Single("AGENTS.md")] + after;
    var c, rest := Single("AGENTS.md"), [Single("AGENTS.md")] + after;
    assert plan[|before|] == c;
    ClashedProjectRooted(dir, text);
    assert t0[dir := Dir] == t0 && plan == before + rest;
    var s0 := Progress(t0, []);
    BackUpFirst(s0, dir, before, rest);
    ClashedCopy(dir, text);
    var s1 := BackUpOne(s0, dir, c).value;
    assert rest[0] == c && rest[1..] == after;
    assert BackUpAll(s0, dir, rest) == BackUpAll(s1, dir, after);
    forall i | 0 <= i < |after|
      ensures !Present(s1.tree, after[i])
    {
      assert after[i] == plan[|before| + 1 + i];
      assert dir <= dir + ["AGENTS.md"] + ["AGENTS.md"];
      assert !Present(t0, after[i]);
    }
    BackUpAbsent(s1, dir, after);
    assert (dir + [MANIFEST])[1] == MANIFEST && (dir + ["AGENTS.md"])[1] == "AGENTS.md" && |dir + [MANIFEST]| == 2;
    assert dir + [MANIFEST] !in s1.tree;
  }

  /** So it does with the plan of the program itself. */
  lemma ProgramClash(adapter: Path, core: Path, submodule: bool, timestamp: string, text: string)
    requires var t0 := ClashedProject(BackupDir(timestamp), text);
             && adapter !in t0 && core !in t0
             && !(BackupDir(timestamp) <= adapter) && !(BackupDir(timestamp) <= core)
    ensures var t0, dir := ClashedProject(BackupDir(timestamp), text), BackupDir(timestamp);
            var plan := Plan(adapter, core, submodule);
            Ready(t0, dir, plan) && BackUp(t0, dir, plan).Some? && !NoClash(t0, dir, plan)
  {
    var dir, plan := BackupDir(timestamp), Plan(adapter, core, submodule);
    var t0 := ClashedProject(dir, text);
    var k := if submodule then 5 else 4;
    var before, after := plan[..k], plan[k + 1..];
    assert plan == before + [Single("AGENTS.md")] + after;
    PlanIsGood(adapter, core, submodule, timestamp);
    BackupNameIsOther(timestamp);
    forall i | 0 <= i < |plan| && i != k
      ensures !Present(t0, plan[i])
    {
      PlanMember(adapter, core, submodule, i);
    }
    ClashHappens(dir, text, before, after);
  }

  lemma ClashedCopy(dir: Path, text: string)
    requires |dir| == 1 && dir != ["AGENTS.md"]
    ensures var s := BackUpOne(Progress(ClashedProject(dir, text), []), dir, Single("AGENTS.md"));
            && s.Some?
            && s.value.tree == ClashedProject(dir, text)[dir + ["AGENTS.md"] + ["AGENTS.md"] := File(Text(text))]
  {
    var t := ClashedProject(dir, text);
    var to := dir + ["AGENTS.md"] + ["AGENTS.md"];
    assert to[..2] == dir + ["AGENTS.md"] && |to| == 3 && to !in t;
  }

  // ---------------------------------------------------------------------------
  // The two operations on the file system itself

  /** What remains to be restored leads to the same end. */
  ghost predicate Reaches(
    start: Tree, items: seq<Path>, t: Tree, restored: seq<Path>, failed: seq<Path>, dir: Path, rest: seq<Path>,
    trouble: Path -> Option<Tree>)
  {
    var end, r := RestoreAll(start, dir, items, trouble), RestoreAll(t, dir, rest, trouble);
    end.tree == r.tree && end.restored == restored + r.restored && end.failed == failed + r.failed
  }

  lemma ReachesNext(
    start: Tree, items: seq<Path>, t: Tree, restored: seq<Path>, failed: seq<Path>, dir: Path, rest: seq<Path>,
    trouble: Path -> Option<Tree>)
    requires rest != [] && Reaches(start, items, t, restored, failed, dir, rest, trouble)
    ensures var (t', ok) := RestoreOne(t, dir, rest[0], trouble);
            Reaches(start, items, t', if ok then restored + [rest[0]] else restored,
                    if ok then failed else failed + [rest[0]], dir, rest[1..], trouble)
  {
  }

  class FileSystem {
    var tree: Tree

    constructor (tree: Tree)
      ensures this.tree == tree
    {
      this.tree := tree;
    }

    /** `ok` is false if an exception ended the backup. */
    method BackupV2State(adapter: Path, core: Path, submodule: bool, timestamp: string) returns (dir: Path, ok: bool)
      modifies this
      ensures dir == BackupDir(timestamp) == [".cypilot-v2-backup-" + timestamp]
      ensures ok == BackUp(old(tree), dir, Plan(adapter, core, submodule)).Some?
      ensures ok ==> tree == BackUp(old(tree), dir, Plan(adapter, core, submodule)).value
    {
      dir := BackupDir(timestamp);
      if IsFile(tree, dir) { return dir, false; }
      tree := tree[dir := Dir];
      var plan := Plan(adapter, core, submodule);
      var items: seq<Path> := [];
      ghost var start := Progress(tree, []);
      var i := 0;
      while i < |plan|
        invariant 0 <= i <= |plan|
        invariant BackUpAll(start, dir, plan) == BackUpAll(Progress(tree, items), dir, plan[i..])
      {
        var c := plan[i];
        var p := At(c);
        assert plan[i..][0] == c && plan[i..][1..] == plan[i + 1..];
        if c.Tree? && IsDir(tree, p) {
          var t := CopyTree(tree, p, dir + p);
          if t.None? { return dir, false; }
          tree, items := t.value, items + [p];
        } else if c.Single? && IsFile(tree, p) {
          var t := CopyFile(tree, p, dir + p);
          if t.None? { return dir, false; }
          tree, items := t.value, items + [p];
        }
        i := i + 1;
      }
      if IsDir(tree, dir + [MANIFEST]) { return dir, false; }
      tree := tree[dir + [MANIFEST] := File(Manifest(items))];
      ok := true;
    }

    method RestoreItem(dir: Path, item: Path, trouble: Path -> Option<Tree>) returns (ok: bool)
      modifies this
      ensures var r := RestoreOne(old(tree), dir, item, trouble); tree == r.0 && ok == r.1
    {
      if trouble(item).Some? {
        tree := Spoilt(tree, item, trouble(item).value);
        return false;
      }
      var src := dir + item;
      tree := Remove(tree, item);
      if IsDir(tree, src) {
        var t := CopyTree(tree, src, item);
        if t.None? { return false; }
        tree := t.value;
      } else if IsFile(tree, src) && item != [] {
        var t := CopyFile(tree, src, item);
        if t.None? { return false; }
        tree := t.value;
      }
      return true;
    }

    /** `found` is false if there is no readable manifest. */
    method Rollback(dir: Path, trouble: Path -> Option<Tree>)
      returns (found: bool, restored: seq<Path>, failed: seq<Path>)
      modifies this
      ensures var r := RollBack(old(tree), dir, trouble);
              && found == r.Some?
              && (found ==> Result(tree, restored, failed) == r.value)
              && (!found ==> tree == old(tree))
    {
      restored, failed := [], [];
      var m := dir + [MANIFEST];
      if !IsFile(tree, m) || !tree[m].content.Manifest? { return false, restored, failed; }
      var items := tree[m].content.items;
      ghost var start := tree;
      var i := 0;
      while i < |items|
        invariant 0 <= i <= |items|
        invariant Reaches(start, items, tree, restored, failed, dir, items[i..], trouble)
      {
        var item := items[i];
        assert items[i..][0] == item && items[i..][1..] == items[i + 1..];
        ReachesNext(start, items, tree, restored, failed, dir, items[i..], trouble);
        var ok := RestoreItem(dir, item, trouble);
        if ok { restored := restored + [item]; } else { failed := failed + [item]; }
        i := i + 1;
      }
      found := true;
    }
  }

  /** Everything outside the backup directory is as the migration leaves it. */
  function Migrated(t: Tree, migrated: Tree, dir: Path): Tree {
    (map p | p in migrated && !(dir <= p) :: migrated[p]) + (map p | p in t && dir <= p :: t[p])
  }

  lemma MigratedWay(t: Tree, migrated: Tree, dir: Path, y: Path)
    requires !(dir <= y)
    ensures Blocked(Migrated(t, migrated, dir), y) <==> Blocked(migrated, y)
  {
    forall i | 0 <= i < |y|
      ensures IsFile(Migrated(t, migrated, dir), y[..i]) <==> IsFile(migrated, y[..i])
    {
      assert dir <= y[..i] ==> dir <= y;
    }
  }

  /** The promise of a rollback, with the items told by the tree that the migration leaves. */
  ghost predicate RolledBack(
    t0: Tree, dir: Path, plan: seq<Candidate>, migrated: Tree, trouble: Path -> Option<Tree>, r: Result)
  {
    && (forall y :: y in r.restored ==> (SameBelow(r.tree, t0, y) <==> !Clashes(t0, dir, y)))
    && (forall y :: y in Existing(t0, plan) <==> y in r.restored || y in r.failed)
    && (r.failed == [] ==> r.restored == Existing(t0, plan))
    && (IsDir(migrated, []) ==>
          forall y :: y in r.restored <==> y in Existing(t0, plan) && trouble(y).None? && !Blocked(migrated, y))
  }

  lemma RollbackAfter(t0: Tree, dir: Path, plan: seq<Candidate>, migrated: Tree, trouble: Path -> Option<Tree>)
    requires Ready(t0, dir, plan) && BackUp(t0, dir, plan).Some?
    ensures var r := RollBack(Migrated(BackUp(t0, dir, plan).value, migrated, dir), dir, trouble);
            r.Some? && RolledBack(t0, dir, plan, migrated, trouble, r.value)
  {
    var t1 := BackUp(t0, dir, plan).value;
    var t := Migrated(t1, migrated, dir);
    assert forall p {:trigger SameAt(t, t1, p)} :: dir <= p ==> SameAt(t, t1, p);
    RollbackExactly(t0, dir, plan, t, trouble);
    if IsDir(migrated, []) {
      assert IsDir(t, []);
      RestoredExactly(t0, dir, plan, t, trouble);
      forall y | y in Existing(t0, plan)
        ensures Blocked(t, y) <==> Blocked(migrated, y)
      {
        var k := ExistingFrom(t0, plan, y);
        MigratedWay(t1, migrated, dir, y);
      }
    }
  }

  /** Backing up, any change outside the backup directory, and rolling back. */
  method MigrateAndRollBack(
    fs: FileSystem, adapter: Path, core: Path, submodule: bool, timestamp: string, migrated: Tree,
    trouble: Path -> Option<Tree>) returns (found: bool, restored: seq<Path>, failed: seq<Path>)
    requires WellFormed(fs.tree) && IsDir(fs.tree, [])
    requires !(BackupDir(timestamp) <= adapter) && !(BackupDir(timestamp) <= core)
    modifies fs
    ensures found <==> BackUp(old(fs.tree), BackupDir(timestamp), Plan(adapter, core, submodule)).Some?
    ensures found ==>
              RolledBack(old(fs.tree), BackupDir(timestamp), Plan(adapter, core, submodule), migrated, trouble,
                         Result(fs.tree, restored, failed))
  {
    ghost var t0 := fs.tree;
    var dir, ok := fs.BackupV2State(adapter, core, submodule, timestamp);
    if !ok { return false, [], []; }
    PlanIsGood(adapter, core, submodule, timestamp);
    fs.tree := Migrated(fs.tree, migrated, dir);
    RollbackAfter(t0, dir, Plan(adapter, core, submodule), migrated, trouble);
    found, restored, failed := fs.Rollback(dir, trouble);
  }
}
