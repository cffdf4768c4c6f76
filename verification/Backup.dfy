/** Backup of a project's files before migration: a copy that mirrors everything it lists. */
module Backup {
  import opened Wrappers

  /** A path below the project root, as its components; `a <= b` says that b is at or below a. */
  type Path = seq<string>

  /** The manifest's text stands for the list of paths it records. */
  datatype Content = Text(text: string) | Manifest(items: seq<Path>)

  datatype Node = Dir | File(content: Content)

  type Tree = map<Path, Node>

  // ---------------------------------------------------------------------------
  // File operations; `None` is an OSError

  predicate IsDir(t: Tree, p: Path) { p in t && t[p].Dir? }

  predicate IsFile(t: Tree, p: Path) { p in t && t[p].File? }

  function Ancestors(p: Path): set<Path> {
    set i | 0 <= i < |p| :: p[..i]
  }

  function Images(t: Tree, src: Path, dst: Path): set<Path> {
    set p | p in t && src <= p :: dst + p[|src|..]
  }

  /** Where a path below `dst` comes from when `src` is copied to it. */
  function Origin(p: Path, src: Path, dst: Path): Path
    requires dst <= p
  {
    src + p[|dst|..]
  }

  function Copied(t: Tree, src: Path, dst: Path): Tree {
    map p | p in t.Keys + Ancestors(dst) + Images(t, src, dst) ::
      if dst <= p && Origin(p, src, dst) in t then t[Origin(p, src, dst)] else if p in t then t[p] else Dir
  }

  /** Creates missing parents; refuses a destination that exists or lies below a file. */
  function CopyTree(t: Tree, src: Path, dst: Path): Option<Tree> {
    if dst in t || exists p :: p in Ancestors(dst) && IsFile(t, p) then None else Some(Copied(t, src, dst))
  }

  /** Copies into a destination that is a directory; overwrites a file; needs the parent directory. */
  function CopyFile(t: Tree, src: Path, dst: Path): Option<Tree>
    requires src in t && src != [] && dst != []
  {
    var to := if IsDir(t, dst) then dst + [src[|src| - 1]] else dst;
    if IsDir(t, to) || !IsDir(t, to[..|to| - 1]) then None else Some(t[to := t[src]])
  }

  function Remove(t: Tree, dst: Path): Tree {
    map p | p in t && !(dst <= p) :: t[p]
  }

  // ---------------------------------------------------------------------------
  // Backup

  datatype Candidate = Tree(path: Path) | Single(name: string)

  function At(c: Candidate): Path {
    match c
    case Tree(path) => path
    case Single(name) => [name]
  }

  /** Everything a backup looks for, in order. */
  function Plan(adapter: Path, core: Path, submodule: bool): seq<Candidate> {
    [Tree(adapter), Single(".cypilot-config.json"), Single("cypilot-agents.json"), Tree(core)] +
    (if submodule then [Single(".gitmodules")] else []) +
    [Single("AGENTS.md"), Tree([".windsurf"]), Tree([".cursor"]), Tree([".claude"]), Tree([".github"])]
  }

  const MANIFEST := "manifest.json"

  /** What has been copied so far. */
  datatype Progress = Progress(tree: Tree, items: seq<Path>)

  /** A candidate that exists, with the right kind, is copied below `dir`. */
  function BackUpOne(s: Progress, dir: Path, c: Candidate): Option<Progress> {
    var p := At(c);
    if c.Tree? then
      if !IsDir(s.tree, p) then Some(s)
      else
        var t := CopyTree(s.tree, p, dir + p);
        if t.None? then None else Some(Progress(t.value, s.items + [p]))
    else
      if !IsFile(s.tree, p) then Some(s)
      else
        var t := CopyFile(s.tree, p, dir + p);
        if t.None? then None else Some(Progress(t.value, s.items + [p]))
  }

  function BackUpAll(s: Progress, dir: Path, plan: seq<Candidate>): Option<Progress>
    decreases |plan|
  {
    if plan == [] then Some(s)
    else
      var s' := BackUpOne(s, dir, plan[0]);
      if s'.None? then None else BackUpAll(s'.value, dir, plan[1..])
  }

  function WriteManifest(s: Progress, dir: Path): Option<Tree> {
    if IsDir(s.tree, dir + [MANIFEST]) then None
    else Some(s.tree[dir + [MANIFEST] := File(Manifest(s.items))])
  }

  /** A directory that is there already will do; a file in its place will not. */
  function MakeDir(t: Tree, dir: Path): Option<Tree> {
    if IsFile(t, dir) then None else Some(t[dir := Dir])
  }

  function BackUp(t: Tree, dir: Path, plan: seq<Candidate>): Option<Tree> {
    var made := MakeDir(t, dir);
    var s := if made.None? then None else BackUpAll(Progress(made.value, []), dir, plan);
    if s.None? then None else WriteManifest(s.value, dir)
  }

  // ---------------------------------------------------------------------------
  // Trees

  predicate SameAt(t: Tree, u: Tree, p: Path) {
    (p in t <==> p in u) && (p in t && p in u ==> t[p] == u[p])
  }

  /** The item is in `t` exactly as it is in `u`. */
  ghost predicate SameBelow(t: Tree, u: Tree, item: Path) {
    forall p {:trigger SameAt(t, u, p)} :: item <= p ==> SameAt(t, u, p)
  }

  predicate Rooted(t: Tree, p: Path) {
    forall i :: 0 <= i < |p| ==> IsDir(t, p[..i])
  }

  /** A file tree: every path lies in a directory. */
  ghost predicate WellFormed(t: Tree) {
    forall p {:trigger Rooted(t, p)} :: p in t ==> Rooted(t, p)
  }

  predicate Apart(a: Path, b: Path) {
    !(a <= b) && !(b <= a)
  }

  predicate AllApart(items: seq<Path>) {
    forall i, j :: 0 <= i < j < |items| ==> Apart(items[i], items[j])
  }

  lemma CommonDescendant(a: Path, b: Path, p: Path)
    requires a <= p && b <= p
    ensures a <= b || b <= a
  {
    if |a| <= |b| { assert a == p[..|a|] == b[..|a|]; } else { assert b == p[..|b|] == a[..|b|]; }
  }

  // ---------------------------------------------------------------------------
  // What a copied tree holds

  lemma CopiedBelow(t: Tree, src: Path, dst: Path, p: Path)
    requires dst <= p
    ensures var o := Origin(p, src, dst);
            && (p in Copied(t, src, dst) <==> p in t || o in t)
            && (o in t ==> Copied(t, src, dst)[p] == t[o])
            && (o !in t && p in t ==> Copied(t, src, dst)[p] == t[p])
  {
    var o := Origin(p, src, dst);
    if o in t {
      assert src <= o && dst + o[|src|..] == p;
      assert p in Images(t, src, dst);
    }
    if p in Images(t, src, dst) {
      var p' :| p' in t && src <= p' && dst + p'[|src|..] == p;
      assert o == src + p'[|src|..] == p';
    }
    assert p !in Ancestors(dst);
  }

  lemma CopiedElsewhere(t: Tree, src: Path, dst: Path, p: Path)
    requires !(dst <= p)
    ensures && (p in Copied(t, src, dst) <==> p in t || p in Ancestors(dst))
            && (p in t ==> Copied(t, src, dst)[p] == t[p])
            && (p !in t && p in Ancestors(dst) ==> Copied(t, src, dst)[p] == Dir)
  {
    assert p !in Images(t, src, dst);
  }

  lemma OriginIs(dir: Path, x: Path, q: Path)
    requires x <= q
    ensures dir + x <= dir + q && Origin(dir + q, x, dir + x) == q && Origin(q, dir + x, x) == dir + q
  {
  }

  lemma BelowBoth(dir: Path, x: Path, q: Path)
    requires dir + x <= dir + q
    ensures x <= q
  {
    assert forall i :: 0 <= i < |x| ==> x[i] == (dir + x)[|dir| + i] == (dir + q)[|dir| + i] == q[i];
  }

  lemma ParentOf(dir: Path, x: Path, q: Path)
    requires dir + q in Ancestors(dir + x)
    ensures |q| < |x| && q == x[..|q|]
  {
    var i :| 0 <= i < |dir + x| && (dir + x)[..i] == dir + q;
    assert i == |dir| + |q|;
    assert x[..|q|] == (dir + x)[|dir|..i] == (dir + q)[|dir|..] == q;
  }

  lemma ShortAncestor(dir: Path, x: Path, p: Path)
    requires |dir| == 1 && p in Ancestors(dir + x)
    ensures p == [] || dir <= p
  {
  }

  lemma BelowFile(t: Tree, x: Path, q: Path)
    requires WellFormed(t) && IsFile(t, x)
    ensures q in t && x <= q ==> q == x
  {
    if q in t && x <= q {
      assert Rooted(t, q) && q[..|x|] == x;
    }
  }

  lemma BelowNothing(t: Tree, x: Path, q: Path)
    requires WellFormed(t) && x !in t && x <= q
    ensures q !in t
  {
    assert q[..|x|] == x && (|x| == |q| ==> x == q);
    assert q in t ==> Rooted(t, q);
  }

  lemma AncestorPrefix(dst: Path, p: Path, i: nat)
    requires p in Ancestors(dst) && i < |p|
    ensures p[..i] in Ancestors(dst) && !(dst <= p[..i])
  {
    var n :| 0 <= n < |dst| && dst[..n] == p;
    assert dst[..n][..i] == dst[..i];
  }

  /** Nothing is lost by a copy, and directories stay directories. */
  lemma CopyKeeps(t: Tree, src: Path, dst: Path, p: Path)
    requires WellFormed(t) && CopyTree(t, src, dst).Some? && p in t
    ensures p in Copied(t, src, dst) && Copied(t, src, dst)[p] == t[p]
  {
    if dst <= p {
      BelowNothing(t, dst, p);
    } else {
      CopiedElsewhere(t, src, dst, p);
    }
  }

  lemma CopiedAncestor(t: Tree, src: Path, dst: Path, p: Path)
    requires WellFormed(t) && CopyTree(t, src, dst).Some? && p in Ancestors(dst)
    ensures IsDir(Copied(t, src, dst), p)
  {
    CopiedElsewhere(t, src, dst, p);
    assert !IsFile(t, p);
  }

  lemma CopiedRooted(t: Tree, src: Path, dst: Path, p: Path, i: nat)
    requires WellFormed(t) && IsDir(t, src) && CopyTree(t, src, dst).Some? && p in Copied(t, src, dst) && i < |p|
    ensures IsDir(Copied(t, src, dst), p[..i])
  {
    var t' := Copied(t, src, dst);
    if p in t {
      assert Rooted(t, p);
      CopyKeeps(t, src, dst, p[..i]);
    } else if dst <= p {
      CopiedBelow(t, src, dst, p);
      var o := Origin(p, src, dst);
      if i < |dst| {
        assert p[..i] == dst[..i];
        CopiedAncestor(t, src, dst, p[..i]);
      } else {
        assert dst <= p[..i] && Origin(p[..i], src, dst) == o[..|src| + i - |dst|];
        CopiedBelow(t, src, dst, p[..i]);
        assert Rooted(t, o);
      }
    } else {
      CopiedElsewhere(t, src, dst, p);
      AncestorPrefix(dst, p, i);
      CopiedAncestor(t, src, dst, p[..i]);
    }
  }

  lemma CopyWellFormed(t: Tree, src: Path, dst: Path)
    requires WellFormed(t) && IsDir(t, src) && CopyTree(t, src, dst).Some?
    ensures WellFormed(Copied(t, src, dst))
  {
    var t' := Copied(t, src, dst);
    forall p | p in t'
      ensures Rooted(t', p)
    {
      forall i | 0 <= i < |p|
        ensures IsDir(t', p[..i])
      {
        CopiedRooted(t, src, dst, p, i);
      }
    }
  }

  /** Putting a file where no directory is, into a directory. */
  lemma PutWellFormed(t: Tree, to: Path, node: Node)
    requires WellFormed(t) && node.File? && to != [] && !IsDir(t, to) && IsDir(t, to[..|to| - 1])
    ensures WellFormed(t[to := node])
  {
    var t' := t[to := node];
    var parent := to[..|to| - 1];
    assert Rooted(t, parent);
    forall p | p in t'
      ensures Rooted(t', p)
    {
      forall i | 0 <= i < |p|
        ensures IsDir(t', p[..i])
      {
        if p == to {
          assert p[..i] == if i < |parent| then parent[..i] else parent;
        } else {
          assert Rooted(t, p);
        }
      }
    }
  }

  // ---------------------------------------------------------------------------
  // Every backup: a file tree, unchanged outside its directory

  ghost predicate Outside(t: Tree, t0: Tree, dir: Path) {
    forall p {:trigger SameAt(t, t0, p)} :: !(dir <= p) ==> SameAt(t, t0, p)
  }

  ghost predicate Sound(t: Tree, t0: Tree, dir: Path) {
    WellFormed(t) && Outside(t, t0, dir) && |dir| == 1 && IsDir(t, dir)
  }

  ghost predicate DirsStay(t: Tree, t': Tree) {
    forall p {:trigger IsDir(t', p)} :: IsDir(t, p) ==> IsDir(t', p)
  }

  lemma TreeSound(t: Tree, t0: Tree, dir: Path, x: Path)
    requires Sound(t, t0, dir) && IsDir(t, x) && CopyTree(t, x, dir + x).Some?
    ensures var t' := Copied(t, x, dir + x); Sound(t', t0, dir) && DirsStay(t, t')
  {
    var t' := Copied(t, x, dir + x);
    CopyWellFormed(t, x, dir + x);
    forall p | IsDir(t, p)
      ensures IsDir(t', p)
    {
      CopyKeeps(t, x, dir + x, p);
    }
    forall p | !(dir <= p)
      ensures SameAt(t', t0, p)
    {
      assert SameAt(t, t0, p) && dir <= dir + x;
      CopiedElsewhere(t, x, dir + x, p);
      if p in Ancestors(dir + x) {
        ShortAncestor(dir, x, p);
        assert Rooted(t, dir) && dir[..0] == p;
      }
    }
  }

  /** Where a single file goes: into a directory of its name, if there is one. */
  function Destination(t: Tree, dir: Path, name: string): Path {
    if IsDir(t, dir + [name]) then dir + [name] + [name] else dir + [name]
  }

  lemma SingleSound(t: Tree, t0: Tree, dir: Path, name: string)
    requires Sound(t, t0, dir) && IsFile(t, [name]) && CopyFile(t, [name], dir + [name]).Some?
    ensures var t' := CopyFile(t, [name], dir + [name]).value;
            && t' == t[Destination(t, dir, name) := t[[name]]]
            && Sound(t', t0, dir) && DirsStay(t, t')
  {
    var to := Destination(t, dir, name);
    var t' := t[to := t[[name]]];
    assert dir <= to && to[..|to| - 1] == if IsDir(t, dir + [name]) then dir + [name] else dir;
    PutWellFormed(t, to, t[[name]]);
    forall p | !(dir <= p)
      ensures SameAt(t', t0, p)
    {
      assert SameAt(t, t0, p);
    }
  }

  /** Paths to copy lie outside the backup directory; no single file is listed twice or called like the manifest. */
  predicate GoodPlan(plan: seq<Candidate>, dir: Path) {
    && (forall i :: 0 <= i < |plan| ==> !(dir <= At(plan[i])) && plan[i] != Single(MANIFEST))
    && (forall i, j :: 0 <= i < j < |plan| && plan[i].Single? && plan[j].Single? ==> plan[i] != plan[j])
  }

  predicate Present(t0: Tree, c: Candidate) {
    if c.Tree? then IsDir(t0, At(c)) else IsFile(t0, At(c))
  }

  /** The paths of the plan that the project has. */
  function Existing(t0: Tree, plan: seq<Candidate>): seq<Path>
    decreases |plan|
  {
    if plan == [] then []
    else (if Present(t0, plan[0]) then [At(plan[0])] else []) + Existing(t0, plan[1..])
  }

  lemma OneSound(s: Progress, t0: Tree, dir: Path, c: Candidate)
    requires Sound(s.tree, t0, dir) && !(dir <= At(c)) && BackUpOne(s, dir, c).Some?
    ensures var s' := BackUpOne(s, dir, c).value;
            && SoundOn(s.tree, s'.tree, t0, dir)
            && s'.items == s.items + (if Present(t0, c) then [At(c)] else [])
  {
    assert SameAt(s.tree, t0, At(c));
    match c
    case Tree(x) => if IsDir(s.tree, x) { TreeSound(s.tree, t0, dir, x); }
    case Single(name) => if IsFile(s.tree, [name]) { SingleSound(s.tree, t0, dir, name); }
  }

  lemma BackUpHead(s: Progress, dir: Path, plan: seq<Candidate>)
    requires plan != [] && BackUpAll(s, dir, plan).Some?
    ensures BackUpOne(s, dir, plan[0]).Some?
    ensures BackUpAll(s, dir, plan) == BackUpAll(BackUpOne(s, dir, plan[0]).value, dir, plan[1..])
  {
  }

  lemma GoodTail(plan: seq<Candidate>, dir: Path)
    requires plan != [] && GoodPlan(plan, dir)
    ensures GoodPlan(plan[1..], dir) && !(dir <= At(plan[0])) && plan[0] != Single(MANIFEST)
  {
    assert forall i :: 0 <= i < |plan[1..]| ==> plan[1..][i] == plan[i + 1];
  }

  /** A tree from which the backup can go on, soundly. */
  ghost predicate SoundOn(t: Tree, t': Tree, t0: Tree, dir: Path) {
    Sound(t', t0, dir) && DirsStay(t, t')
  }

  lemma DirsStayOn(t: Tree, t1: Tree, t2: Tree)
    requires DirsStay(t, t1) && DirsStay(t1, t2)
    ensures DirsStay(t, t2)
  {
    forall p | IsDir(t, p)
      ensures IsDir(t2, p)
    {
      assert IsDir(t1, p);
    }
  }

  lemma SoundOnOn(t: Tree, t1: Tree, t2: Tree, t0: Tree, dir: Path)
    requires SoundOn(t, t1, t0, dir) && SoundOn(t1, t2, t0, dir)
    ensures SoundOn(t, t2, t0, dir)
  {
    DirsStayOn(t, t1, t2);
  }

  lemma ItemsOn(items: seq<Path>, t0: Tree, plan: seq<Candidate>)
    requires plan != []
    ensures items + (if Present(t0, plan[0]) then [At(plan[0])] else []) + Existing(t0, plan[1..])
            == items + Existing(t0, plan)
  {
  }

  /** The manifest lists exactly what exists of the plan, and nothing outside the backup directory changes. */
  lemma {:induction false} AllSound(s: Progress, t0: Tree, dir: Path, plan: seq<Candidate>)
    requires Sound(s.tree, t0, dir) && GoodPlan(plan, dir) && BackUpAll(s, dir, plan).Some?
    ensures var s' := BackUpAll(s, dir, plan).value;
            SoundOn(s.tree, s'.tree, t0, dir) && s'.items == s.items + Existing(t0, plan)
    decreases |plan|
  {
    if plan == [] {
      assert BackUpAll(s, dir, plan) == Some(s);
    } else {
      BackUpHead(s, dir, plan);
      GoodTail(plan, dir);
      OneSound(s, t0, dir, plan[0]);
      var s1 := BackUpOne(s, dir, plan[0]).value;
      AllSound(s1, t0, dir, plan[1..]);
      ItemsOn(s.items, t0, plan);
      SoundOnOn(s.tree, s1.tree, BackUpAll(s1, dir, plan[1..]).value.tree, t0, dir);
    }
  }

  // ---------------------------------------------------------------------------
  // Exact backups

  predicate CopyAt(t: Tree, t0: Tree, dir: Path, p: Path) {
    (dir + p in t <==> p in t0) && (dir + p in t && p in t0 ==> t[dir + p] == t0[p])
  }

  /** The backup holds the item exactly as it is in `t0`. */
  ghost predicate CopyOf(t: Tree, t0: Tree, dir: Path, item: Path) {
    && item in t0 && Apart(dir, item)
    && forall p {:trigger CopyAt(t, t0, dir, p)} :: item <= p ==> CopyAt(t, t0, dir, p)
  }

  /** The project has a file, and the backup directory had a directory of its name before: the copy goes into that. */
  predicate Clashes(t0: Tree, dir: Path, item: Path) {
    IsFile(t0, item) && IsDir(t0, dir + item)
  }

  ghost predicate AllCopied(t: Tree, t0: Tree, dir: Path, items: seq<Path>) {
    forall i :: 0 <= i < |items| && !Clashes(t0, dir, items[i]) ==> CopyOf(t, t0, dir, items[i])
  }

  ghost predicate AllListed(t0: Tree, dir: Path, items: seq<Path>) {
    forall i :: 0 <= i < |items| ==> items[i] in t0 && Apart(dir, items[i])
  }

  /** The directories directly below the backup directory are old, or stand for directories of the project. */
  ghost predicate DirsExplained(t: Tree, t0: Tree, dir: Path) {
    forall name: string {:trigger IsDir(t, dir + [name])} ::
      IsDir(t, dir + [name]) ==> IsDir(t0, dir + [name]) || IsDir(t0, [name])
  }

  ghost predicate BackedUp(s: Progress, t0: Tree, dir: Path) {
    && Sound(s.tree, t0, dir) && WellFormed(t0) && DirsExplained(s.tree, t0, dir) && DirsStay(t0, s.tree)
    && AllListed(t0, dir, s.items) && AllCopied(s.tree, t0, dir, s.items) && AllApart(s.items)
    && ([MANIFEST] in s.items ==> IsDir(t0, [MANIFEST]))
  }

  lemma SourceOutside(t: Tree, t0: Tree, dir: Path, x: Path, q: Path)
    requires Outside(t, t0, dir) && |dir| == 1 && !(dir <= x) && x != [] && x <= q
    ensures !(dir <= q) && SameAt(t, t0, q)
  {
    if dir <= q { CommonDescendant(dir, x, q); }
  }

  /** A destination not yet in the backup is apart from all that has been backed up. */
  lemma NewIsApart(s: Progress, t0: Tree, dir: Path, x: Path, i: nat)
    requires BackedUp(s, t0, dir) && IsDir(t0, x) && dir + x !in s.tree && i < |s.items|
    ensures Apart(s.items[i], x)
  {
    var y := s.items[i];
    if Clashes(t0, dir, y) {
      assert IsDir(s.tree, dir + y);
      BelowFile(t0, y, x);
    } else {
      assert CopyOf(s.tree, t0, dir, y) && CopyAt(s.tree, t0, dir, y);
      assert y <= x ==> CopyAt(s.tree, t0, dir, x);
    }
    BelowBothIn(s.tree, dir, x, y);
  }

  lemma BelowBothIn(t: Tree, dir: Path, x: Path, y: Path)
    requires WellFormed(t) && dir + y in t
    ensures x <= y ==> dir + x in t
  {
    if x <= y && x != y {
      assert Rooted(t, dir + y) && (dir + y)[..|dir + x|] == dir + x;
    }
  }

  lemma TreeCopied(t: Tree, t0: Tree, dir: Path, x: Path)
    requires Sound(t, t0, dir) && !(dir <= x) && x != [] && IsDir(t, x) && CopyTree(t, x, dir + x).Some?
    ensures CopyOf(Copied(t, x, dir + x), t0, dir, x)
  {
    assert SameAt(t, t0, x);
    assert x <= dir ==> x == [] || x == dir;
    forall q | x <= q
      ensures CopyAt(Copied(t, x, dir + x), t0, dir, q)
    {
      OriginIs(dir, x, q);
      CopiedBelow(t, x, dir + x, dir + q);
      SourceOutside(t, t0, dir, x, q);
      BelowNothing(t, dir + x, dir + q);
    }
  }

  lemma TreeLeaves(t: Tree, t0: Tree, dir: Path, x: Path, y: Path)
    requires Sound(t, t0, dir) && CopyTree(t, x, dir + x).Some? && CopyOf(t, t0, dir, y) && Apart(y, x)
    ensures CopyOf(Copied(t, x, dir + x), t0, dir, y)
  {
    forall q | y <= q
      ensures CopyAt(Copied(t, x, dir + x), t0, dir, q)
    {
      assert CopyAt(t, t0, dir, q);
      assert !(dir + x <= dir + q) by { if dir + x <= dir + q { BelowBoth(dir, x, q); CommonDescendant(x, y, q); } }
      CopiedElsewhere(t, x, dir + x, dir + q);
      assert dir + q !in Ancestors(dir + x) by { if dir + q in Ancestors(dir + x) { ParentOf(dir, x, q); } }
    }
  }

  lemma TreeExplained(t: Tree, t0: Tree, dir: Path, x: Path, name: string)
    requires Sound(t, t0, dir) && WellFormed(t0) && DirsExplained(t, t0, dir)
    requires !(dir <= x) && x != [] && IsDir(t, x) && CopyTree(t, x, dir + x).Some?
    ensures IsDir(Copied(t, x, dir + x), dir + [name]) ==> IsDir(t0, dir + [name]) || IsDir(t0, [name])
  {
    var q: Path := [name];
    assert IsDir(t, dir + q) ==> IsDir(t0, dir + q) || IsDir(t0, q);
    assert SameAt(t, t0, x);
    if dir + x <= dir + q {
      BelowBoth(dir, x, q);
      assert x == q;
    } else {
      CopiedElsewhere(t, x, dir + x, dir + q);
      if dir + q in Ancestors(dir + x) {
        ParentOf(dir, x, q);
        assert Rooted(t0, x);
      }
    }
  }

  lemma TreeBackedUp(s: Progress, t0: Tree, dir: Path, x: Path)
    requires BackedUp(s, t0, dir) && !(dir <= x) && IsDir(s.tree, x) && CopyTree(s.tree, x, dir + x).Some?
    ensures BackedUp(Progress(CopyTree(s.tree, x, dir + x).value, s.items + [x]), t0, dir)
  {
    var t' := Copied(s.tree, x, dir + x);
    assert SameAt(s.tree, t0, x) && dir + [] == dir;
    assert x <= dir ==> x == [] || x == dir;
    TreeSound(s.tree, t0, dir, x);
    DirsStayOn(t0, s.tree, t');
    TreeCopied(s.tree, t0, dir, x);
    forall i | 0 <= i < |s.items|
      ensures Apart(s.items[i], x)
      ensures !Clashes(t0, dir, s.items[i]) ==> CopyOf(t', t0, dir, s.items[i])
    {
      NewIsApart(s, t0, dir, x, i);
      if !Clashes(t0, dir, s.items[i]) { TreeLeaves(s.tree, t0, dir, x, s.items[i]); }
    }
    forall name: string
      ensures IsDir(t', dir + [name]) ==> IsDir(t0, dir + [name]) || IsDir(t0, [name])
    {
      TreeExplained(s.tree, t0, dir, x, name);
    }
  }

  lemma SingleApart(s: Progress, t0: Tree, dir: Path, name: string, i: nat)
    requires BackedUp(s, t0, dir) && IsFile(t0, [name]) && [name] !in s.items && i < |s.items|
    ensures Apart(s.items[i], [name])
  {
    var x: Path, y := [name], s.items[i];
    assert y in t0 && Apart(dir, y);
    BelowFile(t0, x, y);
    assert y <= x ==> y == [] || y == x;
    assert y == [] ==> y <= dir;
  }

  lemma SingleCopied(t: Tree, t0: Tree, dir: Path, name: string)
    requires Sound(t, t0, dir) && WellFormed(t0) && dir != [name] && IsFile(t, [name]) && !IsDir(t, dir + [name])
    ensures CopyOf(t[dir + [name] := t[[name]]], t0, dir, [name])
  {
    var x: Path := [name];
    var t' := t[dir + x := t[x]];
    assert SameAt(t, t0, x);
    forall q | x <= q
      ensures CopyAt(t', t0, dir, q)
    {
      BelowFile(t0, x, q);
      OriginIs(dir, x, q);
      if q == x {
        assert dir + q == dir + x;
      } else {
        assert |q| > |x|;
        if dir + x in t { BelowFile(t, dir + x, dir + q); } else { BelowNothing(t, dir + x, dir + q); }
      }
    }
  }

  lemma SingleLeaves(t: Tree, t0: Tree, dir: Path, x: Path, to: Path, node: Node, y: Path)
    requires CopyOf(t, t0, dir, y) && Apart(y, x) && dir + x <= to
    ensures CopyOf(t[to := node], t0, dir, y)
  {
    var t' := t[to := node];
    forall q | y <= q
      ensures CopyAt(t', t0, dir, q)
    {
      assert CopyAt(t, t0, dir, q);
      assert dir + q != to by { if dir + q == to { BelowBoth(dir, x, q); CommonDescendant(x, y, q); } }
    }
  }

  lemma SingleBackedUp(s: Progress, t0: Tree, dir: Path, name: string)
    requires BackedUp(s, t0, dir) && dir != [name] && name != MANIFEST && [name] !in s.items
    requires IsFile(s.tree, [name]) && CopyFile(s.tree, [name], dir + [name]).Some?
    ensures BackedUp(Progress(CopyFile(s.tree, [name], dir + [name]).value, s.items + [[name]]), t0, dir)
  {
    var x: Path, to := [name], Destination(s.tree, dir, name);
    var t' := s.tree[to := s.tree[x]];
    assert SameAt(s.tree, t0, x) && Apart(dir, x) && dir + x <= to;
    SingleSound(s.tree, t0, dir, name);
    DirsStayOn(t0, s.tree, t');
    if !Clashes(t0, dir, x) {
      assert !IsDir(s.tree, dir + [name]);
      SingleCopied(s.tree, t0, dir, name);
    }
    forall i | 0 <= i < |s.items|
      ensures Apart(s.items[i], x)
      ensures !Clashes(t0, dir, s.items[i]) ==> CopyOf(t', t0, dir, s.items[i])
    {
      SingleApart(s, t0, dir, name, i);
      if !Clashes(t0, dir, s.items[i]) { SingleLeaves(s.tree, t0, dir, x, to, s.tree[x], s.items[i]); }
    }
    forall other: string
      ensures IsDir(t', dir + [other]) ==> IsDir(t0, dir + [other]) || IsDir(t0, [other])
    {
      assert IsDir(s.tree, dir + [other]) ==> IsDir(t0, dir + [other]) || IsDir(t0, [other]);
    }
  }

  /** No single file of the plan has been copied yet. */
  ghost predicate SinglesAhead(s: Progress, t0: Tree, plan: seq<Candidate>) {
    forall i :: 0 <= i < |plan| && plan[i].Single? && IsFile(t0, At(plan[i])) ==> At(plan[i]) !in s.items
  }

  lemma PlanTail(s: Progress, s': Progress, t0: Tree, dir: Path, plan: seq<Candidate>)
    requires plan != [] && GoodPlan(plan, dir) && SinglesAhead(s, t0, plan)
    requires s'.items == s.items + (if Present(t0, plan[0]) then [At(plan[0])] else [])
    ensures GoodPlan(plan[1..], dir) && SinglesAhead(s', t0, plan[1..])
  {
    assert forall i :: 0 <= i < |plan[1..]| ==> plan[1..][i] == plan[i + 1];
  }

  /** The backup is as it should be so far, and the plan can go on. */
  ghost predicate OnTrack(s: Progress, t0: Tree, dir: Path, plan: seq<Candidate>) {
    BackedUp(s, t0, dir) && GoodPlan(plan, dir) && SinglesAhead(s, t0, plan)
  }

  lemma OneBackedUp(s: Progress, t0: Tree, dir: Path, c: Candidate)
    requires BackedUp(s, t0, dir) && !(dir <= At(c)) && c != Single(MANIFEST) && BackUpOne(s, dir, c).Some?
    requires c.Single? && IsFile(t0, At(c)) ==> At(c) !in s.items
    ensures BackedUp(BackUpOne(s, dir, c).value, t0, dir)
  {
    assert SameAt(s.tree, t0, At(c));
    match c
    case Tree(x) => if IsDir(s.tree, x) { TreeBackedUp(s, t0, dir, x); }
    case Single(name) => if IsFile(s.tree, [name]) { SingleBackedUp(s, t0, dir, name); }
  }

  lemma StaysOnTrack(s: Progress, t0: Tree, dir: Path, plan: seq<Candidate>)
    requires plan != [] && OnTrack(s, t0, dir, plan) && BackUpOne(s, dir, plan[0]).Some?
    ensures OnTrack(BackUpOne(s, dir, plan[0]).value, t0, dir, plan[1..])
  {
    GoodTail(plan, dir);
    OneBackedUp(s, t0, dir, plan[0]);
    OneSound(s, t0, dir, plan[0]);
    PlanTail(s, BackUpOne(s, dir, plan[0]).value, t0, dir, plan);
    assert forall i :: 0 <= i < |plan[1..]| ==> plan[1..][i] == plan[i + 1];
  }

  /** Every item backed up is apart from every other, although nothing asks for it: an overlapping copy is refused. */
  lemma {:induction false} AllBackedUp(s: Progress, t0: Tree, dir: Path, plan: seq<Candidate>)
    requires OnTrack(s, t0, dir, plan) && BackUpAll(s, dir, plan).Some?
    ensures OnTrack(BackUpAll(s, dir, plan).value, t0, dir, [])
    decreases |plan|
  {
    if plan == [] {
      assert plan == [];
    } else {
      BackUpHead(s, dir, plan);
      StaysOnTrack(s, t0, dir, plan);
      AllBackedUp(BackUpOne(s, dir, plan[0]).value, t0, dir, plan[1..]);
    }
  }

  // ---------------------------------------------------------------------------
  // The manifest

  /** A manifest of items apart from each other, each but those that clash held exactly as it is in `t0`. */
  ghost predicate GoodBackup(t: Tree, t0: Tree, dir: Path, items: seq<Path>) {
    && dir + [MANIFEST] in t && t[dir + [MANIFEST]] == File(Manifest(items))
    && AllApart(items) && AllListed(t0, dir, items) && AllCopied(t, t0, dir, items)
  }

  lemma ManifestNotBackedUp(s: Progress, t0: Tree, dir: Path, i: nat, p: Path)
    requires BackedUp(s, t0, dir) && WriteManifest(s, dir).Some? && i < |s.items| && s.items[i] <= p
    requires !Clashes(t0, dir, s.items[i])
    ensures dir + p != dir + [MANIFEST]
  {
    var x := s.items[i];
    assert CopyOf(s.tree, t0, dir, x) && CopyAt(s.tree, t0, dir, x);
    assert x == [] ==> x <= dir;
    assert x <= [MANIFEST] ==> x == [] || x == [MANIFEST];
    assert p == (dir + p)[1..] && [MANIFEST] == (dir + [MANIFEST])[1..];
  }

  lemma ManifestKeeps(s: Progress, t0: Tree, dir: Path)
    requires BackedUp(s, t0, dir) && WriteManifest(s, dir).Some?
    ensures GoodBackup(WriteManifest(s, dir).value, t0, dir, s.items)
  {
    var t := WriteManifest(s, dir).value;
    forall i | 0 <= i < |s.items| && !Clashes(t0, dir, s.items[i])
      ensures CopyOf(t, t0, dir, s.items[i])
    {
      assert CopyOf(s.tree, t0, dir, s.items[i]);
      forall p | s.items[i] <= p
        ensures CopyAt(t, t0, dir, p)
      {
        ManifestNotBackedUp(s, t0, dir, i, p);
        assert CopyAt(s.tree, t0, dir, p);
      }
    }
  }

  /** What a backup needs: a file tree, and a directory directly below its root that is not itself to be copied. */
  ghost predicate Ready(t0: Tree, dir: Path, plan: seq<Candidate>) {
    WellFormed(t0) && IsDir(t0, []) && |dir| == 1 && GoodPlan(plan, dir)
  }

  lemma MadeSound(t0: Tree, dir: Path)
    requires WellFormed(t0) && IsDir(t0, []) && |dir| == 1 && !IsFile(t0, dir)
    ensures var t := t0[dir := Dir]; Sound(t, t0, dir) && DirsExplained(t, t0, dir) && DirsStay(t0, t)
  {
    var t := t0[dir := Dir];
    forall p | p in t
      ensures Rooted(t, p)
    {
      if p == dir { assert dir[..0] == []; } else { assert Rooted(t0, p); }
    }
    forall name: string
      ensures IsDir(t, dir + [name]) ==> IsDir(t0, dir + [name]) || IsDir(t0, [name])
    {
      assert |dir + [name]| == 2;
    }
  }

  /** Nothing outside the backup directory changes, and the manifest lists what exists of the plan. */
  lemma BackUpLists(t0: Tree, dir: Path, plan: seq<Candidate>)
    requires Ready(t0, dir, plan) && BackUp(t0, dir, plan).Some?
    ensures var t := BackUp(t0, dir, plan).value;
            && Outside(t, t0, dir) && dir + ["manifest.json"] in t
            && t[dir + ["manifest.json"]] == File(Manifest(Existing(t0, plan)))
            && forall p :: IsDir(t0, p) ==> IsDir(t, p)
  {
    var s0 := Progress(t0[dir := Dir], []);
    MadeSound(t0, dir);
    AllSound(s0, t0, dir, plan);
    var s := BackUpAll(s0, dir, plan).value;
    assert s.items == Existing(t0, plan);
    SoundOnOn(t0, s0.tree, s.tree, t0, dir);
    var t := BackUp(t0, dir, plan).value;
    forall p | IsDir(t0, p)
      ensures IsDir(t, p)
    {
      assert IsDir(s.tree, p);
    }
    forall p | !(dir <= p)
      ensures SameAt(t, t0, p)
    {
      assert SameAt(s.tree, t0, p);
    }
  }

  lemma BackUpCopies(t0: Tree, dir: Path, plan: seq<Candidate>)
    requires Ready(t0, dir, plan) && BackUp(t0, dir, plan).Some?
    ensures GoodBackup(BackUp(t0, dir, plan).value, t0, dir, Existing(t0, plan))
  {
    var s0 := Progress(t0[dir := Dir], []);
    MadeSound(t0, dir);
    AllSound(s0, t0, dir, plan);
    AllBackedUp(s0, t0, dir, plan);
    assert BackUpAll(s0, dir, plan).value.items == Existing(t0, plan);
    ManifestKeeps(BackUpAll(s0, dir, plan).value, t0, dir);
  }

  /**
   A backup that succeeds holds an item exactly if and only if it does not clash, that is, if it is not a file for
   whose name the backup directory had a directory before.
   */
  lemma BackUpExactly(t0: Tree, dir: Path, plan: seq<Candidate>, item: Path)
    requires Ready(t0, dir, plan) && BackUp(t0, dir, plan).Some? && item in Existing(t0, plan)
    ensures CopyOf(BackUp(t0, dir, plan).value, t0, dir, item) <==> !Clashes(t0, dir, item)
  {
    var t, items := BackUp(t0, dir, plan).value, Existing(t0, plan);
    var k :| 0 <= k < |items| && items[k] == item;
    BackUpCopies(t0, dir, plan);
    if Clashes(t0, dir, item) {
      BackUpLists(t0, dir, plan);
      assert IsDir(t, dir + item) && !CopyAt(t, t0, dir, item);
    }
  }

  /** Where the program puts its backups. */
  function BackupDir(timestamp: string): Path {
    [".cypilot-v2-backup-" + timestamp]
  }

  predicate SingleName(name: string) {
    name == ".cypilot-config.json" || name == "cypilot-agents.json" || name == ".gitmodules" || name == "AGENTS.md"
  }

  predicate AgentDir(name: string) {
    name == ".windsurf" || name == ".cursor" || name == ".claude" || name == ".github"
  }

  lemma BackupNameIsOther(timestamp: string)
    ensures var name := BackupDir(timestamp)[0]; !SingleName(name) && !AgentDir(name)
  {
    var name := ".cypilot-v2-backup-" + timestamp;
    assert name[0] == '.' && name[1] == 'c' && name[2] == 'y' && name[9] == 'v';
  }

  lemma PlanMember(adapter: Path, core: Path, submodule: bool, i: nat)
    requires i < |Plan(adapter, core, submodule)|
    ensures match Plan(adapter, core, submodule)[i]
            case Single(name) => SingleName(name) && name != MANIFEST
            case Tree(path) => path == adapter || path == core || (|path| == 1 && AgentDir(path[0]))
  {
  }

  /** The program's plan is good exactly if neither configured path lies in the backup directory. */
  lemma PlanIsGood(adapter: Path, core: Path, submodule: bool, timestamp: string)
    ensures var dir := BackupDir(timestamp);
            GoodPlan(Plan(adapter, core, submodule), dir) <==> !(dir <= adapter) && !(dir <= core)
  {
    var plan, dir := Plan(adapter, core, submodule), BackupDir(timestamp);
    assert At(plan[0]) == adapter && At(plan[3]) == core;
    BackupNameIsOther(timestamp);
    if !(dir <= adapter) && !(dir <= core) {
      forall i | 0 <= i < |plan|
        ensures !(dir <= At(plan[i])) && plan[i] != Single(MANIFEST)
      {
        PlanMember(adapter, core, submodule, i);
      }
    }
  }

  /** What the program backs up of a project: the configured directories, the files of the old layout and of the agents,
      and the agents' own directories; the submodule file only for a submodule. */
  predicate LooksFor(t0: Tree, adapter: Path, core: Path, submodule: bool, y: Path) {
    || (IsDir(t0, y) &&
        (y == adapter || y == core || y == [".windsurf"] || y == [".cursor"] || y == [".claude"] || y == [".github"]))
    || (IsFile(t0, y) &&
        (y == [".cypilot-config.json"] || y == ["cypilot-agents.json"] || y == ["AGENTS.md"] ||
         (submodule && y == [".gitmodules"])))
  }

  lemma {:induction false} InExisting(t0: Tree, plan: seq<Candidate>, y: Path)
    ensures y in Existing(t0, plan) <==> exists i :: 0 <= i < |plan| && At(plan[i]) == y && Present(t0, plan[i])
    decreases |plan|
  {
    if plan != [] {
      InExisting(t0, plan[1..], y);
      assert forall i :: 0 <= i < |plan[1..]| ==> plan[1..][i] == plan[i + 1];
      if i :| 0 <= i < |plan| && At(plan[i]) == y && Present(t0, plan[i]) {
        assert i > 0 ==> plan[1..][i - 1] == plan[i];
      }
    }
  }

  lemma PlanHas(adapter: Path, core: Path, submodule: bool, c: Candidate)
    ensures c in Plan(adapter, core, submodule) <==>
            || c == Tree(adapter) || c == Tree(core)
            || c == Tree([".windsurf"]) || c == Tree([".cursor"]) || c == Tree([".claude"]) || c == Tree([".github"])
            || c == Single(".cypilot-config.json") || c == Single("cypilot-agents.json") || c == Single("AGENTS.md")
            || (submodule && c == Single(".gitmodules"))
  {
    var plan := Plan(adapter, core, submodule);
    var n := if submodule then 1 else 0;
    assert plan[0] == Tree(adapter) && plan[1] == Single(".cypilot-config.json");
    assert plan[2] == Single("cypilot-agents.json") && plan[3] == Tree(core);
    assert submodule ==> plan[4] == Single(".gitmodules");
    assert plan[4 + n] == Single("AGENTS.md") && plan[5 + n] == Tree([".windsurf"]);
    assert plan[6 + n] == Tree([".cursor"]) && plan[7 + n] == Tree([".claude"]) && plan[8 + n] == Tree([".github"]);
  }

  /** Everything of that which the project has is backed up, and nothing else. */
  lemma PlanLooksFor(t0: Tree, adapter: Path, core: Path, submodule: bool, y: Path)
    ensures y in Existing(t0, Plan(adapter, core, submodule)) <==> LooksFor(t0, adapter, core, submodule, y)
  {
    var plan := Plan(adapter, core, submodule);
    InExisting(t0, plan, y);
    if i :| 0 <= i < |plan| && At(plan[i]) == y && Present(t0, plan[i]) {
      assert plan[i] in plan;
      PlanHas(adapter, core, submodule, plan[i]);
    }
    if LooksFor(t0, adapter, core, submodule, y) {
      var c := if IsDir(t0, y) then Tree(y) else Single(y[0]);
      PlanHas(adapter, core, submodule, c);
      assert At(c) == y && Present(t0, c);
      var i :| 0 <= i < |plan| && plan[i] == c;
    }
  }
}
