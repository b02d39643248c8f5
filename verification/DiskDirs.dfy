/**
 * On the disk of the disk store every file, directory and backup lies in a
 * directory that is there, whatever runs, fails or crashes: an operation may
 * take a path at which it finds nothing for a path with nothing below it.
 */
module DiskDirs {
  import opened Collections
  import opened Objects
  import opened DiskTree
  import opened DiskStore
  import opened DiskOutcomes

  lemma AncestorsNest(a: string, p: string)
    requires a in Ancestors(p)
    ensures Ancestors(a) <= Ancestors(p)
  {
    AncestorIsAbove(a, p);
    forall b | b in Ancestors(a) ensures b in Ancestors(p)
    {
      AncestorIsAbove(b, a);
      BelowUnder(b, a, p);
      AboveIsParent(None, b, p);
    }
  }

  lemma DirsRooted(t: Tree, dirs: set<string>, p: string)
    requires RootedTree(t, None) && t.dirs + Ancestors(p) <= dirs <= t.dirs + Ancestors(p) + {p}
    ensures RootedTree(Tree(t.files, dirs), None)
  {
    forall d | d in dirs ensures Parents(None, d) <= dirs
    {
      if d in Ancestors(p) { AncestorsNest(d, p); }
    }
  }

  lemma LiveRooted(fs: FS, live: Tree)
    requires Rooted(fs, None) && RootedTree(live, None) && fs.live.dirs <= live.dirs
    ensures Rooted(fs.(live := live), None)
  {
  }

  lemma WriteRooted(fs: FS, p: string, blob: Blob)
    requires Rooted(fs, None)
    ensures Rooted(fs.(live := WriteFile(fs.live, p, blob)), None)
  {
    DirsRooted(fs.live, fs.live.dirs + Ancestors(p), p);
    LiveRooted(fs, WriteFile(fs.live, p, blob));
  }

  lemma MakeDirRooted(fs: FS, p: string)
    requires Rooted(fs, None)
    ensures Rooted(fs.(live := MakeDir(fs.live, p)), None)
  {
    DirsRooted(fs.live, fs.live.dirs + {p} + Ancestors(p), p);
    LiveRooted(fs, MakeDir(fs.live, p));
  }

  lemma OutsideParents(t: Tree, key: string, p: string)
    requires !Under(key, p) && Parents(None, p) <= t.dirs
    ensures Parents(None, p) <= Outside(t, key).dirs
  {
    forall a | a in Parents(None, p) ensures !Under(key, a)
    {
      ParentIsAbove(None, a, p);
      if Under(key, a) { UnderTransitive(key, a, p); }
    }
  }

  lemma OutsideRooted(t: Tree, key: string)
    requires RootedTree(t, None)
    ensures RootedTree(Outside(t, key), None)
  {
    forall p | (p in t.files || p in t.dirs) && !Under(key, p) ensures Parents(None, p) <= Outside(t, key).dirs
    {
      OutsideParents(t, key, p);
    }
  }

  lemma RegionRooted(fs: FS, key: string)
    requires Rooted(fs, None)
    ensures Rooted(RegionFS(fs, key), Some(key))
  {
    forall p ensures Parents(Some(key), p) <= Parents(None, p) {}
  }

  lemma RenameRooted(fs: FS, key: string)
    requires Rooted(fs, None) && Ancestors(key) <= fs.live.dirs
    ensures Rooted(Rename(fs, key), None)
  {
    var fs' := Rename(fs, key);
    OutsideRooted(fs.live, key);
    RegionRooted(fs, key);
    forall r | r in fs'.backups ensures Parents(None, r) <= fs'.live.dirs && Rooted(fs'.backups[r], Some(r))
    {
      if r == key { ParentsOutside(fs.live, key); } else { OutsideParents(fs.live, key, r); }
    }
  }

  lemma ParentsOutside(t: Tree, key: string)
    requires Ancestors(key) <= t.dirs
    ensures Parents(None, key) <= Outside(t, key).dirs
  {
    forall a | a in Parents(None, key) ensures !Under(key, a)
    {
      ParentIsAbove(None, a, key);
      if Under(key, a) { UnderLonger(key, a); }
    }
  }

  /** What belongs under key put there: its parents under key come with it, those above key are there. */
  lemma GraftParents(t: Tree, key: string, dirs: set<string>, p: string)
    requires Under(key, p) && Ancestors(key) <= t.dirs && Parents(Some(key), p) <= dirs
    ensures Parents(None, p) <= Outside(t, key).dirs + dirs
  {
    ParentsOutside(t, key);
    forall a | a in Parents(None, p) ensures a in Outside(t, key).dirs + dirs
    {
      ParentIsAbove(None, a, p);
      if Under(key, a) {
        AboveIsParent(Some(key), a, p);
      } else {
        UnderOneOfTwo(key, a, p);
        AboveIsParent(None, a, key);
      }
    }
  }

  lemma GraftRooted(t: Tree, key: string, sub: Tree)
    requires RootedTree(t, None) && Ancestors(key) <= t.dirs && InPlace(sub, key) && RootedTree(sub, Some(key))
    ensures RootedTree(Graft(t, key, sub), None)
  {
    var t' := Graft(t, key, sub);
    forall p | p in t'.files ensures Parents(None, p) <= t'.dirs
    {
      if p in sub.files { GraftParents(t, key, sub.dirs, p); } else { OutsideParents(t, key, p); }
    }
    forall d | d in t'.dirs ensures Parents(None, d) <= t'.dirs
    {
      if d in sub.dirs { GraftParents(t, key, sub.dirs, d); } else { OutsideParents(t, key, d); }
    }
  }

  lemma PlaceRooted(fs: FS, key: string, sub: FS)
    requires Rooted(fs, None) && Ancestors(key) <= fs.live.dirs && InPlaceFS(sub, key) && Rooted(sub, Some(key))
    ensures Rooted(Place(fs, key, sub), None)
  {
    var fs' := Place(fs, key, sub);
    GraftRooted(fs.live, key, sub.live);
    forall r | r in fs'.backups ensures Parents(None, r) <= fs'.live.dirs && Rooted(fs'.backups[r], Some(r))
    {
      if r in sub.backups { GraftParents(fs.live, key, sub.live.dirs, r); } else { OutsideParents(fs.live, key, r); }
    }
  }

  // ---------- removing ----------

  lemma SubTreeRooted(a: Tree, b: Tree, root: Option<string>)
    requires SubTree(a, b) && RootedTree(b, root)
    ensures RootedTree(a, root)
  {
  }

  lemma {:induction false} SubRooted(a: FS, b: FS, root: Option<string>)
    requires SubFS(a, b) && Rooted(b, root)
    ensures Rooted(a, root)
  {
    SubTreeRooted(a.live, b.live, root);
    forall r | r in a.backups ensures Parents(root, r) <= a.live.dirs && Rooted(a.backups[r], Some(r))
    {
      SubRooted(a.backups[r], b.backups[r], Some(r));
    }
  }

  /** What a failing replacement leaves of its key: entries that were there, in directories that were there. */
  lemma CutRooted(fs: FS, key: string, cut: Tree)
    requires Rooted(fs, None) && Ancestors(key) <= fs.live.dirs && forall r :: r in fs.backups ==> !Below(key, r)
    requires SubTree(cut, Region(fs.live, key))
    ensures Rooted(fs.(live := Graft(fs.live, key, cut)), None)
  {
    var live := Graft(fs.live, key, cut);
    RegionRooted(fs, key);
    SubTreeRooted(cut, Region(fs.live, key), Some(key));
    GraftRooted(fs.live, key, cut);
    forall r | r in fs.backups ensures Parents(None, r) <= live.dirs
    {
      if r == key { ParentsOutside(fs.live, key); } else { OutsideParents(fs.live, key, r); }
    }
  }

  // ---------- every step ----------

  predicate IsRenaming(proc: Proc)
  {
    proc.Replacing? && proc.stage.Renaming?
  }

  /** Everything is in its directory, and so will be the backup that a replacement is about to make. */
  ghost predicate InDirs(m: Machine)
  {
    Rooted(m.fs, None) && forall k :: k in m.procs && IsRenaming(m.procs[k]) ==> Ancestors(k) <= m.fs.live.dirs
  }

  /** What is there has its parents. */
  lemma ParentsOfEntry(fs: FS, key: string)
    requires Rooted(fs, None) && (Exists(fs.live, key) || key in fs.backups)
    ensures Ancestors(key) <= fs.live.dirs
  {
    assert Ancestors(key) == Parents(None, key);
  }

  lemma UpdateInDirs(m: Machine, key: string)
    requires InDirs(m) && key in m.procs && m.procs[key].Updating?
    ensures Rooted(AdvanceUpdate(m, key).fs, None)
  {
    match m.procs[key].phase {
      case Checking => if key in m.fs.live.files { ParentsOfEntry(m.fs, key); RenameRooted(m.fs, key); }
      case BackedUp => WriteRooted(m.fs, key, Torn);
      case Writing => WriteRooted(m.fs, key, Whole(m.procs[key].obj));
      case Written =>
    }
  }

  lemma ReplaceInDirs(m: Machine, key: string, choice: string)
    requires InDirs(m) && Enabled(m, Advance(key, choice)) && m.procs[key].Replacing?
    ensures var m' := AdvanceReplace(m, key, choice);
            && Rooted(m'.fs, None)
            && (key in m'.procs && IsRenaming(m'.procs[key]) ==> Ancestors(key) <= m'.fs.live.dirs)
  {
    match m.procs[key].stage {
      case Preparing =>
        MakeDirRooted(m.fs, key);
        if Exists(m.fs.live, key) { ParentsOfEntry(m.fs, key); }
      case Renaming => RenameRooted(m.fs, key);
      case Clearing => MakeDirRooted(m.fs, key);
      case Filling(_, Some(c)) => if c in m.procs[key].contents {
        WriteRooted(m.fs, c, Whole(m.procs[key].contents[c]));
      }
      case Filling(_, None) => WriteRooted(m.fs, choice, Torn);
      case Removing =>
    }
  }

  lemma AdvanceInDirs(m: Machine, key: string, choice: string)
    requires InDirs(m) && Enabled(m, Advance(key, choice))
    ensures var m' := Next(m, Advance(key, choice));
            && Rooted(m'.fs, None)
            && (key in m'.procs && IsRenaming(m'.procs[key]) ==> Ancestors(key) <= m'.fs.live.dirs)
  {
    match m.procs[key] {
      case Creating(obj, _, _) => WriteRooted(m.fs, key, Whole(obj)); WriteRooted(m.fs, key, Torn);
      case Updating(_, _, _) => UpdateInDirs(m, key);
      case Deleting(_) =>
      case Replacing(_, _, _) => ReplaceInDirs(m, key, choice);
    }
  }

  /** The steps that are not calls of an operation under way. */
  lemma EndInDirs(m: Machine, step: Step)
    requires Inv(m) && InDirs(m) && Enabled(m, step) && !step.Begin? && !step.Advance?
    ensures Rooted(Next(m, step).fs, None)
  {
    match step {
      case Remove(key, rest) => if rest.Some? { SubRooted(rest.value, m.fs.backups[key], Some(key)); }
      case Fail(key) => ParentsOfEntry(m.fs, key); PlaceRooted(m.fs, key, m.fs.backups[key]);
      case Abort(key, cut) =>
        if cut.Some? {
          NoBackupsInside(m, key);
          ParentsOfEntry(m.fs, key);
          CutRooted(m.fs, key, cut.value);
        }
      case Crash => RecoveredRooted(m.fs, None);
    }
  }

  lemma NoBackupsInside(m: Machine, key: string)
    requires Inv(m) && key in m.procs && m.procs[key].Replacing?
    requires m.procs[key].stage.Clearing? || m.procs[key].stage.Filling?
    ensures key in m.fs.backups && forall r :: r in m.fs.backups ==> !Below(key, r)
  {
    assert Phase(m.fs, key, m.procs[key]);
    forall r | r in m.fs.backups ensures !Below(key, r)
    {
      assert Below(key, r) ==> Get(m.fs.backups, r) == Get(map[], r);
    }
  }

  /** A step on one key takes no directory away from above another. */
  lemma ParentsStay(a: FS, b: FS, key: string, k: string)
    requires Confined(a, b, key) && !Under(key, k) && Ancestors(k) <= a.live.dirs
    ensures Ancestors(k) <= b.live.dirs
  {
    forall d | d in Ancestors(k) ensures d in b.live.dirs
    {
      AncestorIsAbove(d, k);
      if Under(key, d) { UnderTransitive(key, d, k); }
    }
  }

  lemma OthersStayInDirs(m: Machine, m': Machine, key: string)
    requires Inv(m) && InDirs(m) && key in m.procs && ByHolder(m, m', key)
    ensures forall k :: k in m'.procs && k != key && IsRenaming(m'.procs[k]) ==> Ancestors(k) <= m'.fs.live.dirs
  {
    forall k | k in m'.procs && k != key && IsRenaming(m'.procs[k]) ensures Ancestors(k) <= m'.fs.live.dirs
    {
      assert k in m.procs.Keys && key in m.procs.Keys;
      ParentsStay(m.fs, m'.fs, key, k);
    }
  }

  lemma InDirsStep(m: Machine, step: Step)
    requires Inv(m) && InDirs(m) && Enabled(m, step)
    ensures InDirs(Next(m, step))
  {
    var m' := Next(m, step);
    match step {
      case Begin(_, _) =>
      case Advance(key, choice) =>
        AdvanceInDirs(m, key, choice);
        AdvanceByHolder(m, key, choice);
        OthersStayInDirs(m, m', key);
      case Remove(key, rest) => EndInDirs(m, step); RemoveByHolder(m, key, rest); OthersStayInDirs(m, m', key);
      case Fail(key) => EndInDirs(m, step); FailByHolder(m, key); OthersStayInDirs(m, m', key);
      case Abort(key, cut) => EndInDirs(m, step); AbortByHolder(m, key, cut); OthersStayInDirs(m, m', key);
      case Crash => EndInDirs(m, step);
    }
  }

  lemma {:induction false} InDirsRun(m: Machine, steps: seq<Step>)
    requires Inv(m) && InDirs(m) && ValidRun(m, steps)
    ensures Inv(Run(m, steps)) && InDirs(Run(m, steps))
    decreases |steps|
  {
    if steps != [] {
      InvStep(m, steps[0]);
      InDirsStep(m, steps[0]);
      InDirsRun(Next(m, steps[0]), steps[1..]);
    }
  }

  /**
   * From the empty disk on, whatever runs, fails or crashes: nothing lies below
   * a path that does not exist, neither a file nor a backup.
   */
  lemma NothingBelowNothingEver(steps: seq<Step>, key: string)
    requires ValidRun(EmptyStore(), steps)
    ensures var fs := Run(EmptyStore(), steps).fs;
            && Inv(Run(EmptyStore(), steps)) && Grounded(fs.live, key)
            && (!Exists(fs.live, key) ==> forall r :: r in fs.backups ==> !Below(key, r))
  {
    InDirsRun(EmptyStore(), steps);
    var fs := Run(EmptyStore(), steps).fs;
    NothingBelowNothing(fs, None, key);
  }

  function EmptyStore(): Machine
  {
    Machine(FS(Tree(map[], {}), map[]), map[])
  }

  /** So an operation begun at any moment of any such run leaves what it says. */
  lemma OperationLeavesEver(past: seq<Step>, key: string, op: Op, steps: seq<Step>, p: string)
    requires ValidRun(EmptyStore(), past)
    requires var m := Run(EmptyStore(), past);
             && Enabled(m, Begin(key, op)) && Under(key, p)
             && ValidRun(Next(m, Begin(key, op)), steps) && EndsUnfailed(Next(m, Begin(key, op)), steps, key)
    ensures var m := Run(EmptyStore(), past);
            FileIn(Run(Next(m, Begin(key, op)), steps).fs.live.files, p) == Outcome(op, m.fs.live, key, p)
  {
    NothingBelowNothingEver(past, key);
    OperationLeaves(Run(EmptyStore(), past), key, op, steps, p);
  }
}
