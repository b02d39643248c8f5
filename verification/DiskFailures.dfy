/**
 * Runs of the disk store from a tidy disk in which what was stored is not what
 * is found after a restart.
 */
module DiskFailures {
  import opened Collections
  import opened Objects
  import opened DiskTree
  import opened DiskStore

  lemma RunsFrom(m: Machine, steps: seq<Step>)
    requires steps != [] && Enabled(m, steps[0])
    ensures ValidRun(m, steps) <==> ValidRun(Next(m, steps[0]), steps[1..])
    ensures ValidRun(m, steps) ==> Run(m, steps) == Run(Next(m, steps[0]), steps[1..])
  {
  }

  lemma RegionOfAll(t: Tree, key: string)
    requires InPlace(t, key)
    ensures RegionFS(FS(t, map[]), key) == FS(t, map[])
    ensures Rename(FS(t, map[]), key) == FS(Tree(map[], {}), map[key := FS(t, map[])])
  {
    assert Region(t, key) == t;
    assert Outside(t, key) == Tree(map[], {});
    var none: map<string, FS> := map[];
    assert RegionFS(FS(t, none), key).backups == none;
    assert BackupsBeside(FS(t, none), key) == none;
  }

  function CreateSteps(key: string, c: Object): seq<Step>
  {
    [Begin(key, Create(c)), Advance(key, ""), Advance(key, "")]
  }

  /** A create with nothing else going on. */
  lemma CreateRuns(fs: FS, key: string, c: Object)
    requires !Exists(fs.live, key)
    ensures ValidRun(Machine(fs, map[]), CreateSteps(key, c))
    ensures var m := Run(Machine(fs, map[]), CreateSteps(key, c));
            m.procs == map[] && m.fs.backups == fs.backups && FileIn(m.fs.live.files, key) == Some(Whole(c))
  {
    var m, steps := Machine(fs, map[]), CreateSteps(key, c);
    var m1 := Next(m, steps[0]);
    var m2 := Next(m1, steps[1]);
    RunsFrom(m2, steps[1..][1..]);
    RunsFrom(m1, steps[1..]);
    RunsFrom(m, steps);
  }

  lemma {:induction false} RunConcat(m: Machine, a: seq<Step>, b: seq<Step>)
    requires ValidRun(m, a) && ValidRun(Run(m, a), b)
    ensures ValidRun(m, a + b) && Run(m, a + b) == Run(Run(m, a), b)
    decreases |a|
  {
    if a == [] {
      assert a + b == b;
    } else {
      assert (a + b)[0] == a[0] && (a + b)[1..] == a[1..] + b;
      RunConcat(Next(m, a[0]), a[1..], b);
    }
  }

  lemma OnlyBackupIsRestored(fs: FS, k: string, p: string)
    requires fs.backups.Keys == {k} && fs.backups[k].backups == map[] && Under(k, p)
    ensures FileIn(Recovered(fs).live.files, p) == FileIn(fs.backups[k].live.files, p)
  {
    forall d | d in fs.backups ensures !Skips(fs, d, k) { assert d in fs.backups.Keys; }
    forall q | q in Restorable(fs) ensures q == k { assert q in fs.backups.Keys; }
    assert k in fs.backups.Keys;
    CoverIs(Restorable(fs), p, k);
    PlacedFile(fs, k, p);
    RecoveredFile(fs, p);
  }

  lemma CrashRestores(m: Machine, k: string, b: FS, p: string)
    requires m.fs.backups == map[k := b] && b.backups == map[] && Under(k, p)
    ensures FileIn(Next(m, Crash).fs.live.files, p) == FileIn(b.live.files, p)
  {
    OnlyBackupIsRestored(m.fs, k, p);
  }

  lemma CreateThenCrash(fs: FS, b: FS, k: string, p: string, c: Object)
    requires fs.backups == map[k := b] && b.backups == map[] && !Exists(fs.live, p) && Under(k, p)
    ensures ValidRun(Machine(fs, map[]), CreateSteps(p, c))
    ensures var m := Run(Machine(fs, map[]), CreateSteps(p, c));
            && m.procs == map[] && FileIn(m.fs.live.files, p) == Some(Whole(c))
            && FileIn(Next(m, Crash).fs.live.files, p) == FileIn(b.live.files, p)
  {
    CreateRuns(fs, p, c);
    CrashRestores(Run(Machine(fs, map[]), CreateSteps(p, c)), k, b, p);
  }

  lemma RestoredBesideCreate(fs: FS, b: FS, k: string, p: string, c: Object, f: string)
    requires fs.backups == map[k := b] && b.backups == map[] && !Exists(fs.live, p) && Under(k, p) && Under(k, f)
    requires ValidRun(Machine(fs, map[]), CreateSteps(p, c))
    ensures FileIn(Next(Run(Machine(fs, map[]), CreateSteps(p, c)), Crash).fs.live.files, f) == FileIn(b.live.files, f)
  {
    CreateRuns(fs, p, c);
    CrashRestores(Run(Machine(fs, map[]), CreateSteps(p, c)), k, b, f);
  }

  function OneFile(a: Object): FS
  {
    FS(Tree(map["o" := Whole(a)], {}), map[])
  }

  /** An update that fails when it writes. */
  function FailSteps(b: Object): seq<Step>
  {
    [Begin("o", Update(b)), Advance("o", ""), Abort("o", None)]
  }

  lemma FailLeavesBackup(a: Object, b: Object)
    requires a.version <= b.version
    ensures ValidRun(Machine(OneFile(a), map[]), FailSteps(b))
    ensures Run(Machine(OneFile(a), map[]), FailSteps(b)) == Machine(FS(Tree(map[], {}), map["o" := OneFile(a)]), map[])
  {
    var m, steps := Machine(OneFile(a), map[]), FailSteps(b);
    RegionOfAll(OneFile(a).live, "o");
    var m1 := Machine(OneFile(a), map["o" := Updating(b, Checking, OneFile(a))]);
    var m2 := Machine(FS(Tree(map[], {}), map["o" := OneFile(a)]), map["o" := Updating(b, BackedUp, OneFile(a))]);
    assert Next(m, steps[0]) == m1;
    assert Next(m1, steps[1]) == m2;
    assert Next(m2, steps[2]).procs == map[];
    RunsFrom(m2, steps[1..][1..]);
    RunsFrom(m1, steps[1..]);
    RunsFrom(m, steps);
  }

  /** A failed update undoes, at the next restart, what was created since; the version goes back with it. */
  lemma FailedUpdateUndoesCreate(a: Object, b: Object, c: Object)
    requires a.version <= b.version
    ensures var m, steps := Machine(OneFile(a), map[]), FailSteps(b) + CreateSteps("o", c);
            && ValidRun(m, steps)
            && var m' := Run(m, steps);
               && m'.procs == map[] && FileIn(m'.fs.live.files, "o") == Some(Whole(c))
               && FileIn(Next(m', Crash).fs.live.files, "o") == Some(Whole(a))
  {
    var m := Machine(OneFile(a), map[]);
    FailLeavesBackup(a, b);
    CreateThenCrash(FS(Tree(map[], {}), map["o" := OneFile(a)]), OneFile(a), "o", "o", c);
    RunConcat(m, FailSteps(b), CreateSteps("o", c));
  }

  // Two lists, one name beginning with the other, both under replacement when the process dies.

  function TwoLists(a: Object): FS
  {
    FS(Tree(map["n10/x" := Whole(a)], {"n1", "n10"}), map[])
  }

  function ReplaceToRename(key: string): seq<Step>
  {
    [Begin(key, Replace(map[])), Advance(key, ""), Advance(key, "")]
  }

  /** A replacement by the empty list as far as its rename, beside whatever else is going on. */
  lemma ReplaceRuns(m: Machine, key: string)
    requires Lockable(m, key) && key !in m.fs.backups && key in m.fs.live.dirs && key !in m.fs.live.files
    ensures ValidRun(m, ReplaceToRename(key))
    ensures Run(m, ReplaceToRename(key)) ==
            Go(m, key, Rename(m.fs, key), Replacing(map[], Clearing, RegionFS(m.fs, key)))
  {
    var steps, before := ReplaceToRename(key), RegionFS(m.fs, key);
    var m1 := Go(m, key, m.fs, Replacing(map[], Preparing, before));
    var m2 := Go(m, key, m.fs, Replacing(map[], Renaming, before));
    assert Next(m, steps[0]) == m1;
    assert Next(m1, steps[1]) == m2;
    RunsFrom(m2, steps[1..][1..]);
    RunsFrom(m1, steps[1..]);
    RunsFrom(m, steps);
  }

  lemma PathsOfLists()
    ensures Under("n10", "n10/x") && !Under("n1", "n10/x") && !Under("n1", "n10") && !Under("n10", "n1")
    ensures TmpKey("n1") == "tmp_n1" && TmpKey("n10") == "tmp_n10" && "tmp_n1" < "tmp_n10"
  {
    assert "n10" + "/" <= "n10/x";
    assert ("n1" + "/")[2] == '/' && "n10/x"[2] == '0' && "n10"[2] == '0';
    AfterSlashUnique("n1", 0);
    AfterSlashUnique("n10", 0);
  }

  /** The disk of the two lists when both have been moved to their backups. */
  lemma BothMoved(a: Object)
    ensures var fs := Rename(Rename(TwoLists(a), "n1"), "n10");
            && fs.live.files == map[] && fs.live.dirs == {}
            && fs.backups.Keys == {"n1", "n10"} && WellPlaced(fs)
            && fs.backups["n1"].live.files == map[] && fs.backups["n1"].backups == map[] &&
               fs.backups["n10"].backups == map[]
            && fs.backups["n10"].live.files == map["n10/x" := Whole(a)]
  {
    PathsOfLists();
    var fs1 := Rename(TwoLists(a), "n1");
    assert fs1.live == Tree(map["n10/x" := Whole(a)], {"n10"});
    assert fs1.backups.Keys == {"n1"};
    assert WellPlaced(TwoLists(a));
    RenameWellPlaced(TwoLists(a), "n1");
    RenameWellPlaced(fs1, "n10");
    assert RegionFS(fs1, "n10").live.files == map["n10/x" := Whole(a)];
  }

  /** The first restart restores one list, leaves the other half done and its backup on the disk. */
  lemma OneOfTwoIsRestored(fs: FS)
    requires fs.live.files == map[] && fs.live.dirs == {} && fs.backups.Keys == {"n1", "n10"} && WellPlaced(fs)
    requires fs.backups["n1"].live.files == map[] && fs.backups["n1"].backups == map[]
    ensures Recovered(fs).backups == map["n10" := fs.backups["n10"]] && !Exists(Recovered(fs).live, "n10/x")
  {
    PathsOfLists();
    assert "n1" in fs.backups.Keys && "n10" in fs.backups.Keys;
    assert Skips(fs, "n1", "n10");
    forall d | d in fs.backups ensures !Skips(fs, d, "n1") { assert d in fs.backups.Keys; }
    assert Restorable(fs) == {"n1"};
    forall k ensures Get(Recovered(fs).backups, k) == Get(map["n10" := fs.backups["n10"]], k)
    {
      RecoveredBackup(fs, k);
      if Under("n1", k) {
        CoverIs({"n1"}, k, "n1");
        PlacedFile(fs, "n1", k);
      } else {
        CoverNone({"n1"}, k);
        assert k in fs.backups <==> k in fs.backups.Keys;
      }
    }
    SameLookupsSameBackups(Recovered(fs).backups, map["n10" := fs.backups["n10"]]);
    CoverNone({"n1"}, "n10/x");
    RecoveredFile(fs, "n10/x");
    RecoveredDir(fs, "n10/x");
  }

  function TwoReplacements(): seq<Step>
  {
    ReplaceToRename("n1") + ReplaceToRename("n10")
  }

  lemma TwoReplacementsRun(a: Object)
    ensures var m := Machine(TwoLists(a), map[]);
            ValidRun(m, TwoReplacements()) && Run(m, TwoReplacements()).fs == Rename(Rename(TwoLists(a), "n1"), "n10")
  {
    PathsOfLists();
    var m := Machine(TwoLists(a), map[]);
    ReplaceRuns(m, "n1");
    var m1 := Run(m, ReplaceToRename("n1"));
    assert m1.fs.live == Tree(map["n10/x" := Whole(a)], {"n10"});
    assert m1.fs.backups.Keys == {"n1"} && m1.procs.Keys == {"n1"};
    assert "n10" !in m1.fs.backups.Keys;
    forall k | k in m1.procs ensures k == "n1" { assert k in m1.procs.Keys; }
    ReplaceRuns(m1, "n10");
    RunConcat(m, ReplaceToRename("n1"), ReplaceToRename("n10"));
  }

  lemma CrashThen(m: Machine, steps: seq<Step>)
    requires ValidRun(Next(m, Crash), steps)
    ensures ValidRun(m, [Crash] + steps) && Run(m, [Crash] + steps) == Run(Next(m, Crash), steps)
  {
    assert ([Crash] + steps)[1..] == steps;
    RunsFrom(m, [Crash] + steps);
  }

  lemma CrashCreateCrash(m: Machine, b: FS, k: string, p: string, c: Object)
    requires Recovered(m.fs).backups == map[k := b] && b.backups == map[]
    requires !Exists(Recovered(m.fs).live, p) && Under(k, p)
    ensures ValidRun(m, [Crash] + CreateSteps(p, c))
    ensures var m' := Run(m, [Crash] + CreateSteps(p, c));
            && m'.procs == map[] && FileIn(m'.fs.live.files, p) == Some(Whole(c))
            && FileIn(Next(m', Crash).fs.live.files, p) == FileIn(b.live.files, p)
  {
    var fs := Recovered(m.fs);
    assert Next(m, Crash) == Machine(fs, map[]);
    CreateThenCrash(fs, b, k, p, c);
    CrashThen(m, CreateSteps(p, c));
  }

  /**
   * Two lists under replacement at a crash, "n1" and "n10": whatever is then
   * created in "n10" is gone after the next restart, and its version with it.
   */
  lemma SkippedBackupUndoesCreate(a: Object, c: Object)
    ensures var m, steps := Machine(TwoLists(a), map[]), TwoReplacements() + ([Crash] + CreateSteps("n10/x", c));
            && ValidRun(m, steps)
            && var m' := Run(m, steps);
               && m'.procs == map[] && FileIn(m'.fs.live.files, "n10/x") == Some(Whole(c))
               && FileIn(Next(m', Crash).fs.live.files, "n10/x") == Some(Whole(a))
  {
    TwoReplacementsRun(a);
    BothMoved(a);
    var m, first, second := Machine(TwoLists(a), map[]), TwoReplacements(), [Crash] + CreateSteps("n10/x", c);
    var moved := Run(m, first);
    OneOfTwoIsRestored(moved.fs);
    PathsOfLists();
    CrashCreateCrash(moved, moved.fs.backups["n10"], "n10", "n10/x", c);
    RunConcat(m, first, second);
  }

  // A list of two emptied.

  function ListOfTwo(a: Object, b: Object): FS
  {
    FS(Tree(map["l/a" := Whole(a), "l/b" := Whole(b)], {"l"}), map[])
  }

  lemma PathsOfTwo()
    ensures Under("l", "l/a") && Under("l", "l/b") && Under("l", "l") && Ancestors("l") == {}
  {
    assert "l" + "/" <= "l/a" && "l" + "/" <= "l/b";
  }

  function EmptyingSteps(): seq<Step>
  {
    ReplaceToRename("l") + [Advance("l", ""), Advance("l", "")]
  }

  /** The list of two in its backup, the empty one about to be made. */
  function TwoRenamed(a: Object, b: Object): Machine
  {
    Machine(FS(Tree(map[], {}), map["l" := ListOfTwo(a, b)]), map["l" := Replacing(map[], Clearing, ListOfTwo(a, b))])
  }

  lemma TwoAreRenamed(a: Object, b: Object)
    ensures var m := Machine(ListOfTwo(a, b), map[]);
            ValidRun(m, ReplaceToRename("l")) && Run(m, ReplaceToRename("l")) == TwoRenamed(a, b)
  {
    PathsOfTwo();
    RegionOfAll(ListOfTwo(a, b).live, "l");
    ReplaceRuns(Machine(ListOfTwo(a, b), map[]), "l");
  }

  lemma TwoAreReplaced(a: Object, b: Object)
    ensures var m, steps := TwoRenamed(a, b), [Advance("l", ""), Advance("l", "")];
            && ValidRun(m, steps)
            && Run(m, steps) ==
               Machine(FS(Tree(map[], {"l"}), map["l" := ListOfTwo(a, b)]),
                       map["l" := Replacing(map[], Removing, ListOfTwo(a, b))])
  {
    PathsOfTwo();
    var list, m, steps := ListOfTwo(a, b), TwoRenamed(a, b), [Advance("l", ""), Advance("l", "")];
    var none: map<string, Object> := map[];
    assert none.Keys == {};
    assert MakeDir(Tree(map[], {}), "l") == Tree(map[], {"l"});
    var m1 := Machine(FS(Tree(map[], {"l"}), map["l" := list]), map["l" := Replacing(none, Filling({}, None), list)]);
    assert Next(m, steps[0]) == m1;
    RunsFrom(m1, steps[1..]);
    RunsFrom(m, steps);
  }

  lemma EmptyingReachesRemoval(a: Object, b: Object)
    ensures var m := Machine(ListOfTwo(a, b), map[]);
            && ValidRun(m, EmptyingSteps())
            && Run(m, EmptyingSteps()) ==
               Machine(FS(Tree(map[], {"l"}), map["l" := ListOfTwo(a, b)]),
                       map["l" := Replacing(map[], Removing, ListOfTwo(a, b))])
  {
    TwoAreRenamed(a, b);
    TwoAreReplaced(a, b);
    RunConcat(Machine(ListOfTwo(a, b), map[]), ReplaceToRename("l"), [Advance("l", ""), Advance("l", "")]);
  }

  lemma RemoveThenCrash(m: Machine, b: FS, e: string, f: string)
    requires m.fs.backups == map["l" := b] && "l" in m.procs && m.procs["l"].Replacing? && m.procs["l"].stage.Removing?
    requires b.backups == map[] && Under("l", e) && Under("l", f) && e != f
    ensures Enabled(m, Remove("l", Some(Without(b, e))))
    ensures var live := Next(Next(m, Remove("l", Some(Without(b, e)))), Crash).fs.live;
            FileIn(live.files, e) == None && FileIn(live.files, f) == FileIn(b.live.files, f)
  {
    WithoutIsLess(b, e);
    var fs := Next(m, Remove("l", Some(Without(b, e)))).fs;
    assert fs.backups == map["l" := Without(b, e)];
    OnlyBackupIsRestored(fs, "l", e);
    OnlyBackupIsRestored(fs, "l", f);
  }

  /** Replacing a list of two by the empty list, a crash can leave one of the two: neither the old list nor the new. */
  lemma ReplaceCanLeaveHalfTheOldList(a: Object, b: Object)
    ensures var m := Machine(ListOfTwo(a, b), map[]);
            && ValidRun(m, EmptyingSteps())
            && var m' := Run(m, EmptyingSteps());
               var step := Remove("l", Some(Without(ListOfTwo(a, b), "l/a")));
               && Enabled(m', step)
               && var live := Next(Next(m', step), Crash).fs.live;
                  FileIn(live.files, "l/a") == None && FileIn(live.files, "l/b") == Some(Whole(b))
  {
    PathsOfTwo();
    EmptyingReachesRemoval(a, b);
    var m' := Run(Machine(ListOfTwo(a, b), map[]), EmptyingSteps());
    RemoveThenCrash(m', ListOfTwo(a, b), "l/a", "l/b");
  }

  function FailedEmptying(): seq<Step>
  {
    EmptyingSteps() + [Abort("l", None)]
  }

  lemma FailedEmptyingRuns(a: Object, b: Object)
    ensures var m := Machine(ListOfTwo(a, b), map[]);
            && ValidRun(m, FailedEmptying())
            && Run(m, FailedEmptying()) == Machine(FS(Tree(map[], {"l"}), map["l" := ListOfTwo(a, b)]), map[])
  {
    EmptyingReachesRemoval(a, b);
    var m := Machine(ListOfTwo(a, b), map[]);
    var m1 := Run(m, EmptyingSteps());
    RunsFrom(m1, [Abort("l", None)]);
    assert Next(m1, Abort("l", None)) == Machine(FS(Tree(map[], {"l"}), map["l" := ListOfTwo(a, b)]), map[]);
    RunConcat(m, EmptyingSteps(), [Abort("l", None)]);
  }

  /**
   * A replacement that fails to remove its backup undoes, at the next restart,
   * what was created in the list since and brings back the whole replaced list.
   */
  lemma FailedReplacementUndoesCreate(a: Object, b: Object, c: Object)
    ensures var m, steps := Machine(ListOfTwo(a, b), map[]), FailedEmptying() + CreateSteps("l/a", c);
            && ValidRun(m, steps)
            && var m' := Run(m, steps);
               && m'.procs == map[] && FileIn(m'.fs.live.files, "l/a") == Some(Whole(c))
               && FileIn(Next(m', Crash).fs.live.files, "l/a") == Some(Whole(a))
               && FileIn(Next(m', Crash).fs.live.files, "l/b") == Some(Whole(b))
  {
    PathsOfTwo();
    var m, fs := Machine(ListOfTwo(a, b), map[]), FS(Tree(map[], {"l"}), map["l" := ListOfTwo(a, b)]);
    FailedEmptyingRuns(a, b);
    CreateThenCrash(fs, ListOfTwo(a, b), "l", "l/a", c);
    RunConcat(m, FailedEmptying(), CreateSteps("l/a", c));
    RestoredBesideCreate(fs, ListOfTwo(a, b), "l", "l/a", c, "l/b");
  }

  // A failed update inside a list, then a replacement of the list cut off by a crash.

  /** The list l with one item x, as the failed update left it: in a backup of its own. */
  function ItemInBackup(l: string, x: string, a: Object): FS
  {
    FS(Tree(map[], {l}), map[x := FS(Tree(map[x := Whole(a)], {}), map[])])
  }

  predicate ListAndItem(l: string, x: string)
  {
    l != "" && '/' !in l && x == l + "/x"
  }

  lemma PathsOfItem(l: string, x: string)
    requires ListAndItem(l, x)
    ensures Below(l, x) && l != x && !Under(x, l) && Ancestors(l) == {} && Ancestors(x) == {l}
  {
    assert l + "/" <= x;
    assert x[|l|] == '/' && x[..|l|] == l;
    forall i | 0 <= i < |l| ensures x[i] != '/' { assert x[i] == l[i]; }
    assert forall i :: 0 <= i < |x| && x[i] == '/' ==> i == |l|;
    assert l in Ancestors(x);
  }

  function FailInside(x: string, b: Object): seq<Step>
  {
    [Begin(x, Update(b)), Advance(x, ""), Abort(x, None)]
  }

  lemma RenameOfItem(l: string, x: string, a: Object)
    requires ListAndItem(l, x)
    ensures var fs, one := FS(Tree(map[x := Whole(a)], {l}), map[]), FS(Tree(map[x := Whole(a)], {}), map[]);
            RegionFS(fs, x) == one && Rename(fs, x) == ItemInBackup(l, x, a)
  {
    PathsOfItem(l, x);
    var none: map<string, FS> := map[];
    var fs := FS(Tree(map[x := Whole(a)], {l}), none);
    assert Region(fs.live, x) == Tree(map[x := Whole(a)], {});
    assert RegionFS(fs, x).backups == none && BackupsBeside(fs, x) == none;
    assert Outside(fs.live, x) == Tree(map[], {l});
  }

  lemma FailInsideRuns(l: string, x: string, a: Object, b: Object)
    requires ListAndItem(l, x) && a.version <= b.version
    ensures var m := Machine(FS(Tree(map[x := Whole(a)], {l}), map[]), map[]);
            ValidRun(m, FailInside(x, b)) && Run(m, FailInside(x, b)) == Machine(ItemInBackup(l, x, a), map[])
  {
    var fs, one := FS(Tree(map[x := Whole(a)], {l}), map[]), FS(Tree(map[x := Whole(a)], {}), map[]);
    var m, steps := Machine(fs, map[]), FailInside(x, b);
    RenameOfItem(l, x, a);
    var m1 := Machine(fs, map[x := Updating(b, Checking, one)]);
    var m2 := Machine(ItemInBackup(l, x, a), map[x := Updating(b, BackedUp, one)]);
    assert Next(m, steps[0]) == m1;
    assert Next(m1, steps[1]) == m2;
    assert Next(m2, steps[2]).procs == map[];
    RunsFrom(m2, steps[1..][1..]);
    RunsFrom(m1, steps[1..]);
    RunsFrom(m, steps);
  }

  lemma RenameOfList(l: string, x: string, a: Object)
    requires ListAndItem(l, x)
    ensures var fs := ItemInBackup(l, x, a);
            RegionFS(fs, l) == fs && Rename(fs, l) == FS(Tree(map[], {}), map[l := fs])
  {
    PathsOfItem(l, x);
    var fs, none := ItemInBackup(l, x, a), map[];
    assert Region(fs.live, l) == fs.live && Outside(fs.live, l) == Tree(map[], {});
    assert RegionFS(fs, l).backups == fs.backups && BackupsBeside(fs, l) == none;
  }

  /** The list is being replaced: it has a new directory, and its backup a backup inside. */
  function ListBeingReplaced(l: string, x: string, a: Object): FS
  {
    FS(Tree(map[], {l}), map[l := ItemInBackup(l, x, a)])
  }

  function ReplaceToClear(l: string): seq<Step>
  {
    ReplaceToRename(l) + [Advance(l, "")]
  }

  lemma ReplaceToClearRuns(l: string, x: string, a: Object)
    requires ListAndItem(l, x)
    ensures var m := Machine(ItemInBackup(l, x, a), map[]);
            ValidRun(m, ReplaceToClear(l)) && Run(m, ReplaceToClear(l)).fs == ListBeingReplaced(l, x, a)
  {
    PathsOfItem(l, x);
    var fs := ItemInBackup(l, x, a);
    var m := Machine(fs, map[]);
    ReplaceRuns(m, l);
    RenameOfList(l, x, a);
    var m1 := Run(m, ReplaceToRename(l));
    assert m1.fs == FS(Tree(map[], {}), map[l := fs]);
    assert MakeDir(Tree(map[], {}), l) == Tree(map[], {l});
    RunsFrom(m1, [Advance(l, "")]);
    RunConcat(m, ReplaceToRename(l), [Advance(l, "")]);
  }

  lemma OneBackupIsOutermost(fs: FS, k: string)
    requires fs.backups.Keys == {k}
    ensures IsOutermost(fs, k)
  {
    forall d | d in fs.backups ensures !Skips(fs, d, k) { assert d in fs.backups.Keys; }
    forall q | q in Restorable(fs) ensures q == k { assert q in fs.backups.Keys; }
    assert k in fs.backups.Keys;
  }

  lemma ItemRooted(l: string, x: string, a: Object)
    requires ListAndItem(l, x)
    ensures var fs := ItemInBackup(l, x, a);
            InPlaceFS(fs, l) && WellPlaced(fs) && Rooted(fs, Some(l)) && IsOutermost(fs, x)
  {
    PathsOfItem(l, x);
    var fs, one := ItemInBackup(l, x, a), FS(Tree(map[x := Whole(a)], {}), map[]);
    assert Parents(Some(x), x) == {} && Parents(Some(l), l) == {} && Parents(Some(l), x) == {l};
    assert InPlaceFS(one, x) && WellPlaced(one) && Rooted(one, Some(x));
    OneBackupIsOutermost(fs, x);
  }

  lemma ReplacedListRooted(l: string, x: string, a: Object)
    requires ListAndItem(l, x)
    ensures var fs := ListBeingReplaced(l, x, a);
            WellPlaced(fs) && Rooted(fs, None) && IsOutermost(fs, l) && IsOutermost(fs.backups[l], x)
  {
    PathsOfItem(l, x);
    ItemRooted(l, x, a);
    var fs := ListBeingReplaced(l, x, a);
    assert Parents(None, l) == {};
    OneBackupIsOutermost(fs, l);
  }

  /**
   * An item whose update failed lies in a backup inside its list. If the
   * process then dies while the list is being replaced, the restart brings the
   * item back if the list's name sorts behind "tmp_" and itself, and else
   * leaves it in its backup, out of sight.
   */
  lemma CrashBringsBackItemIff(l: string, x: string, a: Object, b: Object)
    requires ListAndItem(l, x) && a.version <= b.version
    ensures var m := Machine(FS(Tree(map[x := Whole(a)], {l}), map[]), map[]);
            var steps := FailInside(x, b) + ReplaceToClear(l);
            && ValidRun(m, steps)
            && var fs := Next(Run(m, steps), Crash).fs;
               && FileIn(fs.live.files, x) == (if SortsBehindBackup(l) then Some(Whole(a)) else None)
               && (x in fs.backups <==> !SortsBehindBackup(l))
  {
    FailThenReplaceRuns(l, x, a, b);
    ItemAfterCrash(l, x, a);
  }

  lemma FailThenReplaceRuns(l: string, x: string, a: Object, b: Object)
    requires ListAndItem(l, x) && a.version <= b.version
    ensures var m := Machine(FS(Tree(map[x := Whole(a)], {l}), map[]), map[]);
            var steps := FailInside(x, b) + ReplaceToClear(l);
            ValidRun(m, steps) && Run(m, steps).fs == ListBeingReplaced(l, x, a)
  {
    var m := Machine(FS(Tree(map[x := Whole(a)], {l}), map[]), map[]);
    FailInsideRuns(l, x, a, b);
    ReplaceToClearRuns(l, x, a);
    RunConcat(m, FailInside(x, b), ReplaceToClear(l));
  }

  lemma ItemAfterCrash(l: string, x: string, a: Object)
    requires ListAndItem(l, x)
    ensures var fs := Recovered(ListBeingReplaced(l, x, a));
            && FileIn(fs.live.files, x) == (if SortsBehindBackup(l) then Some(Whole(a)) else None)
            && (x in fs.backups <==> !SortsBehindBackup(l))
  {
    PathsOfItem(l, x);
    ReplacedListRooted(l, x, a);
    var fs := ListBeingReplaced(l, x, a);
    RestoredInside(fs, None, l);
    NestedBackupRestoredIff(fs, None, l, x);
    OnlyBackupIsRestored(ItemInBackup(l, x, a), x, x);
    assert Under(l, x);
    assert FileIn(Recovered(fs).live.files, x) == FileIn(PutBack(fs, l).live.files, x);
  }

  /** Both outcomes happen: a list "web" gets its item back, a list "ns1" does not. */
  lemma WebSortsBehindNs1DoesNot()
    ensures SortsBehindBackup("web") && !SortsBehindBackup("ns1")
  {
    AfterSlashUnique("web", 0);
    AfterSlashUnique("ns1", 0);
    WalkedAfterBackupIff("web");
    WalkedAfterBackupIff("ns1");
    assert TmpKey("web")[0] == 't' && TmpKey("ns1")[0] == 't';
  }
}
