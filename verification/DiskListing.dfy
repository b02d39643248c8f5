/**
 * What the disk store's List reads: every regular file below the key, by its
 * path on the disk, the files of backups that earlier failures have left there
 * among them.
 */
module DiskListing {
  import opened Collections
  import opened Objects
  import opened DiskTree
  import opened DiskStore
  import opened DiskFailures
  import opened ListCache

  // ---------- paths on the disk ----------

  /** No part of the path is named like a backup; Kubernetes names never are. */
  predicate Clean(p: string)
  {
    forall i :: 0 <= i <= |p| && (i == 0 || p[i - 1] == '/') ==> !("tmp_" <= p[i..])
  }

  ghost predicate CleanFS(fs: FS)
  {
    && (forall p :: p in fs.live.files ==> Clean(p))
    && (forall r :: r in fs.backups ==> Clean(r) && CleanFS(fs.backups[r]))
  }

  /** Where y, at or below r, lies while r is in its backup. */
  function Moved(r: string, y: string): string
  {
    TmpKey(r) + if |r| <= |y| then y[|r|..] else ""
  }

  function Paths(fs: FS): set<string>
  {
    fs.live.files.Keys + (set r, y | r in fs.backups && y in Paths(fs.backups[r]) :: Moved(r, y))
  }

  ghost predicate LiesIn(fs: FS, x: string, r: string, y: string)
  {
    r in fs.backups && y in Paths(fs.backups[r]) && x == Moved(r, y)
  }

  lemma LiesSomewhere(fs: FS, x: string)
    requires x in Paths(fs) && x !in fs.live.files
    ensures exists r, y :: LiesIn(fs, x, r, y)
  {
    var r, y :| r in fs.backups && y in Paths(fs.backups[r]) && x == Moved(r, y);
    assert LiesIn(fs, x, r, y);
  }

  /** The backup that the file at x is in, and its path there. */
  ghost function Source(fs: FS, x: string): (s: (string, string))
    requires x in Paths(fs) && x !in fs.live.files
    ensures LiesIn(fs, x, s.0, s.1)
  {
    LiesSomewhere(fs, x);
    var r, y :| LiesIn(fs, x, r, y);
    (r, y)
  }

  ghost function BlobAt(fs: FS, x: string): Blob
    requires x in Paths(fs)
  {
    if x in fs.live.files then fs.live.files[x] else BlobAt(fs.backups[Source(fs, x).0], Source(fs, x).1)
  }

  /** All files on the disk by path, and the directories of entries. */
  ghost function OnDisk(fs: FS): Tree
  {
    Tree(map x | x in Paths(fs) :: BlobAt(fs, x), fs.live.dirs)
  }

  // ---------- no two files with one path ----------

  lemma MovedUnderBackup(r: string, y: string)
    requires Under(r, y)
    ensures Under(TmpKey(r), Moved(r, y))
  {
    if r != y {
      assert y[..|r| + 1] == r + "/";
      assert y[|r|..][0] == y[|r|] == y[..|r| + 1][|r|] == '/';
      var t := TmpKey(r);
      assert (t + y[|r|..])[..|t| + 1] == t + "/";
    } else {
      assert y[|r|..] == "";
    }
  }

  lemma NotCleanBelowBackup(r: string, x: string)
    requires Under(TmpKey(r), x)
    ensures !Clean(x)
  {
    var t, i := TmpKey(r), AfterSlash(r);
    TmpKeySplits(r);
    UnderLonger(t, x);
    assert x[..|t|] == t;
    assert x[i..][..4] == t[i..][..4] == "tmp_";
    if i > 0 { assert x[i - 1] == t[i - 1] == t[..i][i - 1] == r[i - 1]; }
  }

  lemma BelowThroughDir(root: string, a: string, b: string)
    requires Below(root, a) && AfterSlash(a) <= |b| && b[..AfterSlash(a)] == a[..AfterSlash(a)]
    ensures Below(root, b)
  {
    var n, i := |root|, AfterSlash(a);
    assert a[..n + 1] == root + "/";
    assert a[n] == a[..n + 1][n] == '/';
    SlashComesBefore(a, n);
    assert b[..n + 1] == b[..i][..n + 1] == a[..i][..n + 1] == a[..n + 1];
  }

  /** A backup and what is in it lie below a key exactly when the entry does. */
  lemma MovedBelowIff(root: string, r: string, y: string)
    requires Clean(root) && Under(r, y)
    ensures Under(root, Moved(r, y)) <==> Below(root, r)
  {
    var t, x := TmpKey(r), Moved(r, y);
    TmpKeySplits(r);
    MovedUnderBackup(r, y);
    if Below(root, r) {
      BelowThroughDir(root, r, t);
      BelowUnder(root, t, x);
    }
    if Under(root, x) {
      UnderOneOfTwo(root, t, x);
      if Under(t, root) {
        NotCleanBelowBackup(r, root);
      } else {
        BelowThroughDir(root, t, r);
      }
    }
  }

  lemma MovedInjective(r: string, y: string, r2: string, y2: string)
    requires Under(r, y) && Under(r2, y2) && Clean(r) && Clean(r2) && Moved(r, y) == Moved(r2, y2)
    ensures r == r2 && y == y2
  {
    MovedUnderBackup(r, y);
    MovedUnderBackup(r2, y2);
    UnderOneOfTwo(TmpKey(r), TmpKey(r2), Moved(r, y));
    if TmpKey(r) != TmpKey(r2) {
      if Below(TmpKey(r), TmpKey(r2)) { BackupNotInBackup(r, r2); } else { BackupNotInBackup(r2, r); }
    } else {
      TmpKeyInjective(r, r2);
      UnderLonger(r, y);
      UnderLonger(r, y2);
      assert y[|r|..] == Moved(r, y)[|TmpKey(r)|..] == y2[|r|..];
      assert y == r + y[|r|..] && y2 == r + y2[|r|..];
    }
  }

  lemma BackupNotInBackup(r: string, r2: string)
    requires Clean(r2)
    ensures !Below(TmpKey(r), TmpKey(r2))
  {
    if Below(TmpKey(r), TmpKey(r2)) {
      TmpKeySplits(r2);
      BelowThroughDir(TmpKey(r), TmpKey(r2), r2);
      NotCleanBelowBackup(r, r2);
    }
  }

  lemma {:induction false} PathsInPlace(fs: FS, r: string)
    requires WellPlaced(fs) && InPlaceFS(fs, r)
    ensures forall x :: x in Paths(fs) ==> Under(r, x)
  {
    forall k, y | k in fs.backups && y in Paths(fs.backups[k]) ensures Under(r, Moved(k, y))
    {
      PathsInPlace(fs.backups[k], k);
      MovedUnderBackup(k, y);
      TmpKeySplits(k);
      BelowThroughDir(r, k, TmpKey(k));
      BelowUnder(r, TmpKey(k), Moved(k, y));
    }
  }

  lemma BackupInPlace(fs: FS, r: string, y: string)
    requires WellPlaced(fs) && r in fs.backups && y in Paths(fs.backups[r])
    ensures Under(r, y)
  {
    PathsInPlace(fs.backups[r], r);
  }

  /** The disk holds every live file at its own path and every file of a backup at the backup's. */
  lemma OnDiskHolds(fs: FS, r: string, y: string)
    requires WellPlaced(fs) && CleanFS(fs) && r in fs.backups && y in OnDisk(fs.backups[r]).files
    ensures Moved(r, y) in OnDisk(fs).files && Moved(r, y) !in fs.live.files
    ensures OnDisk(fs).files[Moved(r, y)] == OnDisk(fs.backups[r]).files[y]
  {
    var x := Moved(r, y);
    BackupInPlace(fs, r, y);
    MovedUnderBackup(r, y);
    NotCleanBelowBackup(r, x);
    assert x in Paths(fs);
    var (r2, y2) := Source(fs, x);
    BackupInPlace(fs, r2, y2);
    MovedInjective(r, y, r2, y2);
  }

  lemma OnDiskHoldsLive(fs: FS, p: string)
    requires p in fs.live.files
    ensures p in OnDisk(fs).files && OnDisk(fs).files[p] == fs.live.files[p]
  {
  }

  // ---------- what a list reads ----------

  /** A backup below the key holds a file. */
  ghost predicate HoldsLeftover(fs: FS, root: string)
  {
    exists r :: r in fs.backups && Below(root, r) && OnDisk(fs.backups[r]).files != map[]
  }

  /** List reads the live files below the key and all files of the backups below it. */
  lemma ListReads(fs: FS, root: string, x: string)
    requires WellPlaced(fs) && CleanFS(fs) && Clean(root)
    ensures x in FilesBelow(OnDisk(fs), root) <==>
            x in FilesBelow(fs.live, root) || exists r, y :: LiesIn(fs, x, r, y) && Below(root, r)
  {
    if x in Paths(fs) && x !in fs.live.files {
      var (r, y) := Source(fs, x);
      BackupInPlace(fs, r, y);
      MovedBelowIff(root, r, y);
    }
    if r, y :| LiesIn(fs, x, r, y) && Below(root, r) {
      BackupInPlace(fs, r, y);
      MovedBelowIff(root, r, y);
      assert x in Paths(fs);
    }
  }

  lemma LeftoverIsRead(fs: FS, root: string, r: string, y: string)
    requires WellPlaced(fs) && CleanFS(fs) && Clean(root)
    requires r in fs.backups && Below(root, r) && y in OnDisk(fs.backups[r]).files
    ensures Moved(r, y) in FilesBelow(OnDisk(fs), root) && Moved(r, y) !in fs.live.files
    ensures OnDisk(fs).files[Moved(r, y)] == OnDisk(fs.backups[r]).files[y]
  {
    OnDiskHolds(fs, r, y);
    assert LiesIn(fs, Moved(r, y), r, y);
    ListReads(fs, root, Moved(r, y));
  }

  lemma ReadsLiveFilesIff(fs: FS, root: string)
    requires WellPlaced(fs) && CleanFS(fs) && Clean(root)
    ensures FilesBelow(OnDisk(fs), root) == FilesBelow(fs.live, root) <==> !HoldsLeftover(fs, root)
  {
    if HoldsLeftover(fs, root) {
      LeftoverIsAmongRead(fs, root);
    } else {
      forall x ensures x in FilesBelow(OnDisk(fs), root) <==> x in FilesBelow(fs.live, root)
      {
        NothingElseIsRead(fs, root, x);
      }
    }
  }

  lemma LeftoverIsAmongRead(fs: FS, root: string)
    requires WellPlaced(fs) && CleanFS(fs) && Clean(root) && HoldsLeftover(fs, root)
    ensures exists x :: x in FilesBelow(OnDisk(fs), root) && x !in fs.live.files
  {
    var r :| r in fs.backups && Below(root, r) && OnDisk(fs.backups[r]).files != map[];
    var y :| y in OnDisk(fs.backups[r]).files;
    LeftoverIsRead(fs, root, r, y);
  }

  lemma NothingElseIsRead(fs: FS, root: string, x: string)
    requires WellPlaced(fs) && CleanFS(fs) && Clean(root) && !HoldsLeftover(fs, root)
    ensures x in FilesBelow(OnDisk(fs), root) <==> x in FilesBelow(fs.live, root)
  {
    ListReads(fs, root, x);
    forall r, y | LiesIn(fs, x, r, y) ensures !Below(root, r) { assert y in OnDisk(fs.backups[r]).files; }
  }

  lemma {:induction false} DecodedSame(a: Tree, b: Tree, order: seq<string>)
    requires forall i :: 0 <= i < |order| ==>
               order[i] in a.files && order[i] in b.files && a.files[order[i]] == b.files[order[i]]
    ensures Decoded(a, order) == Decoded(b, order)
  {
    if order != [] { DecodedSame(a, b, order[..|order| - 1]); }
  }

  lemma CleanPathIsLive(fs: FS, p: string)
    requires WellPlaced(fs) && Clean(p)
    ensures p in Paths(fs) <==> p in fs.live.files
  {
    if p in Paths(fs) && p !in fs.live.files {
      var (r, y) := Source(fs, p);
      BackupInPlace(fs, r, y);
      MovedUnderBackup(r, y);
      NotCleanBelowBackup(r, p);
    }
  }

  /**
   * A list is answered from the live files alone, as the other results about
   * lists have it, exactly when no backup below its key holds a file.
   */
  lemma AnswersFromLiveIff(fs: FS, root: string, order: seq<string>, kubeletPods: bool, byName: bool)
    requires WellPlaced(fs) && CleanFS(fs) && Clean(root) && Enumerates(order, FilesBelow(OnDisk(fs), root))
    ensures Enumerates(order, FilesBelow(fs.live, root)) <==> !HoldsLeftover(fs, root)
    ensures !HoldsLeftover(fs, root) ==>
              QueryList(OnDisk(fs), root, order, kubeletPods, byName) ==
                QueryList(fs.live, root, order, kubeletPods, byName)
  {
    ReadsLiveFilesIff(fs, root);
    var read, live := FilesBelow(OnDisk(fs), root), FilesBelow(fs.live, root);
    if Enumerates(order, live) {
      forall x ensures x in read <==> x in live { assert x in order <==> x in read; assert x in order <==> x in live; }
    }
    if !HoldsLeftover(fs, root) {
      forall i | 0 <= i < |order| ensures order[i] in fs.live.files { assert order[i] in live; }
      DecodedSame(OnDisk(fs), fs.live, order);
      CleanPathIsLive(fs, root);
    }
  }

  // ---------- which objects come back ----------

  function Bearing(t: Tree, keys: set<string>, obj: Object): set<string>
  {
    set x | x in keys && x in t.files && t.files[x] == Whole(obj)
  }

  lemma {:induction false} DecodedCount(t: Tree, order: seq<string>, obj: Object)
    requires Distinct(order) && forall i :: 0 <= i < |order| ==> order[i] in t.files
    ensures multiset(Decoded(t, order))[obj] == |Bearing(t, SetOf(order), obj)|
  {
    if order != [] {
      var n := |order| - 1;
      var front, last := order[..n], order[n];
      DecodedCount(t, front, obj);
      assert SetOf(order) == SetOf(front) + {last} && last !in SetOf(front) by { assert order == front + [last]; }
      BearingOneMore(t, SetOf(front), last, obj);
    }
  }

  lemma BearingOneMore(t: Tree, keys: set<string>, x: string, obj: Object)
    requires x !in keys && x in t.files
    ensures |Bearing(t, keys + {x}, obj)| == |Bearing(t, keys, obj)| + if t.files[x] == Whole(obj) then 1 else 0
  {
    assert Bearing(t, keys + {x}, obj) == Bearing(t, keys, obj) + if t.files[x] == Whole(obj) then {x} else {};
  }

  lemma CountInList(t: Tree, root: string, order: seq<string>, obj: Object)
    requires Enumerates(order, FilesBelow(t, root))
    ensures forall i :: 0 <= i < |order| ==> order[i] in t.files
    ensures multiset(Decoded(t, order))[obj] == |Bearing(t, FilesBelow(t, root), obj)|
  {
    forall i | 0 <= i < |order| ensures order[i] in t.files { assert order[i] in FilesBelow(t, root); }
    DecodedCount(t, order, obj);
    assert SetOf(order) == FilesBelow(t, root);
  }

  lemma LiveAmongRead(fs: FS, root: string, obj: Object)
    ensures Bearing(fs.live, FilesBelow(fs.live, root), obj) <= Bearing(OnDisk(fs), FilesBelow(OnDisk(fs), root), obj)
  {
    forall p | p in fs.live.files ensures p in OnDisk(fs).files && OnDisk(fs).files[p] == fs.live.files[p]
    {
      OnDiskHoldsLive(fs, p);
    }
  }

  lemma SmallerHasFewer(a: set<string>, b: set<string>)
    requires a <= b
    ensures |a| <= |b| && (|a| == |b| ==> a == b)
  {
    assert b == a + (b - a);
  }

  ghost predicate HoldsAt(fs: FS, y: string, obj: Object)
  {
    y in OnDisk(fs).files && OnDisk(fs).files[y] == Whole(obj)
  }

  /** Some backup below the key holds obj. */
  ghost predicate LeftoverIs(fs: FS, root: string, obj: Object)
  {
    exists r, y :: r in fs.backups && Below(root, r) && HoldsAt(fs.backups[r], y, obj)
  }

  lemma LeftoverIsOneMore(fs: FS, root: string, obj: Object)
    requires WellPlaced(fs) && CleanFS(fs) && Clean(root) && LeftoverIs(fs, root, obj)
    ensures Bearing(OnDisk(fs), FilesBelow(OnDisk(fs), root), obj) != Bearing(fs.live, FilesBelow(fs.live, root), obj)
  {
    var r, y :| r in fs.backups && Below(root, r) && HoldsAt(fs.backups[r], y, obj);
    LeftoverIsRead(fs, root, r, y);
    assert Moved(r, y) in Bearing(OnDisk(fs), FilesBelow(OnDisk(fs), root), obj);
  }

  lemma OthersAreLive(fs: FS, root: string, obj: Object, x: string)
    requires WellPlaced(fs) && CleanFS(fs) && Clean(root) && !LeftoverIs(fs, root, obj)
    requires x in Bearing(OnDisk(fs), FilesBelow(OnDisk(fs), root), obj)
    ensures x in Bearing(fs.live, FilesBelow(fs.live, root), obj)
  {
    ListReads(fs, root, x);
    if r, y :| LiesIn(fs, x, r, y) && Below(root, r) {
      OnDiskHolds(fs, r, y);
      assert HoldsAt(fs.backups[r], y, obj);
    }
  }

  /** The list has obj more often than the live files do exactly when a backup below the key holds it. */
  lemma ListedMoreOftenIff(fs: FS, root: string, order: seq<string>, live: seq<string>, obj: Object)
    requires WellPlaced(fs) && CleanFS(fs) && Clean(root)
    requires Enumerates(order, FilesBelow(OnDisk(fs), root)) && Enumerates(live, FilesBelow(fs.live, root))
    ensures forall i :: 0 <= i < |order| ==> order[i] in OnDisk(fs).files
    ensures forall i :: 0 <= i < |live| ==> live[i] in fs.live.files
    ensures multiset(Decoded(OnDisk(fs), order))[obj] >= multiset(Decoded(fs.live, live))[obj]
    ensures multiset(Decoded(OnDisk(fs), order))[obj] > multiset(Decoded(fs.live, live))[obj] <==>
            LeftoverIs(fs, root, obj)
  {
    CountInList(OnDisk(fs), root, order, obj);
    CountInList(fs.live, root, live, obj);
    MoreBearersIff(fs, root, obj);
  }

  lemma MoreBearersIff(fs: FS, root: string, obj: Object)
    requires WellPlaced(fs) && CleanFS(fs) && Clean(root)
    ensures var all, some := Bearing(OnDisk(fs), FilesBelow(OnDisk(fs), root), obj),
            Bearing(fs.live, FilesBelow(fs.live, root), obj);
            |all| >= |some| && (|all| > |some| <==> LeftoverIs(fs, root, obj))
  {
    LiveAmongRead(fs, root, obj);
    SmallerHasFewer(Bearing(fs.live, FilesBelow(fs.live, root), obj),
      Bearing(OnDisk(fs), FilesBelow(OnDisk(fs), root), obj));
    if LeftoverIs(fs, root, obj) {
      LeftoverIsOneMore(fs, root, obj);
    } else {
      AllBearersAreLive(fs, root, obj);
    }
  }

  lemma AllBearersAreLive(fs: FS, root: string, obj: Object)
    requires WellPlaced(fs) && CleanFS(fs) && Clean(root) && !LeftoverIs(fs, root, obj)
    ensures Bearing(OnDisk(fs), FilesBelow(OnDisk(fs), root), obj) == Bearing(fs.live, FilesBelow(fs.live, root), obj)
  {
    LiveAmongRead(fs, root, obj);
    forall x | x in Bearing(OnDisk(fs), FilesBelow(OnDisk(fs), root), obj)
      ensures x in Bearing(fs.live, FilesBelow(fs.live, root), obj)
    {
      OthersAreLive(fs, root, obj, x);
    }
  }

  /**
   * So the list has exactly the objects that are live, each as often, if and
   * only if no backup below its key holds one.
   */
  lemma ListsLiveObjectsIff(fs: FS, root: string, order: seq<string>, live: seq<string>)
    requires WellPlaced(fs) && CleanFS(fs) && Clean(root)
    requires Enumerates(order, FilesBelow(OnDisk(fs), root)) && Enumerates(live, FilesBelow(fs.live, root))
    ensures forall i :: 0 <= i < |order| ==> order[i] in OnDisk(fs).files
    ensures forall i :: 0 <= i < |live| ==> live[i] in fs.live.files
    ensures multiset(Decoded(OnDisk(fs), order)) == multiset(Decoded(fs.live, live)) <==>
            forall obj :: !LeftoverIs(fs, root, obj)
  {
    forall obj
      ensures forall i :: 0 <= i < |order| ==> order[i] in OnDisk(fs).files
      ensures forall i :: 0 <= i < |live| ==> live[i] in fs.live.files
      ensures multiset(Decoded(OnDisk(fs), order))[obj] >= multiset(Decoded(fs.live, live))[obj]
      ensures multiset(Decoded(OnDisk(fs), order))[obj] > multiset(Decoded(fs.live, live))[obj] <==>
              LeftoverIs(fs, root, obj)
    {
      ListedMoreOftenIff(fs, root, order, live, obj);
    }
  }

  // ---------- a list with an object too many ----------

  lemma CleanItem(l: string, x: string)
    requires ListAndItem(l, x) && Clean(l)
    ensures Clean(x)
  {
    forall i | 0 <= i < |l| ensures x[i] != '/' { assert x[i] == l[i]; }
    forall i | 0 <= i <= |x| && (i == 0 || x[i - 1] == '/') ensures !("tmp_" <= x[i..])
    {
      if i == 0 && "tmp_" <= x[i..] { TmpInItem(l, x); }
    }
  }

  lemma TmpInItem(l: string, x: string)
    requires ListAndItem(l, x) && "tmp_" <= x
    ensures "tmp_" <= l[0..]
  {
    assert x[|l|] == '/';
    assert |l| >= 4;
    assert l[..4] == x[..4];
  }

  lemma CreateLeaves(fs: FS, key: string, c: Object)
    requires !Exists(fs.live, key)
    ensures ValidRun(Machine(fs, map[]), CreateSteps(key, c))
    ensures Run(Machine(fs, map[]), CreateSteps(key, c)).fs ==
            fs.(live := WriteFile(WriteFile(fs.live, key, Torn), key, Whole(c)))
  {
    CreateRuns(fs, key, c);
    var m, steps := Machine(fs, map[]), CreateSteps(key, c);
    var m1 := Next(m, steps[0]);
    var m2 := Next(m1, steps[1]);
    RunsFrom(m2, steps[1..][1..]);
    RunsFrom(m1, steps[1..]);
    RunsFrom(m, steps);
  }

  /** The item stored anew beside the backup that the failed update has left. */
  function ItemTwice(l: string, x: string, a: Object, c: Object): FS
  {
    FS(Tree(map[x := Whole(c)], {l}), map[x := FS(Tree(map[x := Whole(a)], {}), map[])])
  }

  lemma ItemTwiceIsListedTwice(l: string, x: string, a: Object, c: Object)
    requires ListAndItem(l, x) && Clean(l)
    ensures var fs := ItemTwice(l, x, a, c);
            WellPlaced(fs) && CleanFS(fs) && FileIn(fs.live.files, x) == Some(Whole(c)) && LeftoverIs(fs, l, a)
  {
    PathsOfItem(l, x);
    CleanItem(l, x);
    var fs, one := ItemTwice(l, x, a, c), FS(Tree(map[x := Whole(a)], {}), map[]);
    assert WellPlaced(one) && CleanFS(one);
    OnDiskHoldsLive(one, x);
    assert x in fs.backups && HoldsAt(fs.backups[x], x, a);
  }

  /**
   * After an update of an item that failed once the item was in its backup, and
   * a new create of the item, the list comes back with both objects.
   */
  lemma FailedUpdateIsListedTwice(l: string, x: string, a: Object, b: Object, c: Object)
    requires ListAndItem(l, x) && Clean(l) && a.version <= b.version
    ensures var m := Machine(FS(Tree(map[x := Whole(a)], {l}), map[]), map[]);
            var steps := FailInside(x, b) + CreateSteps(x, c);
            && ValidRun(m, steps)
            && var fs := Run(m, steps).fs;
               && WellPlaced(fs) && CleanFS(fs) && FileIn(fs.live.files, x) == Some(Whole(c)) && LeftoverIs(fs, l, a)
  {
    ItemTwiceIsListedTwice(l, x, a, c);
    ItemIsStoredTwice(l, x, a, b, c);
  }

  lemma ItemIsStoredTwice(l: string, x: string, a: Object, b: Object, c: Object)
    requires ListAndItem(l, x) && a.version <= b.version
    ensures var m := Machine(FS(Tree(map[x := Whole(a)], {l}), map[]), map[]);
            var steps := FailInside(x, b) + CreateSteps(x, c);
            ValidRun(m, steps) && Run(m, steps).fs == ItemTwice(l, x, a, c)
  {
    PathsOfItem(l, x);
    var m, fs := Machine(FS(Tree(map[x := Whole(a)], {l}), map[]), map[]), ItemInBackup(l, x, a);
    FailInsideRuns(l, x, a, b);
    CreateLeaves(fs, x, c);
    assert WriteFile(WriteFile(fs.live, x, Torn), x, Whole(c)) == Tree(map[x := Whole(c)], {l});
    RunConcat(m, FailInside(x, b), CreateSteps(x, c));
  }
}
