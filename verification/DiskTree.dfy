/**
 * What lies on the disk of the disk store, and what Recover makes of it when
 * the process starts: a lexical walk that moves every backup it meets back to
 * its entry, except that it passes over every path that starts with the path
 * of a directory already moved.
 *
 * A backup "dir/tmp_name" sits beside the entry "dir/name" it saves, so backups
 * are held here under the key they restore. A directory that is backed up
 * takes the backups left inside it along.
 */
module DiskTree {
  import opened Collections
  import opened Objects

  /** A file is complete, or cut short by a crash while it was being written. */
  datatype Blob = Whole(obj: Object) | Torn

  datatype Tree = Tree(files: map<string, Blob>, dirs: set<string>)

  datatype FS = FS(live: Tree, backups: map<string, FS>)

  // ---------- keys ----------

  /** path is root or lies below it. */
  predicate Under(root: string, path: string)
  {
    path == root || root + "/" <= path
  }

  predicate Below(root: string, path: string)
  {
    root + "/" <= path
  }

  lemma UnderOneOfTwo(a: string, b: string, p: string)
    requires Under(a, p) && Under(b, p)
    ensures Under(a, b) || Under(b, a)
  {
    if |a| < |b| {
      assert a + "/" == p[..|a| + 1];
      assert b == p[..|b|];
      assert a + "/" == b[..|a| + 1];
    } else if |b| < |a| {
      assert b + "/" == p[..|b| + 1];
      assert a == p[..|a|];
      assert b + "/" == a[..|b| + 1];
    } else {
      assert a == p[..|a|] && b == p[..|b|];
    }
  }

  lemma UnderTransitive(a: string, b: string, c: string)
    requires Under(a, b) && Under(b, c)
    ensures Under(a, c)
  {
    if a != b && b != c {
      assert c[..|b|] == b && b[..|a| + 1] == a + "/";
      assert c[..|a| + 1] == b[..|a| + 1];
    }
  }

  lemma UnderLonger(a: string, b: string)
    requires Under(a, b)
    ensures |a| <= |b| && a == b[..|a|] && (|a| == |b| ==> a == b)
  {
  }

  // A backup of "dir/name" is "dir/tmp_name".

  function AfterSlash(k: string): nat
    ensures AfterSlash(k) <= |k|
    ensures '/' !in k[AfterSlash(k)..]
    ensures AfterSlash(k) == 0 || k[AfterSlash(k) - 1] == '/'
  {
    if k == "" || k[|k| - 1] == '/' then |k| else AfterSlash(k[..|k| - 1])
  }

  function TmpKey(k: string): string
  {
    k[..AfterSlash(k)] + "tmp_" + k[AfterSlash(k)..]
  }

  predicate IsTmpFile(k: string)
  {
    "tmp_" <= k[AfterSlash(k)..]
  }

  function KeyOfTmp(t: string): string
  {
    var i := AfterSlash(t);
    t[..i] + if "tmp_" <= t[i..] then t[i + 4..] else t[i..]
  }

  lemma {:induction false} AfterSlashUnique(k: string, i: nat)
    requires i <= |k| && '/' !in k[i..] && (i == 0 || k[i - 1] == '/')
    ensures AfterSlash(k) == i
  {
    var j := AfterSlash(k);
    forall n | i <= n < |k| ensures k[n] != '/' { assert k[i..][n - i] == k[n]; }
    forall n | j <= n < |k| ensures k[n] != '/' { assert k[j..][n - j] == k[n]; }
  }

  lemma TmpKeySplits(k: string)
    ensures AfterSlash(TmpKey(k)) == AfterSlash(k)
    ensures TmpKey(k)[..AfterSlash(k)] == k[..AfterSlash(k)] &&
            TmpKey(k)[AfterSlash(k)..] == "tmp_" + k[AfterSlash(k)..]
  {
    var i, t := AfterSlash(k), TmpKey(k);
    assert t[i..] == "tmp_" + k[i..];
    AfterSlashUnique(t, i);
  }

  /** Recovery finds the entry a backup belongs to, so no two entries share a backup. */
  lemma BackupNamesItsEntry(k: string)
    ensures IsTmpFile(TmpKey(k)) && KeyOfTmp(TmpKey(k)) == k
  {
    var i, t := AfterSlash(k), TmpKey(k);
    TmpKeySplits(k);
    Undo(t, i, k[..i], k[i..]);
    assert k[..i] + k[i..] == k;
  }

  lemma Undo(t: string, i: nat, dir: string, name: string)
    requires i <= |t| && t[..i] == dir && t[i..] == "tmp_" + name
    ensures "tmp_" <= t[i..] && t[..i] + t[i + 4..] == dir + name
  {
    assert t[i + 4..] == t[i..][4..];
  }

  lemma TmpKeyInjective(a: string, b: string)
    requires TmpKey(a) == TmpKey(b)
    ensures a == b
  {
    BackupNamesItsEntry(a);
    BackupNamesItsEntry(b);
  }

  lemma SlashComesBefore(k: string, n: nat)
    requires n < |k| && k[n] == '/'
    ensures n < AfterSlash(k)
  {
    var i := AfterSlash(k);
    forall m | i <= m < |k| ensures k[m] != '/' { assert k[i..][m - i] == k[m]; }
  }

  lemma TmpKeyIn(dir: string, n: string)
    requires (dir == "" || dir[|dir| - 1] == '/') && '/' !in n
    ensures TmpKey(dir + n) == (dir + "tmp_") + n
  {
    assert (dir + n)[|dir|..] == n && (dir + n)[..|dir|] == dir;
    AfterSlashUnique(dir + n, |dir|);
  }

  lemma PrefixBehind(front: string, n: string, m: string)
    ensures front + n < front + m <==> n < m
  {
    if front + n < front + m {
      assert n == (front + n)[|front|..];
      assert (front + m)[|front|..|front| + |n|] == m[..|n|];
    }
  }

  /** Of two entries of one directory, one backup's path starts with the other's exactly when their names do. */
  lemma PrefixOfSibling(dir: string, n: string, m: string)
    requires (dir == "" || dir[|dir| - 1] == '/') && '/' !in n && '/' !in m
    ensures TmpKey(dir + n) < TmpKey(dir + m) <==> n < m
  {
    TmpKeyIn(dir, n);
    TmpKeyIn(dir, m);
    PrefixBehind(dir + "tmp_", n, m);
  }

  /** What lies above one of two backups with such paths lies above the other. */
  lemma PrefixSharesParents(q: string, d: string, r: string)
    requires Below(q, d) && TmpKey(d) <= TmpKey(r)
    ensures Below(q, r)
  {
    var i, n := AfterSlash(d), |q|;
    SlashComesBefore(d, n);
    PrefixSharesDir(d, r);
    assert q + "/" == d[..n + 1] == d[..i][..n + 1] == r[..i][..n + 1] == r[..n + 1];
  }

  lemma PrefixSharesDir(d: string, r: string)
    requires TmpKey(d) <= TmpKey(r)
    ensures AfterSlash(d) <= AfterSlash(r) && r[..AfterSlash(d)] == d[..AfterSlash(d)]
  {
    var i, t := AfterSlash(d), TmpKey(r);
    TmpKeySplits(d);
    TmpKeySplits(r);
    PrefixOfPrefix(t, TmpKey(d), i);
    if i > 0 {
      LastOfPrefix(t, d, i);
      SlashComesBefore(t, i - 1);
    }
    PrefixOfPrefix(t, t[..AfterSlash(r)], i);
    PrefixOfPrefix(r, r[..AfterSlash(r)], i);
  }

  lemma PrefixOfPrefix(t: string, s: string, i: nat)
    requires s <= t && i <= |s|
    ensures t[..i] == s[..i]
  {
  }

  lemma LastOfPrefix(s: string, t: string, i: nat)
    requires 0 < i <= |s| && i <= |t| && s[..i] == t[..i]
    ensures s[i - 1] == t[i - 1]
  {
    assert s[i - 1] == s[..i][i - 1];
  }

  predicate Incomparable(keys: set<string>)
  {
    forall a, b :: a in keys && b in keys && a != b ==> !Under(a, b)
  }

  function Ancestors(p: string): set<string>
  {
    set i | 0 <= i < |p| && p[i] == '/' :: p[..i]
  }

  lemma AncestorIsAbove(a: string, p: string)
    requires a in Ancestors(p)
    ensures Below(a, p)
  {
    var i :| 0 <= i < |p| && p[i] == '/' && a == p[..i];
    assert a + "/" == p[..i + 1];
  }

  // ---------- trees ----------

  function FileIn(files: map<string, Blob>, p: string): Option<Blob>
  {
    if p in files then Some(files[p]) else None
  }

  function Get(backups: map<string, FS>, k: string): Option<FS>
  {
    if k in backups then Some(backups[k]) else None
  }

  function Region(t: Tree, root: string): Tree
  {
    Tree(t.files - (set p | p in t.files && !Under(root, p)), set d | d in t.dirs && Under(root, d))
  }

  function Outside(t: Tree, root: string): Tree
  {
    Tree(t.files - (set p | p in t.files && Under(root, p)), set d | d in t.dirs && !Under(root, d))
  }

  function Graft(t: Tree, root: string, sub: Tree): Tree
  {
    var o := Outside(t, root);
    Tree(o.files + sub.files, o.dirs + sub.dirs)
  }

  function WriteFile(t: Tree, p: string, blob: Blob): Tree
  {
    Tree(t.files[p := blob], t.dirs + Ancestors(p))
  }

  function MakeDir(t: Tree, p: string): Tree
  {
    Tree(t.files, t.dirs + {p} + Ancestors(p))
  }

  predicate Exists(t: Tree, p: string)
  {
    p in t.files || p in t.dirs
  }

  lemma SameEntriesSameTree(a: Tree, b: Tree)
    requires forall p :: FileIn(a.files, p) == FileIn(b.files, p)
    requires forall p :: p in a.dirs <==> p in b.dirs
    ensures a == b
  {
    forall p ensures p in a.files <==> p in b.files
    {
      assert FileIn(a.files, p) == FileIn(b.files, p);
    }
    forall p | p in a.files ensures a.files[p] == b.files[p]
    {
      assert FileIn(a.files, p) == FileIn(b.files, p);
    }
    assert a.files == b.files;
  }

  lemma SameLookupsSameBackups(a: map<string, FS>, b: map<string, FS>)
    requires forall k :: Get(a, k) == Get(b, k)
    ensures a == b
  {
    forall k ensures k in a <==> k in b
    {
      assert Get(a, k) == Get(b, k);
    }
    forall k | k in a ensures a[k] == b[k]
    {
      assert Get(a, k) == Get(b, k);
    }
  }

  /** A subtree with the backups left inside it. */
  function RegionFS(fs: FS, key: string): FS
  {
    FS(Region(fs.live, key), fs.backups - (set r | r in fs.backups && !Below(key, r)))
  }

  /** The backups that are neither key's own nor inside its subtree. */
  function BackupsBeside(fs: FS, key: string): map<string, FS>
  {
    fs.backups - (set r | r in fs.backups && Under(key, r))
  }

  /** Drop what is live at key, with the backups inside it, and key's own backup; put sub there. */
  function Place(fs: FS, key: string, sub: FS): FS
  {
    FS(Graft(fs.live, key, sub.live), BackupsBeside(fs, key) + sub.backups)
  }

  predicate InPlace(t: Tree, r: string)
  {
    && (forall p :: p in t.files ==> Under(r, p))
    && (forall d :: d in t.dirs ==> Under(r, d))
  }

  /** Everything of fs lies under r, backups strictly below it. */
  predicate InPlaceFS(fs: FS, r: string)
  {
    InPlace(fs.live, r) && forall k :: k in fs.backups ==> Below(r, k)
  }

  /** Every backup holds entries of its own subtree only, all the way down. */
  predicate WellPlaced(fs: FS)
  {
    forall r :: r in fs.backups ==> InPlaceFS(fs.backups[r], r) && WellPlaced(fs.backups[r])
  }

  lemma PlaceAt(fs: FS, key: string, sub: FS)
    requires InPlaceFS(sub, key)
    ensures var fs' := Place(fs, key, sub);
            && (forall p :: FileIn(fs'.live.files, p) == if Under(key, p) then FileIn(sub.live.files, p)
               else FileIn(fs.live.files, p))
            && (forall p :: p in fs'.live.dirs <==> if Under(key, p) then p in sub.live.dirs else p in fs.live.dirs)
            && (forall k :: Get(fs'.backups, k) == if Under(key, k) then Get(sub.backups, k) else Get(fs.backups, k))
  {
  }

  // ---------- the order of the walk ----------

  /** filepath.Walk takes names in byte order and a directory before its entries. */
  function Rank(c: char): int
  {
    if c == '/' then 0 else c as int + 1
  }

  predicate WalkLe(a: string, b: string)
  {
    a == "" || (b != "" && (Rank(a[0]) < Rank(b[0]) || (a[0] == b[0] && WalkLe(a[1..], b[1..]))))
  }

  lemma {:induction false} WalkTotal(a: string, b: string)
    ensures WalkLe(a, b) || WalkLe(b, a)
  {
    if a != "" && b != "" && a[0] == b[0] { WalkTotal(a[1..], b[1..]); }
  }

  lemma {:induction false} WalkTransitive(a: string, b: string, c: string)
    requires WalkLe(a, b) && WalkLe(b, c)
    ensures WalkLe(a, c)
  {
    if a != "" && a[0] == b[0] && b[0] == c[0] { WalkTransitive(a[1..], b[1..], c[1..]); }
  }

  lemma {:induction false} WalkAntisymmetric(a: string, b: string)
    requires WalkLe(a, b) && WalkLe(b, a)
    ensures a == b
  {
    if a != "" {
      WalkAntisymmetric(a[1..], b[1..]);
      assert a == [a[0]] + a[1..] && b == [b[0]] + b[1..];
    }
  }

  lemma {:induction false} PrefixWalksFirst(a: string, b: string)
    requires a <= b
    ensures WalkLe(a, b)
  {
    if a != "" {
      assert a[1..] <= b[1..];
      PrefixWalksFirst(a[1..], b[1..]);
    }
  }

  /** The backup that the walk comes to first. */
  method First(todo: set<string>) returns (r: string)
    requires todo != {}
    ensures r in todo && forall q :: q in todo ==> WalkLe(TmpKey(r), TmpKey(q))
  {
    r :| r in todo;
    var left := todo - {r};
    WalkTotal(TmpKey(r), TmpKey(r));
    while left != {}
      invariant left <= todo && r in todo
      invariant forall q :: q in todo && q !in left ==> WalkLe(TmpKey(r), TmpKey(q))
      decreases left
    {
      var q :| q in left;
      WalkTotal(TmpKey(r), TmpKey(q));
      if !WalkLe(TmpKey(r), TmpKey(q)) {
        forall s | s in todo && s !in left ensures WalkLe(TmpKey(q), TmpKey(s))
        {
          WalkTransitive(TmpKey(q), TmpKey(r), TmpKey(s));
        }
        WalkTotal(TmpKey(q), TmpKey(q));
        r := q;
      }
      left := left - {q};
    }
  }

  // ---------- what recovery leaves ----------

  predicate IsDirBackup(fs: FS, r: string)
  {
    r in fs.backups && r !in fs.backups[r].live.files
  }

  /** The path of r's backup goes on where that of a backed up directory ends. */
  predicate Skips(fs: FS, d: string, r: string)
  {
    IsDirBackup(fs, d) && TmpKey(d) < TmpKey(r)
  }

  predicate Skipped(fs: FS, r: string)
  {
    exists d :: d in fs.backups && Skips(fs, d, r)
  }

  function Restorable(fs: FS): set<string>
  {
    set r | r in fs.backups && !Skipped(fs, r)
  }

  /** r is among the names of its directory when the walk gets there. */
  predicate InNames(fs: FS, r: string)
  {
    || (exists p :: p in fs.live.files && Under(r, p))
    || (exists d :: d in fs.live.dirs && Under(r, d))
    || (exists q :: q in fs.backups && Below(r, q))
  }

  /** The walk comes to r after it has come to r's backup, and so walks through what it has just restored. */
  predicate Revisited(fs: FS, r: string)
  {
    InNames(fs, r) && !WalkLe(r, TmpKey(r))
  }

  /** The shortest element of rs above p that is at least n long. */
  function Outermost(rs: set<string>, p: string, n: nat): Option<string>
    decreases |p| + 1 - n
  {
    if n > |p| then None
    else if p[..n] in rs && Under(p[..n], p) then Some(p[..n])
    else Outermost(rs, p, n + 1)
  }

  function Cover(rs: set<string>, p: string): Option<string>
  {
    Outermost(rs, p, 0)
  }

  lemma {:induction false} OutermostIs(rs: set<string>, p: string, n: nat)
    ensures Outermost(rs, p, n).Some? ==>
              var r := Outermost(rs, p, n).value;
              && r in rs && Under(r, p) && forall q :: q in rs && Under(q, p) && n <= |q| ==> |r| <= |q|
    ensures Outermost(rs, p, n).None? ==> forall q :: q in rs && Under(q, p) ==> |q| < n
    decreases |p| + 1 - n
  {
    if n <= |p| && !(p[..n] in rs && Under(p[..n], p)) {
      OutermostIs(rs, p, n + 1);
      forall q | q in rs && Under(q, p) ensures |q| != n { UnderLonger(q, p); }
    } else {
      forall q | q in rs && Under(q, p) ensures |q| <= |p| { UnderLonger(q, p); }
    }
  }

  /** r is the cover of p when it is above p and nothing else above p is above r. */
  lemma CoverIs(rs: set<string>, p: string, r: string)
    requires r in rs && Under(r, p) && forall q :: q in rs && Under(q, p) ==> Under(r, q)
    ensures Cover(rs, p) == Some(r)
  {
    OutermostIs(rs, p, 0);
    UnderLonger(r, p);
    var s := Cover(rs, p).value;
    UnderLonger(r, s);
  }

  lemma CoverNone(rs: set<string>, p: string)
    requires forall q :: q in rs ==> !Under(q, p)
    ensures Cover(rs, p) == None
  {
    OutermostIs(rs, p, 0);
  }

  /** The cover is above everything else above p. */
  lemma CoverAbove(rs: set<string>, p: string)
    ensures Cover(rs, p).None? ==> forall q :: q in rs ==> !Under(q, p)
    ensures Cover(rs, p).Some? ==>
              var r := Cover(rs, p).value;
              r in rs && Under(r, p) && forall q :: q in rs && Under(q, p) ==> Under(r, q)
  {
    OutermostIs(rs, p, 0);
    if Cover(rs, p).Some? {
      var r := Cover(rs, p).value;
      forall q | q in rs && Under(q, p) ensures Under(r, q)
      {
        UnderOneOfTwo(r, q, p);
        if Under(q, r) { UnderLonger(q, r); }
      }
    }
  }

  /** What is put in place of r: its backup, walked through in its turn if the walk is still to come to r. */
  ghost function Placed(fs: FS, r: string): FS
    requires r in fs.backups
    decreases fs, 0
  {
    if Revisited(fs, r) then Recovered(fs.backups[r]) else fs.backups[r]
  }

  /** What the walk shows at p once the backups in rs are restored: the outermost one above p decides. */
  ghost function FileAfter(fs: FS, rs: set<string>, p: string): Option<Blob>
    requires rs <= fs.backups.Keys
    decreases fs, 1
  {
    match Cover(rs, p)
    case None => FileIn(fs.live.files, p)
    case Some(r) => if r in fs.backups then FileIn(Placed(fs, r).live.files, p) else None
  }

  ghost predicate DirAfter(fs: FS, rs: set<string>, p: string)
    requires rs <= fs.backups.Keys
    decreases fs, 1
  {
    match Cover(rs, p)
    case None => p in fs.live.dirs
    case Some(r) => r in fs.backups && p in Placed(fs, r).live.dirs
  }

  ghost function BackupAfter(fs: FS, rs: set<string>, k: string): Option<FS>
    requires rs <= fs.backups.Keys
    decreases fs, 1
  {
    match Cover(rs, k)
    case None => Get(fs.backups, k)
    case Some(r) => if r in fs.backups then Get(Placed(fs, r).backups, k) else None
  }

  /** The disk that a restart leaves. */
  ghost function Recovered(fs: FS): FS
    decreases fs, 2
  {
    var rs := Restorable(fs);
    var files := fs.live.files.Keys + (set r, p | r in fs.backups && p in Placed(fs, r).live.files :: p);
    var dirs := fs.live.dirs + (set r, d | r in fs.backups && d in Placed(fs, r).live.dirs :: d);
    var keys := fs.backups.Keys + (set r, k | r in fs.backups && k in Placed(fs, r).backups :: k);
    FS(Tree(map p | p in files && FileAfter(fs, rs, p).Some? :: FileAfter(fs, rs, p).value,
            set d | d in dirs && DirAfter(fs, rs, d)),
       map k | k in keys && BackupAfter(fs, rs, k).Some? :: BackupAfter(fs, rs, k).value)
  }

  /** What a restart shows at p. */
  ghost function RecFile(fs: FS, p: string): Option<Blob>
  {
    FileAfter(fs, Restorable(fs), p)
  }

  lemma RecoveredFile(fs: FS, p: string)
    ensures FileIn(Recovered(fs).live.files, p) == RecFile(fs, p)
  {
    CoverAbove(Restorable(fs), p);
  }

  lemma RecoveredDir(fs: FS, p: string)
    ensures p in Recovered(fs).live.dirs <==> DirAfter(fs, Restorable(fs), p)
  {
    CoverAbove(Restorable(fs), p);
  }

  lemma RecoveredBackup(fs: FS, k: string)
    ensures Get(Recovered(fs).backups, k) == BackupAfter(fs, Restorable(fs), k)
  {
    CoverAbove(Restorable(fs), k);
  }


  // ---------- the walk ----------

  /** The first directory on the way to a skipped backup is itself not skipped. */
  lemma {:induction false} FirstSkipper(fs: FS, d: string, r: string) returns (s: string)
    requires Skips(fs, d, r)
    ensures Skips(fs, s, r) && !Skipped(fs, s)
    decreases |TmpKey(d)|
  {
    if e :| e in fs.backups && Skips(fs, e, d) {
      assert TmpKey(e) < TmpKey(r) by { assert TmpKey(e) == TmpKey(d)[..|TmpKey(e)|] == TmpKey(r)[..|TmpKey(e)|]; }
      s := FirstSkipper(fs, e, r);
    } else {
      s := d;
    }
  }

  /** How far the walk has got: restored holds the backups moved so far, cur is the disk. */
  ghost predicate Walked(fs: FS, cur: FS, todo: set<string>, restored: set<string>)
  {
    Visited(fs, todo, restored) && StandsAfter(fs, restored, cur)
  }

  ghost predicate Visited(fs: FS, todo: set<string>, restored: set<string>)
  {
    && todo <= fs.backups.Keys && restored <= Restorable(fs) && todo !! restored
    && (forall q, d :: q in todo && d in restored ==> !Under(d, q))
    && (forall q :: q in fs.backups && q !in todo ==> q in restored || Skipped(fs, q) || Swallowed(restored, q))
  }

  /** q went with a directory that was replaced by its backup. */
  ghost predicate Swallowed(restored: set<string>, q: string)
  {
    exists d :: d in restored && Below(d, q)
  }

  ghost predicate StandsAfter(fs: FS, rs: set<string>, cur: FS)
    requires rs <= fs.backups.Keys
  {
    && (forall p :: FileIn(cur.live.files, p) == FileAfter(fs, rs, p))
    && (forall p :: p in cur.live.dirs <==> DirAfter(fs, rs, p))
    && (forall k :: Get(cur.backups, k) == BackupAfter(fs, rs, k))
  }

  /** The paths of the directories restored so far. */
  ghost predicate PathsOf(fs: FS, restored: set<string>, paths: set<string>)
  {
    && (forall t :: t in paths ==> exists d :: d in restored && IsDirBackup(fs, d) && TmpKey(d) == t)
    && (forall d :: d in restored && IsDirBackup(fs, d) ==> TmpKey(d) in paths)
  }

  lemma SkipperComesFirst(todo: set<string>, d: string, r: string)
    requires TmpKey(d) < TmpKey(r) && forall q :: q in todo ==> WalkLe(TmpKey(r), TmpKey(q))
    ensures d !in todo
  {
    PrefixWalksFirst(TmpKey(d), TmpKey(r));
    if d in todo { WalkAntisymmetric(TmpKey(d), TmpKey(r)); }
  }

  lemma SkipperNotSwallowed(restored: set<string>, d: string, r: string)
    requires TmpKey(d) < TmpKey(r) && forall q :: q in restored ==> !Under(q, r)
    ensures !Swallowed(restored, d)
  {
    forall q | q in restored ensures !Below(q, d)
    {
      if Below(q, d) { PrefixSharesParents(q, d, r); }
    }
  }

  lemma SkipperIsRestored(fs: FS, todo: set<string>, restored: set<string>, r: string) returns (d: string)
    requires Visited(fs, todo, restored) && r in todo && Skipped(fs, r)
    requires forall q :: q in todo ==> WalkLe(TmpKey(r), TmpKey(q))
    ensures d in restored && Skips(fs, d, r)
  {
    var e :| e in fs.backups && Skips(fs, e, r);
    d := FirstSkipper(fs, e, r);
    SkipperComesFirst(todo, d, r);
    SkipperNotSwallowed(restored, d, r);
  }

  /** The prefix test on the directories moved so far skips exactly the backups that are to be skipped. */
  lemma TestDecides(fs: FS, todo: set<string>, restored: set<string>, paths: set<string>, r: string)
    requires Visited(fs, todo, restored) && r in todo && PathsOf(fs, restored, paths)
    requires forall q :: q in todo ==> WalkLe(TmpKey(r), TmpKey(q))
    ensures (exists t :: t in paths && t <= TmpKey(r)) <==> Skipped(fs, r)
  {
    if t :| t in paths && t <= TmpKey(r) {
      var d :| d in restored && IsDirBackup(fs, d) && TmpKey(d) == t;
      if t == TmpKey(r) { TmpKeyInjective(d, r); }
      assert Skips(fs, d, r);
    }
    if Skipped(fs, r) {
      var d := SkipperIsRestored(fs, todo, restored, r);
      assert TmpKey(d) in paths;
    }
  }

  lemma CoverAdd(rs: set<string>, r: string, p: string)
    requires forall d :: d in rs ==> !Under(d, r)
    ensures Cover(rs + {r}, p) == if Under(r, p) then Some(r) else Cover(rs, p)
  {
    CoverAbove(rs, p);
    if Under(r, p) {
      forall q | q in rs + {r} && Under(q, p) ensures Under(r, q) { UnderOneOfTwo(q, r, p); }
      CoverIs(rs + {r}, p, r);
    } else if Cover(rs, p).Some? {
      CoverIs(rs + {r}, p, Cover(rs, p).value);
    } else {
      CoverNone(rs + {r}, p);
    }
  }

  lemma RestoreStands(fs: FS, rs: set<string>, cur: FS, r: string)
    requires rs <= fs.backups.Keys && StandsAfter(fs, rs, cur) && r in fs.backups && InPlaceFS(Placed(fs, r), r)
    requires forall d :: d in rs ==> !Under(d, r)
    ensures StandsAfter(fs, rs + {r}, Place(cur, r, Placed(fs, r)))
  {
    var sub := Placed(fs, r);
    PlaceAt(cur, r, sub);
    forall p
      ensures FileAfter(fs, rs + {r}, p) == if Under(r, p) then FileIn(sub.live.files, p) else FileAfter(fs, rs, p)
      ensures DirAfter(fs, rs + {r}, p) <==> if Under(r, p) then p in sub.live.dirs else DirAfter(fs, rs, p)
      ensures BackupAfter(fs, rs + {r}, p) == if Under(r, p) then Get(sub.backups, p) else BackupAfter(fs, rs, p)
    {
      CoverAdd(rs, r, p);
    }
  }

  /** Everything recovery puts in place of r belongs there. */
  lemma {:induction false} RecoveredInPlace(fs: FS)
    requires WellPlaced(fs)
    ensures WellPlaced(Recovered(fs))
    ensures forall r :: InPlaceFS(fs, r) ==> InPlaceFS(Recovered(fs), r)
    ensures forall r :: r in fs.backups ==> InPlaceFS(Placed(fs, r), r) && WellPlaced(Placed(fs, r))
  {
    forall r | r in fs.backups ensures InPlaceFS(Placed(fs, r), r) && WellPlaced(Placed(fs, r))
    {
      RecoveredInPlace(fs.backups[r]);
    }
    var fs' := Recovered(fs);
    forall k | k in fs'.backups ensures InPlaceFS(fs'.backups[k], k) && WellPlaced(fs'.backups[k])
    {
      RecoveredBackup(fs, k);
      CoverAbove(Restorable(fs), k);
    }
    forall r | InPlaceFS(fs, r) ensures InPlaceFS(fs', r)
    {
      RecoveredStaysUnder(fs, r);
    }
  }

  lemma PlacedInPlace(fs: FS, r: string)
    requires WellPlaced(fs) && r in fs.backups
    ensures InPlaceFS(Placed(fs, r), r)
  {
    RecoveredInPlace(fs.backups[r]);
  }

  lemma RecoveredStaysUnder(fs: FS, r: string)
    requires InPlaceFS(fs, r) && forall k :: k in fs.backups ==> InPlaceFS(Placed(fs, k), k)
    ensures InPlaceFS(Recovered(fs), r)
  {
    var fs' := Recovered(fs);
    forall p | p in fs'.live.files ensures Under(r, p)
    {
      RecoveredFile(fs, p);
      CoverAbove(Restorable(fs), p);
      if Cover(Restorable(fs), p).Some? { UnderTransitive(r, Cover(Restorable(fs), p).value, p); }
    }
    forall p | p in fs'.live.dirs ensures Under(r, p)
    {
      RecoveredDir(fs, p);
      CoverAbove(Restorable(fs), p);
      if Cover(Restorable(fs), p).Some? { UnderTransitive(r, Cover(Restorable(fs), p).value, p); }
    }
    forall k | k in fs'.backups ensures Below(r, k)
    {
      RecoveredBackup(fs, k);
      CoverAbove(Restorable(fs), k);
      if Cover(Restorable(fs), k).Some? { BelowUnder(r, Cover(Restorable(fs), k).value, k); }
    }
  }

  lemma BelowUnder(a: string, b: string, c: string)
    requires Below(a, b) && Under(b, c)
    ensures Below(a, c)
  {
    assert c[..|b|] == b;
    assert c[..|a| + 1] == b[..|a| + 1] == a + "/";
  }

  lemma SwallowedCovers(rs: set<string>, all: set<string>, p: string)
    requires rs <= all && forall q :: q in all && q !in rs ==> Swallowed(rs, q)
    ensures Cover(rs, p) == Cover(all, p)
  {
    CoverAbove(all, p);
    if Cover(all, p).None? {
      CoverNone(rs, p);
    } else {
      var s := Cover(all, p).value;
      if s !in rs {
        var d :| d in rs && Below(d, s);
        UnderTransitive(d, s, p);
        UnderLonger(s, d);
      }
      CoverIs(rs, p, s);
    }
  }

  lemma WalkStarts(fs: FS)
    ensures Walked(fs, fs, fs.backups.Keys, {})
  {
    forall p ensures Cover({}, p) == None { CoverNone({}, p); }
  }

  lemma WalkSkips(fs: FS, cur: FS, todo: set<string>, restored: set<string>, r: string)
    requires Walked(fs, cur, todo, restored) && Skipped(fs, r)
    ensures Walked(fs, cur, todo - {r}, restored)
  {
  }

  lemma PathsGrow(fs: FS, restored: set<string>, paths: set<string>, r: string)
    requires PathsOf(fs, restored, paths)
    ensures PathsOf(fs, restored + {r}, if IsDirBackup(fs, r) then paths + {TmpKey(r)} else paths)
  {
    forall t | t in paths ensures exists d :: d in restored + {r} && IsDirBackup(fs, d) && TmpKey(d) == t
    {
      var d :| d in restored && IsDirBackup(fs, d) && TmpKey(d) == t;
      assert d in restored + {r};
    }
    assert r in restored + {r};
  }

  lemma WalkRestores(fs: FS, cur: FS, todo: set<string>, restored: set<string>, r: string)
    requires WellPlaced(fs) && Walked(fs, cur, todo, restored) && r in todo && !Skipped(fs, r)
    ensures Walked(fs, Place(cur, r, Placed(fs, r)), (set q | q in todo && !Under(r, q)), restored + {r})
  {
    PlacedInPlace(fs, r);
    RestoreStands(fs, restored, cur, r);
    var todo', restored' := (set q | q in todo && !Under(r, q)), restored + {r};
    forall q | q in fs.backups && q !in todo' ensures q in restored' || Skipped(fs, q) || Swallowed(restored', q)
    {
      if q in todo && q != r {
        assert r in restored' && Below(r, q);
      } else if Swallowed(restored, q) {
        var d :| d in restored && Below(d, q);
        assert d in restored';
      }
    }
  }

  lemma WalkEnds(fs: FS, cur: FS, restored: set<string>)
    requires Walked(fs, cur, {}, restored)
    ensures cur == Recovered(fs)
  {
    var done := Recovered(fs);
    forall p ensures Cover(restored, p) == Cover(Restorable(fs), p) { SwallowedCovers(restored, Restorable(fs), p); }
    forall p ensures FileIn(cur.live.files, p) == FileIn(done.live.files, p) { RecoveredFile(fs, p); }
    forall p ensures p in cur.live.dirs <==> p in done.live.dirs { RecoveredDir(fs, p); }
    forall k ensures Get(cur.backups, k) == Get(done.backups, k) { RecoveredBackup(fs, k); }
    SameEntriesSameTree(cur.live, done.live);
    SameLookupsSameBackups(cur.backups, done.backups);
  }

  /**
   * Recover: the walk in its order, with the prefix test on the directories
   * restored so far. A restored subtree that the walk is still to come to is
   * walked through at once; nothing beside it can tell the difference.
   */
  method Recover(fs: FS) returns (fs': FS)
    requires WellPlaced(fs)
    ensures fs' == Recovered(fs)
    decreases fs
  {
    var todo, recoveredDir: set<string> := fs.backups.Keys, {};
    ghost var restored: set<string> := {};
    fs' := fs;
    WalkStarts(fs);
    while todo != {}
      invariant Walked(fs, fs', todo, restored) && PathsOf(fs, restored, recoveredDir)
      decreases todo
    {
      var r := First(todo);
      TestDecides(fs, todo, restored, recoveredDir, r);
      if exists t :: t in recoveredDir && t <= TmpKey(r) {
        WalkSkips(fs, fs', todo, restored, r);
        todo := todo - {r};
      } else {
        var sub := fs.backups[r];
        if Revisited(fs, r) {
          sub := Recover(sub);
        }
        WalkRestores(fs, fs', todo, restored, r);
        PathsGrow(fs, restored, recoveredDir, r);
        fs' := Place(fs', r, sub);
        todo := set q | q in todo && !Under(r, q);
        restored := restored + {r};
        if IsDirBackup(fs, r) {
          recoveredDir := recoveredDir + {TmpKey(r)};
        }
      }
    }
    WalkEnds(fs, fs', restored);
  }

  // ---------- what recovery restores ----------

  /** Where no backup lies above p, a restart leaves p alone. */
  lemma UncoveredStays(fs: FS, p: string)
    requires forall r :: r in fs.backups ==> !Under(r, p)
    ensures RecFile(fs, p) == FileIn(fs.live.files, p) && Get(Recovered(fs).backups, p) == None
  {
    CoverNone(Restorable(fs), p);
    RecoveredBackup(fs, p);
  }

  /** Where no backup inside r's backup lies above p, r's backup decides on p. */
  lemma PlacedFile(fs: FS, r: string, p: string)
    requires r in fs.backups && forall k :: k in fs.backups[r].backups ==> !Under(k, p)
    ensures FileIn(Placed(fs, r).live.files, p) == FileIn(fs.backups[r].live.files, p)
    ensures Get(Placed(fs, r).backups, p) == None
  {
    UncoveredStays(fs.backups[r], p);
    RecoveredFile(fs.backups[r], p);
  }

  /** r's backup is gone from its place, and what it held shows below r. */
  ghost predicate RestoredFrom(fs: FS, r: string)
    requires r in fs.backups
  {
    && Get(Recovered(fs).backups, r) == None
    && forall p :: Under(r, p) ==> RecFile(fs, p) == FileIn(Placed(fs, r).live.files, p)
  }

  /** Whatever is below r has the cover of r. */
  lemma CoverBelow(rs: set<string>, r: string, p: string)
    requires Under(r, p) && Cover(rs, r).Some?
    ensures Cover(rs, p) == Cover(rs, r)
  {
    CoverAbove(rs, r);
    var s := Cover(rs, r).value;
    UnderTransitive(s, r, p);
    forall q | q in rs && Under(q, p) ensures Under(s, q)
    {
      UnderOneOfTwo(q, r, p);
      if Under(r, q) { UnderTransitive(s, r, q); }
    }
    CoverIs(rs, p, s);
  }

  /** What a restart leaves below r and of r's backup is decided by the outermost restorable backup at or above r. */
  lemma ShownBelow(fs: FS, r: string, q: string)
    requires r in fs.backups && Cover(Restorable(fs), r) == Some(q) && q in fs.backups
    ensures Get(Recovered(fs).backups, r) == Get(Placed(fs, q).backups, r)
    ensures forall p :: Under(r, p) ==> RecFile(fs, p) == FileIn(Placed(fs, q).live.files, p)
  {
    RecoveredBackup(fs, r);
    forall p | Under(r, p) ensures Cover(Restorable(fs), p) == Some(q) { CoverBelow(Restorable(fs), r, p); }
  }

  lemma LeftOutStays(fs: FS, r: string)
    requires r in fs.backups && Cover(Restorable(fs), r).None?
    ensures Skipped(fs, r) && Get(Recovered(fs).backups, r) == Some(fs.backups[r])
  {
    CoverAbove(Restorable(fs), r);
    assert r !in Restorable(fs);
    RecoveredBackup(fs, r);
  }

  /** Restoring q's backup puts below r what r's backup holds, and no backup at r. */
  ghost predicate RestoresSame(fs: FS, q: string, r: string)
    requires q in fs.backups && r in fs.backups
  {
    && Get(Placed(fs, q).backups, r) == None
    && forall p :: Under(r, p) ==> FileIn(Placed(fs, q).live.files, p) == FileIn(Placed(fs, r).live.files, p)
  }

  /** The outermost restorable backup at or above r is another one, with something else below r. */
  ghost predicate Overruled(fs: FS, r: string)
    requires r in fs.backups
  {
    exists q :: q in fs.backups && q != r && Cover(Restorable(fs), r) == Some(q) && !RestoresSame(fs, q, r)
  }

  lemma RestoredIff(fs: FS, r: string)
    requires WellPlaced(fs) && r in fs.backups
    ensures RestoredFrom(fs, r) <==> Cover(Restorable(fs), r).Some? && !Overruled(fs, r)
  {
    CoverAbove(Restorable(fs), r);
    match Cover(Restorable(fs), r) {
      case None => LeftOutStays(fs, r);
      case Some(q) =>
        ShownBelow(fs, r, q);
        PlacedInPlace(fs, r);
    }
  }

  /**
   * A restart restores every backup exactly when none is left out, that is, has
   * no restorable backup at or above it, and none is overruled by one above it.
   * Backups none of which lies above another are never overruled, and are left
   * out exactly when a backed up directory's path is a proper prefix, character
   * by character, of theirs.
   */
  lemma AllRestoredIff(fs: FS)
    requires WellPlaced(fs)
    ensures (forall r :: r in fs.backups ==> RestoredFrom(fs, r)) <==>
            (forall r :: r in fs.backups ==> Cover(Restorable(fs), r).Some? && !Overruled(fs, r))
    ensures Incomparable(fs.backups.Keys) ==>
            ((forall r :: r in fs.backups ==> RestoredFrom(fs, r)) <==>
             !(exists d, r :: d in fs.backups && r in fs.backups && Skips(fs, d, r)))
  {
    forall r | r in fs.backups
      ensures RestoredFrom(fs, r) <==> Cover(Restorable(fs), r).Some? && !Overruled(fs, r)
      ensures Incomparable(fs.backups.Keys) ==> (RestoredFrom(fs, r) <==> !Skipped(fs, r))
    {
      RestoredIff(fs, r);
      if Incomparable(fs.backups.Keys) { OnlyItselfCovers(fs, r); }
    }
  }

  lemma OnlyItselfCovers(fs: FS, r: string)
    requires Incomparable(fs.backups.Keys) && r in fs.backups
    ensures Cover(Restorable(fs), r) == if Skipped(fs, r) then None else Some(r)
  {
    forall q | q in Restorable(fs) && Under(q, r) ensures q == r
    {
      assert q in fs.backups.Keys && r in fs.backups.Keys;
    }
    if Skipped(fs, r) { CoverNone(Restorable(fs), r); } else { CoverIs(Restorable(fs), r, r); }
  }

  /**
   * So of two directories of one directory, one name beginning with the other
   * as "ns10" does with "ns1", the backup of the longer is never restored: what
   * is live there stays, and the backup too, unless a backup restored further
   * up decides on both.
   */
  lemma LongerNameIsLeftBehind(fs: FS, dir: string, n: string, ext: string)
    requires (dir == "" || dir[|dir| - 1] == '/') && '/' !in n && '/' !in ext && ext != ""
    requires IsDirBackup(fs, dir + n) && dir + (n + ext) in fs.backups
    ensures var r := dir + (n + ext);
            match Cover(Restorable(fs), r)
            case None =>
              && Get(Recovered(fs).backups, r) == Some(fs.backups[r])
              && RecFile(fs, r) == FileIn(fs.live.files, r)
              && forall p :: Below(r, p) && Cover(Restorable(fs), p).None? ==>
                 RecFile(fs, p) == FileIn(fs.live.files, p)
            case Some(q) =>
              && q in fs.backups && Below(q, r)
              && Get(Recovered(fs).backups, r) == Get(Placed(fs, q).backups, r)
              && forall p :: Under(r, p) ==> RecFile(fs, p) == FileIn(Placed(fs, q).live.files, p)
  {
    var r := dir + (n + ext);
    assert n < n + ext;
    PrefixOfSibling(dir, n, n + ext);
    assert Skips(fs, dir + n, r);
    CoverAbove(Restorable(fs), r);
    match Cover(Restorable(fs), r) {
      case None => LeftOutStays(fs, r);
      case Some(q) => ShownBelow(fs, r, q);
    }
  }

  // ---------- every entry lies in a directory ----------

  predicate Inside(root: Option<string>, p: string)
  {
    root.None? || Under(root.value, p)
  }

  function Parents(root: Option<string>, p: string): set<string>
  {
    set a | a in Ancestors(p) && Inside(root, a)
  }

  /** The directories above every file, directory and backup are there, all the way down from root. */
  ghost predicate Rooted(fs: FS, root: Option<string>)
  {
    && RootedTree(fs.live, root)
    && (forall r :: r in fs.backups ==> Parents(root, r) <= fs.live.dirs && Rooted(fs.backups[r], Some(r)))
  }

  ghost predicate RootedTree(t: Tree, root: Option<string>)
  {
    && (forall p :: p in t.files ==> Parents(root, p) <= t.dirs)
    && (forall d :: d in t.dirs ==> Parents(root, d) <= t.dirs)
  }

  lemma AboveIsParent(root: Option<string>, a: string, p: string)
    requires Below(a, p) && Inside(root, a)
    ensures a in Parents(root, p)
  {
    assert p[..|a| + 1] == a + "/";
    assert p[|a|] == p[..|a| + 1][|a|] == '/' && p[..|a|] == p[..|a| + 1][..|a|] == a;
  }

  lemma ParentIsAbove(root: Option<string>, a: string, p: string)
    requires a in Parents(root, p)
    ensures Below(a, p) && Inside(root, a)
  {
    AncestorIsAbove(a, p);
  }

  /** With nothing at r, nothing lies below it. */
  lemma NothingBelowNothing(fs: FS, root: Option<string>, r: string)
    requires Rooted(fs, root) && Inside(root, r)
    ensures InNames(fs, r) <==> Exists(fs.live, r)
    ensures !Exists(fs.live, r) ==> forall p :: Under(r, p) ==> p !in fs.live.files
  {
    forall p | Below(r, p) ensures r in Parents(root, p) { AboveIsParent(root, r, p); }
    if Exists(fs.live, r) { assert Under(r, r); }
  }

  // ---------- backups inside a backup ----------

  /** The last part of r sorts behind "tmp_" and itself, byte by byte. */
  predicate SortsBehindBackup(r: string)
  {
    var name := r[AfterSlash(r)..];
    exists i :: 0 <= i < |name| && name[..i] == ("tmp_" + name)[..i] && name[i] > ("tmp_" + name)[i]
  }

  lemma {:induction false} WalkLePrefix(d: string, a: string, b: string)
    ensures WalkLe(d + a, d + b) <==> WalkLe(a, b)
  {
    if d == "" {
      assert d + a == a && d + b == b;
    } else {
      assert (d + a)[1..] == d[1..] + a && (d + b)[1..] == d[1..] + b;
      WalkLePrefix(d[1..], a, b);
    }
  }

  /** Without slashes the order of the walk is that of the bytes. */
  lemma {:induction false} WalksLater(a: string, b: string)
    requires '/' !in a && '/' !in b && |a| <= |b|
    ensures !WalkLe(a, b) <==> exists i :: 0 <= i < |a| && a[..i] == b[..i] && a[i] > b[i]
  {
    if a != "" {
      if a[0] == b[0] {
        WalksLater(a[1..], b[1..]);
        if i :| 0 <= i < |a| && a[..i] == b[..i] && a[i] > b[i] {
          assert a[1..][..i - 1] == a[..i][1..] == b[..i][1..] == b[1..][..i - 1];
          assert a[1..][i - 1] > b[1..][i - 1];
        }
        if i :| 0 <= i < |a| - 1 && a[1..][..i] == b[1..][..i] && a[1..][i] > b[1..][i] {
          assert a[..i + 1] == [a[0]] + a[1..][..i] && b[..i + 1] == [b[0]] + b[1..][..i];
          assert a[i + 1] > b[i + 1];
        }
      } else {
        assert a[0] != '/' && b[0] != '/';
        if a[0] > b[0] { assert a[..0] == b[..0]; }
        if i :| 0 <= i < |a| && a[..i] == b[..i] && a[i] > b[i] && i > 0 { assert a[..i][0] == b[..i][0]; }
      }
    }
  }

  lemma WalkedAfterBackupIff(r: string)
    ensures !WalkLe(r, TmpKey(r)) <==> SortsBehindBackup(r)
  {
    var dir, name := r[..AfterSlash(r)], r[AfterSlash(r)..];
    Regroup(dir, "tmp_", name);
    assert r == dir + name;
    WalkLePrefix(dir, name, "tmp_" + name);
    NameHasNoSlash(name);
    WalksLater(name, "tmp_" + name);
  }

  lemma NameHasNoSlash(name: string)
    requires '/' !in name
    ensures '/' !in "tmp_" + name
  {
  }

  lemma Regroup(a: string, b: string, c: string)
    ensures a + b + c == a + (b + c)
  {
  }

  /** No other restorable backup is at or above r. */
  predicate IsOutermost(fs: FS, r: string)
  {
    r in Restorable(fs) && forall q :: q in Restorable(fs) && Under(q, r) ==> q == r
  }

  /** What a restart puts in place of r. */
  ghost function PutBack(fs: FS, r: string): FS
    requires r in fs.backups
  {
    if Exists(fs.live, r) && SortsBehindBackup(r) then Recovered(fs.backups[r]) else fs.backups[r]
  }

  /**
   * What a restart leaves at and below r when r's backup is the outermost: what
   * a recovery of the backup itself would leave if r is there beside its backup
   * and its name sorts behind the backup's, else the backup as it is, with the
   * backups inside it. So it goes on, from backup to backup inside.
   */
  lemma RestoredInside(fs: FS, root: Option<string>, r: string)
    requires Rooted(fs, root) && Inside(root, r) && IsOutermost(fs, r)
    ensures forall p :: Under(r, p) ==> FileIn(Recovered(fs).live.files, p) == FileIn(PutBack(fs, r).live.files, p)
    ensures forall p :: Under(r, p) ==> (p in Recovered(fs).live.dirs <==> p in PutBack(fs, r).live.dirs)
    ensures forall k :: Under(r, k) ==> Get(Recovered(fs).backups, k) == Get(PutBack(fs, r).backups, k)
  {
    var rs := Restorable(fs);
    NothingBelowNothing(fs, root, r);
    WalkedAfterBackupIff(r);
    assert Placed(fs, r) == PutBack(fs, r);
    CoverIs(rs, r, r);
    forall p | Under(r, p)
      ensures FileIn(Recovered(fs).live.files, p) == FileIn(PutBack(fs, r).live.files, p)
      ensures p in Recovered(fs).live.dirs <==> p in PutBack(fs, r).live.dirs
      ensures Get(Recovered(fs).backups, p) == Get(PutBack(fs, r).backups, p)
    {
      CoverBelow(rs, r, p);
      RecoveredFile(fs, p);
      RecoveredDir(fs, p);
      RecoveredBackup(fs, p);
    }
  }

  /** An outermost backup is gone after the restart, and its entry is as the backup has it. */
  lemma OutermostIsGone(fs: FS, root: Option<string>, r: string)
    requires WellPlaced(fs) && Rooted(fs, root) && Inside(root, r) && IsOutermost(fs, r)
    ensures Get(Recovered(fs).backups, r) == None
  {
    RestoredInside(fs, root, r);
    RecoveredInPlace(fs.backups[r]);
    assert Under(r, r) && !Below(r, r);
  }

  /**
   * The fate of a backup k inside an outermost backup r, itself outermost in
   * there: gone after the restart if and only if r is there beside its backup
   * and r's name sorts behind "tmp_" and itself; else it stays as it was.
   */
  lemma NestedBackupRestoredIff(fs: FS, root: Option<string>, r: string, k: string)
    requires WellPlaced(fs) && Rooted(fs, root) && Inside(root, r) && IsOutermost(fs, r) &&
             IsOutermost(fs.backups[r], k)
    ensures Get(Recovered(fs).backups, k) == None <==> Exists(fs.live, r) && SortsBehindBackup(r)
    ensures Get(Recovered(fs).backups, k) in {None, Some(fs.backups[r].backups[k])}
  {
    var b := fs.backups[r];
    assert InPlaceFS(b, r) && Below(r, k);
    RestoredInside(fs, root, r);
    OutermostIsGone(b, Some(r), k);
  }

  // ---------- recovery keeps every entry in its directory ----------

  lemma CoverAboveCovered(rs: set<string>, a: string, p: string)
    requires Below(a, p)
    ensures match Cover(rs, p)
            case None => Cover(rs, a) == None
            case Some(r) => if Under(r, a) then Cover(rs, a) == Some(r) else Below(a, r) && Cover(rs, a) == None
  {
    CoverAbove(rs, p);
    forall q | q in rs && Under(q, a) ensures Under(q, p) { UnderTransitive(q, a, p); }
    match Cover(rs, p) {
      case None => CoverNone(rs, a);
      case Some(r) =>
        if Under(r, a) {
          CoverIs(rs, a, r);
        } else {
          UnderOneOfTwo(r, a, p);
          forall q | q in rs ensures !Under(q, a)
          {
            if Under(q, a) { UnderTransitive(r, q, a); }
          }
          CoverNone(rs, a);
        }
    }
  }

  /** The directories above p, which recovery decides on with p or leaves alone, are there afterwards. */
  lemma ParentsAfter(fs: FS, root: Option<string>, p: string)
    requires Rooted(fs, root)
    requires forall r :: r in fs.backups ==> RootedTree(Placed(fs, r).live, Some(r))
    requires match Cover(Restorable(fs), p)
             case None => Parents(root, p) <= fs.live.dirs
             case Some(r) => r in fs.backups && Parents(Some(r), p) <= Placed(fs, r).live.dirs
    ensures Parents(root, p) <= Recovered(fs).live.dirs
  {
    var rs := Restorable(fs);
    CoverAbove(rs, p);
    forall a | a in Parents(root, p) ensures a in Recovered(fs).live.dirs
    {
      ParentIsAbove(root, a, p);
      CoverAboveCovered(rs, a, p);
      RecoveredDir(fs, a);
      if Cover(rs, p).Some? {
        var r := Cover(rs, p).value;
        if Under(r, a) { AboveIsParent(Some(r), a, p); } else { AboveIsParent(root, a, r); }
      }
    }
  }

  lemma {:induction false} RecoveredRooted(fs: FS, root: Option<string>)
    requires Rooted(fs, root)
    ensures Rooted(Recovered(fs), root)
  {
    var fs' := Recovered(fs);
    forall r | r in fs.backups ensures Rooted(Placed(fs, r), Some(r)) { RecoveredRooted(fs.backups[r], Some(r)); }
    forall p | p in fs'.live.files ensures Parents(root, p) <= fs'.live.dirs
    {
      RecoveredFile(fs, p);
      CoverAbove(Restorable(fs), p);
      ParentsAfter(fs, root, p);
    }
    forall p | p in fs'.live.dirs ensures Parents(root, p) <= fs'.live.dirs
    {
      RecoveredDir(fs, p);
      CoverAbove(Restorable(fs), p);
      ParentsAfter(fs, root, p);
    }
    forall k | k in fs'.backups ensures Parents(root, k) <= fs'.live.dirs && Rooted(fs'.backups[k], Some(k))
    {
      RecoveredBackup(fs, k);
      CoverAbove(Restorable(fs), k);
      ParentsAfter(fs, root, k);
    }
  }
}
