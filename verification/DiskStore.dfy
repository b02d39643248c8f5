/**
 * The disk store: object files under "/"-separated keys, each operation broken
 * into the file-system calls it makes, any number of operations in progress
 * under key locks, calls that fail, and a process that may die between any two
 * calls and is started again.
 */
module DiskStore {
  import opened Collections
  import opened Objects
  import opened DiskTree

  // ---------- operations in progress ----------

  datatype UpdatePhase = Checking | BackedUp | Writing | Written

  datatype ReplacePhase =
    | Preparing
    | Renaming
    | Clearing
    | Filling(todo: set<string>, open: Option<string>)
    | Removing

  /** An operation that holds the lock on a key; before is the key's subtree when it got the lock. */
  datatype Proc =
    | Creating(obj: Object, begun: bool, before: FS)
    | Updating(obj: Object, phase: UpdatePhase, before: FS)
    | Deleting(before: FS)
    | Replacing(contents: map<string, Object>, stage: ReplacePhase, before: FS)

  datatype Machine = Machine(fs: FS, procs: map<string, Proc>)

  datatype Op = Create(obj: Object) | Update(obj: Object) | Delete | Replace(contents: map<string, Object>)

  datatype Step =
    | Begin(key: string, op: Op)              // lockKey succeeds
    | Advance(key: string, choice: string)    // the holder of key makes its next file-system call
    | Remove(key: string, rest: Option<FS>)   // os.RemoveAll on key's backup gets on: what is left of it, or nothing
    | Fail(key: string)                       // a write inside ReplaceComponentList fails: restore the backup
    // a call fails and the operation ends, its backup left behind if it has one
    | Abort(key: string, cut: Option<Tree>)
    | Crash                                   // the process dies, is started again and recovers

  function Start(op: Op, before: FS): Proc
  {
    match op
    case Create(obj) => Creating(obj, false, before)
    case Update(obj) => Updating(obj, Checking, before)
    case Delete => Deleting(before)
    case Replace(contents) => Replacing(contents, Preparing, before)
  }

  /** lockKey waits while a held key equals this one, lies below it or above it. */
  predicate Lockable(m: Machine, key: string)
  {
    forall k :: k in m.procs ==> !Under(k, key) && !Under(key, k)
  }

  /** The operation has moved its key's subtree to the backup and not yet removed it. */
  predicate HoldsBackup(proc: Proc)
  {
    match proc
    case Updating(_, phase, _) => !phase.Checking?
    case Replacing(_, stage, _) => stage.Clearing? || stage.Filling? || stage.Removing?
    case _ => false
  }

  /** a is what is left of b after some of its entries were removed, each directory after what is in it. */
  predicate SubTree(a: Tree, b: Tree)
  {
    && (forall p :: p in a.files ==> p in b.files && a.files[p] == b.files[p] && Ancestors(p) * b.dirs <= a.dirs)
    && (forall d :: d in a.dirs ==> d in b.dirs && Ancestors(d) * b.dirs <= a.dirs)
  }

  predicate SubFS(a: FS, b: FS)
  {
    && SubTree(a.live, b.live)
    && (forall r :: r in a.backups ==>
          r in b.backups && Ancestors(r) * b.live.dirs <= a.live.dirs && SubFS(a.backups[r], b.backups[r]))
  }

  predicate Enabled(m: Machine, step: Step)
  {
    match step
    case Begin(key, op) =>
      && Lockable(m, key)
      && (op.Replace? ==> forall c :: c in op.contents ==> Below(key, c))
    case Advance(key, choice) =>
      && key in m.procs
      && (match m.procs[key]
          case Replacing(_, Renaming, _) => key !in m.fs.backups
          case Replacing(_, Filling(todo, None), _) => todo == {} || choice in todo
          case Replacing(_, Removing, _) => false
          case _ => true)
    case Remove(key, rest) =>
      // either the backup of a finished replacement or one that an earlier operation left in the way of the rename
      && key in m.procs && m.procs[key].Replacing? && key in m.fs.backups
      && (m.procs[key].stage.Renaming? || m.procs[key].stage.Removing?)
      && (match rest
          case Some(fs) => SubFS(fs, m.fs.backups[key])
          case None => m.fs.backups[key].live.files == map[] && m.fs.backups[key].backups == map[])
    case Fail(key) =>
      && key in m.procs && m.procs[key].Replacing? && key in m.fs.backups
      && (m.procs[key].stage.Clearing? || m.procs[key].stage.Filling?)
    case Abort(key, rest) =>
      // a replacement that cannot restore its backup may have removed part of what it had written
      && key in m.procs
      && (rest.Some? ==>
            && m.procs[key].Replacing? && (m.procs[key].stage.Clearing? || m.procs[key].stage.Filling?)
            && SubTree(rest.value, Region(m.fs.live, key)))
    case Crash => true
  }

  function Done(m: Machine, key: string, fs: FS): Machine
  {
    Machine(fs, m.procs - {key})
  }

  function Go(m: Machine, key: string, fs: FS, proc: Proc): Machine
  {
    Machine(fs, m.procs[key := proc])
  }

  /** The key's subtree becomes its backup; an older backup of a file is overwritten. */
  function Rename(fs: FS, key: string): FS
  {
    FS(Outside(fs.live, key), BackupsBeside(fs, key)[key := RegionFS(fs, key)])
  }

  function Unbacked(fs: FS, key: string): FS
  {
    fs.(backups := fs.backups - {key})
  }

  predicate FresherThan(fs: FS, key: string, obj: Object)
  {
    key in fs.live.files && fs.live.files[key].Whole? && fs.live.files[key].obj.version <= obj.version
  }

  function AdvanceUpdate(m: Machine, key: string): Machine
    requires key in m.procs && m.procs[key].Updating?
  {
    var proc, fs := m.procs[key], m.fs;
    match proc.phase
    case Checking =>
      // missing key, undecodable content and stale version all end here
      if !FresherThan(fs, key, proc.obj) then Done(m, key, fs)
      else Go(m, key, Rename(fs, key), proc.(phase := BackedUp))
    case BackedUp => Go(m, key, fs.(live := WriteFile(fs.live, key, Torn)), proc.(phase := Writing))
    case Writing => Go(m, key, fs.(live := WriteFile(fs.live, key, Whole(proc.obj))), proc.(phase := Written))
    case Written => Done(m, key, Unbacked(fs, key))
  }

  function AdvanceReplace(m: Machine, key: string, choice: string): Machine
    requires Enabled(m, Advance(key, choice)) && m.procs[key].Replacing?
  {
    var proc, fs := m.procs[key], m.fs;
    match proc.stage
    case Preparing =>
      if !Exists(fs.live, key) then
        var fs' := fs.(live := MakeDir(fs.live, key));
        if proc.contents == map[] then Done(m, key, fs') else Go(m, key, fs', proc.(stage := Renaming))
      else if key in fs.live.files then Done(m, key, fs)
      else Go(m, key, fs, proc.(stage := Renaming))
    case Renaming => Go(m, key, Rename(fs, key), proc.(stage := Clearing))
    case Clearing =>
      Go(m, key, fs.(live := MakeDir(fs.live, key)), proc.(stage := Filling(proc.contents.Keys, None)))
    case Filling(todo, Some(c)) =>
      if c !in proc.contents then m
      else Go(m, key, fs.(live := WriteFile(fs.live, c, Whole(proc.contents[c]))),
        proc.(stage := Filling(todo - {c}, None)))
    case Filling(todo, None) =>
      if todo == {} then Go(m, key, fs, proc.(stage := Removing))
      else Go(m, key, fs.(live := WriteFile(fs.live, choice, Torn)), proc.(stage := Filling(todo, Some(choice))))
    case Removing => m
  }

  function RemoveStep(m: Machine, key: string, rest: Option<FS>): Machine
    requires Enabled(m, Remove(key, rest))
  {
    match rest
    case Some(fs) => Go(m, key, m.fs.(backups := m.fs.backups[key := fs]), m.procs[key])
    case None =>
      var fs' := Unbacked(m.fs, key);
      if m.procs[key].stage.Removing? then Done(m, key, fs') else Go(m, key, fs', m.procs[key])
  }

  ghost function Next(m: Machine, step: Step): Machine
    requires Enabled(m, step)
  {
    match step
    case Begin(key, op) => Go(m, key, m.fs, Start(op, RegionFS(m.fs, key)))
    case Advance(key, choice) =>
      var proc, fs := m.procs[key], m.fs;
      (match proc
       case Creating(obj, begun, _) =>
         if begun then Done(m, key, fs.(live := WriteFile(fs.live, key, Whole(obj))))
         else if Exists(fs.live, key) then Done(m, key, fs)
         else Go(m, key, fs.(live := WriteFile(fs.live, key, Torn)), proc.(begun := true))
       case Updating(_, _, _) => AdvanceUpdate(m, key)
       case Deleting(_) => Done(m, key, fs.(live := Tree(fs.live.files - {key}, fs.live.dirs)))
       case Replacing(_, _, _) => AdvanceReplace(m, key, choice))
    case Remove(key, rest) => RemoveStep(m, key, rest)
    case Fail(key) => Done(m, key, Place(m.fs, key, m.fs.backups[key]))
    case Abort(key, rest) =>
      Done(m, key, if rest.Some? then m.fs.(live := Graft(m.fs.live, key, rest.value)) else m.fs)
    case Crash => Machine(Recovered(m.fs), map[])
  }

  ghost predicate ValidRun(m: Machine, steps: seq<Step>)
    decreases |steps|
  {
    steps == [] || (Enabled(m, steps[0]) && ValidRun(Next(m, steps[0]), steps[1..]))
  }

  ghost function Run(m: Machine, steps: seq<Step>): Machine
    requires ValidRun(m, steps)
    decreases |steps|
  {
    if steps == [] then m else Run(Next(m, steps[0]), steps[1..])
  }

  // ---------- what every step keeps ----------

  /** The live files below key are exactly those of the given map. */
  ghost predicate LiveIs(fs: FS, key: string, files: map<string, Blob>)
  {
    forall p :: Under(key, p) ==> FileIn(fs.live.files, p) == FileIn(files, p)
  }

  /** The backups left inside key's subtree are exactly those of the given map. */
  ghost predicate InsideIs(fs: FS, key: string, backups: map<string, FS>)
  {
    forall r :: Below(key, r) ==> Get(fs.backups, r) == Get(backups, r)
  }

  function FillingFile(contents: map<string, Object>, todo: set<string>, open: Option<string>, p: string): Option<Blob>
  {
    if p in contents && p !in todo then Some(Whole(contents[p]))
    else if open == Some(p) then Some(Torn)
    else None
  }

  ghost predicate BackupIs(fs: FS, key: string, before: FS)
  {
    && key in fs.backups && fs.backups[key].live.files == before.live.files && fs.backups[key].backups == before.backups
    && InsideIs(fs, key, map[])
  }

  /** How far the holder of key has got, read off the disk. */
  ghost predicate Phase(fs: FS, key: string, proc: Proc)
  {
    InPlaceFS(proc.before, key) &&
    match proc
    case Creating(_, begun, before) =>
      && LiveIs(fs, key, if begun then before.live.files[key := Torn] else before.live.files)
      && (if begun then !Exists(before.live, key) else key in fs.live.dirs <==> key in before.live.dirs)
    case Updating(obj, phase, before) =>
      if phase.Checking? then LiveIs(fs, key, before.live.files) && InsideIs(fs, key, before.backups)
      else
        && BackupIs(fs, key, before)
        && key in before.live.files && before.live.files[key].Whole? &&
           before.live.files[key].obj.version <= obj.version
        && LiveIs(fs, key, if phase.BackedUp? then map[] else map[key := if phase.Writing? then Torn else Whole(obj)])
    case Deleting(before) => LiveIs(fs, key, before.live.files)
    case Replacing(contents, stage, before) =>
      && (forall c :: c in contents ==> Below(key, c))
      && (!stage.Preparing? ==> key !in before.live.files)
      && match stage
         case Preparing =>
           && LiveIs(fs, key, before.live.files) && InsideIs(fs, key, before.backups)
           && (key in fs.live.dirs <==> key in before.live.dirs)
         case Renaming => LiveIs(fs, key, before.live.files) && InsideIs(fs, key, before.backups)
         case Clearing => BackupIs(fs, key, before) && LiveIs(fs, key, map[])
         case Filling(todo, open) =>
           && BackupIs(fs, key, before)
           && todo <= contents.Keys && (open.Some? ==> open.value in todo)
           && key in fs.live.dirs
           && (forall p :: Under(key, p) ==> FileIn(fs.live.files, p) == FillingFile(contents, todo, open, p))
         case Removing =>
           && key in fs.backups && SubTree(Tree(fs.backups[key].live.files, {}), Tree(before.live.files, {}))
           && fs.backups[key].backups.Keys <= before.backups.Keys && InsideIs(fs, key, map[])
           && key in fs.live.dirs
           && (forall p :: Under(key, p) ==> FileIn(fs.live.files, p) == FillingFile(contents, {}, None, p))
  }

  /** Backups that no operation holds are allowed for: they are what failed operations and skipped restores leave. */
  ghost predicate Inv(m: Machine)
  {
    && WellPlaced(m.fs) && Incomparable(m.procs.Keys)
    && (forall k :: k in m.procs ==> Phase(m.fs, k, m.procs[k]))
  }

  /** b looks like a to the holder of k. */
  ghost predicate Agree(a: FS, b: FS, k: string)
  {
    && (forall p :: Under(k, p) ==> FileIn(a.live.files, p) == FileIn(b.live.files, p))
    && (forall r :: Under(k, r) ==> Get(a.backups, r) == Get(b.backups, r))
    && (k in a.live.dirs <==> k in b.live.dirs)
  }

  lemma AgreeKeepsPhase(a: FS, b: FS, k: string, proc: Proc)
    requires Agree(a, b, k) && Phase(a, k, proc)
    ensures Phase(b, k, proc)
  {
    assert Get(a.backups, k) == Get(b.backups, k);
    assert k in a.backups <==> k in b.backups;
    assert k in a.backups ==> a.backups[k] == b.backups[k];
  }

  /** A step by the holder of key touches nothing outside key's subtree but missing parent directories. */
  ghost predicate Confined(a: FS, b: FS, key: string)
  {
    && (forall p :: !Under(key, p) ==> FileIn(a.live.files, p) == FileIn(b.live.files, p))
    && (forall p :: !Under(key, p) && p in a.live.dirs ==> p in b.live.dirs)
    && (forall p :: !Under(key, p) && !Under(p, key) && p in b.live.dirs ==> p in a.live.dirs)
    && (forall r :: !Under(key, r) ==> Get(a.backups, r) == Get(b.backups, r))
  }

  lemma ConfinedAgrees(a: FS, b: FS, key: string, k: string)
    requires Confined(a, b, key) && !Under(k, key) && !Under(key, k)
    ensures Agree(a, b, k)
  {
    forall p | Under(k, p) ensures !Under(key, p)
    {
      if Under(key, p) { UnderOneOfTwo(k, key, p); }
    }
  }

  lemma WriteConfined(fs: FS, key: string, p: string, blob: Blob)
    requires Under(key, p)
    ensures Confined(fs, fs.(live := WriteFile(fs.live, p, blob)), key)
  {
    forall d | d in Ancestors(p) ensures Under(key, d) || Under(d, key)
    {
      AncestorIsAbove(d, p);
      UnderOneOfTwo(key, d, p);
    }
  }

  lemma MakeDirConfined(fs: FS, key: string)
    ensures Confined(fs, fs.(live := MakeDir(fs.live, key)), key)
  {
    forall d | d in Ancestors(key) ensures Under(d, key) { AncestorIsAbove(d, key); }
  }

  lemma RenameConfined(fs: FS, key: string)
    ensures Confined(fs, Rename(fs, key), key)
  {
  }

  lemma PlaceConfined(fs: FS, key: string, sub: FS)
    requires InPlaceFS(sub, key)
    ensures Confined(fs, Place(fs, key, sub), key)
  {
    PlaceAt(fs, key, sub);
  }

  lemma UnbackedConfined(fs: FS, key: string)
    ensures Confined(fs, Unbacked(fs, key), key)
  {
  }

  lemma UpdateConfined(m: Machine, key: string)
    requires key in m.procs && m.procs[key].Updating?
    ensures Confined(m.fs, AdvanceUpdate(m, key).fs, key)
  {
    match m.procs[key].phase {
      case Checking => RenameConfined(m.fs, key);
      case BackedUp => WriteConfined(m.fs, key, key, Torn);
      case Writing => WriteConfined(m.fs, key, key, Whole(m.procs[key].obj));
      case Written => UnbackedConfined(m.fs, key);
    }
  }

  lemma ReplaceConfined(m: Machine, key: string, choice: string)
    requires Inv(m) && Enabled(m, Advance(key, choice)) && m.procs[key].Replacing?
    ensures Confined(m.fs, AdvanceReplace(m, key, choice).fs, key)
  {
    var proc := m.procs[key];
    assert Phase(m.fs, key, proc);
    match proc.stage {
      case Preparing => MakeDirConfined(m.fs, key);
      case Renaming => RenameConfined(m.fs, key);
      case Clearing => MakeDirConfined(m.fs, key);
      case Filling(todo, Some(c)) => WriteConfined(m.fs, key, c, Whole(proc.contents[c]));
      case Filling(todo, None) => if todo != {} { WriteConfined(m.fs, key, choice, Torn); }
    }
  }

  lemma AdvanceConfined(m: Machine, key: string, choice: string)
    requires Inv(m) && Enabled(m, Advance(key, choice))
    ensures Confined(m.fs, Next(m, Advance(key, choice)).fs, key)
  {
    match m.procs[key] {
      case Creating(obj, _, _) =>
        WriteConfined(m.fs, key, key, Torn);
        WriteConfined(m.fs, key, key, Whole(obj));
      case Updating(_, _, _) => UpdateConfined(m, key);
      case Deleting(_) =>
      case Replacing(_, _, _) => ReplaceConfined(m, key, choice);
    }
  }

  /** After its own step the holder of key is in the phase it moved to, or done. */
  ghost predicate Landed(m': Machine, key: string)
  {
    key in m'.procs ==> Phase(m'.fs, key, m'.procs[key])
  }

  lemma CreateLands(m: Machine, key: string, choice: string)
    requires Inv(m) && Enabled(m, Advance(key, choice)) && m.procs[key].Creating?
    ensures Landed(Next(m, Advance(key, choice)), key)
  {
    assert Phase(m.fs, key, m.procs[key]);
    var m' := Next(m, Advance(key, choice));
    if key in m'.procs {
      assert FileIn(m.fs.live.files, key) == FileIn(m.procs[key].before.live.files, key);
    }
  }

  lemma RenameMoves(fs: FS, key: string, before: FS)
    requires LiveIs(fs, key, before.live.files) && InsideIs(fs, key, before.backups) && InPlaceFS(before, key)
    ensures LiveIs(Rename(fs, key), key, map[]) && BackupIs(Rename(fs, key), key, before)
  {
    var region := RegionFS(fs, key);
    forall p ensures FileIn(region.live.files, p) == FileIn(before.live.files, p)
    {
      if Under(key, p) { assert FileIn(fs.live.files, p) == FileIn(before.live.files, p); }
    }
    SameEntriesSameTree(Tree(region.live.files, {}), Tree(before.live.files, {}));
    forall r ensures Get(region.backups, r) == Get(before.backups, r)
    {
      if Below(key, r) { assert Get(fs.backups, r) == Get(before.backups, r); }
    }
    SameLookupsSameBackups(region.backups, before.backups);
  }

  lemma UpdateLands(m: Machine, key: string)
    requires Inv(m) && key in m.procs && m.procs[key].Updating?
    ensures Landed(AdvanceUpdate(m, key), key)
  {
    var proc := m.procs[key];
    assert Phase(m.fs, key, proc);
    match proc.phase {
      case Checking =>
        if FresherThan(m.fs, key, proc.obj) {
          assert FileIn(m.fs.live.files, key) == FileIn(proc.before.live.files, key);
          RenameMoves(m.fs, key, proc.before);
        }
      case _ =>
    }
  }

  lemma FillLands(m: Machine, key: string, choice: string)
    requires Inv(m) && Enabled(m, Advance(key, choice)) && m.procs[key].Replacing? && m.procs[key].stage.Filling?
    ensures Landed(AdvanceReplace(m, key, choice), key)
  {
    var proc := m.procs[key];
    assert Phase(m.fs, key, proc);
    var m' := AdvanceReplace(m, key, choice);
    var todo, open := proc.stage.todo, proc.stage.open;
    var todo' := if open.Some? then todo - {open.value} else todo;
    var open' := if open.Some? || todo == {} then None else Some(choice);
    assert m'.fs.backups == m.fs.backups;
    forall p | Under(key, p)
      ensures FileIn(m'.fs.live.files, p) == FillingFile(proc.contents, todo', open', p)
    {
      assert FileIn(m.fs.live.files, p) == FillingFile(proc.contents, todo, open, p);
    }
  }

  lemma ReplaceLands(m: Machine, key: string, choice: string)
    requires Inv(m) && Enabled(m, Advance(key, choice)) && m.procs[key].Replacing?
    ensures Landed(AdvanceReplace(m, key, choice), key)
  {
    var proc := m.procs[key];
    assert Phase(m.fs, key, proc);
    match proc.stage {
      case Preparing => assert LiveIs(AdvanceReplace(m, key, choice).fs, key, proc.before.live.files);
      case Renaming => RenameMoves(m.fs, key, proc.before);
      case Clearing => ClearLands(m, key, choice);
      case Filling(_, _) => FillLands(m, key, choice);
    }
  }

  lemma ClearLands(m: Machine, key: string, choice: string)
    requires Inv(m) && Enabled(m, Advance(key, choice)) && m.procs[key].Replacing? && m.procs[key].stage.Clearing?
    ensures Landed(AdvanceReplace(m, key, choice), key)
  {
    var proc := m.procs[key];
    assert Phase(m.fs, key, proc);
    var m' := AdvanceReplace(m, key, choice);
    forall p | Under(key, p)
      ensures FileIn(m'.fs.live.files, p) == FillingFile(proc.contents, proc.contents.Keys, None, p)
    {
      assert FileIn(m.fs.live.files, p) == None;
    }
  }

  lemma RemoveLands(m: Machine, key: string, rest: Option<FS>)
    requires Inv(m) && Enabled(m, Remove(key, rest))
    ensures Landed(RemoveStep(m, key, rest), key)
  {
    assert Phase(m.fs, key, m.procs[key]);
    var m' := RemoveStep(m, key, rest);
    forall r | Below(key, r) ensures Get(m'.fs.backups, r) == Get(m.fs.backups, r) {}
  }

  lemma AdvanceLands(m: Machine, key: string, choice: string)
    requires Inv(m) && Enabled(m, Advance(key, choice))
    ensures Landed(Next(m, Advance(key, choice)), key)
  {
    match m.procs[key] {
      case Creating(_, _, _) => CreateLands(m, key, choice);
      case Updating(_, _, _) => UpdateLands(m, key);
      case Deleting(_) =>
      case Replacing(_, _, _) => ReplaceLands(m, key, choice);
    }
  }

  lemma {:induction false} SubFSWellPlaced(a: FS, b: FS)
    requires SubFS(a, b) && WellPlaced(b)
    ensures WellPlaced(a) && forall r :: InPlaceFS(b, r) ==> InPlaceFS(a, r)
  {
    forall r | r in a.backups ensures InPlaceFS(a.backups[r], r) && WellPlaced(a.backups[r])
    {
      SubFSWellPlaced(a.backups[r], b.backups[r]);
    }
  }

  lemma PlaceWellPlaced(fs: FS, key: string, sub: FS)
    requires WellPlaced(fs) && WellPlaced(sub)
    ensures WellPlaced(Place(fs, key, sub))
  {
  }

  lemma RenameWellPlaced(fs: FS, key: string)
    requires WellPlaced(fs)
    ensures WellPlaced(Rename(fs, key))
  {
    assert WellPlaced(RegionFS(fs, key));
  }

  lemma AdvanceWellPlaced(m: Machine, key: string, choice: string)
    requires WellPlaced(m.fs) && Enabled(m, Advance(key, choice))
    ensures WellPlaced(Next(m, Advance(key, choice)).fs)
  {
    RenameWellPlaced(m.fs, key);
    assert WellPlaced(Unbacked(m.fs, key));
  }

  /** A step by the holder of key that leaves the other operations to themselves. */
  ghost predicate ByHolder(m: Machine, m': Machine, key: string)
  {
    && key in m.procs && Confined(m.fs, m'.fs, key) && Landed(m', key) && WellPlaced(m'.fs)
    && m'.procs.Keys <= m.procs.Keys
    && (forall k :: k in m.procs && k != key ==> k in m'.procs && m'.procs[k] == m.procs[k])
  }

  lemma HolderKeepsInv(m: Machine, m': Machine, key: string)
    requires Inv(m) && ByHolder(m, m', key)
    ensures Inv(m')
  {
    forall k | k in m'.procs ensures Phase(m'.fs, k, m'.procs[k])
    {
      assert k in m.procs.Keys;
      if k != key {
        assert !Under(k, key) && !Under(key, k);
        ConfinedAgrees(m.fs, m'.fs, key, k);
        AgreeKeepsPhase(m.fs, m'.fs, k, m.procs[k]);
      }
    }
  }

  lemma AdvanceByHolder(m: Machine, key: string, choice: string)
    requires Inv(m) && Enabled(m, Advance(key, choice))
    ensures ByHolder(m, Next(m, Advance(key, choice)), key)
  {
    AdvanceConfined(m, key, choice);
    AdvanceLands(m, key, choice);
    AdvanceWellPlaced(m, key, choice);
    AdvanceTouchesOneProc(m, key, choice);
  }

  lemma AdvanceTouchesOneProc(m: Machine, key: string, choice: string)
    requires Enabled(m, Advance(key, choice))
    ensures var m' := Next(m, Advance(key, choice));
            && m'.procs.Keys <= m.procs.Keys
            && (forall k :: k in m.procs && k != key ==> k in m'.procs && m'.procs[k] == m.procs[k])
  {
  }

  lemma RemoveByHolder(m: Machine, key: string, rest: Option<FS>)
    requires Inv(m) && Enabled(m, Remove(key, rest))
    ensures ByHolder(m, Next(m, Remove(key, rest)), key)
  {
    RemoveLands(m, key, rest);
    UnbackedConfined(m.fs, key);
    if rest.Some? { SubFSWellPlaced(rest.value, m.fs.backups[key]); }
  }

  lemma FailByHolder(m: Machine, key: string)
    requires Inv(m) && Enabled(m, Fail(key))
    ensures ByHolder(m, Next(m, Fail(key)), key)
  {
    PlaceConfined(m.fs, key, m.fs.backups[key]);
    PlaceWellPlaced(m.fs, key, m.fs.backups[key]);
  }

  lemma AbortByHolder(m: Machine, key: string, rest: Option<Tree>)
    requires Inv(m) && Enabled(m, Abort(key, rest))
    ensures ByHolder(m, Next(m, Abort(key, rest)), key)
  {
  }

  lemma BeginKeepsInv(m: Machine, key: string, op: Op)
    requires Inv(m) && Enabled(m, Begin(key, op))
    ensures Inv(Next(m, Begin(key, op)))
  {
    var m' := Next(m, Begin(key, op));
    forall k | k in m'.procs ensures Phase(m'.fs, k, m'.procs[k])
    {
      if k == key {
        assert LiveIs(m.fs, key, Region(m.fs.live, key).files);
        assert InsideIs(m.fs, key, RegionFS(m.fs, key).backups);
      } else {
        assert Phase(m.fs, k, m.procs[k]);
      }
    }
  }

  /** What the disk looks like to each operation in progress is kept by every step of every other. */
  lemma InvStep(m: Machine, step: Step)
    requires Inv(m) && Enabled(m, step)
    ensures Inv(Next(m, step))
  {
    match step {
      case Begin(key, op) => BeginKeepsInv(m, key, op);
      case Advance(key, choice) => AdvanceByHolder(m, key, choice); HolderKeepsInv(m, Next(m, step), key);
      case Remove(key, rest) => RemoveByHolder(m, key, rest); HolderKeepsInv(m, Next(m, step), key);
      case Fail(key) => FailByHolder(m, key); HolderKeepsInv(m, Next(m, step), key);
      case Abort(key, rest) => AbortByHolder(m, key, rest); HolderKeepsInv(m, Next(m, step), key);
      case Crash => RecoveredInPlace(m.fs);
    }
  }

  lemma {:induction false} InvRun(m: Machine, steps: seq<Step>)
    requires Inv(m) && ValidRun(m, steps)
    ensures Inv(Run(m, steps))
    decreases |steps|
  {
    if steps != [] {
      InvStep(m, steps[0]);
      InvRun(Next(m, steps[0]), steps[1..]);
    }
  }

  // ---------- backups that nobody holds ----------

  /** A backup left behind: whoever made it is gone. */
  predicate Stale(m: Machine, r: string)
  {
    r in m.fs.backups && !(r in m.procs && HoldsBackup(m.procs[r]))
  }

  /** Nothing left behind, by itself or inside a backup in use, lies above p. */
  ghost predicate NoStale(m: Machine, p: string)
  {
    forall r :: r in m.fs.backups && Under(r, p) ==>
      !Stale(m, r) && forall k :: k in m.fs.backups[r].backups ==> !Under(k, p)
  }

  /** The steps that leave a backup behind above p: a holder of one that fails, and a crash whose recovery skips one. */
  predicate Spoils(m: Machine, step: Step, p: string)
    requires Enabled(m, step)
  {
    match step
    case Abort(key, _) => Under(key, p) && HoldsBackup(m.procs[key])
    case Crash => exists r :: r in m.fs.backups && Under(r, p) && Skipped(m.fs, r)
    case _ => false
  }

  lemma HeldIsThere(m: Machine, key: string)
    requires Inv(m) && key in m.procs && HoldsBackup(m.procs[key])
    ensures key in m.fs.backups
  {
    assert Phase(m.fs, key, m.procs[key]);
  }

  /** Where nothing is left behind, the only backup above p is that of the one operation in progress above p. */
  lemma OnlyHeldAbove(m: Machine, key: string, p: string, r: string)
    requires Inv(m) && NoStale(m, p) && key in m.procs && Under(key, p) && r in m.fs.backups && Under(r, p)
    ensures r == key && HoldsBackup(m.procs[key])
  {
    UnderOneOfTwo(r, key, p);
    assert r in m.procs.Keys && key in m.procs.Keys;
  }

  /** A step confined to key leaves everything above p alone when key is not above p. */
  lemma ConfinedAbove(a: FS, b: FS, key: string, p: string, r: string)
    requires Confined(a, b, key) && !Under(key, p) && Under(r, p)
    ensures Get(a.backups, r) == Get(b.backups, r)
  {
    if Under(key, r) { UnderTransitive(key, r, p); }
  }

  lemma HolderNoStaleOutside(m: Machine, m': Machine, key: string, p: string)
    requires Inv(m) && ByHolder(m, m', key) && NoStale(m, p) && !Under(key, p)
    ensures NoStale(m', p)
  {
    forall r | r in m'.fs.backups && Under(r, p)
      ensures !Stale(m', r) && forall k :: k in m'.fs.backups[r].backups ==> !Under(k, p)
    {
      ConfinedAbove(m.fs, m'.fs, key, p, r);
      assert Get(m.fs.backups, r) == Some(m'.fs.backups[r]);
      assert r != key;
    }
  }

  /** What the holder of key leaves above a path below key: nothing, or its own backup. */
  ghost predicate OwnBackupOnly(m': Machine, key: string, p: string)
  {
    forall r :: r in m'.fs.backups && Under(key, r) && Under(r, p) ==>
      r == key && !Stale(m', key) && forall k :: k in m'.fs.backups[key].backups ==> !Under(k, p)
  }

  lemma HolderNoStaleInside(m: Machine, m': Machine, key: string, p: string)
    requires Inv(m) && ByHolder(m, m', key) && NoStale(m, p) && Under(key, p) && OwnBackupOnly(m', key, p)
    ensures NoStale(m', p)
  {
    forall r | r in m'.fs.backups && Under(r, p)
      ensures !Stale(m', r) && forall k :: k in m'.fs.backups[r].backups ==> !Under(k, p)
    {
      if !Under(key, r) {
        assert Get(m.fs.backups, r) == Get(m'.fs.backups, r);
        OnlyHeldAbove(m, key, p, r);
      }
    }
  }

  lemma RenameOwnBackup(m: Machine, m': Machine, key: string, p: string)
    requires Inv(m) && NoStale(m, p) && key in m.procs && Under(key, p)
    requires m'.fs == Rename(m.fs, key) && key in m'.procs && HoldsBackup(m'.procs[key])
    ensures OwnBackupOnly(m', key, p)
  {
    forall k | k in m'.fs.backups[key].backups ensures !Under(k, p)
    {
      assert k in m.fs.backups && Below(key, k);
      if Under(k, p) { OnlyHeldAbove(m, key, p, k); }
    }
  }

  lemma SameOwnBackup(m: Machine, m': Machine, key: string, p: string)
    requires Inv(m) && NoStale(m, p) && key in m.procs && Under(key, p)
    requires m'.fs.backups == m.fs.backups || m'.fs.backups == m.fs.backups - {key}
    requires key in m'.fs.backups && HoldsBackup(m.procs[key]) ==> key in m'.procs && HoldsBackup(m'.procs[key])
    ensures OwnBackupOnly(m', key, p)
  {
    forall r | r in m'.fs.backups && Under(r, p) ensures r == key && HoldsBackup(m.procs[key])
    {
      OnlyHeldAbove(m, key, p, r);
    }
  }

  lemma AdvanceOwnBackup(m: Machine, key: string, choice: string, p: string)
    requires Inv(m) && Enabled(m, Advance(key, choice)) && NoStale(m, p) && Under(key, p)
    ensures OwnBackupOnly(Next(m, Advance(key, choice)), key, p)
  {
    var m', proc := Next(m, Advance(key, choice)), m.procs[key];
    assert Phase(m.fs, key, proc);
    if (proc.Updating? && proc.phase.Checking? && FresherThan(m.fs, key, proc.obj)) ||
      (proc.Replacing? && proc.stage.Renaming?) {
      RenameOwnBackup(m, m', key, p);
    } else {
      SameOwnBackup(m, m', key, p);
    }
  }

  lemma RemoveOwnBackup(m: Machine, key: string, rest: Option<FS>, p: string)
    requires Inv(m) && Enabled(m, Remove(key, rest)) && NoStale(m, p) && Under(key, p)
    ensures OwnBackupOnly(Next(m, Remove(key, rest)), key, p)
  {
    forall r | r in m.fs.backups && Under(r, p) ensures r == key { OnlyHeldAbove(m, key, p, r); }
    OnlyHeldAbove(m, key, p, key);
  }

  lemma FailOwnBackup(m: Machine, key: string, p: string)
    requires Inv(m) && Enabled(m, Fail(key)) && NoStale(m, p) && Under(key, p)
    ensures OwnBackupOnly(Next(m, Fail(key)), key, p)
  {
    PlaceAt(m.fs, key, m.fs.backups[key]);
    forall r | r in Next(m, Fail(key)).fs.backups && Under(key, r) ensures r in m.fs.backups[key].backups
    {
      assert Get(Next(m, Fail(key)).fs.backups, r) == Get(m.fs.backups[key].backups, r);
    }
  }

  lemma AbortNoStaleIff(m: Machine, key: string, cut: Option<Tree>, p: string)
    requires Inv(m) && Enabled(m, Abort(key, cut)) && NoStale(m, p)
    ensures NoStale(Next(m, Abort(key, cut)), p) <==> !Spoils(m, Abort(key, cut), p)
  {
    var m' := Next(m, Abort(key, cut));
    AbortByHolder(m, key, cut);
    assert m'.fs.backups == m.fs.backups;
    if !Under(key, p) {
      HolderNoStaleOutside(m, m', key, p);
    } else if HoldsBackup(m.procs[key]) {
      HeldIsThere(m, key);
      assert Stale(m', key);
    } else {
      forall r | r in m.fs.backups && Under(r, p) ensures false { OnlyHeldAbove(m, key, p, r); }
    }
  }

  lemma CoveredLeavesNone(m: Machine, r: string, k: string, p: string)
    requires NoStale(m, p) && r in m.fs.backups && Under(r, k) && Under(k, p)
    ensures Get(Placed(m.fs, r).backups, k) == None
  {
    UnderTransitive(r, k, p);
    forall q | q in m.fs.backups[r].backups ensures !Under(q, k)
    {
      if Under(q, k) { UnderTransitive(q, k, p); }
    }
    PlacedFile(m.fs, r, k);
  }

  lemma CrashLeavesNone(m: Machine, k: string, p: string)
    requires NoStale(m, p) && !Spoils(m, Crash, p) && Under(k, p)
    ensures k !in Recovered(m.fs).backups
  {
    RecoveredBackup(m.fs, k);
    CoverAbove(Restorable(m.fs), k);
    match Cover(Restorable(m.fs), k) {
      case Some(r) => CoveredLeavesNone(m, r, k, p);
      case None => assert k in m.fs.backups ==> k in Restorable(m.fs);
    }
  }

  lemma CrashNoStaleIff(m: Machine, p: string)
    requires Inv(m) && NoStale(m, p)
    ensures NoStale(Next(m, Crash), p) <==> !Spoils(m, Crash, p)
  {
    var m' := Next(m, Crash);
    if r :| r in m.fs.backups && Under(r, p) && Skipped(m.fs, r) {
      SkippedStaysAt(m, r, p);
      assert Stale(m', r);
    } else {
      forall k | k in m'.fs.backups ensures !Under(k, p)
      {
        if Under(k, p) { CrashLeavesNone(m, k, p); }
      }
    }
  }

  lemma SkippedStaysAt(m: Machine, r: string, p: string)
    requires Inv(m) && NoStale(m, p) && r in m.fs.backups && Under(r, p) && Skipped(m.fs, r)
    ensures r in Recovered(m.fs).backups
  {
    forall q | q in Restorable(m.fs) ensures !Under(q, r)
    {
      if Under(q, r) {
        UnderTransitive(q, r, p);
        OnlyHeldAbove(m, r, p, q);
      }
    }
    CoverNone(Restorable(m.fs), r);
    RecoveredBackup(m.fs, r);
  }

  /** Where nothing was left behind, nothing is after the step, exactly unless the step is one of those two. */
  lemma NoStaleStepIff(m: Machine, step: Step, p: string)
    requires Inv(m) && Enabled(m, step) && NoStale(m, p)
    ensures NoStale(Next(m, step), p) <==> !Spoils(m, step, p)
  {
    match step {
      case Begin(_, _) =>
      case Advance(key, choice) =>
        AdvanceByHolder(m, key, choice);
        if Under(key, p) {
          AdvanceOwnBackup(m, key, choice, p);
          HolderNoStaleInside(m, Next(m, step), key, p);
        } else {
          HolderNoStaleOutside(m, Next(m, step), key, p);
        }
      case Remove(key, rest) =>
        RemoveByHolder(m, key, rest);
        if Under(key, p) {
          RemoveOwnBackup(m, key, rest, p);
          HolderNoStaleInside(m, Next(m, step), key, p);
        } else {
          HolderNoStaleOutside(m, Next(m, step), key, p);
        }
      case Fail(key) =>
        FailByHolder(m, key);
        if Under(key, p) {
          FailOwnBackup(m, key, p);
          HolderNoStaleInside(m, Next(m, step), key, p);
        } else {
          HolderNoStaleOutside(m, Next(m, step), key, p);
        }
      case Abort(key, cut) => AbortNoStaleIff(m, key, cut, p);
      case Crash => CrashNoStaleIff(m, p);
    }
  }

  // ---------- refinement: what the store stands for ----------

  /** What a path stands for: the backup above it, if an operation has put one there, else what is live. */
  ghost function Backed(fs: FS, p: string): Option<Blob>
  {
    match Cover(fs.backups.Keys, p)
    case None => FileIn(fs.live.files, p)
    case Some(r) => if r in fs.backups then FileIn(fs.backups[r].live.files, p) else None
  }

  /**
   * The same, one step later. Everything the operations do is invisible except:
   * a create (twice: the cut-short file, then the whole one), the end of an
   * update, a delete, and the removal of a replaced list's backup, which takes
   * the old files away bit by bit and shows the new list only with its last
   * call. A crash and a failed call show nothing.
   */
  ghost function Promised(m: Machine, step: Step, p: string): Option<Blob>
    requires Enabled(m, step)
  {
    match step
    case Advance(key, _) =>
      if !Under(key, p) then Backed(m.fs, p)
      else (
        match m.procs[key]
        case Creating(obj, begun, _) =>
          if p != key then Backed(m.fs, p)
          else if begun then Some(Whole(obj))
          else if Exists(m.fs.live, p) then Backed(m.fs, p)
          else Some(Torn)
        case Updating(obj, phase, _) =>
          if !phase.Written? then Backed(m.fs, p) else if p == key then Some(Whole(obj)) else None
        case Deleting(_) => if p == key then None else Backed(m.fs, p)
        case Replacing(_, _, _) => Backed(m.fs, p))
    case Remove(key, rest) =>
      if !Under(key, p) then Backed(m.fs, p)
      else if rest.Some? then (if p in rest.value.live.files then Backed(m.fs, p) else None)
      else if p in m.procs[key].contents then Some(Whole(m.procs[key].contents[p])) else None
    case _ => Backed(m.fs, p)
  }

  /** Below a held key, the key's own backup decides, else what is live. */
  ghost predicate ShownAt(fs: FS, key: string, p: string)
  {
    Backed(fs, p) == FileIn(if key in fs.backups then fs.backups[key].live.files else fs.live.files, p)
  }

  lemma BackedAtHeldKey(m: Machine, key: string, p: string)
    requires Inv(m) && NoStale(m, p) && key in m.procs && Under(key, p)
    ensures ShownAt(m.fs, key, p) && (key in m.fs.backups ==> HoldsBackup(m.procs[key]))
  {
    forall r | r in m.fs.backups.Keys && Under(r, p) ensures r == key { OnlyHeldAbove(m, key, p, r); }
    if key in m.fs.backups {
      CoverIs(m.fs.backups.Keys, p, key);
      OnlyHeldAbove(m, key, p, key);
    } else {
      CoverNone(m.fs.backups.Keys, p);
    }
  }

  /** Away from every operation in progress, a path stands for what is live. */
  lemma BackedUnlocked(m: Machine, p: string)
    requires NoStale(m, p) && forall k :: k in m.procs ==> !Under(k, p)
    ensures Backed(m.fs, p) == FileIn(m.fs.live.files, p) && RecFile(m.fs, p) == FileIn(m.fs.live.files, p)
  {
    forall r | r in m.fs.backups.Keys ensures !Under(r, p) {}
    CoverNone(m.fs.backups.Keys, p);
    UncoveredStays(m.fs, p);
  }

  lemma BackedWhenDone(m: Machine, m': Machine, key: string, p: string)
    requires Inv(m) && ByHolder(m, m', key) && NoStale(m', p) && key !in m'.procs && Under(key, p)
    ensures Backed(m'.fs, p) == FileIn(m'.fs.live.files, p)
  {
    forall k | k in m'.procs ensures !Under(k, p)
    {
      assert k in m.procs.Keys && key in m.procs.Keys;
      if Under(k, p) { UnderOneOfTwo(k, key, p); }
    }
    BackedUnlocked(m', p);
  }

  lemma CoverSame(a: set<string>, b: set<string>, p: string)
    requires forall q :: Under(q, p) ==> (q in a <==> q in b)
    ensures Cover(a, p) == Cover(b, p)
  {
    CoverAbove(a, p);
    if Cover(a, p).Some? { CoverIs(b, p, Cover(a, p).value); } else { CoverNone(b, p); }
  }

  lemma BackedOutside(a: FS, b: FS, key: string, p: string)
    requires Confined(a, b, key) && !Under(key, p)
    ensures Backed(a, p) == Backed(b, p)
  {
    forall q | Under(q, p) ensures Get(a.backups, q) == Get(b.backups, q) { ConfinedAbove(a, b, key, p, q); }
    forall q | Under(q, p) ensures q in a.backups.Keys <==> q in b.backups.Keys
    {
      assert Get(a.backups, q) == Get(b.backups, q);
    }
    CoverSame(a.backups.Keys, b.backups.Keys, p);
    CoverAbove(a.backups.Keys, p);
    if Cover(a.backups.Keys, p).Some? {
      var r := Cover(a.backups.Keys, p).value;
      assert Get(a.backups, r) == Get(b.backups, r);
    }
  }

  /** What the disk after the holder's step says about a path below key. */
  lemma ShownAfter(m: Machine, m': Machine, key: string, p: string)
    requires Inv(m) && ByHolder(m, m', key) && NoStale(m', p) && Under(key, p)
    ensures if key in m'.procs then ShownAt(m'.fs, key, p) else Backed(m'.fs, p) == FileIn(m'.fs.live.files, p)
  {
    HolderKeepsInv(m, m', key);
    if key in m'.procs { BackedAtHeldKey(m', key, p); } else { BackedWhenDone(m, m', key, p); }
  }

  lemma UpdateRefines(m: Machine, key: string, choice: string, p: string)
    requires Inv(m) && key in m.procs && m.procs[key].Updating? && Under(key, p) && ShownAt(m.fs, key, p)
    requires key in m.fs.backups ==> HoldsBackup(m.procs[key])
    requires var m' := AdvanceUpdate(m, key);
             if key in m'.procs then ShownAt(m'.fs, key, p) else Backed(m'.fs, p) == FileIn(m'.fs.live.files, p)
    ensures Backed(AdvanceUpdate(m, key).fs, p) == Promised(m, Advance(key, choice), p)
  {
    assert Phase(m.fs, key, m.procs[key]);
  }

  lemma ReplaceRefines(m: Machine, key: string, choice: string, p: string)
    requires Inv(m) && Enabled(m, Advance(key, choice)) && m.procs[key].Replacing? && Under(key, p) &&
             ShownAt(m.fs, key, p)
    requires key in m.fs.backups ==> HoldsBackup(m.procs[key])
    requires var m' := AdvanceReplace(m, key, choice);
             if key in m'.procs then ShownAt(m'.fs, key, p) else Backed(m'.fs, p) == FileIn(m'.fs.live.files, p)
    ensures Backed(AdvanceReplace(m, key, choice).fs, p) == Backed(m.fs, p)
  {
    assert Phase(m.fs, key, m.procs[key]);
  }

  lemma AdvanceRefines(m: Machine, key: string, choice: string, p: string)
    requires Inv(m) && Enabled(m, Advance(key, choice)) && NoStale(m, p) && Under(key, p)
    ensures Backed(Next(m, Advance(key, choice)).fs, p) == Promised(m, Advance(key, choice), p)
  {
    var m' := Next(m, Advance(key, choice));
    NoStaleStepIff(m, Advance(key, choice), p);
    AdvanceByHolder(m, key, choice);
    BackedAtHeldKey(m, key, p);
    ShownAfter(m, m', key, p);
    match m.procs[key] {
      case Creating(_, _, _) =>
      case Updating(_, _, _) => UpdateRefines(m, key, choice, p);
      case Deleting(_) =>
      case Replacing(_, _, _) => ReplaceRefines(m, key, choice, p);
    }
  }

  lemma RemoveRefines(m: Machine, key: string, rest: Option<FS>, p: string)
    requires Inv(m) && Enabled(m, Remove(key, rest)) && NoStale(m, p) && Under(key, p)
    ensures Backed(Next(m, Remove(key, rest)).fs, p) == Promised(m, Remove(key, rest), p)
  {
    var m' := Next(m, Remove(key, rest));
    NoStaleStepIff(m, Remove(key, rest), p);
    RemoveByHolder(m, key, rest);
    BackedAtHeldKey(m, key, p);
    ShownAfter(m, m', key, p);
    assert Phase(m.fs, key, m.procs[key]);
  }

  lemma FailRefines(m: Machine, key: string, p: string)
    requires Inv(m) && Enabled(m, Fail(key)) && NoStale(m, p) && Under(key, p)
    ensures Backed(Next(m, Fail(key)).fs, p) == Backed(m.fs, p)
  {
    var m' := Next(m, Fail(key));
    NoStaleStepIff(m, Fail(key), p);
    FailByHolder(m, key);
    BackedAtHeldKey(m, key, p);
    ShownAfter(m, m', key, p);
    PlaceAt(m.fs, key, m.fs.backups[key]);
  }

  lemma AbortRefines(m: Machine, key: string, cut: Option<Tree>, p: string)
    requires Inv(m) && Enabled(m, Abort(key, cut)) && NoStale(m, p) && Under(key, p) && !HoldsBackup(m.procs[key])
    ensures Backed(Next(m, Abort(key, cut)).fs, p) == Backed(m.fs, p)
  {
  }

  /** A restart shows what the store stands for, wherever nothing is left behind and nothing skipped. */
  lemma RestartShowsBacked(m: Machine, p: string)
    requires NoStale(m, p) && !Spoils(m, Crash, p)
    ensures RecFile(m.fs, p) == Backed(m.fs, p)
  {
    forall q | Under(q, p) ensures q in Restorable(m.fs) <==> q in m.fs.backups.Keys {}
    CoverSame(Restorable(m.fs), m.fs.backups.Keys, p);
    CoverAbove(m.fs.backups.Keys, p);
    if Cover(m.fs.backups.Keys, p).Some? { PlacedFile(m.fs, Cover(m.fs.backups.Keys, p).value, p); }
  }

  lemma CrashRefines(m: Machine, p: string)
    requires Inv(m) && NoStale(m, p) && !Spoils(m, Crash, p)
    ensures Backed(Next(m, Crash).fs, p) == Backed(m.fs, p)
  {
    RestartShowsBacked(m, p);
    NoStaleStepIff(m, Crash, p);
    BackedUnlocked(Next(m, Crash), p);
    RecoveredFile(m.fs, p);
  }

  /**
   * Main result: wherever nothing is left behind, every step, by whichever
   * operation, failed calls and restarts included, changes what a path stands
   * for exactly as promised, unless it leaves something behind itself.
   */
  lemma StepRefines(m: Machine, step: Step, p: string)
    requires Inv(m) && Enabled(m, step) && NoStale(m, p) && !Spoils(m, step, p)
    ensures Backed(Next(m, step).fs, p) == Promised(m, step, p)
  {
    match step {
      case Begin(_, _) =>
      case Advance(key, choice) =>
        if Under(key, p) { AdvanceRefines(m, key, choice, p); }
        else { AdvanceByHolder(m, key, choice); BackedOutside(m.fs, Next(m, step).fs, key, p); }
      case Remove(key, rest) =>
        if Under(key, p) { RemoveRefines(m, key, rest, p); }
        else { RemoveByHolder(m, key, rest); BackedOutside(m.fs, Next(m, step).fs, key, p); }
      case Fail(key) =>
        if Under(key, p) { FailRefines(m, key, p); }
        else { FailByHolder(m, key); BackedOutside(m.fs, Next(m, step).fs, key, p); }
      case Abort(key, cut) =>
        if Under(key, p) { AbortRefines(m, key, cut, p); }
        else { AbortByHolder(m, key, cut); BackedOutside(m.fs, Next(m, step).fs, key, p); }
      case Crash => CrashRefines(m, p);
    }
  }

  // ---------- consequences ----------

  /** Until its last call an update is undone by a crash: the old file is restored whole. */
  lemma UpdateCrashRestoresOld(m: Machine, key: string, p: string)
    requires Inv(m) && key in m.procs && m.procs[key].Updating? && Under(key, p) && NoStale(m, p)
    ensures Backed(m.fs, p) == FileIn(m.procs[key].before.live.files, p)
    ensures !Spoils(m, Crash, p) ==> RecFile(m.fs, p) == FileIn(m.procs[key].before.live.files, p)
  {
    assert Phase(m.fs, key, m.procs[key]);
    BackedAtHeldKey(m, key, p);
    if !Spoils(m, Crash, p) { RestartShowsBacked(m, p); }
  }

  /** Away from every operation in progress and everything left behind, a restart shows exactly what is live. */
  lemma CrashKeepsUnlocked(m: Machine, p: string)
    requires NoStale(m, p) && forall k :: k in m.procs ==> !Under(k, p)
    ensures RecFile(m.fs, p) == FileIn(m.fs.live.files, p)
  {
    BackedUnlocked(m, p);
  }

  /** Nothing is left behind above, at or below key. */
  ghost predicate NoStaleUnder(m: Machine, key: string)
  {
    forall p :: Under(key, p) ==> NoStale(m, p)
  }

  lemma RestartBelowHeldKey(m: Machine, key: string, p: string)
    requires Inv(m) && key in m.procs && NoStale(m, p) && Under(key, p)
    ensures RecFile(m.fs, p) ==
            FileIn(if key in m.fs.backups && !Skipped(m.fs, key) then m.fs.backups[key].live.files
              else m.fs.live.files, p)
  {
    forall r | r in m.fs.backups && Under(r, p) ensures r == key { OnlyHeldAbove(m, key, p, r); }
    if key in m.fs.backups && Skipped(m.fs, key) {
      CoverNone(Restorable(m.fs), p);
    } else {
      RestartShowsBacked(m, p);
      BackedAtHeldKey(m, key, p);
    }
  }

  /**
   * A crash restores the replaced list whole exactly as long as none of its
   * backup's files has been removed; a list whose backup recovery skips shows
   * what was live, whole only if that is still the old list.
   */
  lemma ReplaceCrashRestoresOldIff(m: Machine, key: string)
    requires Inv(m) && key in m.procs && m.procs[key].Replacing? && NoStaleUnder(m, key)
    ensures var before := m.procs[key].before.live.files;
            (forall p :: Under(key, p) ==> RecFile(m.fs, p) == FileIn(before, p)) <==>
            (if HoldsBackup(m.procs[key]) && Skipped(m.fs, key) then LiveIs(m.fs, key, before)
             else m.procs[key].stage.Removing? ==> m.fs.backups[key].live.files == before)
  {
    var proc := m.procs[key];
    assert Phase(m.fs, key, proc);
    assert NoStale(m, key);
    BackedAtHeldKey(m, key, key);
    forall p | Under(key, p)
      ensures RecFile(m.fs, p) ==
              FileIn(if key in m.fs.backups && !Skipped(m.fs, key) then m.fs.backups[key].live.files
                else m.fs.live.files, p)
    {
      RestartBelowHeldKey(m, key, p);
    }
    if proc.stage.Removing? && !Skipped(m.fs, key) {
      RemovedFilesShow(m, key);
    }
  }

  lemma RemovedFilesShow(m: Machine, key: string)
    requires Inv(m) && key in m.procs && m.procs[key].Replacing? && m.procs[key].stage.Removing?
    requires forall p :: Under(key, p) ==> RecFile(m.fs, p) == FileIn(m.fs.backups[key].live.files, p)
    ensures var before := m.procs[key].before.live.files;
            (forall p :: Under(key, p) ==> RecFile(m.fs, p) == FileIn(before, p)) <==>
              m.fs.backups[key].live.files == before
  {
    var before, left := m.procs[key].before.live.files, m.fs.backups[key].live.files;
    assert Phase(m.fs, key, m.procs[key]);
    if forall p :: Under(key, p) ==> RecFile(m.fs, p) == FileIn(before, p) {
      forall p ensures FileIn(left, p) == FileIn(before, p)
      {
        if Under(key, p) { assert RecFile(m.fs, p) == FileIn(left, p); }
      }
      SameEntriesSameTree(Tree(left, {}), Tree(before, {}));
    }
  }

  function Without(fs: FS, e: string): FS
  {
    fs.(live := Tree(fs.live.files - {e}, fs.live.dirs))
  }

  lemma {:induction false} SubFSReflexive(fs: FS)
    ensures SubFS(fs, fs)
  {
    forall r | r in fs.backups ensures SubFS(fs.backups[r], fs.backups[r]) { SubFSReflexive(fs.backups[r]); }
  }

  lemma WithoutIsLess(fs: FS, e: string)
    ensures SubFS(Without(fs, e), fs)
  {
    SubFSReflexive(fs);
  }

  /** Once the removal begins, a crash shows the old list with holes: e is gone, f is still there. */
  lemma RemovalPunchesHoles(m: Machine, key: string, e: string, f: string)
    requires Inv(m) && key in m.procs && m.procs[key].Replacing? && m.procs[key].stage.Removing?
    requires e in m.fs.backups[key].live.files && f in m.fs.backups[key].live.files && e != f
    requires NoStale(m, e) && NoStale(m, f) && !Skipped(m.fs, key)
    ensures var step := Remove(key, Some(Without(m.fs.backups[key], e)));
            && Enabled(m, step)
            && Backed(Next(m, step).fs, e) == None
            && Backed(Next(m, step).fs, f) == Some(m.procs[key].before.live.files[f])
            && RecFile(Next(m, step).fs, e) == None &&
               RecFile(Next(m, step).fs, f) == Some(m.procs[key].before.live.files[f])
  {
    assert Phase(m.fs, key, m.procs[key]);
    assert InPlaceFS(m.fs.backups[key], key);
    WithoutIsLess(m.fs.backups[key], e);
    var step := Remove(key, Some(Without(m.fs.backups[key], e)));
    StepRefines(m, step, e);
    StepRefines(m, step, f);
    BackedAtHeldKey(m, key, f);
    var m' := Next(m, step);
    InvStep(m, step);
    NoStaleStepIff(m, step, e);
    NoStaleStepIff(m, step, f);
    RemovingKeepsUnskipped(m, key, m.fs.backups[key], e);
    RestartBelowHeldKey(m', key, e);
    RestartBelowHeldKey(m', key, f);
  }

  lemma RemovingKeepsUnskipped(m: Machine, key: string, b: FS, e: string)
    requires key in m.fs.backups && b == m.fs.backups[key] && !Skipped(m.fs, key)
    ensures !Skipped(m.fs.(backups := m.fs.backups[key := Without(b, e)]), key)
  {
    var fs' := m.fs.(backups := m.fs.backups[key := Without(b, e)]);
    forall d | d in fs'.backups ensures !Skips(fs', d, key)
    {
      assert d in m.fs.backups && !Skips(m.fs, d, key);
    }
  }

  /** A list stored for the first time: its empty directory is visible before any of its items. */
  lemma NewListShowsEmptyFirst(m: Machine, key: string, choice: string)
    requires Inv(m) && key in m.procs && m.procs[key].Replacing? && m.procs[key].stage.Preparing? &&
             NoStaleUnder(m, key)
    requires !Exists(m.fs.live, key)
    ensures var m' := Next(m, Advance(key, choice));
            && key in Recovered(m'.fs).live.dirs
            && forall p :: Under(key, p) ==> RecFile(m'.fs, p) == FileIn(m.procs[key].before.live.files, p)
  {
    assert Phase(m.fs, key, m.procs[key]);
    var m' := Next(m, Advance(key, choice));
    assert m'.fs.backups == m.fs.backups;
    forall p | Under(key, p) ensures Cover(Restorable(m'.fs), p) == None
    {
      forall r | r in m.fs.backups ensures !Under(r, p)
      {
        assert NoStale(m, p);
        if Under(r, p) { OnlyHeldAbove(m, key, p, r); }
      }
      CoverNone(Restorable(m'.fs), p);
    }
    RecoveredDir(m'.fs, key);
  }

  // ---------- failed operations ----------

  /** The backups at or above k. */
  function Above(backups: map<string, FS>, k: string): map<string, FS>
  {
    backups - (set r | r in backups && !Under(r, k))
  }

  /** Those of them that were left behind. */
  function Left(m: Machine, k: string): map<string, FS>
  {
    m.fs.backups - (set r | r in m.fs.backups && !(Under(r, k) && Stale(m, r)))
  }

  /** Those that an operation in progress holds. */
  function HeldAbove(m: Machine, k: string): map<string, FS>
  {
    m.fs.backups - (set r | r in m.fs.backups && !(Under(r, k) && !Stale(m, r)))
  }

  /** What of standing is not at or below key. */
  function Beside(standing: map<string, FS>, key: string): map<string, FS>
  {
    standing - (set r | r in standing && Under(key, r))
  }

  /** The next call of the holder of key moves key's subtree to its backup. */
  predicate Renames(m: Machine, key: string)
    requires key in m.procs
  {
    match m.procs[key]
    case Updating(obj, phase, _) => phase.Checking? && FresherThan(m.fs, key, obj)
    case Replacing(_, stage, _) => stage.Renaming?
    case _ => false
  }

  function Unskipped(fs: FS, standing: map<string, FS>): set<string>
  {
    set r | r in standing && !Skipped(fs, r)
  }

  /** The standing backup restored at key, walked through in its turn if the walk is still to come to key. */
  ghost function Restored(fs: FS, standing: map<string, FS>, key: string): FS
    requires key in standing
  {
    if Revisited(fs, key) then Recovered(standing[key]) else standing[key]
  }

  /**
   * A restart restores the outermost standing backup that is not skipped, with
   * those inside it; the ones above it stay.
   */
  ghost function AfterRestart(fs: FS, standing: map<string, FS>, k: string): map<string, FS>
  {
    match Cover(Unskipped(fs, standing), k)
    case None => standing
    case Some(q) => if q in standing then Beside(standing, q) + Above(Restored(fs, standing, q).backups, k)
      else standing
  }

  /**
   * The backups of failed operations that stand above k. An operation that
   * fails while it holds its backup adds it; one that renames takes along or
   * overwrites what stands at or below its key; one that fails and puts its
   * backup back puts back what it took along; one that finds a backup in its
   * way removes that one bit by bit; a restart restores.
   */
  ghost function FailedNext(m: Machine, step: Step, k: string, standing: map<string, FS>): map<string, FS>
    requires Enabled(m, step)
  {
    match step
    case Begin(_, _) => standing
    case Advance(key, _) => if Under(key, k) && Renames(m, key) then Beside(standing, key) else standing
    case Remove(key, rest) =>
      if !Under(key, k) || !m.procs[key].stage.Renaming? then standing
      else if rest.Some? then standing[key := rest.value]
      else standing - {key}
    case Fail(key) => if Under(key, k) then standing + Above(m.procs[key].before.backups, k) else standing
    case Abort(key, _) =>
      if Under(key, k) && HoldsBackup(m.procs[key]) && key in m.fs.backups then standing[key := m.fs.backups[key]]
        else standing
    case Crash => AfterRestart(m.fs, standing + HeldAbove(m, k), k)
  }

  /** What a failing operation leaves is what its key held when it began, or what the removal has left of that. */
  lemma AbortLeavesBefore(m: Machine, key: string, cut: Option<Tree>, k: string, standing: map<string, FS>)
    requires Inv(m) && Enabled(m, Abort(key, cut)) && Under(key, k) && HoldsBackup(m.procs[key])
    ensures var proc, standing' := m.procs[key], FailedNext(m, Abort(key, cut), k, standing);
            && key in standing'
            && SubTree(Tree(standing'[key].live.files, {}), Tree(proc.before.live.files, {}))
            && (!(proc.Replacing? && proc.stage.Removing?) ==>
                  standing'[key].live.files == proc.before.live.files && standing'[key].backups == proc.before.backups)
  {
    assert Phase(m.fs, key, m.procs[key]);
  }

  /** The same backups at r, and the same operation at r, above k. */
  lemma SameLeft(m: Machine, m': Machine, k: string, r: string)
    requires Under(r, k) && Get(m'.fs.backups, r) == Get(m.fs.backups, r)
    requires (r in m.procs && HoldsBackup(m.procs[r])) == (r in m'.procs && HoldsBackup(m'.procs[r]))
    ensures Get(Left(m', k), r) == Get(Left(m, k), r)
  {
  }

  lemma HolderOutsideTells(m: Machine, m': Machine, key: string, k: string)
    requires Inv(m) && ByHolder(m, m', key) && !Under(key, k)
    ensures Left(m', k) == Left(m, k)
  {
    forall r ensures Get(Left(m', k), r) == Get(Left(m, k), r)
    {
      if Under(r, k) {
        ConfinedAbove(m.fs, m'.fs, key, k, r);
        assert r != key;
        SameLeft(m, m', k, r);
      }
    }
    SameLookupsSameBackups(Left(m', k), Left(m, k));
  }

  /** Above its own key the holder leaves everything as it was. */
  lemma HolderAboveTells(m: Machine, m': Machine, key: string, k: string, r: string)
    requires Inv(m) && ByHolder(m, m', key) && Under(key, k) && Under(r, k) && !Under(key, r)
    ensures Get(Left(m', k), r) == Get(Left(m, k), r)
  {
    UnderOneOfTwo(r, key, k);
    assert key in m.procs.Keys;
    assert r !in m.procs.Keys;
    SameLeft(m, m', k, r);
  }

  /** It is enough to look at what stands at or below the holder's key. */
  lemma HolderInsideTells(m: Machine, m': Machine, key: string, k: string, standing: map<string, FS>)
    requires Inv(m) && ByHolder(m, m', key) && Under(key, k)
    requires forall r :: !(Under(key, r) && Under(r, k)) ==> Get(standing, r) == Get(Left(m, k), r)
    requires forall r :: Under(key, r) && Under(r, k) ==> Get(standing, r) == Get(Left(m', k), r)
    ensures Left(m', k) == standing
  {
    forall r ensures Get(Left(m', k), r) == Get(standing, r)
    {
      if Under(r, k) && !Under(key, r) { HolderAboveTells(m, m', key, k, r); }
    }
    SameLookupsSameBackups(Left(m', k), standing);
  }

  /** Only the holder itself is in progress at or below its key. */
  lemma NobodyBelow(m: Machine, key: string, r: string)
    requires Inv(m) && key in m.procs && Below(key, r)
    ensures r !in m.procs
  {
    assert key in m.procs.Keys;
    if r in m.procs.Keys { UnderLonger(key, r); }
  }

  lemma RenameLeaves(m: Machine, m': Machine, key: string, k: string, r: string)
    requires Inv(m) && key in m.procs && Under(key, k) && Under(key, r) && Under(r, k)
    requires m'.fs == Rename(m.fs, key) && key in m'.procs && HoldsBackup(m'.procs[key])
    ensures Get(Left(m', k), r) == None
  {
  }

  lemma RenameTells(m: Machine, m': Machine, key: string, k: string)
    requires Inv(m) && ByHolder(m, m', key) && Under(key, k)
    requires m'.fs == Rename(m.fs, key) && key in m'.procs && HoldsBackup(m'.procs[key])
    ensures Left(m', k) == Beside(Left(m, k), key)
  {
    var standing := Beside(Left(m, k), key);
    forall r | Under(key, r) && Under(r, k) ensures Get(standing, r) == Get(Left(m', k), r)
    {
      RenameLeaves(m, m', key, k, r);
    }
    HolderInsideTells(m, m', key, k, standing);
  }

  /** A call that moves no subtree and removes at most the holder's own backup. */
  lemma QuietTells(m: Machine, m': Machine, key: string, k: string)
    requires Inv(m) && ByHolder(m, m', key) && Under(key, k)
    requires m'.fs.backups == m.fs.backups || (m'.fs.backups == m.fs.backups - {key} && HoldsBackup(m.procs[key]))
    requires key in m'.fs.backups ==> HoldsBackup(m.procs[key]) == (key in m'.procs && HoldsBackup(m'.procs[key]))
    ensures Left(m', k) == Left(m, k)
  {
    forall r | Under(key, r) && Under(r, k) ensures Get(Left(m, k), r) == Get(Left(m', k), r)
    {
      if r != key { NobodyBelow(m, key, r); }
    }
    HolderInsideTells(m, m', key, k, Left(m, k));
  }

  lemma AdvanceTells(m: Machine, key: string, choice: string, k: string)
    requires Inv(m) && Enabled(m, Advance(key, choice))
    ensures Left(Next(m, Advance(key, choice)), k) == FailedNext(m, Advance(key, choice), k, Left(m, k))
  {
    var m' := Next(m, Advance(key, choice));
    AdvanceByHolder(m, key, choice);
    if !Under(key, k) {
      HolderOutsideTells(m, m', key, k);
    } else if Renames(m, key) {
      RenameTells(m, m', key, k);
    } else {
      QuietAdvance(m, key, choice);
      QuietTells(m, m', key, k);
    }
  }

  lemma QuietAdvance(m: Machine, key: string, choice: string)
    requires Inv(m) && Enabled(m, Advance(key, choice)) && !Renames(m, key)
    ensures var m' := Next(m, Advance(key, choice));
            && (m'.fs.backups == m.fs.backups || (m'.fs.backups == m.fs.backups - {key} && HoldsBackup(m.procs[key])))
            && (key in m'.fs.backups ==> HoldsBackup(m.procs[key]) == (key in m'.procs && HoldsBackup(m'.procs[key])))
  {
    assert Phase(m.fs, key, m.procs[key]);
  }

  lemma RemoveTells(m: Machine, key: string, rest: Option<FS>, k: string)
    requires Inv(m) && Enabled(m, Remove(key, rest))
    ensures Left(Next(m, Remove(key, rest)), k) == FailedNext(m, Remove(key, rest), k, Left(m, k))
  {
    var m' := Next(m, Remove(key, rest));
    RemoveByHolder(m, key, rest);
    if !Under(key, k) {
      HolderOutsideTells(m, m', key, k);
    } else {
      var standing := FailedNext(m, Remove(key, rest), k, Left(m, k));
      forall r | Under(key, r) && Under(r, k) ensures Get(standing, r) == Get(Left(m', k), r)
      {
        if r == key { RemoveLeavesKey(m, key, rest, k); } else { RemoveLeavesBelow(m, key, rest, k, r); }
      }
      HolderInsideTells(m, m', key, k, standing);
    }
  }

  lemma RemoveLeavesKey(m: Machine, key: string, rest: Option<FS>, k: string)
    requires Enabled(m, Remove(key, rest)) && Under(key, k)
    ensures Get(FailedNext(m, Remove(key, rest), k, Left(m, k)), key) == Get(Left(RemoveStep(m, key, rest), k), key)
  {
  }

  lemma RemoveLeavesBelow(m: Machine, key: string, rest: Option<FS>, k: string, r: string)
    requires Inv(m) && Enabled(m, Remove(key, rest)) && Under(key, k) && Below(key, r) && Under(r, k) && r != key
    ensures Get(FailedNext(m, Remove(key, rest), k, Left(m, k)), r) == Get(Left(RemoveStep(m, key, rest), k), r)
  {
    NobodyBelow(m, key, r);
  }

  lemma FailTells(m: Machine, key: string, k: string)
    requires Inv(m) && Enabled(m, Fail(key))
    ensures Left(Next(m, Fail(key)), k) == FailedNext(m, Fail(key), k, Left(m, k))
  {
    var m' := Next(m, Fail(key));
    FailByHolder(m, key);
    if !Under(key, k) {
      HolderOutsideTells(m, m', key, k);
    } else {
      var before, standing := m.procs[key].before, FailedNext(m, Fail(key), k, Left(m, k));
      assert Phase(m.fs, key, m.procs[key]);
      assert InPlaceFS(before, key);
      forall r | Under(key, r) && Under(r, k) ensures Get(standing, r) == Get(Left(m', k), r)
      {
        FailPutsBack(m, key, k, r);
      }
      forall r | !(Under(key, r) && Under(r, k)) ensures Get(standing, r) == Get(Left(m, k), r)
      {
        OthersUnmoved(Left(m, k), before, key, k, r);
      }
      HolderInsideTells(m, m', key, k, standing);
    }
  }

  lemma OthersUnmoved(standing: map<string, FS>, before: FS, key: string, k: string, r: string)
    requires InPlaceFS(before, key) && !(Under(key, r) && Under(r, k))
    ensures Get(standing + Above(before.backups, k), r) == Get(standing, r)
  {
  }

  lemma FailPutsBack(m: Machine, key: string, k: string, r: string)
    requires Inv(m) && Enabled(m, Fail(key)) && Under(key, k) && Under(key, r) && Under(r, k)
    ensures Get(Left(Next(m, Fail(key)), k), r) == Get(Left(m, k) + Above(m.procs[key].before.backups, k), r)
  {
    var m', before := Next(m, Fail(key)), m.procs[key].before;
    assert Phase(m.fs, key, m.procs[key]);
    PlaceAt(m.fs, key, m.fs.backups[key]);
    assert Get(m'.fs.backups, r) == Get(before.backups, r);
    if r == key {
      assert !Below(key, key);
    } else {
      NobodyBelow(m, key, r);
      assert Get(m.fs.backups, r) == None;
    }
  }

  lemma AbortTells(m: Machine, key: string, cut: Option<Tree>, k: string)
    requires Inv(m) && Enabled(m, Abort(key, cut))
    ensures Left(Next(m, Abort(key, cut)), k) == FailedNext(m, Abort(key, cut), k, Left(m, k))
  {
    var m' := Next(m, Abort(key, cut));
    AbortByHolder(m, key, cut);
    if !Under(key, k) {
      HolderOutsideTells(m, m', key, k);
    } else {
      if HoldsBackup(m.procs[key]) { HeldIsThere(m, key); }
      var standing := FailedNext(m, Abort(key, cut), k, Left(m, k));
      forall r | Under(key, r) && Under(r, k) ensures Get(standing, r) == Get(Left(m', k), r)
      {
        if r != key { NobodyBelow(m, key, r); }
      }
      HolderInsideTells(m, m', key, k, standing);
    }
  }

  /** What is left behind and what is held make up everything above k. */
  lemma LeftOrHeld(m: Machine, k: string)
    ensures Left(m, k) + HeldAbove(m, k) == Above(m.fs.backups, k)
  {
  }

  lemma UnskippedAbove(fs: FS, k: string, r: string)
    requires Under(r, k)
    ensures Cover(Restorable(fs), r) == Cover(Unskipped(fs, Above(fs.backups, k)), r)
  {
    forall q | Under(q, r) ensures q in Restorable(fs) <==> q in Unskipped(fs, Above(fs.backups, k))
    {
      UnderTransitive(q, r, k);
    }
    CoverSame(Restorable(fs), Unskipped(fs, Above(fs.backups, k)), r);
  }

  /** The cover of a path above k is the cover of k, if that is above the path. */
  lemma CoverOnTheWay(rs: set<string>, r: string, k: string)
    requires Under(r, k)
    ensures var c := Cover(rs, k); Cover(rs, r) == if c.Some? && Under(c.value, r) then c else None
  {
    CoverAbove(rs, r);
    CoverAbove(rs, k);
    if Cover(rs, r).Some? { CoverBelow(rs, r, k); }
  }

  lemma RestartAbove(fs: FS, k: string, r: string)
    requires Under(r, k)
    ensures var c := Cover(Unskipped(fs, Above(fs.backups, k)), k);
            Get(Recovered(fs).backups, r) ==
            if c.Some? && Under(c.value, r) && c.value in fs.backups then Get(Placed(fs, c.value).backups, r)
              else Get(fs.backups, r)
  {
    RecoveredBackup(fs, r);
    UnskippedAbove(fs, k, r);
    CoverOnTheWay(Unskipped(fs, Above(fs.backups, k)), r, k);
    CoverAbove(Unskipped(fs, Above(fs.backups, k)), k);
  }

  /** Two maps that agree above k but at and below q, where one has what is inside the other's backup of q. */
  lemma MergedAt(after: map<string, FS>, before: map<string, FS>, q: string, inside: map<string, FS>, k: string,
      r: string)
    requires forall x :: x in inside ==> Below(q, x)
    requires Under(r, k) ==> Get(after, r) == if Under(q, r) then Get(inside, r) else Get(before, r)
    ensures Get(Above(after, k), r) == Get(Beside(Above(before, k), q) + Above(inside, k), r)
  {
  }

  lemma RestoredIsPlaced(fs: FS, k: string, q: string)
    requires q in fs.backups && Under(q, k)
    ensures q in Above(fs.backups, k) && Restored(fs, Above(fs.backups, k), q) == Placed(fs, q)
  {
  }

  lemma AfterRestartIs(fs: FS, k: string, q: string)
    requires Cover(Unskipped(fs, Above(fs.backups, k)), k) == Some(q) && q in fs.backups && Under(q, k)
    ensures AfterRestart(fs, Above(fs.backups, k), k) ==
            Beside(Above(fs.backups, k), q) + Above(Placed(fs, q).backups, k)
  {
    RestoredIsPlaced(fs, k, q);
  }

  lemma RestartLeavesCovered(fs: FS, k: string, q: string)
    requires WellPlaced(fs) && Cover(Unskipped(fs, Above(fs.backups, k)), k) == Some(q) && q in fs.backups
    ensures Above(Recovered(fs).backups, k) == Beside(Above(fs.backups, k), q) + Above(Placed(fs, q).backups, k)
  {
    PlacedInPlace(fs, q);
    var after, inside := Recovered(fs).backups, Placed(fs, q).backups;
    var told := Beside(Above(fs.backups, k), q) + Above(inside, k);
    forall r ensures Get(Above(after, k), r) == Get(told, r)
    {
      if Under(r, k) { RestartAbove(fs, k, r); }
      MergedAt(after, fs.backups, q, inside, k, r);
    }
    SameLookupsSameBackups(Above(after, k), told);
  }

  lemma RestartLeavesUncovered(fs: FS, k: string)
    requires Cover(Unskipped(fs, Above(fs.backups, k)), k) == None
    ensures Above(Recovered(fs).backups, k) == Above(fs.backups, k)
  {
    var after := Recovered(fs).backups;
    forall r ensures Get(Above(after, k), r) == Get(Above(fs.backups, k), r)
    {
      if Under(r, k) { RestartAbove(fs, k, r); }
    }
    SameLookupsSameBackups(Above(after, k), Above(fs.backups, k));
  }

  lemma RestartLeaves(fs: FS, k: string)
    requires WellPlaced(fs)
    ensures Above(Recovered(fs).backups, k) == AfterRestart(fs, Above(fs.backups, k), k)
  {
    CoverAbove(Unskipped(fs, Above(fs.backups, k)), k);
    match Cover(Unskipped(fs, Above(fs.backups, k)), k) {
      case None => RestartLeavesUncovered(fs, k);
      case Some(q) =>
        RestartLeavesCovered(fs, k, q);
        AfterRestartIs(fs, k, q);
    }
  }

  lemma NobodyHolds(fs: FS, k: string)
    ensures Left(Machine(fs, map[]), k) == Above(fs.backups, k)
  {
  }

  lemma CrashTells(m: Machine, k: string)
    requires WellPlaced(m.fs)
    ensures Left(Machine(Recovered(m.fs), map[]), k) == FailedNext(m, Crash, k, Left(m, k))
  {
    LeftOrHeld(m, k);
    RestartLeaves(m.fs, k);
    NobodyHolds(Recovered(m.fs), k);
  }

  /** The history of failures tells what every step leaves behind above k. */
  lemma FailedStepTells(m: Machine, step: Step, k: string)
    requires Inv(m) && Enabled(m, step)
    ensures Left(Next(m, step), k) == FailedNext(m, step, k, Left(m, k))
  {
    match step {
      case Begin(key, op) => BeginTells(m, key, op, k);
      case Advance(key, choice) => AdvanceTells(m, key, choice, k);
      case Remove(key, rest) => RemoveTells(m, key, rest, k);
      case Fail(key) => FailTells(m, key, k);
      case Abort(key, cut) => AbortTells(m, key, cut, k);
      case Crash => CrashTells(m, k);
    }
  }

  lemma BeginTells(m: Machine, key: string, op: Op, k: string)
    requires Enabled(m, Begin(key, op))
    ensures Left(Next(m, Begin(key, op)), k) == Left(m, k)
  {
    var m' := Next(m, Begin(key, op));
    forall r ensures Get(Left(m', k), r) == Get(Left(m, k), r) {}
    SameLookupsSameBackups(Left(m', k), Left(m, k));
  }

  ghost function FailedAfter(m: Machine, steps: seq<Step>, k: string, standing: map<string, FS>): map<string, FS>
    requires ValidRun(m, steps)
    decreases |steps|
  {
    if steps == [] then standing
    else FailedAfter(Next(m, steps[0]), steps[1..], k, FailedNext(m, steps[0], k, standing))
  }

  lemma {:induction false} FailedRunTells(m: Machine, steps: seq<Step>, k: string)
    requires Inv(m) && ValidRun(m, steps)
    ensures Inv(Run(m, steps)) && Left(Run(m, steps), k) == FailedAfter(m, steps, k, Left(m, k))
    decreases |steps|
  {
    if steps != [] {
      InvStep(m, steps[0]);
      FailedStepTells(m, steps[0], k);
      FailedRunTells(Next(m, steps[0]), steps[1..], k);
    }
  }

  /** What the standing failures make a restart show at k: the outermost one that is not skipped decides. */
  ghost function ShownBy(fs: FS, standing: map<string, FS>, k: string): Option<Blob>
  {
    match Cover(Unskipped(fs, standing), k)
    case None => FileIn(fs.live.files, k)
    case Some(q) => if q in standing then FileIn(Restored(fs, standing, q).live.files, k) else None
  }

  /**
   * Over every run, of updates, deletes and replacements of whatever lies above
   * k: when no operation above k is in progress, a restart shows at k what the
   * outermost backup above k shows that a failed operation left, that no later
   * operation and no restart has taken away and that recovery does not skip; and
   * what is live if there is none.
   */
  lemma RestartShowsLastFailed(m: Machine, steps: seq<Step>, k: string)
    requires Inv(m) && ValidRun(m, steps) && forall r :: r in Run(m, steps).procs ==> !Under(r, k)
    ensures var fs, standing := Run(m, steps).fs, FailedAfter(m, steps, k, Left(m, k));
            RecFile(fs, k) == ShownBy(fs, standing, k)
  {
    FailedRunTells(m, steps, k);
    LeftIsShown(Run(m, steps), k);
  }

  lemma LeftIsShown(m: Machine, k: string)
    requires forall r :: r in m.procs ==> !Under(r, k)
    ensures RecFile(m.fs, k) == ShownBy(m.fs, Left(m, k), k)
  {
    var standing := Above(m.fs.backups, k);
    assert Left(m, k) == standing;
    UnskippedAbove(m.fs, k, k);
    CoverAbove(Unskipped(m.fs, standing), k);
    if Cover(Unskipped(m.fs, standing), k).Some? {
      RestoredIsPlaced(m.fs, k, Cover(Unskipped(m.fs, standing), k).value);
    }
  }

  /**
   * So a restart keeps what is live at k exactly when no such failure stands,
   * or the outermost one shows what is live again.
   */
  lemma RestartKeepsKeyIff(m: Machine, steps: seq<Step>, k: string)
    requires Inv(m) && ValidRun(m, steps) && forall r :: r in Run(m, steps).procs ==> !Under(r, k)
    ensures var fs, standing := Run(m, steps).fs, FailedAfter(m, steps, k, Left(m, k));
            RecFile(fs, k) == FileIn(fs.live.files, k) <==>
            match Cover(Unskipped(fs, standing), k)
            case None => true
            case Some(q) => q in standing && FileIn(Restored(fs, standing, q).live.files, k) == FileIn(fs.live.files, k)
  {
    var fs, standing := Run(m, steps).fs, FailedAfter(m, steps, k, Left(m, k));
    RestartShowsLastFailed(m, steps, k);
    CoverAbove(Unskipped(fs, standing), k);
  }

  // ---------- versions ----------

  function VersionIn(blob: Option<Blob>): int
  {
    match blob
    case Some(Whole(obj)) => obj.version
    case _ => -1
  }

  /** The version key stands for; nothing readable counts as lowest. */
  ghost function VersionAt(fs: FS, key: string): int
  {
    VersionIn(Backed(fs, key))
  }

  /** Steps of deletes and list replacements that cover key. */
  predicate Erases(m: Machine, step: Step, key: string)
  {
    && (step.Advance? || step.Remove?) && step.key in m.procs && Under(step.key, key)
    && (m.procs[step.key].Deleting? || m.procs[step.key].Replacing?)
  }

  /** Updates and creates address objects: nothing is stored below a key they hold. */
  predicate ObjectKey(m: Machine, step: Step, key: string)
  {
    step.Advance? && step.key in m.procs && (m.procs[step.key].Updating? || m.procs[step.key].Creating?) ==>
      step.key == key || !Under(step.key, key)
  }

  lemma VersionStep(m: Machine, step: Step, key: string)
    requires Inv(m) && Enabled(m, step) && NoStale(m, key) && !Spoils(m, step, key)
    requires !Erases(m, step, key) && ObjectKey(m, step, key)
    ensures VersionAt(m.fs, key) <= VersionAt(Next(m, step).fs, key)
  {
    StepRefines(m, step, key);
    if step.Advance? && step.key == key {
      assert Phase(m.fs, key, m.procs[key]);
      BackedAtHeldKey(m, key, key);
      assert FileIn(m.fs.live.files, key) == None ==> key !in m.fs.live.files;
    }
  }

  ghost predicate KeepsObject(m: Machine, steps: seq<Step>, key: string)
    requires ValidRun(m, steps)
    decreases |steps|
  {
    steps == [] ||
    (!Spoils(m, steps[0], key) && !Erases(m, steps[0], key) && ObjectKey(m, steps[0], key) &&
     KeepsObject(Next(m, steps[0]), steps[1..], key))
  }

  /**
   * Whatever creates and updates any number of writers issue, interleaved call
   * by call and cut by crashes, the stored version of a key never decreases
   * between deletions and list replacements that cover it, as long as no
   * operation that holds a backup above the key fails and no crash finds such a
   * backup skipped.
   */
  lemma {:induction false} VersionNeverDecreases(m: Machine, steps: seq<Step>, key: string)
    requires Inv(m) && NoStale(m, key) && ValidRun(m, steps) && KeepsObject(m, steps, key)
    ensures VersionAt(m.fs, key) <= VersionAt(Run(m, steps).fs, key) && NoStale(Run(m, steps), key)
    decreases |steps|
  {
    if steps != [] {
      InvStep(m, steps[0]);
      VersionStep(m, steps[0], key);
      NoStaleStepIff(m, steps[0], key);
      VersionNeverDecreases(Next(m, steps[0]), steps[1..], key);
    }
  }

  /**
   * And where one of those two things did happen: after any run, with no
   * operation above k in progress, a restart lowers the version at k exactly
   * when the outermost standing failure shows a version lower than the live one.
   */
  lemma RestartLowersVersionIff(m: Machine, steps: seq<Step>, k: string)
    requires Inv(m) && ValidRun(m, steps) && forall r :: r in Run(m, steps).procs ==> !Under(r, k)
    ensures var fs, standing := Run(m, steps).fs, FailedAfter(m, steps, k, Left(m, k));
            VersionIn(RecFile(fs, k)) < VersionIn(FileIn(fs.live.files, k)) <==>
            match Cover(Unskipped(fs, standing), k)
            case None => false
            case Some(q) =>
              q in standing &&
              VersionIn(FileIn(Restored(fs, standing, q).live.files, k)) < VersionIn(FileIn(fs.live.files, k))
  {
    var fs, standing := Run(m, steps).fs, FailedAfter(m, steps, k, Left(m, k));
    RestartShowsLastFailed(m, steps, k);
    CoverAbove(Unskipped(fs, standing), k);
  }

  /** And so, between moments when no operation covers the key, never does the version a reader finds. */
  lemma SeenVersionNeverDecreases(m: Machine, steps: seq<Step>, key: string)
    requires Inv(m) && NoStale(m, key) && ValidRun(m, steps) && KeepsObject(m, steps, key)
    requires forall k :: k in m.procs ==> !Under(k, key)
    requires forall k :: k in Run(m, steps).procs ==> !Under(k, key)
    ensures VersionIn(FileIn(m.fs.live.files, key)) <= VersionIn(FileIn(Run(m, steps).fs.live.files, key))
  {
    VersionNeverDecreases(m, steps, key);
    BackedUnlocked(m, key);
    BackedUnlocked(Run(m, steps), key);
  }
}
