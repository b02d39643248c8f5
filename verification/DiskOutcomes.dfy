/**
 * What an operation of the disk store has done when it ends without a failing
 * call: told by the operation and by what was there when it got its lock, for
 * every interleaving with other operations; and that every operation can end.
 */
module DiskOutcomes {
  import opened Collections
  import opened Objects
  import opened DiskTree
  import opened DiskStore

  /** What is found at p, at or below key, once op on key has ended; before is what was there when it began. */
  function Outcome(op: Op, before: Tree, key: string, p: string): Option<Blob>
  {
    var was := FileIn(before.files, p);
    match op
    case Create(obj) => if p == key && p !in before.files && p !in before.dirs then Some(Whole(obj)) else was
    case Update(obj) =>
      if key in before.files && before.files[key].Whole? && before.files[key].obj.version <= obj.version
      then (if p == key then Some(Whole(obj)) else None)
      else was
    case Delete => if p == key then None else was
    case Replace(contents) =>
      if key in before.files then was else if p in contents then Some(Whole(contents[p])) else None
  }

  /** A file system holds nothing below a path that does not exist. */
  ghost predicate Grounded(t: Tree, key: string)
  {
    !Exists(t, key) ==> forall p :: Under(key, p) ==> p !in t.files
  }

  /** proc is op under way, begun when the subtree was before. */
  predicate Performs(proc: Proc, op: Op, before: FS)
  {
    proc.before == before &&
    match proc
    case Creating(obj, _, _) => op == Create(obj)
    case Updating(obj, _, _) => op == Update(obj)
    case Deleting(_) => op == Delete
    case Replacing(contents, _, _) => op == Replace(contents)
  }

  /** The step is neither a failing call of the holder of key nor a crash. */
  predicate Spares(step: Step, key: string)
  {
    !step.Crash? && !((step.Fail? || step.Abort?) && step.key == key)
  }

  /** The operation on key in progress in m ends with the last of the steps, no call of it having failed. */
  ghost predicate EndsUnfailed(m: Machine, steps: seq<Step>, key: string)
    requires ValidRun(m, steps)
    decreases |steps|
  {
    && steps != [] && key in m.procs && Spares(steps[0], key)
    && if |steps| == 1 then key !in Next(m, steps[0]).procs else EndsUnfailed(Next(m, steps[0]), steps[1..], key)
  }

  // ---------- one step ----------

  /** The operation goes on, or it has ended and left its outcome. */
  ghost predicate OnOrDone(m': Machine, key: string, op: Op, before: FS)
  {
    if key in m'.procs then Performs(m'.procs[key], op, before)
    else forall p :: Under(key, p) ==> FileIn(m'.fs.live.files, p) == Outcome(op, before.live, key, p)
  }

  lemma CreateGoesOn(m: Machine, key: string, choice: string, op: Op, before: FS)
    requires Inv(m) && Enabled(m, Advance(key, choice)) && Performs(m.procs[key], op, before) && op.Create?
    ensures OnOrDone(Next(m, Advance(key, choice)), key, op, before)
  {
    assert Phase(m.fs, key, m.procs[key]);
    var m' := Next(m, Advance(key, choice));
    assert FileIn(m.fs.live.files, key) ==
           FileIn(if m.procs[key].begun then before.live.files[key := Torn] else before.live.files, key);
    if key !in m'.procs {
      forall p | Under(key, p) ensures FileIn(m'.fs.live.files, p) == Outcome(op, before.live, key, p)
      {
        assert FileIn(m.fs.live.files, p) ==
               FileIn(if m.procs[key].begun then before.live.files[key := Torn] else before.live.files, p);
      }
    }
  }

  lemma UpdateGoesOn(m: Machine, key: string, op: Op, before: FS)
    requires Inv(m) && key in m.procs && Performs(m.procs[key], op, before) && op.Update?
    ensures OnOrDone(AdvanceUpdate(m, key), key, op, before)
  {
    assert Phase(m.fs, key, m.procs[key]);
    if m.procs[key].phase.Checking? { assert FileIn(m.fs.live.files, key) == FileIn(before.live.files, key); }
  }

  lemma ReplaceGoesOn(m: Machine, key: string, choice: string, op: Op, before: FS)
    requires Inv(m) && Enabled(m, Advance(key, choice)) && Performs(m.procs[key], op, before) && op.Replace?
    requires Grounded(before.live, key)
    ensures OnOrDone(AdvanceReplace(m, key, choice), key, op, before)
  {
    assert Phase(m.fs, key, m.procs[key]);
    if m.procs[key].stage.Preparing? {
      assert FileIn(m.fs.live.files, key) == FileIn(before.live.files, key);
      assert key in m.fs.live.files <==> key in before.live.files;
      forall p | Under(key, p) ensures FileIn(m.fs.live.files, p) == FileIn(before.live.files, p) {}
    }
  }

  lemma RemovalGoesOn(m: Machine, key: string, rest: Option<FS>, op: Op, before: FS)
    requires Inv(m) && Enabled(m, Remove(key, rest)) && Performs(m.procs[key], op, before)
    ensures OnOrDone(RemoveStep(m, key, rest), key, op, before)
  {
    assert Phase(m.fs, key, m.procs[key]);
    var contents := m.procs[key].contents;
    if key !in RemoveStep(m, key, rest).procs {
      forall p | Under(key, p) ensures FileIn(m.fs.live.files, p) == Outcome(op, before.live, key, p)
      {
        assert FileIn(m.fs.live.files, p) == FillingFile(contents, {}, None, p);
      }
    }
  }

  lemma DeleteGoesOn(m: Machine, key: string, choice: string, op: Op, before: FS)
    requires Inv(m) && Enabled(m, Advance(key, choice)) && Performs(m.procs[key], op, before) && op.Delete?
    ensures OnOrDone(Next(m, Advance(key, choice)), key, op, before)
  {
    assert Phase(m.fs, key, m.procs[key]);
  }

  lemma StepGoesOn(m: Machine, step: Step, key: string, op: Op, before: FS)
    requires Inv(m) && Enabled(m, step) && Spares(step, key)
    requires key in m.procs && Performs(m.procs[key], op, before) && Grounded(before.live, key)
    ensures OnOrDone(Next(m, step), key, op, before)
  {
    match step {
      case Begin(k, _) => assert !Under(k, key);
      case Advance(k, choice) =>
        if k != key {
          AdvanceTouchesOneProc(m, k, choice);
        } else {
          match op {
            case Create(_) => CreateGoesOn(m, key, choice, op, before);
            case Update(_) => UpdateGoesOn(m, key, op, before);
            case Delete => DeleteGoesOn(m, key, choice, op, before);
            case Replace(_) => ReplaceGoesOn(m, key, choice, op, before);
          }
        }
      case Remove(k, rest) => if k == key { RemovalGoesOn(m, key, rest, op, before); }
      case Fail(_) =>
      case Abort(_, _) =>
    }
  }

  lemma {:induction false} RunGoesOn(m: Machine, steps: seq<Step>, key: string, op: Op, before: FS)
    requires Inv(m) && ValidRun(m, steps) && EndsUnfailed(m, steps, key)
    requires Performs(m.procs[key], op, before) && Grounded(before.live, key)
    ensures OnOrDone(Run(m, steps), key, op, before) && key !in Run(m, steps).procs
    decreases |steps|
  {
    InvStep(m, steps[0]);
    StepGoesOn(m, steps[0], key, op, before);
    if |steps| > 1 { RunGoesOn(Next(m, steps[0]), steps[1..], key, op, before); }
  }

  /** No call makes a file whole that was not there unfinished before it: writing is never one step. */
  lemma WholeOnlyOverTorn(m: Machine, key: string, choice: string, p: string, obj: Object)
    requires Inv(m) && Enabled(m, Advance(key, choice))
    requires FileIn(Next(m, Advance(key, choice)).fs.live.files, p) == Some(Whole(obj))
    ensures FileIn(m.fs.live.files, p) == Some(Whole(obj)) || FileIn(m.fs.live.files, p) == Some(Torn)
  {
    assert Phase(m.fs, key, m.procs[key]);
  }

  // ---------- whole operations ----------

  /**
   * Whatever else goes on between the moment an operation gets its lock and the
   * moment it gives it back, none of its calls failing: what is live at and
   * below its key is then what the operation and the earlier content say.
   */
  lemma OperationLeaves(m: Machine, key: string, op: Op, steps: seq<Step>, p: string)
    requires Inv(m) && Enabled(m, Begin(key, op)) && Grounded(m.fs.live, key)
    requires ValidRun(Next(m, Begin(key, op)), steps) && EndsUnfailed(Next(m, Begin(key, op)), steps, key)
    requires Under(key, p)
    ensures FileIn(Run(Next(m, Begin(key, op)), steps).fs.live.files, p) == Outcome(op, m.fs.live, key, p)
  {
    var before := RegionFS(m.fs, key);
    InvStep(m, Begin(key, op));
    RunGoesOn(Next(m, Begin(key, op)), steps, key, op, before);
    assert FileIn(before.live.files, p) == FileIn(m.fs.live.files, p);
    assert FileIn(before.live.files, key) == FileIn(m.fs.live.files, key);
  }

  /** So a list that was replaced, stored before or not, is found with exactly its new items. */
  lemma ReplacedListIsFound(m: Machine, key: string, contents: map<string, Object>, steps: seq<Step>, p: string)
    requires Inv(m) && Enabled(m, Begin(key, Replace(contents))) && key !in m.fs.live.files && Grounded(m.fs.live, key)
    requires ValidRun(Next(m, Begin(key, Replace(contents))), steps)
    requires EndsUnfailed(Next(m, Begin(key, Replace(contents))), steps, key) && Under(key, p)
    ensures FileIn(Run(Next(m, Begin(key, Replace(contents))), steps).fs.live.files, p) ==
            if p in contents then Some(Whole(contents[p])) else None
  {
    OperationLeaves(m, key, Replace(contents), steps, p);
  }

  // ---------- every operation can end ----------

  predicate Empty(fs: FS)
  {
    fs.live.files == map[] && fs.backups == map[]
  }

  function RemovalsLeft(fs: FS, key: string): nat
  {
    if key !in fs.backups then 0 else if Empty(fs.backups[key]) then 1 else 2
  }

  /** A bound on the calls the holder of key still makes. */
  function CallsLeft(fs: FS, key: string, proc: Proc): nat
  {
    match proc
    case Creating(_, begun, _) => if begun then 1 else 2
    case Updating(_, phase, _) =>
      (match phase case Checking => 4 case BackedUp => 3 case Writing => 2 case Written => 1)
    case Deleting(_) => 1
    case Replacing(contents, stage, _) =>
      match stage
      case Preparing => 8 + 2 * |contents.Keys|
      case Renaming => 5 + 2 * |contents.Keys| + RemovalsLeft(fs, key)
      case Clearing => 4 + 2 * |contents.Keys|
      case Filling(todo, open) => if open.Some? && |todo| > 0 then 2 + 2 * |todo| else 3 + 2 * |todo|
      case Removing => RemovalsLeft(fs, key)
  }

  /** A call the holder of key can make that does not fail. */
  ghost function NextCall(m: Machine, key: string): Step
    requires key in m.procs
  {
    match m.procs[key]
    case Replacing(_, stage, _) =>
      if (stage.Renaming? || stage.Removing?) && key in m.fs.backups then
        Remove(key, if Empty(m.fs.backups[key]) then None else Some(FS(Tree(map[], {}), map[])))
      else if stage.Filling? && stage.open.None? && stage.todo != {} then
        var c :| c in stage.todo; Advance(key, c)
      else Advance(key, "")
    case _ => Advance(key, "")
  }

  /** What the invariant says of the file system calls of a replacement. */
  predicate Ready(fs: FS, key: string, proc: Proc)
  {
    proc.Replacing? ==>
      match proc.stage
      case Filling(todo, open) => open.Some? ==> open.value in todo && open.value in proc.contents
      case Removing => key in fs.backups
      case _ => true
  }

  lemma FillCallHelps(m: Machine, key: string)
    requires key in m.procs && m.procs[key].Replacing? && m.procs[key].stage.Filling? && Ready(m.fs, key, m.procs[key])
    ensures var step := NextCall(m, key);
            && Enabled(m, step)
            && var m' := Next(m, step);
               key in m'.procs && CallsLeft(m'.fs, key, m'.procs[key]) < CallsLeft(m.fs, key, m.procs[key])
  {
    var stage := m.procs[key].stage;
    if stage.open.Some? {
      assert |stage.todo - {stage.open.value}| == |stage.todo| - 1;
    } else if stage.todo != {} {
      assert |stage.todo| > 0;
    }
  }

  lemma CallHelps(m: Machine, key: string)
    requires key in m.procs && Ready(m.fs, key, m.procs[key])
    ensures var step := NextCall(m, key);
            && step.key == key && Enabled(m, step) && Spares(step, key)
            && var m' := Next(m, step);
               key in m'.procs ==> CallsLeft(m'.fs, key, m'.procs[key]) < CallsLeft(m.fs, key, m.procs[key])
  {
    if m.procs[key].Replacing? && m.procs[key].stage.Filling? { FillCallHelps(m, key); }
  }

  /** From every state an operation in progress can go on to its end by its own calls alone. */
  lemma {:induction false} EveryOperationCanEnd(m: Machine, key: string) returns (steps: seq<Step>)
    requires Inv(m) && key in m.procs
    ensures ValidRun(m, steps) && EndsUnfailed(m, steps, key)
    ensures forall i :: 0 <= i < |steps| ==> !steps[i].Crash? && steps[i].key == key
    decreases CallsLeft(m.fs, key, m.procs[key])
  {
    assert Ready(m.fs, key, m.procs[key]) by { assert Phase(m.fs, key, m.procs[key]); }
    CallHelps(m, key);
    var step := NextCall(m, key);
    var m' := Next(m, step);
    if key in m'.procs {
      InvStep(m, step);
      var rest := EveryOperationCanEnd(m', key);
      steps := [step] + rest;
      assert steps[1..] == rest;
    } else {
      steps := [step];
      assert steps[1..] == [];
    }
  }
}
