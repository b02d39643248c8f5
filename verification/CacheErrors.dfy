/**
 * How the storage wrapper drives the error-key log: which outcome of which call
 * marks a key as failing, which clears it, and that the map always says what
 * the history of calls says, across compactions and drained restarts.
 */
module CacheErrors {
  import opened Collections
  import opened ErrorLog
  import Strs

  datatype Result = Success | Error(msg: string)

  datatype UpdateResult = Updated | NotFound | Conflict | UpdateError(msg: string)

  /** One call on the wrapper with what the serializer and the store answered. */
  datatype Call =
    | Create(key: string, encode: Result, store: Result)
    | Delete(key: string, store: Result)
    | Update(key: string, encode: Result, update: UpdateResult)
    | ReplaceComponentList(keys: set<string>, encode: Result, store: Result)
    | DeleteComponentResources(component: string, store: Result)
    | SaveClusterInfo(key: string, store: Result)

  /** What a call says about keys. */
  datatype Note =
    | Failed(keys: set<string>, msg: string)
    | Cleared(keys: set<string>)
    | Wiped(component: string)
    | Nothing

  function NoteOfStore(keys: set<string>, store: Result, prefix: string): Note
  {
    match store
    case Success => Cleared(keys)
    case Error(msg) => Failed(keys, prefix + msg)
  }

  function NoteOf(call: Call): Note
  {
    match call
    case Create(key, encode, store) =>
      if encode.Error? then Failed({key}, encode.msg) else NoteOfStore({key}, store, "")
    case Delete(key, store) => NoteOfStore({key}, store, "failed to delete, ")
    case Update(key, encode, update) =>
      if encode.Error? then Failed({key}, encode.msg) else (
        match update
        case Updated => Cleared({key})
        case NotFound => Nothing
        case Conflict => Nothing
        case UpdateError(msg) => Failed({key}, msg))
    case ReplaceComponentList(keys, encode, store) =>
      if encode.Error? then Failed(keys, encode.msg) else NoteOfStore(keys, store, "")
    case DeleteComponentResources(component, store) =>
      if store.Error? then Nothing else Wiped(component)
    case SaveClusterInfo(key, store) => NoteOfStore({key}, store, "failed to store cluster info, ")
  }

  predicate BelongsTo(key: string, component: string)
  {
    component + "/" <= key
  }

  /**
   * The meaning of a history, read backwards from its latest call: the message
   * of the latest failure on the key, unless a success or a wipe of its
   * component came after it.
   */
  function LatestFailure(history: seq<Call>, key: string): Option<string>
  {
    if history == [] then None
    else
      var earlier := history[..|history| - 1];
      match NoteOf(history[|history| - 1])
      case Failed(keys, msg) => if key in keys then Some(msg) else LatestFailure(earlier, key)
      case Cleared(keys) => if key in keys then None else LatestFailure(earlier, key)
      case Wiped(component) => if BelongsTo(key, component) then None else LatestFailure(earlier, key)
      case Nothing => LatestFailure(earlier, key)
  }

  // ---------- the puts and dels behind a note ----------

  /** The keys a note makes the wrapper touch, given the current map. */
  function Touched(keys: Keys, note: Note): set<string>
  {
    match note
    case Failed(ks, _) => ks
    case Cleared(ks) => ks
    case Wiped(component) => set k | k in keys && BelongsTo(k, component)
    case Nothing => {}
  }

  function RecordStep(note: Note, key: string): Step
  {
    if note.Failed? then PutKey(key, note.msg) else DelKey(key)
  }

  function RecordSteps(note: Note, order: seq<string>): seq<Step>
  {
    seq(|order|, i requires 0 <= i < |order| => RecordStep(note, order[i]))
  }

  /** The named keys say what the note says, the others what they said before. */
  ghost predicate Recorded(before: Keys, after: Keys, note: Note, order: seq<string>)
  {
    forall k :: Lookup(after, k) ==
                if k in order then (if note.Failed? then Some(note.msg) else None) else Lookup(before, k)
  }

  lemma RecordedSnoc(before: Keys, s: State, note: Note, front: seq<string>, last: string)
    requires s.snapshot.None? && Recorded(before, s.keys, note, front)
    ensures Recorded(before, Next(s, RecordStep(note, last)).keys, note, front + [last])
  {
    var s' := Next(s, RecordStep(note, last));
    forall k
      ensures Lookup(s'.keys, k) ==
              if k in front + [last] then (if note.Failed? then Some(note.msg) else None) else Lookup(before, k)
    {
      assert Lookup(s'.keys, k) == if k == last then (if note.Failed? then Some(note.msg) else None)
             else Lookup(s.keys, k);
    }
  }

  /** A prefix of the puts and dels settles exactly the keys it names. */
  lemma {:induction false} RecordStepsRun(s: State, note: Note, order: seq<string>)
    requires s.snapshot.None?
    ensures ValidRun(s, RecordSteps(note, order))
    ensures var s' := Run(s, RecordSteps(note, order));
            s'.snapshot.None? && s'.persisting == s.persisting && Recorded(s.keys, s'.keys, note, order)
  {
    if order != [] {
      var front, last := order[..|order| - 1], order[|order| - 1];
      RecordStepsRun(s, note, front);
      RecordStepsSnoc(s, note, front, last);
      RecordedSnoc(s.keys, Run(s, RecordSteps(note, front)), note, front, last);
      assert front + [last] == order;
    }
  }

  lemma RecordStepsSnoc(s: State, note: Note, front: seq<string>, last: string)
    requires s.snapshot.None? && ValidRun(s, RecordSteps(note, front))
    requires Run(s, RecordSteps(note, front)).snapshot.None?
    ensures ValidRun(s, RecordSteps(note, front + [last]))
    ensures Run(s, RecordSteps(note, front + [last])) ==
            Next(Run(s, RecordSteps(note, front)), RecordStep(note, last))
  {
    var step := RecordStep(note, last);
    assert RecordSteps(note, front + [last]) == RecordSteps(note, front) + [step];
    RunConcat(s, RecordSteps(note, front), [step]);
  }

  // ---------- whole runs ----------

  datatype SystemStep =
    | WrapperCall(call: Call, order: seq<string>)  // the order in which its map loop visits the keys
    | Background(step: Step)                       // writer, compaction, or a restart

  /** A restart comes with an empty queue and a file that is in step. */
  ghost predicate SystemEnabled(s: State, step: SystemStep)
  {
    match step
    case WrapperCall(call, order) =>
      s.snapshot.None? && Enumerates(order, Touched(s.keys, NoteOf(call)))
    case Background(b) =>
      && Enabled(s, b)
      && !b.PutKey? && !b.DelKey?
      && (b.Crash? ==> b.cut.NotBegun? && s.persisting && Backlog(s) == [] && Synced(s))
  }

  ghost function SystemNext(s: State, step: SystemStep): State
    requires SystemEnabled(s, step)
  {
    match step
    case WrapperCall(call, order) =>
      RecordStepsRun(s, NoteOf(call), order);
      Run(s, RecordSteps(NoteOf(call), order))
    case Background(b) => Next(s, b)
  }

  ghost predicate SystemRunValid(s: State, steps: seq<SystemStep>)
    decreases |steps|
  {
    steps == [] || (SystemEnabled(s, steps[0]) && SystemRunValid(SystemNext(s, steps[0]), steps[1..]))
  }

  ghost function SystemRun(s: State, steps: seq<SystemStep>): State
    requires SystemRunValid(s, steps)
    decreases |steps|
  {
    if steps == [] then s else SystemRun(SystemNext(s, steps[0]), steps[1..])
  }

  function Calls(steps: seq<SystemStep>): seq<Call>
  {
    if steps == [] then []
    else (if steps[0].WrapperCall? then [steps[0].call] else []) + Calls(steps[1..])
  }

  /** The map says what the history says. */
  ghost predicate Tells(s: State, history: seq<Call>)
  {
    Covered(s) && forall k :: Lookup(s.keys, k) == LatestFailure(history, k)
  }

  lemma CallKeepsTelling(s: State, history: seq<Call>, call: Call, order: seq<string>)
    requires Tells(s, history) && SystemEnabled(s, WrapperCall(call, order))
    ensures Tells(SystemNext(s, WrapperCall(call, order)), history + [call])
  {
    var note := NoteOf(call);
    var steps := RecordSteps(note, order);
    RecordStepsRun(s, note, order);
    CoveredRun(s, steps);
    var s' := Run(s, steps);
    assert (history + [call])[..|history|] == history;
    forall k ensures Lookup(s'.keys, k) == LatestFailure(history + [call], k)
    {
      assert Lookup(s.keys, k) == LatestFailure(history, k);
    }
  }

  lemma BackgroundKeepsTelling(s: State, history: seq<Call>, b: Step)
    requires Tells(s, history) && SystemEnabled(s, Background(b))
    ensures Tells(Next(s, b), history)
  {
    CoveredStep(s, b);
    if b.Crash? {
      assert Decode(s.lines) + Backlog(s) == Decode(s.lines);
    }
  }

  /**
   * In every run of wrapper calls, writes that may fail, compactions whose
   * rename or reopen may fail, and restarts with the file in step, a key is in
   * the error map exactly when its latest recorded outcome was a failure not
   * followed by a wipe, with that failure's message.
   */
  lemma {:induction false} ErrorMapTellsHistory(s: State, history: seq<Call>, steps: seq<SystemStep>)
    requires Tells(s, history) && SystemRunValid(s, steps)
    ensures Tells(SystemRun(s, steps), history + Calls(steps))
    decreases |steps|
  {
    if steps == [] {
      assert history + Calls(steps) == history;
    } else {
      var s' := SystemNext(s, steps[0]);
      match steps[0] {
        case WrapperCall(call, order) =>
          CallKeepsTelling(s, history, call, order);
          ErrorMapTellsHistory(s', history + [call], steps[1..]);
          assert history + [call] + Calls(steps[1..]) == history + Calls(steps);
        case Background(b) =>
          BackgroundKeepsTelling(s, history, b);
          ErrorMapTellsHistory(s', history, steps[1..]);
          assert Calls(steps) == Calls(steps[1..]);
      }
    }
  }

  lemma FreshTellsNothing()
    ensures Tells(Fresh, []) && Synced(Fresh) && SnapshotWhole(Fresh)
  {
    assert Decode(Fresh.lines) + Backlog(Fresh) == [];
    forall k ensures Lookup(Fresh.keys, k) == LatestFailure([], k) {}
  }

  /** From the first start on, the map tells exactly the calls made so far. */
  lemma MapTellsAllCalls(steps: seq<SystemStep>, k: string)
    requires SystemRunValid(Fresh, steps)
    ensures Lookup(SystemRun(Fresh, steps).keys, k) == LatestFailure(Calls(steps), k)
  {
    FreshTellsNothing();
    ErrorMapTellsHistory(Fresh, [], steps);
    assert [] + Calls(steps) == Calls(steps);
  }

  // ---------- the law in terms of the calls themselves ----------

  /** The call has something to say about k: it is one of its keys, or below the component it wiped. */
  predicate Concerns(call: Call, k: string)
  {
    match call
    case Create(key, _, _) => k == key
    case Delete(key, _) => k == key
    case Update(key, encode, update) => k == key && (encode.Error? || update.Updated? || update.UpdateError?)
    case ReplaceComponentList(keys, _, _) => k in keys
    case DeleteComponentResources(component, store) => store.Success? && component + "/" <= k
    case SaveClusterInfo(key, _) => k == key
  }

  /** What it says: the message of the first thing that failed, with the prefix of the call, or that nothing did. */
  function Message(call: Call): Option<string>
  {
    match call
    case Create(_, Error(msg), _) => Some(msg)
    case Create(_, Success, Error(msg)) => Some(msg)
    case Delete(_, Error(msg)) => Some("failed to delete, " + msg)
    case Update(_, Error(msg), _) => Some(msg)
    case Update(_, Success, UpdateError(msg)) => Some(msg)
    case ReplaceComponentList(_, Error(msg), _) => Some(msg)
    case ReplaceComponentList(_, Success, Error(msg)) => Some(msg)
    case SaveClusterInfo(_, Error(msg)) => Some("failed to store cluster info, " + msg)
    case _ => None
  }

  /** Call i is the latest that concerns k. */
  predicate IsLatest(history: seq<Call>, k: string, i: nat)
  {
    i < |history| && Concerns(history[i], k) && forall j :: i < j < |history| ==> !Concerns(history[j], k)
  }

  lemma NoteSays(call: Call, k: string, before: Option<string>)
    ensures (match NoteOf(call)
             case Failed(keys, msg) => if k in keys then Some(msg) else before
             case Cleared(keys) => if k in keys then None else before
             case Wiped(component) => if BelongsTo(k, component) then None else before
             case Nothing => before) == if Concerns(call, k) then Message(call) else before
  {
    if call.Create? && call.store.Error? { assert "" + call.store.msg == call.store.msg; }
    if call.ReplaceComponentList? && call.store.Error? { assert "" + call.store.msg == call.store.msg; }
  }

  lemma {:induction false} LatestFailureIsLatest(history: seq<Call>, k: string)
    ensures forall i: nat :: IsLatest(history, k, i) ==> LatestFailure(history, k) == Message(history[i])
    ensures (forall i :: 0 <= i < |history| ==> !Concerns(history[i], k)) ==> LatestFailure(history, k) == None
  {
    if history != [] {
      var n := |history| - 1;
      LatestFailureIsLatest(history[..n], k);
      NoteSays(history[n], k, LatestFailure(history[..n], k));
      forall i: nat | IsLatest(history, k, i) ensures LatestFailure(history, k) == Message(history[i])
      {
        if i < n { assert IsLatest(history[..n], k, i); }
      }
    }
  }

  /**
   * From the first start on, in every run of calls, failing writes, compactions
   * and restarts: the map says about a key what the latest call that concerns
   * it said, and nothing if there was none.
   */
  lemma LatestCallDecides(steps: seq<SystemStep>, k: string)
    requires SystemRunValid(Fresh, steps)
    ensures forall i: nat :: IsLatest(Calls(steps), k, i) ==>
              Lookup(SystemRun(Fresh, steps).keys, k) == Message(Calls(steps)[i])
    ensures (forall i :: 0 <= i < |Calls(steps)| ==> !Concerns(Calls(steps)[i], k)) ==>
              Lookup(SystemRun(Fresh, steps).keys, k) == None
  {
    MapTellsAllCalls(steps, k);
    LatestFailureIsLatest(Calls(steps), k);
  }

  /** No key's latest call failed. */
  ghost predicate AllWell(calls: seq<Call>)
  {
    forall k, i: nat :: IsLatest(calls, k, i) ==> Message(calls[i]).None?
  }

  lemma NothingFailsIff(keys: Keys, calls: seq<Call>)
    requires forall k :: Lookup(keys, k) == LatestFailure(calls, k)
    ensures keys == map[] <==> AllWell(calls)
  {
    forall k, i: nat | IsLatest(calls, k, i) ensures Lookup(keys, k) == Message(calls[i])
    {
      LatestFailureIsLatest(calls, k);
    }
    if keys != map[] {
      var k :| k in keys;
      assert Lookup(keys, k).Some?;
      LatestFailureIsLatest(calls, k);
      var i := LatestOf(calls, k);
    }
  }

  /** Nothing is reported exactly when no key's latest call failed. */
  lemma NothingReportedIff(steps: seq<SystemStep>)
    requires SystemRunValid(Fresh, steps)
    ensures SystemRun(Fresh, steps).keys == map[] <==> AllWell(Calls(steps))
  {
    forall k ensures Lookup(SystemRun(Fresh, steps).keys, k) == LatestFailure(Calls(steps), k)
    {
      MapTellsAllCalls(steps, k);
    }
    NothingFailsIff(SystemRun(Fresh, steps).keys, Calls(steps));
  }

  lemma {:induction false} LatestOf(history: seq<Call>, k: string) returns (i: nat)
    requires exists j :: 0 <= j < |history| && Concerns(history[j], k)
    ensures IsLatest(history, k, i)
  {
    var n := |history| - 1;
    if Concerns(history[n], k) {
      i := n;
    } else {
      var j :| 0 <= j < |history| && Concerns(history[j], k);
      assert Concerns(history[..n][j], k);
      i := LatestOf(history[..n], k);
    }
  }

  /** A component is the first element of a key's path. */
  lemma {:induction false} WipesFirstElement(component: string, k: string)
    requires '/' !in component
    ensures component + "/" <= k <==> |Strs.Split(k, '/')| > 1 && Strs.Split(k, '/')[0] == component
    decreases |component|
  {
    if component != "" && k != "" && k[0] == component[0] {
      WipesFirstElement(component[1..], k[1..]);
      PrefixByHead(component, k);
      assert component == [component[0]] + component[1..];
    }
  }

  lemma PrefixByHead(component: string, k: string)
    requires component != "" && k != "" && k[0] == component[0]
    ensures component + "/" <= k <==> component[1..] + "/" <= k[1..]
  {
    assert component + "/" == [component[0]] + (component[1..] + "/");
    assert k == [k[0]] + k[1..];
  }

  /**
   * And while no write call fails, of the writer or of a compaction, the file
   * stays in step, so that every restart with an empty queue is such a one.
   */
  lemma {:induction false} FileStaysInStep(s: State, steps: seq<SystemStep>)
    requires Covered(s) && Synced(s) && SnapshotWhole(s) && SystemRunValid(s, steps)
    requires forall i :: 0 <= i < |steps| && steps[i].Background? ==> !FailsToWrite(steps[i].step)
    ensures Synced(SystemRun(s, steps))
    decreases |steps|
  {
    if steps != [] {
      var s' := SystemNext(s, steps[0]);
      match steps[0] {
        case WrapperCall(call, order) =>
          var puts := RecordSteps(NoteOf(call), order);
          RecordStepsRun(s, NoteOf(call), order);
          CoveredRun(s, puts);
          assert Tidy(puts);
          SyncedRun(s, puts);
        case Background(b) =>
          CoveredStep(s, b);
          SyncedStep(s, b);
          WholeStep(s, b);
      }
      FileStaysInStep(s', steps[1..]);
    }
  }

  // ---------- after persistence has been given up ----------

  lemma {:induction false} ShutDownFreezesFile(s: State, steps: seq<SystemStep>)
    requires !s.persisting && s.snapshot.None? && SystemRunValid(s, steps)
    ensures SystemRun(s, steps).lines == s.lines && !SystemRun(s, steps).persisting
    decreases |steps|
  {
    if steps != [] {
      match steps[0] {
        case WrapperCall(call, order) =>
          RecordStepsRun(s, NoteOf(call), order);
          RecordingFreezesFile(s, NoteOf(call), order);
        case Background(_) =>
      }
      ShutDownFreezesFile(SystemNext(s, steps[0]), steps[1..]);
    }
  }

  lemma {:induction false} RecordingFreezesFile(s: State, note: Note, order: seq<string>)
    requires s.snapshot.None? && ValidRun(s, RecordSteps(note, order))
    ensures Run(s, RecordSteps(note, order)).lines == s.lines && Run(s, RecordSteps(note, order)).snapshot.None?
    ensures Run(s, RecordSteps(note, order)).persisting == s.persisting
  {
    if order != [] {
      var front, last := order[..|order| - 1], order[|order| - 1];
      RecordStepsRun(s, note, front);
      RecordingFreezesFile(s, note, front);
      RecordStepsSnoc(s, note, front, last);
      assert front + [last] == order;
    }
  }

  /** The file that a compaction leaves behind when it cannot be reopened. */
  function FrozenFile(s: State, renamed: bool): seq<Line>
    requires s.snapshot.Some?
  {
    if renamed then s.snapshot.value.lines else s.lines
  }

  /**
   * When the file cannot be reopened after a compaction, the map goes on telling
   * everything, but the next restart tells what the file said at that moment.
   */
  lemma RestartForgetsSinceShutDown(s: State, history: seq<Call>, renamed: bool, steps: seq<SystemStep>, k: string)
    requires Tells(s, history) && Enabled(s, ReopenFails(renamed)) &&
             SystemRunValid(Next(s, ReopenFails(renamed)), steps)
    ensures var s' := SystemRun(Next(s, ReopenFails(renamed)), steps);
            && Lookup(s'.keys, k) == LatestFailure(history + Calls(steps), k)
            && Lookup(Next(s', Crash(NotBegun)).keys, k) == FinalOutcome(Decode(FrozenFile(s, renamed)), k)
  {
    var down := Next(s, ReopenFails(renamed));
    CoveredStep(s, ReopenFails(renamed));
    ErrorMapTellsHistory(down, history, steps);
    ShutDownFreezesFile(down, steps);
    ReplayAt(map[], Decode(FrozenFile(s, renamed)), k);
  }

  /**
   * The file says about a key what was known at that moment exactly when: the
   * new file had taken the old one's place, and the key was not failing or
   * its record reached the new file; or the old file stayed, and what was still
   * to be written about the key would not have changed what it said.
   */
  lemma FrozenFileKnowsIff(s: State, history: seq<Call>, k: string)
    requires Tells(s, history) && s.snapshot.Some?
    ensures FinalOutcome(Decode(FrozenFile(s, true)), k) == LatestFailure(history, k) <==>
            LatestFailure(history, k).None? || LastOp(Decode(s.snapshot.value.lines), k).Some?
    ensures s.persisting && Synced(s) ==>
            (FinalOutcome(Decode(FrozenFile(s, false)), k) == LatestFailure(history, k) <==>
             LastOp(Backlog(s), k).Some? ==> FinalOutcome(Backlog(s), k) == FinalOutcome(Decode(s.lines), k))
  {
    assert Lookup(s.keys, k) == LatestFailure(history, k);
    if s.persisting && Synced(s) {
      SyncedAt(s, k);
      LastOpConcat(Decode(s.lines), Backlog(s), k);
    }
  }

  // ---------- the object ----------

  function MessagesOf(keys: Keys, order: seq<string>): seq<string>
    requires forall i :: 0 <= i < |order| ==> order[i] in keys
  {
    seq(|order|, i requires 0 <= i < |order| => keys[order[i]])
  }

  class StorageWrapper {
    const errorKeys: ErrorKeys

    constructor (ek: ErrorKeys)
      ensures errorKeys == ek
    {
      errorKeys := ek;
    }

    /** GetCacheResult: how many keys are failing, and their messages in whatever order the map yields them. */
    method GetCacheResult() returns (count: nat, msg: string, ghost order: seq<string>)
      ensures count == |errorKeys.keys| && Enumerates(order, errorKeys.keys.Keys)
      ensures msg == Strs.Join(MessagesOf(errorKeys.keys, order), '\n')
    {
      count := |errorKeys.keys|;
      var keys, left, messages := errorKeys.keys, errorKeys.keys.Keys, [];
      order := [];
      while left != {}
        invariant left <= keys.Keys && Enumerates(order, keys.Keys - left)
        invariant |messages| == |order| && forall i :: 0 <= i < |order| ==>
                  order[i] in keys && messages[i] == keys[order[i]]
        decreases left
      {
        var k :| k in left;
        EnumerationGrows(order, keys.Keys - left, k);
        assert keys.Keys - left + {k} == keys.Keys - (left - {k});
        messages := messages + [keys[k]];
        order := order + [k];
        left := left - {k};
      }
      assert keys.Keys - left == keys.Keys;
      msg := Strs.Join(messages, '\n');
      assert messages == MessagesOf(keys, order);
    }

    /** The loops over a call's keys: one put or del each, in the order the map yields them. */
    method RecordAll(touched: set<string>, ghost note: Note, failed: bool, msg: string)
        returns (ghost order: seq<string>)
      requires errorKeys.snapshot.None?
      requires failed == note.Failed? && (failed ==> msg == note.msg)
      modifies errorKeys
      ensures Enumerates(order, touched)
      ensures ValidRun(old(errorKeys.Abs()), RecordSteps(note, order))
      ensures errorKeys.Abs() == Run(old(errorKeys.Abs()), RecordSteps(note, order))
      ensures forall k :: Lookup(errorKeys.keys, k) ==
                if k !in touched then old(Lookup(errorKeys.keys, k)) else if failed then Some(msg) else None
    {
      var left := touched;
      order := [];
      while left != {}
        invariant left <= touched && errorKeys.snapshot.None?
        invariant forall i :: 0 <= i < |order| ==> order[i] in touched && order[i] !in left
        invariant forall k :: k in touched && k !in left ==> k in order
        invariant forall i, j :: 0 <= i < j < |order| ==> order[i] != order[j]
        invariant ValidRun(old(errorKeys.Abs()), RecordSteps(note, order))
        invariant errorKeys.Abs() == Run(old(errorKeys.Abs()), RecordSteps(note, order))
        decreases left
      {
        var k :| k in left;
        RecordStepsSnoc(old(errorKeys.Abs()), note, order, k);
        if failed {
          errorKeys.PutKey(k, msg);
        } else {
          errorKeys.DelKey(k);
        }
        order := order + [k];
        left := left - {k};
      }
      RecordStepsRun(old(errorKeys.Abs()), note, order);
    }

    method RecordOne(key: string, outcome: Result, prefix: string) returns (ghost order: seq<string>)
      requires errorKeys.snapshot.None?
      modifies errorKeys
      ensures var note := NoteOfStore({key}, outcome, prefix);
              && Enumerates(order, {key})
              && ValidRun(old(errorKeys.Abs()), RecordSteps(note, order))
              && errorKeys.Abs() == Run(old(errorKeys.Abs()), RecordSteps(note, order))
      ensures forall k :: Lookup(errorKeys.keys, k) ==
                if k != key then old(Lookup(errorKeys.keys, k)) else if outcome.Error? then Some(prefix + outcome.msg)
                  else None
    {
      ghost var note := NoteOfStore({key}, outcome, prefix);
      match outcome {
        case Success => order := RecordAll({key}, note, false, "");
        case Error(msg) => order := RecordAll({key}, note, true, prefix + msg);
      }
    }

    method CreateObject(key: string, encode: Result, store: Result) returns (err: Result, ghost order: seq<string>)
      requires errorKeys.snapshot.None?
      modifies errorKeys
      ensures old(SystemEnabled(errorKeys.Abs(), WrapperCall(Create(key, encode, store), order)))
      ensures errorKeys.Abs() == SystemNext(old(errorKeys.Abs()), WrapperCall(Create(key, encode, store), order))
      ensures err == if encode.Error? then encode else store
      ensures forall k :: Lookup(errorKeys.keys, k) ==
                if k != key then old(Lookup(errorKeys.keys, k)) else if encode.Error? then Some(encode.msg)
                else if store.Error? then Some(store.msg) else None
    {
      if encode.Error? {
        order := RecordOne(key, encode, "");
        assert "" + encode.msg == encode.msg;
        return encode, order;
      }
      order := RecordOne(key, store, "");
      assert store.Error? ==> "" + store.msg == store.msg;
      return store, order;
    }

    method DeleteObject(key: string, store: Result) returns (err: Result, ghost order: seq<string>)
      requires errorKeys.snapshot.None?
      modifies errorKeys
      ensures old(SystemEnabled(errorKeys.Abs(), WrapperCall(Delete(key, store), order)))
      ensures errorKeys.Abs() == SystemNext(old(errorKeys.Abs()), WrapperCall(Delete(key, store), order))
      ensures err == store
      ensures forall k :: Lookup(errorKeys.keys, k) ==
                if k != key then old(Lookup(errorKeys.keys, k))
                else if store.Error? then Some("failed to delete, " + store.msg) else None
    {
      order := RecordOne(key, store, "failed to delete, ");
      err := store;
    }

    /** A missing key or a stale version is reported to the caller and recorded nowhere. */
    method UpdateObject(key: string, encode: Result, update: UpdateResult)
        returns (err: UpdateResult, ghost order: seq<string>)
      requires errorKeys.snapshot.None?
      modifies errorKeys
      ensures old(SystemEnabled(errorKeys.Abs(), WrapperCall(Update(key, encode, update), order)))
      ensures errorKeys.Abs() == SystemNext(old(errorKeys.Abs()), WrapperCall(Update(key, encode, update), order))
      ensures err == if encode.Error? then UpdateError(encode.msg) else update
      ensures forall k :: Lookup(errorKeys.keys, k) ==
                if k != key then old(Lookup(errorKeys.keys, k)) else if encode.Error? then Some(encode.msg)
                else if update.NotFound? || update.Conflict? then old(Lookup(errorKeys.keys, k))
                else if update.UpdateError? then Some(update.msg) else None
    {
      order := [];
      if encode.Error? {
        order := RecordOne(key, encode, "");
        assert "" + encode.msg == encode.msg;
        return UpdateError(encode.msg), order;
      }
      match update {
        case NotFound => return update, order;
        case Conflict => return update, order;
        case UpdateError(msg) => order := RecordOne(key, Error(msg), ""); assert "" + msg == msg;
        case Updated => order := RecordOne(key, Success, "");
      }
      err := update;
    }

    method ReplaceList(keys: set<string>, encode: Result, store: Result) returns (err: Result, ghost order: seq<string>)
      requires errorKeys.snapshot.None?
      modifies errorKeys
      ensures old(SystemEnabled(errorKeys.Abs(), WrapperCall(ReplaceComponentList(keys, encode, store), order)))
      ensures errorKeys.Abs() ==
              SystemNext(old(errorKeys.Abs()), WrapperCall(ReplaceComponentList(keys, encode, store), order))
      ensures err == if encode.Error? then encode else store
      ensures forall k :: Lookup(errorKeys.keys, k) ==
                if k !in keys then old(Lookup(errorKeys.keys, k)) else if encode.Error? then Some(encode.msg)
                else if store.Error? then Some(store.msg) else None
    {
      ghost var note := NoteOf(ReplaceComponentList(keys, encode, store));
      if encode.Error? {
        order := RecordAll(keys, note, true, encode.msg);
        return encode, order;
      }
      match store {
        case Success => order := RecordAll(keys, note, false, "");
        case Error(msg) => assert "" + msg == msg; order := RecordAll(keys, note, true, msg);
      }
      err := store;
    }

    method DeleteComponent(component: string, store: Result) returns (err: Result, ghost order: seq<string>)
      requires errorKeys.snapshot.None?
      modifies errorKeys
      ensures old(SystemEnabled(errorKeys.Abs(), WrapperCall(DeleteComponentResources(component, store), order)))
      ensures errorKeys.Abs() ==
              SystemNext(old(errorKeys.Abs()), WrapperCall(DeleteComponentResources(component, store), order))
      ensures err == store
      ensures forall k :: Lookup(errorKeys.keys, k) ==
                if store.Success? && component + "/" <= k then None else old(Lookup(errorKeys.keys, k))
    {
      order := [];
      if store.Error? {
        return store, order;
      }
      var touched := set k | k in errorKeys.keys && BelongsTo(k, component);
      order := RecordAll(touched, Wiped(component), false, "");
      err := store;
    }

    method SaveCluster(key: string, store: Result) returns (err: Result, ghost order: seq<string>)
      requires errorKeys.snapshot.None?
      modifies errorKeys
      ensures old(SystemEnabled(errorKeys.Abs(), WrapperCall(SaveClusterInfo(key, store), order)))
      ensures errorKeys.Abs() == SystemNext(old(errorKeys.Abs()), WrapperCall(SaveClusterInfo(key, store), order))
      ensures err == store
      ensures forall k :: Lookup(errorKeys.keys, k) ==
                if k != key then old(Lookup(errorKeys.keys, k))
                else if store.Error? then Some("failed to store cluster info, " + store.msg) else None
    {
      order := RecordOne(key, store, "failed to store cluster info, ");
      err := store;
    }
  }
}
