/**
 * The error-key log of YurtHub's cache manager: an in-memory map mirrored,
 * through a work queue and one writer goroutine, into an append-only file that
 * is compacted by snapshot-and-rename and replayed after a restart.
 */
module ErrorLog {
  import opened Collections

  datatype Operation = Put(key: string, val: string) | Del(key: string)

  type Keys = map<string, string>

  // ---------- replay ----------

  function Apply(keys: Keys, op: Operation): Keys
  {
    match op
    case Put(k, v) => keys[k := v]
    case Del(k) => keys - {k}
  }

  /** What the second loop of recover() computes from a list of operations. */
  function Replay(keys: Keys, ops: seq<Operation>): Keys
  {
    if ops == [] then keys
    else Apply(Replay(keys, ops[..|ops| - 1]), ops[|ops| - 1])
  }

  function Lookup<T>(keys: map<string, T>, k: string): Option<T>
  {
    if k in keys then Some(keys[k]) else None
  }

  /** The latest operation on k, if any. */
  function LastOp(ops: seq<Operation>, k: string): Option<Operation>
  {
    if ops == [] then None
    else if ops[|ops| - 1].key == k then Some(ops[|ops| - 1])
    else LastOp(ops[..|ops| - 1], k)
  }

  /** What an operation leaves under its key. */
  function Outcome(op: Operation): Option<string>
  {
    if op.Put? then Some(op.val) else None
  }

  lemma {:induction false} ReplayAt(keys: Keys, ops: seq<Operation>, k: string)
    ensures Lookup(Replay(keys, ops), k) ==
            if LastOp(ops, k).Some? then Outcome(LastOp(ops, k).value) else Lookup(keys, k)
  {
    if ops != [] {
      ReplayAt(keys, ops[..|ops| - 1], k);
    }
  }

  lemma SameLookupsSameKeys(a: Keys, b: Keys)
    requires forall k :: Lookup(a, k) == Lookup(b, k)
    ensures a == b
  {
    forall k ensures k in a <==> k in b
    {
      assert Lookup(a, k) == Lookup(b, k);
    }
    forall k | k in a ensures a[k] == b[k]
    {
      assert Lookup(a, k) == Lookup(b, k);
    }
  }

  lemma {:induction false} LastOpConcat(a: seq<Operation>, b: seq<Operation>, k: string)
    ensures LastOp(a + b, k) == if LastOp(b, k).Some? then LastOp(b, k) else LastOp(a, k)
  {
    if b == [] {
      assert a + b == a;
    } else {
      assert (a + b)[..|a + b| - 1] == a + b[..|b| - 1];
      LastOpConcat(a, b[..|b| - 1], k);
    }
  }

  lemma {:induction false} LastOpAbsent(ops: seq<Operation>, k: string)
    requires forall i :: 0 <= i < |ops| ==> ops[i].key != k
    ensures LastOp(ops, k) == None
  {
    if ops != [] {
      LastOpAbsent(ops[..|ops| - 1], k);
    }
  }

  /** ops, replayed over keys, would change nothing. */
  ghost predicate Settled(keys: Keys, ops: seq<Operation>)
  {
    forall k :: LastOp(ops, k).Some? ==> Lookup(keys, k) == Outcome(LastOp(ops, k).value)
  }

  lemma SettledMeansIdle(keys: Keys, ops: seq<Operation>)
    ensures Settled(keys, ops) <==> Replay(keys, ops) == keys
  {
    if Settled(keys, ops) {
      forall k ensures Lookup(Replay(keys, ops), k) == Lookup(keys, k) { ReplayAt(keys, ops, k); }
      SameLookupsSameKeys(Replay(keys, ops), keys);
    }
    if Replay(keys, ops) == keys {
      forall k | LastOp(ops, k).Some? ensures Lookup(keys, k) == Outcome(LastOp(ops, k).value)
      {
        ReplayAt(keys, ops, k);
      }
    }
  }

  /** Replaying any in-order suffix of a history over the state it led to changes nothing. */
  lemma SuffixReplayIsIdle(base: Keys, ops: seq<Operation>, from: nat)
    requires from <= |ops|
    ensures Replay(Replay(base, ops), ops[from..]) == Replay(base, ops)
  {
    forall k | LastOp(ops[from..], k).Some?
      ensures Lookup(Replay(base, ops), k) == Outcome(LastOp(ops[from..], k).value)
    {
      assert ops == ops[..from] + ops[from..];
      LastOpConcat(ops[..from], ops[from..], k);
      ReplayAt(base, ops, k);
    }
    SettledMeansIdle(Replay(base, ops), ops[from..]);
  }

  /** Two logs rebuild the same map from nothing exactly when they end alike on every key. */
  lemma SameReplayIffSameLastOps(delivered: seq<Operation>, issued: seq<Operation>)
    ensures Replay(map[], delivered) == Replay(map[], issued) <==>
            forall k :: FinalOutcome(delivered, k) == FinalOutcome(issued, k)
  {
    forall k
      ensures Lookup(Replay(map[], delivered), k) == FinalOutcome(delivered, k)
      ensures Lookup(Replay(map[], issued), k) == FinalOutcome(issued, k)
    {
      ReplayAt(map[], delivered, k);
      ReplayAt(map[], issued, k);
    }
    if forall k :: FinalOutcome(delivered, k) == FinalOutcome(issued, k) {
      SameLookupsSameKeys(Replay(map[], delivered), Replay(map[], issued));
    }
  }

  function FinalOutcome(ops: seq<Operation>, k: string): Option<string>
  {
    if LastOp(ops, k).Some? then Outcome(LastOp(ops, k).value) else None
  }

  /** A delayed put overtaken by its del brings a cleared key back; a merged repeat put loses a live one. */
  lemma ReorderedOrMergedDeliveryDiverges(k: string, v: string)
    ensures Replay(map[], [Del(k), Put(k, v)]) != Replay(map[], [Put(k, v), Del(k)])
    ensures Replay(map[], [Put(k, v), Del(k)]) != Replay(map[], [Put(k, v), Del(k), Put(k, v)])
  {
    var put, del := Put(k, v), Del(k);
    assert FinalOutcome([del, put], k) == Some(v);
    assert FinalOutcome([put, del], k) == None;
    assert FinalOutcome([put, del, put], k) == Some(v);
    SameReplayIffSameLastOps([del, put], [put, del]);
    SameReplayIffSameLastOps([put, del], [put, del, put]);
  }

  // ---------- the file ----------

  /** One line of the file; recover() skips lines that do not decode. */
  datatype Line = Entry(op: Operation) | Corrupt

  function Decode(lines: seq<Line>): seq<Operation>
  {
    if lines == [] then []
    else
      var rest := Decode(lines[..|lines| - 1]);
      match lines[|lines| - 1]
      case Entry(op) => rest + [op]
      case Corrupt => rest
  }

  /** Writing one line; text written behind a line without a newline joins that line. */
  function AppendLine(lines: seq<Line>, torn: bool, line: Line): seq<Line>
  {
    if torn && lines != [] then lines[..|lines| - 1] + [Corrupt] else lines + [line]
  }

  // ---------- the machine ----------

  /** How far a record got that was not written in full. */
  datatype Cut = NotBegun | InsideRecord | BeforeNewline

  /** The file tmp_aof, and the count that rewrite() will pass on with it. */
  datatype Draft = Draft(lines: seq<Line>, torn: bool, count: nat)

  datatype State = State(
    keys: Keys,                         // ek.keys
    pending: seq<Operation>,            // in the queue, in issue order
    inflight: Option<Operation>,        // taken by the writer, not yet in the file
    lines: seq<Line>,                   // the aof file
    torn: bool,                         // the aof file does not end in a newline
    count: nat,                         // ek.count
    snapshot: Option<Draft>,            // rewrite() holds the read lock, tmp_aof is written
    persisting: bool                    // the queue is not shut down
  )

  datatype Step =
    | PutKey(key: string, val: string)
    | DelKey(key: string)
    | Take(i: nat)                      // queue.Get
    | Write                             // one record appended
    | WriteFails(cut: Cut)              // the write call fails, part of the record written; nobody looks
    // rewrite() up to the closing of tmp_aof; write errors go unnoticed
    | Snapshot(order: seq<string>, fates: seq<Option<Cut>>)
    | Abandon                           // rewrite() gives up waiting
    | Swap                              // swapAOF, rename and reopen succeed
    | RenameFails                       // swapAOF, rename fails, reopen succeeds
    | ReopenFails(renamed: bool)        // swapAOF, reopen fails: queue.ShutDown
    | Crash(cut: Cut)                   // the process dies and is started again

  function InflightOps(s: State): seq<Operation>
  {
    if s.inflight.Some? then [s.inflight.value] else []
  }

  /** Operations already in memory but not yet in the file, in the order they will be written. */
  function Backlog(s: State): seq<Operation>
  {
    InflightOps(s) + s.pending
  }

  /** A record written in full or as far as its write got: the lines, and whether the last one lacks its newline. */
  function AppendRecord(lines: seq<Line>, torn: bool, op: Operation, fate: Option<Cut>): (seq<Line>, bool)
  {
    match fate
    case None => (AppendLine(lines, torn, Entry(op)), false)
    case Some(NotBegun) => (lines, torn)
    case Some(InsideRecord) => (AppendLine(lines, torn, Corrupt), true)
    case Some(BeforeNewline) => (AppendLine(lines, torn, Entry(op)), true)
  }

  /** The loop of rewrite(): one put per key, each with its own fate, and every one of them counted. */
  function DraftOf(keys: Keys, order: seq<string>, fates: seq<Option<Cut>>): Draft
    requires |fates| == |order| && forall i :: 0 <= i < |order| ==> order[i] in keys
  {
    if order == [] then Draft([], false, 0)
    else
      var n := |order| - 1;
      var d := DraftOf(keys, order[..n], fates[..n]);
      var (lines, torn) := AppendRecord(d.lines, d.torn, Put(order[n], keys[order[n]]), fates[n]);
      Draft(lines, torn, d.count + 1)
  }

  predicate AllWritten(fates: seq<Option<Cut>>)
  {
    forall i :: 0 <= i < |fates| ==> fates[i].None?
  }

  /**
   * When a step can happen. put and del need the write lock, which rewrite()
   * excludes. Take states the premise on the queue: every operation is handed
   * over once, and operations on one key in the order they were issued.
   * Nothing is asked of the queue's length when the files are swapped.
   */
  predicate Enabled(s: State, step: Step)
  {
    match step
    case PutKey(_, _) => s.snapshot.None?
    case DelKey(_) => s.snapshot.None?
    case Take(i) =>
      && s.inflight.None?
      && i < |s.pending|
      && (forall j :: 0 <= j < i ==> s.pending[j].key != s.pending[i].key)
    case Write => s.inflight.Some?
    case WriteFails(_) => s.inflight.Some?
    case Snapshot(order, fates) =>
      s.persisting && s.snapshot.None? && Enumerates(order, s.keys.Keys) && |fates| == |order|
    case Abandon => s.snapshot.Some?
    case Swap => s.snapshot.Some?
    case RenameFails => s.snapshot.Some?
    case ReopenFails(_) => s.snapshot.Some?
    case Crash(cut) => !cut.NotBegun? ==> s.inflight.Some? && s.persisting
  }

  function Issue(s: State, keys: Keys, op: Operation): State
  {
    if s.persisting then s.(keys := keys, pending := s.pending + [op]) else s.(keys := keys)
  }

  function Restart(lines: seq<Line>, torn: bool): State
  {
    State(Replay(map[], Decode(lines)), [], None, lines, torn, 0, None, true)
  }

  /** processNextOperator behind the queue: the record is counted whatever became of it. */
  function Written(s: State, fate: Option<Cut>): State
    requires s.inflight.Some?
  {
    var s' := s.(inflight := None, count := s.count + 1);
    if s.persisting then
      var (lines, torn) := AppendRecord(s.lines, s.torn, s.inflight.value, fate);
      s'.(lines := lines, torn := torn)
    else s'
  }

  function Next(s: State, step: Step): State
    requires Enabled(s, step)
  {
    match step
    case PutKey(k, v) => Issue(s, s.keys[k := v], Put(k, v))
    case DelKey(k) => if k in s.keys then Issue(s, s.keys - {k}, Del(k)) else s
    case Take(i) => s.(inflight := Some(s.pending[i]), pending := s.pending[..i] + s.pending[i + 1..])
    case Write => Written(s, None)
    case WriteFails(cut) => Written(s, Some(cut))
    case Snapshot(order, fates) => s.(snapshot := Some(DraftOf(s.keys, order, fates)))
    case Abandon => s.(snapshot := None)
    case Swap =>
      var d := s.snapshot.value;
      s.(lines := d.lines, torn := d.torn, count := d.count, snapshot := None)
    case RenameFails => s.(snapshot := None)
    case ReopenFails(renamed) =>
      var s' := s.(snapshot := None, persisting := false);
      if renamed then s'.(lines := s.snapshot.value.lines, torn := s.snapshot.value.torn) else s'
    case Crash(cut) =>
      match cut
      case NotBegun => Restart(s.lines, s.torn)
      case InsideRecord => Restart(AppendLine(s.lines, s.torn, Corrupt), true)
      case BeforeNewline => Restart(AppendLine(s.lines, s.torn, Entry(s.inflight.value)), true)
  }

  predicate ValidRun(s: State, steps: seq<Step>)
    decreases |steps|
  {
    steps == [] || (Enabled(s, steps[0]) && ValidRun(Next(s, steps[0]), steps[1..]))
  }

  function Run(s: State, steps: seq<Step>): State
    requires ValidRun(s, steps)
    decreases |steps|
  {
    if steps == [] then s else Run(Next(s, steps[0]), steps[1..])
  }

  // ---------- what every step keeps ----------

  /** The file will never take the map anywhere else: replaying the backlog over the map is idle. */
  ghost predicate Covered(s: State)
  {
    && (s.persisting ==> Settled(s.keys, Backlog(s)))
    && (s.snapshot.Some? ==> PutsOf(s.keys, Decode(s.snapshot.value.lines)))
  }

  /** Nothing but puts that say what the map says. */
  ghost predicate PutsOf(keys: Keys, ops: seq<Operation>)
  {
    forall k :: LastOp(ops, k).Some? ==> k in keys && LastOp(ops, k).value == Put(k, keys[k])
  }

  /** A snapshot in progress lacks nothing. */
  ghost predicate SnapshotWhole(s: State)
  {
    s.snapshot.Some? ==>
      var d := s.snapshot.value;
      !d.torn && d.count == |d.lines| && Replay(map[], Decode(d.lines)) == s.keys
  }

  /** The file and then the backlog, replayed from nothing, give exactly the map. */
  ghost predicate Synced(s: State)
  {
    !s.torn && (s.persisting ==> Replay(map[], Decode(s.lines) + Backlog(s)) == s.keys)
  }

  ghost predicate Counted(s: State)
  {
    s.persisting ==> s.count == |s.lines|
  }

  const Fresh := State(map[], [], None, [], false, 0, None, true)

  // ---------- what becomes of a snapshot ----------

  /** The last line lacks its newline: the last write that got anywhere was cut. */
  predicate TornAfter(fates: seq<Option<Cut>>)
  {
    if fates == [] then false
    else
      var n := |fates| - 1;
      if fates[n] == Some(NotBegun) then TornAfter(fates[..n]) else fates[n].Some?
  }

  /** The keys whose put was written in full behind a whole line. */
  function SafeKeys(order: seq<string>, fates: seq<Option<Cut>>): set<string>
    requires |fates| == |order|
  {
    if order == [] then {}
    else
      var n := |order| - 1;
      SafeKeys(order[..n], fates[..n]) + if fates[n].None? && !TornAfter(fates[..n]) then {order[n]} else {}
  }

  /** All lines but an unfinished last one. */
  function Body(d: Draft): seq<Line>
  {
    if d.torn && d.lines != [] then d.lines[..|d.lines| - 1] else d.lines
  }

  /** An unfinished last line holds a put of the map, or nothing that decodes. */
  predicate TailFits(keys: Keys, d: Draft)
  {
    d.torn ==>
      && d.lines != []
      && var last := d.lines[|d.lines| - 1];
         last.Entry? ==> last.op.Put? && last.op.key in keys && last.op.val == keys[last.op.key]
  }

  /** The finished lines of d say exactly what the map says about the safe keys. */
  ghost predicate BodyTells(keys: Keys, d: Draft, safe: set<string>)
  {
    OpsTell(keys, Decode(Body(d)), safe)
  }

  ghost predicate OpsTell(keys: Keys, ops: seq<Operation>, safe: set<string>)
  {
    forall k :: LastOp(ops, k) == if k in safe && k in keys then Some(Put(k, keys[k])) else None
  }

  lemma AppendBody(d: Draft, op: Operation, fate: Option<Cut>)
    requires d.torn ==> d.lines != []
    ensures var (lines, torn) := AppendRecord(d.lines, d.torn, op, fate);
            var body := Decode(Body(Draft(lines, torn, d.count + 1)));
            body == if fate.None? && !d.torn then Decode(Body(d)) + [op] else Decode(Body(d))
  {
    var (lines, torn) := AppendRecord(d.lines, d.torn, op, fate);
    var front := Body(d);
    match fate {
      case None =>
        assert lines == front + [if d.torn then Corrupt else Entry(op)];
        assert lines[..|front|] == front;
      case Some(NotBegun) =>
      case Some(_) => assert lines[..|lines| - 1] == front;
    }
  }

  lemma {:induction false} DraftTells(keys: Keys, order: seq<string>, fates: seq<Option<Cut>>)
    requires |fates| == |order| && forall i :: 0 <= i < |order| ==> order[i] in keys
    ensures var d := DraftOf(keys, order, fates);
            && d.torn == TornAfter(fates) && d.count == |order| && TailFits(keys, d)
            && BodyTells(keys, d, SafeKeys(order, fates))
  {
    if order != [] {
      var n := |order| - 1;
      DraftTells(keys, order[..n], fates[..n]);
      var d := DraftOf(keys, order[..n], fates[..n]);
      var op := Put(order[n], keys[order[n]]);
      AppendBody(d, op, fates[n]);
      AppendedTells(keys, d, SafeKeys(order[..n], fates[..n]), op, fates[n]);
    }
  }

  lemma AppendTail(keys: Keys, d: Draft, op: Operation, fate: Option<Cut>)
    requires TailFits(keys, d) && op.Put? && op.key in keys && op.val == keys[op.key]
    ensures var (lines, torn) := AppendRecord(d.lines, d.torn, op, fate);
            TailFits(keys, Draft(lines, torn, d.count + 1))
  {
  }

  lemma AppendedTells(keys: Keys, d: Draft, safe: set<string>, op: Operation, fate: Option<Cut>)
    requires TailFits(keys, d) && BodyTells(keys, d, safe) && op.Put? && op.key in keys && op.val == keys[op.key]
    ensures var (lines, torn) := AppendRecord(d.lines, d.torn, op, fate);
            var d' := Draft(lines, torn, d.count + 1);
            TailFits(keys, d') && BodyTells(keys, d', safe + if fate.None? && !d.torn then {op.key} else {})
  {
    AppendBody(d, op, fate);
    AppendTail(keys, d, op, fate);
    OpsTellOneMore(keys, Decode(Body(d)), safe, op);
    assert safe + {} == safe;
  }

  lemma OpsTellOneMore(keys: Keys, ops: seq<Operation>, safe: set<string>, op: Operation)
    requires op.Put? && op.key in keys && op.val == keys[op.key] && OpsTell(keys, ops, safe)
    ensures OpsTell(keys, ops + [op], safe + {op.key})
  {
    forall k ensures LastOp(ops + [op], k) == if op.key == k then Some(op) else LastOp(ops, k)
    {
      LastOpSnoc(ops, op, k);
    }
  }

  lemma LastOpSnoc(ops: seq<Operation>, op: Operation, k: string)
    ensures LastOp(ops + [op], k) == if op.key == k then Some(op) else LastOp(ops, k)
  {
    assert (ops + [op])[..|ops|] == ops;
  }

  /** With its unfinished line too, a snapshot holds nothing but puts of the map. */
  lemma DraftFits(keys: Keys, d: Draft, safe: set<string>)
    requires TailFits(keys, d) && BodyTells(keys, d, safe)
    ensures PutsOf(keys, Decode(d.lines))
  {
    forall k | LastOp(Decode(d.lines), k).Some? ensures k in keys && LastOp(Decode(d.lines), k).value == Put(k, keys[k])
    {
      assert LastOp(Decode(Body(d)), k) == if k in safe && k in keys then Some(Put(k, keys[k])) else None;
      if d.torn && d.lines[|d.lines| - 1].Entry? {
        var op := d.lines[|d.lines| - 1].op;
        assert Decode(d.lines) == Decode(Body(d)) + [op];
        assert (Decode(Body(d)) + [op])[..|Decode(Body(d))|] == Decode(Body(d));
      }
    }
  }

  lemma SnapshotFits(keys: Keys, order: seq<string>, fates: seq<Option<Cut>>)
    requires Enumerates(order, keys.Keys) && |fates| == |order|
    ensures PutsOf(keys, Decode(DraftOf(keys, order, fates).lines))
  {
    DraftTells(keys, order, fates);
    DraftFits(keys, DraftOf(keys, order, fates), SafeKeys(order, fates));
  }

  lemma {:induction false} WrittenIsSafe(order: seq<string>, fates: seq<Option<Cut>>)
    requires |fates| == |order| && AllWritten(fates)
    ensures !TornAfter(fates) && SafeKeys(order, fates) == SetOf(order)
  {
    if order != [] {
      var n := |order| - 1;
      WrittenIsSafe(order[..n], fates[..n]);
      assert order == order[..n] + [order[n]];
    }
  }

  lemma {:induction false} WrittenLines(keys: Keys, order: seq<string>, fates: seq<Option<Cut>>)
    requires |fates| == |order| && (forall i :: 0 <= i < |order| ==> order[i] in keys) && AllWritten(fates)
    ensures var d := DraftOf(keys, order, fates); !d.torn && |d.lines| == |order|
  {
    if order != [] {
      WrittenLines(keys, order[..|order| - 1], fates[..|order| - 1]);
    }
  }

  /** The puts written for a map in any order, none of them lost, replay to that map. */
  lemma SnapshotIsTheMap(keys: Keys, order: seq<string>, fates: seq<Option<Cut>>)
    requires Enumerates(order, keys.Keys) && |fates| == |order| && AllWritten(fates)
    ensures var d := DraftOf(keys, order, fates);
            !d.torn && d.count == |d.lines| && Replay(map[], Decode(d.lines)) == keys
  {
    var d := DraftOf(keys, order, fates);
    DraftTells(keys, order, fates);
    WrittenIsSafe(order, fates);
    WrittenLines(keys, order, fates);
    forall k ensures Lookup(Replay(map[], Decode(d.lines)), k) == Lookup(keys, k)
    {
      ReplayAt(map[], Decode(d.lines), k);
      assert LastOp(Decode(Body(d)), k) == if k in SafeKeys(order, fates) && k in keys then Some(Put(k, keys[k]))
             else None;
      assert k in keys ==> k in keys.Keys && k in order;
    }
    SameLookupsSameKeys(Replay(map[], Decode(d.lines)), keys);
  }

  /** Taking an operation past others on other keys leaves every key's last operation alone. */
  lemma TakeKeepsLastOps(p: seq<Operation>, i: nat, k: string)
    requires i < |p| && forall j :: 0 <= j < i ==> p[j].key != p[i].key
    ensures LastOp([p[i]] + (p[..i] + p[i + 1..]), k) == LastOp(p, k)
  {
    var a, b := p[..i], p[i + 1..];
    assert p == (a + [p[i]]) + b;
    LastOpConcat(a + [p[i]], b, k);
    LastOpConcat(a, [p[i]], k);
    LastOpConcat([p[i]], a + b, k);
    LastOpConcat(a, b, k);
    if p[i].key == k {
      LastOpAbsent(a, k);
    }
  }

  lemma IssueKeepsCovered(s: State, keys: Keys, op: Operation)
    requires Settled(s.keys, Backlog(s)) && keys == Apply(s.keys, op)
    ensures Settled(keys, Backlog(s) + [op])
  {
    forall k | LastOp(Backlog(s) + [op], k).Some?
      ensures Lookup(keys, k) == Outcome(LastOp(Backlog(s) + [op], k).value)
    {
      LastOpConcat(Backlog(s), [op], k);
      assert LastOp([op], k) == if op.key == k then Some(op) else LastOp([], k);
    }
  }

  lemma WriteKeepsSettled(s: State)
    requires s.inflight.Some? && Settled(s.keys, Backlog(s))
    ensures Settled(s.keys, s.pending)
  {
    forall k | LastOp(s.pending, k).Some?
      ensures Lookup(s.keys, k) == Outcome(LastOp(s.pending, k).value)
    {
      LastOpConcat(InflightOps(s), s.pending, k);
    }
  }

  lemma PutKeepsCovered(s: State, k: string, v: string)
    requires Covered(s) && Enabled(s, PutKey(k, v))
    ensures Covered(Next(s, PutKey(k, v)))
  {
    if s.persisting {
      IssueKeepsCovered(s, s.keys[k := v], Put(k, v));
      assert Backlog(Next(s, PutKey(k, v))) == Backlog(s) + [Put(k, v)];
    }
  }

  lemma DelKeepsCovered(s: State, k: string)
    requires Covered(s) && Enabled(s, DelKey(k))
    ensures Covered(Next(s, DelKey(k)))
  {
    if s.persisting && k in s.keys {
      IssueKeepsCovered(s, s.keys - {k}, Del(k));
      assert Backlog(Next(s, DelKey(k))) == Backlog(s) + [Del(k)];
    }
  }

  lemma TakeKeepsCovered(s: State, i: nat)
    requires Covered(s) && Enabled(s, Take(i))
    ensures Covered(Next(s, Take(i)))
  {
    var s' := Next(s, Take(i));
    assert Backlog(s) == s.pending;
    assert Backlog(s') == [s.pending[i]] + (s.pending[..i] + s.pending[i + 1..]);
    forall k ensures LastOp(Backlog(s'), k) == LastOp(Backlog(s), k)
    {
      TakeKeepsLastOps(s.pending, i, k);
    }
  }

  lemma HandedOverKeepsCovered(s: State, s': State)
    requires Covered(s) && s.inflight.Some?
    requires s'.keys == s.keys && s'.pending == s.pending && s'.inflight.None? && s'.persisting == s.persisting
    requires s'.snapshot == s.snapshot
    ensures Covered(s')
  {
    assert Backlog(s') == s.pending;
    if s.persisting { WriteKeepsSettled(s); }
  }

  lemma CoveredStep(s: State, step: Step)
    requires Covered(s) && Enabled(s, step)
    ensures Covered(Next(s, step))
  {
    match step {
      case PutKey(k, v) => PutKeepsCovered(s, k, v);
      case DelKey(k) => DelKeepsCovered(s, k);
      case Take(i) => TakeKeepsCovered(s, i);
      case Write => HandedOverKeepsCovered(s, Next(s, step));
      case WriteFails(_) => HandedOverKeepsCovered(s, Next(s, step));
      case Snapshot(order, fates) => SnapshotFits(s.keys, order, fates);
      case _ =>
    }
  }

  /** In every run the backlog stays idle over the map, torn writes and failed renames included. */
  lemma {:induction false} CoveredRun(s: State, steps: seq<Step>)
    requires Covered(s) && ValidRun(s, steps)
    ensures Covered(Run(s, steps))
    decreases |steps|
  {
    if steps != [] {
      CoveredStep(s, steps[0]);
      CoveredRun(Next(s, steps[0]), steps[1..]);
    }
  }

  /** The file's outcome for every key, with the backlog behind it. */
  lemma SyncedAt(s: State, k: string)
    requires s.persisting && Synced(s)
    ensures FinalOutcome(Decode(s.lines) + Backlog(s), k) == Lookup(s.keys, k)
  {
    ReplayAt(map[], Decode(s.lines) + Backlog(s), k);
  }

  lemma SyncedFromOutcomes(s: State)
    requires !s.torn
    requires forall k :: FinalOutcome(Decode(s.lines) + Backlog(s), k) == Lookup(s.keys, k)
    ensures Synced(s)
  {
    var ops := Decode(s.lines) + Backlog(s);
    forall k ensures Lookup(Replay(map[], ops), k) == Lookup(s.keys, k)
    {
      ReplayAt(map[], ops, k);
    }
    SameLookupsSameKeys(Replay(map[], ops), s.keys);
  }

  lemma IssueKeepsSynced(s: State, keys: Keys, op: Operation)
    requires s.persisting && Synced(s) && keys == Apply(s.keys, op)
    ensures Synced(Issue(s, keys, op))
  {
    var s' := Issue(s, keys, op);
    var ops := Decode(s.lines) + Backlog(s);
    assert Decode(s'.lines) + Backlog(s') == ops + [op];
    assert (ops + [op])[..|ops|] == ops;
  }

  lemma TakeKeepsSynced(s: State, i: nat)
    requires s.persisting && Synced(s) && Enabled(s, Take(i))
    ensures Synced(Next(s, Take(i)))
  {
    var s' := Next(s, Take(i));
    assert Backlog(s) == s.pending;
    assert Backlog(s') == [s.pending[i]] + (s.pending[..i] + s.pending[i + 1..]);
    forall k ensures FinalOutcome(Decode(s'.lines) + Backlog(s'), k) == Lookup(s'.keys, k)
    {
      TakeKeepsLastOps(s.pending, i, k);
      LastOpConcat(Decode(s.lines), Backlog(s), k);
      LastOpConcat(Decode(s.lines), Backlog(s'), k);
      SyncedAt(s, k);
    }
    SyncedFromOutcomes(s');
  }

  lemma WriteKeepsSynced(s: State)
    requires s.persisting && Synced(s) && Enabled(s, Write)
    ensures Synced(Next(s, Write))
  {
    var s' := Next(s, Write);
    var op := s.inflight.value;
    assert s'.lines == s.lines + [Entry(op)] && s'.lines[..|s.lines|] == s.lines;
    assert Decode(s'.lines) == Decode(s.lines) + [op];
    assert Decode(s'.lines) + Backlog(s') == Decode(s.lines) + Backlog(s);
  }

  /**
   * A swap puts file and map in step again, whatever the old file held and
   * however much is queued, exactly when the new file ends in a whole line and
   * every key it lacks is still to be written.
   */
  lemma SwapSyncsIff(s: State)
    requires Covered(s) && Enabled(s, Swap) && s.persisting
    ensures Synced(Next(s, Swap)) <==>
            && !s.snapshot.value.torn
            && forall k :: k in s.keys && LastOp(Decode(s.snapshot.value.lines), k).None? ==>
               LastOp(Backlog(s), k).Some?
  {
    var s', ops := Next(s, Swap), Decode(s.snapshot.value.lines);
    forall k
      ensures FinalOutcome(ops + Backlog(s), k) == Lookup(s.keys, k) <==>
              (k in s.keys && LastOp(ops, k).None? ==> LastOp(Backlog(s), k).Some?)
    {
      LastOpConcat(ops, Backlog(s), k);
    }
    if forall k :: k in s.keys && LastOp(ops, k).None? ==> LastOp(Backlog(s), k).Some? {
      if !s'.torn { SyncedFromOutcomes(s'); }
    } else if Synced(s') {
      forall k ensures FinalOutcome(ops + Backlog(s), k) == Lookup(s.keys, k) { SyncedAt(s', k); }
    }
  }

  lemma SwapSyncs(s: State)
    requires Covered(s) && SnapshotWhole(s) && Enabled(s, Swap) && s.persisting
    ensures Synced(Next(s, Swap)) && Counted(Next(s, Swap))
  {
    var ops := Decode(s.snapshot.value.lines);
    forall k | k in s.keys ensures LastOp(ops, k).Some?
    {
      ReplayAt(map[], ops, k);
    }
    SwapSyncsIff(s);
  }

  /**
   * The same told by what became of rewrite()'s own writes, none of which it
   * notices: a key is missing from the new file exactly if its put was not
   * written in full behind a whole line.
   */
  lemma CompactionSyncsIff(s: State, order: seq<string>, fates: seq<Option<Cut>>, waiting: seq<Step>)
    requires Covered(s) && Enabled(s, Snapshot(order, fates)) && ValidRun(Next(s, Snapshot(order, fates)), waiting)
    requires forall i :: 0 <= i < |waiting| ==> Waits(waiting[i])
    ensures var full := Run(Next(s, Snapshot(order, fates)), waiting);
            && Enabled(full, Swap)
            && (Synced(Next(full, Swap)) <==>
                !TornAfter(fates) && forall k :: k in s.keys && k !in SafeKeys(order, fates) ==>
                  LastOp(Backlog(full), k).Some?)
  {
    var begun := Next(s, Snapshot(order, fates));
    var full := Run(begun, waiting);
    CoveredStep(s, Snapshot(order, fates));
    CoveredRun(begun, waiting);
    WaitingKeepsSnapshot(begun, waiting);
    SwapSyncsIff(full);
    DraftTells(s.keys, order, fates);
    var d := DraftOf(s.keys, order, fates);
    if !d.torn {
      forall k | k in s.keys ensures LastOp(Decode(d.lines), k).None? <==> k !in SafeKeys(order, fates)
      {
        assert LastOp(Decode(Body(d)), k) == if k in SafeKeys(order, fates) && k in s.keys then Some(Put(k, s.keys[k]))
               else None;
      }
    }
  }

  /** What goes on while rewrite() waits for the queue; put and del are locked out. */
  predicate Waits(step: Step)
  {
    step.Take? || step.Write? || step.WriteFails?
  }

  lemma {:induction false} WaitingKeepsSnapshot(s: State, steps: seq<Step>)
    requires ValidRun(s, steps) && forall i :: 0 <= i < |steps| ==> Waits(steps[i])
    ensures var s' := Run(s, steps); s'.snapshot == s.snapshot && s'.keys == s.keys && s'.persisting == s.persisting
    decreases |steps|
  {
    if steps != [] {
      assert Waits(steps[0]);
      WaitingKeepsSnapshot(Next(s, steps[0]), steps[1..]);
    }
  }

  /** A compaction that loses a record unnoticed, nothing being queued, makes the next restart forget the key. */
  lemma LostRecordDropsKey(s: State, k: string)
    requires Covered(s) && Enabled(s, Swap) && s.persisting && Backlog(s) == []
    requires k in s.keys && LastOp(Decode(s.snapshot.value.lines), k).None?
    ensures k in Next(s, Swap).keys && k !in Next(Next(s, Swap), Crash(NotBegun)).keys
  {
    ReplayAt(map[], Decode(s.snapshot.value.lines), k);
  }

  function CompactedOnFullDisk(k: string, v: string): seq<Step>
  {
    [PutKey(k, v), Take(0), Write, Snapshot([k], [Some(NotBegun)]), Swap]
  }

  /** From the first start: one put safely in the file, and a compaction on a full disk that empties the file. */
  lemma FullDiskDestroysLog(k: string, v: string)
    ensures ValidRun(Fresh, CompactedOnFullDisk(k, v)[..3]) && Synced(Run(Fresh, CompactedOnFullDisk(k, v)[..3]))
    ensures ValidRun(Fresh, CompactedOnFullDisk(k, v))
    ensures var s := Run(Fresh, CompactedOnFullDisk(k, v));
            s.keys == map[k := v] && Next(s, Crash(NotBegun)).keys == map[]
  {
    var steps := CompactedOnFullDisk(k, v);
    FirstPut(k, v);
    assert steps[..3] == [PutKey(k, v), Take(0), Write];
    assert steps[3..] == [Snapshot([k], [Some(NotBegun)]), Swap];
    LostOnSwap(k, v);
    RunConcat(Fresh, steps[..3], steps[3..]);
    assert steps[..3] + steps[3..] == steps;
    assert Decode([]) == [];
  }

  function Logged(k: string, v: string): State
  {
    State(map[k := v], [], None, [Entry(Put(k, v))], false, 1, None, true)
  }

  lemma LostOnSwap(k: string, v: string)
    ensures Synced(Logged(k, v))
    ensures var steps := [Snapshot([k], [Some(NotBegun)]), Swap];
            ValidRun(Logged(k, v), steps) && Run(Logged(k, v), steps) == Logged(k, v).(lines := [])
  {
    var s, steps := Logged(k, v), [Snapshot([k], [Some(NotBegun)]), Swap];
    assert Decode(s.lines) + Backlog(s) == [Put(k, v)];
    assert DraftOf(s.keys, [k], [Some(NotBegun)]) == Draft([], false, 1);
    assert Enumerates([k], s.keys.Keys);
    var short := s.(snapshot := Some(Draft([], false, 1)));
    assert Next(s, steps[0]) == short;
    assert steps[1..] == [Swap];
    assert Run(short, [Swap]) == Next(short, Swap);
  }

  lemma FirstPut(k: string, v: string)
    ensures ValidRun(Fresh, [PutKey(k, v), Take(0), Write])
    ensures Run(Fresh, [PutKey(k, v), Take(0), Write]) == Logged(k, v)
  {
    var steps := [PutKey(k, v), Take(0), Write];
    var s1 := Next(Fresh, steps[0]);
    assert s1.keys == map[k := v] && s1.pending == [Put(k, v)];
    var s2 := Next(s1, steps[1]);
    assert s2.pending == [] && s2.inflight == Some(Put(k, v));
    assert steps[1..] == [Take(0), Write] && steps[1..][1..] == [Write];
    assert ValidRun(s2, [Write]) && Run(s2, [Write]) == Next(s2, Write);
    assert ValidRun(s1, steps[1..]) && Run(s1, steps[1..]) == Next(s2, Write);
  }

  /** No record is cut short or lost. */
  predicate TidyStep(step: Step)
  {
    !FailsToWrite(step) && (step.Crash? ==> step.cut.NotBegun?)
  }

  /** A write call fails, of the writer or of rewrite(). */
  predicate FailsToWrite(step: Step)
  {
    step.WriteFails? || (step.Snapshot? && !AllWritten(step.fates))
  }

  /** Only a snapshot whose writes fail lacks anything. */
  lemma WholeStep(s: State, step: Step)
    requires SnapshotWhole(s) && Enabled(s, step) && !FailsToWrite(step)
    ensures SnapshotWhole(Next(s, step))
  {
    if step.Snapshot? { SnapshotIsTheMap(s.keys, step.order, step.fates); }
  }

  lemma SyncedStep(s: State, step: Step)
    requires Covered(s) && Synced(s) && SnapshotWhole(s) && Enabled(s, step)
    requires TidyStep(step)
    ensures Synced(Next(s, step))
    ensures Counted(s) && !step.Crash? ==> Counted(Next(s, step))
  {
    match step {
      case PutKey(k, v) => if s.persisting { IssueKeepsSynced(s, s.keys[k := v], Put(k, v)); }
      case DelKey(k) => if s.persisting && k in s.keys { IssueKeepsSynced(s, s.keys - {k}, Del(k)); }
      case Take(i) => if s.persisting { TakeKeepsSynced(s, i); }
      case Write => if s.persisting { WriteKeepsSynced(s); }
      case Swap => if s.persisting { SwapSyncs(s); }
      case Crash(_) => assert Decode(s.lines) + [] == Decode(s.lines);
      case _ =>
    }
  }

  predicate Tidy(steps: seq<Step>)
  {
    forall i :: 0 <= i < |steps| ==> TidyStep(steps[i])
  }

  /** Main result: in every tidy run, file then backlog always replay to exactly the map in memory. */
  lemma {:induction false} SyncedRun(s: State, steps: seq<Step>)
    requires Covered(s) && Synced(s) && SnapshotWhole(s) && ValidRun(s, steps) && Tidy(steps)
    ensures Synced(Run(s, steps))
    ensures Counted(s) && (forall i :: 0 <= i < |steps| ==> !steps[i].Crash?) ==> Counted(Run(s, steps))
    decreases |steps|
  {
    if steps != [] {
      CoveredStep(s, steps[0]);
      SyncedStep(s, steps[0]);
      WholeStep(s, steps[0]);
      SyncedRun(Next(s, steps[0]), steps[1..]);
    }
  }

  /** From the first start on, a restart with nothing queued or in flight rebuilds the map. */
  lemma DrainedRestartRebuildsMap(steps: seq<Step>)
    requires ValidRun(Fresh, steps) && Tidy(steps)
    requires var s := Run(Fresh, steps); s.persisting && s.pending == [] && s.inflight.None?
    ensures var s := Run(Fresh, steps); Next(s, Crash(NotBegun)).keys == s.keys
  {
    var s := Run(Fresh, steps);
    assert Covered(Fresh);
    assert Synced(Fresh);
    SyncedRun(Fresh, steps);
    assert Decode(s.lines) + Backlog(s) == Decode(s.lines);
  }

  lemma {:induction false} RunConcat(s: State, a: seq<Step>, b: seq<Step>)
    requires ValidRun(s, a) && ValidRun(Run(s, a), b)
    ensures ValidRun(s, a + b) && Run(s, a + b) == Run(Run(s, a), b)
    decreases |a|
  {
    if a == [] {
      assert a + b == b;
    } else {
      assert (a + b)[0] == a[0] && (a + b)[1..] == a[1..] + b;
      RunConcat(Next(s, a[0]), a[1..], b);
    }
  }

  /**
   * Whatever torn or lost records came before, a completed compaction puts the
   * file right again, for every tidy run after it, exactly if its own file ends
   * in a whole line and lacks no key that is not still to be written.
   */
  lemma CompactionRepairsIff(s: State, before: seq<Step>)
    requires Covered(s) && ValidRun(s, before)
    requires Enabled(Run(s, before), Swap) && Run(s, before).persisting
    ensures var mid := Run(s, before);
            (forall after :: StaysInStep(Next(mid, Swap), after)) <==>
            && !mid.snapshot.value.torn
            && forall k :: k in mid.keys && LastOp(Decode(mid.snapshot.value.lines), k).None? ==>
               LastOp(Backlog(mid), k).Some?
  {
    CoveredRun(s, before);
    var mid := Run(s, before);
    SwapSyncsIff(mid);
    CoveredStep(mid, Swap);
    var swapped := Next(mid, Swap);
    if Synced(swapped) {
      forall after ensures StaysInStep(swapped, after)
      {
        if ValidRun(swapped, after) && Tidy(after) { SyncedRun(swapped, after); }
      }
    } else {
      assert !StaysInStep(swapped, []);
    }
  }

  ghost predicate StaysInStep(s: State, after: seq<Step>)
  {
    ValidRun(s, after) && Tidy(after) ==> Synced(Run(s, after))
  }

  lemma CleanTailKeepsRecord(s: State, k: string, v: string)
    requires s.persisting && s.snapshot.None? && Backlog(s) == [] && !s.torn
    requires Replay(map[], Decode(s.lines)) == s.keys
    ensures Synced(PutThrough(s, k, v))
  {
    assert Decode(s.lines) + Backlog(s) == Decode(s.lines);
    IssueKeepsSynced(s, s.keys[k := v], Put(k, v));
    TakeKeepsSynced(Next(s, PutKey(k, v)), 0);
    WriteKeepsSynced(Next(Next(s, PutKey(k, v)), Take(0)));
  }

  /**
   * Behind a torn last line every record is lost, and that line with it: a
   * restart finds the file as if neither had been written.
   */
  lemma TornTailSwallowsRecord(s: State, k: string, v: string)
    requires s.persisting && s.snapshot.None? && Backlog(s) == [] && s.torn && s.lines != []
    ensures Decode(PutThrough(s, k, v).lines) == Decode(s.lines[..|s.lines| - 1])
    ensures Next(PutThrough(s, k, v), Crash(NotBegun)).keys == Replay(map[], Decode(s.lines[..|s.lines| - 1]))
  {
    var lines := PutThrough(s, k, v).lines;
    assert lines == s.lines[..|s.lines| - 1] + [Corrupt];
    assert lines[..|lines| - 1] == s.lines[..|s.lines| - 1];
  }

  lemma TornTailLosesOne(s: State)
    requires s.persisting && s.snapshot.None? && Backlog(s) == [] && s.torn && s.lines != []
    ensures !(Synced(PutThrough(s, "k", "a")) && Synced(PutThrough(s, "k", "b")))
  {
    var a, b := PutThrough(s, "k", "a"), PutThrough(s, "k", "b");
    TornTailSwallowsRecord(s, "k", "a");
    TornTailSwallowsRecord(s, "k", "b");
    assert Decode(a.lines) + Backlog(a) == Decode(a.lines) && Decode(b.lines) + Backlog(b) == Decode(b.lines);
    assert a.keys["k"] == "a" && b.keys["k"] == "b";
  }

  /** After a restart, the next record reaches the file for good exactly when the file ends in a newline. */
  lemma NextRecordSurvivesIffNotTorn(s: State)
    requires s.persisting && s.snapshot.None? && Backlog(s) == [] && s.lines != []
    requires Replay(map[], Decode(s.lines)) == s.keys
    ensures (forall k, v :: Synced(PutThrough(s, k, v))) <==> !s.torn
  {
    if !s.torn {
      forall k, v ensures Synced(PutThrough(s, k, v)) { CleanTailKeepsRecord(s, k, v); }
    } else {
      TornTailLosesOne(s);
    }
  }

  /** One put carried through the queue into the file. */
  function PutThrough(s: State, k: string, v: string): State
    requires s.snapshot.None? && s.persisting && Backlog(s) == []
  {
    assert s.pending == [] && s.inflight.None?;
    Next(Next(Next(s, PutKey(k, v)), Take(0)), Write)
  }

  // ---------- compression ----------

  const CompressThresh := 20

  /** The test that compress() makes on every tick. */
  predicate ShouldCompress(s: State)
  {
    s.persisting && s.count > |s.keys| + CompressThresh
  }

  /** The counter never runs ahead of the file; a torn last line is one it does not know of. */
  predicate CountWithinFile(s: State)
  {
    && (s.torn ==> s.lines != [])
    && (s.persisting ==> s.count + (if s.torn then 1 else 0) <= |s.lines|)
    && (s.snapshot.Some? ==> !s.snapshot.value.torn && s.snapshot.value.count == |s.snapshot.value.lines|)
  }

  lemma {:induction false} CountWithinFileRun(s: State, steps: seq<Step>)
    requires CountWithinFile(s) && ValidRun(s, steps) && forall i :: 0 <= i < |steps| ==> !FailsToWrite(steps[i])
    ensures CountWithinFile(Run(s, steps))
    decreases |steps|
  {
    if steps != [] {
      assert !FailsToWrite(steps[0]);
      if steps[0].Snapshot? { SnapshotIsTheMap(s.keys, steps[0].order, steps[0].fates); }
      CountWithinFileRun(Next(s, steps[0]), steps[1..]);
    }
  }

  /** A write that fails at once is counted all the same. */
  lemma FailedWriteIsCounted(s: State)
    requires Counted(s) && s.persisting && s.inflight.Some?
    ensures !CountWithinFile(Next(s, WriteFails(NotBegun)))
  {
  }

  /**
   * A write that fails behind a whole line, and then a restart: the map says
   * about every key what the file said before, except that a record that lacks
   * only its newline counts as written.
   */
  lemma CutWriteIsToldIff(s: State, cut: Cut, k: string)
    requires s.persisting && s.inflight.Some? && !s.torn
    ensures var op := s.inflight.value;
            Lookup(Next(Next(s, WriteFails(cut)), Crash(NotBegun)).keys, k) ==
            if cut.BeforeNewline? && k == op.key then Outcome(op) else FinalOutcome(Decode(s.lines), k)
  {
    var op := s.inflight.value;
    var s' := Next(s, WriteFails(cut));
    ReplayAt(map[], Decode(s'.lines), k);
    if cut.BeforeNewline? {
      assert s'.lines[..|s.lines|] == s.lines;
      LastOpConcat(Decode(s.lines), [op], k);
    } else if cut.InsideRecord? {
      assert s'.lines[..|s.lines|] == s.lines;
    }
  }

  /** The queue is shut down exactly when a reopen failed and no restart came after it. */
  lemma {:induction false} PersistingIff(s: State, steps: seq<Step>)
    requires ValidRun(s, steps)
    ensures Run(s, steps).persisting <==>
            || (s.persisting && forall i :: 0 <= i < |steps| ==> !steps[i].ReopenFails?)
            || (exists i :: 0 <= i < |steps| && RestartedAt(steps, i))
    decreases |steps|
  {
    if steps != [] {
      var rest := steps[1..];
      PersistingIff(Next(s, steps[0]), rest);
      if forall i :: 0 <= i < |rest| ==> !rest[i].ReopenFails? {
        forall i | 0 < i < |steps| ensures !steps[i].ReopenFails? { assert steps[i] == rest[i - 1]; }
        if steps[0].Crash? { assert RestartedAt(steps, 0); }
      } else {
        var j :| 0 <= j < |rest| && rest[j].ReopenFails?;
        assert steps[j + 1].ReopenFails?;
      }
      if i :| 0 <= i < |rest| && RestartedAt(rest, i) {
        forall j | i + 1 < j < |steps| ensures !steps[j].ReopenFails? { assert steps[j] == rest[j - 1]; }
        assert RestartedAt(steps, i + 1);
      }
      if i :| 0 <= i < |steps| && RestartedAt(steps, i) {
        forall j | i <= j < |rest| ensures !rest[j].ReopenFails? { assert rest[j] == steps[j + 1]; }
        if i > 0 { assert RestartedAt(rest, i - 1); }
      }
    }
  }

  predicate RestartedAt(steps: seq<Step>, i: nat)
  {
    i < |steps| && steps[i].Crash? && forall j :: i < j < |steps| ==> !steps[j].ReopenFails?
  }

  /**
   * What put and del leave in the map and behind the queue: nothing once it is
   * shut down, and nothing for a key that is not there.
   */
  lemma QueuedAre(s: State, k: string, v: string)
    requires s.snapshot.None?
    ensures Next(s, PutKey(k, v)).pending == s.pending + if s.persisting then [Put(k, v)] else []
    ensures Next(s, DelKey(k)).pending == s.pending + if s.persisting && k in s.keys then [Del(k)] else []
    ensures Next(s, PutKey(k, v)).keys == s.keys[k := v] && Next(s, DelKey(k)).keys == s.keys - {k}
  {
    if k !in s.keys { assert s.keys - {k} == s.keys; }
  }

  lemma {:induction false} EnumerationCounts(order: seq<string>, keys: set<string>)
    requires Enumerates(order, keys)
    ensures |order| == |keys|
  {
    if order != [] {
      var last, front := order[|order| - 1], order[..|order| - 1];
      assert order == front + [last];
      forall k | k in keys - {last} ensures k in front { assert k in order; }
      EnumerationCounts(front, keys - {last});
    }
  }

  /**
   * Whatever happened since the first start, as long as no write call failed, a
   * compression that compress() triggers and that completes leaves one line
   * per key, takes more than the threshold off the file, and does not trigger
   * the next one.
   */
  lemma CompressionShrinksFile(before: seq<Step>, order: seq<string>, fates: seq<Option<Cut>>, waiting: seq<Step>)
    requires ValidRun(Fresh, before) && ShouldCompress(Run(Fresh, before))
    requires forall i :: 0 <= i < |before| ==> !FailsToWrite(before[i])
    requires Enabled(Run(Fresh, before), Snapshot(order, fates)) && AllWritten(fates)
    requires ValidRun(Next(Run(Fresh, before), Snapshot(order, fates)), waiting)
    requires forall i :: 0 <= i < |waiting| ==> Waits(waiting[i])
    ensures var s := Run(Fresh, before);
            var full := Run(Next(s, Snapshot(order, fates)), waiting);
            && Enabled(full, Swap)
            && var s' := Next(full, Swap);
               |s'.lines| == |s.keys| && |s'.lines| + CompressThresh < |s.lines| && !ShouldCompress(s')
  {
    var s := Run(Fresh, before);
    CountWithinFileRun(Fresh, before);
    EnumerationCounts(order, s.keys.Keys);
    WaitingKeepsSnapshot(Next(s, Snapshot(order, fates)), waiting);
    WrittenLines(s.keys, order, fates);
    DraftTells(s.keys, order, fates);
  }

  // ---------- the object ----------

  /** What becomes of each write, given the writes that fail. */
  function FatesOf(order: seq<string>, failures: map<string, Cut>): (fates: seq<Option<Cut>>)
    ensures |fates| == |order|
    ensures forall i :: 0 <= i < |order| ==> fates[i] == Lookup(failures, order[i])
  {
    seq(|order|, i requires 0 <= i < |order| => Lookup(failures, order[i]))
  }

  lemma DraftGrows(keys: Keys, order: seq<string>, failures: map<string, Cut>, k: string)
    requires k in keys && forall i :: 0 <= i < |order| ==> order[i] in keys
    ensures var d := DraftOf(keys, order, FatesOf(order, failures));
            var (lines, torn) := AppendRecord(d.lines, d.torn, Put(k, keys[k]), Lookup(failures, k));
            DraftOf(keys, order + [k], FatesOf(order + [k], failures)) == Draft(lines, torn, d.count + 1)
  {
    var n := |order|;
    assert (order + [k])[..n] == order;
    assert FatesOf(order + [k], failures)[..n] == FatesOf(order, failures);
  }

  lemma EnumerationGrows(order: seq<string>, done: set<string>, k: string)
    requires Enumerates(order, done) && k !in done
    ensures Enumerates(order + [k], done + {k})
  {
    assert k in order + [k];
    forall x | x in done ensures x in order + [k] { assert x in order; }
  }

  class ErrorKeys {
    var keys: Keys
    var pending: seq<Operation>
    var inflight: Option<Operation>
    var lines: seq<Line>
    var torn: bool
    var count: nat
    var snapshot: Option<Draft>
    var persisting: bool

    function Abs(): State
      reads this
    {
      State(keys, pending, inflight, lines, torn, count, snapshot, persisting)
    }

    /** NewErrorKeys over whatever the aof file already holds; recover() is a separate call. */
    constructor (onDisk: seq<Line>, tornOnDisk: bool)
      ensures Abs() == Restart(onDisk, tornOnDisk).(keys := map[])
    {
      keys, pending, inflight := map[], [], None;
      lines, torn, count, snapshot, persisting := onDisk, tornOnDisk, 0, None, true;
    }

    method PutKey(key: string, val: string)
      requires Enabled(Abs(), Step.PutKey(key, val))
      modifies this
      ensures Abs() == Next(old(Abs()), Step.PutKey(key, val))
    {
      keys := keys[key := val];
      if persisting {
        pending := pending + [Put(key, val)];
      }
    }

    method DelKey(key: string)
      requires Enabled(Abs(), Step.DelKey(key))
      modifies this
      ensures Abs() == Next(old(Abs()), Step.DelKey(key))
      ensures key !in old(keys) ==> unchanged(this)
    {
      if key !in keys {
        return;
      }
      keys := keys - {key};
      if persisting {
        pending := pending + [Del(key)];
      }
    }

    /**
     * processNextOperator: take one operation the queue may hand over, then
     * write it; a failing write goes unnoticed.
     */
    method ProcessNextOperator(i: nat, failure: Option<Cut>)
      requires Enabled(Abs(), Take(i))
      modifies this
      ensures Abs() == Next(Next(old(Abs()), Take(i)), if failure.None? then Write else WriteFails(failure.value))
    {
      var op := pending[i];
      pending := pending[..i] + pending[i + 1..];
      if persisting {
        match failure {
          case None => lines, torn := AppendLine(lines, torn, Entry(op)), false;
          case Some(NotBegun) =>
          case Some(InsideRecord) => lines, torn := AppendLine(lines, torn, Corrupt), true;
          case Some(BeforeNewline) => lines, torn := AppendLine(lines, torn, Entry(op)), true;
        }
      }
      count := count + 1;
    }

    /**
     * rewrite() up to the wait: the map's entries go to tmp_aof in whatever
     * order the map yields them; failures go unnoticed.
     */
    method WriteSnapshot(failures: map<string, Cut>) returns (ghost order: seq<string>)
      requires persisting && snapshot.None?
      modifies this
      ensures old(Enabled(Abs(), Snapshot(order, FatesOf(order, failures))))
      ensures Abs() == Next(old(Abs()), Snapshot(order, FatesOf(order, failures)))
    {
      var left := keys.Keys;
      var d := Draft([], false, 0);
      order := [];
      while left != {}
        invariant left <= keys.Keys && Enumerates(order, keys.Keys - left)
        invariant d == DraftOf(keys, order, FatesOf(order, failures))
        invariant unchanged(this)
        decreases left
      {
        var k :| k in left;
        var (lines, torn) := AppendRecord(d.lines, d.torn, Put(k, keys[k]), Lookup(failures, k));
        d := Draft(lines, torn, d.count + 1);
        DraftGrows(keys, order, failures, k);
        EnumerationGrows(order, keys.Keys - left, k);
        assert keys.Keys - left + {k} == keys.Keys - (left - {k});
        order := order + [k];
        left := left - {k};
      }
      assert keys.Keys - left == keys.Keys;
      snapshot := Some(d);
    }

    /** swapAOF. */
    method SwapAOF(renames: bool, reopens: bool)
      requires snapshot.Some?
      modifies this
      ensures Abs() == Next(old(Abs()),
                            if !reopens then ReopenFails(renames) else if renames then Swap else RenameFails)
    {
      var d := snapshot.value;
      snapshot := None;
      if renames {
        lines, torn := d.lines, d.torn;
      }
      if !reopens {
        persisting := false;
      } else if renames {
        count := d.count;
      }
    }

    /** recover(): decode the lines that decode, then replay them over the map. */
    method Recover()
      modifies this
      ensures Abs() == old(Abs()).(keys := Replay(old(keys), Decode(lines)))
    {
      var operations: seq<Operation> := [];
      var i := 0;
      while i < |lines|
        invariant 0 <= i <= |lines| && Abs() == old(Abs())
        invariant operations == Decode(lines[..i])
      {
        assert lines[..i + 1][..i] == lines[..i];
        if lines[i].Entry? {
          operations := operations + [lines[i].op];
        }
        i := i + 1;
      }
      assert lines[..i] == lines;
      i := 0;
      while i < |operations|
        invariant 0 <= i <= |operations|
        invariant Abs() == old(Abs()).(keys := Replay(old(keys), operations[..i]))
      {
        assert operations[..i + 1][..i] == operations[..i];
        match operations[i] {
          case Put(k, v) => keys := keys[k := v];
          case Del(k) => keys := keys - {k};
        }
        i := i + 1;
      }
      assert operations[..i] == operations;
    }
  }
}
