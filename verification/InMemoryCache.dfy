/**
 * The in-memory shortcut of the cache manager for the objects kubelet reads
 * most (its node and its leases), against the store it shortcuts: storing one
 * object by update-then-create, keeping a copy in memory, answering from that
 * copy, and rebuilding it after a restart.
 */
module InMemoryCache {
  import opened Collections
  import opened Objects
  import opened StoreKeys

  // ---------- storing one object ----------

  type Store = map<string, Object>

  datatype UpdateResult = Updated | Missing | Conflict

  /** Store.Update: an older version than the stored one is refused, an equal one is not. */
  function Update(store: Store, key: string, obj: Object): (UpdateResult, Store)
  {
    if key !in store then (Missing, store)
    else if obj.version < store[key].version then (Conflict, store)
    else (Updated, store[key := obj])
  }

  /** Store.Create: refused when the key exists. */
  function Create(store: Store, key: string, obj: Object): (bool, Store)
  {
    if key in store then (false, store) else (true, store[key := obj])
  }

  /** storeObjectWithKey: an unassigned pod is skipped; otherwise update, and create when missing. */
  function StoreObject(store: Store, key: string, obj: Object, unassignedPod: bool): (bool, Store)
  {
    if unassignedPod then (false, store)
    else
      var (r, updated) := Update(store, key, obj);
      match r
      case Updated => (true, updated)
      case Conflict => (false, store)
      case Missing => Create(store, key, obj)
  }

  function VersionOf(store: Store, key: string): int
  {
    if key in store then store[key].version else -1
  }

  function StoreAll(store: Store, key: string, objs: seq<Object>): Store
  {
    if objs == [] then store
    else StoreObject(StoreAll(store, key, objs[..|objs| - 1]), key, objs[|objs| - 1], false).1
  }

  lemma StoreOnce(store: Store, key: string, obj: Object)
    ensures var store' := StoreObject(store, key, obj, false).1;
            && obj.version <= VersionOf(store', key) && VersionOf(store, key) <= VersionOf(store', key)
            && (store' == store || (key in store' && store'[key] == obj))
  {
  }

  /**
   * Stored one after the other, the newest of all objects wins, and what is
   * stored is one of them or what there was.
   */
  lemma {:induction false} OneWriterKeepsNewest(store: Store, key: string, objs: seq<Object>)
    ensures forall i :: 0 <= i < |objs| ==> objs[i].version <= VersionOf(StoreAll(store, key, objs), key)
    ensures VersionOf(store, key) <= VersionOf(StoreAll(store, key, objs), key)
    ensures StoreAll(store, key, objs) == store ||
            exists i :: 0 <= i < |objs| && key in StoreAll(store, key, objs) &&
              StoreAll(store, key, objs)[key] == objs[i]
  {
    if objs != [] {
      var n := |objs| - 1;
      var front := objs[..n];
      OneWriterKeepsNewest(store, key, front);
      var before, after := StoreAll(store, key, front), StoreAll(store, key, objs);
      StoreOnce(before, key, objs[n]);
      forall i | 0 <= i < |objs| ensures objs[i].version <= VersionOf(after, key)
      {
        if i < n { assert front[i] == objs[i]; }
      }
      if after == before && before != store {
        var i :| 0 <= i < n && key in before && before[key] == front[i];
        assert after[key] == objs[i];
      }
    }
  }

  /** Two writers that both find the key missing: the newer object is refused and the older one stays. */
  lemma TwoWritersCanLoseNewest(store: Store, key: string, older: Object, newer: Object)
    requires key !in store && older.version < newer.version
    ensures Update(store, key, older).0 == Missing && Update(store, key, newer).0 == Missing
    ensures var s1 := Create(store, key, older).1;
            !Create(s1, key, newer).0 && VersionOf(Create(s1, key, newer).1, key) < newer.version
  {
  }

  // ---------- any number of writers at once ----------

  /** A writer tries an update; when that finds the key missing, it tries a create as a second call. */
  datatype WriterStep = TryUpdate(i: nat) | TryCreate(i: nat)

  /** pending found the key missing, refused had their create refused, done are finished. */
  datatype Writers = Writers(store: Store, pending: set<nat>, done: set<nat>, refused: set<nat>)

  predicate MayWrite(w: Writers, objs: seq<Object>, step: WriterStep)
  {
    step.i < |objs| &&
    match step
    case TryUpdate(i) => i !in w.pending && i !in w.done
    case TryCreate(i) => i in w.pending
  }

  function WriterNext(w: Writers, objs: seq<Object>, key: string, step: WriterStep): Writers
    requires MayWrite(w, objs, step)
  {
    match step
    case TryUpdate(i) =>
      var (r, store) := Update(w.store, key, objs[i]);
      if r == Missing then w.(pending := w.pending + {i}) else w.(store := store, done := w.done + {i})
    case TryCreate(i) =>
      var (ok, store) := Create(w.store, key, objs[i]);
      Writers(store, w.pending - {i}, w.done + {i}, if ok then w.refused else w.refused + {i})
  }

  predicate WriterRun(w: Writers, objs: seq<Object>, key: string, steps: seq<WriterStep>)
    decreases |steps|
  {
    steps == [] || (MayWrite(w, objs, steps[0]) && WriterRun(WriterNext(w, objs, key, steps[0]), objs, key, steps[1..]))
  }

  function WriterEnd(w: Writers, objs: seq<Object>, key: string, steps: seq<WriterStep>): Writers
    requires WriterRun(w, objs, key, steps)
    decreases |steps|
  {
    if steps == [] then w else WriterEnd(WriterNext(w, objs, key, steps[0]), objs, key, steps[1..])
  }

  /** The stored version is the highest of what there was and of the writers that were not refused. */
  ghost predicate HighestOfRest(w: Writers, objs: seq<Object>, key: string, start: int)
  {
    && start <= VersionOf(w.store, key) && w.refused <= w.done && (forall i :: i in w.done ==> i < |objs|)
    && (forall i :: i in w.done && i !in w.refused ==> objs[i].version <= VersionOf(w.store, key))
    && (VersionOf(w.store, key) == start ||
        exists i :: i in w.done && i !in w.refused && objs[i].version == VersionOf(w.store, key))
  }

  lemma WriterKeepsHighest(w: Writers, objs: seq<Object>, key: string, start: int, step: WriterStep)
    requires HighestOfRest(w, objs, key, start) && MayWrite(w, objs, step) && w.pending !! w.done
    ensures var w' := WriterNext(w, objs, key, step); HighestOfRest(w', objs, key, start) && w'.pending !! w'.done
  {
    var w', i := WriterNext(w, objs, key, step), step.i;
    if w'.store != w.store {
      assert i in w'.done && i !in w'.refused && objs[i].version == VersionOf(w'.store, key);
    } else if VersionOf(w.store, key) != start {
      var j :| j in w.done && j !in w.refused && objs[j].version == VersionOf(w.store, key);
      assert j in w'.done && j !in w'.refused;
    }
  }

  lemma {:induction false} WritersKeepHighest(w: Writers, objs: seq<Object>, key: string, start: int,
      steps: seq<WriterStep>)
    requires HighestOfRest(w, objs, key, start) && w.pending !! w.done && WriterRun(w, objs, key, steps)
    ensures HighestOfRest(WriterEnd(w, objs, key, steps), objs, key, start)
    decreases |steps|
  {
    if steps != [] {
      WriterKeepsHighest(w, objs, key, start, steps[0]);
      WritersKeepHighest(WriterNext(w, objs, key, steps[0]), objs, key, start, steps[1..]);
    }
  }

  /** The writers whose create comes after another create; landed tells whether there was one already. */
  function Losers(steps: seq<WriterStep>, landed: bool): set<nat>
    decreases |steps|
  {
    if steps == [] then {}
    else
      var rest := Losers(steps[1..], landed || steps[0].TryCreate?);
      if landed && steps[0].TryCreate? then rest + {steps[0].i} else rest
  }

  /** Who waits to create found nothing, and nothing is there until the first create lands. */
  predicate CreatesInOrder(w: Writers, key: string, landed: bool)
  {
    if landed then key in w.store else w.pending != {} ==> key !in w.store
  }

  /** A create is refused exactly when another one landed before it, that is, between its own update and it. */
  lemma {:induction false} LosersAreRefused(w: Writers, objs: seq<Object>, key: string, steps: seq<WriterStep>,
      landed: bool)
    requires WriterRun(w, objs, key, steps) && CreatesInOrder(w, key, landed)
    ensures WriterEnd(w, objs, key, steps).refused == w.refused + Losers(steps, landed)
    decreases |steps|
  {
    if steps != [] {
      var w' := WriterNext(w, objs, key, steps[0]);
      assert w'.refused == w.refused + if landed && steps[0].TryCreate? then {steps[0].i} else {};
      LosersAreRefused(w', objs, key, steps[1..], landed || steps[0].TryCreate?);
    }
  }

  /**
   * Any number of writers, their calls interleaved in any way: what is stored in
   * the end is as new as every object exactly when every object whose create
   * was not the first is no newer than what there was or than some other object.
   */
  lemma NewestIsStoredIff(store: Store, objs: seq<Object>, key: string, steps: seq<WriterStep>)
    requires WriterRun(Writers(store, {}, {}, {}), objs, key, steps)
    requires forall i: nat :: i < |objs| ==> i in WriterEnd(Writers(store, {}, {}, {}), objs, key, steps).done
    ensures var w, losers := WriterEnd(Writers(store, {}, {}, {}), objs, key, steps), Losers(steps, false);
            (forall i: nat :: i < |objs| ==> objs[i].version <= VersionOf(w.store, key)) <==>
            (forall i: nat :: i < |objs| && i in losers ==>
               objs[i].version <= VersionOf(store, key) ||
               exists j: nat :: j < |objs| && j !in losers && objs[i].version <= objs[j].version)
  {
    var start := Writers(store, {}, {}, {});
    WritersKeepHighest(start, objs, key, VersionOf(store, key), steps);
    LosersAreRefused(start, objs, key, steps, false);
    var w := WriterEnd(start, objs, key, steps);
    assert w.refused == Losers(steps, false);
    if VersionOf(w.store, key) != VersionOf(store, key) {
      var j :| j in w.done && j !in w.refused && objs[j].version == VersionOf(w.store, key);
      assert j < |objs|;
    }
  }

  // ---------- requests by kubelet for nodes and leases ----------

  datatype Request = Request(resource: string, group: string, version: string, namespace: string, name: string)

  predicate Named(r: Request)
  {
    && (r.resource == "nodes" || r.resource == "leases")
    && r.name != "" && '/' !in r.name && '/' !in r.namespace
  }

  /** inMemoryCacheKeyFunc: resource, namespace and name, but neither group nor version. */
  function MemKey(r: Request): string
  {
    r.resource + Segment(r.namespace) + Segment(r.name)
  }

  function DiskKey(enhanced: bool, r: Request): string
    requires Named(r)
  {
    KeyOf(enhanced, Info("kubelet", r.resource, r.group, r.version, r.namespace, r.name)).value
  }

  datatype State = State(store: Store, memory: map<string, Object>)

  datatype Step =
    | Response(req: Request, obj: Object)   // a get, patch or update answered by the cloud: saveOneObject
    | Query(req: Request)                   // queryOneObject
    | NamedList(req: Request, obj: Object)  // a list by metadata.name: stored, memory not told
    | Restart                               // memory is empty again, the store is not

  function Next(s: State, enhanced: bool, step: Step): State
    requires step.Restart? || Named(step.req)
  {
    match step
    case Response(req, obj) =>
      var (ok, store) := StoreObject(s.store, DiskKey(enhanced, req), obj, false);
      if ok then State(store, s.memory[MemKey(req) := obj]) else s
    case Query(req) =>
      if MemKey(req) in s.memory || DiskKey(enhanced, req) !in s.store then s
      else s.(memory := s.memory[MemKey(req) := s.store[DiskKey(enhanced, req)]])
    case NamedList(req, obj) => s.(store := StoreObject(s.store, DiskKey(enhanced, req), obj, false).1)
    case Restart => s.(memory := map[])
  }

  /** What queryOneObject answers. */
  function Answer(s: State, enhanced: bool, req: Request): Option<Object>
    requires Named(req)
  {
    if MemKey(req) in s.memory then Some(s.memory[MemKey(req)])
    else if DiskKey(enhanced, req) in s.store then Some(s.store[DiskKey(enhanced, req)])
    else None
  }

  /** A hit in memory is the object the store holds. */
  ghost predicate Coherent(s: State, enhanced: bool, served: set<(string, string, string)>)
  {
    forall r :: Named(r) && (r.resource, r.group, r.version) in served && MemKey(r) in s.memory ==>
      DiskKey(enhanced, r) in s.store && s.store[DiskKey(enhanced, r)] == s.memory[MemKey(r)]
  }

  function DirOf(enhanced: bool, gvr: (string, string, string)): string
  {
    ResourceDir(enhanced, Info("", gvr.0, gvr.1, gvr.2, "", ""))
  }

  /** Each resource is kept in one directory: in enhancement mode that is one group and version, otherwise always so. */
  predicate OneDirEach(enhanced: bool, served: set<(string, string, string)>)
  {
    forall a, b :: a in served && b in served && a.0 == b.0 ==> DirOf(enhanced, a) == DirOf(enhanced, b)
  }

  predicate Kubelets(r: Request, served: set<(string, string, string)>)
  {
    Named(r) && (r.resource, r.group, r.version) in served
  }

  predicate Allowed(step: Step, served: set<(string, string, string)>)
  {
    match step
    case Response(r, _) => Named(r) && (r.resource, r.group, r.version) in served
    case Query(r) => Named(r) && (r.resource, r.group, r.version) in served
    case NamedList(_, _) => false
    case Restart => true
  }

  lemma MemKeyInjective(a: Request, b: Request)
    requires Named(a) && Named(b) && MemKey(a) == MemKey(b)
    ensures a.resource == b.resource && a.namespace == b.namespace && a.name == b.name
  {
    MemKeyIs(a);
    MemKeyIs(b);
    SameTail(a.resource, a, b);
  }

  lemma MemKeyIs(r: Request)
    requires Named(r)
    ensures MemKey(r) == r.resource + RestOf(r) && MemKey(r)[0] == r.resource[0]
  {
  }

  function RestOf(r: Request): string
  {
    Segment(r.namespace) + Segment(r.name)
  }

  /** Equal keys behind one front come from one namespace and name. */
  lemma SameTail(front: string, a: Request, b: Request)
    requires Named(a) && Named(b) && front + RestOf(a) == front + RestOf(b)
    ensures a.namespace == b.namespace && a.name == b.name
  {
    SuffixCancels(front, RestOf(a), RestOf(b));
    SegmentSplits(a.namespace, a.name);
    SegmentSplits(b.namespace, b.name);
  }

  function DiskBase(enhanced: bool, r: Request): string
  {
    "kubelet/" + DirOf(enhanced, (r.resource, r.group, r.version))
  }

  lemma DiskKeyIs(enhanced: bool, r: Request)
    requires Named(r)
    ensures DiskKey(enhanced, r) == DiskBase(enhanced, r) + RestOf(r)
  {
  }

  lemma DiskKeyInjective(enhanced: bool, a: Request, b: Request)
    requires Named(a) && Named(b) && DiskBase(enhanced, a) == DiskBase(enhanced, b)
    requires DiskKey(enhanced, a) == DiskKey(enhanced, b)
    ensures a.namespace == b.namespace && a.name == b.name
  {
    DiskKeyIs(enhanced, a);
    DiskKeyIs(enhanced, b);
    SameTail(DiskBase(enhanced, a), a, b);
  }

  lemma SameDiskKeySameResource(enhanced: bool, a: Request, b: Request)
    requires Named(a) && Named(b) && DiskKey(enhanced, a) == DiskKey(enhanced, b)
    ensures a.resource == b.resource
  {
    DiskKeyIs(enhanced, a);
    DiskKeyIs(enhanced, b);
    assert DiskKey(enhanced, a)[8] == DiskBase(enhanced, a)[8] == a.resource[0];
    assert DiskKey(enhanced, b)[8] == DiskBase(enhanced, b)[8] == b.resource[0];
  }

  /** With one directory per resource, the key in memory and the key on disk tell the same requests apart. */
  lemma KeysAgree(enhanced: bool, served: set<(string, string, string)>, a: Request, b: Request)
    requires OneDirEach(enhanced, served) && Kubelets(a, served) && Kubelets(b, served)
    ensures MemKey(a) == MemKey(b) <==> DiskKey(enhanced, a) == DiskKey(enhanced, b)
  {
    DiskKeyIs(enhanced, a);
    DiskKeyIs(enhanced, b);
    if MemKey(a) == MemKey(b) {
      MemKeyInjective(a, b);
    }
    if DiskKey(enhanced, a) == DiskKey(enhanced, b) {
      SameDiskKeySameResource(enhanced, a, b);
      DiskKeyInjective(enhanced, a, b);
      MemKeyIs(a);
      MemKeyIs(b);
    }
  }

  /** Writing r's object to store and memory together disturbs no other request's pair. */
  lemma WriteBothKeepsCoherent(s: State, enhanced: bool, served: set<(string, string, string)>, r: Request, obj: Object,
      s': State)
    requires Coherent(s, enhanced, served) && OneDirEach(enhanced, served)
    requires Named(r) && (r.resource, r.group, r.version) in served
    requires s'.store == s.store[DiskKey(enhanced, r) := obj] && s'.memory == s.memory[MemKey(r) := obj]
    ensures Coherent(s', enhanced, served)
  {
    forall q | Named(q) && (q.resource, q.group, q.version) in served && MemKey(q) in s'.memory
      ensures DiskKey(enhanced, q) in s'.store && s'.store[DiskKey(enhanced, q)] == s'.memory[MemKey(q)]
    {
      KeysAgree(enhanced, served, q, r);
    }
  }

  lemma StepKeepsCoherent(s: State, enhanced: bool, served: set<(string, string, string)>, step: Step)
    requires Coherent(s, enhanced, served) && OneDirEach(enhanced, served) && Allowed(step, served)
    ensures Coherent(Next(s, enhanced, step), enhanced, served)
  {
    match step {
      case Response(r, obj) =>
        if StoreObject(s.store, DiskKey(enhanced, r), obj, false).0 {
          WriteBothKeepsCoherent(s, enhanced, served, r, obj, Next(s, enhanced, step));
        }
      case Query(r) =>
        if MemKey(r) !in s.memory && DiskKey(enhanced, r) in s.store {
          var obj := s.store[DiskKey(enhanced, r)];
          assert s.store[DiskKey(enhanced, r) := obj] == s.store;
          WriteBothKeepsCoherent(s, enhanced, served, r, obj, Next(s, enhanced, step));
        }
      case Restart =>
    }
  }

  function Run(s: State, enhanced: bool, served: set<(string, string, string)>, steps: seq<Step>): State
    requires forall i :: 0 <= i < |steps| ==> Allowed(steps[i], served)
  {
    if steps == [] then s
    else
      assert Allowed(steps[|steps| - 1], served);
      Next(Run(s, enhanced, served, steps[..|steps| - 1]), enhanced, steps[|steps| - 1])
  }

  /** Main result: over every run, rejected versions and restarts included, a hit returns what the store holds. */
  lemma {:induction false} HitIsWhatStoreHolds(enhanced: bool, served: set<(string, string, string)>, store: Store,
      steps: seq<Step>)
    requires OneDirEach(enhanced, served) && forall i :: 0 <= i < |steps| ==> Allowed(steps[i], served)
    ensures Coherent(Run(State(store, map[]), enhanced, served, steps), enhanced, served)
  {
    if steps != [] {
      var front := steps[..|steps| - 1];
      HitIsWhatStoreHolds(enhanced, served, store, front);
      StepKeepsCoherent(Run(State(store, map[]), enhanced, served, front), enhanced, served, steps[|steps| - 1]);
    }
  }

  /**
   * And so every query is answered with what the store holds and with nothing
   * else, whether memory has it, has lost it at a restart or never had it.
   */
  lemma QueryIsAnsweredFromStore(
      enhanced: bool, served: set<(string, string, string)>, store: Store, steps: seq<Step>, r: Request)
    requires OneDirEach(enhanced, served) && Kubelets(r, served) && forall i :: 0 <= i < |steps| ==>
             Allowed(steps[i], served)
    ensures var s := Run(State(store, map[]), enhanced, served, steps);
            Answer(s, enhanced, r) == if DiskKey(enhanced, r) in s.store then Some(s.store[DiskKey(enhanced, r)])
              else None
  {
    HitIsWhatStoreHolds(enhanced, served, store, steps);
  }

  /** A query for a stored object brings it into memory; a response that is stored does so too. */
  lemma MemoryIsFilled(enhanced: bool, served: set<(string, string, string)>, store: Store, steps: seq<Step>,
      step: Step)
    requires OneDirEach(enhanced, served) && forall i :: 0 <= i < |steps| ==> Allowed(steps[i], served)
    requires Allowed(step, served) && (step.Query? || step.Response?)
    ensures var s := Run(State(store, map[]), enhanced, served, steps);
            var s', key := Next(s, enhanced, step), DiskKey(enhanced, step.req);
            (step.Query? && key in s.store) ||
              (step.Response? && (key in s.store ==> s.store[key].version <= step.obj.version)) ==>
              key in s'.store && MemKey(step.req) in s'.memory && s'.memory[MemKey(step.req)] == s'.store[key]
  {
    HitIsWhatStoreHolds(enhanced, served, store, steps);
  }

  /**
   * Two requests that differ only in group or version, and so in their key on
   * disk, share a key in memory, and the second is answered with the first
   * one's object.
   */
  lemma TwoVersionsCollide(enhanced: bool, a: Request, b: Request, obj: Object)
    requires Named(a) && Named(b)
    requires a.resource == b.resource && a.namespace == b.namespace && a.name == b.name
    requires DiskKey(enhanced, a) != DiskKey(enhanced, b)
    ensures var s := Next(State(map[], map[]), enhanced, Response(a, obj));
            MemKey(b) in s.memory && Answer(s, enhanced, b) == Some(obj) && DiskKey(enhanced, b) !in s.store
  {
  }

  ghost predicate RunCoherent(enhanced: bool, served: set<(string, string, string)>, store: Store, steps: seq<Step>)
  {
    (forall i :: 0 <= i < |steps| ==> Allowed(steps[i], served)) ==>
      Coherent(Run(State(store, map[]), enhanced, served, steps), enhanced, served)
  }

  ghost predicate EveryRunCoherent(enhanced: bool, served: set<(string, string, string)>)
  {
    forall store: Store, steps: seq<Step> :: RunCoherent(enhanced, served, store, steps)
  }

  lemma OneResponseIncoherent(enhanced: bool, served: set<(string, string, string)>, a: Request, b: Request,
      obj: Object)
    requires Kubelets(a, served) && Kubelets(b, served)
    requires a.resource == b.resource && a.namespace == b.namespace && a.name == b.name
    requires DiskKey(enhanced, a) != DiskKey(enhanced, b)
    ensures !EveryRunCoherent(enhanced, served)
  {
    TwoVersionsCollide(enhanced, a, b, obj);
    var none: Store := map[];
    var steps := [Response(a, obj)];
    assert Allowed(steps[0], served);
    assert Run(State(none, map[]), enhanced, served, steps[..0]) == State(none, map[]);
    var s := Run(State(none, map[]), enhanced, served, steps);
    assert s == Next(State(none, map[]), enhanced, Response(a, obj));
    assert !RunCoherent(enhanced, served, none, steps);
  }

  lemma DirsTellKeysApart(enhanced: bool, a: Request, b: Request)
    requires Named(a) && Named(b) && RestOf(a) == RestOf(b)
    requires DirOf(enhanced, (a.resource, a.group, a.version)) != DirOf(enhanced, (b.resource, b.group, b.version))
    ensures DiskKey(enhanced, a) != DiskKey(enhanced, b)
  {
    DiskKeyIs(enhanced, a);
    DiskKeyIs(enhanced, b);
    var da, db := DirOf(enhanced, (a.resource, a.group, a.version)), DirOf(enhanced, (b.resource, b.group, b.version));
    if DiskKey(enhanced, a) == DiskKey(enhanced, b) {
      FrontCancels("kubelet/" + da, "kubelet/" + db, RestOf(a));
      SuffixCancels("kubelet/", da, db);
    }
  }

  lemma FrontCancels(a: string, b: string, rest: string)
    requires a + rest == b + rest
    ensures a == b
  {
    assert |a| == |b|;
    assert a == (a + rest)[..|a|];
    assert b == (b + rest)[..|b|];
  }

  /** Every run stays coherent exactly when each resource is kept in one directory. */
  lemma EveryRunCoherentIff(enhanced: bool, served: set<(string, string, string)>)
    requires forall g :: g in served ==> g.0 == "nodes" || g.0 == "leases"
    ensures EveryRunCoherent(enhanced, served) <==> OneDirEach(enhanced, served)
  {
    if OneDirEach(enhanced, served) {
      forall store: Store, steps: seq<Step> ensures RunCoherent(enhanced, served, store, steps)
      {
        if forall i :: 0 <= i < |steps| ==> Allowed(steps[i], served) {
          HitIsWhatStoreHolds(enhanced, served, store, steps);
        }
      }
    } else {
      var g, h :| g in served && h in served && g.0 == h.0 && DirOf(enhanced, g) != DirOf(enhanced, h);
      var a, b := Request(g.0, g.1, g.2, "", "n"), Request(h.0, h.1, h.2, "", "n");
      DirsTellKeysApart(enhanced, a, b);
      OneResponseIncoherent(enhanced, served, a, b, Object("", "n", 0, ""));
    }
  }

  /**
   * A list by name refreshes the store behind memory's back: memory keeps in
   * step exactly if it has nothing, or the object is refused or already there.
   */
  lemma NamedListKeepsCurrentIff(s: State, enhanced: bool, served: set<(string, string, string)>, r: Request,
      obj: Object)
    requires Coherent(s, enhanced, served) && OneDirEach(enhanced, served) && Kubelets(r, served)
    ensures Coherent(Next(s, enhanced, NamedList(r, obj)), enhanced, served) <==>
            MemKey(r) !in s.memory || obj.version < s.memory[MemKey(r)].version || obj == s.memory[MemKey(r)]
  {
    var s' := Next(s, enhanced, NamedList(r, obj));
    assert s'.memory == s.memory;
    forall q | Named(q) && (q.resource, q.group, q.version) in served && MemKey(q) in s.memory && MemKey(q) != MemKey(r)
      ensures DiskKey(enhanced, q) in s'.store && s'.store[DiskKey(enhanced, q)] == s'.memory[MemKey(q)]
    {
      KeysAgree(enhanced, served, q, r);
    }
    forall q | Named(q) && (q.resource, q.group, q.version) in served && MemKey(q) == MemKey(r)
      ensures DiskKey(enhanced, q) == DiskKey(enhanced, r)
    {
      KeysAgree(enhanced, served, q, r);
    }
  }

  /** One event of a watch by name: memory takes the object whether or not the store did. */
  function AfterWatch(s: State, enhanced: bool, r: Request, obj: Object): State
    requires Named(r)
  {
    State(StoreObject(s.store, DiskKey(enhanced, r), obj, false).1, s.memory[MemKey(r) := obj])
  }

  /** So a watch keeps memory in step exactly when its object is not older than, or is, what is stored. */
  lemma WatchKeepsCurrentIff(s: State, enhanced: bool, r: Request, obj: Object)
    requires Named(r)
    ensures var s' := AfterWatch(s, enhanced, r, obj);
            DiskKey(enhanced, r) in s'.store &&
            (Answer(s', enhanced, r) == Some(s'.store[DiskKey(enhanced, r)]) <==>
             VersionOf(s.store, DiskKey(enhanced, r)) <= obj.version || s.store[DiskKey(enhanced, r)] == obj)
  {
  }

  // ---------- responses and queries that overlap ----------

  /** Store and memory are updated by separate steps; copies maps a key in memory to copies on their way there. */
  datatype Shared = Shared(store: Store, memory: map<string, Object>, copies: seq<(Request, Object)>)

  datatype Action =
    | StoreStep(req: Request, obj: Object)  // storeObjectWithKey inside saveOneObject
    | FetchStep(req: Request)               // storage.Get inside queryOneObject
    | CopyStep(i: nat)                      // inMemoryCacheFor, by whichever request is due
    | RestartStep

  predicate Enabled(s: Shared, a: Action, served: set<(string, string, string)>)
  {
    match a
    case StoreStep(r, _) => Named(r) && (r.resource, r.group, r.version) in served
    case FetchStep(r) => Named(r) && (r.resource, r.group, r.version) in served
    case CopyStep(i) => i < |s.copies|
    case RestartStep => true
  }

  function Act(s: Shared, enhanced: bool, a: Action, served: set<(string, string, string)>): Shared
    requires Enabled(s, a, served)
  {
    match a
    case StoreStep(r, obj) =>
      var (ok, store) := StoreObject(s.store, DiskKey(enhanced, r), obj, false);
      if ok then s.(store := store, copies := s.copies + [(r, obj)]) else s
    case FetchStep(r) =>
      if DiskKey(enhanced, r) in s.store then s.(copies := s.copies + [(r, s.store[DiskKey(enhanced, r)])]) else s
    case CopyStep(i) =>
      s.(memory := s.memory[MemKey(s.copies[i].0) := s.copies[i].1], copies := s.copies[..i] + s.copies[i + 1..])
    case RestartStep => s.(memory := map[], copies := [])
  }

  ghost predicate Behind(s: Shared, enhanced: bool, served: set<(string, string, string)>)
  {
    && (forall i :: 0 <= i < |s.copies| ==>
          && Named(s.copies[i].0)
          && (s.copies[i].0.resource, s.copies[i].0.group, s.copies[i].0.version) in served
          && s.copies[i].1.version <= VersionOf(s.store, DiskKey(enhanced, s.copies[i].0)))
    && (forall r :: Named(r) && (r.resource, r.group, r.version) in served && MemKey(r) in s.memory ==>
          s.memory[MemKey(r)].version <= VersionOf(s.store, DiskKey(enhanced, r)))
  }

  lemma CopyKeepsBehind(s: Shared, enhanced: bool, i: nat, served: set<(string, string, string)>)
    requires OneDirEach(enhanced, served) && Behind(s, enhanced, served) && i < |s.copies|
    ensures Behind(Act(s, enhanced, CopyStep(i), served), enhanced, served)
  {
    var s' := Act(s, enhanced, CopyStep(i), served);
    var (r, obj) := s.copies[i];
    forall q | Named(q) && (q.resource, q.group, q.version) in served && MemKey(q) in s'.memory
      ensures s'.memory[MemKey(q)].version <= VersionOf(s'.store, DiskKey(enhanced, q))
    {
      KeysAgree(enhanced, served, q, r);
    }
  }

  lemma StoreOnly(store: Store, key: string, obj: Object, k: string)
    ensures VersionOf(store, k) <= VersionOf(StoreObject(store, key, obj, false).1, k)
    ensures StoreObject(store, key, obj, false).0 ==>
            VersionOf(StoreObject(store, key, obj, false).1, key) == obj.version
  {
  }

  lemma StoreKeepsBehind(s: Shared, enhanced: bool, r: Request, obj: Object, served: set<(string, string, string)>)
    requires Behind(s, enhanced, served) && Enabled(s, StoreStep(r, obj), served)
    ensures Behind(Act(s, enhanced, StoreStep(r, obj), served), enhanced, served)
    ensures forall k :: VersionOf(s.store, k) <= VersionOf(Act(s, enhanced, StoreStep(r, obj), served).store, k)
  {
    var key := DiskKey(enhanced, r);
    var (ok, store) := StoreObject(s.store, key, obj, false);
    forall k ensures VersionOf(s.store, k) <= VersionOf(store, k) { StoreOnly(s.store, key, obj, k); }
    StoreOnly(s.store, key, obj, key);
  }

  /** Under any interleaving, memory may lag behind the store but never runs ahead of it. */
  lemma ActKeepsBehind(s: Shared, enhanced: bool, a: Action, served: set<(string, string, string)>)
    requires OneDirEach(enhanced, served) && Behind(s, enhanced, served) && Enabled(s, a, served)
    ensures Behind(Act(s, enhanced, a, served), enhanced, served)
    ensures forall k :: VersionOf(s.store, k) <= VersionOf(Act(s, enhanced, a, served).store, k)
  {
    match a {
      case StoreStep(r, obj) => StoreKeepsBehind(s, enhanced, r, obj, served);
      case CopyStep(i) => CopyKeepsBehind(s, enhanced, i, served);
      case _ =>
    }
  }

  // ---------- the order in which copies land ----------

  /** The last object on its way to memory under key k. */
  function LastCopy(copies: seq<(Request, Object)>, k: string): Option<Object>
  {
    if copies == [] then None
    else if MemKey(copies[|copies| - 1].0) == k then Some(copies[|copies| - 1].1)
    else LastCopy(copies[..|copies| - 1], k)
  }

  /** What memory will hold under k once every copy has landed in order. */
  function Due(s: Shared, k: string): Option<Object>
  {
    if LastCopy(s.copies, k).Some? then LastCopy(s.copies, k)
    else if k in s.memory then Some(s.memory[k]) else None
  }

  /** What is due in memory is what the store holds. */
  ghost predicate DueIsStored(s: Shared, enhanced: bool, served: set<(string, string, string)>)
  {
    && (forall i :: 0 <= i < |s.copies| ==> Kubelets(s.copies[i].0, served))
    && (forall r :: Kubelets(r, served) && Due(s, MemKey(r)).Some? ==>
          DiskKey(enhanced, r) in s.store && s.store[DiskKey(enhanced, r)] == Due(s, MemKey(r)).value)
  }

  lemma {:induction false} LastCopyConcat(a: seq<(Request, Object)>, b: seq<(Request, Object)>, k: string)
    ensures LastCopy(a + b, k) == if LastCopy(b, k).Some? then LastCopy(b, k) else LastCopy(a, k)
  {
    if b == [] {
      assert a + b == a;
    } else {
      var n := |b| - 1;
      assert (a + b)[..|a + b| - 1] == a + b[..n];
      LastCopyConcat(a, b[..n], k);
    }
  }

  lemma LastCopyAround(copies: seq<(Request, Object)>, i: nat, k: string)
    requires i < |copies|
    ensures LastCopy(copies, k) ==
            if LastCopy(copies[i + 1..], k).Some? then LastCopy(copies[i + 1..], k)
            else if MemKey(copies[i].0) == k then Some(copies[i].1) else LastCopy(copies[..i], k)
  {
    var front, rest := copies[..i + 1], copies[i + 1..];
    assert copies == front + rest;
    LastCopyConcat(front, rest, k);
    LastCopyUpTo(copies, i, k);
  }

  lemma LastCopyUpTo(copies: seq<(Request, Object)>, i: nat, k: string)
    requires i < |copies|
    ensures LastCopy(copies[..i + 1], k) == if MemKey(copies[i].0) == k then Some(copies[i].1)
            else LastCopy(copies[..i], k)
  {
    var front := copies[..i + 1];
    assert front[..i] == copies[..i] && front[i] == copies[i];
  }

  /** The copy is the newest under its key and lands before another one, with another object, that was taken earlier. */
  predicate Overtakes(s: Shared, i: nat)
    requires i < |s.copies|
  {
    var k := MemKey(s.copies[i].0);
    LastCopy(s.copies[i + 1..], k).None? && LastCopy(s.copies[..i], k).Some? &&
      LastCopy(s.copies[..i], k).value != s.copies[i].1
  }

  lemma CopyKeepsDueIff(s: Shared, enhanced: bool, served: set<(string, string, string)>, i: nat, k: string)
    requires i < |s.copies|
    ensures Due(Act(s, enhanced, CopyStep(i), served), k) == Due(s, k) <==>
            !(Overtakes(s, i) && k == MemKey(s.copies[i].0))
    ensures Overtakes(s, i) && k == MemKey(s.copies[i].0) ==>
              Due(Act(s, enhanced, CopyStep(i), served), k).Some? && Due(s, k).Some?
  {
    DueAround(s, i, k);
    DueAfterCopy(s, enhanced, served, i, k);
  }

  /** What is due, told by the copies behind and before the i-th. */
  lemma DueAround(s: Shared, i: nat, k: string)
    requires i < |s.copies|
    ensures Due(s, k) ==
            if LastCopy(s.copies[i + 1..], k).Some? then LastCopy(s.copies[i + 1..], k)
            else if MemKey(s.copies[i].0) == k then Some(s.copies[i].1)
            else if LastCopy(s.copies[..i], k).Some? then LastCopy(s.copies[..i], k)
            else if k in s.memory then Some(s.memory[k]) else None
  {
    LastCopyAround(s.copies, i, k);
  }

  lemma DueAfterCopy(s: Shared, enhanced: bool, served: set<(string, string, string)>, i: nat, k: string)
    requires i < |s.copies|
    ensures Due(Act(s, enhanced, CopyStep(i), served), k) ==
            if LastCopy(s.copies[i + 1..], k).Some? then LastCopy(s.copies[i + 1..], k)
            else if LastCopy(s.copies[..i], k).Some? then LastCopy(s.copies[..i], k)
            else if MemKey(s.copies[i].0) == k then Some(s.copies[i].1)
            else if k in s.memory then Some(s.memory[k]) else None
  {
    var s' := Act(s, enhanced, CopyStep(i), served);
    LastCopyConcat(s.copies[..i], s.copies[i + 1..], k);
    assert LastCopy(s'.copies, k) == LastCopy(s.copies[..i] + s.copies[i + 1..], k);
    assert s'.memory == s.memory[MemKey(s.copies[i].0) := s.copies[i].1];
  }

  lemma SameDueIsStored(s: Shared, s': Shared, enhanced: bool, served: set<(string, string, string)>)
    requires DueIsStored(s, enhanced, served) && s'.store == s.store
    requires forall j :: 0 <= j < |s'.copies| ==> Kubelets(s'.copies[j].0, served)
    requires forall k :: Due(s', k) == Due(s, k)
    ensures DueIsStored(s', enhanced, served)
  {
    forall r | Kubelets(r, served) && Due(s', MemKey(r)).Some?
      ensures DiskKey(enhanced, r) in s'.store && s'.store[DiskKey(enhanced, r)] == Due(s', MemKey(r)).value
    {
      assert Due(s', MemKey(r)) == Due(s, MemKey(r));
    }
  }

  lemma OtherDueIsNotStored(s: Shared, s': Shared, enhanced: bool, served: set<(string, string, string)>, r: Request)
    requires DueIsStored(s, enhanced, served) && s'.store == s.store && Kubelets(r, served)
    requires Due(s, MemKey(r)).Some? && Due(s', MemKey(r)).Some? && Due(s', MemKey(r)) != Due(s, MemKey(r))
    ensures !DueIsStored(s', enhanced, served)
  {
  }

  /**
   * Out of a state in which memory is bound for what the store holds, a copy
   * that lands keeps it so exactly when it does not overtake another one.
   */
  lemma CopyKeepsCurrentIff(s: Shared, enhanced: bool, served: set<(string, string, string)>, i: nat)
    requires OneDirEach(enhanced, served) && DueIsStored(s, enhanced, served) && i < |s.copies|
    ensures DueIsStored(Act(s, enhanced, CopyStep(i), served), enhanced, served) <==> !Overtakes(s, i)
  {
    var s', r := Act(s, enhanced, CopyStep(i), served), s.copies[i].0;
    if Overtakes(s, i) {
      CopyKeepsDueIff(s, enhanced, served, i, MemKey(r));
      OtherDueIsNotStored(s, s', enhanced, served, r);
    } else {
      forall k ensures Due(s', k) == Due(s, k) { CopyKeepsDueIff(s, enhanced, served, i, k); }
      SameDueIsStored(s, s', enhanced, served);
    }
  }

  /** A store write or a fetch: obj, now in the store under r, is put on its way to memory. */
  lemma NewCopyKeepsDueIsStored(s: Shared, enhanced: bool, served: set<(string, string, string)>, r: Request,
      obj: Object)
    requires OneDirEach(enhanced, served) && DueIsStored(s, enhanced, served) && Kubelets(r, served)
    ensures DueIsStored(s.(store := s.store[DiskKey(enhanced, r) := obj], copies := s.copies + [(r, obj)]), enhanced,
            served)
  {
    var s' := s.(store := s.store[DiskKey(enhanced, r) := obj], copies := s.copies + [(r, obj)]);
    forall q | Kubelets(q, served) && Due(s', MemKey(q)).Some?
      ensures DiskKey(enhanced, q) in s'.store && s'.store[DiskKey(enhanced, q)] == Due(s', MemKey(q)).value
    {
      assert s'.copies[..|s.copies|] == s.copies;
      KeysAgree(enhanced, served, q, r);
      if MemKey(q) != MemKey(r) { assert Due(s', MemKey(q)) == Due(s, MemKey(q)); }
    }
  }

  lemma OrderedActKeepsDueIsStored(s: Shared, enhanced: bool, served: set<(string, string, string)>, a: Action)
    requires OneDirEach(enhanced, served) && DueIsStored(s, enhanced, served) && Enabled(s, a, served)
    requires a.CopyStep? ==> !Overtakes(s, a.i)
    ensures DueIsStored(Act(s, enhanced, a, served), enhanced, served)
  {
    match a {
      case StoreStep(r, obj) =>
        if StoreObject(s.store, DiskKey(enhanced, r), obj, false).0 {
          NewCopyKeepsDueIsStored(s, enhanced, served, r, obj);
        }
      case FetchStep(r) =>
        if DiskKey(enhanced, r) in s.store {
          var obj := s.store[DiskKey(enhanced, r)];
          assert s.store[DiskKey(enhanced, r) := obj] == s.store;
          NewCopyKeepsDueIsStored(s, enhanced, served, r, obj);
        }
      case CopyStep(i) => CopyKeepsCurrentIff(s, enhanced, served, i);
      case RestartStep =>
    }
  }

  predicate OrderedRun(s: Shared, enhanced: bool, served: set<(string, string, string)>, acts: seq<Action>)
    decreases |acts|
  {
    acts == [] ||
    (Enabled(s, acts[0], served) && (acts[0].CopyStep? ==> !Overtakes(s, acts[0].i)) &&
     OrderedRun(Act(s, enhanced, acts[0], served), enhanced, served, acts[1..]))
  }

  function ActAll(s: Shared, enhanced: bool, served: set<(string, string, string)>, acts: seq<Action>): Shared
    requires OrderedRun(s, enhanced, served, acts)
    decreases |acts|
  {
    if acts == [] then s else ActAll(Act(s, enhanced, acts[0], served), enhanced, served, acts[1..])
  }

  lemma {:induction false} OrderedRunKeepsDueIsStored(s: Shared, enhanced: bool, served: set<(string, string, string)>,
      acts: seq<Action>)
    requires OneDirEach(enhanced, served) && DueIsStored(s, enhanced, served) && OrderedRun(s, enhanced, served, acts)
    ensures DueIsStored(ActAll(s, enhanced, served, acts), enhanced, served)
    decreases |acts|
  {
    if acts != [] {
      OrderedActKeepsDueIsStored(s, enhanced, served, acts[0]);
      OrderedRunKeepsDueIsStored(Act(s, enhanced, acts[0], served), enhanced, served, acts[1..]);
    }
  }

  /**
   * Responses, queries and restarts may overlap as they like: as long as no
   * copy overtakes another on its way to memory, memory agrees with the store
   * whenever no copy is under way.
   */
  lemma OrderedCopiesStayCurrent(enhanced: bool, served: set<(string, string, string)>, store: Store, acts: seq<Action>)
    requires OneDirEach(enhanced, served) && OrderedRun(Shared(store, map[], []), enhanced, served, acts)
    requires ActAll(Shared(store, map[], []), enhanced, served, acts).copies == []
    ensures var s := ActAll(Shared(store, map[], []), enhanced, served, acts);
            Coherent(State(s.store, s.memory), enhanced, served)
  {
    var s := ActAll(Shared(store, map[], []), enhanced, served, acts);
    OrderedRunKeepsDueIsStored(Shared(store, map[], []), enhanced, served, acts);
    forall r | Named(r) && (r.resource, r.group, r.version) in served && MemKey(r) in s.memory
      ensures DiskKey(enhanced, r) in s.store && s.store[DiskKey(enhanced, r)] == s.memory[MemKey(r)]
    {
      assert Kubelets(r, served) && Due(s, MemKey(r)) == Some(s.memory[MemKey(r)]);
    }
  }

  // ---------- which object wins, and that memory gets it ----------

  predicate Writes(a: Action, enhanced: bool, key: string)
  {
    a.StoreStep? && Named(a.req) && DiskKey(enhanced, a.req) == key
  }

  /** Action i brings the newest object for key: older than none before it and newer than any after it. */
  predicate NewestAt(start: int, acts: seq<Action>, enhanced: bool, key: string, i: nat)
  {
    && i < |acts| && Writes(acts[i], enhanced, key) && start <= acts[i].obj.version
    && (forall j :: 0 <= j < i && Writes(acts[j], enhanced, key) ==> acts[j].obj.version <= acts[i].obj.version)
    && (forall j :: i < j < |acts| && Writes(acts[j], enhanced, key) ==> acts[j].obj.version < acts[i].obj.version)
  }

  lemma {:induction false} OlderChangeNothing(
      s: Shared, enhanced: bool, served: set<(string, string, string)>, acts: seq<Action>, key: string)
    requires OrderedRun(s, enhanced, served, acts) && key in s.store
    requires forall j :: 0 <= j < |acts| && Writes(acts[j], enhanced, key) ==>
               acts[j].obj.version < s.store[key].version
    ensures key in ActAll(s, enhanced, served, acts).store &&
            ActAll(s, enhanced, served, acts).store[key] == s.store[key]
    decreases |acts|
  {
    if acts != [] {
      assert Writes(acts[0], enhanced, key) ==> acts[0].obj.version < s.store[key].version;
      var s' := Act(s, enhanced, acts[0], served);
      assert key in s'.store && s'.store[key] == s.store[key];
      forall j | 0 <= j < |acts[1..]| && Writes(acts[1..][j], enhanced, key)
        ensures acts[1..][j].obj.version < s'.store[key].version
      {
        assert acts[1..][j] == acts[j + 1];
      }
      OlderChangeNothing(s', enhanced, served, acts[1..], key);
    }
  }

  lemma NewestShifts(start: int, start': int, acts: seq<Action>, enhanced: bool, key: string, i: nat)
    requires NewestAt(start, acts, enhanced, key, i) && i > 0
    requires start' <= if Writes(acts[0], enhanced, key) && start < acts[0].obj.version then acts[0].obj.version
             else start
    ensures NewestAt(start', acts[1..], enhanced, key, i - 1)
  {
    var rest := acts[1..];
    forall j | 0 <= j < i - 1 && Writes(rest[j], enhanced, key) ensures rest[j].obj.version <= acts[i].obj.version
    {
      assert rest[j] == acts[j + 1];
    }
    forall j | i - 1 < j < |rest| && Writes(rest[j], enhanced, key) ensures rest[j].obj.version < acts[i].obj.version
    {
      assert rest[j] == acts[j + 1];
    }
  }

  /**
   * However responses, queries and copies overlap, the store ends up with the
   * newest object it was given for the key.
   */
  lemma {:induction false} NewestResponseIsStored(
      s: Shared, enhanced: bool, served: set<(string, string, string)>, acts: seq<Action>, key: string, i: nat)
    requires OrderedRun(s, enhanced, served, acts) && NewestAt(VersionOf(s.store, key), acts, enhanced, key, i)
    ensures var s' := ActAll(s, enhanced, served, acts);
            key in s'.store && s'.store[key] == acts[i].obj
    decreases |acts|
  {
    var s' := Act(s, enhanced, acts[0], served);
    if i == 0 {
      assert key in s'.store && s'.store[key] == acts[0].obj;
      forall j | 0 <= j < |acts[1..]| && Writes(acts[1..][j], enhanced, key)
        ensures acts[1..][j].obj.version < s'.store[key].version
      {
        assert acts[1..][j] == acts[j + 1];
      }
      OlderChangeNothing(s', enhanced, served, acts[1..], key);
    } else {
      NewestShifts(VersionOf(s.store, key), VersionOf(s'.store, key), acts, enhanced, key, i);
      NewestResponseIsStored(s', enhanced, served, acts[1..], key, i - 1);
    }
  }

  lemma DueStaysSome(s: Shared, enhanced: bool, served: set<(string, string, string)>, a: Action, k: string)
    requires Enabled(s, a, served) && !a.RestartStep? && Due(s, k).Some?
    ensures Due(Act(s, enhanced, a, served), k).Some?
  {
    match a {
      case StoreStep(r, obj) => LastCopyConcat(s.copies, [(r, obj)], k);
      case FetchStep(r) =>
        if DiskKey(enhanced, r) in s.store { LastCopyConcat(s.copies, [(r, s.store[DiskKey(enhanced, r)])], k); }
      case CopyStep(i) => CopyKeepsDueIff(s, enhanced, served, i, k);
    }
  }

  lemma {:induction false} DueStaysSomeRun(s: Shared, enhanced: bool, served: set<(string, string, string)>,
      acts: seq<Action>, k: string)
    requires OrderedRun(s, enhanced, served, acts) && Due(s, k).Some?
    requires forall j :: 0 <= j < |acts| ==> !acts[j].RestartStep?
    ensures Due(ActAll(s, enhanced, served, acts), k).Some?
    decreases |acts|
  {
    if acts != [] {
      DueStaysSome(s, enhanced, served, acts[0], k);
      DueStaysSomeRun(Act(s, enhanced, acts[0], served), enhanced, served, acts[1..], k);
    }
  }

  /**
   * a puts the object under r's key on its way: a response that is not older
   * than what is stored, or a query that finds it.
   */
  predicate Brings(s: Shared, enhanced: bool, a: Action, r: Request)
    requires Named(r)
  {
    || (a.StoreStep? && a.req == r && VersionOf(s.store, DiskKey(enhanced, r)) <= a.obj.version)
    || (a.FetchStep? && a.req == r && DiskKey(enhanced, r) in s.store)
  }

  lemma BringsMakesDue(s: Shared, enhanced: bool, served: set<(string, string, string)>, a: Action, r: Request)
    requires Enabled(s, a, served) && Named(r) && Brings(s, enhanced, a, r)
    ensures Due(Act(s, enhanced, a, served), MemKey(r)).Some?
  {
    var s' := Act(s, enhanced, a, served);
    assert s'.copies != [] && s'.copies[|s'.copies| - 1].0 == r;
  }

  /**
   * And memory catches up: after such an action, without a restart, it holds
   * what the store holds as soon as no copy is under way.
   */
  lemma MemoryCatchesUp(
      s: Shared, enhanced: bool, served: set<(string, string, string)>, a: Action, after: seq<Action>, r: Request)
    requires OneDirEach(enhanced, served) && DueIsStored(s, enhanced, served) && Enabled(s, a, served)
    requires Kubelets(r, served) && Brings(s, enhanced, a, r)
    requires OrderedRun(Act(s, enhanced, a, served), enhanced, served, after)
    requires forall j :: 0 <= j < |after| ==> !after[j].RestartStep?
    requires ActAll(Act(s, enhanced, a, served), enhanced, served, after).copies == []
    ensures var s' := ActAll(Act(s, enhanced, a, served), enhanced, served, after);
            && MemKey(r) in s'.memory && DiskKey(enhanced, r) in s'.store
            && s'.memory[MemKey(r)] == s'.store[DiskKey(enhanced, r)]
  {
    var s1 := Act(s, enhanced, a, served);
    BringsMakesDue(s, enhanced, served, a, r);
    OrderedActKeepsDueIsStored(s, enhanced, served, a);
    DueStaysSomeRun(s1, enhanced, served, after, MemKey(r));
    OrderedRunKeepsDueIsStored(s1, enhanced, served, after);
  }

  // ---------- the object ----------

  class KubeletCache {
    var store: Store
    var inMemoryCache: map<string, Object>
    const enhanced: bool

    function Abs(): State
      reads this
    {
      State(store, inMemoryCache)
    }

    constructor (onDisk: Store, enhancedMode: bool)
      ensures Abs() == State(onDisk, map[]) && enhanced == enhancedMode
    {
      store, inMemoryCache, enhanced := onDisk, map[], enhancedMode;
    }

    method StoreObjectWithKey(key: string, obj: Object, unassignedPod: bool) returns (ok: bool)
      modifies this`store
      ensures (ok, store) == StoreObject(old(store), key, obj, unassignedPod)
      ensures ok <==> !unassignedPod && (key in old(store) ==> old(store)[key].version <= obj.version)
      ensures store == if ok then old(store)[key := obj] else old(store)
      ensures VersionOf(old(store), key) <= VersionOf(store, key)
    {
      if unassignedPod {
        return false;
      }
      var (r, updated) := Update(store, key, obj);
      if r == Updated {
        store := updated;
        return true;
      }
      if r == Conflict {
        return false;
      }
      var (created, store') := Create(store, key, obj);
      store := store';
      return created;
    }

    method SaveOneObject(req: Request, obj: Object) returns (ok: bool)
      requires Named(req)
      modifies this
      ensures Abs() == Next(old(Abs()), enhanced, Response(req, obj))
      ensures ok <==>
              (DiskKey(enhanced, req) in old(store) ==> old(store)[DiskKey(enhanced, req)].version <= obj.version)
      ensures store == if ok then old(store)[DiskKey(enhanced, req) := obj] else old(store)
      ensures inMemoryCache == if ok then old(inMemoryCache)[MemKey(req) := obj] else old(inMemoryCache)
    {
      ok := StoreObjectWithKey(DiskKey(enhanced, req), obj, false);
      if ok {
        inMemoryCache := inMemoryCache[MemKey(req) := obj];
      }
    }

    method QueryOneObject(req: Request) returns (answer: Option<Object>)
      requires Named(req)
      modifies this`inMemoryCache
      ensures answer == Answer(old(Abs()), enhanced, req)
      ensures Abs() == Next(old(Abs()), enhanced, Query(req))
      ensures (MemKey(req) in old(inMemoryCache) ==>
                 DiskKey(enhanced, req) in store &&
                   store[DiskKey(enhanced, req)] == old(inMemoryCache)[MemKey(req)]) ==>
                answer == if DiskKey(enhanced, req) in store then Some(store[DiskKey(enhanced, req)]) else None
      ensures answer.Some? ==> inMemoryCache == old(inMemoryCache)[MemKey(req) := answer.value]
      ensures answer.None? ==> inMemoryCache == old(inMemoryCache)
    {
      if MemKey(req) in inMemoryCache {
        return Some(inMemoryCache[MemKey(req)]);
      }
      var key := DiskKey(enhanced, req);
      if key !in store {
        return None;
      }
      inMemoryCache := inMemoryCache[MemKey(req) := store[key]];
      answer := Some(store[key]);
    }
  }
}
