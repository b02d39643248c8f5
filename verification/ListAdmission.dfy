/**
 * The cache manager's admission of list requests, and what it is for: over any
 * run of list responses, of watch events and of single objects stored, what an
 * accepted list is answered with, and when that is what the server has.
 */
module ListAdmission {
  import opened Collections
  import opened Objects
  import opened DiskTree
  import opened StoreKeys
  import opened ListCache
  import Strs

  // ---------- admission ----------

  /** A request as CanCacheFor sees it; convert is the suffix a partial-metadata request adds to its component. */
  datatype Request = Request(
    component: string, cacheableComponent: bool, hasInfo: bool, isResource: bool, verb: string, subresource: string,
    convert: string, info: Info, selector: string)

  type Table = map<string, string>

  /** The checks that come before the table of list selectors. */
  predicate Cacheable(req: Request)
  {
    && req.component != "" && req.cacheableComponent && req.hasInfo && req.isResource
    && req.verb !in {"delete", "deletecollection", "proxy"}
    && (req.subresource == "" || req.subresource == "status")
    && req.info.resource !in {"certificatesigningrequests", "subjectaccessreviews"}
  }

  predicate UnnamedList(req: Request)
  {
    req.verb == "list" && req.info.name == ""
  }

  function KeyInfo(req: Request): Info
  {
    req.info.(component := req.component + Segment(req.convert))
  }

  lemma MiddleCancels(front: string, a: string, b: string, tail: string)
    requires front + Segment(a) + tail == front + Segment(b) + tail
    ensures a == b
  {
    assert |Segment(a)| == |Segment(b)|;
    assert Segment(a) == (front + Segment(a) + tail)[|front|..|front| + |Segment(a)|];
    assert Segment(b) == (front + Segment(b) + tail)[|front|..|front| + |Segment(b)|];
    assert a != "" ==> Segment(a)[1..] == a;
    assert b != "" ==> Segment(b)[1..] == b;
  }

  /** A key behind its component. */
  function KeyTail(enhanced: bool, info: Info): string
  {
    var ns := if info.resource == "namespaces" then "" else Segment(info.namespace);
    "/" + (ResourceDir(enhanced, info) + (ns + Segment(info.name)))
  }

  lemma KeyInParts(enhanced: bool, info: Info)
    requires HasKey(info)
    ensures KeyOf(enhanced, info).value == info.component + KeyTail(enhanced, info)
  {
    var ns := if info.resource == "namespaces" then "" else Segment(info.namespace);
    var name, dir := Segment(info.name), ResourceDir(enhanced, info);
    var base := info.component + "/" + dir;
    assert KeyOf(enhanced, info).value == base + ns + name;
    assert base + ns + name == info.component + ("/" + (dir + (ns + name)));
  }

  /**
   * One resource asked for in full, and as partial metadata of one version or
   * another, is cached under different keys.
   */
  lemma ConvertedApart(enhanced: bool, r1: Request, r2: Request)
    requires r1 == r2.(convert := r1.convert) && r1.convert != r2.convert && HasKey(KeyInfo(r1)) && HasKey(KeyInfo(r2))
    ensures KeyOf(enhanced, KeyInfo(r1)) != KeyOf(enhanced, KeyInfo(r2))
  {
    KeyInParts(enhanced, KeyInfo(r1));
    KeyInParts(enhanced, KeyInfo(r2));
    var tail := KeyTail(enhanced, r1.info);
    assert KeyTail(enhanced, KeyInfo(r1)) == tail && KeyTail(enhanced, KeyInfo(r2)) == tail;
    if KeyOf(enhanced, KeyInfo(r1)) == KeyOf(enhanced, KeyInfo(r2)) {
      MiddleCancels(r1.component, r1.convert, r2.convert, tail);
    }
  }

  /** One key properly contains the other. */
  predicate Overlap(a: string, b: string)
  {
    (|a| > |b| && Strs.Contains(a, b)) || (|a| < |b| && Strs.Contains(b, a))
  }

  function Admit(table: Table, key: string, selector: string): (r: (bool, Table))
  {
    if key in table then (table[key] == selector, table)
    else if exists k :: k in table && Overlap(k, key) then (false, table)
    else (true, table[key := selector])
  }

  function CanCache(table: Table, enhanced: bool, req: Request): (bool, Table)
  {
    if !Cacheable(req) then (false, table)
    else if !UnnamedList(req) then (true, table)
    else
      match KeyOf(enhanced, KeyInfo(req))
      case None => (false, table)
      case Some(key) => Admit(table, key, req.selector)
  }

  /** No recorded key occurs inside another. */
  ghost predicate Antichain(table: Table)
  {
    forall a, b :: a in table && b in table && a != b ==> !Strs.Contains(a, b)
  }

  lemma ContainedSameLength(a: string, b: string)
    requires Strs.Contains(a, b) && |a| <= |b|
    ensures a == b
  {
    var i :| 0 <= i <= |a| && Strs.OccursAt(a, b, i);
    assert a[0..|b|] == b;
  }

  lemma AdmitKeepsAntichain(table: Table, key: string, selector: string)
    requires Antichain(table)
    ensures Antichain(Admit(table, key, selector).1)
    ensures forall k :: k in table ==>
              k in Admit(table, key, selector).1 && Admit(table, key, selector).1[k] == table[k]
    ensures Admit(table, key, selector).0 ==>
              key in Admit(table, key, selector).1 && Admit(table, key, selector).1[key] == selector
  {
    var table' := Admit(table, key, selector).1;
    forall a, b | a in table' && b in table' && a != b ensures !Strs.Contains(a, b)
    {
      if Strs.Contains(a, b) && (a == key || b == key) && key !in table {
        if |a| <= |b| { ContainedSameLength(a, b); }
        assert Overlap(a, b) && Overlap(b, a);
      }
    }
  }

  function CanCacheAll(table: Table, enhanced: bool, reqs: seq<Request>): Table
  {
    if reqs == [] then table
    else CanCache(CanCacheAll(table, enhanced, reqs[..|reqs| - 1]), enhanced, reqs[|reqs| - 1]).1
  }

  /** Over every run of CanCacheFor, recorded lists are never changed or removed and stay an antichain. */
  lemma {:induction false} TableOverRuns(table: Table, enhanced: bool, reqs: seq<Request>)
    requires Antichain(table)
    ensures Antichain(CanCacheAll(table, enhanced, reqs))
    ensures forall k :: k in table ==>
              k in CanCacheAll(table, enhanced, reqs) && CanCacheAll(table, enhanced, reqs)[k] == table[k]
  {
    if reqs != [] {
      var front, req := reqs[..|reqs| - 1], reqs[|reqs| - 1];
      TableOverRuns(table, enhanced, front);
      var key := KeyOf(enhanced, KeyInfo(req));
      if key.Some? {
        AdmitKeepsAntichain(CanCacheAll(table, enhanced, front), key.value, req.selector);
      }
    }
  }

  predicate Accepts(table: Table, enhanced: bool, req: Request)
  {
    UnnamedList(req) && CanCache(table, enhanced, req).0
  }

  // ---------- what is accepted ----------

  /** The key is recorded with this selector, or not recorded and without any recorded key inside it or around it. */
  predicate Fits(table: Table, key: string, selector: string)
  {
    if key in table then table[key] == selector
    else forall k :: k in table ==> !Strs.Contains(k, key) && !Strs.Contains(key, k)
  }

  lemma OverlapMeansContains(k: string, key: string)
    requires k != key
    ensures Overlap(k, key) <==> Strs.Contains(k, key) || Strs.Contains(key, k)
  {
    if Strs.Contains(k, key) && |k| <= |key| { ContainedSameLength(k, key); }
    if Strs.Contains(key, k) && |key| <= |k| { ContainedSameLength(key, k); }
  }

  lemma AdmitIff(table: Table, key: string, selector: string)
    ensures Admit(table, key, selector).0 <==> Fits(table, key, selector)
    ensures Admit(table, key, selector).1 == if Fits(table, key, selector) then table[key := selector] else table
  {
    if key !in table {
      forall k | k in table ensures Overlap(k, key) <==> Strs.Contains(k, key) || Strs.Contains(key, k)
      {
        OverlapMeansContains(k, key);
      }
    } else if table[key] == selector {
      assert table[key := selector] == table;
    }
  }

  /**
   * Any request that passes the checks is let in, but a list without a name
   * only when its key has a place in the table.
   */
  lemma CanCacheIff(table: Table, enhanced: bool, req: Request)
    ensures CanCache(table, enhanced, req).0 <==>
            && req.component != "" && req.cacheableComponent && req.hasInfo && req.isResource
            && req.verb != "delete" && req.verb != "deletecollection" && req.verb != "proxy"
            && (req.subresource == "" || req.subresource == "status")
            && req.info.resource != "certificatesigningrequests" && req.info.resource != "subjectaccessreviews"
            && (req.verb == "list" && req.info.name == "" ==>
                  req.info.resource != "" && Fits(table, KeyOf(enhanced, KeyInfo(req)).value, req.selector))
  {
    if KeyOf(enhanced, KeyInfo(req)).Some? { AdmitIff(table, KeyOf(enhanced, KeyInfo(req)).value, req.selector); }
  }

  /** The first list that passes the checks is accepted. */
  lemma FirstListIsAccepted(enhanced: bool, req: Request)
    requires Cacheable(req) && UnnamedList(req) && req.info.resource != ""
    ensures Accepts(map[], enhanced, req)
  {
    CanCacheIff(map[], enhanced, req);
  }

  /** A list accepted once is accepted after whatever requests came in between. */
  lemma AcceptedStaysAccepted(table: Table, enhanced: bool, req: Request, between: seq<Request>)
    requires Antichain(table) && Accepts(table, enhanced, req)
    ensures Accepts(CanCacheAll(CanCache(table, enhanced, req).1, enhanced, between), enhanced, req)
  {
    AdmitKeepsAntichain(table, KeyOf(enhanced, KeyInfo(req)).value, req.selector);
    TableOverRuns(CanCache(table, enhanced, req).1, enhanced, between);
  }

  /** Two list requests accepted at any two times share key and selector, or neither key contains the other. */
  lemma AcceptedListsAgreeOrDiffer(table: Table, enhanced: bool, r1: Request, between: seq<Request>, r2: Request)
    requires Antichain(table) && Accepts(table, enhanced, r1)
    requires Accepts(CanCacheAll(CanCache(table, enhanced, r1).1, enhanced, between), enhanced, r2)
    ensures KeyOf(enhanced, KeyInfo(r1)).Some? && KeyOf(enhanced, KeyInfo(r2)).Some?
    ensures var k1, k2 := KeyOf(enhanced, KeyInfo(r1)).value, KeyOf(enhanced, KeyInfo(r2)).value;
            (k1 == k2 && r1.selector == r2.selector) || (!Strs.Contains(k1, k2) && !Strs.Contains(k2, k1))
  {
    var k1, k2 := KeyOf(enhanced, KeyInfo(r1)).value, KeyOf(enhanced, KeyInfo(r2)).value;
    AdmitKeepsAntichain(table, k1, r1.selector);
    var t1 := CanCache(table, enhanced, r1).1;
    TableOverRuns(t1, enhanced, between);
    var t2 := CanCacheAll(t1, enhanced, between);
    AdmitKeepsAntichain(t2, k2, r2.selector);
  }

  // ---------- whole runs of responses ----------

  /** Per list, server remembers the objects the server has and held those in the store. */
  datatype State = State(
    table: Table, tree: Tree, server: map<string, map<string, Object>>, held: map<string, map<string, Object>>)

  datatype Step =
    | ListResponse(req: Request, items: seq<Object>)
    | ObjectResponse(req: Request, event: WatchEvent, listed: bool)  // a watch event, or an answer with one object
    | EmptyNamedList(req: Request)                                   // a list by name that finds nothing

  /** The name an object is filed under: its own, or the request's. */
  function StoredName(req: Request, e: WatchEvent): string
  {
    if req.verb in {"watch", "list", "create"} then e.obj.name else req.info.name
  }

  function StoredNamespace(req: Request, e: WatchEvent): string
  {
    if req.verb == "watch" then e.obj.namespace
    else if req.verb == "list" then EffectiveNamespace(req.info, e.obj)
    else req.info.namespace
  }

  /** The key of saveWatchObject, of saveListObject for one object found by name, and of saveOneObject. */
  function StoredKey(enhanced: bool, req: Request, e: WatchEvent): string
    requires HasKey(KeyInfo(req))
  {
    KeyOf(enhanced, KeyInfo(req).(namespace := StoredNamespace(req, e), name := StoredName(req, e))).value
  }

  /** The request, watch or answer is about the object of this name in namespace ns. */
  predicate Concerns(req: Request, obj: Object, ns: string)
  {
    match req.verb
    case "watch" => obj.namespace == ns
    case "list" => obj.namespace in {"", ns} && (obj.namespace == "" ==> req.info.namespace == ns)
    case "create" => req.info.namespace == ns
    case _ => req.info.namespace == ns && req.info.name == obj.name
  }

  lemma FiledByNamespaceAndName(enhanced: bool, req: Request, e: WatchEvent, ns: string)
    requires HasKey(KeyInfo(req)) && Concerns(req, e.obj, ns)
    ensures StoredKey(enhanced, req, e) == KeyOf(enhanced, KeyInfo(req).(namespace := ns, name := e.obj.name)).value
    ensures UnnamedList(req) ==> ItemKey(enhanced, KeyInfo(req), e.obj) == StoredKey(enhanced, req, e)
  {
  }

  /**
   * However one component comes by an object, in a list over its namespace or
   * over all, by a watch, by a create, a get or an update, it is filed under
   * one key.
   */
  lemma OneKeyPerObject(enhanced: bool, r1: Request, e1: WatchEvent, r2: Request, e2: WatchEvent, ns: string)
    requires HasKey(KeyInfo(r1)) && HasKey(KeyInfo(r2)) && Concerns(r1, e1.obj, ns) && Concerns(r2, e2.obj, ns)
    requires e1.obj.name == e2.obj.name
    requires KeyInfo(r1).(namespace := "", name := "") == KeyInfo(r2).(namespace := "", name := "")
    ensures StoredKey(enhanced, r1, e1) == StoredKey(enhanced, r2, e2)
    ensures UnnamedList(r1) ==> ItemKey(enhanced, KeyInfo(r1), e1.obj) == StoredKey(enhanced, r2, e2)
  {
    FiledByNamespaceAndName(enhanced, r1, e1, ns);
    FiledByNamespaceAndName(enhanced, r2, e2, ns);
    assert KeyInfo(r1).(namespace := ns, name := e1.obj.name) == KeyInfo(r2).(namespace := ns, name := e2.obj.name);
  }

  /**
   * The object of an answer is stored as an added one is. An object's key is
   * not the key of a list in the cache, nor above one.
   */
  predicate StoresObject(s: State, enhanced: bool, req: Request, e: WatchEvent)
  {
    && Cacheable(req) && HasKey(KeyInfo(req)) && !UnnamedList(req)
    && (req.verb != "watch" ==> e.Changed?)
    && (req.verb == "list" ==> e.obj.name != "")
    && forall k :: k in s.held ==> !Under(StoredKey(enhanced, req, e), k)
  }

  predicate Well(s: State, enhanced: bool, step: Step)
  {
    match step
    case ListResponse(req, items) =>
      UnnamedList(req) && (Cacheable(req) ==> GoodList(KeyInfo(req), items) && OneScope(KeyInfo(req), items))
    case ObjectResponse(req, e, _) => StoresObject(s, enhanced, req, e)
    case EmptyNamedList(req) => req.verb == "list" && req.info.name != "" && HasKey(KeyInfo(req))
  }

  function WithoutBelow(m: map<string, Object>, root: string): map<string, Object>
  {
    m - (set c | c in m && Under(root, c))
  }

  /**
   * What is left of the lists when the subtree of root is replaced by nothing;
   * a list below root is gone altogether.
   */
  function Wiped(held: map<string, map<string, Object>>, root: string): map<string, map<string, Object>>
  {
    map k | k in held && !Below(root, k) :: WithoutBelow(held[k], root)
  }

  /**
   * An object is stored or deleted under its key; listed tells whether the event
   * is also what has become of the server's objects of the list it lies in.
   */
  function AfterObject(s: State, key: string, e: WatchEvent, listed: bool): State
  {
    var s' := s.(tree := AfterEvent(s.tree, key, e));
    match Cover(s.held.Keys, key)
    case None => s'
    case Some(k) =>
      if k !in s.held || k !in s.server then s'
      else s'.(held := s.held[k := HeldAfter(s.held[k], key, e)],
               server := if listed then s.server[k := ServerAfter(s.server[k], key, e)] else s.server)
  }

  /** A response passes CanCacheFor and is then cached. */
  function Next(s: State, enhanced: bool, step: Step): State
    requires Well(s, enhanced, step)
  {
    var (ok, table) := CanCache(s.table, enhanced, step.req);
    if !ok then s
    else
      var info := KeyInfo(step.req);
      var root := RootKey(enhanced, info);
      match step
      case ListResponse(_, items) =>
        var m := Contents(enhanced, info, items);
        State(table, AfterReplace(s.tree, root, m), s.server[root := m], s.held[root := m])
      case ObjectResponse(_, e, listed) =>
        if StoredName(step.req, e) == "" then s else AfterObject(s, StoredKey(enhanced, step.req, e), e, listed)
      case EmptyNamedList(_) =>
        State(table, Cleared(s.tree, root), s.server - (set k | k in s.server && Below(root, k)), Wiped(s.held, root))
  }

  predicate ValidRun(s: State, enhanced: bool, steps: seq<Step>)
    decreases |steps|
  {
    steps == [] || (Well(s, enhanced, steps[0]) && ValidRun(Next(s, enhanced, steps[0]), enhanced, steps[1..]))
  }

  function Run(s: State, enhanced: bool, steps: seq<Step>): State
    requires ValidRun(s, enhanced, steps)
    decreases |steps|
  {
    if steps == [] then s else Run(Next(s, enhanced, steps[0]), enhanced, steps[1..])
  }

  ghost predicate Inv(s: State)
  {
    && Antichain(s.table) && s.held.Keys == s.server.Keys && s.held.Keys <= s.table.Keys
    && (forall k :: k in s.held ==> Kept(s.tree, s.held, s.server, k))
  }

  ghost predicate Kept(t: Tree, held: map<string, map<string, Object>>, server: map<string, map<string, Object>>,
      k: string)
  {
    k in held && k in server && Holds(t, k, held[k])
  }

  lemma UnrelatedKeysShareNothing(a: string, b: string, p: string)
    requires !Strs.Contains(a, b) && !Strs.Contains(b, a)
    ensures !(Under(a, p) && Under(b, p))
  {
    if Under(a, p) && Under(b, p) {
      UnderOneOfTwo(a, b, p);
      if Under(a, b) { Strs.PrefixContained(b, a); } else { Strs.PrefixContained(a, b); }
    }
  }

  /** t' differs from t below root only. */
  ghost predicate ChangedBelow(t: Tree, t': Tree, root: string)
  {
    && (forall p :: !Under(root, p) ==> FileIn(t'.files, p) == FileIn(t.files, p))
    && (forall d :: !Under(root, d) && d in t.dirs ==> d in t'.dirs)
  }

  lemma ReplaceChangesBelow(t: Tree, root: string, m: map<string, Object>)
    requires forall c :: c in m ==> Under(root, c)
    ensures ChangedBelow(t, AfterReplace(t, root, m), root)
  {
  }

  /** Caching below one key leaves a list under an unrelated key as it was. */
  lemma ChangeElsewhereKeeps(t: Tree, t': Tree, root: string, k: string, m: map<string, Object>)
    requires ChangedBelow(t, t', root) && Holds(t, k, m)
    requires !Strs.Contains(root, k) && !Strs.Contains(k, root)
    ensures Holds(t', k, m)
  {
    forall p | Under(k, p) ensures FileIn(t'.files, p) == FileIn(t.files, p)
    {
      UnrelatedKeysShareNothing(k, root, p);
    }
    UnrelatedKeysShareNothing(k, root, k);
    assert FileIn(t'.files, k) == FileIn(t.files, k);
  }

  lemma OthersAreKept(s: State, table: Table, t: Tree, root: string, m: map<string, Object>,
      server: map<string, Object>)
    requires Inv(s) && Antichain(table) && s.table.Keys <= table.Keys && root in table
    requires ChangedBelow(s.tree, t, root) && Holds(t, root, m)
    ensures Inv(State(table, t, s.server[root := server], s.held[root := m]))
  {
    var held', server' := s.held[root := m], s.server[root := server];
    assert held'.Keys == s.held.Keys + {root} && server'.Keys == s.server.Keys + {root};
    forall k | k in held' ensures Kept(t, held', server', k)
    {
      if k != root {
        assert k in s.held.Keys && k in s.table.Keys && k in table;
        assert Kept(s.tree, s.held, s.server, k);
        ChangeElsewhereKeeps(s.tree, t, root, k, s.held[k]);
      }
    }
  }

  lemma ListKeepsInv(s: State, enhanced: bool, req: Request, items: seq<Object>)
    requires Inv(s) && Well(s, enhanced, ListResponse(req, items))
    ensures Inv(Next(s, enhanced, ListResponse(req, items)))
  {
    if CanCache(s.table, enhanced, req).0 {
      var info := KeyInfo(req);
      var root, m := RootKey(enhanced, info), Contents(enhanced, info, items);
      AdmitKeepsAntichain(s.table, root, req.selector);
      ContentsBelowRoot(enhanced, info, items);
      SaveHolds(s.tree, root, m);
      ReplaceChangesBelow(s.tree, root, m);
      OthersAreKept(s, CanCache(s.table, enhanced, req).1, AfterReplace(s.tree, root, m), root, m, m);
    }
  }

  /** An object stored elsewhere leaves a list as it was. */
  lemma EventElsewhereKeeps(t: Tree, key: string, e: WatchEvent, k: string, m: map<string, Object>)
    requires Holds(t, k, m) && !Under(k, key)
    ensures Holds(AfterEvent(t, key, e), k, m)
  {
    var t' := AfterEvent(t, key, e);
    forall p | Under(k, p) ensures FileIn(t'.files, p) == FileIn(t.files, p) {}
    assert FileIn(t'.files, k) == FileIn(t.files, k);
  }

  /** At most one list in the cache lies above a key. */
  lemma OneListAbove(s: State, key: string, k: string)
    requires Inv(s) && k in s.held
    ensures Under(k, key) <==> Cover(s.held.Keys, key) == Some(k)
  {
    CoverAbove(s.held.Keys, key);
    if Under(k, key) && Cover(s.held.Keys, key) != Some(k) {
      var root := Cover(s.held.Keys, key).value;
      assert root in s.table && k in s.held.Keys && k in s.table;
      UnrelatedKeysShareNothing(root, k, key);
    }
  }

  lemma ObjectKeepsList(s: State, key: string, e: WatchEvent, listed: bool, k: string)
    requires Inv(s) && k in s.held && !Under(key, k)
    ensures var s' := AfterObject(s, key, e, listed); Kept(s'.tree, s'.held, s'.server, k)
  {
    assert Kept(s.tree, s.held, s.server, k);
    OneListAbove(s, key, k);
    if Under(k, key) {
      EventKeepsHolds(s.tree, k, s.held[k], key, e);
    } else {
      EventElsewhereKeeps(s.tree, key, e, k, s.held[k]);
    }
  }

  lemma ObjectKeepsInv(s: State, key: string, e: WatchEvent, listed: bool)
    requires Inv(s) && forall k :: k in s.held ==> !Under(key, k)
    ensures Inv(AfterObject(s, key, e, listed))
  {
    var s' := AfterObject(s, key, e, listed);
    assert s'.held.Keys == s.held.Keys && s'.server.Keys == s.server.Keys;
    forall k | k in s'.held ensures Kept(s'.tree, s'.held, s'.server, k)
    {
      assert k in s.held.Keys;
      ObjectKeepsList(s, key, e, listed, k);
    }
  }

  /**
   * A list by name that finds nothing takes away what lies below its namespace;
   * a list survives it exactly when that is nothing.
   */
  lemma EmptyNamedListKeepsIff(t: Tree, root: string, k: string, m: map<string, Object>)
    requires Holds(t, k, m)
    ensures Holds(Cleared(t, root), k, m) <==> !Below(root, k) && forall c :: c in m ==> !Under(root, c)
  {
    var t' := Cleared(t, root);
    HeldFiles(t, k, m);
    if Below(root, k) {
      assert k !in Ancestors(root) by {
        if k in Ancestors(root) { AncestorIsAbove(k, root); UnderLonger(k, root); UnderLonger(root, k); }
      }
    } else if c :| c in m && Under(root, c) {
      assert FileIn(t'.files, c) == None;
    } else {
      WipeKeepsRest(t, root, k, m);
    }
  }

  lemma WipeKeepsRest(t: Tree, root: string, k: string, m: map<string, Object>)
    requires Holds(t, k, m) && !Below(root, k)
    ensures Holds(Cleared(t, root), k, WithoutBelow(m, root))
  {
    var t', m' := Cleared(t, root), WithoutBelow(m, root);
    forall p | Under(k, p) ensures FileIn(t'.files, p) == if p in m' then Some(Whole(m'[p])) else None
    {
      assert FileIn(t.files, p) == if p in m then Some(Whole(m[p])) else None;
    }
  }

  lemma EmptyNamedKeepsInv(s: State, enhanced: bool, req: Request)
    requires Inv(s) && Well(s, enhanced, EmptyNamedList(req))
    ensures Inv(Next(s, enhanced, EmptyNamedList(req)))
  {
    if CanCache(s.table, enhanced, req).0 {
      var root := RootKey(enhanced, KeyInfo(req));
      var s' := Next(s, enhanced, EmptyNamedList(req));
      forall k ensures k in s'.held.Keys <==> k in s'.server.Keys
      {
        assert k in s.held.Keys <==> k in s.server.Keys;
      }
      forall k | k in s'.held ensures Kept(s'.tree, s'.held, s'.server, k) && k in s'.table
      {
        assert k in s.held.Keys && Kept(s.tree, s.held, s.server, k);
        WipeKeepsRest(s.tree, root, k, s.held[k]);
      }
    }
  }

  lemma StepKeepsInv(s: State, enhanced: bool, step: Step)
    requires Inv(s) && Well(s, enhanced, step)
    ensures Inv(Next(s, enhanced, step))
  {
    match step {
      case ListResponse(req, items) => ListKeepsInv(s, enhanced, req, items);
      case ObjectResponse(req, e, listed) => ObjectKeepsInv(s, StoredKey(enhanced, req, e), e, listed);
      case EmptyNamedList(req) => EmptyNamedKeepsInv(s, enhanced, req);
    }
  }

  lemma {:induction false} RunKeepsInv(s: State, enhanced: bool, steps: seq<Step>)
    requires Inv(s) && ValidRun(s, enhanced, steps)
    ensures Inv(Run(s, enhanced, steps))
    decreases |steps|
  {
    if steps != [] {
      StepKeepsInv(s, enhanced, steps[0]);
      RunKeepsInv(Next(s, enhanced, steps[0]), enhanced, steps[1..]);
    }
  }

  const EmptyCache := State(map[], Tree(map[], {}), map[], map[])

  // ---------- when the store has what the server has ----------

  function At(lists: map<string, map<string, Object>>, k: string, c: string): Option<Object>
  {
    if k in lists && c in lists[k] then Some(lists[k][c]) else None
  }

  /**
   * One object of a list after an event about it, told from what the store and
   * the server had: they differ if only one of them took the event and the
   * other does not happen to have what it brings.
   */
  predicate MissedBy(held: Option<Object>, server: Option<Object>, e: WatchEvent, listed: bool, missed: bool)
  {
    match e
    case Changed(obj, unassigned) =>
      var stored := !unassigned && (held.Some? ==> held.value.version <= obj.version);
      if stored && listed then false
      else if stored then server != Some(obj)
      else if listed then held != Some(obj)
      else missed
    case Deleted(_) => !listed && server.Some?
    case Noted(_) => missed
  }

  /**
   * Told from the history: the last thing that happened to object c of list k
   * was one that the store or the server alone took, or a list by name that
   * found nothing while the server has c.
   */
  function MissedNext(s: State, enhanced: bool, step: Step, k: string, c: string, missed: bool): bool
    requires Well(s, enhanced, step)
  {
    if !CanCache(s.table, enhanced, step.req).0 then missed
    else
      var info := KeyInfo(step.req);
      var root := RootKey(enhanced, info);
      match step
      case ListResponse(_, _) => root != k && missed
      case ObjectResponse(_, e, listed) =>
        if StoredName(step.req, e) == "" || StoredKey(enhanced, step.req, e) != c ||
          Cover(s.held.Keys, c) != Some(k) then missed
        else MissedBy(At(s.held, k, c), At(s.server, k, c), e, listed, missed)
      case EmptyNamedList(_) =>
        if Below(root, k) then false else if Under(root, c) then At(s.server, k, c).Some? else missed
  }

  function MissedAfter(s: State, enhanced: bool, steps: seq<Step>, k: string, c: string, missed: bool): bool
    requires ValidRun(s, enhanced, steps)
    decreases |steps|
  {
    if steps == [] then missed
    else MissedAfter(Next(s, enhanced, steps[0]), enhanced, steps[1..], k, c,
      MissedNext(s, enhanced, steps[0], k, c, missed))
  }

  /** The store has something else at c of list k than the server. */
  predicate Behind(s: State, k: string, c: string)
  {
    At(s.held, k, c) != At(s.server, k, c)
  }

  lemma AtUpdated(lists: map<string, map<string, Object>>, root: string, m: map<string, Object>, k: string, c: string)
    ensures At(lists[root := m], k, c) == if k == root then (if c in m then Some(m[c]) else None) else At(lists, k, c)
  {
  }

  lemma ListTells(s: State, enhanced: bool, req: Request, items: seq<Object>, k: string, c: string)
    requires Well(s, enhanced, ListResponse(req, items))
    ensures Behind(Next(s, enhanced, ListResponse(req, items)), k, c) <==>
            MissedNext(s, enhanced, ListResponse(req, items), k, c, Behind(s, k, c))
  {
    if CanCache(s.table, enhanced, req).0 {
      var root, m := RootKey(enhanced, KeyInfo(req)), Contents(enhanced, KeyInfo(req), items);
      AtUpdated(s.held, root, m, k, c);
      AtUpdated(s.server, root, m, k, c);
    }
  }

  function Item(m: map<string, Object>, c: string): Option<Object>
  {
    if c in m then Some(m[c]) else None
  }

  lemma EventTells(held: map<string, Object>, server: map<string, Object>, key: string, e: WatchEvent, listed: bool,
      c: string)
    ensures Item(HeldAfter(held, key, e), c) != Item(if listed then ServerAfter(server, key, e) else server, c) <==>
            if c != key then Item(held, c) != Item(server, c)
            else MissedBy(Item(held, c), Item(server, c), e, listed, Item(held, c) != Item(server, c))
  {
  }

  lemma ObjectTells(s: State, key: string, e: WatchEvent, listed: bool, k: string, c: string)
    requires Inv(s)
    ensures Behind(AfterObject(s, key, e, listed), k, c) <==>
            if key != c || Cover(s.held.Keys, c) != Some(k) then Behind(s, k, c)
            else MissedBy(At(s.held, k, c), At(s.server, k, c), e, listed, Behind(s, k, c))
  {
    CoverAbove(s.held.Keys, key);
    if Cover(s.held.Keys, key).Some? {
      var root := Cover(s.held.Keys, key).value;
      assert root in s.held && root in s.server;
      AtUpdated(s.held, root, HeldAfter(s.held[root], key, e), k, c);
      AtUpdated(s.server, root, ServerAfter(s.server[root], key, e), k, c);
      EventTells(s.held[root], s.server[root], key, e, listed, c);
    }
  }

  lemma EmptyNamedTells(s: State, enhanced: bool, req: Request, k: string, c: string)
    requires Inv(s) && Well(s, enhanced, EmptyNamedList(req))
    ensures Behind(Next(s, enhanced, EmptyNamedList(req)), k, c) <==>
            MissedNext(s, enhanced, EmptyNamedList(req), k, c, Behind(s, k, c))
  {
    assert k in s.held.Keys <==> k in s.server.Keys;
    if CanCache(s.table, enhanced, req).0 {
      var root, s' := RootKey(enhanced, KeyInfo(req)), Next(s, enhanced, EmptyNamedList(req));
      assert k in s'.held <==> k in s.held && !Below(root, k);
      assert k in s'.server <==> k in s.server && !Below(root, k);
      assert k in s'.held ==> s'.held[k] == WithoutBelow(s.held[k], root) && s'.server[k] == s.server[k];
    }
  }

  lemma MissedStepTells(s: State, enhanced: bool, step: Step, k: string, c: string)
    requires Inv(s) && Well(s, enhanced, step)
    ensures Behind(Next(s, enhanced, step), k, c) <==> MissedNext(s, enhanced, step, k, c, Behind(s, k, c))
  {
    match step {
      case ListResponse(req, items) => ListTells(s, enhanced, req, items, k, c);
      case ObjectResponse(req, e, listed) => ObjectTells(s, StoredKey(enhanced, req, e), e, listed, k, c);
      case EmptyNamedList(req) => EmptyNamedTells(s, enhanced, req, k, c);
    }
  }

  lemma {:induction false} MissedRunTells(s: State, enhanced: bool, steps: seq<Step>, k: string, c: string)
    requires Inv(s) && ValidRun(s, enhanced, steps)
    ensures Behind(Run(s, enhanced, steps), k, c) <==> MissedAfter(s, enhanced, steps, k, c, Behind(s, k, c))
    decreases |steps|
  {
    if steps != [] {
      MissedStepTells(s, enhanced, steps[0], k, c);
      StepKeepsInv(s, enhanced, steps[0]);
      MissedRunTells(Next(s, enhanced, steps[0]), enhanced, steps[1..], k, c);
    }
  }

  /** No object of list k was missed last. */
  ghost predicate NothingMissed(start: State, enhanced: bool, steps: seq<Step>, k: string)
    requires ValidRun(start, enhanced, steps)
  {
    forall c :: !MissedAfter(start, enhanced, steps, k, c, false)
  }

  lemma MissedTells(start: State, enhanced: bool, steps: seq<Step>, k: string, c: string)
    requires start == EmptyCache && ValidRun(start, enhanced, steps)
    ensures Behind(Run(start, enhanced, steps), k, c) <==> MissedAfter(start, enhanced, steps, k, c, false)
  {
    MissedRunTells(start, enhanced, steps, k, c);
    assert !Behind(start, k, c);
  }

  lemma NothingMissedTells(start: State, enhanced: bool, steps: seq<Step>, k: string, s: State)
    requires start == EmptyCache && ValidRun(start, enhanced, steps) && s == Run(start, enhanced, steps)
    ensures (forall c :: !Behind(s, k, c)) <==> NothingMissed(start, enhanced, steps, k)
  {
    forall c ensures Behind(s, k, c) <==> MissedAfter(start, enhanced, steps, k, c, false)
    {
      MissedTells(start, enhanced, steps, k, c);
    }
  }

  lemma SameObjects(s: State, k: string)
    requires k in s.held && k in s.server && forall c :: !Behind(s, k, c)
    ensures s.held[k] == s.server[k]
  {
    forall c ensures c in s.held[k] <==> c in s.server[k]
    {
      assert !Behind(s, k, c);
    }
    forall c | c in s.held[k] ensures s.held[k][c] == s.server[k][c]
    {
      assert !Behind(s, k, c);
    }
  }

  lemma HoldsServersIff(s: State, k: string)
    requires Inv(s) && k in s.held && k in s.server
    ensures Holds(s.tree, k, s.server[k]) <==> forall c :: !Behind(s, k, c)
  {
    assert Kept(s.tree, s.held, s.server, k);
    if c :| Behind(s, k, c) {
      assert s.held[k] != s.server[k];
      if Holds(s.tree, k, s.server[k]) { HoldsOnce(s.tree, k, s.held[k], s.server[k]); }
    } else {
      SameObjects(s, k);
    }
  }

  /**
   * Main result: from an empty cache, after any run of list responses, of watch
   * events, of answers with one object and of lists by name that find nothing,
   * a cached list holds exactly what the server has if and only if no object of
   * it was missed last.
   */
  lemma StoreHoldsServersIff(start: State, enhanced: bool, steps: seq<Step>, k: string)
    requires start == EmptyCache && ValidRun(start, enhanced, steps) && k in Run(start, enhanced, steps).server
    ensures var s := Run(start, enhanced, steps);
            Holds(s.tree, k, s.server[k]) <==> NothingMissed(start, enhanced, steps, k)
  {
    RunKeepsInv(start, enhanced, steps);
    var s := Run(start, enhanced, steps);
    assert k in s.held.Keys;
    HoldsServersIff(s, k);
    NothingMissedTells(start, enhanced, steps, k, s);
  }

  /**
   * And so every cached list of which nothing was missed last is answered with
   * exactly the objects the server has for it.
   */
  lemma AcceptedListsAreServed(
      start: State, enhanced: bool, steps: seq<Step>, k: string, order: seq<string>, kubeletPods: bool, byName: bool)
    requires start == EmptyCache && ValidRun(start, enhanced, steps) && k in Run(start, enhanced, steps).server
    requires Enumerates(order, FilesBelow(Run(start, enhanced, steps).tree, k))
    requires NothingMissed(start, enhanced, steps, k)
    ensures var s := Run(start, enhanced, steps);
            && Enumerates(order, s.server[k].Keys)
            && (forall i :: 0 <= i < |order| ==> order[i] in s.server[k])
            && Serves(QueryList(s.tree, k, order, kubeletPods, byName), Values(s.server[k], order), kubeletPods)
  {
    StoreHoldsServersIff(start, enhanced, steps, k);
    var s := Run(start, enhanced, steps);
    HeldObjectsAreServed(s.tree, k, s.server[k], order, kubeletPods, byName);
  }

  /** A watched pod without a node that the store does not have yet is missing from the list the server has it in. */
  lemma UnassignedPodIsMissing(s: State, enhanced: bool, req: Request, pod: Object, k: string)
    requires Inv(s) && k in s.held && StoredName(req, Changed(pod, true)) != ""
    requires Well(s, enhanced, ObjectResponse(req, Changed(pod, true), true))
    requires var c := StoredKey(enhanced, req, Changed(pod, true)); Under(k, c) && c !in s.held[k]
    ensures var c, s' := StoredKey(enhanced, req, Changed(pod, true)),
            Next(s, enhanced, ObjectResponse(req, Changed(pod, true), true));
            At(s'.server, k, c) == Some(pod) && c !in FilesBelow(s'.tree, k)
  {
    assert Kept(s.tree, s.held, s.server, k);
    OneListAbove(s, StoredKey(enhanced, req, Changed(pod, true)), k);
    HeldFiles(s.tree, k, s.held[k]);
  }

  /**
   * An object that another request brings, by its name or through a watch with
   * another selector, is filed in the list above its key although the server
   * does not have it in that list.
   */
  lemma UnlistedObjectIsServed(s: State, enhanced: bool, req: Request, obj: Object, k: string)
    requires Inv(s) && k in s.held && StoredName(req, Changed(obj, false)) != ""
    requires Well(s, enhanced, ObjectResponse(req, Changed(obj, false), false))
    requires var c := StoredKey(enhanced, req, Changed(obj, false));
             Under(k, c) && c !in s.held[k] && At(s.server, k, c).None?
    ensures var c, s' := StoredKey(enhanced, req, Changed(obj, false)),
            Next(s, enhanced, ObjectResponse(req, Changed(obj, false), false));
            At(s'.server, k, c) == None && c in FilesBelow(s'.tree, k) && s'.tree.files[c] == Whole(obj)
  {
    assert Kept(s.tree, s.held, s.server, k);
    OneListAbove(s, StoredKey(enhanced, req, Changed(obj, false)), k);
    HeldFiles(s.tree, k, s.held[k]);
    assert FileIn(s.tree.files, StoredKey(enhanced, req, Changed(obj, false))) == None;
  }

  /** The server's objects right after a list response are the items of the list. */
  lemma ListResponseSetsServer(s: State, enhanced: bool, req: Request, items: seq<Object>, order: seq<string>)
    requires Well(s, enhanced, ListResponse(req, items)) && CanCache(s.table, enhanced, req).0
    requires Enumerates(order, Contents(enhanced, KeyInfo(req), items).Keys)
    ensures var m := Next(s, enhanced, ListResponse(req, items)).server[RootKey(enhanced, KeyInfo(req))];
            && (forall i :: 0 <= i < |order| ==> order[i] in m)
            && multiset(Values(m, order)) == multiset(items)
  {
    ContentsAreItems(enhanced, KeyInfo(req), items, order);
  }

  /** The event changes nothing that is stored. */
  predicate Idle(m: map<string, Object>, key: string, e: WatchEvent)
  {
    match e
    case Changed(obj, unassigned) => unassigned || (key in m && (obj.version < m[key].version || obj == m[key]))
    case Deleted(_) => key !in m
    case Noted(_) => true
  }

  /** Any watch event at all leaves an accepted list as it was exactly when it lies elsewhere or is idle. */
  lemma WatchLeavesListIff(t: Tree, enhanced: bool, k: string, m: map<string, Object>, info: Info, e: WatchEvent)
    requires Holds(t, k, m) && HasKey(info) && e.obj.name != ""
    ensures Holds(WatchTurn(t, enhanced, info, e), k, m) <==>
            !Under(k, WatchKey(enhanced, info, e.obj)) || Idle(m, WatchKey(enhanced, info, e.obj), e)
  {
    var key, t' := WatchKey(enhanced, info, e.obj), WatchTurn(t, enhanced, info, e);
    HeldFiles(t, k, m);
    if Under(k, key) {
      assert FileIn(t.files, key) == if key in m then Some(Whole(m[key])) else None;
      if !Idle(m, key, e) {
        assert FileIn(t'.files, key) != if key in m then Some(Whole(m[key])) else None;
      } else {
        assert t'.files == t.files;
      }
    } else {
      forall p | Under(k, p) ensures FileIn(t'.files, p) == FileIn(t.files, p) {}
    }
  }

  /**
   * The table guards lists only: a watch whose own list was refused for its
   * selector is cached all the same, and its objects appear in the other list.
   */
  lemma RefusedListsWatchIsCached(s: State, enhanced: bool, list: Request, watch: Request, obj: Object)
    requires Inv(s) && UnnamedList(list) && Cacheable(list) && Cacheable(watch) && watch.verb == "watch"
    requires KeyInfo(list) == KeyInfo(watch) && HasKey(KeyInfo(list)) && GoodItem(KeyInfo(watch), obj)
    requires EffectiveNamespace(KeyInfo(watch), obj) == obj.namespace
    requires var root := RootKey(enhanced, KeyInfo(list));
             root in s.held && s.table[root] != list.selector &&
               StoredKey(enhanced, watch, Changed(obj, false)) !in s.held[root]
    ensures !CanCache(s.table, enhanced, list).0 && CanCache(s.table, enhanced, watch).0
    ensures var root := RootKey(enhanced, KeyInfo(list));
            var key := StoredKey(enhanced, watch, Changed(obj, false));
            var t := WatchTurn(s.tree, enhanced, KeyInfo(watch), Changed(obj, false));
            key in FilesBelow(t, root) && t.files[key] == Whole(obj)
  {
    var root := RootKey(enhanced, KeyInfo(list));
    var key := StoredKey(enhanced, watch, Changed(obj, false));
    assert root in s.held.Keys;
    ItemBelowRoot(enhanced, KeyInfo(watch), obj);
    HeldFiles(s.tree, root, s.held[root]);
    assert FileIn(s.tree.files, key) == None;
  }

  // ---------- the object ----------

  lemma FillOneMore(t: Tree, objs: map<string, Object>, done: set<string>, k: string)
    requires k in objs
    ensures WriteFile(Filled(t, objs, done), k, Whole(objs[k])) == Filled(t, objs, done + {k})
  {
    var a, b := WriteFile(Filled(t, objs, done), k, Whole(objs[k])), Filled(t, objs, done + {k});
    assert a.files == b.files;
    assert AncestorsOf(done + {k}) == AncestorsOf(done) + Ancestors(k);
  }

  lemma FilledNone(t: Tree, objs: map<string, Object>)
    ensures Filled(t, objs, {}) == t
  {
    assert AncestorsOf({}) == {};
    assert Filled(t, objs, {}).files == t.files;
  }

  lemma WriteAddsBeside(before: Tree, t: Tree, root: string, objs: map<string, Object>, k: string)
    requires OnlyAddsBeside(before, t, root, objs) && k in objs && !Exists(t, k)
    ensures OnlyAddsBeside(before, WriteFile(t, k, Whole(objs[k])), root, objs)
  {
    var t' := WriteFile(t, k, Whole(objs[k]));
    forall p | !Under(root, p)
      ensures FileIn(t'.files, p) == FileIn(before.files, p) ||
              (p !in before.files && p in objs && FileIn(t'.files, p) == Some(Whole(objs[p])))
    {
      assert FileIn(t.files, p) == FileIn(before.files, p) ||
             (p !in before.files && p in objs && FileIn(t.files, p) == Some(Whole(objs[p])));
    }
  }

  lemma PutBackAddsBeside(before: Tree, t: Tree, root: string, objs: map<string, Object>)
    requires OnlyAddsBeside(before, t, root, objs)
    ensures var t' := Graft(t, root, Region(before, root));
            OnlyAddsBeside(before, t', root, objs) && SameBelow(before, t', root)
  {
  }

  /** No item of a list is the directory of another. */
  lemma ItemsDoNotNest(enhanced: bool, info: Info, a: Object, b: Object)
    requires HasKey(info) && GoodItem(info, a) && GoodItem(info, b)
    requires EffectiveNamespace(info, a) == "" <==> EffectiveNamespace(info, b) == ""
    ensures !Below(ItemKey(enhanced, info, a), ItemKey(enhanced, info, b))
  {
    ItemKeyIs(enhanced, info, a);
    ItemKeyIs(enhanced, info, b);
    TailsDoNotNest(EffectiveNamespace(info, a), a.name, EffectiveNamespace(info, b), b.name);
    PrefixBehindBase(Base(enhanced, info), Tail(info, a), Tail(info, b));
  }

  lemma PrefixBehindBase(base: string, a: string, b: string)
    ensures base + a + "/" <= base + b ==> a + "/" <= b
  {
    if base + a + "/" <= base + b {
      assert (base + a + "/")[|base|..] == a + "/";
      assert (base + b)[|base|..] == b;
      assert (base + b)[|base|..][..|a| + 1] == (base + b)[..|base| + |a| + 1][|base|..];
    }
  }

  lemma TailsDoNotNest(ns: string, n: string, ns': string, n': string)
    requires n != "" && n' != "" && '/' !in n && '/' !in n' && '/' !in ns && '/' !in ns' && (ns == "" <==> ns' == "")
    ensures !(Segment(ns) + Segment(n) + "/" <= Segment(ns') + Segment(n'))
  {
    SegmentSplits(ns, n);
    SegmentSplits(ns', n');
    LongerHasMoreParts(Segment(ns) + Segment(n), Segment(ns') + Segment(n'));
  }

  lemma LongerHasMoreParts(a: string, b: string)
    ensures a + "/" <= b ==> |Strs.Split(b, '/')| > |Strs.Split(a, '/')|
  {
    if a + "/" <= b {
      var rest := b[|a| + 1..];
      assert b == a + ['/'] + rest;
      SplitBehind(a, rest);
    }
  }

  /** Appending a separator and more adds parts. */
  lemma {:induction false} SplitBehind(a: string, rest: string)
    ensures |Strs.Split(a + ['/'] + rest, '/')| > |Strs.Split(a, '/')|
  {
    var s := a + ['/'] + rest;
    if a == "" {
      assert s[1..] == rest;
    } else {
      assert s[1..] == a[1..] + ['/'] + rest;
      SplitBehind(a[1..], rest);
    }
  }

  /** Nothing is in the way of the items of a list an API server sends. */
  lemma NothingInTheWay(enhanced: bool, info: Info, items: seq<Object>, t: Tree, done: set<string>, k: string)
    requires GoodList(info, items) && OneScope(info, items)
    requires var objs := Contents(enhanced, info, items); done <= objs.Keys && k in objs && k !in done
    ensures !Exists(Filled(Cleared(t, RootKey(enhanced, info)), Contents(enhanced, info, items), done), k)
  {
    var root, objs := RootKey(enhanced, info), Contents(enhanced, info, items);
    ContentsBelowRoot(enhanced, info, items);
    var i := ContentsFrom(enhanced, info, items, k);
    if k in AncestorsOf(done) {
      var c :| c in done && k in Ancestors(c);
      assert c in objs.Keys;
      var j := ContentsFrom(enhanced, info, items, c);
      AncestorIsAbove(k, c);
      ItemsDoNotNest(enhanced, info, items[i], items[j]);
    }
    if k in Ancestors(root) {
      AncestorIsAbove(k, root);
      UnderLonger(root, k);
    }
  }

  /** t has the same below root as before. */
  ghost predicate SameBelow(before: Tree, t: Tree, root: string)
  {
    && (forall p :: Under(root, p) ==> FileIn(t.files, p) == FileIn(before.files, p))
    && (forall d :: Under(root, d) ==> (d in t.dirs <==> d in before.dirs))
  }

  /** Beside root nothing is lost, and what is new are objects of the list. */
  ghost predicate OnlyAddsBeside(before: Tree, t: Tree, root: string, objs: map<string, Object>)
  {
    forall p :: !Under(root, p) ==>
      FileIn(t.files, p) == FileIn(before.files, p) ||
      (p !in before.files && p in objs && FileIn(t.files, p) == Some(Whole(objs[p])))
  }

  class CacheManager {
    var listSelectorCollector: Table
    var tree: Tree
    const enhanced: bool

    constructor (enhancedMode: bool)
      ensures listSelectorCollector == map[] && tree == Tree(map[], {}) && enhanced == enhancedMode
    {
      listSelectorCollector, tree, enhanced := map[], Tree(map[], {}), enhancedMode;
    }

    /** CanCacheFor. */
    method CanCacheFor(req: Request) returns (ok: bool)
      modifies this`listSelectorCollector
      ensures (ok, listSelectorCollector) == CanCache(old(listSelectorCollector), enhanced, req)
      ensures ok <==>
              && req.component != "" && req.cacheableComponent && req.hasInfo && req.isResource
              && req.verb != "delete" && req.verb != "deletecollection" && req.verb != "proxy"
              && (req.subresource == "" || req.subresource == "status")
              && req.info.resource != "certificatesigningrequests" && req.info.resource != "subjectaccessreviews"
              && (req.verb == "list" && req.info.name == "" ==>
                    && req.info.resource != ""
                    && var key := KeyOf(enhanced, KeyInfo(req)).value;
                       if key in old(listSelectorCollector) then old(listSelectorCollector)[key] == req.selector
                       else forall k :: k in old(listSelectorCollector) ==>
                         !Strs.Contains(k, key) && !Strs.Contains(key, k))
      ensures listSelectorCollector ==
              if ok && req.verb == "list" && req.info.name == ""
              then old(listSelectorCollector)[KeyOf(enhanced, KeyInfo(req)).value := req.selector]
              else old(listSelectorCollector)
    {
      CanCacheIff(listSelectorCollector, enhanced, req);
      if KeyOf(enhanced, KeyInfo(req)).Some? {
        AdmitIff(listSelectorCollector, KeyOf(enhanced, KeyInfo(req)).value, req.selector);
      }
      if req.component == "" || !req.cacheableComponent || !req.hasInfo || !req.isResource {
        return false;
      }
      if req.verb == "delete" || req.verb == "deletecollection" || req.verb == "proxy" {
        return false;
      }
      if req.subresource != "" && req.subresource != "status" {
        return false;
      }
      if req.info.resource == "certificatesigningrequests" || req.info.resource == "subjectaccessreviews" {
        return false;
      }
      if req.verb == "list" && req.info.name == "" {
        var built := KeyOf(enhanced, KeyInfo(req));
        if built.None? {
          return false;
        }
        var key := built.value;
        if key in listSelectorCollector {
          if listSelectorCollector[key] != req.selector {
            return false;
          }
        } else {
          var left := listSelectorCollector.Keys;
          while left != {}
            invariant left <= listSelectorCollector.Keys
            invariant forall k :: k in listSelectorCollector && k !in left ==> !Overlap(k, key)
            decreases left
          {
            var k :| k in left;
            if (|k| > |key| && Strs.Contains(k, key)) || (|k| < |key| && Strs.Contains(key, k)) {
              assert Overlap(k, key);
              return false;
            }
            left := left - {k};
          }
          listSelectorCollector := listSelectorCollector[key := req.selector];
        }
      }
      return true;
    }

    /**
     * saveListObject for a request without a name: build the map of objects,
     * then replace the list. The store refuses the whole list when some key
     * does not start with the list's own; a key in the way of which there is
     * something already makes it put the old list back.
     */
    method SaveListObject(info: Info, items: seq<Object>) returns (ok: bool)
      requires HasKey(info) && info.name == ""
      modifies this`tree
      ensures var root, objs := RootKey(enhanced, info), Contents(enhanced, info, items);
              && OnlyAddsBeside(old(tree), tree, root, objs)
              && ((exists k :: k in objs && !(root <= k)) ==> !ok && tree == old(tree))
              && (!ok ==> SameBelow(old(tree), tree, root))
              && (ok ==> forall p :: Under(root, p) ==>
                 FileIn(tree.files, p) == if p in objs then Some(Whole(objs[p])) else None)
              && (ok ==> forall k :: k in objs ==> FileIn(tree.files, k) == Some(Whole(objs[k])))
      ensures GoodList(info, items) && OneScope(info, items) && RootKey(enhanced, info) !in old(tree).files ==>
                && ok && tree == AfterReplace(old(tree), RootKey(enhanced, info), Contents(enhanced, info, items))
                && Holds(tree, RootKey(enhanced, info), Contents(enhanced, info, items))
    {
      var objs := BuildContents(enhanced, info, items);
      var root := RootKey(enhanced, info);
      if GoodList(info, items) {
        ContentsBelowRoot(enhanced, info, items);
      }
      var prefixed := CheckPrefixes(objs, root);
      if !prefixed || root in tree.files {
        return false;
      }
      ok := FillList(root, objs);
      if GoodList(info, items) && OneScope(info, items) {
        forall done, k | done <= objs.Keys && k in objs && k !in done
          ensures !Exists(Filled(Cleared(old(tree), root), objs, done), k)
        {
          NothingInTheWay(enhanced, info, items, old(tree), done, k);
        }
        SaveHolds(old(tree), root, objs);
      }
    }

    method CheckPrefixes(objs: map<string, Object>, root: string) returns (ok: bool)
      ensures ok <==> forall k :: k in objs ==> root <= k
    {
      var left := objs.Keys;
      while left != {}
        invariant left <= objs.Keys
        invariant forall k :: k in objs && k !in left ==> root <= k
        decreases left
      {
        var k :| k in left;
        if !(root <= k) {
          return false;
        }
        left := left - {k};
      }
      ok := true;
    }

    /**
     * The second half of ReplaceComponentList: clear the list, create the
     * objects in some order, or put the old list back.
     */
    method FillList(root: string, objs: map<string, Object>) returns (ok: bool)
      modifies this`tree
      ensures OnlyAddsBeside(old(tree), tree, root, objs)
      ensures !ok ==> SameBelow(old(tree), tree, root)
      ensures ok ==> tree == AfterReplace(old(tree), root, objs)
      ensures (forall done, k :: done <= objs.Keys && k in objs && k !in done ==>
                 !Exists(Filled(Cleared(old(tree), root), objs, done), k)) ==> ok
    {
      var before := tree;
      tree := Cleared(tree, root);
      var left := objs.Keys;
      FilledNone(Cleared(before, root), objs);
      assert objs.Keys - left == {};
      while left != {}
        invariant left <= objs.Keys && tree == Filled(Cleared(before, root), objs, objs.Keys - left)
        invariant OnlyAddsBeside(before, tree, root, objs)
        decreases left
      {
        var k :| k in left;
        if Exists(tree, k) {
          assert objs.Keys - left <= objs.Keys;
          PutBackAddsBeside(before, tree, root, objs);
          tree := Graft(tree, root, Region(before, root));
          return false;
        }
        FillOneMore(Cleared(before, root), objs, objs.Keys - left, k);
        assert objs.Keys - (left - {k}) == objs.Keys - left + {k};
        WriteAddsBeside(before, tree, root, objs, k);
        tree := WriteFile(tree, k, Whole(objs[k]));
        left := left - {k};
      }
      assert objs.Keys - left == objs.Keys;
      ok := true;
    }

    /** saveOneObject, and saveListObject for a list by name that finds one object. */
    method SaveOneObject(req: Request, obj: Object, unassigned: bool)
      requires HasKey(KeyInfo(req)) && req.verb != "watch"
      modifies this`tree
      ensures var e := Changed(obj, unassigned);
              tree == if StoredName(req, e) == "" && req.verb != "list" then old(tree)
                else AfterEvent(old(tree), StoredKey(enhanced, req, e), e)
    {
      var name, ns := req.info.name, req.info.namespace;
      if req.verb == "list" || req.verb == "create" {
        name := obj.name;
      }
      if req.verb == "list" {
        if obj.namespace != "" {
          ns := obj.namespace;
        }
      } else if name == "" {
        return;
      }
      var key := KeyOf(enhanced, KeyInfo(req).(namespace := ns, name := name)).value;
      tree := StoreFile(tree, key, obj, unassigned);
    }

    /** saveWatchObject over the events of a watch until the stream ends. */
    method SaveWatchObject(info: Info, events: seq<WatchEvent>)
      requires HasKey(info)
      modifies this`tree
      ensures tree == WatchTurns(old(tree), enhanced, info, events)
    {
      var i := 0;
      while i < |events|
        invariant 0 <= i <= |events| && tree == WatchTurns(old(tree), enhanced, info, events[..i])
      {
        assert events[..i + 1][..i] == events[..i];
        SaveEvent(info, events[i]);
        i := i + 1;
      }
      assert events[..i] == events;
    }

    /** One turn of the loop. */
    method SaveEvent(info: Info, e: WatchEvent)
      requires HasKey(info)
      modifies this`tree
      ensures tree == WatchTurn(old(tree), enhanced, info, e)
    {
      if e.obj.name != "" {
        var key := WatchKey(enhanced, info, e.obj);
        match e {
          case Changed(obj, unassigned) => tree := StoreFile(tree, key, obj, unassigned);
          case Deleted(_) => tree := tree.(files := tree.files - {key});
          case Noted(_) =>
        }
      }
    }
  }

  /** The loop over the items; an item without a namespace is filed under the request's. */
  method BuildContents(enhanced: bool, info: Info, items: seq<Object>) returns (objs: map<string, Object>)
    requires HasKey(info)
    ensures objs == Contents(enhanced, info, items)
  {
    objs := map[];
    for i := 0 to |items|
      invariant objs == Contents(enhanced, info, items[..i])
    {
      var ns := items[i].namespace;
      if ns == "" {
        ns := info.namespace;
      }
      var key := KeyOf(enhanced, info.(namespace := ns, name := items[i].name)).value;
      assert key == ItemKey(enhanced, info, items[i]);
      assert items[..i + 1][..i] == items[..i];
      objs := objs[key := items[i]];
    }
    assert items[..|items|] == items;
  }

  /** completeListObjWithObjs: the list version is the highest version among the objects. */
  method CompleteListVersion(objs: seq<Object>) returns (listRv: nat)
    ensures forall i :: 0 <= i < |objs| ==> objs[i].version <= listRv
    ensures listRv == 0 || exists i :: 0 <= i < |objs| && objs[i].version == listRv
    ensures listRv == MaxVersion(objs)
  {
    listRv := 0;
    var i := 0;
    while i < |objs|
      invariant 0 <= i <= |objs| && listRv == MaxVersion(objs[..i])
    {
      assert objs[..i + 1][..i] == objs[..i];
      if objs[i].version > listRv {
        listRv := objs[i].version;
      }
      i := i + 1;
    }
    assert objs[..i] == objs;
    MaxVersionIsMax(objs);
  }
}
