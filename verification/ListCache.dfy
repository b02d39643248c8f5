/**
 * Lists in the cache manager: how the items of a list response are filed under
 * the list's key, how watch events change them, and how a list is answered
 * from the store.
 */
module ListCache {
  import opened Collections
  import opened Objects
  import opened DiskTree
  import opened StoreKeys
  import DiskStore

  // ---------- keys ----------

  predicate HasKey(info: Info)
  {
    info.component != "" && info.resource != ""
  }

  function RootKey(enhanced: bool, info: Info): string
    requires HasKey(info)
  {
    KeyOf(enhanced, info.(name := "")).value
  }

  /** The key of one item of a list: an item without a namespace takes the request's. */
  function ItemKey(enhanced: bool, info: Info, item: Object): string
    requires HasKey(info)
  {
    KeyOf(enhanced, info.(namespace := EffectiveNamespace(info, item), name := item.name)).value
  }

  function EffectiveNamespace(info: Info, item: Object): string
  {
    if item.namespace == "" then info.namespace else item.namespace
  }

  /** What an API server guarantees of one item of the answer to a list request. */
  predicate GoodItem(info: Info, item: Object)
  {
    && item.name != "" && '/' !in item.name
    && '/' !in EffectiveNamespace(info, item)
    && (info.namespace != "" ==> EffectiveNamespace(info, item) == info.namespace)
    && (info.resource == "namespaces" ==> EffectiveNamespace(info, item) == "")
  }

  predicate GoodList(info: Info, items: seq<Object>)
  {
    && HasKey(info) && info.name == ""
    && (forall i :: 0 <= i < |items| ==> GoodItem(info, items[i]))
    && (forall i, j :: 0 <= i < j < |items| ==>
          (EffectiveNamespace(info, items[i]), items[i].name) != (EffectiveNamespace(info, items[j]), items[j].name))
  }

  /** A resource is namespaced or not, and so are all its objects. */
  predicate OneScope(info: Info, items: seq<Object>)
  {
    forall i, j :: 0 <= i < |items| && 0 <= j < |items| ==>
      (EffectiveNamespace(info, items[i]) == "" <==> EffectiveNamespace(info, items[j]) == "")
  }

  function Tail(info: Info, item: Object): string
  {
    Segment(EffectiveNamespace(info, item)) + Segment(item.name)
  }

  lemma ItemKeyIs(enhanced: bool, info: Info, item: Object)
    requires HasKey(info) && GoodItem(info, item)
    ensures ItemKey(enhanced, info, item) == Base(enhanced, info) + Tail(info, item)
  {
  }

  /** Different items of one list have different keys. */
  lemma ItemKeyInjective(enhanced: bool, info: Info, a: Object, b: Object)
    requires HasKey(info) && GoodItem(info, a) && GoodItem(info, b)
    requires ItemKey(enhanced, info, a) == ItemKey(enhanced, info, b)
    ensures EffectiveNamespace(info, a) == EffectiveNamespace(info, b) && a.name == b.name
  {
    ItemKeyIs(enhanced, info, a);
    ItemKeyIs(enhanced, info, b);
    SuffixCancels(Base(enhanced, info), Tail(info, a), Tail(info, b));
    SegmentSplits(EffectiveNamespace(info, a), a.name);
    SegmentSplits(EffectiveNamespace(info, b), b.name);
  }

  lemma SlashBelow(root: string, tail: string)
    requires tail != "" && tail[0] == '/'
    ensures root + tail != root && Under(root, root + tail)
  {
    assert root + "/" == (root + tail)[..|root| + 1];
  }

  lemma RootKeyIs(enhanced: bool, info: Info)
    requires HasKey(info)
    ensures RootKey(enhanced, info) ==
            Base(enhanced, info) + if info.resource == "namespaces" then "" else Segment(info.namespace)
  {
  }

  /** Every item of a list lies below the list's key. */
  lemma ItemBelowRoot(enhanced: bool, info: Info, item: Object)
    requires HasKey(info) && GoodItem(info, item)
    ensures ItemKey(enhanced, info, item) != RootKey(enhanced, info)
    ensures Under(RootKey(enhanced, info), ItemKey(enhanced, info, item))
  {
    var root, key := RootKey(enhanced, info), ItemKey(enhanced, info, item);
    ItemKeyIs(enhanced, info, item);
    RootKeyIs(enhanced, info);
    if info.namespace == "" || info.resource == "namespaces" {
      SlashBelow(root, Tail(info, item));
    } else {
      assert key == root + Segment(item.name);
      SlashBelow(root, Segment(item.name));
    }
  }

  // ---------- saving ----------

  /** The map saveListObject builds; of two items with one key the later wins. */
  function Contents(enhanced: bool, info: Info, items: seq<Object>): map<string, Object>
    requires HasKey(info)
  {
    if items == [] then map[]
    else
      var last := items[|items| - 1];
      Contents(enhanced, info, items[..|items| - 1])[ItemKey(enhanced, info, last) := last]
  }

  function AncestorsOf(keys: set<string>): set<string>
  {
    set c, d | c in keys && d in Ancestors(c) :: d
  }

  /** The tree with an empty directory in place of root's subtree. */
  function Cleared(t: Tree, root: string): Tree
  {
    var o := Outside(t, root);
    Tree(o.files, o.dirs + {root} + Ancestors(root))
  }

  /** The tree after the given objects have been created in it. */
  function Filled(t: Tree, objs: map<string, Object>, done: set<string>): Tree
  {
    Tree(t.files + (map c | c in done && c in objs :: Whole(objs[c])), t.dirs + AncestorsOf(done))
  }

  /** ReplaceComponentList run to its end: the subtree of root holds contents and nothing else. */
  function AfterReplace(t: Tree, root: string, contents: map<string, Object>): Tree
  {
    Filled(Cleared(t, root), contents, contents.Keys)
  }

  lemma KeysDistinct(enhanced: bool, info: Info, items: seq<Object>, i: nat, j: nat)
    requires GoodList(info, items) && i < j < |items|
    ensures ItemKey(enhanced, info, items[i]) != ItemKey(enhanced, info, items[j])
  {
    if ItemKey(enhanced, info, items[i]) == ItemKey(enhanced, info, items[j]) {
      ItemKeyInjective(enhanced, info, items[i], items[j]);
    }
  }

  function ItemKeys(enhanced: bool, info: Info, items: seq<Object>): seq<string>
    requires HasKey(info)
  {
    seq(|items|, i requires 0 <= i < |items| => ItemKey(enhanced, info, items[i]))
  }

  /** Items filed one after another under the keys at their places. */
  function Filed(keys: seq<string>, items: seq<Object>): map<string, Object>
    requires |keys| == |items|
  {
    if keys == [] then map[]
    else
      var n := |keys| - 1;
      Filed(keys[..n], items[..n])[keys[n] := items[n]]
  }

  lemma {:induction false} FiledAt(keys: seq<string>, items: seq<Object>, i: nat)
    requires |keys| == |items| && Distinct(keys) && i < |keys|
    ensures keys[i] in Filed(keys, items) && Filed(keys, items)[keys[i]] == items[i]
  {
    var n := |keys| - 1;
    if i < n {
      FiledAt(keys[..n], items[..n], i);
      assert keys[i] != keys[n];
    }
  }

  lemma {:induction false} ContentsAreFiled(enhanced: bool, info: Info, items: seq<Object>)
    requires HasKey(info)
    ensures Contents(enhanced, info, items) == Filed(ItemKeys(enhanced, info, items), items)
  {
    if items != [] {
      var n := |items| - 1;
      ContentsAreFiled(enhanced, info, items[..n]);
      assert ItemKeys(enhanced, info, items)[..n] == ItemKeys(enhanced, info, items[..n]);
    }
  }

  lemma ItemKeysDistinct(enhanced: bool, info: Info, items: seq<Object>)
    requires GoodList(info, items)
    ensures Distinct(ItemKeys(enhanced, info, items))
  {
    var keys := ItemKeys(enhanced, info, items);
    forall i, j | 0 <= i < j < |keys| ensures keys[i] != keys[j] { KeysDistinct(enhanced, info, items, i, j); }
  }

  lemma ContentsAt(enhanced: bool, info: Info, items: seq<Object>, i: nat)
    requires GoodList(info, items) && i < |items|
    ensures ItemKey(enhanced, info, items[i]) in Contents(enhanced, info, items)
    ensures Contents(enhanced, info, items)[ItemKey(enhanced, info, items[i])] == items[i]
  {
    ContentsAreFiled(enhanced, info, items);
    ItemKeysDistinct(enhanced, info, items);
    FiledAt(ItemKeys(enhanced, info, items), items, i);
  }

  lemma {:induction false} ContentsFrom(enhanced: bool, info: Info, items: seq<Object>, k: string) returns (i: nat)
    requires HasKey(info) && k in Contents(enhanced, info, items)
    ensures i < |items| && ItemKey(enhanced, info, items[i]) == k
  {
    var n := |items| - 1;
    if k == ItemKey(enhanced, info, items[n]) {
      i := n;
    } else {
      i := ContentsFrom(enhanced, info, items[..n], k);
    }
  }

  // ---------- answering ----------

  datatype Answer = NotFound | Undecodable | Listed(items: seq<Object>, version: Option<nat>)

  function FilesBelow(t: Tree, root: string): set<string>
  {
    set p | p in t.files && Under(root, p)
  }

  /** storageWrapper.List: objects that do not decode are dropped. */
  function Decoded(t: Tree, order: seq<string>): seq<Object>
    requires forall i :: 0 <= i < |order| ==> order[i] in t.files
  {
    if order == [] then []
    else
      var rest := Decoded(t, order[..|order| - 1]);
      match t.files[order[|order| - 1]]
      case Whole(obj) => rest + [obj]
      case Torn => rest
  }

  function MaxVersion(items: seq<Object>): nat
  {
    if items == [] then 0
    else
      var rest := MaxVersion(items[..|items| - 1]);
      if items[|items| - 1].version > rest then items[|items| - 1].version else rest
  }

  /** queryListObject, for any order in which the store walks the files below the key. */
  function QueryList(t: Tree, root: string, order: seq<string>, kubeletPods: bool, byName: bool): Answer
    requires Enumerates(order, FilesBelow(t, root))
  {
    if !Exists(t, root) then (if byName then Listed([], None) else NotFound)
    else if order != [] && t.files[order[0]].Torn? then Undecodable
    else
      var objs := Decoded(t, order);
      if objs != [] then Listed(objs, Some(MaxVersion(objs)))
      else if kubeletPods then NotFound
      else Listed([], None)
  }

  /** The answer a client should get for a list of exactly these items. */
  ghost predicate Serves(a: Answer, items: seq<Object>, kubeletPods: bool)
  {
    if items == [] then a == if kubeletPods then NotFound else Listed([], None)
    else a.Listed? && multiset(a.items) == multiset(items) && a.version == Some(MaxVersion(items))
  }

  /**
   * The disk store's last call of a replacement leaves, file by file, what
   * AfterReplace makes of what the store stood for.
   */
  lemma DiskReplaceIsAfterReplace(m: DiskStore.Machine, key: string, t: Tree, p: string)
    requires DiskStore.Inv(m) && DiskStore.NoStale(m, p) && FileIn(t.files, p) == DiskStore.Backed(m.fs, p)
    requires DiskStore.Enabled(m, DiskStore.Remove(key, None)) && m.procs[key].stage.Removing?
    ensures DiskStore.Backed(DiskStore.Next(m, DiskStore.Remove(key, None)).fs, p) ==
            FileIn(AfterReplace(t, key, m.procs[key].contents).files, p)
  {
    DiskStore.StepRefines(m, DiskStore.Remove(key, None), p);
    assert DiskStore.Phase(m.fs, key, m.procs[key]);
  }

  lemma {:induction false} MaxVersionIsMax(items: seq<Object>)
    ensures forall i :: 0 <= i < |items| ==> items[i].version <= MaxVersion(items)
    ensures items == [] ==> MaxVersion(items) == 0
    ensures items != [] ==> exists i :: 0 <= i < |items| && items[i].version == MaxVersion(items)
  {
    if items != [] {
      var n := |items| - 1;
      MaxVersionIsMax(items[..n]);
      if items[n].version <= MaxVersion(items[..n]) && n > 0 {
        var i :| 0 <= i < |items[..n]| && items[..n][i].version == MaxVersion(items[..n]);
        assert items[i].version == MaxVersion(items);
      } else {
        assert items[n].version == MaxVersion(items);
      }
    }
  }

  lemma MaxVersionOfMultiset(a: seq<Object>, b: seq<Object>)
    requires multiset(a) == multiset(b)
    ensures MaxVersion(a) == MaxVersion(b)
  {
    MaxAtMost(a, b);
    MaxAtMost(b, a);
  }

  lemma MaxAtMost(a: seq<Object>, b: seq<Object>)
    requires multiset(a) == multiset(b)
    ensures MaxVersion(a) <= MaxVersion(b)
  {
    MaxVersionIsMax(a);
    MaxVersionIsMax(b);
    if a != [] {
      var i :| 0 <= i < |a| && a[i].version == MaxVersion(a);
      assert a[i] in multiset(b);
      var j :| 0 <= j < |b| && b[j] == a[i];
    }
  }

  function Values(m: map<string, Object>, order: seq<string>): seq<Object>
    requires forall i :: 0 <= i < |order| ==> order[i] in m
  {
    seq(|order|, i requires 0 <= i < |order| => m[order[i]])
  }

  /** Walking a map's keys in any order meets each stored item once. */
  lemma {:induction false} ValuesAreItems(m: map<string, Object>, keys: seq<string>, items: seq<Object>,
      order: seq<string>)
    requires |keys| == |items| && Distinct(keys)
    requires forall i :: 0 <= i < |keys| ==> keys[i] in m && m[keys[i]] == items[i]
    requires Enumerates(order, SetOf(keys))
    requires forall i :: 0 <= i < |order| ==> order[i] in m
    ensures multiset(Values(m, order)) == multiset(items)
    decreases |keys|
  {
    if keys == [] {
      EnumerationOfSome(order, SetOf(keys));
      assert Values(m, order) == [];
    } else {
      var n := |keys| - 1;
      assert keys[n] in SetOf(keys);
      var j :| 0 <= j < |order| && order[j] == keys[n];
      EnumerationWithout(order, j, keys);
      var order' := order[..j] + order[j + 1..];
      ValuesAreItems(m, keys[..n], items[..n], order');
      ValuesWithout(m, order, j);
      assert items == items[..n] + [items[n]];
    }
  }

  lemma EnumerationOfSome(order: seq<string>, keys: set<string>)
    requires Enumerates(order, keys)
    ensures order != [] ==> keys != {}
  {
    if order != [] { assert order[0] in keys; }
  }

  lemma ValuesWithout(m: map<string, Object>, order: seq<string>, j: nat)
    requires j < |order| && forall i :: 0 <= i < |order| ==> order[i] in m
    ensures multiset(Values(m, order)) ==
            multiset(Values(m, order[..j] + order[j + 1..])) + multiset{m[order[j]]}
  {
    var a, b := order[..j], order[j + 1..];
    assert Values(m, order) == Values(m, a) + [m[order[j]]] + Values(m, b);
    assert Values(m, a + b) == Values(m, a) + Values(m, b);
  }

  lemma EnumerationWithout(order: seq<string>, j: nat, keys: seq<string>)
    requires keys != [] && j < |order| && order[j] == keys[|keys| - 1]
    requires Enumerates(order, SetOf(keys)) && Distinct(keys)
    ensures Enumerates(order[..j] + order[j + 1..], SetOf(keys[..|keys| - 1]))
  {
    var n := |keys| - 1;
    var order' := order[..j] + order[j + 1..];
    forall i | 0 <= i < |order'| ensures order'[i] in SetOf(keys[..n])
    {
      var o := if i < j then i else i + 1;
      assert order'[i] == order[o] && o != j;
      assert order[o] in SetOf(keys);
      var x :| 0 <= x < |keys| && keys[x] == order[o];
      assert x != n;
      assert keys[..n][x] == order[o];
    }
    forall k | k in SetOf(keys[..n]) ensures k in order'
    {
      var x :| 0 <= x < n && keys[..n][x] == k;
      assert keys[x] == k && k != keys[n];
      assert k in SetOf(keys);
      var o :| 0 <= o < |order| && order[o] == k;
      assert order'[if o < j then o else o - 1] == k;
    }
  }

  /** The subtree of root holds exactly the given objects. */
  ghost predicate Holds(t: Tree, root: string, m: map<string, Object>)
  {
    && root in t.dirs && root !in t.files
    && (forall c :: c in m ==> Under(root, c))
    && (forall p :: Under(root, p) ==> FileIn(t.files, p) == if p in m then Some(Whole(m[p])) else None)
  }

  /** A subtree holds one map of objects only. */
  lemma HoldsOnce(t: Tree, root: string, a: map<string, Object>, b: map<string, Object>)
    requires Holds(t, root, a) && Holds(t, root, b)
    ensures a == b
  {
    HeldFiles(t, root, a);
    HeldFiles(t, root, b);
    assert a.Keys == b.Keys;
  }

  lemma SaveHolds(t: Tree, root: string, m: map<string, Object>)
    requires forall c :: c in m ==> c != root && Under(root, c)
    ensures Holds(AfterReplace(t, root, m), root, m)
  {
  }

  lemma ContentsBelowRoot(enhanced: bool, info: Info, items: seq<Object>)
    requires GoodList(info, items)
    ensures forall c :: c in Contents(enhanced, info, items) ==>
              c != RootKey(enhanced, info) && Under(RootKey(enhanced, info), c)
  {
    forall c | c in Contents(enhanced, info, items)
      ensures c != RootKey(enhanced, info) && Under(RootKey(enhanced, info), c)
    {
      var i := ContentsFrom(enhanced, info, items, c);
      ItemBelowRoot(enhanced, info, items[i]);
    }
  }

  lemma {:induction false} DecodedWhole(t: Tree, m: map<string, Object>, order: seq<string>)
    requires forall i :: 0 <= i < |order| ==>
               order[i] in m && order[i] in t.files && t.files[order[i]] == Whole(m[order[i]])
    ensures Decoded(t, order) == Values(m, order)
  {
    if order != [] {
      DecodedWhole(t, m, order[..|order| - 1]);
      assert Values(m, order) == Values(m, order[..|order| - 1]) + [m[order[|order| - 1]]];
    }
  }

  lemma HeldFiles(t: Tree, root: string, m: map<string, Object>)
    requires Holds(t, root, m)
    ensures FilesBelow(t, root) == m.Keys
    ensures forall p :: p in m ==> p in t.files && t.files[p] == Whole(m[p])
  {
    forall p | Under(root, p) ensures p in t.files <==> p in m
    {
      assert FileIn(t.files, p) == if p in m then Some(Whole(m[p])) else None;
    }
    forall p | p in m ensures p in t.files && t.files[p] == Whole(m[p])
    {
      assert FileIn(t.files, p) == Some(Whole(m[p]));
    }
  }

  /** A store that holds objects answers with exactly them, list version the highest version among them. */
  lemma HeldObjectsAreServed(t: Tree, root: string, m: map<string, Object>, order: seq<string>, kubeletPods: bool,
      byName: bool)
    requires Holds(t, root, m) && Enumerates(order, FilesBelow(t, root))
    ensures forall i :: 0 <= i < |order| ==> order[i] in m
    ensures Enumerates(order, m.Keys)
    ensures Serves(QueryList(t, root, order, kubeletPods, byName), Values(m, order), kubeletPods)
  {
    HeldFiles(t, root, m);
    DecodedWhole(t, m, order);
  }

  lemma {:induction false} DecodedAre(t: Tree, order: seq<string>, obj: Object)
    requires forall i :: 0 <= i < |order| ==> order[i] in t.files
    ensures obj in Decoded(t, order) <==> exists i :: 0 <= i < |order| && t.files[order[i]] == Whole(obj)
  {
    if order != [] {
      var n := |order| - 1;
      DecodedAre(t, order[..n], obj);
      if i :| 0 <= i < |order| && t.files[order[i]] == Whole(obj) {
        if i < n { assert t.files[order[..n][i]] == Whole(obj); }
      }
      if obj in Decoded(t, order[..n]) {
        var i :| 0 <= i < n && t.files[order[..n][i]] == Whole(obj);
        assert t.files[order[i]] == Whole(obj);
      }
    }
  }

  lemma DecodedBelow(t: Tree, root: string, order: seq<string>, obj: Object)
    requires Enumerates(order, FilesBelow(t, root))
    ensures forall i :: 0 <= i < |order| ==> order[i] in t.files
    ensures obj in Decoded(t, order) <==> exists p :: p in t.files && Under(root, p) && t.files[p] == Whole(obj)
  {
    forall i | 0 <= i < |order| ensures order[i] in t.files && Under(root, order[i])
    {
      assert order[i] in FilesBelow(t, root);
    }
    DecodedAre(t, order, obj);
    if p :| p in t.files && Under(root, p) && t.files[p] == Whole(obj) {
      assert p in FilesBelow(t, root);
      var i :| 0 <= i < |order| && order[i] == p;
      assert t.files[order[i]] == Whole(obj);
    }
  }

  /**
   * The answer to a list from any store: not found if nothing is stored for it,
   * unless it asks by name, or if the kubelet's pods are all gone; an error if
   * the first file read does not decode; else exactly the objects that do.
   */
  lemma AnswerIs(t: Tree, root: string, order: seq<string>, kubeletPods: bool, byName: bool, obj: Object)
    requires Enumerates(order, FilesBelow(t, root))
    ensures var a := QueryList(t, root, order, kubeletPods, byName);
            && (a.NotFound? <==> if Exists(t, root) then kubeletPods && FilesBelow(t, root) == {} else !byName)
            && (a.Undecodable? <==> Exists(t, root) && order != [] && t.files[order[0]].Torn?)
            && (a.Listed? && !Exists(t, root) ==> a.items == [])
            && (a.Listed? && Exists(t, root) ==>
                  (obj in a.items <==> exists p :: p in t.files && Under(root, p) && t.files[p] == Whole(obj)))
            && (a.Listed? ==> (a.version.None? <==> a.items == []))
            && (a.Listed? && a.version.Some? ==>
                  && (forall i :: 0 <= i < |a.items| ==> a.items[i].version <= a.version.value)
                  && (exists i :: 0 <= i < |a.items| && a.items[i].version == a.version.value))
  {
    DecodedBelow(t, root, order, obj);
    MaxVersionIsMax(Decoded(t, order));
    if order == [] {
      assert FilesBelow(t, root) == {};
    } else {
      assert order[0] in FilesBelow(t, root);
      if t.files[order[0]].Whole? { DecodedAre(t, order, t.files[order[0]].obj); }
    }
  }

  lemma ServesSame(a: Answer, xs: seq<Object>, ys: seq<Object>, kubeletPods: bool)
    requires multiset(xs) == multiset(ys) && Serves(a, xs, kubeletPods)
    ensures Serves(a, ys, kubeletPods)
  {
    assert |xs| == |multiset(xs)| == |multiset(ys)| == |ys|;
    MaxVersionOfMultiset(xs, ys);
  }

  lemma ContentsKeys(enhanced: bool, info: Info, items: seq<Object>)
    requires GoodList(info, items)
    ensures SetOf(ItemKeys(enhanced, info, items)) == Contents(enhanced, info, items).Keys
    ensures Distinct(ItemKeys(enhanced, info, items))
  {
    var keys, m := ItemKeys(enhanced, info, items), Contents(enhanced, info, items);
    forall i | 0 <= i < |keys| ensures keys[i] in m
    {
      ContentsAt(enhanced, info, items, i);
    }
    forall k | k in m ensures k in keys
    {
      var i := ContentsFrom(enhanced, info, items, k);
      assert keys[i] == k;
    }
    forall i, j | 0 <= i < j < |keys| ensures keys[i] != keys[j]
    {
      KeysDistinct(enhanced, info, items, i, j);
    }
  }

  /** The stored objects of a list are its items, each once, in whatever order they are read. */
  lemma ContentsAreItems(enhanced: bool, info: Info, items: seq<Object>, order: seq<string>)
    requires GoodList(info, items) && Enumerates(order, Contents(enhanced, info, items).Keys)
    requires forall i :: 0 <= i < |order| ==> order[i] in Contents(enhanced, info, items)
    ensures multiset(Values(Contents(enhanced, info, items), order)) == multiset(items)
  {
    var m, keys := Contents(enhanced, info, items), ItemKeys(enhanced, info, items);
    ContentsKeys(enhanced, info, items);
    forall i | 0 <= i < |keys| ensures keys[i] in m && m[keys[i]] == items[i]
    {
      ContentsAt(enhanced, info, items, i);
    }
    ValuesAreItems(m, keys, items, order);
  }

  /** Round trip: a saved list is answered with exactly its items, whatever was stored before. */
  lemma SaveThenQuery(t: Tree, enhanced: bool, info: Info, items: seq<Object>, order: seq<string>, kubeletPods: bool,
      byName: bool)
    requires GoodList(info, items)
    requires var t' := AfterReplace(t, RootKey(enhanced, info), Contents(enhanced, info, items));
             Enumerates(order, FilesBelow(t', RootKey(enhanced, info)))
    ensures var t' := AfterReplace(t, RootKey(enhanced, info), Contents(enhanced, info, items));
            Serves(QueryList(t', RootKey(enhanced, info), order, kubeletPods, byName), items, kubeletPods)
  {
    var root, m := RootKey(enhanced, info), Contents(enhanced, info, items);
    var t' := AfterReplace(t, root, m);
    ContentsBelowRoot(enhanced, info, items);
    SaveHolds(t, root, m);
    HeldObjectsAreServed(t', root, m, order, kubeletPods, byName);
    ContentsAreItems(enhanced, info, items, order);
    ServesSame(QueryList(t', root, order, kubeletPods, byName), Values(m, order), items, kubeletPods);
  }

  // ---------- watch events ----------

  /**
   * A decoded watch event: Changed is added or modified, Noted a bookmark or an
   * error. unassigned marks a pod that has no node yet.
   */
  datatype WatchEvent = Changed(obj: Object, unassigned: bool) | Deleted(obj: Object) | Noted(obj: Object)

  /** The key of a watched object; unlike a listed one it takes the object's own namespace only. */
  function WatchKey(enhanced: bool, info: Info, obj: Object): string
    requires HasKey(info)
  {
    KeyOf(enhanced, info.(namespace := obj.namespace, name := obj.name)).value
  }

  /** storeObjectWithKey on the tree: pods without a node, older versions and undecodable files are refused. */
  function StoreFile(t: Tree, key: string, obj: Object, unassigned: bool): Tree
  {
    if unassigned then t
    else if key !in t.files then WriteFile(t, key, Whole(obj))
    else if t.files[key].Whole? && t.files[key].obj.version <= obj.version then t.(files := t.files[key := Whole(obj)])
    else t
  }

  /** What one event does under its key. */
  function AfterEvent(t: Tree, key: string, e: WatchEvent): Tree
  {
    match e
    case Changed(obj, unassigned) => StoreFile(t, key, obj, unassigned)
    case Deleted(_) => t.(files := t.files - {key})
    case Noted(_) => t
  }

  /** One turn of saveWatchObject: objects without a name are passed over. */
  function WatchTurn(t: Tree, enhanced: bool, info: Info, e: WatchEvent): Tree
    requires HasKey(info)
  {
    if e.obj.name == "" then t else AfterEvent(t, WatchKey(enhanced, info, e.obj), e)
  }

  function WatchTurns(t: Tree, enhanced: bool, info: Info, events: seq<WatchEvent>): Tree
    requires HasKey(info)
  {
    if events == [] then t
    else WatchTurn(WatchTurns(t, enhanced, info, events[..|events| - 1]), enhanced, info, events[|events| - 1])
  }

  /** A watch takes its events one after the other, and those without a name leave no trace. */
  lemma {:induction false} WatchTurnsConcat(t: Tree, enhanced: bool, info: Info, first: seq<WatchEvent>,
      more: seq<WatchEvent>)
    requires HasKey(info)
    ensures WatchTurns(t, enhanced, info, first + more) ==
            WatchTurns(WatchTurns(t, enhanced, info, first), enhanced, info, more)
    ensures (forall i :: 0 <= i < |more| ==> more[i].obj.name == "") ==>
              WatchTurns(t, enhanced, info, first + more) == WatchTurns(t, enhanced, info, first)
    decreases |more|
  {
    if more == [] {
      assert first + more == first;
    } else {
      var front := more[..|more| - 1];
      WatchTurnsConcat(t, enhanced, info, first, front);
      assert (first + more)[..|first + more| - 1] == first + front;
    }
  }

  /** The store refuses an object older than the one it has. */
  predicate Newer(m: map<string, Object>, key: string, obj: Object)
  {
    key in m ==> m[key].version <= obj.version
  }

  /** The objects on the server after the event. */
  function ServerAfter(m: map<string, Object>, key: string, e: WatchEvent): map<string, Object>
  {
    match e
    case Changed(obj, _) => m[key := obj]
    case Deleted(_) => m - {key}
    case Noted(_) => m
  }

  /** The objects in the store after the event: a pod without a node and an older object leave them as they were. */
  function HeldAfter(m: map<string, Object>, key: string, e: WatchEvent): map<string, Object>
  {
    if e.Changed? && (e.unassigned || !Newer(m, key, e.obj)) then m else ServerAfter(m, key, e)
  }

  /** A pod without a node, or an object older than the stored one, that is not what is stored. */
  predicate Misses(m: map<string, Object>, key: string, e: WatchEvent)
  {
    e.Changed? && (e.unassigned || !Newer(m, key, e.obj)) && !(key in m && m[key] == e.obj)
  }

  lemma EventKeepsHolds(t: Tree, root: string, m: map<string, Object>, key: string, e: WatchEvent)
    requires Holds(t, root, m) && key != root && Under(root, key)
    ensures Holds(AfterEvent(t, key, e), root, HeldAfter(m, key, e))
  {
    var t', m' := AfterEvent(t, key, e), HeldAfter(m, key, e);
    HeldFiles(t, root, m);
    assert FileIn(t.files, key) == if key in m then Some(Whole(m[key])) else None;
    forall p | Under(root, p) ensures FileIn(t'.files, p) == if p in m' then Some(Whole(m'[p])) else None
    {
      assert FileIn(t.files, p) == if p in m then Some(Whole(m[p])) else None;
    }
  }

  /** A watch keeps a list that is equal to the server's equal to it exactly when the event is not one it misses. */
  lemma EventFollowsServerIff(t: Tree, root: string, m: map<string, Object>, key: string, e: WatchEvent)
    requires Holds(t, root, m) && key != root && Under(root, key)
    ensures Holds(AfterEvent(t, key, e), root, ServerAfter(m, key, e)) <==> !Misses(m, key, e)
  {
    EventKeepsHolds(t, root, m, key, e);
    var t', m', server := AfterEvent(t, key, e), HeldAfter(m, key, e), ServerAfter(m, key, e);
    if Misses(m, key, e) {
      if Holds(t', root, server) { HoldsOnce(t', root, m', server); }
    } else {
      assert m' == server;
    }
  }

  /** An event out of order does no harm to what is stored: the newer object stays. */
  lemma StaleEventIsIgnored(t: Tree, root: string, m: map<string, Object>, key: string, e: WatchEvent)
    requires Holds(t, root, m) && e.Changed? && !Newer(m, key, e.obj)
    ensures AfterEvent(t, key, e) == t
  {
    HeldFiles(t, root, m);
  }
}
