/**
 * The multiplexer's filtered view of a resource: a filtered list to start from
 * and a rewritten stream of watch events, and why a client fed with both holds,
 * after every event, exactly the filtered image of the source.
 */
module FilteredWatch {
  import opened Collections
  import opened Objects

  type Key = (string, string)

  type Filter = Object -> Option<Object>

  type Cache = map<Key, Object>

  function KeyOf(o: Object): Key
  {
    (o.namespace, o.name)
  }

  datatype EventType = Added | Modified | Deleted | Bookmark | Error

  datatype Event = Event(kind: EventType, obj: Object)

  // ---------- what the code does ----------

  /** One turn of the loop in receive(): a filtered-out object is sent on as deleted. */
  function Rewrite(f: Filter, e: Event): Event
  {
    if e.kind.Bookmark? || e.kind.Error? then e
    else
      match f(e.obj)
      case Some(o) => Event(e.kind, o)
      case None => Event(Deleted, e.obj)
  }

  function RewriteAll(f: Filter, es: seq<Event>): seq<Event>
  {
    seq(|es|, i requires 0 <= i < |es| => Rewrite(f, es[i]))
  }

  /** receive(): reads the source until it ends, or until the watch is stopped after some deliveries. */
  method Receive(f: Filter, source: seq<Event>, stopAfter: nat) returns (result: seq<Event>)
    ensures |result| == if stopAfter < |source| then stopAfter else |source|
    ensures result == RewriteAll(f, source[..|result|])
    ensures forall i :: 0 <= i < |result| ==>
              && (source[i].kind in {Bookmark, Error} ==> result[i] == source[i])
              && (source[i].kind !in {Bookmark, Error} && f(source[i].obj).Some? ==>
                    result[i].kind == source[i].kind && Some(result[i].obj) == f(source[i].obj))
              && (source[i].kind !in {Bookmark, Error} && f(source[i].obj).None? ==>
                    result[i].kind == Deleted && result[i].obj == source[i].obj)
  {
    result := [];
    var i := 0;
    while i < |source|
      invariant 0 <= i <= |source| && i <= stopAfter
      invariant result == RewriteAll(f, source[..i])
    {
      var watchType, newObj := source[i].kind, source[i].obj;
      if watchType != Bookmark && watchType != Error {
        var filtered := f(newObj);
        if filtered.None? {
          watchType := Deleted;
          newObj := source[i].obj;
        } else {
          newObj := filtered.value;
        }
      }
      if i == stopAfter {
        return;
      }
      assert Event(watchType, newObj) == Rewrite(f, source[i]);
      result := result + [Event(watchType, newObj)];
      i := i + 1;
    }
  }

  datatype ListObject = Nothing | Items(items: seq<Object>)

  function FilterItems(f: Filter, items: seq<Object>): seq<Object>
  {
    if items == [] then []
    else
      var front := FilterItems(f, items[..|items| - 1]);
      match f(items[|items| - 1])
      case Some(o) => front + [o]
      case None => front
  }

  /** filterListObject; onEmptyList is what the filter makes of a list object without items. */
  method FilterListObject(f: Filter, onEmptyList: ListObject, items: seq<Object>) returns (result: ListObject)
    ensures result == if items == [] then onEmptyList else Items(FilterItems(f, items))
  {
    if |items| == 0 {
      return onEmptyList;
    }
    var list: seq<Object> := [];
    var i := 0;
    while i < |items|
      invariant 0 <= i <= |items| && list == FilterItems(f, items[..i])
    {
      assert items[..i + 1][..i] == items[..i];
      var newObj := f(items[i]);
      if newObj.Some? {
        list := list + [newObj.value];
      }
      i := i + 1;
    }
    assert items[..i] == items;
    return Items(list);
  }

  // ---------- a client of a list and a watch ----------

  function Apply(c: Cache, e: Event): Cache
  {
    match e.kind
    case Added => c[KeyOf(e.obj) := e.obj]
    case Modified => c[KeyOf(e.obj) := e.obj]
    case Deleted => c - {KeyOf(e.obj)}
    case Bookmark => c
    case Error => c
  }

  function ApplyAll(c: Cache, es: seq<Event>): Cache
  {
    if es == [] then c else Apply(ApplyAll(c, es[..|es| - 1]), es[|es| - 1])
  }

  function FromList(items: seq<Object>): Cache
  {
    if items == [] then map[]
    else FromList(items[..|items| - 1])[KeyOf(items[|items| - 1]) := items[|items| - 1]]
  }

  /** The filtered image of the source. */
  function Image(f: Filter, source: Cache): Cache
  {
    map k | k in source && f(source[k]).Some? :: f(source[k]).value
  }

  ghost predicate KeepsKeys(f: Filter)
  {
    forall o :: f(o).Some? ==> KeyOf(f(o).value) == KeyOf(o)
  }

  predicate DistinctKeys(items: seq<Object>)
  {
    forall i, j :: 0 <= i < j < |items| ==> KeyOf(items[i]) != KeyOf(items[j])
  }

  // ---------- the simulation ----------

  lemma ApplyTracks(f: Filter, source: Cache, e: Event)
    requires KeepsKeys(f)
    ensures Apply(Image(f, source), Rewrite(f, e)) == Image(f, Apply(source, e))
  {
    var client, client' := Image(f, source), Apply(Image(f, source), Rewrite(f, e));
    var image := Image(f, Apply(source, e));
    if e.kind.Added? || e.kind.Modified? || e.kind.Deleted? {
      var k := KeyOf(e.obj);
      forall j | j != k ensures j in client' <==> j in image {}
      assert k in client' <==> k in image;
      assert client' == image;
    }
  }

  lemma {:induction false} EventsTrack(f: Filter, source: Cache, es: seq<Event>)
    requires KeepsKeys(f)
    ensures ApplyAll(Image(f, source), RewriteAll(f, es)) == Image(f, ApplyAll(source, es))
  {
    if es != [] {
      var n := |es| - 1;
      EventsTrack(f, source, es[..n]);
      assert RewriteAll(f, es)[..n] == RewriteAll(f, es[..n]);
      ApplyTracks(f, ApplyAll(source, es[..n]), es[n]);
    }
  }

  lemma {:induction false} FromListKeys(items: seq<Object>, k: Key)
    requires k in FromList(items)
    ensures exists i :: 0 <= i < |items| && KeyOf(items[i]) == k
  {
    var n := |items| - 1;
    if KeyOf(items[n]) != k {
      FromListKeys(items[..n], k);
      var i :| 0 <= i < |items[..n]| && KeyOf(items[..n][i]) == k;
      assert KeyOf(items[i]) == k;
    }
  }

  lemma ImageSnoc(f: Filter, source: Cache, o: Object)
    requires KeyOf(o) !in source
    ensures Image(f, source[KeyOf(o) := o]) ==
            if f(o).Some? then Image(f, source)[KeyOf(o) := f(o).value] else Image(f, source)
  {
  }

  lemma FilterItemsSnoc(f: Filter, front: seq<Object>, o: Object)
    requires f(o).Some? ==> KeyOf(f(o).value) == KeyOf(o)
    ensures FromList(FilterItems(f, front + [o])) ==
            if f(o).Some? then FromList(FilterItems(f, front))[KeyOf(o) := f(o).value]
              else FromList(FilterItems(f, front))
  {
    assert (front + [o])[..|front|] == front;
    if f(o).Some? {
      var kept := FilterItems(f, front + [o]);
      assert kept[..|kept| - 1] == FilterItems(f, front);
    }
  }

  /** Filtering a list is filtering its items one by one, in their order. */
  lemma {:induction false} FilterItemsConcat(f: Filter, a: seq<Object>, b: seq<Object>)
    ensures FilterItems(f, a + b) == FilterItems(f, a) + FilterItems(f, b)
    ensures forall o :: FilterItems(f, [o]) == if f(o).Some? then [f(o).value] else []
    decreases |b|
  {
    forall o ensures FilterItems(f, [o]) == if f(o).Some? then [f(o).value] else []
    {
      assert [o][..0] == [];
    }
    if b == [] {
      assert a + b == a;
    } else {
      var front := b[..|b| - 1];
      FilterItemsConcat(f, a, front);
      assert (a + b)[..|a + b| - 1] == a + front;
    }
  }

  /** The filtered list is the filtered image of the list. */
  lemma {:induction false} ListTracks(f: Filter, items: seq<Object>)
    requires KeepsKeys(f) && DistinctKeys(items)
    ensures FromList(FilterItems(f, items)) == Image(f, FromList(items))
  {
    if items != [] {
      var front, last := items[..|items| - 1], items[|items| - 1];
      ListTracks(f, front);
      if KeyOf(last) in FromList(front) {
        FromListKeys(front, KeyOf(last));
      }
      assert front + [last] == items;
      FilterItemsSnoc(f, front, last);
      ImageSnoc(f, FromList(front), last);
    }
  }

  /**
   * Main result: with a filter that keeps namespace and name and leaves an
   * empty list alone, the client that starts from the filtered list holds,
   * after any number of events, exactly the filtered image of the source.
   */
  lemma ClientHoldsFilteredImage(f: Filter, onEmptyList: ListObject, items: seq<Object>, es: seq<Event>, n: nat)
    requires KeepsKeys(f) && onEmptyList == Items([]) && DistinctKeys(items) && n <= |es|
    ensures var start := if items == [] then onEmptyList else Items(FilterItems(f, items));
            start.Items? &&
            ApplyAll(FromList(start.items), RewriteAll(f, es)[..n]) == Image(f, ApplyAll(FromList(items), es[..n]))
  {
    ListTracks(f, items);
    EventsTrack(f, FromList(items), es[..n]);
    assert RewriteAll(f, es)[..n] == RewriteAll(f, es[..n]);
  }

  ghost predicate Tracks(f: Filter, source: Cache, es: seq<Event>)
  {
    ApplyAll(Image(f, source), RewriteAll(f, es)) == Image(f, ApplyAll(source, es))
  }

  /** An object filtered into another name ends up under a key the source does not have. */
  lemma RenamingBreaksTracking(f: Filter, o: Object)
    requires f(o).Some? && KeyOf(f(o).value) != KeyOf(o)
    ensures !Tracks(f, map[], [Event(Added, o)])
  {
    var none: Cache := map[];
    var e, e' := Event(Added, o), Event(Added, f(o).value);
    assert Image(f, none) == none;
    assert RewriteAll(f, [e]) == [e'];
    assert [e][..0] == [] && [e'][..0] == [];
    assert ApplyAll(none, [e]) == none[KeyOf(o) := o];
    assert ApplyAll(none, [e']) == none[KeyOf(f(o).value) := f(o).value];
    assert KeyOf(o) in Image(f, none[KeyOf(o) := o]);
  }

  /** Keeping namespace and name is exactly what the stream of events needs. */
  lemma TracksIffKeysKept(f: Filter)
    ensures (forall source: Cache, es: seq<Event> :: Tracks(f, source, es)) <==> KeepsKeys(f)
  {
    if KeepsKeys(f) {
      forall source: Cache, es: seq<Event> ensures Tracks(f, source, es)
      {
        EventsTrack(f, source, es);
      }
    } else {
      var o :| f(o).Some? && KeyOf(f(o).value) != KeyOf(o);
      RenamingBreaksTracking(f, o);
    }
  }

  // ---------- in terms of the latest event ----------

  predicate Touches(e: Event, k: Key)
  {
    e.kind in {Added, Modified, Deleted} && KeyOf(e.obj) == k
  }

  /** What an event leaves under its key. */
  function Left(e: Event): Option<Object>
  {
    if e.kind == Deleted then None else Some(e.obj)
  }

  function Lookup(c: Cache, k: Key): Option<Object>
  {
    if k in c then Some(c[k]) else None
  }

  /** Event i is the latest on k. */
  predicate IsLatest(es: seq<Event>, k: Key, i: nat)
  {
    i < |es| && Touches(es[i], k) && forall j :: i < j < |es| ==> !Touches(es[j], k)
  }

  lemma ApplyAt(c: Cache, e: Event, k: Key)
    ensures Lookup(Apply(c, e), k) == if Touches(e, k) then Left(e) else Lookup(c, k)
  {
  }

  /**
   * A cache fed with events holds under a key what the latest event on it left,
   * or what it held before if there was none.
   */
  lemma {:induction false} LatestEventDecides(c: Cache, es: seq<Event>, k: Key)
    ensures forall i: nat :: IsLatest(es, k, i) ==> Lookup(ApplyAll(c, es), k) == Left(es[i])
    ensures (forall i :: 0 <= i < |es| ==> !Touches(es[i], k)) ==> Lookup(ApplyAll(c, es), k) == Lookup(c, k)
  {
    if es != [] {
      var n := |es| - 1;
      LatestEventDecides(c, es[..n], k);
      ApplyAt(ApplyAll(c, es[..n]), es[n], k);
      forall i: nat | IsLatest(es, k, i) ensures Lookup(ApplyAll(c, es), k) == Left(es[i])
      {
        if i < n { assert IsLatest(es[..n], k, i); }
      }
    }
  }

  /**
   * So the client of the filtered stream holds under a key exactly what the
   * filter makes of the object the latest event on it brought, and nothing if
   * that event was a deletion or the filter drops the object.
   */
  lemma ClientHoldsLatest(f: Filter, items: seq<Object>, es: seq<Event>, k: Key, i: nat)
    requires KeepsKeys(f) && DistinctKeys(items) && IsLatest(es, k, i)
    ensures Lookup(ApplyAll(FromList(FilterItems(f, items)), RewriteAll(f, es)), k) ==
            if es[i].kind == Deleted then None else f(es[i].obj)
  {
    ListTracks(f, items);
    EventsTrack(f, FromList(items), es);
    LatestEventDecides(FromList(items), es, k);
  }

  // ---------- chains of filters ----------

  /** filterChain.Filter: each filter on the result of the one before, until one drops the object. */
  function Chain(fs: seq<Filter>, o: Object): Option<Object>
  {
    if fs == [] then Some(o)
    else
      match fs[0](o)
      case None => None
      case Some(o') => Chain(fs[1..], o')
  }

  method FilterChain(fs: seq<Filter>, o: Object) returns (result: Option<Object>)
    ensures result == Chain(fs, o)
  {
    result := Some(o);
    var i := 0;
    while i < |fs|
      invariant 0 <= i <= |fs| && result.Some?
      invariant Chain(fs, o) == Chain(fs[i..], result.value)
    {
      result := fs[i](result.value);
      if result.None? {
        break;
      }
      assert fs[i..][1..] == fs[i + 1..];
      i := i + 1;
    }
  }

  /** A chain in two parts: the second part works on what the first lets through. */
  lemma {:induction false} ChainConcat(fs: seq<Filter>, gs: seq<Filter>, o: Object)
    ensures Chain(fs + gs, o) == if Chain(fs, o).Some? then Chain(gs, Chain(fs, o).value) else None
    ensures forall f: Filter :: Chain([f], o) == f(o)
  {
    if fs == [] {
      assert fs + gs == gs;
    } else {
      assert (fs + gs)[1..] == fs[1..] + gs;
      if fs[0](o).Some? { ChainConcat(fs[1..], gs, fs[0](o).value); }
    }
  }

  lemma {:induction false} ChainKeepsKey(fs: seq<Filter>, o: Object)
    requires forall i :: 0 <= i < |fs| ==> KeepsKeys(fs[i])
    ensures Chain(fs, o).Some? ==> KeyOf(Chain(fs, o).value) == KeyOf(o)
  {
    if fs != [] && fs[0](o).Some? {
      assert KeepsKeys(fs[0]);
      ChainKeepsKey(fs[1..], fs[0](o).value);
    }
  }

  /** So a chain of filters that each keep namespace and name can be tracked as one. */
  lemma ChainTracks(fs: seq<Filter>, source: Cache, es: seq<Event>)
    requires forall i :: 0 <= i < |fs| ==> KeepsKeys(fs[i])
    ensures var f := (o: Object) => Chain(fs, o);
            ApplyAll(Image(f, source), RewriteAll(f, es)) == Image(f, ApplyAll(source, es))
  {
    var f := (o: Object) => Chain(fs, o);
    forall o | f(o).Some? ensures KeyOf(f(o).value) == KeyOf(o)
    {
      ChainKeepsKey(fs, o);
    }
    EventsTrack(f, source, es);
  }
}
