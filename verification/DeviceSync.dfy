/**
 * One round of the IoT device syncer: devices the edge platform has and
 * OpenYurt lacks are created, synced devices the edge platform no longer has
 * are deleted, the others get their status updated.
 */
module DeviceSync {
  import opened Collections

  datatype Device = Device(name: string, edgeLabel: Option<string>, synced: bool, managed: bool, pool: string,
    status: string)

  /** The device objects of one node pool in OpenYurt by object name. */
  type Kube = map<string, Device>

  /** util.GetEdgeDeviceName. */
  function EdgeName(d: Device): string
  {
    if d.edgeLabel.Some? then d.edgeLabel.value else d.name
  }

  predicate Keyed(m: map<string, Device>)
  {
    forall k :: k in m ==> EdgeName(m[k]) == k
  }

  /** Objects are stored under their own name and no two stand for one edge device. */
  predicate WellNamed(kube: Kube)
  {
    && (forall n :: n in kube ==> kube[n].name == n)
    && (forall m, n :: m in kube && n in kube && m != n ==> EdgeName(kube[m]) != EdgeName(kube[n]))
  }

  function EdgeNames(kube: Kube): set<string>
  {
    set n | n in kube :: EdgeName(kube[n])
  }

  /** completeCreateContent. */
  function CreateContent(pool: string, d: Device): Device
  {
    d.(pool := pool, name := pool + "-" + d.name, managed := false)
  }

  /** What a create call stores: status is a subresource, so the API server drops it, the synced flag included. */
  function Stored(d: Device): Device
  {
    d.(synced := false, status := "")
  }

  /** completeUpdateContent: the object in OpenYurt with the status of the edge. */
  function UpdateContent(k: Device, e: Device): Device
  {
    k.(status := e.status)
  }

  /** The name an edge device is known by survives its creation exactly when it is kept in the label. */
  lemma NameSurvivesCreationIff(pool: string, d: Device)
    ensures EdgeName(CreateContent(pool, d)) == EdgeName(d) <==> d.edgeLabel.Some?
  {
    if d.edgeLabel.None? { assert |pool + "-" + d.name| > |d.name|; }
  }

  // ---------- collecting and comparing ----------

  /** The maps of getAllDevices; of two devices with one edge name the later listed wins. */
  method ByEdgeName(devs: seq<Device>) returns (m: map<string, Device>)
    ensures Keyed(m) && m.Keys == set d | d in devs :: EdgeName(d)
    ensures forall k :: k in m ==> m[k] in devs
  {
    m := map[];
    for i := 0 to |devs|
      invariant Keyed(m) && m.Keys == set d | d in devs[..i] :: EdgeName(d)
      invariant forall k :: k in m ==> m[k] in devs
    {
      assert devs[..i + 1] == devs[..i] + [devs[i]];
      m := m[EdgeName(devs[i]) := devs[i]];
    }
    assert devs[..|devs|] == devs;
  }

  datatype Diff = Diff(create: map<string, Device>, delete: map<string, Device>, update: map<string, Device>)

  function DiffOf(pool: string, edge: map<string, Device>, kube: map<string, Device>): Diff
  {
    Diff(map k | k in edge && k !in kube :: CreateContent(pool, edge[k]),
         map k | k in kube && kube[k].synced && k !in edge :: kube[k],
         map k | k in edge && k in kube :: UpdateContent(kube[k], edge[k]))
  }

  /** The first loop of findDiffDevice. */
  method CompareEdge(pool: string, edge: map<string, Device>, kube: map<string, Device>)
      returns (create: map<string, Device>, update: map<string, Device>)
    requires Keyed(edge)
    ensures create.Keys == edge.Keys - kube.Keys && update.Keys == edge.Keys * kube.Keys
    ensures forall k :: k in create ==> create[k] == CreateContent(pool, edge[k])
    ensures forall k :: k in update ==> update[k] == UpdateContent(kube[k], edge[k])
  {
    create, update := map[], map[];
    var left := edge.Keys;
    while left != {}
      invariant left <= edge.Keys
      invariant create.Keys == (edge.Keys - left) - kube.Keys && update.Keys == (edge.Keys - left) * kube.Keys
      invariant forall k :: k in create ==> create[k] == CreateContent(pool, edge[k])
      invariant forall k :: k in update ==> update[k] == UpdateContent(kube[k], edge[k])
      decreases left
    {
      var i :| i in left;
      var ed := edge[i];
      var edName := EdgeName(ed);
      if edName !in kube {
        create := create[edName := CreateContent(pool, ed)];
      } else {
        update := update[edName := UpdateContent(kube[edName], ed)];
      }
      left := left - {i};
    }
  }

  /** Its second loop. */
  method CompareKube(edge: map<string, Device>, kube: map<string, Device>) returns (delete: map<string, Device>)
    requires Keyed(kube)
    ensures delete == map k | k in kube && kube[k].synced && k !in edge :: kube[k]
  {
    delete := map[];
    var left := kube.Keys;
    while left != {}
      invariant left <= kube.Keys
      invariant forall k :: k in delete <==> k in kube && k !in left && kube[k].synced && k !in edge
      invariant forall k :: k in delete ==> delete[k] == kube[k]
      decreases left
    {
      var i :| i in left;
      var kd := kube[i];
      left := left - {i};
      if !kd.synced {
        continue;
      }
      var kdName := EdgeName(kd);
      if kdName !in edge {
        delete := delete[kdName := kd];
      }
    }
  }

  /** findDiffDevice: the three sets are disjoint, and between them and the unsynced objects nothing is left out. */
  method FindDiffDevice(pool: string, edge: map<string, Device>, kube: map<string, Device>) returns (d: Diff)
    requires Keyed(edge) && Keyed(kube)
    ensures d == DiffOf(pool, edge, kube)
    ensures d.create.Keys !! d.delete.Keys !! d.update.Keys
    ensures d.create.Keys + d.update.Keys == edge.Keys
    ensures forall k :: k in kube ==> k in d.delete || k in d.update || !kube[k].synced
  {
    var create, update := CompareEdge(pool, edge, kube);
    var delete := CompareKube(edge, kube);
    d := Diff(create, delete, update);
    ghost var want := DiffOf(pool, edge, kube);
    assert create == want.create && update == want.update;
  }

  // ---------- applying ----------

  /**
   * syncEdgeToKube on the devices in some order: a name that an object of this
   * pool or, as taken says, of another pool in the namespace has is skipped.
   */
  function CreateAll(kube: Kube, taken: set<string>, devs: seq<Device>): Kube
  {
    if devs == [] then kube
    else
      var before := CreateAll(kube, taken, devs[..|devs| - 1]);
      var d := devs[|devs| - 1];
      if d.name in before || d.name in taken then before else before[d.name := Stored(d)]
  }

  function DeleteAll(kube: Kube, delete: map<string, Device>): Kube
  {
    kube - (set k | k in delete :: delete[k].name)
  }

  function UpdateAll(kube: Kube, update: map<string, Device>): Kube
  {
    map n | n in kube :: if EdgeName(kube[n]) in update then update[EdgeName(kube[n])] else kube[n]
  }

  function InOrder(m: map<string, Device>, order: seq<string>): seq<Device>
    requires forall i :: 0 <= i < |order| ==> order[i] in m
  {
    seq(|order|, i requires 0 <= i < |order| => m[order[i]])
  }

  /** OpenYurt's objects by edge name. */
  function Indexed(kube: Kube): map<string, Device>
    requires WellNamed(kube)
  {
    map n | n in kube :: EdgeName(kube[n]) := kube[n]
  }

  /** A whole failure-free round: creations in the given order, then deletions, then updates. */
  function Apply(kube: Kube, taken: set<string>, d: Diff, order: seq<string>): Kube
    requires Enumerates(order, d.create.Keys)
  {
    UpdateAll(DeleteAll(CreateAll(kube, taken, InOrder(d.create, order)), d.delete), d.update)
  }

  function DiffAgainst(kube: Kube, pool: string, edge: map<string, Device>): Diff
    requires WellNamed(kube)
  {
    DiffOf(pool, edge, Indexed(kube))
  }

  /** No new object name is taken, by an object of this or another pool or by another new one. */
  predicate NamesFree(kube: Kube, taken: set<string>, create: map<string, Device>)
  {
    && (forall k :: k in create ==> create[k].name !in kube && create[k].name !in taken)
    && (forall j, k :: j in create && k in create && j != k ==> create[j].name != create[k].name)
  }

  /** What a round should leave: the edge platform's devices and those not synced yet. */
  function Target(kube: Kube, edge: map<string, Device>): set<string>
  {
    edge.Keys + set n | n in kube && !kube[n].synced :: EdgeName(kube[n])
  }

  // ---------- creating ----------

  lemma {:induction false} CreateAllKeeps(kube: Kube, taken: set<string>, devs: seq<Device>)
    ensures forall n :: n in kube ==> n in CreateAll(kube, taken, devs) && CreateAll(kube, taken, devs)[n] == kube[n]
    ensures forall n :: n in CreateAll(kube, taken, devs) && n !in kube ==>
              exists i :: 0 <= i < |devs| && devs[i].name == n && CreateAll(kube, taken, devs)[n] == Stored(devs[i])
    ensures forall n :: n in CreateAll(kube, taken, devs) && n !in kube ==> n !in taken
  {
    if devs != [] {
      var m := |devs| - 1;
      CreateAllKeeps(kube, taken, devs[..m]);
      var after := CreateAll(kube, taken, devs);
      forall n | n in after && n !in kube
        ensures exists i :: 0 <= i < |devs| && devs[i].name == n && after[n] == Stored(devs[i])
      {
        if n in CreateAll(kube, taken, devs[..m]) {
          var i :| 0 <= i < m && devs[..m][i].name == n && CreateAll(kube, taken, devs[..m])[n] == Stored(devs[..m][i]);
          assert devs[i].name == n && after[n] == Stored(devs[i]);
        } else {
          assert devs[m].name == n && after[n] == Stored(devs[m]);
        }
      }
    }
  }

  predicate DistinctNames(devs: seq<Device>)
  {
    forall i, j :: 0 <= i < j < |devs| ==> devs[i].name != devs[j].name
  }

  lemma {:induction false} CreateAllAdds(kube: Kube, taken: set<string>, devs: seq<Device>, i: nat)
    requires DistinctNames(devs) && i < |devs| && devs[i].name !in kube && devs[i].name !in taken
    ensures devs[i].name in CreateAll(kube, taken, devs)
    ensures CreateAll(kube, taken, devs)[devs[i].name] == Stored(devs[i])
  {
    var m := |devs| - 1;
    if i < m {
      CreateAllAdds(kube, taken, devs[..m], i);
      assert devs[..m][i] == devs[i];
    } else {
      CreateAllKeeps(kube, taken, devs[..m]);
    }
  }

  predicate Labelled(m: map<string, Device>)
  {
    forall k :: k in m ==> m[k].edgeLabel.Some?
  }

  lemma CreatedAreKeyed(pool: string, edge: map<string, Device>, kube: map<string, Device>)
    requires Keyed(edge) && Labelled(edge)
    ensures Keyed(DiffOf(pool, edge, kube).create)
  {
  }

  lemma IndexedKeys(kube: Kube)
    requires WellNamed(kube)
    ensures Indexed(kube).Keys == EdgeNames(kube) && Keyed(Indexed(kube))
    ensures forall n :: n in kube ==> Indexed(kube)[EdgeName(kube[n])] == kube[n]
  {
  }

  lemma CreateAllFrom(kube: Kube, taken: set<string>, create: map<string, Device>, order: seq<string>, n: string)
    requires Keyed(create) && Enumerates(order, create.Keys)
    requires n in CreateAll(kube, taken, InOrder(create, order)) && n !in kube
    ensures var d := CreateAll(kube, taken, InOrder(create, order))[n];
            d.name == n && EdgeName(d) in create && d == Stored(create[EdgeName(d)])
  {
    var devs := InOrder(create, order);
    CreateAllKeeps(kube, taken, devs);
    var i :| 0 <= i < |devs| && devs[i].name == n && CreateAll(kube, taken, devs)[n] == Stored(devs[i]);
    assert order[i] in create.Keys;
  }

  /** Creations keep every edge name there was and add none but the new ones. */
  lemma CreatedNamesWithin(kube: Kube, taken: set<string>, create: map<string, Device>, order: seq<string>)
    requires WellNamed(kube) && Keyed(create) && Enumerates(order, create.Keys)
    ensures var after := CreateAll(kube, taken, InOrder(create, order));
            EdgeNames(kube) <= EdgeNames(after) <= EdgeNames(kube) + create.Keys
  {
    var after := CreateAll(kube, taken, InOrder(create, order));
    CreateAllKeeps(kube, taken, InOrder(create, order));
    forall n | n in kube ensures EdgeName(kube[n]) in EdgeNames(after)
    {
      assert after[n] == kube[n];
    }
    forall n | n in after ensures EdgeName(after[n]) in EdgeNames(kube) + create.Keys
    {
      if n !in kube { CreateAllFrom(kube, taken, create, order, n); }
    }
  }

  lemma FreeNamesAreCreated(kube: Kube, taken: set<string>, create: map<string, Device>, order: seq<string>, k: string)
    requires Keyed(create) && Enumerates(order, create.Keys) && NamesFree(kube, taken, create) && k in create
    ensures k in EdgeNames(CreateAll(kube, taken, InOrder(create, order)))
  {
    var devs := InOrder(create, order);
    forall i, j | 0 <= i < j < |devs| ensures devs[i].name != devs[j].name
    {
      assert order[i] in create && order[j] in create;
    }
    assert k in create.Keys;
    var i :| 0 <= i < |order| && order[i] == k;
    CreateAllAdds(kube, taken, devs, i);
  }

  lemma CreatedWellNamed(kube: Kube, taken: set<string>, create: map<string, Device>, order: seq<string>)
    requires WellNamed(kube) && Keyed(create) && Enumerates(order, create.Keys) && create.Keys !! EdgeNames(kube)
    ensures WellNamed(CreateAll(kube, taken, InOrder(create, order)))
  {
    var after := CreateAll(kube, taken, InOrder(create, order));
    CreateAllKeeps(kube, taken, InOrder(create, order));
    forall n | n in after && n !in kube
      ensures after[n].name == n && EdgeName(after[n]) in create && after[n] == Stored(create[EdgeName(after[n])])
    {
      CreateAllFrom(kube, taken, create, order, n);
    }
    forall m, n | m in after && n in after && m != n ensures EdgeName(after[m]) != EdgeName(after[n])
    {
      if m in kube && n !in kube {
        assert EdgeName(after[m]) in EdgeNames(kube);
      } else if m !in kube && n in kube {
        assert EdgeName(after[n]) in EdgeNames(kube);
      }
    }
  }

  /** A new edge name whose object name is taken, by an object or by a sibling, does not get created. */
  lemma TakenNameIsMissing(kube: Kube, taken: set<string>, create: map<string, Device>, order: seq<string>)
    requires WellNamed(kube) && Keyed(create) && Enumerates(order, create.Keys) && create.Keys !! EdgeNames(kube)
    requires !NamesFree(kube, taken, create)
    ensures exists k :: k in create && k !in EdgeNames(CreateAll(kube, taken, InOrder(create, order)))
  {
    var after := CreateAll(kube, taken, InOrder(create, order));
    CreateAllKeeps(kube, taken, InOrder(create, order));
    if k :| k in create && (create[k].name in kube || create[k].name in taken) {
      forall n | n in after ensures EdgeName(after[n]) != k
      {
        if n in kube {
          assert EdgeName(after[n]) in EdgeNames(kube);
        } else {
          CreateAllFrom(kube, taken, create, order, n);
        }
      }
      assert k !in EdgeNames(after);
    } else {
      var j, k :| j in create && k in create && j != k && create[j].name == create[k].name;
      if j in EdgeNames(after) && k in EdgeNames(after) {
        var m :| m in after && EdgeName(after[m]) == j;
        var n :| n in after && EdgeName(after[n]) == k;
        NewNameComesFrom(kube, taken, create, order, m, j);
        NewNameComesFrom(kube, taken, create, order, n, k);
      }
    }
  }

  lemma NewNameComesFrom(kube: Kube, taken: set<string>, create: map<string, Device>, order: seq<string>, n: string,
      k: string)
    requires WellNamed(kube) && Keyed(create) && Enumerates(order, create.Keys) && create.Keys !! EdgeNames(kube)
    requires n in CreateAll(kube, taken, InOrder(create, order)) &&
             EdgeName(CreateAll(kube, taken, InOrder(create, order))[n]) == k && k in create
    ensures n == create[k].name
  {
    CreateAllKeeps(kube, taken, InOrder(create, order));
    if n !in kube {
      CreateAllFrom(kube, taken, create, order, n);
    }
  }

  // ---------- deleting and updating ----------

  /** Deleting removes the redundant edge names and no other. */
  lemma DeletedNames(kube: Kube, delete: map<string, Device>)
    requires WellNamed(kube) && forall k :: k in delete ==>
             delete[k].name in kube && kube[delete[k].name] == delete[k] && EdgeName(delete[k]) == k
    ensures EdgeNames(DeleteAll(kube, delete)) == EdgeNames(kube) - delete.Keys
    ensures WellNamed(DeleteAll(kube, delete))
  {
    var after := DeleteAll(kube, delete);
    forall n | n in kube ensures n in after <==> EdgeName(kube[n]) !in delete
    {
      if EdgeName(kube[n]) in delete {
        var d := delete[EdgeName(kube[n])];
        assert d.name == n;
      }
    }
    forall x | x in EdgeNames(kube) - delete.Keys ensures x in EdgeNames(after)
    {
      var n :| n in kube && EdgeName(kube[n]) == x;
      assert n in after && after[n] == kube[n];
    }
  }

  lemma UpdatedNames(kube: Kube, update: map<string, Device>)
    requires WellNamed(kube)
    requires forall n :: n in kube && EdgeName(kube[n]) in update ==>
               update[EdgeName(kube[n])].name == n && EdgeName(update[EdgeName(kube[n])]) == EdgeName(kube[n])
               && update[EdgeName(kube[n])].synced == kube[n].synced
    ensures EdgeNames(UpdateAll(kube, update)) == EdgeNames(kube) && WellNamed(UpdateAll(kube, update))
    ensures forall n :: n in kube ==> UpdateAll(kube, update)[n].synced == kube[n].synced
  {
    var after := UpdateAll(kube, update);
    forall n | n in kube ensures EdgeName(after[n]) == EdgeName(kube[n]) {}
    forall x | x in EdgeNames(kube) ensures x in EdgeNames(after)
    {
      var n :| n in kube && EdgeName(kube[n]) == x;
      assert n in after;
    }
  }

  // ---------- a whole round ----------

  /** d says, object by object, what separates OpenYurt from the edge. */
  ghost predicate Separates(d: Diff, kube: Kube, edge: map<string, Device>)
  {
    && Keyed(d.create) && d.create.Keys == edge.Keys - EdgeNames(kube)
    && d.delete.Keys <= EdgeNames(kube) && d.update.Keys <= EdgeNames(kube)
    && (forall n :: n in kube ==> Placed(d, kube[n], edge))
  }

  /** One object: to be deleted as it is, to be updated in place, or let alone. */
  ghost predicate Placed(d: Diff, k: Device, edge: map<string, Device>)
  {
    var x := EdgeName(k);
    && (x in d.delete <==> k.synced && x !in edge)
    && (x in d.delete ==> d.delete[x] == k)
    && (x in d.update <==> x in edge)
    && (x in d.update ==> d.update[x] == k.(status := d.update[x].status))
  }

  lemma DiffPlaces(pool: string, edge: map<string, Device>, indexed: map<string, Device>, k: Device)
    requires EdgeName(k) in indexed && indexed[EdgeName(k)] == k
    ensures Placed(DiffOf(pool, edge, indexed), k, edge)
  {
  }

  lemma DiffKeys(pool: string, edge: map<string, Device>, indexed: map<string, Device>)
    ensures var d := DiffOf(pool, edge, indexed);
            && d.create.Keys == edge.Keys - indexed.Keys && d.update.Keys == edge.Keys * indexed.Keys
            && d.delete.Keys <= indexed.Keys
  {
  }

  lemma DiffSeparates(kube: Kube, pool: string, edge: map<string, Device>)
    requires WellNamed(kube) && Keyed(edge) && Labelled(edge)
    ensures Separates(DiffAgainst(kube, pool, edge), kube, edge)
  {
    IndexedKeys(kube);
    CreatedAreKeyed(pool, edge, Indexed(kube));
    DiffKeys(pool, edge, Indexed(kube));
    forall n | n in kube ensures Placed(DiffAgainst(kube, pool, edge), kube[n], edge)
    {
      DiffPlaces(pool, edge, Indexed(kube), kube[n]);
    }
  }

  lemma DeletesWhatItFinds(kube: Kube, edge: map<string, Device>, d: Diff, after: Kube)
    requires WellNamed(kube) && Separates(d, kube, edge)
    requires forall n :: n in kube ==> n in after && after[n] == kube[n]
    ensures forall k :: k in d.delete ==>
              d.delete[k].name in after && after[d.delete[k].name] == d.delete[k] && EdgeName(d.delete[k]) == k
  {
    forall k | k in d.delete
      ensures d.delete[k].name in after && after[d.delete[k].name] == d.delete[k] && EdgeName(d.delete[k]) == k
    {
      assert k in EdgeNames(kube);
      var n :| n in kube && EdgeName(kube[n]) == k;
      assert Placed(d, kube[n], edge);
    }
  }

  function Trimmed(kube: Kube, taken: set<string>, d: Diff, order: seq<string>): Kube
    requires Enumerates(order, d.create.Keys)
  {
    DeleteAll(CreateAll(kube, taken, InOrder(d.create, order)), d.delete)
  }

  /** Old objects are old objects still. */
  ghost predicate KeepsOld(kube: Kube, after: Kube)
  {
    forall n :: n in after && EdgeName(after[n]) in EdgeNames(kube) ==> n in kube && after[n] == kube[n]
  }

  lemma CreateKeepsOld(kube: Kube, taken: set<string>, create: map<string, Device>, order: seq<string>)
    requires Keyed(create) && Enumerates(order, create.Keys) && create.Keys !! EdgeNames(kube)
    ensures KeepsOld(kube, CreateAll(kube, taken, InOrder(create, order)))
  {
    var after := CreateAll(kube, taken, InOrder(create, order));
    CreateAllKeeps(kube, taken, InOrder(create, order));
    forall n | n in after && EdgeName(after[n]) in EdgeNames(kube) ensures n in kube && after[n] == kube[n]
    {
      if n !in kube { CreateAllFrom(kube, taken, create, order, n); }
    }
  }

  lemma TrimmedFacts(kube: Kube, taken: set<string>, edge: map<string, Device>, d: Diff, order: seq<string>)
    requires WellNamed(kube) && Separates(d, kube, edge) && Enumerates(order, d.create.Keys)
    ensures WellNamed(Trimmed(kube, taken, d, order)) && KeepsOld(kube, Trimmed(kube, taken, d, order))
    ensures EdgeNames(Trimmed(kube, taken, d, order)) ==
            EdgeNames(CreateAll(kube, taken, InOrder(d.create, order))) - d.delete.Keys
  {
    var after := CreateAll(kube, taken, InOrder(d.create, order));
    CreatedWellNamed(kube, taken, d.create, order);
    CreateAllKeeps(kube, taken, InOrder(d.create, order));
    CreateKeepsOld(kube, taken, d.create, order);
    DeletesWhatItFinds(kube, edge, d, after);
    DeletedNames(after, d.delete);
  }

  lemma ApplyFacts(kube: Kube, taken: set<string>, edge: map<string, Device>, d: Diff, order: seq<string>)
    requires WellNamed(kube) && Separates(d, kube, edge) && Enumerates(order, d.create.Keys)
    ensures var t, r := Trimmed(kube, taken, d, order), Apply(kube, taken, d, order);
            && WellNamed(r) && r.Keys == t.Keys && EdgeNames(r) == EdgeNames(t)
            && (forall n :: n in t ==> EdgeName(r[n]) == EdgeName(t[n]) && r[n].synced == t[n].synced)
  {
    TrimmedFacts(kube, taken, edge, d, order);
    var t := Trimmed(kube, taken, d, order);
    forall n | n in t && EdgeName(t[n]) in d.update
      ensures var u := d.update[EdgeName(t[n])]; u.name == n && EdgeName(u) == EdgeName(t[n]) && u.synced == t[n].synced
    {
      assert EdgeName(t[n]) in EdgeNames(kube);
      assert Placed(d, kube[n], edge);
    }
    UpdatedNames(t, d.update);
  }

  lemma TargetIsCreatedMinusDeleted(kube: Kube, edge: map<string, Device>, d: Diff)
    requires WellNamed(kube) && Separates(d, kube, edge)
    ensures EdgeNames(kube) + d.create.Keys - d.delete.Keys == Target(kube, edge)
  {
    var made := EdgeNames(kube) + d.create.Keys - d.delete.Keys;
    forall x | x in EdgeNames(kube) ensures x in made <==> x in Target(kube, edge)
    {
      var n :| n in kube && EdgeName(kube[n]) == x;
      assert Placed(d, kube[n], edge);
    }
    forall x | x in Target(kube, edge) && x !in edge ensures x in EdgeNames(kube) {}
  }

  lemma AppliedReachesTargetIff(kube: Kube, taken: set<string>, edge: map<string, Device>, d: Diff, order: seq<string>)
    requires WellNamed(kube) && Separates(d, kube, edge) && Enumerates(order, d.create.Keys)
    ensures EdgeNames(Apply(kube, taken, d, order)) == Target(kube, edge) <==> NamesFree(kube, taken, d.create)
  {
    var after := CreateAll(kube, taken, InOrder(d.create, order));
    ApplyFacts(kube, taken, edge, d, order);
    TrimmedFacts(kube, taken, edge, d, order);
    TargetIsCreatedMinusDeleted(kube, edge, d);
    CreatedNamesWithin(kube, taken, d.create, order);
    if NamesFree(kube, taken, d.create) {
      forall k | k in d.create ensures k in EdgeNames(after)
      {
        FreeNamesAreCreated(kube, taken, d.create, order, k);
      }
      assert EdgeNames(after) == EdgeNames(kube) + d.create.Keys;
    } else {
      TakenNameIsMissing(kube, taken, d.create, order);
      var k :| k in d.create && k !in EdgeNames(after);
      assert k in edge.Keys;
    }
  }

  /**
   * A failure-free round leaves OpenYurt with exactly the edge platform's
   * devices and the unsynced ones if and only if every object name it needs
   * for a new device is free in the namespace, other pools' names included.
   */
  lemma RoundReachesTargetIff(kube: Kube, taken: set<string>, pool: string, edge: map<string, Device>,
      order: seq<string>)
    requires WellNamed(kube) && Keyed(edge) && Labelled(edge)
    requires Enumerates(order, DiffAgainst(kube, pool, edge).create.Keys)
    ensures EdgeNames(Apply(kube, taken, DiffAgainst(kube, pool, edge), order)) == Target(kube, edge) <==>
            NamesFree(kube, taken, DiffAgainst(kube, pool, edge).create)
  {
    DiffSeparates(kube, pool, edge);
    AppliedReachesTargetIff(kube, taken, edge, DiffAgainst(kube, pool, edge), order);
  }

  /**
   * What a round makes of an object that was there: gone if it is synced and
   * the edge platform has it no more, with the edge's status if it has, else
   * as it was.
   */
  lemma OldObjectAfterRound(kube: Kube, taken: set<string>, pool: string, edge: map<string, Device>, order: seq<string>,
      n: string)
    requires WellNamed(kube) && Keyed(edge) && Labelled(edge) && n in kube
    requires Enumerates(order, DiffAgainst(kube, pool, edge).create.Keys)
    ensures var r := Apply(kube, taken, DiffAgainst(kube, pool, edge), order);
            var k := EdgeName(kube[n]);
            && (n in r <==> k in edge || !kube[n].synced)
            && (n in r ==> r[n] == if k in edge then kube[n].(status := edge[k].status) else kube[n])
  {
    var d := DiffAgainst(kube, pool, edge);
    DiffSeparates(kube, pool, edge);
    IndexedKeys(kube);
    var after := CreateAll(kube, taken, InOrder(d.create, order));
    CreateAllKeeps(kube, taken, InOrder(d.create, order));
    DeletesWhatItFinds(kube, edge, d, after);
    assert Placed(d, kube[n], edge);
    assert n in Trimmed(kube, taken, d, order) <==> EdgeName(kube[n]) !in d.delete;
  }

  /**
   * And what is new stands for a device of the edge that had no object, in this
   * pool, not managed and without status.
   */
  lemma NewObjectAfterRound(kube: Kube, taken: set<string>, pool: string, edge: map<string, Device>, order: seq<string>,
      n: string)
      returns (k: string)
    requires WellNamed(kube) && Keyed(edge) && Labelled(edge)
    requires Enumerates(order, DiffAgainst(kube, pool, edge).create.Keys)
    requires n in Apply(kube, taken, DiffAgainst(kube, pool, edge), order) && n !in kube
    ensures var r := Apply(kube, taken, DiffAgainst(kube, pool, edge), order);
            && k in edge && k !in EdgeNames(kube) && n == pool + "-" + edge[k].name && EdgeName(r[n]) == k
            && r[n] == Device(n, edge[k].edgeLabel, false, false, pool, "")
  {
    var d := DiffAgainst(kube, pool, edge);
    DiffSeparates(kube, pool, edge);
    CreateAllFrom(kube, taken, d.create, order, n);
    var made := CreateAll(kube, taken, InOrder(d.create, order))[n];
    k := EdgeName(made);
    assert k in d.create && k !in d.update;
  }

  lemma OldNamesAreOldObjects(kube: Kube, taken: set<string>, pool: string, edge: map<string, Device>,
      order: seq<string>, n: string)
    requires WellNamed(kube) && Keyed(edge) && Labelled(edge) && n in kube
    requires Enumerates(order, DiffAgainst(kube, pool, edge).create.Keys)
    requires n in Apply(kube, taken, DiffAgainst(kube, pool, edge), order)
    ensures EdgeName(Apply(kube, taken, DiffAgainst(kube, pool, edge), order)[n]) in EdgeNames(kube)
  {
    OldObjectAfterRound(kube, taken, pool, edge, order, n);
    assert EdgeName(kube[n]) in EdgeNames(kube);
  }

  /** With all names free, every such device has its object. */
  lemma NewDevicesHaveObjects(
      kube: Kube, taken: set<string>, pool: string, edge: map<string, Device>, order: seq<string>, k: string, r: Kube)
    requires WellNamed(kube) && Keyed(edge) && Labelled(edge) && k in edge && k !in EdgeNames(kube)
    requires Enumerates(order, DiffAgainst(kube, pool, edge).create.Keys)
    requires r == Apply(kube, taken, DiffAgainst(kube, pool, edge), order) && EdgeNames(r) == Target(kube, edge)
    ensures var n := pool + "-" + edge[k].name;
            n in r && r[n] == Device(n, edge[k].edgeLabel, false, false, pool, "")
  {
    assert k in Target(kube, edge);
    var n :| n in r && EdgeName(r[n]) == k;
    if n in kube {
      OldNamesAreOldObjects(kube, taken, pool, edge, order, n);
    } else {
      var j := NewObjectAfterRound(kube, taken, pool, edge, order, n);
    }
  }

  /**
   * A new object is not marked synced, so until another controller has done
   * that no round deletes it, even if the edge platform has lost the device.
   */
  lemma NewObjectIsNotDeleted(
      kube: Kube, taken: set<string>, pool: string, edge: map<string, Device>, order: seq<string>, n: string, r: Kube,
      edge2: map<string, Device>, order2: seq<string>)
    requires WellNamed(kube) && Keyed(edge) && Labelled(edge)
    requires Enumerates(order, DiffAgainst(kube, pool, edge).create.Keys)
    requires r == Apply(kube, taken, DiffAgainst(kube, pool, edge), order) && n in r && n !in kube && WellNamed(r)
    requires Keyed(edge2) && Labelled(edge2) && Enumerates(order2, DiffAgainst(r, pool, edge2).create.Keys)
    ensures var r2 := Apply(r, taken, DiffAgainst(r, pool, edge2), order2);
            n in r2 && !r2[n].synced && EdgeName(r2[n]) == EdgeName(r[n])
  {
    var k := NewObjectAfterRound(kube, taken, pool, edge, order, n);
    OldObjectAfterRound(r, taken, pool, edge2, order2, n);
  }

  lemma RoundKeepsWellNamed(kube: Kube, taken: set<string>, pool: string, edge: map<string, Device>, order: seq<string>)
    requires WellNamed(kube) && Keyed(edge) && Labelled(edge)
    requires Enumerates(order, DiffAgainst(kube, pool, edge).create.Keys)
    ensures WellNamed(Apply(kube, taken, DiffAgainst(kube, pool, edge), order))
  {
    DiffSeparates(kube, pool, edge);
    ApplyFacts(kube, taken, edge, DiffAgainst(kube, pool, edge), order);
  }

  /** Two pools can need one name: a device "b-c" of pool "a" and a device "c" of pool "a-b". */
  lemma PoolsShareNames(a: string, b: string, c: Device, d: Device)
    requires c.name == b + "-" + d.name
    ensures CreateContent(a, c).name == CreateContent(a + "-" + b, d).name
  {
    assert a + "-" + (b + "-" + d.name) == a + "-" + b + "-" + d.name;
  }

  /** Then the second pool's device is missing for as long as the first pool has its own. */
  lemma OtherPoolsNameIsMissing(kube: Kube, taken: set<string>, pool: string, edge: map<string, Device>,
      order: seq<string>, k: string)
    requires WellNamed(kube) && Keyed(edge) && Labelled(edge)
    requires Enumerates(order, DiffAgainst(kube, pool, edge).create.Keys)
    requires k in DiffAgainst(kube, pool, edge).create && DiffAgainst(kube, pool, edge).create[k].name in taken
    ensures EdgeNames(Apply(kube, taken, DiffAgainst(kube, pool, edge), order)) != Target(kube, edge)
  {
    RoundReachesTargetIff(kube, taken, pool, edge, order);
  }

  lemma LeftoversAreUnsynced(kube: Kube, taken: set<string>, edge: map<string, Device>, d: Diff, order: seq<string>,
      n: string)
    requires WellNamed(kube) && Separates(d, kube, edge) && Enumerates(order, d.create.Keys)
    requires EdgeNames(Apply(kube, taken, d, order)) == Target(kube, edge)
    requires n in Apply(kube, taken, d, order) && EdgeName(Apply(kube, taken, d, order)[n]) !in edge
    ensures !Apply(kube, taken, d, order)[n].synced
  {
    ApplyFacts(kube, taken, edge, d, order);
    TrimmedFacts(kube, taken, edge, d, order);
    var r, t := Apply(kube, taken, d, order), Trimmed(kube, taken, d, order);
    var k := EdgeName(r[n]);
    assert k in EdgeNames(r);
    var m :| m in kube && !kube[m].synced && EdgeName(kube[m]) == k;
    assert EdgeName(t[n]) in EdgeNames(kube);
    assert t[n] == kube[n] && m == n;
  }

  lemma NothingToDo(pool: string, edge: map<string, Device>, indexed: map<string, Device>)
    requires edge.Keys <= indexed.Keys && forall k :: k in indexed && k !in edge ==> !indexed[k].synced
    ensures var d := DiffOf(pool, edge, indexed);
            d.create.Keys == {} && d.delete.Keys == {} && d.update.Keys == edge.Keys
  {
    DiffKeys(pool, edge, indexed);
  }

  lemma IndexedUnsynced(kube: Kube, edge: map<string, Device>)
    requires WellNamed(kube) && edge.Keys <= EdgeNames(kube)
    requires forall n :: n in kube && EdgeName(kube[n]) !in edge ==> !kube[n].synced
    ensures edge.Keys <= Indexed(kube).Keys && forall k :: k in Indexed(kube) && k !in edge ==> !Indexed(kube)[k].synced
  {
    IndexedKeys(kube);
    forall k | k in Indexed(kube) && k !in edge ensures !Indexed(kube)[k].synced
    {
      assert k in EdgeNames(kube);
    }
  }

  /** The round after a successful one creates nothing and deletes nothing. */
  lemma NextRoundIsIdle(kube: Kube, taken: set<string>, pool: string, edge: map<string, Device>, order: seq<string>)
    requires WellNamed(kube) && Keyed(edge) && Labelled(edge)
    requires Enumerates(order, DiffAgainst(kube, pool, edge).create.Keys)
    requires NamesFree(kube, taken, DiffAgainst(kube, pool, edge).create)
    ensures var r := Apply(kube, taken, DiffAgainst(kube, pool, edge), order);
            && WellNamed(r)
            && DiffAgainst(r, pool, edge).create.Keys == {} && DiffAgainst(r, pool, edge).delete.Keys == {}
            && DiffAgainst(r, pool, edge).update.Keys == edge.Keys
  {
    var d := DiffAgainst(kube, pool, edge);
    DiffSeparates(kube, pool, edge);
    AppliedReachesTargetIff(kube, taken, edge, d, order);
    ApplyFacts(kube, taken, edge, d, order);
    var r := Apply(kube, taken, d, order);
    forall n | n in r && EdgeName(r[n]) !in edge ensures !r[n].synced
    {
      LeftoversAreUnsynced(kube, taken, edge, d, order, n);
    }
    assert edge.Keys <= Target(kube, edge);
    IndexedUnsynced(r, edge);
    NothingToDo(pool, edge, Indexed(r));
  }

  // ---------- the object ----------

  /** An object when the updates in left are still to come. */
  function Updated(d: Device, update: map<string, Device>, left: set<string>): Device
  {
    if EdgeName(d) in update && EdgeName(d) !in left then update[EdgeName(d)] else d
  }

  predicate HaveObjects(kube: Kube, update: map<string, Device>)
  {
    forall k :: k in update ==> update[k].name in kube && EdgeName(kube[update[k].name]) == k
  }

  ghost predicate Progress(before: Kube, kube: Kube, update: map<string, Device>, left: set<string>)
  {
    kube.Keys == before.Keys && forall n :: n in before ==> kube[n] == Updated(before[n], update, left)
  }

  lemma UpdateOneMore(before: Kube, kube: Kube, update: map<string, Device>, left: set<string>, k: string)
    requires WellNamed(before) && HaveObjects(before, update) && Progress(before, kube, update, left) && k in update
    ensures Progress(before, kube[update[k].name := update[k]], update, left - {k})
  {
    var name := update[k].name;
    forall n | n in before ensures kube[name := update[k]][n] == Updated(before[n], update, left - {k})
    {
      if n != name { assert EdgeName(before[n]) != k; }
    }
  }

  lemma UpdatesDone(before: Kube, kube: Kube, update: map<string, Device>)
    requires Progress(before, kube, update, {})
    ensures kube == UpdateAll(before, update)
  {
  }

  lemma CreateOneMore(kube: Kube, taken: set<string>, create: map<string, Device>, order: seq<string>, k: string)
    requires k in create && forall i :: 0 <= i < |order| ==> order[i] in create
    ensures CreateAll(kube, taken, InOrder(create, order + [k])) ==
            var before := CreateAll(kube, taken, InOrder(create, order));
            if create[k].name in before ||
              create[k].name in taken then before else before[create[k].name := Stored(create[k])]
  {
    assert InOrder(create, order + [k])[..|order|] == InOrder(create, order);
  }

  class DeviceSyncer {
    var kube: Kube                // the objects of this pool
    const taken: set<string>      // the names of the other pools' objects in the namespace
    const pool: string

    constructor (k: Kube, others: set<string>, nodePool: string)
      ensures kube == k && taken == others && pool == nodePool
    {
      kube, taken, pool := k, others, nodePool;
    }

    method SyncEdgeToKube(create: map<string, Device>) returns (ghost order: seq<string>)
      modifies this
      ensures Enumerates(order, create.Keys) && kube == CreateAll(old(kube), taken, InOrder(create, order))
    {
      var left := create.Keys;
      order := [];
      while left != {}
        invariant left <= create.Keys
        invariant forall i :: 0 <= i < |order| ==> order[i] in create.Keys && order[i] !in left
        invariant forall k :: k in create.Keys && k !in left ==> k in order
        invariant forall i, j :: 0 <= i < j < |order| ==> order[i] != order[j]
        invariant kube == CreateAll(old(kube), taken, InOrder(create, order))
        decreases left
      {
        var k :| k in left;
        CreateOneMore(old(kube), taken, create, order, k);
        if create[k].name !in kube && create[k].name !in taken {
          kube := kube[create[k].name := Stored(create[k])];
        }
        order := order + [k];
        left := left - {k};
      }
    }

    method DeleteDevices(delete: map<string, Device>)
      modifies this
      ensures kube == DeleteAll(old(kube), delete)
    {
      var left := delete.Keys;
      while left != {}
        invariant left <= delete.Keys
        invariant kube == old(kube) - (set k | k in delete && k !in left :: delete[k].name)
        decreases left
      {
        var k :| k in left;
        assert (set j | j in delete && j !in left - {k} :: delete[j].name) ==
               (set j | j in delete && j !in left :: delete[j].name) + {delete[k].name};
        kube := kube - {delete[k].name};
        left := left - {k};
      }
      assert (set k | k in delete && k !in left :: delete[k].name) == set k | k in delete :: delete[k].name;
    }

    /** Status updates go to the objects the updates were computed from. */
    method UpdateDevices(update: map<string, Device>)
      requires WellNamed(kube) && HaveObjects(kube, update)
      modifies this
      ensures kube == UpdateAll(old(kube), update)
    {
      ghost var before := kube;
      var left := update.Keys;
      while left != {}
        invariant left <= update.Keys && Progress(before, kube, update, left)
        decreases left
      {
        var k :| k in left;
        UpdateOneMore(before, kube, update, left, k);
        kube := kube[update[k].name := update[k]];
        left := left - {k};
      }
      UpdatesDone(before, kube, update);
    }

    /** One turn of Run, nothing failing. */
    method SyncOnce(edgeDevices: map<string, Device>, kubeDevices: map<string, Device>)
        returns (ghost order: seq<string>)
      requires WellNamed(kube) && kubeDevices == Indexed(kube) && Keyed(edgeDevices) && Labelled(edgeDevices)
      modifies this
      ensures Enumerates(order, DiffAgainst(old(kube), pool, edgeDevices).create.Keys)
      ensures kube == Apply(old(kube), taken, DiffAgainst(old(kube), pool, edgeDevices), order)
    {
      IndexedKeys(kube);
      var d := FindDiffDevice(pool, edgeDevices, kubeDevices);
      ghost var before := kube;
      DiffSeparates(kube, pool, edgeDevices);
      order := SyncEdgeToKube(d.create);
      DeleteDevices(d.delete);
      TrimmedFacts(before, taken, edgeDevices, d, order);
      UpdatesHaveObjects(before, taken, edgeDevices, d, order);
      UpdateDevices(d.update);
    }
  }

  lemma UpdatesHaveObjects(kube: Kube, taken: set<string>, edge: map<string, Device>, d: Diff, order: seq<string>)
    requires WellNamed(kube) && Separates(d, kube, edge) && Enumerates(order, d.create.Keys)
    ensures var t := Trimmed(kube, taken, d, order);
            HaveObjects(t, d.update)
  {
    var t := Trimmed(kube, taken, d, order);
    TrimmedFacts(kube, taken, edge, d, order);
    CreatedNamesWithin(kube, taken, d.create, order);
    forall k | k in d.update ensures d.update[k].name in t && EdgeName(t[d.update[k].name]) == k
    {
      assert k in EdgeNames(kube);
      var n :| n in kube && EdgeName(kube[n]) == k;
      assert Placed(d, kube[n], edge);
      assert k in EdgeNames(t);
      var m :| m in t && EdgeName(t[m]) == k;
      assert m in kube && t[m] == kube[m] && m == n;
    }
  }
}
