/**
 * YurtAppSet between its API versions: v1beta1 names node pools and lists
 * tweaks, v1alpha1 has one topology entry per pool with its own replica count.
 */
module AppSetConversion {
  import opened Collections

  const NodePoolLabel := "apps.openyurt.io/nodepool"

  /** A workload template: the replica count it sets, if any, and the rest. */
  datatype Template = Template(replicas: Option<int>, body: string)

  datatype Tweak = Tweak(pools: seq<string>, replicas: Option<int>)

  datatype Beta = Beta(deployment: Option<Template>, statefulSet: Option<Template>, pools: seq<string>,
    tweaks: seq<Tweak>)

  datatype Operator = In | NotIn | Exists | DoesNotExist | Gt | Lt

  datatype Expression = Expression(key: string, operator: Operator, values: seq<string>)

  datatype Pool = Pool(name: string, expressions: seq<Expression>, replicas: Option<int>)

  datatype Alpha = Alpha(deployment: Option<Template>, statefulSet: Option<Template>, pools: seq<Pool>)

  // ---------- what a v1beta1 object means ----------

  /** The replica count of the template in use. */
  function TemplateReplicas(b: Beta): Option<int>
  {
    if b.statefulSet.Some? then b.statefulSet.value.replicas
    else if b.deployment.Some? then b.deployment.value.replicas
    else None
  }

  /** The last listed tweak of the pool that sets replicas. */
  function LastTweak(tweaks: seq<Tweak>, pool: string): Option<int>
  {
    if tweaks == [] then None
    else
      var last := tweaks[|tweaks| - 1];
      if pool in last.pools && last.replicas.Some? then last.replicas else LastTweak(tweaks[..|tweaks| - 1], pool)
  }

  function Effective(b: Beta, pool: string): Option<int>
  {
    var tweak := LastTweak(b.tweaks, pool);
    if tweak.Some? then tweak else TemplateReplicas(b)
  }

  // ---------- from v1beta1 to v1alpha1 ----------

  function DefaultReplicas(b: Beta): int
  {
    if TemplateReplicas(b).Some? then TemplateReplicas(b).value else 0
  }

  function Topology(name: string, replicas: int): Pool
  {
    Pool(name, [Expression(NodePoolLabel, In, [name])], Some(replicas))
  }

  function PoolReplicas(b: Beta, pool: string): int
  {
    var tweak := LastTweak(b.tweaks, pool);
    if tweak.Some? then tweak.value else DefaultReplicas(b)
  }

  /** What ConvertFrom produces when the map of pools is walked in the given order. */
  function Converted(b: Beta, order: seq<string>): Alpha
  {
    Alpha(b.deployment, b.statefulSet,
      seq(|order|, i requires 0 <= i < |order| => Topology(order[i], PoolReplicas(b, order[i]))))
  }

  /** Every pool has its one entry, with the replicas of its last tweak or else the default. */
  predicate OneEntryEach(b: Beta, ps: seq<Pool>)
  {
    && (forall i :: 0 <= i < |ps| ==>
       ps[i].name in b.pools && ps[i] == Topology(ps[i].name, PoolReplicas(b, ps[i].name)))
    && (forall p :: p in b.pools ==> exists i :: 0 <= i < |ps| && ps[i].name == p)
    && (forall i, j :: 0 <= i < j < |ps| ==> ps[i].name != ps[j].name)
  }

  lemma EntriesOfPools(b: Beta, order: seq<string>)
    requires Enumerates(order, SetOf(b.pools))
    ensures OneEntryEach(b, Converted(b, order).pools)
  {
    var ps := Converted(b, order).pools;
    forall i | 0 <= i < |ps| ensures ps[i].name == order[i] && ps[i].name in b.pools
    {
      assert order[i] in SetOf(b.pools);
    }
    forall p | p in b.pools ensures exists i :: 0 <= i < |ps| && ps[i].name == p
    {
      assert p in SetOf(b.pools);
      var i :| 0 <= i < |order| && order[i] == p;
      assert ps[i].name == p;
    }
  }

  /** ConvertFrom: a map from pool to replicas, overwritten tweak by tweak, then emptied into the topology. */
  method ConvertFrom(b: Beta) returns (a: Alpha, ghost order: seq<string>)
    ensures Enumerates(order, SetOf(b.pools)) && a == Converted(b, order)
    ensures a.deployment == b.deployment && a.statefulSet == b.statefulSet && OneEntryEach(b, a.pools)
  {
    var defaultReplicas := 0;
    if b.deployment.Some? {
      defaultReplicas := if b.deployment.value.replicas.Some? then b.deployment.value.replicas.value else 0;
    }
    if b.statefulSet.Some? {
      defaultReplicas := if b.statefulSet.value.replicas.Some? then b.statefulSet.value.replicas.value else 0;
    }
    assert defaultReplicas == DefaultReplicas(b);
    var poolTweaks := DefaultTweaks(b.pools, defaultReplicas);
    for t := 0 to |b.tweaks|
      invariant poolTweaks.Keys == SetOf(b.pools)
      invariant forall p :: p in poolTweaks ==> poolTweaks[p] == PoolReplicas(b.(tweaks := b.tweaks[..t]), p)
    {
      poolTweaks := ApplyTweak(poolTweaks, b.tweaks[t]);
      assert b.tweaks[..t + 1][..t] == b.tweaks[..t];
    }
    assert b.(tweaks := b.tweaks[..|b.tweaks|]) == b;
    var pools;
    pools, order := TopologyOf(b, poolTweaks);
    EntriesOfPools(b, order);
    a := Alpha(b.deployment, b.statefulSet, pools);
  }

  /** Every pool with the default count. */
  method DefaultTweaks(pools: seq<string>, count: int) returns (poolTweaks: map<string, int>)
    ensures poolTweaks.Keys == SetOf(pools) && forall p :: p in poolTweaks ==> poolTweaks[p] == count
  {
    poolTweaks := map[];
    for i := 0 to |pools|
      invariant poolTweaks.Keys == SetOf(pools[..i])
      invariant forall p :: p in poolTweaks ==> poolTweaks[p] == count
    {
      assert pools[..i + 1] == pools[..i] + [pools[i]];
      poolTweaks := poolTweaks[pools[i] := count];
    }
    assert pools[..|pools|] == pools;
  }

  /** The map emptied into topology entries, in whatever order it yields its pools. */
  method TopologyOf(b: Beta, poolTweaks: map<string, int>) returns (pools: seq<Pool>, ghost order: seq<string>)
    requires forall p :: p in poolTweaks ==> poolTweaks[p] == PoolReplicas(b, p)
    ensures Enumerates(order, poolTweaks.Keys) && pools == Converted(b, order).pools
  {
    var left := poolTweaks.Keys;
    pools, order := [], [];
    while left != {}
      invariant left <= poolTweaks.Keys
      invariant forall i :: 0 <= i < |order| ==> order[i] in poolTweaks && order[i] !in left
      invariant forall n :: n in poolTweaks && n !in left ==> n in order
      invariant forall i, j :: 0 <= i < j < |order| ==> order[i] != order[j]
      invariant pools == Converted(b, order).pools
      decreases left
    {
      var n :| n in left;
      pools := pools + [Topology(n, poolTweaks[n])];
      order := order + [n];
      left := left - {n};
    }
  }

  method ApplyTweak(poolTweaks: map<string, int>, tweak: Tweak) returns (r: map<string, int>)
    ensures r.Keys == poolTweaks.Keys
    ensures forall p :: p in poolTweaks ==>
              r[p] == if p in tweak.pools && tweak.replicas.Some? then tweak.replicas.value else poolTweaks[p]
  {
    r := poolTweaks;
    for i := 0 to |tweak.pools|
      invariant r.Keys == poolTweaks.Keys
      invariant forall p :: p in poolTweaks ==>
                  r[p] == if p in tweak.pools[..i] && tweak.replicas.Some? then tweak.replicas.value else poolTweaks[p]
    {
      assert tweak.pools[..i + 1] == tweak.pools[..i] + [tweak.pools[i]];
      if tweak.pools[i] in r && tweak.replicas.Some? {
        r := r[tweak.pools[i] := tweak.replicas.value];
      }
    }
    assert tweak.pools[..|tweak.pools|] == tweak.pools;
  }

  // ---------- from v1alpha1 to v1beta1 ----------

  /** The guard as it stands: a single expression on the pool label, or any first expression with In. */
  predicate Taken(p: Pool)
    requires p.expressions != []
  {
    (|p.expressions| == 1 && p.expressions[0].key == NodePoolLabel) || p.expressions[0].operator == In
  }

  function TakenPools(ps: seq<Pool>): seq<string>
    requires forall i :: 0 <= i < |ps| ==> ps[i].expressions != []
  {
    if ps == [] then []
    else
      var p := ps[|ps| - 1];
      TakenPools(ps[..|ps| - 1]) + if Taken(p) then p.expressions[0].values else []
  }

  function TakenTweaks(ps: seq<Pool>): seq<Tweak>
    requires forall i :: 0 <= i < |ps| ==> ps[i].expressions != []
  {
    if ps == [] then []
    else
      var p := ps[|ps| - 1];
      TakenTweaks(ps[..|ps| - 1]) + if Taken(p) && p.replicas.Some? then [Tweak(p.expressions[0].values, p.replicas)]
        else []
  }

  /** ConvertTo; a topology entry without match expressions is an index out of range. */
  method ConvertTo(a: Alpha) returns (r: Option<Beta>)
    ensures r.None? <==> exists i :: 0 <= i < |a.pools| && a.pools[i].expressions == []
    ensures r.Some? ==> r.value == Beta(a.deployment, a.statefulSet, TakenPools(a.pools), TakenTweaks(a.pools))
  {
    var pools: seq<string> := [];
    var tweaks: seq<Tweak> := [];
    for i := 0 to |a.pools|
      invariant forall j :: 0 <= j < i ==> a.pools[j].expressions != []
      invariant pools == TakenPools(a.pools[..i]) && tweaks == TakenTweaks(a.pools[..i])
    {
      var pool := a.pools[i];
      if |pool.expressions| == 0 {
        return None;
      }
      assert a.pools[..i + 1][..i] == a.pools[..i];
      if (|pool.expressions| == 1 && pool.expressions[0].key == NodePoolLabel) || pool.expressions[0].operator == In {
        pools := pools + pool.expressions[0].values;
        if pool.replicas.Some? {
          tweaks := tweaks + [Tweak(pool.expressions[0].values, pool.replicas)];
        }
      }
    }
    assert a.pools[..|a.pools|] == a.pools;
    r := Some(Beta(a.deployment, a.statefulSet, pools, tweaks));
  }

  // ---------- there and back ----------

  lemma {:induction false} TakenOfTopology(b: Beta, order: seq<string>)
    ensures var ps := Converted(b, order).pools;
            && (forall i :: 0 <= i < |ps| ==> ps[i].expressions != [])
            && TakenPools(ps) == order
            && TakenTweaks(ps) ==
               seq(|order|, i requires 0 <= i < |order| => Tweak([order[i]], Some(PoolReplicas(b, order[i]))))
  {
    if order != [] {
      var n := |order| - 1;
      TakenOfTopology(b, order[..n]);
      var front, last := Converted(b, order[..n]).pools, Topology(order[n], PoolReplicas(b, order[n]));
      assert Converted(b, order).pools == front + [last];
      TakenSnoc(front, last);
      assert order == order[..n] + [order[n]];
    }
  }

  /** Back in v1beta1, for the given order of the pools. */
  function BackAgain(b: Beta, order: seq<string>): Beta
  {
    TakenOfTopology(b, order);
    var a := Converted(b, order);
    Beta(a.deployment, a.statefulSet, TakenPools(a.pools), TakenTweaks(a.pools))
  }

  lemma {:induction false} LastTweakOfEach(b: Beta, order: seq<string>, pool: string)
    requires pool in order
    ensures LastTweak(seq(|order|, i requires 0 <= i < |order| => Tweak([order[i]], Some(PoolReplicas(b, order[i])))),
            pool) ==
            Some(PoolReplicas(b, pool))
  {
    var n := |order| - 1;
    var tweaks := seq(|order|, i requires 0 <= i < |order| => Tweak([order[i]], Some(PoolReplicas(b, order[i]))));
    if order[n] != pool {
      assert order == order[..n] + [order[n]];
      LastTweakOfEach(b, order[..n], pool);
      assert tweaks[..n] == seq(|order[..n]|,
             i requires 0 <= i < |order[..n]| => Tweak([order[..n][i]], Some(PoolReplicas(b, order[..n][i]))));
    }
  }

  /** The round trip keeps the set of pools and the templates, and gives every pool its count or, lacking one, zero. */
  lemma RoundTripCounts(b: Beta, order: seq<string>, pool: string)
    requires Enumerates(order, SetOf(b.pools)) && pool in b.pools
    ensures SetOf(BackAgain(b, order).pools) == SetOf(b.pools)
    ensures BackAgain(b, order).deployment == b.deployment && BackAgain(b, order).statefulSet == b.statefulSet
    ensures Effective(BackAgain(b, order), pool) ==
            Some(if Effective(b, pool).Some? then Effective(b, pool).value else 0)
  {
    TakenOfTopology(b, order);
    LastTweakOfEach(b, order, pool);
  }

  /** A pool's effective replica count survives exactly when the template or a tweak of the pool sets one. */
  lemma RoundTripKeepsReplicasIff(b: Beta, order: seq<string>, pool: string)
    requires Enumerates(order, SetOf(b.pools)) && pool in b.pools
    ensures Effective(BackAgain(b, order), pool) == Effective(b, pool) <==>
            TemplateReplicas(b).Some? || LastTweak(b.tweaks, pool).Some?
  {
    RoundTripCounts(b, order, pool);
  }

  /** Tweak i is the last that names the pool and sets replicas. */
  predicate IsLastTweak(tweaks: seq<Tweak>, pool: string, i: nat)
  {
    && i < |tweaks| && pool in tweaks[i].pools && tweaks[i].replicas.Some?
    && forall j :: i < j < |tweaks| ==> pool !in tweaks[j].pools || tweaks[j].replicas.None?
  }

  lemma {:induction false} LastTweakIs(tweaks: seq<Tweak>, pool: string)
    ensures forall i: nat :: IsLastTweak(tweaks, pool, i) ==> LastTweak(tweaks, pool) == tweaks[i].replicas
    ensures (forall i :: 0 <= i < |tweaks| ==> pool !in tweaks[i].pools || tweaks[i].replicas.None?) ==>
            LastTweak(tweaks, pool) == None
  {
    if tweaks != [] {
      var n := |tweaks| - 1;
      LastTweakIs(tweaks[..n], pool);
      forall i: nat | IsLastTweak(tweaks, pool, i) ensures LastTweak(tweaks, pool) == tweaks[i].replicas
      {
        if i < n { assert IsLastTweak(tweaks[..n], pool, i); }
      }
    }
  }

  // ---------- back and there ----------

  /** What ConvertTo takes of one entry is its values and, if it sets replicas, a tweak of them all. */
  lemma TakenOfEntry(p: Pool)
    requires p.expressions != []
    ensures var e := p.expressions[0];
            var taken := (|p.expressions| == 1 && e.key == NodePoolLabel) || e.operator == In;
            && TakenPools([p]) == (if taken then e.values else [])
            && TakenTweaks([p]) == (if taken && p.replicas.Some? then [Tweak(e.values, p.replicas)] else [])
  {
    assert [p][..0] == [];
    assert TakenPools([p]) == [] + (if Taken(p) then p.expressions[0].values else []);
  }

  lemma Regroup<T>(a: seq<T>, b: seq<T>, c: seq<T>)
    ensures (a + b) + c == a + (b + c)
  {
  }

  lemma {:induction false} TakenSnoc(ps: seq<Pool>, p: Pool)
    requires p.expressions != [] && forall i :: 0 <= i < |ps| ==> ps[i].expressions != []
    ensures TakenPools(ps + [p]) == TakenPools(ps) + (if Taken(p) then p.expressions[0].values else [])
    ensures TakenTweaks(ps + [p]) ==
            TakenTweaks(ps) +
              (if Taken(p) && p.replicas.Some? then [Tweak(p.expressions[0].values, p.replicas)] else [])
  {
    assert (ps + [p])[..|ps|] == ps;
  }

  /** And it goes entry by entry. */
  lemma {:induction false} TakenConcat(ps: seq<Pool>, qs: seq<Pool>)
    requires forall i :: 0 <= i < |ps| ==> ps[i].expressions != []
    requires forall i :: 0 <= i < |qs| ==> qs[i].expressions != []
    ensures TakenPools(ps + qs) == TakenPools(ps) + TakenPools(qs)
    ensures TakenTweaks(ps + qs) == TakenTweaks(ps) + TakenTweaks(qs)
    decreases |qs|
  {
    if qs == [] {
      assert ps + qs == ps;
    } else {
      var front, last := qs[..|qs| - 1], qs[|qs| - 1];
      TakenConcat(ps, front);
      assert ps + qs == (ps + front) + [last] && qs == front + [last];
      TakenSnoc(ps + front, last);
      TakenSnoc(front, last);
      Regroup(TakenPools(ps), TakenPools(front), if Taken(last) then last.expressions[0].values else []);
      Regroup(TakenTweaks(ps), TakenTweaks(front),
              if Taken(last) && last.replicas.Some? then [Tweak(last.expressions[0].values, last.replicas)] else []);
    }
  }

  /** A v1alpha1 topology that says no more than v1beta1 can: one pool each, no pool twice. */
  predicate OnePoolEach(ps: seq<Pool>)
  {
    && (forall i :: 0 <= i < |ps| ==> ps[i].expressions == [Expression(NodePoolLabel, In, [ps[i].name])])
    && (forall i, j :: 0 <= i < j < |ps| ==> ps[i].name != ps[j].name)
  }

  lemma {:induction false} NamesAreTaken(ps: seq<Pool>)
    requires OnePoolEach(ps)
    ensures |TakenPools(ps)| == |ps| && forall i :: 0 <= i < |ps| ==> TakenPools(ps)[i] == ps[i].name
  {
    if ps != [] {
      var n := |ps| - 1;
      NamesAreTaken(ps[..n]);
      assert TakenPools(ps) == TakenPools(ps[..n]) + [ps[n].name];
    }
  }

  lemma TweakSnoc(tweaks: seq<Tweak>, name: string, count: Option<int>, pool: string)
    ensures LastTweak(tweaks + if count.Some? then [Tweak([name], count)] else [], pool) ==
            if pool == name && count.Some? then count else LastTweak(tweaks, pool)
  {
    if count.Some? {
      var more := tweaks + [Tweak([name], count)];
      assert more[..|more| - 1] == tweaks;
    } else {
      assert tweaks + [] == tweaks;
    }
  }

  lemma CountOfLast(ps: seq<Pool>, name: string)
    requires OnePoolEach(ps) && ps != []
    ensures var p := ps[|ps| - 1];
            LastTweak(TakenTweaks(ps), name) ==
            if name == p.name && p.replicas.Some? then p.replicas else LastTweak(TakenTweaks(ps[..|ps| - 1]), name)
  {
    var front, p := ps[..|ps| - 1], ps[|ps| - 1];
    assert ps == front + [p];
    TakenSnoc(front, p);
    TweakSnoc(TakenTweaks(front), p.name, p.replicas, name);
  }

  lemma {:induction false} NoCountIsTaken(ps: seq<Pool>, name: string)
    requires OnePoolEach(ps) && forall i :: 0 <= i < |ps| ==> ps[i].name != name
    ensures LastTweak(TakenTweaks(ps), name) == None
  {
    if ps != [] {
      NoCountIsTaken(ps[..|ps| - 1], name);
      CountOfLast(ps, name);
    }
  }

  lemma {:induction false} CountIsTaken(ps: seq<Pool>, i: nat)
    requires OnePoolEach(ps) && i < |ps|
    ensures LastTweak(TakenTweaks(ps), ps[i].name) == ps[i].replicas
  {
    var n := |ps| - 1;
    CountOfLast(ps, ps[i].name);
    if i < n {
      CountIsTaken(ps[..n], i);
    } else {
      NoCountIsTaken(ps[..n], ps[n].name);
    }
  }

  /**
   * The other way round: such a topology comes back with the same pools, each
   * with its own count, or the template's written out if it had none.
   */
  lemma AlphaRoundTrip(a: Alpha, order: seq<string>, i: nat, j: nat)
    requires OnePoolEach(a.pools) && i < |a.pools| && j < |order| && order[j] == a.pools[i].name
    requires Enumerates(order, SetOf(TakenPools(a.pools)))
    ensures var b := Beta(a.deployment, a.statefulSet, TakenPools(a.pools), TakenTweaks(a.pools));
            && SetOf(order) == (set k | 0 <= k < |a.pools| :: a.pools[k].name)
            && Converted(b, order).pools[j] ==
               a.pools[i].(replicas := if a.pools[i].replicas.Some? then a.pools[i].replicas
                 else Some(DefaultReplicas(b)))
  {
    NamesAreTaken(a.pools);
    CountIsTaken(a.pools, i);
    var taken := TakenPools(a.pools);
    forall x ensures x in SetOf(order) <==> x in set k | 0 <= k < |a.pools| :: a.pools[k].name
    {
      assert x in order <==> x in SetOf(taken);
      if x in taken {
        var k :| 0 <= k < |taken| && taken[k] == x;
        assert a.pools[k].name == x;
      }
      if k :| 0 <= k < |a.pools| && a.pools[k].name == x { assert taken[k] == x; }
    }
  }

  /** Once round is enough: further round trips change no pool's count, in whatever orders. */
  lemma SecondRoundTripIsIdle(b: Beta, order: seq<string>, order2: seq<string>, pool: string)
    requires Enumerates(order, SetOf(b.pools)) && Enumerates(order2, SetOf(BackAgain(b, order).pools)) &&
             pool in b.pools
    ensures Effective(BackAgain(BackAgain(b, order), order2), pool) == Effective(BackAgain(b, order), pool)
    ensures SetOf(BackAgain(BackAgain(b, order), order2).pools) == SetOf(b.pools)
  {
    RoundTripCounts(b, order, pool);
    assert pool in SetOf(BackAgain(b, order).pools);
    RoundTripCounts(BackAgain(b, order), order2, pool);
  }

  // ---------- which nodes an entry stands for ----------

  type Labels = map<string, string>

  /** strconv.ParseInt, as far as Gt and Lt need it. */
  type IntParser = string -> Option<int>

  /** A node selector requirement on the labels of a node. */
  predicate MatchesOne(e: Expression, node: Labels, intOf: IntParser)
  {
    match e.operator
    case In => e.key in node && node[e.key] in e.values
    case NotIn => e.key !in node || node[e.key] !in e.values
    case Exists => e.key in node
    case DoesNotExist => e.key !in node
    case Gt => e.key in node && |e.values| == 1 && Greater(intOf(node[e.key]), intOf(e.values[0]))
    case Lt => e.key in node && |e.values| == 1 && Greater(intOf(e.values[0]), intOf(node[e.key]))
  }

  predicate Greater(a: Option<int>, b: Option<int>)
  {
    a.Some? && b.Some? && a.value > b.value
  }

  /** All requirements of a v1alpha1 entry. */
  predicate MatchesAll(es: seq<Expression>, node: Labels, intOf: IntParser)
  {
    forall i :: 0 <= i < |es| ==> MatchesOne(es[i], node, intOf)
  }

  /** The node belongs to one of the pools of a v1beta1 list. */
  predicate InPools(pools: seq<string>, node: Labels)
  {
    NodePoolLabel in node && node[NodePoolLabel] in pools
  }

  /** The conversion takes the entry over to the very nodes it stands for. */
  ghost predicate SameNodes(p: Pool, intOf: IntParser)
    requires p.expressions != []
  {
    forall node: Labels :: MatchesAll(p.expressions, node, intOf) <==> InPools(TakenPools([p]), node)
  }

  ghost predicate SelectsNoNode(p: Pool, intOf: IntParser)
  {
    forall node: Labels :: !MatchesAll(p.expressions, node, intOf)
  }

  /** Every node of the first expression's pools meets the others too. */
  ghost predicate RestHolds(p: Pool, intOf: IntParser)
    requires p.expressions != []
  {
    forall node: Labels :: InPools(p.expressions[0].values, node) ==> MatchesAll(p.expressions[1..], node, intOf)
  }

  lemma {:induction false} LongerThanAll(xs: seq<string>) returns (x: string)
    ensures x !in xs && forall i :: 0 <= i < |xs| ==> |xs[i]| < |x|
  {
    if xs == [] {
      x := "x";
    } else {
      var last := xs[|xs| - 1];
      var y := LongerThanAll(xs[..|xs| - 1]);
      x := y + last + "x";
      forall i | 0 <= i < |xs| ensures |xs[i]| < |x|
      {
        if i < |xs| - 1 { assert xs[i] == xs[..|xs| - 1][i]; }
      }
    }
  }

  /** An entry taken over for anything but In on the pool label stands for other nodes, whatever values it has. */
  lemma OtherwiseTakenDiffers(p: Pool, intOf: IntParser)
    requires p.expressions != [] && Taken(p) && p.expressions[0].values != []
    requires !(p.expressions[0].key == NodePoolLabel && p.expressions[0].operator == In)
    ensures !SameNodes(p, intOf)
  {
    TakenOfEntry(p);
    var e := p.expressions[0];
    var v := e.values[0];
    var inPool: Labels := map[NodePoolLabel := v];
    assert InPools(e.values, inPool);
    if e.operator == Exists {
      var x := LongerThanAll(e.values);
      var elsewhere: Labels := map[NodePoolLabel := x];
      assert MatchesOne(e, elsewhere, intOf) && !InPools(e.values, elsewhere);
      assert MatchesAll(p.expressions, elsewhere, intOf);
    } else {
      assert !MatchesOne(e, inPool, intOf);
    }
  }

  lemma FirstInDecides(p: Pool, intOf: IntParser)
    requires p.expressions != [] && p.expressions[0].key == NodePoolLabel && p.expressions[0].operator == In
    ensures SameNodes(p, intOf) <==> RestHolds(p, intOf)
  {
    TakenOfEntry(p);
    forall node: Labels
      ensures MatchesAll(p.expressions, node, intOf) <==>
              InPools(p.expressions[0].values, node) && MatchesAll(p.expressions[1..], node, intOf)
    {
      FirstAndRest(p.expressions, node, intOf);
    }
  }

  lemma FirstAndRest(es: seq<Expression>, node: Labels, intOf: IntParser)
    requires es != []
    ensures MatchesAll(es, node, intOf) <==> MatchesOne(es[0], node, intOf) && MatchesAll(es[1..], node, intOf)
  {
    if MatchesOne(es[0], node, intOf) && MatchesAll(es[1..], node, intOf) {
      forall i | 0 <= i < |es| ensures MatchesOne(es[i], node, intOf)
      {
        if i > 0 { assert es[i] == es[1..][i - 1]; }
      }
    }
  }

  /**
   * For every entry: the conversion takes it over to the very nodes it stands
   * for exactly when it begins with In on the pool label and its other
   * expressions hold of every node of those pools, or when it stands for no
   * node and no value is taken over.
   */
  lemma TakenMeansSelectedIff(p: Pool, intOf: IntParser)
    requires p.expressions != []
    ensures SameNodes(p, intOf) <==>
            if p.expressions[0].key == NodePoolLabel && p.expressions[0].operator == In then RestHolds(p, intOf)
            else (Taken(p) ==> p.expressions[0].values == []) && SelectsNoNode(p, intOf)
  {
    if p.expressions[0].key == NodePoolLabel && p.expressions[0].operator == In {
      FirstInDecides(p, intOf);
    } else if Taken(p) && p.expressions[0].values != [] {
      OtherwiseTakenDiffers(p, intOf);
    } else {
      TakenOfEntry(p);
      assert TakenPools([p]) == [];
      forall node: Labels ensures !InPools([], node) {}
    }
  }

  /** A single In on the pool label is always taken over right. */
  lemma PoolEntryIsTakenRight(p: Pool, intOf: IntParser)
    requires |p.expressions| == 1 && p.expressions[0].key == NodePoolLabel && p.expressions[0].operator == In
    ensures SameNodes(p, intOf)
  {
    TakenMeansSelectedIff(p, intOf);
    assert p.expressions[1..] == [];
  }

  /** In on another label is taken over as if its values were pools; so is NotIn on the pool label. */
  lemma ForeignLabelIsTakenForPools(values: seq<string>, intOf: IntParser)
    requires values != []
    ensures var p := Pool("p", [Expression("kubernetes.io/hostname", In, values)], None);
            TakenPools([p]) == values && !SameNodes(p, intOf)
    ensures var p := Pool("p", [Expression(NodePoolLabel, NotIn, values)], None);
            TakenPools([p]) == values && !SameNodes(p, intOf)
  {
    var p := Pool("p", [Expression("kubernetes.io/hostname", In, values)], None);
    var q := Pool("p", [Expression(NodePoolLabel, NotIn, values)], None);
    TakenOfEntry(p);
    TakenOfEntry(q);
    assert "kubernetes.io/hostname"[0] != NodePoolLabel[0];
    OtherwiseTakenDiffers(p, intOf);
    OtherwiseTakenDiffers(q, intOf);
  }
}
