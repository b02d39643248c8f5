/**
 * The leader-hub configmap of a node pool: how the controller writes it, how a
 * hub parses it, and how the hub's multiplexer keeps its state equal to the
 * parse of the latest configmap while skipping work that looks unchanged.
 */
module LeaderConfig {
  import opened Collections
  import opened Strs
  import opened PoolScopeFlag

  type Data = map<string, string>

  function Get(data: Data, key: string): string
  {
    if key in data then data[key] else ""
  }

  /** schema.GroupVersionResource.String. */
  function GvrString(g: GVR): string
  {
    g.group + "/" + g.version + ", Resource=" + g.resource
  }

  datatype Leader = Leader(name: string, address: string)

  // ---------- parsing ----------

  function PartsOf(text: string): seq<string>
  {
    if text == "" then [] else Split(text, ',')
  }

  predicate IsGvr(part: string)
  {
    |Split(part, '/')| == 3
  }

  function GvrOf(part: string): GVR
    requires IsGvr(part)
  {
    var sub := Split(part, '/');
    GVR(sub[0], sub[1], sub[2])
  }

  predicate IsLeader(part: string)
  {
    |Split(part, '/')| == 2
  }

  function LeaderOf(part: string): Leader
    requires IsLeader(part)
  {
    var sub := Split(part, '/');
    Leader(sub[0], sub[1])
  }

  function MetadataOf(parts: seq<string>): set<string>
  {
    set p | p in parts && IsGvr(p) :: GvrString(GvrOf(p))
  }

  function LeadersOf(parts: seq<string>): set<Leader>
  {
    set p | p in parts && IsLeader(p) :: LeaderOf(p)
  }

  function Metadata(data: Data): set<string>
  {
    MetadataOf(PartsOf(Get(data, "pool-scoped-metadata")))
  }

  function Leaders(data: Data): set<Leader>
  {
    LeadersOf(PartsOf(Get(data, "leaders")))
  }

  lemma MetadataSnoc(parts: seq<string>, p: string)
    ensures MetadataOf(parts + [p]) == MetadataOf(parts) + if IsGvr(p) then {GvrString(GvrOf(p))} else {}
  {
    assert forall q :: q in parts + [p] <==> q in parts || q == p;
    if IsGvr(p) { assert p in parts + [p]; }
  }

  lemma LeadersSnoc(parts: seq<string>, p: string)
    ensures LeadersOf(parts + [p]) == LeadersOf(parts) + if IsLeader(p) then {LeaderOf(p)} else {}
  {
    assert forall q :: q in parts + [p] <==> q in parts || q == p;
    if IsLeader(p) { assert p in parts + [p]; }
  }

  function Names(leaders: set<Leader>): set<string>
  {
    set l | l in leaders :: l.name
  }

  function Addresses(leaders: set<Leader>): set<string>
  {
    set l | l in leaders :: l.address
  }

  lemma NamesAndAddressesSnoc(leaders: set<Leader>, l: Leader)
    ensures Names(leaders + {l}) == Names(leaders) + {l.name}
    ensures Addresses(leaders + {l}) == Addresses(leaders) + {l.address}
  {
    assert l in leaders + {l};
    assert forall m :: m in leaders ==> m in leaders + {l};
  }

  datatype Source = Unset | Pool | ApiServer

  /** A follower of an elected leader reads from the pool, everyone else from the API server. */
  function SourceFor(node: string, data: Data): Source
  {
    if Get(data, "enable-leader-election") == "true" && Addresses(Leaders(data)) != {} && node !in Names(Leaders(data))
    then Pool else ApiServer
  }

  /** Said over the raw value and the leaders themselves. */
  lemma SourceIs(node: string, data: Data)
    ensures SourceFor(node, data) ==
            if "enable-leader-election" in data && data["enable-leader-election"] == "true" && Leaders(data) != {} &&
               (forall l :: l in Leaders(data) ==> l.name != node)
            then Pool else ApiServer
  {
    var leaders := Leaders(data);
    forall l | l in leaders ensures l.address in Addresses(leaders) && l.name in Names(leaders) {}
  }

  // ---------- the hub's state ----------

  /** What the environment fixes: the hub's node, and the server an address stands for (None: it does not parse). */
  datatype Env = Env(node: string, servers: map<string, string>)

  datatype Hub = Hub(source: Source, metadata: set<string>, addresses: set<string>, checked: set<string>,
    balanced: set<string>)

  function Servers(env: Env, addresses: set<string>): set<string>
  {
    set a | a in addresses && a in env.servers :: env.servers[a]
  }

  /** The state a configmap calls for, computed from nothing else. */
  function Wanted(env: Env, data: Data): Hub
  {
    var addresses := Addresses(Leaders(data));
    Hub(SourceFor(env.node, data), Metadata(data), addresses, Servers(env, addresses), Servers(env, addresses))
  }

  /** The first half of updateLeaderHubConfiguration: backends follow the addresses when those change. */
  function AppliedBackends(env: Env, hub: Hub, data: Data): Hub
  {
    var addresses := Addresses(Leaders(data));
    if hub.addresses != addresses then
      hub.(checked := Servers(env, addresses), balanced := Servers(env, addresses), addresses := addresses)
    else hub
  }

  /** updateLeaderHubConfiguration, with both of its shortcuts. */
  function Applied(env: Env, hub: Hub, data: Data): Hub
  {
    var hub1 := AppliedBackends(env, hub, data);
    if hub1.source == SourceFor(env.node, data) && hub1.metadata == Metadata(data) then hub1
    else hub1.(source := SourceFor(env.node, data), metadata := Metadata(data))
  }

  predicate BackendsMatch(env: Env, hub: Hub)
  {
    hub.checked == Servers(env, hub.addresses) && hub.balanced == Servers(env, hub.addresses)
  }

  /** A hub that has been given its first configmap and then updates, each from the one before. */
  function AppliedAll(env: Env, hub: Hub, cms: seq<Data>): Hub
    requires cms != []
  {
    var n := |cms| - 1;
    if n == 0 then Applied(env, hub, cms[0])
    else
      var before := AppliedAll(env, hub, cms[..n]);
      if cms[n - 1] == cms[n] then before else Applied(env, before, cms[n])
  }

  /**
   * After an add and any chain of updates, the source, the pool-scope set, the
   * leader addresses and both sets of backends are the pure parse of the
   * latest configmap: all three shortcuts are sound.
   */
  lemma {:induction false} StateIsParseOfLatest(env: Env, hub: Hub, cms: seq<Data>)
    requires cms != [] && BackendsMatch(env, hub)
    ensures AppliedAll(env, hub, cms) == Wanted(env, cms[|cms| - 1])
  {
    var n := |cms| - 1;
    if n > 0 {
      StateIsParseOfLatest(env, hub, cms[..n]);
      assert cms[..n][n - 1] == cms[n - 1];
    }
  }

  // ---------- the object ----------

  class MultiplexerManager {
    const env: Env
    var sourceForPoolScopeMetadata: Source
    var poolScopeMetadata: set<string>
    var leaderAddresses: set<string>
    var healthCheckerBackends: seq<string>
    var loadBalancerBackends: seq<string>

    function Abs(): Hub
      reads this
    {
      Hub(sourceForPoolScopeMetadata, poolScopeMetadata, leaderAddresses,
          SetOf(healthCheckerBackends), SetOf(loadBalancerBackends))
    }

    constructor (e: Env, configured: set<string>)
      ensures env == e && Abs() == Hub(Unset, configured, {}, {}, {}) && BackendsMatch(env, Abs())
    {
      env := e;
      sourceForPoolScopeMetadata, poolScopeMetadata, leaderAddresses := Unset, configured, {};
      healthCheckerBackends, loadBalancerBackends := [], [];
    }

    /** The servers of the addresses that parse, in whatever order the set yields them. */
    method ResolveLeaderHubServers(addresses: set<string>) returns (servers: seq<string>)
      ensures SetOf(servers) == Servers(env, addresses)
    {
      servers := [];
      var left := addresses;
      while left != {}
        invariant left <= addresses
        invariant forall s :: s in servers <==> s in Servers(env, addresses - left)
        decreases left
      {
        var a :| a in left;
        var was := left;
        left := left - {a};
        assert addresses - left == (addresses - was) + {a};
        if a in env.servers {
          servers := servers + [env.servers[a]];
          assert Servers(env, addresses - left) == Servers(env, addresses - was) + {env.servers[a]};
        } else {
          assert Servers(env, addresses - left) == Servers(env, addresses - was);
        }
      }
      assert addresses - left == addresses;
    }

    /** The loop over the published resources; entries that are not of three parts are passed over. */
    method ParseMetadata(data: Data) returns (metadata: set<string>)
      ensures metadata == Metadata(data)
    {
      metadata := {};
      var parts := PartsOf(Get(data, "pool-scoped-metadata"));
      for i := 0 to |parts|
        invariant metadata == MetadataOf(parts[..i])
      {
        assert parts[..i + 1] == parts[..i] + [parts[i]];
        MetadataSnoc(parts[..i], parts[i]);
        var subParts := Split(parts[i], '/');
        if |subParts| == 3 {
          metadata := metadata + {GvrString(GVR(subParts[0], subParts[1], subParts[2]))};
        }
      }
      assert parts[..|parts|] == parts;
    }

    /** The loop over the leader endpoints, which fills the set of names and the set of addresses side by side. */
    method ParseLeaders(data: Data) returns (names: set<string>, addresses: set<string>)
      ensures names == Names(Leaders(data)) && addresses == Addresses(Leaders(data))
    {
      names, addresses := {}, {};
      var parts := PartsOf(Get(data, "leaders"));
      for i := 0 to |parts|
        invariant names == Names(LeadersOf(parts[..i])) && addresses == Addresses(LeadersOf(parts[..i]))
      {
        assert parts[..i + 1] == parts[..i] + [parts[i]];
        LeadersSnoc(parts[..i], parts[i]);
        var subParts := Split(parts[i], '/');
        if |subParts| == 2 {
          NamesAndAddressesSnoc(LeadersOf(parts[..i]), Leader(subParts[0], subParts[1]));
          names := names + {subParts[0]};
          addresses := addresses + {subParts[1]};
        }
      }
      assert parts[..|parts|] == parts;
    }

    method UpdateLeaderHubConfiguration(data: Data)
      modifies this
      ensures Abs() == Applied(env, old(Abs()), data)
      ensures sourceForPoolScopeMetadata ==
              if "enable-leader-election" in data && data["enable-leader-election"] == "true" && Leaders(data) != {} &&
                 (forall l :: l in Leaders(data) ==> l.name != env.node)
              then Pool else ApiServer
      ensures poolScopeMetadata == Metadata(data) && leaderAddresses == Addresses(Leaders(data))
    {
      var newPoolScopeMetadata := ParseMetadata(data);
      var newLeaderNames, newLeaderAddresses := ParseLeaders(data);

      var newSource := ApiServer;
      if Get(data, "enable-leader-election") == "true" && newLeaderAddresses != {} && env.node !in newLeaderNames {
        newSource := Pool;
      }
      assert newSource == SourceFor(env.node, data);
      SourceIs(env.node, data);

      if leaderAddresses != newLeaderAddresses {
        var servers := ResolveLeaderHubServers(newLeaderAddresses);
        healthCheckerBackends := servers;
        loadBalancerBackends := servers;
        leaderAddresses := newLeaderAddresses;
      }

      if sourceForPoolScopeMetadata == newSource && poolScopeMetadata == newPoolScopeMetadata {
        return;
      }
      sourceForPoolScopeMetadata := newSource;
      poolScopeMetadata := newPoolScopeMetadata;
    }

    method AddConfigmap(data: Data)
      requires BackendsMatch(env, Abs())
      modifies this
      ensures Abs() == Wanted(env, data) && BackendsMatch(env, Abs())
    {
      UpdateLeaderHubConfiguration(data);
    }

    /** An update from the configmap the state was made of; unchanged data is skipped. */
    method UpdateConfigmap(oldData: Data, newData: Data)
      requires Abs() == Wanted(env, oldData)
      modifies this
      ensures Abs() == Wanted(env, newData)
    {
      if oldData == newData {
        return;
      }
      UpdateLeaderHubConfiguration(newData);
    }
  }

  // ---------- the controller's side ----------

  datatype NodePool = NodePool(leaders: seq<Leader>, metadata: seq<GVR>, interconnectivity: bool,
    enableLeaderElection: bool)

  function FormatBool(b: bool): string
  {
    if b then "true" else "false"
  }

  function LeaderStrings(ls: seq<Leader>): seq<string>
  {
    seq(|ls|, i requires 0 <= i < |ls| => Join([ls[i].name, ls[i].address], '/'))
  }

  /** The data reconcileHubLeaderConfig writes. */
  function Published(np: NodePool): Data
  {
    map["leaders" := Join(Sort(LeaderStrings(np.leaders)), ','),
        "pool-scoped-metadata" := Join(Sort(PrintedParts(np.metadata)), ','),
        "interconnectivity" := FormatBool(np.interconnectivity),
        "enable-leader-election" := FormatBool(np.enableLeaderElection)]
  }

  predicate Plain(s: string)
  {
    ',' !in s && '/' !in s
  }

  predicate PlainPool(np: NodePool)
  {
    && (forall i :: 0 <= i < |np.leaders| ==> Plain(np.leaders[i].name) && Plain(np.leaders[i].address))
    && (forall i :: 0 <= i < |np.metadata| ==>
          Plain(np.metadata[i].group) && Plain(np.metadata[i].version) && Plain(np.metadata[i].resource))
  }

  lemma JoinTwo(a: string, b: string)
    ensures Join([a, b], '/') == a + "/" + b
  {
    assert [a, b][1..] == [b];
  }

  predicate SameElements(a: seq<string>, b: seq<string>)
  {
    (forall p :: p in a ==> p in b) && (forall p :: p in b ==> p in a)
  }

  lemma SortSameElements(parts: seq<string>)
    ensures SameElements(Sort(parts), parts) && |Sort(parts)| == |parts|
  {
    var sorted := Sort(parts);
    forall p | p in sorted ensures p in parts { assert p in multiset(sorted); }
    forall p | p in parts ensures p in sorted { assert p in multiset(parts); }
    assert |sorted| == |multiset(sorted)| == |multiset(parts)|;
  }

  lemma JoinNotEmpty(parts: seq<string>, sep: char)
    requires parts != [] && parts[0] != ""
    ensures Join(parts, sep) != ""
  {
  }

  /** Sorting and joining, then splitting, gives back the same set of strings. */
  lemma SortedJoinSplits(parts: seq<string>)
    requires AllFree(parts, ',') && forall i :: 0 <= i < |parts| ==> parts[i] != ""
    ensures SameElements(PartsOf(Join(Sort(parts), ',')), parts)
  {
    var sorted := Sort(parts);
    SortSameElements(parts);
    if parts != [] {
      forall i | 0 <= i < |sorted| ensures ',' !in sorted[i] && sorted[i] != ""
      {
        assert sorted[i] in parts;
      }
      SplitJoin(sorted, ',');
      JoinNotEmpty(sorted, ',');
    }
  }

  lemma LeaderStringParses(l: Leader)
    requires Plain(l.name) && Plain(l.address)
    ensures var s := Join([l.name, l.address], '/');
            IsLeader(s) && LeaderOf(s) == l && ',' !in s && s != ""
  {
    JoinTwo(l.name, l.address);
    SplitJoin([l.name, l.address], '/');
  }

  lemma GvrStringParses(g: GVR)
    requires Plain(g.group) && Plain(g.version) && Plain(g.resource)
    ensures IsGvr(Print(g)) && GvrOf(Print(g)) == g && ',' !in Print(g) && Print(g) != ""
  {
    PrintOf(g);
    SplitJoin([g.group, g.version, g.resource], '/');
  }

  lemma ParsedLeaderStrings(ls: seq<Leader>)
    requires forall i :: 0 <= i < |ls| ==> Plain(ls[i].name) && Plain(ls[i].address)
    ensures LeadersOf(LeaderStrings(ls)) == set l | l in ls
    ensures AllFree(LeaderStrings(ls), ',') && forall i :: 0 <= i < |ls| ==> LeaderStrings(ls)[i] != ""
  {
    var parts := LeaderStrings(ls);
    forall i | 0 <= i < |parts| ensures IsLeader(parts[i]) && LeaderOf(parts[i]) == ls[i] && ',' !in parts[i] &&
      parts[i] != ""
    {
      LeaderStringParses(ls[i]);
    }
    forall l | l in ls ensures l in LeadersOf(parts)
    {
      var i :| 0 <= i < |ls| && ls[i] == l;
      assert parts[i] in parts;
    }
  }

  lemma ParsedGvrStrings(gs: seq<GVR>)
    requires forall i :: 0 <= i < |gs| ==> Plain(gs[i].group) && Plain(gs[i].version) && Plain(gs[i].resource)
    ensures MetadataOf(PrintedParts(gs)) == set g | g in gs :: GvrString(g)
    ensures AllFree(PrintedParts(gs), ',') && forall i :: 0 <= i < |gs| ==> PrintedParts(gs)[i] != ""
  {
    var parts := PrintedParts(gs);
    forall i | 0 <= i < |parts| ensures IsGvr(parts[i]) && GvrOf(parts[i]) == gs[i] && ',' !in parts[i] &&
      parts[i] != ""
    {
      GvrStringParses(gs[i]);
    }
    forall s | s in MetadataOf(parts) ensures s in (set g | g in gs :: GvrString(g))
    {
      var p :| p in parts && IsGvr(p) && GvrString(GvrOf(p)) == s;
      var i :| 0 <= i < |parts| && parts[i] == p;
      assert gs[i] in gs;
    }
    forall g | g in gs ensures GvrString(g) in MetadataOf(parts)
    {
      var i :| 0 <= i < |gs| && gs[i] == g;
      assert parts[i] in parts;
    }
  }

  /** A hub reads out of the published configmap exactly the leaders the controller put in. */
  lemma PublishedLeadersParse(np: NodePool)
    requires PlainPool(np)
    ensures Leaders(Published(np)) == set l | l in np.leaders
  {
    ParsedLeaderStrings(np.leaders);
    SortedJoinSplits(LeaderStrings(np.leaders));
  }

  /** And exactly the pool-scope resources. */
  lemma PublishedMetadataParses(np: NodePool)
    requires PlainPool(np)
    ensures Metadata(Published(np)) == set g | g in np.metadata :: GvrString(g)
  {
    ParsedGvrStrings(np.metadata);
    SortedJoinSplits(PrintedParts(np.metadata));
  }

  lemma SplitsAlike(a: string, ra: string, b: string, rb: string, sep: char)
    requires sep !in a && sep !in b && a + [sep] + ra == b + [sep] + rb
    ensures a == b && ra == rb
  {
    SplitAtSeparator(a, ra, sep);
    SplitAtSeparator(b, rb, sep);
    assert ([a] + Split(ra, sep))[0] == a && ([b] + Split(rb, sep))[0] == b;
    assert ra == (a + [sep] + ra)[|a| + 1..];
    assert rb == (b + [sep] + rb)[|b| + 1..];
  }

  /** The printed form tells resources apart, so looking a request up by it is looking the resource up. */
  lemma GvrStringInjective(a: GVR, b: GVR)
    requires Plain(a.group) && Plain(b.group) && Plain(a.version) && Plain(b.version)
    requires GvrString(a) == GvrString(b)
    ensures a == b
  {
    var ta, tb := " Resource=" + a.resource, " Resource=" + b.resource;
    var ra, rb := a.version + [','] + ta, b.version + [','] + tb;
    assert GvrString(a) == a.group + ['/'] + ra;
    assert GvrString(b) == b.group + ['/'] + rb;
    SplitsAlike(a.group, ra, b.group, rb, '/');
    SplitsAlike(a.version, ta, b.version, tb, ',');
    assert a.resource == ta[10..] && b.resource == tb[10..];
  }

  /** With the published configmap applied, a hub treats as pool-scoped exactly the pool's resources. */
  lemma PoolScopedExactly(env: Env, np: NodePool, g: GVR)
    requires PlainPool(np) && Plain(g.group) && Plain(g.version) && Plain(g.resource)
    ensures GvrString(g) in Wanted(env, Published(np)).metadata <==> g in np.metadata
  {
    PublishedMetadataParses(np);
    if GvrString(g) in Wanted(env, Published(np)).metadata {
      var h :| h in np.metadata && GvrString(h) == GvrString(g);
      var i :| 0 <= i < |np.metadata| && np.metadata[i] == h;
      GvrStringInjective(g, h);
    }
  }

  // ---------- from the pool to the hub ----------

  lemma LeaderParts(part: string, l: Leader)
    ensures IsLeader(part) && LeaderOf(part) == l <==>
            part == l.name + "/" + l.address && '/' !in l.name && '/' !in l.address
  {
    JoinTwo(l.name, l.address);
    if IsLeader(part) && LeaderOf(part) == l {
      JoinSplit(part, '/');
      assert Split(part, '/') == [l.name, l.address];
      assert '/' !in Split(part, '/')[0] && '/' !in Split(part, '/')[1];
    }
    if part == l.name + "/" + l.address && '/' !in l.name && '/' !in l.address { SplitJoin([l.name, l.address], '/'); }
  }

  /** The test for an empty value hides no entry. */
  lemma PartsAreSplits(text: string, part: string)
    requires part != ""
    ensures part in PartsOf(text) <==> part in Split(text, ',')
  {
    if text == "" { assert Split(text, ',') == [""]; }
  }

  /** A hub takes for leaders exactly the comma-separated entries of two parts, whatever else the value holds. */
  lemma LeadersAre(data: Data, l: Leader)
    ensures l in Leaders(data) <==>
            && "leaders" in data && l.name + "/" + l.address in Split(data["leaders"], ',')
            && '/' !in l.name && '/' !in l.address
  {
    var text, part := Get(data, "leaders"), l.name + "/" + l.address;
    LeaderParts(part, l);
    assert part[|l.name|] == '/';
    PartsAreSplits(text, part);
    if l in Leaders(data) {
      var p :| p in PartsOf(text) && IsLeader(p) && LeaderOf(p) == l;
      LeaderParts(p, l);
    }
  }

  lemma GvrParts(part: string, g: GVR)
    ensures IsGvr(part) && GvrOf(part) == g <==>
            part == Print(g) && '/' !in g.group && '/' !in g.version && '/' !in g.resource
  {
    PrintOf(g);
    if IsGvr(part) && GvrOf(part) == g {
      JoinSplit(part, '/');
      assert Split(part, '/') == [g.group, g.version, g.resource];
      assert '/' !in Split(part, '/')[0] && '/' !in Split(part, '/')[1] && '/' !in Split(part, '/')[2];
    }
    if part == Print(g) && '/' !in g.group && '/' !in g.version && '/' !in g.resource {
      SplitJoin([g.group, g.version, g.resource], '/');
    }
  }

  /** And for pool-scope resources exactly the entries of three parts. */
  lemma MetadataIs(data: Data, s: string)
    ensures s in Metadata(data) <==>
            "pool-scoped-metadata" in data &&
            exists g :: && Print(g) in Split(data["pool-scoped-metadata"], ',') && s == GvrString(g)
                        && '/' !in g.group && '/' !in g.version && '/' !in g.resource
  {
    var text := Get(data, "pool-scoped-metadata");
    if s in Metadata(data) {
      var p :| p in PartsOf(text) && IsGvr(p) && GvrString(GvrOf(p)) == s;
      GvrParts(p, GvrOf(p));
      assert Print(GvrOf(p)) in Split(text, ',');
    }
    if "pool-scoped-metadata" in data {
      forall g | Print(g) in Split(text, ',') && s == GvrString(g) && '/' !in g.group && '/' !in g.version &&
        '/' !in g.resource
        ensures s in Metadata(data)
      {
        GvrParts(Print(g), g);
        assert Print(g)[|g.group|] == '/';
        PartsAreSplits(text, Print(g));
      }
    }
  }

  lemma PublishedSource(np: NodePool, node: string)
    requires PlainPool(np)
    ensures SourceFor(node, Published(np)) ==
            if np.enableLeaderElection && np.leaders != [] && (forall l :: l in np.leaders ==> l.name != node)
            then Pool else ApiServer
  {
    PublishedLeadersParse(np);
    SourceIs(node, Published(np));
    if np.leaders != [] { assert np.leaders[0] in Leaders(Published(np)); }
  }

  /**
   * Whatever configmaps came before: a hub that has taken in the one published
   * for a pool reads from the pool exactly if the pool elects leaders, has one,
   * and none of them is the hub's own node.
   */
  lemma FollowsPoolIff(env: Env, hub: Hub, cms: seq<Data>, np: NodePool)
    requires cms != [] && BackendsMatch(env, hub) && cms[|cms| - 1] == Published(np) && PlainPool(np)
    ensures AppliedAll(env, hub, cms).source ==
            if np.enableLeaderElection && np.leaders != [] && (forall l :: l in np.leaders ==> l.name != env.node)
            then Pool else ApiServer
  {
    StateIsParseOfLatest(env, hub, cms);
    PublishedSource(np, env.node);
  }

  /** And its backends are then the servers of exactly those leaders whose address parses. */
  lemma BackendsAreLeaders(env: Env, hub: Hub, cms: seq<Data>, np: NodePool, server: string)
    requires cms != [] && BackendsMatch(env, hub) && cms[|cms| - 1] == Published(np) && PlainPool(np)
    ensures var hub' := AppliedAll(env, hub, cms);
            && hub'.checked == hub'.balanced
            && (server in hub'.balanced <==>
                exists l :: l in np.leaders && l.address in env.servers && env.servers[l.address] == server)
  {
    StateIsParseOfLatest(env, hub, cms);
    PublishedLeadersParse(np);
    var leaders := Leaders(Published(np));
    if server in Servers(env, Addresses(leaders)) {
      var a :| a in Addresses(leaders) && a in env.servers && env.servers[a] == server;
      var l :| l in leaders && l.address == a;
      assert l in np.leaders;
    }
    forall l | l in np.leaders && l.address in env.servers && env.servers[l.address] == server
      ensures server in Servers(env, Addresses(leaders))
    {
      assert l in leaders;
      assert l.address in Addresses(leaders);
    }
  }
}
