/**
 * Where a request goes: from hub to hub, each deciding by its own configmap and
 * the request's User-Agent, until the API server, the local cache, the autonomy
 * proxy or a refusal ends it.
 */
module PoolRouting {
  import opened Collections
  import opened PoolScopeFlag
  import opened LeaderConfig

  const HubName := "yurthub"

  function UserAgent(node: string): string
  {
    "multiplexer-proxy-" + node
  }

  /** Every hub with the configmap it has applied, and the hub that listens on each address. */
  datatype World = World(configs: map<string, Data>, owner: map<string, string>)

  /** A request for a resource. */
  datatype Request = Request(verb: string, gvr: GVR)

  /** A request in a hub's hands under a User-Agent, or at its end. */
  datatype Place = At(node: string, agent: string) | CloudApi | LocalCache | AutonomyProxy | Refused

  /** What the hub finds when the request reaches it. */
  datatype Weather = Weather(
    ready: bool,              // config.ReadinessCheck passes
    cacherReady: bool,        // the multiplexer's cache of the resource is initialized
    leader: Option<string>,   // the leader address loadBalancerForLeaderHub picks, if any is healthy
    cloud: bool,              // loadBalancer picks a healthy API server
    edge: bool)               // the hub runs in edge mode, with a local proxy and an autonomy proxy

  /** ResolveRequestForPoolScopeMetadata: is it pool-scoped, and is it to be forwarded? */
  function Resolve(data: Data, node: string, req: Request, agent: string): (bool, bool)
  {
    if req.verb != "list" && req.verb != "watch" then (false, false)
    else (GvrString(req.gvr) in Metadata(data), agent == UserAgent(node))
  }

  // ---------- who asks ----------

  function LowerChar(c: char): char
  {
    if 'A' <= c <= 'Z' then c + 32 as char else c
  }

  /** strings.ToLower on a header value, which is ASCII. */
  function Lower(s: string): string
  {
    seq(|s|, i requires 0 <= i < |s| => LowerChar(s[i]))
  }

  function BeforeSlash(s: string): string
  {
    if s == "" || s[0] == '/' then "" else [s[0]] + BeforeSlash(s[1..])
  }

  /** TruncatedClientComponentFrom; a request without User-Agent has no component. */
  function Component(agent: string): Option<string>
  {
    if agent == "" then None else Some(BeforeSlash(Lower(agent)))
  }

  predicate IsKubeletLease(req: Request, agent: string)
  {
    Component(agent) == Some("kubelet") && req.gvr.resource == "leases"
  }

  predicate IsKubeletGetNode(req: Request, agent: string)
  {
    Component(agent) == Some("kubelet") && req.gvr.resource == "nodes" && req.verb == "get"
  }

  predicate IsAccessReview(req: Request, agent: string)
  {
    && Component(agent) == Some("kubelet") && req.gvr.resource == "subjectaccessreviews"
    && (req.verb == "create" || req.verb == "get")
  }

  // ---------- one hub ----------

  function CloudOr(w: Weather, otherwise: Place): Place
  {
    if w.cloud then CloudApi else otherwise
  }

  function CloudOrLocal(w: Weather): Place
  {
    CloudOr(w, if w.edge then LocalCache else Refused)
  }

  /** The cases of ServeHTTP behind pool-scope metadata, in their order. */
  function ServeOther(req: Request, agent: string, w: Weather): Place
  {
    if IsKubeletLease(req, agent) then (if w.edge then LocalCache else CloudOr(w, Refused))
    else if IsKubeletGetNode(req, agent) then (if w.edge then AutonomyProxy else CloudOr(w, Refused))
    else if IsAccessReview(req, agent) then CloudOr(w, Refused)
    else CloudOrLocal(w)
  }

  /**
   * ServeHTTP. A request served by the multiplexer is
   * answered from a cache that the hub fills through itself, under its own
   * User-Agent: that request is where the answer comes from.
   */
  function Step(world: World, req: Request, p: Place, w: Weather): Place
    requires p.At? && p.node in world.configs && Possible(world, p, w)
  {
    var data := world.configs[p.node];
    var fromSelf := p.agent == UserAgent(p.node) || HubName <= p.agent;
    if !fromSelf && !w.ready then Refused
    else
      var (isPoolScoped, forward) := Resolve(data, p.node, req, p.agent);
      if !isPoolScoped then ServeOther(req, p.agent, w)
      else if !forward then (if w.cacherReady then At(p.node, UserAgent(p.node)) else Refused)
      else if SourceFor(p.node, data) == Pool && w.leader.Some? then At(world.owner[w.leader.value], p.agent)
      else CloudOrLocal(w)
  }

  /** The leader load balancer picks among the hub's own leader addresses, and a hub answers there. */
  predicate Possible(world: World, p: Place, w: Weather)
    requires p.At? && p.node in world.configs
  {
    w.leader.Some? ==>
      && w.leader.value in Addresses(Leaders(world.configs[p.node]))
      && w.leader.value in world.owner && world.owner[w.leader.value] in world.configs
  }

  /** path is a possible course of the request from path[0] on. */
  predicate IsPath(world: World, req: Request, path: seq<Place>, ws: seq<Weather>)
    decreases |path|
  {
    && |path| == |ws| + 1
    && (path[0].At? ==> path[0].node in world.configs)
    && (|ws| > 0 ==>
          && path[0].At? && Possible(world, path[0], ws[0])
          && path[1] == Step(world, req, path[0], ws[0])
          && IsPath(world, req, path[1..], ws[1..]))
  }

  /** The request leaves a hub for a leader. */
  predicate IsForward(a: Place, b: Place)
  {
    a.At? && b.At? && a.agent == UserAgent(a.node)
  }

  function Forwards(path: seq<Place>): nat
  {
    if |path| < 2 then 0 else (if IsForward(path[0], path[1]) then 1 else 0) + Forwards(path[1..])
  }

  /**
   * The part of a step that counts the hubs: a hub asks on under its own name,
   * or passes its own request to a leader.
   */
  predicate Moves(world: World, p: Place, w: Weather, q: Place)
    requires p.At? && p.node in world.configs && Possible(world, p, w)
  {
    q.At? ==>
      if p.agent == UserAgent(p.node) then
        FollowsPool(world, p.node) && w.leader.Some? && q == At(world.owner[w.leader.value], p.agent)
      else q == At(p.node, UserAgent(p.node))
  }

  predicate IsCourse(world: World, path: seq<Place>, ws: seq<Weather>)
    decreases |path|
  {
    && |path| == |ws| + 1
    && (path[0].At? ==> path[0].node in world.configs)
    && (|ws| > 0 ==>
          && path[0].At? && Possible(world, path[0], ws[0])
          && Moves(world, path[0], ws[0], path[1])
          && IsCourse(world, path[1..], ws[1..]))
  }

  lemma StepMoves(world: World, req: Request, p: Place, w: Weather)
    requires p.At? && p.node in world.configs && Possible(world, p, w)
    ensures Moves(world, p, w, Step(world, req, p, w))
  {
  }

  lemma {:induction false} PathIsCourse(world: World, req: Request, path: seq<Place>, ws: seq<Weather>)
    requires IsPath(world, req, path, ws)
    ensures IsCourse(world, path, ws)
    decreases |path|
  {
    if |ws| > 0 {
      StepMoves(world, req, path[0], ws[0]);
      PathIsCourse(world, req, path[1..], ws[1..]);
    }
  }

  // ---------- at most two hubs ----------

  predicate FollowsPool(world: World, node: string)
  {
    node in world.configs && SourceFor(node, world.configs[node]) == Pool
  }

  /** No hub that reads from the pool has a leader address that leads to a hub that reads from the pool. */
  predicate NoChainedPools(world: World)
  {
    forall n, a ::
      n in world.configs && FollowsPool(world, n) && a in Addresses(Leaders(world.configs[n])) && a in world.owner ==>
      !FollowsPool(world, world.owner[a])
  }

  /** Steps left at most, in a world without chained pools. */
  function Rank(world: World, p: Place): nat
  {
    if !p.At? then 0
    else (if FollowsPool(world, p.node) then 2 else 0) + (if p.agent == UserAgent(p.node) then 1 else 2)
  }

  lemma MoveLowersRank(world: World, p: Place, w: Weather, q: Place)
    requires NoChainedPools(world) && p.At? && p.node in world.configs && Possible(world, p, w) && Moves(world, p, w, q)
    ensures Rank(world, q) < Rank(world, p)
    ensures q.At? && q.node != p.node ==> FollowsPool(world, p.node) && !FollowsPool(world, q.node)
    ensures IsForward(p, q) ==> FollowsPool(world, p.node) && q.At? && !FollowsPool(world, q.node)
  {
  }

  lemma {:induction false} CourseIsShort(world: World, path: seq<Place>, ws: seq<Weather>)
    requires NoChainedPools(world) && IsCourse(world, path, ws)
    ensures |ws| <= Rank(world, path[0]) <= 4
    ensures Forwards(path) <= if path[0].At? && FollowsPool(world, path[0].node) then 1 else 0
    decreases |path|
  {
    if |ws| > 0 {
      MoveLowersRank(world, path[0], ws[0], path[1]);
      CourseIsShort(world, path[1..], ws[1..]);
    }
  }

  lemma PathIsShort(world: World, req: Request, path: seq<Place>, ws: seq<Weather>)
    requires NoChainedPools(world) && IsPath(world, req, path, ws)
    ensures |ws| <= Rank(world, path[0]) <= 4
    ensures Forwards(path) <= if path[0].At? && FollowsPool(world, path[0].node) then 1 else 0
  {
    PathIsCourse(world, req, path, ws);
    CourseIsShort(world, path, ws);
  }

  predicate PoolScopedEverywhere(world: World, req: Request)
  {
    (req.verb == "list" || req.verb == "watch") &&
    forall n :: n in world.configs ==> GvrString(req.gvr) in Metadata(world.configs[n])
  }

  predicate LeadersAnswer(world: World)
  {
    forall n, a :: n in world.configs && a in Addresses(Leaders(world.configs[n])) ==>
      a in world.owner && world.owner[a] in world.configs
  }

  function Fine(leader: Option<string>): Weather
  {
    Weather(true, true, leader, true, true)
  }

  lemma StepIsPath(world: World, req: Request, w: Weather, path: seq<Place>, ws: seq<Weather>, p: Place)
    requires IsPath(world, req, path, ws) && p.At? && p.node in world.configs && Possible(world, p, w)
    requires path[0] == Step(world, req, p, w)
    ensures IsPath(world, req, [p] + path, [w] + ws)
    ensures Forwards([p] + path) == (if IsForward(p, path[0]) then 1 else 0) + Forwards(path)
  {
    assert ([p] + path)[1..] == path && ([w] + ws)[1..] == ws;
  }

  lemma MultiplexerStep(world: World, req: Request, n: string, agent: string)
    requires PoolScopedEverywhere(world, req) && n in world.configs && agent != UserAgent(n)
    ensures Step(world, req, At(n, agent), Fine(None)) == At(n, UserAgent(n))
  {
  }

  lemma ForwardStep(world: World, req: Request, n: string, a: string)
    requires PoolScopedEverywhere(world, req) && FollowsPool(world, n) && a in Addresses(Leaders(world.configs[n]))
    requires a in world.owner && world.owner[a] in world.configs
    ensures Possible(world, At(n, UserAgent(n)), Fine(Some(a)))
    ensures Step(world, req, At(n, UserAgent(n)), Fine(Some(a))) == At(world.owner[a], UserAgent(n))
  {
  }

  /** A hub that reads from the pool can forward what it has been asked under its own name. */
  lemma FollowerForwards(world: World, req: Request, n: string, a: string, agent: string)
      returns (path: seq<Place>, ws: seq<Weather>)
    requires PoolScopedEverywhere(world, req) && LeadersAnswer(world)
    requires FollowsPool(world, n) && a in Addresses(Leaders(world.configs[n]))
    ensures IsPath(world, req, path, ws) && path[0] == At(n, agent) && Forwards(path) >= 1
  {
    var self, next := At(n, UserAgent(n)), At(world.owner[a], UserAgent(n));
    ForwardStep(world, req, n, a);
    StepIsPath(world, req, Fine(Some(a)), [next], [], self);
    path, ws := [self] + [next], [Fine(Some(a))] + [];
    if agent != UserAgent(n) {
      MultiplexerStep(world, req, n, agent);
      StepIsPath(world, req, Fine(None), path, ws, At(n, agent));
      path, ws := [At(n, agent)] + path, [Fine(None)] + ws;
    }
  }

  lemma ChainForwardsTwice(world: World, req: Request, n: string, a: string)
      returns (path: seq<Place>, ws: seq<Weather>)
    requires PoolScopedEverywhere(world, req) && LeadersAnswer(world)
    requires FollowsPool(world, n) && a in Addresses(Leaders(world.configs[n])) && FollowsPool(world, world.owner[a])
    ensures IsPath(world, req, path, ws) && Forwards(path) >= 2
  {
    var m := world.owner[a];
    assert Addresses(Leaders(world.configs[m])) != {};
    var b :| b in Addresses(Leaders(world.configs[m]));
    path, ws := FollowerForwards(world, req, m, b, UserAgent(n));
    ForwardStep(world, req, n, a);
    StepIsPath(world, req, Fine(Some(a)), path, ws, At(n, UserAgent(n)));
    path, ws := [At(n, UserAgent(n))] + path, [Fine(Some(a))] + ws;
  }

  ghost predicate ForwardedAtMostOnce(world: World, req: Request)
  {
    forall path, ws :: IsPath(world, req, path, ws) ==> Forwards(path) <= 1
  }

  lemma NoChainForwardsOnce(world: World, req: Request)
    requires NoChainedPools(world)
    ensures ForwardedAtMostOnce(world, req)
  {
    forall path, ws | IsPath(world, req, path, ws) ensures Forwards(path) <= 1
    {
      PathIsShort(world, req, path, ws);
    }
  }

  lemma TwoForwardsRefute(world: World, req: Request, path: seq<Place>, ws: seq<Weather>)
    requires IsPath(world, req, path, ws) && Forwards(path) >= 2
    ensures !ForwardedAtMostOnce(world, req)
  {
  }

  /** A pool-scope request is forwarded between hubs at most once exactly when no pools are chained. */
  lemma ForwardedOnceIff(world: World, req: Request)
    requires PoolScopedEverywhere(world, req) && LeadersAnswer(world)
    ensures ForwardedAtMostOnce(world, req) <==> NoChainedPools(world)
  {
    if NoChainedPools(world) {
      NoChainForwardsOnce(world, req);
    } else {
      var n, a :| n in world.configs && FollowsPool(world, n) && a in Addresses(Leaders(world.configs[n])) &&
          a in world.owner && FollowsPool(world, world.owner[a]);
      var path, ws := ChainForwardsTwice(world, req, n, a);
      TwoForwardsRefute(world, req, path, ws);
    }
  }

  /** All hubs have applied one configmap, and the hub at a leader's address is the leader of that name. */
  predicate Agreed(world: World, data: Data)
  {
    && (forall n :: n in world.configs ==> world.configs[n] == data)
    && (forall l :: l in Leaders(data) && l.address in world.owner ==> world.owner[l.address] == l.name)
  }

  lemma AgreedHasNoChain(world: World, data: Data)
    requires Agreed(world, data)
    ensures NoChainedPools(world)
    ensures forall n :: n in Names(Leaders(data)) ==> !FollowsPool(world, n)
  {
    forall n, a | FollowsPool(world, n) && a in Addresses(Leaders(world.configs[n])) && a in world.owner
      ensures !FollowsPool(world, world.owner[a])
    {
      var l :| l in Leaders(data) && l.address == a;
      assert world.owner[a] in Names(Leaders(data));
    }
  }

  /** The configmap the controller publishes for a pool, applied by all its hubs, is such an agreement. */
  lemma PublishedPoolAgrees(world: World, np: NodePool)
    requires PlainPool(np) && forall n :: n in world.configs ==> world.configs[n] == Published(np)
    requires forall l :: l in np.leaders && l.address in world.owner ==> world.owner[l.address] == l.name
    ensures Agreed(world, Published(np))
  {
    PublishedLeadersParse(np);
  }

  /** The hubs a request has been at. */
  function HubsOn(path: seq<Place>): set<string>
  {
    set i | 0 <= i < |path| && path[i].At? :: path[i].node
  }

  lemma {:induction false} StaysWhenNotPool(world: World, path: seq<Place>, ws: seq<Weather>, i: nat)
    requires NoChainedPools(world) && IsCourse(world, path, ws) && i < |path| && path[i].At?
    requires path[0].At? && !FollowsPool(world, path[0].node)
    ensures path[i].node == path[0].node
    decreases |path|
  {
    if i > 0 {
      StaysWhenNotPool(world, path[1..], ws[1..], i - 1);
    }
  }

  /** Every hub on the way is where the request started, or one leader. */
  lemma {:induction false} VisitsStartAndOneLeader(world: World, data: Data, path: seq<Place>, ws: seq<Weather>)
      returns (leader: string)
    requires Agreed(world, data) && IsCourse(world, path, ws) && path[0].At?
    ensures forall i :: 0 <= i < |path| && path[i].At? ==> path[i].node == path[0].node || path[i].node == leader
    ensures leader != path[0].node ==> leader in Names(Leaders(data)) && FollowsPool(world, path[0].node)
    decreases |path|
  {
    AgreedHasNoChain(world, data);
    leader := path[0].node;
    if |ws| == 0 {
    } else if !path[1].At? {
      assert |ws| == 1;
    } else if path[1].node == path[0].node {
      leader := VisitsStartAndOneLeader(world, data, path[1..], ws[1..]);
      forall i | 0 <= i < |path| && path[i].At? ensures path[i].node == path[0].node || path[i].node == leader
      {
        if i > 0 { assert path[i] == path[1..][i - 1]; }
      }
    } else {
      leader := path[1].node;
      var a := ws[0].leader.value;
      var l :| l in Leaders(data) && l.address == a;
      assert leader == l.name;
      forall i | 0 < i < |path| && path[i].At? ensures path[i].node == leader
      {
        StaysWhenNotPool(world, path[1..], ws[1..], i - 1);
      }
    }
  }

  /**
   * Main result. In a pool that agrees on its configmap every pool-scope
   * request ends after at most four steps, has been at no more than two hubs,
   * the second a leader, and never comes back to where it was.
   */
  lemma RequestEndsAtMostTwoHubsOn(world: World, data: Data, req: Request, path: seq<Place>, ws: seq<Weather>)
      returns (leader: string)
    requires Agreed(world, data) && IsPath(world, req, path, ws) && path[0].At?
    ensures |path| <= 5 && Forwards(path) <= 1
    ensures HubsOn(path) <= {path[0].node, leader}
    ensures leader != path[0].node ==> leader in Names(Leaders(data)) && !FollowsPool(world, leader)
    ensures forall i, j :: 0 <= i < j < |path| ==> path[i] != path[j]
  {
    AgreedHasNoChain(world, data);
    PathIsCourse(world, req, path, ws);
    CourseIsShort(world, path, ws);
    leader := VisitsStartAndOneLeader(world, data, path, ws);
    forall i, j | 0 <= i < j < |path| ensures path[i] != path[j]
    {
      RankFalls(world, path, ws, i, j);
    }
  }

  lemma {:induction false} RankFalls(world: World, path: seq<Place>, ws: seq<Weather>, i: nat, j: nat)
    requires NoChainedPools(world) && IsCourse(world, path, ws) && i < j < |path|
    ensures Rank(world, path[j]) < Rank(world, path[i])
    decreases |path|
  {
    MoveLowersRank(world, path[0], ws[0], path[1]);
    if i > 0 {
      RankFalls(world, path[1..], ws[1..], i - 1, j - 1);
    } else if j > 1 {
      RankFalls(world, path[1..], ws[1..], 0, j - 1);
    }
  }

  lemma AgentsDiffer(a: string, b: string)
    requires a != b
    ensures UserAgent(a) != UserAgent(b)
  {
    assert UserAgent(a)[18..] == a && UserAgent(b)[18..] == b;
  }

  /** A follower n hands its own request to the hub m, which asks on under its own name. */
  lemma HandOver(world: World, req: Request, n: string, a: string, path: seq<Place>, ws: seq<Weather>)
      returns (ws': seq<Weather>)
    requires PoolScopedEverywhere(world, req) && FollowsPool(world, n) && a in Addresses(Leaders(world.configs[n]))
    requires a in world.owner && world.owner[a] in world.configs && world.owner[a] != n
    requires IsPath(world, req, path, ws) && path[0] == At(world.owner[a], UserAgent(world.owner[a]))
    ensures IsPath(world, req, [At(n, UserAgent(n)), At(world.owner[a], UserAgent(n))] + path, ws')
  {
    var m, ua := world.owner[a], UserAgent(n);
    AgentsDiffer(n, m);
    MultiplexerStep(world, req, m, ua);
    StepIsPath(world, req, Fine(None), path, ws, At(m, ua));
    var path1, ws1 := [At(m, ua)] + path, [Fine(None)] + ws;
    ForwardStep(world, req, n, a);
    StepIsPath(world, req, Fine(Some(a)), path1, ws1, At(n, ua));
    ws' := [Fine(Some(a))] + ws1;
    assert [At(n, ua)] + path1 == [At(n, ua), At(m, ua)] + path;
  }

  /** Two hubs that each take the other for the leader pass a request round and round. */
  lemma DisagreeingHubsCycle(world: World, req: Request, a: string, b: string, addrA: string, addrB: string)
      returns (ws: seq<Weather>)
    requires PoolScopedEverywhere(world, req) && a != b
    requires FollowsPool(world, a) && FollowsPool(world, b)
    requires addrB in Addresses(Leaders(world.configs[a])) && addrA in Addresses(Leaders(world.configs[b]))
    requires addrA in world.owner && world.owner[addrA] == a && addrB in world.owner && world.owner[addrB] == b
    ensures IsPath(world, req, Round(a, b), ws)
  {
    var start := [At(a, UserAgent(a))];
    ws := HandOver(world, req, b, addrA, start, []);
    ws := HandOver(world, req, a, addrB, [At(b, UserAgent(b)), At(a, UserAgent(b))] + start, ws);
    RoundIs(a, b);
  }

  lemma RoundIs(a: string, b: string)
    ensures [At(a, UserAgent(a)), At(b, UserAgent(a))] +
            ([At(b, UserAgent(b)), At(a, UserAgent(b))] + [At(a, UserAgent(a))]) ==
            Round(a, b)
  {
  }

  function Round(a: string, b: string): seq<Place>
  {
    [At(a, UserAgent(a)), At(b, UserAgent(a)), At(b, UserAgent(b)), At(a, UserAgent(b)), At(a, UserAgent(a))]
  }

  // ---------- the whole way ----------

  /** The User-Agent is "kubelet" in any case, alone or before a slash. */
  predicate FromKubelet(agent: string)
  {
    && |agent| >= 7 && (|agent| > 7 ==> agent[7] == '/')
    && forall i :: 0 <= i < 7 ==> agent[i] == "kubelet"[i] || agent[i] == "KUBELET"[i]
  }

  lemma {:induction false} BeforeSlashIs(s: string, n: nat)
    requires n <= |s| && '/' !in s[..n] && (n < |s| ==> s[n] == '/')
    ensures BeforeSlash(s) == s[..n]
  {
    if n > 0 {
      assert s[1..][..n - 1] == s[..n][1..] && s[0] == s[..n][0];
      BeforeSlashIs(s[1..], n - 1);
      assert s[..n] == [s[0]] + s[1..][..n - 1];
    }
  }

  lemma {:induction false} BeforeSlashEnds(s: string)
    ensures var t := BeforeSlash(s); t <= s && '/' !in t && (|t| < |s| ==> s[|t|] == '/')
  {
    if s != "" && s[0] != '/' { BeforeSlashEnds(s[1..]); }
  }

  lemma LowerOfKubelet(c: char, i: nat)
    requires i < 7
    ensures LowerChar(c) == "kubelet"[i] <==> c == "kubelet"[i] || c == "KUBELET"[i]
  {
  }

  lemma ComponentIsKubeletIff(agent: string)
    ensures Component(agent) == Some("kubelet") <==> FromKubelet(agent)
  {
    var s := Lower(agent);
    BeforeSlashEnds(s);
    forall i | 0 <= i < |agent| && i < 7
      ensures s[i] == "kubelet"[i] <==> agent[i] == "kubelet"[i] || agent[i] == "KUBELET"[i]
    {
      LowerOfKubelet(agent[i], i);
    }
    if FromKubelet(agent) {
      assert s[..7] == "kubelet";
      BeforeSlashIs(s, 7);
    }
    if Component(agent) == Some("kubelet") {
      assert BeforeSlash(s) == "kubelet" <= s;
      forall i | 0 <= i < 7 ensures s[i] == "kubelet"[i] { assert s[..7][i] == s[i]; }
    }
  }

  /** A hub's own requests are not the kubelet's. */
  lemma HubIsNotKubelet(node: string)
    ensures Component(UserAgent(node)) != Some("kubelet")
  {
    ComponentIsKubeletIff(UserAgent(node));
    assert UserAgent(node)[0] == 'm';
  }

  /**
   * Where a hub that does not take the request for pool-scope metadata, or has
   * to forward it and finds no leader, sends it: by what it asks for and who
   * asks, and by what the hub finds.
   */
  predicate EndsBy(p: Place, req: Request, agent: string, w: Weather)
  {
    var lease := FromKubelet(agent) && req.gvr.resource == "leases";
    var getNode := FromKubelet(agent) && req.gvr.resource == "nodes" && req.verb == "get";
    var review := FromKubelet(agent) && req.gvr.resource == "subjectaccessreviews" && req.verb in {"create", "get"};
    && (p == AutonomyProxy <==> w.edge && getNode)
    && (p == CloudApi <==> w.cloud && !(w.edge && (lease || getNode)))
    && (p == LocalCache <==> w.edge && (lease || (!w.cloud && !getNode && !review)))
    && (p == Refused <==> !w.cloud && (!w.edge || review))
  }

  lemma OtherEndsBy(req: Request, agent: string, w: Weather)
    ensures EndsBy(ServeOther(req, agent, w), req, agent, w)
  {
    ComponentIsKubeletIff(agent);
  }

  /** The hub has elected leaders to follow, and is none of them. */
  predicate Follower(np: NodePool, node: string)
  {
    np.enableLeaderElection && np.leaders != [] && forall l :: l in np.leaders ==> l.name != node
  }

  predicate IsPoolScope(np: NodePool, req: Request)
  {
    (req.verb == "list" || req.verb == "watch") && req.gvr in np.metadata
  }

  /** All hubs have applied what the controller published for the pool, and the leaders' addresses are theirs. */
  predicate Settled(world: World, np: NodePool)
  {
    && PlainPool(np) && (forall n :: n in world.configs ==> world.configs[n] == Published(np))
    && (forall l :: l in np.leaders && l.address in world.owner ==> world.owner[l.address] == l.name)
  }

  lemma SettledHub(world: World, np: NodePool, req: Request, node: string)
    requires Settled(world, np) && node in world.configs
    requires Plain(req.gvr.group) && Plain(req.gvr.version) && Plain(req.gvr.resource)
    ensures FollowsPool(world, node) <==> Follower(np, node)
    ensures GvrString(req.gvr) in Metadata(world.configs[node]) <==> req.gvr in np.metadata
  {
    PublishedSource(np, node);
    PoolScopedExactly(Env(node, map[]), np, req.gvr);
    assert Wanted(Env(node, map[]), Published(np)).metadata == Metadata(world.configs[node]);
  }

  lemma PathStarts(world: World, req: Request, path: seq<Place>, ws: seq<Weather>)
    requires IsPath(world, req, path, ws) && path[0].At? && !path[|path| - 1].At?
    ensures |ws| > 0 && Possible(world, path[0], ws[0]) && path[1] == Step(world, req, path[0], ws[0])
    ensures IsPath(world, req, path[1..], ws[1..]) && path[1..][|path| - 2] == path[|path| - 1]
    ensures !path[1].At? ==> path == [path[0], path[1]]
  {
  }

  /** A request under the hub's own name that it does not pass to a leader ends there. */
  lemma EndsAtHub(world: World, np: NodePool, req: Request, path: seq<Place>, ws: seq<Weather>)
    requires Settled(world, np) && IsPath(world, req, path, ws) && !path[|path| - 1].At?
    requires path[0].At? && path[0].agent == UserAgent(path[0].node)
    requires Plain(req.gvr.group) && Plain(req.gvr.version) && Plain(req.gvr.resource)
    requires |ws| > 0 && !(Follower(np, path[0].node) && ws[0].leader.Some?)
    ensures |path| == 2 && EndsBy(path[1], req, path[0].agent, ws[0])
  {
    PathStarts(world, req, path, ws);
    SettledHub(world, np, req, path[0].node);
    OtherEndsBy(req, path[0].agent, ws[0]);
    HubIsNotKubelet(path[0].node);
    ComponentIsKubeletIff(path[0].agent);
  }

  /** From hub n under its own name to the leader, which asks on under its own and sends it to its end. */
  predicate ThroughLeader(req: Request, l: Leader, n: string, path: seq<Place>, ws: seq<Weather>)
  {
    && |path| == 4 && |ws| == 3 && ws[0].leader == Some(l.address)
    && path[1] == At(l.name, UserAgent(n)) && path[2] == At(l.name, UserAgent(l.name))
    && EndsBy(path[3], req, UserAgent(l.name), ws[2])
  }

  /**
   * The course of a client's request in a settled pool, with hubs that are
   * ready: past the multiplexer if the resource is pool-scope, through one
   * leader if the hub is a follower and a leader is healthy, and then where the
   * last hub sends it; the kubelet's leases, its own node and its access
   * reviews have rules of their own there.
   */
  lemma CourseOfRequest(world: World, np: NodePool, req: Request, path: seq<Place>, ws: seq<Weather>)
    requires Settled(world, np) && IsPath(world, req, path, ws) && !path[|path| - 1].At?
    requires path[0].At? && path[0].agent != UserAgent(path[0].node)
    requires Plain(req.gvr.group) && Plain(req.gvr.version) && Plain(req.gvr.resource)
    requires forall i :: 0 <= i < |ws| ==> ws[i].ready && ws[i].cacherReady
    ensures var n := path[0].node;
            if !IsPoolScope(np, req) then
              |path| == 2 && EndsBy(path[1], req, path[0].agent, ws[0])
            else
              && |ws| >= 2 && path[1] == At(n, UserAgent(n))
              && if Follower(np, n) && ws[1].leader.Some? then
                   |path| == 5 && exists l :: l in np.leaders && ThroughLeader(req, l, n, path[1..], ws[1..])
                 else |path| == 3 && EndsBy(path[2], req, UserAgent(n), ws[1])
  {
    var n := path[0].node;
    PathStarts(world, req, path, ws);
    SettledHub(world, np, req, n);
    OtherEndsBy(req, path[0].agent, ws[0]);
    if IsPoolScope(np, req) {
      var path1, ws1 := path[1..], ws[1..];
      PathStarts(world, req, path1, ws1);
      if Follower(np, n) && ws[1].leader.Some? {
        var l := LeaderTakesOver(world, np, req, path1, ws1);
      } else {
        EndsAtHub(world, np, req, path1, ws1);
        assert path[2] == path1[1];
      }
    }
  }

  /** A leader asked by hub n asks on under its own name, and that ends the course. */
  lemma LeaderServes(world: World, np: NodePool, req: Request, n: string, path: seq<Place>, ws: seq<Weather>)
    requires Settled(world, np) && IsPath(world, req, path, ws) && !path[|path| - 1].At?
    requires path[0].At? && path[0].agent == UserAgent(n) && path[0].node != n
    requires IsPoolScope(np, req) && !Follower(np, path[0].node)
    requires Plain(req.gvr.group) && Plain(req.gvr.version) && Plain(req.gvr.resource)
    requires forall i :: 0 <= i < |ws| ==> ws[i].ready && ws[i].cacherReady
    ensures |path| == 3 && path[1] == At(path[0].node, UserAgent(path[0].node))
    ensures EndsBy(path[2], req, UserAgent(path[0].node), ws[1])
  {
    var l := path[0].node;
    AgentsDiffer(n, l);
    SettledHub(world, np, req, l);
    PathStarts(world, req, path, ws);
    var path1, ws1 := path[1..], ws[1..];
    assert path1[0] == At(l, UserAgent(l));
    PathStarts(world, req, path1, ws1);
    EndsAtHub(world, np, req, path1, ws1);
    assert path[2] == path1[1];
  }

  lemma LeaderIsNoFollower(np: NodePool, n: string, l: Leader)
    requires Follower(np, n) && l in np.leaders
    ensures l.name != n && !Follower(np, l.name)
  {
  }

  /** A follower's own request goes to the leader it has picked. */
  lemma FollowerAsks(world: World, np: NodePool, req: Request, path: seq<Place>, ws: seq<Weather>) returns (l: Leader)
    requires Settled(world, np) && IsPath(world, req, path, ws) && !path[|path| - 1].At?
    requires path[0].At? && path[0].agent == UserAgent(path[0].node)
    requires Follower(np, path[0].node) && IsPoolScope(np, req)
    requires Plain(req.gvr.group) && Plain(req.gvr.version) && Plain(req.gvr.resource)
    requires |ws| > 0 && ws[0].leader.Some?
    ensures l in np.leaders && ws[0].leader == Some(l.address) && path[1] == At(l.name, UserAgent(path[0].node))
  {
    PathStarts(world, req, path, ws);
    SettledHub(world, np, req, path[0].node);
    PublishedLeadersParse(np);
    l :| l in Leaders(Published(np)) && l.address == ws[0].leader.value;
  }

  lemma LeaderTakesOver(world: World, np: NodePool, req: Request, path: seq<Place>, ws: seq<Weather>)
      returns (l: Leader)
    requires Settled(world, np) && IsPath(world, req, path, ws) && !path[|path| - 1].At?
    requires path[0].At? && path[0].agent == UserAgent(path[0].node)
    requires Follower(np, path[0].node) && IsPoolScope(np, req)
    requires Plain(req.gvr.group) && Plain(req.gvr.version) && Plain(req.gvr.resource)
    requires forall i :: 0 <= i < |ws| ==> ws[i].ready && ws[i].cacherReady
    requires |ws| > 0 && ws[0].leader.Some?
    ensures l in np.leaders && ThroughLeader(req, l, path[0].node, path, ws)
  {
    var n := path[0].node;
    l := FollowerAsks(world, np, req, path, ws);
    LeaderIsNoFollower(np, n, l);
    PathStarts(world, req, path, ws);
    var path1, ws1 := path[1..], ws[1..];
    assert path1[0] == At(l.name, UserAgent(n)) && path1[|path1| - 1] == path[|path| - 1];
    forall i | 0 <= i < |ws1| ensures ws1[i].ready && ws1[i].cacherReady { assert ws1[i] == ws[i + 1]; }
    LeaderServes(world, np, req, n, path1, ws1);
    assert path[2] == path1[1] && path[3] == path1[2] && ws[2] == ws1[1];
  }

  /**
   * A hub turns a request away exactly when it comes from outside before the
   * hub is ready, when the multiplexer's cache is not, or when nothing is left
   * to ask: no leader, no API server and, but for the kubelet's access reviews,
   * which the local cache does not answer, no local proxy either.
   */
  lemma TurnedAwayIff(world: World, req: Request, p: Place, w: Weather)
    requires p.At? && p.node in world.configs && Possible(world, p, w)
    ensures var scoped := req.verb in {"list", "watch"} && GvrString(req.gvr) in Metadata(world.configs[p.node]);
            var own := p.agent == UserAgent(p.node);
            var review := FromKubelet(p.agent) && req.gvr.resource == "subjectaccessreviews" &&
                req.verb in {"create", "get"};
            Step(world, req, p, w) == Refused <==>
            || (!own && !("yurthub" <= p.agent) && !w.ready)
            || (scoped && !own && !w.cacherReady)
            || (!(scoped && !own) && !w.cloud && (!w.edge || review) &&
                !(scoped && FollowsPool(world, p.node) && w.leader.Some?))
  {
    ComponentIsKubeletIff(p.agent);
  }

  /** The kubelet's leases never leave a hub in edge mode, whatever the weather in the cloud. */
  lemma LeaseStaysAtTheEdge(world: World, req: Request, p: Place, w: Weather)
    requires p.At? && p.node in world.configs && Possible(world, p, w) && w.ready && w.edge
    requires FromKubelet(p.agent) && req.gvr.resource == "leases"
    requires req.verb in {"list", "watch"} ==> GvrString(req.gvr) !in Metadata(world.configs[p.node])
    ensures Step(world, req, p, w) == LocalCache
  {
    ComponentIsKubeletIff(p.agent);
  }
}
