/**
 * The local load balancer's list of API server addresses, kept up to date from
 * the add and update events of Endpoints objects.
 */
module LocalLB {
  import opened Collections
  import opened Strs
  import Iptables

  /** Ports as they are printed. */
  datatype Subset = Subset(ips: seq<string>, ports: seq<string>)

  type Endpoints = seq<Subset>

  // ---------- addresses of an Endpoints object ----------

  function WithPorts(ip: string, ports: seq<string>): seq<string>
  {
    seq(|ports|, i requires 0 <= i < |ports| => ip + ":" + ports[i])
  }

  function SubsetAddrs(ips: seq<string>, ports: seq<string>): seq<string>
  {
    if ips == [] then [] else SubsetAddrs(ips[..|ips| - 1], ports) + WithPorts(ips[|ips| - 1], ports)
  }

  function AddrsOf(eps: Endpoints): seq<string>
  {
    if eps == [] then [] else AddrsOf(eps[..|eps| - 1]) + SubsetAddrs(eps[|eps| - 1].ips, eps[|eps| - 1].ports)
  }

  /** The nested loops shared by the event handlers. */
  method CollectAddrs(eps: Endpoints) returns (addrs: seq<string>)
    ensures addrs == AddrsOf(eps)
  {
    addrs := [];
    for s := 0 to |eps|
      invariant addrs == AddrsOf(eps[..s])
    {
      var ips, ports := eps[s].ips, eps[s].ports;
      var own: seq<string> := [];
      for a := 0 to |ips|
        invariant own == SubsetAddrs(ips[..a], ports)
      {
        ghost var before := own;
        for p := 0 to |ports|
          invariant own == before + WithPorts(ips[a], ports)[..p]
        {
          own := own + [ips[a] + ":" + ports[p]];
        }
        assert WithPorts(ips[a], ports)[..|ports|] == WithPorts(ips[a], ports);
        assert ips[..a + 1][..a] == ips[..a];
      }
      assert ips[..|ips|] == ips;
      assert eps[..s + 1][..s] == eps[..s];
      addrs := addrs + own;
    }
    assert eps[..|eps|] == eps;
  }

  /** Address by address and, for each, port by port. */
  lemma {:induction false} SubsetAddrsConcat(first: seq<string>, more: seq<string>, ports: seq<string>)
    ensures SubsetAddrs(first + more, ports) == SubsetAddrs(first, ports) + SubsetAddrs(more, ports)
    ensures forall ip :: |SubsetAddrs([ip], ports)| == |ports| &&
              forall i :: 0 <= i < |ports| ==> SubsetAddrs([ip], ports)[i] == ip + ":" + ports[i]
    decreases |more|
  {
    forall ip ensures SubsetAddrs([ip], ports) == WithPorts(ip, ports)
    {
      assert [ip][..0] == [];
    }
    if more == [] {
      assert first + more == first;
    } else {
      SubsetAddrsConcat(first, more[..|more| - 1], ports);
      assert (first + more)[..|first + more| - 1] == first + more[..|more| - 1];
    }
  }

  /** Subset by subset. */
  lemma {:induction false} AddrsOfConcat(first: Endpoints, more: Endpoints)
    ensures AddrsOf(first + more) == AddrsOf(first) + AddrsOf(more)
    ensures forall s: Subset :: AddrsOf([s]) == SubsetAddrs(s.ips, s.ports)
    decreases |more|
  {
    forall s: Subset ensures AddrsOf([s]) == SubsetAddrs(s.ips, s.ports)
    {
      assert [s][..0] == [];
    }
    if more == [] {
      assert first + more == first;
    } else {
      AddrsOfConcat(first, more[..|more| - 1]);
      assert (first + more)[..|first + more| - 1] == first + more[..|more| - 1];
    }
  }

  // ---------- the tracked list ----------

  function Without(addrs: seq<string>, gone: seq<string>): seq<string>
  {
    if addrs == [] then []
    else Without(addrs[..|addrs| - 1], gone) + if addrs[|addrs| - 1] in gone then [] else [addrs[|addrs| - 1]]
  }

  function AfterAdd(tracked: seq<string>, eps: Endpoints): seq<string>
  {
    tracked + AddrsOf(eps)
  }

  /**
   * updateEndpoints: nothing when the sorted addresses agree, else drop every
   * old address and append the new, sorted.
   */
  function AfterUpdate(tracked: seq<string>, oldEps: Endpoints, newEps: Endpoints): seq<string>
  {
    if Sort(AddrsOf(oldEps)) == Sort(AddrsOf(newEps)) then tracked
    else Without(tracked, AddrsOf(oldEps)) + Sort(AddrsOf(newEps))
  }

  lemma {:induction false} WithoutCounts(addrs: seq<string>, gone: seq<string>, x: string)
    ensures multiset(Without(addrs, gone))[x] == if x in gone then 0 else multiset(addrs)[x]
  {
    if addrs != [] {
      WithoutCounts(addrs[..|addrs| - 1], gone, x);
      assert addrs == addrs[..|addrs| - 1] + [addrs[|addrs| - 1]];
    }
  }

  /** Each address stays or goes by itself, and what stays keeps its order. */
  lemma {:induction false} WithoutConcat(first: seq<string>, more: seq<string>, gone: seq<string>)
    ensures Without(first + more, gone) == Without(first, gone) + Without(more, gone)
    decreases |more|
  {
    if more == [] {
      assert first + more == first;
    } else {
      WithoutConcat(first, more[..|more| - 1], gone);
      assert (first + more)[..|first + more| - 1] == first + more[..|more| - 1];
    }
  }

  /** Several objects share one list: mine is what one of them contributes, rest what the others do. */
  predicate Tracks(tracked: seq<string>, mine: seq<string>, rest: multiset<string>)
  {
    multiset(tracked) == multiset(mine) + rest
  }

  /**
   * An update keeps the list right exactly when the addresses did not change or
   * the object shares none of its old ones with another object.
   */
  lemma UpdateTracksIff(tracked: seq<string>, oldEps: Endpoints, newEps: Endpoints, rest: multiset<string>)
    requires Tracks(tracked, AddrsOf(oldEps), rest)
    ensures Tracks(AfterUpdate(tracked, oldEps, newEps), AddrsOf(newEps), rest) <==>
            multiset(AddrsOf(oldEps)) == multiset(AddrsOf(newEps)) || (forall x :: x in AddrsOf(oldEps) ==> x !in rest)
  {
    var before, now := AddrsOf(oldEps), AddrsOf(newEps);
    SortDecidesMultisetEquality(before, now);
    if multiset(before) != multiset(now) {
      var kept := Without(tracked, before);
      var after := AfterUpdate(tracked, oldEps, newEps);
      assert multiset(after) == multiset(kept) + multiset(now);
      forall x ensures multiset(kept)[x] == if x in before then 0 else rest[x]
      {
        WithoutCounts(tracked, before, x);
        if x !in before { assert multiset(before)[x] == 0; }
      }
      if forall x :: x in before ==> x !in rest {
        assert multiset(kept) == rest;
      } else {
        var x :| x in before && x in rest;
        assert multiset(kept)[x] == 0;
        assert multiset(after)[x] == multiset(now)[x];
      }
    }
  }

  lemma UpdateTracksAlone(tracked: seq<string>, oldEps: Endpoints, newEps: Endpoints)
    requires multiset(tracked) == multiset(AddrsOf(oldEps))
    ensures multiset(AfterUpdate(tracked, oldEps, newEps)) == multiset(AddrsOf(newEps))
  {
    var nobody: multiset<string> := multiset{};
    assert multiset(AddrsOf(oldEps)) + nobody == multiset(AddrsOf(oldEps));
    assert multiset(AddrsOf(newEps)) + nobody == multiset(AddrsOf(newEps));
    UpdateTracksIff(tracked, oldEps, newEps, nobody);
  }

  function Latest(first: Endpoints, updates: seq<Endpoints>): Endpoints
  {
    if updates == [] then first else updates[|updates| - 1]
  }

  /** The list after an add of first and updates, each from the version before. */
  function TrackAll(first: Endpoints, updates: seq<Endpoints>): seq<string>
  {
    if updates == [] then AfterAdd([], first)
    else
      var front := updates[..|updates| - 1];
      AfterUpdate(TrackAll(first, front), Latest(first, front), updates[|updates| - 1])
  }

  lemma AddTracksAlone(eps: Endpoints)
    ensures AfterAdd([], eps) == AddrsOf(eps)
  {
  }

  /** For one Endpoints object, after its add and any chain of updates, the list holds exactly the latest addresses. */
  lemma {:induction false} TrackedIsLatest(first: Endpoints, updates: seq<Endpoints>)
    ensures multiset(TrackAll(first, updates)) == multiset(AddrsOf(Latest(first, updates)))
  {
    if updates == [] {
      AddTracksAlone(first);
    } else {
      var front := updates[..|updates| - 1];
      TrackedIsLatest(first, front);
      UpdateTracksAlone(TrackAll(first, front), Latest(first, front), updates[|updates| - 1]);
    }
  }

  /**
   * From the event to the packet: after an add and any chain of updates, and
   * whatever failed before, when the rules are set each address of the latest
   * Endpoints gets exactly its share of the packets.
   */
  lemma LatestAddressesGetTheirShare(
      t: Iptables.Table, svc: Option<Iptables.Service>, first: Endpoints, updates: seq<Endpoints>,
      fails: Iptables.Faults, addr: string)
    requires var tracked := TrackAll(first, updates);
             Iptables.Sane(t) && tracked != [] && Iptables.Update(t, svc, tracked, fails).0
    ensures var latest := AddrsOf(Latest(first, updates));
            && latest != [] && Iptables.Update(t, svc, TrackAll(first, updates), fails).1.chain.Some?
            && var rules := Iptables.Update(t, svc, TrackAll(first, updates), fails).1.chain.value;
               Iptables.Share(rules, addr, |rules|) == multiset(latest)[addr] as real / |latest| as real
  {
    var tracked, latest := TrackAll(first, updates), AddrsOf(Latest(first, updates));
    TrackedIsLatest(first, updates);
    assert |multiset(tracked)| == |tracked| && |multiset(latest)| == |latest|;
    Iptables.UpdateBalances(t, svc, tracked, fails, addr);
  }

  // ---------- the object ----------

  class LocalLBManager {
    const service: Option<Iptables.Service>
    const ipt: Iptables.IptablesManager
    var apiserverAddrs: seq<string>

    constructor (svc: Option<Iptables.Service>, manager: Iptables.IptablesManager)
      ensures service == svc && ipt == manager && apiserverAddrs == []
    {
      service, ipt, apiserverAddrs := svc, manager, [];
    }

    /** The rules say what the list says, unless iptables failed on the way. */
    method AddEndpoints(eps: Endpoints, fails: Iptables.Faults) returns (ghost ok: bool)
      requires Iptables.Sane(ipt.table)
      modifies this, ipt
      ensures Iptables.Sane(ipt.table)
      ensures apiserverAddrs == AfterAdd(old(apiserverAddrs), eps) == old(apiserverAddrs) + AddrsOf(eps)
      ensures (ok, ipt.table) == Iptables.Update(old(ipt.table), service, apiserverAddrs, fails)
      ensures ok ==> Mirrors()
    {
      var addrs := CollectAddrs(eps);
      apiserverAddrs := apiserverAddrs + addrs;
      var done := ipt.UpdateIptablesRules(service, apiserverAddrs, fails);
      ok := done;
    }

    method UpdateEndpoints(oldEps: Endpoints, newEps: Endpoints, fails: Iptables.Faults) returns (ghost ok: bool)
      requires Iptables.Sane(ipt.table)
      modifies this, ipt
      ensures Iptables.Sane(ipt.table)
      ensures apiserverAddrs == AfterUpdate(old(apiserverAddrs), oldEps, newEps)
      ensures apiserverAddrs == if multiset(AddrsOf(oldEps)) == multiset(AddrsOf(newEps)) then old(apiserverAddrs)
                                else Without(old(apiserverAddrs), AddrsOf(oldEps)) + Sort(AddrsOf(newEps))
      ensures Sort(AddrsOf(oldEps)) == Sort(AddrsOf(newEps)) ==> ok && ipt.table == old(ipt.table)
      ensures Sort(AddrsOf(oldEps)) != Sort(AddrsOf(newEps)) ==>
                (ok, ipt.table) == Iptables.Update(old(ipt.table), service, apiserverAddrs, fails)
      ensures old(Mirrors()) && ok ==> Mirrors()
    {
      ok := true;
      SortDecidesMultisetEquality(AddrsOf(oldEps), AddrsOf(newEps));
      var oldAddrs := CollectAddrs(oldEps);
      var newAddrs := CollectAddrs(newEps);
      var oldSorted, newSorted := Sort(oldAddrs), Sort(newAddrs);
      if oldSorted != newSorted {
        SameWithout(apiserverAddrs, oldAddrs);
        DeleteOldApiserverAddrs(oldSorted);
        apiserverAddrs := apiserverAddrs + newSorted;
        var done := ipt.UpdateIptablesRules(service, apiserverAddrs, fails);
        ok := done;
      }
    }

    method DeleteOldApiserverAddrs(itemsToRemove: seq<string>)
      modifies this`apiserverAddrs
      ensures apiserverAddrs == Without(old(apiserverAddrs), itemsToRemove)
    {
      var removeMap: set<string> := {};
      for i := 0 to |itemsToRemove|
        invariant unchanged(this)
        invariant removeMap == set x | x in itemsToRemove[..i]
      {
        assert itemsToRemove[..i + 1] == itemsToRemove[..i] + [itemsToRemove[i]];
        removeMap := removeMap + {itemsToRemove[i]};
      }
      assert itemsToRemove[..|itemsToRemove|] == itemsToRemove;
      var res: seq<string> := [];
      for i := 0 to |apiserverAddrs|
        invariant unchanged(this)
        invariant res == Without(apiserverAddrs[..i], itemsToRemove)
      {
        assert apiserverAddrs[..i + 1][..i] == apiserverAddrs[..i];
        if apiserverAddrs[i] !in removeMap {
          res := res + [apiserverAddrs[i]];
        }
      }
      assert apiserverAddrs[..|apiserverAddrs|] == apiserverAddrs;
      apiserverAddrs := res;
    }

    /** One DNAT rule per tracked address, in order, in a chain that OUTPUT jumps to once. */
    predicate Mirrors()
      reads this, ipt
    {
      && service.Some? && Iptables.Linked(ipt.table)
      && ipt.table.chain == Some(Iptables.RulesFor(service.value, apiserverAddrs, |apiserverAddrs|))
    }
  }

  lemma {:induction false} SameWithout(addrs: seq<string>, gone: seq<string>)
    ensures Without(addrs, Sort(gone)) == Without(addrs, gone)
  {
    if addrs != [] {
      SameWithout(addrs[..|addrs| - 1], gone);
      var x := addrs[|addrs| - 1];
      assert x in Sort(gone) <==> x in multiset(Sort(gone));
      assert x in gone <==> x in multiset(gone);
    }
  }
}
