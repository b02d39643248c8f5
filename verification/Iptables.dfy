/**
 * The nat rules of the local load balancer: a chain LBCHAIN with one DNAT rule
 * per API server and a jump to it from OUTPUT, rebuilt by calls to iptables any
 * of which may fail.
 */
module Iptables {
  import opened Collections

  datatype Service = Service(ip: string, port: string)

  /** -d ip -p tcp --dport port -m statistic --mode random --probability p -j DNAT --to-destination addr */
  datatype Rule = Rule(service: Service, probability: real, destination: string)

  datatype OutputRule = Jump | Other(id: nat)

  /** The part of the nat table in play: LBCHAIN, if it exists, and OUTPUT. */
  datatype Table = Table(chain: Option<seq<Rule>>, output: seq<OutputRule>)

  /** The calls one update makes; each may be made to fail. */
  datatype Call =
    | CheckToClean | Flush | DropJump | DropChain
    | CheckToAdd | NewChain | AddJump | AddRule(index: nat)

  type Faults = Call -> bool

  // ---------- iptables ----------

  function Jumps(output: seq<OutputRule>): nat
  {
    if output == [] then 0 else (if output[0].Jump? then 1 else 0) + Jumps(output[1..])
  }

  function Others(output: seq<OutputRule>): seq<OutputRule>
  {
    if output == [] then [] else (if output[0].Jump? then [] else [output[0]]) + Others(output[1..])
  }

  /**
   * Others lists the rules that are not jumps, each as often as OUTPUT has it
   * and in OUTPUT's order; the rest are jumps.
   */
  lemma {:induction false} OthersConcat(a: seq<OutputRule>, b: seq<OutputRule>)
    ensures Others(a + b) == Others(a) + Others(b) && Jumps(a + b) == Jumps(a) + Jumps(b)
  {
    if a == [] {
      assert a + b == b;
    } else {
      assert (a + b)[1..] == a[1..] + b;
      OthersConcat(a[1..], b);
    }
  }

  lemma OthersOfOne(rule: OutputRule)
    ensures Others([rule]) == (if rule.Jump? then [] else [rule]) && Jumps([rule]) == if rule.Jump? then 1 else 0
  {
    assert [rule][1..] == [];
    assert Others([rule]) == (if rule.Jump? then [] else [rule]) + Others([rule][1..]);
  }

  /** iptables -D removes the first match. */
  function DropFirstJump(output: seq<OutputRule>): seq<OutputRule>
  {
    if output == [] then []
    else if output[0].Jump? then output[1..]
    else [output[0]] + DropFirstJump(output[1..])
  }

  lemma {:induction false} DropFirstJumpEffect(output: seq<OutputRule>)
    ensures Others(DropFirstJump(output)) == Others(output)
    ensures Jumps(DropFirstJump(output)) == if Jumps(output) == 0 then 0 else Jumps(output) - 1
  {
    if output != [] && !output[0].Jump? {
      DropFirstJumpEffect(output[1..]);
      var dropped := DropFirstJump(output);
      assert dropped[0] == output[0] && dropped[1..] == DropFirstJump(output[1..]);
    } else if output != [] {
      assert Others(output) == Others(output[1..]);
    }
  }

  lemma {:induction false} AppendJumpEffect(output: seq<OutputRule>)
    ensures Others(output + [Jump]) == Others(output) && Jumps(output + [Jump]) == Jumps(output) + 1
  {
    if output != [] {
      AppendJumpEffect(output[1..]);
      assert (output + [Jump])[1..] == output[1..] + [Jump];
    }
  }

  // ---------- the updates ----------

  /**
   * cleanIptablesRules: flush the chain, drop the jump, drop the chain; a
   * missing jump, or a chain in use or with rules, is an error.
   */
  function Clean(t: Table, fails: Faults): (bool, Table)
  {
    if fails(CheckToClean) then (false, t)
    else if t.chain.None? then (true, t)
    else if fails(Flush) then (false, t)
    else
      var flushed := t.(chain := Some([]));
      if fails(DropJump) || Jumps(t.output) == 0 then (false, flushed)
      else
        var unlinked := flushed.(output := DropFirstJump(t.output));
        if fails(DropChain) || Jumps(unlinked.output) > 0 || unlinked.chain != Some([]) then (false, unlinked)
        else (true, unlinked.(chain := None))
  }

  /** getRandomBalancingProbability. */
  function Probability(n: nat, i: nat): real
    requires i < n
  {
    1.0 / (n - i) as real
  }

  function RuleFor(svc: Service, addrs: seq<string>, i: nat): Rule
    requires i < |addrs|
  {
    Rule(svc, Probability(|addrs|, i), addrs[i])
  }

  function RulesFor(svc: Service, addrs: seq<string>, n: nat): seq<Rule>
    requires n <= |addrs|
  {
    seq(n, i requires 0 <= i < n => RuleFor(svc, addrs, i))
  }

  /** The appends from index i on, up to the first that fails. */
  function AddRules(t: Table, svc: Service, addrs: seq<string>, i: nat, fails: Faults): (bool, Table)
    requires t.chain.Some? && i <= |addrs|
    decreases |addrs| - i
  {
    if i == |addrs| then (true, t)
    else if fails(AddRule(i)) then (false, t)
    else AddRules(t.(chain := Some(t.chain.value + [RuleFor(svc, addrs, i)])), svc, addrs, i + 1, fails)
  }

  /** addIptablesRules; svc is None when tenantKasService does not split into host and port. */
  function Add(t: Table, svc: Option<Service>, addrs: seq<string>, fails: Faults): (bool, Table)
  {
    if fails(CheckToAdd) then (false, t)
    else if t.chain.None? && fails(NewChain) then (false, t)
    else if t.chain.None? && fails(AddJump) then (false, t.(chain := Some([])))
    else
      var linked := if t.chain.None? then Table(Some([]), t.output + [Jump]) else t;
      if svc.None? then (false, linked) else AddRules(linked, svc.value, addrs, 0, fails)
  }

  function Update(t: Table, svc: Option<Service>, addrs: seq<string>, fails: Faults): (bool, Table)
  {
    var (ok, cleaned) := Clean(t, fails);
    if ok then Add(cleaned, svc, addrs, fails) else (false, cleaned)
  }

  // ---------- states ----------

  /** The chain exists exactly when OUTPUT has one jump to it, and never more than one. */
  predicate Linked(t: Table)
  {
    Jumps(t.output) == if t.chain.Some? then 1 else 0
  }

  /** The chain exists but nothing jumps to it. */
  predicate Dangling(t: Table)
  {
    t.chain.Some? && Jumps(t.output) == 0
  }

  /** The states failures can lead to from a table the manager has not touched yet. */
  predicate Sane(t: Table)
  {
    Linked(t) || Dangling(t)
  }

  lemma CleanEffect(t: Table, fails: Faults)
    requires Sane(t)
    ensures var (ok, t') := Clean(t, fails);
            && Others(t'.output) == Others(t.output)
            && (ok ==> t'.chain.None? && Linked(t'))
            && Sane(t')
            && (Dangling(t) ==> !ok && Dangling(t'))
            && (Linked(t) && Dangling(t') ==> fails(DropChain))
  {
    DropFirstJumpEffect(t.output);
  }

  lemma {:induction false} AddRulesEffect(t: Table, svc: Service, addrs: seq<string>, i: nat, fails: Faults)
    requires i <= |addrs| && t.chain == Some(RulesFor(svc, addrs, i))
    ensures var (ok, t') := AddRules(t, svc, addrs, i, fails);
            && t'.output == t.output && t'.chain.Some?
            && (ok ==> t'.chain == Some(RulesFor(svc, addrs, |addrs|)))
            && (ok <==> forall j :: i <= j < |addrs| ==> !fails(AddRule(j)))
            && (forall k :: i <= k < |addrs| && fails(AddRule(k)) && (forall j :: i <= j < k ==> !fails(AddRule(j))) ==>
                  t'.chain == Some(RulesFor(svc, addrs, k)))
    decreases |addrs| - i
  {
    if i < |addrs| && !fails(AddRule(i)) {
      var t1 := t.(chain := Some(t.chain.value + [RuleFor(svc, addrs, i)]));
      assert t1.chain.value == RulesFor(svc, addrs, i + 1);
      AddRulesEffect(t1, svc, addrs, i + 1, fails);
    }
  }

  lemma AddEffect(t: Table, svc: Option<Service>, addrs: seq<string>, fails: Faults)
    requires t.chain.None? && Linked(t)
    ensures var (ok, t') := Add(t, svc, addrs, fails);
            && Others(t'.output) == Others(t.output)
            && Sane(t')
            && (ok ==> svc.Some? && Linked(t') && t'.chain == Some(RulesFor(svc.value, addrs, |addrs|)))
            && (Dangling(t') ==> fails(AddJump))
            && (ok <==> !fails(CheckToAdd) && !fails(NewChain) && !fails(AddJump) && svc.Some? &&
                        forall j :: 0 <= j < |addrs| ==> !fails(AddRule(j)))
  {
    AppendJumpEffect(t.output);
    if svc.Some? {
      var linked := Table(Some([]), t.output + [Jump]);
      assert RulesFor(svc.value, addrs, 0) == [];
      AddRulesEffect(linked, svc.value, addrs, 0, fails);
    }
  }

  /**
   * One update from a linked table. When it succeeds LBCHAIN holds one rule per
   * address, in order, and OUTPUT one jump to it; whatever fails, foreign
   * OUTPUT rules keep their place and the chain is linked or left dangling,
   * the latter only by a failure to drop the chain or to add the jump.
   */
  lemma UpdateEffect(t: Table, svc: Option<Service>, addrs: seq<string>, fails: Faults)
    requires Linked(t)
    ensures var (ok, t') := Update(t, svc, addrs, fails);
            && Others(t'.output) == Others(t.output)
            && Sane(t')
            && (ok ==> svc.Some? && Linked(t') && t'.chain == Some(RulesFor(svc.value, addrs, |addrs|)))
            && (Dangling(t') ==> fails(DropChain) || fails(AddJump))
  {
    CleanEffect(t, fails);
    var (ok, cleaned) := Clean(t, fails);
    if ok { AddEffect(cleaned, svc, addrs, fails); }
  }

  /** A dangling chain is for ever: every later update and every cleanup fails and leaves it dangling. */
  lemma DanglingIsForever(t: Table, svc: Option<Service>, addrs: seq<string>, fails: Faults)
    requires Dangling(t)
    ensures !Clean(t, fails).0 && Dangling(Clean(t, fails).1)
    ensures !Update(t, svc, addrs, fails).0 && Dangling(Update(t, svc, addrs, fails).1)
  {
    CleanEffect(t, fails);
  }

  /**
   * With iptables working again, an update succeeds exactly when the chain is
   * not dangling and the service address splits.
   */
  lemma FaultlessUpdateSucceedsIff(t: Table, svc: Option<Service>, addrs: seq<string>)
    requires Sane(t)
    ensures Update(t, svc, addrs, _ => false).0 <==> !Dangling(t) && svc.Some?
  {
    var fails: Faults := _ => false;
    CleanEffect(t, fails);
    DropFirstJumpEffect(t.output);
    var (ok, cleaned) := Clean(t, fails);
    if ok { AddEffect(cleaned, svc, addrs, fails); }
  }

  /**
   * Exactly two failures leave the chain without a jump: dropping it after its
   * jump is gone, and adding the jump after it has been made.
   */
  lemma LeavesDanglingIff(t: Table, svc: Option<Service>, addrs: seq<string>, fails: Faults)
    requires Linked(t)
    ensures Dangling(Update(t, svc, addrs, fails).1) <==>
            && !fails(CheckToClean)
            && (t.chain.Some? ==> !fails(Flush) && !fails(DropJump))
            && if t.chain.Some? && fails(DropChain) then true
               else !fails(CheckToAdd) && !fails(NewChain) && fails(AddJump)
  {
    CleanEffect(t, fails);
    DropFirstJumpEffect(t.output);
    AppendJumpEffect(DropFirstJump(t.output));
    AppendJumpEffect(t.output);
    var (ok, cleaned) := Clean(t, fails);
    if ok { AddEffect(cleaned, svc, addrs, fails); }
  }

  datatype Request = Request(svc: Option<Service>, addrs: seq<string>, fails: Faults)

  function UpdateAll(t: Table, rs: seq<Request>): Table
  {
    if rs == [] then t
    else
      var r := rs[|rs| - 1];
      Update(UpdateAll(t, rs[..|rs| - 1]), r.svc, r.addrs, r.fails).1
  }

  /** Over every run of updates with any failures: never two jumps, never a jump without a chain, foreign rules kept. */
  lemma {:induction false} EveryRunLinkedOrDangling(t: Table, rs: seq<Request>)
    requires Sane(t)
    ensures Sane(UpdateAll(t, rs))
    ensures Others(UpdateAll(t, rs).output) == Others(t.output)
    ensures Dangling(t) ==> Dangling(UpdateAll(t, rs))
  {
    if rs != [] {
      var n, r := |rs| - 1, rs[|rs| - 1];
      EveryRunLinkedOrDangling(t, rs[..n]);
      var t1 := UpdateAll(t, rs[..n]);
      if Linked(t1) {
        UpdateEffect(t1, r.svc, r.addrs, r.fails);
      } else {
        DanglingIsForever(t1, r.svc, r.addrs, r.fails);
        CleanEffect(t1, r.fails);
      }
    }
  }

  // ---------- the balance ----------

  /** The probability that a packet to the service gets past the first i rules. */
  function Reach(rules: seq<Rule>, i: nat): real
    requires i <= |rules|
  {
    if i == 0 then 1.0 else Reach(rules, i - 1) * (1.0 - rules[i - 1].probability)
  }

  /** The probability that rule i is the one that rewrites the packet. */
  function Chosen(rules: seq<Rule>, i: nat): real
    requires i < |rules|
  {
    Reach(rules, i) * rules[i].probability
  }

  lemma OneLess(a: real, n: real)
    requires a > 0.0 && n > 0.0
    ensures (a / n) * (1.0 - 1.0 / a) == (a - 1.0) / n
    ensures (a / n) * (1.0 / a) == 1.0 / n
  {
    var inv := 1.0 / a;
    assert a * inv == 1.0;
    var q := 1.0 / n;
    assert a / n == a * q && (a - 1.0) / n == (a - 1.0) * q;
    assert (a * q) * inv == q * (a * inv);
    assert (a * q) * (1.0 - inv) == a * q - (a * q) * inv;
    assert (a - 1.0) * q == a * q - q;
  }

  lemma ShareLeft(reach: real, p: real, a: real, n: real)
    requires a > 0.0 && n > 0.0 && reach == a / n && p == 1.0 / a
    ensures reach * (1.0 - p) == (a - 1.0) / n
  {
    OneLess(a, n);
  }

  lemma WholeShare(n: real)
    requires n > 0.0
    ensures n / n == 1.0
  {
  }

  lemma {:induction false} ReachOfRules(svc: Service, addrs: seq<string>, i: nat)
    requires i <= |addrs| && addrs != []
    ensures Reach(RulesFor(svc, addrs, |addrs|), i) == (|addrs| - i) as real / |addrs| as real
  {
    var rules, n := RulesFor(svc, addrs, |addrs|), |addrs| as real;
    if i == 0 {
      WholeShare(n);
    } else {
      var a := (|addrs| - (i - 1)) as real;
      ReachOfRules(svc, addrs, i - 1);
      ShareLeft(Reach(rules, i - 1), rules[i - 1].probability, a, n);
      assert a - 1.0 == (|addrs| - i) as real;
    }
  }

  lemma NothingOver(n: real)
    requires n > 0.0
    ensures 0.0 / n == 0.0
  {
  }

  /** Every API server gets exactly one n-th of the packets. */
  lemma EveryAddressChosenAlike(svc: Service, addrs: seq<string>, i: nat)
    requires i < |addrs|
    ensures Chosen(RulesFor(svc, addrs, |addrs|), i) == 1.0 / |addrs| as real
  {
    var a, n := (|addrs| - i) as real, |addrs| as real;
    ReachOfRules(svc, addrs, i);
    OneLess(a, n);
    assert RulesFor(svc, addrs, |addrs|)[i].probability == 1.0 / a;
  }

  /** No packet falls through the last rule. */
  lemma NoPacketFallsThrough(svc: Service, addrs: seq<string>)
    requires addrs != []
    ensures Reach(RulesFor(svc, addrs, |addrs|), |addrs|) == 0.0
  {
    ReachOfRules(svc, addrs, |addrs|);
    NothingOver(|addrs| as real);
  }

  /** The probability that a packet to the service is sent to addr by one of the first n rules. */
  function Share(rules: seq<Rule>, addr: string, n: nat): real
    requires n <= |rules|
  {
    if n == 0 then 0.0
    else Share(rules, addr, n - 1) + if rules[n - 1].destination == addr then Chosen(rules, n - 1) else 0.0
  }

  lemma OneMoreOf(c: nat, n: real)
    requires n > 0.0
    ensures (c + 1) as real / n == c as real / n + 1.0 / n
  {
    var q := 1.0 / n;
    assert c as real / n == c as real * q && (c + 1) as real / n == (c + 1) as real * q;
    assert (c + 1) as real * q == c as real * q + q;
  }

  lemma {:induction false} ShareOfFirst(svc: Service, addrs: seq<string>, addr: string, i: nat)
    requires i <= |addrs| && addrs != []
    ensures Share(RulesFor(svc, addrs, |addrs|), addr, i) == multiset(addrs[..i])[addr] as real / |addrs| as real
  {
    if i == 0 {
      NothingOver(|addrs| as real);
    } else {
      ShareOfFirst(svc, addrs, addr, i - 1);
      EveryAddressChosenAlike(svc, addrs, i - 1);
      OneMoreOf(multiset(addrs[..i - 1])[addr], |addrs| as real);
      assert addrs[..i] == addrs[..i - 1] + [addrs[i - 1]];
    }
  }

  /**
   * The whole of it: after an update that succeeds, rule i sends to address i
   * of the list, every address gets its share of the packets, and none is left.
   */
  lemma UpdateBalances(t: Table, svc: Option<Service>, addrs: seq<string>, fails: Faults, addr: string)
    requires Sane(t) && addrs != [] && Update(t, svc, addrs, fails).0
    ensures svc.Some? && Update(t, svc, addrs, fails).1.chain.Some?
    ensures var rules := Update(t, svc, addrs, fails).1.chain.value;
            && |rules| == |addrs|
            && (forall i :: 0 <= i < |addrs| ==> rules[i].service == svc.value && rules[i].destination == addrs[i])
            && Share(rules, addr, |rules|) == multiset(addrs)[addr] as real / |addrs| as real
            && Reach(rules, |rules|) == 0.0
  {
    if Dangling(t) { DanglingIsForever(t, svc, addrs, fails); }
    UpdateEffect(t, svc, addrs, fails);
    ShareOfFirst(svc.value, addrs, addr, |addrs|);
    NoPacketFallsThrough(svc.value, addrs);
    assert addrs[..|addrs|] == addrs;
  }

  // ---------- the object ----------

  class IptablesManager {
    var table: Table

    constructor (t: Table)
      ensures table == t
    {
      table := t;
    }

    method CleanIptablesRules(fails: Faults) returns (ok: bool)
      modifies this
      ensures (ok, table) == Clean(old(table), fails)
    {
      if fails(CheckToClean) {
        return false;
      }
      if table.chain.Some? {
        if fails(Flush) {
          return false;
        }
        table := table.(chain := Some([]));
        if fails(DropJump) || Jumps(table.output) == 0 {
          return false;
        }
        table := table.(output := DropFirstJump(table.output));
        if fails(DropChain) || Jumps(table.output) > 0 || table.chain != Some([]) {
          return false;
        }
        table := table.(chain := None);
      }
      return true;
    }

    method AddIptablesRules(svc: Option<Service>, addrs: seq<string>, fails: Faults) returns (ok: bool)
      modifies this
      ensures (ok, table) == Add(old(table), svc, addrs, fails)
    {
      if fails(CheckToAdd) {
        return false;
      }
      if table.chain.None? {
        if fails(NewChain) {
          return false;
        }
        table := table.(chain := Some([]));
        if fails(AddJump) {
          return false;
        }
        table := table.(output := table.output + [Jump]);
      }
      if svc.None? {
        return false;
      }
      var probabilities := GetRandomBalancingProbability(|addrs|);
      ghost var linked := table;
      var index := 0;
      while index < |addrs|
        invariant 0 <= index <= |addrs| && table.chain.Some?
        invariant AddRules(linked, svc.value, addrs, 0, fails) == AddRules(table, svc.value, addrs, index, fails)
      {
        if fails(AddRule(index)) {
          return false;
        }
        var rule := Rule(svc.value, probabilities[index], addrs[index]);
        table := table.(chain := Some(table.chain.value + [rule]));
        index := index + 1;
      }
      return true;
    }

    method UpdateIptablesRules(svc: Option<Service>, addrs: seq<string>, fails: Faults) returns (ok: bool)
      modifies this
      ensures (ok, table) == Update(old(table), svc, addrs, fails)
      ensures old(Sane(table)) ==> Sane(table)
      ensures old(Sane(table)) && ok ==>
                svc.Some? && Linked(table) && table.chain == Some(RulesFor(svc.value, addrs, |addrs|))
      ensures old(Sane(table)) && ok ==>
                forall i :: 0 <= i < |addrs| ==>
                  table.chain.value[i] == Rule(svc.value, 1.0 / (|addrs| - i) as real, addrs[i])
    {
      if Linked(table) {
        UpdateEffect(table, svc, addrs, fails);
      } else if Dangling(table) {
        DanglingIsForever(table, svc, addrs, fails);
      }
      ok := CleanIptablesRules(fails);
      if ok {
        ok := AddIptablesRules(svc, addrs, fails);
      }
    }
  }

  /** The slice is filled from 1/n up to 1. */
  method GetRandomBalancingProbability(n: nat) returns (p: seq<real>)
    ensures |p| == n && forall i :: 0 <= i < n ==> p[i] == Probability(n, i)
    ensures n > 0 ==> p[n - 1] == 1.0
  {
    p := [];
    var i := 0;
    while i < n
      invariant 0 <= i <= n && |p| == i
      invariant forall j :: 0 <= j < i ==> p[j] == Probability(n, j)
    {
      p := p + [1.0 / (n - i) as real];
      i := i + 1;
    }
  }
}
