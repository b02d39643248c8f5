/**
 * The dialer that tracks the hub's connections by address so that they can be
 * closed by force: dials, closes of one connection, of one address and of all,
 * interleaved at the granularity of the sections the mutex protects.
 */
module Dialer {

  datatype Conn = Conn(id: nat)

  datatype Closer = Closer(pending: set<Conn>, seen: set<Conn>)

  datatype State = State(
    address: map<Conn, string>,         // every connection ever made, with the address it was dialed for
    dialing: set<Conn>,                 // connected, not yet tracked
    tracked: map<string, set<Conn>>,    // d.addrConns
    closing: set<Conn>,                 // untracked by its own Close, not yet closed
    // running Close(address) and CloseAll: what they detached and still have to close
    closers: map<nat, Closer>,
    closed: set<Conn>)

  datatype Step =
    | Connect(conn: Conn, addr: string)   // d.dial returns
    | Track(conn: Conn)                   // DialContext's locked section
    | Untrack(conn: Conn)                 // closableConn.Close's locked section
    | CloseOne(conn: Conn)                // its c.Conn.Close()
    | Detach(id: nat, addr: string)       // Close(address)'s locked section
    | DetachAll(id: nat)                  // CloseAll's locked section
    | CloseNext(id: nat, conn: Conn)      // one turn of their loops
    | Finish(id: nat)

  function Under(s: State, addr: string): set<Conn>
  {
    if addr in s.tracked then s.tracked[addr] else {}
  }

  function AllTracked(tracked: map<string, set<Conn>>): set<Conn>
  {
    set a, c | a in tracked && c in tracked[a] :: c
  }

  predicate Enabled(s: State, step: Step)
  {
    match step
    case Connect(c, _) => c !in s.address
    case Track(c) => c in s.dialing && c in s.address
    case Untrack(c) => c in s.address && c !in s.dialing   // the transport has the connection only once it is tracked
    case CloseOne(c) => c in s.closing
    case Detach(id, _) => id !in s.closers
    case DetachAll(id) => id !in s.closers
    case CloseNext(id, c) => id in s.closers && c in s.closers[id].pending
    case Finish(id) => id in s.closers && s.closers[id].pending == {}
  }

  function Next(s: State, step: Step): State
    requires Enabled(s, step)
  {
    match step
    case Connect(c, a) => s.(address := s.address[c := a], dialing := s.dialing + {c})
    case Track(c) =>
      var a := s.address[c];
      s.(tracked := s.tracked[a := Under(s, a) + {c}], dialing := s.dialing - {c})
    case Untrack(c) =>
      var a := s.address[c];
      var s' := s.(closing := s.closing + {c});
      if |Under(s, a)| >= 1 then s'.(tracked := s.tracked[a := Under(s, a) - {c}]) else s'
    case CloseOne(c) => s.(closing := s.closing - {c}, closed := s.closed + {c})
    case Detach(id, a) => s.(tracked := s.tracked - {a}, closers := s.closers[id := Closer(Under(s, a), Under(s, a))])
    case DetachAll(id) =>
      var all := AllTracked(s.tracked);
      s.(tracked := map[], closers := s.closers[id := Closer(all, all)])
    case CloseNext(id, c) =>
      var k := s.closers[id];
      s.(closers := s.closers[id := k.(pending := k.pending - {c})], closed := s.closed + {c})
    case Finish(id) => s.(closers := s.closers - {id})
  }

  predicate ValidRun(s: State, steps: seq<Step>)
    decreases |steps|
  {
    steps == [] || (Enabled(s, steps[0]) && ValidRun(Next(s, steps[0]), steps[1..]))
  }

  function Run(s: State, steps: seq<Step>): State
    requires ValidRun(s, steps)
    decreases |steps|
  {
    if steps == [] then s else Run(Next(s, steps[0]), steps[1..])
  }

  // ---------- what every step keeps ----------

  /** Tracked connections sit under their own address. */
  ghost predicate Filed(s: State)
  {
    && (forall a, c :: a in s.tracked && c in s.tracked[a] ==> c in s.address && s.address[c] == a && c !in s.dialing)
    && (forall c :: c in s.dialing ==> c in s.address)
  }

  /** The detached sets of running closes are their own: disjoint from the tracked and from each other. */
  ghost predicate Owned(s: State)
  {
    && (forall id, c :: id in s.closers && c in s.closers[id].pending ==>
          c in s.address && c !in s.dialing && c !in AllTracked(s.tracked))
    && (forall i, j, c :: i in s.closers && j in s.closers && i != j && c in s.closers[i].pending ==>
          c !in s.closers[j].pending)
  }

  /** No connection is lost: it is being dialed, tracked, detached by a running close, being closed, or closed. */
  ghost predicate Accounted(s: State, c: Conn)
  {
    || c in s.dialing
    || c in AllTracked(s.tracked)
    || (exists id :: id in s.closers && c in s.closers[id].pending)
    || c in s.closing
    || c in s.closed
  }

  /** Whatever a running close has seen it has closed or still has to. */
  ghost predicate Faithful(s: State)
  {
    forall id, c :: id in s.closers && c in s.closers[id].seen ==> c in s.closers[id].pending || c in s.closed
  }

  ghost predicate Inv(s: State)
  {
    Filed(s) && Owned(s) && Faithful(s) && forall c :: c in s.address ==> Accounted(s, c)
  }

  lemma TrackedAt(s: State, c: Conn)
    requires Filed(s)
    ensures c in AllTracked(s.tracked) <==> c in s.address && c in Under(s, s.address[c])
  {
  }

  lemma FiledStep(s: State, step: Step)
    requires Filed(s) && Enabled(s, step)
    ensures Filed(Next(s, step))
  {
    var s' := Next(s, step);
    forall a, c | a in s'.tracked && c in s'.tracked[a]
      ensures c in s'.address && s'.address[c] == a && c !in s'.dialing
    {
      match step {
        case Track(d) => if c != d { assert a in s.tracked && c in s.tracked[a]; }
        case _ => assert a in s.tracked && c in s.tracked[a];
      }
    }
  }

  lemma OwnedStep(s: State, step: Step)
    requires Filed(s) && Owned(s) && Enabled(s, step)
    ensures Owned(Next(s, step))
  {
    var s' := Next(s, step);
    match step {
      case Track(c) =>
        assert AllTracked(s'.tracked) <= AllTracked(s.tracked) + {c};
      case Untrack(c) =>
        assert AllTracked(s'.tracked) <= AllTracked(s.tracked);
      case Detach(id, a) =>
        assert AllTracked(s'.tracked) <= AllTracked(s.tracked);
        forall c | c in Under(s, a) ensures c in AllTracked(s.tracked) && c !in AllTracked(s'.tracked)
        {
          assert s.address[c] == a;
        }
      case _ =>
    }
  }

  lemma TrackedStaysAccounted(s: State, step: Step, c: Conn)
    requires Filed(s) && Enabled(s, step) && c in AllTracked(s.tracked)
    ensures Accounted(Next(s, step), c)
  {
    var s' := Next(s, step);
    TrackedAt(s, c);
    var a := s.address[c];
    match step {
      case Untrack(d) => if d != c { assert c in s'.tracked[a]; }
      case Detach(id, b) => if a == b { assert c in s'.closers[id].pending; } else { assert c in s'.tracked[a]; }
      case DetachAll(id) => assert c in s'.closers[id].pending;
      case _ => assert c in s'.tracked[a];
    }
  }

  lemma PendingStaysAccounted(s: State, step: Step, c: Conn, id: nat)
    requires Enabled(s, step) && id in s.closers && c in s.closers[id].pending
    ensures Accounted(Next(s, step), c)
  {
    var s' := Next(s, step);
    if !(step.CloseNext? && step.id == id && step.conn == c) {
      assert id in s'.closers && c in s'.closers[id].pending;
    }
  }

  lemma AccountedStep(s: State, step: Step, c: Conn)
    requires Filed(s) && Enabled(s, step) && c in Next(s, step).address
    requires c in s.address ==> Accounted(s, c)
    ensures Accounted(Next(s, step), c)
  {
    if c in s.dialing {
      if step == Track(c) { assert c in Next(s, step).tracked[s.address[c]]; }
    } else if c in AllTracked(s.tracked) {
      TrackedStaysAccounted(s, step, c);
    } else if id :| id in s.closers && c in s.closers[id].pending {
      PendingStaysAccounted(s, step, c, id);
    }
  }

  lemma InvStep(s: State, step: Step)
    requires Inv(s) && Enabled(s, step)
    ensures Inv(Next(s, step))
  {
    FiledStep(s, step);
    OwnedStep(s, step);
    forall c | c in Next(s, step).address ensures Accounted(Next(s, step), c)
    {
      AccountedStep(s, step, c);
    }
  }

  /** Nothing dialed yet. */
  const Idle := State(map[], {}, map[], {}, map[], {})

  /** Under any interleaving: connections filed by address, detached sets owned, and none lost. */
  lemma {:induction false} InvRun(s: State, steps: seq<Step>)
    requires Inv(s) && ValidRun(s, steps)
    ensures Inv(Run(s, steps))
    decreases |steps|
  {
    if steps != [] {
      InvStep(s, steps[0]);
      InvRun(Next(s, steps[0]), steps[1..]);
    }
  }

  /** A connection leaves tracking in one step only by its own close or by being detached. */
  lemma LeavesTrackingOnlyByClose(s: State, step: Step, c: Conn)
    requires Filed(s) && Enabled(s, step) && c in AllTracked(s.tracked) && c !in AllTracked(Next(s, step).tracked)
    ensures step == Untrack(c) || ((step.Detach? || step.DetachAll?) && c in Next(s, step).closers[step.id].pending)
  {
    FiledStep(s, step);
    TrackedAt(s, c);
    TrackedAt(Next(s, step), c);
  }

  // ---------- what is tracked and what is closed ----------

  /** The step takes c, dialed for addr, out of tracking. */
  predicate Removes(step: Step, c: Conn, addr: string)
  {
    step == Untrack(c) || (step.Detach? && step.addr == addr) || step.DetachAll?
  }

  lemma TrackedAfterStep(s: State, step: Step, c: Conn, addr: string)
    requires Filed(s) && Enabled(s, step) && (c in s.address ==> s.address[c] == addr)
    ensures c in AllTracked(Next(s, step).tracked) <==>
            step == Track(c) || (c in AllTracked(s.tracked) && !Removes(step, c, addr))
  {
    FiledStep(s, step);
    TrackedAt(s, c);
    TrackedAt(Next(s, step), c);
  }

  lemma {:induction false} AddressStays(s: State, steps: seq<Step>, c: Conn)
    requires ValidRun(s, steps) && c in s.address
    ensures c in Run(s, steps).address && Run(s, steps).address[c] == s.address[c]
    decreases |steps|
  {
    if steps != [] { AddressStays(Next(s, steps[0]), steps[1..], c); }
  }

  predicate KeptFrom(steps: seq<Step>, c: Conn, addr: string, i: nat)
  {
    forall j :: i <= j < |steps| ==> !Removes(steps[j], c, addr)
  }

  /**
   * Under any interleaving a connection is tracked exactly if it has been
   * tracked and since then neither closed itself nor been detached by a close
   * of its address or of all.
   */
  lemma {:induction false} TrackedIff(s: State, steps: seq<Step>, c: Conn, addr: string)
    requires Filed(s) && ValidRun(s, steps) && c in Run(s, steps).address && Run(s, steps).address[c] == addr
    ensures c in AllTracked(Run(s, steps).tracked) <==>
            || (c in AllTracked(s.tracked) && KeptFrom(steps, c, addr, 0))
            || (exists i :: 0 <= i < |steps| && steps[i] == Track(c) && KeptFrom(steps, c, addr, i + 1))
    decreases |steps|
  {
    if steps != [] {
      var step, rest := steps[0], steps[1..];
      if c in s.address { AddressStays(s, steps, c); }
      TrackedAfterStep(s, step, c, addr);
      FiledStep(s, step);
      TrackedIff(Next(s, step), rest, c, addr);
      KeptShifts(steps, c, addr);
    }
  }

  lemma KeptShifts(steps: seq<Step>, c: Conn, addr: string)
    requires steps != []
    ensures forall i: nat :: KeptFrom(steps, c, addr, i + 1) <==> KeptFrom(steps[1..], c, addr, i)
    ensures KeptFrom(steps, c, addr, 0) <==> !Removes(steps[0], c, addr) && KeptFrom(steps[1..], c, addr, 0)
    ensures (exists i :: 0 <= i < |steps| && steps[i] == Track(c) && KeptFrom(steps, c, addr, i + 1)) <==>
            || (steps[0] == Track(c) && KeptFrom(steps[1..], c, addr, 0))
            || (exists i :: 0 <= i < |steps[1..]| && steps[1..][i] == Track(c) && KeptFrom(steps[1..], c, addr, i + 1))
  {
    var rest := steps[1..];
    forall i: nat ensures KeptFrom(steps, c, addr, i + 1) <==> KeptFrom(rest, c, addr, i)
    {
      if KeptFrom(rest, c, addr, i) {
        forall j | i + 1 <= j < |steps| ensures !Removes(steps[j], c, addr) { assert steps[j] == rest[j - 1]; }
      }
    }
    if i :| 0 <= i < |steps| && steps[i] == Track(c) && KeptFrom(steps, c, addr, i + 1) {
      if i > 0 { assert rest[i - 1] == Track(c) && KeptFrom(rest, c, addr, i); }
    }
    if i :| 0 <= i < |rest| && rest[i] == Track(c) && KeptFrom(rest, c, addr, i + 1) {
      assert steps[i + 1] == Track(c) && KeptFrom(steps, c, addr, i + 2);
    }
  }

  predicate Closes(step: Step, c: Conn)
  {
    step == CloseOne(c) || (step.CloseNext? && step.conn == c)
  }

  /** A connection is closed exactly if its own close or a forced one got to closing it. */
  lemma {:induction false} ClosedIff(s: State, steps: seq<Step>, c: Conn)
    requires ValidRun(s, steps)
    ensures c in Run(s, steps).closed <==> c in s.closed || exists i :: 0 <= i < |steps| && Closes(steps[i], c)
    decreases |steps|
  {
    if steps != [] {
      var rest := steps[1..];
      ClosedIff(Next(s, steps[0]), rest, c);
      if i :| 0 <= i < |steps| && Closes(steps[i], c) {
        if i > 0 { assert Closes(rest[i - 1], c); }
      }
      if i :| 0 <= i < |rest| && Closes(rest[i], c) { assert Closes(steps[i + 1], c); }
    }
  }

  /** No connection that is closed, or that its user is closing, is tracked or still to be tracked. */
  ghost predicate NoneStale(s: State)
  {
    && s.closing + s.closed <= s.address.Keys
    && (s.closing + s.closed) !! s.dialing
    && (s.closing + s.closed) !! AllTracked(s.tracked)
  }

  lemma NoneStaleStep(s: State, step: Step)
    requires Inv(s) && NoneStale(s) && Enabled(s, step)
    ensures NoneStale(Next(s, step))
  {
    var s' := Next(s, step);
    forall c | c in AllTracked(s'.tracked) ensures c !in s'.closing && c !in s'.closed
    {
      if c in s.address { TrackedAfterStep(s, step, c, s.address[c]); } else { TrackedAfterStep(s, step, c, ""); }
    }
  }

  /** So the table never holds on to a closed connection. */
  lemma {:induction false} NoneStaleRun(s: State, steps: seq<Step>)
    requires Inv(s) && NoneStale(s) && ValidRun(s, steps)
    ensures NoneStale(Run(s, steps))
    decreases |steps|
  {
    if steps != [] {
      NoneStaleStep(s, steps[0]);
      InvStep(s, steps[0]);
      NoneStaleRun(Next(s, steps[0]), steps[1..]);
    }
  }

  /** From the first dial on: what is tracked, that it is open, and that no connection is lost. */
  lemma TrackedFromStart(steps: seq<Step>, c: Conn, addr: string)
    requires ValidRun(Idle, steps) && c in Run(Idle, steps).address && Run(Idle, steps).address[c] == addr
    ensures var s := Run(Idle, steps);
            && (c in Under(s, addr) <==>
               exists i :: 0 <= i < |steps| && steps[i] == Track(c) && KeptFrom(steps, c, addr, i + 1))
            && (c in Under(s, addr) ==> c !in s.closed && c !in s.closing)
            && Accounted(s, c)
  {
    var s := Run(Idle, steps);
    InvRun(Idle, steps);
    NoneStaleRun(Idle, steps);
    TrackedIff(Idle, steps, c, addr);
    TrackedAt(s, c);
  }

  lemma {:induction false} SeenStays(s: State, steps: seq<Step>, id: nat)
    requires ValidRun(s, steps) && id in s.closers
    requires forall i :: 0 <= i < |steps| ==> steps[i] != Finish(id)
    ensures id in Run(s, steps).closers && Run(s, steps).closers[id].seen == s.closers[id].seen
    decreases |steps|
  {
    if steps != [] {
      var s' := Next(s, steps[0]);
      assert id in s'.closers && s'.closers[id].seen == s.closers[id].seen;
      forall i | 0 <= i < |steps[1..]| ensures steps[1..][i] != Finish(id) { assert steps[1..][i] == steps[i + 1]; }
      SeenStays(s', steps[1..], id);
    }
  }

  /** When a close-all finishes, every connection tracked at the moment it took the lock is closed. */
  lemma FinishedCloseAllClosedEverything(s: State, id: nat, during: seq<Step>)
    requires Inv(s) && Enabled(s, DetachAll(id)) && ValidRun(Next(s, DetachAll(id)), during)
    requires forall i :: 0 <= i < |during| ==> during[i] != Finish(id)
    requires Enabled(Run(Next(s, DetachAll(id)), during), Finish(id))
    ensures AllTracked(s.tracked) <= Run(Next(s, DetachAll(id)), during).closed
  {
    var s1 := Next(s, DetachAll(id));
    InvStep(s, DetachAll(id));
    InvRun(s1, during);
    SeenStays(s1, during, id);
    var s2 := Run(s1, during);
    forall c | c in AllTracked(s.tracked) ensures c in s2.closed
    {
      assert c in s2.closers[id].seen;
    }
  }

  /** Likewise for the close of one address. */
  lemma FinishedCloseClosedAddress(s: State, id: nat, addr: string, during: seq<Step>)
    requires Inv(s) && Enabled(s, Detach(id, addr)) && ValidRun(Next(s, Detach(id, addr)), during)
    requires forall i :: 0 <= i < |during| ==> during[i] != Finish(id)
    requires Enabled(Run(Next(s, Detach(id, addr)), during), Finish(id))
    ensures Under(s, addr) <= Run(Next(s, Detach(id, addr)), during).closed
  {
    var s1 := Next(s, Detach(id, addr));
    InvStep(s, Detach(id, addr));
    InvRun(s1, during);
    SeenStays(s1, during, id);
    var s2 := Run(s1, during);
    forall c | c in Under(s, addr) ensures c in s2.closed
    {
      assert c in s2.closers[id].seen;
    }
  }

  // ---------- the object, one call at a time ----------

  function Part(tracked: map<string, set<Conn>>, addrs: set<string>): set<Conn>
  {
    set a, c | a in addrs && a in tracked && c in tracked[a] :: c
  }

  lemma PartGrows(tracked: map<string, set<Conn>>, addrs: set<string>, a: string)
    requires a in tracked
    ensures Part(tracked, addrs + {a}) == Part(tracked, addrs) + tracked[a]
  {
    forall c | c in tracked[a] ensures c in Part(tracked, addrs + {a})
    {
      assert a in addrs + {a};
    }
    forall c | c in Part(tracked, addrs) ensures c in Part(tracked, addrs + {a})
    {
      var b :| b in addrs && b in tracked && c in tracked[b];
      assert b in addrs + {a};
    }
  }

  class TrackingDialer {
    var addrConns: map<string, set<Conn>>
    var closed: set<Conn>

    constructor ()
      ensures addrConns == map[] && closed == {}
    {
      addrConns, closed := map[], {};
    }

    function Conns(addr: string): set<Conn>
      reads this
    {
      if addr in addrConns then addrConns[addr] else {}
    }

    /** DialContext, once the dial has succeeded. */
    method Add(conn: Conn, addr: string)
      modifies this`addrConns
      ensures Conns(addr) == old(Conns(addr)) + {conn}
      ensures forall a :: a != addr ==> Conns(a) == old(Conns(a))
    {
      if addr !in addrConns {
        addrConns := addrConns[addr := {}];
      }
      addrConns := addrConns[addr := addrConns[addr] + {conn}];
    }

    method CloseConn(conn: Conn, addr: string)
      modifies this
      ensures Conns(addr) == old(Conns(addr)) - {conn} && closed == old(closed) + {conn}
      ensures forall a :: a != addr ==> Conns(a) == old(Conns(a))
    {
      var remain := |Conns(addr)|;
      if remain >= 1 {
        addrConns := addrConns[addr := addrConns[addr] - {conn}];
      }
      closed := closed + {conn};
    }

    method CloseAddress(addr: string)
      modifies this
      ensures Conns(addr) == {} && closed == old(closed) + old(Conns(addr))
      ensures forall a :: a != addr ==> Conns(a) == old(Conns(a))
    {
      var conns := Conns(addr);
      addrConns := addrConns - {addr};
      CloseEach(conns);
    }

    method CloseAll()
      modifies this
      ensures addrConns == map[] && closed == old(closed) + AllTracked(old(addrConns))
    {
      var detached := addrConns;
      addrConns := map[];
      var left := detached.Keys;
      while left != {}
        invariant left <= detached.Keys && addrConns == map[]
        invariant closed == old(closed) + Part(detached, detached.Keys - left)
        decreases left
      {
        var addr :| addr in left;
        CloseEach(detached[addr]);
        assert detached.Keys - (left - {addr}) == (detached.Keys - left) + {addr};
        PartGrows(detached, detached.Keys - left, addr);
        left := left - {addr};
      }
      assert detached.Keys - left == detached.Keys;
    }

    method CloseEach(conns: set<Conn>)
      modifies this`closed
      ensures closed == old(closed) + conns
    {
      var left := conns;
      while left != {}
        invariant left <= conns && closed == old(closed) + (conns - left)
        decreases left
      {
        var c :| c in left;
        closed := closed + {c};
        left := left - {c};
      }
    }
  }
}
