/** The theorems about mid_project/chat.c: what holds in every run, and exactly where the program
    falls short of what one would expect of it. */
module ChatTheorems {
  import opened SlotTable
  import opened ChatTable
  import opened ChatSystem
  import opened ChatSafety
  import opened ChatRuns

  // ----- What holds in every run -----

  predicate Empty(slots: seq<Slot>) {
    forall i :: 0 <= i < |slots| ==> !slots[i].used
  }

  /** At all times the open connection sockets are those of the used slots, one each, plus the one
      the accept thread and the one the command thread may be holding, with no overlap. */
  lemma SocketOwnership(s: State)
    requires Reachable(s)
    ensures s.fds.open == UsedFdSet(s.slots) + AcceptFds(s.acc) + CommandFds(s.cmd)
    ensures UsedFdSet(s.slots) !! (AcceptFds(s.acc) + CommandFds(s.cmd))
    ensures AcceptFds(s.acc) !! CommandFds(s.cmd)
    ensures DistinctFds(s.slots)
  {
    ReachableInv(s);
  }

  /** No socket is closed twice and none leaks: no close hits a socket that is not open, and
      whenever table and threads hold none, as many were closed as were opened. */
  lemma ClosedExactlyOnce(s: State)
    requires Reachable(s)
    ensures s.fds.bad == 0 && s.fds.opens == s.fds.closes + |s.fds.open|
    ensures Empty(s.slots) && AcceptFds(s.acc) == {} && CommandFds(s.cmd) == {} ==>
              s.fds.opens == s.fds.closes
  {
    ReachableInv(s);
    if Empty(s.slots) {
      assert UsedFdSet(s.slots) == {};
    }
  }

  /** A message is always sent on an open socket: the one registered for the id. */
  lemma SendsOnOpenSocket(s: State, id: int)
    requires Reachable(s) && id in Live(s.slots)
    ensures Live(s.slots)[id].sockfd in s.fds.open
  {
    ReachableInv(s);
    var k := IndexOf(s.slots, id);
    LookupAgrees(s.slots, s.nextId, id);
    assert s.slots[k].sockfd in UsedFdSet(s.slots);
  }

  /** Handlers per slot: alive = used + freed from outside - left on finding the slot free; a used
      slot has the handler that was started for its connection. */
  lemma HandlerConservation(s: State, i: nat)
    requires Reachable(s) && i < MAX_CONN
    ensures WellSized(s)
    ensures |Bound(s.handlers, i)| + s.exits[i] == (if s.slots[i].used then 1 else 0) + s.terms[i]
    ensures s.slots[i].used ==> s.slots[i].id in Bound(s.handlers, i) && |Bound(s.handlers, i)| >= 1
  {
    ReachableInv(s);
    if s.slots[i].used {
      assert Bound(s.handlers, i) == {s.slots[i].id} + (Bound(s.handlers, i) - {s.slots[i].id});
    }
  }

  /** The table refines a map of capacity 100 with keys below `nextId`. */
  lemma RefinesMap(s: State)
    requires Reachable(s)
    ensures TableInv(s.slots, s.nextId) && |Live(s.slots)| <= MAX_CONN
    ensures forall id :: id in Live(s.slots) ==> 1 <= id < s.nextId
    ensures FirstFree(s.slots) == |s.slots| <==> |Live(s.slots)| == MAX_CONN
  {
    ReachableInv(s);
    FullExactlyAtCapacity(s.slots, s.nextId);
    forall id | id in Live(s.slots) ensures 1 <= id < s.nextId {
      LookupAgrees(s.slots, s.nextId, id);
    }
  }

  /** Two registered connections made by `connect` never lead to the same endpoint, although the
      duplicate check gives up the lock before the socket is connected. */
  lemma OutgoingDistinct(s: State, a: int, b: int)
    requires Reachable(s) && a in Live(s.slots) && b in Live(s.slots) && a != b
    requires a in s.outgoing && b in s.outgoing
    ensures Live(s.slots)[a].addr != Live(s.slots)[b].addr
  {
    ReachableInv(s);
    OutgoingAt(s, a);
    OutgoingAt(s, b);
  }

  lemma OutgoingAt(s: State, id: int)
    requires Inv(s) && id in Live(s.slots) && id in s.outgoing
    ensures var k := IndexOf(s.slots, id);
            IsOutgoing(s, k) && s.slots[k].id == id && s.slots[k].addr == Live(s.slots)[id].addr
  {
    LookupAgrees(s.slots, s.nextId, id);
  }

  // ----- Where the program falls short, exactly -----

  predicate DistinctPeers(slots: seq<Slot>) {
    forall i, j :: 0 <= i < j < |slots| && slots[i].used && slots[j].used ==> slots[i].addr != slots[j].addr
  }

  predicate Registers(s: State, a: Action)
    requires Enabled(s, a)
  {
    (a.AcceptAdd? || a.ConnectAdd?) && TakenSlot(s, a.threadOk) >= 0
  }

  function NewPeer(s: State, a: Action): Endpoint
    requires Enabled(s, a) && Registers(s, a)
  {
    if a.AcceptAdd? then s.acc.addr else s.cmd.dest
  }

  lemma FilledPeers(slots: seq<Slot>, k: nat, x: Slot)
    requires k < |slots| && !slots[k].used && x.used
    ensures DistinctPeers(slots[k := x]) <==> DistinctPeers(slots) && !HasPeer(slots, x.addr)
  {
    var slots' := slots[k := x];
    assert slots'[k] == x;
    if DistinctPeers(slots') {
      forall i, j | 0 <= i < j < |slots| && slots[i].used && slots[j].used ensures slots[i].addr != slots[j].addr {
        assert slots'[i] == slots[i] && slots'[j] == slots[j];
      }
      forall i | 0 <= i < |slots| && slots[i].used ensures slots[i].addr != x.addr {
        assert slots'[i] == slots[i];
      }
    }
  }

  /** A step makes two registered connections share an endpoint exactly when it registers one that
      is registered already: what only the caller of `connect` looked for, and too early. */
  lemma PeersDistinctAfter(s: State, a: Action, t: State)
    requires Reachable(s) && WellSized(s) && Enabled(s, a) && t == Step(s, a)
    ensures Registers(s, a) ==>
              (DistinctPeers(t.slots) <==> DistinctPeers(s.slots) && !HasPeer(s.slots, NewPeer(s, a)))
    ensures !Registers(s, a) && DistinctPeers(s.slots) ==> DistinctPeers(t.slots)
  {
    if Registers(s, a) {
      FilledPeers(s.slots, TakenSlot(s, a.threadOk), t.slots[TakenSlot(s, a.threadOk)]);
    } else {
      KeepsNoNewPeer(s, a, t);
    }
  }

  lemma KeepsNoNewPeer(s: State, a: Action, t: State)
    requires WellSized(s) && Enabled(s, a) && t == Step(s, a) && !Registers(s, a)
    ensures |t.slots| == |s.slots| && forall i :: 0 <= i < |t.slots| && t.slots[i].used ==> t.slots[i] == s.slots[i]
  {
    StepSized(s, a);
    if a.Sweep? {
      SweepSized(s, 0);
    } else if !a.AcceptAdd? && !a.ConnectAdd? {
      FreesAtMostOne(s, a, t);
    }
  }

  lemma ConnectAddInserts(s: State, t: State)
    requires Inv(s) && Enabled(s, ConnectAdd(true)) && FirstFree(s.slots) < |s.slots|
    requires t == Step(s, ConnectAdd(true))
    ensures Live(t.slots) == Live(s.slots)[s.nextId := Conn(s.cmd.fd, s.cmd.dest)] && s.nextId !in Live(s.slots)
  {
    AddInserts(s.slots, s.nextId, s.cmd.fd, s.cmd.dest, true);
    FullExactlyAtCapacity(s.slots, s.nextId);
  }

  lemma NewEntryShares(m: map<int, Conn>, m': map<int, Conn>, key: int, c: Conn)
    requires key !in m && m' == m[key := c]
    ensures (exists id :: id in m' && id != key && m'[id].addr == c.addr)
            <==> exists id :: id in m && m[id].addr == c.addr
  {
    if id :| id in m && m[id].addr == c.addr {
      assert id in m' && id != key && m'[id].addr == c.addr;
    }
  }

  /** A connection made by `connect` duplicates a registered endpoint exactly when one is there at
      the moment of registration, and then every connection that has it was accepted. */
  lemma DuplicateExactlyWhen(s: State, t: State)
    requires Reachable(s) && WellSized(s) && Enabled(s, ConnectAdd(true)) && FirstFree(s.slots) < |s.slots|
    requires t == Step(s, ConnectAdd(true))
    ensures Live(t.slots) == Live(s.slots)[s.nextId := Conn(s.cmd.fd, s.cmd.dest)] && s.nextId !in Live(s.slots)
    ensures (exists id :: id in Live(t.slots) && id != s.nextId && Live(t.slots)[id].addr == s.cmd.dest)
            <==> HasPeer(s.slots, s.cmd.dest)
    ensures forall id :: id in Live(s.slots) && Live(s.slots)[id].addr == s.cmd.dest ==> id !in s.outgoing
  {
    ReachableInv(s);
    ConnectAddInserts(s, t);
    PeerInMap(s.slots, s.nextId, s.cmd.dest);
    NewEntryShares(Live(s.slots), Live(t.slots), s.nextId, Conn(s.cmd.fd, s.cmd.dest));
    forall id | id in Live(s.slots) && Live(s.slots)[id].addr == s.cmd.dest ensures id !in s.outgoing {
      PendingNotOutgoing(s, id);
    }
  }

  lemma PendingNotOutgoing(s: State, id: int)
    requires Inv(s) && id in Live(s.slots) && Live(s.slots)[id].addr in PendingDest(s.cmd)
    ensures id !in s.outgoing
  {
    if id in s.outgoing {
      OutgoingAt(s, id);
      assert false;
    }
  }

  lemma OwnExactlyWhenLive(s: State, h: int)
    requires WellSized(s) && HandlerInv(s) && TableInv(s.slots, s.nextId) && h in s.handlers
    requires s.slots[s.handlers[h].slot].used
    ensures s.slots[s.handlers[h].slot].id == h <==> h in Live(s.slots)
  {
    var k := s.handlers[h].slot;
    LookupAgrees(s.slots, s.nextId, h);
    if s.slots[k].id == h {
      IndexOfUsed(s.slots, s.nextId, k);
    }
  }

  lemma TwoHandlers(s: State, h: int)
    requires WellSized(s) && HandlerInv(s) && h in s.handlers
    requires s.slots[s.handlers[h].slot].used && s.slots[s.handlers[h].slot].id != h
    ensures |Bound(s.handlers, s.handlers[h].slot)| >= 2
  {
    var k := s.handlers[h].slot;
    var bound, both := Bound(s.handlers, k), {h, s.slots[k].id};
    assert both <= bound;
    assert bound == both + (bound - both) && |both| == 2;
  }

  /** A used slot has a second handler, one that was not started for its connection, exactly when
      it was freed from outside more often than handlers left on finding it free. */
  lemma SecondHandlerExactly(s: State, k: nat)
    requires Reachable(s) && WellSized(s) && k < MAX_CONN && s.slots[k].used
    ensures (exists h :: h in Bound(s.handlers, k) && h != s.slots[k].id) <==> s.terms[k] > s.exits[k]
  {
    HandlerConservation(s, k);
    var bound, own := Bound(s.handlers, k), s.slots[k].id;
    assert bound == {own} + (bound - {own});
    if h :| h in bound && h != own {
      assert bound == {own, h} + (bound - {own, h});
    } else {
      assert forall h :: h in bound <==> h == own;
      assert bound == {own};
    }
  }

  /** After a failed receive a handler frees its slot, whoever is in it by now. It drops its own
      connection exactly when that is still registered; otherwise the slot has been freed from
      outside and refilled while the old handler was still alive. */
  lemma HandlerDropsOwn(s: State, h: int, k: nat)
    requires Reachable(s) && At(s, h, HFailed) && k == s.handlers[h].slot
    requires k < |s.slots| && s.slots[k].used
    ensures WellSized(s)
    ensures s.slots[k].id == h <==> h in Live(s.slots)
    ensures (exists x :: x in Bound(s.handlers, k) && x != s.slots[k].id) <==> s.terms[k] > s.exits[k]
    ensures s.slots[k].id != h ==> |Bound(s.handlers, k)| >= 2 && s.terms[k] > s.exits[k]
  {
    ReachableInv(s);
    OwnExactlyWhenLive(s, h);
    SecondHandlerExactly(s, k);
    if s.slots[k].id != h {
      TwoHandlers(s, h);
      assert h in Bound(s.handlers, k);
    }
  }

  const PEER_A := Endpoint("10.0.0.1", 4000)
  const PEER_B := Endpoint("10.0.0.2", 4000)

  predicate MayStillRegister(pc: AcceptPc) {
    pc == AWaiting || pc.AHas?
  }

  lemma {:induction false} StaysEmpty(s: State, acts: seq<Action>)
    requires WellSized(s) && ValidFrom(s, acts) && Empty(s.slots) && !s.running
    requires (s.cmd == CSwept || s.cmd == CGone) && !MayStillRegister(s.acc)
    ensures Empty(Exec(s, acts).slots)
    decreases |acts|
  {
    if acts != [] {
      StepSized(s, acts[0]);
      StaysEmpty(Step(s, acts[0]), acts[1..]);
    }
  }

  /** A run from `s` to the end of the process that leaves a connection registered. */
  ghost predicate LeavesOne(s: State, acts: seq<Action>) {
    && WellSized(s) && ValidFrom(s, acts)
    && Exec(s, acts).cmd == CGone && !Empty(Exec(s, acts).slots)
  }

  lemma LeavesOneAfter(s: State, a: Action, acts: seq<Action>)
    requires WellSized(s) && Enabled(s, a) && LeavesOne(Step(s, a), acts)
    ensures LeavesOne(s, [a] + acts)
  {
    assert ([a] + acts)[1..] == acts;
  }

  lemma LateRegistration(s: State) returns (acts: seq<Action>)
    requires WellSized(s) && s.cmd == CSwept && s.acc.AHas?
    ensures LeavesOne(s, acts)
  {
    StepSized(s, AcceptAdd(true));
    var t := Step(s, AcceptAdd(true));
    var u := Step(t, Leave);
    StepSized(t, Leave);
    assert FirstFree(s.slots) < |s.slots| ==> t.slots[FirstFree(s.slots)].used;
    assert FirstFree(s.slots) == |s.slots| ==> t.slots[0].used;
    assert LeavesOne(u, []);
    LeavesOneAfter(t, Leave, []);
    LeavesOneAfter(s, AcceptAdd(true), [Leave] + []);
    acts := [AcceptAdd(true)] + ([Leave] + []);
  }

  lemma LateRegistrationPossible(s: State)
    requires WellSized(s) && s.cmd == CSwept && MayStillRegister(s.acc)
    ensures exists acts :: LeavesOne(s, acts)
  {
    if s.acc == AWaiting {
      var fd := Missing(s.fds.open, |s.fds.open|);
      var a := AcceptOk(fd, PEER_A);
      StepSized(s, a);
      var acts := LateRegistration(Step(s, a));
      LeavesOneAfter(s, a, acts);
    } else {
      var acts := LateRegistration(s);
    }
  }

  /** The sweep of `cleanup_and_exit` empties the table. Whether it can fill again before the
      process ends depends on one thing: whether the accept thread was past its test of
      `server_running`, waiting for a connection or holding one. */
  lemma ExitClosesAllExactlyWhen(s: State, t: State)
    requires Reachable(s) && WellSized(s) && Enabled(s, Sweep) && t == Step(s, Sweep)
    ensures Empty(t.slots)
    ensures (exists acts :: LeavesOne(t, acts)) <==> MayStillRegister(s.acc)
  {
    SweepSized(s, 0);
    StepSized(s, Sweep);
    assert !s.running by {
      ReachableInv(s);
    }
    if MayStillRegister(s.acc) {
      LateRegistrationPossible(t);
    } else {
      forall acts | ValidFrom(t, acts) ensures !LeavesOne(t, acts) {
        StaysEmpty(t, acts);
      }
    }
  }

  /** What closing these sockets, in this order, does. */
  function ClosedAll(f: Fds, xs: seq<int>): Fds {
    if xs == [] then f else Closed(ClosedAll(f, xs[..|xs| - 1]), xs[|xs| - 1])
  }

  lemma UsedFdsNext(slots: seq<Slot>, k: nat)
    requires k < |slots|
    ensures UsedFds(slots[..k + 1])
         == if slots[k].used then UsedFds(slots[..k]) + [slots[k].sockfd] else UsedFds(slots[..k])
  {
    assert slots[..k + 1][..k] == slots[..k];
    assert UsedFds(slots[..k]) + [] == UsedFds(slots[..k]);
  }

  lemma ClosedAllSnoc(f: Fds, xs: seq<int>, x: int)
    ensures ClosedAll(f, xs + [x]) == Closed(ClosedAll(f, xs), x)
  {
    assert (xs + [x])[..|xs|] == xs;
  }

  lemma {:induction false} ClosedAllOpen(f: Fds, xs: seq<int>)
    ensures ClosedAll(f, xs).closes == f.closes + |xs|
    ensures forall fd :: fd in ClosedAll(f, xs).open <==> fd in f.open && fd !in xs
  {
    if xs != [] {
      ClosedAllOpen(f, xs[..|xs| - 1]);
      assert xs == xs[..|xs| - 1] + [xs[|xs| - 1]];
    }
  }

  /** Sweeping on from slot `k` when the slots `was[..k]` have been closed. */
  lemma {:induction false} SweepCloses(s: State, k: nat, f: Fds, was: seq<Slot>)
    requires k <= |s.slots| == |s.terms| == |was|
    requires forall i :: k <= i < |was| ==> s.slots[i] == was[i]
    requires s.fds == ClosedAll(f, UsedFds(was[..k]))
    ensures SweepFrom(s, k).fds == ClosedAll(f, UsedFds(was))
    decreases |was| - k
  {
    if k == |was| {
      assert was[..k] == was;
    } else {
      var t := if s.slots[k].used then Terminated(s, k) else s;
      UsedFdsNext(was, k);
      ClosedAllSnoc(f, UsedFds(was[..k]), was[k].sockfd);
      SweepCloses(t, k + 1, f, was);
    }
  }

  /** The sweep step of the step system is the loop of `cleanup_and_exit`: it frees the slots that
      `Cleanup` frees and closes the sockets that `Cleanup` appends to `closed`, in that order;
      afterwards exactly the sockets of the used slots are no longer open. */
  lemma SweepIsCleanup(s: State)
    requires |s.slots| == |s.terms|
    ensures SweepFrom(s, 0).slots == AllFree(s.slots)
    ensures SweepFrom(s, 0).fds == ClosedAll(s.fds, UsedFds(s.slots))
    ensures SweepFrom(s, 0).fds.open == s.fds.open - UsedFdSet(s.slots)
    ensures SweepFrom(s, 0).fds.closes == s.fds.closes + |UsedFds(s.slots)|
  {
    SweepSized(s, 0);
    assert UsedFds(s.slots[..0]) == [];
    SweepCloses(s, 0, s.fds, s.slots);
    ClosedAllOpen(s.fds, UsedFds(s.slots));
    var f := ClosedAll(s.fds, UsedFds(s.slots));
    forall fd: int ensures fd in f.open <==> fd in s.fds.open - UsedFdSet(s.slots) {
      UsedFdsListed(s.slots, fd);
    }
    assert f.open == s.fds.open - UsedFdSet(s.slots);
  }

  // ----- Runs that show it -----

  /** The accept thread registers connection 1 in slot 0 and is about to read its id back. */
  lemma FirstAccepted(fd: int, addr: Endpoint) returns (s: State)
    requires fd >= 0
    ensures Reachable(s) && WellSized(s) && s.running && s.cmd == CIdle && s.acc == ARet(0, fd, 1)
    ensures s.slots[0] == Slot(true, 1, fd, addr) && s.nextId == 2 && s.fds.open == {fd}
    ensures forall i :: 0 < i < MAX_CONN ==> !s.slots[i].used
    ensures s.handlers == map[1 := Handler(0, HTop)]
  {
    s := Start();
    s := Then(s, AcceptTest);
    s := Then(s, AcceptOk(fd, addr));
    s := Then(s, AcceptAdd(true));
  }

  /** The id that `add_connection` returns can belong to another connection: the slot is freed and
      refilled between the unlock and the read. */
  lemma WrongIdReadBack() returns (s: State)
    ensures Reachable(s) && WellSized(s) && s.acc.ARet? && s.slots[s.acc.slot].id != s.acc.mine
  {
    s := FirstAccepted(3, PEER_A);
    s := Then(s, Terminate(1));
    s := Then(s, Connect(PEER_B));
    s := Then(s, SocketOk(3));
    s := Then(s, ConnectAdd(true));
  }

  /** Connection 1 is terminated while its handler is on its way to the second locked block. */
  lemma StaleHandler() returns (s: State)
    ensures Reachable(s) && WellSized(s) && s.running && s.cmd == CIdle && s.acc == ATest
    ensures s.nextId == 2 && s.fds.open == {} && forall i :: 0 <= i < MAX_CONN ==> !s.slots[i].used
    ensures s.handlers == map[1 := Handler(0, HFailed)]
  {
    s := FirstAccepted(3, PEER_A);
    s := Then(s, AcceptReturn);
    s := Then(s, HandlerCheck(1));
    s := Then(s, HandlerError(1));
    s := Then(s, Terminate(1));
  }

  /** An old handler can free a slot that meanwhile holds a live connection of another peer. */
  lemma ForeignDrop() returns (s: State, t: State)
    ensures Reachable(s) && WellSized(s) && At(s, 1, HFailed) && Enabled(s, HandlerDrop(1))
    ensures t == Step(s, HandlerDrop(1)) && 2 in Live(s.slots) && 2 !in Live(t.slots)
  {
    s := StaleHandler();
    s := Then(s, AcceptTest);
    s := Then(s, AcceptOk(3, PEER_B));
    s := Then(s, AcceptAdd(true));
    assert s.slots[0] == Slot(true, 2, 3, PEER_B);
    t := Step(s, HandlerDrop(1));
    assert TableInv(s.slots, s.nextId) by {
      ReachableInv(s);
    }
    FreeRemoves(s.slots, s.nextId, 0);
    LookupAgrees(s.slots, s.nextId, 2);
  }

  /** The duplicate check has passed, and then a connection from that endpoint is accepted. */
  lemma AcceptedBehindCheck(dest: Endpoint) returns (s: State)
    ensures Reachable(s) && WellSized(s) && s.cmd == CPending(dest) && s.fds.open == {3}
    ensures s.slots[0] == Slot(true, 1, 3, dest) && !s.slots[1].used && s.nextId == 2 && s.outgoing == {}
  {
    s := Start();
    s := Then(s, Connect(dest));
    s := Then(s, AcceptTest);
    s := Then(s, AcceptOk(3, dest));
    s := Then(s, AcceptAdd(true));
  }

  /** Endpoints are distinct among outgoing connections only: an incoming one with the endpoint
      being connected to can be registered behind the duplicate check. */
  lemma IncomingDuplicate(dest: Endpoint) returns (s: State)
    ensures Reachable(s) && WellSized(s) && s.slots[0].used && s.slots[1].used
    ensures s.slots[0].addr == s.slots[1].addr == dest
    ensures s.slots[0].id !in s.outgoing && s.slots[1].id in s.outgoing
  {
    s := AcceptedBehindCheck(dest);
    s := Then(s, SocketOk(4));
    assert FirstFree(s.slots) == 1;
    s := Then(s, ConnectAdd(true));
  }
}
