/** What every interleaving of mid_project/chat.c keeps, and the exact limits of it. */
module ChatSafety {
  import opened SlotTable
  import opened ChatTable
  import opened ChatSystem

  // ----- Sockets -----

  function UsedFdSet(slots: seq<Slot>): set<int> {
    set i | 0 <= i < |slots| && slots[i].used :: slots[i].sockfd
  }

  /** The same sockets as `UsedFds`, which lists them in table order. */
  lemma {:induction false} UsedFdsListed(slots: seq<Slot>, fd: int)
    ensures fd in UsedFdSet(slots) <==> fd in UsedFds(slots)
  {
    if slots != [] {
      var n := |slots| - 1;
      UsedFdsListed(slots[..n], fd);
      if fd in UsedFdSet(slots[..n]) {
        var i :| 0 <= i < n && slots[..n][i].used && slots[..n][i].sockfd == fd;
        assert slots[i].sockfd in UsedFdSet(slots);
      }
      if slots[n].used {
        assert slots[n].sockfd in UsedFdSet(slots);
      }
      if fd in UsedFdSet(slots) {
        var i :| 0 <= i < |slots| && slots[i].used && slots[i].sockfd == fd;
        assert i < n ==> slots[..n][i].sockfd in UsedFdSet(slots[..n]);
      }
    }
  }

  /** Sockets in the hands of the accept thread, respectively the command thread. */
  function AcceptFds(pc: AcceptPc): set<int> {
    match pc case AHas(fd, _) => {fd} case AFail(fd) => {fd} case _ => {}
  }

  function CommandFds(pc: CommandPc): set<int> {
    match pc case CSocket(_, fd) => {fd} case CFail(fd) => {fd} case _ => {}
  }

  /** The open sockets are the disjoint union of those in the table, one per used slot, and those
      in flight; no close ever hit a socket that was not open. */
  ghost predicate FdInv(slots: seq<Slot>, fds: Fds, flight: set<int>) {
    && fds.open == UsedFdSet(slots) + flight && UsedFdSet(slots) !! flight
    && DistinctFds(slots)
    && fds.bad == 0 && fds.opens == fds.closes + |fds.open|
  }

  lemma FdOpen(slots: seq<Slot>, fds: Fds, flight: set<int>, fd: int)
    requires FdInv(slots, fds, flight) && fd !in fds.open
    ensures FdInv(slots, Opened(fds, fd), flight + {fd})
  {
  }

  lemma FdClose(slots: seq<Slot>, fds: Fds, flight: set<int>, fd: int)
    requires FdInv(slots, fds, flight) && fd in flight
    ensures FdInv(slots, Closed(fds, fd), flight - {fd})
  {
  }

  lemma FdSetFill(slots: seq<Slot>, k: nat, s: Slot)
    requires k < |slots| && !slots[k].used
    ensures UsedFdSet(slots[k := s]) == UsedFdSet(slots) + (if s.used then {s.sockfd} else {})
  {
    var slots' := slots[k := s];
    forall fd | fd in UsedFdSet(slots) ensures fd in UsedFdSet(slots') {
      var i :| 0 <= i < |slots| && slots[i].used && slots[i].sockfd == fd;
      assert slots'[i].sockfd in UsedFdSet(slots');
    }
    assert s.used ==> slots'[k].sockfd in UsedFdSet(slots');
  }

  ghost predicate DistinctFds(slots: seq<Slot>) {
    forall i, j :: 0 <= i < j < |slots| && slots[i].used && slots[j].used ==>
      slots[i].sockfd != slots[j].sockfd
  }

  lemma FdFillDistinct(slots: seq<Slot>, k: nat, s: Slot)
    requires DistinctFds(slots) && k < |slots| && !slots[k].used
    requires s.sockfd !in UsedFdSet(slots)
    ensures DistinctFds(slots[k := s])
  {
    forall i | 0 <= i < |slots| && slots[i].used ensures slots[i].sockfd != s.sockfd {
      assert slots[i].sockfd in UsedFdSet(slots);
    }
  }

  lemma FdFill(slots: seq<Slot>, fds: Fds, flight: set<int>, k: nat, s: Slot)
    requires FdInv(slots, fds, flight) && k < |slots| && !slots[k].used && s.sockfd in flight
    ensures FdInv(slots[k := s], fds, if s.used then flight - {s.sockfd} else flight)
  {
    var u, fd := UsedFdSet(slots), s.sockfd;
    assert fd in flight && u !! flight;
    assert fd !in u;
    FdSetFill(slots, k, s);
    FdFillDistinct(slots, k, s);
    if s.used {
      assert (u + {fd}) + (flight - {fd}) == u + flight;
      assert (u + {fd}) !! (flight - {fd});
    }
  }

  lemma FdFree(slots: seq<Slot>, fds: Fds, flight: set<int>, k: nat)
    requires FdInv(slots, fds, flight) && k < |slots| && slots[k].used
    ensures FdInv(Free(slots, k), Closed(fds, slots[k].sockfd), flight)
  {
    var slots' := Free(slots, k);
    assert slots[k].sockfd in UsedFdSet(slots);
    forall fd ensures fd in UsedFdSet(slots') <==> fd in UsedFdSet(slots) && fd != slots[k].sockfd {
      if fd in UsedFdSet(slots) && fd != slots[k].sockfd {
        var i :| 0 <= i < |slots| && slots[i].used && slots[i].sockfd == fd;
        assert slots'[i].sockfd in UsedFdSet(slots');
      }
      if fd in UsedFdSet(slots') {
        var i :| 0 <= i < |slots| && slots'[i].used && slots'[i].sockfd == fd;
        assert i != k && slots[i].sockfd in UsedFdSet(slots) && slots[i].sockfd != slots[k].sockfd;
      }
    }
    assert UsedFdSet(slots') == UsedFdSet(slots) - {slots[k].sockfd};
  }

  // ----- Handlers -----

  function Bound(handlers: map<int, Handler>, i: nat): set<int> {
    set h | h in handlers && handlers[h].slot == i
  }

  /** Per slot: live handlers + handlers that left it free = used + outside terminations; and the
      handler started for a registered connection is alive and bound to its slot. */
  ghost predicate HandlerInv(s: State)
    requires WellSized(s)
  {
    && (forall i :: 0 <= i < MAX_CONN ==>
          |Bound(s.handlers, i)| + s.exits[i] == (if s.slots[i].used then 1 else 0) + s.terms[i])
    && (forall i :: 0 <= i < MAX_CONN && s.slots[i].used ==>
          s.slots[i].id in s.handlers && s.handlers[s.slots[i].id].slot == i)
    && (forall h :: h in s.handlers ==> 1 <= h < s.nextId)
  }

  lemma BoundAdd(handlers: map<int, Handler>, h: int, x: Handler, i: nat)
    requires h !in handlers
    ensures |Bound(handlers[h := x], i)| == |Bound(handlers, i)| + (if x.slot == i then 1 else 0)
  {
    assert Bound(handlers[h := x], i) == Bound(handlers, i) + (if x.slot == i then {h} else {});
  }

  lemma BoundDel(handlers: map<int, Handler>, h: int, i: nat)
    requires h in handlers
    ensures |Bound(handlers - {h}, i)| == |Bound(handlers, i)| - (if handlers[h].slot == i then 1 else 0)
  {
    assert Bound(handlers, i) == Bound(handlers - {h}, i) + (if handlers[h].slot == i then {h} else {});
  }

  lemma BoundSet(handlers: map<int, Handler>, h: int, pc: HandlerPc, i: nat)
    requires h in handlers
    ensures Bound(handlers[h := handlers[h].(pc := pc)], i) == Bound(handlers, i)
  {
  }

  // ----- The other parts -----

  /** A thread about to read back `conns[slot].id` finds the id it registered or a later one, and
      its own if that connection is still registered. */
  ghost predicate ReadInv(slots: seq<Slot>, nextId: int, slot: nat, mine: int) {
    && slot < |slots| && 1 <= mine <= slots[slot].id < nextId
    && (forall i :: 0 <= i < |slots| && slots[i].used && slots[i].id == mine ==> i == slot)
  }

  ghost predicate IdInv(s: State)
    requires WellSized(s)
  {
    && TableInv(s.slots, s.nextId)
    && (forall i :: 0 <= i < MAX_CONN ==> s.slots[i].id < s.nextId)
    && (s.acc.ARet? ==> ReadInv(s.slots, s.nextId, s.acc.slot, s.acc.mine))
    && (s.cmd.CRet? ==> ReadInv(s.slots, s.nextId, s.cmd.slot, s.cmd.mine))
  }

  function PendingDest(pc: CommandPc): set<Endpoint> {
    match pc case CPending(dest) => {dest} case CSocket(dest, _) => {dest} case _ => {}
  }

  predicate IsOutgoing(s: State, i: nat) {
    i < |s.slots| && s.slots[i].used && s.slots[i].id in s.outgoing
  }

  /** Registered outgoing connections have distinct endpoints, none of them the one the command
      thread is about to register. */
  ghost predicate OutInv(s: State)
    requires WellSized(s)
  {
    && (forall i, j :: 0 <= i < j < MAX_CONN && IsOutgoing(s, i) && IsOutgoing(s, j) ==>
          s.slots[i].addr != s.slots[j].addr)
    && (forall i :: 0 <= i < MAX_CONN && IsOutgoing(s, i) ==>
          s.slots[i].addr !in PendingDest(s.cmd))
    && (forall id :: id in s.outgoing ==> id < s.nextId)
  }

  /** After the sweep of `cleanup_and_exit` at most the connection that the accept thread already
      had in hand can still be registered. */
  ghost predicate ExitInv(s: State)
    requires WellSized(s)
  {
    && (s.running <==> !(s.cmd == CStopping || s.cmd == CSwept || s.cmd == CGone))
    && (s.acc == ADone ==> !s.running)
    && (s.cmd == CSwept || s.cmd == CGone ==>
          && (forall i, j :: 0 <= i < j < MAX_CONN ==> !s.slots[i].used || !s.slots[j].used)
          && (s.acc == AWaiting || s.acc.AHas? ==> forall i :: 0 <= i < MAX_CONN ==> !s.slots[i].used))
  }

  ghost predicate SocketInv(s: State) {
    && FdInv(s.slots, s.fds, AcceptFds(s.acc) + CommandFds(s.cmd))
    && AcceptFds(s.acc) !! CommandFds(s.cmd)
  }

  ghost predicate Inv(s: State) {
    WellSized(s) && SocketInv(s) && HandlerInv(s) && IdInv(s) && OutInv(s) && ExitInv(s)
  }

  // ----- Registration, dropping and leaving keep it -----

  lemma RegisterHandlers(s: State, fd: int, addr: Endpoint, threadOk: bool)
    requires WellSized(s) && HandlerInv(s) && IdInv(s)
    ensures WellSized(Register(s, fd, addr, threadOk)) && HandlerInv(Register(s, fd, addr, threadOk))
  {
    var k := FirstFree(s.slots);
    if k < |s.slots| && threadOk {
      forall i | 0 <= i < MAX_CONN {
        BoundAdd(s.handlers, s.nextId, Handler(k, HTop), i);
      }
    }
  }

  lemma DropHandlers(s: State, k: nat)
    requires WellSized(s) && HandlerInv(s) && k < MAX_CONN && s.slots[k].used
    ensures HandlerInv(Terminated(s, k))
  {
  }

  lemma OwnDropHandlers(s: State, h: int)
    requires WellSized(s) && HandlerInv(s) && IdInv(s) && h in s.handlers
    requires s.slots[s.handlers[h].slot].used
    ensures HandlerInv(Drop(s, s.handlers[h].slot).(handlers := s.handlers - {h}))
  {
    var k := s.handlers[h].slot;
    forall i | 0 <= i < MAX_CONN {
      BoundDel(s.handlers, h, i);
    }
    assert forall i :: 0 <= i < MAX_CONN && i != k && s.slots[i].used ==> s.slots[i].id != h;
  }

  lemma LeaveHandlers(s: State, h: int)
    requires WellSized(s) && HandlerInv(s) && h in s.handlers && !s.slots[s.handlers[h].slot].used
    ensures WellSized(LeaveFree(s, h)) && HandlerInv(LeaveFree(s, h))
  {
    forall i | 0 <= i < MAX_CONN {
      BoundDel(s.handlers, h, i);
    }
  }

  lemma SetHandlers(s: State, h: int, pc: HandlerPc)
    requires WellSized(s) && HandlerInv(s) && h in s.handlers
    ensures WellSized(SetHandler(s, h, pc)) && HandlerInv(SetHandler(s, h, pc))
  {
    forall i | 0 <= i < MAX_CONN {
      BoundSet(s.handlers, h, pc, i);
    }
  }

  /** `t` differs from `s` in slot `k` being freed, and in handlers, sockets and counts. */
  predicate Freed(s: State, t: State, k: nat)
    requires k < |s.slots|
  {
    && t.slots == Free(s.slots, k) && t.nextId == s.nextId && t.running == s.running
    && t.acc == s.acc && t.cmd == s.cmd && t.outgoing == s.outgoing
  }

  lemma FreedKeepsIds(s: State, t: State, k: nat)
    requires WellSized(s) && WellSized(t) && k < MAX_CONN && Freed(s, t, k) && IdInv(s)
    ensures IdInv(t)
  {
  }

  // ----- Every step keeps it -----

  lemma {:induction false} SweepSockets(s: State, k: nat, flight: set<int>)
    requires k <= |s.slots| == |s.terms| && FdInv(s.slots, s.fds, flight)
    ensures FdInv(SweepFrom(s, k).slots, SweepFrom(s, k).fds, flight)
    decreases |s.slots| - k
  {
    if k < |s.slots| {
      if s.slots[k].used {
        FdFree(s.slots, s.fds, flight, k);
        SweepSockets(Terminated(s, k), k + 1, flight);
      } else {
        SweepSockets(s, k + 1, flight);
      }
    }
  }

  lemma RegisterSockets(s: State, fd: int, addr: Endpoint, threadOk: bool, flight: set<int>)
    requires FdInv(s.slots, s.fds, flight) && fd in flight
    ensures var t := Register(s, fd, addr, threadOk);
            FdInv(t.slots, t.fds, if TakenSlot(s, threadOk) >= 0 then flight - {fd} else flight)
  {
    var k := FirstFree(s.slots);
    if k < |s.slots| {
      FdFill(s.slots, s.fds, flight, k, Slot(threadOk, s.nextId, fd, addr));
    }
  }

  /** Opening, closing and registering a socket that is in flight, seen from the set in flight. */
  lemma OpenSockets(s: State, t: State, fd: int)
    requires SocketInv(s) && fd !in s.fds.open && t.slots == s.slots && t.fds == Opened(s.fds, fd)
    requires AcceptFds(t.acc) + CommandFds(t.cmd) == AcceptFds(s.acc) + CommandFds(s.cmd) + {fd}
    requires AcceptFds(t.acc) !! CommandFds(t.cmd)
    ensures SocketInv(t)
  {
    FdOpen(s.slots, s.fds, AcceptFds(s.acc) + CommandFds(s.cmd), fd);
  }

  lemma CloseSockets(s: State, t: State, fd: int)
    requires SocketInv(s) && t.slots == s.slots && t.fds == Closed(s.fds, fd)
    requires fd in AcceptFds(s.acc) + CommandFds(s.cmd)
    requires AcceptFds(t.acc) + CommandFds(t.cmd) == AcceptFds(s.acc) + CommandFds(s.cmd) - {fd}
    requires AcceptFds(t.acc) !! CommandFds(t.cmd)
    ensures SocketInv(t)
  {
    FdClose(s.slots, s.fds, AcceptFds(s.acc) + CommandFds(s.cmd), fd);
  }

  lemma AddSockets(s: State, t: State, fd: int, addr: Endpoint, threadOk: bool)
    requires SocketInv(s) && t.slots == Register(s, fd, addr, threadOk).slots && t.fds == s.fds
    requires var f := AcceptFds(s.acc) + CommandFds(s.cmd);
             fd in f && AcceptFds(t.acc) + CommandFds(t.cmd)
                     == if TakenSlot(s, threadOk) >= 0 then f - {fd} else f
    requires AcceptFds(t.acc) !! CommandFds(t.cmd)
    ensures SocketInv(t)
  {
    RegisterSockets(s, fd, addr, threadOk, AcceptFds(s.acc) + CommandFds(s.cmd));
  }

  lemma SameSockets(s: State, t: State)
    requires SocketInv(s) && t.slots == s.slots && t.fds == s.fds
    requires AcceptFds(t.acc) == AcceptFds(s.acc) && CommandFds(t.cmd) == CommandFds(s.cmd)
    ensures SocketInv(t)
  {
  }

  lemma AddFlight(s: State, a: Action, t: State)
    requires WellSized(s) && Enabled(s, a) && (a.AcceptAdd? || a.ConnectAdd?) && t == Step(s, a)
    requires AcceptFds(s.acc) !! CommandFds(s.cmd)
    ensures var (fd, addr) := if a.AcceptAdd? then (s.acc.fd, s.acc.addr) else (s.cmd.fd, s.cmd.dest);
            var f := AcceptFds(s.acc) + CommandFds(s.cmd);
            && fd in f && t.slots == Register(s, fd, addr, a.threadOk).slots && t.fds == s.fds
            && AcceptFds(t.acc) !! CommandFds(t.cmd)
            && AcceptFds(t.acc) + CommandFds(t.cmd) == if TakenSlot(s, a.threadOk) >= 0 then f - {fd} else f
  {
  }

  lemma AddKeepsSockets(s: State, a: Action, t: State)
    requires WellSized(s) && SocketInv(s) && Enabled(s, a) && (a.AcceptAdd? || a.ConnectAdd?)
    requires t == Step(s, a)
    ensures SocketInv(t)
  {
    AddFlight(s, a, t);
    if a.AcceptAdd? {
      AddSockets(s, t, s.acc.fd, s.acc.addr, a.threadOk);
    } else {
      AddSockets(s, t, s.cmd.fd, s.cmd.dest, a.threadOk);
    }
  }

  lemma OpenFlight(s: State, a: Action, t: State)
    requires WellSized(s) && Enabled(s, a) && (a.AcceptOk? || a.SocketOk?) && t == Step(s, a)
    requires AcceptFds(s.acc) !! CommandFds(s.cmd) && a.fd !in AcceptFds(s.acc) + CommandFds(s.cmd)
    ensures a.fd !in s.fds.open && t.slots == s.slots && t.fds == Opened(s.fds, a.fd)
    ensures AcceptFds(t.acc) + CommandFds(t.cmd) == AcceptFds(s.acc) + CommandFds(s.cmd) + {a.fd}
    ensures AcceptFds(t.acc) !! CommandFds(t.cmd)
  {
  }

  function ClosedFd(s: State, a: Action): int {
    if a.AcceptClose? && s.acc.AFail? then s.acc.fd
    else if s.cmd.CSocket? || s.cmd.CFail? then s.cmd.fd else -1
  }

  lemma CloseFlight(s: State, a: Action, t: State)
    requires WellSized(s) && Enabled(s, a) && t == Step(s, a)
    requires a.AcceptClose? || a.ConnectError? || a.ConnectClose?
    requires AcceptFds(s.acc) !! CommandFds(s.cmd)
    ensures var fd := ClosedFd(s, a);
            && t.slots == s.slots && t.fds == Closed(s.fds, fd)
            && fd in AcceptFds(s.acc) + CommandFds(s.cmd)
            && AcceptFds(t.acc) + CommandFds(t.cmd) == AcceptFds(s.acc) + CommandFds(s.cmd) - {fd}
    ensures AcceptFds(t.acc) !! CommandFds(t.cmd)
  {
  }

  /** The table and the sockets have changed, what is in flight has not. */
  lemma SameFlight(s: State, t: State)
    requires SocketInv(s) && FdInv(t.slots, t.fds, AcceptFds(s.acc) + CommandFds(s.cmd))
    requires AcceptFds(t.acc) == AcceptFds(s.acc) && CommandFds(t.cmd) == CommandFds(s.cmd)
    ensures SocketInv(t)
  {
  }

  lemma TerminateKeepsSockets(s: State, id: int, t: State)
    requires WellSized(s) && SocketInv(s) && Enabled(s, Terminate(id)) && t == CommandStep(s, Terminate(id))
    ensures SocketInv(t)
  {
    var k := IndexOf(s.slots, id);
    if k < |s.slots| {
      FdFree(s.slots, s.fds, AcceptFds(s.acc) + CommandFds(s.cmd), k);
    }
    SameFlight(s, t);
  }

  lemma SweepKeepsSockets(s: State, t: State)
    requires WellSized(s) && SocketInv(s) && s.cmd == CStopping && t == SweepFrom(s, 0).(cmd := CSwept)
    ensures SocketInv(t)
  {
    SweepSockets(s, 0, AcceptFds(s.acc) + CommandFds(s.cmd));
    SweepSized(s, 0);
    SameFlight(s, t);
  }

  /** The remaining steps of the accept and the command thread move no socket. That the ids read
      back are not negative keeps the threads from closing a socket they no longer own. */
  lemma MovesNoSocket(s: State, a: Action, t: State)
    requires WellSized(s) && IdInv(s) && Enabled(s, a) && t == Step(s, a) && !OfHandler(a)
    requires !a.AcceptAdd? && !a.ConnectAdd? && !a.Terminate? && !a.Sweep?
    requires !a.AcceptOk? && !a.SocketOk? && !a.AcceptClose? && !a.ConnectError? && !a.ConnectClose?
    ensures t.slots == s.slots && t.fds == s.fds
    ensures AcceptFds(t.acc) == AcceptFds(s.acc) && CommandFds(t.cmd) == CommandFds(s.cmd)
  {
  }

  lemma HandlerKeepsSockets(s: State, a: Action, t: State)
    requires WellSized(s) && SocketInv(s) && Enabled(s, a) && OfHandler(a) && t == HandlerStep(s, a)
    ensures SocketInv(t)
  {
    var flight := AcceptFds(s.acc) + CommandFds(s.cmd);
    if a.HandlerDrop? && s.slots[s.handlers[a.h].slot].used {
      FdFree(s.slots, s.fds, flight, s.handlers[a.h].slot);
    }
    SameFlight(s, t);
  }

  lemma {:induction false} SweepHandlers(s: State, k: nat)
    requires WellSized(s) && HandlerInv(s) && k <= MAX_CONN
    ensures WellSized(SweepFrom(s, k)) && HandlerInv(SweepFrom(s, k))
    decreases MAX_CONN - k
  {
    if k < MAX_CONN {
      if s.slots[k].used {
        DropHandlers(s, k);
        SweepHandlers(Terminated(s, k), k + 1);
      } else {
        SweepHandlers(s, k + 1);
      }
    }
  }

  /** `HandlerInv` looks at the table, the handlers and the counts only. */
  lemma SameHandlers(s: State, t: State)
    requires WellSized(s) && HandlerInv(s) && WellSized(t) && t.slots == s.slots && t.nextId == s.nextId
    requires t.handlers == s.handlers && t.terms == s.terms && t.exits == s.exits
    ensures HandlerInv(t)
  {
  }

  lemma AddKeepsHandlers(s: State, a: Action, t: State)
    requires WellSized(s) && HandlerInv(s) && IdInv(s) && Enabled(s, a) && WellSized(t) && t == Step(s, a)
    requires a.AcceptAdd? || a.ConnectAdd?
    ensures HandlerInv(t)
  {
    var fd, addr := if a.AcceptAdd? then s.acc.fd else s.cmd.fd, if a.AcceptAdd? then s.acc.addr else s.cmd.dest;
    RegisterHandlers(s, fd, addr, a.threadOk);
    SameHandlers(Register(s, fd, addr, a.threadOk), t);
  }

  lemma SweepKeepsHandlers(s: State, t: State)
    requires WellSized(s) && HandlerInv(s) && WellSized(t) && t == SweepFrom(s, 0).(cmd := CSwept)
    ensures HandlerInv(t)
  {
    SweepHandlers(s, 0);
    SameHandlers(SweepFrom(s, 0), t);
  }

  lemma HandlerKeepsHandlers(s: State, a: Action, t: State)
    requires WellSized(s) && HandlerInv(s) && IdInv(s) && Enabled(s, a) && OfHandler(a)
    requires t == HandlerStep(s, a)
    ensures WellSized(t) && HandlerInv(t)
  {
    var k := s.handlers[a.h].slot;
    if (a.HandlerCheck? || a.HandlerDrop?) && !s.slots[k].used {
      LeaveHandlers(s, a.h);
    } else if a.HandlerDrop? {
      HandlerSized(s, a);
      OwnDropHandlers(s, a.h);
    } else {
      SetHandlers(s, a.h, t.handlers[a.h].pc);
    }
  }

  /** The other steps of the accept and the command thread leave handlers and table alone. */
  lemma MovesNoHandler(s: State, a: Action, t: State)
    requires WellSized(s) && Enabled(s, a) && t == Step(s, a) && !OfHandler(a)
    requires !a.AcceptAdd? && !a.ConnectAdd? && !a.Sweep?
    requires a.Terminate? ==> IndexOf(s.slots, a.id) == |s.slots|
    ensures t.slots == s.slots && t.nextId == s.nextId
    ensures t.handlers == s.handlers && t.terms == s.terms && t.exits == s.exits
  {
  }

  lemma StepKeepsHandlers(s: State, a: Action, t: State)
    requires WellSized(s) && HandlerInv(s) && IdInv(s) && Enabled(s, a) && WellSized(t) && t == Step(s, a)
    ensures HandlerInv(t)
  {
    if OfHandler(a) {
      HandlerKeepsHandlers(s, a, t);
    } else if a.AcceptAdd? || a.ConnectAdd? {
      AddKeepsHandlers(s, a, t);
    } else if a.Sweep? {
      SweepKeepsHandlers(s, t);
    } else if a.Terminate? && IndexOf(s.slots, a.id) < |s.slots| {
      DropHandlers(s, IndexOf(s.slots, a.id));
    } else {
      MovesNoHandler(s, a, t);
      SameHandlers(s, t);
    }
  }

  lemma RegisterKeepsTable(s: State, fd: int, addr: Endpoint, threadOk: bool)
    requires WellSized(s) && TableInv(s.slots, s.nextId)
    requires forall i :: 0 <= i < MAX_CONN ==> s.slots[i].id < s.nextId
    ensures var t := Register(s, fd, addr, threadOk);
            TableInv(t.slots, t.nextId) && forall i :: 0 <= i < MAX_CONN ==> t.slots[i].id < t.nextId
  {
    AddInserts(s.slots, s.nextId, fd, addr, threadOk);
  }

  /** The slot taken carries the new id, and no other slot does. */
  lemma RegisterIsRead(s: State, fd: int, addr: Endpoint, threadOk: bool)
    requires WellSized(s) && TableInv(s.slots, s.nextId) && TakenSlot(s, threadOk) >= 0
    ensures var t := Register(s, fd, addr, threadOk);
            ReadInv(t.slots, t.nextId, TakenSlot(s, threadOk), s.nextId)
  {
    var k := TakenSlot(s, threadOk);
    var slots := Register(s, fd, addr, threadOk).slots;
    assert slots == s.slots[k := Slot(true, s.nextId, fd, addr)];
    assert forall i :: 0 <= i < |slots| && i != k && slots[i].used ==> slots[i].id < s.nextId;
  }

  lemma RegisterKeepsRead(s: State, fd: int, addr: Endpoint, threadOk: bool, slot: nat, mine: int)
    requires ReadInv(s.slots, s.nextId, slot, mine)
    ensures ReadInv(Register(s, fd, addr, threadOk).slots, Register(s, fd, addr, threadOk).nextId, slot, mine)
  {
  }

  lemma RegisterKeepsIds(s: State, fd: int, addr: Endpoint, threadOk: bool)
    requires WellSized(s) && IdInv(s)
    ensures var t := Register(s, fd, addr, threadOk);
            && TableInv(t.slots, t.nextId) && (forall i :: 0 <= i < MAX_CONN ==> t.slots[i].id < t.nextId)
            && (s.acc.ARet? ==> ReadInv(t.slots, t.nextId, s.acc.slot, s.acc.mine))
            && (s.cmd.CRet? ==> ReadInv(t.slots, t.nextId, s.cmd.slot, s.cmd.mine))
            && (var k := TakenSlot(s, threadOk); k >= 0 ==> ReadInv(t.slots, t.nextId, k, s.nextId))
  {
    RegisterKeepsTable(s, fd, addr, threadOk);
    if TakenSlot(s, threadOk) >= 0 {
      RegisterIsRead(s, fd, addr, threadOk);
    }
    if s.acc.ARet? {
      RegisterKeepsRead(s, fd, addr, threadOk, s.acc.slot, s.acc.mine);
    }
    if s.cmd.CRet? {
      RegisterKeepsRead(s, fd, addr, threadOk, s.cmd.slot, s.cmd.mine);
    }
  }

  lemma SweepKeepsIds(s: State, t: State)
    requires WellSized(s) && IdInv(s) && WellSized(t) && t == SweepFrom(s, 0).(cmd := CSwept)
    ensures IdInv(t)
  {
    SweepSized(s, 0);
  }

  /** Table and ids are as before, and no thread has come to read an id back. */
  lemma SameIds(s: State, t: State)
    requires WellSized(s) && IdInv(s) && WellSized(t) && t.slots == s.slots && t.nextId == s.nextId
    requires t.acc == s.acc || !t.acc.ARet?
    requires t.cmd == s.cmd || !t.cmd.CRet?
    ensures IdInv(t)
  {
  }

  lemma AddKeepsIds(s: State, a: Action, t: State)
    requires WellSized(s) && IdInv(s) && Enabled(s, a) && WellSized(t) && t == Step(s, a)
    requires a.AcceptAdd? || a.ConnectAdd?
    ensures IdInv(t)
  {
    if a.AcceptAdd? {
      RegisterKeepsIds(s, s.acc.fd, s.acc.addr, a.threadOk);
    } else {
      RegisterKeepsIds(s, s.cmd.fd, s.cmd.dest, a.threadOk);
    }
  }

  lemma HandlerKeepsIds(s: State, a: Action, t: State)
    requires WellSized(s) && IdInv(s) && Enabled(s, a) && OfHandler(a) && WellSized(t) && t == HandlerStep(s, a)
    ensures IdInv(t)
  {
    if a.HandlerDrop? && s.slots[s.handlers[a.h].slot].used {
      FreedKeepsIds(s, t, s.handlers[a.h].slot);
    } else {
      SameIds(s, t);
    }
  }

  lemma TerminateKeepsIds(s: State, id: int, t: State)
    requires WellSized(s) && IdInv(s) && Enabled(s, Terminate(id)) && WellSized(t)
    requires t == CommandStep(s, Terminate(id))
    ensures IdInv(t)
  {
    if IndexOf(s.slots, id) < |s.slots| {
      FreedKeepsIds(s, t, IndexOf(s.slots, id));
    }
  }

  /** The other steps of the accept and the command thread neither touch the table nor register. */
  lemma MovesNoId(s: State, a: Action, t: State)
    requires WellSized(s) && Enabled(s, a) && t == Step(s, a) && !OfHandler(a)
    requires !a.AcceptAdd? && !a.ConnectAdd? && !a.Sweep? && !a.Terminate?
    ensures t.slots == s.slots && t.nextId == s.nextId
    ensures t.acc == s.acc || !t.acc.ARet?
    ensures t.cmd == s.cmd || !t.cmd.CRet?
  {
  }

  lemma StepKeepsIds(s: State, a: Action, t: State)
    requires WellSized(s) && IdInv(s) && Enabled(s, a) && WellSized(t) && t == Step(s, a)
    ensures IdInv(t)
  {
    if OfHandler(a) {
      HandlerKeepsIds(s, a, t);
    } else if a.AcceptAdd? || a.ConnectAdd? {
      AddKeepsIds(s, a, t);
    } else if a.Terminate? {
      TerminateKeepsIds(s, a.id, t);
    } else if a.Sweep? {
      SweepKeepsIds(s, t);
    } else {
      MovesNoId(s, a, t);
      SameIds(s, t);
    }
  }

  lemma AcceptAddKeepsOut(s: State, threadOk: bool, t: State)
    requires WellSized(s) && IdInv(s) && OutInv(s) && WellSized(t)
    requires Enabled(s, AcceptAdd(threadOk)) && t == Step(s, AcceptAdd(threadOk))
    ensures OutInv(t)
  {
    forall i | 0 <= i < MAX_CONN && IsOutgoing(t, i) ensures IsOutgoing(s, i) && t.slots[i] == s.slots[i] {
    }
  }

  lemma ConnectAddKeepsOut(s: State, threadOk: bool, t: State)
    requires WellSized(s) && IdInv(s) && OutInv(s) && WellSized(t)
    requires Enabled(s, ConnectAdd(threadOk)) && t == Step(s, ConnectAdd(threadOk))
    ensures OutInv(t)
  {
    var k, dest := TakenSlot(s, threadOk), s.cmd.dest;
    forall i | 0 <= i < MAX_CONN && IsOutgoing(t, i) && i != k
      ensures IsOutgoing(s, i) && t.slots[i] == s.slots[i] && t.slots[i].addr != dest
    {
    }
    assert k >= 0 ==> t.slots[k].addr == dest;
  }

  /** No slot has become outgoing and the pending endpoint is old, gone or checked. */
  lemma FewerOut(s: State, t: State)
    requires WellSized(s) && OutInv(s) && WellSized(t) && t.nextId == s.nextId && t.outgoing == s.outgoing
    requires forall i :: 0 <= i < MAX_CONN && t.slots[i].used ==> t.slots[i] == s.slots[i]
    requires forall dest :: dest in PendingDest(t.cmd) ==> dest in PendingDest(s.cmd) || !HasPeer(s.slots, dest)
    ensures OutInv(t)
  {
    assert forall i :: 0 <= i < MAX_CONN && IsOutgoing(t, i) ==> IsOutgoing(s, i);
  }

  /** The slot that a step of the command thread or of a handler frees, or the table's length. */
  function FreedSlot(s: State, a: Action): nat
    requires WellSized(s) && Enabled(s, a)
  {
    if a.Terminate? then IndexOf(s.slots, a.id)
    else if a.HandlerDrop? && s.slots[s.handlers[a.h].slot].used then s.handlers[a.h].slot
    else |s.slots|
  }

  lemma FreesThatSlot(s: State, a: Action, t: State)
    requires WellSized(s) && Enabled(s, a) && WellSized(t) && t == Step(s, a)
    requires !a.AcceptAdd? && !a.ConnectAdd? && !a.Sweep?
    ensures if FreedSlot(s, a) < |s.slots| then Freed(s, t, FreedSlot(s, a)) else t.slots == s.slots
  {
  }

  lemma FreesAtMostOne(s: State, a: Action, t: State)
    requires WellSized(s) && Enabled(s, a) && WellSized(t) && t == Step(s, a)
    requires !a.AcceptAdd? && !a.ConnectAdd? && !a.Sweep?
    ensures forall i :: 0 <= i < MAX_CONN && t.slots[i].used ==> t.slots[i] == s.slots[i]
  {
    FreesThatSlot(s, a, t);
  }

  /** A pending endpoint is old or has just passed the duplicate check. */
  lemma PendingChecked(s: State, a: Action, t: State)
    requires WellSized(s) && Enabled(s, a) && t == Step(s, a) && !a.AcceptAdd? && !a.ConnectAdd? && !a.Sweep?
    ensures t.nextId == s.nextId && t.outgoing == s.outgoing
    ensures forall dest :: dest in PendingDest(t.cmd) ==> dest in PendingDest(s.cmd) || !HasPeer(s.slots, dest)
  {
  }

  lemma StepKeepsOut(s: State, a: Action, t: State)
    requires WellSized(s) && IdInv(s) && OutInv(s) && Enabled(s, a) && WellSized(t) && t == Step(s, a)
    ensures OutInv(t)
  {
    if a.AcceptAdd? {
      AcceptAddKeepsOut(s, a.threadOk, t);
    } else if a.ConnectAdd? {
      ConnectAddKeepsOut(s, a.threadOk, t);
    } else {
      if a.Sweep? {
        SweepSized(s, 0);
      } else {
        FreesAtMostOne(s, a, t);
        PendingChecked(s, a, t);
      }
      FewerOut(s, t);
    }
  }

  /** What the other steps do to the threads that `ExitInv` speaks of. */
  lemma MovesOn(s: State, a: Action, t: State)
    requires WellSized(s) && ExitInv(s) && Enabled(s, a) && t == Step(s, a)
    requires !a.AcceptAdd? && !a.ConnectAdd? && !a.Sweep?
    ensures t.running <==> !(t.cmd == CStopping || t.cmd == CSwept || t.cmd == CGone)
    ensures t.acc == ADone ==> !t.running
    ensures t.cmd == CSwept || t.cmd == CGone ==> s.cmd == CSwept && !s.running
    ensures !s.running && (t.acc == AWaiting || t.acc.AHas?) ==> s.acc == AWaiting || s.acc.AHas?
  {
  }

  lemma MovesKeepExit(s: State, a: Action, t: State)
    requires WellSized(s) && ExitInv(s) && Enabled(s, a) && WellSized(t) && t == Step(s, a)
    requires !a.AcceptAdd? && !a.ConnectAdd? && !a.Sweep?
    ensures ExitInv(t)
  {
    MovesOn(s, a, t);
    FreesAtMostOne(s, a, t);
  }

  lemma AddKeepsExit(s: State, a: Action, t: State)
    requires WellSized(s) && ExitInv(s) && Enabled(s, a) && WellSized(t) && t == Step(s, a)
    requires a.AcceptAdd? || a.ConnectAdd?
    ensures ExitInv(t)
  {
    assert t.running == s.running && (a.ConnectAdd? ==> s.running);
  }

  lemma SweepKeepsExit(s: State, t: State)
    requires WellSized(s) && ExitInv(s) && Enabled(s, Sweep) && WellSized(t)
    requires t == SweepFrom(s, 0).(cmd := CSwept)
    ensures ExitInv(t)
  {
    SweepSized(s, 0);
  }

  lemma StepKeepsExit(s: State, a: Action, t: State)
    requires WellSized(s) && ExitInv(s) && Enabled(s, a) && WellSized(t) && t == Step(s, a)
    ensures ExitInv(t)
  {
    if a.AcceptAdd? || a.ConnectAdd? {
      AddKeepsExit(s, a, t);
    } else if a.Sweep? {
      SweepKeepsExit(s, t);
    } else {
      MovesKeepExit(s, a, t);
    }
  }

  lemma StepKeepsSockets(s: State, a: Action, t: State)
    requires WellSized(s) && SocketInv(s) && IdInv(s) && Enabled(s, a) && t == Step(s, a)
    ensures SocketInv(t)
  {
    if a.AcceptAdd? || a.ConnectAdd? {
      AddKeepsSockets(s, a, t);
    } else if a.AcceptOk? || a.SocketOk? {
      OpenFlight(s, a, t);
      OpenSockets(s, t, a.fd);
    } else if a.AcceptClose? || a.ConnectError? || a.ConnectClose? {
      CloseFlight(s, a, t);
      CloseSockets(s, t, ClosedFd(s, a));
    } else if OfHandler(a) {
      HandlerKeepsSockets(s, a, t);
    } else if a.Terminate? {
      TerminateKeepsSockets(s, a.id, t);
    } else if a.Sweep? {
      SweepKeepsSockets(s, t);
    } else {
      MovesNoSocket(s, a, t);
      SameSockets(s, t);
    }
  }

  lemma StepKeepsInv(s: State, a: Action)
    requires Inv(s) && Enabled(s, a)
    ensures Inv(Step(s, a))
  {
    var t := Step(s, a);
    StepSized(s, a);
    StepKeepsSockets(s, a, t);
    StepKeepsHandlers(s, a, t);
    StepKeepsIds(s, a, t);
    StepKeepsOut(s, a, t);
    StepKeepsExit(s, a, t);
  }

  lemma InitInv()
    ensures Inv(Init())
  {
    var s := Init();
    assert UsedFdSet(s.slots) == {};
    assert forall i: nat :: Bound(s.handlers, i) == {};
  }

  lemma {:induction false} RunKeepsInv(s: State, acts: seq<Action>)
    requires Inv(s) && ValidFrom(s, acts)
    ensures Inv(Exec(s, acts))
    decreases |acts|
  {
    if acts != [] {
      StepKeepsInv(s, acts[0]);
      RunKeepsInv(Step(s, acts[0]), acts[1..]);
    }
  }
}
