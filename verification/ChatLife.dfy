/**
 The life of a connection of mid_project/chat.c over runs: how it gets into the table, what can
 take it out, on which socket its handler receives, and how many connections there can be.
 */
module ChatLife {
  import opened SlotTable
  import opened ChatTable
  import opened ChatSystem
  import opened ChatSafety
  import opened ChatRuns
  import opened ChatTheorems
  import opened ChatReadBack

  // ----- One step, seen on the map -----

  function HeldFd(s: State, a: Action): int
    requires Enabled(s, a) && Registers(s, a)
  {
    if a.AcceptAdd? then s.acc.fd else s.cmd.fd
  }

  ghost predicate TableOk(s: State) {
    WellSized(s) && TableInv(s.slots, s.nextId)
  }

  lemma InvTable(s: State)
    requires Inv(s)
    ensures TableOk(s)
  {
  }

  lemma RegistersOnTable(s: State, a: Action, t: State)
    requires TableOk(s) && Enabled(s, a) && t == Step(s, a) && Registers(s, a)
    ensures Live(t.slots) == Live(s.slots)[s.nextId := Conn(HeldFd(s, a), NewPeer(s, a))]
    ensures s.nextId !in Live(s.slots) && t.nextId == s.nextId + 1
  {
    AddInserts(s.slots, s.nextId, HeldFd(s, a), NewPeer(s, a), a.threadOk);
    FullExactlyAtCapacity(s.slots, s.nextId);
  }

  lemma FailsOnTable(s: State, a: Action, t: State)
    requires TableOk(s) && Enabled(s, a) && t == Step(s, a) && (a.AcceptAdd? || a.ConnectAdd?) && !Registers(s, a)
    ensures Live(t.slots) == Live(s.slots) && t.nextId >= s.nextId
  {
    var fd, addr := if a.AcceptAdd? then s.acc.fd else s.cmd.fd, if a.AcceptAdd? then s.acc.addr else s.cmd.dest;
    AddInserts(s.slots, s.nextId, fd, addr, a.threadOk);
    FullExactlyAtCapacity(s.slots, s.nextId);
  }

  lemma TerminateOnTable(s: State, id: int, t: State)
    requires TableOk(s) && Enabled(s, Terminate(id)) && t == Step(s, Terminate(id))
    ensures Live(t.slots) == Live(s.slots) - {id} && t.nextId == s.nextId
  {
    TerminateSlots(s, id, t);
    RemoveDeletes(s.slots, s.nextId, id);
  }

  lemma TerminateSlots(s: State, id: int, t: State)
    requires WellSized(s) && Enabled(s, Terminate(id)) && t == Step(s, Terminate(id))
    ensures t.slots == Remove(s.slots, id) && t.nextId == s.nextId
  {
  }

  lemma SweepOnTable(s: State, t: State)
    requires TableOk(s) && Enabled(s, Sweep) && t == Step(s, Sweep)
    ensures Live(t.slots) == map[] && t.nextId == s.nextId
  {
    SweepSized(s, 0);
    assert UsedIds(t.slots) == {};
  }

  /** The id that a failed handler drops, if its slot is used. */
  predicate DropsId(s: State, a: Action, id: int) {
    && a.HandlerDrop? && a.h in s.handlers && s.handlers[a.h].slot < |s.slots|
    && s.slots[s.handlers[a.h].slot].used && s.slots[s.handlers[a.h].slot].id == id
  }

  lemma DropOnTable(s: State, h: int, t: State)
    requires TableOk(s) && Enabled(s, HandlerDrop(h)) && t == Step(s, HandlerDrop(h))
    requires s.slots[s.handlers[h].slot].used
    ensures Live(t.slots) == Live(s.slots) - {s.slots[s.handlers[h].slot].id} && t.nextId == s.nextId
  {
    FreeRemoves(s.slots, s.nextId, s.handlers[h].slot);
  }

  lemma QuietOnTable(s: State, a: Action, t: State)
    requires WellSized(s) && Enabled(s, a) && t == Step(s, a)
    requires !a.AcceptAdd? && !a.ConnectAdd? && !a.Terminate? && !a.Sweep?
    requires a.HandlerDrop? ==> !s.slots[s.handlers[a.h].slot].used
    ensures t.slots == s.slots && t.nextId == s.nextId
  {
  }

  predicate Removes(s: State, a: Action, id: int) {
    a == Terminate(id) || a == Sweep || DropsId(s, a, id)
  }

  /** From `m` to `m'`: `id` stays unless `out`, and is new only if `key` is being put in. */
  predicate Entry(m: map<int, Conn>, m': map<int, Conn>, id: int, out: bool, put: bool, key: int) {
    && (id in m' <==> (id in m && !out) || (put && id == key))
    && (id in m && id in m' ==> m'[id] == m[id])
  }

  lemma AddOnTable(s: State, a: Action, t: State, id: int)
    requires TableOk(s) && Enabled(s, a) && t == Step(s, a) && (a.AcceptAdd? || a.ConnectAdd?)
    ensures t.nextId >= s.nextId && Entry(Live(s.slots), Live(t.slots), id, false, Registers(s, a), s.nextId)
    ensures Registers(s, a) ==>
              s.nextId in Live(t.slots) && Live(t.slots)[s.nextId] == Conn(HeldFd(s, a), NewPeer(s, a))
  {
    if Registers(s, a) {
      RegistersOnTable(s, a, t);
    } else {
      FailsOnTable(s, a, t);
    }
  }

  lemma RemovesOnTable(s: State, a: Action, t: State, id: int)
    requires TableOk(s) && Enabled(s, a) && t == Step(s, a) && !a.AcceptAdd? && !a.ConnectAdd?
    ensures t.nextId >= s.nextId && Entry(Live(s.slots), Live(t.slots), id, Removes(s, a, id), false, s.nextId)
  {
    if a.Terminate? {
      TerminateOnTable(s, a.id, t);
    } else if a.Sweep? {
      SweepOnTable(s, t);
    } else if a.HandlerDrop? {
      DropsOnTable(s, a.h, t, id);
    } else {
      KeepsTable(s, a, t, id);
    }
  }

  lemma KeepsTable(s: State, a: Action, t: State, id: int)
    requires WellSized(s) && Enabled(s, a) && t == Step(s, a)
    requires !a.AcceptAdd? && !a.ConnectAdd? && !a.Terminate? && !a.Sweep? && !a.HandlerDrop?
    ensures t.nextId == s.nextId && Entry(Live(s.slots), Live(t.slots), id, Removes(s, a, id), false, s.nextId)
  {
    QuietOnTable(s, a, t);
  }

  lemma DropsOnTable(s: State, h: int, t: State, id: int)
    requires TableOk(s) && Enabled(s, HandlerDrop(h)) && t == Step(s, HandlerDrop(h))
    ensures t.nextId == s.nextId
    ensures Entry(Live(s.slots), Live(t.slots), id, Removes(s, HandlerDrop(h), id), false, s.nextId)
  {
    if s.slots[s.handlers[h].slot].used {
      DropOnTable(s, h, t);
    } else {
      QuietOnTable(s, HandlerDrop(h), t);
    }
  }

  /** A step takes out of the table exactly the ids it removes, puts in at most the connection that
      is being registered, with its socket and endpoint, and leaves every other entry alone. */
  lemma StepOnTable(s: State, a: Action, t: State, id: int)
    requires Inv(s) && Enabled(s, a) && t == Step(s, a)
    ensures t.nextId >= s.nextId
    ensures id in Live(t.slots) <==>
            (id in Live(s.slots) && !Removes(s, a, id)) || (Registers(s, a) && id == s.nextId)
    ensures id in Live(s.slots) && id in Live(t.slots) ==> Live(t.slots)[id] == Live(s.slots)[id]
    ensures Registers(s, a) ==>
              s.nextId in Live(t.slots) && Live(t.slots)[s.nextId] == Conn(HeldFd(s, a), NewPeer(s, a))
  {
    InvTable(s);
    StepOnEntry(s, a, t, id);
  }

  lemma StepOnEntry(s: State, a: Action, t: State, id: int)
    requires TableOk(s) && Enabled(s, a) && t == Step(s, a)
    ensures t.nextId >= s.nextId
    ensures Entry(Live(s.slots), Live(t.slots), id, Removes(s, a, id), Registers(s, a), s.nextId)
    ensures Registers(s, a) ==>
              s.nextId in Live(t.slots) && Live(t.slots)[s.nextId] == Conn(HeldFd(s, a), NewPeer(s, a))
  {
    if a.AcceptAdd? || a.ConnectAdd? {
      AddOnTable(s, a, t, id);
    } else {
      RemovesOnTable(s, a, t, id);
    }
  }

  lemma LiveIssued(s: State, id: int)
    requires Inv(s) && id in Live(s.slots)
    ensures 1 <= id < s.nextId
  {
    LookupAgrees(s.slots, s.nextId, id);
  }

  // ----- What takes a connection out -----

  /** Some step of the run removes the id. */
  predicate Removed(s: State, acts: seq<Action>, id: int)
    requires WellSized(s) && ValidFrom(s, acts)
    decreases |acts|
  {
    acts != [] &&
    (StepSized(s, acts[0]); Removes(s, acts[0], id) || Removed(Step(s, acts[0]), acts[1..], id))
  }

  lemma {:induction false} GoneStaysGone(s: State, acts: seq<Action>, id: int)
    requires Inv(s) && ValidFrom(s, acts) && id !in Live(s.slots) && id < s.nextId
    ensures id !in Live(Exec(s, acts).slots)
    decreases |acts|
  {
    if acts != [] {
      StepOnTable(s, acts[0], Step(s, acts[0]), id);
      StepKeepsInv(s, acts[0]);
      GoneStaysGone(Step(s, acts[0]), acts[1..], id);
    }
  }

  /** A registered connection is there at the end of a run, with the same socket and endpoint,
      exactly if no step of it removed the id: `terminate`, the sweep of `exit`, or the drop of a
      failed handler bound to the slot the connection is in. Its id never comes back. */
  lemma {:induction false} LeavesExactly(s: State, acts: seq<Action>, id: int)
    requires Inv(s) && ValidFrom(s, acts) && id in Live(s.slots)
    ensures id in Live(Exec(s, acts).slots) <==> !Removed(s, acts, id)
    ensures id in Live(Exec(s, acts).slots) ==> Live(Exec(s, acts).slots)[id] == Live(s.slots)[id]
    decreases |acts|
  {
    if acts != [] {
      var t := Step(s, acts[0]);
      StepOnTable(s, acts[0], t, id);
      StepKeepsInv(s, acts[0]);
      LiveIssued(s, id);
      if id in Live(t.slots) {
        LeavesExactly(t, acts[1..], id);
      } else {
        GoneStaysGone(t, acts[1..], id);
      }
    }
  }

  /** No handler bound to slot `k` has failed. */
  predicate NoneFailed(s: State, k: nat) {
    forall h :: h in s.handlers && s.handlers[h].slot == k ==> s.handlers[h].pc != HFailed
  }

  /** The connection `id` in slot `k` and its handlers. */
  predicate Sound(s: State, k: nat, id: int) {
    k < |s.slots| && s.slots[k].used && s.slots[k].id == id && NoneFailed(s, k)
  }

  /** Ends of the connection: a receive that does not succeed, by a handler of its slot, the
      `terminate` command for it, and the sweep. */
  predicate Ends(s: State, a: Action, k: nat, id: int) {
    || (a.HandlerError? && a.h in s.handlers && s.handlers[a.h].slot == k)
    || a == Terminate(id) || a == Sweep
  }

  lemma SoundHandlers(s: State, a: Action, k: nat, id: int, t: State)
    requires WellSized(s) && Enabled(s, a) && t == Step(s, a) && Sound(s, k, id) && !Ends(s, a, k, id)
    ensures NoneFailed(t, k)
  {
    if a == Sweep {
      assert false;
    }
  }

  lemma SoundSlot(s: State, a: Action, k: nat, id: int, t: State)
    requires WellSized(s) && Enabled(s, a) && t == Step(s, a) && Sound(s, k, id) && !Ends(s, a, k, id)
    ensures |t.slots| == |s.slots| && t.slots[k] == s.slots[k]
  {
    StepSized(s, a);
    if !a.AcceptAdd? && !a.ConnectAdd? {
      FreesThatSlot(s, a, t);
      if a.Terminate? {
        OtherSlot(s.slots, a.id, k);
      }
    }
  }

  lemma OtherSlot(slots: seq<Slot>, id: int, k: nat)
    requires k < |slots| && slots[k].id != id
    ensures IndexOf(slots, id) != k
  {
  }

  /** The steps of the run, none of which ends the connection. */
  predicate Undisturbed(s: State, acts: seq<Action>, k: nat, id: int)
    requires WellSized(s) && ValidFrom(s, acts)
    decreases |acts|
  {
    acts == [] ||
    (StepSized(s, acts[0]);
     !Ends(s, acts[0], k, id) && Undisturbed(Step(s, acts[0]), acts[1..], k, id))
  }

  lemma {:induction false} SoundStays(s: State, acts: seq<Action>, k: nat, id: int)
    requires Inv(s) && ValidFrom(s, acts) && Sound(s, k, id) && Undisturbed(s, acts, k, id)
    ensures |Exec(s, acts).slots| == |s.slots| && Exec(s, acts).slots[k] == s.slots[k]
    decreases |acts|
  {
    if acts != [] {
      var t := Step(s, acts[0]);
      SoundHandlers(s, acts[0], k, id, t);
      SoundSlot(s, acts[0], k, id, t);
      StepKeepsInv(s, acts[0]);
      SoundStays(t, acts[1..], k, id);
    }
  }

  lemma LiveSlot(s: State, id: int) returns (k: nat)
    requires Inv(s) && id in Live(s.slots)
    ensures k < |s.slots| && s.slots[k].used && s.slots[k].id == id
    ensures Live(s.slots)[id] == Conn(s.slots[k].sockfd, s.slots[k].addr)
  {
    k := IndexOf(s.slots, id);
    LookupAgrees(s.slots, s.nextId, id);
  }

  lemma SlotIsLive(s: State, k: nat)
    requires Inv(s) && k < |s.slots| && s.slots[k].used
    ensures s.slots[k].id in Live(s.slots)
    ensures Live(s.slots)[s.slots[k].id] == Conn(s.slots[k].sockfd, s.slots[k].addr)
  {
    LookupAgrees(s.slots, s.nextId, s.slots[k].id);
    IndexOfUsed(s.slots, s.nextId, k);
  }

  /** Receiving messages, any number of them, never ends a connection: as long as no receive of a
      handler of its slot fails and it is not terminated or swept, it stays as it is. */
  lemma ConnectionStays(s: State, acts: seq<Action>, k: nat, id: int)
    requires Reachable(s) && WellSized(s) && ValidFrom(s, acts)
    requires Sound(s, k, id) && Undisturbed(s, acts, k, id)
    ensures id in Live(s.slots) && id in Live(Exec(s, acts).slots)
    ensures Live(Exec(s, acts).slots)[id] == Live(s.slots)[id]
  {
    ReachableInv(s);
    SoundStays(s, acts, k, id);
    RunKeepsInv(s, acts);
    SlotIsLive(s, k);
    SlotIsLive(Exec(s, acts), k);
  }

  /** In particular in every run without failing receives, `terminate` for it and sweep. */
  lemma MessagesKeepConnection(s: State, acts: seq<Action>, id: int)
    requires Reachable(s) && WellSized(s) && ValidFrom(s, acts) && id in Live(s.slots)
    requires forall h :: h in s.handlers && s.handlers[h].slot == IndexOf(s.slots, id) ==> s.handlers[h].pc != HFailed
    requires forall i :: 0 <= i < |acts| ==> !acts[i].HandlerError? && acts[i] != Terminate(id) && acts[i] != Sweep
    ensures id in Live(Exec(s, acts).slots) && Live(Exec(s, acts).slots)[id] == Live(s.slots)[id]
  {
    var k := IndexOf(s.slots, id);
    assert Sound(s, k, id) by {
      ReachableInv(s);
      LookupAgrees(s.slots, s.nextId, id);
    }
    NoErrors(s, acts, k, id);
    ConnectionStays(s, acts, k, id);
  }

  lemma {:induction false} NoErrors(s: State, acts: seq<Action>, k: nat, id: int)
    requires WellSized(s) && ValidFrom(s, acts)
    requires forall i :: 0 <= i < |acts| ==> !acts[i].HandlerError? && acts[i] != Terminate(id) && acts[i] != Sweep
    ensures Undisturbed(s, acts, k, id)
    decreases |acts|
  {
    if acts != [] {
      StepSized(s, acts[0]);
      NoErrors(Step(s, acts[0]), acts[1..], k, id);
    }
  }

  // ----- The socket a handler receives on -----

  /** A handler whose own connection is still registered receives on that connection's socket. */
  ghost predicate RecvInv(s: State) {
    forall h :: h in s.handlers && s.handlers[h].pc.HReceiving? && s.handlers[h].slot < |s.slots|
                && s.slots[s.handlers[h].slot].used && s.slots[s.handlers[h].slot].id == h ==>
      s.handlers[h].pc.fd == s.slots[s.handlers[h].slot].sockfd
  }

  lemma RegisterKeepsRecv(s: State, fd: int, addr: Endpoint, threadOk: bool, t: State)
    requires WellSized(s) && HandlerInv(s) && RecvInv(s)
    requires t.slots == Register(s, fd, addr, threadOk).slots
    requires t.handlers == Register(s, fd, addr, threadOk).handlers
    ensures RecvInv(t)
  {
    var k := FirstFree(s.slots);
    assert forall i :: 0 <= i < |s.slots| && i != k ==> t.slots[i] == s.slots[i];
    assert k < |s.slots| ==> t.slots[k].id == s.nextId;
    assert forall h :: h in s.handlers ==> h < s.nextId && t.handlers[h] == s.handlers[h];
  }

  lemma FewerKeepRecv(s: State, t: State)
    requires RecvInv(s) && |t.slots| == |s.slots|
    requires forall i :: 0 <= i < |s.slots| && t.slots[i].used ==> t.slots[i] == s.slots[i]
    requires forall h :: h in t.handlers ==> h in s.handlers && t.handlers[h] == s.handlers[h]
    ensures RecvInv(t)
  {
  }

  lemma HandlerKeepsRecv(s: State, a: Action, t: State)
    requires WellSized(s) && RecvInv(s) && Enabled(s, a) && OfHandler(a) && t == HandlerStep(s, a)
    ensures RecvInv(t)
  {
    assert forall i :: 0 <= i < |s.slots| && t.slots[i].used ==> t.slots[i] == s.slots[i];
    assert forall h :: h in t.handlers && h != a.h ==> h in s.handlers && t.handlers[h] == s.handlers[h];
  }

  lemma OthersKeepHandlers(s: State, a: Action, t: State)
    requires WellSized(s) && Enabled(s, a) && t == Step(s, a) && !OfHandler(a) && !a.AcceptAdd? && !a.ConnectAdd?
    ensures t.handlers == s.handlers && |t.slots| == |s.slots|
    ensures forall i :: 0 <= i < |s.slots| && t.slots[i].used ==> t.slots[i] == s.slots[i]
  {
    StepSized(s, a);
    if a.Sweep? {
      SweepSized(s, 0);
    } else {
      FreesAtMostOne(s, a, t);
    }
  }

  lemma StepKeepsRecv(s: State, a: Action, t: State)
    requires WellSized(s) && HandlerInv(s) && RecvInv(s) && Enabled(s, a) && t == Step(s, a)
    ensures RecvInv(t)
  {
    if a.AcceptAdd? {
      RegisterKeepsRecv(s, s.acc.fd, s.acc.addr, a.threadOk, t);
    } else if a.ConnectAdd? {
      RegisterKeepsRecv(s, s.cmd.fd, s.cmd.dest, a.threadOk, t);
    } else if OfHandler(a) {
      HandlerKeepsRecv(s, a, t);
    } else {
      OthersKeepHandlers(s, a, t);
      FewerKeepRecv(s, t);
    }
  }

  lemma {:induction false} RunKeepsRecv(s: State, acts: seq<Action>)
    requires Inv(s) && RecvInv(s) && ValidFrom(s, acts)
    ensures RecvInv(Exec(s, acts))
    decreases |acts|
  {
    if acts != [] {
      StepKeepsInv(s, acts[0]);
      StepKeepsRecv(s, acts[0], Step(s, acts[0]));
      RunKeepsRecv(Step(s, acts[0]), acts[1..]);
    }
  }

  /** In every reachable state a handler in `recv` whose connection is still registered is
      receiving on the socket registered for it. */
  lemma ReceivesOnOwnSocket(s: State, h: int, fd: int)
    requires Reachable(s) && At(s, h, HReceiving(fd)) && h in Live(s.slots)
    ensures fd == Live(s.slots)[h].sockfd
  {
    InitInv();
    var acts :| ValidFrom(Init(), acts) && Exec(Init(), acts) == s;
    RunKeepsRecv(Init(), acts);
    ReachableInv(s);
    var k := LiveSlot(s, h);
  }

  predicate OfHandlerOf(a: Action, h: int) {
    OfHandler(a) && a.h == h
  }

  lemma {:induction false} HandlerWaits(s: State, acts: seq<Action>, h: int)
    requires Inv(s) && ValidFrom(s, acts) && h in s.handlers
    requires forall i :: 0 <= i < |acts| ==> !OfHandlerOf(acts[i], h)
    ensures h in Exec(s, acts).handlers && Exec(s, acts).handlers[h] == s.handlers[h]
    decreases |acts|
  {
    if acts != [] {
      StepKeepsInv(s, acts[0]);
      KeepsHandler(s, acts[0], h);
      HandlerWaits(Step(s, acts[0]), acts[1..], h);
    }
  }

  lemma KeepsHandler(s: State, a: Action, h: int)
    requires WellSized(s) && (forall x :: x in s.handlers ==> x < s.nextId)
    requires Enabled(s, a) && h in s.handlers && !OfHandlerOf(a, h)
    ensures h in Step(s, a).handlers && Step(s, a).handlers[h] == s.handlers[h]
  {
    if a.AcceptAdd? || a.ConnectAdd? {
      assert h != s.nextId;
    } else if !OfHandler(a) {
      OthersKeepHandlers(s, a, Step(s, a));
    } else {
      OtherHandler(s, a, h);
    }
  }

  lemma OtherHandler(s: State, a: Action, h: int)
    requires WellSized(s) && Enabled(s, a) && OfHandler(a) && h in s.handlers && a.h != h
    ensures h in HandlerStep(s, a).handlers && HandlerStep(s, a).handlers[h] == s.handlers[h]
  {
  }

  /** After each message the handler looks at its slot again, whatever the others do in between: if
      the slot is free by then it ends, and otherwise it receives on the socket that is there. */
  lemma NextReceive(s: State, h: int, acts: seq<Action>, t: State)
    requires Reachable(s) && WellSized(s) && Enabled(s, HandlerData(h))
    requires WellSized(Step(s, HandlerData(h))) && ValidFrom(Step(s, HandlerData(h)), acts)
    requires forall i :: 0 <= i < |acts| ==> !OfHandlerOf(acts[i], h)
    requires t == Exec(Step(s, HandlerData(h)), acts) && t.cmd != CGone
    ensures h in s.handlers && s.handlers[h].slot < |t.slots| && WellSized(t) && Enabled(t, HandlerCheck(h))
    ensures var k, u := s.handlers[h].slot, Step(t, HandlerCheck(h));
            if t.slots[k].used then At(u, h, HReceiving(t.slots[k].sockfd)) else h !in u.handlers
  {
    AfterData(s, h, acts, t);
    CheckAgain(t, h);
  }

  lemma AfterData(s: State, h: int, acts: seq<Action>, t: State)
    requires Reachable(s) && WellSized(s) && Enabled(s, HandlerData(h))
    requires WellSized(Step(s, HandlerData(h))) && ValidFrom(Step(s, HandlerData(h)), acts)
    requires forall i :: 0 <= i < |acts| ==> !OfHandlerOf(acts[i], h)
    requires t == Exec(Step(s, HandlerData(h)), acts)
    ensures WellSized(t) && At(t, h, HTop) && h in s.handlers && t.handlers[h].slot == s.handlers[h].slot
  {
    ReachableInv(s);
    StepKeepsInv(s, HandlerData(h));
    HandlerWaits(Step(s, HandlerData(h)), acts, h);
  }

  lemma CheckAgain(t: State, h: int)
    requires WellSized(t) && At(t, h, HTop) && t.cmd != CGone
    ensures Enabled(t, HandlerCheck(h))
    ensures var k, u := t.handlers[h].slot, Step(t, HandlerCheck(h));
            if t.slots[k].used then At(u, h, HReceiving(t.slots[k].sockfd)) else h !in u.handlers
  {
  }

  // ----- How a connection gets into the table -----

  predicate OfCommand(a: Action) {
    !OfAccept(a) && !OfHandler(a)
  }

  lemma {:induction false} AcceptWaits(s: State, acts: seq<Action>)
    requires WellSized(s) && ValidFrom(s, acts) && forall i :: 0 <= i < |acts| ==> !OfAccept(acts[i])
    ensures Exec(s, acts).acc == s.acc
    decreases |acts|
  {
    if acts != [] {
      StepSized(s, acts[0]);
      KeepsAccept(s, acts[0]);
      AcceptWaits(Step(s, acts[0]), acts[1..]);
    }
  }

  lemma KeepsAccept(s: State, a: Action)
    requires WellSized(s) && Enabled(s, a) && !OfAccept(a)
    ensures Step(s, a).acc == s.acc
  {
    SweepSized(s, 0);
  }

  lemma {:induction false} CommandWaits(s: State, acts: seq<Action>)
    requires WellSized(s) && ValidFrom(s, acts) && forall i :: 0 <= i < |acts| ==> !OfCommand(acts[i])
    ensures Exec(s, acts).cmd == s.cmd
    decreases |acts|
  {
    if acts != [] {
      StepSized(s, acts[0]);
      CommandWaits(Step(s, acts[0]), acts[1..]);
    }
  }

  lemma AfterRun(s: State, a: Action, acts: seq<Action>, t: State)
    requires Reachable(s) && WellSized(s) && Enabled(s, a)
    requires WellSized(Step(s, a)) && ValidFrom(Step(s, a), acts) && t == Exec(Step(s, a), acts)
    ensures TableOk(t)
  {
    ReachableInv(s);
    StepKeepsInv(s, a);
    RunKeepsInv(Step(s, a), acts);
    InvTable(t);
  }

  lemma RoomExactly(s: State)
    requires TableOk(s)
    ensures TakenSlot(s, true) >= 0 <==> |Live(s.slots)| < 100
  {
    FullExactlyAtCapacity(s.slots, s.nextId);
  }

  /** The connection that `accept` returned is the one registered, with its socket and endpoint,
      whatever the other threads do before the accept thread gets the lock. */
  lemma AcceptedIsRegistered(s: State, fd: int, addr: Endpoint, acts: seq<Action>, t: State)
    requires Reachable(s) && WellSized(s) && Enabled(s, AcceptOk(fd, addr))
    requires WellSized(Step(s, AcceptOk(fd, addr))) && ValidFrom(Step(s, AcceptOk(fd, addr)), acts)
    requires forall i :: 0 <= i < |acts| ==> !OfAccept(acts[i])
    requires t == Exec(Step(s, AcceptOk(fd, addr)), acts) && t.cmd != CGone && |Live(t.slots)| < 100
    ensures Enabled(t, AcceptAdd(true)) && WellSized(t)
    ensures Live(Step(t, AcceptAdd(true)).slots) == Live(t.slots)[t.nextId := Conn(fd, addr)]
    ensures t.nextId !in Live(t.slots)
  {
    AfterRun(s, AcceptOk(fd, addr), acts, t);
    RoomExactly(t);
    AcceptWaits(Step(s, AcceptOk(fd, addr)), acts);
    RegistersOnTable(t, AcceptAdd(true), Step(t, AcceptAdd(true)));
  }

  /** `connect` goes on exactly if no registered connection has the endpoint. */
  lemma ConnectGoesOnExactly(s: State, dest: Endpoint)
    requires Reachable(s) && WellSized(s) && Enabled(s, Connect(dest))
    ensures Step(s, Connect(dest)).cmd
         == if (exists id :: id in Live(s.slots) && Live(s.slots)[id].addr == dest) then CIdle else CPending(dest)
  {
    ReachableInv(s);
    PeerInMap(s.slots, s.nextId, dest);
  }

  /** The command thread is about to read the id it registered, and it is still in the slot. */
  predicate ReadsFirst(s: State, fd: int, id: int) {
    && s.cmd.CRet? && s.cmd.fd == fd && s.cmd.mine == id && s.cmd.slot < |s.slots|
    && s.slots[s.cmd.slot].used && s.slots[s.cmd.slot].id == id
  }

  /** And then the socket it opened is registered with that endpoint. */
  lemma ConnectedIsRegistered(s: State, dest: Endpoint, fd: int, acts: seq<Action>, t: State)
    requires Reachable(s) && WellSized(s) && s.cmd == CPending(dest) && Enabled(s, SocketOk(fd))
    requires WellSized(Step(s, SocketOk(fd))) && ValidFrom(Step(s, SocketOk(fd)), acts)
    requires forall i :: 0 <= i < |acts| ==> !OfCommand(acts[i])
    requires t == Exec(Step(s, SocketOk(fd)), acts) && |Live(t.slots)| < 100
    ensures Enabled(t, ConnectAdd(true)) && WellSized(t)
    ensures Live(Step(t, ConnectAdd(true)).slots) == Live(t.slots)[t.nextId := Conn(fd, dest)]
    ensures t.nextId !in Live(t.slots) && t.nextId in Step(t, ConnectAdd(true)).outgoing
    ensures ReadsFirst(Step(t, ConnectAdd(true)), fd, t.nextId)
  {
    AfterRun(s, SocketOk(fd), acts, t);
    CommandWaits(Step(s, SocketOk(fd)), acts);
    HeldIsRegistered(t, dest, fd);
  }

  lemma HeldIsRegistered(t: State, dest: Endpoint, fd: int)
    requires TableOk(t) && t.cmd == CSocket(dest, fd) && |Live(t.slots)| < 100
    ensures Enabled(t, ConnectAdd(true))
    ensures Live(Step(t, ConnectAdd(true)).slots) == Live(t.slots)[t.nextId := Conn(fd, dest)]
    ensures t.nextId !in Live(t.slots) && t.nextId in Step(t, ConnectAdd(true)).outgoing
    ensures ReadsFirst(Step(t, ConnectAdd(true)), fd, t.nextId)
  {
    RoomExactly(t);
    RegistersOnTable(t, ConnectAdd(true), Step(t, ConnectAdd(true)));
  }

  // ----- How many -----

  lemma OneMore(s: State, t: State)
    requires TableOk(s) && Enabled(s, AcceptAdd(true)) && t == Step(s, AcceptAdd(true)) && |Live(s.slots)| < 100
    ensures |Live(t.slots)| == |Live(s.slots)| + 1 && t.acc.ARet?
  {
    RoomExactly(s);
    RegistersOnTable(s, AcceptAdd(true), t);
    assert Live(t.slots).Keys == Live(s.slots).Keys + {s.nextId};
  }

  lemma NoMore(s: State, t: State)
    requires TableOk(s) && Enabled(s, AcceptAdd(true)) && t == Step(s, AcceptAdd(true)) && |Live(s.slots)| >= 100
    ensures Live(t.slots) == Live(s.slots) && t.acc == AFail(s.acc.fd)
  {
    RoomExactly(s);
    FailsOnTable(s, AcceptAdd(true), t);
  }

  /** The table takes 100 connections: with any number up to that registered, the accept thread can
      hold one more; it gets in exactly if there are fewer than 100, else its socket is closed. */
  lemma {:induction false} Hundred(n: nat) returns (s: State, t: State)
    requires n <= 100
    ensures Reachable(s) && WellSized(s) && s.acc.AHas? && s.cmd == CIdle && s.running && |Live(s.slots)| == n
    ensures t == Step(s, AcceptAdd(true)) && Reachable(t) && WellSized(t)
    ensures if n < 100 then |Live(t.slots)| == n + 1 else Live(t.slots) == Live(s.slots) && t.acc == AFail(s.acc.fd)
    decreases n
  {
    if n == 0 {
      s := Start();
      assert UsedIds(s.slots) == {};
      s := Then(s, AcceptTest);
      s := Then(s, AcceptOk(3, Endpoint(SOME_IP, 1)));
    } else {
      var u;
      u, s := Hundred(n - 1);
      s := NextAccepted(u, s);
    }
    t := Then(s, AcceptAdd(true));
    assert TableOk(s) by {
      ReachableInv(s);
      InvTable(s);
    }
    if n < 100 {
      OneMore(s, t);
    } else {
      NoMore(s, t);
    }
  }

  /** After a registration the accept thread gets hold of the next connection. */
  lemma NextAccepted(u: State, s: State) returns (t: State)
    requires Reachable(u) && WellSized(u) && Enabled(u, AcceptAdd(true)) && u.cmd == CIdle && u.running
    requires Reachable(s) && WellSized(s) && s == Step(u, AcceptAdd(true))
    ensures Reachable(t) && WellSized(t) && t.acc.AHas? && t.cmd == CIdle && t.running && t.slots == s.slots
  {
    assert s.acc.ARet? ==> s.acc.slot < |s.slots| && s.slots[s.acc.slot].id >= 0 by {
      ReachableInv(s);
    }
    t := Then(s, if s.acc.ARet? then AcceptReturn else AcceptClose);
    t := Then(t, AcceptTest);
    var fd := Missing(t.fds.open, |t.fds.open|);
    t := Then(t, AcceptOk(fd, Endpoint(SOME_IP, 1)));
  }

  // ----- After the exit has begun -----

  /** Nobody will register any more. */
  predicate Over(s: State) {
    !s.running && (s.cmd == CStopping || s.cmd == CSwept || s.cmd == CGone) && !MayStillRegister(s.acc)
  }

  lemma OverStep(s: State, a: Action, t: State)
    requires WellSized(s) && Over(s) && Enabled(s, a) && t == Step(s, a)
    ensures Over(t) && !Registers(s, a)
  {
    if a.Sweep? {
      SweepSized(s, 0);
    }
  }

  lemma {:induction false} OverRun(s: State, acts: seq<Action>, id: int)
    requires Inv(s) && Over(s) && ValidFrom(s, acts) && id in Live(Exec(s, acts).slots)
    ensures id in Live(s.slots)
    decreases |acts|
  {
    if acts != [] {
      var t := Step(s, acts[0]);
      OverStep(s, acts[0], t);
      StepKeepsInv(s, acts[0]);
      OverRun(t, acts[1..], id);
      StepOnTable(s, acts[0], t, id);
    }
  }

  lemma BackAtTest(s: State, a: Action)
    requires Reachable(s) && WellSized(s) && Enabled(s, a)
    requires a == AcceptError || a == AcceptReturn || a == AcceptClose || (a == AcceptTest && !s.running)
    ensures !MayStillRegister(Step(s, a).acc)
  {
    ReadableIds(s);
  }

  lemma OverAfter(s: State, a: Action, acts: seq<Action>, t: State)
    requires Reachable(s) && WellSized(s) && Enabled(s, a) && WellSized(Step(s, a)) && ValidFrom(Step(s, a), acts)
    requires t == Exec(Step(s, a), acts) && !t.running && !MayStillRegister(t.acc)
    ensures Inv(t) && Over(t)
  {
    ReachableInv(s);
    StepKeepsInv(s, a);
    RunKeepsInv(Step(s, a), acts);
  }

  /** An accept thread whose `accept` has failed, that is done with a connection, or that finds the
      exit begun, tests the flag before it accepts again: if the exit begins before it does, nothing
      is registered any more. */
  lemma AcceptEnds(s: State, a: Action, acts: seq<Action>, t: State, more: seq<Action>, id: int)
    requires Reachable(s) && WellSized(s) && Enabled(s, a)
    requires a == AcceptError || a == AcceptReturn || a == AcceptClose || (a == AcceptTest && !s.running)
    requires WellSized(Step(s, a)) && ValidFrom(Step(s, a), acts) && t == Exec(Step(s, a), acts)
    requires (forall i :: 0 <= i < |acts| ==> !OfAccept(acts[i])) && !t.running
    requires WellSized(t) && ValidFrom(t, more) && id in Live(Exec(t, more).slots)
    ensures id in Live(t.slots)
  {
    BackAtTest(s, a);
    AcceptWaits(Step(s, a), acts);
    OverAfter(s, a, acts, t);
    OverRun(t, more, id);
  }

  // ----- The counts of the handler law, taken from the run -----

  /** The command thread freed slot `k` in this step. */
  predicate FreedOutside(s: State, a: Action, t: State, k: nat) {
    && (a.Terminate? || a.Sweep?) && k < |s.slots| && k < |t.slots|
    && s.slots[k].used && !t.slots[k].used
  }

  /** A handler of slot `k` ended in this step because it found the slot free. */
  predicate LeftFree(s: State, a: Action, t: State, k: nat) {
    && OfHandler(a) && a.h in s.handlers && a.h !in t.handlers && s.handlers[a.h].slot == k
    && k < |s.slots| && !s.slots[k].used
  }

  function FreedCount(s: State, acts: seq<Action>, k: nat): nat
    requires WellSized(s) && ValidFrom(s, acts)
    decreases |acts|
  {
    if acts == [] then 0
    else (StepSized(s, acts[0]); var t := Step(s, acts[0]);
          (if FreedOutside(s, acts[0], t, k) then 1 else 0) + FreedCount(t, acts[1..], k))
  }

  function LeftCount(s: State, acts: seq<Action>, k: nat): nat
    requires WellSized(s) && ValidFrom(s, acts)
    decreases |acts|
  {
    if acts == [] then 0
    else (StepSized(s, acts[0]); var t := Step(s, acts[0]);
          (if LeftFree(s, acts[0], t, k) then 1 else 0) + LeftCount(t, acts[1..], k))
  }

  lemma {:induction false} SweepTerms(s: State, j: nat, k: nat)
    requires j <= |s.slots| == |s.terms| && k < |s.slots|
    ensures var t := SweepFrom(s, j);
            |t.terms| == |s.terms| && t.terms[k] == s.terms[k] + (if k >= j && s.slots[k].used then 1 else 0)
    decreases |s.slots| - j
  {
    if j < |s.slots| {
      SweepTerms(if s.slots[j].used then Terminated(s, j) else s, j + 1, k);
    }
  }

  lemma StepTerms(s: State, a: Action, t: State, k: nat)
    requires WellSized(s) && Enabled(s, a) && t == Step(s, a) && WellSized(t) && k < MAX_CONN
    ensures t.terms[k] == s.terms[k] + (if FreedOutside(s, a, t, k) then 1 else 0)
  {
    if a.Sweep? {
      SweepTermsStep(s, t, k);
    }
  }

  lemma SweepTermsStep(s: State, t: State, k: nat)
    requires WellSized(s) && t == SweepFrom(s, 0).(cmd := CSwept) && k < MAX_CONN
    ensures k < |t.terms| && k < |t.slots| && !t.slots[k].used
    ensures t.terms[k] == s.terms[k] + (if s.slots[k].used then 1 else 0)
  {
    SweepTerms(s, 0, k);
    SweepSized(s, 0);
  }

  lemma StepExits(s: State, a: Action, t: State, k: nat)
    requires WellSized(s) && Enabled(s, a) && t == Step(s, a) && WellSized(t) && k < MAX_CONN
    ensures t.exits[k] == s.exits[k] + (if LeftFree(s, a, t, k) then 1 else 0)
  {
    if a.Sweep? {
      SweepSized(s, 0);
    }
  }

  lemma {:induction false} RunCounts(s: State, acts: seq<Action>, k: nat)
    requires WellSized(s) && ValidFrom(s, acts) && k < MAX_CONN
    ensures Exec(s, acts).terms[k] == s.terms[k] + FreedCount(s, acts, k)
    ensures Exec(s, acts).exits[k] == s.exits[k] + LeftCount(s, acts, k)
    decreases |acts|
  {
    if acts != [] {
      var t := Step(s, acts[0]);
      StepSized(s, acts[0]);
      StepTerms(s, acts[0], t, k);
      StepExits(s, acts[0], t, k);
      RunCounts(t, acts[1..], k);
    }
  }

  /** The law of the handlers of a slot with everything in it counted from the run: handlers alive
      = used + times the command thread freed it - handlers that ended on finding it free. */
  lemma HandlerLaw(acts: seq<Action>, k: nat)
    requires WellSized(Init()) && ValidFrom(Init(), acts) && k < MAX_CONN
    ensures var s := Exec(Init(), acts);
            |Bound(s.handlers, k)|
            == (if s.slots[k].used then 1 else 0) + FreedCount(Init(), acts, k) - LeftCount(Init(), acts, k)
  {
    var s := Exec(Init(), acts);
    assert Reachable(s);
    HandlerConservation(s, k);
    RunCounts(Init(), acts, k);
  }

  // ----- Progress -----

  /** Until the process ends every thread that has not ended can take a step, and a receive can
      succeed or fail. */
  lemma NoThreadStuck(s: State)
    requires Reachable(s) && s.cmd != CGone
    ensures exists a :: OfCommand(a) && Enabled(s, a)
    ensures s.acc != ADone ==> exists a :: OfAccept(a) && Enabled(s, a)
    ensures forall h :: h in s.handlers ==>
              Enabled(s, HandlerCheck(h)) || (Enabled(s, HandlerData(h)) && Enabled(s, HandlerError(h)))
              || Enabled(s, HandlerDrop(h))
  {
    CommandCanMove(s);
    if s.acc != ADone {
      AcceptCanMove(s);
    }
    forall h | h in s.handlers
      ensures Enabled(s, HandlerCheck(h)) || (Enabled(s, HandlerData(h)) && Enabled(s, HandlerError(h)))
              || Enabled(s, HandlerDrop(h))
    {
      assert s.handlers[h].pc == HTop || s.handlers[h].pc.HReceiving? || s.handlers[h].pc == HFailed;
    }
  }

  lemma CommandCanMove(s: State)
    requires s.cmd != CGone
    ensures exists a :: OfCommand(a) && Enabled(s, a)
  {
    var a := match s.cmd
             case CIdle => Exit
             case CPending(_) => SocketError
             case CSocket(_, _) => ConnectError
             case CRet(_, _, _) => ConnectReturn
             case CFail(_) => ConnectClose
             case CStopping => Sweep
             case _ => Leave;
    assert OfCommand(a) && Enabled(s, a);
  }

  lemma AcceptCanMove(s: State)
    requires s.cmd != CGone && s.acc != ADone
    ensures exists a :: OfAccept(a) && Enabled(s, a)
  {
    var a := match s.acc
             case ATest => AcceptTest
             case AWaiting => AcceptError
             case AHas(_, _) => AcceptAdd(true)
             case ARet(_, _, _) => AcceptReturn
             case _ => AcceptClose;
    assert OfAccept(a) && Enabled(s, a);
  }

  /** `accept`, `socket`, `connect` and thread creation can succeed or fail, and any command can
      be typed. */
  lemma EnvironmentIsFree(s: State)
    requires Reachable(s) && s.cmd != CGone
    ensures forall fd, addr :: s.acc == AWaiting && fd >= 0 && fd !in s.fds.open ==> Enabled(s, AcceptOk(fd, addr))
    ensures s.acc == AWaiting ==> Enabled(s, AcceptError)
    ensures forall fd :: s.cmd.CPending? && fd >= 0 && fd !in s.fds.open ==> Enabled(s, SocketOk(fd))
    ensures s.cmd.CPending? ==> Enabled(s, SocketError)
    ensures s.cmd.CSocket? ==> Enabled(s, ConnectError)
    ensures forall ok: bool :: s.cmd.CSocket? ==> Enabled(s, ConnectAdd(ok))
    ensures forall ok: bool :: s.acc.AHas? ==> Enabled(s, AcceptAdd(ok))
    ensures s.cmd == CIdle ==> Enabled(s, Exit)
    ensures forall id: int :: s.cmd == CIdle ==> Enabled(s, Terminate(id))
    ensures forall dest: Endpoint :: s.cmd == CIdle ==> Enabled(s, Connect(dest))
  {
  }

  /** A failing `accept` ends the accept thread exactly once the exit has begun. */
  lemma AcceptErrorEnds(s: State)
    requires Reachable(s) && WellSized(s) && Enabled(s, AcceptError)
    ensures (forall a :: OfAccept(a) ==> !Enabled(Step(s, AcceptError), a)) <==> !s.running
  {
    var t := Step(s, AcceptError);
    assert s.running ==> OfAccept(AcceptTest) && Enabled(t, AcceptTest);
  }

  /** From every state of a running program `exit` can be typed and the process end with every
      socket of the table closed. */
  lemma CanAlwaysExit(s: State) returns (t: State)
    requires Reachable(s) && WellSized(s) && s.running
    ensures Leads(s, t) && Reachable(t) && WellSized(t) && t.cmd == CGone && Empty(t.slots)
    ensures t.fds.open == AcceptFds(t.acc)
  {
    Stays(s);
    t := CommandIdle(s, s);
    t := Go(s, t, Exit);
    t := SweepAndLeave(s, t);
  }

  lemma SweepAndLeave(r: State, s: State) returns (t: State)
    requires Leads(r, s) && Reachable(s) && WellSized(s) && s.cmd == CStopping
    ensures Leads(r, t) && Reachable(t) && WellSized(t) && t.cmd == CGone && Empty(t.slots)
    ensures t.fds.open == AcceptFds(t.acc)
  {
    var u := Go(r, s, Sweep);
    SweepSized(s, 0);
    assert forall i :: 0 <= i < |u.slots| ==> u.slots[i] == s.slots[i].(used := false);
    t := Go(r, u, Leave);
    assert t.slots == u.slots && t.cmd == CGone;
    SocketOwnership(t);
    assert UsedFdSet(t.slots) == {};
  }
}
