/**
 The id that `add_connection` of mid_project/chat.c returns. It is read from the slot after the
 lock was given up, so the slot may by then hold the id of a later registration. Here is exactly
 when it does, as a property of the run, and exactly when it still can, as a property of the state.
 */
module ChatReadBack {
  import opened SlotTable
  import opened ChatTable
  import opened ChatSystem
  import opened ChatSafety
  import opened ChatRuns

  lemma ReadValue(slots: seq<Slot>, nextId: int, slot: nat, mine: int)
    requires TableInv(slots, nextId) && ReadInv(slots, nextId, slot, mine)
    ensures slots[slot].id >= mine >= 1
    ensures mine in Live(slots) ==> slots[slot].id == mine
  {
    LookupAgrees(slots, nextId, mine);
    var k := IndexOf(slots, mine);
    assert k < |slots| ==> k == slot;
  }

  /** `add_connection` reads the id it returns after giving up the lock. The value is at least the
      id it registered, so the caller never takes it for a failure and never closes the socket a
      second time; it is that id as long as the connection is still registered. */
  lemma IdReadBack(s: State)
    requires Reachable(s) && s.acc.ARet? && s.cmd != CGone
    ensures s.acc.slot < |s.slots| && s.slots[s.acc.slot].id >= s.acc.mine >= 1
    ensures s.acc.mine in Live(s.slots) ==> s.slots[s.acc.slot].id == s.acc.mine
    ensures WellSized(s) && AcceptStep(s, AcceptReturn).acc == ATest
  {
    ReachableInv(s);
    ReadValue(s.slots, s.nextId, s.acc.slot, s.acc.mine);
  }

  /** The same for the command thread. */
  lemma ConnectIdReadBack(s: State)
    requires Reachable(s) && s.cmd.CRet?
    ensures s.cmd.slot < |s.slots| && s.slots[s.cmd.slot].id >= s.cmd.mine >= 1
    ensures s.cmd.mine in Live(s.slots) ==> s.slots[s.cmd.slot].id == s.cmd.mine
    ensures WellSized(s) && CommandStep(s, ConnectReturn).cmd == CIdle
  {
    ReachableInv(s);
    ReadValue(s.slots, s.nextId, s.cmd.slot, s.cmd.mine);
  }

  // ----- In terms of the run -----

  /** The step writes a new id into slot `k`. A registration whose thread cannot be created does
      so too, and frees the slot again. */
  predicate Fills(s: State, a: Action, k: nat) {
    (a.AcceptAdd? || a.ConnectAdd?) && FirstFree(s.slots) == k
  }

  predicate Refilled(s: State, acts: seq<Action>, k: nat)
    requires WellSized(s) && ValidFrom(s, acts)
    decreases |acts|
  {
    acts != [] &&
    (StepSized(s, acts[0]); Fills(s, acts[0], k) || Refilled(Step(s, acts[0]), acts[1..], k))
  }

  lemma SlotIdAfter(s: State, a: Action, k: nat, t: State)
    requires WellSized(s) && Enabled(s, a) && t == Step(s, a) && k < MAX_CONN
    ensures |t.slots| == MAX_CONN
    ensures t.slots[k].id == if Fills(s, a, k) then s.nextId else s.slots[k].id
  {
    StepSized(s, a);
    if a.Sweep? {
      SweepSized(s, 0);
    }
  }

  /** The id in a slot never falls, and it is the old one exactly if nobody refilled the slot. */
  lemma {:induction false} SlotIdKept(s: State, acts: seq<Action>, k: nat)
    requires Inv(s) && ValidFrom(s, acts) && k < MAX_CONN
    ensures Exec(s, acts).slots[k].id >= s.slots[k].id
    ensures Exec(s, acts).slots[k].id == s.slots[k].id <==> !Refilled(s, acts, k)
    decreases |acts|
  {
    if acts != [] {
      var t := Step(s, acts[0]);
      StepKeepsInv(s, acts[0]);
      SlotIdAfter(s, acts[0], k, t);
      SlotIdKept(t, acts[1..], k);
    }
  }

  /** Whichever thread registered: whatever happens between the unlock and the read, the id read
      is the one registered exactly if no other registration took the slot meanwhile. */
  lemma IdReadBackExactly(s: State, a: Action, acts: seq<Action>)
    requires Reachable(s) && WellSized(s) && Enabled(s, a) && (a.AcceptAdd? || a.ConnectAdd?)
    requires TakenSlot(s, a.threadOk) >= 0
    requires WellSized(Step(s, a)) && ValidFrom(Step(s, a), acts)
    ensures Exec(Step(s, a), acts).slots[TakenSlot(s, a.threadOk)].id == s.nextId
            <==> !Refilled(Step(s, a), acts, TakenSlot(s, a.threadOk))
  {
    var k := TakenSlot(s, a.threadOk);
    ReachableInv(s);
    StepKeepsInv(s, a);
    SlotIdAfter(s, a, k, Step(s, a));
    SlotIdKept(Step(s, a), acts, k);
  }

  // ----- In terms of the state: the accept thread -----

  /** The accept thread can read now, and finds another connection's id. */
  predicate AcceptReads(t: State, pc: AcceptPc, own: bool)
  {
    t.acc == pc && pc.ARet? && pc.slot < |t.slots| && Enabled(t, AcceptReturn)
    && (own <==> t.slots[pc.slot].id == pc.mine)
  }

  lemma ReadableIds(s: State)
    requires Reachable(s)
    ensures s.cmd.CRet? ==> s.cmd.slot < |s.slots| && s.slots[s.cmd.slot].id >= 0
    ensures s.acc.ARet? ==> s.acc.slot < |s.slots| && s.slots[s.acc.slot].id >= 0
  {
    ReachableInv(s);
  }

  lemma RunningThreads(s: State)
    requires Reachable(s) && s.running
    ensures s.cmd != CStopping && s.cmd != CSwept && s.cmd != CGone && s.acc != ADone
  {
    ReachableInv(s);
  }

  lemma MineIsOld(s: State)
    requires Reachable(s)
    ensures s.acc.ARet? ==> s.acc.mine < s.nextId
    ensures s.cmd.CRet? ==> s.cmd.mine < s.nextId && s.running
  {
    ReachableInv(s);
  }

  lemma UsedIndex(s: State, k: nat)
    requires Reachable(s) && k < |s.slots| && s.slots[k].used
    ensures IndexOf(s.slots, s.slots[k].id) == k
  {
    ReachableInv(s);
    IndexOfUsed(s.slots, s.nextId, k);
  }

  lemma OwnHandler(s: State, k: nat)
    requires Reachable(s) && k < |s.slots| && s.slots[k].used
    ensures s.slots[k].id in s.handlers && s.handlers[s.slots[k].id].slot == k
  {
    ReachableInv(s);
  }

  /** The command thread gives up what it is doing; the table stays as it is. */
  lemma CommandIdle(r: State, s: State) returns (t: State)
    requires Leads(r, s) && Reachable(s) && WellSized(s) && s.running
    ensures Leads(r, t) && Reachable(t) && WellSized(t) && t.cmd == CIdle && t.running
    ensures t.slots == s.slots && t.nextId == s.nextId && t.acc == s.acc
  {
    assert s.cmd.CRet? ==> s.cmd.slot < MAX_CONN && s.slots[s.cmd.slot].id >= 0 by {
      ReadableIds(s);
    }
    assert !s.cmd.CStopping? && !s.cmd.CSwept? && !s.cmd.CGone? by {
      RunningThreads(s);
    }
    match s.cmd
    case CIdle => t := s;
    case CPending(_) => t := Go(r, s, SocketError);
    case CSocket(_, _) => t := Go(r, s, ConnectError);
    case CRet(_, _, _) => t := Go(r, s, ConnectReturn);
    case CFail(_) => t := Go(r, s, ConnectClose);
  }

  /** The command thread has a connected socket to a new peer. */
  lemma SocketToPeer(r: State, s: State) returns (t: State)
    requires Leads(r, s) && Reachable(s) && WellSized(s) && s.cmd == CIdle
    ensures Leads(r, t) && Reachable(t) && WellSized(t) && t.cmd.CSocket?
    ensures t.running == s.running && t.acc == s.acc && t.nextId == s.nextId && t.slots == s.slots
  {
    var dest := FreshPeer(s.slots);
    t := Go(r, s, Connect(dest));
    var fd := Missing(t.fds.open, |t.fds.open|);
    t := Go(r, t, SocketOk(fd));
  }

  /** It registers it, in the first free slot. */
  lemma ConnectPeer(r: State, s: State) returns (t: State)
    requires Leads(r, s) && Reachable(s) && WellSized(s) && s.cmd == CIdle && s.running
    requires FirstFree(s.slots) < MAX_CONN
    ensures Leads(r, t) && Reachable(t) && WellSized(t) && t.running && t.acc == s.acc
    ensures t.nextId == s.nextId + 1
    ensures t.slots[FirstFree(s.slots)].used && t.slots[FirstFree(s.slots)].id == s.nextId
    ensures forall i :: 0 <= i < |s.slots| && i != FirstFree(s.slots) ==> t.slots[i] == s.slots[i]
  {
    var u := SocketToPeer(r, s);
    t := Go(r, u, ConnectAdd(true));
  }

  /** It fills the free slots up to slot `k`, and that one. */
  lemma {:induction false} RefillByConnect(r: State, s: State, k: nat) returns (t: State)
    requires Leads(r, s) && Reachable(s) && WellSized(s) && s.running
    requires k < MAX_CONN && !s.slots[k].used && FirstFree(s.slots) <= k
    ensures Leads(r, t) && Reachable(t) && WellSized(t) && t.running && t.acc == s.acc && t.slots[k].id >= s.nextId
    decreases k - FirstFree(s.slots)
  {
    var f := FirstFree(s.slots);
    t := CommandIdle(r, s);
    t := ConnectPeer(r, t);
    if f < k {
      assert t.slots[k] == s.slots[k] && f < FirstFree(t.slots) <= k;
      t := RefillByConnect(r, t, k);
    }
  }

  lemma FreeByTerminate(r: State, s: State, k: nat) returns (t: State)
    requires Leads(r, s) && Reachable(s) && WellSized(s) && s.running && k < MAX_CONN
    ensures Leads(r, t) && Reachable(t) && WellSized(t) && t.running && t.acc == s.acc
    ensures t.nextId == s.nextId && !t.slots[k].used
  {
    t := CommandIdle(r, s);
    if t.slots[k].used {
      UsedIndex(t, k);
      t := Go(r, t, Terminate(t.slots[k].id));
    }
  }

  /** From here on nobody registers but the accept thread, and not before it has read its id. */
  predicate Stopping(s: State, pc: AcceptPc)
    requires pc.ARet?
  {
    && !s.running && (s.cmd == CStopping || s.cmd == CSwept || s.cmd == CGone) && pc.mine < s.nextId
    && (s.acc == pc ==> pc.slot < |s.slots| && s.slots[pc.slot].id == pc.mine)
  }

  lemma StoppingStep(s: State, a: Action, pc: AcceptPc, t: State)
    requires WellSized(s) && Enabled(s, a) && t == Step(s, a) && pc.ARet? && Stopping(s, pc)
    ensures Stopping(t, pc)
  {
    StepSized(s, a);
    if t.acc == pc {
      StoppingThreads(s, a, pc, t);
      SlotIdAfter(s, a, pc.slot, t);
    }
    if a.Sweep? {
      SweepSized(s, 0);
    }
  }

  /** A step after which the accept thread is about to read `pc.mine` is not a registration. */
  lemma StoppingThreads(s: State, a: Action, pc: AcceptPc, t: State)
    requires WellSized(s) && Enabled(s, a) && t == Step(s, a) && pc.ARet? && Stopping(s, pc) && t.acc == pc
    ensures s.acc == pc && !a.AcceptAdd? && !a.ConnectAdd?
  {
    if a.Sweep? {
      SweepSized(s, 0);
    }
  }

  lemma {:induction false} StoppingReads(s: State, acts: seq<Action>, pc: AcceptPc)
    requires WellSized(s) && ValidFrom(s, acts) && pc.ARet? && Stopping(s, pc)
    ensures Stopping(Exec(s, acts), pc)
    decreases |acts|
  {
    if acts != [] {
      StepSized(s, acts[0]);
      StoppingStep(s, acts[0], pc, Step(s, acts[0]));
      StoppingReads(Step(s, acts[0]), acts[1..], pc);
    }
  }

  lemma WrongReadPossible(s: State)
    requires Reachable(s) && WellSized(s) && s.acc.ARet? && s.running
    ensures exists t :: Leads(s, t) && AcceptReads(t, s.acc, false)
  {
    var k := s.acc.slot;
    MineIsOld(s);
    Stays(s);
    var t := FreeByTerminate(s, s, k);
    t := RefillByConnect(s, t, k);
    RunningThreads(t);
    assert AcceptReads(t, s.acc, false);
  }

  lemma ReadLater(s: State, t: State, own: bool)
    requires Inv(s) && s.acc.ARet? && s.cmd != CGone && Leads(s, t) && AcceptReads(t, s.acc, own)
    ensures own ==> s.slots[s.acc.slot].id == s.acc.mine
    ensures !own ==> s.running || s.slots[s.acc.slot].id != s.acc.mine
  {
    var acts :| ValidFrom(s, acts) && Exec(s, acts) == t;
    SlotIdKept(s, acts, s.acc.slot);
    if !s.running && s.slots[s.acc.slot].id == s.acc.mine {
      StoppingReads(s, acts, s.acc);
    }
  }

  /** The accept thread, about to read the id it registered, can come to read another one exactly
      if the slot already holds another or the command thread has not begun to exit; and it can
      come to read its own exactly if the slot still holds it. */
  lemma WrongReadExactlyWhen(s: State)
    requires Reachable(s) && s.acc.ARet? && s.cmd != CGone
    ensures s.acc.slot < |s.slots|
    ensures (exists t :: Leads(s, t) && AcceptReads(t, s.acc, false))
            <==> s.running || s.slots[s.acc.slot].id != s.acc.mine
    ensures (exists t :: Leads(s, t) && AcceptReads(t, s.acc, true)) <==> s.slots[s.acc.slot].id == s.acc.mine
  {
    ReachableInv(s);
    Stays(s);
    assert AcceptReads(s, s.acc, s.slots[s.acc.slot].id == s.acc.mine);
    if s.running {
      WrongReadPossible(s);
    }
    forall t, own | Leads(s, t) && AcceptReads(t, s.acc, own)
      ensures own ==> s.slots[s.acc.slot].id == s.acc.mine
      ensures !own ==> s.running || s.slots[s.acc.slot].id != s.acc.mine
    {
      ReadLater(s, t, own);
    }
  }

  // ----- In terms of the state: the command thread -----

  predicate ConnectReads(t: State, pc: CommandPc, own: bool) {
    t.cmd == pc && pc.CRet? && pc.slot < |t.slots| && (own <==> t.slots[pc.slot].id == pc.mine)
  }

  /** The receive of a handler fails. */
  lemma FailHandler(r: State, s: State, h: int) returns (t: State)
    requires Leads(r, s) && Reachable(s) && WellSized(s) && s.cmd != CGone
    requires h in s.handlers && s.handlers[h].slot < MAX_CONN && s.slots[s.handlers[h].slot].used
    ensures Leads(r, t) && Reachable(t) && WellSized(t) && At(t, h, HFailed)
    ensures t.handlers[h].slot == s.handlers[h].slot && t.running == s.running && t.cmd == s.cmd
    ensures t.nextId == s.nextId && t.slots == s.slots
  {
    t := s;
    if t.handlers[h].pc == HTop {
      t := Go(r, t, HandlerCheck(h));
    }
    if t.handlers[h].pc.HReceiving? {
      t := Go(r, t, HandlerError(h));
    }
  }

  /** The handler of the connection in slot `k` fails and frees the slot. */
  lemma FreeByHandler(r: State, s: State, k: nat) returns (t: State)
    requires Leads(r, s) && Reachable(s) && WellSized(s) && s.cmd != CGone && k < MAX_CONN
    ensures Leads(r, t) && Reachable(t) && WellSized(t) && t.running == s.running && t.cmd == s.cmd
    ensures t.nextId == s.nextId && !t.slots[k].used
  {
    t := s;
    if s.slots[k].used {
      OwnHandler(s, k);
      t := FailHandler(r, s, s.slots[k].id);
      t := Go(r, t, HandlerDrop(s.slots[k].id));
    }
  }

  /** Steps until the accept thread holds a socket to register. */
  function AcceptRank(pc: AcceptPc): nat {
    match pc
    case AHas(_, _) => 0
    case AWaiting => 1
    case ATest => 2
    case ADone => 0
    case _ => 3
  }

  lemma AcceptOne(r: State, s: State) returns (t: State)
    requires Leads(r, s) && Reachable(s) && WellSized(s) && s.running && s.cmd != CGone && !s.acc.AHas?
    ensures Leads(r, t) && Reachable(t) && WellSized(t) && t.running && t.cmd == s.cmd && t.slots == s.slots
    ensures t.nextId == s.nextId
    ensures AcceptRank(t.acc) < AcceptRank(s.acc)
  {
    ReadableIds(s);
    RunningThreads(s);
    match s.acc
    case ATest => t := Go(r, s, AcceptTest);
    case AWaiting =>
      var fd := Missing(s.fds.open, |s.fds.open|);
      t := Go(r, s, AcceptOk(fd, Endpoint(SOME_IP, 1)));
    case ARet(_, _, _) => t := Go(r, s, AcceptReturn);
    case AFail(_) => t := Go(r, s, AcceptClose);
  }

  /** The accept thread fills the free slots up to slot `k`, and that one. */
  lemma {:induction false} RefillByAccept(r: State, s: State, k: nat) returns (t: State)
    requires Leads(r, s) && Reachable(s) && WellSized(s) && s.running && s.cmd != CGone
    requires k < MAX_CONN && !s.slots[k].used && FirstFree(s.slots) <= k
    ensures Leads(r, t) && Reachable(t) && WellSized(t) && t.cmd == s.cmd && t.slots[k].id >= s.nextId
    decreases k - FirstFree(s.slots), AcceptRank(s.acc)
  {
    if s.acc.AHas? {
      var f := FirstFree(s.slots);
      t := Go(r, s, AcceptAdd(true));
      if f < k {
        assert t.slots[k] == s.slots[k] && f < FirstFree(t.slots) <= k;
        t := RefillByAccept(r, t, k);
      }
    } else {
      t := AcceptOne(r, s);
      t := RefillByAccept(r, t, k);
    }
  }

  /** The command thread is never safe: whenever it is about to read back the id it registered, it
      can come to read another one; its own it can read exactly if the slot still holds it. */
  lemma ConnectWrongReadAlways(s: State)
    requires Reachable(s) && s.cmd.CRet?
    ensures s.cmd.slot < |s.slots|
    ensures exists t :: Leads(s, t) && ConnectReads(t, s.cmd, false)
    ensures (exists t :: Leads(s, t) && ConnectReads(t, s.cmd, true)) <==> s.slots[s.cmd.slot].id == s.cmd.mine
  {
    ReachableInv(s);
    Stays(s);
    var k := s.cmd.slot;
    assert ConnectReads(s, s.cmd, s.slots[k].id == s.cmd.mine);
    MineIsOld(s);
    var t := FreeByHandler(s, s, k);
    t := RefillByAccept(s, t, k);
    assert ConnectReads(t, s.cmd, false);
    forall u | Leads(s, u) && ConnectReads(u, s.cmd, true) ensures s.slots[k].id == s.cmd.mine {
      var acts :| ValidFrom(s, acts) && Exec(s, acts) == u;
      SlotIdKept(s, acts, k);
    }
  }
}
