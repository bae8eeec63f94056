/**
 The life of a connection of midProject_v2 over runs: how it gets into the table, how many handlers
 it has, which removals succeed, and when nothing is registered any more.
 */
module PeerLife {
  import opened SlotTable
  import opened PeerTable
  import opened PeerSystem

  // ----- How a connection gets into the table -----

  predicate OfListener(a: Action) {
    a.Accept? || a.AcceptError? || a.ListenAdd? || a.SecondReceiver?
  }

  predicate OfHandlers(a: Action) {
    a.ReceiverEnds?
  }

  predicate OfCommand(a: Action) {
    !OfListener(a) && !OfHandlers(a)
  }

  lemma {:induction false} ListenerWaits(s: State, acts: seq<Action>)
    requires ValidFrom(s, acts) && forall i :: 0 <= i < |acts| ==> !OfListener(acts[i])
    ensures Exec(s, acts).listen == s.listen
    decreases |acts|
  {
    if acts != [] {
      ListenerWaits(Step(s, acts[0]), acts[1..]);
    }
  }

  lemma {:induction false} CommandWaits(s: State, acts: seq<Action>)
    requires ValidFrom(s, acts) && forall i :: 0 <= i < |acts| ==> !OfCommand(acts[i])
    ensures Exec(s, acts).cmd == s.cmd
    decreases |acts|
  {
    if acts != [] {
      CommandWaits(Step(s, acts[0]), acts[1..]);
    }
  }

  ghost predicate TableOk(s: State) {
    |s.slots| == MAX_CONN && TableInv(s.slots, s.nextId)
  }

  lemma AfterRun(s: State, a: Action, acts: seq<Action>, t: State)
    requires Reachable(s) && Enabled(s, a) && ValidFrom(Step(s, a), acts) && t == Exec(Step(s, a), acts)
    ensures TableOk(t)
  {
    ReachableInv(s);
    StepKeepsInv(s, a);
    RunKeepsInv(Step(s, a), acts);
  }

  /** Registration succeeds exactly if the thread starts and fewer than 100 are registered. */
  lemma RegistersExactly(s: State, threadOk: bool)
    requires TableOk(s)
    ensures Registers(s, threadOk) <==> threadOk && |Table(s)| < 100
  {
    FullExactlyAtCapacity(s.slots, s.nextId);
  }

  lemma HeldIsRegistered(t: State, fd: int, addr: Endpoint, threadOk: bool)
    requires TableOk(t) && t.listen == Holding(fd, addr) && t.cmd != Gone
    ensures Enabled(t, ListenAdd(threadOk))
    ensures Table(Step(t, ListenAdd(threadOk)))
         == if threadOk && |Table(t)| < 100 then Table(t)[t.nextId := Conn(fd, addr)] else Table(t)
    ensures t.nextId !in Table(t)
  {
    RegistersExactly(t, threadOk);
    RegisterTable(t, fd, addr, threadOk);
  }

  /** The connection that `accept` returned is the one registered, under the next id, with its
      socket and endpoint, whatever the other threads do before the listener gets the lock; it is
      refused exactly if 100 are registered or its thread cannot be created. */
  lemma AcceptedIsRegistered(s: State, fd: int, addr: Endpoint, acts: seq<Action>, t: State, threadOk: bool)
    requires Reachable(s) && Enabled(s, Accept(fd, addr)) && ValidFrom(Step(s, Accept(fd, addr)), acts)
    requires forall i :: 0 <= i < |acts| ==> !OfListener(acts[i])
    requires t == Exec(Step(s, Accept(fd, addr)), acts) && t.cmd != Gone
    ensures Enabled(t, ListenAdd(threadOk)) && t.nextId !in Table(t)
    ensures Table(Step(t, ListenAdd(threadOk)))
         == if threadOk && |Table(t)| < 100 then Table(t)[t.nextId := Conn(fd, addr)] else Table(t)
  {
    AfterRun(s, Accept(fd, addr), acts, t);
    ListenerWaits(Step(s, Accept(fd, addr)), acts);
    HeldIsRegistered(t, fd, addr, threadOk);
  }

  lemma ConnectedHeldIsRegistered(t: State, fd: int, addr: Endpoint, threadOk: bool)
    requires TableOk(t) && t.cmd == Connected(fd, addr)
    ensures Enabled(t, ConnectAdd(threadOk)) && t.nextId !in Table(t)
    ensures Step(t, ConnectAdd(threadOk)).cmd == Idle
    ensures Table(Step(t, ConnectAdd(threadOk)))
         == if threadOk && |Table(t)| < 100 then Table(t)[t.nextId := Conn(fd, addr)] else Table(t)
  {
    RegistersExactly(t, threadOk);
    RegisterTable(t, fd, addr, threadOk);
  }

  /** The same for the connection that `connect_to_peer` made; then the next command is read. */
  lemma ConnectedIsRegistered(s: State, fd: int, addr: Endpoint, acts: seq<Action>, t: State, threadOk: bool)
    requires Reachable(s) && Enabled(s, Connect(fd, addr)) && ValidFrom(Step(s, Connect(fd, addr)), acts)
    requires forall i :: 0 <= i < |acts| ==> !OfCommand(acts[i])
    requires t == Exec(Step(s, Connect(fd, addr)), acts)
    ensures Enabled(t, ConnectAdd(threadOk)) && t.nextId !in Table(t)
    ensures Step(t, ConnectAdd(threadOk)).cmd == Idle
    ensures Table(Step(t, ConnectAdd(threadOk)))
         == if threadOk && |Table(t)| < 100 then Table(t)[t.nextId := Conn(fd, addr)] else Table(t)
  {
    AfterRun(s, Connect(fd, addr), acts, t);
    CommandWaits(Step(s, Connect(fd, addr)), acts);
    ConnectedHeldIsRegistered(t, fd, addr, threadOk);
  }

  /** A send looks up a socket exactly for an id in the table, and that id's; for any other the
      command thread is ready for the next command at once, and otherwise after the send. */
  lemma SendLookupExactly(s: State, id: int)
    requires Reachable(s) && Enabled(s, SendLookup(id))
    ensures var t := Step(s, SendLookup(id));
            && Table(t) == Table(s)
            && t.cmd == (if id in Table(s) then Sending(id, Table(s)[id].sockfd) else Idle)
            && (id in Table(s) ==> Enabled(t, SendNow) && Step(t, SendNow) == s)
  {
    ReachableInv(s);
    LookupAgrees(s.slots, s.nextId, id);
  }

  // ----- How many handlers -----

  /** Times a handler of `id` ends in the run. */
  function Endings(acts: seq<Action>, id: int): nat {
    multiset(acts)[ReceiverEnds(id)]
  }

  lemma AddReceivers(s: State, a: Action, id: int, t: State)
    requires Enabled(s, a) && t == Step(s, a) && id < s.nextId && (a.ListenAdd? || a.ConnectAdd?)
    ensures t.nextId >= s.nextId && t.receivers[id] == s.receivers[id]
    ensures s.listen != Starting(id) ==> t.listen != Starting(id)
  {
  }

  lemma EndReceivers(s: State, a: Action, id: int, t: State)
    requires Enabled(s, a) && t == Step(s, a) && a.ReceiverEnds?
    ensures t.nextId == s.nextId && t.listen == s.listen
    ensures t.receivers[id] == s.receivers[id] - (if a.id == id then 1 else 0)
  {
  }

  lemma SecondReceivers(s: State, a: Action, id: int, t: State)
    requires Enabled(s, a) && t == Step(s, a) && a.SecondReceiver?
    ensures t.nextId == s.nextId && t.listen == Accepting
    ensures t.receivers[id] == s.receivers[id] + (if a.threadOk && s.listen.id == id then 1 else 0)
  {
  }

  lemma SameReceivers(s: State, a: Action, t: State)
    requires Enabled(s, a) && t == Step(s, a)
    requires !a.ListenAdd? && !a.ConnectAdd? && !a.ReceiverEnds? && !a.SecondReceiver?
    ensures t.nextId == s.nextId && t.receivers == s.receivers
    ensures t.listen == s.listen || !t.listen.Starting?
  {
  }

  /** What a step does to the handlers of an id that has been issued. */
  lemma StepReceivers(s: State, a: Action, id: int, t: State)
    requires Enabled(s, a) && t == Step(s, a) && id < s.nextId && s.listen != Starting(id)
    ensures t.nextId >= s.nextId && t.listen != Starting(id)
    ensures t.receivers[id] == s.receivers[id] - (if a == ReceiverEnds(id) then 1 else 0)
  {
    if a.ListenAdd? || a.ConnectAdd? {
      AddReceivers(s, a, id, t);
    } else if a.ReceiverEnds? {
      EndReceivers(s, a, id, t);
    } else if a.SecondReceiver? {
      SecondReceivers(s, a, id, t);
    } else {
      SameReceivers(s, a, t);
    }
  }

  /** Once the second handler has been started, or was never to be, handlers of an id only end. */
  lemma {:induction false} HandlersOnlyEnd(s: State, acts: seq<Action>, id: int)
    requires ValidFrom(s, acts) && id < s.nextId && s.listen != Starting(id)
    ensures Exec(s, acts).receivers[id] == s.receivers[id] - Endings(acts, id)
    decreases |acts|
  {
    if acts != [] {
      assert acts == [acts[0]] + acts[1..];
      StepReceivers(s, acts[0], id, Step(s, acts[0]));
      HandlersOnlyEnd(Step(s, acts[0]), acts[1..], id);
    }
  }

  /** An accepted connection starts with two handlers, or one if the second thread cannot be
      created; from then on they only end, each once. */
  lemma AcceptedHandlers(s: State, threadOk: bool, acts: seq<Action>)
    requires Reachable(s) && Enabled(s, ListenAdd(true)) && |Table(s)| < 100
    ensures Enabled(Step(s, ListenAdd(true)), SecondReceiver(threadOk))
    ensures var u := Step(Step(s, ListenAdd(true)), SecondReceiver(threadOk));
            ValidFrom(u, acts) ==>
              Exec(u, acts).receivers[s.nextId] == (if threadOk then 2 else 1) - Endings(acts, s.nextId)
  {
    NewIdHasNoHandler(s);
    RegistersExactly(s, true);
    var u := Step(Step(s, ListenAdd(true)), SecondReceiver(threadOk));
    if ValidFrom(u, acts) {
      HandlersOnlyEnd(u, acts, s.nextId);
    }
  }

  /** A connection made by `connect` has one. */
  lemma ConnectedHandler(s: State, acts: seq<Action>)
    requires Reachable(s) && Enabled(s, ConnectAdd(true)) && |Table(s)| < 100
    requires ValidFrom(Step(s, ConnectAdd(true)), acts)
    ensures Exec(Step(s, ConnectAdd(true)), acts).receivers[s.nextId] == 1 - Endings(acts, s.nextId)
  {
    NewIdHasNoHandler(s);
    RegistersExactly(s, true);
    HandlersOnlyEnd(Step(s, ConnectAdd(true)), acts, s.nextId);
  }

  lemma NewIdHasNoHandler(s: State)
    requires Reachable(s)
    ensures s.receivers[s.nextId] == 0 && TableOk(s) && s.listen != Starting(s.nextId)
  {
    ReachableInv(s);
    assert s.nextId !in s.registered;
  }

  // ----- Removals, counted from the run -----

  /** Calls of `remove_connection_by_id(id)` in the run that find the id registered. */
  function Wins(s: State, acts: seq<Action>, id: int): nat
    requires ValidFrom(s, acts)
    decreases |acts|
  {
    if acts == [] then 0
    else (if IsRemoval(s, acts[0], id) && id in Table(s) then 1 else 0) + Wins(Step(s, acts[0]), acts[1..], id)
  }

  /** The id was registered at some point of the run. */
  predicate EverActive(s: State, acts: seq<Action>, id: int)
    requires ValidFrom(s, acts)
    decreases |acts|
  {
    id in Table(s) || (acts != [] && EverActive(Step(s, acts[0]), acts[1..], id))
  }

  lemma {:induction false} NoWinsWhenGone(s: State, acts: seq<Action>, id: int)
    requires Inv(s) && ValidFrom(s, acts) && id < s.nextId && id !in Table(s)
    ensures Wins(s, acts, id) == 0 && !EverActive(s, acts, id) && id !in Table(Exec(s, acts))
    decreases |acts|
  {
    if acts != [] {
      StepAges(s, acts[0], Step(s, acts[0]), id);
      StepKeepsInv(s, acts[0]);
      NoWinsWhenGone(Step(s, acts[0]), acts[1..], id);
    }
  }

  lemma {:induction false} WinsFrom(s: State, acts: seq<Action>, id: int)
    requires Inv(s) && ValidFrom(s, acts) && (id in Table(s) || id >= s.nextId)
    ensures Wins(s, acts, id) == if EverActive(s, acts, id) && id !in Table(Exec(s, acts)) then 1 else 0
    decreases |acts|
  {
    if acts != [] {
      var t := Step(s, acts[0]);
      StepAges(s, acts[0], t, id);
      StepKeepsInv(s, acts[0]);
      NotYetRemoved(s, id);
      if id in Table(t) || id >= t.nextId {
        WinsFrom(t, acts[1..], id);
      } else {
        NoWinsWhenGone(t, acts[1..], id);
      }
    }
  }

  lemma NotYetRemoved(s: State, id: int)
    requires Inv(s)
    ensures id in Table(s) ==> id < s.nextId
  {
    IssuedIds(s);
  }

  /** In every run, of all calls that remove an id exactly one finds it registered if it was ever
      registered and is gone at the end, and none otherwise. */
  lemma OneRemovalSucceeds(acts: seq<Action>, id: int)
    requires ValidFrom(Init(), acts) && id >= 1
    ensures Wins(Init(), acts, id)
         == if EverActive(Init(), acts, id) && id !in Table(Exec(Init(), acts)) then 1 else 0
  {
    InitInv();
    WinsFrom(Init(), acts, id);
  }

  // ----- When nothing is registered any more -----

  lemma {:induction false} ClosedRun(s: State, acts: seq<Action>, id: int)
    requires Inv(s) && ValidFrom(s, acts) && s.listen == Closed && (s.cmd == Swept || s.cmd == Gone)
    requires id in Table(Exec(s, acts))
    ensures id in Table(s)
    decreases |acts|
  {
    if acts != [] {
      var t := Step(s, acts[0]);
      StepKeepsInv(s, acts[0]);
      ClosedRun(t, acts[1..], id);
      ClosedStep(s, acts[0], t, id);
    }
  }

  lemma ClosedStep(s: State, a: Action, t: State, id: int)
    requires Inv(s) && Enabled(s, a) && t == Step(s, a) && id in Table(t)
    requires s.listen == Closed && (s.cmd == Swept || s.cmd == Gone)
    ensures id in Table(s)
  {
    if a.ReceiverEnds? {
      RemoveIdTable(s, a.id);
    }
  }

  lemma ReachableListen(s: State)
    requires Reachable(s)
    ensures ListenInv(s)
  {
    var acts :| ValidFrom(Init(), acts) && Exec(Init(), acts) == s;
    RunKeepsListen(Init(), acts);
  }

  /** After the `exit` loop, a listener whose `accept` fails registers nothing any more. */
  lemma ListenerEnds(s: State, acts: seq<Action>, id: int)
    requires Reachable(s) && s.cmd == Swept && Enabled(s, AcceptError) && ValidFrom(Step(s, AcceptError), acts)
    requires id in Table(Exec(Step(s, AcceptError), acts))
    ensures id in Table(s)
  {
    ReachableInv(s);
    ReachableListen(s);
    StepKeepsInv(s, AcceptError);
    ClosedRun(Step(s, AcceptError), acts, id);
  }

  /** Before that a failing `accept` never ends the listener. */
  lemma ListenerGoesOn(s: State)
    requires Reachable(s) && s.cmd != Swept && s.cmd != Gone && Enabled(s, AcceptError)
    ensures Step(s, AcceptError) == s
  {
    ReachableListen(s);
  }

  // ----- Progress -----

  /** Until the process ends every thread that has not ended can take a step. */
  lemma NoThreadStuck(s: State)
    requires Reachable(s) && s.cmd != Gone
    ensures exists a :: OfCommand(a) && Enabled(s, a)
    ensures s.listen != Closed ==> exists a :: OfListener(a) && Enabled(s, a)
    ensures forall id :: id in s.receivers ==> Enabled(s, ReceiverEnds(id))
  {
    assert s.cmd.Sweeping? ==> s.cmd.i >= SWEEP_LIMIT || s.cmd.i < SWEEP_LIMIT;
    var a := match s.cmd
             case Idle => BeginExit
             case Connected(_, _) => ConnectAdd(true)
             case Sending(_, _) => SendNow
             case Sweeping(i) => if i < SWEEP_LIMIT then SweepOne else StopListen
             case _ => Leave;
    assert OfCommand(a) && Enabled(s, a);
    var b := match s.listen
             case Holding(_, _) => ListenAdd(true)
             case Starting(_) => SecondReceiver(true)
             case _ => AcceptError;
    assert s.listen != Closed ==> OfListener(b) && Enabled(s, b);
  }

  /** `accept` can return any connection or fail, and any command can be typed, or the input end. */
  lemma EnvironmentIsFree(s: State)
    requires Reachable(s) && s.cmd != Gone
    ensures forall fd, addr :: s.listen == Accepting && fd >= 0 ==> Enabled(s, Accept(fd, addr))
    ensures s.listen == Accepting ==> Enabled(s, AcceptError)
    ensures s.cmd == Idle ==> Enabled(s, BeginExit) && Enabled(s, Leave)
    ensures forall id :: s.cmd == Idle ==> Enabled(s, Terminate(id)) && Enabled(s, SendLookup(id))
    ensures forall fd, addr :: s.cmd == Idle && fd >= 0 ==> Enabled(s, Connect(fd, addr))
  {
  }

  // ----- The limit of the exit loop -----

  /** Of the registered ids the loop removes 999 in every run, and 1000 can be left. */
  lemma SweepLimits(s: State)
    requires Reachable(s) && s.cmd == Sweeping(0)
    ensures 999 in Table(s) ==> !exists t :: Survives(s, t, 999)
    ensures 1000 in Table(s) ==> exists t :: Survives(s, t, 1000)
  {
    ReachableInv(s);
    IssuedIds(s);
    ExitLeavesExactly(s, 999);
    ExitLeavesExactly(s, 1000);
  }
}
