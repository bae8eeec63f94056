/**
 All the threads of mid_project/chat.c together: the command thread, the accept thread and one
 receive handler per registration, interleaved at the granularity of the blocks under
 `conns_mutex`. `accept`, `socket`, `connect` and `recv` are steps of the environment; a fresh
 socket number is any number not currently open, so numbers are reused.

 A handler is bound to a slot index, not to a connection. Handlers are named here by the id of the
 registration that started them, which the program itself does not remember.
 */
module ChatSystem {
  import opened SlotTable
  import opened ChatTable

  /** Connection sockets: the open ones, how many were ever opened and closed, and how many calls
      of `close` hit a socket that was not open. */
  datatype Fds = Fds(open: set<int>, opens: nat, closes: nat, bad: nat)

  datatype AcceptPc =
    | ATest
    | AWaiting
    | AHas(fd: int, addr: Endpoint)
    | ARet(slot: nat, fd: int, mine: int)
    | AFail(fd: int)
    | ADone

  datatype CommandPc =
    | CIdle
    | CPending(dest: Endpoint)
    | CSocket(dest: Endpoint, fd: int)
    | CRet(slot: nat, fd: int, mine: int)
    | CFail(fd: int)
    | CStopping
    | CSwept
    | CGone

  datatype HandlerPc = HTop | HReceiving(fd: int) | HFailed

  datatype Handler = Handler(slot: nat, pc: HandlerPc)

  /** `terms[i]` counts the times slot i was freed by the command thread, `exits[i]` the handlers
      that left because they found slot i free; `outgoing` holds the ids registered by `connect`. */
  datatype State = State(
    slots: seq<Slot>, nextId: int, running: bool,
    acc: AcceptPc, cmd: CommandPc, handlers: map<int, Handler>,
    fds: Fds, terms: seq<nat>, exits: seq<nat>, outgoing: set<int>)

  datatype Action =
    | AcceptTest
    | AcceptOk(fd: int, addr: Endpoint)
    | AcceptError
    | AcceptAdd(threadOk: bool)
    | AcceptReturn
    | AcceptClose
    | Connect(dest: Endpoint)
    | SocketOk(fd: int)
    | SocketError
    | ConnectError
    | ConnectAdd(threadOk: bool)
    | ConnectReturn
    | ConnectClose
    | Terminate(id: int)
    | Exit
    | Sweep
    | Leave
    | HandlerCheck(h: int)
    | HandlerData(h: int)
    | HandlerError(h: int)
    | HandlerDrop(h: int)

  function Init(): State {
    State(seq(MAX_CONN, _ => EMPTY_SLOT), 1, true, ATest, CIdle, map[],
          Fds({}, 0, 0, 0), seq(MAX_CONN, _ => 0), seq(MAX_CONN, _ => 0), {})
  }

  // ----- The steps -----

  function Opened(f: Fds, fd: int): Fds {
    f.(open := f.open + {fd}, opens := f.opens + 1)
  }

  function Closed(f: Fds, fd: int): Fds {
    f.(open := f.open - {fd}, closes := f.closes + 1, bad := if fd in f.open then f.bad else f.bad + 1)
  }

  predicate At(s: State, h: int, pc: HandlerPc) {
    h in s.handlers && s.handlers[h].pc == pc
  }

  predicate Enabled(s: State, a: Action) {
    && s.cmd != CGone
    && match a
       case AcceptTest => s.acc == ATest
       case AcceptOk(fd, _) => s.acc == AWaiting && fd >= 0 && fd !in s.fds.open
       case AcceptError => s.acc == AWaiting
       case AcceptAdd(_) => s.acc.AHas?
       case AcceptReturn => s.acc.ARet?
       case AcceptClose => s.acc.AFail?
       case Connect(_) => s.cmd == CIdle
       case SocketOk(fd) => s.cmd.CPending? && fd >= 0 && fd !in s.fds.open
       case SocketError => s.cmd.CPending?
       case ConnectError => s.cmd.CSocket?
       case ConnectAdd(_) => s.cmd.CSocket?
       case ConnectReturn => s.cmd.CRet?
       case ConnectClose => s.cmd.CFail?
       case Terminate(_) => s.cmd == CIdle
       case Exit => s.cmd == CIdle
       case Sweep => s.cmd == CStopping
       case Leave => s.cmd == CSwept
       case HandlerCheck(h) => At(s, h, HTop)
       case HandlerData(h) => h in s.handlers && s.handlers[h].pc.HReceiving?
       case HandlerError(h) => h in s.handlers && s.handlers[h].pc.HReceiving?
       case HandlerDrop(h) => At(s, h, HFailed)
  }

  /** The locked block of `add_connection`, with the handler it starts. */
  function Register(s: State, fd: int, addr: Endpoint, threadOk: bool): State {
    var r := Add(s.slots, s.nextId, fd, addr, threadOk);
    s.(slots := r.slots, nextId := r.nextId,
       handlers := if r.slot >= 0 then s.handlers[s.nextId := Handler(r.slot, HTop)] else s.handlers)
  }

  function TakenSlot(s: State, threadOk: bool): int {
    var k := FirstFree(s.slots);
    if k < |s.slots| && threadOk then k else -1
  }

  /** Closes the socket of slot `k` and frees the slot. */
  function Drop(s: State, k: nat): State
    requires k < |s.slots|
  {
    s.(slots := Free(s.slots, k), fds := Closed(s.fds, s.slots[k].sockfd))
  }

  /** The same, done by the command thread. */
  function Terminated(s: State, k: nat): State
    requires k < |s.slots| == |s.terms|
  {
    Drop(s, k).(terms := s.terms[k := s.terms[k] + 1])
  }

  /** The loop of `cleanup_and_exit`, from slot `k` on. */
  function SweepFrom(s: State, k: nat): State
    requires k <= |s.slots| == |s.terms|
    decreases |s.slots| - k
  {
    if k == |s.slots| then s
    else SweepFrom(if s.slots[k].used then Terminated(s, k) else s, k + 1)
  }

  function SetHandler(s: State, h: int, pc: HandlerPc): State
    requires h in s.handlers
  {
    s.(handlers := s.handlers[h := s.handlers[h].(pc := pc)])
  }

  /** A handler leaves because its slot is free. */
  function LeaveFree(s: State, h: int): State
    requires h in s.handlers && s.handlers[h].slot < |s.exits|
  {
    var k := s.handlers[h].slot;
    s.(handlers := s.handlers - {h}, exits := s.exits[k := s.exits[k] + 1])
  }

  function AcceptStep(s: State, a: Action): State
    requires Enabled(s, a) && WellSized(s)
  {
    match a
    case AcceptTest => s.(acc := if s.running then AWaiting else ADone)
    case AcceptOk(fd, addr) => s.(acc := AHas(fd, addr), fds := Opened(s.fds, fd))
    case AcceptError => s.(acc := if s.running then ATest else ADone)
    case AcceptAdd(threadOk) =>
      var k := TakenSlot(s, threadOk);
      Register(s, s.acc.fd, s.acc.addr, threadOk)
      .(acc := if k >= 0 then ARet(k, s.acc.fd, s.nextId) else AFail(s.acc.fd))
    case AcceptReturn =>
      s.(acc := if s.slots[s.acc.slot].id >= 0 then ATest else AFail(s.acc.fd))
    case AcceptClose => s.(acc := ATest, fds := Closed(s.fds, s.acc.fd))
    case _ => s
  }

  function CommandStep(s: State, a: Action): State
    requires Enabled(s, a) && WellSized(s)
  {
    match a
    case Connect(dest) => s.(cmd := if HasPeer(s.slots, dest) then CIdle else CPending(dest))
    case SocketOk(fd) => s.(cmd := CSocket(s.cmd.dest, fd), fds := Opened(s.fds, fd))
    case SocketError => s.(cmd := CIdle)
    case ConnectError => s.(cmd := CIdle, fds := Closed(s.fds, s.cmd.fd))
    case ConnectAdd(threadOk) =>
      var k := TakenSlot(s, threadOk);
      Register(s, s.cmd.fd, s.cmd.dest, threadOk)
      .(cmd := if k >= 0 then CRet(k, s.cmd.fd, s.nextId) else CFail(s.cmd.fd),
        outgoing := if k >= 0 then s.outgoing + {s.nextId} else s.outgoing)
    case ConnectReturn =>
      s.(cmd := if s.slots[s.cmd.slot].id >= 0 then CIdle else CFail(s.cmd.fd))
    case ConnectClose => s.(cmd := CIdle, fds := Closed(s.fds, s.cmd.fd))
    case Terminate(id) =>
      var k := IndexOf(s.slots, id);
      if k < |s.slots| then Terminated(s, k) else s
    case Exit => s.(running := false, cmd := CStopping)
    case Sweep => SweepFrom(s, 0).(cmd := CSwept)
    case Leave => s.(cmd := CGone)
    case _ => s
  }

  function HandlerStep(s: State, a: Action): State
    requires Enabled(s, a) && WellSized(s)
  {
    match a
    case HandlerCheck(h) =>
      var k := s.handlers[h].slot;
      if s.slots[k].used then SetHandler(s, h, HReceiving(s.slots[k].sockfd)) else LeaveFree(s, h)
    case HandlerData(h) => SetHandler(s, h, HTop)
    case HandlerError(h) => SetHandler(s, h, HFailed)
    case HandlerDrop(h) =>
      var k := s.handlers[h].slot;
      if s.slots[k].used then Drop(s, k).(handlers := s.handlers - {h}) else LeaveFree(s, h)
    case _ => s
  }

  predicate OfAccept(a: Action) {
    a.AcceptTest? || a.AcceptOk? || a.AcceptError? || a.AcceptAdd? || a.AcceptReturn? || a.AcceptClose?
  }

  predicate OfHandler(a: Action) {
    a.HandlerCheck? || a.HandlerData? || a.HandlerError? || a.HandlerDrop?
  }

  function Step(s: State, a: Action): State
    requires Enabled(s, a) && WellSized(s)
  {
    if OfAccept(a) then AcceptStep(s, a) else if OfHandler(a) then HandlerStep(s, a) else CommandStep(s, a)
  }

  /** Every index in the state is an index of the table. */
  predicate WellSized(s: State) {
    && |s.slots| == |s.terms| == |s.exits| == MAX_CONN
    && (forall h :: h in s.handlers ==> s.handlers[h].slot < MAX_CONN)
    && (s.acc.ARet? ==> s.acc.slot < MAX_CONN) && (s.cmd.CRet? ==> s.cmd.slot < MAX_CONN)
  }

  lemma {:induction false} SweepSized(s: State, k: nat)
    requires k <= |s.slots| == |s.terms|
    ensures var t := SweepFrom(s, k);
            && |t.slots| == |s.slots| && |t.terms| == |s.terms|
            && t == s.(slots := t.slots, terms := t.terms, fds := t.fds)
            && (forall i :: 0 <= i < k ==> t.slots[i] == s.slots[i])
            && (forall i :: k <= i < |s.slots| ==> t.slots[i] == s.slots[i].(used := false))
    decreases |s.slots| - k
  {
    if k < |s.slots| {
      SweepSized(if s.slots[k].used then Terminated(s, k) else s, k + 1);
    }
  }

  lemma CommandSized(s: State, a: Action)
    requires Enabled(s, a) && WellSized(s) && !OfAccept(a) && !OfHandler(a)
    ensures WellSized(CommandStep(s, a))
  {
    SweepSized(s, 0);
  }

  lemma HandlerSized(s: State, a: Action)
    requires Enabled(s, a) && WellSized(s) && OfHandler(a)
    ensures WellSized(HandlerStep(s, a))
  {
  }

  lemma StepSized(s: State, a: Action)
    requires Enabled(s, a) && WellSized(s)
    ensures WellSized(Step(s, a))
  {
    if OfHandler(a) {
      HandlerSized(s, a);
    } else if !OfAccept(a) {
      CommandSized(s, a);
    }
  }

  predicate ValidFrom(s: State, acts: seq<Action>)
    requires WellSized(s)
    decreases |acts|
  {
    acts == [] ||
    (Enabled(s, acts[0]) && (StepSized(s, acts[0]); ValidFrom(Step(s, acts[0]), acts[1..])))
  }

  function Exec(s: State, acts: seq<Action>): (t: State)
    requires WellSized(s) && ValidFrom(s, acts)
    ensures WellSized(t)
    decreases |acts|
  {
    if acts == [] then s else (StepSized(s, acts[0]); Exec(Step(s, acts[0]), acts[1..]))
  }
}
