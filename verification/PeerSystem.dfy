/**
 All the threads of midProject_v2 together: the command thread of main.c, the accept loop of
 server.c and the receive handlers of message.c, interleaved at the granularity of the blocks
 under `conn_lock`. A handler is bound to an id, and ids are never reused. For an accepted
 connection the server starts a second handler besides the one `add_connection` started.
 */
module PeerSystem {
  import opened SlotTable
  import opened PeerTable

  datatype ListenPc = Accepting | Holding(fd: int, addr: Endpoint) | Starting(id: int) | Closed

  /** `Sending`: the socket has been looked up and the lock given up, but nothing sent yet. */
  datatype CommandPc =
    | Idle
    | Connected(fd: int, addr: Endpoint)
    | Sending(id: int, fd: int)
    | Sweeping(i: int)
    | Swept
    | Gone

  /** `receivers[id]` is the number of live handlers bound to an id, `removals[id]` how many calls
      of `remove_connection_by_id(id)` returned 0; `registered` are the ids ever active. */
  datatype State = State(
    slots: seq<Slot>, nextId: int, listening: bool, listen: ListenPc, cmd: CommandPc,
    receivers: multiset<int>, removals: multiset<int>, registered: set<int>)

  datatype Action =
    | Accept(fd: int, addr: Endpoint)
    | AcceptError
    | ListenAdd(threadOk: bool)
    | SecondReceiver(threadOk: bool)
    | ReceiverEnds(id: int)
    | Connect(fd: int, addr: Endpoint)
    | ConnectAdd(threadOk: bool)
    | Terminate(id: int)
    | SendLookup(id: int)
    | SendNow
    | BeginExit
    | SweepOne
    | StopListen
    | Leave

  function Init(): State {
    State(seq(MAX_CONN, _ => EMPTY_SLOT), 1, true, Accepting, Idle, multiset{}, multiset{}, {})
  }

  predicate Enabled(s: State, a: Action) {
    && s.cmd != Gone
    && match a
       case Accept(fd, _) => s.listen == Accepting && fd >= 0
       case AcceptError => s.listen == Accepting
       case ListenAdd(_) => s.listen.Holding?
       case SecondReceiver(_) => s.listen.Starting?
       case ReceiverEnds(id) => id in s.receivers
       case Connect(fd, _) => s.cmd == Idle && fd >= 0
       case ConnectAdd(_) => s.cmd.Connected?
       case Terminate(_) => s.cmd == Idle
       case SendLookup(_) => s.cmd == Idle
       case SendNow => s.cmd.Sending?
       case BeginExit => s.cmd == Idle
       case SweepOne => s.cmd.Sweeping? && s.cmd.i < SWEEP_LIMIT
       case StopListen => s.cmd.Sweeping? && s.cmd.i >= SWEEP_LIMIT
       case Leave => s.cmd == Swept || s.cmd == Idle
  }

  /** `add_connection` with the handler it starts. */
  function Register(s: State, fd: int, addr: Endpoint, threadOk: bool): State {
    var r := Add(s.slots, s.nextId, fd, addr, threadOk);
    if r.slot >= 0
    then s.(slots := r.slots, nextId := r.nextId,
            receivers := s.receivers + multiset{s.nextId}, registered := s.registered + {s.nextId})
    else s.(slots := r.slots, nextId := r.nextId)
  }

  predicate Registers(s: State, threadOk: bool) {
    FirstFree(s.slots) < |s.slots| && threadOk
  }

  /** `remove_connection_by_id`. */
  function RemoveId(s: State, id: int): State {
    if IndexOf(s.slots, id) < |s.slots|
    then s.(slots := Remove(s.slots, id), removals := s.removals + multiset{id})
    else s
  }

  function Step(s: State, a: Action): State
    requires Enabled(s, a)
  {
    match a
    case Accept(fd, addr) => s.(listen := Holding(fd, addr))
    case AcceptError => s.(listen := if s.listening then Accepting else Closed)
    case ListenAdd(threadOk) =>
      Register(s, s.listen.fd, s.listen.addr, threadOk)
      .(listen := if Registers(s, threadOk) then Starting(s.nextId) else Accepting)
    case SecondReceiver(threadOk) =>
      s.(listen := Accepting,
         receivers := if threadOk then s.receivers + multiset{s.listen.id} else s.receivers)
    case ReceiverEnds(id) => RemoveId(s, id).(receivers := s.receivers - multiset{id})
    case Connect(fd, addr) => s.(cmd := Connected(fd, addr))
    case ConnectAdd(threadOk) => Register(s, s.cmd.fd, s.cmd.addr, threadOk).(cmd := Idle)
    case Terminate(id) => RemoveId(s, id)
    case SendLookup(id) =>
      var k := IndexOf(s.slots, id);
      s.(cmd := if k < |s.slots| then Sending(id, s.slots[k].sockfd) else Idle)
    case SendNow => s.(cmd := Idle)
    case BeginExit => s.(cmd := Sweeping(0))
    case SweepOne => RemoveId(s, s.cmd.i).(cmd := Sweeping(s.cmd.i + 1))
    case StopListen => s.(listening := false, cmd := Swept)
    case Leave => s.(cmd := Gone)
  }

  predicate ValidFrom(s: State, acts: seq<Action>)
    decreases |acts|
  {
    acts == [] || (Enabled(s, acts[0]) && ValidFrom(Step(s, acts[0]), acts[1..]))
  }

  function Exec(s: State, acts: seq<Action>): State
    requires ValidFrom(s, acts)
    decreases |acts|
  {
    if acts == [] then s else Exec(Step(s, acts[0]), acts[1..])
  }

  // ----- The invariant -----

  /** The connections registered now. */
  function Table(s: State): map<int, Conn> {
    Live(s.slots)
  }

  /** The registered ids split into those in the table and those removed once. */
  ghost predicate IdInv(m: map<int, Conn>, nextId: int, registered: set<int>, removals: multiset<int>) {
    && (forall id :: id in registered ==> 1 <= id < nextId)
    && (forall id :: id in m <==> id in registered && id !in removals)
    && (forall id :: id in removals ==> id in registered && removals[id] == 1)
  }

  /** An active id has a handler, and no id ever has more than two; `starting` is the id for which
      the server is about to start the second one. */
  ghost predicate ReceiverInv(m: map<int, Conn>, registered: set<int>, receivers: multiset<int>, starting: int) {
    && (forall id :: id in receivers ==> id in registered)
    && (forall id :: id in m ==> id in receivers)
    && (forall id :: id in receivers ==> receivers[id] <= if id == starting then 1 else 2)
  }

  function StartingId(pc: ListenPc): int {
    if pc.Starting? then pc.id else 0
  }

  ghost predicate Inv(s: State) {
    && |s.slots| == MAX_CONN && TableInv(s.slots, s.nextId)
    && IdInv(Table(s), s.nextId, s.registered, s.removals)
    && ReceiverInv(Table(s), s.registered, s.receivers, StartingId(s.listen))
    && (s.listen.Starting? ==> s.listen.id in s.registered)
  }

  /** What a removal does to the table, in terms of ids. */
  lemma RemoveIdTable(s: State, id: int)
    requires TableInv(s.slots, s.nextId)
    ensures TableInv(RemoveId(s, id).slots, s.nextId) && |RemoveId(s, id).slots| == |s.slots|
    ensures Table(RemoveId(s, id)) == Table(s) - {id}
    ensures RemoveId(s, id).removals == if id in Table(s) then s.removals + multiset{id} else s.removals
  {
    RemoveDeletes(s.slots, s.nextId, id);
    LookupAgrees(s.slots, s.nextId, id);
  }

  lemma RegisterTable(s: State, fd: int, addr: Endpoint, threadOk: bool)
    requires TableInv(s.slots, s.nextId)
    ensures var t := Register(s, fd, addr, threadOk);
            && TableInv(t.slots, t.nextId) && |t.slots| == |s.slots| && t.nextId >= s.nextId
            && s.nextId !in Table(s)
            && (Registers(s, threadOk) ==> t.nextId == s.nextId + 1)
            && Table(t) == if Registers(s, threadOk) then Table(s)[s.nextId := Conn(fd, addr)] else Table(s)
  {
    AddInserts(s.slots, s.nextId, fd, addr, threadOk);
  }

  lemma RemoveKeepsInv(s: State, id: int)
    requires Inv(s)
    ensures Inv(RemoveId(s, id))
  {
    RemoveIdTable(s, id);
  }

  lemma RegisterKeepsIds(s: State, fd: int, addr: Endpoint, threadOk: bool)
    requires Inv(s)
    ensures var t := Register(s, fd, addr, threadOk);
            && |t.slots| == MAX_CONN && TableInv(t.slots, t.nextId)
            && IdInv(Table(t), t.nextId, t.registered, t.removals)
  {
    RegisterTable(s, fd, addr, threadOk);
  }

  lemma RegisterKeepsReceivers(s: State, fd: int, addr: Endpoint, threadOk: bool)
    requires Inv(s)
    ensures var t := Register(s, fd, addr, threadOk);
            && ReceiverInv(Table(t), t.registered, t.receivers, StartingId(s.listen))
            && (Registers(s, threadOk) && !s.listen.Starting? ==>
                  ReceiverInv(Table(t), t.registered, t.receivers, s.nextId))
  {
    RegisterTable(s, fd, addr, threadOk);
    assert s.nextId !in s.registered && s.nextId !in s.receivers;
  }

  lemma DropReceiverKeepsInv(s: State, id: int)
    requires Inv(s) && id !in Table(s)
    ensures Inv(s.(receivers := s.receivers - multiset{id}))
  {
  }

  lemma ListenAddKeepsInv(s: State, threadOk: bool)
    requires Inv(s) && Enabled(s, ListenAdd(threadOk))
    ensures Inv(Step(s, ListenAdd(threadOk)))
  {
    RegisterKeepsIds(s, s.listen.fd, s.listen.addr, threadOk);
    RegisterKeepsReceivers(s, s.listen.fd, s.listen.addr, threadOk);
    assert Registers(s, threadOk) ==>
        s.nextId in Register(s, s.listen.fd, s.listen.addr, threadOk).registered;
  }

  lemma ConnectAddKeepsInv(s: State, threadOk: bool)
    requires Inv(s) && Enabled(s, ConnectAdd(threadOk))
    ensures Inv(Step(s, ConnectAdd(threadOk)))
  {
    RegisterKeepsIds(s, s.cmd.fd, s.cmd.addr, threadOk);
    RegisterKeepsReceivers(s, s.cmd.fd, s.cmd.addr, threadOk);
  }

  predicate IsRemoval(s: State, a: Action, id: int) {
    || a == ReceiverEnds(id)
    || a == Terminate(id)
    || (a == SweepOne && s.cmd == Sweeping(id))
  }

  lemma RemovalKeepsInv(s: State, a: Action, id: int)
    requires Inv(s) && Enabled(s, a) && IsRemoval(s, a, id)
    ensures Inv(Step(s, a))
  {
    RemoveKeepsInv(s, id);
    if a.ReceiverEnds? {
      RemoveIdTable(s, id);
      DropReceiverKeepsInv(RemoveId(s, id), id);
    }
  }

  lemma StepKeepsInv(s: State, a: Action)
    requires Inv(s) && Enabled(s, a)
    ensures Inv(Step(s, a))
  {
    if a.ListenAdd? {
      ListenAddKeepsInv(s, a.threadOk);
    } else if a.ConnectAdd? {
      ConnectAddKeepsInv(s, a.threadOk);
    } else if a.ReceiverEnds? || a.Terminate? {
      RemovalKeepsInv(s, a, a.id);
    } else if a.SweepOne? {
      RemovalKeepsInv(s, a, s.cmd.i);
    }
  }

  lemma InitInv()
    ensures Inv(Init())
  {
    assert UsedIds(Init().slots) == {};
  }

  lemma {:induction false} RunKeepsInv(s: State, acts: seq<Action>)
    requires Inv(s) && ValidFrom(s, acts)
    ensures Inv(Exec(s, acts))
    decreases |acts|
  {
    if acts != [] {
      StepKeepsInv(s, acts[0]);
      RunKeepsInv(Step(s, acts[0]), acts[1..]);
    }
  }

  // ----- Runs -----

  /** Some interleaving leads from `s` to `t`. */
  ghost predicate Leads(s: State, t: State) {
    exists acts :: ValidFrom(s, acts) && Exec(s, acts) == t
  }

  ghost predicate Reachable(s: State) {
    Leads(Init(), s)
  }

  lemma ReachableInv(s: State)
    requires Reachable(s)
    ensures Inv(s)
  {
    InitInv();
    var acts :| ValidFrom(Init(), acts) && Exec(Init(), acts) == s;
    RunKeepsInv(Init(), acts);
  }

  lemma {:induction false} ExecSnoc(s: State, acts: seq<Action>, a: Action)
    requires ValidFrom(s, acts) && Enabled(Exec(s, acts), a)
    ensures ValidFrom(s, acts + [a]) && Exec(s, acts + [a]) == Step(Exec(s, acts), a)
    decreases |acts|
  {
    if acts == [] {
      assert acts + [a] == [a] && [a][1..] == [];
    } else {
      ExecSnoc(Step(s, acts[0]), acts[1..], a);
      assert (acts + [a])[1..] == acts[1..] + [a];
    }
  }

  lemma Stays(s: State)
    ensures Leads(s, s)
  {
    assert ValidFrom(s, []) && Exec(s, []) == s;
  }

  lemma LeadsOn(r: State, s: State, a: Action)
    requires Leads(r, s) && Enabled(s, a)
    ensures Leads(r, Step(s, a))
  {
    var acts :| ValidFrom(r, acts) && Exec(r, acts) == s;
    ExecSnoc(r, acts, a);
  }

  /** One more step of a run from `r`. */
  lemma Go(r: State, s: State, a: Action) returns (t: State)
    requires Leads(r, s) && Reachable(s) && Enabled(s, a)
    ensures Leads(r, t) && Reachable(t) && t == Step(s, a)
  {
    LeadsOn(r, s, a);
    LeadsOn(Init(), s, a);
    t := Step(s, a);
  }

  // ----- The life of an id -----

  /** 0 for an id not yet issued, 1 for an active one, 2 for one that is gone. */
  function Age(s: State, id: int): int {
    if id >= s.nextId then 0 else if id in Table(s) then 1 else 2
  }

  /** From one table to a later one: the id grows older or stays, its entry never changes, and it
      leaves only if `removed`, in which case it is gone. */
  predicate Aged(s: State, t: State, id: int, removed: bool) {
    && Age(t, id) >= Age(s, id) && t.nextId >= s.nextId
    && (id in Table(s) ==> if removed then id !in Table(t)
                           else id in Table(t) && Table(t)[id] == Table(s)[id])
  }

  lemma AdditionAges(s: State, t: State, fd: int, addr: Endpoint, threadOk: bool, id: int)
    requires TableInv(s.slots, s.nextId)
    requires t.slots == Register(s, fd, addr, threadOk).slots
    requires t.nextId == Register(s, fd, addr, threadOk).nextId
    ensures Aged(s, t, id, false)
  {
    RegisterTable(s, fd, addr, threadOk);
  }

  lemma RemovalAges(s: State, t: State, x: int, id: int)
    requires TableInv(s.slots, s.nextId)
    requires t.slots == RemoveId(s, x).slots && t.nextId == s.nextId
    ensures Aged(s, t, id, id == x) && x !in Table(t)
  {
    RemoveIdTable(s, x);
    LookupAgrees(s.slots, s.nextId, id);
  }

  lemma SameAges(s: State, t: State, id: int)
    requires t.slots == s.slots && t.nextId == s.nextId
    ensures Aged(s, t, id, false)
  {
  }

  /** One step: an id grows older or stays, and an entry leaves the table only by a removal of
      that very id; every other entry keeps its socket and endpoint. */
  lemma StepAges(s: State, a: Action, t: State, id: int)
    requires Inv(s) && Enabled(s, a) && t == Step(s, a)
    ensures Aged(s, t, id, IsRemoval(s, a, id))
    ensures IsRemoval(s, a, id) ==> id !in Table(t)
  {
    var removed := IsRemoval(s, a, id);
    if a.ListenAdd? {
      AdditionAges(s, t, s.listen.fd, s.listen.addr, a.threadOk, id);
    } else if a.ConnectAdd? {
      AdditionAges(s, t, s.cmd.fd, s.cmd.addr, a.threadOk, id);
    } else if a.ReceiverEnds? || a.Terminate? {
      assert removed <==> id == a.id;
      RemovalAges(s, t, a.id, id);
    } else if a.SweepOne? {
      assert removed <==> id == s.cmd.i;
      RemovalAges(s, t, s.cmd.i, id);
    } else {
      SameAges(s, t, id);
    }
  }

  /** In every run each id goes from unissued over active to gone and never back; while it stays
      active it stands for the same connection. */
  lemma {:induction false} LifeCycle(s: State, acts: seq<Action>, id: int)
    requires Inv(s) && ValidFrom(s, acts)
    ensures var t := Exec(s, acts);
            && Age(t, id) >= Age(s, id) && t.nextId >= s.nextId
            && (id in Table(s) && id in Table(t) ==> Table(t)[id] == Table(s)[id])
    decreases |acts|
  {
    if acts != [] {
      StepAges(s, acts[0], Step(s, acts[0]), id);
      StepKeepsInv(s, acts[0]);
      LifeCycle(Step(s, acts[0]), acts[1..], id);
    }
  }

  /** Of all the calls that remove an id, by however many racing threads, exactly one succeeds if
      the connection was registered and is gone, and none otherwise. */
  lemma OneRemoverWins(s: State, id: int)
    requires Reachable(s)
    ensures s.removals[id] == if id in s.registered && id !in Table(s) then 1 else 0
    ensures id in Table(s) ==> id in s.registered && 1 <= id < s.nextId
  {
    ReachableInv(s);
  }

  /** An active connection always has a live handler, and an id never has more than two. */
  lemma HandlersPerId(s: State, id: int)
    requires Reachable(s)
    ensures s.receivers[id] <= 2
    ensures id in Table(s) ==> s.receivers[id] >= 1
  {
    ReachableInv(s);
  }

  /** The table refines a map of capacity 100. */
  lemma RefinesMap(s: State)
    requires Reachable(s)
    ensures TableInv(s.slots, s.nextId) && |Table(s)| <= MAX_CONN
    ensures FirstFree(s.slots) == |s.slots| <==> |Table(s)| == MAX_CONN
  {
    ReachableInv(s);
    FullExactlyAtCapacity(s.slots, s.nextId);
  }

  // ----- The exit sweep -----

  /** How far the sweep has got, counted in ids: none before it, all it visits after it. */
  function SweepMark(pc: CommandPc): int {
    match pc case Sweeping(i) => i case Swept => SWEEP_LIMIT case Gone => SWEEP_LIMIT case _ => 0
  }

  predicate InSweep(pc: CommandPc) {
    pc.Sweeping? || pc == Swept
  }

  /** Ids issued before `n0` and already passed by the sweep are gone. */
  ghost predicate SweepInv(s: State, n0: int) {
    && n0 <= s.nextId && (s.cmd.Sweeping? ==> 0 <= s.cmd.i <= SWEEP_LIMIT)
    && forall id :: id in Table(s) && id < n0 ==> id >= SweepMark(s.cmd)
  }

  /** An entry of an id issued earlier was there before and is not the one being removed. */
  lemma StayedEntry(s: State, a: Action, t: State, id: int)
    requires Inv(s) && Enabled(s, a) && t == Step(s, a) && id < s.nextId && id in Table(t)
    ensures id in Table(s) && !IsRemoval(s, a, id)
  {
    StepAges(s, a, t, id);
  }

  lemma SweepPasses(s: State, a: Action, n0: int, t: State, id: int)
    requires Enabled(s, a) && t == Step(s, a) && (InSweep(s.cmd) || s.cmd == Gone)
    requires SweepInv(s, n0) && id < n0 && id in Table(s) && !IsRemoval(s, a, id)
    ensures id >= SweepMark(t.cmd)
  {
    assert id >= SweepMark(s.cmd);
    MarkAdvances(s, a, t);
  }

  /** A step moves the mark past at most the one id that it removes. */
  lemma MarkAdvances(s: State, a: Action, t: State)
    requires Enabled(s, a) && t == Step(s, a) && (InSweep(s.cmd) || s.cmd == Gone)
    requires s.cmd.Sweeping? ==> 0 <= s.cmd.i <= SWEEP_LIMIT
    ensures InSweep(t.cmd) || t.cmd == Gone
    ensures t.cmd.Sweeping? ==> 0 <= t.cmd.i <= SWEEP_LIMIT
    ensures SweepMark(t.cmd) == SweepMark(s.cmd)
            || (SweepMark(t.cmd) == SweepMark(s.cmd) + 1 && IsRemoval(s, a, SweepMark(s.cmd)))
  {
  }

  lemma SweepStep(s: State, a: Action, n0: int, t: State)
    requires Inv(s) && Enabled(s, a) && t == Step(s, a)
    requires (InSweep(s.cmd) || s.cmd == Gone) && SweepInv(s, n0)
    ensures (InSweep(t.cmd) || t.cmd == Gone) && SweepInv(t, n0)
  {
    StepAges(s, a, t, 0);
    MarkAdvances(s, a, t);
    forall id | id in Table(t) && id < n0 ensures id >= SweepMark(t.cmd) {
      StayedEntry(s, a, t, id);
      SweepPasses(s, a, n0, t, id);
    }
  }

  lemma {:induction false} SweepKeeps(s: State, acts: seq<Action>, n0: int)
    requires Inv(s) && ValidFrom(s, acts) && (InSweep(s.cmd) || s.cmd == Gone) && SweepInv(s, n0)
    ensures var t := Exec(s, acts); (InSweep(t.cmd) || t.cmd == Gone) && SweepInv(t, n0)
    decreases |acts|
  {
    if acts != [] {
      SweepStep(s, acts[0], n0, Step(s, acts[0]));
      StepKeepsInv(s, acts[0]);
      SweepKeeps(Step(s, acts[0]), acts[1..], n0);
    }
  }

  /** However accepts and handlers interleave with the loop over 0..999, when it has ended every
      connection whose id was issued before it began and is below 1000 is inactive, and stays so.
      If nothing was registered meanwhile and at most 999 ids were issued, the table is empty. */
  lemma SweepRemoves(s: State, acts: seq<Action>)
    requires Inv(s) && s.cmd == Sweeping(0) && ValidFrom(s, acts)
    requires Exec(s, acts).cmd == Swept || Exec(s, acts).cmd == Gone
    ensures var t := Exec(s, acts);
            && (forall id :: id < s.nextId && id < SWEEP_LIMIT ==> id !in Table(t))
            && (t.nextId == s.nextId <= SWEEP_LIMIT ==> Table(t) == map[])
  {
    assert SweepInv(s, s.nextId) by {
      IssuedIds(s);
    }
    SweepKeeps(s, acts, s.nextId);
    RunKeepsInv(s, acts);
    IssuedIds(Exec(s, acts));
  }

  lemma IssuedIds(s: State)
    requires Inv(s)
    ensures forall id :: id in Table(s) ==> 1 <= id < s.nextId
  {
    assert forall id :: id in Table(s) ==> id in s.registered;
  }

  // ----- Exactly what the sweep misses -----

  /** The listener ends only after `stop_listen`. */
  ghost predicate ListenInv(s: State) {
    && (s.listen == Closed ==> !s.listening)
    && (!s.listening ==> s.cmd == Swept || s.cmd == Gone)
    && (s.cmd == Swept ==> !s.listening)
  }

  lemma {:induction false} RunKeepsListen(s: State, acts: seq<Action>)
    requires ListenInv(s) && ValidFrom(s, acts)
    ensures ListenInv(Exec(s, acts))
    decreases |acts|
  {
    if acts != [] {
      RunKeepsListen(Step(s, acts[0]), acts[1..]);
    }
  }

  lemma ListenOpen(s: State)
    requires Reachable(s) && s.cmd.Sweeping?
    ensures s.listen != Closed
  {
    var acts :| ValidFrom(Init(), acts) && Exec(Init(), acts) == s;
    RunKeepsListen(Init(), acts);
  }

  lemma SweepOneKeeps(s: State, id: int)
    requires Reachable(s) && Enabled(s, SweepOne) && id in Table(s) && id != s.cmd.i
    ensures id in Table(Step(s, SweepOne))
  {
    ReachableInv(s);
    StepAges(s, SweepOne, Step(s, SweepOne), id);
  }

  /** The rest of the loop, undisturbed, leaves the ids it has passed and those it never reaches. */
  lemma {:induction false} SweepOn(r: State, s: State) returns (t: State)
    requires Leads(r, s) && Reachable(s) && s.cmd.Sweeping? && 0 <= s.cmd.i <= SWEEP_LIMIT
    ensures Leads(r, t) && Reachable(t) && t.cmd == Sweeping(SWEEP_LIMIT)
    ensures t.listen == s.listen && t.nextId == s.nextId
    ensures forall id :: id in Table(s) && (id < s.cmd.i || id >= SWEEP_LIMIT) ==> id in Table(t)
    decreases SWEEP_LIMIT - s.cmd.i
  {
    t := s;
    if s.cmd.i < SWEEP_LIMIT {
      t := Go(r, s, SweepOne);
      forall id | id in Table(s) && (id < s.cmd.i || id >= SWEEP_LIMIT) ensures id in Table(t) {
        SweepOneKeeps(s, id);
      }
      t := SweepOn(r, t);
    }
  }

  lemma FirstConnection(s: State)
    requires Reachable(s) && FirstFree(s.slots) == |s.slots|
    ensures |s.slots| > 0 && s.slots[0].used && s.slots[0].id in s.receivers && IndexOf(s.slots, s.slots[0].id) == 0
  {
    ReachableInv(s);
    assert s.slots[0].id in UsedIds(s.slots);
  }

  /** In a full table some handler ends and frees its slot. */
  lemma MakeRoom(r: State, s: State) returns (t: State)
    requires Leads(r, s) && Reachable(s) && s.cmd != Gone
    ensures Leads(r, t) && Reachable(t) && FirstFree(t.slots) < |t.slots|
    ensures t.cmd == s.cmd && t.listen == s.listen && t.nextId == s.nextId
  {
    t := s;
    if FirstFree(s.slots) == |s.slots| {
      FirstConnection(s);
      t := Go(r, s, ReceiverEnds(s.slots[0].id));
      assert !t.slots[0].used;
    }
  }

  /** Steps until the listener holds a connection to register. */
  function ListenRank(pc: ListenPc): nat {
    match pc case Holding(_, _) => 0 case Accepting => 1 case Starting(_) => 2 case Closed => 0
  }

  lemma ListenOne(r: State, s: State) returns (t: State)
    requires Leads(r, s) && Reachable(s) && s.cmd.Sweeping? && !s.listen.Holding?
    ensures Leads(r, t) && Reachable(t) && ListenRank(t.listen) < ListenRank(s.listen)
    ensures t.slots == s.slots && t.cmd == s.cmd && t.nextId == s.nextId
  {
    ListenOpen(s);
    if s.listen == Accepting {
      t := Go(r, s, Accept(0, Endpoint("10.0.0.1", 1)));
    } else {
      t := Go(r, s, SecondReceiver(false));
    }
  }

  /** A registration whose thread cannot be created uses up an id and leaves the slot free. */
  lemma BurnId(r: State, s: State) returns (t: State)
    requires Leads(r, s) && Reachable(s) && s.cmd != Gone && s.listen.Holding?
    requires FirstFree(s.slots) < |s.slots|
    ensures Leads(r, t) && Reachable(t) && t.cmd == s.cmd && t.nextId == s.nextId + 1 && t.listen == Accepting
    ensures FirstFree(t.slots) < |t.slots|
  {
    t := Go(r, s, ListenAdd(false));
    assert !t.slots[FirstFree(s.slots)].used;
  }

  lemma TakeId(r: State, s: State) returns (t: State)
    requires Leads(r, s) && Reachable(s) && s.cmd != Gone && s.listen.Holding?
    requires FirstFree(s.slots) < |s.slots|
    ensures Leads(r, t) && Reachable(t) && t.cmd == s.cmd && s.nextId in Table(t)
  {
    t := Go(r, s, ListenAdd(true));
    assert TableInv(s.slots, s.nextId) by {
      ReachableInv(s);
    }
    RegisterTable(s, s.listen.fd, s.listen.addr, true);
  }

  /** The listener uses up the ids below `id` and registers a connection under that one. */
  lemma {:induction false} Issue(r: State, s: State, id: int) returns (t: State)
    requires Leads(r, s) && Reachable(s) && s.cmd.Sweeping?
    requires s.nextId <= id && FirstFree(s.slots) < |s.slots|
    ensures Leads(r, t) && Reachable(t) && t.cmd == s.cmd && id in Table(t)
    decreases id - s.nextId, ListenRank(s.listen)
  {
    if !s.listen.Holding? {
      t := ListenOne(r, s);
      t := Issue(r, t, id);
    } else if s.nextId < id {
      t := BurnId(r, s);
      t := Issue(r, t, id);
    } else {
      t := TakeId(r, s);
    }
  }

  /** A run on from `s` to the end of the loop in which `id` is registered. */
  ghost predicate Survives(s: State, t: State, id: int) {
    Leads(s, t) && t.cmd == Swept && id in Table(t)
  }

  lemma CanSurvive(s: State, id: int) returns (t: State)
    requires Reachable(s) && s.cmd == Sweeping(0)
    requires id >= s.nextId || (id >= SWEEP_LIMIT && id in Table(s))
    ensures Reachable(t) && Survives(s, t, id)
  {
    Stays(s);
    t := SweepOn(s, s);
    if id >= s.nextId {
      t := MakeRoom(s, t);
      t := Issue(s, t, id);
    }
    t := Go(s, t, StopListen);
  }

  lemma CannotSurvive(s: State, t: State, id: int)
    requires Inv(s) && s.cmd == Sweeping(0) && Survives(s, t, id)
    ensures id >= s.nextId || (id >= SWEEP_LIMIT && id in Table(s))
  {
    var acts :| ValidFrom(s, acts) && Exec(s, acts) == t;
    SweepRemoves(s, acts);
    LifeCycle(s, acts, id);
  }

  /** When the `exit` loop begins, these are exactly the ids that can be registered at its end,
      over all interleavings: those not issued yet, and those from 1000 on that are registered. */
  lemma ExitLeavesExactly(s: State, id: int)
    requires Reachable(s) && s.cmd == Sweeping(0)
    ensures (exists t :: Survives(s, t, id)) <==> id >= s.nextId || (id >= SWEEP_LIMIT && id in Table(s))
  {
    if id >= s.nextId || (id >= SWEEP_LIMIT && id in Table(s)) {
      var t := CanSurvive(s, id);
    }
    forall t | Survives(s, t, id) ensures id >= s.nextId || (id >= SWEEP_LIMIT && id in Table(s)) {
      ReachableInv(s);
      CannotSurvive(s, t, id);
    }
  }

  /** So any id can survive, if the program exits early enough: the listener goes on accepting. */
  lemma LateConnectionSurvives(id: int) returns (s: State, t: State)
    requires id >= 1
    ensures Reachable(s) && s.cmd == Sweeping(0) && id !in Table(s) && Survives(s, t, id) && Reachable(t)
  {
    Stays(Init());
    s := Go(Init(), Init(), BeginExit);
    assert UsedIds(s.slots) == {};
    t := CanSurvive(s, id);
  }

  /** And an id from 1000 on can survive although it was registered before the loop. */
  lemma HighIdSurvives(id: int) returns (s: State, t: State)
    requires id >= SWEEP_LIMIT
    ensures Reachable(s) && s.cmd == Sweeping(0) && id in Table(s) && Survives(s, t, id) && Reachable(t)
  {
    s := AnyId(id);
    s := Go(Init(), s, BeginExit);
    t := CanSurvive(s, id);
  }

  lemma {:induction false} AnyNextId(n: int) returns (s: State)
    requires n >= 1
    ensures Reachable(s) && s.nextId == n && s.cmd == Idle && s.listen == Accepting
    ensures FirstFree(s.slots) < |s.slots|
    decreases n
  {
    if n == 1 {
      s := Init();
      Stays(s);
    } else {
      s := AnyNextId(n - 1);
      s := Go(Init(), s, Accept(0, Endpoint("10.0.0.1", 1)));
      s := BurnId(Init(), s);
    }
  }

  /** Every id is registered in some run. */
  lemma AnyId(id: int) returns (s: State)
    requires id >= 1
    ensures Reachable(s) && s.cmd == Idle && id in Table(s)
  {
    s := AnyNextId(id);
    s := Go(Init(), s, Accept(0, Endpoint("10.0.0.1", 1)));
    s := TakeId(Init(), s);
  }

  // ----- Sending after the unlock -----

  /** Steps of the other threads. */
  predicate OfOthers(a: Action) {
    a.Accept? || a.AcceptError? || a.ListenAdd? || a.SecondReceiver? || a.ReceiverEnds?
  }

  /** Between unlock and send, the id is removed exactly by its handlers, and never comes back. */
  lemma {:induction false} OthersRun(s: State, acts: seq<Action>, id: int)
    requires Inv(s) && ValidFrom(s, acts) && (forall k :: 0 <= k < |acts| ==> OfOthers(acts[k]))
    requires id in Table(s)
    ensures id in Table(Exec(s, acts)) <==> ReceiverEnds(id) !in acts
    decreases |acts|
  {
    if acts != [] {
      var t := Step(s, acts[0]);
      StepKeepsInv(s, acts[0]);
      OtherStep(s, acts[0], id, t);
      assert ReceiverEnds(id) in acts <==> acts[0] == ReceiverEnds(id) || ReceiverEnds(id) in acts[1..];
      if acts[0] == ReceiverEnds(id) {
        LifeCycle(t, acts[1..], id);
      } else {
        OthersRun(t, acts[1..], id);
      }
    }
  }

  lemma OtherStep(s: State, a: Action, id: int, t: State)
    requires Inv(s) && Enabled(s, a) && OfOthers(a) && t == Step(s, a) && id in Table(s)
    ensures id in Table(t) <==> a != ReceiverEnds(id)
    ensures id !in Table(t) ==> Age(t, id) == 2
  {
    StepAges(s, a, t, id);
    assert IsRemoval(s, a, id) <==> a == ReceiverEnds(id);
  }

  lemma {:induction false} OthersKeepCommand(s: State, acts: seq<Action>)
    requires ValidFrom(s, acts) && forall k :: 0 <= k < |acts| ==> OfOthers(acts[k])
    ensures Exec(s, acts).cmd == s.cmd
    decreases |acts|
  {
    if acts != [] {
      OthersKeepCommand(Step(s, acts[0]), acts[1..]);
    }
  }

  /** `send_to_connection_id` sends on the socket it looked up, after giving up the lock. Whatever
      the other threads do in between, that socket is still the one registered for the id exactly
      if no handler of the id has ended meanwhile. */
  lemma SendsOnOwnSocketExactly(s: State, id: int, acts: seq<Action>)
    requires Reachable(s) && Enabled(s, SendLookup(id)) && id in Table(s)
    requires ValidFrom(Step(s, SendLookup(id)), acts) && forall k :: 0 <= k < |acts| ==> OfOthers(acts[k])
    ensures var t := Exec(Step(s, SendLookup(id)), acts);
            && t.cmd == Sending(id, Table(s)[id].sockfd)
            && (id in Table(t) && Table(t)[id].sockfd == t.cmd.fd <==> ReceiverEnds(id) !in acts)
  {
    ReachableInv(s);
    LookupAgrees(s.slots, s.nextId, id);
    var u, k := Step(s, SendLookup(id)), IndexOf(s.slots, id);
    assert s.slots[k].sockfd == Table(s)[id].sockfd && u.cmd == Sending(id, s.slots[k].sockfd);
    StepKeepsInv(s, SendLookup(id));
    OthersRun(u, acts, id);
    OthersKeepCommand(u, acts);
    LifeCycle(u, acts, id);
  }

  /** And that can always happen: an active id has a handler, and the handler can end. */
  lemma StaleSendPossible(s: State, id: int)
    requires Reachable(s) && s.cmd.Sending? && s.cmd.id == id && id in Table(s)
    ensures exists t :: Leads(s, t) && t.cmd == s.cmd && id !in Table(t)
  {
    ReachableInv(s);
    Stays(s);
    StepAges(s, ReceiverEnds(id), Step(s, ReceiverEnds(id)), id);
    var t := Go(s, s, ReceiverEnds(id));
  }
}
