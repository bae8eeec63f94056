/**
 The readers and writers `bai4` of baitap4/main.c, for any number of readers and of writers.
 `shared_data++` is a read step and a write step; `log` is the program's output, one event per
 line printed. Whether a free lock prefers readers or writers is left open, as POSIX leaves it.
 */
module ReadersWriters {
  import opened Sums

  datatype ReaderPc = RLock | RRead | RUnlock | RDone

  datatype WriterPc = WLock | WRead | WWrite | WPrint | WUnlock | WDone

  datatype Writer = Writer(pc: WriterPc, reg: int)

  datatype Owner = NoWriter | HeldBy(writer: nat)

  datatype Event = Saw(reader: nat, value: int) | Wrote(writer: nat, value: int)

  datatype State = State(
    shared: int, readers: set<nat>, owner: Owner,
    rs: seq<ReaderPc>, ws: seq<Writer>, log: seq<Event>)

  datatype Action = Reader(r: nat) | Write(w: nat)

  function Init(nr: nat, nw: nat): State {
    State(0, {}, NoWriter, seq(nr, _ => RLock), seq(nw, _ => Writer(WLock, 0)), [])
  }

  predicate Enabled(s: State, a: Action) {
    match a
    case Reader(r) => r < |s.rs| && s.rs[r] != RDone && (s.rs[r] == RLock ==> s.owner == NoWriter)
    case Write(w) =>
      && w < |s.ws| && s.ws[w].pc != WDone
      && (s.ws[w].pc == WLock ==> s.owner == NoWriter && s.readers == {})
  }

  function ReaderStep(s: State, r: nat): State
    requires r < |s.rs|
  {
    match s.rs[r]
    case RLock => s.(readers := s.readers + {r}, rs := s.rs[r := RRead])
    case RRead => s.(log := s.log + [Saw(r, s.shared)], rs := s.rs[r := RUnlock])
    case RUnlock => s.(readers := s.readers - {r}, rs := s.rs[r := RDone])
    case RDone => s
  }

  function WriterStep(s: State, w: nat): State
    requires w < |s.ws|
  {
    var th := s.ws[w];
    match th.pc
    case WLock => s.(owner := HeldBy(w), ws := s.ws[w := th.(pc := WRead)])
    case WRead => s.(ws := s.ws[w := Writer(WWrite, s.shared)])
    case WWrite => s.(shared := th.reg + 1, ws := s.ws[w := th.(pc := WPrint)])
    case WPrint => s.(log := s.log + [Wrote(w, s.shared)], ws := s.ws[w := th.(pc := WUnlock)])
    case WUnlock => s.(owner := NoWriter, ws := s.ws[w := th.(pc := WDone)])
    case WDone => s
  }

  function Step(s: State, a: Action): State
    requires Enabled(s, a)
  {
    match a
    case Reader(r) => ReaderStep(s, r)
    case Write(w) => WriterStep(s, w)
  }

  predicate ValidFrom(s: State, acts: seq<Action>)
    decreases |acts|
  {
    acts == [] || (Enabled(s, acts[0]) && ValidFrom(Step(s, acts[0]), acts[1..]))
  }

  function Exec(s: State, acts: seq<Action>): State
    requires ValidFrom(s, acts)
    decreases |acts|
  {
    if acts == [] then s else Exec(Step(s, acts[0]), acts[1..])
  }

  predicate Finished(s: State) {
    && (forall r :: 0 <= r < |s.rs| ==> s.rs[r] == RDone)
    && (forall w :: 0 <= w < |s.ws| ==> s.ws[w].pc == WDone)
  }

  predicate Reading(pc: ReaderPc) {
    pc == RRead || pc == RUnlock
  }

  predicate Writing(th: Writer) {
    th.pc != WLock && th.pc != WDone
  }

  // ----- What the output must look like -----

  /** Number of writer lines. */
  function Writes(log: seq<Event>): nat {
    if log == [] then 0
    else Writes(log[..|log| - 1]) + (if log[|log| - 1].Wrote? then 1 else 0)
  }

  predicate NumberedAt(log: seq<Event>, k: nat)
    requires k < |log|
  {
    log[k].value == Writes(log[..k]) + (if log[k].Wrote? then 1 else 0)
  }

  /** The k-th writer line carries k, and a reader line carries the number of writer lines
      before it. */
  predicate WellNumbered(log: seq<Event>) {
    forall k :: 0 <= k < |log| ==> NumberedAt(log, k)
  }

  predicate SameThread(a: Event, b: Event) {
    (a.Saw? && b.Saw? && a.reader == b.reader) || (a.Wrote? && b.Wrote? && a.writer == b.writer)
  }

  predicate NoRepeats(log: seq<Event>) {
    forall a, b :: 0 <= a < b < |log| ==> !SameThread(log[a], log[b])
  }

  predicate ReaderLogged(log: seq<Event>, r: nat) {
    exists k :: 0 <= k < |log| && log[k].Saw? && log[k].reader == r
  }

  predicate WriterLogged(log: seq<Event>, w: nat) {
    exists k :: 0 <= k < |log| && log[k].Wrote? && log[k].writer == w
  }

  // ----- The invariant -----

  function Over(th: Writer): nat {
    if th.pc == WDone then 1 else 0
  }

  function Printed(th: Writer): nat {
    if th.pc == WUnlock || th.pc == WDone then 1 else 0
  }

  ghost predicate LockInv(s: State) {
    && (forall r {:trigger s.rs[r]} :: 0 <= r < |s.rs| ==> (Reading(s.rs[r]) <==> r in s.readers))
    && (forall r :: r in s.readers ==> r < |s.rs|)
    && (forall w {:trigger s.ws[w]} :: 0 <= w < |s.ws| ==> (Writing(s.ws[w]) <==> s.owner == HeldBy(w)))
    && (s.owner.HeldBy? ==> s.owner.writer < |s.ws| && s.readers == {})
  }

  ghost predicate DataInv(s: State) {
    && WellNumbered(s.log)
    && Writes(s.log) == Total(Printed, s.ws)
    && s.shared == Writes(s.log)
         + (if s.owner.HeldBy? && s.owner.writer < |s.ws| && s.ws[s.owner.writer].pc == WPrint then 1 else 0)
    && (forall w {:trigger s.ws[w]} :: 0 <= w < |s.ws| && s.ws[w].pc == WWrite ==> s.ws[w].reg == s.shared)
  }

  ghost predicate LogInv(s: State) {
    && NoRepeats(s.log)
    && (forall r {:trigger s.rs[r]} :: 0 <= r < |s.rs| ==>
          (s.rs[r] == RUnlock || s.rs[r] == RDone <==> ReaderLogged(s.log, r)))
    && (forall w {:trigger s.ws[w]} :: 0 <= w < |s.ws| ==>
          (s.ws[w].pc == WUnlock || s.ws[w].pc == WDone <==> WriterLogged(s.log, w)))
    && (forall k {:trigger s.log[k]} :: 0 <= k < |s.log| ==>
          if s.log[k].Saw? then s.log[k].reader < |s.rs| else s.log[k].writer < |s.ws|)
  }

  ghost predicate Inv(s: State) {
    LockInv(s) && DataInv(s) && LogInv(s)
  }

  lemma LogGrows(log: seq<Event>, e: Event)
    requires WellNumbered(log)
    requires e.value == Writes(log) + (if e.Wrote? then 1 else 0)
    ensures WellNumbered(log + [e]) && Writes(log + [e]) == Writes(log) + (if e.Wrote? then 1 else 0)
  {
    var log' := log + [e];
    assert log'[..|log|] == log;
    forall k | 0 <= k < |log'| ensures NumberedAt(log', k) {
      if k < |log| {
        assert NumberedAt(log, k);
        assert log'[..k] == log[..k] && log'[k] == log[k];
      }
    }
  }

  lemma LoggedGrows(log: seq<Event>, e: Event)
    ensures forall r: nat :: ReaderLogged(log + [e], r) <==> ReaderLogged(log, r) || (e.Saw? && e.reader == r)
    ensures forall w: nat :: WriterLogged(log + [e], w) <==> WriterLogged(log, w) || (e.Wrote? && e.writer == w)
  {
    var log' := log + [e];
    assert log'[|log|] == e;
    assert forall k :: 0 <= k < |log| ==> log'[k] == log[k];
  }

  lemma ReaderKeepsLock(s: State, r: nat)
    requires LockInv(s) && Enabled(s, Reader(r))
    ensures LockInv(ReaderStep(s, r))
  {
  }

  lemma ReaderKeepsData(s: State, r: nat)
    requires LockInv(s) && DataInv(s) && Enabled(s, Reader(r))
    ensures DataInv(ReaderStep(s, r))
  {
    if s.rs[r] == RRead {
      assert r in s.readers;
      LogGrows(s.log, Saw(r, s.shared));
    }
  }

  lemma ReaderKeepsLog(s: State, r: nat)
    requires LogInv(s) && Enabled(s, Reader(r))
    ensures LogInv(ReaderStep(s, r))
  {
    if s.rs[r] == RRead {
      LoggedGrows(s.log, Saw(r, s.shared));
      assert !ReaderLogged(s.log, r);
    }
  }

  lemma WriterKeepsLock(s: State, w: nat)
    requires LockInv(s) && Enabled(s, Write(w))
    ensures LockInv(WriterStep(s, w))
  {
  }

  /** The line a writer prints continues the numbering. */
  lemma PrintKeepsNumbering(s: State, w: nat)
    requires LockInv(s) && DataInv(s) && w < |s.ws| && s.ws[w].pc == WPrint
    ensures WellNumbered(s.log + [Wrote(w, s.shared)])
    ensures Writes(s.log + [Wrote(w, s.shared)]) == Writes(s.log) + 1 == s.shared
  {
    assert Writing(s.ws[w]);
    assert s.owner == HeldBy(w);
    LogGrows(s.log, Wrote(w, s.shared));
  }

  lemma PrintCounts(s: State, w: nat, ws: seq<Writer>)
    requires w < |s.ws| && s.ws[w].pc == WPrint && ws == s.ws[w := s.ws[w].(pc := WUnlock)]
    ensures Total(Printed, ws) == Total(Printed, s.ws) + 1
  {
    TotalUpdate(Printed, s.ws, w, s.ws[w].(pc := WUnlock));
  }

  lemma RegsKept(s: State, w: nat, t: State)
    requires DataInv(s) && w < |s.ws| && t.shared == s.shared && t.ws == s.ws[w := s.ws[w].(pc := WUnlock)]
    ensures forall v :: 0 <= v < |t.ws| && t.ws[v].pc == WWrite ==> t.ws[v].reg == t.shared
  {
    assert forall v :: 0 <= v < |t.ws| && t.ws[v].pc == WWrite ==> t.ws[v] == s.ws[v];
  }

  lemma DataFrom(t: State, k: nat)
    requires WellNumbered(t.log) && Writes(t.log) == k && Total(Printed, t.ws) == k && t.shared == k
    requires t.owner.HeldBy? && t.owner.writer < |t.ws| && t.ws[t.owner.writer].pc == WUnlock
    requires forall v :: 0 <= v < |t.ws| && t.ws[v].pc == WWrite ==> t.ws[v].reg == t.shared
    ensures DataInv(t)
  {
  }

  lemma WriterPrintKeepsData(s: State, w: nat, t: State)
    requires LockInv(s) && DataInv(s) && w < |s.ws| && s.ws[w].pc == WPrint && t == WriterStep(s, w)
    ensures DataInv(t)
  {
    PrintKeepsNumbering(s, w);
    PrintCounts(s, w, t.ws);
    RegsKept(s, w, t);
    assert Writing(s.ws[w]);
    assert s.owner == HeldBy(w);
    DataFrom(t, s.shared);
  }

  lemma WriterKeepsData(s: State, w: nat)
    requires LockInv(s) && DataInv(s) && Enabled(s, Write(w))
    ensures DataInv(WriterStep(s, w))
  {
    if s.ws[w].pc == WPrint {
      WriterPrintKeepsData(s, w, WriterStep(s, w));
    } else {
      TotalUpdate(Printed, s.ws, w, WriterStep(s, w).ws[w]);
    }
  }

  lemma WriterKeepsLog(s: State, w: nat)
    requires LogInv(s) && Enabled(s, Write(w))
    ensures LogInv(WriterStep(s, w))
  {
    if s.ws[w].pc == WPrint {
      LoggedGrows(s.log, Wrote(w, s.shared));
      assert !WriterLogged(s.log, w);
    }
  }

  /** Steps a thread has taken out of its 3, respectively 5. */
  function ReaderSteps(pc: ReaderPc): nat {
    match pc case RLock => 0 case RRead => 1 case RUnlock => 2 case RDone => 3
  }

  function WriterSteps(th: Writer): nat {
    match th.pc
    case WLock => 0 case WRead => 1 case WWrite => 2 case WPrint => 3 case WUnlock => 4 case WDone => 5
  }

  function StepsTaken(s: State): nat {
    Total(ReaderSteps, s.rs) + Total(WriterSteps, s.ws)
  }

  lemma ReaderKeepsInv(s: State, r: nat, t: State)
    requires Inv(s) && Enabled(s, Reader(r)) && t == ReaderStep(s, r)
    ensures Inv(t)
  {
    ReaderKeepsLock(s, r);
    ReaderKeepsData(s, r);
    ReaderKeepsLog(s, r);
  }

  lemma WriterKeepsInv(s: State, w: nat, t: State)
    requires Inv(s) && Enabled(s, Write(w)) && t == WriterStep(s, w)
    ensures Inv(t)
  {
    WriterKeepsLock(s, w);
    WriterKeepsData(s, w);
    WriterKeepsLog(s, w);
  }

  lemma StepCounts(s: State, a: Action, t: State)
    requires Enabled(s, a) && t == Step(s, a)
    ensures StepsTaken(t) == StepsTaken(s) + 1
    ensures |t.rs| == |s.rs| && |t.ws| == |s.ws|
  {
    match a
    case Reader(r) => TotalUpdate(ReaderSteps, s.rs, r, t.rs[r]);
    case Write(w) => TotalUpdate(WriterSteps, s.ws, w, t.ws[w]);
  }

  lemma StepKeepsInv(s: State, a: Action, t: State)
    requires Inv(s) && Enabled(s, a) && t == Step(s, a)
    ensures Inv(t)
  {
    match a
    case Reader(r) => ReaderKeepsInv(s, r, t);
    case Write(w) => WriterKeepsInv(s, w, t);
  }

  lemma {:induction false} RunKeepsInv(s: State, acts: seq<Action>)
    requires Inv(s) && ValidFrom(s, acts)
    ensures Inv(Exec(s, acts)) && StepsTaken(Exec(s, acts)) == StepsTaken(s) + |acts|
    ensures |Exec(s, acts).rs| == |s.rs| && |Exec(s, acts).ws| == |s.ws|
    decreases |acts|
  {
    if acts != [] {
      StepKeepsInv(s, acts[0], Step(s, acts[0]));
      StepCounts(s, acts[0], Step(s, acts[0]));
      RunKeepsInv(Step(s, acts[0]), acts[1..]);
    }
  }

  lemma InitInv(nr: nat, nw: nat)
    ensures Inv(Init(nr, nw)) && StepsTaken(Init(nr, nw)) == 0
  {
    TotalBound(ReaderSteps, Init(nr, nw).rs, 0);
    TotalBound(WriterSteps, Init(nr, nw).ws, 0);
    TotalBound(Printed, Init(nr, nw).ws, 0);
  }

  // ----- The theorems -----

  /** A writer in its section shares it with nobody. */
  lemma WritersExclude(nr: nat, nw: nat, acts: seq<Action>, w: nat)
    requires ValidFrom(Init(nr, nw), acts)
    requires w < nw && |Exec(Init(nr, nw), acts).ws| == nw
    requires Writing(Exec(Init(nr, nw), acts).ws[w])
    ensures var s := Exec(Init(nr, nw), acts);
            && (forall v :: 0 <= v < nw && Writing(s.ws[v]) ==> v == w)
            && (forall r :: 0 <= r < |s.rs| ==> !Reading(s.rs[r]))
  {
    InitInv(nr, nw);
    RunKeepsInv(Init(nr, nw), acts);
  }

  /** In every run the writers print 1, 2, 3, ... in the order they print, and every reader
      prints the number of writer lines above its own. */
  lemma OutputNumbering(nr: nat, nw: nat, acts: seq<Action>)
    requires ValidFrom(Init(nr, nw), acts)
    ensures WellNumbered(Exec(Init(nr, nw), acts).log) && NoRepeats(Exec(Init(nr, nw), acts).log)
  {
    InitInv(nr, nw);
    RunKeepsInv(Init(nr, nw), acts);
  }

  lemma {:induction false} SameTotal(ws: seq<Writer>)
    requires forall w :: 0 <= w < |ws| ==> !Writing(ws[w])
    ensures Total(Printed, ws) == Total(Over, ws)
  {
    if ws != [] {
      assert !Writing(ws[0]);
      SameTotal(ws[1..]);
    }
  }

  /** A reader about to read sees exactly the number of writers whose section is over, and no
      writer is inside its section at that moment. */
  lemma ReadersSeeCompletedWrites(nr: nat, nw: nat, acts: seq<Action>, r: nat)
    requires ValidFrom(Init(nr, nw), acts)
    requires r < |Exec(Init(nr, nw), acts).rs| && Exec(Init(nr, nw), acts).rs[r] == RRead
    ensures var s := Exec(Init(nr, nw), acts);
            && s.shared == Total(Over, s.ws)
            && forall w :: 0 <= w < |s.ws| ==> !Writing(s.ws[w])
  {
    InitInv(nr, nw);
    RunKeepsInv(Init(nr, nw), acts);
    var s := Exec(Init(nr, nw), acts);
    assert r in s.readers;
    SameTotal(s.ws);
  }

  /** Whoever holds the lock can always step; and when nobody holds it every thread that is not
      done can take it. So no choice between waiting readers and writers can stick. */
  lemma NeverStuck(nr: nat, nw: nat, acts: seq<Action>)
    requires ValidFrom(Init(nr, nw), acts)
    ensures var s := Exec(Init(nr, nw), acts);
            && (s.owner.HeldBy? ==> Enabled(s, Write(s.owner.writer)))
            && (forall r :: r in s.readers ==> Enabled(s, Reader(r)))
            && (s.owner == NoWriter && s.readers == {} ==>
                  && (forall r: nat :: r < |s.rs| && s.rs[r] != RDone ==> Enabled(s, Reader(r)))
                  && (forall w: nat :: w < |s.ws| && s.ws[w].pc != WDone ==> Enabled(s, Write(w))))
  {
    InitInv(nr, nw);
    RunKeepsInv(Init(nr, nw), acts);
  }

  /** The lock is exactly a readers-writer lock: a waiting reader can enter iff no writer is
      inside, however many readers are, and a waiting writer iff nobody is. */
  lemma LockAdmits(nr: nat, nw: nat, acts: seq<Action>)
    requires ValidFrom(Init(nr, nw), acts)
    ensures var s := Exec(Init(nr, nw), acts);
            && (forall r: nat :: r < |s.rs| && s.rs[r] == RLock ==>
                  (Enabled(s, Reader(r)) <==> forall w :: 0 <= w < |s.ws| ==> !Writing(s.ws[w])))
            && (forall w: nat :: w < |s.ws| && s.ws[w].pc == WLock ==>
                  (Enabled(s, Write(w)) <==>
                     (forall v :: 0 <= v < |s.ws| ==> !Writing(s.ws[v]))
                     && (forall r :: 0 <= r < |s.rs| ==> !Reading(s.rs[r]))))
  {
    InitInv(nr, nw);
    RunKeepsInv(Init(nr, nw), acts);
    NobodyInside(Exec(Init(nr, nw), acts));
  }

  lemma NobodyInside(s: State)
    requires LockInv(s)
    ensures s.owner == NoWriter <==> forall w :: 0 <= w < |s.ws| ==> !Writing(s.ws[w])
    ensures s.readers == {} <==> forall r :: 0 <= r < |s.rs| ==> !Reading(s.rs[r])
  {
    if s.owner.HeldBy? {
      assert Writing(s.ws[s.owner.writer]);
    }
    if r :| r in s.readers {
      assert Reading(s.rs[r]);
    }
  }

  /** Readers 0 up to `k` take the lock one after the other. */
  function Entering(k: nat): seq<Action> {
    seq(k, r requires 0 <= r < k => Reader(r))
  }

  lemma {:induction false} ExecSnoc(s: State, acts: seq<Action>, a: Action)
    requires ValidFrom(s, acts) && Enabled(Exec(s, acts), a)
    ensures ValidFrom(s, acts + [a]) && Exec(s, acts + [a]) == Step(Exec(s, acts), a)
    decreases |acts|
  {
    if acts == [] {
      assert acts + [a] == [a] && [a][1..] == [];
    } else {
      ExecSnoc(Step(s, acts[0]), acts[1..], a);
      assert (acts + [a])[1..] == acts[1..] + [a];
    }
  }

  lemma {:induction false} ReadersEnter(nr: nat, nw: nat, k: nat)
    requires k <= nr
    ensures ValidFrom(Init(nr, nw), Entering(k))
    ensures var s := Exec(Init(nr, nw), Entering(k));
            && s.owner == NoWriter && |s.rs| == nr
            && (forall r :: 0 <= r < k ==> s.rs[r] == RRead) && (forall r :: k <= r < nr ==> s.rs[r] == RLock)
  {
    if k == 0 {
      assert Entering(0) == [];
    } else {
      ReadersEnter(nr, nw, k - 1);
      assert Entering(k) == Entering(k - 1) + [Reader(k - 1)];
      ExecSnoc(Init(nr, nw), Entering(k - 1), Reader(k - 1));
    }
  }

  /** All readers can be inside at once. */
  lemma AllReadersInside(nr: nat, nw: nat)
    ensures exists acts :: ValidFrom(Init(nr, nw), acts) && |Exec(Init(nr, nw), acts).rs| == nr
                           && forall r :: 0 <= r < nr ==> Reading(Exec(Init(nr, nw), acts).rs[r])
  {
    ReadersEnter(nr, nw, nr);
  }

  lemma FinishedBySteps(s: State)
    ensures StepsTaken(s) <= 3 * |s.rs| + 5 * |s.ws|
    ensures Finished(s) <==> StepsTaken(s) == 3 * |s.rs| + 5 * |s.ws|
  {
    assert forall pc: ReaderPc :: pc == RDone <==> ReaderSteps(pc) == 3;
    assert forall th: Writer :: th.pc == WDone <==> WriterSteps(th) == 5;
    TotalBound(ReaderSteps, s.rs, 3);
    TotalBound(WriterSteps, s.ws, 5);
  }

  lemma FinishedState(s: State)
    requires Inv(s) && Finished(s)
    ensures s.shared == |s.ws|
    ensures forall r: nat :: r < |s.rs| <==> ReaderLogged(s.log, r)
    ensures forall w: nat :: w < |s.ws| <==> WriterLogged(s.log, w)
  {
    TotalBound(Printed, s.ws, 1);
    assert forall w :: 0 <= w < |s.ws| ==> !Writing(s.ws[w]);
    assert s.owner == NoWriter;
    forall r: nat ensures r < |s.rs| <==> ReaderLogged(s.log, r) {
      assert r < |s.rs| ==> s.rs[r] == RDone;
    }
    forall w: nat ensures w < |s.ws| <==> WriterLogged(s.log, w) {
      assert w < |s.ws| ==> s.ws[w].pc == WDone;
    }
  }

  /** A run is complete exactly when it has 3 steps per reader and 5 per writer; then
      `shared_data` is the number of writers and exactly the program's threads have printed. */
  lemma FinalState(nr: nat, nw: nat, acts: seq<Action>)
    requires ValidFrom(Init(nr, nw), acts)
    ensures |acts| <= 3 * nr + 5 * nw
    ensures var s := Exec(Init(nr, nw), acts);
            && (Finished(s) <==> |acts| == 3 * nr + 5 * nw)
            && (Finished(s) ==>
                  && s.shared == nw
                  && (forall r: nat :: r < nr <==> ReaderLogged(s.log, r))
                  && (forall w: nat :: w < nw <==> WriterLogged(s.log, w)))
  {
    InitInv(nr, nw);
    RunKeepsInv(Init(nr, nw), acts);
    FinishedBySteps(Exec(Init(nr, nw), acts));
    if Finished(Exec(Init(nr, nw), acts)) {
      FinishedState(Exec(Init(nr, nw), acts));
    }
  }

  /** `shared_data`, the lock and the threads of `bai4`, updated in place. */
  class Bai4 {
    const rs: array<ReaderPc>
    const ws: array<Writer>
    var shared: int
    var readers: set<nat>
    var owner: Owner
    ghost var log: seq<Event>

    ghost function View(): State
      reads this, rs, ws
    {
      State(shared, readers, owner, rs[..], ws[..], log)
    }

    constructor (nr: nat, nw: nat)
      ensures View() == Init(nr, nw) && fresh(rs) && fresh(ws)
    {
      rs := new ReaderPc[nr](_ => RLock);
      ws := new Writer[nw](_ => Writer(WLock, 0));
      shared, readers, owner, log := 0, {}, NoWriter, [];
    }

    /** The statement reader `r` has reached; a read returns what it prints. */
    method RunReader(r: nat)
      requires Enabled(View(), Reader(r))
      modifies this, rs
      ensures View() == Step(old(View()), Reader(r))
    {
      match rs[r] {
        case RLock =>
          readers := readers + {r};
          rs[r] := RRead;
        case RRead =>
          log := log + [Saw(r, shared)];
          rs[r] := RUnlock;
        case RUnlock =>
          readers := readers - {r};
          rs[r] := RDone;
      }
    }

    /** The statement writer `w` has reached. */
    method RunWriter(w: nat)
      requires Enabled(View(), Write(w))
      modifies this, ws
      ensures View() == Step(old(View()), Write(w))
    {
      var th := ws[w];
      match th.pc {
        case WLock =>
          owner := HeldBy(w);
          ws[w] := th.(pc := WRead);
        case WRead => ws[w] := Writer(WWrite, shared);
        case WWrite =>
          shared := th.reg + 1;
          ws[w] := th.(pc := WPrint);
        case WPrint =>
          log := log + [Wrote(w, shared)];
          ws[w] := th.(pc := WUnlock);
        case WUnlock =>
          owner := NoWriter;
          ws[w] := th.(pc := WDone);
      }
    }

    /** Plays a schedule; a complete one leaves the number of writers in `shared_data`. */
    method Play(acts: seq<Action>)
      requires View() == Init(rs.Length, ws.Length) && ValidFrom(View(), acts)
      modifies this, rs, ws
      ensures View() == Exec(Init(rs.Length, ws.Length), acts)
      ensures WellNumbered(log) && (|acts| == 3 * rs.Length + 5 * ws.Length ==> shared == ws.Length)
    {
      var k := 0;
      while k < |acts|
        invariant 0 <= k <= |acts|
        invariant ValidFrom(View(), acts[k..])
        invariant Exec(View(), acts[k..]) == Exec(old(View()), acts)
      {
        assert acts[k..][1..] == acts[k + 1..];
        match acts[k] {
          case Reader(r) => RunReader(r);
          case Write(w) => RunWriter(w);
        }
        k := k + 1;
      }
      OutputNumbering(rs.Length, ws.Length, acts);
      FinalState(rs.Length, ws.Length, acts);
    }
  }
}
