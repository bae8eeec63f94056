/**
 The one-place producer/consumer `bai3` of baitap4/main.c, for any number `n` of rounds.

 Every statement of the two thread bodies that touches shared state is one step, so the steps of
 the two threads interleave freely: lock, write `data`, raise `data_ready`, signal, unlock and
 sleep for the producer; lock, test, wait, wake, take, clear and unlock for the consumer.
 `pthread_cond_wait` releases the mutex and falls asleep in one step, and may also return without
 a signal (a spurious wakeup).
 */
module ProducerConsumer {

  datatype Holder = Nobody | ByProducer | ByConsumer

  datatype ProducerPc = PLock | PWrite | PRaise | PSignal | PUnlock | PSleep | PDone

  datatype ConsumerPc = CLock | CTest | CAsleep | CWoken | CTake | CClear | CUnlock | CDone

  /** The shared variables, both program counters and loop counters, and the history of the run:
      `taken[k]` is the position in `produced` of the k-th consumed item. */
  datatype State = State(
    data: int, ready: bool, holder: Holder,
    ppc: ProducerPc, i: nat,
    cpc: ConsumerPc, j: nat,
    produced: seq<int>, consumed: seq<int>, taken: seq<nat>, overwritten: nat)

  /** One step of a thread, or a spurious wakeup. `value` is what `rand() % 100` yields. */
  datatype Action = Producer(value: int) | Consumer | SpuriousWakeup

  function ProducerTop(n: nat, i: nat): ProducerPc {
    if i < n then PLock else PDone
  }

  function ConsumerTop(n: nat, j: nat): ConsumerPc {
    if j < n then CLock else CDone
  }

  function Init(n: nat): State {
    State(0, false, Nobody, ProducerTop(n, 0), 0, ConsumerTop(n, 0), 0, [], [], [], 0)
  }

  predicate Enabled(s: State, a: Action) {
    match a
    case Producer(v) => 0 <= v < 100 && s.ppc != PDone && (s.ppc == PLock ==> s.holder == Nobody)
    case Consumer =>
      && s.cpc != CDone && s.cpc != CAsleep
      && (s.cpc == CLock || s.cpc == CWoken ==> s.holder == Nobody)
    case SpuriousWakeup => s.cpc == CAsleep
  }

  function ProducerStep(n: nat, s: State, v: int): State {
    match s.ppc
    case PLock => s.(holder := ByProducer, ppc := PWrite)
    case PWrite =>
      s.(data := v, produced := s.produced + [v], ppc := PRaise,
         overwritten := if s.ready then s.overwritten + 1 else s.overwritten)
    case PRaise => s.(ready := true, ppc := PSignal)
    case PSignal => s.(cpc := if s.cpc == CAsleep then CWoken else s.cpc, ppc := PUnlock)
    case PUnlock => s.(holder := Nobody, ppc := PSleep)
    case PSleep => s.(i := s.i + 1, ppc := ProducerTop(n, s.i + 1))
    case PDone => s
  }

  function ConsumerStep(n: nat, s: State): State {
    match s.cpc
    case CLock => s.(holder := ByConsumer, cpc := CTest)
    case CTest => if s.ready then s.(cpc := CTake) else s.(holder := Nobody, cpc := CAsleep)
    case CAsleep => s
    case CWoken => s.(holder := ByConsumer, cpc := CTest)
    case CTake =>
      s.(consumed := s.consumed + [s.data], cpc := CClear,
         taken := s.taken + [if |s.produced| == 0 then 0 else |s.produced| - 1])
    case CClear => s.(ready := false, cpc := CUnlock)
    case CUnlock => s.(holder := Nobody, j := s.j + 1, cpc := ConsumerTop(n, s.j + 1))
    case CDone => s
  }

  function Step(n: nat, s: State, a: Action): State {
    match a
    case Producer(v) => ProducerStep(n, s, v)
    case Consumer => ConsumerStep(n, s)
    case SpuriousWakeup => s.(cpc := CWoken)
  }

  /** `acts` is a schedule whose every action is enabled when its turn comes. */
  predicate ValidFrom(n: nat, s: State, acts: seq<Action>)
    decreases |acts|
  {
    acts == [] || (Enabled(s, acts[0]) && ValidFrom(n, Step(n, s, acts[0]), acts[1..]))
  }

  function Exec(n: nat, s: State, acts: seq<Action>): State
    decreases |acts|
  {
    if acts == [] then s else Exec(n, Step(n, s, acts[0]), acts[1..])
  }

  /** No thread can move; only a spurious wakeup may still be possible. */
  ghost predicate Quiescent(s: State) {
    forall a: Action :: Enabled(s, a) ==> a == SpuriousWakeup
  }

  // ----- The invariant -----

  predicate ProducerHolds(s: State) {
    s.ppc == PWrite || s.ppc == PRaise || s.ppc == PSignal || s.ppc == PUnlock
  }

  predicate ConsumerHolds(s: State) {
    s.cpc == CTest || s.cpc == CTake || s.cpc == CClear || s.cpc == CUnlock
  }

  /** An item is in the slot that the consumer has not read yet. */
  predicate SlotFull(s: State) {
    (s.ready || s.ppc == PRaise) && s.cpc != CClear
  }

  ghost predicate LockInv(s: State) {
    && (s.holder == ByProducer <==> ProducerHolds(s))
    && (s.holder == ByConsumer <==> ConsumerHolds(s))
    && (s.cpc == CTake || s.cpc == CClear ==> s.ready)
    && (s.ppc == PSignal ==> s.ready)
    && (s.cpc == CAsleep && s.ready ==> s.ppc == PSignal)
  }

  ghost predicate CountInv(n: nat, s: State) {
    && s.i <= n && (s.ppc == PDone <==> s.i == n)
    && s.j <= n && (s.cpc == CDone <==> s.j == n)
    && |s.produced| == s.i + (if s.ppc == PLock || s.ppc == PWrite || s.ppc == PDone then 0 else 1)
    && |s.consumed| == s.j + (if s.cpc == CClear || s.cpc == CUnlock then 1 else 0)
    && |s.produced| == |s.consumed| + s.overwritten + (if SlotFull(s) then 1 else 0)
    && (|s.produced| > 0 ==> |s.consumed| > 0 || SlotFull(s))
  }

  predicate StrictlyIncreasing(idx: seq<nat>) {
    forall a, b :: 0 <= a < b < |idx| ==> idx[a] < idx[b]
  }

  ghost predicate HistoryInv(s: State) {
    && (|s.produced| > 0 ==> s.data == s.produced[|s.produced| - 1])
    && (s.ready || s.ppc == PRaise ==> |s.produced| > 0)
    && |s.taken| == |s.consumed|
    && StrictlyIncreasing(s.taken)
    && (forall k :: 0 <= k < |s.taken| ==>
          s.taken[k] < |s.produced| && s.consumed[k] == s.produced[s.taken[k]])
    && (SlotFull(s) ==> forall k :: 0 <= k < |s.taken| ==> s.taken[k] < |s.produced| - 1)
  }

  ghost predicate Inv(n: nat, s: State) {
    LockInv(s) && CountInv(n, s) && HistoryInv(s)
  }

  lemma ProducerKeepsLock(n: nat, s: State, v: int)
    requires LockInv(s) && Enabled(s, Producer(v))
    ensures LockInv(ProducerStep(n, s, v))
  {
  }

  lemma ProducerKeepsCount(n: nat, s: State, v: int)
    requires LockInv(s) && CountInv(n, s) && Enabled(s, Producer(v))
    ensures CountInv(n, ProducerStep(n, s, v))
  {
  }

  lemma ProducerKeepsHistory(n: nat, s: State, v: int)
    requires LockInv(s) && HistoryInv(s) && Enabled(s, Producer(v))
    ensures HistoryInv(ProducerStep(n, s, v))
  {
    var t := ProducerStep(n, s, v);
    assert forall k :: 0 <= k < |s.produced| ==> t.produced[k] == s.produced[k];
  }

  lemma ConsumerKeepsLock(n: nat, s: State)
    requires LockInv(s) && Enabled(s, Consumer)
    ensures LockInv(ConsumerStep(n, s))
  {
  }

  lemma ConsumerKeepsCount(n: nat, s: State)
    requires LockInv(s) && CountInv(n, s) && Enabled(s, Consumer)
    ensures CountInv(n, ConsumerStep(n, s))
  {
  }

  lemma TakeKeepsHistory(n: nat, s: State, t: State)
    requires LockInv(s) && HistoryInv(s) && s.cpc == CTake && t == ConsumerStep(n, s)
    ensures HistoryInv(t)
  {
    var last := |s.produced| - 1;
    assert SlotFull(s) && s.data == s.produced[last];
    assert t.taken == s.taken + [last] && t.consumed == s.consumed + [s.data];
    assert forall k :: 0 <= k < |s.taken| ==> t.taken[k] == s.taken[k] && t.consumed[k] == s.consumed[k];
  }

  lemma ConsumerKeepsHistory(n: nat, s: State)
    requires LockInv(s) && HistoryInv(s) && Enabled(s, Consumer)
    ensures HistoryInv(ConsumerStep(n, s))
  {
    if s.cpc == CTake {
      TakeKeepsHistory(n, s, ConsumerStep(n, s));
    }
  }

  lemma StepKeepsInv(n: nat, s: State, a: Action)
    requires Inv(n, s) && Enabled(s, a)
    ensures Inv(n, Step(n, s, a))
  {
    match a
    case Producer(v) =>
      ProducerKeepsLock(n, s, v);
      ProducerKeepsCount(n, s, v);
      ProducerKeepsHistory(n, s, v);
    case Consumer =>
      ConsumerKeepsLock(n, s);
      ConsumerKeepsCount(n, s);
      ConsumerKeepsHistory(n, s);
    case SpuriousWakeup =>
  }

  lemma {:induction false} RunKeepsInv(n: nat, s: State, acts: seq<Action>)
    requires Inv(n, s) && ValidFrom(n, s, acts)
    ensures Inv(n, Exec(n, s, acts))
    decreases |acts|
  {
    if acts != [] {
      StepKeepsInv(n, s, acts[0]);
      RunKeepsInv(n, Step(n, s, acts[0]), acts[1..]);
    }
  }

  // ----- What the schedule generates -----

  /** The values drawn at the producer's steps, in order. */
  function Values(acts: seq<Action>): seq<int> {
    if acts == [] then []
    else (if acts[0].Producer? then [acts[0].value] else []) + Values(acts[1..])
  }

  /** The producer takes six steps per round and uses the value drawn at the second of them. */
  function Generated(vs: seq<int>): seq<int> {
    seq((|vs| + 4) / 6, k requires 0 <= k < (|vs| + 4) / 6 => vs[6 * k + 1])
  }

  /** Steps the producer has taken in its current round. */
  function ProducerPhase(s: State): nat {
    match s.ppc
    case PLock => 0 case PWrite => 1 case PRaise => 2 case PSignal => 3
    case PUnlock => 4 case PSleep => 5 case PDone => 0
  }

  /** After the producer drew the values `vs`, it is where they have taken it. */
  ghost predicate DrawInv(n: nat, s: State, vs: seq<int>) {
    && s.i <= n && (s.ppc == PDone <==> s.i == n)
    && |vs| == 6 * s.i + ProducerPhase(s)
    && s.produced == Generated(vs)
    && forall k :: 0 <= k < |vs| ==> 0 <= vs[k] < 100
  }

  lemma GeneratedNext(vs: seq<int>, v: int)
    ensures Generated(vs + [v]) == if |vs| % 6 == 1 then Generated(vs) + [v] else Generated(vs)
  {
    var m := |vs|;
    assert m == 6 * (m / 6) + m % 6;
    assert forall k :: 0 <= k < (m + 4) / 6 ==> (vs + [v])[6 * k + 1] == vs[6 * k + 1];
    if m % 6 == 1 {
      assert (m + 4) / 6 == m / 6 && (m + 5) / 6 == m / 6 + 1;
    } else {
      assert (m + 5) / 6 == (m + 4) / 6;
    }
  }

  lemma ProducerDraws(n: nat, s: State, v: int, vs: seq<int>, t: State)
    requires DrawInv(n, s, vs) && Enabled(s, Producer(v)) && t == ProducerStep(n, s, v)
    ensures DrawInv(n, t, vs + [v])
  {
    GeneratedNext(vs, v);
    assert |vs| % 6 == ProducerPhase(s);
  }

  lemma OthersDraw(n: nat, s: State, a: Action, vs: seq<int>, t: State)
    requires DrawInv(n, s, vs) && !a.Producer? && t == Step(n, s, a)
    ensures DrawInv(n, t, vs)
  {
  }

  lemma ValuesNext(vs: seq<int>, acts: seq<Action>)
    requires acts != []
    ensures vs + Values(acts)
         == (if acts[0].Producer? then vs + [acts[0].value] else vs) + Values(acts[1..])
  {
  }

  lemma StepDraws(n: nat, s: State, a: Action, vs: seq<int>, t: State)
    requires DrawInv(n, s, vs) && Enabled(s, a) && t == Step(n, s, a)
    ensures DrawInv(n, t, if a.Producer? then vs + [a.value] else vs)
  {
    if a.Producer? {
      ProducerDraws(n, s, a.value, vs, t);
    } else {
      OthersDraw(n, s, a, vs, t);
    }
  }

  lemma {:induction false} RunDraws(n: nat, s: State, acts: seq<Action>, vs: seq<int>)
    requires DrawInv(n, s, vs) && ValidFrom(n, s, acts)
    ensures DrawInv(n, Exec(n, s, acts), vs + Values(acts))
    decreases |acts|
  {
    if acts == [] {
      assert vs + Values(acts) == vs;
    } else {
      ValuesNext(vs, acts);
      StepDraws(n, s, acts[0], vs, Step(n, s, acts[0]));
      RunDraws(n, Step(n, s, acts[0]), acts[1..], if acts[0].Producer? then vs + [acts[0].value] else vs);
    }
  }

  /** What has been produced is exactly what the schedule drew: item k is the value drawn at the
      second step of the producer's round k, and it is in 0..99. */
  lemma ProducedIsDrawn(n: nat, acts: seq<Action>)
    requires ValidFrom(n, Init(n), acts)
    ensures var s, vs := Exec(n, Init(n), acts), Values(acts);
            && |s.produced| == (|vs| + 4) / 6
            && (forall k :: 0 <= k < |s.produced| ==> s.produced[k] == vs[6 * k + 1])
            && (forall k :: 0 <= k < |s.produced| ==> 0 <= s.produced[k] < 100)
            && s.produced == Generated(vs)
  {
    RunDraws(n, Init(n), acts, []);
    assert [] + Values(acts) == Values(acts);
    GeneratedInRange(Values(acts));
  }

  lemma GeneratedInRange(vs: seq<int>)
    requires forall k :: 0 <= k < |vs| ==> 0 <= vs[k] < 100
    ensures |Generated(vs)| == (|vs| + 4) / 6
    ensures forall k :: 0 <= k < |Generated(vs)| ==>
              6 * k + 1 < |vs| && Generated(vs)[k] == vs[6 * k + 1] && 0 <= Generated(vs)[k] < 100
  {
    var n := (|vs| + 4) / 6;
    forall k | 0 <= k < n ensures 6 * k + 1 < |vs| && 0 <= vs[6 * k + 1] < 100 {
    }
  }

  // ----- Safety in every reachable state -----

  /** The two threads never hold the mutex together, and an unsignalled sleeper finds the flag
      down unless the producer, holding the mutex, is about to signal it. */
  lemma NoLostWakeup(n: nat, acts: seq<Action>)
    requires ValidFrom(n, Init(n), acts)
    ensures var s := Exec(n, Init(n), acts);
            && !(ProducerHolds(s) && ConsumerHolds(s))
            && (s.cpc == CAsleep && s.ready ==> s.holder == ByProducer && s.ppc == PSignal)
  {
    RunKeepsInv(n, Init(n), acts);
  }

  /** Every item is consumed, overwritten or still in the slot whenever the mutex is free. */
  lemma Conservation(n: nat, acts: seq<Action>)
    requires ValidFrom(n, Init(n), acts)
    ensures var s := Exec(n, Init(n), acts);
            s.holder == Nobody ==>
              |s.produced| == |s.consumed| + s.overwritten + (if s.ready then 1 else 0)
  {
    RunKeepsInv(n, Init(n), acts);
  }

  /** `idx` picks `xs` out of `ys`, in order and without repetition. */
  predicate Selects(idx: seq<nat>, xs: seq<int>, ys: seq<int>) {
    && StrictlyIncreasing(idx) && |idx| == |xs|
    && forall k :: 0 <= k < |idx| ==> idx[k] < |ys| && xs[k] == ys[idx[k]]
  }

  ghost predicate IsSubsequence(xs: seq<int>, ys: seq<int>) {
    exists idx: seq<nat> :: Selects(idx, xs, ys)
  }

  lemma ConsumedInOrder(n: nat, acts: seq<Action>)
    requires ValidFrom(n, Init(n), acts)
    ensures var s := Exec(n, Init(n), acts);
            IsSubsequence(s.consumed, s.produced) && IsSubsequence(s.consumed, Generated(Values(acts)))
  {
    RunKeepsInv(n, Init(n), acts);
    ProducedIsDrawn(n, acts);
    var s := Exec(n, Init(n), acts);
    assert Selects(s.taken, s.consumed, s.produced);
  }

  // ----- The exact outcome -----

  lemma {:induction false} IncreasingGrows(idx: seq<nat>, k: nat)
    requires StrictlyIncreasing(idx) && k < |idx|
    ensures idx[k] >= k
    ensures idx[|idx| - 1] - idx[k] >= |idx| - 1 - k
    decreases k
  {
    if k > 0 {
      IncreasingGrows(idx, k - 1);
      assert idx[k - 1] < idx[k];
    }
    IncreasingSpread(idx, k);
  }

  lemma {:induction false} IncreasingSpread(idx: seq<nat>, k: nat)
    requires StrictlyIncreasing(idx) && k < |idx|
    ensures idx[|idx| - 1] - idx[k] >= |idx| - 1 - k
    decreases |idx| - k
  {
    if k < |idx| - 1 {
      IncreasingSpread(idx, k + 1);
      assert idx[k] < idx[k + 1];
    }
  }

  lemma SelectsAll(idx: seq<nat>, xs: seq<int>, ys: seq<int>)
    requires Selects(idx, xs, ys) && |xs| == |ys|
    ensures xs == ys
  {
    forall k | 0 <= k < |xs| ensures xs[k] == ys[k] {
      IncreasingGrows(idx, k);
    }
  }

  /** Every run that can take no further step except a spurious wakeup ends in one of two ways:
      nothing was overwritten and both threads finished with consumed == produced, or something
      was, and the consumer sleeps for ever on an empty slot. */
  lemma ExactOutcome(n: nat, acts: seq<Action>)
    requires ValidFrom(n, Init(n), acts)
    requires Quiescent(Exec(n, Init(n), acts))
    ensures var s := Exec(n, Init(n), acts);
            && |s.produced| == n && s.ppc == PDone
            && |s.consumed| == n - s.overwritten
            && (s.overwritten == 0 <==> s.cpc == CDone)
            && (s.overwritten == 0 ==> s.consumed == s.produced == Generated(Values(acts)))
            && (s.overwritten != 0 ==> s.cpc == CAsleep && !s.ready && s.holder == Nobody)
  {
    RunKeepsInv(n, Init(n), acts);
    ProducedIsDrawn(n, acts);
    QuiescentState(n, Exec(n, Init(n), acts));
  }

  lemma QuiescentState(n: nat, s: State)
    requires Inv(n, s) && Quiescent(s)
    ensures |s.produced| == n && s.ppc == PDone && |s.consumed| == n - s.overwritten
    ensures s.overwritten == 0 <==> s.cpc == CDone
    ensures s.overwritten == 0 ==> s.consumed == s.produced
    ensures s.overwritten != 0 ==> s.cpc == CAsleep && !s.ready && s.holder == Nobody
  {
    assert !Enabled(s, Producer(0));
    assert !Enabled(s, Consumer);
    if s.overwritten == 0 {
      SelectsAll(s.taken, s.consumed, s.produced);
    }
  }

  /** In every reachable state but the two final ones of `ExactOutcome` a thread can move. */
  lemma Progress(n: nat, acts: seq<Action>)
    requires ValidFrom(n, Init(n), acts)
    ensures var s := Exec(n, Init(n), acts);
            Enabled(s, Producer(0)) || Enabled(s, Consumer)
            || (s.ppc == PDone && (s.cpc == CDone || (s.cpc == CAsleep && !s.ready)))
  {
    RunKeepsInv(n, Init(n), acts);
  }

  /** `rand() % 100` may yield any of its values at any time, and a sleeper may always wake up. */
  lemma EnvironmentIsFree(s: State, v: int)
    ensures 0 <= v <= 99 ==> (Enabled(s, Producer(v)) <==> Enabled(s, Producer(0)))
    ensures Enabled(s, SpuriousWakeup) <==> s.cpc == CAsleep
  {
  }

  // ----- Termination -----

  /** How far the consumer is in its current round; falling asleep is as far as it can get. */
  function ConsumerPhase(s: State): nat {
    match s.cpc
    case CLock => 0 case CWoken => 0 case CTest => 1 case CTake => 2
    case CClear => 3 case CUnlock => 4 case CAsleep => 4 case CDone => 0
  }

  /** Producer steps left, weighted by 5 so that the signal pays for the wakeup it causes, plus
      consumer steps left. */
  function Measure(n: nat, s: State): int {
    5 * (6 * (n - s.i) - ProducerPhase(s)) + 5 * (n - s.j) - ConsumerPhase(s)
  }

  lemma MeasureBound(n: nat, s: State)
    requires CountInv(n, s)
    ensures Measure(n, s) >= 0
  {
    assert s.i < n ==> 6 * (n - s.i) >= 6;
    assert s.j < n ==> 5 * (n - s.j) >= 5;
  }

  lemma InitMeasure(n: nat)
    ensures Measure(n, Init(n)) == 35 * n
  {
    assert ProducerPhase(Init(n)) == 0 && ConsumerPhase(Init(n)) == 0;
  }

  lemma MeasureDecreases(n: nat, s: State, a: Action)
    requires Inv(n, s) && Enabled(s, a)
    ensures a != SpuriousWakeup ==> Measure(n, Step(n, s, a)) < Measure(n, s)
    ensures a == SpuriousWakeup ==> Measure(n, Step(n, s, a)) == Measure(n, s) + 4
  {
  }

  function SpuriousCount(acts: seq<Action>): nat {
    if acts == [] then 0
    else (if acts[0] == SpuriousWakeup then 1 else 0) + SpuriousCount(acts[1..])
  }

  lemma {:induction false} StepsPaidFor(n: nat, s: State, acts: seq<Action>)
    requires Inv(n, s) && ValidFrom(n, s, acts)
    ensures |acts| + Measure(n, Exec(n, s, acts)) <= Measure(n, s) + 5 * SpuriousCount(acts)
    decreases |acts|
  {
    if acts != [] {
      StepKeepsInv(n, s, acts[0]);
      MeasureDecreases(n, s, acts[0]);
      StepsPaidFor(n, Step(n, s, acts[0]), acts[1..]);
    }
  }

  /** No run is longer than 35 steps per round plus 5 per spurious wakeup. */
  lemma RunsAreBounded(n: nat, acts: seq<Action>)
    requires ValidFrom(n, Init(n), acts)
    ensures |acts| <= 35 * n + 5 * SpuriousCount(acts)
  {
    StepsPaidFor(n, Init(n), acts);
    RunKeepsInv(n, Init(n), acts);
    MeasureBound(n, Exec(n, Init(n), acts));
    InitMeasure(n);
  }

  // ----- Which outcomes occur -----

  ghost predicate Reachable(n: nat, s: State) {
    exists acts: seq<Action> :: ValidFrom(n, Init(n), acts) && Exec(n, Init(n), acts) == s
  }

  lemma {:induction false} ExecSnoc(n: nat, s: State, acts: seq<Action>, a: Action)
    requires ValidFrom(n, s, acts) && Enabled(Exec(n, s, acts), a)
    ensures ValidFrom(n, s, acts + [a])
    ensures Exec(n, s, acts + [a]) == Step(n, Exec(n, s, acts), a)
    decreases |acts|
  {
    if acts == [] {
      assert [a][1..] == [];
      assert acts + [a] == [a];
    } else {
      ExecSnoc(n, Step(n, s, acts[0]), acts[1..], a);
      assert (acts + [a])[1..] == acts[1..] + [a];
    }
  }

  lemma Then(n: nat, s: State, a: Action) returns (t: State)
    requires Reachable(n, s) && Enabled(s, a)
    ensures Reachable(n, t) && t == Step(n, s, a)
  {
    var acts: seq<Action> :| ValidFrom(n, Init(n), acts) && Exec(n, Init(n), acts) == s;
    ExecSnoc(n, Init(n), acts, a);
    t := Step(n, s, a);
  }

  /** The producer runs a whole round while the consumer stays where it is. */
  lemma ProducerRound(n: nat, s: State) returns (t: State)
    requires Reachable(n, s) && s.ppc == PLock && s.holder == Nobody && s.cpc != CAsleep
    ensures Reachable(n, t) && t.holder == Nobody && t.ready
    ensures t.i == s.i + 1 && t.ppc == ProducerTop(n, t.i) && t.j == s.j && t.cpc == s.cpc
    ensures t.overwritten == s.overwritten + (if s.ready then 1 else 0)
  {
    t := Then(n, s, Producer(0));
    t := Then(n, t, Producer(0));
    t := Then(n, t, Producer(0));
    t := Then(n, t, Producer(0));
    t := Then(n, t, Producer(0));
    t := Then(n, t, Producer(0));
  }

  lemma ConsumerRound(n: nat, s: State) returns (t: State)
    requires Reachable(n, s) && s.cpc == CLock && s.holder == Nobody && s.ready
    ensures Reachable(n, t) && t.holder == Nobody && !t.ready
    ensures t.j == s.j + 1 && t.cpc == ConsumerTop(n, t.j) && t.i == s.i && t.ppc == s.ppc
    ensures t.overwritten == s.overwritten
  {
    t := Then(n, s, Consumer);
    t := Then(n, t, Consumer);
    t := Then(n, t, Consumer);
    t := Then(n, t, Consumer);
    t := Then(n, t, Consumer);
  }

  /** `m` producer rounds on a full slot overwrite `m` items. */
  lemma {:induction false} OverwriteRounds(n: nat, s: State, m: nat) returns (t: State)
    requires Reachable(n, s) && s.holder == Nobody && s.ready && s.cpc == CLock
    requires s.ppc == ProducerTop(n, s.i) && s.i + m <= n
    ensures Reachable(n, t) && t.holder == Nobody && t.ready && t.cpc == CLock && t.j == s.j
    ensures t.i == s.i + m && t.ppc == ProducerTop(n, t.i) && t.overwritten == s.overwritten + m
    decreases m
  {
    t := s;
    if m > 0 {
      t := ProducerRound(n, s);
      t := OverwriteRounds(n, t, m - 1);
    }
  }

  /** The threads alternate until the producer is done. */
  lemma {:induction false} AlternateRounds(n: nat, s: State) returns (t: State)
    requires Reachable(n, s) && s.holder == Nobody && !s.ready
    requires s.i <= n && s.ppc == ProducerTop(n, s.i) && s.j <= s.i && s.cpc == ConsumerTop(n, s.j)
    ensures Reachable(n, t) && t.holder == Nobody && !t.ready && t.ppc == PDone
    ensures t.i == n && t.j == n - (s.i - s.j) && t.cpc == ConsumerTop(n, t.j)
    ensures t.overwritten == s.overwritten
    decreases n - s.i
  {
    t := s;
    if s.i < n {
      t := ProducerRound(n, s);
      t := ConsumerRound(n, t);
      t := AlternateRounds(n, t);
    }
  }

  lemma OutcomeWith(n: nat, k: nat) returns (t: State)
    requires k < n
    ensures Reachable(n, t) && Quiescent(t) && t.overwritten == k
  {
    assert ValidFrom(n, Init(n), []) && Exec(n, Init(n), []) == Init(n);
    t := ProducerRound(n, Init(n));
    t := OverwriteRounds(n, t, k);
    t := ConsumerRound(n, t);
    t := AlternateRounds(n, t);
    if k > 0 {
      t := Then(n, t, Consumer);
      t := Then(n, t, Consumer);
    }
  }

  /** A round in which the producer draws `v`. */
  lemma RoundOf(n: nat, s: State, v: int) returns (t: State)
    requires Reachable(n, s) && s.ppc == PLock && s.holder == Nobody && !s.ready && s.cpc == CLock && 0 <= v <= 99
    ensures Reachable(n, t) && t.holder == Nobody && !t.ready
    ensures t.i == s.i + 1 && t.ppc == ProducerTop(n, t.i) && t.j == s.j + 1 && t.cpc == ConsumerTop(n, t.j)
    ensures t.consumed == s.consumed + [v]
  {
    var u := ProduceValue(n, s, v);
    t := ConsumeValue(n, u);
  }

  lemma ProduceValue(n: nat, s: State, v: int) returns (t: State)
    requires Reachable(n, s) && s.ppc == PLock && s.holder == Nobody && s.cpc == CLock && 0 <= v <= 99
    ensures Reachable(n, t) && t.holder == Nobody && t.ready && t.data == v && t.consumed == s.consumed
    ensures t.i == s.i + 1 && t.ppc == ProducerTop(n, t.i) && t.j == s.j && t.cpc == s.cpc
  {
    t := Then(n, s, Producer(v));
    t := Then(n, t, Producer(v));
    t := Then(n, t, Producer(v));
    t := Then(n, t, Producer(v));
    t := Then(n, t, Producer(v));
    t := Then(n, t, Producer(v));
  }

  lemma ConsumeValue(n: nat, s: State) returns (t: State)
    requires Reachable(n, s) && s.cpc == CLock && s.holder == Nobody && s.ready
    ensures Reachable(n, t) && t.holder == Nobody && !t.ready && t.consumed == s.consumed + [s.data]
    ensures t.j == s.j + 1 && t.cpc == ConsumerTop(n, t.j) && t.i == s.i && t.ppc == s.ppc
  {
    t := Then(n, s, Consumer);
    t := Then(n, t, Consumer);
    t := Then(n, t, Consumer);
    t := Then(n, t, Consumer);
    t := Then(n, t, Consumer);
  }

  lemma {:induction false} RoundsOf(n: nat, s: State, xs: seq<int>) returns (t: State)
    requires Reachable(n, s) && s.holder == Nobody && !s.ready && s.i == s.j && s.i + |xs| == n
    requires s.ppc == ProducerTop(n, s.i) && s.cpc == ConsumerTop(n, s.j)
    requires forall k :: 0 <= k < |xs| ==> 0 <= xs[k] <= 99
    ensures Reachable(n, t) && t.ppc == PDone && t.cpc == CDone && t.consumed == s.consumed + xs
    decreases |xs|
  {
    t := s;
    if xs != [] {
      t := RoundOf(n, s, xs[0]);
      t := RoundsOf(n, t, xs[1..]);
      assert s.consumed + [xs[0]] + xs[1..] == s.consumed + xs;
    }
  }

  /** Every list of values in 0..99, and no other, is what the consumer takes in some run in which
      both threads finish. */
  lemma PossibleOutputs(n: nat, xs: seq<int>)
    ensures (exists s :: Reachable(n, s) && s.ppc == PDone && s.cpc == CDone && s.consumed == xs)
            <==> |xs| == n && forall k :: 0 <= k < |xs| ==> 0 <= xs[k] <= 99
  {
    if |xs| == n && forall k :: 0 <= k < |xs| ==> 0 <= xs[k] <= 99 {
      assert ValidFrom(n, Init(n), []) && Exec(n, Init(n), []) == Init(n);
      var t := RoundsOf(n, Init(n), xs);
      assert [] + xs == xs;
    }
    forall s | Reachable(n, s) && s.ppc == PDone && s.cpc == CDone && s.consumed == xs
      ensures |xs| == n && forall k :: 0 <= k < |xs| ==> 0 <= xs[k] <= 99
    {
      OutputOf(n, s);
    }
  }

  lemma OutputOf(n: nat, s: State)
    requires Reachable(n, s) && s.ppc == PDone && s.cpc == CDone
    ensures |s.consumed| == n && forall k :: 0 <= k < |s.consumed| ==> 0 <= s.consumed[k] <= 99
  {
    var acts: seq<Action> :| ValidFrom(n, Init(n), acts) && Exec(n, Init(n), acts) == s;
    RunKeepsInv(n, Init(n), acts);
    ProducedIsDrawn(n, acts);
    assert forall k :: 0 <= k < |s.consumed| ==> s.consumed[k] == s.produced[s.taken[k]];
  }

  /** `k` items can be lost exactly when `k` is 0 or less than the number of rounds: from two
      rounds on, some schedule always puts the consumer to sleep for ever. */
  lemma PossibleLosses(n: nat, k: nat)
    ensures (exists s :: Reachable(n, s) && Quiescent(s) && s.overwritten == k) <==> k == 0 || k < n
  {
    if k < n {
      var t := OutcomeWith(n, k);
    } else if k == 0 {
      assert ValidFrom(n, Init(n), []) && Exec(n, Init(n), []) == Init(n);
      assert Reachable(n, Init(n)) && Quiescent(Init(n));
    }
    forall s | Reachable(n, s) && Quiescent(s) && s.overwritten == k ensures k == 0 || k < n {
      var acts: seq<Action> :| ValidFrom(n, Init(n), acts) && Exec(n, Init(n), acts) == s;
      RunKeepsInv(n, Init(n), acts);
      ExactOutcome(n, acts);
    }
  }

  // ----- The program itself -----

  /** The globals of `bai3` and the control state of its two threads, updated in place. */
  class Bai3 {
    const n: nat
    var data: int
    var dataReady: bool
    var mutex: Holder
    var ppc: ProducerPc
    var i: nat
    var cpc: ConsumerPc
    var j: nat
    ghost var produced: seq<int>
    ghost var consumed: seq<int>
    ghost var taken: seq<nat>
    ghost var overwritten: nat

    ghost function View(): State
      reads this
    {
      State(data, dataReady, mutex, ppc, i, cpc, j, produced, consumed, taken, overwritten)
    }

    constructor (n: nat)
      ensures View() == Init(n) && this.n == n
    {
      this.n := n;
      data, dataReady, mutex := 0, false, Nobody;
      ppc, i := ProducerTop(n, 0), 0;
      cpc, j := ConsumerTop(n, 0), 0;
      produced, consumed, taken, overwritten := [], [], [], 0;
    }

    /** The statement the producer has reached. */
    method RunProducer(value: int)
      requires Enabled(View(), Producer(value))
      modifies this
      ensures View() == Step(n, old(View()), Producer(value))
    {
      match ppc
      case PLock => mutex, ppc := ByProducer, PWrite;
      case PWrite =>
        if dataReady {
          overwritten := overwritten + 1;
        }
        data, ppc := value, PRaise;
        produced := produced + [value];
      case PRaise => dataReady, ppc := true, PSignal;
      case PSignal =>
        if cpc == CAsleep {
          cpc := CWoken;
        }
        ppc := PUnlock;
      case PUnlock => mutex, ppc := Nobody, PSleep;
      case PSleep =>
        i := i + 1;
        ppc := if i < n then PLock else PDone;
    }

    /** The statement the consumer has reached. */
    method RunConsumer()
      requires Enabled(View(), Consumer)
      modifies this
      ensures View() == Step(n, old(View()), Consumer)
    {
      match cpc
      case CLock => mutex, cpc := ByConsumer, CTest;
      case CTest =>
        if dataReady {
          cpc := CTake;
        } else {
          mutex, cpc := Nobody, CAsleep;
        }
      case CWoken => mutex, cpc := ByConsumer, CTest;
      case CTake =>
        cpc := CClear;
        consumed := consumed + [data];
        taken := taken + [if |produced| == 0 then 0 else |produced| - 1];
      case CClear => dataReady, cpc := false, CUnlock;
      case CUnlock =>
        mutex, j := Nobody, j + 1;
        cpc := if j < n then CLock else CDone;
    }

    /** Plays a schedule; the state always satisfies the invariant of the step system. */
    method Play(schedule: seq<Action>)
      requires View() == Init(n) && ValidFrom(n, Init(n), schedule)
      modifies this
      ensures View() == Exec(n, Init(n), schedule)
      ensures Inv(n, View())
    {
      var k := 0;
      while k < |schedule|
        invariant 0 <= k <= |schedule|
        invariant ValidFrom(n, View(), schedule[k..])
        invariant Exec(n, View(), schedule[k..]) == Exec(n, Init(n), schedule)
      {
        assert schedule[k..][1..] == schedule[k + 1..];
        match schedule[k] {
          case Producer(v) => RunProducer(v);
          case Consumer => RunConsumer();
          case SpuriousWakeup => cpc := CWoken;
        }
        k := k + 1;
      }
      RunKeepsInv(n, Init(n), schedule);
    }
  }
}
