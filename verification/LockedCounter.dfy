/**
 The shared counter `bai2` of baitap4/main.c, for any number of threads and any number `m` of
 increments per thread. `counter++` is a read step and a write step, so that without the mutex
 increments could be lost.
 */
module LockedCounter {
  import opened Sums

  datatype Holder = Free | Held(thread: nat)

  datatype Pc = Lock | Read | Write | Unlock | Done

  /** `i` counts finished loop rounds; `reg` is the value last read from the counter. */
  datatype Thread = Thread(pc: Pc, i: nat, reg: int)

  datatype State = State(counter: int, holder: Holder, threads: seq<Thread>)

  function Top(m: nat, i: nat): Pc {
    if i < m then Lock else Done
  }

  function Init(n: nat, m: nat): State {
    State(0, Free, seq(n, _ => Thread(Top(m, 0), 0, 0)))
  }

  predicate Enabled(s: State, t: nat) {
    && t < |s.threads| && s.threads[t].pc != Done
    && (s.threads[t].pc == Lock ==> s.holder == Free)
  }

  function Step(m: nat, s: State, t: nat): State
    requires t < |s.threads|
  {
    var th := s.threads[t];
    match th.pc
    case Lock => s.(holder := Held(t), threads := s.threads[t := th.(pc := Read)])
    case Read => s.(threads := s.threads[t := th.(pc := Write, reg := s.counter)])
    case Write => s.(counter := th.reg + 1, threads := s.threads[t := th.(pc := Unlock)])
    case Unlock =>
      s.(holder := Free, threads := s.threads[t := th.(pc := Top(m, th.i + 1), i := th.i + 1)])
    case Done => s
  }

  /** `sched[k]` is the thread that takes the k-th step. */
  predicate ValidFrom(m: nat, s: State, sched: seq<nat>)
    decreases |sched|
  {
    sched == [] || (Enabled(s, sched[0]) && ValidFrom(m, Step(m, s, sched[0]), sched[1..]))
  }

  function Exec(m: nat, s: State, sched: seq<nat>): State
    requires ValidFrom(m, s, sched)
    decreases |sched|
  {
    if sched == [] then s else Exec(m, Step(m, s, sched[0]), sched[1..])
  }

  predicate Finished(s: State) {
    forall t :: 0 <= t < |s.threads| ==> s.threads[t].pc == Done
  }

  predicate InSection(th: Thread) {
    th.pc == Read || th.pc == Write || th.pc == Unlock
  }

  /** Increments a thread has completed, and the steps it has taken. */
  function Increments(th: Thread): nat {
    th.i + (if th.pc == Unlock then 1 else 0)
  }

  function StepsTaken(th: Thread): nat {
    4 * th.i + match th.pc case Lock => 0 case Read => 1 case Write => 2 case Unlock => 3 case Done => 0
  }

  ghost predicate Inv(m: nat, s: State) {
    && (forall t {:trigger s.threads[t]} :: 0 <= t < |s.threads| ==>
          && (InSection(s.threads[t]) <==> s.holder == Held(t))
          && s.threads[t].i <= m && (s.threads[t].pc == Done <==> s.threads[t].i == m)
          && (s.threads[t].pc == Write ==> s.threads[t].reg == s.counter))
    && (s.holder.Held? ==> s.holder.thread < |s.threads|)
    && s.counter == Total(Increments, s.threads)
  }

  lemma InitInv(n: nat, m: nat)
    ensures Inv(m, Init(n, m)) && Total(StepsTaken, Init(n, m).threads) == 0
  {
    TotalBound(Increments, Init(n, m).threads, 0);
    TotalBound(StepsTaken, Init(n, m).threads, 0);
  }

  lemma StepKeepsInv(m: nat, s: State, t: nat)
    requires Inv(m, s) && Enabled(s, t)
    ensures Inv(m, Step(m, s, t))
    ensures Total(StepsTaken, Step(m, s, t).threads) == Total(StepsTaken, s.threads) + 1
  {
    var th := Step(m, s, t).threads[t];
    assert Step(m, s, t).threads == s.threads[t := th];
    TotalUpdate(Increments, s.threads, t, th);
    TotalUpdate(StepsTaken, s.threads, t, th);
  }

  lemma {:induction false} RunKeepsInv(m: nat, s: State, sched: seq<nat>)
    requires Inv(m, s) && ValidFrom(m, s, sched)
    ensures Inv(m, Exec(m, s, sched)) && |Exec(m, s, sched).threads| == |s.threads|
    ensures Total(StepsTaken, Exec(m, s, sched).threads) == Total(StepsTaken, s.threads) + |sched|
    decreases |sched|
  {
    if sched != [] {
      StepKeepsInv(m, s, sched[0]);
      RunKeepsInv(m, Step(m, s, sched[0]), sched[1..]);
    }
  }

  /** At most one thread is between lock and unlock, and no completed increment is ever lost. */
  lemma NoLostIncrement(n: nat, m: nat, sched: seq<nat>)
    requires ValidFrom(m, Init(n, m), sched)
    ensures var s := Exec(m, Init(n, m), sched);
            && s.counter == Total(Increments, s.threads)
            && forall a, b :: 0 <= a < b < |s.threads| ==>
                 !(InSection(s.threads[a]) && InSection(s.threads[b]))
  {
    InitInv(n, m);
    RunKeepsInv(m, Init(n, m), sched);
  }

  /** A state in which no thread can step is one in which all have finished. */
  lemma NeverStuck(n: nat, m: nat, sched: seq<nat>)
    requires ValidFrom(m, Init(n, m), sched)
    requires forall t: nat :: !Enabled(Exec(m, Init(n, m), sched), t)
    ensures Finished(Exec(m, Init(n, m), sched))
  {
    InitInv(n, m);
    RunKeepsInv(m, Init(n, m), sched);
    var s := Exec(m, Init(n, m), sched);
    if s.holder.Held? {
      assert InSection(s.threads[s.holder.thread]);
      assert Enabled(s, s.holder.thread);
    }
    forall t: nat | t < |s.threads| ensures s.threads[t].pc == Done {
      assert !Enabled(s, t);
    }
  }

  lemma FinishedBySteps(m: nat, s: State)
    requires Inv(m, s)
    ensures Total(StepsTaken, s.threads) <= |s.threads| * (4 * m)
    ensures Finished(s) <==> Total(StepsTaken, s.threads) == |s.threads| * (4 * m)
  {
    forall t | 0 <= t < |s.threads|
      ensures StepsTaken(s.threads[t]) <= 4 * m
      ensures s.threads[t].pc == Done <==> StepsTaken(s.threads[t]) == 4 * m
    {
    }
    TotalBound(StepsTaken, s.threads, 4 * m);
  }

  lemma FinishedCounter(m: nat, s: State)
    requires Inv(m, s) && Finished(s)
    ensures s.counter == |s.threads| * m
  {
    forall t | 0 <= t < |s.threads| ensures Increments(s.threads[t]) == m {
      assert s.threads[t].pc == Done;
    }
    TotalBound(Increments, s.threads, m);
  }

  /** A run is complete exactly when it has 4 steps per increment, and then the program prints
      the number of threads times the number of increments. */
  lemma FinalCounter(n: nat, m: nat, sched: seq<nat>)
    requires ValidFrom(m, Init(n, m), sched)
    ensures |sched| <= n * (4 * m)
    ensures var s := Exec(m, Init(n, m), sched);
            && (Finished(s) <==> |sched| == n * (4 * m))
            && (Finished(s) ==> s.counter == n * m)
  {
    InitInv(n, m);
    RunKeepsInv(m, Init(n, m), sched);
    var s := Exec(m, Init(n, m), sched);
    FinishedBySteps(m, s);
    if Finished(s) {
      FinishedCounter(m, s);
    }
  }

  /** The counter, its mutex and the threads of `bai2`, updated in place. */
  class Bai2 {
    const m: nat
    const threads: array<Thread>
    var counter: int
    var mutex: Holder

    ghost function View(): State
      reads this, threads
    {
      State(counter, mutex, threads[..])
    }

    constructor (n: nat, m: nat)
      ensures View() == Init(n, m) && this.m == m && fresh(threads)
    {
      this.m := m;
      threads := new Thread[n](_ => Thread(Top(m, 0), 0, 0));
      counter, mutex := 0, Free;
    }

    /** The statement thread `t` has reached. */
    method RunThread(t: nat)
      requires Enabled(View(), t)
      modifies this, threads
      ensures View() == Step(m, old(View()), t)
    {
      var th := threads[t];
      match th.pc {
        case Lock =>
          mutex := Held(t);
          threads[t] := th.(pc := Read);
        case Read => threads[t] := th.(pc := Write, reg := counter);
        case Write =>
          counter := th.reg + 1;
          threads[t] := th.(pc := Unlock);
        case Unlock =>
          mutex := Free;
          threads[t] := th.(i := th.i + 1, pc := if th.i + 1 < m then Lock else Done);
      }
    }

    /** Plays a schedule to the end; a complete one leaves n * m in the counter. */
    method Play(sched: seq<nat>)
      requires View() == Init(threads.Length, m) && ValidFrom(m, View(), sched)
      modifies this, threads
      ensures View() == Exec(m, Init(threads.Length, m), sched)
      ensures |sched| == threads.Length * (4 * m) ==> counter == threads.Length * m
    {
      var k := 0;
      while k < |sched|
        invariant 0 <= k <= |sched|
        invariant ValidFrom(m, View(), sched[k..])
        invariant Exec(m, View(), sched[k..]) == Exec(m, old(View()), sched)
      {
        assert sched[k..][1..] == sched[k + 1..];
        RunThread(sched[k]);
        k := k + 1;
      }
      FinalCounter(threads.Length, m, sched);
    }
  }
}
