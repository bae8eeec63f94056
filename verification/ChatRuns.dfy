/** Runs of mid_project/chat.c from one state to another, and runs from the start. */
module ChatRuns {
  import opened SlotTable
  import opened ChatTable
  import opened ChatSystem
  import opened ChatSafety

  /** Some interleaving leads from `s` to `t`. */
  ghost predicate Leads(s: State, t: State) {
    WellSized(s) && exists acts :: ValidFrom(s, acts) && Exec(s, acts) == t
  }

  ghost predicate Reachable(s: State) {
    Leads(Init(), s)
  }

  lemma ReachableInv(s: State)
    requires Reachable(s)
    ensures Inv(s)
  {
    InitInv();
    var acts :| ValidFrom(Init(), acts) && Exec(Init(), acts) == s;
    RunKeepsInv(Init(), acts);
  }

  lemma {:induction false} ExecSnoc(s: State, acts: seq<Action>, a: Action)
    requires WellSized(s) && ValidFrom(s, acts) && Enabled(Exec(s, acts), a)
    ensures ValidFrom(s, acts + [a]) && Exec(s, acts + [a]) == Step(Exec(s, acts), a)
    decreases |acts|
  {
    if acts == [] {
      assert acts + [a] == [a] && [a][1..] == [];
    } else {
      StepSized(s, acts[0]);
      ExecSnoc(Step(s, acts[0]), acts[1..], a);
      assert (acts + [a])[1..] == acts[1..] + [a];
    }
  }

  lemma Stays(s: State)
    requires WellSized(s)
    ensures Leads(s, s)
  {
    assert ValidFrom(s, []) && Exec(s, []) == s;
  }

  /** One more step at the end of a run. */
  lemma LeadsOn(r: State, s: State, a: Action)
    requires Leads(r, s) && WellSized(s) && Enabled(s, a)
    ensures Leads(r, Step(s, a))
  {
    var acts :| ValidFrom(r, acts) && Exec(r, acts) == s;
    ExecSnoc(r, acts, a);
  }

  lemma Then(s: State, a: Action) returns (t: State)
    requires Reachable(s) && WellSized(s) && Enabled(s, a)
    ensures Reachable(t) && WellSized(t) && t == Step(s, a)
  {
    LeadsOn(Init(), s, a);
    StepSized(s, a);
    t := Step(s, a);
  }

  lemma Start() returns (s: State)
    ensures s == Init() && Reachable(s) && WellSized(s)
  {
    s := Init();
    Stays(s);
  }

  /** One more step of a run from `r`. */
  lemma Go(r: State, s: State, a: Action) returns (t: State)
    requires Leads(r, s) && Reachable(s) && WellSized(s) && Enabled(s, a)
    ensures Leads(r, t) && Reachable(t) && WellSized(t) && t == Step(s, a)
  {
    LeadsOn(r, s, a);
    t := Then(s, a);
  }

  /** A number in 1..n+1 that is not in a set of at most `n` numbers: a fresh socket, a fresh port. */
  lemma {:induction false} Missing(taken: set<int>, n: nat) returns (x: int)
    requires |taken| <= n
    ensures 1 <= x <= n + 1 && x !in taken
    decreases n
  {
    x := n + 1;
    if x in taken {
      x := Missing(taken - {x}, n - 1);
    }
  }

  function Ports(slots: seq<Slot>): (ports: set<int>)
    ensures |ports| <= |slots| && forall i :: 0 <= i < |slots| ==> slots[i].addr.port in ports
  {
    if slots == [] then {} else Ports(slots[..|slots| - 1]) + {slots[|slots| - 1].addr.port}
  }

  const SOME_IP := "10.0.0.1"

  /** An endpoint with a port up to 101 that no connection has. */
  lemma FreshPeer(slots: seq<Slot>) returns (dest: Endpoint)
    requires |slots| == MAX_CONN
    ensures !HasPeer(slots, dest) && 1 <= dest.port <= MAX_CONN + 1
  {
    var port := Missing(Ports(slots), MAX_CONN);
    dest := Endpoint(SOME_IP, port);
  }
}
