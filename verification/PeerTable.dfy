/**
 The connection table of midProject_v2/src/client.c as its functions update it in place, and the
 `exit` loop of midProject_v2/src/main.c. Each method is one block under `conn_lock`; sockets that
 a block closes are appended to `closed`.
 */
module PeerTable {
  import opened SlotTable

  const MAX_MSG_LEN: nat := 100
  const SWEEP_LIMIT: nat := 1000

  /** The entries that removing the ids below `n` one by one leaves. */
  function FromId(m: map<int, Conn>, n: int): map<int, Conn> {
    map id | id in m && id >= n :: m[id]
  }

  lemma FromIdNext(m: map<int, Conn>, n: int)
    ensures FromId(m, n) - {n} == FromId(m, n + 1)
  {
  }

  lemma FromIdEmpty(m: map<int, Conn>, n: int)
    ensures FromId(m, n) == map[] <==> forall id :: id in m ==> id < n
  {
    if id :| id in m && id >= n {
      assert id in FromId(m, n);
    }
  }

  /** The sockets that removing the ids below `n` one by one closes. */
  function SweptFds(m: map<int, Conn>, n: nat): seq<int> {
    if n == 0 then []
    else SweptFds(m, n - 1) + (if n - 1 in m then [m[n - 1].sockfd] else [])
  }

  lemma SweptFdsNext(m: map<int, Conn>, n: nat, c: seq<int>)
    ensures c + SweptFds(m, n + 1) == c + SweptFds(m, n) + (if n in m then [m[n].sockfd] else [])
    ensures n in m <==> n in FromId(m, n)
    ensures n in m ==> FromId(m, n)[n] == m[n]
  {
  }

  predicate RealFds(slots: seq<Slot>) {
    forall i :: 0 <= i < |slots| && slots[i].used ==> slots[i].sockfd >= 0
  }

  lemma AddKeepsFds(slots: seq<Slot>, nextId: int, fd: int, addr: Endpoint, threadOk: bool)
    requires RealFds(slots) && fd >= 0
    ensures RealFds(Add(slots, nextId, fd, addr, threadOk).slots)
  {
  }

  /** What `add_connection` makes of the map, by whether there is room. */
  lemma AddOutcome(slots: seq<Slot>, nextId: int, fd: int, addr: Endpoint, threadOk: bool)
    requires TableInv(slots, nextId)
    ensures var r, room := Add(slots, nextId, fd, addr, threadOk), |Live(slots)| < |slots|;
            && TableInv(r.slots, r.nextId) && r.nextId == (if room then nextId + 1 else nextId)
            && (room <==> FirstFree(slots) < |slots|)
            && Live(r.slots) == if room && threadOk then Live(slots)[nextId := Conn(fd, addr)] else Live(slots)
  {
    AddInserts(slots, nextId, fd, addr, threadOk);
    FullExactlyAtCapacity(slots, nextId);
  }

  class PeerConnections {
    const connections: array<Slot>
    var nextId: int
    ghost var closed: seq<int>

    ghost predicate Valid()
      reads this, connections
    {
      connections.Length == MAX_CONN && TableInv(connections[..], nextId) && RealFds(connections[..])
    }

    constructor ()
      ensures Valid() && fresh(connections) && nextId == 1 && closed == []
      ensures Live(connections[..]) == map[]
    {
      connections := new Slot[MAX_CONN](_ => EMPTY_SLOT);
      nextId, closed := 1, [];
    }

    /** `add_connection`: the id of the new connection, or -1. The socket is closed if the thread
        cannot be created, but not if the table is full. */
    method AddConnection(sockfd: int, addr: Endpoint, threadOk: bool) returns (connId: int)
      requires Valid() && sockfd >= 0
      modifies this, connections
      ensures Valid()
      ensures connId == if threadOk && |old(Live(connections[..]))| < MAX_CONN then old(nextId) else -1
      ensures Live(connections[..])
           == if connId >= 0 then old(Live(connections[..]))[connId := Conn(sockfd, addr)]
              else old(Live(connections[..]))
      ensures nextId == if |old(Live(connections[..]))| < MAX_CONN then old(nextId) + 1 else old(nextId)
      ensures closed == old(closed)
                        + if |old(Live(connections[..]))| < MAX_CONN && !threadOk then [sockfd] else []
      ensures connections[..] == old(Add(connections[..], nextId, sockfd, addr, threadOk).slots)
    {
      AddOutcome(connections[..], nextId, sockfd, addr, threadOk);
      AddKeepsFds(connections[..], nextId, sockfd, addr, threadOk);
      connId := Insert(sockfd, addr, threadOk);
    }

    /** The same, seen as an update of the array. */
    method Insert(sockfd: int, addr: Endpoint, threadOk: bool) returns (connId: int)
      requires connections.Length == MAX_CONN
      modifies this, connections
      ensures var r, room := old(Add(connections[..], nextId, sockfd, addr, threadOk)), old(HasRoom());
              && connections[..] == r.slots && nextId == r.nextId
              && connId == (if room && threadOk then old(nextId) else -1)
              && closed == old(closed) + if room && !threadOk then [sockfd] else []
    {
      var idx := FindFree();
      if idx == -1 {
        return -1;
      }
      connId := Enter(idx, sockfd, addr, threadOk);
    }

    ghost predicate HasRoom()
      reads connections
    {
      FirstFree(connections[..]) < connections.Length
    }

    /** Fills the slot and starts the thread, or undoes it. */
    method Enter(idx: nat, sockfd: int, addr: Endpoint, threadOk: bool) returns (connId: int)
      requires idx < connections.Length
      modifies this, connections
      ensures connections[..] == old(connections[..])[idx := Slot(threadOk, old(nextId), sockfd, addr)]
      ensures nextId == old(nextId) + 1 && connId == if threadOk then old(nextId) else -1
      ensures closed == old(closed) + if threadOk then [] else [sockfd]
    {
      connId := nextId;
      connections[idx] := Slot(true, connId, sockfd, addr);
      nextId := nextId + 1;
      if !threadOk {
        closed := closed + [sockfd];
        connections[idx] := connections[idx].(used := false);
        connId := -1;
      }
    }

    /** The scan for a free slot. */
    method FindFree() returns (idx: int)
      requires connections.Length == MAX_CONN
      ensures idx == if FirstFree(connections[..]) < MAX_CONN then FirstFree(connections[..]) else -1
    {
      for i := 0 to MAX_CONN
        invariant i <= FirstFree(connections[..])
      {
        if !connections[i].used {
          assert i == FirstFree(connections[..]);
          return i;
        }
        assert i != FirstFree(connections[..]);
      }
      return -1;
    }

    /** `remove_connection_by_id`: 0 if the id was active, whose socket is then closed, or -1. */
    method RemoveConnectionById(id: int) returns (r: int)
      requires Valid()
      modifies this`closed, connections
      ensures Valid() && connections[..] == old(Remove(connections[..], id))
      ensures r == if id in old(Live(connections[..])) then 0 else -1
      ensures Live(connections[..]) == old(Live(connections[..])) - {id}
      ensures closed == old(closed) + if r == 0 then [old(Live(connections[..]))[id].sockfd] else []
    {
      RemoveDeletes(connections[..], nextId, id);
      LookupAgrees(connections[..], nextId, id);
      for i := 0 to MAX_CONN
        invariant i <= IndexOf(connections[..], id)
        invariant connections[..] == old(connections[..]) && closed == old(closed)
      {
        if connections[i].used && connections[i].id == id {
          assert i == IndexOf(connections[..], id);
          closed := closed + [connections[i].sockfd];
          connections[i] := connections[i].(used := false);
          return 0;
        }
        assert i != IndexOf(connections[..], id);
      }
      return -1;
    }

    /** `send_to_connection_id`: looks the socket up under the lock and sends after giving it up.
        `sendOk` is whether `send` succeeds. */
    method SendToConnectionId(id: int, msg: seq<char>, sendOk: bool) returns (r: int, sock: int)
      requires Valid()
      ensures sock == if id in Live(connections[..]) then Live(connections[..])[id].sockfd else -1
      ensures r == if id !in Live(connections[..]) then -1
                   else if |msg| > MAX_MSG_LEN then -2
                   else if !sendOk then -3 else 0
      ensures r == -2 <==> id in Live(connections[..]) && |msg| > 100
    {
      LookupAgrees(connections[..], nextId, id);
      sock := -1;
      for i := 0 to MAX_CONN
        invariant sock == -1 && i <= IndexOf(connections[..], id)
      {
        if connections[i].used && connections[i].id == id {
          assert i == IndexOf(connections[..], id);
          sock := connections[i].sockfd;
          break;
        }
        assert i != IndexOf(connections[..], id);
      }
      if sock == -1 {
        return -1, -1;
      }
      if |msg| > MAX_MSG_LEN {
        return -2, sock;
      }
      return if sendOk then 0 else -3, sock;
    }

    /** The ids below `i` have been removed; before, `was` was in the table and `c` was closed. */
    ghost predicate SweptTo(was: map<int, Conn>, c: seq<int>, i: nat)
      reads this, connections
    {
      Valid() && Live(connections[..]) == FromId(was, i) && closed == c + SweptFds(was, i)
    }

    /** One turn of the `exit` loop. */
    method SweepNext(i: nat, ghost was: map<int, Conn>, ghost c: seq<int>)
      requires SweptTo(was, c, i)
      modifies this`closed, connections
      ensures SweptTo(was, c, i + 1)
    {
      FromIdNext(was, i);
      SweptFdsNext(was, i, c);
      var r := RemoveConnectionById(i);
    }

    /** The `exit` loop up to any limit. */
    method SweepBelow(limit: nat)
      requires Valid()
      modifies this`closed, connections
      ensures Valid() && nextId == old(nextId)
      ensures closed == old(closed) + SweptFds(old(Live(connections[..])), limit)
      ensures Live(connections[..]) == FromId(old(Live(connections[..])), limit)
    {
      ghost var was, c := Live(connections[..]), closed;
      FromZero(connections[..], nextId);
      assert c + SweptFds(was, 0) == c;
      for i := 0 to limit
        invariant SweptTo(was, c, i) && nextId == old(nextId)
      {
        SweepNext(i, was, c);
      }
    }

    /** The `exit` loop when no other thread gets in between: it empties the table exactly when
        every active id is below 1000. */
    method ExitSweep()
      requires Valid()
      modifies this`closed, connections
      ensures Valid() && nextId == old(nextId)
      ensures closed == old(closed) + SweptFds(old(Live(connections[..])), SWEEP_LIMIT)
      ensures Live(connections[..]) == FromId(old(Live(connections[..])), SWEEP_LIMIT)
      ensures Live(connections[..]) == map[] <==>
              forall id :: id in old(Live(connections[..])) ==> id < SWEEP_LIMIT
    {
      FromIdEmpty(Live(connections[..]), SWEEP_LIMIT);
      SweepBelow(SWEEP_LIMIT);
    }
  }

  lemma FromZero(slots: seq<Slot>, nextId: int)
    requires TableInv(slots, nextId)
    ensures FromId(Live(slots), 0) == Live(slots)
  {
    forall id | id in Live(slots) ensures id >= 0 {
      LookupAgrees(slots, nextId, id);
    }
  }
}
