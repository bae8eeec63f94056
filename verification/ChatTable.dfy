/**
 The connection table of mid_project/chat.c as its functions update it in place. Each method is
 one block under `conns_mutex`; sockets that a block closes are appended to `closed`.
 */
module ChatTable {
  import opened SlotTable

  const MAX_MSG: nat := 100

  datatype SendResult = TooLong | NoSuchId | SentOn(sockfd: int, text: seq<char>)

  /** The sockets of the used slots, in table order. */
  function UsedFds(slots: seq<Slot>): seq<int> {
    if slots == [] then []
    else UsedFds(slots[..|slots| - 1])
         + (if slots[|slots| - 1].used then [slots[|slots| - 1].sockfd] else [])
  }

  function AllFree(slots: seq<Slot>): seq<Slot> {
    seq(|slots|, i requires 0 <= i < |slots| => slots[i].(used := false))
  }

  predicate HasPeer(slots: seq<Slot>, addr: Endpoint) {
    exists i :: 0 <= i < |slots| && slots[i].used && slots[i].addr == addr
  }

  class ConnTable {
    const conns: array<Slot>
    var nextId: int
    ghost var closed: seq<int>

    ghost predicate Valid()
      reads this, conns
    {
      conns.Length == MAX_CONN && TableInv(conns[..], nextId)
    }

    constructor ()
      ensures Valid() && fresh(conns) && nextId == 1 && closed == []
      ensures Live(conns[..]) == map[]
    {
      conns := new Slot[MAX_CONN](_ => EMPTY_SLOT);
      nextId, closed := 1, [];
    }

    /** `add_connection` up to the unlock: the slot taken, or -1. The id is read back later. */
    method AddConnection(sockfd: int, addr: Endpoint, threadOk: bool) returns (slot: int)
      requires Valid()
      modifies this, conns
      ensures Valid() && closed == old(closed)
      ensures Added(conns[..], nextId, slot) == old(Add(conns[..], nextId, sockfd, addr, threadOk))
      ensures slot >= 0 <==> threadOk && |old(Live(conns[..]))| < MAX_CONN
      ensures slot >= 0 ==> Live(conns[..]) == old(Live(conns[..]))[old(nextId) := Conn(sockfd, addr)]
      ensures slot < 0 ==> Live(conns[..]) == old(Live(conns[..]))
    {
      AddInserts(conns[..], nextId, sockfd, addr, threadOk);
      FullExactlyAtCapacity(conns[..], nextId);
      var i := 0;
      while i < MAX_CONN
        invariant i <= FirstFree(conns[..]) && conns[..] == old(conns[..])
      {
        if !conns[i].used {
          assert i == FirstFree(conns[..]);
          conns[i] := Slot(true, nextId, sockfd, addr);
          nextId := nextId + 1;
          if !threadOk {
            conns[i] := conns[i].(used := false);
            return -1;
          }
          return i;
        }
        assert i != FirstFree(conns[..]);
        i := i + 1;
      }
      return -1;
    }

    method FindSlotById(id: int) returns (slot: int)
      requires Valid()
      ensures slot == -1 || 0 <= slot < MAX_CONN
      ensures slot >= 0 <==> id in Live(conns[..])
      ensures slot >= 0 ==> slot == IndexOf(conns[..], id)
      ensures slot >= 0 ==> Live(conns[..])[id] == Conn(conns[slot].sockfd, conns[slot].addr)
    {
      LookupAgrees(conns[..], nextId, id);
      var i := 0;
      while i < MAX_CONN
        invariant i <= IndexOf(conns[..], id)
      {
        if conns[i].used && conns[i].id == id {
          assert i == IndexOf(conns[..], id);
          return i;
        }
        assert i != IndexOf(conns[..], id);
        i := i + 1;
      }
      return -1;
    }

    /** `cmd_terminate`: closes the socket registered for the id, or reports that there is none. */
    method Terminate(id: int) returns (found: bool)
      requires Valid()
      modifies this, conns
      ensures Valid() && nextId == old(nextId)
      ensures found <==> id in old(Live(conns[..]))
      ensures conns[..] == old(Remove(conns[..], id))
      ensures Live(conns[..]) == old(Live(conns[..])) - {id}
      ensures closed == old(closed) + if found then [old(Live(conns[..]))[id].sockfd] else []
    {
      RemoveDeletes(conns[..], nextId, id);
      LookupAgrees(conns[..], nextId, id);
      var slot := FindSlotById(id);
      if slot == -1 {
        return false;
      }
      closed := closed + [conns[slot].sockfd];
      conns[slot] := conns[slot].(used := false);
      return true;
    }

    /** `cmd_send`: under the lock, on the socket registered for the id at that moment. */
    method SendTo(id: int, message: seq<char>) returns (r: SendResult)
      requires Valid()
      ensures r == if |message| > MAX_MSG then TooLong
                   else if id !in Live(conns[..]) then NoSuchId
                   else SentOn(Live(conns[..])[id].sockfd, message)
      ensures r.SentOn? <==> |message| <= 100 && id in Live(conns[..])
    {
      if |message| > MAX_MSG {
        return TooLong;
      }
      var slot := FindSlotById(id);
      if slot == -1 {
        return NoSuchId;
      }
      return SentOn(conns[slot].sockfd, message);
    }

    /** The duplicate check of `cmd_connect`. */
    method CheckPeer(addr: Endpoint) returns (dup: bool)
      requires Valid()
      ensures dup == HasPeer(conns[..], addr)
      ensures dup <==> exists id :: id in Live(conns[..]) && Live(conns[..])[id].addr == addr
    {
      PeerInMap(conns[..], nextId, addr);
      for i := 0 to MAX_CONN
        invariant forall j :: 0 <= j < i ==> !(conns[j].used && conns[j].addr == addr)
      {
        if conns[i].used && conns[i].addr == addr {
          assert conns[..][i].used && conns[..][i].addr == addr;
          return true;
        }
      }
      return false;
    }

    /** First locked block of `recv_handler`: the socket to receive on, or -1 to stop. */
    method HandlerCheck(idx: nat) returns (fd: int, stop: bool)
      requires Valid() && idx < MAX_CONN
      ensures stop <==> !conns[idx].used
      ensures !stop ==> fd == Live(conns[..])[conns[idx].id].sockfd
    {
      if !conns[idx].used {
        return -1, true;
      }
      LookupAgrees(conns[..], nextId, conns[idx].id);
      return conns[idx].sockfd, false;
    }

    /** Second locked block of `recv_handler`, after a failed receive: drops whatever connection
        the slot holds by now. */
    method HandlerDrop(idx: nat)
      requires Valid() && idx < MAX_CONN
      modifies this, conns
      ensures Valid() && nextId == old(nextId)
      ensures !old(conns[idx].used) ==> conns[..] == old(conns[..]) && closed == old(closed)
      ensures old(conns[idx].used) ==>
                && conns[..] == old(Free(conns[..], idx))
                && Live(conns[..]) == old(Live(conns[..])) - {old(conns[idx].id)}
                && closed == old(closed) + [old(conns[idx].sockfd)]
    {
      if conns[idx].used {
        FreeRemoves(conns[..], nextId, idx);
        closed := closed + [conns[idx].sockfd];
        conns[idx] := conns[idx].(used := false);
      }
    }

    /** One turn of the loop of `cleanup_and_exit`. */
    method CloseSlot(i: nat)
      requires i < conns.Length
      modifies this`closed, conns
      ensures conns[..] == old(Free(conns[..], i))
      ensures closed == old(closed) + old(if conns[i].used then [conns[i].sockfd] else [])
    {
      if conns[i].used {
        closed := closed + [conns[i].sockfd];
        conns[i] := conns[i].(used := false);
      }
    }

    /** The locked loop of `cleanup_and_exit`. */
    method Cleanup()
      requires Valid()
      modifies this, conns
      ensures Valid() && nextId == old(nextId)
      ensures conns[..] == AllFree(old(conns[..])) && Live(conns[..]) == map[]
      ensures closed == old(closed) + UsedFds(old(conns[..]))
    {
      ghost var was := conns[..];
      var i := 0;
      while i < MAX_CONN
        invariant i <= MAX_CONN && nextId == old(nextId)
        invariant forall j :: 0 <= j < i ==> conns[j] == was[j].(used := false)
        invariant forall j :: i <= j < MAX_CONN ==> conns[j] == was[j]
        invariant closed == old(closed) + UsedFds(was[..i])
      {
        assert was[..i + 1][..i] == was[..i];
        ghost var before := conns[..];
        CloseSlot(i);
        assert forall j :: 0 <= j < MAX_CONN ==> conns[j] == Free(before, i)[j];
        i := i + 1;
      }
      assert was[..i] == was;
      assert UsedIds(conns[..]) == {};
    }
  }

  lemma PeerInMap(slots: seq<Slot>, nextId: int, addr: Endpoint)
    requires TableInv(slots, nextId)
    ensures HasPeer(slots, addr) <==> exists id :: id in Live(slots) && Live(slots)[id].addr == addr
  {
    if HasPeer(slots, addr) {
      var i :| 0 <= i < |slots| && slots[i].used && slots[i].addr == addr;
      LookupAgrees(slots, nextId, slots[i].id);
      IndexOfUsed(slots, nextId, i);
    }
    if id :| id in Live(slots) && Live(slots)[id].addr == addr {
      var k := IndexOf(slots, id);
      LookupAgrees(slots, nextId, id);
    }
  }
}
