/**
 The fixed array of connection slots that both chat programs keep (`conns` of mid_project/chat.c,
 `connections` of midProject_v2/src/client.c), the scans over it, and the finite map from id to
 connection that it stands for.
 */
module SlotTable {
  import opened Sums

  const MAX_CONN: nat := 100

  datatype Endpoint = Endpoint(ip: seq<char>, port: int)

  /** `used` is called `active` in the second program. */
  datatype Slot = Slot(used: bool, id: int, sockfd: int, addr: Endpoint)

  datatype Conn = Conn(sockfd: int, addr: Endpoint)

  const EMPTY_SLOT := Slot(false, 0, 0, Endpoint("", 0))

  // ----- The scans -----

  /** First free slot, or the length of the table. */
  function FirstFree(slots: seq<Slot>): (k: nat)
    ensures k <= |slots| && (k < |slots| ==> !slots[k].used)
    ensures forall i :: 0 <= i < k ==> slots[i].used
  {
    if slots != [] && slots[0].used then 1 + FirstFree(slots[1..]) else 0
  }

  /** First used slot with this id, or the length of the table. */
  function IndexOf(slots: seq<Slot>, id: int): (k: nat)
    ensures k <= |slots| && (k < |slots| ==> slots[k].used && slots[k].id == id)
    ensures forall i :: 0 <= i < k ==> !(slots[i].used && slots[i].id == id)
  {
    if slots != [] && !(slots[0].used && slots[0].id == id) then 1 + IndexOf(slots[1..], id) else 0
  }

  /** What an insertion leaves behind; `slot` is -1 when nothing was registered. */
  datatype Added = Added(slots: seq<Slot>, nextId: int, slot: int)

  /** The locked block of `add_connection`. A failing thread creation frees the slot again but
      uses up the id. */
  function Add(slots: seq<Slot>, nextId: int, fd: int, addr: Endpoint, threadOk: bool): Added {
    var k := FirstFree(slots);
    if k == |slots| then Added(slots, nextId, -1)
    else Added(slots[k := Slot(threadOk, nextId, fd, addr)], nextId + 1, if threadOk then k else -1)
  }

  function Free(slots: seq<Slot>, k: nat): seq<Slot>
    requires k < |slots|
  {
    slots[k := slots[k].(used := false)]
  }

  /** The locked block of `cmd_terminate` and of `remove_connection_by_id`. */
  function Remove(slots: seq<Slot>, id: int): seq<Slot> {
    var k := IndexOf(slots, id);
    if k == |slots| then slots else Free(slots, k)
  }

  // ----- The map it stands for -----

  function UsedIds(slots: seq<Slot>): set<int> {
    set i | 0 <= i < |slots| && slots[i].used :: slots[i].id
  }

  function Live(slots: seq<Slot>): map<int, Conn> {
    map id | id in UsedIds(slots) :: ConnAt(slots, IndexOf(slots, id))
  }

  function ConnAt(slots: seq<Slot>, k: nat): Conn {
    if k < |slots| then Conn(slots[k].sockfd, slots[k].addr) else Conn(0, Endpoint("", 0))
  }

  /** Active ids are pairwise distinct and have been issued. */
  ghost predicate TableInv(slots: seq<Slot>, nextId: int) {
    && nextId >= 1
    && (forall i :: 0 <= i < |slots| && slots[i].used ==> 1 <= slots[i].id < nextId)
    && (forall i, j :: 0 <= i < j < |slots| && slots[i].used && slots[j].used ==>
          slots[i].id != slots[j].id)
  }

  lemma IndexOfUsed(slots: seq<Slot>, nextId: int, k: nat)
    requires TableInv(slots, nextId) && k < |slots| && slots[k].used
    ensures IndexOf(slots, slots[k].id) == k
  {
    var j := IndexOf(slots, slots[k].id);
    assert !(j < k) && !(k < j);
  }

  /** The linear search finds exactly the ids of the map, and their connections. */
  lemma LookupAgrees(slots: seq<Slot>, nextId: int, id: int)
    requires TableInv(slots, nextId)
    ensures IndexOf(slots, id) < |slots| <==> id in Live(slots)
    ensures forall k :: 0 <= k < |slots| && slots[k].used && slots[k].id == id ==>
              Live(slots)[id] == Conn(slots[k].sockfd, slots[k].addr)
  {
    var k := IndexOf(slots, id);
    if k < |slots| {
      assert slots[k].id in UsedIds(slots);
    }
    forall k | 0 <= k < |slots| && slots[k].used && slots[k].id == id
      ensures Live(slots)[id] == Conn(slots[k].sockfd, slots[k].addr)
    {
      IndexOfUsed(slots, nextId, k);
      assert slots[k].id in UsedIds(slots);
    }
  }

  lemma FillKeepsInv(slots: seq<Slot>, nextId: int, k: nat, s: Slot)
    requires TableInv(slots, nextId) && k < |slots| && !slots[k].used && s.id == nextId
    ensures TableInv(slots[k := s], nextId + 1) && nextId !in Live(slots)
  {
    assert nextId !in UsedIds(slots);
  }

  lemma LookupAfterFill(slots: seq<Slot>, nextId: int, k: nat, s: Slot, id: int)
    requires TableInv(slots, nextId) && k < |slots| && !slots[k].used && s.id == nextId
    ensures id in Live(slots[k := s]) <==> id in Live(slots) || (s.used && id == nextId)
    ensures id in Live(slots) ==> id in Live(slots[k := s]) && Live(slots[k := s])[id] == Live(slots)[id]
    ensures s.used ==> nextId in Live(slots[k := s])
                       && Live(slots[k := s])[nextId] == Conn(s.sockfd, s.addr)
  {
    var slots' := slots[k := s];
    assert slots'[k] == s;
    FillKeepsInv(slots, nextId, k, s);
    UpdatedLookup(slots, slots', k, id);
    if s.used {
      UpdatedLookup(slots, slots', k, nextId);
      LookupAgrees(slots', nextId + 1, nextId);
    }
  }

  lemma FillInserts(slots: seq<Slot>, nextId: int, k: nat, s: Slot)
    requires TableInv(slots, nextId) && k < |slots| && !slots[k].used && s.id == nextId
    ensures Live(slots[k := s])
         == if s.used then Live(slots)[nextId := Conn(s.sockfd, s.addr)] else Live(slots)
  {
    var m, m', there, c := Live(slots), Live(slots[k := s]), s.used, Conn(s.sockfd, s.addr);
    forall id: int ensures Inserted(m, m', there, nextId, c, id) {
      LookupAfterFill(slots, nextId, k, s, id);
    }
    InsertedMap(m, m', there, nextId, c);
  }

  predicate Inserted(m: map<int, Conn>, m': map<int, Conn>, there: bool, key: int, c: Conn, id: int) {
    && (id in m' <==> id in m || (there && id == key))
    && (id in m ==> id in m' && (!there || id != key ==> m'[id] == m[id]))
    && (there ==> key in m' && m'[key] == c)
  }

  lemma InsertedMap(m: map<int, Conn>, m': map<int, Conn>, there: bool, key: int, c: Conn)
    requires forall id :: Inserted(m, m', there, key, c, id)
    ensures m' == if there then m[key := c] else m
  {
    var r := if there then m[key := c] else m;
    forall id: int
      ensures id in m' <==> id in r
      ensures id in m' ==> m'[id] == r[id]
    {
      assert Inserted(m, m', there, key, c, id);
    }
  }

  /** Registering inserts one fresh key into the map and changes nothing else; a full table or a
      failed thread leaves the map as it was. */
  lemma AddInserts(slots: seq<Slot>, nextId: int, fd: int, addr: Endpoint, threadOk: bool)
    requires TableInv(slots, nextId)
    ensures var r := Add(slots, nextId, fd, addr, threadOk);
            && TableInv(r.slots, r.nextId) && nextId !in Live(slots)
            && (r.slot >= 0 <==> |Live(slots)| < |slots| && threadOk)
            && Live(r.slots) == if r.slot >= 0 then Live(slots)[nextId := Conn(fd, addr)] else Live(slots)
  {
    FullExactlyAtCapacity(slots, nextId);
    var k := FirstFree(slots);
    if k < |slots| {
      FillKeepsInv(slots, nextId, k, Slot(threadOk, nextId, fd, addr));
      FillInserts(slots, nextId, k, Slot(threadOk, nextId, fd, addr));
    }
  }

  /** An id other than the one at the changed free slot is looked up as before. */
  lemma UpdatedLookup(slots: seq<Slot>, slots': seq<Slot>, k: nat, id: int)
    requires k < |slots| == |slots'| && !slots[k].used
    requires forall i :: 0 <= i < |slots| && i != k ==> slots'[i] == slots[i]
    ensures id in UsedIds(slots') <==> id in UsedIds(slots) || (slots'[k].used && slots'[k].id == id)
    ensures !(slots'[k].used && slots'[k].id == id) ==> IndexOf(slots', id) == IndexOf(slots, id)
  {
    assert slots'[k].used ==> slots'[k].id in UsedIds(slots');
    if id in UsedIds(slots) {
      var i :| 0 <= i < |slots| && slots[i].used && slots[i].id == id;
      assert slots'[i].id in UsedIds(slots');
    }
    var a, b := IndexOf(slots', id), IndexOf(slots, id);
    assert a < |slots| && a != k ==> slots[a].used && slots[a].id == id;
    assert b < |slots| ==> slots'[b].used && slots'[b].id == id;
  }

  lemma LookupAfterFree(slots: seq<Slot>, nextId: int, k: nat, id: int)
    requires TableInv(slots, nextId) && k < |slots| && slots[k].used
    ensures id in UsedIds(Free(slots, k)) <==> id in UsedIds(slots) && id != slots[k].id
    ensures id != slots[k].id ==> IndexOf(Free(slots, k), id) == IndexOf(slots, id)
  {
    var slots' := Free(slots, k);
    UpdatedLookup(slots', slots, k, id);
    if id in UsedIds(slots') {
      var i :| 0 <= i < |slots| && slots'[i].used && slots'[i].id == id;
      assert i != k && slots[i].id != slots[k].id;
    }
  }

  lemma FreeKeepsInv(slots: seq<Slot>, nextId: int, k: nat)
    requires TableInv(slots, nextId) && k < |slots|
    ensures TableInv(Free(slots, k), nextId)
  {
  }

  predicate Deleted(m: map<int, Conn>, m': map<int, Conn>, key: int, id: int) {
    && (id in m' <==> id in m && id != key)
    && (id in m' ==> id in m && m'[id] == m[id])
  }

  lemma DeletedMap(m: map<int, Conn>, m': map<int, Conn>, key: int)
    requires forall id :: Deleted(m, m', key, id)
    ensures m' == m - {key}
  {
    forall id: int
      ensures id in m' <==> id in m - {key}
      ensures id in m' ==> m'[id] == (m - {key})[id]
    {
      assert Deleted(m, m', key, id);
    }
  }

  lemma DeletedAt(slots: seq<Slot>, nextId: int, k: nat, id: int)
    requires TableInv(slots, nextId) && k < |slots| && slots[k].used
    ensures Deleted(Live(slots), Live(Free(slots, k)), slots[k].id, id)
  {
    LookupAfterFree(slots, nextId, k, id);
    if id in Live(slots) && id != slots[k].id {
      var j := IndexOf(slots, id);
      LookupAgrees(slots, nextId, id);
      assert j != k;
    }
  }

  /** Freeing a used slot takes exactly its id out of the map. */
  lemma FreeRemoves(slots: seq<Slot>, nextId: int, k: nat)
    requires TableInv(slots, nextId) && k < |slots| && slots[k].used
    ensures TableInv(Free(slots, k), nextId)
    ensures Live(Free(slots, k)) == Live(slots) - {slots[k].id}
  {
    var m, m', key := Live(slots), Live(Free(slots, k)), slots[k].id;
    FreeKeepsInv(slots, nextId, k);
    forall id: int ensures Deleted(m, m', key, id) {
      DeletedAt(slots, nextId, k, id);
    }
    DeletedMap(m, m', key);
  }

  /** `Remove` takes the id out of the map, and does nothing if it is not there. */
  lemma RemoveDeletes(slots: seq<Slot>, nextId: int, id: int)
    requires TableInv(slots, nextId)
    ensures TableInv(Remove(slots, id), nextId) && Live(Remove(slots, id)) == Live(slots) - {id}
    ensures Remove(slots, id) == slots <==> id !in Live(slots)
  {
    LookupAgrees(slots, nextId, id);
    var k := IndexOf(slots, id);
    if k < |slots| {
      FreeRemoves(slots, nextId, k);
      assert slots[k].used && !Free(slots, k)[k].used;
    }
  }

  function UsedOne(s: Slot): nat {
    if s.used then 1 else 0
  }

  lemma {:induction false} LiveCount(slots: seq<Slot>, nextId: int)
    requires TableInv(slots, nextId)
    ensures |UsedIds(slots)| == Total(UsedOne, slots)
  {
    if slots != [] {
      var rest := slots[1..];
      assert TableInv(rest, nextId);
      LiveCount(rest, nextId);
      assert forall i :: 0 < i < |slots| ==> slots[i] == rest[i - 1];
      if slots[0].used {
        assert slots[0].id !in UsedIds(rest);
        forall id ensures id in UsedIds(slots) <==> id in UsedIds(rest) + {slots[0].id} {
          SplitId(slots, id);
        }
        assert UsedIds(slots) == UsedIds(rest) + {slots[0].id};
      } else {
        forall id ensures id in UsedIds(slots) <==> id in UsedIds(rest) {
          SplitId(slots, id);
        }
        assert UsedIds(slots) == UsedIds(rest);
      }
    }
  }

  lemma SplitId(slots: seq<Slot>, id: int)
    requires slots != []
    ensures id in UsedIds(slots) <==> id in UsedIds(slots[1..]) || (slots[0].used && slots[0].id == id)
  {
    if id in UsedIds(slots) {
      var i :| 0 <= i < |slots| && slots[i].used && slots[i].id == id;
      assert i > 0 ==> slots[1..][i - 1].id in UsedIds(slots[1..]);
    }
    if id in UsedIds(slots[1..]) {
      var i :| 0 <= i < |slots[1..]| && slots[1..][i].used && slots[1..][i].id == id;
      assert slots[i + 1].id in UsedIds(slots);
    }
    if slots[0].used {
      assert slots[0].id in UsedIds(slots);
    }
  }

  /** An insertion fails for lack of space exactly when the map has as many entries as the table
      has slots. */
  lemma FullExactlyAtCapacity(slots: seq<Slot>, nextId: int)
    requires TableInv(slots, nextId)
    ensures |Live(slots)| <= |slots|
    ensures FirstFree(slots) == |slots| <==> |Live(slots)| == |slots|
  {
    LiveCount(slots, nextId);
    assert Live(slots).Keys == UsedIds(slots);
    TotalBound(UsedOne, slots, 1);
  }
}
