/**
 The in-memory task store: records by id, and the order of their arrival, which eviction follows. A
 record put while the order is full pushes out the oldest finished one.
 */
module TaskStore {

  const MEMORY_CAPACITY := 1024

  datatype Record = Record(id: string, finished: bool)
  datatype Memory = Memory(rows: map<string, Record>, order: seq<string>)

  const EMPTY := Memory(map[], [])

  /** An id of the order that may go: its record is finished, or there is none yet. */
  predicate Droppable(rows: map<string, Record>, id: string) {
    id !in rows || rows[id].finished
  }

  /** The first droppable position from `i` on, or 0 if there is none. */
  function FirstFrom(rows: map<string, Record>, order: seq<string>, i: nat): (v: nat)
    requires order != [] && i <= |order|
    ensures v < |order|
    decreases |order| - i
  {
    if i == |order| then 0 else if Droppable(rows, order[i]) then i else FirstFrom(rows, order, i + 1)
  }

  function Without(order: seq<string>, v: nat): seq<string>
    requires v < |order|
  {
    order[..v] + order[v + 1..]
  }

  /** One eviction. */
  function Evict(m: Memory): Memory
    requires m.order != []
  {
    var v := FirstFrom(m.rows, m.order, 0);
    Memory(m.rows - {m.order[v]}, Without(m.order, v))
  }

  function EvictAll(m: Memory): Memory
    decreases |m.order|
  {
    if |m.order| > MEMORY_CAPACITY then EvictAll(Evict(m)) else m
  }

  /** Insert or replace a record. */
  function Put(m: Memory, r: Record): Memory {
    var n := if r.id in m.rows then m else EvictAll(m.(order := m.order + [r.id]));
    n.(rows := n.rows[r.id := r])
  }

  /** The ids in the order are distinct, have records, and are at most as many as the capacity. */
  ghost predicate Valid(m: Memory) {
    && |m.order| <= MEMORY_CAPACITY
    && (forall i :: 0 <= i < |m.order| ==> m.order[i] in m.rows)
    && (forall i, j :: 0 <= i < j < |m.order| ==> m.order[i] != m.order[j])
  }

  /** Every record in the order is still running. */
  ghost predicate AllRunning(m: Memory) {
    forall i :: 0 <= i < |m.order| ==> m.order[i] in m.rows && !m.rows[m.order[i]].finished
  }

  lemma {:induction false} FirstIsFirst(rows: map<string, Record>, order: seq<string>, i: nat)
    requires order != [] && i <= |order|
    ensures var v := FirstFrom(rows, order, i);
            if exists j :: i <= j < |order| && Droppable(rows, order[j])
            then i <= v && Droppable(rows, order[v]) && forall j :: i <= j < v ==> !Droppable(rows, order[j])
            else v == 0
    decreases |order| - i
  {
    if i < |order| && !Droppable(rows, order[i]) {
      FirstIsFirst(rows, order, i + 1);
    }
  }

  /** What putting a new record into a full order does: the oldest finished record goes, or no record does. */
  lemma FullPut(m: Memory, r: Record) returns (v: nat)
    requires Valid(m) && |m.order| == MEMORY_CAPACITY && r.id !in m.rows
    ensures v <= |m.order| && (forall j :: 0 <= j < v ==> !m.rows[m.order[j]].finished)
    ensures v < |m.order| ==>
              && m.rows[m.order[v]].finished
              && Put(m, r) == Memory((m.rows - {m.order[v]})[r.id := r], Without(m.order, v) + [r.id])
    ensures v == |m.order| ==> Put(m, r) == Memory(m.rows[r.id := r], m.order)
  {
    var order := m.order + [r.id];
    var n := m.(order := order);
    assert order[|m.order|] == r.id && Droppable(m.rows, r.id);
    assert forall i :: 0 <= i < |m.order| ==> order[i] == m.order[i];
    FirstIsFirst(m.rows, order, 0);
    v := FirstFrom(m.rows, order, 0);
    assert EvictAll(n) == EvictAll(Evict(n)) == Evict(n);
    if v < |m.order| {
      assert Without(order, v) == Without(m.order, v) + [r.id];
      assert (m.rows - {m.order[v]})[r.id := r] == (m.rows - {order[v]})[r.id := r];
    } else {
      assert Without(order, v) == m.order;
      assert m.rows - {r.id} == m.rows;
    }
  }

  lemma RoomyPut(m: Memory, r: Record)
    requires Valid(m) && (|m.order| < MEMORY_CAPACITY || r.id in m.rows)
    ensures Put(m, r) == Memory(m.rows[r.id := r], if r.id in m.rows then m.order else m.order + [r.id])
  {
  }

  lemma PutKeepsValid(m: Memory, r: Record)
    requires Valid(m)
    ensures Valid(Put(m, r))
  {
    if |m.order| < MEMORY_CAPACITY || r.id in m.rows {
      RoomyPut(m, r);
    } else {
      var v := FullPut(m, r);
    }
  }

  /** No write ever drops a task that is still running, however full the store is. */
  lemma RunningSurvives(m: Memory, r: Record, id: string)
    requires Valid(m) && id in m.rows && !m.rows[id].finished && id != r.id
    ensures id in Put(m, r).rows && Put(m, r).rows[id] == m.rows[id]
  {
    if |m.order| < MEMORY_CAPACITY || r.id in m.rows {
      RoomyPut(m, r);
    } else {
      var v := FullPut(m, r);
    }
  }

  /** The record just written can be read back, and stays in the order unless every other one is running. */
  lemma WrittenIsStored(m: Memory, r: Record)
    requires Valid(m)
    ensures r.id in Put(m, r).rows && Put(m, r).rows[r.id] == r
    ensures r.id !in m.rows ==>
              (r.id in Put(m, r).order <==> |m.order| < MEMORY_CAPACITY || !AllRunning(m))
  {
    if |m.order| < MEMORY_CAPACITY || r.id in m.rows {
      RoomyPut(m, r);
    } else {
      var v := FullPut(m, r);
      if v == |m.order| {
        assert r.id !in m.order by {
          assert forall i :: 0 <= i < |m.order| ==> m.order[i] in m.rows;
        }
        assert AllRunning(m);
      }
    }
  }

  /** A new record adds a row if the order has room, and also if it is full of running ones. */
  lemma RowsGrow(m: Memory, r: Record)
    requires Valid(m)
    ensures |Put(m, r).rows| == |m.rows| +
              if r.id !in m.rows && (|m.order| < MEMORY_CAPACITY || AllRunning(m)) then 1 else 0
  {
    if |m.order| < MEMORY_CAPACITY || r.id in m.rows {
      RoomyPut(m, r);
      SizeWith(m.rows, r);
    } else {
      var v := FullPut(m, r);
      if v < |m.order| {
        SizeWithout(m.rows, m.order[v]);
        SizeWith(m.rows - {m.order[v]}, r);
        assert !AllRunning(m);
      } else {
        SizeWith(m.rows, r);
        assert AllRunning(m);
      }
    }
  }

  lemma SizeWith(rows: map<string, Record>, r: Record)
    ensures |rows[r.id := r]| == |rows| + if r.id in rows then 0 else 1
  {
    assert rows[r.id := r].Keys == rows.Keys + {r.id};
    assert |rows[r.id := r].Keys| == |rows[r.id := r]| && |rows.Keys| == |rows|;
  }

  lemma SizeWithout(rows: map<string, Record>, id: string)
    requires id in rows
    ensures |rows - {id}| == |rows| - 1
  {
    assert (rows - {id}).Keys == rows.Keys - {id};
    assert |(rows - {id}).Keys| == |rows - {id}| && |rows.Keys| == |rows|;
  }

  /** A record without a place in the order is never evicted, finished or not. */
  lemma UnorderedStays(m: Memory, r: Record, id: string)
    requires Valid(m) && id in m.rows && id !in m.order
    ensures id in Put(m, r).rows && id !in Put(m, r).order
  {
    if |m.order| < MEMORY_CAPACITY || r.id in m.rows {
      RoomyPut(m, r);
    } else {
      var v := FullPut(m, r);
    }
  }

  /** The store after the first `n` of these writes. */
  function After(writes: seq<Record>, n: nat): Memory
    requires n <= |writes|
  {
    if n == 0 then EMPTY else Put(After(writes, n - 1), writes[n - 1])
  }

  lemma {:induction false} AfterIsValid(writes: seq<Record>, n: nat)
    requires n <= |writes|
    ensures Valid(After(writes, n))
  {
    if n > 0 {
      AfterIsValid(writes, n - 1);
      PutKeepsValid(After(writes, n - 1), writes[n - 1]);
    }
  }

  /** The record brings a new id to a full order of running tasks. */
  ghost predicate Crowds(m: Memory, r: Record) {
    r.id !in m.rows && |m.order| == MEMORY_CAPACITY && AllRunning(m)
  }

  /** As long as the order has room, every record has a place in it; rows are never fewer than places. */
  ghost predicate Counted(m: Memory) {
    |m.order| <= |m.rows| && (|m.order| < MEMORY_CAPACITY ==> |m.rows| == |m.order|)
  }

  predicate WithinCapacity(m: Memory) {
    |m.rows| <= MEMORY_CAPACITY
  }

  /** `n` is `m` with `r` put into it, as far as counting goes. */
  ghost predicate CountsOn(m: Memory, r: Record, n: Memory) {
    Counted(m) ==> Counted(n) && (WithinCapacity(n) <==> WithinCapacity(m) && !Crowds(m, r))
  }

  lemma PutCountsOn(m: Memory, r: Record)
    requires Valid(m)
    ensures CountsOn(m, r, Put(m, r))
  {
    RowsGrow(m, r);
    if |m.order| < MEMORY_CAPACITY || r.id in m.rows {
      RoomyPut(m, r);
    } else {
      var v := FullPut(m, r);
    }
  }

  /** None of the first `n` writes brought a new id to a full order of running tasks. */
  ghost predicate NoneCrowds(writes: seq<Record>, n: nat)
    requires n <= |writes|
  {
    n == 0 || (NoneCrowds(writes, n - 1) && !Crowds(After(writes, n - 1), writes[n - 1]))
  }

  /** After any writes, the store is within its capacity exactly if none of them crowded it. */
  lemma {:induction false} BoundHolds(writes: seq<Record>, n: nat)
    requires n <= |writes|
    ensures Counted(After(writes, n))
    ensures |After(writes, n).rows| <= MEMORY_CAPACITY <==> NoneCrowds(writes, n)
  {
    if n > 0 {
      BoundHolds(writes, n - 1);
      AfterIsValid(writes, n - 1);
      PutCountsOn(After(writes, n - 1), writes[n - 1]);
    }
  }

  /** In any sequence of writes, a task whose latest write is running is in the store, with that write. */
  lemma {:induction false} LatestRunningIsThere(writes: seq<Record>, n: nat, k: nat)
    requires k < n <= |writes| && !writes[k].finished
    requires forall i :: k < i < n ==> writes[i].id != writes[k].id
    ensures writes[k].id in After(writes, n).rows && After(writes, n).rows[writes[k].id] == writes[k]
  {
    AfterIsValid(writes, n - 1);
    if k == n - 1 {
      WrittenIsStored(After(writes, n - 1), writes[k]);
    } else {
      LatestRunningIsThere(writes, n - 1, k);
      RunningSurvives(After(writes, n - 1), writes[n - 1], writes[k].id);
    }
  }

  /** The rows are the first `n` of these running tasks, and nothing else. */
  ghost predicate HoldsJust(rows: map<string, Record>, writes: seq<Record>, n: nat)
    requires n <= |writes|
  {
    && |rows| == n
    && (forall id :: id in rows ==> !rows[id].finished && exists i :: 0 <= i < n && writes[i].id == id)
  }

  lemma HoldsNext(rows: map<string, Record>, writes: seq<Record>, n: nat)
    requires n < |writes| && HoldsJust(rows, writes, n) && !writes[n].finished
    requires forall i :: 0 <= i < n ==> writes[i].id != writes[n].id
    ensures writes[n].id !in rows && HoldsJust(rows[writes[n].id := writes[n]], writes, n + 1)
  {
    SizeWith(rows, writes[n]);
    var more := rows[writes[n].id := writes[n]];
    forall id | id in more ensures !more[id].finished && exists i :: 0 <= i < n + 1 && writes[i].id == id {
      assert id !in rows ==> writes[n].id == id;
    }
  }

  /** Running tasks with ids of their own pile up, past any capacity. */
  lemma {:induction false} RunningTasksPileUp(writes: seq<Record>, n: nat)
    requires n <= |writes| && forall i :: 0 <= i < |writes| ==> !writes[i].finished
    requires forall i, j :: 0 <= i < j < |writes| ==> writes[i].id != writes[j].id
    ensures HoldsJust(After(writes, n).rows, writes, n)
  {
    if n > 0 {
      RunningTasksPileUp(writes, n - 1);
      AfterIsValid(writes, n - 1);
      var m := After(writes, n - 1);
      HoldsNext(m.rows, writes, n - 1);
      PutAddsOne(m, writes[n - 1]);
    }
  }

  lemma PutAddsOne(m: Memory, r: Record)
    requires Valid(m) && AllRunning(m) && r.id !in m.rows
    ensures Put(m, r).rows == m.rows[r.id := r]
  {
    if |m.order| < MEMORY_CAPACITY {
      RoomyPut(m, r);
    } else {
      var v := FullPut(m, r);
    }
  }

  /** The store as it changes in place. */
  class MemoryStore {
    var rows: map<string, Record>
    var order: seq<string>

    function State(): Memory
      reads this
    {
      Memory(rows, order)
    }

    constructor ()
      ensures State() == EMPTY
    {
      rows, order := map[], [];
    }

    method Write(r: Record)
      modifies this
      ensures State() == Put(old(State()), r)
    {
      if r.id !in rows {
        order := order + [r.id];
        while |order| > MEMORY_CAPACITY
          invariant EvictAll(State()) == EvictAll(old(State()).(order := old(order) + [r.id]))
          decreases |order|
        {
          var victim := FindVictim();
          var id := order[victim];
          order := order[..victim] + order[victim + 1..];
          rows := rows - {id};
        }
      }
      rows := rows[r.id := r];
    }

    method FindVictim() returns (v: nat)
      requires order != []
      ensures v == FirstFrom(rows, order, 0)
    {
      v := 0;
      while v < |order|
        invariant v <= |order| && FirstFrom(rows, order, 0) == FirstFrom(rows, order, v)
      {
        if order[v] !in rows || rows[order[v]].finished {
          return;
        }
        v := v + 1;
      }
      v := 0;
    }
  }
}
