// The bounded capture queue: kermp/native_capture.py.
module CaptureQueue {
  import opened Common

  datatype Item = Item(id: nat, thread: int, size: nat, hash: string)

  datatype Queue = Queue(capacity: nat, items: seq<Item>, dropped: nat, nextId: nat)

  // A full queue loses its oldest item to make room for the new one.
  function Pushed(q: Queue, thread: int, size: nat, hash: string): Queue
    requires q.capacity >= 1
  {
    var item := Item(q.nextId, thread, size, hash);
    if |q.items| == q.capacity then
      q.(items := q.items[1..] + [item], dropped := q.dropped + 1, nextId := q.nextId + 1)
    else
      q.(items := q.items + [item], nextId := q.nextId + 1)
  }

  function Taken(q: Queue): (Queue, Option<Item>) {
    if q.items == [] then (q, None) else (q.(items := q.items[1..]), Some(q.items[0]))
  }

  class CaptureQueue {
    const capacity: nat
    var items: seq<Item>
    var dropped: nat
    var nextId: nat

    ghost function Value(): Queue
      reads this
    {
      Queue(capacity, items, dropped, nextId)
    }

    ghost predicate Valid()
      reads this
    {
      capacity >= 1 && |items| <= capacity
    }

    // A capacity below one is refused by `Create`.
    constructor (capacity: nat)
      requires capacity >= 1
      ensures Valid() && Value() == Queue(capacity, [], 0, 1)
    {
      this.capacity := capacity;
      items, dropped, nextId := [], 0, 1;
    }

    static method Create(capacity: int) returns (r: Option<CaptureQueue>)
      ensures r.Some? <==> capacity >= 1
      ensures r.Some? ==> fresh(r.value) && r.value.Valid() && r.value.Value() == Queue(capacity, [], 0, 1)
    {
      if capacity < 1 {
        return None;
      }
      var queue := new CaptureQueue(capacity);
      return Some(queue);
    }

    method Push(thread: int, size: nat, hash: string) returns (item: Item)
      requires Valid()
      modifies this
      ensures Valid() && Value() == Pushed(old(Value()), thread, size, hash)
      ensures items != [] && items[|items| - 1] == item
    {
      if |items| == capacity {
        dropped := dropped + 1;
      }
      item := Item(nextId, thread, size, hash);
      nextId := nextId + 1;
      if |items| == capacity {
        items := items[1..];
      }
      items := items + [item];
    }

    method Take() returns (item: Option<Item>)
      requires Valid()
      modifies this
      ensures Valid() && (Value(), item) == Taken(old(Value()))
    {
      if items == [] {
        return None;
      }
      item := Some(items[0]);
      items := items[1..];
    }
  }

  // ---------------------------------------------------------------------- runs

  datatype Event = Push(thread: int, size: nat, hash: string) | Take

  // A queue together with all items taken from it, and all items it has dropped, so far.
  datatype Used = Used(queue: Queue, taken: seq<Item>, lost: seq<Item>)

  ghost function Step(u: Used, e: Event): Used
    requires u.queue.capacity >= 1
  {
    match e
    case Push(thread, size, hash) =>
      var isFull := |u.queue.items| == u.queue.capacity;
      u.(queue := Pushed(u.queue, thread, size, hash), lost := if isFull then u.lost + [u.queue.items[0]] else u.lost)
    case Take =>
      var (q, item) := Taken(u.queue);
      u.(queue := q, taken := if item.Some? then u.taken + [item.value] else u.taken)
  }

  ghost function Ids(items: seq<Item>): multiset<nat> {
    multiset(seq(|items|, i requires 0 <= i < |items| => items[i].id))
  }

  // The ids given out before this one.
  ghost function IssuedBefore(nextId: nat): multiset<nat> {
    if nextId <= 1 then multiset{} else IssuedBefore(nextId - 1) + multiset{nextId - 1}
  }

  lemma IdsAppend(items: seq<Item>, item: Item)
    ensures Ids(items + [item]) == Ids(items) + multiset{item.id}
  {
    var before := seq(|items|, i requires 0 <= i < |items| => items[i].id);
    var all := items + [item];
    assert seq(|all|, i requires 0 <= i < |all| => all[i].id) == before + [item.id];
  }

  lemma IdsOfRest(items: seq<Item>)
    requires items != []
    ensures Ids(items) == multiset{items[0].id} + Ids(items[1..])
  {
    var rest := seq(|items| - 1, i requires 0 <= i < |items| - 1 => items[1..][i].id);
    assert seq(|items|, i requires 0 <= i < |items| => items[i].id) == [items[0].id] + rest;
  }

  // Each id given out is that of exactly one item: taken, lost or still queued.
  ghost predicate Accounted(u: Used) {
    u.queue.nextId >= 1 && Ids(u.taken) + Ids(u.lost) + Ids(u.queue.items) == IssuedBefore(u.queue.nextId)
  }

  lemma TakeKeepsAccounts(u: Used)
    requires u.queue.capacity >= 1 && Accounted(u)
    ensures Accounted(Step(u, Take))
  {
    if u.queue.items != [] {
      IdsOfRest(u.queue.items);
      IdsAppend(u.taken, u.queue.items[0]);
    }
  }

  lemma PushKeepsAccounts(u: Used, e: Event)
    requires u.queue.capacity >= 1 && Accounted(u) && e.Push?
    ensures Accounted(Step(u, e))
  {
    var items, item := u.queue.items, Item(u.queue.nextId, e.thread, e.size, e.hash);
    if |items| == u.queue.capacity {
      IdsOfRest(items);
      IdsAppend(u.lost, items[0]);
      IdsAppend(items[1..], item);
    } else {
      IdsAppend(items, item);
    }
  }

  ghost predicate Inv(u: Used) {
    && |u.queue.items| <= u.queue.capacity
    && |u.lost| == u.queue.dropped
    && u.queue.nextId == 1 + |u.taken| + u.queue.dropped + |u.queue.items|
    && (forall i | 0 <= i < |u.queue.items| :: u.queue.items[i].id == u.queue.nextId - |u.queue.items| + i)
    && (forall i | 0 <= i < |u.taken| :: u.taken[i].id < u.queue.nextId - |u.queue.items|)
    && (forall i, j | 0 <= i < j < |u.taken| :: u.taken[i].id < u.taken[j].id)
  }

  ghost function After(capacity: nat, run: seq<Event>): (u: Used)
    requires capacity >= 1
    ensures u.queue.capacity == capacity
    decreases |run|
  {
    if run == [] then Used(Queue(capacity, [], 0, 1), [], [])
    else Step(After(capacity, run[..|run| - 1]), run[|run| - 1])
  }

  // Every id given out is in exactly one place: taken, dropped or queued.
  lemma {:induction false} EveryIdIsAccounted(capacity: nat, run: seq<Event>)
    requires capacity >= 1
    ensures Accounted(After(capacity, run))
    decreases |run|
  {
    if run != [] {
      EveryIdIsAccounted(capacity, run[..|run| - 1]);
      var u, e := After(capacity, run[..|run| - 1]), run[|run| - 1];
      if e.Push? {
        PushKeepsAccounts(u, e);
      } else {
        TakeKeepsAccounts(u);
      }
    }
  }

  // The queue holds the newest ids, without gaps; items are taken in the order of their ids; and
  // the counters count what was dropped and given out.
  lemma {:induction false} RunsKeepInv(capacity: nat, run: seq<Event>)
    requires capacity >= 1
    ensures Inv(After(capacity, run))
    decreases |run|
  {
    if run != [] {
      RunsKeepInv(capacity, run[..|run| - 1]);
    }
  }

  // An item is dropped exactly by a push into a full queue, and it is the oldest one.
  lemma DropsOnlyTheOldest(capacity: nat, run: seq<Event>, e: Event)
    requires capacity >= 1
    ensures var q, t := After(capacity, run).queue, Step(After(capacity, run), e).queue;
            && (t.dropped != q.dropped <==> e.Push? && |q.items| == capacity)
            && (e.Push? ==> t.items == (q.items + [Item(q.nextId, e.thread, e.size, e.hash)])
                  [|q.items| + 1 - |t.items|..])
            && |t.items| <= capacity
  {
    RunsKeepInv(capacity, run);
    var q := After(capacity, run).queue;
    if e.Push? && |q.items| == capacity {
      var item := Item(q.nextId, e.thread, e.size, e.hash);
      assert (q.items + [item])[1..] == q.items[1..] + [item];
    }
  }
}
