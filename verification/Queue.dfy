/** The queue's guarded fields (src/queue.rs). */
module Queue {
  import opened Options
  import opened QueueSpec

  /** The guarded fields, updated in place. Each method is the body of one lock section; what
      happens after the lock is released belongs to the protocol. */
  class Queue<T(==)> {
    var items: seq<T>
    var busy: bool
    var shutdown: bool
    var dropped: nat
    const capacity: pos

    function Contents(): State<T>
      reads this
    {
      State(items, busy, shutdown, dropped, capacity)
    }

    constructor (capacity: nat)
      ensures Contents() == QueueSpec.New(capacity)
    {
      items, busy, shutdown, dropped := [], false, false, 0;
      this.capacity := if capacity >= 1 then capacity else 1;
    }

    method Push(entry: T) returns (total: Option<nat>)
      modifies this
      ensures (Contents(), total) == QueueSpec.Push(old(Contents()), entry)
    {
      if shutdown {
        dropped := dropped + 1;
        return Some(dropped);
      }
      total := None;
      if |items| >= capacity {
        items := items[1..];
        dropped := dropped + 1;
        total := Some(dropped);
      }
      items := items + [entry];
    }

    method PushFront(entry: T) returns (total: Option<nat>)
      modifies this
      ensures (Contents(), total) == QueueSpec.PushFront(old(Contents()), entry)
    {
      if |items| >= capacity {
        dropped := dropped + 1;
        return Some(dropped);
      }
      items := [entry] + items;
      return None;
    }

    method Take() returns (pop: Pop<T>)
      modifies this
      ensures (Contents(), pop) == QueueSpec.Take(old(Contents()))
    {
      if items != [] {
        pop := Item(items[0]);
        items := items[1..];
        busy := true;
      } else if shutdown {
        pop := Shutdown;
      } else {
        pop := Idle;
      }
    }

    method Finish() returns (idle: bool)
      modifies this
      ensures (Contents(), idle) == QueueSpec.Finish(old(Contents()))
    {
      busy := false;
      idle := items == [];
    }

    method RequestShutdown()
      modifies this
      ensures Contents() == old(Contents()).(shutdown := true)
    {
      shutdown := true;
    }

    method IsEmpty() returns (empty: bool)
      ensures empty <==> Contents().items == []
    {
      empty := items == [];
    }

    method IsShutdown() returns (requested: bool)
      ensures requested == Contents().shutdown
    {
      requested := shutdown;
    }

    /** The condition that `flush` waits for. */
    method IsDrained() returns (drained: bool)
      ensures drained <==> Drained(Contents())
    {
      drained := items == [] && !busy;
    }
  }
}
