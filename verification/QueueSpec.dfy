/** The state behind the queue's mutex and what each lock section does to it (src/queue.rs). */
module QueueSpec {
  import opened Options

  type pos = n: nat | n >= 1 witness 1

  datatype State<T> = State(items: seq<T>, busy: bool, shutdown: bool, dropped: nat, capacity: pos)

  /** What `pop` found. */
  datatype Pop<T> = Item(entry: T) | Shutdown | Idle

  function New<T>(capacity: nat): State<T> {
    State([], false, false, 0, if capacity >= 1 then capacity else 1)
  }

  /** The state after `push`, and the dropped total that the caller is told, if any. */
  function Push<T>(s: State<T>, entry: T): (State<T>, Option<nat>) {
    if s.shutdown then (s.(dropped := s.dropped + 1), Some(s.dropped + 1))
    else if |s.items| >= s.capacity then
      (s.(items := s.items[1..] + [entry], dropped := s.dropped + 1), Some(s.dropped + 1))
    else (s.(items := s.items + [entry]), None)
  }

  function PushFront<T>(s: State<T>, entry: T): (State<T>, Option<nat>) {
    if |s.items| >= s.capacity then (s.(dropped := s.dropped + 1), Some(s.dropped + 1))
    else (s.(items := [entry] + s.items), None)
  }

  /** The condition on which `pop` sleeps. */
  predicate NothingToPop<T>(s: State<T>) {
    s.items == [] && !s.shutdown
  }

  /** The end of `pop`, once it stops waiting. */
  function Take<T>(s: State<T>): (State<T>, Pop<T>) {
    if s.items != [] then (s.(items := s.items[1..], busy := true), Item(s.items[0]))
    else (s, if s.shutdown then Shutdown else Idle)
  }

  /** The state after `finish`, and whether it will wake the flushers. */
  function Finish<T>(s: State<T>): (State<T>, bool) {
    (s.(busy := false), s.items == [])
  }

  predicate Drained<T>(s: State<T>) {
    s.items == [] && !s.busy
  }

  /** Putting back what was just taken restores the queue, order included. */
  lemma PushFrontUndoesTake<T>(s: State<T>)
    requires s.items != [] && |s.items| <= s.capacity
    ensures Take(s).1.Item?
    ensures PushFront(Take(s).0, Take(s).1.entry) == (s.(busy := true), None)
  {
    assert [s.items[0]] + s.items[1..] == s.items;
  }

  // ---- A burst of pushes ----------------------------------------------------------------------

  function PushAll<T>(s: State<T>, entries: seq<T>): State<T>
    decreases |entries|
  {
    if entries == [] then s else PushAll(Push(s, entries[0]).0, entries[1..])
  }

  function Newest<T>(entries: seq<T>, n: nat): seq<T> {
    if |entries| <= n then entries else entries[|entries| - n..]
  }

  /** A burst keeps the newest entries in order and counts every other one as dropped. */
  lemma {:induction false} BurstKeepsNewest<T>(s: State<T>, entries: seq<T>)
    requires !s.shutdown && |s.items| <= s.capacity
    ensures var s' := PushAll(s, entries);
      && s'.items == Newest(s.items + entries, s.capacity)
      && s'.dropped + |s'.items| == s.dropped + |s.items| + |entries|
    decreases |entries|
  {
    if entries == [] {
      assert s.items + entries == s.items;
    } else {
      var s1 := Push(s, entries[0]).0;
      BurstKeepsNewest(s1, entries[1..]);
      assert s.items + entries == s.items + [entries[0]] + entries[1..];
      if |s.items| >= s.capacity {
        var all := s.items + entries;
        assert s1.items + entries[1..] == all[1..];
      }
    }
  }
}
