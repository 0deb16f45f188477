/** What the documentation promises and the code does not give: inputs on which it fails, and the
    exact conditions under which it holds. */
module Promises {
  import opened Accounting
  import opened Flush
  import opened Options
  import opened Proto
  import opened Protocol
  import opened QueueInvariants
  import opened Reports
  import opened Runs
  import Client = Settings

  // ---- `flush`: that every entry reached the operating system (src/queue.rs:163-165) -----------

  lemma {:induction false} OnlyOnce(accepted: seq<Entry>, e: Entry)
    requires Numbered(accepted)
    ensures multiset(accepted)[e] <= 1
    ensures multiset(accepted)[e] == 1 ==> e.id < |accepted|
  {
    if accepted != [] {
      var front, last := accepted[..|accepted| - 1], accepted[|accepted| - 1];
      assert accepted == front + [last];
      OnlyOnce(front, e);
    }
  }

  /** A settled entry was written exactly if it can be sent and was lost to no overflow. */
  lemma SettledHow(cfg: Config, s: State, e: Entry)
    requires Numbered(s.h.accepted) && Partition(s) && Sorted(cfg, s) && e in Settled(s.h)
    ensures e in s.h.written <==>
      cfg.frame(e.record).Some? && e !in s.h.evicted && e !in s.h.refused
  {
    OnlyOnce(s.h.accepted, e);
    InSettled(s.h, e);
    var w, v, r := multiset(s.h.written), multiset(s.h.evicted), multiset(s.h.refused);
    assert Settled(s.h)[e] <= multiset(s.h.accepted)[e];
    assert Settled(s.h)[e] == w[e] + multiset(s.h.discarded)[e] + v[e] + r[e];
    assert e in s.h.written <==> w[e] > 0;
    assert (e in s.h.evicted <==> v[e] > 0) && (e in s.h.refused <==> r[e] > 0);
  }

  predicate AllWritten(s: State, mark: nat)
    requires mark <= |s.h.accepted|
  {
    forall i :: 0 <= i < mark ==> s.h.accepted[i] in s.h.written
  }

  predicate AllSendable(cfg: Config, s: State, mark: nat)
    requires mark <= |s.h.accepted|
  {
    forall i :: 0 <= i < mark ==> cfg.frame(s.h.accepted[i].record).Some?
  }

  predicate NoneLost(s: State, mark: nat)
    requires mark <= |s.h.accepted|
  {
    forall i :: 0 <= i < mark ==> s.h.accepted[i] !in s.h.evicted && s.h.accepted[i] !in s.h.refused
  }

  predicate FlushedTrue(s: State, t: nat) {
    s.Thread(t).FlushReturned? && s.Thread(t).drained
  }

  /** After a `flush` that returned true, all that was accepted before the call has been written
      exactly if all of it can be sent and none of it was lost to an overflow. */
  lemma FlushWrittenIff(cfg: Config, s: State, t: nat)
    requires Reachable(cfg, s) && FlushedTrue(s, t)
    ensures s.Thread(t).mark <= |s.h.accepted|
    ensures var mark := s.Thread(t).mark;
      AllWritten(s, mark) <==> AllSendable(cfg, s, mark) && NoneLost(s, mark)
  {
    InvReachable(cfg, s);
    var mark := s.Thread(t).mark;
    forall i | 0 <= i < mark
      ensures var e := s.h.accepted[i];
        e in s.h.written <==> cfg.frame(e.record).Some? && e !in s.h.evicted && e !in s.h.refused
    {
      SettledHow(cfg, s, s.h.accepted[i]);
    }
  }

  /** So a caller that sees no drops, or that has logged no more entries than the queue holds, can
      tell from the entries alone. */
  lemma FlushWrittenWithoutDrops(cfg: Config, s: State, t: nat)
    requires Reachable(cfg, s) && FlushedTrue(s, t)
    requires s.q.dropped == 0 || |s.h.accepted| <= s.q.capacity
    ensures s.Thread(t).mark <= |s.h.accepted|
    ensures AllWritten(s, s.Thread(t).mark) <==> AllSendable(cfg, s, s.Thread(t).mark)
  {
    InvReachable(cfg, s);
    FlushWrittenIff(cfg, s, t);
    assert s.h.evicted == [] && s.h.refused == [];
  }

  const SOME_RECORD := Record(0, "", "", "", "", "", [], "", "")

  // ---- Reaching particular states -------------------------------------------------------------

  lemma Go(cfg: Config, s: State, a: Action) returns (s': State)
    requires Reachable(cfg, s) && Enabled(cfg, s, a)
    ensures Reachable(cfg, s') && s' == Step(cfg, s, a)
  {
    ReachableStep(cfg, s, a);
    s' := Step(cfg, s, a);
  }

  lemma Start(cfg: Config) returns (s: State)
    ensures Reachable(cfg, s) && s == Init(cfg)
  {
    s := Init(cfg);
    assert Legal(cfg, s, []) && Exec(cfg, s, []) == s;
  }

  /** The worker connected, its banner sent, and nothing logged. */
  function Connected(cfg: Config): State {
    Init(cfg).(pc := Inner, conns := [Conn(cfg.banner, true, [], [])],
               h := Init(cfg).h.(attempt := Alive))
  }

  /** The first connect under way at its first address, at the beginning of time. */
  lemma FirstAttempt(cfg: Config, addresses: nat) returns (s: State)
    requires 1 <= addresses <= Addresses(cfg)
    ensures Reachable(cfg, s)
    ensures s == Init(cfg).(pc := Connecting(cfg.connectTimeout, 0, 0, 0, addresses - 1),
                            h := Init(cfg).h.(attempt := Alive))
  {
    s := FirstLookup(cfg);
    s := Go(cfg, s, WorkerStep(Resolved(addresses)));
  }

  lemma FirstLookup(cfg: Config) returns (s: State)
    ensures Reachable(cfg, s)
    ensures s == Init(cfg).(pc := Resolving(cfg.connectTimeout, 0), h := Init(cfg).h.(attempt := Alive))
  {
    s := Start(cfg);
    s := Go(cfg, s, WorkerStep(Proceed));
    s := Go(cfg, s, WorkerStep(Proceed));
  }

  lemma Connect(cfg: Config) returns (s: State)
    ensures Reachable(cfg, s) && s == Connected(cfg)
  {
    s := FirstAttempt(cfg, 1);
    s := Go(cfg, s, WorkerStep(Proceed));
    assert s.pc == WriteBanner && s.conns == [Conn([], false, [], [])];
    FirstBanner(cfg, s);
    s := Go(cfg, s, WorkerStep(Proceed));
  }

  lemma FirstBanner(cfg: Config, s: State)
    requires s.pc == WriteBanner && s.conns == [Conn([], false, [], [])]
    ensures StepWorker(cfg, s, Proceed) == s.(pc := Inner, conns := [Conn(cfg.banner, true, [], [])])
  {
    assert [] + cfg.banner == cfg.banner;
  }

  /** One entry logged on that connection, by a thread that has still to notify, ... */
  function Logged(cfg: Config, r: Record): State {
    var s := Connected(cfg);
    s.(q := s.q.(items := [Entry(0, r)]), threads := map[0 := PushNotify(None)],
       h := s.h.(accepted := [Entry(0, r)]))
  }

  /** ... and taken by the worker. */
  function Taken(cfg: Config, r: Record): State {
    var s := Logged(cfg, r);
    s.(q := s.q.(items := [], busy := true), pc := WriteEntry(Entry(0, r)))
  }

  lemma LogEntry(cfg: Config, r: Record) returns (s: State)
    ensures Reachable(cfg, s) && s == Logged(cfg, r)
  {
    s := Connect(cfg);
    s := Go(cfg, s, LogCall(0, r));
  }

  lemma TakeEntry(cfg: Config, r: Record) returns (s: State)
    ensures Reachable(cfg, s) && s == Taken(cfg, r)
  {
    s := LogEntry(cfg, r);
    s := Go(cfg, s, WorkerStep(Proceed));
    assert s == Logged(cfg, r).(pc := PopCall);
    s := Go(cfg, s, WorkerStep(Proceed));
  }

  /** A `flush` returns true although nothing was written: the one entry could not be sent. */
  lemma FlushWithoutWriting(cfg: Config, r: Record) returns (s: State)
    requires cfg.frame(r).None?
    ensures Reachable(cfg, s) && s.Thread(1) == FlushReturned(1, true)
    ensures s.h.accepted == [Entry(0, r)] && s.h.written == [] && s.q.dropped == 0
  {
    s := TakeEntry(cfg, r);
    s := Go(cfg, s, WorkerStep(Proceed));
    assert s.pc == Finish(NextEntry) && s.h.written == [];
    s := Go(cfg, s, WorkerStep(Proceed));
    assert Q.Drained(s.q);
    s := Go(cfg, s, FlushCall(1));
    s := Go(cfg, s, FlushLook(1, false));
  }

  /** The same at a concrete configuration and record. */
  lemma FlushCounterexample() returns (settings: Client.Settings, s: State)
    ensures Reachable(settings.ToConfig(), s)
    ensures s.Thread(1) == FlushReturned(1, true) && |s.h.accepted| == 1 && s.h.written == []
  {
    settings := Client.Settings([], 1, true, 0, 0, Literal, (o: Object) => None);
    Unsendable(settings, SOME_RECORD);
    s := FlushWithoutWriting(settings.ToConfig(), SOME_RECORD);
  }

  lemma Unsendable(settings: Client.Settings, r: Record)
    requires settings.serialize(JsonOf(r)) == None
    ensures settings.ToConfig().frame(r) == None
  {}

  // ---- A dropped total: that the queue was full (src/client.rs:266-275) ------------------------

  /** A call of `log` is told a total, the next one, exactly if shutdown is set or the queue is full. */
  lemma LogToldIff(cfg: Config, s: State, t: nat, r: Record)
    requires Enabled(cfg, s, LogCall(t, r))
    ensures var told := Owes(Step(cfg, s, LogCall(t, r)), Logger(t));
      && (told.Some? <==> s.q.shutdown || |s.q.items| >= s.q.capacity)
      && (told.Some? ==> told.value == s.q.dropped + 1)
  {}

  /** A full queue is reported although it is empty: the client was closed. */
  lemma FullReportedWhenEmpty(cfg: Config, r: Record) returns (s: State)
    ensures Reachable(cfg, s) && s.Thread(1) == PushReport(1)
    ensures s.q.items == [] && |s.q.items| < s.q.capacity
    ensures s.q.dropped == 1 && s.h.evicted == s.h.refused == []
  {
    s := Start(cfg);
    s := Go(cfg, s, CloseCall(0));
    s := Go(cfg, s, LogCall(1, r));
  }

  // ---- `dropped_count`: that the queue was full (src/client.rs:338-343) ------------------------

  /** The calls of `log` in a run that came after shutdown. */
  function LateLogs(cfg: Config, s: State, run: seq<Action>): nat
    requires Legal(cfg, s, run)
    decreases |run|
  {
    if run == [] then 0
    else (if run[0].LogCall? && s.q.shutdown then 1 else 0) + LateLogs(cfg, Step(cfg, s, run[0]), run[1..])
  }

  lemma LateStep(cfg: Config, s: State, a: Action)
    requires Enabled(cfg, s, a)
    ensures Step(cfg, s, a).h.late == s.h.late + if a.LogCall? && s.q.shutdown then 1 else 0
  {
    if a.WorkerStep? {
      LateWorker(cfg, s, a.outcome);
    }
  }

  lemma LateWorker(cfg: Config, s: State, o: Outcome)
    requires Possible(cfg, s, o)
    ensures StepWorker(cfg, s, o).h.late == s.h.late
  {}

  lemma {:induction false} LateCounted(cfg: Config, s: State, run: seq<Action>)
    requires Legal(cfg, s, run)
    ensures Exec(cfg, s, run).h.late == s.h.late + LateLogs(cfg, s, run)
    decreases |run|
  {
    if run != [] {
      LateStep(cfg, s, run[0]);
      LateCounted(cfg, Step(cfg, s, run[0]), run[1..]);
    }
  }

  /** After any run `dropped` is the number of entries lost to a full queue exactly if no call of
      `log` came after shutdown; each such call counts one more. */
  lemma DroppedCountIff(cfg: Config, run: seq<Action>)
    requires Legal(cfg, Init(cfg), run)
    ensures var s := Exec(cfg, Init(cfg), run);
      && s.q.dropped == |s.h.evicted| + |s.h.refused| + LateLogs(cfg, Init(cfg), run)
      && (s.q.dropped == |s.h.evicted| + |s.h.refused| <==> LateLogs(cfg, Init(cfg), run) == 0)
  {
    InvInit(cfg);
    InvExec(cfg, Init(cfg), run);
    LateCounted(cfg, Init(cfg), run);
  }

  // ---- A failed write: that it costs no entries (src/client.rs:433-434) ------------------------

  /** The entry of a failed write is kept exactly if the queue has room for it by then. */
  lemma FailedWriteKeepsIff(cfg: Config, s: State)
    requires Reachable(cfg, s) && s.pc.Requeue?
    ensures var e, s' := s.pc.entry, RequeueStep(s, s.pc.entry);
      && (e in s'.q.items <==> |s.q.items| < s.q.capacity)
      && (e in s'.q.items ==> s'.q.items == [e] + s.q.items && s'.q.dropped == s.q.dropped)
      && (e !in s'.q.items ==> s'.q.items == s.q.items && s'.h.refused == s.h.refused + [e])
  {
    InvReachable(cfg, s);
    HandNotQueued(s.q, s.pc.entry, s.h.accepted, Lost(s));
  }

  lemma HandNotQueued(q: Q.State<Entry>, e: Entry, accepted: seq<Entry>, lost: seq<Entry>)
    requires TailOf(q, [e], accepted, lost)
    ensures e !in q.items
  {
    var head := Head(q, accepted);
    assert forall i :: 0 <= i < |q.items| ==> q.items[i] == accepted[head + i];
  }

  /** A write can break off after any number of bytes short of the frame, and what was handed over
      stays on the connection. */
  lemma WriteBreaksOff(cfg: Config, r: Record, k: nat) returns (s: State)
    requires cfg.frame(r).Some? && k < |cfg.frame(r).value|
    ensures Reachable(cfg, s) && s.pc == Requeue(Entry(0, r)) && |s.conns| == 1
    ensures LastConn(s).bytes == cfg.banner + cfg.frame(r).value[..k] && s.h.written == []
  {
    s := TakeEntry(cfg, r);
    s := Go(cfg, s, WorkerStep(Fails(k)));
  }

  /** So can the write of the banner. */
  lemma BannerBreaksOff(cfg: Config, k: nat) returns (s: State)
    requires k < |cfg.banner|
    ensures Reachable(cfg, s) && s.pc == SleepCheck && |s.conns| == 1
    ensures LastConn(s).bytes == cfg.banner[..k]
  {
    s := FirstAttempt(cfg, 1);
    s := Go(cfg, s, WorkerStep(Proceed));
    assert s.pc == WriteBanner && s.conns == [Conn([], false, [], [])];
    s := Go(cfg, s, WorkerStep(Fails(k)));
    assert [] + cfg.banner[..k] == cfg.banner[..k];
  }

  /** It is lost if the queue fills up during the write. */
  lemma FailedWriteLoses(cfg: Config, r: Record) returns (s: State)
    requires cfg.frame(r).Some? && cfg.frame(r).value != []
    ensures Reachable(cfg, s) && s.h.refused == [Entry(0, r)] && s.q.dropped == 1
  {
    s := FillUp(cfg, r);
    s := Go(cfg, s, WorkerStep(Fails(0)));
    assert s.pc == Requeue(Entry(0, r)) && s.h.refused == [];
    s := Go(cfg, s, WorkerStep(Proceed));
  }

  lemma FillUp(cfg: Config, r: Record) returns (s: State)
    ensures Reachable(cfg, s) && s.pc == WriteEntry(Entry(0, r)) && s.conns != []
    ensures |s.q.items| == s.q.capacity && s.q.dropped == 0 && s.h.refused == []
  {
    var taken := TakeEntry(cfg, r);
    s := Fill(cfg, taken, r, 1, taken.q.capacity);
  }

  /** Logging from ever new threads while the worker stays where it is. */
  lemma {:induction false} Fill(cfg: Config, s: State, r: Record, t: nat, n: nat) returns (s': State)
    requires Reachable(cfg, s) && !s.q.shutdown && |s.q.items| + n <= s.q.capacity
    requires forall u <- s.threads :: u < t
    ensures Reachable(cfg, s') && |s'.q.items| == |s.q.items| + n
    ensures s'.pc == s.pc && s'.conns == s.conns && s'.h.refused == s.h.refused
    ensures s'.q.dropped == s.q.dropped && s'.q.capacity == s.q.capacity
    decreases n
  {
    s' := s;
    if n > 0 {
      s' := Go(cfg, s, LogCall(t, r));
      s' := Fill(cfg, s', r, t + 1, n - 1);
    }
  }
}
