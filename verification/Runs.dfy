/** The invariants together, and what follows for every run. */
module Runs {
  import opened Accounting
  import opened Connections
  import opened Control
  import opened Flush
  import opened Options
  import opened Proto
  import opened Protocol
  import opened QueueInvariants
  import opened Reports
  import opened Wakeups
  import Closers
  import C = Channel
  import Q = QueueSpec

  ghost predicate Inv(cfg: Config, s: State) {
    && Tail(cfg, s) && Partition(s) && Counted(s) && Sorted(cfg, s)
    && DrainedHeard(s) && WorkHeard(s)
    && OneReportEach(s)
    && Carried(cfg, s)
    && Controlled(cfg, s)
    && PromisesKept(s)
    && Overrun(s)
    && Closers.JoinKept(s)
  }

  lemma InvInit(cfg: Config)
    ensures Inv(cfg, Init(cfg))
  {
    TailInit(cfg);
    AccountingInit(cfg);
    HeardInit(cfg);
    OneReportInit(cfg);
    CarriedInit(cfg);
    ControlledInit(cfg);
    Closers.JoinInit(cfg);
  }

  lemma InvStep(cfg: Config, s: State, a: Action)
    requires Inv(cfg, s) && Enabled(cfg, s, a)
    ensures Inv(cfg, Step(cfg, s, a))
  {
    TailStep(cfg, s, a);
    PartitionStep(cfg, s, a);
    CountedStep(cfg, s, a);
    SortedStep(cfg, s, a);
    DrainedHeardStep(cfg, s, a);
    WorkHeardStep(cfg, s, a);
    OneReportStep(cfg, s, a);
    CarriedStep(cfg, s, a);
    ControlledStep(cfg, s, a);
    PromisesStep(cfg, s, a);
    OverrunStep(cfg, s, a);
    Closers.JoinStep(cfg, s, a);
  }

  lemma {:induction false} InvExec(cfg: Config, s: State, run: seq<Action>)
    requires Inv(cfg, s) && Legal(cfg, s, run)
    ensures Inv(cfg, Exec(cfg, s, run))
    decreases |run|
  {
    if run != [] {
      InvStep(cfg, s, run[0]);
      InvExec(cfg, Step(cfg, s, run[0]), run[1..]);
    }
  }

  lemma InvReachable(cfg: Config, s: State)
    requires Reachable(cfg, s)
    ensures Inv(cfg, s)
  {
    var run: seq<Action> :| Legal(cfg, Init(cfg), run) && Exec(cfg, Init(cfg), run) == s;
    InvInit(cfg);
    InvExec(cfg, Init(cfg), run);
  }

  lemma {:induction false} ExecSnoc(cfg: Config, s: State, run: seq<Action>, a: Action)
    requires Legal(cfg, s, run) && Enabled(cfg, Exec(cfg, s, run), a)
    ensures Legal(cfg, s, run + [a])
    ensures Exec(cfg, s, run + [a]) == Step(cfg, Exec(cfg, s, run), a)
    decreases |run|
  {
    if run == [] {
      assert run + [a] == [a] && [a][1..] == [];
    } else {
      assert (run + [a])[1..] == run[1..] + [a];
      ExecSnoc(cfg, Step(cfg, s, run[0]), run[1..], a);
    }
  }

  lemma ExecCons(cfg: Config, s: State, a: Action, rest: seq<Action>)
    requires Enabled(cfg, s, a) && Legal(cfg, Step(cfg, s, a), rest)
    ensures Legal(cfg, s, [a] + rest) && Exec(cfg, s, [a] + rest) == Exec(cfg, Step(cfg, s, a), rest)
  {
    assert ([a] + rest)[1..] == rest;
  }

  lemma {:induction false} ExecAppend(cfg: Config, s: State, a: seq<Action>, b: seq<Action>)
    requires Legal(cfg, s, a) && Legal(cfg, Exec(cfg, s, a), b)
    ensures Legal(cfg, s, a + b) && Exec(cfg, s, a + b) == Exec(cfg, Exec(cfg, s, a), b)
    decreases |a|
  {
    if a == [] {
      assert a + b == b;
    } else {
      var s' := Step(cfg, s, a[0]);
      ExecAppend(cfg, s', a[1..], b);
      ExecCons(cfg, s, a[0], a[1..] + b);
      assert a + b == [a[0]] + (a[1..] + b);
    }
  }

  lemma ReachableStep(cfg: Config, s: State, a: Action)
    requires Reachable(cfg, s) && Enabled(cfg, s, a)
    ensures Reachable(cfg, Step(cfg, s, a))
  {
    var run: seq<Action> :| Legal(cfg, Init(cfg), run) && Exec(cfg, Init(cfg), run) == s;
    ExecSnoc(cfg, Init(cfg), run, a);
  }

  // ---- Theorems about reachable states --------------------------------------------------------

  /** Drop-oldest survives requeueing. */
  lemma DropOldest(cfg: Config, s: State)
    requires Reachable(cfg, s)
    ensures |s.q.items| <= s.q.capacity == if cfg.capacity == 0 then 1 else cfg.capacity
    ensures |s.q.items| <= |s.h.accepted|
    ensures s.q.items == s.h.accepted[|s.h.accepted| - |s.q.items|..]
    ensures Hand(s.pc) != [] && |s.q.items| < s.q.capacity ==>
      |s.q.items| < |s.h.accepted| && Hand(s.pc)[0] == s.h.accepted[|s.h.accepted| - |s.q.items| - 1]
  {
    InvReachable(cfg, s);
  }

  /** No queued entry is older than any entry lost to an overflow. */
  lemma QueuedAreNewer(cfg: Config, s: State, lost: Entry, kept: Entry)
    requires Reachable(cfg, s)
    requires (lost in s.h.evicted || lost in s.h.refused) && kept in s.q.items
    ensures lost.id < kept.id
  {
    InvReachable(cfg, s);
    assert lost in Lost(s);
    NewestIds(s.q, s.h.accepted, kept);
  }

  lemma NewestIds(q: Q.State<Entry>, accepted: seq<Entry>, kept: Entry)
    requires Numbered(accepted) && Newest(q, accepted) && kept in q.items
    ensures kept.id >= Head(q, accepted)
  {
    var i :| 0 <= i < |q.items| && q.items[i] == kept;
    assert kept == accepted[Head(q, accepted) + i];
  }

  function LogCalls(s: State): nat {
    |s.h.accepted| + s.h.late
  }

  /** Every call of `log` is accounted for once. */
  lemma Conservation(cfg: Config, s: State)
    requires Reachable(cfg, s)
    ensures LogCalls(s) ==
      |s.h.written| + |s.h.discarded| + s.q.dropped + |s.q.items| + |Hand(s.pc)|
    ensures multiset(s.h.accepted) ==
      multiset(s.h.written) + multiset(s.h.discarded) + multiset(s.h.evicted) + multiset(s.h.refused)
      + multiset(Hand(s.pc)) + multiset(s.q.items)
    ensures forall i, j :: 0 <= i < j < |s.h.accepted| ==> s.h.accepted[i] != s.h.accepted[j]
  {
    InvReachable(cfg, s);
    assert |multiset(s.h.accepted)| == |s.h.accepted|;
    forall i, j | 0 <= i < j < |s.h.accepted|
      ensures s.h.accepted[i] != s.h.accepted[j]
    {
      assert s.h.accepted[i].id == i && s.h.accepted[j].id == j;
    }
  }

  /** A flusher asleep on `drained` while the queue is drained is about to be notified, by the
      worker. */
  lemma NoLostDrained(cfg: Config, s: State, t: nat)
    requires Reachable(cfg, s) && s.Thread(t).FlushAsleep? && Q.Drained(s.q)
    ensures s.pc.FinishNotify?
    ensures forall o :: Possible(cfg, s, o) ==> StepWorker(cfg, s, o).Thread(t).FlushCheck?
  {
    InvReachable(cfg, s);
  }

  /** The worker asleep on `work` with something to do is about to be notified, by a logging thread
      or a closer. */
  lemma NoLostWork(cfg: Config, s: State) returns (a: Action)
    requires Reachable(cfg, s)
    requires (s.pc.PopAsleep? && s.q.items != []) || ((s.pc.PopAsleep? || s.pc.SleepAsleep?) && s.q.shutdown)
    ensures a.LogNotify? || a.CloseStep?
    ensures Enabled(cfg, s, a) && !Step(cfg, s, a).pc.PopAsleep? && !Step(cfg, s, a).pc.SleepAsleep?
  {
    InvReachable(cfg, s);
    a := PendingNotifier(cfg, s);
  }

  lemma PendingNotifier(cfg: Config, s: State) returns (a: Action)
    requires WorkHeard(s)
    requires (s.pc.PopAsleep? && s.q.items != []) || ((s.pc.PopAsleep? || s.pc.SleepAsleep?) && s.q.shutdown)
    ensures a.LogNotify? || a.CloseStep?
    ensures Enabled(cfg, s, a) && !Step(cfg, s, a).pc.PopAsleep? && !Step(cfg, s, a).pc.SleepAsleep?
  {
    if s.q.shutdown {
      var t :| t in s.threads && s.threads[t].CloseNotifyWork?;
      a := CloseStep(t);
    } else {
      var t :| t in s.threads && s.threads[t].PushNotify?;
      a := LogNotify(t);
    }
  }

  /** The dropped totals reported, and those that some caller has still to report, are 1 to
      `dropped`, each once. */
  lemma ReportsExact(cfg: Config, s: State, n: nat)
    requires Reachable(cfg, s)
    ensures 1 <= n <= s.q.dropped <==> n in s.h.reports || exists c: Caller :: Owes(s, c) == Some(n)
    ensures forall c, d: Caller :: Owes(s, c) == Owes(s, d) == Some(n) ==> c == d
    ensures forall c: Caller :: Owes(s, c) == Some(n) ==> n !in s.h.reports
    ensures Distinct(s.h.reports)
  {
    InvReachable(cfg, s);
    TotalsCovered(s, n);
  }

  /** What a look of `flush` comes to, told by the entries and the worker alone: it returns true
      exactly if the client is done with everything it accepted and the worker is not between `pop`
      and `finish`; otherwise it returns false once its time is up, and sleeps before. */
  lemma FlushLookExact(cfg: Config, s: State, t: nat, giveUp: bool)
    requires Reachable(cfg, s) && Enabled(cfg, s, FlushLook(t, giveUp))
    ensures var mark := s.Thread(t).mark;
      var done := multiset(s.h.accepted) == Settled(s.h) && !HoldsQueue(s.pc);
      Step(cfg, s, FlushLook(t, giveUp)).Thread(t) ==
        if done then FlushReturned(mark, true)
        else if giveUp then FlushReturned(mark, false) else FlushAsleep(mark)
  {
    InvReachable(cfg, s);
    DoneIffDrained(cfg, s);
  }

  lemma DoneIffDrained(cfg: Config, s: State)
    requires Tail(cfg, s) && Partition(s)
    ensures multiset(s.h.accepted) == Settled(s.h) && !HoldsQueue(s.pc) <==> Q.Drained(s.q)
  {
    assert |multiset(s.h.accepted)| == |Settled(s.h)| + |multiset(Hand(s.pc))| + |multiset(s.q.items)|;
  }

  predicate Flushing(pc: ThreadPc) {
    pc.FlushCheck? || pc.FlushAsleep? || pc.FlushReturned?
  }

  predicate NoLeave(run: seq<Action>, t: nat) {
    forall a <- run :: a != Leave(t)
  }

  lemma MarkStep(cfg: Config, s: State, t: nat, a: Action)
    requires Enabled(cfg, s, a) && Flushing(s.Thread(t)) && a != Leave(t)
    ensures var pc := Step(cfg, s, a).Thread(t);
      Flushing(pc) && pc.mark == s.Thread(t).mark
  {
    if a.Tick? || a.WorkerWake? || a.WorkerStep? || t != a.thread {
      OtherThreads(cfg, s, a, t);
    }
  }

  lemma {:induction false} MarkKept(cfg: Config, s: State, t: nat, run: seq<Action>)
    requires Legal(cfg, s, run) && Flushing(s.Thread(t)) && NoLeave(run, t)
    ensures var pc := Exec(cfg, s, run).Thread(t);
      Flushing(pc) && pc.mark == s.Thread(t).mark
    decreases |run|
  {
    if run != [] {
      assert run[0] in run && forall a <- run[1..] :: a in run;
      MarkStep(cfg, s, t, run[0]);
      MarkKept(cfg, Step(cfg, s, run[0]), t, run[1..]);
    }
  }

  /** Over any run from a call of `flush` to its return: what it promises is about all that had been
      accepted when it was called. */
  lemma FlushCoversCall(cfg: Config, s: State, t: nat, run: seq<Action>)
    requires Reachable(cfg, s) && run != [] && run[0] == FlushCall(t) && NoLeave(run, t)
    requires Legal(cfg, s, run) && Exec(cfg, s, run).Thread(t).FlushReturned?
    ensures var s' := Exec(cfg, s, run);
      && s'.Thread(t).mark == |s.h.accepted|
      && (s'.Thread(t).drained ==>
            forall e <- s.h.accepted ::
              e in s'.h.written || e in s'.h.discarded || e in s'.h.evicted || e in s'.h.refused)
  {
    var s', s1 := Exec(cfg, s, run), Step(cfg, s, run[0]);
    assert forall a <- run[1..] :: a in run;
    MarkKept(cfg, s1, t, run[1..]);
    ReachableRun(cfg, s, run);
    HistoryGrows(cfg, s, run);
    if s'.Thread(t).drained {
      FlushSound(cfg, s', t);
    }
  }

  lemma {:induction false} ReachableRun(cfg: Config, s: State, run: seq<Action>)
    requires Reachable(cfg, s) && Legal(cfg, s, run)
    ensures Reachable(cfg, Exec(cfg, s, run))
    decreases |run|
  {
    if run != [] {
      ReachableStep(cfg, s, run[0]);
      ReachableRun(cfg, Step(cfg, s, run[0]), run[1..]);
    }
  }

  lemma {:induction false} HistoryGrows(cfg: Config, s: State, run: seq<Action>)
    requires Legal(cfg, s, run)
    ensures s.h.accepted <= Exec(cfg, s, run).h.accepted
    decreases |run|
  {
    if run != [] {
      ExtendsStep(cfg, s, run[0]);
      HistoryGrows(cfg, Step(cfg, s, run[0]), run[1..]);
    }
  }

  /** A `flush` that returned true kept its promise for everything accepted before the call. */
  lemma FlushSound(cfg: Config, s: State, t: nat)
    requires Reachable(cfg, s) && s.Thread(t).FlushReturned? && s.Thread(t).drained
    ensures s.Thread(t).mark <= |s.h.accepted|
    ensures forall i :: 0 <= i < s.Thread(t).mark ==>
      var e := s.h.accepted[i];
      e in s.h.written || e in s.h.discarded || e in s.h.evicted || e in s.h.refused
  {
    InvReachable(cfg, s);
    forall i | 0 <= i < s.Thread(t).mark
      ensures var e := s.h.accepted[i];
        e in s.h.written || e in s.h.discarded || e in s.h.evicted || e in s.h.refused
    {
      InSettled(s.h, s.h.accepted[i]);
    }
  }

  /** Until the worker is gone, the first call of `close` waits for it: one thread at most, after
      shutdown, and no call returns as having joined. */
  lemma FirstCloseJoins(cfg: Config, s: State)
    requires Reachable(cfg, s) && s.handleTaken && !s.pc.Exited?
    ensures s.q.shutdown
    ensures exists t <- s.threads :: s.threads[t] == CloseJoin
    ensures forall t, u :: s.Thread(t) == s.Thread(u) == CloseJoin ==> t == u
    ensures forall t :: s.Thread(t) != CloseReturned(true)
  {
    InvReachable(cfg, s);
    assert forall t :: s.Thread(t) != Outside ==> t in s.threads && s.Thread(t) == s.threads[t];
  }

  /** Every call of `close` sets shutdown, and only one that found the handle taken returns without
      joining. */
  lemma CloseCallsSet(cfg: Config, s: State, t: nat)
    requires Reachable(cfg, s) && Closers.Closing(s.Thread(t))
    ensures s.q.shutdown
    ensures Closers.Took(s.Thread(t)) ==> s.handleTaken
  {
    InvReachable(cfg, s);
    assert t in s.threads && s.threads[t] == s.Thread(t);
  }

  /** Once a `close` has joined the worker nothing is in hand: every call of `log` ended up written,
      discarded, dropped, or left in the queue. */
  lemma CloseSound(cfg: Config, s: State, t: nat)
    requires Reachable(cfg, s) && s.Thread(t) == CloseReturned(true)
    ensures s.pc.Exited? && !s.q.busy
    ensures LogCalls(s) == |s.h.written| + |s.h.discarded| + s.q.dropped + |s.q.items|
  {
    InvReachable(cfg, s);
    Conservation(cfg, s);
  }

  /** The worker leaves entries behind only if draining is off, the deadline passed, or the latest
      attempt failed and its reconnect delay was cut short. */
  lemma ExitLeavesEntries(cfg: Config, s: State)
    requires Reachable(cfg, s) && s.pc.Exited?
    ensures s.q.shutdown
    ensures s.q.items != [] ==>
      || (s.pc.why == NoDrain && !cfg.flushOnClose)
      || (s.pc.why == DeadlinePassed && s.deadline.Some? && s.now >= s.deadline.value)
      || (s.pc.why == SleepInterrupted && Failed(s.h.attempt))
    ensures s.q.items == [] ==> SettledUpTo(s.h, |s.h.accepted|)
  {
    InvReachable(cfg, s);
    if s.q.items == [] {
      DrainedSettles(cfg, s);
    }
  }

  /** What was written, then what is in hand, then what is queued: accepted entries, in the order in
      which they were accepted, each at most once. */
  lemma WrittenInOrder(cfg: Config, s: State)
    requires Reachable(cfg, s)
    ensures var flow := s.h.written + (Hand(s.pc) + s.q.items);
      && (forall i, j :: 0 <= i < j < |flow| ==> flow[i].id < flow[j].id)
      && (forall e <- flow :: e.id < |s.h.accepted| && s.h.accepted[e.id] == e)
  {
    var run: seq<Action> :| Legal(cfg, Init(cfg), run) && Exec(cfg, Init(cfg), run) == s;
    InvInit(cfg);
    C.RunRefines(cfg, Init(cfg), run);
    assert C.Abstract(Init(cfg)) == C.EMPTY;
    C.InOrderAfter(C.EMPTY, C.RunEvents(cfg, Init(cfg), run));
  }

  // ---- Theorems about runs --------------------------------------------------------------------

  lemma DeadlineStepFixed(cfg: Config, s: State, a: Action)
    requires Enabled(cfg, s, a) && s.deadline.Some?
    ensures Step(cfg, s, a).deadline == s.deadline
  {}

  /** The flush deadline, once set, never moves. */
  lemma {:induction false} DeadlineFixed(cfg: Config, s: State, run: seq<Action>)
    requires Legal(cfg, s, run) && s.deadline.Some?
    ensures Exec(cfg, s, run).deadline == s.deadline
    decreases |run|
  {
    if run != [] {
      DeadlineStepFixed(cfg, s, run[0]);
      DeadlineFixed(cfg, Step(cfg, s, run[0]), run[1..]);
    }
  }

  /** It is set when the worker first looks after shutdown, to the flush timeout from then on. */
  lemma DeadlineArmed(cfg: Config, s: State, a: Action)
    requires Reachable(cfg, s) && Enabled(cfg, s, a)
    requires s.deadline.None? && Step(cfg, s, a).deadline.Some?
    ensures s.q.shutdown && cfg.flushOnClose
    ensures Step(cfg, s, a).deadline == Some(s.now + cfg.flushTimeout)
  {
    InvReachable(cfg, s);
    if a.WorkerStep? {
      ArmedByWorker(cfg, s, a.outcome);
    }
  }

  /** An attempt to connect has not outlasted its timeout. With a flush deadline in force the timeout
      ends at most a millisecond after the deadline, or after the start of the connect if that came
      later, counted from the start of the connect. */
  lemma AttemptBounded(cfg: Config, s: State)
    requires Reachable(cfg, s) && s.pc.Connecting?
    ensures s.pc.chosen <= s.pc.resolved <= s.pc.started <= s.now <= s.pc.started + s.pc.timeout
    ensures s.deadline.None? ==> s.pc.timeout == cfg.connectTimeout
    ensures s.deadline.Some? ==>
      && s.pc.timeout >= ONE_MILLISECOND
      && s.pc.chosen + s.pc.timeout <=
         (if s.pc.chosen > s.deadline.value then s.pc.chosen else s.deadline.value) + ONE_MILLISECOND
  {
    InvReachable(cfg, s);
  }

  function WorkerSteps(run: seq<Action>): nat {
    if run == [] then 0 else (if run[0].WorkerStep? then 1 else 0) + WorkerSteps(run[1..])
  }

  /** How many worker steps of a run start at a program point. */
  function StartsAt(cfg: Config, s: State, run: seq<Action>, pc: WorkerPc): nat
    requires Legal(cfg, s, run)
    decreases |run|
  {
    if run == [] then 0
    else
      (if run[0].WorkerStep? && s.pc == pc then 1 else 0)
      + StartsAt(cfg, Step(cfg, s, run[0]), run[1..], pc)
  }

  /** A lookup or an attempt to connect is under way. */
  predicate UnderWay(pc: WorkerPc) {
    pc.Resolving? || pc.Connecting?
  }

  /** The points at the start of the reconnect loop. */
  predicate BeforeConnect(pc: WorkerPc) {
    pc.Top? || pc.TopEmpty? || pc.TopArm? || pc.TopExpired? || pc.ConnectStart?
  }

  lemma ShutdownStays(cfg: Config, s: State, a: Action)
    requires Enabled(cfg, s, a) && s.q.shutdown
    ensures Step(cfg, s, a).q.shutdown
  {
    if a.WorkerStep? {
      KeepsShutdown(cfg, s, a.outcome);
    }
  }

  lemma NoReturn(cfg: Config, s: State, o: Outcome)
    requires Possible(cfg, s, o) && s.q.shutdown && (!BeforeConnect(s.pc) || s.pc.ConnectStart?)
    ensures !BeforeConnect(StepWorker(cfg, s, o).pc)
  {}

  /** Once shutdown is set, at most one connect starts, whatever happens: none if the worker is past
      that point, and one if it is about to start it and takes a step at all. */
  lemma {:induction false} OneLateConnect(cfg: Config, s: State, run: seq<Action>)
    requires Legal(cfg, s, run) && s.q.shutdown
    ensures StartsAt(cfg, s, run, ConnectStart) <= if BeforeConnect(s.pc) then 1 else 0
    ensures s.pc == ConnectStart ==>
      StartsAt(cfg, s, run, ConnectStart) == if WorkerSteps(run) > 0 then 1 else 0
    decreases |run|
  {
    if run != [] {
      ShutdownStays(cfg, s, run[0]);
      if !run[0].WorkerStep? {
        OthersKeepPoint(cfg, s, run[0]);
      } else if !BeforeConnect(s.pc) || s.pc.ConnectStart? {
        NoReturn(cfg, s, run[0].outcome);
      }
      OneLateConnect(cfg, Step(cfg, s, run[0]), run[1..]);
    }
  }

  lemma ExpiredStays(cfg: Config, s: State, a: Action)
    requires Enabled(cfg, s, a) && Expired(s)
    ensures Expired(Step(cfg, s, a))
  {
    if a.WorkerStep? {
      ExpiredWorker(cfg, s, a.outcome);
    }
  }

  lemma ExpiredWorker(cfg: Config, s: State, o: Outcome)
    requires Possible(cfg, s, o) && Expired(s)
    ensures Expired(StepWorker(cfg, s, o))
  {}

  lemma NoLatePop(cfg: Config, s: State, o: Outcome)
    requires Possible(cfg, s, o) && Expired(s) && s.q.shutdown
    ensures StepWorker(cfg, s, o).pc != PopCall
  {}

  lemma {:induction false} LatePops(cfg: Config, s: State, run: seq<Action>)
    requires Legal(cfg, s, run) && Expired(s) && s.q.shutdown
    ensures StartsAt(cfg, s, run, PopCall) == if s.pc == PopCall && WorkerSteps(run) > 0 then 1 else 0
    decreases |run|
  {
    if run != [] {
      ExpiredStays(cfg, s, run[0]);
      ShutdownStays(cfg, s, run[0]);
      if run[0].WorkerStep? {
        NoLatePop(cfg, s, run[0].outcome);
      } else {
        OthersKeepPoint(cfg, s, run[0]);
      }
      LatePops(cfg, Step(cfg, s, run[0]), run[1..]);
    }
  }

  /** Once the flush deadline has passed, exactly one `pop` still starts if the worker had already
      checked the deadline and takes a step at all, and none otherwise. */
  lemma OneLatePop(cfg: Config, s: State, run: seq<Action>)
    requires Reachable(cfg, s) && Legal(cfg, s, run) && Expired(s)
    ensures StartsAt(cfg, s, run, PopCall) == if s.pc == PopCall && WorkerSteps(run) > 0 then 1 else 0
  {
    InvReachable(cfg, s);
    LatePops(cfg, s, run);
  }

  // ---- What is logged -------------------------------------------------------------------------

  function Records(entries: seq<Entry>): seq<Record> {
    seq(|entries|, i requires 0 <= i < |entries| => entries[i].record)
  }

  /** The records of the calls of `log` that came before shutdown, in order. */
  function LoggedRecords(cfg: Config, s: State, run: seq<Action>): seq<Record>
    requires Legal(cfg, s, run)
    decreases |run|
  {
    if run == [] then []
    else
      (if run[0].LogCall? && !s.q.shutdown then [run[0].record] else [])
      + LoggedRecords(cfg, Step(cfg, s, run[0]), run[1..])
  }

  lemma LoggedStep(cfg: Config, s: State, a: Action)
    requires Enabled(cfg, s, a)
    ensures Records(Step(cfg, s, a).h.accepted) ==
      Records(s.h.accepted) + if a.LogCall? && !s.q.shutdown then [a.record] else []
  {
    if a.WorkerStep? {
      AcceptedWorker(cfg, s, a.outcome);
    }
  }

  lemma AcceptedWorker(cfg: Config, s: State, o: Outcome)
    requires Possible(cfg, s, o)
    ensures StepWorker(cfg, s, o).h.accepted == s.h.accepted
  {}

  /** The accepted entries hold the records logged before shutdown, all of them and in order. */
  lemma {:induction false} AcceptedAreLogged(cfg: Config, s: State, run: seq<Action>)
    requires Legal(cfg, s, run)
    ensures Records(Exec(cfg, s, run).h.accepted) == Records(s.h.accepted) + LoggedRecords(cfg, s, run)
    decreases |run|
  {
    if run != [] {
      LoggedStep(cfg, s, run[0]);
      AcceptedAreLogged(cfg, Step(cfg, s, run[0]), run[1..]);
    }
  }
}
