/** How far the flush timeout bounds a connect and what is done after it (src/client.rs:368-370 and
    459-460): the exact conditions, and runs in which they are not met. */
module Deadlines {
  import opened Control
  import opened Options
  import opened Promises
  import opened Protocol
  import opened Runs
  import Accounting

  // ---- A connect that is under way when `close` is called --------------------------------------

  /** A run that begins with the first call of `close`. */
  predicate Closing(cfg: Config, s: State, run: seq<Action>) {
    !s.q.shutdown && run != [] && run[0].CloseCall? && Legal(cfg, s, run)
  }

  /** A connect that is still under way has not outlasted the flush timeout, counted from the call. */
  predicate InTime(cfg: Config, s: State, run: seq<Action>)
    requires Legal(cfg, s, run)
  {
    var s' := Exec(cfg, s, run);
    UnderWay(s'.pc) ==> s'.now <= s.now + cfg.flushTimeout
  }

  /** What src/client.rs:368-370 says of the attempts that a call of `close` meets, ... */
  ghost predicate AttemptsFit(cfg: Config) {
    forall s: State, run: seq<Action> ::
      Reachable(cfg, s) && s.pc.Connecting? && Closing(cfg, s, run) ==> InTime(cfg, s, run)
  }

  /** ... and of the whole connect, lookup included. */
  ghost predicate ConnectsFit(cfg: Config) {
    forall s: State, run: seq<Action> ::
      Reachable(cfg, s) && UnderWay(s.pc) && Closing(cfg, s, run) ==> InTime(cfg, s, run)
  }

  /** Points at which the time that a connect still takes is limited. */
  predicate Limited(cfg: Config, pc: WorkerPc) {
    pc.Connecting? || (pc.Resolving? && cfg.address.Literal?)
  }

  /** The latest time at which the last attempt ends. */
  function LatestEnd(s: State): nat
    requires UnderWay(s.pc)
  {
    if s.pc.Resolving? then s.now + s.pc.timeout else s.pc.started + (s.pc.left + 1) * s.pc.timeout
  }

  lemma OneMore(n: nat, timeout: nat)
    ensures (n + 1) * timeout == n * timeout + timeout >= timeout
  {}

  lemma NotPastEnd(cfg: Config, s: State)
    requires TimeoutKnown(cfg, s) && Limited(cfg, s.pc)
    ensures s.now <= LatestEnd(s)
  {
    if s.pc.Connecting? {
      OneMore(s.pc.left, s.pc.timeout);
    }
  }

  /** No step of the others puts the end off ... */
  lemma EndStaysOthers(cfg: Config, s: State, a: Action)
    requires Enabled(cfg, s, a) && !a.WorkerStep? && Limited(cfg, s.pc)
    ensures var s' := Step(cfg, s, a);
      s'.pc == s.pc && LatestEnd(s') == LatestEnd(s)
  {
    Accounting.OthersKeepPoint(cfg, s, a);
  }

  /** ... and no step of the worker, until the connect is over. */
  lemma EndStaysWorker(cfg: Config, s: State, o: Outcome)
    requires TimeoutKnown(cfg, s) && Possible(cfg, s, o) && Limited(cfg, s.pc)
    ensures var s' := StepWorker(cfg, s, o);
      s'.pc.WriteBanner? || s'.pc.SleepCheck? || (s'.pc.Connecting? && LatestEnd(s') <= LatestEnd(s))
  {
    if s.pc.Connecting? {
      OneMore(s.pc.left, s.pc.timeout);
    }
  }

  lemma OverForGood(cfg: Config, s: State, a: Action)
    requires Enabled(cfg, s, a) && s.q.shutdown && !BeforeConnect(s.pc) && !UnderWay(s.pc)
    ensures !BeforeConnect(Step(cfg, s, a).pc) && !UnderWay(Step(cfg, s, a).pc)
  {
    if a.WorkerStep? {
      OverForWorker(cfg, s, a.outcome);
    } else {
      Accounting.OthersKeepPoint(cfg, s, a);
    }
  }

  lemma OverForWorker(cfg: Config, s: State, o: Outcome)
    requires Possible(cfg, s, o) && s.q.shutdown && !BeforeConnect(s.pc) && !UnderWay(s.pc)
    ensures !BeforeConnect(StepWorker(cfg, s, o).pc) && !UnderWay(StepWorker(cfg, s, o).pc)
  {}

  lemma {:induction false} EndsBy(cfg: Config, s: State, run: seq<Action>, end: nat)
    requires Controlled(cfg, s) && s.q.shutdown && Legal(cfg, s, run)
    requires !BeforeConnect(s.pc)
    requires UnderWay(s.pc) ==> Limited(cfg, s.pc) && LatestEnd(s) <= end
    ensures UnderWay(Exec(cfg, s, run).pc) ==> Exec(cfg, s, run).now <= end
    decreases |run|
  {
    if run == [] {
      if UnderWay(s.pc) {
        NotPastEnd(cfg, s);
      }
    } else {
      var a, s' := run[0], Step(cfg, s, run[0]);
      ControlledStep(cfg, s, a);
      ShutdownStays(cfg, s, a);
      if !UnderWay(s.pc) {
        OverForGood(cfg, s, a);
      } else if a.WorkerStep? {
        EndStaysWorker(cfg, s, a.outcome);
      } else {
        EndStaysOthers(cfg, s, a);
      }
      EndsBy(cfg, s', run[1..], end);
    }
  }

  lemma Product(a: nat, b: nat, c: nat)
    requires a <= b
    ensures a * c <= b * c
  {}

  /** Without a deadline a connect ends when every address has had the configured timeout. */
  lemma EndWithoutDeadline(cfg: Config, s: State)
    requires Reachable(cfg, s) && Limited(cfg, s.pc) && !s.q.shutdown
    ensures LatestEnd(s) <= s.now + Addresses(cfg) * cfg.connectTimeout
  {
    InvReachable(cfg, s);
    if s.pc.Connecting? {
      Product(s.pc.left + 1, Addresses(cfg), cfg.connectTimeout);
    }
  }

  lemma LimitedInTime(cfg: Config, s: State, run: seq<Action>)
    requires Reachable(cfg, s) && Limited(cfg, s.pc) && Closing(cfg, s, run)
    requires Addresses(cfg) * cfg.connectTimeout <= cfg.flushTimeout
    ensures InTime(cfg, s, run)
  {
    var s1 := Step(cfg, s, run[0]);
    EndWithoutDeadline(cfg, s);
    InvReachable(cfg, s);
    ControlledStep(cfg, s, run[0]);
    EndsBy(cfg, s1, run[1..], s.now + cfg.flushTimeout);
  }

  /** The attempts that a call of `close` meets end within the flush timeout of the call exactly if
      the connect timeout, once for every address, is at most the flush timeout. */
  lemma AttemptsFitIff(cfg: Config)
    ensures AttemptsFit(cfg) <==> Addresses(cfg) * cfg.connectTimeout <= cfg.flushTimeout
  {
    var most := Addresses(cfg) * cfg.connectTimeout;
    if most <= cfg.flushTimeout {
      forall s: State, run: seq<Action> | Reachable(cfg, s) && s.pc.Connecting? && Closing(cfg, s, run)
        ensures InTime(cfg, s, run)
      {
        LimitedInTime(cfg, s, run);
      }
    } else {
      var s, run := CloseOutlasts(cfg, most);
      assert !InTime(cfg, s, run);
    }
  }

  /** The whole connect, lookup included, ends within the flush timeout of the call exactly if the
      address needs no lookup and the connect timeout is at most the flush timeout. */
  lemma ConnectsFitIff(cfg: Config)
    ensures ConnectsFit(cfg) <==> cfg.address.Literal? && cfg.connectTimeout <= cfg.flushTimeout
  {
    if cfg.address.HostName? {
      var s, run := LookupOutlasts(cfg, cfg.flushTimeout + 1);
      assert !InTime(cfg, s, run);
    } else if cfg.connectTimeout <= cfg.flushTimeout {
      forall s: State, run: seq<Action> | Reachable(cfg, s) && UnderWay(s.pc) && Closing(cfg, s, run)
        ensures InTime(cfg, s, run)
      {
        LimitedInTime(cfg, s, run);
      }
    } else {
      var s, run := CloseOutlasts(cfg, cfg.connectTimeout);
      assert !InTime(cfg, s, run);
    }
  }

  const ONE_SECOND: nat := 1000 * ONE_MILLISECOND
  const DEFAULT_FLUSH_TIMEOUT := 5 * ONE_SECOND
  const DEFAULT_CONNECT_TIMEOUT := 10 * ONE_SECOND

  /** The defaults do not meet the condition. */
  lemma DefaultsDoNotFit(cfg: Config)
    requires cfg.flushTimeout == DEFAULT_FLUSH_TIMEOUT && cfg.connectTimeout == DEFAULT_CONNECT_TIMEOUT
    ensures !ConnectsFit(cfg)
  {
    ConnectsFitIff(cfg);
  }

  // ---- Runs in which it lasts longer ----------------------------------------------------------

  /** Trying one address after the other for some time. */
  lemma {:induction false} TryFor(cfg: Config, s: State, wait: nat) returns (run: seq<Action>)
    requires s.pc.Connecting? && s.now == s.pc.started
    requires wait <= (s.pc.left + 1) * s.pc.timeout
    ensures Legal(cfg, s, run)
    ensures var s' := Exec(cfg, s, run);
      s'.pc.Connecting? && s' == s.(pc := s'.pc, now := s.now + wait)
    decreases s.pc.left
  {
    var timeout := s.pc.timeout;
    if wait <= timeout {
      run := [Tick(wait)];
      RunOne(cfg, s, Tick(wait));
    } else {
      OneMore(s.pc.left, timeout);
      assert s.pc.left > 0;
      var s1 := Step(cfg, s, Tick(timeout));
      var s2 := Step(cfg, s1, WorkerStep(Fails(0)));
      var rest := TryFor(cfg, s2, wait - timeout);
      ExecCons(cfg, s1, WorkerStep(Fails(0)), rest);
      ExecCons(cfg, s, Tick(timeout), [WorkerStep(Fails(0))] + rest);
      run := [Tick(timeout)] + ([WorkerStep(Fails(0))] + rest);
    }
  }

  lemma RunOne(cfg: Config, s: State, a: Action)
    requires Enabled(cfg, s, a)
    ensures Legal(cfg, s, [a]) && Exec(cfg, s, [a]) == Step(cfg, s, a)
  {
    assert [a][1..] == [];
  }

  /** One more step of a run. */
  lemma Extend(cfg: Config, s: State, run: seq<Action>, a: Action) returns (run': seq<Action>)
    requires run != [] && Legal(cfg, s, run) && Enabled(cfg, Exec(cfg, s, run), a)
    ensures run' == run + [a] && run'[0] == run[0] && Legal(cfg, s, run')
    ensures Exec(cfg, s, run') == Step(cfg, Exec(cfg, s, run), a)
  {
    ExecSnoc(cfg, s, run, a);
    run' := run + [a];
  }

  /** `close` called and waiting for the worker to end. */
  lemma CallClose(cfg: Config, s: State) returns (run: seq<Action>)
    requires !s.q.shutdown && s.Thread(0) == Outside && !s.handleTaken && UnderWay(s.pc)
    ensures Closing(cfg, s, run)
    ensures var s' := Exec(cfg, s, run);
      && s'.Thread(0) == CloseJoin && s'.q.shutdown && s'.pc == s.pc && s'.now == s.now
      && s'.deadline == s.deadline
  {
    RunOne(cfg, s, CloseCall(0));
    run := [CloseCall(0)];
    run := Extend(cfg, s, run, CloseStep(0));
    assert Exec(cfg, s, run).Thread(0) == CloseNotifyDrained;
    run := Extend(cfg, s, run, CloseStep(0));
    run := Extend(cfg, s, run, CloseStep(0));
  }

  /** `close` waits for a connect that was under way when it was called, for any time up to the
      connect timeout for every address. */
  lemma CloseOutlasts(cfg: Config, wait: nat) returns (s: State, run: seq<Action>)
    requires wait <= Addresses(cfg) * cfg.connectTimeout
    ensures Reachable(cfg, s) && s.pc.Connecting? && Closing(cfg, s, run)
    ensures var s' := Exec(cfg, s, run);
      && s'.Thread(0) == CloseJoin && s'.now == s.now + wait
      && s'.pc.Connecting? && s'.deadline == None && s'.q.shutdown
  {
    s := FirstAttempt(cfg, Addresses(cfg));
    var call := CallClose(cfg, s);
    var rest := TryFor(cfg, Exec(cfg, s, call), wait);
    ExecAppend(cfg, s, call, rest);
    run := call + rest;
  }

  /** It waits for the lookup of a name for any time. */
  lemma LookupOutlasts(cfg: Config, wait: nat) returns (s: State, run: seq<Action>)
    requires cfg.address.HostName?
    ensures Reachable(cfg, s) && s.pc.Resolving? && Closing(cfg, s, run)
    ensures var s' := Exec(cfg, s, run);
      s'.Thread(0) == CloseJoin && s'.now == s.now + wait && s'.pc.Resolving?
  {
    s := FirstLookup(cfg);
    run := CallClose(cfg, s);
    run := Extend(cfg, s, run, Tick(wait));
  }

  /** The deadline is counted from the worker's first look after the call, not from the call: it can
      be later by all the time that the connect takes. */
  lemma DeadlineArmedLate(cfg: Config, wait: nat) returns (s: State, run: seq<Action>)
    requires cfg.flushOnClose && wait <= Addresses(cfg) * cfg.connectTimeout
    ensures Reachable(cfg, s) && Closing(cfg, s, run)
    ensures Exec(cfg, s, run).deadline == Some(s.now + wait + cfg.flushTimeout)
  {
    s, run := ConnectAfter(cfg, wait);
    LookAndArm(cfg, Exec(cfg, s, run));
    run := Extend(cfg, s, run, WorkerStep(Proceed));
    run := Extend(cfg, s, run, WorkerStep(Proceed));
  }

  lemma LookAndArm(cfg: Config, s: State)
    requires s.pc == Inner && s.q.shutdown && cfg.flushOnClose && s.deadline.None?
    ensures Step(cfg, s, WorkerStep(Proceed)) == s.(pc := InnerArm)
    ensures Step(cfg, s.(pc := InnerArm), WorkerStep(Proceed))
      == s.(pc := InnerExpired, deadline := Some(s.now + cfg.flushTimeout))
  {}

  lemma ConnectAfter(cfg: Config, wait: nat) returns (s: State, run: seq<Action>)
    requires wait <= Addresses(cfg) * cfg.connectTimeout
    ensures Reachable(cfg, s) && Closing(cfg, s, run)
    ensures var s' := Exec(cfg, s, run);
      s'.pc == Inner && s'.q.shutdown && s'.now == s.now + wait && s'.deadline == None
  {
    s, run := CloseOutlasts(cfg, wait);
    run := Extend(cfg, s, run, WorkerStep(Proceed));
    assert Exec(cfg, s, run).pc == WriteBanner;
    run := Extend(cfg, s, run, WorkerStep(Proceed));
  }

  // ---- A connect with a deadline in force -----------------------------------------------------

  /** A connect with a deadline in force is over a millisecond after it, or after its own start if
      that came later; the time that the lookup took comes on top. */
  predicate Held(s: State) {
    s.pc.Connecting? && s.deadline.Some? ==>
      var begin := if s.pc.chosen > s.deadline.value then s.pc.chosen else s.deadline.value;
      s.now <= begin + ONE_MILLISECOND + (s.pc.resolved - s.pc.chosen)
  }

  /** That is so exactly if there is one address, or no deadline is ever in force at a connect: each
      further address is given the whole timeout again. */
  lemma DeadlineHeldIff(cfg: Config)
    ensures (forall s: State :: Reachable(cfg, s) ==> Held(s))
      <==> Addresses(cfg) == 1 || !cfg.flushOnClose || cfg.flushTimeout == 0
  {
    if Addresses(cfg) == 1 || !cfg.flushOnClose || cfg.flushTimeout == 0 {
      forall s: State | Reachable(cfg, s) ensures Held(s) {
        InvReachable(cfg, s);
        if s.pc.Connecting? {
          AttemptBounded(cfg, s);
        }
      }
    } else {
      var s := SecondAddressLate(cfg);
      assert !Held(s);
    }
  }

  lemma SecondAddressLate(cfg: Config) returns (s: State)
    requires Addresses(cfg) > 1 && cfg.flushOnClose && cfg.flushTimeout > 0
    ensures Reachable(cfg, s) && s.pc.Connecting? && s.deadline == Some(cfg.flushTimeout)
    ensures s.pc.chosen == s.pc.resolved == cfg.flushTimeout
    ensures s.now == cfg.flushTimeout + 2 * ONE_MILLISECOND
  {
    s := ConnectAtDeadline(cfg);
    s := Go(cfg, s, WorkerStep(Resolved(2)));
    s := Go(cfg, s, Tick(ONE_MILLISECOND));
    s := Go(cfg, s, WorkerStep(Fails(0)));
    assert s.pc.Connecting? && s.pc.started == s.now;
    s := Go(cfg, s, Tick(ONE_MILLISECOND));
  }

  lemma ConnectAtDeadline(cfg: Config) returns (s: State)
    requires cfg.flushOnClose && cfg.flushTimeout > 0
    ensures Reachable(cfg, s) && s.pc == Resolving(ONE_MILLISECOND, cfg.flushTimeout)
    ensures s.now == cfg.flushTimeout && s.deadline == Some(cfg.flushTimeout)
  {
    s := ArmAtTop(cfg);
    s := Go(cfg, s, WorkerStep(Proceed));
    assert s.pc == ConnectStart;
    s := Go(cfg, s, Tick(cfg.flushTimeout));
    s := Go(cfg, s, WorkerStep(Proceed));
  }

  lemma ArmAtTop(cfg: Config) returns (s: State)
    requires cfg.flushOnClose
    ensures Reachable(cfg, s) && s.pc == TopExpired && s.now == 0 && s.deadline == Some(cfg.flushTimeout)
  {
    s := Start(cfg);
    s := Go(cfg, s, LogCall(0, SOME_RECORD));
    s := Go(cfg, s, CloseCall(1));
    s := Go(cfg, s, WorkerStep(Proceed));
    assert s.pc == TopEmpty && |s.q.items| == 1;
    s := Go(cfg, s, WorkerStep(Proceed));
    s := Go(cfg, s, WorkerStep(Proceed));
  }

  // ---- The checks between steps ---------------------------------------------------------------

  /** A `pop` does start after the deadline: the worker checks it, and then it passes. */
  lemma LatePopHappens(cfg: Config) returns (s: State)
    requires cfg.flushOnClose && cfg.flushTimeout > 0
    ensures Reachable(cfg, s) && Expired(s) && s.pc == PopCall
    ensures Legal(cfg, s, [WorkerStep(Proceed)]) && StartsAt(cfg, s, [WorkerStep(Proceed)], PopCall) == 1
  {
    s := ArmDeadline(cfg);
    s := Go(cfg, s, WorkerStep(Proceed));
    s := Go(cfg, s, Tick(cfg.flushTimeout));
  }

  lemma ArmDeadline(cfg: Config) returns (s: State)
    requires cfg.flushOnClose
    ensures Reachable(cfg, s) && s.pc == InnerExpired && s.q.shutdown && s.now == 0
    ensures s.deadline == Some(cfg.flushTimeout)
  {
    s := Connect(cfg);
    s := Go(cfg, s, CloseCall(0));
    LookAndArm(cfg, s);
    s := Go(cfg, s, WorkerStep(Proceed));
    s := Go(cfg, s, WorkerStep(Proceed));
  }
}
