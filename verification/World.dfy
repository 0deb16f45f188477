/** What the worker meets: the shared queue, the other threads, the network and the clock. */
module World {
  import opened Options
  import opened Proto
  import opened Protocol
  import opened Settings
  import Queue
  import QueueSpec
  import Runs
  import Control
  import Termination

  /** Before each of its own steps the worker is interleaved with some steps of the others. The
      outcome says how the network or a timed wait turns out, where that is open. */
  datatype Turn = Turn(others: seq<Action>, outcome: Outcome)

  /** Steps that belong to other threads than the worker. */
  predicate Foreign(a: Action) {
    !a.WorkerStep? && !a.WorkerWake?
  }

  /** What the other threads cannot touch. */
  predicate Undisturbed(s: State, s': State) {
    && (s'.pc == s.pc || s'.pc == WakeWorker(s.pc))
    && s'.deadline == s.deadline && s'.conns == s.conns
    && (s.q.shutdown ==> s'.q.shutdown)
  }

  lemma ForeignStep(cfg: Config, s: State, a: Action)
    requires Enabled(cfg, s, a) && Foreign(a)
    ensures Undisturbed(s, Step(cfg, s, a))
  {}

  lemma ForeignQueue(cfg: Config, s: State, a: Action)
    requires Enabled(cfg, s, a) && Foreign(a) && !a.LogCall? && !a.CloseCall?
    ensures Step(cfg, s, a).q == s.q
  {}

  lemma ForeignThread(cfg: Config, s: State, a: Action, t: nat)
    requires Enabled(cfg, s, a) && Foreign(a) && (a.Tick? || a.thread != t)
    ensures s.Thread(t) == Outside ==> Step(cfg, s, a).Thread(t) == Outside
  {}

  /** After some turns of the others: a turn has been played, or the script is over, shutdown is
      requested, and nothing else happens any more. */
  predicate Later(turns: nat, s: State, turns': nat, s': State) {
    && (s.q.shutdown ==> s'.q.shutdown)
    && (turns' < turns || (turns == 0 == turns' && s'.q.shutdown && (s.q.shutdown ==> s' == s)))
  }

  /** What a step of the worker does to its remaining steps. */
  predicate Stepped(cfg: Config, s: State, s': State) {
    && s'.q.shutdown == s.q.shutdown
    && (s'.q.shutdown ==> Termination.Remaining(cfg, s') < Termination.Remaining(cfg, s))
  }

  /** Nearer to the end: another turn played, or else shutdown requested, or else the worker nearer
      to its exit. */
  predicate Nearer(cfg: Config, turns: nat, s: State, turns': nat, s': State) {
    && (s.q.shutdown ==> s'.q.shutdown)
    && (|| turns' < turns
        || (turns' == turns && s'.q.shutdown
            && (s.q.shutdown ==> Termination.Remaining(cfg, s') < Termination.Remaining(cfg, s))))
  }

  lemma AfterTurn(cfg: Config, turns: nat, s: State, turns': nat, s1: State, s2: State)
    requires Later(turns, s, turns', s1) && Stepped(cfg, s1, s2)
    ensures Nearer(cfg, turns, s, turns', s2)
  {}

  lemma NearerStill(cfg: Config, turns: nat, s: State, turns1: nat, s1: State, turns2: nat, s2: State)
    requires Nearer(cfg, turns, s, turns1, s1) && Nearer(cfg, turns1, s1, turns2, s2)
    ensures Nearer(cfg, turns, s, turns2, s2)
  {}

  class World {
    const settings: Settings
    const queue: Queue.Queue<Entry>
    /** The thread that closes the client when the script is over. */
    const closer: nat
    var script: seq<Turn>
    var s: State

    function Cfg(): Config {
      settings.ToConfig()
    }

    /** The state reached so far is a state of the protocol, and the queue object holds its queue. */
    ghost predicate Valid()
      reads this, queue
    {
      && Reachable(Cfg(), s)
      && queue.Contents() == s.q
      && (s.q.shutdown || s.Thread(closer) == Outside)
    }

    constructor (settings: Settings, script: seq<Turn>, closer: nat)
      ensures Valid() && fresh(queue) && s == Init(Cfg())
      ensures this.settings == settings && this.script == script && this.closer == closer
      ensures queue.capacity == if settings.bufferSize == 0 then 1 else settings.bufferSize
    {
      this.settings, this.script, this.closer := settings, script, closer;
      queue := new Queue.Queue<Entry>(settings.bufferSize);
      s := Init(settings.ToConfig());
      new;
      assert Legal(Cfg(), Init(Cfg()), []) && Exec(Cfg(), Init(Cfg()), []) == s;
    }

    /** A step of another thread, on the queue object and in the protocol. */
    method Play(a: Action)
      requires Valid() && Enabled(Cfg(), s, a) && Foreign(a)
      requires a.Tick? || a.thread != closer || a.CloseCall?
      modifies this`s, queue
      ensures Valid() && s == Step(Cfg(), old(s), a) && Undisturbed(old(s), s)
    {
      Runs.ReachableStep(Cfg(), s, a);
      ForeignStep(Cfg(), s, a);
      if a.Tick? || a.thread != closer {
        ForeignThread(Cfg(), s, a, closer);
      }
      if a.LogCall? {
        var total := queue.Push(Entry(|s.h.accepted|, a.record));
        s := LogPush(s, a.thread, a.record);
      } else if a.CloseCall? {
        queue.RequestShutdown();
        s := Step(Cfg(), s, a);
      } else if a.FlushLook? {
        var drained := queue.IsDrained();
        var mark := s.Thread(a.thread).mark;
        s := s.Set(a.thread, if drained || a.giveUp then FlushReturned(mark, drained) else FlushAsleep(mark));
      } else {
        ForeignQueue(Cfg(), s, a);
        s := Step(Cfg(), s, a);
      }
    }

    /** The other threads run for a while. When the script is over, the client is closed. */
    method Others() returns (outcome: Outcome)
      requires Valid()
      modifies this`s, this`script, queue
      ensures Valid() && Undisturbed(old(s), s) && Later(|old(script)|, old(s), |script|, s)
    {
      if script == [] {
        outcome := Proceed;
        if !s.q.shutdown {
          Play(CloseCall(closer));
        }
        return;
      }
      var others := script[0].others;
      outcome := script[0].outcome;
      script := script[1..];
      var i := 0;
      while i < |others|
        invariant Valid() && 0 <= i <= |others|
        invariant Undisturbed(old(s), s)
        invariant script == old(script)[1..]
      {
        var a := others[i];
        if Foreign(a) && (a.Tick? || a.thread != closer) && Enabled(Cfg(), s, a) {
          Play(a);
        }
        i := i + 1;
      }
    }

    /** A step of the worker, its work on the queue object done. */
    method Advance(outcome: Outcome)
      requires Reachable(Cfg(), s) && Possible(Cfg(), s, outcome)
      requires queue.Contents() == StepWorker(Cfg(), s, outcome).q
      requires s.q.shutdown || s.Thread(closer) == Outside
      modifies this`s
      ensures Valid() && s == StepWorker(Cfg(), old(s), outcome) && Stepped(Cfg(), old(s), s)
    {
      OwnStep(Cfg(), s, outcome, closer);
      s := StepWorker(Cfg(), s, outcome);
    }

    /** A step of the worker that does not look at the queue, after a turn of the others. */
    method Pass() returns (ghost before: State)
      requires Valid() && Plain(s.pc)
      modifies this`s, this`script, queue
      ensures Valid() && Nearer(Cfg(), |old(script)|, old(s), |script|, s)
      ensures Undisturbed(old(s), before) && s == StepWorker(Cfg(), before, Proceed)
    {
      var _ := Others();
      before := s;
      PlainStep(Cfg(), s);
      Advance(Proceed);
      AfterTurn(Cfg(), |old(script)|, old(s), |script|, before, s);
    }

    /** `is_shutdown`. */
    method IsShutdown() returns (requested: bool)
      requires Valid() && (s.pc == Top || s.pc == Inner)
      modifies this`s, this`script, queue
      ensures Valid() && Nearer(Cfg(), |old(script)|, old(s), |script|, s)
      ensures s.deadline == old(s.deadline)
      ensures requested == s.q.shutdown
      ensures s.pc ==
        if !requested then (if old(s.pc) == Top then ConnectStart else PopCall)
        else if !settings.flushOnClose then Exited(NoDrain)
        else (if old(s.pc) == Top then TopEmpty else InnerArm)
    {
      var _ := Others();
      ghost var before := s;
      requested := queue.IsShutdown();
      Advance(Proceed);
      AfterTurn(Cfg(), |old(script)|, old(s), |script|, before, s);
    }

    /** `is_empty`. */
    method IsEmpty() returns (empty: bool)
      requires Valid() && s.pc == TopEmpty
      modifies this`s, this`script, queue
      ensures Valid() && Nearer(Cfg(), |old(script)|, old(s), |script|, s)
      ensures s.deadline == old(s.deadline)
      ensures empty <==> s.q.items == []
      ensures s.pc == if empty then Exited(NothingQueued) else TopArm
    {
      var _ := Others();
      ghost var before := s;
      empty := queue.IsEmpty();
      Advance(Proceed);
      AfterTurn(Cfg(), |old(script)|, old(s), |script|, before, s);
    }

    /** Reading the clock for a deadline that is not set yet. */
    method Arm(deadline: Option<nat>) returns (armed: nat)
      requires Valid() && (s.pc == TopArm || s.pc == InnerArm) && deadline == s.deadline
      modifies this`s, this`script, queue
      ensures Valid() && Nearer(Cfg(), |old(script)|, old(s), |script|, s)
      ensures s.deadline == Some(armed)
      ensures armed == if deadline.Some? then deadline.value else s.now + settings.flushTimeout
      ensures s.pc == if old(s.pc) == TopArm then TopExpired else InnerExpired
    {
      ghost var before := Pass();
      armed := if deadline.Some? then deadline.value else s.now + settings.flushTimeout;
    }

    /** Reading the clock. */
    method Now() returns (now: nat)
      requires Valid() && (s.pc == TopExpired || s.pc == InnerExpired) && s.deadline.Some?
      modifies this`s, this`script, queue
      ensures Valid() && Nearer(Cfg(), |old(script)|, old(s), |script|, s)
      ensures s.deadline == old(s.deadline) && now == s.now
      ensures s.pc ==
        if now >= s.deadline.value then Exited(DeadlinePassed)
        else if old(s.pc) == TopExpired then ConnectStart else PopCall
    {
      ghost var before := Pass();
      now := s.now;
    }

    /** Reading the clock for the timeout of a connect, from which point the connect is under way. */
    method ChooseTimeout(deadline: Option<nat>) returns (timeout: nat)
      requires Valid() && s.pc == ConnectStart && deadline == s.deadline
      modifies this`s, this`script, queue
      ensures Valid() && Nearer(Cfg(), |old(script)|, old(s), |script|, s)
      ensures s.deadline == old(s.deadline)
      ensures s.pc == Resolving(timeout, s.now) && timeout == ConnectTimeout(Cfg(), deadline, s.now)
      ensures deadline.None? ==> timeout == settings.connectTimeout
      ensures timeout < settings.connectTimeout ==>
        deadline.Some? && s.now + timeout >= deadline.value
    {
      ghost var before := Pass();
      timeout := ConnectTimeout(Cfg(), deadline, s.now);
    }

    /** Looking up the addresses to try. */
    method Resolve() returns (addresses: Option<nat>)
      requires Valid() && s.pc.Resolving?
      modifies this`s, this`script, queue
      ensures Valid() && Nearer(Cfg(), |old(script)|, old(s), |script|, s)
      ensures s.deadline == old(s.deadline)
      ensures settings.address.Literal? ==> addresses == Some(1)
      ensures if addresses.Some? && addresses.value > 0
        then AtAttempt(s, old(s.pc.timeout), addresses.value - 1)
        else s.pc == SleepCheck
    {
      var outcome := Others();
      ghost var before := s;
      if settings.address.Literal? {
        outcome := Resolved(1);
      } else if !(outcome.Resolved? && outcome.addresses <= Addresses(Cfg())) {
        outcome := Fails(0);
      }
      addresses := if outcome.Resolved? then Some(outcome.addresses) else None;
      Advance(outcome);
      AfterTurn(Cfg(), |old(script)|, old(s), |script|, before, s);
    }

    /** Trying to connect to one address. A zero timeout is rejected by the system, so none is passed
        while a flush is under way. */
    method Attempt(timeout: nat) returns (ok: bool)
      requires Valid() && s.pc.Connecting? && s.pc.timeout == timeout
      requires s.deadline.Some? ==> timeout > 0
      modifies this`s, this`script, queue
      ensures Valid() && Nearer(Cfg(), |old(script)|, old(s), |script|, s)
      ensures s.deadline == old(s.deadline)
      ensures if ok then s.pc == WriteBanner
        else if old(s.pc.left) > 0 then AtAttempt(s, timeout, old(s.pc.left) - 1)
        else s.pc == SleepCheck
    {
      var outcome := Others();
      ghost var before := s;
      ok := !outcome.Fails?;
      Advance(if ok then Proceed else Fails(0));
      AfterTurn(Cfg(), |old(script)|, old(s), |script|, before, s);
    }

    /** `write_all` on the latest connection. */
    method WriteAll(buffer: seq<byte>) returns (ok: bool, ghost written: nat)
      requires Valid() && Expected(Cfg(), s.pc) == Some(buffer)
      modifies this`s, this`script, queue
      ensures Valid() && Nearer(Cfg(), |old(script)|, old(s), |script|, s)
      ensures s.deadline == old(s.deadline)
      ensures written <= |buffer| && (ok <==> written == |buffer|)
      ensures HandedOver(old(s.conns), s.conns, buffer[..written])
      ensures s.pc == AfterWrite(old(s.pc), ok)
    {
      var outcome := Others();
      ghost var before := s;
      ok := !(outcome.Fails? && outcome.written < |buffer|);
      if ok {
        outcome := Proceed;
      }
      written := if ok then |buffer| else outcome.written;
      WriteFacts(Cfg(), s, outcome, buffer, written);
      Advance(outcome);
      AfterTurn(Cfg(), |old(script)|, old(s), |script|, before, s);
    }

    /** Giving up on an entry that cannot be sent. */
    method Discard()
      requires Valid() && s.pc.WriteEntry? && Cfg().frame(s.pc.entry.record).None?
      modifies this`s, this`script, queue
      ensures Valid() && Nearer(Cfg(), |old(script)|, old(s), |script|, s)
      ensures s.deadline == old(s.deadline) && s.conns == old(s.conns)
      ensures s.pc == WorkerPc.Finish(NextEntry)
    {
      var _ := Others();
      ghost var before := s;
      DiscardFacts(Cfg(), s);
      Advance(Proceed);
      AfterTurn(Cfg(), |old(script)|, old(s), |script|, before, s);
    }

    /** One round of a wait: asleep until notified, timed out or awake for no reason. */
    method Sleep() returns (outcome: Outcome)
      requires Valid() && MustWait(s)
      modifies this`s, this`script, queue
      ensures Valid() && !s.pc.PopAsleep? && !s.pc.SleepAsleep?
      ensures s.pc == (if old(s.pc) == SleepCheck then SleepCheck else PopWoken)
      ensures s.deadline == old(s.deadline)
      ensures |script| < |old(script)| || (|old(script)| == |script| == 0 && s.q.shutdown)
    {
      SleepFacts(Cfg(), s);
      Advance(Proceed);
      outcome := Others();
      WakeUp();
    }

    /** The end of a wait, by a timeout or for no reason, unless a notification came first. */
    method WakeUp()
      requires Valid()
      modifies this`s
      ensures Valid() && s == old(s).(pc := WakeWorker(old(s).pc))
    {
      if s.pc == PopAsleep || s.pc == SleepAsleep {
        Runs.ReachableStep(Cfg(), s, Action.WorkerWake);
        s := s.(pc := WakeWorker(s.pc));
      }
    }

    /** `pop`: waiting under a timeout for an entry or for shutdown. */
    method Pop() returns (pop: QueueSpec.Pop<Entry>)
      requires Valid() && s.pc == PopCall
      modifies this`s, this`script, queue
      ensures Valid() && Nearer(Cfg(), |old(script)|, old(s), |script|, s)
      ensures s.deadline == old(s.deadline)
      ensures s.pc == AfterPop(pop)
    {
      var outcome := Others();
      while QueueSpec.NothingToPop(queue.Contents()) && outcome != TimedOut
        invariant Valid() && (s.pc == PopCall || s.pc == PopWoken)
        invariant s.deadline == old(s.deadline)
        invariant Later(|old(script)|, old(s), |script|, s)
        decreases |script|, if s.q.shutdown then 0 else 1
      {
        outcome := Sleep();
      }
      ghost var before := s;
      PopFacts(Cfg(), s, outcome == TimedOut);
      pop := queue.Take();
      Advance(if outcome == TimedOut then TimedOut else Proceed);
      AfterTurn(Cfg(), |old(script)|, old(s), |script|, before, s);
    }

    /** `sleep_or_shutdown`: the reconnect delay. */
    method SleepOrShutdown() returns (requested: bool)
      requires Valid() && s.pc == SleepCheck
      modifies this`s, this`script, queue
      ensures Valid() && Nearer(Cfg(), |old(script)|, old(s), |script|, s)
      ensures s.deadline == old(s.deadline)
      ensures requested == s.q.shutdown
      ensures s.pc == if requested then Exited(SleepInterrupted) else Top
    {
      var outcome := Others();
      while !queue.shutdown && outcome != TimedOut
        invariant Valid() && s.pc == SleepCheck
        invariant s.deadline == old(s.deadline)
        invariant Later(|old(script)|, old(s), |script|, s)
        decreases |script|, if s.q.shutdown then 0 else 1
      {
        outcome := Sleep();
      }
      ghost var before := s;
      requested := queue.shutdown;
      Advance(if outcome == TimedOut then TimedOut else Proceed);
      AfterTurn(Cfg(), |old(script)|, old(s), |script|, before, s);
    }

    /** `push_front`, notification included. */
    method PushFront(e: Entry) returns (refused: Option<nat>)
      requires Valid() && s.pc == Requeue(e)
      modifies this`s, this`script, queue
      ensures Valid() && Nearer(Cfg(), |old(script)|, old(s), |script|, s)
      ensures s.deadline == old(s.deadline)
      ensures s.pc == WorkerPc.Finish(Reconnect(refused))
    {
      refused := PushFrontLocked(e);
      if refused.None? {
        ghost var turns, locked := |script|, s;
        ghost var before := Pass();
        NearerStill(Cfg(), |old(script)|, old(s), turns, locked, |script|, s);
      }
    }

    /** The lock section of `push_front`. */
    method PushFrontLocked(e: Entry) returns (refused: Option<nat>)
      requires Valid() && s.pc == Requeue(e)
      modifies this`s, this`script, queue
      ensures Valid() && Nearer(Cfg(), |old(script)|, old(s), |script|, s)
      ensures s.deadline == old(s.deadline)
      ensures s.pc == if refused.Some? then WorkerPc.Finish(Reconnect(refused)) else RequeueNotify
    {
      var _ := Others();
      ghost var before := s;
      refused := queue.PushFront(e);
      Advance(Proceed);
      AfterTurn(Cfg(), |old(script)|, old(s), |script|, before, s);
    }

    /** `finish`, notification included. */
    method Finish(after: After)
      requires Valid() && s.pc == WorkerPc.Finish(after)
      modifies this`s, this`script, queue
      ensures Valid() && Nearer(Cfg(), |old(script)|, old(s), |script|, s)
      ensures s.deadline == old(s.deadline)
      ensures s.pc == Resume(after)
    {
      var idle := FinishLocked(after);
      if idle {
        ghost var turns, locked := |script|, s;
        ghost var before := Pass();
        NearerStill(Cfg(), |old(script)|, old(s), turns, locked, |script|, s);
      }
    }

    /** The lock section of `finish`. */
    method FinishLocked(after: After) returns (idle: bool)
      requires Valid() && s.pc == WorkerPc.Finish(after)
      modifies this`s, this`script, queue
      ensures Valid() && Nearer(Cfg(), |old(script)|, old(s), |script|, s)
      ensures s.deadline == old(s.deadline)
      ensures s.pc == if idle then FinishNotify(after) else Resume(after)
    {
      var _ := Others();
      ghost var before := s;
      idle := queue.Finish();
      Advance(Proceed);
      AfterTurn(Cfg(), |old(script)|, old(s), |script|, before, s);
    }

    /** Reporting that the queue was full when an entry was to be put back. */
    method Report(total: nat)
      requires Valid() && s.pc == ReportRefused(total)
      modifies this`s, this`script, queue
      ensures Valid() && Nearer(Cfg(), |old(script)|, old(s), |script|, s)
      ensures s.deadline == old(s.deadline)
      ensures s.pc == SleepCheck && total in s.h.reports
    {
      ghost var before := Pass();
    }
  }

  /** An attempt to connect is under way, with `left` addresses after it. */
  predicate AtAttempt(s: State, timeout: nat, left: nat) {
    s.pc.Connecting? && s.pc.timeout == timeout && s.pc.left == left
  }

  /** Program points from which one step leads on, whatever the queue holds. */
  predicate Plain(pc: WorkerPc) {
    || pc.TopArm? || pc.TopExpired? || pc.InnerArm? || pc.InnerExpired? || pc.ConnectStart?
    || pc.RequeueNotify? || pc.FinishNotify? || pc.ReportRefused?
  }

  lemma PlainStep(cfg: Config, s: State)
    requires Plain(s.pc)
    ensures Possible(cfg, s, Proceed) && StepWorker(cfg, s, Proceed).q == s.q
  {}

  /** Where the worker goes to sleep: `pop` without an entry, the reconnect delay without shutdown. */
  predicate MustWait(s: State) {
    || ((s.pc == PopCall || s.pc == PopWoken) && QueueSpec.NothingToPop(s.q))
    || (s.pc == SleepCheck && !s.q.shutdown)
  }

  lemma SleepFacts(cfg: Config, s: State)
    requires MustWait(s)
    ensures Possible(cfg, s, Proceed)
    ensures StepWorker(cfg, s, Proceed) == s.(pc := if s.pc == SleepCheck then SleepAsleep else PopAsleep)
  {}

  lemma PopFacts(cfg: Config, s: State, timedOut: bool)
    requires s.pc == PopCall || s.pc == PopWoken
    requires QueueSpec.NothingToPop(s.q) ==> timedOut
    ensures var o := if timedOut then TimedOut else Proceed;
      && Possible(cfg, s, o)
      && StepWorker(cfg, s, o) == s.(q := QueueSpec.Take(s.q).0, pc := AfterPop(QueueSpec.Take(s.q).1))
  {}

  lemma DiscardFacts(cfg: Config, s: State)
    requires Reachable(cfg, s) && s.pc.WriteEntry? && cfg.frame(s.pc.entry.record).None?
    ensures Possible(cfg, s, Proceed)
    ensures var s' := StepWorker(cfg, s, Proceed);
      && s'.q == s.q && s'.deadline == s.deadline && s'.conns == s.conns
      && s'.pc == WorkerPc.Finish(NextEntry)
  {
    Runs.InvReachable(cfg, s);
  }

  lemma WorkerThread(cfg: Config, s: State, o: Outcome, t: nat)
    requires Possible(cfg, s, o) && s.Thread(t) == Outside
    ensures StepWorker(cfg, s, o).Thread(t) == Outside
  {}

  lemma OwnStep(cfg: Config, s: State, o: Outcome, t: nat)
    requires Reachable(cfg, s) && Possible(cfg, s, o)
    ensures var s' := StepWorker(cfg, s, o);
      && Reachable(cfg, s')
      && s'.q.shutdown == s.q.shutdown
      && (s.Thread(t) == Outside ==> s'.Thread(t) == Outside)
      && (s.q.shutdown ==> Termination.Remaining(cfg, s') < Termination.Remaining(cfg, s))
  {
    Runs.ReachableStep(cfg, s, WorkerStep(o));
    Control.KeepsShutdown(cfg, s, o);
    if s.Thread(t) == Outside {
      WorkerThread(cfg, s, o, t);
    }
    if s.q.shutdown {
      Termination.WorkerStepRemaining(cfg, s, o);
    }
  }

  /** The buffer that is to be written at a program point. */
  function Expected(cfg: Config, pc: WorkerPc): Option<seq<byte>> {
    match pc
    case WriteBanner => Some(cfg.banner)
    case WriteEntry(e) => cfg.frame(e.record)
    case _ => None
  }

  function AfterWrite(pc: WorkerPc, ok: bool): WorkerPc {
    match pc
    case WriteEntry(e) => if ok then Finish(NextEntry) else Requeue(e)
    case _ => if ok then Inner else SleepCheck
  }

  function AfterPop(pop: QueueSpec.Pop<Entry>): WorkerPc {
    match pop
    case Item(e) => WriteEntry(e)
    case Shutdown => Exited(QueueShutdown)
    case Idle => Inner
  }

  /** The latest connection has got some more bytes, and the others none. */
  predicate HandedOver(conns: seq<Conn>, conns': seq<Conn>, bytes: seq<byte>) {
    && conns != [] && |conns'| == |conns|
    && conns'[..|conns| - 1] == conns[..|conns| - 1]
    && conns'[|conns| - 1].bytes == conns[|conns| - 1].bytes + bytes
  }

  lemma ConnsReady(cfg: Config, s: State)
    requires Reachable(cfg, s) && Expected(cfg, s.pc).Some?
    ensures s.conns != []
  {
    Runs.InvReachable(cfg, s);
  }

  lemma WriteFacts(cfg: Config, s: State, o: Outcome, buffer: seq<byte>, written: nat)
    requires Reachable(cfg, s) && Expected(cfg, s.pc) == Some(buffer)
    requires o == Proceed || (o.Fails? && o.written < |buffer|)
    requires written == if o == Proceed then |buffer| else o.written
    ensures Possible(cfg, s, o)
    ensures var s' := StepWorker(cfg, s, o);
      && s'.q == s.q && s'.deadline == s.deadline
      && HandedOver(s.conns, s'.conns, buffer[..written])
      && s'.pc == AfterWrite(s.pc, o == Proceed)
  {
    ConnsReady(cfg, s);
    assert buffer[..|buffer|] == buffer;
  }
}
