/** Logging threads, flushers, closers and the worker as one state machine (src/queue.rs,
    src/client.rs). A step is one lock section, one notification, one I/O call or one reading of
    the clock; any interleaving of steps is a run. */
module Protocol {
  import opened Options
  import opened Proto
  import Q = QueueSpec

  /** Durations and instants are in nanoseconds. `banner` and `frame` are the bytes that the worker
      writes on a fresh connection and for an entry, if the entry can be sent at all. */
  datatype Config = Config(
    capacity: nat, flushOnClose: bool, flushTimeout: nat, connectTimeout: nat, address: Address,
    banner: seq<byte>, frame: Record -> Option<seq<byte>>)

  /** The configured address: a literal one, or a host name, which may have `more` addresses than
      one. Looking up a name takes any time and may fail; a literal address needs no lookup. */
  datatype Address = Literal | HostName(more: nat)

  /** The most addresses that a connect may have to try. */
  function Addresses(cfg: Config): nat {
    if cfg.address.HostName? then cfg.address.more + 1 else 1
  }

  /** A record and its place among the accepted ones. The number is bookkeeping of the model. */
  datatype Entry = Entry(id: nat, record: Record)

  // ---- The worker -----------------------------------------------------------------------------

  datatype ExitReason =
    | NoDrain            // shutdown, and draining is switched off
    | NothingQueued      // shutdown before a connection, with an empty queue
    | DeadlinePassed     // the flush deadline is over
    | SleepInterrupted   // shutdown came by the end of a reconnect delay
    | QueueShutdown      // `pop` found the queue empty after shutdown

  /** What follows `finish`: the next entry, or the reconnect delay after reporting a refusal. */
  datatype After = NextEntry | Reconnect(refused: Option<nat>)

  /** The worker's program points. Each name says what is about to happen. */
  datatype WorkerPc =
    | Top | TopEmpty | TopArm | TopExpired
    | ConnectStart | Resolving(timeout: nat, chosen: nat)
      // the attempt `started` is under way, and `left` more addresses are known
    | Connecting(timeout: nat, chosen: nat, resolved: nat, started: nat, left: nat)
    | WriteBanner
    | Inner | InnerArm | InnerExpired
    | PopCall | PopAsleep | PopWoken
    | WriteEntry(entry: Entry)
    | Requeue(entry: Entry) | RequeueNotify
    | Finish(after: After) | FinishNotify(after: After)
    | ReportRefused(total: nat)
    | SleepCheck | SleepAsleep
    | Exited(why: ExitReason)

  /** How an I/O call, a lookup or a timed wait turns out. A failing `write_all` has handed over
      `written` bytes, a proper prefix of its buffer. */
  datatype Outcome = Proceed | TimedOut | Fails(written: nat) | Resolved(addresses: nat)

  /** How the latest connection attempt stands. */
  datatype Attempt = NotTried | Alive | ConnectFailed | BannerFailed | WriteFailed

  /** The bytes handed over on one connection, and which frames they were meant to be: the banner
      once `bannered`, a frame for each entry of `sent`, then what a failed write left behind. */
  datatype Conn = Conn(bytes: seq<byte>, bannered: bool, sent: seq<Entry>, tail: seq<byte>)

  // ---- The other threads ----------------------------------------------------------------------

  /** `mark` is the number of entries accepted when `flush` was called. */
  datatype ThreadPc =
    | Outside
    | PushNotify(total: Option<nat>) | PushReport(report: nat)
    | FlushCheck(mark: nat) | FlushAsleep(mark: nat) | FlushReturned(mark: nat, drained: bool)
    | CloseNotifyWork | CloseNotifyDrained | CloseTake | CloseJoin | CloseReturned(joined: bool)

  datatype Caller = Logger(thread: nat) | Worker

  /** What has happened so far. `owners[n]` is the caller that was told the total n + 1. */
  datatype History = History(
    accepted: seq<Entry>, written: seq<Entry>, discarded: seq<Entry>,
    evicted: seq<Entry>, refused: seq<Entry>, late: nat,
    owners: seq<Caller>, reports: seq<nat>,
    attempt: Attempt)

  datatype State = State(
    q: Q.State<Entry>, pc: WorkerPc, deadline: Option<nat>, now: nat,
    threads: map<nat, ThreadPc>, handleTaken: bool, conns: seq<Conn>, h: History)
  {
    function Thread(t: nat): ThreadPc {
      if t in threads then threads[t] else Outside
    }

    function Set(t: nat, pc: ThreadPc): State {
      this.(threads := threads[t := pc])
    }
  }

  function Init(cfg: Config): State {
    State(Q.New(cfg.capacity), Top, None, 0, map[], false, [],
          History([], [], [], [], [], 0, [], [], NotTried))
  }

  datatype Action =
    | Tick(elapsed: nat)
    | LogCall(thread: nat, record: Record)
    | LogNotify(thread: nat)
    | LogReport(thread: nat)
    | FlushCall(thread: nat)
    | FlushLook(thread: nat, giveUp: bool)
    | FlushWake(thread: nat)
    | CloseCall(thread: nat)
    | CloseStep(thread: nat)
    | Leave(thread: nat)
    | WorkerWake
    | WorkerStep(outcome: Outcome)

  // ---- Steps of the other threads -------------------------------------------------------------

  /** The lock section of `push`, in a call of `log`. */
  function LogPush(s: State, t: nat, r: Record): State {
    var entry := Entry(|s.h.accepted|, r);
    var (q, total) := Q.Push(s.q, entry);
    var owners := if total.Some? then s.h.owners + [Logger(t)] else s.h.owners;
    if s.q.shutdown then
      s.(q := q, h := s.h.(late := s.h.late + 1, owners := owners)).Set(t, PushReport(total.value))
    else
      var evicted := if total.Some? then [s.q.items[0]] else [];
      s.(q := q, h := s.h.(accepted := s.h.accepted + [entry], evicted := s.h.evicted + evicted,
                           owners := owners)).Set(t, PushNotify(total))
  }

  /** `notify_one` and `notify_all` on `work` both wake the worker, its only waiter. */
  function WakeWorker(pc: WorkerPc): WorkerPc {
    match pc
    case PopAsleep => PopWoken
    case SleepAsleep => SleepCheck
    case _ => pc
  }

  function WakeFlusher(pc: ThreadPc): ThreadPc {
    if pc.FlushAsleep? then FlushCheck(pc.mark) else pc
  }

  /** `notify_all` on `drained`. */
  function WakeFlushers(s: State): State {
    s.(threads := map t | t in s.threads :: WakeFlusher(s.threads[t]))
  }

  function Notified(s: State, t: nat, total: Option<nat>): State {
    s.(pc := WakeWorker(s.pc)).Set(t, if total.Some? then PushReport(total.value) else Outside)
  }

  function CloseProgress(s: State, t: nat): State
    requires s.Thread(t) in {CloseNotifyWork, CloseNotifyDrained, CloseTake, CloseJoin}
  {
    match s.Thread(t)
    case CloseNotifyWork => s.(pc := WakeWorker(s.pc)).Set(t, CloseNotifyDrained)
    case CloseNotifyDrained => WakeFlushers(s).Set(t, CloseTake)
    case CloseTake =>
      s.(handleTaken := true).Set(t, if s.handleTaken then CloseReturned(false) else CloseJoin)
    case CloseJoin => s.Set(t, CloseReturned(true))
  }

  // ---- The timeout of one attempt to connect --------------------------------------------------

  const ONE_MILLISECOND: nat := 1000000

  /** The timeout of one connection attempt. Without a deadline it is the configured one. With a
      deadline in force it is never zero, never runs more than a millisecond past the deadline, and
      is shorter than the configured one only because the deadline comes first. */
  function ConnectTimeout(cfg: Config, deadline: Option<nat>, now: nat): (timeout: nat)
    ensures deadline.None? ==> timeout == cfg.connectTimeout
    ensures deadline.Some? ==> timeout >= ONE_MILLISECOND
    ensures deadline.Some? ==>
      now + timeout <= (if now > deadline.value then now else deadline.value) + ONE_MILLISECOND
    ensures deadline.Some? && timeout > ONE_MILLISECOND ==> now + timeout <= deadline.value
    ensures timeout < cfg.connectTimeout ==> deadline.Some? && now + timeout >= deadline.value
    ensures timeout > cfg.connectTimeout ==> timeout == ONE_MILLISECOND
  {
    match deadline
    case None => cfg.connectTimeout
    case Some(d) =>
      var left := if d >= now then d - now else 0;
      var capped := if left < cfg.connectTimeout then left else cfg.connectTimeout;
      if capped > ONE_MILLISECOND then capped else ONE_MILLISECOND
  }

  // ---- Steps of the worker --------------------------------------------------------------------

  function Resume(after: After): WorkerPc {
    match after
    case NextEntry => Inner
    case Reconnect(None) => SleepCheck
    case Reconnect(Some(total)) => ReportRefused(total)
  }

  function Hand(pc: WorkerPc): seq<Entry> {
    match pc
    case WriteEntry(e) => [e]
    case Requeue(e) => [e]
    case _ => []
  }

  /** Whether an outcome makes sense at a program point. */
  predicate Possible(cfg: Config, s: State, o: Outcome) {
    match s.pc
    case PopAsleep => false
    case SleepAsleep => false
    case Exited(_) => false
    case PopCall => o == Proceed || o == TimedOut
    case PopWoken => o == Proceed || o == TimedOut
    case SleepCheck => o == Proceed || o == TimedOut
    case Resolving(_, _) =>
      if cfg.address.Literal? then o == Resolved(1)
      else o == Fails(0) || (o.Resolved? && o.addresses <= Addresses(cfg))
    case Connecting(_, _, _, _, _) => o == Proceed || o == Fails(0)
    case WriteBanner =>
      s.conns != [] && (o == Proceed || (o.Fails? && o.written < |cfg.banner|))
    case WriteEntry(e) =>
      s.conns != [] && (o == Proceed ||
        (o.Fails? && cfg.frame(e.record).Some? && o.written < |cfg.frame(e.record).value|))
    case _ => o == Proceed
  }

  function LastConn(s: State): Conn
    requires s.conns != []
  {
    s.conns[|s.conns| - 1]
  }

  function SetLastConn(s: State, c: Conn): State
    requires s.conns != []
  {
    s.(conns := s.conns[..|s.conns| - 1] + [c])
  }

  function Expired(s: State): bool {
    s.deadline.Some? && s.now >= s.deadline.value
  }

  function Armed(cfg: Config, s: State): State {
    if s.deadline.Some? then s else s.(deadline := Some(s.now + cfg.flushTimeout))
  }

  /** `pop`, from the moment it holds the lock. */
  function PopLocked(s: State, timedOut: bool): State {
    if Q.NothingToPop(s.q) && !timedOut then s.(pc := PopAsleep)
    else
      match Q.Take(s.q)
      case (q, Item(e)) => s.(q := q, pc := WriteEntry(e))
      case (q, Shutdown) => s.(pc := Exited(QueueShutdown))
      case (q, Idle) => s.(pc := Inner)
  }

  function WriteStep(cfg: Config, s: State, e: Entry, o: Outcome): State
    requires s.pc == WriteEntry(e) && Possible(cfg, s, o)
  {
    match cfg.frame(e.record)
    case None => s.(pc := Finish(NextEntry), h := s.h.(discarded := s.h.discarded + [e]))
    case Some(frame) =>
      var c := LastConn(s);
      if o == Proceed then
        SetLastConn(s, c.(bytes := c.bytes + frame, sent := c.sent + [e]))
        .(pc := Finish(NextEntry), h := s.h.(written := s.h.written + [e]))
      else
        SetLastConn(s, c.(bytes := c.bytes + frame[..o.written], tail := frame[..o.written]))
        .(pc := Requeue(e), h := s.h.(attempt := WriteFailed))
  }

  function BannerStep(cfg: Config, s: State, o: Outcome): State
    requires s.pc == WriteBanner && Possible(cfg, s, o)
  {
    var frame := cfg.banner;
    var c := LastConn(s);
    if o == Proceed then
      SetLastConn(s, c.(bytes := c.bytes + frame, bannered := true)).(pc := Inner)
    else
      SetLastConn(s, c.(bytes := c.bytes + frame[..o.written], tail := frame[..o.written]))
      .(pc := SleepCheck, h := s.h.(attempt := BannerFailed))
  }

  function RequeueStep(s: State, e: Entry): State {
    var (q, total) := Q.PushFront(s.q, e);
    match total
    case None => s.(q := q, pc := RequeueNotify)
    case Some(n) =>
      s.(q := q, pc := Finish(Reconnect(Some(n))),
         h := s.h.(refused := s.h.refused + [e], owners := s.h.owners + [Worker]))
  }

  function FinishStep(s: State, after: After): State {
    var (q, idle) := Q.Finish(s.q);
    s.(q := q, pc := if idle then FinishNotify(after) else Resume(after))
  }

  function StepWorker(cfg: Config, s: State, o: Outcome): State
    requires Possible(cfg, s, o)
  {
    match s.pc
    case Top =>
      s.(pc := if !s.q.shutdown then ConnectStart
               else if !cfg.flushOnClose then Exited(NoDrain) else TopEmpty)
    case TopEmpty => s.(pc := if s.q.items == [] then Exited(NothingQueued) else TopArm)
    case TopArm => Armed(cfg, s).(pc := TopExpired)
    case TopExpired => s.(pc := if Expired(s) then Exited(DeadlinePassed) else ConnectStart)
    case ConnectStart =>
      s.(pc := Resolving(ConnectTimeout(cfg, s.deadline, s.now), s.now), h := s.h.(attempt := Alive))
    case Resolving(timeout, chosen) =>
      if o.Resolved? && o.addresses > 0 then
        s.(pc := Connecting(timeout, chosen, s.now, s.now, o.addresses - 1))
      else s.(pc := SleepCheck, h := s.h.(attempt := ConnectFailed))
    case Connecting(timeout, chosen, resolved, _, left) =>
      if o == Proceed then s.(pc := WriteBanner, conns := s.conns + [Conn([], false, [], [])])
      else if left > 0 then s.(pc := Connecting(timeout, chosen, resolved, s.now, left - 1))
      else s.(pc := SleepCheck, h := s.h.(attempt := ConnectFailed))
    case WriteBanner => BannerStep(cfg, s, o)
    case Inner =>
      s.(pc := if !s.q.shutdown then PopCall
               else if !cfg.flushOnClose then Exited(NoDrain) else InnerArm)
    case InnerArm => Armed(cfg, s).(pc := InnerExpired)
    case InnerExpired => s.(pc := if Expired(s) then Exited(DeadlinePassed) else PopCall)
    case PopCall => PopLocked(s, o == TimedOut)
    case PopWoken => PopLocked(s, o == TimedOut)
    case WriteEntry(e) => WriteStep(cfg, s, e, o)
    case Requeue(e) => RequeueStep(s, e)
    case RequeueNotify => s.(pc := Finish(Reconnect(None)))
    case Finish(after) => FinishStep(s, after)
    case FinishNotify(after) => WakeFlushers(s).(pc := Resume(after))
    case ReportRefused(n) => s.(pc := SleepCheck, h := s.h.(reports := s.h.reports + [n]))
    case SleepCheck =>
      s.(pc := if s.q.shutdown then Exited(SleepInterrupted)
               else if o == TimedOut then Top else SleepAsleep)
  }

  // ---- Steps and runs -------------------------------------------------------------------------

  /** How much time may pass. The system ends an attempt to connect by its timeout, and a literal
      address is resolved at once; elsewhere any time may pass. */
  predicate MayPass(cfg: Config, s: State, elapsed: nat) {
    match s.pc
    case Resolving(_, _) => cfg.address.HostName? || elapsed == 0
    case Connecting(timeout, _, _, started, _) => s.now + elapsed <= started + timeout
    case _ => true
  }

  predicate Enabled(cfg: Config, s: State, a: Action) {
    match a
    case Tick(elapsed) => MayPass(cfg, s, elapsed)
    case LogCall(t, _) => s.Thread(t) == Outside
    case LogNotify(t) => s.Thread(t).PushNotify?
    case LogReport(t) => s.Thread(t).PushReport?
    case FlushCall(t) => s.Thread(t) == Outside
    case FlushLook(t, _) => s.Thread(t).FlushCheck?
    case FlushWake(t) => s.Thread(t).FlushAsleep?
    case CloseCall(t) => s.Thread(t) == Outside
    case CloseStep(t) =>
      || s.Thread(t) in {CloseNotifyWork, CloseNotifyDrained, CloseTake}
      || (s.Thread(t) == CloseJoin && s.pc.Exited?)
    case Leave(t) => s.Thread(t).FlushReturned? || s.Thread(t).CloseReturned?
    case WorkerWake => s.pc == PopAsleep || s.pc == SleepAsleep
    case WorkerStep(o) => Possible(cfg, s, o)
  }

  function Step(cfg: Config, s: State, a: Action): State
    requires Enabled(cfg, s, a)
  {
    match a
    case Tick(elapsed) => s.(now := s.now + elapsed)
    case LogCall(t, r) => LogPush(s, t, r)
    case LogNotify(t) => Notified(s, t, s.Thread(t).total)
    case LogReport(t) =>
      s.(h := s.h.(reports := s.h.reports + [s.Thread(t).report])).Set(t, Outside)
    case FlushCall(t) => s.Set(t, FlushCheck(|s.h.accepted|))
    case FlushLook(t, giveUp) =>
      var mark := s.Thread(t).mark;
      s.Set(t, if Q.Drained(s.q) then FlushReturned(mark, true)
               else if giveUp then FlushReturned(mark, false) else FlushAsleep(mark))
    case FlushWake(t) => s.Set(t, FlushCheck(s.Thread(t).mark))
    case CloseCall(t) => s.(q := s.q.(shutdown := true)).Set(t, CloseNotifyWork)
    case CloseStep(t) => CloseProgress(s, t)
    case Leave(t) => s.Set(t, Outside)
    case WorkerWake => s.(pc := WakeWorker(s.pc))
    case WorkerStep(o) => StepWorker(cfg, s, o)
  }

  predicate Legal(cfg: Config, s: State, run: seq<Action>)
    decreases |run|
  {
    run == [] || (Enabled(cfg, s, run[0]) && Legal(cfg, Step(cfg, s, run[0]), run[1..]))
  }

  function Exec(cfg: Config, s: State, run: seq<Action>): State
    requires Legal(cfg, s, run)
    decreases |run|
  {
    if run == [] then s else Exec(cfg, Step(cfg, s, run[0]), run[1..])
  }

  ghost predicate Reachable(cfg: Config, s: State) {
    exists run: seq<Action> :: Legal(cfg, Init(cfg), run) && Exec(cfg, Init(cfg), run) == s
  }
}
