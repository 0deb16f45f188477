/** Each dropped total is handed to one caller, who reports it once. */
module Reports {
  import opened Options
  import opened Proto
  import opened Protocol

  function RefusedTotal(after: After): Option<nat> {
    if after.Reconnect? then after.refused else None
  }

  /** The total that the worker has still to report. */
  function WorkerOwes(pc: WorkerPc): Option<nat> {
    match pc
    case Finish(after) => RefusedTotal(after)
    case FinishNotify(after) => RefusedTotal(after)
    case ReportRefused(total) => Some(total)
    case _ => None
  }

  function ThreadOwes(pc: ThreadPc): Option<nat> {
    match pc
    case PushNotify(total) => total
    case PushReport(report) => Some(report)
    case _ => None
  }

  function Owes(s: State, c: Caller): Option<nat> {
    match c
    case Logger(t) => ThreadOwes(s.Thread(t))
    case Worker => WorkerOwes(s.pc)
  }

  predicate Distinct(xs: seq<nat>) {
    forall i, j :: 0 <= i < j < |xs| ==> xs[i] != xs[j]
  }

  /** The totals are 1 to `dropped`; each was handed to one caller, and either that caller still
      owes the report or it has been made, once. */
  ghost predicate OneReportEach(s: State) {
    && |s.h.owners| == s.q.dropped
    && Distinct(s.h.reports)
    && (forall n <- s.h.reports :: 1 <= n <= s.q.dropped)
    && (forall c: Caller :: Owes(s, c).Some? ==>
          && 1 <= Owes(s, c).value <= s.q.dropped
          && s.h.owners[Owes(s, c).value - 1] == c
          && Owes(s, c).value !in s.h.reports)
    && (forall n :: 1 <= n <= s.q.dropped ==> n in s.h.reports || Owes(s, s.h.owners[n - 1]) == Some(n))
  }

  lemma TotalsCovered(s: State, n: nat)
    requires OneReportEach(s)
    ensures 1 <= n <= s.q.dropped <==> n in s.h.reports || exists c: Caller :: Owes(s, c) == Some(n)
    ensures forall c, d: Caller :: Owes(s, c) == Owes(s, d) == Some(n) ==> c == d
  {
    if 1 <= n <= s.q.dropped {
      var owner := s.h.owners[n - 1];
      assert n in s.h.reports || Owes(s, owner) == Some(n);
      forall c: Caller | Owes(s, c) == Some(n) ensures c == owner {}
    }
  }

  lemma OneReportInit(cfg: Config)
    ensures OneReportEach(Init(cfg))
  {}

  /** A caller that owes nothing takes the next total. */
  lemma TakesTotal(s: State, s': State, c: Caller)
    requires OneReportEach(s) && Owes(s, c) == None
    requires s'.q.dropped == s.q.dropped + 1 && s'.h.owners == s.h.owners + [c]
    requires s'.h.reports == s.h.reports && Owes(s', c) == Some(s'.q.dropped)
    requires forall d: Caller :: d != c ==> Owes(s', d) == Owes(s, d)
    ensures OneReportEach(s')
  {
    forall n | 1 <= n <= s'.q.dropped
      ensures n in s'.h.reports || Owes(s', s'.h.owners[n - 1]) == Some(n)
    {
      if n <= s.q.dropped && n !in s.h.reports {
        assert Owes(s, s.h.owners[n - 1]) == Some(n);
      }
    }
  }

  lemma DistinctGrows(xs: seq<nat>, n: nat)
    requires Distinct(xs) && n !in xs
    ensures Distinct(xs + [n])
  {}

  /** A caller that owes a total reports it. */
  lemma MakesReport(s: State, s': State, c: Caller, n: nat)
    requires OneReportEach(s) && Owes(s, c) == Some(n) && Owes(s', c) == None
    requires s'.q.dropped == s.q.dropped && s'.h.owners == s.h.owners
    requires s'.h.reports == s.h.reports + [n]
    requires forall d: Caller :: d != c ==> Owes(s', d) == Owes(s, d)
    ensures OneReportEach(s')
  {
    DistinctGrows(s.h.reports, n);
    forall d: Caller | Owes(s', d).Some?
      ensures Owes(s', d).value !in s'.h.reports
    {
      assert Owes(s, d) == Owes(s', d);
    }
    forall k | 1 <= k <= s'.q.dropped
      ensures k in s'.h.reports || Owes(s', s'.h.owners[k - 1]) == Some(k)
    {
      if k != n && k !in s.h.reports {
        assert Owes(s, s.h.owners[k - 1]) == Some(k);
      }
    }
  }

  lemma NothingReported(s: State, s': State)
    requires OneReportEach(s)
    requires s'.q.dropped == s.q.dropped && s'.h.owners == s.h.owners && s'.h.reports == s.h.reports
    requires forall d: Caller :: Owes(s', d) == Owes(s, d)
    ensures OneReportEach(s')
  {
    forall k | 1 <= k <= s'.q.dropped
      ensures k in s'.h.reports || Owes(s', s'.h.owners[k - 1]) == Some(k)
    {
      if k !in s.h.reports {
        assert Owes(s, s.h.owners[k - 1]) == Some(k);
      }
    }
  }

  lemma OneReportLog(s: State, t: nat, r: Record)
    requires OneReportEach(s) && s.Thread(t) == Outside
    ensures OneReportEach(LogPush(s, t, r))
  {
    var s' := LogPush(s, t, r);
    if s'.q.dropped == s.q.dropped {
      NothingReported(s, s');
    } else {
      TakesTotal(s, s', Logger(t));
    }
  }

  lemma QuietReports(cfg: Config, s: State, o: Outcome)
    requires Possible(cfg, s, o) && !s.pc.ReportRefused?
    ensures StepWorker(cfg, s, o).h.reports == s.h.reports
  {}

  lemma QuietOwing(cfg: Config, s: State, o: Outcome)
    requires Possible(cfg, s, o) && !s.pc.ReportRefused? && !s.pc.Requeue?
    ensures WorkerOwes(StepWorker(cfg, s, o).pc) == WorkerOwes(s.pc)
  {}

  lemma QuietThreads(cfg: Config, s: State, o: Outcome, t: nat)
    requires Possible(cfg, s, o)
    ensures var s' := StepWorker(cfg, s, o);
      s'.Thread(t) == if s.pc.FinishNotify? then WakeFlusher(s.Thread(t)) else s.Thread(t)
  {}

  lemma QuietOwners(cfg: Config, s: State, o: Outcome)
    requires Possible(cfg, s, o) && !s.pc.Requeue?
    ensures var s' := StepWorker(cfg, s, o);
      s'.h.owners == s.h.owners && s'.q.dropped == s.q.dropped
  {}

  lemma OneReportWorker(cfg: Config, s: State, o: Outcome)
    requires OneReportEach(s) && Possible(cfg, s, o)
    ensures OneReportEach(StepWorker(cfg, s, o))
  {
    var s' := StepWorker(cfg, s, o);
    forall d: Caller | d != Worker
      ensures Owes(s', d) == Owes(s, d)
    {
      QuietThreads(cfg, s, o, d.thread);
    }
    if s.pc.Requeue? {
      if s'.q.dropped == s.q.dropped {
        NothingReported(s, s');
      } else {
        TakesTotal(s, s', Worker);
      }
    } else if s.pc.ReportRefused? {
      MakesReport(s, s', Worker, s.pc.total);
    } else {
      QuietReports(cfg, s, o);
      QuietOwing(cfg, s, o);
      QuietOwners(cfg, s, o);
      NothingReported(s, s');
    }
  }

  lemma OneReportStep(cfg: Config, s: State, a: Action)
    requires OneReportEach(s) && Enabled(cfg, s, a)
    ensures OneReportEach(Step(cfg, s, a))
  {
    var s' := Step(cfg, s, a);
    match a
    case LogCall(t, r) => OneReportLog(s, t, r);
    case LogReport(t) => MakesReport(s, s', Logger(t), s.Thread(t).report);
    case WorkerStep(o) => OneReportWorker(cfg, s, o);
    case _ =>
      OthersOwe(cfg, s, a);
      NothingReported(s, s');
  }

  lemma OthersOwe(cfg: Config, s: State, a: Action)
    requires Enabled(cfg, s, a) && !a.LogCall? && !a.LogReport? && !a.WorkerStep?
    ensures forall d: Caller :: Owes(Step(cfg, s, a), d) == Owes(s, d)
  {
    var s' := Step(cfg, s, a);
    forall d: Caller
      ensures Owes(s', d) == Owes(s, d)
    {
    }
  }
}
