/** What has been handed over on each connection. */
module Connections {
  import opened Options
  import opened Proto
  import opened Protocol
  import opened Sequences
  import Accounting

  /** The log frames of a list of entries, one after the other. */
  function LogBytes(cfg: Config, sent: seq<Entry>): seq<byte> {
    if sent == [] then []
    else
      var front, last := sent[..|sent| - 1], sent[|sent| - 1];
      LogBytes(cfg, front) + match cfg.frame(last.record) case Some(frame) => frame case None => []
  }

  /** What a failed write of an entry can leave behind. */
  ghost predicate PartialEntry(cfg: Config, tail: seq<byte>) {
    exists e: Entry :: cfg.frame(e.record).Some? && IsProperPrefix(tail, cfg.frame(e.record).value)
  }

  /** A connection carries the banner, then whole log frames, then at most one cut-off frame. */
  ghost predicate WellFormed(cfg: Config, c: Conn) {
    && (forall e <- c.sent :: cfg.frame(e.record).Some?)
    && (if c.bannered then
          && c.bytes == cfg.banner + LogBytes(cfg, c.sent) + c.tail
          && (c.tail == [] || PartialEntry(cfg, c.tail))
        else
          c.sent == [] && c.bytes == c.tail && (c.tail == [] || IsProperPrefix(c.tail, cfg.banner)))
  }

  /** The points at which the latest connection is in use. */
  predicate InUse(pc: WorkerPc) {
    || pc.Inner? || pc.InnerArm? || pc.InnerExpired? || pc.PopCall? || pc.PopAsleep? || pc.PopWoken?
    || pc.WriteEntry? || pc == Finish(NextEntry) || pc == FinishNotify(NextEntry)
  }

  predicate LastReady(s: State) {
    && (s.pc.WriteBanner? ==> s.conns != [] && LastConn(s) == Conn([], false, [], []))
    && (InUse(s.pc) ==> s.conns != [] && LastConn(s).bannered && LastConn(s).tail == [])
  }

  function SentOn(conns: seq<Conn>): seq<Entry> {
    if conns == [] then [] else SentOn(conns[..|conns| - 1]) + conns[|conns| - 1].sent
  }

  /** The entries written are those on the connections, in order. */
  ghost predicate Carried(cfg: Config, s: State) {
    && (forall c <- s.conns :: WellFormed(cfg, c))
    && SentOn(s.conns) == s.h.written
    && LastReady(s)
  }

  lemma CarriedInit(cfg: Config)
    ensures Carried(cfg, Init(cfg))
  {}

  lemma LogBytesSnoc(cfg: Config, sent: seq<Entry>, e: Entry)
    requires cfg.frame(e.record).Some?
    ensures LogBytes(cfg, sent + [e]) == LogBytes(cfg, sent) + cfg.frame(e.record).value
  {
    assert (sent + [e])[..|sent|] == sent;
  }

  lemma BannerSent(cfg: Config)
    ensures WellFormed(cfg, Conn(cfg.banner, true, [], []))
  {
    assert cfg.banner + [] + [] == cfg.banner;
  }

  lemma BannerCut(cfg: Config, k: nat)
    requires k < |cfg.banner|
    ensures WellFormed(cfg, Conn(cfg.banner[..k], false, [], cfg.banner[..k]))
  {}

  lemma EntrySent(cfg: Config, c: Conn, e: Entry)
    requires WellFormed(cfg, c) && c.bannered && c.tail == [] && cfg.frame(e.record).Some?
    ensures WellFormed(cfg, c.(bytes := c.bytes + cfg.frame(e.record).value, sent := c.sent + [e]))
  {
    var frame, sent := cfg.frame(e.record).value, LogBytes(cfg, c.sent);
    LogBytesSnoc(cfg, c.sent, e);
    assert cfg.banner + sent + [] + frame == cfg.banner + (sent + frame) + [];
  }

  lemma EntryCut(cfg: Config, c: Conn, e: Entry, k: nat)
    requires WellFormed(cfg, c) && c.bannered && c.tail == []
    requires cfg.frame(e.record).Some? && k < |cfg.frame(e.record).value|
    ensures var cut := cfg.frame(e.record).value[..k];
      WellFormed(cfg, c.(bytes := c.bytes + cut, tail := cut))
  {
    var cut := cfg.frame(e.record).value[..k];
    assert IsProperPrefix(cut, cfg.frame(e.record).value);
    assert cfg.banner + LogBytes(cfg, c.sent) + [] + cut == cfg.banner + LogBytes(cfg, c.sent) + cut;
  }

  /** Replacing the latest connection. */
  lemma LastReplaced(cfg: Config, conns: seq<Conn>, c: Conn)
    requires conns != [] && (forall d <- conns :: WellFormed(cfg, d)) && WellFormed(cfg, c)
    ensures var conns' := conns[..|conns| - 1] + [c];
      && (forall d <- conns' :: WellFormed(cfg, d))
      && SentOn(conns') == SentOn(conns[..|conns| - 1]) + c.sent
  {
    var conns' := conns[..|conns| - 1] + [c];
    assert conns'[..|conns'| - 1] == conns[..|conns| - 1];
  }

  lemma CarriedBanner(cfg: Config, s: State, o: Outcome)
    requires Carried(cfg, s) && s.pc == WriteBanner && Possible(cfg, s, o)
    ensures Carried(cfg, BannerStep(cfg, s, o))
  {
    var s' := BannerStep(cfg, s, o);
    assert [] + cfg.banner == cfg.banner;
    if o == Proceed {
      BannerSent(cfg);
    } else {
      BannerCut(cfg, o.written);
      assert [] + cfg.banner[..o.written] == cfg.banner[..o.written];
    }
    LastReplaced(cfg, s.conns, LastConn(s'));
  }

  lemma CarriedWrite(cfg: Config, s: State, e: Entry, o: Outcome)
    requires Carried(cfg, s) && s.pc == WriteEntry(e) && Possible(cfg, s, o)
    ensures Carried(cfg, WriteStep(cfg, s, e, o))
  {
    if cfg.frame(e.record).Some? {
      var s', c := WriteStep(cfg, s, e, o), LastConn(s);
      assert c in s.conns;
      if o == Proceed {
        EntrySent(cfg, c, e);
      } else {
        EntryCut(cfg, c, e, o.written);
      }
      LastReplaced(cfg, s.conns, LastConn(s'));
      Associative(SentOn(s.conns[..|s.conns| - 1]), c.sent, [e]);
    }
  }

  predicate WritesStream(pc: WorkerPc) {
    pc.Connecting? || pc.WriteBanner? || pc.WriteEntry?
  }

  lemma QuietConns(cfg: Config, s: State, o: Outcome)
    requires Possible(cfg, s, o) && !WritesStream(s.pc)
    ensures StepWorker(cfg, s, o).conns == s.conns
  {}

  lemma QuietUse(cfg: Config, s: State, o: Outcome)
    requires Possible(cfg, s, o) && !WritesStream(s.pc)
    ensures !StepWorker(cfg, s, o).pc.WriteBanner?
    ensures InUse(StepWorker(cfg, s, o).pc) ==> InUse(s.pc)
  {}

  lemma QuietReady(cfg: Config, s: State, o: Outcome)
    requires LastReady(s) && Possible(cfg, s, o) && !WritesStream(s.pc)
    ensures LastReady(StepWorker(cfg, s, o))
  {
    QuietConns(cfg, s, o);
    QuietUse(cfg, s, o);
  }

  lemma CarriedConnecting(cfg: Config, s: State, o: Outcome)
    requires Carried(cfg, s) && s.pc.Connecting? && Possible(cfg, s, o)
    ensures Carried(cfg, StepWorker(cfg, s, o))
  {
    if o == Proceed {
      ConnectedStep(cfg, s);
      NewConn(cfg, s.conns);
    } else {
      AttemptFailedStep(cfg, s, o);
    }
  }

  lemma ConnectedStep(cfg: Config, s: State)
    requires s.pc.Connecting?
    ensures StepWorker(cfg, s, Proceed) == s.(pc := WriteBanner, conns := s.conns + [Conn([], false, [], [])])
  {}

  lemma AttemptFailedStep(cfg: Config, s: State, o: Outcome)
    requires s.pc.Connecting? && Possible(cfg, s, o) && o != Proceed
    ensures var s' := StepWorker(cfg, s, o);
      && s' == s.(pc := s'.pc, h := s.h.(attempt := s'.h.attempt))
      && (s'.pc.SleepCheck? || s'.pc.Connecting?)
  {}

  lemma NewConn(cfg: Config, conns: seq<Conn>)
    requires forall c <- conns :: WellFormed(cfg, c)
    ensures var conns' := conns + [Conn([], false, [], [])];
      (forall c <- conns' :: WellFormed(cfg, c)) && SentOn(conns') == SentOn(conns)
  {
    assert (conns + [Conn([], false, [], [])])[..|conns|] == conns;
  }

  lemma CarriedQuiet(cfg: Config, s: State, o: Outcome)
    requires Carried(cfg, s) && Possible(cfg, s, o) && !WritesStream(s.pc)
    ensures Carried(cfg, StepWorker(cfg, s, o))
  {
    QuietConns(cfg, s, o);
    QuietReady(cfg, s, o);
    Accounting.QuietSent(cfg, s, o);
  }

  lemma OthersConns(cfg: Config, s: State, a: Action)
    requires Enabled(cfg, s, a) && !a.WorkerStep?
    ensures var s' := Step(cfg, s, a);
      s'.conns == s.conns && s'.h.written == s.h.written
  {}

  lemma CarriedOthers(cfg: Config, s: State, a: Action)
    requires Carried(cfg, s) && Enabled(cfg, s, a) && !a.WorkerStep?
    ensures Carried(cfg, Step(cfg, s, a))
  {
    OthersConns(cfg, s, a);
    Accounting.OthersKeepPoint(cfg, s, a);
  }

  lemma CarriedStep(cfg: Config, s: State, a: Action)
    requires Carried(cfg, s) && Enabled(cfg, s, a)
    ensures Carried(cfg, Step(cfg, s, a))
  {
    if a.WorkerStep? {
      match s.pc
      case Connecting(_, _, _, _, _) => CarriedConnecting(cfg, s, a.outcome);
      case WriteBanner => CarriedBanner(cfg, s, a.outcome);
      case WriteEntry(e) => CarriedWrite(cfg, s, e, a.outcome);
      case _ => CarriedQuiet(cfg, s, a.outcome);
    } else {
      CarriedOthers(cfg, s, a);
    }
  }
}
