/** The queue, the hand and the worker refine a lossy first-in first-out channel. */
module Channel {
  import opened Accounting
  import opened Options
  import opened Proto
  import opened Protocol
  import opened QueueInvariants

  datatype Channel = Channel(arrivals: seq<Entry>, pending: seq<Entry>, delivered: seq<Entry>)

  datatype Event = Accept(entry: Entry) | Lose(index: nat) | Deliver

  predicate Fits(c: Channel, e: Event) {
    match e
    case Accept(entry) => entry.id == |c.arrivals|
    case Lose(index) => index < |c.pending|
    case Deliver => c.pending != []
  }

  function Apply(c: Channel, e: Event): Channel
    requires Fits(c, e)
  {
    match e
    case Accept(entry) => c.(arrivals := c.arrivals + [entry], pending := c.pending + [entry])
    case Lose(index) => c.(pending := c.pending[..index] + c.pending[index + 1..])
    case Deliver => c.(pending := c.pending[1..], delivered := c.delivered + [c.pending[0]])
  }

  predicate Behaves(c: Channel, events: seq<Event>)
    decreases |events|
  {
    events == [] || (Fits(c, events[0]) && Behaves(Apply(c, events[0]), events[1..]))
  }

  function After(c: Channel, events: seq<Event>): Channel
    requires Behaves(c, events)
    decreases |events|
  {
    if events == [] then c else After(Apply(c, events[0]), events[1..])
  }

  const EMPTY := Channel([], [], [])

  /** What passes through the channel is an increasing subsequence of what arrived. */
  predicate InOrder(c: Channel) {
    && Numbered(c.arrivals)
    && Increasing(c.delivered + c.pending)
    && (forall e <- c.delivered + c.pending :: e.id < |c.arrivals| && c.arrivals[e.id] == e)
  }

  predicate Increasing(entries: seq<Entry>) {
    forall i, j :: 0 <= i < j < |entries| ==> entries[i].id < entries[j].id
  }

  lemma InOrderApply(c: Channel, e: Event)
    requires InOrder(c) && Fits(c, e)
    ensures InOrder(Apply(c, e))
  {
    var c' := Apply(c, e);
    var flow, flow' := c.delivered + c.pending, c'.delivered + c'.pending;
    match e
    case Accept(entry) => assert flow' == flow + [entry];
    case Lose(index) =>
      var k := |c.delivered| + index;
      assert flow' == flow[..k] + flow[k + 1..];
      Without(flow, k);
    case Deliver => assert flow' == flow;
  }

  lemma Without(entries: seq<Entry>, k: nat)
    requires k < |entries|
    ensures var rest := entries[..k] + entries[k + 1..];
      && (Increasing(entries) ==> Increasing(rest))
      && (forall e <- rest :: e in entries)
  {
    var rest := entries[..k] + entries[k + 1..];
    assert forall i :: 0 <= i < |rest| ==> rest[i] == entries[if i < k then i else i + 1];
  }

  lemma {:induction false} InOrderAfter(c: Channel, events: seq<Event>)
    requires InOrder(c) && Behaves(c, events)
    ensures InOrder(After(c, events))
    decreases |events|
  {
    if events != [] {
      InOrderApply(c, events[0]);
      InOrderAfter(Apply(c, events[0]), events[1..]);
    }
  }

  lemma {:induction false} Concatenated(c: Channel, a: seq<Event>, b: seq<Event>)
    requires Behaves(c, a) && Behaves(After(c, a), b)
    ensures Behaves(c, a + b) && After(c, a + b) == After(After(c, a), b)
    decreases |a|
  {
    if a == [] {
      assert a + b == b;
    } else {
      assert (a + b)[1..] == a[1..] + b;
      Concatenated(Apply(c, a[0]), a[1..], b);
    }
  }

  // ---- The client as a channel ----------------------------------------------------------------

  /** What is still to be sent is what is in hand and what is queued. */
  function Abstract(s: State): Channel {
    Channel(s.h.accepted, Hand(s.pc) + s.q.items, s.h.written)
  }

  /** What a step is, seen from the channel: an overflow loses the oldest queued entry before it
      accepts the new one, a requeue keeps the entry or loses it, and most steps are nothing. */
  function Events(cfg: Config, s: State, a: Action): seq<Event>
    requires Enabled(cfg, s, a)
  {
    match a
    case LogCall(t, r) =>
      if s.q.shutdown then []
      else
        var accept := [Accept(Entry(|s.h.accepted|, r))];
        if |s.q.items| >= s.q.capacity then [Lose(|Hand(s.pc)|)] + accept else accept
    case WorkerStep(o) =>
      (match s.pc
       case WriteEntry(e) =>
         if cfg.frame(e.record).None? then [Lose(0)] else if o == Proceed then [Deliver] else []
       case Requeue(_) => if |s.q.items| >= s.q.capacity then [Lose(0)] else []
       case _ => [])
    case _ => []
  }

  lemma LogRefines(cfg: Config, s: State, t: nat, r: Record)
    requires Tail(cfg, s) && s.Thread(t) == Outside
    ensures var events := Events(cfg, s, LogCall(t, r));
      Behaves(Abstract(s), events) && After(Abstract(s), events) == Abstract(LogPush(s, t, r))
  {
    var c, e := Abstract(s), Entry(|s.h.accepted|, r);
    if !s.q.shutdown {
      LogAbstract(cfg, s, t, r);
      if |s.q.items| >= s.q.capacity {
        var lose := Lose(|Hand(s.pc)|);
        Single(c, lose);
        Single(Apply(c, lose), Accept(e));
        Concatenated(c, [lose], [Accept(e)]);
      } else {
        Single(c, Accept(e));
      }
    }
  }

  /** `push` seen from the channel. */
  lemma LogAbstract(cfg: Config, s: State, t: nat, r: Record)
    requires Tail(cfg, s) && s.Thread(t) == Outside && !s.q.shutdown
    ensures var c, lose, accept := Abstract(s), Lose(|Hand(s.pc)|), Accept(Entry(|s.h.accepted|, r));
      if |s.q.items| >= s.q.capacity then
        && Fits(c, lose) && Fits(Apply(c, lose), accept)
        && Apply(Apply(c, lose), accept) == Abstract(LogPush(s, t, r))
      else Fits(c, accept) && Apply(c, accept) == Abstract(LogPush(s, t, r))
  {
    var hand, items, e := Hand(s.pc), s.q.items, Entry(|s.h.accepted|, r);
    if |items| >= s.q.capacity {
      assert (hand + items)[..|hand|] + (hand + items)[|hand| + 1..] == hand + items[1..];
      assert hand + items[1..] + [e] == hand + (items[1..] + [e]);
    } else {
      assert hand + items + [e] == hand + (items + [e]);
    }
  }

  lemma Single(c: Channel, e: Event)
    requires Fits(c, e)
    ensures Behaves(c, [e]) && After(c, [e]) == Apply(c, e)
  {
    assert [e][1..] == [];
  }

  lemma WriteRefines(cfg: Config, s: State, e: Entry, o: Outcome)
    requires s.pc == WriteEntry(e) && Possible(cfg, s, o)
    ensures var events := Events(cfg, s, WorkerStep(o));
      Behaves(Abstract(s), events) && After(Abstract(s), events) == Abstract(WriteStep(cfg, s, e, o))
  {
    var c := Abstract(s);
    assert c.pending[1..] == s.q.items;
    if cfg.frame(e.record).None? {
      Single(c, Lose(0));
      assert c.pending[..0] + c.pending[1..] == s.q.items;
    } else if o == Proceed {
      Single(c, Deliver);
    }
    assert [] + s.q.items == s.q.items;
  }

  lemma RequeueRefines(cfg: Config, s: State, e: Entry)
    requires s.pc == Requeue(e)
    ensures var events := Events(cfg, s, WorkerStep(Proceed));
      Behaves(Abstract(s), events) && After(Abstract(s), events) == Abstract(RequeueStep(s, e))
  {
    var c := Abstract(s);
    if |s.q.items| >= s.q.capacity {
      Single(c, Lose(0));
      assert c.pending[..0] + c.pending[1..] == [] + s.q.items;
    } else {
      assert [] + ([e] + s.q.items) == c.pending;
    }
  }

  lemma PopRefines(s: State, timedOut: bool)
    requires Hand(s.pc) == []
    ensures Abstract(PopLocked(s, timedOut)) == Abstract(s)
  {
    var s' := PopLocked(s, timedOut);
    if s.q.items != [] {
      assert [s.q.items[0]] + s.q.items[1..] == [] + s.q.items;
    }
  }

  lemma QuietRefines(cfg: Config, s: State, o: Outcome)
    requires Possible(cfg, s, o) && !HandlesEntries(s.pc)
    ensures Abstract(StepWorker(cfg, s, o)) == Abstract(s)
  {
    QuietQueue(cfg, s, o);
    QuietHands(cfg, s, o);
    QuietHistory(cfg, s, o);
    QuietSent(cfg, s, o);
  }

  /** Every step of the client is a behaviour of the channel. */
  lemma StepRefines(cfg: Config, s: State, a: Action)
    requires Tail(cfg, s) && Enabled(cfg, s, a)
    ensures var events := Events(cfg, s, a);
      Behaves(Abstract(s), events) && After(Abstract(s), events) == Abstract(Step(cfg, s, a))
  {
    if a.LogCall? {
      LogRefines(cfg, s, a.thread, a.record);
    } else if a.WorkerStep? {
      match s.pc
      case WriteEntry(e) => WriteRefines(cfg, s, e, a.outcome);
      case Requeue(e) => RequeueRefines(cfg, s, e);
      case PopCall => PopRefines(s, a.outcome == TimedOut);
      case PopWoken => PopRefines(s, a.outcome == TimedOut);
      case _ => QuietRefines(cfg, s, a.outcome);
    } else {
      OthersRefine(cfg, s, a);
    }
  }

  lemma OthersRefine(cfg: Config, s: State, a: Action)
    requires Enabled(cfg, s, a) && !a.LogCall? && !a.WorkerStep?
    ensures Abstract(Step(cfg, s, a)) == Abstract(s)
  {}

  /** The channel behaviour of a whole run. */
  function RunEvents(cfg: Config, s: State, run: seq<Action>): seq<Event>
    requires Legal(cfg, s, run)
    decreases |run|
  {
    if run == [] then []
    else Events(cfg, s, run[0]) + RunEvents(cfg, Step(cfg, s, run[0]), run[1..])
  }

  /** Every run of the client is a behaviour of the channel. */
  lemma {:induction false} RunRefines(cfg: Config, s: State, run: seq<Action>)
    requires Tail(cfg, s) && Legal(cfg, s, run)
    ensures Behaves(Abstract(s), RunEvents(cfg, s, run))
    ensures After(Abstract(s), RunEvents(cfg, s, run)) == Abstract(Exec(cfg, s, run))
    decreases |run|
  {
    if run != [] {
      var s' := Step(cfg, s, run[0]);
      StepRefines(cfg, s, run[0]);
      TailStep(cfg, s, run[0]);
      RunRefines(cfg, s', run[1..]);
      Concatenated(Abstract(s), Events(cfg, s, run[0]), RunEvents(cfg, s', run[1..]));
    }
  }
}
