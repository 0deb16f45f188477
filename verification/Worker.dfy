/** The worker's loops (src/client.rs), run against the world. */
module Worker {
  import opened Options
  import opened Proto
  import opened Protocol
  import opened Settings
  import opened World
  import Control
  import EndToEnd
  import Runs
  import Termination

  datatype WriteResult = Written | Discarded | ConnectionLost

  /** Serialises one entry and writes its frame, reusing two buffers whatever they hold. */
  method WriteRecord(world: World, e: Entry, json: ByteBuffer, frame: ByteBuffer)
    returns (result: WriteResult, ghost written: seq<byte>)
    requires world.Valid() && world.s.pc == WriteEntry(e) && json != frame
    modifies world`s, world`script, world.queue, json, frame
    ensures world.Valid() && Nearer(world.Cfg(), |old(world.script)|, old(world.s), |world.script|, world.s)
    ensures world.s.deadline == old(world.s.deadline)
    ensures result.Discarded? <==> SendablePayload(world.settings.serialize, e.record).None?
    ensures result.Discarded? ==> world.s.conns == old(world.s.conns)
    ensures !result.Discarded? ==> HandedOver(old(world.s.conns), world.s.conns, written)
    ensures !result.Discarded? ==>
      var whole := Encode(Frame(CMD_LOG, SendablePayload(world.settings.serialize, e.record).value));
      && written <= whole
      && (result.Written? <==> written == whole)
    ensures world.s.pc == if result.ConnectionLost? then Requeue(e) else Finish(NextEntry)
  {
    written := [];
    json.Clear();
    var text := world.settings.serialize(JsonOf(e.record));
    if text.None? {
      world.Discard();
      return Discarded, [];
    }
    json.Extend(text.value);
    if |json.bytes| > MAX_PAYLOAD_SIZE {
      world.Discard();
      return Discarded, [];
    }
    EncodeFrame(CMD_LOG, json.bytes, frame);
    assert json.bytes == text.value;
    ghost var count: nat;
    var ok: bool;
    ok, count := world.WriteAll(frame.bytes);
    written := frame.bytes[..count];
    result := if ok then Written else ConnectionLost;
  }

  /** Fixing the flush deadline when it is not fixed yet, and looking whether it has passed. */
  method DeadlineOver(world: World, armed: Option<nat>) returns (deadline: nat, over: bool)
    requires world.Valid() && (world.s.pc == TopArm || world.s.pc == InnerArm) && world.s.deadline == armed
    modifies world`s, world`script, world.queue
    ensures world.Valid() && Nearer(world.Cfg(), |old(world.script)|, old(world.s), |world.script|, world.s)
    ensures world.s.deadline == Some(deadline) && (armed.Some? ==> deadline == armed.value)
    ensures world.s.pc ==
      if over then Exited(DeadlinePassed)
      else if old(world.s.pc) == TopArm then ConnectStart else PopCall
  {
    deadline := world.Arm(armed);
    var now := world.Now();
    over := now >= deadline;
  }

  /** Putting an entry back after a failed write, and sitting out the reconnect delay. */
  method GiveBack(world: World, e: Entry) returns (leave: bool)
    requires world.Valid() && world.s.pc == Requeue(e)
    modifies world`s, world`script, world.queue
    ensures world.Valid() && Nearer(world.Cfg(), |old(world.script)|, old(world.s), |world.script|, world.s)
    ensures world.s.deadline == old(world.s.deadline)
    ensures world.s.pc == if leave then Exited(SleepInterrupted) else Top
  {
    var refused := world.PushFront(e);
    world.Finish(Reconnect(refused));
    if refused.Some? {
      world.Report(refused.value);
    }
    leave := world.SleepOrShutdown();
  }

  /** Which loop the worker goes round next, or neither. */
  datatype Next = SameConnection | NewConnection | Over

  predicate Follows(next: Next, s: State, flushDeadline: Option<nat>) {
    match next
    case SameConnection => s.pc == Inner && s.deadline == flushDeadline
    case NewConnection => s.pc == Top && s.deadline == flushDeadline
    case Over => s.pc.Exited?
  }

  /** The head of the inner loop: whether to go on to the next entry. */
  method LookForDeadline(world: World, armed: Option<nat>) returns (flushDeadline: Option<nat>, leave: bool)
    requires world.Valid() && world.s.pc == Inner && world.s.deadline == armed
    modifies world`s, world`script, world.queue
    ensures world.Valid() && Nearer(world.Cfg(), |old(world.script)|, old(world.s), |world.script|, world.s)
    ensures if leave then world.s.pc.Exited? else world.s.pc == PopCall && world.s.deadline == flushDeadline
  {
    flushDeadline := armed;
    var requested := world.IsShutdown();
    if requested {
      if !world.settings.flushOnClose {
        return flushDeadline, true;
      }
      var deadline, over := DeadlineOver(world, flushDeadline);
      return Some(deadline), over;
    }
    leave := false;
  }

  /** The rest of one round of the inner loop. */
  method SendNext(world: World, json: ByteBuffer, frame: ByteBuffer, ghost deadline: Option<nat>)
    returns (next: Next)
    requires world.Valid() && world.s.pc == PopCall && world.s.deadline == deadline && json != frame
    modifies world`s, world`script, world.queue, json, frame
    ensures world.Valid() && Nearer(world.Cfg(), |old(world.script)|, old(world.s), |world.script|, world.s)
    ensures Follows(next, world.s, deadline)
  {
    var pop := world.Pop();
    match pop {
      case Item(e) =>
        var result, _ := WriteRecord(world, e, json, frame);
        if result.ConnectionLost? {
          var leave := GiveBack(world, e);
          return if leave then Over else NewConnection;
        }
        world.Finish(NextEntry);
        next := SameConnection;
      case Shutdown => next := Over;
      case Idle => next := SameConnection;
    }
  }

  /** The head of the reconnect loop: whether to go on to a connection. */
  method LookForShutdown(world: World, armed: Option<nat>) returns (flushDeadline: Option<nat>, leave: bool)
    requires world.Valid() && world.s.pc == Top && world.s.deadline == armed
    modifies world`s, world`script, world.queue
    ensures world.Valid() && Nearer(world.Cfg(), |old(world.script)|, old(world.s), |world.script|, world.s)
    ensures if leave then world.s.pc.Exited?
      else world.s.pc == ConnectStart && world.s.deadline == flushDeadline
  {
    flushDeadline := armed;
    var requested := world.IsShutdown();
    if requested {
      if !world.settings.flushOnClose {
        return flushDeadline, true;
      }
      var empty := world.IsEmpty();
      if empty {
        return flushDeadline, true;
      }
      var deadline, over := DeadlineOver(world, flushDeadline);
      return Some(deadline), over;
    }
    leave := false;
  }

  /** Connecting: each address in turn under the same timeout, until one answers. */
  method Connect(world: World, deadline: Option<nat>) returns (ok: bool)
    requires world.Valid() && world.s.pc == ConnectStart && world.s.deadline == deadline
    modifies world`s, world`script, world.queue
    ensures world.Valid() && Nearer(world.Cfg(), |old(world.script)|, old(world.s), |world.script|, world.s)
    ensures world.s.deadline == deadline
    ensures world.s.pc == if ok then WriteBanner else SleepCheck
  {
    var timeout := world.ChooseTimeout(deadline);
    var addresses := world.Resolve();
    if addresses.None? {
      return false;
    }
    for i := 0 to addresses.value
      invariant world.Valid() && world.s.deadline == deadline
      invariant Nearer(world.Cfg(), |old(world.script)|, old(world.s), |world.script|, world.s)
      invariant if i < addresses.value then AtAttempt(world.s, timeout, addresses.value - i - 1)
        else world.s.pc == SleepCheck
    {
      ghost var turns, start := |world.script|, world.s;
      ok := world.Attempt(timeout);
      NearerStill(world.Cfg(), |old(world.script)|, old(world.s), turns, start, |world.script|, world.s);
      if ok {
        return;
      }
    }
    ok := false;
  }

  /** A connection with its banner sent, or a reconnect delay. */
  method StartConnection(world: World, banner: seq<byte>, frame: ByteBuffer, deadline: Option<nat>)
    returns (next: Next)
    requires world.Valid() && world.s.pc == ConnectStart && world.s.deadline == deadline
    requires banner == BannerPayload(world.settings.appName)
    modifies world`s, world`script, world.queue, frame
    ensures world.Valid() && Nearer(world.Cfg(), |old(world.script)|, old(world.s), |world.script|, world.s)
    ensures Follows(next, world.s, deadline)
  {
    var ok := Connect(world, deadline);
    if ok {
      EncodeFrame(CMD_BANNER, banner, frame);
      ghost var written: nat;
      ok, written := world.WriteAll(frame.bytes);
    }
    if ok {
      return SameConnection;
    }
    var leave := world.SleepOrShutdown();
    next := if leave then Over else NewConnection;
  }

  /** The worker thread. Interleaved with any other threads, on any network, it ends once the client
      is closed. What the server then takes out of the connections is what was written; entries are
      left in the queue only for the reasons that the protocol allows. */
  method Work(world: World)
    requires world.Valid() && world.s == Init(world.Cfg())
    modifies world`s, world`script, world.queue
    ensures world.Valid() && world.s.pc.Exited?
    ensures |BannerPayload(world.settings.appName)| <= MAX_PAYLOAD_SIZE ==>
      EndToEnd.Decoded(EndToEnd.Wire(world.s.conns)) == EndToEnd.Payloads(world.settings, world.s.h.written)
    ensures world.queue.items != [] ==>
      !world.settings.flushOnClose || Expired(world.s) || Control.Failed(world.s.h.attempt)
    ensures Runs.LogCalls(world.s) ==
      |world.s.h.written| + |world.s.h.discarded| + world.queue.dropped + |world.queue.items|
  {
    Run(world);
    Runs.ExitLeavesEntries(world.Cfg(), world.s);
    Runs.Conservation(world.Cfg(), world.s);
    if |BannerPayload(world.settings.appName)| <= MAX_PAYLOAD_SIZE {
      EndToEnd.EndToEnd(world.settings, world.s);
    }
  }

  method Run(world: World)
    requires world.Valid() && world.s == Init(world.Cfg())
    modifies world`s, world`script, world.queue
    ensures world.Valid() && world.s.pc.Exited?
  {
    var buffer := MakeBannerPayload(world.settings.appName);
    var banner := buffer.bytes;
    var frame := new ByteBuffer();
    var json := new ByteBuffer();
    var flushDeadline: Option<nat> := None;
    var next := NewConnection;
    while next.NewConnection?
      invariant world.Valid() && Follows(next, world.s, flushDeadline) && !next.SameConnection?
      decreases |world.script|, if world.s.q.shutdown then 0 else 1,
        Termination.Remaining(world.Cfg(), world.s)
    {
      var leave: bool;
      flushDeadline, leave := LookForShutdown(world, flushDeadline);
      if leave {
        return;
      }
      next := StartConnection(world, banner, frame, flushDeadline);
      ghost var turns, start := |world.script|, world.s;
      while next.SameConnection?
        invariant world.Valid() && Follows(next, world.s, flushDeadline)
        invariant (|world.script| == turns && world.s == start)
          || Nearer(world.Cfg(), turns, start, |world.script|, world.s)
        decreases |world.script|, if world.s.q.shutdown then 0 else 1,
        Termination.Remaining(world.Cfg(), world.s)
      {
        flushDeadline, leave := LookForDeadline(world, flushDeadline);
        if leave {
          return;
        }
        next := SendNext(world, json, frame, flushDeadline);
      }
    }
  }
}
