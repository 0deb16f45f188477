/** From the entries logged to the frames that the server takes out of the connections. */
module EndToEnd {
  import opened Options
  import opened Proto
  import opened Protocol
  import opened Connections
  import opened Sequences
  import opened Server
  import opened Settings
  import Payload
  import Runs
  import TP = TimestampProofs

  /** The time in a log payload reads back as the record's, to the millisecond, exactly for records
      from 0000-02-29 to the end of 9999. */
  lemma PayloadTime(r: Record)
    ensures TP.ParseTimestamp(LogPayload.FromRecord(r).time) == Some(TP.FloorMillis(r.time))
      <==> TP.ReadableDay(TP.FloorDays(r.time))
  {
    TP.FormatRoundTripIff(r.time);
  }

  /** The payload of an entry's log frame, for entries that can be sent. */
  function PayloadOf(settings: Settings, e: Entry): seq<byte> {
    match SendablePayload(settings.serialize, e.record)
    case Some(payload) => payload
    case None => []
  }

  function Payloads(settings: Settings, entries: seq<Entry>): seq<seq<byte>> {
    Mapped(e => PayloadOf(settings, e), entries)
  }

  function LogFrame(payload: seq<byte>): Frame {
    Frame(CMD_LOG, payload)
  }

  function LogFrames(settings: Settings, sent: seq<Entry>): seq<Frame> {
    Mapped(LogFrame, Payloads(settings, sent))
  }

  /** The frames meant by a connection: the banner, then one frame for each entry. */
  function ConnFrames(settings: Settings, c: Conn): seq<Frame> {
    if c.bannered then [BannerFrame(settings.appName)] + LogFrames(settings, c.sent) else []
  }

  /** The bytes of log frames are the encoding of frames, whatever the payloads are. */
  lemma {:induction false} LogBytesAre(cfg: Config, payload: Entry -> seq<byte>, sent: seq<Entry>)
    requires forall e <- sent :: cfg.frame(e.record) == Some(Encode(LogFrame(payload(e))))
    ensures LogBytes(cfg, sent) == EncodeAll(Mapped(LogFrame, Mapped(payload, sent)))
  {
    if sent != [] {
      var front, last := sent[..|sent| - 1], sent[|sent| - 1];
      LogBytesAre(cfg, payload, front);
      MappedSnoc(LogFrame, Mapped(payload, front), payload(last));
      EncodeAllSnoc(Mapped(LogFrame, Mapped(payload, front)), LogFrame(payload(last)));
    }
  }

  lemma LogBytesEncode(settings: Settings, sent: seq<Entry>)
    requires forall e <- sent :: settings.ToConfig().frame(e.record).Some?
    ensures LogBytes(settings.ToConfig(), sent) == EncodeAll(LogFrames(settings, sent))
  {
    var payload := e => PayloadOf(settings, e);
    forall e | e in sent
      ensures settings.ToConfig().frame(e.record) == Some(Encode(LogFrame(payload(e))))
    {
      EntryFrame(settings, e);
    }
    LogBytesAre(settings.ToConfig(), payload, sent);
  }

  lemma {:induction false} LogFramesOf(payload: Entry -> seq<byte>, sent: seq<Entry>)
    requires forall e: Entry :: |payload(e)| <= MAX_PAYLOAD_SIZE
    ensures var frames := Mapped(LogFrame, Mapped(payload, sent));
      |frames| == |sent| && forall f <- frames :: f.command == CMD_LOG && WithinLimit(f)
  {
    if sent != [] {
      var front, last := sent[..|sent| - 1], sent[|sent| - 1];
      LogFramesOf(payload, front);
      MappedSnoc(LogFrame, Mapped(payload, front), payload(last));
    }
  }

  lemma PayloadFits(settings: Settings, e: Entry)
    ensures |PayloadOf(settings, e)| <= MAX_PAYLOAD_SIZE
  {}

  lemma LogFramesShape(settings: Settings, sent: seq<Entry>)
    ensures |LogFrames(settings, sent)| == |sent|
    ensures forall f <- LogFrames(settings, sent) :: f.command == CMD_LOG && WithinLimit(f)
  {
    var payload := e => PayloadOf(settings, e);
    forall e: Entry ensures |payload(e)| <= MAX_PAYLOAD_SIZE {
      PayloadFits(settings, e);
    }
    LogFramesOf(payload, sent);
  }

  /** What a failed write leaves is the start of a frame within the limit. */
  lemma TailIncomplete(settings: Settings, c: Conn)
    requires |BannerPayload(settings.appName)| <= MAX_PAYLOAD_SIZE
    requires WellFormed(settings.ToConfig(), c)
    ensures Incomplete(c.tail)
  {
    if c.tail == [] {
      EmptyIncomplete();
    } else if c.bannered {
      var cfg := settings.ToConfig();
      var e: Entry :| cfg.frame(e.record).Some? && IsProperPrefix(c.tail, cfg.frame(e.record).value);
      EntryFrame(settings, e);
      CutIncomplete(c.tail, Frame(CMD_LOG, PayloadOf(settings, e)));
    } else {
      CutIncomplete(c.tail, BannerFrame(settings.appName));
    }
  }

  lemma CutIncomplete(tail: seq<byte>, f: Frame)
    requires WithinLimit(f) && IsProperPrefix(tail, Encode(f))
    ensures Incomplete(tail)
  {}

  lemma EntryFrame(settings: Settings, e: Entry)
    requires settings.ToConfig().frame(e.record).Some?
    ensures var f := Frame(CMD_LOG, PayloadOf(settings, e));
      WithinLimit(f) && settings.ToConfig().frame(e.record) == Some(Encode(f))
  {}

  /** The bytes of a connection are the encoding of its frames and an incomplete tail. */
  lemma ConnEncoded(settings: Settings, c: Conn)
    requires WellFormed(settings.ToConfig(), c)
    ensures c.bytes == EncodeAll(ConnFrames(settings, c)) + c.tail
  {
    if c.bannered {
      var banner, logs := BannerFrame(settings.appName), LogFrames(settings, c.sent);
      LogBytesEncode(settings, c.sent);
      assert ([banner] + logs)[1..] == logs;
    } else {
      assert [] + c.tail == c.tail;
    }
  }

  /** The session of a handler that got everything handed over on a connection. */
  function Understood(settings: Settings, c: Conn): Session {
    if c.bannered then
      Session(ConnFrames(settings, c), true, Some(settings.appName), |c.sent|, None)
    else NEW_SESSION
  }

  lemma ConnDelivered(settings: Settings, c: Conn)
    requires WellFormed(settings.ToConfig(), c)
    ensures DeliverAll(NEW_SESSION, ConnFrames(settings, c)) == Understood(settings, c)
  {
    if c.bannered {
      var banner, logs := BannerFrame(settings.appName), LogFrames(settings, c.sent);
      assert ([banner] + logs)[1..] == logs;
      BannerDelivered(settings.appName);
      LogFramesShape(settings, c.sent);
      DeliverAllLogs(Introduced(settings.appName), logs);
    }
  }

  /** However the bytes of a connection are cut into reads, the server takes out the banner and one
      frame for each entry written, rejects nothing, and keeps a cut-off frame in its buffer. */
  lemma ConnectionUnderstood(settings: Settings, c: Conn, chunks: seq<seq<byte>>)
    requires |BannerPayload(settings.appName)| <= MAX_PAYLOAD_SIZE
    requires WellFormed(settings.ToConfig(), c)
    requires Flatten(chunks) == c.bytes
    ensures FeedAll(Decoder(NEW_SESSION, []), chunks) == Decoder(Understood(settings, c), c.tail)
  {
    ConnDelivered(settings, c);
    ConnEncoded(settings, c);
    TailIncomplete(settings, c);
    LogFramesShape(settings, c.sent);
    ReassemblyInvertsFraming(ConnFrames(settings, c), c.tail, chunks);
  }

  lemma RejectionStays(a: seq<byte>, b: seq<byte>)
    ensures Drain(NEW_SESSION, a).session.rejected.Some? ==>
      Drain(NEW_SESSION, a + b).session == Drain(NEW_SESSION, a).session
    ensures Drain(NEW_SESSION, a).session.frames <= Drain(NEW_SESSION, a + b).session.frames
  {
    DrainSplit(NEW_SESSION, a, b);
    var d := Drain(NEW_SESSION, a);
    DrainGrows(d.session, d.buffer + b);
    if d.session.rejected.Some? {
      DrainRejected(d.session, d.buffer + b);
    }
  }

  // ---- All connections ------------------------------------------------------------------------

  /** The payloads of the log frames among some frames. */
  function LogPayloads(frames: seq<Frame>): seq<seq<byte>> {
    if frames == [] then []
    else
      LogPayloads(frames[..|frames| - 1])
      + if frames[|frames| - 1].command == LOG_COMMAND then [frames[|frames| - 1].payload] else []
  }

  /** What the server has of all connections, banners dropped, in the order of the connections. */
  function Decoded(wire: seq<seq<byte>>): seq<seq<byte>> {
    if wire == [] then []
    else
      Decoded(wire[..|wire| - 1])
      + LogPayloads(Drain(NEW_SESSION, wire[|wire| - 1]).session.frames)
  }

  function Wire(conns: seq<Conn>): seq<seq<byte>> {
    seq(|conns|, i requires 0 <= i < |conns| => conns[i].bytes)
  }

  lemma {:induction false} LogPayloadsOfLogs(payloads: seq<seq<byte>>)
    ensures LogPayloads(Mapped(LogFrame, payloads)) == payloads
  {
    if payloads != [] {
      var front, last := payloads[..|payloads| - 1], payloads[|payloads| - 1];
      LogPayloadsOfLogs(front);
      var logs := Mapped(LogFrame, payloads);
      assert logs[..|logs| - 1] == Mapped(LogFrame, front);
    }
  }

  lemma {:induction false} BannerDropped(banner: Frame, logs: seq<Frame>)
    requires banner.command != LOG_COMMAND
    ensures LogPayloads([banner] + logs) == LogPayloads(logs)
  {
    var frames := [banner] + logs;
    if logs == [] {
      assert frames[..0] == [];
    } else {
      assert frames[..|frames| - 1] == [banner] + logs[..|logs| - 1];
      BannerDropped(banner, logs[..|logs| - 1]);
    }
  }

  lemma PayloadsAppend(settings: Settings, a: seq<Entry>, b: seq<Entry>)
    ensures Payloads(settings, a + b) == Payloads(settings, a) + Payloads(settings, b)
  {
    MappedAppend(e => PayloadOf(settings, e), a, b);
  }

  lemma OneConnection(settings: Settings, c: Conn)
    requires |BannerPayload(settings.appName)| <= MAX_PAYLOAD_SIZE
    requires WellFormed(settings.ToConfig(), c)
    ensures Drain(NEW_SESSION, c.bytes).session == Understood(settings, c)
    ensures LogPayloads(Drain(NEW_SESSION, c.bytes).session.frames) == Payloads(settings, c.sent)
  {
    assert [c.bytes][1..] == [] && Flatten([c.bytes]) == c.bytes + [] == c.bytes;
    ConnectionUnderstood(settings, c, [c.bytes]);
    assert [] + c.bytes == c.bytes;
    if c.bannered {
      LogPayloadsOfLogs(Payloads(settings, c.sent));
      BannerDropped(BannerFrame(settings.appName), LogFrames(settings, c.sent));
    }
  }

  lemma {:induction false} AllConnections(settings: Settings, conns: seq<Conn>)
    requires |BannerPayload(settings.appName)| <= MAX_PAYLOAD_SIZE
    requires forall c <- conns :: WellFormed(settings.ToConfig(), c)
    ensures Decoded(Wire(conns)) == Payloads(settings, SentOn(conns))
  {
    if conns != [] {
      var front, last := conns[..|conns| - 1], conns[|conns| - 1];
      AllConnections(settings, front);
      WireSnoc(conns);
      DecodedSnoc(Wire(front), last.bytes);
      OneConnection(settings, last);
      PayloadsAppend(settings, SentOn(front), last.sent);
    }
  }

  lemma WireSnoc(conns: seq<Conn>)
    requires conns != []
    ensures Wire(conns) == Wire(conns[..|conns| - 1]) + [conns[|conns| - 1].bytes]
  {}

  lemma DecodedSnoc(wire: seq<seq<byte>>, bytes: seq<byte>)
    ensures Decoded(wire + [bytes]) == Decoded(wire) + LogPayloads(Drain(NEW_SESSION, bytes).session.frames)
  {
    assert (wire + [bytes])[..|wire|] == wire;
  }

  lemma WrittenPart(s: State)
    requires var flow := s.h.written + (Hand(s.pc) + s.q.items);
      && (forall i, j :: 0 <= i < j < |flow| ==> flow[i].id < flow[j].id)
      && (forall e <- flow :: e.id < |s.h.accepted| && s.h.accepted[e.id] == e)
    ensures forall i, j :: 0 <= i < j < |s.h.written| ==> s.h.written[i].id < s.h.written[j].id
    ensures forall e <- s.h.written :: e.id < |s.h.accepted| && s.h.accepted[e.id] == e
  {
    var flow := s.h.written + (Hand(s.pc) + s.q.items);
    forall i, j | 0 <= i < j < |s.h.written|
      ensures s.h.written[i].id < s.h.written[j].id
    {
      assert flow[i] == s.h.written[i] && flow[j] == s.h.written[j];
    }
  }

  /** In every reachable state the log frames that the server takes out of all connections, in
      order, are exactly the payloads of the entries written so far, across any number of failed
      writes and reconnects. */
  lemma EndToEnd(settings: Settings, s: State)
    requires |BannerPayload(settings.appName)| <= MAX_PAYLOAD_SIZE
    requires Reachable(settings.ToConfig(), s)
    ensures Decoded(Wire(s.conns)) == Payloads(settings, s.h.written)
  {
    Runs.InvReachable(settings.ToConfig(), s);
    AllConnections(settings, s.conns);
  }

  /** A parser that undoes the serialiser. */
  ghost predicate Undoes(parse: seq<byte> -> Object, serialize: Serializer) {
    forall o: Object :: serialize(o).Some? ==> parse(serialize(o).value) == o
  }

  /** The object is that of a record, and gives it back, its time to the millisecond, exactly if its
      year is one that the layout can show. */
  predicate Arrived(o: Object, r: Record) {
    && o == JsonOf(r)
    && (TP.ReadableDay(TP.FloorDays(r.time)) <==>
          Payload.ReadRecord(o) == Some(r.(time := TP.FloorMillis(r.time))))
  }

  /** Through any such parser the server reads the payloads back as the records of the entries
      written, one for one. */
  lemma RecordsArrive(settings: Settings, s: State, parse: seq<byte> -> Object)
    requires |BannerPayload(settings.appName)| <= MAX_PAYLOAD_SIZE
    requires Reachable(settings.ToConfig(), s) && Undoes(parse, settings.serialize)
    ensures var payloads := Decoded(Wire(s.conns));
      && |payloads| == |s.h.written|
      && forall i :: 0 <= i < |payloads| ==> Arrived(parse(payloads[i]), s.h.written[i].record)
  {
    EndToEnd(settings, s);
    Runs.InvReachable(settings.ToConfig(), s);
    MappedAt(e => PayloadOf(settings, e), s.h.written);
    var payloads := Decoded(Wire(s.conns));
    forall i | 0 <= i < |payloads|
      ensures Arrived(parse(payloads[i]), s.h.written[i].record)
    {
      assert s.h.written[i] in s.h.written && payloads[i] == PayloadOf(settings, s.h.written[i]);
      ParsesBack(settings, s.h.written[i], parse);
    }
  }

  lemma ParsesBack(settings: Settings, e: Entry, parse: seq<byte> -> Object)
    requires settings.ToConfig().frame(e.record).Some? && Undoes(parse, settings.serialize)
    ensures Arrived(parse(PayloadOf(settings, e)), e.record)
  {
    Payload.RecordRoundTripIff(e.record);
  }

  /** And over a run the entries written hold records that were logged before shutdown, in the order
      in which they were logged. */
  lemma WrittenWereLogged(settings: Settings, run: seq<Action>)
    requires Legal(settings.ToConfig(), Init(settings.ToConfig()), run)
    ensures var cfg := settings.ToConfig();
      var s, logged := Exec(cfg, Init(cfg), run), Runs.LoggedRecords(cfg, Init(cfg), run);
      && (forall i, j :: 0 <= i < j < |s.h.written| ==> s.h.written[i].id < s.h.written[j].id)
      && (forall e <- s.h.written :: e.id < |logged| && logged[e.id] == e.record)
  {
    var cfg := settings.ToConfig();
    var s, logged := Exec(cfg, Init(cfg), run), Runs.LoggedRecords(cfg, Init(cfg), run);
    DecodedInOrder(settings, s);
    Runs.AcceptedAreLogged(cfg, Init(cfg), run);
    assert Runs.Records(s.h.accepted) == logged;
  }

  /** And those are accepted entries, in the order accepted, each at most once. */
  lemma DecodedInOrder(settings: Settings, s: State)
    requires Reachable(settings.ToConfig(), s)
    ensures forall i, j :: 0 <= i < j < |s.h.written| ==> s.h.written[i].id < s.h.written[j].id
    ensures forall e <- s.h.written :: e.id < |s.h.accepted| && s.h.accepted[e.id] == e
  {
    Runs.WrittenInOrder(settings.ToConfig(), s);
    WrittenPart(s);
  }

  /** No stream of any run is rejected. Each one that got as far starts with a single banner, which
      carries the application's name, and holds one frame for each entry sent on it. */
  lemma StreamUnderstood(settings: Settings, s: State, c: Conn)
    requires |BannerPayload(settings.appName)| <= MAX_PAYLOAD_SIZE
    requires Reachable(settings.ToConfig(), s) && c in s.conns
    ensures Drain(NEW_SESSION, c.bytes).session == Understood(settings, c)
  {
    Runs.InvReachable(settings.ToConfig(), s);
    OneConnection(settings, c);
  }

  lemma ConnPrefix(settings: Settings, c: Conn, arrived: seq<byte>)
    requires Drain(NEW_SESSION, c.bytes).session == Understood(settings, c) && arrived <= c.bytes
    ensures Drain(NEW_SESSION, arrived).session.rejected.None?
    ensures Drain(NEW_SESSION, arrived).session.frames <= ConnFrames(settings, c)
  {
    var rest := c.bytes[|arrived|..];
    assert arrived + rest == c.bytes;
    RejectionStays(arrived, rest);
  }

  /** Bytes lost on the way do no harm: from any first part of what was handed over on a connection
      the server takes out a first part of its frames, and rejects nothing. */
  lemma PartialDelivery(settings: Settings, s: State, c: Conn, arrived: seq<byte>)
    requires |BannerPayload(settings.appName)| <= MAX_PAYLOAD_SIZE
    requires Reachable(settings.ToConfig(), s) && c in s.conns && arrived <= c.bytes
    ensures Drain(NEW_SESSION, arrived).session.rejected.None?
    ensures Drain(NEW_SESSION, arrived).session.frames <= ConnFrames(settings, c)
  {
    StreamUnderstood(settings, s, c);
    ConnPrefix(settings, c, arrived);
  }
}
