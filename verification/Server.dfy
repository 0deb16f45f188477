/** The stand-in server's reassembly loop and validation (examples/mock_server.rs). */
module Server {
  import opened Options
  import opened Proto
  import opened Sequences

  // The constants of the protocol, as the server has them.
  const BANNER_COMMAND: byte := 99
  const LOG_COMMAND: byte := 0
  const PREFIX: seq<byte> := [69, 67, 65, 80, 80, 76, 79, 71, 32]
  const MAX_LENGTH: nat := 16 * 1024 * 1024

  datatype Rejection = TooLong | SecondBanner | NotABanner

  /** What the handler of one connection knows: the complete frames taken out of the stream so far,
      whether a banner came, the name it carried, how many log entries came, and why it hung up. */
  datatype Session = Session(
    frames: seq<Frame>, seenBanner: bool, appName: Option<seq<byte>>, count: nat,
    rejected: Option<Rejection>)

  const NEW_SESSION := Session([], false, None, 0, None)

  /** The session together with the bytes received but not yet consumed. */
  datatype Decoder = Decoder(session: Session, buffer: seq<byte>)

  /** Acting on one complete frame. Log payloads that are not JSON and unknown commands draw a
      complaint but do not end the session. */
  function Deliver(s: Session, f: Frame): Session {
    var s := s.(frames := s.frames + [f]);
    if f.command == BANNER_COMMAND then
      if s.seenBanner then s.(rejected := Some(SecondBanner))
      else if PREFIX <= f.payload then
        s.(seenBanner := true, appName := Some(f.payload[|PREFIX|..]))
      else s.(seenBanner := true, rejected := Some(NotABanner))
    else if f.command == LOG_COMMAND then s.(count := s.count + 1)
    else s
  }

  function DeclaredLength(buffer: seq<byte>): nat
    requires |buffer| >= 5
  {
    FromBigEndian(buffer[1..5])
  }

  predicate HoldsFrame(buffer: seq<byte>) {
    |buffer| >= 5 && |buffer| >= 5 + DeclaredLength(buffer)
  }

  /** Consuming frames until the buffer holds no complete one or the session is rejected. */
  function Drain(s: Session, buffer: seq<byte>): Decoder
    decreases |buffer|
  {
    if s.rejected.Some? || |buffer| < 5 then Decoder(s, buffer)
    else
      var length := DeclaredLength(buffer);
      if length > MAX_LENGTH then Decoder(s.(rejected := Some(TooLong)), buffer)
      else if |buffer| < 5 + length then Decoder(s, buffer)
      else Drain(Deliver(s, Frame(buffer[0], buffer[5..5 + length])), buffer[5 + length..])
  }

  function Feed(d: Decoder, chunk: seq<byte>): Decoder {
    Drain(d.session, d.buffer + chunk)
  }

  function FeedAll(d: Decoder, chunks: seq<seq<byte>>): Decoder
    decreases |chunks|
  {
    if chunks == [] then d else FeedAll(Feed(d, chunks[0]), chunks[1..])
  }

  function Flatten(chunks: seq<seq<byte>>): seq<byte> {
    if chunks == [] then [] else chunks[0] + Flatten(chunks[1..])
  }

  /** The outcome of one `read`; zero bytes means the peer hung up. */
  datatype Read = Data(bytes: seq<byte>) | ReadError

  /** The bytes received before the stream ends. */
  function Received(input: seq<Read>): seq<byte> {
    if input == [] || input[0].ReadError? || input[0].bytes == [] then []
    else input[0].bytes + Received(input[1..])
  }

  /** Acting on one complete frame, step by step. */
  method Act(s: Session, command: byte, payload: seq<byte>) returns (session: Session)
    ensures session == Deliver(s, Frame(command, payload))
  {
    session := s.(frames := s.frames + [Frame(command, payload)]);
    if command == BANNER_COMMAND {
      if session.seenBanner {
        session := session.(rejected := Some(SecondBanner));
        return;
      }
      session := session.(seenBanner := true);
      if PREFIX <= payload {
        session := session.(appName := Some(payload[|PREFIX|..]));
      } else {
        session := session.(rejected := Some(NotABanner));
      }
    } else if command == LOG_COMMAND {
      session := session.(count := session.count + 1);
    }
  }

  /** The decoding loop run after each read: an offset moves over the buffer and the consumed part
      is cut off at the end. */
  method DecodeBuffered(s: Session, received: seq<byte>) returns (session: Session, buffer: seq<byte>)
    requires s.rejected.None?
    ensures Decoder(session, buffer) == Drain(s, received)
  {
    session := s;
    buffer := received;
    var offset := 0;
    while |buffer| >= offset + 5
      invariant 0 <= offset <= |buffer| && buffer == received
      invariant session.rejected.None?
      invariant Drain(s, buffer) == Drain(session, buffer[offset..])
      decreases |buffer| - offset
    {
      var command := buffer[offset];
      var lengthField := [buffer[offset + 1], buffer[offset + 2], buffer[offset + 3], buffer[offset + 4]];
      var length := FromBigEndian(lengthField);
      ghost var rest := buffer[offset..];
      assert rest[1..5] == lengthField;
      assert DeclaredLength(rest) == length;
      if length > MAX_LENGTH {
        DrainTooLong(session, rest);
        session := session.(rejected := Some(TooLong));
        buffer := buffer[offset..];
        return;
      }
      if |buffer| < offset + 5 + length {
        DrainWaits(session, rest);
        break;
      }
      var payload := buffer[offset + 5..offset + 5 + length];
      offset := offset + 5 + length;
      assert rest[5..5 + length] == payload && rest[5 + length..] == buffer[offset..];
      DrainStep(session, rest);
      session := Act(session, command, payload);
      if session.rejected.Some? {
        DrainRejected(session, buffer[offset..]);
        buffer := buffer[offset..];
        return;
      }
    }
    buffer := buffer[offset..];
  }

  function Reads(chunks: seq<seq<byte>>): seq<Read> {
    if chunks == [] then [] else [Data(chunks[0])] + Reads(chunks[1..])
  }

  /** What comes after the end of a stream, or nothing. */
  predicate Ended(input: seq<Read>) {
    input == [] || input[0] == ReadError || input[0] == Data([])
  }

  /** The reads bring these chunks, none of them empty, and then the stream ends. */
  predicate Brings(input: seq<Read>, chunks: seq<seq<byte>>, rest: seq<Read>) {
    (forall c <- chunks :: c != []) && Ended(rest) && input == Reads(chunks) + rest
  }

  /** Then what is received is exactly the chunks put together. */
  lemma {:induction false} ReceivedChunks(chunks: seq<seq<byte>>, rest: seq<Read>)
    requires Brings(Reads(chunks) + rest, chunks, rest)
    ensures Received(Reads(chunks) + rest) == Flatten(chunks)
    decreases |chunks|
  {
    if chunks == [] {
      assert Reads(chunks) + rest == rest;
    } else {
      var input := Reads(chunks) + rest;
      assert chunks[0] in chunks && forall c <- chunks[1..] :: c in chunks;
      assert input[0] == Data(chunks[0]) && input[1..] == Reads(chunks[1..]) + rest;
      ReceivedChunks(chunks[1..], rest);
    }
  }

  /** The handler of one connection, over the outcomes of its reads: it takes in every chunk up to
      the end of the stream. */
  method Handle(input: seq<Read>) returns (session: Session, buffer: seq<byte>)
    ensures forall chunks: seq<seq<byte>>, rest: seq<Read> :: Brings(input, chunks, rest) ==>
      session == FeedAll(Decoder(NEW_SESSION, []), chunks).session
    ensures session == Drain(NEW_SESSION, Received(input)).session
    ensures session.rejected.None? ==> buffer == Drain(NEW_SESSION, Received(input)).buffer
  {
    forall chunks: seq<seq<byte>>, rest: seq<Read> | Brings(input, chunks, rest)
      ensures Drain(NEW_SESSION, Received(input)) == FeedAll(Decoder(NEW_SESSION, []), chunks)
    {
      ReceivedChunks(chunks, rest);
      FeedNew(chunks);
    }
    buffer := [];
    session := NEW_SESSION;
    var next := 0;
    assert input[0..] == input && buffer + Received(input) == Received(input);
    while next < |input|
      invariant 0 <= next <= |input|
      invariant session.rejected.None?
      invariant Drain(session, buffer) == Decoder(session, buffer)
      invariant Drain(NEW_SESSION, Received(input)) == Drain(session, buffer + Received(input[next..]))
    {
      if input[next].ReadError? || input[next].bytes == [] {
        break;
      }
      ghost var tail := Received(input[next + 1..]);
      assert input[next..][1..] == input[next + 1..];
      assert buffer + Received(input[next..]) == (buffer + input[next].bytes) + tail;
      buffer := buffer + input[next].bytes;
      DrainSplit(session, buffer, tail);
      DrainDrained(session, buffer);
      session, buffer := DecodeBuffered(session, buffer);
      if session.rejected.Some? {
        DrainRejected(session, buffer + tail);
        return;
      }
      next := next + 1;
    }
    assert buffer + Received(input[next..]) == buffer;
  }

  lemma DrainEmpty(s: Session)
    ensures Drain(s, []) == Decoder(s, [])
  {}

  lemma DrainStep(s: Session, buffer: seq<byte>)
    requires s.rejected.None? && HoldsFrame(buffer) && DeclaredLength(buffer) <= MAX_LENGTH
    ensures var end := 5 + DeclaredLength(buffer);
      Drain(s, buffer) == Drain(Deliver(s, Frame(buffer[0], buffer[5..end])), buffer[end..])
  {}

  lemma DrainRejected(s: Session, buffer: seq<byte>)
    requires s.rejected.Some?
    ensures Drain(s, buffer) == Decoder(s, buffer)
  {}

  lemma DrainWaits(s: Session, buffer: seq<byte>)
    requires s.rejected.None? && !HoldsFrame(buffer)
    requires |buffer| >= 5 ==> DeclaredLength(buffer) <= MAX_LENGTH
    ensures Drain(s, buffer) == Decoder(s, buffer)
  {}

  lemma DrainTooLong(s: Session, buffer: seq<byte>)
    requires s.rejected.None? && |buffer| >= 5 && DeclaredLength(buffer) > MAX_LENGTH
    ensures Drain(s, buffer) == Decoder(s.(rejected := Some(TooLong)), buffer)
  {}

  /** Chunking does not matter: draining what has come and then the rest drains the whole. */
  lemma {:induction false} DrainSplit(s: Session, a: seq<byte>, b: seq<byte>)
    ensures Drain(s, a + b) == Drain(Drain(s, a).session, Drain(s, a).buffer + b)
    decreases |a|
  {
    if s.rejected.Some? {
      DrainRejected(s, a);
    } else if |a| >= 5 && DeclaredLength(a) > MAX_LENGTH {
      SameHeader(a, b);
      DrainTooLong(s, a);
      DrainTooLong(s, a + b);
      DrainRejected(s.(rejected := Some(TooLong)), a + b);
    } else if !HoldsFrame(a) {
      DrainWaits(s, a);
    } else {
      var end := 5 + DeclaredLength(a);
      SameHeader(a, b);
      assert (a + b)[5..end] == a[5..end] && (a + b)[end..] == a[end..] + b;
      DrainStep(s, a);
      DrainStep(s, a + b);
      DrainSplit(Deliver(s, Frame(a[0], a[5..end])), a[end..], b);
    }
  }

  lemma SameHeader(a: seq<byte>, b: seq<byte>)
    requires |a| >= 5
    ensures (a + b)[0] == a[0] && DeclaredLength(a + b) == DeclaredLength(a)
  {
    assert (a + b)[1..5] == a[1..5];
  }

  /** A handler fed in chunks has the state of one that got everything at once. */
  lemma {:induction false} FeedAllFlatten(d: Decoder, chunks: seq<seq<byte>>)
    requires d == Drain(d.session, d.buffer)
    ensures FeedAll(d, chunks) == Drain(d.session, d.buffer + Flatten(chunks))
    decreases |chunks|
  {
    if chunks == [] {
      assert d.buffer + [] == d.buffer;
    } else {
      var first, rest := d.buffer + chunks[0], Flatten(chunks[1..]);
      DrainDrained(d.session, first);
      FeedAllFlatten(Feed(d, chunks[0]), chunks[1..]);
      DrainSplit(d.session, first, rest);
      Associative(d.buffer, chunks[0], rest);
    }
  }

  /** What draining leaves is drained: no complete frame stays behind in a live session. */
  lemma {:induction false} DrainDrained(s: Session, buffer: seq<byte>)
    ensures var d := Drain(s, buffer);
      && Drain(d.session, d.buffer) == d
      && (d.session.rejected.None? ==> !HoldsFrame(d.buffer))
    decreases |buffer|
  {
    if s.rejected.None? && |buffer| >= 5 {
      var length := DeclaredLength(buffer);
      if length <= MAX_LENGTH && |buffer| >= 5 + length {
        DrainDrained(Deliver(s, Frame(buffer[0], buffer[5..5 + length])), buffer[5 + length..]);
      }
    }
  }

  lemma DeclaredSmall(field: seq<byte>)
    requires |field| == 4
    ensures FromBigEndian(field) % TWO_TO_THE_32 == FromBigEndian(field)
  {}

  lemma FrameAtHead(buffer: seq<byte>)
    requires HoldsFrame(buffer)
    ensures var length := DeclaredLength(buffer);
      buffer == Encode(Frame(buffer[0], buffer[5..5 + length])) + buffer[5 + length..]
  {
    FromBigEndianInverse(buffer[1..5]);
    var length := DeclaredLength(buffer);
    var payload := buffer[5..5 + length];
    DeclaredSmall(buffer[1..5]);
    assert LengthField(payload) == buffer[1..5];
    assert buffer == [buffer[0]] + buffer[1..5] + payload + buffer[5 + length..];
  }

  /** Nothing is lost or made up: the frames taken out, encoded again, followed by what is left,
      are the bytes received. */
  lemma {:induction false} DrainConserves(s: Session, buffer: seq<byte>)
    ensures var d := Drain(s, buffer);
      EncodeAll(d.session.frames) + d.buffer == EncodeAll(s.frames) + buffer
    decreases |buffer|
  {
    if s.rejected.None? && HoldsFrame(buffer) && DeclaredLength(buffer) <= MAX_LENGTH {
      var end := 5 + DeclaredLength(buffer);
      var f, rest := Frame(buffer[0], buffer[5..end]), buffer[end..];
      DrainStep(s, buffer);
      DrainConserves(Deliver(s, f), rest);
      FrameAtHead(buffer);
      ShiftFrame(s, f, rest);
    }
  }

  lemma ShiftFrame(s: Session, f: Frame, rest: seq<byte>)
    ensures EncodeAll(Deliver(s, f).frames) + rest == EncodeAll(s.frames) + (Encode(f) + rest)
  {
    EncodeAllSnoc(s.frames, f);
    assert Deliver(s, f).frames == s.frames + [f];
    Associative(EncodeAll(s.frames), Encode(f), rest);
  }

  predicate WithinLimit(f: Frame) {
    |f.payload| <= MAX_LENGTH
  }

  lemma EncodedHead(f: Frame, rest: seq<byte>)
    ensures var buffer := Encode(f) + rest;
      && |buffer| >= 5 && buffer[0] == f.command
      && DeclaredLength(buffer) == |f.payload| % TWO_TO_THE_32
      && (WithinLimit(f) ==>
        DeclaredLength(buffer) == |f.payload|
        && buffer[5..5 + |f.payload|] == f.payload && buffer[5 + |f.payload|..] == rest)
  {
    var buffer := Encode(f) + rest;
    assert buffer[1..5] == LengthField(f.payload);
    BigEndianInverse(|f.payload| % TWO_TO_THE_32);
  }

  lemma DrainFrame(s: Session, f: Frame, rest: seq<byte>)
    requires s.rejected.None? && WithinLimit(f)
    ensures Drain(s, Encode(f) + rest) == Drain(Deliver(s, f), rest)
  {
    EncodedHead(f, rest);
    DrainStep(s, Encode(f) + rest);
  }

  /** The session after a list of frames, up to and including the first that is rejected. */
  function DeliverAll(s: Session, frames: seq<Frame>): Session
    decreases |frames|
  {
    if frames == [] || s.rejected.Some? then s else DeliverAll(Deliver(s, frames[0]), frames[1..])
  }

  /** A tail that cannot yet be told from the start of some frame within the limit. */
  ghost predicate Incomplete(tail: seq<byte>) {
    exists f: Frame :: WithinLimit(f) && IsProperPrefix(tail, Encode(f))
  }

  lemma DrainIncomplete(s: Session, tail: seq<byte>)
    requires Incomplete(tail)
    ensures Drain(s, tail) == Decoder(s, tail)
  {
    var f: Frame :| WithinLimit(f) && IsProperPrefix(tail, Encode(f));
    if |tail| >= 5 {
      EncodedHead(f, []);
      assert Encode(f) + [] == Encode(f);
      assert tail[1..5] == Encode(f)[1..5];
    }
  }

  /** Reassembly inverts framing: the session is that of the frames themselves, up to the one that
      the validation hangs up on, if any. Otherwise an incomplete tail stays in the buffer. */
  lemma {:induction false} DrainEncoded(s: Session, frames: seq<Frame>, tail: seq<byte>)
    requires forall f <- frames :: WithinLimit(f)
    requires Incomplete(tail)
    ensures Drain(s, EncodeAll(frames) + tail).session == DeliverAll(s, frames)
    ensures DeliverAll(s, frames).rejected.None? ==> Drain(s, EncodeAll(frames) + tail).buffer == tail
    decreases |frames|
  {
    if s.rejected.Some? {
      DrainRejected(s, EncodeAll(frames) + tail);
    } else if frames == [] {
      assert [] + tail == tail;
      DrainIncomplete(s, tail);
    } else {
      var f := frames[0];
      var rest := EncodeAll(frames[1..]) + tail;
      Associative(Encode(f), EncodeAll(frames[1..]), tail);
      DrainFrame(s, f, rest);
      DrainEncoded(Deliver(s, f), frames[1..], tail);
    }
  }

  lemma EmptyIncomplete()
    ensures Incomplete([])
  {
    assert IsProperPrefix([], Encode(Frame(0, [])));
    assert WithinLimit(Frame(0, []));
  }

  /** Which frames get through depends on the frames alone: log frames and unknown commands always
      do, a banner does when it is the first one and has the prefix. */
  lemma {:induction false} DeliverAllLogs(s: Session, frames: seq<Frame>)
    requires s.rejected.None?
    requires forall f :: f in frames ==> f.command == LOG_COMMAND
    ensures DeliverAll(s, frames) == s.(frames := s.frames + frames, count := s.count + |frames|)
    decreases |frames|
  {
    if frames == [] {
      assert s.frames + [] == s.frames;
    } else {
      DeliverAllLogs(Deliver(s, frames[0]), frames[1..]);
      assert s.frames + frames == s.frames + [frames[0]] + frames[1..];
    }
  }

  function BannerFrame(appName: seq<byte>): Frame {
    Frame(CMD_BANNER, BannerPayload(appName))
  }

  function Introduced(appName: seq<byte>): Session {
    Session([BannerFrame(appName)], true, Some(appName), 0, None)
  }

  lemma BannerDelivered(appName: seq<byte>)
    ensures Deliver(NEW_SESSION, BannerFrame(appName)) == Introduced(appName)
  {
    assert BannerPayload(appName)[|BANNER_PREFIX|..] == appName;
    assert NEW_SESSION.frames + [BannerFrame(appName)] == [BannerFrame(appName)];
  }

  /** Over the limit the declared length is rejected or, after the cast to `u32`, too short. */
  lemma FrameMisread(f: Frame)
    requires !WithinLimit(f)
    ensures Drain(NEW_SESSION, Encode(f)).session != Deliver(NEW_SESSION, f)
  {
    var bytes := Encode(f);
    assert bytes + [] == bytes;
    EncodedHead(f, []);
    var length := DeclaredLength(bytes);
    if length <= MAX_LENGTH {
      var first := Frame(bytes[0], bytes[5..5 + length]);
      DrainStep(NEW_SESSION, bytes);
      FirstFrameStays(first, bytes[5 + length..]);
      assert |first.payload| != |f.payload|;
      assert Deliver(NEW_SESSION, f).frames == [f];
    } else {
      DrainTooLong(NEW_SESSION, bytes);
      assert Deliver(NEW_SESSION, f).frames == [f];
    }
  }

  lemma FrameTaken(f: Frame)
    requires WithinLimit(f)
    ensures Drain(NEW_SESSION, Encode(f)).session == Deliver(NEW_SESSION, f)
  {
    assert Encode(f) + [] == Encode(f);
    DrainFrame(NEW_SESSION, f, []);
    DrainEmpty(Deliver(NEW_SESSION, f));
  }

  lemma FirstFrameStays(first: Frame, rest: seq<byte>)
    ensures var frames := Drain(Deliver(NEW_SESSION, first), rest).session.frames;
      |frames| >= 1 && frames[0] == first
  {
    DrainGrows(Deliver(NEW_SESSION, first), rest);
    assert Deliver(NEW_SESSION, first).frames == [first];
  }

  /** The client sends an entry exactly if the server takes its log frame. */
  lemma SentIffTaken(serialize: Serializer, r: Record, json: seq<byte>)
    requires serialize(JsonOf(r)) == Some(json)
    ensures SendablePayload(serialize, r) == Some(json) <==>
      Drain(NEW_SESSION, Encode(Frame(CMD_LOG, json))).session
        == Session([Frame(CMD_LOG, json)], false, None, 1, None)
  {
    var f := Frame(CMD_LOG, json);
    assert NEW_SESSION.frames + [f] == [f];
    if WithinLimit(f) {
      FrameTaken(f);
    } else {
      FrameMisread(f);
    }
  }

  function Banners(frames: seq<Frame>): nat {
    if frames == [] then 0
    else (if frames[0].command == BANNER_COMMAND then 1 else 0) + Banners(frames[1..])
  }

  function Logs(frames: seq<Frame>): nat {
    if frames == [] then 0
    else (if frames[0].command == LOG_COMMAND then 1 else 0) + Logs(frames[1..])
  }

  /** What the first banner says after the prefix. */
  function NameGiven(frames: seq<Frame>): Option<seq<byte>> {
    if frames == [] then None
    else if frames[0].command != BANNER_COMMAND then NameGiven(frames[1..])
    else if |frames[0].payload| >= 9 then Some(frames[0].payload[9..])
    else None
  }

  predicate BannersWellFormed(frames: seq<Frame>) {
    forall f <- frames :: f.command == BANNER_COMMAND ==> PREFIX <= f.payload
  }

  /** The validation, exactly: a session gets through a list of frames if and only if at most one
      banner comes in all and each banner has the prefix. Then it has counted the log frames, and
      it knows a name if and only if a banner came. */
  lemma {:induction false} ValidationExact(s: Session, frames: seq<Frame>)
    requires s.rejected.None? && (s.seenBanner <==> s.appName.Some?)
    ensures DeliverAll(s, frames).rejected.None? <==>
      Banners(frames) + (if s.seenBanner then 1 else 0) <= 1 && BannersWellFormed(frames)
    ensures var s' := DeliverAll(s, frames);
      s'.rejected.None? ==>
        && s'.count == s.count + Logs(frames)
        && (s'.seenBanner <==> s.seenBanner || Banners(frames) == 1)
        && (s'.seenBanner <==> s'.appName.Some?)
        && s'.appName == if Banners(frames) == 0 then s.appName else NameGiven(frames)
    decreases |frames|
  {
    if frames != [] {
      var f, rest := frames[0], frames[1..];
      var s1 := Deliver(s, f);
      assert BannersWellFormed(frames) <==>
        (f.command == BANNER_COMMAND ==> PREFIX <= f.payload) && BannersWellFormed(rest) by {
        assert frames == [f] + rest;
      }
      if s1.rejected.None? {
        ValidationExact(s1, rest);
      }
    }
  }

  /** The rejection, exactly: the first banner that has no prefix or is not the first one is where the
      session ends, and which of the two it was is the reason. Frames after it are not looked at. */
  lemma {:induction false} RejectionExact(s: Session, frames: seq<Frame>) returns (k: nat)
    requires s.rejected.None? && DeliverAll(s, frames).rejected.Some?
    ensures k < |frames| && frames[k].command == BANNER_COMMAND
    ensures DeliverAll(s, frames[..k]).rejected.None?
    ensures var s' := DeliverAll(s, frames);
      && s'.frames == s.frames + frames[..k + 1]
      && s'.rejected == Some(if DeliverAll(s, frames[..k]).seenBanner then SecondBanner else NotABanner)
      && (s'.rejected == Some(NotABanner) ==> !(PREFIX <= frames[k].payload))
    decreases |frames|
  {
    var s1 := Deliver(s, frames[0]);
    if s1.rejected.Some? {
      k := 0;
      assert frames[..1] == [frames[0]];
    } else {
      var rest := frames[1..];
      k := RejectionExact(s1, rest);
      assert frames[..k + 1][1..] == rest[..k];
      assert s.frames + frames[..k + 2] == s1.frames + rest[..k + 1];
      k := k + 1;
    }
  }

  /** A head that declares more than the limit ends the session, whatever frames came before it and
      however the bytes are cut, unless one of those frames has ended it already. */
  lemma OversizeRejected(frames: seq<Frame>, head: seq<byte>, chunks: seq<seq<byte>>)
    requires forall f <- frames :: WithinLimit(f)
    requires |head| >= 5 && DeclaredLength(head) > MAX_LENGTH
    requires Flatten(chunks) == EncodeAll(frames) + head
    ensures var before := DeliverAll(NEW_SESSION, frames);
      FeedAll(Decoder(NEW_SESSION, []), chunks).session ==
        if before.rejected.None? then before.(rejected := Some(TooLong)) else before
  {
    var sent := EncodeAll(frames);
    FeedNew(chunks);
    EmptyIncomplete();
    DrainEncoded(NEW_SESSION, frames, []);
    assert sent + [] == sent;
    DrainSplit(NEW_SESSION, sent, head);
    var d := Drain(NEW_SESSION, sent);
    if d.session.rejected.Some? {
      DrainRejected(d.session, d.buffer + head);
    } else {
      assert [] + head == head;
    }
  }

  lemma FeedNew(chunks: seq<seq<byte>>)
    ensures FeedAll(Decoder(NEW_SESSION, []), chunks) == Drain(NEW_SESSION, Flatten(chunks))
  {
    DrainEmpty(NEW_SESSION);
    FeedAllFlatten(Decoder(NEW_SESSION, []), chunks);
    assert [] + Flatten(chunks) == Flatten(chunks);
  }

  /** A banner frame is understood, name and all, exactly when its payload is within 16 MiB. */
  lemma BannerUnderstoodIff(appName: seq<byte>)
    ensures Drain(NEW_SESSION, Encode(BannerFrame(appName))).session == Introduced(appName)
      <==> 9 + |appName| <= 16777216
  {
    BannerDelivered(appName);
    if WithinLimit(BannerFrame(appName)) {
      FrameTaken(BannerFrame(appName));
    } else {
      FrameMisread(BannerFrame(appName));
    }
  }

  /** Frames once taken out are kept. */
  lemma {:induction false} DrainGrows(s: Session, buffer: seq<byte>)
    ensures s.frames <= Drain(s, buffer).session.frames
    decreases |buffer|
  {
    if s.rejected.None? && |buffer| >= 5 {
      var length := DeclaredLength(buffer);
      if length <= MAX_LENGTH && |buffer| >= 5 + length {
        DrainGrows(Deliver(s, Frame(buffer[0], buffer[5..5 + length])), buffer[5 + length..]);
      }
    }
  }

  /** Reassembly inverts framing under any chunking: however the encoding of any list of frames
      within the limit is cut into reads, the handler's session is that of the frames. Unless the
      validation hangs up on one, exactly those frames come out and an incomplete tail stays. */
  lemma ReassemblyInvertsFraming(frames: seq<Frame>, tail: seq<byte>, chunks: seq<seq<byte>>)
    requires forall f <- frames :: WithinLimit(f)
    requires Incomplete(tail)
    requires Flatten(chunks) == EncodeAll(frames) + tail
    ensures var d := FeedAll(Decoder(NEW_SESSION, []), chunks);
      && d.session == DeliverAll(NEW_SESSION, frames)
      && d.session.frames <= frames
      && (d.session.rejected.None? ==> d.session.frames == frames && d.buffer == tail)
  {
    FeedNew(chunks);
    DrainEncoded(NEW_SESSION, frames, tail);
    DeliverAllFrames(NEW_SESSION, frames);
    assert NEW_SESSION.frames + frames == frames;
  }

  /** The validation, on the bytes: under any chunking the handler gets through a stream of frames
      within the limit exactly when at most one banner comes and each banner has the prefix. */
  lemma StreamAcceptedIff(frames: seq<Frame>, tail: seq<byte>, chunks: seq<seq<byte>>)
    requires forall f <- frames :: WithinLimit(f)
    requires Incomplete(tail)
    requires Flatten(chunks) == EncodeAll(frames) + tail
    ensures FeedAll(Decoder(NEW_SESSION, []), chunks).session.rejected.None? <==>
      Banners(frames) <= 1 && BannersWellFormed(frames)
  {
    ReassemblyInvertsFraming(frames, tail, chunks);
    ValidationExact(NEW_SESSION, frames);
  }

  /** What a session has taken out is a first part of the frames sent, all of them if none was
      hung up on. */
  lemma {:induction false} DeliverAllFrames(s: Session, frames: seq<Frame>)
    ensures DeliverAll(s, frames).frames <= s.frames + frames
    ensures DeliverAll(s, frames).rejected.None? ==> DeliverAll(s, frames).frames == s.frames + frames
    decreases |frames|
  {
    if frames != [] && s.rejected.None? {
      DeliverAllFrames(Deliver(s, frames[0]), frames[1..]);
      assert s.frames + frames == s.frames + [frames[0]] + frames[1..];
    }
  }

  /** A concrete name that is too long: the server hangs up on the banner. */
  lemma LongNameRejected()
    ensures var appName: seq<byte> := seq(MAX_PAYLOAD_SIZE, i => 65);
      Drain(NEW_SESSION, Encode(BannerFrame(appName))).session == NEW_SESSION.(rejected := Some(TooLong))
  {
    var appName: seq<byte> := seq(MAX_PAYLOAD_SIZE, i => 65);
    var bytes := Encode(BannerFrame(appName));
    EncodedHead(BannerFrame(appName), []);
    assert bytes + [] == bytes;
    DrainTooLong(NEW_SESSION, bytes);
  }
}
