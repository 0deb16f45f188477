/** Frames and the log payload (src/proto.rs). */
module Proto {
  import opened Options
  import Timestamp

  type byte = x: nat | x < 256

  const CMD_BANNER: byte := 99
  const CMD_LOG: byte := 0
  /** `ECAPPLOG ` in ASCII, its trailing space included. */
  const BANNER_PREFIX: seq<byte> := [69, 67, 65, 80, 80, 76, 79, 71, 32]
  const MAX_PAYLOAD_SIZE: nat := 16 * 1024 * 1024
  const TWO_TO_THE_32: nat := 0x1_0000_0000

  datatype Record = Record(
    time: int, priority: string, category: string, message: string, source: string,
    originalCategory: string, extraCategories: seq<string>, color: string, bgColor: string)

  /** The object that is serialised as a log payload. */
  datatype LogPayload = LogPayload(
    time: string, priority: string, category: string, message: string, source: string,
    originalCategory: string, extraCategories: seq<string>, color: string, bgColor: string)
  {
    static function FromRecord(r: Record): LogPayload {
      LogPayload(Timestamp.FormatUtc(r.time), r.priority, r.category, r.message, r.source,
                 r.originalCategory, r.extraCategories, r.color, r.bgColor)
    }

    /** The members of the JSON object, in order. The first four are always there; of the others the
        empty ones are left out. */
    function ToObject(): Object {
      [("time", Text(time)), ("priority", Text(priority)), ("category", Text(category)),
       ("message", Text(message))]
      + Optional("source", source) + Optional("original_category", originalCategory)
      + (if extraCategories == [] then [] else [("extra_categories", List(extraCategories))])
      + Optional("color", color) + Optional("bgcolor", bgColor)
    }
  }

  datatype Json = Text(text: string) | List(texts: seq<string>)

  type Object = seq<(string, Json)>

  function Optional(key: string, value: string): Object {
    if value == "" then [] else [(key, Text(value))]
  }

  /** Writing an object as text is any function that may fail. */
  type Serializer = Object -> Option<seq<byte>>

  function JsonOf(r: Record): Object {
    LogPayload.FromRecord(r).ToObject()
  }

  datatype Frame = Frame(command: byte, payload: seq<byte>)

  /** `u32::to_be_bytes`. */
  function BigEndian(n: nat): (bytes: seq<byte>)
    requires n < TWO_TO_THE_32
    ensures |bytes| == 4
  {
    [n / 0x100_0000, n / 0x1_0000 % 0x100, n / 0x100 % 0x100, n % 0x100]
  }

  /** `u32::from_be_bytes`. */
  function FromBigEndian(bytes: seq<byte>): (n: nat)
    requires |bytes| == 4
    ensures n < TWO_TO_THE_32
  {
    var b0: nat, b1: nat, b2: nat, b3: nat := bytes[0], bytes[1], bytes[2], bytes[3];
    b0 * 0x100_0000 + b1 * 0x1_0000 + b2 * 0x100 + b3
  }

  lemma BigEndianInverse(n: nat)
    requires n < TWO_TO_THE_32
    ensures FromBigEndian(BigEndian(n)) == n
  {
    var a, b, c := n / 0x100, n / 0x1_0000, n / 0x100_0000;
    assert b == a / 0x100 && c == b / 0x100;
  }

  lemma FromBigEndianInverse(bytes: seq<byte>)
    requires |bytes| == 4
    ensures BigEndian(FromBigEndian(bytes)) == bytes
  {
    var n := FromBigEndian(bytes);
    var b0: nat, b1: nat, b2: nat := bytes[0], bytes[1], bytes[2];
    assert n / 0x100 == b0 * 0x1_0000 + b1 * 0x100 + b2;
    assert n / 0x1_0000 == b0 * 0x100 + b1;
    assert n / 0x100_0000 == b0;
  }

  /** The first byte that differs decides. */
  predicate Before(a: seq<byte>, b: seq<byte>) {
    a != [] && b != [] && (a[0] < b[0] || (a[0] == b[0] && Before(a[1..], b[1..])))
  }

  /** The most significant byte comes first: the order of lengths is the order of their bytes. */
  lemma BigEndianOrder(n: nat, m: nat)
    requires n < m < TWO_TO_THE_32
    ensures Before(BigEndian(n), BigEndian(m))
  {
    BigEndianInverse(n);
    BigEndianInverse(m);
    FirstDecides(BigEndian(n), BigEndian(m));
  }

  lemma FirstDecides(a: seq<byte>, b: seq<byte>)
    requires |a| == |b| == 4 && FromBigEndian(a) < FromBigEndian(b)
    ensures Before(a, b)
  {
    var a1, b1 := a[1..], b[1..];
    var a2, b2 := a1[1..], b1[1..];
    var a3, b3 := a2[1..], b2[1..];
    assert a3 == [a[3]] && b3 == [b[3]];
    assert a[0] == b[0] && a[1] == b[1] && a[2] == b[2] ==> Before(a3, b3);
    assert a[0] == b[0] && a[1] == b[1] ==> Before(a2, b2);
    assert a[0] == b[0] ==> Before(a1, b1);
  }

  /** The length field: the payload length cast to `u32`, which drops the high bits. */
  function LengthField(payload: seq<byte>): seq<byte> {
    BigEndian(|payload| % TWO_TO_THE_32)
  }

  function Encode(f: Frame): (bytes: seq<byte>)
    ensures |bytes| == 5 + |f.payload|
  {
    [f.command] + LengthField(f.payload) + f.payload
  }

  /** A frame byte by byte: the command, the low 32 bits of the payload length with the most
      significant byte first, and the payload. */
  lemma FrameBytes(f: Frame)
    ensures var b: seq<nat> := Encode(f);
      && b[0] == f.command
      && b[1] * 16777216 + b[2] * 65536 + b[3] * 256 + b[4] == |f.payload| % 4294967296
      && b[5..] == f.payload
  {
    BigEndianInverse(|f.payload| % TWO_TO_THE_32);
    assert Encode(f)[1..5] == LengthField(f.payload);
  }

  /** A log frame starts with the byte 0. */
  lemma LogFrameBytes(payload: seq<byte>)
    ensures Encode(Frame(CMD_LOG, payload))[0] == 0
    ensures Encode(Frame(CMD_LOG, payload))[5..] == payload
  {
    FrameBytes(Frame(CMD_LOG, payload));
  }

  /** A banner frame starts with the byte 99; its payload is `ECAPPLOG `, in ASCII, and the name. */
  lemma BannerFrameBytes(appName: seq<byte>)
    ensures var b := Encode(Frame(CMD_BANNER, BannerPayload(appName)));
      && b[0] == 99
      && b[5..14] == [69, 67, 65, 80, 80, 76, 79, 71, 32]
      && b[14..] == appName
  {
    var f := Frame(CMD_BANNER, BannerPayload(appName));
    FrameBytes(f);
    assert Encode(f)[5..14] == f.payload[..9] && Encode(f)[14..] == f.payload[9..];
  }

  function EncodeAll(frames: seq<Frame>): seq<byte> {
    if frames == [] then [] else Encode(frames[0]) + EncodeAll(frames[1..])
  }

  function BannerPayload(appName: seq<byte>): seq<byte> {
    BANNER_PREFIX + appName
  }

  /** What `write_record` will put into a log frame: the serialised payload, or nothing, exactly if
      serialisation fails or its result is over the limit. */
  function SendablePayload(serialize: Serializer, r: Record): (payload: Option<seq<byte>>)
    ensures payload.Some? ==>
      payload == serialize(JsonOf(r)) && |payload.value| <= MAX_PAYLOAD_SIZE
    ensures payload.None? ==>
      var json := serialize(JsonOf(r)); json.None? || |json.value| > MAX_PAYLOAD_SIZE
  {
    match serialize(JsonOf(r))
    case None => None
    case Some(json) => if |json| > MAX_PAYLOAD_SIZE then None else Some(json)
  }

  /** A growable byte buffer (`Vec<u8>`). */
  class ByteBuffer {
    var bytes: seq<byte>

    constructor ()
      ensures bytes == []
    {
      bytes := [];
    }

    method Clear()
      modifies this
      ensures bytes == []
    {
      bytes := [];
    }

    method Push(b: byte)
      modifies this
      ensures bytes == old(bytes) + [b]
    {
      bytes := bytes + [b];
    }

    method Extend(more: seq<byte>)
      modifies this
      ensures bytes == old(bytes) + more
    {
      bytes := bytes + more;
    }
  }

  /** Replaces whatever `out` held by one complete frame. */
  method EncodeFrame(command: byte, payload: seq<byte>, out: ByteBuffer)
    modifies out
    ensures out.bytes == Encode(Frame(command, payload))
  {
    out.Clear();
    out.Push(command);
    out.Extend(BigEndian(|payload| % TWO_TO_THE_32));
    out.Extend(payload);
  }

  method MakeBannerPayload(appName: seq<byte>) returns (payload: ByteBuffer)
    ensures fresh(payload) && payload.bytes == BannerPayload(appName)
  {
    payload := new ByteBuffer();
    payload.Extend(BANNER_PREFIX);
    payload.Extend(appName);
  }

  lemma {:induction false} EncodeAllAppend(a: seq<Frame>, b: seq<Frame>)
    ensures EncodeAll(a + b) == EncodeAll(a) + EncodeAll(b)
  {
    if a == [] {
      assert a + b == b;
    } else {
      assert (a + b)[1..] == a[1..] + b;
      EncodeAllAppend(a[1..], b);
    }
  }

  lemma EncodeAllSnoc(a: seq<Frame>, f: Frame)
    ensures EncodeAll(a + [f]) == EncodeAll(a) + Encode(f)
  {
    EncodeAllAppend(a, [f]);
    assert [f][1..] == [];
    assert EncodeAll([f]) == Encode(f) + [];
  }
}
