/** NPFR v2 frames: the 16-byte header of a file session and its reader. */
module FileFrames {
  import opened Bytes
  import opened Wrappers

  const FRAME_MAXIMUM := 65536
  const HEADER_SIZE := 16
  const MAGIC: Data := [0x4e, 0x50, 0x32, 0x46]  // "NP2F"
  const VERSION: Byte := 2

  datatype Role = Host | Guest {
    function Raw(): Byte { if Host? then 0 else 1 }
  }

  datatype FrameType = Hello | Request | Response | Payload | Notify | Cancel {
    function Raw(): Byte {
      match this
      case Hello => 1
      case Request => 2
      case Response => 3
      case Payload => 4
      case Notify => 5
      case Cancel => 6
    }

    /** Only these finish the sender's half of a stream. */
    predicate MayEnd() { Request? || Response? || Payload? }
  }

  datatype Frame = Frame(kind: FrameType, end: bool, id: nat, payload: Data) {
    predicate WellFormed() {
      && id <= UINT32_MAX
      && |payload| <= FRAME_MAXIMUM
      && (end ==> kind.MayEnd())
    }
  }

  function HelloFrame(role: Role): Frame {
    Frame(Hello, false, 0, [VERSION, role.Raw(), 0, 0] + Encode32(0))
  }

  function TypeOf(raw: Byte): Option<FrameType> {
    match raw
    case 1 => Some(Hello)
    case 2 => Some(Request)
    case 3 => Some(Response)
    case 4 => Some(Payload)
    case 5 => Some(Notify)
    case 6 => Some(Cancel)
    case _ => None
  }

  function Encode(f: Frame): Data
    requires f.WellFormed()
  {
    MAGIC + [f.kind.Raw(), if f.end then 1 else 0, 0, 0] + Encode32(f.id) + Encode32(|f.payload|) + f.payload
  }

  datatype ReadResult = Incomplete | Malformed | Read(frame: Frame, rest: Data)

  /** What the reader makes of the bytes received so far. */
  function ReadFrame(stream: Data): ReadResult {
    if |stream| < HEADER_SIZE then Incomplete
    else
      var id := Decode32(stream, 8);
      var length := Decode32(stream, 12);
      var kind := TypeOf(stream[4]);
      var flags := stream[5];
      if stream[..4] != MAGIC || stream[6] != 0 || stream[7] != 0 || length > FRAME_MAXIMUM || kind.None? then Malformed
      else if flags > (if kind.value.MayEnd() then 1 else 0) then Malformed
      else if |stream| < HEADER_SIZE + length then Incomplete
      else Read(Frame(kind.value, flags == 1, id, stream[HEADER_SIZE..HEADER_SIZE + length]), stream[HEADER_SIZE + length..])
  }

  /** The first eight bytes: the magic, the type and the flags. */
  function Head(f: Frame): Data { MAGIC + [f.kind.Raw(), if f.end then 1 else 0, 0, 0] }

  lemma EncodedParts(f: Frame, rest: Data)
    requires f.WellFormed()
    ensures var stream := Encode(f) + rest;
            && |stream| == HEADER_SIZE + |f.payload| + |rest|
            && stream[..8] == Head(f)
            && Decode32(stream, 8) == f.id && Decode32(stream, 12) == |f.payload|
            && stream[HEADER_SIZE..HEADER_SIZE + |f.payload|] == f.payload
            && stream[HEADER_SIZE + |f.payload|..] == rest
  {
    var stream, head, length := Encode(f) + rest, Head(f), Encode32(|f.payload|);
    DecodeWithin(head, f.id, length + f.payload + rest);
    assert stream == head + Encode32(f.id) + (length + f.payload + rest);
    DecodeWithin(head + Encode32(f.id), |f.payload|, f.payload + rest);
    assert stream == head + Encode32(f.id) + length + (f.payload + rest);
  }

  lemma HeadFields(f: Frame, stream: Data)
    requires |stream| >= 8 && stream[..8] == Head(f)
    ensures stream[..4] == MAGIC && stream[6] == 0 && stream[7] == 0
    ensures TypeOf(stream[4]) == Some(f.kind) && stream[5] == if f.end then 1 else 0
  {
    assert stream[..4] == stream[..8][..4];
    assert stream[4] == stream[..8][4] && stream[5] == stream[..8][5] && stream[6] == stream[..8][6] && stream[7] == stream[..8][7];
  }

  /** A frame survives the wire, whatever follows it. */
  lemma ReadEncoded(f: Frame, rest: Data)
    requires f.WellFormed()
    ensures ReadFrame(Encode(f) + rest) == Read(f, rest)
  {
    EncodedParts(f, rest);
    HeadFields(f, Encode(f) + rest);
  }

  /** The reader accepts nothing but encoded frames, so the encoding is the only one. */
  lemma EncodeRead(stream: Data)
    requires ReadFrame(stream).Read?
    ensures var r := ReadFrame(stream); r.frame.WellFormed() && Encode(r.frame) + r.rest == stream
  {
    var r := ReadFrame(stream);
    var f := r.frame;
    DecodeEncode(stream, 8);
    DecodeEncode(stream, 12);
    assert f.kind.Raw() == stream[4];
    assert stream[4..8] == [f.kind.Raw(), if f.end then 1 else 0, 0, 0];
    assert stream == stream[..4] + stream[4..8] + stream[8..12] + stream[12..16] + f.payload + r.rest;
  }

  function EncodeAll(frames: seq<Frame>): Data
    requires forall f <- frames :: f.WellFormed()
  {
    if frames == [] then [] else Encode(frames[0]) + EncodeAll(frames[1..])
  }

  /** Every complete frame at the front of the stream, in order. */
  function ReadAll(stream: Data): seq<Frame>
    decreases |stream|
  {
    match ReadFrame(stream)
    case Read(frame, rest) => [frame] + ReadAll(rest)
    case _ => []
  }

  /** Frames written back to back are read back one by one, in order. */
  lemma {:induction false} ReadAllEncoded(frames: seq<Frame>)
    requires forall f <- frames :: f.WellFormed()
    ensures ReadAll(EncodeAll(frames)) == frames
  {
    if frames != [] {
      ReadEncoded(frames[0], EncodeAll(frames[1..]));
      ReadAllEncoded(frames[1..]);
    }
  }
}
