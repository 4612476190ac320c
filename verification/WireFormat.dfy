/** The length-prefixed NPIP framing of the control and remote channels. */
module WireFormat {
  import opened Bytes
  import opened Wrappers

  const MAGIC: Data := [0x4e, 0x50, 0x49, 0x50]  // "NPIP"
  const VERSION: Byte := 1
  const HEADER_SIZE := 12
  const MAX_PAYLOAD_SIZE := 8 * 1024 * 1024

  datatype Error = BadMagic(bytes: Data) | UnsupportedVersion(version: Byte) | PayloadTooLarge(size: nat)

  function EncodeHeader(payloadCount: nat): Result<Data, Error> {
    if payloadCount > MAX_PAYLOAD_SIZE then Err(PayloadTooLarge(payloadCount))
    else Ok(MAGIC + [VERSION, 0, 0, 0] + Encode32(payloadCount))
  }

  function DecodeHeader(header: Data): Result<nat, Error>
    requires |header| == HEADER_SIZE
  {
    if header[..4] != MAGIC then Err(BadMagic(header[..4]))
    else if header[4] != VERSION then Err(UnsupportedVersion(header[4]))
    else if Decode32(header, 8) > MAX_PAYLOAD_SIZE then Err(PayloadTooLarge(Decode32(header, 8)))
    else Ok(Decode32(header, 8))
  }

  function FrameOf(payload: Data): Result<Data, Error> {
    var header := EncodeHeader(|payload|);
    if header.Err? then header else Ok(header.value + payload)
  }

  datatype Pull = Wait | Bad(error: Error) | Got(payload: Data, rest: Data)

  /** The first complete frame of the bytes buffered so far. */
  function Next(buffer: Data): Pull {
    if |buffer| < HEADER_SIZE then Wait
    else
      var header := DecodeHeader(buffer[..HEADER_SIZE]);
      if header.Err? then Bad(header.error)
      else
        var total := HEADER_SIZE + header.value;
        if |buffer| < total then Wait else Got(buffer[HEADER_SIZE..total], buffer[total..])
  }

  /** A framed payload comes back whole, whatever follows it. */
  lemma NextFrame(payload: Data, rest: Data)
    requires |payload| <= MAX_PAYLOAD_SIZE
    ensures Next(FrameOf(payload).value + rest) == Got(payload, rest)
  {
    var head := MAGIC + [VERSION, 0, 0, 0];
    var buffer := FrameOf(payload).value + rest;
    DecodeWithin(head, |payload|, []);
    assert buffer[..HEADER_SIZE] == head + Encode32(|payload|) + [];
    assert buffer[..HEADER_SIZE][..4] == MAGIC;
    assert buffer[HEADER_SIZE..] == payload + rest;
    assert buffer[HEADER_SIZE..HEADER_SIZE + |payload|] == payload;
    assert buffer[HEADER_SIZE + |payload|..] == rest;
  }

  /** What a frame decodes to, or its error, does not change when more bytes arrive. */
  lemma NextIsStable(buffer: Data, more: Data)
    ensures match Next(buffer)
            case Wait => true
            case Bad(error) => Next(buffer + more) == Bad(error)
            case Got(payload, rest) => Next(buffer + more) == Got(payload, rest + more)
  {
    if |buffer| >= HEADER_SIZE {
      assert (buffer + more)[..HEADER_SIZE] == buffer[..HEADER_SIZE];
      var header := DecodeHeader(buffer[..HEADER_SIZE]);
      if header.Ok? && HEADER_SIZE + header.value <= |buffer| {
        var total := HEADER_SIZE + header.value;
        assert (buffer + more)[HEADER_SIZE..total] == buffer[HEADER_SIZE..total];
        assert (buffer + more)[total..] == buffer[total..] + more;
      }
    }
  }
}
