/** The reassembler of NPIP frames out of a byte stream, as the control channel uses it. */
module FrameDecoding {
  import opened Wrappers
  import opened Bytes
  import opened Draining
  import WireFormat

  function Step(buffer: Data): (Data, Outcome<Data, WireFormat.Error>) {
    match WireFormat.Next(buffer)
    case Wait => (buffer, Idle)
    case Bad(error) => (buffer, Failed(error))
    case Got(payload, rest) => (rest, Emitted(payload))
  }

  function Pulling(): Machine<Data, Data, WireFormat.Error> {
    Machine((buffer: Data) => Step(buffer), (buffer: Data, bytes: Data) => buffer + bytes, (buffer: Data) => |buffer|)
  }

  lemma DecoderIsIncremental()
    ensures Incremental(Pulling())
  {
    var m := Pulling();
    forall buffer: Data, more: Data ensures StableAt(m, buffer, more) { WireFormat.NextIsStable(buffer, more); }
    forall buffer: Data ensures m.append(buffer, []) == buffer { assert buffer + [] == buffer; }
    forall buffer: Data, a: Data, b: Data ensures m.append(m.append(buffer, a), b) == m.append(buffer, a + b) {
      assert buffer + a + b == buffer + (a + b);
    }
  }

  function FrameAll(payloads: seq<Data>): Data
    requires forall p <- payloads :: |p| <= WireFormat.MAX_PAYLOAD_SIZE
  {
    if payloads == [] then [] else WireFormat.FrameOf(payloads[0]).value + FrameAll(payloads[1..])
  }

  lemma {:induction false} WholeFrames(payloads: seq<Data>)
    requires Incremental(Pulling()) && forall p <- payloads :: |p| <= WireFormat.MAX_PAYLOAD_SIZE
    ensures Drain(Pulling(), FrameAll(payloads)) == Drained([], payloads, None)
    decreases |payloads|
  {
    var m := Pulling();
    if payloads == [] {
      assert m.next([]) == ([], Idle);
    } else {
      var rest := FrameAll(payloads[1..]);
      WireFormat.NextFrame(payloads[0], rest);
      assert m.next(FrameAll(payloads)) == (rest, Emitted(payloads[0]));
      WholeFrames(payloads[1..]);
      assert [payloads[0]] + payloads[1..] == payloads;
    }
  }

  /** Frames come back as they were written, however the stream between them is cut. */
  lemma FramesComeBack(payloads: seq<Data>, chunks: seq<Data>)
    requires forall p <- payloads :: |p| <= WireFormat.MAX_PAYLOAD_SIZE
    requires Concat(chunks) == FrameAll(payloads)
    ensures Incremental(Pulling())
    ensures var read := ReadChunks(Pulling(), [], chunks);
            read.packets == payloads && read.error.None? && read.state == []
  {
    DecoderIsIncremental();
    ChunksDoNotMatter(Pulling(), [], chunks);
    WholeFrames(payloads);
    assert [] + FrameAll(payloads) == FrameAll(payloads);
  }

  class FrameDecoder {
    var buffer: Data

    constructor ()
      ensures buffer == []
    {
      buffer := [];
    }

    method Add(bytes: Data)
      modifies this
      ensures buffer == old(buffer) + bytes
    {
      buffer := buffer + bytes;
    }

    /** The next complete payload, or none if more bytes are needed. */
    method Pull() returns (outcome: Outcome<Data, WireFormat.Error>)
      modifies this
      ensures (buffer, outcome) == Step(old(buffer))
    {
      if |buffer| < WireFormat.HEADER_SIZE { return Idle; }
      var header := WireFormat.DecodeHeader(buffer[..WireFormat.HEADER_SIZE]);
      if header.Err? { return Failed(header.error); }
      var total := WireFormat.HEADER_SIZE + header.value;
      if |buffer| < total { return Idle; }
      outcome := Emitted(buffer[WireFormat.HEADER_SIZE..total]);
      buffer := buffer[total..];
    }
  }
}
