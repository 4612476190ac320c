/** The reader of a remote connection: NPIP control records and fragments of bulk records,
    out of a byte stream that arrives in arbitrary chunks. */
module StreamDecoder {
  import opened Bytes
  import opened Draining
  import opened Wrappers
  import WireFormat
  import RemoteWire

  const MEDIA_HEADER_SIZE := 36
  const MEDIA_MAXIMUM_PAYLOAD := 32 * 1024 * 1024
  const APPLICATIONS_MAGIC: Data := [0x4e, 0x50, 0x41, 0x50]  // "NPAP"

  datatype Event = ChannelReady(payload: Data) | Scene(payload: Data)

  /** The record layouts decoded elsewhere, as functions of the record's bytes. */
  datatype Layouts = Layouts(
    event: Data -> Option<Event>,
    applications: Data -> Option<Data>,
    media: Data -> Option<nat>)

  datatype Packet =
    | Happened(event: Event)
    | Media(header: Data, body: Data)
    | Applications(reply: Data)
    | Acknowledge(count: nat)
    | Credit(count: nat)
    | FileSession(bytes: Data)

  /** `ShortRecord` is the violated precondition of the header parser, which ends the process. */
  datatype Error =
    | Framing(error: WireFormat.Error)
    | Corrupt
    | BadCredit
    | VersionMismatch
    | DuplicateHandshake
    | NoHandshake
    | BadLayout
    | BadRecordSize
    | BadMedia
    | ShortRecord

  datatype Decoder = Decoder(buffer: Data, ready: bool, fragments: RemoteWire.Assembly, completed: Option<Data>, packetBytes: nat)

  const Initial := Decoder([], false, RemoteWire.NoAssembly, None, 0)

  type Result = Outcome<Packet, Error>

  function Append(d: Decoder, bytes: Data): Decoder { d.(buffer := d.buffer + bytes) }

  predicate Starts(bytes: Data, magic: Data) { |magic| <= |bytes| && bytes[..|magic|] == magic }

  function DecodeControl(d: Decoder, payload: Data, layouts: Layouts): (Decoder, Result) {
    var d1 := d.(packetBytes := |payload|);
    if Starts(payload, APPLICATIONS_MAGIC) && d.ready then
      match layouts.applications(payload)
      case None => (d1, Failed(BadLayout))
      case Some(reply) => (d1, Emitted(Applications(reply)))
    else if Starts(payload, RemoteWire.FILE_SESSION_MAGIC) && d.ready then
      (d1, Emitted(FileSession(payload[4..])))
    else
      match layouts.event(payload)
      case None => (d1, Failed(BadLayout))
      case Some(event) =>
        if event.ChannelReady? then
          if d.ready then (d1, Failed(DuplicateHandshake)) else (d1.(ready := true), Emitted(Happened(event)))
        else if !d.ready then (d1, Failed(NoHandshake))
        else (d1, Emitted(Happened(event)))
  }

  function DecodeRecord(d: Decoder, record: Data, layouts: Layouts): (Decoder, Result) {
    if Starts(record, WireFormat.MAGIC) then
      if |record| < WireFormat.HEADER_SIZE then (d, Failed(ShortRecord))
      else
        match WireFormat.DecodeHeader(record[..WireFormat.HEADER_SIZE])
        case Err(error) => (d, Failed(Framing(error)))
        case Ok(size) =>
          if |record| != WireFormat.HEADER_SIZE + size then (d, Failed(BadRecordSize))
          else DecodeControl(d, record[WireFormat.HEADER_SIZE..], layouts)
    else if !d.ready || |record| < MEDIA_HEADER_SIZE then (d, Failed(BadMedia))
    else
      var header := record[..MEDIA_HEADER_SIZE];
      match layouts.media(header)
      case None => (d, Failed(BadMedia))
      case Some(length) =>
        if length > MEDIA_MAXIMUM_PAYLOAD || |record| != MEDIA_HEADER_SIZE + length then (d, Failed(BadMedia))
        else (d, Emitted(Media(header, record[MEDIA_HEADER_SIZE..])))
  }

  /** One framed payload. A fragment is acknowledged before its record is looked at. */
  function DecodePayload(d: Decoder, payload: Data, layouts: Layouts): (Decoder, Result) {
    if Starts(payload, RemoteWire.FRAGMENT_MAGIC) then
      var (fragments, arrival) := RemoteWire.Receive(d.fragments, payload, MEDIA_MAXIMUM_PAYLOAD + MEDIA_HEADER_SIZE);
      var d1 := d.(fragments := fragments);
      match arrival
      case Corrupt => (d1, Failed(Corrupt))
      case Partial => (d1.(completed := None), Emitted(Acknowledge(|payload| - 16)))
      case Complete(record) => (d1.(completed := Some(record)), Emitted(Acknowledge(|payload| - 16)))
    else if Starts(payload, RemoteWire.ACKNOWLEDGEMENT_MAGIC) then
      if |payload| != 8 then (d, Failed(BadCredit)) else (d, Emitted(Credit(Decode32(payload, 4))))
    else DecodeControl(d, payload, layouts)
  }

  function Next(d: Decoder, layouts: Layouts): (Decoder, Result) {
    if d.completed.Some? then DecodeRecord(d.(completed := None), d.completed.value, layouts)
    else if |d.buffer| < 4 then (d, Idle)
    else if d.buffer[..4] != WireFormat.MAGIC then (d, Failed(VersionMismatch))
    else
      match WireFormat.Next(d.buffer)
      case Wait => (d, Idle)
      case Bad(error) => (d, Failed(Framing(error)))
      case Got(payload, rest) => DecodePayload(d.(buffer := rest), payload, layouts)
  }

  // ---- The cut of the stream does not matter ----

  function Size(d: Decoder): nat { 2 * |d.buffer| + if d.completed.Some? then 1 else 0 }

  function Pulling(layouts: Layouts): Machine<Decoder, Packet, Error> {
    Machine((d: Decoder) => Next(d, layouts), (d: Decoder, bytes: Data) => Append(d, bytes), (d: Decoder) => Size(d))
  }

  lemma NextShrinks(d: Decoder, layouts: Layouts)
    ensures Next(d, layouts).1.Emitted? ==> Size(Next(d, layouts).0) < Size(d)
  {
  }

  /** A record that is being decoded does not look at the bytes behind it. */
  lemma PayloadIgnoresBuffer(d: Decoder, buffer: Data, payload: Data, layouts: Layouts)
    ensures DecodePayload(d.(buffer := buffer), payload, layouts)
         == (DecodePayload(d, payload, layouts).0.(buffer := buffer), DecodePayload(d, payload, layouts).1)
  {
  }

  lemma RecordIgnoresBuffer(d: Decoder, buffer: Data, record: Data, layouts: Layouts)
    ensures DecodeRecord(d.(buffer := buffer), record, layouts)
         == (DecodeRecord(d, record, layouts).0.(buffer := buffer), DecodeRecord(d, record, layouts).1)
  {
  }

  /** More bytes never change a packet or an error that is already there. */
  lemma NextIsStable(d: Decoder, more: Data, layouts: Layouts)
    ensures var (d1, outcome) := Next(d, layouts);
            match outcome
            case Idle => d1 == d
            case Failed(_) => Next(Append(d, more), layouts).1 == outcome
            case Emitted(_) => Next(Append(d, more), layouts) == (Append(d1, more), outcome)
  {
    if d.completed.None? && |d.buffer| >= 4 {
      WireFormat.NextIsStable(d.buffer, more);
      assert (d.buffer + more)[..4] == d.buffer[..4];
    }
  }

  lemma DecoderIsIncremental(layouts: Layouts)
    ensures Incremental(Pulling(layouts))
  {
    var m := Pulling(layouts);
    forall d: Decoder ensures m.next(d).1.Emitted? ==> m.size(m.next(d).0) < m.size(d) {
      NextShrinks(d, layouts);
    }
    forall d: Decoder, more: Data ensures StableAt(m, d, more) {
      NextIsStable(d, more, layouts);
    }
    forall d: Decoder ensures m.append(d, []) == d {
      assert d.buffer + [] == d.buffer;
    }
    forall d: Decoder, a: Data, b: Data ensures m.append(m.append(d, a), b) == m.append(d, a + b) {
      assert d.buffer + a + b == d.buffer + (a + b);
    }
  }

  /** Every way of cutting the connection's bytes gives the same packets and the same error
      as having them all at once. */
  lemma CutDoesNotMatter(chunks: seq<Data>, layouts: Layouts)
    ensures Incremental(Pulling(layouts))
    ensures var cut := ReadChunks(Pulling(layouts), Initial, chunks);
            var whole := Drain(Pulling(layouts), Append(Initial, Concat(chunks)));
            && cut.packets == whole.packets && cut.error == whole.error
            && (cut.error.None? ==> cut.state == whole.state)
  {
    DecoderIsIncremental(layouts);
    ChunksDoNotMatter(Pulling(layouts), Initial, chunks);
  }

  // ---- The handshake comes first, once ----

  /** Before the handshake only fragments are acknowledged and credit is passed on; it
      happens at most once. */
  predicate Orderly(ready: bool, packets: seq<Packet>)
    decreases |packets|
  {
    if packets == [] then true
    else
      match packets[0]
      case Acknowledge(_) => Orderly(ready, packets[1..])
      case Credit(_) => Orderly(ready, packets[1..])
      case Happened(ChannelReady(_)) => !ready && Orderly(true, packets[1..])
      case _ => ready && Orderly(ready, packets[1..])
  }

  lemma NextIsOrderly(d: Decoder, layouts: Layouts)
    ensures var (d1, outcome) := Next(d, layouts);
            outcome.Emitted? ==>
              match outcome.packet
              case Acknowledge(_) => d1.ready == d.ready
              case Credit(_) => d1.ready == d.ready
              case Happened(ChannelReady(_)) => !d.ready && d1.ready
              case _ => d.ready && d1.ready
  {
  }

  lemma {:induction false} DrainIsOrderly(d: Decoder, layouts: Layouts)
    requires Incremental(Pulling(layouts))
    ensures Orderly(d.ready, Drain(Pulling(layouts), d).packets)
    decreases Size(d)
  {
    var (d1, outcome) := Pulling(layouts).next(d);
    if outcome.Emitted? {
      NextShrinks(d, layouts);
      NextIsOrderly(d, layouts);
      DrainIsOrderly(d1, layouts);
      assert Drain(Pulling(layouts), d).packets == [outcome.packet] + Drain(Pulling(layouts), d1).packets;
    }
  }

  predicate NeedsHandshake(p: Packet) {
    p.Media? || p.Applications? || p.FileSession? || (p.Happened? && p.event.Scene?)
  }

  lemma {:induction false} OrderlyMeans(ready: bool, packets: seq<Packet>, i: nat)
    requires Orderly(ready, packets) && i < |packets| && NeedsHandshake(packets[i])
    ensures ready || exists j :: 0 <= j < i && packets[j].Happened? && packets[j].event.ChannelReady?
  {
    if i > 0 && !ready {
      if !(packets[0].Happened? && packets[0].event.ChannelReady?) {
        OrderlyMeans(ready, packets[1..], i - 1);
        var j :| 0 <= j < i - 1 && packets[1..][j].Happened? && packets[1..][j].event.ChannelReady?;
        assert packets[j + 1].Happened?;
      }
    }
  }

  /** Out of any bytes, in any chunks, nothing that belongs to a session comes before the
      handshake that opened it. */
  lemma NothingBeforeReady(chunks: seq<Data>, layouts: Layouts, i: nat)
    ensures Incremental(Pulling(layouts))
    ensures var packets := ReadChunks(Pulling(layouts), Initial, chunks).packets;
            i < |packets| && NeedsHandshake(packets[i]) ==>
              exists j :: 0 <= j < i && packets[j].Happened? && packets[j].event.ChannelReady?
  {
    CutDoesNotMatter(chunks, layouts);
    DrainIsOrderly(Append(Initial, Concat(chunks)), layouts);
    var packets := ReadChunks(Pulling(layouts), Initial, chunks).packets;
    if i < |packets| && NeedsHandshake(packets[i]) { OrderlyMeans(false, packets, i); }
  }

  // ---- Framed payloads come out one by one ----

  function FrameAll(payloads: seq<Data>): Data
    requires forall p <- payloads :: |p| <= WireFormat.MAX_PAYLOAD_SIZE
  {
    if payloads == [] then [] else WireFormat.FrameOf(payloads[0]).value + FrameAll(payloads[1..])
  }

  /** The decoder without its byte stream: a payload, then the record it completed. */
  function DecodeAll(d: Decoder, payloads: seq<Data>, layouts: Layouts): Drained<Decoder, Packet, Error>
    decreases |payloads|
  {
    if payloads == [] then Drained(d, [], None)
    else
      var (d1, outcome) := DecodePayload(d, payloads[0], layouts);
      if outcome.Failed? then Drained(d1, [], Some(outcome.error))
      else if outcome.Idle? then Drained(d1, [], None)
      else if d1.completed.None? then DecodeAll(d1, payloads[1..], layouts).After(outcome.packet)
      else
        var (d2, second) := DecodeRecord(d1.(completed := None), d1.completed.value, layouts);
        if second.Failed? then Drained(d2, [outcome.packet], Some(second.error))
        else if second.Idle? then Drained(d2, [outcome.packet], None)
        else DecodeAll(d2, payloads[1..], layouts).After(second.packet).After(outcome.packet)
  }

  lemma NextPayload(d: Decoder, payload: Data, rest: Data, layouts: Layouts)
    requires d.completed.None? && |payload| <= WireFormat.MAX_PAYLOAD_SIZE
    ensures Next(d.(buffer := WireFormat.FrameOf(payload).value + rest), layouts)
         == (DecodePayload(d, payload, layouts).0.(buffer := rest), DecodePayload(d, payload, layouts).1)
  {
    var buffer := WireFormat.FrameOf(payload).value + rest;
    WireFormat.NextFrame(payload, rest);
    PayloadIgnoresBuffer(d, rest, payload, layouts);
    assert buffer[..4] == WireFormat.MAGIC;
  }

  lemma NextRecord(d: Decoder, record: Data, rest: Data, layouts: Layouts)
    ensures Next(d.(buffer := rest, completed := Some(record)), layouts)
         == (DecodeRecord(d.(completed := None), record, layouts).0.(buffer := rest),
             DecodeRecord(d.(completed := None), record, layouts).1)
    ensures var (d2, second) := DecodeRecord(d.(completed := None), record, layouts); d2.completed.None? && !second.Idle?
  {
    RecordIgnoresBuffer(d.(completed := None), rest, record, layouts);
  }

  lemma PullRecord(d1: Decoder, rest: Data, layouts: Layouts)
    requires d1.completed.Some?
    ensures var (d2, second) := DecodeRecord(d1.(completed := None), d1.completed.value, layouts);
            && Pulling(layouts).next(d1.(buffer := rest)) == (d2.(buffer := rest), second)
            && d2.completed.None? && !second.Idle?
  {
    NextRecord(d1, d1.completed.value, rest, layouts);
    assert d1.(buffer := rest) == d1.(buffer := rest, completed := Some(d1.completed.value));
  }

  /** The packets of a stream of framed payloads are those of its payloads. */
  lemma {:induction false} FramesDecode(d: Decoder, payloads: seq<Data>, layouts: Layouts)
    requires Incremental(Pulling(layouts))
    requires d.completed.None? && forall p <- payloads :: |p| <= WireFormat.MAX_PAYLOAD_SIZE
    ensures var stream, plain := Drain(Pulling(layouts), d.(buffer := FrameAll(payloads))), DecodeAll(d, payloads, layouts);
            && stream.packets == plain.packets && stream.error == plain.error
            && (stream.error.None? ==> stream.state == plain.state.(buffer := []) && plain.state.completed.None?)
    decreases |payloads|
  {
    var m := Pulling(layouts);
    if payloads == [] {
      assert m.next(d.(buffer := [])) == (d.(buffer := []), Idle);
    } else {
      var rest := FrameAll(payloads[1..]);
      NextPayload(d, payloads[0], rest, layouts);
      var (d1, outcome) := DecodePayload(d, payloads[0], layouts);
      assert m.next(d.(buffer := FrameAll(payloads))) == (d1.(buffer := rest), outcome);
      if outcome.Emitted? {
        if d1.completed.None? {
          FramesDecode(d1, payloads[1..], layouts);
        } else {
          PullRecord(d1, rest, layouts);
          var (d2, second) := DecodeRecord(d1.(completed := None), d1.completed.value, layouts);
          if second.Emitted? { FramesDecode(d2, payloads[1..], layouts); }
        }
      }
    }
  }

  function Acknowledged(packets: seq<Packet>): nat {
    if packets == [] then 0
    else Acknowledged(packets[1..]) + if packets[0].Acknowledge? then packets[0].count else 0
  }

  function FragmentBytes(payloads: seq<Data>): int {
    if payloads == [] then 0
    else FragmentBytes(payloads[1..]) + if Starts(payloads[0], RemoteWire.FRAGMENT_MAGIC) then |payloads[0]| - 16 else 0
  }

  lemma PayloadAcknowledges(d: Decoder, payload: Data, layouts: Layouts)
    ensures var outcome := DecodePayload(d, payload, layouts).1;
            !outcome.Idle? && (outcome.Emitted? ==>
              if Starts(payload, RemoteWire.FRAGMENT_MAGIC) then outcome.packet == Acknowledge(|payload| - 16)
              else !outcome.packet.Acknowledge?)
  {
  }

  lemma RecordAcknowledgesNothing(d: Decoder, record: Data, layouts: Layouts)
    ensures DecodeRecord(d, record, layouts).1.Emitted? ==> !DecodeRecord(d, record, layouts).1.packet.Acknowledge?
  {
  }

  lemma {:induction false} AllAcknowledged(d: Decoder, payloads: seq<Data>, layouts: Layouts)
    requires d.completed.None? && DecodeAll(d, payloads, layouts).error.None?
    ensures Acknowledged(DecodeAll(d, payloads, layouts).packets) == FragmentBytes(payloads)
    decreases |payloads|
  {
    if payloads != [] {
      var (d1, outcome) := DecodePayload(d, payloads[0], layouts);
      PayloadAcknowledges(d, payloads[0], layouts);
      if d1.completed.None? {
        AllAcknowledged(d1, payloads[1..], layouts);
      } else {
        var (d2, second) := DecodeRecord(d1.(completed := None), d1.completed.value, layouts);
        NextRecord(d1, d1.completed.value, [], layouts);
        RecordAcknowledgesNothing(d1.(completed := None), d1.completed.value, layouts);
        AllAcknowledged(d2, payloads[1..], layouts);
        var rest := DecodeAll(d2, payloads[1..], layouts).packets;
        assert ([outcome.packet] + ([second.packet] + rest))[1..] == [second.packet] + rest;
      }
    }
  }

  /** However a stream of framed payloads is cut, what is acknowledged is exactly the
      fragment bytes that arrived. */
  lemma EveryFragmentByteIsAcknowledged(payloads: seq<Data>, chunks: seq<Data>, layouts: Layouts)
    requires forall p <- payloads :: |p| <= WireFormat.MAX_PAYLOAD_SIZE
    requires Concat(chunks) == FrameAll(payloads)
    ensures Incremental(Pulling(layouts))
    ensures var cut := ReadChunks(Pulling(layouts), Initial, chunks);
            cut.error.None? ==> Acknowledged(cut.packets) == FragmentBytes(payloads)
  {
    CutDoesNotMatter(chunks, layouts);
    FramesDecode(Initial, payloads, layouts);
    assert Append(Initial, Concat(chunks)) == Initial.(buffer := FrameAll(payloads));
    if ReadChunks(Pulling(layouts), Initial, chunks).error.None? { AllAcknowledged(Initial, payloads, layouts); }
  }

  /** The stream may end here: nothing is left over and no record is incomplete. */
  predicate Finished(d: Decoder) { d.buffer == [] && d.fragments.records == map[] && d.completed.None? }

  /** A fragment of this lane, the first of its record or the last. */
  predicate IsFragment(payload: Data, lane: nat) {
    Starts(payload, RemoteWire.FRAGMENT_MAGIC) && |payload| > 16 && Decode32(payload, 4) == lane
  }

  predicate IsFirst(payload: Data, lane: nat) { IsFragment(payload, lane) && Decode32(payload, 12) == 0 }

  predicate IsLast(payload: Data, lane: nat) {
    IsFragment(payload, lane) && Decode32(payload, 12) + |payload| - 16 == Decode32(payload, 8)
  }

  /** How many records a stream of payloads begins on a lane, and how many it completes there. */
  function Begins(payloads: seq<Data>, lane: nat): nat {
    if payloads == [] then 0 else Begins(payloads[1..], lane) + if IsFirst(payloads[0], lane) then 1 else 0
  }

  function Completes(payloads: seq<Data>, lane: nat): nat {
    if payloads == [] then 0 else Completes(payloads[1..], lane) + if IsLast(payloads[0], lane) then 1 else 0
  }

  /** One if a record is under way on the lane. */
  function UnderWay(a: RemoteWire.Assembly, lane: nat): nat { if lane in a.records then 1 else 0 }

  predicate TwoLanes(a: RemoteWire.Assembly) { a.records.Keys <= {1, 2} }

  lemma PlaceCounts(a: RemoteWire.Assembly, lane: nat, total: nat, offset: nat, bytes: Data, other: nat)
    requires bytes != []
    ensures var (b, arrival) := RemoteWire.Place(a, lane, total, offset, bytes);
            !arrival.Corrupt? ==>
              && b.records.Keys <= a.records.Keys + {lane}
              && UnderWay(b, other) == UnderWay(a, other)
                 + (if other == lane && offset == 0 then 1 else 0) - (if other == lane && offset + |bytes| == total then 1 else 0)
  {
  }

  lemma PayloadCounts(d: Decoder, payload: Data, layouts: Layouts, lane: nat)
    requires TwoLanes(d.fragments) && DecodePayload(d, payload, layouts).1.Emitted?
    ensures var d1 := DecodePayload(d, payload, layouts).0;
            && TwoLanes(d1.fragments)
            && UnderWay(d1.fragments, lane) == UnderWay(d.fragments, lane)
               + (if IsFirst(payload, lane) then 1 else 0) - (if IsLast(payload, lane) then 1 else 0)
  {
    if Starts(payload, RemoteWire.FRAGMENT_MAGIC) && |payload| > 16 {
      PlaceCounts(d.fragments, Decode32(payload, 4), Decode32(payload, 8), Decode32(payload, 12), payload[16..], lane);
    }
  }

  lemma RecordKeepsLanes(d: Decoder, record: Data, layouts: Layouts)
    ensures DecodeRecord(d, record, layouts).0.fragments == d.fragments
  {
  }

  lemma {:induction false} AllCounted(d: Decoder, payloads: seq<Data>, layouts: Layouts, lane: nat)
    requires TwoLanes(d.fragments) && d.completed.None? && DecodeAll(d, payloads, layouts).error.None?
    ensures var end := DecodeAll(d, payloads, layouts).state.fragments;
            && TwoLanes(end)
            && UnderWay(end, lane) + Completes(payloads, lane) == UnderWay(d.fragments, lane) + Begins(payloads, lane)
    decreases |payloads|
  {
    if payloads != [] {
      var (d1, outcome) := DecodePayload(d, payloads[0], layouts);
      PayloadAcknowledges(d, payloads[0], layouts);
      PayloadCounts(d, payloads[0], layouts, lane);
      if d1.completed.None? {
        AllCounted(d1, payloads[1..], layouts, lane);
      } else {
        var d2 := DecodeRecord(d1.(completed := None), d1.completed.value, layouts).0;
        NextRecord(d1, d1.completed.value, [], layouts);
        RecordKeepsLanes(d1.(completed := None), d1.completed.value, layouts);
        AllCounted(d2, payloads[1..], layouts, lane);
      }
    }
  }

  /** After whole frames the stream may end exactly if on each lane as many records were
      completed as were begun. */
  lemma FinishesExactly(payloads: seq<Data>, chunks: seq<Data>, layouts: Layouts)
    requires forall p <- payloads :: |p| <= WireFormat.MAX_PAYLOAD_SIZE
    requires Concat(chunks) == FrameAll(payloads)
    ensures Incremental(Pulling(layouts))
    ensures var cut := ReadChunks(Pulling(layouts), Initial, chunks);
            cut.error.None? ==>
              (Finished(cut.state)
               <==> Completes(payloads, 1) == Begins(payloads, 1) && Completes(payloads, 2) == Begins(payloads, 2))
  {
    CutDoesNotMatter(chunks, layouts);
    FramesDecode(Initial, payloads, layouts);
    assert Append(Initial, Concat(chunks)) == Initial.(buffer := FrameAll(payloads));
    if ReadChunks(Pulling(layouts), Initial, chunks).error.None? {
      AllCounted(Initial, payloads, layouts, 1);
      AllCounted(Initial, payloads, layouts, 2);
      var end := DecodeAll(Initial, payloads, layouts).state.fragments;
      assert 1 !in end.records && 2 !in end.records <==> end.records == map[];
    }
  }

  class RemoteStreamDecoder {
    var buffer: Data
    var ready: bool
    var fragments: RemoteWire.Assembly
    var completed: Option<Data>
    var packetBytes: nat
    const layouts: Layouts

    ghost function View(): Decoder
      reads this
    {
      Decoder(buffer, ready, fragments, completed, packetBytes)
    }

    constructor (layouts: Layouts)
      ensures View() == Initial && this.layouts == layouts
    {
      this.layouts := layouts;
      buffer, ready, fragments, completed, packetBytes := [], false, RemoteWire.NoAssembly, None, 0;
    }

    method Add(bytes: Data)
      modifies this`buffer
      ensures View() == Append(old(View()), bytes)
    {
      buffer := buffer + bytes;
    }

    method Finish() returns (whole: bool)
      ensures whole <==> Finished(View())
    {
      return buffer == [] && fragments.records == map[] && completed.None?;
    }

    method Pull() returns (outcome: Result)
      modifies this
      ensures (View(), outcome) == Next(old(View()), layouts)
    {
      if completed.Some? {
        var record := completed.value;
        completed := None;
        outcome := PullRecord(record);
        return;
      }
      if |buffer| < 4 { return Idle; }
      if buffer[..4] != WireFormat.MAGIC { return Failed(VersionMismatch); }
      if |buffer| < WireFormat.HEADER_SIZE { return Idle; }
      var header := WireFormat.DecodeHeader(buffer[..WireFormat.HEADER_SIZE]);
      if header.Err? { return Failed(Framing(header.error)); }
      var total := WireFormat.HEADER_SIZE + header.value;
      if |buffer| < total { return Idle; }
      var payload := buffer[WireFormat.HEADER_SIZE..total];
      buffer := buffer[total..];
      if Starts(payload, RemoteWire.FRAGMENT_MAGIC) {
        var (next, arrival) := RemoteWire.Receive(fragments, payload, MEDIA_MAXIMUM_PAYLOAD + MEDIA_HEADER_SIZE);
        fragments := next;
        if arrival.Corrupt? { return Failed(Corrupt); }
        completed := if arrival.Complete? then Some(arrival.record) else None;
        return Emitted(Acknowledge(|payload| - 16));
      }
      if Starts(payload, RemoteWire.ACKNOWLEDGEMENT_MAGIC) {
        if |payload| != 8 { return Failed(BadCredit); }
        return Emitted(Credit(Decode32(payload, 4)));
      }
      outcome := PullControl(payload);
    }

    method PullControl(payload: Data) returns (outcome: Result)
      modifies this`packetBytes, this`ready
      ensures (View(), outcome) == DecodeControl(old(View()), payload, layouts)
    {
      packetBytes := |payload|;
      if Starts(payload, APPLICATIONS_MAGIC) && ready {
        var reply := layouts.applications(payload);
        if reply.None? { return Failed(BadLayout); }
        return Emitted(Applications(reply.value));
      }
      if Starts(payload, RemoteWire.FILE_SESSION_MAGIC) && ready { return Emitted(FileSession(payload[4..])); }
      var event := layouts.event(payload);
      if event.None? { return Failed(BadLayout); }
      if event.value.ChannelReady? {
        if ready { return Failed(DuplicateHandshake); }
        ready := true;
      } else if !ready {
        return Failed(NoHandshake);
      }
      return Emitted(Happened(event.value));
    }

    method PullRecord(record: Data) returns (outcome: Result)
      modifies this`packetBytes, this`ready
      ensures (View(), outcome) == DecodeRecord(old(View()), record, layouts)
    {
      if Starts(record, WireFormat.MAGIC) {
        if |record| < WireFormat.HEADER_SIZE { return Failed(ShortRecord); }
        var size := WireFormat.DecodeHeader(record[..WireFormat.HEADER_SIZE]);
        if size.Err? { return Failed(Framing(size.error)); }
        if |record| != WireFormat.HEADER_SIZE + size.value { return Failed(BadRecordSize); }
        outcome := PullControl(record[WireFormat.HEADER_SIZE..]);
        return;
      }
      if !ready || |record| < MEDIA_HEADER_SIZE { return Failed(BadMedia); }
      var length := layouts.media(record[..MEDIA_HEADER_SIZE]);
      if length.None? || length.value > MEDIA_MAXIMUM_PAYLOAD || |record| != MEDIA_HEADER_SIZE + length.value {
        return Failed(BadMedia);
      }
      return Emitted(Media(record[..MEDIA_HEADER_SIZE], record[MEDIA_HEADER_SIZE..]));
    }
  }
}
