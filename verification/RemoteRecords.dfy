/** What the decoder of one side makes of the records the writer of the other side queued. */
module RemoteRecords {
  import opened Bytes
  import opened Draining
  import opened Wrappers
  import opened StreamDecoder
  import BulkLane
  import RemoteWire
  import WireFormat
  import WriterState

  const MAXIMUM_RECORD := MEDIA_MAXIMUM_PAYLOAD + MEDIA_HEADER_SIZE

  /** The record that carries bytes of the file session. */
  function FileRecord(bytes: Data): Wrappers.Result<Data, WireFormat.Error> {
    WireFormat.FrameOf(RemoteWire.FILE_SESSION_MAGIC + bytes)
  }

  lemma FramedParts(payload: Data)
    requires |payload| <= WireFormat.MAX_PAYLOAD_SIZE
    ensures var record := WireFormat.FrameOf(payload).value;
            && |record| == WireFormat.HEADER_SIZE + |payload| && Starts(record, WireFormat.MAGIC)
            && WireFormat.DecodeHeader(record[..WireFormat.HEADER_SIZE]) == Ok(|payload|)
            && record[WireFormat.HEADER_SIZE..] == payload
  {
    WireFormat.NextFrame(payload, []);
    var head := WireFormat.MAGIC + [WireFormat.VERSION, 0, 0, 0];
    var record := WireFormat.FrameOf(payload).value;
    DecodeWithin(head, |payload|, []);
    assert record[..WireFormat.HEADER_SIZE] == head + Encode32(|payload|) + [];
    assert record[..4] == WireFormat.MAGIC;
  }

  /** The bytes handed to the writer for the file session come out of a ready decoder, whether
      their record arrives as one payload or in fragments. */
  lemma SessionBytesComeBack(w: WriterState.Writer, bytes: Data, d: Decoder, rest: Data, layouts: Layouts)
    requires WriterState.SendFileSession(w, bytes).1 && d.ready && d.completed.None?
    ensures var queue := WriterState.SendFileSession(w, bytes).0.bulk.queue;
            && queue != [] && queue[..|queue| - 1] == w.bulk.queue
            && var record := queue[|queue| - 1];
               && DecodeRecord(d, record, layouts).1 == Emitted(FileSession(bytes))
               && Next(d.(buffer := record + rest), layouts).1 == Emitted(FileSession(bytes))
               && Next(d.(buffer := record + rest), layouts).0.buffer == rest
  {
    var payload := RemoteWire.FILE_SESSION_MAGIC + bytes;
    FramedParts(payload);
    ControlSessionBytes(d, bytes, layouts);
    NextPayload(d, payload, rest, layouts);
    PayloadIsControl(d, bytes, layouts);
  }

  lemma ControlSessionBytes(d: Decoder, bytes: Data, layouts: Layouts)
    requires d.ready
    ensures DecodeControl(d, RemoteWire.FILE_SESSION_MAGIC + bytes, layouts).1 == Emitted(FileSession(bytes))
  {
    var payload := RemoteWire.FILE_SESSION_MAGIC + bytes;
    assert payload[..4] == RemoteWire.FILE_SESSION_MAGIC && payload[4..] == bytes;
  }

  lemma PayloadIsControl(d: Decoder, bytes: Data, layouts: Layouts)
    ensures var payload := RemoteWire.FILE_SESSION_MAGIC + bytes;
            DecodePayload(d, payload, layouts) == DecodeControl(d, payload, layouts)
  {
    var payload := RemoteWire.FILE_SESSION_MAGIC + bytes;
    assert payload[..4] == RemoteWire.FILE_SESSION_MAGIC;
  }

  /** Whatever a control payload is decoded to holds all of it: bytes of the file session are
      the payload after its magic, anything else is what its layout says of the whole payload. */
  lemma ControlIsWhole(d: Decoder, payload: Data, layouts: Layouts)
    ensures var (d1, outcome) := DecodeControl(d, payload, layouts);
            outcome.Emitted? ==>
              match outcome.packet
              case FileSession(bytes) => d.ready && payload == RemoteWire.FILE_SESSION_MAGIC + bytes
              case Applications(reply) => d.ready && Starts(payload, APPLICATIONS_MAGIC) && layouts.applications(payload) == Some(reply)
              case Happened(event) => layouts.event(payload) == Some(event) && event.ChannelReady? == !d.ready
              case _ => false
  {
  }

  /** A control record is decoded only if it is exactly one frame, and then as its payload. */
  lemma ControlRecordIsFrame(d: Decoder, record: Data, layouts: Layouts)
    requires Starts(record, WireFormat.MAGIC)
    ensures var (d1, outcome) := DecodeRecord(d, record, layouts);
            if |record| >= WireFormat.HEADER_SIZE
               && WireFormat.DecodeHeader(record[..WireFormat.HEADER_SIZE]) == Ok(|record| - WireFormat.HEADER_SIZE)
            then (d1, outcome) == DecodeControl(d, record[WireFormat.HEADER_SIZE..], layouts)
            else d1 == d && outcome.Failed?
  {
  }

  /** A media record that a ready decoder takes is one whose header gives its length; it comes
      out in two parts that are the record. */
  lemma MediaExactly(d: Decoder, record: Data, layouts: Layouts)
    requires !Starts(record, WireFormat.MAGIC)
    ensures var outcome := DecodeRecord(d, record, layouts).1;
            && DecodeRecord(d, record, layouts).0 == d
            && (outcome.Emitted? <==>
                  && d.ready && MEDIA_HEADER_SIZE <= |record| <= MAXIMUM_RECORD
                  && layouts.media(record[..MEDIA_HEADER_SIZE]) == Some(|record| - MEDIA_HEADER_SIZE))
            && (outcome.Emitted? ==>
                  && outcome.packet.Media? && |outcome.packet.header| == MEDIA_HEADER_SIZE
                  && outcome.packet.header + outcome.packet.body == record)
  {
  }

  /** A credit comes out as the count that was acknowledged. */
  lemma CreditComesBack(d: Decoder, count: nat, layouts: Layouts)
    requires count <= UINT32_MAX
    ensures DecodePayload(d, RemoteWire.Acknowledgement(count), layouts) == (d, Emitted(Credit(count)))
  {
    RemoteWire.AcknowledgementCount(count);
    assert RemoteWire.Acknowledgement(count)[..4] == RemoteWire.ACKNOWLEDGEMENT_MAGIC;
  }

  /** Only whole acknowledgements are credit. */
  lemma CreditExactly(d: Decoder, payload: Data, layouts: Layouts)
    ensures var outcome := DecodePayload(d, payload, layouts).1;
            outcome.Emitted? && outcome.packet.Credit? <==> |payload| == 8 && payload[..4] == RemoteWire.ACKNOWLEDGEMENT_MAGIC
  {
  }

  /** The decoder takes the next fragment of a record of any legal size, acknowledges its bytes,
      and has the record once it is complete. */
  lemma FragmentIsTaken(d: Decoder, record: Data, offset: nat, lane: nat, count: nat, layouts: Layouts)
    requires (lane == 1 || lane == 2) && offset < |record| <= MAXIMUM_RECORD && 0 < count <= RemoteWire.FRAGMENT_SIZE
    requires RemoteWire.LaneAt(d.fragments, lane, record, offset) && d.completed.None?
    ensures var (d1, outcome) := DecodePayload(d, RemoteWire.Fragment(record, offset, lane, count), layouts);
            && outcome == Emitted(Acknowledge(RemoteWire.Min(|record|, offset + count) - offset))
            && d1.buffer == d.buffer && d1.ready == d.ready && RemoteWire.SameBeside(d.fragments, d1.fragments, lane)
            && if offset + count >= |record| then d1.completed == Some(record) && RemoteWire.LaneAt(d1.fragments, lane, record, 0)
               else d1.completed.None? && RemoteWire.LaneAt(d1.fragments, lane, record, offset + count)
  {
    RemoteWire.ReceiveNext(d.fragments, record, offset, lane, count, MAXIMUM_RECORD);
    RemoteWire.FragmentFields(record, offset, lane, count);
  }

  // ---- Over runs: the bytes of the file session ----

  predicate IsFileRecord(record: Data) {
    && |record| >= WireFormat.HEADER_SIZE && Starts(record, WireFormat.MAGIC)
    && Starts(record[WireFormat.HEADER_SIZE..], RemoteWire.FILE_SESSION_MAGIC)
  }

  function BytesOf(record: Data): Data { if IsFileRecord(record) then record[WireFormat.HEADER_SIZE + 4..] else [] }

  function Carried(records: seq<Data>): Data {
    if records == [] then [] else BytesOf(records[0]) + Carried(records[1..])
  }

  /** The bytes of the file session among the packets of a decoder. */
  function SessionBytes(packets: seq<Packet>): Data {
    if packets == [] then []
    else (if packets[0].FileSession? then packets[0].bytes else []) + SessionBytes(packets[1..])
  }

  lemma Joined(a: Data, b: Data, c: Data)
    ensures a + (b + c) == (a + b) + c
  {
  }

  lemma {:induction false} CarriedAppend(a: seq<Data>, b: seq<Data>)
    ensures Carried(a + b) == Carried(a) + Carried(b)
    decreases |a|
  {
    if |a| == 0 {
      assert a + b == b && Carried(a) == [];
    } else {
      CarriedAppend(a[1..], b);
      assert (a + b)[1..] == a[1..] + b && (a + b)[0] == a[0];
      assert Carried(a + b) == BytesOf(a[0]) + Carried(a[1..] + b);
      Joined(BytesOf(a[0]), Carried(a[1..]), Carried(b));
    }
  }

  lemma FileRecordCarries(bytes: Data)
    requires FileRecord(bytes).Ok?
    ensures IsFileRecord(FileRecord(bytes).value) && BytesOf(FileRecord(bytes).value) == bytes
    ensures 0 < |FileRecord(bytes).value| <= MAXIMUM_RECORD
  {
    var payload := RemoteWire.FILE_SESSION_MAGIC + bytes;
    FramedParts(payload);
    assert payload[..4] == RemoteWire.FILE_SESSION_MAGIC && payload[4..] == bytes;
    var record := FileRecord(bytes).value;
    assert record[WireFormat.HEADER_SIZE + 4..] == record[WireFormat.HEADER_SIZE..][4..];
  }

  /** A caller of one side passes bytes of the file session, or anything else happens. */
  datatype Act = Passes(far: bool, bytes: Data) | Does(move: BulkLane.Move)

  /** Only the file session makes such records and payloads. */
  predicate Fits(a: Act) {
    a.Does? ==>
      match a.move.step
      case Queue(record) => !IsFileRecord(record)
      case Control(payload) => !Starts(payload, RemoteWire.FILE_SESSION_MAGIC)
      case _ => true
  }

  function MoveOf(a: Act): seq<BulkLane.Move> {
    match a
    case Passes(far, bytes) =>
      var record := FileRecord(bytes);
      if record.Err? then [] else [BulkLane.Move(far, BulkLane.Queue(record.value))]
    case Does(m) => [m]
  }

  function MovesOf(acts: seq<Act>): seq<BulkLane.Move> {
    if acts == [] then [] else MovesOf(acts[..|acts| - 1]) + MoveOf(acts[|acts| - 1])
  }

  /** What the callers of one side passed and were not refused, in order. */
  function Accepted(acts: seq<Act>, far: bool): Data {
    if acts == [] then []
    else
      var a := acts[|acts| - 1];
      Accepted(acts[..|acts| - 1], far) + if a.Passes? && a.far == far && FileRecord(a.bytes).Ok? then a.bytes else []
  }

  function On(n: BulkLane.Net, far: bool): BulkLane.Peer { if far then n.far else n.near }

  function Wire(n: BulkLane.Net, far: bool): seq<Data> { if far then n.incoming else n.outgoing }

  /** The payloads one side has read. */
  function PayloadsRead(moves: seq<BulkLane.Move>, far: bool): seq<Data> {
    if moves == [] then []
    else
      var front, m := moves[..|moves| - 1], moves[|moves| - 1];
      var wire := Wire(BulkLane.Run(front, MAXIMUM_RECORD), !far);
      PayloadsRead(front, far) + if m.far == far && m.step.Read? && wire != [] then [wire[0]] else []
  }

  predicate PlainPayload(p: Data) {
    BulkLane.IsPiece(p) || BulkLane.IsCredit(p) || !Starts(p, RemoteWire.FILE_SESSION_MAGIC)
  }

  function QueuedBy(m: BulkLane.Move, far: bool): seq<Data> {
    if m.far == far && m.step.Queue? && BulkLane.Allowed(m.step, MAXIMUM_RECORD) then [m.step.record] else []
  }

  /** What one step does to the records, the wires and the reassembler. */
  lemma StepIs(n: BulkLane.Net, step: BulkLane.Step)
    requires BulkLane.PeerOk(n.near) && BulkLane.Allowed(step, MAXIMUM_RECORD)
    ensures var m := BulkLane.NearStep(n, step, MAXIMUM_RECORD);
            && m.near.records == n.near.records + (if step.Queue? then [step.record] else [])
            && m.far == n.far
            && (!step.Read? ==> m.near.out == n.near.out && m.near.assembly == n.near.assembly && m.incoming == n.incoming)
  {
    if step.Take? { BulkLane.LoadOk(n.near.lane); }
  }

  lemma StepSends(n: BulkLane.Net, step: BulkLane.Step)
    requires BulkLane.PeerOk(n.near) && BulkLane.Allowed(step, MAXIMUM_RECORD)
    requires step.Control? ==> !Starts(step.payload, RemoteWire.FILE_SESSION_MAGIC)
    requires forall p <- n.outgoing :: PlainPayload(p)
    ensures forall p <- BulkLane.NearStep(n, step, MAXIMUM_RECORD).outgoing :: PlainPayload(p)
  {
    if step.Take? {
      BulkLane.LoadOk(n.near.lane);
      var l := BulkLane.Load(n.near.lane);
      if l.received > 0 {
        assert BulkLane.SendCredit(l).1[..4] == RemoteWire.ACKNOWLEDGEMENT_MAGIC;
      } else if BulkLane.SendFragment(l, step.now).1.Some? {
        BulkLane.FragmentIsPiece(l.record.value, l.offset, 2, RemoteWire.Allowance(l.flow, |l.record.value| - l.offset).1);
      }
    }
  }

  lemma RunSnoc(moves: seq<BulkLane.Move>, m: BulkLane.Move)
    ensures BulkLane.Run(moves + [m], MAXIMUM_RECORD) == BulkLane.Go(BulkLane.Run(moves, MAXIMUM_RECORD), m, MAXIMUM_RECORD)
  {
    var all := moves + [m];
    assert all[..|all| - 1] == moves && all[|all| - 1] == m && all != [];
  }

  lemma GoQueues(n: BulkLane.Net, m: BulkLane.Move, far: bool)
    requires BulkLane.NetValid(n, MAXIMUM_RECORD)
    ensures On(BulkLane.Go(n, m, MAXIMUM_RECORD), far).records == On(n, far).records + QueuedBy(m, far)
  {
    if BulkLane.Allowed(m.step, MAXIMUM_RECORD) { StepIs(if m.far then n.Flip() else n, m.step); }
  }

  lemma RunQueues(moves: seq<BulkLane.Move>, m: BulkLane.Move, far: bool)
    ensures On(BulkLane.Run(moves + [m], MAXIMUM_RECORD), far).records
         == On(BulkLane.Run(moves, MAXIMUM_RECORD), far).records + QueuedBy(m, far)
  {
    RunSnoc(moves, m);
    GoQueues(BulkLane.Run(moves, MAXIMUM_RECORD), m, far);
  }

  function RecordsOf(moves: seq<BulkLane.Move>, far: bool): seq<Data> {
    if moves == [] then [] else RecordsOf(moves[..|moves| - 1], far) + QueuedBy(moves[|moves| - 1], far)
  }

  lemma {:induction false} RunRecords(moves: seq<BulkLane.Move>, far: bool)
    ensures On(BulkLane.Run(moves, MAXIMUM_RECORD), far).records == RecordsOf(moves, far)
  {
    if moves != [] {
      var front, m := moves[..|moves| - 1], moves[|moves| - 1];
      assert moves == front + [m];
      RunRecords(front, far);
      RunQueues(front, m, far);
    }
  }

  lemma RecordsCarry(acts: seq<Act>, far: bool)
    requires forall a <- acts :: Fits(a)
    ensures Carried(RecordsOf(MovesOf(acts), far)) == Accepted(acts, far)
  {
    if acts != [] {
      var front, a := acts[..|acts| - 1], acts[|acts| - 1];
      RecordsCarry(front, far);
      if MoveOf(a) == [] {
        assert MovesOf(acts) == MovesOf(front);
      } else {
        var m := MoveOf(a)[0];
        assert MovesOf(acts) == MovesOf(front) + [m];
        assert MovesOf(acts)[..|MovesOf(front)|] == MovesOf(front);
        CarriedAppend(RecordsOf(MovesOf(front), far), QueuedBy(m, far));
        ActCarries(a, far);
      }
    }
  }

  lemma ActCarries(a: Act, far: bool)
    requires Fits(a) && MoveOf(a) != []
    ensures Carried(QueuedBy(MoveOf(a)[0], far)) == if a.Passes? && a.far == far && FileRecord(a.bytes).Ok? then a.bytes else []
  {
    if a.Passes? { FileRecordCarries(a.bytes); }
    if QueuedBy(MoveOf(a)[0], far) != [] { assert QueuedBy(MoveOf(a)[0], far)[1..] == []; }
  }

  predicate PlainMove(m: BulkLane.Move) { m.step.Control? ==> !Starts(m.step.payload, RemoteWire.FILE_SESSION_MAGIC) }

  predicate PlainWire(wire: seq<Data>) { forall p <- wire :: PlainPayload(p) }

  lemma MovesArePlain(acts: seq<Act>)
    requires forall a <- acts :: Fits(a)
    ensures forall m <- MovesOf(acts) :: PlainMove(m)
  {
    if acts != [] {
      var front, a := acts[..|acts| - 1], acts[|acts| - 1];
      MovesArePlain(front);
      assert a in acts && Fits(a);
      assert forall m <- MovesOf(acts) :: m in MovesOf(front) || m in MoveOf(a);
    }
  }

  lemma StepReads(n: BulkLane.Net, step: BulkLane.Step)
    requires BulkLane.PeerOk(n.near) && BulkLane.Allowed(step, MAXIMUM_RECORD)
    ensures BulkLane.NearStep(n, step, MAXIMUM_RECORD).incoming
         == if step.Read? && n.incoming != [] then n.incoming[1..] else n.incoming
  {
    if step.Take? { BulkLane.LoadOk(n.near.lane); }
  }

  lemma GoPlain(n: BulkLane.Net, m: BulkLane.Move)
    requires BulkLane.NetValid(n, MAXIMUM_RECORD) && PlainMove(m) && PlainWire(n.outgoing) && PlainWire(n.incoming)
    ensures var n' := BulkLane.Go(n, m, MAXIMUM_RECORD); PlainWire(n'.outgoing) && PlainWire(n'.incoming)
  {
    if BulkLane.Allowed(m.step, MAXIMUM_RECORD) {
      var x := if m.far then n.Flip() else n;
      StepSends(x, m.step);
      StepReads(x, m.step);
    }
  }

  lemma {:induction false} RunPlain(moves: seq<BulkLane.Move>, far: bool)
    requires forall m <- moves :: PlainMove(m)
    ensures var n := BulkLane.Run(moves, MAXIMUM_RECORD); PlainWire(n.outgoing) && PlainWire(n.incoming)
    ensures PlainWire(PayloadsRead(moves, far))
  {
    if moves != [] {
      var front, m := moves[..|moves| - 1], moves[|moves| - 1];
      RunPlain(front, far);
      GoPlain(BulkLane.Run(front, MAXIMUM_RECORD), m);
    }
  }

  // ---- What was read and what was reassembled ----

  predicate Fed(p: BulkLane.Peer, payloads: seq<Data>) {
    BulkLane.Feed(RemoteWire.NoAssembly, payloads, MAXIMUM_RECORD) == (p.assembly, p.out, true)
  }

  lemma ReadFeeds(p: BulkLane.Peer, payloads: seq<Data>, payload: Data, now: real)
    requires Fed(p, payloads) && RemoteWire.FlowValid(p.lane.flow)
    requires !BulkLane.ReadPayload(p, payload, now, MAXIMUM_RECORD).failed
    ensures Fed(BulkLane.ReadPayload(p, payload, now, MAXIMUM_RECORD), payloads + [payload])
  {
    BulkLane.FeedAppend(RemoteWire.NoAssembly, payloads, payload, MAXIMUM_RECORD);
  }

  lemma GoFeeds(n: BulkLane.Net, m: BulkLane.Move, payloads: seq<Data>)
    requires BulkLane.NetValid(n, MAXIMUM_RECORD) && Fed(On(n, m.far), payloads)
    ensures var wire := Wire(n, !m.far);
            Fed(On(BulkLane.Go(n, m, MAXIMUM_RECORD), m.far), payloads + if m.step.Read? && wire != [] then [wire[0]] else [])
  {
    var x := if m.far then n.Flip() else n;
    GoSteps(n, m);
    NearFeeds(x, m.step, payloads);
    assert payloads + [] == payloads;
  }

  /** What the mover becomes: it never fails. */
  lemma GoSteps(n: BulkLane.Net, m: BulkLane.Move)
    requires BulkLane.NetValid(n, MAXIMUM_RECORD)
    ensures var x := if m.far then n.Flip() else n;
            && BulkLane.PeerOk(x.near)
            && var p := On(BulkLane.Go(n, m, MAXIMUM_RECORD), m.far);
               if BulkLane.Allowed(m.step, MAXIMUM_RECORD) then p == BulkLane.NearStep(x, m.step, MAXIMUM_RECORD).near && !p.failed
               else p == x.near
  {
  }

  lemma NearFeeds(n: BulkLane.Net, step: BulkLane.Step, payloads: seq<Data>)
    requires BulkLane.PeerOk(n.near) && Fed(n.near, payloads)
    requires BulkLane.Allowed(step, MAXIMUM_RECORD) ==> !BulkLane.NearStep(n, step, MAXIMUM_RECORD).near.failed
    ensures BulkLane.Allowed(step, MAXIMUM_RECORD) ==>
              Fed(BulkLane.NearStep(n, step, MAXIMUM_RECORD).near,
                  payloads + if step.Read? && n.incoming != [] then [n.incoming[0]] else [])
    ensures !BulkLane.Allowed(step, MAXIMUM_RECORD) ==> !step.Read?
  {
    assert payloads + [] == payloads;
    if step.Read? && n.incoming != [] {
      ReadFeeds(n.near, payloads, n.incoming[0], step.now);
    } else if BulkLane.Allowed(step, MAXIMUM_RECORD) {
      StepIs(n, step);
    }
  }

  lemma GoBeside(n: BulkLane.Net, m: BulkLane.Move)
    requires BulkLane.NetValid(n, MAXIMUM_RECORD)
    ensures On(BulkLane.Go(n, m, MAXIMUM_RECORD), !m.far) == On(n, !m.far)
  {
    if BulkLane.Allowed(m.step, MAXIMUM_RECORD) { StepIs(if m.far then n.Flip() else n, m.step); }
  }

  lemma {:induction false} RunFeeds(moves: seq<BulkLane.Move>, far: bool)
    ensures Fed(On(BulkLane.Run(moves, MAXIMUM_RECORD), far), PayloadsRead(moves, far))
  {
    if moves != [] {
      var front, m := moves[..|moves| - 1], moves[|moves| - 1];
      RunFeeds(front, far);
      if m.far == far { GoFeeds(BulkLane.Run(front, MAXIMUM_RECORD), m, PayloadsRead(front, far)); }
      GoBeside(BulkLane.Run(front, MAXIMUM_RECORD), m);
      assert PayloadsRead(front, far) + [] == PayloadsRead(front, far);
    }
  }

  // ---- What the decoder makes of what was read ----

  lemma RecordBytes(d: Decoder, record: Data, layouts: Layouts)
    requires d.ready
    ensures var (d1, outcome) := DecodeRecord(d, record, layouts);
            && d1.ready && d1.fragments == d.fragments && d1.completed == d.completed && !outcome.Idle?
            && (outcome.Emitted? ==> SessionBytes([outcome.packet]) == BytesOf(record))
  {
    if IsFileRecord(record) { assert record[WireFormat.HEADER_SIZE..][4..] == record[WireFormat.HEADER_SIZE + 4..]; }
  }

  /** A payload that was read moves the reassembler and completes what it exposes. */
  lemma PayloadBytes(d: Decoder, payload: Data, layouts: Layouts)
    requires d.ready && d.completed.None? && PlainPayload(payload) && DecodePayload(d, payload, layouts).1.Emitted?
    ensures var (d1, outcome) := DecodePayload(d, payload, layouts);
            && d1.ready && SessionBytes([outcome.packet]) == []
            && if BulkLane.IsPiece(payload) then
                 var (b, arrival) := RemoteWire.Receive(d.fragments, payload, MAXIMUM_RECORD);
                 && d1.fragments == b && !arrival.Corrupt?
                 && d1.completed == if arrival.Complete? then Some(arrival.record) else None
               else d1.fragments == d.fragments && d1.completed.None?
  {
  }

  lemma SessionAppend(a: Packet, b: seq<Packet>)
    ensures SessionBytes([a] + b) == SessionBytes([a]) + SessionBytes(b)
  {
    assert ([a] + b)[1..] == b && [a][1..] == [];
  }

  /** The records a payload completes come before those of the payloads after it. */
  lemma FeedFirst(d: Decoder, payloads: seq<Data>, layouts: Layouts)
    requires d.ready && d.completed.None? && payloads != [] && PlainPayload(payloads[0])
    requires DecodePayload(d, payloads[0], layouts).1.Emitted?
    ensures var d1 := DecodePayload(d, payloads[0], layouts).0;
            Carried(BulkLane.Feed(d.fragments, payloads, MAXIMUM_RECORD).1)
            == (if d1.completed.Some? then BytesOf(d1.completed.value) else [])
               + Carried(BulkLane.Feed(d1.fragments, payloads[1..], MAXIMUM_RECORD).1)
  {
    PayloadBytes(d, payloads[0], layouts);
    var d1 := DecodePayload(d, payloads[0], layouts).0;
    if d1.completed.Some? {
      CarriedAppend([d1.completed.value], BulkLane.Feed(d1.fragments, payloads[1..], MAXIMUM_RECORD).1);
      assert [] + [d1.completed.value] == [d1.completed.value] && [d1.completed.value][1..] == [];
      assert Carried([d1.completed.value]) == BytesOf(d1.completed.value);
    } else {
      var out := BulkLane.Feed(d1.fragments, payloads[1..], MAXIMUM_RECORD).1;
      assert [] + out == out && [] + Carried(out) == Carried(out);
    }
  }

  /** What the packets carry is the beginning of the bytes, and all of them without an error. */
  predicate Carries(end: Drained<Decoder, Packet, Error>, bytes: Data) {
    SessionBytes(end.packets) <= bytes && (end.error.None? ==> SessionBytes(end.packets) == bytes)
  }

  lemma CarriesAfter(end: Drained<Decoder, Packet, Error>, packet: Packet, bytes: Data, own: Data)
    requires Carries(end, bytes) && SessionBytes([packet]) == own
    ensures Carries(end.After(packet), own + bytes)
  {
    SessionAppend(packet, end.packets);
  }

  lemma NothingCarried(end: Drained<Decoder, Packet, Error>, packet: Packet, bytes: Data)
    requires end.error.Some? && end.packets == [packet] && SessionBytes([packet]) == []
    ensures Carries(end, bytes)
  {
  }

  /** The bytes a ready decoder emits for the file session are those of the records that the
      payloads hold, up to the first error. */
  lemma {:induction false} DecodeCarries(d: Decoder, payloads: seq<Data>, layouts: Layouts)
    requires d.ready && d.completed.None? && PlainWire(payloads)
    ensures Carries(DecodeAll(d, payloads, layouts), Carried(BulkLane.Feed(d.fragments, payloads, MAXIMUM_RECORD).1))
    decreases |payloads|
  {
    if payloads != [] {
      var (d1, outcome) := DecodePayload(d, payloads[0], layouts);
      PayloadAcknowledges(d, payloads[0], layouts);
      if outcome.Emitted? {
        PayloadBytes(d, payloads[0], layouts);
        FeedFirst(d, payloads, layouts);
        var bytes := Carried(BulkLane.Feed(d1.fragments, payloads[1..], MAXIMUM_RECORD).1);
        if d1.completed.None? {
          DecodeCarries(d1, payloads[1..], layouts);
          CarriesAfter(DecodeAll(d1, payloads[1..], layouts), outcome.packet, bytes, []);
        } else {
          var (d2, second) := DecodeRecord(d1.(completed := None), d1.completed.value, layouts);
          RecordBytes(d1.(completed := None), d1.completed.value, layouts);
          if second.Emitted? {
            var own := BytesOf(d1.completed.value);
            DecodeCarries(d2, payloads[1..], layouts);
            CarriesAfter(DecodeAll(d2, payloads[1..], layouts), second.packet, bytes, own);
            CarriesAfter(DecodeAll(d2, payloads[1..], layouts).After(second.packet), outcome.packet, own + bytes, []);
            assert [] + (own + bytes) == own + bytes;
          } else {
            NothingCarried(DecodeAll(d, payloads, layouts), outcome.packet, BytesOf(d1.completed.value) + bytes);
          }
        }
      }
    }
  }

  lemma CarriedPrefix(out: seq<Data>, records: seq<Data>)
    requires out <= records
    ensures Carried(out) <= Carried(records)
  {
    CarriedAppend(out, records[|out|..]);
    assert records == out + records[|out|..];
  }

  lemma RecordsArrive(moves: seq<BulkLane.Move>, far: bool)
    ensures var n := BulkLane.Run(moves, MAXIMUM_RECORD);
            && On(n, !far).out == BulkLane.Feed(RemoteWire.NoAssembly, PayloadsRead(moves, !far), MAXIMUM_RECORD).1
            && On(n, !far).out <= On(n, far).records == RecordsOf(moves, far)
  {
    RunFeeds(moves, !far);
    RunRecords(moves, far);
    BulkLane.CreditIsConserved(moves, MAXIMUM_RECORD);
  }

  const Ready := Initial.(ready := true)

  /** Whatever else the two writers send and whenever they take turns: the bytes of the file
      session that the decoder of one side emits are the beginning of those the callers of the
      other side passed; all of them, once every record has arrived and none was refused. */
  lemma SessionBytesArrive(acts: seq<Act>, far: bool, layouts: Layouts)
    requires forall a <- acts :: Fits(a)
    ensures var end := DecodeAll(Ready, PayloadsRead(MovesOf(acts), !far), layouts);
            var n := BulkLane.Run(MovesOf(acts), MAXIMUM_RECORD);
            && SessionBytes(end.packets) <= Accepted(acts, far)
            && (end.error.None? && On(n, !far).out == On(n, far).records ==> SessionBytes(end.packets) == Accepted(acts, far))
  {
    var moves := MovesOf(acts);
    MovesArePlain(acts);
    RunPlain(moves, !far);
    RecordsCarry(acts, far);
    DecodeCarries(Ready, PayloadsRead(moves, !far), layouts);
    RecordsArrive(moves, far);
    CarriedPrefix(BulkLane.Feed(RemoteWire.NoAssembly, PayloadsRead(moves, !far), MAXIMUM_RECORD).1, RecordsOf(moves, far));
  }
}
