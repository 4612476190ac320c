/** The bulk lane of a remote connection: whole records leave as fragments under credit,
    credit comes back, and both sides share one ordered stream in each direction. */
module BulkLane {
  import opened Bytes
  import opened Collections
  import opened Wrappers
  import opened RemoteWire

  // ---- One writer ----

  /** `record` is the one being sent, `queue` those behind it, `received` the fragment bytes
      of the peer not acknowledged yet. */
  datatype Lane = Lane(record: Option<Data>, offset: nat, queue: seq<Data>, queueBytes: int, flow: Flow, received: nat)

  const EmptyLane := Lane(None, 0, [], 0, InitialFlow, 0)

  function Enqueue(l: Lane, record: Data): Lane {
    l.(queue := l.queue + [record], queueBytes := l.queueBytes + |record|)
  }

  /** A record starts only after the one before it was sent completely. */
  function Load(l: Lane): Lane {
    if l.record.Some? || l.queue == [] then l
    else l.(record := Some(l.queue[0]), offset := 0, queue := l.queue[1..], queueBytes := l.queueBytes - |l.queue[0]|)
  }

  predicate LaneOk(l: Lane) {
    && FlowValid(l.flow)
    && (l.record.Some? ==> l.offset < |l.record.value| <= UINT32_MAX)
    && (l.record.None? ==> l.offset == 0)
    && forall r <- l.queue :: 0 < |r| <= UINT32_MAX
  }

  /** Acknowledgements go first and never wait for credit. */
  function SendCredit(l: Lane): (Lane, Data)
    requires l.received <= UINT32_MAX
  {
    (l.(received := 0), Acknowledgement(l.received))
  }

  function SendFragment(l: Lane, now: real): (Lane, Option<Data>)
    requires LaneOk(l)
  {
    if l.record.None? then (l, None)
    else
      var record := l.record.value;
      var (flow, count) := Allowance(l.flow, |record| - l.offset);
      if count == 0 then (l.(flow := flow), None)
      else
        var sent := l.(flow := Sent(flow, count, now));
        (if l.offset + count == |record| then sent.(record := None, offset := 0) else sent.(offset := l.offset + count),
         Some(Fragment(record, l.offset, 2, count)))
  }

  // ---- Two writers joined ----

  /** `records` and `done` are history: every record ever queued, and how many of them left
      completely. `out` has the records reassembled here. */
  datatype Peer = Peer(lane: Lane, assembly: Assembly, out: seq<Data>, failed: bool, records: seq<Data>, done: nat)

  datatype Net = Net(near: Peer, far: Peer, outgoing: seq<Data>, incoming: seq<Data>) {
    function Flip(): Net { Net(far, near, incoming, outgoing) }
  }

  predicate IsPiece(payload: Data) { |payload| >= 4 && payload[..4] == FRAGMENT_MAGIC }

  predicate IsCredit(payload: Data) { |payload| >= 4 && payload[..4] == ACKNOWLEDGEMENT_MAGIC }

  /** `Take` is one turn of the writer's loop when no control record is waiting, `Control`
      one when there is; `Read` acts on the oldest payload from the peer. */
  datatype Step = Queue(record: Data) | Control(payload: Data) | Take(now: real) | Read(now: real)

  /** What the connection guarantees its writer: records of a legal size, and control
      records that are neither fragments nor credit. */
  predicate Allowed(step: Step, maximumSize: nat) {
    match step
    case Queue(record) => 0 < |record| <= maximumSize
    case Control(payload) => !IsPiece(payload) && !IsCredit(payload)
    case _ => true
  }

  function ReadPayload(p: Peer, payload: Data, now: real, maximumSize: nat): Peer
    requires FlowValid(p.lane.flow)
  {
    if IsPiece(payload) then
      var (assembly, arrival) := Receive(p.assembly, payload, maximumSize);
      if arrival.Corrupt? then p.(assembly := assembly, failed := true)
      else
        p.(assembly := assembly, out := Exposed(p.out, arrival),
           lane := p.lane.(received := p.lane.received + (|payload| - 16)))
    else if IsCredit(payload) then
      if |payload| != 8 then p.(failed := true)
      else
        var (flow, ok) := Acknowledge(p.lane.flow, Decode32(payload, 4), now);
        p.(lane := p.lane.(flow := flow), failed := p.failed || !ok)
    else p
  }

  lemma LoadOk(l: Lane)
    requires LaneOk(l)
    ensures LaneOk(Load(l))
  {
    if l.queue != [] { assert l.queue[0] in l.queue; }
  }

  function CreditTake(n: Net): Net
    requires n.near.lane.received <= UINT32_MAX
  {
    var (l, payload) := SendCredit(n.near.lane);
    n.(near := n.near.(lane := l), outgoing := n.outgoing + [payload])
  }

  function FragmentTake(n: Net, now: real): Net
    requires LaneOk(n.near.lane)
  {
    var (l, payload) := SendFragment(n.near.lane, now);
    var done := if n.near.lane.record.Some? && l.record.None? then n.near.done + 1 else n.near.done;
    n.(near := n.near.(lane := l, done := done),
       outgoing := if payload.Some? then n.outgoing + [payload.value] else n.outgoing)
  }

  function Loaded(n: Net): Net { n.(near := n.near.(lane := Load(n.near.lane))) }

  function NearTake(n: Net, now: real): Net
    requires LaneOk(n.near.lane) && n.near.lane.received <= UINT32_MAX
  {
    LoadOk(n.near.lane);
    if n.near.lane.received > 0 then CreditTake(Loaded(n)) else FragmentTake(Loaded(n), now)
  }

  predicate PeerOk(p: Peer) { LaneOk(p.lane) && p.lane.received <= UINT32_MAX }

  function NearStep(n: Net, step: Step, maximumSize: nat): Net
    requires PeerOk(n.near)
  {
    match step
    case Queue(record) =>
      n.(near := n.near.(lane := Enqueue(n.near.lane, record), records := n.near.records + [record]))
    case Control(payload) => n.(outgoing := n.outgoing + [payload])
    case Take(now) => NearTake(n, now)
    case Read(now) =>
      if n.incoming == [] then n
      else n.(near := ReadPayload(n.near, n.incoming[0], now, maximumSize), incoming := n.incoming[1..])
  }

  // ---- The invariant ----

  /** What the reassembler makes of the pieces still on the wire. */
  function Feed(a: Assembly, wire: seq<Data>, maximumSize: nat): (Assembly, seq<Data>, bool)
    decreases |wire|
  {
    if wire == [] then (a, [], true)
    else if !IsPiece(wire[0]) then Feed(a, wire[1..], maximumSize)
    else
      var (b, arrival) := Receive(a, wire[0], maximumSize);
      var (c, out, ok) := Feed(b, wire[1..], maximumSize);
      (c, Exposed([], arrival) + out, ok && !arrival.Corrupt?)
  }

  function PieceBytes(wire: seq<Data>): nat {
    if wire == [] then 0
    else PieceBytes(wire[1..]) + if IsPiece(wire[0]) && |wire[0]| > 16 then |wire[0]| - 16 else 0
  }

  function CreditBytes(wire: seq<Data>): nat {
    if wire == [] then 0
    else CreditBytes(wire[1..]) + if IsCredit(wire[0]) && |wire[0]| == 8 then Decode32(wire[0], 4) else 0
  }

  predicate CreditsOk(wire: seq<Data>) {
    forall p <- wire :: IsCredit(p) ==> |p| == 8 && Decode32(p, 4) > 0
  }

  predicate PiecesOk(wire: seq<Data>) { forall p <- wire :: IsPiece(p) ==> |p| > 16 }

  function Todo(l: Lane): seq<Data> { (if l.record.Some? then [l.record.value] else []) + l.queue }

  function WriterOf(p: Peer): Writer { Writer(p.records, p.done, p.lane.offset) }

  /** One direction: credit is conserved, and the wire holds what the peer still needs. */
  ghost predicate Direction(x: Peer, y: Peer, wire: seq<Data>, back: seq<Data>, maximumSize: nat) {
    && x.lane.flow.bytes == PieceBytes(wire) + y.lane.received + CreditBytes(back)
    && PiecesOk(wire) && CreditsOk(back)
    && WriterValid(WriterOf(x), maximumSize)
    && x.records[x.done..] == Todo(x.lane)
    && var (assembly, out, ok) := Feed(y.assembly, wire, maximumSize);
       ok && y.out + out == x.records[..x.done] && LaneMatches(assembly, 2, WriterOf(x))
  }

  ghost predicate NetValid(n: Net, maximumSize: nat) {
    && maximumSize <= UINT32_MAX
    && PeerOk(n.near) && PeerOk(n.far)
    && !n.near.failed && !n.far.failed
    && Direction(n.near, n.far, n.outgoing, n.incoming, maximumSize)
    && Direction(n.far, n.near, n.incoming, n.outgoing, maximumSize)
  }

  // ---- The wire grows at one end and shrinks at the other ----

  lemma ExposedAppend(before: seq<Data>, out: seq<Data>, arrival: Arrival)
    ensures Exposed(before + out, arrival) == before + Exposed(out, arrival)
  {
  }

  lemma {:induction false} FeedAppend(a: Assembly, wire: seq<Data>, p: Data, maximumSize: nat)
    ensures var (b, out, ok) := Feed(a, wire, maximumSize);
            Feed(a, wire + [p], maximumSize) ==
            if IsPiece(p) then
              var (c, arrival) := Receive(b, p, maximumSize);
              (c, Exposed(out, arrival), ok && !arrival.Corrupt?)
            else (b, out, ok)
    decreases |wire|
  {
    if wire == [] {
      assert wire + [p] == [p] && [p][1..] == [];
      var first := Exposed([], Receive(a, p, maximumSize).1);
      assert first + [] == first;
    } else {
      assert (wire + [p])[1..] == wire[1..] + [p] && (wire + [p])[0] == wire[0];
      var (a', first) := if IsPiece(wire[0]) then Receive(a, wire[0], maximumSize) else (a, Partial);
      FeedAppend(a', wire[1..], p, maximumSize);
      var (b, out, _) := Feed(a', wire[1..], maximumSize);
      ExposedAppend(Exposed([], first), out, Receive(b, p, maximumSize).1);
    }
  }

  lemma {:induction false} BytesAppend(wire: seq<Data>, p: Data)
    ensures PieceBytes(wire + [p]) == PieceBytes(wire) + if IsPiece(p) && |p| > 16 then |p| - 16 else 0
    ensures CreditBytes(wire + [p]) == CreditBytes(wire) + if IsCredit(p) && |p| == 8 then Decode32(p, 4) else 0
  {
    if wire == [] {
      assert wire + [p] == [p];
    } else {
      assert (wire + [p])[1..] == wire[1..] + [p];
      BytesAppend(wire[1..], p);
    }
  }

  // ---- What each step does to a direction ----

  /** Changing nothing the direction looks at. */
  predicate SameWriter(x: Peer, x': Peer) {
    && x'.lane.flow.bytes == x.lane.flow.bytes && x'.records == x.records && x'.done == x.done
    && x'.lane.offset == x.lane.offset && Todo(x'.lane) == Todo(x.lane)
  }

  predicate SameReader(y: Peer, y': Peer) {
    y'.lane.received == y.lane.received && y'.assembly == y.assembly && y'.out == y.out
  }

  lemma DirectionKeeps(x: Peer, x': Peer, y: Peer, y': Peer, wire: seq<Data>, back: seq<Data>, maximumSize: nat)
    requires Direction(x, y, wire, back, maximumSize) && SameWriter(x, x') && SameReader(y, y')
    ensures Direction(x', y', wire, back, maximumSize)
  {
  }

  /** A payload that is no fragment joins the wire. */
  lemma DirectionSends(x: Peer, y: Peer, wire: seq<Data>, back: seq<Data>, p: Data, maximumSize: nat)
    requires Direction(x, y, wire, back, maximumSize) && !IsPiece(p)
    ensures Direction(x, y, wire + [p], back, maximumSize)
  {
    FeedAppend(y.assembly, wire, p, maximumSize);
    BytesAppend(wire, p);
  }

  /** A payload that is no credit joins the way back. */
  lemma DirectionReturns(x: Peer, y: Peer, wire: seq<Data>, back: seq<Data>, p: Data, maximumSize: nat)
    requires Direction(x, y, wire, back, maximumSize) && !IsCredit(p)
    ensures Direction(x, y, wire, back + [p], maximumSize)
  {
    BytesAppend(back, p);
  }

  lemma QueueDirection(x: Peer, y: Peer, wire: seq<Data>, back: seq<Data>, record: Data, maximumSize: nat)
    requires Direction(x, y, wire, back, maximumSize) && 0 < |record| <= maximumSize
    ensures Direction(x.(lane := Enqueue(x.lane, record), records := x.records + [record]), y, wire, back, maximumSize)
  {
    var x' := x.(lane := Enqueue(x.lane, record), records := x.records + [record]);
    assert x'.records[x.done..] == x.records[x.done..] + [record];
    assert x'.records[..x.done] == x.records[..x.done];
    assert Todo(x'.lane) == Todo(x.lane) + [record];
  }

  lemma LoadKeeps(l: Lane)
    requires LaneOk(l)
    ensures LaneOk(Load(l)) && Todo(Load(l)) == Todo(l)
    ensures Load(l).flow == l.flow && Load(l).received == l.received && Load(l).offset == l.offset
  {
    LoadOk(l);
  }

  /** The acknowledgement carries the bytes it takes from the reader's account. */
  lemma CreditDirection(x: Peer, y: Peer, wire: seq<Data>, back: seq<Data>, maximumSize: nat)
    requires Direction(x, y, wire, back, maximumSize) && 0 < y.lane.received <= UINT32_MAX
    ensures var (l, p) := SendCredit(y.lane); Direction(x, y.(lane := l), wire, back + [p], maximumSize)
  {
    var p := Acknowledgement(y.lane.received);
    AcknowledgementCount(y.lane.received);
    BytesAppend(back, p);
    assert p[..4] == ACKNOWLEDGEMENT_MAGIC;
  }

  lemma FragmentIsPiece(record: Data, offset: nat, lane: nat, count: nat)
    requires offset < |record| <= UINT32_MAX && lane <= UINT32_MAX && count > 0
    ensures var p := Fragment(record, offset, lane, count); IsPiece(p) && !IsCredit(p) && |p| > 16
  {
    FragmentFields(record, offset, lane, count);
  }

  /** The reader will have what the writer is done with, once it read this fragment too. */
  lemma FragmentFeeds(x: Peer, y: Peer, wire: seq<Data>, back: seq<Data>, count: nat, maximumSize: nat)
    requires Direction(x, y, wire, back, maximumSize) && maximumSize <= UINT32_MAX
    requires x.done < |x.records| && 0 < count <= FRAGMENT_SIZE
    ensures |x.records[x.done]| <= UINT32_MAX && x.lane.offset <= |x.records[x.done]|
    ensures var p := Fragment(x.records[x.done], x.lane.offset, 2, count);
            var next := Advance(WriterOf(x), count);
            var (assembly, out, ok) := Feed(y.assembly, wire + [p], maximumSize);
            && IsPiece(p) && !IsCredit(p) && |p| > 16
            && WriterValid(next, maximumSize)
            && ok && y.out + out == x.records[..next.done] && LaneMatches(assembly, 2, next)
  {
    var record := x.records[x.done];
    var (assembly, out, _) := Feed(y.assembly, wire, maximumSize);
    assert record in x.records;
    FragmentIsPiece(record, x.lane.offset, 2, count);
    var p := Fragment(record, x.lane.offset, 2, count);
    ChunkArrives(assembly, WriterOf(x), 2, count, maximumSize, x.records[..x.done]);
    FeedAppend(y.assembly, wire, p, maximumSize);
    ExposedAppend(y.out, out, Receive(assembly, p, maximumSize).1);
  }

  lemma FragmentLane(l: Lane, now: real)
    requires LaneOk(l) && SendFragment(l, now).1.Some?
    ensures var (l', p) := SendFragment(l, now);
            var count := Allowance(l.flow, |l.record.value| - l.offset).1;
            && LaneOk(l') && 0 < count <= FRAGMENT_SIZE && count <= |l.record.value| - l.offset
            && |p.value| == 16 + count && l'.flow.bytes == l.flow.bytes + count
  {
    AllowanceValid(l.flow, |l.record.value| - l.offset, now);
    FragmentFields(l.record.value, l.offset, 2, Allowance(l.flow, |l.record.value| - l.offset).1);
  }

  /** What sending one fragment did to the writer. */
  lemma FragmentSent(x: Peer, now: real)
    requires LaneOk(x.lane) && SendFragment(x.lane, now).1.Some?
    requires x.done < |x.records| && x.records[x.done..] == Todo(x.lane)
    requires x.records[x.done] == x.lane.record.value
    ensures var (l, p) := SendFragment(x.lane, now);
            var count := Allowance(x.lane.flow, |x.records[x.done]| - x.lane.offset).1;
            var done := if l.record.None? then x.done + 1 else x.done;
            && LaneOk(l) && 0 < count <= FRAGMENT_SIZE && |p.value| == 16 + count
            && x.lane.offset < |x.records[x.done]| <= UINT32_MAX
            && p.value == Fragment(x.records[x.done], x.lane.offset, 2, count)
            && l.flow.bytes == x.lane.flow.bytes + count
            && Writer(x.records, done, l.offset) == Advance(WriterOf(x), count)
            && x.records[done..] == Todo(l)
  {
    FragmentLane(x.lane, now);
    assert x.records[x.done + 1..] == x.records[x.done..][1..] == x.lane.queue;
  }

  lemma FragmentJoins(x: Peer, x': Peer, y: Peer, wire: seq<Data>, back: seq<Data>, p: Data, count: nat, maximumSize: nat)
    requires Direction(x, y, wire, back, maximumSize) && maximumSize <= UINT32_MAX
    requires x.done < |x.records| && 0 < count <= FRAGMENT_SIZE && |p| == 16 + count
    requires x.lane.offset < |x.records[x.done]| <= UINT32_MAX
    requires p == Fragment(x.records[x.done], x.lane.offset, 2, count)
    requires x'.lane.flow.bytes == x.lane.flow.bytes + count
    requires WriterOf(x') == Advance(WriterOf(x), count) && x'.records[x'.done..] == Todo(x'.lane)
    ensures Direction(x', y, wire + [p], back, maximumSize) && !IsCredit(p)
  {
    FragmentFeeds(x, y, wire, back, count, maximumSize);
    BytesAppend(wire, p);
  }

  /** A fragment leaves: its bytes are in flight, and the wire now holds it too. */
  lemma FragmentDirection(x: Peer, x': Peer, y: Peer, wire: seq<Data>, back: seq<Data>, now: real, maximumSize: nat)
    requires Direction(x, y, wire, back, maximumSize) && LaneOk(x.lane) && maximumSize <= UINT32_MAX
    requires SendFragment(x.lane, now).1.Some? && x'.lane == SendFragment(x.lane, now).0
    requires x'.records == x.records && x'.done == if x'.lane.record.None? then x.done + 1 else x.done
    ensures var p := SendFragment(x.lane, now).1.value;
            LaneOk(x'.lane) && Direction(x', y, wire + [p], back, maximumSize) && !IsCredit(p)
  {
    assert x.records[x.done..][0] == x.lane.record.value;
    FragmentSent(x, now);
    var count := Allowance(x.lane.flow, |x.records[x.done]| - x.lane.offset).1;
    FragmentJoins(x, x', y, wire, back, SendFragment(x.lane, now).1.value, count, maximumSize);
  }

  /** A writer without credit, or with nothing to send, changes nothing but its flow's flag. */
  lemma IdleDirection(x: Peer, y: Peer, wire: seq<Data>, back: seq<Data>, now: real, maximumSize: nat)
    requires Direction(x, y, wire, back, maximumSize) && LaneOk(x.lane)
    requires SendFragment(x.lane, now).1.None?
    ensures var l := SendFragment(x.lane, now).0;
            LaneOk(l) && Direction(x.(lane := l), y, wire, back, maximumSize) && l.record == x.lane.record
  {
    if x.lane.record.Some? { AllowanceValid(x.lane.flow, |x.lane.record.value| - x.lane.offset, now); }
    DirectionKeeps(x, x.(lane := SendFragment(x.lane, now).0), y, y, wire, back, maximumSize);
  }

  /** Reassembling the oldest piece first, then the rest, is reassembling the wire. */
  lemma FeedHead(y: Peer, y': Peer, wire: seq<Data>, maximumSize: nat)
    requires wire != [] && IsPiece(wire[0]) && Feed(y.assembly, wire, maximumSize).2
    requires var (assembly, arrival) := Receive(y.assembly, wire[0], maximumSize);
             y'.assembly == assembly && y'.out == Exposed(y.out, arrival)
    ensures !Receive(y.assembly, wire[0], maximumSize).1.Corrupt?
    ensures var (c, out, ok) := Feed(y.assembly, wire, maximumSize);
            var (c', out', ok') := Feed(y'.assembly, wire[1..], maximumSize);
            c' == c && ok' && y'.out + out' == y.out + out
  {
    var arrival := Receive(y.assembly, wire[0], maximumSize).1;
    var out := Feed(y'.assembly, wire[1..], maximumSize).1;
    assert y.out + (Exposed([], arrival) + out) == Exposed(y.out, arrival) + out;
  }

  /** The oldest piece is what the reassembler expects; its bytes are now to be acknowledged. */
  lemma PieceArrives(x: Peer, y: Peer, wire: seq<Data>, back: seq<Data>, now: real, maximumSize: nat)
    requires Direction(x, y, wire, back, maximumSize) && FlowValid(x.lane.flow) && FlowValid(y.lane.flow)
    requires wire != [] && IsPiece(wire[0]) && !y.failed
    ensures var y' := ReadPayload(y, wire[0], now, maximumSize);
            && Direction(x, y', wire[1..], back, maximumSize)
            && !y'.failed && y'.lane == y.lane.(received := y'.lane.received) && y'.lane.received <= MAXIMUM_WINDOW
            && SameWriter(y, y')
  {
    assert wire[0] in wire;
    var (assembly, arrival) := Receive(y.assembly, wire[0], maximumSize);
    FeedHead(y, y.(assembly := assembly, out := Exposed(y.out, arrival)), wire, maximumSize);
  }

  /** Anything but a piece leaves the reassembler alone. */
  lemma OtherArrives(x: Peer, y: Peer, wire: seq<Data>, back: seq<Data>, maximumSize: nat)
    requires Direction(x, y, wire, back, maximumSize) && wire != [] && !IsPiece(wire[0])
    ensures Direction(x, y, wire[1..], back, maximumSize)
  {
  }

  /** An honest credit is never refused: its bytes are in flight. */
  lemma CreditArrives(x: Peer, y: Peer, wire: seq<Data>, back: seq<Data>, now: real, maximumSize: nat)
    requires Direction(x, y, wire, back, maximumSize) && LaneOk(x.lane)
    requires back != [] && IsCredit(back[0]) && !IsPiece(back[0]) && !x.failed
    ensures var x' := ReadPayload(x, back[0], now, maximumSize);
            && Direction(x', y, wire, back[1..], maximumSize)
            && !x'.failed && LaneOk(x'.lane) && SameReader(x, x')
  {
    assert back[0] in back;
    AcknowledgeValid(x.lane.flow, Decode32(back[0], 4), now);
  }

  lemma NoCreditArrives(x: Peer, y: Peer, wire: seq<Data>, back: seq<Data>, maximumSize: nat)
    requires Direction(x, y, wire, back, maximumSize) && back != [] && !IsCredit(back[0])
    ensures Direction(x, y, wire, back[1..], maximumSize)
  {
  }

  // ---- Every step keeps the invariant ----

  lemma LoadedValid(n: Net, maximumSize: nat)
    requires NetValid(n, maximumSize)
    ensures NetValid(Loaded(n), maximumSize)
  {
    var x := Loaded(n).near;
    LoadKeeps(n.near.lane);
    DirectionKeeps(n.near, x, n.far, n.far, n.outgoing, n.incoming, maximumSize);
    DirectionKeeps(n.far, n.far, n.near, x, n.incoming, n.outgoing, maximumSize);
  }

  lemma CreditTakeValid(n: Net, maximumSize: nat)
    requires NetValid(n, maximumSize) && n.near.lane.received > 0
    ensures NetValid(CreditTake(n), maximumSize)
  {
    var p := SendCredit(n.near.lane).1;
    assert p[..4] == ACKNOWLEDGEMENT_MAGIC;
    DirectionSends(n.near, n.far, n.outgoing, n.incoming, p, maximumSize);
    DirectionKeeps(n.near, CreditTake(n).near, n.far, n.far, n.outgoing + [p], n.incoming, maximumSize);
    CreditDirection(n.far, n.near, n.incoming, n.outgoing, maximumSize);
  }

  lemma FragmentTakeValid(n: Net, now: real, maximumSize: nat)
    requires NetValid(n, maximumSize) && SendFragment(n.near.lane, now).1.Some?
    ensures NetValid(FragmentTake(n, now), maximumSize)
  {
    var m := FragmentTake(n, now);
    var p := SendFragment(n.near.lane, now).1.value;
    FragmentDirection(n.near, m.near, n.far, n.outgoing, n.incoming, now, maximumSize);
    FragmentReturns(n, now, maximumSize);
  }

  lemma FragmentReturns(n: Net, now: real, maximumSize: nat)
    requires NetValid(n, maximumSize) && SendFragment(n.near.lane, now).1.Some?
    requires !IsCredit(SendFragment(n.near.lane, now).1.value)
    ensures Direction(n.far, FragmentTake(n, now).near, n.incoming, FragmentTake(n, now).outgoing, maximumSize)
    ensures FragmentTake(n, now).near.lane.received == n.near.lane.received
  {
    var m := FragmentTake(n, now);
    var p := SendFragment(n.near.lane, now).1.value;
    DirectionReturns(n.far, n.near, n.incoming, n.outgoing, p, maximumSize);
    DirectionKeeps(n.far, n.far, n.near, m.near, n.incoming, n.outgoing + [p], maximumSize);
  }

  lemma IdleTakeValid(n: Net, now: real, maximumSize: nat)
    requires NetValid(n, maximumSize) && SendFragment(n.near.lane, now).1.None?
    ensures NetValid(FragmentTake(n, now), maximumSize)
  {
    var m := FragmentTake(n, now);
    IdleDirection(n.near, n.far, n.outgoing, n.incoming, now, maximumSize);
    DirectionKeeps(n.far, n.far, n.near, m.near, n.incoming, n.outgoing, maximumSize);
  }

  lemma TurnValid(n: Net, now: real, maximumSize: nat)
    requires NetValid(n, maximumSize)
    ensures NetValid(FragmentTake(n, now), maximumSize)
  {
    if SendFragment(n.near.lane, now).1.Some? {
      FragmentTakeValid(n, now, maximumSize);
    } else {
      IdleTakeValid(n, now, maximumSize);
    }
  }

  lemma TakeValid(n: Net, now: real, maximumSize: nat)
    requires NetValid(n, maximumSize)
    ensures NetValid(NearTake(n, now), maximumSize)
  {
    LoadedValid(n, maximumSize);
    LoadKeeps(n.near.lane);
    if n.near.lane.received > 0 {
      CreditTakeValid(Loaded(n), maximumSize);
    } else {
      TurnValid(Loaded(n), now, maximumSize);
    }
  }

  lemma PieceReadValid(n: Net, now: real, maximumSize: nat)
    requires NetValid(n, maximumSize) && n.incoming != [] && IsPiece(n.incoming[0])
    ensures NetValid(NearStep(n, Read(now), maximumSize), maximumSize)
  {
    var m := NearStep(n, Read(now), maximumSize);
    PieceArrives(n.far, n.near, n.incoming, n.outgoing, now, maximumSize);
    NoCreditArrives(n.near, n.far, n.outgoing, n.incoming, maximumSize);
    DirectionKeeps(n.near, m.near, n.far, n.far, n.outgoing, m.incoming, maximumSize);
  }

  lemma CreditReadValid(n: Net, now: real, maximumSize: nat)
    requires NetValid(n, maximumSize) && n.incoming != [] && !IsPiece(n.incoming[0]) && IsCredit(n.incoming[0])
    ensures NetValid(NearStep(n, Read(now), maximumSize), maximumSize)
  {
    var m := NearStep(n, Read(now), maximumSize);
    OtherArrives(n.far, n.near, n.incoming, n.outgoing, maximumSize);
    CreditArrives(n.near, n.far, n.outgoing, n.incoming, now, maximumSize);
    DirectionKeeps(n.far, n.far, n.near, m.near, m.incoming, n.outgoing, maximumSize);
  }

  lemma OtherReadValid(n: Net, now: real, maximumSize: nat)
    requires NetValid(n, maximumSize) && n.incoming != [] && !IsPiece(n.incoming[0]) && !IsCredit(n.incoming[0])
    ensures NetValid(NearStep(n, Read(now), maximumSize), maximumSize)
  {
    OtherArrives(n.far, n.near, n.incoming, n.outgoing, maximumSize);
    NoCreditArrives(n.near, n.far, n.outgoing, n.incoming, maximumSize);
  }

  lemma ReadValid(n: Net, now: real, maximumSize: nat)
    requires NetValid(n, maximumSize) && n.incoming != []
    ensures NetValid(NearStep(n, Read(now), maximumSize), maximumSize)
  {
    if IsPiece(n.incoming[0]) {
      PieceReadValid(n, now, maximumSize);
    } else if IsCredit(n.incoming[0]) {
      CreditReadValid(n, now, maximumSize);
    } else {
      OtherReadValid(n, now, maximumSize);
    }
  }

  lemma StepValid(n: Net, step: Step, maximumSize: nat)
    requires NetValid(n, maximumSize) && Allowed(step, maximumSize)
    ensures NetValid(NearStep(n, step, maximumSize), maximumSize)
  {
    match step
    case Queue(record) =>
      QueueDirection(n.near, n.far, n.outgoing, n.incoming, record, maximumSize);
      var m := NearStep(n, step, maximumSize);
      DirectionKeeps(n.far, n.far, n.near, m.near, n.incoming, n.outgoing, maximumSize);
    case Control(payload) =>
      DirectionSends(n.near, n.far, n.outgoing, n.incoming, payload, maximumSize);
      DirectionReturns(n.far, n.near, n.incoming, n.outgoing, payload, maximumSize);
    case Take(now) => TakeValid(n, now, maximumSize);
    case Read(now) => if n.incoming != [] { ReadValid(n, now, maximumSize); }
  }

  datatype Move = Move(far: bool, step: Step)

  const Start := Net(Peer(EmptyLane, NoAssembly, [], false, [], 0), Peer(EmptyLane, NoAssembly, [], false, [], 0), [], [])

  /** A step of either side; the connection never asks for one that is not allowed. */
  function Go(n: Net, m: Move, maximumSize: nat): (n': Net)
    requires NetValid(n, maximumSize)
    ensures NetValid(n', maximumSize)
  {
    if !Allowed(m.step, maximumSize) then n
    else if m.far then
      StepValid(n.Flip(), m.step, maximumSize);
      NearStep(n.Flip(), m.step, maximumSize).Flip()
    else
      StepValid(n, m.step, maximumSize);
      NearStep(n, m.step, maximumSize)
  }

  lemma StartValid(maximumSize: nat)
    requires maximumSize <= UINT32_MAX
    ensures NetValid(Start, maximumSize)
  {
    assert Feed(NoAssembly, [], maximumSize) == (NoAssembly, [], true);
    assert Total(InitialFlow.pending) == 0;
  }

  function Run(moves: seq<Move>, maximumSize: nat): (n: Net)
    requires maximumSize <= UINT32_MAX
    ensures NetValid(n, maximumSize)
  {
    if moves == [] then StartValid(maximumSize); Start
    else Go(Run(moves[..|moves| - 1], maximumSize), moves[|moves| - 1], maximumSize)
  }

  // ---- The results ----

  /** However two writers and their readers take turns, and whatever round trips they
      measure: neither side ever refuses a fragment or a credit; the bytes a writer counts in
      flight are exactly those on the wire, at the reader and in acknowledgements on their
      way back, never more than 1 MiB; and the reader has reassembled exactly the first
      records queued, in order. */
  lemma CreditIsConserved(moves: seq<Move>, maximumSize: nat)
    requires maximumSize <= UINT32_MAX
    ensures var n := Run(moves, maximumSize);
            && !n.near.failed && !n.far.failed
            && n.near.lane.flow.bytes == PieceBytes(n.outgoing) + n.far.lane.received + CreditBytes(n.incoming)
            && n.far.lane.flow.bytes == PieceBytes(n.incoming) + n.near.lane.received + CreditBytes(n.outgoing)
            && n.near.lane.flow.bytes <= MAXIMUM_WINDOW && n.far.lane.flow.bytes <= MAXIMUM_WINDOW
            && n.far.out <= n.near.records && n.near.out <= n.far.records
  {
    var n := Run(moves, maximumSize);
    DeliveredPrefix(n.near, n.far, n.outgoing, n.incoming, maximumSize);
    DeliveredPrefix(n.far, n.near, n.incoming, n.outgoing, maximumSize);
  }

  lemma DeliveredPrefix(x: Peer, y: Peer, wire: seq<Data>, back: seq<Data>, maximumSize: nat)
    requires Direction(x, y, wire, back, maximumSize)
    ensures y.out <= x.records
  {
    var out := Feed(y.assembly, wire, maximumSize).1;
    assert y.out == (y.out + out)[..|y.out|] == x.records[..x.done][..|y.out|];
    assert y.out == x.records[..|y.out|];
  }

  // ---- Progress ----

  function Size(records: seq<Data>): nat {
    if records == [] then 0 else |records[0]| + Size(records[1..])
  }

  /** Work left on one side: bytes to cut, payloads to read, an acknowledgement to send. */
  function Work(p: Peer, wire: seq<Data>): int {
    4 * (Size(Todo(p.lane)) - p.lane.offset) + PayloadWork(wire) + if p.lane.received > 0 then 2 else 0
  }

  function PayloadWork(wire: seq<Data>): nat {
    if wire == [] then 0 else PayloadWork(wire[1..]) + if IsPiece(wire[0]) then 3 else 1
  }

  function Measure(n: Net): int { Work(n.near, n.outgoing) + Work(n.far, n.incoming) }

  lemma {:induction false} PayloadWorkAppend(wire: seq<Data>, p: Data)
    ensures PayloadWork(wire + [p]) == PayloadWork(wire) + if IsPiece(p) then 3 else 1
  {
    if wire == [] {
      assert wire + [p] == [p];
    } else {
      assert (wire + [p])[1..] == wire[1..] + [p];
      PayloadWorkAppend(wire[1..], p);
    }
  }

  lemma MeasureIsNatural(n: Net, maximumSize: nat)
    requires NetValid(n, maximumSize)
    ensures Measure(n) >= 0
  {
  }

  /** Whether a turn of the writer or the reader does anything. */
  predicate Effective(n: Net, step: Step)
    requires LaneOk(n.near.lane)
  {
    match step
    case Take(now) =>
      LoadOk(n.near.lane);
      n.near.lane.received > 0 || SendFragment(Load(n.near.lane), now).1.Some?
    case Read(_) => n.incoming != []
    case _ => false
  }

  /** A fragment leaves fewer bytes to cut. */
  lemma FragmentShrinks(l: Lane, now: real)
    requires LaneOk(l) && SendFragment(l, now).1.Some?
    ensures var (l', p) := SendFragment(l, now);
            Size(Todo(l')) - l'.offset < Size(Todo(l)) - l.offset && l'.received == l.received && IsPiece(p.value)
  {
    var (l', p) := SendFragment(l, now);
    FragmentLane(l, now);
    FragmentIsPiece(l.record.value, l.offset, 2, Allowance(l.flow, |l.record.value| - l.offset).1);
    assert Todo(l)[1..] == l.queue;
    if l'.record.None? { assert Todo(l') == l.queue; }
  }

  /** Less to cut pays for a fragment, an acknowledgement no longer due pays for its payload. */
  lemma TakePays(p: Peer, p': Peer, wire: seq<Data>, payload: Data)
    requires || (Todo(p'.lane) == Todo(p.lane) && p'.lane.offset == p.lane.offset
                 && p.lane.received > 0 == p'.lane.received && !IsPiece(payload))
             || (Size(Todo(p'.lane)) - p'.lane.offset < Size(Todo(p.lane)) - p.lane.offset
                 && p'.lane.received == p.lane.received)
    ensures Work(p', wire + [payload]) < Work(p, wire)
  {
    PayloadWorkAppend(wire, payload);
  }

  lemma TakeWorks(n: Net, now: real, maximumSize: nat)
    requires NetValid(n, maximumSize) && Effective(n, Take(now))
    ensures Measure(NearTake(n, now)) < Measure(n)
  {
    var l := Load(n.near.lane);
    LoadKeeps(n.near.lane);
    var p := if l.received > 0 then SendCredit(l).1 else SendFragment(l, now).1.value;
    if l.received > 0 { assert p[..4] == ACKNOWLEDGEMENT_MAGIC; } else { FragmentShrinks(l, now); }
    TakePays(n.near, NearTake(n, now).near, n.outgoing, p);
  }

  lemma ReadKeepsTodo(p: Peer, payload: Data, now: real, maximumSize: nat)
    requires FlowValid(p.lane.flow)
    ensures var l := ReadPayload(p, payload, now, maximumSize).lane;
            && Todo(l) == Todo(p.lane) && l.offset == p.lane.offset
            && (IsPiece(payload) || l.received == p.lane.received)
  {
  }

  /** Reading a fragment makes an acknowledgement due, which is less than the fragment. */
  lemma ReadOwes(p: Peer, p': Peer, wire: seq<Data>, piece: bool)
    requires Todo(p'.lane) == Todo(p.lane) && p'.lane.offset == p.lane.offset
    requires piece || p'.lane.received == p.lane.received
    ensures Work(p', wire) <= Work(p, wire) + if piece then 2 else 0
  {
  }

  lemma ReadWorks(n: Net, now: real, maximumSize: nat)
    requires NetValid(n, maximumSize) && n.incoming != []
    ensures Measure(NearStep(n, Read(now), maximumSize)) < Measure(n)
  {
    var m := NearStep(n, Read(now), maximumSize);
    var piece := IsPiece(n.incoming[0]);
    ReadKeepsTodo(n.near, n.incoming[0], now, maximumSize);
    ReadOwes(n.near, m.near, n.outgoing, piece);
    assert Work(n.far, n.incoming) == Work(n.far, n.incoming[1..]) + if piece then 3 else 1;
  }

  /** Every turn that does something leaves less to do, so the turns end. */
  lemma TurnsEnd(n: Net, step: Step, maximumSize: nat)
    requires NetValid(n, maximumSize) && Effective(n, step)
    ensures 0 <= Measure(NearStep(n, step, maximumSize)) < Measure(n)
  {
    StepValid(n, step, maximumSize);
    MeasureIsNatural(NearStep(n, step, maximumSize), maximumSize);
    match step
    case Take(now) => TakeWorks(n, now, maximumSize);
    case Read(now) => ReadWorks(n, now, maximumSize);
  }

  predicate EffectiveMove(n: Net, m: Move)
    requires LaneOk(n.near.lane) && LaneOk(n.far.lane)
  {
    if m.far then Effective(n.Flip(), m.step) else Effective(n, m.step)
  }

  /** Turns that each do something, one after another. */
  predicate Working(moves: seq<Move>, turns: seq<Move>, maximumSize: nat)
    requires maximumSize <= UINT32_MAX
    decreases |turns|
  {
    turns == []
    || (Working(moves, turns[..|turns| - 1], maximumSize)
        && EffectiveMove(Run(moves + turns[..|turns| - 1], maximumSize), turns[|turns| - 1]))
  }

  function WorkLeft(moves: seq<Move>, maximumSize: nat): nat
    requires maximumSize <= UINT32_MAX
  {
    MeasureIsNatural(Run(moves, maximumSize), maximumSize);
    Measure(Run(moves, maximumSize))
  }

  lemma MovePays(moves: seq<Move>, m: Move, maximumSize: nat)
    requires maximumSize <= UINT32_MAX && EffectiveMove(Run(moves, maximumSize), m)
    ensures WorkLeft(moves + [m], maximumSize) < WorkLeft(moves, maximumSize)
  {
    var n := Run(moves, maximumSize);
    assert (moves + [m])[..|moves|] == moves;
    if m.far { TurnsEnd(n.Flip(), m.step, maximumSize); } else { TurnsEnd(n, m.step, maximumSize); }
  }

  /** From any reachable state the turns that do something come to an end, after at most as
      many as there is work left. */
  lemma {:induction false} TurnsAreBounded(moves: seq<Move>, turns: seq<Move>, maximumSize: nat)
    requires maximumSize <= UINT32_MAX && Working(moves, turns, maximumSize)
    ensures WorkLeft(moves + turns, maximumSize) + |turns| <= WorkLeft(moves, maximumSize)
    decreases |turns|
  {
    if turns == [] {
      assert moves + turns == moves;
    } else {
      TurnsAreBounded(moves, turns[..|turns| - 1], maximumSize);
      MovePays(moves + turns[..|turns| - 1], turns[|turns| - 1], maximumSize);
      LastOfBoth(moves, turns);
    }
  }

  /** As long as some record is not reassembled yet, some turn does something, in every
      reachable state: neither a shrunk window nor an unacknowledged byte can stop the lane
      for good. */
  lemma NeverStuck(moves: seq<Move>, now: real, maximumSize: nat)
    requires maximumSize <= UINT32_MAX
    requires var n := Run(moves, maximumSize);
             forall far :: !EffectiveMove(n, Move(far, Take(now))) && !EffectiveMove(n, Move(far, Read(now)))
    ensures var n := Run(moves, maximumSize); n.far.out == n.near.records && n.near.out == n.far.records
  {
    var n := Run(moves, maximumSize);
    assert !EffectiveMove(n, Move(false, Take(now))) && !EffectiveMove(n, Move(true, Take(now)));
    assert !EffectiveMove(n, Move(false, Read(now))) && !EffectiveMove(n, Move(true, Read(now)));
    AllDelivered(n.near, n.far, now, maximumSize);
    AllDelivered(n.far, n.near, now, maximumSize);
  }

  lemma AllDelivered(x: Peer, y: Peer, now: real, maximumSize: nat)
    requires Direction(x, y, [], [], maximumSize) && LaneOk(x.lane) && y.lane.received == 0
    requires LaneOk(Load(x.lane)) && SendFragment(Load(x.lane), now).1.None?
    ensures y.out == x.records
  {
    var l := Load(x.lane);
    LoadKeeps(x.lane);
    if l.record.Some? { IdleAdmits(l.flow, |l.record.value| - l.offset); }
    assert Todo(x.lane) == [];
    assert x.done == |x.records|;
    assert y.out + [] == y.out;
  }
}
