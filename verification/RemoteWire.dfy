/** Bulk records over one ordered remote stream: receiver-paced credit, fragments and
    their reassembly. */
module RemoteWire {
  import opened Bytes
  import opened Wrappers

  const FRAGMENT_SIZE := 16 * 1024
  const INITIAL_WINDOW := 65536
  const MINIMUM_WINDOW := 4096
  const MAXIMUM_WINDOW := 1048576
  const MAXIMUM_PENDING := 128
  const FRAGMENT_MAGIC: Data := [0x4e, 0x50, 0x52, 0x46]         // "NPRF"
  const ACKNOWLEDGEMENT_MAGIC: Data := [0x4e, 0x50, 0x52, 0x41]  // "NPRA"
  const FILE_SESSION_MAGIC: Data := [0x4e, 0x50, 0x46, 0x53]     // "NPFS"

  // ---- Flow control ----

  datatype Sending = Sending(bytes: nat, at: real)

  datatype Flow = Flow(
    pending: seq<Sending>,
    bytes: nat,
    window: nat,
    minimumRTT: real,
    adjusted: real,
    waiting: bool,
    slowAtFloor: nat)

  const InitialFlow := Flow([], 0, INITIAL_WINDOW, 0.0, 0.0, false, 0)

  function Min(a: nat, b: nat): nat { if a < b then a else b }

  function Max(a: nat, b: nat): nat { if a < b then b else a }

  function ChunkSize(window: nat, remaining: nat): nat {
    Min(remaining, Max(1024, Min(FRAGMENT_SIZE, window / 4)))
  }

  function Allowance(f: Flow, remaining: nat): (Flow, nat) {
    var chunk := ChunkSize(f.window, remaining);
    if |f.pending| < MAXIMUM_PENDING && f.bytes + chunk <= f.window then (f, chunk) else (f.(waiting := true), 0)
  }

  function Sent(f: Flow, count: nat, now: real): Flow {
    f.(pending := f.pending + [Sending(count, now)], bytes := f.bytes + count)
  }

  function Total(pending: seq<Sending>): nat {
    if pending == [] then 0 else pending[0].bytes + Total(pending[1..])
  }

  /** Takes `count` bytes off the oldest sendings; also the time the last of them was sent. */
  function Consume(pending: seq<Sending>, count: nat): (seq<Sending>, real)
    requires 0 < count <= Total(pending)
    decreases |pending|
  {
    var first := pending[0];
    if count < first.bytes then ([first.(bytes := first.bytes - count)] + pending[1..], first.at)
    else if count == first.bytes then (pending[1..], first.at)
    else Consume(pending[1..], count - first.bytes)
  }

  /** How a measured round trip changes the window. */
  function Measured(f: Flow, rtt: real, now: real): Flow {
    if rtt <= 0.0 then f
    else
      var minimum := if f.minimumRTT == 0.0 || rtt < f.minimumRTT then rtt else f.minimumRTT;
      var f1 := f.(minimumRTT := minimum);
      if now - f1.adjusted < minimum then f1
      else if rtt - minimum > 0.030 + 0.000001 then
        var window := Max(MINIMUM_WINDOW, f1.window * 3 / 4);
        var floor := window == MINIMUM_WINDOW;
        var reset := floor && f1.slowAtFloor + 1 >= 8;
        f1.(window := window,
            slowAtFloor := if reset then 0 else if floor then f1.slowAtFloor + 1 else f1.slowAtFloor,
            minimumRTT := if reset then rtt else minimum,
            waiting := false,
            adjusted := now)
      else
        f1.(slowAtFloor := 0,
            window := if f1.waiting then Min(MAXIMUM_WINDOW, f1.window * 2) else f1.window,
            waiting := false,
            adjusted := now)
  }

  predicate FlowValid(f: Flow) {
    && f.bytes == Total(f.pending) <= MAXIMUM_WINDOW
    && |f.pending| <= MAXIMUM_PENDING
    && (forall p <- f.pending :: p.bytes > 0)
    && MINIMUM_WINDOW <= f.window <= MAXIMUM_WINDOW
  }

  function Acknowledge(f: Flow, count: nat, now: real): (Flow, bool)
    requires FlowValid(f)
  {
    if count == 0 || count > f.bytes then (f, false)
    else
      var (pending, at) := Consume(f.pending, count);
      (Measured(f.(pending := pending, bytes := f.bytes - count), now - at, now), true)
  }

  lemma {:induction false} TotalAppend(pending: seq<Sending>, s: Sending)
    ensures Total(pending + [s]) == Total(pending) + s.bytes
  {
    if pending == [] {
      assert pending + [s] == [s];
    } else {
      TotalAppend(pending[1..], s);
      assert (pending + [s])[1..] == pending[1..] + [s];
    }
  }

  lemma {:induction false} ConsumeTotal(pending: seq<Sending>, count: nat)
    requires 0 < count <= Total(pending) && forall p <- pending :: p.bytes > 0
    ensures var (rest, _) := Consume(pending, count);
            Total(rest) == Total(pending) - count && |rest| <= |pending| && forall p <- rest :: p.bytes > 0
    decreases |pending|
  {
    var first := pending[0];
    if count > first.bytes {
      ConsumeTotal(pending[1..], count - first.bytes);
    } else if count < first.bytes {
      var rest := [first.(bytes := first.bytes - count)] + pending[1..];
      assert rest[1..] == pending[1..];
    }
  }

  lemma AllowanceValid(f: Flow, remaining: nat, now: real)
    requires FlowValid(f)
    ensures var (f', count) := Allowance(f, remaining);
            && FlowValid(f') && f'.bytes == f.bytes
            && count <= remaining && count <= FRAGMENT_SIZE
            && (count > 0 ==> FlowValid(Sent(f', count, now)) && f.bytes + count <= f.window)
  {
    var (f', count) := Allowance(f, remaining);
    TotalAppend(f.pending, Sending(count, now));
  }

  lemma PendingIsPositive(pending: seq<Sending>)
    requires forall p <- pending :: p.bytes > 0
    ensures pending != [] ==> Total(pending) > 0
  {
    if pending != [] { assert pending[0] in pending; }
  }

  /** An empty pipe always admits the next chunk, whatever the window shrank to. */
  lemma IdleAdmits(f: Flow, remaining: nat)
    requires FlowValid(f) && f.bytes == 0 && remaining > 0
    ensures Allowance(f, remaining).1 > 0
  {
    PendingIsPositive(f.pending);
  }

  /** An honest credit is accepted and takes exactly its bytes off what is in flight. */
  lemma AcknowledgeValid(f: Flow, count: nat, now: real)
    requires FlowValid(f)
    ensures var (f', ok) := Acknowledge(f, count, now);
            && FlowValid(f')
            && (ok <==> 0 < count <= f.bytes)
            && f'.bytes == if ok then f.bytes - count else f.bytes
  {
    if 0 < count <= f.bytes { ConsumeTotal(f.pending, count); }
  }

  class FlowControl {
    var pending: seq<Sending>
    var bytes: nat
    var window: nat
    var minimumRTT: real
    var adjusted: real
    var waiting: bool
    var slowAtFloor: nat

    ghost function View(): Flow
      reads this
    {
      Flow(pending, bytes, window, minimumRTT, adjusted, waiting, slowAtFloor)
    }

    constructor ()
      ensures View() == InitialFlow
    {
      pending, bytes, window := [], 0, INITIAL_WINDOW;
      minimumRTT, adjusted, waiting, slowAtFloor := 0.0, 0.0, false, 0;
    }

    method Allow(remaining: nat) returns (count: nat)
      modifies this`waiting
      ensures (View(), count) == Allowance(old(View()), remaining)
    {
      var chunk := Min(remaining, Max(1024, Min(FRAGMENT_SIZE, window / 4)));
      if !(|pending| < MAXIMUM_PENDING && bytes + chunk <= window) {
        waiting := true;
        return 0;
      }
      return chunk;
    }

    method Record(count: nat, now: real)
      modifies this`pending, this`bytes
      ensures View() == Sent(old(View()), count, now)
    {
      pending := pending + [Sending(count, now)];
      bytes := bytes + count;
    }

    /** Takes acknowledged bytes off the oldest sendings. */
    method TakeOldest(count: nat, now: real) returns (rtt: real)
      requires 0 < count <= Total(pending) && forall p <- pending :: p.bytes > 0
      modifies this`pending
      ensures (pending, now - rtt) == Consume(old(pending), count)
    {
      var remaining: nat := count;
      rtt := 0.0;
      while remaining > 0
        invariant forall p <- pending :: p.bytes > 0
        invariant remaining > 0 ==> remaining <= Total(pending) && Consume(pending, remaining) == Consume(old(pending), count)
        invariant remaining == 0 ==> (pending, now - rtt) == Consume(old(pending), count)
      {
        var take := Min(remaining, pending[0].bytes);
        remaining := remaining - take;
        rtt := now - pending[0].at;
        if take == pending[0].bytes {
          pending := pending[1..];
        } else {
          pending := [pending[0].(bytes := pending[0].bytes - take)] + pending[1..];
        }
      }
    }

    /** Adapts the window to a measured round trip. */
    method Measure(rtt: real, now: real)
      modifies this`window, this`minimumRTT, this`adjusted, this`waiting, this`slowAtFloor
      ensures View() == Measured(old(View()), rtt, now)
    {
      if !(rtt > 0.0) { return; }
      if minimumRTT == 0.0 || rtt < minimumRTT { minimumRTT := rtt; }
      if now - adjusted >= minimumRTT {
        if rtt - minimumRTT > 0.030 + 0.000001 {
          window := Max(MINIMUM_WINDOW, window * 3 / 4);
          if window == MINIMUM_WINDOW {
            slowAtFloor := slowAtFloor + 1;
            if slowAtFloor >= 8 {
              minimumRTT := rtt;
              slowAtFloor := 0;
            }
          }
        } else {
          slowAtFloor := 0;
          if waiting { window := Min(MAXIMUM_WINDOW, window * 2); }
        }
        waiting := false;
        adjusted := now;
      }
    }

    method Credit(count: nat, now: real) returns (ok: bool)
      requires FlowValid(View())
      modifies this
      ensures (View(), ok) == Acknowledge(old(View()), count, now)
    {
      if !(count > 0 && count <= bytes) { return false; }
      bytes := bytes - count;
      var rtt := TakeOldest(count, now);
      Measure(rtt, now);
      return true;
    }
  }

  // ---- Fragments ----

  /** The payload of one fragment frame. */
  function Fragment(record: Data, offset: nat, lane: nat, count: nat): Data
    requires offset <= |record| <= UINT32_MAX && lane <= UINT32_MAX
  {
    FRAGMENT_MAGIC + Encode32(lane) + Encode32(|record|) + Encode32(offset) + record[offset..Min(|record|, offset + count)]
  }

  function Acknowledgement(count: nat): Data
    requires count <= UINT32_MAX
  {
    ACKNOWLEDGEMENT_MAGIC + Encode32(count)
  }

  lemma AcknowledgementCount(count: nat)
    requires count <= UINT32_MAX
    ensures |Acknowledgement(count)| == 8 && Decode32(Acknowledgement(count), 4) == count
  {
    DecodeWithin(ACKNOWLEDGEMENT_MAGIC, count, []);
    assert ACKNOWLEDGEMENT_MAGIC + Encode32(count) + [] == Acknowledgement(count);
  }

  /** The reader finds in a fragment what the writer put there. */
  lemma FragmentFields(record: Data, offset: nat, lane: nat, count: nat)
    requires offset <= |record| <= UINT32_MAX && lane <= UINT32_MAX
    ensures var p := Fragment(record, offset, lane, count);
            && |p| == 16 + Min(|record|, offset + count) - offset
            && p[..4] == FRAGMENT_MAGIC
            && Decode32(p, 4) == lane && Decode32(p, 8) == |record| && Decode32(p, 12) == offset
            && p[16..] == record[offset..Min(|record|, offset + count)]
  {
    var p := Fragment(record, offset, lane, count);
    var a, b, c := Encode32(lane), Encode32(|record|), Encode32(offset);
    var rest := record[offset..Min(|record|, offset + count)];
    DecodeWithin(FRAGMENT_MAGIC, lane, b + c + rest);
    assert p == FRAGMENT_MAGIC + a + (b + c + rest);
    DecodeWithin(FRAGMENT_MAGIC + a, |record|, c + rest);
    assert p == FRAGMENT_MAGIC + a + b + (c + rest);
    DecodeWithin(FRAGMENT_MAGIC + a + b, offset, rest);
  }

  // ---- Reassembly ----

  datatype Assembly = Assembly(records: map<nat, Data>, sizes: map<nat, nat>)

  datatype Arrival = Corrupt | Partial | Complete(record: Data)

  const NoAssembly := Assembly(map[], map[])

  /** What a well-formed fragment does to its lane. */
  function Place(a: Assembly, lane: nat, total: nat, offset: nat, bytes: Data): (Assembly, Arrival) {
    if offset == 0 && lane in a.records then (a, Corrupt)
    else
      var b := if offset == 0 then Assembly(a.records[lane := []], a.sizes[lane := total]) else a;
      if lane !in b.records || |b.records[lane]| != offset || lane !in b.sizes || b.sizes[lane] != total then (b, Corrupt)
      else
        var record := b.records[lane] + bytes;
        if offset + |bytes| == total then (Assembly(b.records - {lane}, b.sizes - {lane}), Complete(record))
        else (b.(records := b.records[lane := record]), Partial)
  }

  function Receive(a: Assembly, payload: Data, maximumSize: nat): (Assembly, Arrival) {
    if !(16 < |payload| <= 16 + FRAGMENT_SIZE) || payload[..4] != FRAGMENT_MAGIC then (a, Corrupt)
    else
      var lane, total, offset := Decode32(payload, 4), Decode32(payload, 8), Decode32(payload, 12);
      if (lane != 1 && lane != 2) || !(0 < total <= maximumSize) || offset > total || |payload| - 16 > total - offset
      then (a, Corrupt)
      else Place(a, lane, total, offset, payload[16..])
  }

  /** How far one lane is: nothing, or the first `offset` bytes of a record. */
  predicate LaneAt(a: Assembly, lane: nat, record: Data, offset: nat) {
    if offset == 0 then lane !in a.records && lane !in a.sizes
    else
      && offset < |record|
      && lane in a.records && a.records[lane] == record[..offset]
      && lane in a.sizes && a.sizes[lane] == |record|
  }

  predicate SameBeside(a: Assembly, b: Assembly, lane: nat) {
    b.records - {lane} == a.records - {lane} && b.sizes - {lane} == a.sizes - {lane}
  }

  lemma PlaceNext(a: Assembly, record: Data, offset: nat, lane: nat, end: nat)
    requires offset < end <= |record| && LaneAt(a, lane, record, offset)
    ensures var (b, arrival) := Place(a, lane, |record|, offset, record[offset..end]);
            && SameBeside(a, b, lane)
            && if end == |record| then arrival == Complete(record) && LaneAt(b, lane, record, 0)
               else arrival == Partial && LaneAt(b, lane, record, end)
  {
    assert record[..offset] + record[offset..end] == record[..end];
    assert record[..|record|] == record;
  }

  /** The next fragment of a record is never refused. It moves its lane on, exposes the
      record only when it is complete, and leaves the other lane alone. */
  lemma ReceiveNext(a: Assembly, record: Data, offset: nat, lane: nat, count: nat, maximumSize: nat)
    requires (lane == 1 || lane == 2) && offset < |record| <= maximumSize && |record| <= UINT32_MAX
    requires 0 < count <= FRAGMENT_SIZE && LaneAt(a, lane, record, offset)
    ensures var (b, arrival) := Receive(a, Fragment(record, offset, lane, count), maximumSize);
            && SameBeside(a, b, lane)
            && if offset + count >= |record| then arrival == Complete(record) && LaneAt(b, lane, record, 0)
               else arrival == Partial && LaneAt(b, lane, record, offset + count)
  {
    FragmentFields(record, offset, lane, count);
    PlaceNext(a, record, offset, lane, Min(|record|, offset + count));
  }

  class Reassembler {
    var records: map<nat, Data>
    var sizes: map<nat, nat>

    ghost function View(): Assembly
      reads this
    {
      Assembly(records, sizes)
    }

    constructor ()
      ensures View() == NoAssembly
    {
      records, sizes := map[], map[];
    }

    method Accept(payload: Data, maximumSize: nat) returns (arrival: Arrival)
      modifies this
      ensures (View(), arrival) == Receive(old(View()), payload, maximumSize)
    {
      if !(|payload| > 16 && |payload| <= 16 + FRAGMENT_SIZE && payload[..4] == FRAGMENT_MAGIC) { return Corrupt; }
      var lane, total, offset := Decode32(payload, 4), Decode32(payload, 8), Decode32(payload, 12);
      var count := |payload| - 16;
      if !((lane == 1 || lane == 2) && total > 0 && total <= maximumSize && offset <= total && count <= total - offset) {
        return Corrupt;
      }
      if offset == 0 {
        if lane in records { return Corrupt; }
        records, sizes := records[lane := []], sizes[lane := total];
      }
      if !(lane in records && |records[lane]| == offset && lane in sizes && sizes[lane] == total) { return Corrupt; }
      ghost var placed := records;
      records := records[lane := records[lane] + payload[16..]];
      if offset + count != total { return Partial; }
      sizes := sizes - {lane};
      arrival := Complete(records[lane]);
      records := records - {lane};
      assert records == placed - {lane};
    }
  }

  // ---- Any interleaving of the two lanes ----

  /** One lane's writer: its records, and how far it is in them. */
  datatype Writer = Writer(records: seq<Data>, done: nat, offset: nat)

  datatype Chunk = Chunk(second: bool, count: nat)

  predicate WriterValid(w: Writer, maximumSize: nat) {
    && w.done <= |w.records|
    && (w.offset > 0 ==> w.done < |w.records| && w.offset < |w.records[w.done]|)
    && forall r <- w.records :: 0 < |r| <= maximumSize
  }

  function Advance(w: Writer, count: nat): Writer
    requires w.done < |w.records|
  {
    if w.offset + count >= |w.records[w.done]| then w.(done := w.done + 1, offset := 0)
    else w.(offset := w.offset + count)
  }

  /** Both writers, the reassembler they share, and what it exposed on each lane. */
  datatype Lanes = Lanes(first: Writer, second: Writer, assembly: Assembly, out1: seq<Data>, out2: seq<Data>, corrupt: bool)

  function Exposed(out: seq<Data>, arrival: Arrival): seq<Data> {
    if arrival.Complete? then out + [arrival.record] else out
  }

  /** The writer of one lane sends its next chunk, if it has one. */
  function SendChunk(l: Lanes, c: Chunk, maximumSize: nat): Lanes
    requires WriterValid(l.first, maximumSize) && WriterValid(l.second, maximumSize) && maximumSize <= UINT32_MAX
  {
    var w := if c.second then l.second else l.first;
    if w.done == |w.records| || !(0 < c.count <= FRAGMENT_SIZE) then l
    else
      var payload := Fragment(w.records[w.done], w.offset, if c.second then 2 else 1, c.count);
      var (assembly, arrival) := Receive(l.assembly, payload, maximumSize);
      if c.second then
        l.(second := Advance(w, c.count), assembly := assembly, out2 := Exposed(l.out2, arrival),
           corrupt := l.corrupt || arrival.Corrupt?)
      else
        l.(first := Advance(w, c.count), assembly := assembly, out1 := Exposed(l.out1, arrival),
           corrupt := l.corrupt || arrival.Corrupt?)
  }

  ghost predicate LaneMatches(a: Assembly, lane: nat, w: Writer) {
    if w.done >= |w.records| then lane !in a.records && lane !in a.sizes
    else LaneAt(a, lane, w.records[w.done], w.offset)
  }

  ghost predicate LanesValid(l: Lanes, maximumSize: nat) {
    && WriterValid(l.first, maximumSize) && WriterValid(l.second, maximumSize)
    && LaneMatches(l.assembly, 1, l.first) && LaneMatches(l.assembly, 2, l.second)
    && l.out1 == l.first.records[..l.first.done] && l.out2 == l.second.records[..l.second.done]
    && !l.corrupt
  }

  lemma OtherLane(a: Assembly, b: Assembly, lane: nat, other: nat, w: Writer)
    requires lane != other && LaneMatches(a, other, w) && SameBeside(a, b, lane)
    ensures LaneMatches(b, other, w)
  {
    assert other in b.records <==> other in b.records - {lane};
    assert other in a.records <==> other in a.records - {lane};
    assert other in b.sizes <==> other in b.sizes - {lane};
    assert other in a.sizes <==> other in a.sizes - {lane};
    if other in a.records { assert (a.records - {lane})[other] == a.records[other]; }
    if other in a.sizes { assert (a.sizes - {lane})[other] == a.sizes[other]; }
  }

  /** One writer's chunk arrives: its lane follows, the output grows by what it finished. */
  lemma ChunkArrives(a: Assembly, w: Writer, lane: nat, count: nat, maximumSize: nat, out: seq<Data>)
    requires WriterValid(w, maximumSize) && w.done < |w.records| && maximumSize <= UINT32_MAX
    requires (lane == 1 || lane == 2) && 0 < count <= FRAGMENT_SIZE
    requires LaneMatches(a, lane, w) && out == w.records[..w.done]
    ensures |w.records[w.done]| <= UINT32_MAX && w.offset <= |w.records[w.done]|
    ensures var (b, arrival) := Receive(a, Fragment(w.records[w.done], w.offset, lane, count), maximumSize);
            var next := Advance(w, count);
            && SameBeside(a, b, lane) && !arrival.Corrupt?
            && WriterValid(next, maximumSize) && LaneMatches(b, lane, next)
            && Exposed(out, arrival) == w.records[..next.done]
  {
    assert w.records[w.done] in w.records;
    ReceiveNext(a, w.records[w.done], w.offset, lane, count, maximumSize);
    assert w.records[..w.done + 1] == w.records[..w.done] + [w.records[w.done]];
  }

  lemma SendChunkValid(l: Lanes, c: Chunk, maximumSize: nat)
    requires LanesValid(l, maximumSize) && maximumSize <= UINT32_MAX
    ensures LanesValid(SendChunk(l, c, maximumSize), maximumSize)
    ensures var l' := SendChunk(l, c, maximumSize); l'.first.records == l.first.records && l'.second.records == l.second.records
  {
    var l' := SendChunk(l, c, maximumSize);
    if !(0 < c.count <= FRAGMENT_SIZE) {
    } else if c.second && l.second.done < |l.second.records| {
      ChunkArrives(l.assembly, l.second, 2, c.count, maximumSize, l.out2);
      OtherLane(l.assembly, l'.assembly, 2, 1, l.first);
    } else if !c.second && l.first.done < |l.first.records| {
      ChunkArrives(l.assembly, l.first, 1, c.count, maximumSize, l.out1);
      OtherLane(l.assembly, l'.assembly, 1, 2, l.second);
    }
  }

  function SendAll(l: Lanes, chunks: seq<Chunk>, maximumSize: nat): (l': Lanes)
    requires LanesValid(l, maximumSize) && maximumSize <= UINT32_MAX
    ensures LanesValid(l', maximumSize)
    ensures l'.first.records == l.first.records && l'.second.records == l.second.records
  {
    if chunks == [] then l
    else
      var before, last := SendAll(l, chunks[..|chunks| - 1], maximumSize), chunks[|chunks| - 1];
      SendChunkValid(before, last, maximumSize);
      SendChunk(before, last, maximumSize)
  }

  /** However two lanes of records are cut and interleaved, the reassembler refuses
      nothing and has exposed, on each lane, exactly the records sent completely, in order. */
  lemma LanesArriveInOrder(first: seq<Data>, second: seq<Data>, chunks: seq<Chunk>, maximumSize: nat)
    requires maximumSize <= UINT32_MAX
    requires forall r <- first + second :: 0 < |r| <= maximumSize
    ensures var start := Lanes(Writer(first, 0, 0), Writer(second, 0, 0), NoAssembly, [], [], false);
            && LanesValid(start, maximumSize)
            && var l := SendAll(start, chunks, maximumSize);
               !l.corrupt && l.out1 == first[..l.first.done] && l.out2 == second[..l.second.done]
  {
    assert forall r <- first :: r in first + second;
    assert forall r <- second :: r in first + second;
  }
}
