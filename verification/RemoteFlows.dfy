/** How the window of the bulk lane moves, and which fragments and headers a reader takes. */
module RemoteFlows {
  import opened Bytes
  import opened Wrappers
  import opened RemoteWire
  import BulkLane
  import WireFormat

  // ---- The window ----

  /** What may be sent now is all that remains or at least 1 KiB; nothing may be sent only while
      too many sendings are unacknowledged or little of the window is free, and then it is
      remembered that the writer was held back. */
  lemma AllowanceIsWorthwhile(f: Flow, remaining: nat)
    requires remaining > 0
    ensures var (g, count) := Allowance(f, remaining);
            if count > 0 then g == f && (count == remaining || count >= 1024)
            else g == f.(waiting := true) && (|f.pending| >= MAXIMUM_PENDING || f.bytes + Max(1024, f.window / 4) > f.window)
  {
  }

  function Prefix(pending: seq<Sending>, k: nat): nat
    requires k <= |pending|
  {
    Total(pending[..k])
  }

  /** Which sending an acknowledged byte was in. */
  predicate Holds(pending: seq<Sending>, k: nat, count: nat) {
    k < |pending| && Prefix(pending, k) < count <= Prefix(pending, k + 1)
  }

  lemma {:induction false} PrefixNext(pending: seq<Sending>, k: nat)
    requires 0 < k <= |pending|
    ensures Prefix(pending, k) == pending[0].bytes + Prefix(pending[1..], k - 1)
  {
    assert pending[..k][1..] == pending[1..][..k - 1];
  }

  /** An acknowledgement takes away whole sendings, oldest first, and the beginning of the one
      that holds its last byte; it is that one's age that is measured. */
  lemma {:induction false} ConsumeIs(pending: seq<Sending>, count: nat) returns (k: nat)
    requires 0 < count <= Total(pending) && forall p <- pending :: p.bytes > 0
    ensures Holds(pending, k, count) && Consume(pending, count).1 == pending[k].at
    ensures var left := Prefix(pending, k + 1) - count;
            Consume(pending, count).0 == (if left == 0 then [] else [Sending(left, pending[k].at)]) + pending[k + 1..]
    decreases |pending|
  {
    var first := pending[0];
    assert pending[..1] == [first] && [first][1..] == [] && pending[..0] == [];
    assert Total([first]) == first.bytes + Total([first][1..]);
    if count <= first.bytes {
      k := 0;
      assert Prefix(pending, 1) == first.bytes;
    } else {
      var j := ConsumeIs(pending[1..], count - first.bytes);
      k := j + 1;
      PrefixNext(pending, k);
      PrefixNext(pending, k + 1);
      assert pending[1..][j] == pending[k] && pending[1..][j + 1..] == pending[k + 1..];
    }
  }

  /** The round trip that an acknowledgement measures starts when the sending that holds its
      last byte left. */
  lemma RoundTripIs(f: Flow, count: nat, now: real) returns (k: nat)
    requires FlowValid(f) && 0 < count <= f.bytes
    ensures Holds(f.pending, k, count)
    ensures var left := Prefix(f.pending, k + 1) - count;
            var pending := (if left == 0 then [] else [Sending(left, f.pending[k].at)]) + f.pending[k + 1..];
            Acknowledge(f, count, now)
            == (Measured(f.(pending := pending, bytes := f.bytes - count), now - f.pending[k].at, now), true)
  {
    k := ConsumeIs(f.pending, count);
  }

  /** Slower than the best round trip by more than 30 ms. */
  predicate Slow(f: Flow, rtt: real) { f.minimumRTT > 0.0 && rtt - f.minimumRTT > 0.030 + 0.000001 }

  /** The window is looked at again: a real measure, and at least the best round trip since the
      last change. */
  predicate Due(f: Flow, rtt: real, now: real) {
    rtt > 0.0 && now - f.adjusted >= (if f.minimumRTT == 0.0 || rtt < f.minimumRTT then rtt else f.minimumRTT)
  }

  /** The window grows only when a writer was held back and the round trip was good, shrinks only
      when it was slow, and changes at most once in the best round trip; what remembers that
      the writer was held back is used up by it. */
  lemma WindowMoves(f: Flow, rtt: real, now: real)
    requires MINIMUM_WINDOW <= f.window <= MAXIMUM_WINDOW && f.minimumRTT >= 0.0
    ensures var g := Measured(f, rtt, now);
            && g.pending == f.pending && g.bytes == f.bytes
            && (g.window > f.window <==> Due(f, rtt, now) && !Slow(f, rtt) && f.waiting && f.window < MAXIMUM_WINDOW)
            && (g.window > f.window ==> g.window == 2 * f.window || g.window == MAXIMUM_WINDOW)
            && (g.window < f.window <==> Due(f, rtt, now) && Slow(f, rtt) && f.window > MINIMUM_WINDOW)
            && (g.window < f.window ==> g.window == f.window * 3 / 4 || g.window == MINIMUM_WINDOW)
            && (g.adjusted, g.waiting) == (if Due(f, rtt, now) then (now, false) else (f.adjusted, f.waiting))
  {
  }

  /** The best round trip is the smallest measured so far; only after eight slow ones in a row
      at the smallest window does it start again from the last. */
  lemma BestRoundTrip(f: Flow, rtt: real, now: real)
    requires f.minimumRTT >= 0.0
    ensures var g := Measured(f, rtt, now);
            && (rtt <= 0.0 ==> g == f)
            && (rtt > 0.0 && (f.minimumRTT == 0.0 || rtt < f.minimumRTT) ==> g.minimumRTT == rtt)
            && (rtt >= f.minimumRTT > 0.0 ==>
                  g.minimumRTT == f.minimumRTT
                  || (g.minimumRTT == rtt && Slow(f, rtt) && f.slowAtFloor >= 7 && g.window == MINIMUM_WINDOW && g.slowAtFloor == 0))
            && (g.slowAtFloor > f.slowAtFloor ==> Slow(f, rtt) && g.window == MINIMUM_WINDOW && g.slowAtFloor == f.slowAtFloor + 1 < 8)
            && (Due(f, rtt, now) && !Slow(f, rtt) ==> g.slowAtFloor == 0)
  {
  }

  // ---- Which fragments a reader takes ----

  /** A fragment that may come now: of one of the two lanes, not empty, not too long, within a
      record of a legal size; the first of a record on a lane that is free, or the next one of
      the record under way. */
  predicate Expected(a: Assembly, payload: Data, maximumSize: nat) {
    && 16 < |payload| <= 16 + FRAGMENT_SIZE && payload[..4] == FRAGMENT_MAGIC
    && var lane, total, offset := Decode32(payload, 4), Decode32(payload, 8), Decode32(payload, 12);
       && (lane == 1 || lane == 2) && total <= maximumSize && offset + |payload| - 16 <= total
       && if offset == 0 then lane !in a.records
          else lane in a.records && |a.records[lane]| == offset && lane in a.sizes && a.sizes[lane] == total
  }

  /** A reader refuses exactly what may not come now. */
  lemma RefusesExactly(a: Assembly, payload: Data, maximumSize: nat)
    ensures Receive(a, payload, maximumSize).1.Corrupt? <==> !Expected(a, payload, maximumSize)
  {
  }

  /** A frame header is taken exactly if it has the magic, the version and a legal size. */
  lemma HeaderExactly(header: Data)
    requires |header| == WireFormat.HEADER_SIZE
    ensures var size := Decode32(header, 8);
            match WireFormat.DecodeHeader(header)
            case Ok(n) => n == size && header[..4] == WireFormat.MAGIC && header[4] == WireFormat.VERSION && n <= WireFormat.MAX_PAYLOAD_SIZE
            case Err(BadMagic(bytes)) => header[..4] == bytes != WireFormat.MAGIC
            case Err(UnsupportedVersion(v)) => header[..4] == WireFormat.MAGIC && header[4] == v != WireFormat.VERSION
            case Err(PayloadTooLarge(n)) => n == size > WireFormat.MAX_PAYLOAD_SIZE
  {
  }

  // ---- How much waits ----

  predicate Counted(l: BulkLane.Lane) { l.queueBytes == BulkLane.Size(l.queue) }

  lemma {:induction false} SizeAppend(queue: seq<Data>, record: Data)
    ensures BulkLane.Size(queue + [record]) == BulkLane.Size(queue) + |record|
  {
    if queue == [] {
      assert queue + [record] == [record];
    } else {
      SizeAppend(queue[1..], record);
      assert (queue + [record])[1..] == queue[1..] + [record];
    }
  }

  lemma LoadCounts(l: BulkLane.Lane)
    requires Counted(l)
    ensures Counted(BulkLane.Load(l))
  {
  }

  lemma TakeCounts(n: BulkLane.Net, now: real)
    requires BulkLane.PeerOk(n.near) && Counted(n.near.lane)
    ensures Counted(BulkLane.NearTake(n, now).near.lane) && BulkLane.NearTake(n, now).far == n.far
  {
    BulkLane.LoadOk(n.near.lane);
    LoadCounts(n.near.lane);
  }

  lemma ReadCounts(p: BulkLane.Peer, payload: Data, now: real, maximumSize: nat)
    requires BulkLane.PeerOk(p) && Counted(p.lane)
    ensures Counted(BulkLane.ReadPayload(p, payload, now, maximumSize).lane)
  {
  }

  lemma StepCounts(n: BulkLane.Net, step: BulkLane.Step, maximumSize: nat)
    requires BulkLane.PeerOk(n.near) && BulkLane.Allowed(step, maximumSize) && Counted(n.near.lane)
    ensures Counted(BulkLane.NearStep(n, step, maximumSize).near.lane)
    ensures BulkLane.NearStep(n, step, maximumSize).far == n.far
  {
    match step
    case Queue(record) => SizeAppend(n.near.lane.queue, record);
    case Take(now) => TakeCounts(n, now);
    case Read(now) => if n.incoming != [] { ReadCounts(n.near, n.incoming[0], now, maximumSize); }
    case Control(_) =>
  }

  lemma GoCounts(n: BulkLane.Net, m: BulkLane.Move, maximumSize: nat)
    requires BulkLane.NetValid(n, maximumSize) && Counted(n.near.lane) && Counted(n.far.lane)
    ensures var n' := BulkLane.Go(n, m, maximumSize); Counted(n'.near.lane) && Counted(n'.far.lane)
  {
    if BulkLane.Allowed(m.step, maximumSize) { StepCounts(if m.far then n.Flip() else n, m.step, maximumSize); }
  }

  /** In every run the count of the bytes that wait behind the record under way is exact. */
  lemma {:induction false} QueueIsCounted(moves: seq<BulkLane.Move>, maximumSize: nat)
    requires maximumSize <= UINT32_MAX
    ensures var n := BulkLane.Run(moves, maximumSize); Counted(n.near.lane) && Counted(n.far.lane)
  {
    if moves != [] {
      QueueIsCounted(moves[..|moves| - 1], maximumSize);
      GoCounts(BulkLane.Run(moves[..|moves| - 1], maximumSize), moves[|moves| - 1], maximumSize);
    }
  }
}
