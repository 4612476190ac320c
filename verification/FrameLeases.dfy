/** The frame store and its pixel budget together. A lease lives exactly as long as something
    refers to it: a stream's decoder, a reservation, an alpha plane, a stored frame, a frame on
    its way, or somebody outside the store. */
module FrameLeases {
  import opened Wrappers
  import opened RemoteFrames
  import opened FrameRuns
  import P = PixelBudget

  // ---- Who refers to a lease ----

  predicate StreamHolds(st: Stream, l: LeaseID) {
    || st.decoderLease == Some(l)
    || (exists id <- st.reservations :: st.reservations[id] == l)
    || (exists id <- st.alphaPlanes :: st.alphaPlanes[id].lease == l)
    || (st.lastAlpha.Some? && st.lastAlpha.value.lease == l)
  }

  predicate WorkHolds(work: Option<Work>, l: LeaseID) {
    work.Some? &&
      match work.value
      case Pairing(_, plane) => plane.lease == l
      case Publishing(_, _, _, _, _, alpha, lease) => (alpha.Some? && alpha.value.lease == l) || lease == Some(l)
      case _ => false
  }

  predicate Holds(s: Store, l: LeaseID) {
    || (exists u <- s.streams :: StreamHolds(s.streams[u], l))
    || (exists id <- s.frames :: s.frames[id].lease == l)
    || WorkHolds(s.work, l)
  }

  /** The leases the store refers to are among these, each for what it is: decoders, frames and
      alpha planes. */
  predicate StreamWithin(st: Stream, d: set<LeaseID>, f: set<LeaseID>, a: set<LeaseID>) {
    && (st.decoderLease.Some? ==> st.decoderLease.value in d)
    && (forall id <- st.reservations :: st.reservations[id] in f)
    && (forall id <- st.alphaPlanes :: st.alphaPlanes[id].lease in a)
    && (st.lastAlpha.Some? ==> st.lastAlpha.value.lease in a)
  }

  predicate WorkWithin(work: Option<Work>, f: set<LeaseID>, a: set<LeaseID>) {
    work.Some? ==>
      match work.value
      case Pairing(_, plane) => plane.lease in a
      case Publishing(_, _, _, _, _, alpha, lease) =>
        (alpha.Some? ==> alpha.value.lease in a) && (lease.Some? ==> lease.value in f)
      case _ => true
  }

  predicate Within(s: Store, d: set<LeaseID>, f: set<LeaseID>, a: set<LeaseID>) {
    && (forall u <- s.streams :: StreamWithin(s.streams[u], d, f, a))
    && (forall id <- s.frames :: s.frames[id].lease in f)
    && WorkWithin(s.work, f, a)
  }

  // ---- No section invents a lease ----

  lemma TrackWithin(st: Stream, id: Resource, d: set<LeaseID>, f: set<LeaseID>, a: set<LeaseID>)
    requires StreamWithin(st, d, f, a)
    ensures StreamWithin(TrackPending(st, id), d, f, a)
  {
  }

  lemma TrimWithin(s: Store, d: set<LeaseID>, f: set<LeaseID>, a: set<LeaseID>)
    requires Within(s, d, f, a)
    ensures Within(Trim(s), d, f, a)
  {
    forall u <- Trim(s).streams ensures StreamWithin(Trim(s).streams[u], d, f, a) { assert StreamWithin(s.streams[u], d, f, a); }
  }

  /** One stream changes, and the work; frames may go. */
  lemma StreamPut(s: Store, t: Store, u: Surface, d: set<LeaseID>, f: set<LeaseID>, a: set<LeaseID>)
    requires Within(s, d, f, a) && u in t.streams && StreamWithin(t.streams[u], d, f, a) && WorkWithin(t.work, f, a)
    requires forall v <- t.streams :: v != u ==> v in s.streams && t.streams[v] == s.streams[v]
    requires forall id <- t.frames :: id in s.frames && t.frames[id] == s.frames[id]
    ensures Within(t, d, f, a)
  {
    forall v <- t.streams ensures StreamWithin(t.streams[v], d, f, a) {
      if v != u { assert StreamWithin(s.streams[v], d, f, a); }
    }
  }

  lemma BeginWithin(s: Store, i: Input, next: Work, maximumStreams: nat, d: set<LeaseID>, f: set<LeaseID>, a: set<LeaseID>)
    requires Within(s, d, f, a) && (next.Announcing? || next.Measuring?)
    ensures Within(Begin(s, i, next, maximumStreams), d, f, a)
  {
    var t := Begin(s, i, next, maximumStreams);
    if i.surface in t.streams {
      if i.surface in s.streams { assert StreamWithin(s.streams[i.surface], d, f, a); }
      StreamPut(s, t, i.surface, d, f, a);
    }
  }

  predicate GrantWithin(g: Grant, d: set<LeaseID>, f: set<LeaseID>) {
    (g.decoder.Some? ==> g.decoder.value in d) && (g.frame.Some? ==> g.frame.value in f)
  }

  lemma AnnounceKnownWithin(s: Store, i: Input, g: Grant, d: set<LeaseID>, f: set<LeaseID>, a: set<LeaseID>)
    requires Within(s, d, f, a) && i.surface in s.streams && GrantWithin(g, d, f)
    ensures Within(AnnounceKnown(s, i, g), d, f, a)
  {
    var known, t := s.streams[i.surface], AnnounceKnown(s, i, g);
    assert StreamWithin(known, d, f, a);
    var ready := if known.decoderLease.Some? then known else known.(decoderLease := g.decoder);
    assert StreamWithin(ready, d, f, a);
    if g.frame.Some? {
      var reserved := ready.(reservations := ready.reservations[i.id := g.frame.value]);
      assert StreamWithin(reserved, d, f, a);
      AnnouncedWithin(ready, i.id, g.frame.value, i.hasAlpha, if i.reuses then ready.lastAlpha else None, d, f, a);
    }
    StreamPut(s, t, i.surface, d, f, a);
  }

  lemma AnnouncedWithin(st: Stream, id: Resource, lease: LeaseID, hasAlpha: bool, reuse: Option<Plane>,
                        d: set<LeaseID>, f: set<LeaseID>, a: set<LeaseID>)
    requires StreamWithin(st, d, f, a) && lease in f && (reuse.Some? ==> reuse.value.lease in a)
    ensures StreamWithin(Announced(st, id, lease, hasAlpha, reuse), d, f, a)
  {
    var reserved := st.(reservations := st.reservations[id := lease]);
    if hasAlpha {
      TrackWithin(reserved.(expectedAlpha := st.expectedAlpha + {id}, withAlpha := st.withAlpha + {id},
                            alphaPlanes := if reuse.Some? then st.alphaPlanes[id := reuse.value] else st.alphaPlanes), id, d, f, a);
    } else {
      TrackWithin(reserved.(expectedAlpha := st.expectedAlpha - {id}, withAlpha := st.withAlpha - {id},
                            alphaPlanes := st.alphaPlanes - {id}), id, d, f, a);
    }
  }

  /** An announcement that gets as far as reserving pixels. */
  predicate Goes(s: Store, resized: bool)
    requires s.work.Some? && s.work.value.Announcing?
  {
    var i := s.work.value.input;
    && i.surface in s.streams
    && (s.streams[i.surface].codec.None? || s.streams[i.surface].codec.value == i.codec)
    && (s.streams[i.surface].decoderLease.None? || resized)
  }

  /** The stream of an announcement has taken the codec of its picture. */
  function Known(s: Store): Store
    requires s.work.Some? && s.work.value.Announcing?
  {
    var i := s.work.value.input;
    if i.surface !in s.streams then s
    else s.(streams := s.streams[i.surface := s.streams[i.surface].(codec := Some(i.codec))])
  }

  lemma KnownWithin(s: Store, d: set<LeaseID>, f: set<LeaseID>, a: set<LeaseID>)
    requires s.work.Some? && s.work.value.Announcing? && Within(s, d, f, a)
    ensures Within(Known(s), d, f, a)
  {
    var u := s.work.value.input.surface;
    if u in s.streams {
      assert StreamWithin(s.streams[u], d, f, a);
      StreamPut(s, Known(s), u, d, f, a);
    }
  }

  lemma AnnounceWithin(s: Store, g: Grant, d: set<LeaseID>, f: set<LeaseID>, a: set<LeaseID>)
    requires s.work.Some? && s.work.value.Announcing? && GrantWithin(g, d, f)
    requires Within(if Goes(s, g.resized) then AfterTrim(Known(s), g.trims) else Known(s), d, f, a)
    ensures Within(Announce(s, g), d, f, a)
  {
    var i := s.work.value.input;
    if Goes(s, g.resized) {
      AnnounceKnownWithin(AfterTrim(Known(s), g.trims), i, g, d, f, a);
    } else if i.surface in s.streams {
      assert StreamWithin(Known(s).streams[i.surface], d, f, a);
      StreamPut(Known(s), Announce(s, g), i.surface, d, f, a);
    }
  }

  lemma TakenWithin(s: Store, u: Surface, st: Stream, id: Resource, video: Pixels, alpha: Option<Plane>,
                    d: set<LeaseID>, f: set<LeaseID>, a: set<LeaseID>)
    requires Within(s, d, f, a) && u in s.streams && StreamWithin(st, d, f, a) && (alpha.Some? ==> alpha.value.lease in a)
    ensures Within(s.(streams := s.streams[u := Taken(st, id)],
                      work := Some(Publishing(u, st.serial, st.generation, id, video, alpha, None))), d, f, a)
  {
    StreamPut(s, s.(streams := s.streams[u := Taken(st, id)],
                    work := Some(Publishing(u, st.serial, st.generation, id, video, alpha, None))), u, d, f, a);
  }

  lemma PairWithin(s: Store, d: set<LeaseID>, f: set<LeaseID>, a: set<LeaseID>)
    requires s.work.Some? && s.work.value.Pairing? && Within(s, d, f, a)
    ensures Within(Pair(s), d, f, a)
  {
    var w, t := s.work.value, Pair(s);
    var u, id := w.input.surface, w.input.id;
    if u in s.streams {
      var st := s.streams[u];
      assert StreamWithin(st, d, f, a);
      var tracked := WithPlane(st, id, w.plane);
      TrackWithin(st.(alphaPlanes := st.alphaPlanes[id := w.plane], lastAlpha := Some(w.plane)), id, d, f, a);
      if id in tracked.pendingVideo {
        TakenWithin(s, u, tracked, id, tracked.pendingVideo[id], Some(w.plane), d, f, a);
      } else {
        StreamPut(s, t, u, d, f, a);
      }
    }
  }

  lemma DecodeWithin(s: Store, u: Surface, serial: nat, id: Resource, video: Pixels, d: set<LeaseID>, f: set<LeaseID>, a: set<LeaseID>)
    requires Within(s, d, f, a)
    ensures Within(ReceiveDecoded(s, u, serial, id, video), d, f, a)
  {
    var t := ReceiveDecoded(s, u, serial, id, video);
    if t != s {
      var st := s.streams[u];
      assert StreamWithin(st, d, f, a);
      if id in st.expectedAlpha && id !in st.alphaPlanes {
        TrackWithin(st.(pendingVideo := st.pendingVideo[id := video]), id, d, f, a);
        StreamPut(s, t, u, d, f, a);
      } else {
        TakenWithin(s, u, st, id, video, if id in st.alphaPlanes then Some(st.alphaPlanes[id]) else None, d, f, a);
      }
    }
  }

  lemma TakeWithin(s: Store, made: bool, d: set<LeaseID>, f: set<LeaseID>, a: set<LeaseID>)
    requires s.work.Some? && s.work.value.Publishing? && s.work.value.lease.None? && Within(s, d, f, a)
    ensures Within(TakeReservation(s, made), d, f, a)
  {
    var u, t := s.work.value.surface, TakeReservation(s, made);
    if u in s.streams {
      assert StreamWithin(s.streams[u], d, f, a);
      StreamPut(s, t, u, d, f, a);
    }
  }

  lemma FinishWithin(s: Store, d: set<LeaseID>, f: set<LeaseID>, a: set<LeaseID>)
    requires s.work.Some? && s.work.value.Publishing? && s.work.value.lease.Some? && Within(s, d, f, a)
    ensures Within(Finish(s), d, f, a)
  {
    var t := Finish(s);
    forall u <- t.streams ensures StreamWithin(t.streams[u], d, f, a) { assert StreamWithin(s.streams[u], d, f, a); }
  }

  lemma RetireWithin(s: Store, u: Surface, id: Resource, d: set<LeaseID>, f: set<LeaseID>, a: set<LeaseID>)
    requires Within(s, d, f, a)
    ensures Within(Retire(s, u, id), d, f, a)
  {
    if u in s.streams {
      assert StreamWithin(s.streams[u], d, f, a);
      StreamPut(s, Retire(s, u, id), u, d, f, a);
    }
  }

  /** The sections that reserve nothing. */
  predicate Plain(step: Step) { !step.Announces? && !step.Measures? && !step.TakesReservation? && !step.Resolves? }

  lemma PlainWithin(s: Store, step: Step, maximumStreams: nat, d: set<LeaseID>, f: set<LeaseID>, a: set<LeaseID>)
    requires Allowed(s, step) && Plain(step) && Within(s, d, f, a)
    ensures Within(After(s, step, maximumStreams), d, f, a)
  {
    match step
    case IngestsVideo(i) => BeginWithin(s, i, Announcing(i), maximumStreams, d, f, a);
    case IngestsAlpha(i, pixels, wellFormed) => BeginWithin(s, i, Measuring(i, pixels, wellFormed), maximumStreams, d, f, a);
    case Pairs => PairWithin(s, d, f, a);
    case Decodes(surface, serial, id, video) => DecodeWithin(s, surface, serial, id, video, d, f, a);
    case Finishes => FinishWithin(s, d, f, a);
    case RemovesSurface(surface) =>
      forall u <- RemoveSurface(s, surface).streams ensures u in s.streams && StreamWithin(s.streams[u], d, f, a) {}
    case _ =>
  }

  // ---- The budget follows ----

  /** The last reference to a lease gives it back. */
  function CollectFrom(b: P.Budget, s: Store, outside: set<LeaseID>, n: nat): P.Budget {
    if n == 0 then b
    else
      var c := CollectFrom(b, s, outside, n - 1);
      if n - 1 in c.leases && n - 1 !in outside && !Holds(s, n - 1) then P.Release(c, n - 1).0 else c
  }

  function Collect(b: P.Budget, s: Store, outside: set<LeaseID>): P.Budget { CollectFrom(b, s, outside, b.count) }

  lemma {:induction false} CollectFromIs(b: P.Budget, s: Store, outside: set<LeaseID>, n: nat)
    requires P.BudgetOk(b)
    ensures var c := CollectFrom(b, s, outside, n);
            && P.BudgetOk(c) && c.count == b.count && c.limit == b.limit
            && (forall l: nat :: l in c.leases <==> l in b.leases && (l >= n || l in outside || Holds(s, l)))
            && (forall l <- c.leases :: c.leases[l] == b.leases[l])
  {
    if n > 0 {
      CollectFromIs(b, s, outside, n - 1);
      var c := CollectFrom(b, s, outside, n - 1);
      if n - 1 in c.leases { P.ReleaseOk(c, n - 1); }
    }
  }

  lemma CollectIs(b: P.Budget, s: Store, outside: set<LeaseID>)
    requires P.BudgetOk(b)
    ensures var c := Collect(b, s, outside);
            && P.BudgetOk(c) && c.count == b.count && c.limit == b.limit
            && (forall l: nat :: l in c.leases <==> l in b.leases && (l in outside || Holds(s, l)))
            && (forall l <- c.leases :: c.leases[l] == b.leases[l])
  {
    CollectFromIs(b, s, outside, b.count);
  }

  function OfKind(b: P.Budget, kind: P.Kind): set<LeaseID> { set l | l in b.leases && b.leases[l].kind == kind }

  /** Everything the store refers to is a live lease of the right kind. */
  predicate Backed(s: Store, b: P.Budget) { Within(s, OfKind(b, P.Decoder), OfKind(b, P.Frame), OfKind(b, P.Alpha)) }

  lemma StreamStaysBacked(st: Stream, b: P.Budget, c: P.Budget)
    requires StreamWithin(st, OfKind(b, P.Decoder), OfKind(b, P.Frame), OfKind(b, P.Alpha))
    requires forall l :: l in b.leases && StreamHolds(st, l) ==> l in c.leases && c.leases[l].kind == b.leases[l].kind
    ensures StreamWithin(st, OfKind(c, P.Decoder), OfKind(c, P.Frame), OfKind(c, P.Alpha))
  {
    forall id <- st.reservations ensures st.reservations[id] in OfKind(c, P.Frame) { assert StreamHolds(st, st.reservations[id]); }
    forall id <- st.alphaPlanes ensures st.alphaPlanes[id].lease in OfKind(c, P.Alpha) {
      assert StreamHolds(st, st.alphaPlanes[id].lease);
    }
    if st.decoderLease.Some? { assert StreamHolds(st, st.decoderLease.value); }
    if st.lastAlpha.Some? { assert StreamHolds(st, st.lastAlpha.value.lease); }
  }

  /** What is held stays backed as long as what is held stays live. */
  lemma StaysBacked(s: Store, b: P.Budget, c: P.Budget)
    requires Backed(s, b)
    requires forall l :: l in b.leases && Holds(s, l) ==> l in c.leases && c.leases[l].kind == b.leases[l].kind
    ensures Backed(s, c)
  {
    forall u <- s.streams ensures StreamWithin(s.streams[u], OfKind(c, P.Decoder), OfKind(c, P.Frame), OfKind(c, P.Alpha)) {
      assert forall l :: StreamHolds(s.streams[u], l) ==> Holds(s, l);
      StreamStaysBacked(s.streams[u], b, c);
    }
    forall id <- s.frames ensures s.frames[id].lease in OfKind(c, P.Frame) { assert Holds(s, s.frames[id].lease); }
    if s.work.Some? {
      match s.work.value
      case Pairing(_, plane) => assert Holds(s, plane.lease);
      case Publishing(_, _, _, _, _, alpha, lease) =>
        if alpha.Some? { assert Holds(s, alpha.value.lease); }
        if lease.Some? { assert Holds(s, lease.value); }
      case _ =>
    }
  }

  // ---- Reserving ----

  /** Pixels are reserved as they are or, if that fails, once the history has been trimmed;
      also whether it was. */
  function ReservePixels(b: P.Budget, s: Store, keep: set<LeaseID>, bytes: int, kind: P.Kind): (P.Budget, Option<LeaseID>, bool) {
    var (c, lease) := P.Reserve(b, bytes, kind);
    if lease.Some? then (c, lease, false)
    else
      var (d, second) := P.Reserve(Collect(b, Trim(s), keep), bytes, kind);
      (d, second, true)
  }

  predicate Keeps(b: P.Budget, c: P.Budget, keep: set<LeaseID>) {
    c.limit == b.limit && forall l <- keep :: l in b.leases ==> l in c.leases && c.leases[l].kind == b.leases[l].kind
  }

  lemma ReserveBacked(b: P.Budget, s: Store, bytes: int, kind: P.Kind)
    requires P.BudgetOk(b) && Backed(s, b)
    ensures var (c, lease) := P.Reserve(b, bytes, kind);
            && P.BudgetOk(c) && Backed(s, c) && Keeps(b, c, b.leases.Keys)
            && (lease.Some? ==> lease.value in OfKind(c, kind))
  {
    P.ReserveOk(b, bytes, kind);
    StaysBacked(s, b, P.Reserve(b, bytes, kind).0);
  }

  lemma TrimBacked(b: P.Budget, s: Store, keep: set<LeaseID>)
    requires P.BudgetOk(b) && Backed(s, b)
    ensures var c := Collect(b, Trim(s), keep); P.BudgetOk(c) && Backed(Trim(s), c) && Keeps(b, c, keep)
  {
    CollectIs(b, Trim(s), keep);
    TrimWithin(s, OfKind(b, P.Decoder), OfKind(b, P.Frame), OfKind(b, P.Alpha));
    StaysBacked(Trim(s), b, Collect(b, Trim(s), keep));
  }

  lemma ReservePixelsOk(b: P.Budget, s: Store, keep: set<LeaseID>, bytes: int, kind: P.Kind)
    requires P.BudgetOk(b) && Backed(s, b)
    ensures var (c, lease, trims) := ReservePixels(b, s, keep, bytes, kind);
            && P.BudgetOk(c) && Backed(AfterTrim(s, trims), c) && Keeps(b, c, keep)
            && (lease.Some? ==> lease.value in OfKind(c, kind))
  {
    ReserveBacked(b, s, bytes, kind);
    TrimBacked(b, s, keep);
    ReserveBacked(Collect(b, Trim(s), keep), Trim(s), bytes, kind);
  }

  lemma TrimTwice(s: Store)
    ensures Trim(Trim(s)) == Trim(s)
  {
  }

  /** What an announcement is granted for a stream of its codec. */
  function GrantFor(b: P.Budget, s: Store, u: Surface, keep: set<LeaseID>, decoderBytes: int, frameBytes: int): (P.Budget, Grant)
    requires u in s.streams
  {
    var held := s.streams[u].decoderLease;
    if held.Some? then
      var (c, resized) := if held.value in b.leases then P.Resize(b, held.value, decoderBytes) else (b, false);
      if !resized then (c, Grant(false, None, false, None))
      else
        var (d, frame, trims) := ReservePixels(c, s, keep, frameBytes, P.Frame);
        (d, Grant(trims, None, true, frame))
    else
      var (c, decoder, first) := ReservePixels(b, s, keep, decoderBytes, P.Decoder);
      if decoder.None? then (c, Grant(first, None, true, None))
      else
        var (d, frame, second) := ReservePixels(c, AfterTrim(s, first), keep + {decoder.value}, frameBytes, P.Frame);
        (d, Grant(first || second, decoder, true, frame))
  }

  predicate Granted(b: P.Budget, s: Store, c: P.Budget, g: Grant, keep: set<LeaseID>) {
    && P.BudgetOk(c) && Backed(AfterTrim(s, g.trims), c) && Keeps(b, c, keep)
    && GrantWithin(g, OfKind(c, P.Decoder), OfKind(c, P.Frame))
  }

  lemma GrantHeldOk(b: P.Budget, s: Store, u: Surface, keep: set<LeaseID>, decoderBytes: int, frameBytes: int)
    requires P.BudgetOk(b) && Backed(s, b) && u in s.streams && s.streams[u].decoderLease.Some?
    ensures var (c, g) := GrantFor(b, s, u, keep, decoderBytes, frameBytes); Granted(b, s, c, g, keep)
  {
    var held := s.streams[u].decoderLease.value;
    assert StreamWithin(s.streams[u], OfKind(b, P.Decoder), OfKind(b, P.Frame), OfKind(b, P.Alpha));
    ResizeBacked(b, s, held, decoderBytes);
    ReservePixelsOk(P.Resize(b, held, decoderBytes).0, s, keep, frameBytes, P.Frame);
  }

  lemma ResizeBacked(b: P.Budget, s: Store, lease: LeaseID, bytes: int)
    requires P.BudgetOk(b) && Backed(s, b) && lease in b.leases
    ensures var c := P.Resize(b, lease, bytes).0; P.BudgetOk(c) && Backed(s, c) && Keeps(b, c, b.leases.Keys)
  {
    P.ResizeOk(b, lease, bytes);
    StaysBacked(s, b, P.Resize(b, lease, bytes).0);
  }

  lemma GrantNewOk(b: P.Budget, s: Store, u: Surface, keep: set<LeaseID>, decoderBytes: int, frameBytes: int)
    requires P.BudgetOk(b) && Backed(s, b) && u in s.streams && s.streams[u].decoderLease.None?
    ensures var (c, g) := GrantFor(b, s, u, keep, decoderBytes, frameBytes); Granted(b, s, c, g, keep)
  {
    var (c, decoder, first) := ReservePixels(b, s, keep, decoderBytes, P.Decoder);
    ReservePixelsOk(b, s, keep, decoderBytes, P.Decoder);
    if decoder.Some? {
      ReservePixelsOk(c, AfterTrim(s, first), keep + {decoder.value}, frameBytes, P.Frame);
      TrimTwice(s);
    }
  }

  // ---- Store and budget ----

  /** `outside` are the leases somebody else has: the views that show a frame, and decoders. */
  datatype Pool = Pool(s: Store, b: P.Budget, outside: set<LeaseID>)

  function Settle(s: Store, b: P.Budget, outside: set<LeaseID>): Pool { Pool(s, Collect(b, s, outside), outside) }

  datatype PoolStep =
    | Runs(step: Step)
    | ReservesFrame(decoderBytes: int, frameBytes: int)
    | ReservesPlane(bytes: int)
    | TakesPixels(made: bool, bytes: int)
    | Shows(id: Resource, fits: bool)
    | LetsGo(lease: LeaseID)
    | Borrows(bytes: int, kind: P.Kind)

  predicate PoolAllowed(p: Pool, step: PoolStep) {
    match step
    case Runs(plain) => Allowed(p.s, plain) && Plain(plain)
    case ReservesFrame(_, _) => p.s.work.Some? && p.s.work.value.Announcing?
    case ReservesPlane(_) => p.s.work.Some? && p.s.work.value.Measuring?
    case TakesPixels(_, _) => p.s.work.Some? && p.s.work.value.Publishing? && p.s.work.value.lease.None?
    case _ => true
  }

  function AnnounceOn(p: Pool, decoderBytes: int, frameBytes: int): Pool
    requires p.s.work.Some? && p.s.work.value.Announcing?
  {
    var (b, g) := if Goes(p.s, true) then GrantFor(p.b, Known(p.s), p.s.work.value.input.surface, p.outside, decoderBytes, frameBytes)
                  else (p.b, Grant(false, None, false, None));
    Settle(Announce(p.s, g), b, p.outside)
  }

  function MeasureOn(p: Pool, bytes: int): Pool
    requires p.s.work.Some? && p.s.work.value.Measuring?
  {
    var (b, lease, trims) := ReservePixels(p.b, p.s, p.outside, bytes, P.Alpha);
    Settle(Measure(p.s, trims, lease), b, p.outside)
  }

  /** The reservation a frame on its way would take. */
  function Reservation(s: Store): Option<LeaseID>
    requires s.work.Some? && s.work.value.Publishing?
  {
    var p := s.work.value;
    if p.surface in s.streams && s.streams[p.surface].serial == p.serial && p.id in s.streams[p.surface].reservations
    then Some(s.streams[p.surface].reservations[p.id]) else None
  }

  /** The frame takes its reservation and resizes it to what it needs. */
  function TakeOn(p: Pool, made: bool, bytes: int): Pool
    requires p.s.work.Some? && p.s.work.value.Publishing? && p.s.work.value.lease.None?
  {
    var lease := Reservation(p.s);
    var (b, resized) := if made && lease.Some? && lease.value in p.b.leases then P.Resize(p.b, lease.value, bytes) else (p.b, false);
    Settle(TakeReservation(p.s, resized), b, p.outside)
  }

  /** Whoever is shown a frame refers to its lease from then on. */
  function ShowOn(p: Pool, id: Resource, fits: bool): Pool {
    var (s, status) := Resolve(p.s, id, fits);
    Settle(s, p.b, if status.Ready? then p.outside + {status.frame.lease} else p.outside)
  }

  function PoolAfter(p: Pool, step: PoolStep, maximumStreams: nat): Pool
    requires PoolAllowed(p, step)
  {
    match step
    case Runs(plain) => Settle(After(p.s, plain, maximumStreams), p.b, p.outside)
    case ReservesFrame(decoderBytes, frameBytes) => AnnounceOn(p, decoderBytes, frameBytes)
    case ReservesPlane(bytes) => MeasureOn(p, bytes)
    case TakesPixels(made, bytes) => TakeOn(p, made, bytes)
    case Shows(id, fits) => ShowOn(p, id, fits)
    case LetsGo(lease) => Settle(p.s, p.b, p.outside - {lease})
    case Borrows(bytes, kind) =>
      var (b, lease) := P.Reserve(p.b, bytes, kind);
      Settle(p.s, b, if lease.Some? then p.outside + {lease.value} else p.outside)
  }

  ghost predicate PoolOk(p: Pool) {
    && StoreOk(p.s) && P.BudgetOk(p.b) && Backed(p.s, p.b) && p.outside <= p.b.leases.Keys
    && forall l <- p.b.leases :: l in p.outside || Holds(p.s, l)
  }

  lemma SettleOk(s: Store, b: P.Budget, outside: set<LeaseID>)
    requires StoreOk(s) && P.BudgetOk(b) && Backed(s, b) && outside <= b.leases.Keys
    ensures PoolOk(Settle(s, b, outside))
    ensures Settle(s, b, outside).b.limit == b.limit
  {
    CollectIs(b, s, outside);
    StaysBacked(s, b, Collect(b, s, outside));
  }

  lemma AnnounceOnOk(p: Pool, decoderBytes: int, frameBytes: int)
    requires PoolOk(p) && p.s.work.Some? && p.s.work.value.Announcing?
    ensures PoolOk(AnnounceOn(p, decoderBytes, frameBytes)) && AnnounceOn(p, decoderBytes, frameBytes).b.limit == p.b.limit
  {
    var u := p.s.work.value.input.surface;
    KnownWithin(p.s, OfKind(p.b, P.Decoder), OfKind(p.b, P.Frame), OfKind(p.b, P.Alpha));
    if Goes(p.s, true) {
      var k := Known(p.s);
      if k.streams[u].decoderLease.Some? {
        GrantHeldOk(p.b, k, u, p.outside, decoderBytes, frameBytes);
      } else {
        GrantNewOk(p.b, k, u, p.outside, decoderBytes, frameBytes);
      }
      var (b, g) := GrantFor(p.b, k, u, p.outside, decoderBytes, frameBytes);
      AnnounceGranted(p.s, b, g);
      AnnounceOk(p.s, g);
      SettleOk(Announce(p.s, g), b, p.outside);
    } else {
      var g := Grant(false, None, false, None);
      AnnounceWithin(p.s, g, OfKind(p.b, P.Decoder), OfKind(p.b, P.Frame), OfKind(p.b, P.Alpha));
      AnnounceOk(p.s, g);
      SettleOk(Announce(p.s, g), p.b, p.outside);
    }
  }

  lemma AnnounceGranted(s: Store, b: P.Budget, g: Grant)
    requires s.work.Some? && s.work.value.Announcing? && Goes(s, true) && Backed(AfterTrim(Known(s), g.trims), b)
    requires GrantWithin(g, OfKind(b, P.Decoder), OfKind(b, P.Frame)) && (!g.resized ==> !g.trims)
    ensures Backed(Announce(s, g), b)
  {
    AnnounceWithin(s, g, OfKind(b, P.Decoder), OfKind(b, P.Frame), OfKind(b, P.Alpha));
  }

  lemma MeasureOnOk(p: Pool, bytes: int)
    requires PoolOk(p) && p.s.work.Some? && p.s.work.value.Measuring?
    ensures PoolOk(MeasureOn(p, bytes)) && MeasureOn(p, bytes).b.limit == p.b.limit
  {
    var (b, lease, trims) := ReservePixels(p.b, p.s, p.outside, bytes, P.Alpha);
    ReservePixelsOk(p.b, p.s, p.outside, bytes, P.Alpha);
    MeasureOk(p.s, trims, lease);
    SettleOk(Measure(p.s, trims, lease), b, p.outside);
  }

  lemma TakeOnOk(p: Pool, made: bool, bytes: int)
    requires PoolOk(p) && p.s.work.Some? && p.s.work.value.Publishing? && p.s.work.value.lease.None?
    ensures PoolOk(TakeOn(p, made, bytes)) && TakeOn(p, made, bytes).b.limit == p.b.limit
  {
    var lease := Reservation(p.s);
    var (b, resized) := if made && lease.Some? && lease.value in p.b.leases then P.Resize(p.b, lease.value, bytes) else (p.b, false);
    if made && lease.Some? && lease.value in p.b.leases { P.ResizeOk(p.b, lease.value, bytes); }
    TakeWithin(p.s, resized, OfKind(p.b, P.Decoder), OfKind(p.b, P.Frame), OfKind(p.b, P.Alpha));
    StaysBacked(TakeReservation(p.s, resized), p.b, b);
    TakeReservationOk(p.s, resized);
    SettleOk(TakeReservation(p.s, resized), b, p.outside);
  }

  lemma ShowOk(p: Pool, id: Resource, fits: bool)
    requires PoolOk(p)
    ensures PoolOk(ShowOn(p, id, fits)) && ShowOn(p, id, fits).b.limit == p.b.limit
  {
    var (s, status) := Resolve(p.s, id, fits);
    ResolveOk(p.s, id, fits);
    if status.Ready? {
      ShownBacked(p.s, p.b, id);
      SettleOk(s, p.b, p.outside + {status.frame.lease});
    } else {
      SettleOk(s, p.b, p.outside);
    }
  }

  lemma ShownBacked(s: Store, b: P.Budget, id: Resource)
    requires Backed(s, b) && id in s.frames
    ensures Backed(Retire(s, s.frames[id].surface, id), b) && s.frames[id].lease in b.leases
  {
    RetireWithin(s, s.frames[id].surface, id, OfKind(b, P.Decoder), OfKind(b, P.Frame), OfKind(b, P.Alpha));
  }

  lemma PoolAfterOk(p: Pool, step: PoolStep, maximumStreams: nat)
    requires PoolOk(p) && PoolAllowed(p, step)
    ensures PoolOk(PoolAfter(p, step, maximumStreams)) && PoolAfter(p, step, maximumStreams).b.limit == p.b.limit
  {
    match step
    case Runs(plain) =>
      PlainWithin(p.s, plain, maximumStreams, OfKind(p.b, P.Decoder), OfKind(p.b, P.Frame), OfKind(p.b, P.Alpha));
      AfterOk(p.s, plain, maximumStreams);
      SettleOk(After(p.s, plain, maximumStreams), p.b, p.outside);
    case ReservesFrame(decoderBytes, frameBytes) => AnnounceOnOk(p, decoderBytes, frameBytes);
    case ReservesPlane(bytes) => MeasureOnOk(p, bytes);
    case TakesPixels(made, bytes) => TakeOnOk(p, made, bytes);
    case Shows(id, fits) => ShowOk(p, id, fits);
    case LetsGo(lease) => SettleOk(p.s, p.b, p.outside - {lease});
    case Borrows(bytes, kind) =>
      ReserveBacked(p.b, p.s, bytes, kind);
      var (b, lease) := P.Reserve(p.b, bytes, kind);
      SettleOk(p.s, b, if lease.Some? then p.outside + {lease.value} else p.outside);
  }

  predicate PoolReaches(p: Pool, steps: seq<PoolStep>, end: Pool, maximumStreams: nat)
    decreases |steps|
  {
    if steps == [] then end == p
    else PoolAllowed(p, steps[0]) && PoolReaches(PoolAfter(p, steps[0], maximumStreams), steps[1..], end, maximumStreams)
  }

  lemma {:induction false} PoolRunOk(p: Pool, steps: seq<PoolStep>, end: Pool, maximumStreams: nat)
    requires PoolOk(p) && PoolReaches(p, steps, end, maximumStreams)
    ensures PoolOk(end) && end.b.limit == p.b.limit
    decreases |steps|
  {
    if steps != [] {
      PoolAfterOk(p, steps[0], maximumStreams);
      PoolRunOk(PoolAfter(p, steps[0], maximumStreams), steps[1..], end, maximumStreams);
    }
  }

  /** In every run the live leases are exactly those the store or somebody outside refers to,
      each for what it is; what they cost is what they hold, in total never more than the
      limit. No lease is lost and none is used after it was given back. */
  lemma LeasesAgree(limit: int, steps: seq<PoolStep>, end: Pool, maximumStreams: nat)
    requires PoolReaches(Pool(NewStore, P.NewBudget(limit), {}), steps, end, maximumStreams)
    ensures forall l: nat :: l in end.b.leases <==> l in end.outside || Holds(end.s, l)
    ensures Backed(end.s, end.b)
    ensures forall kind :: P.Cost(end.b.costs, kind) == P.Leased(end.b.leases, kind, end.b.count)
    ensures P.Total(end.b.costs) <= if limit < 0 then 0 else limit
  {
    PoolRunOk(Pool(NewStore, P.NewBudget(limit), {}), steps, end, maximumStreams);
    forall l: nat | Holds(end.s, l) ensures l in end.b.leases { HeldIsLive(end.s, end.b, l); }
  }

  lemma HeldIsLive(s: Store, b: P.Budget, l: LeaseID)
    requires Backed(s, b) && Holds(s, l)
    ensures l in b.leases
  {
    if u: Surface :| u in s.streams && StreamHolds(s.streams[u], l) {
      assert StreamWithin(s.streams[u], OfKind(b, P.Decoder), OfKind(b, P.Frame), OfKind(b, P.Alpha));
    }
  }
}
