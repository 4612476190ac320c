/** Whole runs of the frame store: what is pending and kept stays bounded, and no frame that
    was announced with an alpha plane is ever shown without it. */
module FrameRuns {
  import opened Wrappers
  import opened RemoteFrames

  // ---- One stream ----

  /** Whatever is held for a frame is held for a pending one. */
  predicate TrackOk(st: Stream) {
    && Distinct(st.pendingIDs) && |st.pendingIDs| <= MAXIMUM_PENDING
    && (forall id <- st.alphaPlanes :: id in st.pendingIDs)
    && (forall id <- st.pendingVideo :: id in st.pendingIDs)
    && (forall id <- st.reservations :: id in st.pendingIDs)
    && (forall id <- st.expectedAlpha :: id in st.pendingIDs)
  }

  predicate KeepsOk(st: Stream) { Distinct(st.resourceIDs) && |st.resourceIDs| <= MAXIMUM_FRAMES }

  /** A frame that has its pixels reserved and was announced with alpha still expects it,
      unless it has just been given it. */
  predicate AlphaOk(st: Stream, given: Option<Resource>) {
    forall id <- st.reservations :: id in st.withAlpha ==> id in st.expectedAlpha || given == Some(id)
  }

  lemma TrackPendingOk(st: Stream, id: Resource, given: Option<Resource>)
    requires Distinct(st.pendingIDs) && AlphaOk(st, given)
    requires forall x <- st.alphaPlanes :: x in st.pendingIDs || x == id
    requires forall x <- st.pendingVideo :: x in st.pendingIDs || x == id
    requires forall x <- st.reservations :: x in st.pendingIDs || x == id
    requires forall x <- st.expectedAlpha :: x in st.pendingIDs || x == id
    ensures TrackOk(TrackPending(st, id)) && AlphaOk(TrackPending(st, id), given)
    ensures TrackPending(st, id).resourceIDs == st.resourceIDs
  {
    NewestIs(st.pendingIDs, id, MAXIMUM_PENDING);
    assert id !in Oldest(st.pendingIDs, id, MAXIMUM_PENDING);
  }

  lemma AnnouncedOk(st: Stream, id: Resource, lease: LeaseID, hasAlpha: bool, reuse: Option<Plane>)
    requires TrackOk(st) && AlphaOk(st, None)
    ensures TrackOk(Announced(st, id, lease, hasAlpha, reuse)) && AlphaOk(Announced(st, id, lease, hasAlpha, reuse), None)
  {
    var reserved := st.(reservations := st.reservations[id := lease]);
    if hasAlpha {
      var alpha := reserved.(expectedAlpha := st.expectedAlpha + {id}, withAlpha := st.withAlpha + {id},
                             alphaPlanes := if reuse.Some? then st.alphaPlanes[id := reuse.value] else st.alphaPlanes);
      TrackPendingOk(alpha, id, None);
    } else {
      var plain := reserved.(expectedAlpha := st.expectedAlpha - {id}, withAlpha := st.withAlpha - {id},
                             alphaPlanes := st.alphaPlanes - {id});
      TrackPendingOk(plain, id, None);
    }
  }

  // ---- The store ----

  predicate Current(s: Store, u: Surface)
    requires u in s.streams
  {
    s.streams[u].generation == s.generation && !s.failed
  }

  predicate Publishes(s: Store, u: Surface, st: Stream) {
    s.work.Some? && s.work.value.Publishing? && s.work.value.surface == u && s.work.value.serial == st.serial
  }

  /** The frame on its way, if it was given its alpha plane and not its pixels yet. */
  function Given(s: Store, u: Surface, st: Stream): Option<Resource> {
    if Publishes(s, u, st) && s.work.value.lease.None? && s.work.value.alpha.Some? then Some(s.work.value.id) else None
  }

  /** A frame on its way has left everything else behind; if it was announced with alpha it
      has that, or it will not get its pixels. */
  predicate PublishOk(s: Store, u: Surface, st: Stream) {
    Publishes(s, u, st) ==>
      var p := s.work.value;
      && p.id !in st.alphaPlanes && p.id !in st.pendingVideo && p.id !in st.expectedAlpha
      && (p.lease.Some? ==> p.id !in st.reservations)
      && (p.id in st.withAlpha && p.alpha.None? ==> p.lease.None? && p.id !in st.reservations)
  }

  /** The reservation an announcement left behind whose failure is about to be recorded. */
  function Strays(s: Store, u: Surface): set<Resource> {
    if s.work.Some? && s.work.value.Failing? && s.work.value.stray.Some? && s.work.value.stray.value.surface == u
    then {s.work.value.stray.value.id} else {}
  }

  function Settled(s: Store, u: Surface, st: Stream): Stream { st.(reservations := st.reservations - Strays(s, u)) }

  predicate StreamOk(s: Store, u: Surface)
    requires u in s.streams
  {
    var st := s.streams[u];
    && KeepsOk(st) && st.serial < s.serials && st.generation <= s.generation
    && (s.resets == 0 ==> st.generation == s.generation)
    && (Current(s, u) ==> HoldsOk(s, u, st))
  }

  predicate HoldsOk(s: Store, u: Surface, st: Stream) {
    TrackOk(Settled(s, u, st)) && AlphaOk(Settled(s, u, st), Given(s, u, st)) && PublishOk(s, u, st)
  }

  /** A frame is listed by the stream it came from, and has its alpha plane if it wants one. */
  predicate FrameOk(s: Store, id: Resource)
    requires id in s.frames
  {
    var f := s.frames[id];
    && f.surface in s.streams && id in s.streams[f.surface].resourceIDs
    && (f.wanted ==> f.alpha.Some?)
  }

  predicate Of(s: Store, u: Surface, token: nat) { u in s.streams && s.streams[u].generation == token }

  /** What the decode queue is about to do concerns a stream of the generation it began in. */
  predicate WorkOk(s: Store) {
    s.work.Some? ==>
      match s.work.value
      case Announcing(i) => Of(s, i.surface, i.token)
      case Measuring(i, _, _) => Of(s, i.surface, i.token)
      case Pairing(i, _) => Of(s, i.surface, i.token)
      case Publishing(u, serial, generation, _, _, _, _) => serial < s.serials && Of(s, u, generation)
      case Failing(token, stray) => stray.Some? ==> Of(s, stray.value.surface, token)
  }

  ghost predicate StoreOk(s: Store) {
    && (forall u <- s.streams :: StreamOk(s, u))
    && (forall id <- s.frames :: FrameOk(s, id))
    && WorkOk(s)
  }

  /** Work that says nothing about any stream but this one. */
  predicate Concerns(work: Option<Work>, u: Surface) {
    && (work.Some? && work.value.Publishing? ==> work.value.surface == u)
    && (work.Some? && work.value.Failing? && work.value.stray.Some? ==> work.value.stray.value.surface == u)
  }

  /** Other work leaves a stream alone that neither work is about. */
  lemma StreamBeside(s: Store, t: Store, v: Surface, u: Surface)
    requires v in s.streams && v in t.streams && t.streams[v] == s.streams[v] && StreamOk(s, v)
    requires t.generation == s.generation && t.failed == s.failed && t.resets == s.resets && t.serials >= s.serials
    requires v != u && Concerns(s.work, u) && Concerns(t.work, u)
    ensures StreamOk(t, v)
  {
    assert Strays(s, v) == Strays(t, v) == {};
  }

  /** One stream changes and its work with it; its list of kept frames does not. */
  lemma StreamChanged(s: Store, u: Surface, st: Stream, work: Option<Work>)
    requires StoreOk(s) && u in s.streams && st.resourceIDs == s.streams[u].resourceIDs
    requires st.serial == s.streams[u].serial && st.generation == s.streams[u].generation
    requires Concerns(s.work, u) && Concerns(work, u)
    requires var t := s.(streams := s.streams[u := st], work := work);
             WorkOk(t) && (Current(t, u) ==> HoldsOk(t, u, st))
    ensures StoreOk(s.(streams := s.streams[u := st], work := work))
  {
    var t := s.(streams := s.streams[u := st], work := work);
    assert StreamOk(s, u);
    forall v <- t.streams ensures StreamOk(t, v) {
      if v != u {
        assert StreamOk(s, v);
        StreamBeside(s, t, v, u);
      }
    }
    forall id <- t.frames ensures FrameOk(t, id) { assert FrameOk(s, id); }
  }

  /** Work that says nothing about streams takes the place of such work. */
  lemma WorkChanged(s: Store, work: Option<Work>)
    requires StoreOk(s) && WorkOk(s.(work := work))
    requires forall w :: w == s.work || w == work ==> w.None? || (!w.value.Publishing? && (w.value.Failing? ==> w.value.stray.None?))
    ensures StoreOk(s.(work := work))
  {
    var t := s.(work := work);
    forall v <- t.streams ensures StreamOk(t, v) {
      assert StreamOk(s, v);
      assert Strays(s, v) == Strays(t, v) == {};
    }
    forall id <- t.frames ensures FrameOk(t, id) { assert FrameOk(s, id); }
  }

  lemma FailOk(s: Store, token: nat)
    requires StoreOk(s)
    ensures StoreOk(Fail(s, token))
  {
    var t := Fail(s, token);
    forall u <- t.streams ensures StreamOk(t, u) { assert StreamOk(s, u); }
    forall id <- t.frames ensures FrameOk(t, id) { assert FrameOk(s, id); }
  }

  lemma RecordFailureOk(s: Store)
    requires StoreOk(s) && s.work.Some? && s.work.value.Failing?
    ensures StoreOk(RecordFailure(s))
  {
    var t := RecordFailure(s);
    forall u <- t.streams ensures StreamOk(t, u) {
      assert StreamOk(s, u);
      if Current(t, u) { assert Strays(s, u) == Strays(t, u) == {}; }
    }
    forall id <- t.frames ensures FrameOk(t, id) { assert FrameOk(s, id); }
  }

  // ---- The first section of a packet ----

  lemma NewStreamHolds(s: Store, u: Surface)
    requires s.work.None?
    ensures HoldsOk(s, u, NewStream(s.serials, s.generation))
  {
    assert Strays(s, u) == {};
  }

  lemma OpenOk(s: Store, u: Surface)
    requires StoreOk(s) && s.work.None?
    ensures StoreOk(Open(s, u)) && u in Open(s, u).streams
  {
    var t := Open(s, u);
    NewStreamHolds(t, u);
    forall v <- t.streams ensures StreamOk(t, v) {
      if v in s.streams {
        assert StreamOk(s, v);
        if v != u { StreamBeside(s, t, v, u); }
      }
    }
    forall id <- t.frames ensures FrameOk(t, id) { assert FrameOk(s, id); }
  }

  lemma EnterOk(s: Store, u: Surface, epoch: nat)
    requires StoreOk(s) && s.work.None? && u in s.streams
    ensures StoreOk(Enter(s, u, epoch)) && u in Enter(s, u, epoch).streams
    ensures Enter(s, u, epoch).streams[u].generation == s.streams[u].generation
  {
    var t := Enter(s, u, epoch);
    forall v <- t.streams ensures StreamOk(t, v) { assert StreamOk(s, v) && Strays(t, v) == {}; }
    forall id <- t.frames ensures FrameOk(t, id) { assert FrameOk(s, id); }
  }

  lemma BeginOk(s: Store, i: Input, next: Work, maximumStreams: nat)
    requires StoreOk(s) && s.work.None? && (i.token == s.generation ==> s.resets == 0)
    requires (next.Announcing? || next.Measuring?) && next.input == i
    ensures StoreOk(Begin(s, i, next, maximumStreams))
  {
    if Accepts(s, i.surface, i.token) {
      if i.surface !in s.streams && |s.streams| >= maximumStreams {
        WorkChanged(s, Some(Failing(i.token, None)));
      } else {
        OpenOk(s, i.surface);
        var made := Open(s, i.surface);
        assert StreamOk(made, i.surface);
        EnterOk(made, i.surface, i.epoch);
        WorkChanged(Enter(made, i.surface, i.epoch), Some(next));
      }
    }
  }

  // ---- Pictures ----

  lemma {:induction false} SuffixKeeps(ids: seq<Resource>, n: nat, id: Resource)
    requires id in ids && id !in Prefix(ids, n)
    ensures id in Suffix(ids, n)
  {
    if |ids| > n { assert ids == Prefix(ids, n) + Suffix(ids, n); }
  }

  /** A stream that lists fewer frames is otherwise as it was. */
  lemma StreamShortened(s: Store, t: Store, v: Surface)
    requires v in s.streams && v in t.streams && StreamOk(s, v) && KeepsOk(t.streams[v])
    requires t.streams[v] == s.streams[v].(resourceIDs := t.streams[v].resourceIDs)
    requires t.generation == s.generation && t.failed == s.failed && t.resets == s.resets && t.serials == s.serials
    requires t.work == s.work
    ensures StreamOk(t, v)
  {
    assert Settled(t, v, t.streams[v]) == Settled(s, v, s.streams[v]).(resourceIDs := t.streams[v].resourceIDs);
  }

  lemma TrimOk(s: Store)
    requires StoreOk(s)
    ensures StoreOk(Trim(s)) && Trim(s).streams.Keys == s.streams.Keys
  {
    var t := Trim(s);
    forall u <- t.streams ensures StreamOk(t, u) {
      assert StreamOk(s, u);
      StreamShortened(s, t, u);
    }
    forall id <- t.frames ensures FrameOk(t, id) {
      assert FrameOk(s, id);
      SuffixKeeps(s.streams[s.frames[id].surface].resourceIDs, 1, id);
    }
  }

  /** The codec and the decoder's lease are nothing any rule is about. */
  predicate SameHolds(st: Stream, st': Stream) { st' == st.(codec := st'.codec, decoderLease := st'.decoderLease) }

  lemma HoldsSame(s: Store, t: Store, u: Surface, st: Stream, st': Stream)
    requires HoldsOk(s, u, st) && SameHolds(st, st') && !Publishes(s, u, st) && !Publishes(t, u, st')
    requires Strays(s, u) == Strays(t, u) == {}
    ensures HoldsOk(t, u, st')
  {
    assert Settled(s, u, st) == st && Settled(t, u, st') == st';
  }

  /** A stream waits on, with something more held for one of its frames. */
  lemma WaitsOk(s: Store, u: Surface, st: Stream)
    requires StoreOk(s) && u in s.streams && st.resourceIDs == s.streams[u].resourceIDs && Concerns(s.work, u)
    requires st.serial == s.streams[u].serial && st.generation == s.streams[u].generation
    requires Current(s, u) ==> TrackOk(st) && AlphaOk(st, None)
    ensures StoreOk(s.(streams := s.streams[u := st], work := None))
  {
    var t := s.(streams := s.streams[u := st], work := None);
    assert Settled(t, u, st) == st;
    StreamChanged(s, u, st, None);
  }

  /** What an announcement does to its stream, if it gets that far. */
  lemma AnnounceKnownOk(s: Store, i: Input, g: Grant)
    requires StoreOk(s) && s.work == Some(Announcing(i)) && i.surface in s.streams
    ensures StoreOk(AnnounceKnown(s, i, g))
  {
    var u := i.surface;
    var known := s.streams[u];
    assert StreamOk(s, u);
    var ready := if known.decoderLease.Some? then known else known.(decoderLease := g.decoder);
    assert Settled(s, u, known) == known;
    if ready.decoderLease.None? || g.frame.None? {
      StreamFails(s, i, ready);
    } else if i.hasAlpha && i.reuses && !(ready.lastAlpha.Some? && i.sameSize) {
      StrayFails(s, i, ready, g.frame.value);
    } else {
      var st := Announced(ready, i.id, g.frame.value, i.hasAlpha, if i.reuses then ready.lastAlpha else None);
      if Current(s, u) { AnnouncedOk(ready, i.id, g.frame.value, i.hasAlpha, if i.reuses then ready.lastAlpha else None); }
      WaitsOk(s, u, st);
    }
  }

  lemma StreamFails(s: Store, i: Input, st: Stream)
    requires StoreOk(s) && s.work == Some(Announcing(i)) && i.surface in s.streams && SameHolds(s.streams[i.surface], st)
    ensures StoreOk(s.(streams := s.streams[i.surface := st], work := Some(Failing(i.token, None))))
  {
    var work := Some(Failing(i.token, None));
    assert StreamOk(s, i.surface);
    var t := s.(streams := s.streams[i.surface := st], work := work);
    if Current(s, i.surface) { HoldsSame(s, t, i.surface, s.streams[i.surface], st); }
    StreamChanged(s, i.surface, st, work);
  }

  lemma StrayFails(s: Store, i: Input, st: Stream, lease: LeaseID)
    requires StoreOk(s) && s.work == Some(Announcing(i)) && i.surface in s.streams && SameHolds(s.streams[i.surface], st)
    ensures StoreOk(s.(streams := s.streams[i.surface := st.(reservations := st.reservations[i.id := lease])],
                       work := Some(Failing(i.token, Some(Stray(i.surface, i.id))))))
  {
    var u, work := i.surface, Some(Failing(i.token, Some(Stray(i.surface, i.id))));
    assert StreamOk(s, u);
    var st' := st.(reservations := st.reservations[i.id := lease]);
    var t := s.(streams := s.streams[u := st'], work := work);
    assert Strays(t, u) == {i.id};
    assert Settled(t, u, st') == st.(reservations := st.reservations - {i.id});
    assert Settled(s, u, s.streams[u]) == s.streams[u];
    StreamChanged(s, u, st', work);
  }

  lemma AnnounceOk(s: Store, g: Grant)
    requires StoreOk(s) && s.work.Some? && s.work.value.Announcing?
    ensures StoreOk(Announce(s, g))
  {
    var i := s.work.value.input;
    var st := s.streams[i.surface];
    var known := st.(codec := Some(i.codec));
    assert StreamOk(s, i.surface);
    StreamFails(s, i, known);
    var t := s.(streams := s.streams[i.surface := known]);
    if Current(s, i.surface) { HoldsSame(s, t, i.surface, st, known); }
    StreamChanged(s, i.surface, known, s.work);
    TrimOk(t);
    AnnounceKnownOk(AfterTrim(t, g.trims), i, g);
  }

  lemma TakenOk(st: Stream, id: Resource)
    requires TrackOk(st) && AlphaOk(st, None)
    ensures TrackOk(Taken(st, id)) && AlphaOk(Taken(st, id), Some(id))
  {
  }

  // ---- Alpha planes ----

  lemma MeasureOk(s: Store, trims: bool, lease: Option<LeaseID>)
    requires StoreOk(s) && s.work.Some? && s.work.value.Measuring?
    ensures StoreOk(Measure(s, trims, lease))
  {
    TrimOk(s);
    WorkChanged(AfterTrim(s, trims), Measure(s, trims, lease).work);
  }

  lemma WithPlaneOk(st: Stream, id: Resource, plane: Plane)
    requires TrackOk(st) && AlphaOk(st, None)
    ensures TrackOk(WithPlane(st, id, plane)) && AlphaOk(WithPlane(st, id, plane), None)
  {
    TrackPendingOk(st.(alphaPlanes := st.alphaPlanes[id := plane], lastAlpha := Some(plane)), id, None);
  }

  /** A frame leaves its stream to be published. */
  lemma LeavesOk(s: Store, u: Surface, st: Stream, id: Resource, video: Pixels, alpha: Option<Plane>)
    requires StoreOk(s) && u in s.streams && st.resourceIDs == s.streams[u].resourceIDs && Concerns(s.work, u)
    requires st.serial == s.streams[u].serial && st.generation == s.streams[u].generation
    requires Current(s, u) ==> TrackOk(st) && AlphaOk(st, None) && (alpha.None? ==> id !in st.expectedAlpha)
    ensures StoreOk(s.(streams := s.streams[u := Taken(st, id)],
                       work := Some(Publishing(u, st.serial, st.generation, id, video, alpha, None))))
  {
    var work := Some(Publishing(u, st.serial, st.generation, id, video, alpha, None));
    var t := s.(streams := s.streams[u := Taken(st, id)], work := work);
    assert StreamOk(s, u);
    assert Settled(t, u, Taken(st, id)) == Taken(st, id);
    if Current(s, u) { TakenOk(st, id); }
    StreamChanged(s, u, Taken(st, id), work);
  }

  lemma PairOk(s: Store)
    requires StoreOk(s) && s.work.Some? && s.work.value.Pairing?
    ensures StoreOk(Pair(s))
  {
    var w := s.work.value;
    var u, id := w.input.surface, w.input.id;
    assert StreamOk(s, u);
    if s.streams[u].generation != s.generation {
      WorkChanged(s, None);
    } else {
      var st := s.streams[u];
      var tracked := WithPlane(st, id, w.plane);
      assert Settled(s, u, st) == st;
      if Current(s, u) { WithPlaneOk(st, id, w.plane); }
      if id in tracked.pendingVideo {
        LeavesOk(s, u, tracked, id, tracked.pendingVideo[id], Some(w.plane));
      } else {
        WaitsOk(s, u, tracked);
      }
    }
  }

  lemma ReceiveDecodedOk(s: Store, u: Surface, serial: nat, id: Resource, video: Pixels)
    requires StoreOk(s) && s.work.None?
    ensures StoreOk(ReceiveDecoded(s, u, serial, id, video))
  {
    if u in s.streams && s.streams[u].serial == serial && s.streams[u].generation == s.generation && id in s.streams[u].pendingIDs {
      assert StreamOk(s, u);
      var st := s.streams[u];
      assert Settled(s, u, st) == st;
      if id in st.expectedAlpha && id !in st.alphaPlanes {
        var held := st.(pendingVideo := st.pendingVideo[id := video]);
        if Current(s, u) { TrackPendingOk(held, id, None); }
        WaitsOk(s, u, TrackPending(held, id));
      } else {
        LeavesOk(s, u, st, id, video, if id in st.alphaPlanes then Some(st.alphaPlanes[id]) else None);
      }
    }
  }

  // ---- Publishing ----

  lemma TakeReservationOk(s: Store, made: bool)
    requires StoreOk(s) && s.work.Some? && s.work.value.Publishing? && s.work.value.lease.None?
    ensures StoreOk(TakeReservation(s, made))
  {
    var p, after := s.work.value, TakeReservation(s, made);
    var st := s.streams[p.surface];
    assert StreamOk(s, p.surface);
    assert Settled(s, p.surface, st) == st;
    assert Settled(after, p.surface, after.streams[p.surface]) == after.streams[p.surface];
    StreamChanged(s, p.surface, after.streams[p.surface], after.work);
    if after.streams[p.surface] == st { assert s.streams[p.surface := st] == s.streams; }
  }

  /** The stream a frame is published by; nothing else held for it changes. */
  lemma PublishedOk(s: Store, t: Store, u: Surface, id: Resource)
    requires u in s.streams && u in t.streams && StreamOk(s, u) && KeepsOk(t.streams[u]) && s.work.Some? && t.work.None?
    requires s.work.value.Publishing? && s.work.value.surface == u && s.work.value.serial == s.streams[u].serial
    requires s.work.value.id == id && s.work.value.lease.Some?
    requires t.generation == s.generation && t.failed == s.failed && t.resets == s.resets && t.serials == s.serials
    requires var st := s.streams[u];
             t.streams[u] == st.(publishedThrough := t.streams[u].publishedThrough, pendingIDs := Without(st.pendingIDs, id),
                                 resourceIDs := t.streams[u].resourceIDs)
    ensures StreamOk(t, u)
  {
    WithoutIs(s.streams[u].pendingIDs, id);
    assert Settled(s, u, s.streams[u]) == s.streams[u];
    assert Settled(t, u, t.streams[u]) == t.streams[u];
  }

  /** A frame is given up, or belongs to another stream. */
  lemma DroppedOk(s: Store, t: Store, u: Surface)
    requires u in s.streams && u in t.streams && StreamOk(s, u) && t.streams[u] == s.streams[u]
    requires s.work.Some? && s.work.value.Publishing? && s.work.value.lease.Some? && t.work.None?
    requires t.generation == s.generation && t.failed == s.failed && t.resets == s.resets && t.serials == s.serials
    ensures StreamOk(t, u)
  {
    assert Settled(s, u, s.streams[u]) == Settled(t, u, t.streams[u]) == s.streams[u];
  }

  lemma FinishStream(s: Store, u: Surface)
    requires StoreOk(s) && s.work.Some? && s.work.value.Publishing? && s.work.value.lease.Some? && u in s.streams
    ensures u in Finish(s).streams && StreamOk(Finish(s), u)
  {
    var p := s.work.value;
    assert StreamOk(s, u);
    if Finish(s).streams[u] == s.streams[u] {
      DroppedOk(s, Finish(s), u);
    } else {
      NewestIs(s.streams[u].resourceIDs, p.id, MAXIMUM_FRAMES);
      PublishedOk(s, Finish(s), u, p.id);
    }
  }

  lemma FinishFrame(s: Store, id: Resource)
    requires StoreOk(s) && s.work.Some? && s.work.value.Publishing? && s.work.value.lease.Some? && id in Finish(s).frames
    ensures FrameOk(Finish(s), id)
  {
    var p := s.work.value;
    if Finish(s) != s.(work := None) {
      assert StreamOk(s, p.surface) && Current(s, p.surface);
      NewestIs(s.streams[p.surface].resourceIDs, p.id, MAXIMUM_FRAMES);
      if id != p.id { assert FrameOk(s, id); }
    } else {
      assert FrameOk(s, id);
    }
  }

  lemma FinishOk(s: Store)
    requires StoreOk(s) && s.work.Some? && s.work.value.Publishing? && s.work.value.lease.Some?
    ensures StoreOk(Finish(s))
  {
    var t := Finish(s);
    forall u <- t.streams ensures StreamOk(t, u) { FinishStream(s, u); }
    forall id <- t.frames ensures FrameOk(t, id) { FinishFrame(s, id); }
  }

  // ---- Removing ----

  lemma RemoveSurfaceOk(s: Store, u: Surface)
    requires StoreOk(s) && s.work.None?
    ensures StoreOk(RemoveSurface(s, u))
  {
    var t := RemoveSurface(s, u);
    forall v <- t.streams ensures StreamOk(t, v) { assert StreamOk(s, v); }
    forall id <- t.frames ensures FrameOk(t, id) { assert FrameOk(s, id); }
  }

  lemma RemoveAllOk(s: Store)
    requires StoreOk(s)
    ensures StoreOk(RemoveAll(s))
  {
    var t := RemoveAll(s);
    forall v <- t.streams ensures StreamOk(t, v) { assert StreamOk(s, v); }
  }

  lemma ResolveOk(s: Store, id: Resource, fits: bool)
    requires StoreOk(s)
    ensures StoreOk(Resolve(s, id, fits).0)
  {
    if id in s.frames && fits {
      var u := s.frames[id].surface;
      assert FrameOk(s, id);
      RetireOk(s, u, id);
    }
  }

  lemma RetireOk(s: Store, u: Surface, id: Resource)
    requires StoreOk(s)
    ensures StoreOk(Retire(s, u, id))
  {
    var t := Retire(s, u, id);
    if t != s {
      var ids := s.streams[u].resourceIDs;
      var k := IndexOf(ids, id);
      assert ids == ids[..k] + ids[k..];
      forall v <- t.streams ensures StreamOk(t, v) {
        assert StreamOk(s, v);
        StreamShortened(s, t, v);
      }
      forall x <- t.frames ensures FrameOk(t, x) { assert FrameOk(s, x); }
    }
  }

  // ---- Runs ----

  datatype Step =
    | IngestsVideo(input: Input)
    | IngestsAlpha(input: Input, pixels: Pixels, wellFormed: bool)
    | Announces(grant: Grant)
    | Measures(trims: bool, lease: Option<LeaseID>)
    | Pairs
    | Decodes(surface: Surface, serial: nat, id: Resource, video: Pixels)
    | TakesReservation(made: bool)
    | Finishes
    | RecordsFailure
    | RemovesSurface(surface: Surface)
    | Resets
    | RemovesAll
    | Resolves(id: Resource, fits: bool)
    | Fails(token: nat)

  predicate Does(s: Store, step: Step)
    requires s.work.Some?
  {
    match s.work.value
    case Announcing(_) => step.Announces?
    case Measuring(_, _, _) => step.Measures?
    case Pairing(_, _) => step.Pairs?
    case Publishing(_, _, _, _, _, _, lease) => if lease.Some? then step.Finishes? else step.TakesReservation?
    case Failing(_, _) => step.RecordsFailure?
  }

  /** The decode queue does one thing after another, and what was put on it after a reset
      comes after the reset. The user interface acts at any time, also between two sections. */
  predicate Allowed(s: Store, step: Step) {
    match step
    case RemovesAll => true
    case Resolves(_, _) => true
    case Fails(_) => true
    case IngestsVideo(i) => s.work.None? && (i.token == s.generation ==> s.resets == 0)
    case IngestsAlpha(i, _, _) => s.work.None? && (i.token == s.generation ==> s.resets == 0)
    case Decodes(_, _, _, _) => s.work.None?
    case RemovesSurface(_) => s.work.None?
    case Resets => s.work.None? && s.resets > 0
    case _ => s.work.Some? && Does(s, step)
  }

  function After(s: Store, step: Step, maximumStreams: nat): Store
    requires Allowed(s, step)
  {
    match step
    case IngestsVideo(i) => Begin(s, i, Announcing(i), maximumStreams)
    case IngestsAlpha(i, pixels, wellFormed) => Begin(s, i, Measuring(i, pixels, wellFormed), maximumStreams)
    case Announces(g) => Announce(s, g)
    case Measures(trims, lease) => Measure(s, trims, lease)
    case Pairs => Pair(s)
    case Decodes(surface, serial, id, video) => ReceiveDecoded(s, surface, serial, id, video)
    case TakesReservation(made) => TakeReservation(s, made)
    case Finishes => Finish(s)
    case RecordsFailure => RecordFailure(s)
    case RemovesSurface(surface) => RemoveSurface(s, surface)
    case Resets => Reset(s)
    case RemovesAll => RemoveAll(s)
    case Resolves(id, fits) => Resolve(s, id, fits).0
    case Fails(token) => Fail(s, token)
  }

  lemma AfterOk(s: Store, step: Step, maximumStreams: nat)
    requires StoreOk(s) && Allowed(s, step)
    ensures StoreOk(After(s, step, maximumStreams))
  {
    match step
    case IngestsVideo(i) => BeginOk(s, i, Announcing(i), maximumStreams);
    case IngestsAlpha(i, pixels, wellFormed) => BeginOk(s, i, Measuring(i, pixels, wellFormed), maximumStreams);
    case Announces(g) => AnnounceOk(s, g);
    case Measures(trims, lease) => MeasureOk(s, trims, lease);
    case Pairs => PairOk(s);
    case Decodes(surface, serial, id, video) => ReceiveDecodedOk(s, surface, serial, id, video);
    case TakesReservation(made) => TakeReservationOk(s, made);
    case Finishes => FinishOk(s);
    case RecordsFailure => RecordFailureOk(s);
    case RemovesSurface(surface) => RemoveSurfaceOk(s, surface);
    case Resets =>
    case RemovesAll => RemoveAllOk(s);
    case Resolves(id, fits) => ResolveOk(s, id, fits);
    case Fails(token) => FailOk(s, token);
  }

  predicate Reaches(s: Store, steps: seq<Step>, end: Store, maximumStreams: nat)
    decreases |steps|
  {
    if steps == [] then end == s
    else Allowed(s, steps[0]) && Reaches(After(s, steps[0], maximumStreams), steps[1..], end, maximumStreams)
  }

  lemma {:induction false} RunOk(s: Store, steps: seq<Step>, end: Store, maximumStreams: nat)
    requires StoreOk(s) && Reaches(s, steps, end, maximumStreams)
    ensures StoreOk(end)
    decreases |steps|
  {
    if steps != [] {
      AfterOk(s, steps[0], maximumStreams);
      RunOk(After(s, steps[0], maximumStreams), steps[1..], end, maximumStreams);
    }
  }

  /** No frame announced with an alpha plane is ever stored without one, every stored frame is
      listed by the stream it came from, and every stream lists at most twelve, each once. */
  lemma AlphaIsNeverLost(steps: seq<Step>, end: Store, maximumStreams: nat)
    requires Reaches(NewStore, steps, end, maximumStreams)
    ensures forall id <- end.frames :: end.frames[id].wanted ==> end.frames[id].alpha.Some?
    ensures forall id <- end.frames :: end.frames[id].surface in end.streams && id in end.streams[end.frames[id].surface].resourceIDs
    ensures forall u <- end.streams :: |end.streams[u].resourceIDs| <= MAXIMUM_FRAMES && Distinct(end.streams[u].resourceIDs)
  {
    RunOk(NewStore, steps, end, maximumStreams);
    assert forall id <- end.frames :: FrameOk(end, id);
    assert forall u <- end.streams :: StreamOk(end, u);
  }

  // ---- What is pending ----

  /** A stream that is decoded from now holds something for a frame that is not pending. */
  predicate Strayed(s: Store, u: Surface) { u in s.streams && Current(s, u) && !TrackOk(s.streams[u]) }

  /** The packet that does it: a picture that got its pixels and asks for an alpha plane to be
      used again when there is none of its size, under a number that is not pending. */
  predicate LeavesStray(s: Store, step: Step, u: Surface) {
    && step.Announces? && s.work.Some? && s.work.value.Announcing? && Refuses(s, step.grant, u)
    && Current(s, u) && s.work.value.input.id !in s.streams[u].pendingIDs
  }

  predicate Refuses(s: Store, g: Grant, u: Surface)
    requires s.work.Some? && s.work.value.Announcing?
  {
    && s.work.value.input.surface == u && u in s.streams
    && var i, st := s.work.value.input, s.streams[u];
       && (st.codec.None? || st.codec.value == i.codec)
       && (if st.decoderLease.Some? then g.resized else g.decoder.Some?) && g.frame.Some?
       && i.hasAlpha && i.reuses && !(st.lastAlpha.Some? && i.sameSize)
  }

  /** Steps that neither record a failure of this generation nor end it. */
  predicate Spares(s: Store, step: Step) { step.Resolves? || (step.Fails? && step.token != s.generation) }

  lemma NoStray(s: Store, u: Surface)
    requires StoreOk(s) && Strays(s, u) == {}
    ensures !Strayed(s, u)
  {
    if u in s.streams {
      assert StreamOk(s, u);
      assert Settled(s, u, s.streams[u]) == s.streams[u];
    }
  }

  /** What the announcement of a frame leaves of a failure. */
  lemma StrayIs(s: Store, g: Grant, u: Surface)
    requires s.work.Some? && s.work.value.Announcing?
    ensures var t, i := Announce(s, g), s.work.value.input;
            && t.generation == s.generation && t.failed == s.failed
            && if Refuses(s, g, u)
               then Strays(t, u) == {i.id} && SameButReservation(s.streams[u], t.streams[u], i.id)
               else Strays(t, u) == {}
  {
  }

  predicate SameButReservation(st: Stream, st': Stream, id: Resource) {
    && st'.pendingIDs == st.pendingIDs && st'.generation == st.generation
    && id in st'.reservations
  }

  lemma AnnounceStrays(s: Store, g: Grant, u: Surface)
    requires StoreOk(s) && s.work.Some? && s.work.value.Announcing?
    ensures Strayed(Announce(s, g), u) <==> LeavesStray(s, Announces(g), u)
  {
    AnnounceOk(s, g);
    StrayIs(s, g, u);
    if Refuses(s, g, u) { StrayTracked(Announce(s, g), u, s.work.value.input.id); } else { NoStray(Announce(s, g), u); }
  }

  lemma StrayTracked(t: Store, u: Surface, id: Resource)
    requires StoreOk(t) && u in t.streams && Strays(t, u) == {id} && id in t.streams[u].reservations
    ensures Strayed(t, u) <==> Current(t, u) && id !in t.streams[u].pendingIDs
  {
    assert StreamOk(t, u);
    var st := t.streams[u];
    assert forall x <- st.reservations :: x == id || x in Settled(t, u, st).reservations;
  }

  lemma ResolveStrays(s: Store, id: Resource, fits: bool, u: Surface)
    ensures Strayed(Resolve(s, id, fits).0, u) <==> Strayed(s, u)
  {
  }

  lemma StepStrays(s: Store, step: Step, maximumStreams: nat, u: Surface)
    requires StoreOk(s) && Allowed(s, step)
    ensures Strayed(After(s, step, maximumStreams), u) <==> LeavesStray(s, step, u) || (Strayed(s, u) && Spares(s, step))
  {
    AfterOk(s, step, maximumStreams);
    match step
    case Announces(g) => AnnounceStrays(s, g, u);
    case Resolves(id, fits) => ResolveStrays(s, id, fits, u);
    case Fails(token) =>
    case RemovesAll => if u in s.streams { assert StreamOk(s, u); }
    case _ =>
      OtherStrays(s, step, maximumStreams, u);
      NoStray(After(s, step, maximumStreams), u);
  }

  lemma OtherStrays(s: Store, step: Step, maximumStreams: nat, u: Surface)
    requires Allowed(s, step) && !step.Announces? && !step.Resolves? && !step.Fails? && !step.RemovesAll?
    ensures Strays(After(s, step, maximumStreams), u) == {}
  {
  }

  predicate AllSpare(s: Store, steps: seq<Step>, maximumStreams: nat)
    decreases |steps|
  {
    steps == []
    || (Allowed(s, steps[0]) && Spares(s, steps[0]) && AllSpare(After(s, steps[0], maximumStreams), steps[1..], maximumStreams))
  }

  /** Such a packet was announced, and its failure has not been recorded since. */
  predicate LeftStray(s: Store, steps: seq<Step>, maximumStreams: nat, u: Surface)
    decreases |steps|
  {
    && steps != [] && Allowed(s, steps[0])
    && var t := After(s, steps[0], maximumStreams);
       || (LeavesStray(s, steps[0], u) && AllSpare(t, steps[1..], maximumStreams))
       || LeftStray(t, steps[1..], maximumStreams, u)
  }

  lemma {:induction false} RunStrays(s: Store, steps: seq<Step>, end: Store, maximumStreams: nat, u: Surface)
    requires StoreOk(s) && Reaches(s, steps, end, maximumStreams)
    ensures Strayed(end, u) <==> LeftStray(s, steps, maximumStreams, u) || (Strayed(s, u) && AllSpare(s, steps, maximumStreams))
    decreases |steps|
  {
    if steps != [] {
      AfterOk(s, steps[0], maximumStreams);
      StepStrays(s, steps[0], maximumStreams, u);
      RunStrays(After(s, steps[0], maximumStreams), steps[1..], end, maximumStreams, u);
    }
  }

  /** While decoding has not failed, planes, decoded frames, reservations and expectations are
      only held for at most 24 pending frames of each stream, except for the reservation of an
      announcement that failed after it was made and is about to be recorded as a failure.
      That exception is there exactly if the packet that causes it was announced last. */
  lemma PendingIsBounded(steps: seq<Step>, end: Store, maximumStreams: nat, surface: Surface)
    requires Reaches(NewStore, steps, end, maximumStreams)
    requires surface in end.streams && !end.failed && end.streams[surface].generation == end.generation
    ensures TrackOk(Settled(end, surface, end.streams[surface]))
    ensures TrackOk(end.streams[surface]) <==> !LeftStray(NewStore, steps, maximumStreams, surface)
  {
    RunOk(NewStore, steps, end, maximumStreams);
    assert StreamOk(end, surface);
    RunStrays(NewStore, steps, end, maximumStreams, surface);
  }

  /** That exception is real: a first picture that asks for an alpha plane to be used again
      leaves its reservation behind until the failure is recorded. */
  lemma StrayReservation(lease: LeaseID)
    ensures var i := Input(0, 0, 0, 0, 5, true, true, true);
            var entered := After(NewStore, IngestsVideo(i), 1);
            && Allowed(NewStore, IngestsVideo(i)) && Allowed(entered, Announces(Grant(false, Some(lease), true, Some(lease + 1))))
            && var end := After(entered, Announces(Grant(false, Some(lease), true, Some(lease + 1))), 1);
               && !end.failed && 0 in end.streams && end.streams[0].generation == end.generation
               && 5 in end.streams[0].reservations && 5 !in end.streams[0].pendingIDs
  {
  }

  // ---- Making room ----

  function Latest(st: Stream): Resource
    requires st.resourceIDs != []
  {
    st.resourceIDs[|st.resourceIDs| - 1]
  }

  /** Making room spares the latest frame of a stream exactly if every other stream that lists
      its number has it as the latest too. */
  lemma LatestSurvives(steps: seq<Step>, s: Store, maximumStreams: nat, surface: Surface)
    requires Reaches(NewStore, steps, s, maximumStreams)
    requires surface in s.streams && s.streams[surface].resourceIDs != [] && Latest(s.streams[surface]) in s.frames
    ensures var latest := Latest(s.streams[surface]);
            && Trim(s).streams[surface].resourceIDs == [latest]
            && (latest in Trim(s).frames
                <==> forall v <- s.streams :: latest in s.streams[v].resourceIDs ==> Latest(s.streams[v]) == latest)
            && (latest in Trim(s).frames ==> Trim(s).frames[latest] == s.frames[latest])
  {
    RunOk(NewStore, steps, s, maximumStreams);
    var latest := Latest(s.streams[surface]);
    forall v <- s.streams
      ensures latest in Prefix(s.streams[v].resourceIDs, 1)
              <==> latest in s.streams[v].resourceIDs && Latest(s.streams[v]) != latest
    {
      assert StreamOk(s, v);
      LatestOrOlder(s.streams[v].resourceIDs, latest);
    }
  }

  lemma LatestOrOlder(ids: seq<Resource>, id: Resource)
    requires Distinct(ids)
    ensures id in Prefix(ids, 1) <==> id in ids && ids[|ids| - 1] != id
  {
    if ids != [] { assert ids == Prefix(ids, 1) + [ids[|ids| - 1]]; }
  }
}
