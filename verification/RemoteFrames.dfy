/** Decoded frames of a remote connection: which are pending, which are kept, and the pairing
    of colour with alpha. The decoder works on one queue; the user interface looks and resets
    at any moment between two lock sections. */
module RemoteFrames {
  import opened Wrappers

  const MAXIMUM_FRAMES := 12
  const MAXIMUM_PENDING := 24
  const IDS := 0x1_0000_0000

  type Surface = nat
  type Resource = id: nat | id < IDS
  type Pixels = int
  type LeaseID = nat

  /** An alpha plane and the lease on its bytes. */
  datatype Plane = Plane(pixels: Pixels, lease: LeaseID)

  /** `withAlpha` is history: the resources last announced as having an alpha plane. Streams
      are numbered as they are made. */
  datatype Stream = Stream(
    serial: nat,
    generation: nat,
    epoch: nat,
    codec: Option<nat>,
    decoderLease: Option<LeaseID>,
    resourceIDs: seq<Resource>,
    publishedThrough: Option<Resource>,
    pendingIDs: seq<Resource>,
    expectedAlpha: set<Resource>,
    alphaPlanes: map<Resource, Plane>,
    lastAlpha: Option<Plane>,
    pendingVideo: map<Resource, Pixels>,
    reservations: map<Resource, LeaseID>,
    withAlpha: set<Resource>)

  /** `wanted` is history: whether the frame was announced with an alpha plane. */
  datatype Stored = Stored(surface: Surface, video: Pixels, alpha: Option<Pixels>, wanted: bool, lease: LeaseID)

  /** A media packet; `sameSize` is whether the last alpha plane has the frame's size. */
  datatype Input = Input(surface: Surface, token: nat, epoch: nat, codec: nat, id: Resource,
                         hasAlpha: bool, reuses: bool, sameSize: bool)

  /** A reservation that was made for a frame its stream does not track. */
  datatype Stray = Stray(surface: Surface, id: Resource)

  /** What the decode queue does next, having left one lock section for another. A frame to be
      published has a `lease` once it took its pixels; a failure is recorded for the generation
      in which it happened. */
  datatype Work =
    | Announcing(input: Input)
    | Measuring(input: Input, pixels: Pixels, wellFormed: bool)
    | Pairing(input: Input, plane: Plane)
    | Publishing(surface: Surface, serial: nat, generation: nat, id: Resource, video: Pixels, alpha: Option<Plane>,
                 lease: Option<LeaseID>)
    | Failing(token: nat, stray: Option<Stray>)

  datatype Store = Store(
    streams: map<Surface, Stream>,
    frames: map<Resource, Stored>,
    destroyed: set<Surface>,
    generation: nat,
    failed: bool,
    work: Option<Work>,
    resets: nat,
    serials: nat)

  const NewStore := Store(map[], map[], {}, 0, false, None, 0, 0)

  // ---- Sequences of identifiers ----

  function Without(ids: seq<Resource>, id: Resource): seq<Resource> {
    if ids == [] then []
    else if ids[0] == id then Without(ids[1..], id)
    else [ids[0]] + Without(ids[1..], id)
  }

  predicate Distinct(ids: seq<Resource>) { forall j, k :: 0 <= j < k < |ids| ==> ids[j] != ids[k] }

  lemma {:induction false} WithoutIs(ids: seq<Resource>, id: Resource)
    ensures forall x :: x in Without(ids, id) <==> x in ids && x != id
    ensures |Without(ids, id)| <= |ids| && (Distinct(ids) ==> Distinct(Without(ids, id)))
  {
    if ids != [] {
      WithoutIs(ids[1..], id);
      assert ids == [ids[0]] + ids[1..];
      var rest := Without(ids[1..], id);
      if Distinct(ids) { assert forall k :: 0 <= k < |rest| ==> rest[k] in ids[1..]; }
    }
  }

  function Suffix(ids: seq<Resource>, n: nat): seq<Resource> { if |ids| <= n then ids else ids[|ids| - n..] }

  function Prefix(ids: seq<Resource>, n: nat): seq<Resource> { if |ids| <= n then [] else ids[..|ids| - n] }

  /** The newest identifiers, with this one last. */
  function Newest(ids: seq<Resource>, id: Resource, n: nat): seq<Resource> { Suffix(Without(ids, id) + [id], n) }

  function Oldest(ids: seq<Resource>, id: Resource, n: nat): seq<Resource> { Prefix(Without(ids, id) + [id], n) }

  lemma NewestIs(ids: seq<Resource>, id: Resource, n: nat)
    requires Distinct(ids) && n > 0
    ensures Distinct(Newest(ids, id, n)) && |Newest(ids, id, n)| <= n && id in Newest(ids, id, n)
    ensures forall x :: x in ids ==> x in Newest(ids, id, n) || x in Oldest(ids, id, n)
    ensures forall x :: x in Newest(ids, id, n) ==> x !in Oldest(ids, id, n) && (x in ids || x == id)
  {
    WithoutIs(ids, id);
    var all, rest := Without(ids, id) + [id], Without(ids, id);
    forall j, k | 0 <= j < k < |all| ensures all[j] != all[k] { if k == |rest| { assert rest[j] in rest; } }
    assert all == Oldest(ids, id, n) + Newest(ids, id, n);
    assert Newest(ids, id, n)[|Newest(ids, id, n)| - 1] == id;
    forall x | x in ids ensures x in all { if x == id { assert all[|rest|] == id; } }
  }

  // ---- Streams ----

  function Forget(st: Stream, ids: seq<Resource>): Stream {
    st.(alphaPlanes := map x | x in st.alphaPlanes && x !in ids :: st.alphaPlanes[x],
        pendingVideo := map x | x in st.pendingVideo && x !in ids :: st.pendingVideo[x],
        reservations := map x | x in st.reservations && x !in ids :: st.reservations[x],
        expectedAlpha := (set x | x in st.expectedAlpha && x !in ids))
  }

  function TrackPending(st: Stream, id: Resource): Stream {
    Forget(st.(pendingIDs := Newest(st.pendingIDs, id, MAXIMUM_PENDING)), Oldest(st.pendingIDs, id, MAXIMUM_PENDING))
  }

  function NewEpoch(st: Stream, epoch: nat): Stream {
    st.(resourceIDs := [], pendingIDs := [], expectedAlpha := {}, alphaPlanes := map[], lastAlpha := None,
        pendingVideo := map[], reservations := map[], epoch := epoch, codec := None, decoderLease := None)
  }

  function WithoutFrames(frames: map<Resource, Stored>, ids: seq<Resource>): map<Resource, Stored> {
    map x | x in frames && x !in ids :: frames[x]
  }

  // ---- Sections of the decode queue ----

  /** A failure of an older generation is not recorded. */
  function Fail(s: Store, token: nat): Store { if s.generation == token then s.(failed := true) else s }

  function RecordFailure(s: Store): Store
    requires s.work.Some? && s.work.value.Failing?
  {
    Fail(s, s.work.value.token).(work := None)
  }

  predicate Accepts(s: Store, surface: Surface, token: nat) {
    s.generation == token && !s.failed && surface !in s.destroyed
  }

  /** The stream of a surface, made when its first input arrives. */
  function Open(s: Store, surface: Surface): Store {
    if surface in s.streams then s
    else
      s.(streams := s.streams[surface := NewStream(s.serials, s.generation)], serials := s.serials + 1)
  }

  function NewStream(serial: nat, generation: nat): Stream {
    Stream(serial, generation, 0, None, None, [], None, [], {}, map[], None, map[], map[], {})
  }

  /** A new epoch forgets the frames and the references of the one before. */
  function Enter(s: Store, surface: Surface, epoch: nat): Store
    requires surface in s.streams
  {
    var st := s.streams[surface];
    if epoch != 0 && epoch != st.epoch
    then s.(streams := s.streams[surface := NewEpoch(st, epoch)], frames := WithoutFrames(s.frames, st.resourceIDs))
    else s
  }

  /** First section of a packet. */
  function Begin(s: Store, i: Input, next: Work, maximumStreams: nat): Store {
    if !Accepts(s, i.surface, i.token) then s
    else if i.surface !in s.streams && |s.streams| >= maximumStreams then s.(work := Some(Failing(i.token, None)))
    else Enter(Open(s, i.surface), i.surface, i.epoch).(work := Some(next))
  }

  /** When pixels run short every stream keeps only its latest frame. */
  function Trim(s: Store): Store {
    s.(frames := map x | x in s.frames && !(exists u <- s.streams :: x in Prefix(s.streams[u].resourceIDs, 1)) :: s.frames[x],
       streams := map u | u in s.streams :: s.streams[u].(resourceIDs := Suffix(s.streams[u].resourceIDs, 1)))
  }

  /** What reserving pixels came to: whether old frames had to go first; the decoder's lease
      if the stream has none yet, or whether the one it has could be resized; and the frame's. */
  datatype Grant = Grant(trims: bool, decoder: Option<LeaseID>, resized: bool, frame: Option<LeaseID>)

  function AfterTrim(s: Store, trims: bool): Store { if trims then Trim(s) else s }

  /** What the announcement of a frame does to its stream, once its pixels are reserved. */
  function Announced(st: Stream, id: Resource, lease: LeaseID, hasAlpha: bool, reuse: Option<Plane>): Stream {
    var reserved := st.(reservations := st.reservations[id := lease]);
    var alpha :=
      if hasAlpha then
        reserved.(expectedAlpha := st.expectedAlpha + {id}, withAlpha := st.withAlpha + {id},
                  alphaPlanes := if reuse.Some? then st.alphaPlanes[id := reuse.value] else st.alphaPlanes)
      else
        reserved.(expectedAlpha := st.expectedAlpha - {id}, withAlpha := st.withAlpha - {id}, alphaPlanes := st.alphaPlanes - {id});
    TrackPending(alpha, id)
  }

  /** Second section of a packet with a picture. The stream is the one the first section found:
      one that is gone is nobody's any more. */
  function Announce(s: Store, g: Grant): Store
    requires s.work.Some? && s.work.value.Announcing?
  {
    var i := s.work.value.input;
    if i.surface !in s.streams then s.(work := None)
    else
      var st := s.streams[i.surface];
      var known := st.(codec := Some(i.codec));
      if st.codec.Some? && st.codec.value != i.codec then
        s.(streams := s.streams[i.surface := known], work := Some(Failing(i.token, None)))
      else if st.decoderLease.Some? && !g.resized then
        s.(streams := s.streams[i.surface := known], work := Some(Failing(i.token, None)))
      else AnnounceKnown(AfterTrim(s.(streams := s.streams[i.surface := known]), g.trims), i, g)
  }

  function AnnounceKnown(s: Store, i: Input, g: Grant): Store
    requires i.surface in s.streams
  {
    var known := s.streams[i.surface];
    var ready := if known.decoderLease.Some? then known else known.(decoderLease := g.decoder);
    if ready.decoderLease.None? || g.frame.None? then
      s.(streams := s.streams[i.surface := ready], work := Some(Failing(i.token, None)))
    else if i.hasAlpha && i.reuses && !(ready.lastAlpha.Some? && i.sameSize) then
      s.(streams := s.streams[i.surface := ready.(reservations := ready.reservations[i.id := g.frame.value])],
         work := Some(Failing(i.token, Some(Stray(i.surface, i.id)))))
    else
      s.(streams := s.streams[i.surface := Announced(ready, i.id, g.frame.value, i.hasAlpha,
                                                     if i.reuses then ready.lastAlpha else None)],
         work := None)
  }

  /** Second section of a packet with an alpha plane, which is decoded after it. */
  function Measure(s: Store, trims: bool, lease: Option<LeaseID>): Store
    requires s.work.Some? && s.work.value.Measuring?
  {
    var m := s.work.value;
    AfterTrim(s, trims).(work := Some(if lease.None? || !m.wellFormed then Failing(m.input.token, None)
                                    else Pairing(m.input, Plane(m.pixels, lease.value))))
  }

  function WithPlane(st: Stream, id: Resource, plane: Plane): Stream {
    TrackPending(st.(alphaPlanes := st.alphaPlanes[id := plane], lastAlpha := Some(plane)), id)
  }

  /** Nothing is held for the frame any more but its pixels. */
  function Taken(st: Stream, id: Resource): Stream {
    st.(pendingVideo := st.pendingVideo - {id}, expectedAlpha := st.expectedAlpha - {id}, alphaPlanes := st.alphaPlanes - {id})
  }

  /** Third section: the plane is held; the frame it completes is published next. */
  function Pair(s: Store): Store
    requires s.work.Some? && s.work.value.Pairing?
  {
    var w := s.work.value;
    var surface, id := w.input.surface, w.input.id;
    if surface !in s.streams || s.streams[surface].generation != s.generation then s.(work := None)
    else
      var tracked := WithPlane(s.streams[surface], id, w.plane);
      if id !in tracked.pendingVideo then s.(streams := s.streams[surface := tracked], work := None)
      else
        s.(streams := s.streams[surface := Taken(tracked, id)],
           work := Some(Publishing(surface, tracked.serial, tracked.generation, id, tracked.pendingVideo[id], Some(w.plane), None)))
  }

  /** The decoder finished a frame: it waits for its alpha plane or goes on to be published. */
  function ReceiveDecoded(s: Store, surface: Surface, serial: nat, id: Resource, video: Pixels): Store {
    if surface !in s.streams || s.streams[surface].serial != serial || s.streams[surface].generation != s.generation
       || id !in s.streams[surface].pendingIDs then s
    else
      var st := s.streams[surface];
      if id in st.expectedAlpha && id !in st.alphaPlanes then
        s.(streams := s.streams[surface := TrackPending(st.(pendingVideo := st.pendingVideo[id := video]), id)])
      else
        var alpha := if id in st.alphaPlanes then Some(st.alphaPlanes[id]) else None;
        s.(streams := s.streams[surface := Taken(st, id)],
           work := Some(Publishing(surface, serial, st.generation, id, video, alpha, None)))
  }

  /** The frame takes the pixels reserved for it; without them, or when its surface cannot be
      made from them, a failure follows. */
  function TakeReservation(s: Store, made: bool): Store
    requires s.work.Some? && s.work.value.Publishing? && s.work.value.lease.None?
  {
    var p := s.work.value;
    if p.surface !in s.streams || s.streams[p.surface].serial != p.serial || p.id !in s.streams[p.surface].reservations
    then s.(work := Some(Failing(p.generation, None)))
    else
      var st := s.streams[p.surface];
      s.(streams := s.streams[p.surface := st.(reservations := st.reservations - {p.id})],
         work := Some(if made then p.(lease := Some(st.reservations[p.id])) else Failing(p.generation, None)))
  }

  /** Resource numbers wrap; a newer one is ahead by less than half of them. */
  predicate Ahead(latest: Resource, id: Resource) { 0 < (latest - id) % IDS < IDS / 2 }

  function Finish(s: Store): Store
    requires s.work.Some? && s.work.value.Publishing? && s.work.value.lease.Some?
  {
    var p, idle := s.work.value, s.(work := None);
    if p.surface !in s.streams || s.streams[p.surface].serial != p.serial
       || s.streams[p.surface].generation != s.generation || s.failed
    then idle
    else
      var st := s.streams[p.surface];
      if st.publishedThrough.Some? && Ahead(st.publishedThrough.value, p.id) then idle
      else
        var after := st.(publishedThrough := Some(p.id), pendingIDs := Without(st.pendingIDs, p.id),
                         resourceIDs := Newest(st.resourceIDs, p.id, MAXIMUM_FRAMES));
        var alpha := if p.alpha.Some? then Some(p.alpha.value.pixels) else None;
        var stored := Stored(p.surface, p.video, alpha, p.id in st.withAlpha, p.lease.value);
        idle.(streams := s.streams[p.surface := after],
              frames := WithoutFrames(s.frames[p.id := stored], Oldest(st.resourceIDs, p.id, MAXIMUM_FRAMES)))
  }

  function RemoveSurface(s: Store, surface: Surface): Store {
    s.(destroyed := s.destroyed + {surface}, streams := s.streams - {surface},
       frames := if surface in s.streams then WithoutFrames(s.frames, s.streams[surface].resourceIDs) else s.frames)
  }

  function Reset(s: Store): Store
    requires s.resets > 0
  {
    s.(streams := map[], frames := map[], destroyed := {}, resets := s.resets - 1)
  }

  // ---- Sections of the user interface ----

  /** Everything goes; the streams follow when the decode queue gets there. */
  function RemoveAll(s: Store): Store {
    s.(generation := s.generation + 1, failed := false, frames := map[], resets := s.resets + 1)
  }

  function IndexOf(ids: seq<Resource>, id: Resource): nat
    ensures IndexOf(ids, id) <= |ids|
    ensures id in ids ==> IndexOf(ids, id) < |ids| && ids[IndexOf(ids, id)] == id
  {
    if ids == [] || ids[0] == id then 0 else 1 + IndexOf(ids[1..], id)
  }

  /** What the user interface learns about a resource. */
  datatype Status = Unpublished | Unavailable | Ready(frame: Stored)

  /** `fits` is whether the frame has the size asked for. A frame in use retires the older ones
      of its stream. */
  function Resolve(s: Store, id: Resource, fits: bool): (Store, Status) {
    if id !in s.frames then (s, Unpublished)
    else if !fits then (s, Unavailable)
    else (Retire(s, s.frames[id].surface, id), Ready(s.frames[id]))
  }

  function Retire(s: Store, surface: Surface, id: Resource): Store {
    if surface !in s.streams || id !in s.streams[surface].resourceIDs then s
    else
      var st := s.streams[surface];
      var k := IndexOf(st.resourceIDs, id);
      s.(streams := s.streams[surface := st.(resourceIDs := st.resourceIDs[k..])],
         frames := WithoutFrames(s.frames, st.resourceIDs[..k]))
  }

  /** A layer whose frame is not there yet is told so only while the frame can still come: not
      once its surface is gone or the stream has got to it or past it. */
  function LayerStatus(s: Store, surface: Surface, id: Resource): Status {
    if surface in s.destroyed then Unavailable
    else if surface in s.streams && s.streams[surface].publishedThrough.Some? && Reached(s.streams[surface].publishedThrough.value, id)
    then Unavailable
    else Unpublished
  }

  predicate Reached(latest: Resource, id: Resource) { (latest - id) % IDS < IDS / 2 }
}
