/** Runs of the frame store in which it does not do what the source says of it. */
module FrameCases {
  import opened Wrappers
  import opened RemoteFrames
  import opened FrameRuns
  import opened FrameArrivals

  // ---- One picture from its packet to the store ----

  function Plain(u: Surface, token: nat, epoch: nat, id: Resource): Input { Input(u, token, epoch, 0, id, false, false, false) }

  /** The sections of a picture after its first. */
  function Rest(u: Surface, serial: nat, id: Resource): seq<Step> {
    [Announces(Grant(false, Some(0), true, Some(1))), Decodes(u, serial, id, 0), TakesReservation(true), Finishes]
  }

  predicate Begun(s: Store, u: Surface, id: Resource) {
    && s.work.Some? && s.work.value.Announcing? && s.work.value.input == Plain(u, s.generation, s.work.value.input.epoch, id)
    && u in s.streams && s.streams[u].generation == s.generation && !s.failed
    && (s.streams[u].codec.None? || s.streams[u].codec.value == 0)
    && s.streams[u].pendingIDs == [] && |s.streams[u].resourceIDs| < MAXIMUM_FRAMES
    && !Passed(s, u, id)
  }

  lemma NothingToLose(ids: seq<Resource>, id: Resource)
    requires |ids| < MAXIMUM_FRAMES
    ensures Oldest(ids, id, MAXIMUM_FRAMES) == [] && Newest(ids, id, MAXIMUM_FRAMES) == Without(ids, id) + [id]
    ensures Without([id], id) == [] && Newest([], id, MAXIMUM_PENDING) == [id] && Oldest([], id, MAXIMUM_PENDING) == []
  {
    WithoutIs(ids, id);
    assert [id][1..] == [];
    assert [] + [id] == [id];
  }

  lemma AnnouncedPlain(st: Stream, id: Resource)
    requires st.pendingIDs == []
    ensures var st' := Announced(st, id, 1, false, None);
            && st' == st.(pendingIDs := [id], expectedAlpha := st'.expectedAlpha, withAlpha := st'.withAlpha,
                          alphaPlanes := st'.alphaPlanes, reservations := st'.reservations, pendingVideo := st'.pendingVideo)
            && id !in st'.expectedAlpha && id !in st'.withAlpha && id !in st'.alphaPlanes
            && id in st'.reservations && st'.reservations[id] == 1
  {
    NothingToLose([], id);
  }

  /** A picture with its pixels reserved and no alpha plane to wait for. */
  predicate Reserved(s: Store, u: Surface, id: Resource) {
    && u in s.streams && s.streams[u].generation == s.generation && !s.failed && !Passed(s, u, id)
    && var st := s.streams[u];
       && st.pendingIDs == [id] && id !in st.expectedAlpha && id !in st.withAlpha && id !in st.alphaPlanes
       && id in st.reservations && st.reservations[id] == 1
  }

  /** The same in the store and on the way to it: all but what was held for this picture. */
  predicate SameList(s: Store, t: Store, u: Surface) {
    && u in s.streams && u in t.streams && t == s.(work := t.work, streams := s.streams[u := t.streams[u]])
    && var st, st' := s.streams[u], t.streams[u];
       && SameWay(st, st') && st'.resourceIDs == st.resourceIDs && st'.generation == st.generation && st'.epoch == st.epoch
  }

  lemma AnnounceReservesIt(s: Store, u: Surface, id: Resource)
    requires Begun(s, u, id)
    ensures var t := Announce(s, Grant(false, Some(0), true, Some(1)));
            t.work == None && SameList(s, t, u) && Reserved(t, u, id) && t.streams[u].codec == Some(0)
  {
    var st := s.streams[u].(codec := Some(0));
    var ready := if st.decoderLease.Some? then st else st.(decoderLease := Some(0));
    AnnouncedPlain(ready, id);
  }

  lemma DecodedGoesOn(s: Store, u: Surface, id: Resource)
    requires s.work == None && Reserved(s, u, id)
    ensures var t := ReceiveDecoded(s, u, s.streams[u].serial, id, 0);
            && t.work == Some(Publishing(u, s.streams[u].serial, s.generation, id, 0, None, None))
            && SameList(s, t, u) && Reserved(t, u, id) && t.streams[u].codec == s.streams[u].codec
  {
  }

  lemma TakenGoesOn(s: Store, u: Surface, id: Resource)
    requires Reserved(s, u, id) && s.work == Some(Publishing(u, s.streams[u].serial, s.generation, id, 0, None, None))
    ensures var t := TakeReservation(s, true);
            && t.work == Some(Publishing(u, s.streams[u].serial, s.generation, id, 0, None, Some(1)))
            && SameList(s, t, u) && t.streams[u].codec == s.streams[u].codec && id !in t.streams[u].withAlpha
            && t.streams[u].pendingIDs == [id]
  {
  }

  lemma FinishIs(s: Store, u: Surface, id: Resource)
    requires u in s.streams && s.streams[u].generation == s.generation && !s.failed && !Passed(s, u, id)
    requires s.work == Some(Publishing(u, s.streams[u].serial, s.generation, id, 0, None, Some(1)))
    requires s.streams[u].pendingIDs == [id] && id !in s.streams[u].withAlpha && |s.streams[u].resourceIDs| < MAXIMUM_FRAMES
    ensures Finish(s) == s.(work := None, frames := s.frames[id := Stored(u, 0, None, false, 1)],
                            streams := s.streams[u := s.streams[u].(publishedThrough := Some(id), pendingIDs := [],
                                                                    resourceIDs := Without(s.streams[u].resourceIDs, id) + [id])])
  {
    NothingToLose(s.streams[u].resourceIDs, id);
  }

  /** A picture that gets its pixels, is decoded and has no alpha plane is stored. */
  lemma RestStores(s: Store, u: Surface, id: Resource, maximumStreams: nat) returns (t: Store)
    requires Begun(s, u, id)
    ensures Reaches(s, Rest(u, s.streams[u].serial, id), t, maximumStreams)
    ensures u in t.streams && t.streams == s.streams[u := t.streams[u]]
    ensures t == s.(streams := t.streams, frames := s.frames[id := Stored(u, 0, None, false, 1)], work := None)
    ensures t.streams[u].resourceIDs == Without(s.streams[u].resourceIDs, id) + [id] && t.streams[u].publishedThrough == Some(id)
    ensures t.streams[u].serial == s.streams[u].serial && t.streams[u].generation == s.generation
    ensures t.streams[u].pendingIDs == [] && t.streams[u].codec == Some(0) && t.streams[u].epoch == s.streams[u].epoch
  {
    var steps := Rest(u, s.streams[u].serial, id);
    var announced := Announce(s, steps[0].grant);
    AnnounceReservesIt(s, u, id);
    var decoded := ReceiveDecoded(announced, u, s.streams[u].serial, id, 0);
    DecodedGoesOn(announced, u, id);
    var taken := TakeReservation(decoded, true);
    TakenGoesOn(decoded, u, id);
    t := Finish(taken);
    FinishIs(taken, u, id);
    RestReaches(s, steps, announced, decoded, taken, t, maximumStreams);
  }

  lemma RestReaches(s: Store, steps: seq<Step>, a: Store, b: Store, c: Store, t: Store, maximumStreams: nat)
    requires |steps| == 4 && Allowed(s, steps[0]) && a == After(s, steps[0], maximumStreams)
    requires Allowed(a, steps[1]) && b == After(a, steps[1], maximumStreams)
    requires Allowed(b, steps[2]) && c == After(b, steps[2], maximumStreams)
    requires Allowed(c, steps[3]) && t == After(c, steps[3], maximumStreams)
    ensures Reaches(s, steps, t, maximumStreams)
  {
    assert Reaches(c, steps[3..], t, maximumStreams);
    assert steps[2..][1..] == steps[3..] && steps[1..][1..] == steps[2..];
    assert Reaches(b, steps[2..], t, maximumStreams);
    assert Reaches(a, steps[1..], t, maximumStreams);
  }

  lemma {:induction false} ReachesOn(s: Store, steps: seq<Step>, t: Store, more: seq<Step>, end: Store, maximumStreams: nat)
    requires Reaches(s, steps, t, maximumStreams) && Reaches(t, more, end, maximumStreams)
    ensures Reaches(s, steps + more, end, maximumStreams)
    decreases |steps|
  {
    if steps == [] {
      assert [] + more == more;
    } else {
      ReachesOn(After(s, steps[0], maximumStreams), steps[1..], t, more, end, maximumStreams);
      assert (steps + more)[1..] == steps[1..] + more;
    }
  }

  lemma Then(s: Store, step: Step, t: Store, more: seq<Step>, end: Store, maximumStreams: nat)
    requires Allowed(s, step) && t == After(s, step, maximumStreams) && Reaches(t, more, end, maximumStreams)
    ensures Reaches(s, [step] + more, end, maximumStreams)
  {
    assert ([step] + more)[1..] == more;
  }

  /** All sections of a picture of the current epoch. */
  function Picture(u: Surface, token: nat, serial: nat, id: Resource): seq<Step> {
    [IngestsVideo(Plain(u, token, 0, id))] + Rest(u, serial, id)
  }

  predicate Waits(s: Store) { s.work == None && s.resets == 0 && !s.failed && s.destroyed == {} }

  /** A stream that can take a picture with this number. */
  predicate Ready(st: Stream, generation: nat, id: Resource) {
    && st.generation == generation && (st.codec.None? || st.codec.value == 0) && st.pendingIDs == []
    && |st.resourceIDs| < MAXIMUM_FRAMES && (st.publishedThrough.Some? ==> !Ahead(st.publishedThrough.value, id))
  }

  /** The store once a picture is in it. */
  predicate Shown(s: Store, t: Store, u: Surface, st: Stream, id: Resource, serials: nat) {
    && u in t.streams && t.streams == s.streams[u := t.streams[u]]
    && t == s.(streams := t.streams, frames := s.frames[id := Stored(u, 0, None, false, 1)], serials := serials)
    && t.streams[u].resourceIDs == Without(st.resourceIDs, id) + [id] && t.streams[u].publishedThrough == Some(id)
    && t.streams[u].serial == st.serial && t.streams[u].generation == s.generation
    && t.streams[u].pendingIDs == [] && t.streams[u].codec == Some(0) && t.streams[u].epoch == st.epoch
  }

  lemma PictureStores(s: Store, u: Surface, id: Resource, maximumStreams: nat) returns (t: Store)
    requires Waits(s) && u in s.streams && Ready(s.streams[u], s.generation, id)
    ensures Reaches(s, Picture(u, s.generation, s.streams[u].serial, id), t, maximumStreams)
    ensures Waits(t) && Shown(s, t, u, s.streams[u], id, s.serials)
  {
    var first := IngestsVideo(Plain(u, s.generation, 0, id));
    var begun := After(s, first, maximumStreams);
    t := RestStores(begun, u, id, maximumStreams);
    Then(s, first, begun, Rest(u, s.streams[u].serial, id), t, maximumStreams);
  }

  lemma FirstPictureStores(s: Store, u: Surface, id: Resource, maximumStreams: nat) returns (t: Store)
    requires Waits(s) && u !in s.streams && |s.streams| < maximumStreams
    ensures Reaches(s, Picture(u, s.generation, s.serials, id), t, maximumStreams)
    ensures Waits(t) && Shown(s, t, u, NewStream(s.serials, s.generation), id, s.serials + 1)
  {
    var first := IngestsVideo(Plain(u, s.generation, 0, id));
    var begun := After(s, first, maximumStreams);
    assert begun.streams[u] == NewStream(s.serials, s.generation);
    t := RestStores(begun, u, id, maximumStreams);
    Then(s, first, begun, Rest(u, s.serials, id), t, maximumStreams);
  }

  // ---- The cases ----

  /** A layer is told that its frame is unavailable, and then it is stored. */
  predicate ComesAfterAll(before: seq<Step>, s: Store, after: seq<Step>, end: Store, u: Surface, id: Resource) {
    && Reaches(NewStore, before, s, 1) && LayerStatus(s, u, id).Unavailable? && id !in s.frames
    && Reaches(s, after, end, 1) && StoredFor(end, u, id)
  }

  lemma Remembered(stored: Store, u: Surface, id: Resource, epoch: nat)
    requires Waits(stored) && Shown(NewStore, stored, u, NewStream(0, 0), id, 1) && epoch > 0
    ensures var again := IngestsVideo(Plain(u, 0, epoch, id)); Allowed(stored, again) && var s := After(stored, again, 1);
            && Begun(s, u, id) && s.streams[u].serial == 0 && LayerStatus(s, u, id).Unavailable? && id !in s.frames
  {
    assert stored.streams[u].resourceIDs == [] + [id] == [id];
  }

  /** A layer asks for a frame after a new epoch dropped it, is told that it will not come, and
      it comes: the number was being sent again. */
  lemma NumberAgain(u: Surface, id: Resource, epoch: nat)
    requires epoch > 0
    ensures exists s, end ::
              ComesAfterAll(Picture(u, 0, 0, id) + [IngestsVideo(Plain(u, 0, epoch, id))], s, Rest(u, 0, id), end, u, id)
  {
    var again := IngestsVideo(Plain(u, 0, epoch, id));
    var stored := FirstPictureStores(NewStore, u, id, 1);
    Remembered(stored, u, id, epoch);
    var s := After(stored, again, 1);
    var end := RestStores(s, u, id, 1);
    Last(NewStore, Picture(u, 0, 0, id), stored, again, s, 1);
    assert ComesAfterAll(Picture(u, 0, 0, id) + [again], s, Rest(u, 0, id), end, u, id);
  }

  lemma Last(s: Store, steps: seq<Step>, t: Store, step: Step, end: Store, maximumStreams: nat)
    requires Reaches(s, steps, t, maximumStreams) && Allowed(t, step) && end == After(t, step, maximumStreams)
    ensures Reaches(s, steps + [step], end, maximumStreams)
  {
    Then(t, step, end, [], end, maximumStreams);
    assert [step] + [] == [step];
    ReachesOn(s, steps, t, [step], end, maximumStreams);
  }

  lemma Emptied(stored: Store, u: Surface, id: Resource)
    requires Waits(stored) && Shown(NewStore, stored, u, NewStream(0, 0), id, 1)
    ensures var s := After(stored, RemovesAll, 1);
            && LayerStatus(s, u, id).Unavailable? && id !in s.frames && Allowed(s, Resets)
            && var reset := After(s, Resets, 1);
               Waits(reset) && reset.streams == map[] && reset.generation == reset.serials == 1
  {
  }

  /** Between a reset and the removal of its streams a layer is told by the stream of the old
      connection that its frame will not come, and the new connection sends it. */
  lemma ToldByOldStream(u: Surface, id: Resource)
    ensures exists s, end ::
              ComesAfterAll(Picture(u, 0, 0, id) + [RemovesAll], s, [Resets] + Picture(u, 1, 1, id), end, u, id)
  {
    var stored := FirstPictureStores(NewStore, u, id, 1);
    Emptied(stored, u, id);
    var s := After(stored, RemovesAll, 1);
    var reset := After(s, Resets, 1);
    var end := FirstPictureStores(reset, u, id, 1);
    Last(NewStore, Picture(u, 0, 0, id), stored, RemovesAll, s, 1);
    Then(s, Resets, reset, Picture(u, 1, 1, id), end, 1);
    assert ComesAfterAll(Picture(u, 0, 0, id) + [RemovesAll], s, [Resets] + Picture(u, 1, 1, id), end, u, id);
  }

  /** Making room drops the only frame of a surface. */
  predicate LosesLatest(steps: seq<Step>, s: Store, v: Surface, id: Resource) {
    && Reaches(NewStore, steps, s, 2)
    && v in s.streams && s.streams[v].resourceIDs == [id] && StoredFor(s, v, id) && id !in Trim(s).frames
  }

  lemma TwoPictures(u: Surface, id: Resource, next: Resource) returns (b: Store)
    requires id != next && !Ahead(id, next)
    ensures Reaches(NewStore, Picture(u, 0, 0, id) + Picture(u, 0, 0, next), b, 2)
    ensures Waits(b) && b.streams.Keys == {u} && b.serials == 1 && b.generation == 0
    ensures id in Prefix(b.streams[u].resourceIDs, 1)
  {
    var a := FirstPictureStores(NewStore, u, id, 2);
    OneListed(a.streams[u].resourceIDs, id, next);
    b := PictureStores(a, u, next, 2);
    ReachesOn(NewStore, Picture(u, 0, 0, id), a, Picture(u, 0, 0, next), b, 2);
  }

  /** One surface published a number and a newer one, then another surface published the first:
      making room drops that, the only frame the other surface has. */
  lemma SharedNumber(u: Surface, v: Surface, id: Resource, next: Resource)
    requires u != v && id != next && !Ahead(id, next)
    ensures exists s :: LosesLatest(Picture(u, 0, 0, id) + Picture(u, 0, 0, next) + Picture(v, 0, 1, id), s, v, id)
  {
    var b := TwoPictures(u, id, next);
    var s := FirstPictureStores(b, v, id, 2);
    ReachesOn(NewStore, Picture(u, 0, 0, id) + Picture(u, 0, 0, next), b, Picture(v, 0, 1, id), s, 2);
    BothListed(b, s, u, v, id, next);
    assert LosesLatest(Picture(u, 0, 0, id) + Picture(u, 0, 0, next) + Picture(v, 0, 1, id), s, v, id);
  }

  lemma BothListed(b: Store, s: Store, u: Surface, v: Surface, id: Resource, next: Resource)
    requires u != v && u in b.streams && Shown(b, s, v, NewStream(1, 0), id, 2)
    requires id in Prefix(b.streams[u].resourceIDs, 1)
    ensures s.streams[v].resourceIDs == [id] && StoredFor(s, v, id) && id !in Trim(s).frames
  {
    assert s.streams[u] == b.streams[u];
    assert s.streams[v].resourceIDs == [] + [id];
  }

  lemma OneListed(ids: seq<Resource>, id: Resource, next: Resource)
    requires ids == Without([], id) + [id] && id != next
    ensures ids == [id] && Without(ids, next) + [next] == [id, next] && id in Prefix(Without(ids, next) + [next], 1)
  {
    assert ids == [] + [id] && [id][1..] == [];
    assert Without([id], next) == [id] + Without([], next);
    assert [id, next][..1] == [id];
  }
}
