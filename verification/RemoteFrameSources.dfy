/** The frame store as the object its decode queue and the user interface share; each method
    is one section under its lock. */
module RemoteFrameSources {
  import opened Wrappers
  import opened Collections
  import opened RemoteFrames

  function ExpireOldest(st: Stream): Stream
    requires st.pendingIDs != []
  {
    var expired := st.pendingIDs[0];
    st.(pendingIDs := st.pendingIDs[1..], alphaPlanes := st.alphaPlanes - {expired}, pendingVideo := st.pendingVideo - {expired},
        reservations := st.reservations - {expired}, expectedAlpha := st.expectedAlpha - {expired})
  }

  lemma ForgetOneMore(st: Stream, ids: seq<Resource>, id: Resource)
    ensures Forget(Forget(st, ids), [id]) == Forget(st, ids + [id])
  {
  }

  lemma ExpireNext(st: Stream, all: seq<Resource>, n: nat)
    requires n < |all|
    ensures ExpireOldest(Forget(st.(pendingIDs := all[n..]), all[..n])) == Forget(st.(pendingIDs := all[n + 1..]), all[..n + 1])
  {
    ForgetOneMore(st.(pendingIDs := all[n + 1..]), all[..n], all[n]);
    assert all[..n] + [all[n]] == all[..n + 1] && all[n..][1..] == all[n + 1..];
  }

  lemma ForgetNone(st: Stream)
    ensures Forget(st, []) == st
  {
  }

  /** Once few enough are left the ones dropped are the oldest. */
  lemma TrackEnds(st: Stream, id: Resource, n: nat)
    requires var all := Without(st.pendingIDs, id) + [id];
             n <= |all| && |all| - n <= MAXIMUM_PENDING && (n > 0 ==> |all| - n >= MAXIMUM_PENDING)
    ensures var all := Without(st.pendingIDs, id) + [id];
            Forget(st.(pendingIDs := all[n..]), all[..n]) == TrackPending(st, id)
  {
    var all := Without(st.pendingIDs, id) + [id];
    if n == 0 { assert all[0..] == all && all[..0] == []; } else { assert n == |all| - MAXIMUM_PENDING; }
  }

  /** Tracks a frame as the newest pending one; older ones expire with all that is held for
      them. */
  method Track(st: Stream, id: Resource) returns (tracked: Stream)
    ensures tracked == TrackPending(st, id)
  {
    var all := Without(st.pendingIDs, id) + [id];
    tracked := st.(pendingIDs := all);
    ghost var n := 0;
    ForgetNone(tracked);
    assert all[0..] == all && all[..0] == [];
    while |tracked.pendingIDs| > MAXIMUM_PENDING
      invariant n <= |all| && (n > 0 ==> |all| - n >= MAXIMUM_PENDING)
      invariant tracked == Forget(st.(pendingIDs := all[n..]), all[..n])
      decreases |tracked.pendingIDs|
    {
      ExpireNext(st, all, n);
      tracked := ExpireOldest(tracked);
      n := n + 1;
    }
    TrackEnds(st, id, n);
  }

  class RemoteFrameSource {
    const maximumStreams: nat
    var streams: map<Surface, Stream>
    var frames: map<Resource, Stored>
    var destroyedSurfaces: set<Surface>
    var generation: nat
    var decodingFailed: bool
    /** What the decode queue does between two sections, resets still queued and streams ever
        made. */
    var work: Option<Work>
    var resets: nat
    var serials: nat

    ghost function View(): Store
      reads this
    {
      Store(streams, frames, destroyedSurfaces, generation, decodingFailed, work, resets, serials)
    }

    constructor (maximumStreams: nat)
      ensures View() == NewStore && this.maximumStreams == maximumStreams
    {
      this.maximumStreams := maximumStreams;
      streams, frames, destroyedSurfaces := map[], map[], {};
      generation, decodingFailed, work, resets, serials := 0, false, None, 0, 0;
    }

    method DropFrames(ids: seq<Resource>)
      modifies this`frames
      ensures frames == WithoutFrames(old(frames), ids)
    {
      assert WithoutFrames(frames, []) == frames;
      for k := 0 to |ids|
        invariant frames == WithoutFrames(old(frames), ids[..k])
      {
        assert ids[..k + 1] == ids[..k] + [ids[k]];
        frames := frames - {ids[k]};
      }
      assert ids[..|ids|] == ids;
    }

    /** The stream of a surface, in the epoch of its input. */
    method EnterStream(surface: Surface, epoch: nat)
      modifies this`streams, this`frames, this`serials
      ensures View() == Enter(Open(old(View()), surface), surface, epoch)
    {
      if surface !in streams {
        streams := streams[surface := NewStream(serials, generation)];
        serials := serials + 1;
      }
      var st := streams[surface];
      if epoch != 0 && epoch != st.epoch {
        DropFrames(st.resourceIDs);
        st := st.(resourceIDs := [], pendingIDs := [], expectedAlpha := {}, alphaPlanes := map[], lastAlpha := None);
        st := st.(pendingVideo := map[], reservations := map[], epoch := epoch, codec := None, decoderLease := None);
        streams := streams[surface := st];
      }
    }

    /** First section of a media packet. */
    method BeginPacket(i: Input, next: Work)
      modifies this
      ensures View() == Begin(old(View()), i, next, maximumStreams)
    {
      if generation != i.token || decodingFailed || i.surface in destroyedSurfaces { return; }
      if i.surface !in streams && |streams| >= maximumStreams {
        work := Some(Failing(i.token, None));
        return;
      }
      EnterStream(i.surface, i.epoch);
      work := Some(next);
    }

    method TrimStream(u: Surface)
      requires u in streams
      modifies this`streams, this`frames
      ensures streams == old(streams)[u := old(streams)[u].(resourceIDs := Suffix(old(streams)[u].resourceIDs, 1))]
      ensures frames == WithoutFrames(old(frames), Prefix(old(streams)[u].resourceIDs, 1))
    {
      var st := streams[u];
      if |st.resourceIDs| > 1 {
        DropFrames(st.resourceIDs[..|st.resourceIDs| - 1]);
        streams := streams[u := st.(resourceIDs := st.resourceIDs[|st.resourceIDs| - 1..])];
      } else {
        assert streams[u := st] == streams && WithoutFrames(frames, []) == frames;
      }
    }

    /** Keeps only the latest frame of every stream. */
    method TrimHistory()
      modifies this
      ensures View() == Trim(old(View()))
    {
      ghost var before := View();
      var all := streams.Keys;
      var rest := all;
      TrimStarts(before);
      assert all - rest == {};
      while rest != {}
        modifies this`streams, this`frames
        invariant rest <= all == before.streams.Keys
        invariant View() == TrimmedUpTo(before, all - rest)
        decreases |rest|
      {
        var u :| u in rest;
        MovedOver(all, rest, u);
        ghost var done := all - rest;
        TrimNext(before, done, u);
        TrimStream(u);
        assert View() == TrimmedUpTo(before, done + {u});
        rest := rest - {u};
      }
      assert all - rest == all;
      TrimEnds(before);
    }

    /** Second section of a packet with a picture. */
    method AnnounceFrame(g: Grant)
      requires work.Some? && work.value.Announcing?
      modifies this
      ensures View() == Announce(old(View()), g)
    {
      var i := work.value.input;
      if i.surface !in streams {
        work := None;
        return;
      }
      var st := streams[i.surface];
      var codec := st.codec;
      st := st.(codec := Some(i.codec));
      streams := streams[i.surface := st];
      if (codec.Some? && codec.value != i.codec) || (st.decoderLease.Some? && !g.resized) {
        work := Some(Failing(i.token, None));
        return;
      }
      if g.trims { TrimHistory(); }
      AnnounceKnownFrame(i, g);
    }

    /** The rest of it, with what could be reserved. */
    method AnnounceKnownFrame(i: Input, g: Grant)
      requires i.surface in streams
      modifies this`streams, this`work
      ensures View() == AnnounceKnown(old(View()), i, g)
    {
      var st := streams[i.surface];
      if st.decoderLease.None? { st := st.(decoderLease := g.decoder); }
      work := Some(Failing(i.token, None));
      if st.decoderLease.Some? && g.frame.Some? {
        st := st.(reservations := st.reservations[i.id := g.frame.value]);
        if i.hasAlpha && i.reuses && !(st.lastAlpha.Some? && i.sameSize) {
          work := Some(Failing(i.token, Some(Stray(i.surface, i.id))));
        } else {
          work := None;
          assert st.reservations[i.id := g.frame.value] == st.reservations;
          st := ExpectAlpha(st, i);
        }
      }
      streams := streams[i.surface := st];
    }

    method ExpectAlpha(before: Stream, i: Input) returns (st: Stream)
      requires i.id in before.reservations && (i.hasAlpha && i.reuses ==> before.lastAlpha.Some?)
      ensures st == Announced(before, i.id, before.reservations[i.id], i.hasAlpha, if i.reuses then before.lastAlpha else None)
    {
      st := before;
      if i.hasAlpha {
        if i.reuses { st := st.(alphaPlanes := st.alphaPlanes[i.id := st.lastAlpha.value]); }
        st := st.(expectedAlpha := st.expectedAlpha + {i.id}, withAlpha := st.withAlpha + {i.id});
      } else {
        st := st.(expectedAlpha := st.expectedAlpha - {i.id}, withAlpha := st.withAlpha - {i.id}, alphaPlanes := st.alphaPlanes - {i.id});
      }
      assert before.reservations[i.id := before.reservations[i.id]] == before.reservations;
      st := Track(st, i.id);
    }

    /** Second section of a packet with an alpha plane, and the decoding after it. */
    method MeasurePlane(trims: bool, lease: Option<LeaseID>)
      requires work.Some? && work.value.Measuring?
      modifies this
      ensures View() == Measure(old(View()), trims, lease)
    {
      var m := work.value;
      if trims { TrimHistory(); }
      work := Some(if lease.None? || !m.wellFormed then Failing(m.input.token, None)
                   else Pairing(m.input, Plane(m.pixels, lease.value)));
    }

    method ReceiveAlpha()
      requires work.Some? && work.value.Pairing?
      modifies this
      ensures View() == Pair(old(View()))
    {
      var w := work.value;
      var surface, id := w.input.surface, w.input.id;
      work := None;
      if surface !in streams || streams[surface].generation != generation { return; }
      var st := streams[surface];
      st := Track(st.(alphaPlanes := st.alphaPlanes[id := w.plane], lastAlpha := Some(w.plane)), id);
      if id in st.pendingVideo {
        work := Some(Publishing(surface, st.serial, st.generation, id, st.pendingVideo[id], Some(w.plane), None));
        st := st.(pendingVideo := st.pendingVideo - {id}, expectedAlpha := st.expectedAlpha - {id}, alphaPlanes := st.alphaPlanes - {id});
      }
      streams := streams[surface := st];
    }

    method ReceiveFrame(surface: Surface, serial: nat, id: Resource, video: Pixels)
      modifies this
      ensures View() == ReceiveDecoded(old(View()), surface, serial, id, video)
    {
      if surface !in streams || streams[surface].serial != serial || streams[surface].generation != generation { return; }
      var st := streams[surface];
      if id !in st.pendingIDs { return; }
      if id in st.expectedAlpha && id !in st.alphaPlanes {
        st := Track(st.(pendingVideo := st.pendingVideo[id := video]), id);
        streams := streams[surface := st];
        return;
      }
      var alpha := if id in st.alphaPlanes then Some(st.alphaPlanes[id]) else None;
      work := Some(Publishing(surface, serial, st.generation, id, video, alpha, None));
      st := st.(alphaPlanes := st.alphaPlanes - {id}, expectedAlpha := st.expectedAlpha - {id}, pendingVideo := st.pendingVideo - {id});
      streams := streams[surface := st];
    }

    method Publish(made: bool)
      requires work.Some? && work.value.Publishing? && work.value.lease.None?
      modifies this
      ensures View() == TakeReservation(old(View()), made)
    {
      var p := work.value;
      work := Some(Failing(p.generation, None));
      if p.surface !in streams || streams[p.surface].serial != p.serial { return; }
      var st := streams[p.surface];
      if p.id !in st.reservations { return; }
      streams := streams[p.surface := st.(reservations := st.reservations - {p.id})];
      if made { work := Some(p.(lease := Some(st.reservations[p.id]))); }
    }

    method StoreFrame()
      requires work.Some? && work.value.Publishing? && work.value.lease.Some?
      modifies this
      ensures View() == Finish(old(View()))
    {
      var p := work.value;
      work := None;
      if p.surface !in streams || streams[p.surface].serial != p.serial || streams[p.surface].generation != generation
         || decodingFailed {
        return;
      }
      var st := streams[p.surface];
      if st.publishedThrough.Some? && Ahead(st.publishedThrough.value, p.id) { return; }
      var alpha := if p.alpha.Some? then Some(p.alpha.value.pixels) else None;
      frames := frames[p.id := Stored(p.surface, p.video, alpha, p.id in st.withAlpha, p.lease.value)];
      var ids := Without(st.resourceIDs, p.id) + [p.id];
      var extra := if |ids| > MAXIMUM_FRAMES then |ids| - MAXIMUM_FRAMES else 0;
      DropFrames(ids[..extra]);
      streams := streams[p.surface := st.(publishedThrough := Some(p.id), pendingIDs := Without(st.pendingIDs, p.id),
                                          resourceIDs := ids[extra..])];
    }

    /** `fail`: one of an older generation is not recorded. */
    method FailGeneration(token: nat)
      modifies this`decodingFailed
      ensures View() == Fail(old(View()), token)
    {
      if generation != token || decodingFailed { return; }
      decodingFailed := true;
    }

    method FailWork()
      requires work.Some? && work.value.Failing?
      modifies this
      ensures View() == RecordFailure(old(View()))
    {
      FailGeneration(work.value.token);
      work := None;
    }

    method Destroy(surface: Surface)
      modifies this
      ensures View() == RemoveSurface(old(View()), surface)
    {
      destroyedSurfaces := destroyedSurfaces + {surface};
      if surface in streams { DropFrames(streams[surface].resourceIDs); }
      streams := streams - {surface};
    }

    method Clear()
      modifies this
      ensures View() == RemoveAll(old(View()))
    {
      generation := generation + 1;
      decodingFailed := false;
      frames := map[];
      resets := resets + 1;
    }

    method ClearQueued()
      requires resets > 0
      modifies this
      ensures View() == Reset(old(View()))
    {
      streams, frames, destroyedSurfaces := map[], map[], {};
      resets := resets - 1;
    }

    method ResolveFrame(id: Resource, fits: bool) returns (status: Status)
      modifies this
      ensures (View(), status) == Resolve(old(View()), id, fits)
    {
      if id !in frames { return Unpublished; }
      var frame := frames[id];
      if !fits { return Unavailable; }
      if frame.surface in streams {
        var st := streams[frame.surface];
        if id in st.resourceIDs {
          var k := IndexOf(st.resourceIDs, id);
          DropFrames(st.resourceIDs[..k]);
          streams := streams[frame.surface := st.(resourceIDs := st.resourceIDs[k..])];
        }
      }
      return Ready(frame);
    }

    /** What a layer is told whose frame is not there. */
    method ResolveMissing(surface: Surface, id: Resource) returns (status: Status)
      ensures status == LayerStatus(View(), surface, id)
    {
      if surface in destroyedSurfaces { return Unavailable; }
      if surface in streams {
        var latest := streams[surface].publishedThrough;
        if latest.Some? && Reached(latest.value, id) { return Unavailable; }
      }
      return Unpublished;
    }
  }

  // ---- Trimming stream by stream ----

  function Shortened(streams: map<Surface, Stream>, done: set<Surface>): map<Surface, Stream> {
    map u | u in streams :: if u in done then streams[u].(resourceIDs := Suffix(streams[u].resourceIDs, 1)) else streams[u]
  }

  predicate IsHistory(streams: map<Surface, Stream>, done: set<Surface>, id: Resource) {
    exists u <- done :: u in streams && id in Prefix(streams[u].resourceIDs, 1)
  }

  function Trimmed(streams: map<Surface, Stream>, frames: map<Resource, Stored>, done: set<Surface>): map<Resource, Stored> {
    map x | x in frames && !IsHistory(streams, done, x) :: frames[x]
  }

  lemma HistoryNext(streams: map<Surface, Stream>, done: set<Surface>, u: Surface, id: Resource)
    requires u in streams
    ensures IsHistory(streams, done + {u}, id) <==> IsHistory(streams, done, id) || id in Prefix(streams[u].resourceIDs, 1)
  {
    if IsHistory(streams, done, id) {
      var v :| v in done && v in streams && id in Prefix(streams[v].resourceIDs, 1);
      assert v in done + {u};
    }
    if id in Prefix(streams[u].resourceIDs, 1) { assert u in done + {u}; }
  }

  /** The store when these streams were trimmed. */
  function TrimmedUpTo(s: Store, done: set<Surface>): Store {
    s.(frames := Trimmed(s.streams, s.frames, done), streams := Shortened(s.streams, done))
  }

  lemma TrimStarts(s: Store)
    ensures TrimmedUpTo(s, {}) == s
  {
    assert Trimmed(s.streams, s.frames, {}) == s.frames && Shortened(s.streams, {}) == s.streams;
  }

  lemma TrimNext(s: Store, done: set<Surface>, u: Surface)
    requires u in s.streams && u !in done
    ensures var a, b := TrimmedUpTo(s, done), TrimmedUpTo(s, done + {u});
            && u in a.streams && a.streams[u] == s.streams[u]
            && b.streams == a.streams[u := s.streams[u].(resourceIDs := Suffix(s.streams[u].resourceIDs, 1))]
            && b.frames == WithoutFrames(a.frames, Prefix(s.streams[u].resourceIDs, 1))
  {
    forall x <- s.frames
      ensures IsHistory(s.streams, done + {u}, x) <==> IsHistory(s.streams, done, x) || x in Prefix(s.streams[u].resourceIDs, 1)
    {
      HistoryNext(s.streams, done, u, x);
    }
  }

  lemma TrimEnds(s: Store)
    ensures TrimmedUpTo(s, s.streams.Keys) == Trim(s)
  {
    forall x <- s.frames
      ensures IsHistory(s.streams, s.streams.Keys, x) <==> exists u <- s.streams :: x in Prefix(s.streams[u].resourceIDs, 1)
    {
      if u: Surface :| u in s.streams && x in Prefix(s.streams[u].resourceIDs, 1) { assert u in s.streams.Keys; }
    }
    assert Trimmed(s.streams, s.frames, s.streams.Keys) == Trim(s).frames;
    assert Shortened(s.streams, s.streams.Keys) == Trim(s).streams;
  }
}
