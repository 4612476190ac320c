/** Which frames can still arrive: a layer that is told its frame is unavailable waits for
    nothing, unless the number is published again. */
module FrameArrivals {
  import opened Wrappers
  import opened RemoteFrames
  import opened FrameRuns

  predicate StoredFor(s: Store, u: Surface, id: Resource) { id in s.frames && s.frames[id].surface == u }

  /** A frame of a stream of this generation gets to its last section. */
  predicate Delivers(s: Store, step: Step, u: Surface, id: Resource) {
    && step.Finishes? && s.work.Some? && s.work.value.Publishing? && s.work.value.lease.Some?
    && var p := s.work.value;
       && p.surface == u && p.id == id && u in s.streams && s.streams[u].serial == p.serial
       && s.streams[u].generation == s.generation && !s.failed
  }

  /** How far a stream has got. */
  function Through(s: Store, u: Surface): Option<Resource> {
    if u in s.streams then s.streams[u].publishedThrough else None
  }

  predicate Passed(s: Store, u: Surface, id: Resource) { Through(s, u).Some? && Ahead(Through(s, u).value, id) }

  lemma FinishStores(s: Store, u: Surface, id: Resource)
    requires StoreOk(s) && s.work.Some? && s.work.value.Publishing? && s.work.value.lease.Some? && !StoredFor(s, u, id)
    ensures StoredFor(Finish(s), u, id) <==> Delivers(s, Finishes, u, id) && !Passed(s, u, id)
  {
    var p := s.work.value;
    if p.surface in s.streams {
      assert StreamOk(s, p.surface);
      NewestIs(s.streams[p.surface].resourceIDs, p.id, MAXIMUM_FRAMES);
    }
  }

  /** What a step does to a surface that is not the last section of a frame nor a reset: it
      stores nothing and the stream has got as far as before. */
  predicate Continues(s: Store, t: Store, u: Surface, id: Resource) {
    && s.destroyed <= t.destroyed && (StoredFor(t, u, id) ==> StoredFor(s, u, id))
    && (u in s.streams ==> if u in t.streams then SameWay(s.streams[u], t.streams[u]) else u in t.destroyed)
    && (u !in s.streams && u in t.streams ==> u !in s.destroyed)
  }

  predicate SameWay(st: Stream, st': Stream) { st'.serial == st.serial && st'.publishedThrough == st.publishedThrough }

  lemma BeginContinues(s: Store, i: Input, next: Work, maximumStreams: nat, u: Surface, id: Resource)
    ensures Continues(s, Begin(s, i, next, maximumStreams), u, id)
  {
  }

  lemma AnnouncedSame(st: Stream, id: Resource, lease: LeaseID, hasAlpha: bool, reuse: Option<Plane>)
    ensures SameWay(st, Announced(st, id, lease, hasAlpha, reuse))
  {
  }

  lemma AnnounceKnownContinues(s: Store, i: Input, g: Grant, u: Surface, id: Resource)
    requires i.surface in s.streams
    ensures Continues(s, AnnounceKnown(s, i, g), u, id)
  {
    var known := s.streams[i.surface];
    var ready := if known.decoderLease.Some? then known else known.(decoderLease := g.decoder);
    if g.frame.Some? {
      AnnouncedSame(ready, i.id, g.frame.value, i.hasAlpha, if i.reuses then ready.lastAlpha else None);
    }
  }

  lemma TrimContinues(s: Store, u: Surface, id: Resource)
    ensures Continues(s, Trim(s), u, id)
  {
  }

  lemma AnnounceContinues(s: Store, g: Grant, u: Surface, id: Resource)
    requires s.work.Some? && s.work.value.Announcing?
    ensures Continues(s, Announce(s, g), u, id)
  {
    var i := s.work.value.input;
    if i.surface in s.streams {
      var known := s.(streams := s.streams[i.surface := s.streams[i.surface].(codec := Some(i.codec))]);
      TrimContinues(known, u, id);
      AnnounceKnownContinues(AfterTrim(known, g.trims), i, g, u, id);
    }
  }

  lemma PairContinues(s: Store, u: Surface, id: Resource)
    requires s.work.Some? && s.work.value.Pairing?
    ensures Continues(s, Pair(s), u, id)
  {
  }

  lemma DecodedContinues(s: Store, v: Surface, serial: nat, x: Resource, video: Pixels, u: Surface, id: Resource)
    ensures Continues(s, ReceiveDecoded(s, v, serial, x, video), u, id)
  {
  }

  lemma TakeContinues(s: Store, made: bool, u: Surface, id: Resource)
    requires s.work.Some? && s.work.value.Publishing? && s.work.value.lease.None?
    ensures Continues(s, TakeReservation(s, made), u, id)
  {
  }

  lemma ResolveContinues(s: Store, x: Resource, fits: bool, u: Surface, id: Resource)
    ensures Continues(s, Resolve(s, x, fits).0, u, id)
  {
  }

  lemma StepContinues(s: Store, step: Step, maximumStreams: nat, u: Surface, id: Resource)
    requires Allowed(s, step) && !step.Finishes?
    ensures if step.Resets? then !StoredFor(After(s, step, maximumStreams), u, id)
            else Continues(s, After(s, step, maximumStreams), u, id)
  {
    match step
    case IngestsVideo(i) => BeginContinues(s, i, Announcing(i), maximumStreams, u, id);
    case IngestsAlpha(i, pixels, wellFormed) => BeginContinues(s, i, Measuring(i, pixels, wellFormed), maximumStreams, u, id);
    case Announces(g) => AnnounceContinues(s, g, u, id);
    case Pairs => PairContinues(s, u, id);
    case Decodes(v, serial, x, video) => DecodedContinues(s, v, serial, x, video, u, id);
    case TakesReservation(made) => TakeContinues(s, made, u, id);
    case Resolves(x, fits) => ResolveContinues(s, x, fits, u, id);
    case _ =>
  }

  lemma FinishContinues(s: Store, u: Surface)
    requires s.work.Some? && s.work.value.Publishing? && s.work.value.lease.Some?
    ensures var t := Finish(s);
            && t.destroyed == s.destroyed && t.streams.Keys == s.streams.Keys
            && (u in s.streams ==> t.streams[u].serial == s.streams[u].serial
                                   && (Through(s, u).Some? ==> Through(t, u).Some?))
  {
  }

  /** A frame gets into the store by its last section only, and only if its stream has not
      passed it. */
  lemma StepStores(s: Store, step: Step, maximumStreams: nat, u: Surface, id: Resource)
    requires StoreOk(s) && Allowed(s, step) && !StoredFor(s, u, id)
    ensures StoredFor(After(s, step, maximumStreams), u, id) <==> Delivers(s, step, u, id) && !Passed(s, u, id)
  {
    if step.Finishes? { FinishStores(s, u, id); } else { StepContinues(s, step, maximumStreams, u, id); }
  }

  // ---- Destroyed surfaces ----

  predicate DestroyedOk(s: Store) { s.destroyed !! s.streams.Keys }

  lemma {:induction false} RunDestroyed(s: Store, steps: seq<Step>, end: Store, maximumStreams: nat)
    requires DestroyedOk(s) && Reaches(s, steps, end, maximumStreams)
    ensures DestroyedOk(end)
    decreases |steps|
  {
    if steps != [] {
      StepDestroyed(s, steps[0], maximumStreams);
      RunDestroyed(After(s, steps[0], maximumStreams), steps[1..], end, maximumStreams);
    }
  }

  lemma StepDestroyed(s: Store, step: Step, maximumStreams: nat)
    requires DestroyedOk(s) && Allowed(s, step)
    ensures DestroyedOk(After(s, step, maximumStreams))
  {
    match step
    case IngestsVideo(i) => BeginDestroyed(s, i, Announcing(i), maximumStreams);
    case IngestsAlpha(i, pixels, wellFormed) => BeginDestroyed(s, i, Measuring(i, pixels, wellFormed), maximumStreams);
    case Finishes => FinishContinues(s, 0);
    case Resets =>
    case RemovesAll =>
    case RemovesSurface(_) =>
    case Resolves(_, _) =>
    case Announces(g) => AnnounceDestroyed(s, g);
    case _ => WorkDestroyed(s, step, maximumStreams);
  }

  lemma AnnounceDestroyed(s: Store, g: Grant)
    requires s.work.Some? && s.work.value.Announcing?
    ensures Announce(s, g).streams.Keys == s.streams.Keys && Announce(s, g).destroyed == s.destroyed
  {
    var i := s.work.value.input;
    if i.surface in s.streams {
      var known := s.(streams := s.streams[i.surface := s.streams[i.surface].(codec := Some(i.codec))]);
      TrimDestroyed(known, g.trims);
      AnnounceKnownDestroyed(AfterTrim(known, g.trims), i, g);
    }
  }

  lemma TrimDestroyed(s: Store, trims: bool)
    ensures AfterTrim(s, trims).streams.Keys == s.streams.Keys && AfterTrim(s, trims).destroyed == s.destroyed
  {
  }

  lemma AnnounceKnownDestroyed(s: Store, i: Input, g: Grant)
    requires i.surface in s.streams
    ensures AnnounceKnown(s, i, g).streams.Keys == s.streams.Keys && AnnounceKnown(s, i, g).destroyed == s.destroyed
  {
  }

  /** Any other step leaves the surfaces as they are. */
  lemma WorkDestroyed(s: Store, step: Step, maximumStreams: nat)
    requires Allowed(s, step) && (step.Measures? || step.Pairs? || step.Decodes? || step.TakesReservation?
                                  || step.RecordsFailure? || step.Fails?)
    ensures After(s, step, maximumStreams).streams.Keys == s.streams.Keys
    ensures After(s, step, maximumStreams).destroyed == s.destroyed
  {
  }

  lemma BeginDestroyed(s: Store, i: Input, next: Work, maximumStreams: nat)
    requires DestroyedOk(s)
    ensures DestroyedOk(Begin(s, i, next, maximumStreams))
  {
  }

  // ---- Once a layer was told that its frame is unavailable ----

  /** The surface is gone, or its stream got to some frame. */
  predicate Told(s: Store, u: Surface) { if u in s.streams then Through(s, u).Some? else u in s.destroyed }

  /** Until the next reset a surface goes only by being destroyed. */
  lemma StepTold(s: Store, step: Step, maximumStreams: nat, u: Surface)
    requires Told(s, u) && Allowed(s, step) && !step.Resets?
    ensures Told(After(s, step, maximumStreams), u)
    ensures u in After(s, step, maximumStreams).streams ==>
              u in s.streams && After(s, step, maximumStreams).streams[u].serial == s.streams[u].serial
  {
    if step.Finishes? { FinishContinues(s, u); } else { StepContinues(s, step, maximumStreams, u, 0); }
  }

  predicate Near(s: Store, u: Surface, id: Resource) { Through(s, u).Some? ==> Reached(Through(s, u).value, id) }

  /** A run without a reset in which the stream stays within half the numbers ahead of one. */
  predicate StaysNear(s: Store, steps: seq<Step>, maximumStreams: nat, u: Surface, id: Resource)
    decreases |steps|
  {
    && Near(s, u, id)
    && (steps != [] ==>
          && Allowed(s, steps[0]) && !steps[0].Resets?
          && StaysNear(After(s, steps[0], maximumStreams), steps[1..], maximumStreams, u, id))
  }

  /** At some time of the run the frame is in the store for this surface. */
  predicate Arrives(s: Store, steps: seq<Step>, maximumStreams: nat, u: Surface, id: Resource)
    decreases |steps|
  {
    && steps != [] && Allowed(s, steps[0])
    && var t := After(s, steps[0], maximumStreams);
       StoredFor(t, u, id) || Arrives(t, steps[1..], maximumStreams, u, id)
  }

  /** At some time of the run the number is published once more as the newest of its stream. */
  predicate Republished(s: Store, steps: seq<Step>, maximumStreams: nat, u: Surface, id: Resource)
    decreases |steps|
  {
    && steps != [] && Allowed(s, steps[0])
    && ((Delivers(s, steps[0], u, id) && Through(s, u) == Some(id))
        || Republished(After(s, steps[0], maximumStreams), steps[1..], maximumStreams, u, id))
  }

  lemma ReachedOrPassed(latest: Resource, id: Resource)
    requires Reached(latest, id)
    ensures Ahead(latest, id) <==> latest != id
  {
  }

  lemma {:induction false} RunArrives(s: Store, steps: seq<Step>, maximumStreams: nat, u: Surface, id: Resource)
    requires StoreOk(s) && Told(s, u) && !StoredFor(s, u, id) && StaysNear(s, steps, maximumStreams, u, id)
    ensures Arrives(s, steps, maximumStreams, u, id) <==> Republished(s, steps, maximumStreams, u, id)
    decreases |steps|
  {
    if steps != [] {
      var t := After(s, steps[0], maximumStreams);
      StepStores(s, steps[0], maximumStreams, u, id);
      if Through(s, u).Some? { ReachedOrPassed(Through(s, u).value, id); }
      if !StoredFor(t, u, id) {
        AfterOk(s, steps[0], maximumStreams);
        StepTold(s, steps[0], maximumStreams, u);
        RunArrives(t, steps[1..], maximumStreams, u, id);
      }
    }
  }

  /** A layer is told that its frame is unavailable. As long as the streams are not reset and
      the numbers do not run half way round, the frame is in the store later exactly if its
      number is published again while it is still the newest of its stream. */
  lemma PassedStaysAway(before: seq<Step>, s: Store, steps: seq<Step>, maximumStreams: nat, u: Surface, id: Resource)
    requires Reaches(NewStore, before, s, maximumStreams)
    requires LayerStatus(s, u, id).Unavailable? && !StoredFor(s, u, id)
    requires StaysNear(s, steps, maximumStreams, u, id)
    ensures Arrives(s, steps, maximumStreams, u, id) <==> Republished(s, steps, maximumStreams, u, id)
  {
    RunOk(NewStore, before, s, maximumStreams);
    RunDestroyed(NewStore, before, s, maximumStreams);
    RunArrives(s, steps, maximumStreams, u, id);
  }

  lemma FinishPasses(s: Store, u: Surface, id: Resource)
    requires s.work.Some? && s.work.value.Publishing? && s.work.value.lease.Some?
    requires u in s.streams && Passed(s, u, id) && Near(Finish(s), u, id)
    ensures Passed(Finish(s), u, id)
  {
  }

  lemma StepPasses(s: Store, step: Step, maximumStreams: nat, u: Surface, id: Resource)
    requires Allowed(s, step) && !step.Resets? && u in s.streams && Passed(s, u, id)
    requires Near(After(s, step, maximumStreams), u, id) && u in After(s, step, maximumStreams).streams
    ensures Passed(After(s, step, maximumStreams), u, id)
  {
    if step.Finishes? { FinishPasses(s, u, id); } else { StepContinues(s, step, maximumStreams, u, id); }
  }

  lemma {:induction false} RunPasses(s: Store, steps: seq<Step>, maximumStreams: nat, u: Surface, id: Resource)
    requires Told(s, u) && (u in s.streams ==> Passed(s, u, id)) && StaysNear(s, steps, maximumStreams, u, id)
    ensures !Republished(s, steps, maximumStreams, u, id)
    decreases |steps|
  {
    if steps != [] {
      var t := After(s, steps[0], maximumStreams);
      StepTold(s, steps[0], maximumStreams, u);
      if u in t.streams { StepPasses(s, steps[0], maximumStreams, u, id); }
      RunPasses(t, steps[1..], maximumStreams, u, id);
    }
  }

  /** So a frame that its stream has gone past never arrives. */
  lemma SkippedStaysAway(before: seq<Step>, s: Store, steps: seq<Step>, maximumStreams: nat, u: Surface, id: Resource)
    requires Reaches(NewStore, before, s, maximumStreams)
    requires Passed(s, u, id) && !StoredFor(s, u, id) && StaysNear(s, steps, maximumStreams, u, id)
    ensures !Arrives(s, steps, maximumStreams, u, id)
  {
    RunOk(NewStore, before, s, maximumStreams);
    RunArrives(s, steps, maximumStreams, u, id);
    RunPasses(s, steps, maximumStreams, u, id);
  }

  // ---- Numbers that are sent once ----

  /** Nothing of the frame is under way: it has no pixels reserved or taken, and no picture
      packet of it has been begun. */
  predicate NotUnderWay(s: Store, u: Surface, id: Resource) {
    && (u in s.streams ==> id !in s.streams[u].reservations)
    && (s.work.Some? && s.work.value.Announcing? ==> !(s.work.value.input.surface == u && s.work.value.input.id == id))
    && (s.work.Some? && s.work.value.Publishing? && s.work.value.lease.Some? ==>
          !(s.work.value.surface == u && s.work.value.id == id))
  }

  predicate Sends(step: Step, u: Surface, id: Resource) {
    step.IngestsVideo? && step.input.surface == u && step.input.id == id
  }

  /** A step that reserves nothing for the frame and takes no reservation of it. */
  predicate ReservesNothing(s: Store, t: Store, u: Surface, id: Resource) {
    u in t.streams && id in t.streams[u].reservations ==> u in s.streams && id in s.streams[u].reservations
  }

  lemma BeginReserves(s: Store, i: Input, next: Work, maximumStreams: nat, u: Surface, id: Resource)
    ensures ReservesNothing(s, Begin(s, i, next, maximumStreams), u, id)
  {
  }

  lemma AnnouncedReserves(st: Stream, x: Resource, lease: LeaseID, hasAlpha: bool, reuse: Option<Plane>)
    ensures Announced(st, x, lease, hasAlpha, reuse).reservations.Keys <= st.reservations.Keys + {x}
  {
  }

  lemma AnnounceKnownReserves(s: Store, i: Input, g: Grant, u: Surface, id: Resource)
    requires i.surface in s.streams && !(i.surface == u && i.id == id)
    ensures ReservesNothing(s, AnnounceKnown(s, i, g), u, id)
  {
    var known := s.streams[i.surface];
    var ready := if known.decoderLease.Some? then known else known.(decoderLease := g.decoder);
    if g.frame.Some? {
      AnnouncedReserves(ready, i.id, g.frame.value, i.hasAlpha, if i.reuses then ready.lastAlpha else None);
    }
  }

  lemma AnnounceReserves(s: Store, g: Grant, u: Surface, id: Resource)
    requires s.work.Some? && s.work.value.Announcing? && !(s.work.value.input.surface == u && s.work.value.input.id == id)
    ensures ReservesNothing(s, Announce(s, g), u, id)
  {
    var i := s.work.value.input;
    if i.surface in s.streams {
      var known := s.(streams := s.streams[i.surface := s.streams[i.surface].(codec := Some(i.codec))]);
      assert ReservesNothing(s, AfterTrim(known, g.trims), u, id);
      AnnounceKnownReserves(AfterTrim(known, g.trims), i, g, u, id);
    }
  }

  lemma PairReserves(s: Store, u: Surface, id: Resource)
    requires s.work.Some? && s.work.value.Pairing?
    ensures ReservesNothing(s, Pair(s), u, id)
  {
  }

  lemma DecodedReserves(s: Store, v: Surface, serial: nat, x: Resource, video: Pixels, u: Surface, id: Resource)
    ensures ReservesNothing(s, ReceiveDecoded(s, v, serial, x, video), u, id)
  {
  }

  lemma TakeReserves(s: Store, made: bool, u: Surface, id: Resource)
    requires s.work.Some? && s.work.value.Publishing? && s.work.value.lease.None? && NotUnderWay(s, u, id)
    ensures NotUnderWay(TakeReservation(s, made), u, id)
  {
  }

  lemma FinishReserves(s: Store, u: Surface, id: Resource)
    requires s.work.Some? && s.work.value.Publishing? && s.work.value.lease.Some?
    ensures ReservesNothing(s, Finish(s), u, id)
  {
  }

  lemma ResolveReserves(s: Store, x: Resource, fits: bool, u: Surface, id: Resource)
    ensures ReservesNothing(s, Resolve(s, x, fits).0, u, id) && Resolve(s, x, fits).0.work == s.work
  {
  }

  lemma StepNotUnderWay(s: Store, step: Step, maximumStreams: nat, u: Surface, id: Resource)
    requires Allowed(s, step) && NotUnderWay(s, u, id) && !Sends(step, u, id)
    ensures NotUnderWay(After(s, step, maximumStreams), u, id)
  {
    match step
    case IngestsVideo(i) => BeginReserves(s, i, Announcing(i), maximumStreams, u, id);
    case IngestsAlpha(i, pixels, wellFormed) => BeginReserves(s, i, Measuring(i, pixels, wellFormed), maximumStreams, u, id);
    case Announces(g) => AnnounceReserves(s, g, u, id);
    case Pairs => PairReserves(s, u, id);
    case Decodes(v, serial, x, video) => DecodedReserves(s, v, serial, x, video, u, id);
    case TakesReservation(made) => TakeReserves(s, made, u, id);
    case Finishes => FinishReserves(s, u, id);
    case Resolves(x, fits) => ResolveReserves(s, x, fits, u, id);
    case _ =>
  }

  lemma {:induction false} RunNotSent(s: Store, steps: seq<Step>, end: Store, maximumStreams: nat, u: Surface, id: Resource)
    requires StoreOk(s) && NotUnderWay(s, u, id) && !StoredFor(s, u, id) && Reaches(s, steps, end, maximumStreams)
    requires forall step <- steps :: !Sends(step, u, id)
    ensures !Arrives(s, steps, maximumStreams, u, id)
    decreases |steps|
  {
    if steps != [] {
      AfterOk(s, steps[0], maximumStreams);
      StepStores(s, steps[0], maximumStreams, u, id);
      StepNotUnderWay(s, steps[0], maximumStreams, u, id);
      RunNotSent(After(s, steps[0], maximumStreams), steps[1..], end, maximumStreams, u, id);
    }
  }

  /** A frame that is not in the store and of which nothing is under way arrives only if a
      picture with its number is sent again, whatever else happens. */
  lemma OnlySentAgain(before: seq<Step>, s: Store, steps: seq<Step>, end: Store, maximumStreams: nat, u: Surface, id: Resource)
    requires Reaches(NewStore, before, s, maximumStreams) && Reaches(s, steps, end, maximumStreams)
    requires NotUnderWay(s, u, id) && !StoredFor(s, u, id) && Arrives(s, steps, maximumStreams, u, id)
    ensures exists step <- steps :: Sends(step, u, id)
  {
    RunOk(NewStore, before, s, maximumStreams);
    if forall step <- steps :: !Sends(step, u, id) { RunNotSent(s, steps, end, maximumStreams, u, id); }
  }

  // ---- What the user interface is told ----

  /** A layer is told to give up exactly when its surface is gone or its stream has got to the
      frame or past it. */
  lemma LayerExactly(s: Store, u: Surface, id: Resource)
    ensures LayerStatus(s, u, id) == Unavailable <==> u in s.destroyed || Through(s, u) == Some(id) || Passed(s, u, id)
    ensures LayerStatus(s, u, id) == Unpublished || LayerStatus(s, u, id) == Unavailable
  {
    if Through(s, u).Some? && Through(s, u).value != id { NotTheSame(Through(s, u).value, id); }
  }

  lemma NotTheSame(latest: Resource, id: Resource)
    requires latest != id
    ensures (latest - id) % IDS != 0
  {
  }

  /** A frame that is stored and has the size asked for is handed out as it is; the frames its
      stream listed before it go, and no others. */
  lemma ResolveExactly(s: Store, id: Resource, fits: bool)
    requires StoreOk(s)
    ensures var (t, status) := Resolve(s, id, fits);
            match status
            case Unpublished => t == s && id !in s.frames
            case Unavailable => t == s && id in s.frames && !fits
            case Ready(frame) =>
              && id in s.frames && frame == s.frames[id] && fits
              && var u := frame.surface;
                 && u in t.streams && t.streams[u].resourceIDs != [] && t.streams[u].resourceIDs[0] == id
                 && var older := Older(s, u, id);
                    && s.streams[u].resourceIDs == older + t.streams[u].resourceIDs && id !in older
                    && (forall x: Resource :: x in t.frames <==> x in s.frames && x !in older)
                    && (forall x <- t.frames :: t.frames[x] == s.frames[x])
  {
    if id in s.frames && fits {
      assert FrameOk(s, id);
      var ids := s.streams[s.frames[id].surface].resourceIDs;
      assert ids == ids[..IndexOf(ids, id)] + ids[IndexOf(ids, id)..];
      FirstIndex(ids, id);
    }
  }

  /** The frames a stream listed before one of its own. */
  function Older(s: Store, u: Surface, id: Resource): seq<Resource>
    requires u in s.streams
  {
    s.streams[u].resourceIDs[..IndexOf(s.streams[u].resourceIDs, id)]
  }

  lemma {:induction false} FirstIndex(ids: seq<Resource>, id: Resource)
    ensures id !in ids[..IndexOf(ids, id)]
  {
    if ids != [] && ids[0] != id {
      FirstIndex(ids[1..], id);
      assert ids[..IndexOf(ids, id)] == [ids[0]] + ids[1..][..IndexOf(ids[1..], id)];
    }
  }

  // ---- Taking the reservation, and starting again ----

  /** A frame goes on exactly if pixels were reserved for it and its surface could be made; the
      reservation is gone then, and otherwise a failure of its generation follows. */
  lemma TakeExactly(s: Store, made: bool)
    requires s.work.Some? && s.work.value.Publishing? && s.work.value.lease.None?
    ensures var t, p := TakeReservation(s, made), s.work.value;
            var reserved := p.surface in s.streams
                            && s.streams[p.surface].serial == p.serial && p.id in s.streams[p.surface].reservations;
            && (reserved ==> p.surface in t.streams && p.id !in t.streams[p.surface].reservations)
            && t.work == Some(
                 if reserved && made then p.(lease := Some(s.streams[p.surface].reservations[p.id])) else Failing(p.generation, None))
  {
  }

  /** A connection that begins after a reset finds the store as it was made, whatever became of
      the one before; only numbers are not used again. */
  lemma ResetIsNew(s: Store)
    requires s.resets == 0 && s.work.None?
    ensures Reset(RemoveAll(s)) == NewStore.(generation := s.generation + 1, serials := s.serials)
    ensures RemoveAll(s).frames == map[] && !RemoveAll(s).failed
  {
  }
}
