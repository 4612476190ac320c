/** Where the pixels of a stored frame come from: the picture that was decoded under its number
    and an alpha plane that was sent for it, or lent to it by its own stream. */
module FrameOrigins {
  import opened Wrappers
  import opened RemoteFrames
  import opened FrameRuns

  datatype Picture = Picture(surface: Surface, serial: nat, id: Resource, video: Pixels)

  datatype Sent = Sent(surface: Surface, id: Resource, pixels: Pixels)

  /** `pictures` are those decoded, `planes` the well-formed alpha planes sent, `lent` those used
      again for a picture that asked for it, and `last` has the pixels of the last plane each
      stream took in its epoch. */
  datatype History = History(pictures: set<Picture>, planes: set<Sent>, lent: set<Sent>, last: map<Surface, Pixels>)

  const NoHistory := History({}, {}, {}, map[])

  /** A stream is new, or begins a new epoch. */
  predicate Renews(s: Store, t: Store, u: Surface) {
    u in t.streams && (u !in s.streams || t.streams[u].epoch != s.streams[u].epoch)
  }

  function Note(h: History, s: Store, step: Step, maximumStreams: nat): History
    requires Allowed(s, step)
  {
    var t := After(s, step, maximumStreams);
    match step
    case IngestsVideo(i) => if Renews(s, t, i.surface) then h.(last := h.last - {i.surface}) else h
    case IngestsAlpha(i, pixels, wellFormed) =>
      var sent := if wellFormed then h.(planes := h.planes + {Sent(i.surface, i.id, pixels)}) else h;
      if Renews(s, t, i.surface) then sent.(last := h.last - {i.surface}) else sent
    case Announces(_) =>
      var i := s.work.value.input;
      if t.work == None && i.hasAlpha && i.reuses && i.surface in h.last
      then h.(lent := h.lent + {Sent(i.surface, i.id, h.last[i.surface])}) else h
    case Pairs =>
      var w := s.work.value;
      if w.input.surface in s.streams && s.streams[w.input.surface].generation == s.generation
      then h.(last := h.last[w.input.surface := w.plane.pixels]) else h
    case Decodes(surface, serial, id, video) => h.(pictures := h.pictures + {Picture(surface, serial, id, video)})
    case RemovesSurface(surface) => h.(last := h.last - {surface})
    case Resets => h.(last := map[])
    case _ => h
  }

  predicate PlaneOk(h: History, u: Surface, id: Resource, pixels: Pixels) {
    Sent(u, id, pixels) in h.planes || Sent(u, id, pixels) in h.lent
  }

  predicate StreamOrigins(h: History, u: Surface, st: Stream) {
    && (if u in h.last then st.lastAlpha.Some? && st.lastAlpha.value.pixels == h.last[u] else st.lastAlpha.None?)
    && (forall id <- st.alphaPlanes :: PlaneOk(h, u, id, st.alphaPlanes[id].pixels))
    && (forall id <- st.pendingVideo :: Picture(u, st.serial, id, st.pendingVideo[id]) in h.pictures)
  }

  predicate WorkOrigins(h: History, work: Option<Work>) {
    work.Some? ==>
      match work.value
      case Measuring(i, pixels, wellFormed) => wellFormed ==> Sent(i.surface, i.id, pixels) in h.planes
      case Pairing(i, plane) => Sent(i.surface, i.id, plane.pixels) in h.planes
      case Publishing(u, serial, _, id, video, alpha, _) =>
        Picture(u, serial, id, video) in h.pictures && (alpha.Some? ==> PlaneOk(h, u, id, alpha.value.pixels))
      case _ => true
  }

  ghost predicate FrameOrigin(h: History, id: Resource, f: Stored) {
    && (exists serial: nat :: Picture(f.surface, serial, id, f.video) in h.pictures)
    && (f.alpha.Some? ==> PlaneOk(h, f.surface, id, f.alpha.value))
  }

  ghost predicate OriginsOk(s: Store, h: History) {
    && h.last.Keys <= s.streams.Keys
    && (forall u <- s.streams :: StreamOrigins(h, u, s.streams[u]))
    && (forall id <- s.frames :: FrameOrigin(h, id, s.frames[id]))
    && WorkOrigins(h, s.work)
  }

  predicate Grows(h: History, h': History) { h.pictures <= h'.pictures && h.planes <= h'.planes && h.lent <= h'.lent }

  /** More history keeps what is known of the streams whose last plane it leaves alone. */
  lemma OriginsGrow(s: Store, t: Store, h: History, h': History, u: Surface)
    requires OriginsOk(s, h) && Grows(h, h')
    requires h'.last.Keys <= t.streams.Keys
    requires forall v <- t.streams :: v != u ==> v in s.streams && StreamOrigins(h, v, t.streams[v])
    requires forall v: Surface :: v != u ==> (v in h'.last <==> v in h.last) && (v in h.last ==> h'.last[v] == h.last[v])
    requires u in t.streams ==> StreamOrigins(h', u, t.streams[u])
    requires forall id <- t.frames :: FrameOrigin(h', id, t.frames[id])
    requires WorkOrigins(h', t.work)
    ensures OriginsOk(t, h')
  {
  }

  lemma FramesGrow(s: Store, h: History, h': History, id: Resource)
    requires id in s.frames && FrameOrigin(h, id, s.frames[id]) && Grows(h, h')
    ensures FrameOrigin(h', id, s.frames[id])
  {
    var serial: nat :| Picture(s.frames[id].surface, serial, id, s.frames[id].video) in h.pictures;
    assert Picture(s.frames[id].surface, serial, id, s.frames[id].video) in h'.pictures;
  }

  predicate Bare(st: Stream) { st.lastAlpha.None? && st.alphaPlanes == map[] && st.pendingVideo == map[] }

  /** At most one stream changes, and only by being renewed; no frame does. */
  predicate Renewed(s: Store, t: Store, u: Surface) {
    && s.streams.Keys <= t.streams.Keys <= s.streams.Keys + {u}
    && (forall v <- s.streams :: v != u ==> t.streams[v] == s.streams[v])
    && (u in t.streams ==> if Renews(s, t, u) then Bare(t.streams[u]) else t.streams[u] == s.streams[u])
    && (forall id <- t.frames :: id in s.frames && t.frames[id] == s.frames[id])
  }

  lemma OpenRenews(s: Store, u: Surface)
    ensures Renewed(s, Open(s, u), u) && u in Open(s, u).streams
  {
  }

  lemma EnterRenews(s: Store, u: Surface, epoch: nat)
    requires u in s.streams
    ensures Renewed(s, Enter(s, u, epoch), u) && Enter(s, u, epoch).streams.Keys == s.streams.Keys
  {
  }

  /** The first section of a packet leaves the stream as it was, or renews it. */
  lemma BeginEffect(s: Store, i: Input, next: Work, maximumStreams: nat)
    ensures var t := Begin(s, i, next, maximumStreams);
            Renewed(s, t, i.surface) && (t.work == s.work || t.work == Some(next) || (t.work.Some? && t.work.value.Failing?))
  {
    if Accepts(s, i.surface, i.token) && (i.surface in s.streams || |s.streams| < maximumStreams) {
      OpenRenews(s, i.surface);
      EnterRenews(Open(s, i.surface), i.surface, i.epoch);
      if i.surface !in s.streams { NewIsBare(s, i.surface, i.epoch); }
    }
  }

  lemma NewIsBare(s: Store, u: Surface, epoch: nat)
    requires u !in s.streams
    ensures Bare(Enter(Open(s, u), u, epoch).streams[u])
  {
  }

  lemma BeginOrigins(s: Store, h: History, h': History, i: Input, next: Work, maximumStreams: nat)
    requires OriginsOk(s, h) && Grows(h, h') && WorkOrigins(h', Some(next)) && WorkOrigins(h', s.work)
    requires var t := Begin(s, i, next, maximumStreams);
             h'.last == if Renews(s, t, i.surface) then h.last - {i.surface} else h.last
    ensures OriginsOk(Begin(s, i, next, maximumStreams), h')
  {
    var t := Begin(s, i, next, maximumStreams);
    BeginEffect(s, i, next, maximumStreams);
    forall id <- t.frames ensures FrameOrigin(h', id, t.frames[id]) { FramesGrow(s, h, h', id); }
    OriginsGrow(s, t, h, h', i.surface);
  }

  lemma WorkGrows(h: History, h': History, work: Option<Work>)
    requires WorkOrigins(h, work) && Grows(h, h')
    ensures WorkOrigins(h', work)
  {
  }

  lemma IngestOrigins(s: Store, h: History, step: Step, maximumStreams: nat)
    requires OriginsOk(s, h) && Allowed(s, step) && (step.IngestsVideo? || step.IngestsAlpha?)
    ensures OriginsOk(After(s, step, maximumStreams), Note(h, s, step, maximumStreams))
  {
    var h' := Note(h, s, step, maximumStreams);
    WorkGrows(h, h', s.work);
    match step
    case IngestsVideo(i) => BeginOrigins(s, h, h', i, Announcing(i), maximumStreams);
    case IngestsAlpha(i, pixels, wellFormed) => BeginOrigins(s, h, h', i, Measuring(i, pixels, wellFormed), maximumStreams);
  }

  // ---- Announcing ----

  predicate SamePlanes(st: Stream, st': Stream) {
    && st'.serial == st.serial && st'.epoch == st.epoch && st'.lastAlpha == st.lastAlpha
    && st'.alphaPlanes == st.alphaPlanes && st'.pendingVideo == st.pendingVideo
  }

  /** The planes and pictures held are those before, and the last plane if it is used again. */
  predicate AnnouncedFrom(st: Stream, st': Stream, i: Input) {
    && st'.serial == st.serial && st'.epoch == st.epoch && st'.lastAlpha == st.lastAlpha
    && (forall id <- st'.alphaPlanes ::
          || (id in st.alphaPlanes && st'.alphaPlanes[id] == st.alphaPlanes[id])
          || (i.hasAlpha && i.reuses && id == i.id && st.lastAlpha == Some(st'.alphaPlanes[id])))
    && (forall id <- st'.pendingVideo :: id in st.pendingVideo && st'.pendingVideo[id] == st.pendingVideo[id])
  }

  lemma AnnouncedHolds(st: Stream, i: Input, lease: LeaseID)
    ensures AnnouncedFrom(st, Announced(st, i.id, lease, i.hasAlpha, if i.reuses then st.lastAlpha else None), i)
  {
  }

  /** No frame changes, and only this stream: its codec and lease apart it is the one before, or
      the announced one. */
  predicate AnnouncesIn(s: Store, t: Store, i: Input) {
    && t.streams.Keys == s.streams.Keys
    && (forall v <- s.streams :: v != i.surface ==> SamePlanes(s.streams[v], t.streams[v]))
    && (forall id <- t.frames :: id in s.frames && t.frames[id] == s.frames[id])
    && (t.work == None || (t.work.Some? && t.work.value.Failing?))
    && (i.surface in s.streams ==>
          if t.work != None then SamePlanes(s.streams[i.surface], t.streams[i.surface])
          else AnnouncedFrom(s.streams[i.surface], t.streams[i.surface], i))
  }

  lemma AnnounceKnownEffect(s: Store, i: Input, g: Grant)
    requires i.surface in s.streams
    ensures AnnouncesIn(s, AnnounceKnown(s, i, g), i)
  {
    var known := s.streams[i.surface];
    var ready := if known.decoderLease.Some? then known else known.(decoderLease := g.decoder);
    var t := AnnounceKnown(s, i, g);
    if g.frame.Some? { AnnouncedHolds(ready, i, g.frame.value); }
    OneAnnounced(s, t, i, t.streams[i.surface]);
  }

  lemma OneAnnounced(s: Store, t: Store, i: Input, st: Stream)
    requires i.surface in s.streams && t == s.(streams := s.streams[i.surface := st], work := t.work)
    requires t.work == None || (t.work.Some? && t.work.value.Failing?)
    requires if t.work != None then SamePlanes(s.streams[i.surface], st) else AnnouncedFrom(s.streams[i.surface], st, i)
    ensures AnnouncesIn(s, t, i)
  {
  }

  /** The same planes and pictures, and no new frame. */
  predicate HoldsSame(s: Store, t: Store) {
    && t.streams.Keys == s.streams.Keys && (forall v <- s.streams :: SamePlanes(s.streams[v], t.streams[v]))
    && (forall id <- t.frames :: id in s.frames && t.frames[id] == s.frames[id])
  }

  lemma TrimHolds(s: Store, trims: bool)
    ensures HoldsSame(s, AfterTrim(s, trims))
  {
  }

  lemma AnnouncesAfter(s: Store, k: Store, t: Store, i: Input)
    requires HoldsSame(s, k) && AnnouncesIn(k, t, i)
    ensures AnnouncesIn(s, t, i)
  {
  }

  lemma HoldsTwice(s: Store, k: Store, t: Store)
    requires HoldsSame(s, k) && HoldsSame(k, t)
    ensures HoldsSame(s, t)
  {
  }

  lemma AnnounceEffect(s: Store, g: Grant)
    requires s.work.Some? && s.work.value.Announcing?
    ensures AnnouncesIn(s, Announce(s, g), s.work.value.input)
  {
    var i := s.work.value.input;
    if i.surface in s.streams {
      var known := s.(streams := s.streams[i.surface := s.streams[i.surface].(codec := Some(i.codec))]);
      assert HoldsSame(s, known);
      TrimHolds(known, g.trims);
      HoldsTwice(s, known, AfterTrim(known, g.trims));
      AnnounceKnownEffect(AfterTrim(known, g.trims), i, g);
      AnnouncesAfter(s, AfterTrim(known, g.trims), AnnounceKnown(AfterTrim(known, g.trims), i, g), i);
    }
  }

  lemma SameOrigins(h: History, h': History, u: Surface, st: Stream, st': Stream)
    requires StreamOrigins(h, u, st) && SamePlanes(st, st') && Grows(h, h')
    requires (u in h'.last <==> u in h.last) && (u in h.last ==> h'.last[u] == h.last[u])
    ensures StreamOrigins(h', u, st')
  {
  }

  lemma AnnouncedOrigins(h: History, h': History, u: Surface, st: Stream, st': Stream, i: Input)
    requires StreamOrigins(h, u, st) && AnnouncedFrom(st, st', i) && Grows(h, h') && h'.last == h.last
    requires i.hasAlpha && i.reuses && u in h.last ==> Sent(u, i.id, h.last[u]) in h'.lent
    ensures StreamOrigins(h', u, st')
  {
  }

  lemma AnnounceOrigins(s: Store, h: History, g: Grant, maximumStreams: nat)
    requires OriginsOk(s, h) && s.work.Some? && s.work.value.Announcing?
    ensures OriginsOk(Announce(s, g), Note(h, s, Announces(g), maximumStreams))
  {
    var t, h', i := Announce(s, g), Note(h, s, Announces(g), maximumStreams), s.work.value.input;
    AnnounceEffect(s, g);
    NotesLent(s, h, g, maximumStreams);
    forall id <- t.frames ensures FrameOrigin(h', id, t.frames[id]) { FramesGrow(s, h, h', id); }
    forall v <- t.streams ensures StreamOrigins(h', v, t.streams[v]) {
      if v == i.surface && t.work == None {
        AnnouncedOrigins(h, h', v, s.streams[v], t.streams[v], i);
      } else {
        SameOrigins(h, h', v, s.streams[v], t.streams[v]);
      }
    }
  }

  lemma NotesLent(s: Store, h: History, g: Grant, maximumStreams: nat)
    requires s.work.Some? && s.work.value.Announcing?
    ensures var t, h', i := Announce(s, g), Note(h, s, Announces(g), maximumStreams), s.work.value.input;
            && Grows(h, h') && h'.last == h.last
            && (t.work == None && i.hasAlpha && i.reuses && i.surface in h.last ==>
                  Sent(i.surface, i.id, h.last[i.surface]) in h'.lent)
  {
  }

  // ---- The other sections ----

  /** A stream holds nothing it did not hold before, except what the history knows. */
  predicate HoldsKnown(h: History, h': History, u: Surface, st: Stream, st': Stream) {
    && st'.serial == st.serial
    && (forall id <- st'.alphaPlanes ::
          (id in st.alphaPlanes && st'.alphaPlanes[id] == st.alphaPlanes[id]) || PlaneOk(h', u, id, st'.alphaPlanes[id].pixels))
    && (forall id <- st'.pendingVideo ::
          || (id in st.pendingVideo && st'.pendingVideo[id] == st.pendingVideo[id])
          || Picture(u, st.serial, id, st'.pendingVideo[id]) in h'.pictures)
    && (if u in h'.last then st'.lastAlpha.Some? && st'.lastAlpha.value.pixels == h'.last[u] else st'.lastAlpha.None?)
  }

  /** One stream changes by what the history knows, and no frame does. */
  lemma StreamChanges(s: Store, t: Store, h: History, h': History, u: Surface)
    requires OriginsOk(s, h) && Grows(h, h') && u in s.streams && t.streams.Keys == s.streams.Keys && t.frames == s.frames
    requires forall v <- s.streams :: v != u ==> t.streams[v] == s.streams[v]
    requires HoldsKnown(h, h', u, s.streams[u], t.streams[u])
    requires forall v: Surface :: v != u ==> (v in h'.last <==> v in h.last) && (v in h.last ==> h'.last[v] == h.last[v])
    requires h'.last.Keys <= s.streams.Keys && WorkOrigins(h', t.work)
    ensures OriginsOk(t, h')
  {
    forall id <- t.frames ensures FrameOrigin(h', id, t.frames[id]) { FramesGrow(s, h, h', id); }
    OriginsGrow(s, t, h, h', u);
  }

  /** Nothing changes but the work. */
  lemma WorkChanges(s: Store, t: Store, h: History, h': History)
    requires OriginsOk(s, h) && Grows(h, h') && t.streams == s.streams && t.frames == s.frames && h'.last == h.last
    requires WorkOrigins(h', t.work)
    ensures OriginsOk(t, h')
  {
    forall id <- t.frames ensures FrameOrigin(h', id, t.frames[id]) { FramesGrow(s, h, h', id); }
  }

  lemma MeasureOrigins(s: Store, h: History, trims: bool, lease: Option<LeaseID>)
    requires OriginsOk(s, h) && s.work.Some? && s.work.value.Measuring?
    ensures OriginsOk(Measure(s, trims, lease), h)
  {
    TrimHolds(s, trims);
    var t := Measure(s, trims, lease);
    forall v <- t.streams ensures StreamOrigins(h, v, t.streams[v]) { SameOrigins(h, h, v, s.streams[v], t.streams[v]); }
  }

  lemma PlaneHolds(st: Stream, id: Resource, plane: Plane)
    ensures var st' := WithPlane(st, id, plane);
            && st'.serial == st.serial && st'.lastAlpha == Some(plane)
            && (forall x <- st'.alphaPlanes ::
                  (x in st.alphaPlanes && st'.alphaPlanes[x] == st.alphaPlanes[x]) || (x == id && st'.alphaPlanes[x] == plane))
            && (forall x <- st'.pendingVideo :: x in st.pendingVideo && st'.pendingVideo[x] == st.pendingVideo[x])
  {
  }

  /** What a section does to one stream and to the work, told apart from the history. */
  predicate OneStream(s: Store, t: Store, u: Surface) {
    && u in s.streams && t.streams.Keys == s.streams.Keys && t.frames == s.frames
    && (forall v <- s.streams :: v != u ==> t.streams[v] == s.streams[v])
    && t.streams[u].serial == s.streams[u].serial
  }

  lemma PairEffect(s: Store)
    requires s.work.Some? && s.work.value.Pairing?
    requires var u := s.work.value.input.surface; u in s.streams && s.streams[u].generation == s.generation
    ensures var t, w := Pair(s), s.work.value;
            var u, id := w.input.surface, w.input.id;
            && OneStream(s, t, u)
            && var st, st' := s.streams[u], t.streams[u];
               && st'.lastAlpha == Some(w.plane)
               && (forall x <- st'.alphaPlanes ::
                  (x in st.alphaPlanes && st'.alphaPlanes[x] == st.alphaPlanes[x]) || (x == id && st'.alphaPlanes[x] == w.plane))
               && (forall x <- st'.pendingVideo :: x in st.pendingVideo && st'.pendingVideo[x] == st.pendingVideo[x])
               && (t.work == None
                   || (id in st.pendingVideo
                       && t.work == Some(Publishing(u, st.serial, st.generation, id, st.pendingVideo[id], Some(w.plane), None))))
  {
    PlaneHolds(s.streams[s.work.value.input.surface], s.work.value.input.id, s.work.value.plane);
  }

  lemma PairOrigins(s: Store, h: History, maximumStreams: nat)
    requires OriginsOk(s, h) && s.work.Some? && s.work.value.Pairing?
    ensures OriginsOk(Pair(s), Note(h, s, Pairs, maximumStreams))
  {
    var w, t, h' := s.work.value, Pair(s), Note(h, s, Pairs, maximumStreams);
    var u := w.input.surface;
    if u in s.streams && s.streams[u].generation == s.generation {
      PairEffect(s);
      assert StreamOrigins(h, u, s.streams[u]);
      StreamChanges(s, t, h, h', u);
    } else {
      WorkChanges(s, t, h, h');
    }
  }

  lemma WaitHolds(st: Stream, id: Resource, video: Pixels)
    ensures var st' := TrackPending(st.(pendingVideo := st.pendingVideo[id := video]), id);
            && st'.serial == st.serial && st'.lastAlpha == st.lastAlpha
            && (forall x <- st'.alphaPlanes :: x in st.alphaPlanes && st'.alphaPlanes[x] == st.alphaPlanes[x])
            && (forall x <- st'.pendingVideo ::
                  (x in st.pendingVideo && st'.pendingVideo[x] == st.pendingVideo[x]) || (x == id && st'.pendingVideo[x] == video))
  {
  }

  lemma DecodedEffect(s: Store, u: Surface, serial: nat, id: Resource, video: Pixels)
    requires ReceiveDecoded(s, u, serial, id, video) != s
    ensures var t := ReceiveDecoded(s, u, serial, id, video);
            && OneStream(s, t, u)
            && var st, st' := s.streams[u], t.streams[u];
               && st.serial == serial && st'.lastAlpha == st.lastAlpha
               && (forall x <- st'.alphaPlanes :: x in st.alphaPlanes && st'.alphaPlanes[x] == st.alphaPlanes[x])
               && (forall x <- st'.pendingVideo ::
                  (x in st.pendingVideo && st'.pendingVideo[x] == st.pendingVideo[x]) || (x == id && st'.pendingVideo[x] == video))
               && (t.work == s.work
                   || t.work == Some(Publishing(u, serial, st.generation, id, video,
                                                if id in st.alphaPlanes then Some(st.alphaPlanes[id]) else None, None)))
  {
    WaitHolds(s.streams[u], id, video);
  }

  lemma DecodedOrigins(s: Store, h: History, u: Surface, serial: nat, id: Resource, video: Pixels, maximumStreams: nat)
    requires OriginsOk(s, h) && s.work.None?
    ensures OriginsOk(ReceiveDecoded(s, u, serial, id, video), h.(pictures := h.pictures + {Picture(u, serial, id, video)}))
  {
    var t, h' := ReceiveDecoded(s, u, serial, id, video), h.(pictures := h.pictures + {Picture(u, serial, id, video)});
    if t == s {
      WorkChanges(s, t, h, h');
    } else {
      DecodedEffect(s, u, serial, id, video);
      assert StreamOrigins(h, u, s.streams[u]);
      StreamChanges(s, t, h, h', u);
    }
  }

  lemma TakeEffect(s: Store, made: bool)
    requires s.work.Some? && s.work.value.Publishing? && s.work.value.lease.None?
    ensures var t, p := TakeReservation(s, made), s.work.value;
            && t.frames == s.frames
            && (if p.surface in s.streams then OneStream(s, t, p.surface) && SamePlanes(s.streams[p.surface], t.streams[p.surface])
                else t.streams == s.streams)
            && t.work.Some?
            && (t.work.value.Failing? || t.work.value == p.(lease := t.work.value.lease))
  {
  }

  lemma TakeOrigins(s: Store, h: History, made: bool)
    requires OriginsOk(s, h) && s.work.Some? && s.work.value.Publishing? && s.work.value.lease.None?
    ensures OriginsOk(TakeReservation(s, made), h)
  {
    var t, u := TakeReservation(s, made), s.work.value.surface;
    TakeEffect(s, made);
    if u in s.streams {
      assert StreamOrigins(h, u, s.streams[u]);
      StreamChanges(s, t, h, h, u);
    } else {
      WorkChanges(s, t, h, h);
    }
  }

  lemma FinishOrigins(s: Store, h: History)
    requires OriginsOk(s, h) && s.work.Some? && s.work.value.Publishing? && s.work.value.lease.Some?
    ensures OriginsOk(Finish(s), h)
  {
    var t, p := Finish(s), s.work.value;
    forall id <- t.frames ensures FrameOrigin(h, id, t.frames[id]) {
      if id in s.frames && t.frames[id] == s.frames[id] { FramesGrow(s, h, h, id); } else { StoredOrigin(h, p, t.frames[id].wanted); }
    }
  }

  lemma StoredOrigin(h: History, p: Work, wanted: bool)
    requires p.Publishing? && WorkOrigins(h, Some(p)) && p.lease.Some?
    ensures FrameOrigin(h, p.id, Stored(p.surface, p.video, if p.alpha.Some? then Some(p.alpha.value.pixels) else None,
                                        wanted, p.lease.value))
  {
    assert Picture(p.surface, p.serial, p.id, p.video) in h.pictures;
  }

  lemma RemoveOrigins(s: Store, h: History, u: Surface)
    requires OriginsOk(s, h) && s.work.None?
    ensures OriginsOk(RemoveSurface(s, u), h.(last := h.last - {u}))
  {
    var t, h' := RemoveSurface(s, u), h.(last := h.last - {u});
    forall id <- t.frames ensures FrameOrigin(h', id, t.frames[id]) { FramesGrow(s, h, h', id); }
  }

  lemma ResolveOrigins(s: Store, h: History, id: Resource, fits: bool)
    requires OriginsOk(s, h)
    ensures OriginsOk(Resolve(s, id, fits).0, h)
  {
    var t := Resolve(s, id, fits).0;
    ResolveHolds(s, id, fits);
    forall v <- t.streams ensures StreamOrigins(h, v, t.streams[v]) { SameOrigins(h, h, v, s.streams[v], t.streams[v]); }
  }

  lemma ResolveHolds(s: Store, id: Resource, fits: bool)
    ensures HoldsSame(s, Resolve(s, id, fits).0) && Resolve(s, id, fits).0.work == s.work
  {
  }

  lemma StepOrigins(s: Store, h: History, step: Step, maximumStreams: nat)
    requires OriginsOk(s, h) && Allowed(s, step)
    ensures OriginsOk(After(s, step, maximumStreams), Note(h, s, step, maximumStreams))
  {
    match step
    case IngestsVideo(_) => IngestOrigins(s, h, step, maximumStreams);
    case IngestsAlpha(_, _, _) => IngestOrigins(s, h, step, maximumStreams);
    case Announces(g) => AnnounceOrigins(s, h, g, maximumStreams);
    case Measures(trims, lease) => MeasureOrigins(s, h, trims, lease);
    case Pairs => PairOrigins(s, h, maximumStreams);
    case Decodes(u, serial, id, video) => DecodedOrigins(s, h, u, serial, id, video, maximumStreams);
    case TakesReservation(made) => TakeOrigins(s, h, made);
    case Finishes => FinishOrigins(s, h);
    case RemovesSurface(u) => RemoveOrigins(s, h, u);
    case Resolves(id, fits) => ResolveOrigins(s, h, id, fits);
    case _ =>
  }

  function HistoryOf(s: Store, steps: seq<Step>, h: History, maximumStreams: nat): History
    decreases |steps|
  {
    if steps == [] || !Allowed(s, steps[0]) then h
    else HistoryOf(After(s, steps[0], maximumStreams), steps[1..], Note(h, s, steps[0], maximumStreams), maximumStreams)
  }

  lemma {:induction false} RunOrigins(s: Store, steps: seq<Step>, end: Store, h: History, maximumStreams: nat)
    requires OriginsOk(s, h) && Reaches(s, steps, end, maximumStreams)
    ensures OriginsOk(end, HistoryOf(s, steps, h, maximumStreams))
    decreases |steps|
  {
    if steps != [] {
      StepOrigins(s, h, steps[0], maximumStreams);
      RunOrigins(After(s, steps[0], maximumStreams), steps[1..], end, Note(h, s, steps[0], maximumStreams), maximumStreams);
    }
  }

  /** Over any interleaving: a stored frame has the pixels of a picture that was decoded for its
      surface under its number, and the alpha plane that was sent for it, or the one that was the
      last of its stream in this epoch when it asked to use that again. */
  lemma PixelsAreTheirs(steps: seq<Step>, end: Store, maximumStreams: nat, id: Resource)
    requires Reaches(NewStore, steps, end, maximumStreams) && id in end.frames
    ensures var h, f := HistoryOf(NewStore, steps, NoHistory, maximumStreams), end.frames[id];
            && (exists serial: nat :: Picture(f.surface, serial, id, f.video) in h.pictures)
            && (f.alpha.Some? ==> Sent(f.surface, id, f.alpha.value) in h.planes || Sent(f.surface, id, f.alpha.value) in h.lent)
  {
    RunOrigins(NewStore, steps, end, NoHistory, maximumStreams);
    assert FrameOrigin(HistoryOf(NewStore, steps, NoHistory, maximumStreams), id, end.frames[id]);
  }

  /** What a stream would lend is the last plane it took in this epoch, and nothing before one. */
  lemma LastPlaneIsLast(steps: seq<Step>, end: Store, maximumStreams: nat, u: Surface)
    requires Reaches(NewStore, steps, end, maximumStreams) && u in end.streams
    ensures var h := HistoryOf(NewStore, steps, NoHistory, maximumStreams);
            && (end.streams[u].lastAlpha.Some? <==> u in h.last)
            && (u in h.last ==> end.streams[u].lastAlpha.value.pixels == h.last[u])
  {
    RunOrigins(NewStore, steps, end, NoHistory, maximumStreams);
    assert StreamOrigins(HistoryOf(NewStore, steps, NoHistory, maximumStreams), u, end.streams[u]);
  }

  /** A picture nobody waits for changes nothing: its stream is gone, reset, or has forgotten it. */
  lemma StalePictureIsIgnored(s: Store, u: Surface, serial: nat, id: Resource, video: Pixels)
    requires u !in s.streams || s.streams[u].serial != serial || s.streams[u].generation != s.generation
             || id !in s.streams[u].pendingIDs
    ensures ReceiveDecoded(s, u, serial, id, video) == s
  {
  }
}
