/** What one endpoint's state says about the frames it has queued and acted on.
    Everything here holds whatever the peer sends. */
module SessionInvariant {
  import opened Bytes
  import opened Wrappers
  import opened FileFrames
  import opened SessionState

  // ---- One stream, seen through a log of frames ----

  /** One direction of a stream: answered by a RESPONSE, ended, DATA bytes carried. */
  datatype Track = Track(answered: bool, ended: bool, bytes: nat)

  predicate Carries(f: Frame) { f.kind.Request? || f.kind.Response? || f.kind.Payload? }

  function Advance(t: Track, f: Frame, id: nat): Track {
    if f.id != id || !Carries(f) then t
    else Track(t.answered || f.kind.Response?, t.ended || f.end, t.bytes + if f.kind.Payload? then |f.payload| else 0)
  }

  function Follow(log: seq<Frame>, id: nat): Track {
    if log == [] then Track(false, false, 0) else Advance(Follow(log[..|log| - 1], id), log[|log| - 1], id)
  }

  function LastRequest(log: seq<Frame>): nat {
    if log == [] then 0
    else if log[|log| - 1].kind.Request? then log[|log| - 1].id
    else LastRequest(log[..|log| - 1])
  }

  /** The messages one frame holds for a stream: an empty DATA only carries END. */
  function MessageOf(f: Frame, id: nat): seq<Message> {
    if f.id != id then []
    else if f.kind.Response? && |f.payload| >= 4 then [Message(Status(Decode32(f.payload, 0)), f.payload[4..], f.end)]
    else if f.kind.Payload? && f.payload != [] then [Message(Bulk, f.payload, f.end)]
    else []
  }

  function Messages(log: seq<Frame>, id: nat): seq<Message> {
    if log == [] then [] else Messages(log[..|log| - 1], id) + MessageOf(log[|log| - 1], id)
  }

  lemma Snoc(log: seq<Frame>, f: Frame, id: nat)
    ensures Follow(log + [f], id) == Advance(Follow(log, id), f, id)
    ensures Messages(log + [f], id) == Messages(log, id) + MessageOf(f, id)
    ensures LastRequest(log + [f]) == if f.kind.Request? then f.id else LastRequest(log)
  {
    assert (log + [f])[..|log|] == log;
  }

  lemma {:induction false} Absent(log: seq<Frame>, id: nat)
    requires forall f <- log :: Carries(f) ==> f.id != id
    ensures Follow(log, id) == Track(false, false, 0) && Messages(log, id) == []
  {
    if log != [] { Absent(log[..|log| - 1], id); }
  }

  lemma MessagesJoin(a: seq<Frame>, b: seq<Frame>, f: Frame, id: nat)
    requires Messages(a + b, id) == Messages(a, id) + Messages(b, id)
    ensures Messages((a + b) + [f], id) == Messages(a, id) + Messages(b + [f], id)
  {
    Snoc(a + b, f, id);
    Snoc(b, f, id);
    Associative(Messages(a, id), Messages(b, id), MessageOf(f, id));
  }

  lemma {:induction false} MessagesAppend(a: seq<Frame>, b: seq<Frame>, id: nat)
    ensures Messages(a + b, id) == Messages(a, id) + Messages(b, id)
    decreases |b|
  {
    if |b| > 0 {
      var front, f := b[..|b| - 1], b[|b| - 1];
      assert b == front + [f];
      MessagesAppend(a, front, id);
      MessagesJoin(a, front, f, id);
      assert a + b == (a + front) + [f];
    } else {
      assert a + b == a && Messages(b, id) == [];
    }
  }

  lemma Associative<T>(a: seq<T>, b: seq<T>, c: seq<T>)
    ensures (a + b) + c == a + (b + c)
  {
  }

  // ---- Frames a conforming sender may queue after the ones before ----

  predicate LegalFrame(before: seq<Frame>, f: Frame, role: Role) {
    && f.WellFormed()
    && match f.kind
       case Hello => before == [] && f == HelloFrame(role)
       case Request => before != [] && OwnID(role, f.id) && f.id > LastRequest(before) && |f.payload| >= 4
       case Response =>
         && before != [] && PeerID(role, f.id) && |f.payload| >= 4
         && !Follow(before, f.id).answered && !Follow(before, f.id).ended
       case Payload =>
         && before != [] && f.id != 0
         && (if OwnID(role, f.id) then f.id <= LastRequest(before) else Follow(before, f.id).answered)
         && !Follow(before, f.id).ended
         && Follow(before, f.id).bytes + |f.payload| <= STREAM_DATA_MAXIMUM
       case Cancel => before != [] && f.id != 0 && f.payload == []
       case Notify => before != [] && f.id == 0 && |f.payload| >= 4
  }

  ghost predicate Legal(log: seq<Frame>, role: Role) {
    forall k :: 0 <= k < |log| ==> LegalFrame(log[..k], log[k], role)
  }

  lemma LegalSnoc(log: seq<Frame>, f: Frame, role: Role)
    requires Legal(log, role) && LegalFrame(log, f, role)
    ensures Legal(log + [f], role)
  {
    forall k | 0 <= k < |log + [f]| ensures LegalFrame((log + [f])[..k], (log + [f])[k], role) {
      assert (log + [f])[..k] == log[..k];
    }
  }

  // ---- The invariant ----

  function TakenFrom(results: seq<Delivery>): seq<Message> {
    if results == [] then []
    else
      var last := results[|results| - 1];
      TakenFrom(results[..|results| - 1]) + if last.Got? then [last.message] else []
  }

  function BulkBytes(messages: seq<Message>): nat {
    if messages == [] then 0
    else BulkBytes(messages[1..]) + if messages[0].content.Bulk? then |messages[0].body| else 0
  }

  /** The half of a stream that depends on the frames this side queued. */
  predicate SendingOk(st: Stream, out: Track) {
    && st.sent == out.bytes <= STREAM_DATA_MAXIMUM
    && st.localEnded == out.ended
    && (st.responder ==> st.responded == out.answered)
  }

  /** The half of a stream that depends on the frames this side acted on. */
  predicate ReceivingOk(st: Stream, inn: Track, messages: seq<Message>) {
    if st.cancelled then st.inbound == []
    else
      && st.received == inn.bytes
      && st.remoteEnded == inn.ended
      && (st.responder || st.responded == inn.answered)
      && TakenFrom(st.results) + st.inbound == messages
      && (Finished in st.results ==> st.remoteEnded && st.inbound == [])
  }

  /** Bounds on the buffer, and no wakeup is lost. `told` is false only while the
      session has failed and its receivers are about to be told. */
  predicate WaitingOk(st: Stream, told: bool) {
    && st.received <= STREAM_DATA_MAXIMUM
    && BulkBytes(st.inbound) <= st.received
    && (st.waiting ==> st.inbound == [] && !st.cancelled && !st.remoteEnded && told)
    && st.calls == |st.results| + if st.waiting then 1 else 0
  }

  predicate Told(s: Session) { s.failure.None? || s.closing }

  predicate StreamOk(s: Session, id: nat, st: Stream) {
    && st.responder == PeerID(s.role, id)
    && 0 < id <= (if st.responder then s.lastPeerID else LastRequest(s.accepted))
    && SendingOk(st, Follow(s.accepted, id))
    && ReceivingOk(st, Follow(s.dispatched, id), Messages(s.dispatched, id))
    && WaitingOk(st, Told(s))
  }

  function Responders(streams: map<nat, Stream>): set<nat> { set id | id in streams && streams[id].responder }

  function Pending(frames: seq<Queued>, writing: Option<Queued>): multiset<nat> {
    Resume(Tickets(frames), if writing.Some? then writing.value.ticket else None)
  }

  /** Every suspended `write` is either still pending, once, or was resumed, once. */
  ghost predicate TicketsOk(pending: multiset<nat>, resumed: multiset<nat>, tickets: nat) {
    forall t: nat :: (pending + resumed)[t] == if t < tickets then 1 else 0
  }

  predicate KnownID(role: Role, id: nat, nextID: nat, lastPeerID: nat) {
    if PeerID(role, id) then id <= lastPeerID else 0 < id < nextID
  }

  ghost predicate KnownIDs(role: Role, log: seq<Frame>, nextID: nat, lastPeerID: nat) {
    forall f <- log :: Carries(f) ==> KnownID(role, f.id, nextID, lastPeerID)
  }

  ghost predicate NumbersOk(s: Session) {
    && s.accepted != []
    && LastRequest(s.accepted) < s.nextID
    && s.lastPeerID == LastRequest(s.dispatched) <= UINT32_MAX
    && s.inboundStreams == |Responders(s.streams)| <= MAXIMUM_INBOUND_STREAMS
    && (s.closing ==> s.failure.Some?)
    && PumpOk(s)
  }

  /** No frame is forgotten: while one is queued a write is under way or a pump will come. */
  predicate PumpOk(s: Session) {
    s.failure.None? && s.writing.None? && s.frames != [] ==> s.pumps > 0
  }

  ghost predicate OwedOk(owed: set<nat>) { forall id <- owed :: 0 < id <= UINT32_MAX }

  ghost predicate StreamsOk(s: Session) {
    forall id <- s.streams :: StreamOk(s, id, s.streams[id])
  }

  ghost predicate Valid(s: Session) {
    && NumbersOk(s)
    && OwnID(s.role, s.nextID) && s.nextID <= UINT32_MAX
    && OwedOk(s.owed)
    && Legal(s.accepted, s.role)
    && KnownIDs(s.role, s.accepted, s.nextID, s.lastPeerID)
    && KnownIDs(s.role, s.dispatched, s.nextID, s.lastPeerID)
    && TicketsOk(Pending(s.frames, s.writing), s.resumed, s.tickets)
    && StreamsOk(s)
  }
}
