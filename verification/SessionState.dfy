/** The state of one NPFR v2 session and what each of its lock sections does to
    it. A lock section is one function here, so a run of the session is a
    sequence of them in any order the threads happen to take the lock. */
module SessionState {
  import opened Bytes
  import opened Wrappers
  import opened FileFrames

  const STREAM_DATA_MAXIMUM := 1024 * 1024
  const MAXIMUM_INBOUND_STREAMS := 64
  const MAXIMUM_PENDING_CONTROL := 65536

  datatype Errno = EPROTO | EMSGSIZE | EOVERFLOW | ECANCELED | EINVAL | EPIPE | EBUSY | ENOBUFS | ECONNRESET

  datatype Content = Status(status: nat) | Bulk
  datatype Message = Message(content: Content, body: Data, end: bool)

  /** How one call of `receive` completed. */
  datatype Delivery = Got(message: Message) | Finished | Failed(error: Errno)

  /** `calls` and `results` record the history of `receive` on the stream. */
  datatype Stream = Stream(
    responder: bool,
    responded: bool,
    localEnded: bool,
    remoteEnded: bool,
    cancelled: bool,
    sent: nat,
    received: nat,
    inbound: seq<Message>,
    waiting: bool,
    calls: nat,
    results: seq<Delivery>)
  {
    predicate IsFinished() { localEnded && remoteEnded }

    function Complete(result: Delivery): Stream { this.(waiting := false, results := results + [result]) }

    function Take(): Stream
      requires inbound != []
    {
      Complete(Got(inbound[0])).(inbound := inbound[1..])
    }
  }

  /** A frame in the queue; `ticket` names the suspended `write` that waits for it. */
  datatype Queued = Queued(frame: Frame, ticket: Option<nat>)

  /** `writing` is the frame handed to the connection whose completion has not run
      yet. `greeting` holds between the two lock sections of `start`, `closing` between
      those of `fail`, `owed` has the streams cancelled by a `cancel` that has not
      queued its CANCEL yet, and `pumps` counts the calls of `pump` that are certain
      to follow a section. The rest is history: `accepted` are the frames queued so
      far, `dispatched` the peer's frames acted on so far, `tickets` counts suspended
      writes, `resumed` has the writes completed so far. */
  datatype Session = Session(
    role: Role,
    serves: bool,
    streams: map<nat, Stream>,
    nextID: nat,
    lastPeerID: nat,
    inboundStreams: int,
    frames: seq<Queued>,
    writing: Option<Queued>,
    failure: Option<Errno>,
    started: bool,
    greeting: bool,
    closing: bool,
    owed: set<nat>,
    pumps: nat,
    accepted: seq<Frame>,
    dispatched: seq<Frame>,
    tickets: nat,
    resumed: multiset<nat>)
  {
    /** Queues a frame nobody waits for. */
    function Queue(f: Frame): Session {
      this.(frames := frames + [Queued(f, None)], accepted := accepted + [f], pumps := pumps + 1)
    }

    /** Queues a frame whose sender is suspended until it is written. */
    function QueueWaiting(f: Frame): Session {
      this.(frames := frames + [Queued(f, Some(tickets))], accepted := accepted + [f], tickets := tickets + 1,
            pumps := pumps + 1)
    }

    function With(id: nat, st: Stream): Session { this.(streams := streams[id := st]) }
  }

  function FirstID(role: Role): nat { if role.Host? then 2 else 1 }

  function Fresh(role: Role, serves: bool): Session {
    Session(role, serves, map[], FirstID(role), 0, 0, [], None, None, false, false, false, {}, 0, [], [], 0, multiset{})
  }

  function NewStream(responder: bool): Stream {
    Stream(responder, false, false, false, false, 0, 0, [], false, 0, [])
  }

  function Opcode(value: nat): Data
    requires value < 65536
  {
    [value % 256, value / 256, 0, 0]
  }

  predicate PeerID(role: Role, id: nat) { id != 0 && (id % 2 == 1) != role.Guest? }

  predicate OwnID(role: Role, id: nat) { id != 0 && !PeerID(role, id) }

  // ---- Opening and sending ----

  /** `enqueue`: nothing is queued once the session failed. */
  function Enqueue(s: Session, f: Frame): Session {
    if s.failure.Some? then s else s.Queue(f)
  }

  /** First lock section of `start`; true for the one call that queues HELLO. */
  function StartMark(s: Session): (Session, bool) {
    if s.started then (s, false) else (s.(started := true, greeting := true), true)
  }

  /** Second lock section of `start`; the reader begins after it. */
  function StartHello(s: Session): Session {
    if !s.greeting then s else Enqueue(s.(greeting := false), HelloFrame(s.role))
  }

  predicate Reading(s: Session) { s.started && !s.greeting }

  /** `start` when no other thread takes the lock between its sections. */
  function Start(s: Session): Session {
    if StartMark(s).1 then StartHello(StartMark(s).0) else s
  }

  function SendRequest(s: Session, opcode: nat, body: Data, end: bool): (Session, Result<nat, Errno>)
    requires opcode < 65536
  {
    if |body| > FRAME_MAXIMUM - 4 then (s, Err(EMSGSIZE))
    else if s.failure.Some? then (s, Err(s.failure.value))
    else if s.nextID > UINT32_MAX - 2 then (s, Err(EOVERFLOW))
    else
      var id := s.nextID;
      var st := NewStream(false).(localEnded := end);
      (s.(nextID := id + 2).With(id, st).Queue(Frame(Request, end, id, Opcode(opcode) + body)), Ok(id))
  }

  function SendNotify(s: Session, opcode: nat, body: Data): (Session, Result<nat, Errno>)
    requires opcode < 65536
  {
    if |body| > FRAME_MAXIMUM - 4 then (s, Err(EMSGSIZE))
    else if s.failure.Some? then (s, Err(s.failure.value))
    else (s.QueueWaiting(Frame(Notify, false, 0, Opcode(opcode) + body)), Ok(s.tickets))
  }

  /** What stops a stream from being written, in the order it is checked. */
  function Unusable(s: Session, id: nat): Option<Errno> {
    if s.failure.Some? then s.failure
    else if id !in s.streams || s.streams[id].cancelled then Some(ECANCELED)
    else if s.streams[id].localEnded then Some(EPIPE)
    else None
  }

  function SendResponse(s: Session, id: nat, status: nat, body: Data, end: bool): (Session, Result<nat, Errno>)
    requires status <= UINT32_MAX
  {
    if |body| > FRAME_MAXIMUM - 4 then (s, Err(EMSGSIZE))
    else if Unusable(s, id).Some? then (s, Err(Unusable(s, id).value))
    else
      var st := s.streams[id];
      if !st.responder || st.responded then (s, Err(EINVAL))
      else
        var st' := st.(responded := true, localEnded := st.localEnded || end);
        (s.With(id, st').QueueWaiting(Frame(Response, end, id, Encode32(status) + body)), Ok(s.tickets))
  }

  /** One DATA frame of `send`; `last` finishes the local half. */
  function SendPiece(s: Session, id: nat, bytes: Data, last: bool): (Session, Result<nat, Errno>) {
    if Unusable(s, id).Some? then (s, Err(Unusable(s, id).value))
    else
      var st := s.streams[id];
      if st.responder && !st.responded then (s, Err(EINVAL))
      else if |bytes| > STREAM_DATA_MAXIMUM - st.sent then (s, Err(EMSGSIZE))
      else
        var st' := st.(sent := st.sent + |bytes|, localEnded := st.localEnded || last);
        (s.With(id, st').QueueWaiting(Frame(Payload, last, id, bytes)), Ok(s.tickets))
  }

  datatype Part = Part(bytes: Data, last: bool)

  /** How `send` cuts its bytes into frames; no bytes with an end is one empty frame. */
  function Split(bytes: Data, end: bool): (parts: seq<Part>)
    ensures parts != [] && forall p <- parts :: |p.bytes| <= FRAME_MAXIMUM
    decreases |bytes|
  {
    if |bytes| <= FRAME_MAXIMUM then [Part(bytes, end)]
    else [Part(bytes[..FRAME_MAXIMUM], false)] + Split(bytes[FRAME_MAXIMUM..], end)
  }

  /** Frames of one `send` in order, up to the first that is refused. */
  function SendParts(s: Session, id: nat, parts: seq<Part>): (Session, Option<Errno>)
    decreases |parts|
  {
    if parts == [] then (s, None)
    else
      var (s', sent) := SendPiece(s, id, parts[0].bytes, parts[0].last);
      if sent.Err? then (s', Some(sent.error)) else SendParts(s', id, parts[1..])
  }

  /** `send` when no other thread takes the lock between its frames. */
  function Send(s: Session, id: nat, bytes: Data, end: bool): (Session, Option<Errno>) {
    if bytes == [] && !end then (s, None)
    else if id !in s.streams then (s, Some(ECANCELED))
    else if |bytes| > STREAM_DATA_MAXIMUM - s.streams[id].sent then (s, Some(EMSGSIZE))
    else SendParts(s, id, Split(bytes, end))
  }

  // ---- Receiving and abandoning ----

  /** Completes a waiting receiver when there is something to tell it. */
  function Deliver(st: Stream, failure: Option<Errno>): Stream {
    if !st.waiting then st
    else if st.inbound != [] then st.Take()
    else if st.cancelled then st.Complete(Failed(ECANCELED))
    else if failure.Some? then st.Complete(Failed(failure.value))
    else if st.remoteEnded then st.Complete(Finished)
    else st
  }

  datatype Receipt = Returned(delivery: Delivery) | Suspended

  function ReceiveOn(st: Stream, failure: Option<Errno>): (Stream, Receipt) {
    var st' := st.(calls := st.calls + 1);
    if st.waiting then (st, Returned(Failed(EBUSY)))
    else if st.inbound != [] then (st'.Take(), Returned(Got(st.inbound[0])))
    else if st.cancelled then (st'.Complete(Failed(ECANCELED)), Returned(Failed(ECANCELED)))
    else if st.remoteEnded then (st'.Complete(Finished), Returned(Finished))
    else if failure.Some? then (st'.Complete(Failed(failure.value)), Returned(Failed(failure.value)))
    else (st'.(waiting := true), Suspended)
  }

  function Receive(s: Session, id: nat): (Session, Receipt) {
    if id !in s.streams then (s, Returned(Failed(ECANCELED)))
    else
      var (st, receipt) := ReceiveOn(s.streams[id], s.failure);
      (s.With(id, st), receipt)
  }

  /** Marks a stream cancelled and drops what it buffered. */
  function Abandon(st: Stream, failure: Option<Errno>): Stream {
    Deliver(st.(cancelled := true, inbound := []), failure)
  }

  /** First lock section of `cancel`; true when a CANCEL frame has to follow. */
  function CancelMark(s: Session, id: nat): (Session, bool) {
    if id !in s.streams || s.streams[id].cancelled then (s, false)
    else
      var st := Abandon(s.streams[id], s.failure);
      var send := s.failure.None? && !st.IsFinished();
      (s.With(id, st).(owed := if send then s.owed + {id} else s.owed), send)
  }

  /** Second lock section of `cancel`. */
  function CancelQueue(s: Session, id: nat): Session {
    if id !in s.owed then s
    else Enqueue(s.(owed := s.owed - {id}), Frame(Cancel, false, id, []))
  }

  /** Last lock section of `release`, which comes after `cancel` marked the stream. */
  function Remove(s: Session, id: nat): Session {
    if id !in s.streams || !s.streams[id].cancelled then s
    else s.(streams := s.streams - {id},
            inboundStreams := if s.streams[id].responder then s.inboundStreams - 1 else s.inboundStreams)
  }

  // ---- Writing ----

  function Pump(s: Session): (Session, Option<Frame>) {
    var s' := s.(pumps := if s.pumps > 0 then s.pumps - 1 else 0);
    if s.writing.Some? || s.failure.Some? || s.frames == [] then (s', None)
    else (s'.(writing := Some(s.frames[0]), frames := s.frames[1..]), Some(s.frames[0].frame))
  }

  function Resume(resumed: multiset<nat>, ticket: Option<nat>): multiset<nat> {
    if ticket.Some? then resumed + multiset{ticket.value} else resumed
  }

  /** The connection's completion of the frame being written; it pumps again. */
  function Written(s: Session): Session {
    if s.writing.None? then s
    else s.(writing := None, resumed := Resume(s.resumed, s.writing.value.ticket), pumps := s.pumps + 1)
  }

  function Tickets(frames: seq<Queued>): multiset<nat> {
    if frames == [] then multiset{} else Resume(Tickets(frames[1..]), frames[0].ticket)
  }

  /** First lock section of `fail`: the queue is dropped and its writers resumed. */
  function Fail(s: Session, error: Errno): Session {
    if s.failure.Some? then s
    else s.(failure := Some(error), closing := true, frames := [], resumed := s.resumed + Tickets(s.frames))
  }

  /** Second lock section of `fail`: every waiting receiver is told. */
  function FailDeliver(s: Session): Session {
    if !s.closing then s
    else s.(closing := false, streams := map id | id in s.streams :: Deliver(s.streams[id], s.failure))
  }

  // ---- Reading ----

  datatype Verdict =
    | Handled
    | Serve(id: nat, opcode: nat, body: Data)
    | Notified(opcode: nat, body: Data)
    | Reject(error: Errno)

  function Decode16(bytes: Data): nat
    requires |bytes| >= 2
  {
    var low: int, high: int := bytes[0], bytes[1];
    low + 256 * high
  }

  function Log(s: Session, f: Frame): Session { s.(dispatched := s.dispatched + [f]) }

  /** The first frame must be the HELLO of the other role. */
  predicate AcceptsHello(role: Role, f: Frame) {
    && f.kind.Hello? && f.id == 0 && |f.payload| == 8
    && f.payload[0] == VERSION && f.payload[1] != role.Raw() && f.payload[1] <= 1
    && f.payload[2] == 0 && f.payload[3] == 0
  }

  function DispatchRequest(s: Session, f: Frame): (Session, Verdict) {
    if !PeerID(s.role, f.id) || f.id <= s.lastPeerID || |f.payload| < 4 then (s, Reject(EPROTO))
    else
      var s' := s.(lastPeerID := f.id);
      if !s.serves || s.inboundStreams >= MAXIMUM_INBOUND_STREAMS then
        if |s.frames| >= MAXIMUM_PENDING_CONTROL then (Log(s', f), Reject(ENOBUFS))
        else (Log(s', f).Queue(Frame(Cancel, false, f.id, [])), Handled)
      else
        var st := NewStream(true).(remoteEnded := f.end);
        (Log(s', f).With(f.id, st).(inboundStreams := s.inboundStreams + 1),
         Serve(f.id, Decode16(f.payload), f.payload[4..]))
  }

  function AddResponse(st: Stream, f: Frame): Stream
    requires |f.payload| >= 4
  {
    var message := Message(Status(Decode32(f.payload, 0)), f.payload[4..], f.end);
    st.(responded := true, inbound := st.inbound + [message], remoteEnded := st.remoteEnded || f.end)
  }

  function DispatchResponse(s: Session, f: Frame): (Session, Verdict) {
    if f.id == 0 || PeerID(s.role, f.id) || |f.payload| < 4 then (s, Reject(EPROTO))
    else if f.id !in s.streams then
      if f.id < s.nextID then (Log(s, f), Handled) else (s, Reject(EPROTO))
    else
      var st := s.streams[f.id];
      if st.cancelled then (Log(s, f), Handled)
      else if st.responded || st.remoteEnded then (s, Reject(EPROTO))
      else (Log(s, f).With(f.id, Deliver(AddResponse(st, f), s.failure)), Handled)
  }

  /** An empty DATA only carries END; it is not delivered as a message. */
  function AddPayload(st: Stream, f: Frame): Stream {
    var more := if f.payload == [] then [] else [Message(Bulk, f.payload, f.end)];
    st.(received := st.received + |f.payload|, inbound := st.inbound + more, remoteEnded := st.remoteEnded || f.end)
  }

  function DispatchPayload(s: Session, f: Frame): (Session, Verdict) {
    if f.id == 0 || !(if PeerID(s.role, f.id) then f.id <= s.lastPeerID else f.id < s.nextID) then (s, Reject(EPROTO))
    else if f.id !in s.streams || s.streams[f.id].cancelled then (Log(s, f), Handled)
    else
      var st := s.streams[f.id];
      if st.remoteEnded || !(st.responder || st.responded) || |f.payload| > STREAM_DATA_MAXIMUM - st.received
      then (s, Reject(EPROTO))
      else (Log(s, f).With(f.id, Deliver(AddPayload(st, f), s.failure)), Handled)
  }

  /** `dispatchLocked`, preceded by the reader's HELLO. */
  function Dispatch(s: Session, f: Frame): (Session, Verdict) {
    if s.dispatched == [] then
      if AcceptsHello(s.role, f) then (Log(s, f), Handled) else (s, Reject(EPROTO))
    else
      match f.kind
      case Hello => (s, Reject(EPROTO))
      case Cancel =>
        if f.id == 0 || f.payload != [] then (s, Reject(EPROTO))
        else if f.id !in s.streams || s.streams[f.id].cancelled then (Log(s, f), Handled)
        else (Log(s, f).With(f.id, Abandon(s.streams[f.id], s.failure)), Handled)
      case Request => DispatchRequest(s, f)
      case Response => DispatchResponse(s, f)
      case Payload => DispatchPayload(s, f)
      case Notify =>
        if f.id != 0 || |f.payload| < 4 then (s, Reject(EPROTO))
        else (Log(s, f), Notified(Decode16(f.payload), f.payload[4..]))
  }
}
