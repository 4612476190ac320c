/** What the callers of one session pass to it is what the handlers and receivers of the other
    are given, and a stream one side gives up is given up by the other. */
module SessionCalls {
  import opened Bytes
  import opened Wrappers
  import opened FileFrames
  import opened SessionState
  import opened SessionInvariant
  import opened SessionSteps
  import opened SessionGreeting
  import opened SessionNetwork
  import opened SessionPipe

  // ---- One call ----

  function Last(log: seq<Frame>): Frame
    requires log != []
  {
    log[|log| - 1]
  }

  /** A session that would serve the next request. */
  predicate HasRoom(s: Session) { s.serves && s.inboundStreams < MAXIMUM_INBOUND_STREAMS }

  lemma OpcodeComesBack(opcode: UInt16, body: Data)
    ensures var payload := Opcode(opcode) + body;
            |payload| == 4 + |body| && Decode16(payload) == opcode && payload[4..] == body
  {
  }

  /** The handler of the other side is given the opcode and the body that were passed to
      `request`, on a new stream whose remote half is ended exactly if the caller asked for it. */
  lemma RequestIsServed(s: Session, peer: Session, opcode: UInt16, body: Data, end: bool)
    requires SendRequest(s, opcode, body, end).1.Ok? && OwnID(s.role, s.nextID)
    requires peer.role != s.role && peer.dispatched != [] && HasRoom(peer) && peer.lastPeerID < s.nextID
    ensures var (t, id) := SendRequest(s, opcode, body, end);
            var (peer', verdict) := Dispatch(peer, Last(t.accepted));
            && verdict == Serve(id.value, opcode, body)
            && id.value in t.streams && !t.streams[id.value].responder && t.streams[id.value].localEnded == end
            && id.value in peer'.streams
            && var st := peer'.streams[id.value];
               && st.responder && st.remoteEnded == end
               && !st.responded && !st.localEnded && !st.cancelled && st.inbound == [] && st.sent == st.received == 0
  {
    OpcodeComesBack(opcode, body);
  }

  /** A session without a handler or a free place answers a request with CANCEL, which gives
      the caller's stream up. */
  lemma RefusalGivesUp(s: Session, peer: Session, opcode: UInt16, body: Data, end: bool)
    requires SendRequest(s, opcode, body, end).1.Ok? && OwnID(s.role, s.nextID) && s.dispatched != []
    requires peer.role != s.role && peer.dispatched != [] && !HasRoom(peer) && peer.lastPeerID < s.nextID
    requires |peer.frames| < MAXIMUM_PENDING_CONTROL
    ensures var (t, id) := SendRequest(s, opcode, body, end);
            var (peer', verdict) := Dispatch(peer, Last(t.accepted));
            && verdict == Handled && peer'.streams == peer.streams && peer'.accepted != []
            && Dispatch(t, Last(peer'.accepted)).1 == Handled
            && id.value in Dispatch(t, Last(peer'.accepted)).0.streams
            && Dispatch(t, Last(peer'.accepted)).0.streams[id.value].cancelled
  {
    OpcodeComesBack(opcode, body);
  }

  lemma NoticeIsGiven(s: Session, peer: Session, opcode: UInt16, body: Data)
    requires SendNotify(s, opcode, body).1.Ok? && peer.dispatched != []
    ensures Dispatch(peer, Last(SendNotify(s, opcode, body).0.accepted)).1 == Notified(opcode, body)
  {
    OpcodeComesBack(opcode, body);
  }

  /** The streams on which an answer or data can arrive. */
  predicate Listens(s: Session, id: nat) {
    && s.dispatched != [] && id != 0 && id in s.streams && !s.streams[id].cancelled && !s.streams[id].remoteEnded
    && s.streams[id].responder == PeerID(s.role, id)
  }

  function Delivered(s: Session, id: nat): seq<Message>
    requires id in s.streams
  {
    TakenFrom(s.streams[id].results) + s.streams[id].inbound
  }

  lemma TakeMoves(st: Stream)
    requires st.inbound != []
    ensures TakenFrom(st.Take().results) + st.Take().inbound == TakenFrom(st.results) + st.inbound
  {
    TakenSnoc(st.results, Got(st.inbound[0]));
    assert st.inbound == [st.inbound[0]] + st.inbound[1..];
    Associative(TakenFrom(st.results), [st.inbound[0]], st.inbound[1..]);
  }

  lemma CompleteMoves(st: Stream, result: Delivery)
    requires !result.Got?
    ensures TakenFrom(st.Complete(result).results) == TakenFrom(st.results)
  {
    TakenSnoc(st.results, result);
  }

  /** Delivering moves messages from the buffer to the receiver. */
  lemma DeliverMoves(st: Stream, failure: Option<Errno>)
    ensures TakenFrom(Deliver(st, failure).results) + Deliver(st, failure).inbound == TakenFrom(st.results) + st.inbound
    ensures Deliver(st, failure).remoteEnded == st.remoteEnded
  {
    if st.waiting && st.inbound != [] {
      TakeMoves(st);
    } else {
      CompleteMoves(st, Failed(ECANCELED));
      CompleteMoves(st, Finished);
      if failure.Some? { CompleteMoves(st, Failed(failure.value)); }
    }
  }

  lemma ResponseBody(status: UInt32, body: Data)
    ensures var payload := Encode32(status) + body;
            |payload| == 4 + |body| && Decode32(payload, 0) == status && payload[4..] == body
  {
    DecodeWithin([], status, body);
    assert [] + Encode32(status) + body == Encode32(status) + body;
  }

  lemma ResponseArrives(s: Session, peer: Session, id: nat, status: UInt32, body: Data, end: bool)
    requires SendResponse(s, id, status, body, end).1.Ok?
    requires Listens(peer, id) && OwnID(peer.role, id) && !peer.streams[id].responded
    ensures var (peer', verdict) := Dispatch(peer, Last(SendResponse(s, id, status, body, end).0.accepted));
            && verdict == Handled && id in peer'.streams && peer'.streams[id].remoteEnded == end
            && Delivered(peer', id) == Delivered(peer, id) + [Message(Status(status), body, end)]
  {
    ResponseBody(status, body);
    var f := Frame(Response, end, id, Encode32(status) + body);
    var st := AddResponse(peer.streams[id], f);
    DeliverMoves(st, peer.failure);
    Associative(TakenFrom(st.results), peer.streams[id].inbound, [Message(Status(status), body, end)]);
  }

  lemma PayloadDelivered(st: Stream, id: nat, bytes: Piece, last: bool, failure: Option<Errno>)
    requires !st.remoteEnded
    ensures var st' := Deliver(AddPayload(st, Frame(Payload, last, id, bytes)), failure);
            && st'.remoteEnded == last
            && TakenFrom(st'.results) + st'.inbound
               == TakenFrom(st.results) + st.inbound + if bytes == [] then [] else [Message(Bulk, bytes, last)]
  {
    DeliverMoves(AddPayload(st, Frame(Payload, last, id, bytes)), failure);
    Associative(TakenFrom(st.results), st.inbound, if bytes == [] then [] else [Message(Bulk, bytes, last)]);
  }

  lemma PieceArrives(s: Session, peer: Session, id: nat, bytes: Piece, last: bool)
    requires SendPiece(s, id, bytes, last).1.Ok?
    requires Listens(peer, id) && KnownID(peer.role, id, peer.nextID, peer.lastPeerID)
    requires (peer.streams[id].responder || peer.streams[id].responded)
    requires |bytes| <= STREAM_DATA_MAXIMUM - peer.streams[id].received
    ensures var (peer', verdict) := Dispatch(peer, Last(SendPiece(s, id, bytes, last).0.accepted));
            && verdict == Handled && id in peer'.streams && peer'.streams[id].remoteEnded == last
            && Delivered(peer', id) == Delivered(peer, id) + if bytes == [] then [] else [Message(Bulk, bytes, last)]
  {
    var f := Frame(Payload, last, id, bytes);
    PayloadDelivered(peer.streams[id], id, bytes, last, peer.failure);
    assert Last(SendPiece(s, id, bytes, last).0.accepted) == f;
    assert Dispatch(peer, f) == (Log(peer, f).With(id, Deliver(AddPayload(peer.streams[id], f), peer.failure)), Handled);
  }

  // ---- What was asked for and said, and the log of frames ----

  datatype Call = Invocation(id: nat, opcode: nat, body: Data, end: bool) | Notice(opcode: nat, body: Data)

  /** The request or notification a section of the caller had accepted. */
  function CallOf(s: Session, step: Step): seq<Call> {
    match step
    case Open(opcode, body, end) =>
      var (_, id) := SendRequest(s, opcode, body, end);
      if id.Ok? then [Invocation(id.value, opcode, body, end)] else []
    case Announce(opcode, body) => if SendNotify(s, opcode, body).1.Ok? then [Notice(opcode, body)] else []
    case _ => []
  }

  /** What a section said on a stream: an answer, or data that is not empty. */
  function SaidOf(s: Session, step: Step, id: nat): seq<Message> {
    match step
    case Answer(i, status, body, end) =>
      if i == id && SendResponse(s, i, status, body, end).1.Ok? then [Message(Status(status), body, end)] else []
    case Stream(i, bytes, last) =>
      if i == id && bytes != [] && SendPiece(s, i, bytes, last).1.Ok? then [Message(Bulk, bytes, last)] else []
    case _ => []
  }

  function FrameCall(f: Frame): seq<Call> {
    if |f.payload| < 4 then []
    else
      match f.kind
      case Request => [Invocation(f.id, Decode16(f.payload), f.payload[4..], f.end)]
      case Notify => [Notice(Decode16(f.payload), f.payload[4..])]
      case _ => []
  }

  function CallsIn(log: seq<Frame>): seq<Call> {
    if log == [] then [] else CallsIn(log[..|log| - 1]) + FrameCall(log[|log| - 1])
  }

  lemma CallsSnoc(log: seq<Frame>, f: Frame)
    ensures CallsIn(log + [f]) == CallsIn(log) + FrameCall(f)
  {
    assert (log + [f])[..|log|] == log;
  }

  lemma {:induction false} CallsAppend(a: seq<Frame>, b: seq<Frame>)
    ensures CallsIn(a + b) == CallsIn(a) + CallsIn(b)
    decreases |b|
  {
    if |b| > 0 {
      var front, f := b[..|b| - 1], b[|b| - 1];
      assert b == front + [f];
      CallsAppend(a, front);
      CallsJoin(a, front, f);
      assert a + b == (a + front) + [f];
    } else {
      assert a + b == a && CallsIn(b) == [];
    }
  }

  lemma CallsJoin(a: seq<Frame>, b: seq<Frame>, f: Frame)
    requires CallsIn(a + b) == CallsIn(a) + CallsIn(b)
    ensures CallsIn((a + b) + [f]) == CallsIn(a) + CallsIn(b + [f])
  {
    CallsSnoc(a + b, f);
    CallsSnoc(b, f);
    Associative(CallsIn(a), CallsIn(b), FrameCall(f));
  }

  /** The log grew by frames that hold these calls and say this on the stream. */
  predicate Grew(s: Session, t: Session, calls: seq<Call>, id: nat, said: seq<Message>) {
    CallsIn(t.accepted) == CallsIn(s.accepted) + calls && Messages(t.accepted, id) == Messages(s.accepted, id) + said
  }

  lemma GrewBy(s: Session, t: Session, f: Frame, id: nat)
    requires t.accepted == s.accepted + [f]
    ensures Grew(s, t, FrameCall(f), id, MessageOf(f, id))
  {
    CallsSnoc(s.accepted, f);
    Snoc(s.accepted, f, id);
  }

  lemma OpenSays(s: Session, step: Step, id: nat)
    requires step.Open?
    ensures Grew(s, Local(s, step), CallOf(s, step), id, [])
  {
    OpcodeComesBack(step.opcode, step.body);
    if SendRequest(s, step.opcode, step.body, step.end).1.Ok? {
      GrewBy(s, Local(s, step), Frame(Request, step.end, s.nextID, Opcode(step.opcode) + step.body), id);
    }
  }

  lemma AnnounceSays(s: Session, step: Step, id: nat)
    requires step.Announce?
    ensures Grew(s, Local(s, step), CallOf(s, step), id, [])
  {
    OpcodeComesBack(step.opcode, step.body);
    if SendNotify(s, step.opcode, step.body).1.Ok? {
      GrewBy(s, Local(s, step), Frame(Notify, false, 0, Opcode(step.opcode) + step.body), id);
    }
  }

  lemma AnswerSays(s: Session, step: Step, id: nat)
    requires step.Answer?
    ensures Grew(s, Local(s, step), [], id, SaidOf(s, step, id))
  {
    ResponseBody(step.status, step.body);
    if SendResponse(s, step.id, step.status, step.body, step.end).1.Ok? {
      GrewBy(s, Local(s, step), Frame(Response, step.end, step.id, Encode32(step.status) + step.body), id);
    }
  }

  lemma PieceSays(s: Session, step: Step, id: nat)
    requires step.Stream?
    ensures Grew(s, Local(s, step), [], id, SaidOf(s, step, id))
  {
    if SendPiece(s, step.id, step.bytes, step.last).1.Ok? {
      GrewBy(s, Local(s, step), Frame(Payload, step.last, step.id, step.bytes), id);
    }
  }

  function QuietFrame(s: Session, step: Step): Frame {
    match step
    case AbortQueue(id) => Frame(Cancel, false, id, [])
    case _ => HelloFrame(s.role)
  }

  lemma QuietQueues(s: Session, step: Step)
    requires !step.Open? && !step.Announce? && !step.Answer? && !step.Stream?
    ensures var t := Local(s, step);
            t.accepted == s.accepted || ((step.Greet? || step.AbortQueue?) && t.accepted == s.accepted + [QuietFrame(s, step)])
  {
  }

  lemma QuietSays(s: Session, step: Step, id: nat)
    requires !step.Open? && !step.Announce? && !step.Answer? && !step.Stream?
    ensures Grew(s, Local(s, step), [], id, [])
  {
    QuietQueues(s, step);
    if Local(s, step).accepted != s.accepted { GrewBy(s, Local(s, step), QuietFrame(s, step), id); }
  }

  lemma LocalSays(s: Session, step: Step, id: nat)
    ensures Grew(s, Local(s, step), CallOf(s, step), id, SaidOf(s, step, id))
  {
    match step
    case Open(_, _, _) => OpenSays(s, step, id);
    case Announce(_, _) => AnnounceSays(s, step, id);
    case Answer(_, _, _, _) => AnswerSays(s, step, id);
    case Stream(_, _, _) => PieceSays(s, step, id);
    case _ => QuietSays(s, step, id);
  }

  /** Acting on a frame queues at most a refusal. */
  lemma ActRefuses(s: Session, f: Frame)
    ensures var t := Act(s, f);
            || t.accepted == s.accepted
            || (t.accepted == s.accepted + [Frame(Cancel, false, f.id, [])] && s.dispatched != [] && f.kind.Request? && !HasRoom(s)
                && PeerID(s.role, f.id))
  {
    if s.dispatched != [] {
      match f.kind
      case Response => ResponseHistory(s, f, s.accepted);
      case Payload => PayloadHistory(s, f, s.accepted);
      case _ =>
    }
  }

  lemma ActSays(s: Session, f: Frame, id: nat)
    ensures Grew(s, Act(s, f), [], id, [])
  {
    ActRefuses(s, f);
    if Act(s, f).accepted != s.accepted { GrewBy(s, Act(s, f), Frame(Cancel, false, f.id, []), id); }
  }

  // ---- Over runs: what the callers did ----

  function On(n: Net, far: bool): Session { if far then n.far else n.near }

  /** The requests and notifications the callers of one side had accepted so far. */
  function Made(n: Net, moves: seq<Move>, far: bool): seq<Call> {
    if moves == [] then []
    else
      var front, m := moves[..|moves| - 1], moves[|moves| - 1];
      Made(n, front, far) + if m.far == far then CallOf(On(Run(n, front), far), m.step) else []
  }

  /** What they had accepted for one stream. */
  function Said(n: Net, moves: seq<Move>, far: bool, id: nat): seq<Message> {
    if moves == [] then []
    else
      var front, m := moves[..|moves| - 1], moves[|moves| - 1];
      Said(n, front, far, id) + if m.far == far then SaidOf(On(Run(n, front), far), m.step, id) else []
  }

  lemma OtherStands(n: Net, m: Move)
    ensures On(Take(n, m), !m.far) == On(n, !m.far)
  {
  }

  lemma MoveSays(n: Net, m: Move, id: nat)
    ensures Grew(On(n, m.far), On(Take(n, m), m.far), CallOf(On(n, m.far), m.step), id, SaidOf(On(n, m.far), m.step, id))
  {
    var s := On(n, m.far);
    var wire := if m.far then n.outgoing else n.incoming;
    MoveActs(n, m);
    if m.step.Transmit? {
      PumpSays(s, id);
    } else if m.step.Read? {
      if wire != [] { ActSays(s, wire[0], id); }
    } else {
      LocalSays(s, m.step, id);
    }
  }

  lemma PumpSays(s: Session, id: nat)
    ensures Grew(s, Pump(s).0, [], id, [])
  {
  }

  /** What a move does to the side that makes it. */
  lemma MoveActs(n: Net, m: Move)
    ensures var s, t, wire := On(n, m.far), On(Take(n, m), m.far), if m.far then n.outgoing else n.incoming;
            if m.step.Transmit? then t == Pump(s).0
            else if m.step.Read? then t == if wire == [] || !Reading(s) then s else Act(s, wire[0])
            else t == Local(s, m.step)
  {
  }

  lemma {:induction false} RunSays(n: Net, moves: seq<Move>, far: bool, id: nat)
    requires Initial(n)
    ensures CallsIn(On(Run(n, moves), far).accepted) == Made(n, moves, far)
    ensures Messages(On(Run(n, moves), far).accepted, id) == Said(n, moves, far, id)
  {
    if moves != [] {
      var front := moves[..|moves| - 1];
      RunSays(n, front, far, id);
      MoveSays(Run(n, front), moves[|moves| - 1], id);
      OtherStands(Run(n, front), moves[|moves| - 1]);
    }
  }

  // ---- Over runs: what the handlers were given ----

  /** What reading one frame comes to for the handlers: a call, unless a request was refused. */
  datatype Outcome = Outcome(given: Option<Call>, room: bool)

  function OutcomeOf(s: Session, f: Frame): seq<Outcome> {
    var (t, verdict) := Dispatch(s, f);
    match verdict
    case Serve(id, opcode, body) => [Outcome(Some(Invocation(id, opcode, body, id in t.streams && t.streams[id].remoteEnded)), HasRoom(s))]
    case Notified(opcode, body) => [Outcome(Some(Notice(opcode, body)), HasRoom(s))]
    case _ => if f.kind.Request? && s.dispatched != [] then [Outcome(None, HasRoom(s))] else []
  }

  function ReadBy(n: Net, m: Move): seq<Outcome> {
    var s, wire := On(n, m.far), if m.far then n.outgoing else n.incoming;
    if m.step.Read? && wire != [] && Reading(s) then OutcomeOf(s, wire[0]) else []
  }

  function HandledBy(n: Net, moves: seq<Move>, far: bool): seq<Outcome> {
    if moves == [] then []
    else
      var front, m := moves[..|moves| - 1], moves[|moves| - 1];
      HandledBy(n, front, far) + if m.far == far then ReadBy(Run(n, front), m) else []
  }

  /** Each call was handed over exactly as it was made; only a request that found no handler
      or no free place was not. */
  predicate Faithful(o: Outcome, c: Call) { o.given == if c.Invocation? && !o.room then None else Some(c) }

  predicate AllFaithful(outcomes: seq<Outcome>, calls: seq<Call>) {
    |outcomes| == |calls| && forall k :: 0 <= k < |calls| ==> Faithful(outcomes[k], calls[k])
  }

  lemma ReadIsFaithful(s: Session, f: Frame)
    requires Dispatch(s, f).1 != Reject(EPROTO)
    ensures AllFaithful(OutcomeOf(s, f), FrameCall(f)) && Act(s, f).dispatched == s.dispatched + [f]
  {
    ActQueues(s, f);
  }

  /** The frame a move reads is one the reader acts on. */
  predicate ReadsSafely(n: Net, m: Move) {
    var wire := Wire(n, !m.far);
    m.step.Read? && wire != [] ==> Dispatch(On(n, m.far), wire[0]).1 != Reject(EPROTO)
  }

  lemma RunReadsSafely(n: Net, moves: seq<Move>, m: Move)
    requires Initial(n) && Polite(n, moves)
    ensures ReadsSafely(Run(n, moves), m)
  {
    RunValid(n, moves);
    var s := Run(n, moves);
    if m.far {
      if s.outgoing != [] { NearReadAccepts(s.Flip()); }
    } else {
      if s.incoming != [] { NearReadAccepts(s); }
    }
  }

  function ReadNow(n: Net, m: Move): seq<Frame> {
    var wire := Wire(n, !m.far);
    if m.step.Read? && wire != [] && Reading(On(n, m.far)) then [wire[0]] else []
  }

  lemma MoveReads(n: Net, m: Move)
    requires ReadsSafely(n, m)
    ensures On(Take(n, m), m.far).dispatched == On(n, m.far).dispatched + ReadNow(n, m)
  {
    if ReadNow(n, m) != [] { ActQueues(On(n, m.far), ReadNow(n, m)[0]); } else { LocalQueues(On(n, m.far), m.step); }
  }

  lemma MoveIsFaithful(n: Net, m: Move)
    requires ReadsSafely(n, m)
    ensures AllFaithful(ReadBy(n, m), CallsIn(ReadNow(n, m)))
  {
    if ReadNow(n, m) != [] {
      ReadIsFaithful(On(n, m.far), ReadNow(n, m)[0]);
      CallsSnoc([], ReadNow(n, m)[0]);
      assert [] + ReadNow(n, m) == ReadNow(n, m);
    }
  }

  lemma MoveExtends(n: Net, m: Move, before: seq<Outcome>)
    requires ReadsSafely(n, m) && AllFaithful(before, CallsIn(On(n, m.far).dispatched))
    ensures AllFaithful(before + ReadBy(n, m), CallsIn(On(Take(n, m), m.far).dispatched))
  {
    MoveReads(n, m);
    MoveIsFaithful(n, m);
    CallsAppend(On(n, m.far).dispatched, ReadNow(n, m));
  }

  lemma {:induction false} RunIsFaithful(n: Net, moves: seq<Move>, far: bool)
    requires Initial(n) && Polite(n, moves)
    ensures AllFaithful(HandledBy(n, moves, far), CallsIn(On(Run(n, moves), far).dispatched))
  {
    if moves != [] {
      var front, m := moves[..|moves| - 1], moves[|moves| - 1];
      RunIsFaithful(n, front, far);
      RunReadsSafely(n, front, m);
      OtherStands(Run(n, front), m);
      if m.far == far {
        MoveExtends(Run(n, front), m, HandledBy(n, front, far));
      }
    }
  }

  // ---- The results ----

  function Wire(n: Net, far: bool): seq<Frame> { if far then n.incoming else n.outgoing }

  lemma RunChannel(n: Net, moves: seq<Move>, far: bool)
    requires Initial(n) && Polite(n, moves)
    ensures var m := Run(n, moves);
            && Channel(On(m, far), On(m, !far), Wire(m, far))
            && On(m, !far).dispatched <= On(m, far).accepted
  {
    RunValid(n, moves);
    ChannelPrefix(On(Run(n, moves), far), On(Run(n, moves), !far), Wire(Run(n, moves), far));
  }

  lemma ChannelPrefix(x: Session, y: Session, wire: seq<Frame>)
    requires Channel(x, y, wire)
    ensures y.dispatched <= x.accepted
    ensures x.failure.None? ==> x.accepted[|y.dispatched|..] == wire + FramesOf(x.frames)
  {
    Associative(y.dispatched, wire, FramesOf(x.frames));
  }

  /** Whatever the two sides do: the requests and notifications handed to the handlers of one
      side are those the callers of the other side made, in their order and with what they
      passed, except that a request is refused exactly if it finds no handler or no free
      place; the rest is on its way. */
  lemma CallsArrive(n: Net, moves: seq<Move>, far: bool)
    requires Initial(n) && Polite(n, moves)
    ensures var made, handled := Made(n, moves, far), HandledBy(n, moves, !far);
            && |handled| <= |made| && AllFaithful(handled, made[..|handled|])
            && var m := Run(n, moves);
               On(m, far).failure.None? ==> CallsIn(Wire(m, far) + FramesOf(On(m, far).frames)) == made[|handled|..]
  {
    RunChannel(n, moves, far);
    RunSays(n, moves, far, 0);
    RunIsFaithful(n, moves, !far);
    var m := Run(n, moves);
    LogsArrive(On(m, far), On(m, !far), Wire(m, far), HandledBy(n, moves, !far));
  }

  lemma LogsArrive(x: Session, y: Session, wire: seq<Frame>, handled: seq<Outcome>)
    requires Channel(x, y, wire) && AllFaithful(handled, CallsIn(y.dispatched))
    ensures var made := CallsIn(x.accepted);
            && |handled| <= |made| && AllFaithful(handled, made[..|handled|])
            && (x.failure.None? ==> CallsIn(wire + FramesOf(x.frames)) == made[|handled|..])
  {
    ChannelPrefix(x, y, wire);
    CallsAppend(y.dispatched, x.accepted[|y.dispatched|..]);
    assert x.accepted == y.dispatched + x.accepted[|y.dispatched|..];
    FaithfulPrefix(handled, CallsIn(y.dispatched), CallsIn(x.accepted[|y.dispatched|..]));
  }

  lemma FaithfulPrefix(outcomes: seq<Outcome>, calls: seq<Call>, rest: seq<Call>)
    requires AllFaithful(outcomes, calls)
    ensures |outcomes| <= |calls + rest| && AllFaithful(outcomes, (calls + rest)[..|outcomes|])
    ensures (calls + rest)[|outcomes|..] == rest
  {
    assert (calls + rest)[..|outcomes|] == calls;
  }

  /** What a stream was given is what the frames acted on held for it. */
  lemma GivenFromLog(y: Session, id: nat)
    requires SessionOk(y) && id in y.streams && !y.streams[id].cancelled
    ensures Delivered(y, id) == Messages(y.dispatched, id)
    ensures Finished in y.streams[id].results ==> y.streams[id].inbound == [] && Follow(y.dispatched, id).ended
    ensures if PeerID(y.role, id) then id <= LastRequest(y.dispatched) else OwnID(y.role, id)
  {
    assert StreamOk(Heard(y), id, y.streams[id]);
  }

  /** A side that has ended its half of a stream has said everything on it. */
  lemma SaidAll(x: Session, k: nat, id: nat)
    requires SessionOk(x) && 0 < k <= |x.accepted| && Spoke(x) && Follow(x.accepted[..k], id).ended
    requires OwnID(x.role, id) ==> id <= LastRequest(x.accepted[..k])
    requires PeerID(x.role, id) || OwnID(x.role, id)
    ensures Messages(x.accepted, id) == Messages(x.accepted[..k], id)
  {
    NothingAfterEnd(x.accepted, x.role, k, id);
  }

  lemma SaidReaches(x: Session, y: Session, wire: seq<Frame>, id: nat)
    requires SessionOk(x) && SessionOk(y) && Channel(x, y, wire) && Unheard(x, y, wire) && x.role != y.role
    requires id in y.streams && !y.streams[id].cancelled
    ensures Delivered(y, id) <= Messages(x.accepted, id)
    ensures Finished in y.streams[id].results ==> TakenFrom(y.streams[id].results) == Messages(x.accepted, id)
  {
    ChannelPrefix(x, y, wire);
    GivenFromLog(y, id);
    GivenIsSaid(x.accepted, y.dispatched, id);
    if Finished in y.streams[id].results && y.dispatched != [] {
      HeardFrom(x, y, wire);
      SaidAll(x, |y.dispatched|, id);
    }
  }

  lemma HeardFrom(x: Session, y: Session, wire: seq<Frame>)
    requires Unheard(x, y, wire) && y.dispatched != []
    ensures Spoke(x)
  {
  }

  lemma GivenIsSaid(accepted: seq<Frame>, dispatched: seq<Frame>, id: nat)
    requires dispatched <= accepted
    ensures Messages(dispatched, id) <= Messages(accepted, id) && accepted[..|dispatched|] == dispatched
  {
    MessagesAppend(dispatched, accepted[|dispatched|..], id);
    assert accepted == dispatched + accepted[|dispatched|..];
  }

  /** What the receivers of one side were given and still have waiting on a stream is the
      beginning of what the callers of the other side had accepted for it, and all of it once
      the end was reported. */
  lemma WhatIsSaidArrives(n: Net, moves: seq<Move>, far: bool, id: nat)
    requires Initial(n) && Polite(n, moves)
    ensures var y := On(Run(n, moves), !far);
            id in y.streams && !y.streams[id].cancelled ==>
              && Delivered(y, id) <= Said(n, moves, far, id)
              && (Finished in y.streams[id].results ==> TakenFrom(y.streams[id].results) == Said(n, moves, far, id))
  {
    RunSays(n, moves, far, id);
    RunValid(n, moves);
    var m := Run(n, moves);
    var y := On(m, !far);
    if id in y.streams && !y.streams[id].cancelled { SaidReaches(On(m, far), y, Wire(m, far), id); }
  }
}
