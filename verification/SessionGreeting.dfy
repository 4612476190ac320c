/** The lock sections of one endpoint in any order, from the moment it is made. Until a
    session has queued HELLO it may not ask the peer for anything. */
module SessionGreeting {
  import opened Bytes
  import opened Wrappers
  import opened FileFrames
  import opened SessionState
  import opened SessionInvariant
  import opened SessionSteps

  type UInt16 = x: nat | x < 65536
  type UInt32 = x: nat | x <= UINT32_MAX
  type Piece = bytes: Data | |bytes| <= FRAME_MAXIMUM

  /** One lock section of one endpoint; `Transmit` moves a frame of the queue to the
      channel, `Read` acts on the oldest frame of the channel from the peer. */
  datatype Step =
    | Mark
    | Greet
    | Open(opcode: UInt16, body: Data, end: bool)
    | Answer(id: nat, status: UInt32, body: Data, end: bool)
    | Stream(id: nat, bytes: Piece, last: bool)
    | Announce(opcode: UInt16, body: Data)
    | Await(id: nat)
    | Abort(id: nat)
    | AbortQueue(id: nat)
    | Forget(id: nat)
    | Transmit
    | Transmitted
    | Break(error: Errno)
    | Tell
    | Read

  function Local(s: Session, step: Step): Session {
    match step
    case Mark => StartMark(s).0
    case Greet => StartHello(s)
    case Open(opcode, body, end) => SendRequest(s, opcode, body, end).0
    case Answer(id, status, body, end) => SendResponse(s, id, status, body, end).0
    case Stream(id, bytes, last) => SendPiece(s, id, bytes, last).0
    case Announce(opcode, body) => SendNotify(s, opcode, body).0
    case Await(id) => Receive(s, id).0
    case Abort(id) => CancelMark(s, id).0
    case AbortQueue(id) => CancelQueue(s, id)
    case Forget(id) => Remove(s, id)
    case Transmitted => Written(s)
    case Break(error) => Fail(s, error)
    case Tell => FailDeliver(s)
    case Transmit => s
    case Read => s
  }

  /** A verdict against a frame ends the session with that error. */
  function Act(s: Session, f: Frame): Session {
    var (s', verdict) := Dispatch(s, f);
    if verdict.Reject? then Fail(s', verdict.error) else s'
  }

  function FramesOf(queue: seq<Queued>): seq<Frame> {
    if queue == [] then [] else [queue[0].frame] + FramesOf(queue[1..])
  }

  // ---- How a step changes the queue ----

  lemma {:induction false} FramesAppend(queue: seq<Queued>, q: Queued)
    ensures FramesOf(queue + [q]) == FramesOf(queue) + [q.frame]
  {
    if queue == [] {
      assert queue + [q] == [q];
    } else {
      FramesAppend(queue[1..], q);
      assert (queue + [q])[1..] == queue[1..] + [q];
    }
  }

  /** How a step changed the queue: it appended one frame to queue and log alike, or it
      left both alone, or the session failed and its queue is gone. */
  predicate Queues(s: Session, s': Session) {
    && s'.role == s.role
    && s.accepted <= s'.accepted
    && (s'.failure.None? ==> s.failure.None? && FramesOf(s'.frames) == FramesOf(s.frames) + s'.accepted[|s.accepted|..])
  }

  lemma QueuesOne(s: Session, s': Session, q: Queued)
    requires s'.role == s.role && s'.failure == s.failure
    requires || (s'.accepted == s.accepted + [q.frame] && s'.frames == s.frames + [q])
             || (s'.accepted == s.accepted && s'.frames == s.frames)
    ensures Queues(s, s')
  {
    FramesAppend(s.frames, q);
    assert s.accepted[|s.accepted|..] == [];
  }

  /** What was queued last, if anything was. */
  function Added(s: Session, s': Session): Queued {
    if |s'.frames| > |s.frames| then s'.frames[|s.frames|] else Queued(HelloFrame(s.role), None)
  }

  /** A section that queues one frame and otherwise leaves queue and log alone. */
  lemma QueuedOnce(s: Session, x: Session, f: Frame)
    requires x.role == s.role && x.failure == s.failure && x.accepted == s.accepted && x.frames == s.frames
    ensures Queues(s, x.Queue(f)) && Queues(s, x.QueueWaiting(f)) && Queues(s, x)
  {
    QueuesOne(s, x.Queue(f), Queued(f, None));
    QueuesOne(s, x.QueueWaiting(f), Queued(f, Some(x.tickets)));
    QueuesOne(s, x, Queued(f, None));
  }

  lemma OpenQueues(s: Session, step: Step)
    requires step.Open?
    ensures Queues(s, Local(s, step)) && Local(s, step).dispatched == s.dispatched
  {
    var f := Frame(Request, step.end, s.nextID, Opcode(step.opcode) + step.body);
    QueuedOnce(s, s.(nextID := s.nextID + 2).With(s.nextID, NewStream(false).(localEnded := step.end)), f);
    QueuedOnce(s, s, f);
  }

  lemma AnnounceQueues(s: Session, step: Step)
    requires step.Announce?
    ensures Queues(s, Local(s, step)) && Local(s, step).dispatched == s.dispatched
  {
    QueuedOnce(s, s, Frame(Notify, false, 0, Opcode(step.opcode) + step.body));
  }

  lemma PieceQueues(s: Session, step: Step)
    requires step.Stream?
    ensures Queues(s, Local(s, step)) && Local(s, step).dispatched == s.dispatched
  {
    var f := Frame(Payload, step.last, step.id, step.bytes);
    QueuedOnce(s, s, f);
    if step.id in s.streams {
      var st := s.streams[step.id];
      QueuedOnce(s, s.With(step.id, st.(sent := st.sent + |step.bytes|, localEnded := st.localEnded || step.last)), f);
    }
  }

  lemma AnswerQueues(s: Session, step: Step)
    requires step.Answer?
    ensures Queues(s, Local(s, step)) && Local(s, step).dispatched == s.dispatched
  {
    var f := Frame(Response, step.end, step.id, Encode32(step.status) + step.body);
    QueuedOnce(s, s, f);
    if step.id in s.streams {
      var st := s.streams[step.id];
      QueuedOnce(s, s.With(step.id, st.(responded := true, localEnded := st.localEnded || step.end)), f);
    }
  }

  lemma AbortQueues(s: Session, step: Step)
    requires step.Await? || step.Abort? || step.AbortQueue? || step.Forget?
    ensures Queues(s, Local(s, step)) && Local(s, step).dispatched == s.dispatched
  {
    QueuesOne(s, Local(s, step), Added(s, Local(s, step)));
  }

  lemma LocalQueues(s: Session, step: Step)
    ensures Queues(s, Local(s, step)) && Local(s, step).dispatched == s.dispatched
  {
    match step
    case Open(_, _, _) => OpenQueues(s, step);
    case Announce(_, _) => AnnounceQueues(s, step);
    case Answer(_, _, _, _) => AnswerQueues(s, step);
    case Stream(_, _, _) => PieceQueues(s, step);
    case Await(_) => AbortQueues(s, step);
    case Abort(_) => AbortQueues(s, step);
    case AbortQueue(_) => AbortQueues(s, step);
    case Forget(_) => AbortQueues(s, step);
    case Break(_) => if s.failure.Some? { QueuesOne(s, s, Added(s, s)); }
    case _ => QueuesOne(s, Local(s, step), Added(s, Local(s, step)));
  }

  /** A refusal is queued and logged; nothing else a request does touches the queue. */
  lemma RequestQueues(s: Session, f: Frame)
    requires DispatchRequest(s, f).1 != Reject(EPROTO)
    ensures var s' := DispatchRequest(s, f).0;
            Queues(s, s') && s'.failure == s.failure && s'.dispatched == s.dispatched + [f]
  {
    QueuesOne(s, DispatchRequest(s, f).0, Queued(Frame(Cancel, false, f.id, []), None));
  }

  lemma StreamQueues(s: Session, f: Frame)
    requires s.dispatched != [] && (f.kind.Response? || f.kind.Payload?) && Dispatch(s, f).1 != Reject(EPROTO)
    ensures var s' := Dispatch(s, f).0; Queues(s, s') && s'.failure == s.failure && s'.dispatched == s.dispatched + [f]
  {
    QueuesOne(s, Dispatch(s, f).0, Queued(f, None));
  }

  lemma DispatchQueues(s: Session, f: Frame)
    requires Dispatch(s, f).1 != Reject(EPROTO)
    ensures var s' := Dispatch(s, f).0; Queues(s, s') && s'.failure == s.failure && s'.dispatched == s.dispatched + [f]
  {
    if s.dispatched == [] {
      QueuesOne(s, Dispatch(s, f).0, Queued(f, None));
    } else {
      match f.kind
      case Request => RequestQueues(s, f);
      case Response => StreamQueues(s, f);
      case Payload => StreamQueues(s, f);
      case _ => QueuesOne(s, Dispatch(s, f).0, Queued(f, None));
    }
  }

  /** The session acts on a frame, then fails if the verdict was against it. */
  lemma ActQueues(s: Session, f: Frame)
    requires Dispatch(s, f).1 != Reject(EPROTO)
    ensures Queues(s, Act(s, f)) && Act(s, f).dispatched == s.dispatched + [f]
  {
    DispatchQueues(s, f);
  }

  // ---- A session that has queued HELLO ----

  lemma LocalValid(s: Session, step: Step)
    requires Valid(s) && !step.Mark? && !step.Greet?
    ensures Valid(Local(s, step))
  {
    match step
    case Open(opcode, body, end) => SendRequestValid(s, opcode, body, end);
    case Answer(id, status, body, end) => SendResponseValid(s, id, status, body, end);
    case Stream(id, bytes, last) => SendPieceValid(s, id, bytes, last);
    case Announce(opcode, body) => SendNotifyValid(s, opcode, body);
    case Await(id) => ReceiveValid(s, id);
    case Abort(id) => CancelMarkValid(s, id);
    case AbortQueue(id) => CancelQueueValid(s, id);
    case Forget(id) => RemoveValid(s, id);
    case Transmitted => WrittenValid(s);
    case Break(error) => FailValid(s, error);
    case Tell => FailDeliverValid(s);
    case _ =>
  }

  lemma ActValid(s: Session, f: Frame)
    requires Valid(s) && f.WellFormed()
    ensures Valid(Act(s, f))
  {
    var (t, verdict) := Dispatch(s, f);
    if verdict == Reject(EPROTO) {
      assert t == s;
    } else {
      DispatchValid(s, f);
    }
    if verdict.Reject? { FailValid(t, verdict.error); }
  }

  lemma HelloIsLegal(role: Role, nextID: nat)
    ensures Legal([HelloFrame(role)], role) && LastRequest([HelloFrame(role)]) == 0
    ensures KnownIDs(role, [HelloFrame(role)], nextID, 0)
  {
    Snoc([], HelloFrame(role), 0);
    assert [] + [HelloFrame(role)] == [HelloFrame(role)];
    assert [HelloFrame(role)][..0] == [];
  }

  // ---- A session's own history does not matter to it ----

  /** `t` is `s` after a section, and `t'` is `s'`, the same but for its history, after it. */
  predicate SameBut(s: Session, t: Session, s': Session, t': Session) {
    || (t.accepted == s.accepted && t' == t.(accepted := s'.accepted))
    || (|t.accepted| == |s.accepted| + 1 && t.accepted == s.accepted + [t.accepted[|s.accepted|]]
        && !t.accepted[|s.accepted|].kind.Hello? && t' == t.(accepted := s'.accepted + [t.accepted[|s.accepted|]]))
  }

  lemma QueueHistory(s: Session, x: Session, f: Frame, accepted: seq<Frame>)
    requires x.accepted == s.accepted && !f.kind.Hello?
    ensures SameBut(s, x.Queue(f), s.(accepted := accepted), x.(accepted := accepted).Queue(f))
    ensures SameBut(s, x.QueueWaiting(f), s.(accepted := accepted), x.(accepted := accepted).QueueWaiting(f))
  {
  }

  lemma OpenHistory(s: Session, step: Step, accepted: seq<Frame>)
    requires step.Open?
    ensures SameBut(s, Local(s, step), s.(accepted := accepted), Local(s.(accepted := accepted), step))
  {
    var f := Frame(Request, step.end, s.nextID, Opcode(step.opcode) + step.body);
    var x := s.(nextID := s.nextID + 2).With(s.nextID, NewStream(false).(localEnded := step.end));
    assert s.(accepted := accepted).(nextID := s.nextID + 2).With(s.nextID, NewStream(false).(localEnded := step.end))
        == x.(accepted := accepted);
    QueueHistory(s, x, f, accepted);
  }

  lemma AnnounceHistory(s: Session, step: Step, accepted: seq<Frame>)
    requires step.Announce?
    ensures SameBut(s, Local(s, step), s.(accepted := accepted), Local(s.(accepted := accepted), step))
  {
    QueueHistory(s, s, Frame(Notify, false, 0, Opcode(step.opcode) + step.body), accepted);
  }

  /** A section that either leaves a session alone or writes one stream and queues one frame. */
  predicate WritesOne(s: Session, t: Session, id: nat, st: Stream, f: Frame, writes: bool) {
    t == if writes then s.With(id, st).QueueWaiting(f) else s
  }

  lemma WriteHistory(s: Session, t: Session, t': Session, id: nat, st: Stream, f: Frame, writes: bool,
                     accepted: seq<Frame>)
    requires WritesOne(s, t, id, st, f, writes) && WritesOne(s.(accepted := accepted), t', id, st, f, writes)
    requires !f.kind.Hello?
    ensures SameBut(s, t, s.(accepted := accepted), t')
  {
    assert s.(accepted := accepted).With(id, st) == s.With(id, st).(accepted := accepted);
    if writes { QueueHistory(s, s.With(id, st), f, accepted); }
  }

  lemma PieceWrites(s: Session, id: nat, bytes: Data, last: bool)
    requires id in s.streams
    ensures var st := s.streams[id];
            WritesOne(s, SendPiece(s, id, bytes, last).0, id,
                      st.(sent := st.sent + |bytes|, localEnded := st.localEnded || last),
                      Frame(Payload, last, id, bytes), SendPiece(s, id, bytes, last).1.Ok?)
  {
  }

  lemma PieceHistory(s: Session, id: nat, bytes: Data, last: bool, accepted: seq<Frame>)
    ensures SameBut(s, SendPiece(s, id, bytes, last).0, s.(accepted := accepted),
                    SendPiece(s.(accepted := accepted), id, bytes, last).0)
  {
    var x := s.(accepted := accepted);
    if id in s.streams {
      var st := s.streams[id];
      PieceWrites(s, id, bytes, last);
      PieceWrites(x, id, bytes, last);
      assert SendPiece(x, id, bytes, last).1 == SendPiece(s, id, bytes, last).1;
      WriteHistory(s, SendPiece(s, id, bytes, last).0, SendPiece(x, id, bytes, last).0, id,
                   st.(sent := st.sent + |bytes|, localEnded := st.localEnded || last),
                   Frame(Payload, last, id, bytes), SendPiece(s, id, bytes, last).1.Ok?, accepted);
    }
  }

  lemma AnswerWrites(s: Session, id: nat, status: nat, body: Data, end: bool)
    requires id in s.streams && status <= UINT32_MAX
    ensures var st := s.streams[id];
            WritesOne(s, SendResponse(s, id, status, body, end).0, id,
                      st.(responded := true, localEnded := st.localEnded || end),
                      Frame(Response, end, id, Encode32(status) + body),
                      SendResponse(s, id, status, body, end).1.Ok?)
  {
  }

  lemma AnswerHistory(s: Session, id: nat, status: nat, body: Data, end: bool, accepted: seq<Frame>)
    requires status <= UINT32_MAX
    ensures SameBut(s, SendResponse(s, id, status, body, end).0, s.(accepted := accepted),
                    SendResponse(s.(accepted := accepted), id, status, body, end).0)
  {
    if id in s.streams { AnswerKnown(s, id, status, body, end, accepted); }
  }

  lemma AnswerResult(s: Session, id: nat, status: nat, body: Data, end: bool, accepted: seq<Frame>)
    requires status <= UINT32_MAX
    ensures SendResponse(s.(accepted := accepted), id, status, body, end).1 == SendResponse(s, id, status, body, end).1
  {
  }

  lemma AnswerKnown(s: Session, id: nat, status: nat, body: Data, end: bool, accepted: seq<Frame>)
    requires id in s.streams && status <= UINT32_MAX
    ensures SameBut(s, SendResponse(s, id, status, body, end).0, s.(accepted := accepted),
                    SendResponse(s.(accepted := accepted), id, status, body, end).0)
  {
    var x := s.(accepted := accepted);
    var st := s.streams[id];
    AnswerWrites(s, id, status, body, end);
    AnswerWrites(x, id, status, body, end);
    AnswerResult(s, id, status, body, end, accepted);
    WriteHistory(s, SendResponse(s, id, status, body, end).0, SendResponse(x, id, status, body, end).0, id,
                 st.(responded := true, localEnded := st.localEnded || end),
                 Frame(Response, end, id, Encode32(status) + body),
                 SendResponse(s, id, status, body, end).1.Ok?, accepted);
  }

  lemma CancelMarkHistory(s: Session, id: nat, accepted: seq<Frame>)
    ensures CancelMark(s.(accepted := accepted), id).0 == CancelMark(s, id).0.(accepted := accepted)
    ensures CancelMark(s, id).0.accepted == s.accepted
  {
  }

  lemma CancelQueueHistory(s: Session, id: nat, accepted: seq<Frame>)
    ensures SameBut(s, CancelQueue(s, id), s.(accepted := accepted), CancelQueue(s.(accepted := accepted), id))
  {
    QueueHistory(s, s.(owed := s.owed - {id}), Frame(Cancel, false, id, []), accepted);
  }

  lemma ReceiveHistory(s: Session, id: nat, accepted: seq<Frame>)
    ensures Receive(s.(accepted := accepted), id).0 == Receive(s, id).0.(accepted := accepted)
    ensures Receive(s, id).0.accepted == s.accepted
  {
  }

  lemma RemoveHistory(s: Session, id: nat, accepted: seq<Frame>)
    ensures Remove(s.(accepted := accepted), id) == Remove(s, id).(accepted := accepted)
    ensures Remove(s, id).accepted == s.accepted
  {
  }

  lemma AskHistory(s: Session, step: Step, accepted: seq<Frame>)
    requires step.Open? || step.Announce? || step.Stream? || step.Answer?
    ensures SameBut(s, Local(s, step), s.(accepted := accepted), Local(s.(accepted := accepted), step))
  {
    match step
    case Open(_, _, _) => OpenHistory(s, step, accepted);
    case Announce(_, _) => AnnounceHistory(s, step, accepted);
    case Stream(id, bytes, last) => PieceHistory(s, id, bytes, last, accepted);
    case Answer(id, status, body, end) => AnswerHistory(s, id, status, body, end, accepted);
  }

  lemma GiveUpHistory(s: Session, step: Step, accepted: seq<Frame>)
    requires step.Await? || step.Abort? || step.AbortQueue? || step.Forget?
    ensures SameBut(s, Local(s, step), s.(accepted := accepted), Local(s.(accepted := accepted), step))
  {
    match step
    case Await(id) => ReceiveHistory(s, id, accepted);
    case Abort(id) => CancelMarkHistory(s, id, accepted);
    case AbortQueue(id) => CancelQueueHistory(s, id, accepted);
    case Forget(id) => RemoveHistory(s, id, accepted);
  }

  lemma TellHistory(s: Session, accepted: seq<Frame>)
    ensures FailDeliver(s.(accepted := accepted)) == FailDeliver(s).(accepted := accepted)
    ensures FailDeliver(s).accepted == s.accepted
  {
    assert FailDeliver(s.(accepted := accepted)).streams == FailDeliver(s).streams;
  }

  lemma WrittenHistory(s: Session, accepted: seq<Frame>)
    ensures Written(s.(accepted := accepted)) == Written(s).(accepted := accepted) && Written(s).accepted == s.accepted
  {
    if s.writing.None? { assert Written(s) == s; }
  }

  lemma BreakHistory(s: Session, error: Errno, accepted: seq<Frame>)
    ensures Fail(s.(accepted := accepted), error) == Fail(s, error).(accepted := accepted) && Fail(s, error).accepted == s.accepted
  {
    if s.failure.Some? { assert Fail(s, error) == s; }
  }

  lemma WritingHistory(s: Session, step: Step, accepted: seq<Frame>)
    requires step.Transmitted? || step.Break? || step.Transmit? || step.Read?
    ensures SameBut(s, Local(s, step), s.(accepted := accepted), Local(s.(accepted := accepted), step))
  {
    match step
    case Transmitted => WrittenHistory(s, accepted);
    case Break(error) => BreakHistory(s, error, accepted);
    case _ =>
  }

  lemma LocalHistory(s: Session, step: Step, accepted: seq<Frame>)
    requires !step.Mark? && !step.Greet?
    ensures SameBut(s, Local(s, step), s.(accepted := accepted), Local(s.(accepted := accepted), step))
  {
    if step.Open? || step.Announce? || step.Stream? || step.Answer? {
      AskHistory(s, step, accepted);
    } else if step.Await? || step.Abort? || step.AbortQueue? || step.Forget? {
      GiveUpHistory(s, step, accepted);
    } else if step.Tell? {
      TellHistory(s, accepted);
    } else {
      WritingHistory(s, step, accepted);
    }
  }

  lemma PumpHistory(s: Session, accepted: seq<Frame>)
    ensures Pump(s.(accepted := accepted)) == (Pump(s).0.(accepted := accepted), Pump(s).1)
    ensures Pump(s).0.accepted == s.accepted && Pump(s).0.role == s.role
  {
  }

  lemma RequestHistory(s: Session, f: Frame, accepted: seq<Frame>)
    ensures var t, t' := DispatchRequest(s, f), DispatchRequest(s.(accepted := accepted), f);
            t.1 == t'.1 && SameBut(s, t.0, s.(accepted := accepted), t'.0)
  {
  }

  lemma WithHistory(s: Session, f: Frame, st: Stream, accepted: seq<Frame>)
    ensures Log(s.(accepted := accepted), f).With(f.id, st) == Log(s, f).With(f.id, st).(accepted := accepted)
    ensures Log(s, f).With(f.id, st).accepted == s.accepted
  {
  }

  lemma ResponseHistory(s: Session, f: Frame, accepted: seq<Frame>)
    ensures var t, t' := DispatchResponse(s, f), DispatchResponse(s.(accepted := accepted), f);
            t.1 == t'.1 && t.0.accepted == s.accepted && t'.0 == t.0.(accepted := accepted)
  {
    if f.id in s.streams && |f.payload| >= 4 {
      WithHistory(s, f, Deliver(AddResponse(s.streams[f.id], f), s.failure), accepted);
    }
  }

  lemma PayloadHistory(s: Session, f: Frame, accepted: seq<Frame>)
    ensures var t, t' := DispatchPayload(s, f), DispatchPayload(s.(accepted := accepted), f);
            t.1 == t'.1 && t.0.accepted == s.accepted && t'.0 == t.0.(accepted := accepted)
  {
    if f.id in s.streams { WithHistory(s, f, Deliver(AddPayload(s.streams[f.id], f), s.failure), accepted); }
  }

  lemma CancelHistory(s: Session, f: Frame, accepted: seq<Frame>)
    requires s.dispatched != [] && f.kind.Cancel?
    ensures var t, t' := Dispatch(s, f), Dispatch(s.(accepted := accepted), f);
            t.1 == t'.1 && t.0.accepted == s.accepted && t'.0 == t.0.(accepted := accepted)
  {
  }

  lemma LogHistory(s: Session, f: Frame, accepted: seq<Frame>)
    requires s.dispatched == [] || f.kind.Hello? || f.kind.Notify?
    ensures var t, t' := Dispatch(s, f), Dispatch(s.(accepted := accepted), f);
            t.1 == t'.1 && t.0.accepted == s.accepted && t'.0 == t.0.(accepted := accepted)
  {
  }

  /** What the reader makes of a frame does not depend on what the session has queued. */
  lemma DispatchHistory(s: Session, f: Frame, accepted: seq<Frame>)
    ensures Dispatch(s.(accepted := accepted), f).1 == Dispatch(s, f).1
    ensures SameBut(s, Dispatch(s, f).0, s.(accepted := accepted), Dispatch(s.(accepted := accepted), f).0)
  {
    if s.dispatched == [] {
      LogHistory(s, f, accepted);
    } else {
      match f.kind
      case Request => RequestHistory(s, f, accepted);
      case Response => ResponseHistory(s, f, accepted);
      case Payload => PayloadHistory(s, f, accepted);
      case Cancel => CancelHistory(s, f, accepted);
      case _ => LogHistory(s, f, accepted);
    }
  }

  // ---- HELLO, wherever it was queued ----

  function NoHello(log: seq<Frame>): seq<Frame> {
    if log == [] then []
    else
      var f := log[|log| - 1];
      NoHello(log[..|log| - 1]) + if f.kind.Hello? then [] else [f]
  }

  lemma NoHelloSnoc(log: seq<Frame>, f: Frame)
    ensures NoHello(log + [f]) == NoHello(log) + if f.kind.Hello? then [] else [f]
  {
    assert (log + [f])[..|log|] == log;
  }

  /** The session as if it had queued HELLO first. */
  function Heard(s: Session): Session { s.(accepted := [HelloFrame(s.role)] + NoHello(s.accepted)) }

  lemma HeardStep(s: Session, t: Session, t': Session)
    requires SameBut(s, t, Heard(s), t') && t.role == s.role
    ensures t' == Heard(t)
  {
    if t.accepted != s.accepted {
      var f := t.accepted[|s.accepted|];
      NoHelloSnoc(s.accepted, f);
      Associative([HelloFrame(s.role)], NoHello(s.accepted), [f]);
    }
  }

  lemma FlagsValid(s: Session, started: bool, greeting: bool)
    requires Valid(s)
    ensures Valid(s.(started := started, greeting := greeting))
  {
    assert forall id <- s.streams :: StreamOk(s.(started := started, greeting := greeting), id, s.streams[id]);
  }

  lemma HelloQueuedValid(s: Session, f: Frame)
    requires Valid(s)
    ensures Valid(s.(frames := s.frames + [Queued(f, None)], pumps := s.pumps + 1))
  {
    var t := s.(frames := s.frames + [Queued(f, None)], pumps := s.pumps + 1);
    QueueTickets(s, f);
    assert forall id <- s.streams :: StreamOk(t, id, s.streams[id]);
  }

  lemma GreetHeard(s: Session)
    requires s.greeting && s.failure.None?
    ensures Heard(StartHello(s))
         == Heard(s).(greeting := false, frames := s.frames + [Queued(HelloFrame(s.role), None)], pumps := s.pumps + 1)
  {
    NoHelloSnoc(s.accepted, HelloFrame(s.role));
  }

  lemma HeardGreet(s: Session)
    requires Valid(Heard(s))
    ensures Valid(Heard(StartHello(s)))
  {
    if s.greeting {
      FlagsValid(Heard(s), s.started, false);
      if s.failure.None? {
        GreetHeard(s);
        HelloQueuedValid(Heard(s).(started := s.started, greeting := false), HelloFrame(s.role));
      }
    }
  }

  /** Every section of a session keeps its invariant, in any order from the start. */
  lemma HeardLocal(s: Session, step: Step)
    requires Valid(Heard(s))
    ensures Valid(Heard(Local(s, step)))
  {
    if step.Greet? {
      HeardGreet(s);
    } else if step.Mark? {
      FlagsValid(Heard(s), true, true);
    } else {
      LocalValid(Heard(s), step);
      LocalHistory(s, step, Heard(s).accepted);
      LocalQueues(s, step);
      HeardStep(s, Local(s, step), Local(Heard(s), step));
    }
  }

  lemma HeardBroken(s: Session, error: Errno)
    requires Valid(Heard(s))
    ensures Valid(Heard(Fail(s, error)))
  {
    FailValid(Heard(s), error);
    assert Fail(Heard(s), error) == Heard(Fail(s, error));
  }

  lemma HeardPump(s: Session)
    requires Valid(Heard(s))
    ensures Valid(Heard(Pump(s).0))
  {
    PumpValid(Heard(s));
    PumpHistory(s, Heard(s).accepted);
  }

  lemma HeardDispatch(s: Session, f: Frame)
    ensures Dispatch(Heard(s), f) == (Heard(Dispatch(s, f).0), Dispatch(s, f).1)
  {
    DispatchHistory(s, f, Heard(s).accepted);
    DispatchFlags(s, f);
    HeardStep(s, Dispatch(s, f).0, Dispatch(Heard(s), f).0);
  }

  lemma HeardAct(s: Session, f: Frame)
    requires Valid(Heard(s)) && f.WellFormed()
    ensures Valid(Heard(Act(s, f)))
  {
    var (t, verdict) := Dispatch(s, f);
    HeardDispatch(s, f);
    ActValid(Heard(s), f);
    if verdict.Reject? { assert Heard(Fail(t, verdict.error)) == Fail(Heard(t), verdict.error); }
  }

  predicate SameFlags(s: Session, s': Session) {
    s'.started == s.started && s'.greeting == s.greeting && s'.serves == s.serves
  }

  lemma SendFlags(s: Session, step: Step)
    requires step.Open? || step.Announce?
    ensures SameFlags(s, Local(s, step)) && (s.failure.Some? ==> Local(s, step) == s)
  {
  }

  lemma AnswerFlags(s: Session, step: Step)
    requires step.Answer? || step.Stream?
    ensures SameFlags(s, Local(s, step)) && (s.failure.Some? ==> Local(s, step) == s)
  {
  }

  lemma FlagsStay(s: Session, step: Step)
    requires !step.Mark? && !step.Greet?
    ensures SameFlags(s, Local(s, step)) && (s.failure.Some? ==> Local(s, step).accepted == s.accepted)
  {
    match step
    case Open(_, _, _) => SendFlags(s, step);
    case Announce(_, _) => SendFlags(s, step);
    case Answer(_, _, _, _) => AnswerFlags(s, step);
    case Stream(_, _, _) => AnswerFlags(s, step);
    case _ =>
  }

  predicate SameSide(s: Session, t: Session) { SameFlags(s, t) && t.role == s.role && t.failure == s.failure }

  lemma RequestFlags(s: Session, f: Frame)
    ensures SameSide(s, DispatchRequest(s, f).0)
  {
  }

  lemma ResponseFlags(s: Session, f: Frame)
    ensures SameSide(s, DispatchResponse(s, f).0)
  {
  }

  lemma PayloadFlags(s: Session, f: Frame)
    ensures SameSide(s, DispatchPayload(s, f).0)
  {
  }

  lemma DispatchFlags(s: Session, f: Frame)
    ensures SameSide(s, Dispatch(s, f).0)
  {
    if s.dispatched != [] {
      match f.kind
      case Request => RequestFlags(s, f);
      case Response => ResponseFlags(s, f);
      case Payload => PayloadFlags(s, f);
      case _ =>
    }
  }

  // ---- Sessions that queue HELLO first ----

  /** A call that queues a frame on any session that lives. */
  predicate Asks(step: Step) { (step.Open? || step.Announce?) && |step.body| <= FRAME_MAXIMUM - 4 }

  /** The caller's duty: nothing is asked for until the section of `start` that queues HELLO
      is over, except of a session that failed. */
  predicate Timely(s: Session, step: Step) { Asks(step) ==> Reading(s) || s.failure.Some? }

  predicate Spoke(s: Session) { s.accepted != [] && s.accepted[0].kind.Hello? }

  /** Nothing happened yet, except that `start` may be between its sections. */
  predicate Silent(s: Session) { s == Fresh(s.role, s.serves).(started := s.started, greeting := s.started) }

  ghost predicate SessionOk(s: Session) {
    && Valid(Heard(s))
    && if Spoke(s) then Reading(s) && Heard(s) == s else s.failure.Some? || Silent(s)
  }

  lemma FreshOk(role: Role, serves: bool)
    ensures SessionOk(Fresh(role, serves))
  {
    var s := Fresh(role, serves);
    HelloIsLegal(role, FirstID(role));
    assert [HelloFrame(role)] + [] == [HelloFrame(role)];
    assert Responders(s.streams) == {};
    assert TicketsOk(Pending([], None), multiset{}, 0);
  }

  lemma SpokenLocal(s: Session, step: Step)
    requires Spoke(s) && Reading(s) && Heard(s) == s
    ensures var t := Local(s, step); Spoke(t) && Reading(t) && Heard(t) == t
  {
    if !step.Mark? && !step.Greet? {
      LocalHistory(s, step, s.accepted);
      LocalQueues(s, step);
      HeardStep(s, Local(s, step), Local(s, step));
      FlagsStay(s, step);
    }
  }

  lemma SilentLocal(s: Session, step: Step)
    requires Silent(s) && Timely(s, step)
    ensures var t := Local(s, step);
            if Spoke(t) then Reading(t) && Heard(t) == t else t.failure.Some? || Silent(t)
  {
    if step.Greet? && s.greeting {
      NoHelloSnoc([], HelloFrame(s.role));
      assert [] + [HelloFrame(s.role)] == [HelloFrame(s.role)];
    }
  }

  lemma LocalOk(s: Session, step: Step)
    requires SessionOk(s) && Timely(s, step)
    ensures SessionOk(Local(s, step)) && (Spoke(s) ==> Spoke(Local(s, step)))
  {
    HeardLocal(s, step);
    if Spoke(s) {
      SpokenLocal(s, step);
    } else if s.failure.Some? {
      if !step.Mark? && !step.Greet? { FlagsStay(s, step); }
      LocalQueues(s, step);
    } else {
      SilentLocal(s, step);
    }
  }

  lemma PumpedOk(s: Session)
    requires SessionOk(s)
    ensures SessionOk(Pump(s).0) && (!Spoke(s) ==> Pump(s).1.None?) && Spoke(Pump(s).0) == Spoke(s)
  {
    HeardPump(s);
    PumpHistory(s, s.accepted);
  }

  lemma SpokeStays(s: Session, t: Session, s': Session, t': Session)
    requires SameBut(s, t, s', t')
    ensures Spoke(t) == Spoke(s)
  {
  }

  lemma ActSpoke(s: Session, f: Frame)
    ensures var t := Act(s, f); SameFlags(s, t) && Spoke(t) == Spoke(s) && (s.failure.Some? ==> t.failure.Some?)
    ensures Heard(s) == s ==> Heard(Act(s, f)) == Act(s, f)
  {
    DispatchHistory(s, f, s.accepted);
    DispatchFlags(s, f);
    SpokeStays(s, Dispatch(s, f).0, s, Dispatch(s.(accepted := s.accepted), f).0);
    HeardDispatch(s, f);
  }

  lemma ActOk(s: Session, f: Frame)
    requires SessionOk(s) && Reading(s) && f.WellFormed()
    ensures SessionOk(Act(s, f)) && Spoke(Act(s, f)) == Spoke(s)
  {
    HeardAct(s, f);
    ActSpoke(s, f);
  }
}
