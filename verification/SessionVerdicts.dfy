/** What a session makes of its peer's frames, of calls at the wrong time, and of its own end. */
module SessionVerdicts {
  import opened Bytes
  import opened Wrappers
  import opened FileFrames
  import opened SessionState
  import opened SessionInvariant
  import opened SessionSteps
  import opened SessionGreeting
  import opened SessionNetwork
  import opened SessionPipe
  import opened SessionCalls
  import opened SessionCancels

  // ---- Which frames are refused ----

  function Other(role: Role): Role { if role.Host? then Guest else Host }

  /** The first frame has to be the HELLO of the other role, up to its reserved bytes. */
  lemma HelloExactly(s: Session, f: Frame)
    requires s.dispatched == []
    ensures Dispatch(s, f).1 != Reject(EPROTO)
            <==> f.kind.Hello? && f.id == 0 && |f.payload| == 8 && f.payload[..4] == HelloFrame(Other(s.role)).payload[..4]
  {
    var hello := HelloFrame(Other(s.role)).payload;
    assert hello[..4] == [VERSION, Other(s.role).Raw(), 0, 0];
    if |f.payload| == 8 && f.payload[..4] == hello[..4] {
      assert f.payload[0] == f.payload[..4][0] && f.payload[1] == f.payload[..4][1];
      assert f.payload[2] == f.payload[..4][2] && f.payload[3] == f.payload[..4][3];
    }
  }

  /** A stream that still listens, by the frames acted on so far. */
  predicate Open(s: Session, id: nat) { id in s.streams && !s.streams[id].cancelled }

  /** A frame a peer may send now, told from what it sent before. */
  predicate Expected(s: Session, f: Frame) {
    match f.kind
    case Hello => false
    case Request => PeerID(s.role, f.id) && f.id > LastRequest(s.dispatched) && |f.payload| >= 4
    case Response =>
      && OwnID(s.role, f.id) && f.id < s.nextID && |f.payload| >= 4
      && (Open(s, f.id) ==> !Follow(s.dispatched, f.id).answered && !Follow(s.dispatched, f.id).ended)
    case Payload =>
      && f.id != 0 && (if PeerID(s.role, f.id) then f.id <= LastRequest(s.dispatched) else f.id < s.nextID)
      && (Open(s, f.id) ==>
            && (PeerID(s.role, f.id) || Follow(s.dispatched, f.id).answered) && !Follow(s.dispatched, f.id).ended
            && Follow(s.dispatched, f.id).bytes + |f.payload| <= STREAM_DATA_MAXIMUM)
    case Cancel => f.id != 0 && f.payload == []
    case Notify => f.id == 0 && |f.payload| >= 4
  }

  /** Whatever the peer is: a frame is answered with EPROTO exactly if it may not come now. */
  lemma RejectsExactly(s: Session, f: Frame)
    requires Valid(s) && s.dispatched != []
    ensures Dispatch(s, f).1 == Reject(EPROTO) <==> !Expected(s, f)
  {
    if f.id in s.streams { assert StreamOk(s, f.id, s.streams[f.id]); }
  }

  /** The same in every state a session can be in, whatever its callers and its peer did. */
  lemma PeerRejectsExactly(role: Role, serves: bool, events: seq<Event>, f: Frame)
    ensures var s := Endure(Fresh(role, serves), events);
            s.dispatched != [] ==> (Dispatch(s, f).1 == Reject(EPROTO) <==> !Expected(s, f))
  {
    EndureOk(role, serves, events);
    HeardRejects(Endure(Fresh(role, serves), events), f);
  }

  lemma HeardRejects(s: Session, f: Frame)
    requires Valid(Heard(s))
    ensures s.dispatched != [] ==> (Dispatch(s, f).1 == Reject(EPROTO) <==> !Expected(s, f))
  {
    HeardDispatch(s, f);
    assert Expected(Heard(s), f) == Expected(s, f);
    if s.dispatched != [] { RejectsExactly(Heard(s), f); }
  }

  /** A request that is not refused for its shape is served exactly if there is a handler and
      a place; otherwise it is turned down, or the session ends when its peer left too many of
      those unread. */
  lemma RequestsExactly(s: Session, f: Frame)
    requires s.dispatched != [] && f.kind.Request? && Dispatch(s, f).1 != Reject(EPROTO)
    ensures Dispatch(s, f).1.Serve? <==> HasRoom(s)
    ensures Dispatch(s, f).1 == Reject(ENOBUFS) <==> !HasRoom(s) && |s.frames| >= MAXIMUM_PENDING_CONTROL
  {
  }

  function ActAll(s: Session, frames: seq<Frame>): Session {
    if frames == [] then s else Act(ActAll(s, frames[..|frames| - 1]), frames[|frames| - 1])
  }

  lemma ActGrows(s: Session, f: Frame)
    ensures |Act(s, f).frames| <= |s.frames| || (|s.frames| < MAXIMUM_PENDING_CONTROL && |Act(s, f).frames| == |s.frames| + 1)
  {
    if s.dispatched != [] {
      match f.kind
      case Response => ResponseFrames(s, f);
      case Payload => PayloadFrames(s, f);
      case _ =>
    }
  }

  lemma ResponseFrames(s: Session, f: Frame)
    ensures DispatchResponse(s, f).0.frames == s.frames
  {
  }

  lemma PayloadFrames(s: Session, f: Frame)
    ensures DispatchPayload(s, f).0.frames == s.frames
  {
  }

  /** Whatever a peer sends and never reads: it makes this side queue no more than 65536 frames. */
  lemma {:induction false} PeerCannotFillQueue(s: Session, frames: seq<Frame>)
    ensures |ActAll(s, frames).frames| <= if |s.frames| < MAXIMUM_PENDING_CONTROL then MAXIMUM_PENDING_CONTROL else |s.frames|
  {
    if frames != [] {
      PeerCannotFillQueue(s, frames[..|frames| - 1]);
      ActGrows(ActAll(s, frames[..|frames| - 1]), frames[|frames| - 1]);
    }
  }

  // ---- What receive reports ----

  /** What one call of `receive` is told, and that exactly that is recorded for the stream. */
  predicate Reported(st: Stream, failure: Option<Errno>, d: Delivery, t: Stream) {
    && t == st.(waiting := false, calls := t.calls, results := st.results + [d], inbound := t.inbound)
    && match d
       case Got(m) => st.inbound == [m] + t.inbound
       case Finished => st.inbound == t.inbound == [] && !st.cancelled && st.remoteEnded
       case Failed(e) => st.inbound == t.inbound == [] && if st.cancelled then e == ECANCELED else Some(e) == failure
  }

  /** `receive` returns the oldest message; else that the stream was cancelled, that it ended,
      or that the session failed, in this order; and it waits only if there is none of these. A
      second receiver at a time is turned away. */
  lemma ReceiveReports(st: Stream, failure: Option<Errno>)
    ensures var (t, receipt) := ReceiveOn(st, failure);
            if st.waiting then t == st && receipt == Returned(Failed(EBUSY))
            else
              match receipt
              case Returned(d) =>
                Reported(st, failure, d, t) && t.calls == st.calls + 1 && (d.Failed? && !st.cancelled ==> !st.remoteEnded)
              case Suspended =>
                && t == st.(waiting := true, calls := st.calls + 1)
                && st.inbound == [] && !st.cancelled && !st.remoteEnded && failure.None?
  {
  }

  /** A stream that was released is reported cancelled to a late receiver, and no other stream
      notices. */
  lemma ReceiveIsLocal(s: Session, id: nat, other: nat)
    ensures var t := Receive(s, id).0;
            && (id !in s.streams ==> t == s && Receive(s, id).1 == Returned(Failed(ECANCELED)))
            && (id in s.streams ==> id in t.streams && (t.streams[id], Receive(s, id).1) == ReceiveOn(s.streams[id], s.failure))
            && (other != id ==> (other in t.streams <==> other in s.streams))
            && (other != id && other in s.streams ==> t.streams[other] == s.streams[other])
            && t.(streams := s.streams) == s
  {
  }

  /** A receiver that waits is told as soon as there is something to tell, and only then. */
  lemma DeliverReports(st: Stream, failure: Option<Errno>)
    ensures var t := Deliver(st, failure);
            if st.waiting && (st.inbound != [] || st.cancelled || st.remoteEnded || failure.Some?) then
              |t.results| == |st.results| + 1 && Reported(st, failure, t.results[|st.results|], t) && t.calls == st.calls
            else t == st
  {
  }

  // ---- Why a call is refused ----

  /** Writing is refused with the failure of the session, as cancelled when the stream was given
      up, as a broken pipe after its end; with EINVAL to whoever may not write yet; and beyond
      the size limit. */
  lemma PieceRefused(s: Session, id: nat, bytes: Data, last: bool)
    requires SendPiece(s, id, bytes, last).1.Err?
    ensures SendPiece(s, id, bytes, last).0 == s
    ensures match SendPiece(s, id, bytes, last).1.error
            case ECANCELED => s.failure == Some(ECANCELED) || (s.failure.None? && !Open(s, id))
            case EPIPE => s.failure == Some(EPIPE) || (s.failure.None? && Open(s, id) && s.streams[id].localEnded)
            case EINVAL =>
              s.failure == Some(EINVAL) || (s.failure.None? && Open(s, id) && s.streams[id].responder && !s.streams[id].responded)
            case EMSGSIZE =>
              s.failure == Some(EMSGSIZE) || (s.failure.None? && Open(s, id) && s.streams[id].sent + |bytes| > STREAM_DATA_MAXIMUM)
            case e => s.failure == Some(e)
  {
  }

  /** Answering is accepted exactly from a responder that has not answered nor ended, whose
      stream nobody gave up, on a session that lives. */
  lemma ResponseAccepted(s: Session, id: nat, status: UInt32, body: Data, end: bool)
    ensures var (t, sent) := SendResponse(s, id, status, body, end);
            && (sent.Ok? <==>
                  && |body| + 4 <= FRAME_MAXIMUM && s.failure.None? && Open(s, id)
                  && s.streams[id].responder && !s.streams[id].responded && !s.streams[id].localEnded)
            && (sent.Err? ==> t == s)
            && (sent.Err? && |body| + 4 <= FRAME_MAXIMUM ==>
                  sent.error == if s.failure.Some? then s.failure.value
                                else if !Open(s, id) then ECANCELED
                                else if s.streams[id].localEnded then EPIPE
                                else EINVAL)
            && (|body| + 4 > FRAME_MAXIMUM ==> sent == Err(EMSGSIZE))
  {
  }

  /** Requests and notifications are accepted on any session that lives, as long as the body
      fits a frame and identifiers are left. */
  lemma CallsAccepted(s: Session, opcode: UInt16, body: Data, end: bool)
    ensures SendRequest(s, opcode, body, end).1.Ok? <==>
            |body| + 4 <= FRAME_MAXIMUM && s.failure.None? && s.nextID + 2 <= UINT32_MAX
    ensures SendNotify(s, opcode, body).1.Ok? <==> |body| + 4 <= FRAME_MAXIMUM && s.failure.None?
    ensures SendRequest(s, opcode, body, end).1.Err? ==> SendRequest(s, opcode, body, end).0 == s
    ensures SendNotify(s, opcode, body).1.Err? ==> SendNotify(s, opcode, body).0 == s
  {
  }

  // ---- After a stream was given up or released ----

  /** Whoever gives a stream up says nothing more on it. */
  lemma NothingAfterGivingUp(s: Session, step: Step, id: nat)
    requires GivenUpHere(s, id)
    ensures SaidOf(s, step, id) == []
  {
  }

  /** Cancelling marks the stream and touches nothing else but what it owes its peer. */
  lemma CancelMarks(s: Session, id: nat)
    requires id in s.streams
    ensures var t := Local(s, Abort(id));
            && t == s.(streams := t.streams, owed := s.owed + GivenUpBy(s, Abort(id)))
            && t.streams.Keys == s.streams.Keys && t.streams[id].cancelled && t.streams[id].responder == s.streams[id].responder
            && forall other <- s.streams :: other != id ==> t.streams[other] == s.streams[other]
  {
  }

  /** Forgetting a stream that was given up takes it away with the place it took, and nothing
      else; any other stream stays. */
  lemma ForgetTakesAway(s: Session, id: nat)
    ensures Local(s, Forget(id)) ==
            if id in s.streams && s.streams[id].cancelled then
              s.(streams := s.streams - {id},
                 inboundStreams := s.inboundStreams - (if s.streams[id].responder then 1 else 0))
            else s
  {
  }

  /** A release forgets the stream, and makes a CANCEL due if it was not finished. */
  lemma ReleaseForgets(s: Session, id: nat)
    requires id in s.streams
    ensures var t := Local(Local(s, Abort(id)), Forget(id));
            && t.streams == s.streams - {id}
            && t.inboundStreams == s.inboundStreams - (if s.streams[id].responder then 1 else 0)
            && t.accepted == s.accepted && t.frames == s.frames && t.failure == s.failure
            && t.owed == s.owed + GivenUpBy(s, Abort(id))
  {
    CancelMarks(s, id);
    ForgetTakesAway(Local(s, Abort(id)), id);
  }

  // ---- The first failure ----

  /** The failure a step or a frame brings about, if the session lives. */
  function FailureBy(s: Session, event: Event): Option<Errno> {
    match event
    case Own(Break(error)) => Some(error)
    case Own(_) => None
    case Peer(f) =>
      if !Reading(s) then None
      else if !f.WellFormed() then Some(EPROTO)
      else if Dispatch(s, f).1.Reject? then Some(Dispatch(s, f).1.error)
      else None
  }

  function FirstFailure(role: Role, serves: bool, events: seq<Event>): Option<Errno> {
    if events == [] then None
    else
      var front := events[..|events| - 1];
      var before := FirstFailure(role, serves, front);
      if before.Some? then before else FailureBy(Endure(Fresh(role, serves), front), events[|events| - 1])
  }

  lemma OwnFailure(s: Session, step: Step)
    ensures var t := Meet(s, Own(step));
            t.failure == if s.failure.Some? then s.failure else if step.Break? then Some(step.error) else None
  {
    if !step.Transmit? && !step.Break? { StepKeepsFailure(s, step); }
  }

  lemma StepKeepsFailure(s: Session, step: Step)
    requires !step.Break?
    ensures Local(s, step).failure == s.failure
  {
    match step
    case Open(_, _, _) => LocalSpeaks(s, step);
    case Announce(_, _) => LocalSpeaks(s, step);
    case Answer(_, _, _, _) => LocalSpeaks(s, step);
    case Stream(_, _, _) => LocalSpeaks(s, step);
    case _ =>
  }

  lemma PeerFailure(s: Session, f: Frame)
    ensures Meet(s, Peer(f)).failure == if s.failure.Some? then s.failure else FailureBy(s, Peer(f))
  {
    DispatchFlags(s, f);
  }

  /** The first failure of a session is the one every caller is told from then on. */
  lemma {:induction false} FirstFailureCounts(role: Role, serves: bool, events: seq<Event>)
    ensures Endure(Fresh(role, serves), events).failure == FirstFailure(role, serves, events)
  {
    if events != [] {
      var front, event := events[..|events| - 1], events[|events| - 1];
      FirstFailureCounts(role, serves, front);
      var s := Endure(Fresh(role, serves), front);
      match event
      case Own(step) => OwnFailure(s, step);
      case Peer(f) => PeerFailure(s, f);
    }
  }
}
