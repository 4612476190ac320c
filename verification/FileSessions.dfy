/** The session object itself. Each method is one lock section (or, for `Send` and
    `Cancel`, the sections one caller runs) and does what `SessionState` says. */
module FileSessions {
  import opened Bytes
  import opened Wrappers
  import opened FileFrames
  import S = SessionState

  /** How the rest of the bytes is cut: the next frame, and the rest after it. */
  lemma NextPart(bytes: Data, offset: nat, end: bool)
    requires offset <= |bytes|
    ensures var size := if |bytes| - offset < FRAME_MAXIMUM then |bytes| - offset else FRAME_MAXIMUM;
            var parts := S.Split(bytes[offset..], end);
            && parts[0] == S.Part(bytes[offset..offset + size], end && offset + size == |bytes|)
            && parts[1..] == if offset + size == |bytes| then [] else S.Split(bytes[offset + size..], end)
  {
    if |bytes| - offset > FRAME_MAXIMUM {
      assert bytes[offset..][FRAME_MAXIMUM..] == bytes[offset + FRAME_MAXIMUM..];
      assert bytes[offset..][..FRAME_MAXIMUM] == bytes[offset..offset + FRAME_MAXIMUM];
    } else {
      assert bytes[offset..|bytes|] == bytes[offset..];
    }
  }

  /** Sending the rest is sending the next frame and, if that goes, the rest after it. */
  lemma NextSend(v: S.Session, id: nat, bytes: Data, offset: nat, end: bool)
    requires offset <= |bytes|
    ensures var size := if |bytes| - offset < FRAME_MAXIMUM then |bytes| - offset else FRAME_MAXIMUM;
            var (w, sent) := S.SendPiece(v, id, bytes[offset..offset + size], end && offset + size == |bytes|);
            S.SendParts(v, id, S.Split(bytes[offset..], end))
              == if sent.Err? then (w, Some(sent.error))
                 else if offset + size == |bytes| then (w, None)
                 else S.SendParts(w, id, S.Split(bytes[offset + size..], end))
  {
    NextPart(bytes, offset, end);
  }

  class FileSession {
    const role: Role
    const serves: bool
    var streams: map<nat, S.Stream>
    var nextID: nat
    var lastPeerID: nat
    var inboundStreams: int
    var frames: seq<S.Queued>
    var writing: Option<S.Queued>
    var failure: Option<S.Errno>
    var started: bool
    var tickets: nat
    ghost var greeting: bool
    ghost var closing: bool
    ghost var owed: set<nat>
    ghost var pumps: nat
    ghost var accepted: seq<Frame>
    ghost var dispatched: seq<Frame>
    ghost var resumed: multiset<nat>
    var greeted: bool

    ghost function View(): S.Session
      reads this
    {
      S.Session(role, serves, streams, nextID, lastPeerID, inboundStreams, frames, writing, failure, started,
                greeting, closing, owed, pumps, accepted, dispatched, tickets, resumed)
    }

    /** The reader knows whether it has read HELLO. */
    ghost predicate ReaderOk()
      reads this
    {
      greeted <==> dispatched != []
    }

    constructor (role: Role, serves: bool)
      ensures View() == S.Fresh(role, serves) && ReaderOk()
    {
      this.role, this.serves := role, serves;
      streams, nextID, lastPeerID, inboundStreams := map[], if role.Host? then 2 else 1, 0, 0;
      frames, writing, failure, started, tickets := [], None, None, false, 0;
      greeting, closing, owed, pumps := false, false, {}, 0;
      accepted, dispatched, resumed := [], [], multiset{};
      greeted := false;
    }

    method Append(frame: Frame)
      modifies this`frames, this`accepted, this`pumps
      ensures View() == old(View()).Queue(frame)
    {
      frames := frames + [S.Queued(frame, None)];
      accepted, pumps := accepted + [frame], pumps + 1;
    }

    /** A frame whose sender is suspended; the ticket names its continuation. */
    method AppendWaiting(frame: Frame) returns (ticket: nat)
      modifies this`frames, this`accepted, this`tickets, this`pumps
      ensures View() == old(View()).QueueWaiting(frame) && ticket == old(tickets)
    {
      ticket := tickets;
      tickets := tickets + 1;
      frames := frames + [S.Queued(frame, Some(ticket))];
      accepted, pumps := accepted + [frame], pumps + 1;
    }

    method Enqueue(frame: Frame)
      modifies this`frames, this`accepted, this`pumps
      ensures View() == S.Enqueue(old(View()), frame)
    {
      if failure.None? { Append(frame); }
    }

    /** First lock section of `start`; whether this call is the one to queue HELLO. */
    method StartMark() returns (first: bool)
      modifies this`started, this`greeting
      ensures (View(), first) == S.StartMark(old(View()))
    {
      first := !started;
      started := true;
      if first { greeting := true; }
    }

    /** Second lock section of `start`. */
    method StartHello()
      requires greeting
      modifies this`greeting, this`frames, this`accepted, this`pumps
      ensures View() == S.StartHello(old(View()))
    {
      greeting := false;
      Enqueue(HelloFrame(role));
    }

    method Start()
      modifies this`started, this`greeting, this`frames, this`accepted, this`pumps
      ensures View() == S.Start(old(View()))
    {
      var first := StartMark();
      if first { StartHello(); }
    }

    method Request(opcode: nat, body: Data, end: bool) returns (r: Result<nat, S.Errno>)
      requires opcode < 65536
      modifies this`nextID, this`streams, this`frames, this`accepted, this`pumps
      ensures (View(), r) == S.SendRequest(old(View()), opcode, body, end)
    {
      if |body| > FRAME_MAXIMUM - 4 { return Err(S.EMSGSIZE); }
      if failure.Some? { return Err(failure.value); }
      if nextID > UINT32_MAX - 2 { return Err(S.EOVERFLOW); }
      var id := nextID;
      nextID := nextID + 2;
      var state := S.NewStream(false);
      state := state.(localEnded := end);
      streams := streams[id := state];
      Append(Frame(FrameType.Request, end, id, S.Opcode(opcode) + body));
      return Ok(id);
    }

    method Notify(opcode: nat, body: Data) returns (r: Result<nat, S.Errno>)
      requires opcode < 65536
      modifies this`frames, this`accepted, this`tickets, this`pumps
      ensures (View(), r) == S.SendNotify(old(View()), opcode, body)
    {
      if |body| > FRAME_MAXIMUM - 4 { return Err(S.EMSGSIZE); }
      if failure.Some? { return Err(failure.value); }
      var ticket := AppendWaiting(Frame(FrameType.Notify, false, 0, S.Opcode(opcode) + body));
      return Ok(ticket);
    }

    method Respond(id: nat, status: nat, body: Data, end: bool) returns (r: Result<nat, S.Errno>)
      requires status <= UINT32_MAX
      modifies this`streams, this`frames, this`accepted, this`tickets, this`pumps
      ensures (View(), r) == S.SendResponse(old(View()), id, status, body, end)
    {
      if |body| > FRAME_MAXIMUM - 4 { return Err(S.EMSGSIZE); }
      if failure.Some? { return Err(failure.value); }
      if id !in streams { return Err(S.ECANCELED); }
      var state := streams[id];
      if state.cancelled { return Err(S.ECANCELED); }
      if state.localEnded { return Err(S.EPIPE); }
      if !(state.responder && !state.responded) { return Err(S.EINVAL); }
      state := state.(responded := true);
      if end { state := state.(localEnded := true); }
      streams := streams[id := state];
      var ticket := AppendWaiting(Frame(FrameType.Response, end, id, Encode32(status) + body));
      return Ok(ticket);
    }

    /** The lock section of one DATA frame. */
    method WriteData(id: nat, bytes: Data, last: bool) returns (r: Result<nat, S.Errno>)
      modifies this`streams, this`frames, this`accepted, this`tickets, this`pumps
      ensures (View(), r) == S.SendPiece(old(View()), id, bytes, last)
    {
      if failure.Some? { return Err(failure.value); }
      if id !in streams { return Err(S.ECANCELED); }
      var state := streams[id];
      if state.cancelled { return Err(S.ECANCELED); }
      if state.localEnded { return Err(S.EPIPE); }
      if state.responder && !state.responded { return Err(S.EINVAL); }
      if |bytes| > S.STREAM_DATA_MAXIMUM - state.sent { return Err(S.EMSGSIZE); }
      state := state.(sent := state.sent + |bytes|);
      if last { state := state.(localEnded := true); }
      streams := streams[id := state];
      var ticket := AppendWaiting(Frame(FrameType.Payload, last, id, bytes));
      return Ok(ticket);
    }

    /** The frames of one `send`, as far as they are accepted. */
    method SendFrames(id: nat, bytes: Data, end: bool) returns (error: Option<S.Errno>)
      modifies this`streams, this`frames, this`accepted, this`tickets, this`pumps
      ensures (View(), error) == S.SendParts(old(View()), id, S.Split(bytes, end))
    {
      ghost var whole := S.SendParts(View(), id, S.Split(bytes, end));
      var offset := 0;
      assert bytes[0..] == bytes;
      while true
        invariant 0 <= offset <= |bytes| && (offset < |bytes| || offset == 0)
        invariant S.SendParts(View(), id, S.Split(bytes[offset..], end)) == whole
        decreases |bytes| - offset
      {
        var size := if |bytes| - offset < FRAME_MAXIMUM then |bytes| - offset else FRAME_MAXIMUM;
        var last := end && offset + size == |bytes|;
        NextSend(View(), id, bytes, offset, end);
        var r := WriteData(id, bytes[offset..offset + size], last);
        if r.Err? { return Some(r.error); }
        offset := offset + size;
        if offset == |bytes| { return None; }
      }
    }

    method Send(id: nat, bytes: Data, end: bool) returns (error: Option<S.Errno>)
      modifies this`streams, this`frames, this`accepted, this`tickets, this`pumps
      ensures (View(), error) == S.Send(old(View()), id, bytes, end)
    {
      if bytes == [] && !end { return None; }
      if id !in streams { return Some(S.ECANCELED); }
      if |bytes| > S.STREAM_DATA_MAXIMUM - streams[id].sent { return Some(S.EMSGSIZE); }
      error := SendFrames(id, bytes, end);
    }

    method Receive(id: nat) returns (receipt: S.Receipt)
      modifies this`streams
      ensures (View(), receipt) == S.Receive(old(View()), id)
    {
      if id !in streams { return S.Returned(S.Failed(S.ECANCELED)); }
      var state := streams[id];
      if state.waiting {
        assert streams == streams[id := state];
        return S.Returned(S.Failed(S.EBUSY));
      }
      state := state.(calls := state.calls + 1);
      if state.inbound != [] {
        receipt := S.Returned(S.Got(state.inbound[0]));
        state := state.Take();
      } else if state.cancelled {
        receipt := S.Returned(S.Failed(S.ECANCELED));
        state := state.Complete(S.Failed(S.ECANCELED));
      } else if state.remoteEnded {
        receipt := S.Returned(S.Finished);
        state := state.Complete(S.Finished);
      } else if failure.Some? {
        receipt := S.Returned(S.Failed(failure.value));
        state := state.Complete(S.Failed(failure.value));
      } else {
        receipt := S.Suspended;
        state := state.(waiting := true);
      }
      streams := streams[id := state];
    }

    /** `deliverLocked`: pops one message for a waiting receiver, or completes it. */
    method Deliver(before: S.Stream) returns (state: S.Stream)
      ensures state == S.Deliver(before, failure)
    {
      state := before;
      if !state.waiting { return; }
      if state.inbound != [] {
        state := state.Take();
      } else if state.cancelled || failure.Some? {
        state := state.Complete(S.Failed(if state.cancelled then S.ECANCELED else failure.value));
      } else if state.remoteEnded {
        state := state.Complete(S.Finished);
      }
    }

    method Abandon(before: S.Stream) returns (state: S.Stream)
      ensures state == S.Abandon(before, failure)
    {
      state := before.(cancelled := true);
      state := state.(inbound := []);
      state := Deliver(state);
    }

    /** First lock section of `cancel`. */
    method CancelMark(id: nat) returns (send: bool)
      modifies this`streams, this`owed
      ensures (View(), send) == S.CancelMark(old(View()), id)
    {
      if id !in streams || streams[id].cancelled { return false; }
      var state := Abandon(streams[id]);
      streams := streams[id := state];
      send := failure.None? && !state.IsFinished();
      if send { owed := owed + {id}; }
    }

    /** Second lock section of `cancel`. */
    method CancelQueue(id: nat)
      requires id in owed
      modifies this`owed, this`frames, this`accepted, this`pumps
      ensures View() == S.CancelQueue(old(View()), id)
    {
      owed := owed - {id};
      Enqueue(Frame(FrameType.Cancel, false, id, []));
    }

    method Cancel(id: nat)
      modifies this`streams, this`owed, this`frames, this`accepted, this`pumps
      ensures var (marked, send) := S.CancelMark(old(View()), id);
              View() == if send then S.CancelQueue(marked, id) else marked
    {
      var send := CancelMark(id);
      if send { CancelQueue(id); }
    }

    method Release(id: nat)
      modifies this`streams, this`owed, this`frames, this`accepted, this`inboundStreams, this`pumps
      ensures var (marked, send) := S.CancelMark(old(View()), id);
              View() == S.Remove(if send then S.CancelQueue(marked, id) else marked, id)
    {
      Cancel(id);
      Forget(id);
    }

    /** Last lock section of `release`: the stream `cancel` has marked goes. */
    method Forget(id: nat)
      requires id in streams ==> streams[id].cancelled
      modifies this`streams, this`inboundStreams
      ensures View() == S.Remove(old(View()), id)
    {
      if id in streams {
        var state := streams[id];
        streams := streams - {id};
        if state.responder { inboundStreams := inboundStreams - 1; }
      }
    }

    method Pump() returns (next: Option<Frame>)
      modifies this`writing, this`frames, this`pumps
      ensures (View(), next) == S.Pump(old(View()))
    {
      pumps := if pumps > 0 then pumps - 1 else 0;
      if writing.Some? || failure.Some? || frames == [] { return None; }
      writing := Some(frames[0]);
      next := Some(frames[0].frame);
      frames := frames[1..];
    }

    /** The connection has written the frame, or failed to. */
    method Written()
      modifies this`writing, this`resumed, this`pumps
      ensures View() == S.Written(old(View()))
    {
      if writing.Some? {
        pumps := pumps + 1;
        resumed := S.Resume(resumed, writing.value.ticket);
        writing := None;
      }
    }

    /** First lock section of `fail`, and the writers it resumes. */
    method FailMark(error: S.Errno) returns (first: bool)
      modifies this`failure, this`closing, this`frames, this`resumed
      ensures View() == S.Fail(old(View()), error) && first == old(failure).None?
    {
      if failure.Some? { return false; }
      ResumeAll(frames);
      failure, closing, frames := Some(error), true, [];
      return true;
    }

    method ResumeAll(pending: seq<S.Queued>)
      modifies this`resumed
      ensures resumed == old(resumed) + S.Tickets(pending)
    {
      var rest := pending;
      while rest != []
        invariant resumed + S.Tickets(rest) == old(resumed) + S.Tickets(pending)
      {
        resumed := S.Resume(resumed, rest[0].ticket);
        rest := rest[1..];
      }
    }

    /** Tells every waiting receiver, in any order. */
    method DeliverAll()
      modifies this`streams
      ensures streams == map id | id in old(streams) :: S.Deliver(old(streams)[id], failure)
    {
      var left := streams.Keys;
      while left != {}
        invariant left <= streams.Keys == old(streams).Keys
        invariant forall id <- streams ::
                    streams[id] == if id in left then old(streams)[id] else S.Deliver(old(streams)[id], failure)
      {
        var id :| id in left;
        var state := Deliver(streams[id]);
        streams := streams[id := state];
        left := left - {id};
      }
    }

    method Fail(error: S.Errno)
      modifies this`failure, this`closing, this`frames, this`resumed, this`streams
      ensures View() == if old(failure).Some? then old(View()) else S.FailDeliver(S.Fail(old(View()), error))
    {
      var first := FailMark(error);
      if !first { return; }
      DeliverAll();
      closing := false;
    }

    /** `appendRefusalLocked`: a peer that never reads its refusals is dropped. */
    method Refuse(id: nat) returns (verdict: S.Verdict)
      modifies this`frames, this`accepted, this`pumps
      ensures if |old(frames)| >= S.MAXIMUM_PENDING_CONTROL then View() == old(View()) && verdict == S.Reject(S.ENOBUFS)
              else View() == old(View()).Queue(Frame(FrameType.Cancel, false, id, [])) && verdict == S.Handled
    {
      if |frames| >= S.MAXIMUM_PENDING_CONTROL { return S.Reject(S.ENOBUFS); }
      Append(Frame(FrameType.Cancel, false, id, []));
      return S.Handled;
    }

    method AddResponder(id: nat, end: bool)
      modifies this`streams, this`inboundStreams
      ensures View() == old(View()).With(id, S.NewStream(true).(remoteEnded := end)).(inboundStreams := old(inboundStreams) + 1)
    {
      var state := S.NewStream(true);
      state := state.(remoteEnded := end);
      streams := streams[id := state];
      inboundStreams := inboundStreams + 1;
    }

    method DispatchRequest(frame: Frame) returns (verdict: S.Verdict)
      requires greeted
      modifies this
      ensures (View(), verdict) == S.DispatchRequest(old(View()), frame) && greeted
      ensures dispatched != [] || old(dispatched) == []
    {
      var id: nat := frame.id;
      var payload, end := frame.payload, frame.end;
      if !S.PeerID(role, id) || id <= lastPeerID || |payload| < 4 { return S.Reject(S.EPROTO); }
      lastPeerID := id;
      dispatched := dispatched + [frame];
      var opcode := S.Decode16(payload);
      if !serves || inboundStreams >= S.MAXIMUM_INBOUND_STREAMS {
        verdict := Refuse(id);
        return;
      }
      AddResponder(id, end);
      return S.Serve(id, opcode, payload[4..]);
    }

    method DispatchResponse(frame: Frame) returns (verdict: S.Verdict)
      requires greeted
      modifies this
      ensures (View(), verdict) == S.DispatchResponse(old(View()), frame) && greeted
      ensures dispatched != [] || old(dispatched) == []
    {
      var id: nat := frame.id;
      var payload, end := frame.payload, frame.end;
      if id == 0 || S.PeerID(role, id) || |payload| < 4 { return S.Reject(S.EPROTO); }
      if id !in streams {
        if id >= nextID { return S.Reject(S.EPROTO); }
        dispatched := dispatched + [frame];
        return S.Handled;
      }
      if streams[id].cancelled {
        dispatched := dispatched + [frame];
        return S.Handled;
      }
      if streams[id].responded || streams[id].remoteEnded { return S.Reject(S.EPROTO); }
      dispatched := dispatched + [frame];
      var state := streams[id].(responded := true);
      state := state.(inbound := state.inbound + [S.Message(S.Status(Decode32(payload, 0)), payload[4..], end)]);
      if end { state := state.(remoteEnded := true); }
      state := Deliver(state);
      streams := streams[id := state];
      return S.Handled;
    }

    method DispatchPayload(frame: Frame) returns (verdict: S.Verdict)
      requires greeted
      modifies this
      ensures (View(), verdict) == S.DispatchPayload(old(View()), frame) && greeted
      ensures dispatched != [] || old(dispatched) == []
    {
      var id: nat := frame.id;
      var payload, end := frame.payload, frame.end;
      if id == 0 || !(if S.PeerID(role, id) then id <= lastPeerID else id < nextID) { return S.Reject(S.EPROTO); }
      if id !in streams || streams[id].cancelled {
        dispatched := dispatched + [frame];
        return S.Handled;
      }
      var state := streams[id];
      if state.remoteEnded || !(state.responder || state.responded)
         || |payload| > S.STREAM_DATA_MAXIMUM - state.received { return S.Reject(S.EPROTO); }
      dispatched := dispatched + [frame];
      state := state.(received := state.received + |payload|);
      if payload != [] { state := state.(inbound := state.inbound + [S.Message(S.Bulk, payload, end)]); }
      if end { state := state.(remoteEnded := true); }
      assert state == S.AddPayload(streams[id], frame);
      state := Deliver(state);
      streams := streams[id := state];
      return S.Handled;
    }

    /** `dispatchLocked`, preceded by the check of HELLO. */
    method Dispatch(frame: Frame) returns (verdict: S.Verdict)
      requires ReaderOk()
      modifies this
      ensures (View(), verdict) == S.Dispatch(old(View()), frame) && ReaderOk()
    {
      var id: nat := frame.id;
      var payload := frame.payload;
      if !greeted {
        if !S.AcceptsHello(role, frame) { return S.Reject(S.EPROTO); }
        greeted, dispatched := true, dispatched + [frame];
        return S.Handled;
      }
      match frame.kind
      case Hello =>
        return S.Reject(S.EPROTO);
      case Cancel =>
        if id == 0 || payload != [] { return S.Reject(S.EPROTO); }
        dispatched := dispatched + [frame];
        if id in streams && !streams[id].cancelled {
          var state := Abandon(streams[id]);
          streams := streams[id := state];
        }
        return S.Handled;
      case Request =>
        verdict := DispatchRequest(frame);
      case Response =>
        verdict := DispatchResponse(frame);
      case Payload =>
        verdict := DispatchPayload(frame);
      case Notify =>
        if id != 0 || |payload| < 4 { return S.Reject(S.EPROTO); }
        dispatched := dispatched + [frame];
        return S.Notified(S.Decode16(payload), payload[4..]);
    }
  }
}
