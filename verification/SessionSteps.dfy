/** Every lock section keeps the invariant of the session, whatever the peer sends. */
module SessionSteps {
  import opened Bytes
  import opened Wrappers
  import opened FileFrames
  import opened SessionState
  import opened SessionInvariant

  // ---- Tickets ----

  lemma {:induction false} TicketsAppend(frames: seq<Queued>, q: Queued)
    ensures Tickets(frames + [q]) == Resume(Tickets(frames), q.ticket)
  {
    if frames == [] {
      assert frames + [q] == [q];
    } else {
      TicketsAppend(frames[1..], q);
      assert (frames + [q])[1..] == frames[1..] + [q];
    }
  }

  /** Queueing a frame adds its own ticket to the pending ones and no other. */
  lemma QueueTickets(s: Session, f: Frame)
    requires TicketsOk(Pending(s.frames, s.writing), s.resumed, s.tickets)
    ensures Pending(s.frames + [Queued(f, None)], s.writing) == Pending(s.frames, s.writing)
    ensures TicketsOk(Pending(s.frames + [Queued(f, Some(s.tickets))], s.writing), s.resumed, s.tickets + 1)
  {
    TicketsAppend(s.frames, Queued(f, None));
    TicketsAppend(s.frames, Queued(f, Some(s.tickets)));
    var before, after := Pending(s.frames, s.writing), Pending(s.frames + [Queued(f, Some(s.tickets))], s.writing);
    assert after == before + multiset{s.tickets};
    forall t: nat ensures (after + s.resumed)[t] == if t < s.tickets + 1 then 1 else 0 {
      assert (before + s.resumed)[t] == if t < s.tickets then 1 else 0;
    }
  }

  // ---- Streams beside the one a step is about ----

  /** Frames that carry nothing for a stream leave its half of the invariant alone. */
  lemma OtherStream(s: Session, s': Session, id: nat, f: Frame)
    requires id in s.streams && StreamOk(s, id, s.streams[id])
    requires f.id != id || !Carries(f)
    requires s'.role == s.role && Told(s) == Told(s')
    requires s'.lastPeerID >= s.lastPeerID
    requires || (s'.accepted == s.accepted && s'.dispatched == s.dispatched)
             || (s'.accepted == s.accepted + [f] && s'.dispatched == s.dispatched
                 && LastRequest(s'.accepted) >= LastRequest(s.accepted))
             || (s'.accepted == s.accepted && s'.dispatched == s.dispatched + [f])
    ensures StreamOk(s', id, s.streams[id])
  {
    Snoc(s.accepted, f, id);
    Snoc(s.dispatched, f, id);
  }

  lemma SameResponders(streams: map<nat, Stream>, id: nat, st: Stream)
    requires if id in streams then st.responder == streams[id].responder else !st.responder
    ensures Responders(streams[id := st]) == Responders(streams)
  {
  }

  // ---- Sending ----

  /** A frame the sender's log allows keeps the log legal, and no request is forgotten. */
  lemma QueueLog(s: Session, f: Frame)
    requires Legal(s.accepted, s.role) && LegalFrame(s.accepted, f, s.role)
    requires KnownIDs(s.role, s.accepted, s.nextID, s.lastPeerID)
    requires Carries(f) ==> KnownID(s.role, f.id, s.nextID, s.lastPeerID)
    ensures Legal(s.accepted + [f], s.role)
    ensures KnownIDs(s.role, s.accepted + [f], s.nextID, s.lastPeerID)
    ensures LastRequest(s.accepted + [f]) >= LastRequest(s.accepted)
  {
    LegalSnoc(s.accepted, f, s.role);
    Snoc(s.accepted, f, 0);
  }

  /** A frame that carries nothing touches no stream. */
  lemma QueueControl(s: Session, f: Frame)
    requires Valid(s) && LegalFrame(s.accepted, f, s.role) && !Carries(f)
    ensures Valid(s.Queue(f)) && Valid(s.QueueWaiting(f))
  {
    QueueLog(s, f);
    QueueTickets(s, f);
    Snoc(s.accepted, f, 0);
    forall id | id in s.streams
      ensures StreamOk(s.Queue(f), id, s.streams[id]) && StreamOk(s.QueueWaiting(f), id, s.streams[id])
    {
      OtherStream(s, s.Queue(f), id, f);
      OtherStream(s, s.QueueWaiting(f), id, f);
    }
  }

  /** Queueing what a stream may send, with the stream's record of it. */
  lemma SendingStreams(s: Session, s': Session, id: nat, st: Stream, f: Frame)
    requires StreamsOk(s) && f.id == id
    requires s'.streams == s.streams[id := st] && s'.accepted == s.accepted + [f] && s'.dispatched == s.dispatched
    requires s'.role == s.role && s'.lastPeerID == s.lastPeerID && Told(s') == Told(s)
    requires LastRequest(s'.accepted) >= LastRequest(s.accepted)
    requires StreamOk(s', id, st)
    ensures StreamsOk(s')
  {
    forall other | other in s'.streams ensures StreamOk(s', other, s'.streams[other]) {
      if other != id { OtherStream(s, s', other, f); }
    }
  }

  /** Nothing was ever carried for a stream neither side has opened. */
  lemma UnknownID(s: Session, log: seq<Frame>, id: nat)
    requires KnownIDs(s.role, log, s.nextID, s.lastPeerID) && !KnownID(s.role, id, s.nextID, s.lastPeerID)
    ensures Follow(log, id) == Track(false, false, 0) && Messages(log, id) == []
  {
    Absent(log, id);
  }

  lemma NextOwnID(role: Role, id: nat)
    requires OwnID(role, id)
    ensures OwnID(role, id + 2)
  {
    assert (id + 2) % 2 == id % 2;
  }

  function Opened(s: Session, f: Frame): Session {
    s.(nextID := f.id + 2).With(f.id, NewStream(false).(localEnded := f.end)).Queue(f)
  }

  predicate Opens(s: Session, f: Frame) {
    f.kind.Request? && f.id == s.nextID <= UINT32_MAX - 2 && f.WellFormed() && |f.payload| >= 4
  }

  lemma OpenedNumbers(s: Session, f: Frame)
    requires Valid(s) && Opens(s, f)
    ensures NumbersOk(Opened(s, f))
  {
    Snoc(s.accepted, f, f.id);
    SameResponders(s.streams, f.id, NewStream(false).(localEnded := f.end));
  }

  lemma OpenedStreams(s: Session, f: Frame)
    requires Valid(s) && Opens(s, f)
    ensures StreamsOk(Opened(s, f))
  {
    Snoc(s.accepted, f, f.id);
    UnknownID(s, s.accepted, f.id);
    UnknownID(s, s.dispatched, f.id);
    SendingStreams(s, Opened(s, f), f.id, NewStream(false).(localEnded := f.end), f);
  }

  lemma OpenedLog(s: Session, f: Frame)
    requires Valid(s) && Opens(s, f)
    ensures var o := Opened(s, f);
            && OwnID(o.role, o.nextID) && o.nextID <= UINT32_MAX && OwedOk(o.owed)
            && Legal(o.accepted, o.role)
            && KnownIDs(o.role, o.accepted, o.nextID, o.lastPeerID) && KnownIDs(o.role, o.dispatched, o.nextID, o.lastPeerID)
  {
    NextOwnID(s.role, f.id);
    QueueLog(s.(nextID := f.id + 2), f);
  }

  lemma OpenedTickets(s: Session, f: Frame)
    requires Valid(s) && Opens(s, f)
    ensures var o := Opened(s, f); TicketsOk(Pending(o.frames, o.writing), o.resumed, o.tickets)
  {
    QueueTickets(s, f);
  }

  /** Opening a stream: the next own identifier, never seen in either direction. */
  lemma OpenedValid(s: Session, f: Frame)
    requires Valid(s) && Opens(s, f)
    ensures Valid(Opened(s, f))
  {
    OpenedLog(s, f);
    OpenedTickets(s, f);
    OpenedNumbers(s, f);
    OpenedStreams(s, f);
  }

  predicate MayOpen(s: Session, body: Data) {
    |body| <= FRAME_MAXIMUM - 4 && s.failure.None? && s.nextID <= UINT32_MAX - 2
  }

  lemma RequestOpens(s: Session, opcode: nat, body: Data, end: bool)
    requires MayOpen(s, body) && opcode < 65536 && s.nextID > 0
    ensures var f := Frame(Request, end, s.nextID, Opcode(opcode) + body);
            Opens(s, f) && SendRequest(s, opcode, body, end).0 == Opened(s, f)
  {
  }

  lemma SendRequestValid(s: Session, opcode: nat, body: Data, end: bool)
    requires Valid(s) && opcode < 65536
    ensures Valid(SendRequest(s, opcode, body, end).0)
  {
    if MayOpen(s, body) {
      RequestOpens(s, opcode, body, end);
      OpenedValid(s, Frame(Request, end, s.nextID, Opcode(opcode) + body));
    } else {
      assert SendRequest(s, opcode, body, end).0 == s;
    }
  }

  lemma SendResponseValid(s: Session, id: nat, status: nat, body: Data, end: bool)
    requires Valid(s) && status <= UINT32_MAX
    ensures Valid(SendResponse(s, id, status, body, end).0)
  {
    var s' := SendResponse(s, id, status, body, end).0;
    if s' != s {
      var f := Frame(Response, end, id, Encode32(status) + body);
      QueueLog(s, f);
      QueueTickets(s, f);
      Snoc(s.accepted, f, id);
      SameResponders(s.streams, id, s'.streams[id]);
      SendingStreams(s, s', id, s'.streams[id], f);
    }
  }

  lemma SendPieceValid(s: Session, id: nat, bytes: Data, last: bool)
    requires Valid(s) && |bytes| <= FRAME_MAXIMUM
    ensures Valid(SendPiece(s, id, bytes, last).0)
  {
    var s' := SendPiece(s, id, bytes, last).0;
    if s' != s {
      var f := Frame(Payload, last, id, bytes);
      QueueLog(s, f);
      QueueTickets(s, f);
      Snoc(s.accepted, f, id);
      SameResponders(s.streams, id, s'.streams[id]);
      SendingStreams(s, s', id, s'.streams[id], f);
    }
  }

  lemma SendNotifyValid(s: Session, opcode: nat, body: Data)
    requires Valid(s) && opcode < 65536
    ensures Valid(SendNotify(s, opcode, body).0)
  {
    if SendNotify(s, opcode, body).0 != s {
      QueueControl(s, Frame(Notify, false, 0, Opcode(opcode) + body));
    }
  }

  // ---- Receiving ----

  lemma TakenSnoc(results: seq<Delivery>, d: Delivery)
    ensures TakenFrom(results + [d]) == TakenFrom(results) + if d.Got? then [d.message] else []
  {
    assert (results + [d])[..|results|] == results;
  }

  lemma {:induction false} BulkAppend(messages: seq<Message>, m: Message)
    ensures BulkBytes(messages + [m]) == BulkBytes(messages) + if m.content.Bulk? then |m.body| else 0
  {
    if messages == [] {
      assert messages + [m] == [m];
    } else {
      BulkAppend(messages[1..], m);
      assert (messages + [m])[1..] == messages[1..] + [m];
    }
  }

  /** All of `WaitingOk` except that a waiting receiver may have something to be told. */
  predicate BufferOk(st: Stream) {
    && st.received <= STREAM_DATA_MAXIMUM
    && BulkBytes(st.inbound) <= st.received
    && st.calls == |st.results| + if st.waiting then 1 else 0
  }

  /** Taking the next message moves it from the buffer to the receiver. */
  lemma TakeOk(st: Stream, inn: Track, messages: seq<Message>)
    requires ReceivingOk(st, inn, messages) && st.inbound != []
    requires st.received <= STREAM_DATA_MAXIMUM && BulkBytes(st.inbound) <= st.received
    ensures ReceivingOk(st.Take(), inn, messages)
    ensures BulkBytes(st.Take().inbound) <= st.received
  {
    TakenSnoc(st.results, Got(st.inbound[0]));
    var t := st.Take();
    assert TakenFrom(t.results) + t.inbound == TakenFrom(st.results) + st.inbound;
  }

  /** `deliverLocked` leaves no receiver waiting for something already there. */
  lemma DeliverOk(st: Stream, failure: Option<Errno>, inn: Track, messages: seq<Message>)
    requires ReceivingOk(st, inn, messages) && BufferOk(st)
    ensures ReceivingOk(Deliver(st, failure), inn, messages)
    ensures WaitingOk(Deliver(st, failure), failure.None?)
    ensures var t := Deliver(st, failure);
            t == st.(waiting := t.waiting, results := t.results, inbound := t.inbound)
  {
    if st.waiting {
      if st.inbound != [] {
        TakeOk(st, inn, messages);
      } else {
        TakenSnoc(st.results, Failed(ECANCELED));
        TakenSnoc(st.results, Finished);
        if failure.Some? { TakenSnoc(st.results, Failed(failure.value)); }
      }
    }
  }

  /** Changing one stream within the invariant. */
  lemma WithValid(s: Session, id: nat, st: Stream)
    requires Valid(s) && id in s.streams && StreamOk(s, id, st)
    ensures Valid(s.With(id, st))
  {
    SameResponders(s.streams, id, st);
  }

  /** `receive` on one stream keeps its half of the invariant. */
  lemma ReceiveOk(st: Stream, failure: Option<Errno>, inn: Track, messages: seq<Message>, told: bool)
    requires ReceivingOk(st, inn, messages) && WaitingOk(st, told) && (failure.None? ==> told)
    ensures var t := ReceiveOn(st, failure).0;
            && ReceivingOk(t, inn, messages) && WaitingOk(t, told)
            && t == st.(waiting := t.waiting, results := t.results, inbound := t.inbound, calls := t.calls)
  {
    if st.inbound != [] {
      TakeOk(st, inn, messages);
    } else {
      TakenSnoc(st.results, Failed(ECANCELED));
      TakenSnoc(st.results, Finished);
      if failure.Some? { TakenSnoc(st.results, Failed(failure.value)); }
    }
  }

  lemma ReceiveValid(s: Session, id: nat)
    requires Valid(s)
    ensures Valid(Receive(s, id).0)
  {
    if id in s.streams {
      ReceiveOk(s.streams[id], s.failure, Follow(s.dispatched, id), Messages(s.dispatched, id), Told(s));
      WithValid(s, id, ReceiveOn(s.streams[id], s.failure).0);
    }
  }

  lemma AbandonOk(s: Session, id: nat)
    requires Valid(s) && id in s.streams
    ensures StreamOk(s, id, Abandon(s.streams[id], s.failure))
  {
    var st := s.streams[id].(cancelled := true, inbound := []);
    DeliverOk(st, s.failure, Follow(s.dispatched, id), Messages(s.dispatched, id));
  }

  lemma OwedValid(s: Session, owed: set<nat>)
    requires Valid(s) && OwedOk(owed)
    ensures Valid(s.(owed := owed))
  {
    assert forall id <- s.streams :: StreamOk(s.(owed := owed), id, s.streams[id]);
  }

  lemma CancelMarkValid(s: Session, id: nat)
    requires Valid(s)
    ensures Valid(CancelMark(s, id).0)
  {
    var s' := CancelMark(s, id).0;
    if s' != s {
      AbandonOk(s, id);
      WithValid(s, id, Abandon(s.streams[id], s.failure));
      OwedValid(s.With(id, Abandon(s.streams[id], s.failure)), s'.owed);
    }
  }

  lemma CancelQueueValid(s: Session, id: nat)
    requires Valid(s)
    ensures Valid(CancelQueue(s, id))
  {
    if id in s.owed {
      OwedValid(s, s.owed - {id});
      if s.failure.None? { QueueControl(s.(owed := s.owed - {id}), Frame(Cancel, false, id, [])); }
    }
  }

  lemma RemoveValid(s: Session, id: nat)
    requires Valid(s)
    ensures Valid(Remove(s, id))
  {
    var s' := Remove(s, id);
    if s' != s {
      OneFewerResponder(s.streams, id);
      forall other <- s'.streams ensures StreamOk(s', other, s'.streams[other]) { StreamElsewhere(s, s', other); }
    }
  }

  lemma OneFewerResponder(streams: map<nat, Stream>, id: nat)
    requires id in streams
    ensures |Responders(streams - {id})| == if streams[id].responder then |Responders(streams)| - 1 else |Responders(streams)|
  {
    if streams[id].responder {
      assert id in Responders(streams) && Responders(streams - {id}) == Responders(streams) - {id};
    } else {
      assert Responders(streams - {id}) == Responders(streams);
    }
  }

  // ---- Writing ----

  lemma PumpsValid(s: Session, pumps: nat)
    requires Valid(s) && PumpOk(s.(pumps := pumps))
    ensures Valid(s.(pumps := pumps))
  {
    assert forall id <- s.streams :: StreamOk(s.(pumps := pumps), id, s.streams[id]);
  }

  lemma WritingValid(s: Session)
    requires Valid(s) && s.writing.None? && s.frames != []
    ensures Valid(s.(writing := Some(s.frames[0]), frames := s.frames[1..]))
  {
    var s' := s.(writing := Some(s.frames[0]), frames := s.frames[1..]);
    assert Pending(s'.frames, s'.writing) == Pending(s.frames, s.writing);
    assert forall id <- s'.streams :: StreamOk(s', id, s'.streams[id]);
  }

  lemma PumpValid(s: Session)
    requires Valid(s)
    ensures Valid(Pump(s).0)
  {
    var pumps := Pump(s).0.pumps;
    if Pump(s).1.Some? {
      WritingValid(s);
      PumpsValid(s.(writing := Some(s.frames[0]), frames := s.frames[1..]), pumps);
    } else {
      PumpsValid(s, pumps);
    }
  }

  lemma WrittenValid(s: Session)
    requires Valid(s)
    ensures Valid(Written(s))
  {
    var s' := Written(s);
    if s' != s {
      assert Pending(s'.frames, s'.writing) + s'.resumed == Pending(s.frames, s.writing) + s.resumed;
      assert forall id <- s'.streams :: StreamOk(s', id, s'.streams[id]);
    }
  }

  lemma FailValid(s: Session, error: Errno)
    requires Valid(s)
    ensures Valid(Fail(s, error))
  {
    var s' := Fail(s, error);
    if s' != s {
      assert Pending(s'.frames, s'.writing) + s'.resumed == Pending(s.frames, s.writing) + s.resumed;
      assert forall id <- s'.streams :: StreamOk(s', id, s'.streams[id]);
    }
  }

  lemma FailDeliverValid(s: Session)
    requires Valid(s)
    ensures Valid(FailDeliver(s))
  {
    var s' := FailDeliver(s);
    if s' != s {
      assert Responders(s'.streams) == Responders(s.streams);
      forall id | id in s.streams ensures StreamOk(s', id, s'.streams[id]) {
        DeliverOk(s.streams[id], s.failure, Follow(s.dispatched, id), Messages(s.dispatched, id));
      }
    }
  }

  // ---- Reading ----

  /** Acting on a frame extends the log of frames acted on. */
  lemma LogStreams(s: Session, s': Session, f: Frame)
    requires StreamsOk(s)
    requires s'.accepted == s.accepted && s'.dispatched == s.dispatched + [f]
    requires s'.role == s.role && s'.lastPeerID >= s.lastPeerID && Told(s') == Told(s)
    requires forall id <- s'.streams :: id != f.id ==> id in s.streams && s'.streams[id] == s.streams[id]
    requires f.id in s'.streams ==> StreamOk(s', f.id, s'.streams[f.id])
    ensures StreamsOk(s')
  {
    forall id | id in s'.streams ensures StreamOk(s', id, s'.streams[id]) {
      if id != f.id { OtherStream(s, s', id, f); }
    }
  }

  /** A frame that opens nothing: the streams decide. */
  lemma LogValid(s: Session, f: Frame)
    requires Valid(s) && !f.kind.Request?
    requires Carries(f) ==> KnownID(s.role, f.id, s.nextID, s.lastPeerID)
    requires f.id in s.streams && Carries(f) ==> s.streams[f.id].cancelled
    ensures Valid(Log(s, f))
  {
    Snoc(s.dispatched, f, f.id);
    LogStreams(s, Log(s, f), f);
  }

  /** A frame that changes one stream. */
  lemma LogWithValid(s: Session, f: Frame, st: Stream)
    requires Valid(s) && !f.kind.Request? && f.id in s.streams
    requires KnownID(s.role, f.id, s.nextID, s.lastPeerID)
    requires StreamOk(Log(s, f), f.id, st)
    ensures Valid(Log(s, f).With(f.id, st))
  {
    Snoc(s.dispatched, f, f.id);
    SameResponders(s.streams, f.id, st);
    LogStreams(s, Log(s, f).With(f.id, st), f);
  }

  /** A message of the peer goes to the end of the stream's buffer. */
  lemma AddResponseOk(st: Stream, f: Frame, inn: Track, messages: seq<Message>)
    requires ReceivingOk(st, inn, messages) && BufferOk(st) && !st.cancelled && !st.responder
    requires f.kind.Response? && |f.payload| >= 4
    ensures BufferOk(AddResponse(st, f))
    ensures !st.remoteEnded ==> ReceivingOk(AddResponse(st, f), Advance(inn, f, f.id), messages + MessageOf(f, f.id))
  {
    var message := AddResponse(st, f).inbound[|st.inbound|];
    BulkAppend(st.inbound, message);
    Associative(TakenFrom(st.results), st.inbound, [message]);
  }

  lemma AddPayloadOk(st: Stream, f: Frame, inn: Track, messages: seq<Message>)
    requires ReceivingOk(st, inn, messages) && BufferOk(st) && !st.cancelled && !st.remoteEnded
    requires f.kind.Payload? && |f.payload| <= STREAM_DATA_MAXIMUM - st.received
    ensures BufferOk(AddPayload(st, f))
    ensures ReceivingOk(AddPayload(st, f), Advance(inn, f, f.id), messages + MessageOf(f, f.id))
  {
    var more := MessageOf(f, f.id);
    if more != [] { BulkAppend(st.inbound, more[0]); } else { assert AddPayload(st, f).inbound == st.inbound; }
    Associative(TakenFrom(st.results), st.inbound, more);
  }

  lemma ResponseStream(s: Session, f: Frame)
    requires f.kind.Response? && |f.payload| >= 4 && f.id in s.streams && StreamOk(s, f.id, s.streams[f.id])
    requires var st := s.streams[f.id]; !st.cancelled && !st.responder && !st.responded && !st.remoteEnded
    ensures StreamOk(Log(s, f), f.id, Deliver(AddResponse(s.streams[f.id], f), s.failure))
  {
    var st, inn, messages := s.streams[f.id], Follow(s.dispatched, f.id), Messages(s.dispatched, f.id);
    Snoc(s.dispatched, f, f.id);
    AddResponseOk(st, f, inn, messages);
    DeliverOk(AddResponse(st, f), s.failure, Advance(inn, f, f.id), messages + MessageOf(f, f.id));
  }

  lemma PayloadStream(s: Session, f: Frame)
    requires f.kind.Payload? && f.id in s.streams && StreamOk(s, f.id, s.streams[f.id])
    requires var st := s.streams[f.id]; !st.cancelled && !st.remoteEnded && |f.payload| <= STREAM_DATA_MAXIMUM - st.received
    ensures StreamOk(Log(s, f), f.id, Deliver(AddPayload(s.streams[f.id], f), s.failure))
  {
    var st, inn, messages := s.streams[f.id], Follow(s.dispatched, f.id), Messages(s.dispatched, f.id);
    Snoc(s.dispatched, f, f.id);
    AddPayloadOk(st, f, inn, messages);
    DeliverOk(AddPayload(st, f), s.failure, Advance(inn, f, f.id), messages + MessageOf(f, f.id));
  }

  lemma DispatchResponseValid(s: Session, f: Frame)
    requires Valid(s) && f.WellFormed() && f.kind.Response?
    requires !DispatchResponse(s, f).1.Reject?
    ensures Valid(DispatchResponse(s, f).0)
  {
    if f.id !in s.streams || s.streams[f.id].cancelled {
      LogValid(s, f);
    } else {
      ResponseStream(s, f);
      LogWithValid(s, f, Deliver(AddResponse(s.streams[f.id], f), s.failure));
    }
  }

  lemma DispatchPayloadValid(s: Session, f: Frame)
    requires Valid(s) && f.WellFormed() && f.kind.Payload?
    requires !DispatchPayload(s, f).1.Reject?
    ensures Valid(DispatchPayload(s, f).0)
  {
    if f.id !in s.streams || s.streams[f.id].cancelled {
      LogValid(s, f);
    } else {
      PayloadStream(s, f);
      LogWithValid(s, f, Deliver(AddPayload(s.streams[f.id], f), s.failure));
    }
  }

  function Requested(s: Session, f: Frame): Session { Log(s.(lastPeerID := f.id), f) }

  function Refused(s: Session, f: Frame): Session { Requested(s, f).Queue(Frame(Cancel, false, f.id, [])) }

  function Served(s: Session, f: Frame): Session {
    Requested(s, f).With(f.id, NewStream(true).(remoteEnded := f.end)).(inboundStreams := s.inboundStreams + 1)
  }

  lemma RequestIs(s: Session, f: Frame)
    requires DispatchRequest(s, f).1 != Reject(EPROTO)
    ensures PeerID(s.role, f.id) && f.id > s.lastPeerID
    ensures var t := DispatchRequest(s, f).0;
            if s.serves && s.inboundStreams < MAXIMUM_INBOUND_STREAMS then t == Served(s, f)
            else t == Refused(s, f) || t == Requested(s, f)
  {
  }

  /** The peer's next request, before it is served or refused. */
  lemma RequestLogValid(s: Session, f: Frame)
    requires Valid(s) && f.WellFormed() && f.kind.Request? && PeerID(s.role, f.id) && f.id > s.lastPeerID
    ensures Valid(Requested(s, f))
  {
    Snoc(s.dispatched, f, f.id);
    LogStreams(s, Requested(s, f), f);
  }

  lemma ServedStream(s: Session, f: Frame)
    requires Valid(s) && f.WellFormed() && f.kind.Request? && PeerID(s.role, f.id) && f.id > s.lastPeerID
    ensures StreamOk(Requested(s, f), f.id, NewStream(true).(remoteEnded := f.end))
  {
    Snoc(s.dispatched, f, f.id);
    UnknownID(s, s.accepted, f.id);
    UnknownID(s, s.dispatched, f.id);
  }

  /** A served request adds one responder, which the limit still has room for. */
  lemma ServeValid(s: Session, id: nat, st: Stream)
    requires Valid(s) && id !in s.streams && st.responder && StreamOk(s, id, st)
    requires s.inboundStreams < MAXIMUM_INBOUND_STREAMS
    ensures Valid(s.With(id, st).(inboundStreams := s.inboundStreams + 1))
  {
    var s' := s.With(id, st).(inboundStreams := s.inboundStreams + 1);
    OneMoreResponder(s.streams, id, st);
    forall other <- s'.streams ensures StreamOk(s', other, s'.streams[other]) {
      if other != id { StreamElsewhere(s, s', other); }
    }
    StreamElsewhere(s, s', id);
  }

  lemma OneMoreResponder(streams: map<nat, Stream>, id: nat, st: Stream)
    requires id !in streams && st.responder
    ensures |Responders(streams[id := st])| == |Responders(streams)| + 1
  {
    assert Responders(streams[id := st]) == Responders(streams) + {id};
  }

  /** A stream's half of the invariant reads nothing but the logs, the numbers and the
      failure. */
  lemma StreamElsewhere(s: Session, s': Session, id: nat)
    requires s'.role == s.role && s'.lastPeerID == s.lastPeerID && s'.accepted == s.accepted
    requires s'.dispatched == s.dispatched && s'.failure == s.failure && s'.closing == s.closing
    ensures forall st :: StreamOk(s, id, st) ==> StreamOk(s', id, st)
  {
  }

  lemma RefusedValid(s: Session, f: Frame)
    requires Valid(Requested(s, f)) && f.kind.Request? && PeerID(s.role, f.id)
    ensures Valid(Refused(s, f))
  {
    QueueControl(Requested(s, f), Frame(Cancel, false, f.id, []));
  }

  lemma ServedValid(s: Session, f: Frame)
    requires Valid(s) && f.WellFormed() && f.kind.Request? && PeerID(s.role, f.id) && f.id > s.lastPeerID
    requires Valid(Requested(s, f)) && s.inboundStreams < MAXIMUM_INBOUND_STREAMS
    ensures Valid(Served(s, f))
  {
    ServedStream(s, f);
    ServeValid(Requested(s, f), f.id, NewStream(true).(remoteEnded := f.end));
  }

  lemma DispatchRequestValid(s: Session, f: Frame)
    requires Valid(s) && f.WellFormed() && f.kind.Request?
    requires DispatchRequest(s, f).1 != Reject(EPROTO)
    ensures Valid(DispatchRequest(s, f).0)
  {
    RequestLogValid(s, f);
    RequestIs(s, f);
    if s.serves && s.inboundStreams < MAXIMUM_INBOUND_STREAMS {
      ServedValid(s, f);
    } else {
      RefusedValid(s, f);
    }
  }

  lemma CancelledValid(s: Session, f: Frame)
    requires Valid(s) && f.kind.Cancel? && f.id in s.streams
    ensures Valid(Log(s, f).With(f.id, Abandon(s.streams[f.id], s.failure)))
  {
    Snoc(s.dispatched, f, f.id);
    AbandonOk(s, f.id);
    LogWithValid(s, f, Abandon(s.streams[f.id], s.failure));
  }

  /** Any frame the session acts on, from any peer, keeps the invariant. */
  lemma DispatchValid(s: Session, f: Frame)
    requires Valid(s) && f.WellFormed() && Dispatch(s, f).1 != Reject(EPROTO)
    ensures Valid(Dispatch(s, f).0)
  {
    if s.dispatched == [] {
      LogValid(s, f);
    } else {
      match f.kind
      case Cancel =>
        if f.id !in s.streams || s.streams[f.id].cancelled { LogValid(s, f); } else { CancelledValid(s, f); }
      case Request => DispatchRequestValid(s, f);
      case Response => DispatchResponseValid(s, f);
      case Payload => DispatchPayloadValid(s, f);
      case Notify => LogValid(s, f);
    }
  }
}
