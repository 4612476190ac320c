/** What the streams of two joined sessions deliver. */
module SessionPipe {
  import opened Bytes
  import opened Wrappers
  import opened FileFrames
  import opened SessionState
  import opened SessionInvariant
  import opened SessionSteps
  import opened SessionGreeting
  import opened SessionNetwork

  /** Each direction of a stream the receiver has not given up is an exact first-in
      first-out pipe: what `receive` returned, what waits in the buffer, what is in the
      channel and what is queued is what the sender accepted, in this order. */
  lemma StreamIsPipe(n: Net, moves: seq<Move>, id: nat)
    requires Initial(n) && Polite(n, moves)
    ensures var m := Run(n, moves);
            m.near.failure.None? && id in m.far.streams && !m.far.streams[id].cancelled ==>
              var st := m.far.streams[id];
              TakenFrom(st.results) + st.inbound + Messages(m.outgoing, id) + Messages(FramesOf(m.near.frames), id)
              == Messages(m.near.accepted, id)
  {
    RunValid(n, moves);
    var m := Run(n, moves);
    MessagesAppend(m.far.dispatched, m.outgoing, id);
    MessagesAppend(m.far.dispatched + m.outgoing, FramesOf(m.near.frames), id);
  }

  /** A legal sender queues nothing for a stream after it ended its half. */
  lemma {:induction false} NothingAfterEnd(log: seq<Frame>, role: Role, n: nat, id: nat)
    requires Legal(log, role) && n <= |log| && Follow(log[..n], id).ended
    requires OwnID(role, id) ==> id <= LastRequest(log[..n])
    requires PeerID(role, id) || OwnID(role, id)
    ensures Follow(log, id).ended && Messages(log, id) == Messages(log[..n], id)
  {
    if n == |log| {
      assert log[..n] == log;
    } else {
      var front := log[..|log| - 1];
      assert forall k :: 0 <= k < |front| ==> front[..k] == log[..k];
      assert front[..n] == log[..n];
      NothingAfterEnd(front, role, n, id);
      assert LegalFrame(front, log[|log| - 1], role);
      LastRequestPrefix(front, n, role);
    }
  }

  /** `receive` reports the end only after everything the peer ever sent was returned. */
  lemma EndIsTheEnd(n: Net, moves: seq<Move>, id: nat)
    requires Initial(n) && Polite(n, moves)
    ensures var m := Run(n, moves);
            id in m.far.streams && !m.far.streams[id].cancelled && Finished in m.far.streams[id].results ==>
              TakenFrom(m.far.streams[id].results) == Messages(m.near.accepted, id)
  {
    RunValid(n, moves);
    var m := Run(n, moves);
    if id in m.far.streams && !m.far.streams[id].cancelled && Finished in m.far.streams[id].results {
      var k := |m.far.dispatched|;
      assert m.far.dispatched + m.outgoing <= m.near.accepted;
      assert m.near.accepted[..k] == m.far.dispatched;
      NothingAfterEnd(m.near.accepted, m.near.role, k, id);
    }
  }

  // ---- Bytes ----

  /** The DATA bytes queued for a stream, in order. */
  function Carried(log: seq<Frame>, id: nat): Data {
    if log == [] then []
    else
      var f := log[|log| - 1];
      Carried(log[..|log| - 1], id) + if f.id == id && f.kind.Payload? then f.payload else []
  }

  function Bodies(messages: seq<Message>): Data {
    if messages == [] then []
    else
      var m := messages[|messages| - 1];
      Bodies(messages[..|messages| - 1]) + if m.content.Bulk? then m.body else []
  }

  lemma CarriedSnoc(log: seq<Frame>, f: Frame, id: nat)
    ensures Carried(log + [f], id) == Carried(log, id) + if f.id == id && f.kind.Payload? then f.payload else []
  {
    assert (log + [f])[..|log|] == log;
  }

  /** The messages of a stream hold exactly the bytes its sender passed to `send`. */
  lemma {:induction false} MessagesCarry(log: seq<Frame>, id: nat)
    ensures Bodies(Messages(log, id)) == Carried(log, id)
  {
    if log != [] {
      var front, f := log[..|log| - 1], log[|log| - 1];
      MessagesCarry(front, id);
      var more := MessageOf(f, id);
      if more == [] {
        assert Messages(log, id) == Messages(front, id);
      } else {
        assert Messages(log, id) == Messages(front, id) + [more[0]];
        assert (Messages(front, id) + [more[0]])[..|Messages(front, id)|] == Messages(front, id);
      }
    }
  }

  /** A stream that takes these bytes now takes all the frames they are cut into. */
  predicate Ready(s: Session, id: nat, size: nat) {
    && Unusable(s, id).None?
    && (s.streams[id].responder ==> s.streams[id].responded)
    && size <= STREAM_DATA_MAXIMUM - s.streams[id].sent
  }

  /** What an accepted `send` of these bytes leaves behind. */
  predicate Appended(s: Session, s': Session, id: nat, bytes: Data, end: bool) {
    && id in s.streams
    && s'.streams == s.streams[id := s.streams[id].(sent := s.streams[id].sent + |bytes|, localEnded := end)]
    && Carried(s'.accepted, id) == Carried(s.accepted, id) + bytes
  }

  lemma ReadyPiece(s: Session, id: nat, bytes: Data, last: bool, size: nat)
    requires Ready(s, id, size) && |bytes| <= size
    ensures var (s', sent) := SendPiece(s, id, bytes, last);
            && sent.Ok?
            && Appended(s, s', id, bytes, last)
            && (!last ==> Ready(s', id, size - |bytes|))
  {
    CarriedSnoc(s.accepted, Frame(Payload, last, id, bytes), id);
  }

  lemma PartsCons(s: Session, id: nat, parts: seq<Part>)
    requires parts != [] && SendPiece(s, id, parts[0].bytes, parts[0].last).1.Ok?
    ensures SendParts(s, id, parts) == SendParts(SendPiece(s, id, parts[0].bytes, parts[0].last).0, id, parts[1..])
  {
  }

  lemma AppendedTwice(s: Session, s1: Session, s2: Session, id: nat, first: Data, rest: Data, end: bool)
    requires Appended(s, s1, id, first, false) && Appended(s1, s2, id, rest, end)
    ensures Appended(s, s2, id, first + rest, end)
  {
    Associative(Carried(s.accepted, id), first, rest);
  }

  lemma {:induction false} ReadyParts(s: Session, id: nat, bytes: Data, end: bool)
    requires Ready(s, id, |bytes|)
    ensures SendParts(s, id, Split(bytes, end)).1.None?
    ensures Appended(s, SendParts(s, id, Split(bytes, end)).0, id, bytes, end)
    decreases |bytes|
  {
    var parts := Split(bytes, end);
    var first, rest := parts[0].bytes, bytes[|parts[0].bytes|..];
    ReadyPiece(s, id, first, parts[0].last, |bytes|);
    PartsCons(s, id, parts);
    if |bytes| > FRAME_MAXIMUM {
      var s1 := SendPiece(s, id, first, false).0;
      ReadyParts(s1, id, rest, end);
      AppendedTwice(s, s1, SendParts(s1, id, Split(rest, end)).0, id, first, rest, end);
      assert bytes == first + rest;
    }
  }

  /** `send` is refused as a whole or accepted as a whole; accepted, it appends exactly
      its bytes to the stream and ends the local half exactly when asked to. */
  lemma SendIsWhole(s: Session, id: nat, bytes: Data, end: bool)
    requires bytes != [] || end
    ensures var (s', error) := Send(s, id, bytes, end);
            && (error.None? <==> Ready(s, id, |bytes|))
            && (error.Some? ==> s' == s)
            && (error.None? ==> Appended(s, s', id, bytes, end))
  {
    if Ready(s, id, |bytes|) { ReadyParts(s, id, bytes, end); }
  }

  // ---- A session alone, against any peer ----

  datatype Event = Own(step: Step) | Peer(frame: Frame)

  /** Any own steps and any frames the reader can hand over, in any order. */
  function Endure(s: Session, events: seq<Event>): Session {
    if events == [] then s else Meet(Endure(s, events[..|events| - 1]), events[|events| - 1])
  }

  function Meet(s: Session, event: Event): Session {
    match event
    case Own(step) => if step.Transmit? then Pump(s).0 else Local(s, step)
    case Peer(f) =>
      if !Reading(s) then s
      else if f.WellFormed() then Act(s, f)
      else Fail(s, EPROTO)
  }

  lemma MeetOk(s: Session, event: Event)
    requires Valid(Heard(s))
    ensures Valid(Heard(Meet(s, event)))
  {
    match event
    case Own(step) =>
      if step.Transmit? { HeardPump(s); } else { HeardLocal(s, step); }
    case Peer(f) =>
      if f.WellFormed() { HeardAct(s, f); } else { HeardBroken(s, EPROTO); }
  }

  lemma {:induction false} EndureOk(role: Role, serves: bool, events: seq<Event>)
    ensures Valid(Heard(Endure(Fresh(role, serves), events)))
  {
    if events == [] {
      FreshOk(role, serves);
    } else {
      EndureOk(role, serves, events[..|events| - 1]);
      MeetOk(Endure(Fresh(role, serves), events[..|events| - 1]), events[|events| - 1]);
    }
  }

  /** What a peer can make this side hold is bounded, and no local waiter is lost: the
      counter is the number of streams the peer opened and at most 64, a stream buffers no
      more than it received and at most 1 MiB, a cancelled stream buffers nothing, a
      receiver waits only while there is nothing to tell it, each call of `receive` has
      completed once or is the one waiting, and each suspended write is pending or was
      resumed exactly once. */
  lemma AnyPeerIsBounded(role: Role, serves: bool, events: seq<Event>)
    ensures var s := Endure(Fresh(role, serves), events);
            && s.inboundStreams == |Responders(s.streams)| <= MAXIMUM_INBOUND_STREAMS
            && (forall id <- s.streams :: var st := s.streams[id];
                  && BulkBytes(st.inbound) <= st.received <= STREAM_DATA_MAXIMUM
                  && st.sent <= STREAM_DATA_MAXIMUM
                  && (st.cancelled ==> st.inbound == [])
                  && (st.waiting ==> st.inbound == [] && !st.cancelled && !st.remoteEnded && (s.failure.None? || s.closing))
                  && st.calls == |st.results| + if st.waiting then 1 else 0)
            && (forall t: nat :: (Pending(s.frames, s.writing) + s.resumed)[t] == if t < s.tickets then 1 else 0)
  {
    EndureOk(role, serves, events);
    var s := Heard(Endure(Fresh(role, serves), events));
    assert forall id <- s.streams :: StreamOk(s, id, s.streams[id]);
  }

  // ---- HELLO comes first ----

  /** Any own steps of a session, from the moment it is made. */
  function Prepare(s: Session, steps: seq<Step>): Session {
    if steps == [] then s else Local(Prepare(s, steps[..|steps| - 1]), steps[|steps| - 1])
  }

  /** Each call that asks for something comes after the section that queues HELLO. */
  predicate AllTimely(s: Session, steps: seq<Step>) {
    steps == []
    || (AllTimely(s, steps[..|steps| - 1]) && Timely(Prepare(s, steps[..|steps| - 1]), steps[|steps| - 1]))
  }

  /** What holds whatever the callers do: a session that lives and has queued nothing is as it
      was made, and one that has queued HELLO first is past `start`. */
  predicate EarlyOk(s: Session, role: Role) {
    && s.role == role
    && (s.accepted == [] && s.failure.None? ==> Silent(s))
    && (Spoke(s) ==> Reading(s) && s.accepted[0] == HelloFrame(role))
  }

  lemma SilentStep(s: Session, step: Step, role: Role)
    requires EarlyOk(s, role) && Silent(s)
    ensures EarlyOk(Local(s, step), role)
    ensures Local(s, step).accepted == [] || Spoke(Local(s, step)) <==> Timely(s, step)
  {
  }

  lemma EarlyStep(s: Session, step: Step, role: Role)
    requires EarlyOk(s, role)
    ensures EarlyOk(Local(s, step), role)
    ensures s.accepted == [] || Spoke(s) ==>
              (Local(s, step).accepted == [] || Spoke(Local(s, step)) <==> Timely(s, step))
    ensures s.accepted != [] && !Spoke(s) ==> Local(s, step).accepted != [] && !Spoke(Local(s, step))
  {
    if s.accepted == [] && s.failure.None? {
      SilentStep(s, step, role);
    } else {
      LocalQueues(s, step);
      if !step.Mark? && !step.Greet? { FlagsStay(s, step); }
    }
  }

  lemma {:induction false} EarlyRun(role: Role, serves: bool, steps: seq<Step>)
    ensures var s := Prepare(Fresh(role, serves), steps);
            EarlyOk(s, role) && (AllTimely(Fresh(role, serves), steps) <==> s.accepted == [] || Spoke(s))
  {
    if steps != [] {
      EarlyRun(role, serves, steps[..|steps| - 1]);
      EarlyStep(Prepare(Fresh(role, serves), steps[..|steps| - 1]), steps[|steps| - 1], role);
    }
  }

  /** The peer accepts the first frame of a session if and only if every request and
      notification was made after the section of `start` that queues HELLO, or was refused:
      one made before `start`, or between the two sections, reaches the wire before HELLO. */
  lemma HelloFirst(role: Role, serves: bool, steps: seq<Step>)
    ensures var s := Prepare(Fresh(role, serves), steps);
            var peer := Fresh(if role.Host? then Guest else Host, true);
            s.accepted != [] ==>
              (Dispatch(peer, s.accepted[0]).1 != Reject(EPROTO) <==> AllTimely(Fresh(role, serves), steps))
  {
    EarlyRun(role, serves, steps);
  }

  /** One request before `start` is enough: the peer ends the session with EPROTO. */
  lemma RequestBeforeStart()
    ensures var s := Start(Local(Fresh(Host, true), Open(1, [], false)));
            s.accepted == [Frame(Request, false, 2, [1, 0, 0, 0]), HelloFrame(Host)]
    ensures Dispatch(Fresh(Guest, true), Frame(Request, false, 2, [1, 0, 0, 0])).1 == Reject(EPROTO)
  {
    var s := Local(Fresh(Host, true), Open(1, [], false));
    assert Opcode(1) + [] == [1, 0, 0, 0];
    assert s.accepted == [Frame(Request, false, 2, [1, 0, 0, 0])] && !s.started && s.failure.None?;
  }

  /** So is one between the sections of `start`; and a second call of `start` that returns in
      between, having nothing to do, does not make it safe. */
  lemma RequestDuringStart()
    ensures var marked := Local(Fresh(Host, true), Mark);
            && StartMark(marked) == (marked, false)
            && var s := Local(Local(marked, Open(1, [], false)), Greet);
               s.accepted == [Frame(Request, false, 2, [1, 0, 0, 0]), HelloFrame(Host)]
  {
    assert Opcode(1) + [] == [1, 0, 0, 0];
    var s := Local(Local(Fresh(Host, true), Mark), Open(1, [], false));
    assert s.accepted == [Frame(Request, false, 2, [1, 0, 0, 0])] && s.greeting && s.failure.None?;
  }
}
