/** Two sessions of opposite roles joined by two first-in first-out channels, stepped
    in any interleaving. */
module SessionNetwork {
  import opened Bytes
  import opened Wrappers
  import opened FileFrames
  import opened SessionState
  import opened SessionInvariant
  import opened SessionSteps
  import opened SessionGreeting

  datatype Net = Net(near: Session, far: Session, outgoing: seq<Frame>, incoming: seq<Frame>) {
    function Flip(): Net { Net(far, near, incoming, outgoing) }
  }

  function NearStep(n: Net, step: Step): Net {
    if step.Transmit? then
      var (s, f) := Pump(n.near);
      n.(near := s, outgoing := if f.Some? then n.outgoing + [f.value] else n.outgoing)
    else if step.Read? then
      if n.incoming == [] || !Reading(n.near) then n
      else n.(near := Act(n.near, n.incoming[0]), incoming := n.incoming[1..])
    else n.(near := Local(n.near, step))
  }

  datatype Move = Move(far: bool, step: Step)

  function Take(n: Net, m: Move): Net {
    if m.far then NearStep(n.Flip(), m.step).Flip() else NearStep(n, m.step)
  }

  function Run(n: Net, moves: seq<Move>): Net {
    if moves == [] then n else Take(Run(n, moves[..|moves| - 1]), moves[|moves| - 1])
  }

  /** Two new sessions of opposite roles; nobody called `start` yet. */
  predicate Initial(n: Net) {
    && n.near == Fresh(n.near.role, n.near.serves)
    && n.far == Fresh(n.far.role, n.far.serves)
    && n.near.role != n.far.role
    && n.outgoing == n.incoming == []
  }

  function Side(n: Net, m: Move): Session { if m.far then n.far else n.near }

  /** On both sides nothing is asked for before HELLO is queued. */
  predicate Polite(n: Net, moves: seq<Move>) {
    moves == []
    || (Polite(n, moves[..|moves| - 1])
        && Timely(Side(Run(n, moves[..|moves| - 1]), moves[|moves| - 1]), moves[|moves| - 1].step))
  }

  /** What `y` acted on, then what is in the channel, then what `x` has queued is what
      `x` accepted; once `x` failed its queue is gone and a prefix is left. */
  predicate Channel(x: Session, y: Session, wire: seq<Frame>) {
    if x.failure.None? then y.dispatched + wire + FramesOf(x.frames) == x.accepted
    else y.dispatched + wire <= x.accepted
  }

  /** Nothing reaches the peer of a session that has not queued HELLO. */
  predicate Unheard(x: Session, y: Session, wire: seq<Frame>) { !Spoke(x) ==> y.dispatched == wire == [] }

  ghost predicate NetValid(n: Net) {
    && SessionOk(n.near) && SessionOk(n.far)
    && n.near.role != n.far.role
    && Channel(n.near, n.far, n.outgoing) && Unheard(n.near, n.far, n.outgoing)
    && Channel(n.far, n.near, n.incoming) && Unheard(n.far, n.near, n.incoming)
  }

  // ---- A legal frame is never rejected ----

  lemma {:induction false} LastRequestPrefix(log: seq<Frame>, n: nat, role: Role)
    requires n <= |log| && Legal(log, role)
    ensures LastRequest(log[..n]) <= LastRequest(log)
  {
    if n == |log| {
      assert log[..n] == log;
    } else {
      var front := log[..|log| - 1];
      assert forall k :: 0 <= k < |front| ==> front[..k] == log[..k];
      LastRequestPrefix(front, n, role);
      assert front[..n] == log[..n];
      assert LegalFrame(front, log[|log| - 1], role);
    }
  }

  /** The heart of the protocol: a frame the sender may queue is one the receiver acts on. */
  lemma LegalAccepted(y: Session, f: Frame, role: Role)
    requires Valid(y) && role != y.role && LegalFrame(y.dispatched, f, role)
    requires (f.kind.Response? || f.kind.Payload?) && OwnID(y.role, f.id) ==> f.id < y.nextID
    ensures Dispatch(y, f).1 != Reject(EPROTO)
  {
  }

  /** The next frame of the channel is legal after the ones already acted on. */
  lemma NextIsLegal(x: Session, y: Session, wire: seq<Frame>)
    requires Valid(x) && Channel(x, y, wire) && wire != []
    ensures LegalFrame(y.dispatched, wire[0], x.role) && wire[0] in x.accepted
  {
    var k := |y.dispatched|;
    assert y.dispatched + wire <= x.accepted;
    assert x.accepted[k] == wire[0];
    assert x.accepted[..k] == y.dispatched;
  }

  /** Whatever `x` carries on a stream `y` opened, `y` had opened before. */
  lemma AnswersAreSolicited(x: Session, y: Session, wire: seq<Frame>, back: seq<Frame>)
    requires SessionOk(x) && SessionOk(y) && Spoke(x) && x.role != y.role
    requires Channel(x, y, wire) && Channel(y, x, back) && Unheard(y, x, back) && wire != []
    ensures var f := wire[0]; (f.kind.Response? || f.kind.Payload?) && OwnID(y.role, f.id) ==> f.id < y.nextID
  {
    NextIsLegal(x, y, wire);
    if Spoke(y) {
      assert x.dispatched + back <= y.accepted;
      assert x.dispatched == y.accepted[..|x.dispatched|];
      LastRequestPrefix(y.accepted, |x.dispatched|, y.role);
    }
  }

  lemma NearReadAccepts(n: Net)
    requires NetValid(n) && n.incoming != []
    ensures Dispatch(n.near, n.incoming[0]).1 != Reject(EPROTO) && n.incoming[0].WellFormed()
  {
    NextIsLegal(n.far, n.near, n.incoming);
    AnswersAreSolicited(n.far, n.near, n.incoming, n.outgoing);
    HeardDispatch(n.near, n.incoming[0]);
    LegalAccepted(Heard(n.near), n.incoming[0], n.far.role);
  }

  // ---- Every step keeps the network in order ----

  lemma ChannelSends(x: Session, x': Session, y: Session, wire: seq<Frame>)
    requires Channel(x, y, wire) && Queues(x, x')
    ensures Channel(x', y, wire)
  {
    if x'.failure.None? {
      Associative(y.dispatched + wire, FramesOf(x.frames), x'.accepted[|x.accepted|..]);
      assert x'.accepted == x.accepted + x'.accepted[|x.accepted|..];
    }
  }

  lemma NearLocalValid(n: Net, step: Step)
    requires NetValid(n) && Timely(n.near, step) && !step.Transmit? && !step.Read?
    ensures NetValid(NearStep(n, step))
  {
    LocalOk(n.near, step);
    LocalQueues(n.near, step);
    ChannelSends(n.near, Local(n.near, step), n.far, n.outgoing);
  }

  /** The channel takes over the frame the queue gives up. */
  lemma ChannelMoves(x: Session, x': Session, y: Session, wire: seq<Frame>, f: Frame)
    requires Channel(x, y, wire) && x.failure.None? && x'.failure.None? && x'.accepted == x.accepted
    requires FramesOf(x.frames) == [f] + FramesOf(x'.frames)
    ensures Channel(x', y, wire + [f])
  {
    Associative(y.dispatched, wire, [f]);
    Associative(y.dispatched + wire, [f], FramesOf(x'.frames));
  }

  lemma NearTransmitValid(n: Net)
    requires NetValid(n)
    ensures NetValid(NearStep(n, Transmit))
  {
    PumpedOk(n.near);
    var (s, f) := Pump(n.near);
    if f.Some? { ChannelMoves(n.near, s, n.far, n.outgoing, f.value); }
  }

  lemma ChannelReads(x: Session, y: Session, y': Session, wire: seq<Frame>)
    requires Channel(x, y, wire) && wire != [] && y'.dispatched == y.dispatched + [wire[0]]
    ensures Channel(x, y', wire[1..])
  {
    assert (y.dispatched + [wire[0]]) + wire[1..] == y.dispatched + wire;
  }

  lemma NearReadValid(n: Net)
    requires NetValid(n)
    ensures NetValid(NearStep(n, Step.Read))
  {
    if n.incoming != [] && Reading(n.near) {
      var f := n.incoming[0];
      NearReadAccepts(n);
      ActOk(n.near, f);
      ActQueues(n.near, f);
      ChannelSends(n.near, Act(n.near, f), n.far, n.outgoing);
      ChannelReads(n.far, n.near, Act(n.near, f), n.incoming);
    }
  }

  lemma NearValid(n: Net, step: Step)
    requires NetValid(n) && Timely(n.near, step)
    ensures NetValid(NearStep(n, step))
  {
    match step
    case Transmit => NearTransmitValid(n);
    case Read => NearReadValid(n);
    case _ => NearLocalValid(n, step);
  }

  lemma TakeValid(n: Net, m: Move)
    requires NetValid(n) && Timely(Side(n, m), m.step)
    ensures NetValid(Take(n, m))
  {
    if m.far { NearValid(n.Flip(), m.step); } else { NearValid(n, m.step); }
  }

  lemma {:induction false} RunValid(n: Net, moves: seq<Move>)
    requires Initial(n) && Polite(n, moves)
    ensures NetValid(Run(n, moves))
  {
    if moves == [] {
      FreshOk(n.near.role, n.near.serves);
      FreshOk(n.far.role, n.far.serves);
    } else {
      RunValid(n, moves[..|moves| - 1]);
      TakeValid(Run(n, moves[..|moves| - 1]), moves[|moves| - 1]);
    }
  }

  // ---- The results ----

  /** Whatever the two sides do and in whatever order their threads run, from the moment the
      sessions are made: as long as nothing is asked for before HELLO is queued, neither ever
      answers a frame of the other with EPROTO. */
  lemma NoProtocolError(n: Net, moves: seq<Move>)
    requires Initial(n) && Polite(n, moves)
    ensures var m := Run(n, moves);
            && (m.incoming != [] ==> m.incoming[0].WellFormed() && Dispatch(m.near, m.incoming[0]).1 != Reject(EPROTO))
            && (m.outgoing != [] ==> m.outgoing[0].WellFormed() && Dispatch(m.far, m.outgoing[0]).1 != Reject(EPROTO))
  {
    RunValid(n, moves);
    var m := Run(n, moves);
    if m.incoming != [] { NearReadAccepts(m); }
    if m.outgoing != [] { NearReadAccepts(m.Flip()); }
  }

  /** A session that lives and writes nothing has a pump to come for what it queued, and that
      pump writes the oldest frame. */
  predicate Pumped(s: Session) {
    s.failure.None? && s.writing.None? && s.frames != [] ==> s.pumps > 0 && Pump(s).1 == Some(s.frames[0].frame)
  }

  /** No queued frame is forgotten: in every reachable state a frame is being written or a pump
      is still to come, on both sides. */
  lemma NoFrameForgotten(n: Net, moves: seq<Move>)
    requires Initial(n) && Polite(n, moves)
    ensures Pumped(Run(n, moves).near) && Pumped(Run(n, moves).far)
  {
    RunValid(n, moves);
  }
}
