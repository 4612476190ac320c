/** Giving a stream up: which CANCEL frames a session owes its peer, that they reach it, and
    that the peer's stream is given up by them for good. */
module SessionCancels {
  import opened Bytes
  import opened Wrappers
  import opened FileFrames
  import opened SessionState
  import opened SessionInvariant
  import opened SessionSteps
  import opened SessionGreeting
  import opened SessionNetwork
  import opened SessionCalls

  /** A caller gives up a stream that both sides have not finished, on a session that lives. */
  predicate GivesUp(s: Session, step: Step) {
    && step.Abort? && s.failure.None? && step.id in s.streams
    && var st := s.streams[step.id]; !st.cancelled && !(st.localEnded && st.remoteEnded)
  }

  function CancelledIn(log: seq<Frame>): set<nat> { set f <- log | f.kind.Cancel? :: f.id }

  /** The streams of which the peer is told, or will be. */
  function Due(s: Session): set<nat> { s.owed + CancelledIn(s.accepted) }

  lemma CancelledSnoc(log: seq<Frame>, f: Frame)
    ensures CancelledIn(log + [f]) == CancelledIn(log) + if f.kind.Cancel? then {f.id} else {}
  {
    assert forall g :: g in log + [f] <==> g in log || g == f;
  }

  /** A section makes exactly what it gives up due; a failed session may forget some. */
  predicate MakesDue(s: Session, t: Session, given: set<nat>) {
    && Due(t) <= Due(s) + given
    && (t.failure.None? ==> s.failure.None? && Due(t) == Due(s) + given)
  }

  function GivenUpBy(s: Session, step: Step): set<nat> { if GivesUp(s, step) then {step.id} else {} }

  lemma SpeakDue(s: Session, step: Step)
    requires step.Open? || step.Announce? || step.Answer? || step.Stream?
    ensures MakesDue(s, Local(s, step), {})
  {
    var t := Local(s, step);
    LocalSpeaks(s, step);
    if t.accepted != s.accepted { CancelledSnoc(s.accepted, Last(t.accepted)); }
  }

  predicate Speaks(s: Session, t: Session) {
    && t.owed == s.owed && t.failure == s.failure
    && (t.accepted == s.accepted
        || (|t.accepted| == |s.accepted| + 1 && t.accepted == s.accepted + [Last(t.accepted)] && !Last(t.accepted).kind.Cancel?))
  }

  lemma CallSpeaks(s: Session, step: Step)
    requires step.Open? || step.Announce?
    ensures Speaks(s, Local(s, step))
  {
  }

  lemma AnswerSpeaks(s: Session, step: Step)
    requires step.Answer?
    ensures Speaks(s, Local(s, step))
  {
  }

  lemma PieceSpeaks(s: Session, step: Step)
    requires step.Stream?
    ensures Speaks(s, Local(s, step))
  {
  }

  lemma LocalSpeaks(s: Session, step: Step)
    requires step.Open? || step.Announce? || step.Answer? || step.Stream?
    ensures Speaks(s, Local(s, step))
  {
    match step
    case Answer(_, _, _, _) => AnswerSpeaks(s, step);
    case Stream(_, _, _) => PieceSpeaks(s, step);
    case _ => CallSpeaks(s, step);
  }

  lemma LocalDue(s: Session, step: Step)
    ensures MakesDue(s, Local(s, step), GivenUpBy(s, step))
  {
    if step.Open? || step.Announce? || step.Answer? || step.Stream? {
      SpeakDue(s, step);
    } else {
      QuietDue(s, step);
    }
  }

  lemma QuietDue(s: Session, step: Step)
    requires !step.Open? && !step.Announce? && !step.Answer? && !step.Stream?
    ensures MakesDue(s, Local(s, step), GivenUpBy(s, step))
  {
    CancelledSnoc(s.accepted, QuietFrame(s, step));
    if step.Abort? { AbortDue(s, step); }
  }

  lemma AbortDue(s: Session, step: Step)
    requires step.Abort?
    ensures MakesDue(s, Local(s, step), GivenUpBy(s, step))
  {
  }

  /** The request refused by reading a frame. */
  function RefusedBy(s: Session, f: Frame): set<nat> {
    if f.kind.Request? && s.dispatched != [] && !HasRoom(s) && PeerID(s.role, f.id) then {f.id} else {}
  }

  lemma ActDue(s: Session, f: Frame)
    requires Dispatch(s, f).1 != Reject(EPROTO)
    ensures MakesDue(s, Act(s, f), RefusedBy(s, f))
  {
    CancelledSnoc(s.accepted, Frame(Cancel, false, f.id, []));
    if f.kind.Request? { RequestDue(s, f); } else { ActQuiet(s, f); }
  }

  lemma RequestDue(s: Session, f: Frame)
    requires f.kind.Request? && Dispatch(s, f).1 != Reject(EPROTO)
    ensures MakesDue(s, Act(s, f), RefusedBy(s, f))
  {
    CancelledSnoc(s.accepted, Frame(Cancel, false, f.id, []));
  }

  lemma ActQuiet(s: Session, f: Frame)
    requires !f.kind.Request?
    ensures var t := Act(s, f); t.owed == s.owed && t.accepted == s.accepted && (t.failure.None? ==> s.failure.None?)
  {
    ActRefuses(s, f);
    DispatchFlags(s, f);
    ActOwes(s, f);
  }

  lemma ResponseOwes(s: Session, f: Frame)
    ensures DispatchResponse(s, f).0.owed == s.owed
  {
  }

  lemma PayloadOwes(s: Session, f: Frame)
    ensures DispatchPayload(s, f).0.owed == s.owed
  {
  }

  lemma ActOwes(s: Session, f: Frame)
    requires !f.kind.Request?
    ensures Act(s, f).owed == s.owed
  {
    if s.dispatched != [] {
      match f.kind
      case Response => ResponseOwes(s, f);
      case Payload => PayloadOwes(s, f);
      case _ =>
    }
  }

  // ---- Over runs: what was given up is what the peer is told ----

  /** The stream a move gives up, by a caller or by refusing a request. */
  function MoveGives(n: Net, m: Move): set<nat> {
    if m.step.Read? then (if ReadNow(n, m) == [] then {} else RefusedBy(On(n, m.far), ReadNow(n, m)[0]))
    else GivenUpBy(On(n, m.far), m.step)
  }

  function GivenUp(n: Net, moves: seq<Move>, far: bool): set<nat> {
    if moves == [] then {}
    else
      var front, m := moves[..|moves| - 1], moves[|moves| - 1];
      GivenUp(n, front, far) + if m.far == far then MoveGives(Run(n, front), m) else {}
  }

  lemma MoveDue(n: Net, m: Move)
    requires ReadsSafely(n, m)
    ensures MakesDue(On(n, m.far), On(Take(n, m), m.far), MoveGives(n, m))
  {
    if m.step.Read? {
      if ReadNow(n, m) != [] { ActDue(On(n, m.far), ReadNow(n, m)[0]); }
    } else {
      LocalDue(On(n, m.far), m.step);
    }
  }

  /** The streams of which the peer is told are those given up, unless the session failed. */
  lemma {:induction false} DueExactly(n: Net, moves: seq<Move>, far: bool)
    requires Initial(n) && Polite(n, moves)
    ensures var s := On(Run(n, moves), far);
            Due(s) <= GivenUp(n, moves, far) && (s.failure.None? ==> Due(s) == GivenUp(n, moves, far))
  {
    if moves != [] {
      var front, m := moves[..|moves| - 1], moves[|moves| - 1];
      DueExactly(n, front, far);
      RunReadsSafely(n, front, m);
      MoveDue(Run(n, front), m);
      OtherStands(Run(n, front), m);
    }
  }

  lemma {:induction false} CancelFrames(log: seq<Frame>, role: Role, id: nat)
    requires Legal(log, role)
    ensures id in CancelledIn(log) <==> Frame(Cancel, false, id, []) in log
  {
    if f :| f in log && f.kind.Cancel? && f.id == id {
      var k :| 0 <= k < |log| && log[k] == f;
      assert LegalFrame(log[..k], log[k], role);
    }
  }

  /** A session that lives has queued or owes a CANCEL exactly for the streams its callers gave
      up before both sides had finished them and for the requests it refused; a CANCEL that was
      queued is waiting, in the channel, or was acted on by the peer. */
  lemma CancelReaches(n: Net, moves: seq<Move>, far: bool, id: nat)
    requires Initial(n) && Polite(n, moves)
    ensures var m := Run(n, moves);
            var x, f := On(m, far), Frame(Cancel, false, id, []);
            x.failure.None? ==>
              (id in GivenUp(n, moves, far)
               <==> id in x.owed || f in On(m, !far).dispatched + Wire(m, far) + FramesOf(x.frames))
  {
    DueExactly(n, moves, far);
    RunLegal(n, moves, far);
    RunChannel(n, moves, far);
    var x := On(Run(n, moves), far);
    if x.failure.None? { CancelFrames(x.accepted, x.role, id); }
  }

  lemma RunLegal(n: Net, moves: seq<Move>, far: bool)
    requires Initial(n) && Polite(n, moves)
    ensures var x := On(Run(n, moves), far); x.failure.None? ==> Legal(x.accepted, x.role)
  {
    RunValid(n, moves);
    var x := On(Run(n, moves), far);
    if x.failure.None? { LiveIsLegal(x); }
  }

  lemma LiveIsLegal(x: Session)
    requires SessionOk(x) && x.failure.None?
    ensures Legal(x.accepted, x.role)
  {
  }

  // ---- The peer gives the stream up for good ----

  /** A stream the session was told of, or opened. */
  predicate Known(s: Session, id: nat) { KnownID(s.role, id, s.nextID, s.lastPeerID) }

  predicate GivenUpHere(s: Session, id: nat) { Known(s, id) && (id !in s.streams || s.streams[id].cancelled) }

  lemma StaysGivenUp(s: Session, step: Step, id: nat)
    requires GivenUpHere(s, id) && (step.Open? ==> OwnID(s.role, s.nextID))
    ensures GivenUpHere(Local(s, step), id)
  {
    match step
    case Open(_, _, _) => OpenKeepsGivenUp(s, step, id);
    case Answer(_, _, _, _) => AnswerKeepsGivenUp(s, step, id);
    case Stream(_, _, _) => PieceKeepsGivenUp(s, step, id);
    case _ => QuietKeepsGivenUp(s, step, id);
  }

  lemma OpenKeepsGivenUp(s: Session, step: Step, id: nat)
    requires step.Open? && GivenUpHere(s, id) && OwnID(s.role, s.nextID)
    ensures GivenUpHere(Local(s, step), id)
  {
  }

  lemma AnswerKeepsGivenUp(s: Session, step: Step, id: nat)
    requires step.Answer? && GivenUpHere(s, id)
    ensures GivenUpHere(Local(s, step), id)
  {
  }

  lemma PieceKeepsGivenUp(s: Session, step: Step, id: nat)
    requires step.Stream? && GivenUpHere(s, id)
    ensures GivenUpHere(Local(s, step), id)
  {
  }

  lemma QuietKeepsGivenUp(s: Session, step: Step, id: nat)
    requires !step.Open? && !step.Answer? && !step.Stream? && GivenUpHere(s, id)
    ensures GivenUpHere(Local(s, step), id)
  {
  }

  lemma RequestKeepsGivenUp(s: Session, f: Frame, id: nat)
    requires GivenUpHere(s, id)
    ensures GivenUpHere(DispatchRequest(s, f).0, id)
  {
  }

  lemma ResponseKeepsGivenUp(s: Session, f: Frame, id: nat)
    requires GivenUpHere(s, id)
    ensures GivenUpHere(DispatchResponse(s, f).0, id)
  {
  }

  lemma PayloadKeepsGivenUp(s: Session, f: Frame, id: nat)
    requires GivenUpHere(s, id)
    ensures GivenUpHere(DispatchPayload(s, f).0, id)
  {
  }

  lemma DispatchKeepsGivenUp(s: Session, f: Frame, id: nat)
    requires GivenUpHere(s, id)
    ensures GivenUpHere(Dispatch(s, f).0, id)
  {
    if s.dispatched != [] {
      match f.kind
      case Request => RequestKeepsGivenUp(s, f, id);
      case Response => ResponseKeepsGivenUp(s, f, id);
      case Payload => PayloadKeepsGivenUp(s, f, id);
      case _ =>
    }
  }

  lemma FailKeepsGivenUp(s: Session, error: Errno, id: nat)
    requires GivenUpHere(s, id)
    ensures GivenUpHere(Fail(s, error), id)
  {
  }

  lemma ActKeepsGivenUp(s: Session, f: Frame, id: nat)
    requires GivenUpHere(s, id)
    ensures GivenUpHere(Act(s, f), id)
  {
    DispatchKeepsGivenUp(s, f, id);
    var (t, verdict) := Dispatch(s, f);
    if verdict.Reject? { FailKeepsGivenUp(t, verdict.error, id); }
  }

  lemma CancelGivesUp(s: Session, f: Frame)
    requires s.dispatched != [] && f.kind.Cancel? && Dispatch(s, f).1 != Reject(EPROTO) && Known(s, f.id)
    ensures GivenUpHere(Act(s, f), f.id)
  {
  }

  /** A stream a side may tell its peer of: one the peer opened, or one it has asked for before. */
  predicate Tellable(role: Role, lastPeerID: nat, before: seq<Frame>, id: nat) {
    if PeerID(role, id) then id <= lastPeerID else 0 < id <= LastRequest(before)
  }

  ghost predicate TellsKnown(s: Session) {
    && (forall id <- s.owed :: Tellable(s.role, s.lastPeerID, s.accepted, id))
    && (forall k :: 0 <= k < |s.accepted| && s.accepted[k].kind.Cancel? ==>
          Tellable(s.role, s.lastPeerID, s.accepted[..k], s.accepted[k].id))
  }

  lemma TellsMore(s: Session, t: Session, f: Frame)
    requires TellsKnown(s) && t.role == s.role && t.lastPeerID >= s.lastPeerID && t.owed <= s.owed
    requires t.accepted == s.accepted || t.accepted == s.accepted + [f]
    requires t.accepted != s.accepted && f.kind.Request? ==> f.id > LastRequest(s.accepted)
    requires t.accepted != s.accepted && f.kind.Cancel? ==> Tellable(t.role, t.lastPeerID, s.accepted, f.id)
    ensures TellsKnown(t)
  {
    Snoc(s.accepted, f, 0);
    forall k | 0 <= k < |t.accepted| && t.accepted[k].kind.Cancel?
      ensures Tellable(t.role, t.lastPeerID, t.accepted[..k], t.accepted[k].id)
    {
      if k < |s.accepted| { assert t.accepted[..k] == s.accepted[..k]; } else { assert t.accepted[..k] == s.accepted; }
    }
  }

  lemma LiveNumbers(s: Session)
    requires SessionOk(s) && Spoke(s)
    ensures LastRequest(s.accepted) < s.nextID && OwnID(s.role, s.nextID)
    ensures s.lastPeerID == LastRequest(s.dispatched)
    ensures forall id <- s.streams :: Tellable(s.role, s.lastPeerID, s.accepted, id)
  {
    forall id <- s.streams ensures Tellable(s.role, s.lastPeerID, s.accepted, id) { assert StreamOk(s, id, s.streams[id]); }
  }

  lemma OpenTells(s: Session, step: Step)
    requires step.Open? && SessionOk(s) && Timely(s, step) && TellsKnown(s)
    ensures TellsKnown(Local(s, step))
  {
    if SendRequest(s, step.opcode, step.body, step.end).1.Ok? {
      LiveNumbers(s);
      TellsMore(s, Local(s, step), Frame(Request, step.end, s.nextID, Opcode(step.opcode) + step.body));
    }
  }

  lemma AbortTells(s: Session, step: Step)
    requires step.Abort? && SessionOk(s) && TellsKnown(s)
    ensures TellsKnown(Local(s, step))
  {
    if GivesUp(s, step) { LiveNumbers(s); }
  }

  lemma LocalTells(s: Session, step: Step)
    requires SessionOk(s) && Timely(s, step) && TellsKnown(s)
    ensures TellsKnown(Local(s, step))
  {
    if step.Open? {
      OpenTells(s, step);
    } else if step.Abort? {
      AbortTells(s, step);
    } else if step.Announce? || step.Answer? || step.Stream? {
      LocalSpeaks(s, step);
      SpeaksNoRequest(s, step);
      TellsMore(s, Local(s, step), if Local(s, step).accepted == s.accepted then HelloFrame(s.role) else Last(Local(s, step).accepted));
    } else {
      QuietQueues(s, step);
      QuietTells(s, step);
    }
  }

  lemma SpeaksNoRequest(s: Session, step: Step)
    requires step.Announce? || step.Answer? || step.Stream?
    ensures var t := Local(s, step);
            t.role == s.role && t.lastPeerID == s.lastPeerID && (t.accepted != s.accepted ==> !Last(t.accepted).kind.Request?)
  {
    match step
    case Answer(_, _, _, _) => AnswerNoRequest(s, step);
    case _ =>
  }

  lemma AnswerNoRequest(s: Session, step: Step)
    requires step.Answer?
    ensures var t := Local(s, step);
            t.role == s.role && t.lastPeerID == s.lastPeerID && (t.accepted != s.accepted ==> !Last(t.accepted).kind.Request?)
  {
  }

  lemma QuietTells(s: Session, step: Step)
    requires !step.Open? && !step.Abort? && !step.Announce? && !step.Answer? && !step.Stream? && TellsKnown(s)
    ensures TellsKnown(Local(s, step))
  {
    QuietQueues(s, step);
    TellsMore(s, Local(s, step), QuietFrame(s, step));
  }

  lemma ActTells(s: Session, f: Frame)
    requires TellsKnown(s) && Dispatch(s, f).1 != Reject(EPROTO)
    ensures TellsKnown(Act(s, f))
  {
    ActRefuses(s, f);
    ActNumbers(s, f);
    TellsMore(s, Act(s, f), Frame(Cancel, false, f.id, []));
  }

  lemma ActNumbers(s: Session, f: Frame)
    requires Dispatch(s, f).1 != Reject(EPROTO)
    ensures var t := Act(s, f);
            && t.owed == s.owed && t.role == s.role && t.lastPeerID >= s.lastPeerID
            && (s.dispatched != [] && f.kind.Request? ==> t.lastPeerID == f.id)
  {
    if f.kind.Request? {
      RequestNumbers(s, f);
    } else {
      ActOwes(s, f);
      ActKeepsNumbers(s, f);
    }
  }

  lemma RequestNumbers(s: Session, f: Frame)
    requires f.kind.Request? && Dispatch(s, f).1 != Reject(EPROTO)
    ensures var t := Act(s, f);
            && t.owed == s.owed && t.role == s.role && t.lastPeerID >= s.lastPeerID
            && (s.dispatched != [] ==> t.lastPeerID == f.id)
  {
  }

  lemma ResponseKeepsNumbers(s: Session, f: Frame)
    ensures DispatchResponse(s, f).0.lastPeerID == s.lastPeerID && DispatchResponse(s, f).0.role == s.role
  {
  }

  lemma PayloadKeepsNumbers(s: Session, f: Frame)
    ensures DispatchPayload(s, f).0.lastPeerID == s.lastPeerID && DispatchPayload(s, f).0.role == s.role
  {
  }

  lemma ActKeepsNumbers(s: Session, f: Frame)
    requires !f.kind.Request?
    ensures Act(s, f).lastPeerID == s.lastPeerID && Act(s, f).role == s.role
  {
    if s.dispatched != [] {
      match f.kind
      case Response => ResponseKeepsNumbers(s, f);
      case Payload => PayloadKeepsNumbers(s, f);
      case _ =>
    }
  }

  lemma MoveTells(n: Net, m: Move)
    requires ReadsSafely(n, m) && SessionOk(On(n, m.far)) && Timely(On(n, m.far), m.step) && TellsKnown(On(n, m.far))
    ensures TellsKnown(On(Take(n, m), m.far))
  {
    if m.step.Read? {
      if ReadNow(n, m) != [] { ActTells(On(n, m.far), ReadNow(n, m)[0]); }
    } else {
      LocalTells(On(n, m.far), m.step);
    }
  }

  lemma {:induction false} RunTells(n: Net, moves: seq<Move>, far: bool)
    requires Initial(n) && Polite(n, moves)
    ensures TellsKnown(On(Run(n, moves), far))
  {
    if moves != [] {
      var front, m := moves[..|moves| - 1], moves[|moves| - 1];
      RunTells(n, front, far);
      RunReadsSafely(n, front, m);
      RunSessionOk(n, front, far);
      if m.far == far { MoveTells(Run(n, front), m); }
      OtherStands(Run(n, front), m);
    }
  }

  lemma RunSessionOk(n: Net, moves: seq<Move>, far: bool)
    requires Initial(n) && Polite(n, moves)
    ensures SessionOk(On(Run(n, moves), far))
  {
    RunValid(n, moves);
  }

  /** A CANCEL that arrives is about a stream this side knows. */
  lemma CancelIsKnown(x: Session, y: Session, wire: seq<Frame>, back: seq<Frame>)
    requires SessionOk(x) && SessionOk(y) && x.role != y.role && TellsKnown(x) && wire != [] && wire[0].kind.Cancel?
    requires Channel(x, y, wire) && Channel(y, x, back) && Unheard(x, y, wire) && Unheard(y, x, back)
    ensures Known(y, wire[0].id)
  {
    var k := |y.dispatched|;
    assert y.dispatched + wire <= x.accepted;
    assert x.accepted[k] == wire[0] && x.accepted[..k] == y.dispatched;
    LiveNumbers(x);
    NumberIsKnown(x, y, back, wire[0].id);
  }

  lemma NumberIsKnown(x: Session, y: Session, back: seq<Frame>, id: nat)
    requires SessionOk(y) && x.role != y.role && Channel(y, x, back) && Unheard(y, x, back)
    requires x.lastPeerID == LastRequest(x.dispatched) && y.lastPeerID == LastRequest(y.dispatched)
    requires Tellable(x.role, x.lastPeerID, y.dispatched, id)
    ensures Known(y, id)
  {
    if PeerID(x.role, id) {
      if x.dispatched != [] {
        LiveNumbers(y);
        assert x.dispatched + back <= y.accepted;
        assert x.dispatched == y.accepted[..|x.dispatched|];
        LastRequestPrefix(y.accepted, |x.dispatched|, y.role);
      }
    }
  }

  ghost predicate AllGivenUp(s: Session) { forall f <- s.dispatched | f.kind.Cancel? :: GivenUpHere(s, f.id) }

  lemma ReadGivesUp(s: Session, f: Frame)
    requires AllGivenUp(s) && Dispatch(s, f).1 != Reject(EPROTO) && (f.kind.Cancel? ==> Known(s, f.id))
    ensures AllGivenUp(Act(s, f))
  {
    ActQueues(s, f);
    forall g <- Act(s, f).dispatched | g.kind.Cancel? ensures GivenUpHere(Act(s, f), g.id) {
      if g in s.dispatched { ActKeepsGivenUp(s, f, g.id); } else { CancelGivesUp(s, f); }
    }
  }

  lemma LocalGivesUp(s: Session, step: Step)
    requires AllGivenUp(s) && (step.Open? && Local(s, step) != s ==> OwnID(s.role, s.nextID))
    ensures AllGivenUp(Local(s, step))
  {
    LocalQueues(s, step);
    if Local(s, step) != s {
      forall g <- s.dispatched | g.kind.Cancel? ensures GivenUpHere(Local(s, step), g.id) { StaysGivenUp(s, step, g.id); }
    }
  }

  lemma OpensOwn(s: Session, step: Step)
    requires SessionOk(s) && step.Open? && Timely(s, step) && Local(s, step) != s
    ensures OwnID(s.role, s.nextID)
  {
    LiveNumbers(s);
  }

  lemma PumpGivesUp(s: Session)
    requires AllGivenUp(s)
    ensures AllGivenUp(Pump(s).0)
  {
    forall g <- s.dispatched | g.kind.Cancel? ensures GivenUpHere(Pump(s).0, g.id) { assert GivenUpHere(s, g.id); }
  }

  /** A CANCEL in the channel is about a stream its reader knows. */
  predicate CancelsKnown(n: Net, m: Move) {
    ReadNow(n, m) != [] && ReadNow(n, m)[0].kind.Cancel? ==> Known(On(n, m.far), ReadNow(n, m)[0].id)
  }

  lemma RunCancelsKnown(n: Net, moves: seq<Move>, m: Move)
    requires Initial(n) && Polite(n, moves)
    ensures CancelsKnown(Run(n, moves), m)
  {
    RunValid(n, moves);
    RunTells(n, moves, !m.far);
    var s := Run(n, moves);
    if ReadNow(s, m) != [] && ReadNow(s, m)[0].kind.Cancel? {
      CancelIsKnown(On(s, !m.far), On(s, m.far), Wire(s, !m.far), Wire(s, m.far));
    }
  }

  lemma MoveGivesUp(n: Net, m: Move)
    requires AllGivenUp(On(n, m.far)) && ReadsSafely(n, m) && CancelsKnown(n, m)
    requires m.step.Open? && Local(On(n, m.far), m.step) != On(n, m.far) ==> OwnID(On(n, m.far).role, On(n, m.far).nextID)
    ensures AllGivenUp(On(Take(n, m), m.far))
  {
    var s := On(n, m.far);
    if m.step.Read? {
      if ReadNow(n, m) != [] { ReadGivesUp(s, ReadNow(n, m)[0]); }
    } else if m.step.Transmit? {
      PumpGivesUp(s);
    } else {
      LocalGivesUp(s, m.step);
    }
  }

  /** Whatever else happens: once a CANCEL was acted on, its stream is gone or cancelled, and
      stays so. */
  lemma {:induction false} CancelTakesEffect(n: Net, moves: seq<Move>, far: bool)
    requires Initial(n) && Polite(n, moves)
    ensures var y := On(Run(n, moves), far);
            forall f <- y.dispatched | f.kind.Cancel? :: f.id !in y.streams || y.streams[f.id].cancelled
    ensures AllGivenUp(On(Run(n, moves), far))
  {
    if moves != [] {
      var front, m := moves[..|moves| - 1], moves[|moves| - 1];
      CancelTakesEffect(n, front, far);
      RunReadsSafely(n, front, m);
      RunCancelsKnown(n, front, m);
      RunSessionOk(n, front, far);
      if m.far == far {
        if m.step.Open? && Local(On(Run(n, front), far), m.step) != On(Run(n, front), far) { OpensOwn(On(Run(n, front), far), m.step); }
        MoveGivesUp(Run(n, front), m);
      }
      OtherStands(Run(n, front), m);
    }
    GivenUpMeans(On(Run(n, moves), far));
  }

  lemma GivenUpMeans(y: Session)
    requires AllGivenUp(y)
    ensures forall f <- y.dispatched | f.kind.Cancel? :: f.id !in y.streams || y.streams[f.id].cancelled
  {
    forall f <- y.dispatched | f.kind.Cancel? ensures f.id !in y.streams || y.streams[f.id].cancelled { assert GivenUpHere(y, f.id); }
  }
}
