/** What each turn of a writer sends, and that nothing it took is lost on the way. */
module WriterTurns {
  import opened Bytes
  import opened Wrappers
  import opened WindowCommands
  import opened NotificationFeedback
  import opened WriterState
  import opened WriterRuns
  import BulkLane
  import RemoteWire
  import WireFormat

  // ---- What is accepted ----

  /** A command is refused exactly when 65536 of them wait; answers never are, and without a
      connection nothing is said or kept. */
  lemma SendExactly(w: Writer, c: Command)
    requires WriterOk(w)
    ensures var (v, full) := Send(w, c);
            && (full <==> w.connection.Some? && !Answers(c) && |Live(w)| >= MAXIMUM_PENDING_COMMANDS)
            && (w.connection.None? ==> v == w)
            && (w.connection.Some? ==>
                  Live(v) == if Answers(c) || full then Live(w) else Coalesce(Live(w), c))
            && v.tables == (if w.connection.Some? && Answers(c) then Answer(w.tables, c) else w.tables)
            && v.bulk == w.bulk && v.feedback == w.feedback
  {
    var v := Send(w, c).0;
    assert v.pending[0..] == v.pending;
  }

  /** Bytes of the file session are taken exactly by a connected remote writer and if they fit a
      record. */
  lemma FileBytesExactly(w: Writer, bytes: Data)
    ensures SendFileSession(w, bytes).1 <==> w.remote && w.connection.Some? && |bytes| + 4 <= WireFormat.MAX_PAYLOAD_SIZE
    ensures !SendFileSession(w, bytes).1 ==> SendFileSession(w, bytes).0 == w
  {
  }

  /** Credit and received bytes are taken exactly by a connected remote writer; credit only as far
      as bytes are in flight. */
  lemma AcknowledgeExactly(w: Writer, count: nat, received: bool, now: real)
    requires WriterOk(w)
    ensures var (v, corrupt) := AcknowledgeBytes(w, count, received, now);
            && (!corrupt <==> w.remote && w.connection.Some? && 0 < count && (received || count <= w.bulk.flow.bytes))
            && (corrupt ==> v == w)
            && (!corrupt ==>
                  v.bulk.received == w.bulk.received + (if received then count else 0)
                  && v.bulk.flow.bytes == w.bulk.flow.bytes - (if received then 0 else count))
  {
    RemoteWire.AcknowledgeValid(w.bulk.flow, count, now);
  }

  // ---- What one turn sends ----

  /** Releases that lie next to each other at the head of the queue, as many as there are up to
      256, go together. */
  lemma {:induction false} BatchEndIs(pending: seq<Command>, end: nat, limit: nat)
    requires end <= limit && end <= |pending|
    ensures var r := BatchEnd(pending, end, limit);
            && (forall k :: end <= k < r ==> pending[k].FrameReleased?)
            && (r < limit && r < |pending| ==> !pending[r].FrameReleased?)
    decreases |pending| - end
  {
    if end < limit && end < |pending| && pending[end].FrameReleased? { BatchEndIs(pending, end + 1, limit); }
  }

  lemma BatchIsReleases(w: Writer, index: nat)
    requires w.head <= index < |w.pending| && TakeNext(w, index).1.Batch?
    ensures var batch := TakeNext(w, index).1.commands;
            && 0 < |batch| <= BATCH && batch <= Live(w) && Live(TakeNext(w, index).0) == Live(w)[|batch|..]
            && (forall c <- batch :: c.FrameReleased?)
            && (|batch| < BATCH && |batch| < |Live(w)| ==> !Live(w)[|batch|].FrameReleased?)
  {
    var end := BatchEnd(w.pending, w.head + 1, w.head + BATCH);
    BatchEndIs(w.pending, w.head + 1, w.head + BATCH);
    TidyLive(w.(head := end));
    AllReleases(w.pending, w.head, end);
    SliceIsPrefix(w.pending, w.head, end);
  }

  lemma SliceIsPrefix(pending: seq<Command>, head: nat, end: nat)
    requires head <= end <= |pending|
    ensures pending[head..end] <= pending[head..] && pending[end..] == pending[head..][end - head..]
    ensures end < |pending| ==> pending[head..][end - head] == pending[end]
  {
    assert pending[head..][..end - head] == pending[head..end];
  }

  lemma AllReleases(pending: seq<Command>, head: nat, end: nat)
    requires head <= end <= |pending| && forall k :: head <= k < end ==> pending[k].FrameReleased?
    ensures forall c <- pending[head..end] :: c.FrameReleased?
  {
    forall c <- pending[head..end] ensures c.FrameReleased? {
      var k :| 0 <= k < end - head && pending[head..end][k] == c;
      assert pending[head + k] == c;
    }
  }

  /** The command that goes next: the oldest, or while a record is under way the oldest that is not
      selection data. */
  function NextCommand(w: Writer): (r: Option<nat>)
    requires w.head <= |w.pending|
    ensures r.Some? ==> r.value < |Live(w)|
  {
    FirstSendableIs(Live(w));
    if BulkLane.Load(w.bulk).record.None? then (if Live(w) == [] then None else Some(0)) else FirstSendable(Live(w))
  }

  lemma ChoiceIs(w: Writer)
    requires WriterOk(w)
    ensures var p := Prepared(w);
            && WriterOk(p) && p.head <= |p.pending| && Live(p) == Live(w)
            && p == w.(pending := p.pending, head := p.head, bulk := BulkLane.Load(w.bulk))
            && p.bulk.received == w.bulk.received
            && match NextCommand(w)
               case Some(k) => (w.bulk.received == 0 && w.feedback == [] ==> Choice(p) == Next(p.head + k))
               case None => !Choice(p).Next?
  {
    PreparedOk(w);
    FirstSendableIs(Live(w));
    if w.remote {
      assert Prepared(w).pending == Live(w) && Prepared(w).pending[0..] == Live(w);
    } else {
      assert BulkLane.Load(w.bulk) == BulkLane.EmptyLane;
    }
  }

  /** Received bytes are acknowledged before anything else is sent, all at once. */
  lemma CreditGoesFirst(w: Writer, now: real)
    requires WriterOk(w) && w.connection.Some? && w.bulk.received > 0
    ensures var (v, out) := Take(w, now, true);
            && out == Some(Payload(RemoteWire.Acknowledgement(w.bulk.received))) && v.bulk == BulkLane.Load(w.bulk).(received := 0)
            && Live(v) == Live(w) && v.feedback == w.feedback && v.tables == w.tables && v.connection == w.connection
  {
    ChoiceIs(w);
  }

  /** Then the reports, oldest first. */
  lemma ReportGoesNext(w: Writer, now: real)
    requires WriterOk(w) && w.connection.Some? && w.bulk.received == 0 && w.feedback != []
    ensures var (v, out) := Take(w, now, true);
            && out == Some(Payload(w.feedback[0])) && v.feedback == w.feedback[1..] && v.bulk == BulkLane.Load(w.bulk)
            && Live(v) == Live(w) && v.tables == w.tables && v.connection == w.connection
  {
    ChoiceIs(w);
  }

  /** Then the commands; only releases go several at a time. */
  lemma CommandGoesNext(w: Writer, now: real)
    requires WriterOk(w) && w.connection.Some? && w.bulk.received == 0 && w.feedback == [] && NextCommand(w).Some?
    ensures var (v, out) := Take(w, now, true);
            && v.bulk == BulkLane.Load(w.bulk) && v.tables == w.tables && v.feedback == [] && v.connection == w.connection
            && out.Some?
            && if w.path == Some(WindowCommands.Feedback) && Live(w)[0].FrameReleased? then out.value.Batch?
               else out.value == Single(Live(w)[NextCommand(w).value])
  {
    ChoiceIs(w);
    var p, k := Prepared(w), NextCommand(w).value;
    assert p.pending[p.head + k] == Live(p)[k] && p.pending[p.head] == Live(p)[0];
    if !w.remote { assert BulkLane.Load(w.bulk) == BulkLane.EmptyLane; }
    NextLeaves(p, p.head + k);
  }

  lemma NextLeaves(p: Writer, index: nat)
    requires p.head <= index < |p.pending| && (p.remote || index == p.head)
    ensures var (v, out) := TakeNext(p, index);
            && v.bulk == p.bulk && v.tables == p.tables && v.feedback == p.feedback && v.connection == p.connection
            && if p.path == Some(WindowCommands.Feedback) && p.pending[p.head].FrameReleased? then out.Batch?
               else out == Single(p.pending[index])
  {
  }

  /** Then the answers to notifications. */
  lemma AnswerGoesNext(w: Writer, now: real)
    requires WriterOk(w) && w.connection.Some? && w.bulk.received == 0 && w.feedback == [] && NextCommand(w).None?
    requires w.tables.order != []
    ensures var (v, out) := Take(w, now, true);
            && TakeAnswer(w.tables).Emits? && out == Some(Single(TakeAnswer(w.tables).command))
            && v.tables == TakeAnswer(w.tables).tables && v.bulk == BulkLane.Load(w.bulk) && Live(v) == Live(w)
            && v.feedback == [] && v.connection == w.connection
  {
    ChoiceIs(w);
    TakeAnswerOk(w.tables);
    assert w.tables.order[0] in w.tables.order;
  }

  /** A fragment of the record under way, as the window allows, only when nothing else waits. */
  lemma FragmentGoesLast(w: Writer, now: real)
    requires WriterOk(w) && w.connection.Some? && w.bulk.received == 0 && w.feedback == [] && NextCommand(w).None?
    requires w.tables.order == []
    ensures BulkLane.LaneOk(BulkLane.Load(w.bulk))
    ensures var (v, out) := Take(w, now, true);
            var (bulk, piece) := BulkLane.SendFragment(BulkLane.Load(w.bulk), now);
            && v.bulk == bulk && out == (if piece.Some? then Some(Piece(piece.value)) else None)
            && v.tables == w.tables && v.feedback == [] && Live(v) == Live(w) && v.connection == w.connection
  {
    ChoiceIs(w);
  }

  // ---- Handles ----

  /** A write that failed ends the connection it was for and no other; a large selection goes on
      to the bulk lane of the connection it was taken for and of no other. */
  lemma OnlyItsConnection(w: Writer, owner: nat, record: Data)
    ensures w.connection != Some(owner) ==> WriteFailed(w, owner) == w && Requeue(w, owner, record) == w
    ensures w.connection == Some(owner) ==>
              && WriteFailed(w, owner).connection.None? && WriteFailed(w, owner).bulk == w.bulk
              && Requeue(w, owner, record)
                 == w.(bulk := w.bulk.(queue := w.bulk.queue + [record], queueBytes := w.bulk.queueBytes + |record|))
  {
  }

  predicate Empty(w: Writer) { w.connection.None? ==> w.pending == [] && w.tables == NoTables }

  lemma TakeEmpty(w: Writer, now: real, descriptor: bool)
    requires WriterOk(w) && Empty(w)
    ensures Empty(Take(w, now, descriptor).0)
  {
    if w.connection.Some? {
      PreparedOk(w);
      TurnedKeeps(Prepared(w), now);
    }
  }

  lemma SendEmpty(w: Writer, c: Command)
    requires WriterOk(w) && Empty(w)
    ensures Empty(Send(w, c).0)
  {
    SendKeeps(w, c);
  }

  lemma AfterEmpty(r: Run, step: Step)
    requires WriterOk(r.w) && Empty(r.w)
    ensures Empty(WriterRuns.After(r, step).w)
  {
    match step
    case Takes(now, descriptor, _) => TakeEmpty(r.w, now, descriptor);
    case Sends(c) => SendEmpty(r.w, c);
    case _ =>
  }

  lemma {:induction false} RunEmpty(start: Run, steps: seq<Step>, end: Run)
    requires RunOk(start) && Reaches(start, steps, end) && Empty(start.w)
    ensures Empty(end.w)
    decreases |steps|
  {
    if steps != [] {
      WriterRuns.AfterOk(start, steps[0]);
      AfterEmpty(start, steps[0]);
      RunEmpty(WriterRuns.After(start, steps[0]), steps[1..], end);
    }
  }

  /** A writer without a connection holds no command and no answer for the next one. */
  lemma DisconnectedIsEmpty(path: Option<Path>, remote: bool, steps: seq<Step>, end: Run)
    requires Reaches(Start(path, remote), steps, end) && end.w.connection.None?
    ensures end.w.pending == [] && end.w.tables == NoTables
  {
    RunEmpty(Start(path, remote), steps, end);
  }

  // ---- Credit and reports over runs ----

  /** History since the connection was installed: the reports that were accepted and those sent,
      the bytes received and those acknowledged. */
  datatype Traffic = Traffic(reports: seq<Data>, sent: seq<Data>, received: nat, acknowledged: nat)

  const NoTraffic := Traffic([], [], 0, 0)

  predicate IsCredit(payload: Data) { |payload| == 8 && payload[..4] == RemoteWire.ACKNOWLEDGEMENT_MAGIC }

  function Written(t: Traffic, out: Option<Outbound>): Traffic {
    match out
    case Some(Payload(payload)) =>
      if IsCredit(payload) then t.(acknowledged := t.acknowledged + Decode32(payload, 4)) else t.(sent := t.sent + [payload])
    case _ => t
  }

  /** What one section adds to it, told from what was passed and what was written. */
  function Adds(r: Run, step: Step, t: Traffic): Traffic
    requires WriterOk(r.w)
  {
    match step
    case Installs => NoTraffic
    case Disconnects => NoTraffic
    case Presents(payload) =>
      if r.w.remote && r.w.connection.Some? && !WriterState.Present(r.w, payload).1 then t.(reports := t.reports + [payload]) else t
    case Acknowledges(count, true, now) =>
      if AcknowledgeBytes(r.w, count, true, now).1 then t else t.(received := t.received + count)
    case Takes(now, descriptor, _) => Written(t, Take(r.w, now, descriptor).1)
    case _ => t
  }

  /** Reports are not taken for credit. */
  predicate Plain(step: Step) { step.Presents? ==> !IsCredit(step.payload) }

  /** What was accepted and not sent yet is what waits. */
  predicate Accounts(w: Writer, t: Traffic) {
    w.connection.Some? ==> t.sent + w.feedback == t.reports && t.acknowledged + w.bulk.received == t.received
  }

  ghost predicate ReportsPlain(w: Writer) { forall payload <- w.feedback :: !IsCredit(payload) }

  lemma CreditIsCredit(count: nat)
    requires count <= UINT32_MAX
    ensures IsCredit(RemoteWire.Acknowledgement(count)) && Decode32(RemoteWire.Acknowledgement(count), 4) == count
  {
    RemoteWire.AcknowledgementCount(count);
    assert RemoteWire.Acknowledgement(count)[..4] == RemoteWire.ACKNOWLEDGEMENT_MAGIC;
  }

  lemma TakeConnection(w: Writer, now: real, descriptor: bool)
    requires WriterOk(w)
    ensures var (v, out) := Take(w, now, descriptor);
            if descriptor || w.connection.None? || Take(w, now, true).1.None? then (v, out) == Take(w, now, true)
            else out.None? && v.connection.None?
  {
  }

  /** What a turn takes from credit and reports is what it writes. */
  lemma TurnAccounts(w: Writer, now: real, t: Traffic)
    requires WriterOk(w) && w.connection.Some? && Accounts(w, t) && ReportsPlain(w)
    ensures var (v, out) := Take(w, now, true);
            Accounts(v, Written(t, out)) && ReportsPlain(v)
  {
    if w.bulk.received > 0 {
      CreditGoesFirst(w, now);
      CreditIsCredit(w.bulk.received);
      BulkLane.LoadKeeps(w.bulk);
    } else if w.feedback != [] {
      ReportGoesNext(w, now);
      assert w.feedback[0] in w.feedback && w.feedback == [w.feedback[0]] + w.feedback[1..];
      assert (t.sent + [w.feedback[0]]) + w.feedback[1..] == t.sent + w.feedback;
      BulkLane.LoadKeeps(w.bulk);
    } else {
      OthersAccount(w, now, t);
    }
  }

  lemma OthersAccount(w: Writer, now: real, t: Traffic)
    requires WriterOk(w) && w.connection.Some? && Accounts(w, t) && w.bulk.received == 0 && w.feedback == []
    ensures var (v, out) := Take(w, now, true);
            v.feedback == [] && v.bulk.received == 0 && Accounts(v, Written(t, out))
  {
    BulkLane.LoadKeeps(w.bulk);
    if NextCommand(w).Some? {
      CommandGoesNext(w, now);
    } else if w.tables.order != [] {
      AnswerGoesNext(w, now);
    } else {
      FragmentGoesLast(w, now);
      FragmentOk(BulkLane.Load(w.bulk), now);
    }
  }

  lemma SectionAccounts(r: Run, step: Step, t: Traffic)
    requires WriterOk(r.w) && Accounts(r.w, t) && ReportsPlain(r.w) && Plain(step) && !step.Takes?
    ensures Accounts(WriterRuns.After(r, step).w, Adds(r, step, t)) && ReportsPlain(WriterRuns.After(r, step).w)
  {
    match step
    case Sends(c) => SendExactly(r.w, c); SendKeeps(r.w, c);
    case Acknowledges(count, received, now) => AcknowledgeExactly(r.w, count, received, now);
    case Presents(payload) => assert t.sent + (r.w.feedback + [payload]) == (t.sent + r.w.feedback) + [payload];
    case _ =>
  }

  lemma StepAccounts(r: Run, step: Step, t: Traffic)
    requires WriterOk(r.w) && Accounts(r.w, t) && ReportsPlain(r.w) && Plain(step)
    ensures Accounts(WriterRuns.After(r, step).w, Adds(r, step, t)) && ReportsPlain(WriterRuns.After(r, step).w)
  {
    if step.Takes? {
      TakeConnection(r.w, step.now, step.descriptor);
      if r.w.connection.Some? { TurnAccounts(r.w, step.now, t); }
    } else {
      SectionAccounts(r, step, t);
    }
  }

  function TrafficOf(start: Run, steps: seq<Step>, t: Traffic): Traffic
    requires RunOk(start)
    decreases |steps|
  {
    if steps == [] || !Allowed(start, steps[0]) then t
    else
      WriterRuns.AfterOk(start, steps[0]);
      TrafficOf(WriterRuns.After(start, steps[0]), steps[1..], Adds(start, steps[0], t))
  }

  lemma {:induction false} RunAccounts(start: Run, steps: seq<Step>, end: Run, t: Traffic)
    requires RunOk(start) && Reaches(start, steps, end) && (forall step <- steps :: Plain(step))
    requires Accounts(start.w, t) && ReportsPlain(start.w)
    ensures Accounts(end.w, TrafficOf(start, steps, t))
    decreases |steps|
  {
    if steps != [] {
      WriterRuns.AfterOk(start, steps[0]);
      StepAccounts(start, steps[0], t);
      RunAccounts(WriterRuns.After(start, steps[0]), steps[1..], end, Adds(start, steps[0], t));
    }
  }

  /** Whatever the interleaving, since the connection was installed: the reports sent and those
      that wait are the reports that were accepted, in order, and the bytes acknowledged and
      those still to be acknowledged are the bytes received. */
  lemma NothingIsLost(path: Option<Path>, remote: bool, steps: seq<Step>, end: Run)
    requires Reaches(Start(path, remote), steps, end) && (forall step <- steps :: Plain(step)) && end.w.connection.Some?
    ensures var t := TrafficOf(Start(path, remote), steps, NoTraffic);
            t.sent + end.w.feedback == t.reports && t.acknowledged + end.w.bulk.received == t.received
  {
    RunAccounts(Start(path, remote), steps, end, NoTraffic);
  }
}
