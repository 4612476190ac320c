/** Whole runs of one connection's writer: what the guest sees of the commands sent, and
    that a writer never rests while something can go. */
module WriterRuns {
  import opened Bytes
  import opened Wrappers
  import opened WindowCommands
  import opened NotificationFeedback
  import opened WriterState
  import BulkLane
  import RemoteWire
  import WireFormat

  /** What the serial writer does between two turns: a record it puts on the bulk lane, or a
      write that failed, both for the connection it started with. */
  datatype Drain = Resting | Requeueing(owner: nat, record: Data) | Failing(owner: nat)

  /** `accepted` is every command the queue took since the installation and `taken` what left
      it, in order; handles are numbered as they are installed. */
  datatype Run = Run(w: Writer, accepted: seq<Command>, taken: seq<Command>, drain: Drain, handles: nat)

  datatype Step =
    | Installs
    | Disconnects
    | Sends(command: Command)
    | Sees(event: GuestEvent)
    | SendsFileBytes(bytes: Data)
    | Acknowledges(count: nat, received: bool, now: real)
    | Presents(payload: Data)
    | Takes(now: real, descriptor: bool, broken: bool)
    | Finishes

  /** A command keeps to its writer's path, and the bytes to acknowledge fit their field. */
  predicate Allowed(r: Run, step: Step) {
    match step
    case Sends(c) => r.w.path.None? || c.TransportLane() == r.w.path.value
    case Acknowledges(count, received, _) => received ==> r.w.bulk.received + count <= UINT32_MAX
    case Takes(_, _, _) => r.drain.Resting?
    case _ => true
  }

  function CommandsOf(out: Outbound): seq<Command> {
    match out
    case Single(c) => if Answers(c) then [] else [c]
    case Batch(cs) => cs
    case _ => []
  }

  function DrainAfter(w: Writer, out: Option<Outbound>, broken: bool, owner: nat): Drain {
    if out.None? then Resting
    else if broken then Failing(owner)
    else
      match out.value
      case Single(HostSelectionData(_, payload)) =>
        if w.remote && |payload| > RemoteWire.FRAGMENT_SIZE then
          var record := WireFormat.FrameOf(payload);
          if record.Ok? then Requeueing(owner, record.value) else Failing(owner)
        else Resting
      case _ => Resting
  }

  function Sent(r: Run, c: Command): Run
    requires r.w.head <= |r.w.pending|
  {
    var (w, full) := Send(r.w, c);
    r.(w := w, accepted := if r.w.connection.Some? && !Answers(c) && !full then r.accepted + [c] else r.accepted)
  }

  function Taken(r: Run, now: real, descriptor: bool, broken: bool): Run
    requires WriterOk(r.w)
  {
    var (w, out) := Take(r.w, now, descriptor);
    r.(w := w,
       taken := if out.Some? then r.taken + CommandsOf(out.value) else r.taken,
       drain := if r.w.connection.None? then Resting else DrainAfter(r.w, out, broken, r.w.connection.value))
  }

  function Finished(r: Run): Run {
    match r.drain
    case Resting => r
    case Requeueing(owner, record) => r.(w := Requeue(r.w, owner, record), drain := Resting)
    case Failing(owner) => r.(w := WriteFailed(r.w, owner), drain := Resting)
  }

  function After(r: Run, step: Step): Run
    requires WriterOk(r.w)
  {
    match step
    case Installs => Run(Install(r.w, Some(r.handles)), [], [], r.drain, r.handles + 1)
    case Disconnects => r.(w := Install(r.w, None))
    case Sends(c) => Sent(r, c)
    case Sees(event) => r.(w := SeeGuest(r.w, event))
    case SendsFileBytes(bytes) => r.(w := SendFileSession(r.w, bytes).0)
    case Acknowledges(count, received, now) => r.(w := AcknowledgeBytes(r.w, count, received, now).0)
    case Presents(payload) => r.(w := WriterState.Present(r.w, payload).0)
    case Takes(now, descriptor, broken) => Taken(r, now, descriptor, broken)
    case Finishes => Finished(r)
  }

  // ---- Selections and everything else ----

  function Only(commands: seq<Command>, selections: bool): seq<Command> {
    if commands == [] then []
    else
      var last := commands[|commands| - 1];
      Only(commands[..|commands| - 1], selections) + if last.HostSelectionData? == selections then [last] else []
  }

  /** On a remote connection selection data may fall behind, so it is followed separately. */
  function Plain(commands: seq<Command>, remote: bool): seq<Command> {
    if remote then Only(commands, false) else commands
  }

  lemma {:induction false} OnlyAppend(a: seq<Command>, b: seq<Command>, selections: bool)
    ensures Only(a + b, selections) == Only(a, selections) + Only(b, selections)
  {
    if b == [] {
      assert a + b == a;
    } else {
      OnlyAppend(a, b[..|b| - 1], selections);
      assert (a + b)[..|a + b| - 1] == a + b[..|b| - 1];
    }
  }

  lemma PlainAppend(a: seq<Command>, b: seq<Command>, remote: bool)
    ensures Plain(a + b, remote) == Plain(a, remote) + Plain(b, remote)
  {
    if remote { OnlyAppend(a, b, false); }
  }

  lemma {:induction false} OnlyOne(c: Command, selections: bool)
    ensures Only([c], selections) == if c.HostSelectionData? == selections then [c] else []
  {
    assert [c][..0] == [];
  }

  lemma {:induction false} OnlySelections(commands: seq<Command>)
    requires forall c <- commands :: c.HostSelectionData?
    ensures Only(commands, false) == [] && Only(commands, true) == commands
  {
    if commands != [] { OnlySelections(commands[..|commands| - 1]); }
  }

  // ---- What the guest sees ----

  /** Two command sequences the guest cannot tell apart. */
  ghost predicate Alike(a: seq<Command>, b: seq<Command>, remote: bool) {
    && MeaningOf(Plain(a, remote)) == MeaningOf(Plain(b, remote))
    && Only(a, true) == Only(b, true)
  }

  lemma PlainLast(commands: seq<Command>, c: Command, remote: bool)
    ensures MeaningOf(Plain(commands + [c], remote))
         == if remote && c.HostSelectionData? then MeaningOf(Plain(commands, remote))
            else Apply(MeaningOf(Plain(commands, remote)), c)
  {
    PlainAppend(commands, [c], remote);
    if remote { OnlyOne(c, false); }
    if remote && c.HostSelectionData? {
      assert Plain(commands, remote) + [] == Plain(commands, remote);
    } else {
      AppliedLast(Plain(commands, remote), c);
    }
  }

  lemma AlikeAppend(a: seq<Command>, b: seq<Command>, c: Command, remote: bool)
    requires Alike(a, b, remote)
    ensures Alike(a + [c], b + [c], remote)
  {
    PlainLast(a, c, remote);
    PlainLast(b, c, remote);
    OnlyAppend(a, [c], true);
    OnlyAppend(b, [c], true);
  }

  lemma AlikeMerged(s: seq<Command>, last: Command, c: Command, remote: bool)
    requires Merged(last, c).Some?
    ensures Alike(s + [Merged(last, c).value], s + [last] + [c], remote)
  {
    var merged := Merged(last, c).value;
    PlainLast(s, merged, remote);
    PlainLast(s, last, remote);
    PlainLast(s + [last], c, remote);
    MergedMeans(MeaningOf(Plain(s, remote)), last, c);
    SelectionsLast(s, merged);
    SelectionsLast(s, last);
    SelectionsLast(s + [last], c);
  }

  lemma SelectionsLast(s: seq<Command>, c: Command)
    ensures Only(s + [c], true) == Only(s, true) + if c.HostSelectionData? then [c] else []
  {
    OnlyAppend(s, [c], true);
    OnlyOne(c, true);
  }

  predicate Collapses(live: seq<Command>, c: Command) { live != [] && Merged(live[|live| - 1], c).Some? }

  lemma CoalesceEnds(taken: seq<Command>, live: seq<Command>, c: Command)
    ensures if Collapses(live, c) then
              var front, last := live[..|live| - 1], live[|live| - 1];
              taken + Coalesce(live, c) == taken + front + [Merged(last, c).value] && taken + live == taken + front + [last]
            else taken + Coalesce(live, c) == taken + live + [c]
  {
    if live != [] { assert live == live[..|live| - 1] + [live[|live| - 1]]; }
  }

  lemma CoalesceAlike(taken: seq<Command>, live: seq<Command>, accepted: seq<Command>, c: Command, remote: bool)
    requires Alike(taken + live, accepted, remote)
    ensures Alike(taken + Coalesce(live, c), accepted + [c], remote)
  {
    var a, b := taken + live, taken + Coalesce(live, c);
    AlikeAppend(a, accepted, c, remote);
    CoalesceEnds(taken, live, c);
    if Collapses(live, c) {
      AlikeMerged(taken + live[..|live| - 1], live[|live| - 1], c, remote);
      assert Alike(b, a + [c], remote);
    }
  }

  lemma OnlyFour(a: seq<Command>, b: seq<Command>, c: seq<Command>, d: seq<Command>, kind: bool)
    ensures Only(a + b + (c + d), kind) == Only(a, kind) + Only(b, kind) + Only(c, kind) + Only(d, kind)
  {
    OnlyAppend(a + b, c + d, kind);
    OnlyAppend(a, b, kind);
    OnlyAppend(c, d, kind);
  }

  lemma Regroup<T>(a: seq<T>, b: seq<T>, c: seq<T>, d: seq<T>)
    ensures a + b + (c + d) == a + (b + c + d)
  {
  }

  lemma SwapEmpty<T>(a: seq<T>, b: seq<T>, c: seq<T>, d: seq<T>)
    requires b == [] || c == []
    ensures a + b + c + d == a + c + b + d
  {
  }

  lemma OnlyPass(taken: seq<Command>, skipped: seq<Command>, c: Command, rest: seq<Command>, kind: bool)
    requires !c.HostSelectionData? && forall s <- skipped :: s.HostSelectionData?
    ensures Only(taken + [c] + (skipped + rest), kind) == Only(taken + (skipped + [c] + rest), kind)
  {
    OnlyFour(taken, [c], skipped, rest, kind);
    OnlyFour(taken, skipped, [c], rest, kind);
    Regroup(taken, skipped, [c], rest);
    OnlySelections(skipped);
    OnlyOne(c, kind);
    SwapEmpty(Only(taken, kind), Only([c], kind), Only(skipped, kind), Only(rest, kind));
  }

  /** Selections may be passed, but only by what is not one. */
  lemma PassAlike(taken: seq<Command>, live: seq<Command>, k: nat, remote: bool)
    requires k < |live|
    requires k == 0 || (remote && !live[k].HostSelectionData? && forall j :: 0 <= j < k ==> live[j].HostSelectionData?)
    ensures Alike(taken + [live[k]] + (live[..k] + live[k + 1..]), taken + live, remote)
  {
    var skipped, c, rest := live[..k], live[k], live[k + 1..];
    assert live == skipped + [c] + rest;
    if k == 0 {
      assert taken + [c] + (skipped + rest) == taken + live;
    } else {
      OnlyPass(taken, skipped, c, rest, true);
      OnlyPass(taken, skipped, c, rest, false);
    }
  }

  // ---- Every lock section keeps the writer sound ----

  lemma SendOk(w: Writer, c: Command)
    requires WriterOk(w)
    ensures WriterOk(Send(w, c).0)
  {
    var v := Compact(w);
    if w.connection.Some? {
      if Answers(c) {
        AnswerOk(w.tables, c);
      } else if |v.pending| < MAXIMUM_PENDING_COMMANDS {
        CoalesceOk(v.pending, c);
      }
    }
  }

  lemma CoalesceOk(pending: seq<Command>, c: Command)
    requires !Answers(c) && forall p <- pending :: !Answers(p)
    ensures Coalesce(pending, c) != [] && forall p <- Coalesce(pending, c) :: !Answers(p)
  {
  }

  lemma BulkOk(w: Writer, count: nat, received: bool, now: real)
    requires WriterOk(w) && (received ==> w.bulk.received + count <= UINT32_MAX)
    ensures WriterOk(AcknowledgeBytes(w, count, received, now).0)
  {
    RemoteWire.AcknowledgeValid(w.bulk.flow, count, now);
  }

  lemma EnqueueOk(w: Writer, record: Data)
    requires WriterOk(w) && w.remote && 0 < |record| <= UINT32_MAX
    ensures WriterOk(w.(bulk := BulkLane.Enqueue(w.bulk, record)))
  {
  }

  lemma FrameSize(payload: Data)
    requires WireFormat.FrameOf(payload).Ok?
    ensures 0 < |WireFormat.FrameOf(payload).value| <= UINT32_MAX
  {
  }

  lemma TakeNextOk(w: Writer, index: nat)
    requires WriterOk(w) && w.head <= index < |w.pending|
    ensures WriterOk(TakeNext(w, index).0)
  {
  }

  lemma FragmentOk(l: BulkLane.Lane, now: real)
    requires BulkLane.LaneOk(l)
    ensures var (l', p) := BulkLane.SendFragment(l, now);
            && BulkLane.LaneOk(l') && l'.received == l.received && (l.record.None? ==> l' == l)
  {
    if l.record.Some? {
      RemoteWire.AllowanceValid(l.flow, |l.record.value| - l.offset, now);
    }
  }

  lemma TurnedOk(w: Writer, now: real)
    requires WriterOk(w) && (Choice(w).Next? ==> w.head <= Choice(w).index < |w.pending|)
    ensures WriterOk(Turned(w, now).0)
  {
    match Choice(w)
    case Next(index) => TakeNextOk(w, index);
    case AnswerTurn => TakeAnswerOk(w.tables);
    case Fragment => FragmentOk(w.bulk, now);
    case Nothing => FragmentOk(w.bulk, now);
    case _ =>
  }

  lemma TakeOk(w: Writer, now: real, descriptor: bool)
    requires WriterOk(w)
    ensures WriterOk(Take(w, now, descriptor).0)
  {
    PreparedOk(w);
    if w.connection.Some? { TurnedOk(Prepared(w), now); }
  }

  // ---- A writer never rests while something can go ----

  predicate Idle(w: Writer)
    requires WriterOk(w)
  {
    PreparedOk(w);
    Choice(Prepared(w)).Nothing?
  }

  predicate Awake(w: Writer)
    requires WriterOk(w)
  {
    w.connection.Some? && !Idle(w) ==> w.scheduled
  }

  /** Resting and compaction change nothing a turn would look at. */
  lemma CompactIdle(w: Writer)
    requires WriterOk(w)
    ensures WriterOk(Compact(w)) && (Idle(Compact(w)) <==> Idle(w))
  {
    assert Compact(w).pending[0..] == Compact(w).pending;
    if !w.remote { assert BulkLane.Load(w.bulk) == BulkLane.EmptyLane; }
  }

  lemma SendAwake(w: Writer, c: Command)
    requires WriterOk(w) && Awake(w) && WriterOk(Send(w, c).0)
    ensures Awake(Send(w, c).0)
  {
    CompactIdle(w);
  }

  lemma IdleWithoutAnswers(w: Writer, tables: Tables)
    requires WriterOk(w) && TablesOk(tables) && tables.order == [] && Idle(w)
    ensures WriterOk(w.(tables := tables)) && Idle(w.(tables := tables))
  {
    assert Prepared(w.(tables := tables)) == Prepared(w).(tables := tables);
  }

  lemma NothingToAnswer(t: Tables, event: GuestEvent)
    requires TablesOk(t) && t.order == []
    ensures Observe(t, event).order == []
  {
  }

  lemma SeeAwake(w: Writer, event: GuestEvent)
    requires WriterOk(w) && Awake(w) && TablesOk(Observe(w.tables, event))
    ensures WriterOk(SeeGuest(w, event)) && Awake(SeeGuest(w, event))
  {
    if w.connection.Some? && Idle(w) {
      assert w.tables.order == [];
      NothingToAnswer(w.tables, event);
      IdleWithoutAnswers(w, Observe(w.tables, event));
    }
  }

  /** Looking for credit in vain only remembers that the window was full. */
  lemma TurnedRests(w: Writer, now: real)
    requires WriterOk(w) && Prepared(w) == w && Choice(w).Nothing? && WriterOk(Turned(w, now).0)
    ensures Idle(Turned(w, now).0)
  {
    var v := Turned(w, now).0;
    if w.remote { assert w.pending[0..] == w.pending; }
    assert Prepared(v) == v;
  }

  lemma PreparedTwice(w: Writer)
    requires WriterOk(w)
    ensures Prepared(Prepared(w)) == Prepared(w)
  {
    if w.remote { assert Compact(w).pending[0..] == Compact(w).pending; }
  }

  lemma TurnedKeeps(w: Writer, now: real)
    requires WriterOk(w) && (Choice(w).Next? ==> w.head <= Choice(w).index < |w.pending|)
    ensures var (v, out) := Turned(w, now);
            && v.connection == w.connection && v.remote == w.remote
            && (out.None? <==> Choice(w).Nothing?)
            && (out.Some? ==> v.scheduled == w.scheduled)
  {
    match Choice(w)
    case Next(index) => NextKeeps(w, index);
    case _ =>
  }

  lemma NextKeeps(w: Writer, index: nat)
    requires w.head <= index < |w.pending|
    ensures var v := TakeNext(w, index).0; v.connection == w.connection && v.remote == w.remote && v.scheduled == w.scheduled
  {
  }

  lemma TakeAwake(w: Writer, now: real, descriptor: bool)
    requires WriterOk(w) && Awake(w) && WriterOk(Take(w, now, descriptor).0)
    ensures var (v, out) := Take(w, now, descriptor);
            && Awake(v) && v.remote == w.remote
            && (v.connection.Some? ==> v.connection == w.connection)
            && (out.Some? ==> w.connection.Some? && v.connection == w.connection && v.scheduled)
  {
    if w.connection.Some? {
      PreparedOk(w);
      PreparedTwice(w);
      TurnedKeeps(Prepared(w), now);
      if Choice(Prepared(w)).Nothing? { TurnedRests(Prepared(w), now); }
    }
  }

  // ---- The invariant of a run ----

  ghost predicate DrainOk(drain: Drain, w: Writer, handles: nat) {
    match drain
    case Resting => true
    case Requeueing(owner, record) =>
      && w.remote && owner < handles && 0 < |record| <= UINT32_MAX
      && (w.connection == Some(owner) ==> w.scheduled)
    case Failing(owner) => owner < handles
  }

  ghost predicate RunOk(r: Run) {
    && WriterOk(r.w) && Awake(r.w)
    && (r.w.connection.Some? ==> r.w.connection.value < r.handles)
    && (r.w.connection.Some? ==> Alike(r.taken + r.w.pending[r.w.head..], r.accepted, r.w.remote))
    && DrainOk(r.drain, r.w, r.handles)
  }

  function Live(w: Writer): seq<Command>
    requires w.head <= |w.pending|
  {
    w.pending[w.head..]
  }

  lemma SentAlike(w: Writer, c: Command, taken: seq<Command>, accepted: seq<Command>)
    requires w.head <= |w.pending| && w.connection.Some?
    requires Alike(taken + Live(w), accepted, w.remote)
    ensures var (v, full) := Send(w, c);
            && v.head <= |v.pending|
            && Alike(taken + Live(v), if Answers(c) || full then accepted else accepted + [c], w.remote)
  {
    var live, v := Live(w), Send(w, c).0;
    assert v.pending[0..] == v.pending;
    if !Answers(c) && !Send(w, c).1 { CoalesceAlike(taken, live, accepted, c, w.remote); }
  }

  lemma TidyLive(w: Writer)
    requires w.head <= |w.pending|
    ensures Tidy(w).head <= |Tidy(w).pending| && Live(Tidy(w)) == Live(w)
  {
  }

  /** A turn for anything but the command queue leaves it alone. */
  lemma OtherTurn(w: Writer, now: real)
    requires WriterOk(w) && !Choice(w).Next?
    ensures var (v, out) := Turned(w, now);
            v.pending == w.pending && v.head == w.head && (out.Some? ==> CommandsOf(out.value) == [])
  {
    if Choice(w).AnswerTurn? { TakeAnswerOk(w.tables); }
  }

  lemma BatchAlike(w: Writer, taken: seq<Command>, end: nat)
    requires w.head < end <= |w.pending|
    ensures taken + w.pending[w.head..end] + Live(w.(head := end)) == taken + Live(w)
  {
    assert w.pending[w.head..] == w.pending[w.head..end] + w.pending[end..];
  }

  lemma BatchTurn(w: Writer, index: nat, taken: seq<Command>)
    requires w.head <= index < |w.pending| && w.path == Some(WindowCommands.Feedback) && w.pending[w.head].FrameReleased?
    ensures var (v, out) := TakeNext(w, index);
            v.head <= |v.pending| && taken + CommandsOf(out) + Live(v) == taken + Live(w)
  {
    var end := BatchEnd(w.pending, w.head + 1, w.head + BATCH);
    TidyLive(w.(head := end));
    BatchAlike(w, taken, end);
  }

  lemma LocalTurn(w: Writer, index: nat, taken: seq<Command>)
    requires w.head <= index < |w.pending| && (forall c <- w.pending :: !Answers(c))
    requires !w.remote && !(w.path == Some(WindowCommands.Feedback) && w.pending[w.head].FrameReleased?)
    ensures var (v, out) := TakeNext(w, index);
            v.head <= |v.pending| && taken + CommandsOf(out) + Live(v) == taken + Live(w)
  {
    TidyLive(w.(head := w.head + 1));
    BatchAlike(w, taken, w.head + 1);
    assert w.pending[w.head..w.head + 1] == [w.pending[w.head]];
  }

  lemma RemoteTurn(w: Writer, index: nat, taken: seq<Command>)
    requires w.head == 0 && index < |w.pending| && (forall c <- w.pending :: !Answers(c))
    requires w.remote && !(w.path == Some(WindowCommands.Feedback) && w.pending[0].FrameReleased?)
    ensures var (v, out) := TakeNext(w, index);
            && v.head <= |v.pending|
            && taken + CommandsOf(out) + Live(v) == taken + [w.pending[index]] + (w.pending[..index] + w.pending[index + 1..])
            && Live(w) == w.pending
  {
    var rest := w.pending[..index] + w.pending[index + 1..];
    TidyLive(w.(pending := rest));
    assert rest[0..] == rest && Live(w) == w.pending;
  }

  /** One turn moves commands from the live part of the queue to the taken ones. */
  lemma NextAlike(w: Writer, index: nat, taken: seq<Command>)
    requires w.head <= index < |w.pending| && (forall c <- w.pending :: !Answers(c))
    requires w.remote ==> w.head == 0
    requires index == w.head || (w.remote && !w.pending[index].HostSelectionData?
                                 && forall j :: 0 <= j < index ==> w.pending[j].HostSelectionData?)
    ensures var (v, out) := TakeNext(w, index);
            && v.head <= |v.pending|
            && Alike(taken + CommandsOf(out) + Live(v), taken + Live(w), w.remote)
  {
    if w.path == Some(WindowCommands.Feedback) && w.pending[w.head].FrameReleased? {
      BatchTurn(w, index, taken);
    } else if !w.remote {
      LocalTurn(w, index, taken);
    } else {
      RemoteTurn(w, index, taken);
      PassAlike(taken, w.pending, index, w.remote);
    }
  }

  lemma ChosenIndex(p: Writer)
    requires WriterOk(p) && Prepared(p) == p && Choice(p).Next?
    ensures var index := Choice(p).index;
            && p.head <= index < |p.pending| && (p.remote ==> p.head == 0)
            && (index == p.head || (p.remote && !p.pending[index].HostSelectionData?
                                    && forall j :: 0 <= j < index ==> p.pending[j].HostSelectionData?))
  {
    FirstSendableIs(p.pending);
  }

  lemma TurnedAlike(p: Writer, now: real, taken: seq<Command>)
    requires WriterOk(p) && Prepared(p) == p
    requires Choice(p).Next? ==> p.head <= Choice(p).index < |p.pending|
    ensures var (v, out) := Turned(p, now);
            && v.head <= |v.pending|
            && (out.Some? ==> Alike(taken + CommandsOf(out.value) + Live(v), taken + Live(p), p.remote))
            && (out.None? ==> Live(v) == Live(p))
  {
    if Choice(p).Next? {
      ChosenIndex(p);
      NextAlike(p, Choice(p).index, taken);
    } else {
      OtherTurn(p, now);
      assert taken + [] == taken;
    }
  }

  lemma TakeAlike(w: Writer, now: real, descriptor: bool, taken: seq<Command>)
    requires WriterOk(w) && w.connection.Some?
    ensures var (v, out) := Take(w, now, descriptor);
            && v.head <= |v.pending|
            && (out.Some? ==> Alike(taken + CommandsOf(out.value) + Live(v), taken + Live(w), w.remote))
            && (out.None? && v.connection.Some? ==> Live(v) == Live(w))
  {
    PreparedOk(w);
    PreparedTwice(w);
    assert Live(Prepared(w)) == Live(w);
    TurnedAlike(Prepared(w), now, taken);
  }

  // ---- Steps and runs ----

  lemma SentOk(r: Run, c: Command)
    requires RunOk(r)
    ensures RunOk(Sent(r, c))
  {
    SendOk(r.w, c);
    SendAwake(r.w, c);
    SendKeeps(r.w, c);
    if r.w.connection.Some? { SentAlike(r.w, c, r.taken, r.accepted); }
  }

  lemma SendKeeps(w: Writer, c: Command)
    requires w.head <= |w.pending|
    ensures var v := Send(w, c).0;
            v.connection == w.connection && v.remote == w.remote && (w.scheduled ==> v.scheduled)
  {
  }

  lemma DrainAfterOk(w: Writer, out: Option<Outbound>, broken: bool, owner: nat, handles: nat)
    requires owner < handles && (out.Some? && w.connection == Some(owner) ==> w.scheduled)
    ensures DrainOk(DrainAfter(w, out, broken, owner), w, handles)
  {
    if out.Some? && out.value.Single? && out.value.command.HostSelectionData? {
      var payload := out.value.command.payload;
      if WireFormat.FrameOf(payload).Ok? { FrameSize(payload); }
    }
  }

  lemma TakenOk(r: Run, now: real, descriptor: bool, broken: bool)
    requires RunOk(r)
    ensures RunOk(Taken(r, now, descriptor, broken))
  {
    var (w, out) := Take(r.w, now, descriptor);
    TakeOk(r.w, now, descriptor);
    TakeAwake(r.w, now, descriptor);
    if r.w.connection.Some? {
      TakeAlike(r.w, now, descriptor, r.taken);
      DrainAfterOk(w, out, broken, r.w.connection.value, r.handles);
    }
  }

  lemma FinishedOk(r: Run)
    requires RunOk(r)
    ensures RunOk(Finished(r))
  {
    if r.drain.Requeueing? && r.w.connection == Some(r.drain.owner) { EnqueueOk(r.w, r.drain.record); }
  }

  /** The sections that leave the command queue alone. */
  lemma BesideOk(r: Run, w: Writer)
    requires RunOk(r) && WriterOk(w) && Awake(w) && w.remote == r.w.remote
    requires w.connection == r.w.connection && w.pending == r.w.pending && w.head == r.w.head
    requires r.w.scheduled ==> w.scheduled
    ensures RunOk(r.(w := w))
  {
  }

  lemma FileBytesOk(r: Run, bytes: Data)
    requires RunOk(r)
    ensures RunOk(r.(w := SendFileSession(r.w, bytes).0))
  {
    var payload := RemoteWire.FILE_SESSION_MAGIC + bytes;
    if SendFileSession(r.w, bytes).1 {
      FrameSize(payload);
      EnqueueOk(r.w, WireFormat.FrameOf(payload).value);
    }
    BesideOk(r, SendFileSession(r.w, bytes).0);
  }

  lemma SeenOk(r: Run, event: GuestEvent)
    requires RunOk(r)
    ensures RunOk(r.(w := SeeGuest(r.w, event)))
  {
    ObserveOk(r.w.tables, event);
    SeeAwake(r.w, event);
    BesideOk(r, SeeGuest(r.w, event));
  }

  lemma AcknowledgedOk(r: Run, count: nat, received: bool, now: real)
    requires RunOk(r) && (received ==> r.w.bulk.received + count <= UINT32_MAX)
    ensures RunOk(r.(w := AcknowledgeBytes(r.w, count, received, now).0))
  {
    BulkOk(r.w, count, received, now);
    BesideOk(r, AcknowledgeBytes(r.w, count, received, now).0);
  }

  lemma PresentedOk(r: Run, payload: Data)
    requires RunOk(r)
    ensures RunOk(r.(w := WriterState.Present(r.w, payload).0))
  {
    BesideOk(r, WriterState.Present(r.w, payload).0);
  }

  lemma AfterOk(r: Run, step: Step)
    requires RunOk(r) && Allowed(r, step)
    ensures RunOk(After(r, step))
  {
    match step
    case Installs => InstalledOk(r, Some(r.handles), r.handles + 1);
    case Disconnects => InstalledOk(r, None, r.handles);
    case Sends(c) => SentOk(r, c);
    case Sees(event) => SeenOk(r, event);
    case SendsFileBytes(bytes) => FileBytesOk(r, bytes);
    case Acknowledges(count, received, now) => AcknowledgedOk(r, count, received, now);
    case Presents(payload) => PresentedOk(r, payload);
    case Takes(now, descriptor, broken) => TakenOk(r, now, descriptor, broken);
    case Finishes => FinishedOk(r);
  }

  lemma InstalledOk(r: Run, connection: Option<nat>, handles: nat)
    requires RunOk(r) && (connection.Some? ==> connection.value == r.handles < handles) && r.handles <= handles
    ensures RunOk(Run(Install(r.w, connection), [], [], r.drain, handles))
    ensures connection.None? ==> RunOk(r.(w := Install(r.w, None), handles := handles))
  {
    assert Prepared(Install(r.w, connection)) == Install(r.w, connection);
  }

  function Start(path: Option<Path>, remote: bool): (r: Run)
    ensures RunOk(r)
  {
    Run(Writer(path, remote, None, false, [], 0, NoTables, [], BulkLane.EmptyLane), [], [], Resting, 0)
  }

  /** A run of lock sections, in any order, that keeps to the rules above. */
  ghost predicate Reaches(start: Run, steps: seq<Step>, end: Run)
    requires RunOk(start)
    decreases |steps|
  {
    if steps == [] then end == start
    else
      && Allowed(start, steps[0])
      && (AfterOk(start, steps[0]); Reaches(After(start, steps[0]), steps[1..], end))
  }

  lemma {:induction false} ReachesOk(start: Run, steps: seq<Step>, end: Run)
    requires RunOk(start) && Reaches(start, steps, end)
    ensures RunOk(end)
    decreases |steps|
  {
    if steps != [] {
      AfterOk(start, steps[0]);
      ReachesOk(After(start, steps[0]), steps[1..], end);
    }
  }

  lemma {:induction false} TraceGrows(a: seq<Command>, b: seq<Command>)
    ensures MeaningOf(a).trace <= MeaningOf(a + b).trace
  {
    if b == [] {
      assert a + b == a;
    } else {
      TraceGrows(a, b[..|b| - 1]);
      assert a + b == a + b[..|b| - 1] + [b[|b| - 1]];
      AppliedLast(a + b[..|b| - 1], b[|b| - 1]);
    }
  }

  /** Whatever the interleaving of senders and the writer, the guest has seen a beginning of
      what the uncollapsed commands mean, and with what still waits it will have seen all of
      it: every barrier, with the state the sender had given it by then, and every gesture
      with its turning points. Selection data arrives in its own order. */
  lemma GuestSeesTheSame(path: Option<Path>, remote: bool, steps: seq<Step>, end: Run)
    requires Reaches(Start(path, remote), steps, end)
    requires end.w.connection.Some?
    ensures end.w.head <= |end.w.pending|
    ensures var waiting := end.w.pending[end.w.head..];
            && MeaningOf(Plain(end.taken + waiting, end.w.remote)) == MeaningOf(Plain(end.accepted, end.w.remote))
            && MeaningOf(Plain(end.taken, end.w.remote)).trace <= MeaningOf(Plain(end.accepted, end.w.remote)).trace
            && Only(end.taken + waiting, true) == Only(end.accepted, true)
  {
    ReachesOk(Start(path, remote), steps, end);
    var waiting := end.w.pending[end.w.head..];
    PlainAppend(end.taken, waiting, end.w.remote);
    TraceGrows(Plain(end.taken, end.w.remote), Plain(waiting, end.w.remote));
  }

  /** No wakeup is lost: a connected writer that is not scheduled has nothing it could send,
      neither credit nor reports, commands, answers or a fragment. */
  lemma RestsOnlyWhenIdle(path: Option<Path>, remote: bool, steps: seq<Step>, end: Run, now: real)
    requires Reaches(Start(path, remote), steps, end)
    requires end.w.connection.Some? && !end.w.scheduled
    ensures WriterOk(end.w) && Take(end.w, now, true).1 == None
    ensures !end.w.remote ==> end.w.pending == [] && MeaningOf(end.taken) == MeaningOf(end.accepted)
  {
    ReachesOk(Start(path, remote), steps, end);
    PreparedOk(end.w);
    TurnedKeeps(Prepared(end.w), now);
    if !end.w.remote {
      assert BulkLane.Load(end.w.bulk) == BulkLane.EmptyLane;
      assert end.taken + end.w.pending[end.w.head..] == end.taken;
    }
  }
}
