/** One connection's writer: the command queue, the answers to notifications and the bulk
    lane, each lock section a function of the state. */
module WriterState {
  import opened Bytes
  import opened Wrappers
  import opened WindowCommands
  import opened NotificationFeedback
  import BulkLane
  import RemoteWire
  import WireFormat

  const MAXIMUM_PENDING_COMMANDS := 65536
  const BATCH := 256

  /** `connection` names the file handle installed, `feedback` holds the presentation reports
      of a remote connection, and `pending` starts with `head` commands already taken. */
  datatype Writer = Writer(
    path: Option<Path>,
    remote: bool,
    connection: Option<nat>,
    scheduled: bool,
    pending: seq<Command>,
    head: nat,
    tables: Tables,
    feedback: seq<Data>,
    bulk: BulkLane.Lane)

  datatype Outbound = Single(command: Command) | Batch(commands: seq<Command>) | Payload(payload: Data) | Piece(bytes: Data)

  // ---- Connections ----

  function Install(w: Writer, connection: Option<nat>): Writer {
    Writer(w.path, w.remote, connection, false, [], 0, NoTables, [], BulkLane.EmptyLane)
  }

  /** A failed writer lets go of its handle; what waits on the bulk lane goes with the next
      installation. */
  function Fail(w: Writer): Writer {
    w.(connection := None, scheduled := false, pending := [], head := 0, tables := NoTables)
  }

  // ---- Enqueueing ----

  function Compact(w: Writer): Writer
    requires w.head <= |w.pending|
  {
    w.(pending := w.pending[w.head..], head := 0)
  }

  /** Also whether the caller is told that the queue is full. */
  function Send(w: Writer, c: Command): (Writer, bool)
    requires w.head <= |w.pending|
  {
    if w.connection.None? then (w, false)
    else
      var v := Compact(w);
      if Answers(c) then
        var tables := Answer(v.tables, c);
        (v.(tables := tables, scheduled := v.scheduled || tables.order != []), false)
      else if |v.pending| >= MAXIMUM_PENDING_COMMANDS then (v, true)
      else (v.(pending := Coalesce(v.pending, c), scheduled := true), false)
  }

  function SeeGuest(w: Writer, event: GuestEvent): Writer {
    if w.connection.None? then w else w.(tables := Observe(w.tables, event))
  }

  function SendFileSession(w: Writer, bytes: Data): (Writer, bool) {
    var record := WireFormat.FrameOf(RemoteWire.FILE_SESSION_MAGIC + bytes);
    if !w.remote || record.Err? || w.connection.None? then (w, false)
    else (w.(bulk := BulkLane.Enqueue(w.bulk, record.value), scheduled := true), true)
  }

  /** Also whether the caller is told that the peer broke the protocol. */
  function AcknowledgeBytes(w: Writer, count: nat, received: bool, now: real): (Writer, bool)
    requires RemoteWire.FlowValid(w.bulk.flow)
  {
    if !w.remote || w.connection.None? || count == 0 then (w, true)
    else if received then (w.(bulk := w.bulk.(received := w.bulk.received + count), scheduled := true), false)
    else
      var (flow, ok) := RemoteWire.Acknowledge(w.bulk.flow, count, now);
      if ok then (w.(bulk := w.bulk.(flow := flow), scheduled := true), false) else (w, true)
  }

  function Present(w: Writer, payload: Data): (Writer, bool) {
    if !w.remote || w.connection.None? then (w, false)
    else if |w.feedback| >= MAXIMUM_PENDING_COMMANDS then (w, true)
    else (w.(feedback := w.feedback + [payload], scheduled := true), false)
  }

  // ---- Taking ----

  /** The first command that may pass a record under way. */
  function FirstSendable(pending: seq<Command>): Option<nat> {
    if pending == [] then None
    else if !pending[0].HostSelectionData? then Some(0)
    else
      var rest := FirstSendable(pending[1..]);
      if rest.Some? then Some(rest.value + 1) else None
  }

  lemma {:induction false} FirstSendableIs(pending: seq<Command>)
    ensures match FirstSendable(pending)
            case Some(k) => k < |pending| && !pending[k].HostSelectionData? && forall j :: 0 <= j < k ==> pending[j].HostSelectionData?
            case None => forall j :: 0 <= j < |pending| ==> pending[j].HostSelectionData?
  {
    if pending != [] { FirstSendableIs(pending[1..]); }
  }

  function Prepared(w: Writer): Writer
    requires w.head <= |w.pending|
  {
    (if w.remote then Compact(w) else w).(bulk := BulkLane.Load(w.bulk))
  }

  datatype Turn = Credit | Report | Next(index: nat) | AnswerTurn | Fragment | Nothing

  /** Which queue goes next: credit, reports, commands, answers, then fragments. */
  function Choice(w: Writer): Turn
    requires BulkLane.LaneOk(w.bulk)
  {
    var index :=
      if w.bulk.record.None? then (if w.head < |w.pending| then Some(w.head) else None) else FirstSendable(w.pending);
    if w.remote && w.bulk.received > 0 then Credit
    else if w.feedback != [] then Report
    else if index.Some? then Next(index.value)
    else if w.tables.order != [] && w.tables.order[0] in w.tables.feedback then AnswerTurn
    else if w.bulk.record.Some? && RemoteWire.Allowance(w.bulk.flow, |w.bulk.record.value| - w.bulk.offset).1 > 0 then Fragment
    else Nothing
  }

  /** Adjacent frame releases share one record. */
  function BatchEnd(pending: seq<Command>, end: nat, limit: nat): (r: nat)
    requires end <= |pending|
    ensures end <= r <= |pending|
    ensures r <= if end <= limit then limit else end
    decreases |pending| - end
  {
    if end < limit && end < |pending| && pending[end].FrameReleased? then BatchEnd(pending, end + 1, limit) else end
  }

  function Tidy(w: Writer): Writer { if w.head == |w.pending| then w.(pending := [], head := 0) else w }

  function TakeNext(w: Writer, index: nat): (Writer, Outbound)
    requires w.head <= index < |w.pending|
  {
    if w.path == Some(WindowCommands.Feedback) && w.pending[w.head].FrameReleased? then
      var end := BatchEnd(w.pending, w.head + 1, w.head + BATCH);
      (Tidy(w.(head := end)), Batch(w.pending[w.head..end]))
    else if !w.remote then (Tidy(w.(head := w.head + 1)), Single(w.pending[w.head]))
    else (Tidy(w.(pending := w.pending[..index] + w.pending[index + 1..])), Single(w.pending[index]))
  }

  predicate WriterOk(w: Writer) {
    && w.head <= |w.pending|
    && (w.head == |w.pending| ==> w.pending == [])
    && (forall c <- w.pending :: !Answers(c))
    && TablesOk(w.tables)
    && BulkLane.LaneOk(w.bulk) && w.bulk.received <= UINT32_MAX
    && (!w.remote ==> w.bulk == BulkLane.EmptyLane && w.feedback == [])
  }

  lemma PreparedOk(w: Writer)
    requires WriterOk(w)
    ensures WriterOk(Prepared(w))
    ensures Choice(Prepared(w)).Next? ==> Prepared(w).head <= Choice(Prepared(w)).index < |Prepared(w).pending|
  {
    BulkLane.LoadOk(w.bulk);
    FirstSendableIs(Prepared(w).pending);
  }

  /** One turn on a prepared writer: what is written, or nothing and the writer rests. */
  function Turned(w: Writer, now: real): (Writer, Option<Outbound>)
    requires WriterOk(w)
    requires Choice(w).Next? ==> w.head <= Choice(w).index < |w.pending|
  {
    match Choice(w)
    case Credit => var (bulk, payload) := BulkLane.SendCredit(w.bulk); (w.(bulk := bulk), Some(Payload(payload)))
    case Report => (w.(feedback := w.feedback[1..]), Some(Payload(w.feedback[0])))
    case Next(index) => var (v, out) := TakeNext(w, index); (v, Some(out))
    case AnswerTurn =>
      TakeAnswerOk(w.tables);
      var next := TakeAnswer(w.tables);
      (w.(tables := next.tables), Some(Single(next.command)))
    case Fragment =>
      var (bulk, piece) := BulkLane.SendFragment(w.bulk, now);
      (w.(bulk := bulk), Some(Piece(piece.value)))
    case Nothing =>
      var (bulk, _) := BulkLane.SendFragment(w.bulk, now);
      (w.(bulk := bulk, scheduled := false), None)
  }

  /** `descriptor` is whether the handle could be duplicated for the write. */
  function Take(w: Writer, now: real, descriptor: bool): (Writer, Option<Outbound>)
    requires WriterOk(w)
  {
    if w.connection.None? then (w.(scheduled := false), None)
    else
      PreparedOk(w);
      var (v, out) := Turned(Prepared(w), now);
      if out.Some? && !descriptor then (Fail(v), None) else (v, out)
  }

  /** A selection too large for one record on the control path continues on the bulk lane. */
  function Requeue(w: Writer, owner: nat, record: Data): Writer {
    if w.connection == Some(owner) then w.(bulk := BulkLane.Enqueue(w.bulk, record)) else w
  }

  function WriteFailed(w: Writer, owner: nat): Writer {
    if w.connection == Some(owner) then Fail(w) else w
  }
}
