/** Answers to guest notifications: clicks and closes, kept apart from the lossless commands
    and dropped as soon as the notification they answer is gone. */
module NotificationFeedback {
  import opened Bytes
  import opened Wrappers
  import opened WindowCommands

  const MAXIMUM_NOTIFICATIONS := 64
  const MAXIMUM_ACTION_SIZE := 128

  /** What the connection's reader shows the writer before anybody else. */
  datatype GuestEvent =
    | ChannelReady
    | Posted(id: nat, revision: nat)
    | Rejected(maybeID: Option<nat>, maybeRevision: Option<nat>)
    | Closed(id: nat, revision: nat)
    | Unrelated

  datatype Entry = Entry(revision: nat, action: Option<Command>, closed: Option<Command>)

  /** `guest` has the live revision of each notification, `order` the identifiers with an
      answer waiting, oldest first. */
  datatype Tables = Tables(guest: map<nat, nat>, feedback: map<nat, Entry>, order: seq<nat>)

  const NoTables := Tables(map[], map[], [])

  function Without(order: seq<nat>, id: nat): seq<nat> {
    if order == [] then []
    else if order[0] == id then Without(order[1..], id)
    else [order[0]] + Without(order[1..], id)
  }

  function Remove(t: Tables, id: nat): Tables {
    t.(feedback := t.feedback - {id}, order := Without(t.order, id))
  }

  function ObserveLive(t: Tables, id: nat, revision: nat): Tables {
    if id == 0 || revision == 0 then t
    else if id !in t.guest && |t.guest| >= MAXIMUM_NOTIFICATIONS then t
    else if id in t.guest && revision < t.guest[id] then t
    else
      var kept := if id in t.guest && t.guest[id] == revision then t else Remove(t, id);
      kept.(guest := t.guest[id := revision])
  }

  function Observe(t: Tables, event: GuestEvent): Tables {
    match event
    case ChannelReady => NoTables
    case Posted(id, revision) => ObserveLive(t, id, revision)
    case Rejected(id, revision) => if id.Some? && revision.Some? then ObserveLive(t, id.value, revision.value) else t
    case Closed(id, revision) =>
      if id in t.guest && t.guest[id] <= revision then Remove(t, id).(guest := t.guest - {id}) else t
    case Unrelated => t
  }

  predicate GoodKey(key: Data) { key != [] && 0 !in key && |key| <= MAXIMUM_ACTION_SIZE }

  predicate Answers(c: Command) { c.NotificationAction? || c.NotificationClosed? }

  /** A click or a close: queued if the notification it answers is still the live one. */
  function Answer(t: Tables, c: Command): Tables
    requires Answers(c)
  {
    if c.NotificationAction? && !GoodKey(c.key) then t
    else if c.id !in t.guest || t.guest[c.id] != c.revision then t
    else
      var known := c.id in t.feedback;
      var entry := if known then t.feedback[c.id] else Entry(c.revision, None, None);
      var changed := if c.NotificationAction? then entry.(action := Some(c)) else entry.(closed := Some(c));
      t.(feedback := t.feedback[c.id := changed], order := if known then t.order else t.order + [c.id])
  }

  /** `Trap` is the stop on an entry that holds nothing. */
  datatype Next = Idle | Trap | Emits(tables: Tables, command: Command)

  /** The writer's turn for the oldest answer: the click first, its close on a later turn. */
  function TakeAnswer(t: Tables): Next {
    if t.order == [] || t.order[0] !in t.feedback then Idle
    else
      var id := t.order[0];
      var entry := t.feedback[id];
      if entry.action.Some? then
        var left := entry.(action := None);
        Emits(if left.closed.None? then Remove(t, id) else t.(feedback := t.feedback[id := left]), entry.action.value)
      else if entry.closed.Some? then
        var guest := if id in t.guest && t.guest[id] == entry.revision then t.guest - {id} else t.guest;
        Emits(Remove(t.(guest := guest), id), entry.closed.value)
      else Trap
  }

  // ---- The invariant ----

  predicate Distinct(order: seq<nat>) { forall j, k :: 0 <= j < k < |order| ==> order[j] != order[k] }

  /** An entry answers the live revision of its notification, with something. */
  predicate EntryOk(guest: map<nat, nat>, id: nat, e: Entry) {
    && id in guest && guest[id] == e.revision
    && (e.action.Some? || e.closed.Some?)
    && (e.action.Some? ==> e.action.value.NotificationAction? && e.action.value.id == id
                           && e.action.value.revision == e.revision && GoodKey(e.action.value.key))
    && (e.closed.Some? ==> e.closed.value.NotificationClosed? && e.closed.value.id == id && e.closed.value.revision == e.revision)
  }

  predicate TablesOk(t: Tables) {
    && |t.guest| <= MAXIMUM_NOTIFICATIONS
    && Distinct(t.order)
    && (forall id <- t.order :: id in t.feedback)
    && (forall id <- t.feedback :: id in t.order && EntryOk(t.guest, id, t.feedback[id]))
  }

  lemma {:induction false} WithoutDistinct(order: seq<nat>, id: nat)
    requires Distinct(order)
    ensures Distinct(Without(order, id)) && forall other :: other in Without(order, id) <==> other in order && other != id
  {
    if order != [] {
      WithoutDistinct(order[1..], id);
      assert order == [order[0]] + order[1..];
      var rest := Without(order[1..], id);
      assert forall k :: 0 <= k < |rest| ==> rest[k] in order[1..];
    }
  }

  lemma RemoveOk(t: Tables, id: nat)
    requires TablesOk(t)
    ensures TablesOk(Remove(t, id)) && id !in Remove(t, id).feedback
  {
    WithoutDistinct(t.order, id);
  }

  /** The live table may change for a notification nobody is answering. */
  lemma GuestMayChange(t: Tables, id: nat, guest: map<nat, nat>)
    requires TablesOk(t) && id !in t.feedback && |guest| <= MAXIMUM_NOTIFICATIONS
    requires forall other :: other in t.guest && other != id ==> other in guest && guest[other] == t.guest[other]
    ensures TablesOk(t.(guest := guest))
  {
  }

  lemma GuestSize(guest: map<nat, nat>, id: nat, revision: nat)
    ensures |guest[id := revision]| == (if id in guest then |guest| else |guest| + 1) && |guest - {id}| <= |guest|
  {
    assert guest[id := revision].Keys == guest.Keys + {id} && (guest - {id}).Keys == guest.Keys - {id};
  }

  lemma ObserveLiveOk(t: Tables, id: nat, revision: nat)
    requires TablesOk(t)
    ensures TablesOk(ObserveLive(t, id, revision))
  {
    RemoveOk(t, id);
    GuestSize(t.guest, id, revision);
    if id in t.guest && t.guest[id] == revision {
      assert t.guest[id := revision] == t.guest;
    } else if ObserveLive(t, id, revision) != t {
      GuestMayChange(Remove(t, id), id, t.guest[id := revision]);
    }
  }

  lemma WithdrawOk(t: Tables, id: nat)
    requires TablesOk(t)
    ensures TablesOk(Remove(t, id).(guest := t.guest - {id}))
  {
    RemoveOk(t, id);
    GuestSize(t.guest, id, 0);
    GuestMayChange(Remove(t, id), id, t.guest - {id});
  }

  lemma ObserveOk(t: Tables, event: GuestEvent)
    requires TablesOk(t)
    ensures TablesOk(Observe(t, event))
  {
    match event
    case Posted(id, revision) => ObserveLiveOk(t, id, revision);
    case Rejected(id, revision) => if id.Some? && revision.Some? { ObserveLiveOk(t, id.value, revision.value); }
    case Closed(id, revision) => WithdrawOk(t, id);
    case _ =>
  }

  lemma AnswerOk(t: Tables, c: Command)
    requires TablesOk(t) && Answers(c)
    ensures TablesOk(Answer(t, c))
  {
  }

  /** The writer never meets an empty entry; what it emits answers the live revision, and a
      close goes out only when no click on the same notification is left behind. */
  lemma TakeAnswerOk(t: Tables)
    requires TablesOk(t)
    ensures match TakeAnswer(t)
            case Idle => t.feedback == map[]
            case Trap => false
            case Emits(after, c) =>
              && TablesOk(after) && Answers(c)
              && c.id in t.guest && t.guest[c.id] == c.revision
              && (c.NotificationClosed? ==> t.feedback[c.id].action.None? && c.id !in after.guest && c.id !in after.feedback)
  {
    if t.order != [] {
      var id := t.order[0];
      assert id in t.order && EntryOk(t.guest, id, t.feedback[id]);
      var entry := t.feedback[id];
      if entry.action.Some? {
        if entry.closed.None? { RemoveOk(t, id); }
      } else {
        RemoveOk(t, id);
        GuestSize(t.guest, id, 0);
        GuestMayChange(Remove(t, id), id, t.guest - {id});
      }
    }
  }

  // ---- Runs ----

  datatype Turn = See(event: GuestEvent) | Ask(command: Command) | Emit

  predicate Fits(turn: Turn) { turn.Ask? ==> Answers(turn.command) }

  function After(t: Tables, turn: Turn): (Tables, Option<Command>)
    requires Fits(turn)
  {
    match turn
    case See(event) => (Observe(t, event), None)
    case Ask(c) => (Answer(t, c), None)
    case Emit =>
      match TakeAnswer(t)
      case Emits(after, c) => (after, Some(c))
      case _ => (t, None)
  }

  lemma AfterOk(t: Tables, turn: Turn)
    requires TablesOk(t) && Fits(turn)
    ensures TablesOk(After(t, turn).0)
  {
    match turn
    case See(event) => ObserveOk(t, event);
    case Ask(c) => AnswerOk(t, c);
    case Emit => TakeAnswerOk(t);
  }

  function RunTables(t: Tables, turns: seq<Turn>): Tables
    requires forall turn <- turns :: Fits(turn)
    decreases |turns|
  {
    if turns == [] then t else RunTables(After(t, turns[0]).0, turns[1..])
  }

  /** Over any run from empty tables the order lists exactly the notifications with an answer
      waiting, each once, and each answer is for the revision live now. */
  lemma {:induction false} RunTablesOk(t: Tables, turns: seq<Turn>)
    requires TablesOk(t) && forall turn <- turns :: Fits(turn)
    ensures TablesOk(RunTables(t, turns))
    decreases |turns|
  {
    if turns != [] {
      AfterOk(t, turns[0]);
      RunTablesOk(After(t, turns[0]).0, turns[1..]);
    }
  }

  /** The guest event could withdraw or replace the notification. */
  predicate Touches(turn: Turn, id: nat) {
    turn.See?
    && match turn.event
       case ChannelReady => true
       case Posted(other, _) => other == id
       case Rejected(other, _) => other == Some(id)
       case Closed(other, _) => other == id
       case Unrelated => false
  }

  function EmittedFor(t: Tables, turns: seq<Turn>, id: nat): seq<Command>
    requires forall turn <- turns :: Fits(turn)
    decreases |turns|
  {
    if turns == [] then []
    else
      var (after, out) := After(t, turns[0]);
      (if out.Some? && Answers(out.value) && out.value.id == id then [out.value] else []) + EmittedFor(after, turns[1..], id)
  }

  predicate ClickWaits(t: Tables, id: nat) { id in t.feedback && t.feedback[id].action.Some? }

  lemma ClickStays(t: Tables, turn: Turn, id: nat)
    requires TablesOk(t) && Fits(turn) && ClickWaits(t, id) && !Touches(turn, id)
    ensures var (after, out) := After(t, turn);
            if out.Some? && Answers(out.value) && out.value.id == id then out.value == t.feedback[id].action.value
            else ClickWaits(after, id)
  {
    if turn.Emit? {
      TakeAnswerOk(t);
      assert EntryOk(t.guest, id, t.feedback[id]);
    }
  }

  /** A click that was accepted is never overtaken or swallowed by the close of the same
      notification: as long as the guest leaves it alone, the first answer sent for it is a
      click. */
  lemma {:induction false} ClickBeforeClose(t: Tables, turns: seq<Turn>, id: nat)
    requires TablesOk(t) && (forall turn <- turns :: Fits(turn) && !Touches(turn, id))
    requires ClickWaits(t, id)
    ensures var sent := EmittedFor(t, turns, id);
            if sent == [] then ClickWaits(RunTables(t, turns), id) else sent[0].NotificationAction?
    decreases |turns|
  {
    if turns != [] {
      var (after, out) := After(t, turns[0]);
      AfterOk(t, turns[0]);
      ClickStays(t, turns[0], id);
      assert EntryOk(t.guest, id, t.feedback[id]);
      if !(out.Some? && Answers(out.value) && out.value.id == id) { ClickBeforeClose(after, turns[1..], id); }
    }
  }
}
