/** What becomes of an answer from the moment it is asked for: it waits for its notification,
    and it is sent once the answers ahead of it are. */
module NotificationAnswers {
  import opened Bytes
  import opened Wrappers
  import opened WindowCommands
  import opened NotificationFeedback

  /** An answer the writer takes: its notification is live at its revision, and a click has a
      key that fits. */
  predicate Accepts(t: Tables, c: Command)
    requires Answers(c)
  {
    c.id in t.guest && t.guest[c.id] == c.revision
    && (c.NotificationAction? ==> 0 < |c.key| <= 128 && forall k :: 0 <= k < |c.key| ==> c.key[k] != 0)
  }

  function Click(t: Tables, id: nat): Option<Command> { if id in t.feedback then t.feedback[id].action else None }

  function Close(t: Tables, id: nat): Option<Command> { if id in t.feedback then t.feedback[id].closed else None }

  /** An answer that is taken becomes the one that waits for its notification, in the place of
      an older one of its kind; nothing else changes. One that is not taken changes nothing. */
  lemma AskIsRecorded(t: Tables, c: Command)
    requires TablesOk(t) && Answers(c)
    ensures var after := Answer(t, c);
            if !Accepts(t, c) then after == t
            else
              && Click(after, c.id) == (if c.NotificationAction? then Some(c) else Click(t, c.id))
              && Close(after, c.id) == (if c.NotificationClosed? then Some(c) else Close(t, c.id))
              && (forall id :: id != c.id ==> Click(after, id) == Click(t, id) && Close(after, id) == Close(t, id))
              && after.guest == t.guest
              && after.order == (if c.id in t.order then t.order else t.order + [c.id])
              && multiset(after.order)[c.id] == 1
  {
    assert TablesOk(t);
    assert c.NotificationAction? ==> (GoodKey(c.key) <==> 0 < |c.key| <= 128 && forall k :: 0 <= k < |c.key| ==> c.key[k] != 0);
    AnswerOk(t, c);
    if Accepts(t, c) { OnceInOrder(Answer(t, c).order, c.id); }
  }

  lemma {:induction false} OnceInOrder(order: seq<nat>, id: nat)
    requires Distinct(order) && id in order
    ensures multiset(order)[id] == 1
  {
    assert order == order[..|order| - 1] + [order[|order| - 1]];
    if order[|order| - 1] == id {
      assert id !in order[..|order| - 1];
    } else {
      OnceInOrder(order[..|order| - 1], id);
    }
  }

  predicate Keeps(t: Tables, after: Tables, id: nat) { Click(after, id) == Click(t, id) && Close(after, id) == Close(t, id) }

  predicate Silent(after: Tables, id: nat) { Click(after, id) == None && Close(after, id) == None }

  predicate Takes(t: Tables, id: nat, revision: nat) {
    && id > 0 && revision > 0
    && if id in t.guest then revision >= t.guest[id] else |t.guest| < MAXIMUM_NOTIFICATIONS
  }

  ghost predicate NowLive(t: Tables, after: Tables, id: nat, revision: nat) {
    if !Takes(t, id, revision) then after == t
    else
      && after.guest == t.guest[id := revision]
      && (forall other :: other != id ==> Keeps(t, after, other))
      && if id in t.guest && t.guest[id] == revision then Keeps(t, after, id) else Silent(after, id)
  }

  /** A notification that is posted or rejected is live at its revision, unless a newer one is,
      and answers to an older revision are gone; one that is closed takes its answers along;
      the others keep theirs. */
  lemma SeeIsRecorded(t: Tables, event: GuestEvent)
    requires TablesOk(t)
    ensures var after := Observe(t, event);
            match event
            case ChannelReady => after.guest == map[] && forall id :: Silent(after, id)
            case Posted(id, revision) => NowLive(t, after, id, revision)
            case Rejected(Some(id), Some(revision)) => NowLive(t, after, id, revision)
            case Closed(id, revision) =>
              if id in t.guest && t.guest[id] <= revision then
                after.guest == t.guest - {id} && Silent(after, id) && forall other :: other != id ==> Keeps(t, after, other)
              else after == t
            case _ => after == t
  {
    ObserveOk(t, event);
    match event
    case Posted(id, revision) => LiveIsRecorded(t, id, revision);
    case Rejected(id, revision) => if id.Some? && revision.Some? { LiveIsRecorded(t, id.value, revision.value); }
    case _ =>
  }

  lemma LiveIsRecorded(t: Tables, id: nat, revision: nat)
    requires TablesOk(t)
    ensures NowLive(t, ObserveLive(t, id, revision), id, revision)
  {
  }

  // ---- From the asking to the sending ----

  predicate Clicks(t: Tables, turn: Turn, id: nat)
    requires Fits(turn)
  {
    turn.Ask? && turn.command.NotificationAction? && turn.command.id == id && Accepts(t, turn.command)
  }

  /** The last click on a notification that was taken in a run, this one if there was no other. */
  function LastClick(t: Tables, turns: seq<Turn>, id: nat, c: Command): Command
    requires forall turn <- turns :: Fits(turn)
    decreases |turns|
  {
    if turns == [] then c
    else LastClick(After(t, turns[0]).0, turns[1..], id, if Clicks(t, turns[0], id) then turns[0].command else c)
  }

  /** The writer's turn sends this answer. */
  predicate SendsFor(t: Tables, turn: Turn, id: nat)
    requires Fits(turn)
  {
    var out := After(t, turn).1; out.Some? && Answers(out.value) && out.value.id == id
  }

  lemma TurnKeepsClick(t: Tables, turn: Turn, id: nat, c: Command)
    requires TablesOk(t) && Fits(turn) && Click(t, id) == Some(c) && !Touches(turn, id)
    ensures if SendsFor(t, turn, id) then After(t, turn).1 == Some(c)
            else Click(After(t, turn).0, id) == Some(if Clicks(t, turn, id) then turn.command else c)
  {
    match turn
    case Ask(d) => AskIsRecorded(t, d);
    case See(event) => SeeKeeps(t, event, id);
    case Emit => EmitKeeps(t, id, c);
  }

  lemma SeeKeeps(t: Tables, event: GuestEvent, id: nat)
    requires TablesOk(t) && id in t.feedback && !Touches(See(event), id)
    ensures var after := Observe(t, event); id in after.feedback && after.feedback[id] == t.feedback[id]
  {
  }

  lemma EmitKeeps(t: Tables, id: nat, c: Command)
    requires TablesOk(t) && Click(t, id) == Some(c)
    ensures if SendsFor(t, Emit, id) then After(t, Emit).1 == Some(c) else Click(After(t, Emit).0, id) == Some(c)
  {
    TakeAnswerOk(t);
    assert EntryOk(t.guest, id, t.feedback[id]);
    if t.order != [] { assert t.order[0] in t.order && EntryOk(t.guest, t.order[0], t.feedback[t.order[0]]); }
  }

  /** A click that was taken waits until it is sent, unless a later one takes its place: as long
      as the guest leaves the notification alone and nothing was sent for it, what waits is the
      last click asked for, and the first answer sent for it is that one. */
  lemma {:induction false} ClickWaitsToBeSent(t: Tables, turns: seq<Turn>, id: nat, c: Command)
    requires TablesOk(t) && (forall turn <- turns :: Fits(turn) && !Touches(turn, id)) && Click(t, id) == Some(c)
    requires EmittedFor(t, turns, id) == []
    ensures var end, last := RunTables(t, turns), LastClick(t, turns, id, c);
            && TablesOk(end) && Click(end, id) == Some(last)
            && (SendsFor(end, Emit, id) ==> After(end, Emit).1 == Some(last))
    decreases |turns|
  {
    if turns == [] {
      TurnKeepsClick(t, Emit, id, c);
    } else {
      var after := After(t, turns[0]).0;
      AfterOk(t, turns[0]);
      TurnKeepsClick(t, turns[0], id, c);
      ClickWaitsToBeSent(after, turns[1..], id, if Clicks(t, turns[0], id) then turns[0].command else c);
    }
  }

  /** The turn that sends the first answer for a notification. */
  predicate FirstSent(t: Tables, turns: seq<Turn>, id: nat, c: Command, k: nat)
    requires forall turn <- turns :: Fits(turn)
  {
    && k < |turns| && turns[k].Emit? && EmittedFor(t, turns[..k], id) == []
    && EmittedFor(t, turns, id) != [] && EmittedFor(t, turns, id)[0] == LastClick(t, turns[..k], id, c)
  }

  lemma {:induction false} FirstIsLastClick(t: Tables, turns: seq<Turn>, id: nat, c: Command)
    requires TablesOk(t) && (forall turn <- turns :: Fits(turn) && !Touches(turn, id)) && Click(t, id) == Some(c)
    requires EmittedFor(t, turns, id) != []
    ensures exists k: nat :: FirstSent(t, turns, id, c, k)
    decreases |turns|
  {
    var after := After(t, turns[0]).0;
    AfterOk(t, turns[0]);
    TurnKeepsClick(t, turns[0], id, c);
    if SendsFor(t, turns[0], id) {
      assert turns[..0] == [];
      assert FirstSent(t, turns, id, c, 0);
    } else {
      var d := if Clicks(t, turns[0], id) then turns[0].command else c;
      FirstIsLastClick(after, turns[1..], id, d);
      var k: nat :| FirstSent(after, turns[1..], id, d, k);
      assert turns[..k + 1][0] == turns[0] && turns[..k + 1][1..] == turns[1..][..k];
      assert FirstSent(t, turns, id, c, k + 1);
    }
  }

  // ---- How long that takes ----

  /** The notifications whose turn comes before. */
  function Before(order: seq<nat>, id: nat): seq<nat> {
    if order == [] || order[0] == id then [] else [order[0]] + Before(order[1..], id)
  }

  function Waiting(feedback: map<nat, Entry>, id: nat): nat {
    if id !in feedback then 0
    else (if feedback[id].action.Some? then 1 else 0) + if feedback[id].closed.Some? then 1 else 0
  }

  function WaitingAll(feedback: map<nat, Entry>, ids: seq<nat>): nat {
    if ids == [] then 0 else Waiting(feedback, ids[0]) + WaitingAll(feedback, ids[1..])
  }

  /** The answers that go before those of a notification. */
  function Ahead(t: Tables, id: nat): nat { WaitingAll(t.feedback, Before(t.order, id)) }

  predicate AsksAhead(t: Tables, turn: Turn, id: nat)
    requires Fits(turn)
  {
    turn.Ask? && Accepts(t, turn.command) && turn.command.id in Before(t.order, id)
  }

  function CountAhead(t: Tables, turns: seq<Turn>, id: nat): nat
    requires forall turn <- turns :: Fits(turn)
    decreases |turns|
  {
    if turns == [] then 0
    else CountAhead(After(t, turns[0]).0, turns[1..], id) + if AsksAhead(t, turns[0], id) then 1 else 0
  }

  function Emits(turns: seq<Turn>): nat {
    if turns == [] then 0 else Emits(turns[1..]) + if turns[0].Emit? then 1 else 0
  }

  lemma {:induction false} BeforeIs(order: seq<nat>, id: nat)
    requires Distinct(order)
    ensures forall x <- Before(order, id) :: x in order && x != id
    ensures Distinct(Before(order, id))
  {
    if order != [] && order[0] != id {
      BeforeIs(order[1..], id);
      var rest := Before(order[1..], id);
      assert forall k :: 0 <= k < |rest| ==> rest[k] in order[1..];
    }
  }

  lemma {:induction false} WaitingSame(a: map<nat, Entry>, b: map<nat, Entry>, ids: seq<nat>)
    requires forall x <- ids :: Waiting(a, x) == Waiting(b, x)
    ensures WaitingAll(a, ids) == WaitingAll(b, ids)
  {
    if ids != [] { WaitingSame(a, b, ids[1..]); }
  }

  /** Only one of the notifications has more answers waiting, and at most one more. */
  lemma {:induction false} WaitingOneMore(a: map<nat, Entry>, b: map<nat, Entry>, ids: seq<nat>, x: nat)
    requires Distinct(ids) && Waiting(b, x) <= Waiting(a, x) + 1
    requires forall y <- ids :: y != x ==> Waiting(b, y) == Waiting(a, y)
    ensures WaitingAll(b, ids) <= WaitingAll(a, ids) + if x in ids then 1 else 0
  {
    if ids != [] {
      if ids[0] == x {
        assert x !in ids[1..];
        WaitingSame(a, b, ids[1..]);
      } else {
        WaitingOneMore(a, b, ids[1..], x);
      }
    }
  }

  lemma {:induction false} BeforeGrows(order: seq<nat>, x: nat, id: nat)
    requires id in order
    ensures Before(order + [x], id) == Before(order, id)
  {
    if order[0] != id {
      BeforeGrows(order[1..], x, id);
      assert (order + [x])[1..] == order[1..] + [x];
    }
  }

  /** Without one other notification the others keep their order. */
  lemma {:induction false} BeforeWithout(order: seq<nat>, x: nat, id: nat)
    requires x != id
    ensures Before(Without(order, x), id) == Without(Before(order, id), x)
  {
    if order != [] {
      BeforeWithout(order[1..], x, id);
      if order[0] != x && order[0] != id {
        assert ([order[0]] + Without(order[1..], x))[1..] == Without(order[1..], x);
        assert ([order[0]] + Before(order[1..], id))[1..] == Before(order[1..], id);
      } else if order[0] == x {
        assert ([order[0]] + Before(order[1..], id))[1..] == Before(order[1..], id);
      }
    }
  }

  lemma {:induction false} WaitingWithout(feedback: map<nat, Entry>, ids: seq<nat>, x: nat)
    ensures WaitingAll(feedback - {x}, Without(ids, x)) <= WaitingAll(feedback, ids)
  {
    if ids != [] {
      WaitingWithout(feedback, ids[1..], x);
      if ids[0] != x { assert ([ids[0]] + Without(ids[1..], x))[1..] == Without(ids[1..], x); }
    }
  }

  lemma AskWaits(t: Tables, d: Command, id: nat)
    requires TablesOk(t) && Answers(d) && id in t.feedback
    ensures Ahead(Answer(t, d), id) <= Ahead(t, id) + if AsksAhead(t, Ask(d), id) then 1 else 0
  {
    AskIsRecorded(t, d);
    BeforeIs(t.order, id);
    if Accepts(t, d) {
      if d.id !in t.order { BeforeGrows(t.order, d.id, id); }
      WaitingOneMore(t.feedback, Answer(t, d).feedback, Before(t.order, id), d.id);
    }
  }

  lemma RemoveWaits(t: Tables, x: nat, id: nat)
    requires x != id
    ensures Ahead(Remove(t, x), id) <= Ahead(t, id)
  {
    BeforeWithout(t.order, x, id);
    WaitingWithout(t.feedback, Before(t.order, id), x);
  }

  lemma SeeWaits(t: Tables, event: GuestEvent, id: nat)
    requires TablesOk(t) && !Touches(See(event), id)
    ensures Ahead(Observe(t, event), id) <= Ahead(t, id)
  {
    match event
    case Posted(x, _) => RemoveWaits(t, x, id);
    case Rejected(x, _) => if x.Some? { RemoveWaits(t, x.value, id); }
    case Closed(x, _) => RemoveWaits(t, x, id);
    case _ =>
  }

  lemma HeadIsAhead(order: seq<nat>, id: nat)
    requires Distinct(order) && id in order && order[0] != id
    ensures var ids := Before(order, id);
            ids != [] && ids[0] == order[0] && order[0] !in ids[1..] && ids[1..] == Before(Without(order, order[0]), id)
  {
    BeforeIs(order, id);
    var ids := Before(order, id);
    assert forall k :: 1 <= k < |ids| ==> ids[0] != ids[k];
    assert ids == [order[0]] + ids[1..];
    BeforeWithout(order, order[0], id);
    WithoutAbsent(ids[1..], order[0]);
  }

  /** What a turn leaves of the notification at the head: it is done, or its close is left. */
  lemma EmitLeaves(t: Tables)
    requires TablesOk(t) && t.order != []
    ensures var x, after := t.order[0], After(t, Emit).0;
            && x in t.feedback
            && if x in after.feedback then
                 after.order == t.order && Waiting(after.feedback, x) == 1 && Waiting(t.feedback, x) == 2
                 && after.feedback - {x} == t.feedback - {x}
               else after.order == Without(t.order, x) && after.feedback == t.feedback - {x} && Waiting(t.feedback, x) == 1
  {
    assert t.order[0] in t.order && EntryOk(t.guest, t.order[0], t.feedback[t.order[0]]);
  }

  lemma EmitSends(t: Tables, id: nat)
    requires TablesOk(t) && t.order != [] && t.order[0] == id
    ensures SendsFor(t, Emit, id)
  {
    assert id in t.order && EntryOk(t.guest, id, t.feedback[id]);
  }

  /** A turn that sends something else sends one of the answers ahead. */
  lemma EmitWaits(t: Tables, id: nat)
    requires TablesOk(t) && Click(t, id).Some? && !SendsFor(t, Emit, id)
    ensures Ahead(After(t, Emit).0, id) < Ahead(t, id)
  {
    if t.order[0] == id { EmitSends(t, id); }
    HeadIsAhead(t.order, id);
    EmitLeaves(t);
    var ids, after := Before(t.order, id), After(t, Emit).0;
    RestWaits(t.feedback, after.feedback, ids[1..], t.order[0]);
  }

  lemma RestWaits(a: map<nat, Entry>, b: map<nat, Entry>, ids: seq<nat>, x: nat)
    requires x !in ids && a - {x} == b - {x}
    ensures WaitingAll(a, ids) == WaitingAll(b, ids)
  {
    forall y <- ids ensures Waiting(a, y) == Waiting(b, y) {
      assert y in a <==> y in a - {x};
      assert y in b <==> y in b - {x};
      if y in a { assert (a - {x})[y] == a[y] && (b - {x})[y] == b[y]; }
    }
    WaitingSame(a, b, ids);
  }

  lemma {:induction false} WithoutAbsent(ids: seq<nat>, x: nat)
    requires x !in ids
    ensures Without(ids, x) == ids && Without([x] + ids, x) == ids
  {
    assert ([x] + ids)[1..] == ids;
    if ids != [] { WithoutAbsent(ids[1..], x); }
  }

  /** A click is sent once the writer had as many turns as answers were ahead of it, or were
      asked for ahead of it meanwhile, and one more. */
  lemma {:induction false} ClickIsSentInTime(t: Tables, turns: seq<Turn>, id: nat)
    requires TablesOk(t) && (forall turn <- turns :: Fits(turn) && !Touches(turn, id)) && Click(t, id).Some?
    ensures EmittedFor(t, turns, id) == [] ==> Emits(turns) + Ahead(RunTables(t, turns), id) <= Ahead(t, id) + CountAhead(t, turns, id)
    decreases |turns|
  {
    if turns != [] && EmittedFor(t, turns, id) == [] {
      var after := After(t, turns[0]).0;
      AfterOk(t, turns[0]);
      TurnKeepsClick(t, turns[0], id, Click(t, id).value);
      match turns[0] {
        case Ask(d) => AskWaits(t, d, id);
        case See(event) => SeeWaits(t, event, id);
        case Emit => EmitWaits(t, id);
      }
      ClickIsSentInTime(after, turns[1..], id);
    }
  }

  /** From the moment a click is asked for and taken, as long as the guest leaves its
      notification alone: what waits for it, and then the first answer sent for it, is the last
      click asked for; and it is sent once the writer had more turns than answers were ahead of
      it or were asked for ahead of it meanwhile. */
  lemma AskedClickIsSent(t: Tables, c: Command, turns: seq<Turn>)
    requires TablesOk(t) && c.NotificationAction? && Accepts(t, c)
    requires forall turn <- turns :: Fits(turn) && !Touches(turn, c.id)
    ensures var asked := Answer(t, c);
            var sent := EmittedFor(asked, turns, c.id);
            && (sent == [] ==> Click(RunTables(asked, turns), c.id) == Some(LastClick(asked, turns, c.id, c)))
            && (sent != [] ==> exists k: nat :: FirstSent(asked, turns, c.id, c, k))
            && (Emits(turns) > Ahead(asked, c.id) + CountAhead(asked, turns, c.id) ==> sent != [])
  {
    var asked := Answer(t, c);
    AskIsRecorded(t, c);
    AnswerOk(t, c);
    ClickIsSentInTime(asked, turns, c.id);
    if EmittedFor(asked, turns, c.id) == [] {
      ClickWaitsToBeSent(asked, turns, c.id, c);
    } else {
      FirstIsLastClick(asked, turns, c.id, c);
    }
  }

  // ---- Why its place in the order is not enough ----

  /** Two notifications with a click waiting, and a close behind the first click. */
  function Two(first: Option<Command>): Tables {
    Tables(map[1 := 1, 2 := 1],
           map[1 := Entry(1, first, Some(NotificationClosed(1, 1, 0))), 2 := Entry(1, Some(NotificationAction(2, 1, [7])), None)],
           [1, 2])
  }

  const Again := NotificationAction(1, 1, [7])

  /** A click on the first notification and a turn of the writer, this many times. */
  function Repeated(n: nat): seq<Turn> { if n == 0 then [] else [Ask(Again), Emit] + Repeated(n - 1) }

  lemma AgainAsked()
    ensures TablesOk(Two(None)) && After(Two(None), Ask(Again)).0 == Two(Some(Again))
    ensures After(Two(Some(Again)), Emit) == (Two(None), Some(Again))
  {
    var close := Some(NotificationClosed(1, 1, 0));
    assert Two(None).feedback[1 := Entry(1, Some(Again), close)] == Two(Some(Again)).feedback;
    assert Two(Some(Again)).feedback[1 := Entry(1, None, close)] == Two(None).feedback;
  }

  lemma EmittedTwo(t: Tables, a: Turn, b: Turn, rest: seq<Turn>, id: nat)
    requires Fits(a) && Fits(b) && forall turn <- rest :: Fits(turn)
    requires !SendsFor(t, a, id) && !SendsFor(After(t, a).0, b, id)
    ensures EmittedFor(t, [a, b] + rest, id) == EmittedFor(After(After(t, a).0, b).0, rest, id)
    ensures Emits([a, b] + rest) == Emits(rest) + (if a.Emit? then 1 else 0) + if b.Emit? then 1 else 0
  {
    var turns := [a, b] + rest;
    assert turns[0] == a && turns[1..] == [b] + rest && turns[1..][0] == b && turns[1..][1..] == rest;
  }

  /** A notification that is clicked again before each turn of the writer keeps its place at
      the head of the order, and the click behind it waits however long that goes on. */
  lemma {:induction false} ClickedAgainAndAgain(n: nat)
    ensures TablesOk(Two(None)) && Click(Two(None), 2).Some? && Two(None).order == [1, 2] && Emits(Repeated(n)) == n
    ensures (forall turn <- Repeated(n) :: Fits(turn) && !Touches(turn, 2))
    ensures EmittedFor(Two(None), Repeated(n), 2) == []
  {
    AgainAsked();
    if n > 0 {
      ClickedAgainAndAgain(n - 1);
      EmittedTwo(Two(None), Ask(Again), Emit, Repeated(n - 1), 2);
    }
  }
}
