/** The bounded summary of an unbounded stream of notification events. */
module NotificationInbox {
  import opened Wrappers

  const CAPACITY := 64

  datatype Note = Note(id: nat, revision: nat, content: int)

  datatype Event =
    | Posted(note: Note)
    | Closed(id: nat, revision: nat)
    | Rejected(maybeID: Option<nat>, maybeRevision: Option<nat>)
    | BacklogReset
    | Structural(tag: int)

  datatype Inbox = Inbox(posted: map<nat, Note>, closed: map<nat, nat>, rejected: map<nat, nat>, reset: bool)

  const Empty := Inbox(map[], map[], map[], false)

  function Get(m: map<nat, nat>, id: nat): nat { if id in m then m[id] else 0 }

  function PostedRevision(i: Inbox, id: nat): nat { if id in i.posted then i.posted[id].revision else 0 }

  function Max(a: nat, b: nat): nat { if a < b then b else a }

  function Reject(i: Inbox, id: nat, revision: nat): Inbox {
    if revision < PostedRevision(i, id) || revision <= Get(i.closed, id) then i
    else
      var j := i.(posted := i.posted - {id}, closed := i.closed - {id});
      if id in i.rejected || |i.rejected| < CAPACITY then
        j.(rejected := i.rejected[id := Max(Get(i.rejected, id), revision)])
      else j.(reset := true)
  }

  function Post(i: Inbox, note: Note): Inbox {
    var id := note.id;
    if id == 0 || note.revision == 0 then i
    else if note.revision <= Get(i.closed, id) || note.revision <= Get(i.rejected, id)
            || note.revision < PostedRevision(i, id) then i
    else
      var j := i.(closed := i.closed - {id}, rejected := i.rejected - {id});
      if id in i.posted || |i.posted| < CAPACITY then j.(posted := i.posted[id := note])
      else Reject(j.(reset := true), id, note.revision)
  }

  function Close(i: Inbox, id: nat, revision: nat): Inbox {
    if id == 0 || revision == 0 then i
    else if revision < PostedRevision(i, id) || revision < Get(i.rejected, id) then i
    else
      var j := i.(posted := i.posted - {id}, rejected := i.rejected - {id});
      if id in i.closed || |i.closed| < CAPACITY then j.(closed := i.closed[id := Max(Get(i.closed, id), revision)])
      else j.(reset := true, closed := map[id := revision])
  }

  /** False for structural events, which keep their own queue. */
  function Offer(i: Inbox, event: Event): (Inbox, bool) {
    match event
    case Posted(note) => (Post(i, note), true)
    case Closed(id, revision) => (Close(i, id, revision), true)
    case Rejected(id, revision) =>
      if id.None? || revision.None? || id.value == 0 || revision.value == 0 then (i, true)
      else (Reject(i, id.value, revision.value), true)
    case BacklogReset => (i.(reset := true), true)
    case Structural(_) => (i, false)
  }

  function OfferAll(i: Inbox, events: seq<Event>): Inbox {
    if events == [] then i else Offer(OfferAll(i, events[..|events| - 1]), events[|events| - 1]).0
  }

  // ---- What the inbox holds for one notification ----

  datatype Mark = Mark(revision: nat, rank: nat)

  const POSTED := 0
  const REJECTED := 1
  const CLOSED := 2

  /** Later revisions win; of one revision a close beats a rejection beats a post. */
  predicate Below(a: Mark, b: Mark) { a.revision < b.revision || (a.revision == b.revision && a.rank <= b.rank) }

  function Held(i: Inbox, id: nat): Option<Mark> {
    if id in i.posted then Some(Mark(i.posted[id].revision, POSTED))
    else if id in i.rejected then Some(Mark(i.rejected[id], REJECTED))
    else if id in i.closed then Some(Mark(i.closed[id], CLOSED))
    else None
  }

  /** The mark an event makes on a notification. */
  function MarkOf(event: Event, id: nat): Option<Mark> {
    if id == 0 then None
    else
      match event
      case Posted(note) => if note.id == id && note.revision > 0 then Some(Mark(note.revision, POSTED)) else None
      case Closed(other, revision) => if other == id && revision > 0 then Some(Mark(revision, CLOSED)) else None
      case Rejected(other, revision) =>
        if other == Some(id) && revision.Some? && revision.value > 0 then Some(Mark(revision.value, REJECTED)) else None
      case _ => None
  }

  // ---- The invariant ----

  predicate Bounded(i: Inbox) { |i.posted| <= CAPACITY && |i.closed| <= CAPACITY && |i.rejected| <= CAPACITY }

  /** A notification is in one map at most, and its entry is a real one. */
  predicate EntryOk(i: Inbox, id: nat) {
    && (id in i.posted ==> id !in i.closed && id !in i.rejected && id > 0 && i.posted[id].id == id && i.posted[id].revision > 0)
    && (id in i.closed ==> id !in i.rejected && id > 0 && i.closed[id] > 0)
    && (id in i.rejected ==> id > 0 && i.rejected[id] > 0)
  }

  ghost predicate Valid(i: Inbox) { Bounded(i) && forall id: nat :: EntryOk(i, id) }

  lemma InsertSize<V>(m: map<nat, V>, id: nat, v: V)
    ensures |m[id := v]| == if id in m then |m| else |m| + 1
  {
    assert m[id := v].Keys == m.Keys + {id};
  }

  lemma RemoveSize<V>(m: map<nat, V>, id: nat)
    ensures |m - {id}| <= |m| && (id in m ==> |m - {id}| == |m| - 1)
  {
    assert (m - {id}).Keys == m.Keys - {id};
  }

  lemma RejectBounded(i: Inbox, id: nat, revision: nat)
    requires Bounded(i)
    ensures Bounded(Reject(i, id, revision))
  {
    RemoveSize(i.posted, id);
    RemoveSize(i.closed, id);
    InsertSize(i.rejected, id, Max(Get(i.rejected, id), revision));
  }

  lemma PostBounded(i: Inbox, note: Note)
    requires Bounded(i)
    ensures Bounded(Post(i, note))
  {
    var j := i.(closed := i.closed - {note.id}, rejected := i.rejected - {note.id});
    RemoveSize(i.closed, note.id);
    RemoveSize(i.rejected, note.id);
    InsertSize(i.posted, note.id, note);
    RejectBounded(j.(reset := true), note.id, note.revision);
  }

  lemma CloseBounded(i: Inbox, id: nat, revision: nat)
    requires Bounded(i)
    ensures Bounded(Close(i, id, revision))
  {
    RemoveSize(i.posted, id);
    RemoveSize(i.rejected, id);
    InsertSize(i.closed, id, Max(Get(i.closed, id), revision));
    assert |map[id := revision]| == 1;
  }

  lemma RejectEntry(i: Inbox, id: nat, revision: nat, other: nat)
    requires EntryOk(i, other) && id > 0 && revision > 0
    ensures EntryOk(Reject(i, id, revision), other)
  {
  }

  lemma PostEntry(i: Inbox, note: Note, other: nat)
    requires EntryOk(i, other)
    ensures EntryOk(Post(i, note), other)
  {
    if note.id > 0 && note.revision > 0 {
      var j := i.(closed := i.closed - {note.id}, rejected := i.rejected - {note.id}, reset := true);
      assert EntryOk(j, other);
      RejectEntry(j, note.id, note.revision, other);
    }
  }

  lemma CloseEntry(i: Inbox, id: nat, revision: nat, other: nat)
    requires EntryOk(i, other)
    ensures EntryOk(Close(i, id, revision), other)
  {
  }

  /** Three bounded maps that share no notification, whatever arrives. */
  lemma OfferValid(i: Inbox, event: Event)
    requires Valid(i)
    ensures Valid(Offer(i, event).0)
  {
    match event
    case Posted(note) =>
      PostBounded(i, note);
      forall id: nat ensures EntryOk(Post(i, note), id) { PostEntry(i, note, id); }
    case Closed(id, revision) =>
      CloseBounded(i, id, revision);
      forall other: nat ensures EntryOk(Close(i, id, revision), other) { CloseEntry(i, id, revision, other); }
    case Rejected(id, revision) =>
      if id.Some? && revision.Some? && id.value > 0 && revision.value > 0 {
        RejectBounded(i, id.value, revision.value);
        forall other: nat ensures EntryOk(Reject(i, id.value, revision.value), other) {
          RejectEntry(i, id.value, revision.value, other);
        }
      }
    case BacklogReset =>
      forall id: nat ensures EntryOk(i.(reset := true), id) { assert EntryOk(i, id); }
    case Structural(_) =>
  }

  // ---- One event ----

  /** The higher of what was held and the new mark; a tie goes to the new one. */
  function Higher(held: Option<Mark>, mark: Option<Mark>): Option<Mark> {
    if mark.None? then held
    else if held.None? || Below(held.value, mark.value) then mark
    else held
  }

  /** An event leaves every other notification alone, unless it overflows. */
  lemma PostBeside(i: Inbox, note: Note, id: nat)
    requires note.id != id && !Post(i, note).reset
    ensures Held(Post(i, note), id) == Held(i, id)
  {
  }

  lemma PostHolds(i: Inbox, note: Note, id: nat)
    requires EntryOk(i, id) && !Post(i, note).reset
    ensures !i.reset && Held(Post(i, note), id) == Higher(Held(i, id), MarkOf(Posted(note), id))
  {
    if note.id != id { PostBeside(i, note, id); }
  }

  lemma CloseBeside(i: Inbox, closed: nat, revision: nat, id: nat)
    requires closed != id && !Close(i, closed, revision).reset
    ensures Held(Close(i, closed, revision), id) == Held(i, id)
  {
  }

  lemma CloseHolds(i: Inbox, closed: nat, revision: nat, id: nat)
    requires EntryOk(i, id) && !Close(i, closed, revision).reset
    ensures !i.reset && Held(Close(i, closed, revision), id) == Higher(Held(i, id), MarkOf(Closed(closed, revision), id))
  {
    if closed != id { CloseBeside(i, closed, revision, id); }
  }

  lemma RejectHolds(i: Inbox, rejected: nat, revision: nat, id: nat)
    requires EntryOk(i, id) && rejected > 0 && revision > 0 && !Reject(i, rejected, revision).reset
    ensures !i.reset
    ensures Held(Reject(i, rejected, revision), id)
         == Higher(Held(i, id), if rejected == id then Some(Mark(revision, REJECTED)) else None)
  {
  }

  /** Without overflow an event raises what is held for its notification and nothing else. */
  lemma OfferHolds(i: Inbox, event: Event, id: nat)
    requires EntryOk(i, id) && !Offer(i, event).0.reset
    ensures !i.reset
    ensures Held(Offer(i, event).0, id) == Higher(Held(i, id), MarkOf(event, id))
  {
    match event
    case Posted(note) => PostHolds(i, note, id);
    case Closed(closed, revision) => CloseHolds(i, closed, revision, id);
    case Rejected(rejected, revision) =>
      if rejected.Some? && revision.Some? && rejected.value > 0 && revision.value > 0 {
        RejectHolds(i, rejected.value, revision.value, id);
      }
    case _ =>
  }

  // ---- One event in a full inbox ----

  /** An event counts unless something later is held for its notification. */
  predicate Counts(i: Inbox, id: nat, mark: Mark) { Held(i, id).None? || Below(Held(i, id).value, mark) }

  /** The map the mark would go to is full. */
  predicate Full(i: Inbox, id: nat, rank: nat) {
    if rank == POSTED then id !in i.posted && |i.posted| >= CAPACITY
    else if rank == REJECTED then id !in i.rejected && |i.rejected| >= CAPACITY
    else id !in i.closed && |i.closed| >= CAPACITY
  }

  /** What is held when the mark finds its map full: a post becomes a rejection if there is room
      for one, a rejection is dropped, a close stays. */
  function Overflowed(i: Inbox, id: nat, mark: Mark): Option<Mark> {
    if mark.rank == CLOSED then Some(mark)
    else if mark.rank == POSTED && (id in i.rejected || |i.rejected| < CAPACITY) then Some(Mark(mark.revision, REJECTED))
    else None
  }

  /** What is held for a notification after a mark was made on it. */
  function Marked(i: Inbox, id: nat, mark: Mark): Option<Mark> {
    if !Counts(i, id, mark) then Held(i, id)
    else if Full(i, id, mark.rank) then Overflowed(i, id, mark)
    else Some(mark)
  }

  predicate ResetDue(i: Inbox, id: nat, mark: Mark) { i.reset || (Counts(i, id, mark) && Full(i, id, mark.rank)) }

  /** One entry is held in one map only. */
  lemma HeldOnce(i: Inbox, id: nat)
    requires EntryOk(i, id)
    ensures PostedRevision(i, id) == if Held(i, id).Some? && Held(i, id).value.rank == POSTED then Held(i, id).value.revision else 0
    ensures Get(i.rejected, id) == if Held(i, id).Some? && Held(i, id).value.rank == REJECTED then Held(i, id).value.revision else 0
    ensures Get(i.closed, id) == if Held(i, id).Some? && Held(i, id).value.rank == CLOSED then Held(i, id).value.revision else 0
    ensures Held(i, id).Some? ==> Held(i, id).value.rank <= CLOSED
  {
  }

  lemma RejectCounts(i: Inbox, id: nat, revision: nat)
    requires EntryOk(i, id) && revision > 0
    ensures revision < PostedRevision(i, id) || revision <= Get(i.closed, id) || revision < Get(i.rejected, id)
       <==> !Counts(i, id, Mark(revision, REJECTED))
  {
    HeldOnce(i, id);
  }

  lemma RejectTaken(i: Inbox, id: nat, revision: nat)
    requires EntryOk(i, id) && id > 0 && revision >= PostedRevision(i, id) && revision > Get(i.closed, id)
    ensures id !in Reject(i, id, revision).posted && id !in Reject(i, id, revision).closed
    ensures Full(i, id, REJECTED) ==> Reject(i, id, revision).reset && Reject(i, id, revision).rejected == i.rejected
    ensures !Full(i, id, REJECTED) ==>
              Reject(i, id, revision).reset == i.reset
              && Reject(i, id, revision).rejected == i.rejected[id := Max(Get(i.rejected, id), revision)]
  {
  }

  lemma RejectFull(i: Inbox, id: nat, revision: nat)
    requires EntryOk(i, id) && id > 0 && revision > 0
    ensures Held(Reject(i, id, revision), id) == Marked(i, id, Mark(revision, REJECTED))
    ensures Reject(i, id, revision).reset <==> ResetDue(i, id, Mark(revision, REJECTED))
  {
    RejectCounts(i, id, revision);
    if revision < PostedRevision(i, id) || revision <= Get(i.closed, id) {
      assert Reject(i, id, revision) == i;
    } else {
      RejectTaken(i, id, revision);
      HeldOnce(i, id);
    }
  }

  lemma CloseCounts(i: Inbox, id: nat, revision: nat)
    requires EntryOk(i, id) && revision > 0
    ensures revision < PostedRevision(i, id) || revision < Get(i.rejected, id) || revision < Get(i.closed, id)
       <==> !Counts(i, id, Mark(revision, CLOSED))
  {
    HeldOnce(i, id);
  }

  lemma CloseTaken(i: Inbox, id: nat, revision: nat)
    requires EntryOk(i, id) && id > 0 && revision > 0
    requires revision >= PostedRevision(i, id) && revision >= Get(i.rejected, id)
    ensures var after := Close(i, id, revision);
            id !in after.posted && id !in after.rejected && id in after.closed
            && (after.reset <==> i.reset || Full(i, id, CLOSED))
            && after.closed[id] == Max(Get(i.closed, id), revision)
  {
  }

  lemma CloseFull(i: Inbox, id: nat, revision: nat)
    requires EntryOk(i, id) && id > 0 && revision > 0
    ensures Held(Close(i, id, revision), id) == Marked(i, id, Mark(revision, CLOSED))
    ensures Close(i, id, revision).reset <==> ResetDue(i, id, Mark(revision, CLOSED))
  {
    CloseCounts(i, id, revision);
    if revision < PostedRevision(i, id) || revision < Get(i.rejected, id) {
      assert Close(i, id, revision) == i;
    } else {
      CloseTaken(i, id, revision);
      HeldOnce(i, id);
    }
  }

  lemma PostCounts(i: Inbox, note: Note)
    requires EntryOk(i, note.id) && note.revision > 0
    ensures note.revision <= Get(i.closed, note.id) || note.revision <= Get(i.rejected, note.id)
            || note.revision < PostedRevision(i, note.id)
       <==> !Counts(i, note.id, Mark(note.revision, POSTED))
  {
    HeldOnce(i, note.id);
  }

  /** A post that finds its map full first gives up what else was held for it. */
  function Cleared(i: Inbox, id: nat): Inbox {
    i.(closed := i.closed - {id}, rejected := i.rejected - {id}, reset := true)
  }

  lemma ClearedHolds(i: Inbox, id: nat)
    requires Bounded(i) && EntryOk(i, id) && id !in i.posted
    ensures EntryOk(Cleared(i, id), id) && Held(Cleared(i, id), id).None? && id !in Cleared(i, id).rejected
    ensures |Cleared(i, id).rejected| < CAPACITY <==> id in i.rejected || |i.rejected| < CAPACITY
  {
    RemoveSize(i.rejected, id);
    if id !in i.rejected { assert Cleared(i, id).rejected == i.rejected; }
  }

  lemma PostOverflows(i: Inbox, note: Note)
    requires Bounded(i) && EntryOk(i, note.id) && note.id > 0 && note.revision > 0
    requires Counts(i, note.id, Mark(note.revision, POSTED)) && Full(i, note.id, POSTED)
    ensures Post(i, note).reset
    ensures Held(Post(i, note), note.id) == Overflowed(i, note.id, Mark(note.revision, POSTED))
  {
    var j := Cleared(i, note.id);
    PostCounts(i, note);
    ClearedHolds(i, note.id);
    assert Post(i, note) == Reject(j, note.id, note.revision);
    RejectFull(j, note.id, note.revision);
  }

  lemma PostFull(i: Inbox, note: Note)
    requires Bounded(i) && EntryOk(i, note.id) && note.id > 0 && note.revision > 0
    ensures Held(Post(i, note), note.id) == Marked(i, note.id, Mark(note.revision, POSTED))
    ensures Post(i, note).reset <==> ResetDue(i, note.id, Mark(note.revision, POSTED))
  {
    PostCounts(i, note);
    if !Counts(i, note.id, Mark(note.revision, POSTED)) {
      assert Post(i, note) == i;
    } else if Full(i, note.id, POSTED) {
      PostOverflows(i, note);
    }
  }

  /** A reset becomes due exactly when an event that counts finds its map full; without that what
      is held afterwards is its mark. */
  lemma ResetExactly(i: Inbox, event: Event, id: nat, mark: Mark)
    requires Bounded(i) && EntryOk(i, id) && MarkOf(event, id) == Some(mark)
    ensures Offer(i, event).1
    ensures Offer(i, event).0.reset <==> ResetDue(i, id, mark)
    ensures Held(Offer(i, event).0, id) == Marked(i, id, mark)
  {
    match event
    case Posted(note) => PostFull(i, note);
    case Closed(_, revision) => CloseFull(i, id, revision);
    case Rejected(_, revision) => RejectFull(i, id, revision.value);
    case _ =>
  }

  lemma CloseForgets(i: Inbox, id: nat, revision: nat, other: nat)
    requires EntryOk(i, id) && EntryOk(i, other) && other != id && id > 0 && revision > 0
    ensures Held(Close(i, id, revision), other)
         == if Counts(i, id, Mark(revision, CLOSED)) && Full(i, id, CLOSED) && other in i.closed then None
            else Held(i, other)
  {
  }

  lemma RejectSpares(i: Inbox, id: nat, revision: nat, other: nat)
    requires other != id
    ensures Held(Reject(i, id, revision), other) == Held(i, other)
  {
  }

  lemma PostSpares(i: Inbox, note: Note, other: nat)
    requires other != note.id
    ensures Held(Post(i, note), other) == Held(i, other)
  {
    var j := i.(closed := i.closed - {note.id}, rejected := i.rejected - {note.id}, reset := true);
    assert Held(j, other) == Held(i, other);
    RejectSpares(j, note.id, note.revision, other);
  }

  /** Other notifications are left alone, but for the closes a full inbox forgets with a reset. */
  lemma OverflowBeside(i: Inbox, event: Event, id: nat, mark: Mark, other: nat)
    requires EntryOk(i, id) && MarkOf(event, id) == Some(mark) && other != id && EntryOk(i, other)
    ensures Held(Offer(i, event).0, other)
         == if mark.rank == CLOSED && Counts(i, id, mark) && Full(i, id, CLOSED) && other in i.closed then None
            else Held(i, other)
  {
    match event
    case Posted(note) => PostSpares(i, note, other);
    case Closed(_, revision) => CloseForgets(i, id, revision, other);
    case Rejected(_, revision) => RejectSpares(i, id, revision.value, other);
    case _ =>
  }

  /** An event without a mark changes nothing but asks for a reset if that is what it says; only
      structural events are not for the inbox. */
  lemma OtherEvents(i: Inbox, event: Event)
    requires forall id: nat :: MarkOf(event, id).None?
    ensures Offer(i, event).0 == if event.BacklogReset? then i.(reset := true) else i
    ensures Offer(i, event).1 <==> !event.Structural?
  {
    match event
    case Posted(note) => assert MarkOf(event, note.id).None?;
    case Closed(id, revision) => assert MarkOf(event, id).None?;
    case Rejected(id, revision) =>
      if id.Some? { assert MarkOf(event, id.value).None?; }
    case _ =>
  }

  lemma {:induction false} OfferAllValid(events: seq<Event>)
    ensures Valid(OfferAll(Empty, events))
  {
    if events != [] {
      OfferAllValid(events[..|events| - 1]);
      OfferValid(OfferAll(Empty, events[..|events| - 1]), events[|events| - 1]);
    }
  }

  // ---- All events since the last drain ----

  /** `mark` is the highest mark any of the events makes on the notification. */
  ghost predicate IsHighest(events: seq<Event>, id: nat, mark: Option<Mark>) {
    && (mark.Some? ==> exists e :: e in events && MarkOf(e, id) == mark)
    && (forall e :: e in events && MarkOf(e, id).Some? ==> mark.Some? && Below(MarkOf(e, id).value, mark.value))
  }

  /** Unless a reset is due, the inbox holds for each notification the highest mark of all
      the events offered. */
  lemma {:induction false} HoldsHighest(events: seq<Event>, id: nat)
    requires !OfferAll(Empty, events).reset
    ensures IsHighest(events, id, Held(OfferAll(Empty, events), id))
  {
    if events != [] {
      var front, e := events[..|events| - 1], events[|events| - 1];
      var before := OfferAll(Empty, front);
      OfferAllValid(front);
      OfferHolds(before, e, id);
      HoldsHighest(front, id);
      assert events == front + [e];
      var held := Held(before, id);
      if Higher(held, MarkOf(e, id)) == held && held.Some? {
        var w :| w in front && MarkOf(w, id) == held;
        assert w in events;
      } else if MarkOf(e, id).Some? {
        assert e in events;
      }
    }
  }

  lemma HighestIsUnique(events: seq<Event>, other: seq<Event>, id: nat, a: Option<Mark>, b: Option<Mark>)
    requires IsHighest(events, id, a) && IsHighest(other, id, b)
    requires forall e :: e in events <==> e in other
    ensures a == b
  {
  }

  /** The summary does not depend on the order in which events arrived, nor on repeats. */
  lemma OrderDoesNotMatter(events: seq<Event>, other: seq<Event>, id: nat)
    requires forall e :: e in events <==> e in other
    requires !OfferAll(Empty, events).reset && !OfferAll(Empty, other).reset
    ensures Held(OfferAll(Empty, events), id) == Held(OfferAll(Empty, other), id)
  {
    HoldsHighest(events, id);
    HoldsHighest(other, id);
    HighestIsUnique(events, other, id, Held(OfferAll(Empty, events), id), Held(OfferAll(Empty, other), id));
  }

  /** A held post is the last one posted with its revision. */
  ghost predicate IsLastPost(events: seq<Event>, note: Note) {
    exists k :: 0 <= k < |events| && events[k] == Posted(note)
                && forall j :: k < j < |events| && events[j].Posted? && events[j].note.id == note.id ==>
                     events[j].note.revision < note.revision
  }

  lemma OfferPosts(i: Inbox, event: Event, id: nat)
    requires EntryOk(i, id) && !Offer(i, event).0.reset && id in Offer(i, event).0.posted
    ensures var note := Offer(i, event).0.posted[id];
            || event == Posted(note)
            || (id in i.posted && i.posted[id] == note && note.id == id
                && (event.Posted? && event.note.id == id ==> event.note.revision < note.revision))
  {
  }

  lemma LastPostStays(front: seq<Event>, e: Event, note: Note)
    requires IsLastPost(front, note)
    requires e.Posted? && e.note.id == note.id ==> e.note.revision < note.revision
    ensures IsLastPost(front + [e], note)
  {
    var events := front + [e];
    var k :| 0 <= k < |front| && front[k] == Posted(note)
             && forall j :: k < j < |front| && front[j].Posted? && front[j].note.id == note.id ==>
                  front[j].note.revision < note.revision;
    assert events[k] == front[k];
    assert forall j :: k < j < |front| ==> events[j] == front[j];
  }

  lemma {:induction false} HoldsLastPost(events: seq<Event>, id: nat)
    requires !OfferAll(Empty, events).reset && id in OfferAll(Empty, events).posted
    ensures IsLastPost(events, OfferAll(Empty, events).posted[id])
  {
    var front, e := events[..|events| - 1], events[|events| - 1];
    var before, note := OfferAll(Empty, front), OfferAll(Empty, events).posted[id];
    assert events == front + [e];
    OfferAllValid(front);
    assert EntryOk(before, id);
    OfferHolds(before, e, id);
    OfferPosts(before, e, id);
    if e == Posted(note) {
      assert events[|events| - 1] == Posted(note);
    } else {
      HoldsLastPost(front, id);
      LastPostStays(front, e, note);
    }
  }
}
