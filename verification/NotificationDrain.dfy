/** Draining the notification summary, and the structure that holds it. */
module NotificationDrain {
  import opened Wrappers
  import opened NotificationInbox

  // ---- Sorted keys ----

  predicate IsLeast(least: nat, ids: set<nat>) { least in ids && forall id <- ids :: least <= id }

  lemma {:induction false} LeastExists(ids: set<nat>) returns (least: nat)
    requires ids != {}
    ensures IsLeast(least, ids)
    decreases |ids|
  {
    least :| least in ids;
    var rest := ids - {least};
    assert ids == rest + {least};
    if rest != {} {
      var other := LeastExists(rest);
      if other < least { least := other; }
    }
  }

  predicate Increasing(ids: seq<nat>) { forall j, k :: 0 <= j < k < |ids| ==> ids[j] < ids[k] }

  ghost function Least(ids: set<nat>): (least: nat)
    requires ids != {}
    ensures IsLeast(least, ids)
  {
    assert exists l :: IsLeast(l, ids) by { var l := LeastExists(ids); }
    var least :| IsLeast(least, ids);
    least
  }

  lemma LeastIsUnique(a: nat, b: nat, ids: set<nat>)
    requires IsLeast(a, ids) && IsLeast(b, ids)
    ensures a == b
  {
    assert a <= b && b <= a;
  }

  /** A set of identifiers in increasing order. */
  ghost function Ascending(ids: set<nat>): (r: seq<nat>)
    ensures |r| == |ids| && (forall id :: id in r <==> id in ids)
    decreases |ids|
  {
    if ids == {} then [] else [Least(ids)] + Ascending(ids - {Least(ids)})
  }

  lemma {:induction false} AscendingIncreases(ids: set<nat>)
    ensures Increasing(Ascending(ids))
    decreases |ids|
  {
    if ids != {} {
      var least, rest := Least(ids), ids - {Least(ids)};
      AscendingIncreases(rest);
      var tail := Ascending(rest);
      forall k | 0 <= k < |tail| ensures least < tail[k] { assert tail[k] in tail; }
    }
  }

  method SortedKeys(ids: set<nat>) returns (keys: seq<nat>)
    ensures keys == Ascending(ids)
  {
    keys := [];
    var rest := ids;
    while rest != {}
      invariant keys + Ascending(rest) == Ascending(ids)
      decreases |rest|
    {
      assert IsLeast(Least(rest), rest);
      var least :| least in rest && IsLeast(least, rest);
      LeastIsUnique(least, Least(rest), rest);
      assert keys + Ascending(rest) == keys + [least] + Ascending(rest - {least});
      keys, rest := keys + [least], rest - {least};
    }
  }

  // ---- What a drain delivers ----

  ghost function Closes(ids: seq<nat>, m: map<nat, nat>): seq<Event>
    requires forall id <- ids :: id in m
  {
    if ids == [] then [] else Closes(ids[..|ids| - 1], m) + [Closed(ids[|ids| - 1], m[ids[|ids| - 1]])]
  }

  ghost function Rejects(ids: seq<nat>, m: map<nat, nat>): seq<Event>
    requires forall id <- ids :: id in m
  {
    if ids == [] then []
    else Rejects(ids[..|ids| - 1], m) + [Rejected(Some(ids[|ids| - 1]), Some(m[ids[|ids| - 1]]))]
  }

  ghost function Posts(ids: seq<nat>, m: map<nat, Note>): seq<Event>
    requires forall id <- ids :: id in m
  {
    if ids == [] then [] else Posts(ids[..|ids| - 1], m) + [Posted(m[ids[|ids| - 1]])]
  }

  ghost function ResetEvents(reset: bool): seq<Event> { if reset then [BacklogReset] else [] }

  /** The reset, then closes, rejections and posts, each by identifier. */
  ghost function Drained(i: Inbox): seq<Event> {
    ResetEvents(i.reset)
    + Closes(Ascending(i.closed.Keys), i.closed)
    + Rejects(Ascending(i.rejected.Keys), i.rejected)
    + Posts(Ascending(i.posted.Keys), i.posted)
  }

  method CloseEvents(m: map<nat, nat>) returns (events: seq<Event>)
    ensures events == Closes(Ascending(m.Keys), m)
  {
    events := [];
    var keys := SortedKeys(m.Keys);
    for k := 0 to |keys|
      invariant events == Closes(keys[..k], m)
    {
      assert keys[..k + 1][..k] == keys[..k] && keys[k] in keys;
      events := events + [Closed(keys[k], m[keys[k]])];
    }
    assert keys[..|keys|] == keys;
  }

  method RejectEvents(m: map<nat, nat>) returns (events: seq<Event>)
    ensures events == Rejects(Ascending(m.Keys), m)
  {
    events := [];
    var keys := SortedKeys(m.Keys);
    for k := 0 to |keys|
      invariant events == Rejects(keys[..k], m)
    {
      assert keys[..k + 1][..k] == keys[..k] && keys[k] in keys;
      events := events + [Rejected(Some(keys[k]), Some(m[keys[k]]))];
    }
    assert keys[..|keys|] == keys;
  }

  method PostEvents(m: map<nat, Note>) returns (events: seq<Event>)
    ensures events == Posts(Ascending(m.Keys), m)
  {
    events := [];
    var keys := SortedKeys(m.Keys);
    for k := 0 to |keys|
      invariant events == Posts(keys[..k], m)
    {
      assert keys[..k + 1][..k] == keys[..k] && keys[k] in keys;
      events := events + [Posted(m[keys[k]])];
    }
    assert keys[..|keys|] == keys;
  }

  // ---- Offering it again ----

  lemma {:induction false} OfferAllAppend(i: Inbox, a: seq<Event>, b: seq<Event>)
    ensures OfferAll(i, a + b) == OfferAll(OfferAll(i, a), b)
  {
    if b == [] {
      assert a + b == a;
    } else {
      OfferAllAppend(i, a, b[..|b| - 1]);
      assert (a + b)[..|a + b| - 1] == a + b[..|b| - 1];
    }
  }

  ghost function Only<V>(m: map<nat, V>, ids: seq<nat>): map<nat, V> { map id | id in m && id in ids :: m[id] }

  lemma {:induction false} OnlySize<V>(m: map<nat, V>, ids: seq<nat>)
    ensures |Only(m, ids)| <= |ids|
  {
    if ids == [] {
      assert Only(m, ids) == map[];
    } else {
      var front, last := ids[..|ids| - 1], ids[|ids| - 1];
      OnlySize(m, front);
      assert Only(m, ids).Keys <= Only(m, front).Keys + {last};
      SubsetSize(Only(m, ids).Keys, Only(m, front).Keys + {last});
    }
  }

  lemma SubsetSize(a: set<nat>, b: set<nat>)
    requires a <= b
    ensures |a| <= |b|
  {
    assert b == a + (b - a);
  }

  lemma OnlySnoc<V>(m: map<nat, V>, ids: seq<nat>)
    requires ids != [] && ids[|ids| - 1] in m
    ensures var last := ids[|ids| - 1]; Only(m, ids) == Only(m, ids[..|ids| - 1])[last := m[last]]
  {
    assert ids == ids[..|ids| - 1] + [ids[|ids| - 1]];
  }

  predicate Unknown(i: Inbox, id: nat) { id !in i.posted && id !in i.closed && id !in i.rejected }

  lemma CloseUnknown(i: Inbox, id: nat, revision: nat)
    requires Unknown(i, id) && |i.closed| < CAPACITY && id > 0 && revision > 0
    ensures Close(i, id, revision) == i.(closed := i.closed[id := revision])
  {
    assert i.posted - {id} == i.posted && i.rejected - {id} == i.rejected;
  }

  lemma RejectUnknown(i: Inbox, id: nat, revision: nat)
    requires Unknown(i, id) && |i.rejected| < CAPACITY && revision > 0
    ensures Reject(i, id, revision) == i.(rejected := i.rejected[id := revision])
  {
    assert i.posted - {id} == i.posted && i.closed - {id} == i.closed;
  }

  lemma PostUnknown(i: Inbox, note: Note)
    requires Unknown(i, note.id) && |i.posted| < CAPACITY && note.id > 0 && note.revision > 0
    ensures Post(i, note) == i.(posted := i.posted[note.id := note])
  {
    assert i.rejected - {note.id} == i.rejected && i.closed - {note.id} == i.closed;
  }

  lemma LastIsNew(ids: seq<nat>)
    requires ids != [] && Increasing(ids)
    ensures Increasing(ids[..|ids| - 1]) && ids[|ids| - 1] !in ids[..|ids| - 1]
    ensures ids[|ids| - 1] in ids && forall id <- ids[..|ids| - 1] :: id in ids
  {
  }

  lemma {:induction false} OfferCloses(base: Inbox, ids: seq<nat>, m: map<nat, nat>)
    requires base.posted == map[] && base.rejected == map[] && base.closed == map[]
    requires Increasing(ids) && |ids| <= CAPACITY && forall id <- ids :: id in m && id > 0 && m[id] > 0
    ensures OfferAll(base, Closes(ids, m)) == base.(closed := Only(m, ids))
  {
    if ids == [] {
      assert Only(m, ids) == map[];
    } else {
      var front, last := ids[..|ids| - 1], ids[|ids| - 1];
      LastIsNew(ids);
      forall id <- front ensures id in m && id > 0 && m[id] > 0 { assert id in ids; }
      OfferCloses(base, front, m);
      OnlySize(m, front);
      OnlySnoc(m, ids);
      CloseUnknown(base.(closed := Only(m, front)), last, m[last]);
      OfferAllAppend(base, Closes(front, m), [Closed(last, m[last])]);
    }
  }

  lemma RejectsLast(base: Inbox, ids: seq<nat>, m: map<nat, nat>)
    requires ids != [] && forall id <- ids :: id in m && id > 0 && m[id] > 0
    ensures var front, last := ids[..|ids| - 1], ids[|ids| - 1];
            && last in ids && (forall id <- front :: id in m)
            && OfferAll(base, Rejects(ids, m)) == Reject(OfferAll(base, Rejects(front, m)), last, m[last])
  {
    var front, last := ids[..|ids| - 1], ids[|ids| - 1];
    assert last in ids && forall id <- front :: id in ids;
    var events := Rejects(front, m) + [Rejected(Some(last), Some(m[last]))];
    assert events[..|events| - 1] == Rejects(front, m);
  }

  lemma {:induction false} OfferRejects(base: Inbox, ids: seq<nat>, m: map<nat, nat>)
    requires base.posted == map[] && base.rejected == map[] && forall id <- ids :: id !in base.closed
    requires Increasing(ids) && |ids| <= CAPACITY && forall id <- ids :: id in m && id > 0 && m[id] > 0
    ensures OfferAll(base, Rejects(ids, m)) == base.(rejected := Only(m, ids))
  {
    if ids == [] {
      assert Only(m, ids) == map[];
    } else {
      var front, last := ids[..|ids| - 1], ids[|ids| - 1];
      LastIsNew(ids);
      forall id <- front ensures id in m && id > 0 && m[id] > 0 && id !in base.closed { assert id in ids; }
      OfferRejects(base, front, m);
      OnlySize(m, front);
      OnlySnoc(m, ids);
      RejectUnknown(base.(rejected := Only(m, front)), last, m[last]);
      RejectsLast(base, ids, m);
    }
  }

  lemma {:induction false} OfferPosts(base: Inbox, ids: seq<nat>, m: map<nat, Note>)
    requires base.posted == map[] && forall id <- ids :: id !in base.closed && id !in base.rejected
    requires Increasing(ids) && |ids| <= CAPACITY
    requires forall id <- ids :: id in m && id > 0 && m[id].id == id && m[id].revision > 0
    ensures OfferAll(base, Posts(ids, m)) == base.(posted := Only(m, ids))
  {
    if ids == [] {
      assert Only(m, ids) == map[];
    } else {
      var front, last := ids[..|ids| - 1], ids[|ids| - 1];
      LastIsNew(ids);
      forall id <- front ensures id in m && id > 0 && m[id].id == id && m[id].revision > 0 { assert id in ids; }
      OfferPosts(base, front, m);
      OnlySize(m, front);
      OnlySnoc(m, ids);
      PostUnknown(base.(posted := Only(m, front)), m[last]);
      OfferAllAppend(base, Posts(front, m), [Posted(m[last])]);
    }
  }

  lemma AllOf<V>(m: map<nat, V>)
    ensures Only(m, Ascending(m.Keys)) == m && Increasing(Ascending(m.Keys)) && |Ascending(m.Keys)| == |m|
  {
    AscendingIncreases(m.Keys);
  }

  lemma ClosesRestored(i: Inbox)
    requires Valid(i)
    ensures OfferAll(Empty, ResetEvents(i.reset) + Closes(Ascending(i.closed.Keys), i.closed))
         == Inbox(map[], i.closed, map[], i.reset)
  {
    var ids := Ascending(i.closed.Keys);
    forall id <- ids ensures id > 0 && i.closed[id] > 0 { assert EntryOk(i, id); }
    AllOf(i.closed);
    OfferAllAppend(Empty, ResetEvents(i.reset), Closes(ids, i.closed));
    OfferCloses(Empty.(reset := i.reset), ids, i.closed);
  }

  lemma RejectsRestored(i: Inbox)
    requires Valid(i)
    ensures var ids := Ascending(i.rejected.Keys);
            OfferAll(Inbox(map[], i.closed, map[], i.reset), Rejects(ids, i.rejected)) == i.(posted := map[])
  {
    var ids := Ascending(i.rejected.Keys);
    forall id <- ids ensures id > 0 && i.rejected[id] > 0 && id !in i.closed { assert EntryOk(i, id); }
    AllOf(i.rejected);
    OfferRejects(Inbox(map[], i.closed, map[], i.reset), ids, i.rejected);
  }

  lemma PostsRestored(i: Inbox)
    requires Valid(i)
    ensures var ids := Ascending(i.posted.Keys); OfferAll(i.(posted := map[]), Posts(ids, i.posted)) == i
  {
    var ids := Ascending(i.posted.Keys);
    forall id <- ids
      ensures id > 0 && i.posted[id].id == id && i.posted[id].revision > 0 && id !in i.closed && id !in i.rejected
    {
      assert EntryOk(i, id);
    }
    AllOf(i.posted);
    OfferPosts(i.(posted := map[]), ids, i.posted);
  }

  /** A drain hands over everything: offered to an empty inbox it restores the one drained. */
  lemma DrainLosesNothing(i: Inbox)
    requires Valid(i)
    ensures OfferAll(Empty, Drained(i)) == i
  {
    var reset, closes := ResetEvents(i.reset), Closes(Ascending(i.closed.Keys), i.closed);
    var rejects, posts := Rejects(Ascending(i.rejected.Keys), i.rejected), Posts(Ascending(i.posted.Keys), i.posted);
    OfferAllAppend(Empty, reset + closes, rejects);
    OfferAllAppend(Empty, reset + closes + rejects, posts);
    ClosesRestored(i);
    RejectsRestored(i);
    PostsRestored(i);
  }

  // ---- The structure itself ----

  class GuestNotificationInbox {
    var posted: map<nat, Note>
    var closed: map<nat, nat>
    var rejected: map<nat, nat>
    var reset: bool

    function View(): Inbox
      reads this
    {
      Inbox(posted, closed, rejected, reset)
    }

    constructor ()
      ensures View() == Empty
    {
      posted, closed, rejected, reset := map[], map[], map[], false;
    }

    method Refuse(id: nat, revision: nat)
      modifies this
      ensures View() == Reject(old(View()), id, revision)
    {
      if revision >= (if id in posted then posted[id].revision else 0) && revision > Get(closed, id) {
        posted := posted - {id};
        closed := closed - {id};
        if id in rejected || |rejected| < CAPACITY {
          rejected := rejected[id := Max(Get(rejected, id), revision)];
        } else {
          reset := true;
        }
      }
    }

    method AcceptPost(note: Note)
      modifies this
      ensures View() == Post(old(View()), note)
    {
      if note.id == 0 || note.revision == 0 { return; }
      if note.revision <= Get(closed, note.id) || note.revision <= Get(rejected, note.id)
         || note.revision < (if note.id in posted then posted[note.id].revision else 0) {
        return;
      }
      closed := closed - {note.id};
      rejected := rejected - {note.id};
      if note.id in posted || |posted| < CAPACITY {
        posted := posted[note.id := note];
      } else {
        reset := true;
        Refuse(note.id, note.revision);
      }
    }

    method AcceptClose(id: nat, revision: nat)
      modifies this
      ensures View() == Close(old(View()), id, revision)
    {
      if id == 0 || revision == 0 { return; }
      if revision < (if id in posted then posted[id].revision else 0) || revision < Get(rejected, id) { return; }
      posted := posted - {id};
      rejected := rejected - {id};
      if id in closed || |closed| < CAPACITY {
        closed := closed[id := Max(Get(closed, id), revision)];
      } else {
        reset := true;
        closed := map[id := revision];
      }
    }

    method Accept(event: Event) returns (kept: bool)
      modifies this
      ensures (View(), kept) == Offer(old(View()), event)
    {
      match event
      case Posted(note) =>
        AcceptPost(note);
        kept := true;
      case Closed(id, revision) =>
        AcceptClose(id, revision);
        kept := true;
      case Rejected(id, revision) =>
        kept := true;
        if id.Some? && revision.Some? && id.value != 0 && revision.value != 0 {
          Refuse(id.value, revision.value);
        }
      case BacklogReset =>
        reset := true;
        kept := true;
      case Structural(_) =>
        kept := false;
    }

    method Drain() returns (events: seq<Event>)
      modifies this
      ensures events == Drained(old(View())) && View() == Empty
    {
      events := if reset then [BacklogReset] else [];
      var closes := CloseEvents(closed);
      var rejects := RejectEvents(rejected);
      var posts := PostEvents(posted);
      events := events + closes + rejects + posts;
      posted, closed, rejected, reset := map[], map[], map[], false;
    }
  }
}
