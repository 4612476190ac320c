/** Listing a remote directory through a window of requests: pages are handed out in the
    order the server gets to the requests, which is not the order they were sent in. */
module SFTPListings {
  import opened Bytes
  import opened Wrappers
  import opened SFTPConnections

  const AHEAD := 8
  const MAXIMUM_ENTRIES := 100000
  const MAXIMUM_CHILD := 255
  const DOT: Data := [46]
  const DOTS: Data := [46, 46]
  const SLASH: Byte := 47

  /** One opaque value stands for the attributes. */
  datatype Entry = Entry(name: Data, attributes: int)

  datatype Page = Ended | Names(entries: seq<Entry>)

  // ---- What a listing is ----

  predicate IsDot(e: Entry) { e.name == DOT || e.name == DOTS }

  predicate ValidChild(name: Data) {
    name != [] && name != DOT && name != DOTS && SLASH !in name && 0 !in name && |name| <= MAXIMUM_CHILD
  }

  function Shown(entries: seq<Entry>): seq<Entry> {
    if entries == [] then []
    else
      var last := entries[|entries| - 1];
      Shown(entries[..|entries| - 1]) + if IsDot(last) then [] else [last]
  }

  /** Safe names, each once. */
  predicate Clean(entries: seq<Entry>) {
    && (forall i :: 0 <= i < |entries| ==> ValidChild(entries[i].name))
    && (forall i, j :: 0 <= i < j < |entries| ==> entries[i].name != entries[j].name)
  }

  /** The same, whatever the order. */
  ghost predicate Neat(m: multiset<Entry>) {
    && (forall e <- m :: ValidChild(e.name) && m[e] == 1)
    && (forall e <- m, f <- m :: e != f ==> e.name != f.name)
  }

  predicate Listable(entries: seq<Entry>) { |entries| <= MAXIMUM_ENTRIES && Clean(Shown(entries)) }

  /** In some order, what a directory shows. */
  ghost predicate IsListing(result: seq<Entry>, entries: seq<Entry>) {
    Clean(result) && multiset(result) == multiset(Shown(entries))
  }

  lemma CleanGrows(entries: seq<Entry>, e: Entry)
    ensures Clean(entries + [e]) <==> Clean(entries) && ValidChild(e.name) && forall f <- entries :: f.name != e.name
  {
    var longer := entries + [e];
    assert forall i :: 0 <= i < |entries| ==> longer[i] == entries[i];
    assert longer[|entries|] == e;
    if Clean(longer) {
      forall f <- entries ensures f.name != e.name {
        var i :| 0 <= i < |entries| && entries[i] == f;
        assert longer[i].name != longer[|entries|].name;
      }
    }
  }

  lemma NeatShrinks(m: multiset<Entry>, e: Entry)
    requires Neat(m + multiset{e})
    ensures Neat(m) && ValidChild(e.name) && forall f <- m :: f.name != e.name
  {
    var larger := m + multiset{e};
    assert e in larger && larger[e] == m[e] + 1;
    forall f <- m ensures f in larger && f != e && m[f] == 1 && f.name != e.name {
      assert larger[f] >= m[f];
    }
  }

  lemma NeatGrows(m: multiset<Entry>, e: Entry)
    requires Neat(m) && ValidChild(e.name) && forall f <- m :: f.name != e.name
    ensures Neat(m + multiset{e})
  {
    forall f <- m + multiset{e} ensures ValidChild(f.name) && (m + multiset{e})[f] == 1 {
      assert f == e || f in m;
    }
  }

  lemma {:induction false} CleanIsNeat(entries: seq<Entry>)
    ensures Clean(entries) <==> Neat(multiset(entries))
  {
    if entries != [] {
      var front, last := entries[..|entries| - 1], entries[|entries| - 1];
      CleanIsNeat(front);
      CleanGrows(front, last);
      assert entries == front + [last];
      assert multiset(entries) == multiset(front) + multiset{last};
      assert forall e :: e in front <==> e in multiset(front);
      if Neat(multiset(entries)) { NeatShrinks(multiset(front), last); }
      if Clean(entries) { NeatGrows(multiset(front), last); }
    }
  }

  lemma {:induction false} ShownCounts(entries: seq<Entry>, e: Entry)
    ensures multiset(Shown(entries))[e] == if IsDot(e) then 0 else multiset(entries)[e]
  {
    if entries != [] {
      var front, last := entries[..|entries| - 1], entries[|entries| - 1];
      ShownCounts(front, e);
      assert entries == front + [last];
    }
  }

  lemma ShownSnoc(entries: seq<Entry>, e: Entry)
    ensures Shown(entries + [e]) == Shown(entries) + if IsDot(e) then [] else [e]
  {
    assert (entries + [e])[..|entries|] == entries;
  }

  /** A part of a listable directory is in order, and all of it exactly if the directory is. */
  lemma PartOfListing(part: seq<Entry>, entries: seq<Entry>)
    requires multiset(part) <= multiset(entries)
    ensures Clean(Shown(entries)) ==> Clean(Shown(part))
    ensures multiset(part) == multiset(entries) ==> multiset(Shown(part)) == multiset(Shown(entries))
    ensures multiset(part) == multiset(entries) ==> (Clean(Shown(entries)) <==> Clean(Shown(part)))
  {
    forall e ensures multiset(Shown(part))[e] <= multiset(Shown(entries))[e] {
      ShownCounts(part, e);
      ShownCounts(entries, e);
    }
    if multiset(part) == multiset(entries) {
      forall e ensures multiset(Shown(part))[e] == multiset(Shown(entries))[e] {
        ShownCounts(part, e);
        ShownCounts(entries, e);
      }
    }
    CleanIsNeat(Shown(part));
    CleanIsNeat(Shown(entries));
  }

  // ---- The far end ----

  /** The entries on their way in replies to the requests that were sent, in sending order. */
  ghost function Waiting(pending: seq<nat>, served: map<nat, Page>): multiset<Entry> {
    if pending == [] then multiset{}
    else
      var id := pending[0];
      Waiting(pending[1..], served) + if id in served && served[id].Names? then multiset(served[id].entries) else multiset{}
  }

  predicate Increasing(ids: seq<nat>) { forall i, j :: 0 <= i < j < |ids| ==> ids[i] < ids[j] }

  lemma IncreasingSnoc(ids: seq<nat>, id: nat)
    requires Increasing(ids) && forall x <- ids :: x < id
    ensures Increasing(ids + [id])
  {
    forall i | 0 <= i < |ids| ensures ids[i] < id { assert ids[i] in ids; }
  }

  /** The next entries to be handed out, and the rest. */
  lemma PageAndRest(entries: seq<Entry>, handed: nat, count: nat)
    requires handed + count <= |entries|
    ensures multiset(entries[handed..])
         == multiset(entries[handed..handed + count]) + multiset(entries[handed + count..])
  {
    assert entries[handed..] == entries[handed..handed + count] + entries[handed + count..];
  }

  lemma {:induction false} WaitingElsewhere(pending: seq<nat>, served: map<nat, Page>, served': map<nat, Page>)
    requires forall id <- pending :: (id in served <==> id in served') && (id in served ==> served[id] == served'[id])
    ensures Waiting(pending, served) == Waiting(pending, served')
  {
    if pending != [] {
      assert pending[0] in pending;
      forall id <- pending[1..] ensures id in pending {}
      WaitingElsewhere(pending[1..], served, served');
    }
  }

  lemma {:induction false} WaitingServed(pending: seq<nat>, served: map<nat, Page>, id: nat, page: Page)
    requires Increasing(pending) && id in pending && id !in served
    ensures Waiting(pending, served[id := page])
         == Waiting(pending, served) + if page.Names? then multiset(page.entries) else multiset{}
  {
    if pending[0] == id {
      forall k | 1 <= k < |pending| ensures pending[k] != id { assert pending[0] < pending[k]; }
      WaitingElsewhere(pending[1..], served, served[id := page]);
    } else {
      WaitingServed(pending[1..], served, id, page);
    }
  }

  lemma {:induction false} WaitingSent(pending: seq<nat>, served: map<nat, Page>, id: nat)
    requires id !in served
    ensures Waiting(pending + [id], served) == Waiting(pending, served)
  {
    if pending == [] {
      assert pending + [id] == [id];
    } else {
      assert (pending + [id])[1..] == pending[1..] + [id];
      WaitingSent(pending[1..], served, id);
    }
  }

  /** How far the requests for one directory are: `pending` are those without an answer yet,
      in the order they were sent. */
  datatype Reading = Reading(handed: nat, nextID: nat, unserved: set<nat>, served: map<nat, Page>, pending: seq<nat>)

  predicate PageOk(page: Page, handed: nat, size: nat) {
    if page.Ended? then handed == size else page.entries != []
  }

  ghost predicate Sound(size: nat, r: Reading) {
    && r.handed <= size
    && Increasing(r.pending)
    && (forall id <- r.pending :: id < r.nextID && (id in r.unserved || id in r.served))
    && (forall id <- r.unserved :: id in r.pending && id !in r.served)
    && (forall id <- r.served :: id in r.pending && PageOk(r.served[id], r.handed, size))
  }

  /** What the client has not seen yet: entries on their way, and those not handed out. */
  ghost function Unseen(entries: seq<Entry>, r: Reading): multiset<Entry>
    requires r.handed <= |entries|
  {
    Waiting(r.pending, r.served) + multiset(entries[r.handed..])
  }

  ghost function Serves(r: Reading, id: nat, page: Page, handed: nat): Reading {
    r.(unserved := r.unserved - {id}, served := r.served[id := page], handed := handed)
  }

  lemma ServedSound(size: nat, r: Reading, id: nat, page: Page, handed: nat)
    requires Sound(size, r) && id in r.unserved
    requires r.handed <= handed <= size && PageOk(page, handed, size)
    ensures Sound(size, Serves(r, id, page, handed))
  {
    var next := Serves(r, id, page, handed);
    forall x <- next.served ensures x in r.pending && PageOk(next.served[x], handed, size) {
      if x != id { assert x in r.served && PageOk(r.served[x], r.handed, size); }
    }
  }

  lemma EndServed(entries: seq<Entry>, r: Reading, id: nat)
    requires Sound(|entries|, r) && id in r.unserved && r.handed == |entries|
    ensures Sound(|entries|, Serves(r, id, Ended, r.handed))
    ensures Unseen(entries, Serves(r, id, Ended, r.handed)) == Unseen(entries, r)
  {
    ServedSound(|entries|, r, id, Ended, r.handed);
    WaitingServed(r.pending, r.served, id, Ended);
  }

  lemma Regrouped(a: multiset<Entry>, b: multiset<Entry>, c: multiset<Entry>)
    ensures (a + b) + c == a + (b + c)
  {
  }

  lemma PageServed(entries: seq<Entry>, r: Reading, id: nat, count: nat, page: seq<Entry>)
    requires Sound(|entries|, r) && id in r.unserved
    requires 0 < count <= |entries| - r.handed && page == entries[r.handed..r.handed + count]
    ensures Sound(|entries|, Serves(r, id, Names(page), r.handed + count))
    ensures Unseen(entries, Serves(r, id, Names(page), r.handed + count)) == Unseen(entries, r)
  {
    ServedSound(|entries|, r, id, Names(page), r.handed + count);
    var before, after := Waiting(r.pending, r.served), Waiting(r.pending, r.served[id := Names(page)]);
    assert after == before + multiset(page) by { WaitingServed(r.pending, r.served, id, Names(page)); }
    PageAndRest(entries, r.handed, count);
    Regrouped(before, multiset(page), multiset(entries[r.handed + count..]));
  }

  lemma AnswerReceived(entries: seq<Entry>, r: Reading)
    requires Sound(|entries|, r) && r.pending != [] && r.pending[0] in r.served
    ensures var id, page := r.pending[0], r.served[r.pending[0]];
            var r' := r.(served := r.served - {id}, pending := r.pending[1..]);
            && Sound(|entries|, r') && PageOk(page, r.handed, |entries|)
            && Unseen(entries, r) == Unseen(entries, r') + if page.Names? then multiset(page.entries) else multiset{}
  {
    var id, rest := r.pending[0], r.pending[1..];
    forall k | 0 <= k < |rest| ensures rest[k] != id { assert r.pending[0] < r.pending[k + 1]; }
    assert forall x :: x in r.pending <==> x == id || x in rest;
    WaitingElsewhere(rest, r.served, r.served - {id});
  }

  lemma RequestSent(entries: seq<Entry>, r: Reading)
    requires Sound(|entries|, r)
    ensures var r' := r.(unserved := r.unserved + {r.nextID}, pending := r.pending + [r.nextID], nextID := r.nextID + 1);
            Sound(|entries|, r') && Unseen(entries, r') == Unseen(entries, r)
  {
    WaitingSent(r.pending, r.served, r.nextID);
    IncreasingSnoc(r.pending, r.nextID);
  }

  /** An open directory on the server and the connection to it. The server gets to the
      requests in any order and hands out at least one entry to each until there are none
      left; `failed` records that something went wrong. */
  class RemoteDirectory {
    const entries: seq<Entry>
    var handed: nat
    var nextID: nat
    var unserved: set<nat>
    var served: map<nat, Page>
    var failed: bool
    ghost var pending: seq<nat>

    ghost function View(): Reading
      reads this
    {
      Reading(handed, nextID, unserved, served, pending)
    }

    ghost predicate Valid()
      reads this
    {
      Sound(|entries|, View())
    }

    ghost function Left(): multiset<Entry>
      requires Valid()
      reads this
    {
      Unseen(entries, View())
    }

    constructor (entries: seq<Entry>)
      ensures Valid() && this.entries == entries && pending == [] && Left() == multiset(entries) && !failed
    {
      this.entries := entries;
      handed, nextID, unserved, served, failed, pending := 0, 1, {}, map[], false, [];
      new;
      assert entries[0..] == entries;
    }

    method CheckCancellation() returns (ok: bool)
      modifies this`failed
      ensures View() == old(View())
      ensures ok ==> failed == old(failed)
      ensures !ok ==> failed
    {
      ok := true;
      if * { ok, failed := false, true; }
    }

    method SendRead() returns (id: Option<nat>)
      requires Valid() && |pending| < WINDOW
      modifies this
      ensures Valid() && (old(failed) ==> failed) && Left() == old(Left()) && handed == old(handed)
      ensures id.Some? ==> pending == old(pending) + [id.value]
      ensures id.None? ==> failed && pending == old(pending)
    {
      if * { failed := true; return None; }
      RequestSent(entries, View());
      id := Some(nextID);
      unserved, pending, nextID := unserved + {nextID}, pending + [nextID], nextID + 1;
    }

    /** The server has nothing left for a request. */
    method ReportEnd(id: nat)
      requires Valid() && id in unserved && handed == |entries|
      modifies this`unserved, this`served
      ensures Valid() && Left() == old(Left()) && unserved == old(unserved) - {id}
    {
      EndServed(entries, View(), id);
      unserved, served := unserved - {id}, served[id := Ended];
    }

    /** The server hands out some entries. */
    method HandOut(id: nat)
      requires Valid() && id in unserved && handed < |entries|
      modifies this`handed, this`unserved, this`served
      ensures Valid() && Left() == old(Left()) && unserved == old(unserved) - {id} && old(handed) <= handed
    {
      var count: nat :| 1 <= count <= |entries| - handed;
      var page := entries[handed..handed + count];
      PageServed(entries, View(), id, count, page);
      unserved, served, handed := unserved - {id}, served[id := Names(page)], handed + count;
    }

    /** The server gets to one of the requests. */
    method Serve()
      requires Valid() && unserved != {}
      modifies this`handed, this`unserved, this`served
      ensures Valid() && Left() == old(Left()) && old(handed) <= handed
      ensures |unserved| < |old(unserved)|
    {
      var id: nat :| id in unserved;
      assert unserved == (unserved - {id}) + {id};
      if handed == |entries| { ReportEnd(id); } else { HandOut(id); }
    }

    /** The server gets to requests until it has got to this one. */
    method Await(id: nat) returns (ok: bool)
      requires Valid() && id in pending
      modifies this`handed, this`unserved, this`served, this`failed
      ensures Valid() && Left() == old(Left()) && old(handed) <= handed && (old(failed) ==> failed)
      ensures if ok then id in served else failed
    {
      ghost var left := Left();
      while id !in served
        invariant Valid() && pending == old(pending) && failed == old(failed)
        invariant Left() == left && old(handed) <= handed
        decreases |unserved|
      {
        if * { failed := true; return false; }
        Serve();
      }
      return true;
    }

    /** The answer to the oldest request, whatever the server gets to before it. */
    method Receive(id: nat) returns (page: Option<Page>)
      requires Valid() && pending != [] && id == pending[0]
      modifies this
      ensures Valid() && (old(failed) ==> failed) && old(handed) <= handed
      ensures page.None? ==> failed
      ensures page.Some? ==> pending == old(pending)[1..] && PageOk(page.value, handed, |entries|)
      ensures page.Some? ==>
        old(Left()) == Left() + if page.value.Names? then multiset(page.value.entries) else multiset{}
    {
      var ok := Await(id);
      if !ok { return None; }
      AnswerReceived(entries, View());
      page := Some(served[id]);
      served, pending := served - {id}, pending[1..];
    }

    method Close() returns (ok: bool)
      modifies this`failed
      ensures View() == old(View())
      ensures ok ==> failed == old(failed)
      ensures !ok ==> failed
    {
      ok := true;
      if * { ok, failed := false, true; }
    }
  }

  // ---- The listing ----

  function NamesOf(entries: seq<Entry>): set<Data> { set e <- entries :: e.name }

  predicate Collected(result: seq<Entry>, seen: set<Data>, taken: seq<Entry>) {
    result == Shown(taken) && Clean(result) && seen == NamesOf(result)
  }

  lemma EntryJoins(result: seq<Entry>, seen: set<Data>, taken: seq<Entry>, e: Entry)
    requires Collected(result, seen, taken)
    ensures IsDot(e) ==> Collected(result, seen, taken + [e])
    ensures !IsDot(e) && ValidChild(e.name) && e.name !in seen ==> Collected(result + [e], seen + {e.name}, taken + [e])
    ensures !IsDot(e) && (!ValidChild(e.name) || e.name in seen) ==> !Clean(Shown(taken + [e]))
  {
    ShownSnoc(taken, e);
    CleanGrows(result, e);
    assert forall f :: f in result + [e] <==> f in result || f == e;
    assert forall f <- result :: f.name in NamesOf(result);
    assert NamesOf(result + [e]) == NamesOf(result) + {e.name};
  }

  /** The entries of one page join the result, or one of them has no place in it. */
  method TakePage(page: seq<Entry>, result0: seq<Entry>, seen0: set<Data>, ghost taken: seq<Entry>)
    returns (ok: bool, result: seq<Entry>, seen: set<Data>, ghost looked: nat)
    requires Collected(result0, seen0, taken)
    ensures looked <= |page|
    ensures if ok then Collected(result, seen, taken + page) else !Clean(Shown(taken + page[..looked]))
  {
    ok, result, seen, looked := true, result0, seen0, 0;
    assert taken + page[..0] == taken;
    for i := 0 to |page|
      invariant ok && looked == i && Collected(result, seen, taken + page[..i])
    {
      var e := page[i];
      looked := i + 1;
      EntryJoins(result, seen, taken + page[..i], e);
      assert (taken + page[..i]) + [e] == taken + page[..i + 1];
      if e.name == DOT || e.name == DOTS { continue; }
      if !ValidChild(e.name) || e.name in seen {
        ok := false;
        return;
      }
      seen, result := seen + {e.name}, result + [e];
    }
    assert page[..|page|] == page;
  }

  /** The results so far, the pages on their way and the rest make up the directory. */
  ghost predicate Accounted(d: RemoteDirectory, taken: seq<Entry>)
    reads d
  {
    d.Valid() && multiset(taken) + d.Left() == multiset(d.entries)
  }

  lemma TakenIsPart(d: RemoteDirectory, taken: seq<Entry>)
    requires Accounted(d, taken)
    ensures multiset(taken) <= multiset(d.entries) && |taken| <= |d.entries|
  {
    assert |multiset(taken)| + |d.Left()| == |multiset(d.entries)|;
  }

  lemma AllTaken(d: RemoteDirectory, taken: seq<Entry>)
    requires Accounted(d, taken) && d.pending == [] && d.handed == |d.entries|
    requires Clean(Shown(taken)) && |taken| <= MAXIMUM_ENTRIES
    ensures Listable(d.entries) && IsListing(Shown(taken), d.entries)
  {
    assert d.Left() == multiset{};
    assert |multiset(taken)| == |multiset(d.entries)|;
    PartOfListing(taken, d.entries);
  }

  lemma NotListable(before: seq<Entry>, names: seq<Entry>, i: nat, entries: seq<Entry>)
    requires multiset(before + names) <= multiset(entries)
    requires i <= |names| && !Clean(Shown(before + names[..i]))
    ensures !Listable(entries)
  {
    assert before + names == (before + names[..i]) + names[i..];
    PartOfListing(before + names[..i], entries);
  }

  /** One page: it joins the results unless the directory has no listing. */
  method TakeNames(d: RemoteDirectory, names: seq<Entry>, result0: seq<Entry>, seen0: set<Data>, received0: nat,
                   ghost taken: seq<Entry>)
    returns (error: Option<Failure>, result: seq<Entry>, seen: set<Data>, received: nat)
    requires Accounted(d, taken + names) && names != [] && Collected(result0, seen0, taken) && received0 == |taken|
    ensures error.None? ==> Collected(result, seen, taken + names) && received == |taken + names| <= MAXIMUM_ENTRIES
    ensures error.Some? ==> !Listable(d.entries)
  {
    TakenIsPart(d, taken + names);
    result, seen, received := result0, seen0, received0 + |names|;
    if names == [] || received > MAXIMUM_ENTRIES { return Some(TooMany), result, seen, received; }
    var ok;
    ghost var looked;
    ok, result, seen, looked := TakePage(names, result, seen, taken);
    error := if ok then None else Some(Unknown);
    if !ok { NotListable(taken, names, looked, d.entries); }
  }

  /** The oldest answer: the end, or one more page; `added` is what was on it. */
  method TakeAnswer(d: RemoteDirectory, id: nat, result0: seq<Entry>, seen0: set<Data>, received0: nat,
                    ghost taken: seq<Entry>)
    returns (error: Option<Failure>, ended: bool, result: seq<Entry>, seen: set<Data>, received: nat, ghost added: seq<Entry>)
    requires Accounted(d, taken) && d.pending != [] && id == d.pending[0]
    requires Collected(result0, seen0, taken) && received0 == |taken| <= MAXIMUM_ENTRIES
    modifies d
    ensures d.Valid() && (old(d.failed) ==> d.failed) && old(d.handed) <= d.handed
    ensures error.Some? ==> d.failed || !Listable(d.entries)
    ensures error.None? ==>
      && d.pending == old(d.pending)[1..] && Accounted(d, taken + added)
      && Collected(result, seen, taken + added) && received == |taken + added| <= MAXIMUM_ENTRIES
      && if ended then d.handed == |d.entries| && added == [] else added != []
  {
    result, seen, received, added, ended := result0, seen0, received0, [], false;
    var page := d.Receive(id);
    if page.None? {
      error := Some(Broken);
    } else if page.value.Ended? {
      error, ended := None, true;
      assert taken + [] == taken;
    } else {
      added := page.value.entries;
      assert multiset(taken + added) == multiset(taken) + multiset(added);
      error, result, seen, received := TakeNames(d, page.value.entries, result, seen, received, taken);
    }
  }

  /** The requests sent ahead before the first answer is looked at. */
  method SendAhead(d: RemoteDirectory) returns (pending: Option<seq<nat>>)
    requires Accounted(d, []) && d.pending == []
    modifies d
    ensures Accounted(d, []) && (old(d.failed) ==> d.failed)
    ensures pending.Some? ==> d.pending == pending.value && |pending.value| == AHEAD
    ensures pending.None? ==> d.failed
  {
    var ids: seq<nat> := [];
    for ahead := 0 to AHEAD
      invariant Accounted(d, []) && d.pending == ids && |ids| == ahead && (old(d.failed) ==> d.failed)
    {
      var sent := d.SendRead();
      if sent.None? { return None; }
      ids := ids + [sent.value];
    }
    return Some(ids);
  }

  /** The answers in the order of the requests, a new request for each until the end is
      reported, and then what was sent before. */
  method Collect(d: RemoteDirectory, pending0: seq<nat>) returns (r: Result<seq<Entry>, Failure>, ghost taken: seq<Entry>)
    requires Accounted(d, []) && d.pending == pending0 && 0 < |pending0| <= AHEAD
    modifies d
    ensures d.Valid() && (old(d.failed) ==> d.failed)
    ensures r.Ok? ==> Accounted(d, taken) && d.pending == [] && d.handed == |d.entries|
    ensures r.Ok? ==> r.value == Shown(taken) && Clean(r.value) && |taken| <= MAXIMUM_ENTRIES
    ensures r.Err? ==> d.failed || !Listable(d.entries)
  {
    var pending, result: seq<Entry>, seen: set<Data>, received, reachedEnd := pending0, [], {}, 0, false;
    taken := [];
    while pending != []
      invariant Accounted(d, taken) && d.pending == pending && |pending| <= AHEAD && (old(d.failed) ==> d.failed)
      invariant Collected(result, seen, taken) && received == |taken| <= MAXIMUM_ENTRIES && |taken| <= |d.entries|
      invariant if reachedEnd then d.handed == |d.entries| else pending != []
      decreases if reachedEnd then 0 else 1, |d.entries| - |taken|, |pending|
    {
      var error, ended;
      ghost var added;
      error, ended, result, seen, received, added := TakeAnswer(d, pending[0], result, seen, received, taken);
      if error.Some? { return Err(error.value), taken; }
      TakenIsPart(d, taken + added);
      pending, taken, reachedEnd := pending[1..], taken + added, reachedEnd || ended;
      if !reachedEnd {
        var sent := d.SendRead();
        if sent.None? { return Err(Broken), taken; }
        pending := pending + [sent.value];
      }
    }
    return Ok(result), taken;
  }

  /** Everything in the directory but `.` and `..`, each entry once, although the last pages
      may arrive after the end was reported; or an error, and unless something failed on the
      way only for a directory that has no listing. No request stays behind a listing. */
  method Entries(d: RemoteDirectory) returns (r: Result<seq<Entry>, Failure>)
    requires d.Valid() && d.pending == [] && d.Left() == multiset(d.entries)
    modifies d
    ensures d.Valid()
    ensures r.Ok? ==> d.pending == [] && IsListing(r.value, d.entries)
    ensures !d.failed ==> (r.Ok? <==> Listable(d.entries))
  {
    var pending := SendAhead(d);
    if pending.None? { return Err(Broken); }
    ghost var taken;
    r, taken := Collect(d, pending.value);
    if r.Err? { return; }
    AllTaken(d, taken);
    var calm := d.CheckCancellation();
    if !calm { return Err(Broken); }
    var closed := d.Close();
    if !closed { return Err(Broken); }
  }
}
