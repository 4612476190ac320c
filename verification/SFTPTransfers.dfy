/** Reading a remote file through a window of requests, into memory or into a local file. */
module SFTPTransfers {
  import opened Bytes
  import opened Wrappers
  import opened SFTPConnections

  // ---- One window ----

  datatype Ask = Ask(id: nat, position: nat, count: nat)

  function Min(a: nat, b: nat): nat { if a < b then a else b }

  function IdAt(first: nat, k: nat): nat { if k == 0 then first else NextID(IdAt(first, k - 1)) }

  /** Consecutive requests from `start` on, none past `limit`, each a chunk but the last. */
  predicate AskOk(a: Ask, first: nat, start: nat, limit: nat, k: nat) {
    && a.id == IdAt(first, k)
    && a.position == start + k * CHUNK < limit
    && a.count == Min(CHUNK, limit - a.position)
  }

  predicate WindowOk(window: seq<Ask>, first: nat, start: nat, limit: nat) {
    && |window| <= WINDOW && start <= limit
    && forall k :: 0 <= k < |window| ==> AskOk(window[k], first, start, limit, k)
  }

  function Reach(start: nat, limit: nat, n: nat): nat { Min(start + n * CHUNK, limit) }

  ghost function Ids(window: seq<Ask>): set<nat> { set k | 0 <= k < |window| :: window[k].id }

  lemma {:induction false} IdIs(first: nat, k: nat)
    requires first < IDS && k <= WINDOW
    ensures IdAt(first, k) == if first + k < IDS then first + k else first + k - IDS
  {
    if k > 0 { IdIs(first, k - 1); }
  }

  lemma IdsDiffer(first: nat, j: nat, k: nat)
    requires first < IDS && j < k <= WINDOW
    ensures IdAt(first, j) != IdAt(first, k)
  {
    IdIs(first, j);
    IdIs(first, k);
  }

  lemma NextIdIsNew(window: seq<Ask>, first: nat, start: nat, limit: nat)
    requires first < IDS && WindowOk(window, first, start, limit) && |window| < WINDOW
    ensures IdAt(first, |window|) !in Ids(window)
  {
    forall k | 0 <= k < |window| ensures window[k].id != IdAt(first, |window|) {
      assert AskOk(window[k], first, start, limit, k);
      IdsDiffer(first, k, |window|);
    }
  }

  lemma IdsGrow(window: seq<Ask>, a: Ask)
    ensures Ids(window + [a]) == Ids(window) + {a.id}
  {
    var longer := window + [a];
    forall id ensures id in Ids(longer) <==> id in Ids(window) + {a.id} {
      if id in Ids(window) {
        var k :| 0 <= k < |window| && window[k].id == id;
        assert longer[k].id == id;
      }
      if id == a.id { assert longer[|window|].id == id; }
    }
  }

  lemma IdsShrink(window: seq<Ask>, first: nat, start: nat, limit: nat, k: nat)
    requires first < IDS && WindowOk(window, first, start, limit) && k < |window|
    ensures Ids(window[k..]) == {window[k].id} + Ids(window[k + 1..]) && window[k].id !in Ids(window[k + 1..])
  {
    var rest := window[k + 1..];
    forall j | 0 <= j < |rest| ensures rest[j].id != window[k].id {
      assert AskOk(window[k], first, start, limit, k) && AskOk(window[k + 1 + j], first, start, limit, k + 1 + j);
      IdsDiffer(first, k, k + 1 + j);
    }
    forall id ensures id in Ids(window[k..]) <==> id in {window[k].id} + Ids(rest) {
      if id == window[k].id { assert window[k..][0].id == id; }
      if id in Ids(rest) {
        var j :| 0 <= j < |rest| && rest[j].id == id;
        assert window[k..][j + 1].id == id;
      }
      if id in Ids(window[k..]) && id != window[k].id {
        var j :| 0 <= j < |window[k..]| && window[k..][j].id == id;
        assert rest[j - 1].id == id;
      }
    }
  }

  /** The connection waits for exactly the replies to these requests. */
  ghost predicate Awaits(outstanding: set<nat>, asked: map<nat, Request>, window: seq<Ask>) {
    && outstanding == Ids(window)
    && forall a <- window :: a.id in asked && asked[a.id] == Request(a.position, a.count)
  }

  lemma AwaitsGrows(outstanding: set<nat>, asked: map<nat, Request>, window: seq<Ask>, a: Ask)
    requires Awaits(outstanding, asked, window) && a.id !in outstanding
    ensures Awaits(outstanding + {a.id}, asked[a.id := Request(a.position, a.count)], window + [a])
  {
    IdsGrow(window, a);
    forall b <- window + [a]
      ensures b == a || (b.id != a.id && b.id in asked && asked[b.id] == Request(b.position, b.count))
    {
      if b in window { assert b.id in Ids(window); }
    }
  }

  lemma AwaitsShrinks(outstanding: set<nat>, asked: map<nat, Request>, window: seq<Ask>, first: nat, start: nat, limit: nat, k: nat)
    requires first < IDS && WindowOk(window, first, start, limit) && k < |window|
    requires Awaits(outstanding, asked, window[k..])
    ensures window[k].id in asked && asked[window[k].id] == Request(window[k].position, window[k].count)
    ensures Awaits(outstanding - {window[k].id}, asked - {window[k].id}, window[k + 1..])
  {
    IdsShrink(window, first, start, limit, k);
    assert window[k..][0] == window[k] && window[k] in window[k..];
    forall a <- window[k + 1..] ensures a in window[k..] && a.id != window[k].id {
      var j :| 0 <= j < |window[k + 1..]| && window[k + 1..][j] == a;
      assert window[k..][j + 1] == a;
      assert a.id in Ids(window[k + 1..]);
    }
  }

  lemma WindowGrows(window: seq<Ask>, first: nat, start: nat, limit: nat)
    requires WindowOk(window, first, start, limit) && |window| < WINDOW && start + |window| * CHUNK < limit
    ensures var at := start + |window| * CHUNK;
            WindowOk(window + [Ask(IdAt(first, |window|), at, Min(CHUNK, limit - at))], first, start, limit)
  {
  }

  function NextAsk(window: seq<Ask>, first: nat, start: nat, limit: nat): Ask
    requires start + |window| * CHUNK <= limit
  {
    var at := start + |window| * CHUNK;
    Ask(IdAt(first, |window|), at, Min(CHUNK, limit - at))
  }

  lemma NextFits(outstanding: set<nat>, asked: map<nat, Request>, window: seq<Ask>, first: nat, start: nat, limit: nat)
    requires first < IDS && WindowOk(window, first, start, limit) && |window| < WINDOW && start + |window| * CHUNK < limit
    requires Awaits(outstanding, asked, window)
    ensures var ask := NextAsk(window, first, start, limit);
            && ask.id !in outstanding && |outstanding| < WINDOW && NextID(ask.id) == IdAt(first, |window| + 1)
            && WindowOk(window + [ask], first, start, limit)
            && Awaits(outstanding + {ask.id}, asked[ask.id := Request(ask.position, ask.count)], window + [ask])
  {
    NextIdIsNew(window, first, start, limit);
    IdsAreFew(window);
    AwaitsGrows(outstanding, asked, window, NextAsk(window, first, start, limit));
    WindowGrows(window, first, start, limit);
  }

  /** One more request of the window. */
  method EnqueueNext(c: SFTPConnection, window: seq<Ask>, requested: nat, ghost first: nat, ghost start: nat, limit: nat)
    returns (r: Result<Ask, Failure>)
    requires c.Valid() && first < IDS && WindowOk(window, first, start, limit) && |window| < WINDOW
    requires Awaits(c.outstanding, c.asked, window) && c.nextID == IdAt(first, |window|)
    requires requested == start + |window| * CHUNK < limit
    modifies c, c.transport
    ensures c.Valid() && (old(c.transport.failed) ==> c.transport.failed)
    ensures r.Ok? ==> r.value == NextAsk(window, first, start, limit) && c.nextID == IdAt(first, |window| + 1)
    ensures r.Ok? ==> WindowOk(window + [r.value], first, start, limit) && Awaits(c.outstanding, c.asked, window + [r.value])
    ensures r.Err? ==> c.transport.failed
  {
    var count := Min(CHUNK, limit - requested);
    NextFits(c.outstanding, c.asked, window, first, start, limit);
    var id := c.SendRequest(Request(requested, count));
    if id.Err? { return Err(id.error); }
    return Ok(Ask(id.value, requested, count));
  }

  method EnqueueWindow(c: SFTPConnection, start: nat, limit: nat) returns (r: Result<seq<Ask>, Failure>)
    requires c.Valid() && c.outstanding == {} && start < limit
    modifies c, c.transport
    ensures c.Valid() && (old(c.transport.failed) ==> c.transport.failed)
    ensures r.Ok? ==> |r.value| > 0 && WindowOk(r.value, old(c.nextID), start, limit) && Awaits(c.outstanding, c.asked, r.value)
    ensures r.Err? ==> c.transport.failed
  {
    var window: seq<Ask>, requested := [], start;
    ghost var first := c.nextID;
    while |window| < WINDOW && requested < limit
      invariant c.Valid() && (old(c.transport.failed) ==> c.transport.failed)
      invariant WindowOk(window, first, start, limit) && Awaits(c.outstanding, c.asked, window)
      invariant requested == Reach(start, limit, |window|) && c.nextID == IdAt(first, |window|)
      decreases WINDOW - |window|
    {
      var ask := EnqueueNext(c, window, requested, first, start, limit);
      if ask.Err? { return Err(ask.error); }
      window := window + [ask.value];
      requested := requested + ask.value.count;
    }
    return Ok(window);
  }

  lemma {:induction false} IdsAreFew(window: seq<Ask>)
    ensures |Ids(window)| <= |window|
  {
    if window != [] {
      var front, last := window[..|window| - 1], window[|window| - 1];
      IdsAreFew(front);
      assert window == front + [last];
      IdsGrow(front, last);
    }
  }

  // ---- Replies to one window ----

  /** Some of the bytes a request asked for, from its first one on. */
  predicate Partial(file: Data, a: Ask, data: Data) {
    0 < |data| <= a.count && a.position + |data| <= |file| && data == file[a.position..a.position + |data|]
  }

  method ReceiveNext(c: SFTPConnection, window: seq<Ask>, ghost first: nat, ghost start: nat, ghost limit: nat, k: nat)
    returns (r: Result<Data, Failure>)
    requires c.Valid() && first < IDS && WindowOk(window, first, start, limit) && k < |window|
    requires Awaits(c.outstanding, c.asked, window[k..])
    modifies c, c.transport
    ensures c.Valid() && (old(c.transport.failed) ==> c.transport.failed)
    ensures r.Ok? ==> Partial(c.transport.file, window[k], r.value) && Awaits(c.outstanding, c.asked, window[k + 1..])
    ensures r.Err? ==> c.transport.failed || limit > |c.transport.file|
  {
    assert AskOk(window[k], first, start, limit, k);
    AwaitsShrinks(c.outstanding, c.asked, window, first, start, limit, k);
    var bytes := c.ReceiveRead(window[k].id, window[k].count);
    if bytes.Err? { return Err(bytes.error); }
    if bytes.value.None? { return Err(SourceChanged); }
    return Ok(bytes.value.value);
  }

  method ReceiveWindow(c: SFTPConnection, window: seq<Ask>, ghost first: nat, ghost start: nat, ghost limit: nat)
    returns (r: Result<seq<Data>, Failure>)
    requires c.Valid() && first < IDS && WindowOk(window, first, start, limit) && Awaits(c.outstanding, c.asked, window)
    modifies c, c.transport
    ensures c.Valid() && (old(c.transport.failed) ==> c.transport.failed)
    ensures r.Ok? ==> c.outstanding == {} && |r.value| == |window|
    ensures r.Ok? ==> forall k :: 0 <= k < |window| ==> Partial(c.transport.file, window[k], r.value[k])
    ensures r.Err? ==> c.transport.failed || limit > |c.transport.file|
  {
    var replies: seq<Data> := [];
    assert window[0..] == window;
    for k := 0 to |window|
      invariant c.Valid() && (old(c.transport.failed) ==> c.transport.failed)
      invariant Awaits(c.outstanding, c.asked, window[k..])
      invariant |replies| == k && forall j :: 0 <= j < k ==> Partial(c.transport.file, window[j], replies[j])
    {
      var bytes := ReceiveNext(c, window, first, start, limit, k);
      if bytes.Err? { return Err(bytes.error); }
      replies := replies + [bytes.value];
    }
    return Ok(replies);
  }

  /** Asks again for what a short reply left out. */
  method Fill(c: SFTPConnection, position: nat, count: nat, begun: Data) returns (r: Result<Data, Failure>)
    requires c.Valid() && c.outstanding == {}
    requires Partial(c.transport.file, Ask(0, position, count), begun)
    modifies c, c.transport
    ensures c.Valid() && (old(c.transport.failed) ==> c.transport.failed)
    ensures r.Ok? ==> c.outstanding == {} && position + count <= |c.transport.file|
    ensures r.Ok? ==> r.value == c.transport.file[position..position + count]
    ensures r.Err? ==> c.transport.failed || position + count > |c.transport.file|
  {
    ghost var file := c.transport.file;
    var bytes := begun;
    while |bytes| < count
      invariant c.Valid() && c.outstanding == {} && (old(c.transport.failed) ==> c.transport.failed)
      invariant Partial(file, Ask(0, position, count), bytes)
      decreases count - |bytes|
    {
      var tail := c.ReadFile(position + |bytes|, count - |bytes|);
      if tail.Err? { return Err(tail.error); }
      if tail.value.None? { return Err(SourceChanged); }
      assert bytes + tail.value.value == file[position..position + |bytes| + |tail.value.value|];
      bytes := bytes + tail.value.value;
    }
    return Ok(bytes);
  }

  // ---- Into memory ----

  method CollectWindow(c: SFTPConnection, window: seq<Ask>, replies: seq<Data>, ghost first: nat, ghost start: nat, ghost limit: nat)
    returns (r: Result<Data, Failure>)
    requires c.Valid() && c.outstanding == {} && WindowOk(window, first, start, limit) && |replies| == |window|
    requires start <= |c.transport.file|
    requires forall k :: 0 <= k < |window| ==> Partial(c.transport.file, window[k], replies[k])
    modifies c, c.transport
    ensures c.Valid() && (old(c.transport.failed) ==> c.transport.failed)
    ensures r.Ok? ==> c.outstanding == {} && Reach(start, limit, |window|) <= |c.transport.file|
    ensures r.Ok? ==> r.value == c.transport.file[start..Reach(start, limit, |window|)]
    ensures r.Err? ==> c.transport.failed || limit > |c.transport.file|
  {
    ghost var file := c.transport.file;
    var data: Data := [];
    for k := 0 to |window|
      invariant c.Valid() && c.outstanding == {} && (old(c.transport.failed) ==> c.transport.failed)
      invariant Reach(start, limit, k) <= |file| && data == file[start..Reach(start, limit, k)]
    {
      assert AskOk(window[k], first, start, limit, k);
      var bytes := Fill(c, window[k].position, window[k].count, replies[k]);
      if bytes.Err? { return Err(bytes.error); }
      assert data + bytes.value == file[start..Reach(start, limit, k + 1)];
      data := data + bytes.value;
    }
    return Ok(data);
  }

  /** One window from `start` on, with whatever its replies left out. */
  method ReadWindow(c: SFTPConnection, start: nat, limit: nat) returns (r: Result<Data, Failure>)
    requires c.Valid() && c.outstanding == {} && start < limit
    modifies c, c.transport
    ensures c.Valid() && (old(c.transport.failed) ==> c.transport.failed)
    ensures r.Ok? ==> c.outstanding == {} && 0 < |r.value| && start + |r.value| <= limit && start + |r.value| <= |c.transport.file|
    ensures r.Ok? ==> r.value == c.transport.file[start..start + |r.value|]
    ensures r.Err? ==> c.transport.failed || limit > |c.transport.file|
  {
    ghost var first := c.nextID;
    var window := EnqueueWindow(c, start, limit);
    if window.Err? { return Err(window.error); }
    var replies := ReceiveWindow(c, window.value, first, start, limit);
    if replies.Err? { return Err(replies.error); }
    assert AskOk(window.value[0], first, start, limit, 0) && Partial(c.transport.file, window.value[0], replies.value[0]);
    r := CollectWindow(c, window.value, replies.value, first, start, limit);
  }

  function Expected(size: nat, offset: nat, length: nat): nat {
    if offset >= size then 0 else Min(length, size - offset)
  }

  /** The requested range of a file of which `size` bytes are known to exist: exactly its
      bytes whatever the order and length of the replies, or an error, and unless something
      failed on the way an error only if the file is shorter. No request stays behind. */
  method ReadRange(c: SFTPConnection, size: nat, offset: nat, length: nat) returns (r: Result<Data, Failure>)
    requires c.Valid() && c.outstanding == {}
    modifies c, c.transport
    ensures c.Valid()
    ensures var expected, file := Expected(size, offset, length), c.transport.file;
            && (r.Ok? ==> c.outstanding == {} && (expected > 0 ==> offset + expected <= |file|)
                          && r.value == if expected > 0 then file[offset..offset + expected] else [])
            && (!c.transport.failed ==> (r.Ok? <==> expected == 0 || offset + expected <= |file|))
  {
    ghost var file := c.transport.file;
    var data: Data, expected := [], Expected(size, offset, length);
    while |data| < expected
      invariant c.Valid() && c.outstanding == {} && |data| <= expected
      invariant data != [] ==> offset + |data| <= |file| && data == file[offset..offset + |data|]
      decreases expected - |data|
    {
      var bytes := ReadWindow(c, offset + |data|, offset + expected);
      if bytes.Err? { return Err(bytes.error); }
      data := data + bytes.value;
    }
    return Ok(data);
  }
}
