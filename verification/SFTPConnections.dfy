/** One SFTP version 3 connection: a window of read requests whose replies may come back in
    any order and may be short. */
module SFTPConnections {
  import opened Bytes
  import opened Wrappers

  const CHUNK := 32768
  const WINDOW := 16
  const IDS := 0x1_0000_0000

  /** Identifiers wrap around. */
  function NextID(id: nat): nat { if id == IDS - 1 then 0 else id + 1 }

  datatype Request = Request(offset: nat, count: nat)

  datatype Reply = Contents(data: Data) | Status(code: nat)

  const END_OF_FILE := 1

  datatype Failure = Broken | Unknown | TooMany | Refused(code: nat) | SourceChanged

  /** What an honest server may answer: the end of the file at or past it, and otherwise some
      of the bytes there, at least one and no more than were asked for. */
  predicate Honest(file: Data, q: Request, r: Reply) {
    match r
    case Status(code) => code == END_OF_FILE && q.offset >= |file|
    case Contents(data) =>
      0 < |data| <= q.count && q.offset + |data| <= |file| && data == file[q.offset..q.offset + |data|]
  }

  /** The far end and the channel to it. It chooses which request to answer next and how
      much to return; `failed` records that something went wrong: a timeout, a lost
      connection, a cancellation, or a request the server refused. */
  class Transport {
    const file: Data
    var unanswered: map<nat, Request>
    var failed: bool

    constructor (file: Data)
      ensures this.file == file && unanswered == map[] && !failed
    {
      this.file := file;
      unanswered, failed := map[], false;
    }

    method CheckCancellation() returns (ok: bool)
      modifies this`failed
      ensures ok ==> failed == old(failed)
      ensures !ok ==> failed
    {
      ok := true;
      if * { ok, failed := false, true; }
    }

    method Write(id: nat, q: Request) returns (ok: bool)
      modifies this
      ensures ok ==> failed == old(failed) && unanswered == old(unanswered)[id := q]
      ensures !ok ==> failed && unanswered == old(unanswered)
    {
      ok := true;
      if * {
        ok, failed := false, true;
      } else {
        unanswered := unanswered[id := q];
      }
    }

    method ReadPacket() returns (packet: Option<(nat, Reply)>)
      modifies this
      ensures old(failed) ==> failed
      ensures packet.None? ==> failed && unanswered == old(unanswered)
      ensures packet.Some? ==>
        var (id, reply) := packet.value;
        && id in old(unanswered) && unanswered == old(unanswered) - {id}
        && Acceptable(file, old(unanswered)[id], reply, failed)
    {
      var lost: bool, refused: bool := *, *;
      if lost || unanswered == map[] {
        failed := true;
        return None;
      }
      var id :| id in unanswered;
      var q := unanswered[id];
      unanswered := unanswered - {id};
      if refused || q.count == 0 {
        var code :| code > END_OF_FILE;
        failed := true;
        return Some((id, Status(code)));
      }
      if q.offset >= |file| { return Some((id, Status(END_OF_FILE))); }
      var most := if q.offset + q.count <= |file| then q.count else |file| - q.offset;
      var count :| 1 <= count <= most;
      return Some((id, Contents(file[q.offset..q.offset + count])));
    }
  }

  predicate Acceptable(file: Data, q: Request, r: Reply, failed: bool) {
    Honest(file, q, r) || (failed && r.Status? && r.code > END_OF_FILE)
  }

  /** A connection's requests as values. */
  datatype Requests = Requests(
    unanswered: map<nat, Request>, outstanding: set<nat>, buffered: map<nat, Reply>, asked: map<nat, Request>)

  /** An outstanding request is either still unanswered or set aside, not both. */
  predicate IdOk(file: Data, failed: bool, s: Requests, id: nat) {
    && (id in s.outstanding <==> id in s.asked)
    && (id in s.outstanding <==> id in s.unanswered || id in s.buffered)
    && (id in s.unanswered ==> id !in s.buffered && s.asked[id] == s.unanswered[id])
    && (id in s.buffered ==> Acceptable(file, s.asked[id], s.buffered[id], failed))
  }

  ghost predicate Consistent(file: Data, failed: bool, s: Requests) {
    |s.outstanding| <= WINDOW && forall id: nat :: IdOk(file, failed, s, id)
  }

  function Sends(s: Requests, id: nat, q: Request): Requests {
    Requests(s.unanswered[id := q], s.outstanding + {id}, s.buffered, s.asked[id := q])
  }

  function Arrives(s: Requests, id: nat, reply: Reply): Requests {
    s.(unanswered := s.unanswered - {id}, buffered := s.buffered[id := reply])
  }

  function Hands(s: Requests, id: nat): Requests {
    Requests(s.unanswered, s.outstanding - {id}, s.buffered - {id}, s.asked - {id})
  }

  lemma SendsOk(file: Data, failed: bool, s: Requests, id: nat, q: Request)
    requires Consistent(file, failed, s) && id !in s.outstanding && |s.outstanding| < WINDOW
    ensures Consistent(file, failed, Sends(s, id, q))
  {
    forall other: nat ensures IdOk(file, failed, Sends(s, id, q), other) { assert IdOk(file, failed, s, other); }
  }

  lemma ArrivesOk(file: Data, failed: bool, failed': bool, s: Requests, id: nat, reply: Reply)
    requires Consistent(file, failed, s) && (failed ==> failed')
    requires id in s.unanswered && Acceptable(file, s.unanswered[id], reply, failed')
    ensures id in s.outstanding && id !in s.buffered
    ensures Consistent(file, failed', Arrives(s, id, reply))
  {
    assert IdOk(file, failed, s, id);
    forall other: nat ensures IdOk(file, failed', Arrives(s, id, reply), other) { assert IdOk(file, failed, s, other); }
  }

  lemma HandsOk(file: Data, failed: bool, s: Requests, id: nat)
    requires Consistent(file, failed, s) && id in s.buffered
    ensures Consistent(file, failed, Hands(s, id))
  {
    assert IdOk(file, failed, s, id);
    forall other: nat ensures IdOk(file, failed, Hands(s, id), other) { assert IdOk(file, failed, s, other); }
  }

  lemma FailureKeeps(file: Data, s: Requests, failed: bool)
    requires Consistent(file, failed, s)
    ensures Consistent(file, true, s)
  {
    forall id: nat ensures IdOk(file, true, s, id) { assert IdOk(file, failed, s, id); }
  }

  class SFTPConnection {
    const transport: Transport
    var nextID: nat
    var outstanding: set<nat>
    var buffered: map<nat, Reply>
    /** What each outstanding request asked for. */
    ghost var asked: map<nat, Request>

    ghost function View(): Requests
      reads this, transport
    {
      Requests(transport.unanswered, outstanding, buffered, asked)
    }

    ghost predicate Valid()
      reads this, transport
    {
      nextID < IDS && Consistent(transport.file, transport.failed, View())
    }

    constructor (transport: Transport)
      requires transport.unanswered == map[]
      ensures Valid() && this.transport == transport && outstanding == {} && nextID == 1
    {
      this.transport := transport;
      nextID, outstanding, buffered, asked := 1, {}, map[], map[];
    }

    method SendRequest(q: Request) returns (r: Result<nat, Failure>)
      requires Valid() && nextID !in outstanding
      modifies this, transport
      ensures Valid() && (old(transport.failed) ==> transport.failed)
      ensures r.Ok? ==>
        && r.value == old(nextID) && nextID == NextID(old(nextID))
        && outstanding == old(outstanding) + {r.value} && asked == old(asked)[r.value := q]
        && transport.failed == old(transport.failed)
      ensures r.Err? ==> transport.failed || |old(outstanding)| == WINDOW
    {
      ghost var failed := transport.failed;
      FailureKeeps(transport.file, View(), failed);
      var ok := transport.CheckCancellation();
      if !ok { return Err(Broken); }
      if |outstanding| >= WINDOW { return Err(TooMany); }
      var id := nextID;
      SendsOk(transport.file, transport.failed, View(), id, q);
      nextID := NextID(nextID);
      ok := transport.Write(id, q);
      if !ok { return Err(Broken); }
      outstanding := outstanding + {id};
      asked := asked[id := q];
      return Ok(id);
    }

    /** One packet from the server, set aside until it is asked for. */
    method BufferReply() returns (ok: bool)
      requires Valid()
      modifies this`buffered, transport
      ensures Valid() && (old(transport.failed) ==> transport.failed)
      ensures ok ==> |transport.unanswered| < |old(transport.unanswered)|
      ensures !ok ==> transport.failed
    {
      ghost var before, failed := View(), transport.failed;
      FailureKeeps(transport.file, before, failed);
      var packet := transport.ReadPacket();
      if packet.None? { return false; }
      var (id, reply) := packet.value;
      ArrivesOk(transport.file, failed, transport.failed, before, id, reply);
      assert before.unanswered.Keys == transport.unanswered.Keys + {id};
      if id !in outstanding || id in buffered { return false; }
      buffered := buffered[id := reply];
      return true;
    }

    /** Sets aside the replies to other requests until the one to `id` is there. */
    method ReceiveReply(id: nat) returns (r: Result<Reply, Failure>)
      requires Valid()
      modifies this, transport
      ensures Valid() && nextID == old(nextID) && (old(transport.failed) ==> transport.failed)
      ensures r.Ok? ==>
        && id in old(outstanding) && id in old(asked)
        && outstanding == old(outstanding) - {id} && asked == old(asked) - {id}
        && Acceptable(transport.file, old(asked)[id], r.value, transport.failed)
      ensures r.Err? ==> transport.failed || id !in old(outstanding)
    {
      FailureKeeps(transport.file, View(), transport.failed);
      var ok := transport.CheckCancellation();
      if !ok { return Err(Broken); }
      assert IdOk(transport.file, transport.failed, View(), id);
      if id !in outstanding { return Err(Unknown); }
      while id !in buffered
        invariant Valid() && nextID == old(nextID) && outstanding == old(outstanding) && asked == old(asked)
        invariant old(transport.failed) ==> transport.failed
        decreases |transport.unanswered|
      {
        var more := BufferReply();
        if !more { return Err(Broken); }
      }
      HandsOk(transport.file, transport.failed, View(), id);
      assert IdOk(transport.file, transport.failed, View(), id);
      outstanding := outstanding - {id};
      asked := asked - {id};
      r := Ok(buffered[id]);
      buffered := buffered - {id};
    }

    /** Nothing at the end of the file; otherwise at least one of the bytes asked for. */
    method ReceiveRead(id: nat, count: nat) returns (r: Result<Option<Data>, Failure>)
      requires Valid() && id in asked && asked[id].count == count
      modifies this, transport
      ensures Valid() && nextID == old(nextID) && (old(transport.failed) ==> transport.failed)
      ensures r.Ok? ==>
        && outstanding == old(outstanding) - {id} && asked == old(asked) - {id}
        && Honest(transport.file, old(asked)[id], if r.value.Some? then Contents(r.value.value) else Status(END_OF_FILE))
      ensures r.Err? ==> transport.failed
    {
      assert IdOk(transport.file, transport.failed, View(), id);
      var reply := ReceiveReply(id);
      if reply.Err? { return Err(reply.error); }
      match reply.value
      case Status(code) => return if code == END_OF_FILE then Ok(None) else Err(Refused(code));
      case Contents(data) => return if 0 < |data| <= count then Ok(Some(data)) else Err(Unknown);
    }

    method ReadFile(offset: nat, count: nat) returns (r: Result<Option<Data>, Failure>)
      requires Valid() && outstanding == {}
      modifies this, transport
      ensures Valid() && (old(transport.failed) ==> transport.failed)
      ensures r.Ok? ==>
        && outstanding == {}
        && Honest(transport.file, Request(offset, count), if r.value.Some? then Contents(r.value.value) else Status(END_OF_FILE))
      ensures r.Err? ==> transport.failed
    {
      var id := SendRequest(Request(offset, count));
      if id.Err? { return Err(id.error); }
      r := ReceiveRead(id.value, count);
    }
  }
}
