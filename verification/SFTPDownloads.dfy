/** Downloading a remote file into a local one: replies are written as they come, and what
    short replies left out is filled in once the window is drained. */
module SFTPDownloads {
  import opened Bytes
  import opened Wrappers
  import opened SFTPConnections
  import opened SFTPTransfers

  /** Bytes written one after another from `offset` on. */
  function Overlay(content: map<nat, Byte>, offset: nat, data: Data): map<nat, Byte> {
    if data == [] then content
    else Overlay(content, offset, data[..|data| - 1])[offset + |data| - 1 := data[|data| - 1]]
  }

  lemma {:induction false} OverlayAt(content: map<nat, Byte>, offset: nat, data: Data)
    ensures forall i: nat ::
      && (i in Overlay(content, offset, data) <==> i in content || offset <= i < offset + |data|)
      && (offset <= i < offset + |data| ==> Overlay(content, offset, data)[i] == data[i - offset])
      && (i in content && !(offset <= i < offset + |data|) ==> Overlay(content, offset, data)[i] == content[i])
  {
    if data != [] { OverlayAt(content, offset, data[..|data| - 1]); }
  }

  lemma {:induction false} OverlayTwice(content: map<nat, Byte>, offset: nat, a: Data, b: Data)
    ensures Overlay(Overlay(content, offset, a), offset + |a|, b) == Overlay(content, offset, a + b)
  {
    if b == [] {
      assert a + b == a;
    } else {
      OverlayTwice(content, offset, a, b[..|b| - 1]);
      assert (a + b)[..|a + b| - 1] == a + b[..|b| - 1];
    }
  }

  /** A local file written at positions; a write may take only some of the bytes. */
  class LocalFile {
    var content: map<nat, Byte>
    var failed: bool

    constructor ()
      ensures content == map[] && !failed
    {
      content, failed := map[], false;
    }

    method PWrite(data: Data, offset: nat) returns (count: nat)
      modifies this
      ensures count <= |data| && (old(failed) ==> failed)
      ensures count == 0 && data != [] ==> failed
      ensures content == Overlay(old(content), offset, data[..count])
    {
      count :| count <= |data|;
      if count == 0 && data != [] { failed := true; }
      content := Overlay(content, offset, data[..count]);
    }
  }

  method WriteLocal(f: LocalFile, data: Data, offset: nat) returns (ok: bool)
    modifies f
    ensures old(f.failed) ==> f.failed
    ensures ok ==> f.content == Overlay(old(f.content), offset, data)
    ensures !ok ==> f.failed
  {
    var position := 0;
    assert Overlay(f.content, offset, data[..0]) == f.content;
    while position < |data|
      invariant position <= |data| && (old(f.failed) ==> f.failed)
      invariant f.content == Overlay(old(f.content), offset, data[..position])
      decreases |data| - position
    {
      var count := f.PWrite(data[position..], offset + position);
      if count == 0 { return false; }
      OverlayTwice(old(f.content), offset, data[..position], data[position..][..count]);
      assert data[..position] + data[position..][..count] == data[..position + count];
      position := position + count;
    }
    assert data[..|data|] == data;
    return true;
  }

  // ---- What has been copied ----

  datatype Hole = Hole(position: nat, count: nat)

  predicate Covers(h: Hole, i: nat) { h.position <= i < h.position + h.count }

  predicate Missing(holes: seq<Hole>, i: nat) { exists h <- holes :: Covers(h, i) }

  ghost predicate Faithful(content: map<nat, Byte>, file: Data, upto: nat) {
    forall i <- content :: i < |file| && content[i] == file[i] && i < upto
  }

  predicate Accounted(content: map<nat, Byte>, holes: seq<Hole>, i: nat) { i in content || Missing(holes, i) }

  /** Below `upto` every byte is there or in a hole; what is there is the file's. */
  ghost predicate Copied(content: map<nat, Byte>, file: Data, upto: nat, holes: seq<Hole>) {
    Faithful(content, file, upto) && forall i: nat :: i < upto ==> Accounted(content, holes, i)
  }

  lemma OverlayFaithful(content: map<nat, Byte>, file: Data, upto: nat, position: nat, data: Data, upto': nat)
    requires Faithful(content, file, upto) && upto <= upto' && position + |data| <= |file| && position + |data| <= upto'
    requires data == file[position..position + |data|]
    ensures Faithful(Overlay(content, position, data), file, upto')
  {
    OverlayAt(content, position, data);
  }

  function Total(holes: seq<Hole>): nat { if holes == [] then 0 else holes[0].count + Total(holes[1..]) }

  lemma {:induction false} TotalAppend(holes: seq<Hole>, h: Hole)
    ensures Total(holes + [h]) == Total(holes) + h.count
  {
    if holes != [] {
      TotalAppend(holes[1..], h);
      assert (holes + [h])[1..] == holes[1..] + [h];
    }
  }

  function AfterReply(holes: seq<Hole>, a: Ask, data: Data): seq<Hole>
    requires |data| <= a.count
  {
    if |data| < a.count then holes + [Hole(a.position + |data|, a.count - |data|)] else holes
  }

  lemma ReplyAccounted(content: map<nat, Byte>, holes: seq<Hole>, a: Ask, data: Data, i: nat)
    requires |data| <= a.count && i < a.position + a.count
    requires i < a.position ==> Accounted(content, holes, i)
    ensures Accounted(Overlay(content, a.position, data), AfterReply(holes, a, data), i)
  {
    OverlayAt(content, a.position, data);
    var longer, left := AfterReply(holes, a, data), Hole(a.position + |data|, a.count - |data|);
    if a.position + |data| <= i {
      assert left in longer && Covers(left, i);
    } else if i < a.position && i !in content {
      var h :| h in holes && Covers(h, i);
      assert h in longer;
    }
  }

  lemma ReplyTotal(holes: seq<Hole>, a: Ask, data: Data)
    requires |data| <= a.count
    ensures Total(AfterReply(holes, a, data)) + |data| == Total(holes) + a.count
  {
    TotalAppend(holes, Hole(a.position + |data|, a.count - |data|));
  }

  lemma ReplyCopied(content: map<nat, Byte>, file: Data, holes: seq<Hole>, a: Ask, data: Data)
    requires Copied(content, file, a.position, holes) && Partial(file, a, data)
    ensures Copied(Overlay(content, a.position, data), file, a.position + a.count, AfterReply(holes, a, data))
  {
    var later, longer := Overlay(content, a.position, data), AfterReply(holes, a, data);
    OverlayFaithful(content, file, a.position, a.position, data, a.position + a.count);
    forall i: nat | i < a.position + a.count ensures Accounted(later, longer, i) {
      ReplyAccounted(content, holes, a, data, i);
    }
    assert Copied(later, file, a.position + a.count, longer);
  }

  lemma FillAccounted(content: map<nat, Byte>, h: Hole, holes: seq<Hole>, data: Data, i: nat)
    requires |data| <= h.count && Accounted(content, [h] + holes, i)
    ensures Accounted(Overlay(content, h.position, data), [Hole(h.position + |data|, h.count - |data|)] + holes, i)
  {
    OverlayAt(content, h.position, data);
    var left := Hole(h.position + |data|, h.count - |data|);
    if i !in content && !(h.position <= i < h.position + |data|) {
      var g :| g in [h] + holes && Covers(g, i);
      if g == h {
        assert left in [left] + holes && Covers(left, i);
      } else {
        assert g in [left] + holes;
      }
    }
  }

  lemma FillCopied(content: map<nat, Byte>, file: Data, upto: nat, h: Hole, holes: seq<Hole>, data: Data)
    requires Copied(content, file, upto, [h] + holes) && h.position + h.count <= upto
    requires Partial(file, Ask(0, h.position, h.count), data)
    ensures Copied(Overlay(content, h.position, data), file, upto, [Hole(h.position + |data|, h.count - |data|)] + holes)
  {
    var later, rest := Overlay(content, h.position, data), [Hole(h.position + |data|, h.count - |data|)] + holes;
    OverlayFaithful(content, file, upto, h.position, data, upto);
    forall i: nat | i < upto ensures Accounted(later, rest, i) {
      FillAccounted(content, h, holes, data, i);
    }
  }

  lemma NoHoleLeft(content: map<nat, Byte>, file: Data, upto: nat, h: Hole, holes: seq<Hole>)
    requires Copied(content, file, upto, [h] + holes) && h.count == 0
    ensures Copied(content, file, upto, holes)
  {
    forall i: nat | i < upto ensures Accounted(content, holes, i) {
      assert Accounted(content, [h] + holes, i);
      if i !in content {
        var g :| g in [h] + holes && Covers(g, i);
        assert g in holes;
      }
    }
  }

  predicate Within(holes: seq<Hole>, upto: nat) { forall h <- holes :: h.position + h.count <= upto }

  /** Either the connection or the disk failed. */
  ghost predicate Troubled(c: SFTPConnection, f: LocalFile)
    reads c, c.transport, f
  {
    c.transport.failed || f.failed
  }

  /** One reply, written where it belongs; what it left out becomes a hole. */
  method StoreReply(c: SFTPConnection, f: LocalFile, a: Ask, holes: seq<Hole>) returns (r: Result<Data, Failure>)
    requires c.Valid() && a.id in c.asked && c.asked[a.id] == Request(a.position, a.count)
    requires Copied(f.content, c.transport.file, a.position, holes)
    modifies c, c.transport, f
    ensures c.Valid() && (old(Troubled(c, f)) ==> Troubled(c, f))
    ensures r.Ok? ==>
      && |r.value| <= a.count && c.outstanding == old(c.outstanding) - {a.id} && c.asked == old(c.asked) - {a.id}
      && Copied(f.content, c.transport.file, a.position + a.count, AfterReply(holes, a, r.value))
    ensures r.Err? ==> Troubled(c, f) || a.position >= |c.transport.file|
  {
    var bytes := c.ReceiveRead(a.id, a.count);
    if bytes.Err? { return Err(bytes.error); }
    if bytes.value.None? { return Err(SourceChanged); }
    ReplyCopied(f.content, c.transport.file, holes, a, bytes.value.value);
    var ok := WriteLocal(f, bytes.value.value, a.position);
    return if ok then Ok(bytes.value.value) else Err(Broken);
  }

  method ReceiveIntoFile(c: SFTPConnection, f: LocalFile, window: seq<Ask>, ghost first: nat, ghost start: nat, ghost limit: nat)
    returns (r: Result<seq<Hole>, Failure>, completed: nat)
    requires c.Valid() && first < IDS && WindowOk(window, first, start, limit) && Awaits(c.outstanding, c.asked, window)
    requires Copied(f.content, c.transport.file, start, [])
    modifies c, c.transport, f
    ensures c.Valid() && (old(Troubled(c, f)) ==> Troubled(c, f))
    ensures r.Ok? ==>
      var upto := Reach(start, limit, |window|);
      && c.outstanding == {} && Copied(f.content, c.transport.file, upto, r.value) && Within(r.value, upto)
      && completed + Total(r.value) == upto - start
    ensures r.Err? ==> Troubled(c, f) || limit > |c.transport.file|
  {
    var holes: seq<Hole>;
    holes, completed := [], 0;
    assert window[0..] == window;
    for k := 0 to |window|
      invariant c.Valid() && (old(Troubled(c, f)) ==> Troubled(c, f))
      invariant Awaits(c.outstanding, c.asked, window[k..])
      invariant Copied(f.content, c.transport.file, Reach(start, limit, k), holes) && Within(holes, Reach(start, limit, k))
      invariant completed + Total(holes) == Reach(start, limit, k) - start
    {
      var a := window[k];
      assert AskOk(a, first, start, limit, k) && a.position == Reach(start, limit, k);
      AwaitsShrinks(c.outstanding, c.asked, window, first, start, limit, k);
      var data := StoreReply(c, f, a, holes);
      if data.Err? { return Err(data.error), completed; }
      ReplyTotal(holes, a, data.value);
      holes := AfterReply(holes, a, data.value);
      completed := completed + |data.value|;
    }
    return Ok(holes), completed;
  }

  /** One more read into a hole; how much it yielded. */
  method FillPart(c: SFTPConnection, f: LocalFile, h: Hole, ghost upto: nat, ghost holes: seq<Hole>)
    returns (r: Result<nat, Failure>)
    requires c.Valid() && c.outstanding == {} && h.count > 0
    requires Copied(f.content, c.transport.file, upto, [h] + holes) && h.position + h.count <= upto
    modifies c, c.transport, f
    ensures c.Valid() && (old(Troubled(c, f)) ==> Troubled(c, f))
    ensures r.Ok? ==> 0 < r.value <= h.count && c.outstanding == {}
    ensures r.Ok? ==> Copied(f.content, c.transport.file, upto, [Hole(h.position + r.value, h.count - r.value)] + holes)
    ensures r.Err? ==> Troubled(c, f) || upto > |c.transport.file|
  {
    var bytes := c.ReadFile(h.position, h.count);
    if bytes.Err? { return Err(bytes.error); }
    if bytes.value.None? { return Err(SourceChanged); }
    var data := bytes.value.value;
    FillCopied(f.content, c.transport.file, upto, h, holes, data);
    var ok := WriteLocal(f, data, h.position);
    if !ok { return Err(Broken); }
    return Ok(|data|);
  }

  method FillHole(c: SFTPConnection, f: LocalFile, h: Hole, ghost upto: nat, ghost holes: seq<Hole>)
    returns (r: Result<nat, Failure>)
    requires c.Valid() && c.outstanding == {}
    requires Copied(f.content, c.transport.file, upto, [h] + holes) && h.position + h.count <= upto
    modifies c, c.transport, f
    ensures c.Valid() && (old(Troubled(c, f)) ==> Troubled(c, f))
    ensures r.Ok? ==> r.value == h.count && c.outstanding == {} && Copied(f.content, c.transport.file, upto, holes)
    ensures r.Err? ==> Troubled(c, f) || upto > |c.transport.file|
  {
    var left, completed := h, 0;
    while left.count > 0
      invariant c.Valid() && c.outstanding == {} && (old(Troubled(c, f)) ==> Troubled(c, f))
      invariant left.position + left.count <= upto && completed + left.count == h.count
      invariant Copied(f.content, c.transport.file, upto, [left] + holes)
      decreases left.count
    {
      var part := FillPart(c, f, left, upto, holes);
      if part.Err? { return Err(part.error); }
      left, completed := Hole(left.position + part.value, left.count - part.value), completed + part.value;
    }
    NoHoleLeft(f.content, c.transport.file, upto, left, holes);
    return Ok(completed);
  }

  method FillHoles(c: SFTPConnection, f: LocalFile, holes: seq<Hole>, ghost upto: nat) returns (r: Result<nat, Failure>)
    requires c.Valid() && c.outstanding == {}
    requires Copied(f.content, c.transport.file, upto, holes) && Within(holes, upto)
    modifies c, c.transport, f
    ensures c.Valid() && (old(Troubled(c, f)) ==> Troubled(c, f))
    ensures r.Ok? ==> r.value == Total(holes) && c.outstanding == {} && Copied(f.content, c.transport.file, upto, [])
    ensures r.Err? ==> Troubled(c, f) || upto > |c.transport.file|
  {
    var completed := 0;
    assert holes[0..] == holes;
    for k := 0 to |holes|
      invariant c.Valid() && c.outstanding == {} && (old(Troubled(c, f)) ==> Troubled(c, f))
      invariant Copied(f.content, c.transport.file, upto, holes[k..])
      invariant completed + Total(holes[k..]) == Total(holes)
    {
      assert holes[k..] == [holes[k]] + holes[k + 1..] && holes[k] in holes;
      var filled := FillHole(c, f, holes[k], upto, holes[k + 1..]);
      if filled.Err? { return Err(filled.error); }
      completed := completed + filled.value;
    }
    assert holes[|holes|..] == [];
    return Ok(completed);
  }

  /** A whole file into an empty local one: exactly its bytes, every one counted once, whatever
      the order and length of the replies and of the local writes, if the file has the size
      expected; otherwise an error. */
  method DownloadFile(c: SFTPConnection, f: LocalFile, size: nat) returns (r: Result<nat, Failure>)
    requires c.Valid() && c.outstanding == {} && f.content == map[]
    modifies c, c.transport, f
    ensures c.Valid()
    ensures r.Ok? ==> c.outstanding == {} && r.value == size && IsCopy(f.content, c.transport.file)
    ensures !Troubled(c, f) ==> (r.Ok? <==> size == |c.transport.file|)
  {
    var offset, completed := 0, 0;
    while offset < size
      invariant c.Valid() && c.outstanding == {} && offset <= size && completed == offset
      invariant Copied(f.content, c.transport.file, offset, [])
      decreases size - offset
    {
      ghost var first := c.nextID;
      var window := EnqueueWindow(c, offset, size);
      if window.Err? { return Err(window.error); }
      var holes, received := ReceiveIntoFile(c, f, window.value, first, offset, size);
      if holes.Err? { return Err(holes.error); }
      ghost var upto := Reach(offset, size, |window.value|);
      var filled := FillHoles(c, f, holes.value, upto);
      if filled.Err? { return Err(filled.error); }
      completed := completed + received + filled.value;
      offset := Min(offset + |window.value| * CHUNK, size);
    }
    AllCopied(f.content, c.transport.file, size);
    var rest := c.ReadFile(offset, 1);
    if rest.Err? { return Err(rest.error); }
    if rest.value.Some? { return Err(SourceChanged); }
    return Ok(completed);
  }

  ghost predicate IsCopy(content: map<nat, Byte>, file: Data) {
    forall i: nat :: (i in content <==> i < |file|) && (i in content ==> content[i] == file[i])
  }

  lemma AllCopied(content: map<nat, Byte>, file: Data, size: nat)
    requires Copied(content, file, size, [])
    ensures size <= |file| && (size == |file| ==> IsCopy(content, file))
  {
    forall i: nat | i < size ensures i in content { assert Accounted(content, [], i); }
    if size > 0 { assert size - 1 in content; }
  }
}
