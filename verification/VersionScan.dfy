/** The version stamp `NPGV:<version>` of a guestd binary and its two scanners. */
module VersionScan {
  import opened Bytes
  import opened Wrappers

  const TAG: Data := [0x4e, 0x50, 0x47, 0x56, 0x3a]  // "NPGV:"
  const TOKEN_MAXIMUM := 256

  predicate VersionByte(b: Byte) {
    || 0x30 <= b <= 0x39 || 0x61 <= b <= 0x7a || 0x41 <= b <= 0x5a
    || b == 0x2e || b == 0x2d || b == 0x2b || b == 0x5f
  }

  // ---- What a version stamp is ----

  predicate TagAt(data: Data, i: nat) { i + |TAG| <= |data| && data[i..i + |TAG|] == TAG }

  /** Where the run of version bytes that starts at `from` ends. */
  function TokenEnd(data: Data, from: nat): (end: nat)
    requires from <= |data|
    ensures from <= end <= |data|
    ensures forall k :: from <= k < end ==> VersionByte(data[k])
    ensures end < |data| ==> !VersionByte(data[end])
    decreases |data| - from
  {
    if from == |data| || !VersionByte(data[from]) then from else TokenEnd(data, from + 1)
  }

  /** A tag followed by at least one version byte. */
  predicate StampAt(data: Data, i: nat) {
    TagAt(data, i) && i + |TAG| < |data| && VersionByte(data[i + |TAG|])
  }

  function TokenAt(data: Data, i: nat): Data
    requires StampAt(data, i)
  {
    data[i + |TAG|..TokenEnd(data, i + |TAG|)]
  }

  /** The token of the first stamp at or after `from`. */
  function Scan(data: Data, from: nat): Option<Data>
    decreases |data| - from
  {
    if from >= |data| then None
    else if StampAt(data, from) then Some(TokenAt(data, from))
    else Scan(data, from + 1)
  }

  /** `Scan` finds a stamp exactly when there is one, and then the first. */
  lemma {:induction false} ScanFinds(data: Data, from: nat, i: nat)
    requires forall j :: from <= j < i ==> !StampAt(data, j)
    requires from <= i
    ensures StampAt(data, i) ==> Scan(data, from) == Some(TokenAt(data, i))
    ensures i >= |data| ==> Scan(data, from) == None
    decreases i - from
  {
    if from < i { ScanFinds(data, from + 1, i); }
  }

  // ---- Search and restart ----

  method FindTag(data: Data, from: nat) returns (i: nat)
    requires from <= |data|
    ensures from <= i <= |data|
    ensures i < |data| ==> TagAt(data, i)
    ensures forall j :: from <= j < i ==> !TagAt(data, j)
  {
    i := from;
    while i < |data|
      invariant from <= i <= |data|
      invariant forall j :: from <= j < i ==> !TagAt(data, j)
    {
      if i + |TAG| <= |data| && data[i..i + |TAG|] == TAG { return; }
      i := i + 1;
    }
  }

  /** `extract(from: Data)`: finds a tag, reads its token, restarts one byte further. */
  method Extract(data: Data) returns (found: Option<Data>)
    ensures found == Scan(data, 0)
  {
    var search := 0;
    while search < |data|
      invariant 0 <= search <= |data|
      invariant forall j :: 0 <= j < search ==> !StampAt(data, j)
    {
      var lower := FindTag(data, search);
      ScanFinds(data, 0, lower);
      if lower == |data| { return None; }
      var start := lower + |TAG|;
      var end := start;
      while end < |data|
        invariant start <= end <= |data|
        invariant TokenEnd(data, start) == TokenEnd(data, end)
      {
        if !VersionByte(data[end]) { break; }
        end := end + 1;
      }
      if end > start { return Some(data[start..end]); }
      search := lower + 1;
    }
    ScanFinds(data, 0, |data|);
    return None;
  }

  // ---- One pass ----

  function Concat(chunks: seq<Data>): Data {
    if chunks == [] then [] else Concat(chunks[..|chunks| - 1]) + chunks[|chunks| - 1]
  }

  /** The last `m` bytes are the first `m` of the tag. */
  predicate EndsWithTag(seen: Data, m: nat)
    requires m <= |TAG|
  {
    m == 0 || (seen != [] && seen[|seen| - 1] == TAG[m - 1] && EndsWithTag(seen[..|seen| - 1], m - 1))
  }

  /** No stamp so far, and `matched` bytes at the end are the beginning of a tag. */
  ghost predicate Searching(seen: Data, matched: nat) {
    && matched < |TAG|
    && (forall m :: 1 <= m <= |TAG| ==> (EndsWithTag(seen, m) <==> m == matched))
    && forall j :: 0 <= j < |seen| ==> !StampAt(seen, j)
  }

  /** The bytes seen end with the first stamp: its tag and these bytes of its token. */
  ghost predicate Collecting(seen: Data, version: Data) {
    var start := |seen| - |version|;
    && start >= |TAG| && TagAt(seen, start - |TAG|)
    && seen[start..] == version
    && (forall b <- version :: VersionByte(b))
    && forall j :: 0 <= j < start - |TAG| ==> !StampAt(seen, j)
  }

  lemma EndsWithSnoc(seen: Data, b: Byte, m: nat)
    requires 1 <= m <= |TAG|
    ensures EndsWithTag(seen + [b], m) <==> EndsWithTag(seen, m - 1) && b == TAG[m - 1]
  {
    assert (seen + [b])[..|seen|] == seen;
  }

  lemma {:induction false} EndsWithIndex(seen: Data, m: nat)
    requires m <= |TAG|
    ensures EndsWithTag(seen, m) <==> m <= |seen| && seen[|seen| - m..] == TAG[..m]
  {
    if m > 0 && m <= |seen| {
      EndsWithIndex(seen[..|seen| - 1], m - 1);
      assert seen[|seen| - m..] == seen[..|seen| - 1][|seen| - m..] + [seen[|seen| - 1]];
      assert TAG[..m] == TAG[..m - 1] + [TAG[m - 1]];
    } else if m > 0 && seen != [] {
      EndsWithIndex(seen[..|seen| - 1], m - 1);
    }
  }

  /** A tag that ends the bytes seen. */
  lemma EndsWithWhole(seen: Data)
    ensures EndsWithTag(seen, |TAG|) <==> |TAG| <= |seen| && TagAt(seen, |seen| - |TAG|)
  {
    EndsWithIndex(seen, |TAG|);
    assert TAG[..|TAG|] == TAG;
  }

  /** One more byte adds no stamp unless a tag stands right before it. */
  lemma StampSnoc(seen: Data, b: Byte, j: nat)
    ensures StampAt(seen + [b], j) ==> StampAt(seen, j) || (j + |TAG| == |seen| && TagAt(seen, j))
  {
    var more := seen + [b];
    if j + |TAG| <= |seen| { assert more[j..j + |TAG|] == seen[j..j + |TAG|]; }
  }

  function Next(matched: nat, b: Byte): nat
    requires matched < |TAG|
  {
    if b == TAG[matched] then matched + 1 else if b == TAG[0] then 1 else 0
  }

  /** The bytes of the tag differ, so a failed match can only go on from its first byte. */
  lemma SuffixStep(seen: Data, matched: nat, b: Byte, m: nat)
    requires Searching(seen, matched) && 1 <= m <= |TAG|
    ensures EndsWithTag(seen + [b], m) <==> m == Next(matched, b)
  {
    EndsWithSnoc(seen, b, m);
    assert m >= 2 ==> (EndsWithTag(seen, m - 1) <==> m - 1 == matched);
  }

  /** While searching no tag is complete, so the next byte cannot complete a stamp. */
  lemma NoStampStep(seen: Data, matched: nat, b: Byte, j: nat)
    requires Searching(seen, matched) && j <= |seen|
    ensures !StampAt(seen + [b], j)
  {
    StampSnoc(seen, b, j);
    EndsWithWhole(seen);
    assert !EndsWithTag(seen, |TAG|);
  }

  lemma KeepSearching(seen: Data, matched: nat, b: Byte)
    requires Searching(seen, matched) && Next(matched, b) < |TAG|
    ensures Searching(seen + [b], Next(matched, b))
  {
    forall m | 1 <= m <= |TAG| ensures EndsWithTag(seen + [b], m) <==> m == Next(matched, b) {
      SuffixStep(seen, matched, b, m);
    }
    forall j | 0 <= j < |seen| + 1 ensures !StampAt(seen + [b], j) {
      NoStampStep(seen, matched, b, j);
    }
  }

  lemma StartCollecting(seen: Data, matched: nat, b: Byte)
    requires Searching(seen, matched) && Next(matched, b) == |TAG|
    ensures Collecting(seen + [b], [])
  {
    SuffixStep(seen, matched, b, |TAG|);
    EndsWithWhole(seen + [b]);
    forall j | 0 <= j < |seen| + 1 - |TAG| ensures !StampAt(seen + [b], j) {
      NoStampStep(seen, matched, b, j);
    }
  }

  /** A byte that is no version byte right after a tag sends the search back to the start. */
  lemma EmptyTokenStep(seen: Data, b: Byte)
    requires Collecting(seen, []) && !VersionByte(b)
    ensures Searching(seen + [b], 0)
  {
    var more := seen + [b];
    assert seen[|seen| - 1] == TAG[4];
    forall m | 1 <= m <= |TAG| ensures !EndsWithTag(more, m) {
      EndsWithSnoc(seen, b, m);
    }
    forall j | 0 <= j < |more| ensures !StampAt(more, j) {
      StampSnoc(seen, b, j);
    }
  }

  lemma TokenStep(seen: Data, version: Data, b: Byte)
    requires Collecting(seen, version) && VersionByte(b)
    ensures Collecting(seen + [b], version + [b])
  {
    var start := |seen| - |version|;
    var more := seen + [b];
    assert more[start - |TAG|..start] == seen[start - |TAG|..start];
    forall j | 0 <= j < start - |TAG| ensures !StampAt(more, j) {
      StampSnoc(seen, b, j);
    }
  }

  lemma {:induction false} TokenEndPrefix(data: Data, from: nat, end: nat)
    requires from <= end <= |data| && forall k :: from <= k < end ==> VersionByte(data[k])
    ensures TokenEnd(data, from) == TokenEnd(data, end)
    decreases end - from
  {
    if from < end { TokenEndPrefix(data, from + 1, end); }
  }

  /** The stamp before the token collected is the first one of the whole data. */
  lemma CollectedStamp(data: Data, n: nat, version: Data)
    requires n <= |data| && Collecting(data[..n], version) && version != []
    ensures var i := n - |version| - |TAG|; i >= 0 && StampAt(data, i) && forall j :: 0 <= j < i ==> !StampAt(data, j)
  {
    var seen := data[..n];
    var start := n - |version|;
    var i := start - |TAG|;
    assert data[i..start] == seen[i..start];
    assert data[start] == seen[start] == version[0];
    forall j | 0 <= j < i ensures !StampAt(data, j) {
      assert !StampAt(seen, j);
      StampSeen(data, n, j);
    }
  }

  /** A stamp with its first token byte is seen once those bytes are there. */
  lemma StampSeen(data: Data, n: nat, j: nat)
    requires n <= |data| && j + |TAG| < n
    ensures StampAt(data, j) <==> StampAt(data[..n], j)
  {
    assert data[j..j + |TAG|] == data[..n][j..j + |TAG|];
  }

  /** The token collected so far is a beginning of the one `Scan` reports, whatever follows. */
  lemma CollectedIsFirst(data: Data, n: nat, version: Data)
    requires n <= |data| && Collecting(data[..n], version) && version != []
    ensures Scan(data, 0).Some? && version <= Scan(data, 0).value
    ensures n == |data| || !VersionByte(data[n]) ==> Scan(data, 0) == Some(version)
  {
    var start := n - |version|;
    var i := start - |TAG|;
    CollectedStamp(data, n, version);
    ScanFinds(data, 0, i);
    assert data[start..n] == data[..n][start..n] == version;
    forall k | start <= k < n ensures VersionByte(data[k]) { assert data[k] == version[k - start]; }
    TokenEndPrefix(data, start, n);
    assert TokenAt(data, i)[..|version|] == data[start..n];
  }

  function Limited(found: Option<Data>): Option<Data> {
    if found.Some? && |found.value| <= TOKEN_MAXIMUM then found else None
  }

  lemma {:induction false} ConcatPrefix(chunks: seq<Data>, n: nat)
    requires n <= |chunks|
    ensures Concat(chunks[..n]) <= Concat(chunks)
  {
    if n == |chunks| {
      assert chunks[..n] == chunks;
    } else {
      ConcatPrefix(chunks[..|chunks| - 1], n);
      assert chunks[..|chunks| - 1][..n] == chunks[..n];
    }
  }

  ghost predicate Progress(seen: Data, prefixIndex: nat, version: Data, collecting: bool) {
    && |version| <= TOKEN_MAXIMUM
    && if collecting then Collecting(seen, version) else Searching(seen, prefixIndex)
  }

  datatype Scanner = Scanner(prefixIndex: nat, version: Data, collecting: bool) | Done(found: Option<Data>)

  /** One byte of the scan: the marker state and the bounded token it keeps. */
  method ScanByte(ghost data: Data, ghost n: nat, prefixIndex: nat, version: Data, collecting: bool, byte: Byte)
    returns (next: Scanner)
    requires n < |data| && data[n] == byte && Progress(data[..n], prefixIndex, version, collecting)
    ensures next.Done? ==> next.found == Limited(Scan(data, 0))
    ensures next.Scanner? ==> Progress(data[..n + 1], next.prefixIndex, next.version, next.collecting)
  {
    ghost var seen := data[..n];
    assert data[..n + 1] == seen + [byte];
    if collecting {
      if VersionByte(byte) {
        TokenStep(seen, version, byte);
        if |version| >= TOKEN_MAXIMUM {
          CollectedIsFirst(data, n + 1, version + [byte]);
          return Done(None);
        }
        return Scanner(prefixIndex, version + [byte], true);
      }
      if version != [] {
        CollectedIsFirst(data, n, version);
        return Done(Some(version));
      }
      EmptyTokenStep(seen, byte);
      return Scanner(if byte == TAG[0] then 1 else 0, version, false);
    }
    if Next(prefixIndex, byte) < |TAG| { KeepSearching(seen, prefixIndex, byte); }
    else { StartCollecting(seen, prefixIndex, byte); }
    if byte == TAG[prefixIndex] {
      return if prefixIndex + 1 == |TAG| then Scanner(0, [], true) else Scanner(prefixIndex + 1, version, false);
    }
    return Scanner(if byte == TAG[0] then 1 else 0, version, false);
  }

  /** One chunk of the file. */
  method ScanChunk(ghost data: Data, ghost start: nat, chunk: Data, before: Scanner) returns (next: Scanner)
    requires before.Scanner? && start + |chunk| <= |data| && data[start..start + |chunk|] == chunk
    requires Progress(data[..start], before.prefixIndex, before.version, before.collecting)
    ensures next.Done? ==> next.found == Limited(Scan(data, 0))
    ensures next.Scanner? ==> Progress(data[..start + |chunk|], next.prefixIndex, next.version, next.collecting)
  {
    next := before;
    for k := 0 to |chunk|
      invariant next.Scanner? && Progress(data[..start + k], next.prefixIndex, next.version, next.collecting)
    {
      assert data[start + k] == chunk[k];
      next := ScanByte(data, start + k, next.prefixIndex, next.version, next.collecting, chunk[k]);
      if next.Done? { return; }
    }
  }

  lemma ChunkIsNext(chunks: seq<Data>, n: nat)
    requires n < |chunks|
    ensures var data, start := Concat(chunks), |Concat(chunks[..n])|;
            && start + |chunks[n]| == |Concat(chunks[..n + 1])| <= |data|
            && data[start..start + |chunks[n]|] == chunks[n]
  {
    assert chunks[..n + 1][..n] == chunks[..n];
    ConcatPrefix(chunks, n + 1);
  }

  /** `extract(from: FileHandle)`: one pass over the file as it is read, keeping only how
      much of the tag matched and a bounded token. It agrees with the search above on every
      file and every chunking, except that a first token over 256 bytes is refused. */
  method ExtractStreaming(chunks: seq<Data>) returns (found: Option<Data>)
    ensures found == Limited(Scan(Concat(chunks), 0))
  {
    var state := Scanner(0, [], false);
    ghost var data := Concat(chunks);
    assert chunks[..0] == [] && data[..0] == [];
    for n := 0 to |chunks|
      invariant |Concat(chunks[..n])| <= |data|
      invariant state.Scanner? && Progress(data[..|Concat(chunks[..n])|], state.prefixIndex, state.version, state.collecting)
    {
      ChunkIsNext(chunks, n);
      state := ScanChunk(data, |Concat(chunks[..n])|, chunks[n], state);
      if state.Done? { return state.found; }
    }
    assert chunks[..|chunks|] == chunks && data[..|data|] == data;
    if state.collecting && state.version != [] {
      CollectedIsFirst(data, |data|, state.version);
      return Some(state.version);
    }
    ScanFinds(data, 0, |data|);
    return None;
  }
}
