/** The drop server's open files: a descriptor shared by a table, by requests that use it and
    by a session that may end at any time. */
module DropHandles {
  import opened Wrappers

  /** One open file, known by number. */
  datatype File = File(descriptor: int, drop: nat, users: nat, released: bool)

  /** History of an open: the session that asked for it, how often the session had been set when
      it began and when its file entered the table, and whether by its beginning another
      session was already connected. */
  datatype Origin = Origin(opener: nat, begun: nat, late: bool, inserted: Option<nat>)

  /** `using` counts the requests at work on each file. A file taken out of the table waits in
      `releasing` for its release, and one that is to be closed in `closing`; `closed` lists
      the descriptors closed, in order. `opening` are the opens under way, `attached` the
      sessions ever connected, `changes` counts how often the session was set, and `teardowns`
      how often the table is still to be emptied for that. */
  datatype Server = Server(
    files: map<nat, File>,
    handles: map<nat, nat>,
    nextHandle: nat,
    drops: map<nat, nat>,
    openFiles: map<nat, int>,
    session: Option<nat>,
    using: multiset<nat>,
    releasing: set<nat>,
    closing: set<nat>,
    closed: seq<nat>,
    opening: set<nat>,
    origins: map<nat, Origin>,
    attached: set<nat>,
    changes: nat,
    teardowns: nat)

  const NewServer := Server(map[], map[], 1, map[], map[], None, multiset{}, {}, {}, [], {}, map[], {}, 0, 0)

  function OpenCount(s: Server, drop: nat): int { if drop in s.openFiles then s.openFiles[drop] else 0 }

  function Count(s: Server, drop: nat, change: int): map<nat, int> { s.openFiles[drop := OpenCount(s, drop) + change] }

  // ---- Lock sections ----

  /** A request of a session to open a file begins; its number will be the file's. */
  function Begin(s: Server, file: nat, opener: nat): Server {
    s.(opening := s.opening + {file},
       origins := s.origins[file := Origin(opener, s.changes, s.session != Some(opener), None)])
  }

  /** An opened descriptor enters the table if there is a session; otherwise it is closed at
      once and nobody else ever knew it. */
  function Insert(s: Server, file: nat, descriptor: int, drop: nat): Server
    requires file in s.origins
  {
    if s.session.None? then s.(opening := s.opening - {file})
    else
      s.(opening := s.opening - {file},
         origins := s.origins[file := s.origins[file].(inserted := Some(s.changes))],
         files := s.files[file := File(descriptor, drop, 0, false)],
         handles := s.handles[s.nextHandle := file],
         nextHandle := s.nextHandle + 1,
         openFiles := Count(s, drop, 1))
  }

  /** A session is connected or disconnected; the table of the one before is to be emptied. */
  function SetSession(s: Server, session: Option<nat>): Server {
    s.(session := session, attached := if session.Some? then s.attached + {session.value} else s.attached,
       changes := s.changes + 1, teardowns := s.teardowns + 1)
  }

  function Acquire(s: Server, handle: nat): (Server, Option<nat>) {
    if handle !in s.handles || s.handles[handle] !in s.files then (s, None)
    else
      var id := s.handles[handle];
      (s.(files := s.files[id := s.files[id].(users := s.files[id].users + 1)], using := s.using + multiset{id}), Some(id))
  }

  function Relinquish(s: Server, id: nat): Server
    requires id in s.files && s.files[id].users > 0
  {
    var f := s.files[id].(users := s.files[id].users - 1);
    s.(files := s.files[id := f], using := s.using - multiset{id},
       closing := if f.released && f.users == 0 then s.closing + {id} else s.closing)
  }

  /** The guest closes a handle. */
  function Release(s: Server, handle: nat): Server {
    if handle !in s.handles || s.handles[handle] !in s.files then s
    else
      var id := s.handles[handle];
      s.(handles := s.handles - {handle}, openFiles := Count(s, s.files[id].drop, -1), releasing := s.releasing + {id})
  }

  function ReleaseFile(s: Server, id: nat): Server
    requires id in s.files
  {
    s.(files := s.files[id := s.files[id].(released := true)], releasing := s.releasing - {id},
       closing := if s.files[id].users == 0 then s.closing + {id} else s.closing)
  }

  function Close(s: Server, id: nat): Server { s.(closing := s.closing - {id}, closed := s.closed + [id]) }

  function HandlesOf(s: Server, drop: nat): set<nat> {
    set h | h in s.handles && s.handles[h] in s.files && s.files[s.handles[h]].drop == drop
  }

  /** The session ended: the table is emptied. */
  function CloseHandles(s: Server): Server {
    s.(handles := map[],
       openFiles := map d | d in s.openFiles :: s.openFiles[d] - |HandlesOf(s, d)|,
       releasing := s.releasing + s.handles.Values,
       teardowns := if s.teardowns > 0 then s.teardowns - 1 else 0)
  }

  function RemoveIfIdle(s: Server, token: nat): (Server, bool) {
    if token in s.drops && OpenCount(s, s.drops[token]) == 0 then (s.(drops := s.drops - {token}), true) else (s, false)
  }

  // ---- The invariant ----

  predicate FileOk(s: Server, id: nat) {
    if id !in s.files then
      id !in s.handles.Values && id !in s.releasing && id !in s.closing && id !in s.closed && s.using[id] == 0
    else
      var f := s.files[id];
      && s.using[id] == f.users
      && (id in s.handles.Values ==> !f.released && id !in s.releasing && id !in s.closing && id !in s.closed)
      && (id in s.releasing ==> !f.released && id !in s.closing && id !in s.closed)
      && (id in s.closing || id in s.closed ==> f.released && f.users == 0)
      && (id in s.closing ==> id !in s.closed)
      && (f.released && id !in s.closing && id !in s.closed ==> f.users > 0)
      && (!f.released ==> id in s.handles.Values || id in s.releasing)
  }

  predicate Distinct(closed: seq<nat>) { forall j, k :: 0 <= j < k < |closed| ==> closed[j] != closed[k] }

  /** A handle stands for one file, and no two handles for the same. */
  predicate HandlesOk(s: Server) {
    && (forall h <- s.handles :: h < s.nextHandle && s.handles[h] in s.files)
    && (forall g <- s.handles, h <- s.handles :: g != h ==> s.handles[g] != s.handles[h])
  }

  ghost predicate CountsOk(s: Server) { forall d: nat :: OpenCount(s, d) == |HandlesOf(s, d)| }

  ghost predicate ServerOk(s: Server) {
    && (forall id: nat :: FileOk(s, id))
    && HandlesOk(s) && Distinct(s.closed) && CountsOk(s)
  }

  // ---- Every section keeps it ----

  lemma InsertHandles(s: Server, file: nat, descriptor: int, drop: nat, d: nat)
    requires HandlesOk(s) && file !in s.files && file in s.origins && s.session.Some?
    ensures s.nextHandle !in HandlesOf(s, d)
    ensures HandlesOf(Insert(s, file, descriptor, drop), d) == HandlesOf(s, d) + if d == drop then {s.nextHandle} else {}
  {
    var t, next := Insert(s, file, descriptor, drop), s.nextHandle;
    assert next !in s.handles;
    forall h ensures h in HandlesOf(t, d) <==> h in HandlesOf(s, d) || (h == next && d == drop) {
      if h in s.handles { assert t.handles[h] == s.handles[h] && s.handles[h] in s.files; }
    }
  }

  lemma InsertCount(s: Server, file: nat, descriptor: int, drop: nat, d: nat)
    requires HandlesOk(s) && OpenCount(s, d) == |HandlesOf(s, d)| && file !in s.files && file in s.origins && s.session.Some?
    ensures var t := Insert(s, file, descriptor, drop); OpenCount(t, d) == |HandlesOf(t, d)|
  {
    InsertHandles(s, file, descriptor, drop, d);
  }

  lemma InsertCounts(s: Server, file: nat, descriptor: int, drop: nat)
    requires HandlesOk(s) && CountsOk(s) && file !in s.files && file in s.origins && s.session.Some?
    ensures CountsOk(Insert(s, file, descriptor, drop))
  {
    forall d: nat
      ensures var t := Insert(s, file, descriptor, drop); OpenCount(t, d) == |HandlesOf(t, d)|
    {
      assert OpenCount(s, d) == |HandlesOf(s, d)|;
      InsertCount(s, file, descriptor, drop, d);
    }
  }

  lemma InsertOk(s: Server, file: nat, descriptor: int, drop: nat)
    requires ServerOk(s) && file !in s.files && file in s.origins
    ensures ServerOk(Insert(s, file, descriptor, drop))
  {
    var t := Insert(s, file, descriptor, drop);
    if s.session.None? {
      SameCounts(s, t);
      forall x: nat ensures FileOk(t, x) { assert FileOk(s, x); }
    } else {
      InsertCounts(s, file, descriptor, drop);
      assert s.nextHandle !in s.handles;
      assert t.handles[s.nextHandle] == file;
      forall id: nat ensures FileOk(t, id) {
        assert FileOk(s, id) && FileOk(s, file);
        InsertValues(s.handles, s.nextHandle, file, id);
      }
    }
  }

  lemma InsertValues(handles: map<nat, nat>, h: nat, file: nat, id: nat)
    requires h !in handles
    ensures id in handles[h := file].Values <==> id in handles.Values || id == file
  {
    var after := handles[h := file];
    if id in handles.Values {
      var g :| g in handles && handles[g] == id;
      assert after[g] == id;
    }
    if id == file { assert after[h] == id; }
  }

  lemma RemoveValues(handles: map<nat, nat>, h: nat, id: nat)
    requires h in handles && forall g <- handles, k <- handles :: g != k ==> handles[g] != handles[k]
    ensures id in (handles - {h}).Values <==> id in handles.Values && id != handles[h]
  {
    var after := handles - {h};
    if id in handles.Values && id != handles[h] {
      var g :| g in handles && handles[g] == id;
      assert after[g] == id;
    }
  }

  /** Only what belongs to the file itself may change. */
  lemma SameCounts(s: Server, t: Server)
    requires CountsOk(s) && s.handles == t.handles && s.openFiles == t.openFiles && s.files.Keys == t.files.Keys
    requires forall id <- s.files :: t.files[id].drop == s.files[id].drop
    ensures CountsOk(t)
  {
    forall d: nat ensures OpenCount(t, d) == |HandlesOf(t, d)| {
      assert OpenCount(s, d) == |HandlesOf(s, d)|;
      assert HandlesOf(t, d) == HandlesOf(s, d);
    }
  }

  lemma AcquireOk(s: Server, handle: nat)
    requires ServerOk(s)
    ensures ServerOk(Acquire(s, handle).0)
  {
    var t := Acquire(s, handle).0;
    if t != s {
      var id := s.handles[handle];
      assert t.files.Keys == s.files.Keys;
      SameCounts(s, t);
      forall x: nat ensures FileOk(t, x) { assert FileOk(s, x); }
    }
  }

  /** A handle in the table always leads to its own file, open and not about to be closed; any
      other handle to none. */
  lemma AcquireExactly(s: Server, handle: nat)
    requires ServerOk(s)
    ensures Acquire(s, handle).1 == if handle in s.handles then Some(s.handles[handle]) else None
    ensures Acquire(s, handle).1.None? ==> Acquire(s, handle).0 == s
    ensures handle in s.handles ==>
              var id := s.handles[handle];
              id in s.files && !s.files[id].released && id !in s.closing && id !in s.closed
  {
    if handle in s.handles { assert FileOk(s, s.handles[handle]); }
  }

  /** A request on a handle that stays in the table leaves no trace once it is over, and while
      it lasts the file is in use once more. */
  lemma UseLeavesNoTrace(s: Server, handle: nat)
    requires ServerOk(s) && handle in s.handles
    ensures var (t, id) := Acquire(s, handle);
            id.Some? && id.value in t.files && t.files[id.value].users == s.files[id.value].users + 1
            && Relinquish(t, id.value) == s
  {
    var id := s.handles[handle];
    var t := Acquire(s, handle).0;
    assert FileOk(s, id);
    assert s.files[id].(users := s.files[id].users + 1).(users := s.files[id].users) == s.files[id];
    assert Relinquish(t, id).files == s.files;
    assert s.using + multiset{id} - multiset{id} == s.using;
  }

  /** The guest closes a handle: nobody gets hold of the file by it again, every other handle
      works as before, and the file is closed at once exactly if nobody uses it. */
  lemma ReleaseExactly(s: Server, handle: nat, other: nat)
    requires ServerOk(s) && handle in s.handles
    ensures var id := s.handles[handle];
            var t := Release(s, handle);
            && Acquire(t, other).1 == (if other == handle then None else Acquire(s, other).1)
            && id in t.files
            && (id in ReleaseFile(t, id).closing <==> s.files[id].users == 0)
  {
    assert FileOk(s, s.handles[handle]);
  }

  lemma RelinquishOk(s: Server, id: nat)
    requires ServerOk(s) && id in s.files && s.files[id].users > 0
    ensures ServerOk(Relinquish(s, id))
  {
    var t := Relinquish(s, id);
    assert t.files.Keys == s.files.Keys by { assert id in s.files.Keys; }
    SameCounts(s, t);
    forall x: nat ensures FileOk(t, x) { assert FileOk(s, x); }
  }

  lemma ReleaseCount(s: Server, handle: nat, d: nat)
    requires HandlesOk(s) && OpenCount(s, d) == |HandlesOf(s, d)| && handle in s.handles
    ensures var t := Release(s, handle); OpenCount(t, d) == |HandlesOf(t, d)|
  {
    var t := Release(s, handle);
    if d == s.files[s.handles[handle]].drop {
      assert handle in HandlesOf(s, d) && HandlesOf(t, d) == HandlesOf(s, d) - {handle};
    } else {
      assert HandlesOf(t, d) == HandlesOf(s, d);
    }
  }

  lemma ReleaseCounts(s: Server, handle: nat)
    requires HandlesOk(s) && CountsOk(s) && handle in s.handles
    ensures CountsOk(Release(s, handle))
  {
    forall d: nat ensures var t := Release(s, handle); OpenCount(t, d) == |HandlesOf(t, d)| {
      assert OpenCount(s, d) == |HandlesOf(s, d)|;
      ReleaseCount(s, handle, d);
    }
  }

  lemma ReleaseOk(s: Server, handle: nat)
    requires ServerOk(s)
    ensures ServerOk(Release(s, handle))
  {
    if handle in s.handles {
      var t, id := Release(s, handle), s.handles[handle];
      ReleaseCounts(s, handle);
      assert id in s.handles.Values;
      forall x: nat ensures FileOk(t, x) {
        assert FileOk(s, x);
        RemoveValues(s.handles, handle, x);
      }
    }
  }

  lemma ReleaseFileOk(s: Server, id: nat)
    requires ServerOk(s) && id in s.releasing && id in s.files
    ensures ServerOk(ReleaseFile(s, id))
  {
    var t := ReleaseFile(s, id);
    assert t.files.Keys == s.files.Keys by { assert id in s.files.Keys; }
    SameCounts(s, t);
    assert FileOk(s, id);
    forall x: nat ensures FileOk(t, x) { assert FileOk(s, x); }
  }

  lemma CloseOk(s: Server, id: nat)
    requires ServerOk(s) && id in s.closing
    ensures ServerOk(Close(s, id))
  {
    var t := Close(s, id);
    SameCounts(s, t);
    assert FileOk(s, id);
    forall x: nat ensures FileOk(t, x) { assert FileOk(s, x); }
  }

  lemma CloseHandlesOk(s: Server)
    requires ServerOk(s)
    ensures ServerOk(CloseHandles(s))
  {
    var t := CloseHandles(s);
    forall d: nat ensures OpenCount(t, d) == |HandlesOf(t, d)| {
      assert OpenCount(s, d) == |HandlesOf(s, d)|;
      assert HandlesOf(t, d) == {};
    }
    forall x: nat ensures FileOk(t, x) { assert FileOk(s, x); }
  }

  // ---- Runs ----

  datatype Step =
    | Begins(file: nat, opener: nat)
    | Inserts(file: nat, descriptor: int, drop: nat)
    | Acquires(handle: nat)
    | Relinquishes(file: nat)
    | Releases(handle: nat)
    | ReleasesFile(file: nat)
    | Closes(file: nat)
    | ClosesHandles
    | SetsSession(session: Option<nat>)
    | Shares(token: nat, drop: nat)
    | Removes(token: nat)
    | RemovesIfIdle(token: nat)

  /** A request is made by a session that was connected at some time, and each open is new and
      ends once; a session object is connected once; the table is emptied for each change of
      the session; requests give back what they took; a file is released once it left the
      table and closed once somebody decided to. */
  predicate Allowed(s: Server, step: Step) {
    match step
    case Begins(file, opener) => file !in s.origins && file !in s.files && opener in s.attached
    case Inserts(file, _, _) => file in s.opening && file in s.origins && file !in s.files
    case Relinquishes(id) => id in s.using && id in s.files && s.files[id].users > 0
    case ReleasesFile(id) => id in s.releasing && id in s.files
    case Closes(id) => id in s.closing
    case ClosesHandles => s.teardowns > 0
    case SetsSession(session) => session.Some? ==> session.value !in s.attached
    case _ => true
  }

  function After(s: Server, step: Step): Server
    requires Allowed(s, step)
  {
    match step
    case Begins(file, opener) => Begin(s, file, opener)
    case Inserts(file, descriptor, drop) => Insert(s, file, descriptor, drop)
    case Acquires(handle) => Acquire(s, handle).0
    case Relinquishes(id) => Relinquish(s, id)
    case Releases(handle) => Release(s, handle)
    case ReleasesFile(id) => ReleaseFile(s, id)
    case Closes(id) => Close(s, id)
    case ClosesHandles => CloseHandles(s)
    case SetsSession(session) => SetSession(s, session)
    case Shares(token, drop) => s.(drops := s.drops[token := drop])
    case Removes(token) => s.(drops := s.drops - {token})
    case RemovesIfIdle(token) => RemoveIfIdle(s, token).0
  }

  lemma AfterOk(s: Server, step: Step)
    requires ServerOk(s) && Allowed(s, step)
    ensures ServerOk(After(s, step))
  {
    match step
    case Inserts(file, descriptor, drop) => InsertOk(s, file, descriptor, drop);
    case Acquires(handle) => AcquireOk(s, handle);
    case Relinquishes(id) => RelinquishOk(s, id);
    case Releases(handle) => ReleaseOk(s, handle);
    case ReleasesFile(id) => ReleaseFileOk(s, id);
    case Closes(id) => CloseOk(s, id);
    case ClosesHandles => CloseHandlesOk(s);
    case _ => OtherOk(s, step);
  }

  lemma OtherOk(s: Server, step: Step)
    requires ServerOk(s) && Allowed(s, step)
    requires step.Begins? || step.SetsSession? || step.Shares? || step.Removes? || step.RemovesIfIdle?
    ensures ServerOk(After(s, step))
  {
    var t := After(s, step);
    SameCounts(s, t);
    forall x: nat ensures FileOk(t, x) { assert FileOk(s, x); }
  }

  predicate Reaches(s: Server, steps: seq<Step>, end: Server)
    decreases |steps|
  {
    if steps == [] then end == s else Allowed(s, steps[0]) && Reaches(After(s, steps[0]), steps[1..], end)
  }

  lemma {:induction false} RunOk(s: Server, steps: seq<Step>, end: Server)
    requires ServerOk(s) && Reaches(s, steps, end)
    ensures ServerOk(end)
    decreases |steps|
  {
    if steps != [] {
      AfterOk(s, steps[0]);
      RunOk(After(s, steps[0]), steps[1..], end);
    }
  }

  lemma NewServerOk()
    ensures ServerOk(NewServer)
  {
  }

  /** In every run each descriptor is closed at most once and never while a request uses it or
      could still find it in the table; and none is forgotten: one that is neither in the
      table nor in use nor on its way has been closed. */
  lemma ClosedOnceAndUnused(steps: seq<Step>, end: Server, id: nat)
    requires Reaches(NewServer, steps, end)
    ensures Distinct(end.closed)
    ensures id in end.closing || id in end.closed ==> end.using[id] == 0 && id !in end.handles.Values
    ensures id in end.files && id !in end.handles.Values && end.using[id] == 0 && id !in end.releasing && id !in end.closing ==>
              id in end.closed
  {
    NewServerOk();
    RunOk(NewServer, steps, end);
    assert FileOk(end, id);
  }

  /** Once closing was decided no request gets hold of the file again. */
  lemma {:induction false} ClosedStaysUnused(s: Server, steps: seq<Step>, end: Server, id: nat)
    requires ServerOk(s) && Reaches(s, steps, end) && (id in s.closing || id in s.closed)
    ensures end.using[id] == 0 && (id in end.closing || id in end.closed)
    decreases |steps|
  {
    assert FileOk(s, id);
    if steps != [] {
      AfterOk(s, steps[0]);
      ClosedStaysUnused(After(s, steps[0]), steps[1..], end, id);
    }
  }

  /** A drop counts exactly the handles open on it, so an idle removal never takes a drop that
      has one. */
  lemma IdleMeansUnopened(steps: seq<Step>, end: Server, token: nat)
    requires Reaches(NewServer, steps, end) && token in end.drops
    ensures RemoveIfIdle(end, token).1 <==>
            forall h <- end.handles :: end.handles[h] in end.files ==> end.files[end.handles[h]].drop != end.drops[token]
  {
    NewServerOk();
    RunOk(NewServer, steps, end);
    var d := end.drops[token];
    assert OpenCount(end, d) == |HandlesOf(end, d)|;
    if RemoveIfIdle(end, token).1 {
      assert HandlesOf(end, d) == {};
      forall h <- end.handles | end.handles[h] in end.files ensures end.files[end.handles[h]].drop != d {
        assert h !in HandlesOf(end, d);
      }
    } else {
      assert HandlesOf(end, d) != {};
      var h :| h in HandlesOf(end, d);
    }
  }

  // ---- Whose handle ----

  /** Every handle belongs to the session that is connected. */
  predicate OwnHandles(s: Server) {
    forall h <- s.handles :: s.handles[h] in s.origins ==> Some(s.origins[s.handles[h]].opener) == s.session
  }

  /** The open began while its own session was connected, and the session was not set again
      before its file entered the table. */
  predicate Undisturbed(o: Origin) { !o.late && o.inserted == Some(o.begun) }

  /** An open is the connected session's exactly if it began in it and that never changed:
      a session that was replaced is never connected again. */
  predicate OpeningOk(s: Server, o: Origin) {
    && o.opener in s.attached && o.begun <= s.changes
    && (s.session == Some(o.opener) <==> !o.late && o.begun == s.changes)
  }

  /** A handle outlives a change of the session only while the table is still to be emptied. */
  predicate EntryOk(s: Server, o: Origin) {
    && o.inserted.Some? && o.inserted.value <= s.changes
    && (o.inserted.value == s.changes ==> s.session.Some? && (s.session == Some(o.opener) <==> Undisturbed(o)))
    && (o.inserted.value < s.changes ==> s.teardowns > 0)
  }

  predicate OriginsOk(s: Server) {
    && (s.session.Some? ==> s.session.value in s.attached)
    && (forall file <- s.opening :: file in s.origins && OpeningOk(s, s.origins[file]))
    && (forall h <- s.handles :: s.handles[h] !in s.opening && s.handles[h] in s.origins && EntryOk(s, s.origins[s.handles[h]]))
  }

  lemma BeginOrigins(s: Server, file: nat, opener: nat)
    requires OriginsOk(s) && file !in s.origins && opener in s.attached
    ensures OriginsOk(Begin(s, file, opener))
  {
    var t := Begin(s, file, opener);
    forall x <- t.opening ensures x in t.origins && OpeningOk(t, t.origins[x]) {
      if x != file { assert OpeningOk(s, s.origins[x]); }
    }
    forall h <- t.handles ensures EntryOk(t, t.origins[s.handles[h]]) { assert EntryOk(s, s.origins[s.handles[h]]); }
  }

  lemma InsertOrigins(s: Server, file: nat, descriptor: int, drop: nat)
    requires OriginsOk(s) && file in s.opening && file in s.origins
    ensures OriginsOk(Insert(s, file, descriptor, drop))
  {
    var t := Insert(s, file, descriptor, drop);
    assert OpeningOk(s, s.origins[file]);
    forall x <- t.opening ensures x in t.origins && OpeningOk(t, t.origins[x]) { assert OpeningOk(s, s.origins[x]); }
    forall h <- t.handles
      ensures t.handles[h] !in t.opening && t.handles[h] in t.origins && EntryOk(t, t.origins[t.handles[h]])
    {
      if t.handles[h] != file { assert EntryOk(s, s.origins[s.handles[h]]); }
    }
  }

  lemma SetSessionOrigins(s: Server, session: Option<nat>)
    requires OriginsOk(s) && (session.Some? ==> session.value !in s.attached)
    ensures OriginsOk(SetSession(s, session))
  {
    var t := SetSession(s, session);
    forall x <- t.opening ensures OpeningOk(t, t.origins[x]) { assert OpeningOk(s, s.origins[x]); }
    forall h <- t.handles ensures EntryOk(t, t.origins[t.handles[h]]) { assert EntryOk(s, s.origins[s.handles[h]]); }
  }

  /** Handles may go; nothing else about origins changes. */
  lemma SameOrigins(s: Server, t: Server)
    requires OriginsOk(s) && t.session == s.session && t.opening == s.opening && t.origins == s.origins
    requires t.attached == s.attached && t.changes == s.changes
    requires t.handles == map[] || t.teardowns == s.teardowns
    requires forall h <- t.handles :: h in s.handles && t.handles[h] == s.handles[h]
    ensures OriginsOk(t)
  {
    forall x <- t.opening ensures OpeningOk(t, t.origins[x]) { assert OpeningOk(s, s.origins[x]); }
    forall h <- t.handles ensures EntryOk(t, t.origins[t.handles[h]]) { assert EntryOk(s, s.origins[s.handles[h]]); }
  }

  lemma AfterOrigins(s: Server, step: Step)
    requires OriginsOk(s) && Allowed(s, step)
    ensures OriginsOk(After(s, step))
  {
    match step
    case Begins(file, opener) => BeginOrigins(s, file, opener);
    case Inserts(file, descriptor, drop) => InsertOrigins(s, file, descriptor, drop);
    case SetsSession(session) => SetSessionOrigins(s, session);
    case _ => SameOrigins(s, After(s, step));
  }

  lemma {:induction false} RunOrigins(s: Server, steps: seq<Step>, end: Server)
    requires OriginsOk(s) && Reaches(s, steps, end)
    ensures OriginsOk(end)
    decreases |steps|
  {
    if steps != [] {
      AfterOrigins(s, steps[0]);
      RunOrigins(After(s, steps[0]), steps[1..], end);
    }
  }

  /** In every reachable state in which no table is still to be emptied, each handle belongs to
      the connected session if and only if each open that made one began while its session was
      connected and was inserted before the session was set again. */
  lemma OwnHandlesExactly(steps: seq<Step>, end: Server)
    requires Reaches(NewServer, steps, end) && end.teardowns == 0
    ensures forall h <- end.handles :: end.handles[h] in end.origins
    ensures OwnHandles(end) <==> forall h <- end.handles :: Undisturbed(end.origins[end.handles[h]])
  {
    RunOrigins(NewServer, steps, end);
    forall h <- end.handles
      ensures Some(end.origins[end.handles[h]].opener) == end.session <==> Undisturbed(end.origins[end.handles[h]])
    {
      assert EntryOk(end, end.origins[end.handles[h]]);
    }
  }

  function SessionsSet(steps: seq<Step>): nat {
    if steps == [] then 0 else SessionsSet(steps[1..]) + if steps[0].SetsSession? then 1 else 0
  }

  /** The counter that `Undisturbed` compares counts how often the session was set. */
  lemma {:induction false} ChangesAreCounted(s: Server, steps: seq<Step>, end: Server)
    requires Reaches(s, steps, end)
    ensures end.changes == s.changes + SessionsSet(steps)
    decreases |steps|
  {
    if steps != [] { ChangesAreCounted(After(s, steps[0]), steps[1..], end); }
  }

  /** The session asked for a file; then another was connected and the table emptied. */
  const Replaced := NewServer.(session := Some(2), attached := {1, 2}, changes := 2,
                               opening := {0}, origins := map[0 := Origin(1, 1, false, None)])

  const Asked := NewServer.(session := Some(1), attached := {1}, changes := 1,
                            opening := {0}, origins := map[0 := Origin(1, 1, false, None)])

  const Asking := [SetsSession(Some(1)), ClosesHandles, Begins(0, 1)]

  const Replacing := [SetsSession(Some(2)), ClosesHandles]

  lemma AskedIsReached()
    ensures Reaches(NewServer, Asking, Asked)
  {
    var s1 := NewServer.(session := Some(1), attached := {1}, changes := 1, teardowns := 1);
    assert SetSession(NewServer, Some(1)) == s1 && Begin(s1.(teardowns := 0), 0, 1) == Asked;
    EmptyTable(s1);
    ReachesBefore(s1.(teardowns := 0), Begins(0, 1), [], Asked);
    ReachesBefore(s1, ClosesHandles, [Begins(0, 1)], Asked);
    ReachesBefore(NewServer, SetsSession(Some(1)), [ClosesHandles, Begins(0, 1)], Asked);
  }

  lemma ReplacedIsReached()
    ensures Reaches(Asked, Replacing, Replaced)
  {
    var s4 := Replaced.(teardowns := 1);
    assert SetSession(Asked, Some(2)) == s4;
    EmptyTable(s4);
    ReachesBefore(s4, ClosesHandles, [], Replaced);
    ReachesBefore(Asked, SetsSession(Some(2)), [ClosesHandles], Replaced);
  }

  /** An open still under way when a second guest connects leaves its handle to that one, and
      nothing is left to take it away. */
  lemma StrayHandle()
    ensures Reaches(NewServer, Asking, Asked) && Reaches(Asked, Replacing, Replaced)
    ensures Allowed(Replaced, Inserts(0, 7, 0))
    ensures var end := After(Replaced, Inserts(0, 7, 0));
            end.teardowns == 0 && end.handles == map[1 := 0] && end.origins[0].opener == 1 && end.session == Some(2)
    ensures !OwnHandles(After(Replaced, Inserts(0, 7, 0)))
  {
    AskedIsReached();
    ReplacedIsReached();
    assert After(Replaced, Inserts(0, 7, 0)).handles == map[1 := 0];
    assert 1 in After(Replaced, Inserts(0, 7, 0)).handles;
  }

  lemma EmptyTable(s: Server)
    requires s.handles == map[] && s.openFiles == map[] && s.teardowns == 1
    ensures CloseHandles(s) == s.(teardowns := 0)
  {
  }

  lemma ReachesBefore(s: Server, step: Step, steps: seq<Step>, end: Server)
    requires Allowed(s, step) && Reaches(After(s, step), steps, end)
    ensures Reaches(s, [step] + steps, end)
  {
    assert ([step] + steps)[1..] == steps;
  }
}
