/** The drop server's handle table as the object it is; each method is one section under its
    lock. The ghost fields follow what the threads do between sections. */
module DropFileServers {
  import opened Wrappers
  import opened Collections
  import opened DropHandles

  class DropFileServer {
    var files: map<nat, File>
    var handles: map<nat, nat>
    var nextHandle: nat
    var drops: map<nat, nat>
    var openFiles: map<nat, int>
    var session: Option<nat>
    ghost var using: multiset<nat>
    ghost var releasing: set<nat>
    ghost var closing: set<nat>
    ghost var closed: seq<nat>
    ghost var opening: set<nat>
    ghost var origins: map<nat, Origin>
    ghost var attached: set<nat>
    ghost var changes: nat
    ghost var teardowns: nat

    ghost function View(): Server
      reads this
    {
      Server(files, handles, nextHandle, drops, openFiles, session, using, releasing, closing, closed,
             opening, origins, attached, changes, teardowns)
    }

    constructor ()
      ensures View() == NewServer
    {
      files, handles, nextHandle, drops, openFiles, session := map[], map[], 1, map[], map[], None;
      using, releasing, closing, closed := multiset{}, {}, {}, [];
      opening, origins, attached, changes, teardowns := {}, map[], {}, 0, 0;
    }

    /** Counts one more or one fewer open file of a drop. */
    method Adjust(drop: nat, change: int)
      modifies this`openFiles
      ensures openFiles == old(openFiles)[drop := (if drop in old(openFiles) then old(openFiles)[drop] else 0) + change]
    {
      var count := if drop in openFiles then openFiles[drop] else 0;
      openFiles := openFiles[drop := count + change];
    }

    /** The session of a guest is connected, or none is. */
    method SetGuest(guest: Option<nat>)
      modifies this`session, this`attached, this`changes, this`teardowns
      ensures View() == SetSession(old(View()), guest)
    {
      session := guest;
      changes, teardowns := changes + 1, teardowns + 1;
      if guest.Some? { attached := attached + {guest.value}; }
    }

    /** The handle, or none when no session is connected and the descriptor must be closed. */
    method InsertFile(file: nat, descriptor: int, drop: nat) returns (handle: Option<nat>)
      requires file in origins
      modifies this
      ensures View() == Insert(old(View()), file, descriptor, drop)
      ensures handle == if old(session).Some? then Some(old(nextHandle)) else None
    {
      opening := opening - {file};
      if session.None? { return None; }
      handle := Some(nextHandle);
      PutFile(file, File(descriptor, drop, 0, false));
      Adjust(drop, 1);
    }

    /** The next handle stands for the file. */
    method PutFile(file: nat, entry: File)
      requires file in origins
      modifies this`nextHandle, this`files, this`handles, this`origins
      ensures nextHandle == old(nextHandle) + 1 && handles == old(handles)[old(nextHandle) := file]
      ensures files == old(files)[file := entry] && origins == old(origins)[file := old(origins)[file].(inserted := Some(changes))]
    {
      handles := handles[nextHandle := file];
      nextHandle := nextHandle + 1;
      files := files[file := entry];
      origins := origins[file := origins[file].(inserted := Some(changes))];
    }

    method AcquireFile(handle: nat) returns (file: Option<nat>)
      modifies this`files, this`using
      ensures (View(), file) == Acquire(old(View()), handle)
    {
      if handle !in handles || handles[handle] !in files { return None; }
      var id := handles[handle];
      files := files[id := files[id].(users := files[id].users + 1)];
      using := using + multiset{id};
      return Some(id);
    }

    /** Whether the caller is to close the descriptor. */
    method RelinquishFile(id: nat) returns (close: bool)
      requires id in files && files[id].users > 0
      modifies this`files, this`using, this`closing
      ensures View() == Relinquish(old(View()), id)
      ensures close <==> files[id].released && files[id].users == 0
    {
      files := files[id := files[id].(users := files[id].users - 1)];
      using := using - multiset{id};
      close := files[id].released && files[id].users == 0;
      if close { closing := closing + {id}; }
    }

    method RemoveHandle(handle: nat) returns (file: Option<nat>)
      modifies this`handles, this`openFiles, this`releasing
      ensures View() == Release(old(View()), handle)
    {
      if handle !in handles || handles[handle] !in files { return None; }
      var id := handles[handle];
      handles := handles - {handle};
      Adjust(files[id].drop, -1);
      releasing := releasing + {id};
      return Some(id);
    }

    /** Whether the caller is to close the descriptor. */
    method MarkReleased(id: nat) returns (close: bool)
      requires id in files
      modifies this`files, this`releasing, this`closing
      ensures View() == ReleaseFile(old(View()), id)
      ensures close <==> files[id].users == 0
    {
      files := files[id := files[id].(released := true)];
      close := files[id].users == 0;
      releasing := releasing - {id};
      if close { closing := closing + {id}; }
    }

    /** Counts one handle out of its drop. */
    method CountOut(h: nat, ghost before: Server, ghost done: set<nat>)
      requires ServerOk(before) && files == before.files && handles == before.handles
      requires h in handles && h !in done && openFiles == Counted(before, done)
      modifies this`openFiles
      ensures openFiles == Counted(before, done + {h})
    {
      OneMoreCounted(before, done, h);
      var drop := files[handles[h]].drop;
      openFiles := openFiles[drop := openFiles[drop] - 1];
    }

    method CountAllOut()
      requires ServerOk(View())
      modifies this`openFiles
      ensures openFiles == CloseHandles(old(View())).openFiles
    {
      ghost var before := View();
      var all := handles.Keys;
      var rest := all;
      NothingCounted(before);
      assert all - rest == {};
      while rest != {}
        invariant rest <= all && openFiles == Counted(before, all - rest)
        decreases |rest|
      {
        var h :| h in rest;
        MovedOver(all, rest, h);
        CountOut(h, before, all - rest);
        rest := rest - {h};
      }
      assert all - rest == all;
      AllCounted(before);
    }

    /** Empties the table and counts every handle out of its drop. */
    method CloseAll()
      requires ServerOk(View())
      modifies this`handles, this`openFiles, this`releasing, this`teardowns
      ensures View() == CloseHandles(old(View()))
    {
      CountAllOut();
      teardowns := if teardowns > 0 then teardowns - 1 else 0;
      releasing := releasing + handles.Values;
      handles := map[];
    }

    method TakeIfIdle(token: nat) returns (taken: bool)
      modifies this`drops
      ensures (View(), taken) == RemoveIfIdle(old(View()), token)
    {
      if token !in drops || (drops[token] in openFiles && openFiles[drops[token]] != 0) { return false; }
      drops := drops - {token};
      return true;
    }
  }

  // ---- Counting handles out one by one ----

  function Among(s: Server, done: set<nat>, drop: nat): set<nat> {
    set h | h in done && h in s.handles && s.handles[h] in s.files && s.files[s.handles[h]].drop == drop
  }

  function Counted(s: Server, done: set<nat>): map<nat, int> {
    map d | d in s.openFiles :: s.openFiles[d] - |Among(s, done, d)|
  }

  lemma NothingCounted(s: Server)
    ensures Counted(s, {}) == s.openFiles
  {
    forall d: nat ensures Among(s, {}, d) == {} {}
  }

  lemma OneMoreAmong(s: Server, done: set<nat>, h: nat, d: nat)
    requires h in s.handles && h !in done && s.handles[h] in s.files
    ensures |Among(s, done + {h}, d)| == |Among(s, done, d)| + if d == s.files[s.handles[h]].drop then 1 else 0
  {
    if d == s.files[s.handles[h]].drop {
      assert Among(s, done + {h}, d) == Among(s, done, d) + {h};
    } else {
      assert Among(s, done + {h}, d) == Among(s, done, d);
    }
  }

  lemma DropIsCounted(s: Server, h: nat)
    requires ServerOk(s) && h in s.handles
    ensures s.handles[h] in s.files && s.files[s.handles[h]].drop in s.openFiles
  {
    var drop := s.files[s.handles[h]].drop;
    assert OpenCount(s, drop) == |HandlesOf(s, drop)| && h in HandlesOf(s, drop);
  }

  lemma OneMoreCounted(s: Server, done: set<nat>, h: nat)
    requires ServerOk(s) && h in s.handles && h !in done
    ensures s.handles[h] in s.files && s.files[s.handles[h]].drop in Counted(s, done)
    ensures var drop := s.files[s.handles[h]].drop;
            Counted(s, done + {h}) == Counted(s, done)[drop := Counted(s, done)[drop] - 1]
  {
    var drop := s.files[s.handles[h]].drop;
    DropIsCounted(s, h);
    var before, after := Counted(s, done), Counted(s, done + {h});
    forall d <- s.openFiles ensures after[d] == if d == drop then before[d] - 1 else before[d] { OneMoreAmong(s, done, h, d); }
  }

  lemma AllCounted(s: Server)
    ensures Counted(s, s.handles.Keys) == CloseHandles(s).openFiles
  {
    forall d: nat ensures Among(s, s.handles.Keys, d) == HandlesOf(s, d) {}
  }
}
