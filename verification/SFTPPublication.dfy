/** Putting an uploaded tree in its place: renames that may be refused or whose outcome may
    never be known, and cancellation that waits for them. */
module SFTPPublication {
  import opened Wrappers

  // ---- Renames ----

  type Path = nat
  type Tree = int
  type Names = map<Path, Tree>

  /** What becomes of one rename request: it is carried out, turned down, or its reply is
      lost after the server did or did not carry it out. */
  datatype Fate = Done | TurnedDown | LostDone | LostUndone

  datatype Reply = Success | Status | Lost

  function Moved(names: Names, source: Path, destination: Path): Names
    requires source in names
  {
    (names - {source})[destination := names[source]]
  }

  /** A plain rename never replaces what is at its destination. */
  predicate Possible(names: Names, source: Path, destination: Path, replacing: bool) {
    source in names && source != destination && (replacing || destination !in names)
  }

  function Rename(names: Names, source: Path, destination: Path, replacing: bool, fate: Fate): (Names, Reply) {
    var after := if Possible(names, source, destination, replacing) then Moved(names, source, destination) else names;
    match fate
    case Done => if Possible(names, source, destination, replacing) then (after, Success) else (names, Status)
    case TurnedDown => (names, Status)
    case LostDone => (after, Lost)
    case LostUndone => (names, Lost)
  }

  /** A server without the extension has no request that replaces; it turns that one down. */
  function Serve(names: Names, posixRename: bool, source: Path, destination: Path, replacing: bool, fate: Fate): (Names, Reply) {
    if replacing && !posixRename then (names, if fate.LostDone? || fate.LostUndone? then Lost else Status)
    else Rename(names, source, destination, replacing, fate)
  }

  // ---- The transaction ----

  datatype Exit = Published | Cancelled | Failed | RecoveryRequired

  /** Moves the original aside and the new tree in; after a failure that may have moved the
      original, moves it back. */
  function Replace(names: Names, destination: Path, staging: Path, backup: Path, fates: (Fate, Fate, Fate)): (Names, Exit) {
    var (aside, first) := Rename(names, destination, backup, false, fates.0);
    if first.Status? then (aside, Failed)
    else
      var (after, second) := if first.Success? then Rename(aside, staging, destination, false, fates.1) else (aside, Lost);
      if second.Success? then (after, Published)
      else
        var (restored, third) := Rename(after, backup, destination, false, fates.2);
        (restored, if third.Success? then Failed else RecoveryRequired)
  }

  datatype Strategy = Fresh | Atomic | Backup

  /** What is done about a destination that was there when the transfer looked, or was not. */
  function StrategyFor(existing: bool, isFile: bool, posixRename: bool): Strategy {
    if !existing then Fresh else if isFile && posixRename then Atomic else Backup
  }

  function Publish(names: Names, posixRename: bool, destination: Path, staging: Path, backup: Path, strategy: Strategy,
                   fates: (Fate, Fate, Fate)): (Names, Exit) {
    if strategy.Backup? then Replace(names, destination, staging, backup, fates)
    else
      var (after, reply) := Serve(names, posixRename, staging, destination, strategy.Atomic?, fates.0);
      (after, if reply.Success? then Published else Failed)
  }

  predicate Distinct(destination: Path, staging: Path, backup: Path) {
    destination != staging && destination != backup && staging != backup
  }

  lemma BackAgain(names: Names, source: Path, destination: Path)
    requires source in names && destination !in names
    ensures Moved(Moved(names, source, destination), destination, source) == names
  {
  }

  /** Every way out of a replacement leaves the new tree at the destination, or everything
      exactly as it was, or announces a recovery with the original at the destination or at
      the backup and the new tree at the destination or still staged. */
  lemma OriginalIsNeverLost(names: Names, destination: Path, staging: Path, backup: Path, fates: (Fate, Fate, Fate))
    requires Distinct(destination, staging, backup)
    requires destination in names && staging in names && backup !in names
    ensures var (after, exit) := Replace(names, destination, staging, backup, fates);
            && !exit.Cancelled?
            && (exit.Published? ==> after == (names - {staging})[destination := names[staging]][backup := names[destination]])
            && (exit.Failed? ==> after == names)
            && (exit.RecoveryRequired? ==>
                  (destination in after && after[destination] == names[destination] && staging in after && after[staging] == names[staging])
                  || (backup in after && after[backup] == names[destination]
                      && ((destination in after && after[destination] == names[staging])
                          || (staging in after && after[staging] == names[staging]))))
            && (forall p :: p != destination && p != staging && p != backup ==>
                  (p in after <==> p in names) && (p in names ==> after[p] == names[p]))
  {
    BackAgain(names, destination, backup);
  }

  /** A recovery is announced exactly when moving the original aside may have happened and
      moving it back was not confirmed. */
  lemma RecoveryExactly(names: Names, destination: Path, staging: Path, backup: Path, fates: (Fate, Fate, Fate))
    requires Distinct(destination, staging, backup)
    requires destination in names && staging in names && backup !in names
    ensures Replace(names, destination, staging, backup, fates).1.RecoveryRequired? <==>
            match fates.0
            case TurnedDown => false
            case LostUndone => true
            case LostDone => fates.2 != Done
            case Done => fates.1 == LostDone || (fates.1 != Done && fates.2 != Done)
  {
  }

  /** With one rename the destination has the old tree or the new one; a failure is reported
      for a tree that did arrive exactly when the reply was lost. */
  lemma OneRenameIsAtomic(names: Names, destination: Path, staging: Path, backup: Path, strategy: Strategy, fates: (Fate, Fate, Fate))
    requires Distinct(destination, staging, backup) && staging in names && !strategy.Backup?
    requires strategy.Fresh? ==> destination !in names
    ensures var (after, exit) := Publish(names, true, destination, staging, backup, strategy, fates);
            && (after == names || after == Moved(names, staging, destination))
            && (exit.Published? <==> fates.0.Done?)
            && (exit.Published? ==> after == Moved(names, staging, destination))
            && (exit.Failed? && after != names <==> fates.0.LostDone?)
  {
    assert Moved(names, staging, destination) != names;
  }

  /** A destination that appeared in the meantime is left alone. */
  lemma LatecomerSurvives(names: Names, posixRename: bool, destination: Path, staging: Path, backup: Path, fates: (Fate, Fate, Fate))
    requires destination in names
    ensures Publish(names, posixRename, destination, staging, backup, Fresh, fates) == (names, Failed)
  {
  }

  /** Whatever the destination is and the server can do: without trouble the tree is published,
      and a published tree is at the destination; after any other exit the original is still
      there or in the backup, except for a file on a server that replaces it in one step, when
      only the reply was lost. */
  lemma EveryExitIsSafe(names: Names, destination: Path, staging: Path, backup: Path, isFile: bool, posixRename: bool,
                        fates: (Fate, Fate, Fate))
    requires Distinct(destination, staging, backup) && staging in names && backup !in names
    ensures var strategy := StrategyFor(destination in names, isFile, posixRename);
            var (after, exit) := Publish(names, posixRename, destination, staging, backup, strategy, fates);
            && (fates == (Done, Done, Done) ==> exit.Published?)
            && (exit.Published? ==> destination in after && after[destination] == names[staging] && staging !in after)
            && (!exit.Published? && destination in names ==>
                  || (destination in after && after[destination] == names[destination])
                  || (backup in after && after[backup] == names[destination])
                  || (isFile && posixRename && fates.0.LostDone? && destination in after && after[destination] == names[staging]))
            && (!exit.Published? && destination !in names ==> after == names || after == Moved(names, staging, destination))
            && (exit.Failed? && (destination in names ==> !(isFile && posixRename)) && (destination !in names ==> !fates.0.LostDone?) ==>
                  after == names)
  {
    var strategy := StrategyFor(destination in names, isFile, posixRename);
    if strategy.Backup? {
      OriginalIsNeverLost(names, destination, staging, backup, fates);
    } else {
      OneRenameIsAtomic(names, destination, staging, backup, strategy, fates);
    }
  }

  // ---- Cleaning up ----

  /** Removing a tree may stop half way and leave some of it. */
  function Removed(names: Names, path: Path, left: Option<Tree>): Names {
    if path !in names then names else if left.None? then names - {path} else names[path := left.value]
  }

  /** After a replacement the backup is removed as far as possible, after a failure the staged
      tree, and after a recovery nothing. */
  function Concluded(names: Names, staging: Path, backup: Path, strategy: Strategy, exit: Exit, left: Option<Tree>): Names {
    match exit
    case Published => if strategy.Backup? then Removed(names, backup, left) else names
    case RecoveryRequired => names
    case _ => Removed(names, staging, left)
  }

  /** Cleaning up never touches what counts: a published destination has the new tree, a
      failed replacement the original, and a recovery still finds the original. */
  lemma CleanupSparesTheOriginal(names: Names, destination: Path, staging: Path, backup: Path, fates: (Fate, Fate, Fate), left: Option<Tree>)
    requires Distinct(destination, staging, backup)
    requires destination in names && staging in names && backup !in names
    ensures var (after, exit) := Replace(names, destination, staging, backup, fates);
            var end := Concluded(after, staging, backup, Backup, exit, left);
            && (exit.Published? ==> destination in end && end[destination] == names[staging])
            && (exit.Failed? ==> destination in end && end[destination] == names[destination])
            && (exit.RecoveryRequired? ==>
                  (destination in end && end[destination] == names[destination])
                  || (backup in end && end[backup] == names[destination]))
  {
    OriginalIsNeverLost(names, destination, staging, backup, fates);
  }

  // ---- Cancellation ----

  /** A cancellation that arrives while a tree is being published waits for the end. */
  datatype Cancellation = Cancellation(cancelled: bool, requested: bool, publishing: bool)

  const Calm := Cancellation(false, false, false)

  function Begin(c: Cancellation): (Cancellation, bool) {
    if c.cancelled || c.requested then (c, false) else (c.(publishing := true), true)
  }

  function Cancel(c: Cancellation): Cancellation {
    if c.publishing then c.(requested := true) else c.(requested := true, cancelled := true)
  }

  function End(c: Cancellation): Cancellation {
    var ended := c.(publishing := false);
    if c.requested then Cancel(ended) else ended
  }

  datatype Event = Begins | Ends | Cancels

  function Next(c: Cancellation, e: Event): Cancellation {
    match e
    case Begins => Begin(c).0
    case Ends => End(c)
    case Cancels => Cancel(c)
  }

  function After(c: Cancellation, events: seq<Event>): Cancellation {
    if events == [] then c else Next(After(c, events[..|events| - 1]), events[|events| - 1])
  }

  /** The last attempt to publish began, before any cancellation, and has not ended. */
  predicate Publishing(events: seq<Event>) {
    if events == [] then false
    else
      var front := events[..|events| - 1];
      match events[|events| - 1]
      case Begins => Publishing(front) || Cancels !in front
      case Ends => false
      case Cancels => Publishing(front)
  }

  /** Whatever the order of events, an operation is interrupted exactly if a cancellation
      arrived and nothing is being published: a publication is never cut short, and a
      cancellation never forgotten. */
  lemma {:induction false} CancellationWaits(events: seq<Event>)
    ensures var c := After(Calm, events);
            && c.requested == (Cancels in events)
            && c.publishing == Publishing(events)
            && c.cancelled == (Cancels in events && !Publishing(events))
  {
    if events != [] {
      var front, last := events[..|events| - 1], events[|events| - 1];
      CancellationWaits(front);
      assert events == front + [last];
      assert Cancels in events <==> Cancels in front || last == Cancels;
    }
  }

  predicate Sound(c: Cancellation) { c.cancelled == (c.requested && !c.publishing) }

  // ---- The objects ----

  class SFTPTransport {
    var cancelled: bool
    var cancellationRequested: bool
    var publishing: bool

    function View(): Cancellation
      reads this
    {
      Cancellation(cancelled, cancellationRequested, publishing)
    }

    constructor ()
      ensures View() == Calm
    {
      cancelled, cancellationRequested, publishing := false, false, false;
    }

    method CheckCancellation() returns (ok: bool)
      ensures ok == !cancelled
    {
      return !cancelled;
    }

    method BeginPublication() returns (ok: bool)
      modifies this
      ensures (View(), ok) == Begin(old(View()))
    {
      if cancelled || cancellationRequested { return false; }
      publishing := true;
      return true;
    }

    method CancelAll()
      modifies this
      ensures View() == Cancel(old(View()))
    {
      cancellationRequested := true;
      if publishing { return; }
      cancelled := true;
    }

    method EndPublication()
      modifies this
      ensures View() == End(old(View()))
    {
      publishing := false;
      if cancellationRequested { CancelAll(); }
    }
  }

  datatype Asked = Asked(source: Path, destination: Path, replacing: bool)

  /** The names a server keeps, and the renames it was asked for; each request meets the fate
      given for it. */
  class RemoteNames {
    var names: Names
    var asked: seq<Asked>
    const posixRename: bool

    constructor (names: Names, posixRename: bool)
      ensures this.names == names && this.posixRename == posixRename && asked == []
    {
      this.names := names;
      this.posixRename := posixRename;
      asked := [];
    }

    method Move(source: Path, destination: Path, replacing: bool, fate: Fate) returns (reply: Reply)
      modifies this
      ensures (names, reply) == Serve(old(names), posixRename, source, destination, replacing, fate)
      ensures asked == old(asked) + [Asked(source, destination, replacing)]
    {
      asked := asked + [Asked(source, destination, replacing)];
      var possible := source in names && source != destination && (replacing || destination !in names) && !(replacing && !posixRename);
      if possible && (fate.Done? || fate.LostDone?) { names := (names - {source})[destination := names[source]]; }
      return if fate.LostDone? || fate.LostUndone? then Lost else if possible && fate.Done? then Success else Status;
    }
  }

  /** Somebody may cancel at any moment. */
  method Interfere(t: SFTPTransport)
    requires Sound(t.View())
    modifies t
    ensures Sound(t.View()) && t.publishing == old(t.publishing)
    ensures old(t.cancellationRequested) ==> t.cancellationRequested
  {
    var cancels: bool := *;
    if cancels { t.CancelAll(); }
  }

  /** One request while something is being published. */
  method Request(t: SFTPTransport, remote: RemoteNames, source: Path, destination: Path, replacing: bool, fate: Fate)
    returns (reply: Reply)
    requires Sound(t.View())
    modifies t, remote
    ensures Sound(t.View()) && t.publishing == old(t.publishing)
    ensures old(t.cancellationRequested) ==> t.cancellationRequested
    ensures old(t.publishing) ==> (remote.names, reply) == Serve(old(remote.names), remote.posixRename, source, destination, replacing, fate)
    ensures old(t.publishing) ==> remote.asked == old(remote.asked) + [Asked(source, destination, replacing)]
  {
    Interfere(t);
    var ok := t.CheckCancellation();
    if !ok { return Lost; }
    reply := remote.Move(source, destination, replacing, fate);
    Interfere(t);
  }

  method MoveBack(t: SFTPTransport, remote: RemoteNames, destination: Path, backup: Path, fate: Fate) returns (exit: Exit)
    requires Sound(t.View()) && t.publishing
    modifies t, remote
    ensures Sound(t.View()) && t.publishing
    ensures var (restored, third) := Rename(old(remote.names), backup, destination, false, fate);
            remote.names == restored && exit == if third.Success? then Failed else RecoveryRequired
    ensures remote.asked == old(remote.asked) + [Asked(backup, destination, false)]
  {
    var third := Request(t, remote, backup, destination, false, fate);
    return if third.Success? then Failed else RecoveryRequired;
  }

  method ReplaceOriginal(t: SFTPTransport, remote: RemoteNames, destination: Path, staging: Path, backup: Path,
                         fates: (Fate, Fate, Fate)) returns (exit: Exit)
    requires Sound(t.View()) && t.publishing
    modifies t, remote
    ensures Sound(t.View()) && t.publishing
    ensures (remote.names, exit) == Replace(old(remote.names), destination, staging, backup, fates)
    ensures old(remote.asked) < remote.asked && forall a <- remote.asked[|old(remote.asked)|..] :: !a.replacing
  {
    var movedOriginal := false;
    var reply := Request(t, remote, destination, backup, false, fates.0);
    if reply.Success? {
      movedOriginal := true;
      reply := Request(t, remote, staging, destination, false, fates.1);
      if reply.Success? { return Published; }
    }
    if !movedOriginal && reply.Status? { return Failed; }
    exit := MoveBack(t, remote, destination, backup, fates.2);
  }

  /** Either nothing is begun, because a cancellation came first, or the publication runs to
      its end; a cancellation that came meanwhile takes effect then. The server is asked to
      replace the destination exactly if that exists, is a file and the server can. */
  method WithPublication(t: SFTPTransport, remote: RemoteNames, destination: Path, staging: Path, backup: Path,
                         existing: bool, isFile: bool, fates: (Fate, Fate, Fate)) returns (exit: Exit)
    requires Sound(t.View()) && !t.publishing
    modifies t, remote
    ensures Sound(t.View()) && !t.publishing
    ensures exit.Cancelled? <==> old(t.cancellationRequested)
    ensures exit.Cancelled? ==> remote.names == old(remote.names) && remote.asked == old(remote.asked)
    ensures !exit.Cancelled? ==>
      (remote.names, exit)
        == Publish(old(remote.names), remote.posixRename, destination, staging, backup,
                   StrategyFor(existing, isFile, remote.posixRename), fates)
    ensures old(remote.asked) <= remote.asked
    ensures !exit.Cancelled? ==>
      var asked := remote.asked[|old(remote.asked)|..];
      if existing && isFile && remote.posixRename then asked == [Asked(staging, destination, true)]
      else asked != [] && (forall a <- asked :: !a.replacing) && (!existing ==> asked == [Asked(staging, destination, false)])
  {
    var ok := t.BeginPublication();
    if !ok { return Cancelled; }
    if !existing {
      var reply := Request(t, remote, staging, destination, false, fates.0);
      exit := if reply.Success? then Published else Failed;
    } else if isFile && remote.posixRename {
      var reply := Request(t, remote, staging, destination, true, fates.0);
      exit := if reply.Success? then Published else Failed;
    } else {
      exit := ReplaceOriginal(t, remote, destination, staging, backup, fates);
    }
    t.EndPublication();
  }
}
