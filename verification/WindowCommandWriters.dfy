/** The writer as the object the connection shares between its threads; each method is one
    section under its lock. */
module WindowCommandWriters {
  import opened Bytes
  import opened Wrappers
  import opened WindowCommands
  import F = NotificationFeedback
  import opened WriterState
  import B = BulkLane
  import RemoteWire
  import WireFormat

  class WindowCommandWriter {
    const path: Option<Path>
    const remote: bool
    var connection: Option<nat>
    var scheduled: bool
    var pending: seq<Command>
    var head: nat
    var guestNotifications: map<nat, nat>
    var notificationFeedback: map<nat, F.Entry>
    var notificationOrder: seq<nat>
    var bulk: Option<Data>
    var bulkOffset: nat
    var bulkQueue: seq<Data>
    var bulkQueueBytes: int
    var flow: RemoteWire.Flow
    var receivedBytes: nat
    var remoteFeedback: seq<Data>

    ghost function TablesView(): F.Tables
      reads this
    {
      F.Tables(guestNotifications, notificationFeedback, notificationOrder)
    }

    ghost function BulkView(): B.Lane
      reads this
    {
      B.Lane(bulk, bulkOffset, bulkQueue, bulkQueueBytes, flow, receivedBytes)
    }

    ghost function View(): Writer
      reads this
    {
      Writer(path, remote, connection, scheduled, pending, head, TablesView(), remoteFeedback, BulkView())
    }

    constructor (path: Option<Path>, remote: bool)
      ensures View() == Writer(path, remote, None, false, [], 0, F.NoTables, [], B.EmptyLane)
    {
      this.path, this.remote := path, remote;
      connection, scheduled, pending, head := None, false, [], 0;
      guestNotifications, notificationFeedback, notificationOrder := map[], map[], [];
      bulk, bulkOffset, bulkQueue, bulkQueueBytes := None, 0, [], 0;
      flow, receivedBytes, remoteFeedback := RemoteWire.InitialFlow, 0, [];
    }

    method ForgetNotifications()
      modifies this`guestNotifications, this`notificationFeedback, this`notificationOrder
      ensures TablesView() == F.NoTables
    {
      guestNotifications, notificationFeedback, notificationOrder := map[], map[], [];
    }

    method ForgetBulk()
      modifies this`bulk, this`bulkOffset, this`flow, this`receivedBytes, this`bulkQueue, this`bulkQueueBytes
      ensures BulkView() == B.EmptyLane
    {
      bulk, bulkOffset, flow, receivedBytes := None, 0, RemoteWire.InitialFlow, 0;
      bulkQueue, bulkQueueBytes := [], 0;
    }

    method LetGo()
      modifies this
      ensures View() == Fail(old(View()))
    {
      connection := None;
      pending, head := [], 0;
      ForgetNotifications();
      scheduled := false;
    }

    method Clear(handle: Option<nat>)
      modifies this
      ensures View() == Install(old(View()), handle)
    {
      LetGo();
      connection := handle;
      ForgetBulk();
      remoteFeedback := [];
    }

    method FileSession(bytes: Data) returns (sent: bool)
      modifies this
      ensures (View(), sent) == SendFileSession(old(View()), bytes)
    {
      var record := WireFormat.FrameOf(RemoteWire.FILE_SESSION_MAGIC + bytes);
      if !remote || record.Err? || connection.None? { return false; }
      bulkQueue := bulkQueue + [record.value];
      bulkQueueBytes := bulkQueueBytes + |record.value|;
      scheduled := true;
      return true;
    }

    method CompactConsumed()
      requires head <= |pending|
      modifies this`pending, this`head
      ensures View() == Compact(old(View()))
    {
      if head > 0 {
        pending := pending[head..];
        head := 0;
      } else {
        assert pending[0..] == pending;
      }
    }

    method EnqueueCommand(command: Command)
      modifies this`pending
      ensures pending == Coalesce(old(pending), command)
    {
      if pending != [] {
        var merged := Merged(pending[|pending| - 1], command);
        if merged.Some? {
          pending := pending[|pending| - 1 := merged.value];
          return;
        }
      }
      pending := pending + [command];
    }

    method RemoveNotificationFeedback(id: nat)
      modifies this`notificationFeedback, this`notificationOrder
      ensures TablesView() == F.Remove(old(TablesView()), id)
    {
      notificationFeedback := notificationFeedback - {id};
      notificationOrder := F.Without(notificationOrder, id);
    }

    method ObserveNotification(id: nat, revision: nat)
      modifies this`guestNotifications, this`notificationFeedback, this`notificationOrder
      ensures TablesView() == F.ObserveLive(old(TablesView()), id, revision)
    {
      if id == 0 || revision == 0 { return; }
      if id !in guestNotifications && |guestNotifications| >= F.MAXIMUM_NOTIFICATIONS { return; }
      if id in guestNotifications && revision < guestNotifications[id] { return; }
      if !(id in guestNotifications && guestNotifications[id] == revision) { RemoveNotificationFeedback(id); }
      guestNotifications := guestNotifications[id := revision];
    }

    method ObserveGuestNotification(event: F.GuestEvent)
      modifies this`guestNotifications, this`notificationFeedback, this`notificationOrder
      ensures View() == SeeGuest(old(View()), event)
    {
      if connection.None? { return; }
      match event
      case ChannelReady =>
        guestNotifications, notificationFeedback, notificationOrder := map[], map[], [];
      case Posted(id, revision) => ObserveNotification(id, revision);
      case Rejected(id, revision) =>
        if id.Some? && revision.Some? { ObserveNotification(id.value, revision.value); }
      case Closed(id, revision) =>
        if id in guestNotifications && guestNotifications[id] <= revision {
          guestNotifications := guestNotifications - {id};
          RemoveNotificationFeedback(id);
        }
      case Unrelated =>
    }

    /** True for the optional commands, queued or refused. */
    method EnqueueNotification(command: Command) returns (optional: bool)
      modifies this`notificationFeedback, this`notificationOrder
      ensures optional == F.Answers(command)
      ensures TablesView() == if optional then F.Answer(old(TablesView()), command) else old(TablesView())
    {
      if command.NotificationAction? {
        if !F.GoodKey(command.key) { return true; }
      } else if !command.NotificationClosed? {
        return false;
      }
      var id, revision := command.id, command.revision;
      if id !in guestNotifications || guestNotifications[id] != revision { return true; }
      var entry := F.Entry(revision, None, None);
      if id in notificationFeedback {
        entry := notificationFeedback[id];
      } else {
        notificationOrder := notificationOrder + [id];
      }
      entry := if command.NotificationAction? then entry.(action := Some(command)) else entry.(closed := Some(command));
      notificationFeedback := notificationFeedback[id := entry];
      return true;
    }

    /** A command for the lossless queue; whether that is full. */
    method SendLossless(command: Command) returns (full: bool)
      modifies this`pending, this`scheduled
      ensures full <==> |old(pending)| >= MAXIMUM_PENDING_COMMANDS
      ensures if full then pending == old(pending) && scheduled == old(scheduled)
              else pending == Coalesce(old(pending), command) && scheduled
    {
      if |pending| >= MAXIMUM_PENDING_COMMANDS { return true; }
      EnqueueCommand(command);
      scheduled := true;
      return false;
    }

    method SendCommand(command: Command) returns (full: bool)
      requires head <= |pending|
      requires path.None? || command.TransportLane() == path.value
      modifies this
      ensures (View(), full) == Send(old(View()), command)
    {
      if connection.None? { return false; }
      CompactConsumed();
      var optional := EnqueueNotification(command);
      if optional {
        if !scheduled && notificationOrder != [] { scheduled := true; }
        return false;
      }
      full := SendLossless(command);
    }

    method AcknowledgeRemoteBytes(count: nat, received: bool, now: real) returns (corrupt: bool)
      requires RemoteWire.FlowValid(flow)
      modifies this
      ensures (View(), corrupt) == AcknowledgeBytes(old(View()), count, received, now)
    {
      if !remote || connection.None? || count == 0 { return true; }
      if received {
        receivedBytes := receivedBytes + count;
      } else {
        var (acknowledged, ok) := RemoteWire.Acknowledge(flow, count, now);
        if !ok { return true; }
        flow := acknowledged;
      }
      scheduled := true;
      return false;
    }

    method RemotePresentation(payload: Data) returns (full: bool)
      modifies this
      ensures (View(), full) == Present(old(View()), payload)
    {
      if !remote || connection.None? { return false; }
      if |remoteFeedback| >= MAXIMUM_PENDING_COMMANDS { return true; }
      remoteFeedback := remoteFeedback + [payload];
      scheduled := true;
      return false;
    }

    method LoadBulk()
      modifies this`bulk, this`bulkOffset, this`bulkQueue, this`bulkQueueBytes
      ensures BulkView() == B.Load(old(BulkView()))
    {
      if bulk.None? && bulkQueue != [] {
        bulk, bulkOffset := Some(bulkQueue[0]), 0;
        bulkQueueBytes := bulkQueueBytes - |bulkQueue[0]|;
        bulkQueue := bulkQueue[1..];
      }
    }

    method FirstIndex() returns (index: Option<nat>)
      ensures index == FirstSendable(pending)
    {
      var k := 0;
      while k < |pending| && pending[k].HostSelectionData?
        invariant k <= |pending|
        invariant FirstSendable(pending)
               == var rest := FirstSendable(pending[k..]); if rest.Some? then Some(rest.value + k) else None
      {
        assert pending[k..][1..] == pending[k + 1..];
        k := k + 1;
      }
      return if k < |pending| then Some(k) else None;
    }

    method TakeCommand(index: nat) returns (out: Outbound)
      requires head <= index < |pending|
      modifies this`pending, this`head
      ensures (View(), out) == TakeNext(old(View()), index)
    {
      if path == Some(WindowCommands.Feedback) && pending[head].FrameReleased? {
        var end := head + 1;
        while end < head + BATCH && end < |pending| && pending[end].FrameReleased?
          invariant head < end <= |pending|
          invariant BatchEnd(pending, end, head + BATCH) == BatchEnd(pending, head + 1, head + BATCH)
        {
          end := end + 1;
        }
        out := Batch(pending[head..end]);
        head := end;
      } else if !remote {
        out := Single(pending[head]);
        head := head + 1;
      } else {
        out := Single(pending[index]);
        pending := pending[..index] + pending[index + 1..];
      }
      if head == |pending| {
        pending, head := [], 0;
      }
    }

    method TakeFeedback() returns (command: Command)
      requires F.TablesOk(TablesView()) && notificationOrder != []
      modifies this`guestNotifications, this`notificationFeedback, this`notificationOrder
      ensures F.TakeAnswer(old(TablesView())) == F.Emits(TablesView(), command)
    {
      F.TakeAnswerOk(TablesView());
      var id := notificationOrder[0];
      var feedback := notificationFeedback[id];
      if feedback.action.Some? {
        command := feedback.action.value;
        feedback := feedback.(action := None);
      } else {
        command := feedback.closed.value;
        feedback := feedback.(closed := None);
        if id in guestNotifications && guestNotifications[id] == feedback.revision {
          guestNotifications := guestNotifications - {id};
        }
      }
      if feedback.action.None? && feedback.closed.None? {
        RemoveNotificationFeedback(id);
      } else {
        notificationFeedback := notificationFeedback[id := feedback];
      }
    }

    method TakeCredit() returns (payload: Data)
      requires receivedBytes <= UINT32_MAX
      modifies this`receivedBytes
      ensures (BulkView(), payload) == B.SendCredit(old(BulkView()))
    {
      payload := RemoteWire.Acknowledgement(receivedBytes);
      receivedBytes := 0;
    }

    method TakeFragment(now: real) returns (piece: Option<Data>)
      requires B.LaneOk(BulkView())
      modifies this`bulk, this`bulkOffset, this`flow
      ensures (BulkView(), piece) == B.SendFragment(old(BulkView()), now)
    {
      if bulk.None? { return None; }
      var bytes := bulk.value;
      var (asked, count) := RemoteWire.Allowance(flow, |bytes| - bulkOffset);
      flow := asked;
      if count == 0 { return None; }
      piece := Some(RemoteWire.Fragment(bytes, bulkOffset, 2, count));
      flow := RemoteWire.Sent(flow, count, now);
      bulkOffset := bulkOffset + count;
      if bulkOffset == |bytes| {
        bulk, bulkOffset := None, 0;
      }
    }

    /** Makes the queues ready for one turn. */
    method Prepare()
      requires WriterOk(View())
      modifies this
      ensures View() == Prepared(old(View()))
    {
      if remote { CompactConsumed(); }
      LoadBulk();
    }

    /** The last resort of a turn: a fragment if there is credit, or rest. */
    method TakeFragmentOrRest(now: real) returns (out: Option<Outbound>)
      requires WriterOk(View()) && (Choice(View()).Fragment? || Choice(View()).Nothing?)
      modifies this`bulk, this`bulkOffset, this`flow, this`scheduled
      ensures (View(), out) == Turned(old(View()), now)
    {
      var piece := TakeFragment(now);
      if piece.Some? {
        out := Some(Piece(piece.value));
      } else {
        scheduled := false;
        out := None;
      }
    }

    /** What goes once there is neither credit nor a report to send. */
    method TakeQueued(index: Option<nat>, now: real) returns (out: Option<Outbound>)
      requires WriterOk(View()) && !Choice(View()).Credit? && !Choice(View()).Report?
      requires index.Some? ==> Choice(View()) == Next(index.value) && head <= index.value < |pending|
      requires index.None? ==> !Choice(View()).Next?
      modifies this
      ensures (View(), out) == Turned(old(View()), now)
    {
      if index.Some? {
        var taken := TakeCommand(index.value);
        out := Some(taken);
      } else if notificationOrder != [] && notificationOrder[0] in notificationFeedback {
        var command := TakeFeedback();
        out := Some(Single(command));
      } else {
        out := TakeFragmentOrRest(now);
      }
    }

    /** One turn on prepared queues. */
    method TakeTurn(now: real) returns (out: Option<Outbound>)
      requires WriterOk(View())
      requires Choice(View()).Next? ==> head <= Choice(View()).index < |pending|
      modifies this
      ensures (View(), out) == Turned(old(View()), now)
    {
      var index := if head < |pending| then Some(head) else None;
      if bulk.Some? { index := FirstIndex(); }
      if remote && receivedBytes > 0 {
        var payload := TakeCredit();
        out := Some(Payload(payload));
      } else if remoteFeedback != [] {
        out := Some(Payload(remoteFeedback[0]));
        remoteFeedback := remoteFeedback[1..];
      } else {
        out := TakeQueued(index, now);
      }
    }

    method TakeOutbound(now: real, descriptor: bool) returns (out: Option<Outbound>)
      requires WriterOk(View())
      modifies this
      ensures (View(), out) == Take(old(View()), now, descriptor)
    {
      if connection.None? {
        scheduled := false;
        return None;
      }
      PreparedOk(View());
      Prepare();
      out := TakeTurn(now);
      if out.Some? && !descriptor {
        LetGo();
        out := None;
      }
    }

    method RequeueSelection(owner: nat, record: Data)
      modifies this`bulkQueue, this`bulkQueueBytes
      ensures View() == Requeue(old(View()), owner, record)
    {
      if connection == Some(owner) {
        bulkQueue := bulkQueue + [record];
        bulkQueueBytes := bulkQueueBytes + |record|;
      }
    }

    method WriteFails(owner: nat)
      modifies this
      ensures View() == WriteFailed(old(View()), owner)
    {
      if connection == Some(owner) { LetGo(); }
    }
  }
}
