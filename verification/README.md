# NativePipe protocol verification

NativePipe runs Linux guests on a Mac and exchanges windows, files and notifications with
them. Between the processes sit several hand-written protocols and state machines. This
project models their logic in Dafny and proves what they promise over whole runs, whatever
the interleaving of threads, the cut of byte streams and the order of replies.

## How the source is modelled

Code between two points where another thread can run (a lock section, a block on a serial
queue, the code between two awaits) is one atomic step. The session, the writer, the decoders,
the inbox, the connections, the broker, the drop server, the budget and the frame store are
classes with the fields of the source; their methods follow it statement by statement, with
its loops, and are proved equal to a function from the old state to the new one. The lemmas
about whole runs speak about those functions: a run is a sequence of such steps in any order,
so they hold for every scheduling. A continuation is a numbered ticket, an object that
is only compared by identity is a number, and time, a decoded picture or a reply from outside
is a parameter that can be anything the outside may choose.

| component | files |
|---|---|
| NPFR v2 file session | FileFrames, SessionState, SessionInvariant, SessionSteps, SessionGreeting, SessionNetwork, SessionPipe, SessionCalls, SessionCancels, SessionVerdicts, FileSessions |
| remote bulk lane and its credit | RemoteWire, RemoteFlows, BulkLane |
| window command writer | WindowCommands, NotificationFeedback, NotificationAnswers, WriterState, WriterRuns, WriterDrains, WriterTurns, WindowCommandWriters |
| incremental decoders | Draining, WireFormat, FrameDecoding, StreamDecoder, RemoteRecords |
| guest notification inbox | NotificationInbox, NotificationDrain |
| SFTP version 3 transfers | SFTPConnections, SFTPTransfers, SFTPDownloads, SFTPListings, SFTPPublication |
| shared-volume broker | SharedNames, SharedTree, BrokerState, BrokerInvariant, BrokerSteps, BrokerRuns, BrokerRevocation, BrokerListing, BrokerAnswers, BrokerItems, SharedFileVolumeBrokers |
| drop server handles | DropHandles, DropFileServers |
| remote frames and pixel budget | PixelBudget, RemoteFrames, FrameRuns, FrameOrigins, FrameArrivals, FrameCases, FrameLeases, RemoteFrameSources |
| version scanner | VersionScan |

`dafny verify dfyconfig.toml` checks everything; Bytes, Wrappers and Collections are shared.

## Where the code does not keep a promise

- A file session accepts requests before HELLO is queued: before `start`, and also between its
  two lock sections, since `started` is set in the first and HELLO queued in the second. The
  request reaches the wire first and the peer ends the session with EPROTO. Waiting for a
  call of `start` to return is not enough when another thread called it first.
  `SessionPipe.HelloFirst` gives the exact condition (each request and notification comes
  after the section that queues HELLO), `SessionPipe.RequestBeforeStart` and
  `SessionPipe.RequestDuringStart` the two inputs.
- The drop server says that a handle belongs to the session that opened it, but the section
  that inserts the handle only asks whether some session is connected. An open still under way
  when its session is replaced leaves its handle with the new one.
  `DropHandles.OwnHandlesExactly` gives the exact condition over runs (each open began in the
  connected session, which was not set again before the handle was inserted) and
  `DropHandles.StrayHandle` the run. Between setting the session and emptying the table the
  handles of the one before are always there. Closing once, never while in use, and the idle
  count hold all the same.
- A picture that asks for an alpha plane to be used again when there is none leaves its
  reservation in the stream without being tracked, until the failure is recorded in a later
  lock section. `FrameRuns.PendingIsBounded` says which packet does it, as an equivalence over
  runs, and `FrameRuns.StrayReservation` gives the input.
- A layer that is told its frame is unavailable need not wait for it, since it is not to come
  any more. It does come when its number is published again while it is the newest of its
  stream: the check for the layer includes that number and the check for storing does not.
  `FrameArrivals.PassedStaysAway` gives the exact condition over runs, `FrameArrivals.OnlySentAgain`
  what a sender has to avoid, and `FrameCases.NumberAgain` the run. The numbers a stream got to
  are also asked for between `removeAll` and the removal of the streams, when they are those of
  the connection before: `FrameCases.ToldByOldStream`.
- Making room is to keep the latest frame of every source, but frames are stored by number
  alone. `FrameRuns.LatestSurvives` gives the exact condition (nobody else lists the number
  among its older frames) and `FrameCases.SharedNumber` the run.
- A rename whose reply is lost is reported as failed although it happened.
  `SFTPPublication.OneRenameIsAtomic` and `SFTPPublication.RecoveryExactly` say exactly when.

## Model

| member | source | states |
|---|---|---|
| SessionNetwork.NoProtocolError | Sources/NativePipeProtocol/FileSession.swift:309-370 | Two sessions of opposite roles from the moment they are made, stepped one lock section at a time in any interleaving (both sections of start, requests, responses, sends, notifications, receives, cancels, releases, writes, failures, reads): as long as neither side asks for anything before the section of start that queues HELLO, the oldest frame in either channel is never answered with EPROTO |
| SessionNetwork.NoFrameForgotten | Sources/NativePipeProtocol/FileSession.swift:236-254 | In every such state, on both sides: a session that lives, has a frame queued and is not writing has a pump still to come, and that pump writes the oldest frame |
| SessionNetwork.LegalAccepted | Sources/NativePipeProtocol/FileSession.swift:309-370 | A frame a legal sender may queue after what the receiver has acted on is one the receiver acts on without EPROTO |
| SessionNetwork.RunValid | Sources/NativePipeProtocol/FileSession.swift:93-206 | After any such run both sessions keep their invariant, and in each direction what was acted on, what is in the channel and what is queued make up what was accepted, in order (a prefix once the sender failed); a session that has not queued HELLO has sent nothing |
| SessionPipe.StreamIsPipe | Sources/NativePipeProtocol/FileSession.swift:143-179 | In every reachable state, while the sender has not failed and for a stream its receiver did not cancel: messages returned, buffered, in the channel and in the sender's queue are, concatenated, exactly the messages accepted for that stream |
| SessionPipe.MessagesCarry | Sources/NativePipeProtocol/FileSession.swift:351-363 | The messages of a stream hold exactly the DATA bytes queued for it |
| SessionPipe.EndIsTheEnd | Sources/NativePipeProtocol/FileSession.swift:166-179 | `receive` reports the end only after everything the peer ever had accepted for the stream was returned |
| SessionPipe.NothingAfterEnd | Sources/NativePipeProtocol/FileSession.swift:262-268 | After a half close nothing more is queued for that direction of the stream |
| SessionPipe.SendIsWhole | Sources/NativePipeProtocol/FileSession.swift:143-164 | Run without interference a `send` is all or nothing: it is accepted exactly if the stream is usable and has room for all the bytes; otherwise nothing changes; accepted, it appends frames carrying exactly the bytes and ends at most the last |
| SessionPipe.AnyPeerIsBounded | Sources/NativePipeProtocol/FileSession.swift:166-206 | From the moment a session is made, whatever frames arrive: responder streams are counted exactly and are at most 64, each stream buffers at most what it received and that is at most 1 MiB, a cancelled stream buffers nothing, no receiver waits while there is something to return, every `receive` is answered exactly once or still waiting, and every queued write is resumed exactly once or still pending |
| SessionPipe.HelloFirst | Sources/NativePipeProtocol/FileSession.swift:93-103 | For every sequence of lock sections of a session, those of start included: the peer accepts the first frame if and only if each request and notification that fits a frame was made after the section that queues HELLO, or of a session that had failed |
| SessionPipe.RequestBeforeStart | Sources/NativePipeProtocol/FileSession.swift:108-124 | One input that shows it: a request queued before start makes the peer end the session with EPROTO |
| SessionPipe.RequestDuringStart | Sources/NativePipeProtocol/FileSession.swift:93-103 | The other: a request between the two sections of start is queued ahead of HELLO, also after a second call of start has returned in between |
| SessionCalls.CallsArrive | Sources/NativePipeProtocol/FileSession.swift:108-131 | Over any such run, in each direction: the requests and notifications handed to the handlers are those the other side asked for, in order, with the opcode, body and end that were passed; a request is left out if and only if it found no handler or no free place; those not handled yet are on their way |
| SessionCalls.WhatIsSaidArrives | Sources/NativePipeProtocol/FileSession.swift:133-179 | Over any such run, for each stream its receiver did not cancel: what receive returned and still has buffered is the beginning of the answers and data the callers of the other side had accepted, with status, bodies and end as passed; all of it once the end was reported |
| SessionCalls.RequestIsServed | Sources/NativePipeProtocol/FileSession.swift:323-336 | An accepted request that reaches a session with a handler and a free place is served with its identifier, opcode and body, on a new stream whose remote half is ended exactly if the caller asked for it |
| SessionCalls.RefusalGivesUp | Sources/NativePipeProtocol/FileSession.swift:328-331 | Without a handler or a place it is answered by a CANCEL that gives the stream of the caller up |
| SessionCalls.NoticeIsGiven | Sources/NativePipeProtocol/FileSession.swift:364-369 | An accepted notification is handed over with its opcode and body |
| SessionCalls.ResponseArrives | Sources/NativePipeProtocol/FileSession.swift:337-350 | An accepted answer is the next message of the stream of the asker, with its status, body and end |
| SessionCalls.PieceArrives | Sources/NativePipeProtocol/FileSession.swift:351-363 | Accepted data is the next message of the stream of the peer, unless it is empty |
| SessionCancels.CancelReaches | Sources/NativePipeProtocol/FileSession.swift:181-191 | Over any run, while a session lives: a CANCEL for a stream is owed, queued, in the channel or acted on by the peer if and only if a caller gave the stream up before both sides had finished it or the request was refused |
| SessionCancels.CancelTakesEffect | Sources/NativePipeProtocol/FileSession.swift:315-322 | Over any run: once a CANCEL was acted on, its stream is gone or cancelled, and stays so |
| SessionVerdicts.HelloExactly | Sources/NativePipeProtocol/FileSession.swift:272-277 | The first frame is accepted if and only if it is the HELLO of the other role, up to its reserved bytes |
| SessionVerdicts.PeerRejectsExactly | Sources/NativePipeProtocol/FileSession.swift:309-370 | In every state a session reaches with any callers and any peer: a frame is answered with EPROTO if and only if the frames before it do not allow it, for every kind of frame |
| SessionVerdicts.RequestsExactly | Sources/NativePipeProtocol/FileSession.swift:323-336 | A request in order is served exactly if there is a handler and a place, and ends the session with ENOBUFS exactly if it is refused while 65536 frames wait |
| SessionVerdicts.PeerCannotFillQueue | Sources/NativePipeProtocol/FileSession.swift:257-260 | Whatever a peer sends and never reads, it makes this side queue at most 65536 frames |
| SessionVerdicts.ReceiveReports | Sources/NativePipeProtocol/FileSession.swift:166-179 | receive returns the oldest message, else that the stream was cancelled, that it ended, or the failure, in this order, and records exactly that; it waits only if there is none of these, and turns a second receiver away |
| SessionVerdicts.ReceiveIsLocal | Sources/NativePipeProtocol/FileSession.swift:166-179 | A late receiver of a released stream is told that it was cancelled; receiving touches no other stream and nothing else of the session |
| SessionVerdicts.DeliverReports | Sources/NativePipeProtocol/FileSession.swift:373-385 | A waiting receiver is told as soon as there is something to tell, the same way, and nobody else is |
| SessionVerdicts.PieceRefused | Sources/NativePipeProtocol/FileSession.swift:210-226 | Which error a write is refused with says why: the failure, a stream given up, its end, an answer not given yet, or the size |
| SessionVerdicts.ResponseAccepted | Sources/NativePipeProtocol/FileSession.swift:133-141 | An answer is accepted exactly from a responder that has not answered nor ended, of a size that fits, on a stream nobody gave up of a session that lives; otherwise nothing changes and the error says why |
| SessionVerdicts.CallsAccepted | Sources/NativePipeProtocol/FileSession.swift:108-131 | Requests and notifications are accepted exactly on a session that lives, if the body fits a frame and an identifier is left |
| SessionVerdicts.NothingAfterGivingUp | Sources/NativePipeProtocol/FileSession.swift:262-268 | Nothing more is said on a stream that was given up |
| SessionVerdicts.ReleaseForgets | Sources/NativePipeProtocol/FileSession.swift:198-206 | A release takes the stream away with its place among the inbound ones, makes a CANCEL due exactly if it was not finished, and touches nothing else |
| SessionVerdicts.FirstFailureCounts | Sources/NativePipeProtocol/FileSession.swift:392-405 | Over any run with any peer: the failure of a session is the first one, whether a caller, a malformed frame or a verdict brought it about |
| SessionSteps.DispatchValid | Sources/NativePipeProtocol/FileSession.swift:309-370 | Any frame acted on, from any peer, keeps the session invariant |
| FileFrames.ReadEncoded | Sources/NativePipeProtocol/FileSession.swift:414-420 | A frame is read back whole from its encoding, whatever follows it |
| FileFrames.EncodeRead | Sources/NativePipeProtocol/FileSession.swift:290-302 | The reader accepts nothing but encodings, so a frame has one encoding |
| FileFrames.ReadAllEncoded | Sources/NativePipeProtocol/FileSession.swift:270-302 | Frames written back to back are read back one by one in order |
| FileSessions.FileSession.constructor | Sources/NativePipeProtocol/FileSession.swift:79-89 | A new session: no streams, no frames, the first identifier of its role |
| FileSessions.FileSession.Append | Sources/NativePipeProtocol/FileSession.swift:118-119 | Puts one frame at the end of the queue, with nobody waiting |
| FileSessions.FileSession.AppendWaiting | Sources/NativePipeProtocol/FileSession.swift:220 | Puts one frame at the end of the queue under a fresh continuation |
| FileSessions.FileSession.Enqueue | Sources/NativePipeProtocol/FileSession.swift:228-234 | Queues unless the session failed |
| FileSessions.FileSession.StartMark | Sources/NativePipeProtocol/FileSession.swift:93-98 | First lock section: marks the session started, and whether this call is the one to queue HELLO |
| FileSessions.FileSession.StartHello | Sources/NativePipeProtocol/FileSession.swift:99-101 | Second lock section: HELLO is queued unless the session failed meanwhile |
| FileSessions.FileSession.Start | Sources/NativePipeProtocol/FileSession.swift:93-103 | Both sections in sequence, for the first call only; whole new state |
| FileSessions.FileSession.Request | Sources/NativePipeProtocol/FileSession.swift:108-124 | Size, failure and exhaustion checks, next own identifier, new stream and its frame; whole new state and result |
| FileSessions.FileSession.Notify | Sources/NativePipeProtocol/FileSession.swift:126-129 | Whole new state and result, with the size check |
| FileSessions.FileSession.Respond | Sources/NativePipeProtocol/FileSession.swift:133-141 | Only a responder that has not answered; whole new state and result |
| FileSessions.FileSession.WriteData | Sources/NativePipeProtocol/FileSession.swift:210-226 | One lock section of a send: usable, answered, within the byte limit; whole new state and result |
| FileSessions.FileSession.SendFrames | Sources/NativePipeProtocol/FileSession.swift:150-163 | The loop over frames equals the recursive splitting, also when it stops part way |
| FileSessions.FileSession.Send | Sources/NativePipeProtocol/FileSession.swift:143-164 | Refused as a whole, or its frames one by one: whole new state and error |
| FileSessions.FileSession.Receive | Sources/NativePipeProtocol/FileSession.swift:166-179 | Message, end, error or suspension, by the order of the checks; whole new state |
| FileSessions.FileSession.Deliver | Sources/NativePipeProtocol/FileSession.swift:373-385 | Completes a waiting receiver with the oldest message, the end or the error |
| FileSessions.FileSession.Abandon | Sources/NativePipeProtocol/FileSession.swift:181-190 | Discards what is buffered of a cancelled stream and completes its receiver |
| FileSessions.FileSession.CancelMark | Sources/NativePipeProtocol/FileSession.swift:181-188 | First lock section of a cancel, and whether a frame is owed |
| FileSessions.FileSession.CancelQueue | Sources/NativePipeProtocol/FileSession.swift:189 | Second lock section: the CANCEL frame, unless the session failed meanwhile |
| FileSessions.FileSession.Cancel | Sources/NativePipeProtocol/FileSession.swift:181-190 | Both sections in sequence; whole new state |
| FileSessions.FileSession.Forget | Sources/NativePipeProtocol/FileSession.swift:200-204 | Removes the stream and gives back its place among the inbound streams |
| FileSessions.FileSession.Release | Sources/NativePipeProtocol/FileSession.swift:198-206 | Cancel, then forget; whole new state |
| FileSessions.FileSession.Pump | Sources/NativePipeProtocol/FileSession.swift:236-243 | Takes the oldest frame if nothing is being written and the session lives |
| FileSessions.FileSession.Written | Sources/NativePipeProtocol/FileSession.swift:244-253 | The write ended: its continuation is resumed |
| FileSessions.FileSession.FailMark | Sources/NativePipeProtocol/FileSession.swift:392-400 | Only the first failure counts; queued writers are resumed |
| FileSessions.FileSession.ResumeAll | Sources/NativePipeProtocol/FileSession.swift:392-405 | Every queued continuation is resumed exactly once |
| FileSessions.FileSession.DeliverAll | Sources/NativePipeProtocol/FileSession.swift:403 | Every waiting receiver is completed, in any order |
| FileSessions.FileSession.Fail | Sources/NativePipeProtocol/FileSession.swift:392-405 | First failure: mark, resume the writers, complete every receiver; later ones change nothing |
| FileSessions.FileSession.Refuse | Sources/NativePipeProtocol/FileSession.swift:257-260 | A refusal is queued, or the peer is dropped when too many wait |
| FileSessions.FileSession.AddResponder | Sources/NativePipeProtocol/FileSession.swift:330-334 | One more responder stream, counted |
| FileSessions.FileSession.DispatchRequest | Sources/NativePipeProtocol/FileSession.swift:323-336 | Parity, increasing identifiers, body size, refusal above 64 streams or without a handler, and the bound on pending refusals |
| FileSessions.FileSession.DispatchResponse | Sources/NativePipeProtocol/FileSession.swift:337-350 | Known or retired own identifier, once, with its half close and cancel |
| FileSessions.FileSession.DispatchPayload | Sources/NativePipeProtocol/FileSession.swift:351-363 | Data for a known or retired identifier, after the answer, before the end, within the limit |
| FileSessions.FileSession.Dispatch | Sources/NativePipeProtocol/FileSession.swift:309-370 | The whole dispatcher with the check of HELLO: verdict and whole new state for every well-formed frame |
| BulkLane.CreditIsConserved | Sources/NativePipeProtocol/WindowCommandWriter.swift:230-244 | Two writers and two decoders in a closed loop, any interleaving and any times: each sender's bytes in flight equal fragment bytes under way, bytes the peer has not acknowledged yet and acknowledgements under way; no honest credit is rejected, never more than 1 MiB is in flight, and what a peer exposed is a prefix of what was sent |
| BulkLane.TurnsEnd | Sources/NativePipeProtocol/WindowCommandWriter.swift:323-403 | Every turn that does something strictly lowers a natural measure of what is left to do |
| BulkLane.TurnsAreBounded | Sources/NativePipeProtocol/WindowCommandWriter.swift:323-403 | From every reachable state the turns that do something come to an end: there are at most as many of them as there is work left |
| BulkLane.NeverStuck | Sources/NativePipeProtocol/WindowCommandWriter.swift:378-387 | In every reachable state where no turn of either side does anything any more, every record of both sides has arrived, in order |
| RemoteWire.LanesArriveInOrder | Sources/NativePipeProtocol/RemoteWire.swift:88-115 | Any records on both lanes, cut into any chunks of 1 to 16384 bytes and interleaved in any way, come out of the reassembler exactly and in order, each only when complete, and none is rejected |
| RemoteWire.ReceiveNext | Sources/NativePipeProtocol/RemoteWire.swift:96-114 | The next fragment of a lane extends that lane only, and completes its record exactly at its last byte |
| RemoteWire.FragmentFields | Sources/NativePipeProtocol/RemoteWire.swift:21-30 | The reader finds in a fragment the lane, size, offset and bytes the writer put there |
| RemoteWire.AcknowledgementCount | Sources/NativePipeProtocol/RemoteWire.swift:15-19 | The reader finds in an acknowledgement the count the writer put there |
| RemoteWire.AllowanceValid | Sources/NativePipeProtocol/RemoteWire.swift:51-58 | The allowance never exceeds the fragment size, what remains or the free window, and sending it keeps the flow state valid |
| RemoteWire.IdleAdmits | Sources/NativePipeProtocol/RemoteWire.swift:51-55 | With nothing in flight something may always be sent, however small the window became |
| RemoteWire.AcknowledgeValid | Sources/NativePipeProtocol/RemoteWire.swift:59-86 | A credit is accepted exactly if it is positive and covered by what is in flight, and then takes exactly its bytes off it; the window stays between its bounds |
| RemoteFlows.WindowMoves | Sources/NativePipeProtocol/RemoteWire.swift:72-84 | The window grows if and only if an acknowledgement in good time comes when the writer was held back, shrinks if and only if one comes late, by how much, and at most once in the best round trip |
| RemoteFlows.BestRoundTrip | Sources/NativePipeProtocol/RemoteWire.swift:70-79 | The best round trip is the smallest measured; it starts again only after eight late ones at the smallest window |
| RemoteFlows.RoundTripIs | Sources/NativePipeProtocol/RemoteWire.swift:59-69 | An acknowledgement takes away whole sendings, oldest first, and the beginning of the one that holds its last byte, whose age is what is measured |
| RemoteFlows.AllowanceIsWorthwhile | Sources/NativePipeProtocol/RemoteWire.swift:51-55 | What may be sent is all that remains or at least 1 KiB; it is nothing only while too much is unacknowledged, and then that is remembered |
| RemoteFlows.RefusesExactly | Sources/NativePipeProtocol/RemoteWire.swift:96-115 | A fragment is refused if and only if it may not come now on its lane |
| RemoteFlows.QueueIsCounted | Sources/NativePipeProtocol/WindowCommandWriter.swift:323-336 | Over any run the count of the bytes that wait behind the record under way is exact |
| RemoteWire.FlowControl.constructor | Sources/NativePipeProtocol/RemoteWire.swift:43-50 | The initial window and nothing in flight |
| RemoteWire.FlowControl.Allow | Sources/NativePipeProtocol/RemoteWire.swift:51-55 | Count and new state equal the allowance function |
| RemoteWire.FlowControl.Record | Sources/NativePipeProtocol/RemoteWire.swift:56-58 | What is sent is in flight, youngest last |
| RemoteWire.FlowControl.TakeOldest | Sources/NativePipeProtocol/RemoteWire.swift:62-68 | The loop takes exactly the acknowledged bytes off the oldest sendings and dates the last of them |
| RemoteWire.FlowControl.Measure | Sources/NativePipeProtocol/RemoteWire.swift:69-83 | How a round trip grows or shrinks the window |
| RemoteWire.FlowControl.Credit | Sources/NativePipeProtocol/RemoteWire.swift:59-86 | Acceptance and new state of a whole acknowledgement |
| RemoteWire.Reassembler.constructor | Sources/NativePipeProtocol/RemoteWire.swift:88-91 | No record under way |
| RemoteWire.Reassembler.Accept | Sources/NativePipeProtocol/RemoteWire.swift:96-114 | Record, nothing yet or corrupt, and the new state, for every payload |
| WindowCommands.MergedMeans | Sources/NativePipeProtocol/WindowCommandWriter.swift:264-315 | Two commands that are merged mean the same as the merged one, from any state |
| WindowCommands.CoalesceMeans | Sources/NativePipeProtocol/WindowCommandWriter.swift:264-315 | Adding a command to any queue by coalescing means the same as appending it |
| WindowCommands.ScrollsMergeExactly | Sources/NativePipeProtocol/Windowing.swift:677-692 | Two scrolls merge if and only if some one command means the same as both: a stop, a reversal or another device is never merged away |
| WindowCommands.StatesMergeExactly | Sources/NativePipeProtocol/WindowCommandWriter.swift:264-315 | Of two other commands the first is replaced if and only if nobody could tell that it was ever sent |
| WriterRuns.GuestSeesTheSame | Sources/NativePipeProtocol/WindowCommandWriter.swift:143-169 | Every interleaving of senders and the writer: what was taken and what waits mean the same as the uncoalesced commands, what was taken alone a beginning of it (every barrier with the state of its time, every gesture with its turning points), and selection data keeps its order |
| WriterRuns.RestsOnlyWhenIdle | Sources/NativePipeProtocol/WindowCommandWriter.swift:323-387 | A connected writer that is not scheduled has nothing it could send, so no wakeup is lost; a local one has then delivered the whole meaning of what it accepted |
| WriterDrains.DrainComes | Sources/NativePipeProtocol/WindowCommandWriter.swift:405-443 | Over the same runs with the blocks on the serial queue counted: whenever a connected writer is scheduled or has something it could send, a block that runs it is queued or running, also when a block ends because its write failed on a connection that was replaced |
| WriterTurns.NothingIsLost | Sources/NativePipeProtocol/WindowCommandWriter.swift:230-262 | Over any interleaving since the connection was installed: the reports sent and those that wait are the reports accepted, in order, and the bytes acknowledged and those still due are the bytes received |
| WriterTurns.CreditGoesFirst | Sources/NativePipeProtocol/WindowCommandWriter.swift:337-339 | Received bytes are acknowledged before anything else, all at once |
| WriterTurns.ReportGoesNext | Sources/NativePipeProtocol/WindowCommandWriter.swift:340-341 | Then the reports, oldest first |
| WriterTurns.CommandGoesNext | Sources/NativePipeProtocol/WindowCommandWriter.swift:342-362 | Then the oldest command, past selection data while a record is under way; only releases go together |
| WriterTurns.BatchIsReleases | Sources/NativePipeProtocol/WindowCommandWriter.swift:343-354 | Which go together: all the releases at the head of the queue, at most 256, and nothing else |
| WriterTurns.AnswerGoesNext | Sources/NativePipeProtocol/WindowCommandWriter.swift:363-377 | Then the answer of the notification at the head of the order |
| WriterTurns.FragmentGoesLast | Sources/NativePipeProtocol/WindowCommandWriter.swift:378-387 | A fragment, as the window allows, when nothing else waits |
| WriterTurns.SendExactly | Sources/NativePipeProtocol/WindowCommandWriter.swift:143-169 | A command is refused exactly when 65536 of them wait; otherwise the queue is the coalesced one, and an answer goes to the tables |
| WriterTurns.FileBytesExactly | Sources/NativePipeProtocol/WindowCommandWriter.swift:111-127 | Session bytes are taken exactly by a connected remote writer and if they fit a record |
| WriterTurns.AcknowledgeExactly | Sources/NativePipeProtocol/WindowCommandWriter.swift:230-244 | Received bytes and credit are taken exactly by a connected remote writer, credit only as far as bytes are in flight |
| WriterTurns.OnlyItsConnection | Sources/NativePipeProtocol/WindowCommandWriter.swift:405-443 | A failed write ends its own connection and no other; a large selection goes on to the bulk lane of its own connection and of no other |
| WriterTurns.DisconnectedIsEmpty | Sources/NativePipeProtocol/WindowCommandWriter.swift:129-141 | Over any run a writer without a connection holds no command and no answer |
| NotificationFeedback.RunTablesOk | Sources/NativePipeProtocol/WindowCommandWriter.swift:174-226 | Over any events and answers: the order lists exactly the feedback keys once each, every entry names the revision recorded live for its notification and is not empty, at most the bounded number of them |
| NotificationFeedback.TakeAnswerOk | Sources/NativePipeProtocol/WindowCommandWriter.swift:364-377 | The unreachable case is never reached; what is emitted names a live notification and its revision; a close comes only when no action waits and retires the notification |
| NotificationFeedback.ClickBeforeClose | Sources/NativePipeProtocol/WindowCommandWriter.swift:206-226 | While a click waits, the next thing emitted for its notification, whatever happens to the others, is the action |
| NotificationAnswers.AskIsRecorded | Sources/NativePipeProtocol/WindowCommandWriter.swift:208-226 | An answer to a live revision, a click only with a key that fits, becomes the one of its kind that waits for its notification, which is in the order once; every other answer stays; in every other case nothing changes |
| NotificationAnswers.SeeIsRecorded | Sources/NativePipeProtocol/WindowCommandWriter.swift:174-204 | Every guest event: which revision is live afterwards, which answers go with an older one, and that the others stay |
| NotificationAnswers.AskedClickIsSent | Sources/NativePipeProtocol/WindowCommandWriter.swift:363-377 | From the moment a click is taken, in any run that leaves its notification alone: what waits for it, and then the first answer sent for it, is the last click asked for; and that is sent once the writer had more turns than answers were ahead of it or were asked for ahead of it meanwhile |
| NotificationAnswers.ClickedAgainAndAgain | Sources/NativePipeProtocol/WindowCommandWriter.swift:363-377 | Why its place in the order alone gives no bound: a notification that is clicked again before each turn keeps its place at the head |
| WindowCommandWriters.WindowCommandWriter.constructor | Sources/NativePipeProtocol/WindowCommandWriter.swift:82-92 | Not connected, nothing queued |
| WindowCommandWriters.WindowCommandWriter.ForgetNotifications | Sources/NativePipeProtocol/WindowCommandWriter.swift:99 | All three notification tables are empty |
| WindowCommandWriters.WindowCommandWriter.ForgetBulk | Sources/NativePipeProtocol/WindowCommandWriter.swift:102-103 | The bulk lane is as new |
| WindowCommandWriters.WindowCommandWriter.LetGo | Sources/NativePipeProtocol/WindowCommandWriter.swift:389-398 | Handle, queue and tables are given up; the bulk lane and its reports stay as they were |
| WindowCommandWriters.WindowCommandWriter.Clear | Sources/NativePipeProtocol/WindowCommandWriter.swift:129-141 | Everything is forgotten, under the new handle or none |
| WindowCommandWriters.WindowCommandWriter.FileSession | Sources/NativePipeProtocol/WindowCommandWriter.swift:111-121 | A framed record on the bulk queue, or refused; whole new state |
| WindowCommandWriters.WindowCommandWriter.CompactConsumed | Sources/NativePipeProtocol/WindowCommandWriter.swift:317-321 | Taken commands leave the queue, the waiting ones stay in order |
| WindowCommandWriters.WindowCommandWriter.EnqueueCommand | Sources/NativePipeProtocol/WindowCommandWriter.swift:264-315 | The queue equals the coalescing function |
| WindowCommandWriters.WindowCommandWriter.RemoveNotificationFeedback | Sources/NativePipeProtocol/WindowCommandWriter.swift:201-204 | Removes one entry from both tables |
| WindowCommandWriters.WindowCommandWriter.ObserveNotification | Sources/NativePipeProtocol/WindowCommandWriter.swift:193-199 | Bounded, never older revisions; a new revision retires waiting answers |
| WindowCommandWriters.WindowCommandWriter.ObserveGuestNotification | Sources/NativePipeProtocol/WindowCommandWriter.swift:174-191 | Whole new state for every guest event |
| WindowCommandWriters.WindowCommandWriter.EnqueueNotification | Sources/NativePipeProtocol/WindowCommandWriter.swift:208-226 | Optional commands are absorbed, queued only for the live revision |
| WindowCommandWriters.WindowCommandWriter.SendLossless | Sources/NativePipeProtocol/WindowCommandWriter.swift:158-166 | Full exactly at the bound; otherwise coalesced and scheduled |
| WindowCommandWriters.WindowCommandWriter.SendCommand | Sources/NativePipeProtocol/WindowCommandWriter.swift:143-169 | Whole new state, and whether the sender is told the queue is full |
| WindowCommandWriters.WindowCommandWriter.AcknowledgeRemoteBytes | Sources/NativePipeProtocol/WindowCommandWriter.swift:230-244 | Own credit or received bytes; corrupt exactly when refused |
| WindowCommandWriters.WindowCommandWriter.RemotePresentation | Sources/NativePipeProtocol/WindowCommandWriter.swift:246-262 | Bounded reports; whole new state |
| WindowCommandWriters.WindowCommandWriter.LoadBulk | Sources/NativePipeProtocol/WindowCommandWriter.swift:331-334 | The oldest record becomes the one being sent |
| WindowCommandWriters.WindowCommandWriter.FirstIndex | Sources/NativePipeProtocol/WindowCommandWriter.swift:335-338 | The first command that is not selection data |
| WindowCommandWriters.WindowCommandWriter.TakeCommand | Sources/NativePipeProtocol/WindowCommandWriter.swift:345-363 | A command or a batch of at most 256 releases, and what stays |
| WindowCommandWriters.WindowCommandWriter.TakeFeedback | Sources/NativePipeProtocol/WindowCommandWriter.swift:364-377 | The next answer and the new tables |
| WindowCommandWriters.WindowCommandWriter.TakeCredit | Sources/NativePipeProtocol/WindowCommandWriter.swift:340-342 | One acknowledgement for all received bytes |
| WindowCommandWriters.WindowCommandWriter.TakeFragment | Sources/NativePipeProtocol/WindowCommandWriter.swift:378-382 | The next fragment within the allowance, or none |
| WindowCommandWriters.WindowCommandWriter.Prepare | Sources/NativePipeProtocol/WindowCommandWriter.swift:330-334 | Compaction for a remote writer and the next bulk record |
| WindowCommandWriters.WindowCommandWriter.TakeFragmentOrRest | Sources/NativePipeProtocol/WindowCommandWriter.swift:378-387 | A fragment, or the writer is no longer scheduled |
| WindowCommandWriters.WindowCommandWriter.TakeQueued | Sources/NativePipeProtocol/WindowCommandWriter.swift:345-387 | Commands before answers before fragments |
| WindowCommandWriters.WindowCommandWriter.TakeTurn | Sources/NativePipeProtocol/WindowCommandWriter.swift:339-387 | Credit before reports before all else |
| WindowCommandWriters.WindowCommandWriter.TakeOutbound | Sources/NativePipeProtocol/WindowCommandWriter.swift:323-403 | A whole turn with its handle checks; whole new state and what is sent |
| WindowCommandWriters.WindowCommandWriter.RequeueSelection | Sources/NativePipeProtocol/WindowCommandWriter.swift:412-417 | Large selection data joins the bulk queue, if the connection is still the same |
| WindowCommandWriters.WindowCommandWriter.WriteFails | Sources/NativePipeProtocol/WindowCommandWriter.swift:430-440 | Only the current connection is given up |
| StreamDecoder.CutDoesNotMatter | Sources/NativePipeRemote/RemoteStreamDecoder.swift:23-82 | For every byte stream and every way to cut it: the same packets, the same error, and without an error the same state, as when it arrives at once |
| StreamDecoder.NothingBeforeReady | Sources/NativePipeRemote/RemoteStreamDecoder.swift:52-68 | Over any chunks no event but channelReady, and no application, file-session or media packet, comes before channelReady |
| StreamDecoder.FramesDecode | Sources/NativePipeRemote/RemoteStreamDecoder.swift:25-50 | The packets of framed payloads are those of the payloads one by one |
| StreamDecoder.EveryFragmentByteIsAcknowledged | Sources/NativePipeRemote/RemoteStreamDecoder.swift:38-41 | Without an error the acknowledgement counts sum to the fragment bytes received |
| StreamDecoder.FinishesExactly | Sources/NativePipeRemote/RemoteStreamDecoder.swift:84-86 | After whole frames, cut in any way, the stream may end if and only if on each lane as many records were completed as were begun, counted in the first and last fragments that arrived |
| RemoteRecords.SessionBytesComeBack | Sources/NativePipeProtocol/WindowCommandWriter.swift:111-127 | The bytes a writer accepts for the file session come out of a ready decoder as exactly these bytes, as one payload and as a record that was reassembled |
| RemoteRecords.SessionBytesArrive | Sources/NativePipeRemote/RemoteStreamDecoder.swift:25-82 | Over any run of the two writers and readers of the bulk lane, with anything else sent in between: the bytes of the file session one side emits are the beginning of those the callers of the other side passed, and all of them once every record has arrived and none was refused |
| RemoteRecords.ControlIsWhole | Sources/NativePipeRemote/RemoteStreamDecoder.swift:52-68 | What a control payload decodes to holds all of it: session bytes are the payload after its magic, anything else what its layout says of the whole payload, and channelReady comes exactly when it was not ready |
| RemoteRecords.ControlRecordIsFrame | Sources/NativePipeRemote/RemoteStreamDecoder.swift:70-75 | A control record is decoded exactly if it is one frame, as its payload |
| RemoteRecords.MediaExactly | Sources/NativePipeRemote/RemoteStreamDecoder.swift:76-82 | A media record is taken exactly by a ready decoder and if its header gives its length, and comes out in two parts that are the record |
| RemoteRecords.CreditComesBack | Sources/NativePipeRemote/RemoteStreamDecoder.swift:42-45 | A credit comes out as the count that was acknowledged |
| RemoteRecords.CreditExactly | Sources/NativePipeRemote/RemoteStreamDecoder.swift:42-45 | Exactly the whole acknowledgements are credit |
| RemoteRecords.FragmentIsTaken | Sources/NativePipeRemote/RemoteStreamDecoder.swift:33-41 | The next fragment of a record of any legal size is taken, acknowledged with exactly its bytes, and completes the record at its last byte |
| Draining.ChunksDoNotMatter | Sources/NativePipeRemote/RemoteStreamDecoder.swift:23-50 | For every decoder whose packets and errors do not change when more bytes arrive, reading chunk by chunk equals reading at once |
| StreamDecoder.RemoteStreamDecoder.constructor | Sources/NativePipeRemote/RemoteStreamDecoder.swift:7-22 | An empty decoder that is not ready |
| StreamDecoder.RemoteStreamDecoder.Add | Sources/NativePipeRemote/RemoteStreamDecoder.swift:23 | Appends to the buffer and to nothing else |
| StreamDecoder.RemoteStreamDecoder.Pull | Sources/NativePipeRemote/RemoteStreamDecoder.swift:25-50 | Packet, nothing yet or error, and the whole new state |
| StreamDecoder.RemoteStreamDecoder.PullControl | Sources/NativePipeRemote/RemoteStreamDecoder.swift:52-68 | Handshake, credits and everything that needs it |
| StreamDecoder.RemoteStreamDecoder.PullRecord | Sources/NativePipeRemote/RemoteStreamDecoder.swift:70-82 | What a completed record decodes to |
| StreamDecoder.RemoteStreamDecoder.Finish | Sources/NativePipeRemote/RemoteStreamDecoder.swift:84-86 | True exactly if nothing is left over |
| WireFormat.NextFrame | Sources/NativePipeProtocol/WireFormat.swift:40-73 | A framed payload comes back whole, whatever follows it |
| WireFormat.NextIsStable | Sources/NativePipeProtocol/WireFormat.swift:87-97 | A frame or an error that is there does not change when more bytes arrive |
| RemoteFlows.HeaderExactly | Sources/NativePipeProtocol/WireFormat.swift:53-67 | A frame header is taken exactly if it has the magic, the version and a legal size, and the error says which is wrong |
| FrameDecoding.FramesComeBack | Sources/NativePipeProtocol/WireFormat.swift:76-98 | Payloads framed back to back come back in order and leave nothing over, however the stream is cut |
| FrameDecoding.FrameDecoder.constructor | Sources/NativePipeProtocol/WireFormat.swift:77-80 | An empty buffer |
| FrameDecoding.FrameDecoder.Add | Sources/NativePipeProtocol/WireFormat.swift:82-85 | Appends to the buffer |
| FrameDecoding.FrameDecoder.Pull | Sources/NativePipeProtocol/WireFormat.swift:87-97 | Payload, nothing yet or error, and the rest of the buffer |
| NotificationInbox.OfferValid | Sources/NativePipeProtocol/GuestNotificationInbox.swift:6-79 | Whatever arrives, the three maps stay disjoint and at most 64 entries each |
| NotificationInbox.HoldsHighest | Sources/NativePipeProtocol/GuestNotificationInbox.swift:21-79 | Unless it was reset, the inbox holds for each notification the highest of all events since the drain, by revision and then posted, rejected, closed |
| NotificationInbox.OrderDoesNotMatter | Sources/NativePipeProtocol/GuestNotificationInbox.swift:21-79 | Two sets of the same events in any order, repeated or not, leave the same marks |
| NotificationInbox.HoldsLastPost | Sources/NativePipeProtocol/GuestNotificationInbox.swift:23-38 | A held post is the last that arrived with its revision |
| NotificationInbox.ResetExactly | Sources/NativePipeProtocol/GuestNotificationInbox.swift:21-78 | A reset becomes due exactly when an event that counts (by revision and then posted, rejected, closed) finds its map of 64 full; then a post is held as a rejection if there is room for one, a rejection is dropped, a close stays, and otherwise the mark of the event is held |
| NotificationInbox.OverflowBeside | Sources/NativePipeProtocol/GuestNotificationInbox.swift:21-78 | An event leaves every other notification alone, but for the closes that a full inbox forgets with its reset |
| NotificationInbox.OtherEvents | Sources/NativePipeProtocol/GuestNotificationInbox.swift:24-60 | An event that names no notification changes nothing, but for the reset the guest may ask for, and exactly structural events are not for the inbox |
| NotificationDrain.DrainLosesNothing | Sources/NativePipeProtocol/GuestNotificationInbox.swift:80-93 | What a drain hands over, offered to an empty inbox, restores exactly the drained one |
| NotificationDrain.SortedKeys | Sources/NativePipeProtocol/GuestNotificationInbox.swift:80-93 | The keys in increasing order, each once |
| NotificationDrain.CloseEvents | Sources/NativePipeProtocol/GuestNotificationInbox.swift:80-93 | The closes in the order of their keys |
| NotificationDrain.RejectEvents | Sources/NativePipeProtocol/GuestNotificationInbox.swift:80-93 | The rejects in the order of their keys |
| NotificationDrain.PostEvents | Sources/NativePipeProtocol/GuestNotificationInbox.swift:80-93 | The posts in the order of their keys |
| NotificationDrain.GuestNotificationInbox.constructor | Sources/NativePipeProtocol/GuestNotificationInbox.swift:6-15 | Empty |
| NotificationDrain.GuestNotificationInbox.Refuse | Sources/NativePipeProtocol/GuestNotificationInbox.swift:65-78 | A rejection, kept unless something newer or a close is there |
| NotificationDrain.GuestNotificationInbox.AcceptPost | Sources/NativePipeProtocol/GuestNotificationInbox.swift:23-37 | A post, or a rejection when there are too many |
| NotificationDrain.GuestNotificationInbox.AcceptClose | Sources/NativePipeProtocol/GuestNotificationInbox.swift:38-53 | A close, or a reset when there are too many |
| NotificationDrain.GuestNotificationInbox.Accept | Sources/NativePipeProtocol/GuestNotificationInbox.swift:21-62 | Whole new state for every event, and whether it is wanted |
| NotificationDrain.GuestNotificationInbox.Drain | Sources/NativePipeProtocol/GuestNotificationInbox.swift:80-93 | The events handed over, and an empty inbox |
| SFTPTransfers.ReadRange | Sources/NativePipeRemote/SFTPFileSystem.swift:216-265 | Against an honest server that answers in any order with any nonempty short reads: a result is exactly the requested slice and leaves no request outstanding, and unless the transport failed there is an error only if the file is shorter than promised; terminates |
| SFTPTransfers.EnqueueWindow | Sources/NativePipeRemote/SFTPFileSystem.swift:228-239 | At most 16 consecutive asks that cover the range without a gap, all outstanding under distinct identifiers |
| SFTPTransfers.Fill | Sources/NativePipeRemote/SFTPFileSystem.swift:244-256 | What a short reply left out is read until the range is complete |
| SFTPDownloads.DownloadFile | Sources/NativePipeRemote/SFTPFileSystem.swift:682-731 | The local file is an exact copy and nothing stays outstanding; without trouble it succeeds exactly if the size is that of the remote file |
| SFTPDownloads.ReceiveIntoFile | Sources/NativePipeRemote/SFTPFileSystem.swift:704-714 | Every reply of a window lands at its place; what is missing is exactly the recorded holes |
| SFTPDownloads.FillHoles | Sources/NativePipeRemote/SFTPFileSystem.swift:715-722 | Afterwards no hole is left |
| SFTPDownloads.WriteLocal | Sources/NativePipeRemote/SFTPFileSystem.swift:747-758 | The loop over partial writes puts all bytes at their offset and changes nothing else |
| SFTPConnections.SFTPConnection.constructor | Sources/NativePipeRemote/SFTPProtocol.swift:265-280 | Nothing outstanding, identifiers from 1 |
| SFTPConnections.SFTPConnection.SendRequest | Sources/NativePipeRemote/SFTPProtocol.swift:287-294 | A fresh identifier is outstanding with its question, at most 16 of them |
| SFTPConnections.SFTPConnection.BufferReply | Sources/NativePipeRemote/SFTPProtocol.swift:299-305 | Sets one reply aside; an unknown or repeated identifier is an error |
| SFTPConnections.SFTPConnection.ReceiveReply | Sources/NativePipeRemote/SFTPProtocol.swift:295-307 | The reply is the one to this very request, whatever arrived before it; the request is no longer outstanding |
| SFTPConnections.SFTPConnection.ReceiveRead | Sources/NativePipeRemote/SFTPProtocol.swift:492-498 | Nothing at the end of the file, otherwise at least one and at most the asked bytes from the asked offset |
| SFTPConnections.SFTPConnection.ReadFile | Sources/NativePipeRemote/SFTPProtocol.swift:485-487 | One read, answered, with nothing left outstanding |
| SFTPListings.Entries | Sources/NativePipeRemote/SFTPProtocol.swift:394-433 | Eight READDIR requests sent ahead to an honest server that gets to them in any order: exactly the entries of the directory but `.` and `..`, each once, even when pages arrive after the end was reported; no request left behind; without trouble it succeeds exactly if the directory has at most 100000 entries with safe and distinct names; terminates |
| SFTPListings.Collect | Sources/NativePipeRemote/SFTPProtocol.swift:404-423 | The loop over the answers loses no page and repeats none, and drains what was sent before the end |
| SFTPListings.SendAhead | Sources/NativePipeRemote/SFTPProtocol.swift:403 | Eight requests under way, nothing of the directory lost |
| SFTPListings.TakeAnswer | Sources/NativePipeRemote/SFTPProtocol.swift:406-418 | One answer in request order: the end, only after everything was handed out, or one more page |
| SFTPListings.TakeNames | Sources/NativePipeRemote/SFTPProtocol.swift:408-409 | The bound on all entries received; refused only for a directory that has no listing |
| SFTPListings.TakePage | Sources/NativePipeRemote/SFTPProtocol.swift:410-415 | The names of a page join the result exactly if each is safe and new |
| SFTPListings.PartOfListing | Sources/NativePipeRemote/SFTPProtocol.swift:410-415 | Whatever the order pages arrive in, a listable directory never trips a check, and all of it passes exactly if it is listable |
| SFTPPublication.OriginalIsNeverLost | Sources/NativePipeRemote/SFTPFileSystem.swift:558-574 | Each rename done, refused or lost in either way: published means new at the destination and the original in the backup, failed means nothing changed, recovery means the original is at the destination or in the backup and the new tree is still there; nothing else is touched |
| SFTPPublication.RecoveryExactly | Sources/NativePipeRemote/SFTPFileSystem.swift:566-573 | Exactly which fates of the three renames end in a recovery error |
| SFTPPublication.OneRenameIsAtomic | Sources/NativePipeRemote/SFTPFileSystem.swift:554-557 | A new destination or a server-side replacement is all or nothing, and reported as failed after it happened exactly if the reply was lost |
| SFTPPublication.EveryExitIsSafe | Sources/NativePipeRemote/SFTPFileSystem.swift:554-593 | Whatever the destination is and the server offers: without trouble the tree is published and at the destination; after any other exit the original is at the destination or in the backup, except when a file was replaced in one step by a server that offers it and only the reply was lost |
| SFTPPublication.LatecomerSurvives | Sources/NativePipeRemote/SFTPFileSystem.swift:554 | A destination that appeared in the meantime is left alone |
| SFTPPublication.CleanupSparesTheOriginal | Sources/NativePipeRemote/SFTPFileSystem.swift:575-592 | Removing the backup or the staging tree afterwards, wholly or half way, never removes the last copy of the original nor a published tree |
| SFTPPublication.CancellationWaits | Sources/NativePipeRemote/SFTPProtocol.swift:152-164 | For every sequence of cancellations and publications: cancelled exactly if one was requested and no publication that began before it is still under way |
| SFTPPublication.WithPublication | Sources/NativePipeRemote/SFTPFileSystem.swift:554-573 | Refused, and nothing touched, exactly if a cancellation was requested before; otherwise the renames run to their end whenever somebody cancels, and the server is asked to replace the destination exactly if that exists, is a file and the server offers it |
| SFTPPublication.ReplaceOriginal | Sources/NativePipeRemote/SFTPFileSystem.swift:560-573 | The transaction with cancellations at any point between its requests equals the function of the three fates |
| SFTPPublication.MoveBack | Sources/NativePipeRemote/SFTPFileSystem.swift:570-572 | Rolls back, or reports that recovery is needed |
| SFTPPublication.SFTPTransport.constructor | Sources/NativePipeRemote/SFTPProtocol.swift:116-135 | Neither cancelled nor publishing |
| SFTPPublication.SFTPTransport.CheckCancellation | Sources/NativePipeRemote/SFTPProtocol.swift:152-155 | Throws exactly once cancelled |
| SFTPPublication.SFTPTransport.BeginPublication | Sources/NativePipeRemote/SFTPProtocol.swift:156-160 | Refused after any cancellation |
| SFTPPublication.SFTPTransport.EndPublication | Sources/NativePipeRemote/SFTPProtocol.swift:161-164 | A cancellation that waited takes effect |
| SFTPPublication.SFTPTransport.CancelAll | Sources/NativePipeRemote/SFTPProtocol.swift:246-252 | Waits while publishing, otherwise takes effect |
| SFTPPublication.RemoteNames.Move | Sources/NativePipeRemote/SFTPProtocol.swift:455-463 | One rename under each fate: what moved and what the client is told |
| BrokerRuns.AlwaysOk | Sources/NativePipeFileSharing/SharedFileVolumeBroker.swift:96-366 | Every interleaving of publishing, revoking, refreshing, listing and reading, each resumed after any suspension: every node hangs under the root or an older node of its selection, sibling names differ and fit, every root is shared or about to be, pending shares name roots, and no identifier is ahead of the counter |
| BrokerRuns.RunOk | Sources/NativePipeFileSharing/SharedFileVolumeBroker.swift:96-366 | The same from any well-formed state, and nodes only ever leave or keep their identity |
| BrokerRuns.RevokedForGood | Sources/NativePipeFileSharing/SharedFileVolumeBroker.swift:165-175 | When a root loses its last purpose and pending share, no refresh, listing or read of anything below it succeeds ever again, nor one already suspended, whatever happens next |
| BrokerRuns.AllRevokedForGood | Sources/NativePipeFileSharing/SharedFileVolumeBroker.swift:183-188 | After revoking everything the same holds for every identifier given out so far |
| BrokerRuns.EndedExactly | Sources/NativePipeFileSharing/SharedFileVolumeBroker.swift:136-155 | The end of a mount takes a root along if and only if the mount failed, its token was outdated or a root was gone, the root is one of the publication, it has no purposes, and no other share is pending on it |
| BrokerRuns.EndedForGood | Sources/NativePipeFileSharing/SharedFileVolumeBroker.swift:136-143 | When a mount ends that way, no refresh, listing or read of anything below such a root succeeds ever again, nor one already suspended |
| BrokerSteps.ReleasedExactly | Sources/NativePipeFileSharing/SharedFileVolumeBroker.swift:136-141 | Releasing a publication removes a root exactly if it is among its roots and nobody else shares it; every other root stays, with the shares of the others |
| BrokerRuns.GoneForGood | Sources/NativePipeFileSharing/SharedFileVolumeBroker.swift:254 | An identifier that was given out and is gone never comes back |
| BrokerRuns.AnswersAreShared | Sources/NativePipeFileSharing/SharedFileVolumeBroker.swift:298-300 | Every node there is belongs to a root that is visible at that moment |
| BrokerRuns.ReadsAreShared | Sources/NativePipeFileSharing/SharedFileVolumeBroker.swift:355-366 | A read that yields bytes is of a node whose root is visible when it resumes |
| BrokerListing.ListingAnswers | Sources/NativePipeFileSharing/SharedFileVolumeBroker.swift:326-354 | A listing is answered if and only if nothing was revoked and the entries lie in the directory, are well-formed and differ; then its items and the children of the directory are the files and directories reported, one for each, with the kind, size and version reported, under the identifier and name it had before; what hung below is kept exactly if its directory was reported unchanged |
| BrokerAnswers.RefreshAnswers | Sources/NativePipeFileSharing/SharedFileVolumeBroker.swift:312-325 | A refresh is answered if and only if nothing was revoked and the report is well-formed; then with what was reported under the old name and parent, and only what hangs below a directory that changed is forgotten |
| BrokerAnswers.MountAnswers | Sources/NativePipeFileSharing/SharedFileVolumeBroker.swift:142-155 | A mount is answered if and only if it succeeded, nothing was revoked and no root is gone; then each root has its purpose besides those it had, and is visible |
| BrokerAnswers.PublicationAnswers | Sources/NativePipeFileSharing/SharedFileVolumeBroker.swift:96-156 | From the last file measured, whatever happens in between: a publication that is answered lists exactly the roots of the files that were selected, one for each |
| BrokerAnswers.ReadAnswers | Sources/NativePipeFileSharing/SharedFileVolumeBroker.swift:355-366 | Bytes returned were asked for by a version the file had when the read began and has still, and are at most as many as asked for |
| BrokerAnswers.ReadReturns | Sources/NativePipeFileSharing/SharedFileVolumeBroker.swift:361-366 | They are returned exactly if nothing was revoked and the file is still the one it was |
| BrokerAnswers.OperationsBegin | Sources/NativePipeFileSharing/SharedFileVolumeBroker.swift:312-361 | In every reachable state each operation begins exactly if there is something to do it on |
| BrokerAnswers.RootsAreListed | Sources/NativePipeFileSharing/SharedFileVolumeBroker.swift:329 | In every reachable state the root of the volume lists exactly the roots of the catalog |
| BrokerItems.ItemsAreValid | Sources/NativePipeFileSharing/SharedFileVolumeBroker.swift:255-268 | In every reachable state every item has a version of 1 to 8192 bytes, a size that fits and a source that ends in a file name, whatever the machine reports |
| BrokerItems.StoppedForGood | Sources/NativePipeFileSharing/SharedFileVolumeBroker.swift:190-202 | A broker that was stopped shares nothing ever again |
| BrokerRevocation.RevokedStaysRevoked | Sources/NativePipeFileSharing/SharedFileVolumeBroker.swift:165-175 | After revoking a purpose nothing is or becomes shared for it, even by publications suspended then, until a new publication for it begins |
| BrokerRevocation.RevokedAllStaysEmpty | Sources/NativePipeFileSharing/SharedFileVolumeBroker.swift:183-187 | After revoking everything the catalog stays empty until a new publication begins |
| SharedTree.SubtreeIsSelection | Sources/NativePipeFileSharing/SharedFileVolumeBroker.swift:305-311 | Below a root are exactly the nodes selected with it |
| SharedTree.WithoutTreeOk | Sources/NativePipeFileSharing/SharedFileVolumeBroker.swift:305-311 | Removing a subtree, or everything below its top, leaves a well-formed catalog |
| SharedNames.UniqueNameIsFree | Sources/NativePipeFileSharing/SharedFileVolumeBroker.swift:272-292 | A name not in use of at most 255 bytes: the name itself if it is free, otherwise as much of it as fits with the first number that makes it free and its extension, found within one try more than there are names in use |
| SharedNames.DigitsMean | Sources/NativePipeFileSharing/SharedFileVolumeBroker.swift:284 | The number is written in decimal |
| SharedNames.CandidatesDiffer | Sources/NativePipeFileSharing/SharedFileVolumeBroker.swift:283-291 | Two numbered names differ in their numbers |
| SharedNames.MakeUniqueName | Sources/NativePipeFileSharing/SharedFileVolumeBroker.swift:272-292 | The loop finds the first free candidate |
| SharedFileVolumeBrokers.SharedFileVolumeBroker.constructor | Sources/NativePipeFileSharing/SharedFileVolumeBroker.swift:45-58 | An empty catalog |
| SharedFileVolumeBrokers.SharedFileVolumeBroker.AllocateID | Sources/NativePipeFileSharing/SharedFileVolumeBroker.swift:254 | The next identifier, once |
| SharedFileVolumeBrokers.SharedFileVolumeBroker.NewToken | Sources/NativePipeFileSharing/SharedFileVolumeBroker.swift:133 | A token never given out before |
| SharedFileVolumeBrokers.SharedFileVolumeBroker.Lookup | Sources/NativePipeFileSharing/SharedFileVolumeBroker.swift:117-119 | A node with this parent, access and source, or none when there is none |
| SharedFileVolumeBrokers.SharedFileVolumeBroker.RemoveTree | Sources/NativePipeFileSharing/SharedFileVolumeBroker.swift:305-308 | The recursion removes exactly one subtree |
| SharedFileVolumeBrokers.SharedFileVolumeBroker.RemoveChildren | Sources/NativePipeFileSharing/SharedFileVolumeBroker.swift:309-311 | The recursion removes exactly what is below |
| SharedFileVolumeBrokers.SharedFileVolumeBroker.SelectSource | Sources/NativePipeFileSharing/SharedFileVolumeBroker.swift:116-131 | An existing root is refreshed, a new one is named and added |
| SharedFileVolumeBrokers.SharedFileVolumeBroker.SelectSources | Sources/NativePipeFileSharing/SharedFileVolumeBroker.swift:115-132 | All sources in order |
| SharedFileVolumeBrokers.SharedFileVolumeBroker.AddShares | Sources/NativePipeFileSharing/SharedFileVolumeBroker.swift:134 | A pending share on each root |
| SharedFileVolumeBrokers.SharedFileVolumeBroker.CatalogFiles | Sources/NativePipeFileSharing/SharedFileVolumeBroker.swift:113-135 | The section between measuring and mounting; whole new state |
| SharedFileVolumeBrokers.SharedFileVolumeBroker.StartPublish | Sources/NativePipeFileSharing/SharedFileVolumeBroker.swift:96-107 | First section: refused once stopped |
| SharedFileVolumeBrokers.SharedFileVolumeBroker.Measured | Sources/NativePipeFileSharing/SharedFileVolumeBroker.swift:106-114 | Outdated tokens are refused, otherwise the next file or the catalog |
| SharedFileVolumeBrokers.SharedFileVolumeBroker.EndShare | Sources/NativePipeFileSharing/SharedFileVolumeBroker.swift:136-141 | One pending share ends, with a root nobody shares |
| SharedFileVolumeBrokers.SharedFileVolumeBroker.EndShares | Sources/NativePipeFileSharing/SharedFileVolumeBroker.swift:136-143 | All pending shares of a publication end |
| SharedFileVolumeBrokers.SharedFileVolumeBroker.GrantRoots | Sources/NativePipeFileSharing/SharedFileVolumeBroker.swift:152 | Each root is published for the purpose |
| SharedFileVolumeBrokers.SharedFileVolumeBroker.Mounted | Sources/NativePipeFileSharing/SharedFileVolumeBroker.swift:144-155 | Last section, with its failures; whole new state |
| SharedFileVolumeBrokers.SharedFileVolumeBroker.RevokeRoot | Sources/NativePipeFileSharing/SharedFileVolumeBroker.swift:170-175 | One root loses the purpose, and goes if that was the last |
| SharedFileVolumeBrokers.SharedFileVolumeBroker.RevokeRoots | Sources/NativePipeFileSharing/SharedFileVolumeBroker.swift:170-175 | The loop in any order over the roots of a purpose |
| SharedFileVolumeBrokers.SharedFileVolumeBroker.RootsHeld | Sources/NativePipeFileSharing/SharedFileVolumeBroker.swift:167-169 | Exactly the roots shared or about to be shared for the purpose |
| SharedFileVolumeBrokers.SharedFileVolumeBroker.RevokePurpose | Sources/NativePipeFileSharing/SharedFileVolumeBroker.swift:165-181 | A new generation of the purpose, and its roots; whole new state |
| SharedFileVolumeBrokers.SharedFileVolumeBroker.RevokeEverything | Sources/NativePipeFileSharing/SharedFileVolumeBroker.swift:183-188 | A new generation and an empty catalog |
| SharedFileVolumeBrokers.SharedFileVolumeBroker.StopServing | Sources/NativePipeFileSharing/SharedFileVolumeBroker.swift:190-193 | Stops once, revoking everything |
| SharedFileVolumeBrokers.SharedFileVolumeBroker.Refresh | Sources/NativePipeFileSharing/SharedFileVolumeBroker.swift:312-325 | Stale unless the node is still the one it was; whole new state |
| SharedFileVolumeBrokers.SharedFileVolumeBroker.UpdateChild | Sources/NativePipeFileSharing/SharedFileVolumeBroker.swift:341-350 | A known child takes the new metadata |
| SharedFileVolumeBrokers.SharedFileVolumeBroker.AddChild | Sources/NativePipeFileSharing/SharedFileVolumeBroker.swift:341-350 | A new child under a new identifier and a free name |
| SharedFileVolumeBrokers.SharedFileVolumeBroker.AdoptChild | Sources/NativePipeFileSharing/SharedFileVolumeBroker.swift:341-350 | Either of both |
| SharedFileVolumeBrokers.SharedFileVolumeBroker.AdoptChildren | Sources/NativePipeFileSharing/SharedFileVolumeBroker.swift:341-350 | All children in order |
| SharedFileVolumeBrokers.SharedFileVolumeBroker.DropMissing | Sources/NativePipeFileSharing/SharedFileVolumeBroker.swift:351-352 | Children that disappeared go with their subtrees, in any order |
| SharedFileVolumeBrokers.SharedFileVolumeBroker.ListChildren | Sources/NativePipeFileSharing/SharedFileVolumeBroker.swift:326-354 | Stale, or the whole listing and new state |
| SharedFileVolumeBrokers.SharedFileVolumeBroker.StartRefresh | Sources/NativePipeFileSharing/SharedFileVolumeBroker.swift:312-316 | First section of a refresh |
| SharedFileVolumeBrokers.SharedFileVolumeBroker.StartList | Sources/NativePipeFileSharing/SharedFileVolumeBroker.swift:326-331 | First section of a listing |
| SharedFileVolumeBrokers.SharedFileVolumeBroker.StartRead | Sources/NativePipeFileSharing/SharedFileVolumeBroker.swift:355-360 | First section of a read |
| SharedFileVolumeBrokers.SharedFileVolumeBroker.ReadBytes | Sources/NativePipeFileSharing/SharedFileVolumeBroker.swift:361-366 | Stale, too long or the bytes |
| DropHandles.ClosedOnceAndUnused | Sources/NativePipeProtocol/DropFileServer.swift:881-931 | Over any interleaving of opening, using, releasing and session teardown: no descriptor is closed twice, none while in use or in the table, and one nobody holds any more is closed |
| DropHandles.ClosedStaysUnused | Sources/NativePipeProtocol/DropFileServer.swift:881-919 | Once closing was decided no request gets hold of the file again |
| DropHandles.IdleMeansUnopened | Sources/NativePipeProtocol/DropFileServer.swift:310-318 | A drop is removed as idle exactly if no entry of the handle table belongs to it |
| DropHandles.OwnHandlesExactly | Sources/NativePipeProtocol/DropFileServer.swift:514-537 | Over any interleaving of connecting and disconnecting guests, opens that begin and insert separately, uses, releases and teardowns: in every state with no teardown owed, each handle belongs to the connected session if and only if every open in the table began while its own session was connected and was inserted before the session was set again |
| DropHandles.ChangesAreCounted | Sources/NativePipeProtocol/DropFileServer.swift:201-214 | Between any two states of a run the counter that condition compares has grown by the number of times the session was set |
| DropHandles.StrayHandle | Sources/NativePipeProtocol/DropFileServer.swift:527-537 | The run that shows it: an open under way when a second session connects and the table is emptied leaves its handle to that session, with no teardown left to remove it |
| DropHandles.AcquireExactly | Sources/NativePipeProtocol/DropFileServer.swift:881-887 | A handle in the table leads to its own file, open and not about to be closed; any other handle to none, and nothing changes |
| DropHandles.UseLeavesNoTrace | Sources/NativePipeProtocol/DropFileServer.swift:881-900 | A request on a handle counts as one more user while it lasts and leaves the server as it was |
| DropHandles.ReleaseExactly | Sources/NativePipeProtocol/DropFileServer.swift:902-919 | After the guest closed a handle nobody gets a file by it, every other handle works as before, and the file is closed at once exactly if nobody uses it |
| DropFileServers.DropFileServer.constructor | Sources/NativePipeProtocol/DropFileServer.swift:163-167 | No drops, no handles |
| DropFileServers.DropFileServer.Adjust | Sources/NativePipeProtocol/DropFileServer.swift:534 | One drop counts one more or one fewer |
| DropFileServers.DropFileServer.SetGuest | Sources/NativePipeProtocol/DropFileServer.swift:201-204 | The session is set, and the table is to be emptied for it |
| DropFileServers.DropFileServer.PutFile | Sources/NativePipeProtocol/DropFileServer.swift:532-533 | The next handle stands for the file |
| DropFileServers.DropFileServer.InsertFile | Sources/NativePipeProtocol/DropFileServer.swift:527-537 | A new handle counted to its drop, or none without a session |
| DropFileServers.DropFileServer.AcquireFile | Sources/NativePipeProtocol/DropFileServer.swift:881-887 | One more user of an open handle, or none |
| DropFileServers.DropFileServer.RelinquishFile | Sources/NativePipeProtocol/DropFileServer.swift:888-894 | One user fewer; to be closed exactly when released and last |
| DropFileServers.DropFileServer.RemoveHandle | Sources/NativePipeProtocol/DropFileServer.swift:902-908 | The handle leaves the table and is counted out |
| DropFileServers.DropFileServer.MarkReleased | Sources/NativePipeProtocol/DropFileServer.swift:913-918 | To be closed exactly when nobody uses it |
| DropFileServers.DropFileServer.CountOut | Sources/NativePipeProtocol/DropFileServer.swift:926 | One handle counted out of its drop |
| DropFileServers.DropFileServer.CountAllOut | Sources/NativePipeProtocol/DropFileServer.swift:926 | The loop, in any order, counts every handle out of its drop |
| DropFileServers.DropFileServer.CloseAll | Sources/NativePipeProtocol/DropFileServer.swift:922-928 | The table is empty and every handle counted out |
| DropFileServers.DropFileServer.TakeIfIdle | Sources/NativePipeProtocol/DropFileServer.swift:310-315 | Removed exactly if its counter is zero |
| PixelBudget.CostsAreExact | Sources/NativePipeRemote/RemotePixelBudget.swift:24-51 | After any reservations, resizings and releases the costs of each kind are the sum of the live leases of that kind, in total at most the limit, and every lease can be given back |
| PixelBudget.ReserveOk | Sources/NativePipeRemote/RemotePixelBudget.swift:24-28 | A reservation keeps the budget exact |
| PixelBudget.ResizeOk | Sources/NativePipeRemote/RemotePixelBudget.swift:29-35 | A resized lease keeps the budget exact |
| PixelBudget.ReleaseOk | Sources/NativePipeRemote/RemotePixelBudget.swift:50 | Giving back always succeeds and keeps the budget exact |
| PixelBudget.ReserveExactly | Sources/NativePipeRemote/RemotePixelBudget.swift:24-34 | A reservation is admitted exactly if it is not negative and fits beside everything leased; it is a new lease of that kind and size, and a refused one changes nothing |
| PixelBudget.ResizeExactly | Sources/NativePipeRemote/RemotePixelBudget.swift:29-48 | A lease is resized exactly if the new size is not negative and fits beside all the other leases, whatever its own size was; kind and other leases stay |
| PixelBudget.RemotePixelBudget.constructor | Sources/NativePipeRemote/RemotePixelBudget.swift:15 | Nothing reserved, the limit not negative |
| PixelBudget.RemotePixelBudget.ResizeCost | Sources/NativePipeRemote/RemotePixelBudget.swift:29-35 | Admitted exactly if the total fits; otherwise unchanged |
| PixelBudget.RemotePixelBudget.ReserveBytes | Sources/NativePipeRemote/RemotePixelBudget.swift:24-28 | A lease and its cost, or none |
| PixelBudget.RemotePixelBudget.ResizeLease | Sources/NativePipeRemote/RemotePixelBudget.swift:45-49 | The lease and its cost change together, or neither |
| PixelBudget.RemotePixelBudget.ReleaseLease | Sources/NativePipeRemote/RemotePixelBudget.swift:50 | The lease and its cost are gone |
| FrameRuns.AlphaIsNeverLost | Sources/NativePipeRemote/RemoteFrameSource.swift:519-584 | Over any interleaving of network and decoder: every stored frame announced with alpha has its alpha and belongs to a stream that lists it, and every stream lists at most 12 frames, each once |
| FrameOrigins.PixelsAreTheirs | Sources/NativePipeRemote/RemoteFrameSource.swift:467-516 | Over any interleaving: a stored frame has the pixels of a picture decoded for its surface under its number, and the well-formed alpha plane that was sent for it, or the last one of its stream in this epoch when it asked to use that again |
| FrameOrigins.LastPlaneIsLast | Sources/NativePipeRemote/RemoteFrameSource.swift:551-560 | Over any interleaving: the plane a stream lends is the last it took in this epoch, and there is none before one |
| FrameOrigins.StalePictureIsIgnored | Sources/NativePipeRemote/RemoteFrameSource.swift:523-527 | A picture whose stream is gone, reset or has forgotten it changes nothing |
| FrameRuns.PendingIsBounded | Sources/NativePipeRemote/RemoteFrameSource.swift:347-392 | While nothing of this generation failed, every plane, held picture, reservation and expectation of a stream belongs to one of at most 24 pending frames, each listed once, apart from a stray reservation; there is one if and only if, with nothing recorded since, a picture was announced that fits the codec, got its leases, asks to reuse an alpha plane when there is none of its size, and whose number was not pending |
| FrameRuns.StepStrays | Sources/NativePipeRemote/RemoteFrameSource.swift:375-385 | For every step from every reachable state: it leaves such a reservation exactly if it announces that packet, or there was one already and the step neither records a failure of this generation nor ends it |
| FrameRuns.StrayReservation | Sources/NativePipeRemote/RemoteFrameSource.swift:375-384 | The input that shows the exception: a first picture that reuses an alpha plane |
| FrameArrivals.PassedStaysAway | Sources/NativePipeRemote/RemoteFrameSource.swift:224-230 | Over any run after a layer was told that its frame is unavailable, without a reset and with the stream within half the numbers ahead of it: the frame is in the store for that surface at some later time if and only if a publication of its number finishes while it is still the newest of its stream |
| FrameArrivals.SkippedStaysAway | Sources/NativePipeRemote/RemoteFrameSource.swift:502-504 | So once the stream has gone past a frame that is not stored, it is never stored again in such a run |
| FrameArrivals.OnlySentAgain | Sources/NativePipeRemote/RemoteFrameSource.swift:298-343 | In any run, resets included: a frame that is not stored and of which nothing is reserved or under way gets into the store only if a picture packet with its number and surface comes in again |
| FrameArrivals.LayerExactly | Sources/NativePipeRemote/RemoteFrameSource.swift:219-231 | A layer is told to give up if and only if its surface is gone or its stream has got to the frame or past it |
| FrameArrivals.ResolveExactly | Sources/NativePipeRemote/RemoteFrameSource.swift:175-206 | What is handed out is the stored frame, exactly if it is there and has the size asked for; exactly the frames its stream listed before it go |
| FrameArrivals.TakeExactly | Sources/NativePipeRemote/RemoteFrameSource.swift:471-496 | A frame goes on exactly if pixels were reserved for it and its surface could be made; otherwise a failure of its generation follows |
| FrameArrivals.ResetIsNew | Sources/NativePipeRemote/RemoteFrameSource.swift:444-463 | After a reset the store is as it was made, whatever became of the connection before; only numbers are not used again |
| FrameCases.NumberAgain | Sources/NativePipeRemote/RemoteFrameSource.swift:224-230 | The input that shows the first: a layer is told that its frame will not come while the same number is sent again in a new epoch, and it comes |
| FrameCases.ToldByOldStream | Sources/NativePipeRemote/RemoteFrameSource.swift:444-463 | And with a reset: between removeAll and the removal of the streams, the stream of the old connection tells a layer that its frame will not come, and the new connection sends it |
| FrameLeases.LeasesAgree | Sources/NativePipeRemote/RemoteFrameSource.swift:15-60 | Over any interleaving of the store with its budget, trimming included: the live leases are exactly those a decoder, a reservation, an alpha plane, a stored frame, a frame on its way or somebody outside refers to, each of its kind; the costs are their bytes, in total at most the limit |
| FrameLeases.ReservePixelsOk | Sources/NativePipeRemote/RemoteFrameSource.swift:124-131 | Reserving, with trimming when it fails the first time, keeps every lease somebody refers to and adds at most one of the kind asked for |
| FrameLeases.CollectIs | Sources/NativePipeRemote/RemotePixelBudget.swift:37-51 | Giving back what nobody refers to keeps exactly the rest, unchanged, and the budget exact |
| FrameRuns.LatestSurvives | Sources/NativePipeRemote/RemoteFrameSource.swift:121-131 | In every reachable state: making room leaves each stream only its latest number, and its latest frame stays, unchanged, if and only if every stream that lists that number has it as its latest too |
| FrameCases.SharedNumber | Sources/NativePipeRemote/RemoteFrameSource.swift:126-129 | The input that shows it: a surface publishes a number that another surface has among its older ones, and making room drops the only frame it has |
| RemoteFrameSources.Track | Sources/NativePipeRemote/RemoteFrameSource.swift:574-584 | The loop keeps the newest 24 pending frames and forgets everything about the others |
| RemoteFrameSources.RemoteFrameSource.constructor | Sources/NativePipeRemote/RemoteFrameSource.swift:116-119 | Nothing stored |
| RemoteFrameSources.RemoteFrameSource.DropFrames | Sources/NativePipeRemote/RemoteFrameSource.swift:327-329 | Removes exactly these frames |
| RemoteFrameSources.RemoteFrameSource.EnterStream | Sources/NativePipeRemote/RemoteFrameSource.swift:300-343 | Opens a stream, resets it for a new epoch; whole new state |
| RemoteFrameSources.RemoteFrameSource.BeginPacket | Sources/NativePipeRemote/RemoteFrameSource.swift:298-343 | First section of a packet: refused for an older generation, after a failure or for a destroyed surface, failed beyond the limit of streams |
| RemoteFrameSources.RemoteFrameSource.TrimStream | Sources/NativePipeRemote/RemoteFrameSource.swift:126-129 | One stream keeps its latest frame only |
| RemoteFrameSources.RemoteFrameSource.TrimHistory | Sources/NativePipeRemote/RemoteFrameSource.swift:124-131 | The loop, in any order, leaves every stream its latest frame |
| RemoteFrameSources.RemoteFrameSource.AnnounceFrame | Sources/NativePipeRemote/RemoteFrameSource.swift:347-392 | Second section of a picture: codec check, decoder lease, trimming; whole new state on every path |
| RemoteFrameSources.RemoteFrameSource.AnnounceKnownFrame | Sources/NativePipeRemote/RemoteFrameSource.swift:366-392 | The rest of it: a failed reuse leaves the reservation behind |
| RemoteFrameSources.RemoteFrameSource.ExpectAlpha | Sources/NativePipeRemote/RemoteFrameSource.swift:376-391 | Alpha expectation or reuse, and tracking |
| RemoteFrameSources.RemoteFrameSource.MeasurePlane | Sources/NativePipeRemote/RemoteFrameSource.swift:406-418 | Second section of an alpha plane: reservation and decoding |
| RemoteFrameSources.RemoteFrameSource.ReceiveAlpha | Sources/NativePipeRemote/RemoteFrameSource.swift:551-566 | Third section: the plane is paired with its picture or held |
| RemoteFrameSources.RemoteFrameSource.ReceiveFrame | Sources/NativePipeRemote/RemoteFrameSource.swift:519-541 | A picture is held for its alpha or goes on with it |
| RemoteFrameSources.RemoteFrameSource.Publish | Sources/NativePipeRemote/RemoteFrameSource.swift:471-496 | The reservation is taken, or a failure of the stream's generation follows |
| RemoteFrameSources.RemoteFrameSource.StoreFrame | Sources/NativePipeRemote/RemoteFrameSource.swift:497-516 | Stale frames are dropped; otherwise stored, and at most 12 kept |
| RemoteFrameSources.RemoteFrameSource.FailGeneration | Sources/NativePipeRemote/RemoteFrameSource.swift:134-138 | Recorded for the current generation only |
| RemoteFrameSources.RemoteFrameSource.FailWork | Sources/NativePipeRemote/RemoteFrameSource.swift:134-138 | The failure that follows a section is recorded |
| RemoteFrameSources.RemoteFrameSource.Destroy | Sources/NativePipeRemote/RemoteFrameSource.swift:427-441 | The stream and its frames go, and do not come back |
| RemoteFrameSources.RemoteFrameSource.Clear | Sources/NativePipeRemote/RemoteFrameSource.swift:444-453 | A new generation and no frames |
| RemoteFrameSources.RemoteFrameSource.ClearQueued | Sources/NativePipeRemote/RemoteFrameSource.swift:454-463 | No streams |
| RemoteFrameSources.RemoteFrameSource.ResolveFrame | Sources/NativePipeRemote/RemoteFrameSource.swift:175-206 | Unpublished, unavailable for its size, or ready with the frame; older frames of the stream are retired; whole new state |
| RemoteFrameSources.RemoteFrameSource.ResolveMissing | Sources/NativePipeRemote/RemoteFrameSource.swift:224-230 | A missing frame is unavailable once its surface is gone or its stream got to it, and unpublished otherwise |
| VersionScan.ScanFinds | Sources/NativePipeProtocol/GuestdBinaryVersion.swift:31-64 | The scan finds the first stamp, and nothing exactly when there is none |
| VersionScan.Extract | Sources/NativePipeProtocol/GuestdBinaryVersion.swift:31-64 | The search that restarts one byte after each tag equals the scan |
| VersionScan.ExtractStreaming | Sources/NativePipeProtocol/GuestdBinaryVersion.swift:74-115 | For every byte string and every way to cut it, the one-pass automaton finds what the scan finds if that token is at most 256 bytes, and otherwise fails |
| VersionScan.ScanByte | Sources/NativePipeProtocol/GuestdBinaryVersion.swift:80-107 | One byte keeps the automaton in step with the scan of everything read so far |
| VersionScan.ScanChunk | Sources/NativePipeProtocol/GuestdBinaryVersion.swift:80-107 | One chunk keeps the automaton in step |

## Left out

- Stream and file objects are values in maps keyed by their numbers: two references to one
  object are two uses of one number, and nothing is said about memory or deinitialization
  beyond the step it triggers.
- Sockets, dispatch queues, `Process`, SSH and POSIX calls: replaced by channels, tables and
  results the outside chooses. A write that completes is a step of its own.
- Swift concurrency: a suspended call is a ticket or a pending operation; fairness is not
  modelled, and task cancellation is a cancel step or an abandoned operation.
- File session: a rejecting verdict and the failure it causes are one step, so no other step
  sees the time between them. A session without a notification handler behaves the same and is
  not told apart. ENOBUFS is allowed to end a session whose peer never reads its refusals.
- SessionNetwork.NoProtocolError: nothing is asked for before HELLO is queued, because without
  that it is false (see above).
- SessionPipe.StreamIsPipe: says nothing of streams the receiver cancelled, whose buffered
  messages are discarded on purpose, nor of a sender that failed, whose queue is discarded.
- SessionPipe.SendIsWhole: is about a send nobody interferes with; between two of its frames
  another thread may cancel the stream, and then it ends part way with an error.
- BulkLane.CreditIsConserved: both ends are writers and decoders of this repository; the C
  peer of the guest is not part of this model.
- Floating point: round trips and scroll distances are real numbers, and the `isFinite`
  branches are not modelled.
- Window, control, media and application layouts: opaque parameters of the decoder that may
  accept or refuse any payload. A record that starts with the NPIP magic but is shorter than a
  header stops the program in `decodeHeader`; the model reports it as an error of its own.
- Acknowledging more than 2^32 - 1 received bytes in one record would stop the program; runs
  of the writer keep below that.
- The encoding of window commands and the observation of `fileSessionBacklog`.
- WriterRuns.GuestSeesTheSame: selection data is compared in its own order and not against
  other commands, because the source sends it past them on purpose; scroll distances are
  compared by their turning points within a gesture.
- SFTP uploads' write window, opening handles, attributes, removing trees, the metadata and
  version checks around `readRange`, response timeouts and `EINTR`: they add no harder member.
- SFTPListings.Entries: the localized order of the result is not modelled, only which entries
  it holds; a request is known by its serial number there, and how replies find their request
  by a wrapping identifier is shown in SFTPConnections.
- SFTPTransfers.ReadRange: the size promised by the version check is a parameter, and the
  remote file does not change while it is read.
- SFTPPublication.OriginalIsNeverLost: names of staging and backup are taken as distinct and
  unused, which the source gets from UUIDs; nobody else renames the same paths meanwhile.
- Shared volume: Unicode normalization, the sort order of listings, catalog revisions and
  notifications, `closeRangeAccess`, sharing one mount task, and URL checks. The generation
  UUIDs are numbers that never repeat.
- SharedNames.UniqueNameIsFree: the bound of 255 bytes is proved while fewer than 10^12 names
  are in use; beyond that the number itself would be longer than the room kept for it.
- Drop server: path resolution, lock files and the requests themselves; only who holds which
  open file. A session object is connected at most once.
- Frame store: making pixels and textures, consumption credits and surfaces shared with other
  processes. Packets of a new generation reach the decode queue after the reset of the old one,
  as the source orders them. Leases of decoders and of frames shown are somebody else's from
  the store's point of view, and the last reference to a lease gives it back at the end of the
  section that drops it.
- FrameArrivals.PassedStaysAway: is about runs in which the stream stays less than half the
  2^32 numbers ahead of the frame; beyond that a number compares as new again.
- The Vulkan layer, the shims, packaging scripts, command line and localization: thin wrappers.
