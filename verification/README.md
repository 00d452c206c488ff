# Verified models of the CAN tools

Dafny models of four programs of the repository, with proofs of what they promise:

- **The CAN-TCP bridge**: the Python server (`Wire`, `Records`, `Framer`, `BridgeThreads`,
  `BridgeSend`, `BridgeReceive`, `BridgeTheorems`, `BridgeOrder`) and the ESP32 client written in C
  (`Client`), and the two against each other (`Delivery`).
- **The CANopen viewer's message pipeline**: filters, driver, message list and pinned filters
  (`Filters`, `Driver`, `Gui`), what any run of polls makes of a history (`ViewerTheorems`,
  `PinTheorems`, `PinTimes`), what pinning in between adds (`PinRuns`), and driver and interface composed
  (`ViewerSession`).
- **The firmware update** (`Firmware`): the status poll and the update run.
- **The bitrate chart** (`Bitrate`).

`dafny verify dfyconfig.toml` checks everything.

## How to read it

`Records.Split` is the reference reading of a byte stream: length-prefixed records, then an
incomplete rest. The incremental framer, the client's socket reader, the bridge's receive
loop and the bytes each side sends are all related to it, so their agreement follows from
its being unambiguous.

The two threads of the Python bridge are a step relation (`BridgeThreads.Do`). A step is what
one thread does between two points where the other can be seen: one `bus.recv`, one locked
access to `self.sock`, some bytes of one `sendall`, one `recv`, one record. A run is any
sequence of enabled steps, so the theorems range over every interleaving, every reconnect and
every failure. `BridgeOrder` says the same runs without states, as sequences of actions. The
sequential code of one connection (`Framer.LoopTcpToCan`) is also given as
loops over a mutable framer.

In the viewer, `h` is the history the driver numbered (`h[i].index == i`), and a poll sees the
window published when `k` messages had been processed. The window holds 513 messages, not
512, because it is trimmed before a message is added (driver.rs:111-114); in the same way
the bitrate window holds 1029 samples (bitrate.rs:56-60).

## What is assumed of the environment

- Once a send on a connection has failed, that connection accepts no more bytes. Closing a
  connection is not assumed to stop a `sendall` in progress.
- Every scheduling, bus, socket and poll outcome is arbitrary. A KeyboardInterrupt may stop
  the CAN-to-TCP loop anywhere. A `zsock_recv` schedule is finite; the peer closes after it.
- When two bridges are put together, the c-th connection of one is the c-th of the other.
- In the status poll the clock does not go back and each sleep takes at least half a second.
- Where a row says "if the clock goes on", messages carry increasing timestamps, and a poll's
  clock is later than the messages it can see (`PinTimes.Dated`).
- A regular expression is an arbitrary predicate on strings. A clock is read once per poll
  for the pins.

## What the proofs found

- `main` of the client ignores the result of `tcp_send_can_frame` (main.c:268). After a short
  send the stream is no longer the frames taken from the queue: `Delivery.ClientToPython`
  gives the exact condition, on what each send accepts, and `Delivery.ShortSendMisread` a run
  in which the peer reads a message that was never on the bus.
- Messages the global filter hides do not move the front of the list, so later polls push
  them into the pinned filters again; a pin's time delta can then count from the message it
  shows (`PinTimes.WrongDelta`). `PinTheorems.ReplaysIff` says for which filters nothing is
  ever pushed twice, `PinTheorems.ReplaysInRun` in which runs.
- A pin also misses matches that fell into a gap between two windows, and then counts from
  the wrong instant even if nothing is hidden (`PinTimes.GapDelta`). When everything matched
  is shown, `PinTimes.PinRightIff` says in which runs the time is right;
  `PinTimes.RightWithoutGapsIff` says for which filters it is in all runs without gaps, and
  `PinTimes.AlwaysRightIff` for which it is in all runs.
- A list under a constant filter misses messages that fell into a gap between two windows
  (`ViewerTheorems.MissedMessage`). It equals the newest 4096 of the filtered history exactly
  when all of those were in a window (`ViewerTheorems.ExactRun`); so a miss is forgotten once
  4096 shown messages have followed (`ViewerTheorems.LaterExact`).
- A point of the bitrate chart is left out when the counter advanced by 2^31 or more in four
  steps (`Bitrate.PointLeftOut`); the bits shown then fall short of the bits received
  (`Bitrate.BitsTelescope`).

## Model

| member | source | states |
|---|---|---|
| BridgeTheorems.Delivery | can-tcp-bridge/can-tcp-bridge-server/can_tcp_bridge.py:312-335 | After every interleaving of the two threads, every reconnect and every way sends fail: the whole records on all connections, in order, are the encodings of bus frames at strictly increasing positions; their number, the frames given up on and the one in hand add up to the frames received from the bus |
| BridgeTheorems.WholeThenPartial | can-tcp-bridge/can-tcp-bridge-server/can_tcp_bridge.py:324-327 | In every such run what follows the whole records on a connection is nothing or a strict prefix of the framing of one bus frame |
| BridgeTheorems.NothingLost | can-tcp-bridge/can-tcp-bridge-server/can_tcp_bridge.py:312-335 | With no frame in hand, the connections together carry the encoding of every frame the bus delivered, in bus order, if and only if no step of the run was lossy |
| BridgeTheorems.RunHistory | can-tcp-bridge/can-tcp-bridge-server/can_tcp_bridge.py:238-335 | The history of bus frames is what `bus.recv` returned; `self.sock` is set exactly while the last connection made has not been closed and forgotten; the frames given up on are counted exactly by the lossy steps: a frame too long for the wire, one taken up while no connection is up, one whose send fails, one in hand at an interrupt |
| BridgeTheorems.OneOpenConnection | can-tcp-bridge/can-tcp-bridge-server/can_tcp_bridge.py:238-310 | At every moment of every run at most one connection is open, `self.sock` is the newest one, and while a new one is awaited there is none |
| BridgeTheorems.RunInv | can-tcp-bridge/can-tcp-bridge-server/can_tcp_bridge.py:201-367 | The socket, sending and receiving invariants hold after every run |
| BridgeTheorems.Reception | can-tcp-bridge/can-tcp-bridge-server/can_tcp_bridge.py:337-367 | What is offered to `bus.send` is, connection by connection, an initial part of the decodings of the records received on that connection up to the first malformed one; all of them unless its buffer is still being drained or a send raised an exception other than a CanError; no byte of one connection completes a record of another |
| BridgeTheorems.EndToEnd | can-tcp-bridge/can-tcp-bridge-server/can_tcp_bridge.py:238-367 | If a peer hears on each connection any prefix of the accepted bytes, the messages it decodes over all connections are the normal forms of bus frames at strictly increasing positions, and every record it completes decodes |
| BridgeTheorems.TwoBridges | can-tcp-bridge/can-tcp-bridge-server/can_tcp_bridge.py:238-367 | Any run of one bridge against any run of another that has received prefixes of what the first sent, connection by connection: what the second offers to its bus are the normal forms of frames of the first bus at strictly increasing positions |
| BridgeTheorems.AllArrives | can-tcp-bridge/can-tcp-bridge-server/can_tcp_bridge.py:238-367 | If no step of the first run was lossy, no frame is in hand, and the second bridge has received everything, is done with it and no send of its raised, it has offered the normal form of every frame of the first bus, in order |
| BridgeTheorems.OfferedIsReadable | can-tcp-bridge/can-tcp-bridge-server/can_tcp_bridge.py:350-360 | With a bus that at most refuses frames, the sequential receive loop offers exactly the decodings up to the first malformed record, so a refused frame skips only itself |
| BridgeOrder.RunsAreLegal | can-tcp-bridge/can-tcp-bridge-server/can_tcp_bridge.py:201-367 | The runs of the bridge are exactly the sequences of actions that are legal, said of the actions alone: what each thread may do next follows from what was done, received and sent before |
| BridgeOrder.NextActions | can-tcp-bridge/can-tcp-bridge-server/can_tcp_bridge.py:201-367 | After a run, an action can happen if and only if the actions before it allow it |
| BridgeOrder.EndedConnection | can-tcp-bridge/can-tcp-bridge-server/can_tcp_bridge.py:242-256 | After the peer closed or a receive failed, a connect failed, a stop or a lost socket was seen at the head of the loop, a record was malformed or a send raised, the manager closes the socket before anything else, and receives only on a connection made after that |
| BridgeOrder.StopEnds | can-tcp-bridge/can-tcp-bridge-server/can_tcp_bridge.py:220-241 | After a stop, the manager at its own loop head does nothing any more, and at the head of the receive loop it neither receives nor connects again |
| BridgeOrder.OpenIff | can-tcp-bridge/can-tcp-bridge-server/can_tcp_bridge.py:220-310 | Exactly the newest connection is open, from when it was made until the manager or `stop` closes it |
| BridgeOrder.OneTry | can-tcp-bridge/can-tcp-bridge-server/can_tcp_bridge.py:315-327 | A frame is taken up for sending once: before the next look at the socket comes the next frame, whether the send was complete, failed, or there was no connection |
| BridgeTheorems.CanStep | can-tcp-bridge/can-tcp-bridge-server/can_tcp_bridge.py:312-335 | Each step of the CAN-to-TCP loop keeps the invariants, wherever the other thread is |
| BridgeTheorems.TcpStep | can-tcp-bridge/can-tcp-bridge-server/can_tcp_bridge.py:238-310 | Each step of the TCP manager and its receive loop keeps the invariants, wherever the other thread is |
| BridgeSend.SendMiddle | can-tcp-bridge/can-tcp-bridge-server/can_tcp_bridge.py:324-327 | Some bytes of a frame accepted: the connection still carries its whole frames and then a strict prefix of the frame in hand |
| BridgeSend.SendLast | can-tcp-bridge/can-tcp-bridge-server/can_tcp_bridge.py:324-327 | The last bytes of a frame accepted: it joins the whole frames, after all earlier ones of all connections |
| BridgeSend.FailStep | can-tcp-bridge/can-tcp-bridge-server/can_tcp_bridge.py:324-327 | A failed send leaves at most a strict prefix behind the whole frames and counts the frame as given up |
| BridgeSend.ConnectStep | can-tcp-bridge/can-tcp-bridge-server/can_tcp_bridge.py:278-306 | A new connection starts empty, while a send on the old one may still be under way |
| BridgeReceive.ChunkStep | can-tcp-bridge/can-tcp-bridge-server/can_tcp_bridge.py:346-349 | Feeding a chunk into the framer continues the reading of the whole stream of the connection |
| BridgeReceive.RecordStep | can-tcp-bridge/can-tcp-bridge-server/can_tcp_bridge.py:350-360 | Taking one record offers its decoding, or ends the connection with every earlier record offered |
| BridgeReceive.DrainIsDeliver | can-tcp-bridge/can-tcp-bridge-server/can_tcp_bridge.py:350-366 | The record steps of one drain in the step relation offer the frames the sequential inner loop offers, and go on, with the same buffer, in the same cases |
| Wire.RoundTrip | can-tcp-bridge/can-tcp-bridge-server/can_tcp_bridge.py:136-178 | Decoding an encoded message of at most 64 bytes gives its normal form (id masked to 29 bits, FD forced when configured, BRS kept only with FD); normalising again changes nothing and encodes to the same bytes |
| Wire.ReencodesIffCanonical | can-tcp-bridge/can-tcp-bridge-server/can_tcp_bridge.py:136-178 | A record decodes and re-encodes to itself if and only if it is canonical: exact length, 29-bit id, no unknown flag, FD set when configured, BRS only with FD |
| Wire.RecordLayout | can-tcp-bridge/can-tcp-bridge-server/can_tcp_bridge.py:127-152 | What `frame_from_can` puts where, byte by byte: length, 29-bit id, flag bits 1, 2, 4 and 8 for extended, remote, FD and BRS, data length, data; it refuses more than 64 data bytes |
| Wire.DecodeLayout | can-tcp-bridge/can-tcp-bridge-server/can_tcp_bridge.py:154-178 | What `can_from_frame` reads from where, byte by byte, and exactly which records it refuses |
| Records.SplitJoins | can-tcp-bridge/can-tcp-bridge-server/can_tcp_bridge.py:127-129 | Reading a stream loses and invents nothing: the framed records followed by the leftover are the stream |
| Records.SplitUnique | can-tcp-bridge/can-tcp-bridge-server/can_tcp_bridge.py:127-129 | The framing is unambiguous: any way of writing a stream as framed records and an incomplete rest is the one that is read |
| Records.SplitAppend | can-tcp-bridge/can-tcp-bridge-server/can_tcp_bridge.py:180-197 | Reading a stream in two pieces, resuming from the leftover, reads the whole |
| Framer.TcpFramer.NextRecord | can-tcp-bridge/can-tcp-bridge-server/can_tcp_bridge.py:188-197 | Takes the first record off the buffer, exactly when a whole one is there; the buffer then shrinks by at least 2 bytes, and otherwise stays as it was |
| Framer.TcpFramer.Drain | can-tcp-bridge/can-tcp-bridge-server/can_tcp_bridge.py:350-353 | Taking records until there is none ends and yields the reading of the buffer, zero-length records included |
| Framer.FeedAll | can-tcp-bridge/can-tcp-bridge-server/can_tcp_bridge.py:180-197 | However a stream is cut into chunks, draining after each one yields the records and the leftover of the whole stream, which together are all bytes fed |
| Framer.DeliverBuffered | can-tcp-bridge/can-tcp-bridge-server/can_tcp_bridge.py:350-360 | The inner loop offers the decodings up to the first malformed record or raised send, and goes on exactly if there was neither |
| Framer.LoopTcpToCan | can-tcp-bridge/can-tcp-bridge-server/can_tcp_bridge.py:337-367 | The frames offered on one connection depend on the bytes received before it ended, not on the chunks |
| Framer.ReceivedIs | can-tcp-bridge/can-tcp-bridge-server/can_tcp_bridge.py:345-365 | The bytes received are those of the chunks before the first empty chunk or error |
| Framer.OfferedMeaning | can-tcp-bridge/can-tcp-bridge-server/can_tcp_bridge.py:350-366 | The offered frames decode the first records one by one; they stop short only at a malformed record or after a send that raised; a CanError stops nothing |
| Client.Serve | can-tcp-bridge/can-tcp-bridge-client/src/main.c:257-349 | For any byte stream, short reads, EAGAINs, short sends, poll results and arrivals: the frames put on the CAN bus are those of the whole records in the bytes consumed; while running, and after a failed poll, the client stands at a record boundary, one record past each readable poll, so a bad record harms no later one; it stops exactly on a failed poll, or when the last receive call it made failed, was closed or found nothing left; its output is what the sends accepted of the frames that did not find the queue full |
| Client.ReadRecord | can-tcp-bridge/can-tcp-bridge-client/src/main.c:293-348 | One pass over a readable socket consumes exactly one framed record, good, of bad length or of bad data length, and yields the frame to forward; or it fails having consumed an incomplete record |
| Client.RecvAll | can-tcp-bridge/can-tcp-bridge-client/src/main.c:43-69 | Across short reads and EAGAIN, success means exactly the next n bytes were read into the buffer and no call ended the connection; failure means fewer were and the last call made did |
| Client.Skip | can-tcp-bridge/can-tcp-bridge-client/src/main.c:303-314 | The dump loop skips exactly the given number of bytes, or fails with fewer |
| Client.TcpSendCanFrame | can-tcp-bridge/can-tcp-bridge-client/src/main.c:114-153 | Length, header and data go out in order up to the first send that is not complete: the bytes put on the stream, the result and the answers used up are a function of the frame and of what the sends accept |
| Client.RxQueue.CanRxCb | can-tcp-bridge/can-tcp-bridge-client/src/main.c:107-112 | Queues an arriving frame behind the others, or drops it exactly when 32 are waiting |
| Client.RxQueue.Get | can-tcp-bridge/can-tcp-bridge-client/src/main.c:266-266 | Takes the oldest queued frame; the frames taken and those still queued are always the arrivals that did not find the queue full, in order |
| Client.BurstKept | can-tcp-bridge/can-tcp-bridge-client/src/main.c:39-41 | Of frames that arrive before anything is taken, the first 32 are kept and the others dropped |
| Client.RoomAfterTake | can-tcp-bridge/can-tcp-bridge-client/src/main.c:107-112 | An arrival is kept exactly if fewer than 32 are waiting, and taking one makes room for one |
| Client.AcceptLayout | can-tcp-bridge/can-tcp-bridge-client/src/main.c:155-196 | What the client reads from where, byte by byte, and exactly which records it refuses |
| Client.DrainQueue | can-tcp-bridge/can-tcp-bridge-client/src/main.c:265-269 | Ends with the queue empty, whatever arrives meanwhile; the output is what the sends accepted of the frames taken, one after the other, failures ignored |
| Client.ForwardNext | can-tcp-bridge/can-tcp-bridge-client/src/main.c:293-348 | Keeps the frames forwarded equal to those of the records consumed, and the client at a record boundary |
| Delivery.StreamRoundTrip | can-tcp-bridge/can-tcp-bridge-server/can_tcp_bridge.py:136-197 | Framing any list of messages and decoding the stream gives back the normal forms of all that `frame_from_can` does not refuse, in order, with no byte left over |
| Delivery.DecodersAgree | can-tcp-bridge/can-tcp-bridge-client/src/main.c:155-196 | The client accepts exactly the records that `can_from_frame` accepts, that declare at most 8 data bytes and that have nothing after them; the two then agree on ext, rtr and data, and on the id modulo 2^29 |
| Delivery.AcceptEncoded | can-tcp-bridge/can-tcp-bridge-server/can_tcp_bridge.py:136-152 | The client accepts a record encoded in Python exactly if it has at most 8 data bytes, with masked id, ext, rtr and data preserved |
| Delivery.PythonToClient | can-tcp-bridge/can-tcp-bridge-client/src/main.c:293-348 | Of any list of messages framed in Python, a client that has consumed a part of the stream has forwarded exactly those of at most 8 data bytes among the messages wholly in that part, in order |
| Delivery.BridgeToClient | can-tcp-bridge/can-tcp-bridge-server/can_tcp_bridge.py:312-335 | In any run of the bridge, a client that has consumed a part of what a connection carries has forwarded exactly the frames of at most 8 data bytes among the bus frames whose records it has consumed, in order |
| Delivery.ClientEncodesAlike | can-tcp-bridge/can-tcp-bridge-client/src/main.c:114-153 | The client encodes a frame as `frame_from_can` does, and `can_from_frame` gives the frame back |
| Delivery.ClientLayout | can-tcp-bridge/can-tcp-bridge-client/src/main.c:114-150 | What `tcp_send_can_frame` puts where, byte by byte |
| Delivery.PiecesIff | can-tcp-bridge/can-tcp-bridge-client/src/main.c:134-152 | The sends of a frame put an initial part of its framing on the stream, and all of it, with success reported, if and only if none accepts less than it was given |
| Delivery.SendsIff | can-tcp-bridge/can-tcp-bridge-client/src/main.c:263-269 | Whatever failed before, each frame taken puts an initial part of its framing on the stream; all of them are whole if and only if no send accepts less than the 2, 6 and data bytes it was given |
| Delivery.ClientToPython | can-tcp-bridge/can-tcp-bridge-client/src/main.c:263-269 | A peer reads exactly the arrivals that did not find the 32-slot queue full, with nothing left over, if and only if every send accepts all it was given; and the messages it reads are those frames under the same condition |
| Delivery.ShortSendMisread | can-tcp-bridge/can-tcp-bridge-client/src/main.c:263-269 | A run of the client with two frames waiting and sends that accept 2, 6 and 0 bytes: `main` goes on after the failure, and the peer reads a message that was never on the bus |
| Filters.FlagHides | oze-canopen-viewer/src/filter.rs:75-84 | Which message types each flag hides |
| Filters.GlobalHidesUnion | oze-canopen-viewer/src/filter.rs:70-85 | A global filter hides exactly what its data filter or one of its flags alone hides |
| Filters.DataHidesUnion | oze-canopen-viewer/src/filter.rs:45-63 | The node, the cob-id expression and the hex expression each hide what does not match in their own field, and a data filter hides what one of its parts alone hides |
| Driver.DriverLife | oze-canopen-viewer/src/driver.rs:67-132 | Every published window is the last 513 messages processed so far, or all of them; `exit_signal` is set exactly when the command in force is Kill and only in the last snapshot, and the driver goes on until then; a ctrl-c sets it at once |
| Driver.InForce | oze-canopen-viewer/src/driver.rs:78-99 | Without a ctrl-c the command in force is the last change, or else the initial command |
| Driver.CtrlCKills | oze-canopen-viewer/src/driver.rs:72-75 | A ctrl-c puts Kill in force, whatever change there was |
| Driver.ProcessedAre | oze-canopen-viewer/src/driver.rs:93-108 | Every processed message is one that a wait received while the command in force was Process, with the number of those before it |
| Driver.Driver.Process | oze-canopen-viewer/src/driver.rs:67-115 | Numbers and keeps a message exactly if the command in force after the wait is Process and a message was received; the window stays that of the history |
| Driver.Driver.Run | oze-canopen-viewer/src/driver.rs:118-132 | One snapshot per wait, each with the window of the messages processed so far, until the first Kill |
| Driver.ProcessedGrows | oze-canopen-viewer/src/driver.rs:106-114 | Messages are numbered contiguously from 0 and keep their numbers as the run goes on |
| Gui.PinnedFilters.PushData | oze-canopen-viewer/src/pinned_filter.rs:22-30 | Every pin whose filter shows the message, and no other, takes it and the timestamp of the message it had |
| Gui.Gui.GetDataFromDriver | oze-canopen-viewer/src/gui.rs:96-118 | The list and the pins become what visiting the window in order and cutting the list to 4096 makes of them |
| ViewerTheorems.VisitWindow | oze-canopen-viewer/src/gui.rs:98-109 | Although each message is compared with the front of a list that changes meanwhile, a poll visits exactly the window messages newer than the newest one listed before it |
| ViewerTheorems.ListAlwaysOrdered | oze-canopen-viewer/src/gui.rs:96-113 | After any polls under any filter changes the list is strictly newest first, without duplicates, at most 4096 long, and each of its messages was in the window and passed the filter of some poll |
| ViewerTheorems.PollListed | oze-canopen-viewer/src/gui.rs:96-113 | One poll keeps the list ordered and adds only messages of its window that pass its filter |
| ViewerTheorems.ListIsBatchFilter | oze-canopen-viewer/src/gui.rs:96-113 | Under a constant filter the list is the newest 4096 of the batch filter over all messages that were ever in a polled window |
| ViewerTheorems.NothingMissed | oze-canopen-viewer/src/gui.rs:96-113 | If the driver never advances by more than 513 messages between polls, the list is the newest 4096 of the whole filtered history |
| ViewerTheorems.ExactRun | oze-canopen-viewer/src/gui.rs:96-113 | After any polls under a constant filter the list is the newest 4096 of the whole filtered history if and only if each of those 4096 was in some polled window |
| ViewerTheorems.MissedMessage | oze-canopen-viewer/src/gui.rs:96-113 | A run of 514 messages and one poll whose list misses the first message, which the filter shows |
| ViewerTheorems.LaterExact | oze-canopen-viewer/src/gui.rs:96-113 | A missed message leaves no trace once 4096 shown messages that were in windows have followed |
| ViewerTheorems.ExactPoll | oze-canopen-viewer/src/gui.rs:96-113 | One poll from a list equal to the filtered history keeps it equal if and only if every message between those polled before and the new window is hidden |
| PinTheorems.PinRunTells | oze-canopen-viewer/src/pinned_filter.rs:22-30 | After any polls a pin shows the last match pushed, replays included, and counts from the timestamp of the one pushed before it, from that of the message it started with, or from the clock of the poll that pushed the first |
| PinTheorems.PinnedIsNewest | oze-canopen-viewer/src/pinned_filter.rs:22-30 | Under any filter history, after any polls, the pinned message is the newest of the initial pick and all matches pushed, and never goes back |
| PinTheorems.PickIsNewest | oze-canopen-viewer/src/pinned_filter.rs:14-20 | Pinning picks the newest listed match, which is a message of the history, and none exactly if nothing listed matches |
| PinTheorems.ReplaysIff | oze-canopen-viewer/src/gui.rs:98-109 | No history and no polls ever push a match twice, if and only if the global filter shows everything the pin matches |
| PinTheorems.ReplaysInRun | oze-canopen-viewer/src/gui.rs:98-109 | In one run under any filters, no match is pushed twice if and only if no poll finds, newer than the newest listed message, a match that an earlier poll has visited |
| PinTheorems.ReplayedTwice | oze-canopen-viewer/src/gui.rs:98-109 | One hidden match and two polls that push it twice |
| PinTheorems.NoReplays | oze-canopen-viewer/src/gui.rs:98-109 | With a global filter that shows everything the pin matches, the matches are pushed in strictly increasing order |
| PinTimes.PushedIff | oze-canopen-viewer/src/gui.rs:98-109 | With such a filter, whatever snapshots are skipped, exactly the matches that were in some polled window are pushed |
| PinTimes.AllPushed | oze-canopen-viewer/src/gui.rs:98-109 | Every match since the start is pushed, once and in order, if and only if each was in some polled window |
| PinTimes.TimeDelta | oze-canopen-viewer/src/pinned_filter.rs:22-30 | Whatever snapshots are skipped, with such a filter the pin shows the last match that was in a polled window, and counts from the one before it, from the message it started with, or from the clock of the first poll after its first match arrived |
| PinTimes.PinRightIff | oze-canopen-viewer/src/pinned_filter.rs:22-30 | With such a filter the pin ends with the message and time that all matches of the history give, whenever the two newest matches were in polled windows; and, if the clock goes on, only then |
| PinTimes.GapDelta | oze-canopen-viewer/src/pinned_filter.rs:22-30 | 514 messages and one poll, with everything shown: of two matches the first is no longer in the window, and the pin counts from the poll |
| PinTimes.WrongDelta | oze-canopen-viewer/src/pinned_filter.rs:22-30 | One hidden match and two polls, without a gap, after which the pin counts from the timestamp of the message it shows |
| PinTimes.RightWithoutGapsIff | oze-canopen-viewer/src/pinned_filter.rs:22-30 | Every run of polls under a constant filter without an advance above 513 gives a pin the right time, if and only if the filter shows everything the pin matches |
| PinTimes.AlwaysRightIff | oze-canopen-viewer/src/pinned_filter.rs:22-30 | Every run of polls under a constant filter, gaps included, gives a pin the right time, if and only if the pin matches nothing, or matches everything and the filter shows everything |
| PinRuns.PinsApart | oze-canopen-viewer/src/gui.rs:246-249 | Pinning filters between polls changes neither the list nor any other pin |
| PinRuns.PinNewestInRun | oze-canopen-viewer/src/gui.rs:98-118 | In any run of polls and pinnings from an empty list, under any filters: each pin made on the way ends with a match that is the newest of those listed when it was made and those pushed since |
| PinRuns.PinTimeInRun | oze-canopen-viewer/src/pinned_filter.rs:14-30 | In any such run under a constant filter that shows all the pin matches, whatever snapshots are skipped: a pin made on the way ends as the matches that were in polled windows since tell, and right whenever the two newest matches were; if the clock goes on, only then |
| PinRuns.WrongDeltaRun | oze-canopen-viewer/src/gui.rs:246-249 | The wrong time delta in a whole run: pin a filter, then let two polls see one hidden match |
| ViewerSession.Session | oze-canopen-viewer/src/gui.rs:96-118 | Driver and interface together: whatever the driver lives through, whenever the interface polls and whatever it pins in between, the list and the pins are what these polls and pinnings make of the numbered history, so the theorems about runs hold of them |
| ViewerSession.LooksAdvance | oze-canopen-viewer/src/driver.rs:118-132 | Snapshots found through the latest-value channel never go back |
| Firmware.FlashFirmware | firmware-update/co-firmware-update.py:105-196 | Whatever the network, the node and the clock do: the run follows the protocol, each operation goes through or fails as the environment has it and each poll reads what the environment gives within 60 seconds; it does the first operations of the script, and nothing but closing once something went wrong; it succeeds if and only if nothing failed but a software id read or a boot-up wait, and every status after CLEAR was 0; then it did exactly the operations of the script, in order |
| Firmware.FollowsScript | firmware-update/co-firmware-update.py:112-196 | A run on its way has done what comes first in the script, operation by operation: connect, id, status, PRE-OPERATIONAL, STOP (0), CLEAR (3), status, size, file, download, 512 bytes at a time, closing both, status, id, START (1), boot-up, PRE-OPERATIONAL, CONFIRM (0x80), disconnect |
| Firmware.AnyRun | firmware-update/co-firmware-update.py:112-196 | Every legal run is the beginning of the script, followed, if that went wrong, by nothing but closing |
| Firmware.ClosedInOrder | firmware-update/co-firmware-update.py:150-196 | Whatever fails, what was opened is closed once, the download before the file, and both before disconnecting |
| Firmware.WritesInOrder | firmware-update/co-firmware-update.py:128-191 | The writes attempted in any legal run are a prefix of STOP, CLEAR, the file in 512-byte blocks, START, CONFIRM |
| Firmware.SoundPhases | firmware-update/co-firmware-update.py:114-196 | A run is on its way exactly as long as nothing has gone wrong, and stuck, with nothing left but to close, once something has |
| Firmware.Gates | firmware-update/co-firmware-update.py:134-191 | Data follows only a status 0 read after CLEAR; START follows only a status 0 read after the download was closed, with the whole file written; no write follows a failure other than of a software id read or a boot-up wait |
| Firmware.BlocksAreFile | firmware-update/co-firmware-update.py:150-163 | The planned blocks, put together, are the file |
| Firmware.DisconnectedOnce | firmware-update/co-firmware-update.py:112-196 | A finished run disconnected exactly once, as its last operation, if the connection was made, and otherwise did nothing else |
| Firmware.Node.CopyChunks | firmware-update/co-firmware-update.py:154-163 | The chunk loop writes all blocks in order and stops at the end of the file; a failed read, write or progress line (a size of 0 with data to send) ends it |
| Firmware.WaitForFlashStatusOk | firmware-update/co-firmware-update.py:90-102 | At most floor(2 * timeout) + 2 attempts; 0 exactly when the last attempt read 0, and no earlier one did; otherwise the last status read, or 0xFFFFFFFF if none was; it gives up only once the time is over |
| Firmware.LastReadIs | firmware-update/co-firmware-update.py:92-101 | The status returned is the one read by the last attempt that did not raise, or 0xFFFFFFFF |
| Bitrate.Sampling | oze-canopen-viewer/src/bitrate.rs:51-65 | The window is the newest 1029 samples at most, and the chart the rates over it, at most 1025 points |
| Bitrate.Bitrate.CalculateRate | oze-canopen-viewer/src/bitrate.rs:30-49 | Clears the chart and refills it with the rates over the window |
| Bitrate.RateBetweenSteps | oze-canopen-viewer/src/bitrate.rs:38-47 | Over four steady steps a point is shown if and only if the counter advanced by less than 2^31, and it lies between the smallest and the largest one-step rate |
| Bitrate.ChartIs | oze-canopen-viewer/src/bitrate.rs:30-49 | The chart holds the rate of every sample that has one, at the place its order gives it, and nothing else |
| Bitrate.RateMeans | oze-canopen-viewer/src/bitrate.rs:33-48 | A sample has a rate unless it is one of the first four, the wrapped counter difference over four steps is 2^31 or more, or no time has passed in them; the rate stands at the time of the sample, and times the duration it is that difference |
| Bitrate.PointIs | oze-canopen-viewer/src/bitrate.rs:33-48 | Every point of the chart stands at the time of some sample, and its value is the bits of the four steps before it by the time they took |
| Bitrate.ChartBetweenSteps | oze-canopen-viewer/src/bitrate.rs:30-49 | On a steady window every point of the chart lies between any bounds of the one-step rates |
| Bitrate.PointLeftOut | oze-canopen-viewer/src/bitrate.rs:38-41 | Five steady samples whose one point is left out, because the counter advances by 2^31 |
| Bitrate.BitsTelescope | oze-canopen-viewer/src/bitrate.rs:38-47 | Rate times duration, summed at stride 4 over a steady stretch, never exceeds the counter advance, and equals it if and only if every stride advanced by less than 2^31 |

## Left out

- The recursive `merge` of the configuration, reading YAML and the command line: plain data handling.
- Socket set-up, keepalive, `ip link`, reconnect delays and logging: plumbing without state.
- The Bridge object as a class: its two threads share `self.sock`, so it is a step relation on values, which captures their interleavings but not object identity.
- What python-can does with the arguments of `can.Message` (such as data on remote frames): a message is those arguments, and absent data is empty data.
- Liveness: that a peer or a bus ever answers, and endless EAGAIN.
- What `can_send` does with a frame the client forwards; FD and BRS marks, which the client ignores, so that an FD frame of at most 8 bytes is forwarded as a classic frame.
- The client's connection manager, the interactive CANopen tool and the set-up scripts.
- The user interface around the list (panels, rows, chart drawing, frame rate) and the formatting in `message_cached.rs`.
- Editing the filter of a pin and removing a pin (pinned_filter.rs:47-63): a pin keeps its filter, and stays.
- The `info` record the driver copies into each snapshot, and the connection string of the control channel.
- Wrap-around of the 64-bit message index.
- Bitrate.RateBetweenSteps: does not model the rounding of `f64`; times and rates are reals.
- Bitrate.BitsTelescope: does not model the panic of a debug build when the counter goes back; the subtraction wraps as in a release build.
- Firmware.FlashFirmware: does not model how the SDO layer cuts the buffered download into block transfers; a write is what the script hands to the download stream.
- Firmware.WaitForFlashStatusOk: does not model the time a read takes apart from the clock after it.
