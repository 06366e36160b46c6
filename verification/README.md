# A proved model of the tcp-core data-transfer engine

`tcp-core` is a user-space TCP. This project models its engine from the moment a connection is
Established, and proves what the engine promises: over every run, every schedule of a network that
loses, duplicates and reorders, and every byte count, not up to a depth.

There are two layers.

* **Positions.** Streams are counted in unbounded integers. `Endpoint` says what each entry point of
  `tcb.rs` computes on a connection; `Rfc6675` and `Reassembly` say what the scoreboard and the
  out-of-order buffer compute, with the set of octets and the partial map they stand for; `Congestion`
  and `ControlLaw` say what the controllers and the register machine compute. The theorems are about
  these functions: one connection over all runs (`Connection`, `Sending`, `ConnectionRuns`,
  `Discipline`, `Gate`, `Repairs`, `Detection`, `Answers`, `Deadlines`), two connections and a network
  (`Network`, `NetworkRuns`, `AccEcn`, `MarkFeed`, `FlowControl`, `FlowRuns`, `OneWay`, `StaleWindows`,
  `WindowProbe`, `ProbeRuns`), the controllers (`CongestionRuns`, `Responses`).
* **Wire numbers.** `Tcb`, `Scoreboard`, `ReasmBuffer`, `RingBuffer`, `Controller` and `Stack` are the
  objects of the code: 32-bit sequence numbers, fields and vectors edited in place, the code's loops and
  serial comparisons. Each method is proved to compute the function of the first layer; `Serial` and
  `TcbImages` hold the facts about 2^32 wrap-around that this rests on, and `WireRuns` joins the objects to
  the two-endpoint model.

The network keeps every segment ever sent in a set and delivers any member any number of times, so
loss, duplication and reordering are all schedules of it. RST and SYN segments may also come from
nowhere.

Two findings about the code are theorems here, each with its exact condition and a run from the start
that reaches it.

* A zero-window probe is sent without advancing SND.NXT. If the receiver has advertised past it and the ACK
  that said so is lost, the probe's octet is accepted, every later ACK lies above SND.NXT, and the sender
  drops them all before it looks at their window (`WindowProbe.ProbeStallsExactlyWhen`,
  `ProbeRuns.StallIsReachable`). The stall lasts exactly until a segment sent before it reopens the window
  (`WindowProbe.StallsExactlyUntilReopened`, `WindowProbe.OnlyOldSegmentsReopen`).
* SND.UNA follows the ACK and the send window follows the sequence number, so with data both ways a reordered
  segment can leave the sender believing in an edge that was never advertised: a late segment's larger
  window counted from a newer SND.UNA, or the current window carried along to it
  (`FlowControl.OverstatedExactlyWhen`, `StaleWindows.BothCasesHappen`). As long as neither happens flow
  control composes (`FlowRuns.FlowControlComposes`).

`dafny verify dfyconfig.toml` checks the whole project.

## Model

| member | source | states |
|---|---|---|
| `NetworkRuns.StreamSafety` | tcp-core/src/tcb.rs:404-409 | Over every schedule of calls, losses, duplications and reorderings: bytes read followed by the receive ring are a prefix of what `send` accepted; the send ring is exactly that stream from SND.UNA on; SND.UNA never passes the peer's RCV.NXT. Both directions at once. |
| `NetworkRuns.SackHonesty` | tcp-core/src/tcb.rs:573-579 | In every reachable state, after timeouts and with stale ACKs, each data octet the sender holds as SACKed, and each one it has freed, is with the receiver (read, in the ring, or buffered) with the value sent. |
| `NetworkRuns.EndOfStreamIsTrue` | tcp-core/src/tcb.rs:704-731 | A receiver that believes the stream over has all of it, and the sender's `send` accepts nothing more. |
| `NetworkRuns.SafeForever` | tcp-core/src/tcb.rs:459-731 | The two-endpoint invariant survives any sequence of actions of either side, including forged RST and SYN segments. |
| `NetworkRuns.BeginIsSafe` | tcp-core/src/tcb.rs:219-297 | The invariant holds of two sides as the handshake leaves them, so the theorems are not empty. |
| `Network.SegmentReceives` | tcp-core/src/tcb.rs:475-700 | Whatever arrives, the receive half stays as it was or takes the segment in, and takes it in only when it is acceptable, carries an ACK and is neither RST nor SYN. |
| `Network.SegmentAcks` | tcp-core/src/tcb.rs:835-960 | Whatever arrives, SND.UNA stays or moves to an ACK inside the outstanding window with exactly the covered octets leaving the ring, and new SACKed octets come from the segment's blocks. |
| `Network.SentPacket` | tcp-core/src/tcb.rs:1418-1501 | Every segment a poll emits carries the sender's stream, a FIN only at its end, the current RCV.NXT, and SACK blocks of octets held. |
| `Network.TakenFollows` | tcp-core/src/tcb.rs:622-725 | Taking in any slice of the peer's stream, and its FIN, keeps what was received a prefix of that stream. |
| `Network.ArrivalBelief` | tcp-core/src/tcb.rs:835-860 | What an arriving ACK makes the sender believe (freed and SACKed octets) is true of the receiver at that moment, however old the ACK. |
| `AccEcn.EcnIsExact` | tcp-core/src/tcb.rs:883-890 | The decoded ACE deltas sum to the receiver's count of accepted CE segments at the latest advancing ACK if and only if fewer than eight marks ever separated two consecutive advancing ACKs; otherwise they fall short by a multiple of eight. |
| `AccEcn.CountsAcceptedMarks` | tcp-core/src/tcb.rs:671-682 | The CE counter moves by one exactly when a CE-marked segment contributed fresh in-order or newly buffered octets. |
| `AccEcn.SegmentAce` | tcp-core/src/tcb.rs:883-885 | The decoding reference moves to the ACE field exactly when SND.UNA advances. |
| `FlowRuns.FlowControlComposes` | tcp-core/src/tcb.rs:1166-1190 | With data and FINs both ways, over every run in which no segment delivered to the sender overstates its window: new data never ends right of the receiver's advertised edge, the edge never promises more than the ring can hold, and every data segment but a one-octet probe is delivered in full when next in order. |
| `FlowRuns.FlowControlComposesBothWays` | tcp-core/src/tcb.rs:1166-1190 | The same of both directions at once. |
| `FlowControl.OverstatedExactlyWhen` | tcp-core/src/tcb.rs:1336-1348 | Any segment, in any state, leaves the sender believing in an edge beyond both its old one and the one offered if and only if it reaches the ACK step and either passes the window test with an ACK below SND.UNA and a window larger than the current one, or fails the test with an ACK above SND.UNA and a window smaller than the current one. |
| `FlowControl.SegmentWindow` | tcp-core/src/tcb.rs:841-855 | SND.UNA, the send window and the two marks it was taken at, after any segment: the ACK and the window are taken under different tests. |
| `FlowControl.EdgeNeverMovesLeft` | tcp-core/src/tcb.rs:1511-1523 | Over any run against any peer the advertised edge never moves left. |
| `OneWay.OneWayIsCurrent` | tcp-core/src/tcb.rs:1336-1348 | When the peer only acknowledges, no segment less than 2^31 octets late ever overstates the window. |
| `OneWay.OneWayComposes` | tcp-core/src/tcb.rs:1166-1190 | Flow control composes over every such run, nothing asked of the windows. |
| `StaleWindows.BothCasesHappen` | tcp-core/src/tcb.rs:1336-1348 | Both cases are reached from the start of a connection, with data both ways, by reordering a timeout's retransmission: the sender then believes in an edge its peer has never advertised. |
| `WindowProbe.ProbeStallsExactlyWhen` | tcp-core/src/tcb.rs:1203-1215 | A probe stalls its sender if and only if the receiver has advertised past it and the probe acknowledges nothing above the receiver's own SND.NXT. |
| `ProbeRuns.StallIsReachable` | tcp-core/src/tcb.rs:1203-1215 | From the start of every connection whose first window is closed, one written octet and some schedule reach a stall. |
| `ProbeRuns.ClosedWindowCanStall` | tcp-core/src/tcb.rs:1203-1215 | So does every net of a closed window with everything sent delivered and the receiver's pool open again. |
| `WindowProbe.StallsExactlyUntilReopened` | tcp-core/src/tcb.rs:836-839 | Over every run of both sides and the network, the stall lasts at each step if and only if no segment reopened the window before; while it lasts no new octet and no FIN is sent. |
| `WindowProbe.OnlyOldSegmentsReopen` | tcp-core/src/tcb.rs:836-839 | Nothing the receiver sends during a stall can end it. |
| `WindowProbe.StallIsPermanent` | tcp-core/src/tcb.rs:836-839 | With no open window left on the way at or below SND.NXT, no run of any length ends the stall. |
| `WindowProbe.ReopenedSends` | tcp-core/src/tcb.rs:1183-1201 | After a segment that does reopen the window, the next poll sends new data. |
| `ConnectionRuns.EveryRunIsConsistent` | tcp-core/src/tcb.rs:459-1311 | The connection invariant (send space, scoreboard in its window, pool bound, recovery exclusion, timers, state) holds after every sequence of calls and arbitrary segments. |
| `ConnectionRuns.StepKeeps` | tcp-core/src/tcb.rs:404-1311 | Each entry point keeps that invariant, whatever segment arrives. |
| `Connection.OnSegmentKeeps` | tcp-core/src/tcb.rs:459-731 | Any segment keeps the invariant, never moves SND.NXT, and moves SND.UNA and RCV.NXT only forward. |
| `Connection.ProcessAckKeeps` | tcp-core/src/tcb.rs:835-965 | ACK processing keeps the send space, scoreboard, controller and timers in order; SND.UNA becomes the larger of itself and an ACK not above SND.NXT. |
| `Connection.DetectLossKeeps` | tcp-core/src/tcb.rs:573-619 | Block ingestion, duplicate counting and recovery entry keep the invariant. |
| `Connection.RecomputeKeeps` | tcp-core/src/tcb.rs:967-1018 | The recomputed state is the one the three teardown facts fix, with its timer armed. |
| `Sending.PollOk` | tcp-core/src/tcb.rs:1023-1083 | One poll emits the owed RST, or changes nothing but flags and deadlines, or emits one segment of a known kind with the ring's own bytes; the invariant stays. |
| `Sending.SendNewOk` | tcp-core/src/tcb.rs:1183-1201 | New data starts at SND.NXT, is the next unsent bytes, and keeps SND.NXT - SND.UNA within the peer's window. |
| `Sending.HoleInside` | tcp-core/src/tcb.rs:1127-1155 | The repaired hole lies inside [SND.UNA, SND.NXT), neither SACKed nor already resent. |
| `Gate.WindowsHoldDataBack` | tcp-core/src/tcb.rs:1161-1190 | With SACK and without: new octets plus the RFC 6675 pipe (the outstanding octets without SACK) never exceed the congestion window, new octets plus the outstanding ones never exceed the peer's window, and no more leaves than the pacer allows. |
| `Gate.SendsWhatItMay` | tcp-core/src/tcb.rs:1183-1201 | With no resend due, a poll sends the next min(room in all three, waiting octets, payload limit) octets: nothing else holds new data back. |
| `Gate.FinGoesOut` | tcp-core/src/tcb.rs:1218-1232 | With no resend due and all data sent, a queued FIN is what the poll sends. |
| `Gate.ClosedSendsFin` | tcp-core/src/tcb.rs:417-419 | After a close, once all data is sent, the FIN is what the next poll sends. |
| `Gate.OldestGoesFirst` | tcp-core/src/tcb.rs:1100-1125 | When the oldest segment is asked for, the poll sends as much from SND.UNA as is outstanding and fits, or the FIN when only that is. |
| `Gate.SegmentsFit` | tcp-core/src/tcb.rs:1548-1566 | Payload and SACK option of any segment together never exceed the segment size. |
| `Gate.PacerWakes` | tcp-core/src/tcb.rs:1170-1181 | The pacing deadline is set, to the delay the pacer named, exactly when the pacer is what holds waiting data back. |
| `Gate.OwedAckLeaves` | tcp-core/src/tcb.rs:1064-1082 | An owed ACK leaves with the next poll, carries RCV.NXT and settles a delayed one. |
| `Gate.RoomIsOffered` | tcp-core/src/tcb.rs:1511-1523 | Every segment advertises all the pool can take that the field can express, to within one unit of the scale. |
| `Gate.SendTakesWhatFits` | tcp-core/src/tcb.rs:404-409 | `send` takes everything, or as much as fills the ring. |
| `Gate.RecvGivesWhatThereIs` | tcp-core/src/tcb.rs:412-414 | `recv` fills the buffer or empties the ring. |
| `Repairs.MarkedIsSent` | tcp-core/src/tcb.rs:1136-1144 | An octet newly counts as resent if and only if this poll put it on the wire as a repair. |
| `Repairs.RepairIsWhole` | tcp-core/src/tcb.rs:1127-1155 | A repair goes out only in recovery with the pipe below the window, begins at the octet the rules name, holds nothing SACKed, and ends at SND.NXT, at a SACKed octet, at the end of the data, or at a full segment. |
| `Repairs.HoleIsRepaired` | tcp-core/src/tcb.rs:1127-1155 | And it does go out: in recovery, with room and no older resend due, the named hole is repaired. |
| `Repairs.ResentWasSent` | tcp-core/src/tcb.rs:1144-1144 | Over any run, each octet that counts as resent did so at the start or was put on the wire again by a poll of the run. |
| `Repairs.NothingIsMarkedUnsent` | tcp-core/src/tcb.rs:1144-1144 | In every reachable net each octet a side counts as resent is in a packet it has sent. |
| `MarkFeed.SegmentTellsMarks` | tcp-core/src/tcb.rs:873-890 | An ACK of new data outside recovery tells the controller the bytes it freed and min(k segments, those bytes) marked, where k in 0..7 is what the ACE field shows beyond the last; in recovery, and for any other segment, nothing. |
| `MarkFeed.SegmentMovesWindow` | tcp-core/src/tcb.rs:842-849 | An ACK of new data that neither finds nor starts an episode moves window, threshold, accumulator and estimate exactly as those bytes and marks do. |
| `MarkFeed.DecodedIsTold` | tcp-core/src/tcb.rs:883-890 | The marks `AccEcn.EcnIsExact` counts as decoded are the ones the controller is told. |
| `MarkFeed.TrueMarksReachTheController` | tcp-core/src/tcb.rs:883-890 | In every reachable net the controller is told the number of CE-marked segments the receiver accepted since the last advancing ACK, if fewer than eight. |
| `Deadlines.NothingBeforeDeadline` | tcp-core/src/tcb.rs:1238-1254 | Before the wake-up time no timer does anything. |
| `Deadlines.DeadlineIsDue` | tcp-core/src/tcb.rs:1238-1254 | At the wake-up time, unless it is the pacer's, some timer is due. |
| `Deadlines.TimersFireExactly` | tcp-core/src/tcb.rs:1252-1309 | Each of the four timers has its whole effect exactly when it is due, however many are due at once. |
| `Deadlines.SegmentTimesRtx` | tcp-core/src/tcb.rs:951-961 | An ACK of new data restarts the retransmission timer, or stops it when nothing is left; a loss response restarts it; no other segment moves it (section 5 of RFC 6298). |
| `Deadlines.PollTimesRtx` | tcp-core/src/tcb.rs:1106-1125 | Sending starts the timer when it was not running and never moves it when it was. |
| `Deadlines.PersistDoubles` | tcp-core/src/tcb.rs:1288-1294 | The persist interval doubles with every probe, from a second up to a minute. |
| `Deadlines.ClosedWindowStartsPersist` | tcp-core/src/tcb.rs:1375-1380 | The poll that finds the window closed makes the first probe due a second later; later polls leave it. |
| `Deadlines.OpenWindowEndsPersist` | tcp-core/src/tcb.rs:1342-1346 | A window taken open ends the persist state, and no other segment does. |
| `Deadlines.SegmentArmsClosing` | tcp-core/src/tcb.rs:1003-1018 | TIME-WAIT is entered, and re-entered, for ten seconds, FIN-WAIT-2 for a minute. |
| `Answers.SegmentSchedulesAck` | tcp-core/src/tcb.rs:684-702 | Out-of-order, duplicate, gap-filling and overflowing data, every second clean segment and every FIN are acknowledged at once; one clean segment may wait 40 ms. |
| `Answers.AcksNeverStall` | tcp-core/src/tcb.rs:684-702 | Over any run at most one data segment waits for its ACK, and never without one owed or a deadline armed. |
| `Answers.InOrderDataIsTaken` | tcp-core/src/tcb.rs:636-664 | In-order data inside the advertised edge moves RCV.NXT past all of it. |
| `Answers.GapDataIsHeld` | tcp-core/src/tcb.rs:665-669 | Each octet above a gap that the pool has room for is held. |
| `Answers.FinIsNeverLost` | tcp-core/src/tcb.rs:704-725 | A FIN is taken or remembered, and a remembered one is taken the moment the gap below it closes. |
| `Answers.ForgedDoesNoMore` | tcp-core/src/tcb.rs:475-505 | A RST closes exactly at RCV.NXT, draws at most an ACK elsewhere in the window and nothing outside it; a SYN at most an ACK. |
| `Answers.OutsideDrawsAck` | tcp-core/src/tcb.rs:519-524 | A segment all of whose sequence space lies outside the window only draws an ACK. |
| `Answers.FutureAckDrawsAck` | tcp-core/src/tcb.rs:836-839 | An ACK of what was never sent draws an ACK and changes nothing else. |
| `Answers.TimeWaitAnswers` | tcp-core/src/tcb.rs:489-496 | In TIME-WAIT anything but a RST is answered and restarts the wait, and nothing else happens. |
| `Answers.AcceptedExactlyWhen` | tcp-core/src/tcb.rs:1322-1334 | The four cases of section 3.9 of RFC 793, in terms of the first and the last octet. |
| `Detection.DuplicatesCount` | tcp-core/src/tcb.rs:594-619 | A duplicate changes nothing for the controller in an episode or a drain; the third cuts the window and begins the repair, SACK or not; any other is counted unless the blocks already show a loss. |
| `Detection.RecoveryExactlyWhen` | tcp-core/src/tcb.rs:594-607 | After an ACK is taken in, an episode is under way if and only if the old one has not reached its point, the blocks show the oldest octet lost, or this was the third duplicate, and no drain is under way in the last two cases. |
| `Detection.BlocksAreTaken` | tcp-core/src/tcb.rs:573-579 | The octets believed SACKed after an ACK are exactly those before it and those of its valid blocks, above SND.UNA, while the board has slots. |
| `Detection.DrainGoesOn` | tcp-core/src/tcb.rs:905-918 | After a timeout each ACK of new data below the old SND.NXT asks for the next segment; the drain ends exactly there. |
| `ConnectionRuns.PoolIsNeverExceeded` | tcp-core/src/tcb.rs:1525-1534 | Over any run, ring plus out-of-order bytes fit the receive buffer, and so do the ring and the distance from RCV.NXT to any buffered edge. |
| `ReceiveSide.RunFitsWhole` | tcp-core/src/tcb.rs:651-662 | A run that has become contiguous always fits the ring whole: the branch that re-buffers a tail is unreachable. |
| `ReceiveSide.AbsorbKeepsPool` | tcp-core/src/tcb.rs:622-669 | Every data segment, in window or overhanging it, keeps the shared pool bound and moves RCV.NXT only forward. |
| `ReceiveSide.AbsorbHolds` | tcp-core/src/tcb.rs:622-669 | No octet once held is let go by later data. |
| `ReceiveSide.AbsorbFollows` | tcp-core/src/tcb.rs:622-669 | Trim, in-order write, purge, drain and out-of-order insertion of stream bytes leave a prefix of the stream with stream bytes above it. |
| `ReceiveSide.DrainFollows` | tcp-core/src/tcb.rs:649-664 | Draining contiguous runs extends the delivered prefix by stream bytes only. |
| `ReceiveSide.AdvertiseKeepsPool` | tcp-core/src/tcb.rs:1511-1523 | The advertised edge moves right only and promises no more than the pool holds. |
| `ReceiveSide.InsideEdgeFits` | tcp-core/src/tcb.rs:640-644 | In-order data inside the advertised edge is accepted in full. |
| `ConnectionRuns.PollLowersDebt` | tcp-core/src/iface.rs:253-257 | Every poll that emits strictly lowers a six-part lexicographic measure over owed RST, unsent octets and FIN, unrepaired holes and the three flags. |
| `ConnectionRuns.NoSilentWedge` | tcp-core/src/tcb.rs:1238-1249 | Once a poll has nothing to send, anything unacknowledged, unsent, or a queued FIN implies that `poll_at` returns a deadline, and what it returns is armed and none armed is earlier. |
| `ConnectionRuns.LeastDeadline` | tcp-core/src/tcb.rs:1238-1249 | `poll_at` returns an armed deadline with none below it, and none only when none is armed. |
| `StackImpl.DrainedNeverWedges` | tcp-core/src/iface.rs:253-257 | A connection drained to silence stays live and either owes nothing or has a deadline, and the wake-up time is the least armed. |
| `StackImpl.Drain` | tcp-core/src/iface.rs:255-257 | The inner loop ends and emits exactly the segments of the repeated poll, in order. |
| `StackImpl.Serve` | tcp-core/src/iface.rs:254-260 | Draining one connection of the table leaves every other one as it was. |
| `StackImpl.Stack.ServeNext` | tcp-core/src/iface.rs:253-261 | The next connection is drained and leaves the table if and only if it ended closed. |
| `StackImpl.Stack.PollTransmit` | tcp-core/src/iface.rs:248-263 | All pending frames, then every connection drained; the table keeps exactly the connections not closed. |
| `Discipline.RecoveryShape` | tcp-core/src/tcb.rs:594-607 | Over any run, SACK recovery and the go-back-N drain are never both active, and each one's goal lies in (SND.UNA, SND.NXT]. |
| `Discipline.EntryCutsOnce` | tcp-core/src/tcb.rs:594-607 | Entry, by third duplicate or by IsLost, leaves window and threshold at what the law keeps of the flight (half of it for Reno, DCTCP and Prague), the recovery point at SND.NXT and the timer restarted. |
| `Discipline.RunsMoveForward` | tcp-core/src/tcb.rs:1093-1100 | Over any run neither SND.UNA nor SND.NXT ever decreases. |
| `Discipline.ResendsStayInside` | tcp-core/src/tcb.rs:1100-1155 | Whatever is sent below SND.NXT lies inside [SND.UNA, SND.NXT) and leaves SND.NXT alone. |
| `Discipline.EpisodeHoldsWindow` | tcp-core/src/tcb.rs:843-848 | Over any run inside one episode the window is constant. |
| `Discipline.OneRescueAnEpisode` | tcp-core/src/sack.rs:243-256 | Over any run inside one episode at most one poll resends octets none of which counts as lost. |
| `Discipline.ClosingRecordsOrder` | tcp-core/src/tcb.rs:967-1000 | Over every run from an open connection, with both FINs there and its own unacknowledged: CLOSING if and only if its own FIN was once there alone, LAST-ACK if and only if the peer's was. |
| `Discipline.OrderIndependent` | tcp-core/src/tcb.rs:967-1000 | Two runs agreeing on (FIN sent, FIN acknowledged, peer FIN seen) are in the same state, up to CLOSING against LAST-ACK. |
| `Discipline.NothingAfterFin` | tcp-core/src/tcb.rs:404-409 | Once the FIN was sent, `send` accepts nothing and changes nothing. |
| `Discipline.OnlyWaysToClose` | tcp-core/src/tcb.rs:475-486 | Closed is entered only by a RST exactly at RCV.NXT, by the acknowledged FIN in LAST-ACK, or by the FIN-WAIT-2 / TIME-WAIT timer. |
| `TcbImages.ReadsWhatWasSent` | tcp-core/src/tcb.rs:465-470 | A segment within half the sequence space of its reader is read back as it was sent: sequence number, ACK and SACK blocks. |
| `TcbImages.AckReads` | tcp-core/src/tcb.rs:836-841 | The serial tests of SEG.ACK against SND.NXT and SND.UNA are the comparisons of the positions, for every 32-bit ACK. |
| `TcbImages.EdgeReads` | tcp-core/src/tcb.rs:1530-1534 | The serial minimum that bounds reassembly is the lesser of the two edges as positions. |
| `TcbImages.AbsorbPoolEnd` | tcp-core/src/tcb.rs:640-669 | One segment moves RCV.NXT by at most the receive buffer and keeps RCV.NXT plus free ring space constant. |
| `TcbImages.EdgeStaysNear` | tcp-core/src/tcb.rs:640-644 | RCV.NXT overshoots the advertised edge by at most one buffer, although in-order data is not trimmed on the right. |
| `TcbImages.StepStaysReady` | tcp-core/src/tcb.rs:404-1311 | Every entry point leaves the connection ready for the next call on wire numbers. |
| `WireRuns.WireCarriesPositions` | tcp-core/src/tcb.rs:459-470 | After every run from the start, each segment of the peer whose sequence number and ACK are at most 2^31 behind is read from its 32-bit numbers as it was sent, SACK blocks included, and lies, with any remembered FIN, near enough for every comparison the code makes. |
| `WireRuns.JoinedForever` | tcp-core/src/tcb.rs:459-731 | What two objects need to go on exchanging such segments is kept by every run. |
| `WireRuns.DeliverTo` | tcp-core/src/tcb.rs:459-731 | Handing such a segment to the object takes exactly the step of the two-endpoint model, and the pair stays one the theorems about two endpoints apply to. |
| `WireRuns.TransmitFrom` | tcp-core/src/tcb.rs:1023-1083 | So does polling it, and what leaves is the image of what the model puts on the wire. |
| `TcbImpl.Tcb.constructor` | tcp-core/src/tcb.rs:219-297 | A fresh object stands for the opened connection. |
| `TcbImpl.Tcb.Send` | tcp-core/src/tcb.rs:404-409 | Appends what fits, only in ESTABLISHED and CLOSE-WAIT; whole new state. |
| `TcbImpl.Tcb.Recv` | tcp-core/src/tcb.rs:412-414 | Pops the ring's front into the caller's buffer; whole new state. |
| `TcbImpl.Tcb.Close` | tcp-core/src/tcb.rs:417-419 | Queues the FIN and nothing else. |
| `TcbImpl.Tcb.WindowAgrees` | tcp-core/src/tcb.rs:1314-1320 | The RFC 5961 window test on wire numbers is the test on positions. |
| `TcbImpl.Tcb.AcceptableAgrees` | tcp-core/src/tcb.rs:1322-1334 | The four-case acceptability test on wire numbers is the test on positions. |
| `TcbImpl.Tcb.UpdateWindow` | tcp-core/src/tcb.rs:1336-1348 | Serial window-update test, scaled window, persist state; whole new state. |
| `TcbImpl.Tcb.FeedAck` | tcp-core/src/tcb.rs:842-905 | The controller and scoreboard calls of an advancing ACK, in the code's order, compute the specified controller and board. |
| `TcbImpl.Tcb.AdvanceUna` | tcp-core/src/tcb.rs:841-960 | An advancing ACK on wire numbers computes `Endpoint.Advance`. |
| `TcbImpl.Tcb.ProcessAck` | tcp-core/src/tcb.rs:835-964 | Every 32-bit ACK is dropped or applied exactly as the position it is read as. |
| `TcbImpl.Tcb.DetectSack` | tcp-core/src/tcb.rs:574-607 | Block ingestion and recovery entry on the objects compute `Endpoint.DetectSack`. |
| `TcbImpl.Tcb.DetectLoss` | tcp-core/src/tcb.rs:573-619 | With and without SACK; whole new state. |
| `TcbImpl.Tcb.DrainReasm` | tcp-core/src/tcb.rs:651-664 | The drain loop computes the specified drain and never reaches the re-buffering branch. |
| `TcbImpl.Tcb.TakeInOrder` | tcp-core/src/tcb.rs:640-664 | Ring write, purge and drain in place. |
| `TcbImpl.Tcb.BufferAhead` | tcp-core/src/tcb.rs:665-669 | Out-of-order insertion up to the right edge, in place. |
| `TcbImpl.Tcb.Absorb` | tcp-core/src/tcb.rs:622-669 | Left trim by serial arithmetic, then one of the three receive paths; reports whether all of it fitted in order. |
| `TcbImpl.Tcb.TakeData` | tcp-core/src/tcb.rs:622-702 | Data, CE counting and ACK scheduling; whole new state. |
| `TcbImpl.Tcb.TakeFin` | tcp-core/src/tcb.rs:704-725 | In-order, remembered and repeated FIN; whole new state. |
| `TcbImpl.Tcb.RecomputeClosingState` | tcp-core/src/tcb.rs:967-1018 | State match and timer arming; whole new state. |
| `TcbImpl.Tcb.Process` | tcp-core/src/tcb.rs:549-731 | Steps 5 to 8 in order compute `Endpoint.Process`. |
| `TcbImpl.Tcb.OnSegment` | tcp-core/src/tcb.rs:459-731 | A wire segment takes the object to what `Endpoint.OnSegment` says of the segment it is read as. |
| `TcbImpl.Tcb.AdvertisedWindow` | tcp-core/src/tcb.rs:1511-1523 | The serial clamp computes an edge that is the larger of the candidate and the old one. |
| `TcbImpl.Tcb.ReasmRightEdge` | tcp-core/src/tcb.rs:1530-1534 | The lesser of budget edge and advertised edge. |
| `TcbImpl.Tcb.MaxSegmentPayload` | tcp-core/src/tcb.rs:1548-1566 | MSS less the SACK option space, floored at zero. |
| `TcbImpl.Tcb.Build` | tcp-core/src/tcb.rs:1418-1501 | Header fields, window shift, ACE bits and blocks of the emitted segment, and the state it leaves. |
| `TcbImpl.Tcb.TransmitDataOrFin` | tcp-core/src/tcb.rs:1085-1125 | Step 0 and its fall-through compute `Endpoint.StepRetransmit`. |
| `TcbImpl.Tcb.TransmitRepair` | tcp-core/src/tcb.rs:1127-1157 | Step 0.5 computes `Endpoint.StepRepair`. |
| `TcbImpl.Tcb.RepairAt` | tcp-core/src/tcb.rs:1136-1155 | Offset, hole length and clamp of a repair computed on wire numbers. |
| `TcbImpl.Tcb.TransmitNew` | tcp-core/src/tcb.rs:1159-1216 | Pipe, window and pacing gate, new data, persist and probe. |
| `TcbImpl.Tcb.TransmitFin` | tcp-core/src/tcb.rs:1218-1232 | The FIN at the end of the data and the state it enters. |
| `TcbImpl.Tcb.PollTransmit` | tcp-core/src/tcb.rs:1023-1083 | One poll computes `Endpoint.Poll` and returns the wire image of its segment. |
| `TcbImpl.Tcb.PollAt` | tcp-core/src/tcb.rs:1238-1249 | The least armed deadline; none exactly when none is armed. |
| `TcbImpl.Tcb.OnTimer` | tcp-core/src/tcb.rs:1252-1311 | All due timers in order compute `Endpoint.OnTimer`. |
| `Rfc6675.UpdateExact` | tcp-core/src/sack.rs:95-115 | An update adds exactly the octets of valid blocks clipped to [SND.UNA, SND.NXT); past the 128-run cap, a subset that drops only the highest. |
| `Rfc6675.AllSequencesStayValid` | tcp-core/src/bmc.rs:97-131 | Every operation sequence of any length over any window keeps both lists sorted, non-empty and separated by gaps. |
| `Rfc6675.TrimKeepsValid` | tcp-core/src/sack.rs:119-122 | Trimming pins both lists to the new window. |
| `Rfc6675.LostCountsOctets` | tcp-core/src/sack.rs:195-207 | On an unsacked octet, IsLost holds exactly when three discontiguous SACKed blocks, or two segments' worth of SACKed octets, lie above it. |
| `Rfc6675.LostIsDownwardClosed` | tcp-core/src/sack.rs:195-207 | A lost octet makes every lower one lost. |
| `Rfc6675.PipeIsBounded` | tcp-core/src/sack.rs:211-222 | The pipe never exceeds SND.NXT - SND.UNA. |
| `Rfc6675.PipeUnchangedByTrim` | tcp-core/src/tcb.rs:860-872 | The pipe above the new SND.UNA is the same before and after the trim that follows it in the ACK path. |
| `Rfc6675.NextSegIsLowest` | tcp-core/src/sack.rs:229-256 | The lowest octet meeting rule 1, else the lowest rescue octet if none was spent, else none; in octets, although only span starts are tested. |
| `Rfc6675.UnsackedRunIsUnsacked` | tcp-core/src/sack.rs:177-189 | The span at an unsacked octet holds no SACKed octet and is maximal. |
| `Rfc6675.SpanIsUniform` | tcp-core/src/sack.rs:162-175 | Between two boundaries, membership in both lists and loss status do not change. |
| `Rfc6675.PipeOverUniformSpan` | tcp-core/src/sack.rs:211-222 | Over such a span the per-octet pipe is the span length or zero. |
| `Runs.InsertExact` | tcp-core/src/sack.rs:261-287 | Insertion is set union, keeps the list sorted with gaps, and adds at most one run. |
| `Runs.TrimExact` | tcp-core/src/sack.rs:300-307 | Trimming removes exactly the octets below the cut. |
| `Runs.AboveCountsOctets` | tcp-core/src/sack.rs:195-207 | Above an unsacked octet, the sums over runs count octets and discontiguous blocks. |
| `Sack.ScanTouching` | tcp-core/src/sack.rs:261-279 | The serial scan finds exactly the block of runs that overlap or touch, across the 2^32 wrap. |
| `Sack.InsertRun` | tcp-core/src/sack.rs:261-287 | Insertion into the vector of wire edges is insertion into the positions. |
| `Sack.TrimRuns` | tcp-core/src/sack.rs:300-307 | In-place trim of wire edges is the trim of the positions. |
| `Sack.Scoreboard.Update` | tcp-core/src/sack.rs:95-115 | For any pair of 32-bit block edges, the object takes the step the set specification takes. |
| `Sack.Scoreboard.AddBlock` | tcp-core/src/sack.rs:96-109 | The four serial tests and the clip of one block. |
| `Sack.Scoreboard.Trim` | tcp-core/src/sack.rs:119-122 | Both vectors trimmed; the window moves up. |
| `Sack.Scoreboard.MarkRexmit` | tcp-core/src/sack.rs:125-129 | Records the octets resent in this episode. |
| `Sack.Scoreboard.OnRto` | tcp-core/src/sack.rs:83-88 | Keeps the SACKed set, forgets the episode. |
| `Sack.Scoreboard.RecoveryReached` | tcp-core/src/sack.rs:69-71 | The serial test is the comparison with the recovery point. |
| `Sack.Scoreboard.NextBoundary` | tcp-core/src/sack.rs:162-175 | The nearest serial edge is the nearest edge. |
| `Sack.Scoreboard.UnsackedRunLen` | tcp-core/src/sack.rs:177-189 | The loop finds the distance to the next SACKed left edge. |
| `Sack.Scoreboard.IsLost` | tcp-core/src/sack.rs:195-207 | The counting loop with saturating addition and early exit decides IsLost. |
| `Sack.Scoreboard.Pipe` | tcp-core/src/sack.rs:211-222 | The span walk equals the per-octet count of section 4 of RFC 6675, and ends. |
| `Sack.Scoreboard.NextSeg` | tcp-core/src/sack.rs:229-256 | The two span walks find what the per-octet rules name. |
| `Reassembly.InsertRefinesMap` | tcp-core/src/reasm.rs:73-147 | After an insertion the map is the clipped new bytes overridden by the old ones, nothing else; runs stay sorted, disjoint and non-adjacent. |
| `Reassembly.DiscardRestrictsMap` | tcp-core/src/reasm.rs:168-184 | Discarding restricts the map to positions from RCV.NXT on. |
| `Reassembly.PopRestrictsMap` | tcp-core/src/reasm.rs:151-163 | Popping removes exactly the run at RCV.NXT and returns its bytes. |
| `Reassembly.BufferedCountsDomain` | tcp-core/src/reasm.rs:57-59 | The byte count is the number of positions that hold a byte. |
| `Reassembly.ReportIsHeld` | tcp-core/src/reasm.rs:207-220 | Every reported block is a buffered run. |
| `Reassembly.FirstBlockIsNewest` | tcp-core/src/reasm.rs:207-220 | After an insertion that buffered anything, the first reported block contains it (section 4 of RFC 2018). |
| `ReassemblyImpl.ScanMeeting` | tcp-core/src/reasm.rs:91-113 | The serial scan finds exactly the runs that overlap or touch the new bytes. |
| `ReassemblyImpl.BuildMerged` | tcp-core/src/reasm.rs:115-126 | Copying the new bytes and then the old runs into a zeroed buffer leaves old bytes where there were any, else new ones, with no zero left over. |
| `ReassemblyImpl.MergedIsInserted` | tcp-core/src/reasm.rs:115-146 | Removing the met runs and inserting the merged one in order is the specified insertion. |
| `ReassemblyImpl.ReasmBuffer.Insert` | tcp-core/src/reasm.rs:73-147 | In place on wire numbers, for any segment and edge within half the sequence space. |
| `ReassemblyImpl.ReasmBuffer.PopContiguous` | tcp-core/src/reasm.rs:151-163 | In place; the byte count follows. |
| `ReassemblyImpl.ReasmBuffer.DiscardBelow` | tcp-core/src/reasm.rs:168-184 | In place; the byte count follows. |
| `ReassemblyImpl.ReasmBuffer.Report` | tcp-core/src/reasm.rs:207-220 | Newest first, at most as many as there is room for. |
| `Buffers.RingBuffer.Write` | tcp-core/src/buffers.rs:46-51 | Appends the longest prefix that fits. |
| `Buffers.RingBuffer.Peek` | tcp-core/src/buffers.rs:54-64 | Copies from an offset without consuming, and touches no other slot. |
| `Buffers.RingBuffer.Consume` | tcp-core/src/buffers.rs:67-71 | Drops that many bytes off the front. |
| `Buffers.RingBuffer.Read` | tcp-core/src/buffers.rs:74-82 | What was read followed by what is left is what was there. |
| `Serial.Agree` | tcp-core/src/seq.rs:29-55 | Within half the sequence space every serial comparison is the comparison of positions. |
| `Serial.OffsetAgrees` | tcp-core/src/seq.rs:36-38 | The unsigned offset is the distance up to the whole space. |
| `Serial.MinMaxAgree` | tcp-core/src/seq.rs:59-76 | Serial minimum and maximum are those of the positions. |
| `Serial.WireIsInverse` | tcp-core/src/seq.rs:29-33 | A position within half the space of a centre is the one its wire value is read back as. |
| `Serial.AddIsWire` | tcp-core/src/seq.rs:84-86 | Wrapping addition is addition of positions. |
| `Serial.UnwrapIsInverse` | tcp-core/src/seq.rs:29-33 | Every wire value is read as a position that carries it, within half the space of the centre. |
| `Serial.BothBeforeOnlyAtHalf` | tcp-core/src/seq.rs:41-43 | Two numbers each precede the other exactly at distance 2^31. |
| `Responses.LossBacksOff` | tcp-core/src/congestion.rs:216-244 | Every engaged loss response leaves as threshold half the flight (Reno, DCTCP, Prague), what a genome keeps of it, or what a program answers, and at least two segments; the window is the threshold, or one segment after a timeout. Exactly the third duplicate engages one; others are counted. |
| `Responses.AckGrows` | tcp-core/src/congestion.rs:538-552 | A clean ACK adds its bytes, at most a segment, in slow start; after it each full window of bytes buys one step of the law. |
| `Responses.SynthGrows` | tcp-core/src/congestion.rs:538-552 | A synthesised increase is the program's answer in segments, rounded down. |
| `Responses.InitialWindowIs` | tcp-core/src/congestion.rs:33-37 | The first window is that of section 2 of RFC 6928. |
| `Responses.EcnRound` | tcp-core/src/congestion.rs:591-622 | However its bytes are divided over ACKs, a round moves alpha a sixteenth of the way to its marked fraction and cuts the window once if it was marked, by half of alpha or a genome's curve. |
| `Responses.RoundCloses` | tcp-core/src/congestion.rs:591-622 | The ACK that completes a round: alpha, the cut, and a next round as long as the window was. |
| `Responses.AlphaConverges` | tcp-core/src/congestion.rs:591-622 | Alpha estimates the marked fraction: under a steady one its error shrinks by a sixteenth every round. |
| `Responses.SanitizedIsNearest` | tcp-core/src/congestion.rs:846-861 | Each gene ends at the nearest point of its range; a sane genome is left as it is. |
| `Responses.RoundTripsAreKept` | tcp-core/src/congestion.rs:797-803 | Over any samples Prague and a synthesised law know the latest round trip, and the latter the least. |
| `Responses.SignalsMean` | tcp-core/src/congestion.rs:1477-1498 | What a program is given: window, flight and acknowledged bytes in segments, the estimate, the round trip against its least, and the constants. |
| `Responses.OperationsMean` | tcp-core/src/congestion.rs:1316-1356 | The six operations by what they mean for their operands. |
| `Congestion.EnvelopeHoldsForever` | tcp-core/src/bmc.rs:361-395 | For every trusted law and every event sequence: all five clauses hold after every event if and only if no ACK of the run completes a window of bytes in congestion avoidance on a synthesised law past 2^30. |
| `Congestion.StepIsSafe` | tcp-core/src/bmc.rs:361-395 | One event keeps the invariant, alpha in [0, 1] included, and meets all five clauses if and only if it is not such an ACK. |
| `Congestion.FixedLawsAreSafe` | tcp-core/src/bmc.rs:361-395 | For Reno, DCTCP, Prague and any sanitised genome the envelope holds after every event of every sequence. |
| `Congestion.EnvelopeCanBreak` | tcp-core/src/congestion.rs:1517-1538 | Whatever the synthesised program, a run from the start breaks the envelope. |
| `Congestion.RawLossIsSafeExactlyWhen` | tcp-core/src/bmc.rs:634-660 | A genome that was not sanitised keeps the second clause at every 32-bit flight if and only if (2^32 - 2) * (md_loss - 1) < 1. |
| `Congestion.UnsanitizedLossInflates` | tcp-core/src/bmc.rs:634-660 | The pathological genome of the repository breaks it, at a flight of 10000. |
| `Congestion.LossIsSafe` | tcp-core/src/congestion.rs:948-953 | No loss response of a trusted law inflates the window past the flight or takes the threshold below two segments. |
| `Congestion.EcnIsSafe` | tcp-core/src/congestion.rs:591-622 | A marked round never grows the window, never takes it below one segment, and keeps alpha a fraction. |
| `Congestion.AckShrinksExactlyWhen` | tcp-core/src/congestion.rs:1517-1538 | A clean ACK shrinks a window if and only if the law is synthesised, in congestion avoidance, past 2^30, and the ACK completes a window of bytes. |
| `Congestion.InitIsValid` | tcp-core/src/congestion.rs:160-170 | Every fresh controller meets the invariant. |
| `CongestionRuns.SeedIsDctcp` | tcp-core/src/congestion.rs:1141-1230 | Over every event sequence within the cap, the register machine running its seed program and DCTCP agree on window, threshold, alpha and accumulators after every event. |
| `CongestionRuns.LockstepStep` | tcp-core/src/congestion.rs:1506-1601 | One event keeps the two in lockstep through eight instruction slots, clamps and floors. |
| `CongestionRuns.StartInLockstep` | tcp-core/src/congestion.rs:1450-1467 | They start in lockstep. |
| `CongestionRuns.AckDivisionBound` | tcp-core/src/congestion.rs:190-207 | Over any ACK sequence, window plus accumulator grow by at most the bytes acknowledged. |
| `CongestionRuns.AckDivisionBoundExactlyWhen` | tcp-core/src/congestion.rs:690-699 | For every integer-step law the bound holds of all states and sequences if and only if the step is at most one segment. |
| `CongestionRuns.SplitInvariance` | tcp-core/src/bmc.rs:510-537 | In congestion avoidance, without saturation, any two splits of the same bytes end in the identical state. |
| `CongestionRuns.SplitsAgreeExactlyWhen` | tcp-core/src/bmc.rs:794-821 | Without saturation, for every law but the synthesised one: all splits of n bytes agree if and only if slow start is over, or n is at most one segment and ends at or below the threshold. |
| `CongestionRuns.SlowStartResidual` | tcp-core/src/bmc.rs:803-820 | The residual of the repository: six segments in one ACK against six ACKs. |
| `ControlLaw.SeedEvaluates` | tcp-core/src/congestion.rs:1129-1139 | A seed program evaluates to its first instruction on the guarded inputs. |
| `ControlLaw.RepairedLossIsBounded` | tcp-core/src/congestion.rs:1273-1276 | Whatever the program, a repaired loss response never exceeds the flight. |
| `ControlLaw.RepairedIncreaseIsPositive` | tcp-core/src/congestion.rs:1281-1284 | Whatever the program, a repaired increase is positive. |
| `ControlLaw.RepairedEcnIsHalfAlpha` | tcp-core/src/congestion.rs:1289-1292 | A repaired ECN response is half of alpha. |
| `ControlLaw.RunProgram` | tcp-core/src/congestion.rs:1316-1356 | The loop over the register array computes the recursive evaluation. |
| `ControlLaw.SeedProgram` | tcp-core/src/congestion.rs:1129-1139 | The array filled slot by slot is the seed. |
| `ControllerImpl.Controller.OnAck` | tcp-core/src/congestion.rs:538-552 | The release loop on mutable fields computes the specified growth, for every law. |
| `ControllerImpl.Controller.AdditiveIncrease` | tcp-core/src/congestion.rs:690-699 | Integer step, Prague's scaled step, the genome's gain or the program's output. |
| `ControllerImpl.Controller.LossResponse` | tcp-core/src/congestion.rs:948-953 | Half the flight, the genome's fraction of it, or the program's output, floored at two segments. |
| `ControllerImpl.Controller.OnDupAck` | tcp-core/src/congestion.rs:556-566 | Counts to three and answers the third. |
| `ControllerImpl.Controller.OnEcn` | tcp-core/src/congestion.rs:591-622 | Accumulates a window's worth of marks, refreshes alpha, cuts at most once. |

## Left out

- FlowRuns.FlowControlComposes: asks that no delivered segment overstates the window. The code does not ensure that with data both ways: `FlowControl.OverstatedExactlyWhen` is the exact guard at each segment and `StaleWindows.BothCasesHappen` reaches both of its cases.
- WindowProbe.StallsExactlyUntilReopened: states a limit of the code rather than a guarantee. The persist timer stays armed throughout, so `ConnectionRuns.NoSilentWedge` holds all the same.
- Congestion.EnvelopeHoldsForever: a change of the segment size is a method of the controller object but not an event of the sequences, as in the repository's own alphabet.
- CongestionRuns.SplitsAgreeExactlyWhen: windows, accumulators and bytes whose sum reaches 2^32 - 1, where the counters saturate, are not covered.
- WireRuns.DeliverTo: a RST or SYN from nowhere is delivered to the object by `TcbImpl.Tcb.OnSegment` alone, which asks that it lie within 2^31 of RCV.NXT.
- StackImpl.Stack.PollTransmit: the connection table's iteration order is a parameter, and the connections of one drain share the clock and the outside parameters.
- TcbImpl.Tcb.OnSegment: asks that the segment and a remembered FIN lie within 2^31 of RCV.NXT (section 3.2 of RFC 1982); ACKs and SACK edges may be any 32-bit values. The fields of each half of the connection are held as one record that is updated in place.
- ReassemblyImpl.ReasmBuffer.Report: the stable sort by stamp is repeated selection of the newest run, which gives the same order.
- `Reasm::reinsert_front`: has no method, because its only call is proved unreachable (`ReceiveSide.RunFitsWhole`).
- The handshake (SYN-SENT, SYN-RECEIVED), its options, its resets and its retransmissions: runs begin in Established with consistent negotiated values.
- Timestamps and PAWS: taken as not negotiated, so three SACK blocks with timestamps, TSval, TSecr and their option space do not appear.
- The RTT estimator, Karn's rule and RTO backoff: the current RTO and a fresh smoothed RTT, if any, are parameters of each call.
- Challenge-ACK limiting: whether the budget allows another is a parameter.
- Pacing: the allowance and the delay until more are parameters; the token bucket is not modelled.
- CUBIC and BBR: floating-point heuristics with few crisp guarantees; delivery-rate sampling has no effect on the laws modelled.
- Floating point: `f64` is exact `real` arithmetic with the code's clamps, floors and truncations; IEEE rounding, infinities and NaN are not modelled.
- Segment size in the options overhead: SND.MSS is taken to exceed 36 octets, the largest option area, as the code silently requires.
- A peer that is not this code: the single-connection theorems hold against any segments at all, the two-endpoint theorems have this code on both sides.
- Byte-level parsing, emission, checksums, the PSH flag and ECT marking: a segment is a record.
- Demultiplexing, listening, ISN generation and connectionless resets in `iface.rs`; `runtime/`, `tcp-tun/`, and the searches of `sim.rs`.
