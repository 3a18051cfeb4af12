# Verified model of the Bramble mesh message pipeline

A Dafny 4.11 model of how a Bramble node carries one written message to one
other node, and of the smaller machines around it. `dafny verify
dfyconfig.toml` checks the whole project.

**The pipeline.** A message owns one row in the message store, named by its
uid. It may wait in the eight-slot queue for a route or for a session, go on
the air and wait for its ACK in the eight-entry pending table, be given up by a
timeout, a route error or a failed discovery, be parked by the user, and be
tried again by a beacon, a sweep or a tap on Retry. `Pipeline` gives every
handler as one step on a state; `MeshTables` runs the same handlers in place on
arrays and a ring (`MsgStore`) and is proved to take each step exactly.
`PipelineInvariant`, `PipelineSticky`, `PipelineOneFrame` and `PipelineAcks`
prove what holds over every sequence of steps, `PipelineAcks` and `PipelineLaws`
what each handler does to the tables, the rows and the air. The environment (is there a route, is the session
active, did the radio take the frame, what does the clock say) is a parameter of
each step, so the theorems hold for every behaviour of it.

**The receiver.** `ReplayWindow`, `ReplayDeferred` and `ReplayGate` are the two
replay tiers and the gate made of them, `Dedup` the two packet-id buffers,
`Receiver` the dispatcher and delivery, and `ReceiverTables` the same in place.

**End to end.** `Network` puts any number of nodes on a medium that loses,
duplicates and reorders frames and ACKs at will.

**Parked messages.** `ParkedRetry` decides when a parked peer is tried again,
on a wrapping 32-bit clock; `ParkedNode` runs it over the store and the
pipeline it acts on.

**Beside it.** `Receipts` (the delivery-receipt scheduler), `EventRing` (the
delivery-event ring as a refinement of an unbounded log), `Rehandshake` and
`NotifyThrottle` (two rate limiters), `RollCall` (answer once, and the hourly
budget), `LockOrder` (no deadlock among the mutexes), `AckPath` (the relay path
an ACK carries), `Churn` (a count over a rotated ring), `Credential` and
`Origin` (two header parsers).

`Basics` and `Bits` hold what they share.

Every run theorem quantifies over all runs: the steps, their order and their
arguments are universally quantified sequences.

## Where the code does less than is said of it

Each of these is a pair: an input or run that shows it, and the exact condition
under which the promise holds.

- One written message, one frame in the air: `PipelineOneFrame.FlushWhileQueued`
  and `RetryWhileOutstanding` are runs with two. `SendSoloIff` says exactly
  which sends of a stored message keep it to one, and `OneFrameEveryRun` that
  nothing else breaks it.
- A confirmation for a frame never delivered: `Network.FalseConfirmation` is a
  run of three nodes that ends in one (two senders' packet ids collide under
  the exclusive-or key). `Receiver.FalseAckIff` is the condition for one ACK,
  `Network.DoSoundIff` for one step of the network, and
  `ConfirmationIsSound` holds over every run without such a hearing.
- A duplicate of a delivered frame is confirmed again while its record lasts:
  `Receiver.LostReAck` is a run in which it is not, because the dispatcher's
  own record is needed as well: `ReAckIff`.
- No frame is delivered twice: `Receiver.PublicTwice` delivers a public-channel
  frame twice, since those skip the replay gate. `ReAckIff` says exactly when
  a copy is delivered again.
- At most once across the two replay tiers: `ReplayGate.RefusedPassesTwice` (the
  129th message of a day gets no record and passes again at the end of it),
  `RecycledPassesTwice` (its sender's slot was recycled) and
  `EvictedPassesTwice` (a message stamped ahead of the receiver's clock outlives
  its record). `CopyPassesIff` is the exact condition while the sender keeps its
  slot, `RefusedPassesAgainIff` that of a refused message, and
  `ReplayDeferred.EvictableMeansStale` that of an eviction. While a frame's own
  slot and record stay it passes once, whatever becomes of the others:
  `AtMostOnce`.
- Session DMs carry no send time, and a trusted clock more than a day past its
  epoch drops them all: `ReplayGate.SessionDmDropped`, `SessionDmPassIff`.
- A sweep that passes over an armed peer leaves it to its beacon:
  `ParkedRetry.SkippedPeerDisarmed` is, after any quiet sweeps, a run in which
  the beacon is turned away; `SkippedPeerFlushIff` and `SkippedRejoinLostIff`
  (only while the uptime reads below 2^31 ms).
- Twelve roll-call answers an hour: `RollCall.ThirteenInAnHour`. Twelve hold
  exactly when promised answers count against the cap: `TwelvePerWindow`,
  `NoRoomMeansThirteen`.
- A roll-call is answered once: `RollCall.AnsweredTwice`. It is, while the call's
  own claim is not recycled, `AnswerOnce`, and can be taken on again exactly
  after the event that recycles it, `TakenAgainIff`.
- One re-handshake per peer and interval: `Rehandshake.GrantedTwice` and
  `GrantedAgainIff`.
- A receipt waits its delay out: `Receipts.PassesApart` and `ReceiptMoments`, on
  a clock short of its wrap. `TooSoonAtTheWrap` is a pass 1 ms after the last;
  `DueAtOnceIff` says when.
- A retry draws a fresh contention slot: never with 4, 8, 16 or 32 slots and
  always with any other number, `Receipts.RetryMovesIff`.
- An ACK path lists each node once: `AckPath.OriginTwice`, and
  `ForwardDistinctIff`.
- Neighbor changes in the window: `Churn.Miscount` counts two as one,
  `UndercountIff`.
- An '@' in an Origin's authority is malformed: `Origin.AtSignStands`,
  `AtSignRefusedIff`.

## Model

| member | source | states |
|---|---|---|
| MsgStore.SlotIsModular | components/msg_store/msg_store.c:308-348 | the index function the ring is verified with is the modular one the code computes |
| MsgStore.Ring.AddRow | components/msg_store/msg_store.c:120-184 | the circular array then holds the old rows in order, less the oldest if it was full, and the new row last |
| MsgStore.Ring.Update | components/msg_store/msg_store.c:308-348 | the newest row of the uid, and no other, gets the packet id and the status; a QUEUED row refuses any status but DELIVERED |
| MsgStore.Ring.UpdateStatus | components/msg_store/msg_store.c:253-306 | the same rule by packet id |
| MsgStore.Ring.Cancel | components/msg_store/msg_store.c:350-381 | the user's cancel takes exactly a QUEUED row to FAILED |
| MsgStore.Ring.ExpireParked | components/msg_store/msg_store.c:433-473 | every parked row past its window becomes FAILED and nothing else changes |
| MsgStore.Ring.UidsFor | components/msg_store/msg_store.c:475-505 | the parked uids of a peer within their window, one per such row, at rising places of the ring |
| MsgStore.ParkedOldestFirst | components/msg_store/msg_store.c:475-505 | the list holds the uid of each parked row of the peer within its window, once, oldest row first |
| MsgStore.ParkedMeaning | components/msg_store/msg_store.c:407-539 | the uids listed for a peer, and the peers, are those of a QUEUED outgoing DM stamped no more than two hours ago, or ahead of the clock |
| MsgStore.Ring.NextParkedPeer | components/msg_store/msg_store.c:507-539 | the next parked peer in cyclic address order, found exactly when one exists |
| MeshTables.Mesh.constructor | main/mesh_task.c:100-180 | a booted node's tables stand for the initial state |
| MeshTables.Mesh.QueueForRoute | main/mesh_task.c:2473-2512 | in place, exactly the step that keeps one entry per uid |
| MeshTables.Mesh.ClearSlot | main/mesh_dm.c:432-458 | a free slot, or the oldest awaiting-session entry failed and freed |
| MeshTables.Mesh.QueueForSession | main/mesh_dm.c:417-473 | the tracking id of the one entry the uid has, new or old |
| MeshTables.Mesh.SendDirect | main/mesh_dm.c:586-672 | all branches of a DM send: too long, session active, handshake to wait for, handshake cap |
| MeshTables.Mesh.SendMessage | main/mesh_task.c:2551-2613 | the send path with or without a usable route |
| MeshTables.Mesh.DrainQueue | main/mesh_task.c:1221-1250 | the re-entrant drain: each entry's uid taken off, its payload sent through a path that itself queues, its slot freed |
| MeshTables.Mesh.FlushSessionQueue | main/mesh_dm.c:479-521 | every awaiting-session entry of the peer sent and stamped, or failed |
| MeshTables.Mesh.ReapQueue | main/mesh_task.c:1794-1813 | every overdue entry failed and freed, by its reason's time limit |
| MeshTables.Mesh.GiveUpOn | main/mesh_task.c:1852-1868 | discovery's failure fails the route-awaiting entries of the peer only |
| MeshTables.Mesh.RetryTick | main/mesh_task.c:1896-1956 | every due frame retransmitted with its attempt burned, or given up by packet id |
| MeshTables.Mesh.FailFastFor | main/rerr_ack_fastfail.c:10-36 | a route error fails every pending frame of the destination by packet id |
| MeshTables.Mesh.TakeAck | main/mesh_reliability.c:624-639 | the pending entry of the packet goes and its row becomes DELIVERED |
| MeshTables.Mesh.ParkMessage | main/mesh_task.c:2625-2644 | only a row still inside its park window becomes QUEUED |
| MeshTables.Mesh.FlushParkedFor | main/mesh_task.c:2695-2770 | the parked rows of a peer sent again, oldest first, those awaiting an ACK skipped |
| MeshTables.Mesh.Track | components/reliability/reliability.c:35-62 | a free entry tracks the frame; a full table tracks nothing |
| MeshTables.Mesh.StampRow | main/mesh_dm.c:611-616 | the message's own row gets the wire packet id, or is stored again if the ring dropped it |
| PipelineInvariant.DoKeeps | main/mesh_task.c:2551-2770 | every step keeps: one entry per uid, nothing queued vanishes, rows, entries and frames carry what was submitted, packet ids are fresh |
| PipelineInvariant.SendKeeps | main/mesh_task.c:2551-2613 | a send, direct or nested in a drain, keeps all that, accounts for its uid and leaves every awaiting-route slot in use alone |
| PipelineInvariant.InvEveryRun | main/mesh_task.c:2473-2770 | all that in every reachable state |
| PipelineInvariant.UniqueEntryEveryRun | main/mesh_task.c:2473-2512 | in every reachable state no two used queue entries share a uid, across both reasons, eviction and the drain |
| PipelineInvariant.ConservationEveryRun | main/mesh_dm.c:410-521 | a message ever queued is queued still, or was transmitted or failed after it was last queued |
| PipelineInvariant.RemovalIsMatched | main/mesh_task.c:1221-1250 | whatever step takes a uid out of the queue transmits it or reports its failure in that very step |
| PipelineInvariant.FramesCarryTheMessage | main/mesh_dm.c:204-272 | every DM frame carries whole, and to the node named, what the user submitted under its uid, and no packet id is used for two frames of any kind |
| PipelineInvariant.RowsTellTheTruth | main/mesh_dm.c:586-672 | one row per uid, showing that message; its packet id names a frame transmitted for it |
| PipelineInvariant.NestedSendKeepsRouteSlots | main/mesh_task.c:1233-1247 | the send nested in a drain never changes the slot being read nor any other awaiting-route entry |
| PipelineInvariant.OwedMeaning | main/mesh_task.c:1794-1813 | what it means for a queued message to be unaccounted for, read off the log |
| PipelineSticky.ParkedIsSticky | main/mesh_task.h:136-161 | over every run from every state, a QUEUED row stays QUEUED unless its recorded frame was acknowledged, it was cancelled, its window ended, or a full ring dropped it; and only an acknowledged row becomes DELIVERED |
| PipelineSticky.DoLater | components/msg_store/msg_store.c:253-348 | the same for one step of any kind, naming the rows it may release |
| PipelineOneFrame.SoloEveryRun | main/mesh_task.c:2674-2694 | a message has at most one claim and its row records the frame in the air, over every run in which no retry or parked flush puts a frame of a queued message on the air directly, or adds a claim to one in the air |
| PipelineOneFrame.OneFrameEveryRun | main/mesh_task.c:2674-2694 | so at most one frame per uid awaits an ACK, and none while the uid is queued |
| PipelineOneFrame.QueuedFlushRefused | main/mesh_task.c:2473-2512 | flushing a row that is still queued changes nothing without a route, and nothing in the queue during a handshake |
| PipelineOneFrame.SendSoloIff | main/mesh_dm.c:597-619 | a send of a stored message keeps one claim and a true row exactly when it adds no claim to a claimed message and no frame to one in the air |
| PipelineOneFrame.SendOneClaimIff | main/mesh_dm.c:597-619 | a send keeps a message at one claim exactly when it does not give an entry or a tracked frame to one that has one |
| PipelineOneFrame.FlushWhileQueued | main/mesh_dm.c:597-619 | a run that puts two frames of one message in the air |
| PipelineOneFrame.RetryWhileOutstanding | main/mesh_task.c:2674-2694 | another, without any queue entry: a flushed message is cancelled and retried while its frame awaits an ACK |
| PipelineOneFrame.NothingOutstanding | components/reliability/reliability.c:74-82 | a row whose recorded frame is not pending has no frame in the air |
| PipelineOneFrame.FlushSparesOutstanding | main/mesh_task.c:2713-2755 | in every reachable state a parked flush neither sends nor queues a row whose recorded frame awaits its ACK |
| PipelineAcks.TickLaw | main/mesh_task.c:1896-1956 | a retry tick leaves an entry that is not due alone; a due one with tries left stays pending, one try further, due again after its backoff, and its frame goes out exactly if the radio takes it; a due one at its limit goes and its row fails; nothing else changes |
| PipelineAcks.FailedAfterThreeTries | main/mesh_task.c:1896-1956 | over every run the tick changes a row only to FAILED, and only when its frame is due with three tries burned by three earlier ticks |
| PipelineAcks.BackoffSpread | main/mesh_task.c:1940-1954 | every wait between three and five quarters of the doubled delay is drawn, and no other |
| PipelineAcks.CountedEveryRun | main/mesh_task.c:1913-1956 | over every run a pending entry has burned as many tries as ticks found it due |
| PipelineAcks.RouteErrorLaw | main/rerr_ack_fastfail.c:10-36 | after a route error no frame for the destination is pending, every other entry is as it was, and the rows of those frames, and no others, are failed |
| PipelineAcks.TrackedEveryRun | components/reliability/reliability.c:35-72 | in every reachable state no two pending entries share a packet id |
| PipelineAcks.AckLaw | components/reliability/reliability.c:64-72 | an ACK takes its packet out of the pending table, leaves every other entry as it was, and delivers only a row that records the packet |
| PipelineAcks.AckSettles | main/mesh_reliability.c:624-639 | in every reachable state an ACK settles its frame for good: pending no longer, and the row that records it is DELIVERED |
| PipelineAcks.DeliveredStays | main/mesh_reliability.c:624-639 | in every reachable state the packet of a DELIVERED row is not pending, so neither a retry tick nor a route error changes that row |
| PipelineLaws.ReapLaw | main/mesh_task.c:1794-1813 | after a reap a slot is in use exactly if it was and its entry has waited at most 60 s for a route or 150 s for a session, and just the messages removed are reported failed |
| PipelineLaws.GiveUpLaw | main/mesh_task.c:1852-1868 | a failed discovery frees exactly the entries waiting for a route to that destination and fails exactly their messages |
| PipelineLaws.MakeRoomLaw | main/mesh_dm.c:432-458 | in a full queue the session entry none is older than, and no other, fails and makes room; a free slot or eight route entries change nothing |
| PipelineLaws.SessionUpLaw | main/mesh_dm.c:479-521 | a new session frees exactly the entries that waited for it; each message is sent with the text queued if session and radio allow, and fails if not |
| PipelineLaws.RouteFoundLaw | main/mesh_task.c:1221-1250 | in every reachable state, once a route is found the log says of every message that waited for it that it was sent, queued again or failed |
| PipelineLaws.SendDecides | main/mesh_task.c:2551-2613 | a send of a message not in the queue, in full: when it is transmitted, queued for a route, queued for a session with a handshake started, or failed |
| PipelineLaws.QueuedTwice | main/mesh_dm.c:417-473 | queuing a message for a session again gives the same tracking id and changes nothing |
| PipelineLaws.RetryLaw | components/ui_graphics/screens/scr_chat_messages.c:337-362 | a FAILED outgoing DM not in the queue is sent again and the log says what became of it; any other row is left alone |
| PipelineLaws.ParkLaw | main/mesh_task.c:2625-2644 | of all rows just the uid's becomes QUEUED, exactly if stamped no more than two hours ago or ahead of the clock |
| PipelineLaws.CancelLaw | main/mesh_task.c:2667-2672 | of all rows just the uid's fails, exactly if it is QUEUED |
| PipelineLaws.ExpireLaw | components/msg_store/msg_store.c:433-473 | exactly the parked rows stamped more than two hours ago fail |
| PipelineLaws.SubmitLaw | main/mesh_task.c:2551-2613 | a submitted message is accepted exactly if it then has a row of its own with its text and peer; a refused one leaves the store as it was |
| PipelineLaws.LaunchLaw | main/mesh_dm.c:586-619 | a frame sent is logged, recorded in its message's row, and with room in the table tracked with three tries, the first two seconds on |
| PipelineLaws.ReceiveLaw | components/msg_store/msg_store.c:120-184 | a received message takes a new incoming row and no other row changes |
| PipelineLaws.FlushKeepsOrder | main/mesh_task.c:2695-2770 | in every reachable state, of two parked rows of the peer that one flush puts on the air, the older one's frame comes first |
| ReplayWindow.StepRefinesSet | components/replay_window/replay_window.c:71-121 | one call on the 64-bit map is one step of the set of remembered counters |
| ReplayWindow.SlotIsTheSendersOwn | components/replay_window/replay_window.c:33-69 | a known sender is always served by its own slot |
| ReplayWindow.SlotForMeaning | components/replay_window/replay_window.c:33-69 | a new sender takes a free slot, else the one idle longest if fifteen minutes or more, and is denied exactly when all 64 were heard since |
| ReplayWindow.HeardKeepsSlot | components/replay_window/replay_window.c:33-121 | a sender just heard is idle for no time, and one idle for less than fifteen minutes does not lose its slot |
| ReplayWindow.CheckVerdict | components/replay_window/replay_window.c:71-121 | duplicate exactly if remembered, below-window exactly if passed, accepted means remembered from now on |
| ReplayWindow.CheckKeepsMemory | components/replay_window/replay_window.c:71-121 | a remembered counter stays so or falls below its sender's window, for good, unless that sender's own slot is given away |
| ReplayWindow.ReplayTable.CheckAndAdd | components/replay_window/replay_window.c:71-121 | the table in place takes exactly that step, and counts recyclings and denials |
| ReplayWindow.ReplayTable.Scan | components/replay_window/replay_window.c:33-69 | the sender's slot, a free one, or the least recently seen if idle long enough |
| ReplayDeferred.EvictableMeansStale | components/replay_window/replay_deferred.c:7-23 | evicting a record is harmless exactly when its frame was not sent ahead of the moment it was recorded |
| ReplayDeferred.AcceptRecords | components/replay_window/replay_deferred.c:41-64 | acceptance needs a trusted clock, a fresh send time and an unknown pair, and records the pair |
| ReplayDeferred.StoreStep | components/replay_window/replay_deferred.c:66-83 | a recorded pair is present unless refused; another is lost only to eviction past its lifetime |
| ReplayDeferred.StoreStampsKeep | components/replay_window/replay_deferred.c:24-39 | a record is kept or refreshed until it is a lifetime old |
| ReplayDeferred.AllocMeaning | components/replay_window/replay_deferred.c:24-39 | a new record takes a free place, else the oldest one's if more than a day old, and is denied exactly when all 128 are younger |
| ReplayDeferred.DeferredCache.Accept | components/replay_window/replay_deferred.c:41-64 | the cache in place, verdict and counters |
| ReplayDeferred.DeferredCache.Mark | components/replay_window/replay_deferred.c:66-83 | a known pair restamped, an unknown one recorded or refused |
| ReplayGate.CopyPassesIff | main/mesh_task.c:825-907 | over any run in which its sender keeps its slot, a copy of a frame that passed passes again exactly when tier two takes it |
| ReplayGate.AtMostOnce | main/mesh_task.c:825-907 | over any run, no two copies of a frame pass while its sender's own slot stays and, for chat, its own record was made and stays; everything else may be evicted, refused or recycled |
| ReplayGate.SessionDmOnce | main/mesh_task.c:805-907 | for a session DM the slot alone is enough, on a clock untrusted or more than a day past its epoch |
| ReplayGate.RefusedPassesAgainIff | components/replay_window/replay_deferred.c:7-64 | a message refused its record passes again exactly when below the window, on a trusted clock, with a fresh send time and a record free or past its lifetime |
| ReplayGate.RefusedPassesTwice | main/mesh_task.c:884-886 | a run of 131 arrivals in which an honestly dated message, refused its record by the full table, passes twice |
| ReplayGate.AtMostOnceOnTrustedClock | main/mesh_task.c:825-907 | on a forward clock its record may be evicted too, if it was not refused and the frame was not sent ahead of its first passing |
| ReplayGate.PassIff | main/mesh_task.c:825-907 | exactly when a frame passes, read off the tables before the call |
| ReplayGate.SessionDmPassIff | main/mesh_task.c:805-907 | a session DM passes exactly if one of the tiers takes it and the clock is untrusted or within a day of its epoch |
| ReplayGate.SessionDmDropped | main/mesh_task.c:856-870 | a first DM dropped one second after the day is over |
| ReplayGate.RecycledPassesTwice | components/replay_window/replay_window.c:33-69 | a run of 66 arrivals in which a recycled slot lets one DM pass twice |
| ReplayGate.EvictedPassesTwice | components/replay_window/replay_deferred.c:7-64 | a run of 130 arrivals in which an evicted record lets a message dated ahead pass twice |
| Dedup.CheckMeaning | components/dedup/dedup.c:6-35 | the verdict is what the pure look says; afterwards the key is there and nothing new beside it |
| Dedup.RecordLasts | components/dedup/dedup.c:6-60 | with room, a live record survives other keys |
| Dedup.Buffer.PurgeExpired | components/dedup/dedup.c:37-48 | compaction in place keeps exactly the live entries, in order |
| Dedup.Buffer.CheckAdd | components/dedup/dedup.c:6-35 | the buffer in place takes exactly that step |
| Dedup.Buffer.Look | components/dedup/dedup.c:52-60 | the pure look, changing nothing |
| Bits.XorInjective | main/mesh_task.c:570-586 | for one sender the delivered key determines the packet id |
| Receiver.DeliveredTwiceIff | main/mesh_task.c:825-1168 | whatever is heard and whatever the dedup buffers forget or invent, a gated frame whose sender keeps its slot is delivered twice exactly when tier two takes a copy after its delivery |
| Receiver.DeliveredOnce | main/mesh_task.c:825-1168 | so it is delivered at most once if, for chat, it gets and keeps its own record |
| Receiver.DmDeliveredOnce | main/mesh_task.c:805-907 | a DM needs its sender's slot only, if copies come on a clock untrusted or more than a day past its epoch |
| Receiver.ReAckIff | main/mesh_task.c:1296-1343 | exactly when a copy of a delivered frame is confirmed again, and exactly when it is delivered again: the dispatcher has forgotten its id and it meets no gate or tier two takes it |
| Receiver.LostReAck | main/mesh_task.c:1296-1343 | a run in which a live delivered record does not bring the ACK |
| Receiver.PublicTwice | components/channel/include/public_channel.h:32-36 | a public-channel frame delivered and confirmed twice |
| Receiver.PublicDelivered | main/mesh_task.c:826-963 | a public-channel frame for this node is delivered exactly when its id is not remembered |
| Receiver.FalseAckIff | main/mesh_task.c:1329-1343 | an undelivered frame is confirmed exactly when its id counts as seen and another sender's record has its key |
| Receiver.FalseAck | main/mesh_task.c:1329-1343 | a run in which that happens |
| Receiver.ReceiveKeepsRecorded | main/mesh_task.c:580-738 | every delivered record is of a frame in the inbox, and only a frame of another node, addressed to this one or broadcast, enters it |
| Receiver.DmDelivery | main/mesh_task.c:592-909 | a new DM to this node is delivered, acknowledged and recorded exactly if a replay tier admits it, it is not empty, and it is not four bytes or more with a second byte of 2 to 4 above the first; so any text whose second character is above code 4 arrives |
| Receiver.OtherDelivery | main/mesh_task.c:592-963 | any other new frame: exactly if its kind is confirmed, it is no public broadcast, and it came over the public channel or a replay tier admits it |
| Receiver.KeysTellApart | main/mesh_task.c:1293-1343 | the dispatcher's key tells packet ids apart, the delivered record's the packets of one sender and the senders of one packet id |
| ReceiverTables.Intake.PassGate | main/mesh_task.c:825-907 | both replay tables in place, in the handler's order |
| ReceiverTables.Intake.HandleData | main/mesh_task.c:592-909 | own frames dropped, the gate for all but the public channel, then delivery, ACK and delivered record, or nothing |
| ReceiverTables.Intake.HearData | main/mesh_task.c:1293-1343 | the dispatcher's dedup gate, re-ACK branch and delivery in place |
| Network.ConfirmationIsSound | main/mesh_reliability.c:519-665 | after any run of any number of nodes, a row marked DELIVERED means its peer delivered the frame with that row's packet id, carrying the submitted text, provided no DM was heard when its id counted as seen and another sender's live record had its key |
| Network.DoSoundIff | main/mesh_reliability.c:519-665 | a step of the network keeps every ACK on the air and every DELIVERED row true exactly when it is not such a hearing |
| Network.ApartNotMisled | main/mesh_task.c:121-133 | while no DM shares a key with another sender's frame delivered at its destination there is none |
| Network.AckNamesTheRow | main/mesh_reliability.c:624-639 | the row an ACK finds by packet id is the row of the frame that was delivered |
| Network.DmArrives | main/mesh_task.c:592-909 | a DM its destination hears as new: if it is admitted and well shaped, the store there ends in a row with its sender and text and an ACK is on the air; if not, neither the node's pipeline nor the air changes |
| Network.FalseConfirmation | main/mesh_task.c:1329-1343 | a run of three nodes after which a row shows DELIVERED for a message its peer never delivered |
| Network.TwoNodesNeverMisled | main/mesh_task.c:121-133 | between two nodes the proviso holds in every run in which neither writes to itself |
| Network.PacketDeliveredOnce | main/mesh_task.c:825-907 | in any run of the network a packet, public-channel ones aside, is at most once in an inbox where its sender kept its slot and, for chat, it got and kept its own record |
| Network.DmPacketDeliveredOnce | main/mesh_task.c:805-907 | a DM needs its sender's slot only, where copies are heard on a clock untrusted or more than a day past its epoch |
| ParkedRetry.ElapsedIsOrder | main/parked_retry.c:10-14 | times less than 2^31 ms apart compare correctly by the sign of the 32-bit difference |
| ParkedRetry.StepSimulates | main/parked_retry.c:16-107 | one event on the wrapping clock decides and writes as on true time |
| ParkedRetry.Simulates | main/parked_retry.c:16-107 | so does any run whose comparisons stay within that distance |
| ParkedRetry.AlwaysBounded | main/parked_retry.c:16-60 | every armed deadline, the hold and the next sweep are at most one interval ahead, always |
| ParkedRetry.AlwaysBoundedOnWrappedClock | main/parked_retry.c:16-60 | on the 32-bit clock a deadline not elapsed is at most a cooldown ahead, while compared times are less than 2^31 ms apart |
| ParkedRetry.FlushesApart | main/parked_retry.c:62-107 | two beacon flushes of a peer, without a park or admission in between, are a cooldown apart |
| ParkedRetry.FlushesApartOnWrappedClock | main/parked_retry.c:62-107 | the same on the 32-bit clock, while compared times are less than 2^31 ms apart |
| ParkedRetry.SweepsApart | main/parked_retry.c:16-24 | two sweeps that run are a sweep interval apart |
| ParkedRetry.SweepsApartOnWrappedClock | main/parked_retry.c:16-24 | the same on the 32-bit clock, while compared times are less than 2^31 ms apart |
| ParkedRetry.DeferNeverEarlier | main/parked_retry.c:77-86 | deferring to a hold's end never brings a deadline forward, on either clock |
| ParkedRetry.ArmedIsFlushed | main/parked_retry.c:88-96 | an armed peer that stays in the table is flushed by any beacon a cooldown later, unless one flushed it before |
| ParkedRetry.ArmedIsFlushedOnWrappedClock | main/parked_retry.c:88-96 | the same on the 32-bit clock, while compared times are less than 2^31 ms apart |
| ParkedRetry.HeldRejoinIsArmed | main/parked_retry.c:64-86 | on either clock the beacon that readmits a held peer sets its deadline to the end of the hold, and arms it exactly if the hold is not the cleared one |
| ParkedRetry.LeftIsForgotten | main/parked_retry.c:62-96 | a neighbor that left the table is armed no longer and flushed only as a new one; every other is as it was |
| ParkedRetry.ParkedPeerIsReached | main/mesh_task.c:1684-1708 | on either clock a peer parked throughout is attempted or found armed within as many sweeps as there are parked peers, however their set changes |
| ParkedRetry.NobodyStranded | components/msg_store/msg_store.c:507-539 | the cyclic choice alone visits every standing member within that many choices |
| ParkedRetry.SkippedPeerFlushIff | main/parked_retry.c:31-41 | a passed-over armed peer's due beacon flushes it exactly while the uptime reads below 2^31 |
| ParkedRetry.SkippedRejoinLostIff | main/parked_retry.c:62-86 | a passed-over peer's rejoin is neither flushed nor armed exactly from 2^31 on |
| ParkedRetry.SkippedPeerDisarmed | main/parked_retry.c:31-86 | from power-on, after any quiet sweeps whatever, at any time past 2^31 ms with a sweep due: the sweep passes the peer over and its due beacon disarms it |
| ParkedRetry.RegularSweepsComeToIt | main/parked_retry.c:16-86 | so it is for a node that has swept every five minutes |
| ParkedRetry.Retry.SweepDue | main/parked_retry.c:16-24 | due-ness and rescheduling on 32-bit readings |
| ParkedRetry.Retry.SweepPeer | main/mesh_task.c:1699-1707 | attempt and hold, or pass over and clear |
| ParkedRetry.Retry.ArmPeer | main/parked_retry.c:48-60 | armed to now, if the peer has an entry |
| ParkedRetry.Retry.DecideFlush | main/parked_retry.c:62-96 | the decision and the deferral it writes |
| ParkedRetry.Retry.RecordFlush | main/parked_retry.c:98-107 | rearmed a cooldown out, or disarmed |
| ParkedRetry.Retry.HearBeacon | main/mesh_beacon.c:461-464 | admission, decision, flush and record together |
| ParkedNode.ParkedRowsAreHanded | main/mesh_task.c:1684-1708 | in any run, a peer with a parked message at every sweep has all its parked rows handed to the flush, or is found armed, within as many sweeps as there are parked peers |
| ParkedNode.ParkedRowsAreSent | main/mesh_task.c:1684-1708 | on the 32-bit clock they are handed over by one of those sweeps or by a beacon, at the latest the first heard a cooldown after them |
| ParkedNode.BeaconHands | main/mesh_beacon.c:461-464 | a beacon that flushes hands over the peer's parked rows and leaves it armed exactly if it had any |
| ParkedNode.ParkArms | main/mesh_task.c:2645-2665 | parking a message in its window arms its neighbor: a beacon a millisecond later flushes unless a sweep's hold stands |
| ParkedNode.SweepGivesUp | main/mesh_task.c:1684-1698 | before a sweep looks for a peer, exactly the parked rows more than two hours old have failed |
| ParkedNode.NoRowMissed | components/msg_store/msg_store.c:475-505 | the flush is given every row of the peer that is parked and in time |
| ParkedNode.RunIsTrace | main/parked_retry.c:16-107 | over any run the node's retry state is that of the retry machine fed with what the store reports |
| Receipts.ProcessUsesUp | main/mesh_reliability.c:273-406 | every pass uses up a pass, every send an attempt, every delay its share; the bytes stay those queued |
| Receipts.ReceiptBound | main/mesh_reliability.c:161-406 | at most 24 transmit calls, 3 sends and 179,474 ms of scheduled delay per receipt, whatever happens |
| Receipts.ReceiptEnds | main/mesh_reliability.c:273-406 | as many passes as are left free the slot |
| Receipts.BoundIsTight | main/mesh_reliability.c:273-406 | 179,474 ms is reached |
| Receipts.CoveredEveryRun | main/mesh_reliability.c:161-406 | the whole queue keeps within those bounds per receipt taken, over every run |
| Receipts.FirstDue | main/mesh_reliability.c:250-262 | the slot found is used and due, and none before it is |
| Receipts.ReceiptMoments | main/mesh_reliability.c:191-406 | over every run on a forward clock, the passes over a receipt come at its request time plus the delays scheduled until then, the time passes were late and the time the gate took: none sooner than the delays, none later than 179,474 ms but for the lateness and gate time |
| Receipts.PassesApart | main/mesh_reliability.c:273-406 | over every run on a forward clock, successive passes over one receipt are at least 250 ms apart after a busy channel, half of a second plus two per attempt after a denial or the eighth deferral, 150 ms after a transmission |
| Receipts.DelayRange | main/mesh_reliability.c:273-406 | what is waited after a busy channel, a denial and a transmission, from least to most, stretched by the airtime left |
| Receipts.DueAtOnceIff | main/mesh_reliability.c:254-262 | the receipt is due again at the moment its delay is counted from exactly if moment and delay reach the wrap of the 32-bit clock |
| Receipts.TooSoonAtTheWrap | main/mesh_reliability.c:326-334 | a deferral 100 ms before the wrap after which the receipt is passed over 1 ms later |
| Receipts.SaltKeepsSlot | main/mesh_reliability.c:396-398 | the retry's salt leaves the slot as it was for 4, 8, 16 and 32 slots |
| Receipts.RetryMovesIff | main/broadcast_delivery_receipt.c:41-59 | a retry draws another slot than the first attempt exactly when the number of slots is not 4, 8, 16 or 32 |
| Receipts.Scale | main/broadcast_delivery_receipt.c:63-87 | delays are halved above 8,400 ms of budget left, doubled at 3,480 ms or less, kept in between |
| Receipts.SlotsCovered | main/broadcast_delivery_receipt.c:41-59 | whatever the packet, every slot of the window is some node's, and none answers outside it |
| Receipts.ReceiptQueue.Ask | main/mesh_reliability.c:191-226 | the first free slot takes the receipt, or it is dropped |
| Receipts.ReceiptQueue.Timer | main/mesh_reliability.c:250-406 | the first due slot is processed and no other touched |
| Receipts.ReceiptQueue.Send | main/mesh_reliability.c:273-406 | deferral, budget denial, exhaustion and retry, branch by branch |
| EventRing.Ring.Append | main/delivery_event_ring.c:32-59 | the ring then holds exactly the last events of the log, numbered consecutively |
| EventRing.Stored | main/delivery_event_ring.c:32-59 | the record as given but for its number, its route length cut at eight |
| EventRing.Ring.ListSince | main/delivery_event_ring.c:68-88 | the ascending prefix of the retained events newer than the cursor, the rest of the buffer untouched |
| EventRing.Ring.LatestSeq | main/delivery_event_ring.c:61-66 | the number of the last event, 0 if none |
| EventRing.Ring.ReceiptsFor | main/delivery_event_ring.c:92-137 | first-seen order without repeats, cut at 64 and then at the buffer |
| EventRing.NewerMeaning | main/delivery_event_ring.c:68-88 | newer means retained with a greater number |
| EventRing.PagingIsComplete | main/delivery_event_ring.c:68-88 | paging by last number yields every retained newer event, in order |
| EventRing.LivePagesAscend | main/delivery_event_ring.c:68-88 | even while events arrive, no event twice and none out of order |
| EventRing.FirstSeenMembers | main/delivery_event_ring.c:110-130 | exactly the recipients with a record for the message |
| EventRing.FirstSeenMeaning | main/delivery_event_ring.c:110-130 | a recipient is listed exactly if it is not zero and some record of the message names it |
| EventRing.FirstSeenDistinct | main/delivery_event_ring.c:110-130 | each once |
| EventRing.FirstSeenOrder | main/delivery_event_ring.c:106-130 | in the order of their first records |
| Rehandshake.EightOthers | main/mesh_dm.c:46-71 | two grants to a peer less than 15 s apart mean at least eight other peers were granted at or after the first |
| Rehandshake.RefusedRecently | main/mesh_dm.c:46-71 | over every run, a call is refused only if the same peer was granted less than 15 s before |
| Rehandshake.GrantedAgainIff | main/mesh_dm.c:46-71 | on a clock no two calls share a reading of, a peer is granted again within 15 s exactly when eight others were granted since |
| Rehandshake.GrantKeepsLru | main/mesh_dm.c:54-71 | the table holds last grants, and nobody granted after one it holds is missing |
| Rehandshake.GrantKeepsOk | main/mesh_dm.c:54-71 | the table stays true to the history: a peer's last grant is in it or eight others came since |
| Rehandshake.GrantedTwice | main/mesh_dm.c:46-71 | nine peers are enough for two grants at once |
| Rehandshake.Limiter.Allow | main/mesh_dm.c:54-71 | refusal, renewal, free slot or oldest slot, in place |
| Rehandshake.Limiter.Scan | main/mesh_dm.c:55-67 | the peer's slot, else the one a new peer takes |
| NotifyThrottle.NineSendsHaveAGap | main/ws_server.c:205-264 | of any nine consecutive sends some two neighbours are 50 ms apart, however it is called |
| NotifyThrottle.WindowBound | main/ws_server.c:205-264 | a closed window holds at most 8 * (W / 50 ms + 1) sends |
| NotifyThrottle.DroppedIff | main/ws_server.c:241-264 | after any calls, a call is dropped exactly if the last send is less than 50 ms ago and is the eighth of sends each less than 50 ms after the one before |
| NotifyThrottle.Throttle.Notify | main/ws_server.c:241-264 | the two counters in place, and what is sent |
| RollCall.AnswerOnce | main/mesh_rollcall.c:278-437 | while a call's own claim is not recycled it is answered at most once, never both waiting and answered, and claimed just while it is one of these |
| RollCall.TakenAgainIff | main/mesh_rollcall.c:292-350 | with a slot and budget, an answered call is taken on again exactly after the event that recycles its claim |
| RollCall.AnsweredTwice | components/rollcall/rollcall.c:223-257 | a run of nine calls, whatever the response delays, in which the second is answered twice |
| RollCall.AbandonedIsRetried | main/mesh_rollcall.c:383-387 | in every run an abandoned answer's claim is gone and its next announce is taken on |
| RollCall.AnswersPerWindow | main/mesh_rollcall.c:324-346 | any window of an hour holds at most thirteen answers |
| RollCall.TwelvePerWindow | components/rollcall/include/rollcall.h:353-357 | at most twelve over every run that takes an announce on only while charges and waiting answers are below the cap |
| RollCall.NoRoomMeansThirteen | main/mesh_rollcall.c:324-346 | taken on without that room, thirteen leave within the hour if both answers then go out while the charges count |
| RollCall.ThirteenInAnHour | main/mesh_rollcall.c:324-346 | a run from the start, whatever the response delays, with thirteen answers in four minutes |
| RollCall.ResponseDelay | components/rollcall/rollcall.c:138-152 | a response waits at least 400 ms and less than 20 s |
| RollCall.NeverTooSoon | main/mesh_rollcall.c:278-437 | over every run on a clock that does not run backwards, no answer leaves before an announce of its call was heard and the delay drawn for it ran out |
| RollCall.DueMeaning | main/mesh_rollcall.c:546-557 | the wrapping comparison finds an answer due from its time on for half a turn of the clock, and never before |
| RollCall.NoteUsed | components/rollcall/rollcall.c:280-321 | the budget counts the answers of the last hour up to its size |
| RollCall.Runtime.HandleAnnounce | main/mesh_rollcall.c:278-350 | taken exactly if unclaimed, non-zero, with a slot and budget; then claimed and queued |
| RollCall.Runtime.Send | main/mesh_rollcall.c:383-437 | on the air and charged, or abandoned and unclaimed |
| RollCall.Runtime.Charged | components/rollcall/rollcall.c:298-321 | the charge goes to a free or expired entry, else the oldest |
| RollCall.Runtime.TickMember | main/mesh_rollcall.c:546-557 | every due answer is sent or abandoned |
| LockOrder.NeverStuck | main/mesh_task.c:164-179 | for any tasks running any of the listed paths in any interleaving: no lock has two owners, no task waits for itself, no ring waits in a circle, and some unfinished task can move |
| LockOrder.PathOrdered | main/mesh_location.c:575-598 | every path takes its mutexes in order, the flash shim innermost, and ends with none |
| LockOrder.ReversedOrderSticks | main/mesh_location.c:579-586 | sending under the flash iterator against a channel save deadlocks |
| AckPath.PathIsTrail | main/mesh_reliability.c:419-517 | on every ACK on the air the path is exactly who transmitted it, path and hop limit add up to nine, no entry is dropped, at most seven forwards, no relay twice |
| AckPath.SevenRelays | main/mesh_reliability.c:434-517 | given routes an ACK crosses exactly up to seven relays, and then names them all in order |
| AckPath.RouteHops | main/mesh_reliability.c:626-635 | the path turned round behind the sender, never cut short |
| AckPath.WholeRouteShown | main/mesh_reliability.c:626-635 | every ACK's whole path fits the display |
| AckPath.OriginTwice | main/mesh_reliability.c:557-616 | the origin can relay its own ACK |
| AckPath.ForwardDistinctIff | main/mesh_reliability.c:484-517 | a relay keeps the path free of repeats exactly if it is not the origin |
| AckPath.DistinctEveryRun | main/mesh_reliability.c:484-616 | over every run in which no node relays its own ACK, no path repeats a node |
| AckPath.Packet.Forward | main/mesh_reliability.c:484-517 | append, lower the limit, send if there is a route |
| AckPath.Packet.constructor | main/mesh_reliability.c:434-456 | the origin is the first entry |
| Churn.ChurnCount | main/beacon_policy_calc.c:3-24 | the number of changes among the samples in the window |
| Churn.WindowEdge | main/beacon_policy_calc.c:3-24 | a sample counts up to the window's length after its time, and no longer |
| Churn.RotatedCount | main/mesh_beacon.c:706-710 | array order and true order differ only in which ends meet |
| Churn.NearlyRotationProof | main/beacon_policy_calc.c:3-24 | within one of the true count, and equal until the ring first wraps |
| Churn.CountRightIff | main/beacon_policy_calc.c:3-24 | the count is right exactly when the ends that meet in the array differ just if those that met in time do |
| Churn.UndercountIff | main/mesh_task.c:1716-1719 | recorded on changes only, the count is one too low exactly when the window spans the wrap with equal oldest and newest counts, and right otherwise |
| Churn.Miscount | main/mesh_beacon.c:706-710 | eighteen changes after which two are counted as one |
| Churn.Recorder.Record | main/mesh_beacon.c:706-710 | the ring then holds the last sixteen samples, rotated |
| Credential.BearerRoundTrip | main/ws_auth_credential.c:24-34 | the token after Bearer is the token extracted if it fits with its terminator, else none is |
| Credential.BearerBlanks | main/ws_auth_credential.c:16-34 | spaces and tabs around the token are not part of it |
| Credential.SubprotocolRoundTrip | main/ws_auth_credential.c:36-55 | the token offered as a subprotocol is the token extracted if it fits |
| Credential.OtherEntryFirst | main/ws_auth_credential.c:36-55 | an entry without a token may come first |
| Credential.BareAuthSkipped | main/ws_auth_credential.c:36-55 | an entry with the prefix and no token is passed over |
| Credential.ScanSubprotocols | main/ws_auth_credential.c:36-55 | the first trimmed comma-separated entry with the prefix |
| Credential.ExtractToken | main/ws_auth_credential.c:16-59 | Bearer first, else the subprotocol, and only a non-empty token that fits |
| Origin.OriginAllowed | main/ws_origin.c:95-127 | allowed exactly without an Origin, from the same host, or by some entry of the list |
| Origin.ScanList | main/ws_origin.c:107-123 | some maximal separator-free stretch of the list matches |
| Origin.ExtendIff | main/ws_origin.c:107-123 | appending an entry behind a comma or a blank grants exactly what it matches and revokes nothing |
| Origin.HostOfUrl | main/ws_origin.c:23-55 | the host of scheme://host, port and path aside, trailing dot dropped |
| Origin.HostOfHeader | main/ws_origin.c:23-55 | likewise for a bare Host header |
| Origin.OwnPageAllowed | main/ws_origin.c:70-76 | a page of the device itself is allowed on any scheme and port |
| Origin.SameLetter | main/ws_origin.c:7-14 | letters compare without case, everything else as it is |
| Origin.DotAside | main/ws_origin.c:23-55 | a final dot names the same host |
| Origin.SlashAside | main/ws_origin.c:57-67 | a final slash on the origin or the entry makes no difference |
| Origin.WithoutScheme | main/ws_origin.c:95-127 | a value without a scheme is allowed exactly if there is none at all or it is listed |
| Origin.AtSignRefusedIff | main/ws_origin.c:16-55 | a value with an '@' in its authority has no host exactly when no bracket closes and no port-like ':' comes first |
| Origin.AtSignStands | main/ws_origin.c:16-55 | two values with an '@' that do have a host |
| Origin.RefererDecides | main/ws_origin.c:78-93 | without an Origin a POST is accepted exactly when the page it came from has the device's host, but for case and a final dot, whatever the configured list |

## Left out

- Cryptography: a frame or ACK on the air is one an honest node made; a session is active or not.
- Routing: route discovery, metrics and trust are one bit per send, "is there a usable route".
- Fragmentation and reassembly, and the contents of broadcasts and channel messages: the receiver models which of them are gated and confirmed; a DM payload shaped like a fragment header is not delivered; channel rows are not in the modelled store.
- Flood transport: ACK relaying is modelled for the reactive mode only.
- Packet ids, uids and event numbers are counters that have not wrapped; they are drawn in order from any start.
- Races on the queue and the pending-ACK table between tasks: every handler is one atomic step.
- Delivery receipts written back to broadcast rows, and the route recorded with a DELIVERED status.
- Reboots: the persisted rows and replay marks and their restore.
- Timer events dropped by a full event queue, and the arming of the receipt timer.
- UI notifications, logs, counters kept only for display, and the throttle's drop counter.
- The RPC placeholder id a queued DM is reported under is drawn but its notifications are not modelled.
- The initiator's side of a roll-call (its ledger and rounds), and message encoding.
- Channel-table compaction, probe replies, adaptive beacon intervals, mailbox, time sync, location scheduling.
- Network.ConfirmationIsSound: assumes no hearing misleads the re-ACK branch, because each that does puts a false ACK on the air (Network.DoSoundIff, FalseConfirmation).
- Network.PacketDeliveredOnce: assumes that the sender's slot and, for chat, the frame's record stay, and leaves public-channel frames aside, because otherwise it is false (ReplayGate.RecycledPassesTwice, RefusedPassesTwice, Receiver.PublicTwice).
- PipelineOneFrame.OneFrameEveryRun: assumes no retry or parked flush sends a queued message directly or adds a claim to one in the air, because otherwise it is false (FlushWhileQueued, RetryWhileOutstanding).
- Network: a packet's nonce counter and payload kind are fixed when it is sealed and taken as given; the counter's order is not used.
- LockOrder.NeverStuck: the paths are transcribed from the cited functions; locks inside libraries other than the flash shim and the message store are not listed.
- Receipts.PassesApart: assumes the clock does not reach its wrap within a delay, because otherwise it is false (Receipts.DueAtOnceIff, TooSoonAtTheWrap).
- Receipts.ReceiptMoments: assumes the same.
- AckPath.PathIsTrail: the replay window is the ideal one, which passes a signer's number once at a node.
