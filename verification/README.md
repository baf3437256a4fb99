# Verified models of four small systems

This project models the four systems of the workspace in Dafny and proves what each of them promises:

* **SPSC channel** (`spsc`): a lock-free ring buffer between one producer and one consumer. Every load,
  store, slot write and slot read is one step of a protocol, so both sides interleave freely and work with
  stale copies of each other's counter. `SpscChannel.dfy` is the protocol, `SpscCalls.dfy` what a call under way
  comes to from wherever it stands, `SpscRing.dfy` the buffer as an object over an array, with the destructor and
  its panic guard.
* **Lock servers** (`locks`): two servers, one with a thread per client and one event loop, for named locks
  with first-in first-out queues. `LockTable.dfy` is the table both implement; `Thread*.dfy` is the
  thread server with its store mutex, wake mutexes and condition variables as program counters;
  `Event*.dfy` is the event server with its client slab, and `EventReplies.dfy` what each client has been sent.
  `Protocol.dfy` is the printer and the parsers, `WireFormat.dfy` the lines word for word, `LineSplitting.dfy`
  and `LineFramer.dfy` the line reader and the double-buffered writer, `Utf8.dfy` what the reader accepts as text.
* **File system** (`gfs`): a master, chunk servers and clients. `GfsMetadata.dfy` is the master's state and
  its invariant, `GfsPlacement.dfy` the round-robin arithmetic, `GfsMaster.dfy` the master as an object,
  `GfsChunkServer.dfy` and `GfsClient.dfy` the other two roles. `GfsEffects.dfy` says what each request does entry
  by entry, `GfsLiveness.dfy` when a server is taken for dead. `GfsCluster.dfy` puts them together as one
  protocol with late, repeated, reordered and lost heartbeat messages; `GfsGuarantees.dfy` and
  `GfsReads.dfy` state what holds in all its runs.
* **Write-ahead log** (`wal`): `WalLog.dfy` is the framing and the replay, `WalDisk.dfy` a directory of files
  with their durable parts, `WalCrash.dfy` what a crash leaves of them, `WalStore.dfy` the store as an object on
  that disk, `WalCompaction.dfy` what compaction keeps, `WalTail.dfy` what becomes of records appended after an open.

`Wrappers.dfy`, `Sequences.dfy`, `Arithmetic.dfy` and `Binary.dfy` hold what they share. An object's methods are specified by
the pure state machine beside it (`State() == Step(old(State()), ...)` or the like), and the theorems are about
that state machine and its runs.

Where the code and its documentation disagree, the model follows the code:

* `wal/src/lib.rs:49-51` promises that a torn tail is truncated, and `wal/src/lib.rs:128` that an acknowledged
  `set` is crash-safe. A torn tail is left in place: a torn frame of eight bytes or more makes `open` fail
  (`WalLog.CutOutcome`), and otherwise later records land behind what `open` left unread. Whether they last depends
  on how many bytes that is (`WalTail.LastsExactly`, `WalTail.AllLastExactly`); `WalStore.Open` gives the number.
  With none, every later record is read back. With eight or more (zero bytes behind the last frame, say), the next
  `open` gives exactly the old map, so a record lasts only if it changes nothing. With one to seven, the new frame
  is read shifted: where the shifted length decides, the record is lost or the log cannot be opened
  (`WalTail.ShortRecordsDecide` and `WalTail.TornLengthDecides` say for which records it does), and the rest turns on
  whether a checksum of misaligned bytes happens to match (`WalTail.ShiftedOutcome`). A compaction repairs such a log.
* The writer accepts records over the 64 MiB that replay accepts (`wal/src/lib.rs:74`). Such a record is acknowledged,
  and neither it nor anything after it is read back (`WalTail.OverLimitLosesAll`, `WalTail.FitsExactly`).
* `locks/src/lib.rs:77-79` says that exactly the lines over the limit are refused. A line of the limit's length or
  more is refused only if that many of its bytes are buffered before its newline. So such a complete line, one of
  exactly the limit's length included (`LineSplitting.LimitIsNotShort`), is returned or refused depending on how the
  bytes arrive (`LineSplitting.ArrivalMatters`). No arrival has a line refused exactly if all are shorter, the
  unfinished one too (`LineSplitting.NeverTooLong`), and every arrival has exactly if the unfinished one is not
  (`LineSplitting.AlwaysTooLong`).
* `WakeState::Evicted` in `locks/src/bin/thread_server.rs:67-70` is documented for clients that disconnect while
  waiting. A thread only cleans up when it waits for nothing, so the state is never entered
  (`ThreadTheorems.NoLostWakeup`, `ThreadServer.Monitor.EvictNext`).

## Model

| member | source | states |
|---|---|---|
| `SpscChannel.StepKeepsInv` | spsc/src/lib.rs:142-227 | Every atomic step of either side, with whatever stale counter it has loaded, keeps: at most `cap` values outstanding, each slot of the window full, free or moved-out as its counter value demands, and all bookkeeping of the values given to `send` |
| `SpscChannel.RunKeepsInv` | spsc/src/lib.rs:142-227 | In every interleaving no slot is overwritten while full or read while not full, and no counter underflows |
| `SpscChannel.WriteStep` | spsc/src/lib.rs:167-171 | The slot `send` writes after its stale look at `tail` is not full, and no other slot is disturbed |
| `SpscChannel.PublishStep` | spsc/src/lib.rs:173-176 | When `head` is stored, the slot it publishes already holds the value |
| `SpscChannel.ReadStep` | spsc/src/lib.rs:217-219 | The slot `recv` moves out of holds the oldest value not received yet |
| `SpscChannel.ReleaseStep` | spsc/src/lib.rs:221-224 | Storing `tail` makes the emptied slot the last free one of the window |
| `SpscChannel.Fifo` | spsc/src/lib.rs:142-227 | In every reachable state the received values, the one in the consumer's hand and the slots from `tail` to `head` are together the published values in order |
| `SpscChannel.Conservation` | spsc/src/lib.rs:150-178 | Every value given to `send` is in exactly one place: received, still in the buffer, handed back in `SendError`, or in the call in flight, also when the consumer dies between the liveness check and the publish |
| `SpscChannel.PickPartitions` | spsc/src/lib.rs:150-178 | The accepted and the refused values are together all values of the finished calls |
| `SpscChannel.RecvErrorMeansDrained` | spsc/src/lib.rs:203-211 | `RecvError` is returned only when the producer is gone and everything `send` accepted was received |
| `SpscChannel.EndedForever` | spsc/src/lib.rs:203-236 | After one `RecvError`, no later step of any run receives a value |
| `SpscChannel.RecvOutcome` | spsc/src/lib.rs:186-227 | A `recv` alone takes four steps to the oldest value, or to an error once the stream has ended |
| `SpscChannel.SendOutcome` | spsc/src/lib.rs:142-179 | A `send` alone publishes if there is room and a consumer, and gives the value back if the consumer is gone, room or no room |
| `SpscCalls.SendPublishes` | spsc/src/lib.rs:150-178 | From any point of a call: once it has seen room, or has room and is to look, `send` left alone publishes its argument and answers Ok |
| `SpscCalls.SendRefused` | spsc/src/lib.rs:150-165 | With the consumer gone, a `send` that has not seen room, also one already spinning on a full buffer, hands its argument back within two steps |
| `SpscCalls.SendWaits` | spsc/src/lib.rs:150-165 | With a full buffer and the consumer there, `send` comes round to its look at the consumer and has done nothing |
| `SpscCalls.LooksAtConsumer` | spsc/src/lib.rs:150-165 | In every interleaving, between two loads of `tail` by the producer there is a load of `consumer_alive` that saw true |
| `SpscCalls.RecvReceives` | spsc/src/lib.rs:194-226 | From any point of a call: `recv` left alone takes the oldest published value if there is one, also after it found the buffer empty |
| `SpscCalls.RecvEnds` | spsc/src/lib.rs:204-211 | With the producer gone and nothing left, `recv` ends in the error from any point |
| `SpscCalls.RecvWaits` | spsc/src/lib.rs:194-215 | With an empty buffer and the producer there, `recv` comes round to its look at `head` and has done nothing |
| `SpscCalls.LooksAtHead` | spsc/src/lib.rs:194-215 | In every interleaving, between two loads of `producer_alive` in the spin loop there is a fresh load of `head` |
| `SpscRing.RingBuffer.constructor` | spsc/src/lib.rs:30-45 | A new buffer is an empty channel of at least one slot |
| `SpscRing.RingBuffer.Write` | spsc/src/lib.rs:48-53 | Exactly the slot at the index modulo the capacity is filled, and it was not full |
| `SpscRing.RingBuffer.Read` | spsc/src/lib.rs:56-59 | The value of that one slot is moved out |
| `SpscRing.RingBuffer.SendCheckConsumer` | spsc/src/lib.rs:151-154 | With the consumer gone the caller gets back the very value it gave |
| `SpscRing.RingBuffer.SendWriteSlot` | spsc/src/lib.rs:167-171 | The array step is the protocol step |
| `SpscRing.RingBuffer.SendStoreHead` | spsc/src/lib.rs:173-178 | Exactly the argument of this call is published |
| `SpscRing.RingBuffer.RecvReloadHead` | spsc/src/lib.rs:204-211 | A failed `recv` leaves nothing published unreceived |
| `SpscRing.RingBuffer.RecvStoreTail` | spsc/src/lib.rs:219-226 | The result is the oldest published value not received before |
| `SpscRing.NothingLost` | spsc/src/lib.rs:71-120 | When both handles are gone, the values given were received, handed back, or are those the destructor finds |
| `SpscRing.RingBuffer.Drop` | spsc/src/lib.rs:71-120 | With at most one panicking destructor, at any position, each remaining value is destroyed exactly once and no slot stays full; a second panic aborts right there |
| `SpscRing.RingBuffer.TakeNext` | spsc/src/lib.rs:100-111 | `tail` is past the oldest element before its destructor runs, so no element is destroyed twice |
| `SpscRing.RingBuffer.Unwind` | spsc/src/lib.rs:77-92 | The guard destroys the rest after the first panic |
| `LockTable.ApplyKeepsInv` | locks/src/bin/event_server.rs:487-559 | No operation makes a client wait twice or for a lock it holds, or leaves waiters on a free lock |
| `LockTable.WaiterAdvances` | locks/src/bin/event_server.rs:128-139 | A waiter moves up by at least one place per hand-off and never back |
| `LockTable.WaiterServed` | locks/src/bin/event_server.rs:94-96 | Bounded waiting: a waiter with k others ahead that stays connected holds the lock after at most k+1 hand-offs |
| `LockTable.OrderKept` | locks/src/bin/event_server.rs:128-139 | No operation swaps two waiters |
| `LockTable.NoOvertaking` | locks/src/bin/event_server.rs:513-535 | If the later of two waiters is served, the earlier one was served or disconnected before |
| `LockTable.GrantOnlyWhenIdle` | locks/src/bin/event_server.rs:506-535 | ACQUIRE and TRY_ACQUIRE are granted on the spot exactly if nobody holds or waits for the lock |
| `LockTable.DisconnectHandsOver` | locks/src/bin/event_server.rs:673-688 | A disconnect hands each lock the client held to its oldest other waiter and changes no other holder |
| `ThreadInvariant.StepKeepsInv` | locks/src/bin/thread_server.rs:206-350 | Every step of every thread keeps the ownership and wake-up invariant, and never looks at a lock or wake state that does not exist |
| `ThreadInvariant.RunKeepsInv` | locks/src/bin/thread_server.rs:206-350 | The same in every schedule |
| `ThreadInvariant.NotQueuedAnywhere` | locks/src/bin/thread_server.rs:336-341 | A client whose thread is not waiting is in no queue, so its cleanup never evicts |
| `ThreadTheorems.Ownership` | locks/src/bin/thread_server.rs:206-350 | A client is a lock's holder exactly if its thread answers for it (its `held` set corrected for the windows in which it lags) or was popped and not yet woken |
| `ThreadTheorems.QuietThread` | locks/src/bin/thread_server.rs:162-178 | Between requests `held` is exactly the set of locks the table gives the client, and it is in no queue |
| `ThreadTheorems.CleanupComplete` | locks/src/bin/thread_server.rs:333-350 | After its cleanup a client holds no lock and is in no queue |
| `ThreadTheorems.OneQueue` | locks/src/bin/thread_server.rs:233-262 | A client is in no queue but that of the lock its thread waits for |
| `ThreadTheorems.NoLostWakeup` | locks/src/bin/thread_server.rs:240-262 | A waiting thread is in exactly one queue, once, on a lock whose holder is another client not yet cleaned up, or it has been popped and is granted or about to be; a granted sleeper was notified; nobody sees `Evicted` |
| `ThreadTheorems.OwnershipAlways` | locks/src/bin/thread_server.rs:206-350 | The ownership statements in every reachable state of every schedule |
| `ThreadTheorems.NeverEvicted` | locks/src/bin/thread_server.rs:98-112 | In every schedule, no thread finds or sets the wake state `Evicted` |
| `ThreadTheorems.PoppedProceeds` | locks/src/bin/thread_server.rs:86-96 | Whichever side reaches the wake mutex first, a popped thread goes on |
| `ThreadTheorems.MutexReleased` | locks/src/bin/thread_server.rs:281-350 | The owner of the store mutex is never blocked, and each of its steps brings the unlock nearer |
| `ThreadTheorems.StepRefines` | locks/src/bin/thread_server.rs:206-350 | Each thread step is at most one operation of the lock table; a promotion happens when the waiter is popped |
| `ThreadTheorems.RunRefines` | locks/src/bin/thread_server.rs:206-350 | Any stretch of any run of the server is a run of the lock table |
| `ThreadTheorems.ThreadWaiterServed` | locks/src/bin/thread_server.rs:81-96 | Bounded waiting in the server itself |
| `ThreadCalls.AcquireStarts` | locks/src/bin/thread_server.rs:210-238 | ACQUIRE by the holder or a waiter leaves everything as it is, on a free lock it records the client in table and `held`, and otherwise it queues the client last with a fresh wake state |
| `ThreadCalls.WaitEnds` | locks/src/bin/thread_server.rs:240-258 | Left alone, a waiting thread sleeps again while its wake state is waiting, and otherwise lists the lock and takes requests again, in two steps and with no other effect |
| `ThreadCalls.WokenEnds` | locks/src/bin/thread_server.rs:253-258 | A woken thread lists the lock and takes requests again |
| `ThreadCalls.TryAcquireEnds` | locks/src/bin/thread_server.rs:266-279 | TRY_ACQUIRE of an idle lock ends with the client as holder in table and `held`, and of any other changes nothing |
| `ThreadCalls.ReleaseRefused` | locks/src/bin/thread_server.rs:284-289 | RELEASE by another than the holder changes nothing |
| `ThreadCalls.ReleaseFrees` | locks/src/bin/thread_server.rs:281-294 | RELEASE of a lock nobody waits for ends with a free lock, an unlocked store and the name out of `held` |
| `ThreadCalls.ReleaseServes` | locks/src/bin/thread_server.rs:81-96 | Otherwise it ends with the oldest waiter as holder, its wake state granted and its thread notified if asleep, an unlocked store, and no other thread touched |
| `ThreadServer.Monitor.AllocId` | locks/src/bin/thread_server.rs:131-136 | A connection's id was never used before |
| `ThreadServer.Monitor.Acquire` | locks/src/bin/thread_server.rs:207-238 | GRANTED at once exactly if the lock is free, the refusal that it is held already if the client holds it or waits for it, and otherwise the thread is queued last with a fresh wake state |
| `ThreadServer.Monitor.CheckWake` | locks/src/bin/thread_server.rs:240-251 | A look at the wake state, on arrival or after any wake-up, spurious or not |
| `ThreadServer.Monitor.FinishAcquire` | locks/src/bin/thread_server.rs:253-263 | The answer is always GRANTED, and the client does hold the lock |
| `ThreadServer.Monitor.TryAcquire` | locks/src/bin/thread_server.rs:266-279 | DENIED exactly if somebody holds or waits for the lock |
| `ThreadServer.Monitor.InsertHeld` | locks/src/bin/thread_server.rs:272-274 | The late insertion into `held` records a lock that is the client's in the table |
| `ThreadServer.Monitor.Release` | locks/src/bin/thread_server.rs:281-289 | Only the holder gets as far as the promotion |
| `ThreadServer.Monitor.PopWaiter` | locks/src/bin/thread_server.rs:86-95 | The first half of a promotion is the protocol's: oldest waiter, or free |
| `ThreadServer.Monitor.NotifyWaiter` | locks/src/bin/thread_server.rs:89-92 | The second half grants exactly the popped waiter's wake state |
| `ThreadServer.Monitor.RemoveHeld` | locks/src/bin/thread_server.rs:292-294 | After RELEASE `held` is again exactly what the table says |
| `ThreadServer.Monitor.GetStatus` | locks/src/bin/thread_server.rs:297-313 | A free lock is always reported with no waiters |
| `ThreadServer.Monitor.List` | locks/src/bin/thread_server.rs:315-329 | The held locks, each once, between the list markers |
| `ThreadServer.Monitor.BeginCleanup` | locks/src/bin/thread_server.rs:336-339 | A hang-up locks the store for the whole cleanup |
| `ThreadServer.Monitor.EvictNext` | locks/src/bin/thread_server.rs:338-341 | Eviction never changes a queue or a wake state |
| `ThreadServer.Monitor.FreeNext` | locks/src/bin/thread_server.rs:343-350 | Every lock in `held` is still the client's when its turn comes, and at the end none is |
| `EventAgreement.HolderIffListed` | locks/src/bin/event_server.rs:487-559 | A client is a lock's holder exactly if its slab entry lists the lock, and then once |
| `EventAgreement.ListIsComplete` | locks/src/bin/event_server.rs:157-160 | `held` is complete and without duplicates |
| `EventAgreement.AgreeTableInv` | locks/src/bin/event_server.rs:487-559 | Agreement implies the lock table's own invariant |
| `EventAgreement.PromoteAllLive` | locks/src/bin/event_server.rs:606-647 | With only live waiters the skipping loop serves the oldest one |
| `EventAgreement.HandOverKeepsAgree` | locks/src/bin/event_server.rs:606-647 | Handing over a lock without an owner restores the agreement for it and disturbs no other |
| `EventAgreement.GiveUpKeepsAgree` | locks/src/bin/event_server.rs:550-554 | Giving up one lock leaves exactly that lock without an owner |
| `EventAgreement.RemoveKeepsAgree` | locks/src/bin/event_server.rs:660-676 | Removing a client from slab and queues leaves exactly its locks without an owner |
| `EventServer.Server.Accept` | locks/src/bin/event_server.rs:201-212 | A connection gets the first free slot and an id no live client has |
| `EventServer.Server.Acquire` | locks/src/bin/event_server.rs:488-522 | The answer to the requester is ALREADY_HELD to the holder or a waiter, GRANTED with the lock listed on an idle lock, and none otherwise; nobody else is told anything, the table does the abstract operation, and table and slab agree again |
| `EventServer.Server.TryAcquire` | locks/src/bin/event_server.rs:524-538 | GRANTED, with the lock listed, exactly on an idle lock, otherwise DENIED, and nobody else is told anything; agreement kept |
| `EventServer.Server.GrantNow` | locks/src/bin/event_server.rs:506-512 | A grant on the spot records the holder, lists the lock and queues GRANTED, and nothing else |
| `EventServer.Server.Release` | locks/src/bin/event_server.rs:540-559 | NOT_HELD unless the holder asks; otherwise OK to it, and the oldest waiter lists the lock and is told (`EventReplies.GiveToEffect` says so slot by slot); agreement kept |
| `EventServer.Server.GiveUp` | locks/src/bin/event_server.rs:550-558 | The holder's list and the new holder's list change together with the table |
| `EventServer.Server.PromoteAndNotify` | locks/src/bin/event_server.rs:606-647 | The loop ends with the first waiter that still has a slot as the holder, listing the lock and told, or with a free lock (`EventReplies.PromoteLiveEffect`, `EventReplies.GiveToEffect`) |
| `EventServer.Server.Status` | locks/src/bin/event_server.rs:561-577 | A free lock is reported with no waiters, since nobody waits for a free lock |
| `EventServer.Server.List` | locks/src/bin/event_server.rs:579-596 | The outbox of the requester alone grows by the markers and one entry a held lock between them, by index; table and agreement stay |
| `EventServer.Server.HeldNames` | locks/src/bin/event_server.rs:582-587 | The names of the held locks, each once, and no others |
| `EventServer.Server.Process` | locks/src/bin/event_server.rs:458-600 | Every request is one operation of the lock table and keeps the agreement; a LIST reply is given by index, and the replies to the other requests are those of `EventReplies.AcquireAnswered` and the lemmas beside it |
| `EventServer.Server.Disconnect` | locks/src/bin/event_server.rs:653-691 | At any time: one abstract disconnect of the table, the new holders' lists and replies follow, everybody else is untouched, and a second disconnect does nothing |
| `EventServer.Server.LeaveQueues` | locks/src/bin/event_server.rs:673-676 | The client is cut out of every queue, whose order is otherwise kept |
| `EventServer.Server.ReleaseHeld` | locks/src/bin/event_server.rs:678-688 | The loop over `held` amounts to the abstract disconnect |
| `EventReplies.PromoteLiveEffect` | locks/src/bin/event_server.rs:606-647 | Promotion serves the first waiter that has a slot and drops those before it |
| `EventReplies.GiveToEffect` | locks/src/bin/event_server.rs:617-631 | The new holder lists the lock and is sent GRANTED; no other slot changes |
| `EventReplies.AwardedEffect` | locks/src/bin/event_server.rs:678-688 | A client's list and outbox grow alike: one GRANTED for each lock it gained, and nothing else |
| `EventReplies.AcquireAnswered` | locks/src/bin/event_server.rs:488-522 | ACQUIRE: the new lock and the new outbox of every slot, written out |
| `EventReplies.TryAcquireAnswered` | locks/src/bin/event_server.rs:524-538 | TRY_ACQUIRE: the same |
| `EventReplies.ReleaseAnswered` | locks/src/bin/event_server.rs:540-559 | RELEASE: ERR to all but the holder, OK to the holder, GRANTED to the oldest waiter, and nothing to anybody else |
| `EventReplies.StatusAnswered` | locks/src/bin/event_server.rs:561-577 | STATUS: holder and queue length as the table has them, to the requester alone |
| `EventReplies.ListAnswered` | locks/src/bin/event_server.rs:579-596 | LIST: the markers, and entry k is the k-th held name, to the requester alone |
| `EventReplies.ListedIffHeld` | locks/src/bin/event_server.rs:579-596 | A LIST reply names a lock exactly if it is held, and then once |
| `EventReplies.HangupAnswered` | locks/src/bin/event_server.rs:653-691 | A hang-up sends each client one GRANTED for each lock it inherits and nothing else, and takes the client out of every queue |
| `EventReplies.ConnectAnswered` | locks/src/bin/event_server.rs:201-212 | A new client holds nothing, was sent nothing, and displaces nobody |
| `EventReplies.GrantsCounted` | locks/src/bin/event_server.rs:311-408 | Over any stretch of any run without its hang-up, a client is sent GRANTED n exactly as often as it becomes the holder of n, and nothing sent before is lost |
| `EventReplies.EveryRequestAnswered` | locks/src/bin/event_server.rs:458-600 | Over any such stretch, answers sent plus locks still waited for are requests made plus locks waited for before: every request is answered once |
| `EventRun.Handle` | locks/src/bin/event_server.rs:311-408 | Table and slab after an event are those its kind calls for: at most one operation of the lock table, one reply, an inserted or a removed client, and nothing at all for a slot that is free by then; and they agree |
| `EventRun.Serve` | locks/src/bin/event_server.rs:311-408 | The loop handles every event in turn: its tables and slabs, one pair after each event, lead from the server's old state to its new one, agree throughout, and serve every waiter that is due |
| `EventRun.TraceRefines` | locks/src/bin/event_server.rs:311-408 | Any stretch of any run of the event server is a run of the lock table under the operations of its events |
| `EventRun.ClientStays` | locks/src/bin/event_server.rs:188-225 | No event moves a client to another slot, and none but its own hang-up removes it |
| `EventRun.ClientLasts` | locks/src/bin/event_server.rs:188-225 | The same over any stretch of a run |
| `EventRun.NotDisconnected` | locks/src/bin/event_server.rs:653-676 | As long as a client does not hang up, no operation of the table disconnects it |
| `EventRun.ClientServed` | locks/src/bin/event_server.rs:94-96 | Bounded waiting in the server itself: a client that waits with k others ahead, at a slot that does not hang up, is the holder in a later state of the run, after at most k+1 hand-offs |
| `Protocol.RequestPrintParse` | locks/src/lib.rs:206-232 | A request re-parses to itself exactly if its lock name is valid |
| `Protocol.RequestParsePrint` | locks/src/lib.rs:206-232 | Every accepted request line prints back to itself |
| `Protocol.ResponseRoundTrip` | locks/src/lib.rs:238-325 | A response survives the wire exactly if its names are valid, its numbers fit 64 bits and a listed name is none of the keywords (`WireFormat` gives the lines) |
| `Protocol.ResponseReparses` | locks/src/lib.rs:189-200 | Optional further arguments are ignored |
| `Protocol.ParsedIsRepresentable` | locks/src/lib.rs:238-297 | Whatever parses could have been sent |
| `Protocol.ParsePrintNat` | locks/src/lib.rs:271-294 | The decimal round trip, with overflow rejected |
| `Protocol.SplitJoins` | locks/src/lib.rs:171-176 | Splitting at the first space loses nothing |
| `WireFormat.NameChars` | locks/src/lib.rs:104-111 | A lock name is one to 64 ASCII letters, digits, underscores, dots, colons and hyphens |
| `WireFormat.Decimals` | locks/src/lib.rs:299-325 | Numbers are printed digit by digit in decimal |
| `WireFormat.NumbersRead` | locks/src/lib.rs:271-294 | A number is read exactly from its decimal digits, with or without a plus sign and leading zeros, below 2^64 |
| `WireFormat.RequestLines` | locks/src/lib.rs:206-222 | The five request lines, verb by verb, and no other line |
| `WireFormat.RequestTexts` | locks/src/lib.rs:224-234 | What each request prints as |
| `WireFormat.ResponseTexts` | locks/src/lib.rs:299-325 | What each response prints as: OK, LIST, END, GRANTED, DENIED, a bare name, ERR |
| `WireFormat.RefusalTexts` | locks/src/lib.rs:90-92 | The two refusals of the error catalogue |
| `WireFormat.StatusTexts` | locks/src/lib.rs:304-313 | What the two status responses print as |
| `WireFormat.MarkerLines` | locks/src/lib.rs:245-247 | Exactly which lines are OK, LIST and END, trailing words ignored |
| `WireFormat.GrantLines` | locks/src/lib.rs:250-251 | Exactly which lines are GRANTED and DENIED of a name, trailing words ignored |
| `WireFormat.EntryLines` | locks/src/lib.rs:255-258 | Exactly which lines are a list entry: a whole valid name that is no keyword |
| `WireFormat.ErrorLines` | locks/src/lib.rs:248-248 | Exactly which lines are an error, and its message is the rest of the line |
| `WireFormat.FreeLineRead` | locks/src/lib.rs:265-281 | The status line of a free lock is read as such, trailing words ignored |
| `WireFormat.FreeLineOnly` | locks/src/lib.rs:265-281 | Nothing else is read as the status of a free lock |
| `WireFormat.HeldLineRead` | locks/src/lib.rs:282-294 | The status line of a held lock is read as such, trailing words ignored |
| `WireFormat.HeldLineOnly` | locks/src/lib.rs:282-294 | Nothing else is read as the status of a held lock |
| `LineSplitting.SplitUnsplit` | locks/src/lib.rs:464-481 | Splitting undoes joining with newlines, but for one carriage return per line |
| `LineSplitting.NothingLost` | locks/src/lib.rs:445-496 | However the stream is cut up: unless a line is given up, the lines returned followed by those buffered are the lines of all that was fed |
| `LineSplitting.ChunkingIndependence` | locks/src/lib.rs:445-496 | Streams of short lines are split the same way for every arrival and every order of calls |
| `LineSplitting.NeverTooLong` | locks/src/lib.rs:482-493 | `LineTooLong` is impossible for every arrival exactly if every line and the unfinished one are shorter than the limit |
| `LineSplitting.AlwaysTooLong` | locks/src/lib.rs:482-493 | A line is given up for every arrival that is asked to the end exactly if the unfinished line has the limit's length or more |
| `LineSplitting.ArrivalMatters` | locks/src/lib.rs:460-493 | Every stream with an over-long complete line is split completely by one arrival and refused by another |
| `LineSplitting.LimitIsNotShort` | locks/src/lib.rs:77-79 | A line of exactly the limit's length, which the documentation allows, is among those that some arrivals have refused |
| `LineSplitting.AtOnce` | locks/src/lib.rs:464-481 | Fed at once, complete lines of any length are returned |
| `LineSplitting.LineGiven` | locks/src/lib.rs:464-481 | A line ends at byte 10 and loses one byte 13 before it; what follows stays buffered |
| `LineSplitting.LineNotGiven` | locks/src/lib.rs:482-493 | Without a byte 10 there is no line, and from 4096 bytes on what is buffered is dropped |
| `LineFramer.Reader.Refresh` | locks/src/lib.rs:445-452 | Bytes that arrive are appended whatever the read ends with; only an end without any is one |
| `LineFramer.Reader.NextLine` | locks/src/lib.rs:464-495 | The compacting buffer does what a plain split does; a complete line is returned or, if it is not UTF-8, consumed and refused; less than half of the buffer is dead afterwards, and all compactions together moved at most twice the bytes consumed |
| `LineFramer.Reader.TakeLine` | locks/src/lib.rs:467-476 | Exactly the bytes up to the newline are consumed, and one carriage return stripped |
| `LineFramer.LinesAreText` | locks/src/lib.rs:477-480 | No line is refused as invalid and the unfinished one is text exactly if the whole stream is UTF-8 |
| `Utf8.CutAtAscii` | locks/src/lib.rs:466-477 | Cutting at a newline never breaks a character |
| `Utf8.TextIffEncoded` | locks/src/lib.rs:477-480 | The bytes accepted as text are exactly the encodings of sequences of Unicode scalar values by the table of section 3 of RFC 3629 |
| `LineFramer.Reader.Compact` | locks/src/lib.rs:552-562 | No unconsumed byte is lost, and the moved bytes are paid for by consumed ones |
| `LineFramer.Writer.Write` | locks/src/lib.rs:531-538 | Bytes are queued last, also in the middle of an interrupted flush |
| `LineFramer.Writer.FlushNonblocking` | locks/src/lib.rs:503-528 | Against any script of partial writes, interrupts and blocks it ends; delivered followed by pending is what was accepted; no more counts as sent than the stream offered to take; success exactly with nothing pending; and it succeeds once the stream takes enough |
| `LineFramer.Writer.WriteBufferEmpty` | locks/src/lib.rs:420-423 | True exactly if everything accepted was delivered |
| `GfsMetadata.PlacementDistinct` | gfs/src/master.rs:213-220 | The two replicas of a chunk are distinct online servers, also across the wrap of the cursor |
| `GfsMetadata.CursorEven` | gfs/src/master.rs:213-220 | The cursor is even before every chunk, however often it wraps |
| `GfsMetadata.PlanGood` | gfs/src/master.rs:208-220 | Every chunk of an allocation gets a good pair |
| `GfsMetadata.AllocateKeepsInv` | gfs/src/master.rs:182-243 | Undeleted chunks remain exactly those listed by files, each once, with two distinct registered replicas and ids below the counter |
| `GfsMetadata.DeleteKeepsInv` | gfs/src/master.rs:273-284 | The chunks of a deleted file, and no others, stop being listed and keep their replicas |
| `GfsMetadata.HeartbeatKeepsInv` | gfs/src/master.rs:309-358 | A report, however wrong, changes no file and no undeleted chunk, and leaves no deleted one without a replica |
| `GfsMetadata.ServersKeepInv` | gfs/src/master.rs:154-167 | Registration and time-outs of any servers keep it |
| `GfsMetadata.LookupOutcome` | gfs/src/master.rs:246-270 | A lookup never meets missing metadata; on an existing path it fails exactly if some chunk has both replicas offline, and otherwise lists the chunks in order with their online replicas |
| `GfsMetadata.FileChunk` | gfs/src/master.rs:255-268 | A file's chunk is readable unless both replicas are offline; an offline primary is replaced by its secondary |
| `GfsEffects.RegisterEffect` | gfs/src/master.rs:293-306 | A new server is online under a fresh id; nothing else changes |
| `GfsEffects.TimeoutEffect` | gfs/src/master.rs:161-165 | A server is online after a tick exactly if it was and is not late |
| `GfsEffects.HeartbeatServers` | gfs/src/master.rs:321-326 | A heartbeat puts its server online if it is registered, timed out or not, and changes no other |
| `GfsEffects.HeartbeatChunks` | gfs/src/master.rs:341-355 | A heartbeat changes a chunk exactly if it is deleted, unreported and counted on that server, which is then taken off; the chunk is forgotten exactly with its last replica |
| `GfsEffects.HeartbeatReply` | gfs/src/master.rs:328-339 | A reported chunk is to be dropped exactly if it is unknown, deleted or assigned elsewhere |
| `GfsEffects.DeleteEffect` | gfs/src/master.rs:273-284 | Deletion removes the name, marks exactly the file's chunks and changes nothing else |
| `GfsEffects.AllocateErrors` | gfs/src/master.rs:189-201 | Which error an allocation gives, in what order, and that two online servers suffice |
| `GfsEffects.AllocateEffect` | gfs/src/master.rs:206-242 | A refused allocation changes nothing; a granted one numbers its chunks consecutively and touches no other file or chunk |
| `GfsEffects.PlacementEffect` | gfs/src/master.rs:212-236 | Chunk i goes to the two servers at the cursor plus 2i, and the cursor moves on by two a chunk, wrapping at 64 bits |
| `GfsEffects.LookupEffect` | gfs/src/master.rs:254-268 | Each chunk is listed with its first online replica as primary and the other as secondary if online too |
| `GfsPlacement.FullLap` | gfs/src/master.rs:216-219 | A lap of the cursor hits every server once |
| `GfsPlacement.LoadIsHits` | gfs/src/master.rs:208-220 | The replicas placed on a server are the cursor's hits of its index |
| `GfsPlacement.Balanced` | gfs/src/master.rs:13-16 | While the online set stays the same and the cursor does not wrap, the loads of any two servers differ by at most one |
| `GfsPlacement.TableBalanced` | gfs/src/master.rs:13-16 | In the chunk table itself: over any series of allocations, refused ones included, the new chunks with replicas on any two online servers differ in number by at most one |
| `GfsPlacement.AllPlaced` | gfs/src/master.rs:182-243 | A series of allocations places its chunks as one long placement would |
| `GfsPlacement.LoadAppend` | gfs/src/master.rs:208-220 | Consecutive allocations count as one long placement, also across the wrap |
| `GfsMaster.Master.Allocate` | gfs/src/master.rs:182-243 | The errors in the order the master checks them; otherwise the whole new state and the listing are those of the plan |
| `GfsMaster.NewListingMeaning` | gfs/src/master.rs:222-239 | The client is told the new file's fresh chunks in order, each with the pair on record, distinct and online |
| `GfsMaster.Master.PlaceChunks` | gfs/src/master.rs:206-240 | The loop refines the recursive plan |
| `GfsMaster.Master.PickReplicas` | gfs/src/master.rs:213-220 | The inner loop advances the wrapping cursor once per replica |
| `GfsMaster.Master.Lookup` | gfs/src/master.rs:246-270 | The loop meets the specification of a lookup |
| `GfsMaster.Master.Delete` | gfs/src/master.rs:273-284 | Exactly the file's chunks are marked |
| `GfsMaster.Master.Register` | gfs/src/master.rs:293-306 | The new id is unused, its server online and heard of now |
| `GfsMaster.Master.DetectTimeouts` | gfs/src/master.rs:154-167 | Exactly the servers not heard of for three seconds go offline |
| `GfsMaster.Master.Heartbeat` | gfs/src/master.rs:309-358 | The server is online and heard of now if it is registered, is told to drop exactly the unwanted chunks, and deleted chunks it no longer reports lose it (`GfsEffects` says so entry by entry) |
| `GfsLiveness.NextKeepsInv` | gfs/src/master.rs:154-358 | Every request and tick keeps the metadata invariant and a last sign of life for each server |
| `GfsLiveness.NoSign` | gfs/src/master.rs:159-165 | Nothing but a tick three seconds or more after its last sign of life takes a server offline, and nothing but a sign changes that time |
| `GfsLiveness.OnlineExactly` | gfs/src/lib.rs:68-74 | Over any events after its last registration or heartbeat, a server is online exactly until a tick that comes three seconds or more later |
| `GfsMaster.Master.Reconcile` | gfs/src/master.rs:342-355 | Only deleted, unreported chunks lose the replica, and only those with none left are forgotten |
| `GfsCluster.StepKeepsInv` | gfs/src/chunk.rs:112-141 | Every step of master, server, client or network keeps: a live chunk is wherever its write landed, stores hold only what was meant for them byte for byte, and no drop command in flight names a live chunk |
| `GfsCluster.RunKeepsInv` | gfs/src/master.rs:309-358 | The same in every run, with reports and replies late, reordered, repeated or lost |
| `GfsCluster.UnwantedIsDead` | gfs/src/master.rs:328-340 | A reply to any report, however stale, commands no chunk of an existing file |
| `GfsCluster.DeadStaysDead` | gfs/src/master.rs:209-210 | Being unwanted is stable for an issued id |
| `GfsEffects.MessagesStay` | gfs/src/chunk.rs:112-141 | Reports and replies stay available, the reply to a report asks for exactly the chunks not counted there, and a deleted file is not found |
| `GfsEffects.DropsEffect` | gfs/src/chunk.rs:129-136 | Applying a reply removes exactly the named chunks from that server |
| `GfsEffects.ReportBringsBack` | gfs/src/master.rs:321-326 | Once a registered server's report is processed, allocations use it again |
| `GfsEffects.ReportMakesReadable` | gfs/src/master.rs:246-268 | And every file with that server among the replicas of each chunk can be looked up |
| `GfsGuarantees.Durable` | gfs/src/chunk.rs:182-209 | An acknowledged chunk is in both its replicas' stores with its bytes until its file is deleted |
| `GfsGuarantees.LiveUntilRemoved` | gfs/src/master.rs:273-284 | Nothing but a deletion of its file takes a chunk away |
| `GfsGuarantees.NeverReissued` | gfs/src/lib.rs:80-83 | A deleted or forgotten id is never live again |
| `GfsGuarantees.ForgottenIsCollected` | gfs/src/master.rs:342-355 | The master has forgotten a chunk exactly if its file was deleted and, after that, it processed a report without the chunk from each of its two replicas |
| `GfsGuarantees.LateWriteDropped` | gfs/src/master.rs:328-340 | A write that lands after the deletion is commanded away whenever it is reported |
| `GfsGuarantees.ExchangeCleans` | gfs/src/chunk.rs:112-141 | A heartbeat exchange without a write, allocation or deletion in between leaves the server only wanted chunks |
| `GfsGuarantees.CleanReportReleases` | gfs/src/master.rs:342-355 | A report of only wanted chunks takes the server off every deleted chunk |
| `GfsReads.GetRebuilds` | gfs/src/main.rs:506-524 | A `get` whose chunk reads all succeed returns exactly the bytes that were put, wherever in a run the reads happen, whether or not the `put` had finished |
| `GfsReads.GetSucceeds` | gfs/src/main.rs:506-524 | A `get` of a file whose chunks were all acknowledged and of each of which one listed replica answers succeeds, with the bytes that were put |
| `GfsReads.GotIfAcked` | gfs/src/main.rs:570-585 | A chunk whose write was acknowledged is read as soon as one listed replica answers |
| `GfsReads.GotIsSlice` | gfs/src/main.rs:570-604 | No server ever answers with wrong bytes |
| `GfsReads.ContentWasPut` | gfs/src/main.rs:469-504 | An existing file's content is what its last successful allocation's `put` was given |
| `GfsReads.SlicesRebuild` | gfs/src/main.rs:495-500 | The slices `put` writes join to the file |
| `GfsReads.ChunksCover` | gfs/src/main.rs:483-493 | The number of chunks is just enough |
| `GfsReads.OffsetsFit` | gfs/src/main.rs:495-498 | No offset overflows 64 bits for a file that fits in memory |
| `GfsClient.Put` | gfs/src/main.rs:469-504 | The chunks' slices are sent in order, up to and including the first that is not acknowledged; success exactly if all are |
| `GfsClient.Get` | gfs/src/main.rs:506-524 | The parts are joined in order; fails exactly if some chunk has no answer from either replica |
| `GfsClient.PutGet` | gfs/src/main.rs:469-524 | What `put` sends is what `get` rebuilds |
| `GfsChunkServer.ChunkServer.Write` | gfs/src/chunk.rs:191-209 | An acknowledged write is in both stores; it fails exactly if the network loses the forwarded request or its answer, and what each store then holds |
| `GfsChunkServer.ChunkServer.Forward` | gfs/src/chunk.rs:245-266 | An acknowledged chunk is in the peer's store; one whose answer was lost is there too, and one that was not delivered is not |
| `GfsChunkServer.ChainWrite` | gfs/src/chunk.rs:182-209 | On the stores of a cluster a chain-replicated write is one, two or three steps of the cluster protocol, and the third, the acknowledgement, exactly if the answer is `Written` |
| `GfsChunkServer.ChunkServer.ReadRange` | gfs/src/chunk.rs:220-241 | Not found, or the clamped range: each byte returned is the chunk's at the position asked for |
| `GfsChunkServer.ClampedIsOverlap` | gfs/src/chunk.rs:226-235 | All bytes of the chunk that lie in the range and no others, also for a range past its end |
| `GfsChunkServer.RangesJoin` | gfs/src/chunk.rs:226-236 | Adjacent range reads join to one, also past the end of the chunk |
| `GfsChunkServer.ChunkServer.CollectReport` | gfs/src/chunk.rs:119-122 | The report names every chunk held, once, and no other |
| `GfsChunkServer.ChunkServer.ApplyDrops` | gfs/src/chunk.rs:129-136 | Exactly the named chunks go |
| `Binary.LeRoundTrip` | wal/src/lib.rs:85-92 | A 32-bit length or checksum survives its four bytes |
| `Binary.LeTruncates` | wal/src/lib.rs:138-138 | A wider length is silently truncated |
| `WalLog.FrameParses` | wal/src/lib.rs:82-112 | A written frame parses to its record, whatever follows it |
| `WalLog.FrameLayout` | wal/src/lib.rs:136-145 | A frame is the payload's length modulo 2^32 and its checksum, least significant byte first, and the payload |
| `WalLog.HeaderRead` | wal/src/lib.rs:82-112 | What replay makes of any header: an end over 64 MiB or with a wrong checksum or payload, an error if the payload is not all there, a record otherwise |
| `WalLog.TornFrame` | wal/src/lib.rs:78-93 | A torn frame ends the replay or fails it, depending on whether its header is complete |
| `WalLog.CutOutcome` | wal/src/lib.rs:76-114 | For every history and every byte-level cut of its log: exactly the map after the whole frames before the cut, or an error, and an error exactly if eight or more bytes of a torn frame remain |
| `WalLog.WholeFramesFit` | wal/src/lib.rs:76-114 | The frames before the cut are as many as fit |
| `WalLog.ZeroTail` | wal/src/lib.rs:76-114 | Any number of zero bytes after a whole log is ignored |
| `WalLog.AppendCrash` | wal/src/lib.rs:129-170 | A crash after any byte of one more record gives the old map, the new one, or an error, and says which |
| `WalTail.LastsExactly` | wal/src/lib.rs:128-153 | A record acknowledged after an `open` of any file is read back by the next one: always if no byte was left unread, only if it changes nothing if eight or more were, and for one to seven, where the shifted length decides, only if it changes nothing and that length is refused |
| `WalTail.AllLastExactly` | wal/src/lib.rs:128-170 | The same for any number of later records, with none or at least eight bytes unread |
| `WalTail.CleanOpenLasts` | wal/src/lib.rs:76-114 | After an `open` that read its file to the end, all later records are recovered, and the file is again read to its end |
| `WalTail.DirtyOpenLosesAll` | wal/src/lib.rs:84-98 | Behind eight or more unread bytes nothing is ever looked at |
| `WalTail.ZerosLoseAll` | wal/src/lib.rs:78-107 | From eight zero bytes behind the last frame on, everything appended later is lost |
| `WalTail.ShiftedOutcome` | wal/src/lib.rs:78-112 | Behind one to seven unread bytes: what the next `open` finds, case by case of the shifted length and the misaligned checksum |
| `WalTail.ShortRecordsDecide` | wal/src/lib.rs:84-93 | Behind one, two or three unread bytes the shifted length alone decides for every record below 2^24, 2^16 or 2^8 bytes |
| `WalTail.TornLengthDecides` | wal/src/lib.rs:84-93 | Behind four to seven bytes of a torn frame it decides exactly if the torn record was longer than what follows |
| `WalTail.TornByteLosesNextSet` | wal/src/lib.rs:49-51 | A log torn after one byte opens, and any record below 2^24 bytes appended to it is lost: the log cannot be opened, or from 262,144 bytes on opens with the old map |
| `WalTail.CutLogUnread` | wal/src/lib.rs:76-114 | Of the files a crash can leave, those that open without a byte unread are exactly the logs of whole frames, and no other leaves eight |
| `WalTail.OverLimitLosesAll` | wal/src/lib.rs:74-89 | A record over 64 MiB is written, and neither it nor anything after it is read back |
| `WalTail.FitsExactly` | wal/src/lib.rs:74-89 | Behind a log read to its end, a record below four gigabytes lasts exactly if it is within the limit or changes nothing |
| `WalCompaction.LiveIsSnapshot` | wal/src/lib.rs:190-202 | The last record of each key that is not deleted is what a log amounts to |
| `WalCompaction.SnapshotReplays` | wal/src/lib.rs:190-202 | One record per entry, in any order, replays to the map |
| `WalCompaction.LiveIsShorter` | wal/src/lib.rs:184-202 | Dropping dead records shortens a log exactly if there is one |
| `WalCompaction.CompactedSize` | wal/src/lib.rs:184-202 | The compacted log replays to the same map, is never longer, and is shorter exactly if some record was overridden or a deletion |
| `WalDisk.Disk.Append` | wal/src/lib.rs:142-144 | However a write is split, a crash finds only a first part of it |
| `WalDisk.Disk.Rename` | wal/src/fs_ext.rs:45-51 | The name leads to the new file at once |
| `WalStore.ReadFrame` | wal/src/lib.rs:82-108 | Reading field by field from the cursor is parsing what is left |
| `WalStore.ReplayFile` | wal/src/lib.rs:76-114 | The loop with its cursor and its counter, which never underflows, is the recursive replay, and its counter ends at the number of bytes left unread |
| `WalStore.Open` | wal/src/lib.rs:52-120 | The map is what the log replays to, the log is not changed, what a compaction left behind is gone; a log of whole frames, and of the files a crash can leave every one without a byte unread, gives a store on which records last |
| `WalStore.OpenAfterCrash` | wal/src/lib.rs:52-120 | A crash between operations or anywhere in a compaction, and the next open: the same map, on a log of whole frames |
| `WalStore.Store.Set` | wal/src/lib.rs:129-153 | On any open store, torn or not, and for any record: map and durable log gain it, a crash in any state on the way finds at most this frame torn, and within the limit a log of whole frames stays one |
| `WalStore.Store.Delete` | wal/src/lib.rs:157-170 | The same for a deletion, also of a missing key |
| `WalCrash.CrashDuringAppend` | wal/src/lib.rs:128-170 | What the next open finds after a crash in any of those states |
| `WalStore.Store.SurvivesCrash` | wal/src/lib.rs:28-30 | Between operations, whatever a crash leaves is a log of whole frames that opens to the current map |
| `WalStore.Store.Compact` | wal/src/lib.rs:186-223 | In every state on the way the whole old or the whole new file is in place; a crash opens to the same map on a log of whole frames; the handle then leads to the new log, which is never longer, and shorter exactly if a record was dead; and a torn log is repaired |
| `WalStore.Store.PrepareTemp` | wal/src/lib.rs:187-205 | The old log stays in place and durable while the new one is written and synced |
| `WalStore.Store.ReplaceLog` | wal/src/lib.rs:204-220 | Every state on the way has the whole old log or the whole new one under the store's name |

## Left out

- Sockets, polling and its interest flags, asynchronous tasks, remote calls, accept loops, logging: only the step each handler performs on its state is modelled.
- Weak memory and counters past the machine word in the channel, and two threads sharing one `Producer`: sequential consistency, natural-number counters and one call per side are assumed.
- The text of the error replies to unparsable lines, and their classification.
- `waiting_for` of the event server, which is written and never read; and the interest flag `wants_write`.
- The event server's handlers are modelled for an occupied slot, as its event loop guarantees; the defaults for an empty one are not.
- The order of names in a LIST reply, which is the hash table's.
- ThreadServer.Monitor.Acquire: the insertion into `held` at an immediate grant happens while the store is still locked and is part of the same step.
- ThreadServer.Monitor.NotifyWaiter: setting the wake state and notifying are one step, as both happen under the wake mutex; each wake state has one sleeper, so notifying one is notifying all.
- Replies are the methods' results; that a thread writes them to its socket, and fails silently, is not modelled.
- Overflow of the 64-bit chunk and server ids of the master, and of client ids.
- GfsMaster.Master.Register: an address stands for its server, and no two servers share one.
- GfsMaster.Master.DetectTimeouts: the clock is a parameter, and in `GfsCluster` a tick may take any servers offline, whatever the time.
- GfsCluster.RunKeepsInv: clients write only allocated ids to their two replicas, once per chunk and with the bytes of their file, and servers do not restart; replicas written twice may diverge.
- GfsChunkServer.ChunkServer.CollectReport: the ascending order of the report, which the master does not use.
- Framing and codec of the data plane (`gfs/src/data.rs`), `gfs/src/store.rs`, the interactive shell, command-line parsing and the server binaries: they would only add easy members.
- Input and output errors of the store other than a short read do not occur.
- WalTail.FitsExactly: a record of four gigabytes or more, whose length field is truncated (`Binary.LeTruncates`), turns on a checksum of part of it.
- WalDisk.Disk.Rename: it is atomic and durable, and so is the creation of the log file; the directory sync of `wal/src/fs_ext.rs` is part of it, and a store path without a parent directory, for which that sync fails, is excluded.
- WalStore.Open: the store path does not itself end in `.tmp`, and no other store shares its temporary file.
- The strength of the checksum and the bytes of the codec: only the round trip, the rejection of empty input and the 32-bit range are assumed.
- `get`, `len` and range scans of the store beyond a look at the map; the third lock server (unimplemented) and the lock client.
