# A verified model of the spinfoam runtime

spinfoam runs untrusted guest programs in one single-threaded asynchronous process and
talks to its embedder in JSON-RPC 2.0, one value a line. Its difficulty is in small
stateful protocols that share one outbox. This project models them at the grain at which
they interleave, one step for each stretch of code between two awaits, and proves what
every step and every run keeps.

Two forms are used side by side. What the program changes in place is a class whose
methods change the same fields (`Outbox.Outbox`, `HostCalls.Host`, `Mailboxes.Mailbox`,
`GuestObjects.GuestObject`, `GuestHandles.GuestContext`, `Admission.Loop`,
`Framing.Reader`) or a method over arrays (`KeywordMatcher`). Each such method is proved
equal to an operation on plain values, and the theorems about all runs are about those.

| module | what it holds |
|---|---|
| `OutboxModel`, `Outbox` | the two-class output queue as a ring of lanes, and the program's map, ready list and byte counter proved to behave like it |
| `Acceptance`, `Fairness`, `Conservation`, `Wakeups` | when a frame is taken, bounds in calls of `next`, nothing lost or reordered, no lost wakeup of the writer or of a blocked producer |
| `HostLedger`, `HostCalls`, `CallAnswers` | the pending table of guest-to-host calls, guards, responses and cancellation, and where each answer comes from |
| `Lifecycle`, `GuestObjects`, `Endings`, `ObjectMap`, `Shutdown` | objects, their task, concurrent stops and cleanup, over the shared ledger; how each object ended; loading, unloading and the end of all |
| `CallFrames` | where each call's request is, in a lane or on the wire, and the order of the wire |
| `Mailboxes` | the event queue with its window of recent IDs, and its waiting receiver |
| `Framing`, `AbandonedReads`, `Messages`, `Admission`, `Replies`, `Paging` | line framing, reads given up half-way, classification of lines, the request loop, what its replies say, the object listing |
| `Json`, `JsonLimits`, `RpcErrors`, `GuestHandles` | values and their printed form, the bounded walk, error messages, the guest's handle table |
| `Guests` | configuration, mailbox and handle table of all guests in one state |
| `KeywordMatcher` | the streaming Knuth-Morris-Pratt matcher of the web keyword guest |
| `Prelude`, `Runs` | bytes, text order, options; runs of a state machine |

## Assumptions

- A stretch of code between awaits is one step; steps interleave in any order.
- Tokio's `Notify`: `notify_one` wakes the parked waiter or stores one permit;
  `notify_waiters` wakes those parked now and stores nothing.
- Dropping an object's run future drops every helper future posted on it, so every call
  guard of the object runs before the task's own cleanup (`src/runtime.rs:308-335`).
- A timeout, a dropped future, the end of input and a failed write may happen at any time.
- Text is its UTF-8 bytes. The JSON printer is written out in full; a number is its
  printed literal. Parsing is a parameter: a line is either a value, whose objects
  have their keys in order, or not JSON.
- The session string, clock readings, the guest's program and the host's answers are parameters.

## Where the code is weaker than its description, or than one might expect

- `docs/PROTOCOL.md:103-104` announces `host.cancel` for requests handed to the writer. The
  code also cancels requests that still wait in their lane (`src/host.rs:32-41`, `86-89`).
  `CallFrames.CancelsUnwrittenExactly` says exactly when, and
  `CallFrames.CancelOfUnwrittenCall` is such a run. What does hold in every run is that a
  request is written at most once and never after its own cancel.
- A `next` that is parked when the outbox closes may end without looking at the queues
  again (`src/outbox.rs:214`). `Wakeups.ExitLosesExactly` says exactly when frames stay
  behind; `Wakeups.RacingExitLosesAFrame` is such a run. Draining is claimed for calls
  begun after the close.
- The order of an object's cleanup is essential. `HostLedger.CancelKeepsExactly` says when
  cancelling keeps the ledger sound, and `HostLedger.CancelBeforeDropMisorders` is a run in
  which a call follows its own cancel because its guard was still alive.
- `control_burst` passes its limit of 8 while no object waits
  (`Fairness.BurstPassesExactly`, `Fairness.BurstGrows`); the burst bound is stated on calls.
- An event is bounded in size only and its payload is a valid value, so a handle may hold
  depth 33 and 4099 nodes. `GuestHandles.EnvelopeValidExactly` says when an event is a
  valid value itself; `GuestHandles.DeepEventAdmitted` is one that is not.
- An event taken out of the mailbox is lost if the guest's table is full, and delivering it
  again is answered as a duplicate: `Guests.EventLostExactly` says exactly when,
  `Guests.LossHappens` is such a run.
- JSON-RPC lets a response carry a result or an error, not both; the loop routes a line with
  both (`Messages.BothIsRouted`) and the host answers the call with an error. When a
  response yields a value: `Messages.ResponseYieldsExactly`.
- A request whose ID is not a short string is refused with a null ID, not its own:
  `Admission.EchoExactly` says exactly which queued replies carry their line's ID,
  `Messages.NumberedRequestRefused` is a line whose reply does not.
- The loop drops the read it waits in when a request task ends (`src/protocol.rs:237-246`), and
  with it the bytes of an unfinished line. The rest of that line then passes for a line, and a
  request in it is never answered under its ID. `AbandonedReads.HeardExactly` and
  `AbandonedReads.IntactExactly` say exactly when the loop still hears its input,
  `AbandonedReads.RequestMangled` is a loss. The theorems on admission are about the lines
  the loop hears.
- A stop before the task's first poll passes through Running inside one poll; states are
  compared between steps only.

## Model

| member | source | states |
|---|---|---|
| OutboxModel.PushDataKeeps | src/outbox.rs:106-134 | An accepted data frame keeps every bound and adds exactly its length to the byte account. |
| OutboxModel.RemoveRequestKeeps | src/outbox.rs:157-177 | Removing a request from the middle of a lane keeps the invariant and subtracts exactly what left. |
| OutboxModel.RemoveObjectKeeps | src/outbox.rs:178-185 | Removing an object subtracts its whole lane and leaves it unready. |
| OutboxModel.NextKeeps | src/outbox.rs:186-216 | `next` finds nothing exactly when both classes are empty, and subtracts exactly the data frame it hands out. |
| OutboxModel.UnrelatedSize | src/outbox.rs:160-168 | What a removal keeps is exactly the frames without that request ID. |
| OutboxModel.RunKeeps | src/outbox.rs:106-216 | In every run: distinct nonempty lanes of at most 64 KiB, at most 4 MiB in all, at most 64 control frames. |
| Outbox.Outbox.constructor | src/outbox.rs:42-52 | A new outbox is the empty ring. |
| Outbox.Outbox.PushControl | src/outbox.rs:70-94 | Queues a control frame exactly when the outbox is open and has a free slot. |
| Outbox.Outbox.PushData | src/outbox.rs:106-134 | Changes map, ready list and byte counter as the ring's own push does, and refuses exactly what does not fit; in numbers: Acceptance.PushTakenExactly. |
| Outbox.Outbox.TryData | src/outbox.rs:95-105 | A refused notification is counted, saturating; an accepted one is not. |
| Outbox.Outbox.RemoveRequest | src/outbox.rs:157-177 | Agrees with the ring's removal; the counter never underflows. |
| Outbox.Outbox.RemoveObject | src/outbox.rs:178-185 | Agrees with the ring's removal, for present and absent objects. |
| Outbox.Outbox.Next | src/outbox.rs:186-216 | Returns and removes the frame the ring owes next; neither `expect` can fail. |
| Outbox.Outbox.Close | src/outbox.rs:40 | Only the closed flag changes. |
| Outbox.Outbox.At | src/outbox.rs:112-116 | The queue of a key in the map is that object's lane in the ring. |
| Outbox.Outbox.Head | src/outbox.rs:197-199 | The ready head has a queue, and it is not empty: what both `expect` calls rely on. |
| Outbox.Retain | src/outbox.rs:160-168 | Keeps the other frames in order and counts the bytes that go. |
| Outbox.LanesRotated | src/outbox.rs:197-205 | Popping the ready head and pushing it back rotates the ring. |
| Outbox.LanesDropped | src/outbox.rs:171-174 | Deleting a key from the map and the list deletes exactly its lane. |
| Outbox.OthersIsWithout | src/outbox.rs:173-183 | Retaining the other keys of a list without repeats removes one position. |
| Acceptance.PushTakenExactly | src/outbox.rs:106-134 | A push adds the frame exactly if the outbox is open, the owner's queued bytes and the frame are within 65536 and all queued bytes and the frame within 4194304; else it changes nothing. |
| Acceptance.FitsExactly | src/outbox.rs:113-121 | The same for the answer of a push, over the frames laid end to end. |
| Acceptance.EmptyLaneTakes | src/outbox.rs:118-121 | No object keeps another out: with at most 63 others, an object with nothing queued can queue any frame of at most 64 KiB, whatever the others hold. |
| Acceptance.TotalIsLength | src/outbox.rs:127 | The byte account is the number of bytes in the queued data frames. |
| Acceptance.ControlTakenExactly | src/outbox.rs:83-94 | A control frame is queued, last, exactly if the outbox is open and holds fewer than 64 of them. |
| Acceptance.ClosedTakesNothing | src/outbox.rs:118-123 | Closing keeps what is queued, and a closed outbox takes nothing. |
| Fairness.BurstPassesExactly | src/outbox.rs:191-192 | The burst counter passes 8 exactly when a ninth control frame in a row leaves and no object waits. |
| Fairness.BurstGrows | src/outbox.rs:191-192 | It reaches every number: a run for each. |
| Fairness.WaitShrinks | src/outbox.rs:186-216 | Whatever happens, a waiting object's bound never grows, and every call of `next` that does not serve it lowers it. |
| Fairness.FirstService | src/outbox.rs:186-216 | An object that stays nonempty is served before its wait of calls is used up. |
| Fairness.ServedWithin | src/outbox.rs:186-216 | An object at ready position p is served within 9(p+1) calls of `next`, under any interleaved pushes and removals. |
| Fairness.FollowFinds | src/outbox.rs:106-216 | A queued frame can be followed through every operation: where it goes next is where it is found. |
| Fairness.FrameLeavesWithin | src/outbox.rs:186-216 | With at most m objects ready, a frame at depth k leaves within 9(p+1+km) calls unless it is removed. |
| Fairness.FrameLeaves | src/outbox.rs:186-216 | The same bound in terms of the current burst and position. |
| Fairness.ControlLeavesWithin | src/outbox.rs:191-196 | Every queued control frame leaves within 72 calls of `next`. |
| Conservation.FramesAfter | src/outbox.rs:106-216 | What each operation does to one object's queued frames, whoever it is meant for. |
| Conservation.RecordTracks | src/outbox.rs:106-216 | A reference history of accepted frames agrees with the lane after every operation. |
| Conservation.Conserved | src/outbox.rs:95-216 | Over any run: emitted and queued frames are the accepted ones in acceptance order, first in, first out. |
| Conservation.ConservedFromStart | src/outbox.rs:95-216 | accepted = emitted + removed + queued for each object, in every reachable state. |
| Conservation.ControlConserved | src/outbox.rs:70-94 | Accepted control frames are exactly those emitted followed by those queued, in order. |
| Conservation.ClosedDrains | src/outbox.rs:186-216 | After close each call of `next` takes one frame until none is left. |
| Conservation.ClosedKeepsHistory | src/outbox.rs:118-123 | After close nothing is accepted and nothing dropped without a removal. |
| Conservation.DrainsAfterClose | src/outbox.rs:186-216 | Enough calls begun after close return every queued frame once, in order, and then nothing. |
| Wakeups.PushMakesNoRoom | src/outbox.rs:106-134 | A push never makes room for another waiting frame. |
| Wakeups.StepKeeps | src/outbox.rs:70-81 | A parked producer's frame does not fit; a parked writer's queues are empty: kept by every step. |
| Wakeups.NoneLost | src/outbox.rs:70-81 | No wakeup is lost in any reachable interleaving of producers, removals, close and writer. |
| Wakeups.SleepersHaveAWriter | src/outbox.rs:141-151 | A parked producer of an open outbox has a writer that can run and has something to send. |
| Wakeups.StepIsOps | src/outbox.rs:70-81 | Each step of producers and writer does to the queues one operation of the outbox or none, and a producer ends exactly when its frame is taken or the outbox is closed. |
| Wakeups.ExitLosesExactly | src/outbox.rs:186-216 | The writer leaves frames behind exactly when its write failed or it gave up on a pending notification. |
| Wakeups.RacingExitLosesAFrame | src/outbox.rs:211-214 | A concrete run in which a close racing with a push leaves a frame behind. |
| HostLedger.CallIdsDiffer | src/host.rs:65-67 | Call IDs of one session with different serials differ. |
| HostLedger.BeginKeeps | src/host.rs:62-82 | Registering a call keeps the ledger sound; the table never exceeds 16384. |
| HostLedger.PushCallKeeps | src/host.rs:87-89 | A request is queued only for its live, unsent call. |
| HostLedger.ResponseExactly | src/host.rs:95-118 | A response resolves exactly the live call with its ID, once, or adds one, saturating, to the ignored count. |
| HostLedger.PendingIsLive | src/host.rs:95-103 | A response that finds an entry finds a live call of the entry's owner. |
| HostLedger.SecondAnswerIgnored | src/host.rs:100-103 | A repeated response changes nothing but the ignored count. |
| HostLedger.EndKeeps | src/host.rs:32-41 | When a call ends by any path, no pending entry and no queued frame carries its ID. |
| HostLedger.CancelFindsNothing | src/host.rs:119-135 | After the guards have run, cancelling the object finds no pending call. |
| HostLedger.EmitKeeps | src/outbox.rs:186-216 | Each frame handed to the writer keeps the order of calls and cancels. |
| HostLedger.StepKeeps | src/host.rs:32-135 | Every step keeps the table, the account of how entries left it, and the wire order. |
| HostLedger.RunSound | src/host.rs:32-135 | All of this in every reachable state, each entry leaving the table exactly once. |
| HostLedger.EndedIsForgotten | src/host.rs:32-41 | An ended call is in no table and in no lane. |
| HostLedger.NeverReused | src/host.rs:65-67 | An ended call ID never lives again in the session. |
| HostLedger.CancelKeepsExactly | src/host.rs:119-135 | Cancelling an object's calls keeps the ledger sound exactly if none is pending or no control slot is free. |
| HostLedger.CancelBeforeDropMisorders | src/runtime.rs:308-335 | If cancellation came before the guards, a call could follow its own cancel: a concrete run. |
| HostCalls.Host.Register | src/host.rs:62-76 | The first block of `call` agrees with the ledger; LIMIT exactly when the table or the serials are used up. |
| HostCalls.Host.DropGuard | src/host.rs:32-41 | The guard's drop agrees with the ledger. |
| HostCalls.Host.Response | src/host.rs:95-118 | Routes a response as the ledger does and yields the call and its answer, which CallAnswers.AnswerExactly tells from the frame. |
| HostCalls.Host.CancelIfPending | src/host.rs:127-133 | One entry of a cancellation. |
| HostCalls.Host.CancelObject | src/host.rs:119-135 | Cancels exactly the object's pending calls, each once. |
| HostCalls.Collect | src/host.rs:120-126 | Lists exactly the object's pending calls, each once. |
| CallAnswers.AnswerExactly | src/host.rs:104-113 | The answer is the response's own result exactly if that is within the limits and there is no error; -2 exactly if the result breaks the limits; -5 exactly if the result is missing or an error is there. |
| CallAnswers.AnswerStep | src/host.rs:95-114 | Only a response with the call's ID gives a pending call its answer, which then never changes. |
| CallAnswers.AnswerComesFromResponse | src/host.rs:95-114 | In every run, the answer a live call holds is what a response received under its ID, while it was pending, says. |
| CallAnswers.RegisteredExactly | src/host.rs:62-75 | A call is entered under the next serial exactly if fewer than 16384 are pending and serials are left. |
| CallAnswers.CallsMove | src/host.rs:62-89 | A call begins unsent and unanswered exactly if it is entered, counts as sent exactly once the outbox took its request, and at its end is no longer live. |
| CallAnswers.CancelSays | src/host.rs:35-39 | A cancel is a host.cancel notification whose printed params.id is the call's ID. |
| CallAnswers.StepIsOps | src/host.rs:32-135 | Each step does to the shared outbox the operations its code names and no others, and the writer writes what `next` hands out. |
| Mailboxes.DeliverKeeps | src/runtime.rs:80-106 | Delivery keeps at most 32 entries and 32 KiB, each event within 16 KiB with an ID of at most 128 bytes, and recent IDs distinct. |
| Mailboxes.ReceiveKeeps | src/runtime.rs:107-116 | A receive takes the oldest event and keeps the bounds. |
| Mailboxes.QueueIsTailOfWindow | src/runtime.rs:97-103 | The queued events are the last of the 128 recent ones, whose IDs are pairwise distinct. |
| Mailboxes.ReceivedInOrder | src/runtime.rs:80-116 | Over any run, events are received in acceptance order, each at most once. |
| Mailboxes.DuplicateExactly | src/runtime.rs:81-89 | A delivery is a duplicate exactly when one of the last 128 accepted events has its ID. |
| Mailboxes.RemembersLong | src/runtime.rs:99-103 | An event, taken or not, is a duplicate until 128 later ones were accepted. |
| Mailboxes.VerdictExactly | src/runtime.rs:80-106 | The four verdicts in terms of the pending events: duplicate if the ID is recalled, bad if unnamed or over 16 KiB, full at 32 events or over 32768 printed bytes, and else accepted; each exactly then. |
| Mailboxes.EmptyTakes | src/runtime.rs:94-98 | An empty mailbox takes every event within 16 KiB with a new short ID. |
| Mailboxes.StepIsOp | src/runtime.rs:97-116 | Each step of the waiting machine is one operation of the log, and a poll parks exactly if nothing is pending. |
| Mailboxes.Mailbox.Deliver | src/runtime.rs:80-106 | The deques and the counter give the verdict and the new state of the log. |
| Mailboxes.Mailbox.Accept | src/runtime.rs:97-104 | Queueing and the sliding window keep the deques in step with the log. |
| Mailboxes.Mailbox.Receive | src/runtime.rs:107-116 | Pops the log's oldest pending event; the byte counter never underflows. |
| Mailboxes.Mailbox.Clear | src/runtime.rs:117-121 | Forgets queue, bytes and window. |
| Mailboxes.StepSound | src/runtime.rs:97-116 | A receiver parked without a notification has an empty mailbox: kept by every step. |
| Mailboxes.NoEventOverlooked | src/runtime.rs:97-116 | No event is overlooked in any reachable interleaving. |
| Lifecycle.CleanUp | src/runtime.rs:328-335 | The task's last stretch leaves no call and no frame of the object in the shared tables. |
| Lifecycle.StepKeeps | src/runtime.rs:147-182 | Every step of every object, stop, guest and writer keeps the system's invariant. |
| Lifecycle.RunSound | src/runtime.rs:275-365 | The invariant in every reachable state, for any number of objects and concurrent stops. |
| Lifecycle.LoadedHasProgram | src/runtime.rs:277-289 | A loaded object still has its program, and a task is spawned at most once. |
| Lifecycle.TerminalIsFinal | src/runtime.rs:313-327 | Stopped, Exited and Failed are never left. |
| Lifecycle.CancelMeansStopped | src/runtime.rs:308-316 | A cancel set before the task ends always ends in Stopped. |
| Lifecycle.NoResidue | src/runtime.rs:328-335 | A terminal object has no pending call, no queued frame and an empty mailbox. |
| Lifecycle.StopLeavesNothing | src/runtime.rs:340-355 | That stays true in every later state. |
| Lifecycle.StopIsNotStranded | src/runtime.rs:156-182 | A parked stop that cannot go on waits for a live task whose cancel token is set. |
| Lifecycle.RemembersForLife | src/runtime.rs:87-89 | Until an object ends, an accepted event, received or not, is a duplicate unless 128 later ones were accepted. |
| Lifecycle.NeverForgets | src/runtime.rs:97-121 | Until an object ends, its mailbox only adds to what it accepted and handed out. |
| Endings.StepTells | src/runtime.rs:147-182 | Every object's state after any step, told from the step: return, fault, cancelled poll, stop or start of this object, and otherwise unchanged. |
| Endings.EndsExactly | src/runtime.rs:308-327 | A step ends an object as Exited exactly if its uncancelled guest returned in it, as Failed exactly if it faulted, as Stopped exactly if its poll found the cancel token set or it was stopped while loaded. |
| Endings.EndedBecause | src/runtime.rs:308-327 | In every run, an object in a final state was put there by such a step. |
| Endings.EndIsAnnounced | src/runtime.rs:328-335 | The end of a task queues its notification exactly if the outbox is open and a control slot is free. |
| Endings.StopReleases | src/runtime.rs:174-181 | A stop that returned has released the program, and the join handle was taken. |
| Endings.EventsMove | src/runtime.rs:147-155 | An event is added exactly to a loaded, starting or running object whose mailbox accepts it; a receive takes one pending event if there is one. |
| Endings.RecordsChange | src/runtime.rs:250-263 | A load adds a loaded object with an empty mailbox, and a cancel sets the token and nothing else. |
| CallFrames.Steady | src/host.rs:90-135 | Blocks that write nothing and leave the surviving calls' requests alone keep every request traced. |
| CallFrames.PushTraced | src/host.rs:86-89 | Queueing its request moves a call from unsent to queued, once. |
| CallFrames.EndTraced | src/host.rs:32-41 | The end of a call leaves every other call's request where it was, and its own unwritten or written once. |
| CallFrames.EmitTraced | src/outbox.rs:186-216 | The writer takes a request from its lane to the wire, and no other request moves. |
| CallFrames.StepTraced | src/runtime.rs:275-365 | Every step of the system keeps each request in its place. |
| CallFrames.RunTraced | src/host.rs:55-135 | In every reachable state a sent live call's request is once in its owner's lane or on the wire, an unsent one nowhere, an ended one at most once on the wire. |
| CallFrames.WireStaysOrdered | src/host.rs:32-135 | In every run of the whole system each request is written at most once, each cancel at most once, and no request after its own cancel. |
| CallFrames.CancelsUnwrittenExactly | src/host.rs:32-41 | The end of a call queues a cancel exactly if it is pending, sent and a control slot is free; for a request never written exactly if it also still waits in its lane. |
| CallFrames.CancelOfUnwrittenCall | src/host.rs:142-153 | A run of the system, from the load of an object on, that writes the cancel of a request and not the request. |
| ObjectMap.ObjectIdsDiffer | src/runtime.rs:249 | Object IDs of different serials differ. |
| ObjectMap.InsertIsFresh | src/runtime.rs:226-231 | A load never inserts over another object, however many loads are under way: its ID was never used before. |
| ObjectMap.StepRefines | src/runtime.rs:249-265 | To the system of objects every step of the map is one of its own steps, or none. |
| ObjectMap.ReturnedHasEnded | src/runtime.rs:340-355 | A stop returns only when its object has ended. |
| ObjectMap.StepKeeps | src/runtime.rs:349-351 | Whatever leaves the map has ended before: kept by every step. |
| ObjectMap.RunSound | src/runtime.rs:210-355 | The map agrees with the system in every reachable state. |
| ObjectMap.UnloadedIsGone | src/runtime.rs:340-355 | An unloaded object never comes back under its ID, and nothing of it remains from then on. |
| ObjectMap.UnloadUnlists | src/runtime.rs:349-351 | An unload whose stop returned takes its object out of the map and no other. |
| ObjectMap.WaitingStaysListed | src/runtime.rs:346-350 | While its stop waits, an unload leaves the map alone. |
| ObjectMap.OthersStayListed | src/runtime.rs:349-354 | Nothing but an unload of an object takes it out of the map, a plain stop in particular, and only a load adds one. |
| ObjectMap.UnloadForgets | src/runtime.rs:340-355 | After an unload whose stop returned, its object is unlisted and without trace in every later state. |
| Shutdown.StepKeeps | src/runtime.rs:356-365 | While the shutdown runs, every listed object is still to be stopped or has ended: kept by polls, other stops and its own. |
| Shutdown.StopCleansNothing | src/runtime.rs:361-363 | Stopping an object without the cleanup of a stop request leaves nothing behind: there is nothing to clean. |
| Shutdown.RunSound | src/runtime.rs:356-365 | All of this in every reachable state. |
| Shutdown.ShutdownLeavesNothing | src/runtime.rs:356-365 | Once the last object is stopped, all objects have ended, and no call, pending entry or object output is left. |
| Shutdown.BeginTellsAll | src/runtime.rs:357-360 | A shutdown tells every listed object to stop, and no other, before it waits for any. |
| ObjectMap.SystemKeeps | src/runtime.rs:275-365 | Whatever the system does, no object goes and what had ended stays ended. |
| GuestObjects.GuestObject.constructor | src/runtime.rs:250-263 | A loaded object starts fresh, with its program. |
| GuestObjects.GuestObject.Deliver | src/runtime.rs:147-155 | Only loaded, starting and running objects accept events. |
| GuestObjects.GuestObject.Start | src/runtime.rs:275-339 | Starts a loaded object and no other, as the system's step does. |
| GuestObjects.GuestObject.BeginStop | src/runtime.rs:156-182 | A stop up to its first wait is the system's stop step on this object and the host's tables. |
| GuestObjects.GuestObject.Join | src/runtime.rs:174-178 | Only one of several stops takes the join handle; the others finish. |
| GuestObjects.GuestObject.Finish | src/runtime.rs:179-181 | Program, mailbox, pending calls and lane of the object are given up together. |
| GuestObjects.GuestObject.ResumeStop | src/runtime.rs:166-182 | A woken stop looks at the state again, as the system's step does. |
| GuestObjects.GuestObject.EndTask | src/runtime.rs:313-335 | The task's cleanup, in the program's order, is the system's last step of the task. |
| GuestObjects.GuestObject.Suspend | src/runtime.rs:307-312 | A poll that leaves the guest pending sets Running on the first poll. |
| GuestObjects.GuestObject.Poll | src/runtime.rs:308-327 | A poll prefers cancellation and otherwise follows the guest's result, as the system's step does; which result ends in which state: Endings.EndsExactly. |
| Framing.ReadFrame | src/protocol.rs:171-195 | The incremental read returns what the byte stream alone determines, however buffers cut it, and consumes exactly that. |
| Framing.ReadLines | src/protocol.rs:171-195 | Repeated reads return all lines of at most 256 KiB and then the same end or error. |
| AbandonedReads.ReadUnlessDropped | src/protocol.rs:171-195 | A read that is dropped after some buffers has lost at least a byte of each and no newline; one that completes lost nothing. |
| AbandonedReads.HearLines | src/protocol.rs:236-246 | What the loop's reads return, abandoned ones among them, is what the losses leave to hear. |
| AbandonedReads.RestOfLine | src/protocol.rs:184-193 | The rest of a line whose start was lost passes for a line. |
| AbandonedReads.HeardExactly | src/protocol.rs:236-246 | The loop hears the lines and the end of its input exactly if every loss was in a line that fails the same way without it. |
| AbandonedReads.IntactExactly | src/protocol.rs:236-246 | Of input whose lines fit and end cleanly, all is heard exactly if no abandoned read consumed a byte. |
| AbandonedReads.RequestMangled | src/protocol.rs:236-246 | A loss of one byte that turns a line into another one. |
| Framing.Reader.Consume | src/protocol.rs:189-190 | Consuming removes a prefix of the stream. |
| Framing.LinesAreFrames | src/protocol.rs:184-193 | Every line read is a frame, and lines are a prefix of the stream, the whole of it at a clean end. |
| Framing.NextLineExactly | src/protocol.rs:171-195 | The next line is the first up to and with a newline within 262144 bytes; too long, broken, truncated and the end each exactly in their own case. |
| Framing.FramesReadBack | src/protocol.rs:171-195 | Frames laid end to end are read back one by one. |
| Framing.EncodeIsFrame | src/outbox.rs:54-61 | Encoding yields one line within the limit. |
| Framing.ControlIsFrame | src/outbox.rs:62-69 | So does a control value, oversized or not. |
| Framing.EncodedExactly | src/outbox.rs:54-61 | A frame is the printed value and a newline, of at most 262144 bytes, and encoding fails exactly beyond. |
| Framing.EncodedReadBack | src/outbox.rs:54-69 | The concatenated output of the encoder splits back into exactly its frames. |
| Framing.OversizeKeepsRequest | src/outbox.rs:62-69 | An oversized reply to an admitted ID is replaced by one that fits and carries the same ID. |
| Messages.ClassifyMeaning | src/protocol.rs:246-277 | Each line is exactly one of response, notification, request or refused, in the standard's terms, with its ID, method and parameters or its error code. |
| Messages.KindsExclude | src/protocol.rs:252-270 | No line is both a response and a call, or both a notification and a request. |
| Messages.NumberedRequestRefused | src/protocol.rs:263-267 | A request with a numeric ID is refused with null. |
| Messages.ResponseYieldsExactly | src/host.rs:104-113 | A routed response yields a value exactly if it has a valid result and no error; with both its call ends with an error. |
| Messages.BothIsRouted | src/protocol.rs:256-258 | A line with an error and a result is routed as a response, whatever they are. |
| Messages.ResponseFields | src/protocol.rs:163-168 | A reply has the version, the ID, and exactly one of result and error. |
| Messages.ResponseIsResponse | src/protocol.rs:256-258 | What one side builds as a reply the other side takes for a response. |
| Framing.ErrorReplyFits | src/protocol.rs:250-278 | An error reply fits a frame, whatever its message of at most 4096 bytes and its short ID say. |
| Messages.GoodbyeFits | src/protocol.rs:133-136 | The acknowledgement of a shutdown is never too large to send. |
| Messages.RefusalsBrief | src/protocol.rs:250-278 | Every refusal of the loop is within the bounds that make it fit. |
| Admission.RefusedKeeps | src/protocol.rs:250-278 | A refusal answers its own line, or the session ends. |
| Admission.SpawnedKeeps | src/protocol.rs:276-289 | A request taken on adds one ID, takes one permit unless it compiles, and owes its reply to its own line. |
| Admission.QuietKeeps | src/protocol.rs:256-270 | Responses go to the host in order; notifications owe nothing. |
| Admission.AnswerFits | src/outbox.rs:62-69 | However large a result, the reply that is queued is a response object with the request's ID. |
| Admission.AnsweredKeeps | src/protocol.rs:283-289 | An answer is queued before its ID and permit are given back. |
| Admission.ObservedKeeps | src/outbox.rs:70-216 | Whatever else uses the outbox, queued replies keep their places. |
| Admission.StepKeeps | src/protocol.rs:236-294 | Every step keeps IDs, permits, debts and replies in agreement. |
| Admission.RunSound | src/protocol.rs:230-294 | All of this in every reachable session. |
| Admission.UnansweredAreTasks | src/protocol.rs:280-289 | While the session lasts, the requests without a queued reply are exactly the live tasks. |
| Admission.ExactlyOneReply | src/protocol.rs:246-289 | A line that calls for a reply gets exactly one, queued with its ID, or is still being handled; no other line gets any. |
| Admission.EchoExactly | src/protocol.rs:263-267 | The queued reply to a line with a method and an ID carries that ID exactly if it is a short string or null. |
| Admission.DuplicateExactly | src/protocol.rs:272-275 | An ID counts as a duplicate exactly while an earlier request with it is unanswered. |
| Admission.BusyExactly | src/protocol.rs:276-279 | At most 48 requests other than compilations are in progress, and only at 48 is one refused. |
| Admission.ReusedAfterReply | src/protocol.rs:200-204 | A request is taken on only after the replies to all earlier requests with its ID were queued. |
| Admission.LeavesExactly | src/protocol.rs:250-278 | Reading a line ends the session exactly when it is answered at once and 64 control frames are queued. |
| Admission.StopKeeps | src/protocol.rs:285-288 | An answer that stops the loop is the queued acknowledgement of a shutdown request, never a refusal or another error. |
| Admission.StopsAnswered | src/protocol.rs:285-293 | In every reachable session the loop is told to stop only after the acknowledgement of a shutdown request was queued. |
| Replies.AnswerSaysResult | src/protocol.rs:283-287 | The reply to a request that was handled has the handler's own value as result, or the handler's code, kind and message as error, if it fits a frame, and RESPONSE_TOO_LARGE exactly if it does not. |
| Replies.RefusalSaysWhy | src/protocol.rs:248-279 | Any other reply says why: parse error, invalid request, duplicate ID or busy. |
| Replies.RunExplained | src/protocol.rs:246-289 | In every reachable session each reply is one of these two. |
| Replies.RequestOutcome | src/protocol.rs:268-289 | With a free control slot, a request is refused as a duplicate exactly while an earlier one with its ID is unanswered, else as one too many exactly at 48 unless it compiles, and else is taken on with its own ID, method and parameters. |
| Replies.AnswerRecords | src/protocol.rs:283-289 | While the outbox is open, the end of a task queues exactly its reply if a slot is free, and waits otherwise. |
| Replies.TakenIsKept | src/protocol.rs:283-289 | While the session lasts, a request taken on is handled until its own answer, which then stays. |
| Replies.ShutdownStopsReading | src/protocol.rs:285-288 | In every reachable session the loop is told to stop exactly if an sf.shutdown succeeded, and reads no line from then on. |
| Replies.LeftHasNoTasks | src/protocol.rs:294-295 | A loop that was left has no task, no ID and all 48 permits. |
| Replies.ResponseSays | src/protocol.rs:163-168 | A built reply has the value as its result and no error, or the code, kind and message in its error and no result. |
| Admission.Loop.constructor | src/protocol.rs:230-233 | A session starts with no IDs and all 48 permits. |
| Admission.Loop.TryFrame | src/outbox.rs:87-93 | Queues an encoded reply exactly when a slot is free, and records its place. |
| Admission.Loop.Release | src/protocol.rs:200-204 | The end of a task gives back its ID and its permit. |
| Admission.Loop.TryControl | src/outbox.rs:83-94 | Queues the reply exactly when it encodes and a slot is free. |
| Admission.Loop.Refuse | src/protocol.rs:250-278 | Queues the refusal or leaves the loop. |
| Admission.Loop.Receive | src/protocol.rs:246-290 | The loop's branches, in the program's order, do what the session's operation says. |
| Admission.Loop.Admit | src/protocol.rs:271-289 | Duplicate, busy or taken on, with IDs, permits and tasks changed in place. |
| Admission.Loop.Answer | src/protocol.rs:283-289 | One pass of a task's reply, with what its end gives back. |
| Admission.Loop.Leave | src/protocol.rs:294-295 | Leaving aborts every task, which gives back all IDs and permits. |
| Paging.PageCovers | src/protocol.rs:94-108 | A page holds exactly the identifiers after its cursor and up to the next, and is full when there is a next. |
| Paging.ListedAscends | src/protocol.rs:97-108 | Following cursors yields strictly increasing identifiers, whatever changes between pages. |
| Paging.ListedExactly | src/protocol.rs:97-108 | A listing that ends holds an identifier exactly if the object was there at the one request whose page covers it. |
| Paging.PresentThroughout | src/protocol.rs:97-108 | An object present throughout appears exactly once, one never present not at all. |
| Paging.PagesAreTheWhole | src/protocol.rs:97-108 | On an unchanging map, k pages list the first k times limit objects, and the listing ends exactly once those are all. |
| Json.DigitsRoundTrip | src/host.rs:67 | Decimal serials read back. |
| Json.PrintOneLine | src/outbox.rs:54-61 | Printed values hold no newline. |
| Json.PartsWithin | src/helpers.rs:235-253 | A value reached by key or index is no larger by any measure. |
| JsonLimits.Visit | src/helpers.rs:82-93 | The early-exit walk accepts exactly within the remaining depth and count, and visits at most one node past the limit. |
| JsonLimits.VisitItems | src/helpers.rs:89 | The same for the items of an array. |
| JsonLimits.VisitMembers | src/helpers.rs:90 | The same for the members of an object. |
| JsonLimits.CheckValue | src/helpers.rs:82-95 | Accepts exactly the values of depth at most 32, at most 4096 nodes and 16 KiB, in at most 4097 visits. |
| JsonLimits.ValidInherited | src/helpers.rs:82-95 | Every part of a valid value, however deep, is valid. |
| GuestHandles.EnvelopeModest | src/runtime.rs:90-93 | An admitted event envelope has depth at most 33 and at most 4099 nodes. |
| GuestHandles.EnvelopeValidExactly | src/helpers.rs:82-95 | An event within 16 KiB is a valid value exactly if its payload has depth at most 31 and at most 4093 nodes. |
| GuestHandles.DeepEventAdmitted | src/runtime.rs:90-93 | An admitted event that is no valid value. |
| GuestHandles.PerformSound | src/helpers.rs:63-80 | Every helper keeps at most 128 handles, positive as signed numbers, each within the bounds on what a handle holds; what it brings in is within its own bounds, as Guests proves of every value handed over. |
| GuestHandles.PerformTouches | src/helpers.rs:152-381 | A helper adds at most the handle it returns, drops at most the one named, rewrites only a set or push target, and changes nothing on failure. |
| GuestHandles.SetReadsBack | src/helpers.rs:328-347 | After a set the key reads back as the source and every other key as before. |
| GuestHandles.SetKeepsOrder | src/helpers.rs:340 | A set keeps member keys in strictly ascending order and adds nothing but the pair. |
| GuestHandles.PerformOrdered | src/helpers.rs:222-381 | Every helper keeps all objects in the table, however nested, in key order. |
| GuestHandles.PushReadsBack | src/helpers.rs:348-366 | After a push the last item is the source and every other item as before. |
| GuestHandles.ValuesHandedOut | src/helpers.rs:149-151 | Configuration, events, answers and scalars become a new handle with just that value. |
| GuestHandles.NumberHandedOut | src/helpers.rs:322-324 | A number becomes a new handle whose literal reads back as it, sign included. |
| GuestHandles.ParsedHandedOut | src/helpers.rs:222-234 | What is parsed is kept exactly if it is within the limits, INVALID if it is no value and LIMIT otherwise; texts and bytes likewise. |
| GuestHandles.PartHandedOut | src/helpers.rs:235-253 | A key or index hands out that member or item exactly if it is there, and is INVALID otherwise. |
| GuestHandles.DumpHandedOut | src/helpers.rs:367-374 | A dump hands out the printed value as bytes; dropping a handle removes it and no other. |
| GuestHandles.StoredExactly | src/helpers.rs:328-366 | A push or set stores the grown value exactly if it is within the limits, and which error it gives otherwise. |
| Guests.ReceivedIsAdmitted | src/runtime.rs:80-116 | An event received from the mailbox is an envelope within 16 KiB around a valid payload. |
| Guests.RequestsChecked | src/protocol.rs:110-127 | An event is passed on exactly if its topic has at most 128 bytes and its payload is within the limits; a load is taken exactly if its configuration is within them (src/runtime.rs:216-218). |
| Guests.AnswerIsAdmitted | src/host.rs:104-113 | An answer handed to a guest is a valid value, whatever the host replied. |
| Guests.StepSound | src/helpers.rs:20-74 | Bounded tables of bounded, key-ordered values, no handle in two of them: kept by every load, delivery, event, answer and helper. |
| Guests.RunSound | src/helpers.rs:20-74 | All of this in every reachable state, with nothing assumed of events and answers but that the parser builds objects in key order. |
| Guests.NeverRevived | src/helpers.rs:20-74 | A handle a guest dropped or never held is absent from its table forever. |
| Guests.EventLostExactly | src/helpers.rs:161-175 | A received event leaves the mailbox and ends in no table exactly if the table is full or the counter used up; delivering it again is a duplicate either way. |
| Guests.LossHappens | src/helpers.rs:161-175 | A run that loses an event to 128 held handles. |
| GuestHandles.GuestContext.constructor | src/helpers.rs:40-62 | A guest starts with no handles. |
| GuestHandles.GuestContext.Insert | src/helpers.rs:63-74 | Insertion in place agrees with the table's operation, counter included. |
| GuestHandles.GuestContext.Drop | src/helpers.rs:152-160 | Drops the named handle or reports INVALID. |
| GuestHandles.GuestContext.ParseText | src/helpers.rs:222-234 | Keeps a parsed value exactly if it is valid. |
| GuestHandles.GuestContext.ReadMember | src/helpers.rs:235-241 | A member becomes a new handle. |
| GuestHandles.GuestContext.ReadItem | src/helpers.rs:242-253 | An item becomes a new handle. |
| GuestHandles.GuestContext.DumpText | src/helpers.rs:367-374 | The printed value becomes a new byte handle. |
| GuestHandles.GuestContext.Set | src/helpers.rs:328-347 | Changes the target alone, or nothing. |
| GuestHandles.GuestContext.Push | src/helpers.rs:348-366 | Changes the target alone, or nothing. |
| RpcErrors.Message | src/error.rs:10-24 | A long message is cut to the most whole characters that fit 4096 bytes; a short one is kept. |
| RpcErrors.BoundaryIsFloor | src/error.rs:13-18 | Character boundaries of encoded text are exactly the ends of whole characters. |
| RpcErrors.FloorIsPrefix | src/error.rs:13-19 | The whole characters below a position are a prefix, and the next one crosses it. |
| KeywordMatcher.CandidateFalls | examples/web_keyword.c:38 | Falling back along the failure table loses no possible match. |
| KeywordMatcher.CandidateEnds | examples/web_keyword.c:38-39 | Where the fallback stops, extending gives the longest match. |
| KeywordMatcher.OccursGrows | examples/web_keyword.c:40 | One more byte adds an occurrence exactly if a whole match ends with it. |
| KeywordMatcher.LongestBorderIsMatch | examples/web_keyword.c:14-19 | The longest border of a keyword prefix is its longest match against itself, one byte on. |
| KeywordMatcher.Advance | examples/web_keyword.c:38-39 | One byte of the automaton keeps the longest match; its fallback steps are paid by the match length. |
| KeywordMatcher.BuildTable | examples/web_keyword.c:14-19 | Every entry is the length of the longest proper border, in fewer fallback steps than keyword bytes. |
| KeywordMatcher.ScanChunk | examples/web_keyword.c:37-41 | The scan of a chunk finds the keyword exactly if it occurs in the text so far, at the end of its first occurrence. |
| KeywordMatcher.ReadChunk | examples/web_keyword.c:34-41 | The same through the fixed buffer, with the bytes looked at and the steps they pay for. |
| KeywordMatcher.OffsetsIncrease | examples/web_keyword.c:45-52 | The offsets a pass asks for increase, and stopping early only leaves some out. |
| KeywordMatcher.AskedExactly | examples/web_keyword.c:26-53 | A pass asks again after a page exactly if its data fits, it is not done and its next offset is greater, and asks for that offset. |
| KeywordMatcher.EndsBecause | examples/web_keyword.c:30-36 | A pass that does not find the keyword is refused exactly if its last reply is DENIED or INVALID, and unfinished exactly if no reply is left. |
| KeywordMatcher.PassOffsetsMean | examples/web_keyword.c:43-52 | Each offset asked for after the first is the next of the page before it, which is not done; a pass ends exactly because its last reply is refused, unreadable or done or does not advance. |
| KeywordMatcher.TextIsData | examples/web_keyword.c:34-41 | The text a pass searches is the data of the pages it asked for, in order. |
| KeywordMatcher.StopsInChunk | examples/web_keyword.c:40-42 | A pass that finds the keyword asks for no page past the one its first occurrence ends in. |
| KeywordMatcher.NotifiedExactly | examples/web_keyword.c:56-61 | The exit code is 0 exactly if the first answer that is no error to retry is a success, and 3 exactly if it is DENIED or INVALID. |
| KeywordMatcher.ExitAt | examples/web_keyword.c:20-64 | The first pass that finds the keyword or is refused decides the exit. |
| KeywordMatcher.RunsOn | examples/web_keyword.c:20-64 | Without such a pass the guest runs on. |
| KeywordMatcher.ReadPass | examples/web_keyword.c:24-53 | A pass finds the keyword exactly if it occurs in the concatenated chunks, stops where its first occurrence ends, follows only pages that are not done to a greater offset, ends unfound only on a reply that ends it, and takes at most one fallback step per byte looked at. |
| KeywordMatcher.WatchPage | examples/web_keyword.c:6-65 | The exit code for every keyword, page and answer of the host. |

## Left out

- The eBPF loader, its JIT, preemption and memory checks: a foreign library; a guest is an arbitrary sequence of helper calls with at most one posted future.
- `src/build` and the TinyCC guest: a compilation appears only as a request that needs no permit.
- Standard input and output, signals, `src/main.rs`, `build.rs`, packaging and benchmarks: plumbing around the loop; a signal is the step that leaves it.
- Parsing of JSON, base64, SHA-256 and the session's randomness: parameters. Printing of floating-point numbers: a number is its literal.
- Durations and clock readings: a timeout is a step that may happen at any time; the log window of `h_log` is left out with them.
- The methods behind `Service.handle` other than the listing: the result of a request is arbitrary, and parameter decoding and `sf.initialize` would only add case checks.
- Replies to a lookup of a missing ID: an error, or success for `unload`; they change nothing. Validation of what is loaded.
- Progress of `Runtime::shutdown`: that each of its stops returns in the end depends on the scheduler; Lifecycle.StopIsNotStranded says that the guest's next poll releases it.
- Fairness among producers blocked on space: the code wakes all of them and promises no order.
- `h_kind`, `h_bool`, `h_i64`, `h_equals`, `h_len`, `h_read` and the memory helpers: they read one handle or copy bytes.
- `h_call`'s capability check: exact equality of top-level arguments, one line.
- Handle ownership in `examples/web_keyword.c` and the other example guests, `sdk/spinfoam.h`.
- The program's object, mailbox and host are reference-counted cells; the classes here hold the same fields but no reference counts.
- Messages.RefusalsBrief: the parser's message is taken as already cut to 4096 bytes, which is what RpcErrors.Message proves of every error.
- Admission.StopsAnswered: says nothing of a session whose outbox was already closed, in which no reply can be queued.
- Admission.ExactlyOneReply: a session that is closing owes nothing more, as the protocol allows.
