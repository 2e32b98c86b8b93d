# Verified model of stackplz: the KPM control plane and the eBPF argument interpreter

This project models, in Dafny, the parts of stackplz whose correctness rests on protocols and state machines, and proves what they promise for all inputs, all runs and all interleavings.

The kernel module (`kpm/core`) and its client (`user/kpm`):

- `Crc32` is the checksum loop. It is proved equal to the table-driven form of section 8 of RFC 1952, and to detect every change confined to four neighbouring bytes. `CrcRemainder` proves that it is the remainder of the message divided by the generator polynomial of that standard.
- `EventRing` is the per-CPU event ring as a class whose calls run one at a time, with loss records. `RingSteps` is the same ring with one producer per CPU and one consumer interleaved at every shared-memory access, and `RingProgress` proves that its calls end and deliver.
- `Breakpoints` and `DebugControl` are breakpoint requests and the controller that borrows a hardware debug slot, takes hits and steps, and gives the slot back. Every register access may fail and foreign code may change registers between calls; a log of the accesses shows that only a slot seen free is written.
- `TaskBinding` is the sequence-locked task binding, with its words stored and loaded one at a time by any number of threads. `TaskOutcomes` says what each call answers.
- `MapsSnapshot` is the reader/writer protocol around the maps snapshot, with every rendered buffer and retained task tracked to its release. `MapsOutcomes` says what each call answers. `MapsTransfer` is the client's chunk loop, proved against any server and against that protocol.
- `Numerals`, `Tokens` and `Commands` are the control language: the module's parser and the client's printers. `Refusals` says which error a line is refused with.

The argument reader (`src`, `user/config`, `user/argtype`):

- `ArgBuffer` is the event's argument buffer as a class over an array.
- `ArgVm` is the op interpreter. Every answer of a memory-reading helper is a parameter that may change from step to step.
- `ArgLoop` proves how often a loop region runs its body, from the op that sets the count on.
- `ArgEvents` says what one event's run leaves behind for the next.
- `ArgKinds`, `ArgArrays` and `ArgPoints` give the argument types, arguments and filters of a probe point a meaning in terms of memory, and prove that the ops listed for them, run by the interpreter, save and judge by that meaning.
- `ReadExpr` and `ReadText` take a read expression from its text through the op manager to the address the interpreter saves.

`Common` holds what the modules share. Fixed-width integers are `nat` with explicit bounds or remainders. Concurrent code is a state machine whose steps are single accesses to shared memory, in any order the scheduler likes. Clocks, memory contents, register accesses, task contents and backend results are parameters or nondeterministic choices.

Where the code and its comments or names suggest different things, the model follows the code:

- A loop region entered with break count zero runs its body once (`ArgLoop.ForBreakRuns`).
- A second register in a read expression is not added to the address: the result is twice that register, or zero after a minus (`ReadExpr.SecondRegisterExpression`, `ReadText.SecondRegisterFails`).
- A filter written `gt` or `greater` keeps the values below its number, and one written `lt` or `less` those above it (`ArgPoints.DroppedByValue`).
- Between events only the first eight bytes of the interpreter's context are cleared, because the size given is that of a pointer. A run whose last step fetched a fused op leaves its post-code pending (`ArgEvents.LeftPending`); a point of 22 plain registers does so in every second event (`ArgEvents.CrowdedEvent`, `ArgEvents.ThirdEventShifted`). The next event runs the leftover first. It always costs a step of the budget, a leftover save shifts the numbers of the event's records, and a leftover filter or register read may end the event (`ArgEvents.LeftoverFirst`, `ArgEvents.OwnFirstRecord`).

## Model

| member | source | states |
|---|---|---|
| `Crc32.ChecksumIeee` | kpm/core/crc32.c:5-24 | the nested loops compute the fold of the bit-step function over all bytes, from all ones, complemented at the end |
| `Crc32.BitStepLinear` | kpm/core/crc32.c:17-21 | one shift-and-conditional-xor step is linear over exclusive or |
| `Crc32.BitStepInjective` | kpm/core/crc32.c:17-21 | no two registers step to the same register |
| `Crc32.FoldIsWordXor` | kpm/core/crc32.c:13-22 | folding up to four bytes into a register is the same as adding the packed word first and then shifting it through |
| `Crc32.BurstDetected` | kpm/core/crc32.c:5-24 | two byte strings of one length that differ only within four neighbouring bytes have the same checksum exactly when they are equal |
| `Crc32.TableFoldIsFold` | kpm/core/crc32.c:13-22 | the bitwise loop computes the same as a lookup of 256 precomputed entries per byte |
| `CrcRemainder.MessageBytes` | kpm/core/crc32.c:13-22 | byte i of the data is the number written by bits 8i to 8i + 7 of the message that is divided, least significant first |
| `CrcRemainder.RemainderUnique` | kpm/core/crc32.c:5-24 | a message has at most one remainder of 32 bits |
| `CrcRemainder.ChecksumIsRemainder` | kpm/core/crc32.c:5-24 | a word is the checksum of a message exactly when its complement is the remainder of the message, with 32 zero bits appended and then the first 32 bits complemented, divided over exclusive or by the generator with exponents 32, 26, 23, 22, 16, 12, 11, 10, 8, 7, 5, 4, 2, 1, 0 |
| `EventRing.DiscardThrough` | kpm/core/ring.c:108-123 | acknowledging leaves exactly the live events numbered above the cursor, in order, and touches no counter |
| `EventRing.DiscardAll` | kpm/core/ring.c:146-147 | acknowledging on every CPU leaves exactly the unacknowledged part of the global backlog |
| `EventRing.Ring.constructor` | kpm/core/ring.c:63-67 | zeroed memory is a valid ring with nothing waiting and nothing lost |
| `EventRing.Ring.Publish` | kpm/core/ring.c:28-61 | appends the event, stamped and numbered with the next sequence number, to the backlog; refuses exactly when the CPU's ring is full or numbers have run out; the busy-slot exit is unreachable |
| `EventRing.Ring.ReportLoss` | kpm/core/ring.c:86-98 | a loss record carries the pending and total losses and settles the books: pending plus reported losses equal the refusals |
| `EventRing.Ring.Push` | kpm/core/ring.c:69-106 | the exact condition of every result code, what is appended for each (with a loss record first when losses are pending and two slots are free), and the count of refusals |
| `EventRing.Ring.Select` | kpm/core/ring.c:150-179 | the scan finds the oldest event of the backlog, whichever CPU holds it, and delivers it |
| `EventRing.Ring.PopAfter` | kpm/core/ring.c:125-180 | the exact condition of every result: stale, out of range, overflow, nothing only when nothing waits, otherwise delivery of the very next event after the cursor; retry is unreachable |
| `EventRing.Ring.BacklogBounded` | kpm/core/ring.c:69-106 | at most eight times sixty-four events wait |
| `EventRing.AccountLoss` | kpm/core/ring.c:86-98 | each loss record's total equals the sum of all losses reported up to it |
| `EventRing.HeadOfQueue` | kpm/core/ring.c:152-169 | the oldest event of the backlog is first in its own CPU's queue and is the one that carries the expected number |
| `RingSteps.RunInv` | kpm/core/ring.c:5-180 | every step of every producer and of the consumer, interleaved at each access, keeps the ring's invariant |
| `RingSteps.NoSpuriousExit` | kpm/core/ring.c:37-42 | in no interleaving does a producer that saw room find its slot taken or its room gone, nor the consumer see a commit word change under its copy |
| `RingSteps.DeliveriesWhole` | kpm/core/ring.c:163-179 | every delivered event is, word for word, the event published under that number: no torn reads |
| `RingSteps.NothingLost` | kpm/core/ring.c:28-61 | every number handed out is still being written, or waits whole in its lane, or has been passed by the consumer's cursor |
| `RingSteps.LossesAccounted` | kpm/core/ring.c:80-105 | on an idle lane the refused pushes are exactly the pending ones plus the sum of what the ring's own loss records of that CPU announce, and each of those records carries the running total |
| `RingSteps.DeliveredInOrder` | kpm/core/ring.c:125-180 | a consumer that acknowledges no more than it received gets exactly events 1, 2, ..., k, in every interleaving |
| `RingSteps.NothingSkipped` | kpm/core/ring.c:125-180 | for such a consumer an event leaves its lane only by being delivered |
| `RingProgress.PollDelivers` | kpm/core/ring.c:125-180 | in every interleaving, if the event after the cursor is published when a poll begins with a cursor that is not stale, that poll delivers it, whichever CPU holds it |
| `RingProgress.OldestDelivered` | kpm/core/ring.c:146-179 | in every interleaving, the same from the middle of a poll: once the cursor is acknowledged, the oldest event of a lane that is next after the cursor is delivered |
| `RingProgress.PollEnds` | kpm/core/ring.c:125-180 | in no interleaving is a poll still at work after its first step and 2092 more of its own |
| `RingProgress.PushPublishes` | kpm/core/ring.c:69-106 | in every interleaving, a push on a full lane is refused and counted; any other takes a number for its event, after one for a loss record exactly when losses are pending and both fit, and returns with the event published, unless numbers have run out |
| `RingProgress.PushEnds` | kpm/core/ring.c:69-106 | in no interleaving is a push still at work after 122 steps of its own |
| `Breakpoints.ChecksAgree` | kpm/core/debug.c:35-80 | the client's check, the parser's check and the controller's check accept the same requests: user-space ranges inside one aligned doubleword, or one aligned instruction |
| `Breakpoints.MaskSelects` | kpm/core/debug.c:65-67 | the byte mask selects exactly the watched bytes of the doubleword |
| `Breakpoints.WatchCoversRange` | kpm/core/debug.c:57-80 | the programmed value and mask cover exactly the requested byte range |
| `DebugControl.WatchClaimsSelected` | kpm/core/debug.c:492-513 | an armed watchpoint claims a fault exactly when the load or store bit for its direction is set in the programmed control word and the fault address lies on a byte the programmed value and mask select |
| `DebugControl.BreakClaimsInstruction` | kpm/core/debug.c:477-490 | an armed breakpoint claims exactly the aligned instruction it is programmed for |
| `Breakpoints.ControlFields` | kpm/core/debug.c:35-80 | enable, privilege, access and byte-select fields read back from their own bits |
| `Breakpoints.AccessDirections` | kpm/core/debug.c:35-80 | the control word makes the hardware report loads exactly for read and read-write requests, stores exactly for write and read-write ones, and selects four bytes for execution |
| `DebugControl.WordsDetermined` | kpm/core/debug.c:160-176 | comparing the modelled fields of a control, monitor or status word is comparing the whole word |
| `DebugControl.DebugCpu.FindSlot` | kpm/core/debug.c:124-158 | finds the highest slot that is neither owned nor enabled, or reports that there is none |
| `DebugControl.DebugCpu.LiveImage` | kpm/core/debug.c:160-176 | reads the slot's owner, value and control as they are |
| `DebugControl.DebugCpu.RollbackArm` | kpm/core/debug.c:178-205 | either the saved slot contents are back and the state is blank, or the state is quarantined |
| `DebugControl.DebugCpu.ProgramSlot` | kpm/core/debug.c:256-279 | programming either leaves exactly the programmed slot with debug events enabled, or ends blank or quarantined; blank means untouched when failed writes have no effect |
| `DebugControl.DebugCpu.ArmCurrent` | kpm/core/debug.c:207-279 | an accepted arm borrows the highest free slot, saves what was there and programs it; a refused one changes nothing; only free slots are written; it fails only for a bad target or request, a controller or bank in use, or a register operation that failed |
| `DebugControl.DebugCpu.OtherRequiresMde` | kpm/core/debug.c:281-307 | reports busy exactly when some other slot is owned, enabled or cannot be read |
| `DebugControl.DebugCpu.RestoreMonitor` | kpm/core/debug.c:343-369 | takes back the monitor bits that were added, the enable bit only when no other slot needs it |
| `DebugControl.DebugCpu.PutBack` | kpm/core/debug.c:343-377 | the saved value and control are back in the slot and the state is blank, or the state is quarantined |
| `DebugControl.DebugCpu.RestoreCpu` | kpm/core/debug.c:309-377 | a restore that finds the slot as it left it returns it; one that finds it changed quarantines; the two resting states are left alone; any other failure is that of a register operation |
| `DebugControl.DebugCpu.TakeHit` | kpm/core/debug.c:443-475 | a hit disables the slot and then either retires a one-shot request or asks for a single step |
| `DebugControl.DebugCpu.HandleHit` | kpm/core/debug.c:379-513 | which hits are owned, what they do to state, registers and saved status, every field of the event they report, and that they fail only for a failed register operation or a changed slot |
| `DebugControl.DebugCpu.Rearm` | kpm/core/debug.c:541-570 | a step takes back only the step bits that were added and enables the slot again |
| `DebugControl.DebugCpu.HandleStep` | kpm/core/debug.c:515-571 | which steps are owned, what they do to state, registers and saved status, when the step is forwarded, and that they fail only for a failed register operation or a changed slot |
| `DebugControl.TransitionKeeps` | kpm/core/debug.c:207-571 | the effect of any call, failed ones included, keeps the controller's record a description of its slot, its request and that request's encoding, in one of the documented states |
| `DebugControl.RunKeeps` | kpm/core/debug.c:207-571 | so does any sequence of calls and foreign register changes |
| `DebugControl.TotalsTell` | kpm/core/debug.c:124-205 | the running sums call a log of register accesses disciplined only when every slot write went to the chosen slot, after its owner was read as free in the same call, with no value written while the slot was enabled |
| `DebugControl.RunScript` | kpm/core/debug.c:207-571 | any script of calls and foreign changes on a fresh controller is a run of the stated transitions, call for call, and the log of its register accesses is disciplined |
| `DebugControl.QuarantineAbsorbs` | kpm/core/debug.c:309-377 | once quarantined, no call changes the state or writes a register again |
| `DebugControl.BorrowAndReturn` | kpm/core/debug.c:207-377 | arm, any mix of hits, steps and failed calls, then a successful restore leaves every register bit as found, except the enable bit exactly when another slot needs it |
| `DebugControl.HitsAndStepsAlternate` | kpm/core/debug.c:416-571 | between arming and restoring, hits and completed steps alternate beginning with a hit, and a one-shot request takes at most one hit |
| `DebugControl.FaultFree` | kpm/core/debug.c:207-571 | when no register operation fails, arming succeeds exactly for a good target and request, an empty controller and a free slot, and hits, steps and restores go through exactly when nobody has touched the slot |
| `TaskBinding.RunInv` | kpm/core/task.c:65-445 | every step of every thread, interleaved word by word, keeps the invariant of the sequence lock and of the versions it publishes |
| `TaskBinding.SnapshotsAtomic` | kpm/core/task.c:205-228 | words copied one by one between two equal even counters are the binding as one completed write section left it |
| `TaskBinding.OneIdentityPerGeneration` | kpm/core/task.c:230-396 | within one generation the request never changes, at most one identity is ever bound, it satisfies that request, and stale and exited are final |
| `TaskBinding.MatchedMeansBound` | kpm/core/task.c:305-396 | a caller told that the current task is the bound one looked at a task with the pid, tgid and start times of an identity bound in the reported generation |
| `TaskBinding.WritersExclude` | kpm/core/task.c:65-88 | write sections never overlap |
| `TaskBinding.LifeCycle` | kpm/core/task.c:286-303 | what later versions of a generation keep from earlier ones |
| `TaskBinding.InstalledMatches` | kpm/core/task.c:255-284 | an identity in any version satisfies that version's request and carries its generation |
| `TaskBinding.EndedBy` | kpm/core/task.c:286-348 | in every interleaving, a binding is made stale only by a call that read it bound and saw a task with its pid and another tgid or start time, and exited only by one that saw the bound task itself |
| `TaskOutcomes.SelectorMeans` | kpm/core/task.c:255-276 | the selector compares pid, tgid or either by mode, and uid, start time and the name up to its first zero byte where the request says so |
| `TaskOutcomes.RequestMeans` | kpm/core/task.c:165-197 | the requests that are accepted, field by field |
| `TaskOutcomes.PendingObserves` | kpm/core/task.c:350-396 | undisturbed, observing a pending binding binds a live task that it asks for, storing state, request and identity, and leaves it pending for any other task |
| `TaskOutcomes.MatchAnswers` | kpm/core/task.c:305-348 | undisturbed, what asking about a task answers and leaves in every state of the binding: stale, gone, no match, bound task matched, another task under its pid making it stale, the bound task exiting ending it |
| `TaskOutcomes.BoundObserves` | kpm/core/task.c:350-396 | undisturbed, observing a bound binding compares the observed process with it in the same way |
| `TaskOutcomes.OthersObserve` | kpm/core/task.c:350-396 | undisturbed, observing an empty, stale or exited binding changes nothing and answers for its state |
| `TaskOutcomes.ExitsMarked` | kpm/core/task.c:398-421 | undisturbed, an exit is recorded for the bound task and for no other |
| `TaskOutcomes.SetPends` | kpm/core/task.c:230-253 | undisturbed, a good request becomes pending in the next generation without an identity, a bad one is refused |
| `TaskOutcomes.ClearEmpties` | kpm/core/task.c:423-445 | undisturbed, clearing empties the binding and moves on to the next generation |
| `TaskOutcomes.UnmatchedMeans` | kpm/core/task.c:305-396 | in every interleaving, an observation that answers no match read one version of the binding whole, and that version was empty, or pending for other tasks, or bound to another pid |
| `MapsSnapshot.RunInv` | kpm/core/maps.c:19-234 | every step of every thread, interleaved at each access and backend call, keeps the protocol's invariant |
| `MapsSnapshot.StepMoves` | kpm/core/maps.c:19-39 | a writer raises the flag only when it is down and enters only when no reader is counted, a reader gets inside only when it saw the flag down |
| `MapsSnapshot.ReadersProtected` | kpm/core/maps.c:145-187 | between read_begin and read_end no writer is in its section, the buffer handed out is unreleased, and total, checksum and number belong to one snapshot call |
| `MapsSnapshot.SnapshotsStay` | kpm/core/maps.c:96-143 | rendered bytes never change or disappear from the record of what was rendered |
| `MapsSnapshot.WritersExclude` | kpm/core/maps.c:19-39 | writing sections never overlap |
| `MapsSnapshot.ReleasedOnce` | kpm/core/maps.c:96-234 | no buffer and no task is released twice, and with all calls returned only what the snapshot still holds is unreleased |
| `MapsSnapshot.ClearReleasesAll` | kpm/core/maps.c:203-234 | after a clear and nothing since, every buffer ever rendered and every task ever retained has been released exactly once |
| `MapsSnapshot.SnapshotDecides` | kpm/core/maps.c:112-142 | whatever the renderer returns, the new buffer ends in the snapshot or with the thread that must release it, and the old one with that thread |
| `MapsOutcomes.SnapshotAnswers` | kpm/core/maps.c:96-143 | undisturbed, a snapshot succeeds exactly for the captured generation and a text rendered whole, not empty and within the limit, and then is that text with its length, checksum and number; every refusal has its code and changes nothing |
| `MapsOutcomes.CaptureAnswers` | kpm/core/maps.c:67-94 | undisturbed, a capture succeeds when nothing is captured and the backend retains its task, or when just that one and its generation already are |
| `MapsOutcomes.ClearAnswers` | kpm/core/maps.c:203-234 | undisturbed, a clear leaves nothing |
| `MapsOutcomes.ReadAnswers` | kpm/core/maps.c:145-181 | with no writer about, a read of the current snapshot before its end gets the rest of it up to a chunk and is told whether that is the end; another number is refused as stale, an offset past the end as out of range |
| `MapsTransfer.SnapshotMaps` | user/kpm/client.go:210-257 | the chunk loop ends against any server, after at most as many requests as the snapshot limit has bytes, with the outcome of the specification |
| `MapsTransfer.ReceivedChecked` | user/kpm/client.go:226-257 | whatever the server sends, received content has the announced length, within the limit, and the announced checksum |
| `MapsTransfer.ExactOrError` | user/kpm/client.go:210-257 | if every piece labelled with the snapshot's number is a piece of it, the result is exactly the snapshot or an error |
| `MapsTransfer.DamageDetected` | user/kpm/client.go:253-257 | content that differs from the snapshot within four neighbouring bytes is never received under the snapshot's checksum |
| `MapsTransfer.UndisturbedSucceeds` | kpm/core/maps.c:163-181 | in any run in which no writing call gets its section during the transfer, if its readers answer the client's own questions, the client receives the whole snapshot |
| `MapsTransfer.AllServedSucceeds` | user/kpm/client.go:210-257 | if each of the client's own questions is answered from one snapshot within the limits, the chunk loop succeeds with all its bytes |
| `MapsTransfer.TransferFaithful` | user/kpm/client.go:210-257 | with any calls of other threads interleaved, if the snapshot number is not reused the client receives exactly the bytes that snapshot call rendered, or an error |
| `Numerals.ReadDigits` | kpm/core/command.c:26-37 | the digit loop returns the number for all digit strings that fit 64 bits, too-large exactly when an all-digit prefix overflows, malformed otherwise, as the parser's functions assume |
| `Numerals.OverflowTest` | kpm/core/command.c:33-35 | the division test before the multiplication is exact |
| `Numerals.DecimalRoundTrip` | user/kpm/command.go:63-72 | every 64-bit number printed in decimal parses back |
| `Numerals.HexRoundTrip` | user/kpm/command.go:111-112 | every 64-bit number printed in hexadecimal parses back |
| `Tokens.Tokenize` | kpm/core/command.c:135-167 | the in-place tokenizer records exactly the words of the line, leaves their bytes intact and ends each with a zero byte, or fails with the specified code |
| `Tokens.TokenizedIff` | kpm/core/command.c:135-167 | a line is cut into words exactly when it is one to eight printable words joined by single spaces |
| `Refusals.TooManyWords` | kpm/core/command.c:135-167 | a line without a space at its ends is too big exactly when it begins with nine words, whatever comes after |
| `Tokens.SplitKeyValue` | kpm/core/command.c:113-133 | the scan for the separator computes the split function |
| `Tokens.SplitIff` | kpm/core/command.c:113-133 | a word splits exactly when it has one equals sign with something on both sides |
| `Commands.ParseFields` | kpm/core/command.c:193-243 | the field loops compute the fold of one field round |
| `Commands.FieldsIff` | kpm/core/command.c:193-247 | a field list is accepted exactly when every word sets a known key to an accepted value and no key is set twice, and the result holds exactly those fields |
| `Commands.OrderIrrelevant` | kpm/core/command.c:193-243 | any reordering of an accepted field list gives the same result |
| `Commands.ParseCommand` | kpm/core/command.c:423-468 | taking the line apart in place computes the meaning of the original line |
| `Commands.ParsedValid` | kpm/core/command.c:178-468 | whatever is parsed is within the documented ranges |
| `Commands.RoundTrip` | user/kpm/command.go:52-120 | every valid command, printed, parses back to itself |
| `Commands.ParsedIffValid` | kpm/core/command.c:423-468 | the parser produces exactly the valid commands |
| `Commands.Canonical` | kpm/core/command.c:423-468 | printing what was parsed gives a line with the same meaning |
| `Commands.BindReachesModule` | user/kpm/command.go:52-78 | the client prints a binding exactly when pid, mode and comm are good (the last check of the whole line never refuses), and the module parses that binding |
| `Commands.BreakReachesModule` | user/kpm/command.go:80-113 | the client prints a breakpoint exactly when some line parses to it, and what it prints parses to it |
| `Commands.MapsReadReachesModule` | user/kpm/command.go:115-120 | the module parses the snapshot number and offset the client printed |
| `Commands.BreakSpelled` | user/kpm/command.go:111-112 | the words of a breakpoint's line, in order |
| `Commands.BindSpelled` | user/kpm/command.go:62-72 | the words of a binding's line, in order, with the optional ones |
| `Commands.MapsReadSpelled` | user/kpm/command.go:119 | the words of a snapshot read's line, in order |
| `Refusals.OutOfRange` | kpm/core/command.c:19-92 | a value is out of range exactly when it is a number too large for its field or its digits overflow 64 bits before anything else is wrong with them |
| `Refusals.WordRefused` | kpm/core/command.c:193-243 | a word is refused as out of range exactly when it sets a key of its verb, not set before, to a value out of range, and as invalid otherwise |
| `Refusals.FirstFieldDecides` | kpm/core/command.c:193-243 | a field list is refused with a code exactly when its first bad word is |
| `Refusals.RefusalCodes` | kpm/core/command.c:423-468 | which lines are refused as too big, which as out of range, and that all others that do not parse are invalid |
| `ArgBuffer.EventBuffer.SaveElement` | src/common/buffer.h:16-43 | for every element that ends inside the array, the buffer below its end gains exactly one element record or is unchanged |
| `ArgBuffer.EventBuffer.SaveBytes` | src/common/buffer.h:45-89 | the same for a block with its length in front, for every length |
| `ArgBuffer.EventBuffer.SaveString` | src/common/buffer.h:165-195 | the same for a string of the length the helper reports |
| `ArgBuffer.MaskKeeps` | src/common/buffer.h:70-76 | masking the size loses nothing for the lengths in use, and leaves nothing for the end mark of string arrays |
| `ArgBuffer.BlockWritten` | src/common/buffer.h:173-189 | index, length and content make the same record in either order of writing |
| `ArgBuffer.RecordsDetermined` | src/common/buffer.h:16-195 | buffers filled by the same kinds of saves hold the same bytes only when they hold the same records |
| `ArgBuffer.LittleEndianSum` | src/common/buffer.h:16-43 | the bytes of a saved value, each times 256 to the power of its place, add up to what of the value fits |
| `ArgVm.Machine.SaveStringCase` | src/utils.h:238-250 | string saves with their fallback to an empty record, and the length taken from the buffer's end |
| `ArgVm.Machine.SavePointerStringCase` | src/utils.h:251-305 | a pointer and the string behind it, or the end mark and the loop count at its limit |
| `ArgVm.Machine.StepOnce` | src/utils.h:38-342 | one round of the interpreter on the real buffer is one step of the specification |
| `ArgVm.Machine.ReadArgs` | src/utils.h:29-356 | the budgeted loop on the real buffer computes the specified run and verdict, keeps the buffer valid and every earlier record |
| `ArgVm.RunGrows` | src/utils.h:38-342 | for every op list and every outcome of reads, records are only appended, in save order, always fit the buffer, and have length fields that tell their lengths |
| `ArgLoop.StepKeeps` | src/utils.h:51-342 | only loop ops, resets and a failed pointer string touch the loop's bookkeeping |
| `ArgLoop.BodyPasses` | src/utils.h:38-50 | a pass over a body comes to the closing edge in a fixed number of steps, fused post-codes included, unless the run ends |
| `ArgLoop.ForBreakRuns` | src/utils.h:98-110 | a region runs its body as often as the break count says (once for zero), fewer only when a pointer string failed in the last pass, and leaves count, limit and start at zero |
| `ArgLoop.ExactRounds` | src/utils.h:98-110 | without pointer strings the number of passes is exact unless the run itself ends |
| `ArgLoop.CountedRegion` | src/utils.h:98-128 | a count op, from a constant, a register or a pointer, and the region after it run the body as often as asked for, at least once and at most 32 times, fewer only when a pointer string failed in the last pass |
| `ReadExpr.AddWraps` | src/utils.h:80-85 | wrapping at every op and wrapping once at the end agree |
| `ReadExpr.ArithmeticRuns` | src/utils.h:80-91 | any list of signed constants and dereferences is run to what it denotes in unbounded integers, with memory answering as it likes at each read |
| `ReadExpr.StableMemory` | src/utils.h:157-165 | if memory keeps still, what an expression denotes does not depend on when it is run |
| `ReadExpr.RegisterRuns` | src/utils.h:139-152 | the fused register op takes two steps and leaves the register in the address |
| `ReadExpr.ReadExpressionSaves` | src/utils.h:38-165 | running a compiled expression saves exactly the denoted address, wrapped to 64 bits, as one record when there is room, and takes one step per op plus one |
| `ReadExpr.SecondRegister` | user/config/config_file.go:189-202 | a later register yields twice itself or zero, which is the written sum or difference exactly when the address equalled the register |
| `ReadExpr.TwoRegistersSave` | user/config/config_file.go:189-208 | an expression of two registers, run to its end, saves twice the second or zero |
| `ReadExpr.SecondRegisterExpression` | user/config/config_file.go:161-208 | a whole expression with one second register saves twice that register, or zero, plus the constants after it; that is the written address exactly when what stands before the second register comes to its value |
| `ReadText.SecondRegisterFails` | user/config/config_file.go:189-202 | the text `x0+x1` with 8 in x0 and 16 in x1 saves the address 32 |
| `ArgEvents.LeftPending` | src/utils.h:38-51 | a run ends with a post-code pending exactly when its last step fetched a fused op |
| `ArgEvents.ArgumentsRun` | user/config/config_point_arg.go:137-140 | on a point of plain register arguments, each read, saved and moved in three steps, a budget that ends among them leaves a save pending exactly when it is one more than a multiple of three |
| `ArgEvents.ArgumentsSaved` | user/config/config_point_arg.go:137-140 | on such a point, with room and successful copies, three steps per argument save exactly the values of its registers, eight bytes each, in order, numbered on from the first |
| `ArgEvents.CrowdedEvent` | user/config/config_point_arg.go:137-140 | on a point of 22 such arguments with 64 steps, an event entered with nothing pending leaves a save pending, and one entered with that save, or on a fresh context, leaves nothing |
| `ArgEvents.ThirdEventShifted` | src/stack.c:95-101 | three events in a row on that point, the first on a fresh context: the second leaves a save pending and the third begins its own ops with the wrong number |
| `ArgEvents.LeftoverFirst` | src/stack.c:95-101 | an event entered with a post-code pending spends a step on it, and its own ops begin with their own numbering exactly when the leftover is neither a save, nor a filter that is missing or rejects, nor a read of a register that does not exist |
| `ArgEvents.OwnFirstRecord` | src/stack.c:95-101 | in the whole event, the first own save numbers its records from the event's first number exactly when the leftover was not a save; for a pointer string, both of its records |
| `ArgEvents.FreshEventSaves` | src/utils.h:39-41 | the first event on a fresh context runs a read expression like any other, one step later |
| `ArgKinds.BytesKept` | src/utils.h:170-187 | a block that can be read and fits is saved with its size, otherwise an empty one if that fits |
| `ArgKinds.TextKept` | src/utils.h:238-250 | the same for a string of the length reported |
| `ArgKinds.BehindKept` | src/utils.h:251-305 | the same for a string behind a pointer, with the end mark instead of the empty block |
| `ArgKinds.TextReads` | user/argtype/argtype_complex.go:56-64 | a string argument saves the string at its address without the tag |
| `ArgKinds.StdTextReads` | user/argtype/argtype_complex.go:102-108 | a std::string saves its text, from inside the object or from behind the pointer at offset 16 by the lowest bit of its first byte |
| `ArgKinds.Il2cppReads` | user/argtype/argtype_complex.go:73-81 | an il2cpp string saves 512 bytes from offset 20 on |
| `ArgKinds.StructReads` | user/argtype/argtype_complex.go:445-455 | a structure or buffer of fixed length saves that many bytes, at most 4096 |
| `ArgKinds.FusedStructReads` | user/argtype/op_helper.go:94-103 | the fused form saves the same in as many steps |
| `ArgKinds.CountedReads` | user/argtype/argtype_complex.go:435-443 | a buffer whose length a register tells saves as many bytes as the register says, at most 4096 |
| `ArgKinds.IovecReads` | user/argtype/argtype_complex.go:735-750 | an iovec saves its sixteen bytes and then as many bytes as its second word says, at most 4096, from where its first word points |
| `ArgArrays.ArrayRuns` | user/argtype/argtype_complex.go:140-149 | an array of string pointers saves pointers and strings up to the first string that cannot be saved, which is marked as the end, and at most 32 |
| `ArgArrays.IovecArrayReads` | user/argtype/argtype_complex.go:768-783 | an array of iovecs saves its count from the register and then that many iovecs with their buffers, at least one and at most 32 |
| `ArgArrays.MsghdrReads` | user/argtype/argtype_complex.go:834-860 | a message header saves its 56 bytes, its control buffer, and the iovecs it counts and points to with their buffers |
| `ArgArrays.PointerSaves` | src/utils.h:157-169 | reading and saving a pointer saves the word at the address |
| `ArgArrays.KindReads` | user/argtype/argtype_complex.go:56-860 | the ops of every modelled type, run from any address with any answers of memory, save what the type means, in the number of steps it means, and leave the loop's bookkeeping and nothing pending |
| `ArgPoints.JudgeMeans` | src/utils.h:188-237 | each filter op judges by what its filter means |
| `ArgPoints.PointRuns` | user/config/config_point_arg.go:127-166 | the ops of any list of arguments, with their types and filters, do what the arguments mean: the records, their numbers, the filters' findings, the steps taken, and where a rejected event stops |
| `ArgPoints.EventMeans` | src/utils.h:29-356 | a whole event entered with nothing pending and enough steps saves what its arguments mean, and is dropped exactly when a filter rejects it or whitelists were tried and none matched |
| `ArgPoints.DroppedByValue` | src/utils.h:188-206 | with filters on values only, an event is rejected exactly when the value of some argument fails one of its filters |
| `ArgPoints.WhitelistsMean` | src/utils.h:222-237 | whitelists on a text count as tried if there are any, and match exactly when the text equals one |
| `ArgPoints.BlacklistsMean` | src/utils.h:222-237 | blacklists on a text reject exactly when the text equals one |
| `ReadText.SplitKeeps` | user/config/config_file.go:161-178 | splitting at dots and then at operators reads the same pieces as going character by character |
| `ReadText.WrittenReadsBack` | user/config/config_file.go:158-208 | a register name followed by signed tokens and dots reads back as just those |
| `ReadText.OpManager.AddOp` | user/argtype/op_helper.go:146-155 | returns the registered index of an equal op or appends it; indices are positions, no op is registered twice, earlier indices stay good |
| `ReadText.OpManager.GetOpList` | user/argtype/op_helper.go:157-163 | the loaded map has exactly the registered ops under their indices |
| `ReadText.CompileSegment` | user/config/config_file.go:169-205 | the token loop registers exactly the ops of the segment's pieces, and refuses a number before the first register |
| `ReadText.CompileReadOp` | user/config/config_file.go:158-208 | the text is accepted exactly when no number precedes the first register and every token is known, and then the keys name the ops of its meaning |
| `ReadText.LoadedOps` | user/config/iconfig.go:48-66 | keys copied into a point's list with the manager's ops loaded are the ops they name |
| `ReadText.WrittenExpressionSaves` | user/config/config_file.go:158-208 | from text to record: a register followed by signed numbers and dots makes the interpreter save exactly the address they denote |

## Left out

- Memory ordering weaker than sequential consistency in `kpm/core`: the step systems interleave whole accesses.
- Nested producers on one CPU, several consumers of one ring, and runs longer than a lap of a 64-bit counter.
- `kpm/core/profile.c`, its generated device tables, and how identities are read out of a task at profiled offsets.
- The KPM entry points, kernel hooks, asynchronous request queue and status formatting: they connect the modelled parts to the kernel.
- The transition counter and audit output of the debug controller, and several CPUs at once: its per-CPU states share nothing.
- The wire layout of events and the client's event decoder: only the stamping of magic, version, size, CPU, number and checksum is modelled.
- `spz_maps_info` and the unsupported-backend state: plain field reads and early returns.
- Text encoding of maps chunks and status replies, timers, contexts and process execution in `user/kpm`.
- `save_str_arr_to_buf` in `src/common/buffer.h`: no op of the interpreter calls it.
- Event filtering by uid, pid and thread name, and the string comparison loop of the filter ops, which is a parameter here.
- How a token is told to be a number or a register: `strconv.ParseUint` and the register table are a parameter.
- How user/argtype parses the saved records back for display, the remaining structure types (more sizes of the same form), eBPF loading, command line and output formatting.
- Arguments whose address is a read expression combined with a type: `ReadExpr` and `ArgPoints` cover the two parts, each up to and from the saved address.
- The ops OP_RESET_CTX and OP_SET_READ_COUNT, which no argument type lists: only what they keep is stated.
- ArgBuffer.EventBuffer.SaveElement: excludes elements that would be written past the end of the array; `src/common/buffer.h` tests only for room for the 110 bytes it names as the largest element at line 14, and the interpreter saves 8.
- ReadExpr.ReadExpressionSaves: covers register numbers below 33, the ones register names stand for; the interpreter ends the run at any other.
