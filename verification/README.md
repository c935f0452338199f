# uBoss: a verified model of its intricate parts

uBoss is an actor framework in C for Lua services. This project models the parts of it whose
implementation is far from their purpose, and proves that they serve it.

- **LPeg** (`Lpeg*.dfy`): pattern trees, the static analyses, the code generator with its test,
  commit and follow-set shortcuts, the jump optimizer, the tree rewriting on the flat node array
  and the virtual machine. Main result: for every pattern without captures and grammars and every
  subject, preparing, compiling, optimizing and interpreting gives exactly the result of the PEG
  semantics.
- **Actor scheduler** (`Scheduler*.dfy`, `MessageQueue.dfy`, `HandleTable.dfy`, `HandleNames.dfy`):
  a transition system with one step per locked or atomic operation, for any number of threads, with
  an inductive invariant and its consequences for every run, up to what is delivered to whom and in
  which order; below it the ring buffers, the linked run list, the handle slots and the sorted names
  as classes that carry out the steps.
- **Timing wheel** (`Timer.dfy`, `TimerRuns.dfy`): canonical placement in five levels under a clock
  that wraps at 32 bits; every timer fires once, at its tick, in insertion order.
- **sproto** (`Sproto*.dfy`, `LittleEndian.dfy`): the codec against the documented wire protocol and
  with its round trip, from records to the bytes in the buffer and back, and the zero-packing with
  its round trip and its size bound.
- **STM** (`RwLock.dfy`, `Stm*.dfy`): the spinning read-write lock and the reference-counted
  snapshots behind it, one step per access to shared memory, and which snapshot a reader gets.
- **Smaller cores**: stream framing (`NetPack.dfy`), the in-array chained hash (`SharedHash.dfy`)
  and the 64-bit modular power (`DiffieHellman.dfy`).

Conventions. Machine integers are unbounded numbers with explicit wrap-around where the source
relies on it. Bit operations appear as the arithmetic they perform, or on bit vectors in
`LpegCharset.dfy`. A thread of the scheduler or of the STM model is a thread of control: calls that
a service makes from inside its callback are steps of another thread, which allows more
interleavings than the program has. Memory is sequentially consistent. Fresh identifiers stand for
allocated memory, and a step of a run that touched freed memory could be followed by anything; which
steps can do so is part of what is proved. Those that can are taken to have no effect on anything
that is still in use.

Where code and purpose differ, the code is modelled, an input or a run shows the difference, and
the exact condition is proved:

- `uboss_context_new` uses the new context after it has given up its own reference, and another
  thread may have freed it by then (`SchedulerRuns.UnsafeExactlyWhen`, `FreedBeforeLaunch`).
- A reader that leaves an STM object may unlock it after another reader has freed it
  (`StmProof.ObjectUsedAlive`, `StmLateUnlock.UnlocksFreedObject`).
- `sproto_pack` reads behind a source whose short last group is the 256th of a raw run
  (`SprotoPack.RoundTrip`, `OverreadSource`).
- `sproto_unpack` takes a stream that lacks the last byte of a masked group and gives the byte
  behind it in memory for the missing one (`SprotoPack.UnpackedWhen`, `ShortStream`).
- `sproto_decode` adds to a length word in 32 bits, so that the largest ones pass its check; an
  unknown field or an array of strings or records with such a length is skipped, and an array of
  booleans or numbers can be read beyond its end (`SprotoReader.ReadsWhen`, `LongUnknown`,
  `LongKnown`).
- `uboss_handle_register` gives out the number 0, which is reserved, when its counter has wrapped
  around (`HandleTable.Serve`).
- `powmodp` leaves a base equal to P unreduced (`DiffieHellman.PowModP`).

## Model

| member | source | states |
|---|---|---|
| `LpegTree.ToCharset` | lib/lpeg/lpcode.c:107-124 | A one-character pattern matches exactly where the next character exists and is in the resulting set, for every subject and position. |
| `LpegAnalysis.NullableSound` | lib/lpeg/lpcode.c:172-206 | A pattern that `nullable` rejects never matches the empty string. |
| `LpegAnalysis.NoFailSound` | lib/lpeg/lpcode.c:172-206 | A `nofail` pattern succeeds on every subject at every position. |
| `LpegAnalysis.FixedLenSound` | lib/lpeg/lpcode.c:213-246 | A pattern of fixed length consumes exactly that many characters whenever it matches. |
| `LpegAnalysis.FirstSound` | lib/lpeg/lpcode.c:267-343 | If a pattern matches, the next character is in its first set, unless the match was empty and that character is outside the follow set. |
| `LpegAnalysis.FirstEmptySound` | lib/lpeg/lpcode.c:267-343 | A zero result of `getfirst` means that the pattern fails at the end of the subject. |
| `LpegAnalysis.HeadFailSound` | lib/lpeg/lpcode.c:350-372 | `headfail` patterns succeed if and only if the next character exists and is in the first set under the full follow set. |
| `LpegAnalysis.TestSound` | lib/lpeg/lpcode.c:587-608 | When the test that the generator emits for a pattern does not pass, the pattern fails. |
| `LpegCharset.CharsetTypeOf` | lib/lpeg/lpcode.c:41-82 | The loop over the 32-byte bitmap, with its early exits and bit tricks, says empty, singleton with its character, or full exactly for the bitmaps of such sets, and general for all others. |
| `LpegCharset.ToSetToBits` | lib/lpeg/lpcode.c:107-124 | The bitmap of a set represents that set. |
| `LpegVm.YieldsUnique` | lib/lpeg/lpvm.c:147-288 | A program halts with at most one result. |
| `LpegVm.Interpret` | lib/lpeg/lpvm.c:147-288 | The opcode loop with its backtrack stack arrives at the state that the step relation prescribes, stuck programs included. |
| `LpegCorrect.GenCorrect` | lib/lpeg/lpcode.c:891-916 | Relative correctness by induction over patterns: code generated under a follow set, a dominating test and `opt` fails when the pattern fails, and when the pattern matches up to j it either arrives behind itself at j with the same stack or fails although the next character is outside the follow set. |
| `LpegCorrect.SeqCorrect` | lib/lpeg/lpcode.c:871-883 | The sequence case, with the follow set of the first part and the dropped or kept dominating test. |
| `LpegCorrect.ChoiceByTest` | lib/lpeg/lpcode.c:650-689 | A choice decided by one test (head-fail first part or disjoint first sets) meets the relative statement. |
| `LpegCorrect.ChoiceReusingEntry` | lib/lpeg/lpcode.c:650-689 | An optional pattern inside an optional one may reuse the backtrack entry by a partial commit. |
| `LpegCorrect.ChoiceDefault` | lib/lpeg/lpcode.c:650-689 | The general choice with test, choice and commit meets the relative statement. |
| `LpegCorrect.AndFixed` | lib/lpeg/lpcode.c:693-709 | The and-predicate of a short fixed-length pattern by looking behind. |
| `LpegCorrect.AndDefault` | lib/lpeg/lpcode.c:693-709 | The and-predicate by choice and back commit. |
| `LpegCorrect.BehindCorrect` | lib/lpeg/lpcode.c:632-636 | Look-behind by moving back a fixed length. |
| `LpegCorrect.RepByTest` | lib/lpeg/lpcode.c:749-785 | A repetition decided by tests, without backtrack entries. |
| `LpegCorrect.RepDefault` | lib/lpeg/lpcode.c:749-785 | A repetition with choice or partial commit at its entry and a partial commit at its end. |
| `LpegCorrect.SpanIsRep` | lib/lpeg/lpcode.c:749-785 | A repeated character set is one span instruction. |
| `LpegCorrect.NotByTest` | lib/lpeg/lpcode.c:795-809 | The negation of a head-fail pattern is one test and a fail. |
| `LpegCorrect.NotDefault` | lib/lpeg/lpcode.c:795-809 | The general negation by choice and fail-twice. |
| `LpegCorrect.CompileCorrect` | lib/lpeg/lpcode.c:973-982 | For every well-formed pattern, subject and start, the generated program halts with exactly the result of the PEG semantics. |
| `LpegPeephole.FinalTarget` | lib/lpeg/lpcode.c:614-618 | Following jumps ends, at the unique final target, and meets instructions only. |
| `LpegPeephole.RewriteSound` | lib/lpeg/lpcode.c:928-967 | One jump rewrite is simulated step by step: the rewritten program yields the same result from related states. |
| `LpegPeephole.RewritePreserves` | lib/lpeg/lpcode.c:928-967 | A rewrite keeps jump chains finite, keeps the instruction layout and preserves every result. |
| `LpegPeephole.RewriteLeads` | lib/lpeg/lpcode.c:928-967 | After a rewrite every label still leads to an instruction. |
| `LpegPeephole.RewriteTiled` | lib/lpeg/lpcode.c:928-967 | After a rewrite the code is still a row of instructions with their operands, from every address from which it was one; a jump that becomes shorter leaves a no-op. |
| `LpegPeephole.OptimizeLabel` | lib/lpeg/lpcode.c:928-967 | Shortening the label of an instruction in place preserves every result. |
| `LpegPeephole.OptimizeJump` | lib/lpeg/lpcode.c:928-967 | Replacing a jump in place by its target or by a shorter jump preserves every result. |
| `LpegPeephole.Peephole` | lib/lpeg/lpcode.c:928-967 | The whole pass over the code array preserves every result and terminates; it stands on an instruction in every round, never on an operand, and ends right behind the final `IEnd`, as the source asserts. |
| `LpegShape.GenTiled` | lib/lpeg/lpcode.c:891-916 | Generated code is a row of instructions, each followed by its operands. |
| `LpegShape.CompileShape` | lib/lpeg/lpcode.c:891-916 | Generated programs have finite jump chains, labels that lead to instructions and an `IEnd` in the last place, which `peephole` relies on. |
| `LpegCompiler.CompileState.CodeTestSet` | lib/lpeg/lpcode.c:587-608 | Appends exactly the test of the specification, or nothing. |
| `LpegCompiler.CompileState.Codegen` | lib/lpeg/lpcode.c:891-916 | Appending instructions and patching offsets builds exactly the code of the specification behind the code that was there. |
| `LpegCompiler.CompileState.CodeSeq` | lib/lpeg/lpcode.c:871-883 | Appends the code of the sequence. |
| `LpegCompiler.CompileState.CodeChoice` | lib/lpeg/lpcode.c:650-689 | Appends the code of the choice in each of its forms. |
| `LpegCompiler.CompileState.CodeRep` | lib/lpeg/lpcode.c:749-785 | Appends the code of the repetition in each of its forms. |
| `LpegCompiler.CompileState.CodeNot` | lib/lpeg/lpcode.c:795-809 | Appends the code of the negation in both forms. |
| `LpegCompiler.CompileState.CodeAnd` | lib/lpeg/lpcode.c:693-709 | Appends the code of the and-predicate in both forms. |
| `LpegCompiler.CompileState.JumpToThere` | lib/lpeg/lpcode.c:516-519 | Patching stores the distance to the target and changes nothing else. |
| `LpegCompiler.CompilePattern` | lib/lpeg/lpcode.c:973-982 | Compiling and optimizing yields a program with every result of the generated code. |
| `LpegCompiler.PreparedCorrect` | lib/lpeg/lptree.c:1095-1100 | Compiling the right-associative form of a tree still computes the meaning of the original tree. |
| `LpegCompiler.MatchNodes` | lib/lpeg/lptree.c:1149-1176 | End to end on the node array: making it right associative in place, compiling it with the bitmaps of its sets, optimizing the jumps and interpreting the code returns exactly what the PEG semantics gives for the pattern, failure included. |
| `LpegCompiler.MatchPattern` | lib/lpeg/lptree.c:1149-1176 | The same from a tree: exactly what the PEG semantics gives, failure included. |
| `LpegFlatTree.MakeSeqCorrect` | lib/lpeg/lptree.c:532-542 | The shortcuts of the sequence constructor do not change the meaning. |
| `LpegFlatTree.MakeChoiceCorrect` | lib/lpeg/lptree.c:551-566 | The shortcuts of the choice constructor do not change the meaning. |
| `LpegFlatTree.MakeSubCorrect` | lib/lpeg/lptree.c:627-646 | The difference constructor means: fail where the second pattern matches, else the first. |
| `LpegFlatTree.RotateMatch` | lib/lpeg/lptree.c:78-90 | Rotating a sequence or choice to the right preserves every match. |
| `LpegFlatTree.FixMatch` | lib/lpeg/lptree.c:100-126 | The final form of a tree matches like the tree, everywhere. |
| `LpegFlatTree.FixWellFormed` | lib/lpeg/lptree.c:100-126 | The final form of a well-formed tree is well formed. |
| `LpegFlatTree.FixRightAssociative` | lib/lpeg/lptree.c:100-126 | In the final form no sequence or choice has its own operator as its first child. |
| `LpegFlatTree.RotateOnce` | lib/lpeg/lptree.c:78-90 | One round of the loop on the array of nodes with relative offsets is one rotation of the tree it encodes. |
| `LpegFlatTree.CorrectAssociativity` | lib/lpeg/lptree.c:78-90 | The loop on the node array leaves the encoding of the rotated tree and does not touch the rest of the array. |
| `LpegFlatTree.ReadHolds` | lib/lpeg/lptree.h:68-69 | Walking through the array by offsets gives back the tree that it encodes. |
| `LpegFlatTree.FinalFix` | lib/lpeg/lptree.c:100-126 | The pass over the node array leaves the encoding of the final form in place. |
| `SchedulerProof.StepIsSafe` | core/uboss_server.c:151-199 | From a state that satisfies the invariant no step touches a freed context or queue, apart from the two uses of a new context by its creator after the release of its own reference. |
| `SchedulerProof.KeepNew` | core/uboss_server.c:99-112 | Creating a context with its queue and registering it keeps the invariant. |
| `SchedulerProof.KeepRelease` | core/uboss_server.c:179-186 | Dropping a reference, the last one included, keeps the invariant. |
| `SchedulerProof.KeepRetire` | core/uboss_handle.c:105-142 | Clearing the slot of a handle keeps the invariant. |
| `SchedulerProof.KeepGrab` | core/uboss_handle.c:173-189 | Grabbing or reserving a reference keeps the invariant. |
| `SchedulerProof.KeepPush` | core/uboss_mq.c:232-255 | The arrival of a message, with listing the queue if need be, keeps the invariant. |
| `SchedulerProof.KeepPopEmpty` | core/uboss_mq.c:171-210 | A pop that finds the queue empty keeps the invariant; afterwards the queue is not on the run list and no thread owns it. |
| `SchedulerProof.KeepPopMessage` | core/uboss_mq.c:171-210 | Taking a message keeps the invariant. |
| `SchedulerProof.KeepMarkRelease` | core/uboss_mq.c:268-278 | Marking a queue for release keeps the invariant. |
| `SchedulerProof.KeepGive` | core/uboss_mq.c:57-78 | Putting an owned queue back on the run list keeps the invariant. |
| `SchedulerProof.KeepTake` | core/uboss_mq.c:82-101 | Taking the head of the run list keeps the invariant. |
| `SchedulerProof.KeepGrabToDispatch` | core/uboss_server.c:263-284 | Starting a dispatch with the context that the handle of the queue gives keeps the invariant. |
| `SchedulerProof.KeepDropEmpty` | core/uboss_mq.c:282-288 | The end of the loop that drops messages keeps the invariant. |
| `SchedulerProof.KeepFreeQueue` | core/uboss_mq.c:282-302 | Freeing a queue keeps the invariant. |
| `SchedulerProof.KeepFreeContext` | core/uboss_server.c:165-175 | Freeing a context keeps the invariant. |
| `SchedulerProof.KeepSetInit` | core/uboss_server.c:118-121 | Marking a new context as initialized keeps the invariant, also if the context has been freed. |
| `SchedulerProof.KeepLogLaunch` | core/uboss_server.c:123-125 | Logging the launch keeps the invariant, also if the context has been freed. |
| `SchedulerProof.StepKeepsInv` | core/uboss_server.c:82-331 | Every step of every thread keeps the invariant, and touches live memory only, apart from the two uses of a new context by its creator after the release of its own reference. |
| `SchedulerRuns.RunKeepsInv` | core/uboss_server.c:82-331 | In every run, for any number of threads and any interleaving, every state satisfies the invariant and no step touches freed memory, apart from the two uses of a new context by its creator after the release of its own reference. |
| `SchedulerRuns.AliveIffInUse` | core/uboss_server.c:151-186 | A context exists if and only if it is in its slot, some thread holds it, or some thread is deleting it and has not freed it yet. |
| `SchedulerRuns.UnsafeExactlyWhen` | core/uboss_server.c:117-126 | A step of a run touches freed memory if and only if the creator of a context marks it as initialized or logs its launch while the context is out of its slot, nobody holds it and nobody is about to free it. |
| `SchedulerRuns.FreedBeforeLaunch` | core/uboss_server.c:117-126 | A run in which both of these uses come after the context has been freed by a thread that retired its handle. |
| `SchedulerRuns.QueueIsInOnePlace` | core/uboss_mq.c:57-101 | In every state a queue is with one owner, once on the run list, or nowhere; it is nowhere exactly when it is neither flagged nor released, a non-empty queue is never nowhere, and a freed one always is. |
| `SchedulerRuns.OneWorkerPerService` | core/uboss_server.c:263-331 | No two workers run the same service at once. |
| `SchedulerRuns.OnlyFirstPopFindsEmpty` | core/uboss_server.c:283-291 | Within one dispatch only the first pop can find the queue empty. |
| `SchedulerRuns.SourceAssertionsHold` | core/uboss_server.c:222-331 | In every run: a context whose message is dispatched is initialized, the queue of a finished dispatch is that of its context, a queue is marked for release once, and a queue put on the run list was not on it. |
| `SchedulerRuns.StepConserves` | core/uboss_mq.c:171-255 | Every step conserves messages: waiting plus put is taken plus waiting. |
| `SchedulerRuns.TakenInOrder` | core/uboss_mq.c:171-255 | In every run the messages taken from a queue are a prefix of those put in, the rest is waiting, and a freed queue has given out everything. |
| `SchedulerDelivery.SentIsDelivered` | core/uboss_server.c:188-331 | In every run, of every service: the messages that the arguments of the steps send to it are, in the order of the pushes, those dispatched to it, the one that a worker has in hand, those dropped after it was gone, and those waiting. The addressee is the context that had the handle when it was looked up, by a handle table that is computed from the steps. |
| `SchedulerDelivery.InitDecides` | core/uboss_server.c:113-135 | Only a context whose init function returned success is marked as initialized, launched by its creator with its own queue and given messages; one whose init function failed is retired by its creator with its own handle and never initialized. |
| `SchedulerDelivery.InitReturned` | core/uboss_server.c:113-135 | The result of an init function comes from exactly one return, to the thread that was creating the context. |
| `SchedulerDelivery.FirstInFirstOut` | core/uboss_mq.c:57-101 | In every run workers get the queues in the order in which they came on the run list; a worker that ends a dispatch takes the next one whenever there is one. |
| `SchedulerDelivery.BatchSize` | core/uboss_server.c:280-331 | A dispatch that ends has handled one message with a negative weight, otherwise as many as were left after the first one, divided by two to the power of the weight, but at least one; a dispatch that found the queue empty has handled none. |
| `SchedulerHistory.StepHist` | core/uboss_server.c:82-331 | Every step agrees with what the steps so far say: the handles in use, the queue and the handle of every context, the results of the init functions, the letter of every sender and the count of every dispatch. |
| `SchedulerRuns.CountIsExact` | core/uboss_server.c:151-186 | The count of a context is one for its slot and one for every thread that holds it. |
| `SchedulerRuns.DeletedAtZero` | core/uboss_server.c:165-186 | A context is deleted by one thread, when nothing refers to it. |
| `SchedulerRuns.FreedByItsOwner` | core/uboss_mq.c:282-302 | A queue is freed by its only owner, after release was marked, empty and off the run list; a context that still has it as its queue has marked it and has no reference left. |
| `SchedulerRuns.FreedOnce` | core/uboss_mq.c:282-302 | No queue is freed twice and no context is deleted twice. |
| `MessageQueue.DoubledIs` | core/uboss_mq.c:193-196 | The overload threshold becomes the first of its doublings that is not below the length. |
| `MessageQueue.Ring.constructor` | core/uboss_mq.c:105-123 | A new queue is empty and flagged as known to the scheduler. |
| `MessageQueue.Ring.Length` | core/uboss_mq.c:142-156 | The length of the ring is the number of waiting messages. |
| `MessageQueue.Ring.Pop` | core/uboss_mq.c:171-210 | A pop takes the oldest message across the end of the ring; an empty pop clears the flag and resets the threshold; this is the pop of the scheduler. |
| `MessageQueue.Ring.NoteLength` | core/uboss_mq.c:193-196 | The overload bookkeeping. |
| `MessageQueue.Ring.Expand` | core/uboss_mq.c:214-228 | Doubling a full ring keeps its messages in order. |
| `MessageQueue.Ring.Store` | core/uboss_mq.c:232-247 | A push appends a message, doubling the ring exactly when its last free cell was used. |
| `MessageQueue.RunList.Push` | core/uboss_mq.c:57-78 | Appends a queue that is not on the list. |
| `MessageQueue.RunList.Pop` | core/uboss_mq.c:82-101 | Takes the first queue off the linked list. |
| `MessageQueue.PushMessage` | core/uboss_mq.c:232-255 | A message arrives and the queue is put on the run list if it was not known: the push of the scheduler. |
| `MessageQueue.MarkRelease` | core/uboss_mq.c:268-278 | Sets release and lists the queue if it was not known, leaving the flag as it was. |
| `MessageQueue.DropQueue` | core/uboss_mq.c:282-288 | Drops exactly the waiting messages, in order. |
| `MessageQueue.ReleaseQueue` | core/uboss_mq.c:292-302 | A released queue is emptied, any other goes back on the run list unchanged. |
| `HandleTable.HandleStorage.Grab` | core/uboss_handle.c:173-189 | Finds a context if and only if some slot holds it with that handle. |
| `HandleTable.FindIs` | core/uboss_handle.c:173-189 | The lookup by hash gives a context if and only if some slot holds it with that handle. |
| `HandleTable.InPlaceDistinct` | core/uboss_handle.c:49-101 | No two live contexts have the same handle. |
| `HandleTable.HandleStorage.Retire` | core/uboss_handle.c:105-132 | The handle is gone and every other handle keeps its context. |
| `HandleTable.HandleStorage.TryRegister` | core/uboss_handle.c:57-80 | A free slot is found whenever there is one: that of the first number from the counter on whose slot is free. The handle is that number with the harbor, the counter is then one behind it, and no live context has the handle. |
| `HandleTable.HandleStorage.Double` | core/uboss_handle.c:82-95 | Doubling a full table puts every context into the slot of its handle, keeps every lookup, and leaves a free slot. |
| `HandleTable.RehashStep` | core/uboss_handle.c:88-92 | No two contexts meet in the doubled table. |
| `HandleTable.HandleStorage.Register` | core/uboss_handle.c:49-101 | A new handle that no live context has: the first number from the counter on with a free slot, in the doubled table if the old one is full, with the harbor; the counter is then one behind it. Every other lookup stays, live handles stay distinct; none only when all 2^24 slots are taken. |
| `HandleTable.Serve` | core/uboss_handle.c:49-132 | For any sequence of registrations and retirements on a new table: no handle is given out again before the counter has gone through all 2^24 numbers, it moves by less than the size of the table with each registration, and the reserved number 0 is given out exactly when the counter comes to it again. |
| `HandleNames.NameTable.FindName` | core/uboss_handle.c:193-222 | Bisection finds what a search through all names finds. |
| `HandleNames.NameTable.InsertName` | core/uboss_handle.c:259-280 | A name is added in its place unless it is there; the array stays sorted without duplicates. |
| `HandleNames.NameTable.InsertBefore` | core/uboss_handle.c:226-255 | Inserting moves the tail by one, in place or into a bigger array. |
| `HandleNames.NameTable.RetireNames` | core/uboss_handle.c:118-129 | The compaction keeps the order and every other name, and leaves no name of the handle. |
| `TimerWheel.PlacementUnwrapped` | core/uboss_timer.c:91-110 | With wrapped times `add_node` chooses the list it would choose on a clock that never wraps. |
| `TimerWheel.ShiftPlacement` | core/uboss_timer.c:137-157 | When the clock advances, only the timers of the redistributed list change their list. |
| `TimerWheel.ShiftLists` | core/uboss_timer.c:127-157 | After the redistribution every list holds what belongs there now, in insertion order. |
| `TimerWheel.DueIsNear` | core/uboss_timer.c:180-190 | The near list of the current tick holds exactly the timers due now, in insertion order. |
| `TimerWheel.Timer.AddNode` | core/uboss_timer.c:91-110 | Appends the node to the list of its placement and to no other. |
| `TimerWheel.Timer.TimerAdd` | core/uboss_timer.c:113-124 | Adding a timer keeps canonical placement, across clock wrap-around. |
| `TimerWheel.Timer.MoveList` | core/uboss_timer.c:127-134 | Redistributes one list in order. |
| `TimerWheel.Timer.FindMoved` | core/uboss_timer.c:137-157 | The loop finds the list that has to be redistributed at this tick. |
| `TimerWheel.Timer.TimerShift` | core/uboss_timer.c:137-157 | One tick forward keeps canonical placement. |
| `TimerWheel.Timer.AddAll` | core/uboss_timer.c:113-124 | Additions by other threads keep canonical placement. |
| `TimerWheel.Timer.TimerExecute` | core/uboss_timer.c:160-190 | Delivers what is due now, once and in order, whatever other threads add while the timer is unlocked for the delivery. |
| `TimerWheel.Timer.TimerUpdate` | core/uboss_timer.c:194-206 | One update delivers exactly the timers due at the new tick, in the order in which they were added, whatever is added meanwhile. |
| `TimerRuns.LogIsInOrder` | core/uboss_timer.c:160-206 | In every run, with additions between and during the updates, timers are delivered by tick, and within a tick in insertion order. |
| `TimerRuns.ExactlyOnce` | core/uboss_timer.c:160-206 | In every run each timer whose time has come was delivered exactly once, at its tick, and no other was. |
| `TimerRuns.Drive` | core/uboss_timer.c:113-206 | The wheel itself, driven through any run from its creation, delivers exactly that log. |
| `SprotoPack.UnpackWire` | lib/sproto/sproto.c:1281-1331 | As a stream, the wire form of any segments stands for exactly their bytes, with nothing left over. |
| `SprotoPack.UnpackedWhen` | lib/sproto/sproto.c:1281-1331 | For every stream: it is unpacked to what it stands for if and only if it is whole; it is refused if and only if it is cut short otherwise than by the last byte of a masked group; the byte behind it in memory matters if and only if it lacks just that byte. |
| `SprotoPack.CutWire` | lib/sproto/sproto.c:1281-1331 | A packed stream that lost bytes of its last segment is refused, unless it lost one byte of a masked group; then it is taken, and it comes out right if and only if the byte behind it happens to be the lost one. |
| `SprotoPack.ShortStream` | lib/sproto/sproto.c:1306-1329 | A stream of one byte that is cut short and taken, with any byte behind it as data. |
| `SprotoPack.SegmentBytes` | lib/sproto/sproto.c:1224-1278 | The segments made by the packer hold the source from each group on. |
| `SprotoPack.RoundTrip` | lib/sproto/sproto.c:1224-1331 | For every source, unpacking what was packed gives the source filled up with zeros, if and only if a short last group is not the 256th of a run or the bytes behind the source are zero; for whole groups it gives back the source. |
| `SprotoPack.OverreadSource` | lib/sproto/sproto.c:1224-1278 | A source that does not come back: 2046 bytes without a zero and a non-zero byte behind them. |
| `SprotoPack.RawExactly` | lib/sproto/sproto.c:1173-1207 | A group is part of a raw run if and only if it has no zero, or at most two while the run before it is open and not full. |
| `SprotoPack.PackedExample` | lib/sproto/README.md:381-386 | The first packing example of the documentation has the documented bytes. |
| `SprotoPack.SizeBound` | lib/sproto/sproto.c:1173-1278 | Amortized size: the segment that ends a raw run pays for its two bytes. |
| `SprotoPack.PackedFits` | lib/sproto/lsproto.c:480-491 | For every source size the packed size is at most the bound that `lpack` computes. |
| `SprotoBuffers.PackSeg` | lib/sproto/sproto.c:1173-1207 | Size and contents of one group; nothing before its place changes. |
| `SprotoBuffers.WriteFF` | lib/sproto/sproto.c:1211-1221 | Writes the wire form of a raw run and nothing else. |
| `SprotoBuffers.Pack` | lib/sproto/sproto.c:1224-1278 | For every source and buffer: the size needed and, if it fits, exactly the packed bytes, although run headers are written late and scratch bytes overwritten; memory behind the source is needed only where the packer reads it. |
| `SprotoBuffers.WriteLast` | lib/sproto/sproto.c:1271-1276 | A run that is open at the end is written with its padding. |
| `SprotoBuffers.UnpackSparse` | lib/sproto/sproto.c:1306-1329 | Expands one masked group if and only if at most one of its bytes is missing, with the byte behind the stream for that one; memory behind the stream is needed only where it is read. |
| `SprotoBuffers.Unpack` | lib/sproto/sproto.c:1281-1331 | For every stream and buffer: -1 if and only if the stream is cut short otherwise than by the last byte of a masked group; for a whole stream the size and, if it fits, its bytes; for one that lacks just that byte, the same with the byte behind it. Memory behind the stream is needed only where it is read. |
| `SprotoBuffers.PackUnpack` | lib/sproto/lsproto.c:477-513 | Packing into a buffer of the computed size and unpacking again gives back every source of whole groups. |
| `SprotoCodec.FindTag` | lib/sproto/sproto.c:584-608 | The field with the tag, or none if there is none. |
| `SprotoRoundTrip.IntAs` | lib/sproto/sproto.c:993-999 | An integer in four or eight bytes is read back with its sign. |
| `SprotoRoundTrip.IntsRoundTrip` | lib/sproto/sproto.c:1016-1044 | The elements of an integer array are read back. |
| `SprotoRoundTrip.EntriesFit` | lib/sproto/sproto.c:301-320 | A record needs at most `maxn` header entries, whichever fields are absent, and every entry fits into 16 bits. |
| `SprotoRoundTrip.BodyRoundTrip` | lib/sproto/sproto.c:792-858 | The data of every field, arrays of every kind included, is read back as the value. |
| `SprotoRoundTrip.FieldsRoundTrip` | lib/sproto/sproto.c:1066-1168 | Decoding follows the header entries through gaps and absent fields. |
| `SprotoRoundTrip.StructRoundTrip` | lib/sproto/sproto.c:862-1168 | Every record that is encoded, nested records and optional fields included, is decoded to the same record, using all its bytes. |
| `SprotoEncoder.Widen` | lib/sproto/sproto.c:690-702 | The sign of the four low bytes gives the four high ones. |
| `SprotoEncoder.Rearrange` | lib/sproto/sproto.c:752-767 | The elements written in four bytes are spread in place to eight, the last one first. |
| `SprotoEncoder.EncodeIntegerArray` | lib/sproto/sproto.c:705-789 | Leaves exactly the array, widening to eight bytes when the first large element appears, and succeeds if there is room. |
| `SprotoWire.WireFormat` | lib/sproto/README.md:205-229 | The bytes of a record are those that encoding gives if and only if they have the documented format: the number of words, then words that are odd for left-out tags, twice the value plus one for a boolean or a number from 0 to 0x7ffe, and zero for data; then the data with their sizes, numbers in four bytes exactly when they fit, one width byte for an array of numbers, one byte 0 or 1 for each boolean. |
| `SprotoWire.IntsFormat` | lib/sproto/README.md:223-225 | An array of numbers has one width byte, 4 exactly when all of them fit into 32 bits, and little-endian elements of that width. |
| `SprotoWire.Alice` | lib/sproto/README.md:247-258 | Example 1 of the documentation has the documented bytes. |
| `SprotoWire.Bools` | lib/sproto/README.md:337-351 | Example 5 of the documentation has the documented bytes. |
| `SprotoWire.Numbers` | lib/sproto/README.md:353-371 | Example 6 of the documentation has the documented bytes. |
| `SprotoWriter.FillSize` | lib/sproto/sproto.c:615-621 | The length goes in front of the content already written. |
| `SprotoWriter.WriteObject` | lib/sproto/sproto.c:673-687 | A string or record with its length in front. |
| `SprotoWriter.WriteItems` | lib/sproto/sproto.c:833-855 | The strings or records of an array, each with its length. |
| `SprotoWriter.WriteArray` | lib/sproto/sproto.c:792-858 | An array of any kind with its length in front. |
| `SprotoWriter.WriteField` | lib/sproto/sproto.c:880-930 | The inline word or the data of one field, which `SprotoWire.WireFormat` ties to the wire protocol. |
| `SprotoWriter.WriteHeader` | lib/sproto/sproto.c:957-965 | The number of entries is stored and the data moves up behind them. |
| `SprotoWriter.WriteStruct` | lib/sproto/sproto.c:862-966 | A successful call leaves exactly the bytes of the record in the buffer, which `SprotoWire.WireFormat` ties to the wire protocol, and touches nothing outside its space; with enough room it succeeds unless a gap between tags is too large. |
| `SprotoReader.SearchTag` | lib/sproto/sproto.c:584-608 | By index or by bisection, the field with the tag is found exactly if there is one. |
| `SprotoReader.ReadItems` | lib/sproto/sproto.c:969-990 | The loop over the strings or records of an array gives their values or the way in which it fails. |
| `SprotoReader.ReadBody` | lib/sproto/sproto.c:1002-1063 | The value of one field from its data, or the way in which it fails. |
| `SprotoReader.ReadStruct` | lib/sproto/sproto.c:1066-1168 | The loop over the header entries, with its length check and its progress in 32 bits and with what comes of the largest length words field by field, for every stream. |
| `SprotoReader.ReadsWhen` | lib/sproto/sproto.c:1066-1168 | For every stream whose size is an int: what is read is what decoding gives if and only if the stream has no length word of 2^32 - 4 or more before decoding ends, or the field of the first one is refused, or it is skipped and the rest is refused; a stream with such a word never decodes; on one the callback raises an error or the source reads behind the stream exactly as the field of the word says. |
| `SprotoReader.LongUnknown` | lib/sproto/sproto.c:1099-1113 | A stream whose length word passes the wrapped check under an unknown tag: it is accepted with seven of its eight bytes used, although it cannot be decoded. |
| `SprotoReader.LongKnown` | lib/sproto/sproto.c:1099-1154 | The same stream for every kind of known field: refused, left by an error, read behind its end, or accepted without a value. |
| `SprotoReader.WriteRead` | lib/sproto/sproto.c:862-1168 | A record written into a buffer with enough room has the bytes of the wire protocol and is read back as it was. |
| `RwLock.MoveKeepsInv` | core/uboss_lock.h:36-69 | Every atomic access by any thread keeps the words of the lock in agreement with the phases of all threads. |
| `RwLock.MutualExclusion` | core/uboss_lock.h:36-69 | In no run is a writer admitted alongside a reader or another writer. |
| `RwLock.FreeWhenAllOut` | core/uboss_lock.h:36-69 | When nobody is inside, both words are clear. |
| `StmProof.StepIsSafe` | lib/stm/lua-stm.c:46-113 | No step touches a freed snapshot. |
| `StmProof.KeepPointing` | lib/stm/lua-stm.c:105-113 | Swapping or clearing the pointer of the object keeps every count exact. |
| `StmReads.PublishedIsCurrent` | lib/stm/lua-stm.c:56-113 | In every run, while nobody has the lock for writing, the object points to the snapshot named by the latest update that has released the lock, to the first one if there is none, and to nothing after the writer has quit. |
| `StmReads.PublishedStays` | lib/stm/lua-stm.c:91-113 | That snapshot does not change while a reader has the lock. |
| `StmReads.ReadsPublished` | lib/stm/lua-stm.c:91-103 | A read gives the snapshot that is published from its look at the pointer until it releases the lock, nothing after the writer has quit, and the reader keeps it until its next read ends. |
| `StmReads.StepHist` | lib/stm/lua-stm.c:56-113 | Every step agrees with what the calls so far say about the published snapshot and about what every reader has read. |
| `StmProof.KeepCounting` | lib/stm/lua-stm.c:46-54 | Counting a snapshot up or down and freeing it keep every count exact. |
| `StmProof.StepKeepsInv` | lib/stm/lua-stm.c:46-113 | Every step of every thread keeps the invariant. |
| `StmProof.RunKeepsInv` | lib/stm/lua-stm.c:46-113 | In every run every state satisfies the invariant and no step touches a freed snapshot. |
| `StmProof.ReferredIsAlive` | lib/stm/lua-stm.c:192-233 | What the object points to and what a reader keeps is never freed, and its count is the number of those that refer to it. |
| `StmProof.FreedUnreferenced` | lib/stm/lua-stm.c:46-54 | A snapshot is freed by one thread, when neither the object nor any thread refers to it. |
| `StmProof.FreedOnce` | lib/stm/lua-stm.c:46-54 | No snapshot is freed twice. |
| `StmProof.SourceAssertionsHold` | lib/stm/lua-stm.c:56-103 | The assertions of the source hold in every state of every run between the start of the operation and the access, before its lock is taken as well. |
| `StmProof.ObjectUsedAlive` | lib/stm/lua-stm.c:56-90 | The object is freed once, by a thread with the last reference, and a step uses it after that if and only if it is the unlock of a leaving reader and no reference is left. |
| `StmLateUnlock.UnlocksFreedObject` | lib/stm/lua-stm.c:72-82 | A run in which a reader is about to unlock the object that another reader has freed. |
| `NetPack.CutStream` | lib/netpack/lua-netpack.c:197-223 | Cutting a stream anywhere makes no difference: the second part continues what the first left unfinished. |
| `NetPack.FramingIsExact` | lib/netpack/lua-netpack.c:238-317 | However the streams are cut and interleaved, the packets of a connection are the frames of its stream in order, and what is saved is the unfinished frame. |
| `NetPack.PacketQueue.Push` | lib/netpack/lua-netpack.c:156-172 | Appends a packet to the ring, which grows when it is full. |
| `NetPack.PacketQueue.Expand` | lib/netpack/lua-netpack.c:138-152 | Growing keeps the packets in order. |
| `NetPack.PacketQueue.Pop` | lib/netpack/lua-netpack.c:409-424 | Takes the oldest packet. |
| `NetPack.ChainTable.Find` | lib/netpack/lua-netpack.c:95-116 | Unlinks the unfinished packet of a connection from its hash chain, if and only if there is one; the chains stay well linked and every other connection keeps its bytes. |
| `NetPack.ChainTable.Save` | lib/netpack/lua-netpack.c:176-187 | Links the unfinished packet of a connection that has none at the head of its chain; other connections keep theirs. |
| `NetPack.Filter.PushMore` | lib/netpack/lua-netpack.c:197-223 | Queues the whole packets of a chunk and saves the rest. |
| `NetPack.Filter.FilterData` | lib/netpack/lua-netpack.c:238-317 | The frames of the saved bytes followed by the chunk come out, alone or through the queue; the unfinished rest is saved; other connections are not touched. |
| `NetPack.FilterAll` | lib/netpack/lua-netpack.c:238-317 | A whole run with its consumer delivers for every connection exactly the frames of its stream. |
| `SharedHash.FillNoColliding` | lib/sharedata/lua-sharedata.c:211-233 | After the first pass the main position of every key holds a key of that position. |
| `SharedHash.FreeSlot` | lib/sharedata/lua-sharedata.c:250-257 | A free slot is left as long as some key is not stored. |
| `SharedHash.InsertLinked` | lib/sharedata/lua-sharedata.c:258-265 | Linking a key behind its main position keeps every chain simple and complete. |
| `SharedHash.FillColliding` | lib/sharedata/lua-sharedata.c:236-270 | The second pass stores every other key and never runs out of slots. |
| `SharedHash.Build` | lib/sharedata/lua-sharedata.c:211-270 | The two passes store every key in a table of exactly as many slots. |
| `SharedHash.Bijection` | lib/sharedata/lua-sharedata.c:211-270 | Keys and slots correspond to each other one to one. |
| `SharedHash.Lookup` | lib/sharedata/lua-sharedata.c:500-528 | A key is found if and only if it was inserted, with its value; chains end. |
| `SharedHash.NextKey` | lib/sharedata/lua-sharedata.c:588-644 | From the key of a slot to that of the next. |
| `SharedHash.Traverse` | lib/sharedata/lua-sharedata.c:588-644 | Going through the table visits every key exactly once. |
| `DiffieHellman.AddModP` | lib/crypt/lua-crypt.c:668-675 | Addition modulo P without leaving 64 bits. |
| `DiffieHellman.DoubleModP` | lib/crypt/lua-crypt.c:676-680 | Doubling modulo P although the product wraps around. |
| `DiffieHellman.MulModP` | lib/crypt/lua-crypt.c:665-684 | The product modulo P for every factor up to P and every 64-bit factor. |
| `DiffieHellman.PowModPrime` | lib/crypt/lua-crypt.c:687-697 | The power modulo P by squaring. |
| `DiffieHellman.PowModP` | lib/crypt/lua-crypt.c:701-705 | The power modulo P if and only if not both the base is P and the exponent one. |
| `DiffieHellman.PublicKey` | lib/crypt/lua-crypt.c:740-757 | A public key is never zero, so that the other side accepts it. |
| `DiffieHellman.Exchange` | lib/crypt/lua-crypt.c:723-757 | Both sides of an exchange compute the same secret. |

## Left out

- LPeg captures, run-time captures, grammars, rules, calls and the ktable: they depend on the Lua stack and on Lua callbacks.
- The limit of the LPeg backtrack stack and its error: the stack of the model is unbounded.
- LpegVm.Interpret: instruction operands are decoded; their encoding in the bytes of the code array is not modelled.
- `lp_star`, `lp_behind` and the other constructors apart from sequence, choice and difference: they build trees directly; their rejections are the well-formedness condition of the theorems.
- The window between registering a context and storing its handle: registration is one step of the scheduler. Its runs take it that a handle is not issued again while a queue carries it, which `HandleTable.Serve` shows for as long as the counter has not gone through all numbers in between.
- What callers do with the context that `uboss_context_new` returns without a reference (core/uboss_command.c, core/uboss_start.c): a creation ends with the launch log.
- `uboss_context_dispatchall`, endless and profiling flags, sessions and the monitor: outside the ownership protocol.
- Fairness and progress of the scheduler and of the spinning locks: only safety is stated.
- core/socket_server.c, core/uboss_socket.c, module/harbor and module/gate: dominated by system calls and message glue.
- `uboss_timeout` with a delay of zero or less, which never reaches the wheel, and the system clock behind `uboss_updatetime`.
- SprotoReader.ReadStruct: where an array of booleans or numbers has a length word of 2^32 - 4 or more and the source reads behind the record, the outcome says just that; the bytes there are not modelled.
- Type errors, too deep tables and map arrays (`mainindex`) in the sproto callbacks: they leave by Lua errors or change the shape of the record; schema import is represented by what it guarantees.
- SprotoWriter.WriteStruct: does not state the contents of the buffer after a failed call, because the caller discards it and starts again with a larger one.
- What an access to freed memory does: the late uses of a context and of an STM object are located exactly, and their effects are not modelled.
- Closing a connection in netpack, the array part and the reference counts of shared tables, and conversion of nested tables.
- SharedHash.Lookup: the hash function is arbitrary, so that `calchash` itself is not modelled; keys are compared as values, not by interned index.
- DES, SHA-1, MD5, HMAC, hex and base64 of lib/crypt, lua-seri, bson, md5, cluster, mongo, mysql, profile, logging, daemon, module loading, environment and malloc hooks: large tables of constants, input and output, or thin wrappers.
- That the modulus of the key exchange is the biggest 64-bit prime (lib/crypt/lua-crypt.c:661): no result here depends on it.
- 3rd/lua and 3rd/dlfcn: third-party code.
