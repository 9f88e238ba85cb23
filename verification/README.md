# QAPI lists, coroutine wrappers, the DMA sample and the timing table, in Dafny

The project models four pieces of the repository and proves what they promise over all inputs,
all interleavings or all call sequences. `dafny verify dfyconfig.toml` checks all of it.

**QAPI list visitors** (`CHeap.dfy`, `Visitor.dfy`, `Lists.dfy`, `ListVisit.dfy`, `RoundTrip.dfy`).
The generated `visit_type_XList` is one loop that builds, reads or frees a linked list depending on
the visitor it is given, and its error path calls `qapi_free_XList`, which calls it back with a
dealloc visitor. The heap is explicit: a block is reached only through a map from addresses to live
blocks, and addresses are never handed out twice, so a use after free or a double free would not
verify. One model covers the loop that all the list types share; the element type is a parameter, a
scalar (a 64-bit number, as in `uint64List`) or a string that the cell owns (`strList`). The visitors themselves are not in the repository: `Visitors.Visitor` is a
reference visitor whose method contracts say what the generated code relies on, and the list code is
verified against those contracts only. A visitor carries an arbitrary set of call numbers at which it
fails, so the theorems range over every point of failure; a dealloc visitor never fails.

**The marshaller** (`Marshal.dfy`). `qmp_marshal_block_latency_histogram_set` composes one string and
four optional lists in a struct, calls the handler if the dictionary was accepted and releases
whatever was built. `Accepted` and `Decoded` describe the command in terms of the dictionary alone.

**Coroutine wrappers** (`CoWrapper.dfy`). The poller and the coroutine are two sides of a step machine
over the shared request record. The order of the entry function's three closing statements is a
parameter, and the source's order is shown to be the only one that works.

**Page pinning and the DMA handshake** (`PagePin.dfy`, `Handshake.dfy`). `simple_ioctl` with its page
arithmetic in C widths, rollback and reference counts; `main` of the DMA application against an
endpoint, in any interleaving of the two transactions; and the two joined, so that what the
application believes pinned is what the driver holds, for any two aligned buffers and any outcome of
the two PINs.

**The timing table** (`Measure.dfy`). `avy_wallclock_diff` on its ten-slot array refines a bounded map
that is defined on the sequence of calls alone, as long as no key is longer than its slot.

`Common.dfy` holds what the modules share.

Where a property fails, the exact condition under which it holds is proved instead:

- The pinned page count is the least that covers the buffer if and only if the 64-bit sum in line 154
  of `simple.c` stays below 2^44 (`PagePin.PageCountExact`). Beyond that it no longer fits the
  `unsigned int` it is stored in, or the sum itself wraps.
- PIN reads `pages[0]` without checking that a page was pinned. Some result of the page lookup makes it
  fault if and only if the page count is 0 or at least 2^32 - 4095, where a negative result compared
  as unsigned equals it (`PagePin.PinCanFault`). Below 2^44 a count of 0 means an empty, page-aligned
  buffer (`NoPages`), and `EmptyBufferFaults` gives that failing run.
- The one physical address PIN reports reaches the whole buffer if and only if its frames are
  consecutive (`PagePin.ReportedReaches`).
- FREE does not look at the block it is given. Counts that were right stay right if and only if a block
  that names a live pin's array also names all the pages of that pin (`PagePin.Driver.IoctlFree`,
  `FreeConserves`).
- FREE comes after the endpoint's last access, in every interleaving, if and only if both PINs succeed
  and the endpoint resets `enable` when it reads a transaction and is either never found owing a
  `done`, or both clears `done` on `enable` and is finished by the tenth poll
  (`Handshake.SafeExactlyWhen`, for every endpoint and every two buffers; `FirstPinFails`,
  `SecondPinFails`, `ServedAgain`, `TooSlow` and `StaleDone` give the failing runs). The application
  looks at neither result of PIN, resets neither `enable` nor `done` itself, and the header comment of
  `dma-app.c` promises none of the three facts about the endpoint.
- `avy_wallclock_diff` copies a new key into a 64-byte slot. A call overruns the slot if and only if its
  key has 64 bytes or more, was not registered before and meets a free slot (`Measure.Overruns`, as
  `Records.WallclockDiff` and `LongFirstKey` state it), and the table is the bounded map for exactly the
  call sequences in which every registered key fits (`WithinExactly`, `CallAll`).

Where the source and its comments disagree, the model follows the code: the second transaction writes
opcode 0, which the header comment of `dma-app.c` calls a read and the comment beside the assignment a
write; the comment "No pages were pinned" in `simple.c` stands at a branch that also handles some.

## Model

| member | source | states |
|---|---|---|
| Visitors.Visitor.StartList | aqemu/tools/build_x86/qapi/qapi-builtin-visit.c:24-26 | Assumed visitor contract: an input visitor opens the list found under the name and allocates the first zeroed cell if there are elements, and leaves NULL behind when it fails; the other two leave the list alone. |
| Visitors.Visitor.VisitElem | aqemu/tools/build_x86/qapi/qapi-builtin-visit.c:30-32 | Assumed visitor contract: an input visitor consumes one element and yields a fresh string or a number, or NULL on failure; an output visitor appends the value; a dealloc visitor frees the string. |
| Visitors.Visitor.NextList | aqemu/tools/build_x86/qapi/qapi-builtin-visit.c:28-29 | Assumed visitor contract: an input visitor allocates and links a cell while elements remain; a dealloc visitor frees the cell it is given after reading its link. |
| Visitors.Visitor.CheckList | aqemu/tools/build_x86/qapi/qapi-builtin-visit.c:35 | Assumed visitor contract: may fail at will, and fails for an input visitor with unread elements. |
| Visitors.Visitor.EndList | aqemu/tools/build_x86/qapi/qapi-builtin-visit.c:37 | Assumed visitor contract: leaves exactly the innermost level; an output visitor hands its list to the enclosing one. |
| Visitors.Visitor.StartStruct | aqemu/tools/build_x86/qapi/qapi-commands-block.c:394-397 | Assumed visitor contract: an input visitor enters the dictionary with all its members unvisited, or fails and enters nothing. |
| Visitors.Visitor.Optional | aqemu/tools/build_x86/qapi/qapi-visit-block.c:268 | Assumed visitor contract: an input visitor reports presence, the others leave the flag as it is. |
| Visitors.Visitor.CheckStruct | aqemu/tools/build_x86/qapi/qapi-commands-block.c:398-400 | Assumed visitor contract: may fail at will, and fails for an input visitor with unvisited members. |
| Lists.FreeOrderNoDup | aqemu/tools/build_x86/qapi/qapi-builtin-types.c:18-29 | The order in which a dealloc pass frees the blocks of an owned list names no block twice. |
| Lists.OwnedFreedOnce | aqemu/tools/build_x86/qapi/qapi-builtin-types.c:18-29 | What a dealloc pass adds to the log of freed blocks has no repetition, and every block in it was allocated. |
| Lists.FreeOrderLive | aqemu/tools/build_x86/qapi/qapi-builtin-types.c:18-29 | Every block a dealloc pass frees is allocated and not NULL. |
| Lists.BuildingUndone | aqemu/tools/build_x86/qapi/qapi-builtin-visit.c:38-41 | Freeing a half-built list gives back the heap from before the visit, and each address handed out since is freed exactly once. |
| Lists.StoreValue | aqemu/tools/build_x86/qapi/qapi-builtin-visit.c:30-32 | Storing a freshly read element through the tail cell keeps the list well formed and solely responsible for everything allocated, and keeps the earlier elements. |
| Lists.AppendCell | aqemu/tools/build_x86/qapi/qapi-builtin-visit.c:28-29 | Linking one more cell after the tail keeps the list well formed and solely responsible for everything allocated. |
| Lists.DeallocSurvivor | aqemu/tools/build_x86/qapi/qapi-builtin-visit.c:28-33 | In the middle of a dealloc pass the cell about to be visited is still allocated and unchanged, and so is its string. |
| ListVisit.ReadElement | aqemu/tools/build_x86/qapi/qapi-builtin-visit.c:30-32 | Under an input visitor an element call and the store of its result keep the list valid for rollback, and on success record the element in its place. |
| ListVisit.ReadStep | aqemu/tools/build_x86/qapi/qapi-builtin-visit.c:28-29 | Under an input visitor a step keeps the walk going exactly while elements remain. |
| ListVisit.FreeStep | aqemu/tools/build_x86/qapi/qapi-builtin-visit.c:28-29 | Under a dealloc visitor a step frees the cell and goes on with the link read from it before. |
| ListVisit.VisitAt | aqemu/tools/build_x86/qapi/qapi-builtin-visit.c:30 | The element call on the tail cell advances the walk by one element for each of the three kinds of visitor. |
| ListVisit.Walk | aqemu/tools/build_x86/qapi/qapi-builtin-visit.c:28-33 | The loop ends for every visitor and list, succeeds exactly if every element fits and no element call fails, and has then read, written or freed all elements in order. |
| ListVisit.VisitTypeList | aqemu/tools/build_x86/qapi/qapi-builtin-visit.c:17-43 | Input: true exactly if the source is a readable list, and then a fresh list with its elements in order is the only thing allocated; false leaves NULL, the old heap, and every new block freed exactly once. Output: the list is untouched and written in order. Dealloc: every cell and string is freed once in list order and the dangling pointer is not touched. The nesting stack is bracketed on all exits, and the mutual recursion with the free function ends. |
| ListVisit.FreeList | aqemu/tools/build_x86/qapi/qapi-builtin-types.c:18-29 | Frees exactly the blocks of the list, in list order, each once and each allocated until then, and releases the visitor it created. |
| ListVisit.Rollback | aqemu/tools/build_x86/qapi/qapi-builtin-visit.c:38-41 | The error path restores the heap from before the visit and leaves NULL. |
| RoundTrip.ContentsReadable | aqemu/tools/build_x86/qapi/qapi-builtin-visit.c:17-43 | What an output visitor writes for a list is accepted by an input visitor for the same element type. |
| RoundTrip.Copy | aqemu/tools/build_x86/qapi/qapi-builtin-visit.c:17-43 | Writing a list and reading the result back yields a list equal in length, order and values that shares no block with the original, which is unchanged. |
| RoundTrip.Reprint | aqemu/tools/build_x86/qapi/qapi-builtin-visit.c:17-43 | Reading a list of fitting elements and writing it gives the same elements back, and nothing stays allocated. |
| Marshal.VisitOptional | aqemu/tools/build_x86/qapi/qapi-visit-block.c:268-272 | An optional list is absent, built completely, or undone and NULL, with the exact condition for each; a dealloc visitor frees it if the flag says it is there. |
| Marshal.VisitId | aqemu/tools/build_x86/qapi/qapi-visit-block.c:265-267 | The string member is read into a fresh block or left NULL, and released by a dealloc visitor. |
| Marshal.PendingAfterUndo | aqemu/tools/build_x86/qapi/qapi-builtin-visit.c:38-41 | A list that was undone leaves the earlier members' blocks as the only ones still to be released. |
| Marshal.AcceptedByName | aqemu/tools/build_x86/qapi/qapi-visit-block.c:263-289 | Which dictionaries are accepted, member by member and without the order of the schema: the string `id`, four optional lists of 64-bit numbers, nothing else, and no failing call among the ones parsing takes. |
| Marshal.DecodedByName | aqemu/tools/build_x86/qapi/qapi-commands-block.c:412 | Which member of the dictionary, by name, reaches which argument of the handler, by position. |
| Marshal.FillMember | aqemu/tools/build_x86/qapi/qapi-visit-block.c:263-289 | Parsing one more member leaves the earlier ones with their lists and contents and adds its own blocks, or none on failure. |
| Marshal.EmptyMember | aqemu/tools/build_x86/qapi/qapi-visit-block.c:263-289 | When the dealloc pass comes to a member, its list is still intact. |
| Marshal.VisitMember | aqemu/tools/build_x86/qapi/qapi-visit-block.c:268-287 | One optional member of the struct, under either kind of visitor. |
| Marshal.VisitMembers | aqemu/tools/build_x86/qapi/qapi-visit-block.c:263-289 | An input visitor fills the struct exactly if all members fit and no call fails, and otherwise stops with a struct that owns what was built; a dealloc visitor releases all of it in order. |
| Marshal.AcceptedByCheck | aqemu/tools/build_x86/qapi/qapi-commands-block.c:398-404 | After the members only `visit_check_struct` can still reject, and it does so exactly for a fault or a member nobody asked for. |
| Marshal.VisitArg | aqemu/tools/build_x86/qapi/qapi-commands-block.c:395-404 | The struct visit accepts exactly the dictionaries described by `Accepted`, and closes what it opened. |
| Marshal.SeenAsDecoded | aqemu/tools/build_x86/qapi/qapi-commands-block.c:412 | The arguments the handler sees are what the dictionary says. |
| Marshal.Parse | aqemu/tools/build_x86/qapi/qapi-commands-block.c:394-417 | The handler is called once, with the decoded dictionary, if that is accepted, and not at all otherwise. |
| Marshal.ReleaseArg | aqemu/tools/build_x86/qapi/qapi-commands-block.c:421-427 | Whatever part of the struct was built is released, and each block is freed exactly once. |
| Marshal.QmpMarshal | aqemu/tools/build_x86/qapi/qapi-commands-block.c:387-428 | For every dictionary and every point of failure: the heap is as before, every block allocated meanwhile has been freed exactly once, both visitors are gone, and the handler was called with the decoded dictionary exactly if that was accepted; an error is reported exactly if it was not or the handler failed. |
| CoWrapper.InvHolds | aqemu/tools/build_x86/block/block-gen.c:38-66 | The handoff invariant, with no lost wake-up, survives every run. |
| CoWrapper.RecordOutlivesCoroutine | aqemu/tools/build_x86/block/block-gen.c:38-66 | In every interleaving the coroutine never touches the request record after it is gone, and when the wrapper has returned, with the operation's result, at most the kick is left. |
| CoWrapper.WaitEnds | aqemu/tools/build_x86/block/block-gen.c:42-45 | Once the operation has finished, three turns of the coroutine and then four of the poller, among any other events, end the wait with the operation's result. |
| CoWrapper.ReturnedAfterFinish | aqemu/tools/build_x86/block/block-gen.c:48-66 | The wrapper does not return before the operation has finished and the coroutine has started, written the result and cleared the flag, nor without testing the flag itself. |
| CoWrapper.ClearedTooEarly | aqemu/tools/build_x86/block/block-gen.c:42-43 | Clearing the flag before the result is written makes some run unsafe. |
| CoWrapper.StuckForEver | aqemu/tools/build_x86/block/block-gen.c:43-45 | With the poller blocked, the coroutine done and no kick on its way, no run of any length changes anything, short of a wake-up from elsewhere. |
| CoWrapper.WakeUpLost | aqemu/tools/build_x86/block/block-gen.c:43-45 | Kicking before the flag is cleared has a run that ends in such a state. |
| CoWrapper.KickedTooEarly | aqemu/tools/build_x86/block/block-gen.c:43-45 | Kicking before the flag is cleared has a run, with the operation finished, after which the wrapper never returns unless something else wakes it, so no number of turns ends every wait. |
| CoWrapper.OnlyThisOrder | aqemu/tools/build_x86/block/block-gen.c:42-45 | Of all orders of the three closing statements, exactly the source's makes every run safe and every wait end within some number of turns; four are enough. |
| CoWrapper.Handoff.CoTurn | aqemu/tools/build_x86/block/block-gen.c:38-46 | One step of the entry function on the shared record, from which it takes the arguments of the operation. |
| CoWrapper.Handoff.PollTurn | aqemu/tools/build_x86/block/block-gen.c:65 | One step of the assumed `bdrv_poll_co`: become a waiter, test the flag, block until an event, return `ret`. |
| CoWrapper.Wrapper | aqemu/tools/build_x86/block/block-gen.c:48-67 | Inside or outside a coroutine and under any schedule, a wrapper that returns returns what the operation returns for the caller's arguments; outside one it has returned exactly if the poller has, never before the operation has finished, and under a fair schedule always. |
| PagePin.PageCountExact | aqemu/tools/app/simple_dma/simple.c:151-154 | For every address and nonzero length the page count covers the buffer and one page fewer does not, if and only if the sum is below 2^44. |
| PagePin.PageCountCut | aqemu/tools/app/simple_dma/simple.c:154 | Beyond that bound the count is the right one modulo 2^32, and 0 or 1 once the 64-bit sum wraps. |
| PagePin.PageCountIsCeiling | aqemu/tools/app/simple_dma/simple.c:154 | Below that bound the shift is a ceiling division. |
| PagePin.PinOutcomeExactly | aqemu/tools/app/simple_dma/simple.c:155-203 | PIN returns 0 if and only if the array could be allocated and all of the pages, at least one, were pinned; it faults exactly for a result of 0 or less that equals the page count as `unsigned int`; otherwise it returns -22. |
| PagePin.ReportedReaches | aqemu/tools/app/simple_dma/simple.c:181-196 | Counting on from the one reported physical address leads to every byte of the buffer if and only if its frames are consecutive. |
| PagePin.PinCanFault | aqemu/tools/app/simple_dma/simple.c:169-181 | Some lookup result makes PIN read a page that was never pinned if and only if the page count is 0 or at least 2^32 - 4095. |
| PagePin.NoPages | aqemu/tools/app/simple_dma/simple.c:154 | Below the bound on the sum the page count is 0 exactly for an empty, page-aligned buffer. |
| PagePin.EmptyBufferFaults | aqemu/tools/app/simple_dma/simple.c:151-182 | PIN of such a buffer faults although the lookup does all it was asked. |
| PagePin.HeldRemoved | aqemu/tools/app/simple_dma/simple.c:212-214 | Taking one pin out of the live ones takes exactly its references out of the total. |
| PagePin.StepConserves | aqemu/tools/app/simple_dma/simple.c:148-216 | One PIN, whatever its outcome, or one FREE keeps each count equal to its initial value plus the live pins. |
| PagePin.RunConserves | aqemu/tools/app/simple_dma/simple.c:148-216 | The same over every command sequence; the count of a page under a live pin is above its initial value, and once everything is freed all counts are back. |
| PagePin.FreeConserves | aqemu/tools/app/simple_dma/simple.c:204-216 | FREE of a live pin with a block that names some number of its pages, possibly negative, keeps the counts right if and only if those are all of them. |
| PagePin.LivePageHeld | aqemu/tools/app/simple_dma/simple.c:165-166 | A page under a live pin has at least one more reference than it started with. |
| PagePin.Driver.PutPages | aqemu/tools/app/simple_dma/simple.c:212-214 | The release loop drops exactly one reference for each pinned entry. |
| PagePin.Driver.GetUserPages | aqemu/tools/app/simple_dma/simple.c:165-166 | Assumed contract of the page lookup, whose result fits an `int`: it references the frames it reports and stores them at the front of the array. |
| PagePin.Driver.IoctlPin | aqemu/tools/app/simple_dma/simple.c:148-203 | The outcome of PIN in each case, with the exact condition for success, the block it hands back, and the new driver state; any other PIN leaves counts and pins as they were, a failing one the arrays too, and the allocated arrays stay those of the live pins, one each. |
| PagePin.FreeDefinedExactly | aqemu/tools/app/simple_dma/simple.c:204-216 | FREE is harmless exactly for a block that names the array of a live pin and no more pages than it holds, or no page and NULL or an abandoned array. |
| PagePin.Driver.IoctlFree | aqemu/tools/app/simple_dma/simple.c:204-216 | FREE of any block at all: when it faults; that the block of a live pin drops that pin, its array and the references the block names, and nothing else; that an abandoned array or NULL drops no reference; and that right counts stay right if and only if the block names all pages of the pin whose array it names. |
| PagePin.Execute | aqemu/tools/app/simple_dma/simple.c:148-216 | A client that issues any legal commands and frees with the blocks PIN reported: the driver runs through the states of `RunConserves` and holds one array for each live pin and, unless a PIN faulted, no other. |
| Handshake.AddressReassembled | aqemu/tools/app/simple_dma/dma-app.c:105-106 | The two 32-bit register writes keep every 64-bit address, and each value fits its register. |
| Handshake.TransferIsThePage | aqemu/tools/app/simple_dma/dma-app.c:76-107 | A page-aligned buffer of 4096 bytes is pinned as one page, and the double words programmed from the reported physical address are exactly the bytes of that page. |
| Handshake.RunKeepsInv | aqemu/tools/app/simple_dma/dma-app.c:92-155 | With both PINs successful the handshake invariant survives every run in which a well-behaved endpoint keeps to its latency. |
| Handshake.FreedAfterLastTouch | aqemu/tools/app/simple_dma/dma-app.c:111-120 | In every such run the endpoint is idle and not enabled whenever the page is not pinned, in both transactions. |
| Handshake.ServedAsProgrammed | aqemu/tools/app/simple_dma/dma-app.c:105-144 | In every such run a busy endpoint works on what the application means: opcode 1 in the first transaction and 0 in the second, 1024 double words, and the address of the page pinned. |
| Handshake.OpcodeAndPolls | aqemu/tools/app/simple_dma/dma-app.c:105-152 | In every run, with any endpoint: once written, the opcode is 1 in the first and 0 in the second transaction, and neither is polled more than ten times. |
| Handshake.Ends | aqemu/tools/app/simple_dma/dma-app.c:92-155 | Whatever the endpoint does, the application has ended after 34 turns of its own, by a fault exactly if a PIN failed and left garbage in its block. |
| Handshake.TakesThirtyFour | aqemu/tools/app/simple_dma/dma-app.c:112-152 | Against an endpoint that never answers it takes exactly 34 turns, ten polls in each transaction. |
| Handshake.FirstPinFails | aqemu/tools/app/simple_dma/dma-app.c:92-109 | The result of the first PIN is ignored: if it fails, some run touches a page that is not pinned, with every endpoint. |
| Handshake.SecondPinFails | aqemu/tools/app/simple_dma/dma-app.c:134-144 | The same for the second PIN. |
| Handshake.TooSlow | aqemu/tools/app/simple_dma/dma-app.c:112-120 | With an endpoint still busy at the tenth poll some run touches a freed page. |
| Handshake.StaleDone | aqemu/tools/app/simple_dma/dma-app.c:144-155 | With a `done` left over from the first transaction some run of the second one touches a freed page. |
| Handshake.ServedAgain | aqemu/tools/app/simple_dma/dma-app.c:109-120 | With an endpoint that leaves `enable` set, which the application never takes back, some run serves the first transaction again and touches a freed page. |
| Handshake.SafeExactlyWhen | aqemu/tools/app/simple_dma/dma-app.c:92-155 | For every endpoint and every two buffers, the exact condition under which every run from any register contents is safe: both PINs succeed, and three facts about the endpoint. |
| Handshake.RunFollows | aqemu/tools/app/simple_dma/dma-app.c:92-155 | For any two aligned buffers and any outcome of the PINs, the driver commands the application issues are legal in every run, and the driver's live pin is that of the current transaction. |
| Handshake.TouchedPageIsReferenced | aqemu/tools/app/simple_dma/dma-app.c:92-155 | In every run all counts are back at the end, for any outcome of the PINs; if both succeed, the page behind each double word a well-behaved endpoint may touch has exactly one reference more than it started with. |
| Handshake.Rig.PinTurn | aqemu/tools/app/simple_dma/dma-app.c:91-92 | PIN through the driver, successful or not; a success overwrites the block the application holds with what PIN reports. |
| Handshake.Rig.FreeTurn | aqemu/tools/app/simple_dma/dma-app.c:120 | FREE through the driver with the block as PIN left it: it undoes a successful PIN, and after a failed one it does nothing or faults. |
| Handshake.Rig.WriteRegister | aqemu/tools/app/simple_dma/dma-app.c:105-109 | One register write, with the address found in the application's block. |
| Handshake.Rig.HostTurn | aqemu/tools/app/simple_dma/dma-app.c:92-120 | One access of the application: PIN, a register write, a poll or FREE, with the driver commands it issues. |
| Handshake.Rig.EndpointTurn | aqemu/tools/app/simple_dma/dma-app.c:14-30 | One step of the endpoint of the header comment; whether it resets `enable` and `done`, which the comment leaves open, are parameters. It does not reach the driver. |
| Handshake.Play | aqemu/tools/app/simple_dma/dma-app.c:59-161 | Application, driver and endpoint go through the states of the run under any schedule, and the driver through those of the commands issued. |
| Handshake.Application | aqemu/tools/app/simple_dma/dma-app.c:59-161 | For any two aligned buffers, outcome of the PINs, register contents and schedule: FREE faults only after a failed PIN; with both successful, a well-behaved endpoint that keeps to its latency never touches a page that is not pinned; the application ends within 34 turns of its own, and by a fault exactly for garbage in a block; and then, without a fault, all counts are back and no array is left. |
| Measure.Records.WallclockDiff | aqemu/lib/measure/measure.cpp:23-64 | The two loops do to the array what the call sequence demands and report what it says, for every key, the empty one included, unless the key overruns its slot; it does so exactly if it is too long, unregistered and a slot is left. |
| Measure.SlotOf | aqemu/lib/measure/measure.cpp:28-29 | After any calls a registered key is found in its own slot, the first free slot follows the used ones, and any other key is found nowhere. |
| Measure.ApplyRefines | aqemu/lib/measure/measure.cpp:28-60 | One call keeps the refinement between the array and the call sequence. |
| Measure.TableRefines | aqemu/lib/measure/measure.cpp:13-64 | After every call sequence in which no key overruns its slot the used slots are a prefix in registration order with distinct keys, and each record holds its key's first and last call times and one plus the number of later reporting calls, modulo 2^64. |
| Measure.RegisteredExactly | aqemu/lib/measure/measure.cpp:50-63 | As many keys are registered as distinct non-empty ones have been used, up to ten, and all of those while there are no more than ten. |
| Measure.FreeSlots | aqemu/lib/measure/measure.cpp:28-33 | Calls with the empty key use the first free slot, whose time and count they change; the slots behind it stay blank. |
| Measure.ReportedExactly | aqemu/lib/measure/measure.cpp:31-43 | The count, the time since the key's last call and the total since the first registered key was first used, for every sequence of calls and from the calls alone; nothing for unknown keys and initialising calls. |
| Measure.OverrunsInTable | aqemu/lib/measure/measure.cpp:50-54 | The two searches end in a copy that overruns the slot exactly for a long key without a slot while one is free. |
| Measure.WithinExactly | aqemu/lib/measure/measure.cpp:50-54 | No call of a sequence overruns a slot if and only if every key given a slot has fewer than 64 bytes, and then so does every key in the table. |
| Measure.LongFirstKey | aqemu/lib/measure/measure.cpp:54 | The first call overruns its slot if and only if its key has 64 bytes or more. |
| Measure.CallAll | aqemu/lib/measure/measure.cpp:23-64 | Any call sequence on a fresh table either overruns a slot, as the condition on the sequence says, or leaves the bounded map of its registered keys in the array and has reported the lines the calls ask for. |
| Measure.UnknownKeyIgnored | aqemu/lib/measure/measure.cpp:50-63 | An unknown key on a full table changes no record, and the empty key never changes a used one. |
| Measure.DiffSincePrevious | aqemu/lib/measure/measure.cpp:31 | The difference a call computes is the time since the previous call with its key. |
| Measure.DiffsTelescope | aqemu/lib/measure/measure.cpp:31-33 | The differences computed for a key add up to the time between its first and last call, which is `previous_time - start_time`. |
| Measure.TableOrdered | aqemu/lib/measure/measure.cpp:55-56 | With a clock that never goes back, start times follow slot order and no record ends before it starts. |
| Measure.TotalCoversDiff | aqemu/lib/measure/measure.cpp:31-37 | With such a clock the total reported for a registered key is at least the difference reported with it. |

## Left out

- The visitor implementations, `bdrv_poll_co`, the coroutine runtime and the kernel's page functions are not part of this model; their contracts, with partial and failing results, are.
- Address reuse by the allocator: the heap never hands out an address twice, which makes every dangling pointer detectable. Allocation of list cells and strings always succeeds, as `g_malloc0` does.
- `&tail->value` is passed to the element visitor as a value in and out, so a visitor that keeps the pointer is not captured.
- Element types that hold a reference-counted object (`anyList`, `nullList`), and the ranges of the narrower number types.
- Lenient number conversions of the input visitor: a number element is accepted exactly from 0 to 2^64 - 1.
- The marshaller's four `has_x`, `x` pairs are a sequence indexed in schema order, and its four copies of the optional-member code are four calls of one method.
- Trace calls, the text of error messages and everything printed.
- The other marshallers, event and type files: instances of the same templates.
- WaitEnds: that the wrapped operation itself finishes is its own business.
- What the wrapped block operation does, apart from returning a result.
- IoctlFree: a forged or stale pointer that happens to name other kernel memory counts as a fault; what the kernel does after a fault, and which references a faulting loop has dropped by then, are not part of this model.
- Failure of `copy_from_user`, `copy_to_user` and of the first allocation in `simple_ioctl`, the block it leaks, and the kernel mapping made by PIN that FREE does not undo.
- The width of physical addresses in `simple_ioctl`: `physAddr` is unbounded there, and required to fit 64 bits where it is split over two registers. The pages array has one entry per page; the source allocates it larger.
- mmap, character device and module set-up of the driver, and failing system calls of the application other than PIN.
- SafeExactlyWhen: the endpoint starts idle with `enable` clear, and its latency is counted in polls of the application; runs in which it exceeds its own latency are not judged.
- PinCanFault: for the largest page counts the allocation of the pages array, some 2^38 bytes, would have to succeed. PIN also follows NULL when the kernel mapping of the pages fails, which is not part of this model.
- Application: it stops at a fault of FREE, after which nothing is said about the driver's counts.
- Overflow of `clock_t` arithmetic, the conversion to seconds, and the output file, which the insert loop reopens for each slot it looks at.
- WallclockDiff: when a key overruns its slot, nothing is promised about the array: what the copy overwrites is not part of this model.
