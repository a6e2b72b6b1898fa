# Verified models of concurrent, codec and layout code in the backend

This project models, in Dafny, the parts of the backend and of its vendored headers that hold complete
algorithms, and proves properties of them for all inputs, all runs and all interleavings.
`dafny verify dfyconfig.toml` checks the whole project.

**`ProcessGroup`** (`FreeList*.dfy`, `ProcessGroup.dfy`). The lock-free list of task contexts is a
transition system with one step per atomic operation, any number of threads inside `push` and `pop`,
and compare-and-exchanges that may fail spuriously. Its free list is read off the `next` pointers, never
stored. For schedules with one popper at a time the list is proved to be a LIFO stack with no ABA
problem, the pool is partitioned, the semaphore counts the list, and the number of retries of a `pop`
has an exact bound. What happens without the one-popper rule is decided too: it is unnecessary exactly
for pools of one or two contexts. The class changes its fields in place and is tied to the transition
system step by step.

**The failure slot** of the same class (`FailureSlot*.dfy`, `FailureReporter.dfy`): the first failure
published is the one thrown, and every heap string is freed exactly once. For runs that break the rule
that the owner acts alone, it is decided which of them lose a string.

**`Xdr`** (`Xdr*.dfy`): the typed readers and writers with their shifts, masks and sign extensions on
bit vectors, zero-terminated strings, padding and chunked skipping, over a raw buffer and over a stream.

**`SplitChannels`** (`StringOrder.dfy`, `PartNames.dfy`, `PartNameClashes.dfy`, `PartNumbers.dfy`,
`PartSplit.dfy`): part numbers are specified independently of the algorithm, as ranks in an order on
(layer, view) pairs, and the three phases are proved to compute them; for single-part mode it is decided
which sets of views give distinct internal names.

**`dynamic_format_arg_store`** (`ArgStore.dfy`), **`ComputeBasePointer`** (`BasePointer.dfy`),
**`renameChannelsInMap`** (`ChannelRenaming.dfy`) and the **shutdown protocol** of `main.cpp`
(`Shutdown.dfy`, `ShutdownOrder.dfy`, `ShutdownProcess.dfy`).

Assumptions about callers are stated as preconditions or as properties of schedules: `numThreads >= 1`
(the constructor takes the address of element 0), workers push only contexts they hold, and
`throw_on_failure` and the destructor run only while nobody records. A raw pointer is not asked for more
bytes than its buffer holds. Interference by other threads, spurious failures and wakeups, vector growth
and whether a server starts are parameters or arbitrary choices.

Where the code and its comments differ, the model follows the code:

- `pop` says that a static pool is what rules out ABA problems. The proof needs the other half of that
  comment, that one thread pops; with overlapping pops a static pool of three is not enough
  (`FreeListOverlap.OverlapBreaksLargePools`).
- `size()` of the argument store is documented as the number of elements. It counts the hidden header,
  and the lookup guard inherits that (`ArgStore.SizeCountsTheHeader`,
  `ArgStore.LookupGuardFailsExactly`).
- `reserve` with a named argument stored can move the records without refreshing the header
  (`ArgStore.Store.Reserve`).
- `skip` returns early when a chunk took the last byte of a stream, even if bytes are still to be
  skipped, so it can miss the end of a stream (`XdrStrings.ChunkedSkipAgreesExactlyWhen`).
- `RequestShutdown` raises the flag without the mutex, so its notification can be lost
  (`Shutdown.CarelessRunsCanStick`).
- `main` spawns the watcher before it starts the servers, and the watcher shuts the gRPC server down once.
  A server built after that keeps `main` inside `server.init`, so "the process shuts down when asked to"
  fails for early requests (`ShutdownOrder.EarlyRequestStrands`); a shutdown that does complete leaves
  nothing running (`ShutdownOrder.CompleteLeavesNothingRunning`).

## Model

| member | source | states |
|---|---|---|
| `FreeListTheorems.EverySwapIsOneStackOperation` | backend/include/OpenEXR/IlmThreadProcessGroup.h:68-111 | No ABA. After any run with one popper at a time and any number of pushers, each next step either pushes exactly the swapped-in context, or pops exactly the first one, or leaves the list (read off the `next` pointers) as it was |
| `FreeListTheorems.PoolIsPartitioned` | backend/include/OpenEXR/IlmThreadProcessGroup.h:42-111 | In every reachable state each context turns up exactly once among the list, the holders and the pushes under way: none is lost, none is handed out twice |
| `FreeListTheorems.OutstandingIsBounded` | backend/include/OpenEXR/IlmThreadProcessGroup.h:42-111 | Contexts out of the list are exactly `numThreads` minus its length, so never more than `numThreads` |
| `FreeListTheorems.SemaphoreCountsTheList` | backend/include/OpenEXR/IlmThreadProcessGroup.h:70-108 | Semaphore value plus permits in use plus posts to come equals the list length; a popper past its `wait` always finds a head, and the "GACK" branch is dead |
| `FreeListTheorems.SlackShrinks` | backend/include/OpenEXR/IlmThreadProcessGroup.h:96-110 | The termination measure of `pop`: the contexts not below its `ret` never increase, and drop with every CAS that fails because the head moved |
| `FreeListTheorems.RetriesAreBounded` | backend/include/OpenEXR/IlmThreadProcessGroup.h:96-110 | Past its `wait`, at most `numThreads - 1` exchanges of one `pop` meet a moved head, over every continuation |
| `FreeListExactness.RetryBoundIsReached` | backend/include/OpenEXR/IlmThreadProcessGroup.h:96-110 | For every pool size a schedule by one dispatcher reaches that bound, so it is exact |
| `FreeListExactness.OneDispatcherIsExclusive` | backend/include/OpenEXR/IlmThreadProcessGroup.h:84-96 | If only one thread calls `pop`, pops never overlap: the premise of the theorems above is what the comment asks for |
| `FreeListOverlap.OverlapBreaksLargePools` | backend/include/OpenEXR/IlmThreadProcessGroup.h:89-111 | With three or more contexts and two overlapping pops a schedule exists after which a held context is also the head of the list |
| `FreeListOverlap.OverlapIsSafeExactlyForSmallPools` | backend/include/OpenEXR/IlmThreadProcessGroup.h:89-111 | The one-popper rule can be dropped exactly when the pool has at most two contexts: then partition, accounting, non-null head and LIFO steps hold over all schedules; from three on not even single handing out does |
| `FreeListSafety.InitIsSound` | backend/include/OpenEXR/IlmThreadProcessGroup.h:42-56 | The constructor leaves the list 0, 1, ..., `numThreads - 1` and establishes the invariant |
| `FreeListSafety.StepKeepsCore` | backend/include/OpenEXR/IlmThreadProcessGroup.h:68-111 | Chain, ownership and accounting survive every atomic step, with any number of poppers, as long as the step's own locals are not stale |
| `FreeListSafety.StepKeepsSound` | backend/include/OpenEXR/IlmThreadProcessGroup.h:68-111 | With one popper its locals are never stale, so every permitted step keeps the whole invariant and is one stack operation or a stutter |
| `FreeListSafety.RunKeepsSound` | backend/include/OpenEXR/IlmThreadProcessGroup.h:68-111 | The same over whole schedules |
| `FreeList.ChainFrame` | backend/include/OpenEXR/IlmThreadProcessGroup.h:72-78 | Storing into the `next` field of a context that is off the list does not change the list |
| `FreeList.WalkIsChain` | backend/include/OpenEXR/IlmThreadProcessGroup.h:98-108 | Following pointers from the head yields the abstract list |
| `ProcessGroups.PushesGrowTheList` | backend/include/OpenEXR/IlmThreadProcessGroup.h:68-82 | While others only push, the list grows in front and the popper's measure does not grow |
| `ProcessGroups.ProcessGroup.constructor` | backend/include/OpenEXR/IlmThreadProcessGroup.h:42-56 | The linking loop over the pool array produces the initial state of the protocol |
| `ProcessGroups.ProcessGroup.PerformPush` | backend/include/OpenEXR/IlmThreadProcessGroup.h:68-82 | Each atomic operation of `push`, on the fields, is the corresponding step of the protocol |
| `ProcessGroups.ProcessGroup.PerformPop` | backend/include/OpenEXR/IlmThreadProcessGroup.h:85-111 | Each atomic operation of `pop`, on the fields, is the corresponding step of the protocol |
| `ProcessGroups.ProcessGroup.Execute` | backend/include/OpenEXR/IlmThreadProcessGroup.h:68-111 | Any interleaving executed on the fields is the run of the protocol |
| `ProcessGroups.ProcessGroup.PopTurn` | backend/include/OpenEXR/IlmThreadProcessGroup.h:101-108 | One turn of the CAS loop of `pop` is the run of its steps and the given pushes: it takes the first context or retries with a smaller measure, and says exactly whether it lost a race |
| `ProcessGroups.ProcessGroup.Pop` | backend/include/OpenEXR/IlmThreadProcessGroup.h:85-111 | `pop` against any finite interference by pushers: the final state is the run of the call and the others' steps; it takes exactly one context off a list that otherwise only grew in front, loses exactly the counted races, at most `numThreads - 1`, and left alone takes the first |
| `ProcessGroups.ProcessGroup.PushTurn` | backend/include/OpenEXR/IlmThreadProcessGroup.h:72-78 | One turn of the CAS loop of `push` is the run of its steps and the others', and puts its context first or retries |
| `ProcessGroups.ProcessGroup.Push` | backend/include/OpenEXR/IlmThreadProcessGroup.h:68-82 | `push` against any finite interference by other pushers and the dispatcher: the final state is the run of the call and the others' steps; at its swap its context is first on the list, left alone it adds just that, and it posts once whatever others do before |
| `FailureSlotProofs.StepKeepsInv` | backend/include/OpenEXR/IlmThreadProcessGroup.h:113-140 | Every allowed step of recorders and owner keeps the slot invariant |
| `FailureSlotProofs.EveryStringHasOnePlace` | backend/include/OpenEXR/IlmThreadProcessGroup.h:113-140 | At every point of every quiescent run each allocated string is in exactly one place: slot, one recorder, the thrower's hand, or deleted once |
| `FailureSlotProofs.DestructionFreesEverything` | backend/include/OpenEXR/IlmThreadProcessGroup.h:62-66 | After the destructor every string ever allocated has been deleted exactly once |
| `FailureSlotProofs.FirstPublishedIsThrown` | backend/include/OpenEXR/IlmThreadProcessGroup.h:113-140 | The thrown messages are the published ones in order, none skipped, and the slot holds the first one published since the last throw |
| `FailureSlotProofs.ThrowsExactlyWhenReported` | backend/include/OpenEXR/IlmThreadProcessGroup.h:128-140 | `throw_on_failure` throws exactly when a `record_failure` returned since the slot was last cleared, and leaves the slot empty |
| `FailureSlotRaces.StringsKeptExactlyWhenUndisturbed` | backend/include/OpenEXR/IlmThreadProcessGroup.h:113-140 | Over every run, recorders at any time: with the owner out of its window, each string is in exactly one place if and only if nothing was published between a load of `throw_on_failure` or of the destructor and the store or delete after it |
| `FailureSlotRaces.QuiescentIsUndisturbed` | backend/include/OpenEXR/IlmThreadProcessGroup.h:113-140 | The quiescence assumed of callers is enough for that |
| `FailureSlotProofs.RecordersAreQuiescent` | backend/include/OpenEXR/IlmThreadProcessGroup.h:113-126 | Recorders among themselves satisfy the quiescence rule in every interleaving |
| `FailureSlotProofs.OwnerCallsAreQuiescent` | backend/include/OpenEXR/IlmThreadProcessGroup.h:128-140 | So do `throw_on_failure` and the destructor when nobody records |
| `FailureSlotProofs.RacingClearLosesTheFailure` | backend/include/OpenEXR/IlmThreadProcessGroup.h:130-131 | A failure recorded between that load and store is not thrown and its string is nowhere: why quiescence is assumed |
| `FailureReporters.FailureReporter.RecordFailure` | backend/include/OpenEXR/IlmThreadProcessGroup.h:113-126 | With other recorders interleaved the final state is the run of the call and their steps; some failure is in the slot on return, an earlier one is kept, and undisturbed it is the text of this call |
| `FailureReporters.FailureReporter.ThrowOnFailure` | backend/include/OpenEXR/IlmThreadProcessGroup.h:128-140 | Returns (as the thrown message) the text in the slot exactly when something was reported, and empties the slot |
| `FailureReporters.FailureReporter.Destroy` | backend/include/OpenEXR/IlmThreadProcessGroup.h:62-66 | Every string has been deleted |
| `XdrCodec.ListRoundTrip` | backend/include/OpenEXR/ImfXdr.h:210-383 | Any list of mixed typed values, written and read back with the same types, comes back unchanged with the following bytes untouched; the length is the sum of the sizes |
| `XdrCodec.ListReadConsumes` | backend/include/OpenEXR/ImfXdr.h:416-587 | Reading a list of types fails exactly when fewer bytes are left than the sizes add up to, and otherwise consumes exactly that many |
| `XdrCodec.ValueRoundTrip` | backend/include/OpenEXR/ImfXdr.h:627-710 | One value: `read` undoes `write`, and `size<S>` is the number of bytes |
| `XdrCodec.BytesRoundTrip` | backend/include/OpenEXR/ImfXdr.h:416-587 | `write` undoes `read` on all bytes of all types, except exactly the non-canonical `bool` bytes |
| `XdrCodec.ExternalFormIsLittleEndian` | backend/include/OpenEXR/ImfXdr.h:447-530 | What integers mean: the little-endian number of the bytes, in two's complement for signed types |
| `XdrCodec.BytesMean` | backend/include/OpenEXR/ImfXdr.h:210-237 | One-byte types: `bool` is written as 1 or 0 and any byte but 0 reads as true; the three character types are their byte |
| `XdrCodec.NarrowWordsMean` | backend/include/OpenEXR/ImfXdr.h:239-261 | Shorts and halves are two bytes, their bits with the least significant byte first |
| `XdrCodec.MiddleWordsMean` | backend/include/OpenEXR/ImfXdr.h:263-346 | So are ints and floats, in four bytes |
| `XdrCodec.WideWordsMean` | backend/include/OpenEXR/ImfXdr.h:291-371 | So are 64-bit integers and doubles, in eight bytes |
| `XdrBits.SignedJoin64` | backend/include/OpenEXR/ImfXdr.h:496-512 | The masks cut off the sign extension of every byte of a signed 64-bit read |
| `XdrBits.SignedBytes64` | backend/include/OpenEXR/ImfXdr.h:291-307 | Arithmetic shifts write the same bytes as logical ones |
| `XdrBits.SignedBytes16` | backend/include/OpenEXR/ImfXdr.h:239-249 | Promotion to `int` and arithmetic shifts do not show in the bytes of a short |
| `XdrStrings.ReadOfTerminated` | backend/include/OpenEXR/ImfXdr.h:596-609 | A terminated string is read whole if it fits in `n` characters, and else cut after exactly `n + 1` bytes |
| `XdrStrings.ReadStringMeans` | backend/include/OpenEXR/ImfXdr.h:596-609 | For any source: up to the first NUL, else `n + 1` bytes, and failure exactly when the source has no NUL and at most `n` bytes |
| `XdrStrings.StringSurvivesExactlyWhenItFits` | backend/include/OpenEXR/ImfXdr.h:392-403 | A NUL-free string survives write and read, and the buffer is terminated, exactly when it has at most `n` characters |
| `XdrStrings.ReadStringTakesPrefix` | backend/include/OpenEXR/ImfXdr.h:596-609 | For any source, what is stored is a prefix of it of at most `n + 1` bytes |
| `XdrStrings.SkipChunksMeans` | backend/include/OpenEXR/ImfXdr.h:611-625 | Closed form of the chunked skip for every count and every remaining length, early return included |
| `XdrStrings.SkipConsumesExactly` | backend/include/OpenEXR/ImfXdr.h:611-625 | With enough bytes left, the chunked skip consumes exactly max(n, 0), as skipping byte by byte does |
| `XdrStrings.ChunkedSkipAgreesExactlyWhen` | backend/include/OpenEXR/ImfXdr.h:611-625 | On any source the two agree unless a too short stream runs dry at the end of a 1024-byte chunk |
| `XdrStrings.ShortSkipGoesUnnoticed` | backend/include/OpenEXR/ImfXdr.h:617-622 | The smallest such case: 1024 bytes left, 1025 to skip, no exception |
| `XdrIO.SkipUndoesPad` | backend/include/OpenEXR/ImfXdr.h:405-414 | Skipping what `pad(n)` wrote leaves exactly what followed, for every `n` |
| `XdrIO.OutCursor.WriteChars` | backend/include/OpenEXR/ImfIO.h:242-248 | The copy loop appends the bytes, advances the pointer by `n` and touches nothing beyond |
| `XdrIO.OutCursor.Write` | backend/include/OpenEXR/ImfXdr.h:210-383 | Each typed writer, by its own shifts, emits the encoding and advances by `size<S>` |
| `XdrIO.OutCursor.WriteAll` | backend/include/OpenEXR/ImfXdr.h:210-383 | A run of mixed writes emits the concatenation and advances by the sum of the sizes |
| `XdrIO.OutCursor.WriteString` | backend/include/OpenEXR/ImfXdr.h:392-403 | Emits the characters up to the first NUL, and the NUL |
| `XdrIO.OutCursor.Pad` | backend/include/OpenEXR/ImfXdr.h:405-414 | Emits max(n, 0) bytes, each of them 0 |
| `XdrIO.InCursor.ReadChars` | backend/include/OpenEXR/ImfIO.h:229-257 | Both back ends: fills the caller's array from the source; a stream throws when short and reports when it took the last byte |
| `XdrIO.InCursor.Read` | backend/include/OpenEXR/ImfXdr.h:416-587 | Each typed reader returns the decoding of the next bytes, or throws when they are missing |
| `XdrIO.InCursor.ReadAll` | backend/include/OpenEXR/ImfXdr.h:416-587 | A run of mixed reads is the list decoder, cursor included |
| `XdrIO.WriteThenRead` | backend/include/OpenEXR/ImfXdr.h:210-587 | The round trip on the cursors: values written into a buffer are read back from it over either back end, both cursors end at the sum of the sizes, and the rest of the buffer is untouched |
| `XdrIO.InCursor.ReadString` | backend/include/OpenEXR/ImfXdr.h:596-609 | Stores what it consumes, leaves the rest of the buffer alone, never needs more than `n + 1` cells |
| `XdrIO.InCursor.Skip` | backend/include/OpenEXR/ImfXdr.h:611-625 | The loop consumes exactly what the chunked skip says, and max(n, 0) whenever that many bytes are left |
| `PartNames.LastDotIsLast` | backend/include/OpenEXR/ImfPartHelper.h:57-69 | `rfind` finds a dot with no dot after it |
| `PartNames.NameParts` | backend/include/OpenEXR/ImfPartHelper.h:57-69 | A name is its layer, a dot and its dot-free suffix |
| `PartNames.InternalNamesSpelledOut` | backend/include/OpenEXR/ImfPartHelper.h:93-122 | Every internal name of single-part mode, by how the name is put together, without the search for dots |
| `PartNames.RecoverInvertsInternalName` | backend/include/OpenEXR/ImfPartHelper.h:93-122 | With a non-empty dot-free view, name and view are recovered from the internal name and the hero view |
| `PartNameClashes.DistinguishesExactlyWhenApart` | backend/include/OpenEXR/ImfPartHelper.h:93-122 | For any set of views, empty or dotted ones included: internal names tell all channels apart if and only if a condition on the views alone holds |
| `PartNameClashes.ClashShares` | backend/include/OpenEXR/ImfPartHelper.h:99-118 | Two views that clash have channels with the same internal name |
| `PartNameClashes.DistinguishesExactlyWhenUnmixed` | backend/include/OpenEXR/ImfPartHelper.h:93-122 | For dot-free views that condition is: the empty view is not mixed with named ones |
| `PartNumbers.NumbersFollowTheOrder` | backend/include/OpenEXR/ImfPartHelper.h:140-166 | Part numbers are strictly monotone in: layers ascending, hero view first, other views ascending |
| `PartNumbers.NumbersSpelledOut` | backend/include/OpenEXR/ImfPartHelper.h:140-166 | The same with the order of strings spelled out character by character |
| `StringOrder.BeforeIsLexicographic` | backend/include/OpenEXR/ImfPartHelper.h:128-166 | The order in which `std::map` and `std::set` visit strings: a proper prefix, or the smaller character where they first differ |
| `PartNumbers.LayersAreContiguous` | backend/include/OpenEXR/ImfPartHelper.h:140-166 | The parts of one layer form one block |
| `PartNumbers.EveryNumberIsUsed` | backend/include/OpenEXR/ImfPartHelper.h:136-166 | Every number below the count belongs to some (layer, view) pair |
| `PartSplit.GroupViews` | backend/include/OpenEXR/ImfPartHelper.h:125-132 | Step 1 collects exactly the (layer, view) pairs of the channels |
| `PartSplit.NumberLayer` | backend/include/OpenEXR/ImfPartHelper.h:145-165 | One layer: the hero view, then the others ascending, each numbered by its rank among all pairs |
| `PartSplit.AssignParts` | backend/include/OpenEXR/ImfPartHelper.h:134-166 | Step 2 numbers every pair by its rank, and counts the pairs |
| `PartSplit.NumberAll` | backend/include/OpenEXR/ImfPartHelper.h:168-175 | Step 3 looks up only pairs that are in the table |
| `PartSplit.RenameAll` | backend/include/OpenEXR/ImfPartHelper.h:93-122 | Single-part mode: part 0 and the internal name of every channel, nothing else changed |
| `PartSplit.SplitChannels` | backend/include/OpenEXR/ImfPartHelper.h:85-180 | The whole function, both modes: returned count and the complete new channel list |
| `PartSplit.SamePartIffSamePair` | backend/include/OpenEXR/ImfPartHelper.h:168-175 | Two channels share a part exactly when layer and view agree; parts are below the count |
| `PartSplit.PartsFollowLayersAndViews` | backend/include/OpenEXR/ImfPartHelper.h:140-175 | Of two channels the one with the smaller part has the smaller layer, or in the same layer the hero view, or the smaller of two other views, and conversely |
| `PartSplit.NoPartIsEmpty` | backend/include/OpenEXR/ImfPartHelper.h:168-178 | Every part below the returned count has a channel |
| `PartSplit.NumberingIgnoresOrderAndRepeats` | backend/include/OpenEXR/ImfPartHelper.h:125-178 | Permuting or repeating channels changes neither the count nor any channel's part |
| `ArgStore.ArgumentsKeepTheirIndices` | backend/include/fmt/args.h:108-110 | `data()[i]` stands for the i-th pushed argument, with or without the hidden header |
| `ArgStore.AddNamed` | backend/include/fmt/args.h:116-129 | Inserting the header, appending and recording `size - 2` keeps the representation: the id is the argument's logical index |
| `ArgStore.AddPositional` | backend/include/fmt/args.h:112-114 | Appending keeps the representation |
| `ArgStore.NamedIndicesAreNamed` | backend/include/fmt/args.h:116-129 | The recorded ids are exactly the indices of the named arguments, ascending |
| `ArgStore.SizeCountsTheHeader` | backend/include/fmt/args.h:214-215 | `size()` is the number of arguments exactly when none is named; otherwise it is one more |
| `ArgStore.LookupGuardFailsExactly` | backend/include/fmt/base.h:2646-2651 | The bounds guard of `get(int)`, fed with `size()`, admits an index without a slot exactly for negative indices and for the first index past the end when an argument is named |
| `ArgStore.OneNamedArgumentMisleadsTheGuard` | backend/include/fmt/base.h:2646-2651 | One named argument: two slots, and index 1 passes the guard without a slot |
| `ArgStore.Store.PushNode` | backend/include/fmt/args.h:58-64 | A pushed node is new and no other node moves |
| `ArgStore.Store.EmplaceNamed` | backend/include/fmt/args.h:116-129 | Whether or not `named_info_` moves, slot 0 describes its current buffer afterwards |
| `ArgStore.Store.PushValue` | backend/include/fmt/args.h:154-159 | `push_back` of a value: copied into a new node or kept in place, as its type demands |
| `ArgStore.Store.PushReference` | backend/include/fmt/args.h:174-179 | `push_back` of a reference wrapper |
| `ArgStore.Store.PushNamedValue` | backend/include/fmt/args.h:186-196 | `push_back` of a named value; the name is always copied |
| `ArgStore.Store.PushNamedReference` | backend/include/fmt/args.h:186-196 | `push_back` of a named reference |
| `ArgStore.Store.Clear` | backend/include/fmt/args.h:199-203 | The store is valid, its three containers are empty |
| `ArgStore.Store.Reserve` | backend/include/fmt/args.h:207-212 | Makes room for that many records, and keeps the store valid exactly when no argument is named or they already had room |
| `ArgStore.Store.Execute` | backend/include/fmt/args.h:154-212 | After any sequence of calls that reserves early, the store holds exactly the expected arguments |
| `ArgStore.Store.Get` | backend/include/fmt/base.h:2646-2656 | For every index: the pushed argument, none past the end, and which indices read the header or out of bounds instead |
| `ArgStore.Store.GetId` | backend/include/fmt/base.h:2664-2673 | The index of the first argument with that name, or -1 exactly when there is none |
| `BasePointer.ComputeBase` | backend/include/OpenEXR/ImfRgbaFile.h:43-57 | With rows `yStride` apart, or `w` if that is 0, the result is right modulo 2^64 for all arguments, and exact when both products fit in 64 signed bits |
| `BasePointer.ComputeWindowBase` | backend/include/OpenEXR/ImfRgbaFile.h:59-67 | For a non-empty window the base is exact and every pixel of the window is addressed inside the buffer |
| `BasePointer.ProductExactIffItFits` | backend/include/OpenEXR/ImfRgbaFile.h:52-55 | The wrapped product is the true one exactly when that fits in 64 signed bits |
| `BasePointer.AddressRightModulo` | backend/include/OpenEXR/ImfRgbaFile.h:43-57 | Whatever the strides, base plus offsets is the pixel's address modulo 2^64: the wraps cancel |
| `BasePointer.WindowBaseIsExact` | backend/include/OpenEXR/ImfRgbaFile.h:59-67 | For every non-empty window with 32-bit corners nothing wraps; the row product reaches -2^63 in exactly one case |
| `BasePointer.PixelsLandInside` | backend/include/OpenEXR/ImfRgbaFile.h:172-178 | The formula maps the pixels of the window into elements 0 to w*h-1 |
| `BasePointer.ElementsArePixels` | backend/include/OpenEXR/ImfRgbaFile.h:172-178 | Every element is some pixel's |
| `BasePointer.PixelsAreDistinct` | backend/include/OpenEXR/ImfRgbaFile.h:172-178 | Two pixels share an element exactly when they are equal |
| `ChannelRenaming.RenameChannelsInMap` | backend/include/OpenEXR/ImfImageChannelRenaming.h:31-48 | The loop in name order: the keys are the new names, and of colliding channels the last in order stands |
| `ChannelRenaming.ChannelMap.Rename` | backend/include/OpenEXR/ImfImageChannelRenaming.h:47-48 | The map is overwritten with the rebuilt one |
| `ChannelRenaming.RebuiltIsUnique` | backend/include/OpenEXR/ImfImageChannelRenaming.h:35-45 | That description determines the result, with or without collisions |
| `ChannelRenaming.EveryChannelIsMoved` | backend/include/OpenEXR/ImfImageChannelRenaming.h:37-45 | Without collisions every channel is found at its new name |
| `ChannelRenaming.MentionedMoveOthersStay` | backend/include/OpenEXR/ImfImageChannelRenaming.h:41-44 | Name by name, without collisions: a channel the renaming mentions is at its new name, any other where it was, and nothing else is there |
| `ChannelRenaming.CollisionKeepsTheLast` | backend/include/OpenEXR/ImfImageChannelRenaming.h:37-45 | Of colliding channels the one whose old name comes last, character by character, is kept |
| `ChannelRenaming.EmptyRenamingKeepsAll` | backend/include/OpenEXR/ImfImageChannelRenaming.h:41-44 | The empty renaming changes nothing |
| `ChannelRenaming.NoChannelLostExactlyWhenCollisionFree` | backend/include/OpenEXR/ImfImageChannelRenaming.h:22-27 | The number of channels is kept exactly by collision-free renamings |
| `ChannelRenaming.RenamingIsUndone` | backend/include/OpenEXR/ImfImageChannelRenaming.h:22-48 | Renaming by the inverse restores the map, swaps and cycles included |
| `Shutdown.RunKeepsInv` | backend/src/main.cpp:24-72 | Program order of watcher and main, and the flags, in every interleaving with spurious wakeups |
| `Shutdown.WatcherKeepsInv` | backend/src/main.cpp:47-52 | The watcher shuts down in program order and only under a raised flag |
| `Shutdown.MainKeepsInv` | backend/src/main.cpp:47-76 | Main acts in program order, and from the join on the watcher is done |
| `Shutdown.NoShutdownUnrequested` | backend/src/main.cpp:29-52 | The watcher shuts nothing down before `g_shuttingDown` is true |
| `Shutdown.CompleteMeansShutdownsRan` | backend/src/main.cpp:47-72 | `g_shutdownComplete` implies the watcher ran both shutdowns in order, `g_cdn` is null, and the last event is main's `cdn.shutdown`: no CDN start follows |
| `Shutdown.CdnSetOnlyAfterStart` | backend/src/main.cpp:54-59 | `g_cdn` is set only after `cdn.start` returned true, also when main has died; at the join it is set exactly then |
| `ShutdownOrder.CompleteLeavesNothingRunning` | backend/src/server/server.cpp:712-726 | When shutdown is reported complete, a gRPC server that was built was shut down after it was built, and neither server runs |
| `ShutdownOrder.StrandedExactlyWhenBuiltTooLate` | backend/src/main.cpp:47-63 | Over every run: the server runs with nobody left to shut it down if and only if main built it after the only `server.shutdown` of the watcher |
| `ShutdownOrder.StrandedForGood` | backend/src/server/server.cpp:712-726 | From then on, under every continuation, main stays inside `server.init` unless the process dies, and shutdown never completes |
| `ShutdownOrder.CanCompleteExactlyWhenNotStranded` | backend/src/main.cpp:47-72 | From every reachable state shutdown can still complete if and only if main has not died and has not built the server too late |
| `ShutdownOrder.EarlyRequestStrands` | backend/src/main.cpp:47-63 | The concrete run: a request before main has started anything, after which no continuation completes |
| `Shutdown.CarefulRunsNeverStick` | backend/src/main.cpp:24-32 | If no store of the flag falls between the watcher's check and its blocking, the watcher never sleeps on a raised flag without a notification to come |
| `Shutdown.CarelessRunsCanStick` | backend/src/main.cpp:24-32 | Every schedule with such a store has a point from which the calls under way, merely finishing, lose the wakeup |
| `Shutdown.LostWakeupIsReachable` | backend/src/main.cpp:24-32 | The concrete run from program start |
| `Shutdown.StuckStays` | backend/src/main.cpp:29-71 | From there, without a spurious wakeup or another request, the watcher sleeps forever and shutdown never completes |
| `ShutdownProcess.Process.Execute` | backend/src/main.cpp:35-79 | Any interleaving executed on the globals is the run of the protocol and keeps its invariant |
| `ShutdownProcess.FlagInGap` | backend/src/main.cpp:24-32 | While the watcher stands between check and blocking, the flag comes up exactly in the careless schedules |
| `ShutdownProcess.BlockFacts` | backend/src/main.cpp:29-32 | A round whose check finds the flag down ends asleep, and stuck exactly when the flag was raised in the gap and no notification is left to come |
| `ShutdownProcess.Process.WaitOnce` | backend/src/main.cpp:29-32 | One round with other threads before the lock, before the check and before the block: the globals are what these steps make of them in every outcome; it returns exactly when the flag is up at the check, and otherwise as above |
| `ShutdownProcess.Process.WaitForShutdownSignal` | backend/src/main.cpp:29-32 | The whole wait over any rounds: the globals are what the rounds make of them in every outcome; a flag up on entry is never slept through, it returns only with the flag up and nothing shut down, and asleep it is stuck exactly through a store in the last gap |

## Left out

- Declaration-only OpenEXR interfaces (files, parts, headers, compressors, tiles, deep data, thread pool, ID manifest): their bodies are not in the repository.
- `Semaphore` internals: a counting semaphore with atomic `wait` and `post` is assumed.
- C++ memory orders: every step is sequentially consistent.
- Liveness of the shutdown watcher and fairness of schedules: the shutdown results are safety results.
- `OStream::write` behind `StreamIO::writeChars`: an opaque virtual call; output is modelled on the raw buffer only.
- XdrIO.InCursor.ReadChars: the position of a stream after an exception is left unspecified, as its interface leaves it.
- Fixed-size character arrays in `Xdr` are `WriteChars` and `ReadChars` themselves and get no wrapper.
- Allocation failure and exception unwinding in `fmt/args.h`.
- The order of the nodes in `dynamic_arg_list`: live nodes are a map from addresses to contents, which is all the store observes.
- 32-bit limits on part counts and argument ids.
- `GetChannelsInMultiPartFile`: it needs file access and view-name functions whose bodies are absent.
- ChannelRenaming.RenameChannelsInMap: the map is a value and the loop visits its keys in string order, as `std::map` does.
- `LoadEnv`, the console reader and the insides of the servers behind `main.cpp`: of the gRPC server, building, waiting and shutting down are one step each, and so are starting and stopping the CDN. That `server_` is read and written by two threads without synchronisation is not modelled.
- Calls on a `ProcessGroup` that has been destroyed.
- Frontend configuration, macros, attribute casts and other plumbing: they would only add easy members.
