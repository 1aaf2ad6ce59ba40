# Apache Traffic Server: concurrency, memory, codecs and hook machinery

A Dafny model of the parts of Apache Traffic Server whose behaviour is hardest to
see from the code, with proofs of what they promise over every input, every
schedule and every run. `dafny verify dfyconfig.toml` checks the whole project.

- `AtomicBit`: setting and clearing single bits of a shared byte by a retry loop
  around a weak compare-and-swap. A state machine over the steps of any number of
  threads, with spurious failures.
- `FreeList`: the lock-free, versioned free list behind the allocators. Threads
  load, read links, write links and swap in any interleaving, clients scribble over
  the blocks they own, a thread that finds the list empty obtains a chunk from the
  system, and versions wrap around modulo `w`.
- `TrackerAllocator`: the tracking allocator on top of it, with its counters and
  its table updated at different moments by different threads.
- `BulkFree`: freeing a chain of objects through links that die with the objects.
- `Arena`: the string arena, in place over an array of bytes: length headers that
  are scanned backwards, the block list, allocation and release.
- `NameEscape`: the documentation builder's chain of 23 string replacements.
- `RecordNames`: dotted record names nested into a tree of dictionaries and
  flattened back by the YAML reader.
- `HostStatus`: the text form of host status records, written, stored and parsed.
- `CacheControl`: matching rules against a request, "first line of the file wins"
  independently for each parameter.
- `ApiHooks`: hook lists behind a fast non-empty flag.
- `History`: the event ring of the state machines and the printer that lists it.
- `Cripts`, `CriptContext`, `CriptTransaction`, `CriptInstance`, `CriptScript`,
  `CriptRuns`, `CriptSafety`, `CriptLimits`, `CriptBundles`, `CriptEvents`: the Cripts
  hook machinery. `Cripts` specifies what
  each entry point and event does to a transaction. `CriptContext` does it in place
  on a context whose fields exist only while it is allocated, so that every access
  is a proof obligation, and `CriptTransaction` runs whole transactions on it.
  `CriptInstance` covers instances and the two-level bundle filter. `CriptEvents` says exactly what every event and
  entry point does, read off the callbacks' script alone. The rest prove what holds
  over whole transactions and where the promises stop. Bundles and
  Cripts are foreign code: what the n-th callback does (fail the transaction,
  disable callbacks, change URLs) is an arbitrary function.

Where the code does not do what its documentation or its neighbours suggest, the
model follows the code and the exact condition is proved:

- A free list version can come back while a pop is under way. The pool is
  linearizable as long as fewer than `w` pops fall between a pop's load and its
  swap (`PoolIsLinearizable`); with exactly `w`, a run exists that hands a block out
  twice (`WindowIsTight`).
- `Arena::free` never looks at the last block of its list, so freeing what was just
  allocated wins the space back if and only if another block served it
  (`FreeUndoesAlloc`).
- A host status record survives its text form if and only if its times fit an `int`
  and it has no reason bit beyond the four (`StoreRoundTrip`).
- Only names under `proxy.config.` come back from strip, nest and flatten
  (`StripRoundTrip`), and only if none is a dotted beginning of another
  (`RecordsRoundTrip`).
- The cookie tweak of the cache rules has no line tracker: it is independent of the
  order of the rules if and only if all rules that carry it agree
  (`CookieOrderMatters`). A ttl rule switches never-cache off whatever its line.
- The history position is a 32-bit count. Just after it comes back to zero the
  printer leaves out entries that the ring still holds (`ShowsLastIff`).
- A failed Cripts transaction still runs callbacks before and after the remap and at
  the close (`FailedHookRuns`), unlike at the other five hooks, and real transactions
  do so (`FailedRunsIff`): a remap whose cache key cannot be set has failed, yet it
  keeps its context and its hooks.
- Disabling a callback is documented to keep its hook from being called at all
  (`doc/developer-guide/cripts/cripts-misc.en.rst:131-133`). The code stops less. Of
  the Cript's own functions it does not stop the global read-request function, nor
  the lookup function while the global lookup bit is set (`DisabledRunsIff`). Of the
  bundles it stops none before the close (`DisablingSparesBundles`), and at the
  close only if both close bits are clear (`BundleRunsDisabledIff`).
- The global lookup function is never called (`GlobalLookupNeverRuns`): line 561 of
  `include/cripts/Epilogue.hpp` calls the remap one.

## Model

| member | source | states |
|---|---|---|
| `AtomicBit.Linearizable` | include/tscore/AtomicBit.h:82-95 | In every interleaving, with spurious failures, the calls take effect one at a time, each between its call and its return; replaying the effects gives the byte and every reported "changed". |
| `AtomicBit.RealTimeOrder` | include/tscore/AtomicBit.h:82-95 | For any steps of a run, a call returned by a step before the step that invokes another took effect before it. |
| `AtomicBit.SwapFailureMeansProgress` | include/tscore/AtomicBit.h:85-94 | In any run, a swap that is not spurious fails only if another thread succeeded since the load. |
| `AtomicBit.AloneIsDone` | include/tscore/AtomicBit.h:85-94 | From any state, a call left alone for one load and one swap is done, with the byte it wants and the right report. |
| `AtomicBit.BitConservation` | include/tscore/AtomicBit.h:49-64 | Over any run, successful sets minus successful clears of a bit equal its final minus its initial value. |
| `AtomicBit.ExactlyOneWinner` | include/tscore/AtomicBit.h:49-55 | Of any number of `test_and_set` calls on a clear bit that nobody clears, exactly one returns true. |
| `AtomicBit.NoLostUpdates` | include/tscore/AtomicBit.h:82-95 | Calls on disjoint masks do not disturb each other: the bits of a mask are what the calls on that mask alone would leave. |
| `FreeList.PoolIsLinearizable` | src/tscore/ink_queue.cc:221-429 | Every timely run is a legal history of a plain stack that ends with the list linked in memory; every block is in the list, with a client, or carried by exactly one thread. |
| `FreeList.PopTakesListedBlock` | src/tscore/ink_queue.cc:268-269 | A pop that wins its swap gets a block that was in the list and nobody's, and takes it off the list. |
| `FreeList.PopSeesWholeList` | src/tscore/ink_queue.cc:228-269 | A timely pop that wins its swap finds the head it loaded, and the link it read earlier is still the link of that head. |
| `FreeList.NeverHandedOutTwice` | src/tscore/ink_queue.cc:221-289 | Between two allocations of a block there is a free of it. |
| `FreeList.RunKeepsInv` | src/tscore/ink_queue.cc:221-429 | The invariant tying memory, list, owners and every thread's private state is kept by every step of every timely run. |
| `FreeList.FewPopsAreTimely` | include/tscore/ink_queue.h:104-116 | A run with fewer pops than versions is timely, whatever its schedule. |
| `FreeList.VersionsWithinWindow` | include/tscore/ink_queue.h:104-116 | A version that comes back within the window means no pop happened in between. |
| `FreeList.WindowIsTight` | include/tscore/ink_queue.h:127-162 | For every number of versions `w` of at least two, a run with exactly `w` pops in one window leaves a client's block at the head and hands it out again with no free in between. |
| `FreeList.SwapComparesWord` | src/tscore/ink_queue.cc:269-357 | A swap goes through exactly if pointer and version are both as loaded, and otherwise changes nothing but its own thread. |
| `FreeList.CallsEndWithEffect` | src/tscore/ink_queue.cc:227-288 | No call gives up: a thread is done only when its block was popped or its last blocks were pushed. |
| `TrackerAllocator.TrackedBytesAgree` | include/tscore/Allocator.h:401-433 | In every reachable state a symbol's counter is the object size times its recorded objects plus those counted but not yet recorded. |
| `TrackerAllocator.QuiescentAccounting` | include/tscore/Allocator.h:401-433 | With no call in progress the table is exactly the objects held, and each counter their total size. |
| `TrackerAllocator.NoStaleEntries` | include/tscore/Allocator.h:414-432 | An address about to be recorded has no entry; one being freed has the entry of the symbol that took it; an address not handed out has none. |
| `TrackerAllocator.AllocationsCounted` | include/tscore/Allocator.h:415-416 | The allocation count is the number of objects ever recorded. |
| `BulkFree.FreeItem` | include/tscore/Allocator.h:174-177 | One step: the link is read while the object is live, then exactly that object is freed and the rest of the chain is untouched. |
| `BulkFree.FreeBulk` | include/tscore/Allocator.h:168-178 | Exactly the first `num_item` objects, or all if the chain is shorter, are freed, each once and in order, whatever freeing leaves in their first word. |
| `Arena.HeaderRoundTrip` | include/tscore/Arena.h:58-77 | Every length's header is self-delimiting from the right and decodes to the length. |
| `Arena.HeaderIsMinimal` | include/tscore/Arena.h:103-121 | No self-delimiting header of the same value is shorter, and one without a leading zero digit is the header. |
| `Arena.DocumentedLayouts` | include/tscore/Arena.h:79-94 | The headers of the lengths that the layout comment lists. |
| `Arena.AllocationIsAligned` | src/tscore/Arena.cc:81-88 | For every alignment, the address is a multiple of it, not below the old level of the serving block and less than one alignment above. |
| `Arena.RoomForHalfAgain` | src/tscore/Arena.cc:112-117 | Right after its first allocation a new block has room for exactly half as much again, or for a thousand bytes in all. |
| `Arena.AllocationIsFresh` | src/tscore/Arena.cc:76-123 | For every alignment, what `alloc` returns lies in memory, below its block's level, and clear of everything placed before, which stays placed. |
| `Arena.RoomUnlessTooLarge` | src/tscore/Arena.cc:95-123 | For a string, `alloc` never gives the null pointer of a full block, and its outcome is undefined exactly if no block fits and the new block's size leaves the range of `int`. |
| `Arena.NewStringIsClear` | src/tscore/Arena.cc:95-123 | A new string overlaps no live string. |
| `Arena.OthersUntouched` | include/tscore/Arena.h:156-166 | Writing within one live string changes no byte of another, header included. |
| `Arena.FreeUndoesAlloc` | src/tscore/Arena.cc:128-143 | Freeing the last allocation restores the blocks if and only if the block that served is not the last of the list. |
| `Arena.AddString` | include/tscore/Arena.h:96-124 | A clear, placed extent with its header written joins the live strings, and all others keep their headers. |
| `Arena.RemoveString` | include/tscore/Arena.h:129-151 | After a string is freed the others are still placed, separate and correctly headed. |
| `Arena.Arena.Alloc` | src/tscore/Arena.cc:94-123 | The in-place walk over the blocks gives the first block with room, or a new block at the front, or null if even that has no room for the alignment. |
| `Arena.Arena.Free` | src/tscore/Arena.cc:128-143 | The in-place walk lowers the level of the first block, other than the last, that ends at the freed memory. |
| `Arena.Arena.StringSize` | include/tscore/Arena.h:103-109 | The counting loop gives the characters, the NUL and the length of the header. |
| `Arena.Arena.WriteHeader` | include/tscore/Arena.h:113-121 | The backward loop writes exactly the header, ending right before the characters, and nothing else. |
| `Arena.Arena.StrAlloc` | include/tscore/Arena.h:96-124 | A new live string with its length in front, and no byte outside its header written; the outcome is undefined exactly when the block size leaves the range of `int`. |
| `Arena.Arena.ReadHeader` | include/tscore/Arena.h:135-147 | The backward scan stops at the first byte of the string's own header, whatever lies before it, and decodes the length. |
| `Arena.Arena.StrLength` | include/tscore/Arena.h:58-77 | The length of any live string is the one it was allocated with. |
| `Arena.Arena.StrFree` | include/tscore/Arena.h:129-151 | Hands back exactly the start and byte count that were allocated, and keeps every other string valid. |
| `Arena.Arena.StrStore` | include/tscore/Arena.h:156-166 | The stored characters and a NUL can be read back at the returned place; only the new string's bytes changed. |
| `NameEscape.EscapeIsOnePass` | doc/ext/doxygen.py:42-47 | The 23 successive whole-string replacements equal one pass that codes each character. |
| `NameEscape.UnescapeUndoesEscape` | doc/ext/doxygen.py:42-47 | A left-to-right decoder gives every name back. |
| `NameEscape.EscapeIsInjective` | doc/ext/doxygen.py:42-47 | Distinct names never escape to the same string. |
| `NameEscape.EscapeSpells` | doc/ext/doxygen.py:47 | Every name is escaped by the listed codes, character by character. |
| `NameEscape.ChainIsEachCoded` | doc/ext/doxygen.py:47 | For any list of rules in which no code contains a character replaced later, the chain is one pass. |
| `NameEscape.DecodeAll` | doc/ext/doxygen.py:47 | For any rules whose codes form a prefix code, decoding undoes coding. |
| `NameEscape.RulesAreSettled` | doc/ext/doxygen.py:47 | No code of the 23 rules contains a character that a later rule replaces. |
| `NameEscape.RulesArePrefixCode` | doc/ext/doxygen.py:47 | No code of the 23 rules begins another, and all begin with the underscore, which is itself coded. |
| `RecordNames.AddObjectLaw` | doc/ext/traffic-server.py:121-131 | After an insertion the tree has the new value and exactly the old ones whose path does not begin with the new path. |
| `RecordNames.AddObjectFails` | doc/ext/traffic-server.py:121-131 | An insertion that fails met a scalar at a proper beginning of its path. |
| `RecordNames.ScalarStopsInsertion` | doc/ext/traffic-server.py:121-131 | A scalar at a proper beginning of the path makes the insertion fail. |
| `RecordNames.AddObjectHolds` | doc/ext/traffic-server.py:121-131 | On a tree that holds exactly a map of names, insertion fails exactly if a held name dotted begins the new one, and else updates the map and drops the names it covers. |
| `RecordNames.FlattenYields` | src/records/RecYAMLDecoder.cc:84-104 | Every value of a tree is reported under the dotted name of its path. |
| `RecordNames.FlattenUnnamed` | include/records/RecYAMLDefs.h:78-83 | Below a node without a name, names begin with the first field and no dot. |
| `RecordNames.FlattenYieldsOnly` | src/records/RecYAMLDecoder.cc:84-104 | Every reported record is the value at a path that spells its name. |
| `RecordNames.FlattenHolds` | include/records/RecYAMLDefs.h:74-84 | Flattening from `proxy.config` a tree that holds a map of names reports exactly that map with full names. |
| `RecordNames.NestThenFlatten` | doc/ext/traffic-server.py:91-131 | Nesting any names and flattening gives exactly the names with their last values, if and only if no name is a dotted beginning of another. |
| `RecordNames.StripRoundTrip` | doc/ext/traffic-server.py:133-137 | Putting the prefix back gives the original exactly for names under `proxy.config.`. |
| `RecordNames.StripDrops` | doc/ext/traffic-server.py:133-137 | Either prefix is dropped, once; any other name stays as it is. |
| `RecordNames.RecordsRoundTrip` | doc/ext/traffic-server.py:91-137 | Strip, nest and flatten give every full name with its last value, if and only if all names are under `proxy.config.` and no stripped name is a dotted beginning of another. |
| `RecordNames.FlattenedIsUnderPrefix` | src/records/RecYAMLDecoder.cc:192 | Every name reported from a tree of fields begins with `proxy.config.`. |
| `HostStatus.WriteTo` | include/proxy/HostStatus.h:132-149 | The step-by-step serializer appends exactly the text of the record. |
| `HostStatus.WriteField` | include/proxy/HostStatus.h:137-146 | One reason's part of the serializer appends a comma and that reason's field. |
| `HostStatus.TextSpells` | include/proxy/HostStatus.h:132-149 | Splitting the text at commas and colons gives the status and, for ACTIVE, LOCAL, MANUAL and SELF_DETECT, DOWN exactly if bit 1, 2, 4 or 8 is set, followed by that reason's own times. |
| `HostStatus.SplitJoined` | src/proxy/HostStatus.cc:74-78 | The line reader gives back the parts of any joined text whose parts are short enough and free of the separator. |
| `HostStatus.LongLine` | src/proxy/HostStatus.cc:74-78 | A part longer than the reader's line ends the reading after that many characters. |
| `HostStatus.AtoiShow` | src/proxy/HostStatus.cc:109-110 | Reading a printed number gives the number, or no defined value exactly if it does not fit an `int`. |
| `HostStatus.AtoiReads` | src/proxy/HostStatus.cc:109-110 | After spaces and a sign, the value of the digits up to the first other character. |
| `HostStatus.UnsignedIs` | src/proxy/HostStatus.cc:110 | A down-time is stored modulo 2^32. |
| `HostStatus.MarkedDown` | src/proxy/HostStatus.cc:104-105 | A field that says DOWN sets its reason's bit. |
| `HostStatus.MarkedOnly` | src/proxy/HostStatus.cc:104-105 | It changes no other bit. |
| `HostStatus.MarkedUp` | src/proxy/HostStatus.cc:106-108 | A field that says anything else clears its reason's bit and no other. |
| `HostStatus.OddFields` | src/proxy/HostStatus.cc:101-137 | A field of no known reason is passed over; one of the first three reasons without its last part is not defined. |
| `HostStatus.ReadTextHasFive` | src/proxy/HostStatus.cc:80-101 | Text that is read has five fields, the last four of three or four parts. |
| `HostStatus.ParseText` | src/proxy/HostStatus.cc:66-140 | Reading a record's own text gives the record with only its four reason bits, unless a number does not fit. |
| `HostStatus.StoreRoundTrip` | src/proxy/HostStatus.cc:66-140 | For all records of the program's field widths, the round trip is exact if and only if all times fit an `int` and no other reason bit is set. |
| `HostStatus.LateTimeIsLost` | src/proxy/HostStatus.cc:127 | No record marked down manually at the first second past the range of `int` survives. |
| `HostStatus.TextIsInjective` | include/proxy/HostStatus.h:132-176 | Equal texts have equal status, reason bits, marked-down times and down-times, with no bound on the numbers. |
| `CacheControl.CacheControlResult.UpdateMatch` | src/proxy/CacheControl.cc:336-429 | The in-place update of values and line trackers by one rule, for every directive. |
| `CacheControl.CacheControlResult.Match` | src/proxy/CacheControl.cc:336-429 | Offering the rules one by one in place is the fold of the rules. |
| `CacheControl.FirstLineWins` | include/proxy/ControlBase.h:107-111 | Whatever the order of arrival, each timed parameter has the argument of the earliest rule that applies, the flags say whether any does, and never-cache is decided by ttl rules first. |
| `CacheControl.OrderDoesNotMatter` | include/proxy/CacheControl.h:82-95 | Permuting the rules changes no setting. |
| `CacheControl.CookieOrderMatters` | src/proxy/CacheControl.cc:414-416 | The cookie tweak is independent of the order if and only if all rules that carry one agree. |
| `CacheControl.LastCarriedTweak` | src/proxy/CacheControl.cc:414-416 | The cookie tweak is that of the last rule that carries one, applicable or not. |
| `CacheControl.SummaryHolds` | src/proxy/CacheControl.cc:342-412 | After any rules, every value and tracker is described by which rules apply and which line is least. |
| `ApiHooks.FeatureHooks.Append` | include/api/FeatureAPIHooks.h:109-117 | Appending keeps the flag true exactly when some list is not empty, and every list equal to the hooks appended since the last clear, in order; invalid ids are ignored. |
| `ApiHooks.FeatureHooks.Clear` | include/api/FeatureAPIHooks.h:95-107 | Clearing, with its shortcut, always leaves every list empty. |
| `ApiHooks.FeatureHooks.Get` | include/api/FeatureAPIHooks.h:119-124 | The first hook appended for an id since the last clear, if any and if the id is valid. |
| `ApiHooks.Session.HasHooksIff` | include/proxy/ProxySession.h:294-304 | The fast check is exact: a session has hooks if and only if it has a hook for some id. |
| `History.History.PushBack` | include/tscore/History.h:42-49 | The ring remembers one more write, with its fields truncated to 16 bits, also when the 32-bit position comes back to zero. |
| `History.StoredKeeps` | include/tscore/History.h:46-48 | An entry keeps its location, the event modulo 2^16 and the reentrancy wrapped into a short. |
| `History.WriteRemembered` | include/tscore/History.h:45-48 | A write keeps every remembered write but the one that is a full ring older. |
| `History.SlotIsRemainder` | include/tscore/History.h:45 | The slot of a write is its number modulo the capacity. |
| `History.Children` | tools/gdb-helpers.py:304-322 | The printer yields the remembered writes oldest first, numbered, without the filtered functions. |
| `History.LeftOutIff` | tools/gdb-helpers.py:318-321 | An entry is left out exactly if one of the two names occurs anywhere in its function. |
| `History.ShowsLastIff` | tools/gdb-helpers.py:309-311 | The printer has the last `capacity` writes, or all if fewer, if and only if the position has not come back to zero within the last `capacity` writes. |
| `History.NothingShown` | tools/gdb-helpers.py:309-311 | After exactly 2^32 writes the printer shows nothing. |
| `CriptContext.Context.HttpTxnCont` | include/cripts/Epilogue.hpp:420-631 | One event on a live context has the specified effect and frees the context exactly at the close; every access to a field, on every path, is shown to be to a live context. |
| `CriptContext.Context.CallBundles` | include/cripts/Epilogue.hpp:454-461 | The loop over the bundles, behind the failure flag and the instance mask, calls in order those whose own mask selects the hook. |
| `CriptContext.Context.HookReadRequest` | include/cripts/Epilogue.hpp:431-448 | The read-request event in place. |
| `CriptContext.Context.HookSendRequest` | include/cripts/Epilogue.hpp:450-473 | The send-request event in place. |
| `CriptContext.Context.HookReadResponse` | include/cripts/Epilogue.hpp:475-495 | The read-response event in place. |
| `CriptContext.Context.HookSendResponse` | include/cripts/Epilogue.hpp:497-517 | The send-response event in place. |
| `CriptContext.Context.HookTxnClose` | include/cripts/Epilogue.hpp:519-542 | The close in place; at its end the context is freed, and no field of it is read or written after. |
| `CriptContext.Context.HookCacheLookup` | include/cripts/Epilogue.hpp:544-564 | The cache-lookup event in place. |
| `CriptContext.Context.HookPreRemap` | include/cripts/Epilogue.hpp:566-591 | The pre-remap event in place. |
| `CriptContext.Context.HookPostRemap` | include/cripts/Epilogue.hpp:593-622 | The post-remap event in place. |
| `CriptContext.Context.DisableCallback` | include/cripts/Transaction.hpp:53-57 | Clears the callback's bits and changes nothing else. |
| `CriptContext.Context.CallRemap` | include/cripts/Epilogue.hpp:894-902 | Every bundle, then the Cript unless the transaction failed. |
| `CriptContext.Context.FinishRemap` | include/cripts/Epilogue.hpp:905-967 | URL updates, registration, and the release of a context that is not kept; the returned flag is the one the context had, which cannot be read after the release. |
| `CriptContext.Context.Release` | include/cripts/Epilogue.hpp:955-957 | The context's fields are gone; the host sees the release. |
| `CriptContext.DoRemapTxn` | include/cripts/Epilogue.hpp:865-967 | The remap entry point in place, from allocation to return. |
| `CriptContext.StartTxn` | include/cripts/Epilogue.hpp:636-692 | The start of a global transaction in place. |
| `CriptTransaction.RunTransaction` | include/cripts/Epilogue.hpp:420-967 | Any transaction, from either entry point, with any registered hooks and the close if it was registered, ends with its context freed, touches no field of it after the release, and shows the host exactly the specified trace. |
| `CriptInstance.Instance.CollectCallbacks` | include/cripts/Epilogue.hpp:813-843 | The instance can be used exactly if its set-up did not fail and no bundle reported an error; its mask then collects those of the valid bundles. |
| `CriptInstance.CollectedIsUnion` | include/cripts/Instance.hpp:69-81 | The instance asks for a callback if and only if it did so itself or a valid bundle does. |
| `CriptInstance.WantedExactly` | include/cripts/Epilogue.hpp:456-460 | The calls the bundles ask for are exactly those of the bundles with a selected bit, each once, in list order. |
| `CriptInstance.RunBundlesWanted` | include/cripts/Epilogue.hpp:456-460 | Whatever a bundle does, even failing the transaction, the later bundles of the same event are called all the same. |
| `CriptInstance.FilterIsExact` | include/cripts/Epilogue.hpp:454-461 | On a transaction that has not failed, the two-level filter calls what the bundles ask for if and only if the instance mask selects the hook or no bundle does. |
| `CriptInstance.InstanceCovers` | include/cripts/Epilogue.hpp:816-821 | An instance whose bundles all validated meets that condition at every hook. |
| `CriptRuns.OnHookWorks` | include/cripts/Epilogue.hpp:430-622 | At every hook but the close only callbacks and URL updates happen, no blocked function runs, failure stays and bits are only cleared. |
| `CriptRuns.RemapLife` | include/cripts/Epilogue.hpp:904-956 | Callbacks aside, a kept remap creates one continuation, adds its hooks and executes; any other executes and releases. |
| `CriptRuns.TxnStartLife` | include/cripts/Epilogue.hpp:656-692 | Callbacks aside, a start with a mask creates one continuation and adds its hooks; one without releases the context. |
| `CriptRuns.CloseLife` | include/cripts/Epilogue.hpp:519-542 | Callbacks aside, the close destroys the continuation, releases the context and lets the host go on. |
| `CriptSafety.EveryRunIsBalanced` | include/cripts/Epilogue.hpp:420-967 | Every transaction, from either entry point, with any callbacks and any registered hooks, releases its context exactly once, destroys the continuation once if it created one, and reenables exactly once per event. |
| `CriptSafety.NothingAfterRelease` | include/cripts/Epilogue.hpp:540-541 | In the trace of every transaction (callbacks and calls to the host) nothing but the reenabling follows the release; accesses to the context itself are the matter of `RunTransaction`. |
| `CriptSafety.RemapKeeps` | include/cripts/Epilogue.hpp:905-913 | A remap keeps its context if and only if no callback of the remap fails in the script and the bits they leave include one other than the remap's; the numeric test agrees with the bitwise one. |
| `CriptSafety.RemapRegisters` | include/cripts/Epilogue.hpp:913-943 | A hook is registered if and only if the context is kept and the hook is the close or its bit is among those the remap's callbacks leave of the first mask. |
| `CriptSafety.TxnStartRegisters` | include/cripts/Epilogue.hpp:656-684 | A global transaction keeps its context iff its instance has any callback; a hook is then registered if and only if it is the close or the instance asks for it, whatever the start callback disabled. |
| `CriptSafety.CloseIsRegistered` | include/cripts/Epilogue.hpp:681-939 | The close is registered if and only if the context is kept, for both entry points. |
| `CriptSafety.FailureIsLatched` | include/cripts/Error.hpp:107-118 | Once a transaction has failed it stays failed, and over all later events no bundle runs, no URL is updated, and no request, response or lookup callback is made. |
| `CriptSafety.FailedHookRuns` | include/cripts/Epilogue.hpp:519-622 | A failed transaction still runs a callback at an event if and only if it is the pre-remap, post-remap or close event and the function to run is enabled and defined. |
| `CriptSafety.BlockedStaysQuiet` | include/cripts/Transaction.hpp:53-57 | A function of the Cript whose guarding bits are clear does not run in any continuation of the transaction, and its bits stay clear. |
| `CriptLimits.DisabledRunsIff` | include/cripts/Transaction.hpp:30-57 | There is a transaction the host can have, in which a callback disables a function of the Cript and a later registered event or the close runs the Cript's function, if and only if it is the global read-request function, or the lookup function with the global lookup bit set. |
| `CriptLimits.FailedRunsIff` | include/cripts/Epilogue.hpp:519-622 | There is a transaction the host can have that fails and runs a function of the Cript later if and only if it is one of the two post-remap functions, the pre-remap function or the two close functions. |
| `CriptBundles.EventCallsBundles` | include/cripts/Epilogue.hpp:430-622 | At every event the bundles called are exactly those whose own mask selects the hook, in list order, if the transaction has not failed and the instance mask selects it; the enabled callbacks matter at the close only, where one of the two close bits must still be set. |
| `CriptEvents.EventTrace` | include/cripts/Epilogue.hpp:420-631 | Exactly what every event does, in order, read off the script: the bundles that the masks select, the one function of the Cript that the hook and the bits left by those bundles call for (if defined), the cache and request URL updates, and the end. |
| `CriptEvents.EventState` | include/cripts/Epilogue.hpp:420-631 | Exactly what every event leaves: the bits its callbacks left, the failure if a callback or the cache key failed, the URL flags, and the place in the script. |
| `CriptEvents.UpdatedOnce` | include/cripts/Epilogue.hpp:444-620 | A URL is updated once in an event in which a callback changed it and the update is reached, and in no other. |
| `CriptEvents.RemapTrace` | include/cripts/Epilogue.hpp:865-967 | Exactly what every remap does, in order: its callbacks, the updates of changed URLs if none failed, the hooks of the bits left, and the release if nothing is left. |
| `CriptEvents.RemapReports` | include/cripts/Epilogue.hpp:951-966 | The remap reports a changed URL exactly if one of its callbacks changed it. |
| `CriptEvents.StartTrace` | include/cripts/Epilogue.hpp:644-692 | Exactly what the start of a global transaction does: the start function if defined, the hooks or the release, the reenable. |
| `CriptEvents.FirstMaskIff` | include/cripts/Epilogue.hpp:869-892 | A remap starts with a callback enabled exactly if the Cript defines its function or the instance asks for it. |
| `CriptScript.RemapCallsMade` | include/cripts/Epilogue.hpp:894-902 | The remap calls every bundle in order, and then the Cript's function exactly if it is defined and no bundle failed; nothing unless the Cript defines it or the instance asks. |
| `CriptScript.LeftIff` | include/cripts/Transaction.hpp:53-57 | After any callbacks a bit is left exactly if it was set and none of them disabled it. |
| `CriptBundles.DisablingSparesBundles` | include/cripts/Epilogue.hpp:430-622 | Disabling any callbacks changes no bundle call of an event before the close. |
| `CriptBundles.BundleRunsDisabledIff` | include/cripts/Epilogue.hpp:452-608 | From either entry point there is a transaction the host can have, in which a callback disables a function and a bundle runs it later, if and only if it belongs to one of the five hooks before the close, or is the close function and the global close bit is still set. |
| `CriptSafety.GlobalLookupNeverRuns` | include/cripts/Epilogue.hpp:556-562 | No transaction ever runs the global lookup function. |

## Left out

- RecordNames.AddObjectLaw: nested dictionaries are values here, so the update in place of shared dictionaries is not captured.
- RecordNames.NestThenFlatten: the typed conversion of values (`get_value`), YAML sequences and the YAML text itself are not modelled; values are of any type and a record is whatever the handler is called with.
- HostStatus.WriteTo: stands for both serializers of the record, whose statements are the same.
- HostStatus.ParseText: a failed assertion of the parser and an `atoi` argument out of range, whose result is undefined, are both "no record".
- FreeList.PoolIsLinearizable: assumes that loads and swaps of the head are atomic and sequentially consistent; the `used` and `allocated` counters, alignment, huge pages and the debugging patterns are not modelled.
- FreeList.WindowIsTight: is about two or more versions; the packed pointer layouts have, for example, 2048 or 32768.
- TrackerAllocator.TrackedBytesAgree: counters are unbounded integers and a counter update is one atomic step.
- AtomicBit.Linearizable: memory order is sequential consistency, the default of the operations used.
- Arena.Arena.StrAlloc: memory from the system is a parameter (`grant`), required only to be clear of what is in use; sizes that wrap a `size_t` are not modelled, and nothing is promised after the undefined outcome, where the program aborts or goes on with a null pointer.
- BulkFree.FreeBulk: requires a chain that ends with null and meets no object twice, as the callers build it.
- CacheControl.FirstLineWins: whether a rule's modifiers accept the request is a flag of the rule; the host, URL, regex and address tables that hand the rules over appear only as an arbitrary order.
- CriptSafety.EveryRunIsBalanced: the host is assumed to deliver only registered hooks, any number of times, and the close once, last.
- CriptContext.Context.FinishRemap: `Error::Execute` is one action that leaves the failure flag alone; the redirect flag and response statuses are not modelled.
- Cripts code generation, headers, URLs, certificates, crypto, metrics and bundle implementations.
- Plugin registration (`TSPluginInit`, `TSRemapInit`) and instance deletion: they run once, outside any transaction.
- Consistent hashing, parent selection, the HTTP state machine, caching, TLS and all input and output.
- Milestones, enumeration descriptors, metric storage and other plain getters and setters.
