# Verified models of lind-wasm

This project models five parts of lind-wasm in Dafny and proves what they promise.

* **Virtual descriptor tables** (`src/fdtables`). Every cage has a table of virtual descriptors;
  a global map counts, per `(fdkind, underfd)`, the slots that hold the pair, and close handlers
  chosen by their owners are called as slots go away. Handlers may call any operation again.
  `FdSemantics` gives the behaviour of every operation on values: a first part that changes the
  tables, and a drain that releases entries one by one with a handler at each. A handler is a
  script of further calls, one script per release of a call, so a theorem for all scripts is a
  theorem for all handlers. Backends differ in storage and iteration order; a hash map's order is
  an arbitrary function of the row and the moment. Where two backends are compared in
  `FdBackends` the first release runs the first script on both, the second the second, and so
  on. `FdHandlers` is about handlers that choose by the entry they are given, and so see the
  order. `FdAnswers` says what each call answers and which slots and records change, in terms of
  lookups before and after it. `ArrayTables` and `HashTables` hold the operations as they are coded, as classes whose
  methods are proved against these functions.
* **Argument parsing** (`src/glibc/argp`). `ArgpOrder` is the comparator of help entries and
  `ArgpSorting` what a list sorted by it looks like, in terms of the options' fields; `ArgpHeaders`
  is the printing of cluster headers, `ArgpHol` the list of help entries and its short-option
  string, `ArgpNesting` the groups and clusters of its entries. `ArgpTables` has the tables the
  parser hands to getopt, `ArgpFamily` the groups in them, `ArgpShorts` what getopt reads off
  the short-option string, `ArgpPack` the packing of long options. `ArgpProtocol`, `ArgpPhases`
  and `ArgpCalls` are about the order in which parsers are called, `ArgpLedger` about the arguments
  they are credited with, and `ArgpPositions` about single steps, for parsers that reply anything
  and a getopt that answers anything its tables allow. `HolBuilder`, `ParserBuilder`
  and `ArgpParser` are the loops, buffers and structures of the code, proved against those
  functions; that no write leaves its buffer is part of the proofs.
* **Marshalling specs** (`tools/marshal-gen/gen_grate.py`). A tree of argument descriptions is
  written as named declarations that refer to one another. `Marshal` has the direct translation,
  the emitter and a resolver that lets a name refer only to earlier declarations;
  `MarshalMeaning` says what a spec for a description is, as a relation over the description's
  fields; `MarshalEmitter` is the emitter as the code runs it.
* **Cage lifecycle** (`src/cage`, and the fork and wait steps of `src/rawposix`). Calls of
  different cages happen at the same time, so the steps of `CageLifecycle` are single updates of
  shared data, in any order that the callers' own order allows. `CageTable` is the table with
  its slots, `CageDescriptors` says which calls give a cage a descriptor table or take it away,
  and `CageRuns` runs cages and descriptor tables together.
* **The export tool** (`scripts/add-export-tool`). `AddExport` is the loop over the parser's
  payloads on values, `AddExportTheorems` what it keeps of a module, `ExportTool` the loop as coded.

Some promises do not hold as stated. For these there is a concrete case, and the exact condition
under which the promise does hold:

* The array backend does not always agree with the hash maps: `DivergenceAtTheLimit` and
  `RefusalAtAnInput` are cases, `ArrayAgreesExactly` the condition for one call, and
  `ArrayRefinesHashMaps` the agreement over whole runs.
* With ARGP_NO_ARGS the short-option string can need one byte more than is allocated:
  `NoArgsOverflows` and `ShortStringFits`.
* `waitpid` can report that there are no children while a child that ended has not been waited
  for: `WaitBetweenUpdates` and `NoChildrenExactly`.
* Packed long options give their group back only up to 127 groups: `PackOverflows` and
  `PackRoundTrip`.
* The export tool keeps a module's sections only for some modules: `CodeWithoutExports` and
  `TagBeforeExports` are two others, and `KeepsSections` says exactly for which.
* Help and parser disagree over an alias of a documentation option that is not one itself:
  `LooseAliasDisagrees` and `HelpAndParserAgreeExactly`.
* Bits that select reports do not always come back as the descriptors asked for:
  `SharedKeyLosesOne`, `SelectRoundTrip` and, for the calls with their bounds, `CallsRoundTrip`.
* The header of a cluster is not always printed once: `HeaderTwice` and `HeaderNever` are cases,
  `HeaderExactly` says before which entries it comes, and `HeaderOnce` when that is one.
* Getopt does not take every short option for one with the argument it was declared with:
  `ColonMisread` and `ShortArguments`. Nor does it treat arguments as the flags ask if an option
  `-` or `+` comes first: `DashMisread` and `OrderingRead`.
* Sets of ready descriptors mapped back kind by kind do not always hold all of them:
  `SilentForgets` and `GatherEverything`.
* Adding an export a second time can change the module again, after `CodeWithoutExports`:
  `Idempotent` says exactly when it does not.

For two there is a case and a sufficient condition:

* Finalization does not always leave a cage without a descriptor table: `HandlerBringsBack`.
  `FinalizeLeavesNoSlots` and `TablesFollowCages` suppose that nobody makes a table for a cage
  that is not being forked.
* Handlers that choose by the entry can tell the order in which a map releases its entries:
  `OrderMattersByEntry`. It is enough that what they do commutes: `ByEntryAgrees`, with
  `QuietHandlersAgree` and `OwnCagesAgree` for two kinds of handlers.

Where code and comments disagree the model follows the code: larger indices come first among
clusters of a group (src/glibc/argp/argp-help.c:695), of entries with the same letter those
without a short option come first (src/glibc/argp/argp-help.c:873), and an argument taken through
ARGP_KEY_ARGS always moves the position to the end, whether or not the parser changed it
(src/glibc/argp/argp-parse.c:691-695).

## Model

| member | source | states |
|---|---|---|
| `FdTheorems.CountsAreExact` | src/fdtables/src/dashmaparrayglobal.rs:467-531 | After any calls from empty tables, with handlers that call back in: each pair's count is the number of slots holding it plus the references still to be released; at every handler call the books balance and the handler gets the exact remaining count, `last` exactly when none remains; counts are installs minus handler calls; the panics over missing keys and underflow are unreachable |
| `FdCounts.RunAllSound` | src/fdtables/src/dashmaparrayglobal.rs:288-373 | The invariant behind this (balance at every key, log exact so far, rows bounded, stored descriptors below the high-water mark) survives any sequence of calls on any lawful backend |
| `FdCounts.DrainSound` | src/fdtables/src/dashmaparrayglobal.rs:467-518 | Releasing entries one by one keeps the invariant although each handler may run any calls in between |
| `FdCounts.DecrementSound` | src/fdtables/src/dashmaparrayglobal.rs:483-511 | Lowering a count for an entry in flight keeps the books balanced and cannot panic |
| `FdCounts.BeginGood` | src/fdtables/src/dashmaparrayglobal.rs:77-373 | The first part of every operation keeps the invariant, and every entry it takes out stays counted until it is released |
| `FdTheorems.Dup2SameKey` | src/fdtables/src/dashmaparrayglobal.rs:228-240 | Installing a pair over a slot that holds the same pair calls the intermediate handler with the count from before, never `last` |
| `FdTheorems.AllocationIsExact` | src/fdtables/src/muthashmaxglobal.rs:140-237 | In every reachable state EMFILE is returned exactly when all slots are taken; otherwise a vacant slot is filled and no other touched, also on the high-water fast path; scanning backends give the lowest vacant descriptor |
| `FdSemantics.LowestVacant` | src/fdtables/src/dashmaparrayglobal.rs:113-193 | The descriptor found is vacant, at or above the start, and everything between is taken; none is found exactly when all are taken |
| `FdTheorems.RunAllStable` | src/fdtables/src/dashmaparrayglobal.rs:423-448 | Any predicate kept by first parts, releases and handler failures is kept by whole calls with handlers that call back in |
| `FdBackends.ArrayAgreesExactly` | src/fdtables/src/vanillaglobal.rs:255-261 | In reachable states that look alike, with handlers whose own calls are in range: a whole call gives the same result and the same state on the array and the hash-map backend if and only if it does not make the array index past its row and, where it replaces a descriptor, the handler of the old one does not fail |
| `FdBackends.RefusalAtAnInput` | src/fdtables/src/dashmaparrayglobal.rs:237-239 | Replacing a descriptor whose handler returns 5: after the same three calls the array has returned the error and the hash map has panicked |
| `FdBackends.DivergenceAtTheLimit` | src/fdtables/src/dashmaparrayglobal.rs:214-235 | Asking for descriptor 1024 passes the range test: the array panics with a reference counted, the hash map stores it |
| `FdBackends.ArrayRefinesHashMaps` | src/fdtables/src/dashmaparrayglobal.rs:84-448 | Over any sequence of calls from empty tables, whatever order the maps iterate in and whatever handlers call back in or fail with, as long as all calls, the handlers' included, are in range and no replaced descriptor's handler fails: both backends return the same outcome for every call, the same table for every cage and the same epoll records, and, unless a call panicked, the same counts and no reference in flight |
| `FdHandlers.ByEntryAgrees` | src/fdtables/src/vanillaglobal.rs:335-405 | Removing a table or the descriptors marked close-on-exec with handlers that choose their calls and their result by the entry they get: in reachable states that look alike, whatever order the maps iterate in, both backends give the same result and the same state if what the handlers of any two of the entries do can be swapped |
| `FdHandlers.QuietHandlersAgree` | src/fdtables/src/vanillaglobal.rs:335-405 | So they do for handlers that make no calls, whatever they return |
| `FdHandlers.OwnCagesAgree` | src/fdtables/src/vanillaglobal.rs:335-405 | And for handlers that succeed and call back in, at any depth, about the descriptors of a cage of their own |
| `FdHandlers.DrainIsActs` | src/fdtables/src/dashmaparrayglobal.rs:325-333 | Releasing entries is, but for counts and events, the work of their handlers in that order |
| `FdHandlers.OrderMattersByEntry` | src/fdtables/src/vanillaglobal.rs:335-358 | With one handler that creates a cage and one that uses it, chosen by the entry, a map that iterates downwards panics where the array returns |
| `FdEpoll.EpollRecordsLive` | src/fdtables/src/dashmaparrayglobal.rs:947-1144 | After any calls that use the epoll kind only for copies of existing descriptors, every epoll slot of every cage names a live record, no lookup of a record fails, and no inner map is empty |
| `FdEpoll.ControlIsPartialMap` | src/fdtables/src/dashmaparrayglobal.rs:1082-1120 | ADD, MOD and DEL are insert-if-absent, replace-if-present and remove-if-present on the flattened view, with EEXIST and ENOENT otherwise |
| `FdEpoll.LookupDetermines` | src/fdtables/src/dashmaparrayglobal.rs:911-922 | Records that answer every lookup alike are equal: nothing but the view is stored |
| `FdEpoll.FailedControlChangesNothing` | src/fdtables/src/dashmaparrayglobal.rs:1040-1120 | A control call that returns an error leaves the whole world as it was |
| `FdSelect.GetBitmaskForSelect` | src/fdtables/src/dashmaparrayglobal.rs:582-676 | The masks are exactly the bits underneath per handled kind with the smallest bound above them, the entries of other kinds, and a mapping that answers with the largest descriptor behind a key; EINVAL for a bound that is too large before the panic over an unknown cage, and EBADF for a descriptor that is not there |
| `FdSelect.PrepareBitmasksForSelect` | src/fdtables/src/dashmaparrayglobal.rs:679-717 | All three sets are translated, or the first error is returned; the panic over an unknown cage |
| `FdSelect.GetOneVirtualBitmask` | src/fdtables/src/dashmaparrayglobal.rs:722-769 | The loops give the image of the set bits plus the unprocessed descriptors, and `flagsset` counts exactly the bits that were not set before; a bound that is too large and a failed lookup |
| `FdSelect.SelectRoundTrip` | src/fdtables/src/dashmaparrayglobal.rs:582-769 | Mapping back any part of a prepared mask gives exactly the requested descriptors whose bit underneath is set, if and only if each of them is the one its key answers with in the joined mapping |
| `FdSelect.CallsRoundTrip` | src/fdtables/src/dashmaparrayglobal.rs:722-769 | The calls there and back: with the prepared bound and mapping, whatever part of the prepared bits is reported, the result is exactly the requested descriptors whose bit is set and their number, if and only if each is the one its key answers with and has a descriptor underneath that leaves room for the bound |
| `FdSelect.SharedKeyLosesOne` | src/fdtables/src/dashmaparrayglobal.rs:657-666 | Two requested descriptors behind one key: one bit is prepared, and only the larger comes back |
| `FdSelect.DistinctKeysAnswer` | src/fdtables/src/dashmaparrayglobal.rs:695-716 | Pairwise distinct pairs behind the requested descriptors are enough for that |
| `FdSelect.BoundFits` | src/fdtables/src/dashmaparrayglobal.rs:732-735 | A prepared bound is accepted on the way back exactly when every descriptor underneath leaves room |
| `FdSelect.GatherEverything` | src/fdtables/src/dashmaparrayglobal.rs:730-768 | Any calls one after the other, each starting from the set of the one before: the last set holds every descriptor that any call names if and only if those named up to the last call with neither bits nor other descriptors are named again after it; without such a call the counts add up to how many there are |
| `FdSelect.GatherBits` | src/fdtables/src/dashmaparrayglobal.rs:739-768 | After any calls the set holds exactly what was named since the last call with neither, and is absent exactly if that was the last; the counts never add up to less |
| `FdSelect.SilentForgets` | src/fdtables/src/dashmaparrayglobal.rs:739-741 | A call with neither after one that named a descriptor: it has been counted, and no set comes back |
| `FdAnswers.AllocationFromIsExact` | src/fdtables/src/dashmaparrayglobal.rs:155-193 | On every backend, a descriptor from a given one on: EMFILE exactly when every slot at or above it is taken, and nothing changes; otherwise the lowest vacant slot at or above it holds the entry, no other slot of any cage changes, and a lookup finds it |
| `FdAnswers.AllocationAnswers` | src/fdtables/src/dashmaparrayglobal.rs:113-151 | The same for a descriptor anywhere, in every reachable state |
| `FdAnswers.TranslateAnswers` | src/fdtables/src/dashmaparrayglobal.rs:84-109 | A lookup answers with the entry in the slot, EBADFD if it is vacant or out of range, and changes nothing |
| `FdAnswers.SpecificAnswers` | src/fdtables/src/dashmaparrayglobal.rs:197-243 | After asking for a descriptor below the table size its slot holds the entry, whatever it held, and no other slot changes; above it EBADF |
| `FdAnswers.SettersAnswer` | src/fdtables/src/dashmaparrayglobal.rs:247-283 | The setters change their field of one entry, which a lookup shows, and nothing else; EBADFD for a vacant slot |
| `FdAnswers.InitAnswers` | src/fdtables/src/dashmaparrayglobal.rs:77-82 | A new cage has no entries; a known one is a panic |
| `FdAnswers.CopyAnswers` | src/fdtables/src/dashmaparrayglobal.rs:288-314 | Every lookup in the copy answers as in the original, and those in other cages as before |
| `FdAnswers.RemoveAnswers` | src/fdtables/src/dashmaparrayglobal.rs:319-334 | A removed cage has no entries, the others theirs |
| `FdAnswers.ExecAnswers` | src/fdtables/src/dashmaparrayglobal.rs:339-373 | Exactly the entries of the cage that are marked close-on-exec are gone |
| `FdAnswers.CloseAnswers` | src/fdtables/src/dashmaparrayglobal.rs:423-448 | The slot is empty, a lookup fails, no other slot changes; EBADFD for a vacant slot |
| `FdAnswers.CloseFires` | src/fdtables/src/dashmaparrayglobal.rs:467-518 | Closing calls exactly one handler, with the entry that was in the slot |
| `FdAnswers.ErrorAnswers` | src/fdtables/src/muthashmaxglobal.rs:239-292 | What becomes of a handler's error: closing returns it; replacing a descriptor returns it on the array, panics on the hash maps and is not told on the high-water backend |
| `FdAnswers.ReleaseErrors` | src/fdtables/src/dashmaparrayglobal.rs:319-373 | Removing a cage that has a descriptor, or its marked ones, panics if the first handler fails, in whatever order entries are released |
| `FdAnswers.UnknownAnswers` | src/fdtables/src/dashmaparrayglobal.rs:84-373 | Every call on an unknown cage panics and changes nothing, but for making one, removing one and closing a descriptor out of range |
| `FdAnswers.KnownAnswers` | src/fdtables/src/dashmaparrayglobal.rs:288-448 | Removing an unknown cage does nothing, closing out of range is EBADFD whatever the cage, copying to a known cage is a panic |
| `FdAnswers.ControlAnswers` | src/fdtables/src/dashmaparrayglobal.rs:1040-1120 | A control call acts on the record behind the epoll descriptor at the kind of the other descriptor and that descriptor, and nowhere else; a wait afterwards answers with the changed record, and nothing else of the world changes |
| `FdAnswers.ControlRefuses` | src/fdtables/src/dashmaparrayglobal.rs:1040-1077 | EINVAL, EBADF, ENOSYS and the panic exactly when each is due, in the order of the tests, and nothing changes |
| `FdAnswers.WaitAnswers` | src/fdtables/src/dashmaparrayglobal.rs:1125-1144 | A wait answers with the record behind the descriptor and changes nothing |
| `FdAnswers.AddUnderAnswers` | src/fdtables/src/dashmaparrayglobal.rs:984-1014 | The descriptor underneath is registered under its kind in that record, a second one for a kind is a panic, and what is not an epoll descriptor is refused |
| `FdAnswers.CreateAnswers` | src/fdtables/src/dashmaparrayglobal.rs:963-981 | A new epoll descriptor has a record of its own with nothing in it, as a wait shows; EMFILE exactly when the table is full |
| `ArrayTables.FdTables.Execute` | src/fdtables/src/dashmaparrayglobal.rs:77-448 | Every operation of the array backend as coded, handlers included, does what the specification does |
| `ArrayTables.FdTables.IncrementFdcount` | src/fdtables/src/dashmaparrayglobal.rs:522-531 | Counts one more reference |
| `ArrayTables.FdTables.DecrementFdcount` | src/fdtables/src/dashmaparrayglobal.rs:467-518 | Lowers or removes the count and then lets the handler act |
| `ArrayTables.FdTables.RunHandler` | src/fdtables/src/dashmaparrayglobal.rs:513-517 | A handler's calls back in, one after the other |
| `ArrayTables.FdTables.InitEmptyCage` | src/fdtables/src/dashmaparrayglobal.rs:77-82 | A new cage gets an empty row; a known one is a panic |
| `ArrayTables.FdTables.TranslateVirtualFd` | src/fdtables/src/dashmaparrayglobal.rs:84-109 | Looks an entry up, EBADFD for descriptors out of range or vacant |
| `ArrayTables.FdTables.FirstVacant` | src/fdtables/src/dashmaparrayglobal.rs:131-151 | The scan finds the lowest vacant descriptor at or above the start |
| `ArrayTables.FdTables.GetUnusedVirtualFd` | src/fdtables/src/dashmaparrayglobal.rs:113-151 | Fills the lowest vacant slot and counts the entry, or EMFILE |
| `ArrayTables.FdTables.GetUnusedVirtualFdFromStartfd` | src/fdtables/src/dashmaparrayglobal.rs:155-193 | The same from a given descriptor upwards |
| `ArrayTables.FdTables.GetSpecificVirtualFd` | src/fdtables/src/dashmaparrayglobal.rs:197-243 | Counts the new entry, replaces the slot, then releases the old entry; a handler's error is returned |
| `ArrayTables.FdTables.SetCloexecFlag` | src/fdtables/src/dashmaparrayglobal.rs:247-263 | Changes the flag of one entry, indexing past the row being a panic |
| `ArrayTables.FdTables.SetPerfdinfoValue` | src/fdtables/src/dashmaparrayglobal.rs:267-283 | The same for the per-descriptor information |
| `ArrayTables.FdTables.CopyFdtableForCage` | src/fdtables/src/dashmaparrayglobal.rs:288-314 | The copy has the same row and every entry is counted once more |
| `ArrayTables.FdTables.RemoveCageFromFdtable` | src/fdtables/src/dashmaparrayglobal.rs:319-334 | Takes the row out, then releases its entries in slot order; a handler's error is a panic |
| `ArrayTables.FdTables.EmptyFdsForExec` | src/fdtables/src/dashmaparrayglobal.rs:339-373 | Takes out exactly the entries marked close-on-exec, then releases them |
| `ArrayTables.FdTables.ReturnFdtableCopy` | src/fdtables/src/dashmaparrayglobal.rs:380-395 | The cage's row as a map |
| `ArrayTables.FdTables.CloseVirtualfd` | src/fdtables/src/dashmaparrayglobal.rs:423-448 | Takes one entry out and releases it; EBADFD if there is none |
| `ArrayTables.FdTables.EpollCreateEmpty` | src/fdtables/src/dashmaparrayglobal.rs:963-981 | A new descriptor of the epoll kind with an empty record of its own |
| `ArrayTables.FdTables.EpollEntrynum` | src/fdtables/src/dashmaparrayglobal.rs:947-960 | The record behind a descriptor, or the error |
| `ArrayTables.FdTables.EpollAddUnderfd` | src/fdtables/src/dashmaparrayglobal.rs:984-1014 | Registers the descriptor underneath for a kind, once |
| `ArrayTables.FdTables.VirtualizeEpollCtl` | src/fdtables/src/dashmaparrayglobal.rs:1040-1120 | The control operation on the record, with all its error cases |
| `ArrayTables.FdTables.GetVirtualEpollWaitData` | src/fdtables/src/dashmaparrayglobal.rs:1125-1144 | The record's view |
| `HashTables.FdTables.Execute` | src/fdtables/src/vanillaglobal.rs:79-468 | Every operation of the hash-map and the high-water backend as coded does what the specification does |
| `HashTables.FdTables.GetUnusedVirtualFd` | src/fdtables/src/muthashmaxglobal.rs:140-188 | The fast path takes the mark itself and raises it; a spent mark means a scan |
| `HashTables.FdTables.GetUnusedVirtualFdFromStartfd` | src/fdtables/src/muthashmaxglobal.rs:192-237 | The scan from a descriptor, the mark raised past what it finds |
| `HashTables.FdTables.GetSpecificVirtualFd` | src/fdtables/src/muthashmaxglobal.rs:239-292 | The new entry is counted and put in, the mark raised, the old entry released; the high-water backend ignores a handler's error, the hash-map one panics |
| `HashTables.FdTables.CopyFdtableForCage` | src/fdtables/src/muthashmaxglobal.rs:344-369 | The copy has row and mark of the original, every entry counted once more |
| `HashTables.FdTables.RemoveCageFromFdtable` | src/fdtables/src/vanillaglobal.rs:335-358 | Takes the table out, then releases its entries in the map's order |
| `HashTables.FdTables.EmptyFdsForExec` | src/fdtables/src/vanillaglobal.rs:361-405 | Takes out exactly the marked entries, then releases them |
| `HashTables.FdTables.CloseVirtualfd` | src/fdtables/src/vanillaglobal.rs:445-468 | Takes one entry out and releases it |
| `HashTables.FdTables.InitEmptyCage` | src/fdtables/src/vanillaglobal.rs:79-87 | A new cage gets an empty table; a known one is a panic |
| `HashTables.FdTables.TranslateVirtualFd` | src/fdtables/src/vanillaglobal.rs:90-112 | Looks an entry up, EBADFD for descriptors out of range or vacant |
| `HashTables.FdTables.UpdateSlot` | src/fdtables/src/vanillaglobal.rs:269-303 | Changes one field of one entry, EBADFD if there is none |
| `HashTables.FdTables.EpollCreateEmpty` | src/fdtables/src/vanillaglobal.rs:967-985 | A new epoll descriptor and its record |
| `HashTables.FdTables.EpollEntrynum` | src/fdtables/src/vanillaglobal.rs:947-964 | The record behind a descriptor, or the error |
| `HashTables.FdTables.EpollAddUnderfd` | src/fdtables/src/vanillaglobal.rs:988-1018 | Registers the descriptor underneath for a kind, once |
| `HashTables.FdTables.VirtualizeEpollCtl` | src/fdtables/src/vanillaglobal.rs:1046-1128 | The control operation on the record, with all its error cases |
| `HashTables.FdTables.GetVirtualEpollWaitData` | src/fdtables/src/vanillaglobal.rs:1132-1153 | The record's view |
| `FdSteps.ChangeHandled` | src/fdtables/src/dashmaparrayglobal.rs:1082-1119 | The three operations on the nested maps as coded do what is specified, the map of a kind going away with its last descriptor |
| `ArgpOrder.EntryCmpIsLex` | src/glibc/argp/argp-help.c:796-895 | The comparison has the sign of the lexicographic comparison of one integer sequence per entry, through groups, cluster lifting and parent recursion, documentation flags, letters and names |
| `ArgpOrder.EntryCmpFlips` | src/glibc/argp/argp-help.c:785-895 | Swapping the arguments negates the result |
| `ArgpOrder.EntryCmpTransitive` | src/glibc/argp/argp-help.c:785-795 | All four transitivity clauses of the comment, for clusters of any depth |
| `ArgpOrder.ClusterContiguous` | src/glibc/argp/argp-help.c:726-755 | In a sorted list, only entries of a cluster's subtree, or of one with equal places, lie between two of its entries |
| `ArgpSorting.SortedByName` | src/glibc/argp/argp-help.c:834-889 | In a sorted list, of two entries of one cluster and group, by the fields of their options: documentation that does not look like an option comes last; then the first letters, those of the short option that is not hidden or shadowed, or else of the first name that is not hidden, go up, small before capital; of those with one letter the ones without a short option come first, unnamed before named, by name without regard to case |
| `ArgpSorting.SortedByGroup` | src/glibc/argp/argp-help.c:796-832 | In a sorted list groups count up from zero with the negative ones last: first those of the outermost clusters, with what is in no cluster before what is; of two clusters side by side the entries below that of the earlier group, or within one group of the larger index, come first; within one cluster the groups of the entries |
| `ArgpSorting.StrcasecmpMeans` | src/glibc/argp/argp-help.c:882-887 | Names compare by the first place where they differ but for case, or one is the start of the other |
| `ArgpHeaders.HeaderLines` | src/glibc/argp/argp-help.c:1335-1345 | The loop over the entries as coded prints a cluster's header before exactly the entries specified, in order |
| `ArgpHeaders.HeaderExactly` | src/glibc/argp/argp-help.c:1182-1199 | In every sorted list the header comes before an entry with a switch if and only if it is the first of its cluster that is shown, or the one shown before it lies below another cluster with the same places |
| `ArgpHeaders.HeaderOnce` | src/glibc/argp/argp-help.c:1185-1193 | Where no entry shown lies below another cluster with the same places, the header is printed once if the first of the cluster's entries that is shown has a switch, and otherwise never |
| `ArgpHeaders.HeaderTwice` | src/glibc/argp/argp-help.c:1185-1188 | Two children without a header, each with a first child that has one: their clusters have the same places, and three sorted entries print one header twice |
| `ArgpHeaders.HeaderNever` | src/glibc/argp/argp-help.c:1288-1297 | A cluster that starts with a line heading a group: its own header is not printed at all |
| `ArgpHeaders.OwnFirst` | src/glibc/argp/argp-help.c:725-755 | In a sorted list a cluster's own entries come before those of the clusters below it |
| `ArgpOrder.HolEntryCmp` | src/glibc/argp/argp-help.c:796-895 | The comparison as coded is the specified one |
| `ArgpOrder.HolNameCmp` | src/glibc/argp/argp-help.c:836-894 | Its criteria by documentation flag, first letter and name |
| `ArgpOrder.HolClusterCmp` | src/glibc/argp/argp-help.c:725-755 | Lifts the deeper cluster with a loop and compares |
| `ArgpOrder.HolClusterBase` | src/glibc/argp/argp-help.c:759-765 | The ancestor below the root |
| `ArgpOrder.HolClusterIsChild` | src/glibc/argp/argp-help.c:1162-1169 | Whether one cluster lies within another |
| `ArgpOrder.CanonDocOption` | src/glibc/argp/argp-help.c:770-783 | The tail used for sorting and whether it looks like an option |
| `ArgpOrder.HolEntryFirstLong` | src/glibc/argp/argp-help.c:622-631 | The first visible long name |
| `ArgpOrder.HolEntryFirstShort` | src/glibc/argp/argp-help.c:553-619 | The first visible short option the iteration reaches |
| `ArgpHol.TreeOk` | src/glibc/argp/argp-help.c:1015-1034 | For every tree: the short-option string is the entries' stretches one after the other, each holding exactly the keys its entry declares that no earlier entry claimed |
| `ArgpHol.AppendOk` | src/glibc/argp/argp-help.c:920-1011 | Appending a list keeps that, shadowed keys being dropped |
| `ArgpHol.MakeOk` | src/glibc/argp/argp-help.c:472-499 | So does building one parser's list |
| `ArgpNesting.ListIs` | src/glibc/argp/argp-help.c:472-499 | One parser's entries are its options cut before each that is not an alias, in order; an entry's group is the one it sets, one more than before if it has neither name nor key, and otherwise the one before |
| `ArgpNesting.TreePlaced` | src/glibc/argp/argp-help.c:1015-1034 | Every entry of a tree is in the cluster in force at its parser's place: one for each child on the way that has a group or a header, with its group and index, one inside the other |
| `ArgpNesting.AppendKeeps` | src/glibc/argp/argp-help.c:920-1011 | Appending keeps all entries of both lists in order and moves only their stretches of the string |
| `ArgpHol.TreeHolDeclares` | src/glibc/argp/argp-help.c:1015-1034 | The list declares the tree's keys in preorder with their parsers: no entry is lost or reordered |
| `ArgpHol.ReachedKeys` | src/glibc/argp/argp-help.c:553-576 | An entry's short iteration reaches the keys it declares that no earlier entry does |
| `ArgpHol.OneEntryReaches` | src/glibc/argp/argp-help.c:941-1007 | The string has no duplicates and is the set of declared keys; exactly one entry reaches a declared key, that of the parser declaring it first |
| `HolBuilder.FindChar` | src/glibc/argp/argp-help.c:341-350 | Whether a character occurs before the end |
| `HolBuilder.CalculateSpace` | src/glibc/argp/argp-help.c:455-462 | How many entries there are and how many short options at most |
| `HolBuilder.FillEntry` | src/glibc/argp/argp-help.c:488-496 | One entry's options, its unclaimed short options written in place |
| `HolBuilder.MakeHol` | src/glibc/argp/argp-help.c:433-502 | Builds the specified list within the space computed for it |
| `HolBuilder.MoveEntry` | src/glibc/argp/argp-help.c:976-997 | Moves one appended entry's short options, skipping shadowed ones |
| `HolBuilder.MoveEntries` | src/glibc/argp/argp-help.c:972-997 | Moves all appended entries and their short options behind the first list |
| `HolBuilder.HolAppend` | src/glibc/argp/argp-help.c:920-1011 | Appends as specified, within the space allocated |
| `HolBuilder.BuildHol` | src/glibc/argp/argp-help.c:1015-1034 | Builds the list of a whole tree |
| `ArgpTables.HelpAndParserAgreeExactly` | src/glibc/argp/argp-parse.c:713-736 | For every tree and every key but `:`, `-` and `+`: the one help entry that reaches a key belongs to the parser whose group the key is dispatched to, and one exists exactly if the other does, if and only if leaving out the aliases of documentation options does not change which parser of the tree declares the key first |
| `ArgpTables.HelpAndParserAgree` | src/glibc/argp/argp-parse.c:713-736 | So they do for every tree in which every alias of a documentation option is one itself, and every such key |
| `ArgpTables.LooseAliasDisagrees` | src/glibc/argp/argp-parse.c:313-331 | A tree on which they disagree: help lists a key, the alias of a documentation option, that the parser does not know |
| `ArgpTables.DispatchOwner` | src/glibc/argp/argp-parse.c:721-736 | A short option goes to the group of the first parser in preorder that puts it into the string |
| `ArgpTables.LongDispatch` | src/glibc/argp/argp-parse.c:333-357 | For every tree: long names are unique, a name is there exactly if some parser declares it, it takes no, a required or an optional argument as the real option behind its first declaration does, and what is decoded for it is the parser of that declaration exactly if its group comes back from the packed value, which it does up to the 127th, and the key it stands for, its own or else that of the real option, exactly if that fits in twenty-four bits |
| `ArgpTables.ConvertFits` | src/glibc/argp/argp-parse.c:438-463 | The sizes computed bound what conversion writes for every tree: groups exactly, long options and child inputs at most |
| `ArgpTables.ShortStringFits` | src/glibc/argp/argp-parse.c:475-500 | The short-option string with prefix and terminator fits if and only if ARGP_NO_ARGS is clear or some option writes fewer than three characters |
| `ArgpTables.NoArgsOverflows` | src/glibc/argp/argp-parse.c:475-500 | A parser with an empty list of options under ARGP_NO_ARGS: two bytes are written where one is allocated |
| `ArgpShorts.ShortArguments` | src/glibc/argp/argp-parse.c:313-331 | For every tree and every short option but `:`, `-` and `+`: getopt knows it exactly if it is declared, and takes it for one with no, a required or an optional argument as the real option behind its first declaration has, if and only if that argument is optional or the next short option declared is not `:` |
| `ArgpShorts.ShortArgumentsKept` | src/glibc/argp/argp-parse.c:320-331 | So it does in every tree without the option `-:` |
| `ArgpShorts.ColonMisread` | src/glibc/argp/argp-parse.c:320-331 | An option without an argument declared before `-:` is taken for one that has an argument |
| `ArgpShorts.OrderingRead` | src/glibc/argp/argp-parse.c:409-413 | Getopt reads off the string that arguments are taken in order or end the options exactly as the flags ask, except that with neither flag it permutes if and only if the first short option of the tree is not `-` or `+` |
| `ArgpShorts.DashMisread` | src/glibc/argp/argp-parse.c:409-413 | With an option `-` first and no flag, arguments are taken in order |
| `ArgpFamily.FamilyLinked` | src/glibc/argp/argp-parse.c:361-393 | For every tree: a group's parent is the group of the parser that lists its own, none exactly if that one has none, its index is the place in that list, and every group comes before all that are below it |
| `ArgpFamily.FamilyDescribed` | src/glibc/argp/argp-parse.c:306-386 | For every tree: the groups are exactly those of the parsers with options or a function, each with that function or without one, and no two share a slot for the input of a child |
| `ArgpPack.PackRoundTrip` | src/glibc/argp/argp-parse.c:351-353 | For every group and key the group comes back from the packed value if and only if it is one of the first 127, and the key if and only if it fits in twenty-four signed bits |
| `ArgpPack.PackOverflows` | src/glibc/argp/argp-parse.c:351-353 | The 128th group comes back as -128 |
| `ArgpPack.PackInjective` | src/glibc/argp/argp-parse.c:738-743 | Different groups or keys have different packed values |
| `ArgpPack.PackIsNoShortOption` | src/glibc/argp/argp-parse.c:53-56 | No packed value is a short option or one of getopt's own results |
| `ParserBuilder.CalcSizes` | src/glibc/argp/argp-parse.c:438-463 | Adds a tree's sizes to those counted so far |
| `ParserBuilder.Parser.FindLongOption` | src/glibc/argp/argp-parse.c:184-197 | Where a name is, -1 exactly if it is not there, and the number of options without a name |
| `ParserBuilder.Parser.PutShort` | src/glibc/argp/argp-parse.c:320-331 | The option's characters and a terminator |
| `ParserBuilder.Parser.PutLong` | src/glibc/argp/argp-parse.c:333-357 | A long option unless its name is taken, and a terminator |
| `ParserBuilder.Parser.PutOptions` | src/glibc/argp/argp-parse.c:310-359 | The loop over a parser's own options |
| `ParserBuilder.Parser.PutGroup` | src/glibc/argp/argp-parse.c:306-384 | A parser's options and its group, with room for its children's inputs |
| `ParserBuilder.Parser.ConvertOptions` | src/glibc/argp/argp-parse.c:297-396 | The recursion over a tree produces the specified tables within the buffers |
| `ParserBuilder.Parser.ConvertParser` | src/glibc/argp/argp-parse.c:399-423 | The whole conversion with the prefix character |
| `ParserBuilder.Parser.StrChr` | src/glibc/argp/argp-parse.c:726-727 | The first position of a character in the terminated string |
| `ParserBuilder.Parser.ShortGroup` | src/glibc/argp/argp-parse.c:721-736 | The search by position finds the specified group |
| `ParserBuilder.BuildParser` | src/glibc/argp/argp-parse.c:475-503 | Allocation and conversion: the buffers have the computed sizes and hold the specified tables |
| `ArgpPhases.RunsInPhases` | src/glibc/argp/argp-parse.c:866-912 | Every finished run, whatever parsers reply and getopt answers, is refused during INIT, or consists of INIT upwards, options and arguments up to where the parse loop ended, then, exactly if it ended with all arguments parsed, NO_ARGS upwards to exactly the parsers whose counters were zero there and END downwards, then SUCCESS downwards or ERROR upwards, and FINI downwards to all, each stopping as the code says and with the error the code returns |
| `ArgpPhases.SweepPhase` | src/glibc/argp/argp-parse.c:522-535 | A pass over groups calls each parser once in order until the first real error |
| `ArgpPhases.AllBody` | src/glibc/argp/argp-parse.c:661-858 | Between the passes every call is about a non-option argument or goes to the group and with the key getopt's last answer stands for; counters change only where a parser accepted an argument; a real error is the last reply |
| `ArgpLedger.CountersAreBooked` | src/glibc/argp/argp-parse.c:686-702 | At the end of the parse loop of every run each parser's counter is the sum of what was booked for it, an accepted argument with what it moved the position by unless it moved it back; the counter is zero exactly if nothing was |
| `ArgpLedger.NextBooks` | src/glibc/argp/argp-parse.c:774-858 | One step of the loop adds exactly what it books |
| `ArgpCalls.CallsInOrder` | src/glibc/argp/argp-parse.c:518-654 | Any two calls of a run are in order: by phase, never both SUCCESS and ERROR, no parser twice for one phase, lower groups first for INIT, NO_ARGS and ERROR and higher ones first for END, SUCCESS and FINI |
| `ArgpCalls.NoArgsExactly` | src/glibc/argp/argp-parse.c:577-585 | In every finished run a parser is told NO_ARGS only if all arguments were parsed and nothing was booked for it; and then every such parser is, unless one replies to NO_ARGS with an error |
| `ArgpCalls.EndExactly` | src/glibc/argp/argp-parse.c:577-589 | A parser is told END only if all arguments were parsed and no reply to NO_ARGS was an error; and then every parser is, unless one replies to END with an error |
| `ArgpCalls.EveryoneIsTold` | src/glibc/argp/argp-parse.c:566-654 | Unless INIT is refused every parser gets INIT and FINI, and SUCCESS if the run succeeds |
| `ArgpCalls.ErrorIsPublic` | src/glibc/argp/argp-parse.c:643-650 | The result is never ARGP_ERR_UNKNOWN, and ERROR is announced only when an error is returned |
| `ArgpCalls.EndIndexExactly` | src/glibc/argp/argp-parse.c:571-612 | The end index is set exactly if it is asked for and the loop ended over an argument nobody takes or at the end; it is then the position after the NO_ARGS and END passes, or where the loop ended if arguments are left; without it a run succeeds only if all arguments were parsed |
| `ArgpPositions.ArgumentCredits` | src/glibc/argp/argp-parse.c:661-708 | An argument offered to parsers that leave the position alone: refused by all, it is the next again; accepted with ARG the parser is credited with one and the position is behind it; accepted with ARGS it is credited with all that are left and the position is the end |
| `ArgpPositions.SteadyOffer` | src/glibc/argp/argp-parse.c:665-685 | Such a parser is shown the position behind the argument with ARG and the argument itself with ARGS |
| `ArgpPositions.AsksExactly` | src/glibc/argp/argp-parse.c:779-800 | A step asks getopt, once and first, exactly if options are not over or an argument was given back, and no quoted part has begun that the position is still in |
| `ArgpPositions.BadExactly` | src/glibc/argp/argp-parse.c:818-855 | A step that ends the loop over something nobody knows reports an argument exactly if it was not about an option |
| `ArgpPositions.UnknownOptionFails` | src/glibc/argp/argp-parse.c:571-649 | A run whose loop ends over an option that no parser takes returns EINVAL and sets no end index |
| `ArgpPositions.StartPosition` | src/glibc/argp/argp-parse.c:541-548 | The vector counts one more exactly if its first element is to be parsed and errors are not reported |
| `ArgpCalls.RefusedTellsInitOnly` | src/glibc/argp/argp-parse.c:536-539 | A run refused during INIT has no other call, not even FINI |
| `ArgpCalls.FamilyOrder` | src/glibc/argp/argp-parse.c:624-641 | In every run over a converted tree a parser is initialized before all that are below it, and those hear of the end, of success and of the finish before it |
| `ArgpCalls.ConvertAddressed` | src/glibc/argp/argp-parse.c:351-353 | A converted tree whose long options are all declared first by one of the first 127 groups names only its own groups, and a tree of at most 127 groups is such a tree |
| `ArgpParser.Parser.GroupParse` | src/glibc/argp/argp-parse.c:232-247 | Calls a parser and takes over what it changed; without a parser the reply is EBADKEY |
| `ArgpParser.Parser.Initialize` | src/glibc/argp/argp-parse.c:518-548 | The INIT pass, and the adjustment for a missing program name |
| `ArgpParser.Parser.ParseArg` | src/glibc/argp/argp-parse.c:661-708 | Offers an argument to the parsers in turn and books it |
| `ArgpParser.Parser.ShortGroup` | src/glibc/argp/argp-parse.c:721-736 | The loops over the short-option string and the groups find the group the option is dispatched to |
| `ArgpParser.Parser.ParseOpt` | src/glibc/argp/argp-parse.c:713-767 | Finds the group of an option and calls its parser |
| `ArgpParser.Parser.ParseNext` | src/glibc/argp/argp-parse.c:774-858 | One argument or option, with quoting and the end of options |
| `ArgpParser.Parser.Finalize` | src/glibc/argp/argp-parse.c:565-654 | The closing passes in their order, the end index and the error returned |
| `ArgpParser.Parse` | src/glibc/argp/argp-parse.c:866-912 | The whole run as coded is the specified one |
| `Marshal.EmitArgResolves` | tools/marshal-gen/gen_grate.py:229-313 | Whatever was emitted before, the declarations for an argument have new numbers, refer only to earlier ones, and resolve to the argument's direct translation |
| `Marshal.EmitFieldsResolve` | tools/marshal-gen/gen_grate.py:290-302 | The same for a structure's fields, whose numbers are taken before those of what they contain |
| `Marshal.ResolveGrows` | tools/marshal-gen/gen_grate.py:283-313 | What resolves among the first declarations resolves the same way among more: later emissions change nothing |
| `Marshal.GeneratedProgram` | tools/marshal-gen/gen_grate.py:535-569 | In the generated file all declaration names are unique and each accepted function's spec, read through all declarations, is the direct translation of its description; only marshalable functions are in it |
| `Marshal.WalkSizes` | tools/marshal-gen/gen_grate.py:202-212 | For an accepted description no pointer that is followed has a size the runtime would have to guess |
| `MarshalMeaning.ProgramMeans` | tools/marshal-gen/gen_grate.py:229-342 | Every argument and the return of every accepted function, read through the declarations of the generated file, are what the description says, field by field and at any depth: direction, size and where it comes from, class, element, layout with offsets, index |
| `MarshalMeaning.ConformsUnique` | tools/marshal-gen/gen_grate.py:229-313 | A description has only one such meaning |
| `MarshalMeaning.TranslateConforms` | tools/marshal-gen/gen_grate.py:229-313 | The direct translation is it |
| `MarshalMeaning.RetMeans` | tools/marshal-gen/gen_grate.py:315-323 | The same for returns, with the argument aliased or the class for the kinds that have one, and the scalar for kinds that are missing or unknown |
| `MarshalMeaning.AcceptedMeans` | tools/marshal-gen/gen_grate.py:160-212 | A function is accepted exactly if its name is not excluded, its arguments fit the transport, the kind of its return is known, and nothing described in its arguments at any depth is a cursor or a pointer of unknown size |
| `MarshalEmitter.Emitter.Uid` | tools/marshal-gen/gen_grate.py:225-227 | The next number, used up |
| `MarshalEmitter.Emitter.ArgSpecBody` | tools/marshal-gen/gen_grate.py:229-275 | The body of one argument, nested declarations appended first |
| `MarshalEmitter.Emitter.EmitElement` | tools/marshal-gen/gen_grate.py:283-288 | A spec for an array element |
| `MarshalEmitter.Emitter.EmitLayout` | tools/marshal-gen/gen_grate.py:290-313 | The specs of the fields, the field list and the layout |
| `MarshalEmitter.Emitter.EmitFunctionSpec` | tools/marshal-gen/gen_grate.py:315-342 | A function's spec |
| `MarshalEmitter.Generate` | tools/marshal-gen/gen_grate.py:544-556 | The declarations and specs of all accepted functions |
| `CageTheorems.ChildrenAreCounted` | src/cage/src/cage.rs:393-420 | In every reachable state a cage's `child_num` is the number of its live children, so the decrement never wraps, and every child it ever forked is live, midway, a zombie or reaped, counted with multiplicity |
| `CageTheorems.OneZombieEach` | src/cage/src/cage.rs:113-132 | Over a whole run each child is counted once, has at most one zombie, carrying the first status recorded before it or a successful exit, and is reaped at most once, with the status and by the parent it was pushed for |
| `CageTheorems.IdsIncrease` | src/cage/src/cage.rs:376-383 | A new id is larger than every id in use or used before, below the limit, and registered only once |
| `CageTheorems.AllocsIncrease` | src/cage/src/cage.rs:371-383 | Whatever happens in between, a later id is larger |
| `CageTheorems.GoneForGood` | src/cage/src/cage.rs:293-301 | A cage that was removed never comes back |
| `CageTheorems.Reachable` | src/cage/src/cage.rs:393-420 | The invariant about ids, accounts and history survives every sequence of steps |
| `CageTheorems.NoChildrenExactly` | src/rawposix/src/sys_calls.rs:518-530 | `waitpid` finds no children exactly when every child forked has been reaped, or is between the decrement and the zombie |
| `CageTheorems.WaitBetweenUpdates` | src/cage/src/cage.rs:402-413 | A parent is told it has no children although its only child, which ended, is still to be reaped |
| `CageTheorems.EncodeRoundTrip` | src/cage/src/cage.rs:74-86 | The wait macros read back the status that was encoded exactly when the code fits a byte or the signal is one of 1 to 126 |
| `CageDescriptors.FinalizeLeavesNoSlots` | src/cage/src/cage.rs:418-419 | Finalization leaves the cage without a descriptor table if no close handler, at any depth, makes it a new one |
| `CageDescriptors.HandlerBringsBack` | src/fdtables/src/dashmaparrayglobal.rs:319-334 | After two calls from empty tables, a close handler that initializes the cage again leaves it with a table |
| `CageDescriptors.RunStays` | src/fdtables/src/dashmaparrayglobal.rs:77-448 | A call, its handlers at any depth included, gives a cage a table only if one of them initializes it or copies to it, and takes its table away only if one of them removes it |
| `CageRuns.TablesFollowCages` | src/cage/src/cage.rs:393-420 | In every run of cages and descriptor calls together, in which tables are made only for children being forked and removed only by finalization: a cage that was ever registered has a table exactly from its registration to the removal in its finalization, and never again after it is gone |
| `CageTable.Cages.AllocCageId` | src/cage/src/cage.rs:376-383 | The next id, none at the limit |
| `CageTable.Cages.GetCage` | src/cage/src/cage.rs:303-313 | The cage with an id, none out of range |
| `CageTable.Cages.RecordExitStatus` | src/cage/src/cage.rs:113-132 | Keeps the first status, ignores cages that are gone |
| `CageTable.Cages.Fork` | src/rawposix/src/sys_calls.rs:117-157 | An id, one more child for the parent, and the new cage |
| `CageTable.Cages.Finalize` | src/cage/src/cage.rs:393-420 | The parent's counter, the zombie, and the removal; nothing for a cage that is gone |
| `CageTable.Cages.WaitPid` | src/rawposix/src/sys_calls.rs:518-647 | One round of waiting: the first zombie or the one asked for is taken, and when there is none, no child or a child to wait for |
| `AddExportTheorems.KeepsSections` | scripts/add-export-tool/src/main.rs:132-327 | For a module with its sections in order: all sections but custom ones keep place and bytes and the export is added where it belongs, if and only if there is an export section, no tag section and no empty code section, or there is no export section and nothing that must follow one |
| `AddExportTheorems.CodeWithoutExports` | scripts/add-export-tool/src/main.rs:152-155 | A module with code and no export section: an empty export section is put before the code, and the export is missing |
| `AddExportTheorems.TagBeforeExports` | scripts/add-export-tool/src/main.rs:152-221 | A tag section before the exports: two export sections come out, one on either side |
| `AddExportTheorems.Idempotent` | scripts/add-export-tool/src/main.rs:132-327 | For every module in order whose result is in order: adding the same export to the result changes nothing, custom sections included, if and only if the module has an export section or nothing that must follow one |
| `AddExportTheorems.NameIsAdded` | scripts/add-export-tool/src/main.rs:202-222 | Existing exports stay in front, the name is exported afterwards, and the new entry is the only one for it if it was missing |
| `AddExportTheorems.CustomsKept` | scripts/add-export-tool/src/main.rs:287-292 | Every custom section of the module is in the rewritten one, in order, whatever else happens to it |
| `AddExportTheorems.FailsOnKind` | scripts/add-export-tool/src/main.rs:205-208 | The tool fails exactly on modules with an export of a kind it does not know |
| `ExportTool.CopyExports` | scripts/add-export-tool/src/main.rs:205-215 | Copies the entries and notes whether the name is there |
| `ExportTool.FlushCode` | scripts/add-export-tool/src/main.rs:255-262 | Writes the code section if both its bounds are known |
| `ExportTool.Assemble` | scripts/add-export-tool/src/main.rs:313-326 | The sections in the order they were emitted |
| `ExportTool.RewriteModule` | scripts/add-export-tool/src/main.rs:132-327 | The loop over the payloads as coded computes the specified module |

## Left out

- The `Vec` backend of the descriptor tables (`dashmapvecglobal.rs`): the array backend again with other rows.
- Interleavings of threads inside one descriptor operation, lock poisoning, and the helper `refresh`: an operation's part between two handler calls is one step here.
- Which functions are registered as close handlers: a handler is an arbitrary script, and the choice between `intermediate` and `last` is what is modelled.
- The poll helpers, `epoll_get_underfd_hashmap`, and 64-bit overflow of reference counts.
- `fd_set` buffers are finite sets of descriptors, and the rows and maps inside the global tables are values that the methods replace, so aliasing between a row and its copy is not captured.
- FdAnswers.SpecificAnswers: handlers here make no calls, since one that does may change any slot before the call returns.
- FdAnswers.RemoveAnswers: the same.
- FdAnswers.ExecAnswers: the same.
- FdAnswers.CloseAnswers: the same.
- FdAnswers.CloseFires: the same.
- ArgpPositions.ArgumentCredits: parsers here leave the position alone; what others are credited with is in `ArgpLedger.CountersAreBooked`.
- ArgpHeaders.HeaderLines: clusters are taken to have a header text; one without prints nothing.
- FdHandlers.ByEntryAgrees: handlers that look at the remaining count as well, and single calls only; whole runs are compared for scripts by position.
- Printing of help but for cluster headers, `qsort`, `gettext` and `strcasecmp` beyond the C locale; `isprint`, `isspace`, `isalnum` and `tolower` are those of the C locale.
- Overflow of C ints in the comparator's subtractions: groups and indices are unbounded integers here.
- A pointer to a parser is its place in the tree, so a parser that occurs twice in a tree is two parsers.
- Getopt's own scanning of arguments: it answers anything its tables allow. Messages to the user, and runs that end in `exit` inside help or an error message.
- Input pointers, hooks and `arg_num`, which `group_parse` swaps in and out, and the values in the child input slots.
- ArgpParser.Parse: termination of the parse loop, which a parser can prevent by moving the position back; a run is cut off after any given number of arguments, and all statements are about runs that finish.
- ParserBuilder.BuildParser: failure of the allocation, and the one case in which the string does not fit.
- The lists of function names in `gen_grate.py` (a set that is given), the hash of handle classes (a number that is given), the C text around the declarations, and the decimal form of the numbers in names.
- Virtual memory, signals, timers, threads and the dispatch counters of cages; the wait for `grate_inflight`; the sending of SIGCHLD.
- CageTable.Cages.Finalize: two finalizations of one cage at the same time, and a fork by a cage that is being finalized, which the callers rule out by finalizing in the last thread only.
- CageTable.Cages.WaitPid: the loop that yields and looks again, and the interruption by a signal; cages are values in their slots, so an `Arc` that outlives its slot is only captured as far as its zombie list is lost.
- CageDescriptors.FinalizeLeavesNoSlots: goes one way only, since a handler may bring the table back and take it away again.
- CageRuns.TablesFollowCages: supposes rules that are sufficient and not necessary; the rules about who makes and removes tables are those of the callers (src/rawposix/src/sys_calls.rs:117-157, src/rawposix/src/init.rs:322, src/cage/src/cage.rs:418), not checked in the descriptor tables; after a panic in them nothing more happens.
- Parsing of WebAssembly bytes, LEB128 numbers and validation: a module is its payloads, with positions in the bytes. Malformed payloads and `find_named_target` are not modelled.
