# VTR verification

VTR is a trace format with a Rust and a C++ implementation. This project models the algorithms and
protocols of both whose correctness is hardest to see from the code, and proves what they are for.

* **Scope census** (`Words`, `ScopeForest`, `UnionFind`, `SignalLog`, `CensusInvariant`,
  `ContributionTable`, `ScopeCensus`): counting distinct signals per subtree online, with a
  union-find and one wrapping weight per scope. The class `Census` has the source's fields; its
  invariant ties them to the run of calls made so far, and the result is compared with sets of
  signals.
* **Encoding hand-off** (`HandoffState`, `HandoffInvariant`, `HandoffSteps`, `Handoff`, `HandoffProgress`,
  `HandoffCalls`): submitters, encoders, one ordered writer and drainers as program counters over shared atomics. A step makes at
  most one access to an atomic; steps interleave freely, compare-exchange may fail spuriously,
  callbacks and the sink may throw. Theorems hold for every reachable state of any number of threads;
  without new calls a run has boundedly many steps, and boundedly many more for each spurious failure and each
  throw of the sink.
* **Byte ring** (`RingArithmetic`, `ByteRing`): the single-producer, single-consumer ring with
  wrapping counters and stale cached indices. Every method makes at most one access to a published
  counter, so interleavings of the two sides are sequences of calls, and the class invariant covers
  all of them.
* **Keyed tracker** (`KeyTables`, `Groups`, `TrackerIndexes`, `TrackerTables`, `TrackerState`, `Trackers`,
  `TrackerNames`): the open-addressing table for an arbitrary hash, the group of items with inline places and overflow,
  and the tracker with its indexes. The three layers meet in their specifications: `KeyTable` refines
  a map from keys to groups, `Group` an ascending list of items, and `Tracker` uses such a map of such
  lists for each key space; `TrackerTables` puts the table and the groups in its place, and `TrackerNames`
  names and renames items over such key spaces.
* **Activity index** (`ActivityStretches`, `ActivityRanges`, `ActivityGenerators`, `ActivityPages`,
  `ActivityReading`, `ActivityIndex`, `ActivityGeneratorPages`): coalescing changes and intervals,
  answering windows, and spreading stretches over blocks with state carried between them.
* **Value transforms** (`Arithmetic`, `Limbs`, `Transforms`, `DictionaryCoding`): multi-limb arithmetic,
  differences and byte planes in place, and dictionaries through a probed table.
* **Attribute values** (`Varint`, `AttributeValues`, `AttributeRoundTrip`, `AttributeColumns`,
  `AttributeRows`, `PackedElements`): unsigned LEB128 (section 7.6 of DWARF Version 5) without overlong forms, the
  recursive value codec, and its form in seven columns.
* **Datatypes and argument columns** (`Datatypes`, `DatatypeWalks`, `DatatypeGrammar`, `DatatypeTables`,
  `ArgumentColumns`, `ArgumentReading`, `ArgumentRoundTrip`, `ArgumentRows`, `ArgumentReaders`,
  `ArgumentSoundness`): payload datatypes with their precomputed sizes and flattened programs, walking payloads by them, and
  spreading rows over five columns with a first-use dictionary.
* **Record blocks** (`ColumnPacking`, `Records`, `RecordSegments`, `RecordGroups`, `RecordPieces`,
  `RecordBlocks`, `RecordEncoding`, `RecordQueries`, `RecordFilters`, `RecordVisits`, `RecordSoundness`,
  `RecordLimits`, `RecordImages`): grouping records, cutting groups into segments laid onto pages, writing the block in bytes and opening
  it, and queries that pass over segments by their bounds.
* **Reader** (`ReaderCaches`, `ClockCycles`, `RecordIds`): caches of pages and owners that never change an
  answer, cycle numbers of clocks, and the shared counter of record numbers.
* **Framing** (`Slices`, `Framing`, `FramingRoundTrip`, `FramingRecovery`, `FramingSoundness`): containers of checked
  sections with a final directory, parsing them, scanning any prefix, and recovery.

`dafny verify dfyconfig.toml` checks everything.

## What callers must do

* Census: fewer than 2^31 scopes when contributions are recorded (the sign bit, `vtr-rs/src/census.rs:18`),
  fewer than 2^32 - 1 otherwise; `var` and `leave` only with an open scope; fewer than 2^32 recorded
  entries, since offsets are 32-bit words. The variable counter wraps, as in a release build.
* Hand-off: the options the constructor accepts. A submitting thread and a draining thread are
  different threads of the model; a caller that does both is two of them whose steps do not overlap.
* Byte ring: a commit is no larger than its reservation, and `consume` takes exactly the record that
  `peek` showed. A commit of no bytes makes no record.
* Activity: changes and intervals as the container gives them, in time order for changes, intervals
  with begin not after end; to encode, blocks in time order that contain every stretch's begin.
* Records: queried with the datatypes, generators, string count and text table they were encoded with,
  a payload limit no record exceeds, and datatypes without hollow elements for what a query selects
  (see `ArgumentRows.PartsComeBackIffSolid`).
* Reader: numbers given once in the whole file, for the caches to be invisible; at most the allowed number
  of concurrent calls, for record numbers.
* Framing: auxiliary fields and block numbers that the payload itself begins with, for scanning; images
  shorter than 2^64 bytes.
* Table: the size is a power of two, so masking is taking the remainder.

## Model

| member | source | states |
|---|---|---|
| ScopeCensus.Census.constructor | vtr-rs/src/census.rs:20-32 | a new census has made no calls, and records contributions or not |
| ScopeCensus.Census.Enter | vtr-rs/src/census.rs:34-43 | opens the next scope under the innermost open one; everything the census keeps about the run so far stays true of the longer run |
| ScopeCensus.Census.Find | vtr-rs/src/census.rs:145-156 | returns the representative; compressing the path changes no scope's representative |
| ScopeCensus.Census.Repay | vtr-rs/src/census.rs:60-69 | takes one back, modulo 2^32, from the deepest open scope around the last declaring scope, and records it with the sign bit; no representative changes |
| ScopeCensus.Census.Var | vtr-rs/src/census.rs:45-71 | declares a variable in the innermost open scope: the invariant of the run carries over, repeats of the same signal included |
| ScopeCensus.Census.Leave | vtr-rs/src/census.rs:73-84 | closes the innermost scope and merges it into its parent: the invariant of the run carries over |
| ScopeCensus.Census.Finish | vtr-rs/src/census.rs:121-143 | for every well-bracketed run of calls, with several roots and any nesting: each scope gets the number of distinct signals declared in its subtree (built as a set in the specification, never in the code), its exact number of variables and of scopes, as 32-bit words |
| ScopeCensus.Census.FinishRecorded | vtr-rs/src/census.rs:91-119 | besides the sizes, a table whose slice for a signal adds up, over any subtree, to one where the signal occurs and to zero elsewhere |
| ScopeCensus.MeasuresExactly | vtr-rs/src/census.rs:217-246 | counts below 2^32 are exact, although the weights they are summed from go below zero |
| CensusInvariant.GainMinusPayback | vtr-rs/src/census.rs:53-69 | one for the declaring scope minus one for the payer is, over every subtree, one exactly when the signal is new in that subtree |
| CensusInvariant.LeaveKeepsForest | vtr-rs/src/census.rs:73-84 | after a merge the representative's `anc` is still the deepest open ancestor of every scope, in both branches |
| CensusInvariant.CompressKeeps | vtr-rs/src/census.rs:145-156 | the same invariant survives path compression |
| CensusInvariant.RollUpStep | vtr-rs/src/census.rs:127-136 | one step of the reverse pass: words that hold sums over the scopes handled so far hold them with one more scope |
| UnionFind.RootAfterCompress | vtr-rs/src/census.rs:150-154 | pointing a scope at its representative changes no representative |
| UnionFind.RootAfterLink | vtr-rs/src/census.rs:80-82 | linking one representative under another moves exactly its own scopes |
| ContributionTable.GroupBySignal | vtr-rs/src/census.rs:93-111 | the counting sort groups the recorded words by signal, each signal's in recording order, at the offsets |
| ContributionTable.CountPerSignal | vtr-rs/src/census.rs:94-102 | one place up, the number of entries of each signal |
| ContributionTable.SumUp | vtr-rs/src/census.rs:103-105 | the running sums are where each signal's entries start |
| ContributionTable.Place | vtr-rs/src/census.rs:106-111 | every word lands in its signal's slice, in order, and no slice overlaps another |
| ContributionTable.Count | vtr-rs/src/census.rs:182-206 | for any list of signals each scope gets how many entries of the list occur in its subtree, unknown signals counting nothing |
| ContributionTable.HitsOfDistinct | vtr-rs/src/census.rs:182-206 | for a list without duplicates that is the size of the intersection with the subtree's signals |
| ScopeCensus.CountOfAllIsSize | vtr-rs/src/census.rs:182-206 | asked about all declared signals once, `count` gives the sizes themselves |
| HandoffSteps.ReserveKeeps | vtr-cpp/src/engine/handoff.cpp:124-142 | reserving keeps the invariant: the packed word gains one job and its charge without a carry, and no sleeper comes to fit |
| HandoffSteps.TakeKeeps | vtr-cpp/src/engine/handoff.cpp:169-170 | taking a ticket keeps the invariant: its slot belongs to no unreleased ticket |
| HandoffSteps.ClaimKeeps | vtr-cpp/src/engine/handoff.cpp:239-246 | claiming a ticket to encode keeps the invariant |
| HandoffSteps.MovingKeeps | vtr-cpp/src/engine/handoff.cpp:179-231 | filling, queueing, encoding, finishing and writing keep the invariant: slot contents are the ticket's own |
| HandoffSteps.RetiringKeeps | vtr-cpp/src/engine/handoff.cpp:225-230 | vacating, releasing and counting keep the invariant: they happen strictly in ticket order |
| HandoffSteps.StayingKeeps | vtr-cpp/src/engine/handoff.cpp:104-116 | notifying, throwing and recording a failure keep the invariant |
| HandoffSteps.LocalKeeps | vtr-cpp/src/engine/handoff.cpp:118-295 | the steps that change no shared variable keep the invariant |
| HandoffSteps.StepKeeps | vtr-cpp/src/engine/handoff.cpp:118-295 | every step of every thread keeps the invariant |
| HandoffSteps.AdmitPacks | vtr-cpp/src/engine/handoff.cpp:126-135 | an admitted job leaves the word packed: at most the allowed jobs, at most the allowed bytes unless one oversized job is alone |
| HandoffSteps.AdmitShrinks | vtr-cpp/src/engine/handoff.cpp:126-135 | reserving never makes another job fit |
| Handoff.RunKeeps | vtr-cpp/src/engine/handoff.cpp:118-295 | the invariant holds after every run of any number of threads |
| Handoff.AwakeCanMove | vtr-cpp/src/engine/handoff.cpp:118-295 | in a reachable state every thread that is not asleep or gone has a step, whatever it decides |
| Handoff.OutputIsPrefix | vtr-cpp/src/engine/handoff.cpp:118-283 | in every interleaving, after failures too, the sink got the first tickets' own sections and bytes, in ticket order, each once |
| Handoff.HistoryGrows | vtr-cpp/src/engine/handoff.cpp:222-231 | what was written and accepted is never taken back |
| Handoff.DrainedIsWritten | vtr-cpp/src/engine/handoff.cpp:285-295 | a `drain` returns from its test only when as many tickets as it waits for are written |
| Handoff.SlotIsFree | vtr-cpp/src/engine/handoff.cpp:170-178 | the wait for an empty slot never waits |
| Handoff.SlotsAreExclusive | vtr-cpp/src/engine/handoff.cpp:169-170 | two tickets that are not released have different slots |
| Handoff.BudgetIsExact | vtr-cpp/src/engine/handoff.cpp:126-142 | the word's two fields are the number and the total charge of the jobs in flight; bytes exceed the limit only for one job alone; the word fits 64 bits |
| Handoff.NoLostWakeup | vtr-cpp/src/engine/handoff.cpp:113-116 | whoever sleeps although its condition holds, or the pipeline stopped, is about to be woken |
| Handoff.RestIsDone | vtr-cpp/src/engine/handoff.cpp:118-295 | no deadlock: when nobody can move, either the pipeline stopped and nobody is left asleep, or every accepted ticket is written, nothing is in flight and every call has returned |
| HandoffProgress.StepAdvances | vtr-cpp/src/engine/handoff.cpp:118-295 | every step that begins no call takes something off a bound on the steps to come (what is still owed to shared state, or the thread's way to its next sleep), unless it is a setback, a compare-exchange that fails without a reason or a sink that throws, which adds at most a fixed penalty |
| HandoffProgress.EveryRunFinishes | vtr-cpp/src/engine/handoff.cpp:118-295 | however the threads are scheduled, a run without new calls has at most the bound's steps and the penalty for each of its setbacks; where no step is left, everything accepted is written and every call has returned, or the pipeline stopped and nobody is left asleep |
| HandoffProgress.CanFinish | vtr-cpp/src/engine/handoff.cpp:118-295 | from every reachable state some run leads there |
| HandoffProgress.EveryTicketIsWritten | vtr-cpp/src/engine/handoff.cpp:143-283 | in every run, new calls and setbacks included, a ticket accepted at any time is written with its own section and bytes by when nobody can move, unless the pipeline stopped |
| HandoffProgress.AllIsWritten | vtr-cpp/src/engine/handoff.cpp:118-295 | when nothing failed so far and neither an encoder nor the sink throws, the pipeline never stops by itself, and every run without new calls, however often compare-exchanges fail without a reason, ends with all that was accepted written and every call returned |
| HandoffCalls.SubmitBegins | vtr-cpp/src/engine/handoff.cpp:118-168 | a call with no callback, or with a charge that is zero or too large for the word, takes nothing; any other is on its way to a ticket for its own job |
| HandoffCalls.AdmittedIff | vtr-cpp/src/engine/handoff.cpp:124-135 | a job is admitted exactly when there are fewer jobs in flight than allowed and its bytes fit into what is left, or it is larger than all of that and nothing is in flight |
| HandoffCalls.SubmitTakesOwnTicket | vtr-cpp/src/engine/handoff.cpp:166-208 | in every interleaving a call of `submit` takes at most one ticket, for the job it was called with; one that has returned while no callback has thrown took one, and without workers its bytes are written |
| HandoffCalls.SubmittedIsWritten | vtr-cpp/src/engine/handoff.cpp:118-283 | when nobody can move and the pipeline has not stopped, the job of every call of `submit` is in the output, with its own section and bytes |
| HandoffCalls.TicketHasCall | vtr-cpp/src/engine/handoff.cpp:166-170 | every ticket was taken within a call of `submit` of its submitter, for exactly its job: nothing is written that was not submitted |
| HandoffCalls.DrainReturnsWritten | vtr-cpp/src/engine/handoff.cpp:285-295 | a `drain` that has returned while no callback has thrown, or from its test of what is written, returned after all tickets accepted when it was called were written |
| RingArithmetic.WrapKeepsDistance | vtr-cpp/src/engine/spsc.h:54-56 | the wrapped difference of two wrapped counters is the distance of the counts |
| RingArithmetic.WrapKeepsPlace | vtr-cpp/src/engine/spsc.h:59 | masking a wrapped counter gives the place of the unwrapped count |
| RingArithmetic.RecordsShareNoByte | vtr-cpp/src/engine/spsc.h:73-75 | records within one capacity share no byte of the storage, the scratch half included |
| RingArithmetic.SmallerDivides | vtr-cpp/src/engine/spsc.h:33-40 | a smaller power of two divides a larger one, so the ring's size divides the counter's range |
| ByteRing.StoreDisturbsNothing | vtr-cpp/src/engine/spsc.h:59 | a byte written in a reservation disturbs no record that is not consumed |
| ByteRing.SpscBytes.constructor | vtr-cpp/src/engine/spsc.h:43-45 | a new ring is valid and empty |
| ByteRing.SpscBytes.Open | vtr-cpp/src/engine/spsc.h:33-45 | exactly the sizes that are powers of two from 64 to half the counter's range are accepted |
| ByteRing.SpscBytes.Reserve | vtr-cpp/src/engine/spsc.h:51-60 | room is granted exactly when the bytes not given back leave it, however stale the cached counter, at the place of the next record |
| ByteRing.SpscBytes.Store | vtr-cpp/src/engine/spsc.h:59 | the producer writes its reservation; all unconsumed records stay |
| ByteRing.SpscBytes.Commit | vtr-cpp/src/engine/spsc.h:62-65 | the reserved bytes become the next record |
| ByteRing.SpscBytes.Peek | vtr-cpp/src/engine/spsc.h:67-76 | a record is found exactly when one is committed and not consumed; it lies there whole and as committed, also across the end of the ring |
| ByteRing.SpscBytes.Load | vtr-cpp/src/engine/spsc.h:67-76 | each byte the consumer reads is the committed one |
| ByteRing.SpscBytes.Consume | vtr-cpp/src/engine/spsc.h:78-85 | one record is consumed; what was received is a prefix of what was committed; less than a quarter stays unreleased |
| ByteRing.SpscBytes.Release | vtr-cpp/src/engine/spsc.h:87-89 | everything consumed is given back |
| ByteRing.SpscBytes.EmptyOffersAll | vtr-cpp/src/engine/spsc.h:78-85 | once everything committed is consumed the full capacity is free |
| KeyTables.ProbeMisses | vtr-cpp/vtr_track.h:295-305 | a probe that ends at an unused slot proves the key absent |
| KeyTables.ShiftKeeps | vtr-cpp/vtr_track.h:335-341 | moving an entry into the hole leaves no other entry cut off from its home, wherever the scan stands |
| KeyTables.PassKeeps | vtr-cpp/vtr_track.h:335-341 | an entry that stays can be reached without the hole |
| KeyTables.HoleCloses | vtr-cpp/vtr_track.h:342-343 | when the scan meets an unused slot the hole can be emptied |
| KeyTables.HasUnused | vtr-cpp/vtr_track.h:311-316 | a table that is not full has an unused slot, so probes end |
| KeyTables.KeyTable.Find | vtr-cpp/vtr_track.h:295-305 | for any hash exactly the keys present are found, with their own groups |
| KeyTables.KeyTable.Probe | vtr-cpp/vtr_track.h:314-316 | the probe ends at the key's slot or at the unused slot where it belongs |
| KeyTables.KeyTable.Insert | vtr-cpp/vtr_track.h:311-324 | the table refines a map: present keys keep their groups, an absent one gets an empty group |
| KeyTables.KeyTable.Put | vtr-cpp/vtr_track.h:311-324 | replacing the group behind the returned slot changes exactly that key's entry |
| KeyTables.KeyTable.MoveBack | vtr-cpp/vtr_track.h:338-339 | swapping an entry with the hole keeps the map |
| KeyTables.KeyTable.Vacate | vtr-cpp/vtr_track.h:335-343 | backward-shift deletion takes out exactly one key and leaves every other reachable |
| KeyTables.KeyTable.Erase | vtr-cpp/vtr_track.h:326-344 | exactly the key is gone; erasing an absent key changes nothing |
| KeyTables.KeyTable.Clear | vtr-cpp/vtr_track.h:346-352 | the map is empty and every slot's group too |
| KeyTables.KeyTable.Grow | vtr-cpp/vtr_track.h:369-377 | twice the slots, the same map; inserting while growing never grows again (by the termination measure) |
| KeyTables.KeyTable.Restore | vtr-cpp/vtr_track.h:374-376 | one entry of the old table moves into the new one without growing it |
| Groups.AscendingIsUnique | vtr-cpp/vtr_track.h:242-291 | a group's order is determined by what is in it |
| Groups.Group.Insert | vtr-cpp/vtr_track.h:253-269 | the items stay ascending by sequence across the inline places and the overflow, with one item more |
| Groups.Group.PutIn | vtr-cpp/vtr_track.h:257-268 | all three branches put the item at the same place of the whole list |
| Groups.Group.TakeOut | vtr-cpp/vtr_track.h:272-282 | an inline item leaves and the first overflow item moves up |
| Groups.Group.Erase | vtr-cpp/vtr_track.h:271-285 | exactly that item is gone and the rest keep their order |
| TrackerTables.GroupInserts | vtr-cpp/vtr_track.h:253-269 | what a group holds after an insertion is the list the tracker's indexes are proved for |
| TrackerTables.GroupErases | vtr-cpp/vtr_track.h:271-285 | and so is what it holds after an item was erased |
| TrackerTables.KeySpace.List | vtr-cpp/vtr_track.h:475-477 | with the probed table and its groups, naming an item does to a key space exactly what the tracker's proofs suppose |
| TrackerTables.KeySpace.Unlist | vtr-cpp/vtr_track.h:480-494 | so does taking a name away; a group left empty leaves the table |
| TrackerIndexes.UnlistKeeps | vtr-cpp/vtr_track.h:480-494 | taking away one name updates order and group so that both list exactly the named items again |
| TrackerIndexes.ListKeeps | vtr-cpp/vtr_track.h:475-477 | giving one name does the same |
| TrackerIndexes.InsertedAscends | vtr-cpp/vtr_track.h:451-456 | inserting by sequence number keeps a list ascending |
| TrackerIndexes.EraseOrderedRemoves | vtr-cpp/vtr_track.h:458-464 | looking only where the sequence number belongs finds the item wherever it is |
| TrackerIndexes.AscendingListIsUnique | vtr-cpp/vtr_track.h:451-464 | which items an index lists determines the index |
| TrackerState.EndKeeps | vtr-cpp/vtr_track.h:546-553 | ending or detaching an item settles its record: no record is ended twice, none is lost |
| TrackerState.EndedOnce | vtr-cpp/vtr_track.h:546-553 | two end operations name different records, and no ended record is still held |
| TrackerState.ReleaseKeeps | vtr-cpp/vtr_track.h:421-427 | a released item leaves the open list and joins the free list; pool is still live plus free |
| TrackerState.ReuseKeeps | vtr-cpp/vtr_track.h:411-419 | a free item taken for reuse is the youngest of the open list |
| Trackers.Tracker.Unname | vtr-cpp/vtr_track.h:480-494 | the item loses its name in the space and keeps the others in order; all indexes agree |
| Trackers.Tracker.Rename | vtr-cpp/vtr_track.h:466-478 | the item goes by the new key, as its last name unless it did already, and by no other in that space; all indexes agree |
| Trackers.Tracker.End | vtr-cpp/vtr_track.h:546-553 | record ended, all names gone, item free; all indexes agree |
| Trackers.Tracker.EndDoomed | vtr-cpp/vtr_track.h:555-561 | exactly the doomed items are ended, in order; everyone else is untouched |
| Trackers.Tracker.Evict | vtr-cpp/vtr_track.h:496-506 | exactly the items of the key that are not moved are aborted |
| Trackers.Tracker.Enroll | vtr-cpp/vtr_track.h:411-419 | a free or new item gets the record and the next sequence number |
| Trackers.Tracker.AddSpace | vtr-cpp/vtr_track.h:34-39 | a new empty key space, up to 2^32 - 1 of them |
| Trackers.Tracker.Open | vtr-cpp/vtr_track.h:44-62 | a fresh item alone goes by the key; whatever did before is aborted, oldest first |
| Trackers.Tracker.Records | vtr-cpp/vtr_track.h:69-75 | the records of exactly the items that go by the key, oldest first |
| Trackers.Tracker.Bind | vtr-cpp/vtr_track.h:77-87 | the target names exactly the items of the source key; other items of the target are aborted; nobody else changes |
| Trackers.Tracker.BindOldest | vtr-cpp/vtr_track.h:89-104 | the same for the oldest items of a space, which lose their old name |
| Trackers.Tracker.MoveAll | vtr-cpp/vtr_track.h:99-102 | every moved item changes exactly the names it should |
| Trackers.Tracker.Close | vtr-cpp/vtr_track.h:148-154 | exactly the items of the key are ended |
| Trackers.Tracker.AbortYounger | vtr-cpp/vtr_track.h:156-167 | exactly the items opened after the youngest of the key are aborted |
| Trackers.Tracker.AbortSpace | vtr-cpp/vtr_track.h:169-174 | exactly the items with a name in the space are aborted |
| Trackers.Tracker.AbortAll | vtr-cpp/vtr_track.h:176-179 | nothing is live afterwards and every record begun has ended or was detached |
| Trackers.Tracker.Detach | vtr-cpp/vtr_track.h:196-206 | all items are let go of without ending their records; all indexes are empty |
| TrackerNames.AgreeDetermines | vtr-cpp/vtr_track.h:466-494 | indexes that agree with the same names are the same: key spaces that are objects hold what the tracker's maps of lists hold |
| TrackerNames.ListIn | vtr-cpp/vtr_track.h:476-477 | listing an item in one key space, with its probed table and its groups, changes the indexes of no other |
| TrackerNames.UnlistIn | vtr-cpp/vtr_track.h:484-490 | nor does unlisting it |
| TrackerNames.NamedItems.DropName | vtr-cpp/vtr_track.h:484-491 | with key spaces that are objects: the item loses that name, and all tables, groups and orders agree with the names again |
| TrackerNames.NamedItems.AddName | vtr-cpp/vtr_track.h:475-477 | the item gets that name last, and they agree again |
| TrackerNames.NamedItems.Unname | vtr-cpp/vtr_track.h:480-494 | the same names as `Tracker.Unname` leaves, over key spaces that are objects, and the indexes agree with them |
| TrackerNames.NamedItems.Rename | vtr-cpp/vtr_track.h:466-478 | the same names as `Tracker.Rename` leaves, over key spaces that are objects, and the indexes agree with them |
| ActivityStretches.BuildSignals | vtr-cpp/src/engine/activity.cpp:103-119 | each signal's stretches cover exactly its change times after the minimum, never touching each other |
| ActivityStretches.ChangeKeeps | vtr-cpp/src/engine/activity.cpp:108-117 | one change extends, starts or repeats a stretch |
| ActivityStretches.CoverageDetermines | vtr-cpp/src/engine/activity.cpp:103-119 | the stretches are determined by the times they cover |
| ActivityStretches.Meets | vtr-cpp/src/engine/activity.cpp:500-505 | one binary search tells whether any covered time lies in the window |
| ActivityStretches.Active | vtr-cpp/src/engine/activity.cpp:496-508 | exactly the signals with activity in the window, in order |
| ActivityStretches.ActiveIsBruteForce | vtr-cpp/src/engine/activity.cpp:496-508 | that is what looking at every change would answer |
| ActivityRanges.UpperBound | vtr-cpp/src/engine/activity.cpp:124 | the first entry of the map with a greater key |
| ActivityRanges.Ranges.EraseJoined | vtr-cpp/src/engine/activity.cpp:137-141 | the entries that meet or touch the interval are absorbed, up to the largest time, and no others |
| ActivityRanges.Ranges.Visit | vtr-cpp/src/engine/activity.cpp:123-144 | a generator is active exactly where it was and in the new interval; entries stay apart |
| ActivityRanges.ActivityDetermines | vtr-cpp/src/engine/activity.cpp:120-144 | the merged entries depend only on when generators are active, so not on the order of insertion |
| ActivityGenerators.ByGenerator | vtr-cpp/src/engine/activity.cpp:156-164 | the lists of all generators cover exactly the merged entries |
| ActivityGenerators.ActiveGenerators | vtr-cpp/src/engine/activity.cpp:509-520 | exactly the generators some interval of which meets the window |
| ActivityGenerators.Merge | vtr-cpp/src/engine/activity.cpp:119-154 | intervals inserted in any order give entries apart that are active exactly when one of the intervals is |
| ActivityGenerators.BuildAndAsk | vtr-cpp/src/engine/activity.cpp:119-164 | from a list of intervals to an answer: exactly the generators one of whose intervals meets the window, in order |
| ActivityGenerators.OrderDoesNotMatter | vtr-cpp/src/engine/activity.cpp:119-154 | the same intervals in another order give the same entries |
| ActivityPages.EncodeBlock | vtr-cpp/src/engine/activity.cpp:188-232 | the page of a block is exactly what is due in it; it is refused if and only if a first stretch begins before the block or there are too many closures |
| ActivityPages.WriteRow | vtr-cpp/src/engine/activity.cpp:205-218 | one row tells the first stretch and the closures of one signal |
| ActivityReading.ReadClosures | vtr-cpp/src/engine/activity.cpp:386-422 | accepted closures leave proper stretches; written ones read back as the stretches they tell |
| ActivityReading.ReadRow | vtr-cpp/src/engine/activity.cpp:402-423 | the same for a whole row |
| ActivityReading.ReadBlock | vtr-cpp/src/engine/activity.cpp:353-433 | the same for a block's page: no page that was written is refused |
| ActivityIndex.ToldUpTo | vtr-cpp/src/engine/activity.cpp:186-222 | after each block exactly the stretches that began by its end are told |
| ActivityIndex.EncodeTail | vtr-cpp/src/engine/activity.cpp:233-249 | the last page holds the last stretch of every signal |
| ActivityIndex.EncodeSignals | vtr-cpp/src/engine/activity.cpp:186-249 | with blocks in time order that cover every stretch, encoding fails if and only if some block's closure count overflows |
| ActivityIndex.ReadTail | vtr-cpp/src/engine/activity.cpp:369-436 | tails complete the lists, and a missing or extra tail is refused |
| ActivityIndex.DecodeSignals | vtr-cpp/src/engine/activity.cpp:304-492 | whatever is accepted is a proper index; pages that were written give exactly their lists back |
| ActivityIndex.WriteThenRead | vtr-cpp/src/engine/activity.cpp:168-493 | encoding and decoding signal stretches is the identity, unless some block's closure count overflows |
| ActivityIndex.BuiltIsWritable | vtr-cpp/src/engine/activity.cpp:96-119 | what is built from changes that lie in blocks can be encoded over those blocks |
| ActivityGeneratorPages.EncodePage | vtr-cpp/src/engine/activity.cpp:252-262 | a page of at most 4096 intervals starts over at time 0 |
| ActivityGeneratorPages.EncodeGenerators | vtr-cpp/src/engine/activity.cpp:250-266 | all pages of all generators |
| ActivityGeneratorPages.DecodePage | vtr-cpp/src/engine/activity.cpp:447-462 | accepted pages keep the list apart; a page that was written is accepted and gives its intervals |
| ActivityGeneratorPages.DecodeGenerators | vtr-cpp/src/engine/activity.cpp:435-466 | whatever is accepted is a proper index; pages that were written rejoin exactly |
| ActivityGeneratorPages.WriteThenRead | vtr-cpp/src/engine/activity.cpp:250-466 | encoding and decoding generator intervals is the identity |
| Limbs.SubLe | vtr-rs/src/xform.rs:343-355 | limb by limb with borrow: the difference modulo 256 to the width, for every width, in place |
| Limbs.AddLe | vtr-rs/src/xform.rs:357-373 | limb by limb with carry: the sum modulo 256 to the width, also when the last limb is short |
| Limbs.SubLimbIs | vtr-rs/src/xform.rs:348-352 | one limb: the low bytes and the borrow make up the exact difference |
| Limbs.AddLimbIs | vtr-rs/src/xform.rs:362-370 | one limb: the low bytes and the carry make up the exact sum, in both carry formulas |
| Limbs.LeDetermines | vtr-rs/src/xform.rs:384-392 | bytes of one length that spell the same number are the same |
| Transforms.DeltaEncode | vtr-rs/src/xform.rs:291-325 | descending in place, every element but the first becomes its difference from its old neighbour |
| Transforms.DeltaDecode | vtr-rs/src/xform.rs:291-341 | ascending in place, every element but the first becomes its sum with its new neighbour |
| Transforms.SumsUndoDifferences | vtr-rs/src/xform.rs:311-341 | sums of differences are the elements |
| Transforms.DifferencesUndoSums | vtr-rs/src/xform.rs:311-341 | differences of sums are the elements |
| Transforms.Shuffle | vtr-rs/src/xform.rs:231-250 | the blocked loops make a permutation: byte b of element i goes to place i of plane b |
| Transforms.Unshuffle | vtr-rs/src/xform.rs:252-289 | the inverse permutation, in the blocked and the element-wise form |
| Transforms.PlanesAreFaithful | vtr-rs/src/xform.rs:231-289 | planes and elements determine each other |
| Transforms.Forward | vtr-rs/src/xform.rs:201-213 | what each transform makes of the elements |
| Transforms.Inverse | vtr-rs/src/xform.rs:215-227 | the inverse gives back exactly what the transform was applied to |
| Transforms.ThereAndBack | vtr-rs/src/xform.rs:201-227 | for every transform, width and length forward and inverse is the identity |
| DictionaryCoding.DictTable.Encode | vtr-rs/src/xform.rs:92-161 | encodes if and only if there are at most `max` different entries; otherwise nothing is written; entries in order of first use, one code per element, and how often each occurs |
| DictionaryCoding.DictTable.FindNarrow | vtr-rs/src/xform.rs:107-129 | for any hash the probe over keys ends at the entry itself or proves it absent, and never goes round |
| DictionaryCoding.DictTable.FindWide | vtr-rs/src/xform.rs:133-155 | the same over codes, comparing with the bytes in the dictionary |
| DictionaryCoding.HasUnused | vtr-rs/src/xform.rs:107-129 | with at most 256 codes in 1024 slots every probe meets an unused slot |
| DictionaryCoding.ProbeMisses | vtr-rs/src/xform.rs:109-128 | a probe that ends at an unused slot proves the entry absent |
| DictionaryCoding.InsertHolds | vtr-rs/src/xform.rs:112-122 | a new entry at the end of its probe is found again, and so is every other |
| DictionaryCoding.DistinctGrows | vtr-rs/src/xform.rs:99-160 | the dictionary only grows, so codes given earlier stay right |
| DictionaryCoding.Decode | vtr-rs/src/xform.rs:163-192 | decodes as the definition says and writes nothing on an error |
| DictionaryCoding.DecodesBack | vtr-rs/src/xform.rs:92-199 | decoding what was encoded gives all elements back, for every width, also for no elements |
| Varint.PutU64 | vtr-rs/src/varint.rs:6-12 | writes the LEB128 bytes of the number |
| Varint.ReadU64 | vtr-rs/src/varint.rs:55-83 | reads like the recursive definition, errors included, and leaves the position on an error |
| Varint.ReadVarIff | vtr-rs/src/varint.rs:55-83 | a number is read exactly from its own bytes followed by anything: overlong and overflowing forms are refused |
| Varint.LengthIsFormula | vtr-rs/src/varint.rs:31-39 | the length formula is the number of bytes written |
| Varint.ZigzagInverse | vtr-rs/src/varint.rs:19-29 | zig-zag is a bijection between signed and unsigned 64-bit numbers |
| Varint.ZigzagOrders | vtr-rs/src/varint.rs:19-29 | smaller magnitudes get smaller numbers, from zero on, and a negative number comes right before its opposite |
| Varint.LebSpells | vtr-rs/src/varint.rs:5-12 | the bytes spell the number in groups of seven bits, least significant first; all but the last have the high bit, and no group too many is written |
| AttributeRoundTrip.TaggedReads | vtr-rs/src/attributes.rs:90-169 | an encoded value reads back from the front of any bytes, costing exactly its charge |
| AttributeRoundTrip.TaggedWritten | vtr-rs/src/attributes.rs:90-169 | whatever reads as a value is exactly that value's encoding, well typed, with known strings and nesting below 64 |
| AttributeRoundTrip.DecodeIff | vtr-rs/src/attributes.rs:81-159 | bytes decode to a value if and only if they are its encoding and the budget covers its charge |
| AttributeRoundTrip.WidthsFit | vtr-rs/src/attributes.rs:188-211 | the integers of a width that are accepted are those that as many bytes spell, plainly or in two's complement |
| PackedElements.PackedIs | vtr-rs/src/schema.rs:97-120 | whole packed bytes pass the check exactly when every state behind the width is zero and every nine-valued state is one of the nine |
| PackedElements.BytesForStates | vtr-rs/src/schema.rs:82-94 | a packed value has the fewest bytes with room for its states, at one, two or four bits each, and fewer than 2^32 |
| AttributeRoundTrip.PairsRead | vtr-rs/src/attributes.rs:339-388 | the same for attribute maps, duplicate and unknown keys refused |
| AttributeColumns.TaggedSkips | vtr-rs/src/attributes.rs:161-286 | reading without keeping accepts the same bytes, stops at the same place and spends the same budget |
| AttributeColumns.Validate | vtr-rs/src/attributes.rs:327-337 | accepts exactly the rows with known different keys and encodable values |
| AttributeColumns.Writer.Append | vtr-rs/src/attributes.rs:395-413 | a row is added whole to its columns, or refused and nothing changes |
| AttributeRows.RowReadsBack | vtr-rs/src/attributes.rs:447-487 | an appended row reads back and uses up exactly its own bytes |
| AttributeRows.RowWrittenBack | vtr-rs/src/attributes.rs:447-487 | columns that read as a row start with exactly what that row appends |
| AttributeRows.RowSkips | vtr-rs/src/attributes.rs:439-487 | skipping a row accepts and uses up exactly what reading it does |
| AttributeRows.Reader.Next | vtr-rs/src/attributes.rs:447-487 | the loop reads as the recursive definition |
| AttributeRows.Reader.Done | vtr-rs/src/attributes.rs:489-494 | accepts exactly when every column is used up |
| AttributeRows.RowsReadBack | vtr-rs/src/attributes.rs:395-494 | any rows appended one after the other read back as they were, and nothing is left over |
| DatatypeTables.Types.Declare | vtr-rs/src/schema.rs:430-525 | a declaration is refused exactly when it is not declarable (unknown or badly named parts, values out of range, sizes or nesting too large), and then nothing changes; otherwise it is laid out as its sums of sizes and its scalars in order say |
| DatatypeTables.GrowsProper | vtr-rs/src/schema.rs:430-525 | a table stays one that grew by declarations: every part comes before the whole |
| DatatypeTables.LayoutStays | vtr-rs/src/schema.rs:430-525 | later declarations change no earlier layout: sizes, scalars and nesting of a declared datatype are what the larger table would lay out |
| DatatypeTables.MeaningStays | vtr-rs/src/schema.rs:430-525 | nor what a payload of an earlier datatype means, nor whether it is accepted |
| DatatypeWalks.SizesHold | vtr-rs/src/schema.rs:436-525 | for every payload the datatype accepts, the minimum is a lower bound of its bytes, a fixed size is exact, and what the visitor was shown spells exactly the bytes read |
| DatatypeWalks.FixedIsMinimum | vtr-rs/src/schema.rs:478-492 | a fixed size is also the minimum, so its own overflow check never fires |
| DatatypeWalks.ProgramMeans | vtr-rs/src/schema.rs:499-512 | the flattened program makes the same calls with the same bytes as going through the parts |
| DatatypeWalks.NothingMeans | vtr-rs/src/schema.rs:718-722 | values whose least size is zero show nothing and take nothing, so the loop over them may be skipped |
| DatatypeWalks.WalkIsMeaning | vtr-rs/src/schema.rs:683-724 | early refusals, programs and skipped loops make no difference: same calls, same bytes, same errors as the recursive meaning |
| DatatypeWalks.ValidateIff | vtr-rs/src/schema.rs:666-681 | validation, also by size alone, accepts exactly the payloads that are one whole value of the datatype |
| DatatypeGrammar.PayloadIs | vtr-rs/src/schema.rs:666-850 | a payload is accepted exactly when it is made of its parts: a structure of its fields one after the other, an array of so many elements, a sequence of a count and so many elements, an enumeration of its integer, a scalar of its own bytes |
| DatatypeGrammar.MeaningMoves | vtr-rs/src/schema.rs:683-850 | what was walked is walked the same in front of anything else |
| ArgumentColumns.Writer.Scalar | vtr-rs/src/arguments.rs:91-157 | one scalar of a validated row goes to its column, a text by its place in the shared table or the dictionary; on an error nothing was put down |
| ArgumentColumns.Writer.Visit | vtr-rs/src/schema.rs:683-724 | walking a row with the writer as the visitor puts down its tokens in order, up to the first that is refused |
| ArgumentColumns.Writer.Append | vtr-rs/src/arguments.rs:40-45 | a row that is not valid changes nothing; otherwise its tokens are put down |
| ArgumentColumns.Writer.Restore | vtr-rs/src/arguments.rs:75-82 | columns, dictionary and its index are those of the mark |
| ArgumentColumns.RestoreUndoes | vtr-rs/src/arguments.rs:71-82 | going back to a checkpoint undoes any row, also one that failed half way |
| ArgumentColumns.Writer.Finish | vtr-rs/src/arguments.rs:48-57 | the dictionary column is the descriptor and the texts in order of first use |
| ArgumentColumns.Writer.EncodedLengths | vtr-rs/src/arguments.rs:59-69 | exactly the lengths of the columns that `finish` returns |
| ArgumentColumns.DictionariesGrow | vtr-rs/src/arguments.rs:117-137 | the dictionary only grows, without repetition and with valid texts only |
| ArgumentReaders.FailedRowKeeps | vtr-rs/src/arguments.rs:40-45 | a valid row that is refused leaves the writer as it was if and only if its first token is the refused one: a text with an unusable shared number, or one too many for the dictionary |
| ArgumentReaders.HalfRowStays | vtr-rs/src/arguments.rs:117-122 | the failing case occurs: a concrete datatype and row of which the flag stays behind |
| ArgumentReading.TypeSkips | vtr-rs/src/arguments.rs:225-245 | skipping a row accepts and uses up exactly what reading it does, within the same limits |
| ArgumentRoundTrip.ScalarBack | vtr-rs/src/arguments.rs:91-157 | what one scalar puts into its column reads back as its own bytes, in front of anything |
| ArgumentRoundTrip.NumberReads | vtr-rs/src/arguments.rs:95-105 | the signed or unsigned number written for an integer is in range and stands for its bytes |
| ArgumentRows.TypeBack | vtr-rs/src/arguments.rs:281-324 | a row of a datatype without hollow parts whose tokens come next in the columns is read back as its bytes and uses up exactly those tokens |
| ArgumentRows.ElementsBack | vtr-rs/src/arguments.rs:309-323 | the guards on the number of elements let everything through that was written, unless elements can be without bytes |
| ArgumentRows.FinishedOpens | vtr-rs/src/arguments.rs:183-217 | the columns of a finished writer open with its dictionary |
| ArgumentRows.RowsReadBack | vtr-rs/src/arguments.rs:40-57 | rows of datatypes without hollow parts come back as their payloads, every column and every dictionary entry used up, whatever else is in the table |
| ArgumentRows.ComesBackIffSolid | vtr-rs/src/arguments.rs:309-323 | all lists of rows come back if and only if no sequence, and no array that is read element by element, has elements without bytes whose size does not count as fixed |
| ArgumentRows.PartsComeBackIffSolid | vtr-rs/src/arguments.rs:309-323 | the same for one datatype and its parts, whatever else is in the table |
| ArgumentSoundness.ScalarIsScalar | vtr-rs/src/arguments.rs:326-418 | whatever the columns, one scalar that is read is the bytes of one value of the primitive, counted, within the limit |
| ArgumentSoundness.ReadIsPayload | vtr-rs/src/arguments.rs:281-324 | whatever the columns, a row that is read is one whole value of its datatype, counted exactly and no longer than the limit |
| ArgumentSoundness.DecodedIsValid | vtr-rs/src/arguments.rs:183-245 | a row read anywhere in five columns that open, however they came about, is one that validation accepts |
| ArgumentReaders.HollowIsDeclarable | vtr-rs/src/schema.rs:478-492 | tables on which the round trip fails can be declared: a sequence of empty arrays of texts |
| ArgumentReaders.Reader.Type | vtr-rs/src/arguments.rs:281-324 | the loops of the reader do what the recursive reading says |
| ArgumentReaders.Reader.Decode | vtr-rs/src/arguments.rs:235-245 | a failed row uses up neither columns nor dictionary; otherwise the reader is after the row |
| ArgumentReaders.Reader.Done | vtr-rs/src/arguments.rs:247-255 | accepts exactly when every column and every dictionary entry is used up |
| FramingRoundTrip.FramedWriter.constructor | vtr-rs/src/framing.rs:86-98 | a new container is its header |
| FramingRoundTrip.FramedWriter.Write | vtr-rs/src/framing.rs:110-148 | a section is refused, and nothing changes, exactly when the container is finished, its kind or block number is not allowed, or it does not fit 64 bits; otherwise the output is the image of one part more |
| FramingRoundTrip.FramedWriter.Finish | vtr-rs/src/framing.rs:155-203 | refused and nothing changes, or the output is the image with directory and trailer |
| Framing.Scan | vtr-rs/src/framing.rs:374-418 | the loop finds the sections and the dropped bytes of the recursive scan |
| Framing.Directory | vtr-rs/src/framing.rs:321-358 | the loop over the entries reads as the recursive definition |
| Framing.ParseBytes | vtr-rs/src/framing.rs:265-419 | parses as the definition says |
| FramingRecovery.SectionReads | vtr-rs/src/framing.rs:430-471 | a section header and its payload read back where they lie, checksum included |
| FramingRecovery.DirectoryReads | vtr-rs/src/framing.rs:164-178 | the directory reads back entry by entry |
| FramingRecovery.FinishedParses | vtr-rs/src/framing.rs:110-372 | a finished container parses back to the same sections, auxiliary fields, identity, completion, dropped bytes and fingerprint if and only if no block number was given twice |
| FramingRecovery.TwiceIsRefused | vtr-rs/src/framing.rs:110-372 | the failing case occurs: two parts with one block number, which the writer accepts and the parser refuses |
| FramingRecovery.PrefixRecovers | vtr-rs/src/framing.rs:374-418 | the image cut at any byte behind the header scans as exactly the sections that fit whole, with the rest dropped |
| FramingRecovery.ClosingStops | vtr-rs/src/framing.rs:374-379 | a directory, cut or not, ends the scan |
| FramingRecovery.AcceptedIsChain | vtr-rs/src/framing.rs:265-419 | whatever bytes are accepted, the sections lie without gaps inside them, and those of a directory are what their own headers say |
| FramingSoundness.PrefixIsSaid | vtr-rs/src/framing.rs:381-408 | a scan takes the block number and auxiliary fields from exactly the bytes of the payload where each kind has them |
| FramingSoundness.ScanOneIff | vtr-rs/src/framing.rs:376-413 | a section is taken exactly when it lies whole in the bytes, its checksum is zero or that of its payload, and it is neither of kind 0 nor a directory and says its own fields |
| FramingSoundness.ScannedIsSound | vtr-rs/src/framing.rs:374-418 | everything a scan finds is such a section, and it stops only where none begins |
| FramingSoundness.DirectoryIsSound | vtr-rs/src/framing.rs:300-372 | a container is accepted by its directory only when the directory has its own checksum, or none |
| FramingSoundness.WrittenIsChecked | vtr-rs/src/framing.rs:110-148 | every section of an image stands behind a header of its own kind, flags, length and checksum |
| FramingSoundness.DirectoryIsChecked | vtr-rs/src/framing.rs:155-203 | and so does the directory of a finished one |
| FramingRecovery.EntriesAreWell | vtr-rs/src/framing.rs:321-358 | accepted entries lie without gaps, with different block numbers |
| FramingRecovery.Recover | vtr-rs/src/framing.rs:476-522 | writes the scanned sections once more as an incomplete container, unless there is no metadata or the writer refuses one |
| FramingRecovery.RecoversPrefix | vtr-rs/src/framing.rs:476-500 | in a container cut anywhere behind the header, recovering finds exactly the parts that fit whole and counts the rest as dropped |
| FramingRecovery.RecoveredReadsBack | vtr-rs/src/framing.rs:374-522 | a container cut anywhere recovers to the finished image of the parts that fit whole, marked incomplete, if metadata is among them and the image fits 64 bits; that image parses back to exactly these parts if and only if no block number occurs twice |
| ColumnPacking.Pack | vtr-rs/src/wire.rs:7-27 | packs columns as their number, their lengths and their bytes, and refuses exactly those beyond the limit |
| ColumnPacking.UnpacksBack | vtr-rs/src/wire.rs:29-45 | packed columns unpack to themselves, with nothing left over |
| Records.PruningIsSafe | vtr-rs/src/records.rs:889-903 | a segment passed over by datatype, generator, kind, id, parent or time bounds holds no record that the query selects |
| Records.WindowIsActivity | vtr-rs/src/records.rs:947-952 | a record lies in the window exactly when at some time of it the record is active: at its instant, or from its begin on before its end |
| Records.SelectedIsAsked | vtr-rs/src/records.rs:886-956 | a query selects exactly the records of the sources, parent and number it asks for that are active in its window |
| Records.BoundsHold | vtr-rs/src/records.rs:296-306 | the bounds taken up record by record enclose every record, its parent included when it has one |
| Records.BoundsInOrder | vtr-rs/src/records.rs:281-325 | the bounds of valid records are in order, and there is no parent exactly when the least is zero |
| RecordSegments.DeltaReads | vtr-rs/src/records.rs:370-395 | differences modulo 2^64, zig-zag and sums modulo 2^64 give the value back, whatever it is and whatever came before |
| RecordSegments.MetaReads | vtr-rs/src/records.rs:928-946 | times, number, parent and duration of a valid record are read back, for logs by distance and for the rest by difference |
| RecordSegments.RowReads | vtr-rs/src/records.rs:927-979 | one row of a datatype without hollow parts is read where it comes next; skipping a payload that is not selected leaves the columns where reading it would |
| RecordSegments.SegmentQueried | vtr-rs/src/records.rs:912-986 | the raw bytes of a segment, of a datatype without hollow parts, answer a query with exactly its selected records, in order, and pass the checks on columns, dictionary and bounds |
| RecordSegments.SegmentEncoder.Append | vtr-rs/src/records.rs:363-401 | one row more in the columns; a refused payload leaves its differences behind |
| RecordSegments.SegmentEncoder.Size | vtr-rs/src/records.rs:403-411 | the size is exactly the length of the packed segment |
| RecordGroups.BucketIs | vtr-rs/src/records.rs:454-473 | each bucket holds exactly the records of its generator and datatype, in the order they came |
| RecordGroups.BucketsInOrder | vtr-rs/src/records.rs:452-489 | the buckets come in the order of their first records |
| RecordGroups.OrderIsStable | vtr-rs/src/records.rs:452-489 | when logs are kept apart they come behind everything else, and otherwise the groups keep their order |
| RecordGroups.MatchingIsAsked | vtr-rs/src/records.rs:873-989 | the records that match are exactly those asked for, each as often as it is there |
| RecordGroups.GroupsFindMatching | vtr-rs/src/records.rs:454-476 | a query over the groups, with logs moved behind or not, finds exactly the records that match, each as often as it is there |
| RecordGroups.CountOfGroups | vtr-rs/src/records.rs:454-476 | grouping loses and doubles no record |
| RecordPieces.CutsAreGreedy | vtr-rs/src/records.rs:495-513 | where a segment ends: with more than one record it fits a page, it was shorter than a page before each further record, and it ends because it is full, one more would not fit, or none are left |
| RecordPieces.OversizedIsAlone | vtr-rs/src/records.rs:495-514 | with room on a page for the packing, a segment that is too large is a single record |
| RecordPieces.TextsCounted | vtr-rs/src/arguments.rs:111-139 | every text puts down a byte and at most one entry of the dictionary |
| RecordPieces.ManyTexts | vtr-rs/src/arguments.rs:124-135 | texts that overflow a dictionary which is not large are too large on their own |
| RecordBlocks.AddRow | vtr-rs/src/records.rs:496-512 | a row is taken back if and only if it is not the first and makes the segment longer than a page, and then columns and dictionary are as before; it is refused only when the dictionary overflows, and then it is too large with the rows before it, and on its own unless they fill a gigabyte with texts |
| RecordBlocks.EncodeSegment | vtr-rs/src/records.rs:492-514 | the packed columns, and the bounds, of the records up to where the segment ends; longer than a page only with a single record; refused only if that segment, or a record behind it that stands alone, is too large |
| RecordBlocks.HugeStandsAlone | vtr-rs/src/records.rs:496-514 | a record that overflows a dictionary is too large as a segment of its own, wherever it stands |
| RecordBlocks.LaysOneMore | vtr-rs/src/records.rs:515-536 | a segment more on the page being filled: all segments keep their bytes, lie one behind the other, and new pages begin only where one is full |
| RecordEncoding.Gather | vtr-rs/src/records.rs:454-473 | accepts exactly records of known generators, valid, with valid payloads and different numbers, and groups them |
| RecordEncoding.EncodeBucket | vtr-rs/src/records.rs:490-538 | the segments of a bucket are its records cut where segments end, in order, fill the pages, and answer every query as the bucket does; refused only if one of them is too large or there are 2^32 |
| RecordEncoding.Place | vtr-rs/src/records.rs:515-536 | a segment joins the page being filled or a new one; no page is longer than it should be, except one that holds a single record |
| RecordQueries.EncodeBlock | vtr-rs/src/records.rs:439-602 | refuses exactly unusable policies and unacceptable records; is too large if and only if one of the segments into which the records are cut is, or there are 2^32 of them; otherwise the block holds exactly these segments, on pages that are not too long and begin only where they have to, logs behind the rest when they are kept apart, and answers every query as the groups do |
| RecordEncoding.JoinedIsPaged | vtr-rs/src/records.rs:515-536 | a segment begins a new page exactly when the one before is full, has no room for it, or holds no logs while logs are kept apart |
| RecordQueries.LogsApart | vtr-rs/src/records.rs:474-489 | when logs are kept apart no page holds logs and anything else |
| RecordLimits.TooLargeHasAlone | vtr-rs/src/records.rs:439-602 | fewer than 2^32 records of which none is too large on its own always make a block, when a page leaves room for the packing |
| RecordLimits.AloneIsTooLarge | vtr-rs/src/records.rs:492-514 | a record that is too large on its own makes the block too large where a segment begins with it |
| RecordLimits.LaterRecordFits | vtr-rs/src/records.rs:490-514 | elsewhere it need not: two concrete records of which the second alone is too large, while both together are one segment that is not |
| RecordLimits.TextsDeclarable | vtr-rs/src/schema.rs:430-525 | their datatype, a sequence of texts, can be declared over any table that is not full |
| RecordVisits.RunSegment | vtr-rs/src/records.rs:912-986 | the row loop shows what the recursive definition finds, until the visitor has enough, and fails only where that does |
| RecordVisits.RunQuery | vtr-rs/src/records.rs:873-989 | for any bytes and any visitor: nothing is shown that is not asked for; when a query for everything gets through the block, the visitor is shown, in order, exactly the records asked for (source, parent, number, and active some time in the window) up to the one with which it has enough; a query fails only if that of the whole block does |
| RecordVisits.ShownAsked | vtr-rs/src/records.rs:873-989 | what any number of segments and rows show is asked for, whatever the bytes are |
| RecordSoundness.ShownIsSound | vtr-rs/src/records.rs:873-989 | whatever the bytes are and wherever a query stops or fails: every record shown is a valid one of a known generator, and its payload is a valid one of its datatype within the limit |
| RecordFilters.QueryIsFilter | vtr-rs/src/records.rs:873-989 | on any block that a query for everything gets through, every query does, and shows of these records exactly those asked for, in their order |
| RecordVisits.ShownFirst | vtr-rs/src/records.rs:873-989 | what part of a block shows is the beginning of what all of it shows |
| RecordQueries.EncodedAnswers | vtr-rs/src/records.rs:439-989 | whatever was encoded answers every query with exactly the records asked for (source, parent, number, and active some time in the window), each as often as it is there, grouped by generator and datatype in stable order, whatever was passed over, when no source that the query selects has records of a datatype with hollow parts |
| RecordQueries.EncodedIsAccepted | vtr-rs/src/records.rs:606-743 | every block that is encoded opens: partition of pages, counts and aggregate bounds included |
| RecordQueries.ActivityIsQuery | vtr-rs/src/records.rs:812-853 | `activity`, which reads only two columns, shows the intervals of a query for everything |
| RecordQueries.IntervalIsActivity | vtr-rs/src/records.rs:837-850 | the interval that `activity` shows covers exactly the times at which the record is active |
| RecordImages.EncodeImage | vtr-rs/src/records.rs:439-581 | from records to bytes: too large if and only if one of the segments into which the records are cut is, there are 2^32 of them, or the packed pages begin beyond or are longer than 32 bits can say; otherwise the bytes are the image of a block that holds exactly these segments |
| RecordImages.WriteImage | vtr-rs/src/records.rs:541-581 | the loops write the image: numbers, segment headers, page headers and blobs, and refuse exactly what 32 bits cannot say |
| RecordImages.EncodedFits | vtr-rs/src/records.rs:519-549 | every number of a block that is encoded fits the bytes it is written in |
| RecordImages.SegmentsRead | vtr-rs/src/records.rs:624-668 | segment headers, with a datatype only for logs, read back in front of anything, past the guard of 68 bytes each |
| RecordImages.PagesRead | vtr-rs/src/records.rs:669-694 | page headers read back as the partition of the packed pages, 12 bytes each |
| RecordImages.OpenImage | vtr-rs/src/records.rs:606-743 | the loops open an image as the recursive definition does, refusals included |
| RecordImages.OpenedIsSafe | vtr-rs/src/records.rs:606-743 | whatever bytes open: bounds, counts and partition are in order, every blob lies inside the image and every segment inside its page |
| RecordImages.ImageOpens | vtr-rs/src/records.rs:541-743 | an image opens to exactly the directory it was written from |
| RecordImages.PageReadsBack | vtr-rs/src/records.rs:419-437 | and each of its pages unpacks to itself, for any compression that undoes itself |
| RecordImages.ImageAnswers | vtr-rs/src/records.rs:439-989 | what is opened from the bytes answers every query with exactly the matching records, grouped in stable order, when no source that the query selects has records of a datatype with hollow parts |
| ReaderCaches.LocatedPageCache.Insert | vtr-cpp/src/engine/reader.cpp:43-61 | pages too large or already there change nothing; otherwise exactly some of the oldest go and the new one, never itself evicted, is the youngest; the counted storage is that of the pages held, within the limit |
| ReaderCaches.LocatedPageCache.LocatedPage | vtr-cpp/src/engine/reader.cpp:121-128 | a page is the same from the cache and from the file |
| ReaderCaches.OwnerCache.ForgetDetails | vtr-cpp/src/engine/reader.cpp:146-156 | nothing points at the owner any more, everything else still points at cached owners |
| ReaderCaches.OwnerCache.MakeRoom | vtr-cpp/src/engine/reader.cpp:182-190 | the oldest owners go until the new one fits in number and storage; the new one is never among them |
| ReaderCaches.OwnerCache.Remember | vtr-cpp/src/engine/reader.cpp:158-193 | counted storage is that of the owners held, within the budget; details point only at cached owners and at the right place |
| ReaderCaches.CachedOwnerIsFresh | vtr-cpp/src/engine/reader.cpp:326-330 | with numbers given once in the file, a cached owner is what a search of the file would answer |
| ReaderCaches.CachedDetailIsFresh | vtr-cpp/src/engine/reader.cpp:330-336 | so is an embedded event or stage found through a cached owner |
| ReaderCaches.OwnerCache.Transaction | vtr-cpp/src/engine/reader.cpp:290-318 | the owner of the file with that number if there is one, whatever is cached; passing over blocks by their bounds loses nothing |
| ReaderCaches.OwnerCache.Lookup | vtr-cpp/src/engine/reader.cpp:320-389 | whatever earlier calls left in the caches, the answer of a reader that has cached nothing: the located record, owner, embedded event or stage of the file with that number, and nothing exactly when there is none |
| ReaderCaches.FreshAnswers | vtr-cpp/src/engine/reader.cpp:320-389 | a search of any file finds a record with the number whenever there is one |
| ReaderCaches.OnlyAnswer | vtr-cpp/src/engine/reader.cpp:320-389 | with numbers given once in the file there is only one right answer |
| ClockCycles.CycleAt | vtr-cpp/src/engine/reader.cpp:448-474 | refuses exactly stretches that do not match the period recorded with them, stretches that share a time, and clocks of more than 2^64 edges; otherwise the answer is the number of edges at or before the time, minus one, an edge being any begin + n * period of a recorded stretch up to its end |
| ClockCycles.SpanHasStep | vtr-cpp/src/engine/reader.cpp:78-92 | a stretch is taken with the period that is recorded last, or as a single edge, and refused only when no period fits |
| ClockCycles.AllEdgesCounted | vtr-cpp/src/engine/reader.cpp:448-474 | the edges of the recorded stretches, one by one, are as many as the formula counts |
| ClockCycles.RefusedIs | vtr-cpp/src/engine/reader.cpp:458-464 | looking at neighbours in the order of their beginnings finds every pair of stretches that share a time |
| ClockCycles.Period | vtr-cpp/src/engine/reader.cpp:78-92 | how far apart the edges are: the last period given, or one for a single edge; refused if a period is no positive time, if a single edge has one, or if the stretch is not a multiple of it |
| ClockCycles.SortedSpans | vtr-cpp/src/engine/reader.cpp:456-457 | sorting what was recorded sorts the stretches |
| ClockCycles.EdgesAre | vtr-cpp/src/engine/reader.cpp:463-469 | the formula with division counts the edges of a stretch one by one |
| ClockCycles.SortedEdges | vtr-cpp/src/engine/reader.cpp:456-457 | sorting the stretches changes no number of edges |
| RecordIds.NumbersAreUnique | vtr-cpp/src/engine/record_ids.h:27-33 | in every interleaving of at most so many calls the numbers given out are different and nonzero |
| RecordIds.NeverWraps | vtr-cpp/src/engine/record_ids.h:25-33 | the counter never wraps: every addition adds exactly one and leaves room for every other call, and zero is answered only after every number was given out |

## Left out

- HandoffSteps.StepKeeps: filling a slot is one step although the code makes three plain writes that no other thread looks at; checking `stopped` and `failed` is one step; a callback or sink that throws has had no effect; the event counter does not wrap; memory is sequentially consistent.
- Handoff: `stop` while calls are active, the statistics, the peak counters and CPU clocks of `vtr-cpp/src/engine/handoff.cpp`.
- Trackers.Tracker.Open: parents, stages, lanes, events, attributes, labels, diagnostics and relations of items; the writer is reduced to beginning and ending records.
- KeyTables.KeyTable.Insert: groups are values here, so moving one between slots copies it (`TrackerTables` takes one out, changes it as `Group` does, and puts it back); the concrete hash is any function.
- ActivityIndex.WriteThenRead: columns are sequences of numbers (their bytes are `Varint`), and compression, checksums, section headers, the directory and memory limits are left out; a closure count larger than the numbers left is refused, where the code compares it with the bytes left and fails on the first missing number.
- AttributeRoundTrip.DecodeIff: whether bytes are UTF-8 is a predicate given from outside, floating-point values are their bits, and the sizes that the allocation budget charges are parameters.
- Transforms.DeltaDecode: the machine-type form keeps the previous element in a register; here it is read back from where it was just written.
- DictionaryCoding.DictTable.Encode: the two concrete hash functions are any one function of the entry; decoding of widths 2, 4 and 8 has no copies of its own.
- DatatypeTables.Types.Declare: names and attributes of the datatypes themselves, whether they contain texts, and the count of unsigned words that `vtr-rs/src/schema.rs` also precomputes; declarations are not written to or read from chunks.
- ArgumentColumns.Writer.Scalar: takes its scalar from a row that was validated, as `append` does; texts are bytes that a given predicate calls UTF-8.
- RecordQueries.EncodeBlock: pages are their raw bytes and headers are numbers; `RecordImages` writes both in bytes and packs the pages with any function that undoes itself.
- RecordVisits.RunQuery: pages are at hand: loading them through a cache, which may fail, is left out.
- FramingRecovery.FinishedParses: the checksum is any function and the front of compressed declarations is given; files, memory maps and the checks on recovery paths are host input and output; kinds of errors are not told apart.
- ReaderCaches.OwnerCache.Lookup: records are their numbers and the storage a copy takes; reading blocks never fails, and running out of memory while caching is left out.
- ClockCycles.CycleAt: an attribute's key is told by whether it is that of the period.
- Declaration chunks, payload pool, scalar pages and packed signals (`vtr-rs/src/declarations.rs`, `vtr-cpp/src/engine/payload_pool.h`, `vtr-cpp/src/engine/scalar_page.h`, `vtr-rs/src/signal.rs`).
- Files, memory maps, compression, checksums, the command-line tools, converters and bindings.
