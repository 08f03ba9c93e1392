# SHINKEN Sentinel: a verified model of the driver's core

SHINKEN Sentinel is a Windows kernel driver that decides network connections by a set of rules. This project models the
parts of it that carry its safety argument and proves their properties in Dafny 4.11:

* **Rule snapshots** (`SnapshotProtocol`, `Rundown`, `StoreView`): immutable rule sets published atomically, read by
  classify calls under a counted reference, reclaimed through a stop-bit counter. Steps are the sections of the publish
  lock and the single actions outside it; theorems hold for every schedule of them.
* **The rule store and the verdict** (`RuleStore`, `RuleOrder`, `RuleEngine`, `RateTable`, `RuleMatch`, `AddrMatch`): the
  writer operations as methods over the store's fields, refined to a map from rule id to rule; sorting, first-match
  evaluation, token buckets, validation, matching and prefix comparison.
* **Writers and classify calls on one store** (`ClassifyRun`, `BucketRun`): on every schedule a writer call takes effect at
  one instant as the operation of the call that took the lock, a classify call is decided by the snapshot it acquired, and
  token buckets follow the current ids exactly as long as no late reader recreates one.
* **Telemetry** (`EventQueue`, `EventRing`, `Telemetry`): the producer gate, stop, join and drain protocol on every schedule,
  the overwrite-oldest ring, and the two together.
* **The control plane** (`WireCodec`, `WireWalk`, `ControlDispatch`, `ControlCommands`, `ControlConsumer`): the byte format of
  rules, the REPLACE walk, the checks of one request, who may change the store, and the request consumer with its two events.
* **Start, rollback and unload** (`RuntimeState`, `Lifecycle`).

`RuleTypes` holds the public data types, `Arithmetic` and `Sequences` the few facts the others share. `dafny verify dfyconfig.toml` checks all.

## Hypotheses

* Memory is sequentially consistent; one lock section or one atomic access is one step.
* Every Release pairs with a successful Acquire, with fewer than 2^30 holders. What happens otherwise is stated by
  `Rundown.AcquireSucceedsIff`, `UnpairedReleaseAlone`, `RepairWorksIff` and `DrainUnderHolder`.
* Pool allocation, thread creation and join, WFP, WDF and clocks answer arbitrarily: their answers are parameters or events.
* Versions, statistics and the count of telemetry writes are unbounded; the 32-bit rundown counter and the 64-bit
  token arithmetic wrap as in the source.

## Where the code and its comments differ

* `telemetry/event_queue.c:29-32` says the stop flag is set under the queue lock. It is set at line 267 under the start lock
  only, so a consumer can exit while a producer past its recheck has yet to link (`EventQueue.ConsumerMayLeaveANode`). The
  comment's invariant holds iff no call is past its recheck with room in the queue when the flag is set (`LinkAfterFlagIff`).
  Safety rests on the producer count with the recheck made while counted, and on the final drain (`NoLinkOnceGated`,
  `StopIsFinal`).
* `rules/rule_store.c:498-500` says an acquire inside the lock always succeeds. It fails when 2^30 readers hold the current
  snapshot, and then falls back to the default policy (`SnapshotProtocol.AcquireSucceedsIff`, `CrowdReachable`).
* `rules/rule_engine.c:126-128` says a reused rule id never inherits residue of an old bucket. A reader still evaluating a
  displaced snapshot recreates the bucket after the writer's reset, and a Replace that reuses the id inherits it
  (`BucketRun.LateReaderInherits`). For each id: it inherits a bucket iff an evaluation on a displaced snapshot, or a
  shutdown, stranded one and no reset of that id has taken effect since (`NewIdInheritsIff`).
* `runtime/rundown.h:17-21` says an unpaired release is rolled back. It is, iff nobody holds a reference when it subtracts and
  neither BeginStop nor another release falls between the subtraction and the repair (`Rundown.RepairWorksIff`). Under a
  holder it goes unnoticed, and a drain can succeed while that holder is inside (`DrainUnderHolder`).
* `runtime/runtime.c:314-317` and `377-382` test and write the state in two accesses each. An underflow report inside
  EnterQuiescent is overwritten, and the unload returns (`Lifecycle.LoseReportInWindow`). One that reads Teardown and writes
  after the destroy leaves a parked unload without a device, against the policy that a blocked driver keeps it
  (`BlockWithoutDevice`), or blocks a runtime whose unload has returned (`BlockAfterReturn`). `Lifecycle.Driver.RunUnload`
  gives the exact condition under which the unload returns and the one under which the device goes.
* `rules/rule_engine.c:110-111` adds modulo 2^64: a refill can be lost (`RateTable.RefillIdealIff`, `RefillCanVanish`).
  The admission bound holds regardless.
* Validation accepts rules that no layer of the data plane can ever fire (`RuleMatch.FiresIffSomeLayerFits`).
* The ring copies a short record over the front of its row, so a flush can show bytes of an older record behind it
  (`EventRing.ShownIffCleanTails`). Every record the classify path posts fills the row, and for those the flush is exact.

## Model

| member | source | states |
|---|---|---|
| AddrMatch.Match | packet/packet_helpers.c:19-49 | The byte loop returns TRUE exactly when the two big-endian addresses agree after division by 2^(width-prefix); unknown families and prefixes beyond the width never match; every index is in bounds |
| AddrMatch.LongerImpliesShorter | packet/packet_helpers.c:19-49 | A match on a longer prefix implies a match on every shorter one |
| AddrMatch.PrefixExtremes | packet/packet_helpers.c:19-49 | Prefix 0 matches everything; the full width matches exactly on equal addresses |
| AddrMatch.FamiliesAre | packet/packet_helpers.c:21-31 | A v4 address has 32 bits in its first 4 bytes, a v6 address 128; any other family and any longer prefix matches nothing |
| AddrMatch.PartialByte | packet/packet_helpers.c:36-47 | The integer prefix of a partial byte is the whole-byte prefix followed by that byte's high bits |
| RuleMatch.AcceptedIsSatisfiable | rules/rule_store.c:300-358 | Every enabled rule that validation accepts is matched by a constructed tuple (family, prefixes, ports, validity window) |
| RuleMatch.TupleForMatches | rules/rule_match.c:50-125 | The constructed tuple passes each masked test, for every family, direction and layer compatible with the rule |
| RuleMatch.LayersAre | packet/classify.c:124-134 | The four evaluated layers: connect is outbound, receive-accept inbound, each as v4 and v6 |
| RuleMatch.FiresIffSomeLayerFits | packet/classify.c:124-197 | From any clock reading on, an accepted enabled rule fires on some tuple the data plane can build iff one of the four evaluated layers fits its family, direction, layer and prefixes, its application id is the hash of a path, and its validity window is not over |
| RuleMatch.AcceptedButDead | rules/rule_store.c:300-358 | Validation does not enforce that condition: a concrete accepted rule (IPv6 family on an IPv4 layer) no data-plane tuple matches |
| RuleMatch.HashAppPath | rules/rule_match.c:31-44 | The loop computes FNV-1a over the ASCII-lowercased UTF-16 units; the empty path hashes to the wildcard 0 |
| RuleMatch.HashIgnoresCase | rules/rule_match.c:31-44 | Paths that differ only in ASCII case have the same application id |
| RuleMatch.DirectionDecides | rules/rule_match.c:58-62 | In a matching tuple the direction can be exchanged for exactly the values the rule's condition allows, any at all without mask bit 0x2 or with the wildcard 0 |
| RuleMatch.ProtocolDecides | rules/rule_match.c:63-65 | The same for the protocol, bit 0x4, wildcard 0 |
| RuleMatch.LayerDecides | rules/rule_match.c:66-67 | The same for the layer, bit 0x200 |
| RuleMatch.InterfaceDecides | rules/rule_match.c:68-76 | The same for the interface, bit 0x400, wildcard 0 |
| RuleMatch.ProcessDecides | rules/rule_match.c:77-78 | The same for the process, bit 0x80, wildcard 0 |
| RuleMatch.AppDecides | rules/rule_match.c:79-80 | The same for the application id, bit 0x100, wildcard 0 |
| RuleMatch.LocalPortDecides | rules/rule_match.c:83-86 | The same for the local port, bit 0x20, a closed interval |
| RuleMatch.RemotePortDecides | rules/rule_match.c:87-90 | The same for the remote port, bit 0x40, a closed interval |
| RuleMatch.LocalAddrDecides | rules/rule_match.c:93-97 | The same for the local address, bit 0x8, the leading bits at the tuple's own width |
| RuleMatch.RemoteAddrDecides | rules/rule_match.c:98-102 | The same for the remote address, bit 0x10 |
| RuleMatch.UserDecides | rules/rule_match.c:104-115 | The same for the user id, bit 0x800, equal length and bytes |
| RuleMatch.ClockDecides | rules/rule_match.c:117-123 | The same for the clock, bit 0x1000, a closed window, 0/0 for ever |
| RuleMatch.FamilyDecides | rules/rule_match.c:52-57 | The family is decided by bit 0x1 alone unless an address is compared; a disabled rule matches nothing |
| RuleMatch.AcceptedIff | rules/rule_store.c:300-358 | Validation accepts exactly the rules with an id, supported conditions, values in range, usable token parameters, and conditions no one of which is empty |
| RuleMatch.HashVectors | rules/rule_match.c:31-44 | The published FNV-1a test vectors, with upper case folded |
| RuleMatch.LowerIs | rules/rule_match.c:38-40 | ASCII upper case and nothing else is folded |
| RuleOrder.PrecedesIsStrictOrder | rules/rule_store.c:158-167 | The precedence comparison is irreflexive, transitive, and total on rules with different ids |
| RuleOrder.PrecedesIffOutranks | rules/rule_types.h:131-135 | The comparison is the documented precedence on the fields: higher priority, then BLOCK over RATE_LIMIT over AUDIT over ALLOW, then the smaller id |
| RuleOrder.SortRules | rules/rule_store.c:172-180 | The in-place sort leaves exactly the specification sort of the old contents in the array |
| RuleOrder.InsertInPlace | rules/rule_store.c:174-178 | One turn of the outer loop inserts element i into the sorted prefix and touches nothing behind it |
| RuleOrder.SortIsCorrect | rules/rule_store.c:172-180 | The sort is a permutation and no rule is preceded by a later one |
| RuleOrder.SortOrders | rules/rule_store.c:169-180 | On unique ids the result is strictly in verdict order with the same rules |
| RuleOrder.OrderedIsCanonical | rules/rule_types.h:131-135 | A verdict-ordered list is determined by its set of rules |
| RateTable.RunBound | rules/rule_engine.c:106-120 | For any bucket and any call times, even out of order: the refill clock is the last whole interval passed by the latest time, and admissions plus tokens never exceed the start plus what those intervals are worth; 64-bit wrap-around included |
| RateTable.CreatedBucketBound | rules/rule_engine.c:99-120 | The same bound for a bucket created full: burst + rateTokens * floor((latest - t0) / interval) |
| RateTable.AttemptKeepsBound | rules/rule_engine.c:106-120 | One admission attempt preserves the bound |
| RateTable.AttemptIff | rules/rule_engine.c:106-120 | As long as the 64-bit sum does not wrap a call is admitted iff the bucket has a token to spend, min(burst, tokens + n * rateTokens) after n whole intervals, and takes exactly that one |
| RateTable.ExactlySpendable | rules/rule_engine.c:106-120 | Of any number of calls at one clock reading exactly as many are admitted as there are tokens to spend, and every further one is refused |
| RateTable.AllowIff | rules/rule_engine.c:79-124 | On the table: admitted iff all 64 slots belong to other rules or the rule's bucket, a full one if it has none, has a token to spend |
| RateTable.RefillIdealIff | rules/rule_engine.c:106-114 | The 64-bit refill equals the documented min(burst, tokens + n * rateTokens) iff the sum does not wrap or wraps to at least burst |
| RateTable.RefillCanVanish | rules/rule_engine.c:110-111 | A concrete wrap: an accepted rule and two clock readings where the second call is refused and the documented refill would admit it |
| RateTable.SharedAsAlone | rules/rule_engine.c:79-124 | In any run of the shared table an id that has a slot is admitted exactly as if it had the table to itself; one that never gets a slot met a full table and is never limited |
| RateTable.SharedBound | rules/rule_engine.c:75-78 | The admission bound for one id over any run of the shared table, with the full-table fail-open as its exact exception |
| RateTable.SharedExactly | rules/rule_engine.c:79-124 | On the shared table, for a rule that has a slot or finds one: of k calls at one clock reading exactly min(k, tokens to spend) are admitted |
| RateTable.TableSize | rules/rule_engine.c:64-72 | The map a table represents has as many ids as slots in use, so it is full exactly at 64 ids |
| RateTable.Table.constructor | rules/rule_engine.c:72 | The image-level table starts as the empty map |
| RateTable.Table.FindSlot | rules/rule_engine.c:86-95 | The scan returns the slot of the id if present, else a free slot, else 64 |
| RateTable.Table.TryTake | rules/rule_engine.c:79-124 | The slot array refines the partial map id to bucket; the call is admitted iff the rule's bucket has a token to spend after its whole intervals, a new bucket having its burst, or the table is full without the id |
| RateTable.Table.Reset | rules/rule_engine.c:129-143 | Removes exactly that id from the map |
| RateTable.StoreSlot | rules/rule_engine.c:99-120 | Writing a slot for an id changes the represented map at that id only |
| RateTable.ClearSlot | rules/rule_engine.c:133-141 | Zeroing a slot removes its id only |
| RuleEngine.FirstMatchIsStrongest | rules/rule_engine.c:165-172 | On a verdict-ordered snapshot the first match has the highest priority of all matching rules, among those the strongest action, among those the smallest id; there is none iff nothing matches |
| RuleEngine.StrongestIsUnique | rules/rule_types.h:131-135 | At most one rule is strongest for a tuple |
| RuleEngine.SupplyOrderIrrelevant | rules/rule_store.c:172-180 | Rule lists with the same rules give the same verdict rule whatever order they were supplied in |
| RuleEngine.DecideTouchesOnlyHit | rules/rule_engine.c:180-206 | An evaluation changes at most the token bucket of the rule that decided it |
| RuleEngine.Engine.constructor | rules/rule_types.h:138-149 | Counters start at zero and balanced, the rate table empty |
| RuleEngine.Engine.Evaluate | rules/rule_engine.c:148-235 | Block iff the strongest match is BLOCK or a RATE_LIMIT whose bucket refused, or nothing matches and the policy is BLOCK; Audit iff it is AUDIT or an admitted RATE_LIMIT; hardBlock iff Block; ruleId, rateLimited and reason as the match says; each statistic moves with the verdict |
| RuleEngine.Engine.Judge | rules/rule_engine.c:180-222 | The same answer from the deciding rule's own fields and its bucket; every call is counted once by outcome and once by cause, in the counter of its own outcome |
| RuleEngine.Scan | rules/rule_engine.c:165-172 | The scan loop returns the first match |
| Rundown.EncodeInjective | runtime/rundown.c:14-18 | A 32-bit counter value determines stop flag and holder count, below the ceiling |
| Rundown.NextKeepsInv | runtime/rundown.c:20-54 | Every atomic access of acquire, stop and paired release keeps the exact encoding |
| Rundown.CountIsExact | runtime/rundown.c:20-54 | On every paired schedule the counter encodes exactly the stop flag and the number of holders, and no underflow is seen |
| Rundown.StopIsFinal | runtime/rundown.c:20-39 | After BeginStop no Acquire succeeds: holders only shrink and the flag stays |
| Rundown.DrainedForever | runtime/rundown.c:65-76 | A poll that reads STOP_BIT proves zero holders now and on every continuation; the value is stable |
| Rundown.DrainSucceedsIff | runtime/rundown.c:56-76 | Drain's test and ActiveCount's -1 hold exactly when stopped without holders; otherwise ActiveCount is the holder count |
| Rundown.AcquireSucceedsIff | runtime/rundown.c:20-33 | An undisturbed Acquire succeeds iff not stopped and below 2^30 holders |
| Rundown.CasFailureMeansProgress | runtime/rundown.c:28-31 | A failed compare-and-swap means another thread changed the counter since the load |
| Rundown.InjectionDrainFinalIff | runtime/runtime.c:604-621 | A successful injection drain means no holder, whoever is between Begin's load and its compare-and-swap; it is final on every continuation iff GateStop came first |
| Rundown.UnpairedReleaseAlone | runtime/rundown.c:41-54 | Alone, an unpaired release restores the counter and records one underflow |
| Rundown.WindowCount | runtime/rundown.c:42-51 | The exact counter value all through the window of an unpaired release, whatever else runs, always out of Acquire's range |
| Rundown.UndetectedIff | runtime/rundown.c:41-54 | An unpaired release is noticed, and so can be rolled back, exactly when nobody holds a reference; otherwise it takes a holder's count |
| Rundown.RepairWorksIff | runtime/rundown.h:17-21 | From every consistent state: an unpaired release is rolled back iff nobody holds a reference when it subtracts and neither BeginStop nor another release falls in its window; with BeginStop the counter ends at 0, with another release it never reads as drained and admits nobody, with a holder it is one short |
| Rundown.ShortWhileHeld | runtime/rundown.c:41-54 | After an unnoticed one the counter stays one short on every paired schedule as long as somebody holds |
| Rundown.ShortStep | runtime/rundown.c:41-54 | Then the last holder's own release is the one taken for an underflow |
| Rundown.DrainUnderHolder | runtime/rundown.c:65-76 | And a drain succeeds under a holder: the counter reads STOP_BIT exactly when stopped with one holder left |
| Rundown.UnpairedReleaseDrainsHolder | runtime/rundown.c:41-76 | A concrete run: one thread holds, another releases without a reference, BeginStop, and the drain reads STOP_BIT |
| Rundown.UnpairedReleaseCanLoseStop | runtime/rundown.c:48-53 | One such schedule: BeginStop inside the window, the stop bit lost, a later Acquire successful |
| Rundown.RundownObject.constructor | runtime/rundown.c:14-18 | A fresh counter encodes running, no holders |
| Rundown.RundownObject.Acquire | runtime/rundown.c:20-33 | Takes one reference iff running and below the ceiling |
| Rundown.RundownObject.BeginStopping | runtime/rundown.c:35-39 | Sets the flag, keeps the holders; idempotent |
| Rundown.RundownObject.Release | runtime/rundown.c:41-54 | Drops one reference, or restores the counter and counts an underflow when there is none |
| Rundown.RundownObject.Drain | runtime/rundown.c:65-76 | Without interference succeeds iff stopped without holders |
| SnapshotProtocol.NoUseAfterFree | rules/rule_store.c:185-289 | On every schedule of readers, publishes, rollbacks, retire scans, shutdown and reinitialisation: nothing freed is touched, nothing is freed twice or under a reader, and every allocated snapshot is in exactly one place |
| SnapshotProtocol.NextKeepsInv | rules/rule_store.c:243-289 | Every step keeps the invariant: one place each, exact reader counters, current and rollback slot never stopped |
| SnapshotProtocol.AcquireKeepsInv | rules/rule_store.c:502-520 | Reader section R keeps it |
| SnapshotProtocol.ReleaseKeepsInv | rules/rule_store.c:522-525 | Release keeps it |
| SnapshotProtocol.ScanKeepsInv | rules/rule_store.c:193-206 | A retire-list scan keeps it, whichever part of the drained snapshots it finds while readers release beside it |
| SnapshotProtocol.FreeDrainedKeepsInv | rules/rule_store.c:207-211 | Freeing from the private list touches no held snapshot |
| SnapshotProtocol.AllocKeepsInv | rules/rule_store.c:246-254 | Building the new snapshot, possibly at a reused address, keeps it |
| SnapshotProtocol.SwapPublishKeepsInv | rules/rule_store.c:265-285 | Writer section W of a publish keeps it |
| SnapshotProtocol.SwapRollbackKeepsInv | rules/rule_store.c:813-831 | Writer section W of a rollback keeps it |
| SnapshotProtocol.ShutSwapKeepsInv | rules/rule_store.c:417-433 | Writer section W of shutdown keeps it |
| SnapshotProtocol.ShutPopKeepsInv | rules/rule_store.c:442-450 | Taking one snapshot off the retire list keeps it |
| SnapshotProtocol.ShutDrainedKeepsInv | rules/rule_store.c:451-455 | A poll that reads drained condemns the snapshot: no reader can come back to it |
| SnapshotProtocol.ShutFreeKeepsInv | rules/rule_store.c:456 | Freeing a condemned snapshot, a later action outside the lock, keeps it |
| SnapshotProtocol.ShutTimeoutKeepsInv | rules/rule_store.c:457-462 | Keeping a stuck snapshot keeps it and blocks the unload |
| SnapshotProtocol.ShutFinishKeepsInv | rules/rule_store.c:464-486 | Requeueing what is stuck keeps it |
| SnapshotProtocol.InitKeepsInv | rules/rule_store.c:363-390 | Installing the empty snapshot keeps it |
| SnapshotProtocol.DrainedHasNoHolders | rules/rule_store.c:199-202 | A counter read as drained has no reader |
| SnapshotProtocol.AcquireSucceedsIff | rules/rule_store.c:496-520 | A reader gets a snapshot iff the store is open and fewer than 2^30 readers hold the current one |
| SnapshotProtocol.CrowdReachable | rules/rule_store.c:513-516 | The refusal is real: a schedule of acquires brings an open store to 2^30 readers, and the next reader gets nothing |
| SnapshotProtocol.ScanTakesIff | rules/rule_store.c:193-206 | A scan can take a retired snapshot iff no reader holds it |
| SnapshotProtocol.ScanEmptiesRetire | rules/rule_store.c:185-213 | Once no reader holds a retired snapshot, one scan and its frees empty the retire list, free exactly those snapshots and change nothing else |
| SnapshotProtocol.ShutdownReport | rules/rule_store.c:464-486 | Shutdown returns TRUE iff everything allocated is freed; otherwise every remaining snapshot is on the retire list and the runtime is blocked |
| SnapshotProtocol.ContentStable | rules/rule_store.c:271-284 | A snapshot's content never changes once published; only the one being built gets its version in W |
| SnapshotProtocol.HeldStays | rules/rule_store.c:496-501 | A held snapshot survives every step but its own release, unchanged |
| SnapshotProtocol.ReaderSeesAcquiredSnapshot | rules/rule_store.c:502-525 | From acquire to release a reader sees the one snapshot that was current at its acquire, whatever is published meanwhile |
| SnapshotProtocol.NextRefinesView | rules/rule_store.c:265-289 | The published (current, slot) view moves only at the W steps, and moves as publish, rollback, close or reset |
| SnapshotProtocol.GateDecides | rules/rule_store.c:265-270 | A finished draft is published iff the store is initialised and open and the runtime active; otherwise it is freed and the writer leaves |
| SnapshotProtocol.LockEntersIff | rules/rule_store.c:120-122 | A writer gets in iff that gate is open, a rollback only with a slot |
| SnapshotProtocol.ShutAndInitIff | rules/rule_store.c:363-410 | Shutdown gets in iff there is something to shut and the runtime is not blocked; the empty snapshot is installed iff nothing is initialised and it is not blocked |
| SnapshotProtocol.NothingPublishedInactive | rules/rule_store.c:265-270 | Once the runtime is not active, on every schedule that does not activate it again nothing is published until shutdown |
| SnapshotProtocol.CommitPublish | rules/rule_store.c:271-284 | W of a publish installs the asked rules and policy at version + 1 and keeps the displaced snapshot in the slot |
| SnapshotProtocol.CommitRollback | rules/rule_store.c:820-830 | W of a rollback installs the slot's content at version + 1 and consumes the slot |
| SnapshotProtocol.NextKeepsDraft | rules/rule_store.c:777-806 | What the writer built stays what it asked for until W, including the copy of the slot read outside the lock |
| RuleStore.MapDeterminesRules | rules/rule_store.c:169-180 | A good snapshot's rule list is determined by its id-to-rule map |
| RuleStore.SortedIsGood | rules/rule_store.c:745-747 | Sorting validated unique rules gives a good list with the same map |
| RuleStore.RemoveAtMap | rules/rule_store.c:657-666 | Deleting an entry without re-sorting keeps a good list and removes one id from the map |
| RuleStore.EnableKeepsOrder | rules/rule_store.c:697-699 | Changing only `enabled` needs no re-sort |
| RuleStore.Store.constructor | rules/rule_store.c:363-390 | An initialised store holds the empty snapshot, version 0, PERMIT, no slot, no buckets |
| RuleStore.Store.Publish | rules/rule_store.c:243-289 | Installs a good list at version + 1, moves the old snapshot to the slot, drops exactly the buckets of ids that vanished; a failure changes nothing |
| RuleStore.Store.Add | rules/rule_store.c:552-591 | Exact status; success adds one binding to the map and gives the id no old bucket; failure changes nothing |
| RuleStore.Store.Update | rules/rule_store.c:593-632 | Exact status; success replaces one binding and keeps every bucket |
| RuleStore.Store.Delete | rules/rule_store.c:634-670 | Exact status; success removes one binding and its bucket |
| RuleStore.Store.SetEnabled | rules/rule_store.c:672-704 | Exact status; success sets that one rule's flag to 1 or 0 and changes nothing else of the map, clearing its bucket when disabled |
| RuleStore.Store.Replace | rules/rule_store.c:706-751 | Exact status incl. the version conflict; success publishes exactly the given set |
| RuleStore.Store.Clear | rules/rule_store.c:753-763 | Publishes the empty set and drops every bucket |
| RuleStore.Store.Rollback | rules/rule_store.c:765-837 | Exact status; success republishes the slot's content at version + 1 and empties the slot |
| RuleStore.Store.SetDefaultPolicy | rules/rule_store.c:839-865 | Exact status; success keeps the map and sets the policy |
| RuleStore.Store.Classify | rules/rule_engine.c:148-235 | On every store any writer sequence reaches, a classify call's verdict is decided by the strongest match, and buckets stay within the current ids |
| RuleStore.Store.ResetBucket | rules/rule_store.c:587-588 | Drops one id's bucket |
| RuleStore.Store.Shutdown | rules/rule_store.c:417-433 | Readers and writers find nothing afterwards |
| RuleStore.ResetRemoved | rules/rule_store.c:220-238 | The double loop drops exactly the buckets of ids in the old snapshot and not in the new |
| RuleStore.IndexOf | rules/rule_store.c:571-576 | The scan finds the entry of an id, or its absence |
| RuleStore.CheckReplace | rules/rule_store.c:712-728 | The argument checks give the first failing status: size, any invalid rule, duplicate id |
| RuleStore.SortedArray | rules/rule_store.c:738-747 | The copied and sorted array is the sort of the argument |
| RuleStore.WithAppended | rules/rule_store.c:577-585 | Copy, append, sort: good again, one more binding |
| RuleStore.WithReplaced | rules/rule_store.c:616-624 | Copy, replace, sort: good again, one binding changed |
| RuleStore.Without | rules/rule_store.c:654-666 | Copy around a hole: good again, one binding fewer |
| RuleStore.WithEnabled | rules/rule_store.c:692-698 | Copy and set the flag: good again |
| RuleStore.RuleWritesIff | rules/rule_store.c:552-704 | When a call on one rule succeeds, on the fields: gate open at entry and at W, memory, and a valid rule with a new id and room, or a present id |
| RuleStore.SetWritesIff | rules/rule_store.c:706-865 | When a call on the whole set succeeds, on the fields |
| RuleStore.DecidedKeysStay | rules/rule_engine.c:180-206 | Evaluating a snapshot creates no bucket but for one of its own rules |
| RuleStore.VersionCountsWrites | rules/rule_store.c:271-274 | Over any run of publishes and rollbacks the version counts the successful writes |
| RuleStore.ConditionalReplaceIff | rules/rule_store.c:729-748 | A conditional replace that reaches its version test conflicts iff something was written since that version, and otherwise answers as an unconditional one |
| RuleStore.RollbackUndoesWrite | rules/rule_store.c:765-837 | After any run, one more write followed by a rollback restores the rules and policy at version + 2; a second rollback is NOT_FOUND |
| ClassifyRun.ComputedIffAccepted | rules/rule_store.c:552-763 | A writer call computes a list to publish exactly when the sequential store accepts it, given memory and an open gate |
| ClassifyRun.ComputedIsGood | rules/rule_store.c:549-551 | From a good snapshot the list is good again and is the map operation the store promises for the call |
| ClassifyRun.ViewStillWhilePending | rules/rule_store.c:111-117 | No lost update: between a writer's lock and its W no step of anyone moves the published view |
| ClassifyRun.CallStaysItself | rules/rule_store.c:111-117 | From its lock on, whatever else runs, as long as a call is pending the view has not moved and the writer's list is what this very call computes from the current snapshot |
| ClassifyRun.PendingHasItsCall | rules/rule_store.c:111-117 | On every schedule a pending writer is one call of that schedule, the one that took the lock, pending ever since, with the list it computes from the snapshot current now |
| ClassifyRun.CommitIsTheOperation | rules/rule_store.c:265-289 | On every schedule a W that publishes finds the store initialised and open and the runtime active, and performs, in one instant, the operation of the very call that took the lock, computed from the snapshot current at that instant |
| ClassifyRun.StepKeepsOk | rules/rule_store.c:243-289 | Every step of writers, readers, scans and shutdown keeps: what is published is good, and what is about to be published is good |
| ClassifyRun.PublishedIsGood | rules/rule_store.c:549-551 | On every schedule of writer calls, rollbacks, readers, scans and shutdown, every published snapshot is verdict-ordered, unique, validated and bounded; nothing is assumed of what callers ask |
| ClassifyRun.ClassifyDecidesByStrongest | rules/rule_engine.c:148-178 | End to end: whenever a classify call scans between its acquire and its release, its rule is the match of highest priority, strongest action and smallest id in the snapshot current at the acquire, or nothing matches there |
| BucketRun.CoveredIffNotLate | rules/rule_store.c:586-588 | Beside concurrent publishes and resets, an action keeps every bucket within the current ids (but for resets under way) iff it is not a late one: a reader creating a bucket for an id neither current nor still to be reset, or an install over a used table |
| BucketRun.CoveredIffNoneLate | rules/rule_store.c:218-238 | On every schedule: the buckets stay covered at every moment iff no action is late |
| BucketRun.LateIsDisplaced | rules/rule_engine.c:79-124 | Only a reader of a displaced snapshot can be late |
| BucketRun.NewIdStartsFresh | rules/rule_engine.c:126-128 | Then an id that a write brings in has no bucket |
| BucketRun.BucketIffResidue | rules/rule_engine.c:126-128 | On every schedule, shutdowns included, an id that is neither current nor to be reset has a bucket iff some action stranded one (a reader of a displaced snapshot created it, or the store closed over it) and no reset of that id has taken effect since |
| BucketRun.NewIdInheritsIff | rules/rule_engine.c:126-128 | So an id that a write brings in inherits a bucket iff there is such residue |
| BucketRun.LateReaderInherits | rules/rule_store.c:706-751 | A concrete schedule (acquire, delete, reset, evaluate, Replace reusing the id) after which the new rule inherits the old bucket |
| EventQueue.EnterKeepsInv | telemetry/event_queue.c:89-98 | The producer gate keeps the queue invariant (lock owner, one place a node, exact effects, exact counters) |
| EventQueue.CountKeepsInv | telemetry/event_queue.c:95-97 | Registering the producer keeps it |
| EventQueue.NoMemoryKeepsInv | telemetry/event_queue.c:148-153 | A failed allocation keeps it |
| EventQueue.RecheckKeepsInv | telemetry/event_queue.c:158-167 | The in-lock recheck keeps it: after Stop has read zero producers nobody passes it |
| EventQueue.LinkKeepsInv | telemetry/event_queue.c:168-180 | Linking or dropping the newest keeps it |
| EventQueue.LeaveKeepsInv | telemetry/event_queue.c:100-102 | Leaving keeps it |
| EventQueue.DropCounterKeepsInv | telemetry/event_queue.c:52-61 | Dropping in place: the counter |
| EventQueue.DropReferenceKeepsInv | telemetry/event_queue.c:62-63 | Dropping in place: the reference |
| EventQueue.CountDropKeepsInv | telemetry/event_queue.c:64 | Dropping in place: the statistic |
| EventQueue.CountOverflowKeepsInv | telemetry/event_queue.c:323-330 | Counting an overflow; the record path rereads the stop flag first |
| EventQueue.PopKeepsInv | telemetry/event_queue.c:67-77 | RemoveHeadList keeps it |
| EventQueue.FinishKeepsInv | telemetry/event_queue.c:43-50 | Consuming a node outside the lock keeps it |
| EventQueue.ConsumerKeepsInv | telemetry/event_queue.c:188-209 | Every step of the consumer thread keeps it |
| EventQueue.PollKeepsInv | telemetry/event_queue.c:273-279 | Reading the producer count as zero shuts every producer out of the list |
| EventQueue.DrainKeepsInv | telemetry/event_queue.c:240-253 | The fallback drain keeps it |
| EventQueue.NextKeepsInv | telemetry/event_queue.c:130-291 | Every step of producers, consumer, start and first stop keeps it |
| EventQueue.FifoWithinCapacity | telemetry/event_queue.c:168-180 | On every schedule: nodes are consumed in the order linked, none twice; pending is the list length and within capacity; overflows are drops |
| EventQueue.EffectsAtMostOnce | telemetry/event_queue.c:130-186 | An event's counter and reference are never released twice; both are exactly once when it is dropped or consumed; FALSE means never linked, TRUE linked once |
| EventQueue.NothingLostAfterStop | telemetry/event_queue.c:287-290 | After a stop that succeeded every finished event has had both effects exactly once and every accepted node was consumed |
| EventQueue.QuietConservation | telemetry/event_queue.c:181-185 | With no call in progress: calls = posted + dropped, and posted = consumed + in hand + pending |
| EventQueue.GatedStays | telemetry/event_queue.c:17-28 | After the zero-producer read no step links |
| EventQueue.NoLinkOnceGated | telemetry/event_queue.c:271-279 | Once Stop has read producers == 0 no node is ever linked again |
| EventQueue.StopIsFinal | telemetry/event_queue.c:255-291 | A first stop that reaches the end of its drain returns success; then no consumer runs, the list is empty, and no continuation, another start included, changes that |
| EventQueue.LinkAppendsIff | telemetry/event_queue.c:168-180 | A call past its recheck links its node iff the queue is unbounded or shorter than its capacity |
| EventQueue.OverflowMetFull | telemetry/event_queue.c:168-177 | On every schedule a call that overflows met, at its link, a list as long as the capacity |
| EventQueue.OverflowCountedIff | telemetry/event_queue.c:323-330 | An overflow is counted unless the record path finds the stop flag set on rereading it |
| EventQueue.PostAlone | telemetry/event_queue.c:130-186 | One call run alone, with memory, from any state with the lock free and no stop: TRUE with its node at the end of the list iff there is room; on a full queue FALSE, balanced, counted as a drop and an overflow |
| EventQueue.PostWithoutMemory | telemetry/event_queue.c:148-153 | Without memory FALSE, balanced, counted as a drop only |
| EventQueue.PostAfterFlag | telemetry/event_queue.c:139-143 | Once the stop flag is set FALSE, balanced, never registered |
| EventQueue.ConsumerExits | telemetry/event_queue.c:188-209 | With the stop flag set and no producer in the lock, the consumer left to run consumes what is listed and exits within an explicit number of steps, however many doorbell signals are still to come |
| EventQueue.LinkAfterFlagIff | telemetry/event_queue.c:29-32 | With the stop flag set, a node can still be linked iff a call is past its recheck, in the lock, and the queue has room: the exact condition under which the comment's invariant holds |
| EventQueue.OneLinkAfterFlag | telemetry/event_queue.c:29-32 | And then it is one node at most, that of the call which was past its recheck when the flag was set |
| EventQueue.ConsumerMayLeaveANode | telemetry/event_queue.c:29-32 | A concrete run against the comment: the flag is set between recheck and link, the consumer exits leaving a node, and the final drain takes it |
| EventRing.Ring.constructor | telemetry/event_queue.c:352-356 | The ring starts zeroed with an empty history |
| EventRing.Ring.Sink | telemetry/event_queue.c:358-369 | Appends a record of 1 to 80 bytes to the history and writes its row; other sizes change nothing |
| EventRing.Ring.Flush | telemetry/event_queue.c:401-419 | Returns min(written, 1024, max) records, the last ones in write order, as their rows stand; a bad record size returns none |
| EventRing.Ring.CopyRows | telemetry/event_queue.c:412-416 | The wrapping copy loop delivers exactly those rows |
| EventRing.RowStays | telemetry/event_queue.c:364-367 | A row is not overwritten for the next 1023 records, over any number of laps |
| EventRing.WrittenByte | telemetry/event_queue.c:364-365 | Each byte of a row is the one the history last wrote at that place, 1024 records apart, or the initial zero |
| EventRing.WrittenIs | telemetry/event_queue.c:364-365 | A record is exact in its own bytes; behind them lies what the history last wrote there |
| EventRing.ShownIffCleanTails | telemetry/event_queue.c:411-416 | A flush equals the zero-extended unbounded log iff, behind every short record shown, the history of records last left zeros |
| EventRing.FullRecordsExact | telemetry/event_queue.c:411-416 | Records at least as long as the size asked for come back exactly |
| EventRing.ShortRecordShowsOldBytes | telemetry/event_queue.c:364-365 | A concrete short record shows bytes of the record it overwrote |
| WireCodec.RuleRoundTrip | rules/rule_types.h:55-82 | Decoding the 176-byte structure undoes encoding, field by field |
| WireCodec.DecodeLosesOnlyPadding | rules/rule_types.h:55-82 | Two blocks decode to the same rule iff they agree outside the six padding bytes |
| WireCodec.RuleOffsets | rules/rule_types.h:55-82 | The members of SK_RULE at their natural alignment: offsets 0, 8, 48, 72, 88, 120, 122 and 156, size 176 |
| WireCodec.QuadsAt | rules/rule_types.h:56-69 | Id, application id and window are the little-endian numbers at their offsets |
| WireCodec.HeadAt | rules/rule_types.h:57-66 | So are the ten words from priority to processId |
| WireCodec.PortsAt | rules/rule_types.h:70-71 | So are the four ports |
| WireCodec.BytesAt | rules/rule_types.h:72-76 | Addresses, prefixes and user id are the bytes at theirs |
| WireCodec.RateAt | rules/rule_types.h:77-81 | The user length and the token parameters are the words at theirs |
| WireWalk.WireTail | control/protocol.h:88-93 | pathChars and pathOffset are the words behind the rule, at their natural alignment |
| WireWalk.PathAt | control/ioctl.c:228-231 | Code unit i of a path is bytes 2i and 2i + 1, low byte first |
| WireWalk.HeaderSays | control/protocol.h:95-101 | A payload that reaches the store holds as many rules and bytes as the words at offsets 0 and 4 say, and the version at offset 8 is the expected one |
| WireWalk.ValidateFindsTheWire | control/ioctl.c:195-218 | The check accepts exactly the areas that start with a well-formed wire, and returns its length |
| WireWalk.NormalizedMask | control/ioctl.c:223-233 | The application bit is decided by the path alone and no other known mask bit changes |
| WireWalk.NormalizedIsHashed | control/ioctl.c:223-233 | A rule from the control plane names no application id but the hash of a path |
| WireWalk.ConvertWire | control/ioctl.c:223-233 | The converted rule is the decoded one with appId and mask normalised by the path |
| WireWalk.WireRoundTrip | control/ioctl.c:195-233 | A rule encoded with its path is well formed and converts back to its normal form |
| WireWalk.ParseIff | control/ioctl.c:395-408 | The walk finds a list of wires iff the area is exactly those wires end to end: none missing, none left over, no second reading |
| WireWalk.Walk | control/ioctl.c:394-408 | The cursor loop succeeds exactly then and fills one converted rule a wire, reading inside the area only |
| WireWalk.PayloadAccepted | control/ioctl.c:373-409 | Every payload laid out as the protocol says is accepted for what it says; the early size test refuses none of them |
| WireWalk.OnlyPayloadsAccepted | control/protocol.h:95-101 | No other payload reaches the store |
| WireWalk.ReplaceRoundTrip | control/ioctl.c:373-413 | Sending rules with paths delivers exactly those rules, normalised, in order |
| WireWalk.ReadRules | control/ioctl.c:379-408 | Everything is parsed before the store is called; the exact refusal otherwise |
| WireWalk.ReplaceRuleset | control/ioctl.c:373-418 | Exact status; a refused payload or a failed publish leaves rules, policy, version and buckets unchanged; success publishes the parsed set |
| WireWalk.AddOrUpdate | control/ioctl.c:288-301 | The payload must be exactly one wire; the store's status passes through |
| ControlConsumer.NextKeepsInv | control/ioctl.c:683-712 | Every step of arrivals, consumer and Quiesce keeps: one owner a request, no lost wakeup, purge only after exit |
| ControlConsumer.CompletedAtMostOnce | control/ioctl.c:666-681 | No request is completed twice and none vanishes: an uncompleted one is queued or in the consumer's hand, never both |
| ControlConsumer.AfterPurgeAllCompleted | control/ioctl.c:749-773 | After join and purge every request that ever arrives is completed exactly once, on every continuation |
| ControlConsumer.PurgeOnlyAfterExit | control/ioctl.c:758-773 | The purge never runs beside a consumer |
| ControlConsumer.BlockedHasNothingToDo | control/ioctl.c:105-113 | A consumer blocked in the wait has an empty queue or a notification still to run, and need not stop unless Quiesce is between its flag and its signal |
| ControlConsumer.RefusesOnceStopped | control/ioctl.c:689-704 | A retrieved request is refused exactly when the stop flag is set as the consumer reads it, and completed either way |
| ControlConsumer.ConsumerExits | control/ioctl.c:689-711 | Once stop is signalled the consumer, left to run, finishes what it holds and what is queued and exits, within an explicit number of steps |
| ControlDispatch.FunctionOfCode | control/protocol.h:27-30 | The function number read back from a control code is the one it was built with |
| ControlDispatch.Dispatch | control/ioctl.c:471-621 | On every path the request is completed exactly once, with the first refusal in the locked order of checks or with the handler's answer; a modifying command never runs unprivileged |
| ControlDispatch.Serve | control/ioctl.c:689-704 | A retrieved request is completed exactly once, dispatched or refused because of the stop |
| ControlCommands.Delete | control/ioctl.c:303-309 | Exactly one 8-byte id; the store's status passes through; success removes that id and its bucket |
| ControlCommands.SetPolicy | control/ioctl.c:420-428 | Exactly one word, PERMIT or BLOCK; the store's status passes through |
| ControlCommands.Execute | control/ioctl.c:154-166 | The privileged commands are exactly those that can change the store: it changes iff one of them succeeds, by one version; the others leave it alone |
| ControlCommands.Handle | control/ioctl.c:471-621 | One request through checks and handler: the store changes only for a privileged one with the gate open and the runtime active, iff its command is one of those and succeeds; it is completed once on every path |
| Telemetry.SinkAll | telemetry/event_queue.c:358-369 | Consuming a run of nodes appends exactly their records to the ring's history, in order; nodes without a record add nothing |
| Telemetry.HistoryIsLinkOrder | telemetry/event_queue.c:188-209 | On every schedule the records of the consumed nodes are the first ones linked, in that order, short of those still queued; after a successful stop, short of none |
| Telemetry.FlushShowsLinkOrder | telemetry/event_queue.c:401-419 | For the records the classify path posts, the flush of that history is its newest records in link order |
| Telemetry.SinkStep | telemetry/event_queue.c:43-65 | One step of the queue beside its ring: the sink gets the record of a consumed node, nothing of a dropped one, and the ring's history stays the records of the nodes consumed |
| Telemetry.Play | telemetry/event_queue.c:188-209 | A whole schedule of the queue beside its ring: the ring's history is the records of the nodes consumed, in link order |
| Telemetry.PlayAndFlush | telemetry/event_queue.c:401-419 | End to end on the ring itself: after any schedule a flush returns, byte for byte, the newest consumed records in the order they were linked; after a successful stop, the newest of all that were linked |
| RuntimeState.FirstCauseAppend | runtime/runtime.c:297-304 | Appending a cause never changes an existing first cause |
| RuntimeState.Runtime.constructor | runtime/runtime.c:255-263 | Initial state |
| RuntimeState.Runtime.Activate | runtime/runtime.c:265-270 | Activates only from Uninitialized, forgetting causes recorded before; any other state is kept |
| RuntimeState.Runtime.BeginTeardown | runtime/runtime.c:288-295 | Active becomes Teardown; refused in Quiescent and UnloadBlocked |
| RuntimeState.Runtime.RecordBlock | runtime/runtime.c:297-304 | Appends to the history, sixteen kept in order, the first cause fixed |
| RuntimeState.Runtime.EnterUnloadBlocked | runtime/runtime.c:319-325 | Records and blocks |
| RuntimeState.Runtime.ReportUnderflow | runtime/runtime.c:377-382 | Uninterrupted, records and blocks exactly when an unload is draining |
| RuntimeState.Runtime.ReportTest | runtime/runtime.c:378-380 | Up to its test a report records its cause, and goes on to write exactly when it read Teardown |
| RuntimeState.Runtime.ReportWrite | runtime/runtime.c:381 | The write of a report that read Teardown blocks the runtime whatever the state is by then |
| RuntimeState.Runtime.Interfere | runtime/runtime.c:377-382 | Any mix of tests and writes of any number of reports: the state and the reports under way afterwards, and the first cause |
| RuntimeState.BlocksIff | runtime/runtime.c:377-382 | Such a mix blocks the runtime iff it contains the write of a report that read Teardown, and changes the state in no other way |
| RuntimeState.QuietOutsideTeardown | runtime/runtime.c:377-382 | Where nothing is draining and no report is under way, none can block |
| RuntimeState.Runtime.EnterQuiescent | runtime/runtime.c:314-317 | Teardown becomes Quiescent; whatever reports wrote between the test and the write is overwritten |
| RuntimeState.Runtime.HistoryAt | runtime/runtime.c:308-312 | The i-th cause ever recorded, if among the first sixteen, else none |
| RuntimeState.Runtime.RecordIfNone | runtime/lifecycle.c:86-89 | Adds a fallback cause only when there is none |
| Lifecycle.Driver.constructor | driver/driver.c:50-75 | The state at the end of a successful device creation |
| Lifecycle.Driver.Ask | runtime/lifecycle.c:162-191 | One subsystem's quiesce: the answer is traced; the first cause becomes another thread's report, the part's own, or its fallback, in that order, and only if there was none; the state moves exactly as the tests and writes of reports move it |
| Lifecycle.Driver.AskBfe | runtime/lifecycle.c:116-134 | A failed unsubscribe keeps the handle and fails; otherwise the callbacks must drain |
| Lifecycle.Driver.Quiesce | runtime/lifecycle.c:158-200 | All eight parts are asked in order whatever the earlier ones answered; TRUE iff all stopped; the block reason is the first cause in that order |
| Lifecycle.Driver.Shutdown | rules/rule_store.c:392-486 | Idempotent once closed, refused when blocked at its test, blocking with RundownStuck, unless there was a cause already, when snapshots are stuck; a report that writes after the test does not stop it |
| Lifecycle.Driver.DeleteDevice | driver/device.c:187-194 | Deletes the device once |
| Lifecycle.Driver.ControlDestroy | control/ioctl.c:784-791 | Deletes the device only if the control plane had been started |
| Lifecycle.Driver.Destroy | runtime/lifecycle.c:209-229 | Refused unless quiescent or never active; frees in order; stuck snapshots, or a report that blocks before the store's own test, end it before the device and keep the scene |
| Lifecycle.Driver.StopStarted | runtime/lifecycle.c:242-260 | Rollback asks WFP always and the completed steps only; TRUE iff all of those stopped |
| Lifecycle.Driver.FreeStarted | runtime/lifecycle.c:263-292 | Frees what was started, device last, or stops at stuck snapshots |
| Lifecycle.Driver.Rollback | runtime/lifecycle.c:236-292 | TRUE iff everything asked stopped and the snapshots were freed, and then exactly the started parts were freed; after a failed stop nothing is freed and the first failing part gives the reason |
| Lifecycle.Driver.RunSteps | runtime/lifecycle.c:311-366 | The steps run in order up to the first that fails, and exactly the completed ones are marked |
| Lifecycle.Driver.Start | runtime/lifecycle.c:303-381 | Started iff every step succeeds, the eight written out; else rolled back, device gone, iff the rollback succeeds; else blocked and the device kept, with the first cause in the order asked |
| Lifecycle.Driver.QuiesceFirst | runtime/runtime.c:338-349 | The unload up to its check: whatever the reports of other threads do, what the check reads |
| Lifecycle.Driver.FinishUnload | runtime/runtime.c:357-374 | From the check on: who is blocked at the end, whether the device goes, what was freed and the first cause, for every placement of the tests and writes of reports |
| Lifecycle.Driver.RunUnload | runtime/runtime.c:338-374 | For every placement of the tests and writes of any number of underflow reports: the exact condition under which the unload returns, the exact condition under which the device goes, what was done in order, and the first cause |
| Lifecycle.GoesWhen | runtime/runtime.c:347-369 | Those conditions against the states read at the check, at EnterQuiescent and at the destroy |
| Lifecycle.Driver.RunBlocked | runtime/runtime.c:319-325 | Over any sequence of calls UNLOAD_BLOCKED is absorbing, keeps its first cause, refuses every unload and frees nothing |
| Lifecycle.StopsFail | runtime/lifecycle.c:244-262 | A rollback's stops add a failure to the trace iff one of them failed, and free nothing |
| Lifecycle.QuiesceAsksAll | runtime/lifecycle.c:158-203 | The eight parts of quiesce in their order, each with its own answer |
| Lifecycle.QuiesceReason | runtime/lifecycle.c:158-203 | Without reports and own causes the block reason is that of the first part, in the order asked, that did not stop |
| Lifecycle.RollbackReason | runtime/lifecycle.c:236-261 | The same for a rollback, in its reverse order |
| Lifecycle.DestroyFreesAll | runtime/lifecycle.c:212-228 | A destroy frees pools and flow table, the snapshots if the store is there and the device if it is, each once |
| Lifecycle.RollbackFreesStarted | runtime/lifecycle.c:263-272 | A rollback frees exactly what the completed steps made |
| Lifecycle.QuiesceActsFail | runtime/lifecycle.c:158-200 | The same for the eight parts of quiesce |
| Lifecycle.LoseReportInWindow | runtime/runtime.c:314-317 | A concrete run: an underflow report in the window of EnterQuiescent is lost and the unload returns |
| Lifecycle.BlockWithoutDevice | runtime/runtime.c:363-374 | A concrete run: a report reads Teardown before the check and writes after the destroy; the unload parks for ever, and the device is gone |
| Lifecycle.BlockAfterReturn | runtime/runtime.c:363-382 | A concrete run: the same report writes after the last check; the unload has returned and the runtime becomes blocked |

## Left out

- SnapshotProtocol.NoUseAfterFree: the retire, drained and stuck lists are sets, because only membership matters for safety; linking a node that is already linked is a fault of the model, list order and pointer surgery are not modelled.
- SnapshotProtocol.ShutdownReport: how many polls a drain makes and how long it sleeps are not modelled; a timeout may come after any poll that still saw readers.
- RuleStore.Store.Classify: one classify call is atomic against the writers here; the interleaved forms are ClassifyRun.ClassifyDecidesByStrongest for the deciding rule and BucketRun.BucketIffResidue for the buckets.
- RuleStore.Store.Shutdown: the stops and retire links of that section are in SnapshotProtocol.ShutSwapKeepsInv; it keeps the rate table, as the source does, so the bucket-subset property is not claimed across a reinitialised store.
- RateTable.RunBound: parameters of the rule are fixed over the run, as in SharedBound; an update keeps the bucket while the burst may shrink.
- Rundown.RundownObject.Drain: called without interference; the concurrent statement is Rundown.DrainedForever.
- EventQueue.StopIsFinal: the first stop only; a second stop after a timed-out one finds the thread object already taken.
- EventQueue.FifoWithinCapacity: the doorbell is an arbitrary answer of the wait, so how soon a node is consumed is claimed only for a consumer that runs alone (EventQueue.ConsumerExits).
- EventQueue.EffectsAtMostOnce: about calls on an initialised queue; a record refused for its size before the gate, and a post to an uninitialised queue, have no node and are not modelled.
- EventRing.Ring.Sink: the stored record sizes are written by the source and never read, so they are not modelled.
- EventRing.Ring.Flush: the kernel output buffer is the returned byte sequence; placing it at offsets of the caller's buffer is not modelled.
- WireWalk.Walk: the cursor and the remaining count are one slice of the payload; alignment of the mapped structures is not modelled.
- ControlConsumer.CompletedAtMostOnce: serving one request is one step here; that the dispatch routine completes it once on each of its paths is ControlDispatch.Dispatch.
- ControlDispatch.Dispatch: the command handlers are answers here; those that write rules run in ControlCommands.Handle, and the handlers of queries, statistics and the flush stay answers there.
- Rundown.RepairWorksIff: for fewer than 2^30 releases in one window.
- RuntimeState.Runtime.RecordBlock: one call is atomic; two threads recording at once may each see no first cause.
- Lifecycle.Driver.Rollback: underflow reports during start and rollback are not interleaved; they only add causes there (RuntimeState.QuietOutsideTeardown).
- The BFE state-change callback, deferred WFP installation and WFP object registration and teardown: mostly answers of foreign calls.
- The flow-context table under concurrency, classify entry points, field extraction and the action-write right.
- Privilege decision, header checks and output formatting of each control command: one branch settles each.
- Enumeration and lookup of rules: read-only walks under the store lock.
- Timing statistics, diagnostic strings, IRQL rules and address formatting.
