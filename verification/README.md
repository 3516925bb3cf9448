# A verified model of the i3X wrapper for OPC UA

This project models, in Dafny, the bookkeeping at the heart of a server that shows OPC UA address spaces through
the i3X interface, and proves what that bookkeeping keeps. The OPC UA server itself is an abstract source of
answers: it may page, starve, fail and raise in any pattern its protocol allows.

| file | what it models |
|---|---|
| `Neutral.dfy`, `Samples.dfy`, `Json.dfy` | the neutral records, samples, text helpers, JSON values and Variant stripping |
| `AddressWalk.dfy`, `WalkCoverage.dfy`, `WalkRecords.dfy` | the breadth-first walk with adaptive batches, against a one-parent-at-a-time walk, against reachability, and against the server's references |
| `BrowsePaging.dfy`, `Browse.dfy` | continuation points, solo retries, health counters, metadata; and the walk over that source |
| `WireIds.dfy`, `ElementIds.dfy`, `Registries.dfy`, `StampedRegistry.dfy` | readable ids, canonical NodeIds, the snapshot registries, and a stamped browse in the registry end to end |
| `Subscriptions.dfy`, `SyncClient.dfy` | rings, numbering, fan-out, stream queues, and the client's cursor |
| `Interest.dfy`, `PendingInterest.dfy` | interest counts behind the subscription routes, with requests one after another and with requests overlapping at their awaits |
| `MonitoredTiers.dfy`, `TierCalls.dfy`, `TierRestore.dfy`, `TierExamples.dfy` | monitored items per interval and reconnect, with calls undisturbed and with calls overlapping at their awaits |
| `VariantCodec.dfy` | the reversible JSON encoding of section 5.4 of OPC UA Part 6, with a decoder written here |
| `Composition.dfy`, `CompositionKeys.dfy`, `History.dfy`, `Values.dfy` | composition leaves, on snapshots keyed as the walk expects and on others, recent samples, the three-phase value request |
| `ArtificialTypes.dfy` | synthetic types collected at browse time and named at read time |
| `Connection.dfy` | start, stop, loss and reconnect as a state machine over the await points |

`dafny verify dfyconfig.toml` checks the whole project. Loops and objects of the source are methods and classes
here, each proved against a function of its inputs or old state; the lemmas are about those functions. Maps that
the source fills in insertion order are `Dict` where the order shows.

## Where the code and its promises part

Where a promise fails, a lemma gives the exact condition under which it holds. The last column names a lemma with a
failing input. Where a removal ends an interval while other calls are under way, or a session is lost with an answer
in hand, later calls may still undo the harm; there `TierCalls.CarefulRunIsTrue` gives the safe direction, and
`TierExamples.RemovalCutsOff` and `TierExamples.LateAnswerIsSkipped` show the harm.

| what fails | holds exactly when | failing input |
|---|---|---|
| a path is the join of the non-empty names | `WireIds.PathSkipsEmptyNamesIff` | `StampedRegistry.UnnamedNodeKeepsDot`: `A` above an unnamed node gives `A.` |
| stamped wire ids differ | `WireIds.DistinctIffNoClash` | `WireIds.ClashExample` |
| the registry keeps every node | `Registries.ReconcileKeepsAllIff`, `StampedRegistry.StampedKeptIff` | `StampedRegistry.ClashLosesNode` |
| `children_of` finds a node's children | `Registries.ChildrenFoundIff`, `StampedRegistry.ChildrenAfterReconcile` | `StampedRegistry.DefaultRootFindsNoChild`: the default browse root `ns=0;i=85` |
| canonicalization is idempotent | `ElementIds.CanonicalizeIdempotentIff` | `ElementIds.CanonicalizeTwiceExample` |
| interest counts are the holders, whatever ids are registered | `Interest.RegisterAgreesIff`, `Interest.UnregisterAgreesIff` | `Interest.RepeatBreaksCount`, a repeated id; `Interest.UnsettledId`: `ns=0;ns=0;i=5` |
| interest counts survive overlapping requests | `PendingInterest.OverlapAgreesIff` | `PendingInterest.OvertakenStaysCounted` |
| buckets are the server's live items, calls undisturbed | `MonitoredTiers.AddValidIff`, `MonitoredTiers.RunValidIff` | `MonitoredTiers.RepeatLeaksItem` |
| buckets are the server's live items, adds overlapping | `TierCalls.OverlapTrueIff` | `TierExamples.OverlapLeaksItem`, `TierExamples.SecondCreateOrphans` |
| a loss leaves no bookkeeping behind | `TierRestore.LossLeavesBlankIff` | `TierExamples.LateAnswerIsSkipped` |
| an unregistration leaves other clients served (the binding does not use `SubscriptionSession`) | `MonitoredTiers.RemoveServesIff`, `MonitoredTiers.UnregisterServesIff` | `MonitoredTiers.SharedNodeIsDropped` |
| a sync returns what the stream missed (both share the client's cursor) | `SyncClient.SharedCursorSkipsIff` | `SyncClient.GapIsSkipped` |
| stripping is idempotent | `Json.StripIdempotentIff`, `VariantCodec.StripVariantTwiceIff` | `VariantCodec.WrappedStripsTwice` |
| the encoding is reversible | `VariantCodec.ReversibleIff` | `VariantCodec.EmptyLocaleIsLost` |
| a composition returns its Variables under their keys | `CompositionKeys.ReturnedIff`, `CompositionKeys.ReturnedIffOwnWay` | `Composition.StampedVariableIsLost` |
| browsing and reading agree about a swap | `ArtificialTypes.DecisionsAgreeIff` | `ArtificialTypes.HiddenParentExample` |
| a swapped instance names a registered type | `ArtificialTypes.SwappedIsRegisteredIff` | `ArtificialTypes.MarkedNameExample` |
| a lost connection is rebuilt | `Connection.IdleIffMissed` | `Connection.LossInHookOrphans` |
| the client held is alive | `Connection.HeldClientLostIff` | `Connection.LossWhileLoadingIsHeld` |

Further remarks on the code:

- A retry that stays starved is logged as a partial result kept, yet what a result that is not Good carries comes to
  nothing (`BrowsePaging.PartialIsDropped`).
- A Browse call that raises, an answer with fewer results than parents and a failed Read lose children or attributes
  without moving a failure counter; `Browse.BrowseInstances` names the requests of a run that did.
- The client's sync hands over the items of an answer only, so what the server said about dropped ones does not reach
  its caller (`SyncClient.I3XClient.Sync`).
- A negative `maxDepth` means no limit, as 0 does (`Composition.LeavesExact`).

## Model

| member | source | states |
|---|---|---|
| `AddressWalk.BatchRefinesBfs` | src/i3xua/adapters/asyncua/browse.py:546-612 | Browsing any number of queued parents in one request leaves the one-parent-at-a-time walk with the same final result: same emitted sequence, same visited set, same expansion order; and it leaves strictly less to do |
| `AddressWalk.BatchPeels` | src/i3xua/adapters/asyncua/browse.py:562-612 | One batch of k parents is one single-parent step followed by a batch of k - 1, in the state that step leaves |
| `AddressWalk.VisitAllFrame` | src/i3xua/adapters/asyncua/browse.py:570-612 | Meeting references neither reads nor disturbs what was queued before: old entries stay at the front, new ones follow in order |
| `AddressWalk.ExpandWorks` | src/i3xua/adapters/asyncua/browse.py:546-612 | On a finite graph, cycles included, each expansion shrinks what is left, so the walk ends |
| `AddressWalk.AdaptiveBatchSize` | src/i3xua/adapters/asyncua/browse.py:431-453 | The batch size is the largest that the queue, the parent cap and the planned payload (size x 2 x max(1, mean)) allow, but at least 1 while there is work |
| `AddressWalk.FloorFits` | src/i3xua/adapters/asyncua/browse.py:431-453 | The integer quotient used for the payload budget is exact: n parents fit iff n is at most the floor of budget / share |
| `AddressWalk.TakeBatch` | src/i3xua/adapters/asyncua/browse.py:548-565 | The batch and the rest are the queue cut in two; every nonempty batch keeps both budgets; it is empty only for an empty queue or a parent cap below 1 |
| `AddressWalk.BootstrapRoots` | src/i3xua/adapters/asyncua/browse.py:507-544 | The loop over the roots leaves the state that meeting the readable roots in order leaves |
| `AddressWalk.MeetChildren` | src/i3xua/adapters/asyncua/browse.py:570-612 | The loop over the returned children leaves the state that meeting them one by one leaves |
| `WalkCoverage.ExactCoverage` | src/i3xua/adapters/asyncua/browse.py:499-612 | Emitted: exactly the admitted nodes reachable from the roots through browseable nodes, each once. Browsed: exactly the browseable reachable nodes, each once. The allowlist filters output, not descent |
| `WalkCoverage.ParentsPrecedeChildren` | src/i3xua/adapters/asyncua/browse.py:570-612 | Without an allowlist every parent is emitted before its children and the parent chain of every emitted node ends at a root |
| `WalkCoverage.ChainEndsAtRoot` | src/i3xua/adapters/asyncua/browse.py:570-612 | In any list that has parents first, following parents ends at a node without parent |
| `WalkCoverage.BfsKeepsInv` | src/i3xua/adapters/asyncua/browse.py:546-612 | From any sound state the finished walk is sound, has browsed everything it queued and has met all their targets |
| `WalkCoverage.ReachableIsVisited` | src/i3xua/adapters/asyncua/browse.py:546-612 | Once nothing is queued, the end of every path from a root through browseable nodes has been visited |
| `BrowsePaging.AbsorbKeepsTargets` | src/i3xua/adapters/asyncua/upstream.py:352-389 | Each page taken moves its continuation point strictly forward while all other results stay due where they were, so draining ends |
| `BrowsePaging.AbsorbKeepsDrained` | src/i3xua/adapters/asyncua/upstream.py:352-389 | A Good page appended to its own result keeps every Good result equal to a true prefix of its reference list, complete once nothing is pending; no mixing across parents |
| `BrowsePaging.TakeAllKeepsSound` | src/i3xua/adapters/asyncua/upstream.py:352-389 | A whole BrowseNext round keeps the above for every result and leaves strictly fewer pages |
| `BrowsePaging.BrowseSource.FollowContinuations` | src/i3xua/adapters/asyncua/upstream.py:342-389 | Ends on every lawful server; if no BrowseNext answer was starved or bad, each Good result holds its complete reference list in page order; statuses never change |
| `BrowsePaging.BrowseSource.BrowseAlone` | src/i3xua/adapters/asyncua/upstream.py:408-430 | One solo retry counts as recovered or unrecoverable, never both; a clean Good one is complete |
| `BrowsePaging.BrowseSource.RetryStarved` | src/i3xua/adapters/asyncua/upstream.py:391-430 | If nothing raises, recovered + unrecoverable = starved; results that were not starved are untouched; if no failure counter moved, every retried Good result is complete |
| `BrowsePaging.BrowseSource.DecodeMetadata` | src/i3xua/adapters/asyncua/upstream.py:128-168 | The flat answers of one Read are regrouped so that each Variable gets exactly its own attributes |
| `BrowsePaging.BrowseSource.ReadMetadata` | src/i3xua/adapters/asyncua/upstream.py:608-644 | All Variables among the children get their own data attributes, or none do when the Read fails |
| `BrowsePaging.AllGoodIsTrue` | src/i3xua/adapters/asyncua/upstream.py:556-606 | When no parent is counted bad, the children are the true references of the parents in batch order |
| `BrowsePaging.TrueChildrenIsFlatten` | src/i3xua/adapters/asyncua/upstream.py:556-606 | A faultless batch answer is the per-parent child lists concatenated in batch order, as the walk refinement assumes |
| `BrowsePaging.BrowseSource.Complete` | src/i3xua/adapters/asyncua/upstream.py:548-549 | Draining and retrying together: if nothing raised and no counter moved, every Good result is complete |
| `BrowsePaging.BrowseSource.ReadChildren` | src/i3xua/adapters/asyncua/upstream.py:551-644 | Exactly a failed read of the namespaces raises; else the Good results become children, each with its own attributes or, after a failed Read, none |
| `BrowsePaging.PartialIsDropped` | src/i3xua/adapters/asyncua/upstream.py:556-564 | The references of a result that is not Good make no difference to the children |
| `BrowsePaging.BrowseSource.BrowseChildren` | src/i3xua/adapters/asyncua/upstream.py:512-644 | If nothing raised and no failure counter moved, the children are exactly what the server holds below the answered parents, in order, each under its parent; an initial Browse that raises answers nothing and moves no counter; draining, retrying and reading the namespaces may raise |
| `Browse.BatchAdvances` | src/i3xua/adapters/asyncua/browse.py:546-612 | A batch with faultless children advances the walk exactly as its parents one by one would; any batch leaves less to do |
| `Browse.BrowseInstances` | src/i3xua/adapters/asyncua/browse.py:468-631 | The walk ends on every finite server and keeps its budgets; if nothing raised, no failure counter moved and no request of this run was answered None, too short or with a failed Read, its nodes and its order of parents are those of the one-at-a-time walk of the server's true address space; up to the first such request it asks about the same parents in the same order |
| `Browse.BrowseQueue` | src/i3xua/adapters/asyncua/browse.py:546-612 | The same for the loop alone, from any bootstrapped queue |
| `Browse.LosesNothing` | src/i3xua/adapters/asyncua/browse.py:546-612 | A server that would lose something only on requests for other parents loses nothing in a run |
| `AddressWalk.BfsExpandsQueue` | src/i3xua/adapters/asyncua/browse.py:546-562 | What is queued is expanded next, in queue order |
| `Browse.CleanBrowseIsExact` | src/i3xua/adapters/asyncua/browse.py:499-631 | The nodes of a faultless browse are exactly the admitted reachable ones, each once, and exactly the Objects that have an emitted HasComponent child are compositions |
| `WalkRecords.WalkEmitsFirsts` | src/i3xua/adapters/asyncua/browse.py:507-631 | Without naming the walk's own steps: it browses the browseable nodes in the order of the first references to them, emits one record for the first reference to each admitted node in that order, each field being what that reference said, and marks as compositions exactly the Objects that such a reference leads from by HasComponent |
| `WalkRecords.RecordsAreTheServers` | src/i3xua/adapters/asyncua/upstream.py:556-639 | Each of these references is a root read without a parent, or a reference the server holds for the parent: same id, name, class, namespace, type definition and relationship; a Variable's data type, rank and access level are its first, second and fourth attribute |
| `WalkRecords.FirstsExact` | src/i3xua/adapters/asyncua/browse.py:568-573 | The first references are those that none to the same node precedes |
| `WireIds.StampWireNodeIds` | src/i3xua/adapters/asyncua/browse.py:202-246 | The loop computes the stamping function |
| `WireIds.StampingAssigns` | src/i3xua/adapters/asyncua/browse.py:220-245 | The stamped ids are what first-come disambiguation of the wished ids hands out |
| `WireIds.StampedByForm` | src/i3xua/adapters/asyncua/browse.py:220-245 | A node whose NodeId spells `i=` or `ns=`…`;i=` and digits asks for its path if it has one, any other for its NodeId; it gets that, or that with `#` and its NodeId when the id is taken |
| `WireIds.IsNumericIff` | src/i3xua/adapters/asyncua/browse.py:199-221 | A NodeId counts as numeric iff it spells `i=` and digits, or `ns=`, digits, `;i=` and digits, up to one line break |
| `WireIds.DistinctIffNoClash` | src/i3xua/adapters/asyncua/browse.py:220-245 | For distinct NodeIds without `#`, stamped ids are pairwise distinct iff no node whose wish is taken has its marked form wished by an earlier node |
| `WireIds.DistinctWithoutMarkedPaths` | src/i3xua/adapters/asyncua/browse.py:220-245 | In particular when no display path ends in `#` and a NodeId of the batch |
| `WireIds.ClashExample` | src/i3xua/adapters/asyncua/browse.py:220-245 | Three numeric nodes named `x#i=3`, `x`, `x` do get a repeated wire id |
| `WireIds.PathIsJoin` | src/i3xua/adapters/asyncua/browse.py:220-236 | A path is the dot-join of the names below the root without the empty ones at the front |
| `WireIds.PathSkipsEmptyNamesIff` | src/i3xua/adapters/asyncua/browse.py:220-236 | It is the dot-join of all non-empty names iff no empty name follows a non-empty one |
| `WireIds.WireRoundTripIff` | src/i3xua/adapters/asyncua/upstream.py:1264-1265 | Every raw id comes back from its wire id iff the wire ids are distinct |
| `WireIds.MapsRememberLast` | src/i3xua/adapters/asyncua/browse.py:220-245 | While stamping, a parent is looked up as the last node of that id stamped before |
| `ElementIds.CanonicalizeIdempotentIff` | src/i3xua/core/neutral.py:40-60 | Canonicalizing twice changes nothing more iff dropping `ns=0;` does not uncover another prefix that changes |
| `ElementIds.CanonicalizeTwiceExample` | src/i3xua/core/neutral.py:40-60 | `ns=0;ns=0;i=5` is canonicalized to something that canonicalizes further |
| `ElementIds.CanonicalizeShows` | src/i3xua/core/neutral.py:40-60 | Namespace index 0 goes, any other is written in plain decimals, the rest stays |
| `ElementIds.CanonicalizeKeeps` | src/i3xua/core/neutral.py:40-60 | A NodeId without `ns=`, an integer and `;` in front stays as it is |
| `StampedRegistry.StampedBatchIsKept` | src/i3xua/adapters/asyncua/upstream.py:1606-1609 | For distinct NodeIds without `#` and no path ending in `#` and a NodeId, the registry holds every stamped node under its own key beside all nodes of other connections and nothing else, and the raw and wire maps invert each other |
| `StampedRegistry.StampedKeptIff` | src/i3xua/adapters/asyncua/upstream.py:1606-1609 | Beside the nodes of other connections, the registry keeps every node of a stamped batch iff the wire ids differ |
| `StampedRegistry.SnapshotReplaces` | src/i3xua/adapters/asyncua/upstream.py:1606-1609 | A snapshot of one connection replaces exactly its own nodes in the registry |
| `StampedRegistry.ApplyInstances` | src/i3xua/adapters/asyncua/upstream.py:1606-1609 | The registry's new contents: the nodes of other connections in its order, then the new ones |
| `StampedRegistry.ClashLosesNode` | src/i3xua/core/registry.py:231-241 | Of three nodes that clash, a concrete batch, the registry loses one |
| `StampedRegistry.IndexInverts` | src/i3xua/adapters/asyncua/upstream.py:1264-1265 | Distinct wire ids make the two maps mutual inverses |
| `StampedRegistry.ChildrenAfterReconcile` | src/i3xua/core/registry.py:231-272 | After a stamped batch has entered the registry beside other connections, the nodes filed under a node's elementId are exactly its children, by the relationship asked for if one is, when canonicalization leaves its wire id alone, and none of its children otherwise |
| `StampedRegistry.ServedAreNodes` | src/i3xua/adapters/asyncua/upstream.py:1264-1330 | With the index made from a stamped batch, a tier that serves what is wanted monitors exactly the NodeIds of the nodes whose wire ids are wanted, and any wanted id that is no wire id |
| `StampedRegistry.DefaultRootFindsNoChild` | src/i3xua/adapters/asyncua/browse.py:98 | No child of the default root `ns=0;i=85` is ever found |
| `StampedRegistry.UnnamedNodeKeepsDot` | src/i3xua/adapters/asyncua/browse.py:220-236 | A named node above an unnamed one gives a path that ends in a dot |
| `ElementIds.IntTextRoundTrip` | src/i3xua/core/neutral.py:50-60 | The decimal text of every integer reads back as it |
| `ElementIds.ParseIntExactly` | src/i3xua/core/neutral.py:40-60 | A text is an integer when it is digits, or a sign and digits; a minus negates |
| `ElementIds.AsIdParsesIff` | src/i3xua/core/neutral.py:64-87 | An elementId parses back to its parts iff the connection has no `!` and the NodeId is canonical |
| `ElementIds.AsIdInjective` | src/i3xua/core/neutral.py:75-77 | Distinct refs of connections without `!` have distinct elementIds |
| `Registries.InstanceRegistry.Update` | src/i3xua/core/registry.py:108-123 | The new contents are the old ones without `removed` and with `added`; the diff partitions old and new keys; keys that stay keep their order and new ones follow in theirs |
| `Registries.InstanceRegistry.Reconcile` | src/i3xua/core/registry.py:231-241 | The contents become exactly the given nodes by wire id; the diff partitions old and new keys; keys that stay keep their order and new ones follow in theirs |
| `Registries.NotInKeepsOrder` | src/i3xua/core/registry.py:108-116 | Leaving out keys keeps the others in their places |
| `Registries.ReconcileKeepsAllIff` | src/i3xua/core/registry.py:231-241 | No node is lost iff no two of them share a key |
| `Registries.InstanceRegistry.ChildrenOf` | src/i3xua/core/registry.py:243-272 | The registered nodes filed under this element on its connection and relationship, in registry order; without an element those without parent; an error iff the id has no `!` |
| `Registries.FiledAreAll` | src/i3xua/core/registry.py:266-272 | Those are all the registered nodes so filed and no others |
| `Registries.FiledUnderParent` | src/i3xua/core/registry.py:243-272 | After stamping, a node is filed under a wire id iff that is its parent's |
| `Registries.ChildrenFoundIff` | src/i3xua/core/registry.py:243-272 | The children of a stamped node are found iff canonicalization leaves its wire id alone; then exactly they are |
| `Registries.TypeRegistry.GatherTypes` | src/i3xua/core/registry.py:185-203 | The loop over the descriptors keeps known entries and builds for the first descriptor of each new hash |
| `Registries.NewTypesExact` | src/i3xua/core/registry.py:185-203 | The builder runs exactly once for each hash that is new, and for nothing else |
| `Registries.RegisterExact` | src/i3xua/core/registry.py:185-203 | Known hashes keep their model, each new one gets the model built for it |
| `Registries.BySourceKeys` | src/i3xua/core/registry.py:185-203 | The source map's keys are exactly the given descriptors |
| `Registries.TypeRegistry.Reconcile` | src/i3xua/core/registry.py:179-214 | The source map is exactly the given descriptors, the hash map's keys exactly its image, known hashes keep their entry, new ones have the model built for them, the diff partitions old and new keys |
| `Json.StripFixedIffNaked` | src/i3xua/core/mapping.py:326-352 | Stripping leaves a value alone iff no Variant envelope stands at it or at any list position in it |
| `Json.StripIdempotentIff` | src/i3xua/core/mapping.py:326-352 | Stripping twice is stripping once iff no envelope, at it or at a list position, directly holds another |
| `Json.StripLeavesNoneIff` | src/i3xua/core/mapping.py:326-352 | Stripping leaves no envelope at any list position on the same condition |
| `Json.StripShows` | src/i3xua/core/mapping.py:326-352 | Stripping an object with type and body leaves the body; a list, bare or as a body, keeps its length and has each element stripped; anything else stays |
| `Subscriptions.RunTracks` | src/i3xua/core/subscriptions.py:62-186 | On every run, each subscription holds exactly what was registered; its ring is the last min(n, size) of its own log, numbered 1..n; `dropped` iff an eviction happened since the last sync |
| `Subscriptions.RingShowsLog` | src/i3xua/core/subscriptions.py:175-186 | On every run, field by field: the ring's items show id, quality, timestamp and stripped value of the last samples delivered, numbered by their place |
| `Subscriptions.QueuesShowLog` | src/i3xua/core/subscriptions.py:82-191 | The same for every item any queue took: it shows the sample of its number |
| `Subscriptions.QueuesWait` | src/i3xua/core/subscriptions.py:82-99 | On every run, what waits in a queue is the end of what it took and never more than its limit; one without limit refuses nothing |
| `Subscriptions.QueuesGiveOne` | src/i3xua/core/subscriptions.py:82-99 | What left a queue left one by one, no more than were asked for |
| `Subscriptions.PushReachesQueue` | src/i3xua/core/subscriptions.py:186-191 | A sample pushed joins the end of an attached queue iff that has room, and otherwise the queue keeps what it has and is marked full |
| `Subscriptions.Isolation` | src/i3xua/core/subscriptions.py:62-186 | Erasing every operation on other subscriptions changes nothing that a subscription holds, numbers or reports |
| `Subscriptions.RunHeard` | src/i3xua/core/subscriptions.py:82-99 | On every run, what an attached queue accepted is an in-order part of the log since it was attached, without gaps if it was never full |
| `Subscriptions.EveryQueueHeard` | src/i3xua/core/subscriptions.py:69-99 | On every run, what any queue accepted, detached or ended ones included, is an in-order part of the log from when it was attached to when it last was, without gaps if it was never full; the sentinel aside |
| `Subscriptions.RunClosed` | src/i3xua/core/subscriptions.py:69-80 | On every run, nothing follows the end sentinel in any queue |
| `Subscriptions.UnattachedStays` | src/i3xua/core/subscriptions.py:91-99 | A queue once detached is never fed again |
| `Subscriptions.RunWired` | src/i3xua/core/subscriptions.py:82-99 | Every queue feeds from at most one subscription and is listed once |
| `Subscriptions.FanStep` | src/i3xua/core/subscriptions.py:143-148 | Serving the subscriptions in any order brings each holder the sample once and touches no other |
| `Subscriptions.SubscriptionManager.CreateSubscription` | src/i3xua/core/subscriptions.py:62-67 | A new empty subscription, all else unchanged |
| `Subscriptions.SubscriptionManager.DeleteSubscription` | src/i3xua/core/subscriptions.py:69-80 | Every attached queue that has room ends with the sentinel, and the subscription is gone; returns what it held |
| `Subscriptions.SubscriptionManager.RegisterElements` | src/i3xua/core/subscriptions.py:101-109 | Adds the ids; returns those not held before in the order given |
| `Subscriptions.SubscriptionManager.UnregisterElements` | src/i3xua/core/subscriptions.py:111-117 | Removes the ids; returns those that were held in the order given |
| `Subscriptions.SubscriptionManager.AttachStream` | src/i3xua/core/subscriptions.py:82-89 | A new queue, fed from now on |
| `Subscriptions.SubscriptionManager.DetachStream` | src/i3xua/core/subscriptions.py:91-99 | The queue is fed no more; an unknown subscription is tolerated |
| `Subscriptions.SubscriptionManager.AppendLocked` | src/i3xua/core/subscriptions.py:175-191 | Numbers the sample, evicts the oldest of a full ring and sets `dropped`, offers the item to every queue |
| `Subscriptions.SubscriptionManager.PushSample` | src/i3xua/core/subscriptions.py:143-148 | Exactly the subscriptions that hold the element take the sample |
| `Subscriptions.SubscriptionManager.PushSampleTo` | src/i3xua/core/subscriptions.py:150-154 | Only the named subscription takes the sample |
| `Subscriptions.SubscriptionManager.SyncSubscription` | src/i3xua/core/subscriptions.py:156-167 | Returns the buffered items past the cursor and whether something was evicted, and clears that flag |
| `SyncClient.ClientCollectsLog` | src/i3xua/i3x/client.py:436-464 | Over every interleaving of pushes and syncs, the client's items are a strictly increasing in-order part of the log up to its last sync, and all of it unless some sync reported `dropped` |
| `SyncClient.ClientShowsLog` | src/i3xua/i3x/client.py:436-464 | Each item collected shows the sample of its number field by field; when no loss was reported, the k-th shows the k-th |
| `SyncClient.SyncDelivers` | src/i3xua/core/subscriptions.py:156-167 | A sync returns the log from the cursor on but for what the ring lost, and says `dropped` whenever it lost something the client lacks |
| `SyncClient.I3XClient.ParseStreamItems` | src/i3xua/i3x/client.py:446-464 | Hands every item on in order and moves this subscription's cursor to the highest number seen |
| `SyncClient.I3XClient.Sync` | src/i3xua/i3x/client.py:436-444 | Asks from the cursor on, returns the answer's items and moves the cursor to the highest of them; the dropped flag is left behind |
| `SyncClient.GapRecoveredIff` | src/i3xua/core/subscriptions.py:156-191 | On every run and for every queue, detached ones included: only a queue that was full misses an item, and one it missed after some entry is returned by a sync from that entry's number iff the ring still holds it |
| `SyncClient.NeverFullMissesNothing` | src/i3xua/core/subscriptions.py:188-191 | A queue that was never full misses nothing of its log |
| `SyncClient.SharedCursorSkipsIff` | src/i3xua/i3x/client.py:446-464 | This client's own sync returns a buffered item iff neither its cursor nor anything streamed has reached the item's number |
| `SyncClient.GapIsSkipped` | src/i3xua/i3x/client.py:446-464 | A queue of one and three samples: the missed second item comes back from a sync after the first, but not to this client |
| `Interest.RunAgrees` | src/i3xua/api/routes/subscriptions.py:22-77 | At every point of every run of requests that do not overlap, whose new ids are settled by canonicalizing once and that add or remove no node twice in a request, the interest count of a node is the number of live subscriptions holding it, the monitored nodes are those with a positive count, the handles are the live items |
| `Interest.RegisterAgreesIff` | src/i3xua/api/routes/subscriptions.py:123-139 | A registration, of any ids, keeps the counts true iff no node is newly added twice and canonicalizing once has settled every new id of the connection |
| `Interest.UnregisterAgreesIff` | src/i3xua/api/routes/subscriptions.py:163-173 | An unregistration, of any ids, keeps them true iff a node is removed twice only by its last holder and every removed id of the connection is settled |
| `Interest.CloseAgrees` | src/i3xua/api/routes/subscriptions.py:176-196 | Deleting a subscription gives back exactly its interest |
| `Interest.NextAgrees` | src/i3xua/api/routes/subscriptions.py:22-77 | Each request keeps counts, monitored set and live items in agreement |
| `Interest.RepeatBreaksCount` | src/i3xua/api/routes/subscriptions.py:123-133 | A request that repeats an id makes the count 2 for one holder |
| `Interest.UnsettledIsMissed` | src/i3xua/api/routes/subscriptions.py:135-139 | Among ids that are not all settled, the longest unsettled one has a node that no id asks for |
| `ElementIds.CanonicalizeShrinks` | src/i3xua/core/neutral.py:40-60 | Canonicalizing changes a NodeId only by making it shorter |
| `Interest.SettledOnceIff` | src/i3xua/api/routes/subscriptions.py:135-139 | It has iff canonicalizing the NodeId twice is canonicalizing it once |
| `ElementIds.CanonicalIdShows` | src/i3xua/api/routes/subscriptions.py:135-139 | An id without `!` reaches the manager as it is, any other with its NodeId canonicalized |
| `Interest.UnsettledId` | src/i3xua/api/routes/subscriptions.py:135-139 | `ns=0;ns=0;i=5` is counted for nobody |
| `Interest.AddKeepsMatched` | src/i3xua/adapters/asyncua/subscribe.py:54-63 | Adding distinct nodes keeps monitored nodes, positive counts and live items matched |
| `Interest.RemoveKeepsMatched` | src/i3xua/adapters/asyncua/subscribe.py:65-82 | Removing any nodes keeps them matched: the last interest takes the item with it |
| `Interest.SubscriptionSession.AddMonitoredItems` | src/i3xua/adapters/asyncua/subscribe.py:54-63 | The session's new state: counts up, one new item for each node wanted for the first time |
| `Interest.SubscriptionSession.RemoveMonitoredItems` | src/i3xua/adapters/asyncua/subscribe.py:65-82 | The session's new state: counts down, items of nodes nobody wants are dropped |
| `Interest.GroupByConnection` | src/i3xua/api/routes/subscriptions.py:35-50 | Each connection gets exactly its own node ids, in order; ids without `!` are skipped |
| `Interest.NodeTimes` | src/i3xua/api/routes/subscriptions.py:135-139 | A node is asked for as often as its elementId occurs among canonical ids |
| `Interest.AdapterRefChange` | src/i3xua/api/routes/subscriptions.py:22-77 | One connection's share of a change: what was added, then what was removed |
| `Interest.RegisterRoute` | src/i3xua/api/routes/subscriptions.py:123-133 | The request changes manager and session as the run model says; an unknown subscription changes nothing |
| `Interest.UnregisterRoute` | src/i3xua/api/routes/subscriptions.py:163-173 | The same for unregistering |
| `Interest.DeleteRoute` | src/i3xua/api/routes/subscriptions.py:176-187 | The same for deleting, with the elements the manager returned |
| `PendingInterest.OverlapAgreesIff` | src/i3xua/api/routes/subscriptions.py:57-77 | On every run with requests overlapping in any way, once no session call is waiting, each count is the number of live subscriptions holding the node iff no removal found a node of its own without interest, having overtaken the addition |
| `PendingInterest.RunIsTidy` | src/i3xua/api/routes/subscriptions.py:22-77 | However requests overlap, the monitored nodes are those with interest and the handles are the live items |
| `PendingInterest.SurplusStep` | src/i3xua/adapters/asyncua/subscribe.py:54-82 | Each event keeps interest counted and owed minus holders, except that an overtaking removal leaves one too many |
| `PendingInterest.InOrderAgrees` | src/i3xua/api/routes/subscriptions.py:57-77 | Calls that reach the session in the order of their requests never overtake, so the counts agree |
| `PendingInterest.OvertakenStaysCounted` | src/i3xua/api/routes/subscriptions.py:57-77 | A run over two connections: the removal arrives while the first request still waits for the other connection, and interest that nobody has stays counted |
| `PendingInterest.AloneIsNext` | src/i3xua/api/routes/subscriptions.py:123-187 | A request whose call is made at once is one act of the model without overlap |
| `MonitoredTiers.AddValidIff` | src/i3xua/adapters/asyncua/upstream.py:1388-1423 | Adding keeps every tier's bucket equal to the server's live items iff no new node comes up twice after translation |
| `MonitoredTiers.RemoveKeepsValid` | src/i3xua/adapters/asyncua/upstream.py:1425-1451 | Removing keeps them equal and deletes a tier it emptied |
| `MonitoredTiers.RunValidIff` | src/i3xua/adapters/asyncua/upstream.py:1315-1451 | On every run of adds, removals, losses and reconnects that do not overlap, every tier's bucket is the server's live items in every state iff no step wishes for a new node twice after translation |
| `MonitoredTiers.NextValidIff` | src/i3xua/adapters/asyncua/upstream.py:1388-1451 | Each undisturbed step keeps that iff it wishes for no new node twice |
| `MonitoredTiers.RepeatLeaksItem` | src/i3xua/adapters/asyncua/upstream.py:1388-1423 | A request that repeats an id leaves an item that no bucket knows |
| `MonitoredTiers.ReconnectRestores` | src/i3xua/adapters/asyncua/upstream.py:1315-1338 | After a loss and a reconnect with no call under way at the loss, the default tier serves exactly the nodes live subscriptions want on the connection and no other tier is left; its handles are live items iff the new index translates no two of those nodes alike |
| `MonitoredTiers.AddServes` | src/i3xua/adapters/asyncua/upstream.py:1388-1423 | Adding what one more registration wants keeps the tier serving all that is wanted |
| `MonitoredTiers.AddMonitors` | src/i3xua/adapters/asyncua/upstream.py:1388-1423 | After an add the tier monitors what it did and what the ids mean: the node the index gives for a wire id, else the node of that id |
| `MonitoredTiers.AddAsksFor` | src/i3xua/adapters/asyncua/upstream.py:1401-1422 | Each item the server makes is for a node that one of the ids means |
| `MonitoredTiers.RemoveUnmonitors` | src/i3xua/adapters/asyncua/upstream.py:1427-1451 | A removal takes away exactly the nodes that the ids mean |
| `MonitoredTiers.RemoveDropsItems` | src/i3xua/adapters/asyncua/upstream.py:1434-1451 | An item goes iff its node does |
| `MonitoredTiers.RemoveServesIff` | src/i3xua/adapters/asyncua/upstream.py:1425-1451 | Removing nodes leaves the tier serving what is still wanted iff nobody else wants one of them: the binding does not count interest |
| `MonitoredTiers.UnregisterServesIff` | src/i3xua/adapters/asyncua/upstream.py:1615-1632 | So one subscription's unregistration keeps the tier right iff no other live subscription wants a removed node |
| `MonitoredTiers.SharedNodeIsDropped` | src/i3xua/adapters/asyncua/upstream.py:1425-1451 | When one of two subscriptions lets a shared node go, the tier stops serving the other |
| `MonitoredTiers.ConnectionBinding.EnsureSubscription` | src/i3xua/adapters/asyncua/upstream.py:1374-1386 | One server subscription per publishing interval |
| `MonitoredTiers.ConnectionBinding.AddMonitored` | src/i3xua/adapters/asyncua/upstream.py:1388-1423 | The binding's new state after adding |
| `MonitoredTiers.ConnectionBinding.RemoveMonitored` | src/i3xua/adapters/asyncua/upstream.py:1425-1451 | The binding's new state after removing |
| `MonitoredTiers.ConnectionBinding.OnConnected` | src/i3xua/adapters/asyncua/upstream.py:1264-1330 | New index, then everything wanted again at the default interval |
| `MonitoredTiers.ConnectionBinding.OnDisconnected` | src/i3xua/adapters/asyncua/upstream.py:1332-1338 | All bookkeeping is dropped |
| `TierCalls.OverlapTrueIff` | src/i3xua/adapters/asyncua/upstream.py:1374-1451 | With calls suspended at their awaits and adds overlapping in any way, on every run where removals and losses stand apart and the server answers: the bucket is the server's live items, in its one subscription, whenever no call is under way iff no add is careless (begun while the subscription is being made, or asking for a node twice or for one already asked for) |
| `TierCalls.CarefulRunIsTrue` | src/i3xua/adapters/asyncua/upstream.py:1332-1451 | On every run of careful moves, with removals that leave something overlapping adds, losses with requests under way and requests failing, the bucket is the server's live items whenever no call is under way |
| `TierCalls.MoveKeepsSound` | src/i3xua/adapters/asyncua/upstream.py:1374-1451 | Each careful move keeps, with calls under way: every live item known to the bucket or to one granted call, every handle alive, every node asked for once |
| `TierCalls.CarelessIsDoomed` | src/i3xua/adapters/asyncua/upstream.py:1388-1423 | A careless add leaves two subscriptions for the tier, or two items for a node, there or to come |
| `TierCalls.DoomedStays` | src/i3xua/adapters/asyncua/upstream.py:1388-1423 | That stays so, whatever answers, until no call is under way |
| `TierRestore.LossLeavesBlankIff` | src/i3xua/adapters/asyncua/upstream.py:1332-1338 | After a loss the tier stays blank, however the calls under way go on, iff no add had its answer in hand |
| `TierRestore.ReconnectRestores` | src/i3xua/adapters/asyncua/upstream.py:1315-1338 | After a loss with no answer in hand and no removal ending the tier, and a restoring call that gets through while old requests fail: the tier serves exactly the nodes live subscriptions want, and its bucket is the server's live items iff the new index translates no two of them alike |
| `TierRestore.AloneIsAdd` | src/i3xua/adapters/asyncua/upstream.py:1388-1423 | An add that nothing disturbs between its awaits is the add of the model without overlap |
| `TierRestore.AloneIsRemove` | src/i3xua/adapters/asyncua/upstream.py:1425-1451 | The same for a removal |
| `TierRestore.BindingRunIsTrue` | src/i3xua/adapters/asyncua/upstream.py:1374-1451 | In every careful run of a whole binding, each interval's bucket is the server's live items whenever that interval has no call under way |
| `TierExamples.OverlapLeaksItem` | src/i3xua/adapters/asyncua/upstream.py:1406-1422 | Two overlapping adds of one node: the server makes two items and the bucket keeps one |
| `TierExamples.SecondCreateOrphans` | src/i3xua/adapters/asyncua/upstream.py:1374-1386 | Two overlapping adds of different nodes in a tier without a subscription make two, and the tier keeps the last |
| `TierExamples.LateAnswerIsSkipped` | src/i3xua/adapters/asyncua/upstream.py:1406-1422 | An add files its handle after the loss, and the next add takes the node for monitored and skips it |
| `TierExamples.RemovalCutsOff` | src/i3xua/adapters/asyncua/upstream.py:1425-1451 | An add joins a subscription that a removal is about to delete: its node is filed and nothing monitors it |
| `VariantCodec.FlattenMatrix` | src/i3xua/ouajson/encode.py:252-263 | The recursive loop computes row-major flattening |
| `VariantCodec.ReshapeFlatten` | src/i3xua/ouajson/encode.py:252-263 | Cutting the flat list by the dimensions gives a rectangular matrix back |
| `VariantCodec.VariantRoundTrip` | src/i3xua/ouajson/encode.py:200-289 | A decoder recovers every well-formed Variant tree up to what the encoding omits |
| `VariantCodec.DataValueRoundTrip` | src/i3xua/ouajson/encode.py:318-331 | The same for DataValues with status, times and picoseconds |
| `VariantCodec.ReversibleIff` | src/i3xua/ouajson/encode.py:129-289 | A Variant comes back unchanged iff it has no namespace index under a URI, no empty URI or locale and no status beyond the three qualities |
| `VariantCodec.EmptyLocaleIsLost` | src/i3xua/ouajson/encode.py:166-175 | A localized text with an empty locale does not come back |
| `VariantCodec.StatusComesBack` | src/i3xua/ouajson/encode.py:180-190 | Of a status comes back Good, Bad for a symbol that starts so, or GoodNoData |
| `VariantCodec.ExpandedComesBack` | src/i3xua/ouajson/encode.py:153-161 | A namespace URI takes the place of the namespace index; an empty one is dropped |
| `VariantCodec.IntegerForms` | src/i3xua/ouajson/encode.py:200-249 | The JSON of types 1 to 9, numbers written out: a 64-bit integer is a text |
| `VariantCodec.FloatForms` | src/i3xua/ouajson/encode.py:200-249 | The JSON of types 10 and 11: what is no number is a word |
| `VariantCodec.TextForms` | src/i3xua/ouajson/encode.py:200-249 | The JSON of types 12 to 16 |
| `VariantCodec.NamedForms` | src/i3xua/ouajson/encode.py:129-175 | The JSON of NodeIds, ExpandedNodeIds, QualifiedNames and LocalizedTexts, with their optional fields |
| `VariantCodec.StripsIff` | src/i3xua/core/mapping.py:326-352 | Stripping an encoded Variant leaves no envelope at any list position iff no scalar Variant in it has a Variant for its body |
| `VariantCodec.StripVariantTwiceIff` | src/i3xua/core/mapping.py:326-352 | Stripping an encoded Variant is idempotent on the same condition |
| `VariantCodec.WrappedStripsTwice` | src/i3xua/core/mapping.py:326-352 | Any Variant wrapped in a Variant keeps its own envelope the first time and loses it the second |
| `VariantCodec.StripShowsElements` | src/i3xua/core/mapping.py:326-352 | An array or matrix of plain values is shown as its encoded elements in row-major order |
| `VariantCodec.StripDecodes` | src/i3xua/core/mapping.py:326-352 | What stripping leaves of a scalar, array or matrix that is no list of Variants decodes, by type and dimensions, to the body up to what the encoding omits |
| `VariantCodec.StripShowsVariants` | src/i3xua/core/mapping.py:326-352 | A list of Variants is shown as a list in the same order, each Variant stripped in its place |
| `Composition.LeafVariableIds` | src/i3xua/api/routes/values.py:156-189 | The recursive walk with its shared `seen` set ends on cyclic parent links and computes the walk function |
| `Composition.LeavesExact` | src/i3xua/api/routes/values.py:156-189 | On a composition it returns, each once, exactly the Variables at HasComponent distance 1 to `maxDepth` through compositions, any distance when `maxDepth` is 0 or negative |
| `Composition.LeavesByChain` | src/i3xua/api/routes/values.py:134-189 | In terms of the records alone: returned is exactly what is a Variable and has a chain of at most `maxDepth` links up to the composition, each a HasComponent reference by id on one connection into a composition |
| `Composition.LeavesOfCollect` | src/i3xua/api/routes/values.py:184-189 | Whatever the walk has already seen, the children still to do bring exactly the Variables below them, disjoint from those done |
| `Composition.ChildIsBelow` | src/i3xua/api/routes/values.py:134-153 | The direct children of a composition are exactly the elements it is the parent of |
| `Composition.ThroughChild` | src/i3xua/api/routes/values.py:167-189 | Sharing `seen` between siblings hides nothing: a way up to a child that met a sibling's subtree would pass through the parent first |
| `Composition.UnkeyedVariableIsLost` | src/i3xua/api/routes/values.py:182-188 | A Variable filed under another id than connection!node_id is dropped by the unlimited walk and misnamed by the one-level walk |
| `Composition.StampedVariableIsLost` | src/i3xua/api/routes/values.py:182-188 | As stamped and registered: a tank with a NodeId of text above a numeric Variable has no Variables at any depth, and one of an unknown id at depth 1 |
| `CompositionKeys.ReturnedIff` | src/i3xua/api/routes/values.py:156-189 | When no key spells another node's connection!node_id and no two keys hold one node, a Variable is returned under its key iff its way up to the composition is within the depth and it and every composition below the end are filed under their own id |
| `CompositionKeys.ReturnedIffOwnWay` | src/i3xua/api/routes/values.py:156-189 | The same without the second hypothesis: iff some way is like that |
| `CompositionKeys.ListsAlike` | src/i3xua/api/routes/values.py:184-189 | The walk sees such a snapshot as one that holds only the nodes filed under their own id |
| `History.HistoryStore.Append` | src/i3xua/core/history.py:20-26 | Each element's ring stays the last `size` samples appended for it, and no other ring changes |
| `History.HistoryStore.Latest` | src/i3xua/core/history.py:54-62 | The last sample appended for the element, None if there is none or nothing is kept |
| `History.HistoryStore.Read` | src/i3xua/core/history.py:28-46 | Exactly the kept samples within the window, in order; a sample without timestamp is in every window |
| `History.TextBeforeIff` | src/i3xua/core/history.py:28-46 | Text order: a shorter beginning, or the smaller character where two texts first differ |
| `History.OfEndsWithLast` | src/i3xua/core/history.py:54-62 | The last sample kept for an element is the last one recorded for it |
| `Values.ReadWithFallback` | src/i3xua/api/routes/values.py:86-128 | One upstream call; each leaf gets its answer, or, when the call raised or the answer is an empty failure, its last appended sample marked Bad and dated now |
| `Values.ServedShows` | src/i3xua/api/routes/values.py:67-128 | Field by field: a leaf gets the answer unless the call raised or the answer is Bad without value and timestamp; then the value recorded last for it, or null, marked Bad and dated now |
| `Values.BestQuality` | src/i3xua/api/routes/values.py:192-200 | The worst of the qualities, and no data for none |
| `Values.AddUnknown` | src/i3xua/api/routes/values.py:237-245 | With unknown ids that parse, the leaves wanted are exactly those of the requested elements |
| `Values.Group` | src/i3xua/api/routes/values.py:247-254 | Each wanted leaf whose id parses stands once, under its own connection |
| `Values.AskedOnce` | src/i3xua/api/routes/values.py:247-260 | A leaf has one place in the batches sent: it is read once however often it is wanted |
| `Values.CallsAskForNodes` | src/i3xua/api/routes/values.py:86-103 | Each call asks, on one connection, for the node ids of its leaves in the order of its pairs |
| `Values.FetchAll` | src/i3xua/api/routes/values.py:247-260 | One call per connection, each wanted leaf in exactly one of them, each served for its own place |
| `Values.Compose` | src/i3xua/api/routes/values.py:313-335 | A composition shows its known leaves, the worst of their qualities and the latest of their timestamps, or now |
| `Values.Assemble` | src/i3xua/api/routes/values.py:262-342 | Every id is answered once, in request order, by the rule of its category |
| `Values.ReadValues` | src/i3xua/api/routes/values.py:203-342 | All of this for a whole request: the calls made, the samples served and every answer |
| `Values.ObjectsAreNotRead` | src/i3xua/api/routes/values.py:213-245 | No known element but a Variable is ever asked for upstream |
| `Values.CompositionIsComplete` | src/i3xua/api/routes/values.py:302-335 | A requested composition is answered with exactly the Variables up to `maxDepth` below it, each as served, none worse than the whole, which is Bad iff one of them is |
| `ArtificialTypes.TypeNameInjective` | src/i3xua/core/artificial_types.py:33-84 | Two shapes share a name only if they are the same, whatever underscores the DataType name has |
| `ArtificialTypes.CollectArtificialTypes` | src/i3xua/adapters/asyncua/browse.py:353-386 | The loop emits one type for the first eligible Variable of each shape, in order |
| `ArtificialTypes.EligibleIsCollected` | src/i3xua/adapters/asyncua/browse.py:353-386 | Every eligible Variable's type is among those collected |
| `ArtificialTypes.CollectedIsDescribed` | src/i3xua/adapters/asyncua/browse.py:353-386 | Every type collected is that of an eligible Variable |
| `ArtificialTypes.CollectedDiffer` | src/i3xua/adapters/asyncua/browse.py:353-386 | No two types collected have the same connection and name |
| `ArtificialTypes.CollectedSays` | src/i3xua/adapters/asyncua/browse.py:353-386 | A collected type is named `<DataType>_<Rank>_<Access>` by an eligible Variable's attributes, parts spelled out, and stands under that Variable's connection and namespace |
| `ArtificialTypes.EligibleExactly` | src/i3xua/adapters/asyncua/browse.py:306-323 | On the records: eligible is a Variable of type `i=63` with data type, rank and access level and no parent in the batch with a type other than `i=58` and `i=61` |
| `ArtificialTypes.SwappedExactly` | src/i3xua/api/routes/objects.py:58-87 | An instance is swapped on the same condition, except that a typed parent registered under another id than its NodeId is not seen |
| `ArtificialTypes.SwappedTypeIsSpelled` | src/i3xua/core/mapping.py:190-207 | A swapped instance's type is its connection, `!` and the name its attributes spell |
| `ArtificialTypes.PublishedSays` | src/i3xua/adapters/asyncua/browse.py:840-855 | The ids and names of a published record have a dash for each `!`, and nothing else is touched |
| `ArtificialTypes.OtherTypeIsKept` | src/i3xua/core/mapping.py:208-225 | Any other instance is typed by the display name of its registered type, else by its source, else UnknownType |
| `ArtificialTypes.LabelSpells` | src/i3xua/core/artificial_types.py:53-60 | The label of a vendor type is its NodeId without `=`, with `;` and `:` as underscores |
| `ArtificialTypes.DecisionsAgreeIff` | src/i3xua/api/routes/objects.py:58-87 | Browsing and reading decide alike about a generic Variable iff its parent is not a typed node registered under another id than its NodeId |
| `ArtificialTypes.SwappedIsRegisteredIff` | src/i3xua/core/mapping.py:190-207 | Unless its parent is hidden as above, a swapped instance names a registered type iff the type's name has no `!` |
| `ArtificialTypes.MarkedNameExample` | src/i3xua/core/mapping.py:190-207 | A folder and, below it, a Variable whose DataType, of the server's own, is called `A!B`, as stamped: the Variable names an artificial type that is registered under no such id |
| `ArtificialTypes.RegisteredIsUsed` | src/i3xua/adapters/asyncua/browse.py:324-386 | Every collected type whose name has no `!` is the typeElementId of some instance |
| `ArtificialTypes.HiddenParentExample` | src/i3xua/api/routes/objects.py:70-80 | A generic Variable below a typed node with a numeric NodeId is given the id of a type nobody registers |
| `ArtificialTypes.RegistryLookup` | src/i3xua/api/routes/objects.py:72-77 | The registry finds a parent iff its wire id is the id asked for |
| `Connection.ClientMatchesEvent` | src/i3xua/adapters/asyncua/connection.py:201-329 | In every reachable state a client is held iff the connected event is set, and at most one reconnect loop is live |
| `Connection.StopIsFinal` | src/i3xua/adapters/asyncua/connection.py:204-212 | After a `stop` has completed, no later state holds a client or a loop that could set one |
| `Connection.IdleIffMissed` | src/i3xua/adapters/asyncua/connection.py:214-233 | A settled connection has neither client nor loop still to connect iff a `connection_lost` ran out while the loop was in its hook with the client already cleared |
| `Connection.RecoversUnlessLostEarly` | src/i3xua/adapters/asyncua/connection.py:214-313 | With no loss between wiring and the return of the hook and no raising disconnect hook, a started, open connection is connected, has a loop still to connect, or is inside `connection_lost` |
| `Connection.HeldClientLostIff` | src/i3xua/adapters/asyncua/connection.py:267-313 | The client held was reported lost iff the report came while its loop was still loading |
| `Connection.LossInHookOrphans` | src/i3xua/adapters/asyncua/connection.py:214-233 | From every quiet state with the loop in its hook, a loss followed by the hook's return leaves no client, no loop and no call in progress |
| `Connection.OrphanStays` | src/i3xua/adapters/asyncua/connection.py:201-233 | Such a connection does nothing until `start` or `stop` is called or another loss is reported |
| `Connection.LossWhileLoadingIsHeld` | src/i3xua/adapters/asyncua/connection.py:281-306 | A loss while loading leaves the lost client held and the event set |
| `Connection.ConnectingIsReachable` | src/i3xua/adapters/asyncua/connection.py:267-313 | Both situations arise |
| `Connection.StepKeepsInv` | src/i3xua/adapters/asyncua/connection.py:201-329 | Every step keeps the invariant behind these results |

## Left out

- The OPC UA stack, sockets, certificates, endpoint choice and type loading: the server is an abstract source of answers.
- Settings, logging, metrics, authentication, the HTTP layer, SSE text, v0 and v1 envelopes, the admin pages and tools.
- Threads and locks: each locked method, and each stretch of code between awaits, is one atomic step. `PendingInterest`, `TierCalls` and `Connection` have these steps; elsewhere a whole call is one step, and the classes' methods state what a call does that nothing disturbs. History does not grow while a value request is answered.
- AddressWalk.MeetChildren: a record's description, browse name, user access level, array dimensions, historizing flag and sampling interval are passed through by the code and not modelled.
- Clocks: the current time is a parameter, one for a whole value request.
- Timing of heartbeats, backoff and progress logs; only the order of steps is modelled.
- Connection.ClientMatchesEvent: the connection is modelled as steps on a record, not as a class, because its methods suspend in the middle; a cancelled loop is taken to end at its next step.
- Subscriptions.RunHeard: a subscription is a value in a map and the stream queues stand in one list, so aliasing of queue objects is not modelled; a queue object attached to two managers is not either.
- Interest.AdapterRefChange: upstream calls succeed and grant fresh handles; the route swallows their exceptions and leaves the repair to the next reconnect.
- SyncClient.ClientCollectsLog: `sync` is modelled by its cursor and the server's answer; the v0 shapes and entries that are no v1 items are not.
- ElementIds.CanonicalizeIdempotentIff: Python's `int` also accepts spaces, underscores and other scripts' digits; only an optional sign and ASCII digits are modelled.
- BrowsePaging.BrowseSource.FollowContinuations: a BrowseNext answer is taken to have one result for each continuation point asked about.
- MonitoredTiers.AddValidIff: the server is taken to grant every monitored item; refused items and their status codes are not modelled.
- TierCalls.OverlapTrueIff: the server carries out a removal when it is asked, and answers an add for all its nodes or fails it; subscriptions are numbered as they are made.
- TierRestore.ReconnectRestores: what clients want does not change between the reading of the wanted nodes and the restoring add.
- VariantCodec.VariantRoundTrip: ExtensionObject and DiagnosticInfo bodies and ill-typed values are left out; dates, GUIDs and byte strings are texts with abstract readers, and floats are reals with the three special values.
- ArtificialTypes.CollectArtificialTypes: the JSON Schema made from DataType and rank is represented by those two; the table of DataType names is a parameter.
- Registries.TypeRegistry.Reconcile: the class a builder makes is an opaque value, and the structural hash an abstract key.
- Composition.LeavesExact: holds for snapshots filed under connection!node_id; what other snapshots return is told by CompositionKeys.ReturnedIff.
- Values.ReadValues: the write refusal and the final shaping of the response are not modelled.
- `_browse_types`, the namespaces registry and the per-connection rewrite of types in `apply_snapshot`: the same loops again, with easier claims.
- `replace` and the read-only accessors of the registries and of the subscription manager: they would only add easy members.
