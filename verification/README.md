# NexumDB: a verified model

NexumDB is a realtime game database: partitions of tables advance in ticks, each
tick is one transaction, and a network gateway connects clients to the partitions.
This project models the parts of it where a mistake would be hardest to see, and
proves for all inputs, runs and interleavings what the repository promises of them.
`dafny verify dfyconfig.toml` checks all of it.

## What is modelled

**The tick** (`crates/nexum-execution`, on the transaction of `crates/nexum-tx`).
A system or a reducer is any deterministic program that picks its next operation from
the replies it has received. `Transaction` has the two-layer write set, the read set and
the handle counters; `Branching`, `Runs`, `Groups`, `GroupEquivalence` and `CheckedGroups`
relate a program on a branch to the same program on the tick transaction, and a concurrent
group to the serial loop; `Workers` adds the thread pool with every interleaving of its
operations and joins the threads to the same result; `TickPlan` and `SystemsPhase` cover planning and the whole systems phase;
`Reducers`, `Effects`, `Soundness`, `Tick` and `Partition` cover message handlers, due
events, client calls with rollback, commit, and the gates. `Systems`, `Schedule` and
`Sorting` are the registry, the event schedule and the orders they rely on. `ReadYourWrites`
says what a transaction reads in terms of its replies alone; `Traces` and `TickMeaning` say
what a committed tick reports and stores in terms of what its programs did.

**Commit** (`crates/nexum-tx/src/commit.rs`, on the tables of `crates/nexum-storage` and
`crates/nexum-table`). `Storage` has the mutations of a table with ids, versions, epochs and
unique keys; `Validation`, `Apply` and `Commit` are the three passes, `ChangeOrder` the order of what they
report; `Serializable` lets
transactions run on earlier states and commit later.

**The transports** (`crates/nexum-network/src/spsc.rs`, `transport.rs`). `SpscRing` is a
release/acquire machine over single loads, slot accesses and stores, with stale views of
the other index and 64-bit wrap-around; `MemoryTransport` is the ring as code and the
shared capacity of a connection's two rings; `Tcp` is the stream transport under arbitrary
partial reads and writes.

**The gateway** (`gateway.rs`). `GatewayLog` is the log of every message the gateway decides
to send and of everything a transport is asked to take. `GatewayState` holds the gateway's
fields as one record, the two relations its indexes are about, and a record of every accepted
call, every answer, everything a transport has taken, every resync and the log. `GatewaySends`,
`GatewayReplies`, `GatewayCalls` and `GatewayRuns` say what sending a message comes to, what
each request does and says, which calls a step settles, and what an event and a run are.
`Gateway` is the class with all its handlers.

**The wire format** (`crates/nexum-core/src/binary.rs`, `schema.rs`, `protocol.rs`).
`Codec`, `Schema`, `Payloads`, `Frames` and `Protocol` are the codecs from integers to whole
messages; `Crc` is CRC-32 (clause 3.2.9 of IEEE 802.3, the table form of section 8 of
RFC 1952). Strings are UTF-8 (section 3 of RFC 3629), held as bytes. `KnownAnswers` pins
constants and formats to single bytes and to published check values.

**The generator and the limiter**: `Rng` (splitmix64 with Lemire rejection), `Rate`.

## Where the code and its comments differ

- `parallel.rs` and `config.rs` say that parallel execution is identical to serial
  execution for systems with disjoint declared tables. It is not in four cases, each shown
  by a concrete input in `Divergence`: deleting an inherited insert that the same child has
  already updated brings the insert back (`write_set.rs:195-228`); after deleting an
  inherited insert a child still lists it among the pending writes; an index lookup
  consults pending rows only if some insert is pending anywhere, so it can see a sibling's
  insert into an unrelated table (`transaction.rs:374-466`); and each child has the whole
  event and message budget to itself, so the group fails at the merge where the serial loop
  refuses an append. `Branching.AccessExact` gives the exact condition on one operation
  (`DeleteExact`, `PendingMirrors` and `LookupMirrors` are its cases), and
  `GroupEquivalence.BudgetExact` the one on budgets. The equivalence theorems assume of
  every operation exactly that condition.
- The overlap check of `parallel.rs` is meant to notice undeclared sharing. An insert that
  is deleted again leaves only a counter, which the check does not look at, so two members
  that insert into one table can pass it and differ from the serial loop
  (`Divergence.HandleClashUnnoticed`). `CheckedGroups.SelfContainedGroup` shows that the
  check is enough for members that keep the first row they insert into a table, leave rows
  pending before the group alone, and go only through handles they were given.
- `rollback` does not restore table observations (`read_set.rs:141-146`), so a failed call
  does not leave the transaction exactly as before. `Reducers.RollbackExact` says when it
  does; `Tick.OnlySuccessesCount` shows that no committed tick can tell.
- `world.rs:452-454` describes calls as branches that are absorbed; the code runs them on
  the tick transaction with a snapshot. The model follows the code.
- `gateway.rs:59-60` says that reattaching clears a session's stale state; only a resync
  does, which is what `Gateway.NetworkGateway.Dispatch` states.
- Accepted bytes are canonical for values, rows and schemas, and for messages without
  arguments, queries and changes. In those three the decoder is lenient, each shown by a
  concrete input: a flag byte of a query may be any value above one
  (`Protocol.StrayFlag`), arguments may be repeated and in any order
  (`Protocol.RepeatedArgument`), and a change may carry a row its kind has no use for
  (`Protocol.SuperfluousRow`). `Protocol.ClientExact` and `Protocol.ServerExact` give the exact
  condition under which accepted bytes are the encoding of what they decode to.
- An update of a row that is missing from the table is buffered, read back and found by an
  index lookup, but not listed by a scan; commit refuses it. `ReadYourWrites.LookupIsScan` and
  `ReadYourWrites.UpdateReads` say exactly when.
- A window of the rate limiter allows one operation fewer over any interval of its length
  than twice the limit, and that bound is reached.

## Model

| member | source | states |
|---|---|---|
| `Branching.AccessPairs` | crates/nexum-tx/src/transaction.rs:134-185 | an operation on a branch and the same operation on the serial transaction give the same reply and keep the branch equal to the serial transaction after absorption, for every operation that is blind to the siblings and meets the condition of `AccessExact` |
| `Branching.AccessExact` | crates/nexum-tx/src/transaction.rs:134-185 | an operation that is blind to the siblings agrees with the serial one if and only if it deletes no rewritten inherited insert, lists no table with a tombstone of a pending insert, and looks nothing up that depends on a pending insert only one side has |
| `Branching.InsertExact` | crates/nexum-tx/src/transaction.rs:479-490 | a valid insert on a branch agrees with the serial one if and only if the handle counters of its table agree |
| `Branching.SettledLookup` | crates/nexum-tx/src/transaction.rs:374-466 | a lookup on a table the siblings left alone agrees with the serial one if and only if it is settled |
| `Branching.SettledByOwnInsert` | crates/nexum-tx/src/transaction.rs:429-466 | an insert of its own, in any table, settles every lookup of a branch |
| `Branching.SettledWithoutInserts` | crates/nexum-tx/src/transaction.rs:429-466 | so does the absence of any insert before the branch |
| `Branching.DeleteExact` | crates/nexum-tx/src/write_set.rs:195-228 | a delete on a branch mirrors the serial delete if and only if the branch has not rewritten the inherited insert it deletes |
| `Branching.PendingMirrors` | crates/nexum-execution/src/context.rs:120-130 | listing pending writes mirrors the serial listing if and only if the branch holds no tombstone of a pending insert |
| `Branching.LookupMirrors` | crates/nexum-tx/src/transaction.rs:374-466 | an index lookup mirrors the serial one if and only if both sides have or both lack a pending insert anywhere, or no pending update moved a row onto the key |
| `Branching.ScanMirrors` | crates/nexum-tx/src/transaction.rs:335-367 | scans agree on views that mirror each other on the table |
| `Branching.AccessSame` | crates/nexum-tx/src/read_set.rs:60-67 | replies and effects do not depend on the order of earlier reads |
| `Branching.AccessTopLevel` | crates/nexum-tx/src/transaction.rs:479-540 | the tick transaction keeps inserts exactly at handles below its counters |
| `ReadYourWrites.ScanIsGet` | crates/nexum-tx/src/transaction.rs:335-367 | a scan lists exactly the rows that `get` finds, with the same contents, except updates of rows that are missing |
| `ReadYourWrites.ContainsIsGet` | crates/nexum-tx/src/transaction.rs:307-328 | `contains` says whether `get` finds a row, with the same observations |
| `ReadYourWrites.PendingIsGet` | crates/nexum-execution/src/context.rs:120-130 | a listed write is what `get` finds; where nothing is listed, `get` finds the committed row |
| `ReadYourWrites.LookupIsScan` | crates/nexum-tx/src/transaction.rs:374-466 | an index lookup finds exactly the scanned rows that own the key, if and only if no update of a missing row owns it and, while no insert is pending, no update moved a row onto it |
| `ReadYourWrites.OnlyWritesWrite` | crates/nexum-tx/src/transaction.rs:278-466 | a read, or a write that fails, leaves every later reply as it was |
| `ReadYourWrites.UpdateReads` | crates/nexum-tx/src/transaction.rs:497-523 | an update is taken exactly when its row is valid and updatable; the row then reads as the new one and nothing else changes |
| `ReadYourWrites.InsertReads` | crates/nexum-tx/src/transaction.rs:479-495 | a valid insert at a free handle is read and scanned there, and nothing else changes |
| `ReadYourWrites.InsertFresh` | crates/nexum-tx/src/transaction.rs:479-495 | on the tick transaction every valid insert succeeds, at a handle nothing was found at before |
| `ReadYourWrites.DeleteReads` | crates/nexum-tx/src/write_set.rs:195-228 | a delete is taken exactly where an update would be; the row is gone and nothing else changes, if and only if no rewritten inherited insert comes back |
| `ReadYourWrites.BranchReads` | crates/nexum-tx/src/write_set.rs:364-398 | a branch reads what its parent reads |
| `ReadYourWrites.MergeReads` | crates/nexum-tx/src/write_set.rs:403-440 | after absorbing a child of the tick transaction the rows the child wrote read as the child read them, and all others as before |
| `Runs.StepPairs` | crates/nexum-execution/src/context.rs:181-245 | one action of a branch run keeps the pairing with the serial run, including events and renumbered messages |
| `Runs.RunPairs` | crates/nexum-execution/src/parallel.rs:231-249 | a whole program run on a branch has the outcome, events and messages of the run on the serial machine |
| `Runs.RunSound` | crates/nexum-execution/src/context.rs:235-244 | a run keeps every outbound message numbered by its position |
| `Groups.RunSlots` | crates/nexum-execution/src/parallel.rs:217-292 | slots filled in any completion order hold each member's result at its slot |
| `Groups.MergeChildren` | crates/nexum-execution/src/parallel.rs:316-381 | the merge loop computes the in-order merge with the overlap checks and budgets |
| `Groups.ExecuteGroup` | crates/nexum-execution/src/parallel.rs:191-383 | running, failing on the first error in slot order and merging is the group function, whatever the completion order |
| `GroupEquivalence.HonouredClear` | crates/nexum-execution/src/parallel.rs:8-13 | a tidy member that keeps to a footprint on which serial and parent agree runs clear of its siblings |
| `GroupEquivalence.DeclaredSlot` | crates/nexum-execution/src/parallel.rs:316-364 | one declared member: no false overlap is reported, and merging it leads to the serial machine |
| `GroupEquivalence.DeclaredGroup` | crates/nexum-execution/src/parallel.rs:191-383 | a group of members that honour pairwise conflict-free footprints, whose operations meet the exact condition and whose totals fit the budgets, ends like the serial loop: same transaction, events and messages, or same first error |
| `GroupEquivalence.BudgetExact` | crates/nexum-execution/src/parallel.rs:366-381 | members that keep to conflict-free footprints and succeed on their branches merge if and only if their totals fit the budgets in turn; otherwise the group fails for lack of capacity |
| `GroupEquivalence.DeclaredSuccess` | crates/nexum-execution/src/parallel.rs:191-383 | with no assumption on budgets, a declared group that succeeds has left the serial result |
| `CheckedGroups.PassedBlind` | crates/nexum-execution/src/parallel.rs:331-364 | every operation of a child that passes the overlap checks in the end was blind to its siblings, inserts included: a shared allocation would have left the same first handle on both sides |
| `CheckedGroups.CheckedGroup` | crates/nexum-execution/src/parallel.rs:316-381 | for members with any, even wrong, declarations, judged by their own branch runs: a group that succeeds leaves exactly the serial result |
| `CheckedGroups.SharedInsertRefused` | crates/nexum-execution/src/parallel.rs:331-364 | a group in which two self-contained members insert into one table never succeeds |
| `CheckedGroups.SelfContainedGroup` | crates/nexum-execution/src/parallel.rs:316-381 | the same as `CheckedGroup` from a condition on each member alone: it leaves pending rows alone, uses handles pending at the start or returned by its own inserts, keeps the first row it inserts into a table, and lists no pending writes |
| `Divergence.DeletedRowSurvives` | crates/nexum-tx/src/write_set.rs:195-228 | two systems with disjoint declared tables whose group keeps a row the serial loop deletes |
| `Divergence.DeletedRowListed` | crates/nexum-execution/src/context.rs:120-130 | two systems with disjoint declared tables, one of which lists a row it has deleted in the group but not serially |
| `Divergence.BudgetPerChild` | crates/nexum-execution/src/parallel.rs:366-381 | two systems without tables whose group fails on the event budget while the serial loop goes on |
| `Divergence.LookupDependsOnSibling` | crates/nexum-tx/src/transaction.rs:429-466 | two systems with disjoint declared tables whose group emits other events than the serial loop |
| `Divergence.HandleClashUnnoticed` | crates/nexum-execution/src/parallel.rs:331-364 | two members insert into one table, the clash passes the checks, and the group differs from the serial loop |
| `Workers.ScheduleInv` | crates/nexum-execution/src/parallel.rs:217-292 | every interleaving of the workers' single operations keeps each worker at a point of its member's own run |
| `Workers.ResultsBySlot` | crates/nexum-execution/src/parallel.rs:217-292 | for every worker count and interleaving a finished pool holds each member's result in its slot |
| `Workers.JoinedIsGroup` | crates/nexum-execution/src/parallel.rs:217-381 | every finished run of every number of workers joins to the same result, a lost slot being impossible |
| `Workers.DeclaredWorkers` | crates/nexum-execution/src/parallel.rs:191-383 | for declared members the joined pool ends like the serial loop, whatever the worker count and interleaving |
| `Workers.SelfContainedWorkers` | crates/nexum-execution/src/parallel.rs:191-383 | likewise for arbitrary self-contained members when the join succeeds |
| `Workers.ScheduleEnds` | crates/nexum-execution/src/parallel.rs:267-292 | no schedule is longer than the work dealt out at the start |
| `Workers.PoolAdvances` | crates/nexum-execution/src/parallel.rs:267-292 | a pool that is not finished can always advance |
| `TickPlan.ResolveNames` | crates/nexum-execution/src/parallel.rs:149-158 | the ids of all names, or the error exactly if one is unknown |
| `TickPlan.Resolve` | crates/nexum-execution/src/parallel.rs:141-170 | an opaque system has no footprint, a declared one that of its names |
| `TickPlan.UnionConflict` | crates/nexum-execution/src/parallel.rs:94-96 | a system conflicts with the accumulated footprints exactly when it conflicts with a member of the group |
| `TickPlan.Build` | crates/nexum-execution/src/parallel.rs:72-113 | the greedy pass yields the plan of longest groups, or the error exactly if some declared table is unknown |
| `TickPlan.GreedyFewest` | crates/nexum-execution/src/parallel.rs:66-113 | from any later start the greedy plan needs no more groups than any other division |
| `TickPlan.InOrder` | crates/nexum-execution/src/parallel.rs:52-62 | a division into groups lists every system once, in order |
| `TickPlan.PlanOptimal` | crates/nexum-execution/src/parallel.rs:52-113 | the plan is an in-order partition into conflict-free groups with opaque systems alone, and no other such partition has fewer groups |
| `SystemsPhase.GroupAgrees` | crates/nexum-execution/src/world.rs:680-733 | one group of the plan ends like the serial loop over its members |
| `SystemsPhase.PhaseAgrees` | crates/nexum-execution/src/world.rs:657-733 | the walk over any admissible plan ends like the serial loop over all systems |
| `SystemsPhase.RunGroups` | crates/nexum-execution/src/world.rs:680-733 | singletons on the tick transaction, groups concurrently, in plan order, whatever the completion orders |
| `SystemsPhase.RunSystems` | crates/nexum-execution/src/world.rs:657-733 | the phase in either mode computes the serial loop or the parallel walk |
| `SystemsPhase.ParallelIsSerial` | crates/nexum-execution/src/world.rs:652-733 | for systems that honour what they declare both modes of the phase agree, error included |
| `Systems.SystemRegistry.constructor` | crates/nexum-execution/src/systems.rs:178-180 | the empty registry is in order |
| `Systems.SystemRegistry.Position` | crates/nexum-execution/src/systems.rs:203-208 | the binary search finds the one position that keeps the order |
| `Systems.SystemRegistry.Register` | crates/nexum-execution/src/systems.rs:186-211 | a taken id or name is refused and changes nothing; otherwise the system joins and the order holds |
| `Systems.SystemRegistry.Remove` | crates/nexum-execution/src/systems.rs:214-224 | exactly the system with the id goes, or the id is unknown |
| `Systems.RegistrationOrder` | crates/nexum-execution/src/systems.rs:186-211 | the ordered list is the same for every order of registering the same systems |
| `Systems.RunOrder` | crates/nexum-execution/src/systems.rs:186-211 | systems run by priority, then by id |
| `Sorting.StableSort` | crates/nexum-execution/src/world.rs:553-561 | sorted, the same entries, and entries of equal rank in their old order |
| `Sorting.OrderedUnique` | crates/nexum-execution/src/world.rs:553-561 | a stable ordering of given entries is unique |
| `Schedule.Schedule.constructor` | crates/nexum-execution/src/schedule.rs:55-61 | an empty schedule with nothing accepted |
| `Schedule.Schedule.Add` | crates/nexum-execution/src/schedule.rs:67-96 | refuses an empty name and a full schedule without change; otherwise accepts under the next id, sorted, unique, and accounted for |
| `Schedule.Schedule.Cancel` | crates/nexum-execution/src/schedule.rs:99-109 | exactly the pending event with the id is cancelled, or the id is not pending |
| `Schedule.Schedule.Split` | crates/nexum-execution/src/schedule.rs:117 | the partition point separates due from later events |
| `Schedule.Schedule.TakeDue` | crates/nexum-execution/src/schedule.rs:116-119 | hands out exactly the due events in order; every accepted event waits, was cancelled, or was handed out once, by the first tick at or after its target since it was scheduled |
| `Reducers.InvokeAccrues` | crates/nexum-reducer/src/registry.rs:202-260 | a reducer run only adds observations, all of which match the frozen store |
| `Reducers.RollbackExact` | crates/nexum-tx/src/transaction.rs:195-214 | rollback restores writes, handle counters and row observations; the whole transaction exactly if no table was observed for the first time |
| `Reducers.TableMarkSurvives` | crates/nexum-tx/src/read_set.rs:141-146 | a failing scan of any table not seen before leaves its mark after rollback |
| `Effects.InvokeEffects` | crates/nexum-reducer/src/registry.rs:202-260 | a reducer's outcome, events and writes do not depend on what the tick has observed |
| `Effects.GroupEffects` | crates/nexum-execution/src/parallel.rs:191-383 | nor does a concurrent group's result |
| `Effects.PlanEffects` | crates/nexum-execution/src/world.rs:680-733 | nor does the parallel systems phase |
| `Soundness.GroupFine` | crates/nexum-execution/src/parallel.rs:366-381 | merging keeps observations current and every message stamped with sender, tick and position, addressed to another known partition, and within the budget and the limits |
| `Soundness.PlanFine` | crates/nexum-execution/src/world.rs:680-733 | so does the whole parallel phase |
| `Tick.CallsAnswered` | crates/nexum-execution/src/world.rs:622-650 | one answer per call, in call order |
| `Tick.FailedCallUndone` | crates/nexum-execution/src/world.rs:643-648 | a failed call leaves writes, handles, events, messages and row observations as they were, and the tick goes on |
| `Tick.OnlySuccesses` | crates/nexum-execution/src/world.rs:622-650 | running only the successful calls does the same work |
| `Tick.ReadsHold` | crates/nexum-tx/src/commit.rs:85-117 | validating a tick never conflicts: only the checks on its writes can fail it |
| `Tick.CommittedAnswers` | crates/nexum-execution/src/world.rs:744-760 | a committed tick answers every call in order; its events and messages are within the budgets, and every message is stamped, addressed to another known partition and within the limits, in either mode |
| `Tick.OnlySuccessesCount` | crates/nexum-execution/src/world.rs:590-768 | a committed tick equals the tick that runs only the successful calls: same store, changes, events, messages and answers |
| `Tick.ModesAgree` | crates/nexum-execution/src/config.rs:7-8 | a whole tick ends alike in both execution modes |
| `Storage.InsertKeeps` | crates/nexum-table/src/table.rs:157-191 | an accepted insert takes a fresh id at version 0, advances the epoch and keeps unique keys unique, ids used and rows valid |
| `Storage.UpdateKeeps` | crates/nexum-table/src/table.rs:301-357 | an accepted update changes one row, with its version and epoch exactly if the contents differ, and keeps the same invariants |
| `Storage.RemoveKeeps` | crates/nexum-table/src/table.rs:360-390 | a delete removes one row, advances the epoch and keeps the same invariants |
| `Storage.LaterChains` | crates/nexum-storage/src/table.rs:130-235 | mutations compose: a row or a table with an unchanged version or epoch has not changed in between |
| `Validation.CheckExact` | crates/nexum-tx/src/commit.rs:115-191 | validation of the writes accepts exactly the sets whose updates and deletes have their rows and that leave every unique key with one owner, and says what is wrong otherwise |
| `Validation.AcceptableExact` | crates/nexum-tx/src/commit.rs:24-30 | validation is no stricter than documented: a write set is acceptable exactly if its rows exist and are valid, no unique key has two owners afterwards, and none is taken from a row that is only updated |
| `Apply.CanMutate` | crates/nexum-tx/src/commit.rs:205-240 | whatever validation accepted can be applied, at every step: deletes first free the keys the rest needs |
| `Apply.ApplyExact` | crates/nexum-tx/src/commit.rs:205-240 | a write set that validation accepts is applied without fail; the store afterwards is known row by row, keeps every invariant, and differs from the one before exactly as the change records say |
| `Commit.CommitExact` | crates/nexum-tx/src/commit.rs:50-81 | a commit succeeds exactly if every observation still holds and the writes are acceptable; it keeps the invariants and reports exactly the rows that changed, table by table |
| `Commit.CommitReads` | crates/nexum-tx/src/commit.rs:50-81 | a commit stores what the transaction would have read last: every existing row as `get` finds it, the pending inserts under the next ids in the order of their handles, and nothing else |
| `ChangeOrder.CommitSequenced` | crates/nexum-tx/src/commit.rs:195-240 | the records of a commit are in order of their tables, and within a table deletes come first, then updates, then inserts, each by row id |
| `Commit.ValidateWrites` | crates/nexum-tx/src/commit.rs:115-191 | the loops with their map of claimed keys compute the check |
| `Commit.TableStore.Commit` | crates/nexum-tx/src/commit.rs:50-81 | validates without changing anything, then applies write by write; accepted exactly as `CommitExact` says, with the changes that were made; a refused transaction changes nothing |
| `Serializable.AccessReplays` | crates/nexum-tx/src/commit.rs:85-117 | an operation whose observations still hold on a later store replies and does the same there |
| `Serializable.InvokeReplays` | crates/nexum-tx/src/commit.rs:85-117 | so does a whole reducer run: nothing it depends on goes unobserved |
| `Serializable.HistoriesAreSerial` | crates/nexum-tx/src/commit.rs:6-24 | whatever earlier states its transactions ran on, a history ends like the serial history of those that committed, in commit order |
| `Serializable.NoLostUpdates` | crates/nexum-tx/src/transaction.rs:497-540 | a row that a transaction overwrites or deletes, even without having read it, is at commit what it was when the transaction ran |
| `Traces.StepGathers` | crates/nexum-execution/src/context.rs:181-245 | emitting and sending are taken exactly when they are well formed and within budget, and contribute exactly what was given |
| `Traces.PlanGathers` | crates/nexum-execution/src/world.rs:680-733 | the systems of a plan contribute exactly what their programs were told had been taken, in order |
| `Traces.InvokeRaises` | crates/nexum-reducer/src/registry.rs:202-260 | a reducer run adds exactly the named events it raised, in order |
| `Traces.NativeFirst` | crates/nexum-execution/src/world.rs:594-650 | a native reducer hides a WASM one of the same name; a name in neither registry is not found and changes nothing |
| `TickMeaning.PhasesInOrder` | crates/nexum-execution/src/world.rs:590-737 | a tick handles its messages, then the due events, then the calls, then runs the systems, each on what the ones before it left; the first failure that is not a call's ends it |
| `TickMeaning.TickReports` | crates/nexum-execution/src/world.rs:744-768 | a committed tick reports exactly the events its successful reducers raised, in order, then the events and messages its systems were told had been taken, in order |
| `TickMeaning.TickStores` | crates/nexum-execution/src/world.rs:738-768 | a committed tick leaves in every table each existing row as `get` finds it on the final transaction, the pending inserts under the next ids, and nothing else |
| `TickMeaning.TickKeeps` | crates/nexum-execution/src/world.rs:738-768 | it keeps the invariants of the tables, and its change records are exactly the rows that changed, table by table, deletes before updates before inserts |
| `TickMeaning.TickCommits` | crates/nexum-execution/src/world.rs:738-768 | a tick whose phases succeed is committed exactly if its writes are acceptable |
| `Partition.DrawnDistinct` | crates/nexum-execution/src/context.rs:235-244 | messages drawn once each from the outboxes of committed ticks have distinct delivery keys |
| `Partition.ArrivalOrder` | crates/nexum-execution/src/world.rs:553-561 | with distinct keys the delivery order does not depend on the order of arrival |
| `Partition.DeliveryOrder` | crates/nexum-execution/src/world.rs:553-561 | messages are delivered by the tick they were sent in, then by sender, then by position |
| `Partition.GateExact` | crates/nexum-execution/src/world.rs:470-550 | which ticks pass the gates, and which refusals are for capacity |
| `Partition.PlannedExactly` | crates/nexum-execution/src/world.rs:553-593 | a tick works on all messages delivered, in delivery order, on exactly the events due by then, on all calls, and on every system as it is for this tick and frame |
| `Partition.OrdersDoNotMatter` | crates/nexum-execution/src/world.rs:462-769 | a whole tick, gates included, ends the same for every order of arrival of its messages and every order of registration of its systems |
| `Partition.CheckGates` | crates/nexum-execution/src/world.rs:470-550 | the gates in order, with the error of the first that refuses |
| `Partition.DeliverAll` | crates/nexum-execution/src/world.rs:594-605 | handlers run in batch order until the first error |
| `Partition.RunAllDue` | crates/nexum-execution/src/world.rs:609-621 | due events run in order until the first error |
| `Partition.RunOneCall` | crates/nexum-execution/src/world.rs:629-649 | one call: the answer carries its request id; a failed call leaves writes, handles, events, messages and row observations as they were and the tick goes on; only a full event budget fails the tick |
| `Partition.RunAllCalls` | crates/nexum-execution/src/world.rs:622-650 | all calls in order with their answers |
| `Partition.RunBody` | crates/nexum-execution/src/world.rs:590-737 | the four phases on one transaction |
| `Partition.Partition.constructor` | crates/nexum-execution/src/world.rs:232-249 | a partition at tick 0 over sound tables, without systems or events |
| `Partition.Partition.SetKnown` | crates/nexum-execution/src/world.rs:276-281 | the topology is sorted, without duplicates and without the partition itself |
| `Partition.Partition.TickWithCalls` | crates/nexum-execution/src/world.rs:462-769 | a refused tick changes nothing; any other advances the counter and consumes exactly the due events; only a committed one changes the tables, through the commit; it answers every call in order, its events and messages are within the limits, and every message is stamped with partition, tick and position and addressed to another known partition; the ending is the tick function of the arguments, whose phases, reports and stored rows `TickMeaning` describes |
| `SpscRing.StepInv` | crates/nexum-network/src/spsc.rs:66-98 | every load, slot access and store of either thread, with any stale view, keeps the invariant |
| `SpscRing.RoomToWrite` | crates/nexum-network/src/spsc.rs:67-77 | the wrapped difference is the true one, and masking selects the slot of the unwrapped index |
| `SpscRing.HeadIsOnlyCandidate` | crates/nexum-network/src/spsc.rs:87-95 | a pop past its test can read only the item at the head of the queue |
| `SpscRing.NoSlotRace` | crates/nexum-network/src/spsc.rs:72-95 | a push about to write and a pop about to read are at different slots |
| `SpscRing.Refines` | crates/nexum-network/src/spsc.rs:66-98 | each step is an enqueue, a dequeue of the returned item, or invisible on a bounded FIFO queue |
| `SpscRing.Refusals` | crates/nexum-network/src/spsc.rs:69-91 | push and pop refuse exactly when the queue is full or empty as far as they have seen, and exactly when it is so with a current view |
| `SpscRing.FifoOverRuns` | crates/nexum-network/src/spsc.rs:66-98 | in every run the popped items are the first published ones in order, and at most a capacity of items is queued |
| `MemoryTransport.Ring.constructor` | crates/nexum-network/src/spsc.rs:39-55 | an empty ring of the given power of two |
| `MemoryTransport.Ring.Push` | crates/nexum-network/src/spsc.rs:66-81 | appends unless full |
| `MemoryTransport.Ring.Pop` | crates/nexum-network/src/spsc.rs:87-98 | takes the oldest item unless empty |
| `MemoryTransport.Ring.Len` | crates/nexum-network/src/spsc.rs:102-106 | the number of items, across index wrap-around |
| `MemoryTransport.OutboundBounded` | crates/nexum-network/src/transport.rs:286-330 | the two outbound rings together never exceed the cap, although their lengths are read at different times |
| `Tcp.TcpConnection.constructor` | crates/nexum-network/src/transport.rs:428-457 | an open connection with empty buffers |
| `Tcp.TcpConnection.TryRecvFrame` | crates/nexum-network/src/transport.rs:472-505 | drains what arrived, then takes one whole frame, waits, or closes on invalid bytes; end of file closes and discards |
| `Tcp.TcpConnection.TrySendFrame` | crates/nexum-network/src/transport.rs:507-516 | queues the frame unless closed or full |
| `Tcp.TcpConnection.FlushOutbound` | crates/nexum-network/src/transport.rs:518-539 | writes until the queue is empty or the socket stops: exactly the bytes it takes, frame by frame, leave the queue, and only a failing write closes |
| `Tcp.FlushKeeps` | crates/nexum-network/src/transport.rs:518-539 | what is written and what remains queued are together what was queued, in order, for all partial writes |
| `Tcp.FlushStops` | crates/nexum-network/src/transport.rs:518-539 | a flush ends early only where the socket would block, takes nothing or fails |
| `Tcp.FlushContinues` | crates/nexum-network/src/transport.rs:518-539 | a flush goes on behind what was written |
| `Tcp.OneWrite` | crates/nexum-network/src/transport.rs:518-539 | one partial write takes exactly its bytes off the front of the queue |
| `Tcp.FlushEmpties` | crates/nexum-network/src/transport.rs:518-539 | a socket that goes on taking bytes empties the queue |
| `Tcp.FlushWhole` | crates/nexum-network/src/transport.rs:518-539 | an emptied queue has written all of it |
| `Tcp.NextFrame` | crates/nexum-network/src/protocol.rs:858-900 | a buffer cut anywhere from a stream of frames holds exactly the first frame, or waits for more of it, and is never invalid |
| `Tcp.Link.constructor` | crates/nexum-network/src/transport.rs:428-457 | nothing sent, nothing received |
| `Tcp.Link.Send` | crates/nexum-network/src/transport.rs:507-516 | an accepted frame joins the frames to be received |
| `Tcp.Link.Flush` | crates/nexum-network/src/transport.rs:518-539 | any partial writes keep every byte in order, and the queue is empty afterwards unless the socket stopped taking bytes |
| `Tcp.Link.Receive` | crates/nexum-network/src/transport.rs:472-505 | for every split into partial writes and reads the frames received are the first of those accepted, all of them once all bytes have arrived, and none is held back that has arrived whole |
| `GatewayState.IndexesDescribeOne` | crates/nexum-network/src/gateway.rs:173-187 | sessions, attachment index, subscriber lists and reverse index describe the same relation, and every subscription is on its session's world |
| `GatewayState.CallsAccounted` | crates/nexum-network/src/gateway.rs:145-168 | every accepted call is pending, answered once or discarded; both pending maps agree; an answer goes to the connection and client id that made the call |
| `GatewayState.StaleSession` | crates/nexum-network/src/gateway.rs:56-68 | a stale session has been sent only signals since it turned stale, one notification per subscription was queued in that episode and what is queued is the rest of those, and the queue flag is exact |
| `GatewayState.StaleUntilResync` | crates/nexum-network/src/gateway.rs:56-68 | between any two points of a run without a resync of it, a stale session that keeps its connection stays stale, its transport takes signals only, and its queue only loses notifications at the front |
| `GatewayState.SuccessAnswers` | crates/nexum-network/src/gateway.rs:1371-1402 | every successful result any transport has taken answers a call of that connection under that client id, with success |
| `GatewayState.OnlyOffers` | crates/nexum-network/src/gateway.rs:1549-1697 | besides stale notifications and disconnects a transport takes only what was meant for its connection, in order, and its successes are among the successful answers, in order |
| `GatewayCalls.SettlesChains` | crates/nexum-network/src/gateway.rs:1370-1447 | settlements compose: the first decides, and what callers are to hear of results is their answers, in order |
| `GatewayCalls.FirstsExact` | crates/nexum-network/src/gateway.rs:1370-1404 | each call reported is decided by the first result with its id |
| `GatewayReplies.RowsCarried` | crates/nexum-network/src/gateway.rs:1164-1237 | batching loses no row update, repeats none and keeps their order |
| `GatewayReplies.SnapshotsEcho` | crates/nexum-network/src/gateway.rs:1910-1955 | an initial state goes out under the id of its request, a resync under none |
| `GatewayReplies.UpdatesConcern` | crates/nexum-network/src/gateway.rs:1164-1237 | rows cost at most one message, and every message is about the subscription |
| `GatewayRuns.OnlyStepsAnswer` | crates/nexum-network/src/gateway.rs:1268-1456 | of all events only a step of the worlds answers calls |
| `GatewayRuns.RunAnswers` | crates/nexum-network/src/gateway.rs:1268-1456 | every answer of a run is the verdict of one of its steps on a call that was pending then |
| `GatewayRuns.SuccessCommitted` | crates/nexum-network/src/gateway.rs:1371-1402 | in a run of a new gateway a transport takes a success only for a call its own connection made and a committed tick of that call's world reported to have succeeded |
| `GatewayState.KeptChains` | crates/nexum-network/src/gateway.rs:128-191 | what operations keep composes over runs: slots, callers, fates, answers, the log, everything sent, and stale episodes, which only a full transport starts and only a resync ends |
| `GatewayState.FreeAgrees` | crates/nexum-network/src/gateway.rs:1776-1818 | freeing a slot keeps all indexes and the call book once they forget the connection |
| `GatewayState.AttachAgrees` | crates/nexum-network/src/gateway.rs:603-612 | attaching keeps all indexes in agreement |
| `GatewayState.DetachAgrees` | crates/nexum-network/src/gateway.rs:700-740 | detaching with all subscriptions and calls keeps all indexes in agreement |
| `GatewayState.SubscribeAgrees` | crates/nexum-network/src/gateway.rs:1031-1049 | subscribing under an unused id keeps all indexes in agreement |
| `GatewayState.UnsubscribeAgrees` | crates/nexum-network/src/gateway.rs:636-657 | unsubscribing keeps all indexes in agreement |
| `GatewayState.AcceptAgrees` | crates/nexum-network/src/gateway.rs:879-902 | accepting a call under a fresh id keeps both pending maps in agreement, even when clients reuse each other's ids |
| `GatewayState.RouteAgrees` | crates/nexum-network/src/gateway.rs:1371-1380 | answering a call removes it from both maps, seals its fate, and means exactly one result, with its outcome, for its caller |
| `Gateway.UnlinkAll` | crates/nexum-network/src/gateway.rs:1783-1803 | all of a connection's subscriptions, and no others, leave both indexes |
| `Gateway.FlushPending` | crates/nexum-network/src/gateway.rs:1567-1579 | exactly the queued notifications the transport takes go out, in order, the rest stay, and some stay only if it refused the first of them |
| `Gateway.TurnStale` | crates/nexum-network/src/gateway.rs:1511-1535 | a new episode queues exactly one notification per subscription |
| `Gateway.NetworkGateway.constructor` | crates/nexum-network/src/gateway.rs:194-221 | an empty gateway |
| `Gateway.NetworkGateway.RegisterConnection` | crates/nexum-network/src/gateway.rs:277-303 | connection ids are handed out once, in order, up to the limit |
| `Gateway.NetworkGateway.DropConnection` | crates/nexum-network/src/gateway.rs:1776-1829 | nothing is left of the connection, its calls are discarded, and nobody else is affected |
| `Gateway.NetworkGateway.DisconnectConnection` | crates/nexum-network/src/gateway.rs:306-325 | the connection is gone, its transport was asked to take a disconnect exactly if that fits a frame and took nothing else, and nobody else is affected |
| `Gateway.NetworkGateway.SendEncoded` | crates/nexum-network/src/gateway.rs:1605-1697 | the frame is tried unless the session is stale, and taken or refused as reported; a full transport leaves the session stale with one notification per subscription or costs the connection, as configured, a failing one costs it, and nothing else does; queued notifications go first; nobody else is affected |
| `Gateway.NetworkGateway.Send` | crates/nexum-network/src/gateway.rs:1549-1597 | exactly the message is meant for a known connection, it comes to what `SendEncoded` says, nothing else goes out besides notifications, and a message to an unknown connection changes nothing |
| `Gateway.NetworkGateway.SendDirect` | crates/nexum-network/src/gateway.rs:1496-1540 | the same, except that nothing passes while the session is stale, exactly a full queue makes it stale, and the connection is kept |
| `Gateway.NetworkGateway.CheckRate` | crates/nexum-network/src/gateway.rs:1749-1769 | an allowed operation changes nothing; a refused one is answered with error 19 under the request id |
| `Gateway.NetworkGateway.HandleHandshake` | crates/nexum-network/src/gateway.rs:464-477 | a supported version gets the response; any other gets error 2 and, unless its transport fails, a disconnect, and costs the connection |
| `Gateway.NetworkGateway.HandleAuthenticate` | crates/nexum-network/src/gateway.rs:478-534 | exactly one reply; a positive one if and only if a session starts, detached, under the next id, where there was none |
| `Gateway.NetworkGateway.HandleAttach` | crates/nexum-network/src/gateway.rs:535-626 | exactly one reply: error 20 without a session, the same world again, error 21 for another, and otherwise a positive one if and only if the connection goes from no world to the requested one |
| `Gateway.NetworkGateway.HandleDetach` | crates/nexum-network/src/gateway.rs:689-754 | no attachment, subscription or waiting call is left, and the one reply says whether there was a session and an attachment |
| `Gateway.NetworkGateway.HandleInput` | crates/nexum-network/src/gateway.rs:939-992 | input changes nothing but the transport; silence only from an attached session, and otherwise exactly one error, 20 and 21 where session or attachment are missing |
| `Gateway.NetworkGateway.SendUpdates` | crates/nexum-network/src/gateway.rs:1164-1237 | the messages meant for the subscriber are those of the updates, in order, all of them unless it is dropped on the way |
| `Gateway.NetworkGateway.HandleSubscribe` | crates/nexum-network/src/gateway.rs:999-1069 | either exactly one error under the request id and no change, 20, 21 and 17 where session, attachment or room are missing, or one new subscription on the session's world and its updates under the request id |
| `Gateway.NetworkGateway.HandleUnsubscribe` | crates/nexum-network/src/gateway.rs:636-661 | exactly the named subscription goes, in silence; an unknown one gets error 22 |
| `Gateway.NetworkGateway.HandleResync` | crates/nexum-network/src/gateway.rs:662-688 | the resync of a known subscription is counted, ends the stale episode unless the transport is full again, and sends its updates; an unknown one gets error 22 and ends nothing; standing is unchanged |
| `Gateway.NetworkGateway.HandleCall` | crates/nexum-network/src/gateway.rs:772-911 | a call is accepted in silence, under the next gateway id, for the session's world and client id, or refused with one failure under that id or the rate error; ids of the server, ids that wait already and calls beyond the limit are refused |
| `Gateway.NetworkGateway.AnswerCall` | crates/nexum-network/src/gateway.rs:1371-1402 | the call is sealed with one answer that carries its outcome; that result, under the client's own id, is meant for the call's own connection, nothing is meant for anybody else, it is tried unless the session is stale, and other calls wait on unless their caller is gone |
| `Gateway.NetworkGateway.RouteResults` | crates/nexum-network/src/gateway.rs:1370-1404 | whatever ids the runtime echoes: no call reported is pending afterwards; exactly the pending calls reported are answered, each with the outcome of the first result with its id, unless the caller is gone; the answers are in the order of the results; all other calls wait on; and every connection is to hear its answers, in order, and hears nothing else |
| `Gateway.NetworkGateway.SweepCalls` | crates/nexum-network/src/gateway.rs:1412-1447 | exactly the pending calls of dead worlds are answered, with a failure, unless the caller is gone, even when answering one drops the callers of others; every connection is to hear its answers and hears nothing else |
| `Gateway.NetworkGateway.FanOut` | crates/nexum-network/src/gateway.rs:1268-1456 | world after world the broadcast, the updates and the results, then the sweep; together they settle exactly the pending calls that were reported or belong to a dead world, each with its first reported outcome or else a failure; no stale episode ends |
| `Gateway.NetworkGateway.FanWorld` | crates/nexum-network/src/gateway.rs:1277-1404 | one world: the broadcast, then the updates, then the results |
| `Gateway.NetworkGateway.Broadcast` | crates/nexum-network/src/gateway.rs:1305-1333 | exactly the attached connections are to get one tick update, unless it is empty and empty ones are skipped, or does not fit a frame; nothing else goes out and no call is settled |
| `Gateway.NetworkGateway.Deliver` | crates/nexum-network/src/gateway.rs:1342-1363 | every listed subscriber is to get the messages of its drained updates, in order, all of them unless it is dropped on the way; nothing else goes out and no call is settled |
| `Gateway.NetworkGateway.PumpEverything` | crates/nexum-network/src/gateway.rs:1460-1486 | every connection is to get what the runtime has for each of its subscriptions; then exactly the broken connections are lost |
| `Gateway.NetworkGateway.DropAll` | crates/nexum-network/src/gateway.rs:1730-1742 | exactly the named connections are lost, and nothing else happens |
| `Gateway.NetworkGateway.Dispatch` | crates/nexum-network/src/gateway.rs:462-761 | a client message affects only its own connection and does and says what its handler is for, nothing else; only a resync request can be counted as a resync, and without one a stale episode lasts |
| `Gateway.NetworkGateway.ProcessInbound` | crates/nexum-network/src/gateway.rs:350-459 | exactly the failed connections are lost, then every frame is served in order, then exactly the broken connections are lost; every invariant is kept, and only connections that ask for it are resynced |
| `Gateway.NetworkGateway.Receive` | crates/nexum-network/src/gateway.rs:420-459 | one frame is dispatched, or answered with an error that costs the connection; nobody but its sender can be resynced by it |
| `Gateway.NetworkGateway.Reject` | crates/nexum-network/src/gateway.rs:436-452 | a frame that does not decode is answered with one error and costs the connection |
| `Gateway.NetworkGateway.Run` | crates/nexum-network/src/gateway.rs:128-191 | in every run each event in turn does what it is for, the indexes describe one relation, the call book is exact, slots are never reused, answers, the log and everything sent stand, and a session that asks for no resync stays in its stale episode, with signals only, as long as its connection lasts |
| `Codec.ValueTrip` | crates/nexum-core/src/binary.rs:95-132 | every value decodes from its encoding before any suffix |
| `Codec.ValueExact` | crates/nexum-core/src/binary.rs:115-132 | bytes accepted as a value are exactly its encoding |
| `Codec.AppendAll` | crates/nexum-core/src/binary.rs:147-149 | the encoding loop appends the elements' encodings in order |
| `Codec.TakeMany` | crates/nexum-core/src/binary.rs:164-166 | the decoding loop takes the elements in order, or fails with the first that is malformed |
| `Codec.RowTrip` | crates/nexum-core/src/binary.rs:145-168 | every row decodes from its encoding before any suffix |
| `Codec.RowExact` | crates/nexum-core/src/binary.rs:158-168 | bytes accepted as a row are exactly its encoding |
| `Schema.ColumnsOk` | crates/nexum-core/src/schema.rs:279-292 | the loop with its seen-set accepts exactly non-blank, distinct column names |
| `Schema.IndexesOk` | crates/nexum-core/src/schema.rs:294-313 | likewise for indexes, each over at least one column |
| `Schema.Refer` | crates/nexum-core/src/schema.rs:315-333 | all names refer to columns |
| `Schema.Build` | crates/nexum-core/src/schema.rs:262-341 | the builder accepts exactly the schemas with the documented guarantees |
| `Schema.SchemaTrip` | crates/nexum-core/src/binary.rs:171-233 | every built schema decodes from its encoding before any suffix |
| `Schema.SchemaExact` | crates/nexum-core/src/binary.rs:198-233 | bytes accepted as a schema are its encoding, and the schema has the documented guarantees |
| `Payloads.FrameTrip` | crates/nexum-network/src/protocol.rs:906-950 | input frames round-trip, and the early count check never refuses a genuine one |
| `Payloads.QueryTrip` | crates/nexum-network/src/protocol.rs:956-1024 | every query the builder accepts round-trips |
| `Payloads.ArgsTrip` | crates/nexum-network/src/protocol.rs:1030-1055 | argument maps round-trip through insertion in key order |
| `Payloads.ChangeTrip` | crates/nexum-network/src/protocol.rs:1059-1137 | changes round-trip with the rows and versions of their kind |
| `Payloads.DeltaTrip` | crates/nexum-network/src/protocol.rs:360-382 | row deltas round-trip with the row under its own id |
| `Payloads.FrameExact` | crates/nexum-network/src/protocol.rs:924-950 | bytes accepted as an input frame are exactly its encoding |
| `Payloads.QueryExact` | crates/nexum-network/src/protocol.rs:993-1027 | bytes accepted as a query are exactly its encoding, if and only if its three flag bytes are zero or one |
| `Payloads.CollectedMap` | crates/nexum-network/src/protocol.rs:1043-1055 | of repeated arguments the last value counts |
| `Payloads.ArgsExact` | crates/nexum-network/src/protocol.rs:1043-1055 | bytes accepted as arguments are exactly their encoding, if and only if they are listed in key order without repetition |
| `Payloads.ChangesExact` | crates/nexum-network/src/protocol.rs:1070-1137 | bytes accepted as changes are exactly their encoding, if and only if no change carries a row or version its kind has no use for |
| `Frames.BuildFrame` | crates/nexum-network/src/protocol.rs:467-487 | an over-limit payload is refused; otherwise the frame with the checksum over version, kind and payload |
| `Frames.ScanFrame` | crates/nexum-network/src/protocol.rs:813-900 | a frame is read back whole before any suffix |
| `Frames.ScanPrefix` | crates/nexum-network/src/protocol.rs:858-884 | every proper prefix of a frame waits for more and is never invalid |
| `Frames.ScanExact` | crates/nexum-network/src/protocol.rs:813-847 | only the frame of a payload is read back as that payload |
| `Frames.RefusalExact` | crates/nexum-network/src/protocol.rs:813-847 | which error a buffer gets, by the magic, version, length and checksum it was built with, in this order |
| `Frames.CorruptionDetected` | crates/nexum-network/src/protocol.rs:836-846 | any corruption within four consecutive bytes that leaves the length field alone is rejected, checksum bytes included |
| `Protocol.ClientTrip` | crates/nexum-network/src/protocol.rs:217-567 | every well-formed client message within the limit decodes from its frame to itself, whatever follows the frame |
| `Protocol.ServerTrip` | crates/nexum-network/src/protocol.rs:278-808 | every well-formed server message within the limit decodes from its frame to itself, whatever follows the frame |
| `Protocol.ClientTrailing` | crates/nexum-network/src/protocol.rs:1245-1250 | a client payload with bytes to spare is malformed, whatever its kind |
| `Protocol.ServerTrailing` | crates/nexum-network/src/protocol.rs:1245-1250 | so is a server payload |
| `Protocol.UnknownKinds` | crates/nexum-network/src/protocol.rs:492-808 | a frame is refused for its kind exactly if no message has that kind |
| `Protocol.ClientExact` | crates/nexum-network/src/protocol.rs:492-567 | bytes accepted as a client message are exactly its encoding, if and only if its query flags and arguments are canonical |
| `Protocol.ServerExact` | crates/nexum-network/src/protocol.rs:570-808 | bytes accepted as a server message are exactly its encoding, if and only if its changes carry nothing superfluous |
| `Protocol.RepeatedArgument` | crates/nexum-network/src/protocol.rs:1043-1055 | a call with a repeated argument is accepted and encodes differently |
| `Protocol.StrayFlag` | crates/nexum-network/src/protocol.rs:993-1027 | a subscription with a stray flag byte is accepted and encodes differently |
| `Protocol.SuperfluousRow` | crates/nexum-network/src/protocol.rs:1070-1137 | a tick update with a superfluous row is accepted and encodes differently |
| `KnownAnswers.SignedBytes` | crates/nexum-core/src/binary.rs:95-112 | the bytes of one value of every signed type |
| `KnownAnswers.UnsignedBytes` | crates/nexum-core/src/binary.rs:95-112 | and of every unsigned one |
| `KnownAnswers.TextBytes` | crates/nexum-core/src/binary.rs:95-112 | and of text and bytes |
| `KnownAnswers.ClientBytes` | crates/nexum-network/src/protocol.rs:217-275 | the kind and the bytes of one client message of every kind |
| `KnownAnswers.SessionBytes` | crates/nexum-network/src/protocol.rs:280-328 | the kind and the bytes of the server's session messages |
| `KnownAnswers.UpdateBytes` | crates/nexum-network/src/protocol.rs:329-466 | of tick updates, snapshots and batches |
| `KnownAnswers.DeltaBytes` | crates/nexum-network/src/protocol.rs:368-394 | of deltas and stale notifications |
| `KnownAnswers.ReplyBytes` | crates/nexum-network/src/protocol.rs:389-415 | of errors, pongs and disconnects |
| `KnownAnswers.ResultBytes` | crates/nexum-network/src/protocol.rs:416-437 | of results of calls |
| `KnownAnswers.Tags` | crates/nexum-network/src/protocol.rs:956-1137 | the tags inside messages |
| `KnownAnswers.FrameBytes` | crates/nexum-network/src/protocol.rs:467-487 | the bytes of a whole frame |
| `Crc.BuildCrcTable` | crates/nexum-core/src/binary.rs:285-299 | every entry is its index after eight reduction steps |
| `Crc.Crc32.constructor` | crates/nexum-core/src/binary.rs:261-265 | nothing fed yet, the register all ones |
| `Crc.Crc32.Chain` | crates/nexum-core/src/binary.rs:268-276 | the bytes fed so far grow by the data; the table-driven update is the bit-by-bit polynomial division |
| `Crc.Crc32.Finalize` | crates/nexum-core/src/binary.rs:279-281 | the checksum of the concatenation of everything fed, in however many pieces |
| `Crc.ChainConcatenates` | crates/nexum-core/src/binary.rs:268-276 | chained hashing is hashing the concatenation |
| `Crc.BurstDetected` | crates/nexum-core/src/binary.rs:236-240 | equal-length inputs that differ only within four consecutive bytes have different checksums |
| `Crc.ResidueExact` | crates/nexum-core/src/binary.rs:241-282 | data followed by four bytes leaves the fixed residue exactly if those bytes are its checksum |
| `KnownAnswers.Polynomial` | crates/nexum-core/src/binary.rs:285-299 | the polynomial is that of clause 3.2.9 of IEEE 802.3, reflected |
| `KnownAnswers.TableEntries` | crates/nexum-core/src/binary.rs:285-299 | two entries of the table in section 8 of RFC 1952, and the checksum of nothing |
| `Rng.MixBijective` | crates/nexum-execution/src/rng.rs:22-29 | the mixing function is a bijection on 64-bit words |
| `Rng.VisitsEveryState` | crates/nexum-execution/src/rng.rs:22-29 | the odd increment reaches every state from every state |
| `Rng.DeterministicRng.constructor` | crates/nexum-execution/src/rng.rs:17-19 | the state is the seed |
| `Rng.DeterministicRng.NextU64` | crates/nexum-execution/src/rng.rs:22-29 | the draw of the next state of the orbit, from which the inverse of the mix recovers that state |
| `Rng.DeterministicRng.NextBelow` | crates/nexum-execution/src/rng.rs:41-56 | terminates for every seed and bound at the first accepted draw, and stays below the bound |
| `Rng.Rejection` | crates/nexum-execution/src/rng.rs:46-54 | each rejected draw brings the state closer to one that every bound accepts |
| `Rng.Unbiased` | crates/nexum-execution/src/rng.rs:41-56 | each value below the bound has exactly the quotient of 2^64 by the bound as its number of accepted draws |
| `Rng.UnbiasedOverSeeds` | crates/nexum-execution/src/rng.rs:41-56 | the same count over the states before the draw |
| `KnownAnswers.FirstDraw` | crates/nexum-execution/src/rng.rs:22-29 | the first draw of splitmix64 from seed 0 |
| `Rate.RateWindow.constructor` | crates/nexum-network/src/rate.rs:34-41 | no window is open and nothing has been asked |
| `Rate.RateWindow.Take` | crates/nexum-network/src/rate.rs:45-67 | the record of requests and of accepted ones grows accordingly, and while requests come in order no interval one window long holds twice the limit of accepted ones |
| `Rate.WindowBound` | crates/nexum-network/src/rate.rs:45-67 | over any non-decreasing request times, any half-open interval one window long holds at most twice the limit less one accepted operations |
| `Rate.BoundAttained` | crates/nexum-network/src/rate.rs:45-67 | that bound is reached for every limit and every window of at least two instants |

## Left out

- The write-ahead log, snapshots and recovery. Index maps are not modelled: what an index holds follows from the rows, and lookups and uniqueness are stated on those. Checks for tables that do not exist, which a transaction cannot name, are left out of the commit.
- The runtime, subscription windows, WASM, and the routing of messages between partitions: arbitrary answers or parameters.
- WebSocket, listeners, handshake bytes, signals, logging, metrics, profiling and timers.
- Game server, SDK, manifests, macros, benchmarks, control plane, policy and authentication tables.
- Error texts and panic payloads: errors are modelled by their variant; a panic is a failure with `Internal`.
- `rng_seed` and `avalanche`: a system's program may depend on the tick and its inputs in any way.
- The hint flags of the memory transport and the order between its two rings.
- The capacity reservations of the decoders: the length checks are modelled, memory exhaustion is not.
- Configuration builders, and `resume_tick` and `set_partition`, which only assign a field.
- The order in which sets and maps of the gateway are walked, and counters of reports and metrics.
- Frames and messages inside the gateway are one message type with the fields the gateway decides on; whether a frame fits is arbitrary. The fields of the gateway are one record of the class.
- GroupEquivalence.DeclaredGroup: assumes operations that meet `AccessExact` and totals within the budgets, because without either it is false (`Divergence.DeletedRowSurvives`, `DeletedRowListed`, `LookupDependsOnSibling`, `BudgetPerChild`); `DeclaredSuccess` needs no budgets.
- CheckedGroups.CheckedGroup: assumes that members do not touch rows pending at group start nor forge handles, and that of two members inserting into one table both keep the first row, because the checks of the code keep no record of these (`Divergence.HandleClashUnnoticed`).
- CheckedGroups.SelfContainedGroup: assumes this of each member alone.
- SystemsPhase.ParallelIsSerial: assumes what `DeclaredGroup` does of every group the phase reaches.
- Tick.ModesAgree: assumes the same.
- Protocol.ClientTrip: payload failures decode as one error; the code tells truncated from malformed.
- Gateway.NetworkGateway.Send: does not say which transport error occurred. Successful results go out through `AnswerCall` only, which records the answer.
- Gateway.NetworkGateway.Deliver: what a subscription drains is a parameter; that its id is unique within the world is the runtime's business, and where it were not the first listed subscriber would get the updates.
- Gateway ids and tick counters are unbounded; they would wrap after 2^64 steps.
