# RepCRec, verified

RepCRec is a simulated replicated database: ten sites, twenty variables, two-phase locking with a
wait-for graph, site failure and recovery, write buffers installed at commit, and multiversion
read-only transactions. This project models one call of `execute_instructions` as a step of a state
machine, proves what every step keeps, and proves that class-based imperative code with the shape of
the original makes exactly those steps.

`dafny verify dfyconfig.toml` checks the whole project.

## How the project is laid out

* **The state machine, as values.** `Base`, `Model` (the state), `Versions` (the version map of one
  replica), `Locking` (the lock manager's operations), `Graph` (cycles of the wait-for graph) and
  `Execution` (requests, commit and abort, deadlock resolution, the drain, one step, runs). The
  outcome of a step is a next state, an escaping exception (`Throws`), or a read of the first element
  of an empty set (`EmptySet`, which no step of a run has). A run is any finite sequence of
  well-formed inputs; its length and the number of transactions are unbounded.
* **The objects.** `Variable`, `Site`, `SiteManager`, `Transaction`, `LockManager` and
  `TransactionManager` are classes with the fields of the original, updated in place. `Requests` holds
  the requests' `exec` methods and `Scheduler` holds `execute_instructions`; they are methods over the
  transaction manager object, which is passed as a parameter instead of being a singleton. Every
  method states the whole new abstract state, `View()`, as the corresponding function of the old one.
* **The invariant.** `Invariant` defines it, `LockLemmas`, `DataLemmas` and `SchedLemmas` show that
  each primitive change keeps it, `Preservation` that every request does, and `Traces` cuts a step into
  single changes and carries the invariant through deadlock resolution, the request and the drain.
* **Courses.** `Courses` strings the single changes of a run together, so that a theorem can speak of
  every moment at which the code acquires, releases, validates or throws, and not only of the states
  between steps. Every state of every run is a moment of a course.
* **The theorems.** `Effects` and `Dispatch` say exactly what each request does to every field of the
  state, and what a step does with the request that comes in. `Acquisition` does so for locks, writes and
  locking reads, and `BlockedQueue` and `DrainedRequests` for the drain. `Replication`, `Commits`,
  `Failures`, `TwoPhase`, `Deadlocks`, `Waiters`, `Snapshots`, `Exceptions` and `SafeScripts` speak of
  whole runs.
* **Runs.** `Anomalies`, `LostWrite`, `DroppedWrite`, `EndlessWait`, `RepeatedRead` and `QueuedReread`
  are concrete runs in which a promise fails, built from the steps of `Scenarios`.

Five fields of the state (`now`, `begun`, `ended`, `asked`, `log`) are history: no operation reads
them. `log` lists the successful commits in the order in which they happen; the theorems on
replication, serializability and versions speak of it.

## Assumptions about scripts

The step is defined for every input, but a run takes only well-formed ones: transaction ids are fresh,
a transaction has no instruction before its begin or after its end, variables are 1..20, sites are
1..10, and time stamps strictly increase, except that the final dump may repeat the last one.

## Where the code and its documentation disagree

The model follows the code.

* Locking reads ask for the write lock too, so they exclude one another
  (`Acquisition.SecondReaderWaits`), although the design document speaks of shared locks.
* A locking read of a variable that its transaction has locked already lets an exception escape, unless
  it waits. `Exceptions.ThrowsIff` says exactly when a request throws, `Exceptions.OnlyRereadsThrow`
  that nothing else ends a run. A read after a read (`RepeatedRead.RepeatedReadThrows`) and a read after
  a write (`RepeatedRead.ReadOfWrittenThrows`) throw for each variable, and even a write after a read
  can, because it overtakes a read that waits in the queue (`QueuedReread.OvertakenReadThrows`). A
  script in which nobody does any of these never throws (`SafeScripts.ReadsOnceNeverThrows`).
* A commit is stamped with the time at which its End was *issued*. An End that runs later from the
  queue installs versions in the past. Hence the order of versions by time need not be the order of
  commits, and a snapshot is stable only if no such End is pending: `Snapshots.SnapshotStability` has
  that condition, `Snapshots.LookupChangesIff` says exactly which single change alters a lookup,
  `Snapshots.LookupKeptIff` when it stays for ever, and `Anomalies.SnapshotCanChange` is a run of seven
  instructions in which a reader's snapshot changes.
* A write can be dropped: when its variable has no site that is up, or when it is the second one to an
  even variable. `Acquisition.WriteOutcome` says exactly what becomes of a write, and
  `Acquisition.EvenRewriteIsLost` that the first value of an even variable stays.
  `DroppedWrite.OddWriteDropped` and `DroppedWrite.SecondEvenWriteDropped` are runs, for each variable,
  in which the transaction commits without the write.
* The queue does not keep all that is put into it. A request that blocks again while the queue is
  drained is erased with its entry. `BlockedQueue.EntrySurvivesIff` says exactly which entries outlive
  a drain, `DrainedRequests.LostIffBlocksAgain` exactly which requests are carried out and which are
  lost, and `LostWrite.WriteCanBeLost` is a run in which a transaction commits without a write that it
  has issued.
* `is_waiting_for_others(t)` asks whether somebody else waits for `t`.
* `release_locks` edits copies of the sets of waiters. A transaction that waits for two others waits for
  both as long as it lives (`Waiters.TwoTargetsForever`), so an edge to a transaction that is gone keeps
  its source waiting for ever (`Waiters.StaleEdgeForever`), though it is never part of a cycle
  (`Deadlocks.StaleEdgesAreLeaves`). `Waiters.WakesIff` says exactly which change of a run wakes a
  waiting transaction, and `Waiters.RoundIdleIff` exactly when a round of the final loop of the program
  changes nothing. `EndlessWait.LoopNeverEnds` is a run of nine instructions after which that loop never
  ends.

On a deadlock they agree: the youngest transaction is aborted, which the code takes to be the youngest
of all live ones, whether it is on the cycle or not (`Deadlocks.ResolutionIsMinimal`).

## Model

| member | source | states |
|---|---|---|
| Replication.OneCopyRefinement | repcrec/lock_manager/lock_manager.cc:60-102 | In every state of every run, whatever sites failed and recovered, each readable replica of an even variable holds the value of the last commit that wrote it, so readable replicas agree; the home replica of an odd variable holds its last committed value. |
| Replication.SerializableInCommitOrder | repcrec/request/request.cc:180-221 | A serial replay of the commits in commit order reproduces every value in the read histories of the committed read-write transactions, and these histories hold odd variables only. |
| Replication.StoreFollowsLog | repcrec/transaction/transaction.cc:48-58 | Value and version map of every replica are those that the logged commits leave behind. |
| Replication.OneWriterPerVariable | repcrec/lock_manager/lock_manager.cc:193-207 | Two live transactions never buffer the same replica, nor replicas of the same even variable; a writer buffers one value, at every readable replica. |
| Replication.ExclusiveIffBuffered | repcrec/transaction/transaction.cc:62-67 | A transaction owns a replica exclusively if and only if it is live and buffers a write to it. |
| Replication.AtMostOneHolder | repcrec/lock_manager/lock_manager.cc:22-58 | A replica has at most one holder, shared and exclusive together; the holder is live, and a sharer is not read-only. |
| Replication.GrantNeverRefused | repcrec/variable/variable.cc:31-38 | Whenever a lock is granted, at any moment of a step, the site is up, the replica has no exclusive owner and nobody buffers the variable, so setting the owner is never refused. |
| Replication.AvailabilityAlways | repcrec/site/site.cc:67-80 | Read-available implies write-available; for an odd variable at its home the two are equivalent in every reachable state. |
| Acquisition.AcquireVerdict | repcrec/lock_manager/lock_manager.cc:60-102 | What acquisition answers, in terms of the set of usable sites: granted exactly when nothing stands in the way at any of them, otherwise the first obstacle in site order decides between an own write lock and a wait for exactly its holders. |
| Acquisition.HomeVerdict | repcrec/lock_manager/lock_manager.cc:15-58 | The same answer for odd variables, although that branch tests the shared owners twice and never the exclusive owner. |
| Acquisition.ScanVerdict | repcrec/lock_manager/lock_manager.cc:61-100 | The scan over the sites, from any site on, ends with that answer. |
| Acquisition.HeldMeansWait | repcrec/lock_manager/lock_manager.cc:74-93 | Who holds nothing of a variable that another transaction shares at a usable site is told to wait, for a non-empty set. |
| Acquisition.SecondReaderWaits | repcrec/request/request.cc:223-237 | A locking read of a variable that another transaction has read waits and changes no replica. |
| Acquisition.WriteOutcome | repcrec/request/request.cc:35-130 | A write of a live transaction never throws, and at any moment it is dropped if and only if no site of its variable is up or its first obstacle is the transaction's own lock on an even variable; otherwise it is queued, behind exactly the holders at its first obstacle, if that obstacle is another's lock or an awaited one of its own; otherwise it buffers the value, and owns the replicas, at exactly the usable sites. Nothing else changes. |
| Acquisition.ReadOutcome | repcrec/request/request.cc:176-258 | At any moment a locking read of a live transaction is queued until the home site recovers if its variable is odd and not readable there; otherwise it is queued, behind exactly the holders at its first obstacle, if that obstacle is another's lock or an awaited one of its own; otherwise it throws if it meets its own lock; otherwise it shares exactly the usable readable replicas and records the home value of an odd variable. Nothing else changes; a read that is queued is in its entry together with all that was there. |
| Exceptions.ThrowsIff | repcrec/request/request.cc:35-334 | At any moment a request throws if and only if it is a locking read that meets a lock of its own transaction before any other obstacle, or its transaction is gone and it looks it up. |
| Exceptions.OddReadThrowsIff | repcrec/request/request.cc:180-221 | At any moment a locking read of an odd variable throws if and only if its home replica is readable and the transaction owns it exclusively, or shares it with nobody waiting for the transaction. |
| Exceptions.EvenReadThrowsIff | repcrec/request/request.cc:223-257 | At any moment a locking read of an even variable throws if and only if nothing stands in the way at any site that is up and the transaction shares one, or the first obstacle is a replica that it owns exclusively. |
| Exceptions.OnlyRereadsThrow | repcrec/transaction_manager/transaction_manager.cc:63-117 | A step of a run throws only at a moment at which a live transaction reads a variable on which it holds a lock. |
| RepeatedRead.RepeatedReadThrows | repcrec/request/request.cc:211-214 | For every variable, the run that begins a transaction and reads the variable twice throws in the second read. |
| RepeatedRead.ReadOfWrittenThrows | repcrec/request/request.cc:211-214 | For every variable and value, the run that begins a transaction, writes the variable and reads it throws in the read. |
| SafeScripts.ReadsOnceNeverThrows | repcrec/transaction_manager/transaction_manager.cc:63-117 | If a transaction that is not read-only and reads a variable issues no other read or write of it, before or after, then every step of every run of the script returns normally. |
| QueuedReread.OvertakenReadThrows | repcrec/transaction_manager/transaction_manager.cc:81-96 | That nobody reads what it has read or written before does not suffice: a run of seven instructions keeps to it, and the eighth throws, because a write of a blocked transaction runs at once, ahead of its queued read of the variable. |
| Acquisition.EvenRewriteIsLost | repcrec/lock_manager/lock_manager.cc:94-99 | At any moment a second write to an even variable returns normally and leaves every write buffer as it was. |
| DroppedWrite.OddWriteDropped | repcrec/request/request.cc:47-51 | For every odd variable and value, a run of four instructions in which the home site fails, the write leaves no trace in buffer or queue, and the transaction commits without it. |
| DroppedWrite.SecondEvenWriteDropped | repcrec/lock_manager/lock_manager.cc:94-99 | For every even variable and any two values written to it, a run of four instructions in which the first value stays in the buffer and is committed at every site. |
| TwoPhase.TwoPhaseLocking | repcrec/lock_manager/lock_manager.cc:150-219 | Between any two states of a run a live transaction keeps every lock that it holds, and a transaction that is gone never holds a lock again. |
| Commits.ReleaseExact | repcrec/lock_manager/lock_manager.cc:150-191 | Wherever the code releases locks - in an abort at any moment, among the victims of a failing site, and after the install of a commit - every lock of the transaction goes, on every replica, and no lock of another; an edge goes if and only if it starts at the transaction or all edges of its source lead to the transaction. |
| Commits.CommitAllOrNothing | repcrec/transaction/transaction.cc:26-60 | A successful commit installs exactly the buffered values, as current values and as versions at the commit time, and makes them readable; a failed one changes no value or version; either way no lock, edge or live entry of the transaction is left. |
| Commits.CommitFailsOnlyOnReads | repcrec/transaction/transaction.cc:28-46 | At any moment, also in the drain of a step that has failed a site, the check of the written sites succeeds; a commit fails if and only if a recorded read is no longer readable. |
| Commits.OnlyCommitsInstall | repcrec/transaction_manager/transaction_manager.cc:149-155 | No other change of a run - aborts, deadlock victims, reads, writes, failures, recoveries, queueing - alters a value, a version or the commit log. |
| Commits.AbortedIsGone | repcrec/transaction_manager/transaction_manager.cc:149-155 | After an abort nothing is left of the transaction in the live set, the blocked queue, the lock table, any replica or at the source of any edge. |
| Effects.FailOutcome | repcrec/request/request.cc:296-317 | The failure of a site, at any moment, ends exactly the live transactions that have buffered a write there; the others keep buffer, history, locks, queue entry and site wait, even if they have read there. The site is down, exactly its replicas stop being readable, and no value changes. |
| Effects.RecoverOutcome | repcrec/request/request.cc:322-334 | The recovery of a site, at any moment: it is up, whether it is the home of odd variables or not; of its replicas exactly those of odd variables at home there become readable; exactly the waits for this site end; nothing else changes. |
| Effects.SnapshotOutcome | repcrec/request/request.cc:144-174 | At any moment a snapshot read of an odd variable that is not readable at home is queued until the site recovers; otherwise, from the home or from the least site with a readable replica, the version with the greatest stamp not after the begin of the reader is recorded, and nothing else changes; if no site has a readable replica the reader is aborted, and nobody else. |
| Effects.EndOutcome | repcrec/request/request.cc:275-284 | An End, at any moment, commits if and only if all recorded reads are still readable: the buffered values are installed at the issue time of the End, readable and logged. Otherwise it aborts. Either way its locks and edges go, with the edges of those who waited for it alone, and nothing of another transaction changes. |
| Effects.VictimOutcome | repcrec/transaction_manager/transaction_manager.cc:64-68 | A deadlock victim is a youngest live transaction; its locks, edges and queue entry go, and nothing of another transaction changes but the edges of those who waited for it alone. |
| Effects.BeginOutcome | repcrec/request/request.cc:265-269 | A begin adds one transaction, new to the run, with its age and kind, that has neither read nor written, and changes nothing else. |
| Dispatch.GoneIsIgnored | repcrec/transaction_manager/transaction_manager.cc:70-80 | A read, write or End of a transaction that is not live after resolution ends the step: nothing happens to it, and nothing is drained. |
| Dispatch.EndIffNotHeldBack | repcrec/transaction_manager/transaction_manager.cc:82-99 | In every step with an End of a live transaction: if it waits for another, or has a queue entry, or waits for a site, the End joins the queue, nothing else happens, and the step is over; otherwise the End takes effect at its issue time and then the queue is drained. The transaction outlives the step if and only if it was held back. |
| Dispatch.AccessRuns | repcrec/transaction_manager/transaction_manager.cc:82-99 | In every step with a read or write of a live transaction the request runs, with exactly the outcome of its kind; if the transaction was held back the step is over then, otherwise the queue is drained. |
| Dispatch.OthersRun | repcrec/transaction_manager/transaction_manager.cc:98-115 | In every step with another instruction, a begin included, which nothing can hold back, it has exactly its effect, and then the queue is drained. |
| BlockedQueue.InsertJoins | repcrec/transaction_manager/transaction_manager.cc:124-126 | What is put into an entry is there afterwards, with all that was there, unless a request of the same time was there, which keeps it out; an entry ordered by time stays ordered. |
| Failures.BufferedSitesStayUp | repcrec/request/request.cc:296-317 | While a transaction lives, a site to which it has buffered a write stays up and is not failed by any step of the run. |
| Failures.FailKillsWriters | repcrec/request/request.cc:304-314 | A step that fails a site ends with every transaction that had buffered a write there aborted, even after the drain. |
| Failures.DrainRevivesNobody | repcrec/transaction_manager/transaction_manager.cc:101-115 | The drain brings no finished transaction back. |
| Deadlocks.NoPhantomDeadlock | repcrec/lock_manager/lock_manager.cc:221-225 | At any moment, also between the victims of a resolution, every edge of every cycle joins live transactions, and its target holds a lock on a variable that its source asked for. |
| Deadlocks.StaleEdgesAreLeaves | repcrec/lock_manager/lock_manager.cc:174-189 | At any moment every edge starts at a live transaction; one that ends at a finished transaction ends at a node without edges; one that ends at a live transaction is justified by a lock. |
| Waiters.WakesIff | repcrec/lock_manager/lock_manager.cc:174-189 | A change of a run makes a waiting transaction that survives it stop waiting if and only if it ends a transaction and all edges of the waiter lead to that one. |
| Waiters.TwoTargetsForever | repcrec/lock_manager/lock_manager.cc:174-189 | At any later moment of its life, whoever has waited for two transactions has both edges still and is not runnable. |
| Waiters.StaleEdgeForever | repcrec/lock_manager/lock_manager.cc:174-189 | Whoever waits at some moment for a transaction that is gone keeps that edge, and is not runnable, at every later moment of its life. |
| Waiters.RoundIdleIff | main.cpp:91-94 | A round of the final loop, from a state of the invariant and in any order of the queue, changes nothing if and only if the wait-for graph has no cycle and every queued transaction waits for another or for a site. |
| EndlessWait.LoopNeverEnds | main.cpp:91-94 | After nine instructions one live transaction waits for two that are gone, and any number of rounds of the final loop leaves the state as it is, with a request in the queue. |
| Deadlocks.ResolutionIsMinimal | repcrec/transaction_manager/transaction_manager.cc:64-68 | Resolution terminates, never reads an empty set and leaves no cycle; the victims are the youngest live transactions, and had only those younger than some victim been aborted, a cycle would remain. |
| Deadlocks.AbortsCompose | repcrec/transaction_manager/transaction_manager.cc:149-155 | Aborting one transaction after others is aborting all of them together, so the order of the victims of a failure is immaterial. |
| Deadlocks.CycleMeansLive | repcrec/transaction_manager/transaction_manager.cc:66-67 | A cycle implies a live transaction, so the first element of the ordered set exists. |
| Graph.FinishedIsAcyclic | repcrec/lock_manager/lock_manager.cc:269-269 | If every source of an edge has been finished after all its successors there is no cycle. |
| Graph.BackEdge | repcrec/lock_manager/lock_manager.cc:258-261 | An edge from the end of a walk back into the walk closes a cycle. |
| Versions.LookupRefinesLog | repcrec/variable/variable.cc:57-68 | After any sequence of installs, in any order of times, the lookup gives the logged value with the greatest time not after the asked one, the latest among equal times, and the initial value if there is none. |
| Versions.InstallEffect | repcrec/variable/variable.cc:65-68 | The exact effect of one more install on every lookup; one with a later time has none. |
| Versions.FloorKey | repcrec/variable/variable.cc:61-62 | The key found is the greatest that is not after the asked time. |
| Snapshots.SnapshotStability | repcrec/request/request.cc:144-174 | If no End is queued, lookups at times up to now keep their answers, at every replica, for the rest of the run. |
| Snapshots.SnapshotReads | repcrec/request/request.cc:144-170 | A read-only transaction that begins while no End is queued records, until its own End, only values of the versions at its begin. |
| Snapshots.LookupChangesIff | repcrec/request/request.cc:275-284 | A single change of a run alters a lookup if and only if it is a successful commit to that replica whose End was issued at that time or before, no later version is in between, and the value differs. |
| Snapshots.LookupKeptIff | repcrec/variable/variable.cc:57-68 | From any moment on, a lookup keeps its answer at every later moment if and only if no later change is such a commit. |
| Snapshots.CommitInvisible | repcrec/request/request.cc:276-276 | A commit is invisible at every replica to lookups before the issue of its End. |
| Snapshots.CommitVisibleIff | repcrec/variable/variable.cc:57-68 | Exactly when a commit leaves a lookup alone. |
| Snapshots.SnapshotIsCommittedIff | repcrec/variable/variable.cc:57-63 | A lookup now shows the last committed value if and only if the newest version by time carries it. |
| Anomalies.SnapshotCanChange | repcrec/request/request.cc:275-284 | A run of seven instructions in which the value that a live read-only transaction would read changes after its begin, and the newest version is not the current value. |
| BlockedQueue.EntrySurvivesIff | repcrec/transaction_manager/transaction_manager.cc:101-115 | An entry of the queue outlives the drain of a step, unchanged, if and only if its transaction waits for another or for a site when the drain meets it, and the drain adds no entry. |
| DrainedRequests.LostIffBlocksAgain | repcrec/transaction_manager/transaction_manager.cc:101-115 | Each request of an entry that the drain runs either blocks again at its turn, and then changes edges, site waits and its own entry only, or has its exact effect; in both cases its entry is gone after the drain. |
| LostWrite.WriteCanBeLost | repcrec/transaction_manager/transaction_manager.cc:113-115 | A run of nine instructions in which a transaction commits with an empty write buffer although it has issued a write, and the write is in no queue. |
| Invariant.InitInv | repcrec/site/site.cc:13-18 | The initial state satisfies the invariant. |
| Preservation.ExecKeeps | repcrec/request/request.cc:35-334 | Every request, whenever it may run, keeps the invariant and reads no empty set. |
| Preservation.WriteKeeps | repcrec/request/request.cc:35-130 | Every outcome of a write keeps it. |
| Preservation.LockingReadKeeps | repcrec/request/request.cc:176-258 | Every outcome of a locking read keeps it. |
| Preservation.ReadOnlyKeeps | repcrec/request/request.cc:144-174 | Every outcome of a snapshot read keeps it. |
| Preservation.EndKeeps | repcrec/request/request.cc:275-284 | A commit, successful or not, keeps it. |
| Preservation.FailKeeps | repcrec/request/request.cc:296-317 | The failure of a site keeps it. |
| Preservation.RecoverKeeps | repcrec/request/request.cc:322-334 | The recovery of a site keeps it. |
| Preservation.AbortKeeps | repcrec/transaction_manager/transaction_manager.cc:149-155 | Aborting any set of transactions keeps it. |
| LockLemmas.RestoredExact | repcrec/request/request.cc:326-331 | Recovery makes readable exactly the odd variables whose home is the site. |
| Traces.StepTrace | repcrec/transaction_manager/transaction_manager.cc:63-117 | A step of a well-formed input never reads an empty set and is a chain of single changes with the invariant at every moment, in whatever order the drain meets the queue. |
| Traces.RunKeeps | repcrec/transaction_manager/transaction_manager.cc:63-117 | The invariant holds in every state of every run. |
| Courses.CourseKeeps | repcrec/transaction_manager/transaction_manager.cc:63-117 | The invariant holds at every moment of every course. |
| Courses.RunIsCourse | repcrec/transaction_manager/transaction_manager.cc:63-117 | Every state of every run is a moment of a course. |
| Traces.DrainTrace | repcrec/transaction_manager/transaction_manager.cc:101-115 | The drain keeps the invariant entry by entry and after the erasure. |
| Scheduler.ExecuteInstructions | repcrec/transaction_manager/transaction_manager.cc:63-117 | The imperative step makes exactly a step of the model for some order of the queue, normal or exceptional, and keeps the invariant. |
| Scheduler.ResolveDeadlocks | repcrec/transaction_manager/transaction_manager.cc:64-68 | The loop terminates and does what resolution specifies. |
| Scheduler.AbortFirst | repcrec/transaction_manager/transaction_manager.cc:66-67 | The first element of the ordered set exists and is the youngest live transaction; it is aborted. |
| Scheduler.ServeRequest | repcrec/transaction_manager/transaction_manager.cc:74-99 | Drops, defers or runs the request. |
| Scheduler.DrainQueue | repcrec/transaction_manager/transaction_manager.cc:101-115 | Runs the entries of transactions that wait for nothing, in the given order, then erases exactly those. |
| Scheduler.KeysInSomeOrder | repcrec/transaction_manager/transaction_manager.cc:102-103 | Every key once. |
| RequestObjects.ExecRequest | repcrec/request/request.cc:35-334 | Any request does to the objects what it does in the model. |
| RequestObjects.ExecWrite | repcrec/request/request.cc:35-130 | So does a write, exceptions included. |
| RequestObjects.ExecRead | repcrec/request/request.cc:136-142 | So does a read, of either kind of transaction. |
| RequestObjects.ExecLockingRead | repcrec/request/request.cc:176-258 | A locking read. |
| RequestObjects.ReadSnapshotAtHome | repcrec/request/request.cc:147-161 | A snapshot read of an odd variable. |
| RequestObjects.ReadSnapshotAnywhere | repcrec/request/request.cc:162-173 | A snapshot read of an even variable: the first readable site, or an abort. |
| RequestObjects.FirstReadableSite | repcrec/request/request.cc:163-171 | Finds the site of `FirstReadable`. |
| Execution.FirstReadable | repcrec/request/request.cc:162-170 | The least readable site, and none only if no site is readable. |
| RequestObjects.ExecBegin | repcrec/request/request.cc:265-269 | A begin. |
| RequestObjects.ExecEnd | repcrec/request/request.cc:275-284 | An End, at the time of its issue. |
| RequestObjects.ExecFail | repcrec/request/request.cc:296-317 | A site failure. |
| RequestObjects.CollectWriters | repcrec/request/request.cc:304-311 | Exactly the transactions that have written into the site. |
| RequestObjects.AbortEach | repcrec/request/request.cc:312-314 | Aborts the collected transactions, in any order. |
| RequestObjects.ExecRecover | repcrec/request/request.cc:322-334 | A site recovery. |
| TransactionManagerObject.TransactionManager.constructor | repcrec/transaction_manager/transaction_manager.cc:12-13 | The initial state. |
| TransactionManagerObject.TransactionManager.First | repcrec/transaction_manager/transaction_manager.h:31-35 | The first element of the set ordered by descending begin time is a youngest live transaction. |
| TransactionManagerObject.TransactionManager.AddTransaction | repcrec/transaction_manager/transaction_manager.cc:119-122 | Map and ordered set keep holding the same transactions. |
| TransactionManagerObject.TransactionManager.AbortTransaction | repcrec/transaction_manager/transaction_manager.cc:149-155 | The abort of the model. |
| TransactionManagerObject.TransactionManager.EndTransaction | repcrec/transaction/transaction.cc:26-60 | The commit of the model: validate, then install or abort. |
| TransactionManagerObject.TransactionManager.Validate | repcrec/transaction/transaction.cc:28-46 | True exactly when every written site is up and every read replica is readable. |
| TransactionManagerObject.TransactionManager.InstallAll | repcrec/transaction/transaction.cc:48-58 | Installs exactly the buffered values and makes exactly them readable. |
| TransactionManagerObject.TransactionManager.BufferAll | repcrec/request/request.cc:116-118 | Buffers the value at exactly the given sites. |
| TransactionManagerObject.TransactionManager.AddRequestToBlockedQueue | repcrec/transaction_manager/transaction_manager.cc:124-126 | Inserts into the entry of the transaction by time; an equal time keeps the newcomer out. |
| TransactionManagerObject.TransactionManager.RemoveFromSiteWaitingMap | repcrec/transaction_manager/transaction_manager.cc:161-173 | Removes exactly the entries for the site. |
| LockManagerObject.LockManager.DetectDeadlock | repcrec/lock_manager/lock_manager.cc:231-249 | True if and only if the graph has a directed cycle, self-loops included; no edge changes and only nodes without edges are added. |
| LockManagerObject.LockManager.WaitForGraphDfs | repcrec/lock_manager/lock_manager.cc:251-270 | Terminates; reports only cycles, and otherwise finishes the node after all its successors. |
| LockManagerObject.LockManager.TryAcquireWriteLock | repcrec/lock_manager/lock_manager.cc:12-103 | The acquisition of the model. |
| LockManagerObject.LockManager.TryAcquireHome | repcrec/lock_manager/lock_manager.cc:15-58 | Its odd branch. |
| LockManagerObject.LockManager.TryAcquireAt | repcrec/lock_manager/lock_manager.cc:61-100 | One turn of its loop. |
| LockManagerObject.LockManager.QueriesReadEdges | repcrec/lock_manager/lock_manager.cc:281-290 | Both queries depend on edges only, and the second asks who waits for the transaction. |
| LockManagerObject.LockManager.AssignWriteLock | repcrec/lock_manager/lock_manager.cc:193-207 | The assignment of the model, on the sites that are up. |
| LockManagerObject.LockManager.AssignShareLock | repcrec/lock_manager/lock_manager.cc:209-219 | The assignment of the model, on the replicas that are readable. |
| LockManagerObject.LockManager.AssignWaitForGraph | repcrec/lock_manager/lock_manager.cc:221-225 | Adds exactly the edges to the owners. |
| LockManagerObject.LockManager.ReleaseLocks | repcrec/lock_manager/lock_manager.cc:150-191 | The release of the model, stale edges included. |
| LockManagerObject.LockManager.EmptiedBy | repcrec/lock_manager/lock_manager.cc:174-184 | The nodes whose only target, if any, is the transaction; the waiter sets stay as they are. |
| SiteManagerObject.SiteManager.constructor | repcrec/site_manager/site_manager.cc:12-16 | Ten sites, all up and readable, with the initial values. |
| SiteManagerObject.SiteManager.SetUnavailable | repcrec/site/site.cc:67-72 | The site is down and none of its replicas readable; the others are untouched. |
| SiteManagerObject.SiteManager.AssignVar | repcrec/site/site.cc:63-65 | One replica gets the value and the version; no other replica changes. |
| VariableObject.Variable.GetValue | repcrec/variable/variable.cc:57-63 | The current value for -1; for any other time the version with the greatest stamp that is not after it. |
| VariableObject.Variable.SetValue | repcrec/variable/variable.cc:65-68 | Current value and version. |
| VariableObject.Variable.SetExclusive | repcrec/variable/variable.cc:31-38 | Refuses exactly when there is an owner, and then changes nothing. |
| VariableObject.Variable.Promote | repcrec/lock_manager/lock_manager.cc:199-203 | The shared lock of the transaction goes and it becomes the owner, unless there is one. |
| VariableObject.Variable.Drop | repcrec/lock_manager/lock_manager.cc:165-170 | Whatever lock the transaction has here goes. |
| TransactionObject.Transaction.UpdateValues | repcrec/transaction/transaction.cc:62-67 | One buffered value is set and both write maps stay in step. |
| TransactionObject.Transaction.AddReadHistory | repcrec/transaction/transaction.cc:69-71 | One recorded read is set. |

## Left out

- SerializableInCommitOrder: says nothing of the even variables that read-write transactions read, because the code records no such read, and prints the value of any site that is up, readable or not.
- SnapshotReads: has the condition that no End is queued, because without it the property is false (SnapshotCanChange).
- FailKillsWriters: speaks of steps that return normally, because after an exception there is no next state.
- Text parsing of instructions, files, `dump`, and every `printf`: the model starts from parsed requests, and the values that locking reads of even variables only print are not recorded.
- `try_acquire_read_lock` and `remove_self_from_wait_for_graph`: nothing calls them.
- `waiting_var_id_`: it is set and never read.
- The singleton and the shared pointers: the objects are passed as parameters, and lock owners are transaction ids.
- Liveness of the final loop of the program, and of blocked requests in general: it is false, by EndlessWait.LoopNeverEnds and LostWrite.WriteCanBeLost; what is proved instead is exactly when a transaction wakes (Waiters.WakesIff), when a round is idle (Waiters.RoundIdleIff) and when a request is lost (DrainedRequests.LostIffBlocksAgain).
- ReadsOnceNeverThrows: gives a condition on scripts that suffices; a script that breaks it need not throw, because the request in question may be dropped or its transaction aborted, and exactly when a request throws is ThrowsIff.
- The width of `int`: ids, times and values are unbounded.
- The iteration of the drain over a map that the requests change: it is modelled as the keys at the start, in any order, skipping those that are gone; undefined behaviour of the iterator is not modelled.
- The nested maps from site to variable of a transaction are maps from (site, variable) pairs.
- Wait-for graph nodes without edges are part of the lock manager object and not of the abstract state, where they are unobservable.
- The call of `abort_transaction` inside `commit` is made by the caller of the two checks, `EndTransaction`, because `Transaction` does not know the manager.
- State after an exception has left `execute_instructions`: the run ends there.
