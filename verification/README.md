# FlashTier, modelled and proved

FlashTier is a pager over three tiers: device memory, host memory and a file
store. Threads read, write, move, prefetch and free pages at the same time, and
a page is moved by claiming it under a lock, copying it without the lock and
settling it under the lock again. This project models the parts of the program
that decide whether bytes survive that, and proves what they promise.

The main results:

- **Refinement.** Every interleaving of every thread's sections behaves like a
  plain map from page id to bytes: a successful read returns the bytes of the
  latest successful write (`Refinement.ReadReturnsLatestWrite`).
- **Ownership, accounting, no throw.** In every reachable state no two pages
  share a buffer or an extent, each tier's usage is exactly what pages and
  threads hold and stays within its budget, a copy on the store is the page's
  content, and no section can raise an error the code does not ask for.
- **Marks.** In every run a page is marked as copied exactly when the last of its
  completed writebacks, writes and losses of the range is a writeback, dirty, pinned
  and counted likewise, and its stamp orders it by the step that last used it.
- **Reclaim.** Cached extents are given up lowest first, and a reservation fails
  exactly when giving up all of them would not help. When no release is under
  way, that is exactly when every long enough window has an extent that must
  stay: the asking page's own, or one of a page whose bytes are in the store, in
  transfer, in error or being released.
- **The extent store.** It runs in step with the runtime and refuses none of its
  calls. Bitmap, free list, counter and per-extent I/O counts
  agree after every call; a multi-extent allocation finds the highest free run
  exactly when there is one; every operation handed out has one terminal status
  by the end of `close`.
- **Queue and shutdown.** The bounded queue lets nothing overtake a demand and
  settles every accepted demand once: fulfilled exactly if a worker loaded its
  page, rejected exactly if the load failed or was cancelled. Nobody is left
  waiting, and shutdown empties every tier from any state.
- **Planner and policies.** An eviction plan is the shortest legal prefix of the
  ranking that makes the room asked for, unique, and independent of hash-map
  order; there is none exactly when evicting every candidate would not do.
- **Integrity.** Any single changed byte changes FNV-1a 64, so a corrupted store
  header is always refused. The patterns of two pages, or of two seeds, differ in
  every block, so verification notices bytes that belong to another page.

## How it is laid out

| files | what they hold |
|---|---|
| `Collections`, `Words`, `Pages`, `Budgets` | vocabulary, 64-bit words, page metadata, tier budgets and the host allocator |
| `Protocol` | the page-movement protocol as a transition system: one step per locked section, one continuation per thread |
| `ProtocolInvariant`, `ProtocolOps`, `ProtocolSteps`, `ProtocolSafety` | the invariant, and its preservation by every step |
| `ProtocolFrames` | what the steps leave alone |
| `Refinement`, `PageHistory`, `ProtocolTheorems`, `Pinning`, `PinnedAtBirth`, `Shutdown` | what follows for every run |
| `Runtime` | the locked sections as methods updating the runtime's fields, each proved to be a step of `Protocol` |
| `Reclaim`, `StoreUsage` | reserving a range by reclaiming cached ones, and the agreement of budget and extents |
| `Extents`, `ExtentStore`, `StoreIo`, `StoreWorker`, `StoreHeader` | the store: allocator, asynchronous operations, transfer loop, worker, header |
| `StoreCoupling` | runtime and store run together: the calls between them are accepted |
| `TransferQueue`, `TransferEngine` | the transfer queue as a transition system, and its sections as methods |
| `Policy`, `Planner`, `Headroom` | ranking, planning, and planning on reachable states |
| `Workload`, `Integrity`, `Mixing` | trace annotation, checksums and patterns, and what the patterns tell apart |

A state of `Protocol` holds the page table, the live host and device buffers
with their bytes, the owned extents, the bytes of the store, the three budgets
and what each thread carries between sections. While a copy or store operation
is under way its destination may hold anything (`Scribble`), and it may fail at
any point. Threads, pages and buffers are unbounded in number.

## Where code and documents differ

The model follows the code.

- Allocation puts a page straight into a resident state
  (`src/runtime.cpp:611-616`, `643-655`); `ARCHITECTURE.md:141-145` describes
  intermediate states.
- A demand for a page whose prefetch is queued is queued behind it and the
  prefetch is kept (`TransferQueue.PrefetchIsNotUpgraded`);
  `ARCHITECTURE.md:188-190` says the prefetch is promoted and deduplicated.
- `ARCHITECTURE.md:173` says pinned pages are never evicted. A search for device
  victims looks at the pin when it collects and again before it acts, a search
  for host victims only when it collects, and the claims themselves do not look.
  So a pin set after a thread has settled on a page does not protect it:
  `Pinning.PinnedTooLate` gives a run from a fresh start with the host full.
  `Pinning.PinHoldsExactly` gives the exact condition, and
  `PinnedAtBirth.PinnedFromBirth` what a caller can do to be safe: pin at
  allocation.
- The planner counts the bytes needed and not the bytes by which usage already
  exceeds the limit. `Planner.PlansSufficeExactly` says when its plans make room;
  `Headroom.ReachablePlanMakesHeadroom` shows that in reachable states they
  always do.

## Assumptions

- A call made from within another counts as a thread of its own.
- Each hold of `state_mu_` is one atomic step, except that the rounds of the
  reclaim loop are steps of their own, which allows more interleavings than the
  code does.
- Telemetry does not throw. A device copy inside `write_page` completes or has
  no effect. The failures of device and host frees in `free_page` are modelled.
- Deadlines and retry limits are replaced by giving up at any time.
- Margins are reals; `floor(limit * margin)` is computed without rounding error.
  The score of the predictive policy is an arbitrary function to the reals.
- Extents and offsets are counted in whole extents in `Protocol`, in bytes in
  `ExtentStore`, `StoreIo` and `StoreHeader`.

## Model

| member | source | states |
|---|---|---|
| `Refinement.ReadReturnsLatestWrite` | src/runtime.cpp:807-991 | In every interleaving a read that succeeds returns the bytes of the latest successful write, or the initial bytes if there was none, wherever the page has been moved in between. |
| `Refinement.RunRefines` | src/runtime.cpp:543-2064 | After any run from a started runtime the invariant holds and the authoritative contents of all live pages are the replay of the run's allocate, write and free events on a plain map. |
| `Refinement.StepRefines` | src/runtime.cpp:543-2064 | One step changes the abstract map exactly as its event says: claims, copies, completions, failures, drops, reclaims and pins leave it alone. |
| `Refinement.LatestIsReplayed` | src/runtime.cpp:807-862 | Replaying the events leaves a page at its latest write since it was allocated, and absent once freed. |
| `Refinement.ChecksumIsOfLatestWrite` | src/runtime.cpp:828-862 | The checksum kept for a page is the FNV-1a 64 of its latest write. |
| `PageHistory.MarksTellTheRun` | src/runtime.cpp:851-860 | After any run from a start, a page is marked as having a store copy exactly when a writeback of it completed and since then it was neither written, nor its range reclaimed or released, nor the page inserted anew; dirty exactly when written since it was inserted and since its last writeback; pinned as its insertion or the last pin call said; and its use count is the number of its reads and writes. |
| `PageHistory.StampIsLastUse` | src/runtime.cpp:857-858 | The sequence stamp of a page is the clock at the step that last read or wrote it, and 0 for a page never used. |
| `PageHistory.StampsOrderUses` | src/runtime.cpp:942-943 | Of two live pages the one with the lower stamp is the one last used at an earlier step of the run, and conversely. |
| `PageHistory.LruTakesLeastRecentlyUsed` | src/policy.cpp:27-40 | After any run, no candidate was last used at an earlier step than the first victim of LRU. |
| `ProtocolSafety.StepKeepsInv` | src/runtime.cpp:543-2064 | Every enabled step of every thread keeps the whole invariant. |
| `ProtocolSafety.StepNeverThrows` | src/runtime.cpp:543-2064 | Under the invariant, every transition a section asks for is legal, those of the three inserts included, every buffer it frees or asks the tier of is live with the recorded size, every release is covered by usage and every range it frees is allocated and free of I/O. |
| `ProtocolSafety.SettledPageHasNoIo` | src/runtime.cpp:755-771 | No thread is waiting for a store operation over the extents of a page that no transfer is moving. |
| `ProtocolInvariant.Frame` | src/runtime.cpp:1774-2064 | A step that touches one page and one thread leaves what the invariant says of every other page and thread intact. |
| `ProtocolInvariant.LedgerFrame` | src/allocator.cpp:37-57 | If one page's and one thread's holdings change as usage changes, usage still equals the sum over all pages and threads. |
| `ProtocolTheorems.ReachableNeverThrows` | src/runtime.cpp:685-2064 | The same as StepNeverThrows, for every reachable state. |
| `ProtocolTheorems.StoreCopyIsValid` | src/runtime.cpp:1714-1730 | A page marked as having a store copy has a range, is clean, and the store holds its authoritative bytes. |
| `ProtocolTheorems.FailedWritebackLeavesNoCopy` | src/runtime.cpp:1891-1899 | A failed or torn writeback leaves the page in Error, still holding its host buffer, and never marked as copied. |
| `ProtocolTheorems.CompletedWritebackStores` | src/runtime.cpp:1903-1914 | In every reachable state, completing a writeback leaves the page on the store, clean and marked as copied, and the store then holds at its range the bytes that were authoritative before. |
| `ProtocolTheorems.FailureKeepsSource` | src/runtime.cpp:1808-1820 | A failed move of any of the four kinds leaves the page in Error with its source handle and its marks, without the target handle, and with the same authoritative bytes. |
| `ProtocolTheorems.FreeEnds` | src/runtime.cpp:781-787 | The last section of a free erases the page if every handle was given back, and otherwise leaves it Released and free to be freed again. |
| `ProtocolTheorems.TransitionsExactly` | src/page.cpp:23-57 | The transition table is exactly: into and out of the transfer state of each move, release of what is at rest, failure of what is live, the initial placements, and the drop of a device page to the store. |
| `ProtocolTheorems.SingleOwnership` | src/page.cpp:81-104 | Two pages never hold the same device or host buffer, and their extent ranges are disjoint. |
| `ProtocolTheorems.StateFixesHandles` | src/page.cpp:81-104 | In every reachable state a page's state fixes which of device buffer, host buffer and extent range it has, and at rest it holds exactly what its entry names. |
| `ProtocolTheorems.InFlightExactly` | src/page.cpp:23-57 | The in-flight bit is set exactly in the four transfer states and, in Released, exactly while a thread is cleaning up. |
| `ProtocolTheorems.UsageIsExactAndBounded` | src/allocator.cpp:37-57 | Device, host and store usage each equal what pages and threads hold, and never exceed the limit less the reserve. |
| `ProtocolTheorems.FillThenVerify` | src/runtime.cpp:1160-1254 | After a fill and no later write, verification passes in every later state in which the page can be read. |
| `Pinning.PinnedFrame` | src/runtime.cpp:1577-1772 | Through any run, a page that is pinned, settled on by no search and in no thread's hands keeps its state and its host and device pointers, unless a step names it; if nobody reads or writes it, its whole entry stays but for the cached store copy. |
| `Pinning.StepKeepsSheltered` | src/runtime.cpp:1577-1772 | The single step behind PinnedFrame, with the same clause: without an access, at most the cached store range is reclaimed. |
| `Pinning.PinHoldsExactly` | src/runtime.cpp:1595-1612 | For a pinned page at rest on the host or the device, with somewhere to go (for a host page that needs extents, a range to be had by reclaiming) and the threads that have settled on it free to act: no run of undirected steps moves it if and only if no thread has settled on it. |
| `Pinning.ChosenHostPageIsEvicted` | src/runtime.cpp:1607-1612 | A thread that has settled on a host page writes it back, pinned or not, reclaiming cached ranges for it if the store is full of them. |
| `Pinning.ChosenDevicePageIsEvicted` | src/runtime.cpp:1744-1748 | A thread that has settled on a device page demotes it through its three sections, pinned or not. |
| `Pinning.PinnedTooLate` | src/runtime.cpp:1577-1612 | A concrete run from a fresh start without a device: with the host full and a load refused a buffer, its search settles on the resident page, the owner pins it, and the search evicts it. |
| `PinnedAtBirth.PinnedFromBirth` | src/runtime.cpp:543-655 | From any reachable state, a page allocated with its pin set and named by no later call is pinned and at rest whenever it is in the table, and keeps its state and its host and device pointers to the end of the run. |
| `PinnedAtBirth.StepKeepsGuarded` | src/runtime.cpp:543-2064 | The step behind it: before its insertion only the allocating call has the page, afterwards it is sheltered. |
| `PinnedAtBirth.RunKeepsChosenBorn` | src/runtime.cpp:1687-1691 | In every run, searches have settled only on pages already handed out. |
| `Shutdown.TeardownKeepsInv` | src/runtime.cpp:404-471 | Tearing down one page, whatever its state and whichever handles it has, keeps the invariant. |
| `Shutdown.EmptyTableUsesNothing` | src/runtime.cpp:404-471 | With the table empty and no thread about, no buffer is live, no extent owned and every usage is zero. |
| `Runtime.TeardownNeverThrows` | src/runtime.cpp:410-468 | With the workers joined, every free and release of the teardown is accepted, so each page is erased. |
| `Runtime.Runtime.ReleaseAllPages` | src/runtime.cpp:394-471 | The teardown loop, from any state the invariant allows, leaves the table empty and all three usages zero. |
| `Runtime.Runtime.ReleasePage` | src/runtime.cpp:410-468 | One round of it: exactly that page's handles are released. |
| `Runtime.Runtime.ClaimStagedSection` | src/runtime.cpp:1783-1801 | The claim taken with a staging buffer in hand: taken only if the page is at rest where the move starts, and then the protocol's claim; otherwise the buffer is given back. The invariant is kept. |
| `Runtime.Runtime.ClaimWritebackSection` | src/runtime.cpp:1855-1875 | The writeback claim, its three refusals and the range it reserves when the page needs one. |
| `Runtime.Runtime.ClaimPromoteSection` | src/runtime.cpp:2007-2028 | The promotion claim: refused for a missing, busy or unaffordable page with nothing changed; when the device refuses, the reservation is given back and only the high water mark differs; otherwise the protocol's claim. The invariant is kept in every case. |
| `Runtime.Runtime.CompleteDemotion` | src/runtime.cpp:1824-1835 | Completing a demotion is the protocol's completion step: the device buffer is freed and its bytes refunded, and the page is on the host in the tier reported, not in flight, without a device buffer. |
| `Runtime.Runtime.CompleteWriteback` | src/runtime.cpp:1903-1914 | Completing a writeback is the protocol's completion step: the host buffer is freed, and the page is on the store, not in flight, clean and marked as copied. |
| `Runtime.Runtime.CompleteLoad` | src/runtime.cpp:1978-1986 | Completing a load leaves the page on the host with its buffer. |
| `Runtime.Runtime.CompletePromotion` | src/runtime.cpp:2051-2060 | Completing a promotion frees the host buffer and leaves the page on the device. |
| `Runtime.Runtime.FailIntoHost` | src/runtime.cpp:1964-1974 | A transfer into the host that fails gives back the host buffer and its bytes and leaves the source untouched. |
| `Runtime.Runtime.FailWriteback` | src/runtime.cpp:1891-1899 | A failed writeback keeps the host buffer and the reserved range. |
| `Runtime.Runtime.FailPromotion` | src/runtime.cpp:2036-2047 | A failed promotion gives back the device buffer and its bytes. |
| `Runtime.Runtime.WriteSection` | src/runtime.cpp:834-861 | A write lands in the authoritative buffer, marks the page dirty and its copy stale; which states write, which retry and which fail. |
| `Runtime.Runtime.ReadSection` | src/runtime.cpp:928-946 | A read of a missing page is NotFound; otherwise it returns the authoritative bytes exactly when the page is on the host or the device. |
| `Runtime.Runtime.DropSection` | src/runtime.cpp:1079-1092 | A missing page is NotFound; otherwise the page is dropped from the device exactly when it is clean, copied and settled there. |
| `Runtime.Runtime.AllocateDevice` | src/runtime.cpp:2011-2022 | The reservation is given back when the device refuses; only the high water mark remembers it. |
| `Runtime.Runtime.ReserveRange` | src/runtime.cpp:1632-1668 | Cached ranges are released in offset order and only until an attempt succeeds; nothing but those ranges, their copies and their bytes changes and the invariant is kept. With usage in step with the extents the reservation is refused exactly when every window of n extents contains one that must stay: owned by the asking page, or by a page on the store, in transfer, in error or released. Only ranges of other pages resident in memory are released, and when it is refused all of those have been. |
| `Reclaim.AllReleasable` | src/runtime.cpp:1641-1666 | Any set of reclaimable cached ranges can be released together: usage covers them and the invariant survives. |
| `Reclaim.ReleaseOne` | src/runtime.cpp:1656-1665 | One round of the loop adds one page to the released ones, so the result does not depend on the order. |
| `Reclaim.ReleasingHelps` | src/runtime.cpp:1632-1668 | Releasing more never makes a reservation harder. |
| `Reclaim.SortedByOffset` | src/runtime.cpp:1655-1655 | All the candidates, each once, in increasing order of offset. |
| `StoreUsage.RefusedOnlyWithoutWindow` | src/runtime.cpp:1632-1668 | With usage in step with the extents, a reservation of n extents is refused exactly when no window of n extents is free or reclaimable. |
| `StoreUsage.ReachableRefusal` | src/runtime.cpp:1632-1668 | In every reachable state in which no release is half done, giving up all cached ranges makes the reservation possible exactly unless every window of n extents contains one that must stay. |
| `StoreUsage.TargetsExactly` | src/runtime.cpp:1641-1653 | The ranges that can be reclaimed are exactly those of other pages resident on the host or the device; the test of the in-flight bit excludes none of them. |
| `StoreUsage.WindowsExactly` | src/runtime.cpp:1632-1668 | A window of free and reclaimable extents exists exactly when some window has no extent that must stay. |
| `StoreUsage.RunKeepsWhole` | src/runtime.cpp:239-239 | In every run from a start, sizes are whole extents and the budget covers the store. |
| `StoreUsage.UsageIsExtents` | src/runtime.cpp:755-787 | Outside the two moments of a release, store usage is the number of owned extents times the extent size. |
| `StoreUsage.StepKeepsWhole` | src/runtime.cpp:556-558 | Every page's size stays a whole number of extents, and the budget goes on covering the store. |
| `Pages.Transition` | src/page.cpp:81-104 | A transition is accepted exactly when the table allows it and it does not drop a dirty or uncopied page to the store; it changes state and tier only, the tier to that of the residence reached; which error is raised otherwise. |
| `Protocol.AllocationSize` | src/runtime.cpp:556-558 | The least multiple of the page size that holds the request. |
| `Budgets.ReserveOf` | src/allocator.cpp:31-33 | The reserve is the whole part of the limit times the margin, so it never exceeds the limit. |
| `Budgets.TierBudget.constructor` | src/allocator.cpp:37-46 | A new budget is empty and within its bounds. |
| `Budgets.TierBudget.SetLimit` | src/allocator.cpp:11-27 | The new limit is taken exactly when current usage fits under it; otherwise nothing changes. |
| `Budgets.TierBudget.TryReserve` | src/allocator.cpp:37-46 | Succeeds exactly when the bytes fit the headroom; usage then grows by them and the high water mark is raised to it, and otherwise nothing changes. |
| `Budgets.TierBudget.Release` | src/allocator.cpp:48-57 | Refuses to release more than is reserved, and otherwise lowers usage by the bytes and leaves the high water mark. |
| `Budgets.HostBackend.SetBudget` | src/backends/host_backend.cpp:47-61 | Accepted exactly when the live buffers fit the new usable limit. |
| `Budgets.HostBackend.Allocate` | src/backends/host_backend.cpp:106-155 | Null exactly when live bytes plus the request exceed the usable limit; a success adds that buffer, whose tier is pageable exactly when asked to be, and no other; a failure changes nothing. |
| `Budgets.BufferWithTier` | src/runtime.cpp:620-640 | A buffer allocated and then asked for its tier reports the kind of memory that was asked for, and the query cannot fail. |
| `Budgets.HostBackend.Free` | src/backends/host_backend.cpp:157-178 | Removes exactly the named buffer and its recorded size, or refuses and changes nothing. |
| `ExtentStore.NvmeBackend.AllocateExtent` | src/backends/nvme_backend.cpp:1160-1172 | The extent freed last is handed out, unless every extent is used. |
| `ExtentStore.NvmeBackend.AllocateExtents` | src/backends/nvme_backend.cpp:1178-1219 | Succeeds exactly when a free run of that length exists and takes the highest one; a refusal changes nothing; bitmap, list and counter still agree. |
| `ExtentStore.NvmeBackend.HighestRun` | src/backends/nvme_backend.cpp:1190-1206 | The downward scan finds the highest free run if there is one. |
| `ExtentLists.RunFitsCount` | src/backends/nvme_backend.cpp:1188-1188 | A free run of n extents implies n free extents, so the early exit on the counter loses nothing. |
| `ExtentStore.NvmeBackend.FreeExtents` | src/backends/nvme_backend.cpp:1221-1255 | Which arguments are refused and with which error; a refusal changes nothing, a success clears exactly the range and lists its extents last, in ascending order. |
| `ExtentStore.NvmeBackend.TakeAndGive` | src/backends/nvme_backend.cpp:1178-1255 | Freeing the run just allocated is accepted and restores bitmap and counter; there is such a run exactly when enough free extents lie side by side. |
| `ExtentStore.NvmeBackend.ReuseLastFreed` | src/backends/nvme_backend.cpp:1160-1255 | An extent that is freed is the next one handed out, and bitmap and free list are as before. |
| `ExtentStore.NvmeBackend.Submit` | src/backends/nvme_backend.cpp:1261-1343 | Which requests are refused and with which error; an accepted one is a new pending operation at the back of the queue over allocated extents. |
| `ExtentLists.CountsAfterSubmit` | src/backends/nvme_backend.cpp:1284-1298 | Queuing a request keeps every extent's count equal to the requests over it. |
| `ExtentLists.CountsAfterRetire` | src/backends/nvme_backend.cpp:900-907 | Retiring a request does too; the decrement never meets a zero it would skip. |
| `ExtentLists.BusyIsUsed` | src/backends/nvme_backend.cpp:1244-1247 | I/O is in progress over allocated extents only. |
| `ExtentStore.BusyIsPending` | src/backends/nvme_backend.cpp:900-968 | I/O is counted over an extent only for a queued or running operation that covers it and whose status is still pending, because workers lower the counts before they publish a status. |
| `ExtentStore.NvmeBackend.FinishedRangeIsFreeable` | src/backends/nvme_backend.cpp:937-968 | Once every operation ever accepted over an allocated range has a terminal status, freeing the range is not refused. |
| `StoreCoupling.StepKeepsCoupled` | src/runtime.cpp:543-2064 | Runtime and store run in step: the used bits stay exactly the owned extents, and every unsettled operation belongs to exactly one thread that waits for it, over that thread's range, whatever sections and store workers do. |
| `StoreCoupling.StoreNeverRefuses` | src/runtime.cpp:755-771 | In every run of the two together, each range a section frees is allocated and has no unsettled operation on it, and each transfer handed over lies on allocated extents. |
| `StoreCoupling.FreesAreAccepted` | src/runtime.cpp:1656-1660 | The step behind it, for the release and the reclaim of a range. |
| `StoreCoupling.SubmitsAreAccepted` | src/runtime.cpp:1882-1890 | And for the submission of a transfer. |
| `StoreCoupling.UnsettledFollows` | src/backends/nvme_backend.cpp:168-195 | In the backend's own records, accepting an operation adds it to the unsettled ones and settling one removes it, as the joint steps have it. |
| `StoreCoupling.FreeCallSucceeds` | src/backends/nvme_backend.cpp:1221-1255 | For such a range the backend's own checks pass: `free_extents` is not refused. |
| `StoreCoupling.SubmitCallSucceeds` | src/backends/nvme_backend.cpp:1261-1343 | For such a transfer, within the platform's limit, the checks of `read_async` and `write_async` pass. |
| `ExtentStore.NvmeBackend.Take` | src/backends/nvme_backend.cpp:923-935 | A worker takes the front of the queue; the counts are untouched. |
| `ExtentStore.NvmeBackend.Retire` | src/backends/nvme_backend.cpp:900-907 | A worker gives up the extents before the status is published. |
| `ExtentStore.NvmeBackend.Settle` | src/backends/nvme_backend.cpp:168-195 | An operation is settled once; terminal statuses are final. |
| `ExtentStore.OpsAfterRetire` | src/backends/nvme_backend.cpp:900-907 | The operations queued, running or retired but unsettled stay distinct and are exactly the pending ones when one is retired. |
| `ExtentStore.OpsAfterSettle` | src/backends/nvme_backend.cpp:168-195 | And when one is settled, which it was not before. |
| `ExtentStore.NvmeBackend.CancelAll` | src/backends/nvme_backend.cpp:1364-1380 | Exactly the queued operations are cancelled. |
| `ExtentStore.NvmeBackend.JoinWorkers` | src/backends/nvme_backend.cpp:1404-1407 | Whatever order the workers finish in, each operation they hold ends with its own result. |
| `ExtentStore.NvmeBackend.Close` | src/backends/nvme_backend.cpp:1382-1422 | Queued operations are cancelled, running ones end with their result, earlier statuses stand, and none handed out is left pending. |
| `ExtentStore.NvmeBackend.Open` | src/backends/nvme_backend.cpp:981-1158 | Which geometries are refused; on success every extent is free, listed in ascending order. |
| `StoreIo.WriteAll` | src/backends/nvme_backend.cpp:937-968 | For any interruptions and short counts, exactly the bytes moved are the buffer's, every other byte of the file is unchanged, and completion means all of them. |
| `StoreIo.ReadAll` | src/backends/nvme_backend.cpp:937-968 | Likewise for reads: completion means the buffer holds the range. |
| `StoreIo.JudgedExactly` | src/backends/nvme_backend.cpp:937-968 | The verdict of the transfer loop: done exactly when the calls before the first failing or empty one moved enough bytes, failed exactly when they did not and there is such a call. |
| `StoreWorker.RunWrite` | src/backends/nvme_backend.cpp:923-968 | A worker's whole write: the operation ends complete with its length exactly when the loop moved every byte, and then the file holds the buffer at the request's offset; otherwise failed; no byte outside the range changes, no other operation's status does, and the invariants of the backend are kept. |
| `StoreWorker.RunRead` | src/backends/nvme_backend.cpp:923-968 | A worker's whole read, likewise: complete exactly when every byte was moved, and then the buffer holds the range. |
| `StoreIo.InterruptionsAreInvisible` | src/backends/nvme_backend.cpp:947-949 | Interrupted calls do not change the outcome. |
| `StoreIo.ProgressFinishes` | src/backends/nvme_backend.cpp:937-968 | A device that always makes progress completes a transfer exactly when it has moved enough bytes in total. |
| `StoreIo.DisjointBytes` | src/backends/nvme_backend.cpp:76-96 | Requests over different extents move different bytes, never those of the header page. |
| `StoreHeader.CorruptHeaderRefused` | src/backends/store_common.hpp:34-74 | A sealed header with any one byte changed, the checksum's own included, is refused whatever geometry is asked for; for the right magic and version the reason given is fixed by the position of the byte. |
| `StoreHeader.OneByteBreaksTheSeal` | src/backends/store_common.hpp:34-49 | It is the checksum that fails. |
| `StoreHeader.NewStoreReopens` | src/backends/nvme_backend.cpp:1101-1109 | The header written at creation is accepted on reopening exactly for the same geometry or one left unstated. |
| `StoreHeader.ParseUndoesImage` | src/backends/store_common.hpp:20-32 | Reading back a header's image gives the header. |
| `StoreHeader.ImageUndoesParse` | src/backends/store_common.hpp:20-32 | Every 4096-byte block is the image of what it parses to. |
| `StoreHeader.StoreHeaderChecksum` | src/backends/store_common.hpp:34-45 | The loop computes FNV-1a 64 of the image with its checksum field cleared. |
| `StoreHeader.Seal` | src/backends/store_common.hpp:47-49 | Sealing changes the checksum only, and seals. |
| `StoreHeader.MismatchReason` | src/backends/store_common.hpp:51-74 | The first fault in the order the checks are made, none exactly for a sealed header of the right geometry with clear reserved bytes. |
| `StoreHeader.AcceptedExactly` | src/backends/store_common.hpp:51-74 | A header is accepted exactly when it has this magic and version, is sealed, agrees with what was asked for, has extents of at least 4096 bytes whose number times size is the capacity, a file size that fits 64 bits, and clear reserved bytes. |
| `StoreHeader.LeBytes` | src/backends/store_common.hpp:20-32 | Integers are stored lowest byte first. |
| `Integrity.Fnv1a64` | src/integrity.cpp:7-15 | The loop computes FNV-1a 64 of the first n bytes. |
| `Integrity.PrimeInvertible` | src/integrity.cpp:7-15 | Multiplying by the FNV prime modulo 2^64 can be undone. |
| `Integrity.SingleByteChangesHash` | src/integrity.cpp:7-15 | Two buffers that differ in one byte have different hashes, from any seed. |
| `Integrity.FillPattern` | src/integrity.cpp:29-46 | Filling in blocks of eight with a tail writes the pattern the device kernel writes byte by byte. What the pattern is worth is stated by the rows of Mixing. |
| `Integrity.VerifyPattern` | src/integrity.cpp:48-77 | The least offset among the checked ones, all of them or the first `checkLimit`, that differs from the pattern, or none when every checked byte agrees. |
| `Mixing.SplitMixInjective` | src/integrity.cpp:20-27 | The finalizer maps different words to different words. |
| `Mixing.WordsDiffer` | src/integrity.cpp:29-46 | Changing one of seed, page and block changes the word of the pattern. |
| `Mixing.PatternsDiffer` | src/integrity.cpp:29-46 | For one seed and two pages, or one page and two seeds, the patterns differ within every block of eight bytes. |
| `Mixing.BlocksDiffer` | src/integrity.cpp:29-46 | No two blocks of one pattern are the same. |
| `Mixing.VerifyContent` | src/integrity.cpp:48-77 | Over a buffer of at least eight bytes, eight or more of them checked: its own pattern passes, and that of another page or of another seed is reported. |
| `Mixing.KnownHash` | src/integrity.cpp:7-15 | The published FNV-1a 64 value of the one-letter string "a". |
| `Mixing.KnownSplitMix` | src/integrity.cpp:20-27 | The published first output of splitmix64 from 0. |
| `Mixing.KnownPattern` | src/integrity.cpp:29-46 | The first two bytes of the pattern for seed 0 and page 0: words are written lowest byte first. |
| `Policy.RankSorts` | src/policy.cpp:27-40 | The ranking is a permutation of the candidates in which an earlier page has the lower score, or the same score and the lower id. |
| `Policy.SortedIsUnique` | src/policy.cpp:139-152 | Two sorted arrangements of the same pages are equal, so the result does not depend on the sorting algorithm. |
| `Policy.RankIgnoresCollectionOrder` | src/page_table.cpp:83-89 | Nor on the order in which the page table yields the candidates. |
| `Policy.LruTakesTheOldest` | src/policy.cpp:27-40 | The first victim under LRU has gone unused longest, the lowest id among equals. |
| `Policy.RankVictims` | src/policy.cpp:36-39 | The ids in ranked order. |
| `Planner.PlanEvictions` | src/planner.cpp:20-83 | The plan is a prefix of the legal candidates in ranked order that covers the shortfall, each victim placed by the host room left; Budget is thrown exactly when all of them together do not cover it. With victims that are part of the usage, the headroom test fails after every proper prefix of the plan, and where Budget is thrown it fails even with every legal candidate evicted. A repeated id stands for its first page. |
| `Planner.PlanIsLegal` | src/planner.cpp:48-53 | Victims are candidates that are neither pinned nor in flight, none twice, and every such candidate is in line. |
| `Planner.HostRoomRespected` | src/planner.cpp:55-70 | What goes to the host and the room left add up to the room given. |
| `Planner.PlacedGreedily` | src/planner.cpp:55-70 | A victim goes to the host exactly when it fits beside those sent there before it; otherwise to the store, with the reason its dirty and copy marks give. |
| `Planner.ShortfallIsLeast` | src/planner.cpp:27-34 | No plan stops late: before its last victim the headroom test fails; and if all candidates together do not cover the shortfall, the test fails even with all of them evicted. |
| `Planner.PlanIsUnique` | src/planner.cpp:20-83 | There is at most one such plan. |
| `Planner.PlanIgnoresCollectionOrder` | src/planner.cpp:37-75 | The plan does not depend on hash-map iteration order. |
| `Planner.PlanMakesHeadroom` | src/planner.cpp:13-18 | Within the usable limit, for any need, carrying out a plan whose victims are part of the usage makes the headroom test true. |
| `Planner.TooMuchIsRefused` | src/planner.cpp:77-81 | A need above the usable limit cannot be covered, so Budget is thrown. |
| `Planner.PlansSufficeExactly` | src/planner.cpp:27-34 | For every device and need: plans whose victims are part of the usage make room exactly when usage is within the usable limit, or the need exceeds the usage so that there is no plan. |
| `Headroom.ReachablePlanMakesHeadroom` | src/runtime.cpp:1683-1705 | In every reachable state, for every need, policy and order of the candidates: every candidate is a victim in line, there is a plan exactly when evicting all of them would pass the headroom test, any plan passes it once carried out, and none of its proper prefixes does. |
| `Headroom.HeadroomIsTheBudgets` | src/planner.cpp:13-18 | The planner's headroom test on the device budget's figures is the budget's own test of a reservation. |
| `Headroom.VictimsAreUsage` | src/runtime.cpp:1687-1691 | The sizes of distinct pages resident on the device add up to no more than its usage. |
| `TransferQueue.StepKeepsInv` | src/runtime.cpp:1347-1486 | Every step keeps the queue bounded, requests distinct, and promises waiting exactly while their demand is outstanding. |
| `TransferQueue.RunKeepsInv` | src/runtime.cpp:1347-1486 | So does every run, and a settled promise keeps its fate. |
| `TransferQueue.StepSettlesOnce` | src/runtime.cpp:1368-1392 | No step settles a promise twice. |
| `TransferQueue.PromisesAreTrue` | src/runtime.cpp:1362-1392 | In every run from a start, a promise is fulfilled exactly when a worker finished its demand with success, and rejected exactly when one finished it with an error or shutdown cancelled it. |
| `TransferQueue.NoOvertaking` | src/runtime.cpp:1347-1360 | In every run a queued demand stays ahead of whatever was queued behind it: that request does not reach the front, where workers take from, while the demand is queued. |
| `TransferQueue.QueueIsBounded` | src/runtime.cpp:1403-1447 | In every run queued demands stay within the queue depth and the queue within the two depths together. |
| `TransferQueue.OnePrefetchPerPage` | src/runtime.cpp:1422-1447 | While work is admitted, a page is marked exactly when one prefetch of it is queued or executing. |
| `TransferQueue.NobodyLeftWaiting` | src/runtime.cpp:313-403 | When shutdown has returned, every accepted demand has been settled. |
| `TransferQueue.ShutdownCompletes` | src/runtime.cpp:313-403 | From any stopping state the engine can finish, in no more steps than there is work. |
| `TransferQueue.ShutdownIsBounded` | src/runtime.cpp:1347-1401 | Any schedule of engine steps uses up the work one step at a time, so none can go on for ever. |
| `TransferQueue.PrefetchIsNotUpgraded` | src/runtime.cpp:1403-1420 | A demand joins the queue behind a queued prefetch of the same page, which stays. |
| `TransferQueue.RemoveQueuedPrefetch` | src/runtime.cpp:1471-1486 | The erasing loop removes the prefetches of the page and nothing else, and says whether there were any. |
| `TransferEngine.Engine.SubmitDemand` | src/runtime.cpp:1403-1420 | A demand is refused exactly when stopped; otherwise it is put at the back of the queue with a fresh promise, which is waiting. |
| `TransferEngine.Engine.SubmitPrefetch` | src/runtime.cpp:1422-1447 | A prefetch is refused exactly when stopped; otherwise it is put at the back of the queue and its page marked, unless the page is marked already or the queue is full, when nothing changes. |
| `TransferEngine.Engine.RemovePrefetch` | src/runtime.cpp:1471-1486 | The queue and the marks after removal. |
| `TransferEngine.Engine.TakeFront` | src/runtime.cpp:1347-1360 | A worker takes the front request. |
| `TransferEngine.Engine.EndDemand` | src/runtime.cpp:1368-1392 | A worker settles a demand whose promise was still waiting: fulfilled if the load succeeded, rejected if not, and no other promise changes. |
| `TransferEngine.Engine.EndPrefetch` | src/runtime.cpp:1393-1399 | A worker unmarks a prefetch when it is done with it, and no sooner. |
| `TransferEngine.Engine.StopAdmission` | src/runtime.cpp:319-326 | Stopping swaps the queue out and clears the marks. |
| `TransferEngine.Engine.RejectCancelled` | src/runtime.cpp:327-340 | Every demand that was swapped out is rejected, none for the second time. |
| `Workload.AnnotateNextUse` | src/workload.cpp:173-193 | At every position the least positive distance to the next equal page id, or zero exactly when there is none. |

## Left out

- Device backends, the Windows completion-port code, backend registry, system
  probing, configuration, telemetry, command line and benchmarks: foreign calls
  and output; a device is a map from handle to bytes.
- Opening, locking and deleting the store file beyond its geometry and header;
  the loop that reads the header block at opening.
- `load_page`, `promote`, the demotion calls and `ensure_vram_headroom` as whole
  calls: they are sequences of the modelled sections with retries, so their
  effects are among the runs, but their own retry bounds are not stated.
- `choose_allocation_tier` and `choose_load_target`: a page may be allocated in
  any tier that accepts it.
- The terms of the predictive score and `rank_prefetch`.
- `force_reserve`, which the runtime never calls.
- Writing through the raw pointer of `device_memory_handle`.
- Termination of waits: fairness of condition variables and deadlines.
- ExtentStore.NvmeBackend.Submit: the 32-bit width of the per-extent counters is
  not modelled; it would take four thousand million operations on one extent.
- StoreIo.WriteAll: ends without a verdict when the answers given to it run out,
  because an endless series of interruptions is an endless loop.
- Pinning.PinHoldsExactly: a thread counts as settled on a page until it drops
  its search, also after it has tried the page; and the two tests of a device
  victim before its demotion are one step.
