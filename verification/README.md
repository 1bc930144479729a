# ServiceCache: a verified model

ServiceCache keeps services warm: a host process runs a WebAssembly guest,
freezes it as a template, and forks clones off it on demand. This project
models the parts of it whose correctness spans several functions, processes or
tasks, and proves what they promise in every run.

- **Zero-page compaction** (`Extents`, `Blocks`, `Scan`, `ScanTheorems`,
  `Compaction`, `CompactionRun`, `HugePages`): the resumable scan that gives a frozen
  guest's zero pages back. Memory is pages with residency and contents; the
  system calls may fail at any time.
- **The template ledger** (`Ledger`, `LedgerSteps`, `LedgerRuns`,
  `LedgerClock`, `LedgerOrphans`, `LedgerWindow`): owner threads, frozen hosts and the channels
  between them, as one transition system over any number of templates standing
  on one another.
- **The control protocol** (`Control`, `ControlTheorems`, `ControlAnswers`,
  `HostLoop`, `Manager`): requests, replies and events between a manager and any number of
  hosts, the phases of a host, and both sides' loops.
- **Template slots** (`Slots`, `SlotSteps`, `SlotRuns`, `SlotAnswers`,
  `SlotExact`, `SlotForgets`): the single-flight cache of templates under two levels of locks.
- **Shared memory** (`SharedMemory`, `SharedMemorySteps`, `SharedMemoryRuns`,
  `SharedMemoryTheorems`, `SharedMemoryAnswers`, `SharedMemoryCalls`): the `ictrobot_shm_v1`
  extension: mapping, unmapping, forking, growing and futex identity.
- **The module cache** (`ModuleCache`, `ModuleCacheRuns`, `ModuleCacheExact`,
  `ModuleCacheAnswers`, `ModuleCacheCalls`): loaders and savers of several processes over files, names and locks.
- **Control frames** (`Frames`, `FrameChannel`), **connections**
  (`Connections`) and **byte strings** (`ByteString`,
  `ByteStringAnswers`).

Concurrent parts are transition systems: `Step` names what can happen next,
`Enabled` and `Apply` say when and how, `IsRun` strings steps together, and
theorems speak of every state of every run. Code that updates state in place is
also given as classes and methods with loops, each proved against the function
that the transition systems use. The `Answers` modules, `HugePages` and
`LedgerClock` then say what those functions answer from the arguments and the
state alone, without them. System calls, clocks and other outcomes of the
environment are parameters or are chosen arbitrarily.

Some promises do not hold as far as they are made. Each has a concrete run or
input that shows it, and the condition under which it does hold:

- Clones die with their template if they armed the parent-death signal while it
  lived (`LedgerRuns.ClonesDieWithTheirTemplates`). Between a fork and that call
  a clone can outlive it (`LedgerWindow.LostHostOrphans`,
  `LedgerRuns.NoOrphansExactly`); it then arms against whoever adopted it, and
  can be handed out, frozen and forked from (`LedgerWindow.OrphanServes`,
  `LedgerWindow.DisconnectOrphansBelow`). `LedgerOrphans.OrphanServesExactly`,
  `LedgerOrphans.TemplatesRootedExactly` and `LedgerOrphans.ArmedRootedExactly`
  say exactly when.
- A key has one slot, one fill and one live template unless a slot is forgotten
  or cleared at the wrong time (`SlotRuns.ForgetLetsTwoFill`,
  `SlotExact.ForgetLetsTwoLive`); `SlotExact.OneSlotExactly` and
  `SlotExact.OneTemplateExactly` say exactly when, and
  `SlotForgets.HarmlessExactly` which `forget` and `clear` can lead there.
- A reader can find part of an artifact after a lock file is removed under its
  holder (`ModuleCacheRuns.CleaningUnderALock`,
  `ModuleCacheExact.WholeExactly`). It cannot while lock files in use are left
  alone (`ModuleCacheRuns.ReadersFindWholeArtifacts`), nor while no process has
  two tasks on one entry (`ModuleCacheRuns.SeparateTasksStoreWhole`).
- A frame that `send` accepts is not one that `recv` takes, beyond the limits
  (`Frames.RoundTripExactly`).
- A shutdown before a freeze does not reach outbound connections
  (`Connections.OutboundOutlivesShutDown`, `Connections.ShutDownReaches`).

## Model

| member | source | states |
|---|---|---|
| `Extents.OverlayPagesExact` | crates/servicecache/src/host/freeze.rs:405-410 | an overlay's page range holds exactly the pages that the overlay's bytes touch |
| `Extents.ClippedOverlays` | crates/servicecache/src/host/freeze.rs:405-411 | the ranges kept for the sweep are non-empty, begin below the end, and cover exactly the pages there that some overlay touches, for any overlay list |
| `Extents.Sweep` | crates/servicecache/src/host/freeze.rs:412-422 | one pass over the sorted overlays: the extents are sorted, apart by at least a page, non-empty, and cover exactly the pages no overlay touches |
| `Extents.Subtract` | crates/servicecache/src/host/freeze.rs:405-422 | for any overlays, unsorted, overlapping or past the end, the extents are well formed and cover exactly the untouched pages |
| `Blocks.FirstAfterCovers` | crates/servicecache/src/host/freeze.rs:530-534 | the extent found for a page covers it exactly when it starts at or before it |
| `Blocks.BlockEndInPages` | crates/servicecache/src/host/freeze.rs:548-555 | the block end computed in addresses, with its saturating multiplication, is the page-level block end |
| `Blocks.SameBlock` | crates/servicecache/src/host/freeze.rs:548-555 | every page of a block has that block as its own, so blocks partition the extents |
| `Blocks.SelectedIsZero` | crates/servicecache/src/host/freeze.rs:581-606 | a page the specification selects for release is an anonymous resident page of zeros |
| `Scan.ReleaseTakesEffect` | crates/servicecache/src/host/freeze.rs:629-653 | releasing the pending run changes no byte that guest code can read |
| `Scan.RunIsMaximal` | crates/servicecache/src/host/freeze.rs:608-626 | the pending run has no releasable and no released page right before it, and nothing from it on is released yet, so each release is one new run |
| `Scan.ReleaseAccounted` | crates/servicecache/src/host/freeze.rs:629-653 | after a release, the counts of pages and of maximal runs released are exact |
| `Scan.ExtendRun` | crates/servicecache/src/host/freeze.rs:614-620 | a zero page next to the pending run extends it, across a block boundary too |
| `Compaction.Kernel.Mincore` | crates/servicecache/src/host/freeze.rs:562-570 | takes anonymous pages and room for their answers, so the scan is shown to give it nothing else; every call is on record, and every failure; residency is as it is when it succeeds |
| `Compaction.Kernel.Madvise` | crates/servicecache/src/host/freeze.rs:629-653 | takes anonymous pages, so no page of a shared overlay is ever released; the pages are dropped, or nothing changes and the failure is on record |
| `Compaction.Kernel.IsZero` | crates/servicecache/src/host/freeze.rs:581-606 | asks for anonymous pages, so no page of a shared overlay is ever read; true exactly when every word is zero |
| `Compaction.ReleasePending` | crates/servicecache/src/host/freeze.rs:629-653 | the pending run goes, or is lost, which is only when `madvise` failed for this memory; released flags, totals and memory stay in step and no other memory is touched |
| `Compaction.FindExtent` | crates/servicecache/src/host/freeze.rs:530-534 | the index of the first extent that ends after the frontier |
| `Compaction.FindHuge` | crates/servicecache/src/host/freeze.rs:556-560 | whether the first mapping over the page may hold huge pages; yes when there is none |
| `Compaction.ReadBlock` | crates/servicecache/src/host/freeze.rs:556-580 | the residency of the block's pages, the call on record, and `full` exactly when the block is a whole huge page, as `HugePages.HugePagesExactly` describes one |
| `Compaction.MarkWhole` | crates/servicecache/src/host/freeze.rs:581-593 | a block kept or dropped whole marks every page alike and counts it once |
| `Compaction.MarkPages` | crates/servicecache/src/host/freeze.rs:594-606 | page by page, the drop flags are the specification's and the resident and zero counts exact |
| `Compaction.ReleaseOrExtend` | crates/servicecache/src/host/freeze.rs:608-621 | a page ends the pending run, extends it or starts one, and the account of runs stays exact |
| `Compaction.ReleaseRuns` | crates/servicecache/src/host/freeze.rs:608-622 | a block's runs are released, the last one carried over to the next block |
| `Compaction.EndScan` | crates/servicecache/src/host/freeze.rs:530-538 | with no extent left, what is pending goes and the memory is done |
| `Compaction.SkipGap` | crates/servicecache/src/host/freeze.rs:539-543 | past an overlay the pending run goes first, so no run spans one |
| `Compaction.GiveUp` | crates/servicecache/src/host/freeze.rs:570-577 | after a failed `mincore`, and only then, the rest of the memory is kept, what is pending goes and the scan of it ends |
| `Compaction.FindBlock` | crates/servicecache/src/host/freeze.rs:544-555 | the block at the frontier, and whether it is a whole huge page |
| `Compaction.ScanBlock` | crates/servicecache/src/host/freeze.rs:522-626 | from any state between blocks to the next: strictly forward, scratch indexed in bounds, other memories untouched, and what `Between` says of pages, totals, calls and failures kept |
| `ScanTheorems.OnlySelectedPagesGo` | crates/servicecache/src/host/freeze.rs:581-653 | at any moment, only pages the per-page specification selects were ever released |
| `ScanTheorems.HugeBlockAllOrNothing` | crates/servicecache/src/host/freeze.rs:577-606 | a fully resident huge block in a possibly huge mapping is released whole or not at all, at any moment, with merged runs and failures |
| `CompactionRun.PageMappings` | crates/servicecache/src/host/freeze.rs:394-404 | the mappings clipped to the memory, page by page: a page is possibly huge exactly when the first mapping over it says so |
| `CompactionRun.PrepareMemory` | crates/servicecache/src/host/freeze.rs:391-433 | the scan state of one memory describes its frozen pages and begins at the start |
| `CompactionRun.Start` | crates/servicecache/src/host/freeze.rs:380-460 | exactly the private anonymous memories with a length are scanned, and each page of them may be huge exactly where the process's mappings say so; `scanned` is the sum of their extents and `scanned + overlay` of their pages; nothing is released yet |
| `CompactionRun.ExtentPagesCounted` | crates/servicecache/src/host/freeze.rs:436-444 | the lengths of a memory's extents add up to its anonymous pages |
| `CompactionRun.ZeroPageScan.constructor` | crates/servicecache/src/host/freeze.rs:452-460 | the scratch buffers hold a huge page's worth of pages |
| `CompactionRun.ZeroPageScan.ScanOne` | crates/servicecache/src/host/freeze.rs:466-479 | one block of one memory: every memory stays tracked, the totals are the sums of the parts, and pages remaining fall |
| `CompactionRun.ZeroPageScan.FindUnfinished` | crates/servicecache/src/host/freeze.rs:466-470 | the first memory with pages left; none exactly when the scan is done |
| `CompactionRun.ZeroPageScan.Step` | crates/servicecache/src/host/freeze.rs:464-513 | a slice scans at least one block unless done; when done, every memory for which no call failed has exactly the specified pages released; and after any slice the totals count the pages and maximal runs given back |
| `CompactionRun.ViewKept` | crates/servicecache/src/host/freeze.rs:522-653 | at any moment between blocks, every word of every memory reads as it was frozen |
| `CompactionRun.ScanFinished` | crates/servicecache/src/host/freeze.rs:464-513 | when a memory is done and no `madvise` and no `mincore` for it failed, its released pages are exactly the specification's, none is pending, and `released == zero` |
| `CompactionRun.ZeroAccounted` | crates/servicecache/src/host/freeze.rs:601-653 | at any moment, while no `madvise` for a memory failed, `zero` is the released and the pending pages |
| `CompactionRun.TotalsExact` | crates/servicecache/src/host/freeze.rs:629-653 | at any moment, whatever failed, `released` and `runs` count the pages given back and their maximal runs over all memories |
| `CompactionRun.AlignedBlockAskedOnce` | crates/servicecache/src/host/freeze.rs:548-570 | a huge-page-aligned block inside one extent is given to `mincore` at most once and only whole, and exactly once when the scan is past it, unless `mincore` failed |
| `HugePages.HugeExactly` | crates/servicecache/src/host/freeze.rs:556-560 | a page may be huge exactly when no mapping holds it or the first that does holds huge pages |
| `HugePages.SmapsExactly` | crates/servicecache/src/host/freeze.rs:394-404 | the same, told from the addresses of the process's mappings |
| `HugePages.HugePagesExactly` | crates/servicecache/src/host/freeze.rs:548-580 | the blocks that are kept or dropped whole are exactly the aligned runs of a huge page's worth of pages, all anonymous and resident, that may be one huge page |
| `HugePages.SelectedExactly` | crates/servicecache/src/host/freeze.rs:581-606 | the specification by blocks selects exactly the resident zero pages that are not part of a huge page with a word that is not zero |
| `HugePages.KeptExactly` | crates/servicecache/src/host/freeze.rs:581-593 | and counts as kept exactly the huge pages with a word that is not zero |
| `HugePages.HugePagesStayWhole` | crates/servicecache/src/host/freeze.rs:577-653 | at any moment, whatever failed, a whole huge page with a word that is not zero has no page released and is as it was frozen |
| `HugePages.FinishedExactly` | crates/servicecache/src/host/freeze.rs:464-653 | when a memory is done and no call for it failed, a page is released exactly when it is anonymous, resident and zero, and not part of a huge page that is not zero throughout |
| `HugePages.FinishedTotals` | crates/servicecache/src/host/freeze.rs:577-653 | and `resident`, `zero`, `released` and `kept_blocks` are the numbers of resident pages, of such pages and of such huge pages |
| `CompactionRun.Serve` | crates/servicecache/src/host/mod.rs:322-365 | in every interleaving of slices and forks, the template and every clone read the frozen memory byte for byte |
| `LedgerSteps.CountAfterFork` | crates/servicecache/src/serve/templates.rs:399-407 | counting a served fork and the exits buffered meanwhile keeps the balance, without saturating |
| `LedgerSteps.CountAfterDrain` | crates/servicecache/src/serve/templates.rs:411-422 | subtracting the drained exits keeps the balance, without saturating |
| `LedgerSteps.StepKeeps` | crates/servicecache/src/serve/templates.rs:384-436 | every step of owners, hosts, channels and processes keeps the ledger's invariant |
| `LedgerSteps.StepGuards` | crates/servicecache/src/host/freeze.rs:222-230 | every step, abrupt ends included, keeps each live clone that armed in time under a live parent, late ones without one, and every owner listening for clones of its own host only |
| `LedgerRuns.LedgerBalances` | crates/servicecache/src/serve/templates.rs:384-429 | in every reachable state `children` plus a fork made but not counted is live clones, zombies, exit reports in the channel, buffered events and drained exits; and the live clones are the live processes forked from it |
| `LedgerRuns.NeverSaturates` | crates/servicecache/src/serve/templates.rs:399-429 | `saturating_sub` never saturates and `children` is what the balance says after every update |
| `LedgerRuns.QuietBeforeExpiry` | crates/servicecache/src/serve/templates.rs:405-428 | when the expiry branch is taken, the template had no live child for at least `ttl` |
| `LedgerClock.ClockExactly` | crates/servicecache/src/serve/templates.rs:411-422 | a step sets the idle clock exactly when it drains the last exits, and nothing else moves it |
| `LedgerClock.IdleSinceWhen` | crates/servicecache/src/serve/templates.rs:384-422 | in every run the idle clock is the time of the freeze or of the last drain that took the last exits |
| `LedgerClock.ExpiresExactly` | crates/servicecache/src/serve/templates.rs:423-428 | in every run an owner that has drained expires its template exactly when no clone is alive, unreaped or unreported and the clock has stood for `ttl` |
| `LedgerRuns.ClonesDieWithTheirTemplates` | crates/servicecache/src/host/freeze.rs:222-230 | in every run, however templates end, a live clone that armed its parent-death signal in time, as did every process between it and an ancestor, has that ancestor alive and frozen, and dies in the step that ends it |
| `LedgerOrphans.OrphansExactly` | crates/servicecache/src/host/freeze.rs:197-230 | in every run a live clone has no parent exactly when some earlier step took its template down before it had armed |
| `LedgerOrphans.OrphanServesExactly` | crates/servicecache/src/manager.rs:184-216 | in every run an orphan serves, or can come to, if and only if it was handed out already or an owner that outlived its host has the answer that names the clone |
| `LedgerOrphans.LeftToServeExactly` | crates/servicecache/src/manager.rs:184-216 | told from the step that orphans it: the clone can come to serve if and only if its template had sent its answer and was not ended by its own owner's failed fork |
| `LedgerOrphans.TemplatesRootedExactly` | crates/servicecache/src/serve/templates.rs:251-260 | no template of a run ever has a dead ancestor if and only if no clone left behind by the end of its template was frozen later |
| `LedgerOrphans.ArmedRootedExactly` | crates/servicecache/src/host/freeze.rs:222-230 | in every state of a run each live clone that armed in time has all its ancestors alive, if and only if no clone left behind was later frozen and had a clone below it arm |
| `LedgerRuns.ExpiryNeverOrphans` | crates/servicecache/src/serve/templates.rs:405-428 | in every run an expiry takes down the template and nothing else |
| `LedgerRuns.DisconnectTakesItsClones` | crates/servicecache/src/serve/templates.rs:430-436 | in every run an owner that stops for want of handles takes every live clone of its own down with the template |
| `LedgerRuns.DisconnectOrphansExactly` | crates/servicecache/src/serve/templates.rs:430-436 | such an end leaves an orphan exactly when a template further down has a live clone that is not armed |
| `LedgerRuns.StepRooted` | crates/servicecache/src/host/freeze.rs:222-230 | a step leaves no live clone without its parent exactly unless it ends a template while it, or one below it that goes down with it, is between a fork and the clone's arming |
| `LedgerRuns.NoOrphansExactly` | crates/servicecache/src/host/freeze.rs:222-230 | no state of a run has a live clone whose parent is gone if and only if no template went down between a fork and the clone's arming |
| `LedgerWindow.LostHostOrphans` | crates/servicecache/src/host/mod.rs:109-113 | a host lost between a fork and the clone's arming leaves the clone behind: a concrete run |
| `LedgerWindow.OrphanServes` | crates/servicecache/src/manager.rs:184-216 | that clone is then heard by its owner, handed out and frozen, and a clone of it arms in time and lives without its grandparent: a concrete run |
| `LedgerWindow.DisconnectOrphansBelow` | crates/servicecache/src/serve/templates.rs:430-436 | disconnecting a base can leave a clone two levels down behind in that window, and that clone can come to serve: a concrete run |
| `LedgerRuns.ChainsUnwindLeafFirst` | crates/servicecache/src/serve/templates.rs:251-257 | where templates end only by expiry, every live process has all its ancestors alive and owned |
| `LedgerRuns.NoDescendantBeforeExpiry` | crates/servicecache/src/serve/templates.rs:405-428 | in such runs an expiring template had no live descendant at all for `ttl` |
| `LedgerRuns.AncestorsAlive` | crates/servicecache/src/serve/templates.rs:251-257 | in a state without orphans, any ancestor of a live process is alive and a template |
| `ControlTheorems.StepKeeps` | crates/servicecache/src/manager.rs:243-284 | every step of any number of hosts and channels keeps the pairing of replies and requests |
| `ControlTheorems.RepliesPairWithRequests` | crates/servicecache/src/manager.rs:243-284 | with one request outstanding, what `reply` returns is the host's answer to that very request, whatever exits, events and refusals interleave |
| `ControlTheorems.NeverRefusedAsBusy` | crates/servicecache/src/host/mod.rs:771-809 | a manager with one request outstanding is never refused because a run is under way |
| `ControlTheorems.CloneIntroducesItself` | crates/servicecache/src/host/mod.rs:711-767 | a clone's first message on its own channel is its announcement or its error |
| `ControlTheorems.StepAdvances` | crates/servicecache/src/host/mod.rs:526-767 | a step moves a process's phase forward or leaves it |
| `ControlTheorems.PhasesOnlyAdvance` | crates/servicecache/src/host/mod.rs:526-767 | over every run a process's phase never goes back and never leaves `Frozen`; only a fork's child begins at `Running{ready}` |
| `ControlTheorems.SlicesRunFrozen` | crates/servicecache/src/host/mod.rs:322-365 | a slice of the zero-page scan is only ever run in a frozen process, through any chain of freeze and fork |
| `ControlAnswers.RefusedExactly` | crates/servicecache/src/host/mod.rs:475-743 | a host answers a request with an error on the spot exactly when it does not take it in its phase or something it needs is missing; then nothing else about it changes, unless it was freezing |
| `ControlAnswers.TakenExactly` | crates/servicecache/src/host/mod.rs:526-743 | what it does with a request it takes: the reply of that kind with its work done, a run under way and nothing said, or the end; a fork's answer names the process that the step made |
| `ControlAnswers.FinishedExactly` | crates/servicecache/src/host/mod.rs:547-676 | the reply and the phase after each way that the run of a `prepare`, a `start` or an `initialize` can end |
| `ControlAnswers.BusyExactly` | crates/servicecache/src/host/mod.rs:793-809 | a request met by a wait is refused and leaves the host, or is `stop` and ends it |
| `ControlAnswers.IntroducedExactly` | crates/servicecache/src/host/mod.rs:344-354 | what a clone says first for each outcome, and that it goes on without the scan it inherited |
| `ControlAnswers.RepliesFitRequests` | crates/servicecache/src/host/mod.rs:475-767 | in every run, every answer a host ever gave is one that the request of its number can get |
| `ControlAnswers.ReplyFitsRequest` | crates/servicecache/src/manager.rs:110-284 | in every run, what `reply` returns fits the very request that the manager sent under that number |
| `HostLoop.HostProcess.DoTick` | crates/servicecache/src/host/mod.rs:401-456 | the guest's exit is said once and ends the host before clones are looked at; otherwise every zombie is reported, in order |
| `HostLoop.TickSays` | crates/servicecache/src/host/mod.rs:401-456 | a tick says the guest's exit once and ends the host, or says one exit for each clone that can be reaped and changes nothing else |
| `HostLoop.HostProcess.TickTurn` | crates/servicecache/src/host/mod.rs:401-456 | a tick of the loop is a run of the protocol's enabled steps: one exit of the guest, or an exit for each zombie |
| `HostLoop.HostProcess.HandleTurn` | crates/servicecache/src/host/mod.rs:475-500 | a request taken by the loop is one enabled `Accept` of the protocol, and the host's state, reply and descriptors are that step's |
| `HostLoop.HostProcess.RefuseTurn` | crates/servicecache/src/host/mod.rs:793-809 | a request met by a wait is one enabled `RefuseBusy` |
| `HostLoop.HostProcess.WaitTurns` | crates/servicecache/src/host/mod.rs:771-792 | a wait for a run, over any wakes and with everyone else at work, takes only waiting steps of the protocol and leaves the request it answers as it was |
| `HostLoop.HostProcess.FinishTurn` | crates/servicecache/src/host/mod.rs:526-676 | the answer after a wait is one enabled `Finish` |
| `HostLoop.HostProcess.ServeTurn` | crates/servicecache/src/host/mod.rs:322-356 | one turn of the loop is the others' steps, a tick, and then nothing when the host ended, a slice when the channel is quiet, or a request with all that answers it |
| `HostLoop.HostProcess.Serve` | crates/servicecache/src/host/mod.rs:322-356 | the whole loop, over any schedule of others' steps and wakes, is a run of the protocol, so the theorems on all runs speak of it; its phase only moves forward |
| `HostLoop.HostProcess.ServeAsClone` | crates/servicecache/src/host/mod.rs:344-354 | the child's side of a fork introduces itself by one protocol step and goes on in the loop |
| `HostLoop.TickIsSteps` | crates/servicecache/src/host/mod.rs:401-456 | a tick is a run of the protocol's own steps, so what holds of all runs holds of the loop |
| `Manager.HostProcess.Reply` | crates/servicecache/src/manager.rs:260-284 | the first message that is not a child's exit, the exits before it buffered in order, nothing after it touched |
| `Manager.HostProcess.ReadEvent` | crates/servicecache/src/manager.rs:294-306 | one message, taken; a success exactly for an exit |
| `Manager.HostProcess.DrainEvents` | crates/servicecache/src/serve/templates.rs:453-476 | counts exactly the clones' exits, or gives up at the first message that is no exit |
| `Manager.TemplateOwner.Served` | crates/servicecache/src/serve/templates.rs:399-407 | `children` and `idle_since` after a fork, exits subtracted one by one, are the ledger's |
| `Manager.TemplateOwner.TimedOut` | crates/servicecache/src/serve/templates.rs:411-428 | `children` and `idle_since` after a drain, and the decision to expire, are the ledger's: expiry exactly when idle for `ttl` |
| `Manager.ReadsAreReply` | crates/servicecache/src/manager.rs:260-284 | the protocol's read steps, taken to the end, are the `reply` loop |
| `SlotSteps.StepBasic` | crates/servicecache/src/serve/templates.rs:135-208 | every step, `forget` and `clear` included, keeps requests, locks and slots in order |
| `SlotSteps.StepKeeps` | crates/servicecache/src/serve/templates.rs:135-208 | without `forget` and `clear`, every step also keeps slots single and live templates stored |
| `SlotRuns.OneSlotPerKey` | crates/servicecache/src/serve/templates.rs:141-169 | in every run without `forget` and `clear`, a key has one slot in the map or in hand at most |
| `SlotRuns.OneFillPerKey` | crates/servicecache/src/serve/templates.rs:143-169 | in such runs, one request at most is filling a key |
| `SlotRuns.OneTemplateAlive` | crates/servicecache/src/serve/templates.rs:143-169 | in such runs, of all templates ever handed out for a key one at most is alive, the one in its slot |
| `SlotAnswers.UseAnswers` | crates/servicecache/src/serve/templates.rs:141-169 | one use of a slot: it sets out to fill exactly when the slot has no live template; otherwise it has a live one, of its base before it has the recipe's slot and of its recipe after, and goes on exactly when a recipe is still to come |
| `SlotAnswers.ObtainAnswers` | crates/servicecache/src/serve/templates.rs:135-169 | in every run a request that ends with a template gets a live one of the recipe it came in with, or of its base if it came with none; and one with a recipe has taken the recipe's slot |
| `SlotAnswers.BaseComesFirst` | crates/servicecache/src/serve/templates.rs:139-161 | in every run a request has its recipe's slot only after a step that gave it a live template of its base |
| `SlotRuns.NoRequestHoldsTwoLocks` | crates/servicecache/src/serve/templates.rs:142-161 | in every run a request holds one slot lock at most |
| `SlotRuns.UnreferredIsUnlocked` | crates/servicecache/src/serve/templates.rs:186-199 | in every run a slot with one reference is unlocked: the `try_lock` error arm is out of reach |
| `SlotRuns.PrunedExactly` | crates/servicecache/src/serve/templates.rs:186-199 | pruning removes a slot exactly when no request refers to it and its template is not alive |
| `SlotRuns.ForgetLetsTwoFill` | crates/servicecache/src/serve/templates.rs:173-176 | with `forget`, two requests fill one key at once: a concrete run |
| `SlotExact.StepInUse` | crates/servicecache/src/serve/templates.rs:201-207 | a step keeps one slot in use for each key exactly unless it makes a slot for a key that a request still holds another of |
| `SlotExact.OneSlotExactly` | crates/servicecache/src/serve/templates.rs:141-207 | in every run, with any `forget` and `clear`, a key never has two slots in use if and only if no request makes a slot for a key while another still holds one |
| `SlotExact.OneFillUntilDoubled` | crates/servicecache/src/serve/templates.rs:143-169 | up to the first such step, one request at most is filling a key |
| `SlotExact.StepAlive` | crates/servicecache/src/serve/templates.rs:143-169 | a step keeps one live template for each key exactly unless it fills a key with a template alive elsewhere |
| `SlotExact.RefilledElsewhere` | crates/servicecache/src/serve/templates.rs:143-169 | a live template of the key that such a fill meets is not the one in the slot being filled |
| `SlotExact.OneTemplateExactly` | crates/servicecache/src/serve/templates.rs:143-181 | in every run, with any `forget` and `clear`, a key never has two live templates if and only if no fill of it ends while a template of it is alive elsewhere |
| `SlotExact.HarmlessForgets` | crates/servicecache/src/serve/templates.rs:171-181 | neither happens in a run whose `forget` and `clear` meet only slots that nobody holds and that have no live template |
| `SlotForgets.HarmlessExactly` | crates/servicecache/src/serve/templates.rs:171-181 | in every state with single slots and stored templates, a `forget` or `clear` can lead to a key with two slots in use or two live templates, with nothing more forgotten, if and only if it meets a slot that a request holds or that has a live template |
| `SlotForgets.FirstHarmExactly` | crates/servicecache/src/serve/templates.rs:171-181 | the same at every `forget` and `clear` of every run whose earlier ones were harmless |
| `SlotExact.ForgetLetsTwoLive` | crates/servicecache/src/serve/templates.rs:171-176 | with `forget`, any key can have two live templates: a concrete run |
| `SlotRuns.Templates.SlotOf` | crates/servicecache/src/serve/templates.rs:201-207 | the key's slot, made if there is none; the map and the slots change in no other way |
| `SlotRuns.Templates.Prune` | crates/servicecache/src/serve/templates.rs:186-199 | one pass over the map removes exactly the slots with no other reference, unlocked, and without a live template |
| `SlotRuns.PruneAll` | crates/servicecache/src/serve/templates.rs:186-199 | given true counts and locks, the pass is the pruning of every key |
| `SharedMemorySteps.MapKeeps` | extensions/ictrobot_shm_v1/patches/0002-ictrobot_shm_v1-add-the-shared-memory-imports.patch:864-924 | `fd_map` keeps the invariant of the whole machine, whatever it answers |
| `SharedMemorySteps.MapIntoRefuses` | extensions/ictrobot_shm_v1/patches/0002-ictrobot_shm_v1-add-the-shared-memory-imports.patch:896-915 | a refused mapping leaves the process, the registrations and the bytes as they were |
| `SharedMemorySteps.UnmapKeeps` | extensions/ictrobot_shm_v1/patches/0002-ictrobot_shm_v1-add-the-shared-memory-imports.patch:930-959 | `fd_unmap` keeps the invariant, with the list order that `swap_remove` leaves |
| `SharedMemorySteps.OverlayAgrees` | extensions/ictrobot_shm_v1/patches/0001-vm-api-add-shared-file-overlays-for-linear-memory.patch:437-466 | an overlay makes exactly the mapped bytes the object's and leaves the others |
| `SharedMemorySteps.RestoreAgrees` | extensions/ictrobot_shm_v1/patches/0001-vm-api-add-shared-file-overlays-for-linear-memory.patch:478-497 | restoring makes exactly the mapping's bytes private again |
| `SharedMemorySteps.UnregisteredKeeps` | extensions/ictrobot_shm_v1/patches/0002-ictrobot_shm_v1-add-the-shared-memory-imports.patch:185-198 | a new length keeps the invariant where `set_len` allows it |
| `SharedMemoryRuns.ClonesKeep` | extensions/ictrobot_shm_v1/patches/0002-ictrobot_shm_v1-add-the-shared-memory-imports.patch:225-232 | every mapping of a live list can be cloned, and the child's list is the parent's under new registrations |
| `SharedMemoryRuns.ReplayAgrees` | extensions/ictrobot_shm_v1/patches/0002-ictrobot_shm_v1-add-the-shared-memory-imports.patch:1230-1244 | restoring the overlays one after another makes the child's memory agree with its list |
| `SharedMemoryRuns.ForkKeeps` | extensions/ictrobot_shm_v1/patches/0002-ictrobot_shm_v1-add-the-shared-memory-imports.patch:1194-1248 | a fork keeps the invariant, whether or not the child comes to run |
| `SharedMemoryRuns.ExitKeeps` | extensions/ictrobot_shm_v1/patches/0002-ictrobot_shm_v1-add-the-shared-memory-imports.patch:244-248 | the end of a process drops all its registrations and keeps the invariant |
| `SharedMemoryTheorems.StepKeeps` | extensions/ictrobot_shm_v1/patches/0002-ictrobot_shm_v1-add-the-shared-memory-imports.patch:157-198 | every step of any number of processes and objects keeps the invariant |
| `SharedMemoryTheorems.MappingsStayApart` | extensions/ictrobot_shm_v1/patches/0002-ictrobot_shm_v1-add-the-shared-memory-imports.patch:864-924 | in every run a process's mappings are page-aligned, non-empty, inside its memory and pairwise disjoint |
| `SharedMemoryTheorems.RegistrationsAreLiveMappings` | extensions/ictrobot_shm_v1/patches/0002-ictrobot_shm_v1-add-the-shared-memory-imports.patch:157-198 | in every run an object's registered ranges are exactly those of the live mappings to it, one each, and inside it |
| `SharedMemoryTheorems.RefusedMapLeavesNothing` | extensions/ictrobot_shm_v1/patches/0002-ictrobot_shm_v1-add-the-shared-memory-imports.patch:896-918 | in every run a failed `fd_map` leaves every process, registration and byte as it was |
| `SharedMemoryTheorems.ForkNeverPanics` | extensions/ictrobot_shm_v1/patches/0002-ictrobot_shm_v1-add-the-shared-memory-imports.patch:225-232 | in every run the `expect` in `fork_clone` cannot fail |
| `SharedMemoryTheorems.MovingGrowRefusedExactly` | extensions/ictrobot_shm_v1/patches/0001-vm-api-add-shared-file-overlays-for-linear-memory.patch:188-192 | in every run the overlay count is the mapping list's length, and a moving grow is refused exactly when a mapping exists |
| `SharedMemoryTheorems.IdentityFollowsBytes` | extensions/ictrobot_shm_v1/patches/0002-ictrobot_shm_v1-add-the-shared-memory-imports.patch:824-852 | `futex_owner` gives an aligned word's identity by where its four bytes are |
| `SharedMemoryTheorems.IdentityIsTheWord` | extensions/ictrobot_shm_v1/patches/0002-ictrobot_shm_v1-add-the-shared-memory-imports.patch:824-852 | in every run two aligned words of any two processes have one identity exactly when they are the same object word or the same private word |
| `SharedMemoryTheorems.OrderDoesNotMatter` | extensions/ictrobot_shm_v1/patches/0002-ictrobot_shm_v1-add-the-shared-memory-imports.patch:824-852 | in every run the identity is the same for any order of the mapping list |
| `SharedMemoryTheorems.MappedBytesAreTheObject` | extensions/ictrobot_shm_v1/patches/0001-vm-api-add-shared-file-overlays-for-linear-memory.patch:437-466 | in every run a mapped address reads the object's byte at the mapping's offset |
| `SharedMemoryTheorems.StoresAreShared` | extensions/ictrobot_shm_v1/patches/0001-vm-api-add-shared-file-overlays-for-linear-memory.patch:437-466 | in every run a store is seen at the same place in every process that maps it, and nowhere else |
| `SharedMemoryTheorems.ForkedChildIsTheParent` | extensions/ictrobot_shm_v1/patches/0002-ictrobot_shm_v1-add-the-shared-memory-imports.patch:1194-1248 | a forked child has the parent's mappings and reads what the parent reads, and runs exactly when every overlay was restored |
| `SharedMemoryTheorems.AllowedIsDefined` | extensions/ictrobot_shm_v1/patches/0002-ictrobot_shm_v1-add-the-shared-memory-imports.patch:185-198 | no step meets a dangling mapping or a byte past the end of an object |
| `SharedMemoryAnswers.MapAnswers` | extensions/ictrobot_shm_v1/patches/0002-ictrobot_shm_v1-add-the-shared-memory-imports.patch:864-924 | `fd_map` answers each error exactly under its condition on the arguments, in the order they are met, and succeeds exactly when none applies |
| `SharedMemoryAnswers.MapMaps` | extensions/ictrobot_shm_v1/patches/0002-ictrobot_shm_v1-add-the-shared-memory-imports.patch:894-923 | a successful `fd_map` makes the range the object's bytes from the file offset on, leaves every other address, and adds exactly that mapping and that registration |
| `SharedMemoryAnswers.MappedReads` | extensions/ictrobot_shm_v1/patches/0002-ictrobot_shm_v1-add-the-shared-memory-imports.patch:894-923 | in every run, after it the process reads the object through the range, from the file offset on, and elsewhere what it read before |
| `SharedMemoryAnswers.UnmapAnswers` | extensions/ictrobot_shm_v1/patches/0002-ictrobot_shm_v1-add-the-shared-memory-imports.patch:930-959 | `fd_unmap` succeeds exactly for a mapping's own range that the system lets go |
| `SharedMemoryAnswers.UnmapUnmaps` | extensions/ictrobot_shm_v1/patches/0002-ictrobot_shm_v1-add-the-shared-memory-imports.patch:930-959 | a successful `fd_unmap` makes the range private and zero, leaves every other address, and removes exactly that mapping and its registration |
| `SharedMemoryAnswers.ResizeRefusedExactly` | extensions/ictrobot_shm_v1/patches/0002-ictrobot_shm_v1-add-the-shared-memory-imports.patch:185-198 | in every run a new length is refused exactly when a live mapping of some process reaches past it |
| `SharedMemoryAnswers.WritesAreSeen` | extensions/ictrobot_shm_v1/patches/0001-vm-api-add-shared-file-overlays-for-linear-memory.patch:437-466 | in every run a write to the file is what every process reads through its mappings of those bytes, and changes nothing else that is read |
| `SharedMemoryAnswers.GrowExtends` | extensions/ictrobot_shm_v1/patches/0001-vm-api-add-shared-file-overlays-for-linear-memory.patch:184-196 | in every run a grow that is not refused keeps what was there and adds zeros; a moving one is refused exactly when a mapping exists, and changes nothing |
| `SharedMemoryCalls.Machine.Register` | extensions/ictrobot_shm_v1/patches/0002-ictrobot_shm_v1-add-the-shared-memory-imports.patch:157-175 | a range is registered under the next number, or refused when empty, too long or beyond the object |
| `SharedMemoryCalls.Machine.SetLen` | extensions/ictrobot_shm_v1/patches/0002-ictrobot_shm_v1-add-the-shared-memory-imports.patch:185-198 | refused exactly when a registered range would not fit; otherwise the new length |
| `SharedMemoryCalls.Machine.Overlay` | extensions/ictrobot_shm_v1/patches/0001-vm-api-add-shared-file-overlays-for-linear-memory.patch:200-222 | accepted exactly for a page-aligned range inside the memory that `mmap` takes; then overlaid and counted |
| `SharedMemoryCalls.Machine.FdMap` | extensions/ictrobot_shm_v1/patches/0002-ictrobot_shm_v1-add-the-shared-memory-imports.patch:864-924 | state and error are those of the specification, for every error path |
| `SharedMemoryCalls.Machine.MapLocked` | extensions/ictrobot_shm_v1/patches/0002-ictrobot_shm_v1-add-the-shared-memory-imports.patch:894-923 | what happens under the list's write lock |
| `SharedMemoryCalls.Machine.FdUnmap` | extensions/ictrobot_shm_v1/patches/0002-ictrobot_shm_v1-add-the-shared-memory-imports.patch:930-959 | state and error are those of the specification: exact range only, then `swap_remove` |
| `SharedMemoryCalls.Machine.FindMapping` | extensions/ictrobot_shm_v1/patches/0002-ictrobot_shm_v1-add-the-shared-memory-imports.patch:942-947 | the position of the mapping with exactly this range |
| `SharedMemoryCalls.Machine.FutexOwnerOf` | extensions/ictrobot_shm_v1/patches/0002-ictrobot_shm_v1-add-the-shared-memory-imports.patch:824-852 | the identity is that of the specification, with the shortcut for an empty list |
| `SharedMemoryCalls.Machine.CloneInto` | extensions/ictrobot_shm_v1/patches/0002-ictrobot_shm_v1-add-the-shared-memory-imports.patch:225-232 | one mapping cloned into the child, or the panic |
| `SharedMemoryCalls.Machine.CloneAll` | extensions/ictrobot_shm_v1/patches/0002-ictrobot_shm_v1-add-the-shared-memory-imports.patch:1194-1206 | the list cloned in order |
| `SharedMemoryCalls.Machine.RestoreAll` | extensions/ictrobot_shm_v1/patches/0002-ictrobot_shm_v1-add-the-shared-memory-imports.patch:1213-1248 | overlays restored in order up to the first failure; the child runs exactly when none failed |
| `SharedMemoryCalls.Machine.Fork` | extensions/ictrobot_shm_v1/patches/0002-ictrobot_shm_v1-add-the-shared-memory-imports.patch:1194-1248 | the whole fork is the specification's |
| `ModuleCache.StepFiles` | crates/servicecache/src/cache.rs:111-164 | every file operation of any task keeps each named file to its own entry's module |
| `ModuleCache.LoadersGetTheirModule` | crates/servicecache/src/cache.rs:111-147 | in every run, crashes, spoiled files and cleaning included, a loader that returns gives the module `compile` gives for its entry, and so does every file that loads |
| `ModuleCacheRuns.StepLocks` | crates/servicecache/src/cache.rs:193-211 | the lock file admits one task for each entry |
| `ModuleCacheRuns.StepWriters` | crates/servicecache/src/cache.rs:215-229 | two tasks never meet at a partial file, and a file being written is no entry's |
| `ModuleCacheRuns.ReadersFindWholeArtifacts` | crates/servicecache/src/cache.rs:213-229 | in every run that removes no lock file in use and spoils no artifact, a reader finds no artifact or a whole one |
| `ModuleCacheRuns.SeparateTasksStoreWhole` | crates/servicecache/src/cache.rs:213-229 | in every run that spoils no file, lock files removed under their holders included, readers find whole artifacts or none while no process has two tasks at work on one entry |
| `ModuleCacheExact.RunPartial` | crates/servicecache/src/cache.rs:213-229 | in every run that spoils no file, a file is partial exactly while its last writer has not finished it |
| `ModuleCacheExact.StepWholeExactly` | crates/servicecache/src/cache.rs:222-228 | a step leaves every artifact whole exactly unless it names an unfinished file |
| `ModuleCacheExact.WholeExactly` | crates/servicecache/src/cache.rs:213-229 | in every run that spoils no file, locks removed under their holders included, readers find whole artifacts or none if and only if no rename names a file its last writer has not finished |
| `ModuleCacheRuns.CompilesAreBounded` | crates/servicecache/src/cache.rs:126-146 | in every run that removes no lock file in use, an entry is compiled at most once more than a task at work on it, or its artifact, was lost |
| `ModuleCacheRuns.OneCompilePerEntry` | crates/servicecache/src/cache.rs:126-146 | with no failure after a compile began, no spoiling and no cleaning, an entry is compiled at most once, whatever the interleaving |
| `ModuleCacheAnswers.HitReturns` | crates/servicecache/src/cache.rs:121-132 | a loader that finds an artifact that loads, before the lock or under it, is done with that module; nothing is compiled or written |
| `ModuleCacheAnswers.MissGoesOn` | crates/servicecache/src/cache.rs:121-137 | one that finds none goes on to the lock, and under the lock compiles its entry once |
| `ModuleCacheAnswers.SaverLooks` | crates/servicecache/src/cache.rs:154-164 | a saver that finds any file is done and touches nothing; otherwise it stores |
| `ModuleCacheAnswers.FailsOnly` | crates/servicecache/src/cache.rs:126-147 | a task fails exactly by an error of its own, or because its partial file was gone when it came to rename it |
| `ModuleCacheAnswers.DoneLeavesFile` | crates/servicecache/src/cache.rs:121-147 | a task that is done leaves a file in place, and a loader that did not compile the one it loaded |
| `ModuleCacheAnswers.HitDecides` | crates/servicecache/src/cache.rs:121-132 | in every run a loader that finds an artifact has that module for its answer and takes no further step |
| `ModuleCacheAnswers.AloneSucceeds` | crates/servicecache/src/cache.rs:111-164 | in every run, a task that nobody disturbs, that meets no error and whose lock is free does not wait and does not fail, and once done has its artifact in place, whole for a loader |
| `ModuleCacheAnswers.TallyExactly` | crates/servicecache/src/cache.rs:126-146 | compiles and losses are counted one by one, each for its own entry |
| `ModuleCacheRuns.CleaningUnderALock` | crates/servicecache/src/cache.rs:65-71 | a lock file removed under its holder can put a part of an artifact in place: a concrete run |
| `ModuleCacheCalls.CacheDirectory.StoreEntry` | crates/servicecache/src/cache.rs:215-229 | a store puts the whole artifact in place or leaves every entry as it was |
| `ModuleCacheCalls.Machine.LockEntry` | crates/servicecache/src/cache.rs:193-211 | with everyone else at work: the lock, an error, or a wait that has not ended because another has the lock |
| `ModuleCacheCalls.Machine.Store` | crates/servicecache/src/cache.rs:215-229 | with everyone else at work between its file operations: stored by the cache's own steps, or failed |
| `ModuleCacheCalls.Machine.LoadBytes` | crates/servicecache/src/cache.rs:111-147 | whatever every other task and process does between its file operations: what it returns is the entry's own module and a file is then in place; it returns what it finds at either look; with no error, nobody else moving and the lock free it returns the module and leaves it in place; and it waits only behind another's lock |
| `ModuleCacheCalls.Machine.SaveHashed` | crates/servicecache/src/cache.rs:154-164 | likewise for a save: when it returns a file is in place, and it returns when nothing fails, nobody else moves and the lock is free |
| `Frames.RoundTripExactly` | crates/servicecache/src/host/protocol.rs:140-234 | a frame `send` accepts comes back as it was, taking exactly its own bytes, if and only if it is within the limits; with more than four descriptors it is a bad control message, and otherwise too large |
| `Frames.CutFrame` | crates/servicecache/src/host/protocol.rs:186-243 | a frame cut short anywhere is an error and never a frame |
| `Frames.StreamRoundTrip` | crates/servicecache/src/host/protocol.rs:186-243 | for any frames within the limits and a stream that ends after any number of bytes, the calls give exactly the frames that arrived whole, then a clean end at a boundary and an error inside a frame |
| `Frames.Le32RoundTrip` | crates/servicecache/src/host/protocol.rs:144-149 | a length survives its four bytes |
| `Frames.WireLayout` | crates/servicecache/src/host/protocol.rs:140-178 | a frame byte by byte: both lengths lowest byte first, then the message and the payload, descriptors with the first byte only |
| `FrameChannel.Channel.Send` | crates/servicecache/src/host/protocol.rs:140-178 | whatever `sendmsg` takes at a time, the whole frame is sent with its descriptors on its first byte, or an error leaves a front part of it |
| `FrameChannel.Channel.ReadExact` | crates/servicecache/src/host/protocol.rs:236-243 | exactly the bytes asked for, or an error at the end of the stream |
| `FrameChannel.Channel.ReadHeader` | crates/servicecache/src/host/protocol.rs:187-217 | the header, however it is cut, and the descriptors of its first byte; more than four are an error that leaves four open and owned by nobody |
| `FrameChannel.Channel.ReadBody` | crates/servicecache/src/host/protocol.rs:218-234 | after the header: the frame, or an error at the end of the stream; descriptors sent with the body are closed and no other is |
| `FrameChannel.Channel.Recv` | crates/servicecache/src/host/protocol.rs:186-234 | the answer and what is left are those of `Receive`, whatever the calls return; every descriptor passed is handed over, closed or leaked, and four leak exactly on a bad control message |
| `FrameChannel.Channel.RecvAll` | crates/servicecache/src/host/protocol.rs:186-243 | call after call gives the frames that arrived whole, and loses none of their descriptors |
| `FrameChannel.BodiesArePlain` | crates/servicecache/src/host/protocol.rs:151-178 | a frame sends no descriptor with its body, so a receiver closes none of a frame's own |
| `Connections.RunKeeps` | crates/servicecache/src/host/net.rs:396-508 | under every interleaving of accepts, two-step drops and reuse of numbers, streams, tracked numbers and open numbers stay in step |
| `Connections.TrackedExactly` | crates/servicecache/src/host/net.rs:472-508 | in every run a number is tracked exactly while it is that of an accepted stream the guest holds |
| `Connections.ShutDownReaches` | crates/servicecache/src/host/net.rs:148-182 | a shutdown that succeeds shuts every accepted connection held and no other; with no step in flight it reaches every connection the guest has exactly when none is outbound |
| `Connections.ShutDownLasts` | crates/servicecache/src/host/net.rs:148-182 | after a shutdown that succeeds with no step in flight, no accepted connection that is not shut ever appears in the rest of the run |
| `Connections.FailedShutDownIsSafe` | crates/servicecache/src/host/net.rs:148-182 | one that fails part of the way still shuts only connections that are held |
| `Connections.ShutDownFailsOnlyByAnswer` | crates/servicecache/src/host/net.rs:148-182 | it never fails because a number is closed |
| `Connections.OutboundOutlivesShutDown` | crates/servicecache/src/host/net.rs:261-271 | an outbound connection is not tracked and outlives a shutdown that succeeds: a concrete run |
| `Connections.HostNetworking.ShutTracked` | crates/servicecache/src/host/net.rs:166-173 | one tracked number after another up to the first failure |
| `Connections.HostNetworking.ShutDownSockets` | crates/servicecache/src/host/net.rs:148-182 | the listener, then the tracked numbers; success exactly when none fails |
| `ByteString.DecodeByteString` | crates/servicecache/src/manifest.rs:293-320 | the loop computes the decoding, every error included |
| `ByteString.DecodeExactly` | crates/servicecache/src/manifest.rs:290-320 | a text decodes to some bytes if and only if it is made of tokens that stand for them, one each |
| `ByteString.PreviewBytes` | crates/servicecache/src/host/probe.rs:96-111 | the loop computes the preview |
| `ByteString.PreviewRoundTrip` | crates/servicecache/src/host/probe.rs:94-111 | a preview decodes to the response when it has at most 24 bytes, and to its first 24 and three dots otherwise |
| `ByteString.EveryBytesHaveAText` | crates/servicecache/src/manifest.rs:290-320 | every string of bytes has a source text that decodes to it |
| `ByteString.PreviewsTellApart` | crates/servicecache/src/host/probe.rs:94-111 | two responses have one preview if and only if they are equal, or both are longer than 24 bytes and begin with the same 24 |
| `ByteString.Shown` | crates/servicecache/src/host/probe.rs:100-106 | a printed byte is a token of the notation with that value |
| `ByteStringAnswers.DigitExactly` | crates/servicecache/src/manifest.rs:301-302 | the hexadecimal digits of either case and what they are worth |
| `ByteStringAnswers.FailsExactly` | crates/servicecache/src/manifest.rs:293-320 | a text fails with an error exactly when, after some tokens, it goes on with what that error is for |
| `ByteStringAnswers.HexPair` | crates/servicecache/src/manifest.rs:300-308 | two digits are the byte's upper and lower half |
| `ByteStringAnswers.PreviewOfByte` | crates/servicecache/src/host/probe.rs:100-106 | a byte is printed as itself if it is printable and no backslash, and else as two lower-case digits |
| `ByteStringAnswers.PreviewJoins` | crates/servicecache/src/host/probe.rs:96-111 | a preview is its bytes' previews one after another, up to 24 of them, and three dots for what is cut |

## Left out

- Wasmer's own part in freezing and forking (draining, gates, coroutines, rebuilding threads) is not part of this model: a frozen guest is taken to be quiescent.
- System calls are modelled by what they promise: a failed `madvise` changes nothing, residency changes only by `madvise`, and `mincore` is right for anonymous memory.
- `/proc/self/smaps` parsing and the sources of page sizes: the mappings and sizes are parameters.
- Ledger: a process that armed its parent-death signal in time ends in the same step as its parent; a lost host is any abrupt end of a template's process; whoever adopts an orphan is taken to outlive it.
- Ledger: an owner whose host is gone listens for the clone or gives up; its reading of what is left in the channel, and an orphan's own end when nobody listens, are not steps of their own.
- Process numbers are never used again in the ledger and the control protocol, and a host's end is one step.
- Channels between processes hold any number of messages; blocking on a full one is not modelled.
- JSON, SHA-256 and module serialisation are taken as they are: a message is its encoded bytes, and an entry stands for one engine and one module's bytes, so distinct modules have distinct entries.
- Control.Handle and Control.Complete cut `prepare`, `start` and `initialize` at the point where they wait, so that what arrives during the wait is a step of its own.
- HostLoop.HostProcess.Serve: what wakes the loop, and what others do meanwhile, is a schedule given as a parameter; timeouts and the polling call itself are not modelled.
- Manager.TemplateOwner.Served: the channel to requesters (`reply.send`) is not modelled.
- Slots: a template's owner thread between a cancelled fill and its own end is not modelled; a fill that ends in an error and one that is cancelled are the same step.
- SlotRuns.Templates.Prune: reference counts and lock answers are parameters, because Dafny has no reference counts; `SlotRuns.PruneAll` ties them to the requests.
- SharedMemory: each call is one step, so a size check and a registration that interleave with `set_len` are not modelled; nor is `exec`, which empties the list and leaves the overlay count.
- SharedMemory: a linear memory is its bytes, each the process's own or an object's; reservation, guard pages and protection are not modelled, and the memory of a process never shrinks.
- SharedMemory: futex queues and wake-ups are not modelled, only whose queue a word belongs to.
- SharedMemory: names under `/dev/shm`, descriptors and rights are the answer that the environment gives `fd_map`.
- ModuleCache: savers save the module that `compile` gives for their entry; a file that is not whole, or not ours, does not load.
- ModuleCacheCalls.Machine.LoadBytes: what other tasks do between two file operations is a schedule given as a parameter; steps in it that cannot be taken are skipped, and a wait for a lock that is never released does not return.
- ModuleCache: removing the cache directory is the removal of its files one by one.
- FrameChannel.Channel.Recv: asks that only a frame's first byte carries descriptors among the header's, which is what `send` produces.
- Frames: a message that does not decode as JSON is not modelled.
- FrameChannel: truncated control data is an error as nix 0.29 reports it, before any descriptor is taken in charge.
- Connections: `shut_down_sockets` is one step over the tracked numbers, as their lock makes it; UDP, name resolution and the listener's replacement in a clone are not modelled.
- ByteString: a text is a sequence of characters; nothing is said of the manifest around it.
- Discovery, instances, recipes, tasks, the HTTP interface, the command line, the toolchain and the service packages: they would only add easy members.
