# urma-rs: verified models of its hard parts

urma-rs wraps the URMA one-sided RDMA library for Rust and ships examples that are small
distributed programs. This project models the parts whose correctness is not visible in any one
function, and proves them for all inputs, all runs and all interleavings.

**The moderated bandwidth pass** (`Assignment`, `Pipeline`, `Progress`, `Stalls`,
`TailBounds`, `Windows`, `Collisions`, `Chunks`, `Reaping`, `BwPass`). One poster spreads an op stream over `n` jettys in chunks of `list`, keeps at
most `depth` ops in flight, signals only every `cqMod`-th op of a jetty, and closes unsignaled tails
with one fence READ per jetty. `Pipeline` is the step system of poster and device; the device
completes requests in any order and releases a signaled record only after every earlier request of
that jetty (comp_order). `BwPass` is the loop itself as a class with the source's fields, each method
tied to the steps of `Pipeline`. `Stalls` settles for every chunk size when a pass stalls and when
it finishes; `TailBounds` turns that into a comparison of the depth with a closed form.
`Collisions` settles when two ops in flight share a landing window and when a fence lands in one.
The runs that exhibit stalls, shared windows and such fences poll only where the loop polls: with
the pipeline full or posting stopped (`LoopRun`). `Chunks` follows the bytes of a chunk from its list
entries to the windows they end up in.

**The resource tree** (`ResourceTree`, `Lifecycles`, `Runtime`). C objects with parents, reference-counted Rust
values that own them, rollback on partial failure. `Runtime` is the same in place, with the C calls
in source order.

**The lookup protocol** (`Lookup`). Any number of clients up to the source's limit, every
interleaving of their steps, with id allocation and directory push as separate steps.

**The hello handshake** (`Hello`). Two symmetric processes, with failures, aborts, time-outs and
crashes at any moment; requests to `/info` and `/bye` and their replies are separate steps.

**Posting** (`PostList`), **the descriptor codec** (`Text`, `Codec`, `Truncation`) and **the size sweep**
(`SizeSweep`).

`Arithmetic`, `Sums` and `Wrappers` hold shared helpers. `dafny verify dfyconfig.toml` checks everything.

## What turned out to differ from the documentation

- The comment at examples/urma_bench.rs:998-1001 says that clamping the moderation to the depth
  leaves a signaled op in a full pipeline. That holds for one jetty (`ClampSufficesForOneJetty`) and
  for chunks that are whole moderation groups (`AlignedChunksNeverStall`). In general a pass
  can finish if and only if the unsignaled tails never fill the pipeline
  (`FinishesExactlyWhenTailsFit`), and over a period of the op stream they reach exactly
  `(n - 1) * (cqMod - gcd(list, cqMod)) + cqMod - 1` (`StallsByDepth`, `FinishesByDepth`). Two
  jettys at depth 128 with default moderation finish no pass of 128 ops or more
  (`DefaultModerationNeverFinishes`).
- The landing buffer is registered at size x depth "so the pipeline gets disjoint landing windows"
  (examples/urma_bench.rs:644-645, 657), for any number of jettys. One jetty does get them
  (`OneJettyNeverCollides`). With two or more the ops in flight can span more than `depth` indices: two
  jettys at depth 2 hold op 0 while op 2 is posted into the same window (`TwoJettysCollide`). For
  every configuration, buffer and kind of pass, windows collide if and only if some op can be held
  until its window comes round (`WindowsCollideExactly`); with single-op chunks and every op signaled,
  if and only if there are at most `n * (depth - 1)` windows, fewer than the pass has ops
  (`PlainWindowsCollide`, `UncappedLandingCollides`).
- The fence READ lands in the first byte of the same buffer and meets the in-flight ops of window 0
  (`FenceMeetsWindowZero`). `FenceMeetsExactly` says for every configuration, buffer and kind of pass
  when that can happen.
- The comment at examples/urma_hello.rs:406-408 says that the registered memory is freed only after
  the server saw the peer's bye or gave up. After giving up it may be freed under the peer's READ;
  what the process knows decides this exactly (`ReturnIsSafe`, `OwnViewDecides`).
- The bound on the wait for the bye is there because "without a bound the survivor would hang"
  (examples/urma_hello.rs:25-27). It bounds the server only: the client retries refused connections
  for ever (examples/common/mod.rs:55-59), so a survivor returns if and only if its client has no
  request to the peer left to make (`SurvivorReturnsExactly`, `SurvivorHangs`).
- In deadline mode the stop test is read again for every entry of a chunk, so a chunk can come out
  empty and the list post is refused. `BwPass.Pass.PostChunk` says exactly when, `DeadlineRace`
  exhibits it.
- `Jetty::new` checks the priority after it has created the jfr and then returns without deleting it
  (src/urma.rs:792-798). `FailedConstructorIsClean` and `DisciplineIsExact` give the exact conditions.
- The comment at examples/urma_bench.rs:1020-1023 promises a one-second warmup in duration mode; the
  code warms up only in op-count mode, and so does `RunIters`.
- `post_read_list` and `post_write_list` do not look at `max_sge`, so a jetty created with
  `max_sge = 0` accepts batches that the single posts refuse (`BatchRefinesSinglePosts`).

## Model

| member | source | states |
|---|---|---|
| `Assignment.IndexOfAssigned` | examples/urma_bench.rs:830-839 | op to (jetty, rank) is one-to-one: the index is recovered from the pair |
| `Assignment.AssignedOfIndex` | examples/urma_bench.rs:830-839 | it is onto: every (jetty, rank) pair belongs to an op |
| `Assignment.JettyWalk` | examples/urma_bench.rs:826-832 | the stream starts on the first jetty and moves to the next, round and round, after every list ops |
| `Assignment.RankCountsEarlierOps` | examples/urma_bench.rs:834-839 | an op's rank is the number of earlier ops on its jetty, so ranks are dense |
| `Assignment.RankIncreases` | examples/urma_bench.rs:834-839 | ranks grow strictly along each jetty |
| `Assignment.CountIsCardinality` | examples/urma_bench.rs:937-938 | the closed form of a jetty's post count is the number of earlier ops on it |
| `Assignment.CountStep` | examples/urma_bench.rs:937-938 | posting op i raises its own jetty's count by one and no other's |
| `Assignment.CountsSum` | examples/urma_bench.rs:937-938 | the per-jetty counts add up to the stream position |
| `Assignment.ChunkStaysOnJetty` | examples/urma_bench.rs:904-907 | the rest of a post-list window, also after a truncated chunk, is on one jetty |
| `Assignment.JettysKeepPace` | examples/urma_bench.rs:826-832 | from an op of one jetty on, no other jetty gets more than list - 1 ops ahead |
| `Pipeline.InitInv` | examples/urma_bench.rs:892-901 | the ledger starts in agreement with an idle device |
| `Pipeline.PostOpInv` | examples/urma_bench.rs:917-944 | posting an op keeps ledger, device and signal pattern in agreement |
| `Pipeline.PostFenceInv` | examples/urma_bench.rs:948-961 | so does posting a fence once posting has stopped |
| `Pipeline.RecordDecodes` | examples/urma_bench.rs:977-984 | the user_ctx at any queue position decodes to its own jetty and to all ops up to it |
| `Pipeline.ReapDecodes` | examples/urma_bench.rs:977-988 | every record moves its jetty's count strictly forward; none is redundant or miscredited |
| `Pipeline.ReapInv` | examples/urma_bench.rs:973-990 | accounting a record keeps the invariant, jumps and fences included |
| `Pipeline.CompleteInv` | src/urma.rs:888-897 | the device may complete any posted requests in any order without breaking it |
| `Pipeline.StepInv` | examples/urma_bench.rs:902-991 | every step of poster, device or clock keeps the invariant |
| `Pipeline.RunInv` | examples/urma_bench.rs:902-991 | it holds in every state of every run |
| `Pipeline.CountedOpsHaveCompleted` | examples/urma_bench.rs:870-888 | in every reachable state an op counted as done was posted and has completed on the device |
| `Pipeline.AccountingIsExact` | examples/urma_bench.rs:889-993 | next and done_total are the sums of posted and done, done <= posted, in-flight is at most depth, posted[j] is the number of ops on j |
| `Pipeline.FinishedIsDrained` | examples/urma_bench.rs:962-964 | an Ok exit has completed and counted every op, reaped every fence, left no record in the queue; with Ops(N) it counted exactly N |
| `Pipeline.QueuesNeverOverflow` | examples/urma_bench.rs:559-562 | in every reachable state each jetty's outstanding requests with fence, and all unreaped records together, fit max(depth, 64) + jetties |
| `Pipeline.QueueDepthIsLeast` | examples/urma_bench.rs:556-562 | that length is the least that leaves a slot per jetty above both the depth and 64 |
| `Progress.ResolveCqMod` | examples/urma_bench.rs:1005-1011 | the moderation is at least 1 and at most depth: an explicit value in range is kept, a larger one becomes depth, the default is 100 or, where that does not fit, depth |
| `Progress.GroupIsPending` | examples/urma_bench.rs:917-931 | a jetty with a whole moderation group in flight has a record coming |
| `Progress.FenceIsPending` | examples/urma_bench.rs:945-961 | a fenced, not fully counted jetty has a record coming |
| `Progress.CoveredTailIsPending` | examples/urma_bench.rs:1016-1018 | a stream that needs no fence and is not fully counted has a record coming |
| `Progress.PollingStateHasPending` | examples/urma_bench.rs:945-972 | with depth > n*(cqMod-1) every state about to poll has an unreaped record coming, for every chunk size and both stop modes |
| `Progress.ProgressOverRuns` | examples/urma_bench.rs:902-972 | the same for every state of every run |
| `Progress.ClampSufficesForOneJetty` | examples/urma_bench.rs:1001-1011 | for one jetty the clamp alone gives that depth |
| `Progress.StallCondition` | examples/urma_bench.rs:902-972 | with list = 1 and at least depth ops, a full pipeline with no record to come is reachable iff depth <= n*(cqMod-1) |
| `Progress.DefaultModerationStalls` | examples/urma_bench.rs:996-1011 | two jettys at depth 128 reach it with default moderation although cqMod <= depth |
| `Progress.StallIsPermanent` | examples/urma_bench.rs:902-972 | after a stall no post, fence or reap is ever possible |
| `Progress.StepShrinksWork` | examples/urma_bench.rs:902-991 | every post, fence and reap shrinks the work left; device and clock add none |
| `Progress.RunsAreBounded` | examples/urma_bench.rs:902-991 | every run of an op-count pass has at most 3*ops + 2*n posts, fences and reaps |
| `Stalls.QuietTail` | examples/urma_bench.rs:1013-1018 | a jetty with no record to come has at most its unsignaled tail in flight |
| `Stalls.Drive` | examples/urma_bench.rs:902-990 | the loop, polling only where it cannot post and never reaping one jetty beyond a given group, comes to any position if there is room at every position before it |
| `Stalls.StallsExactlyWhenTailsFill` | examples/urma_bench.rs:902-972 | for every n, list, depth and cqMod a pass, by count or by deadline, can stall iff at some stream position it may reach the tails fill the pipeline, and then the loop itself gets there |
| `Stalls.RunClear` | examples/urma_bench.rs:902-961 | no run passes, or fences at, a position whose tails fill the pipeline |
| `Stalls.FilledTailsAreAWall` | examples/urma_bench.rs:902-964 | in either kind of pass such a position is never passed, and at it no jetty is fenced and the pass does not finish, whatever device and clock do |
| `Stalls.FilledPassNeverFinishes` | examples/urma_bench.rs:902-964 | so an op-count pass with such a position never fences and never finishes |
| `Stalls.PollHasPending` | examples/urma_bench.rs:945-972 | where the tails leave room, a state about to poll has a record coming |
| `Stalls.PollStallsExactlyWhenFilled` | examples/urma_bench.rs:945-972 | in every run of either kind a poll waits for a record that will come iff the tails at the stream's position leave room |
| `Stalls.DeepEnoughNeverFills` | examples/urma_bench.rs:1005-1011 | depth > n*(cqMod-1) leaves room at every position, for every chunk size |
| `Stalls.NeverStuck` | examples/urma_bench.rs:902-991 | if the tails never fill the pipeline, then once the device has completed what it has, a post, fence or reap is possible until the pass is finished |
| `Stalls.CanAlwaysFinish` | examples/urma_bench.rs:902-991 | in such a pass every reachable state can be run to a finished one |
| `Stalls.FinishesExactlyWhenTailsFit` | examples/urma_bench.rs:889-993 | an op-count pass can finish iff the tails never fill the pipeline, and can stall iff they do |
| `Stalls.DeadlinePassFinishes` | examples/urma_bench.rs:903-964 | in every reachable state a deadline pass can still finish iff the tails leave room where it can stop first |
| `Stalls.RoundRobinFinishesExactlyWhenDeep` | examples/urma_bench.rs:889-993 | with list = 1 and at least depth ops it can finish iff depth > n*(cqMod-1) |
| `Stalls.DefaultModerationNeverFinishes` | examples/urma_bench.rs:996-1011 | two jettys at depth 128 with default moderation finish no pass of 128 ops or more |
| `TailBounds.GcdDivides` | examples/urma_bench.rs:826-832 | the grain of the bound divides chunk size and moderation |
| `TailBounds.TailsAtMost` | examples/urma_bench.rs:834-839 | the tails never exceed (n-1)*(cqMod-gcd(list,cqMod)) + cqMod-1 |
| `TailBounds.TailsReachMost` | examples/urma_bench.rs:834-839 | they reach it within the first period of the op stream |
| `TailBounds.StallsByDepth` | examples/urma_bench.rs:902-972 | a pass, by count or by deadline, that may run for a period can stall iff its depth is at most that |
| `TailBounds.FinishesByDepth` | examples/urma_bench.rs:889-993 | an op-count pass of at least a period can finish iff its depth is more |
| `TailBounds.AlignedChunksNeverStall` | examples/urma_bench.rs:826-832 | chunks of whole moderation groups never stall with cqMod <= depth, for any number of jettys |
| `TailBounds.SingleOpChunks` | examples/urma_bench.rs:826-832 | single-op chunks have the largest bound, n*(cqMod-1) |
| `Windows.InFlightWithinSpan` | examples/urma_bench.rs:917-919 | ops not known complete lie within the last n*depth + (n-1)*(list-1) indices |
| `Windows.WindowWalk` | examples/urma_bench.rs:841-851 | op 0 is at offset 0; each next op one size further while that window fits the buffer, else at 0 again; a buffer too small for one window has offset 0 |
| `Windows.WindowInBounds` | examples/urma_bench.rs:848-851 | a window lies inside its buffer |
| `Windows.InFlightWindowsDisjoint` | examples/urma_bench.rs:841-851 | with as many windows as that, any two in-flight ops of any reachable state use disjoint windows in bounds |
| `Windows.UncappedLandingSuffices` | examples/urma_bench.rs:651-677 | for one jetty the uncapped size x depth landing buffer has that many, at every swept size |
| `Windows.WindowsMeet` | examples/urma_bench.rs:848-851 | two ops overlap in the buffer iff their indices agree modulo the number of windows |
| `Collisions.HeldInFlight` | examples/urma_bench.rs:973-990 | what has to stay in flight while an op does is in flight, so room in the pipeline is room beside it |
| `Collisions.RunHeld` | examples/urma_bench.rs:902-961 | in every run, while an op is in flight the stream has found room beside it at every position it left or fenced at |
| `Collisions.HoldingRun` | examples/urma_bench.rs:902-990 | an op that can be held to a position is in flight when the loop gets there, with room left |
| `Collisions.WindowsCollideExactly` | examples/urma_bench.rs:644-657 | for every configuration, buffer and kind of pass, two in-flight ops can share a window iff some op can be held until its window comes round, and the loop itself gets there |
| `Collisions.PlainWindowsCollide` | examples/urma_bench.rs:841-851 | with list = 1 and cqMod = 1 iff there are at most n*(depth-1) windows, fewer than the pass may post ops |
| `Collisions.UncappedLandingExactly` | examples/urma_bench.rs:651-677 | the size x depth buffer collides at its largest size iff some op can be held for depth more ops |
| `Collisions.UncappedLandingCollides` | examples/urma_bench.rs:651-677 | with list = 1 and cqMod = 1 it does iff there are two or more jettys, depth is at least 2 and the pass may post more than depth ops |
| `Collisions.OneJettyNeverCollides` | examples/urma_bench.rs:651-677 | one jetty never collides on it, at any swept size, chunk size and moderation |
| `Collisions.TwoJettysCollide` | examples/urma_bench.rs:644-657 | two jettys at depth 2 collide on it within three ops |
| `Collisions.FenceMeetsWindowZero` | examples/urma_bench.rs:949-957 | a fence's landing byte is apart from an op's window iff the op does not use window 0 |
| `Collisions.FenceMeetsExactly` | examples/urma_bench.rs:945-961 | for every configuration, buffer and kind of pass, a fence can land inside an in-flight op's window iff at some position where posting can stop a fence is needed and an op of window 0 can still be held |
| `Collisions.CountPassFenceMeets` | examples/urma_bench.rs:945-961 | the same for a pass of ops ops, of any length |
| `Collisions.ShortPassFenceMeetsOp` | examples/urma_bench.rs:945-961 | a pass of fewer than depth ops does iff it posts a fence at all |
| `Chunks.EntryIsGranted` | examples/urma_bench.rs:910-917 | the landing window of an op is never refused where the size fits the buffer |
| `Chunks.ChunkCarriesRequests` | examples/urma_bench.rs:913-931 | the list entries carry each op's index as user_ctx, and ask for an ordered record iff the op is signaled |
| `Chunks.ChunkMovesBytes` | examples/urma_bench.rs:908-942 | a chunk of no more ops than windows moves every byte of every op between its own two windows, READ and WRITE each in its direction |
| `Reaping.AccountCommutes` | examples/urma_bench.rs:977-988 | accounting two records in either order gives the same ledger |
| `Reaping.ReapingIsOrderInsensitive` | examples/urma_bench.rs:965-990 | any permutation and any batching of the same records gives the same ledger |
| `Reaping.CtxDecodesUniquely` | examples/urma_bench.rs:152-161 | fences of up to 64 jettys, counted down from the largest u64, and op indices below the fence space never share a user_ctx |
| `BwPass.ChunkIsOneList` | examples/urma_bench.rs:904-944 | op-by-op posting inside a window is one request list on one jetty |
| `BwPass.Pass.constructor` | examples/urma_bench.rs:892-901 | a pass starts from the initial ledger, on a completion queue an earlier pass left empty |
| `BwPass.Pass.StopTest` | examples/urma_bench.rs:861-868 | one reading of the stop test; a deadline that has passed stays passed, and the first post is always allowed |
| `BwPass.Pass.FillChunk` | examples/urma_bench.rs:907-939 | the chunk has exactly min(window, room, posts left) entries, in order, each counted on its jetty |
| `BwPass.Pass.PostChunk` | examples/urma_bench.rs:904-944 | posts that chunk; it is empty and refused iff the deadline passes between the two readings; any other failure is the device not accepting it |
| `BwPass.Pass.PostAll` | examples/urma_bench.rs:903-944 | ends with the pipeline full or posting stopped, invariant kept |
| `BwPass.Pass.PostFences` | examples/urma_bench.rs:945-961 | fences every jetty with an uncovered tail once posting has stopped and a slot is free |
| `BwPass.Pass.PollBatch` | examples/urma_bench.rs:965-972 | the device's side: at most a buffer of records, each successful one allowed by comp_order; a prompt device fails none and hands one out while any is to come |
| `BwPass.Pass.Account` | examples/urma_bench.rs:973-990 | accounts a batch in order; the first failed record ends the pass and is the one reported; every record releases a request |
| `BwPass.Pass.AccountOne` | examples/urma_bench.rs:985-988 | moves one jetty's count and the total as the specification says, nothing else |
| `BwPass.Pass.PostHalf` | examples/urma_bench.rs:903-964 | leaves the pass finished or about to poll |
| `BwPass.Pass.Run` | examples/urma_bench.rs:889-993 | terminates; Ok means exactly the posted ops were counted and have completed on the device (N for Ops(N), at least one for a deadline), the queue is empty, and the tails never filled the pipeline, so a pass whose tails do never returns Ok; after a time-out the device owes a record iff the tails leave room; on a prompt device it ends Ok exactly where the tails never fill the pipeline, and in a time-out elsewhere |
| `BwPass.RunIters` | examples/urma_bench.rs:1024-1041 | op-count mode runs the warmup pass and then the timed one on the same queue and reports exactly the timed ops; on a prompt device it gets there if the tails leave room; an empty list can be refused in duration mode only |
| `BwPass.DeadlineRace` | examples/urma_bench.rs:903-916 | with a device that accepts every list, the refused empty chunk is reached |
| `PostList.Window` | src/urma.rs:1550-1560 | a local window is granted iff it fits the segment, and then lies inside it |
| `PostList.WindowBytes` | src/urma.rs:1550-1560 | byte for byte it is the part of the segment that was asked for |
| `PostList.TotalIsLength` | src/urma.rs:907-910 | the checked fold gives the sum of the lengths, and fails iff that exceeds 32 bits |
| `PostList.PostBalances` | src/urma.rs:858-942 | a post is accepted iff it has 1 to max_sge elements of at most 2^32-1 bytes together; then source and destination have equal length, remote is one range, and READ and WRITE swap the sides |
| `PostList.FlagBits` | src/urma.rs:888-942 | a signaled request carries COMPLETE_ENABLE and COMP_ORDER, an unsignaled one neither; none is fenced or execution-ordered; user_ctx and target jetty are the caller's |
| `PostList.Refusals` | src/urma.rs:858-912 | an empty list, a too long one, a 32-bit overflow and a window past its segment each get their own error |
| `PostList.WalkIsUnique` | src/urma.rs:944-951 | a request chain has one reading |
| `PostList.Build` | src/urma.rs:952-1003 | an empty batch is refused; otherwise walking `next` from the first request gives, in order and up to null, the single posts of the entries |
| `PostList.Wire` | src/urma.rs:1110-1124 | wiring in place points every request at its own elements, sides by direction, and at its successor |
| `PostList.BatchRefinesSinglePosts` | src/urma.rs:858-1003 | those are what successive single posts issue iff max_sge >= 1 |
| `PostList.ReadDelivers` | src/urma.rs:898-942 | decoded by its opcode, an accepted READ fills the local elements, in order, with the remote range |
| `PostList.WriteDelivers` | src/urma.rs:1028-1071 | decoded by its opcode, an accepted WRITE fills the remote range with the local elements, in order |
| `PostList.WriteThenRead` | src/urma.rs:1005-1011 | what was written is what a later READ of the same range delivers |
| `PostList.BatchLands` | src/urma.rs:952-1129 | a batch of READs or WRITEs with disjoint targets puts every source in its target and touches nothing else |
| `PostList.BatchOrderIsIrrelevant` | src/urma.rs:944-951 | in whatever order the device performs such a batch, memory ends up the same |
| `ResourceTree.StepInv` | src/urma.rs:543-827 | every init, create, clone, register, import, drop and thread exit keeps counts, ownership and parent liveness |
| `ResourceTree.ReleaseShape` | src/urma.rs:624-631 | dropping a value and every parent whose last holder it was deletes children before parents |
| `ResourceTree.NoProgramFaults` | src/urma.rs:555-566 | over every interleaving on a thread no C parent is deleted before a child and nothing is deleted twice |
| `ResourceTree.NothingIsLeftBehind` | src/urma.rs:121-126 | when a program holds nothing any more no C object is left |
| `ResourceTree.RollbackIsClean` | src/urma.rs:642-656 | a half-built object is deleted again and the C object set is as before |
| `ResourceTree.FailedConstructorIsClean` | src/urma.rs:773-827 | a failed constructor leaves the C objects unchanged iff it is not an out-of-range priority after a created jfr |
| `ResourceTree.LeakFaults` | src/urma.rs:785-798 | after that leak dropping everything deletes a jfc that still has a child |
| `ResourceTree.WrongContextFaults` | src/urma.rs:773-827 | a jetty built on another context than its queue's lets that context be deleted under it |
| `ResourceTree.DisciplineIsExact` | src/urma.rs:773-827 | after building a jetty every later program is fault-free iff priority <= 15 and the context is the queue's |
| `Lifecycles.ConstructorYields` | src/urma.rs:543-827 | a constructor that does not err returns a live, droppable handle; its C objects are new and created from exactly the objects of the handles it was given; dropping the handle at once gives back the same values, counts and C objects without a fault |
| `Lifecycles.NothingElseLeaks` | src/urma.rs:785-798 | only a jetty with an out-of-range priority leaks a C object |
| `Lifecycles.CanLeaveNothing` | src/urma.rs:121-155 | from every state without a leak a program can drop what it holds and end its thread, and no C object is left |
| `Runtime.Tree.NewQueue` | src/urma.rs:642-656 | jfce, jfc and rollback in source order do what the step says; the new handle is returned iff both were created |
| `Runtime.Tree.NewJetty` | src/urma.rs:773-827 | the same for jfr, priority check and jetty |
| `Runtime.Tree.ImportPeerBlobs` | src/urma.rs:1351-1387 | the same for segment and jetty import |
| `Runtime.Tree.DropOne` | src/urma.rs:1440-1447 | one destructor deletes what its value owns in field order, then lowers its parent's count |
| `Runtime.Tree.DropChain` | src/urma.rs:548-553 | the loop over last holders equals the recursive release |
| `Runtime.Tree.Drop` | src/urma.rs:1179-1186 | dropping a handle never faults and keeps the invariant |
| `Lookup.StepInv` | examples/urma_lookup.rs:459-544 | every step any client can take keeps ranges, directory, barriers, memory and fetched records right |
| `Lookup.RunInv` | examples/urma_lookup.rs:459-544 | in every interleaving |
| `Lookup.EveryReadIsSafe` | examples/urma_lookup.rs:389-414 | an outstanding read targets another, imported owner whose memory is alive and holds the record; URMA and HTTP hook give the same 64 bytes |
| `Lookup.FreedOnlyAtTheEnd` | examples/urma_lookup.rs:405-414 | memory is freed only when every client has finished all its reads |
| `Lookup.DirectoriesAgree` | examples/urma_lookup.rs:389-403 | all clients get the same directory, listing every client exactly once |
| `Lookup.RangesPartition` | examples/urma_lookup.rs:372-385 | in any registration order the ranges partition the ids |
| `Lookup.FetchesEverything` | examples/urma_lookup.rs:521-537 | a client at the done barrier has fetched exactly all foreign records, each as its owner wrote it |
| `Lookup.OwnerFound` | examples/urma_lookup.rs:522-526 | the owner search never fails |
| `Lookup.SelfIsUnique` | examples/urma_lookup.rs:510-513 | the self test matches exactly the client's own entry |
| `Lookup.NoDeadlock` | examples/urma_lookup.rs:459-544 | until everyone is released somebody can move |
| `Lookup.RunsAreBounded` | examples/urma_lookup.rs:459-544 | every run is finite, so maximal runs end with everyone released |
| `Lookup.LandMemory` | examples/urma_lookup.rs:54-63 | landing a record never overwrites the client's own records |
| `Lookup.WriteRecords` | examples/urma_lookup.rs:479-487 | the loop writes every record into its slot and nothing behind them |
| `Lookup.WriteOne` | examples/urma_lookup.rs:482-486 | one slot is zeroed and filled with the cut text in place, all else unchanged |
| `Lookup.RecordReadsBack` | examples/urma_lookup.rs:482-486 | a record read back: "record ", digits that stand for its id, " from ", the name as far as 63 bytes reach, and zeros |
| `Lookup.RecordTellsId` | examples/urma_lookup.rs:482-486 | no two ids share a record |
| `Lookup.FetchedTellsId` | examples/urma_lookup.rs:521-537 | what a client fetched under an id names that id |
| `Lookup.HookRefusesForeign` | examples/urma_lookup.rs:223-232 | the HTTP data service answers with bytes iff the id is in the owner's own range |
| `Lookup.BufferLayout` | examples/urma_lookup.rs:54-63 | the scratch slot lies right behind all own records, in the least number of whole pages |
| `Hello.MoveInv` | examples/urma_hello.rs:145-330 | every step of either process, failures included, keeps the handshake invariant |
| `Hello.RunInv` | examples/urma_hello.rs:145-330 | in every run |
| `Hello.ByeMeansReadFinished` | examples/urma_hello.rs:117-121 | once the peer's bye has arrived its READ is over for good, whatever else fails |
| `Hello.ReturnIsSafe` | examples/urma_hello.rs:400-436 | for every run and every return, Ok or not: memory freed after the peer's bye, or never published, is not being read and never will be |
| `Hello.ReturnFreesUnderRead` | examples/urma_hello.rs:410-436 | after any return some continuation has a READ of the freed memory in flight iff the peer is reading, or is alive with its import done and its READ to come |
| `Hello.OwnViewDecides` | examples/urma_hello.rs:410-436 | the returning process's own state admits such a READ iff its memory was published and no bye has come |
| `Hello.OkMeansReadFinished` | examples/urma_hello.rs:400-436 | in particular when a process returns Ok the peer's READ finished before the memory was freed |
| `Hello.ErrorMayFreeUnderRead` | examples/urma_hello.rs:424-436 | a run in which an error return frees memory under a READ |
| `Hello.SurvivorReturnsExactly` | examples/urma_hello.rs:25-27 | once its peer no longer serves and refused connections are retried, a process can return iff its client has no request to the peer left to make; where other errors may end the client, iff it is not at a request already |
| `Hello.SurvivorHangs` | examples/urma_hello.rs:227-272 | a reachable process whose server has given up on the bye and which can never return |
| `Hello.AbortEndsPeer` | examples/urma_hello.rs:123-127 | a failed client can always let its peer's server end at once instead of waiting for a bye |
| `Hello.PollAfterFirstReplySucceeds` | examples/urma_hello.rs:227-272 | a poll reaching a process after that process's own first reply is answered with the descriptor |
| `Hello.WorkShrinks` | examples/urma_hello.rs:227-330 | in a run without failures a step achieves nothing iff it polls an unpublished peer with nothing left to publish |
| `Hello.FruitfulStepsAreBounded` | examples/urma_hello.rs:227-330 | at most 24 steps of such a run achieve something |
| `Hello.ChosenIsEnabled` | examples/urma_hello.rs:227-330 | no such run gets stuck before both processes have returned |
| `Hello.CanAlwaysFinish` | examples/urma_hello.rs:410-436 | every such run extends to one where both processes return Ok with both READs done |
| `Hello.GateOn200Deadlocks` | examples/urma_hello.rs:227-232 | creating resources only on a 200 reply deadlocks: no process ever publishes or returns Ok |
| `Text.TrimParts` | examples/urma_bench.rs:1565-1565 | trimming removes white space, all of it at both ends and nothing else |
| `Text.SpacesAreListed` | examples/urma_bench.rs:1565-1565 | white space is the 25 code points of Unicode White_Space |
| `Text.Utf8Decodes` | examples/urma_bench.rs:1566-1570 | the bytes of a character give its scalar value back, with the length its leading byte tells |
| `Text.LowerFolds` | examples/urma_bench.rs:1576-1583 | folding maps the 26 upper-case letters to their lower case and changes nothing else |
| `Codec.HexEncode` | examples/urma_bench.rs:1555-1562 | the loop prints the specified lower-case digits |
| `Codec.HexDecode` | examples/urma_bench.rs:1564-1574 | the loop over UTF-8 byte pairs gives the specified bytes, or the first error |
| `Codec.HexAccepts` | examples/urma_bench.rs:1555-1583 | text decodes to given bytes iff, trimmed and in lower case, it is their encoding |
| `Codec.FromToLe` | examples/urma_bench.rs:1544-1550 | a number that fits its width survives little-endian printing |
| `Codec.ToFromLe` | examples/urma_bench.rs:1544-1550 | bytes read as a number print as those bytes |
| `Codec.LeByte` | examples/urma_bench.rs:1480-1486 | byte i of a printed number is its digit of weight 256^i |
| `Codec.HexEncAt` | examples/urma_bench.rs:1553-1562 | byte i prints as the table digits of its high, then its low half |
| `Codec.HeaderLayout` | examples/urma_bench.rs:1473-1486 | every header field lies at its fixed byte offset, and the total is the reserved size |
| `Codec.BodyLayout` | examples/urma_bench.rs:1487-1493 | each blob length, the segment context and each blob lie at their computed offsets |
| `Codec.PackDesc` | examples/urma_bench.rs:1475-1495 | the growing vector ends as the specified layout, lengths cut to 32 bits |
| `Codec.Rd.TakeBytes` | examples/urma_bench.rs:1535-1542 | takes exactly n bytes and advances, or reports truncation and stays |
| `Codec.Rd.TakeNum` | examples/urma_bench.rs:1544-1550 | the same for a little-endian number |
| `Codec.TakeLens` | examples/urma_bench.rs:1515-1517 | reads the counted lengths in order, or reports the first missing one |
| `Codec.TakeBlobs` | examples/urma_bench.rs:1519-1522 | reads the blobs in order, or reports the first short one |
| `Codec.UnpackDesc` | examples/urma_bench.rs:1497-1527 | the cursor-driven reader returns the specified descriptor or the specified error |
| `Codec.DescForward` | examples/urma_bench.rs:1475-1527 | a printed descriptor is read back off the front of any bytes, which are left over |
| `Codec.DescBack` | examples/urma_bench.rs:1497-1527 | whatever is read off is a fitting descriptor, and the bytes are its print followed by the rest |
| `Codec.UnpackExact` | examples/urma_bench.rs:1475-1583 | text is read as d iff d fits its fields with at least one rjetty and the text, trimmed and in lower case, is what d prints |
| `Codec.RoundTrip` | examples/urma_bench.rs:1475-1527 | unpack(pack d) = d iff d has at least one rjetty and 32-bit counts and lengths |
| `Codec.Repacks` | examples/urma_bench.rs:1475-1583 | accepted text packs again to its trimmed lower-case form |
| `Codec.NoRjettyIsRejected` | examples/urma_bench.rs:1512-1514 | a print without rjetty is refused as such |
| `Codec.ExtensionIsRejected` | examples/urma_bench.rs:1523-1525 | more hex digits are refused: an odd number for length, an even one with the exact count of trailing bytes |
| `Codec.PrefixIsRejected` | examples/urma_bench.rs:1535-1542 | every strict prefix of a print is refused |
| `Truncation.TextErrors` | examples/urma_bench.rs:1564-1583 | text of odd length is refused for it; otherwise the first byte that is no hex digit is the one reported |
| `Truncation.CutIsReported` | examples/urma_bench.rs:1497-1542 | cut anywhere, a printed descriptor is reported as truncated at the field its first missing byte belongs to |
| `Truncation.CutBlobHolds` | examples/urma_bench.rs:1519-1522 | behind the segment context that field is the blob whose bytes hold the cut |
| `SizeSweep.SizeIsSpelled` | examples/urma_bench.rs:1263-1283 | a token is read as x iff x is between 1 and the 32-bit limit and the trimmed token spells it: a numeral, alone or with a letter for 2^10, 2^20 or 2^30 |
| `SizeSweep.SpelledSizeParses` | examples/urma_bench.rs:1265-1283 | what a token spells decides its size, or which error it gets |
| `SizeSweep.OtherTokensAreBad` | examples/urma_bench.rs:1273-1274 | a token that spells nothing is a bad size |
| `SizeSweep.PlainTokens` | examples/urma_bench.rs:1267-1272 | a token without one of the six letters at its end is accepted only as a plain numeral |
| `SizeSweep.PrintedSizeParses` | examples/urma_bench.rs:1265-1283 | a printed number is read as itself, or refused for its value |
| `SizeSweep.SuffixedSizeParses` | examples/urma_bench.rs:1267-1276 | k, m and g in either case multiply by 2^10, 2^20 and 2^30, overflow reported apart |
| `SizeSweep.DoubleUpTo` | examples/urma_bench.rs:1239-1246 | the loop terminates with the doubling list |
| `SizeSweep.DoublesExact` | examples/urma_bench.rs:1230-1246 | that list holds exactly all first*2^k up to last, strictly ascending |
| `SizeSweep.RangeExact` | examples/urma_bench.rs:1233-1247 | a range is accepted iff both ends are sizes in order, and gives exactly those sizes |
| `SizeSweep.RangeIsRead` | examples/urma_bench.rs:1233-1247 | a spec with two dots is the range between what stands before the first pair and after it, the first bad end reported first |
| `SizeSweep.CollectSizes` | examples/urma_bench.rs:1248-1254 | the loop skips blank parts and stops at the first part that is no size |
| `SizeSweep.ValuesExact` | examples/urma_bench.rs:1248-1254 | parts are read iff none is refused, and give exactly the sizes they name |
| `SizeSweep.SortSorts` | examples/urma_bench.rs:1258-1258 | sorting gives an ascending permutation |
| `SizeSweep.DedupKeeps` | examples/urma_bench.rs:1259-1259 | removing repeats of an ascending list leaves each value once |
| `SizeSweep.ListAccepted` | examples/urma_bench.rs:1248-1260 | a list is accepted iff some part is a size and none is refused |
| `SizeSweep.ListExact` | examples/urma_bench.rs:1248-1260 | it gives exactly the named sizes, strictly ascending |
| `SizeSweep.ListIsRead` | examples/urma_bench.rs:1225-1257 | any other spec is a list, and empty if it has blank parts only |
| `SizeSweep.FirstRefusedIsError` | examples/urma_bench.rs:1253-1253 | the first refused part of a list is its error |
| `SizeSweep.SweepIsSound` | examples/urma_bench.rs:1225-1261 | any accepted spec gives a non-empty strictly ascending list within 1 and the 32-bit limit |
| `SizeSweep.EverySweepCanBeWritten` | examples/urma_bench.rs:1225-1261 | every such list is the sweep of its own comma list |
| `SizeSweep.ParseSizes` | examples/urma_bench.rs:1225-1261 | the parser returns the specified sweep or error |
| `SizeSweep.ServeBufferHoldsSweep` | examples/urma_bench.rs:1290-1304 | a serve buffer sized from the sweep is its maximum; an explicit length holds every size iff it is at least that |
| `SizeSweep.BufferWithoutSweep` | examples/urma_bench.rs:1293-1304 | an explicit length is taken as it is, zero refused; without it and a sweep it is 2^20; a bad sweep is its error |

## Left out

- The liburma calls and the layouts in src/ffi.rs: foreign code; only the abstract post, poll, create and delete contract is kept.
- Wall-clock values, statistics and printing; time is a monotone oracle (`ticks`, `Expire`), the hang guard a finite patience.
- Error messages; errors keep their kind, the field or index they name, and nothing else.
- Whether `qdepth` respects the device's own limits: the source checks `--depth` before it adds the headroom.
- Op indices are bounded by the fence user_ctx space (2^64 - 64); the u64 counter's wrap-around beyond it is not modelled.
- The pass does not distinguish READ from WRITE ops, whose completion rules are the same; `PostList` has both directions.
- The pass's `posted`, `done` and `fenced` vectors are sequence fields that the methods reassign; aliasing does not arise.
- Pass.PollBatch: assumes the documented comp_order and per-jetty record order of the device; a failed record may be anything.
- Runtime.Tree: init, context, clone, registration and thread exit are steps of `ResourceTree` only; they are single calls without rollback.
- Resources of several threads: the wrapper's values never leave their thread.
- Lookup client failures, which free memory early; the lookup results are for runs in which all expected clients take part and none fails.
- HTTP retries, connection handling and the JSON messages of lookup and hello; a request is a step, and its reply another where it matters.
- Hello in tcp-hook mode, restarts of a process, and the value of the bye time-out: it may fire at any moment.
- The sort behind `sort_unstable` is an insertion sort on values; only its result matters.
- The TCP benchmark, urma_pingpong and the command-line arguments: straight-line request and reply code without state shared between steps.
- urma_cli: its descriptor is the one-blob case of the one modelled here, with the same Base16.
- Device capability queries and mode preflight: lookups in tables that the device fills.
