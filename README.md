# fantoch: the ordering and execution path, in Dafny

fantoch is a framework for leaderless consensus protocols (Atlas, EPaxos,
FPaxos, Newt). This project models the part of it that turns committed
commands into executed ones, and proves what that part promises:

- **The Atlas execution queue** (`AtlasQueue`, with `DepGraph`,
  `ReleaseOrder`, `SccFinder` and `QueueOracles`). Committed commands arrive
  with a vector clock of dependencies. They wait in a vertex index until
  everything they transitively depend on is committed, and then a whole
  strongly connected component is released. The model proves three things:
  - every released command was added and is released once, in an order that
    never puts a command before one it depends on;
  - when all commands access one key, nothing stays pending once a closed set
    of commands was added;
  - when every two commands are related, as conflicting commands are, the
    release order is the same for every arrival order.
- **The graph executor** (`GraphIndex`, `GraphExecution`). This covers the
  vertex index, the pending index that decides when to ask another shard for
  a dependency, and the routing and buffering of execution info and results.
- **Dependencies and clocks**. `MultiRecord` keeps per-key arrays of the
  latest read and write records. `SequentialClocks` keeps per-key vector
  clocks beside a no-op clock. `VectorClocks` holds the clock operations
  both of them use.
- **Commands and the store** (`Commands`, `Storage`):
  - the conflict relation, key counts, merging and partial results;
  - the store's Get, Put, Add, Subtract and Delete, where Add and Subtract
    saturate at the `u16` bounds;
  - the dependency indices a command takes from the store.
- **Small pieces**:
  - Newt's vote tables (`NewtVotes`);
  - quorum sizes (`Bote`);
  - the basic executor (`BasicExecution`);
  - executor results (`ExecutorResults`);
  - `ToSend` (`ProtocolActions`);
  - the client workload (`Workloads`);
  - the experiment command lines (`ExperimentConfig`);
  - the `topology.py` script (`Topology`);
  - with `Text` for decimal rendering, `join` and `split`.

The repository holds two code generations, `src/` and the `fantoch*/`
workspace. Each file is modelled against the types it imports where those
types are modelled, so the `src/` command (a rifl and a key set,
`KeyedCommand`) and the `fantoch` command (`Commands`) are separate
datatypes. The `fantoch::kvs` types are the exception: that module is not
part of this model, and stand-ins take its place, as "## Left out" says.

Conventions:
- A Rust panic (`assert!`, `unwrap`, an index out of range) becomes a
  `requires`.
- A random choice, an iteration order of a `HashMap`, or a key stream
  becomes a parameter.
- Code outside the modelled files becomes a parameter or a small abstract
  definition. Each such case is named under "## Left out".

Where the system's design description and its code disagree, the model
follows the code:
- The design asks that applying a command a second time be rejected as a
  duplicate. The code has no such check: the basic executor runs every
  command it is handed against the store and only withholds a second answer
  (`BasicExecution.HandleAllStore`, `BasicExecution.AnsweredOnce`), and the
  store executes whatever it is given.

The model also keeps two details of the code as written:
- `Command::new` records every key twice in `shard_to_keys`
  (fantoch/src/command.rs:45-49 and 70-74). `Commands.New` states that each
  key appears twice.
- Given n stored values, `get_n_deps_by_cmd` for a `Subtract` may list the
  first chosen index twice: once as the random start and again when the walk
  begins at it. `Storage.Store.GetNDepsByCmd` states that.

## Model

| member | source | states |
|---|---|---|
| `AtlasQueue.Queue.constructor` | src/protocol/atlas/queue/mod.rs:27-42 | a new queue has nothing executed, indexed, pending or buffered, satisfies the queue invariant and is stable (nothing releasable) |
| `AtlasQueue.Queue.ToExecute` | src/protocol/atlas/queue/mod.rs:46-50 | returns exactly the commands released since the last call, in release order, and leaves the buffer empty; nothing else changes |
| `AtlasQueue.Queue.Add` | src/protocol/atlas/queue/mod.rs:53-64 | a dot not yet indexed or executed is recorded with its command and clock; the invariant holds (executed set closed under dependencies, no release inversion); a stable queue whose commands share a key stays stable; a new vertex that cannot be released releases nothing |
| `AtlasQueue.Queue.Index` | src/protocol/atlas/queue/mod.rs:66-72 | a dot is indexed at most once (it must be neither indexed nor executed); the vertex is stored under its dot and the invariant holds; nothing is executed or released |
| `AtlasQueue.Queue.FindScc` | src/protocol/atlas/queue/mod.rs:75-96 | when the dot is not releasable nothing changes and no key is returned; when it is, at least one vertex leaves the index and every key of the dot's command is returned for retrying |
| `AtlasQueue.Queue.Release` | src/protocol/atlas/queue/mod.rs:75-96 | releasing the batch a finder reports adds exactly the dot's pending reach set to the executed set, appends the batch to the release history and keeps the invariant |
| `AtlasQueue.Queue.SaveScc` | src/protocol/atlas/queue/mod.rs:98-121 | every dot of the component enters the executed set, leaves the vertex index and is appended to the release history in component order; the returned keys are those of the released commands |
| `AtlasQueue.Queue.TryPending` | src/protocol/atlas/queue/mod.rs:125-153 | retries pending dots on the worklist keys until it is empty; with an empty worklist nothing changes; when every command accesses a common key the queue ends stable |
| `AtlasQueue.Queue.TryNext` | src/protocol/atlas/queue/mod.rs:125-153 | one worklist step keeps the invariant and either releases a vertex or leaves the index alone and shrinks the worklist; a queue made stable stays stable |
| `AtlasQueue.Queue.TryKey` | src/protocol/atlas/queue/mod.rs:125-153 | trying one key's pending dots either changes nothing and returns no key, or releases at least one vertex and returns keys to retry |
| `AtlasQueue.Queue.Complete` | src/protocol/atlas/queue/mod.rs:508-552 | once the queue is stable and every dependency of an added command was added, the vertex index is empty and the release history lists every added dot exactly once, without inversion |
| `AtlasQueue.SaveDots` | src/protocol/atlas/queue/mod.rs:98-121 | the loop of `save_scc`: executed set, vertex index, pending index, buffer and keys after saving the dots of the component in order |
| `AtlasQueue.PendingAdd` | src/protocol/atlas/queue/mod.rs:66-72 | indexing a vertex makes every key of its command known to the pending index |
| `AtlasQueue.PendingRemove` | src/protocol/atlas/queue/mod.rs:98-121 | removing a saved vertex from the pending index keeps its set of keys |
| `AtlasQueue.IndexKeepsStable` | src/protocol/atlas/queue/mod.rs:53-64 | indexing a vertex that cannot be released leaves a stable queue stable |
| `AtlasQueue.CompleteStableDrained` | src/protocol/atlas/queue/mod.rs:508-552 | in a stable queue whose added commands have all their dependencies added, nothing is indexed and every added dot is executed |
| `AtlasQueue.SaveOneKeepsIndexed` | src/protocol/atlas/queue/mod.rs:98-121 | saving one indexed dot keeps the index, history, buffer and pending bookkeeping consistent |
| `AtlasQueue.ReleaseKeepsOrderOk` | src/protocol/atlas/queue/mod.rs:98-121 | releasing a releasable dot's reach set in rank order keeps the executed set closed under dependencies and the history free of inversions |
| `AtlasQueue.PendingOnKey` | src/protocol/atlas/queue/mod.rs:125-153 | the pending index of a key lists only indexed dots whose command accesses that key, and every indexed dot when all commands access it |
| `AtlasQueue.IndexKeepsOrder` | src/protocol/atlas/queue/mod.rs:66-72 | indexing a new vertex keeps the release history free of inversions in the grown graph |
| `AtlasQueue.IndexKeepsIndexed` | src/protocol/atlas/queue/mod.rs:66-72 | indexing a new vertex keeps the index, buffer and pending bookkeeping consistent |
| `SccFinder.StrongConnect` | src/protocol/atlas/queue/mod.rs:75-96 | the finder reports `Found` exactly when everything the dot still reaches is indexed, and then lists that reach set once, ordered by reach size and then by dot |
| `SccFinder.SortByRank` | src/protocol/atlas/queue/mod.rs:75-96 | lists a set of dots once each, ordered by rank and then by dot |
| `SccFinder.FirstToRelease` | src/protocol/atlas/queue/mod.rs:75-96 | every non-empty set of ranked dots has a first dot in rank order |
| `SccFinder.VertexGraph` | src/protocol/atlas/queue/mod.rs:53-64 | the dependency graph of the indexed vertices: each dot depends on the dots its clock covers |
| `SccFinder.ClockDepsMember` | src/protocol/atlas/queue/mod.rs:53-64 | a clock covers a dot exactly when its entry for the dot's process reaches the dot's sequence |
| `DepGraph.Closure` | src/protocol/atlas/queue/mod.rs:75-96 | the closure contains the start set, is closed under non-executed dependencies, and adds only non-executed dependencies |
| `DepGraph.ClosureLeast` | src/protocol/atlas/queue/mod.rs:75-96 | the closure is the least closed superset of the start set |
| `DepGraph.Reach` | src/protocol/atlas/queue/mod.rs:75-96 | a dot reaches itself |
| `DepGraph.ReachTransitive` | src/protocol/atlas/queue/mod.rs:75-96 | reach is transitive |
| `DepGraph.ReachDep` | src/protocol/atlas/queue/mod.rs:75-96 | a dot reaches each non-executed dependency |
| `DepGraph.ClosureMonotone` | src/protocol/atlas/queue/mod.rs:75-96 | a larger graph and fewer executed dots give a larger closure |
| `DepGraph.ClosureIgnoresNewVertex` | src/protocol/atlas/queue/mod.rs:53-64 | a new vertex the closure does not reach does not change it |
| `DepGraph.MustPrecedeTotal` | src/protocol/atlas/queue/mod.rs:438-498 | when every two commands are related, one of any two distinct dots must be released first |
| `DepGraph.UniqueEnumeration` | src/protocol/atlas/queue/mod.rs:500-506 | when every two commands are related, there is only one inversion-free order of a set of dots |
| `ReleaseOrder.PendingReachMatches` | src/protocol/atlas/queue/mod.rs:75-96 | what an indexed dot reaches among pending dots is what it reaches in the whole graph, less executed dots |
| `ReleaseOrder.ExecutedReach` | src/protocol/atlas/queue/mod.rs:98-121 | an executed dot reaches only executed dots |
| `ReleaseOrder.ReleaseKeepsOrder` | src/protocol/atlas/queue/mod.rs:98-121 | releasing a reach set in rank order keeps the executed set closed and the history free of inversions |
| `ReleaseOrder.PendingReachGrows` | src/protocol/atlas/queue/mod.rs:75-96 | when one pending dot reaches another in the whole graph, its pending reach set contains the other's |
| `ReleaseOrder.SameComponentOrder` | src/protocol/atlas/queue/mod.rs:75-121 | inside one strongly connected component the release order is the dot order |
| `ReleaseOrder.DependentReleasedLater` | src/protocol/atlas/queue/mod.rs:75-121 | a dependency outside the dot's component is released before the dot |
| `ReleaseOrder.BatchPairInOrder` | src/protocol/atlas/queue/mod.rs:75-121 | the rank order never puts a dot before one it must follow |
| `ReleaseOrder.GrowKeepsOrder` | src/protocol/atlas/queue/mod.rs:53-64 | adding a vertex keeps the executed set closed and the history free of inversions |
| `ReleaseOrder.NewVertexStability` | src/protocol/atlas/queue/mod.rs:53-72 | a new vertex that cannot be released makes no other vertex releasable |
| `ReleaseOrder.CompleteGraphReleasable` | src/protocol/atlas/queue/mod.rs:508-552 | when every dependency was added, every indexed dot is releasable |
| `QueueOracles.CheckTermination` | src/protocol/atlas/queue/mod.rs:508-552 | adding every argument one at a time and taking the released commands after each add returns every command exactly once, in an inversion-free order |
| `QueueOracles.ShuffleSameOrder` | src/protocol/atlas/queue/mod.rs:500-506 | when every two commands are related, the release orders for an argument list and for any reordering of it are the same |
| `QueueOracles.PermutationVertices` | src/protocol/atlas/queue/mod.rs:500-506 | a reordering of distinct arguments adds the same vertices |
| `QueueOracles.PermutationDistinct` | src/protocol/atlas/queue/mod.rs:500-506 | a reordering of distinct arguments has distinct dots |
| `QueueOracles.AddOne` | src/protocol/atlas/queue/mod.rs:508-552 | one round of the test: the vertex is added, the released identifiers are appended to the collected order, and the set of unanswered identifiers matches the vertex index |
| `QueueOracles.AddTake` | src/protocol/atlas/queue/mod.rs:508-552 | adding then taking returns the commands released by that add, each once and each pending before or just added |
| `QueueOracles.AddTest` | src/protocol/atlas/queue/mod.rs:508-552 | adding a test vertex releases only dots that were pending or just added, once each, and leaves the others pending |
| `QueueOracles.Collect` | src/protocol/atlas/queue/mod.rs:508-552 | collecting released commands removes their identifiers from the pending set and appends them in order |
| `QueueOracles.ReleasedWerePending` | src/protocol/atlas/queue/mod.rs:508-552 | what an add releases was indexed before or is the added dot, and leaves the index |
| `QueueOracles.Simple` | src/protocol/atlas/queue/mod.rs:164-189 | in the two-command cycle, the first add releases nothing and the second releases both commands, ordered by dot |
| `QueueOracles.SimpleFirst` | src/protocol/atlas/queue/mod.rs:164-189 | the first add of the cycle releases nothing |
| `QueueOracles.SimpleSecond` | src/protocol/atlas/queue/mod.rs:164-189 | the second add of the cycle releases both commands, the smaller dot first |
| `QueueOracles.CloseCycle` | src/protocol/atlas/queue/mod.rs:164-189 | after the second add both dots are released, in dot order |
| `QueueOracles.CycleClocks` | src/protocol/atlas/queue/mod.rs:164-189 | the two clocks of the test each cover the other command |
| `QueueOracles.CycleOrder` | src/protocol/atlas/queue/mod.rs:164-189 | the only inversion-free order of the cycle is by dot |
| `QueueOracles.CycleComplete` | src/protocol/atlas/queue/mod.rs:164-189 | every dependency in the cycle is one of its two commands |
| `GraphIndex.VertexIndex.constructor` | fantoch_ps/src/executor/graph/index.rs:34-41 | a new vertex index is empty |
| `GraphIndex.VertexIndex.Index` | fantoch_ps/src/executor/graph/index.rs:44-51 | stores the vertex under its dot and returns the vertex stored there before, if any; other dots are unchanged |
| `GraphIndex.VertexIndex.Dots` | fantoch_ps/src/executor/graph/index.rs:53-55 | the indexed dots, exactly |
| `GraphIndex.VertexIndex.Find` | fantoch_ps/src/executor/graph/index.rs:57-60 | finds a vertex exactly for an indexed dot, and that vertex carries the dot |
| `GraphIndex.VertexIndex.Remove` | fantoch_ps/src/executor/graph/index.rs:63-65 | returns the stored vertex and leaves the dot absent, so `Find` then returns nothing |
| `GraphIndex.PendingIndex.constructor` | fantoch_ps/src/executor/graph/index.rs:77-84 | a new pending index has no dependency and no dot of its own |
| `GraphIndex.PendingIndex.AddMine` | fantoch_ps/src/executor/graph/index.rs:86-88 | a dot already marked as this shard's is rejected; otherwise it is added and the index is unchanged |
| `GraphIndex.PendingIndex.Index` | fantoch_ps/src/executor/graph/index.rs:98-129 | the child joins the dependency's waiting set; another shard is asked exactly on the first index of a dependency whose shard is not this one and that is not this shard's own |
| `GraphIndex.PendingIndex.Remove` | fantoch_ps/src/executor/graph/index.rs:132-135 | returns the non-empty waiting set of the dependency, if any, and removes it from the index and from this shard's own dots |
| `GraphIndex.IndexTwice` | fantoch_ps/src/executor/graph/index.rs:98-129 | the first index of a dependency asks its shard when that is another shard, the second asks nothing, and both children wait |
| `GraphIndex.IndexReplaceRemove` | fantoch_ps/src/executor/graph/index.rs:44-65 | indexing twice returns the first vertex, removing returns the second, and the dot is then not found |
| `GraphExecution.Index` | fantoch_ps/src/executor/graph/executor.rs:218-237 | adds and request replies go to executor `(0, 0)`, requests and executed notifications to `(0, 1)` |
| `GraphExecution.GraphExecutor.constructor` | fantoch_ps/src/executor/graph/executor.rs:29-46 | a new executor has index 0, an empty store and empty output buffers |
| `GraphExecution.GraphExecutor.SetExecutorIndex` | fantoch_ps/src/executor/graph/executor.rs:48-51 | sets the index of both the executor and its graph, and changes no buffer |
| `GraphExecution.GraphExecutor.Cleanup` | fantoch_ps/src/executor/graph/executor.rs:53-58 | with one shard nothing happens; otherwise the graph is cleaned up and the released commands are executed and forwarded |
| `GraphExecution.GraphExecutor.Handle` | fantoch_ps/src/executor/graph/executor.rs:60-83 | with execute-at-commit an add is executed at once without the graph; executed notifications only reach the graph; every other info reaches the graph and then the released commands are executed and forwarded |
| `GraphExecution.GraphExecutor.ToClients` | fantoch_ps/src/executor/graph/executor.rs:85-87 | pops the last buffered result (last in, first out), or nothing when empty |
| `GraphExecution.GraphExecutor.ToExecutors` | fantoch_ps/src/executor/graph/executor.rs:89-91 | pops the last buffered message (last in, first out), or nothing when empty |
| `GraphExecution.GraphExecutor.FetchActions` | fantoch_ps/src/executor/graph/executor.rs:103-110 | executes every released command, and forwards executed notifications, requests and replies only when there is more than one shard |
| `GraphExecution.GraphExecutor.FetchCommandsToExecute` | fantoch_ps/src/executor/graph/executor.rs:112-124 | executes every command the graph released, in order, appending their results |
| `GraphExecution.GraphExecutor.FetchToExecutors` | fantoch_ps/src/executor/graph/executor.rs:126-138 | an executed notification is queued for this shard's executors when the graph reports one |
| `GraphExecution.GraphExecutor.FetchRequests` | fantoch_ps/src/executor/graph/executor.rs:140-153 | each request becomes a message to its shard, in order |
| `GraphExecution.GraphExecutor.FetchRequestReplies` | fantoch_ps/src/executor/graph/executor.rs:155-168 | each reply becomes a message to its shard, in order |
| `GraphExecution.GraphExecutor.Execute` | fantoch_ps/src/executor/graph/executor.rs:170-174 | executes the command on this shard and appends one result per key |
| `GraphExecution.ExecuteAll` | fantoch_ps/src/executor/graph/executor.rs:112-124 | executing released commands yields one result per key of each |
| `GraphExecution.ExecuteAllAppend` | fantoch_ps/src/executor/graph/executor.rs:112-124 | executing two batches one after the other is executing them together |
| `GraphExecution.ExecuteAllFrom` | fantoch_ps/src/executor/graph/executor.rs:112-124 | every result carries the identifier and a key of the command it came from |
| `GraphExecution.ExecuteKeysFrom` | fantoch_ps/src/executor/graph/executor.rs:170-174 | the k-th result of a command is for its k-th key |
| `GraphExecution.Forwarded` | fantoch_ps/src/executor/graph/executor.rs:126-168 | one message per executed notification, request and reply |
| `GraphExecution.ForwardedRouting` | fantoch_ps/src/executor/graph/executor.rs:126-168 | executed notifications and requests are handled by the secondary executor, replies by the main one, each sent to its shard |
| `Commands.New` | fantoch/src/command.rs:29-91 | keeps identifier and operations; every key gets an empty dependency list; each accessed shard lists each of its keys twice |
| `Commands.From` | fantoch/src/command.rs:94-105 | puts every key on shard 0; a key's operation is the last one given for it |
| `Commands.FromPairs` | fantoch/src/command.rs:99-101 | the keys are exactly those of the pairs |
| `Commands.FromPairsLast` | fantoch/src/command.rs:99-101 | a key maps to its last operation only |
| `Commands.KeyCount` | fantoch/src/command.rs:134-139 | the number of keys on the shard, 0 for a shard the command does not access |
| `Commands.TotalKeyCountPairs` | fantoch/src/command.rs:142-144 | the total key count is the number of (shard, key) pairs |
| `Commands.SumKeyCountsPairs` | fantoch/src/command.rs:142-144 | the sum of per-shard key counts counts the (shard, key) pairs |
| `Commands.AllKeys` | fantoch/src/command.rs:170-174 | exactly the (shard, key) pairs the command accesses |
| `Commands.ConflictsShared` | fantoch/src/command.rs:234-248 | two commands conflict exactly when they share a (shard, key); conflict is symmetric, and a command conflicts with itself exactly when it has a key |
| `Commands.SingleShardConflicts` | fantoch/src/command.rs:234-248 | for single-shard commands, conflict is sharing a key |
| `Commands.ConflictsTable` | fantoch/src/command.rs:366-398 | the conflict table of the test: single-key commands conflict only with themselves and with the command holding their key |
| `Commands.MultiPut` | fantoch/src/command.rs:357-364 | a multi-put command has exactly the given keys, on shard 0 |
| `Commands.Merge` | fantoch/src/command.rs:251-261 | the merged command has the union of the keys; on a shared key its operations are the first command's followed by the second's |
| `Commands.MergeShard` | fantoch/src/command.rs:255-259 | merging one shard's operations unions the keys and concatenates the operations of shared keys |
| `Commands.MergeStep` | fantoch/src/command.rs:251-261 | one more merged shard keeps the merge invariant |
| `Commands.MergeDone` | fantoch/src/command.rs:251-261 | when every shard is merged the result is the merge |
| `Commands.MergeKeys` | fantoch/src/command.rs:251-261 | a merge accesses the keys of both commands |
| `Commands.MergeReadOnly` | fantoch/src/command.rs:251-261 | a merge is read-only exactly when both commands are |
| `Commands.MergeConflicts` | fantoch/src/command.rs:251-261 | a merge conflicts with a command exactly when one of its parts does |
| `Commands.ExecuteKeys` | fantoch/src/command.rs:194-209 | one result per key given |
| `Commands.ExecuteKeysLocal` | fantoch/src/command.rs:194-209 | each key's result is the run of its own operations on the store |
| `Commands.ExecuteKeysOthers` | fantoch/src/command.rs:194-209 | keys the command does not name are unchanged |
| `Commands.Execute` | fantoch/src/command.rs:194-231 | executes the command's keys on the shard against the store in the given key order, one result per key; the monitor stays enabled or disabled |
| `Commands.CommandResultBuilder.constructor` | fantoch/src/command.rs:288-294 | a new builder has no result |
| `Commands.CommandResultBuilder.AddPartial` | fantoch/src/command.rs:298-308 | needs a key without a result yet; its result is recorded, and the builder is ready exactly when every key has one |
| `Commands.CommandResultBuilder.ToCommandResult` | fantoch/src/command.rs:343-351 | only a ready builder converts, keeping the identifier and one result per key |
| `Storage.Store.constructor` | fantoch/src/store.rs:35-48 | an empty store; a monitor only when asked; the key-value flag as given; n as given or 1 |
| `Storage.Store.Execute` | fantoch/src/store.rs:62-74 | runs the operations on the key in order with one result each; the monitor logs the execution only when enabled |
| `Storage.Store.TestExecute` | fantoch/src/store.rs:55-60 | one operation, as `Step` defines it, with the monitor untouched |
| `Storage.Store.DoExecute` | fantoch/src/store.rs:131-135 | the results and the store after running the operations in order |
| `Storage.Store.DoExecuteOp` | fantoch/src/store.rs:141-212 | the store and the result after one operation, as `Step` defines it |
| `Storage.Store.GetNDepsByCmd` | fantoch/src/store.rs:76-128 | reads, puts and deletes get all indices; an add gets the chosen index; a subtract gets none exactly when the key is absent or its values are short, and otherwise the chosen index followed by the indices walked from it, with wrap-around, until the consumed amount reaches the value |
| `Storage.Store.AllIndices` | fantoch/src/store.rs:78-85 | the indices 0 to n−1 |
| `Storage.Store.SubtractDeps` | fantoch/src/store.rs:92-124 | the chosen index followed by the walk's indices when enough was consumed, nothing otherwise |
| `Storage.TakeRange` | fantoch/src/store.rs:100-116 | walking a run of consecutive indices follows the subtract walk |
| `Storage.Upto` | fantoch/src/store.rs:78-85 | 0, 1, …, n−1 |
| `Storage.Rotation` | fantoch/src/store.rs:100-116 | the indices from the start to n−1 followed by 0 to start−1 |
| `Storage.Consume` | fantoch/src/store.rs:92-124 | a successful walk takes no more indices than the order holds |
| `Storage.ConsumeEnough` | fantoch/src/store.rs:97-121 | a successful walk takes a run of the order and consumes at least the value |
| `Storage.ConsumeMinimal` | fantoch/src/store.rs:97-121 | every proper prefix of a successful walk consumes less than the value |
| `Storage.ConsumeShort` | fantoch/src/store.rs:97-121 | a short walk consumed everything and still less than the value |
| `Storage.Read` | fantoch/src/store.rs:144-147 | a read finds a value exactly for a stored key |
| `Storage.Step` | fantoch/src/store.rs:141-212 | one operation changes no other key |
| `Storage.GetLeavesStore` | fantoch/src/store.rs:144-147 | a get changes nothing and finds a value exactly for a stored key |
| `Storage.DeleteThenGet` | fantoch/src/store.rs:148-155 | a delete returns what a get would and removes the key, so a get then finds nothing |
| `Storage.PutThenGet` | fantoch/src/store.rs:156-164 | in key-value mode a put returns nothing and a get then returns the value put |
| `Storage.AddSaturates` | fantoch/src/store.rs:165-186 | in key-value mode an add on a stored key stores and returns the sum capped at `u16::MAX`; on an absent key it returns nothing and changes nothing |
| `Storage.SubtractSaturates` | fantoch/src/store.rs:187-210 | in key-value mode a subtract on a stored key stores and returns the difference floored at 0; on an absent key it returns nothing and changes nothing |
| `Storage.AddThenSubtract` | fantoch/src/store.rs:165-210 | an add that does not saturate is undone by the subtract of the same value |
| `Storage.NonKvWritesInert` | fantoch/src/store.rs:156-210 | outside key-value mode, put, add and subtract change nothing and return nothing |
| `Storage.Run` | fantoch/src/store.rs:131-135 | one result per operation |
| `Storage.RunInOrder` | fantoch/src/store.rs:131-135 | the i-th result is the i-th operation applied after the earlier ones |
| `Storage.RunOtherKeys` | fantoch/src/store.rs:131-135 | running one key's operations leaves every other key unchanged |
| `Storage.StepLocal` | fantoch/src/store.rs:141-212 | an operation depends only on its own key |
| `Storage.RunLocal` | fantoch/src/store.rs:131-135 | a key's run depends only on that key |
| `Storage.StoreFlow` | fantoch/src/store.rs:221-288 | the results the `store_flow` test asserts |
| `Storage.PutBoth` | fantoch/src/store.rs:239-261 | the puts and gets of the test, and the store they leave |
| `Storage.DeleteBoth` | fantoch/src/store.rs:263-275 | the deletes and gets of the test empty the store |
| `Storage.PutDeleteAgain` | fantoch/src/store.rs:277-287 | the final put, get and delete of the test |
| `Storage.AddFlow` | fantoch/src/store.rs:291-308 | the `add_flow` results: nothing on an absent key, then 22, then saturation at `u16::MAX` |
| `Storage.AddAndSubtractFlow` | fantoch/src/store.rs:330-355 | the `add_and_subtract_flow` results, saturating at both bounds |
| `Storage.SubtractFlowNonKv` | fantoch/src/store.rs:310-327 | outside key-value mode every operation of the `subtract_flow` test returns nothing |
| `MultiRecord.DefaultArray` | fantoch_ps/src/protocol/common/graph/deps/keys/mrvs.rs:18-34 | 20 entries, none with a read or a write |
| `MultiRecord.MultiRecordValues.constructor` | fantoch_ps/src/protocol/common/graph/deps/keys/mrvs.rs:192-199 | no record per key and no latest no-op |
| `MultiRecord.MultiRecordValues.MaybeAddNoopLatest` | fantoch_ps/src/protocol/common/graph/deps/keys/mrvs.rs:48-52 | the dependencies plus the latest no-op, if any |
| `MultiRecord.MultiRecordValues.AddCmd` | fantoch_ps/src/protocol/common/graph/deps/keys/mrvs.rs:201-217 | starts from the past, or from nothing, and from the given indices, or from none; records the command at each chosen index of each key; the result holds the start and the latest no-op and only those, recorded entries and the command itself |
| `MultiRecord.MultiRecordValues.DoAddCmd` | fantoch_ps/src/protocol/common/graph/deps/keys/mrvs.rs:54-140 | the records after the command and the bounds on the dependencies found |
| `MultiRecord.MultiRecordValues.AddKey` | fantoch_ps/src/protocol/common/graph/deps/keys/mrvs.rs:75-133 | a key without operations changes nothing; otherwise its indices are chosen once and the command recorded at each |
| `MultiRecord.MultiRecordValues.AddIndices` | fantoch_ps/src/protocol/common/graph/deps/keys/mrvs.rs:104-131 | records the command at every chosen index, gathering only recorded dependencies |
| `MultiRecord.MultiRecordValues.AddAt` | fantoch_ps/src/protocol/common/graph/deps/keys/mrvs.rs:105-130 | records the command at one index and gathers only what that entry held |
| `MultiRecord.MultiRecordValues.DoNoopDeps` | fantoch_ps/src/protocol/common/graph/deps/keys/mrvs.rs:143-156 | the given dependencies plus every read and write recorded at any key and index |
| `MultiRecord.MultiRecordValues.DoAddNoop` | fantoch_ps/src/protocol/common/graph/deps/keys/mrvs.rs:173-189 | the given dependencies plus the previous no-op and every record, and the no-op becomes the latest |
| `MultiRecord.MultiRecordValues.AddNoop` | fantoch_ps/src/protocol/common/graph/deps/keys/mrvs.rs:219-223 | a no-op depends on the previous no-op and every record, and replaces it |
| `MultiRecord.Chosen` | fantoch_ps/src/protocol/common/graph/deps/keys/mrvs.rs:81-101 | adds and subtracts choose one index, other operations every index |
| `MultiRecord.IndicesForChoice` | fantoch_ps/src/protocol/common/graph/deps/keys/mrvs.rs:81-101 | an existing choice for a key is reused; otherwise the first operation decides |
| `MultiRecord.Record` | fantoch_ps/src/protocol/common/graph/deps/keys/mrvs.rs:105-130 | a read-only command becomes the latest read, another the latest write |
| `MultiRecord.UpdateKey` | fantoch_ps/src/protocol/common/graph/deps/keys/mrvs.rs:104-131 | every key keeps N entries |
| `MultiRecord.UpdateKeyAt` | fantoch_ps/src/protocol/common/graph/deps/keys/mrvs.rs:104-131 | exactly the chosen indices of the key record the command |
| `MultiRecord.UpdateKeyOther` | fantoch_ps/src/protocol/common/graph/deps/keys/mrvs.rs:104-131 | other keys are unchanged |
| `MultiRecord.UpdateKeyTwice` | fantoch_ps/src/protocol/common/graph/deps/keys/mrvs.rs:104-131 | recording the same command twice is recording it once |
| `MultiRecord.Slot` | fantoch_ps/src/protocol/common/graph/deps/keys/mrvs.rs:105-130 | recording at one index keeps every key at N entries and makes the key present |
| `MultiRecord.SlotWithin` | fantoch_ps/src/protocol/common/graph/deps/keys/mrvs.rs:105-130 | recording keeps the records within a bound that holds the command |
| `MultiRecord.AfterKeys` | fantoch_ps/src/protocol/common/graph/deps/keys/mrvs.rs:75-133 | every key keeps N entries after a command |
| `MultiRecord.AfterKeysRecords` | fantoch_ps/src/protocol/common/graph/deps/keys/mrvs.rs:104-131 | each key with operations gets its choice recorded, and exactly its chosen entries record the command |
| `MultiRecord.AfterKeysOthers` | fantoch_ps/src/protocol/common/graph/deps/keys/mrvs.rs:75-133 | keys the command does not access keep their records and choices |
| `MultiRecord.RecordedAfterKeys` | fantoch_ps/src/protocol/common/graph/deps/keys/mrvs.rs:105-130 | after a command with an operation on a key, the command is recorded |
| `MultiRecord.AllRecordedWithin` | fantoch_ps/src/protocol/common/graph/deps/keys/mrvs.rs:143-156 | every record lies in the set of all records |
| `MultiRecord.CmdThenNoop` | fantoch_ps/src/protocol/common/graph/deps/keys/mrvs.rs:201-223 | a no-op after a command depends on it |
| `MultiRecord.NoopThenCmd` | fantoch_ps/src/protocol/common/graph/deps/keys/mrvs.rs:201-223 | a command after a no-op depends on it |
| `SequentialClocks.SequentialKeyClocks.constructor` | src/protocol/common/graph/clocks/keys/sequential.rs:17-23 | no per-key clock, and a bottom no-op clock over n processes |
| `SequentialClocks.SequentialKeyClocks.Add` | src/protocol/common/graph/clocks/keys/sequential.rs:28-43 | returns the clock computed before the dot is registered, then registers it |
| `SequentialClocks.SequentialKeyClocks.Register` | src/protocol/common/graph/clocks/keys/sequential.rs:58-82 | a command adds the dot to each of its keys' clocks (bottom for a new key) and leaves the no-op clock; a no-op adds it to the no-op clock only |
| `SequentialClocks.SequentialKeyClocks.Clock` | src/protocol/common/graph/clocks/keys/sequential.rs:85-88 | the clock with a bottom past, equal entry by entry to joining the no-op clock with the conflicting keys' clocks |
| `SequentialClocks.SequentialKeyClocks.ClockWithPast` | src/protocol/common/graph/clocks/keys/sequential.rs:93-119 | joins the past, the no-op clock and the conflicting keys' clocks; the result is at least the past and the no-op clock |
| `SequentialClocks.RegisterKeys` | src/protocol/common/graph/clocks/keys/sequential.rs:59-76 | the registered keys join the known ones |
| `SequentialClocks.RegisterKeysEffect` | src/protocol/common/graph/clocks/keys/sequential.rs:59-76 | a registered key's clock gains the dot; others are unchanged |
| `SequentialClocks.JoinKeysUpper` | src/protocol/common/graph/clocks/keys/sequential.rs:101-118 | the join is above the start and each key's clock |
| `SequentialClocks.JoinKeysLeast` | src/protocol/common/graph/clocks/keys/sequential.rs:101-118 | the join is below every such upper bound |
| `SequentialClocks.JoinKeysSame` | src/protocol/common/graph/clocks/keys/sequential.rs:104-114 | the join does not depend on the key order |
| `SequentialClocks.ConflictsSeen` | src/protocol/common/graph/clocks/keys/sequential.rs:28-119 | a no-op after a command sees it, and a later command sharing a key sees both |
| `VectorClocks.Bottom` | src/protocol/common/graph/clocks/keys/sequential.rs:17-23 | an entry of 0 for each of the n processes |
| `VectorClocks.Join` | src/protocol/common/graph/clocks/keys/sequential.rs:99-113 | the entry-wise maximum |
| `VectorClocks.AddDot` | src/protocol/common/graph/clocks/keys/sequential.rs:74-79 | raises the dot's process entry to its sequence and changes no other |
| `VectorClocks.JoinLeast` | src/protocol/common/graph/clocks/keys/sequential.rs:99-113 | the join is the least upper bound |
| `VectorClocks.LeqIncludes` | src/protocol/common/graph/clocks/keys/sequential.rs:99-113 | a larger clock includes every dot a smaller one does |
| `NewtVotes.Votes.Uninit` | src/newt/votes.rs:18-22 | no entry |
| `NewtVotes.Votes.From` | src/newt/votes.rs:25-36 | exactly the command's keys, each with no vote, in key order |
| `NewtVotes.Votes.Add` | src/newt/votes.rs:39-55 | needs votes for the same keys in the same order; each key's votes grow by exactly its new vote at the end |
| `NewtVotes.Votes.IntoIter` | src/newt/votes.rs:58-66 | the entries, in ascending key order |
| `NewtVotes.NewVoteRange` | src/newt/votes.rs:79-82 | needs start ≤ end; keeps the voter and its votes are start to end |
| `NewtVotes.Range` | src/newt/votes.rs:89-92 | end − start + 1 consecutive numbers from start |
| `NewtVotes.RangeVotes` | src/newt/votes.rs:89-92 | exactly the numbers between start and end, ascending |
| `NewtVotes.RangeLessOrder` | src/newt/votes.rs:70-75 | the order of vote ranges is strict and total |
| `NewtVotes.KeyLessIrreflexive` | src/newt/votes.rs:13 | no key is before itself |
| `NewtVotes.KeyLessTransitive` | src/newt/votes.rs:13 | the key order is transitive |
| `NewtVotes.KeyLessTotal` | src/newt/votes.rs:13 | distinct keys are ordered |
| `NewtVotes.Insert` | src/newt/votes.rs:27-32 | every entry is an old one or the new key with no votes |
| `NewtVotes.InsertOrdered` | src/newt/votes.rs:27-32 | insertion keeps the entries in key order |
| `NewtVotes.OrderedUnique` | src/newt/votes.rs:58-66 | two ordered tables with the same keys list them alike |
| `NewtVotes.VotesFlowSingle` | src/newt/votes.rs:111-193 | the votes of the single-key test |
| `NewtVotes.VotesFlowPair` | src/newt/votes.rs:195-233 | the votes of the two-key test |
| `Bote.QuorumSizeIgnores` | src/bote/protocol.rs:8-22 | FPaxos ignores n and EPaxos ignores f |
| `Bote.AtlasQuorums` | src/bote/protocol.rs:10-13 | an Atlas quorum with f ≥ 1 is a majority, and fits in n exactly when f ≤ n − n/2 |
| `Bote.EPaxosQuorums` | src/bote/protocol.rs:15-20 | for n ≥ 2, an EPaxos quorum is a majority of at least n/2 + 1 that fits in n |
| `Bote.QuorumSizeValues` | src/bote/protocol.rs:29-43 | the values of the test |
| `BasicExecution.BasicExecutor.constructor` | src/executor/basic.rs:18-23 | an empty store and no pending identifier |
| `BasicExecution.BasicExecutor.Register` | src/executor/basic.rs:25-28 | needs an identifier not already pending; it becomes pending and the store is unchanged |
| `BasicExecution.BasicExecutor.Handle` | src/executor/basic.rs:30-51 | the new store, pending set and results are those of handling the commands in order |
| `BasicExecution.HandleAllStore` | src/executor/basic.rs:35-41 | every command is executed, pending or not |
| `BasicExecution.HandleAllPending` | src/executor/basic.rs:43-48 | every handled identifier leaves the pending set |
| `BasicExecution.HandleAllResults` | src/executor/basic.rs:35-51 | results come for pending identifiers only, in input order, once each |
| `BasicExecution.FirstPendingFacts` | src/executor/basic.rs:43-48 | the answered identifiers are those pending and handled, without repeats |
| `BasicExecution.AnsweredOnce` | src/executor/basic.rs:25-51 | a registered command is answered once, and a second handle answers nothing |
| `ExecutorResults.Client` | fantoch/src/executor/mod.rs:81-86 | the client is the source of the result's identifier |
| `ExecutorResults.UnwrapReady` | fantoch/src/executor/mod.rs:89-96 | only a ready result unwraps, to its command result |
| `ExecutorResults.UnwrapPartial` | fantoch/src/executor/mod.rs:98-105 | only a partial result unwraps, to its identifier, key and result |
| `ExecutorResults.ClientUnwrapped` | fantoch/src/executor/mod.rs:81-105 | the client agrees with the unwrapped identifier |
| `ExecutorResults.DefaultMessageKey` | fantoch/src/executor/mod.rs:66-68 | no key |
| `ExecutorResults.MetricsKindName` | fantoch/src/executor/mod.rs:54-60 | `execution_delay` |
| `ProtocolActions.ExactlyOne` | src/protocol/mod.rs:44-76 | each predicate holds exactly for its variant, and exactly one holds |
| `Workloads.Workload.constructor` | fantoch/src/client/workload.rs:30-66 | needs an accepted workload; keeps the settings, nothing is issued and no command is read-only |
| `Workloads.AcceptedIff` | fantoch/src/client/workload.rs:38-54 | a conflict-pool workload is accepted exactly when the rate is at most 100, the pool is not empty, and there are at most two keys, or one at rate 100 |
| `Workloads.Workload.SetReadOnlyPercentage` | fantoch/src/client/workload.rs:97-103 | needs at most 100; sets it and changes no count |
| `Workloads.Workload.NextCmd` | fantoch/src/client/workload.rs:112-127 | a command comes, and the count grows by one, exactly while fewer than the total were issued; it has the distinct keys drawn and its ops placed on their shards |
| `Workloads.Workload.FinishedIff` | fantoch/src/client/workload.rs:129-138 | finished exactly when no more command can be issued |
| `Workloads.Workload.GenCmd` | fantoch/src/client/workload.rs:141-185 | the command holds the drawn distinct keys, each on its shard with a get or a put, and targets the first key's shard |
| `Workloads.Workload.LayOut` | fantoch/src/client/workload.rs:160-181 | each key is placed on its shard; the target is the first key's shard |
| `Workloads.Workload.AddOp` | fantoch/src/client/workload.rs:175 | adds one op under its shard and key, keeping the others |
| `Workloads.Workload.LaidOutSnoc` | fantoch/src/client/workload.rs:162-179 | placing one more key extends the layout |
| `Workloads.Workload.GenUniqueKeys` | fantoch/src/client/workload.rs:187-196 | exactly the wanted number of distinct keys, in draw order, drawing no more than needed |
| `Workloads.DistinctFacts` | fantoch/src/client/workload.rs:187-196 | dropping repeats keeps each element once, in order |
| `Workloads.Workload.ShardOf` | fantoch/src/client/workload.rs:208-210 | a shard below the shard count |
| `Workloads.IssueAll` | fantoch/src/client/workload.rs:276-344 | the test's client issues exactly the total, each a put of the payload on shard 0, and nothing in the ten calls after |
| `ExperimentConfig.ProcessConfig.constructor` | fantoch_exp/src/config.rs:57-77 | keeps the id, protocol and addresses, and sets every setting to its default |
| `ExperimentConfig.ProcessConfig.SetTracerShowInterval` | fantoch_exp/src/config.rs:79-81 | sets the interval |
| `ExperimentConfig.ProcessConfig.ToArgs` | fantoch_exp/src/config.rs:83-148 | the flags and values of the command line, each flag followed by one value |
| `ExperimentConfig.ProcessLine` | fantoch_exp/src/config.rs:83-148 | the flattened layout, of even length, read back as flag and value pairs |
| `ExperimentConfig.ExtendProtocol` | fantoch_exp/src/config.rs:84-117 | the flags from the protocol configuration, in order |
| `ExperimentConfig.ExtendSettings` | fantoch_exp/src/config.rs:119-146 | the flags from the process settings, after those already there |
| `ExperimentConfig.ExtendOptional` | fantoch_exp/src/config.rs:104-106 | an optional flag is added exactly when it has a value |
| `ExperimentConfig.Extend` | fantoch_exp/src/config.rs:110-113 | extending the list appends each flag and its value |
| `ExperimentConfig.PairsFlatten` | fantoch_exp/src/config.rs:83-148 | every flag is followed by exactly its value |
| `ExperimentConfig.FlattenAppend` | fantoch_exp/src/config.rs:83-148 | flattening distributes over concatenation |
| `ExperimentConfig.LayoutLeading` | fantoch_exp/src/config.rs:84-103 | the line always begins with `--id` … `--execute_at_commit` in that order |
| `ExperimentConfig.LayoutGcInterval` | fantoch_exp/src/config.rs:104-106 | `--gc_interval` appears exactly when set |
| `ExperimentConfig.LayoutLeader` | fantoch_exp/src/config.rs:107-109 | `--leader` appears exactly when set |
| `ExperimentConfig.LayoutNewtClockBumpInterval` | fantoch_exp/src/config.rs:114-116 | `--newt_clock_bump_interval` appears exactly when set |
| `ExperimentConfig.LayoutTcpFlushInterval` | fantoch_exp/src/config.rs:125-127 | `--tcp_flush_interval` appears exactly when set |
| `ExperimentConfig.LayoutExecutionLog` | fantoch_exp/src/config.rs:138-140 | `--execution_log` appears exactly when set |
| `ExperimentConfig.LayoutTracerShowInterval` | fantoch_exp/src/config.rs:141-143 | `--tracer_show_interval` appears exactly when set |
| `ExperimentConfig.LayoutPingInterval` | fantoch_exp/src/config.rs:144-146 | `--ping_interval` appears exactly when set |
| `ExperimentConfig.TracerShown` | fantoch_exp/src/config.rs:79-143 | after setting the interval the line holds `--tracer_show_interval` followed by it |
| `ExperimentConfig.IpsToAddressesSplit` | fantoch_exp/src/config.rs:150-163 | the addresses string splits on `,` back into one address per entry, in order |
| `ExperimentConfig.AddressShape` | fantoch_exp/src/config.rs:153-159 | `ip:3000`, followed by `-delay` when there is a delay |
| `ExperimentConfig.AddressFree` | fantoch_exp/src/config.rs:153-159 | an address holds no `,` when its IP holds none |
| `ExperimentConfig.ClientConfig.constructor` | fantoch_exp/src/config.rs:178-189 | keeps the ids and IP, with default settings |
| `ExperimentConfig.ClientConfig.ToArgs` | fantoch_exp/src/config.rs:191-208 | seven flag and value pairs, starting with `--ids start-end` and `--address ip:4000` |
| `ExperimentConfig.ClientConfig.IpToAddress` | fantoch_exp/src/config.rs:210-212 | the IP followed by `:4000` |
| `Topology.ParseLine` | exp/files/topology.py:11-15 | a machine and an IP separated by one space parse back to the pair |
| `Topology.ParsedLine` | exp/files/topology.py:11-15 | a parsed line is the stripped machine, a space and the IP |
| `Topology.StripIdempotent` | exp/files/topology.py:11-15 | stripping twice is stripping once |
| `Topology.StripClean` | exp/files/topology.py:11-15 | a line without surrounding space is unchanged |
| `Topology.MachinesAndIpsMeaning` | exp/files/topology.py:6-17 | the file parses exactly when every line does, to the lines' pairs |
| `Topology.AllPresentMeaning` | exp/files/topology.py:6-17 | the list is present exactly when every entry is |
| `Topology.SortedByDistanceRing` | exp/files/topology.py:20-24 | n processes starting at id, going up and wrapping to 1 |
| `Topology.SortedByDistancePermutation` | exp/files/topology.py:20-24 | each of 1 … n exactly once |
| `Topology.CollectIps` | exp/files/topology.py:43-51 | the other processes' IPs in process order; this process's entry is number id |
| `Topology.OtherIpsSlices` | exp/files/topology.py:43-51 | the collected IPs are those before and after this process's entry |
| `Topology.ReportFields` | exp/files/topology.py:53-55 | the printed line splits on spaces into the machine, the sorted ids, the IP and the other IPs; the order field splits on commas back into the process numbers, and with at least one other process and comma-free IPs the last field splits on commas back into the other IPs |
| `Topology.JoinFree` | exp/files/topology.py:53-55 | joining pieces without a character adds none |
| `Topology.SecondOfThree` | exp/files/topology.py:37-55 | the script's output for process 2 of 3 |
| `Text.DecimalRoundTrip` | exp/files/topology.py:53-55 | a rendered number reads back as the number |
| `Text.DecimalInjective` | exp/files/topology.py:53-55 | distinct numbers render differently |
| `Text.SplitJoin` | fantoch_exp/src/config.rs:150-163 | splitting a join of separator-free pieces gives the pieces |
| `Text.JoinSplit` | fantoch_exp/src/config.rs:150-163 | joining the pieces of a split gives the string back |

## Left out

- Panics: a Rust `assert!`, `unwrap` or out-of-range index is a `requires`
  on the member, so the model does not describe the aborted run.
- Randomness: the random index in `get_n_deps_by_cmd` and in
  `do_add_cmd`, the key streams and payloads of the workload, and the
  identifiers of the queue tests are parameters (`pick`, `stream`, `texts`,
  `rifl`).
- `HashMap` and `HashSet` iteration order is a `keyOrder`/`order`
  parameter. Results are stated for any order the caller passes.
- Tarjan's finder and the queue's `index` submodule are not part of this
  model. `SccFinder.StrongConnect` stands in for them: it releases the whole
  pending reach set of the dot, ordered by the size of what each dot reaches
  and then by dot. This agrees with Tarjan on dependencies and, inside a
  component, on the dot order. When two components are unrelated, their
  relative order may differ from Tarjan's.
- QueueOracles.CheckTermination: every command is proved released only when
  all commands access one key, as in the test where every command writes
  "black". With disjoint keys, `try_pending` does not revisit other keys.
- The fixed argument lists of `test_add_1` … `test_add_6` are not
  instantiated. `ShuffleSameOrder` covers argument lists where every two
  commands are related, and `CheckTermination` covers any argument list.
- `random_adds` is not generated. Its outcome, that every two commands are
  related, is the hypothesis of `ShuffleSameOrder`.
- The graph executor's `DependencyGraph` is not part of this model. What it
  releases, requests and replies is a `GraphOutput` parameter, and the calls
  it receives are a log.
- `KVStore::execute_command` (the `src/` store) is not part of this model.
  The basic executor takes it as an `Execution` function parameter.
- `ExecutionOrderMonitor` is modelled as a log of the calls it receives.
- `maybe_add_deps` is an abstract function parameter that takes only what
  the record holds.
- `fantoch::kvs` is not part of this model. It is imported by
  fantoch/src/executor/mod.rs:15, by mrvs.rs:5 and by
  fantoch_ps/src/executor/graph/index.rs:6 and executor.rs:7 and 33. In
  its place:
  - `kvs::KVOp` in mrvs.rs is `Storage.StorageOp` (`MultiRecord.Chosen`);
  - `KVOpResult` is `Storage.StorageOpResult`
    (`ExecutorResults.Result.Partial`);
  - the graph executor's `KVStore::new()` is a `Storage.Store` in key-value
    mode with no execution-order monitor. Outside key-value mode that store
    ignores writes, so this choice fixes the graph executor's results;
  - workload.rs's `kvs::KVOp` is a separate `Workloads.KVOp` (`Get`, or
    `Put` of a text payload).
- The threshold clocks are not part of this model.
- `key_hash` and `Dot::target_shard` are function parameters.
- The `args!` macro is modelled as `to_string` on each value.
- The key generators, `RiflGen` and the `Config` accessors are values.
- `Arc`, `Mutex`, `DashMap` and `Shared` are plain maps and values, so
  sharing between threads is not modelled.
- Widths: `u16` store values are modelled exactly, including the
  saturating Add and Subtract. `u64` and `usize` are unbounded.
- Storage.Store.GetNDepsByCmd: the `u16` running total of the `Subtract`
  walk (fantoch/src/store.rs:95-114) is modelled as the debug build runs it:
  an overflow is the walk's `Panic` case, and the second `requires` excludes
  it. A release build would wrap the total modulo 65536 and keep walking;
  that behaviour is not modelled.
- Topology.CollectIps: `requires n <= |data|` stands for the `IndexError`
  topology.py:46 raises when `n` exceeds the lines of the file; the failing
  run is not modelled.
- AtlasQueue.Queue.Add: `requires dot !in executedClock` is stronger than
  `index` (src/protocol/atlas/queue/mod.rs:66-72), which rejects only a dot
  already in the vertex index. It is the protocol's invariant that a
  command is committed once, so an executed dot is never added again; the
  source would only catch such a dot at the assert of mod.rs:103, once the
  finder reports it found.
- `Debug` and `Display` formatting is left out, except the
  `ExecutorMetricsKind` name.
- Logging, tracing and serde derives are left out.
- `nfr_allowed`, `read_only` and `replicated_by` in fantoch/src/command.rs
  are predicates defined by their bodies (`NfrAllowed`, `ReadOnly`,
  `ReplicatedBy`). Their promises appear in the contracts of `KeyCount`,
  `MergeReadOnly` and `AddCmd`.
- `PendingIndex::is_mine` is the predicate `IsMine`, used in the contract of
  `PendingIndex.Index`.
- `issued_commands` and `finished` are functions. `FinishedIff` and `NextCmd`
  state their meaning.
- `Protocol::quorum_size` is the function `QuorumSize`, stated by the
  `Bote` lemmas.
- The test-only `cmd_deps`, `noop_deps`, `do_cmd_deps` and `parallel` of
  mrvs.rs are left out: they only read the same records.
- `subtract_flow` asserts results that do not hold when the store is not in
  key-value mode. `SubtractFlowNonKv` states what that mode gives instead.
- In topology.py, reading `argv` and the file, `print`, `sys.exit` and the
  usage message are left out. A line that does not parse is `None` rather
  than an exception.
- The simulation runners, plotting, statistics and client glue are left
  out: they are I/O, floating point or orchestration over code not shown.
