/** The graph executor: hands each kind of execution info to the dependency
    graph, executes the commands the graph releases, and buffers the results
    for clients and the messages for other shards' executors. The graph
    itself is not part of this model: what it releases and asks to send is
    passed in as a `GraphOutput`, and the calls it receives are logged. */
module GraphExecution {
  import opened Ids
  import opened Wrappers
  import opened Storage
  import opened Commands
  import opened MultiRecord

  /** What a shard replies to a request for a dot: the committed command
      with its dependencies, or that it was executed already. */
  datatype ReplyInfo = Info(dot: Dot, cmd: Command, deps: set<Dependency>) | ExecutedReply(dot: Dot)

  /** `GraphExecutionInfo`. */
  datatype GraphExecutionInfo =
    | Add(dot: Dot, cmd: Command, deps: set<Dependency>)
    | Request(from: ShardId, dots: set<Dot>)
    | RequestReply(infos: seq<ReplyInfo>)
    | Executed(dots: set<Dot>)

  const MainIndex: nat := 0
  const SecondaryIndex: nat := 1

  /** `MessageIndex::index`: which executor of the pool handles the info.
      Adds and request replies go to the main executor, requests and
      executed notifications to the secondary one. */
  function Index(info: GraphExecutionInfo): (r: Option<(nat, nat)>)
    ensures r.Some? && r.value.0 == 0
    ensures r.value.1 == MainIndex <==> info.Add? || info.RequestReply?
    ensures r.value.1 == SecondaryIndex <==> info.Request? || info.Executed?
  {
    match info
    case Add(_, _, _) => Some((0, MainIndex))
    case Request(_, _) => Some((0, SecondaryIndex))
    case RequestReply(_) => Some((0, MainIndex))
    case Executed(_) => Some((0, SecondaryIndex))
  }

  /** A call the executor makes on its dependency graph. */
  datatype GraphCall =
    | HandleAdd(dot: Dot, cmd: Command, deps: set<Dependency>)
    | HandleRequest(from: ShardId, dots: set<Dot>)
    | HandleRequestReply(infos: seq<ReplyInfo>)
    | HandleExecuted(dots: set<Dot>)
    | Cleanup

  /** A command the graph releases, with the order its shard's keys are
      iterated in. */
  datatype ReadyCommand = ReadyCommand(cmd: Command, keyOrder: seq<Key>)

  /** What the graph has to offer after a call: the commands it releases, in
      order; the dots it executed that other shards must hear of; the
      requests for dots to other shards; the replies to other shards. */
  datatype GraphOutput = GraphOutput(
    ready: seq<ReadyCommand>,
    added: Option<set<Dot>>,
    requests: seq<(ShardId, set<Dot>)>,
    replies: seq<(ShardId, seq<ReplyInfo>)>)

  /** Every released command comes with an enumeration of its keys on the
      shard. */
  ghost predicate ReadyOk(ready: seq<ReadyCommand>, shard: ShardId)
  {
    forall i :: 0 <= i < |ready| ==> Enumerates(ready[i].keyOrder, KeysAt(ready[i].cmd, shard))
  }

  /** Executing the released commands one after the other. */
  function ExecuteAll(s: Contents, kv: bool, shard: ShardId, ready: seq<ReadyCommand>): (o: Outcome)
    requires Singletons(s)
    ensures Singletons(o.store) && |o.results| == ResultCount(ready)
    decreases |ready|
  {
    if ready == [] then Outcome(s, [])
    else
      var o := ExecuteKeys(ready[0].cmd, shard, s, kv, ready[0].keyOrder);
      var rest := ExecuteAll(o.store, kv, shard, ready[1..]);
      Outcome(rest.store, o.results + rest.results)
  }

  /** One result per key of each released command. */
  function ResultCount(ready: seq<ReadyCommand>): nat
  {
    if ready == [] then 0 else |ready[0].keyOrder| + ResultCount(ready[1..])
  }

  /** Releasing commands in two batches has the same effect as releasing
      them all at once: the same store, and the results of the first batch
      followed by those of the second. */
  lemma {:induction false} ExecuteAllAppend(s: Contents, kv: bool, shard: ShardId, a: seq<ReadyCommand>, b: seq<ReadyCommand>)
    requires Singletons(s)
    ensures var first := ExecuteAll(s, kv, shard, a);
      var second := ExecuteAll(first.store, kv, shard, b);
      ExecuteAll(s, kv, shard, a + b) == Outcome(second.store, first.results + second.results)
    decreases |a|
  {
    if a == [] {
      assert a + b == b;
    } else {
      var o := ExecuteKeys(a[0].cmd, shard, s, kv, a[0].keyOrder);
      assert (a + b)[0] == a[0];
      assert (a + b)[1..] == a[1..] + b;
      ExecuteAllAppend(o.store, kv, shard, a[1..], b);
      var first := ExecuteAll(o.store, kv, shard, a[1..]);
      var second := ExecuteAll(first.store, kv, shard, b);
      assert o.results + (first.results + second.results) == (o.results + first.results) + second.results;
    }
  }

  /** Executing one more released command. */
  lemma ExecuteAllSnoc(s: Contents, kv: bool, shard: ShardId, ready: seq<ReadyCommand>, i: nat)
    requires Singletons(s) && i < |ready|
    ensures var prev := ExecuteAll(s, kv, shard, ready[..i]);
      var o := ExecuteKeys(ready[i].cmd, shard, prev.store, kv, ready[i].keyOrder);
      ExecuteAll(s, kv, shard, ready[..i + 1]) == Outcome(o.store, prev.results + o.results)
  {
    assert ready[..i + 1] == ready[..i] + [ready[i]];
    ExecuteAllAppend(s, kv, shard, ready[..i], [ready[i]]);
    var prev := ExecuteAll(s, kv, shard, ready[..i]);
    var o := ExecuteKeys(ready[i].cmd, shard, prev.store, kv, ready[i].keyOrder);
    assert ExecuteAll(o.store, kv, shard, [ready[i]][1..]) == Outcome(o.store, []);
    assert o.results + [] == o.results;
  }

  lemma ReadyOkTail(ready: seq<ReadyCommand>, shard: ShardId)
    requires ReadyOk(ready, shard) && ready != []
    ensures ReadyOk(ready[1..], shard)
  {
    forall i | 0 <= i < |ready[1..]| ensures Enumerates(ready[1..][i].keyOrder, KeysAt(ready[1..][i].cmd, shard)) {
      assert ready[1..][i] == ready[i + 1];
    }
  }

  /** The position in `ready` of the command the `j`-th result is for. */
  function Owner(ready: seq<ReadyCommand>, j: nat): (i: nat)
    requires j < ResultCount(ready)
    ensures i < |ready|
    decreases |ready|
  {
    if j < |ready[0].keyOrder| then 0 else 1 + Owner(ready[1..], j - |ready[0].keyOrder|)
  }

  /** Every result returned to clients is for a key of a released command,
      by that command's rifl: the `Owner` of the result. */
  lemma {:induction false} ExecuteAllFrom(s: Contents, kv: bool, shard: ShardId, ready: seq<ReadyCommand>, j: nat)
    requires Singletons(s) && ReadyOk(ready, shard) && j < ResultCount(ready)
    ensures ExecuteAll(s, kv, shard, ready).results[j].rifl == ready[Owner(ready, j)].cmd.rifl
    ensures ExecuteAll(s, kv, shard, ready).results[j].key in KeysAt(ready[Owner(ready, j)].cmd, shard)
    decreases |ready|
  {
    var o := ExecuteKeys(ready[0].cmd, shard, s, kv, ready[0].keyOrder);
    if j < |o.results| {
      ExecuteKeysFrom(ready[0].cmd, shard, s, kv, ready[0].keyOrder, j);
      assert ready[0].keyOrder[j] in KeysAt(ready[0].cmd, shard);
    } else {
      ReadyOkTail(ready, shard);
      ExecuteAllFrom(o.store, kv, shard, ready[1..], j - |o.results|);
      assert ready[1..][Owner(ready[1..], j - |o.results|)] == ready[Owner(ready, j)];
    }
  }

  /** The `k`-th result of running a command's keys is that command's, for
      the `k`-th key. */
  lemma {:induction false} ExecuteKeysFrom(c: Command, shard: ShardId, s: Contents, kv: bool, keys: seq<Key>, k: nat)
    requires Singletons(s) && k < |keys|
    ensures ExecuteKeys(c, shard, s, kv, keys).results[k].rifl == c.rifl
    ensures ExecuteKeys(c, shard, s, kv, keys).results[k].key == keys[k]
  {
    if k < |keys| - 1 {
      ExecuteKeysFrom(c, shard, s, kv, keys[..|keys| - 1], k);
    }
  }

  /** What the executor forwards to other executors after a graph call:
      the executed notification, then the requests, then the replies. */
  function Forwarded(shardId: ShardId, out: GraphOutput): (r: seq<(ShardId, GraphExecutionInfo)>)
    ensures |r| == (if out.added.Some? then 1 else 0) + |out.requests| + |out.replies|
  {
    (if out.added.Some? then [(shardId, Executed(out.added.value))] else [])
    + seq(|out.requests|, i requires 0 <= i < |out.requests| => (out.requests[i].0, Request(shardId, out.requests[i].1)))
    + seq(|out.replies|, i requires 0 <= i < |out.replies| => (out.replies[i].0, RequestReply(out.replies[i].1)))
  }

  /** Appending the three parts of `Forwarded` one after the other appends
      `Forwarded`. */
  lemma ForwardedParts(shardId: ShardId, out: GraphOutput, t0: seq<(ShardId, GraphExecutionInfo)>,
                       t1: seq<(ShardId, GraphExecutionInfo)>, t2: seq<(ShardId, GraphExecutionInfo)>,
                       t3: seq<(ShardId, GraphExecutionInfo)>)
    requires t1 == t0 + (if out.added.Some? then [(shardId, Executed(out.added.value))] else [])
    requires t2 == t1 + seq(|out.requests|, i requires 0 <= i < |out.requests| => (out.requests[i].0, Request(shardId, out.requests[i].1)))
    requires t3 == t2 + seq(|out.replies|, i requires 0 <= i < |out.replies| => (out.replies[i].0, RequestReply(out.replies[i].1)))
    ensures t3 == t0 + Forwarded(shardId, out)
  {
  }

  /** Forwarding routes executed notifications and requests to the secondary
      executor of the receiving process and replies to its main one. Each
      request and each reply goes to the shard the graph named, and the
      executed notification goes to this shard's own executors. */
  lemma ForwardedRouting(shardId: ShardId, out: GraphOutput)
    ensures var r := Forwarded(shardId, out);
      var base := if out.added.Some? then 1 else 0;
      && (out.added.Some? ==> r[0] == (shardId, Executed(out.added.value)) && Index(r[0].1) == Some((0, SecondaryIndex)))
      && (forall i :: 0 <= i < |out.requests| ==>
            r[base + i].0 == out.requests[i].0 && Index(r[base + i].1) == Some((0, SecondaryIndex)))
      && (forall i :: 0 <= i < |out.replies| ==>
            r[base + |out.requests| + i].0 == out.replies[i].0
            && Index(r[base + |out.requests| + i].1) == Some((0, MainIndex)))
  {
  }

  /** `GraphExecutor`. `shards` is the number of shards in the configuration
      and `executeAtCommit` its `execute_at_commit` flag. */
  class GraphExecutor {
    var executorIndex: nat
    const processId: ProcessId
    const shardId: ShardId
    const shards: nat
    const executeAtCommit: bool
    /** The executor index the graph was told. */
    var graphIndex: nat
    /** The calls made on the graph, in order. */
    var graphCalls: seq<GraphCall>
    const store: Store
    var toClients: seq<ExecutorResult>
    var toExecutors: seq<(ShardId, GraphExecutionInfo)>

    ghost predicate Valid()
      reads this, store
    {
      store.Valid()
    }

    /** `new`: the executor index starts at 0 and is set later; the store,
        the graph and both buffers start empty. */
    constructor (processId: ProcessId, shardId: ShardId, shards: nat, executeAtCommit: bool)
      ensures Valid() && fresh(store)
      ensures executorIndex == 0 && graphIndex == 0 && graphCalls == []
      ensures this.processId == processId && this.shardId == shardId
      ensures this.shards == shards && this.executeAtCommit == executeAtCommit
      ensures store.store == map[] && toClients == [] && toExecutors == []
    {
      executorIndex := 0;
      this.processId := processId;
      this.shardId := shardId;
      this.shards := shards;
      this.executeAtCommit := executeAtCommit;
      graphIndex := 0;
      graphCalls := [];
      store := new Store(false, true, None);
      toClients := [];
      toExecutors := [];
    }

    /** `set_executor_index`: both the executor and its graph learn it. */
    method SetExecutorIndex(index: nat)
      modifies this
      ensures executorIndex == index && graphIndex == index
      ensures graphCalls == old(graphCalls) && toClients == old(toClients) && toExecutors == old(toExecutors)
    {
      executorIndex := index;
      graphIndex := index;
    }

    /** `cleanup`: only with more than one shard does the graph get cleaned
        up and its actions fetched; otherwise nothing happens. */
    method Cleanup(out: GraphOutput)
      requires Valid() && ReadyOk(out.ready, shardId)
      modifies this, store
      ensures Valid() && executorIndex == old(executorIndex) && graphIndex == old(graphIndex)
      ensures shards <= 1 ==> (graphCalls == old(graphCalls) && store.store == old(store.store)
        && toClients == old(toClients) && toExecutors == old(toExecutors))
      ensures shards > 1 ==> graphCalls == old(graphCalls) + [GraphCall.Cleanup]
      ensures shards > 1 ==>
        var o := ExecuteAll(old(store.store), store.isKvStorage, shardId, out.ready);
        && store.store == o.store && toClients == old(toClients) + o.results
        && toExecutors == old(toExecutors) + Forwarded(shardId, out)
    {
      if shards > 1 {
        graphCalls := graphCalls + [GraphCall.Cleanup];
        FetchActions(out);
      }
    }

    /** `handle`. An add executes the command at once when executing at
        commit, and otherwise goes to the graph; requests and replies go to
        the graph; in all three cases the graph's actions are then fetched.
        An executed notification goes to the graph and nothing is fetched.
        `keyOrder` is the iteration order of an added command's keys, used
        only when it is executed at once. */
    method Handle(info: GraphExecutionInfo, out: GraphOutput, keyOrder: seq<Key>)
      requires Valid() && ReadyOk(out.ready, shardId)
      requires info.Add? && executeAtCommit ==> Enumerates(keyOrder, KeysAt(info.cmd, shardId))
      modifies this, store
      ensures Valid() && executorIndex == old(executorIndex) && graphIndex == old(graphIndex)
      ensures info.Add? && executeAtCommit ==>
        var o := ExecuteKeys(info.cmd, shardId, old(store.store), store.isKvStorage, keyOrder);
        && graphCalls == old(graphCalls) && store.store == o.store
        && toClients == old(toClients) + o.results && toExecutors == old(toExecutors)
      ensures info.Executed? ==> (
        graphCalls == old(graphCalls) + [HandleExecuted(info.dots)] && store.store == old(store.store)
        && toClients == old(toClients) && toExecutors == old(toExecutors))
      ensures !(info.Add? && executeAtCommit) && !info.Executed? ==>
        var o := ExecuteAll(old(store.store), store.isKvStorage, shardId, out.ready);
        && graphCalls == old(graphCalls) + [CallFor(info)]
        && store.store == o.store && toClients == old(toClients) + o.results
        && toExecutors == old(toExecutors) + (if shards > 1 then Forwarded(shardId, out) else [])
    {
      match info
      case Add(dot, cmd, deps) =>
        if executeAtCommit {
          Execute(cmd, keyOrder);
        } else {
          graphCalls := graphCalls + [HandleAdd(dot, cmd, deps)];
          FetchActions(out);
        }
      case Request(from, dots) =>
        graphCalls := graphCalls + [HandleRequest(from, dots)];
        FetchActions(out);
      case RequestReply(infos) =>
        graphCalls := graphCalls + [HandleRequestReply(infos)];
        FetchActions(out);
      case Executed(dots) =>
        graphCalls := graphCalls + [HandleExecuted(dots)];
    }

    /** `to_clients`: the results come out last in, first out. */
    method ToClients() returns (r: Option<ExecutorResult>)
      modifies this
      ensures old(toClients) == [] ==> r.None? && toClients == []
      ensures old(toClients) != [] ==> r.Some? && old(toClients) == toClients + [r.value]
      ensures graphCalls == old(graphCalls) && toExecutors == old(toExecutors)
    {
      if toClients == [] {
        r := None;
      } else {
        r := Some(toClients[|toClients| - 1]);
        toClients := toClients[..|toClients| - 1];
      }
    }

    /** `to_executors`: the messages come out last in, first out. */
    method ToExecutors() returns (r: Option<(ShardId, GraphExecutionInfo)>)
      modifies this
      ensures old(toExecutors) == [] ==> r.None? && toExecutors == []
      ensures old(toExecutors) != [] ==> r.Some? && old(toExecutors) == toExecutors + [r.value]
      ensures graphCalls == old(graphCalls) && toClients == old(toClients)
    {
      if toExecutors == [] {
        r := None;
      } else {
        r := Some(toExecutors[|toExecutors| - 1]);
        toExecutors := toExecutors[..|toExecutors| - 1];
      }
    }

    /** `fetch_actions`: executes what the graph released; with more than
        one shard, also forwards what the graph has for other executors. */
    method FetchActions(out: GraphOutput)
      requires Valid() && ReadyOk(out.ready, shardId)
      modifies this, store
      ensures Valid() && executorIndex == old(executorIndex) && graphIndex == old(graphIndex)
      ensures graphCalls == old(graphCalls)
      ensures var o := ExecuteAll(old(store.store), store.isKvStorage, shardId, out.ready);
        && store.store == o.store && toClients == old(toClients) + o.results
        && toExecutors == old(toExecutors) + (if shards > 1 then Forwarded(shardId, out) else [])
    {
      FetchCommandsToExecute(out.ready);
      if shards > 1 {
        ghost var t0 := toExecutors;
        FetchToExecutors(out.added);
        ghost var t1 := toExecutors;
        FetchRequests(out.requests);
        ghost var t2 := toExecutors;
        FetchRequestReplies(out.replies);
        ForwardedParts(shardId, out, t0, t1, t2, toExecutors);
      }
    }

    /** `fetch_commands_to_execute`: executes every command the graph
        releases, in order, until it has none left. */
    method FetchCommandsToExecute(ready: seq<ReadyCommand>)
      requires Valid() && ReadyOk(ready, shardId)
      modifies this, store
      ensures Valid() && executorIndex == old(executorIndex) && graphIndex == old(graphIndex)
      ensures graphCalls == old(graphCalls) && toExecutors == old(toExecutors)
      ensures var o := ExecuteAll(old(store.store), store.isKvStorage, shardId, ready);
        store.store == o.store && toClients == old(toClients) + o.results
    {
      // the results of each command are gathered here, then queued at once
      var results := [];
      var i := 0;
      while i < |ready|
        modifies store
        invariant 0 <= i <= |ready| && store.Valid()
        invariant Outcome(store.store, results) == ExecuteAll(old(store.store), store.isKvStorage, shardId, ready[..i])
      {
        ExecuteAllSnoc(old(store.store), store.isKvStorage, shardId, ready, i);
        var rs := Commands.Execute(ready[i].cmd, shardId, store, ready[i].keyOrder);
        results := results + rs;
        i := i + 1;
      }
      assert ready[..i] == ready;
      toClients := toClients + results;
    }

    /** `fetch_to_executors`: the dots the graph executed are announced to
        this shard's executors. */
    method FetchToExecutors(added: Option<set<Dot>>)
      modifies this
      ensures toExecutors == old(toExecutors) + (if added.Some? then [(shardId, Executed(added.value))] else [])
      ensures executorIndex == old(executorIndex) && graphIndex == old(graphIndex)
      ensures graphCalls == old(graphCalls) && toClients == old(toClients)
    {
      if added.Some? {
        toExecutors := toExecutors + [(shardId, Executed(added.value))];
      }
    }

    /** `fetch_requests`: one request per target shard, saying it is from
        this shard. */
    method FetchRequests(requests: seq<(ShardId, set<Dot>)>)
      modifies this
      ensures toExecutors == old(toExecutors)
        + seq(|requests|, i requires 0 <= i < |requests| => (requests[i].0, Request(shardId, requests[i].1)))
      ensures executorIndex == old(executorIndex) && graphIndex == old(graphIndex)
      ensures graphCalls == old(graphCalls) && toClients == old(toClients)
    {
      for i := 0 to |requests|
        invariant toExecutors == old(toExecutors)
          + seq(i, j requires 0 <= j < i => (requests[j].0, Request(shardId, requests[j].1)))
        invariant executorIndex == old(executorIndex) && graphIndex == old(graphIndex)
        invariant graphCalls == old(graphCalls) && toClients == old(toClients)
      {
        toExecutors := toExecutors + [(requests[i].0, Request(shardId, requests[i].1))];
      }
    }

    /** `fetch_request_replies`: one reply per requesting shard. */
    method FetchRequestReplies(replies: seq<(ShardId, seq<ReplyInfo>)>)
      modifies this
      ensures toExecutors == old(toExecutors)
        + seq(|replies|, i requires 0 <= i < |replies| => (replies[i].0, RequestReply(replies[i].1)))
      ensures executorIndex == old(executorIndex) && graphIndex == old(graphIndex)
      ensures graphCalls == old(graphCalls) && toClients == old(toClients)
    {
      for i := 0 to |replies|
        invariant toExecutors == old(toExecutors)
          + seq(i, j requires 0 <= j < i => (replies[j].0, RequestReply(replies[j].1)))
        invariant executorIndex == old(executorIndex) && graphIndex == old(graphIndex)
        invariant graphCalls == old(graphCalls) && toClients == old(toClients)
      {
        toExecutors := toExecutors + [(replies[i].0, RequestReply(replies[i].1))];
      }
    }

    /** `execute`: runs the command on this shard's keys and queues one
        result per key for the clients. */
    method Execute(cmd: Command, keyOrder: seq<Key>)
      requires Valid() && Enumerates(keyOrder, KeysAt(cmd, shardId))
      modifies this, store
      ensures Valid() && executorIndex == old(executorIndex) && graphIndex == old(graphIndex)
      ensures graphCalls == old(graphCalls) && toExecutors == old(toExecutors)
      ensures var o := ExecuteKeys(cmd, shardId, old(store.store), store.isKvStorage, keyOrder);
        store.store == o.store && toClients == old(toClients) + o.results
    {
      var results := Commands.Execute(cmd, shardId, store, keyOrder);
      toClients := toClients + results;
    }
  }

  /** The graph call an info other than an executed-at-commit add makes. */
  function CallFor(info: GraphExecutionInfo): GraphCall
  {
    match info
    case Add(dot, cmd, deps) => HandleAdd(dot, cmd, deps)
    case Request(from, dots) => HandleRequest(from, dots)
    case RequestReply(infos) => HandleRequestReply(infos)
    case Executed(dots) => HandleExecuted(dots)
  }
}
