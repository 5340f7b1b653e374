/** The results an executor hands back (fantoch/src/executor/mod.rs): the
    whole result of a command, or the result of one op on one key. */
module ExecutorResults {
  import opened Ids
  import opened Wrappers
  import opened Storage
  import opened Commands

  /** `ExecutorResult`. */
  datatype Result =
    | Ready(commandResult: CommandResult)
    | Partial(rifl: Rifl, key: Key, opResult: StorageOpResult)

  /** The identifier of the request a result answers. */
  function RiflOf(r: Result): Rifl
  {
    match r
    case Ready(c) => c.rifl
    case Partial(rifl, _, _) => rifl
  }

  /** `client`: the client that issued the request. */
  function Client(r: Result): (c: ClientId)
    ensures c == RiflOf(r).source
  {
    match r
    case Ready(cmdResult) => cmdResult.rifl.source
    case Partial(rifl, _, _) => rifl.source
  }

  /** `unwrap_ready` panics on a partial result. */
  function UnwrapReady(r: Result): (c: CommandResult)
    requires r.Ready?
    ensures Ready(c) == r
  {
    r.commandResult
  }

  /** `unwrap_partial` panics on a ready result. */
  function UnwrapPartial(r: Result): (t: (Rifl, Key, StorageOpResult))
    requires r.Partial?
    ensures Partial(t.0, t.1, t.2) == r
  {
    (r.rifl, r.key, r.opResult)
  }

  /** The client of a result is the `source` field of the identifier that either
      unwrap gives back. */
  lemma ClientUnwrapped(r: Result)
    ensures r.Ready? ==> Client(r) == UnwrapReady(r).rifl.source
    ensures r.Partial? ==> Client(r) == UnwrapPartial(r).0.source
  {
  }

  /** `MessageKey::key` as an execution info that does not override it
      answers: no key, so the info goes to the single executor. */
  function DefaultMessageKey<T>(info: T): (k: Option<Key>)
    ensures k.None?
  {
    None
  }

  /** `ExecutorMetricsKind`. */
  datatype ExecutorMetricsKind = ExecutionDelay

  /** Its `Debug` name. */
  function MetricsKindName(k: ExecutorMetricsKind): (name: string)
    ensures name == "execution_delay"
  {
    match k
    case ExecutionDelay => "execution_delay"
  }
}
