/** What a protocol step asks the runtime to send (src/protocol/mod.rs). */
module ProtocolActions {
  import opened Ids
  import opened KeyedCommand

  /** `ToSend`: nothing, a new command for a coordinator, or a message for
      a list of processes, each with the sending process. */
  datatype ToSend<M> =
    | Nothing
    | ToCoordinator(coordinator: ProcessId, cmd: Command)
    | ToProcesses(from: ProcessId, targets: seq<ProcessId>, msg: M)

  /** `is_nothing`. */
  predicate IsNothing<M>(t: ToSend<M>)
  {
    match t
    case Nothing => true
    case _ => false
  }

  /** `to_coordinator`. */
  predicate IsToCoordinator<M>(t: ToSend<M>)
  {
    match t
    case ToCoordinator(_, _) => true
    case _ => false
  }

  /** `to_processes`. */
  predicate IsToProcesses<M>(t: ToSend<M>)
  {
    match t
    case ToProcesses(_, _, _) => true
    case _ => false
  }

  /** Each predicate recognises its own variant, and exactly one of them
      holds of any value. */
  lemma ExactlyOne<M>(t: ToSend<M>)
    ensures IsNothing(t) <==> t.Nothing?
    ensures IsToCoordinator(t) <==> t.ToCoordinator?
    ensures IsToProcesses(t) <==> t.ToProcesses?
    ensures (if IsNothing(t) then 1 else 0) + (if IsToCoordinator(t) then 1 else 0) + (if IsToProcesses(t) then 1 else 0) == 1
  {
  }
}
