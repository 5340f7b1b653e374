/** `BasicExecutor` (src/executor/basic.rs): executes every command as soon
    as it arrives, and answers only the ones its own clients registered. */
module BasicExecution {
  import opened Ids
  import opened Storage
  import opened KeyedCommand
  import Commands

  /** `KVStore::execute_command` of the older crate, which is not part of
      this model: the store after a command, and the command's result. */
  type Execution = (Contents, Command) -> (Contents, Commands.CommandResult)

  /** A command's result answers that command. */
  ghost predicate Answers(execute: Execution)
  {
    forall s, c :: execute(s, c).1.rifl == c.rifl
  }

  /** The state after a batch, and the results handed back. */
  datatype Handled = Handled(store: Contents, pending: set<Rifl>, results: seq<Commands.CommandResult>)

  /** `handle` on `infos`, one command after the other. */
  function HandleAll(execute: Execution, store: Contents, pending: set<Rifl>, infos: seq<Command>): Handled
    decreases |infos|
  {
    if infos == [] then Handled(store, pending, [])
    else
      var prev := HandleAll(execute, store, pending, infos[..|infos| - 1]);
      var cmd := infos[|infos| - 1];
      var ran := execute(prev.store, cmd);
      if cmd.rifl in prev.pending then Handled(ran.0, prev.pending - {cmd.rifl}, prev.results + [ran.1])
      else Handled(ran.0, prev.pending, prev.results)
  }

  /** Every command executed in order, pending or not. */
  function ExecuteAll(execute: Execution, store: Contents, infos: seq<Command>): Contents
    decreases |infos|
  {
    if infos == [] then store
    else execute(ExecuteAll(execute, store, infos[..|infos| - 1]), infos[|infos| - 1]).0
  }

  function Rifls(infos: seq<Command>): (rs: seq<Rifl>)
    ensures |rs| == |infos| && forall i :: 0 <= i < |infos| ==> rs[i] == infos[i].rifl
  {
    seq(|infos|, i requires 0 <= i < |infos| => infos[i].rifl)
  }

  /** The results answer the identifiers `rifls`, one each, in order. */
  predicate AnswersFor(results: seq<Commands.CommandResult>, rifls: seq<Rifl>)
  {
    |results| == |rifls| && forall i :: 0 <= i < |results| ==> results[i].rifl == rifls[i]
  }

  /** The identifiers of `rifls` that are pending, each at its first
      occurrence, in order. */
  function FirstPending(pending: set<Rifl>, rifls: seq<Rifl>): seq<Rifl>
    decreases |rifls|
  {
    if rifls == [] then []
    else
      var init, r := rifls[..|rifls| - 1], rifls[|rifls| - 1];
      if r in pending && r !in init then FirstPending(pending, init) + [r] else FirstPending(pending, init)
  }

  /** They are pending, occur in `rifls`, and occur once each. */
  lemma {:induction false} FirstPendingFacts(pending: set<Rifl>, rifls: seq<Rifl>)
    ensures forall r :: r in FirstPending(pending, rifls) <==> r in pending && r in rifls
    ensures NoDup(FirstPending(pending, rifls))
    decreases |rifls|
  {
    if rifls != [] {
      var init, r := rifls[..|rifls| - 1], rifls[|rifls| - 1];
      FirstPendingFacts(pending, init);
      assert forall x :: x in rifls <==> x in init || x == r;
    }
  }

  lemma RiflsSnoc(infos: seq<Command>)
    requires infos != []
    ensures Rifls(infos) == Rifls(infos[..|infos| - 1]) + [infos[|infos| - 1].rifl]
  {
    assert Rifls(infos)[..|infos| - 1] == Rifls(infos[..|infos| - 1]);
  }

  /** A batch executes every command, in order, pending or not. */
  lemma {:induction false} HandleAllStore(execute: Execution, store: Contents, pending: set<Rifl>, infos: seq<Command>)
    ensures HandleAll(execute, store, pending, infos).store == ExecuteAll(execute, store, infos)
    decreases |infos|
  {
    if infos != [] {
      HandleAllStore(execute, store, pending, infos[..|infos| - 1]);
    }
  }

  /** A batch retires exactly the pending identifiers of its commands. */
  lemma {:induction false} HandleAllPending(execute: Execution, store: Contents, pending: set<Rifl>, infos: seq<Command>)
    ensures HandleAll(execute, store, pending, infos).pending == pending - Elements(Rifls(infos))
    decreases |infos|
  {
    if infos != [] {
      var init := infos[..|infos| - 1];
      HandleAllPending(execute, store, pending, init);
      RiflsSnoc(infos);
      ElementsSnoc(Rifls(init), infos[|infos| - 1].rifl);
    }
  }

  /** A batch answers each pending identifier once, at its first command,
      in input order, and answers nothing else. */
  lemma {:induction false} HandleAllResults(execute: Execution, store: Contents, pending: set<Rifl>, infos: seq<Command>)
    requires Answers(execute)
    ensures AnswersFor(HandleAll(execute, store, pending, infos).results, FirstPending(pending, Rifls(infos)))
    decreases |infos|
  {
    if infos != [] {
      var init := infos[..|infos| - 1];
      var cmd := infos[|infos| - 1];
      HandleAllResults(execute, store, pending, init);
      HandleAllPending(execute, store, pending, init);
      RiflsSnoc(infos);
      var prev := HandleAll(execute, store, pending, init);
      assert execute(prev.store, cmd).1.rifl == cmd.rifl;
      assert cmd.rifl in prev.pending <==> cmd.rifl in pending && cmd.rifl !in Rifls(init);
      var h := HandleAll(execute, store, pending, infos);
      if cmd.rifl in prev.pending {
        assert h.results == prev.results + [execute(prev.store, cmd).1];
      }
    }
  }

  class BasicExecutor {
    const execute: Execution
    var store: Contents
    var pending: set<Rifl>

    ghost predicate Valid()
      reads this
    {
      Answers(execute)
    }

    /** `new`: an empty store and nothing pending. */
    constructor (execute: Execution)
      requires Answers(execute)
      ensures Valid() && this.execute == execute && store == map[] && pending == {}
    {
      this.execute := execute;
      store := map[];
      pending := {};
    }

    /** `register` asserts the identifier was not pending. */
    method Register(cmd: Command)
      requires cmd.rifl !in pending
      modifies this
      ensures pending == old(pending) + {cmd.rifl} && |pending| == |old(pending)| + 1
      ensures store == old(store)
    {
      pending := pending + {cmd.rifl};
    }

    /** `handle`. */
    method Handle(infos: seq<Command>) returns (results: seq<Commands.CommandResult>)
      modifies this
      ensures Handled(store, pending, results) == HandleAll(execute, old(store), old(pending), infos)
    {
      results := [];
      for i := 0 to |infos|
        invariant Handled(store, pending, results) == HandleAll(execute, old(store), old(pending), infos[..i])
      {
        var cmd := infos[i];
        assert infos[..i + 1][..i] == infos[..i];
        var ran := execute(store, cmd);
        store := ran.0;
        if cmd.rifl in pending {
          pending := pending - {cmd.rifl};
          results := results + [ran.1];
        }
      }
      assert infos[..|infos|] == infos;
    }
  }

  /** A registered request answered by a batch that holds its command
      twice gets one result, and a later batch with the command again gets
      none. */
  method AnsweredOnce(execute: Execution, cmd: Command) returns (first: seq<Commands.CommandResult>, second: seq<Commands.CommandResult>)
    requires Answers(execute)
    ensures AnswersFor(first, [cmd.rifl])
    ensures second == []
  {
    var executor := new BasicExecutor(execute);
    executor.Register(cmd);
    first := executor.Handle([cmd, cmd]);
    HandleAllResults(execute, map[], {cmd.rifl}, [cmd, cmd]);
    HandleAllPending(execute, map[], {cmd.rifl}, [cmd, cmd]);
    assert Rifls([cmd, cmd]) == [cmd.rifl, cmd.rifl];
    assert [cmd.rifl, cmd.rifl][..1] == [cmd.rifl] && [cmd.rifl][..0] == [];
    assert FirstPending({cmd.rifl}, [cmd.rifl]) == [cmd.rifl];
    assert FirstPending({cmd.rifl}, [cmd.rifl, cmd.rifl]) == [cmd.rifl];
    assert cmd.rifl in Elements([cmd.rifl, cmd.rifl]);
    assert executor.pending == {};
    second := executor.Handle([cmd]);
    assert [cmd][..0] == [];
  }
}
