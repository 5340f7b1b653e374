/** The command of the older `src` crate, as the Atlas queue, the sequential
    key clocks and the basic executor use it: an identifier and the keys it
    accesses (src/command.rs is not part of this model). */
module KeyedCommand {
  import opened Ids

  datatype Command = Command(rifl: Rifl, keys: set<Key>)

  /** `Command::put(rifl, key, value)`: a single write on `key`. The value is
      not modelled. */
  function Put(rifl: Rifl, key: Key): (c: Command)
    ensures c.rifl == rifl && c.keys == {key}
  {
    Command(rifl, {key})
  }
}
