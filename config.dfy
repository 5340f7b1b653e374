/** The command lines the experiment runner gives server processes and
    clients (fantoch_exp/src/config.rs). The protocol `Config` is not part
    of this model: its accessors are the fields of `ProtocolConfig`. The
    `args!` macro renders each value with `to_string`. */
module ExperimentConfig {
  import opened Ids
  import opened Wrappers
  import opened Text

  // fixed
  const FixedIp := "0.0.0.0"
  const FixedPort: nat := 3000
  const FixedClientPort: nat := 4000

  // process settings
  const DefaultWorkers: nat := 16
  const DefaultExecutors: nat := 16
  const DefaultMultiplexing: nat := 32
  const DefaultTcpNodelay := true
  const DefaultTcpBufferSize: nat := 8 * 1024
  const DefaultTcpFlushInterval: Option<nat> := Some(2)
  const DefaultChannelBufferSize: nat := 100000
  const DefaultExecutionLog: Option<string> := None
  const DefaultTracerShowInterval: Option<nat> := None
  const DefaultPingInterval: Option<nat> := Some(500)

  // client settings
  const DefaultConflictRate: nat := 10
  const DefaultCommandsPerClient: nat := 1000
  const DefaultPayloadSize: nat := 0
  const DefaultClientTcpNodelay := true

  /** The accessors of the protocol configuration that `to_args` reads. */
  datatype ProtocolConfig = ProtocolConfig(
    n: nat, f: nat, transitiveConflicts: bool, executeAtCommit: bool,
    gcInterval: Option<nat>, leader: Option<ProcessId>, newtTinyQuorums: bool,
    newtClockBumpInterval: Option<nat>, skipFastAck: bool)

  /** The flags of the two command lines. */
  datatype Flag =
    | Id | Ip | Port | ClientPort | Addresses | Processes | Faults | TransitiveConflicts | ExecuteAtCommit
    | GcInterval | Leader | NewtTinyQuorums | NewtClockBumpInterval | SkipFastAck
    | TcpNodelay | TcpBufferSize | TcpFlushInterval
    | ChannelBufferSize | Workers | Executors | Multiplexing
    | ExecutionLog | TracerShowInterval | PingInterval
    | Ids | Address | ConflictRate | CommandsPerClient | PayloadSize

  /** How a flag is spelled on the command line. */
  function FlagName(f: Flag): string
  {
    match f
    case Id => "--id"
    case Ip => "--ip"
    case Port => "--port"
    case ClientPort => "--client_port"
    case Addresses => "--addresses"
    case Processes => "--processes"
    case Faults => "--faults"
    case TransitiveConflicts => "--transitive_conflicts"
    case ExecuteAtCommit => "--execute_at_commit"
    case GcInterval => "--gc_interval"
    case Leader => "--leader"
    case NewtTinyQuorums => "--newt_tiny_quorums"
    case NewtClockBumpInterval => "--newt_clock_bump_interval"
    case SkipFastAck => "--skip_fast_ack"
    case TcpNodelay => "--tcp_nodelay"
    case TcpBufferSize => "--tcp_buffer_size"
    case TcpFlushInterval => "--tcp_flush_interval"
    case ChannelBufferSize => "--channel_buffer_size"
    case Workers => "--workers"
    case Executors => "--executors"
    case Multiplexing => "--multiplexing"
    case ExecutionLog => "--execution_log"
    case TracerShowInterval => "--tracer_show_interval"
    case PingInterval => "--ping_interval"
    case Ids => "--ids"
    case Address => "--address"
    case ConflictRate => "--conflict_rate"
    case CommandsPerClient => "--commands_per_client"
    case PayloadSize => "--payload_size"
  }

  /** `to_string` on a `bool`. */
  function BoolText(b: bool): string
  {
    if b then "true" else "false"
  }

  /** A flag and the one value that follows it on the command line. */
  datatype Arg = Arg(flag: Flag, value: string)

  /** The command line of a list of flags. */
  function Flatten(args: seq<Arg>): (line: seq<string>)
    ensures |line| == 2 * |args|
    decreases |args|
  {
    if args == [] then [] else [FlagName(args[0].flag), args[0].value] + Flatten(args[1..])
  }

  /** A command line of even length, read two words at a time. */
  function Pairs(line: seq<string>): seq<(string, string)>
    requires |line| % 2 == 0
    decreases |line|
  {
    if line == [] then [] else [(line[0], line[1])] + Pairs(line[2..])
  }

  /** The flags as they are spelled, each with its value. */
  function Spelled(args: seq<Arg>): (r: seq<(string, string)>)
    ensures |r| == |args| && forall i :: 0 <= i < |args| ==> r[i] == (FlagName(args[i].flag), args[i].value)
  {
    seq(|args|, i requires 0 <= i < |args| => (FlagName(args[i].flag), args[i].value))
  }

  /** Every flag is followed by exactly one value: reading the command
      line two words at a time gives each flag, spelled out, with its
      value, in order. */
  lemma {:induction false} PairsFlatten(args: seq<Arg>)
    ensures Pairs(Flatten(args)) == Spelled(args)
    decreases |args|
  {
    if args != [] {
      PairsFlatten(args[1..]);
      assert Flatten(args)[2..] == Flatten(args[1..]);
      assert Spelled(args) == [Spelled(args)[0]] + Spelled(args[1..]);
    }
  }

  lemma {:induction false} FlattenAppend(a: seq<Arg>, b: seq<Arg>)
    ensures Flatten(a + b) == Flatten(a) + Flatten(b)
    decreases |a|
  {
    if a != [] {
      FlattenAppend(a[1..], b);
      assert (a + b)[0] == a[0];
      assert (a + b)[1..] == a[1..] + b;
    } else {
      assert a + b == b;
    }
  }

  /** The flag, when its value is present. */
  function Optional(flag: Flag, value: Option<string>): (args: seq<Arg>)
    ensures |args| <= 1
  {
    if value.Some? then [Arg(flag, value.value)] else []
  }

  function DecimalOf(v: Option<nat>): (r: Option<string>)
    ensures r.Some? <==> v.Some?
  {
    if v.Some? then Some(Decimal(v.value)) else None
  }

  /** The flag appears, with the value, when the value is present, and
      does not appear otherwise. */
  ghost predicate OptionalFlag(args: seq<Arg>, flag: Flag, value: Option<string>)
  {
    (value.Some? ==> Arg(flag, value.value) in args) &&
    (value.None? ==> forall v :: Arg(flag, v) !in args)
  }

  /** `ips_to_addresses` on one entry: `ip:3000`, followed by `-delay`
      when there is a delay. */
  function Address(ip: string, delay: Option<nat>): string
  {
    var address := ip + ":" + Decimal(FixedPort);
    if delay.Some? then address + "-" + Decimal(delay.value) else address
  }

  /** An address has no comma when its IP has none. */
  lemma AddressFree(ip: string, delay: Option<nat>)
    requires Free(ip, ',')
    ensures Free(Address(ip, delay), ',')
  {
    DecimalFree(FixedPort, ',');
    FreeAppend(ip, ":", ',');
    FreeAppend(ip + ":", Decimal(FixedPort), ',');
    if delay.Some? {
      DecimalFree(delay.value, ',');
      FreeAppend(ip + ":" + Decimal(FixedPort), "-", ',');
      FreeAppend(ip + ":" + Decimal(FixedPort) + "-", Decimal(delay.value), ',');
    }
  }

  function AddressList(ips: seq<(string, Option<nat>)>): (r: seq<string>)
    ensures |r| == |ips| && forall i :: 0 <= i < |ips| ==> r[i] == Address(ips[i].0, ips[i].1)
  {
    seq(|ips|, i requires 0 <= i < |ips| => Address(ips[i].0, ips[i].1))
  }

  /** `ips_to_addresses`. */
  function IpsToAddresses(ips: seq<(string, Option<nat>)>): string
  {
    Join(AddressList(ips), ',')
  }

  /** With at least one process and no comma in any IP, splitting the
      list on commas gives each process's address, in order. */
  lemma IpsToAddressesSplit(ips: seq<(string, Option<nat>)>)
    requires 1 <= |ips|
    requires forall i :: 0 <= i < |ips| ==> Free(ips[i].0, ',')
    ensures Split(IpsToAddresses(ips), ',') == AddressList(ips)
  {
    var addresses := AddressList(ips);
    forall i | 0 <= i < |addresses|
      ensures Free(addresses[i], ',')
    {
      AddressFree(ips[i].0, ips[i].1);
    }
    SplitJoin(addresses, ',');
  }

  /** The address of an entry is its IP and port 3000, then its delay
      when it has one. */
  lemma AddressShape(ip: string, delay: Option<nat>)
    ensures delay.None? ==> Address(ip, delay) == ip + ":3000"
    ensures delay.Some? ==> Address(ip, delay) == ip + ":3000-" + Decimal(delay.value)
  {
    DecimalSmall();
  }

  /** The rendered value of every flag of a server's command line, and
      nothing for an optional flag whose setting is absent. */
  datatype ProcessValues = ProcessValues(
    id: string, ip: string, port: string, clientPort: string, addresses: string,
    processes: string, faults: string, transitiveConflicts: string, executeAtCommit: string,
    gcInterval: Option<string>, leader: Option<string>, newtTinyQuorums: string,
    newtClockBumpInterval: Option<string>, skipFastAck: string,
    tcpNodelay: string, tcpBufferSize: string, tcpFlushInterval: Option<string>,
    channelBufferSize: string, workers: string, executors: string, multiplexing: string,
    executionLog: Option<string>, tracerShowInterval: Option<string>, pingInterval: Option<string>)

  /** The flags that always lead a server's command line, in this order. */
  function Leading(v: ProcessValues): seq<Arg>
  {
    [Arg(Id, v.id), Arg(Ip, v.ip), Arg(Port, v.port), Arg(ClientPort, v.clientPort),
     Arg(Addresses, v.addresses), Arg(Processes, v.processes), Arg(Faults, v.faults),
     Arg(TransitiveConflicts, v.transitiveConflicts), Arg(ExecuteAtCommit, v.executeAtCommit)]
  }

  /** The flags a server's command line takes from the protocol
      configuration, in the order `to_args` emits them. */
  function ProtocolPart(v: ProcessValues): seq<Arg>
  {
    Leading(v)
    + Optional(GcInterval, v.gcInterval)
    + Optional(Leader, v.leader)
    + [Arg(NewtTinyQuorums, v.newtTinyQuorums)]
    + Optional(NewtClockBumpInterval, v.newtClockBumpInterval)
    + [Arg(SkipFastAck, v.skipFastAck)]
  }

  /** The flags a server's command line takes from the process settings,
      in the order `to_args` emits them. */
  function SettingsPart(v: ProcessValues): seq<Arg>
  {
    [Arg(TcpNodelay, v.tcpNodelay), Arg(TcpBufferSize, v.tcpBufferSize)]
    + Optional(TcpFlushInterval, v.tcpFlushInterval)
    + [Arg(ChannelBufferSize, v.channelBufferSize), Arg(Workers, v.workers),
       Arg(Executors, v.executors), Arg(Multiplexing, v.multiplexing)]
    + Optional(ExecutionLog, v.executionLog)
    + Optional(TracerShowInterval, v.tracerShowInterval)
    + Optional(PingInterval, v.pingInterval)
  }

  /** The flags of a server's command line. */
  function Layout(v: ProcessValues): seq<Arg>
  {
    ProtocolPart(v) + SettingsPart(v)
  }

  /** The leading flags come first, in their fixed order. */
  lemma LayoutLeading(v: ProcessValues)
    ensures |Layout(v)| >= 9 && Layout(v)[..9] == Leading(v)
  {
  }

  /** `--gc_interval` and its value appear exactly when the protocol configuration sets it. */
  lemma LayoutGcInterval(v: ProcessValues)
    ensures OptionalFlag(Layout(v), GcInterval, v.gcInterval)
  {
  }

  /** `--leader` and its value appear exactly when the protocol configuration sets it. */
  lemma LayoutLeader(v: ProcessValues)
    ensures OptionalFlag(Layout(v), Leader, v.leader)
  {
  }

  /** `--newt_clock_bump_interval` and its value appear exactly when the protocol configuration sets it. */
  lemma LayoutNewtClockBumpInterval(v: ProcessValues)
    ensures OptionalFlag(Layout(v), NewtClockBumpInterval, v.newtClockBumpInterval)
  {
  }

  /** `--tcp_flush_interval` and its value appear exactly when the process settings set it. */
  lemma LayoutTcpFlushInterval(v: ProcessValues)
    ensures OptionalFlag(Layout(v), TcpFlushInterval, v.tcpFlushInterval)
  {
  }

  /** `--execution_log` and its value appear exactly when the process settings set it. */
  lemma LayoutExecutionLog(v: ProcessValues)
    ensures OptionalFlag(Layout(v), ExecutionLog, v.executionLog)
  {
  }

  /** `--tracer_show_interval` and its value appear exactly when the process settings set it. */
  lemma LayoutTracerShowInterval(v: ProcessValues)
    ensures OptionalFlag(Layout(v), TracerShowInterval, v.tracerShowInterval)
  {
  }

  /** `--ping_interval` and its value appear exactly when the process settings set it. */
  lemma LayoutPingInterval(v: ProcessValues)
    ensures OptionalFlag(Layout(v), PingInterval, v.pingInterval)
  {
  }

  class ProcessConfig {
    const id: ProcessId
    const ips: seq<(string, Option<nat>)>
    const config: ProtocolConfig
    const tcpNodelay: bool
    const tcpBufferSize: nat
    const tcpFlushInterval: Option<nat>
    const channelBufferSize: nat
    const workers: nat
    const executors: nat
    const multiplexing: nat
    const executionLog: Option<string>
    var tracerShowInterval: Option<nat>
    const pingInterval: Option<nat>

    /** `new`: the given process and the default settings. */
    constructor (id: ProcessId, config: ProtocolConfig, ips: seq<(string, Option<nat>)>)
      ensures this.id == id && this.config == config && this.ips == ips
      ensures tcpNodelay == DefaultTcpNodelay && tcpBufferSize == DefaultTcpBufferSize
      ensures tcpFlushInterval == DefaultTcpFlushInterval && channelBufferSize == DefaultChannelBufferSize
      ensures workers == DefaultWorkers && executors == DefaultExecutors && multiplexing == DefaultMultiplexing
      ensures executionLog == DefaultExecutionLog && tracerShowInterval == DefaultTracerShowInterval
      ensures pingInterval == DefaultPingInterval
    {
      this.id := id;
      this.ips := ips;
      this.config := config;
      tcpNodelay := DefaultTcpNodelay;
      tcpBufferSize := DefaultTcpBufferSize;
      tcpFlushInterval := DefaultTcpFlushInterval;
      channelBufferSize := DefaultChannelBufferSize;
      workers := DefaultWorkers;
      executors := DefaultExecutors;
      multiplexing := DefaultMultiplexing;
      executionLog := DefaultExecutionLog;
      tracerShowInterval := DefaultTracerShowInterval;
      pingInterval := DefaultPingInterval;
    }

    /** `set_tracer_show_interval`. */
    method SetTracerShowInterval(interval: nat)
      modifies this
      ensures tracerShowInterval == Some(interval)
    {
      tracerShowInterval := Some(interval);
    }

    /** The rendered value of each flag, and nothing for an absent
        setting. */
    function Values(): (v: ProcessValues)
      reads this
    {
      ProcessValues(
        Decimal(id), FixedIp, Decimal(FixedPort), Decimal(FixedClientPort), IpsToAddresses(ips),
        Decimal(config.n), Decimal(config.f), BoolText(config.transitiveConflicts), BoolText(config.executeAtCommit),
        DecimalOf(config.gcInterval), DecimalOf(config.leader), BoolText(config.newtTinyQuorums),
        DecimalOf(config.newtClockBumpInterval), BoolText(config.skipFastAck),
        BoolText(tcpNodelay), Decimal(tcpBufferSize), DecimalOf(tcpFlushInterval),
        Decimal(channelBufferSize), Decimal(workers), Decimal(executors), Decimal(multiplexing),
        executionLog, DecimalOf(tracerShowInterval), DecimalOf(pingInterval))
    }

    /** `to_args`: the command line of the rendered settings. */
    method ToArgs() returns (line: seq<string>)
      ensures line == Flatten(Layout(Values()))
      ensures |line| % 2 == 0 && Pairs(line) == Spelled(Layout(Values()))
    {
      line := ProcessLine(Values());
    }
  }

  /** The body of `to_args`: the leading flags, then each setting in turn,
      an optional one only when it is present. */
  method ProcessLine(v: ProcessValues) returns (line: seq<string>)
    ensures line == Flatten(Layout(v))
    ensures |line| % 2 == 0 && Pairs(line) == Spelled(Layout(v))
  {
    ghost var args;
    line, args := ExtendProtocol(v);
    line, args := ExtendSettings(line, args, v);
    PairsFlatten(args);
  }

  /** The flags from the protocol configuration. */
  method ExtendProtocol(v: ProcessValues) returns (line: seq<string>, ghost args: seq<Arg>)
    ensures args == ProtocolPart(v) && line == Flatten(args)
    ensures line == Flatten(ProtocolPart(v))
  {
    line, args := Extend([], [], Leading(v));
    assert args == Leading(v);
    line, args := ExtendOptional(line, args, GcInterval, v.gcInterval);
    line, args := ExtendOptional(line, args, Leader, v.leader);
    line, args := Extend(line, args, [Arg(NewtTinyQuorums, v.newtTinyQuorums)]);
    line, args := ExtendOptional(line, args, NewtClockBumpInterval, v.newtClockBumpInterval);
    line, args := Extend(line, args, [Arg(SkipFastAck, v.skipFastAck)]);
  }

  /** The flags from the process settings, after those already there. */
  method ExtendSettings(line: seq<string>, ghost args: seq<Arg>, v: ProcessValues)
    returns (line': seq<string>, ghost args': seq<Arg>)
    requires line == Flatten(args)
    ensures args' == args + SettingsPart(v) && line' == Flatten(args')
    ensures line' == line + Flatten(SettingsPart(v))
  {
    var more := [Arg(TcpNodelay, v.tcpNodelay), Arg(TcpBufferSize, v.tcpBufferSize)];
    line', args' := Extend(line, args, more);
    var step := Optional(TcpFlushInterval, v.tcpFlushInterval);
    line', args' := ExtendOptional(line', args', TcpFlushInterval, v.tcpFlushInterval);
    Associative(args, more, step);
    more := more + step;
    step := [Arg(ChannelBufferSize, v.channelBufferSize), Arg(Workers, v.workers),
             Arg(Executors, v.executors), Arg(Multiplexing, v.multiplexing)];
    line', args' := Extend(line', args', step);
    Associative(args, more, step);
    more := more + step;
    step := Optional(ExecutionLog, v.executionLog);
    line', args' := ExtendOptional(line', args', ExecutionLog, v.executionLog);
    Associative(args, more, step);
    more := more + step;
    step := Optional(TracerShowInterval, v.tracerShowInterval);
    line', args' := ExtendOptional(line', args', TracerShowInterval, v.tracerShowInterval);
    Associative(args, more, step);
    more := more + step;
    step := Optional(PingInterval, v.pingInterval);
    line', args' := ExtendOptional(line', args', PingInterval, v.pingInterval);
    Associative(args, more, step);
    FlattenAppend(args, SettingsPart(v));
  }

  lemma Associative(a: seq<Arg>, b: seq<Arg>, c: seq<Arg>)
    ensures a + b + c == a + (b + c)
  {
  }

  /** `if let Some(x) = value { args.extend(args![flag, x]) }`. */
  method ExtendOptional(line: seq<string>, ghost args: seq<Arg>, flag: Flag, value: Option<string>)
    returns (line': seq<string>, ghost args': seq<Arg>)
    requires line == Flatten(args)
    ensures args' == args + Optional(flag, value) && line' == Flatten(args')
    ensures line' == line + Flatten(Optional(flag, value))
  {
    if value.Some? {
      line', args' := Extend(line, args, [Arg(flag, value.value)]);
    } else {
      line', args' := line, args;
      assert args + [] == args;
    }
    FlattenAppend(args, Optional(flag, value));
  }

  /** `args.extend(args![...])`: appends the flags and their values. */
  method Extend(line: seq<string>, ghost args: seq<Arg>, more: seq<Arg>) returns (line': seq<string>, ghost args': seq<Arg>)
    requires line == Flatten(args)
    ensures args' == args + more && line' == Flatten(args')
    ensures line' == line + Flatten(more)
  {
    line' := line;
    args' := args;
    assert more[..0] == [];
    for i := 0 to |more|
      invariant args' == args + more[..i] && line' == Flatten(args')
    {
      FlattenAppend(args', [more[i]]);
      assert more[..i + 1] == more[..i] + [more[i]];
      Associative(args, more[..i], [more[i]]);
      line' := line' + [FlagName(more[i].flag), more[i].value];
      args' := args' + [more[i]];
    }
    assert more[..|more|] == more;
    FlattenAppend(args, more);
  }

  /** After `set_tracer_show_interval(i)`, the command line carries
      `--tracer_show_interval` with the value `i`. */
  method TracerShown(pc: ProcessConfig, interval: nat) returns (line: seq<string>)
    modifies pc
    ensures |line| % 2 == 0 && (FlagName(TracerShowInterval), Decimal(interval)) in Pairs(line)
  {
    pc.SetTracerShowInterval(interval);
    line := pc.ToArgs();
    ghost var v := pc.Values();
    assert v.tracerShowInterval == Some(Decimal(interval));
    LayoutTracerShowInterval(v);
    SpelledHas(Layout(v), TracerShowInterval, Decimal(interval));
  }

  /** A flag among the arguments is read back, spelled out, with its value. */
  lemma SpelledHas(args: seq<Arg>, flag: Flag, value: string)
    requires Arg(flag, value) in args
    ensures (FlagName(flag), value) in Spelled(args)
  {
    var i :| 0 <= i < |args| && args[i] == Arg(flag, value);
    assert Spelled(args)[i] == (FlagName(flag), value);
  }

  class ClientConfig {
    const idStart: nat
    const idEnd: nat
    const ip: string
    const conflictRate: nat
    const commandsPerClient: nat
    const payloadSize: nat
    const tcpNodelay: bool
    const channelBufferSize: nat

    /** `new`: the given client range and host, and the default settings. */
    constructor (idStart: nat, idEnd: nat, ip: string)
      ensures this.idStart == idStart && this.idEnd == idEnd && this.ip == ip
      ensures conflictRate == DefaultConflictRate && commandsPerClient == DefaultCommandsPerClient
      ensures payloadSize == DefaultPayloadSize && tcpNodelay == DefaultClientTcpNodelay
      ensures channelBufferSize == DefaultChannelBufferSize
    {
      this.idStart := idStart;
      this.idEnd := idEnd;
      this.ip := ip;
      conflictRate := DefaultConflictRate;
      commandsPerClient := DefaultCommandsPerClient;
      payloadSize := DefaultPayloadSize;
      tcpNodelay := DefaultClientTcpNodelay;
      channelBufferSize := DefaultChannelBufferSize;
    }

    /** `ip_to_address`: the host, then the client port. */
    function IpToAddress(): (address: string)
      ensures |address| == |ip| + 5 && address[..|ip|] == ip && address[|ip|..] == ":4000"
    {
      DecimalSmall();
      ip + ":" + Decimal(FixedClientPort)
    }

    /** The flags `to_args` emits, in order. */
    function ClientArgs(): seq<Arg>
    {
      [Arg(Ids, Decimal(idStart) + "-" + Decimal(idEnd)), Arg(Address, IpToAddress()),
       Arg(ConflictRate, Decimal(conflictRate)), Arg(CommandsPerClient, Decimal(commandsPerClient)),
       Arg(PayloadSize, Decimal(payloadSize)), Arg(TcpNodelay, BoolText(tcpNodelay)),
       Arg(ChannelBufferSize, Decimal(channelBufferSize))]
    }

    /** `to_args`: the client range as `start-end`, which splits on `-`
        back into the two bounds, then the address, then the settings, one
        value per flag. */
    function ToArgs(): (line: seq<string>)
      ensures |line| == 14 && Pairs(line) == Spelled(ClientArgs())
      ensures line[0] == FlagName(Ids) && Split(line[1], '-') == [Decimal(idStart), Decimal(idEnd)]
      ensures line[2] == FlagName(Address) && line[3] == IpToAddress()
    {
      var args := ClientArgs();
      assert Join([Decimal(idStart), Decimal(idEnd)], '-') == Decimal(idStart) + "-" + Decimal(idEnd);
      DecimalFree(idStart, '-');
      DecimalFree(idEnd, '-');
      SplitJoin([Decimal(idStart), Decimal(idEnd)], '-');
      PairsFlatten(args);
      Flatten(args)
    }
  }
}
