/**
 * What a configuration holds, read off the calls that were made: the last call since its record
 * was made that sets a field decides it, and every field has its value from the start.
 */
module RegistryHistory {
  import opened Common
  import opened RegistryModel

  /** The socket that was added last for the device, unless it has been removed. */
  function SocketOf(dev: DeviceOf, ops: seq<Op>, d: string): Option<Sock>
    decreases |ops|
  {
    if ops == [] then None
    else
      var past := ops[..|ops| - 1];
      match ops[|ops| - 1]
      case Add(s) => if dev(s) == d then Some(s) else SocketOf(dev, past, d)
      case Remove(s) => if SocketOf(dev, past, d) == Some(s) then None else SocketOf(dev, past, d)
      case _ => SocketOf(dev, past, d)
  }

  /** The device has a record: one was made, and not removed since with its socket or as unused. */
  predicate HasConfig(dev: DeviceOf, ops: seq<Op>, d: string)
    decreases |ops|
  {
    ops != [] &&
    var past := ops[..|ops| - 1];
    match ops[|ops| - 1]
    case Add(s) => dev(s) == d || HasConfig(dev, past, d)
    case CreateConfig(e) => e == d || HasConfig(dev, past, d)
    case Remove(s) => SocketOf(dev, past, d) != Some(s) && HasConfig(dev, past, d)
    case RemoveUnusedConfig(e) => !(e == d && SocketOf(dev, past, d).None?) && HasConfig(dev, past, d)
    case _ => HasConfig(dev, past, d)
  }

  /** The last call makes the record of the device. */
  predicate MakesConfig(dev: DeviceOf, ops: seq<Op>, d: string)
    requires ops != []
  {
    var op := ops[|ops| - 1];
    !HasConfig(dev, ops[..|ops| - 1], d) && ((op.Add? && dev(op.s) == d) || op == CreateConfig(d))
  }

  predicate ConnectedOf(dev: DeviceOf, ops: seq<Op>, d: string)
    decreases |ops|
  {
    ops != [] && !MakesConfig(dev, ops, d) &&
    var past := ops[..|ops| - 1];
    match ops[|ops| - 1]
    case Connect(s) => SocketOf(dev, past, d) == Some(s) || ConnectedOf(dev, past, d)
    case DisconnectSocket(s) => SocketOf(dev, past, d) != Some(s) && ConnectedOf(dev, past, d)
    case DisconnectDevice(e) => e != d && ConnectedOf(dev, past, d)
    case UpdateConfig(c) => if c.device_id == d then c.connected else ConnectedOf(dev, past, d)
    case _ => ConnectedOf(dev, past, d)
  }

  function IpOf(dev: DeviceOf, ops: seq<Op>, d: string): string
    decreases |ops|
  {
    if ops == [] || MakesConfig(dev, ops, d) then ""
    else
      var past := ops[..|ops| - 1];
      match ops[|ops| - 1]
      case AddIP(e, ip) => if e == d then ip else IpOf(dev, past, d)
      case UpdateConfig(c) => if c.device_id == d then c.ip else IpOf(dev, past, d)
      case _ => IpOf(dev, past, d)
  }

  function RemotePortOf(dev: DeviceOf, ops: seq<Op>, d: string): int
    decreases |ops|
  {
    if ops == [] || MakesConfig(dev, ops, d) then -1
    else
      var past := ops[..|ops| - 1];
      match ops[|ops| - 1]
      case AddRemotePort(e, port) => if e == d && port >= 0 then port else RemotePortOf(dev, past, d)
      case UpdateConfig(c) => if c.device_id == d then c.remote_port else RemotePortOf(dev, past, d)
      case _ => RemotePortOf(dev, past, d)
  }

  function SockfdOf(dev: DeviceOf, ops: seq<Op>, d: string): int
    decreases |ops|
  {
    if ops == [] || MakesConfig(dev, ops, d) then -1
    else
      var past := ops[..|ops| - 1];
      match ops[|ops| - 1]
      case UpdateConfig(c) => if c.device_id == d then c.sockfd else SockfdOf(dev, past, d)
      case _ => SockfdOf(dev, past, d)
  }

  /** AddLocalPort records the least port that was in the pool. */
  ghost function LocalPortOf(dev: DeviceOf, ops: seq<Op>, d: string): int
    decreases |ops|
  {
    if ops == [] || MakesConfig(dev, ops, d) then -1
    else
      var past := ops[..|ops| - 1];
      match ops[|ops| - 1]
      case AddLocalPort(e) =>
        if e == d && Pool(dev, past) != {} then Least(Pool(dev, past)) else LocalPortOf(dev, past, d)
      case UpdateConfig(c) => if c.device_id == d then c.local_port else LocalPortOf(dev, past, d)
      case _ => LocalPortOf(dev, past, d)
  }

  /** The pool: the least port goes with each acquisition, and comes back when it is released by
      number or with the socket whose config records it. */
  ghost function Pool(dev: DeviceOf, ops: seq<Op>): set<int>
    decreases |ops|
  {
    if ops == [] then PortsBetween(40000, 40256)
    else
      var past := ops[..|ops| - 1];
      var pool := Pool(dev, past);
      match ops[|ops| - 1]
      case InitializeLocalPorts => pool + PortsBetween(40000, 40256)
      case AcquireLocalPort => if pool == {} then pool else pool - {Least(pool)}
      case AddLocalPort(_) => if pool == {} then pool else pool - {Least(pool)}
      case ReleasePort(port) => if 40000 <= port <= 40256 then pool + {port} else pool
      case Remove(s) =>
        var port := LocalPortOf(dev, past, dev(s));
        if SocketOf(dev, past, dev(s)) == Some(s) && 40000 <= port <= 40256 then pool + {port} else pool
      case _ => pool
  }

  /** m is what the calls have left of the config of d. */
  ghost predicate Remembered(dev: DeviceOf, ops: seq<Op>, m: Model, d: string) {
    && (d in m.configs <==> HasConfig(dev, ops, d))
    && (d in m.configs ==>
          m.configs[d] == Config(SocketOf(dev, ops, d), d, IpOf(dev, ops, d), SockfdOf(dev, ops, d),
                                 LocalPortOf(dev, ops, d), RemotePortOf(dev, ops, d), ConnectedOf(dev, ops, d)))
    && (d !in m.configs ==> SocketOf(dev, ops, d).None?)
  }

  ghost predicate AllRemembered(dev: DeviceOf, ops: seq<Op>, m: Model) {
    m.free == Pool(dev, ops) && forall d :: Remembered(dev, ops, m, d)
  }

  /** The fields of a history with one call more, in terms of those of the calls before. */
  lemma {:induction false} LastCall(ops: seq<Op>, op: Op)
    ensures (ops + [op])[..|ops + [op]| - 1] == ops && (ops + [op])[|ops + [op]| - 1] == op
  {
  }

  lemma {:induction false} PoolRemembers(dev: DeviceOf, ops: seq<Op>, m: Model, op: Op)
    requires AllRemembered(dev, ops, m) && Consistent(m, dev) && Allowed(m, dev, op)
    ensures Apply(m, dev, op).free == Pool(dev, ops + [op])
  {
    LastCall(ops, op);
    hide Least, Target, Recorded, Orphans;
    match op
    case Remove(s) => assert Remembered(dev, ops, m, dev(s));
    case ReleasePortOfDevice(d) => assert Remembered(dev, ops, m, d);
    case ReleasePortOfSocket(s) => assert Remembered(dev, ops, m, dev(s));
    case AddLocalPort(d) =>
    case _ =>
  }

  /** The record that a call looks up is written back to its device. */
  lemma {:induction false} WritesTo(m: Model, dev: DeviceOf, d: string, c: Config)
    requires SocketsAgree(m, dev) && d in m.configs && c.socket == m.configs[d].socket && c.device_id == d
    ensures Write(m, dev, c) == m.(configs := m.configs[d := c])
  {
    FoundIsTarget(m, dev, d, c);
  }

  lemma {:induction false} FlagCallRemembers(dev: DeviceOf, ops: seq<Op>, m: Model, op: Op, d: string)
    requires AllRemembered(dev, ops, m) && Consistent(m, dev) && SetsFlag(op)
    ensures Remembered(dev, ops + [op], Apply(m, dev, op), d)
  {
    LastCall(ops, op);
    assert Remembered(dev, ops, m, d);
    hide Least, Pool, PortsAgree;
    match op
    case Connect(s) =>
      if c :| BySocket(m, dev, s) == Some(c) { WritesTo(m, dev, dev(s), c.(connected := true)); }
    case DisconnectSocket(s) =>
      if c :| BySocket(m, dev, s) == Some(c) { WritesTo(m, dev, dev(s), c.(connected := false)); }
    case DisconnectDevice(e) => if e in m.configs { WritesTo(m, dev, e, m.configs[e].(connected := false)); }
    case AddIP(e, ip) => if e in m.configs { WritesTo(m, dev, e, m.configs[e].(ip := ip)); }
    case AddRemotePort(e, port) => if e in m.configs { WritesTo(m, dev, e, m.configs[e].(remote_port := port)); }
  }

  lemma {:induction false} PortCallRemembers(dev: DeviceOf, ops: seq<Op>, m: Model, e: string, d: string)
    requires AllRemembered(dev, ops, m) && Consistent(m, dev)
    ensures Remembered(dev, ops + [AddLocalPort(e)], Apply(m, dev, AddLocalPort(e)), d)
  {
    LastCall(ops, AddLocalPort(e));
    assert Remembered(dev, ops, m, d);
    hide Least, Pool, PortsAgree;
    if m.free != {} && e in m.configs {
      SocketsSame(m, TakePort(m), dev);
      WritesTo(TakePort(m), dev, e, m.configs[e].(local_port := Least(m.free)));
    }
  }

  lemma {:induction false} UpdateRemembers(dev: DeviceOf, ops: seq<Op>, m: Model, c: Config, d: string)
    requires AllRemembered(dev, ops, m) && Consistent(m, dev) && Allowed(m, dev, UpdateConfig(c))
    ensures Remembered(dev, ops + [UpdateConfig(c)], Apply(m, dev, UpdateConfig(c)), d)
  {
    LastCall(ops, UpdateConfig(c));
    assert Remembered(dev, ops, m, d);
    hide Least, Recorded, Orphans, PortsAgree, Pool;
    assert Target(m, dev, c).Some? ==> Target(m, dev, c).value == c.device_id;
    assert Target(m, dev, c).None? ==> c.device_id !in m.configs;
  }

  lemma {:induction false} SocketCallRemembers(dev: DeviceOf, ops: seq<Op>, m: Model, op: Op, d: string)
    requires AllRemembered(dev, ops, m) && Consistent(m, dev) && Allowed(m, dev, op)
    requires !SetsFlag(op) && !op.UpdateConfig? && !op.AddLocalPort?
    ensures Remembered(dev, ops + [op], Apply(m, dev, op), d)
  {
    LastCall(ops, op);
    assert Remembered(dev, ops, m, d);
    hide Least, Recorded, Orphans, PortsAgree, Pool, Write, Without;
  }

  lemma {:induction false} CallRemembers(dev: DeviceOf, ops: seq<Op>, m: Model, op: Op, d: string)
    requires AllRemembered(dev, ops, m) && Consistent(m, dev) && Allowed(m, dev, op)
    ensures Remembered(dev, ops + [op], Apply(m, dev, op), d)
  {
    if SetsFlag(op) {
      FlagCallRemembers(dev, ops, m, op, d);
    } else if op.UpdateConfig? {
      UpdateRemembers(dev, ops, m, op.config, d);
    } else if op.AddLocalPort? {
      PortCallRemembers(dev, ops, m, op.d, d);
    } else {
      SocketCallRemembers(dev, ops, m, op, d);
    }
  }

  lemma {:induction false} RunOpsLast(m: Model, dev: DeviceOf, ops: seq<Op>, op: Op)
    ensures
      var before := RunOps(m, dev, ops);
      RunOps(m, dev, ops + [op]) ==
      if before.Some? && Allowed(before.value, dev, op) then Some(Apply(before.value, dev, op)) else None
    decreases |ops|
  {
    hide Allowed, Apply;
    if ops == [] {
      assert [] + [op] == [op] && RunOps(Apply(m, dev, op), dev, []) == Some(Apply(m, dev, op));
    } else {
      assert (ops + [op])[1..] == ops[1..] + [op];
      RunOpsLast(Apply(m, dev, ops[0]), dev, ops[1..], op);
    }
  }

  /** Over any run, the registry holds exactly the configs that were made and not removed, and every
      field of them is what the last call that sets it has left, or what it was when the record was
      made: no socket, an empty address, -1 for the descriptor and both ports, not connected. */
  lemma {:induction false} HistoryDecides(dev: DeviceOf, ops: seq<Op>)
    requires RunOps(INITIAL, dev, ops).Some?
    ensures AllRemembered(dev, ops, RunOps(INITIAL, dev, ops).value)
    decreases |ops|
  {
    hide RunOps, Apply, Allowed, Consistent, AllRemembered, Remembered;
    if ops == [] {
      NothingHappened(dev);
    } else {
      var past, op := ops[..|ops| - 1], ops[|ops| - 1];
      assert past + [op] == ops;
      RunOpsLast(INITIAL, dev, past, op);
      HistoryDecides(dev, past);
      InitialIsConsistent(dev);
      RunKeeps(INITIAL, dev, past);
      CallIsRemembered(dev, past, RunOps(INITIAL, dev, past).value, op);
    }
  }

  lemma {:induction false} NothingHappened(dev: DeviceOf)
    ensures RunOps(INITIAL, dev, []) == Some(INITIAL) && AllRemembered(dev, [], INITIAL)
  {
  }

  lemma {:induction false} CallIsRemembered(dev: DeviceOf, ops: seq<Op>, m: Model, op: Op)
    requires AllRemembered(dev, ops, m) && Consistent(m, dev) && Allowed(m, dev, op)
    ensures AllRemembered(dev, ops + [op], Apply(m, dev, op))
  {
    PoolRemembers(dev, ops, m, op);
    forall d ensures Remembered(dev, ops + [op], Apply(m, dev, op), d) {
      CallRemembers(dev, ops, m, op, d);
    }
    hide Remembered, Apply, Pool;
  }
}
