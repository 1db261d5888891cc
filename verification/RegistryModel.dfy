/**
 * The socket registry as one map from device id to configuration, with the sockets that are
 * looked up through it, the socket list and the pool of local ports: what every operation
 * does to it, and exactly which operations keep it consistent.
 */
module RegistryModel {
  import opened Common

  type Sock = nat

  const MIN_PORT := 40000
  const MAX_PORT := 40256
  const NO_PORT := -1

  datatype Config = Config(socket: Option<Sock>, device_id: string, ip: string, sockfd: int,
                           local_port: int, remote_port: int, connected: bool)

  /** A default-constructed configuration under a device id. */
  function NewConfig(d: string): Config {
    Config(None, d, "", -1, NO_PORT, NO_PORT, false)
  }

  /** `configs` is device_id_to_config_; `indexed` are the keys of sock_to_config_, each of which
      leads to the record of its socket's device. */
  datatype Model = Model(configs: map<string, Config>, indexed: set<Sock>, sockets: seq<Sock>, free: set<int>)

  predicate Between(p: int, lo: int, hi: int) {
    lo <= p <= hi
  }

  predicate IsPort(p: int) {
    Between(p, MIN_PORT, MAX_PORT)
  }

  function PortsBetween(lo: int, hi: int): set<int> {
    set p: int | lo <= p <= hi && Between(p, lo, hi)
  }

  function AllPorts(): set<int> {
    PortsBetween(MIN_PORT, MAX_PORT)
  }

  /** The device each socket was made for (GetDeviceID). */
  type DeviceOf = Sock -> string

  datatype Op =
    | Add(s: Sock)
    | Remove(s: Sock)
    | CreateConfig(d: string)
    | CreateConfigForSocket(s: Sock)
    | RemoveConfig(s: Sock)
    | RemoveUnusedConfig(d: string)
    | Connect(s: Sock)
    | DisconnectSocket(s: Sock)
    | DisconnectDevice(d: string)
    | AddIP(d: string, ip: string)
    | AddRemotePort(d: string, port: int)
    | AddLocalPort(d: string)
    | UpdateConfig(config: Config)
    | InitializeLocalPorts
    | AcquireLocalPort
    | ReleasePort(port: int)
    | ReleasePortOfSocket(s: Sock)
    | ReleasePortOfDevice(d: string)

  // ---- lookup ----------------------------------------------------------------------

  /** The configuration of a socket in the index is the one of its device, even if that names
      another socket. */
  function BySocket(m: Model, dev: DeviceOf, s: Sock): Option<Config> {
    if s in m.indexed && dev(s) in m.configs then Some(m.configs[dev(s)]) else None
  }

  function ByDevice(m: Model, d: string): Option<Config> {
    if d in m.configs then Some(m.configs[d]) else None
  }

  // ---- operations --------------------------------------------------------------------

  /** The device whose record UpdateConfig replaces: found by socket, else by device id. */
  function Target(m: Model, dev: DeviceOf, c: Config): Option<string> {
    if c.socket.Some? && BySocket(m, dev, c.socket.value).Some? then Some(dev(c.socket.value))
    else if c.device_id in m.configs then Some(c.device_id)
    else None
  }

  function Write(m: Model, dev: DeviceOf, c: Config): Model {
    var d := Target(m, dev, c);
    if d.None? then m else m.(configs := m.configs[d.value := c])
  }

  function Without(sockets: seq<Sock>, s: Sock): seq<Sock> {
    if sockets == [] then []
    else if sockets[0] == s then sockets[1..]
    else [sockets[0]] + Without(sockets[1..], s)
  }

  predicate IsLeast(free: set<int>, p: int) {
    p in free && forall q :: q in free ==> p <= q
  }

  lemma {:induction false} Inhabited(free: set<int>)
    ensures free == {} || exists x: int :: x in free
  {
    if forall x: int :: x !in free {
      assert free == {};
    }
  }

  lemma {:induction false} LeastExists(free: set<int>)
    requires free != {}
    ensures exists p :: IsLeast(free, p)
    decreases free
  {
    Inhabited(free);
    var x: int :| x in free;
    if !IsLeast(free, x) {
      var y :| y in free && y < x;
      var rest := free - {x};
      assert y in rest;
      LeastExists(rest);
      var r: int :| IsLeast(rest, r);
      assert r <= y;
      forall q | q in free ensures r <= q {
        if q != x { assert q in rest; }
      }
      assert IsLeast(free, r);
    }
  }

  /** The least port of a non-empty pool (std::set begin). */
  function Least(free: set<int>): (p: int)
    requires free != {}
    ensures IsLeast(free, p)
  {
    LeastExists(free);
    var p :| IsLeast(free, p);
    p
  }

  /** CreateConfig(socket): an existing configuration of the device now names s. */
  function IndexSocket(m: Model, dev: DeviceOf, s: Sock): Model {
    var d := dev(s);
    var c := if d in m.configs then m.configs[d] else NewConfig(d);
    m.(configs := m.configs[d := c.(socket := Some(s), device_id := d)], indexed := m.indexed + {s})
  }

  function AddSocket(m: Model, dev: DeviceOf, s: Sock): Model {
    IndexSocket(m, dev, s).(sockets := m.sockets + [s])
  }

  /** RemoveConfig(socket): the record of s leaves both indexes. */
  function WithoutRecord(m: Model, dev: DeviceOf, s: Sock): Model {
    m.(configs := m.configs - {dev(s)}, indexed := m.indexed - {s})
  }

  function RemoveSocket(m: Model, dev: DeviceOf, s: Sock): Model {
    if s !in m.sockets then m
    else
      var c := BySocket(m, dev, s);
      if c.None? then m.(sockets := Without(m.sockets, s))
      else Model(m.configs - {dev(s)}, m.indexed - {s}, Without(m.sockets, s), ReleasePortOf(m, c).free)
  }

  ghost function TakePort(m: Model): Model {
    if m.free == {} then m else m.(free := m.free - {Least(m.free)})
  }

  /** A port is taken from the pool before the configuration is looked up. */
  ghost function AssignPort(m: Model, dev: DeviceOf, d: string): Model {
    if m.free != {} && d in m.configs
    then Write(TakePort(m), dev, m.configs[d].(local_port := Least(m.free)))
    else TakePort(m)
  }

  /** Only ports of the range go back to the pool. */
  function Release(m: Model, port: int): Model {
    if IsPort(port) then m.(free := m.free + {port}) else m
  }

  /** The recorded port returns to the pool and stays recorded. */
  function ReleasePortOf(m: Model, c: Option<Config>): Model {
    if c.Some? && c.value.local_port != NO_PORT then Release(m, c.value.local_port) else m
  }

  ghost function Apply(m: Model, dev: DeviceOf, op: Op): Model {
    match op
    case Add(s) => AddSocket(m, dev, s)
    case Remove(s) => RemoveSocket(m, dev, s)
    case CreateConfig(d) => if d in m.configs then m else m.(configs := m.configs[d := NewConfig(d)])
    case CreateConfigForSocket(s) => IndexSocket(m, dev, s)
    case RemoveConfig(s) => if BySocket(m, dev, s).Some? then WithoutRecord(m, dev, s) else m
    case RemoveUnusedConfig(d) =>
      if d in m.configs && m.configs[d].socket.None? then m.(configs := m.configs - {d}) else m
    case Connect(s) =>
      var c := BySocket(m, dev, s);
      if c.None? then m else Write(m, dev, c.value.(connected := true))
    case DisconnectSocket(s) =>
      var c := BySocket(m, dev, s);
      if c.None? then m else Write(m, dev, c.value.(connected := false))
    case DisconnectDevice(d) => if d in m.configs then Write(m, dev, m.configs[d].(connected := false)) else m
    case AddIP(d, ip) => if d in m.configs then Write(m, dev, m.configs[d].(ip := ip)) else m
    case AddRemotePort(d, port) =>
      if port < 0 || d !in m.configs then m else Write(m, dev, m.configs[d].(remote_port := port))
    case AddLocalPort(d) => AssignPort(m, dev, d)
    case UpdateConfig(c) => Write(m, dev, c)
    case InitializeLocalPorts => m.(free := m.free + AllPorts())
    case AcquireLocalPort => TakePort(m)
    case ReleasePort(port) => Release(m, port)
    case ReleasePortOfSocket(s) => ReleasePortOf(m, BySocket(m, dev, s))
    case ReleasePortOfDevice(d) => ReleasePortOf(m, ByDevice(m, d))
  }

  // ---- when a registry is consistent ------------------------------------------------------

  ghost predicate SocketsAgree(m: Model, dev: DeviceOf) {
    && (forall d :: d in m.configs ==> m.configs[d].device_id == d)
    && (forall d :: d in m.configs && m.configs[d].socket.Some? ==>
          m.configs[d].socket.value in m.sockets && dev(m.configs[d].socket.value) == d)
    && (forall s :: s in m.sockets ==> s in m.indexed && dev(s) in m.configs && m.configs[dev(s)].socket == Some(s))
    && (forall s :: s in m.indexed ==> s in m.sockets)
    && (forall i, j :: 0 <= i < j < |m.sockets| ==> m.sockets[i] != m.sockets[j])
  }

  predicate Records(m: Model, d: string) {
    d in m.configs && m.configs[d].local_port != NO_PORT
  }

  ghost predicate Recorded(m: Model, p: int) {
    exists d :: Records(m, d) && m.configs[d].local_port == p
  }

  /** A port is free or recorded in one configuration, and not both. */
  ghost predicate PortsAgree(m: Model) {
    && m.free <= AllPorts()
    && (forall d :: Records(m, d) ==> IsPort(m.configs[d].local_port) && m.configs[d].local_port !in m.free)
    && (forall d, e :: Records(m, d) && Records(m, e) && d != e ==> m.configs[d].local_port != m.configs[e].local_port)
  }

  /** The ports that the registry has lost sight of: taken from the pool and not recorded. */
  ghost function Orphans(m: Model): set<int> {
    set p | p in AllPorts() && p !in m.free && !Recorded(m, p)
  }

  ghost predicate Consistent(m: Model, dev: DeviceOf) {
    SocketsAgree(m, dev) && PortsAgree(m)
  }

  ghost const INITIAL: Model := Model(map[], {}, [], AllPorts())

  /** c keeps the device and the socket of the record it replaces, and its port or one that
      the registry has lost sight of, or gives the port up. */
  ghost predicate Fits(m: Model, d: string, c: Config) {
    && d in m.configs && c.device_id == d && c.socket == m.configs[d].socket
    && PortFits(m, d, c)
  }

  ghost predicate PortFits(m: Model, d: string, c: Config) {
    d in m.configs && (c.local_port == m.configs[d].local_port || c.local_port == NO_PORT || c.local_port in Orphans(m))
  }

  /** What callers have to keep to: a socket is added once, and only for a device without one; the
      config of a socket is made again or removed only where that changes nothing; an update fits
      the record it replaces; and no recorded port is released. */
  ghost predicate Allowed(m: Model, dev: DeviceOf, op: Op) {
    match op
    case Add(s) => s !in m.sockets && (dev(s) in m.configs ==> m.configs[dev(s)].socket.None?)
    case CreateConfigForSocket(s) => s in m.indexed
    case RemoveConfig(s) => s !in m.indexed
    case UpdateConfig(c) => var d := Target(m, dev, c); d.Some? ==> Fits(m, d.value, c)
    case InitializeLocalPorts => forall d :: d in m.configs ==> !Records(m, d)
    case ReleasePort(port) => !Recorded(m, port)
    case ReleasePortOfSocket(s) => BySocket(m, dev, s).Some? ==> BySocket(m, dev, s).value.local_port == NO_PORT
    case ReleasePortOfDevice(d) => !Records(m, d)
    case _ => true
  }

  // ---- sockets: which operations keep the agreement -----------------------------------------

  lemma {:induction false} WithoutLength(sockets: seq<Sock>, s: Sock)
    ensures |Without(sockets, s)| == if s in sockets then |sockets| - 1 else |sockets|
    decreases |sockets|
  {
    if sockets != [] {
      assert sockets == [sockets[0]] + sockets[1..];
      WithoutLength(sockets[1..], s);
    }
  }

  lemma {:induction false} WithoutDrops(sockets: seq<Sock>, s: Sock)
    requires forall i, j :: 0 <= i < j < |sockets| ==> sockets[i] != sockets[j]
    ensures forall x :: x in Without(sockets, s) <==> x in sockets && x != s
    ensures forall i, j :: 0 <= i < j < |Without(sockets, s)| ==> Without(sockets, s)[i] != Without(sockets, s)[j]
    decreases |sockets|
  {
    if sockets != [] {
      var head, rest := sockets[0], sockets[1..];
      assert sockets == [head] + rest;
      WithoutDrops(rest, s);
      if head != s {
        var w := Without(rest, s);
        assert Without(sockets, s) == [head] + w;
        forall j | 0 <= j < |w| ensures w[j] != head {
          assert w[j] in rest;
        }
      }
    }
  }

  /** Adding a socket keeps the agreement exactly when it is new and its device has none. */
  lemma {:induction false} AddKeepsAgreementIff(m: Model, dev: DeviceOf, s: Sock)
    requires SocketsAgree(m, dev)
    ensures SocketsAgree(AddSocket(m, dev, s), dev) <==> Allowed(m, dev, Add(s))
  {
    var d, m' := dev(s), AddSocket(m, dev, s);
    if s in m.sockets {
      var i :| 0 <= i < |m.sockets| && m.sockets[i] == s;
      assert m'.sockets[i] == m'.sockets[|m.sockets|];
    } else if d in m.configs && m.configs[d].socket.Some? {
      var t := m.configs[d].socket.value;
      assert t in m'.sockets && m'.configs[dev(t)].socket != Some(t);
    } else {
      AddedAgree(m, dev, s);
    }
  }

  lemma {:induction false} AddedAgree(m: Model, dev: DeviceOf, s: Sock)
    requires SocketsAgree(m, dev) && Allowed(m, dev, Add(s))
    ensures SocketsAgree(AddSocket(m, dev, s), dev)
  {
    var m' := AddSocket(m, dev, s);
    forall t | t in m'.sockets ensures dev(t) in m'.configs && m'.configs[dev(t)].socket == Some(t) {
      assert t == s || t in m.sockets;
    }
  }

  /** After a disallowed Add for a device with a socket t, both sockets are looked up as the one
      record, which names s. */
  lemma {:induction false} AddShares(m: Model, dev: DeviceOf, s: Sock, t: Sock)
    requires SocketsAgree(m, dev) && t in m.sockets && s !in m.sockets && dev(s) == dev(t)
    ensures
      var m' := AddSocket(m, dev, s);
      && BySocket(m', dev, s) == BySocket(m', dev, t) == ByDevice(m', dev(s))
      && BySocket(m', dev, t).Some? && BySocket(m', dev, t).value.socket == Some(s)
      && s in m'.sockets && t in m'.sockets
  {
  }

  lemma {:induction false} RemovedAgree(m: Model, dev: DeviceOf, s: Sock)
    requires SocketsAgree(m, dev)
    ensures SocketsAgree(RemoveSocket(m, dev, s), dev)
  {
    hide ReleasePortOf;
    WithoutDrops(m.sockets, s);
  }

  /** Writing a record keeps the agreement exactly when it keeps the device and the socket. */
  lemma {:induction false} WriteKeepsAgreementIff(m: Model, dev: DeviceOf, c: Config)
    requires SocketsAgree(m, dev) && Target(m, dev, c).Some?
    ensures
      var d := Target(m, dev, c).value;
      SocketsAgree(Write(m, dev, c), dev) <==> c.device_id == d && c.socket == m.configs[d].socket
  {
    var d, m' := Target(m, dev, c).value, Write(m, dev, c);
    var was := m.configs[d].socket;
    assert m'.configs[d] == c;
    if c.device_id == d && c.socket != was {
      if was.Some? {
        assert was.value in m'.sockets && dev(was.value) == d;
      } else {
        assert c.socket.value !in m.sockets;
      }
    }
  }

  /** A configuration found under a device id is written back there. */
  lemma {:induction false} FoundIsTarget(m: Model, dev: DeviceOf, d: string, c: Config)
    requires SocketsAgree(m, dev) && d in m.configs && c.socket == m.configs[d].socket
      && c.device_id == m.configs[d].device_id
    ensures Target(m, dev, c) == Some(d)
  {
  }

  lemma {:induction false} SocketsSame(m: Model, m': Model, dev: DeviceOf)
    requires SocketsAgree(m, dev) && m'.configs == m.configs && m'.sockets == m.sockets && m'.indexed == m.indexed
    ensures SocketsAgree(m', dev)
  {
  }

  /** A configuration without a socket comes or goes. */
  lemma {:induction false} UnusedAgree(m: Model, dev: DeviceOf, d: string)
    requires SocketsAgree(m, dev)
    ensures SocketsAgree(Apply(m, dev, CreateConfig(d)), dev) && SocketsAgree(Apply(m, dev, RemoveUnusedConfig(d)), dev)
  {
  }

  // ---- ports: which operations keep the accounts ---------------------------------------------

  /** Replacing a record keeps the accounts exactly when the port fits. */
  lemma {:induction false} WriteKeepsAccountsIff(m: Model, d: string, c: Config)
    requires PortsAgree(m) && d in m.configs
    ensures PortsAgree(m.(configs := m.configs[d := c])) <==> PortFits(m, d, c)
  {
    var m' := m.(configs := m.configs[d := c]);
    forall e | e != d ensures Records(m, e) <==> Records(m', e) { }
    if c.local_port != NO_PORT && c.local_port != m.configs[d].local_port {
      assert Records(m', d);
      if Recorded(m, c.local_port) {
        var e :| Records(m, e) && m.configs[e].local_port == c.local_port;
        assert Records(m', e) && e != d;
      }
    }
  }

  /** A release keeps the accounts exactly when no configuration records the port. */
  lemma {:induction false} ReleaseKeepsAccountsIff(m: Model, port: int)
    requires PortsAgree(m)
    ensures PortsAgree(Release(m, port)) <==> !Recorded(m, port)
  {
    var m' := Release(m, port);
    if d :| Records(m, d) && m.configs[d].local_port == port {
      assert Records(m', d) && port in m'.free;
    } else {
      forall d | Records(m', d) ensures m'.configs[d].local_port !in m'.free {
        assert Records(m, d);
      }
    }
  }

  lemma {:induction false} ReleaseOfKeepsAccountsIff(m: Model, d: string)
    requires PortsAgree(m) && d in m.configs
    ensures PortsAgree(ReleasePortOf(m, Some(m.configs[d]))) <==> !Records(m, d)
  {
    hide PortsAgree, Release;
    if Records(m, d) {
      ReleaseKeepsAccountsIff(m, m.configs[d].local_port);
      assert Recorded(m, m.configs[d].local_port);
    }
  }

  lemma {:induction false} FewerPortsAgree(m: Model, m': Model)
    requires PortsAgree(m) && m'.free <= m.free
    requires forall d :: Records(m', d) ==> Records(m, d) && m'.configs[d].local_port == m.configs[d].local_port
    ensures PortsAgree(m')
  {
  }

  lemma {:induction false} AddedPortsAgree(m: Model, dev: DeviceOf, s: Sock)
    requires PortsAgree(m)
    ensures PortsAgree(AddSocket(m, dev, s))
  {
    hide PortsAgree;
    FewerPortsAgree(m, AddSocket(m, dev, s));
  }

  /** With its record gone, the port of a removed socket is free and nothing else. */
  lemma {:induction false} RemovedPortsAgree(m: Model, dev: DeviceOf, s: Sock)
    requires Consistent(m, dev)
    ensures PortsAgree(RemoveSocket(m, dev, s))
  {
    if s in m.sockets {
      var d := dev(s);
      var m' := m.(configs := m.configs - {d});
      FewerPortsAgree(m, m');
      var p := m.configs[d].local_port;
      if p != NO_PORT {
        assert Records(m, d);
        forall e | Records(m', e) ensures m'.configs[e].local_port != p {
          assert Records(m, e);
        }
        ReleaseKeepsAccountsIff(m', p);
      }
    }
  }

  lemma {:induction false} TakenIsOrphan(m: Model)
    requires PortsAgree(m) && m.free != {}
    ensures PortsAgree(TakePort(m)) && Least(m.free) in Orphans(TakePort(m))
  {
    var p := Least(m.free);
    forall d | Records(m, d) ensures m.configs[d].local_port != p { }
    assert !Recorded(TakePort(m), p);
  }

  lemma {:induction false} AssignedAgree(m: Model, dev: DeviceOf, d: string)
    requires Consistent(m, dev)
    ensures Consistent(AssignPort(m, dev, d), dev)
  {
    SocketsSame(m, TakePort(m), dev);
    if m.free != {} {
      TakenIsOrphan(m);
      if d in m.configs {
        var c := m.configs[d].(local_port := Least(m.free));
        WrittenIff(TakePort(m), dev, d, c);
      }
    }
  }

  /** Writing a configuration found under d. */
  lemma {:induction false} WrittenIff(m: Model, dev: DeviceOf, d: string, c: Config)
    requires Consistent(m, dev) && d in m.configs && c.socket == m.configs[d].socket
      && c.device_id == m.configs[d].device_id
    ensures Consistent(Write(m, dev, c), dev) <==> PortFits(m, d, c)
    ensures Target(m, dev, c) == Some(d)
  {
    FoundIsTarget(m, dev, d, c);
    assert m.configs[d].device_id == d;
    hide SocketsAgree, PortsAgree, Target;
    WriteKeepsAgreementIff(m, dev, c);
    WriteKeepsAccountsIff(m, d, c);
  }

  // ---- every operation ------------------------------------------------------------------------

  lemma {:induction false} UpdateKeepsIff(m: Model, dev: DeviceOf, c: Config)
    requires Consistent(m, dev)
    ensures Consistent(Write(m, dev, c), dev) <==> Allowed(m, dev, UpdateConfig(c))
  {
    hide SocketsAgree, PortsAgree;
    var d := Target(m, dev, c);
    if d.Some? {
      WriteKeepsAgreementIff(m, dev, c);
      WriteKeepsAccountsIff(m, d.value, c);
    }
  }

  lemma {:induction false} ReleaseKeepsIff(m: Model, dev: DeviceOf, op: Op)
    requires Consistent(m, dev) && (op.ReleasePort? || op.ReleasePortOfSocket? || op.ReleasePortOfDevice?)
    ensures Consistent(Apply(m, dev, op), dev) <==> Allowed(m, dev, op)
  {
    hide PortsAgree, SocketsAgree;
    SocketsSame(m, Apply(m, dev, op), dev);
    match op
    case ReleasePort(port) => ReleaseKeepsAccountsIff(m, port);
    case ReleasePortOfSocket(s) => if BySocket(m, dev, s).Some? { ReleaseOfKeepsAccountsIff(m, dev(s)); }
    case ReleasePortOfDevice(d) => if d in m.configs { ReleaseOfKeepsAccountsIff(m, d); }
  }

  lemma {:induction false} OrphansSame(m: Model, m': Model)
    requires m'.free == m.free && forall d :: Records(m, d) <==> Records(m', d)
    requires forall d :: Records(m, d) && Records(m', d) ==> m'.configs[d].local_port == m.configs[d].local_port
    ensures Orphans(m') == Orphans(m)
  {
    forall p ensures Recorded(m, p) <==> Recorded(m', p) {
      if d :| Records(m, d) && m.configs[d].local_port == p {
        assert Records(m', d);
      }
    }
  }

  /** A change of one record that keeps its socket, device and port. */
  lemma {:induction false} FlagKeeps(m: Model, dev: DeviceOf, d: string, c: Config)
    requires Consistent(m, dev) && d in m.configs && c.socket == m.configs[d].socket
      && c.device_id == m.configs[d].device_id
    requires c.local_port == m.configs[d].local_port
    ensures Consistent(Write(m, dev, c), dev) && Orphans(Write(m, dev, c)) == Orphans(m)
  {
    hide Consistent, Orphans;
    WrittenIff(m, dev, d, c);
    OrphansSame(m, Write(m, dev, c));
  }

  /** The operations that change a flag or an address in one record. */
  predicate SetsFlag(op: Op) {
    op.Connect? || op.DisconnectSocket? || op.DisconnectDevice? || op.AddIP? || op.AddRemotePort?
  }

  lemma {:induction false} FlagOpKeeps(m: Model, dev: DeviceOf, op: Op)
    requires Consistent(m, dev) && SetsFlag(op)
    ensures Consistent(Apply(m, dev, op), dev) && Orphans(Apply(m, dev, op)) == Orphans(m)
  {
    hide Consistent, Orphans, Write;
    match op
    case Connect(s) => if c :| BySocket(m, dev, s) == Some(c) { FlagKeeps(m, dev, dev(s), c.(connected := true)); }
    case DisconnectSocket(s) =>
      if c :| BySocket(m, dev, s) == Some(c) { FlagKeeps(m, dev, dev(s), c.(connected := false)); }
    case DisconnectDevice(d) => if d in m.configs { FlagKeeps(m, dev, d, m.configs[d].(connected := false)); }
    case AddIP(d, ip) => if d in m.configs { FlagKeeps(m, dev, d, m.configs[d].(ip := ip)); }
    case AddRemotePort(d, port) => if d in m.configs { FlagKeeps(m, dev, d, m.configs[d].(remote_port := port)); }
  }

  /** The public parts of Add, of Remove and of the constructor, called on their own. */
  lemma {:induction false} PartsKeepIff(m: Model, dev: DeviceOf, op: Op)
    requires Consistent(m, dev) && (op.CreateConfigForSocket? || op.RemoveConfig? || op.InitializeLocalPorts?)
    ensures Consistent(Apply(m, dev, op), dev) <==> Allowed(m, dev, op)
    ensures Allowed(m, dev, op) && !op.InitializeLocalPorts? ==> Apply(m, dev, op) == m
  {
    var m' := Apply(m, dev, op);
    match op
    case CreateConfigForSocket(s) =>
      if s in m.sockets {
        assert m.configs[dev(s) := m.configs[dev(s)]] == m.configs;
      } else {
        assert s in m'.indexed && s !in m'.sockets;
      }
    case RemoveConfig(s) =>
      if s in m.sockets {
        assert s in m'.sockets && s !in m'.indexed;
      }
    case InitializeLocalPorts =>
      SocketsIgnorePorts(m, m', dev);
      if d :| Records(m, d) {
        assert Records(m', d) && m'.configs[d].local_port in m'.free;
      }
  }

  /** Only Add and Remove look at the socket list. */
  lemma {:induction false} ListIsIrrelevant(m: Model, dev: DeviceOf, op: Op, sockets: seq<Sock>)
    requires !op.Add? && !op.Remove?
    ensures
      var m' := m.(sockets := sockets);
      && Apply(m', dev, op) == Apply(m, dev, op).(sockets := sockets) && Apply(m, dev, op).sockets == m.sockets
      && (Allowed(m', dev, op) <==> Allowed(m, dev, op))
  {
    var m' := m.(sockets := sockets);
    forall d ensures Records(m', d) <==> Records(m, d) { }
    forall p ensures Recorded(m', p) <==> Recorded(m, p) {
      if d :| Records(m, d) && m.configs[d].local_port == p { assert Records(m', d); }
      if d :| Records(m', d) && m'.configs[d].local_port == p { assert Records(m, d); }
    }
    assert Orphans(m') == Orphans(m);
    hide Orphans, Recorded, Least, IsPort;
  }

  lemma {:induction false} SocketsIgnorePorts(m: Model, m': Model, dev: DeviceOf)
    requires SocketsAgree(m, dev) && m' == m.(free := m'.free)
    ensures SocketsAgree(m', dev)
  {
  }

  /** An operation keeps a consistent registry consistent exactly when it is allowed. */
  lemma {:induction false} ApplyKeepsIff(m: Model, dev: DeviceOf, op: Op)
    requires Consistent(m, dev)
    ensures Consistent(Apply(m, dev, op), dev) <==> Allowed(m, dev, op)
  {
    hide SocketsAgree, PortsAgree, Write;
    match op
    case Add(s) => AddKeepsAgreementIff(m, dev, s); AddedPortsAgree(m, dev, s);
    case Remove(s) => RemovedAgree(m, dev, s); RemovedPortsAgree(m, dev, s);
    case CreateConfig(d) => UnusedAgree(m, dev, d); FewerPortsAgree(m, Apply(m, dev, op));
    case RemoveUnusedConfig(d) => UnusedAgree(m, dev, d); FewerPortsAgree(m, Apply(m, dev, op));
    case AddLocalPort(d) => AssignedAgree(m, dev, d);
    case UpdateConfig(c) => UpdateKeepsIff(m, dev, c);
    case AcquireLocalPort => SocketsSame(m, TakePort(m), dev); FewerPortsAgree(m, TakePort(m));
    case _ =>
      if SetsFlag(op) {
        FlagOpKeeps(m, dev, op);
      } else if op.ReleasePort? || op.ReleasePortOfSocket? || op.ReleasePortOfDevice? {
        ReleaseKeepsIff(m, dev, op);
      } else {
        PartsKeepIff(m, dev, op);
      }
  }

  ghost function RunOps(m: Model, dev: DeviceOf, ops: seq<Op>): Option<Model>
    decreases |ops|
  {
    if ops == [] then Some(m)
    else if Allowed(m, dev, ops[0]) then RunOps(Apply(m, dev, ops[0]), dev, ops[1..])
    else None
  }

  lemma {:induction false} RunKeeps(m: Model, dev: DeviceOf, ops: seq<Op>)
    requires Consistent(m, dev) && RunOps(m, dev, ops).Some?
    ensures Consistent(RunOps(m, dev, ops).value, dev)
    decreases |ops|
  {
    hide Consistent, Allowed, Apply;
    if ops != [] {
      ApplyKeepsIff(m, dev, ops[0]);
      RunKeeps(Apply(m, dev, ops[0]), dev, ops[1..]);
    }
  }

  lemma {:induction false} InitialIsConsistent(dev: DeviceOf)
    ensures Consistent(INITIAL, dev)
  {
  }

  /** Over any run: a socket is listed exactly when it is in the index, the two lookups of a
      listed socket agree and name it, and no two listed sockets share a device. */
  lemma {:induction false} LookupsAgree(dev: DeviceOf, ops: seq<Op>, s: Sock)
    requires RunOps(INITIAL, dev, ops).Some?
    ensures
      var m := RunOps(INITIAL, dev, ops).value;
      && (s in m.sockets <==> BySocket(m, dev, s).Some?)
      && (s in m.sockets ==> BySocket(m, dev, s) == ByDevice(m, dev(s)) && BySocket(m, dev, s).value.socket == Some(s))
      && (forall t :: s in m.sockets && t in m.sockets && dev(s) == dev(t) ==> s == t)
  {
    hide RunOps;
    InitialIsConsistent(dev);
    RunKeeps(INITIAL, dev, ops);
  }

  // ---- conservation of ports ---------------------------------------------------------------

  ghost function Recording(m: Model): set<string> {
    set d | d in m.configs && Records(m, d)
  }

  ghost function PortsOf(m: Model, ds: set<string>): set<int>
    requires forall d :: d in ds ==> d in m.configs
  {
    set d | d in ds :: m.configs[d].local_port
  }

  lemma {:induction false} AsManyPortsAsDevices(m: Model, ds: set<string>)
    requires PortsAgree(m) && forall d :: d in ds ==> Records(m, d)
    ensures |PortsOf(m, ds)| == |ds|
    decreases ds
  {
    if ds != {} {
      var d :| d in ds;
      var rest := ds - {d};
      AsManyPortsAsDevices(m, rest);
      assert PortsOf(m, ds) == PortsOf(m, rest) + {m.configs[d].local_port};
      assert m.configs[d].local_port !in PortsOf(m, rest);
    }
  }

  lemma {:induction false} OnePortMore(lo: int, hi: int)
    requires lo <= hi
    ensures PortsBetween(lo, hi) == PortsBetween(lo, hi - 1) + {hi} && hi !in PortsBetween(lo, hi - 1)
  {
  }

  lemma {:induction false} PortCount(lo: int, hi: int)
    requires lo <= hi + 1
    ensures |PortsBetween(lo, hi)| == hi - lo + 1
    decreases hi - lo + 1
  {
    if lo <= hi {
      PortCount(lo, hi - 1);
      OnePortMore(lo, hi);
      hide PortsBetween;
      assert |PortsBetween(lo, hi - 1) + {hi}| == |PortsBetween(lo, hi - 1)| + 1;
    } else {
      assert PortsBetween(lo, hi) == {};
    }
  }

  /** Over any run, free, recorded and lost ports add up to the 257 of the pool. */
  lemma {:induction false} PortsConserved(dev: DeviceOf, ops: seq<Op>)
    requires RunOps(INITIAL, dev, ops).Some?
    ensures
      var m := RunOps(INITIAL, dev, ops).value;
      |m.free| + |Recording(m)| + |Orphans(m)| == 257
  {
    hide RunOps, SocketsAgree;
    InitialIsConsistent(dev);
    RunKeeps(INITIAL, dev, ops);
    var m := RunOps(INITIAL, dev, ops).value;
    var recorded := PortsOf(m, Recording(m));
    AsManyPortsAsDevices(m, Recording(m));
    RecordedPorts(m, recorded);
    PortCount(MIN_PORT, MAX_PORT);
    hide PortsAgree, Orphans, AllPorts;
    assert |m.free + Orphans(m)| == |m.free| + |Orphans(m)|;
    assert (m.free + Orphans(m)) !! recorded;
  }

  lemma {:induction false} RecordedPorts(m: Model, recorded: set<int>)
    requires PortsAgree(m) && recorded == PortsOf(m, Recording(m))
    ensures m.free + Orphans(m) + recorded == AllPorts()
    ensures m.free !! Orphans(m) && m.free !! recorded && Orphans(m) !! recorded
  {
    forall p ensures Recorded(m, p) <==> p in recorded {
      if d :| Records(m, d) && m.configs[d].local_port == p {
        assert d in Recording(m);
      }
    }
  }

  /** The port that an operation makes the registry lose, if any. */
  ghost function Loses(m: Model, dev: DeviceOf, op: Op): set<int> {
    match op
    case AcquireLocalPort => if m.free == {} then {} else {Least(m.free)}
    case AddLocalPort(d) =>
      if m.free == {} then {} else if d !in m.configs then {Least(m.free)}
      else if Records(m, d) then {m.configs[d].local_port} else {}
    case RemoveUnusedConfig(d) =>
      if Records(m, d) && m.configs[d].socket.None? then {m.configs[d].local_port} else {}
    case UpdateConfig(c) =>
      var d := Target(m, dev, c);
      if d.Some? && Records(m, d.value) && c.local_port != m.configs[d.value].local_port
      then {m.configs[d.value].local_port} else {}
    case _ => {}
  }

  /** The port that an operation brings back into sight, if it was lost. */
  function Recovers(m: Model, dev: DeviceOf, op: Op): set<int> {
    match op
    case ReleasePort(port) => {port}
    case InitializeLocalPorts => AllPorts()
    case UpdateConfig(c) => if Target(m, dev, c).Some? then {c.local_port} else {}
    case _ => {}
  }

  /** A lost port stays lost unless a caller releases it by number, records it again or refills the
      whole pool; ports are lost in four ways and no other. */
  lemma {:induction false} OrphansChange(m: Model, dev: DeviceOf, op: Op)
    requires Consistent(m, dev) && Allowed(m, dev, op)
    ensures Orphans(Apply(m, dev, op)) == (Orphans(m) - Recovers(m, dev, op)) + Loses(m, dev, op)
  {
    hide SocketsAgree, PortsAgree, Write, Orphans;
    match op
    case Add(s) => OrphansSame(m, Apply(m, dev, op));
    case Remove(s) => OrphansOfRemoved(m, dev, s);
    case CreateConfig(d) => OrphansSame(m, Apply(m, dev, op));
    case RemoveUnusedConfig(d) => OrphansOfErased(m, d);
    case AddLocalPort(d) => OrphansOfAssigned(m, dev, d);
    case UpdateConfig(c) =>
      if Target(m, dev, c).Some? {
        OrphansOfWritten(m, dev, c);
      } else {
        assert Write(m, dev, c) == m by { WriteAt(m, dev, c); }
      }
    case AcquireLocalPort => OrphansOfTaken(m);
    case ReleasePort(port) => OrphansOfReleased(m, port);
    case InitializeLocalPorts => NoneLost(m, Apply(m, dev, op));
    case CreateConfigForSocket(_) => PartsKeepIff(m, dev, op);
    case RemoveConfig(_) => PartsKeepIff(m, dev, op);
    case _ =>
      if SetsFlag(op) {
        FlagOpKeeps(m, dev, op);
      }
  }

  lemma {:induction false} NoneLost(m: Model, m': Model)
    requires AllPorts() <= m'.free
    ensures Orphans(m') == {} == Orphans(m) - AllPorts()
  {
  }

  lemma {:induction false} OrphansOfTaken(m: Model)
    requires PortsAgree(m)
    ensures Orphans(TakePort(m)) == Orphans(m) + if m.free == {} then {} else {Least(m.free)}
  {
    if m.free != {} {
      TakenIsOrphan(m);
      forall p ensures Recorded(m, p) <==> Recorded(TakePort(m), p) {
        if d :| Records(m, d) && m.configs[d].local_port == p {
          assert Records(TakePort(m), d);
        }
      }
    }
  }

  lemma {:induction false} OrphansOfReleased(m: Model, port: int)
    ensures Orphans(Release(m, port)) == Orphans(m) - {port}
  {
    forall p ensures Recorded(m, p) <==> Recorded(Release(m, port), p) {
      if d :| Records(m, d) && m.configs[d].local_port == p {
        assert Records(Release(m, port), d);
      }
    }
  }

  /** Erasing a record loses its port. */
  lemma {:induction false} OrphansOfErasing(m: Model, d: string)
    requires PortsAgree(m) && d in m.configs
    ensures
      Orphans(m.(configs := m.configs - {d})) == Orphans(m) + if Records(m, d) then {m.configs[d].local_port} else {}
  {
    var m' := m.(configs := m.configs - {d});
    forall p ensures Recorded(m', p) <==> Recorded(m, p) && !(Records(m, d) && p == m.configs[d].local_port) {
      if e :| Records(m, e) && m.configs[e].local_port == p {
        assert e != d ==> Records(m', e);
      }
      if e :| Records(m', e) && m'.configs[e].local_port == p {
        assert Records(m, e);
      }
    }
  }

  lemma {:induction false} OrphansOfErased(m: Model, d: string)
    requires PortsAgree(m)
    ensures
      Orphans(if d in m.configs && m.configs[d].socket.None? then m.(configs := m.configs - {d}) else m)
      == Orphans(m) + if Records(m, d) && m.configs[d].socket.None? then {m.configs[d].local_port} else {}
  {
    hide PortsAgree, Orphans;
    if d in m.configs {
      OrphansOfErasing(m, d);
    }
  }

  lemma {:induction false} OrphansOfRemoved(m: Model, dev: DeviceOf, s: Sock)
    requires Consistent(m, dev)
    ensures Orphans(RemoveSocket(m, dev, s)) == Orphans(m)
  {
    hide Orphans;
    if s in m.sockets {
      var d := dev(s);
      var erased := m.(configs := m.configs - {d});
      var p := m.configs[d].local_port;
      OrphansOfErasing(m, d);
      assert Records(m, d) ==> IsPort(p) && Recorded(m, p);
      assert p !in Orphans(m) by { NotLost(m, d); }
      if p != NO_PORT {
        OrphansOfReleased(erased, p);
        OrphansSame(Release(erased, p), RemoveSocket(m, dev, s));
      } else {
        OrphansSame(erased, RemoveSocket(m, dev, s));
      }
    }
  }

  /** The port in a record is not lost. */
  lemma {:induction false} NotLost(m: Model, d: string)
    requires d in m.configs
    ensures m.configs[d].local_port !in Orphans(m)
  {
    if m.configs[d].local_port != NO_PORT {
      assert Records(m, d);
    }
  }

  /** Replacing a record that fits loses its old port and finds its new one. */
  lemma {:induction false} OrphansOfReplaced(m: Model, d: string, c: Config)
    requires PortsAgree(m) && PortFits(m, d, c)
    ensures
      var p := m.configs[d].local_port;
      Orphans(m.(configs := m.configs[d := c]))
      == (Orphans(m) - {c.local_port}) + if Records(m, d) && c.local_port != p then {p} else {}
  {
    var m' := m.(configs := m.configs[d := c]);
    var p := m.configs[d].local_port;
    forall q ensures Recorded(m', q) <==> (c.local_port != NO_PORT && q == c.local_port) || (Recorded(m, q) && q != p) {
      if e :| Records(m', e) && m'.configs[e].local_port == q {
        assert e != d ==> Records(m, e);
      }
      if e :| Records(m, e) && m.configs[e].local_port == q {
        assert e != d ==> Records(m', e);
      }
      if c.local_port != NO_PORT {
        assert Records(m', d);
      }
    }
    NotLost(m, d);
  }

  lemma {:induction false} OrphansOfWritten(m: Model, dev: DeviceOf, c: Config)
    requires PortsAgree(m) && Target(m, dev, c).Some? && Allowed(m, dev, UpdateConfig(c))
    ensures
      Orphans(Write(m, dev, c)) == (Orphans(m) - Recovers(m, dev, UpdateConfig(c))) + Loses(m, dev, UpdateConfig(c))
  {
    hide PortsAgree, Orphans;
    OrphansOfReplaced(m, Target(m, dev, c).value, c);
  }

  lemma {:induction false} OrphansOfAssigned(m: Model, dev: DeviceOf, d: string)
    requires Consistent(m, dev)
    ensures Orphans(AssignPort(m, dev, d)) == Orphans(m) + Loses(m, dev, AddLocalPort(d))
  {
    hide Orphans, Write;
    OrphansOfTaken(m);
    if m.free != {} && d in m.configs {
      var p, taken := Least(m.free), TakePort(m);
      TakenIsOrphan(m);
      SocketsSame(m, taken, dev);
      hide PortsAgree, SocketsAgree;
      FoundIsTarget(taken, dev, d, m.configs[d].(local_port := p));
      OrphansOfReplaced(taken, d, m.configs[d].(local_port := p));
      assert Write(taken, dev, m.configs[d].(local_port := p))
        == taken.(configs := m.configs[d := m.configs[d].(local_port := p)])
      by { WriteAt(taken, dev, m.configs[d].(local_port := p)); }
      FreeIsNotLost(m, p);
      FreeIsNotRecorded(m, d, p);
    }
  }

  lemma {:induction false} WriteAt(m: Model, dev: DeviceOf, c: Config)
    ensures
      var d := Target(m, dev, c);
      Write(m, dev, c) == if d.None? then m else m.(configs := m.configs[d.value := c])
  {
  }

  lemma {:induction false} FreeIsNotLost(m: Model, p: int)
    requires p in m.free
    ensures p !in Orphans(m)
  {
  }

  lemma {:induction false} FreeIsNotRecorded(m: Model, d: string, p: int)
    requires PortsAgree(m) && p in m.free && d in m.configs
    ensures m.configs[d].local_port != p
  {
    assert NO_PORT !in AllPorts();
    if m.configs[d].local_port != NO_PORT {
      assert Records(m, d);
    }
  }

  // ---- operations that break the accounts -----------------------------------------------------

  /** After a disallowed release, the next device to ask can be given a port that is still
      recorded for the first one. */
  lemma {:induction false} ReleasedPortIsSharedExample(dev: DeviceOf)
    ensures
      var m := RunOps(INITIAL, dev, [CreateConfig("A"), CreateConfig("B"), AddLocalPort("A")]);
      && m.Some?
      && var after := Apply(Apply(m.value, dev, ReleasePortOfDevice("A")), dev, AddLocalPort("B"));
      Records(after, "A") && Records(after, "B")
        && after.configs["A"].local_port == after.configs["B"].local_port == MIN_PORT
  {
    var m1 := Apply(INITIAL, dev, CreateConfig("A"));
    var m2 := Apply(m1, dev, CreateConfig("B"));
    var m3 := Apply(m2, dev, AddLocalPort("A"));
    assert MIN_PORT in AllPorts() && Least(m2.free) == MIN_PORT;
    assert m3.configs["A"].local_port == MIN_PORT;
    var released := Apply(m3, dev, ReleasePortOfDevice("A"));
    assert MIN_PORT in released.free;
    assert Least(released.free) == MIN_PORT;
    var ops := [CreateConfig("A"), CreateConfig("B"), AddLocalPort("A")];
    hide Apply;
    assert RunOps(m3, dev, []) == Some(m3);
    assert RunOps(m2, dev, ops[2..]) == Some(m3) by { assert ops[2..][1..] == []; }
    assert RunOps(m1, dev, ops[1..]) == Some(m3) by { assert ops[1..][1..] == ops[2..]; }
    assert RunOps(INITIAL, dev, ops) == Some(m3);
  }
}
