/**
 * The socket registry as the program keeps it: two indexes over shared configuration
 * records, a list of sockets and a pool of ports, all updated in place.  Every operation
 * is proved to do to the abstract registry what RegistryModel says, whether or not the
 * registry is consistent; those that delete a record leave an index that leads to it exactly
 * when it was shared, and are then proved for what they do to the indexes.
 */
module SocketRegistry {
  import opened Common
  import opened RegistryModel

  /** A heap-allocated configuration record; both indexes may point to it. */
  class ConfigRecord {
    var config: Config

    constructor (c: Config)
      ensures config == c
    {
      config := c;
    }
  }

  class Registry {
    const dev: DeviceOf
    var sockets: seq<Sock>
    var deviceIndex: map<string, ConfigRecord>
    var sockIndex: map<Sock, ConfigRecord>
    var freePorts: set<int>

    /** Every record: those of the socket index are among them. */
    ghost function Records(): set<ConfigRecord>
      reads this
    {
      deviceIndex.Values
    }

    /** The abstract registry: one map from device id to configuration. */
    ghost function View(): Model
      reads this, Records()
    {
      Model(map d | d in deviceIndex :: deviceIndex[d].config, sockIndex.Keys, sockets, freePorts)
    }

    /** No two devices share a record, and the socket index leads to the records of the devices. */
    ghost predicate Shape()
      reads this
    {
      && (forall d, e :: d in deviceIndex && e in deviceIndex && d != e ==> deviceIndex[d] != deviceIndex[e])
      && (forall s :: s in sockIndex ==> dev(s) in deviceIndex && sockIndex[s] == deviceIndex[dev(s)])
    }

    ghost predicate Valid()
      reads this, Records()
    {
      Shape() && Consistent(View(), dev)
    }

    constructor (dev: DeviceOf)
      ensures Valid() && View() == INITIAL && this.dev == dev
    {
      this.dev := dev;
      sockets, deviceIndex, sockIndex, freePorts := [], map[], map[], {};
      new;
      InitializeLocalPorts();
      InitialIsConsistent(dev);
    }

    method InitializeLocalPorts()
      modifies this`freePorts
      ensures View() == Apply(old(View()), dev, Op.InitializeLocalPorts)
    {
      for port := MIN_PORT to MAX_PORT + 1
        invariant freePorts == old(freePorts) + PortsBetween(MIN_PORT, port - 1)
      {
        freePorts := freePorts + {port};
      }
    }

    // ---- lookup -----------------------------------------------------------------------

    method GetConfigBySocket(s: Sock) returns (found: bool, c: Config)
      requires Shape()
      ensures BySocket(View(), dev, s) == if found then Some(c) else None
    {
      if s in sockIndex {
        found, c := true, sockIndex[s].config;
      } else {
        found, c := false, NewConfig("");
      }
    }

    method GetConfigByDevice(d: string) returns (found: bool, c: Config)
      ensures ByDevice(View(), d) == if found then Some(c) else None
    {
      if d in deviceIndex {
        found, c := true, deviceIndex[d].config;
      } else {
        found, c := false, NewConfig("");
      }
    }

    method ExistsSocket(s: Sock) returns (r: bool)
      requires Valid()
      ensures r <==> BySocket(View(), dev, s).Some?
    {
      hide PortsAgree;
      r := s in sockets;
    }

    method ExistsDevice(d: string) returns (r: bool)
      requires Valid()
      ensures r <==> exists s :: s in View().sockets && dev(s) == d
    {
      hide PortsAgree;
      var found, c := GetConfigByDevice(d);
      r := found && c.socket != None;
      if exists s :: s in View().sockets && dev(s) == d {
        var s :| s in View().sockets && dev(s) == d;
        assert BySocket(View(), dev, s).Some?;
      }
    }

    method IsConnectedSocket(s: Sock) returns (r: bool)
      requires Shape()
      ensures r <==> BySocket(View(), dev, s).Some? && BySocket(View(), dev, s).value.connected
    {
      var found, c := GetConfigBySocket(s);
      r := found && c.connected;
    }

    method IsConnectedDevice(d: string) returns (r: bool)
      ensures r <==> ByDevice(View(), d).Some? && ByDevice(View(), d).value.connected
    {
      var found, c := GetConfigByDevice(d);
      r := found && c.connected;
    }

    method GetLocalPort(d: string) returns (port: int)
      requires Valid()
      ensures port == if d in View().configs then View().configs[d].local_port else NO_PORT
      ensures port != NO_PORT ==> IsPort(port) && port !in freePorts
    {
      hide SocketsAgree;
      var found, c := GetConfigByDevice(d);
      port := if found then c.local_port else NO_PORT;
      assert port != NO_PORT ==> RegistryModel.Records(View(), d);
    }

    // ---- creating and replacing records ----------------------------------------------------

    /** Replaces the record found by socket, else the one found by device id. */
    method UpdateConfigLocked(c: Config) returns (r: bool)
      requires Shape()
      modifies Records()
      ensures View() == Write(old(View()), dev, c)
      ensures Shape() && Records() == old(Records())
      ensures r <==> Target(old(View()), dev, c).Some?
    {
      if c.socket.Some? && c.socket.value in sockIndex {
        assert BySocket(View(), dev, c.socket.value).Some?;
        sockIndex[c.socket.value].config := c;
        return true;
      }
      if c.device_id in deviceIndex {
        deviceIndex[c.device_id].config := c;
        return true;
      }
      return false;
    }

    method UpdateConfig(c: Config) returns (r: bool)
      requires Shape()
      modifies Records()
      ensures View() == Apply(old(View()), dev, Op.UpdateConfig(c))
      ensures Shape() && Records() == old(Records())
      ensures old(Valid()) ==> (Valid() <==> Allowed(old(View()), dev, Op.UpdateConfig(c)))
      ensures r <==> Target(old(View()), dev, c).Some?
    {
      hide Consistent, Allowed, Target, Write;
      KeepsIff(View(), dev, Op.UpdateConfig(c));
      r := UpdateConfigLocked(c);
    }

    /** The config of a socket: the record of its device, or a new one. */
    method CreateConfigForSocket(s: Sock)
      requires Shape()
      modifies this`sockIndex, this`deviceIndex, Records()
      ensures View() == Apply(old(View()), dev, Op.CreateConfigForSocket(s))
      ensures dev(s) !in old(deviceIndex) ==>
        ByDevice(View(), dev(s)) == Some(Config(Some(s), dev(s), "", -1, -1, -1, false))
      ensures Shape() && fresh(Records() - old(Records()))
    {
      var d := dev(s);
      if d in deviceIndex {
        AdoptRecord(s);
      } else {
        IndexRecord(s);
      }
    }

    /** The device has a record: it now names s, and s leads to it. */
    method AdoptRecord(s: Sock)
      requires Shape() && dev(s) in deviceIndex
      modifies this`sockIndex, Records()
      ensures View() == IndexSocket(old(View()), dev, s)
      ensures Shape() && Records() == old(Records())
    {
      hide Write;
      ghost var before := View();
      var c := deviceIndex[dev(s)].config.(socket := Some(s), device_id := dev(s));
      FoundBySocketOrDevice(before, dev, s, c);
      var updated := UpdateConfigLocked(c);
      sockIndex := sockIndex[s := deviceIndex[dev(s)]];
    }

    /** The device has no record: a new one enters both indexes. */
    method IndexRecord(s: Sock)
      requires Shape() && dev(s) !in deviceIndex
      modifies this`sockIndex, this`deviceIndex
      ensures View() == IndexSocket(old(View()), dev, s)
      ensures Shape() && fresh(Records() - old(Records()))
    {
      var record := new ConfigRecord(NewConfig(dev(s)).(socket := Some(s)));
      sockIndex := sockIndex[s := record];
      deviceIndex := deviceIndex[dev(s) := record];
    }

    method CreateConfigForDevice(d: string)
      requires Shape()
      modifies this`deviceIndex
      ensures View() == Apply(old(View()), dev, Op.CreateConfig(d))
      ensures d !in old(deviceIndex) ==> ByDevice(View(), d) == Some(Config(None, d, "", -1, -1, -1, false))
      ensures Shape() && fresh(Records() - old(Records()))
      ensures old(Valid()) ==> Valid()
    {
      hide Consistent;
      KeepsIff(View(), dev, Op.CreateConfig(d));
      if d !in deviceIndex {
        var record := new ConfigRecord(NewConfig(d));
        deviceIndex := deviceIndex[d := record];
      }
    }

    // ---- removing records --------------------------------------------------------------------

    ghost predicate LeadsTo(record: ConfigRecord)
      reads this
    {
      record in deviceIndex.Values || record in sockIndex.Values
    }

    /** Deletes the record of a socket.  An index still leads to it exactly if it was shared or kept
        under another device id; the registry then refines none. */
    method RemoveConfig(s: Sock)
      requires Shape()
      modifies this`deviceIndex, this`sockIndex
      ensures Records() <= old(Records())
      ensures sockIndex == old(sockIndex) - {s}
      ensures deviceIndex == if s in old(sockIndex)
        then old(deviceIndex) - {old(sockIndex[s].config.device_id)} else old(deviceIndex)
      ensures s in old(sockIndex) ==> (LeadsTo(old(sockIndex[s])) <==> !OwnsRecord(old(View()), dev, s))
      ensures (s in old(sockIndex) ==> OwnsRecord(old(View()), dev, s)) ==>
        Shape() && View() == Apply(old(View()), dev, Op.RemoveConfig(s))
    {
      ghost var before := View();
      if s in sockIndex {
        var record := sockIndex[s];
        deviceIndex := deviceIndex - {record.config.device_id};
        sockIndex := sockIndex - {s};
        if before.configs[dev(s)].device_id != dev(s) {
          assert deviceIndex[dev(s)] == record;
        } else if t :| t in before.indexed && dev(t) == dev(s) && t != s {
          assert sockIndex[t] == record;
        }
      }
    }

    /** Deletes a record that names no socket; a socket leads to it still only if it was indexed
        without being named. */
    method RemoveUnusedConfig(d: string)
      requires Shape()
      modifies this`deviceIndex
      ensures Records() <= old(Records())
      ensures deviceIndex == if d in old(deviceIndex) && old(deviceIndex[d].config.socket) == None
        then old(deviceIndex) - {d} else old(deviceIndex)
      ensures d in old(deviceIndex) && d !in deviceIndex ==>
        (LeadsTo(old(deviceIndex[d])) <==> exists s :: s in sockIndex && dev(s) == d)
      ensures (d in deviceIndex || forall s :: s in sockIndex ==> dev(s) != d) ==>
        Shape() && View() == Apply(old(View()), dev, Op.RemoveUnusedConfig(d))
      ensures old(Valid()) ==> Valid() && View() == Apply(old(View()), dev, Op.RemoveUnusedConfig(d))
    {
      hide Consistent;
      ghost var before := View();
      KeepsIff(before, dev, Op.RemoveUnusedConfig(d));
      if d in deviceIndex && deviceIndex[d].config.socket == None {
        UnusedIsUnshared(before, dev, d);
        ghost var record := deviceIndex[d];
        deviceIndex := deviceIndex - {d};
        if s :| s in sockIndex && dev(s) == d {
          assert sockIndex[s] == record;
        }
      }
    }

    // ---- flags and addresses -------------------------------------------------------------------

    method Connect(s: Sock) returns (r: bool)
      requires Shape()
      modifies Records()
      ensures View() == Apply(old(View()), dev, Op.Connect(s))
      ensures Shape() && Records() == old(Records()) && (old(Valid()) ==> Valid())
      ensures old(Valid()) ==> (r <==> s in sockets)
    {
      hide Consistent, Target, Write;
      KeepsIff(View(), dev, Op.Connect(s));
      var found, c := GetConfigBySocket(s);
      WritesFound(View(), dev, dev(s), s, c.(connected := true));
      if !found {
        return false;
      }
      r := UpdateConfigLocked(c.(connected := true));
    }

    method DisconnectSocket(s: Sock) returns (r: bool)
      requires Shape()
      modifies Records()
      ensures View() == Apply(old(View()), dev, Op.DisconnectSocket(s))
      ensures Shape() && Records() == old(Records()) && (old(Valid()) ==> Valid())
      ensures old(Valid()) ==> (r <==> s in sockets)
    {
      hide Consistent, Target, Write;
      KeepsIff(View(), dev, Op.DisconnectSocket(s));
      var found, c := GetConfigBySocket(s);
      WritesFound(View(), dev, dev(s), s, c.(connected := false));
      if !found {
        return false;
      }
      r := UpdateConfigLocked(c.(connected := false));
    }

    method DisconnectDevice(d: string) returns (r: bool)
      requires Shape()
      modifies Records()
      ensures View() == Apply(old(View()), dev, Op.DisconnectDevice(d))
      ensures Shape() && Records() == old(Records()) && (old(Valid()) ==> Valid())
      ensures old(Valid()) ==> (r <==> d in deviceIndex)
    {
      hide Consistent, Target, Write;
      KeepsIff(View(), dev, Op.DisconnectDevice(d));
      var found, c := GetConfigByDevice(d);
      WritesFound(View(), dev, d, 0, c.(connected := false));
      if !found {
        return false;
      }
      r := UpdateConfigLocked(c.(connected := false));
    }

    method AddIP(d: string, ip: string) returns (r: bool)
      requires Shape()
      modifies Records()
      ensures View() == Apply(old(View()), dev, Op.AddIP(d, ip))
      ensures Shape() && Records() == old(Records()) && (old(Valid()) ==> Valid())
      ensures old(Valid()) ==> (r <==> d in deviceIndex)
    {
      hide Consistent, Target, Write;
      KeepsIff(View(), dev, Op.AddIP(d, ip));
      var found, c := GetConfigByDevice(d);
      WritesFound(View(), dev, d, 0, c.(ip := ip));
      if !found {
        return false;
      }
      r := UpdateConfigLocked(c.(ip := ip));
    }

    method AddRemotePort(d: string, port: int) returns (r: bool)
      requires Shape()
      modifies Records()
      ensures View() == Apply(old(View()), dev, Op.AddRemotePort(d, port))
      ensures Shape() && Records() == old(Records()) && (old(Valid()) ==> Valid())
      ensures old(Valid()) ==> (r <==> port >= 0 && d in deviceIndex)
    {
      hide Consistent, Target, Write;
      KeepsIff(View(), dev, Op.AddRemotePort(d, port));
      if port < 0 {
        return false;
      }
      var found, c := GetConfigByDevice(d);
      WritesFound(View(), dev, d, 0, c.(remote_port := port));
      if !found {
        return false;
      }
      r := UpdateConfigLocked(c.(remote_port := port));
    }

    // ---- ports -------------------------------------------------------------------------------------

    /** Takes the least free port; until it is recorded it belongs to nobody. */
    method AcquireLocalPort() returns (port: int)
      modifies this`freePorts
      ensures View() == Apply(old(View()), dev, Op.AcquireLocalPort)
      ensures if old(freePorts) == {} then port == NO_PORT else IsLeast(old(freePorts), port) && port !in freePorts
      ensures old(Valid()) ==> Valid()
    {
      hide Consistent;
      KeepsIff(View(), dev, Op.AcquireLocalPort);
      if freePorts == {} {
        return NO_PORT;
      }
      port := Least(freePorts);
      freePorts := freePorts - {port};
    }

    method AddLocalPort(d: string) returns (r: bool)
      requires Shape() && freePorts <= AllPorts()
      modifies this`freePorts, Records()
      ensures View() == Apply(old(View()), dev, Op.AddLocalPort(d))
      ensures Shape() && Records() == old(Records()) && (old(Valid()) ==> Valid())
      ensures old(Valid()) ==> (r <==> old(freePorts) != {} && d in deviceIndex)
    {
      hide Consistent, Target, Write;
      ghost var before := View();
      KeepsIff(before, dev, Op.AddLocalPort(d));
      NoPortIsNoPort();
      var port := AcquireLocalPort();
      if port == NO_PORT {
        return false;
      }
      LeastIsUnique(before.free, port);
      var found, c := GetConfigByDevice(d);
      WritesFound(View(), dev, d, 0, c.(local_port := port));
      if !found {
        return false;
      }
      r := UpdateConfigLocked(c.(local_port := port));
    }

    method ReleaseLocalPort(port: int) returns (r: bool)
      modifies this`freePorts
      ensures View() == Apply(old(View()), dev, Op.ReleasePort(port))
      ensures r <==> IsPort(port)
      ensures old(Valid()) ==> (Valid() <==> Allowed(old(View()), dev, Op.ReleasePort(port)))
    {
      hide Consistent, Allowed;
      KeepsIff(View(), dev, Op.ReleasePort(port));
      if port >= MIN_PORT && port <= MAX_PORT {
        freePorts := freePorts + {port};
        return true;
      }
      return false;
    }

    /** The port goes back to the pool, and stays recorded. */
    method ReleaseLocalPortOfSocket(s: Sock) returns (r: bool)
      requires Shape()
      modifies this`freePorts
      ensures View() == Apply(old(View()), dev, Op.ReleasePortOfSocket(s))
      ensures r <==> BySocket(View(), dev, s).Some? && IsPort(BySocket(View(), dev, s).value.local_port)
      ensures old(Valid()) ==> (Valid() <==> !r)
    {
      hide Consistent, Allowed, Apply;
      ghost var before := View();
      ReleaseOfSocketIff(before, dev, s);
      ReleasesRecorded(before, dev, Op.ReleasePortOfSocket(s), BySocket(before, dev, s));
      var found, c := GetConfigBySocket(s);
      assert View() == before;
      if !found || c.local_port == NO_PORT {
        return false;
      }
      r := ReleaseLocalPort(c.local_port);
    }

    method ReleaseLocalPortOfDevice(d: string) returns (r: bool)
      modifies this`freePorts
      ensures View() == Apply(old(View()), dev, Op.ReleasePortOfDevice(d))
      ensures r <==> d in View().configs && IsPort(View().configs[d].local_port)
      ensures old(Valid()) ==> (Valid() <==> !r)
    {
      hide Consistent, Apply;
      ghost var before := View();
      KeepsIff(before, dev, Op.ReleasePortOfDevice(d));
      RecordedInRange(before, dev, d);
      ReleasesRecorded(before, dev, Op.ReleasePortOfDevice(d), ByDevice(before, d));
      var found, c := GetConfigByDevice(d);
      assert View() == before;
      if !found || c.local_port == NO_PORT {
        return false;
      }
      r := ReleaseLocalPort(c.local_port);
    }

    // ---- sockets -------------------------------------------------------------------------------------

    method Add(s: Sock)
      requires Shape()
      modifies this`sockIndex, this`deviceIndex, this`sockets, Records()
      ensures View() == Apply(old(View()), dev, Op.Add(s))
      ensures Shape() && fresh(Records() - old(Records()))
      ensures old(Valid()) ==> (Valid() <==> Allowed(old(View()), dev, Op.Add(s)))
    {
      hide Consistent, Allowed, IndexSocket;
      KeepsIff(View(), dev, Op.Add(s));
      CreateConfigForSocket(s);
      sockets := sockets + [s];
    }

    /** An unlisted socket is refused.  A listed one leaves the list after its port, its flag and its
        record; if the record was shared, an index leads to it still. */
    method Remove(s: Sock) returns (r: bool)
      requires Shape()
      modifies this`freePorts, this`sockIndex, this`deviceIndex, this`sockets, Records()
      ensures Records() <= old(Records())
      ensures r <==> s in old(sockets)
      ensures !r ==> Shape() && View() == old(View())
      ensures r ==>
        var m := Detached(old(View()), dev, s);
        && sockets == Without(old(sockets), s) && freePorts == m.free && sockIndex == old(sockIndex) - {s}
        && if s in old(sockIndex) && !OwnsRecord(m, dev, s) then LeadsTo(old(sockIndex[s]))
           else Shape() && View() == Apply(m, dev, Op.RemoveConfig(s)).(sockets := sockets)
      ensures old(Valid()) ==> Valid() && View() == Apply(old(View()), dev, Op.Remove(s))
    {
      hide Consistent, Apply, OwnsRecord, WithoutRecord;
      ghost var before := View();
      KeepsIff(before, dev, Op.Remove(s));
      if s !in sockets {
        RemoveAbsent(before, dev, s);
        return false;
      }
      var released := ReleaseLocalPortOfSocket(s);
      var disconnected := DisconnectSocket(s);
      RemovedInSteps(before, dev, s);
      Erase(s);
      return true;
    }

    /** The record of s goes, and s leaves the list. */
    method Erase(s: Sock)
      requires Shape()
      modifies this`deviceIndex, this`sockIndex, this`sockets
      ensures Records() <= old(Records())
      ensures sockets == Without(old(sockets), s) && sockIndex == old(sockIndex) - {s}
      ensures if s in old(sockIndex) && !OwnsRecord(old(View()), dev, s) then LeadsTo(old(sockIndex[s]))
        else Shape() && View() == Apply(old(View()), dev, Op.RemoveConfig(s)).(sockets := sockets)
    {
      hide OwnsRecord, Apply;
      RemoveConfig(s);
      sockets := Without(sockets, s);
    }

    /** Run alone: destroys the last socket until none is left, which for the registry is to
        remove it. */
    method Cleanup()
      requires Valid()
      modifies this`freePorts, this`sockIndex, this`deviceIndex, this`sockets, Records()
      ensures Valid() && sockets == [] && sockIndex == map[]
      ensures View().configs == map d | d in old(View()).configs && old(View()).configs[d].socket == None ::
        old(View()).configs[d]
      ensures Orphans(View()) == old(Orphans(View()))
    {
      hide Consistent, Apply, Orphans, Remains;
      ghost var before := View();
      AllRemain(before, dev);
      while |sockets| != 0
        invariant Valid() && Records() <= old(Records()) && Remains(before, View())
        decreases |sockets|
      {
        var s := sockets[|sockets| - 1];
        RemoveDrops(before, View(), dev, s);
        var removed := Remove(s);
      }
      UnusedRemain(before, View(), dev);
      assert sockIndex.Keys == {};
    }
  }

  /** m has the records of before that name no socket or one that is still listed, and has lost
      no port. */
  ghost predicate Remains(before: Model, m: Model) {
    && Orphans(m) == Orphans(before)
    && (forall d :: d in m.configs <==>
          d in before.configs && (before.configs[d].socket == None || before.configs[d].socket.value in m.sockets))
    && (forall d :: d in m.configs ==> m.configs[d] == before.configs[d])
  }

  lemma {:induction false} KeepsIff(m: Model, dev: DeviceOf, op: Op)
    ensures Consistent(m, dev) ==> (Consistent(Apply(m, dev, op), dev) <==> Allowed(m, dev, op))
  {
    if Consistent(m, dev) {
      ApplyKeepsIff(m, dev, op);
    }
  }

  lemma {:induction false} NoPortIsNoPort()
    ensures NO_PORT !in AllPorts()
  {
  }

  lemma {:induction false} LeastIsUnique(free: set<int>, p: int)
    requires IsLeast(free, p)
    ensures Least(free) == p
  {
  }

  /** The update in CreateConfig finds the record of the socket's device, either way. */
  lemma {:induction false} FoundBySocketOrDevice(m: Model, dev: DeviceOf, s: Sock, c: Config)
    requires c.socket == Some(s) && c.device_id == dev(s) && dev(s) in m.configs
    ensures Write(m, dev, c) == m.(configs := m.configs[dev(s) := c])
  {
  }

  predicate SameOwner(c: Config, was: Config) {
    c.socket == was.socket && c.device_id == was.device_id
  }

  /** Looking up and writing back: in a consistent registry the write finds the record, and a socket
      has one exactly when it is listed. */
  lemma {:induction false} WritesFound(m: Model, dev: DeviceOf, d: string, s: Sock, c: Config)
    ensures
      Consistent(m, dev) && d in m.configs && SameOwner(c, m.configs[d]) ==> Target(m, dev, c).Some?
    ensures Consistent(m, dev) ==> (BySocket(m, dev, s).Some? <==> s in m.sockets)
  {
    hide PortsAgree;
  }

  /** A release by socket or device is one of the recorded port. */
  lemma {:induction false} ReleasesRecorded(m: Model, dev: DeviceOf, op: Op, c: Option<Config>)
    requires (op.ReleasePortOfSocket? && c == BySocket(m, dev, op.s))
      || (op.ReleasePortOfDevice? && c == ByDevice(m, op.d))
    ensures Apply(m, dev, op) == if c.Some? && c.value.local_port != NO_PORT
      then Apply(m, dev, Op.ReleasePort(c.value.local_port)) else m
    ensures forall port :: Apply(m, dev, Op.ReleasePort(port)).(free := m.free) == m
  {
  }

  lemma {:induction false} ReleaseOfSocketIff(m: Model, dev: DeviceOf, s: Sock)
    ensures Consistent(m, dev) ==>
      (Consistent(Apply(m, dev, Op.ReleasePortOfSocket(s)), dev)
       <==> !(BySocket(m, dev, s).Some? && IsPort(BySocket(m, dev, s).value.local_port)))
  {
    hide Consistent, Apply;
    KeepsIff(m, dev, Op.ReleasePortOfSocket(s));
    RecordedInRange(m, dev, dev(s));
  }

  lemma {:induction false} RecordedInRange(m: Model, dev: DeviceOf, d: string)
    ensures Consistent(m, dev) && d in m.configs ==> (RegistryModel.Records(m, d) <==> IsPort(m.configs[d].local_port))
  {
    hide SocketsAgree;
  }

  /** No other socket leads to the record of s, which is kept under its own device id. */
  predicate OwnsRecord(m: Model, dev: DeviceOf, s: Sock) {
    && dev(s) in m.configs && m.configs[dev(s)].device_id == dev(s)
    && forall t :: t in m.indexed && dev(t) == dev(s) ==> t == s
  }

  lemma {:induction false} UnusedIsUnshared(m: Model, dev: DeviceOf, d: string)
    requires d in m.configs && m.configs[d].socket == None
    ensures Consistent(m, dev) ==> forall s :: s in m.indexed ==> dev(s) != d
  {
    hide PortsAgree;
  }

  /** The registry when Remove has released the port and cleared the flag. */
  ghost function Detached(m: Model, dev: DeviceOf, s: Sock): Model {
    Apply(Apply(m, dev, Op.ReleasePortOfSocket(s)), dev, Op.DisconnectSocket(s))
  }

  /** Remove as the program runs it: the port, the flag, the record, the list. */
  lemma {:induction false} RemovedInSteps(m: Model, dev: DeviceOf, s: Sock)
    ensures Detached(m, dev, s).sockets == m.sockets && Detached(m, dev, s).indexed == m.indexed
    ensures Consistent(m, dev) && s in m.sockets ==>
      && OwnsRecord(Detached(m, dev, s), dev, s)
      && Apply(m, dev, Op.Remove(s)) ==
         Apply(Detached(m, dev, s), dev, Op.RemoveConfig(s)).(sockets := Without(m.sockets, s))
  {
    if Consistent(m, dev) && s in m.sockets {
      ListedInSteps(m, dev, s);
    }
  }

  lemma {:induction false} ListedInSteps(m: Model, dev: DeviceOf, s: Sock)
    requires Consistent(m, dev) && s in m.sockets
    ensures OwnsRecord(Detached(m, dev, s), dev, s)
    ensures Apply(m, dev, Op.Remove(s)) ==
      Apply(Detached(m, dev, s), dev, Op.RemoveConfig(s)).(sockets := Without(m.sockets, s))
  {
    hide PortsAgree;
    var c := m.configs[dev(s)];
    assert BySocket(m, dev, s) == Some(c);
    var released := Apply(m, dev, Op.ReleasePortOfSocket(s));
    assert released.(free := m.free) == m;
    assert Write(released, dev, c.(connected := false))
      == released.(configs := m.configs[dev(s) := c.(connected := false)]);
    assert m.configs[dev(s) := c.(connected := false)] - {dev(s)} == m.configs - {dev(s)};
  }

  lemma {:induction false} RemoveAbsent(m: Model, dev: DeviceOf, s: Sock)
    requires s !in m.sockets
    ensures Apply(m, dev, Op.Remove(s)) == m
  {
  }

  lemma {:induction false} AllRemain(m: Model, dev: DeviceOf)
    requires Consistent(m, dev)
    ensures Remains(m, m)
  {
    hide PortsAgree, Orphans;
  }

  /** Removing a listed socket drops it from the list and its device's configuration. */
  lemma {:induction false} RemoveDrops(before: Model, m: Model, dev: DeviceOf, s: Sock)
    requires Consistent(m, dev) && s in m.sockets && Remains(before, m)
    ensures
      var m' := Apply(m, dev, Op.Remove(s));
      |m'.sockets| == |m.sockets| - 1 && Remains(before, m')
  {
    hide Orphans, PortsAgree;
    WithoutDrops(m.sockets, s);
    WithoutLength(m.sockets, s);
    OrphansOfRemoved(m, dev, s);
  }

  lemma {:induction false} UnusedRemain(before: Model, m: Model, dev: DeviceOf)
    requires Consistent(m, dev) && m.sockets == [] && Remains(before, m)
    ensures m.indexed == {} && Orphans(m) == Orphans(before)
    ensures m.configs == map d | d in before.configs && before.configs[d].socket == None :: before.configs[d]
  {
    hide PortsAgree, Orphans;
  }
}
