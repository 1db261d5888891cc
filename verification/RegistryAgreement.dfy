/**
 * The socket half of the registry under any number of threads, whatever becomes of the ports:
 * which steps between a copy and its write-back break the agreement of list and indexes, and
 * which give a device a second socket.
 */
module RegistryAgreement {
  import opened Common
  import opened RegistryModel
  import opened RegistryThreads

  /** Every listed socket is indexed and named by the config of its device, and no config names a
      socket of another device. */
  ghost predicate Linked(m: Model, dev: DeviceOf) {
    && (forall d :: d in m.configs ==> m.configs[d].device_id == d)
    && (forall d :: d in m.configs && m.configs[d].socket.Some? ==> dev(m.configs[d].socket.value) == d)
    && (forall s :: s in m.sockets ==> s in m.indexed && dev(s) in m.configs && m.configs[dev(s)].socket == Some(s))
    && (forall s :: s in m.indexed ==> s in m.sockets)
    && (forall i, j :: 0 <= i < j < |m.sockets| ==> m.sockets[i] != m.sockets[j])
  }

  /** The config of d names a listed socket. */
  predicate Names(m: Model, d: string) {
    d in m.configs && m.configs[d].socket.Some? && m.configs[d].socket.value in m.sockets
  }

  ghost predicate NamesAreListed(m: Model) {
    forall d :: d in m.configs && m.configs[d].socket.Some? ==> Names(m, d)
  }

  /** A removed socket cannot come back through a copy. */
  predicate NoReturn(between: set<Kind>) {
    Creating !in between || Removing !in between
  }

  /** Writing the copy back changes no name of a listed socket, and names no other one. */
  ghost predicate Fitting(between: set<Kind>, dev: DeviceOf, m: Model, c: Config) {
    var d := c.device_id;
    && (c.socket.Some? ==> dev(c.socket.value) == d)
    && (Names(m, d) ==> c.socket == m.configs[d].socket)
    && (NoReturn(between) && d in m.configs ==> c.socket == m.configs[d].socket)
    && (NoReturn(between) && d !in m.configs ==> Creating !in between || c.socket.None?)
  }

  ghost predicate Agreed(between: set<Kind>, dev: DeviceOf, st: State) {
    var m := Listed(st);
    && Linked(m, dev) && (NoReturn(between) ==> NamesAreListed(m))
    && (Victim(st.change).Some? ==> Victim(st.change).value in m.sockets)
    && (st.pending.Some? ==> Fitting(between, dev, m, st.pending.value))
  }

  // ---- what every step keeps ----------------------------------------------------------------

  lemma {:induction false} OperationLinks(m: Model, dev: DeviceOf, op: Op)
    requires Linked(m, dev) && Allowed(m, dev, op) && !CopiesAndWrites(op) && !op.Remove?
    ensures Linked(Apply(m, dev, op), dev) && (NamesAreListed(m) ==> NamesAreListed(Apply(m, dev, op)))
    ensures forall s :: s in m.sockets ==> s in Apply(m, dev, op).sockets
  {
    hide Orphans, Recorded, Records, Least;
    if op.CreateConfigForSocket? {
      assert m.configs[dev(op.s) := m.configs[dev(op.s)]] == m.configs;
      assert m.indexed + {op.s} == m.indexed;
      assert Apply(m, dev, op) == m;
    }
  }

  /** What an operation leaves of the socket in one config. */
  lemma {:induction false} NameAfter(m: Model, dev: DeviceOf, op: Op, d: string)
    requires Linked(m, dev) && Allowed(m, dev, op) && !CopiesAndWrites(op) && !op.Remove?
    requires op.Add? ==> dev(op.s) != d
    ensures
      var m' := Apply(m, dev, op);
      && (Names(m', d) <==> Names(m, d)) && (Names(m, d) ==> m'.configs[d].socket == m.configs[d].socket)
      && if op == CreateConfig(d) && d !in m.configs then d in m'.configs && m'.configs[d].socket.None?
         else if op == RemoveUnusedConfig(d) && d in m.configs && m.configs[d].socket.None? then d !in m'.configs
         else (d in m'.configs <==> d in m.configs) && (d in m.configs ==> m'.configs[d].socket == m.configs[d].socket)
  {
    hide Orphans, Recorded, Records, Least;
    if op.CreateConfigForSocket? {
      assert m.configs[dev(op.s) := m.configs[dev(op.s)]] == m.configs;
    }
  }

  lemma {:induction false} BeginAgrees(between: set<Kind>, dev: DeviceOf, st: State, op: Op)
    requires Adding !in between && Agreed(between, dev, st) && MayBegin(between, dev, st, op)
    ensures Agreed(between, dev, Begun(dev, st, op))
  {
    var m := Listed(st);
    BegunIsApplied(dev, st, op);
    OperationLinks(m, dev, op);
    if st.pending.Some? {
      NameAfter(m, dev, op, st.pending.value.device_id);
    }
    hide Allowed, Apply, Linked, NamesAreListed, Names, Begun, Listed;
  }

  lemma {:induction false} CopyAgrees(between: set<Kind>, dev: DeviceOf, st: State, op: Op, taken: Option<int>)
    requires Agreed(between, dev, st)
    ensures
      var c := Changed(st.m, dev, op, taken);
      c.Some? ==> Fitting(between, dev, Listed(st), c.value)
  {
  }

  lemma {:induction false} WriteAgrees(between: set<Kind>, dev: DeviceOf, m: Model, c: Config)
    requires Linked(m, dev) && (NoReturn(between) ==> NamesAreListed(m)) && Fitting(between, dev, m, c)
    ensures Linked(Write(m, dev, c), dev) && (NoReturn(between) ==> NamesAreListed(Write(m, dev, c)))
    ensures Write(m, dev, c).sockets == m.sockets
  {
    assert forall s :: s in m.sockets ==> Names(m, dev(s));
  }

  lemma {:induction false} WriteBackAgrees(between: set<Kind>, dev: DeviceOf, st: State)
    requires Agreed(between, dev, st) && st.pending.Some?
    ensures Agreed(between, dev, Do(dev, st, WriteBack))
  {
    var c := st.pending.value;
    WriteAgrees(between, dev, Listed(st), c);
    WriteListed(dev, st);
    hide Linked, NamesAreListed, Fitting, Write, Listed, Do, Victim;
    assert Do(dev, st, WriteBack).pending.None? by { PendingIsWritten(dev, st); }
  }

  lemma {:induction false} PendingIsWritten(dev: DeviceOf, st: State)
    ensures Do(dev, st, WriteBack).pending.None?
  {
  }

  lemma {:induction false} DropAgrees(between: set<Kind>, dev: DeviceOf, st: State)
    requires Agreed(between, dev, st) && Possible(between, dev, st, DropRecord)
    ensures Agreed(between, dev, Do(dev, st, DropRecord))
  {
    WithoutDrops(st.m.sockets, st.change.s);
  }

  /** The step changes neither configs nor indexes, and the list only as it was to be. */
  lemma {:induction false} SameAgrees(between: set<Kind>, dev: DeviceOf, st: State, st': State)
    requires Agreed(between, dev, st) && Listed(st') == Listed(st).(free := st'.m.free)
    requires Victim(st'.change).Some? ==> Victim(st'.change).value in Listed(st).sockets
    requires st'.pending.Some? ==> Fitting(between, dev, Listed(st), st'.pending.value)
    ensures Agreed(between, dev, st')
  {
    hide Listed;
  }

  lemma {:induction false} StepAgrees(between: set<Kind>, dev: DeviceOf, st: State, step: Step)
    requires Adding !in between && Agreed(between, dev, st) && Possible(between, dev, st, step)
    ensures Agreed(between, dev, Do(dev, st, step))
  {
    match step
    case Whole(op) => BeginAgrees(between, dev, st, op);
    case BeginAdd(s) => BeginAgrees(between, dev, st, Op.Add(s));
    case WriteBack => WriteBackAgrees(between, dev, st);
    case DropRecord => DropAgrees(between, dev, st);
    case Copy(op) =>
      CopyAgrees(between, dev, st, op, st.taken);
      hide Linked, NamesAreListed, Fitting, Changed;
    case DisconnectRemoved =>
      CopyAgrees(between, dev, st, DisconnectSocket(st.change.s), None);
      hide Linked, NamesAreListed, Fitting, Changed;
    case BeginRemove(s) =>
      CopyAgrees(between, dev, st, DisconnectSocket(s), None);
    case _ => SameAgrees(between, dev, st, Do(dev, st, step));
  }

  lemma {:induction false} RunAgrees(between: set<Kind>, dev: DeviceOf, st: State, steps: seq<Step>)
    requires Adding !in between && Agreed(between, dev, st) && Run(between, dev, st, steps).Some?
    ensures Agreed(between, dev, Run(between, dev, st, steps).value)
    decreases |steps|
  {
    hide Agreed, Possible, Do;
    if steps != [] {
      StepAgrees(between, dev, st, steps[0]);
      RunAgrees(between, dev, Do(dev, st, steps[0]), steps[1..]);
    }
  }

  // ---- exactly when it is kept -----------------------------------------------------------------

  ghost predicate EndsInAgreement(between: set<Kind>, dev: DeviceOf, steps: seq<Step>) {
    var end := Run(between, dev, START, steps);
    end.Some? && end.value.change.Nobody? ==> SocketsAgree(end.value.m, dev)
  }

  /** List and indexes agree in every interleaving, whenever no Add or Remove is half done,
      exactly when no Add for its device, and not both the end of a Remove and a new config, may
      come between a copy and its write-back, whatever is done to the ports meanwhile. */
  lemma {:induction false} SocketsAgreeIff(between: set<Kind>, dev: DeviceOf)
    ensures
      (forall steps :: EndsInAgreement(between, dev, steps))
      <==> Adding !in between && !(Creating in between && Removing in between)
  {
    hide Run;
    if Adding in between || !NoReturn(between) {
      if Adding in between { AddSpoils(between, dev, 0); } else { RemoveAndCreateSpoil(between, dev); }
      hide SocketsAgree;
      var st :| Reaches(between, dev, START, st) && st.change.Nobody? && !SocketsAgree(st.m, dev);
      var steps :| Run(between, dev, START, steps) == Some(st);
      assert !EndsInAgreement(between, dev, steps);
    } else {
      forall steps ensures EndsInAgreement(between, dev, steps) {
        if Run(between, dev, START, steps).Some? {
          RunAgrees(between, dev, START, steps);
        }
      }
    }
  }

  /** No two sockets are ever made for one device. */
  ghost predicate OwnDevices(dev: DeviceOf) {
    forall s: Sock, t: Sock :: dev(s) == dev(t) ==> s == t
  }

  ghost predicate OneEach(m: Model, dev: DeviceOf) {
    forall s, t :: s in m.sockets && t in m.sockets && dev(s) == dev(t) ==> s == t
  }

  ghost predicate EndsWithOneEach(between: set<Kind>, dev: DeviceOf, steps: seq<Step>) {
    var end := Run(between, dev, START, steps);
    end.Some? && end.value.change.Nobody? ==> OneEach(end.value.m, dev)
  }

  /** After an Add between copy and write-back the config forgets its socket, and a second Add for
      the device is allowed. */
  lemma {:induction false} SecondSocket(between: set<Kind>, dev: DeviceOf, s: Sock, t: Sock) returns (steps: seq<Step>)
    requires Adding in between && s != t && dev(s) == dev(t)
    ensures !EndsWithOneEach(between, dev, steps)
  {
    var first := Forgetful(dev, s);
    var last := first.(m := AddSocket(first.m, dev, t));
    assert last.m.sockets == [s, t] && s in last.m.sockets && t in last.m.sockets;
    assert !OneEach(last.m, dev);
    hide Run, OneEach, AddSocket;
    Arrive(between, dev, last);
    GoAdd(between, dev, first, t, last);
    GoForgetful(between, dev, s, last);
    steps :| Run(between, dev, START, steps) == Some(last);
  }

  /** No two listed sockets share a device in any interleaving, whenever no Add or Remove is half
      done, exactly when no Add may come between the copy of a config for its device and the
      write-back, or no two sockets are ever made for one device. */
  lemma {:induction false} OneSocketEachIff(between: set<Kind>, dev: DeviceOf)
    ensures (forall steps :: EndsWithOneEach(between, dev, steps)) <==> Adding !in between || OwnDevices(dev)
  {
    hide Run;
    if Adding in between && !OwnDevices(dev) {
      var s: Sock, t: Sock :| dev(s) == dev(t) && s != t;
      var steps := SecondSocket(between, dev, s, t);
    } else if Adding !in between {
      forall steps ensures EndsWithOneEach(between, dev, steps) {
        if Run(between, dev, START, steps).Some? {
          RunAgrees(between, dev, START, steps);
        }
      }
    }
  }
}
