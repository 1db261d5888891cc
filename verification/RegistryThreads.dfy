/**
 * The socket registry under any number of threads, step by step as its mutexes allow.  A call
 * that updates a config copies it and writes the copy back, under the registry mutex; Remove
 * releases its port and clears the flag under that mutex, and then drops the record and unlists
 * the socket; Add makes the record and lists the socket; most other operations take neither the
 * registry mutex nor the recursive one, which Add and Remove hold.  Which of them may come
 * between a copy and its write-back decides whether the registry stays consistent.
 */
module RegistryThreads {
  import opened Common
  import opened RegistryModel

  /** How far an Add or a Remove has come; it holds the recursive mutex throughout. */
  datatype Change =
    | Nobody
    | Indexed(s: Sock)          // Add: the config names the socket, which is not listed yet
    | Reading(s: Sock)          // it has copied the config whose port it will release
    | Released(s: Sock)         // the port is free
    | Disconnecting(s: Sock)    // it has copied the config whose flag it will clear
    | Disconnected(s: Sock)     // the flag is cleared
    | Dropped(s: Sock)          // the record is gone, and the socket still listed

  /** `pending` is the config that the holder of the registry mutex has copied and changed, and
      `taken` the port that it has taken from the pool before it looks for a config. */
  datatype State = State(m: Model, change: Change, pending: Option<Config>, taken: Option<int> := None)

  ghost const START: State := State(INITIAL, Nobody, None)

  datatype Step =
    | Whole(op: Op)
    | Take
    | Copy(op: Op)
    | WriteBack
    | BeginAdd(s: Sock)
    | FinishAdd
    | BeginRemove(s: Sock)
    | ReleaseCopied
    | DisconnectRemoved
    | DropRecord
    | FinishRemove

  /** The socket that is being removed and has its record, and the one whose port has been
      released. */
  function Victim(r: Change): Option<Sock> {
    if r.Nobody? || r.Indexed? || r.Dropped? then None else Some(r.s)
  }

  function Freed(r: Change): Option<Sock> {
    if r.Reading? then None else Victim(r)
  }

  /** The registry as it will be when the Add or the Remove has put its list right. */
  function Listed(st: State): Model {
    match st.change
    case Indexed(s) => st.m.(sockets := st.m.sockets + [s])
    case Dropped(s) => st.m.(sockets := Without(st.m.sockets, s))
    case _ => st.m
  }

  predicate RegistryFree(st: State) {
    st.pending.None? && st.taken.None?
  }

  /** The calls that copy a config, change one field and write it back. */
  predicate CopiesAndWrites(op: Op) {
    SetsFlag(op) || op.AddLocalPort?
  }

  /** What such a call is going to write, if it finds a config. */
  ghost function Changed(m: Model, dev: DeviceOf, op: Op, taken: Option<int>): Option<Config> {
    match op
    case Connect(s) =>
      var c := BySocket(m, dev, s);
      if c.None? then None else Some(c.value.(connected := true))
    case DisconnectSocket(s) =>
      var c := BySocket(m, dev, s);
      if c.None? then None else Some(c.value.(connected := false))
    case DisconnectDevice(d) => if d in m.configs then Some(m.configs[d].(connected := false)) else None
    case AddIP(d, ip) => if d in m.configs then Some(m.configs[d].(ip := ip)) else None
    case AddRemotePort(d, port) =>
      if port < 0 || d !in m.configs then None else Some(m.configs[d].(remote_port := port))
    case AddLocalPort(d) =>
      if taken.None? || d !in m.configs then None else Some(m.configs[d].(local_port := taken.value))
    case _ => None
  }

  /** The kinds of step that can change what a pending config is about. */
  datatype Kind = Adding | Creating | Removing | RemovingUnused | Updating | Releasing | Refilling

  /** The operation is about the port. */
  predicate AboutPort(op: Op, port: int) {
    match op
    case UpdateConfig(u) => u.local_port == port
    case ReleasePort(p) => p == port
    case InitializeLocalPorts => true
    case _ => false
  }

  /** The operation is about the device of the pending config, or its port. */
  predicate Concerns(m: Model, dev: DeviceOf, op: Op, c: Config) {
    || AboutPort(op, c.local_port)
    || match op
       case Add(s) => dev(s) == c.device_id
       case CreateConfig(d) => d == c.device_id
       case RemoveUnusedConfig(d) => d == c.device_id
       case UpdateConfig(u) => Target(m, dev, u) == Some(c.device_id)
       case _ => false
  }

  function KindOf(op: Op): Kind {
    match op
    case Add(_) => Adding
    case CreateConfig(_) => Creating
    case RemoveUnusedConfig(_) => RemovingUnused
    case UpdateConfig(_) => Updating
    case ReleasePort(_) => Releasing
    case _ => Refilling
  }

  /** The operation may be run while the registry mutex is held. */
  predicate MayCome(between: set<Kind>, st: State, dev: DeviceOf, op: Op) {
    && (st.pending.Some? && Concerns(st.m, dev, op, st.pending.value) ==> KindOf(op) in between)
    && (st.taken.Some? && AboutPort(op, st.taken.value) ==> KindOf(op) in between)
  }

  /** An operation other than an update in several steps, or the first step of an Add: it keeps to
      Allowed, and to what may come between a copy and its write-back. */
  ghost predicate MayBegin(between: set<Kind>, dev: DeviceOf, st: State, op: Op) {
    && !CopiesAndWrites(op) && !op.Remove? && Allowed(st.m, dev, op)
    && (op.Add? ==> st.change.Nobody?)
    && MayCome(between, st, dev, op)
  }

  /** The mutexes that a step needs are free, callers keep to Allowed, and only steps of the given
      kinds come between a copy and its write-back if they concern it. */
  ghost predicate Possible(between: set<Kind>, dev: DeviceOf, st: State, step: Step) {
    match step
    case Whole(op) =>
      && !op.Add? && MayBegin(between, dev, st, op)
      && (op.ReleasePortOfSocket? || op.ReleasePortOfDevice? ==> RegistryFree(st))
    case Take => RegistryFree(st)
    case Copy(op) => CopiesAndWrites(op) && st.pending.None? && (op.AddLocalPort? <==> st.taken.Some?)
    case WriteBack => st.pending.Some? && !st.change.Reading?
    case BeginAdd(s) => MayBegin(between, dev, st, Op.Add(s))
    case FinishAdd => st.change.Indexed?
    case BeginRemove(s) => st.change.Nobody? && RegistryFree(st) && s in st.m.sockets
    case ReleaseCopied => st.change.Reading?
    case DisconnectRemoved => st.change.Released? && RegistryFree(st)
    case DropRecord =>
      && st.change.Disconnected?
      && (st.pending.Some? && dev(st.change.s) == st.pending.value.device_id ==> Removing in between)
    case FinishRemove => st.change.Dropped?
  }

  ghost function Begun(dev: DeviceOf, st: State, op: Op): State {
    if op.Add? then st.(m := IndexSocket(st.m, dev, op.s), change := Indexed(op.s)) else st.(m := Apply(st.m, dev, op))
  }

  ghost function Do(dev: DeviceOf, st: State, step: Step): State {
    match step
    case Whole(op) => Begun(dev, st, op)
    case Take => st.(m := TakePort(st.m), taken := if st.m.free == {} then None else Some(Least(st.m.free)))
    case Copy(op) => st.(pending := Changed(st.m, dev, op, st.taken), taken := None)
    case WriteBack =>
      if st.pending.None? then st
      else
        st.(m := Write(st.m, dev, st.pending.value), pending := None,
            change := if st.change.Disconnecting? then Disconnected(st.change.s) else st.change)
    case BeginAdd(s) => Begun(dev, st, Op.Add(s))
    case FinishAdd => if st.change.Indexed? then st.(m := Listed(st), change := Nobody) else st
    case BeginRemove(s) => st.(pending := BySocket(st.m, dev, s), change := Reading(s))
    case ReleaseCopied =>
      if !st.change.Reading? then st
      else st.(m := ReleasePortOf(st.m, st.pending), pending := None, change := Released(st.change.s))
    case DisconnectRemoved =>
      if !st.change.Released? then st
      else
        var s := st.change.s;
        var c := Changed(st.m, dev, DisconnectSocket(s), None);
        st.(pending := c, change := if c.Some? then Disconnecting(s) else Disconnected(s))
    case DropRecord =>
      if !st.change.Disconnected? then st
      else st.(m := WithoutRecord(st.m, dev, st.change.s), change := Dropped(st.change.s))
    case FinishRemove => if st.change.Dropped? then st.(m := Listed(st), change := Nobody) else st
  }

  ghost function Run(between: set<Kind>, dev: DeviceOf, st: State, steps: seq<Step>): Option<State>
    decreases |steps|
  {
    if steps == [] then Some(st)
    else if Possible(between, dev, st, steps[0]) then Run(between, dev, Do(dev, st, steps[0]), steps[1..])
    else None
  }

  /** With nothing between its two steps, a call does what RegistryModel says. */
  lemma {:induction false} CopyThenWrite(dev: DeviceOf, m: Model, op: Op)
    requires CopiesAndWrites(op)
    ensures
      var begun := State(m, Nobody, None);
      var copied := Do(dev, if op.AddLocalPort? then Do(dev, begun, Take) else begun, Copy(op));
      Do(dev, copied, WriteBack) == State(Apply(m, dev, op), Nobody, None)
  {
    hide Write;
  }

  lemma {:induction false} RemoveStepByStep(dev: DeviceOf, m: Model, s: Sock)
    requires Consistent(m, dev) && s in m.sockets
    ensures
      var read := Do(dev, State(m, Nobody, None), BeginRemove(s));
      var copied := Do(dev, Do(dev, read, ReleaseCopied), DisconnectRemoved);
      Do(dev, Do(dev, Do(dev, copied, WriteBack), DropRecord), FinishRemove)
      == State(Apply(m, dev, Op.Remove(s)), Nobody, None)
  {
    hide PortsAgree;
    var c := m.configs[dev(s)];
    assert BySocket(m, dev, s) == Some(c);
    var d := c.(connected := false);
    assert m.configs[dev(s) := d] - {dev(s)} == m.configs - {dev(s)};
  }

  lemma {:induction false} AddStepByStep(dev: DeviceOf, m: Model, s: Sock)
    ensures
      Do(dev, Do(dev, State(m, Nobody, None), BeginAdd(s)), FinishAdd) == State(Apply(m, dev, Op.Add(s)), Nobody, None)
  {
  }

  // ---- what is kept -----------------------------------------------------------------------

  /** The registry without the port of the socket that is being removed, which is free already. */
  function Forget(m: Model, dev: DeviceOf, removing: Option<Sock>): Model {
    if removing.Some? && dev(removing.value) in m.configs
    then m.(configs := m.configs[dev(removing.value) := m.configs[dev(removing.value)].(local_port := NO_PORT)])
    else m
  }

  predicate Gone(dev: DeviceOf, removing: Option<Sock>, d: string) {
    removing.Some? && dev(removing.value) == d
  }

  ghost predicate FreeOrFit(m: Model, c: Config) {
    c.local_port == NO_PORT || c.local_port in Orphans(m)
  }

  /** The pending config still fits the record of its device, or would fit a new one. */
  ghost predicate Ready(between: set<Kind>, dev: DeviceOf, f: Model, removing: Option<Sock>, c: Config) {
    var d := c.device_id;
    && (c.socket.Some? ==> dev(c.socket.value) == d)
    && (d in f.configs ==>
          && c.socket == f.configs[d].socket
          && (Gone(dev, removing, d) || c.local_port == f.configs[d].local_port || FreeOrFit(f, c)))
    && (d !in f.configs ==> Creating !in between || (c.socket.None? && FreeOrFit(f, c)))
  }

  /** What the registry comes to when a half added socket is listed, and a half removed one
      unlisted or without its port. */
  function Rest(dev: DeviceOf, st: State): Model {
    Forget(Listed(st), dev, Freed(st.change))
  }

  ghost predicate Settled(dev: DeviceOf, st: State) {
    && Consistent(Rest(dev, st), dev)
    && (Victim(st.change).Some? ==> Victim(st.change).value in st.m.sockets)
  }

  ghost predicate Inv(between: set<Kind>, dev: DeviceOf, st: State) {
    && Settled(dev, st)
    && (st.pending.Some? ==> Ready(between, dev, Rest(dev, st), Freed(st.change), st.pending.value))
    && (st.taken.Some? ==> st.taken.value in Orphans(Rest(dev, st)))
    && (st.change.Reading? ==> st.pending.Some? && st.pending.value.device_id == dev(st.change.s))
  }

  /** The steps between copy and write-back that can spoil the registry. */
  predicate Harmful(between: set<Kind>) {
    || Adding in between || Updating in between || Releasing in between || Refilling in between
    || (Creating in between && Removing in between)
  }

  lemma {:induction false} ForgetKeepsSockets(m: Model, dev: DeviceOf, removing: Option<Sock>)
    ensures SocketsAgree(m, dev) <==> SocketsAgree(Forget(m, dev, removing), dev)
  {
    var f := Forget(m, dev, removing);
    assert m.configs.Keys == f.configs.Keys;
    assert forall d :: d in m.configs ==>
      m.configs[d].device_id == f.configs[d].device_id && m.configs[d].socket == f.configs[d].socket;
  }

  lemma {:induction false} ForgetRecords(m: Model, dev: DeviceOf, removing: Option<Sock>)
    ensures
      var f := Forget(m, dev, removing);
      && (forall d :: Records(f, d) ==> Records(m, d) && f.configs[d].local_port == m.configs[d].local_port)
      && (forall p :: Recorded(f, p) ==> Recorded(m, p))
      && (forall p :: p in Orphans(m) ==> p in Orphans(f))
  {
    var f := Forget(m, dev, removing);
    forall p | Recorded(f, p) ensures Recorded(m, p) {
      var d :| Records(f, d) && f.configs[d].local_port == p;
      assert Records(m, d);
    }
  }

  // ---- operations in one step ---------------------------------------------------------------

  /** What the operation does to the registry without the port that is being released. */
  ghost function Seen(m: Model, dev: DeviceOf, removing: Option<Sock>, op: Op): Op {
    if op.UpdateConfig? && Target(m, dev, op.config).Some? && Gone(dev, removing, Target(m, dev, op.config).value)
    then UpdateConfig(op.config.(local_port := NO_PORT))
    else if op.ReleasePortOfSocket? || op.ReleasePortOfDevice? then ReleasePort(NO_PORT)
    else op
  }

  lemma {:induction false} SeenIsAllowed(m: Model, dev: DeviceOf, removing: Option<Sock>, op: Op)
    requires Consistent(Forget(m, dev, removing), dev) && Allowed(m, dev, op)
    ensures Allowed(Forget(m, dev, removing), dev, Seen(m, dev, removing, op))
  {
    var f := Forget(m, dev, removing);
    ForgetRecords(m, dev, removing);
    hide Orphans, Recorded, Consistent;
    assert m.configs.Keys == f.configs.Keys;
    if op.ReleasePortOfSocket? || op.ReleasePortOfDevice? {
      NothingRecordsNoPort(f);
    }
  }

  lemma {:induction false} NothingRecordsNoPort(m: Model)
    ensures !Recorded(m, NO_PORT)
  {
  }

  lemma {:induction false} WriteSeen(m: Model, dev: DeviceOf, removing: Option<Sock>, c: Config)
    ensures
      var f := Forget(m, dev, removing);
      && Target(f, dev, c) == Target(m, dev, c)
      && (Target(m, dev, c).Some? && !Gone(dev, removing, Target(m, dev, c).value) ==>
            Forget(Write(m, dev, c), dev, removing) == Write(f, dev, c))
      && (Target(m, dev, c).Some? && Gone(dev, removing, Target(m, dev, c).value) ==>
            Forget(Write(m, dev, c), dev, removing) == Write(f, dev, c.(local_port := NO_PORT)))
      && (Target(m, dev, c).None? ==> Write(m, dev, c) == m && Write(f, dev, c) == f)
  {
  }

  lemma {:induction false} WholeSeen(m: Model, dev: DeviceOf, removing: Option<Sock>, op: Op)
    requires Consistent(Forget(m, dev, removing), dev) && Allowed(m, dev, op)
    requires removing.Some? ==> removing.value in m.sockets
    requires !CopiesAndWrites(op) && !op.Remove? && (op.Add? ==> removing.None?)
    ensures Forget(Apply(m, dev, op), dev, removing) == Apply(Forget(m, dev, removing), dev, Seen(m, dev, removing, op))
  {
    ForgetKeepsSockets(m, dev, removing);
    hide PortsAgree, Write, Orphans, Recorded, Target;
    if op.UpdateConfig? {
      WriteSeen(m, dev, removing, op.config);
    } else if op.CreateConfigForSocket? {
      SameSocketAgain(m, dev, removing, op.s);
    } else if op.CreateConfig? || op.RemoveUnusedConfig? {
      ConfigSeen(m, dev, removing, op);
    } else {
      PoolSeen(m, dev, removing, op);
    }
  }

  /** A record with a socket is neither made nor removed as unused. */
  lemma {:induction false} ConfigSeen(m: Model, dev: DeviceOf, removing: Option<Sock>, op: Op)
    requires SocketsAgree(m, dev) && (removing.Some? ==> removing.value in m.sockets)
    requires op.CreateConfig? || op.RemoveUnusedConfig?
    ensures Forget(Apply(m, dev, op), dev, removing) == Apply(Forget(m, dev, removing), dev, op)
  {
    var f, f' := Forget(m, dev, removing), Forget(Apply(m, dev, op), dev, removing);
    if removing.Some? {
      var r := dev(removing.value);
      assert r in m.configs && m.configs[r].socket == Some(removing.value);
      hide SocketsAgree;
      assert f'.configs == Apply(f, dev, op).configs;
    }
  }

  lemma {:induction false} PoolSeen(m: Model, dev: DeviceOf, removing: Option<Sock>, op: Op)
    requires SocketsAgree(m, dev) && Allowed(m, dev, op)
    requires op.Add? || op.RemoveConfig? || op.InitializeLocalPorts? || op.AcquireLocalPort?
          || op.ReleasePort? || op.ReleasePortOfSocket? || op.ReleasePortOfDevice?
    requires op.Add? ==> removing.None?
    ensures Forget(Apply(m, dev, op), dev, removing) == Apply(Forget(m, dev, removing), dev, Seen(m, dev, removing, op))
  {
    hide Target, Orphans, Recorded;
  }

  /** Making the config of a listed socket again changes nothing. */
  lemma {:induction false} SameSocketAgain(m: Model, dev: DeviceOf, removing: Option<Sock>, s: Sock)
    requires SocketsAgree(m, dev) && s in m.sockets
    ensures IndexSocket(m, dev, s) == m
    ensures IndexSocket(Forget(m, dev, removing), dev, s) == Forget(m, dev, removing)
  {
    var f := Forget(m, dev, removing);
    assert m.configs[dev(s) := m.configs[dev(s)]] == m.configs;
    assert f.configs[dev(s) := f.configs[dev(s)]] == f.configs;
    assert m.indexed + {s} == m.indexed;
  }

  lemma {:induction false} WholeSettles(dev: DeviceOf, st: State, op: Op)
    requires Settled(dev, st) && Allowed(st.m, dev, op)
    requires !CopiesAndWrites(op) && !op.Remove? && (op.Add? ==> st.change.Nobody?)
    ensures Settled(dev, Begun(dev, st, op))
  {
    var freed, m := Freed(st.change), Listed(st);
    var f, seen := Rest(dev, st), Seen(m, dev, freed, op);
    BegunIsApplied(dev, st, op);
    WholeSeen(m, dev, freed, op);
    SeenIsAllowed(m, dev, freed, op);
    hide Consistent, Allowed, Write, Apply;
    ApplyKeepsIff(f, dev, seen);
  }

  /** With the list put right, the operation does what it does in one step. */
  lemma {:induction false} BegunIsApplied(dev: DeviceOf, st: State, op: Op)
    requires !op.Remove? && (op.Add? ==> st.change.Nobody?) && Allowed(st.m, dev, op)
    ensures Listed(Begun(dev, st, op)) == Apply(Listed(st), dev, op) && Allowed(Listed(st), dev, op)
    ensures Freed(Begun(dev, st, op).change) == Freed(st.change)
    ensures forall s :: s in st.m.sockets ==> s in Begun(dev, st, op).m.sockets
    ensures Victim(Begun(dev, st, op).change) == Victim(st.change)
  {
    if !op.Add? {
      ListIsIrrelevant(st.m, dev, op, Listed(st).sockets);
      hide Apply, Allowed;
    }
  }

  /** What an operation that is no update in two steps leaves of one record. */
  lemma {:induction false} RecordAfter(m: Model, dev: DeviceOf, op: Op, d: string)
    requires SocketsAgree(m, dev) && Allowed(m, dev, op) && !CopiesAndWrites(op) && !op.Remove?
    requires op.Add? ==> dev(op.s) != d
    requires op.UpdateConfig? ==> Target(m, dev, op.config) != Some(d)
    ensures
      var m' := Apply(m, dev, op);
      if op == CreateConfig(d) && d !in m.configs then d in m'.configs && m'.configs[d] == NewConfig(d)
      else if op == RemoveUnusedConfig(d) && d in m.configs && m.configs[d].socket.None? then d !in m'.configs
      else (d in m'.configs <==> d in m.configs) && (d in m.configs ==> m'.configs[d] == m.configs[d])
  {
    hide Orphans, Recorded;
  }

  lemma {:induction false} LostStaysLost(m: Model, dev: DeviceOf, op: Op, c: Config)
    requires Consistent(m, dev) && Allowed(m, dev, op) && FreeOrFit(m, c)
    requires c.local_port == NO_PORT || c.local_port !in Recovers(m, dev, op)
    ensures FreeOrFit(Apply(m, dev, op), c)
  {
    hide Orphans, Consistent, Allowed, Apply, Recovers;
    OrphansChange(m, dev, op);
  }

  /** A step that may come between leaves the pending config ready, and the taken port lost. */
  lemma {:induction false} WholeLeavesReady(between: set<Kind>, dev: DeviceOf, st: State, op: Op)
    requires !Harmful(between) && Inv(between, dev, st) && MayBegin(between, dev, st, op)
    ensures
      var st' := Begun(dev, st, op);
      && (st.pending.Some? ==> Ready(between, dev, Rest(dev, st'), Freed(st.change), st.pending.value))
      && (st.taken.Some? ==> st.taken.value in Orphans(Rest(dev, st')))
  {
    var freed, m := Freed(st.change), Listed(st);
    var f, seen := Rest(dev, st), Seen(m, dev, freed, op);
    BegunIsApplied(dev, st, op);
    WholeSeen(m, dev, freed, op);
    SeenIsAllowed(m, dev, freed, op);
    hide Harmful, Ready, Orphans, Recorded, Write, PortsAgree, SocketsAgree, Allowed, Apply, Recovers;
    if st.taken.Some? {
      TakenIsFarOff(between, dev, st, op);
      OrphansChange(f, dev, seen);
    }
    if st.pending.Some? {
      SeenIsFarOff(between, dev, st, op);
      SeenLeavesReady(between, dev, f, freed, seen, st.pending.value);
    }
  }

  lemma {:induction false} SeenLeavesReady(between: set<Kind>, dev: DeviceOf, f: Model, freed: Option<Sock>, seen: Op,
        c: Config)
    requires !Harmful(between) && Consistent(f, dev) && (freed.Some? ==> freed.value in f.sockets)
      && Ready(between, dev, f, freed, c)
    requires Allowed(f, dev, seen) && FarOff(f, dev, seen, c)
      && (seen == CreateConfig(c.device_id) ==> Creating in between)
    ensures Ready(between, dev, Apply(f, dev, seen), freed, c)
  {
    hide Orphans, Recorded, Write, PortsAgree;
    RecordAfter(f, dev, seen, c.device_id);
    RemovedIsNamed(f, dev, freed);
    hide Allowed, Apply, SocketsAgree, Recovers;
    if FreeOrFit(f, c) {
      LostStaysLost(f, dev, seen, c);
    }
    var d := c.device_id;
    if seen == RemoveUnusedConfig(d) && d in f.configs && f.configs[d].socket.None?
      && c.local_port == f.configs[d].local_port {
      UnusedIsLost(f, dev, c);
    }
  }

  /** The operation neither writes the record of the pending config nor brings its port back. */
  ghost predicate FarOff(m: Model, dev: DeviceOf, op: Op, c: Config) {
    && !CopiesAndWrites(op) && !op.Remove?
    && (op.Add? ==> dev(op.s) != c.device_id)
    && (op.UpdateConfig? ==> Target(m, dev, op.config) != Some(c.device_id))
    && (c.local_port == NO_PORT || c.local_port !in Recovers(m, dev, op))
  }

  lemma {:induction false} SeenIsFarOff(between: set<Kind>, dev: DeviceOf, st: State, op: Op)
    requires !Harmful(between) && st.pending.Some? && MayBegin(between, dev, st, op)
    ensures
      var (f, seen, c) := (Rest(dev, st), Seen(Listed(st), dev, Freed(st.change), op), st.pending.value);
      FarOff(f, dev, seen, c) && (seen == CreateConfig(c.device_id) ==> Creating in between)
  {
    hide Allowed, Write;
    if op.UpdateConfig? {
      WriteSeen(Listed(st), dev, Freed(st.change), op.config);
      TargetIgnoresPort(Rest(dev, st), dev, op.config);
    }
  }

  lemma {:induction false} TakenIsFarOff(between: set<Kind>, dev: DeviceOf, st: State, op: Op)
    requires !Harmful(between) && st.taken.Some? && st.taken.value != NO_PORT && MayBegin(between, dev, st, op)
    ensures st.taken.value !in Recovers(Rest(dev, st), dev, Seen(Listed(st), dev, Freed(st.change), op))
  {
    hide Allowed, Write, Target;
  }

  lemma {:induction false} TargetIgnoresPort(m: Model, dev: DeviceOf, c: Config)
    ensures Target(m, dev, c.(local_port := NO_PORT)) == Target(m, dev, c)
  {
  }

  lemma {:induction false} RemovedIsNamed(m: Model, dev: DeviceOf, removing: Option<Sock>)
    requires SocketsAgree(m, dev) && (removing.Some? ==> removing.value in m.sockets)
    ensures forall d :: d in m.configs && Gone(dev, removing, d) ==> m.configs[d].socket.Some?
  {
  }

  /** The port of an unused config that is removed is lost. */
  lemma {:induction false} UnusedIsLost(m: Model, dev: DeviceOf, c: Config)
    requires Consistent(m, dev) && c.device_id in m.configs && m.configs[c.device_id].socket.None?
    requires c.local_port == m.configs[c.device_id].local_port
    ensures FreeOrFit(Apply(m, dev, RemoveUnusedConfig(c.device_id)), c)
  {
    hide Orphans, SocketsAgree, PortsAgree;
    OrphansOfErased(m, c.device_id);
  }

  // ---- operations in several steps --------------------------------------------------------------

  lemma {:induction false} TakeSettles(between: set<Kind>, dev: DeviceOf, st: State)
    requires Inv(between, dev, st) && Possible(between, dev, st, Take)
    ensures Inv(between, dev, Do(dev, st, Take))
  {
    var f := Rest(dev, st);
    SocketsSame(f, TakePort(f), dev);
    FewerPortsAgree(f, TakePort(f));
    if st.m.free != {} {
      TakenIsOrphan(f);
    }
    hide PortsAgree, SocketsAgree, Orphans;
    assert Rest(dev, Do(dev, st, Take)) == TakePort(f);
  }

  /** A config that has just been copied fits its record. */
  lemma {:induction false} CopiedIsReady(between: set<Kind>, dev: DeviceOf, st: State, op: Op)
    requires Inv(between, dev, st) && CopiesAndWrites(op) && (op.AddLocalPort? <==> st.taken.Some?)
    ensures
      var c := Changed(st.m, dev, op, st.taken);
      c.Some? ==> Ready(between, dev, Rest(dev, st), Freed(st.change), c.value)
  {
    ForgetKeepsSockets(Listed(st), dev, Freed(st.change));
    hide PortsAgree, Orphans, Recorded;
    var f := Rest(dev, st);
    assert forall d :: d in st.m.configs && !Gone(dev, Freed(st.change), d) ==> f.configs[d] == st.m.configs[d];
  }

  /** Whatever came between, the write-back leaves the registry consistent exactly when it finds no
      record, or one with the same device and socket, in which its port is recorded or that is
      being removed, or its port is lost or none. */
  lemma {:induction false} WriteBackKeepsIff(dev: DeviceOf, st: State)
    requires Settled(dev, st) && st.pending.Some?
    ensures
      var (f, c) := (Rest(dev, st), st.pending.value);
      var d := Target(st.m, dev, c);
      Settled(dev, Do(dev, st, WriteBack)) <==>
      d.None? || (c.device_id == d.value && c.socket == f.configs[d.value].socket
                  && (Gone(dev, Freed(st.change), d.value) || PortFits(f, d.value, c)))
  {
    var f, c := Rest(dev, st), st.pending.value;
    var d := Target(st.m, dev, c);
    WriteSeen(Listed(st), dev, Freed(st.change), c);
    TargetIgnoresPort(f, dev, c);
    WriteListed(dev, st);
    hide Consistent, Write, Target, Orphans, Listed, Do, Victim;
    if d.Some? {
      var seen := if Gone(dev, Freed(st.change), d.value) then c.(local_port := NO_PORT) else c;
      UpdateKeepsIff(f, dev, seen);
    }
  }

  lemma {:induction false} WriteListed(dev: DeviceOf, st: State)
    requires st.pending.Some?
    ensures
      var (st', c) := (Do(dev, st, WriteBack), st.pending.value);
      && Listed(st') == Write(Listed(st), dev, c) && Target(Listed(st), dev, c) == Target(st.m, dev, c)
      && Freed(st'.change) == Freed(st.change) && Victim(st'.change) == Victim(st.change)
      && st'.m.sockets == st.m.sockets && (Target(st.m, dev, c).None? ==> Listed(st') == Listed(st))
  {
    var c := st.pending.value;
    ListIsIrrelevant(st.m, dev, UpdateConfig(c), Listed(st).sockets);
    WriteKeepsSockets(st.m, dev, c);
    assert Target(Listed(st), dev, c) == Target(st.m, dev, c);
    hide Target;
  }

  lemma {:induction false} WriteKeepsSockets(m: Model, dev: DeviceOf, c: Config)
    ensures Write(m, dev, c).sockets == m.sockets
  {
  }

  lemma {:induction false} WriteBackSettles(between: set<Kind>, dev: DeviceOf, st: State)
    requires Inv(between, dev, st) && Possible(between, dev, st, WriteBack)
    requires st.taken.None?
    ensures Inv(between, dev, Do(dev, st, WriteBack))
  {
    WriteBackKeepsIff(dev, st);
    hide PortsAgree, Orphans;
  }

  lemma {:induction false} BeginRemoveSettles(between: set<Kind>, dev: DeviceOf, st: State, s: Sock)
    requires Inv(between, dev, st) && Possible(between, dev, st, BeginRemove(s))
    ensures Inv(between, dev, Do(dev, st, BeginRemove(s)))
  {
    hide PortsAgree, Orphans;
    assert BySocket(st.m, dev, s) == Some(st.m.configs[dev(s)]);
  }

  /** The port that Remove has read goes back, and its record no longer counts. */
  lemma {:induction false} ReleaseSettles(between: set<Kind>, dev: DeviceOf, st: State)
    requires Inv(between, dev, st) && st.change.Reading? && st.taken.None?
    ensures Inv(between, dev, Do(dev, st, ReleaseCopied))
  {
    var m, s, c := st.m, st.change.s, st.pending.value;
    var d := dev(s);
    assert d in m.configs && m.configs[d].socket == Some(s);
    var cleared := Forget(m, dev, Some(s));
    ForgetKeepsSockets(m, dev, Some(s));
    WriteKeepsAccountsIff(m, d, m.configs[d].(local_port := NO_PORT));
    ForgetRecords(m, dev, Some(s));
    NothingRecordsNoPort(cleared);
    if Records(m, d) {
      OnlyOneRecords(m, dev, d);
    }
    assert !Recorded(cleared, c.local_port);
    ReleaseKeepsAccountsIff(cleared, c.local_port);
    SocketsSame(cleared, Release(cleared, c.local_port), dev);
    hide SocketsAgree, PortsAgree, Orphans, Recorded;
    assert Rest(dev, Do(dev, st, ReleaseCopied)) == Release(cleared, c.local_port);
  }

  lemma {:induction false} OnlyOneRecords(m: Model, dev: DeviceOf, d: string)
    requires PortsAgree(m) && Records(m, d)
    ensures !Recorded(m.(configs := m.configs[d := m.configs[d].(local_port := NO_PORT)]), m.configs[d].local_port)
  {
    var cleared := m.(configs := m.configs[d := m.configs[d].(local_port := NO_PORT)]);
    forall e | Records(cleared, e) ensures cleared.configs[e].local_port != m.configs[d].local_port {
      assert e != d && Records(m, e);
    }
  }

  lemma {:induction false} DropIsRemove(dev: DeviceOf, st: State)
    requires Settled(dev, st) && st.change.Disconnected?
    ensures Rest(dev, Do(dev, st, DropRecord)) == RemoveSocket(Rest(dev, st), dev, st.change.s)
  {
    hide PortsAgree;
    var s, f := st.change.s, Rest(dev, st);
    assert BySocket(f, dev, s) == Some(f.configs[dev(s)]);
    assert f.configs - {dev(s)} == st.m.configs - {dev(s)};
  }

  lemma {:induction false} DropRecordSettles(between: set<Kind>, dev: DeviceOf, st: State)
    requires !Harmful(between) && Inv(between, dev, st) && Possible(between, dev, st, DropRecord)
    ensures Inv(between, dev, Do(dev, st, DropRecord))
  {
    var s, f := st.change.s, Rest(dev, st);
    DropIsRemove(dev, st);
    hide PortsAgree, Orphans, SocketsAgree, Without;
    ApplyKeepsIff(f, dev, Op.Remove(s));
    OrphansOfRemoved(f, dev, s);
  }

  // ---- every run ----------------------------------------------------------------------------------

  /** Whoever has taken a port has nothing pending yet. */
  predicate OneHolder(st: State) {
    st.taken.Some? ==> st.pending.None?
  }

  lemma {:induction false} StepSettles(between: set<Kind>, dev: DeviceOf, st: State, step: Step)
    requires !Harmful(between) && Inv(between, dev, st) && OneHolder(st) && Possible(between, dev, st, step)
    ensures Inv(between, dev, Do(dev, st, step)) && OneHolder(Do(dev, st, step))
  {
    match step
    case Whole(op) => BeginSettles(between, dev, st, op);
    case BeginAdd(s) => BeginSettles(between, dev, st, Op.Add(s));
    case FinishAdd => assert Rest(dev, Do(dev, st, FinishAdd)) == Rest(dev, st);
    case Take => TakeSettles(between, dev, st);
    case Copy(op) =>
      CopiedIsReady(between, dev, st, op);
      hide Ready, Consistent, Orphans, Forget, Changed;
    case WriteBack => WriteBackSettles(between, dev, st);
    case BeginRemove(s) => BeginRemoveSettles(between, dev, st, s);
    case ReleaseCopied => ReleaseSettles(between, dev, st);
    case DisconnectRemoved =>
      CopiedIsReady(between, dev, st, DisconnectSocket(st.change.s));
      hide Ready, Consistent, Orphans, Forget, Changed;
    case DropRecord => DropRecordSettles(between, dev, st);
    case FinishRemove => assert Rest(dev, Do(dev, st, FinishRemove)) == Rest(dev, st);
  }

  lemma {:induction false} BeginSettles(between: set<Kind>, dev: DeviceOf, st: State, op: Op)
    requires !Harmful(between) && Inv(between, dev, st) && OneHolder(st) && MayBegin(between, dev, st, op)
    ensures Inv(between, dev, Begun(dev, st, op)) && OneHolder(Begun(dev, st, op))
  {
    BegunIsApplied(dev, st, op);
    hide Ready, Consistent, Allowed, Forget, Orphans, MayCome;
    WholeSettles(dev, st, op);
    WholeLeavesReady(between, dev, st, op);
  }

  lemma {:induction false} RunSettles(between: set<Kind>, dev: DeviceOf, st: State, steps: seq<Step>)
    requires !Harmful(between) && Inv(between, dev, st) && OneHolder(st) && Run(between, dev, st, steps).Some?
    ensures Inv(between, dev, Run(between, dev, st, steps).value)
    decreases |steps|
  {
    hide Inv, Possible, Do, Harmful, OneHolder;
    if steps != [] {
      StepSettles(between, dev, st, steps[0]);
      RunSettles(between, dev, Do(dev, st, steps[0]), steps[1..]);
    }
  }

  /** In every interleaving without harmful steps the registry is consistent whenever no Add and no
      Remove is half done, also while a config is copied and not yet written back. */
  lemma {:induction false} InterleavingsKeep(between: set<Kind>, dev: DeviceOf, steps: seq<Step>)
    requires !Harmful(between) && Run(between, dev, START, steps).Some?
    ensures
      var st := Run(between, dev, START, steps).value;
      st.change.Nobody? ==> Consistent(st.m, dev)
  {
    hide Run, Harmful, Consistent, Ready;
    InitialIsConsistent(dev);
    RunSettles(between, dev, START, steps);
  }

  // ---- runs that spoil it ------------------------------------------------------------------------------

  ghost predicate Reaches(between: set<Kind>, dev: DeviceOf, st: State, st': State) {
    exists steps :: Run(between, dev, st, steps) == Some(st')
  }

  lemma {:induction false} Arrive(between: set<Kind>, dev: DeviceOf, st: State)
    ensures Reaches(between, dev, st, st)
  {
    assert Run(between, dev, st, []) == Some(st);
  }

  /** Runs are built from their last step to their first. */
  lemma {:induction false} Go(between: set<Kind>, dev: DeviceOf, st: State, step: Step, target: State)
    requires Possible(between, dev, st, step) && Reaches(between, dev, Do(dev, st, step), target)
    ensures Reaches(between, dev, st, target)
  {
    hide Possible, Do;
    var rest :| Run(between, dev, Do(dev, st, step), rest) == Some(target);
    assert ([step] + rest)[1..] == rest;
    assert Run(between, dev, st, [step] + rest) == Some(target);
  }

  /** Some run ends, with no Add or Remove half done, in an inconsistent registry. */
  ghost predicate Spoiled(between: set<Kind>, dev: DeviceOf) {
    exists st :: Reaches(between, dev, START, st) && st.change.Nobody? && !Consistent(st.m, dev)
  }

  /** in one whose list and indexes do not agree. */
  ghost predicate Disagrees(between: set<Kind>, dev: DeviceOf) {
    exists st :: Reaches(between, dev, START, st) && st.change.Nobody? && !SocketsAgree(st.m, dev)
  }

  function With(m: Model, d: string, c: Config): Model {
    m.(configs := m.configs[d := c])
  }

  /** One socket is listed and indexed, and its config does not name it. */
  ghost function Forgetful(dev: DeviceOf, s: Sock): State {
    State(Model(map[dev(s) := NewConfig(dev(s))], {s}, [s], AllPorts()), Nobody, None)
  }

  /** A config without a socket is copied, and its device gets one. */
  lemma {:induction false} GoForgetful(between: set<Kind>, dev: DeviceOf, s: Sock, target: State)
    requires Adding in between && Reaches(between, dev, Forgetful(dev, s), target)
    ensures Reaches(between, dev, START, target)
  {
    hide Reaches, Orphans;
    var d := dev(s);
    var c := NewConfig(d);
    var made := With(INITIAL, d, c);
    var added := AddSocket(made, dev, s);
    assert With(added, d, c) == Forgetful(dev, s).m;
    Go(between, dev, State(added, Nobody, Some(c)), WriteBack, target);
    GoAdd(between, dev, State(made, Nobody, Some(c)), s, target);
    assert c == made.configs[d].(ip := "");
    Go(between, dev, State(made, Nobody, None), Copy(Op.AddIP(d, "")), target);
    Go(between, dev, START, Whole(Op.CreateConfig(d)), target);
  }

  lemma {:induction false} GoAdd(between: set<Kind>, dev: DeviceOf, st: State, s: Sock, target: State)
    requires MayBegin(between, dev, st, Op.Add(s))
    requires Reaches(between, dev, st.(m := AddSocket(st.m, dev, s)), target)
    ensures Reaches(between, dev, st, target)
  {
    hide Reaches;
    Go(between, dev, Begun(dev, st, Op.Add(s)), FinishAdd, target);
    Go(between, dev, st, BeginAdd(s), target);
  }

  lemma {:induction false} AddSpoils(between: set<Kind>, dev: DeviceOf, s: Sock)
    requires Adding in between
    ensures Disagrees(between, dev)
  {
    hide Reaches;
    var last := Forgetful(dev, s);
    assert s in last.m.sockets && last.m.configs[dev(s)].socket != Some(s);
    Arrive(between, dev, last);
    GoForgetful(between, dev, s, last);
  }

  /** A config is copied, its socket removed, and a config made again: the copy names the deleted
      socket once more. */
  lemma {:induction false} RemoveAndCreateSpoil(between: set<Kind>, dev: DeviceOf)
    requires Removing in between && Creating in between
    ensures Disagrees(between, dev)
  {
    hide Reaches, Orphans;
    var d := dev(0);
    var c := NewConfig(d).(socket := Some(0));
    var added := AddSocket(INITIAL, dev, 0);
    var removed := Model(map[], {}, [], AllPorts());
    var again := With(removed, d, NewConfig(d));
    var last := State(With(again, d, c), Nobody, None);
    assert !SocketsAgree(last.m, dev) by {
      assert last.m.configs[d].socket == Some(0) && 0 !in last.m.sockets;
    }
    Arrive(between, dev, last);
    Go(between, dev, State(again, Nobody, Some(c)), WriteBack, last);
    Go(between, dev, State(removed, Nobody, Some(c)), Whole(Op.CreateConfig(d)), last);
    RemovesTheOne(dev, added, c);
    var dropped := Do(dev, State(added, Disconnected(0), Some(c)), DropRecord);
    Go(between, dev, dropped, FinishRemove, last);
    Go(between, dev, State(added, Disconnected(0), Some(c)), DropRecord, last);
    assert c == added.configs[d].(ip := "");
    Go(between, dev, State(added, Disconnected(0), None), Copy(Op.AddIP(d, "")), last);
    assert c == added.configs[d].(connected := false) && added.configs[d := c] == added.configs;
    Go(between, dev, State(added, Disconnecting(0), Some(c)), WriteBack, last);
    Go(between, dev, State(added, Released(0), None), DisconnectRemoved, last);
    assert ReleasePortOf(added, Some(c)) == added;
    Go(between, dev, State(added, Reading(0), Some(c)), ReleaseCopied, last);
    Go(between, dev, State(added, Nobody, None), BeginRemove(0), last);
    GoAdd(between, dev, START, 0, last);
  }

  lemma {:induction false} RemovesTheOne(dev: DeviceOf, added: Model, c: Config)
    requires added == AddSocket(INITIAL, dev, 0)
    ensures
      Do(dev, Do(dev, State(added, Disconnected(0), Some(c)), DropRecord), FinishRemove)
      == State(Model(map[], {}, [], AllPorts()), Nobody, Some(c))
  {
    assert added.configs - {dev(0)} == map[] && added.indexed - {0} == {};
    assert added.sockets == [0] && Without([0], 0) == [];
  }

  /** The registry with the config of A, and the state in which AddLocalPort for A has taken the
      first port and not yet recorded it. */
  ghost function Taken(others: map<string, Config>): State {
    State(Model(others["A" := NewConfig("A")], {}, [], AllPorts() - {MIN_PORT}), Nobody,
          Some(NewConfig("A").(local_port := MIN_PORT)))
  }

  lemma {:induction false} GoTaken(between: set<Kind>, dev: DeviceOf, others: map<string, Config>, target: State)
    requires others == map[] || others == map["B" := NewConfig("B")]
    requires Reaches(between, dev, Taken(others), target)
    ensures Reaches(between, dev, START, target)
  {
    hide Reaches;
    var m := Model(others["A" := NewConfig("A")], {}, [], AllPorts());
    FirstPort();
    var less := m.(free := m.free - {MIN_PORT});
    Go(between, dev, State(less, Nobody, None, Some(MIN_PORT)), Copy(Op.AddLocalPort("A")), target);
    Go(between, dev, State(m, Nobody, None), Take, target);
    var before := Model(others, {}, [], AllPorts());
    assert "A" !in others;
    Go(between, dev, State(before, Nobody, None), Whole(Op.CreateConfig("A")), target);
    if others != map[] {
      assert map[]["B" := NewConfig("B")] == others;
      Go(between, dev, START, Whole(Op.CreateConfig("B")), target);
    }
  }

  lemma {:induction false} FirstPort()
    ensures MIN_PORT in AllPorts() && Least(AllPorts()) == MIN_PORT && AllPorts() != {}
  {
    var ports := AllPorts();
    assert Between(MIN_PORT, MIN_PORT, MAX_PORT) && MIN_PORT in ports;
    assert IsLeast(ports, MIN_PORT);
  }

  /** Both put the port that is about to be recorded back into the pool. */
  lemma {:induction false} ReturnSpoils(between: set<Kind>, dev: DeviceOf)
    requires Releasing in between || Refilling in between
    ensures Spoiled(between, dev)
  {
    hide Reaches;
    FirstPort();
    var c, taken := NewConfig("A").(local_port := MIN_PORT), Taken(map[]);
    var returned := Model(taken.m.configs, {}, [], AllPorts());
    var last := State(With(returned, "A", c), Nobody, None);
    assert !PortsAgree(last.m) by {
      assert Records(last.m, "A") && last.m.configs["A"].local_port in last.m.free;
    }
    Arrive(between, dev, last);
    Go(between, dev, State(returned, Nobody, Some(c)), WriteBack, last);
    NobodyRecords(taken.m);
    if Releasing in between {
      assert AllPorts() - {MIN_PORT} + {MIN_PORT} == AllPorts();
      Go(between, dev, taken, Whole(Op.ReleasePort(MIN_PORT)), last);
    } else {
      assert AllPorts() - {MIN_PORT} + AllPorts() == AllPorts();
      Go(between, dev, taken, Whole(Op.InitializeLocalPorts), last);
    }
    GoTaken(between, dev, map[], last);
  }

  lemma {:induction false} NobodyRecords(m: Model)
    requires forall d :: d in m.configs ==> m.configs[d].local_port == NO_PORT
    ensures forall p :: !Recorded(m, p)
  {
  }

  /** The port that is about to be recorded is recorded for another device. */
  lemma {:induction false} UpdateSpoils(between: set<Kind>, dev: DeviceOf)
    requires Updating in between
    ensures Spoiled(between, dev)
  {
    hide Reaches;
    FirstPort();
    var others := map["B" := NewConfig("B")];
    var taken, c, u := Taken(others), NewConfig("A").(local_port := MIN_PORT), NewConfig("B").(local_port := MIN_PORT);
    var updated := With(taken.m, "B", u);
    var last := State(With(updated, "A", c), Nobody, None);
    assert !PortsAgree(last.m) by {
      assert Records(last.m, "A") && Records(last.m, "B");
    }
    Arrive(between, dev, last);
    Go(between, dev, State(updated, Nobody, Some(c)), WriteBack, last);
    NobodyRecords(taken.m);
    Go(between, dev, taken, Whole(Op.UpdateConfig(u)), last);
    GoTaken(between, dev, others, last);
  }

  lemma {:induction false} DisagreementSpoils(between: set<Kind>, dev: DeviceOf)
    requires Disagrees(between, dev)
    ensures Spoiled(between, dev)
  {
    hide Reaches, SocketsAgree, PortsAgree;
    var st :| Reaches(between, dev, START, st) && st.change.Nobody? && !SocketsAgree(st.m, dev);
    assert !Consistent(st.m, dev);
  }

  /** If the steps are a run that leaves no Add and no Remove half done, the registry is
      consistent. */
  ghost predicate EndsConsistent(between: set<Kind>, dev: DeviceOf, steps: seq<Step>) {
    var end := Run(between, dev, START, steps);
    end.Some? && end.value.change.Nobody? ==> Consistent(end.value.m, dev)
  }

  /** The registry is consistent in every interleaving, whenever no Add or Remove is half done,
      exactly when callers keep the harmful steps from coming between a copy and its write-back: an Add
      for the device, an update of its config or with its port, a release of its port or a refill
      of the pool, and the end of a Remove together with a new config. */
  lemma {:induction false} InterleavingIff(between: set<Kind>, dev: DeviceOf)
    ensures
      (forall steps :: EndsConsistent(between, dev, steps)) <==> !Harmful(between)
  {
    hide Run, Consistent;
    if Harmful(between) {
      if Adding in between {
        AddSpoils(between, dev, 0);
        DisagreementSpoils(between, dev);
      } else if Updating in between {
        UpdateSpoils(between, dev);
      } else if Releasing in between || Refilling in between {
        ReturnSpoils(between, dev);
      } else {
        RemoveAndCreateSpoil(between, dev);
        DisagreementSpoils(between, dev);
      }
      var st :| Reaches(between, dev, START, st) && st.change.Nobody? && !Consistent(st.m, dev);
      var steps :| Run(between, dev, START, steps) == Some(st);
      assert !EndsConsistent(between, dev, steps);
    } else {
      forall steps ensures EndsConsistent(between, dev, steps) {
        if Run(between, dev, START, steps).Some? {
          InterleavingsKeep(between, dev, steps);
        }
      }
    }
  }
}
