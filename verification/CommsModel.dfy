/**
 * The link runtime as a transition system: a discovery thread and any number of
 * discover_links callers scan, first for Bluetooth and then for Wi-Fi devices.  A scan checks
 * one device after the other, shakes hands outside the lock and publishes the link, until
 * stop drops every link.
 */
module CommsModel {
  import opened Common

  type Tid = nat
  /** The identity of an opened descriptor; the numbers the kernel reuses are not modelled. */
  type Fd = nat

  datatype Kind = Bluetooth | Wifi

  datatype ActiveLink = ActiveLink(key: string, linkID: string, devID: string, kind: Kind, fd: Fd)

  /** What LINK_DROPPED is told about a link. */
  datatype LinkInfo = LinkInfo(linkID: string, devID: string, kind: Kind)

  datatype Callbacks = Callbacks(bluetoothDevice: bool, wifiDevice: bool, linkDiscovered: bool, linkDropped: bool)

  /** The fields the runtime's mutex guards. */
  datatype Core = Core(links: seq<ActiveLink>, keys: set<string>, seenBluetooth: set<string>, seenWifi: set<string>,
                       callbacks: Callbacks)

  function KeyOf(kind: Kind, mac: string): string {
    (if kind == Bluetooth then "bt|" else "wifi|") + mac
  }

  function InfoOf(l: ActiveLink): LinkInfo {
    LinkInfo(l.linkID, l.devID, l.kind)
  }

  function Infos(links: seq<ActiveLink>): (r: seq<LinkInfo>)
    ensures |r| == |links| && forall i :: 0 <= i < |r| ==> r[i] == InfoOf(links[i])
  {
    if links == [] then [] else [InfoOf(links[0])] + Infos(links[1..])
  }

  // ---- the sections that run under the mutex --------------------------------------------

  function Seen(c: Core, kind: Kind): set<string> {
    if kind == Bluetooth then c.seenBluetooth else c.seenWifi
  }

  function DeviceCallback(c: Core, kind: Kind): bool {
    if kind == Bluetooth then c.callbacks.bluetoothDevice else c.callbacks.wifiDevice
  }

  /** The check before a handshake: is the device new, is its link missing. */
  function Check(c: Core, kind: Kind, mac: string): (Core, bool, bool) {
    var key := KeyOf(kind, mac);
    var c' := if kind == Bluetooth then c.(seenBluetooth := c.seenBluetooth + {key})
      else c.(seenWifi := c.seenWifi + {key});
    (c', key !in Seen(c, kind) && DeviceCallback(c, kind), key !in c.keys)
  }

  /** publish_link: the link is taken in unless its key is there already. */
  function Publish(c: Core, l: ActiveLink): (Core, bool) {
    if l.key in c.keys then (c, false)
    else (c.(keys := c.keys + {l.key}, links := c.links + [l]), true)
  }

  function Clear(c: Core): Core {
    c.(links := [], keys := {})
  }

  // ---- threads ------------------------------------------------------------------------------

  /** Idle is a thread without a scan in progress, Scanning one between two devices. */
  datatype Phase =
    | Idle
    | Scanning(kind: Kind)
    | Checked(kind: Kind, mac: string, notify: bool, attempt: bool)
    | Attempting(kind: Kind, mac: string)
    | Shaken(link: ActiveLink)
    | Published(link: ActiveLink, notify: bool)

  /** The log records what the environment sees: descriptors and callbacks. */
  datatype State = State(
    core: Core,
    threads: map<Tid, Phase>,
    nextFd: Fd,
    closed: seq<Fd>,
    published: seq<ActiveLink>,
    deviceCalls: seq<string>,
    linkCalls: seq<ActiveLink>,
    dropCalls: seq<LinkInfo>,
    stops: nat,
    dropping: Option<seq<LinkInfo>>)

  const NO_CALLBACKS := Callbacks(false, false, false, false)
  const INITIAL := State(Core([], {}, {}, {}, NO_CALLBACKS), map[], 0, [], [], [], [], [], 0, None)

  datatype Outcome = NoSocket | Failed | Succeeded(linkID: string)

  datatype Action =
    | BeginScan(t: Tid)
    | EndLoop(t: Tid)
    | CheckDevice(t: Tid, mac: string)
    | CallDevice(t: Tid)
    | Handshake(t: Tid, outcome: Outcome)
    | PublishLink(t: Tid)
    | CallLink(t: Tid)
    | SetCallbacks(callbacks: Callbacks)
    | Stop
    | CallDropped

  function PhaseOf(st: State, t: Tid): Phase {
    if t in st.threads then st.threads[t] else Idle
  }

  /** Scanning ends before stop clears the links: the discovery thread is joined and every
      discover_links call has returned. */
  predicate AllIdle(st: State) {
    forall t :: t in st.threads ==> st.threads[t] == Idle
  }

  /** A scan needs the runtime to begin, and nothing but the end of its devices to go on. */
  predicate Possible(st: State, a: Action) {
    match a
    case BeginScan(t) => PhaseOf(st, t).Idle? && st.stops == 0
    case EndLoop(t) => PhaseOf(st, t).Scanning?
    case CheckDevice(t, _) => PhaseOf(st, t).Scanning?
    case CallDevice(t) => PhaseOf(st, t).Checked?
    case Handshake(t, _) => PhaseOf(st, t).Attempting?
    case PublishLink(t) => PhaseOf(st, t).Shaken?
    case CallLink(t) => PhaseOf(st, t).Published?
    case SetCallbacks(_) => true
    case Stop => AllIdle(st) && st.dropping.None?
    case CallDropped => st.dropping.Some?
  }

  function Fds(links: seq<ActiveLink>): (r: seq<Fd>)
    ensures |r| == |links| && forall i :: 0 <= i < |r| ==> r[i] == links[i].fd
  {
    if links == [] then [] else [links[0].fd] + Fds(links[1..])
  }

  /** stop clears the links and closes them, whatever the threads are doing. */
  function Stopped(st: State): State {
    st.(core := Clear(st.core), closed := st.closed + Fds(st.core.links), stops := st.stops + 1,
        dropping := Some(Infos(st.core.links)))
  }

  function Do(st: State, a: Action): State
    requires Possible(st, a)
  {
    match a
    case BeginScan(t) => st.(threads := st.threads[t := Scanning(Bluetooth)])
    case EndLoop(t) =>
      st.(threads := st.threads[t := if PhaseOf(st, t).kind == Bluetooth then Scanning(Wifi) else Idle])
    case CheckDevice(t, mac) =>
      var kind := PhaseOf(st, t).kind;
      var (c, notify, attempt) := Check(st.core, kind, mac);
      st.(core := c, threads := st.threads[t := Checked(kind, mac, notify, attempt)])
    case CallDevice(t) =>
      var p := PhaseOf(st, t);
      st.(deviceCalls := if p.notify then st.deviceCalls + [KeyOf(p.kind, p.mac)] else st.deviceCalls,
          threads := st.threads[t := if p.attempt then Attempting(p.kind, p.mac) else Scanning(p.kind)])
    case Handshake(t, outcome) =>
      var p, fd := PhaseOf(st, t), st.nextFd;
      (match outcome
       case NoSocket => st.(threads := st.threads[t := Scanning(p.kind)])
       case Failed => st.(threads := st.threads[t := Scanning(p.kind)], nextFd := fd + 1, closed := st.closed + [fd])
       case Succeeded(linkID) =>
         var l := ActiveLink(KeyOf(p.kind, p.mac), linkID, p.mac, p.kind, fd);
         st.(threads := st.threads[t := Shaken(l)], nextFd := fd + 1))
    case PublishLink(t) =>
      var l := PhaseOf(st, t).link;
      var (c, accepted) := Publish(st.core, l);
      if accepted then
        st.(core := c, published := st.published + [l],
          threads := st.threads[t := Published(l, st.core.callbacks.linkDiscovered)])
      else st.(closed := st.closed + [l.fd], threads := st.threads[t := Scanning(l.kind)])
    case CallLink(t) =>
      var p := PhaseOf(st, t);
      st.(linkCalls := if p.notify then st.linkCalls + [p.link] else st.linkCalls,
          threads := st.threads[t := Scanning(p.link.kind)])
    case SetCallbacks(callbacks) => st.(core := st.core.(callbacks := callbacks))
    case Stop => Stopped(st)
    case CallDropped =>
      st.(dropCalls := if st.core.callbacks.linkDropped then st.dropCalls + st.dropping.value else st.dropCalls,
          dropping := None)
  }

  function Run(st: State, actions: seq<Action>): Option<State>
    decreases |actions|
  {
    if actions == [] then Some(st)
    else if Possible(st, actions[0]) then Run(Do(st, actions[0]), actions[1..])
    else None
  }

  // ---- links and keys ---------------------------------------------------------------------------

  predicate DistinctKeys(links: seq<ActiveLink>) {
    forall i, j :: 0 <= i < j < |links| ==> links[i].key != links[j].key
  }

  predicate HasKey(links: seq<ActiveLink>, key: string) {
    exists i :: 0 <= i < |links| && links[i].key == key
  }

  /** The key set is the set of keys in the list, no key occurs twice, and before stop the
      list is everything ever published. */
  ghost predicate KeysInStep(st: State) {
    && (forall k :: k in st.core.keys <==> HasKey(st.core.links, k))
    && DistinctKeys(st.published)
    && st.core.links == (if st.stops == 0 then st.published else [])
    && (st.stops > 0 ==> AllIdle(st))
  }

  lemma {:induction false} KeysStay(st: State, a: Action)
    requires KeysInStep(st) && Possible(st, a)
    ensures KeysInStep(Do(st, a))
  {
    var st' := Do(st, a);
    if a.PublishLink? && Publish(st.core, PhaseOf(st, a.t).link).1 {
      var l := PhaseOf(st, a.t).link;
      assert st.stops == 0;
      forall k ensures k in st'.core.keys <==> HasKey(st'.core.links, k) {
        if HasKey(st.core.links, k) {
          var i :| 0 <= i < |st.core.links| && st.core.links[i].key == k;
          assert st'.core.links[i].key == k;
        }
        assert st'.core.links[|st.core.links|].key == l.key;
      }
    }
  }

  // ---- descriptors ------------------------------------------------------------------------------

  predicate OwnedByLink(st: State, fd: Fd) {
    exists i :: 0 <= i < |st.core.links| && st.core.links[i].fd == fd
  }

  predicate HeldBy(st: State, t: Tid, fd: Fd) {
    PhaseOf(st, t).Shaken? && PhaseOf(st, t).link.fd == fd
  }

  ghost predicate Held(st: State, fd: Fd) {
    exists t :: HeldBy(st, t, fd)
  }

  predicate Distinct(s: seq<Fd>) {
    forall i, j :: 0 <= i < j < |s| ==> s[i] != s[j]
  }

  /** Every descriptor ever opened is in exactly one place: an active link, a thread between
      its handshake and its publication, or the record of closed descriptors, once. */
  ghost predicate Accounted(st: State) {
    && (forall fd: Fd :: OwnedByLink(st, fd) || fd in st.closed || Held(st, fd) <==> fd < st.nextFd)
    && (forall fd: Fd :: !(OwnedByLink(st, fd) && fd in st.closed))
    && (forall fd: Fd :: !(OwnedByLink(st, fd) && Held(st, fd)))
    && (forall fd: Fd :: !(fd in st.closed && Held(st, fd)))
    && (forall t, u, fd: Fd :: HeldBy(st, t, fd) && HeldBy(st, u, fd) ==> t == u)
    && (forall i, j :: 0 <= i < j < |st.core.links| ==> st.core.links[i].fd != st.core.links[j].fd)
    && Distinct(st.closed)
  }

  /** The thread's step neither takes nor gives up a descriptor. */
  lemma {:induction false} AccountedSame(st: State, st': State, t: Tid)
    requires Accounted(st) && !PhaseOf(st, t).Shaken? && !PhaseOf(st', t).Shaken?
    requires forall u :: u != t ==> PhaseOf(st', u) == PhaseOf(st, u)
    requires st'.core.links == st.core.links && st'.closed == st.closed && st'.nextFd == st.nextFd
    ensures Accounted(st')
  {
    forall u, fd: Fd ensures HeldBy(st', u, fd) <==> HeldBy(st, u, fd) { }
    forall fd: Fd ensures Held(st', fd) <==> Held(st, fd) {
      if Held(st, fd) { var u :| HeldBy(st, u, fd); assert HeldBy(st', u, fd); }
      if Held(st', fd) { var u :| HeldBy(st', u, fd); assert HeldBy(st, u, fd); }
    }
    forall fd: Fd ensures OwnedByLink(st', fd) <==> OwnedByLink(st, fd) { }
  }

  lemma {:induction false} AccountedHandshake(st: State, t: Tid, outcome: Outcome)
    requires Accounted(st) && Possible(st, Handshake(t, outcome)) && outcome != NoSocket
    ensures Accounted(Do(st, Handshake(t, outcome)))
  {
    var st', n := Do(st, Handshake(t, outcome)), st.nextFd;
    assert !OwnedByLink(st, n) && n !in st.closed && !Held(st, n);
    forall u, fd: Fd ensures HeldBy(st', u, fd) <==> HeldBy(st, u, fd) || (outcome.Succeeded? && u == t && fd == n) { }
    forall fd: Fd ensures Held(st', fd) <==> Held(st, fd) || (outcome.Succeeded? && fd == n) {
      if Held(st, fd) { var u :| HeldBy(st, u, fd); assert HeldBy(st', u, fd); }
      if Held(st', fd) { var u :| HeldBy(st', u, fd); assert HeldBy(st, u, fd) || fd == n; }
      if outcome.Succeeded? && fd == n { assert HeldBy(st', t, fd); }
    }
    forall fd: Fd ensures OwnedByLink(st', fd) <==> OwnedByLink(st, fd) { }
  }

  lemma {:induction false} AccountedPublish(st: State, t: Tid)
    requires Accounted(st) && Possible(st, PublishLink(t))
    ensures Accounted(Do(st, PublishLink(t)))
  {
    var st', l := Do(st, PublishLink(t)), PhaseOf(st, t).link;
    assert HeldBy(st, t, l.fd) && Held(st, l.fd);
    forall u, fd: Fd ensures HeldBy(st', u, fd) <==> HeldBy(st, u, fd) && u != t { }
    forall fd: Fd ensures Held(st', fd) <==> Held(st, fd) && fd != l.fd {
      if Held(st, fd) && fd != l.fd { var u :| HeldBy(st, u, fd); assert HeldBy(st', u, fd); }
      if Held(st', fd) { var u :| HeldBy(st', u, fd); assert HeldBy(st, u, fd); }
    }
    forall fd: Fd ensures OwnedByLink(st', fd) <==> OwnedByLink(st, fd) || (Publish(st.core, l).1 && fd == l.fd) {
      if OwnedByLink(st, fd) {
        var i :| 0 <= i < |st.core.links| && st.core.links[i].fd == fd;
        assert st'.core.links[i].fd == fd;
      }
      if Publish(st.core, l).1 { assert st'.core.links[|st.core.links|].fd == l.fd; }
    }
  }

  /** stop closes the descriptors that belong to links. */
  lemma {:induction false} FdsAreOwned(st: State)
    ensures forall fd: Fd :: fd in Fds(st.core.links) <==> OwnedByLink(st, fd)
  {
    var fds := Fds(st.core.links);
    forall fd: Fd ensures fd in fds <==> OwnedByLink(st, fd) {
      if i :| 0 <= i < |st.core.links| && st.core.links[i].fd == fd {
        assert fds[i] == fd;
      }
    }
  }

  lemma {:induction false} ClosedOnce(st: State)
    requires Accounted(st)
    ensures Distinct(st.closed + Fds(st.core.links))
  {
    var fds := Fds(st.core.links);
    var closed := st.closed + fds;
    FdsAreOwned(st);
    forall i, j | 0 <= i < j < |closed| ensures closed[i] != closed[j] {
      if i < |st.closed| <= j {
        assert closed[i] in st.closed && closed[j] == fds[j - |st.closed|] && closed[j] in fds;
      }
    }
  }

  lemma {:induction false} AccountedStop(st: State)
    requires Accounted(st)
    ensures Accounted(Stopped(st))
  {
    hide Distinct, Infos;
    var st' := Stopped(st);
    forall t, fd: Fd ensures HeldBy(st', t, fd) <==> HeldBy(st, t, fd) { }
    forall fd: Fd ensures Held(st', fd) <==> Held(st, fd) {
      if Held(st, fd) { var u :| HeldBy(st, u, fd); assert HeldBy(st', u, fd); }
      if Held(st', fd) { var u :| HeldBy(st', u, fd); assert HeldBy(st, u, fd); }
    }
    FdsAreOwned(st);
    ClosedOnce(st);
    assert forall fd: Fd :: fd in st'.closed <==> fd in st.closed || OwnedByLink(st, fd);
  }

  lemma {:induction false} AccountsStay(st: State, a: Action)
    requires Accounted(st) && Possible(st, a)
    ensures Accounted(Do(st, a))
  {
    hide Accounted;
    match a
    case Handshake(t, outcome) =>
      if outcome == NoSocket { AccountedSame(st, Do(st, a), t); } else { AccountedHandshake(st, t, outcome); }
    case PublishLink(t) => AccountedPublish(st, t);
    case Stop => AccountedStop(st);
    case SetCallbacks(_) => AccountedNeutral(st, Do(st, a));
    case CallDropped => AccountedNeutral(st, Do(st, a));
    case _ => AccountedSame(st, Do(st, a), a.t);
  }

  lemma {:induction false} AccountedNeutral(st: State, st': State)
    requires Accounted(st) && st'.threads == st.threads
    requires st'.core.links == st.core.links && st'.closed == st.closed && st'.nextFd == st.nextFd
    ensures Accounted(st')
  {
    forall u, fd: Fd ensures HeldBy(st', u, fd) <==> HeldBy(st, u, fd) { }
    forall fd: Fd ensures Held(st', fd) <==> Held(st, fd) {
      if Held(st, fd) { var u :| HeldBy(st, u, fd); assert HeldBy(st', u, fd); }
      if Held(st', fd) { var u :| HeldBy(st', u, fd); assert HeldBy(st, u, fd); }
    }
    forall fd: Fd ensures OwnedByLink(st', fd) <==> OwnedByLink(st, fd) { }
  }

  // ---- callbacks ----------------------------------------------------------------------------------

  predicate DistinctCalls(calls: seq<string>) {
    forall i, j :: 0 <= i < j < |calls| ==> calls[i] != calls[j]
  }

  predicate AboutToCallDevice(st: State, t: Tid, key: string) {
    var p := PhaseOf(st, t);
    p.Checked? && p.notify && KeyOf(p.kind, p.mac) == key
  }

  predicate EverSeen(st: State, key: string) {
    key in st.core.seenBluetooth || key in st.core.seenWifi
  }

  /** A device key is reported at most once, and only after it was seen. */
  ghost predicate DeviceCallsOnce(st: State) {
    && DistinctCalls(st.deviceCalls)
    && (forall k :: k in st.deviceCalls ==> EverSeen(st, k))
    && (forall t, k :: AboutToCallDevice(st, t, k) ==> EverSeen(st, k) && k !in st.deviceCalls)
    && (forall t, u, k :: AboutToCallDevice(st, t, k) && AboutToCallDevice(st, u, k) ==> t == u)
    && (forall k :: k in st.core.seenBluetooth ==> "bt|" <= k)
    && (forall k :: k in st.core.seenWifi ==> "wifi|" <= k)
  }

  lemma {:induction false} KindsDiffer(kind: Kind, mac: string)
    ensures (if kind == Bluetooth then "bt|" else "wifi|") <= KeyOf(kind, mac)
    ensures !((if kind == Bluetooth then "wifi|" else "bt|") <= KeyOf(kind, mac))
  {
    var key := KeyOf(kind, mac);
    if kind == Bluetooth {
      assert key[0] == 'b' && "wifi|"[0] == 'w';
    } else {
      assert key[0] == 'w' && "bt|"[0] == 'b';
    }
  }

  lemma {:induction false} DeviceCallsStay(st: State, a: Action)
    requires DeviceCallsOnce(st) && Possible(st, a)
    ensures DeviceCallsOnce(Do(st, a))
  {
    var st' := Do(st, a);
    match a
    case CheckDevice(t, mac) =>
      var kind := PhaseOf(st, t).kind;
      KindsDiffer(kind, mac);
      var key := KeyOf(kind, mac);
      assert key !in Seen(st.core, kind) ==> !EverSeen(st, key);
      forall u, k | AboutToCallDevice(st', u, k) && u != t ensures AboutToCallDevice(st, u, k) { }
    case CallDevice(t) =>
      var p := PhaseOf(st, t);
      assert p.notify ==> AboutToCallDevice(st, t, KeyOf(p.kind, p.mac));
      forall u, k | AboutToCallDevice(st', u, k) ensures u != t && AboutToCallDevice(st, u, k) { }
    case _ =>
      forall u, k ensures AboutToCallDevice(st', u, k) ==> AboutToCallDevice(st, u, k) { }
  }

  predicate AboutToCallLink(st: State, t: Tid, l: ActiveLink) {
    PhaseOf(st, t) == Published(l, true)
  }

  /** A link is announced at most once, and only if it was published. */
  ghost predicate LinkCallsOnce(st: State) {
    && DistinctKeys(st.linkCalls)
    && (forall l :: l in st.linkCalls ==> l in st.published)
    && (forall t, l :: AboutToCallLink(st, t, l) ==> l in st.published && !HasKey(st.linkCalls, l.key))
    && (forall t, u, l, l' :: AboutToCallLink(st, t, l) && AboutToCallLink(st, u, l') && l.key == l'.key ==> t == u)
  }

  lemma {:induction false} LinkCallsStay(st: State, a: Action)
    requires LinkCallsOnce(st) && KeysInStep(st) && Possible(st, a)
    ensures LinkCallsOnce(Do(st, a))
  {
    var st' := Do(st, a);
    match a
    case PublishLink(t) =>
      var l := PhaseOf(st, t).link;
      forall u, k | AboutToCallLink(st', u, k) && u != t ensures AboutToCallLink(st, u, k) { }
      if Publish(st.core, l).1 {
        assert st.stops == 0 && !HasKey(st.published, l.key);
        assert forall k :: k in st.published ==> k.key != l.key;
        assert !HasKey(st.linkCalls, l.key) by {
          forall i | 0 <= i < |st.linkCalls| ensures st.linkCalls[i].key != l.key {
            assert st.linkCalls[i] in st.published;
          }
        }
      }
    case CallLink(t) =>
      var p := PhaseOf(st, t);
      forall u, k | AboutToCallLink(st', u, k) ensures u != t && AboutToCallLink(st, u, k) { }
      if p.notify {
        assert AboutToCallLink(st, t, p.link);
        forall u, k | AboutToCallLink(st', u, k) ensures !HasKey(st'.linkCalls, k.key) {
          assert k.key != p.link.key;
          forall i | 0 <= i < |st'.linkCalls| ensures st'.linkCalls[i].key != k.key {
            assert i < |st.linkCalls| ==> st'.linkCalls[i] == st.linkCalls[i];
          }
        }
        forall i | 0 <= i < |st.linkCalls| ensures st.linkCalls[i].key != p.link.key { }
      }
    case _ =>
      forall u, k ensures AboutToCallLink(st', u, k) ==> AboutToCallLink(st, u, k) { }
  }

  /** What LINK_DROPPED has been told: nothing until the first stop, which tells it either
      everything that was published, in that order, or nothing; later stops add nothing. */
  predicate DropsInOrder(st: State) {
    && (st.stops == 0 ==> st.dropCalls == [] && st.dropping.None?)
    && (st.stops == 1 && st.dropping.Some? ==> st.dropCalls == [] && st.dropping.value == Infos(st.published))
    && (st.stops >= 1 && (st.stops >= 2 || st.dropping.None?) ==>
          (st.dropCalls == [] || st.dropCalls == Infos(st.published))
            && (st.dropping.Some? ==> st.dropping.value == []))
  }

  lemma {:induction false} DropsStay(st: State, a: Action)
    requires DropsInOrder(st) && KeysInStep(st) && Possible(st, a)
    ensures DropsInOrder(Do(st, a))
  {
    hide DistinctKeys, HasKey, Check;
    if !a.Stop? && !a.CallDropped? {
      OthersDropNothing(st, a);
      hide Do, Possible;
    } else if a.CallDropped? {
      assert [] + Infos(st.published) == Infos(st.published);
      assert st.dropCalls + [] == st.dropCalls;
    }
  }

  lemma {:induction false} OthersDropNothing(st: State, a: Action)
    requires Possible(st, a) && !a.Stop? && !a.CallDropped? && (st.stops > 0 ==> AllIdle(st))
    ensures
      var st' := Do(st, a);
      && st'.stops == st.stops && st'.dropping == st.dropping && st'.dropCalls == st.dropCalls
      && (st.stops > 0 ==> st'.published == st.published)
  {
    hide Check, Publish, KeyOf;
  }

  // ---- every run -------------------------------------------------------------------------------------

  ghost predicate Inv(st: State) {
    KeysInStep(st) && Accounted(st) && DeviceCallsOnce(st) && LinkCallsOnce(st) && DropsInOrder(st)
  }

  lemma {:induction false} InitialInv()
    ensures Inv(INITIAL)
  {
    forall t, fd: Fd ensures !HeldBy(INITIAL, t, fd) { }
  }

  lemma {:induction false} RunKeeps(st: State, actions: seq<Action>)
    requires Inv(st) && Run(st, actions).Some?
    ensures Inv(Run(st, actions).value)
    decreases |actions|
  {
    hide KeysInStep, Accounted, DeviceCallsOnce, LinkCallsOnce, DropsInOrder, Possible, Do;
    if actions != [] {
      var a := actions[0];
      KeysStay(st, a);
      AccountsStay(st, a);
      DeviceCallsStay(st, a);
      LinkCallsStay(st, a);
      DropsStay(st, a);
      RunKeeps(Do(st, a), actions[1..]);
    }
  }

  /** In every interleaving: the key set is the set of keys of the listed links, none of
      which repeats, and every opened descriptor is owned by exactly one of a listed link, a
      handshake about to publish, and the closed descriptors, among which it occurs once. */
  lemma {:induction false} DescriptorOwnership(actions: seq<Action>)
    requires Run(INITIAL, actions).Some?
    ensures
      var st := Run(INITIAL, actions).value;
      && (forall k :: k in st.core.keys <==> HasKey(st.core.links, k)) && DistinctKeys(st.core.links)
      && Accounted(st)
  {
    InitialInv();
    RunKeeps(INITIAL, actions);
  }

  /** After stop, every descriptor ever opened has been closed, exactly once. */
  lemma {:induction false} StopClosesEverything(actions: seq<Action>)
    requires Run(INITIAL, actions).Some? && Run(INITIAL, actions).value.stops > 0
    ensures
      var st := Run(INITIAL, actions).value;
      && (forall fd: Fd :: fd in st.closed <==> fd < st.nextFd) && Distinct(st.closed)
      && st.core.links == [] && st.core.keys == {}
  {
    InitialInv();
    RunKeeps(INITIAL, actions);
    var st := Run(INITIAL, actions).value;
    forall t, fd: Fd ensures !HeldBy(st, t, fd) { }
    forall fd: Fd ensures fd in st.closed <==> fd < st.nextFd {
      assert !OwnedByLink(st, fd) && !Held(st, fd);
    }
    forall k ensures k !in st.core.keys { assert !HasKey(st.core.links, k); }
  }

  // ---- a stop beside scanning threads --------------------------------------------------------------

  /** No link is listed, and every descriptor ever opened is closed. */
  predicate AllClosed(st: State) {
    st.core.links == [] && forall fd: Fd :: fd < st.nextFd ==> fd in st.closed
  }

  lemma {:induction false} ClosedByStop(st: State)
    requires Accounted(st) && AllIdle(st)
    ensures AllClosed(Stopped(st))
  {
    var fds := Fds(st.core.links);
    FdsAreOwned(st);
    assert forall t, fd: Fd :: !HeldBy(st, t, fd);
    assert forall fd: Fd :: fd < st.nextFd ==> fd in st.closed || fd in fds;
  }

  lemma {:induction false} StaysClosed(st: State, actions: seq<Action>)
    requires st.stops > 0 && AllClosed(st) && AllIdle(st) && Run(st, actions).Some?
    ensures AllClosed(Run(st, actions).value)
    decreases |actions|
  {
    hide AllClosed, AllIdle, Possible, Do, Stopped;
    if actions != [] {
      StepStaysClosed(st, actions[0]);
      StaysClosed(Do(st, actions[0]), actions[1..]);
    }
  }

  lemma {:induction false} StepStaysClosed(st: State, a: Action)
    requires st.stops > 0 && AllClosed(st) && AllIdle(st) && Possible(st, a)
    ensures Do(st, a).stops > 0 && AllClosed(Do(st, a)) && AllIdle(Do(st, a))
  {
    hide Infos;
    assert a.SetCallbacks? || a.Stop? || a.CallDropped?;
  }

  lemma {:induction false} RunStep(st: State, a: Action, more: seq<Action>)
    requires Possible(st, a)
    ensures Run(st, [a] + more) == Run(Do(st, a), more)
  {
    assert ([a] + more)[1..] == more;
  }

  function StepsToOpen(p: Phase): nat {
    match p
    case Idle => 5
    case Published(_, _) => 4
    case Scanning(_) => 3
    case Checked(_, _, _, attempt) => if attempt then 2 else 4
    case Attempting(_, _) => 1
    case Shaken(_) => 0
  }

  /** The thread holds an open descriptor, or can open one without an action of another thread:
      no link is listed, so every device it comes to is worth a handshake. */
  lemma {:induction false} OpensOne(st: State, t: Tid) returns (more: seq<Action>)
    requires st.core.keys == {} && st.nextFd !in st.closed && !PhaseOf(st, t).Idle?
    requires PhaseOf(st, t).Shaken? ==> var fd := PhaseOf(st, t).link.fd; fd < st.nextFd && fd !in st.closed
    ensures Run(st, more).Some? && !AllClosed(Run(st, more).value)
    decreases StepsToOpen(PhaseOf(st, t))
  {
    hide Run, AllClosed;
    match PhaseOf(st, t)
    case Shaken(_) =>
      more := [];
      NotClosed(st, st.threads[t].link.fd);
    case Attempting(_, _) =>
      var a := Handshake(t, Succeeded(""));
      RunStep(st, a, []);
      more := [a] + [];
      NotClosed(Do(st, a), st.nextFd);
    case Scanning(_) => more := OpensAfter(st, CheckDevice(t, ""));
    case Checked(_, _, _, _) => more := OpensAfter(st, CallDevice(t));
    case Published(_, _) => more := OpensAfter(st, CallLink(t));
  }

  lemma {:induction false} OpensAfter(st: State, a: Action) returns (more: seq<Action>)
    requires st.core.keys == {} && st.nextFd !in st.closed && Possible(st, a)
    requires a.CheckDevice? || a.CallDevice? || a.CallLink?
    ensures Run(st, more).Some? && !AllClosed(Run(st, more).value)
    decreases StepsToOpen(PhaseOf(st, a.t)), 0
  {
    hide Run, AllClosed;
    var rest := OpensOne(Do(st, a), a.t);
    RunStep(st, a, rest);
    more := [a] + rest;
  }

  lemma {:induction false} NotClosed(st: State, fd: Fd)
    requires fd < st.nextFd && fd !in st.closed
    ensures Run(st, []) == Some(st) && !AllClosed(st)
  {
  }

  /** What a thread holds, and what is opened next, is not closed by the stop. */
  lemma {:induction false} SurvivesStop(st: State, t: Tid)
    requires Accounted(st)
    ensures st.nextFd !in Stopped(st).closed
    ensures PhaseOf(st, t).Shaken? ==>
      var fd := PhaseOf(st, t).link.fd; fd < st.nextFd && fd !in Stopped(st).closed
  {
    FdsAreOwned(st);
    if PhaseOf(st, t).Shaken? {
      var fd := PhaseOf(st, t).link.fd;
      assert HeldBy(st, t, fd) && Held(st, fd);
    }
  }

  /** A stop at any time leaves every descriptor closed for good, whatever the threads do then,
      exactly when every scan has returned: a scan that goes on can open one more. */
  lemma {:induction false} StopIsFinalIff(actions: seq<Action>)
    requires Run(INITIAL, actions).Some?
    ensures
      var st := Run(INITIAL, actions).value;
      (forall more :: Run(Stopped(st), more).Some? ==> AllClosed(Run(Stopped(st), more).value)) <==> AllIdle(st)
  {
    hide Run, Stopped, AllClosed, KeysInStep, Accounted, DeviceCallsOnce, LinkCallsOnce, DropsInOrder;
    InitialInv();
    RunKeeps(INITIAL, actions);
    var st := Run(INITIAL, actions).value;
    StopClears(st);
    if AllIdle(st) {
      forall more | Run(Stopped(st), more).Some? ensures AllClosed(Run(Stopped(st), more).value) {
        ClosedByStop(st);
        StaysClosed(Stopped(st), more);
      }
    } else {
      var t :| t in st.threads && st.threads[t] != Idle;
      SurvivesStop(st, t);
      var more := OpensOne(Stopped(st), t);
    }
  }

  lemma {:induction false} StopClears(st: State)
    ensures Stopped(st).stops > 0 && Stopped(st).threads == st.threads
    ensures Stopped(st).core.keys == {} && Stopped(st).nextFd == st.nextFd
  {
  }

  /** Even then no descriptor is lost or closed twice: after a stop at any time each one is, as
      before, with one link, with one handshake about to publish, or closed once. */
  lemma {:induction false} StopLosesNothing(actions: seq<Action>, more: seq<Action>)
    requires Run(INITIAL, actions).Some? && Run(Stopped(Run(INITIAL, actions).value), more).Some?
    ensures Accounted(Run(Stopped(Run(INITIAL, actions).value), more).value)
  {
    hide Run, Stopped, Accounted;
    InitialInv();
    RunKeeps(INITIAL, actions);
    AccountedStop(Run(INITIAL, actions).value);
    RunAccounts(Stopped(Run(INITIAL, actions).value), more);
  }

  lemma {:induction false} RunAccounts(st: State, actions: seq<Action>)
    requires Accounted(st) && Run(st, actions).Some?
    ensures Accounted(Run(st, actions).value)
    decreases |actions|
  {
    hide Accounted, Possible, Do;
    if actions != [] {
      AccountsStay(st, actions[0]);
      RunAccounts(Do(st, actions[0]), actions[1..]);
    }
  }

  /** In every interleaving LINK_DISCOVERED fires at most once per key and DEVICE_DISCOVERED
      at most once per device key. */
  lemma {:induction false} DiscoveriesOnce(actions: seq<Action>)
    requires Run(INITIAL, actions).Some?
    ensures DistinctKeys(Run(INITIAL, actions).value.linkCalls)
    ensures DistinctCalls(Run(INITIAL, actions).value.deviceCalls)
  {
    InitialInv();
    RunKeeps(INITIAL, actions);
  }

  /** When the first stop comes to LINK_DROPPED and it is registered, it is told of every
      published link once, in the order of publication; if it is not, it is told nothing. */
  lemma {:induction false} DropsEveryLinkOnce(actions: seq<Action>)
    requires
      var st := Run(INITIAL, actions);
      st.Some? && st.value.stops == 1 && st.value.dropping.Some?
    ensures
      var st := Run(INITIAL, actions).value;
      Do(st, CallDropped).dropCalls == if st.core.callbacks.linkDropped then Infos(st.published) else []
  {
    hide KeysInStep, Accounted, DeviceCallsOnce, LinkCallsOnce, Run;
    InitialInv();
    RunKeeps(INITIAL, actions);
    var st := Run(INITIAL, actions).value;
    assert [] + Infos(st.published) == Infos(st.published);
  }

  /** A second stop drops nothing. */
  lemma {:induction false} SecondStopDropsNothing(actions: seq<Action>)
    requires
      var st := Run(INITIAL, actions);
      st.Some? && st.value.stops >= 2 && st.value.dropping.Some?
    ensures
      var st := Run(INITIAL, actions).value;
      Do(st, CallDropped).dropCalls == st.dropCalls
  {
    hide KeysInStep, Accounted, DeviceCallsOnce, LinkCallsOnce, Run;
    InitialInv();
    RunKeeps(INITIAL, actions);
    var st := Run(INITIAL, actions).value;
    assert st.dropCalls + [] == st.dropCalls;
  }
}
