/**
 * What the link runtime does with every device and every link that its scans come to, read off
 * the runs: which links are listed and which closed, and which are announced.
 */
module CommsHistory {
  import opened Common
  import opened CommsModel

  /** The text under which a device or its link is known. */
  function DeviceKey(kind: Kind, mac: string): string {
    match kind
    case Bluetooth => "bt|" + mac
    case Wifi => "wifi|" + mac
  }

  lemma {:induction false} ReachedInv(actions: seq<Action>)
    requires Run(INITIAL, actions).Some?
    ensures Inv(Run(INITIAL, actions).value)
  {
    InitialInv();
    RunKeeps(INITIAL, actions);
  }

  // ---- links ---------------------------------------------------------------------------------

  /** A link that a handshake has made is closed exactly if one with its key is listed, and is listed
      last otherwise; either way its key is listed then. */
  lemma {:induction false} ListedOrClosed(actions: seq<Action>, t: Tid, l: ActiveLink)
    requires Run(INITIAL, actions).Some? && PhaseOf(Run(INITIAL, actions).value, t) == Shaken(l)
    ensures
      var (st, st') := (Run(INITIAL, actions).value, Do(Run(INITIAL, actions).value, PublishLink(t)));
      && l.fd !in st.closed && (l.fd in st'.closed <==> HasKey(st.core.links, l.key))
      && st'.core.links == (if HasKey(st.core.links, l.key) then st.core.links else st.core.links + [l])
      && HasKey(st'.core.links, l.key)
  {
    hide Run, DeviceCallsOnce, LinkCallsOnce, DropsInOrder;
    ReachedInv(actions);
    var st := Run(INITIAL, actions).value;
    var st' := Do(st, PublishLink(t));
    assert HeldBy(st, t, l.fd) && Held(st, l.fd);
    if !HasKey(st.core.links, l.key) {
      assert st'.core.links[|st.core.links|].key == l.key;
    }
  }

  /** Whether t, which has listed the link, has made its call or not: what LINK_DISCOVERED is told
      of the link, if it was registered when the link was listed, and if it was not. */
  ghost predicate LinkTold(st: State, t: Tid, l: ActiveLink, registered: bool, done: bool) {
    && l in st.published
    && (!done ==> PhaseOf(st, t) == Published(l, registered))
    && (done && registered ==> l in st.linkCalls)
    && (!(done && registered) ==> !HasKey(st.linkCalls, l.key))
    && (forall u, k :: AboutToCallLink(st, u, k) && k.key == l.key ==> u == t && !done)
  }

  lemma {:induction false} StepTells(st: State, a: Action, t: Tid, l: ActiveLink, registered: bool, done: bool)
    requires KeysInStep(st) && LinkTold(st, t, l, registered, done) && Possible(st, a)
    ensures LinkTold(Do(st, a), t, l, registered, done || a == CallLink(t))
  {
    var st' := Do(st, a);
    match a
    case PublishLink(u) =>
      var k := PhaseOf(st, u).link;
      PublishedKeys(st.published, l);
      assert st.stops == 0;
      forall w, x | AboutToCallLink(st', w, x) && w != u ensures AboutToCallLink(st, w, x) { }
    case CallLink(u) =>
      forall w, x | AboutToCallLink(st', w, x) ensures w != u && AboutToCallLink(st, w, x) { }
      var p := PhaseOf(st, u);
      if p.notify {
        assert AboutToCallLink(st, u, p.link);
        KeysOfOneMore(st.linkCalls, p.link, l.key);
      }
    case _ =>
      forall w, x ensures AboutToCallLink(st', w, x) ==> AboutToCallLink(st, w, x) { }
  }

  lemma {:induction false} PublishedKeys(links: seq<ActiveLink>, l: ActiveLink)
    ensures l in links ==> HasKey(links, l.key)
  {
    if i :| 0 <= i < |links| && links[i] == l {
      assert links[i].key == l.key;
    }
  }

  lemma {:induction false} KeysOfOneMore(links: seq<ActiveLink>, l: ActiveLink, key: string)
    ensures HasKey(links + [l], key) <==> HasKey(links, key) || l.key == key
    ensures forall k :: k in links + [l] <==> k in links || k == l
  {
    assert (links + [l])[|links|] == l;
    if i :| 0 <= i < |links| && links[i].key == key {
      assert (links + [l])[i].key == key;
    }
  }

  lemma {:induction false} RunTells(st: State, actions: seq<Action>, t: Tid, l: ActiveLink, registered: bool,
        done: bool)
    requires Inv(st) && LinkTold(st, t, l, registered, done) && Run(st, actions).Some?
    ensures LinkTold(Run(st, actions).value, t, l, registered, done || CallLink(t) in actions)
    decreases |actions|
  {
    hide Inv, LinkTold, Possible, Do;
    if actions != [] {
      var a := actions[0];
      StepKeeps(st, a);
      StepTells(st, a, t, l, registered, done) by { InvParts(st); }
      RunTells(Do(st, a), actions[1..], t, l, registered, done || a == CallLink(t));
      assert CallLink(t) in actions <==> a == CallLink(t) || CallLink(t) in actions[1..];
    }
  }

  lemma {:induction false} InvParts(st: State)
    requires Inv(st)
    ensures KeysInStep(st) && DeviceCallsOnce(st) && LinkCallsOnce(st)
  {
  }

  lemma {:induction false} StepKeeps(st: State, a: Action)
    requires Inv(st) && Possible(st, a)
    ensures Inv(Do(st, a))
  {
    hide KeysInStep, Accounted, DeviceCallsOnce, LinkCallsOnce, DropsInOrder, Possible, Do;
    KeysStay(st, a);
    AccountsStay(st, a);
    DeviceCallsStay(st, a);
    LinkCallsStay(st, a);
    DropsStay(st, a);
  }

  /** A listed link is announced once its thread has made the call, whatever the others do meanwhile,
      exactly if LINK_DISCOVERED was registered when it was listed. */
  lemma {:induction false} AnnouncedIffRegistered(actions: seq<Action>, t: Tid, l: ActiveLink, more: seq<Action>)
    requires Run(INITIAL, actions).Some? && PhaseOf(Run(INITIAL, actions).value, t) == Shaken(l)
    requires !HasKey(Run(INITIAL, actions).value.core.links, l.key)
    requires Run(Do(Run(INITIAL, actions).value, PublishLink(t)), more).Some? && CallLink(t) in more
    ensures
      var st := Run(INITIAL, actions).value;
      l in Run(Do(st, PublishLink(t)), more).value.linkCalls <==> st.core.callbacks.linkDiscovered
  {
    hide Run, Accounted, DeviceCallsOnce, DropsInOrder;
    ReachedInv(actions);
    var st := Run(INITIAL, actions).value;
    var st', on := Do(st, PublishLink(t)), st.core.callbacks.linkDiscovered;
    assert Possible(st, PublishLink(t));
    StepKeeps(st, PublishLink(t));
    assert st.stops == 0 && st'.published == st.published + [l];
    NeverCalled(st, l);
    assert forall u, k :: u != t ==> (AboutToCallLink(st', u, k) <==> AboutToCallLink(st, u, k));
    assert LinkTold(st', t, l, on, false);
    RunTells(st', more, t, l, on, false);
    var end := Run(st', more).value;
    assert l in end.linkCalls ==> HasKey(end.linkCalls, l.key);
  }

  lemma {:induction false} NeverCalled(st: State, l: ActiveLink)
    requires LinkCallsOnce(st) && st.core.links == st.published && !HasKey(st.published, l.key)
    ensures !HasKey(st.linkCalls, l.key) && forall k :: k in st.published ==> k.key != l.key
  {
    forall i | 0 <= i < |st.linkCalls| ensures st.linkCalls[i].key != l.key {
      assert st.linkCalls[i] in st.published;
    }
  }

  // ---- devices -------------------------------------------------------------------------------

  /** The devices that a run has checked. */
  ghost function CheckedIn(st: State, actions: seq<Action>): set<(Kind, string)>
    requires Run(st, actions).Some?
    decreases |actions|
  {
    if actions == [] then {}
    else
      var a := actions[0];
      (if a.CheckDevice? then {(PhaseOf(st, a.t).kind, a.mac)} else {}) + CheckedIn(Do(st, a), actions[1..])
  }

  predicate IsSeen(st: State, kind: Kind, mac: string) {
    match kind
    case Bluetooth => "bt|" + mac in st.core.seenBluetooth
    case Wifi => "wifi|" + mac in st.core.seenWifi
  }

  lemma {:induction false} SeenIffChecked(st: State, actions: seq<Action>, kind: Kind, mac: string)
    requires Run(st, actions).Some?
    ensures
      IsSeen(Run(st, actions).value, kind, mac)
      <==> IsSeen(st, kind, mac) || (kind, mac) in CheckedIn(st, actions)
    decreases |actions|
  {
    hide Possible, Do;
    if actions != [] {
      StepSees(st, actions[0], kind, mac);
      SeenIffChecked(Do(st, actions[0]), actions[1..], kind, mac);
    }
  }

  lemma {:induction false} StepSees(st: State, a: Action, kind: Kind, mac: string)
    requires Possible(st, a)
    ensures
      IsSeen(Do(st, a), kind, mac)
      <==> IsSeen(st, kind, mac) || (a.CheckDevice? && (PhaseOf(st, a.t).kind, a.mac) == (kind, mac))
  {
    if a.CheckDevice? {
      assert ("bt|" + a.mac)[3..] == a.mac && ("bt|" + mac)[3..] == mac;
      assert ("wifi|" + a.mac)[5..] == a.mac && ("wifi|" + mac)[5..] == mac;
    }
  }

  /** A check leads to a handshake exactly if no link of the device is listed. */
  lemma {:induction false} AttemptedIffUnlisted(actions: seq<Action>, t: Tid, kind: Kind, mac: string)
    requires Run(INITIAL, actions).Some? && PhaseOf(Run(INITIAL, actions).value, t) == Scanning(kind)
    ensures
      var st := Run(INITIAL, actions).value;
      PhaseOf(Do(Do(st, CheckDevice(t, mac)), CallDevice(t)), t) ==
      if HasKey(st.core.links, DeviceKey(kind, mac)) then Scanning(kind) else Attempting(kind, mac)
  {
    hide Run, DeviceCallsOnce, LinkCallsOnce, DropsInOrder, Accounted;
    ReachedInv(actions);
  }

  /** What the device callback is told of a device that t is the first to check. */
  ghost predicate DeviceTold(st: State, t: Tid, key: string, registered: bool, done: bool) {
    && EverSeen(st, key)
    && (!done && registered ==> AboutToCallDevice(st, t, key))
    && (!done ==> PhaseOf(st, t).Checked?)
    && (key in st.deviceCalls <==> done && registered)
    && (forall u :: AboutToCallDevice(st, u, key) ==> u == t && !done && registered)
  }

  lemma {:induction false} StepTellsDevice(st: State, a: Action, t: Tid, key: string, registered: bool, done: bool)
    requires DeviceCallsOnce(st) && DeviceTold(st, t, key, registered, done) && Possible(st, a)
    ensures DeviceTold(Do(st, a), t, key, registered, done || a == CallDevice(t))
  {
    var st' := Do(st, a);
    match a
    case CheckDevice(u, mac) =>
      KindsDiffer(PhaseOf(st, u).kind, mac);
      forall w | AboutToCallDevice(st', w, key) && w != u ensures AboutToCallDevice(st, w, key) { }
    case CallDevice(u) =>
      forall w | AboutToCallDevice(st', w, key) ensures w != u && AboutToCallDevice(st, w, key) { }
      var p := PhaseOf(st, u);
      assert p.notify && KeyOf(p.kind, p.mac) == key ==> AboutToCallDevice(st, u, key);
    case _ =>
      forall w ensures AboutToCallDevice(st', w, key) ==> AboutToCallDevice(st, w, key) { }
  }

  lemma {:induction false} RunTellsDevice(st: State, actions: seq<Action>, t: Tid, key: string, registered: bool,
        done: bool)
    requires Inv(st) && DeviceTold(st, t, key, registered, done) && Run(st, actions).Some?
    ensures DeviceTold(Run(st, actions).value, t, key, registered, done || CallDevice(t) in actions)
    decreases |actions|
  {
    hide Inv, DeviceTold, Possible, Do;
    if actions != [] {
      var a := actions[0];
      StepKeeps(st, a);
      StepTellsDevice(st, a, t, key, registered, done) by { InvParts(st); }
      RunTellsDevice(Do(st, a), actions[1..], t, key, registered, done || a == CallDevice(t));
      assert CallDevice(t) in actions <==> a == CallDevice(t) || CallDevice(t) in actions[1..];
    }
  }

  /** A device is announced once the thread that was the first to check it has made its call,
      whatever the others do meanwhile, exactly if the callback of its kind was registered then. */
  lemma {:induction false} DeviceAnnouncedIff(actions: seq<Action>, t: Tid, kind: Kind, mac: string, more: seq<Action>)
    requires Run(INITIAL, actions).Some? && PhaseOf(Run(INITIAL, actions).value, t) == Scanning(kind)
    requires (kind, mac) !in CheckedIn(INITIAL, actions)
    requires Run(Do(Run(INITIAL, actions).value, CheckDevice(t, mac)), more).Some? && CallDevice(t) in more
    ensures
      var st := Run(INITIAL, actions).value;
      var end := Run(Do(st, CheckDevice(t, mac)), more).value;
      DeviceKey(kind, mac) in end.deviceCalls <==>
      match kind
      case Bluetooth => st.core.callbacks.bluetoothDevice
      case Wifi => st.core.callbacks.wifiDevice
  {
    hide Run, Accounted, LinkCallsOnce, DropsInOrder, CheckedIn;
    ReachedInv(actions);
    SeenIffChecked(INITIAL, actions, kind, mac);
    var st := Run(INITIAL, actions).value;
    var st', key := Do(st, CheckDevice(t, mac)), DeviceKey(kind, mac);
    var on := if kind == Bluetooth then st.core.callbacks.bluetoothDevice else st.core.callbacks.wifiDevice;
    assert Possible(st, CheckDevice(t, mac));
    StepKeeps(st, CheckDevice(t, mac));
    KindsDiffer(kind, mac);
    assert !EverSeen(st, key);
    assert forall u :: u != t ==> (AboutToCallDevice(st', u, key) <==> AboutToCallDevice(st, u, key));
    assert DeviceTold(st', t, key, on, false);
    RunTellsDevice(st', more, t, key, on, false);
  }

  /** A scan that comes to a device and shakes hands with it leaves a link of the device listed. */
  lemma {:induction false} ScanListsDevice(actions: seq<Action>, t: Tid, kind: Kind, mac: string, linkID: string)
    requires Run(INITIAL, actions).Some? && PhaseOf(Run(INITIAL, actions).value, t) == Scanning(kind)
    requires !HasKey(Run(INITIAL, actions).value.core.links, DeviceKey(kind, mac))
    ensures
      var st := Run(INITIAL, actions).value;
      var end := Run(st, [CheckDevice(t, mac), CallDevice(t), Handshake(t, Succeeded(linkID)), PublishLink(t)]);
      && end.Some?
      && end.value.core.links == st.core.links + [ActiveLink(DeviceKey(kind, mac), linkID, mac, kind, st.nextFd)]
  {
    hide Run, DeviceCallsOnce, LinkCallsOnce, DropsInOrder, Accounted;
    ReachedInv(actions);
    var st := Run(INITIAL, actions).value;
    var st1 := Do(st, CheckDevice(t, mac));
    var st2 := Do(st1, CallDevice(t));
    var st3 := Do(st2, Handshake(t, Succeeded(linkID)));
    var st4 := Do(st3, PublishLink(t));
    RunStep(st3, PublishLink(t), []);
    assert Run(st4, []) == Some(st4) by { RunsNothing(st4); }
    RunStep(st2, Handshake(t, Succeeded(linkID)), [PublishLink(t)]);
    RunStep(st1, CallDevice(t), [Handshake(t, Succeeded(linkID)), PublishLink(t)]);
    RunStep(st, CheckDevice(t, mac), [CallDevice(t), Handshake(t, Succeeded(linkID)), PublishLink(t)]);
    assert [PublishLink(t)] + [] == [PublishLink(t)];
    assert [Handshake(t, Succeeded(linkID))] + [PublishLink(t)] == [Handshake(t, Succeeded(linkID)), PublishLink(t)];
    assert [CallDevice(t)] + [Handshake(t, Succeeded(linkID)), PublishLink(t)]
      == [CallDevice(t), Handshake(t, Succeeded(linkID)), PublishLink(t)];
    assert [CheckDevice(t, mac)] + [CallDevice(t), Handshake(t, Succeeded(linkID)), PublishLink(t)]
      == [CheckDevice(t, mac), CallDevice(t), Handshake(t, Succeeded(linkID)), PublishLink(t)];
  }

  lemma {:induction false} RunsNothing(st: State)
    ensures Run(st, []) == Some(st)
  {
  }

  // ---- kinds ---------------------------------------------------------------------------------

  predicate Keyed(l: ActiveLink) {
    l.key == DeviceKey(l.kind, l.devID)
  }

  ghost predicate AllKeyed(st: State) {
    && (forall l :: l in st.core.links ==> Keyed(l))
    && (forall t :: PhaseOf(st, t).Shaken? || PhaseOf(st, t).Published? ==> Keyed(PhaseOf(st, t).link))
  }

  lemma {:induction false} RunKeys(st: State, actions: seq<Action>)
    requires AllKeyed(st) && Run(st, actions).Some?
    ensures AllKeyed(Run(st, actions).value)
    decreases |actions|
  {
    hide AllKeyed, Possible, Do;
    if actions != [] {
      StepKeys(st, actions[0]);
      RunKeys(Do(st, actions[0]), actions[1..]);
    }
  }

  lemma {:induction false} StepKeys(st: State, a: Action)
    requires AllKeyed(st) && Possible(st, a)
    ensures AllKeyed(Do(st, a))
  {
    hide Infos, Fds;
    var st' := Do(st, a);
    forall t | PhaseOf(st', t).Shaken? || PhaseOf(st', t).Published? ensures Keyed(PhaseOf(st', t).link) {
      assert PhaseOf(st, t).Shaken? || PhaseOf(st, t).Published? ==> Keyed(PhaseOf(st, t).link);
    }
    if a.PublishLink? {
      assert Keyed(PhaseOf(st, a.t).link);
      forall l | l in st'.core.links ensures Keyed(l) {
        assert l in st.core.links || l == PhaseOf(st, a.t).link;
      }
    }
  }

  /** Every listed link carries its kind in its key: a link is a Bluetooth link exactly if its key
      begins with "bt|", and a Wi-Fi link exactly if it begins with "wifi|". */
  lemma {:induction false} KindIsInKey(actions: seq<Action>, l: ActiveLink)
    requires Run(INITIAL, actions).Some? && l in Run(INITIAL, actions).value.core.links
    ensures (l.kind == Bluetooth <==> "bt|" <= l.key) && (l.kind == Wifi <==> "wifi|" <= l.key)
    ensures l.key == (if l.kind == Bluetooth then "bt|" else "wifi|") + l.devID
  {
    hide Run;
    RunKeys(INITIAL, actions);
    assert Keyed(l);
    KindsDiffer(l.kind, l.devID);
  }
}
