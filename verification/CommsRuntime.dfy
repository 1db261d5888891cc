/**
 * The link runtime's fields and the sections its mutex guards, updated in place.  Each
 * section is proved to do to the fields what the transition system of CommsModel says.
 */
module CommsRuntime {
  import opened Common
  import opened CommsHistory
  import opened CommsModel

  const COMMS_MAX_LINKS := 20

  datatype Status = SUCCESS | ERROR | NOT_SUPPORTED

  datatype InstrumentType = INSTRUMENT_BLUETOOTH | INSTRUMENT_WIFI | INSTRUMENT_COMMS | INSTRUMENT_OTHER

  datatype CallbackType = DEVICE_DISCOVERED | LINK_DISCOVERED | LINK_DROPPED

  /** Which links a discover_links call of the given type reports. */
  predicate Matches(t: InstrumentType, l: ActiveLink) {
    && (t == INSTRUMENT_BLUETOOTH ==> l.kind == Bluetooth)
    && (t == INSTRUMENT_WIFI ==> l.kind == Wifi)
  }

  function Matching(t: InstrumentType, links: seq<ActiveLink>): seq<ActiveLink> {
    if links == [] then []
    else
      var rest := Matching(t, links[..|links| - 1]);
      var l := links[|links| - 1];
      if Matches(t, l) then rest + [l] else rest
  }

  predicate InOrder(links: seq<ActiveLink>, x: ActiveLink, y: ActiveLink) {
    exists a, b :: 0 <= a < b < |links| && links[a] == x && links[b] == y
  }

  /** Matching keeps the order, and exactly the links of the type. */
  lemma {:induction false} MatchingKeepsOrder(t: InstrumentType, links: seq<ActiveLink>)
    requires DistinctKeys(links)
    ensures forall l :: l in Matching(t, links) <==> l in links && Matches(t, l)
    ensures DistinctKeys(Matching(t, links))
    ensures forall i, j :: 0 <= i < j < |Matching(t, links)| ==>
      InOrder(links, Matching(t, links)[i], Matching(t, links)[j])
  {
    if links != [] {
      var n := |links| - 1;
      var init, last := links[..n], links[n];
      assert links == init + [last];
      MatchingKeepsOrder(t, init);
      var m, m' := Matching(t, init), Matching(t, links);
      forall i, j | 0 <= i < j < |m'|
        ensures InOrder(links, m'[i], m'[j])
        ensures m'[i].key != m'[j].key
      {
        if j < |m| {
          assert InOrder(init, m[i], m[j]);
          var a, b :| 0 <= a < b < |init| && init[a] == m[i] && init[b] == m[j];
          assert links[a] == m'[i] && links[b] == m'[j];
        } else {
          assert m'[i] in init;
          var a :| 0 <= a < |init| && init[a] == m'[i];
          assert links[a] == m'[i] && links[n] == m'[j];
        }
      }
    }
  }

  class Runtime {
    var activeLinks: seq<ActiveLink>
    var activeLinkKeys: set<string>
    var seenBluetoothDevices: set<string>
    var seenWifiDevices: set<string>
    var callbacks: Callbacks
    /** The descriptors closed so far. */
    ghost var closed: seq<Fd>

    ghost function View(): Core
      reads this
    {
      Core(activeLinks, activeLinkKeys, seenBluetoothDevices, seenWifiDevices, callbacks)
    }

    constructor ()
      ensures View() == INITIAL.core && closed == []
    {
      activeLinks, activeLinkKeys, seenBluetoothDevices, seenWifiDevices := [], {}, {}, {};
      callbacks, closed := NO_CALLBACKS, [];
    }

    method Close(fd: Fd)
      modifies this`closed
      ensures closed == old(closed) + [fd]
    {
      closed := closed + [fd];
    }

    /** The check of scan_bluetooth_links and scan_wifi_links. */
    method CheckDevice(kind: Kind, mac: string) returns (notify: bool, attempt: bool)
      modifies this`seenBluetoothDevices, this`seenWifiDevices
      ensures (View(), notify, attempt) == Check(old(View()), kind, mac)
      ensures attempt <==> DeviceKey(kind, mac) !in activeLinkKeys
    {
      notify := false;
      if kind == Bluetooth {
        var key := "bt|" + mac;
        if key !in seenBluetoothDevices {
          seenBluetoothDevices := seenBluetoothDevices + {key};
          notify := callbacks.bluetoothDevice;
        }
        assert seenBluetoothDevices == old(seenBluetoothDevices) + {key};
        attempt := key !in activeLinkKeys;
      } else {
        var key := "wifi|" + mac;
        if key !in seenWifiDevices {
          seenWifiDevices := seenWifiDevices + {key};
          notify := callbacks.wifiDevice;
        }
        assert seenWifiDevices == old(seenWifiDevices) + {key};
        attempt := key !in activeLinkKeys;
      }
    }

    /** publish_link: a link whose key is taken is closed, any other is listed. */
    method PublishLink(link: ActiveLink) returns (accepted: bool, notify: bool)
      modifies this`activeLinks, this`activeLinkKeys, this`closed
      ensures (View(), accepted) == Publish(old(View()), link)
      ensures accepted <==> link.key !in old(activeLinkKeys)
      ensures activeLinks == if accepted then old(activeLinks) + [link] else old(activeLinks)
      ensures notify == (accepted && callbacks.linkDiscovered)
      ensures closed == if accepted then old(closed) else old(closed) + [link.fd]
    {
      if link.key in activeLinkKeys {
        Close(link.fd);
        return false, false;
      }
      activeLinkKeys := activeLinkKeys + {link.key};
      activeLinks := activeLinks + [link];
      return true, callbacks.linkDiscovered;
    }

    /** The first locked section of stop: every link is described and closed, in order. */
    method DropLinks() returns (dropped: seq<LinkInfo>)
      modifies this`activeLinks, this`activeLinkKeys, this`closed
      ensures View() == Clear(old(View()))
      ensures dropped == Infos(old(activeLinks))
      ensures closed == old(closed) + Fds(old(activeLinks))
    {
      dropped := [];
      for i := 0 to |activeLinks|
        invariant activeLinks == old(activeLinks) && activeLinkKeys == old(activeLinkKeys)
        invariant |dropped| == i && forall k :: 0 <= k < i ==> dropped[k] == InfoOf(activeLinks[k])
        invariant |closed| == |old(closed)| + i && old(closed) <= closed
        invariant forall k :: 0 <= k < i ==> closed[|old(closed)| + k] == activeLinks[k].fd
      {
        dropped := dropped + [InfoOf(activeLinks[i])];
        Close(activeLinks[i].fd);
      }
      assert dropped == Infos(activeLinks);
      assert closed == old(closed) + Fds(activeLinks);
      activeLinks, activeLinkKeys := [], {};
    }

    /** discover_links after its scan: the first links of the type, as many as fit. */
    method DiscoverLinks(t: InstrumentType) returns (status: Status, links: seq<ActiveLink>)
      ensures status == NOT_SUPPORTED <==> t == INSTRUMENT_OTHER && activeLinks != []
      ensures status == NOT_SUPPORTED || status == SUCCESS
      ensures status == SUCCESS ==>
        var all := Matching(t, activeLinks);
        links == if |all| <= COMMS_MAX_LINKS then all else all[..COMMS_MAX_LINKS]
    {
      links := [];
      var i := 0;
      while i < |activeLinks|
        invariant 0 <= i <= |activeLinks|
        invariant t == INSTRUMENT_OTHER ==> i == 0
        invariant links == Matching(t, activeLinks[..i]) && |links| <= COMMS_MAX_LINKS
      {
        var l := activeLinks[i];
        assert activeLinks[..i + 1][..i] == activeLinks[..i];
        if t == INSTRUMENT_BLUETOOTH && l.kind != Bluetooth {
          i := i + 1;
          continue;
        }
        if t == INSTRUMENT_WIFI && l.kind != Wifi {
          i := i + 1;
          continue;
        }
        if t == INSTRUMENT_OTHER {
          return NOT_SUPPORTED, [];
        }
        if |links| >= COMMS_MAX_LINKS {
          MatchingGrows(t, activeLinks, i + 1);
          break;
        }
        links := links + [l];
        i := i + 1;
      }
      status := SUCCESS;
      if i == |activeLinks| {
        assert activeLinks[..i] == activeLinks;
      }
    }

    /** Which registrations are supported; registering replaces the callback. */
    method RegisterCallback(t: InstrumentType, c: CallbackType, input: Option<bool>) returns (status: Status)
      modifies this`callbacks
      ensures status == ERROR <==> input.None?
      ensures status == SUCCESS <==> input.Some? && Supported(t, c)
      ensures status != ERROR ==> callbacks == After(old(callbacks), Registration(t, c, input.value))
      ensures status != SUCCESS ==> callbacks == old(callbacks)
      ensures status == SUCCESS ==> callbacks == With(old(callbacks), t, c, input.value)
    {
      if input.None? {
        return ERROR;
      }
      match t {
        case INSTRUMENT_BLUETOOTH =>
          if c != DEVICE_DISCOVERED { return NOT_SUPPORTED; }
          callbacks := callbacks.(bluetoothDevice := input.value);
        case INSTRUMENT_WIFI =>
          if c != DEVICE_DISCOVERED { return NOT_SUPPORTED; }
          callbacks := callbacks.(wifiDevice := input.value);
        case INSTRUMENT_COMMS =>
          if c == LINK_DISCOVERED {
            callbacks := callbacks.(linkDiscovered := input.value);
          } else if c == LINK_DROPPED {
            callbacks := callbacks.(linkDropped := input.value);
          } else {
            return NOT_SUPPORTED;
          }
        case INSTRUMENT_OTHER => return NOT_SUPPORTED;
      }
      return SUCCESS;
    }
  }

  predicate Supported(t: InstrumentType, c: CallbackType) {
    || (t == INSTRUMENT_COMMS && c != DEVICE_DISCOVERED)
    || ((t == INSTRUMENT_BLUETOOTH || t == INSTRUMENT_WIFI) && c == DEVICE_DISCOVERED)
  }

  /** The callback of the type, set or cleared. */
  function With(cb: Callbacks, t: InstrumentType, c: CallbackType, on: bool): Callbacks {
    if t == INSTRUMENT_BLUETOOTH then cb.(bluetoothDevice := on)
    else if t == INSTRUMENT_WIFI then cb.(wifiDevice := on)
    else if c == LINK_DISCOVERED then cb.(linkDiscovered := on)
    else cb.(linkDropped := on)
  }

  /** A call of register_callback, or of unregister_callback, which clears. */
  datatype Registration = Registration(t: InstrumentType, c: CallbackType, on: bool)

  function After(cb: Callbacks, r: Registration): Callbacks {
    if Supported(r.t, r.c) then With(cb, r.t, r.c, r.on) else cb
  }

  function Registered(calls: seq<Registration>): Callbacks {
    if calls == [] then NO_CALLBACKS else After(Registered(calls[..|calls| - 1]), calls[|calls| - 1])
  }

  /** What the last call for the instrument and the event has left; nothing, if there was none. */
  predicate LastFor(calls: seq<Registration>, t: InstrumentType, c: CallbackType) {
    calls != [] &&
    var last := calls[|calls| - 1];
    if last.t == t && last.c == c then last.on else LastFor(calls[..|calls| - 1], t, c)
  }

  /** Each of the four callbacks is what was registered for it last. */
  lemma {:induction false} LastRegistrationCounts(calls: seq<Registration>)
    ensures Registered(calls) == Callbacks(
              LastFor(calls, INSTRUMENT_BLUETOOTH, DEVICE_DISCOVERED),
              LastFor(calls, INSTRUMENT_WIFI, DEVICE_DISCOVERED),
              LastFor(calls, INSTRUMENT_COMMS, LINK_DISCOVERED), LastFor(calls, INSTRUMENT_COMMS, LINK_DROPPED))
    decreases |calls|
  {
    if calls != [] {
      LastRegistrationCounts(calls[..|calls| - 1]);
    }
  }

  lemma {:induction false} MatchingIs(t: InstrumentType, links: seq<ActiveLink>, l: ActiveLink)
    ensures l in Matching(t, links) <==> l in links && Matches(t, l)
    decreases |links|
  {
    if links != [] {
      MatchingIs(t, links[..|links| - 1], l);
      assert links == links[..|links| - 1] + [links[|links| - 1]];
    }
  }

  /** Of the links listed in any run, those of the Bluetooth instrument are the ones whose keys begin
      with "bt|", those of the Wi-Fi instrument the ones whose keys begin with "wifi|", and those
      of the comms instrument are all. */
  lemma {:induction false} MatchingByKey(actions: seq<Action>, l: ActiveLink)
    requires Run(INITIAL, actions).Some?
    ensures
      var links := Run(INITIAL, actions).value.core.links;
      && (l in Matching(INSTRUMENT_BLUETOOTH, links) <==> l in links && "bt|" <= l.key)
      && (l in Matching(INSTRUMENT_WIFI, links) <==> l in links && "wifi|" <= l.key)
      && (l in Matching(INSTRUMENT_COMMS, links) <==> l in links)
  {
    hide Run, Matching;
    var links := Run(INITIAL, actions).value.core.links;
    MatchingIs(INSTRUMENT_BLUETOOTH, links, l);
    MatchingIs(INSTRUMENT_WIFI, links, l);
    MatchingIs(INSTRUMENT_COMMS, links, l);
    if l in links {
      KindIsInKey(actions, l);
    }
  }

  /** What matches among the first links stays the beginning of what matches among all. */
  lemma {:induction false} MatchingGrows(t: InstrumentType, links: seq<ActiveLink>, n: nat)
    requires n <= |links|
    ensures Matching(t, links[..n]) <= Matching(t, links)
    decreases |links| - n
  {
    if n == |links| {
      assert links[..n] == links;
    } else {
      assert links[..n + 1][..n] == links[..n];
      MatchingGrows(t, links, n + 1);
    }
  }
}
