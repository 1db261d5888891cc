/**
 * The connection loops of the Bluetooth and the Wi-Fi adapter: poll, connect and back off, at
 * most five times and until a deadline. Times are in milliseconds.
 */
module RetryLoop {
  import opened Common

  const MAX_RETRIES := 5

  /** What connect reports: success, EISCONN, a refusal that is retried, or any other error. */
  datatype Result = Connected | AlreadyConnected | Refused | Failed

  /** What the world does during one turn of a loop: how long poll and connect would take without
      a timeout, and what they report. */
  datatype Turn = Turn(pollTakes: nat, ready: bool, connectTakes: nat, result: Result)

  /** What a thread reads in the adapter's connected flag at a time. */
  type Flag = int -> bool

  function Unset(now: int): bool {
    false
  }

  /** The blocking calls of a run, each with the time at which it starts. */
  datatype Call =
    | Poll(at: int, timeout: int)
    | Connect(at: int, timeout: int, result: Result)
    | Sleep(at: int, time: int, retry: nat)
    | Accept(at: int, timeout: int, accepted: bool)

  datatype Outcome = Outcome(ok: bool, end: int, calls: seq<Call>)

  /** The client side of the link, or the side channel that asks the peer to set it up and that
      gives up when the flag says that the link is there. */
  datatype Kind = Peer | Request

  function Min(a: int, b: int): int {
    if a < b then a else b
  }

  /** How long a poll takes; a negative timeout means that it waits for the socket only. */
  function PollTime(t: Turn, timeout: int): (time: nat)
    ensures 0 <= timeout ==> time <= timeout
  {
    if timeout < 0 then t.pollTakes else Min(t.pollTakes, timeout)
  }

  function Backoff(retry: nat, remaining: int): int
  {
    Min(remaining / 2, 100 * PowerOfTwo(retry))
  }

  function PowerOfTwo(n: nat): (p: nat)
    ensures p > 0
  {
    if n == 0 then 1 else 2 * PowerOfTwo(n - 1)
  }

  // ---- the loops as a function -------------------------------------------------------------

  datatype Next = Done(o: Outcome) | Again(now: int, calls: seq<Call>)

  /** What follows a ready socket. */
  function TryConnect(kind: Kind, deadline: int, t: Turn, now: int, retry: nat, calls: seq<Call>): Next {
    if deadline - now <= 0 then Done(Outcome(false, now, calls))
    else
      var after := now + Min(t.connectTakes, deadline - now);
      var tried := calls + [Connect(now, deadline - now, t.result)];
      if t.result == Connected || (t.result == AlreadyConnected && kind == Request)
        then Done(Outcome(true, after, tried))
      else if t.result != Refused || deadline - after <= 0 then Done(Outcome(false, after, tried))
      else
        var backoff := Backoff(retry + 1, deadline - after);
        Again(after + backoff, tried + [Sleep(after, backoff, retry + 1)])
  }

  /** One turn of a loop. */
  function TakeTurn(kind: Kind, deadline: int, t: Turn, flag: Flag, now: int, retry: nat, calls: seq<Call>): Next {
    if kind == Request && flag(now) then Done(Outcome(true, now, calls))
    else if deadline - now <= 0 then Done(Outcome(false, now, calls))
    else
      var timeout := ToInt32(deadline - now);
      var after := now + PollTime(t, timeout);
      var polled := calls + [Poll(now, timeout)];
      if t.ready then TryConnect(kind, deadline, t, after, retry, polled)
      else if kind == Peer then Done(Outcome(false, after, polled))
      else Again(after, polled)
  }

  function Run(kind: Kind, deadline: int, world: nat -> Turn, flag: Flag, now: int, retry: nat,
        calls: seq<Call>): Outcome
    decreases MAX_RETRIES - retry
  {
    if retry >= MAX_RETRIES then Outcome(kind == Request && flag(now), now, calls)
    else
      var next := TakeTurn(kind, deadline, world(retry), flag, now, retry, calls);
      if next.Done? then next.o else Run(kind, deadline, world, flag, next.now, retry + 1, next.calls)
  }

  lemma {:induction false} RunUnfolds(kind: Kind, deadline: int, world: nat -> Turn, flag: Flag, now: int, retry: nat,
        calls: seq<Call>)
    ensures
      Run(kind, deadline, world, flag, now, retry, calls) ==
      if retry >= MAX_RETRIES then Outcome(kind == Request && flag(now), now, calls)
      else
        var next := TakeTurn(kind, deadline, world(retry), flag, now, retry, calls);
        if next.Done? then next.o else Run(kind, deadline, world, flag, next.now, retry + 1, next.calls)
  {
  }

  // ---- conn of the Bluetooth adapter -------------------------------------------------------

  /** What the world does for ListenForPeer: whether bind and listen succeed, how long accept
      would take without a timeout, and whether somebody calls. */
  datatype Incoming = Incoming(bound: bool, takes: nat, accepted: bool)

  function Listen(deadline: int, incoming: Incoming, now: int): Outcome {
    var remaining := deadline - now;
    if remaining <= 0 || !incoming.bound then Outcome(false, now, [])
    else Outcome(incoming.accepted, now + Min(incoming.takes, remaining), [Accept(now, remaining, incoming.accepted)])
  }

  /** The connected flag at a time: set when the attempt o has succeeded, and cleared by every
      interrupt that bratislavaDestroy has sent since. */
  predicate StillSet(o: Outcome, interrupts: set<int>, now: int) {
    o.ok && o.end <= now && forall i :: i in interrupts ==> !(o.end <= i <= now)
  }

  function FlagAfter(o: Outcome, interrupts: set<int>): Flag {
    (now: int) => StillSet(o, interrupts, now)
  }

  /** What the world does during one conn, and when its two threads begin. */
  datatype Bluetooth = Bluetooth(listener: bool, incoming: Incoming, peer: nat -> Turn, request: nat -> Turn,
                                 begin: int, requestBegin: int, interrupts: set<int>)

  /** The thread that called conn: it listens or connects. */
  function BluetoothMain(w: Bluetooth, deadline: int): Outcome {
    if w.listener then Listen(deadline, w.incoming, w.begin)
    else Run(Peer, deadline, w.peer, Unset, w.begin, 0, [])
  }

  /** The request thread, which watches the flag that the other one sets. */
  function BluetoothRequest(w: Bluetooth, deadline: int): Outcome {
    Run(Request, deadline, w.request, FlagAfter(BluetoothMain(w, deadline), w.interrupts), w.requestBegin, 0, [])
  }

  /** Both threads are joined. */
  function BluetoothEnd(w: Bluetooth, deadline: int): int {
    var (main, request) := (BluetoothMain(w, deadline), BluetoothRequest(w, deadline));
    if main.end < request.end then request.end else main.end
  }

  // ---- conn of the Wi-Fi adapter ------------------------------------------------------------

  datatype Device = Router | Client | Unsupported

  /** One send or receive call of the exchange of addresses. */
  datatype Transfer = Transfer(takes: nat, ok: bool)

  /** The address, the network name and the port are sent, and a port is received. */
  const TRANSFERS := 4

  datatype Wifi = Wifi(device: Device, incoming: Incoming, gateway: bool, request: nat -> Turn,
                       exchange: nat -> Transfer, peer: nat -> Turn, begin: int, interrupts: set<int>)

  /** The request loop, in the thread that called conn: nobody sets the flag meanwhile. */
  function WifiRequest(w: Wifi, deadline: int): Outcome {
    if w.device != Client || !w.gateway then Outcome(false, w.begin, [])
    else Run(Request, deadline, w.request, Unset, w.begin, 0, [])
  }

  /** The timeout that the last call has left on its socket. */
  function LastTimeout(o: Outcome): int {
    if o.calls == [] then 0
    else
      match o.calls[|o.calls| - 1]
      case Sleep(_, _, _) => 0
      case c => c.timeout
  }

  /** The transfers from the i-th on; each may take the whole timeout. */
  function Exchange(timeout: int, exchange: nat -> Transfer, i: nat, now: int): (bool, int)
    decreases TRANSFERS - i
  {
    if i >= TRANSFERS then (true, now)
    else
      var after := now + Min(exchange(i).takes, timeout);
      if exchange(i).ok then Exchange(timeout, exchange, i + 1, after) else (false, after)
  }

  function WifiExchange(w: Wifi, deadline: int): (bool, int) {
    var request := WifiRequest(w, deadline);
    if request.ok then Exchange(LastTimeout(request), w.exchange, 0, request.end) else (false, request.end)
  }

  /** What conn comes to: it listens, or connects once the exchange is complete. */
  function WifiMain(w: Wifi, deadline: int): Outcome {
    var (exchanged, end) := WifiExchange(w, deadline);
    if w.device == Router then Listen(deadline, w.incoming, w.begin)
    else if exchanged then Run(Peer, deadline, w.peer, Unset, end, 0, [])
    else Outcome(false, end, [])
  }

  // ---- when a connection is made ------------------------------------------------------------

  /** When the poll of a turn that begins at `at` is over, and when the connect behind it is. */
  function PollOver(deadline: int, t: Turn, at: int): int {
    at + PollTime(t, ToInt32(deadline - at))
  }

  function ConnectOver(deadline: int, t: Turn, at: int): int {
    var left := deadline - PollOver(deadline, t, at);
    PollOver(deadline, t, at) + if t.connectTakes < left then t.connectTakes else left
  }

  /** The turn makes the connection: the socket is ready and accepted with time left. */
  predicate TurnAccepted(kind: Kind, deadline: int, t: Turn, at: int) {
    && at < deadline && t.ready && PollOver(deadline, t, at) < deadline
    && (t.result == Connected || (kind == Request && t.result == AlreadyConnected))
  }

  /** The turn fails and is followed by another one: the peer refuses with time left, or the socket
      for requests does not become ready. */
  predicate TurnRetried(kind: Kind, deadline: int, t: Turn, at: int) {
    && at < deadline
    && if !t.ready then kind == Request
       else PollOver(deadline, t, at) < deadline && t.result == Refused && ConnectOver(deadline, t, at) < deadline
  }

  /** When the k-th turn begins, if each one before it is retried: after the poll, or after a pause
      of at most half of the time left and of 200, 400, 800, 1600, 3200 ms in turn. */
  function TurnBegins(deadline: int, world: nat -> Turn, begin: int, k: nat): int {
    if k == 0 then begin
    else
      var (t, at) := (world(k - 1), TurnBegins(deadline, world, begin, k - 1));
      if !t.ready then PollOver(deadline, t, at)
      else
        var (over, bound) := (ConnectOver(deadline, t, at), 100 * PowerOfTwo(k));
        over + if (deadline - over) / 2 < bound then (deadline - over) / 2 else bound
  }

  /** The k-th of the five turns makes the connection, and each one before it is retried. */
  ghost predicate ConnectsIn(kind: Kind, deadline: int, world: nat -> Turn, begin: int, k: nat) {
    && k < 5 && TurnAccepted(kind, deadline, world(k), TurnBegins(deadline, world, begin, k))
    && forall j: nat :: j < k ==> TurnRetried(kind, deadline, world(j), TurnBegins(deadline, world, begin, j))
  }

  function ConnectedAt(deadline: int, world: nat -> Turn, begin: int, k: nat): int {
    ConnectOver(deadline, world(k), TurnBegins(deadline, world, begin, k))
  }

  /** A listener is called at the time `at`. */
  predicate CalledAt(deadline: int, incoming: Incoming, begin: int, at: int) {
    && begin < deadline && incoming.bound && incoming.accepted
    && at == if begin + incoming.takes < deadline then begin + incoming.takes else deadline
  }

  /** What the accept or the connect calls of a Bluetooth conn come to, without the interrupts. */
  ghost predicate BluetoothMade(w: Bluetooth, deadline: int, at: int) {
    if w.listener then CalledAt(deadline, w.incoming, w.begin, at)
    else
      exists k: nat :: ConnectsIn(Peer, deadline, w.peer, w.begin, k) &&
                       at == ConnectedAt(deadline, w.peer, w.begin, k)
  }

  /** The connection is made, and no interrupt comes from then until the end. */
  ghost predicate BluetoothSucceeds(w: Bluetooth, deadline: int, end: int) {
    exists at :: BluetoothMade(w, deadline, at) && at <= end && forall i :: i in w.interrupts ==> !(at <= i <= end)
  }

  /** How long the four transfers take, each of them at most the time left at the connect before. */
  function ExchangeOver(w: Wifi, deadline: int, k: nat): int {
    var at := TurnBegins(deadline, w.request, w.begin, k);
    var left := deadline - PollOver(deadline, w.request(k), at);
    ConnectedAt(deadline, w.request, w.begin, k) + Min(w.exchange(0).takes, left) + Min(w.exchange(1).takes, left)
    + Min(w.exchange(2).takes, left) + Min(w.exchange(3).takes, left)
  }

  /** A client's request is accepted in turn k, all four transfers succeed, and its connect in turn j. */
  ghost predicate ClientMade(w: Wifi, deadline: int, k: nat, j: nat) {
    && w.gateway && ConnectsIn(Request, deadline, w.request, w.begin, k)
    && w.exchange(0).ok && w.exchange(1).ok && w.exchange(2).ok && w.exchange(3).ok
    && ConnectsIn(Peer, deadline, w.peer, ExchangeOver(w, deadline, k), j)
  }

  ghost predicate WifiMade(w: Wifi, deadline: int, at: int) {
    match w.device
    case Router => CalledAt(deadline, w.incoming, w.begin, at)
    case Client =>
      (exists k: nat, j: nat :: ClientMade(w, deadline, k, j)
                                && at == ConnectedAt(deadline, w.peer, ExchangeOver(w, deadline, k), j))
    case Unsupported => false
  }

  /** What the run comes to when the turns before the k-th are retried and it is the first to make
      the connection. */
  predicate EndsIn(o: Outcome, deadline: int, world: nat -> Turn, begin: int, k: nat) {
    var (t, at) := (world(k), TurnBegins(deadline, world, begin, k));
    && o.ok && o.end == ConnectedAt(deadline, world, begin, k) && o.calls != []
    && o.calls[|o.calls| - 1] == Connect(PollOver(deadline, t, at), deadline - PollOver(deadline, t, at), t.result)
  }

  lemma {:induction false} TurnDecides(kind: Kind, deadline: int, world: nat -> Turn, begin: int, k: nat,
        calls: seq<Call>)
    ensures
      var (t, at) := (world(k), TurnBegins(deadline, world, begin, k));
      var next := TakeTurn(kind, deadline, t, Unset, at, k, calls);
      && (TurnAccepted(kind, deadline, t, at) ==>
            next.Done? && next.o.ok && EndsIn(next.o, deadline, world, begin, k))
      && (TurnRetried(kind, deadline, t, at) ==> next.Again? && next.now == TurnBegins(deadline, world, begin, k + 1))
      && (!TurnAccepted(kind, deadline, t, at) && !TurnRetried(kind, deadline, t, at) ==> next.Done? && !next.o.ok)
  {
    hide PowerOfTwo, ToInt32, PollTime;
  }

  lemma {:induction false} RunConnects(kind: Kind, deadline: int, world: nat -> Turn, begin: int, k: nat,
        calls: seq<Call>)
    requires k <= MAX_RETRIES
    requires forall j: nat :: j < k ==> TurnRetried(kind, deadline, world(j), TurnBegins(deadline, world, begin, j))
    ensures
      var o := Run(kind, deadline, world, Unset, TurnBegins(deadline, world, begin, k), k, calls);
      && (o.ok <==> exists i: nat :: ConnectsIn(kind, deadline, world, begin, i))
      && forall i: nat :: ConnectsIn(kind, deadline, world, begin, i) ==> EndsIn(o, deadline, world, begin, i)
    decreases MAX_RETRIES - k
  {
    hide TakeTurn, TurnBegins, TurnAccepted, TurnRetried, EndsIn, Run;
    var at := TurnBegins(deadline, world, begin, k);
    RunUnfolds(kind, deadline, world, Unset, at, k, calls);
    if k < MAX_RETRIES {
      TurnDecides(kind, deadline, world, begin, k, calls);
      NotBoth(kind, deadline, world(k), at);
      forall i: nat | ConnectsIn(kind, deadline, world, begin, i) ensures i >= k {
        NotBoth(kind, deadline, world(i), TurnBegins(deadline, world, begin, i));
      }
      if TurnAccepted(kind, deadline, world(k), at) {
        assert ConnectsIn(kind, deadline, world, begin, k);
      } else if TurnRetried(kind, deadline, world(k), at) {
        var next := TakeTurn(kind, deadline, world(k), Unset, at, k, calls);
        RunConnects(kind, deadline, world, begin, k + 1, next.calls);
      }
    } else {
      forall i: nat | ConnectsIn(kind, deadline, world, begin, i) ensures false {
        NotBoth(kind, deadline, world(i), TurnBegins(deadline, world, begin, i));
      }
    }
  }

  lemma {:induction false} NotBoth(kind: Kind, deadline: int, t: Turn, at: int)
    ensures !(TurnAccepted(kind, deadline, t, at) && TurnRetried(kind, deadline, t, at))
  {
  }

  /** An attempt succeeds exactly if one of its five turns makes the connection and each one before
      it is retried. */
  lemma {:induction false} AttemptSucceedsIff(kind: Kind, deadline: int, world: nat -> Turn, begin: int)
    ensures
      var o := Run(kind, deadline, world, Unset, begin, 0, []);
      && (o.ok <==> exists k: nat :: ConnectsIn(kind, deadline, world, begin, k))
      && forall k: nat :: ConnectsIn(kind, deadline, world, begin, k) ==> EndsIn(o, deadline, world, begin, k)
  {
    hide Run, ConnectsIn, EndsIn;
    RunConnects(kind, deadline, world, begin, 0, []);
  }

  lemma {:induction false} ListenIsCalled(deadline: int, incoming: Incoming, begin: int, at: int)
    ensures
      var o := Listen(deadline, incoming, begin);
      CalledAt(deadline, incoming, begin, at) <==> o.ok && o.end == at
  {
  }

  lemma {:induction false} BluetoothMakes(w: Bluetooth, deadline: int, at: int)
    ensures BluetoothMade(w, deadline, at) <==> BluetoothMain(w, deadline).ok && BluetoothMain(w, deadline).end == at
  {
    hide Run, ConnectsIn, CalledAt, Listen, ConnectedAt;
    ListenIsCalled(deadline, w.incoming, w.begin, at);
    AttemptSucceedsIff(Peer, deadline, w.peer, w.begin);
  }

  lemma {:induction false} BluetoothSucceedsIff(w: Bluetooth, deadline: int)
    ensures forall end ::
      BluetoothSucceeds(w, deadline, end) <==> StillSet(BluetoothMain(w, deadline), w.interrupts, end)
  {
    hide BluetoothMade, BluetoothMain;
    forall at ensures BluetoothMade(w, deadline, at)
      <==> BluetoothMain(w, deadline).ok && BluetoothMain(w, deadline).end == at
    {
      BluetoothMakes(w, deadline, at);
    }
    var main := BluetoothMain(w, deadline);
    forall end ensures BluetoothSucceeds(w, deadline, end) <==> StillSet(main, w.interrupts, end) {
      if StillSet(main, w.interrupts, end) {
        assert BluetoothMade(w, deadline, main.end);
      }
    }
  }

  lemma {:induction false} ExchangeSucceeds(timeout: int, exchange: nat -> Transfer, begin: int)
    ensures
      var (ok, end) := Exchange(timeout, exchange, 0, begin);
      && (ok <==> exchange(0).ok && exchange(1).ok && exchange(2).ok && exchange(3).ok)
      && (ok ==> end == begin + Min(exchange(0).takes, timeout) + Min(exchange(1).takes, timeout)
                        + Min(exchange(2).takes, timeout) + Min(exchange(3).takes, timeout))
  {
    hide Exchange;
    var n1 := begin + Min(exchange(0).takes, timeout);
    var n2 := n1 + Min(exchange(1).takes, timeout);
    var n3 := n2 + Min(exchange(2).takes, timeout);
    ExchangeUnfolds(timeout, exchange, 0, begin);
    ExchangeUnfolds(timeout, exchange, 1, n1);
    ExchangeUnfolds(timeout, exchange, 2, n2);
    ExchangeUnfolds(timeout, exchange, 3, n3);
    ExchangeUnfolds(timeout, exchange, 4, n3 + Min(exchange(3).takes, timeout));
  }

  lemma {:induction false} WifiMakes(w: Wifi, deadline: int, at: int)
    ensures WifiMade(w, deadline, at) <==> WifiMain(w, deadline).ok && WifiMain(w, deadline).end == at
  {
    hide Run, ConnectsIn, CalledAt, Listen, Exchange, ConnectedAt, TurnBegins, PollOver;
    ListenIsCalled(deadline, w.incoming, w.begin, at);
    var request := WifiRequest(w, deadline);
    AttemptSucceedsIff(Request, deadline, w.request, w.begin);
    if w.device == Client && request.ok {
      var k: nat :| ConnectsIn(Request, deadline, w.request, w.begin, k);
      assert EndsIn(request, deadline, w.request, w.begin, k);
      ExchangeSucceeds(LastTimeout(request), w.exchange, request.end);
      AttemptSucceedsIff(Peer, deadline, w.peer, ExchangeOver(w, deadline, k));
      OneTurnOnly(Request, deadline, w.request, w.begin);
    }
  }

  lemma {:induction false} OneTurnOnly(kind: Kind, deadline: int, world: nat -> Turn, begin: int)
    ensures forall i: nat, k: nat ::
      ConnectsIn(kind, deadline, world, begin, i) && ConnectsIn(kind, deadline, world, begin, k) ==> i == k
  {
    hide TurnBegins, TurnAccepted, TurnRetried;
    forall i: nat, k: nat | ConnectsIn(kind, deadline, world, begin, i) && ConnectsIn(kind, deadline, world, begin, k)
      ensures i == k
    {
      NotBoth(kind, deadline, world(i), TurnBegins(deadline, world, begin, i));
      NotBoth(kind, deadline, world(k), TurnBegins(deadline, world, begin, k));
    }
  }

  // ---- the adapters -----------------------------------------------------------------------

  /** What both adapters have; conn is called under the exclusive mutex of the socket, and only
      an interrupt changes the flag from outside. */
  class Adapter {
    var connected: bool

    method ListenForPeer(start: int, connTimeout: nat, incoming: Incoming, begin: int)
      returns (now: int, calls: seq<Call>)
      requires !connected
      modifies this
      ensures Outcome(connected, now, calls) == Listen(start + connTimeout, incoming, begin)
    {
      now, calls := begin, [];
      var remaining := connTimeout - (now - start);
      if remaining <= 0 {
        return;
      }
      if !incoming.bound {
        return;
      }
      calls := [Accept(now, remaining, incoming.accepted)];
      now := now + Min(incoming.takes, remaining);
      if incoming.accepted {
        connected := true;
      }
    }

    method ConnectToPeer(start: int, connTimeout: nat, world: nat -> Turn, begin: int)
      returns (now: int, calls: seq<Call>)
      requires !connected
      modifies this
      ensures Outcome(connected, now, calls) == Run(Peer, start + connTimeout, world, Unset, begin, 0, [])
    {
      hide Run, PowerOfTwo, ToInt32;
      ghost var goal := Run(Peer, start + connTimeout, world, Unset, begin, 0, []);
      var retryCount: nat := 0;
      now, calls := begin, [];
      while retryCount < MAX_RETRIES
        invariant 0 <= retryCount <= MAX_RETRIES && !connected
        invariant Run(Peer, start + connTimeout, world, Unset, now, retryCount, calls) == goal
      {
        RunUnfolds(Peer, start + connTimeout, world, Unset, now, retryCount, calls);
        var turn := world(retryCount);
        var remaining := connTimeout - (now - start);
        if remaining <= 0 {
          return;
        }
        var timeout := ToInt32(remaining);
        calls := calls + [Poll(now, timeout)];
        now := now + PollTime(turn, timeout);
        if !turn.ready {
          return;
        }
        remaining := connTimeout - (now - start);
        if remaining <= 0 {
          return;
        }
        calls := calls + [Connect(now, remaining, turn.result)];
        now := now + Min(turn.connectTakes, remaining);
        match turn.result {
          case Connected =>
            connected := true;
            return;
          case AlreadyConnected => return;
          case Refused =>
          case Failed => return;
        }
        retryCount := retryCount + 1;
        remaining := connTimeout - (now - start);
        if remaining <= 0 {
          return;
        }
        var backoff := Min(remaining / 2, 100 * PowerOfTwo(retryCount));
        calls := calls + [Sleep(now, backoff, retryCount)];
        now := now + backoff;
      }
      RunUnfolds(Peer, start + connTimeout, world, Unset, now, retryCount, calls);
    }

    /** SendConnectionRequest of the Bluetooth adapter: it runs in a thread of its own and reads
        the flag as the other thread leaves it. */
    method SendBluetoothRequest(start: int, connTimeout: nat, world: nat -> Turn, flag: Flag, begin: int)
      returns (sent: bool, now: int, calls: seq<Call>)
      ensures Outcome(sent, now, calls) == Run(Request, start + connTimeout, world, flag, begin, 0, [])
    {
      hide Run, PowerOfTwo, ToInt32;
      ghost var goal := Run(Request, start + connTimeout, world, flag, begin, 0, []);
      var retryCount: nat := 0;
      now, calls := begin, [];
      while !flag(now) && retryCount < MAX_RETRIES
        invariant 0 <= retryCount <= MAX_RETRIES
        invariant Run(Request, start + connTimeout, world, flag, now, retryCount, calls) == goal
        decreases MAX_RETRIES - retryCount
      {
        RunUnfolds(Request, start + connTimeout, world, flag, now, retryCount, calls);
        var turn := world(retryCount);
        var remaining := connTimeout - (now - start);
        if remaining <= 0 {
          return false, now, calls;
        }
        var timeout := ToInt32(remaining);
        calls := calls + [Poll(now, timeout)];
        now := now + PollTime(turn, timeout);
        if !turn.ready {
          retryCount := retryCount + 1;
          continue;
        }
        remaining := connTimeout - (now - start);
        if remaining <= 0 {
          return false, now, calls;
        }
        calls := calls + [Connect(now, remaining, turn.result)];
        now := now + Min(turn.connectTakes, remaining);
        match turn.result {
          case Connected => return true, now, calls;
          case AlreadyConnected => return true, now, calls;
          case Refused =>
          case Failed => return false, now, calls;
        }
        retryCount := retryCount + 1;
        remaining := connTimeout - (now - start);
        if remaining <= 0 {
          return false, now, calls;
        }
        var backoff := Min(remaining / 2, 100 * PowerOfTwo(retryCount));
        calls := calls + [Sleep(now, backoff, retryCount)];
        now := now + backoff;
      }
      RunUnfolds(Request, start + connTimeout, world, flag, now, retryCount, calls);
      return flag(now), now, calls;
    }

    /** The loop of SendConnectionRequest of the Wi-Fi adapter, which has a flag of its own. */
    method SendWifiRequest(start: int, connTimeout: nat, world: nat -> Turn, begin: int)
      returns (isConnected: bool, now: int, calls: seq<Call>)
      requires !connected
      ensures Outcome(isConnected, now, calls) == Run(Request, start + connTimeout, world, Unset, begin, 0, [])
    {
      hide Run, PowerOfTwo, ToInt32;
      ghost var goal := Run(Request, start + connTimeout, world, Unset, begin, 0, []);
      var retryCount: nat := 0;
      isConnected, now, calls := false, begin, [];
      while !connected && retryCount < MAX_RETRIES
        invariant 0 <= retryCount <= MAX_RETRIES && !isConnected
        invariant Run(Request, start + connTimeout, world, Unset, now, retryCount, calls) == goal
      {
        RunUnfolds(Request, start + connTimeout, world, Unset, now, retryCount, calls);
        var turn := world(retryCount);
        var remaining := connTimeout - (now - start);
        if remaining <= 0 {
          return false, now, calls;
        }
        var timeout := ToInt32(remaining);
        calls := calls + [Poll(now, timeout)];
        now := now + PollTime(turn, timeout);
        if !turn.ready {
          retryCount := retryCount + 1;
          continue;
        }
        remaining := connTimeout - (now - start);
        if remaining <= 0 {
          return false, now, calls;
        }
        calls := calls + [Connect(now, remaining, turn.result)];
        now := now + Min(turn.connectTakes, remaining);
        match turn.result {
          case Connected => isConnected := true;
          case AlreadyConnected => isConnected := true;
          case Refused =>
          case Failed => return false, now, calls;
        }
        if isConnected {
          return true, now, calls;
        }
        retryCount := retryCount + 1;
        remaining := connTimeout - (now - start);
        if remaining <= 0 {
          return false, now, calls;
        }
        var backoff := Min(remaining / 2, 100 * PowerOfTwo(retryCount));
        calls := calls + [Sleep(now, backoff, retryCount)];
        now := now + backoff;
      }
      RunUnfolds(Request, start + connTimeout, world, Unset, now, retryCount, calls);
      return isConnected, now, calls;
    }

    method BluetoothConn(start: int, connTimeout: nat, w: Bluetooth) returns (status: int, end: int)
      modifies this
      ensures end == BluetoothEnd(w, start + connTimeout)
      ensures status == (if connected then 0 else -1)
      ensures connected <==> StillSet(BluetoothMain(w, start + connTimeout), w.interrupts, end)
      ensures status == 0 <==> BluetoothSucceeds(w, start + connTimeout, end)
    {
      hide Run, Listen, StillSet, BluetoothMade;
      ghost var deadline := start + connTimeout;
      BluetoothSucceedsIff(w, deadline);
      hide BluetoothSucceeds;
      connected := false;
      var now, calls;
      if w.listener {
        now, calls := ListenForPeer(start, connTimeout, w.incoming, w.begin);
      } else {
        now, calls := ConnectToPeer(start, connTimeout, w.peer, w.begin);
      }
      var main := Outcome(connected, now, calls);
      var flag := FlagAfter(main, w.interrupts);
      var sent, until, requests := SendBluetoothRequest(start, connTimeout, w.request, flag, w.requestBegin);
      end := if now < until then until else now;
      connected := flag(end);
      if !connected {
        return -1, end;
      }
      return 0, end;
    }

    method WifiConn(start: int, connTimeout: nat, w: Wifi) returns (status: int, end: int)
      modifies this
      ensures end == WifiMain(w, start + connTimeout).end
      ensures status == (if connected then 0 else -1)
      ensures connected <==> StillSet(WifiMain(w, start + connTimeout), w.interrupts, end)
      ensures status == 0 <==> WifiMade(w, start + connTimeout, end) && end !in w.interrupts
    {
      hide Run, Listen, StillSet, LastTimeout, Exchange, WifiMade;
      WifiMakes(w, start + connTimeout, WifiMain(w, start + connTimeout).end);
      StillSetIff(WifiMain(w, start + connTimeout), w.interrupts);
      connected := false;
      var calls;
      match w.device {
        case Router =>
          end, calls := ListenForPeer(start, connTimeout, w.incoming, w.begin);
        case Client =>
          var requested, exchanged := false, false;
          end, calls := w.begin, [];
          if w.gateway {
            requested, end, calls := SendWifiRequest(start, connTimeout, w.request, w.begin);
          }
          if requested {
            exchanged, end := ExchangeAddresses(LastTimeout(Outcome(true, end, calls)), w.exchange, end);
          }
          if !exchanged {
            FailedIsUnset(end, w.interrupts);
            return -1, end;
          }
          end, calls := ConnectToPeer(start, connTimeout, w.peer, end);
        case Unsupported =>
          end, calls := w.begin, [];
      }
      connected := FlagAfter(Outcome(connected, end, calls), w.interrupts)(end);
      if !connected {
        return -1, end;
      }
      return 0, end;
    }

    /** The three sends and the receive behind the Wi-Fi request loop. */
    method ExchangeAddresses(timeout: int, exchange: nat -> Transfer, begin: int) returns (ok: bool, now: int)
      ensures (ok, now) == Exchange(timeout, exchange, 0, begin)
    {
      now := begin + Min(exchange(0).takes, timeout);
      if !exchange(0).ok {
        return false, now;
      }
      now := now + Min(exchange(1).takes, timeout);
      if !exchange(1).ok {
        return false, now;
      }
      now := now + Min(exchange(2).takes, timeout);
      if !exchange(2).ok {
        return false, now;
      }
      now := now + Min(exchange(3).takes, timeout);
      if !exchange(3).ok {
        return false, now;
      }
      return true, now;
    }
  }

  lemma {:induction false} StillSetIff(o: Outcome, interrupts: set<int>)
    ensures forall now :: StillSet(o, interrupts, now) <==>
      o.ok && o.end <= now && forall i :: i in interrupts ==> !(o.end <= i <= now)
  {
  }

  lemma {:induction false} FailedIsUnset(end: int, interrupts: set<int>)
    ensures !StillSet(Outcome(false, end, []), interrupts, end)
  {
  }

  // ---- what holds of every run -------------------------------------------------------------

  /** A call gets exactly the time that is left, and that is some; a pause leaves half of it and
      doubles its bound with every retry. */
  predicate InTime(c: Call, deadline: int) {
    match c
    case Poll(at, timeout) => 0 < timeout == deadline - at
    case Connect(at, timeout, _) => 0 < timeout == deadline - at
    case Accept(at, timeout, _) => 0 < timeout == deadline - at
    case Sleep(at, time, retry) =>
      0 <= 2 * time <= deadline - at && time <= 100 * PowerOfTwo(retry) && retry <= MAX_RETRIES
  }

  predicate AllInTime(calls: seq<Call>, deadline: int) {
    forall i :: 0 <= i < |calls| ==> InTime(calls[i], deadline)
  }

  function Connects(calls: seq<Call>): (n: nat)
    ensures n <= |calls|
  {
    if calls == [] then 0 else Connects(calls[..|calls| - 1]) + if calls[|calls| - 1].Connect? then 1 else 0
  }

  lemma {:induction false} ConnectsPlus(calls: seq<Call>, c: Call)
    ensures Connects(calls + [c]) == Connects(calls) + if c.Connect? then 1 else 0
  {
    assert (calls + [c])[..|calls|] == calls;
  }

  /** The connect calls that make an attempt a success. */
  predicate Accepts(kind: Kind, c: Call) {
    || (c.Accept? && c.accepted)
    || (c.Connect? && (c.result == Connected || (c.result == AlreadyConnected && kind == Request)))
  }

  predicate NoneAccepts(kind: Kind, calls: seq<Call>) {
    forall i :: 0 <= i < |calls| ==> !Accepts(kind, calls[i])
  }

  /** Success is the report of the last call, or the flag's at the end. */
  predicate Justified(kind: Kind, o: Outcome, flag: Flag) {
    && (!o.ok ==> NoneAccepts(kind, o.calls))
    && (o.ok ==> (kind == Request && flag(o.end)) || (o.calls != [] && Accepts(kind, o.calls[|o.calls| - 1])))
  }

  predicate Good(kind: Kind, deadline: int, retry: nat, now: int, calls: seq<Call>) {
    now <= deadline && AllInTime(calls, deadline) && Connects(calls) <= retry
  }

  lemma {:induction false} TurnIsInTime(kind: Kind, deadline: int, t: Turn, flag: Flag, now: int, retry: nat,
        calls: seq<Call>)
    requires Good(kind, deadline, retry, now, calls) && deadline - now <= INT_MAX && retry < MAX_RETRIES
    ensures
      var next := TakeTurn(kind, deadline, t, flag, now, retry, calls);
      if next.Done? then Good(kind, deadline, retry + 1, next.o.end, next.o.calls)
      else Good(kind, deadline, retry + 1, next.now, next.calls) && now <= next.now
  {
    hide Connects, PowerOfTwo;
    if deadline - now > 0 {
      var timeout := ToInt32(deadline - now);
      assert timeout == deadline - now;
      var polled := calls + [Poll(now, timeout)];
      ConnectsPlus(calls, Poll(now, timeout));
      var after := now + PollTime(t, timeout);
      var connect := Connect(after, deadline - after, t.result);
      ConnectsPlus(polled, connect);
      var end := after + Min(t.connectTakes, deadline - after);
      ConnectsPlus(polled + [connect], Sleep(end, Backoff(retry + 1, deadline - end), retry + 1));
    }
  }

  lemma {:induction false} RunIsInTime(kind: Kind, deadline: int, world: nat -> Turn, flag: Flag, now: int, retry: nat,
        calls: seq<Call>)
    requires Good(kind, deadline, retry, now, calls) && deadline - now <= INT_MAX && retry <= MAX_RETRIES
    ensures
      var o := Run(kind, deadline, world, flag, now, retry, calls);
      Good(kind, deadline, MAX_RETRIES, o.end, o.calls)
    decreases MAX_RETRIES - retry
  {
    hide TakeTurn, AllInTime, Connects;
    if retry < MAX_RETRIES {
      TurnIsInTime(kind, deadline, world(retry), flag, now, retry, calls);
      var next := TakeTurn(kind, deadline, world(retry), flag, now, retry, calls);
      if next.Again? {
        RunIsInTime(kind, deadline, world, flag, next.now, retry + 1, next.calls);
      }
    }
  }

  lemma {:induction false} TurnIsJustified(kind: Kind, deadline: int, t: Turn, flag: Flag, now: int, retry: nat,
        calls: seq<Call>)
    requires NoneAccepts(kind, calls)
    ensures
      var next := TakeTurn(kind, deadline, t, flag, now, retry, calls);
      if next.Done? then Justified(kind, next.o, flag) else NoneAccepts(kind, next.calls)
  {
    hide Backoff, PollTime, ToInt32;
  }

  lemma {:induction false} RunIsJustified(kind: Kind, deadline: int, world: nat -> Turn, flag: Flag, now: int,
        retry: nat, calls: seq<Call>)
    requires NoneAccepts(kind, calls)
    ensures Justified(kind, Run(kind, deadline, world, flag, now, retry, calls), flag)
    decreases MAX_RETRIES - retry
  {
    hide TakeTurn, NoneAccepts, Accepts;
    if retry < MAX_RETRIES {
      TurnIsJustified(kind, deadline, world(retry), flag, now, retry, calls);
      var next := TakeTurn(kind, deadline, world(retry), flag, now, retry, calls);
      if next.Again? {
        RunIsJustified(kind, deadline, world, flag, next.now, retry + 1, next.calls);
      }
    }
  }

  /** Whatever the world does, an attempt entered before its deadline is over by then, tries at
      most five connections, never waits for zero or negative time and has succeeded exactly if
      it reports so. */
  lemma {:induction false} DeadlineBound(kind: Kind, start: int, connTimeout: nat, world: nat -> Turn, flag: Flag,
        begin: int)
    requires begin <= start + connTimeout && start + connTimeout - begin <= INT_MAX
    ensures
      var o := Run(kind, start + connTimeout, world, flag, begin, 0, []);
      && o.end <= start + connTimeout
      && AllInTime(o.calls, start + connTimeout)
      && Connects(o.calls) <= MAX_RETRIES
      && Justified(kind, o, flag)
  {
    hide Run, InTime, Accepts;
    RunIsInTime(kind, start + connTimeout, world, flag, begin, 0, []);
    RunIsJustified(kind, start + connTimeout, world, flag, begin, 0, []);
  }

  // ---- the order of the calls --------------------------------------------------------------

  function Polls(calls: seq<Call>): (n: nat)
    ensures n <= |calls|
  {
    if calls == [] then 0 else Polls(calls[..|calls| - 1]) + if calls[|calls| - 1].Poll? then 1 else 0
  }

  lemma {:induction false} PollsPlus(calls: seq<Call>, c: Call)
    ensures Polls(calls + [c]) == Polls(calls) + if c.Poll? then 1 else 0
  {
    assert (calls + [c])[..|calls|] == calls;
  }

  /** Which call may come after which: connect only after a poll, a pause only after a refusal,
      and then the next poll as soon as the pause is over. */
  predicate Succeeds(kind: Kind, a: Call, b: Call) {
    match a
    case Poll(at, _) => at <= b.at && (b.Connect? || (b.Poll? && kind == Request))
    case Connect(at, _, result) => at <= b.at && result == Refused && b.Sleep?
    case Sleep(at, time, _) => b.at == at + time && b.Poll?
    case Accept(_, _, _) => false
  }

  predicate Ordered(kind: Kind, calls: seq<Call>) {
    && (calls != [] ==> calls[0].Poll?)
    && forall i, j :: 0 <= i < |calls| - 1 && j == i + 1 ==> Succeeds(kind, calls[i], calls[j])
  }

  /** A turn may start now. */
  predicate MayPoll(kind: Kind, calls: seq<Call>, now: int) {
    calls != [] ==> Succeeds(kind, calls[|calls| - 1], Poll(now, 0))
  }

  /** Why an attempt fails: the time is over, all turns are used, the client's socket does not
      become ready, or connect reports something that is not retried. */
  predicate GaveUp(kind: Kind, deadline: int, o: Outcome) {
    || o.end >= deadline
    || Polls(o.calls) == MAX_RETRIES
    || (o.calls != [] &&
        match o.calls[|o.calls| - 1]
        case Poll(_, _) => kind == Peer
        case Connect(_, _, result) => result == Failed || (result == AlreadyConnected && kind == Peer)
        case _ => false)
  }

  lemma {:induction false} OrderedPlus(kind: Kind, calls: seq<Call>, c: Call)
    requires Ordered(kind, calls) && if calls == [] then c.Poll? else Succeeds(kind, calls[|calls| - 1], c)
    ensures Ordered(kind, calls + [c])
  {
  }

  lemma {:induction false} ConnectInOrder(kind: Kind, deadline: int, t: Turn, now: int, retry: nat, calls: seq<Call>)
    requires Ordered(kind, calls) && calls != [] && calls[|calls| - 1].Poll? && calls[|calls| - 1].at <= now
    ensures
      var next := TryConnect(kind, deadline, t, now, retry, calls);
      if next.Done? then Ordered(kind, next.o.calls) && (!next.o.ok ==> GaveUp(kind, deadline, next.o))
      else Ordered(kind, next.calls) && MayPoll(kind, next.calls, next.now) && Polls(next.calls) == Polls(calls)
  {
    hide Ordered, Polls, Backoff;
    if deadline - now > 0 {
      var connect := Connect(now, deadline - now, t.result);
      var after := now + Min(t.connectTakes, deadline - now);
      OrderedPlus(kind, calls, connect);
      PollsPlus(calls, connect);
      if t.result == Refused && deadline - after > 0 {
        var pause := Sleep(after, Backoff(retry + 1, deadline - after), retry + 1);
        OrderedPlus(kind, calls + [connect], pause);
        PollsPlus(calls + [connect], pause);
      }
    }
  }

  lemma {:induction false} TurnInOrder(kind: Kind, deadline: int, t: Turn, flag: Flag, now: int, retry: nat,
        calls: seq<Call>)
    requires Ordered(kind, calls) && MayPoll(kind, calls, now)
    ensures
      var next := TakeTurn(kind, deadline, t, flag, now, retry, calls);
      if next.Done? then Ordered(kind, next.o.calls) && (!next.o.ok ==> GaveUp(kind, deadline, next.o))
      else Ordered(kind, next.calls) && MayPoll(kind, next.calls, next.now) && Polls(next.calls) == Polls(calls) + 1
  {
    hide Ordered, Polls, TryConnect, ToInt32;
    if deadline - now > 0 {
      var poll := Poll(now, ToInt32(deadline - now));
      OrderedPlus(kind, calls, poll);
      PollsPlus(calls, poll);
      if t.ready {
        ConnectInOrder(kind, deadline, t, now + PollTime(t, poll.timeout), retry, calls + [poll]);
      }
    }
  }

  lemma {:induction false} RunInOrder(kind: Kind, deadline: int, world: nat -> Turn, flag: Flag, now: int, retry: nat,
        calls: seq<Call>)
    requires Ordered(kind, calls) && MayPoll(kind, calls, now) && Polls(calls) == retry <= MAX_RETRIES
    ensures
      var o := Run(kind, deadline, world, flag, now, retry, calls);
      Ordered(kind, o.calls) && (!o.ok ==> GaveUp(kind, deadline, o))
    decreases MAX_RETRIES - retry
  {
    hide TakeTurn, Ordered, MayPoll, Polls;
    if retry < MAX_RETRIES {
      TurnInOrder(kind, deadline, world(retry), flag, now, retry, calls);
      var next := TakeTurn(kind, deadline, world(retry), flag, now, retry, calls);
      if next.Again? {
        RunInOrder(kind, deadline, world, flag, next.now, retry + 1, next.calls);
      }
    }
  }

  /** Every attempt makes its calls in that order, and gives up for one of those reasons only. */
  lemma {:induction false} CallsInOrder(kind: Kind, deadline: int, world: nat -> Turn, flag: Flag, begin: int)
    ensures
      var o := Run(kind, deadline, world, flag, begin, 0, []);
      Ordered(kind, o.calls) && (!o.ok ==> GaveUp(kind, deadline, o))
  {
    hide Run, GaveUp, Succeeds;
    RunInOrder(kind, deadline, world, flag, begin, 0, []);
  }

  // ---- conn of the Bluetooth adapter, over every run ------------------------------------------

  /** The last call of an attempt on the socket for messages has made the connection. */
  predicate MadeIt(o: Outcome) {
    o.calls != [] && Accepts(Peer, o.calls[|o.calls| - 1])
  }

  lemma {:induction false} PeerMadeIt(deadline: int, world: nat -> Turn, begin: int)
    ensures Run(Peer, deadline, world, Unset, begin, 0, []).ok <==>
      MadeIt(Run(Peer, deadline, world, Unset, begin, 0, []))
  {
    hide Run, Accepts;
    RunIsJustified(Peer, deadline, world, Unset, begin, 0, []);
  }

  /** conn reports success exactly when its accept or its last connect has made the connection and
      no interrupt came between that and the end, whatever the request thread does. */
  lemma {:induction false} BluetoothConnects(w: Bluetooth, deadline: int)
    ensures
      var (main, end) := (BluetoothMain(w, deadline), BluetoothEnd(w, deadline));
      StillSet(main, w.interrupts, end) <==> MadeIt(main) && forall i :: i in w.interrupts ==> !(main.end <= i <= end)
    ensures MadeIt(BluetoothMain(w, deadline)) <==> BluetoothMade(w, deadline, BluetoothMain(w, deadline).end)
  {
    hide Run, BluetoothMade;
    PeerMadeIt(deadline, w.peer, w.begin);
    BluetoothMakes(w, deadline, BluetoothMain(w, deadline).end);
  }

  /** The caller is accepted one tick after conn begins, and the request thread's poll lasts three:
      an interrupt in between makes conn report failure. */
  lemma {:induction false} MadeAndNotReported(begin: int, deadline: int) returns (w: Bluetooth)
    requires begin + 3 < deadline <= begin + INT_MAX
    ensures w.begin == w.requestBegin == begin
    ensures
      var (main, end) := (BluetoothMain(w, deadline), BluetoothEnd(w, deadline));
      && MadeIt(main) && !StillSet(main, w.interrupts, end)
      && exists i :: i in w.interrupts && main.end < i < end
  {
    var world: nat -> Turn := (i: nat) => Turn(3, true, 0, Failed);
    w := Bluetooth(true, Incoming(true, 1, true), world, world, begin, begin, {begin + 2});
    var main := BluetoothMain(w, deadline);
    assert main == Outcome(true, begin + 1, [Accept(begin, deadline - begin, true)]);
    var flag := FlagAfter(main, w.interrupts);
    assert !flag(begin);
    var next := TakeTurn(Request, deadline, world(0), flag, begin, 0, []);
    assert next.Done? && next.o.end == begin + 3;
    assert BluetoothEnd(w, deadline) == begin + 3;
    assert begin + 2 in w.interrupts && main.end < begin + 2 < begin + 3;
  }

  lemma {:induction false} ListenInTime(deadline: int, incoming: Incoming, begin: int)
    requires begin <= deadline
    ensures Listen(deadline, incoming, begin).end <= deadline
      && AllInTime(Listen(deadline, incoming, begin).calls, deadline)
    ensures Connects(Listen(deadline, incoming, begin).calls) == 0
  {
  }

  /** Both threads keep the one deadline: conn is over by then. */
  lemma {:induction false} BluetoothInTime(w: Bluetooth, deadline: int)
    requires w.begin <= deadline <= w.begin + INT_MAX && w.requestBegin <= deadline <= w.requestBegin + INT_MAX
    ensures BluetoothEnd(w, deadline) <= deadline
    ensures AllInTime(BluetoothMain(w, deadline).calls, deadline)
      && AllInTime(BluetoothRequest(w, deadline).calls, deadline)
    ensures Connects(BluetoothMain(w, deadline).calls) <= MAX_RETRIES
    ensures Connects(BluetoothRequest(w, deadline).calls) <= MAX_RETRIES
  {
    hide Run, AllInTime, Connects, Listen;
    var main := BluetoothMain(w, deadline);
    ListenInTime(deadline, w.incoming, w.begin);
    BeginsGood(Peer, deadline, w.begin);
    RunIsInTime(Peer, deadline, w.peer, Unset, w.begin, 0, []);
    BeginsGood(Request, deadline, w.requestBegin);
    RunIsInTime(Request, deadline, w.request, FlagAfter(main, w.interrupts), w.requestBegin, 0, []);
  }

  lemma {:induction false} BeginsGood(kind: Kind, deadline: int, begin: int)
    requires begin <= deadline
    ensures Good(kind, deadline, 0, begin, [])
  {
  }

  /** A turn of a request loop begins only while the flag is not set. */
  predicate PollsUnset(calls: seq<Call>, flag: Flag) {
    forall i :: 0 <= i < |calls| && calls[i].Poll? ==> !flag(calls[i].at)
  }

  lemma {:induction false} TurnPollsUnset(deadline: int, t: Turn, flag: Flag, now: int, retry: nat, calls: seq<Call>)
    requires PollsUnset(calls, flag)
    ensures
      var next := TakeTurn(Request, deadline, t, flag, now, retry, calls);
      PollsUnset(if next.Done? then next.o.calls else next.calls, flag)
  {
    hide Backoff, PollTime, ToInt32;
  }

  lemma {:induction false} RunPollsUnset(deadline: int, world: nat -> Turn, flag: Flag, now: int, retry: nat,
        calls: seq<Call>)
    requires PollsUnset(calls, flag)
    ensures PollsUnset(Run(Request, deadline, world, flag, now, retry, calls).calls, flag)
    decreases MAX_RETRIES - retry
  {
    hide TakeTurn, PollsUnset;
    if retry < MAX_RETRIES {
      TurnPollsUnset(deadline, world(retry), flag, now, retry, calls);
      var next := TakeTurn(Request, deadline, world(retry), flag, now, retry, calls);
      if next.Again? {
        RunPollsUnset(deadline, world, flag, next.now, retry + 1, next.calls);
      }
    }
  }

  /** Once the connection is made and as long as nobody interrupts, the request thread begins no
      further turn: each of its polls starts before, or after an interrupt. */
  lemma {:induction false} NoTurnOnceConnected(w: Bluetooth, deadline: int, c: Call)
    requires c in BluetoothRequest(w, deadline).calls && c.Poll? && BluetoothMain(w, deadline).ok
    ensures
      var main := BluetoothMain(w, deadline);
      c.at < main.end || exists i :: i in w.interrupts && main.end <= i <= c.at
  {
    hide Run, BluetoothMain;
    var flag := FlagAfter(BluetoothMain(w, deadline), w.interrupts);
    RunPollsUnset(deadline, w.request, flag, w.requestBegin, 0, []);
    assert !flag(c.at);
  }

  // ---- conn of the Wi-Fi adapter, over every run ------------------------------------------------

  lemma {:induction false} RequestEndsInConnect(w: Wifi, deadline: int)
    ensures
      var request := WifiRequest(w, deadline);
      request.ok ==> request.calls != [] && request.calls[|request.calls| - 1].Connect?
                     && Accepts(Request, request.calls[|request.calls| - 1])
  {
    hide Run;
    if w.device == Client && w.gateway {
      RunIsJustified(Request, deadline, w.request, Unset, w.begin, 0, []);
      RunAcceptsNobody(Request, deadline, w.request, Unset, w.begin, 0, []);
    }
  }

  predicate NoAccept(calls: seq<Call>) {
    forall i :: 0 <= i < |calls| ==> !calls[i].Accept?
  }

  lemma {:induction false} RunAcceptsNobody(kind: Kind, deadline: int, world: nat -> Turn, flag: Flag, now: int,
        retry: nat, calls: seq<Call>)
    requires NoAccept(calls)
    ensures NoAccept(Run(kind, deadline, world, flag, now, retry, calls).calls)
    decreases MAX_RETRIES - retry
  {
    hide Backoff, PollTime, ToInt32;
    if retry < MAX_RETRIES {
      var next := TakeTurn(kind, deadline, world(retry), flag, now, retry, calls);
      if next.Again? {
        RunAcceptsNobody(kind, deadline, world, flag, next.now, retry + 1, next.calls);
      }
    }
  }

  /** conn reports success exactly when its accept or its last connect has made the connection and
      no interrupt came at that moment; a client has then been accepted on the request socket and
      has exchanged addresses. */
  lemma {:induction false} WifiConnects(w: Wifi, deadline: int)
    ensures
      var main := WifiMain(w, deadline);
      && (StillSet(main, w.interrupts, main.end) <==> MadeIt(main) && main.end !in w.interrupts)
      && (MadeIt(main) && w.device != Router ==> WifiRequest(w, deadline).ok && WifiExchange(w, deadline).0)
      && (MadeIt(main) <==> WifiMade(w, deadline, main.end))
  {
    hide Run, WifiRequest, Exchange, WifiMade;
    PeerMadeIt(deadline, w.peer, WifiExchange(w, deadline).1);
    WifiMakes(w, deadline, WifiMain(w, deadline).end);
  }

  lemma {:induction false} ExchangeTakes(timeout: int, exchange: nat -> Transfer, i: nat, now: int)
    requires 0 <= timeout && i <= TRANSFERS
    ensures now <= Exchange(timeout, exchange, i, now).1 <= now + Times(TRANSFERS - i, timeout)
    decreases TRANSFERS - i
  {
    hide Exchange, Times;
    ExchangeUnfolds(timeout, exchange, i, now);
    if i < TRANSFERS {
      var after := now + Min(exchange(i).takes, timeout);
      ExchangeTakes(timeout, exchange, i + 1, after);
      TimesUnfolds(TRANSFERS - i, timeout);
    } else {
      TimesUnfolds(0, timeout);
    }
  }

  lemma {:induction false} ExchangeUnfolds(timeout: int, exchange: nat -> Transfer, i: nat, now: int)
    ensures
      Exchange(timeout, exchange, i, now) ==
      if i >= TRANSFERS then (true, now)
      else
        var after := now + Min(exchange(i).takes, timeout);
        if exchange(i).ok then Exchange(timeout, exchange, i + 1, after) else (false, after)
  {
  }

  lemma {:induction false} TimesUnfolds(n: nat, timeout: int)
    ensures Times(n, timeout) == if n == 0 then 0 else timeout + Times(n - 1, timeout)
  {
  }

  function Times(n: nat, timeout: int): (total: int)
    ensures 0 <= timeout ==> 0 <= total
  {
    if n == 0 then 0 else timeout + Times(n - 1, timeout)
  }

  lemma {:induction false} TimesTransfers(timeout: int)
    ensures Times(TRANSFERS, timeout) == TRANSFERS * timeout
  {
    assert Times(0, timeout) == 0 && Times(1, timeout) == timeout && Times(2, timeout) == timeout + timeout;
    assert Times(3, timeout) == timeout + Times(2, timeout);
  }

  lemma {:induction false} LateRunFails(deadline: int, world: nat -> Turn, begin: int)
    requires deadline <= begin
    ensures Run(Peer, deadline, world, Unset, begin, 0, []) == Outcome(false, begin, [])
    ensures Run(Request, deadline, world, Unset, begin, 0, []) == Outcome(false, begin, [])
  {
  }

  lemma {:induction false} WifiRequestInTime(w: Wifi, deadline: int)
    requires w.begin <= deadline <= w.begin + INT_MAX
    ensures
      var request := WifiRequest(w, deadline);
      && request.end <= deadline && AllInTime(request.calls, deadline) && Connects(request.calls) <= MAX_RETRIES
      && (request.ok ==> 0 <= LastTimeout(request) <= deadline - w.begin)
  {
    hide Run, Connects, PowerOfTwo;
    BeginsGood(Request, deadline, w.begin);
    RunIsInTime(Request, deadline, w.request, Unset, w.begin, 0, []);
    RequestEndsInConnect(w, deadline);
    var request := WifiRequest(w, deadline);
    if request.ok {
      assert InTime(request.calls[|request.calls| - 1], deadline);
      RunGoesOn(Request, deadline, w.request, Unset, w.begin, 0, [], w.begin);
    }
  }

  predicate NotBefore(calls: seq<Call>, begin: int) {
    forall i :: 0 <= i < |calls| ==> begin <= calls[i].at
  }

  lemma {:induction false} TurnGoesOn(kind: Kind, deadline: int, t: Turn, flag: Flag, now: int, retry: nat,
        calls: seq<Call>, begin: int)
    requires NotBefore(calls, begin) && begin <= now && deadline - now <= INT_MAX
    ensures
      var next := TakeTurn(kind, deadline, t, flag, now, retry, calls);
      if next.Done? then now <= next.o.end && NotBefore(next.o.calls, begin)
      else now <= next.now && NotBefore(next.calls, begin)
  {
    hide PowerOfTwo;
  }

  /** Time does not run backwards. */
  lemma {:induction false} RunGoesOn(kind: Kind, deadline: int, world: nat -> Turn, flag: Flag, now: int, retry: nat,
        calls: seq<Call>, begin: int)
    requires NotBefore(calls, begin) && begin <= now && deadline - now <= INT_MAX
    ensures
      var o := Run(kind, deadline, world, flag, now, retry, calls);
      now <= o.end && NotBefore(o.calls, begin)
    decreases MAX_RETRIES - retry
  {
    hide TakeTurn, NotBefore;
    if retry < MAX_RETRIES {
      TurnGoesOn(kind, deadline, world(retry), flag, now, retry, calls, begin);
      var next := TakeTurn(kind, deadline, world(retry), flag, now, retry, calls);
      if next.Again? {
        RunGoesOn(kind, deadline, world, flag, next.now, retry + 1, next.calls, begin);
      }
    }
  }

  /** One deadline bounds the calls of both loops, and every conn that succeeds.  What it does not
      bound is the exchange of addresses between them: exactly when that ends late does conn end
      late, by at most four times the time there was, and then without a connection. */
  lemma {:induction false} WifiInTime(w: Wifi, deadline: int)
    requires w.begin <= deadline <= w.begin + INT_MAX
    ensures
      var (request, main) := (WifiRequest(w, deadline), WifiMain(w, deadline));
      && AllInTime(request.calls, deadline) && AllInTime(main.calls, deadline)
      && Connects(request.calls) <= MAX_RETRIES && Connects(main.calls) <= MAX_RETRIES
      && (main.end > deadline <==> request.ok && WifiExchange(w, deadline).1 > deadline)
      && (main.end > deadline ==> main.calls == [] && !main.ok)
      && main.end <= deadline + TRANSFERS * (deadline - w.begin)
  {
    hide Run, Connects, Listen, WifiRequest, AllInTime, LastTimeout, Exchange;
    WifiRequestInTime(w, deadline);
    ListenInTime(deadline, w.incoming, w.begin);
    var request := WifiRequest(w, deadline);
    var (exchanged, end) := WifiExchange(w, deadline);
    ConnectsNothing(deadline);
    RouterAsksNobody(w, deadline);
    if request.ok {
      ExchangeTakes(LastTimeout(request), w.exchange, 0, request.end);
      TimesTransfers(LastTimeout(request));
    }
    if end <= deadline {
      BeginsGood(Peer, deadline, end);
      EndsAfterBegin(w, deadline);
      RunIsInTime(Peer, deadline, w.peer, Unset, end, 0, []);
    } else {
      LateRunFails(deadline, w.peer, end);
    }
  }

  lemma {:induction false} RouterAsksNobody(w: Wifi, deadline: int)
    ensures w.device != Client ==> !WifiRequest(w, deadline).ok
  {
  }

  lemma {:induction false} ConnectsNothing(deadline: int)
    ensures Connects([]) == 0 && AllInTime([], deadline)
  {
  }

  lemma {:induction false} EndsAfterBegin(w: Wifi, deadline: int)
    requires w.begin <= deadline <= w.begin + INT_MAX
    ensures w.begin <= WifiRequest(w, deadline).end <= WifiExchange(w, deadline).1
  {
    hide Run, LastTimeout, Exchange;
    WifiRequestInTime(w, deadline);
    var request := WifiRequest(w, deadline);
    if w.device == Client && w.gateway {
      RunGoesOn(Request, deadline, w.request, Unset, w.begin, 0, [], w.begin);
    }
    if request.ok {
      ExchangeTakes(LastTimeout(request), w.exchange, 0, request.end);
    }
  }

  /** A Wi-Fi conn of a device is over by its deadline in every world exactly when the device is
      no client or no time is left when it begins: a client's exchange can be late. */
  lemma {:induction false} WifiOverrunsIff(d: Device, deadline: int, begin: int)
    requires begin <= deadline <= begin + INT_MAX
    ensures
      (forall w: Wifi :: w.device == d && w.begin == begin ==> WifiMain(w, deadline).end <= deadline)
      <==> d != Client || begin == deadline
  {
    hide Run, Exchange;
    if d != Client || begin == deadline {
      forall w: Wifi | w.device == d && w.begin == begin ensures WifiMain(w, deadline).end <= deadline {
        WifiInTime(w, deadline);
        RouterAsksNobody(w, deadline);
        LateRunFails(deadline, w.request, deadline);
      }
    } else {
      var turn := Turn(0, true, (deadline - begin) as nat, Connected);
      var world: nat -> Turn := (i: nat) => turn;
      var slow: nat -> Transfer := (i: nat) => Transfer(1, false);
      var w := Wifi(Client, Incoming(false, 0, false), true, world, slow, world, begin, {});
      ConnectsAtTheEnd(w, deadline, turn);
      FirstTransferFails(LastTimeout(WifiRequest(w, deadline)), slow, deadline);
      assert WifiMain(w, deadline).end == deadline + 1;
    }
  }

  lemma {:induction false} ConnectsAtTheEnd(w: Wifi, deadline: int, turn: Turn)
    requires w.device == Client && w.gateway && w.request(0) == turn && w.begin < deadline <= w.begin + INT_MAX
    requires turn == Turn(0, true, (deadline - w.begin) as nat, Connected)
    ensures WifiRequest(w, deadline).ok && WifiRequest(w, deadline).end == deadline
    ensures LastTimeout(WifiRequest(w, deadline)) == deadline - w.begin
  {
    var next := TakeTurn(Request, deadline, turn, Unset, w.begin, 0, []);
    assert next.Done? && next.o.ok && next.o.end == deadline;
    assert next.o.calls[|next.o.calls| - 1] == Connect(w.begin, deadline - w.begin, Connected);
  }

  lemma {:induction false} FirstTransferFails(timeout: int, exchange: nat -> Transfer, now: int)
    requires timeout >= 1 && exchange(0) == Transfer(1, false)
    ensures Exchange(timeout, exchange, 0, now) == (false, now + 1)
  {
  }

  // ---- timeouts beyond INT_MAX -------------------------------------------------------------

  function Never(time: nat): Turn {
    Turn(time, false, 0, Failed)
  }

  /** The timeout given to poll is an int, while a connection timeout may be any unsigned int:
      exactly when the time left at the start fits an int is every call in time and every run
      over by the deadline. */
  lemma {:induction false} DeadlineBoundIff(kind: Kind, start: int, connTimeout: nat, begin: int)
    requires connTimeout < 0x1_0000_0000 && start <= begin <= start + connTimeout
    ensures AlwaysInTime(kind, start + connTimeout, begin) <==> start + connTimeout - begin <= INT_MAX
    ensures AlwaysOver(kind, start + connTimeout, begin) <==> start + connTimeout - begin <= INT_MAX
  {
    hide Run, AllInTime, Justified, Connects;
    var deadline := start + connTimeout;
    if deadline - begin <= INT_MAX {
      forall world: nat -> Turn, flag: Flag
        ensures AllInTime(Run(kind, deadline, world, flag, begin, 0, []).calls, deadline)
        ensures Run(kind, deadline, world, flag, begin, 0, []).end <= deadline
      {
        DeadlineBound(kind, start, connTimeout, world, flag, begin);
      }
    } else {
      var world: nat -> Turn := (i: nat) => Never(0x1_0000_0000);
      EndlessPoll(kind, deadline, world, begin);
      assert !AllInTime(Run(kind, deadline, world, Unset, begin, 0, []).calls, deadline);
    }
  }

  ghost predicate AlwaysInTime(kind: Kind, deadline: int, begin: int) {
    forall world: nat -> Turn, flag: Flag :: AllInTime(Run(kind, deadline, world, flag, begin, 0, []).calls, deadline)
  }

  ghost predicate AlwaysOver(kind: Kind, deadline: int, begin: int) {
    forall world: nat -> Turn, flag: Flag :: Run(kind, deadline, world, flag, begin, 0, []).end <= deadline
  }

  lemma {:induction false} EndlessPoll(kind: Kind, deadline: int, world: nat -> Turn, begin: int)
    requires INT_MAX < deadline - begin < 0x1_0000_0000 && forall i: nat :: world(i) == Never(0x1_0000_0000)
    ensures
      var o := Run(kind, deadline, world, Unset, begin, 0, []);
      !AllInTime(o.calls, deadline) && o.end > deadline
  {
    var timeout := ToInt32(deadline - begin);
    assert timeout < 0;
    var (after, polled) := (begin + 0x1_0000_0000, [Poll(begin, timeout)]);
    assert [] + polled == polled;
    assert !InTime(polled[0], deadline);
    assert TakeTurn(kind, deadline, world(0), Unset, begin, 0, []) ==
           if kind == Peer then Done(Outcome(false, after, polled)) else Again(after, polled);
    if kind == Request {
      assert TakeTurn(kind, deadline, world(1), Unset, after, 1, polled) == Done(Outcome(false, after, polled));
    }
  }

  lemma {:induction false} RunExtends(kind: Kind, deadline: int, world: nat -> Turn, flag: Flag, now: int, retry: nat,
        calls: seq<Call>)
    ensures calls <= Run(kind, deadline, world, flag, now, retry, calls).calls
    decreases MAX_RETRIES - retry
  {
    if retry < MAX_RETRIES {
      var next := TakeTurn(kind, deadline, world(retry), flag, now, retry, calls);
      if next.Again? {
        RunExtends(kind, deadline, world, flag, next.now, retry + 1, next.calls);
      }
    }
  }

  /** A connection timeout of 2147483648 ms makes the first poll wait without limit. */
  lemma {:induction false} TimeoutWraps(kind: Kind, world: nat -> Turn, flag: Flag)
    requires !flag(0)
    ensures
      var calls := Run(kind, 0x8000_0000, world, flag, 0, 0, []).calls;
      calls != [] && calls[0] == Poll(0, -0x8000_0000)
  {
    var polled := [Poll(0, -0x8000_0000)];
    assert [] + polled == polled;
    assert ToInt32(0x8000_0000) == -0x8000_0000;
    var next := TakeTurn(kind, 0x8000_0000, world(0), flag, 0, 0, []);
    assert polled <= if next.Done? then next.o.calls else next.calls;
    if next.Again? {
      RunExtends(kind, 0x8000_0000, world, flag, next.now, 1, next.calls);
    }
  }
}
