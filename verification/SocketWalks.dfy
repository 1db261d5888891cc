/**
 * How runs of the socket machine are built, from their last action to their first: walks
 * through each call, beside threads that do not stand in its way.
 */
module SocketWalks {
  import opened Common
  import opened SocketMachine
  import opened SocketScripts
  import opened SocketRuns
  import opened SocketDiscipline

  /** Some run leads from st to st'. */
  ghost predicate Reaches(cfg: Setting, st: State, st': State) {
    exists actions :: Run(cfg, st, actions) == Some(st')
  }

  lemma {:induction false} Arrive(cfg: Setting, st: State)
    ensures Reaches(cfg, st, st)
  {
    assert Run(cfg, st, []) == Some(st);
  }

  lemma {:induction false} RunTo(cfg: Setting, st: State, st': State) returns (actions: seq<Action>)
    requires Reaches(cfg, st, st')
    ensures Run(cfg, st, actions) == Some(st')
  {
    actions :| Run(cfg, st, actions) == Some(st');
  }

  /** Runs are built from their last action to their first. */
  lemma {:induction false} Go(cfg: Setting, st: State, a: Action, target: State)
    requires Possible(cfg, st, a) && Reaches(cfg, Do(st, a), target)
    ensures Reaches(cfg, st, target)
  {
    hide Exec, Begin, MayStart, CanStep;
    var rest :| Run(cfg, Do(st, a), rest) == Some(target);
    assert ([a] + rest)[1..] == rest;
    assert Run(cfg, st, [a] + rest) == Some(target);
  }

  lemma {:induction false} PutTwice(st: State, t: Tid, th: Thread, th': Thread)
    ensures Put(Put(st, t, th), t, th') == Put(st, t, th')
  {
    assert st.threads[t := th][t := th'] == st.threads[t := th'];
  }

  lemma {:induction false} UpdateOfPut(st: State, t: Tid, x: Thread, c: Record)
    ensures Update(Put(st, t, x), c) == Put(Update(st, c), t, x)
  {
    assert Target(Put(st, t, x), c) == Target(st, c);
  }

  lemma {:induction false} CreateConfigOfPut(st: State, t: Tid, x: Thread, b: Sock)
    ensures CreateConfig(Put(st, t, x), b) == Put(CreateConfig(st, b), t, x)
  {
    if b in st.device {
      UpdateOfPut(st, t, x, Record(b, st.device[b]));
      hide Update;
    }
  }

  lemma {:induction false} RemoveConfigOfPut(st: State, t: Tid, x: Thread, b: Sock)
    ensures RemoveConfig(Put(st, t, x), b) == Put(RemoveConfig(st, b), t, x)
  {
  }

  /** Instructions do not look at other threads. */
  lemma {:induction false} EffectOfPut(st: State, t: Tid, x: Thread, s: Script, b: Sock, copy: Option<Record>)
    ensures Effect(Put(st, t, x), s, b, copy) == Put(Effect(st, s, b, copy), t, x)
  {
    hide CreateConfig, RemoveConfig, Update;
    CreateConfigOfPut(st, t, x, b);
    RemoveConfigOfPut(st, t, x, b);
    if copy.Some? {
      UpdateOfPut(st, t, x, copy.value);
    }
  }

  lemma {:induction false} NextOfPut(st: State, t: Tid, x: Thread, th: Thread, choice: bool)
    ensures NextThread(Put(st, t, x), th, choice) == NextThread(st, th, choice)
  {
    hide DestroyScript, Newest;
  }

  /** One step of t, from and to states that differ from st and st' only in t. */
  lemma {:induction false} Step1(cfg: Setting, st: State, st': State, t: Tid, th: Thread, th': Thread, choice: bool,
        target: State)
    requires th.script != Return && !th.script.Lock?
    requires Effect(st, th.script, th.bsock, th.copy) == st' && NextThread(st, th, choice) == th'
    requires Reaches(cfg, Put(st', t, th'), target)
    ensures Reaches(cfg, Put(st, t, th), target)
  {
    hide Effect, NextThread, Reaches;
    EffectOfPut(st, t, th, th.script, th.bsock, th.copy);
    NextOfPut(st, t, th, th, choice);
    PutTwice(st', t, th, th');
    Go(cfg, Put(st, t, th), Step(t, choice), target);
  }

  /** No other thread keeps t from taking m. */
  ghost predicate Allowed(st: State, t: Tid, m: Mutex, mode: Mode, b: Sock) {
    forall u :: u in st.threads && u != t ==>
      !HoldsAgainst(st.threads[u], m, mode, b) && (mode == Shared ==> !WaitsExclusively(st.threads[u], m, b))
  }

  lemma {:induction false} GoLock(cfg: Setting, st: State, t: Tid, h: Held, b: Sock, m: Mutex, mode: Mode, next: Script,
        target: State)
    requires (m == Recursive || h.Of(m) == Free) && Allowed(st, t, m, mode, b)
    requires Reaches(cfg, Put(st, t, Thread(h.With(m, mode), b, next)), target)
    ensures Reaches(cfg, Put(st, t, Thread(h, b, Lock(m, mode, next))), target)
  {
    GoLockWith(cfg, st, t, h, b, m, mode, next, None, target);
  }

  /** ... with a copy at hand. */
  lemma {:induction false} GoLockWith(cfg: Setting, st: State, t: Tid, h: Held, b: Sock, m: Mutex, mode: Mode,
        next: Script, copy: Option<Record>, target: State)
    requires (m == Recursive || h.Of(m) == Free) && Allowed(st, t, m, mode, b)
    requires Reaches(cfg, Put(st, t, Thread(h.With(m, mode), b, next, copy)), target)
    ensures Reaches(cfg, Put(st, t, Thread(h, b, Lock(m, mode, next), copy)), target)
  {
    hide Reaches, DestroyScript;
    var th, th' := Thread(h, b, Lock(m, mode, next), copy), Thread(h.With(m, mode), b, next, copy);
    PutTwice(st, t, th, th');
    assert Possible(cfg, Put(st, t, th), Step(t, true));
    Go(cfg, Put(st, t, th), Step(t, true), target);
  }

  lemma {:induction false} GoUnlock(cfg: Setting, st: State, t: Tid, h: Held, b: Sock, m: Mutex, next: Script,
        target: State)
    requires Reaches(cfg, Put(st, t, Thread(h.With(m, Free), b, next)), target)
    ensures Reaches(cfg, Put(st, t, Thread(h, b, Unlock(m, next))), target)
  {
    hide Reaches, DestroyScript;
    Step1(cfg, st, st, t, Thread(h, b, Unlock(m, next)), Thread(h.With(m, Free), b, next), true, target);
  }

  lemma {:induction false} GoListed(cfg: Setting, st: State, t: Tid, h: Held, b: Sock, yes: Script, no: Script,
        target: State)
    requires b in st.listed && Reaches(cfg, Put(st, t, Thread(h, b, yes)), target)
    ensures Reaches(cfg, Put(st, t, Thread(h, b, IfListed(yes, no))), target)
  {
    hide Reaches, DestroyScript;
    Step1(cfg, st, st, t, Thread(h, b, IfListed(yes, no)), Thread(h, b, yes), true, target);
  }

  /** No other thread holds or awaits any mutex ranked from the creation mutex up. */
  ghost predicate Quiet(st: State, t: Tid) {
    forall u :: u in st.threads && u != t ==>
      var th := st.threads[u];
      && th.held.creation == Free && th.held.recursive == 0 && th.held.registry == Free
      && th.held.config == Free && th.held.ports == Free
      && (th.script.Lock? ==> th.script.m == Deletion || th.script.m == ThisSocket)
  }

  lemma {:induction false} QuietAllows(st: State, t: Tid, m: Mutex, mode: Mode, b: Sock)
    requires Quiet(st, t) && m != Deletion && m != ThisSocket
    ensures Allowed(st, t, m, mode, b)
  {
  }

  lemma {:induction false} GoExists(cfg: Setting, st: State, t: Tid, h: Held, b: Sock, yes: Script, no: Script,
        target: State)
    requires Allowed(st, t, Recursive, Exclusive, b) && b in st.listed
    requires Reaches(cfg, Put(st, t, Thread(h, b, yes)), target)
    ensures Reaches(cfg, Put(st, t, Thread(h, b, RegistryExists(yes, no))), target)
  {
    hide Reaches;
    var h1 := h.With(Recursive, Exclusive);
    assert h1.With(Recursive, Free) == h;
    GoUnlock(cfg, st, t, h1, b, Recursive, yes, target);
    GoListed(cfg, st, t, h1, b, Unlock(Recursive, yes), Unlock(Recursive, no), target);
    GoLock(cfg, st, t, h, b, Recursive, Exclusive, IfListed(Unlock(Recursive, yes), Unlock(Recursive, no)), target);
  }

  // ---- bratislavaSocket, alone, for a link whose id is not in the index ---------------------

  /** A new socket with its adapter, not yet registered. */
  function Made(st: State, link: Link): State {
    var n := st.nextSock;
    st.(nextSock := n + 1, alive := st.alive + {n}, adapters := st.adapters + {n}, device := st.device[n := link.mac])
  }

  function Opened(st: State, link: Link): State {
    CreateConfig(Made(st, link), st.nextSock).(listed := st.listed + {st.nextSock})
  }

  lemma {:induction false} GoAdd(cfg: Setting, st: State, t: Tid, b: Sock, next: Script, target: State)
    requires Quiet(st, t)
    requires Reaches(cfg, Put(CreateConfig(st, b).(listed := st.listed + {b}), t, Thread(IN_CREATION, b, next)), target)
    ensures Reaches(cfg, Put(st, t, Thread(IN_CREATION, b, RegistryAdd(next))), target)
  {
    hide Reaches, CreateConfig, DestroyScript;
    var h1 := IN_CREATION.With(Recursive, Exclusive);
    var h2 := h1.With(Config, Exclusive);
    var st1 := CreateConfig(st, b);
    var st2 := st1.(listed := st.listed + {b});
    assert st1.listed == st.listed && st1.threads == st.threads by { CreateConfigKeeps(st, b); }
    assert h1.With(Recursive, Free) == IN_CREATION && h2.With(Config, Free) == h1;
    var s4 := Unlock(Recursive, next);
    var s3 := ListSocket(s4);
    var s2 := IndexSocket(Unlock(Config, s3));
    GoUnlock(cfg, st2, t, h1, b, Recursive, next, target);
    Step1(cfg, st1, st2, t, Thread(h1, b, s3), Thread(h1, b, s4), true, target);
    GoUnlock(cfg, st1, t, h2, b, Config, s3, target);
    Step1(cfg, st, st1, t, Thread(h2, b, s2), Thread(h2, b, Unlock(Config, s3)), true, target);
    QuietAllows(st, t, Config, Exclusive, b);
    GoLock(cfg, st, t, h1, b, Config, Exclusive, s2, target);
    QuietAllows(st, t, Recursive, Exclusive, b);
    GoLock(cfg, st, t, IN_CREATION, b, Recursive, Exclusive, Lock(Config, Exclusive, s2), target);
  }

  lemma {:induction false} CreateConfigKeeps(st: State, b: Sock)
    ensures CreateConfig(st, b).listed == st.listed && CreateConfig(st, b).threads == st.threads
  {
  }

  lemma {:induction false} GoLeave(cfg: Setting, st: State, t: Tid, b: Sock, target: State)
    requires Reaches(cfg, Put(st, t, Thread(NOTHING, b, Return)), target)
    ensures Reaches(cfg, Put(st, t, Thread(IN_CREATION, b, LeaveOpen(Return))), target)
  {
    hide Reaches;
    var h := IN_CREATION.With(Creation, Free);
    assert h.With(Deletion, Free) == NOTHING;
    GoUnlock(cfg, st, t, h, b, Deletion, Return, target);
    GoUnlock(cfg, st, t, IN_CREATION, b, Creation, Unlock(Deletion, Return), target);
  }

  lemma {:induction false} GoMake(cfg: Setting, st: State, t: Tid, b: Sock, link: Link, target: State)
    requires Quiet(st, t) && link.supported
    requires Reaches(cfg, Put(Opened(st, link), t, Thread(NOTHING, st.nextSock, Return)), target)
    ensures
      Reaches(cfg, Put(st, t, Thread(IN_CREATION, b, MakeNew(link, Return, Return))), target)
  {
    hide Reaches, CreateConfig, DestroyScript;
    var n, end := st.nextSock, LeaveOpen(Return);
    var st1 := st.(nextSock := n + 1, alive := st.alive + {n}, device := st.device[n := link.mac]);
    GoLeave(cfg, Opened(st, link), t, n, target);
    Step1(cfg, Opened(st, link), Opened(st, link), t,
          Thread(IN_CREATION, n, Returning(link, end)), Thread(IN_CREATION, n, end), true, target);
    GoAdd(cfg, Made(st, link), t, n, Returning(link, end), target);
    var add := RegistryAdd(Returning(link, end));
    Step1(cfg, st1, Made(st, link), t, Thread(IN_CREATION, n, NewAdapter(add)), Thread(IN_CREATION, n, add), true,
      target);
    var rest := NewAdapter(add);
    Step1(cfg, st, st1, t, Thread(IN_CREATION, b, NewSocket(link, rest)), Thread(IN_CREATION, n, rest), true, target);
  }

  /** All threads have returned and hold nothing. */
  ghost predicate Idle(st: State) {
    forall u :: u in st.threads ==> st.threads[u].held == NOTHING && st.threads[u].script == Return
  }

  lemma {:induction false} GoToMake(cfg: Setting, st: State, t: Tid, link: Link, found: Script, made: Script,
        target: State)
    requires Idle(st) && link.linkID !in st.byDevice
    requires Reaches(cfg, Put(st, t, Thread(IN_CREATION, 0, made)), target)
    ensures Reaches(cfg, Put(st, t, Thread(IN_CREATION, 0, RegistryExistsDevice(link.linkID, found, made))), target)
  {
    hide Reaches, DestroyScript;
    var h1 := IN_CREATION.With(Recursive, Exclusive);
    var h2 := h1.With(Config, Shared);
    assert h1.With(Recursive, Free) == IN_CREATION && h2.With(Config, Free) == h1;
    var no, yes := Unlock(Recursive, made), Unlock(Recursive, found);
    GoUnlock(cfg, st, t, h1, 0, Recursive, made, target);
    GoUnlock(cfg, st, t, h2, 0, Config, no, target);
    var test := IfIndexed(link.linkID, Unlock(Config, yes), Unlock(Config, no));
    Step1(cfg, st, st, t, Thread(h2, 0, test), Thread(h2, 0, Unlock(Config, no)), true, target);
    GoLock(cfg, st, t, h1, 0, Config, Shared, test, target);
    GoLock(cfg, st, t, IN_CREATION, 0, Recursive, Exclusive, Lock(Config, Shared, test), target);
  }

  /** The state with the call of thread t on record. */
  function Called(st: State, t: Tid, call: Call): State {
    st.(calls := st.calls[t := call])
  }

  /** Idle threads stand in nobody's way. */
  lemma {:induction false} IdleAllows(st: State, t: Tid, call: Call, m: Mutex, mode: Mode, b: Sock)
    requires Idle(st)
    ensures
      var st1 := Called(st, t, call);
      Allowed(st1, t, m, mode, b) && Idle(st1) && Quiet(st1, t) && OutOfTheWay(st1, t)
  {
  }

  /** With nothing in progress any call may begin. */
  lemma {:induction false} GoStart(cfg: Setting, st: State, t: Tid, call: Call, target: State)
    requires Idle(st) && MayBeMade(cfg, call)
    requires
      var b := if PointerOf(call).Some? then PointerOf(call).value else 0;
      Reaches(cfg, Put(Called(st, t, call), t, Thread(NOTHING, b, ScriptOf(call))), target)
    ensures Reaches(cfg, st, target)
  {
    hide Reaches, ScriptOf, MayBeMade, MayAccompany;
    assert MayStart(cfg, st, t, call);
    Go(cfg, st, Start(t, call), target);
  }

  lemma {:induction false} GoOpen(cfg: Setting, st: State, t: Tid, link: Link, target: State)
    requires link in cfg.links && link.supported && link.linkID !in st.byDevice && Idle(st)
    requires Reaches(cfg, Put(Opened(Called(st, t, Open(link)), link), t, Thread(NOTHING, st.nextSock, Return)), target)
    ensures Reaches(cfg, st, target)
  {
    hide Reaches, CreateConfig;
    var st1 := Called(st, t, Open(link));
    var made := MakeNew(link, Return, Return);
    var found := Lock(Config, Shared, LoadIndexed(link.linkID,
      Unlock(Config, Returning(link, LeaveOpen(Return))), Unlock(Config, LeaveOpen(Return))));
    var rest := RegistryExistsDevice(link.linkID, found, made);
    assert ScriptOf(Open(link)) == Lock(Deletion, Shared, Lock(Creation, Exclusive, rest));
    hide ScriptOf, RegistryExistsDevice, Opened, Allowed, Quiet, Idle, OutOfTheWay;
    IdleAllows(st, t, Open(link), Creation, Exclusive, 0);
    IdleAllows(st, t, Open(link), Deletion, Shared, 0);
    GoMake(cfg, st1, t, 0, link, target);
    GoToMake(cfg, st1, t, link, found, made, target);
    var h0 := NOTHING.With(Deletion, Shared);
    assert h0.With(Creation, Exclusive) == IN_CREATION;
    GoLock(cfg, st1, t, h0, 0, Creation, Exclusive, rest, target);
    GoLock(cfg, st1, t, NOTHING, 0, Deletion, Shared, Lock(Creation, Exclusive, rest), target);
    GoStart(cfg, st, t, Open(link), target);
  }

  // ---- one and two registered sockets ---------------------------------------------------------

  /** A socket opened by thread 0. */
  function OpenedNext(st: State, link: Link): State {
    Put(Opened(Called(st, 0, Open(link)), link), 0, Thread(NOTHING, st.nextSock, Return))
  }

  lemma {:induction false} GoOpenNext(cfg: Setting, st: State, link: Link, target: State)
    requires link in cfg.links && link.supported && link.linkID !in st.byDevice && Idle(st)
    requires Reaches(cfg, OpenedNext(st, link), target)
    ensures Reaches(cfg, st, target)
  {
    hide Reaches, Opened, Idle;
    GoOpen(cfg, st, 0, link, target);
  }

  function OpenedOnce(link: Link): State {
    OpenedNext(INITIAL, link)
  }

  function OpenedTwice(link: Link): State {
    OpenedNext(OpenedOnce(link), link)
  }

  lemma {:induction false} AfterOpening(link: Link)
    ensures
      var st := OpenedOnce(link);
      && st.threads == map[0 := Thread(NOTHING, 0, Return)] && st.calls == map[0 := Open(link)]
      && st.nextSock == 1 && st.listed == {0} && st.alive == {0} && st.adapters == {0}
      && st.device == map[0 := link.mac]
      && st.nextRec == 1 && st.records == map[0 := Record(0, link.mac)] && st.freed == {}
      && st.byDevice == map[link.mac := 0] && st.bySocket == map[0 := 0]
  {
  }

  /** The second socket shares the record of the first one. */
  lemma {:induction false} AfterOpeningTwice(link: Link)
    ensures
      var st := OpenedTwice(link);
      && st.threads == map[0 := Thread(NOTHING, 1, Return)] && st.calls == map[0 := Open(link)]
      && st.listed == {0, 1} && st.alive == {0, 1} && st.adapters == {0, 1}
      && st.device == map[0 := link.mac, 1 := link.mac]
      && st.records == map[0 := Record(1, link.mac)] && st.freed == {}
      && st.byDevice == map[link.mac := 0] && st.bySocket == map[0 := 0, 1 := 0]
  {
    AfterOpening(link);
    hide OpenedOnce;
  }

  lemma {:induction false} GoOpenOnce(cfg: Setting, link: Link, target: State)
    requires link in cfg.links && link.supported && Reaches(cfg, OpenedOnce(link), target)
    ensures Reaches(cfg, INITIAL, target)
  {
    hide Reaches, OpenedNext;
    GoOpenNext(cfg, INITIAL, link, target);
  }

  lemma {:induction false} GoOpenTwice(cfg: Setting, link: Link, target: State)
    requires link in cfg.links && link.supported && link.linkID != link.mac && Reaches(cfg, OpenedTwice(link), target)
    ensures Reaches(cfg, INITIAL, target)
  {
    hide Reaches;
    AfterOpening(link);
    hide OpenedOnce, OpenedNext;
    GoOpenNext(cfg, OpenedOnce(link), link, target);
    GoOpenOnce(cfg, link, target);
  }

  // ---- bratislavaDestroy beside idle or waiting threads -----------------------------------------

  /** Writing the config of b back to where it was read changes nothing. */
  predicate WritesBack(st: State, b: Sock) {
    Found(st, b).Some? && Update(st, Found(st, b).value) == st
  }

  /** What a destroyer holds while it removes its socket from the registry. */
  function InRemove(solo: bool): Held {
    InDestroy(solo).With(Recursive, Exclusive)
  }

  /** GetConfig(socket) under the registry mutex. */
  lemma {:induction false} GoGetConfig(cfg: Setting, st: State, t: Tid, h: Held, b: Sock, next: Script, target: State)
    requires Quiet(st, t) && h.config == Free
    requires Reaches(cfg, Put(st, t, Thread(h, b, next, Found(st, b))), target)
    ensures Reaches(cfg, Put(st, t, Thread(h, b, GetConfig(BySocket, next))), target)
  {
    hide Reaches, DestroyScript, Found;
    var h1 := h.With(Config, Shared);
    assert h1.With(Config, Free) == h;
    var out := Unlock(Config, next);
    Step1(cfg, st, st, t, Thread(h1, b, out, Found(st, b)), Thread(h, b, next, Found(st, b)), true, target);
    Step1(cfg, st, st, t, Thread(h1, b, CopyBySocket(out)), Thread(h1, b, out, Found(st, b)), true, target);
    QuietAllows(st, t, Config, Shared, b);
    GoLock(cfg, st, t, h, b, Config, Shared, CopyBySocket(out), target);
  }

  lemma {:induction false} GoRelease(cfg: Setting, st: State, t: Tid, solo: bool, b: Sock, next: Script, target: State)
    requires Quiet(st, t) && Found(st, b).Some? && Reaches(cfg, Put(st, t, Thread(InRemove(solo), b, next)), target)
    ensures Reaches(cfg, Put(st, t, Thread(InRemove(solo), b, RegistryReleaseLocalPort(next))), target)
  {
    hide Reaches, DestroyScript, Found;
    var h := InRemove(solo).With(Registry, Exclusive);
    assert h.With(Registry, Free) == InRemove(solo);
    var c, out := Found(st, b), Unlock(Registry, next);
    Step1(cfg, st, st, t, Thread(h, b, out, c), Thread(InRemove(solo), b, next), true, target);
    Step1(cfg, st, st, t, Thread(h, b, PutPort(next), c), Thread(h, b, out, c), true, target);
    hide PutPort;
    var test := IfCopied(PutPort(next), out);
    Step1(cfg, st, st, t, Thread(h, b, test, c), Thread(h, b, PutPort(next), c), true, target);
    GoGetConfig(cfg, st, t, h, b, test, target);
    QuietAllows(st, t, Registry, Exclusive, b);
    hide GetConfig;
    GoLock(cfg, st, t, InRemove(solo), b, Registry, Exclusive, GetConfig(BySocket, test), target);
  }

  lemma {:induction false} GoUpdate(cfg: Setting, st: State, t: Tid, solo: bool, b: Sock, next: Script, target: State)
    requires Quiet(st, t) && WritesBack(st, b) && Reaches(cfg, Put(st, t, Thread(InRemove(solo), b, next)), target)
    ensures Reaches(cfg, Put(st, t, Thread(InRemove(solo), b, RegistryUpdate(next))), target)
  {
    hide Reaches, DestroyScript, Found, Update;
    var h := InRemove(solo).With(Registry, Exclusive);
    var h1 := h.With(Config, Exclusive);
    assert h.With(Registry, Free) == InRemove(solo) && h1.With(Config, Free) == h;
    var c, out := Found(st, b), Unlock(Registry, next);
    Step1(cfg, st, st, t, Thread(h, b, out, c), Thread(InRemove(solo), b, next), true, target);
    Step1(cfg, st, st, t, Thread(h1, b, Unlock(Config, out), c), Thread(h, b, out, c), true, target);
    Step1(cfg, st, st, t, Thread(h1, b, WriteBack(Unlock(Config, out)), c), Thread(h1, b, Unlock(Config, out), c), true,
      target);
    QuietAllows(st, t, Config, Exclusive, b);
    GoLockWith(cfg, st, t, h, b, Config, Exclusive, WriteBack(Unlock(Config, out)), c, target);
    GoTestAndGet(cfg, st, t, h, b, PutConfig(next), out, target);
    QuietAllows(st, t, Registry, Exclusive, b);
    hide GetConfig, PutConfig;
    GoLock(cfg, st, t, InRemove(solo), b, Registry, Exclusive, ReadThenUpdate(BySocket, next), target);
  }

  lemma {:induction false} GoTestAndGet(cfg: Setting, st: State, t: Tid, h: Held, b: Sock, found: Script,
        missing: Script, target: State)
    requires Quiet(st, t) && h.config == Free && Found(st, b).Some?
    requires Reaches(cfg, Put(st, t, Thread(h, b, found, Found(st, b))), target)
    ensures Reaches(cfg, Put(st, t, Thread(h, b, GetConfig(BySocket, IfCopied(found, missing)))), target)
  {
    hide Reaches, DestroyScript, Found, GetConfig;
    var c := Found(st, b);
    Step1(cfg, st, st, t, Thread(h, b, IfCopied(found, missing), c), Thread(h, b, found, c), true, target);
    GoGetConfig(cfg, st, t, h, b, IfCopied(found, missing), target);
  }

  function Removed(st: State, b: Sock): State {
    RemoveConfig(st, b).(listed := st.listed - {b})
  }

  lemma {:induction false} RemoveConfigKeeps(st: State, b: Sock)
    ensures RemoveConfig(st, b).listed == st.listed && RemoveConfig(st, b).threads == st.threads
  {
  }

  lemma {:induction false} GoErase(cfg: Setting, st: State, t: Tid, solo: bool, b: Sock, next: Script, target: State)
    requires Quiet(st, t)
    requires Reaches(cfg, Put(Removed(st, b), t, Thread(InDestroy(solo), b, next)), target)
    ensures Reaches(cfg, Put(st, t, Thread(InRemove(solo), b, EraseSocket(next))), target)
  {
    hide Reaches, RemoveConfig, DestroyScript;
    RemoveConfigKeeps(st, b);
    var h := InRemove(solo).With(Config, Exclusive);
    assert InRemove(solo).With(Recursive, Free) == InDestroy(solo) && h.With(Config, Free) == InRemove(solo);
    var st1 := RemoveConfig(st, b);
    var s1 := UnlistSocket(Unlock(Recursive, next));
    var s2 := UnindexSocket(Unlock(Config, s1));
    GoUnlock(cfg, Removed(st, b), t, InRemove(solo), b, Recursive, next, target);
    Step1(cfg, st1, Removed(st, b), t, Thread(InRemove(solo), b, s1),
      Thread(InRemove(solo), b, Unlock(Recursive, next)), true, target);
    GoUnlock(cfg, st1, t, h, b, Config, s1, target);
    Step1(cfg, st, st1, t, Thread(h, b, s2), Thread(h, b, Unlock(Config, s1)), true, target);
    QuietAllows(st, t, Config, Exclusive, b);
    GoLock(cfg, st, t, InRemove(solo), b, Config, Exclusive, s2, target);
  }

  lemma {:induction false} GoRemove(cfg: Setting, st: State, t: Tid, solo: bool, b: Sock, yes: Script, no: Script,
        target: State)
    requires Quiet(st, t) && b in st.listed && WritesBack(st, b)
    requires Reaches(cfg, Put(Removed(st, b), t, Thread(InDestroy(solo), b, yes)), target)
    ensures Reaches(cfg, Put(st, t, Thread(InDestroy(solo), b, RegistryRemove(yes, no))), target)
  {
    hide Reaches, EraseSocket, RegistryUpdate, RegistryReleaseLocalPort, Update, Found;
    GoErase(cfg, st, t, solo, b, yes, target);
    GoUpdate(cfg, st, t, solo, b, EraseSocket(yes), target);
    GoRelease(cfg, st, t, solo, b, RegistryUpdate(EraseSocket(yes)), target);
    var body := RegistryReleaseLocalPort(RegistryUpdate(EraseSocket(yes)));
    assert InDestroy(solo).With(Recursive, Exclusive) == InRemove(solo);
    GoListed(cfg, st, t, InRemove(solo), b, body, Unlock(Recursive, no), target);
    QuietAllows(st, t, Recursive, Exclusive, b);
    GoLock(cfg, st, t, InDestroy(solo), b, Recursive, Exclusive, IfListed(body, Unlock(Recursive, no)), target);
  }

  /** Deleting the adapter and the socket. */
  lemma {:induction false} GoDelete(cfg: Setting, st: State, t: Tid, solo: bool, b: Sock, next: Script, target: State)
    requires Reaches(cfg, Put(st.(adapters := st.adapters - {b}, alive := st.alive - {b}), t,
      Thread(Around(solo), b, next)), target)
    ensures Reaches(cfg, Put(st, t, Thread(InDestroy(solo), b, DeleteObjects(next))), target)
  {
    hide Reaches, DestroyScript;
    var h1 := Around(solo).With(Deletion, Exclusive);
    var hc := h1.With(Creation, Exclusive);
    assert InDestroy(solo).With(ThisSocket, Free) == hc && hc.With(Creation, Free) == h1
      && h1.With(Deletion, Free) == Around(solo);
    var st2 := st.(adapters := st.adapters - {b});
    var st3 := st2.(alive := st.alive - {b});
    var s1 := Unlock(Deletion, next);
    var s2 := Unlock(Creation, s1);
    var s3 := DeleteSocket(s2);
    var s4 := Unlock(ThisSocket, s3);
    GoUnlock(cfg, st3, t, h1, b, Deletion, next, target);
    GoUnlock(cfg, st3, t, hc, b, Creation, s1, target);
    Step1(cfg, st2, st3, t, Thread(hc, b, s3), Thread(hc, b, s2), true, target);
    GoUnlock(cfg, st2, t, InDestroy(solo), b, ThisSocket, s3, target);
    Step1(cfg, st, st2, t, Thread(InDestroy(solo), b, DeleteAdapter(s4)), Thread(InDestroy(solo), b, s4), true, target);
  }

  /** Everybody else is idle or waits for the deletion mutex. */
  ghost predicate OutOfTheWay(st: State, t: Tid) {
    forall u :: u in st.threads && u != t ==>
      st.threads[u].held == NOTHING && (st.threads[u].script.Lock? ==> st.threads[u].script.m == Deletion)
  }

  function Deleted(st: State, b: Sock): State {
    Removed(st, b).(adapters := st.adapters - {b}, alive := st.alive - {b})
  }

  lemma {:induction false} RemovedKeeps(st: State, b: Sock)
    ensures Removed(st, b).adapters == st.adapters && Removed(st, b).alive == st.alive
  {
  }

  /** The rest of bratislavaDestroy, with everybody else out of the way. */
  lemma {:induction false} GoDrain(cfg: Setting, st: State, t: Tid, solo: bool, b: Sock, next: Script, target: State)
    requires OutOfTheWay(st, t) && b in st.listed && WritesBack(st, b)
    requires Reaches(cfg, Put(Deleted(st, b), t, Thread(Around(solo), b, next)), target)
    ensures Reaches(cfg, Put(st, t, Thread(Around(solo), b, DrainAndDelete(next))), target)
  {
    hide Reaches, Removed, WritesBack, DeleteObjects, LeaveDestroy, RegistryRemove, RegistryExists;
    var h1 := Around(solo).With(Deletion, Exclusive);
    var h2 := h1.With(ThisSocket, Exclusive);
    assert h2.With(Creation, Exclusive) == InDestroy(solo);
    RemovedKeeps(st, b);
    GoDelete(cfg, Removed(st, b), t, solo, b, next, target);
    var remove := RegistryRemove(DeleteObjects(next), LeaveDestroy(next));
    GoRemove(cfg, st, t, solo, b, DeleteObjects(next), LeaveDestroy(next), target);
    QuietAllows(st, t, Recursive, Exclusive, b);
    GoExists(cfg, st, t, InDestroy(solo), b, remove, LeaveDestroy(next), target);
    var rest := AfterDraining(next);
    GoLock(cfg, st, t, h2, b, Creation, Exclusive, rest, target);
    GoLock(cfg, st, t, h1, b, ThisSocket, Exclusive, Lock(Creation, Exclusive, rest), target);
    GoLock(cfg, st, t, Around(solo), b, Deletion, Exclusive,
      Lock(ThisSocket, Exclusive, Lock(Creation, Exclusive, rest)), target);
  }

  const PINNING: Held := NOTHING.(deletion := Shared)

  /** bratislavaDestroy up to the end of the interrupt, beside threads that only read. */
  lemma {:induction false} GoInterrupt(cfg: Setting, st: State, t: Tid, solo: bool, b: Sock, next: Script,
        target: State)
    requires Quiet(st, t) && b in st.listed
    requires Allowed(st, t, Deletion, Shared, b)
    requires Reaches(cfg, Put(st, t,
      Thread(Around(solo).With(Deletion, Shared), b, Unlock(Deletion, DrainAndDelete(next)))), target)
    ensures Reaches(cfg, Put(st, t, Thread(Around(solo), b, DestroyScript(next))), target)
  {
    hide Reaches, DrainAndDelete, RegistryExists;
    var s1 := Unlock(Deletion, DrainAndDelete(next));
    var h := Around(solo).With(Deletion, Shared);
    Step1(cfg, st, st, t, Thread(h, b, UseAdapter(s1)), Thread(h, b, s1), true, target);
    QuietAllows(st, t, Recursive, Exclusive, b);
    GoExists(cfg, st, t, h, b, UseAdapter(s1), Unlock(Deletion, next), target);
    GoLock(cfg, st, t, Around(solo), b, Deletion, Shared, RegistryExists(UseAdapter(s1), Unlock(Deletion, next)),
      target);
  }

  /** bratislavaDestroy alone. */
  lemma {:induction false} GoDestroy(cfg: Setting, st: State, t: Tid, b: Sock, target: State)
    requires cfg.destroys != Never && Idle(st) && b in st.listed && WritesBack(st, b)
    requires Reaches(cfg, Put(Deleted(Called(st, t, Destroy(Some(b))), b), t, Thread(NOTHING, b, Return)), target)
    ensures Reaches(cfg, st, target)
  {
    hide Reaches, DrainAndDelete, DestroyScript, Deleted, Allowed, Quiet, Idle, OutOfTheWay;
    var st1 := Called(st, t, Destroy(Some(b)));
    assert WritesBack(st1, b) by { WritesBackCalled(st, t, Destroy(Some(b)), b); }
    hide WritesBack;
    IdleAllows(st, t, Destroy(Some(b)), Deletion, Shared, b);
    GoDrain(cfg, st1, t, false, b, Return, target);
    assert PINNING.With(Deletion, Free) == NOTHING;
    GoUnlock(cfg, st1, t, PINNING, b, Deletion, DrainAndDelete(Return), target);
    GoInterrupt(cfg, st1, t, false, b, Return, target);
    GoStart(cfg, st, t, Destroy(Some(b)), target);
  }

  lemma {:induction false} WritesBackCalled(st: State, t: Tid, call: Call, b: Sock)
    requires WritesBack(st, b)
    ensures WritesBack(Called(st, t, call), b)
  {
  }

  /** bratislavaSend up to its look at the config of a registered socket. */
  lemma {:induction false} GoSend(cfg: Setting, st: State, t: Tid, b: Sock, target: State)
    requires Idle(st) && b in st.listed
    requires
      var rest := Branch(Unpin(Return), AdapterIO(Unpin(Return)));
      var h := Pinned(Shared).With(Registry, Shared).With(Config, Shared);
      Reaches(cfg, Put(Called(st, t, Send(Some(b))), t,
                       Thread(h, b, CopyBySocket(Unlock(Config, Unlock(Registry, rest))))), target)
    ensures Reaches(cfg, st, target)
  {
    hide Reaches, AdapterIO, RegistryExists, Allowed, Quiet, Idle, OutOfTheWay;
    var st1 := Called(st, t, Send(Some(b)));
    IdleAllows(st, t, Send(Some(b)), Deletion, Shared, b);
    IdleAllows(st, t, Send(Some(b)), ThisSocket, Shared, b);
    var rest := Branch(Unpin(Return), AdapterIO(Unpin(Return)));
    var body := RegistryRead(BySocket, rest);
    var h := Pinned(Shared);
    var h1 := h.With(Registry, Shared);
    var copy := CopyBySocket(Unlock(Config, Unlock(Registry, rest)));
    assert body == Lock(Registry, Shared, Lock(Config, Shared, copy));
    QuietAllows(st1, t, Config, Shared, b);
    GoLock(cfg, st1, t, h1, b, Config, Shared, copy, target);
    QuietAllows(st1, t, Registry, Shared, b);
    GoLock(cfg, st1, t, h, b, Registry, Shared, Lock(Config, Shared, copy), target);
    var hp := PINNING.With(ThisSocket, Shared);
    assert hp.With(Deletion, Free) == h && NOTHING.With(Deletion, Shared) == PINNING;
    GoUnlock(cfg, st1, t, hp, b, Deletion, body, target);
    var yes, no := Lock(ThisSocket, Shared, Unlock(Deletion, body)), Unlock(Deletion, Return);
    GoLock(cfg, st1, t, PINNING, b, ThisSocket, Shared, Unlock(Deletion, body), target);
    QuietAllows(st1, t, Recursive, Exclusive, b);
    GoExists(cfg, st1, t, PINNING, b, yes, no, target);
    GoLock(cfg, st1, t, NOTHING, b, Deletion, Shared, RegistryExists(yes, no), target);
    GoStart(cfg, st, t, Send(Some(b)), target);
  }

  // ---- sockets opened and destroyed again ----------------------------------------------------------

  /** ... and destroyed again. */
  function DestroyedAgain(st: State, b: Sock): State {
    Put(Deleted(Called(st, 0, Destroy(Some(b))), b), 0, Thread(NOTHING, b, Return))
  }

  /** The state after k sockets have been opened and destroyed one after the other. */
  function AfterRounds(link: Link, k: nat): State {
    if k == 0 then INITIAL else DestroyedAgain(OpenedNext(AfterRounds(link, k - 1), link), k - 1)
  }

  /** Nothing is registered, and the next socket is the k-th. */
  ghost predicate Cleared(st: State, k: nat) {
    && Idle(st) && st.threads.Keys <= {0} && st.calls.Keys <= {0}
    && st.nextSock == k && st.listed == {} && st.byDevice == map[] && st.bySocket == map[]
  }

  /** Only socket k is registered, with a record of its own. */
  ghost predicate Single(st: State, k: nat, link: Link) {
    && st.threads == map[0 := Thread(NOTHING, k, Return)] && st.calls == map[0 := Open(link)]
    && st.nextSock == k + 1 && st.listed == {k}
    && k in st.bySocket && st.bySocket == map[k := st.bySocket[k]] && st.byDevice == map[link.mac := st.bySocket[k]]
    && st.bySocket[k] in st.records && st.records[st.bySocket[k]] == Record(k, link.mac)
  }

  lemma {:induction false} OpenedIsSingle(st: State, k: nat, link: Link)
    requires Cleared(st, k)
    ensures Single(OpenedNext(st, link), k, link)
  {
  }

  lemma {:induction false} SingleWritesBack(st: State, k: nat, link: Link)
    requires Single(st, k, link)
    ensures WritesBack(st, k) && Idle(st)
  {
    assert st.records[st.bySocket[k] := Record(k, link.mac)] == st.records;
  }

  lemma {:induction false} DestroyedIsCleared(st: State, k: nat, link: Link)
    requires Single(st, k, link)
    ensures Cleared(DestroyedAgain(st, k), k + 1)
  {
  }

  lemma {:induction false} GoRounds(cfg: Setting, link: Link, k: nat, target: State)
    requires link in cfg.links && link.supported && cfg.destroys != Never && Reaches(cfg, AfterRounds(link, k), target)
    ensures Cleared(AfterRounds(link, k), k) && Reaches(cfg, INITIAL, target)
    decreases k
  {
    hide Reaches, OpenedNext, DestroyedAgain, Cleared, Single, WritesBack, Idle;
    if k == 0 {
      InitiallyCleared();
    } else {
      RoundsCleared(link, k - 1);
      var before := AfterRounds(link, k - 1);
      var again := OpenedNext(before, link);
      OpenedIsSingle(before, k - 1, link);
      SingleWritesBack(again, k - 1, link);
      DestroyedIsCleared(again, k - 1, link);
      ClearedMayOpen(before, k - 1, link);
      SingleIsListed(again, k - 1, link);
      assert Reaches(cfg, again, target) by { GoDestroyAgain(cfg, again, k - 1, target); }
      GoOpenNext(cfg, before, link, target);
      GoRounds(cfg, link, k - 1, target);
    }
  }

  lemma {:induction false} RoundsCleared(link: Link, k: nat)
    ensures Cleared(AfterRounds(link, k), k)
    decreases k
  {
    hide OpenedNext, DestroyedAgain, Cleared, Single;
    if k == 0 {
      InitiallyCleared();
    } else {
      RoundsCleared(link, k - 1);
      OpenedIsSingle(AfterRounds(link, k - 1), k - 1, link);
      DestroyedIsCleared(OpenedNext(AfterRounds(link, k - 1), link), k - 1, link);
    }
  }

  lemma {:induction false} InitiallyCleared()
    ensures Cleared(INITIAL, 0)
  {
  }

  lemma {:induction false} ClearedMayOpen(st: State, k: nat, link: Link)
    requires Cleared(st, k)
    ensures Idle(st) && link.linkID !in st.byDevice
  {
  }

  lemma {:induction false} SingleIsListed(st: State, k: nat, link: Link)
    requires Single(st, k, link)
    ensures k in st.listed
  {
  }

  lemma {:induction false} GoDestroyAgain(cfg: Setting, st: State, b: Sock, target: State)
    requires cfg.destroys != Never && Idle(st) && b in st.listed && WritesBack(st, b)
      && Reaches(cfg, DestroyedAgain(st, b), target)
    ensures Reaches(cfg, st, target)
  {
    hide Reaches, Deleted, Idle, WritesBack;
    GoDestroy(cfg, st, 0, b, target);
  }
}
