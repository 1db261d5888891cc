/**
 * Runs that show the hypotheses of the guarantees are needed, and the guarantees as
 * equivalences: exactly when they hold of every run.
 */
module SocketWitness {
  import opened Common
  import opened SocketMachine
  import opened SocketScripts
  import opened SocketRuns
  import opened SocketDiscipline
  import opened SocketTheorems
  import opened SocketWalks

  // ---- two registered sockets for one device ------------------------------------------------

  lemma {:induction false} TwoSockets(cfg: Setting, link: Link)
    requires link in cfg.links && link.supported && link.linkID != link.mac
    ensures exists actions ::
      Run(cfg, INITIAL, actions).Some? && !OneSocketPerDevice(Run(cfg, INITIAL, actions).value)
  {
    hide Run;
    var st := OpenedTwice(link);
    AfterOpeningTwice(link);
    assert 0 in st.listed && 1 in st.listed && st.device[0] == st.device[1];
    Arrive(cfg, st);
    GoOpenTwice(cfg, link, st);
    var actions := RunTo(cfg, INITIAL, st);
  }

  /** A device never has two registered sockets, in any run, exactly when every link for which
      a socket can be made names its device by the address the device's config is kept under. */
  lemma {:induction false} OneSocketPerDeviceIff(cfg: Setting)
    requires Orderly(cfg)
    ensures (forall actions :: Run(cfg, INITIAL, actions).Some? ==>
      OneSocketPerDevice(Run(cfg, INITIAL, actions).value))
            <==> KeysAgree(cfg)
  {
    hide OneSocketPerDevice, Run, Orderly;
    if KeysAgree(cfg) {
      forall actions | Run(cfg, INITIAL, actions).Some?
        ensures OneSocketPerDevice(Run(cfg, INITIAL, actions).value)
      {
        OneSocketEach(cfg, actions);
      }
    } else {
      var link :| link in cfg.links && link.supported && link.linkID != link.mac;
      TwoSockets(cfg, link);
    }
  }

  // ---- a socket destroyed by two calls at once ------------------------------------------------

  /** The state with two threads. */
  function Both(st: State, x: Thread, y: Thread): State {
    st.(threads := map[0 := x, 1 := y])
  }

  lemma {:induction false} PutInBoth(st: State, x: Thread, y: Thread, z: Thread)
    ensures Put(Both(st, x, y), 0, z) == Both(st, z, y) && Put(Both(st, x, y), 1, z) == Both(st, x, z)
  {
    assert map[0 := x, 1 := y][0 := z] == map[0 := z, 1 := y];
    assert map[0 := x, 1 := y][1 := z] == map[0 := x, 1 := z];
  }

  /** In bratislavaDestroy: past the interrupt, about to drain, and in the deletion mutex. */
  function Passing(b: Sock): Thread {
    Thread(PINNING, b, Unlock(Deletion, DrainAndDelete(Return)))
  }

  function Waiting(b: Sock): Thread {
    Thread(NOTHING, b, DrainAndDelete(Return))
  }

  function Late(b: Sock): Thread {
    Thread(NOTHING.With(Deletion, Exclusive), b, DrainAndDelete(Return).next)
  }

  /** Thread 0 has destroyed the socket, and thread 1 is about to lock the mutex inside it. */
  function Raced(st: State, solo: bool, b: Sock, next: Script): State {
    Both(Deleted(st, b), Thread(Around(solo), b, next), Late(b))
  }

  lemma {:induction false} RacedIsUnsafe(st: State, solo: bool, b: Sock, next: Script)
    ensures !Safe(Raced(st, solo, b, next))
  {
    hide RemoveConfig;
    assert 1 in Raced(st, solo, b, next).threads && !SafeObjects(Raced(st, solo, b, next), 1);
  }

  lemma {:induction false} DeletedBeside(st: State, x: Thread, y: Thread, b: Sock)
    ensures Deleted(Both(st, x, y), b) == Both(Deleted(st, b), x, y)
    ensures Both(st, x, y).listed == st.listed && WritesBack(st, b) ==> WritesBack(Both(st, x, y), b)
  {
    assert Target(Both(st, x, y), Record(b, "")) == Target(st, Record(b, ""));
    if WritesBack(st, b) {
      BesideWritesBack(st, x, y, b);
    }
  }

  lemma {:induction false} BesideWritesBack(st: State, x: Thread, y: Thread, b: Sock)
    requires WritesBack(st, b)
    ensures WritesBack(Both(st, x, y), b)
  {
    assert Found(Both(st, x, y), b) == Found(st, b);
    assert Target(Both(st, x, y), Found(st, b).value) == Target(st, Found(st, b).value);
  }

  /** Thread 1 has passed the first phase of bratislavaDestroy when another destroyer of the same
      socket begins: the other one deletes the socket before thread 1 goes on. */
  lemma {:induction false} GoRace(cfg: Setting, st: State, solo: bool, b: Sock, next: Script)
    requires b in st.listed && WritesBack(st, b)
    ensures
      Reaches(cfg, Both(st, Thread(Around(solo), b, DestroyScript(next)), Passing(b)), Raced(st, solo, b, next))
  {
    hide Reaches, DrainAndDelete, DestroyScript, Deleted, WritesBack, Allowed, Quiet, OutOfTheWay;
    var target := Raced(st, solo, b, next);
    var enter, drain := Thread(Around(solo), b, DestroyScript(next)), Thread(Around(solo), b, DrainAndDelete(next));
    var h := Around(solo).With(Deletion, Shared);
    var inside := Thread(h, b, Unlock(Deletion, DrainAndDelete(next)));
    assert h.With(Deletion, Free) == Around(solo);
    Arrive(cfg, target);
    GoLate(cfg, st, solo, b, next);
    // thread 0 deletes the socket
    BesideDestroyer(st, solo, b, drain, enter);
    DeletedBeside(st, drain, Waiting(b), b);
    PutInBoth(Deleted(st, b), drain, Waiting(b), Thread(Around(solo), b, next));
    PutInBoth(st, drain, Waiting(b), drain);
    GoDrain(cfg, Both(st, drain, Waiting(b)), 0, solo, b, next, target);
    // thread 1 leaves the deletion mutex
    PutInBoth(st, drain, Passing(b), Waiting(b));
    PutInBoth(st, drain, Passing(b), Passing(b));
    GoUnlock(cfg, Both(st, drain, Passing(b)), 1, PINNING, b, Deletion, DrainAndDelete(Return), target);
    // thread 0 passes the first phase
    PutInBoth(st, enter, Passing(b), drain);
    PutInBoth(st, enter, Passing(b), inside);
    PutInBoth(st, enter, Passing(b), enter);
    GoUnlock(cfg, Both(st, enter, Passing(b)), 0, h, b, Deletion, DrainAndDelete(next), target);
    GoInterrupt(cfg, Both(st, enter, Passing(b)), 0, solo, b, next, target);
  }

  /** Thread 1 takes the deletion mutex after the socket is gone. */
  lemma {:induction false} GoLate(cfg: Setting, st: State, solo: bool, b: Sock, next: Script)
    ensures Reaches(cfg, Both(Deleted(st, b), Thread(Around(solo), b, next), Waiting(b)), Raced(st, solo, b, next))
  {
    hide Reaches, Deleted;
    var over := Thread(Around(solo), b, next);
    var before := Both(Deleted(st, b), over, Waiting(b));
    Arrive(cfg, Raced(st, solo, b, next));
    PutInBoth(Deleted(st, b), over, Waiting(b), Late(b));
    PutInBoth(Deleted(st, b), over, Waiting(b), Waiting(b));
    GoLock(cfg, before, 1, NOTHING, b, Deletion, Exclusive, DrainAndDelete(Return).next, Raced(st, solo, b, next));
  }

  lemma {:induction false} BesideDestroyer(st: State, solo: bool, b: Sock, drain: Thread, enter: Thread)
    ensures OutOfTheWay(Both(st, drain, Waiting(b)), 0)
    ensures Quiet(Both(st, enter, Passing(b)), 0) && Allowed(Both(st, enter, Passing(b)), 0, Deletion, Shared, b)
  {
  }

  /** Thread 1 calls bratislavaDestroy and passes its first phase. */
  lemma {:induction false} GoPass(cfg: Setting, st: State, b: Sock, idle: Thread, target: State)
    requires cfg.destroys != Never && Idle(st) && b in st.listed && st.threads == map[0 := idle]
    requires Reaches(cfg, Both(Called(st, 1, Destroy(Some(b))), idle, Passing(b)), target)
    ensures Reaches(cfg, st, target)
  {
    hide Reaches, DrainAndDelete, DestroyScript, Allowed, Quiet, OutOfTheWay, Idle;
    var d := Destroy(Some(b));
    var st1 := Called(st, 1, d);
    IdleAllows(st, 1, d, Deletion, Shared, b);
    assert Put(st1, 1, Passing(b)) == Both(st1, idle, Passing(b)) by {
      assert map[0 := idle][1 := Passing(b)] == map[0 := idle, 1 := Passing(b)];
    }
    assert Around(false).With(Deletion, Shared) == PINNING;
    GoInterrupt(cfg, st1, 1, false, b, Return, target);
    GoStart(cfg, st, 1, d, target);
  }

  /** Two calls of bratislavaDestroy on one registered socket: both pass the first check, one
      deletes the socket, and the other is about to lock the mutex inside it. */
  lemma {:induction false} DestroyTwice(cfg: Setting, link: Link)
    requires link in cfg.links && link.supported && cfg.destroys == Anyhow
    ensures exists actions :: Run(cfg, INITIAL, actions).Some? && !Safe(Run(cfg, INITIAL, actions).value)
  {
    hide Reaches, Run, DestroyScript, Raced, OpenedNext, Passing, Single, WritesBack, Idle;
    var d, st := Destroy(Some(0)), OpenedNext(INITIAL, link);
    InitiallyCleared();
    OpenedIsSingle(INITIAL, 0, link);
    SingleWritesBack(st, 0, link);
    var idle := SingleThread(st, 0, link);
    var called := st.(calls := map[0 := d, 1 := d]);
    SameRegistry(st, called, 0);
    var target := Raced(called, false, 0, Return);
    RacedIsUnsafe(called, false, 0, Return);
    GoRace(cfg, called, false, 0, Return);
    GoSecond(cfg, st, d, idle, Thread(NOTHING, 0, DestroyScript(Return)), 0, called, target);
    GoPass(cfg, st, 0, idle, target);
    ClearedMayOpen(INITIAL, 0, link);
    GoOpenNext(cfg, INITIAL, link, target);
    var actions := RunTo(cfg, INITIAL, target);
  }

  lemma {:induction false} SingleThread(st: State, k: nat, link: Link) returns (idle: Thread)
    requires Single(st, k, link)
    ensures idle == Thread(NOTHING, k, Return) && st.threads == map[0 := idle] && st.calls == map[0 := Open(link)]
      && st.listed == {k}
  {
    idle := Thread(NOTHING, k, Return);
  }

  lemma {:induction false} SameRegistry(st: State, st': State, b: Sock)
    requires st'.(threads := st.threads, calls := st.calls) == st && WritesBack(st, b)
    ensures WritesBack(st', b) && st'.listed == st.listed
  {
    assert Found(st', b) == Found(st, b);
    assert Target(st', Found(st, b).value) == Target(st, Found(st, b).value);
  }

  /** Thread 0 begins another call that may run beside the destroy of thread 1. */
  lemma {:induction false} GoSecond(cfg: Setting, st: State, call: Call, idle: Thread, first: Thread, b: Sock,
        called: State, target: State)
    requires idle.script == Return && st.threads == map[0 := idle] && st.calls.Keys == {0}
    requires called == st.(calls := map[0 := call, 1 := Destroy(Some(b))]) && first == Starting(call)
    requires (call.Destroy? && cfg.destroys == Anyhow)
      || (call.Cleanup? && cfg.destroys != Never && Destroy(Some(b)) in cfg.beside)
    requires Reaches(cfg, Both(called, first, Passing(b)), target)
    ensures Reaches(cfg, Both(Called(st, 1, Destroy(Some(b))), idle, Passing(b)), target)
  {
    hide Reaches, Passing, MayStart, Begin;
    var now := Both(Called(st, 1, Destroy(Some(b))), idle, Passing(b));
    SecondBegins(st, call, idle, first, Passing(b), b);
    MaySecond(cfg, now, call, b);
    Go(cfg, now, Start(0, call), target);
  }

  lemma {:induction false} SecondBegins(st: State, call: Call, idle: Thread, first: Thread, other: Thread, b: Sock)
    requires st.calls.Keys == {0} && first == Starting(call)
    ensures
      Begin(Both(Called(st, 1, Destroy(Some(b))), idle, other), 0, call)
      == Both(st.(calls := map[0 := call, 1 := Destroy(Some(b))]), first, other)
  {
    hide Starting;
    PutInBoth(Called(st, 1, Destroy(Some(b))), idle, other, first);
    assert st.calls[1 := Destroy(Some(b))][0 := call] == map[0 := call, 1 := Destroy(Some(b))];
  }

  lemma {:induction false} MaySecond(cfg: Setting, st: State, call: Call, b: Sock)
    requires !InProgress(st, 0) && st.threads.Keys == {0, 1} && st.calls.Keys == {0, 1}
      && st.calls[1] == Destroy(Some(b))
    requires (call.Destroy? && cfg.destroys == Anyhow)
      || (call.Cleanup? && cfg.destroys != Never && Destroy(Some(b)) in cfg.beside)
    ensures MayStart(cfg, st, 0, call)
  {
    hide ScriptOf;
  }

  /** bratislavaDestroy and Cleanup at once, whichever socket it is: the call has passed its first
      phase when Cleanup deletes the socket. */
  lemma {:induction false} DestroyBesideCleanup(cfg: Setting, link: Link, k: Sock)
    requires link in cfg.links && link.supported && cfg.destroys != Never && Destroy(Some(k)) in cfg.beside
    ensures exists actions :: Run(cfg, INITIAL, actions).Some? && !Safe(Run(cfg, INITIAL, actions).value)
  {
    hide Reaches, Run, DestroyScript, Raced, OpenedNext, Passing, Single, WritesBack, Idle, AfterRounds, Cleared;
    var d, before := Destroy(Some(k)), AfterRounds(link, k);
    RoundsCleared(link, k);
    var st := OpenedNext(before, link);
    OpenedIsSingle(before, k, link);
    SingleWritesBack(st, k, link);
    var idle := SingleThread(st, k, link);
    var called := st.(calls := map[0 := Cleanup, 1 := d]);
    SameRegistry(st, called, k);
    var target := Raced(called, true, k, NextVictim);
    RacedIsUnsafe(called, true, k, NextVictim);
    GoRace(cfg, called, true, k, NextVictim);
    GoChoose(cfg, called, k, target);
    GoSecond(cfg, st, Cleanup, idle, Thread(NOTHING, 0, Lock(Recursive, Exclusive, NextVictim)), k, called, target);
    GoPass(cfg, st, k, idle, target);
    ClearedMayOpen(before, k, link);
    GoOpenNext(cfg, before, link, target);
    GoRounds(cfg, link, k, target);
    var actions := RunTo(cfg, INITIAL, target);
  }

  /** Cleanup takes the recursive mutex and chooses the only socket. */
  lemma {:induction false} GoChoose(cfg: Setting, st: State, b: Sock, target: State)
    requires st.listed == {b}
    requires Reaches(cfg, Both(st, Thread(CLEANING, b, DestroyScript(NextVictim)), Passing(b)), target)
    ensures Reaches(cfg, Both(st, Thread(NOTHING, 0, Lock(Recursive, Exclusive, NextVictim)), Passing(b)), target)
  {
    hide Reaches, DestroyScript, DrainAndDelete;
    var start, head := Thread(NOTHING, 0, Lock(Recursive, Exclusive, NextVictim)), Thread(CLEANING, 0, NextVictim);
    var chosen := Thread(CLEANING, b, DestroyScript(NextVictim));
    var base := Both(st, start, Passing(b));
    PutInBoth(st, start, Passing(b), start);
    PutInBoth(st, start, Passing(b), head);
    PutInBoth(st, start, Passing(b), chosen);
    assert Newest(base.listed) == b;
    Step1(cfg, base, base, 0, head, chosen, true, target);
    assert NOTHING.With(Recursive, Exclusive) == CLEANING;
    GoLock(cfg, base, 0, NOTHING, 0, Recursive, Exclusive, NextVictim, target);
  }

  // ---- a config record freed by the first of two sockets ------------------------------------------

  lemma {:induction false} TwiceWritesBack(st: State, link: Link)
    requires st.records == map[0 := Record(1, link.mac)] && st.bySocket == map[0 := 0, 1 := 0]
    ensures WritesBack(st, 0)
  {
    assert st.records[0 := Record(1, link.mac)] == st.records;
  }

  /** Two sockets of one device share a config record: destroying one frees it, and the next use
      of the other one reads it. */
  lemma {:induction false} SharedRecordIsFreed(cfg: Setting, link: Link)
    requires link in cfg.links && link.supported && link.linkID != link.mac && cfg.destroys != Never
    ensures exists actions :: Run(cfg, INITIAL, actions).Some? && !Safe(Run(cfg, INITIAL, actions).value)
  {
    hide Reaches, WritesBack, Run, RemoveConfig, AdapterIO;
    var st2 := OpenedTwice(link);
    AfterOpeningTwice(link);
    hide OpenedTwice;
    var st3 := Put(Deleted(Called(st2, 0, Destroy(Some(0))), 0), 0, Thread(NOTHING, 0, Return));
    AfterFirstDestroy(st2, link);
    var rest := Branch(Unpin(Return), AdapterIO(Unpin(Return)));
    var h := Pinned(Shared).With(Registry, Shared).With(Config, Shared);
    var last := Put(Called(st3, 0, Send(Some(1))), 0,
      Thread(h, 1, CopyBySocket(Unlock(Config, Unlock(Registry, rest)))));
    assert !SafeRecords(last, 0) by {
      assert 0 in TouchedRecords(last, last.threads[0]) && 0 in last.freed;
    }
    Arrive(cfg, last);
    GoSend(cfg, st3, 0, 1, last);
    TwiceWritesBack(st2, link);
    GoDestroy(cfg, st2, 0, 0, last);
    GoOpenTwice(cfg, link, last);
    var actions := RunTo(cfg, INITIAL, last);
  }

  lemma {:induction false} AfterFirstDestroy(st2: State, link: Link)
    requires st2.threads.Keys == {0} && st2.listed == {0, 1} && st2.bySocket == map[0 := 0, 1 := 0] && st2.freed == {}
    ensures
      var st3 := Put(Deleted(Called(st2, 0, Destroy(Some(0))), 0), 0, Thread(NOTHING, 0, Return));
      && Idle(st3) && 1 in st3.listed && 1 in st3.bySocket && st3.bySocket[1] == 0 && 0 in st3.freed
  {
  }

  /** With some link to open that is supported, every run is safe exactly when nothing is destroyed, or no socket is
      destroyed by two calls at once, of which Cleanup may be one, and the links carry the
      addresses of their devices. */
  lemma {:induction false} LifetimeSafetyIff(cfg: Setting)
    requires exists l :: l in cfg.links && l.supported
    ensures (forall actions :: Run(cfg, INITIAL, actions).Some? ==> Safe(Run(cfg, INITIAL, actions).value))
            <==> cfg.destroys == Never || (cfg.destroys == NotAtOnce && CleanupDestroysAlone(cfg) && KeysAgree(cfg))
  {
    hide Safe, Run;
    if Orderly(cfg) && (cfg.destroys == Never || KeysAgree(cfg)) {
      forall actions | Run(cfg, INITIAL, actions).Some? ensures Safe(Run(cfg, INITIAL, actions).value) {
        LifetimeSafety(cfg, actions);
      }
    } else if cfg.destroys == Anyhow {
      var link :| link in cfg.links && link.supported;
      DestroyTwice(cfg, link);
    } else if !CleanupDestroysAlone(cfg) {
      var link :| link in cfg.links && link.supported;
      var c :| c in cfg.beside && DestroysOne(c);
      assert c == Destroy(Some(c.p.value));
      DestroyBesideCleanup(cfg, link, c.p.value);
    } else {
      var link :| link in cfg.links && link.supported && link.linkID != link.mac;
      SharedRecordIsFreed(cfg, link);
    }
  }

  // ---- Cleanup beside another call -----------------------------------------------------------

  /** Some call is unfinished, and no thread can step. */
  ghost predicate Deadlocked(cfg: Setting, st: State) {
    && (exists t :: InProgress(st, t))
    && (forall u :: !CanStep(st, cfg.writerFirst, u))
  }

  /** In a run that made no other calls, a Cleanup and the given call are unfinished, and neither
      can step. */
  ghost predicate DeadlockedBeside(cfg: Setting, st: State, call: Call) {
    && st.calls.Keys == {0, 1} && st.calls[0].Cleanup? && st.calls[1] == call
    && InProgress(st, 0) && InProgress(st, 1)
    && (forall u :: !CanStep(st, cfg.writerFirst, u))
  }

  /** What a call waits for once it has the deletion mutex, and the creation mutex if it opens a link. */
  function Behind(call: Call): Script {
    match ScriptOf(call)
    case Lock(_, _, next) => if LinkOf(call).Some? && next.Lock? then next.next else next
    case _ => Return
  }

  function HeldBy(call: Call): Held {
    if LinkOf(call).Some? then IN_CREATION else PINNING
  }

  /** Every call but Cleanup takes the deletion mutex first, and then asks for the recursive one. */
  lemma {:induction false} TakesDeletionFirst(call: Call)
    requires !IsNull(call) && !call.Cleanup?
    ensures Behind(call).Lock? && Behind(call).m == Recursive && Behind(call).mode == Exclusive
    ensures
      ScriptOf(call) ==
      Lock(Deletion, Shared, if LinkOf(call).Some? then Lock(Creation, Exclusive, Behind(call)) else Behind(call))
  {
    hide AdapterConn, AdapterIO, DrainAndDelete, RegistryRead, RegistryUpdate, AdapterConnEnd;
  }

  /** The other call waits for the recursive mutex, Cleanup for the deletion mutex. */
  lemma {:induction false} StuckTogether(cfg: Setting, st: State, call: Call, next: Script)
    requires st.threads.Keys == {0, 1}
    requires st.threads[0] == Thread(CLEANING, 0, Lock(Deletion, Exclusive, next))
    requires st.threads[1] == Thread(HeldBy(call), st.threads[1].bsock, Behind(call))
    requires Behind(call).Lock? && Behind(call).m == Recursive && Behind(call).mode == Exclusive
    requires st.calls == map[0 := Cleanup, 1 := call]
    ensures DeadlockedBeside(cfg, st, call)
  {
    hide Behind;
    assert HoldsAgainst(st.threads[1], Deletion, Exclusive, 0);
    assert HoldsAgainst(st.threads[0], Recursive, Exclusive, st.threads[1].bsock);
    assert !Grantable(st, cfg.writerFirst, 0, Deletion, Exclusive);
    assert !Grantable(st, cfg.writerFirst, 1, Recursive, Exclusive);
  }

  lemma {:induction false} BesideStuck(st: State, call: Call)
    requires st.threads.Keys == {1}
    requires st.threads[1] == Thread(HeldBy(call), st.threads[1].bsock, Behind(call))
    requires Behind(call).Lock? && Behind(call).m == Recursive && Behind(call).mode == Exclusive
    ensures Allowed(st, 0, Recursive, Exclusive, 0) && Allowed(st, 0, Deletion, Shared, 0)
  {
    hide Behind;
  }

  /** Cleanup destroys the only socket up to the deletion mutex, beside a call that holds it. */
  lemma {:induction false} GoToStuck(cfg: Setting, st: State, call: Call, last: State)
    requires st.threads.Keys == {1} && st.listed == {0}
    requires st.threads[1] == Thread(HeldBy(call), st.threads[1].bsock, Behind(call))
    requires Behind(call).Lock? && Behind(call).m == Recursive && Behind(call).mode == Exclusive
    requires last == Put(st, 0, Thread(CLEANING, 0, DrainAndDelete(NextVictim)))
    ensures Reaches(cfg, Put(st, 0, Thread(CLEANING, 0, NextVictim)), last)
  {
    hide Reaches, DrainAndDelete, RegistryExists, Behind;
    var s1 := Unlock(Deletion, DrainAndDelete(NextVictim));
    var h := CLEANING.With(Deletion, Shared);
    assert h.With(Deletion, Free) == CLEANING;
    Arrive(cfg, last);
    BesideStuck(st, call);
    hide Allowed;
    GoUnlock(cfg, st, 0, h, 0, Deletion, DrainAndDelete(NextVictim), last);
    Step1(cfg, st, st, 0, Thread(h, 0, UseAdapter(s1)), Thread(h, 0, s1), true, last);
    GoExists(cfg, st, 0, h, 0, UseAdapter(s1), Unlock(Deletion, NextVictim), last);
    GoLock(cfg, st, 0, CLEANING, 0, Deletion, Shared, RegistryExists(UseAdapter(s1), Unlock(Deletion, NextVictim)),
      last);
    assert Newest(st.listed) == 0;
    hide DestroyScript;
    Step1(cfg, st, st, 0, Thread(CLEANING, 0, NextVictim), Thread(CLEANING, 0, DestroyScript(NextVictim)), true, last);
  }

  lemma {:induction false} BesideCleaner(st: State, m: Mutex, mode: Mode, b: Sock)
    requires st.threads.Keys == {0} && st.threads[0] == Thread(CLEANING, 0, NextVictim) && m != Recursive
    ensures Allowed(st, 1, m, mode, b)
  {
  }

  /** The other call takes the deletion mutex, and the creation mutex if it opens a link. */
  lemma {:induction false} GoBehind(cfg: Setting, st: State, call: Call, b: Sock, target: State)
    requires !IsNull(call) && !call.Cleanup?
    requires st.threads.Keys == {0} && st.threads[0] == Thread(CLEANING, 0, NextVictim)
    requires Reaches(cfg, Put(st, 1, Thread(HeldBy(call), b, Behind(call))), target)
    ensures Reaches(cfg, Put(st, 1, Thread(NOTHING, b, ScriptOf(call))), target)
  {
    hide Reaches, ScriptOf, Behind, IsNull, Allowed;
    TakesDeletionFirst(call);
    BesideCleaner(st, Deletion, Shared, b);
    BesideCleaner(st, Creation, Exclusive, b);
    assert NOTHING.With(Deletion, Shared) == PINNING && PINNING.With(Creation, Exclusive) == IN_CREATION;
    if LinkOf(call).Some? {
      GoLock(cfg, st, 1, PINNING, b, Creation, Exclusive, Behind(call), target);
      GoLock(cfg, st, 1, NOTHING, b, Deletion, Shared, Lock(Creation, Exclusive, Behind(call)), target);
    } else {
      GoLock(cfg, st, 1, NOTHING, b, Deletion, Shared, Behind(call), target);
    }
  }

  /** Cleanup beside any other call that takes a mutex can deadlock, as soon as a socket is
      registered: the call holds the deletion mutex and waits for the recursive one, which
      Cleanup holds while it waits for the deletion mutex. */
  lemma {:induction false} CleanupCanDeadlock(cfg: Setting, link: Link, call: Call)
    requires link in cfg.links && link.supported && cfg.destroys != Never
    requires call in cfg.beside && MayBeMade(cfg, call) && !IsNull(call) && !call.Cleanup?
    ensures exists actions ::
      Run(cfg, INITIAL, actions).Some? && DeadlockedBeside(cfg, Run(cfg, INITIAL, actions).value, call)
  {
    hide Reaches, Run, ScriptOf, DrainAndDelete, Behind, DeadlockedBeside, IsNull;
    AfterOpening(link);
    var st0 := OpenedOnce(link);
    hide OpenedOnce;
    var b := if PointerOf(call).Some? then PointerOf(call).value else 0;
    var st1 := st0.(calls := map[0 := Cleanup, 1 := call]);
    var other := Thread(HeldBy(call), b, Behind(call));
    var alone := Thread(CLEANING, 0, NextVictim);
    var beside := st1.(threads := map[1 := other]);
    var last := Put(beside, 0, Thread(CLEANING, 0, DrainAndDelete(NextVictim)));
    TakesDeletionFirst(call);
    DrainsFirst(NextVictim);
    StuckTogether(cfg, last, call, DrainAndDelete(NextVictim).next);
    GoToStuck(cfg, beside, call, last);
    var cleaning := st1.(threads := map[0 := alone]);
    assert Put(beside, 0, alone) == Put(cleaning, 1, other) by {
      assert map[1 := other][0 := alone] == map[0 := alone][1 := other];
    }
    GoBehind(cfg, cleaning, call, b, last);
    GoBeginBoth(cfg, st0, call, b, cleaning, last);
    GoOpenOnce(cfg, link, last);
    var actions := RunTo(cfg, INITIAL, last);
  }

  lemma {:induction false} DrainsFirst(next: Script)
    ensures DrainAndDelete(next).Lock? && DrainAndDelete(next).m == Deletion && DrainAndDelete(next).mode == Exclusive
  {
  }

  /** Cleanup begins and takes the recursive mutex, then the other call begins. */
  lemma {:induction false} GoBeginBoth(cfg: Setting, st0: State, call: Call, b: Sock, cleaning: State, last: State)
    requires cfg.destroys != Never && call in cfg.beside && MayBeMade(cfg, call) && !call.Cleanup?
    requires st0.threads == map[0 := Thread(NOTHING, 0, Return)] && st0.calls.Keys == {0}
    requires b == if PointerOf(call).Some? then PointerOf(call).value else 0
    requires cleaning == st0.(calls := map[0 := Cleanup, 1 := call],
      threads := map[0 := Thread(CLEANING, 0, NextVictim)])
    requires Reaches(cfg, Put(cleaning, 1, Thread(NOTHING, b, ScriptOf(call))), last)
    ensures Reaches(cfg, st0, last)
  {
    hide Reaches, ScriptOf, IsNull, MayBeMade, MayStart;
    var one := Called(st0, 0, Cleanup);
    var two := Put(one, 0, Thread(CLEANING, 0, NextVictim));
    BeginsBeside(st0, call, cleaning);
    MayBeginBeside(cfg, two, call);
    hide Begin, Allowed;
    Go(cfg, two, Start(1, call), last);
    assert Allowed(one, 0, Recursive, Exclusive, 0) by { AloneAllows(one, Recursive, Exclusive, 0); }
    assert NOTHING.With(Recursive, Exclusive) == CLEANING;
    GoLock(cfg, one, 0, NOTHING, 0, Recursive, Exclusive, NextVictim, last);
    CleanupStarts(st0);
    MayClean(cfg, st0);
    Go(cfg, st0, Start(0, Cleanup), last);
  }

  lemma {:induction false} AloneAllows(st: State, m: Mutex, mode: Mode, b: Sock)
    requires st.threads.Keys == {0}
    ensures Allowed(st, 0, m, mode, b)
  {
  }

  lemma {:induction false} BeginsBeside(st0: State, call: Call, cleaning: State)
    requires st0.threads == map[0 := Thread(NOTHING, 0, Return)] && st0.calls.Keys == {0}
    requires cleaning == st0.(calls := map[0 := Cleanup, 1 := call],
      threads := map[0 := Thread(CLEANING, 0, NextVictim)])
    ensures
      var two := Put(Called(st0, 0, Cleanup), 0, Thread(CLEANING, 0, NextVictim));
      var b := if PointerOf(call).Some? then PointerOf(call).value else 0;
      Begin(two, 1, call) == Put(cleaning, 1, Thread(NOTHING, b, ScriptOf(call)))
  {
    hide ScriptOf;
    var two := Put(Called(st0, 0, Cleanup), 0, Thread(CLEANING, 0, NextVictim));
    assert two.calls[1 := call] == map[0 := Cleanup, 1 := call];
    assert two.threads == cleaning.threads;
  }

  lemma {:induction false} MayBeginBeside(cfg: Setting, st: State, call: Call)
    requires cfg.destroys != Never && call in cfg.beside && MayBeMade(cfg, call) && !call.Cleanup?
    requires st.threads.Keys == {0} && st.calls.Keys == {0} && st.calls[0] == Cleanup
    ensures MayStart(cfg, st, 1, call)
  {
    hide ScriptOf, MayBeMade;
  }

  lemma {:induction false} MayClean(cfg: Setting, st: State)
    requires cfg.destroys != Never && st.threads == map[0 := Thread(NOTHING, 0, Return)]
    ensures MayStart(cfg, st, 0, Cleanup)
  {
    hide ScriptOf;
  }

  lemma {:induction false} CleanupStarts(st: State)
    ensures Begin(st, 0, Cleanup) == Put(Called(st, 0, Cleanup), 0,
      Thread(NOTHING, 0, Lock(Recursive, Exclusive, NextVictim)))
  {
  }

  /** With some link to open that is supported, no run deadlocks exactly when nothing is destroyed, or no other call
      that takes a mutex may run beside Cleanup. */
  lemma {:induction false} CleanupAloneIff(cfg: Setting)
    requires (exists l :: l in cfg.links && l.supported) && cfg.destroys != Anyhow
    ensures (forall actions :: Run(cfg, INITIAL, actions).Some? ==> !Deadlocked(cfg, Run(cfg, INITIAL, actions).value))
            <==> cfg.destroys == Never || CleanupAlone(cfg)
  {
    hide Run, CanStep, IsNull, MayBeMade;
    if Apart(cfg) {
      forall actions | Run(cfg, INITIAL, actions).Some? ensures !Deadlocked(cfg, Run(cfg, INITIAL, actions).value) {
        if t :| InProgress(Run(cfg, INITIAL, actions).value, t) {
          var u := DeadlockFreedom(cfg, actions, t);
        }
      }
    } else {
      var link :| link in cfg.links && link.supported;
      var c :| c in cfg.beside && MayBeMade(cfg, c) && !c.Cleanup? && !IsNull(c);
      CleanupCanDeadlock(cfg, link, c);
    }
  }
}
