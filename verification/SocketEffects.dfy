/**
 * What the calls on a socket do when they return: those that transfer, connect or configure have
 * used its adapter, and bratislavaDestroy has deleted it.
 */
module SocketEffects {
  import opened Common
  import opened SocketMachine
  import opened SocketScripts
  import opened SocketRuns
  import opened SocketDiscipline
  import opened SocketInvariant
  import opened SocketTheorems
  import opened SocketResults

  // ---- calls that use the adapter --------------------------------------------------------------

  /** t runs a method of the adapter of s in one of the steps. */
  ghost predicate UsesAdapterOf(st: State, actions: seq<Action>, t: Tid, s: Sock)
    decreases |actions|
  {
    && actions != []
    && (RunsAdapter(st, actions[0], t, s) || UsesAdapterOf(Do(st, actions[0]), actions[1..], t, s))
  }

  predicate RunsAdapter(st: State, a: Action, t: Tid, s: Sock) {
    a.Step? && a.t == t && t in st.threads && st.threads[t].script.UseAdapter? && st.threads[t].bsock == s
  }

  /** Every test of t that the machine does not decide comes out as given. */
  ghost predicate Decides(st: State, actions: seq<Action>, t: Tid, outcome: bool)
    decreases |actions|
  {
    actions != [] ==> DecidedBy(st, actions[0], t, outcome) && Decides(Do(st, actions[0]), actions[1..], t, outcome)
  }

  predicate DecidedBy(st: State, a: Action, t: Tid, outcome: bool) {
    a.Step? && a.t == t && t in st.threads && st.threads[t].script.Branch? ==> a.choice == outcome
  }

  /** With a registered socket and tests that come out so, the script uses the adapter. */
  predicate WillUse(s: Script, outcome: bool)
    decreases s
  {
    match s
    case UseAdapter(_) => true
    case IfListed(yes, _) => WillUse(yes, outcome)
    case Branch(left, right) => WillUse(if outcome then left else right, outcome)
    case IfCopied(found, missing) => WillUse(found, outcome) && WillUse(missing, outcome)
    case Lock(_, _, next) => WillUse(next, outcome)
    case Unlock(_, next) => WillUse(next, outcome)
    case CopyBySocket(next) => WillUse(next, outcome)
    case CopyByDevice(next) => WillUse(next, outcome)
    case WriteBack(next) => WillUse(next, outcome)
    case _ => false
  }

  lemma {:induction false} PinUses(mode: Mode, pinned: Script, gone: Script, outcome: bool)
    requires WillUse(pinned, outcome)
    ensures WillUse(Pin(mode, pinned, gone), outcome)
  {
    var s1 := Lock(ThisSocket, mode, Unlock(Deletion, pinned));
    assert WillUse(Unlock(Deletion, pinned), outcome);
    assert WillUse(Unlock(Recursive, s1), outcome);
    var s2 := IfListed(Unlock(Recursive, s1), Unlock(Recursive, Unlock(Deletion, gone)));
    assert WillUse(s2, outcome) && WillUse(Lock(Recursive, Exclusive, s2), outcome);
  }

  lemma {:induction false} ReadUses(key: Key, next: Script, outcome: bool)
    requires WillUse(next, outcome)
    ensures WillUse(RegistryRead(key, next), outcome)
  {
    var s1 := Unlock(Config, Unlock(Registry, next));
    assert WillUse(Unlock(Registry, next), outcome) && WillUse(s1, outcome);
    assert WillUse(match key case BySocket => CopyBySocket(s1) case ByDevice => CopyByDevice(s1), outcome);
    assert WillUse(GetConfig(key, Unlock(Registry, next)), outcome);
  }

  lemma {:induction false} UpdateUses(next: Script, outcome: bool)
    requires WillUse(next, outcome)
    ensures WillUse(RegistryUpdate(next), outcome)
  {
    var out := Unlock(Registry, next);
    assert WillUse(out, outcome) && WillUse(Unlock(Config, out), outcome);
    assert WillUse(WriteBack(Unlock(Config, out)), outcome) && WillUse(PutConfig(next), outcome);
    var test := IfCopied(PutConfig(next), out);
    assert WillUse(test, outcome) && WillUse(Unlock(Config, test), outcome);
    assert WillUse(CopyBySocket(Unlock(Config, test)), outcome);
    assert WillUse(ReadThenUpdate(BySocket, next), outcome);
  }

  /** The calls that use the adapter of the socket they are given: Conn unless it is connected, Send and
      Recv if it is, Disconnect if its config is found, and the two timeouts in any case. */
  predicate MeansToUse(call: Call, s: Sock, outcome: bool) {
    match call
    case Conn(p) => p == Some(s) && !outcome
    case Send(p) => p == Some(s) && !outcome
    case Recv(p) => p == Some(s) && !outcome
    case ConnTimeout(p) => p == Some(s)
    case RecvTimeout(p) => p == Some(s)
    case Disconnect(p) => p == Some(s) && outcome
    case _ => false
  }

  lemma {:induction false} CallWillUse(call: Call, s: Sock, outcome: bool)
    requires MeansToUse(call, s, outcome)
    ensures WillUse(ScriptOf(call), outcome) && PointerOf(call) == Some(s) && Spares(call, s)
  {
    hide Pin, RegistryRead, RegistryUpdate, AdapterConnEnd;
    match call
    case Conn(_) =>
      var body := Branch(Unpin(Return), AdapterConn(Unpin(Return), Unpin(Return)));
      assert WillUse(body, outcome);
      ReadUses(BySocket, body, outcome);
      PinUses(Exclusive, RegistryRead(BySocket, body), Return, outcome);
    case ConnTimeout(_) => PinUses(Shared, UseAdapter(Unpin(Return)), Return, outcome);
    case RecvTimeout(_) => PinUses(Shared, UseAdapter(Unpin(Return)), Return, outcome);
    case Disconnect(_) =>
      var body := Branch(UseAdapter(Unpin(Return)), Unpin(Return));
      assert WillUse(body, outcome);
      UpdateUses(body, outcome);
      PinUses(Shared, RegistryUpdate(body), Return, outcome);
    case Send(_) => TransferUses();
    case Recv(_) => TransferUses();
    case _ =>
  }

  lemma {:induction false} TransferUses()
    ensures WillUse(TransferScript(), false)
  {
    hide Pin, RegistryRead;
    var body := Branch(Unpin(Return), AdapterIO(Unpin(Return)));
    assert WillUse(body, false);
    ReadUses(BySocket, body, false);
    PinUses(Shared, RegistryRead(BySocket, body), Return, false);
  }

  lemma {:induction false} OwnStepUses(st: State, t: Tid, choice: bool, s: Sock, outcome: bool)
    requires t in st.threads && st.threads[t].bsock == s && s in st.listed
    requires WillUse(st.threads[t].script, outcome) && !st.threads[t].script.UseAdapter?
    requires DecidedBy(st, Step(t, choice), t, outcome)
    ensures
      var th := Exec(st, t, choice).threads[t];
      th.bsock == s && WillUse(th.script, outcome)
  {
    hide Effect, Found, FoundByDevice, DestroyScript;
    EffectKeepsThreads(st, st.threads[t].script, st.threads[t].bsock, st.threads[t].copy);
  }

  lemma {:induction false} WillUseGoesOn(st: State, t: Tid, outcome: bool)
    requires t in st.threads && WillUse(st.threads[t].script, outcome)
    ensures InProgress(st, t)
  {
  }

  lemma {:induction false} RunUses(cfg: Setting, st: State, vs: Views, strict: bool, actions: seq<Action>, t: Tid,
        s: Sock, outcome: bool)
    requires Inv(st, vs, strict) && Orderly(cfg) && (strict ==> KeysAgree(cfg)) && Run(cfg, st, actions).Some?
    requires s in st.listed && Spared(st, s) && AllSpare(actions, s)
    requires t in st.threads && st.threads[t].bsock == s && WillUse(st.threads[t].script, outcome)
    requires Decides(st, actions, t, outcome) && ReturnsWith(st, actions, t)
    ensures UsesAdapterOf(st, actions, t, s)
    decreases |actions|
  {
    hide Inv, Orderly, KeysAgree, Spared, Exec, Begin, MayStart, CanStep, WillUse;
    var a := actions[0];
    assert a in actions && forall x :: x in actions[1..] ==> x in actions;
    if !RunsAdapter(st, a, t, s) {
      var vs1 := ActionKeeps(cfg, st, vs, strict, a);
      WillUseGoesOn(st, t, outcome);
      match a {
        case Start(u, call) =>
          StartSpares(st, u, call, s);
          StartsElse(cfg, st, u, call, t);
        case Step(u, choice) =>
          MoverIsBusy(st, cfg.writerFirst, u);
          StepSpares(st, vs, strict, u, choice, s);
          if u == t {
            OwnStepUses(st, t, choice, s, outcome);
            StepStaysThere(st, t, choice);
          } else {
            ExecOthers(st, u, choice);
          }
      }
      WillUseGoesOn(Do(st, a), t, outcome);
      RunUses(cfg, Do(st, a), vs1, strict, actions[1..], t, s, outcome);
    }
  }

  lemma {:induction false} StepStaysThere(st: State, t: Tid, choice: bool)
    requires t in st.threads
    ensures t in Exec(st, t, choice).threads
  {
  }

  /** A call begins in another thread than one that is busy. */
  lemma {:induction false} StartsElse(cfg: Setting, st: State, u: Tid, call: Call, t: Tid)
    requires MayStart(cfg, st, u, call) && InProgress(st, t)
    ensures u != t && t in Begin(st, u, call).threads && Begin(st, u, call).threads[t] == st.threads[t]
  {
    hide ScriptOf;
  }

  /** A call on a registered socket that nobody destroys before it has returned uses the adapter of the
      socket, if it means to with the flag and the config that it finds. */
  lemma {:induction false} CallUsesAdapter(cfg: Setting, before: seq<Action>, t: Tid, call: Call, during: seq<Action>,
        s: Sock, outcome: bool)
    requires Orderly(cfg) && MeansToUse(call, s, outcome)
    requires Run(cfg, INITIAL, before).Some? && MayStart(cfg, Run(cfg, INITIAL, before).value, t, call)
    requires
      var st := Run(cfg, INITIAL, before).value;
      s in st.listed && Spared(st, s) && AllSpare(during, s)
    requires
      var begun := Begin(Run(cfg, INITIAL, before).value, t, call);
      Run(cfg, begun, during).Some? && ReturnsWith(begun, during, t) && Decides(begun, during, t, outcome)
    ensures UsesAdapterOf(Begin(Run(cfg, INITIAL, before).value, t, call), during, t, s)
  {
    hide Run, Inv, Orderly, MayStart, ReturnsWith, Decides, UsesAdapterOf, Spared, AllSpare, ScriptOf, MeansToUse,
         WillUse, PointerOf;
    InitialInv(false);
    var vs := RunKeeps(cfg, INITIAL, map[], false, before);
    var st := Run(cfg, INITIAL, before).value;
    var vs1 := StartKeeps(cfg, st, vs, false, t, call);
    CallWillUse(call, s, outcome);
    StartSpares(st, t, call, s);
    RunUses(cfg, Begin(st, t, call), vs1, false, during, t, s, outcome);
  }

  // ---- calls on a link -----------------------------------------------------------------------------

  /** bratislavaLinkSend and bratislavaLinkRecv behind bratislavaSocket. */
  function BehindOpen(): Script {
    ConnScript(Pin(Shared, AdapterIO(Unpin(Return)), Return), Return)
  }

  predicate NeverReturns(s: Script)
    decreases s
  {
    match s
    case Return => true
    case NextVictim => false
    case Returning(_, _) => false
    case LoadIndexed(_, found, missing) => NeverReturns(found) && NeverReturns(missing)
    case IfIndexed(_, yes, no) => NeverReturns(yes) && NeverReturns(no)
    case IfListed(yes, no) => NeverReturns(yes) && NeverReturns(no)
    case IfCopied(found, missing) => NeverReturns(found) && NeverReturns(missing)
    case Branch(left, right) => NeverReturns(left) && NeverReturns(right)
    case _ => NeverReturns(s.next)
  }

  lemma {:induction false} PinNeverReturns(mode: Mode, pinned: Script, gone: Script)
    requires NeverReturns(pinned) && NeverReturns(gone)
    ensures NeverReturns(Pin(mode, pinned, gone))
  {
    var s1 := Lock(ThisSocket, mode, Unlock(Deletion, pinned));
    assert NeverReturns(Unlock(Deletion, pinned)) && NeverReturns(s1) && NeverReturns(Unlock(Recursive, s1));
    assert NeverReturns(Unlock(Deletion, gone)) && NeverReturns(Unlock(Recursive, Unlock(Deletion, gone)));
    var s2 := IfListed(Unlock(Recursive, s1), Unlock(Recursive, Unlock(Deletion, gone)));
    assert NeverReturns(s2) && NeverReturns(Lock(Recursive, Exclusive, s2));
  }

  lemma {:induction false} ReadNeverReturns(key: Key, next: Script)
    requires NeverReturns(next)
    ensures NeverReturns(RegistryRead(key, next))
  {
    var s1 := Unlock(Config, Unlock(Registry, next));
    assert NeverReturns(Unlock(Registry, next)) && NeverReturns(s1);
    assert NeverReturns(match key case BySocket => CopyBySocket(s1) case ByDevice => CopyByDevice(s1));
    assert NeverReturns(GetConfig(key, Unlock(Registry, next)));
  }

  lemma {:induction false} WritingNeverReturns(key: Key, next: Script)
    requires NeverReturns(next)
    ensures NeverReturns(ReadThenUpdate(key, next))
  {
    var out := Unlock(Registry, next);
    assert NeverReturns(out) && NeverReturns(Unlock(Config, out));
    assert NeverReturns(WriteBack(Unlock(Config, out))) && NeverReturns(PutConfig(next));
    var s1 := Unlock(Config, IfCopied(PutConfig(next), out));
    assert NeverReturns(IfCopied(PutConfig(next), out)) && NeverReturns(s1);
    assert NeverReturns(match key case BySocket => CopyBySocket(s1) case ByDevice => CopyByDevice(s1));
  }

  lemma {:induction false} EndNeverReturns(ok: Script, failed: Script)
    requires NeverReturns(ok) && NeverReturns(failed)
    ensures NeverReturns(AdapterConnEnd(ok, failed))
  {
    WritingNeverReturns(BySocket, UseAdapter(ok));
    hide ReadThenUpdate;
    assert NeverReturns(UseAdapter(ok)) && NeverReturns(RegistryUpdate(UseAdapter(ok)));
    assert NeverReturns(Branch(failed, RegistryUpdate(UseAdapter(ok))));
  }

  lemma {:induction false} AddPortNeverReturns(next: Script)
    requires NeverReturns(next)
    ensures NeverReturns(RegistryAddLocalPort(next))
  {
    WritingNeverReturns(ByDevice, next);
    hide ReadThenUpdate;
    var ports := Branch(Unlock(Registry, next), ReadThenUpdate(ByDevice, next));
    assert NeverReturns(Unlock(Registry, next)) && NeverReturns(ports);
    hide NeverReturns;
    OneNeverReturns(Ports, ports);
  }

  lemma {:induction false} OneNeverReturns(m: Mutex, next: Script)
    requires NeverReturns(next)
    ensures NeverReturns(Unlock(m, next)) && NeverReturns(Lock(m, Exclusive, Unlock(m, next)))
  {
    assert NeverReturns(Unlock(m, next));
  }

  lemma {:induction false} AdapterConnNeverReturns(ok: Script, failed: Script)
    requires NeverReturns(ok) && NeverReturns(failed)
    ensures NeverReturns(AdapterConn(ok, failed))
  {
    hide AdapterConnEnd, RegistryRead, RegistryAddLocalPort;
    EndNeverReturns(ok, failed);
    var end := AdapterConnEnd(ok, failed);
    ReadNeverReturns(ByDevice, end);
    var read := RegistryRead(ByDevice, end);
    ReadNeverReturns(ByDevice, read);
    AddPortNeverReturns(read);
    var wifi := Branch(RegistryRead(ByDevice, read), RegistryAddLocalPort(read));
    assert NeverReturns(wifi) && NeverReturns(Branch(end, wifi));
  }

  lemma {:induction false} ConnNeverReturns(ok: Script, failed: Script)
    requires NeverReturns(ok) && NeverReturns(failed)
    ensures NeverReturns(ConnScript(ok, failed))
  {
    hide AdapterConn, RegistryRead, Pin;
    var done, over := Unpin(ok), Unpin(failed);
    assert NeverReturns(done) && NeverReturns(over);
    AdapterConnNeverReturns(done, over);
    var body := Branch(done, AdapterConn(done, over));
    assert NeverReturns(body);
    hide Unpin;
    ReadNeverReturns(BySocket, body);
    PinNeverReturns(Exclusive, RegistryRead(BySocket, body), failed);
  }

  /** Behind its return a call on a link passes no other, and transfers if the socket is connected. */
  lemma {:induction false} LinkTransfers()
    ensures NeverReturns(LeaveOpen(BehindOpen())) && WillUse(LeaveOpen(BehindOpen()), true)
  {
    var io := Pin(Shared, AdapterIO(Unpin(Return)), Return);
    assert NeverReturns(Unpin(Return)) && NeverReturns(UseAdapter(Unpin(Return)));
    ReadNeverReturns(BySocket, UseAdapter(Unpin(Return)));
    assert NeverReturns(AdapterIO(Unpin(Return))) && WillUse(AdapterIO(Unpin(Return)), true);
    hide AdapterIO, Pin, RegistryRead;
    PinNeverReturns(Shared, AdapterIO(Unpin(Return)), Return);
    PinUses(Shared, AdapterIO(Unpin(Return)), Return, true);
    ConnNeverReturns(io, Return);
    assert WillUse(Unpin(io), true);
    var body := Branch(Unpin(io), AdapterConn(Unpin(io), Unpin(Return)));
    hide AdapterConn, Unpin;
    assert WillUse(body, true);
    ReadUses(BySocket, body, true);
    PinUses(Exclusive, RegistryRead(BySocket, body), Return, true);
    assert WillUse(BehindOpen(), true) && NeverReturns(BehindOpen());
    hide BehindOpen;
    assert WillUse(Unlock(Deletion, BehindOpen()), true) && NeverReturns(Unlock(Deletion, BehindOpen()));
  }

  lemma {:induction false} StepNeverReturns(st: State, t: Tid, choice: bool)
    requires t in st.threads && NeverReturns(st.threads[t].script)
    ensures NeverReturns(Exec(st, t, choice).threads[t].script)
  {
    hide Effect, Found, FoundByDevice, DestroyScript;
    EffectKeepsThreads(st, st.threads[t].script, st.threads[t].bsock, st.threads[t].copy);
  }

  lemma {:induction false} ResultStays(cfg: Setting, st: State, actions: seq<Action>, t: Tid, given: Option<Sock>)
    requires Run(cfg, st, actions).Some? && ReturnsWith(st, actions, t)
    requires t in st.threads && NeverReturns(st.threads[t].script)
    ensures ResultOf(st, actions, t, given) == given
    decreases |actions|
  {
    hide Exec, Begin, MayStart, CanStep, NeverReturns;
    var a := actions[0];
    match a {
      case Start(u, call) => StartsElse(cfg, st, u, call, t);
      case Step(u, choice) =>
        MoverIsBusy(st, cfg.writerFirst, u);
        StepStaysThere(st, u, choice);
        ExecOthers(st, u, choice);
        if u == t {
          StepNeverReturns(st, t, choice);
          NotReturning(st.threads[t].script);
        }
    }
    if |actions| == 1 {
      assert actions[1..] == [] && ResultOf(Do(st, a), [], t, given) == given;
    } else {
      ResultStays(cfg, Do(st, a), actions[1..], t, given);
    }
  }

  lemma {:induction false} NotReturning(s: Script)
    requires NeverReturns(s)
    ensures !s.Returning?
  {
  }

  lemma {:induction false} LinkCallRuns(cfg: Setting, st: State, vs: Views, actions: seq<Action>, t: Tid, link: Link)
    requires Inv(st, vs, true) && Orderly(cfg) && KeysAgree(cfg) && Run(cfg, st, actions).Some?
    requires InProgress(st, t) && Answers(st.threads[t].script, link, BehindOpen())
    requires KeyIsThere(st, st.threads[t].script)
    requires Decides(st, actions, t, true) && ReturnsWith(st, actions, t)
    requires
      var r := ResultOf(st, actions, t, None);
      r.Some? ==> Spared(st, r.value) && AllSpare(actions, r.value)
    ensures
      var r := ResultOf(st, actions, t, None);
      r.Some? && UsesAdapterOf(st, actions, t, r.value)
    decreases |actions|
  {
    hide Inv, Orderly, KeysAgree, Spared, Exec, Begin, MayStart, CanStep, Answers, KeyIsThere, WillUse, NeverReturns,
         BehindOpen, LeaveOpen;
    var a := actions[0];
    assert a in actions && forall x :: x in actions[1..] ==> x in actions;
    var vs1 := ActionKeeps(cfg, st, vs, true, a);
    var r := ResultOf(st, actions, t, None);
    assert r == ResultOf(Do(st, a), actions[1..], t, GivenBy(st, a, t, None));
    match a {
      case Start(u, call) =>
        StartsElse(cfg, st, u, call, t);
        BeginKeepsKeys(st, u, call, st.threads[t].script);
      case Step(u, choice) =>
        MoverIsBusy(st, cfg.writerFirst, u);
        StepStaysThere(st, u, choice);
        ExecOthers(st, u, choice);
        InvIsOrdered(st, vs, true);
        if u != t {
          CoreOfInv(st, vs, true);
          OtherStepKeepsKey(st, vs, true, t, u, choice);
        } else {
          OwnStepAnswers(st, t, choice, link, BehindOpen());
        }
    }
    if a.Step? && a.t == t && st.threads[t].script.Returning? {
      LinkTransfers();
      PassesListed(st, vs, t, a.choice, link);
      WillUseGoesOn(Do(st, a), t, true);
      ReturnsLaterStill(st, actions, t);
      ResultStays(cfg, Do(st, a), actions[1..], t, Some(st.threads[t].bsock));
      assert r == Some(st.threads[t].bsock);
      ActionSpares(cfg, st, vs, a, st.threads[t].bsock);
      RunUses(cfg, Do(st, a), vs1, true, actions[1..], t, st.threads[t].bsock, true);
    } else {
      AnswersGoesOn(Do(st, a).threads[t].script, link, BehindOpen());
      ReturnsLaterStill(st, actions, t);
      if r.Some? {
        ActionSpares(cfg, st, vs, a, r.value);
      }
      LinkCallRuns(cfg, Do(st, a), vs1, actions[1..], t, link);
    }
  }

  lemma {:induction false} CoreOfInv(st: State, vs: Views, strict: bool)
    requires Inv(st, vs, strict)
    ensures Core(st, vs, strict)
  {
    hide Core, Roles;
  }

  lemma {:induction false} ReturnsLaterStill(st: State, actions: seq<Action>, t: Tid)
    requires ReturnsWith(st, actions, t) && InProgress(Do(st, actions[0]), t)
    ensures ReturnsWith(Do(st, actions[0]), actions[1..], t)
  {
  }

  lemma {:induction false} ActionSpares(cfg: Setting, st: State, vs: Views, a: Action, s: Sock)
    requires Inv(st, vs, true) && Possible(cfg, st, a) && Spared(st, s) && (a.Start? ==> Spares(a.call, s))
    ensures Spared(Do(st, a), s)
  {
    hide Inv, Spared, Exec, Begin, MayStart, CanStep;
    match a {
      case Start(u, call) => StartSpares(st, u, call, s);
      case Step(u, choice) =>
        MoverIsBusy(st, cfg.writerFirst, u);
        StepSpares(st, vs, true, u, choice, s);
    }
  }

  /** With the return passed, the socket is registered. */
  lemma {:induction false} PassesListed(st: State, vs: Views, t: Tid, choice: bool, link: Link)
    requires Inv(st, vs, true) && t in st.threads && st.threads[t].script.Returning?
    ensures st.threads[t].bsock in Exec(st, t, choice).listed
    ensures Exec(st, t, choice).threads[t].bsock == st.threads[t].bsock
  {
    ReturnsRegistered(st, vs, t, st.threads[t].script.link);
    ReturningLeaves(st, t, choice);
    hide Inv, Exec;
  }

  lemma {:induction false} ReturningLeaves(st: State, t: Tid, choice: bool)
    requires t in st.threads && st.threads[t].script.Returning?
    ensures
      var st' := Exec(st, t, choice);
      && st'.listed == st.listed && t in st'.threads && st'.threads[t].bsock == st.threads[t].bsock
      && st'.threads[t].script == st.threads[t].script.next
  {
    hide DestroyScript;
  }

  /** A bratislavaLinkSend or bratislavaLinkRecv for a supported link, when it is over, has used the
      adapter of the socket that bratislavaSocket handed to it, if that socket was connected and
      nobody destroys it meanwhile. */
  lemma {:induction false} LinkCallUsesAdapter(cfg: Setting, before: seq<Action>, t: Tid, call: Call, link: Link,
        during: seq<Action>)
    requires Orderly(cfg) && KeysAgree(cfg) && link.supported && (call == LinkSend(link) || call == LinkRecv(link))
    requires Run(cfg, INITIAL, before).Some? && MayStart(cfg, Run(cfg, INITIAL, before).value, t, call)
    requires
      var begun := Begin(Run(cfg, INITIAL, before).value, t, call);
      && Run(cfg, begun, during).Some? && ReturnsWith(begun, during, t) && Decides(begun, during, t, true)
      && var r := ResultOf(begun, during, t, None);
      r.Some? ==> Spared(begun, r.value) && AllSpare(during, r.value)
    ensures
      var begun := Begin(Run(cfg, INITIAL, before).value, t, call);
      var r := ResultOf(begun, during, t, None);
      r.Some? && UsesAdapterOf(begun, during, t, r.value)
  {
    hide Run, Inv, Orderly, MayStart, ReturnsWith, Decides, UsesAdapterOf, Spared, AllSpare, OpenScript, ResultOf,
         Answers, KeysAgree;
    InitialInv(true);
    var vs := RunKeeps(cfg, INITIAL, map[], true, before);
    var st := Run(cfg, INITIAL, before).value;
    var vs1 := StartKeeps(cfg, st, vs, true, t, call);
    OpenAnswers(link, BehindOpen());
    assert ScriptOf(call) == OpenScript(link, BehindOpen(), Return);
    hide BehindOpen;
    AnswersGoesOn(ScriptOf(call), link, BehindOpen());
    LinkCallRuns(cfg, Begin(st, t, call), vs1, during, t, link);
  }

  // ---- the call that deletes ---------------------------------------------------------------------

  /** The script deletes the socket, which is registered or has been taken from the registry by it. */
  predicate WillDelete(s: Script, listed: bool)
    decreases s
  {
    match s
    case DeleteSocket(_) => !listed
    case UnlistSocket(next) => listed && WillDelete(next, false)
    case IfListed(yes, _) => listed && WillDelete(yes, listed)
    case Branch(left, right) => WillDelete(left, listed) && WillDelete(right, listed)
    case IfCopied(found, missing) => WillDelete(found, listed) && WillDelete(missing, listed)
    case Lock(_, _, next) => WillDelete(next, listed)
    case Unlock(_, next) => WillDelete(next, listed)
    case CopyBySocket(next) => WillDelete(next, listed)
    case WriteBack(next) => WillDelete(next, listed)
    case UseAdapter(next) => WillDelete(next, listed)
    case UnindexSocket(next) => WillDelete(next, listed)
    case DeleteAdapter(next) => WillDelete(next, listed)
    case _ => false
  }

  lemma {:induction false} UpdateDeletes(next: Script)
    requires WillDelete(next, true)
    ensures WillDelete(RegistryUpdate(next), true)
  {
    var out := Unlock(Registry, next);
    assert WillDelete(out, true) && WillDelete(Unlock(Config, out), true);
    assert WillDelete(WriteBack(Unlock(Config, out)), true) && WillDelete(PutConfig(next), true);
    var test := IfCopied(PutConfig(next), out);
    assert WillDelete(test, true) && WillDelete(Unlock(Config, test), true);
    assert WillDelete(CopyBySocket(Unlock(Config, test)), true);
    assert WillDelete(ReadThenUpdate(BySocket, next), true);
  }

  lemma {:induction false} ReleaseDeletes(next: Script)
    requires WillDelete(next, true)
    ensures WillDelete(RegistryReleaseLocalPort(next), true)
  {
    var out := Unlock(Registry, next);
    assert WillDelete(out, true) && WillDelete(Unlock(Ports, out), true);
    assert WillDelete(Lock(Ports, Exclusive, Unlock(Ports, out)), true) && WillDelete(PutPort(next), true);
    var test := IfCopied(PutPort(next), out);
    assert WillDelete(test, true) && WillDelete(Unlock(Config, test), true);
    assert WillDelete(CopyBySocket(Unlock(Config, test)), true);
    assert WillDelete(GetConfig(BySocket, test), true);
  }

  lemma {:induction false} EraseDeletes(next: Script)
    ensures WillDelete(EraseSocket(DeleteObjects(next)), true)
  {
    var s1 := DeleteSocket(Unlock(Creation, Unlock(Deletion, next)));
    assert WillDelete(s1, false) && WillDelete(Unlock(ThisSocket, s1), false);
    assert WillDelete(DeleteObjects(next), false);
    var s2 := UnlistSocket(Unlock(Recursive, DeleteObjects(next)));
    assert WillDelete(Unlock(Recursive, DeleteObjects(next)), false) && WillDelete(s2, true);
    assert WillDelete(Unlock(Config, s2), true) && WillDelete(UnindexSocket(Unlock(Config, s2)), true);
  }

  lemma {:induction false} DestroyWillDelete(next: Script)
    ensures WillDelete(DestroyScript(next), true)
  {
    EraseDeletes(next);
    hide DeleteObjects, LeaveDestroy;
    var erase := EraseSocket(DeleteObjects(next));
    hide EraseSocket;
    UpdateDeletes(erase);
    ReleaseDeletes(RegistryUpdate(erase));
    hide RegistryUpdate, RegistryReleaseLocalPort;
    var body := RegistryReleaseLocalPort(RegistryUpdate(erase));
    var test := IfListed(body, Unlock(Recursive, LeaveDestroy(next)));
    assert WillDelete(test, true);
    var remove := RegistryRemove(DeleteObjects(next), LeaveDestroy(next));
    assert WillDelete(remove, true);
    ExistsDeletes(remove, LeaveDestroy(next));
    assert WillDelete(AfterDraining(next), true);
    hide AfterDraining;
    assert WillDelete(Lock(Creation, Exclusive, AfterDraining(next)), true);
    assert WillDelete(Lock(ThisSocket, Exclusive, Lock(Creation, Exclusive, AfterDraining(next))), true);
    assert WillDelete(DrainAndDelete(next), true);
    hide DrainAndDelete;
    var s1 := UseAdapter(Unlock(Deletion, DrainAndDelete(next)));
    assert WillDelete(Unlock(Deletion, DrainAndDelete(next)), true) && WillDelete(s1, true);
    ExistsDeletes(s1, Unlock(Deletion, next));
  }

  lemma {:induction false} ExistsDeletes(yes: Script, no: Script)
    requires WillDelete(yes, true)
    ensures WillDelete(RegistryExists(yes, no), true)
  {
    assert WillDelete(Unlock(Recursive, yes), true);
    assert WillDelete(IfListed(Unlock(Recursive, yes), Unlock(Recursive, no)), true);
  }

  /** t is destroying s, or has deleted it. */
  ghost predicate Destroying(st: State, vs: Views, t: Tid, s: Sock) {
    && s in st.device
    && (s !in st.alive ||
        (&& InProgress(st, t) && t in vs && st.threads[t].bsock == s && vs[t].owner
         && WillDelete(st.threads[t].script, s in st.listed)
         && (s !in st.listed ==> vs[t].phase.Erased? || vs[t].phase.AdapterGone?)))
  }

  lemma {:induction false} AliveNeverAgain(st: State, s: Script, b: Sock, copy: Option<Record>, x: Sock)
    requires Objects(st) && x in st.device && x !in st.alive
    ensures x in Effect(st, s, b, copy).device && x !in Effect(st, s, b, copy).alive
  {
  }

  lemma {:induction false} ScriptDeletes(st: State, t: Tid, choice: bool, s: Sock)
    requires Objects(st) && t in st.threads && s in st.device && st.threads[t].bsock == s
    requires WillDelete(st.threads[t].script, s in st.listed)
    ensures
      var (was, st') := (st.threads[t].script, Exec(st, t, choice));
      && s in st'.device && st'.threads[t].bsock == s
      && if was.DeleteSocket? then s !in st'.alive
         else st'.threads[t].script != Return && WillDelete(st'.threads[t].script, s in st'.listed)
              && (s in st'.listed <==> s in st.listed && !was.UnlistSocket?)
  {
    hide Effect, NextThread, WillDelete, Objects;
    var th := st.threads[t];
    EffectDeletes(st, th.script, s, th.copy);
    NextDeletes(st, th, choice);
  }

  lemma {:induction false} EffectDeletes(st: State, s: Script, b: Sock, copy: Option<Record>)
    requires Objects(st) && b in st.device && WillDelete(s, b in st.listed)
    ensures
      var st1 := Effect(st, s, b, copy);
      && b in st1.device && st1.threads == st.threads && (s.DeleteSocket? ==> b !in st1.alive)
      && (b in st1.listed <==> b in st.listed && !s.UnlistSocket?)
  {
    hide Update, CreateConfig, RemoveConfig;
    RemoveConfigObjects(st, b);
    if copy.Some? {
      UpdateOnlyRecords(st, copy.value);
    }
    hide Objects;
  }

  lemma {:induction false} NextDeletes(st: State, th: Thread, choice: bool)
    requires WillDelete(th.script, th.bsock in st.listed)
    ensures
      var th' := NextThread(st, th, choice);
      && th'.bsock == th.bsock
      && (th.script.DeleteSocket? ||
          (th'.script != Return && WillDelete(th'.script, th.bsock in st.listed && !th.script.UnlistSocket?)))
  {
    hide Found, FoundByDevice, DestroyScript, Newest;
  }

  lemma {:induction false} ViewDeletes(st: State, v: View, th: Thread, strict: bool)
    requires Follows(th.script, th.held, v, strict) && WillDelete(th.script, th.bsock in st.listed) && v.owner
    requires th.bsock !in st.listed ==> v.phase.Erased? || v.phase.AdapterGone?
    ensures
      var v' := ViewNext(st, v, th, strict);
      || th.script.DeleteSocket?
      || (v'.owner && (th.script.UnlistSocket? || th.bsock !in st.listed ==> v'.phase.Erased? || v'.phase.AdapterGone?))
  {
  }

  lemma {:induction false} OwnStepDeletes(st: State, vs: Views, strict: bool, t: Tid, choice: bool, s: Sock)
    requires t in st.threads && t in vs && s in st.alive && Destroying(st, vs, t, s)
    requires Objects(st) && Follows(st.threads[t].script, st.threads[t].held, vs[t], strict)
    ensures
      var (st', th) := (Exec(st, t, choice), Exec(st, t, choice).threads[t]);
      var v := ViewNext(st, vs[t], st.threads[t], strict);
      && s in st'.device
      && (s !in st'.alive ||
          (&& th.script != Return && th.bsock == s && v.owner && WillDelete(th.script, s in st'.listed)
           && (s !in st'.listed ==> v.phase.Erased? || v.phase.AdapterGone?)))
  {
    var th := st.threads[t];
    assert s in st.device;
    ScriptDeletes(st, t, choice, s);
    ViewDeletes(st, vs[t], th, strict);
    hide Effect, NextThread, WillDelete, ViewNext, Follows, Objects, Exec;
  }

  /** A step of another thread leaves the socket registered or unregistered, as it is. */
  lemma {:induction false} OtherStepLeaves(st: State, vs: Views, strict: bool, t: Tid, u: Tid, choice: bool, s: Sock)
    requires Inv(st, vs, strict) && t in st.threads && u in st.threads && t != u && t in vs && u in vs
    requires s in st.alive && Destroying(st, vs, t, s)
    ensures s in Exec(st, u, choice).listed <==> s in st.listed
    ensures s in Exec(st, u, choice).device
  {
    hide Disciplined, Excluded, InStep, HoldersListed, Follows, Guarded, Knows, CopyRight, Effect, NextThread, Objects,
         Roles, WillDelete;
    var th := st.threads[u];
    OfThread(st, vs, strict, u);
    OfThread(st, vs, strict, t);
    EffectOnListed(st, th.script, th.bsock, th.copy);
    EffectOnDevices(st, th.script, th.bsock, th.copy);
    OnlyListingLists(st, th.script, th.bsock, th.copy);
    if th.script.UnlistSocket? || th.script.ListSocket? {
      RuleOf(th.script, th.held, vs[u], strict);
      if s !in st.listed {
        NobodyElseInCreation(st, vs, strict, u, t);
        ErasedInCreation(st.threads[t].held, vs[t]);
      }
    }
  }

  lemma {:induction false} ErasedInCreation(h: Held, v: View)
    requires Guarded(h, v) && (v.phase.Erased? || v.phase.AdapterGone?)
    ensures h.creation != Free
  {
  }

  lemma {:induction false} OnlyListingLists(st: State, s: Script, b: Sock, copy: Option<Record>)
    ensures forall x :: x in Effect(st, s, b, copy).listed && x !in st.listed ==> s.ListSocket?
  {
  }

  lemma {:induction false} ActionDestroys(cfg: Setting, st: State, vs: Views, strict: bool, a: Action, t: Tid, s: Sock)
    returns (vs': Views)
    requires Inv(st, vs, strict) && Orderly(cfg) && (strict ==> KeysAgree(cfg)) && Possible(cfg, st, a)
    requires Destroying(st, vs, t, s)
    ensures Inv(Do(st, a), vs', strict) && Destroying(Do(st, a), vs', t, s)
  {
    hide Core, Roles, Begin, Orderly, KeysAgree, StartView, ViewNext, CanStep, WillDelete;
    match a {
      case Start(u, call) =>
        vs' := StartKeeps(cfg, st, vs, strict, u, call);
        BeginKeepsObjects(st, u, call);
        if s in st.alive {
          StartsElse(cfg, st, u, call, t);
        }
      case Step(u, choice) =>
        vs' := StepKeeps(st, vs, strict, cfg.writerFirst, u, choice);
        MoverIsBusy(st, cfg.writerFirst, u);
        InvIsOrdered(st, vs, strict);
        ViewsOf(st, vs, strict, u);
        if s !in st.alive {
          var th := st.threads[u];
          AliveNeverAgain(st, th.script, th.bsock, th.copy, s);
        } else if u == t {
          OwnStepDeletes(st, vs, strict, t, choice, s);
        } else {
          OtherStepLeaves(st, vs, strict, t, u, choice, s);
          ExecOthers(st, u, choice);
        }
    }
  }

  lemma {:induction false} ViewsOf(st: State, vs: Views, strict: bool, u: Tid)
    requires Inv(st, vs, strict) && u in st.threads
    ensures u in vs && Follows(st.threads[u].script, st.threads[u].held, vs[u], strict)
  {
    hide Follows, Excluded, Objects, InStep, HoldersListed, Owners, Roles;
    OfThread(st, vs, strict, u);
  }

  lemma {:induction false} BeginKeepsObjects(st: State, u: Tid, call: Call)
    ensures
      var st' := Begin(st, u, call);
      st'.device == st.device && st'.alive == st.alive && st'.listed == st.listed
  {
    hide ScriptOf;
  }

  lemma {:induction false} RunDestroys(cfg: Setting, st: State, vs: Views, strict: bool, actions: seq<Action>, t: Tid,
        s: Sock) returns (vs': Views)
    requires Inv(st, vs, strict) && Orderly(cfg) && (strict ==> KeysAgree(cfg)) && Run(cfg, st, actions).Some?
    requires Destroying(st, vs, t, s)
    ensures Inv(Run(cfg, st, actions).value, vs', strict) && Destroying(Run(cfg, st, actions).value, vs', t, s)
    decreases |actions|
  {
    hide Inv, Destroying, Possible, Do, Orderly, KeysAgree;
    if actions == [] {
      vs' := vs;
    } else {
      var vs1 := ActionDestroys(cfg, st, vs, strict, actions[0], t, s);
      vs' := RunDestroys(cfg, Do(st, actions[0]), vs1, strict, actions[1..], t, s);
    }
  }

  lemma {:induction false} DestroyBegins(st: State, vs: Views, t: Tid, s: Sock)
    requires Objects(st) && s in st.listed
    ensures Destroying(Begin(st, t, Destroy(Some(s))), vs[t := StartView(Destroy(Some(s)))], t, s)
  {
    DestroyWillDelete(Return);
    hide DestroyScript;
    assert WillDelete(ScriptOf(Destroy(Some(s))), true);
  }

  lemma {:induction false} DeadIsUnlisted(st: State, vs: Views, strict: bool, t: Tid, s: Sock)
    requires Inv(st, vs, strict) && Destroying(st, vs, t, s) && !InProgress(st, t)
    ensures s !in st.alive && s !in st.adapters && s !in st.listed
  {
    hide Disciplined, Excluded, InStep, HoldersListed, Owners, Roles;
  }

  /** When a bratislavaDestroy that was called on a registered socket is over, the socket is no longer
      registered, and it and its adapter are deleted, whatever the other threads have done. */
  lemma {:induction false} DestroyDeletes(cfg: Setting, before: seq<Action>, t: Tid, s: Sock, during: seq<Action>)
    requires Orderly(cfg)
    requires Run(cfg, INITIAL, before).Some? && MayStart(cfg, Run(cfg, INITIAL, before).value, t, Destroy(Some(s)))
    requires s in Run(cfg, INITIAL, before).value.listed
    requires
      var begun := Begin(Run(cfg, INITIAL, before).value, t, Destroy(Some(s)));
      Run(cfg, begun, during).Some? && !InProgress(Run(cfg, begun, during).value, t)
    ensures
      var end := Run(cfg, Begin(Run(cfg, INITIAL, before).value, t, Destroy(Some(s))), during).value;
      s !in end.listed && s !in end.adapters && s !in end.alive
  {
    hide Run, Inv, Orderly, MayStart, Begin, Destroying, StartView, Objects;
    InitialInv(false);
    var vs := RunKeeps(cfg, INITIAL, map[], false, before);
    var st := Run(cfg, INITIAL, before).value;
    InvIsOrdered(st, vs, false);
    var vs1 := StartKeeps(cfg, st, vs, false, t, Destroy(Some(s)));
    DestroyBegins(st, vs, t, s);
    var vs2 := RunDestroys(cfg, Begin(st, t, Destroy(Some(s))), vs1, false, during, t, s);
    DeadIsUnlisted(Run(cfg, Begin(st, t, Destroy(Some(s))), during).value, vs2, false, t, s);
  }
}
