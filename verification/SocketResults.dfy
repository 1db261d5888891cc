/**
 * What bratislavaSocket returns: in every interleaving a registered socket of the link's device,
 * and the one that was registered already, if it stays.
 */
module SocketResults {
  import opened Common
  import opened SocketMachine
  import opened SocketScripts
  import opened SocketRuns
  import opened SocketDiscipline
  import opened SocketInvariant
  import opened SocketTheorems

  /** What the call of t has returned: the socket with which it has passed its return, and null if it
      has passed none. */
  ghost function ResultOf(st: State, actions: seq<Action>, t: Tid, given: Option<Sock>): Option<Sock>
    decreases |actions|
  {
    if actions == [] then given
    else ResultOf(Do(st, actions[0]), actions[1..], t, GivenBy(st, actions[0], t, given))
  }

  function GivenBy(st: State, a: Action, t: Tid, given: Option<Sock>): Option<Sock> {
    if a.t != t then given
    else if a.Start? then None
    else if t in st.threads && st.threads[t].script.Returning? then Some(st.threads[t].bsock)
    else given
  }

  /** The call of t, which is in progress, returns with the last of the actions. */
  ghost predicate ReturnsWith(st: State, actions: seq<Action>, t: Tid)
    decreases |actions|
  {
    && actions != [] && InProgress(st, t)
    && if |actions| == 1 then !InProgress(Do(st, actions[0]), t) else ReturnsWith(Do(st, actions[0]), actions[1..], t)
  }

  // ---- every way through the call passes a return ----------------------------------------------

  /** The key whose config has been seen and is about to be loaded, in the creation mutex. */
  function Loading(s: Script): Option<string> {
    match s
    case LoadIndexed(key, _, _) => Some(key)
    case Lock(m, _, next) => if m == Config then Loading(next) else None
    case Unlock(m, next) => if m == Creation || m == Deletion then None else Loading(next)
    case _ => None
  }

  /** A config is loaded only after it has been seen, and the rest passes the return of the link and
      then leaves for `got`. */
  predicate Answers(s: Script, link: Link, got: Script)
    decreases s
  {
    match s
    case Return => false
    case NextVictim => false
    case Returning(l, next) => l == link && next == LeaveOpen(got)
    case LoadIndexed(_, found, _) => Answers(found, link, got) && Loading(found).None?
    case IfIndexed(key, yes, no) =>
      && Answers(yes, link, got) && Answers(no, link, got)
      && (Loading(yes).Some? ==> Loading(yes).value == key) && Loading(no).None?
    case IfListed(yes, no) =>
      Answers(yes, link, got) && Answers(no, link, got) && Loading(yes).None? && Loading(no).None?
    case IfCopied(found, missing) =>
      Answers(found, link, got) && Answers(missing, link, got) && Loading(found).None? && Loading(missing).None?
    case Branch(left, right) =>
      Answers(left, link, got) && Answers(right, link, got) && Loading(left).None? && Loading(right).None?
    case Lock(m, _, next) => Answers(next, link, got) && (m != Config ==> Loading(next).None?)
    case Unlock(m, next) => Answers(next, link, got) && (m == Creation || m == Deletion ==> Loading(next).None?)
    case _ => Answers(s.next, link, got) && Loading(s.next).None?
  }

  predicate KeyIsThere(st: State, s: Script) {
    Loading(s).Some? ==> Loading(s).value in st.byDevice
  }

  lemma {:induction false} NewAnswers(link: Link, got: Script)
    requires link.supported
    ensures Answers(MakeNew(link, got, Return), link, got) && Loading(MakeNew(link, got, Return)).None?
  {
    var s1 := Returning(link, LeaveOpen(got));
    assert Answers(s1, link, got) && Loading(s1).None?;
    hide LeaveOpen;
    assert Answers(Unlock(Recursive, s1), link, got) && Loading(Unlock(Recursive, s1)).None?;
    var s2 := ListSocket(Unlock(Recursive, s1));
    assert Answers(s2, link, got) && Loading(s2).None?;
    assert Answers(Unlock(Config, s2), link, got) && Loading(Unlock(Config, s2)).None?;
    var s3 := IndexSocket(Unlock(Config, s2));
    assert Answers(s3, link, got) && Loading(s3).None?;
    var s4 := Lock(Config, Exclusive, s3);
    assert Answers(s4, link, got) && Loading(s4).None?;
    var s5 := Lock(Recursive, Exclusive, s4);
    assert Answers(s5, link, got) && Loading(s5).None?;
    assert Answers(NewAdapter(s5), link, got) && Loading(NewAdapter(s5)).None?;
    assert s5 == RegistryAdd(s1) && MakeNew(link, got, Return) == NewSocket(link, NewAdapter(s5));
  }

  lemma {:induction false} FoundAnswers(link: Link, got: Script) returns (found: Script)
    ensures found == Lock(Config, Shared, LoadIndexed(link.linkID,
              Unlock(Config, Returning(link, LeaveOpen(got))), Unlock(Config, LeaveOpen(Return))))
    ensures Answers(found, link, got) && Loading(found) == Some(link.linkID)
  {
    hide LeaveOpen;
    var s := Returning(link, LeaveOpen(got));
    assert Answers(s, link, got) && Loading(s).None?;
    var back := Unlock(Config, s);
    assert Answers(back, link, got) && Loading(back).None?;
    found := Lock(Config, Shared, LoadIndexed(link.linkID, back, Unlock(Config, LeaveOpen(Return))));
  }

  lemma {:induction false} OpenAnswers(link: Link, got: Script)
    requires link.supported
    ensures Answers(OpenScript(link, got, Return), link, got) && Loading(OpenScript(link, got, Return)).None?
  {
    var found := FoundAnswers(link, got);
    var made := MakeNew(link, got, Return);
    NewAnswers(link, got);
    hide MakeNew, LeaveOpen;
    var yes, no := Unlock(Config, Unlock(Recursive, found)), Unlock(Config, Unlock(Recursive, made));
    assert Answers(Unlock(Recursive, found), link, got) && Answers(Unlock(Recursive, made), link, got);
    assert Loading(Unlock(Recursive, found)) == Some(link.linkID) && Loading(Unlock(Recursive, made)).None?;
    assert Answers(yes, link, got) && Loading(yes) == Some(link.linkID) && Answers(no, link, got) && Loading(no).None?;
    var test := IfIndexed(link.linkID, yes, no);
    assert Answers(test, link, got) && Loading(test).None?;
    var s1 := Lock(Config, Shared, test);
    assert Answers(s1, link, got) && Loading(s1).None?;
    var s2 := Lock(Recursive, Exclusive, s1);
    assert Answers(s2, link, got) && s2 == RegistryExistsDevice(link.linkID, found, made);
    var s3 := Lock(Creation, Exclusive, s2);
    assert Answers(s3, link, got) && OpenScript(link, got, Return) == Lock(Deletion, Shared, s3);
  }

  lemma {:induction false} LoadsInCreation(s: Script, h: Held, v: View, strict: bool)
    requires Follows(s, h, v, strict) && Loading(s).Some?
    ensures h.creation != Free
    decreases s
  {
    match s
    case Lock(m, mode, next) => LoadsInCreation(next, h.With(m, mode), v, strict);
    case Unlock(m, next) => LoadsInCreation(next, h.With(m, Free), AfterUnlock(v, h.With(m, Free)), strict);
    case _ =>
  }

  // ---- steps ---------------------------------------------------------------------------------

  /** A step of t itself. */
  lemma {:induction false} OwnStepAnswers(st: State, t: Tid, choice: bool, link: Link, got: Script)
    requires Objects(st) && t in st.threads
    requires Answers(st.threads[t].script, link, got) && KeyIsThere(st, st.threads[t].script)
    ensures
      var (s, th') := (st.threads[t].script, Exec(st, t, choice).threads[t]);
      if s.Returning? then th'.script == LeaveOpen(got) && th'.bsock == st.threads[t].bsock
      else Answers(th'.script, link, got) && KeyIsThere(Exec(st, t, choice), th'.script)
  {
    hide Effect, Found, FoundByDevice, DestroyScript, LeaveOpen;
    var th := st.threads[t];
    EffectKeepsThreads(st, th.script, th.bsock, th.copy);
    if Loading(NextThread(st, th, choice).script).Some? {
      EffectKeepsKeys(st, th.script, th.bsock, th.copy);
    }
  }

  lemma {:induction false} EffectKeepsKeys(st: State, s: Script, b: Sock, copy: Option<Record>)
    requires !s.UnindexSocket?
    ensures forall k :: k in st.byDevice ==> k in Effect(st, s, b, copy).byDevice
  {
  }

  /** A step of another thread removes no config while t is in the creation mutex. */
  lemma {:induction false} OtherStepKeepsKey(st: State, vs: Views, strict: bool, t: Tid, u: Tid, choice: bool)
    requires Core(st, vs, strict) && t in st.threads && u in st.threads && t != u
    requires KeyIsThere(st, st.threads[t].script)
    ensures KeyIsThere(Exec(st, u, choice), st.threads[t].script)
  {
    hide Effect, NextThread, Follows, Guarded, Knows, InStep, Owners, HoldersListed, Objects, CopyRight, Loading,
         Disciplined, Excluded;
    var s := st.threads[u].script;
    OfThread(st, vs, strict, t);
    OfThread(st, vs, strict, u);
    if Loading(st.threads[t].script).Some? {
      LoadsInCreation(st.threads[t].script, st.threads[t].held, vs[t], strict);
      NobodyElseInCreation(st, vs, strict, t, u);
      if s.UnindexSocket? {
        RuleOf(s, st.threads[u].held, vs[u], strict);
      } else {
        EffectKeepsKeys(st, s, st.threads[u].bsock, st.threads[u].copy);
      }
    }
  }

  /** Where t is between the start of its call and the end: it has yet to pass its return, or it has
      passed it with b and leaves. */
  ghost predicate Underway(st: State, vs: Views, t: Tid, link: Link, given: Option<Sock>) {
    && InProgress(st, t) && t in vs
    && match given
       case None => Answers(st.threads[t].script, link, Return) && KeyIsThere(st, st.threads[t].script)
       case Some(b) =>
         && st.threads[t].bsock == b
         && (st.threads[t].script == LeaveOpen(Return) || st.threads[t].script == Unlock(Deletion, Return))
         && vs[t].phase == Listed(Some(link.linkID)) && st.threads[t].held.deletion != Free
  }

  /** Passing the return: the thread knows that its socket is registered for the link. */
  lemma {:induction false} PassesReturn(th: Thread, v: View, link: Link)
    requires Follows(th.script, th.held, v, true) && th.script.Returning? && th.script.link == link
    ensures v.phase == Listed(Some(link.linkID)) && th.held.deletion != Free
  {
  }

  lemma {:induction false} OwnStepGoes(st: State, vs: Views, wf: bool, t: Tid, choice: bool, link: Link,
        given: Option<Sock>, vs': Views)
    requires Inv(st, vs, true) && CanStep(st, wf, t) && Underway(st, vs, t, link, given)
    requires vs' == vs[t := Settle(Exec(st, t, choice).threads[t].script, ViewNext(st, vs[t], st.threads[t], true))]
    ensures
      var (st', given') := (Exec(st, t, choice), GivenBy(st, Step(t, choice), t, given));
      if InProgress(st', t) then Underway(st', vs', t, link, given')
      else given'.Some? && given'.value in st'.listed && given'.value in st'.device
           && st'.device[given'.value] == link.linkID
  {
    hide Disciplined, Excluded, InStep, HoldersListed, Owners, Roles, Objects, Follows, Guarded, Answers, KeyIsThere,
         Effect, NextThread;
    var th := st.threads[t];
    CoreIsDisciplined(st, vs, true);
    OfThread(st, vs, true, t);
    if given.None? {
      OwnStepAnswers(st, t, choice, link, Return);
      if th.script.Returning? {
        ReturnIsOfLink(th.script, link, Return);
        PassesReturn(th, vs[t], link);
        ReturningKeepsHeld(st, t, choice);
      } else {
        AnswersGoesOn(Exec(st, t, choice).threads[t].script, link, Return);
      }
    } else {
      LeavesStep(st, t, choice);
      LeavesView(st, vs[t], th, link);
    }
  }

  lemma {:induction false} ReturnIsOfLink(s: Script, link: Link, got: Script)
    requires Answers(s, link, got) && s.Returning?
    ensures s.link == link
  {
  }

  lemma {:induction false} AnswersGoesOn(s: Script, link: Link, got: Script)
    requires Answers(s, link, got)
    ensures s != Return
  {
  }

  lemma {:induction false} ReturningKeepsHeld(st: State, t: Tid, choice: bool)
    requires t in st.threads && st.threads[t].script.Returning?
    ensures Exec(st, t, choice).threads[t].held == st.threads[t].held && t in Exec(st, t, choice).threads
  {
    hide DestroyScript;
  }

  lemma {:induction false} LeavesStep(st: State, t: Tid, choice: bool)
    requires t in st.threads
    requires st.threads[t].script == LeaveOpen(Return) || st.threads[t].script == Unlock(Deletion, Return)
    ensures
      var (th, st') := (st.threads[t], Exec(st, t, choice));
      && t in st'.threads && st'.listed == st.listed && st'.device == st.device
      && st'.threads[t].bsock == th.bsock
      && (th.script == LeaveOpen(Return) ==>
            st'.threads[t].script == Unlock(Deletion, Return) && st'.threads[t].held.deletion == th.held.deletion)
      && (th.script == Unlock(Deletion, Return) ==> st'.threads[t].script == Return)
  {
    hide DestroyScript;
  }

  lemma {:induction false} LeavesView(st: State, v: View, th: Thread, link: Link)
    requires v.phase == Listed(Some(link.linkID)) && th.held.deletion != Free && Knows(st, th.bsock, v.phase, true)
    ensures th.script == LeaveOpen(Return) ==> ViewNext(st, v, th, true) == v
    ensures th.bsock in st.listed && th.bsock in st.device && st.device[th.bsock] == link.linkID
  {
  }

  /** Any action but the last one of the call leaves it underway. */
  lemma {:induction false} ActionGoes(cfg: Setting, st: State, vs: Views, a: Action, t: Tid, link: Link,
        given: Option<Sock>) returns (vs': Views)
    requires Inv(st, vs, true) && Orderly(cfg) && KeysAgree(cfg) && Possible(cfg, st, a)
    requires Underway(st, vs, t, link, given)
    ensures Inv(Do(st, a), vs', true)
    ensures
      var (st', given') := (Do(st, a), GivenBy(st, a, t, given));
      if InProgress(st', t) then Underway(st', vs', t, link, given')
      else given'.Some? && given'.value in st'.listed && given'.value in st'.device
           && st'.device[given'.value] == link.linkID
  {
    hide Core, Roles, Exec, Begin, Orderly, KeysAgree, Answers, KeyIsThere, StartView, ViewNext, CanStep;
    match a {
      case Start(u, call) =>
        vs' := StartKeeps(cfg, st, vs, true, u, call);
        BeginsOnly(st, u, call);
        BeginKeepsKeys(st, u, call, st.threads[t].script);
      case Step(u, choice) =>
        vs' := StepKeeps(st, vs, true, cfg.writerFirst, u, choice);
        if u == t {
          OwnStepGoes(st, vs, cfg.writerFirst, t, choice, link, given, vs');
        } else {
          assert u in st.threads by { MoverIsBusy(st, cfg.writerFirst, u); }
          ExecOthers(st, u, choice);
          if given.None? {
            OtherStepKeepsKey(st, vs, true, t, u, choice);
          }
        }
    }
  }

  lemma {:induction false} BeginKeepsKeys(st: State, u: Tid, call: Call, s: Script)
    ensures KeyIsThere(Begin(st, u, call), s) <==> KeyIsThere(st, s)
  {
    hide ScriptOf, Loading;
  }

  lemma {:induction false} CallGoes(cfg: Setting, st: State, vs: Views, actions: seq<Action>, t: Tid, link: Link,
        given: Option<Sock>)
    requires Inv(st, vs, true) && Orderly(cfg) && KeysAgree(cfg) && Run(cfg, st, actions).Some?
    requires Underway(st, vs, t, link, given) && ReturnsWith(st, actions, t)
    ensures
      var (end, result) := (Run(cfg, st, actions).value, ResultOf(st, actions, t, given));
      && result.Some? && result.value in end.listed && result.value in end.device
      && end.device[result.value] == link.linkID
    decreases |actions|
  {
    hide Inv, Underway, Possible, Do, GivenBy, Orderly, KeysAgree;
    var vs' := ActionGoes(cfg, st, vs, actions[0], t, link, given);
    var st', given' := Do(st, actions[0]), GivenBy(st, actions[0], t, given);
    if |actions| == 1 {
      assert actions[1..] == [];
      NothingMore(cfg, st', t, given');
    } else {
      ReturnsLater(st', actions[1..], t);
      CallGoes(cfg, st', vs', actions[1..], t, link, given');
    }
  }

  lemma {:induction false} NothingMore(cfg: Setting, st: State, t: Tid, given: Option<Sock>)
    ensures Run(cfg, st, []) == Some(st) && ResultOf(st, [], t, given) == given
  {
  }

  lemma {:induction false} ReturnsLater(st: State, actions: seq<Action>, t: Tid)
    requires ReturnsWith(st, actions, t)
    ensures InProgress(st, t)
  {
  }

  lemma {:induction false} OpenBegins(cfg: Setting, st: State, vs: Views, t: Tid, link: Link) returns (vs': Views)
    requires Inv(st, vs, true) && Orderly(cfg) && KeysAgree(cfg) && MayStart(cfg, st, t, Open(link)) && link.supported
    ensures Inv(Begin(st, t, Open(link)), vs', true) && Underway(Begin(st, t, Open(link)), vs', t, link, None)
  {
    hide Inv, Orderly, KeysAgree, MayStart, StartView, Answers, OpenScript;
    OpenAnswers(link, Return);
    AnswersGoesOn(OpenScript(link, Return, Return), link, Return);
    vs' := StartKeeps(cfg, st, vs, true, t, Open(link));
  }

  /** In every interleaving bratislavaSocket returns a socket that is registered for the device of the
      link at that moment, if the instrument of the link is supported. */
  lemma {:induction false} OpenReturnsListed(cfg: Setting, before: seq<Action>, t: Tid, link: Link, during: seq<Action>)
    requires Orderly(cfg) && KeysAgree(cfg) && link.supported
    requires Run(cfg, INITIAL, before).Some? && MayStart(cfg, Run(cfg, INITIAL, before).value, t, Open(link))
    requires
      var begun := Begin(Run(cfg, INITIAL, before).value, t, Open(link));
      Run(cfg, begun, during).Some? && ReturnsWith(begun, during, t)
    ensures
      var begun := Begin(Run(cfg, INITIAL, before).value, t, Open(link));
      var (end, result) := (Run(cfg, begun, during).value, ResultOf(begun, during, t, None));
      && result.Some? && result.value in end.listed && result.value in end.device
      && end.device[result.value] == link.mac
  {
    hide Run, Inv, Orderly, MayStart, Begin, Underway, ReturnsWith, ResultOf;
    InitialInv(true);
    var vs := RunKeeps(cfg, INITIAL, map[], true, before);
    var st := Run(cfg, INITIAL, before).value;
    assert link.linkID == link.mac by { PassedLink(cfg, st, t, link); }
    var vs1 := OpenBegins(cfg, st, vs, t, link);
    CallGoes(cfg, Begin(st, t, Open(link)), vs1, during, t, link, None);
  }

  lemma {:induction false} PassedLink(cfg: Setting, st: State, t: Tid, link: Link)
    requires MayStart(cfg, st, t, Open(link))
    ensures link in cfg.links
  {
    hide ScriptOf;
  }

  /** If a socket of the device is registered when the call begins, and neither bratislavaDestroy is
      called on it before the call has returned nor Cleanup, the call returns that socket. */
  lemma {:induction false} OpenReturnsRegistered(cfg: Setting, before: seq<Action>, t: Tid, link: Link,
        during: seq<Action>, s: Sock)
    requires Orderly(cfg) && KeysAgree(cfg) && link.supported
    requires Run(cfg, INITIAL, before).Some? && MayStart(cfg, Run(cfg, INITIAL, before).value, t, Open(link))
    requires
      var st := Run(cfg, INITIAL, before).value;
      s in st.listed && s in st.device && st.device[s] == link.mac && Spared(st, s) && AllSpare(during, s)
    requires
      var begun := Begin(Run(cfg, INITIAL, before).value, t, Open(link));
      Run(cfg, begun, during).Some? && ReturnsWith(begun, during, t)
    ensures ResultOf(Begin(Run(cfg, INITIAL, before).value, t, Open(link)), during, t, None) == Some(s)
  {
    hide Run, Inv, Orderly, MayStart, Begin, Underway, ReturnsWith, ResultOf, Spared, AllSpare, OneSocketPerDevice,
         KeysAgree;
    InitialInv(true);
    var vs := RunKeeps(cfg, INITIAL, map[], true, before);
    var st := Run(cfg, INITIAL, before).value;
    var begun := Begin(st, t, Open(link));
    OpenReturnsListed(cfg, before, t, link, during);
    var vs1 := OpenBegins(cfg, st, vs, t, link);
    StartSpares(st, t, Open(link), s);
    BeginKeepsDevices(st, t, Open(link));
    ListedUntilDestroyed(cfg, begun, vs1, true, during, s);
    DevicesKeep(cfg, begun, vs1, true, during, s);
    var end := Run(cfg, begun, during).value;
    var vs2 := RunKeeps(cfg, begun, vs1, true, during);
    InvIsSingle(end, vs2);
    SameDeviceSameSocket(end, s, ResultOf(begun, during, t, None).value);
  }

  lemma {:induction false} BeginKeepsDevices(st: State, t: Tid, call: Call)
    ensures Begin(st, t, call).device == st.device
  {
    hide ScriptOf;
  }
}
