/**
 * Every call completes: when the calls in progress are run on and no new ones begin, the
 * number of steps is bounded and the end is a state in which every thread has returned.
 * Cleanup, run alone, ends with no socket registered.
 */
module SocketCompletion {
  import opened Common
  import opened SocketMachine
  import opened SocketScripts
  import opened SocketRuns
  import opened SocketDiscipline
  import opened SocketInvariant
  import opened SocketTheorems

  // ---- sums over threads ----------------------------------------------------------------

  /** What all entries come to. */
  ghost function Sum(parts: map<Tid, nat>): nat
    decreases |parts|
  {
    if parts == map[] then 0
    else
      var t :| t in parts;
      assert (parts - {t}).Keys == parts.Keys - {t};
      parts[t] + Sum(parts - {t})
  }

  lemma {:induction false} SumOne(parts: map<Tid, nat>, t: Tid)
    requires t in parts
    ensures Sum(parts) == parts[t] + Sum(parts - {t})
    decreases |parts|
  {
    var rest := parts - {t};
    assert rest.Keys == parts.Keys - {t};
    var u :| u in parts && Sum(parts) == parts[u] + Sum(parts - {u});
    if u != t {
      var without := parts - {u};
      assert without.Keys == parts.Keys - {u};
      SumOne(without, t);
      SumOne(rest, u);
      assert without - {t} == rest - {u};
    }
  }

  lemma {:induction false} SumMonotone(parts: map<Tid, nat>, fewer: map<Tid, nat>)
    requires parts.Keys == fewer.Keys && forall t :: t in parts ==> fewer[t] <= parts[t]
    ensures Sum(fewer) <= Sum(parts)
    decreases |parts|
  {
    if parts != map[] {
      var t :| t in parts;
      assert (parts - {t}).Keys == parts.Keys - {t};
      assert (fewer - {t}).Keys == fewer.Keys - {t};
      SumMonotone(parts - {t}, fewer - {t});
      SumOne(parts, t);
      SumOne(fewer, t);
    }
  }

  lemma {:induction false} SumLess(parts: map<Tid, nat>, fewer: map<Tid, nat>, t: Tid)
    requires parts.Keys == fewer.Keys && forall u :: u in parts ==> fewer[u] <= parts[u]
    requires t in parts && fewer[t] < parts[t]
    ensures Sum(fewer) < Sum(parts)
  {
    SumOne(parts, t);
    SumOne(fewer, t);
    assert (parts - {t}).Keys == parts.Keys - {t};
    assert (fewer - {t}).Keys == fewer.Keys - {t};
    SumMonotone(parts - {t}, fewer - {t});
  }

  // ---- how much is left to do -------------------------------------------------------------

  function Max(a: nat, b: nat): nat {
    if a < b then b else a
  }

  /** The most steps a script can take, up to the head of Cleanup's loop and out of it. */
  function Length(s: Script): nat {
    match s
    case Return => 0
    case NextVictim => 2
    case IfListed(yes, no) => 1 + Max(Length(yes), Length(no))
    case IfIndexed(_, yes, no) => 1 + Max(Length(yes), Length(no))
    case LoadIndexed(_, found, missing) => 1 + Max(Length(found), Length(missing))
    case IfCopied(found, missing) => 1 + Max(Length(found), Length(missing))
    case Branch(left, right) => 1 + Max(Length(left), Length(right))
    case _ => 1 + Length(s.next)
  }

  /** More steps than Cleanup takes for one socket. */
  const ROUND := 45

  lemma {:induction false} OneMore(s: Script)
    requires s.Lock? || s.Unlock? || s.CopyBySocket? || s.WriteBack? || s.UseAdapter? || s.UnindexSocket?
      || s.UnlistSocket?
          || s.DeleteAdapter? || s.DeleteSocket?
    ensures Length(s) == 1 + Length(s.next)
  {
  }

  lemma {:induction false} TheLonger(s: Script)
    ensures s.IfListed? ==> Length(s) == 1 + Max(Length(s.yes), Length(s.no))
    ensures s.IfCopied? ==> Length(s) == 1 + Max(Length(s.found), Length(s.missing))
    ensures s.Branch? ==> Length(s) == 1 + Max(Length(s.left), Length(s.right))
  {
  }

  lemma {:induction false} LengthOfPut(next: Script)
    ensures Length(PutConfig(next)) == 4 + Length(next) && Length(PutPort(next)) == 4 + Length(next)
    ensures Length(EraseSocket(next)) == 5 + Length(next)
  {
    hide Length;
    var out := Unlock(Registry, next);
    OneMore(out);
    OneMore(Unlock(Config, out));
    OneMore(WriteBack(Unlock(Config, out)));
    OneMore(PutConfig(next));
    OneMore(Unlock(Ports, out));
    OneMore(Lock(Ports, Exclusive, Unlock(Ports, out)));
    TheLonger(PutPort(next));
    var leave := Unlock(Recursive, next);
    OneMore(leave);
    OneMore(UnlistSocket(leave));
    OneMore(Unlock(Config, UnlistSocket(leave)));
    OneMore(UnindexSocket(Unlock(Config, UnlistSocket(leave))));
    OneMore(EraseSocket(next));
  }

  lemma {:induction false} LengthOfUpdate(next: Script)
    ensures Length(RegistryUpdate(next)) == 9 + Length(next)
    ensures Length(RegistryReleaseLocalPort(next)) == 9 + Length(next)
  {
    hide Length, PutConfig, PutPort;
    LengthOfPut(next);
    OneMore(Unlock(Registry, next));
    LengthOfGet(IfCopied(PutConfig(next), Unlock(Registry, next)));
    LengthOfGet(IfCopied(PutPort(next), Unlock(Registry, next)));
    TheLonger(IfCopied(PutConfig(next), Unlock(Registry, next)));
    TheLonger(IfCopied(PutPort(next), Unlock(Registry, next)));
    OneMore(RegistryUpdate(next));
    OneMore(RegistryReleaseLocalPort(next));
  }

  lemma {:induction false} LengthOfGet(next: Script)
    ensures Length(GetConfig(BySocket, next)) == 3 + Length(next)
  {
    hide Length;
    OneMore(Unlock(Config, next));
    OneMore(CopyBySocket(Unlock(Config, next)));
    OneMore(GetConfig(BySocket, next));
  }

  lemma {:induction false} LengthOfRemove(yes: Script, no: Script)
    ensures Length(RegistryRemove(yes, no)) == 2 + Max(23 + Length(yes), 1 + Length(no))
    ensures Length(RegistryExists(yes, no)) == 3 + Max(Length(yes), Length(no))
  {
    hide RegistryUpdate, RegistryReleaseLocalPort, EraseSocket, Length;
    LengthOfPut(yes);
    LengthOfUpdate(EraseSocket(yes));
    LengthOfUpdate(RegistryUpdate(EraseSocket(yes)));
    OneMore(Unlock(Recursive, no));
    OneMore(Unlock(Recursive, yes));
    TheLonger(IfListed(RegistryReleaseLocalPort(RegistryUpdate(EraseSocket(yes))), Unlock(Recursive, no)));
    TheLonger(IfListed(Unlock(Recursive, yes), Unlock(Recursive, no)));
    OneMore(RegistryRemove(yes, no));
    OneMore(RegistryExists(yes, no));
  }

  lemma {:induction false} LengthOfLeaving(next: Script)
    ensures Length(DeleteObjects(next)) == 5 + Length(next) && Length(LeaveDestroy(next)) == 3 + Length(next)
  {
    hide Length;
    var del := Unlock(Deletion, next);
    OneMore(del);
    OneMore(Unlock(Creation, del));
    OneMore(DeleteSocket(Unlock(Creation, del)));
    OneMore(Unlock(ThisSocket, DeleteSocket(Unlock(Creation, del))));
    OneMore(DeleteObjects(next));
    OneMore(Unlock(ThisSocket, del));
    OneMore(LeaveDestroy(next));
  }

  lemma {:induction false} LengthOfDestroy(next: Script)
    ensures Length(DestroyScript(next)) == 42 + Length(next)
  {
    hide Length, RegistryRemove, RegistryExists, DeleteObjects, LeaveDestroy;
    LengthOfLeaving(next);
    var remove := RegistryRemove(DeleteObjects(next), LeaveDestroy(next));
    LengthOfRemove(DeleteObjects(next), LeaveDestroy(next));
    LengthOfRemove(remove, LeaveDestroy(next));
    var inner := Lock(Creation, Exclusive, AfterDraining(next));
    OneMore(inner);
    OneMore(Lock(ThisSocket, Exclusive, inner));
    OneMore(DrainAndDelete(next));
    OneMore(Unlock(Deletion, DrainAndDelete(next)));
    OneMore(UseAdapter(Unlock(Deletion, DrainAndDelete(next))));
    OneMore(Unlock(Deletion, next));
    LengthOfRemove(UseAdapter(Unlock(Deletion, DrainAndDelete(next))), Unlock(Deletion, next));
    OneMore(DestroyScript(next));
  }

  /** The sockets that a Cleanup has still to begin with. */
  function Ahead(st: State, th: Thread, v: View): set<Sock> {
    if v.phase.Unknown? then st.listed else st.listed - {th.bsock}
  }

  function Weight(st: State, th: Thread, v: View): nat {
    Length(th.script) + if v.solo then ROUND * |Ahead(st, th, v)| else 0
  }

  ghost function Weights(st: State, vs: Views): map<Tid, nat>
    requires vs.Keys == st.threads.Keys
  {
    map t | t in st.threads :: Weight(st, st.threads[t], vs[t])
  }

  /** The steps of a thread's script, and for a Cleanup a round for every registered socket. */
  function Load(st: State, t: Tid): nat
    requires t in st.threads
  {
    Length(st.threads[t].script)
    + if InProgress(st, t) && t in st.calls && st.calls[t].Cleanup? then ROUND * |st.listed| else 0
  }

  function Loads(st: State): map<Tid, nat> {
    map t | t in st.threads :: Load(st, t)
  }

  /** The most steps the calls in progress can take together. */
  ghost function Outstanding(st: State): nat {
    Sum(Loads(st))
  }

  lemma {:induction false} Fewer(k: nat, a: set<Sock>, b: set<Sock>)
    requires a <= b
    ensures k * |a| <= k * |b|
  {
    Cardinality(a, b);
    MulMonotone(k, |a|, |b|);
  }

  lemma {:induction false} MulMonotone(k: nat, a: nat, b: nat)
    requires a <= b
    ensures k * a <= k * b
  {
    assert k * b == k * a + k * (b - a);
  }

  lemma {:induction false} Cardinality(a: set<Sock>, b: set<Sock>)
    requires a <= b
    ensures |a| <= |b|
    decreases a
  {
    if a != {} {
      Inhabited(a);
      var x: Sock :| x in a;
      Cardinality(a - {x}, b - {x});
    }
  }

  lemma {:induction false} WeightsAreOutstanding(st: State, vs: Views)
    requires Roles(st, vs)
    ensures Sum(Weights(st, vs)) <= Outstanding(st)
  {
    hide Length, IsNull;
    forall t | t in st.threads ensures Weights(st, vs)[t] <= Loads(st)[t] {
      Fewer(ROUND, Ahead(st, st.threads[t], vs[t]), st.listed);
    }
    SumMonotone(Loads(st), Weights(st, vs));
  }

  // ---- a step has less left to do -------------------------------------------------------------

  lemma {:induction false} LengthShrinks(st: State, th: Thread, choice: bool)
    requires th.script != Return && th.script != NextVictim
    ensures Length(NextThread(st, th, choice).script) < Length(th.script)
  {
    hide DestroyScript, Found, FoundByDevice, Newest;
  }

  /** Of what lies ahead of a cleaner, its own step other than a choice takes nothing back. */
  lemma {:induction false} AheadShrinks(st: State, th: Thread, v: View, strict: bool, choice: bool)
    requires v.solo && Follows(th.script, th.held, v, strict) && Guarded(th.held, v) && th.script != NextVictim
    requires Knows(st, th.bsock, v.phase, strict)
    ensures
      var (st1, th') := (Effect(st, th.script, th.bsock, th.copy), NextThread(st, th, choice));
      Ahead(st1, th', ViewNext(st, v, th, strict)) <= Ahead(st, th, v)
  {
    hide DestroyScript, Found, FoundByDevice, Newest, CreateConfig, RemoveConfig, Update;
    ConfigsKeepListed(st, th.bsock, th.copy);
  }

  lemma {:induction false} ConfigsKeepListed(st: State, b: Sock, copy: Option<Record>)
    ensures CreateConfig(st, b).listed == st.listed && RemoveConfig(st, b).listed == st.listed
    ensures copy.Some? ==> Update(st, copy.value).listed == st.listed
  {
  }

  /** A cleaner's choice brings a round's worth of steps and leaves one socket less ahead. */
  lemma {:induction false} ChoiceShrinks(st: State, th: Thread, choice: bool)
    requires th.script == NextVictim
    ensures
      var th' := NextThread(st, th, choice);
      Weight(st, th', ViewNext(st, CLEANER, th, false)) < Weight(st, th, CLEANER)
  {
    hide DestroyScript, Found, FoundByDevice, Newest;
    assert Length(NextVictim) == 2 && Length(Unlock(Recursive, Return)) == 1;
    hide Length;
    if st.listed != {} {
      LengthOfDestroy(NextVictim);
      assert st.listed == (st.listed - {Newest(st.listed)}) + {Newest(st.listed)};
    }
  }

  lemma {:induction false} OwnWeightShrinks(st: State, vs: Views, strict: bool, t: Tid, choice: bool)
    requires Inv(st, vs, strict) && InProgress(st, t) && t in vs
    ensures
      var th, st' := st.threads[t], Exec(st, t, choice);
      Weight(st', st'.threads[t], ViewNext(st, vs[t], th, strict)) < Weight(st, th, vs[t])
  {
    hide Core, Roles, Follows, Guarded, Knows, CopyRight, Length, NextThread, ViewNext, Effect, Disciplined;
    InvKeys(st, vs, strict);
    var th, v := st.threads[t], vs[t];
    CoreIsDisciplined(st, vs, strict);
    OfThread(st, vs, strict, t);
    RulesOfLooking(th.script, th.held, v, strict);
    if th.script == NextVictim {
      ChoiceIsChoice(st, th, v, strict);
      ChoiceShrinks(st, th, choice);
      ChoiceHasNoEffect(st, th);
      AheadSame(st, Exec(st, t, choice), NextThread(st, th, choice), ViewNext(st, v, th, strict));
    } else {
      LengthShrinks(st, th, choice);
      SoloStays(st, v, th, strict);
      if v.solo {
        AheadShrinks(st, th, v, strict, choice);
        var v' := ViewNext(st, v, th, strict);
        AheadSame(Effect(st, th.script, th.bsock, th.copy), Exec(st, t, choice), NextThread(st, th, choice), v');
        Fewer(ROUND, Ahead(Exec(st, t, choice), NextThread(st, th, choice), v'), Ahead(st, th, v));
      }
    }
  }

  lemma {:induction false} ChoiceIsChoice(st: State, th: Thread, v: View, strict: bool)
    requires th.script == NextVictim && v == CLEANER
    ensures ViewNext(st, v, th, strict) == ViewNext(st, CLEANER, th, false)
  {
  }

  lemma {:induction false} ChoiceHasNoEffect(st: State, th: Thread)
    requires th.script == NextVictim
    ensures Effect(st, th.script, th.bsock, th.copy) == st
  {
  }

  lemma {:induction false} AheadSame(st: State, st': State, th: Thread, v: View)
    requires st'.listed == st.listed
    ensures Ahead(st', th, v) == Ahead(st, th, v) && Weight(st', th, v) == Weight(st, th, v)
  {
    hide Length;
  }

  /** The other threads have no more to do than before: a socket is listed only while no Cleanup
      is in progress. */
  lemma {:induction false} OtherWeightKeeps(st: State, vs: Views, strict: bool, t: Tid, choice: bool, u: Tid)
    requires Inv(st, vs, strict) && CleanersOnly(st) && InProgress(st, t) && u in st.threads && u != t && u in vs
    ensures Weight(Exec(st, t, choice), st.threads[u], vs[u]) <= Weight(st, st.threads[u], vs[u])
  {
    hide Core, Follows, Guarded, Knows, CopyRight, Length, NextThread, Effect, IsNull, Disciplined;
    if vs[u].solo {
      SoloIsBusy(st, vs, u);
      CoreIsDisciplined(st, vs, strict);
      OfThread(st, vs, strict, t);
      CleanerListsNothing(st, st.threads[t], vs[t], strict);
      Fewer(ROUND, Ahead(Exec(st, t, choice), st.threads[u], vs[u]), Ahead(st, st.threads[u], vs[u]));
    }
  }

  lemma {:induction false} CleanerListsNothing(st: State, th: Thread, v: View, strict: bool)
    requires v.solo && Follows(th.script, th.held, v, strict) && Guarded(th.held, v)
    ensures Effect(st, th.script, th.bsock, th.copy).listed <= st.listed
  {
    hide CreateConfig, RemoveConfig, Update, Follows;
    ListsOutsideCleanup(th.script, th.held, v, strict);
    ConfigsKeepListed(st, th.bsock, th.copy);
  }

  lemma {:induction false} ListsOutsideCleanup(s: Script, h: Held, v: View, strict: bool)
    requires v.solo && Follows(s, h, v, strict) && Guarded(h, v)
    ensures !s.ListSocket?
  {
  }

  lemma {:induction false} StepShortens(st: State, vs: Views, wf: bool, t: Tid, choice: bool) returns (vs': Views)
    requires Inv(st, vs, false) && CleanersOnly(st) && CanStep(st, wf, t)
    ensures Inv(Exec(st, t, choice), vs', false) && CleanersOnly(Exec(st, t, choice))
    ensures Sum(Weights(Exec(st, t, choice), vs')) < Sum(Weights(st, vs))
  {
    hide Inv, Core, Weight, Exec, ViewNext, IsNull;
    var st' := Exec(st, t, choice);
    vs' := StepKeeps(st, vs, false, wf, t, choice);
    StepStaysAlone(st, t, choice);
    InvKeys(st, vs, false);
    InvKeys(st', vs', false);
    ExecOthers(st, t, choice);
    var v := ViewNext(st, vs[t], st.threads[t], false);
    OwnWeightShrinks(st, vs, false, t, choice);
    SettledWeight(st', st'.threads[t], v);
    forall u | u in st.threads ensures Weights(st', vs')[u] <= Weights(st, vs)[u] {
      if u != t {
        OtherWeightKeeps(st, vs, false, t, choice, u);
      }
    }
    SumLess(Weights(st, vs), Weights(st', vs'), t);
  }

  lemma {:induction false} InvKeys(st: State, vs: Views, strict: bool)
    requires Inv(st, vs, strict)
    ensures vs.Keys == st.threads.Keys && Roles(st, vs)
  {
    hide Core;
  }

  lemma {:induction false} SettledWeight(st: State, th: Thread, v: View)
    ensures Weight(st, th, Settle(th.script, v)) <= Weight(st, th, v)
  {
    hide Length;
  }

  // ---- completion ------------------------------------------------------------------------------

  predicate OnlySteps(actions: seq<Action>) {
    forall a :: a in actions ==> a.Step?
  }

  /** No run of steps is longer than what the calls in progress have to do. */
  lemma {:induction false} StepsAreBounded(cfg: Setting, st: State, vs: Views, actions: seq<Action>)
    requires Inv(st, vs, false) && CleanersOnly(st) && vs.Keys == st.threads.Keys
    requires Run(cfg, st, actions).Some? && OnlySteps(actions)
    ensures |actions| <= Sum(Weights(st, vs))
    decreases |actions|
  {
    hide Inv, Exec, Weights, CanStep;
    if actions != [] {
      assert actions[0] in actions;
      var a := actions[0];
      MoverIsThread(st, cfg.writerFirst, a.t);
      var vs1 := StepShortens(st, vs, cfg.writerFirst, a.t, a.choice);
      assert forall x :: x in actions[1..] ==> x in actions;
      InvKeys(Exec(st, a.t, a.choice), vs1, false);
      StepsAreBounded(cfg, Exec(st, a.t, a.choice), vs1, actions[1..]);
    }
  }

  ghost predicate AllReturned(st: State) {
    forall t :: !InProgress(st, t)
  }

  /** The calls in progress can be run until every thread has returned. */
  lemma {:induction false} CanComplete(cfg: Setting, st: State, vs: Views) returns (actions: seq<Action>)
    requires Inv(st, vs, false) && CleanersOnly(st) && vs.Keys == st.threads.Keys
    ensures OnlySteps(actions) && Run(cfg, st, actions).Some?
    ensures AllReturned(Run(cfg, st, actions).value)
    decreases Sum(Weights(st, vs))
  {
    hide Inv, Exec, Weights, CanStep;
    if t :| InProgress(st, t) {
      var u := AnyoneMoves(st, vs, false, cfg.writerFirst, t);
      MoverIsThread(st, cfg.writerFirst, u);
      var vs1 := StepShortens(st, vs, cfg.writerFirst, u, true);
      InvKeys(Exec(st, u, true), vs1, false);
      var rest := CanComplete(cfg, Exec(st, u, true), vs1);
      actions := [Step(u, true)] + rest;
      assert actions[1..] == rest;
    } else {
      actions := [];
    }
  }

  lemma {:induction false} MoverIsThread(st: State, wf: bool, u: Tid)
    requires CanStep(st, wf, u)
    ensures u in st.threads
  {
  }

  /** However calls interleave and whatever the adapters answer, running the calls in
      progress on, by steps in any order, ends within a bounded number of steps, and only
      when no step is left, which is when every call has returned. */
  lemma {:induction false} CallsComplete(cfg: Setting, before: seq<Action>, steps: seq<Action>)
    requires Apart(cfg) && Run(cfg, INITIAL, before).Some?
    requires OnlySteps(steps) && Run(cfg, Run(cfg, INITIAL, before).value, steps).Some?
    ensures |steps| <= Outstanding(Run(cfg, INITIAL, before).value)
    ensures
      var st := Run(cfg, Run(cfg, INITIAL, before).value, steps).value;
      (forall u :: !CanStep(st, cfg.writerFirst, u)) <==> AllReturned(st)
  {
    hide Inv, Run, Weights, Outstanding, Apart, CleanersOnly;
    var st1 := Run(cfg, INITIAL, before).value;
    var st := Run(cfg, st1, steps).value;
    InitialInv(false);
    ApartIsOrderly(cfg);
    AlwaysAlone(cfg, before);
    var vs1 := RunKeeps(cfg, INITIAL, map[], false, before);
    InvKeys(st1, vs1, false);
    StepsAreBounded(cfg, st1, vs1, steps);
    WeightsAreOutstanding(st1, vs1);
    var vs := RunKeeps(cfg, st1, vs1, false, steps);
    RunsCompose(cfg, INITIAL, before, steps);
    AlwaysAlone(cfg, before + steps);
    if t :| InProgress(st, t) {
      var u := AnyoneMoves(st, vs, false, cfg.writerFirst, t);
    } else {
      forall u ensures !CanStep(st, cfg.writerFirst, u) {
        assert !InProgress(st, u);
      }
    }
  }

  // ---- Cleanup leaves nothing ----------------------------------------------------------------

  /** Only Cleanups are in progress, and the one of t has not returned before no socket was left. */
  ghost predicate Emptying(st: State, t: Tid) {
    && t in st.threads
    && (forall u :: InProgress(st, u) ==> u in st.calls && st.calls[u].Cleanup?)
    && (!InProgress(st, t) ==> st.listed == {})
  }

  /** A cleaner returns only when it knows that no socket is registered. */
  lemma {:induction false} ReturnsWhenEmpty(st: State, th: Thread, v: View, strict: bool, choice: bool)
    requires v.solo && Follows(th.script, th.held, v, strict) && Guarded(th.held, v) && th.script != Return
    requires Knows(st, th.bsock, v.phase, strict) && NextThread(st, th, choice).held == NOTHING
    ensures st.listed == {}
  {
    hide DestroyScript, Found, FoundByDevice, Newest;
    LocksUpward(th, v, strict);
  }

  lemma {:induction false} StepEmpties(st: State, vs: Views, wf: bool, t: Tid, u: Tid, choice: bool)
    requires Inv(st, vs, false) && Emptying(st, t) && CanStep(st, wf, u)
    ensures Emptying(Exec(st, u, choice), t)
  {
    hide Core, CanStep, NextThread, Effect, IsNull, Entitled, Unmixed;
    MoverIsBusy(st, wf, u);
    CleanerIsEntitled(st, vs, u);
    ExecOthers(st, u, choice);
    EmptiesOrKeeps(st, vs, wf, u, choice);
    assert forall x :: InProgress(Exec(st, u, choice), x) ==> InProgress(st, x);
  }

  lemma {:induction false} CleanerIsEntitled(st: State, vs: Views, u: Tid)
    requires Roles(st, vs) && InProgress(st, u)
    ensures u in vs && u in st.calls && (vs[u].solo <==> st.calls[u].Cleanup?)
  {
    assert Entitled(st.threads[u].script, st.calls[u], vs[u]);
    hide IsNull;
  }

  /** A cleaner's step lists no socket, and is its last one only when none is listed. */
  lemma {:induction false} EmptiesOrKeeps(st: State, vs: Views, wf: bool, u: Tid, choice: bool)
    requires Inv(st, vs, false) && CanStep(st, wf, u) && u in vs && vs[u].solo
    ensures Exec(st, u, choice).listed <= st.listed
    ensures Exec(st, u, choice).threads[u].script == Return ==> st.listed == {}
  {
    hide Core, Follows, Guarded, Knows, CopyRight, NextThread, Effect, Disciplined, Roles;
    CoreIsDisciplined(st, vs, false);
    OfThread(st, vs, false, u);
    CleanerListsNothing(st, st.threads[u], vs[u], false);
    hide CanStep, Excluded, Objects;
    if NextThread(st, st.threads[u], choice).script == Return {
      ReturnsWithNothing(st, vs, wf, u, choice);
      ReturnsWhenEmpty(st, st.threads[u], vs[u], false, choice);
    }
  }

  lemma {:induction false} ReturnsWithNothing(st: State, vs: Views, wf: bool, u: Tid, choice: bool)
    requires Inv(st, vs, false) && CanStep(st, wf, u) && NextThread(st, st.threads[u], choice).script == Return
    ensures NextThread(st, st.threads[u], choice).held == NOTHING
  {
    hide Core, Follows, Guarded, Knows, CopyRight, NextThread, Effect, IsNull, Disciplined, ViewNext, CanStep;
    MoverIsThread(st, wf, u);
    CoreStep(st, vs, false, wf, u, choice);
    Retire(Exec(st, u, choice), vs[u := ViewNext(st, vs[u], st.threads[u], false)], false, u);
  }

  lemma {:induction false} StepsEmpty(cfg: Setting, st: State, vs: Views, t: Tid, actions: seq<Action>)
    requires Inv(st, vs, false) && CleanersOnly(st) && Emptying(st, t) && OnlySteps(actions)
      && Run(cfg, st, actions).Some?
    ensures Emptying(Run(cfg, st, actions).value, t)
    decreases |actions|
  {
    hide Inv, Exec, CanStep, Emptying;
    if actions != [] {
      assert actions[0] in actions;
      var a := actions[0];
      MoverIsThread(st, cfg.writerFirst, a.t);
      var vs1 := StepShortens(st, vs, cfg.writerFirst, a.t, a.choice);
      StepEmpties(st, vs, cfg.writerFirst, t, a.t, a.choice);
      assert forall x :: x in actions[1..] ==> x in actions;
      StepsEmpty(cfg, Exec(st, a.t, a.choice), vs1, t, actions[1..]);
    }
  }

  /** From any reachable state in which no call is in progress, a Cleanup that runs alone takes a
      bounded number of steps, always has a next one until it returns, and returns with no
      socket registered. */
  lemma {:induction false} CleanupCompletes(cfg: Setting, before: seq<Action>, t: Tid, steps: seq<Action>)
    requires Apart(cfg) && Run(cfg, INITIAL, before).Some? && AllReturned(Run(cfg, INITIAL, before).value)
    requires OnlySteps(steps) && Run(cfg, INITIAL, before + [Start(t, Cleanup)] + steps).Some?
    ensures
      var st := Run(cfg, INITIAL, before + [Start(t, Cleanup)] + steps).value;
      && |steps| <= 3 + ROUND * |Run(cfg, INITIAL, before).value.listed|
      && ((forall u :: !CanStep(st, cfg.writerFirst, u)) <==> AllReturned(st))
      && (AllReturned(st) ==> st.listed == {})
  {
    hide Inv, Run, Apart;
    ApartIsOrderly(cfg);
    var st0 := Run(cfg, INITIAL, before).value;
    var start := [Start(t, Cleanup)];
    RunsCompose(cfg, INITIAL, before, start + steps);
    assert before + (start + steps) == before + start + steps;
    RunsCompose(cfg, st0, start, steps);
    RunOne(cfg, st0, Start(t, Cleanup));
    var st1 := Begin(st0, t, Cleanup);
    InitialInv(false);
    var vs0 := RunKeeps(cfg, INITIAL, map[], false, before);
    var vs1 := ActionKeeps(cfg, st0, vs0, false, Start(t, Cleanup));
    InvKeys(st0, vs0, false);
    CleanupBegins(st0, vs0, t);
    StepsEmpty(cfg, st1, vs1, t, steps);
    RunsCompose(cfg, INITIAL, before, start);
    CallsComplete(cfg, before + start, steps);
    CleanupLoad(st0, t);
  }

  lemma {:induction false} RunsCompose(cfg: Setting, st: State, a: seq<Action>, b: seq<Action>)
    ensures
      Run(cfg, st, a + b) == if Run(cfg, st, a).Some? then Run(cfg, Run(cfg, st, a).value, b) else None
    decreases |a|
  {
    hide Exec, Begin, MayStart, CanStep;
    if a == [] {
      assert a + b == b;
    } else {
      assert (a + b)[1..] == a[1..] + b;
      if Possible(cfg, st, a[0]) {
        RunsCompose(cfg, Do(st, a[0]), a[1..], b);
      }
    }
  }

  lemma {:induction false} RunOne(cfg: Setting, st: State, a: Action)
    ensures Run(cfg, st, [a]) == if Possible(cfg, st, a) then Some(Do(st, a)) else None
  {
    hide Exec, Begin, MayStart, CanStep;
    if Possible(cfg, st, a) {
      assert [a][1..] == [];
      assert Run(cfg, Do(st, a), []) == Some(Do(st, a));
    }
  }

  lemma {:induction false} CleanupBegins(st: State, vs: Views, t: Tid)
    requires AllReturned(st) && Roles(st, vs)
    ensures Emptying(Begin(st, t, Cleanup), t) && CleanersOnly(Begin(st, t, Cleanup))
  {
    assert ScriptOf(Cleanup) != Return;
    hide ScriptOf, Entitled, Unmixed;
    BeginsOnly(st, t, Cleanup);
    hide Begin;
    forall u | InProgress(Begin(st, t, Cleanup), u) ensures u == t {
      assert !InProgress(st, u);
    }
  }

  lemma {:induction false} SumOfNothing(parts: map<Tid, nat>)
    requires forall t :: t in parts ==> parts[t] == 0
    ensures Sum(parts) == 0
    decreases |parts|
  {
    if parts != map[] {
      var t :| t in parts;
      assert (parts - {t}).Keys == parts.Keys - {t};
      SumOne(parts, t);
      SumOfNothing(parts - {t});
    }
  }

  /** Beside returned calls, a Cleanup has its own steps to do. */
  lemma {:induction false} CleanupLoad(st: State, t: Tid)
    requires AllReturned(st)
    ensures Outstanding(Begin(st, t, Cleanup)) <= 3 + ROUND * |st.listed|
  {
    hide Load;
    var parts := Loads(Begin(st, t, Cleanup));
    forall u | u in parts ensures parts[u] <= if u == t then 3 + ROUND * |st.listed| else 0 {
      LoadBesideReturned(st, t, u);
    }
    SumOne(parts, t);
    SumOfNothing(parts - {t});
  }

  lemma {:induction false} LoadBesideReturned(st: State, t: Tid, u: Tid)
    requires AllReturned(st) && u in Begin(st, t, Cleanup).threads
    ensures Load(Begin(st, t, Cleanup), u) <= if u == t then 3 + ROUND * |st.listed| else 0
  {
    if u == t {
      assert Length(CleanupScript()) == 3;
    } else {
      assert !InProgress(st, u);
    }
  }
}
