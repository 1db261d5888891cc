/**
 * The guarantees of the socket interface over every interleaving: no deleted object or
 * config record is used, some thread can always go on, and a device has at most one
 * registered socket.
 */
module SocketTheorems {
  import opened Common
  import opened SocketMachine
  import opened SocketScripts
  import opened SocketRuns
  import opened SocketDiscipline
  import opened SocketInvariant

  /** Every link for which a socket can be made names its device by the address the device's config
      is kept under. */
  predicate KeysAgree(cfg: Setting) {
    forall l :: l in cfg.links && l.supported ==> l.linkID == l.mac
  }

  /** No call that callers make and that takes a mutex may run beside Cleanup, but for another
      Cleanup. */
  ghost predicate CleanupAlone(cfg: Setting) {
    forall c :: c in cfg.beside && MayBeMade(cfg, c) ==> c.Cleanup? || IsNull(c)
  }

  /** Beside Cleanup, bratislavaDestroy is not called on any socket. */
  ghost predicate CleanupDestroysAlone(cfg: Setting) {
    forall c :: c in cfg.beside ==> !DestroysOne(c)
  }

  /** No socket is destroyed by two calls at once, of which Cleanup may be one. */
  ghost predicate Orderly(cfg: Setting) {
    cfg.destroys == Never || (cfg.destroys == NotAtOnce && CleanupDestroysAlone(cfg))
  }

  /** No socket is destroyed by two calls at once, and Cleanup runs alone. */
  ghost predicate Apart(cfg: Setting) {
    cfg.destroys == Never || (cfg.destroys == NotAtOnce && CleanupAlone(cfg))
  }

  lemma {:induction false} ApartIsOrderly(cfg: Setting)
    requires Apart(cfg)
    ensures Orderly(cfg)
  {
    forall c | DestroysOne(c) ensures !IsNull(c) && LinkOf(c).None? {
      assert ScriptOf(c) == DestroyScript(Return);
    }
  }

  // ---- every step keeps the invariant --------------------------------------------------

  /** A thread that looks at sockets_ in the recursive mutex, and is not removing its socket. */
  lemma {:induction false} ListedIsIndexed(st: State, vs: Views, strict: bool, t: Tid)
    requires Core(st, vs, strict) && t in st.threads && t in vs
    requires st.threads[t].held.recursive > 0 && !vs[t].phase.Unmapped?
    ensures strict && st.threads[t].bsock in st.listed ==> st.threads[t].bsock in st.bySocket
  {
    hide Disciplined, Excluded, Objects, Mirror, BeingRemoved, BeingAdded, HoldersListed, Owners;
    OnlyMine(st, vs, strict, t);
    assert !BeingRemoved(st, vs, st.threads[t].bsock);
  }

  lemma {:induction false} KnowsAtLooking(st: State, th: Thread, v: View, strict: bool)
    requires Follows(th.script, th.held, v, strict) && Guarded(th.held, v) && Knows(st, th.bsock, v.phase, strict)
    requires th.script.IfListed?
    requires strict && th.bsock in st.listed && !v.phase.Unmapped? ==> th.bsock in st.bySocket
    ensures th.bsock !in st.listed ==> Follows(th.script.no, th.held, v, strict)
    ensures th.bsock in st.listed ==>
      && Follows(th.script.yes, th.held, SeenListed(v), strict) && Guarded(th.held, SeenListed(v))
      && Knows(st, th.bsock, SeenListed(v).phase, strict)
      && !Private(v.phase)
    ensures (v.phase.Listed? || v.phase.Unknown?) && th.held.recursive > 0
    ensures v.solo ==> SeenListed(v) == v
  {
  }

  lemma {:induction false} RulesOfLooking(s: Script, h: Held, v: View, strict: bool)
    requires Follows(s, h, v, strict)
    ensures s.LoadIndexed? ==> Follows(s.missing, h, v, strict)
    ensures s.Branch? ==> Follows(s.left, h, v, strict) && Follows(s.right, h, v, strict)
    ensures s.IfCopied? ==> Follows(s.found, h, v, strict) && Follows(s.missing, h, v, strict)
    ensures s.Returning? || s.UseAdapter? || s.WriteBack? ==> Follows(s.next, h, v, strict)
    ensures s.CopyBySocket? || s.CopyByDevice? ==>
      v.phase.Listed? && h.registry != Free && Follows(s.next, h, Looked(v), strict)
    ensures s.NextVictim? ==> h == CLEANING && v == CLEANER
    ensures s.IfListed? ==> h.recursive > 0
  {
    hide DestroyScript;
    match s
    case LoadIndexed(_, _, _) =>
    case Branch(_, _) =>
    case IfCopied(_, _) =>
    case _ =>
  }

  lemma {:induction false} AbsentAtLooking(st: State, vs: Views, t: Tid, strict: bool)
    requires Core(st, vs, strict) && t in st.threads && t in vs && st.threads[t].script.IfIndexed?
    ensures
      var th, v := st.threads[t], vs[t];
      && v == BLANK && th.held.creation != Free && th.held.socket == Free
      && Follows(th.script.yes, th.held, v, strict)
      && Follows(th.script.no, th.held, View(false, Absent(th.script.key)), strict)
      && Guarded(th.held, View(false, Absent(th.script.key)))
      && (th.script.key !in st.byDevice ==> Knows(st, th.bsock, Absent(th.script.key), strict))
  {
    hide Disciplined, Excluded, HoldersListed, Owners, Objects, BeingAdded, BeingRemoved;
    var th := st.threads[t];
    OfThread(st, vs, strict, t);
    assert Follows(th.script, th.held, vs[t], strict);
    OnlyMine(st, vs, strict, t);
    if strict && th.script.key !in st.byDevice {
      forall s | s in st.listed && s in st.device ensures st.device[s] != th.script.key {
        assert !BeingRemoved(st, vs, s);
        assert s in st.bySocket;
      }
    }
  }

  /** The config that a thread looks up is that of its own socket, if none is shared. */
  lemma {:induction false} CopiesRight(st: State, vs: Views, strict: bool, b: Sock, v: View)
    requires Objects(st) && InStep(st, vs, strict) && v.phase.Listed? && Knows(st, b, v.phase, strict)
    ensures CopyRight(st, Found(st, b), b, Looked(v), strict)
      && CopyRight(st, FoundByDevice(st, b), b, Looked(v), strict)
    ensures Knows(st, b, Looked(v).phase, strict)
  {
  }

  lemma {:induction false} GuardedLooked(h: Held, v: View)
    requires Guarded(h, v) && v.phase.Listed? && h.registry != Free
    ensures Guarded(h, Looked(v))
  {
  }

  lemma {:induction false} AfterCopying(st: State, vs: Views, strict: bool, t: Tid)
    requires Core(st, vs, strict) && t in st.threads && t in vs
    requires st.threads[t].script.CopyBySocket? || st.threads[t].script.CopyByDevice?
    ensures vs[t].phase.Listed? && Core(Exec(st, t, true), vs[t := Looked(vs[t])], strict)
  {
    hide Follows, Guarded, Knows, Disciplined, Excluded, InStep, HoldersListed, Owners, Objects, CopyRight, Found,
         FoundByDevice;
    OfThread(st, vs, strict, t);
    var th, v := st.threads[t], vs[t];
    RulesOfLooking(th.script, th.held, v, strict);
    GuardedLooked(th.held, v);
    CopiesRight(st, vs, strict, th.bsock, v);
    AfterLooking(st, vs, strict, t, th.script.next, Looked(v),
                 if th.script.CopyBySocket? then Found(st, th.bsock) else FoundByDevice(st, th.bsock));
  }

  lemma {:induction false} AfterWriting(st: State, vs: Views, strict: bool, t: Tid)
    requires Core(st, vs, strict) && t in st.threads && t in vs && st.threads[t].script.WriteBack?
    ensures Core(Exec(st, t, true), vs, strict)
  {
    hide Follows, Guarded, Knows, Disciplined, Excluded, InStep, HoldersListed, Owners, Objects, CopyRight, Update;
    OfThread(st, vs, strict, t);
    var th, v := st.threads[t], vs[t];
    RulesOfLooking(th.script, th.held, v, strict);
    var st1 := if th.copy.Some? then Update(st, th.copy.value) else st;
    if th.copy.Some? {
      WritesOwnRecord(st, vs, strict, th, v);
      UpdateOnlyRecords(st, th.copy.value);
    }
    RecordsChange(st, vs, strict, st1);
    KnowsSameObjects(st, st1, th.bsock, v.phase, strict);
    CopyStays(st, st1, th.copy, th.bsock, v, strict);
    AfterLooking(st1, vs, strict, t, th.script.next, v, th.copy);
    assert vs[t := v] == vs;
  }

  lemma {:induction false} UpdateOnlyRecords(st: State, c: Record)
    ensures Update(st, c).(records := st.records) == st
  {
  }

  lemma {:induction false} CopyStays(st: State, st1: State, copy: Option<Record>, b: Sock, v: View, strict: bool)
    requires CopyRight(st, copy, b, v, strict) && st1.device == st.device
    ensures CopyRight(st1, copy, b, v, strict)
  {
  }

  // ---- Cleanup chooses the next socket ---------------------------------------------------

  /** While a cleaner holds the recursive mutex, no other thread destroys a socket. */
  lemma {:induction false} NoOtherOwner(st: State, vs: Views, strict: bool, t: Tid, u: Tid)
    requires Inv(st, vs, strict) && t in st.threads && u in st.threads && t != u && t in vs && u in vs
    requires vs[t].solo && st.threads[t].held.recursive > 0
    ensures !vs[u].owner
  {
    hide Disciplined, Excluded, Objects, InStep, HoldersListed, Follows, Knows, CopyRight, IsNull;
    OfThread(st, vs, strict, u);
    NobodyElseInRecursive(st, t, u);
    SoloIsBusy(st, vs, t);
    assert vs[u].owner ==> InProgress(st, u);
  }

  lemma {:induction false} SoloIsBusy(st: State, vs: Views, t: Tid)
    requires Roles(st, vs) && t in st.threads && vs[t].solo
    ensures InProgress(st, t)
  {
  }

  lemma {:induction false} AfterVictim(st: State, vs: Views, strict: bool, t: Tid)
    requires Inv(st, vs, strict) && t in st.threads && st.threads[t].script.NextVictim?
    ensures
      if st.listed == {} then Core(Exec(st, t, true), vs[t := LEAVER], strict)
      else Core(Exec(st, t, true), vs[t := Doomed(true)], strict)
  {
    hide Follows, Guarded, Knows, Disciplined, Excluded, InStep, HoldersListed, Owners, Objects, CopyRight,
         DestroyScript, Roles;
    OfThread(st, vs, strict, t);
    var th, v := st.threads[t], vs[t];
    RulesOfLooking(th.script, th.held, v, strict);
    FollowsCleanup(strict);
    if st.listed == {} {
      EmptyIsKnown(st, th, strict);
      NoCopyAtRest(st, th.copy, th.bsock, th.bsock, v, strict);
      AfterLooking(st, vs, strict, t, Unlock(Recursive, Return), LEAVER, th.copy);
    } else {
      var b := Newest(st.listed);
      NoCopyAtRest(st, th.copy, th.bsock, b, v, strict);
      ChoosesVictim(st, vs, strict, t, th.(bsock := b, script := DestroyScript(NextVictim)));
    }
  }

  lemma {:induction false} EmptyIsKnown(st: State, th: Thread, strict: bool)
    requires st.listed == {} && th.held == CLEANING
    ensures Knows(st, th.bsock, Over, strict) && Guarded(th.held, LEAVER)
  {
  }

  lemma {:induction false} NoCopyAtRest(st: State, copy: Option<Record>, b: Sock, b': Sock, v: View, strict: bool)
    requires CopyRight(st, copy, b, v, strict) && !v.phase.Holding?
    ensures copy == None && forall v': View :: CopyRight(st, None, b', v', strict)
  {
  }

  lemma {:induction false} ChoosesVictim(st: State, vs: Views, strict: bool, t: Tid, th: Thread)
    requires Inv(st, vs, strict) && t in st.threads && t in vs && vs[t] == CLEANER
    requires th.held == CLEANING == st.threads[t].held && th.bsock in st.listed
    requires Follows(th.script, CLEANING, Doomed(true), strict)
      && CopyRight(st, th.copy, th.bsock, Doomed(true), strict)
    ensures Core(Put(st, t, th), vs[t := Doomed(true)], strict)
  {
    hide Follows, Disciplined, Excluded, InStep, Objects, CopyRight, Roles, Compatible;
    var v := Doomed(true);
    VictimIsKnown(st, vs, strict, t, th.bsock);
    ObjectsOnly(st, t, th);
    JoinsSameHeld(st, st, t, th, v, strict);
    LocalDisciplined(st, vs, strict, t, th, v);
    assert Excluded(Put(st, t, th)) by { LocalExcluded(st, t, th); }
    LocalInStep(st, vs, strict, t, th, v);
    forall u | u in st.threads && u in vs && u != t ensures !vs[u].owner {
      NoOtherOwner(st, vs, strict, t, u);
    }
  }

  lemma {:induction false} VictimIsKnown(st: State, vs: Views, strict: bool, t: Tid, b: Sock)
    requires Core(st, vs, strict) && t in st.threads && t in vs && vs[t] == CLEANER
    requires st.threads[t].held.recursive > 0 && b in st.listed
    ensures Knows(st, b, Listed(None), strict)
  {
    hide Disciplined, Excluded, Objects, Mirror, BeingRemoved, BeingAdded, HoldersListed, Owners;
    OnlyMine(st, vs, strict, t);
    assert !BeingRemoved(st, vs, b);
  }

  // ---- a step of one thread ----------------------------------------------------------------

  /** What the thread knows after its step. */
  ghost function ViewNext(st: State, v: View, th: Thread, strict: bool): View {
    match th.script
    case Return => v
    case Lock(_, _, _) => v
    case Unlock(m, _) => AfterUnlock(v, th.held.With(m, Free))
    case IfListed(_, _) => if th.bsock in st.listed then SeenListed(v) else v
    case IfIndexed(key, _, _) => if key in st.byDevice then v else v.(phase := Absent(key))
    case LoadIndexed(key, _, _) => if key in st.byDevice then Loaded(v, key, strict) else v
    case CopyBySocket(_) => if v.phase.Listed? then Looked(v) else v
    case CopyByDevice(_) => if v.phase.Listed? then Looked(v) else v
    case IfCopied(_, _) => v
    case WriteBack(_) => v
    case Branch(_, _) => v
    case Returning(_, _) => v
    case UseAdapter(_) => v
    case NextVictim => if st.listed == {} then LEAVER else Doomed(true)
    case _ => ViewAfter(th.script, v)
  }

  lemma {:induction false} AfterTesting(st: State, vs: Views, strict: bool, t: Tid, choice: bool)
    requires Core(st, vs, strict) && t in st.threads && t in vs
    requires
      var s := st.threads[t].script;
      s.IfListed? || s.IfIndexed? || s.IfCopied? || s.Branch? || s.Returning? || s.UseAdapter?
    ensures Core(Exec(st, t, choice), vs[t := ViewNext(st, vs[t], st.threads[t], strict)], strict)
  {
    hide Follows, Guarded, Knows, Disciplined, Excluded, InStep, HoldersListed, Owners, Objects, CopyRight,
         DestroyScript;
    OfThread(st, vs, strict, t);
    var th, v := st.threads[t], vs[t];
    RulesOfLooking(th.script, th.held, v, strict);
    match th.script
    case IfListed(yes, no) =>
      ListedIsIndexed(st, vs, strict, t);
      KnowsAtLooking(st, th, v, strict);
      NoCopyAtRest(st, th.copy, th.bsock, th.bsock, v, strict);
      if th.bsock in st.listed {
        AfterLooking(st, vs, strict, t, yes, SeenListed(v), th.copy);
      } else {
        AfterLooking(st, vs, strict, t, no, v, th.copy);
      }
    case IfIndexed(key, yes, no) =>
      AbsentAtLooking(st, vs, t, strict);
      NoCopyAtRest(st, th.copy, th.bsock, th.bsock, v, strict);
      if key in st.byDevice {
        AfterLooking(st, vs, strict, t, yes, v, th.copy);
      } else {
        AfterLooking(st, vs, strict, t, no, View(false, Absent(key)), th.copy);
      }
    case IfCopied(found, missing) => AfterLooking(st, vs, strict, t, if th.copy.Some? then found
      else missing, v, th.copy);
    case Branch(left, right) => AfterLooking(st, vs, strict, t, if choice then left else right, v, th.copy);
    case Returning(_, next) => AfterLooking(st, vs, strict, t, next, v, th.copy);
    case UseAdapter(next) => AfterLooking(st, vs, strict, t, next, v, th.copy);
  }

  lemma {:induction false} CoreStep(st: State, vs: Views, strict: bool, wf: bool, t: Tid, choice: bool)
    requires Inv(st, vs, strict) && CanStep(st, wf, t)
    ensures t in vs && Core(Exec(st, t, choice), vs[t := ViewNext(st, vs[t], st.threads[t], strict)], strict)
  {
    hide Follows, Guarded, Knows, Disciplined, Excluded, InStep, HoldersListed, Owners, Objects, CopyRight, Roles,
         DestroyScript;
    OfThread(st, vs, strict, t);
    var th, v := st.threads[t], vs[t];
    assert vs[t := v] == vs;
    match th.script
    case Lock(_, _, _) => AfterLock(st, vs, strict, wf, t);
    case Unlock(_, _) => AfterUnlocking(st, vs, strict, t);
    case LoadIndexed(key, found, missing) =>
      if key in st.byDevice {
        AfterLoadIndexed(st, vs, strict, t, choice);
      } else {
        RulesOfLooking(th.script, th.held, v, strict);
        AfterLooking(st, vs, strict, t, missing, v, th.copy);
      }
    case CopyBySocket(_) => AfterCopying(st, vs, strict, t);
    case CopyByDevice(_) => AfterCopying(st, vs, strict, t);
    case WriteBack(_) => AfterWriting(st, vs, strict, t);
    case NextVictim => AfterVictim(st, vs, strict, t);
    case NewSocket(_, _) => AfterChange(st, vs, strict, t, choice);
    case NewAdapter(_) => AfterChange(st, vs, strict, t, choice);
    case IndexSocket(_) => AfterChange(st, vs, strict, t, choice);
    case ListSocket(_) => AfterChange(st, vs, strict, t, choice);
    case UnindexSocket(_) => AfterChange(st, vs, strict, t, choice);
    case UnlistSocket(_) => AfterChange(st, vs, strict, t, choice);
    case DeleteAdapter(_) => AfterChange(st, vs, strict, t, choice);
    case DeleteSocket(_) => AfterChange(st, vs, strict, t, choice);
    case _ => AfterTesting(st, vs, strict, t, choice);
  }

  /** A thread that has returned knows nothing. */
  function Settle(s: Script, v: View): View {
    if s == Return then BLANK else v
  }

  lemma {:induction false} Retire(st: State, vs: Views, strict: bool, t: Tid)
    requires Core(st, vs, strict) && t in st.threads && st.threads[t].script == Return
    ensures Core(st, vs[t := BLANK], strict) && st.threads[t].held == NOTHING
  {
    hide Follows, Guarded, Knows, Disciplined, Excluded, InStep, Owners, Objects, CopyRight, Compatible;
    OfThread(st, vs, strict, t);
    var th := st.threads[t];
    AtRest(st, th, vs[t], strict);
    JoinsSameHeld(st, st, t, th, BLANK, strict);
    LocalStep(st, vs, strict, t, th, BLANK);
    assert Put(st, t, th) == st by { assert st.threads[t := th] == st.threads; }
  }

  lemma {:induction false} AtRest(st: State, th: Thread, v: View, strict: bool)
    requires Follows(Return, th.held, v, strict) && Guarded(th.held, v) && CopyRight(st, th.copy, th.bsock, v, strict)
    ensures th.held == NOTHING && Follows(Return, th.held, BLANK, strict) && Guarded(th.held, BLANK)
    ensures CopyRight(st, th.copy, th.bsock, BLANK, strict) && Knows(st, th.bsock, BLANK.phase, strict)
    ensures !v.phase.Indexed? && !v.phase.Unmapped?
  {
  }

  lemma {:induction false} EffectKeepsThreads(st: State, s: Script, b: Sock, copy: Option<Record>)
    ensures Effect(st, s, b, copy).threads == st.threads && Effect(st, s, b, copy).calls == st.calls
    ensures !s.UnindexSocket? ==> Effect(st, s, b, copy).freed == st.freed
  {
  }

  /** A step changes one thread only, and no call. */
  predicate OnlyThread(st: State, st': State, t: Tid) {
    && st'.threads.Keys == st.threads.Keys && st'.calls == st.calls
    && forall u :: u in st.threads && u != t ==> st'.threads[u] == st.threads[u]
  }

  lemma {:induction false} ExecOthers(st: State, t: Tid, choice: bool)
    requires t in st.threads
    ensures OnlyThread(st, Exec(st, t, choice), t)
  {
    hide Effect, NextThread;
    EffectKeepsThreads(st, st.threads[t].script, st.threads[t].bsock, st.threads[t].copy);
  }

  lemma {:induction false} RolesStep(st: State, vs: Views, st': State, t: Tid, v: View)
    requires Roles(st, vs) && InProgress(st, t)
    requires OnlyThread(st, st', t) && v.solo == vs[t].solo
    ensures Roles(st', vs[t := Settle(st'.threads[t].script, v)])
  {
    assert Entitled(st.threads[t].script, st.calls[t], vs[t]);
    assert Entitled(st'.threads[t].script, st.calls[t], Settle(st'.threads[t].script, v));
    hide IsNull, Entitled, Unmixed;
    StepStaysUnmixed(st, st', t);
  }

  lemma {:induction false} StepStaysUnmixed(st: State, st': State, t: Tid)
    requires Unmixed(st) && InProgress(st, t) && OnlyThread(st, st', t)
    ensures Unmixed(st')
  {
    assert forall u :: InProgress(st', u) ==> InProgress(st, u);
  }

  lemma {:induction false} SoloStays(st: State, v: View, th: Thread, strict: bool)
    requires Follows(th.script, th.held, v, strict) && Guarded(th.held, v)
    ensures ViewNext(st, v, th, strict).solo == v.solo
  {
  }

  lemma {:induction false} CoreIsDisciplined(st: State, vs: Views, strict: bool)
    requires Core(st, vs, strict)
    ensures Disciplined(st, vs, strict) && Excluded(st) && Objects(st)
  {
    hide Disciplined, Excluded, Objects;
  }

  /** A step of one thread keeps the invariant. */
  lemma {:induction false} StepKeeps(st: State, vs: Views, strict: bool, wf: bool, t: Tid, choice: bool)
    returns (vs': Views)
    requires Inv(st, vs, strict) && CanStep(st, wf, t)
    ensures Inv(Exec(st, t, choice), vs', strict)
    ensures t in vs && vs' == vs[t := Settle(Exec(st, t, choice).threads[t].script,
      ViewNext(st, vs[t], st.threads[t], strict))]
  {
    hide Follows, Guarded, Knows, Core, CopyRight, Roles, Exec, ViewNext, Disciplined;
    var st' := Exec(st, t, choice);
    CoreIsDisciplined(st, vs, strict);
    OfThread(st, vs, strict, t);
    var v := ViewNext(st, vs[t], st.threads[t], strict);
    CoreStep(st, vs, strict, wf, t, choice);
    ExecOthers(st, t, choice);
    SoloStays(st, vs[t], st.threads[t], strict);
    RolesStep(st, vs, st', t, v);
    vs' := vs[t := Settle(st'.threads[t].script, v)];
    if st'.threads[t].script == Return {
      Retire(st', vs[t := v], strict, t);
      assert vs[t := v][t := BLANK] == vs';
    }
  }

  // ---- the start of a call -------------------------------------------------------------------

  /** The objects and the running threads do not notice a new call. */
  lemma {:induction false} StartKeepsThreads(st: State, vs: Views, strict: bool, t: Tid, th: Thread, v: View)
    requires Core(st, vs, strict) && (t in st.threads ==> t in vs && vs[t] == BLANK && st.threads[t].held == NOTHING)
    requires th.held == NOTHING && th.copy == None && v.phase.Unknown? && !(v.solo && v.owner)
    requires Follows(th.script, NOTHING, v, strict)
    ensures Disciplined(Put(st, t, th), vs[t := v], strict) && Excluded(Put(st, t, th))
    ensures InStep(Put(st, t, th), vs[t := v], strict) && HoldersListed(Put(st, t, th), vs[t := v])
  {
    hide Follows, Knows, Disciplined, Excluded, InStep, HoldersListed, CopyRight, Objects, Owners;
    StartKeepsExclusion(st, vs, strict, t, th, v);
    if t in st.threads {
      LocalInStep(st, vs, strict, t, th, v);
    } else {
      NewThreadInStep(st, vs, strict, t, th, v);
    }
    StartKeepsHolders(st, vs, strict, t, th, v);
  }

  lemma {:induction false} StartKeepsExclusion(st: State, vs: Views, strict: bool, t: Tid, th: Thread, v: View)
    requires Disciplined(st, vs, strict) && Excluded(st)
    requires th.held == NOTHING && th.copy == None && v.phase.Unknown? && !(v.solo && v.owner)
    requires Follows(th.script, NOTHING, v, strict)
    ensures Disciplined(Put(st, t, th), vs[t := v], strict) && Excluded(Put(st, t, th))
  {
    hide Follows;
    assert Knows(st, th.bsock, v.phase, strict) && CopyRight(st, th.copy, th.bsock, v, strict);
    hide Knows, CopyRight;
    LocalDisciplined(st, vs, strict, t, th, v);
    LocalExcluded(st, t, th);
  }

  lemma {:induction false} StartKeepsHolders(st: State, vs: Views, strict: bool, t: Tid, th: Thread, v: View)
    requires HoldersListed(st, vs) && th.held == NOTHING
    ensures HoldersListed(Put(st, t, th), vs[t := v])
  {
  }

  lemma {:induction false} NewThreadInStep(st: State, vs: Views, strict: bool, t: Tid, th: Thread, v: View)
    requires InStep(st, vs, strict) && t !in st.threads
    ensures InStep(Put(st, t, th), vs[t := v], strict)
  {
    hide BeingAdded, BeingRemoved;
    ChangersStay(st, vs, Put(st, t, th), vs[t := v]);
  }

  lemma {:induction false} SameButCalls(st: State, st': State, vs: Views, strict: bool)
    requires st'.(calls := st.calls) == st
    requires Disciplined(st, vs, strict) && Excluded(st) && InStep(st, vs, strict) && HoldersListed(st, vs)
      && Objects(st)
    ensures Disciplined(st', vs, strict) && Excluded(st') && InStep(st', vs, strict) && HoldersListed(st', vs)
      && Objects(st')
  {
    hide Follows, Guarded, Compatible, Mirror, BeingAdded, BeingRemoved, CopyRight;
    forall t | t in st'.threads
      ensures Knows(st', st'.threads[t].bsock, vs[t].phase, strict)
      ensures CopyRight(st', st'.threads[t].copy, st'.threads[t].bsock, vs[t], strict)
    {
      KnowsSameObjects(st, st', st'.threads[t].bsock, vs[t].phase, strict);
      CopyStays(st, st', st.threads[t].copy, st.threads[t].bsock, vs[t], strict);
    }
    ChangersStay(st, vs, st', vs);
    if strict {
      MirrorSame(st, st');
    }
  }

  /** The view of a call that begins: nothing, if it returns at once. */
  function StartView(call: Call): View {
    Settle(ScriptOf(call), InitialView(call))
  }

  lemma {:induction false} StartKeepsOwners(cfg: Setting, st: State, vs: Views, t: Tid, call: Call)
    requires Owners(st, vs) && Roles(st, vs) && MayStart(cfg, st, t, call) && Orderly(cfg)
    ensures Owners(Begin(st, t, call), vs[t := StartView(call)])
  {
    hide ConnScript, OpenScript, TransferScript, TimeoutScript, DisconnectScript, LinkTransferScript, CleanupScript,
         DestroyScript;
    var st', vs' := Begin(st, t, call), vs[t := StartView(call)];
    forall u, w | u in st'.threads && u in vs' && w in st'.threads && w in vs' && u != w && vs'[u].owner && vs'[w].owner
      ensures st'.threads[u].bsock != st'.threads[w].bsock
    {
      if u == t {
        OwnersDiffer(cfg, st, vs, t, call, w);
      } else if w == t {
        OwnersDiffer(cfg, st, vs, t, call, u);
      }
    }
  }

  /** A running destroyer has another socket than a destroy that may begin now. */
  lemma {:induction false} OwnersDiffer(cfg: Setting, st: State, vs: Views, t: Tid, call: Call, w: Tid)
    requires Owners(st, vs) && Roles(st, vs) && MayStart(cfg, st, t, call) && Orderly(cfg)
    requires StartView(call).owner && w in st.threads && w in vs && w != t && vs[w].owner
    ensures DestroysOne(call) && call.p.value != st.threads[w].bsock
  {
    StartsAsCalled(call);
    hide ScriptOf, IsNull;
    assert !IsNull(call) && InProgress(st, w);
    if vs[w].solo {
      DestroysNothingBeside(cfg, call);
      assert false;
    }
  }

  lemma {:induction false} BeginsOnly(st: State, t: Tid, call: Call)
    ensures
      var st' := Begin(st, t, call);
      && st'.threads.Keys == st.threads.Keys + {t} && st'.calls == st.calls[t := call]
      && st'.threads[t].script == ScriptOf(call)
      && (forall u :: u in st.threads && u != t ==> st'.threads[u] == st.threads[u])
  {
    hide ScriptOf, PointerOf;
  }

  lemma {:induction false} DestroysNothingBeside(cfg: Setting, call: Call)
    requires Orderly(cfg) && MayBeMade(cfg, call) && MayAccompany(cfg, call) && !IsNull(call)
    ensures !DestroysOne(call)
  {
    hide ScriptOf;
  }

  lemma {:induction false} StartsAsCalled(call: Call)
    ensures IsNull(call) ==> StartView(call) == BLANK
    ensures !IsNull(call) ==> (StartView(call).solo <==> call.Cleanup?)
    ensures StartView(call).owner ==> DestroysOne(call)
    ensures IsNull(call) <==> ScriptOf(call) == Return
  {
    hide ScriptOf;
  }

  /** Cleanup and bratislavaDestroy do not begin beside each other. */
  lemma {:induction false} StartsApart(cfg: Setting, st: State, t: Tid, call: Call, u: Tid)
    requires MayStart(cfg, st, t, call) && Orderly(cfg)
    requires !IsNull(call) && InProgress(st, u) && u in st.calls && !IsNull(st.calls[u])
    ensures call.Cleanup? ==> !DestroysOne(st.calls[u])
    ensures st.calls[u].Cleanup? ==> !DestroysOne(call)
  {
    hide IsNull;
    if st.calls[u].Cleanup? {
      DestroysNothingBeside(cfg, call);
    }
  }

  lemma {:induction false} StartKeepsRoles(cfg: Setting, st: State, vs: Views, t: Tid, call: Call)
    requires Roles(st, vs) && MayStart(cfg, st, t, call) && Orderly(cfg)
    ensures Roles(Begin(st, t, call), vs[t := StartView(call)])
  {
    StartsAsCalled(call);
    hide ScriptOf, IsNull, StartView, MayStart, Orderly, Begin, Unmixed;
    assert Entitled(ScriptOf(call), call, StartView(call));
    hide Entitled;
    BeginsOnly(st, t, call);
    StartStaysUnmixed(cfg, st, vs, t, call);
  }

  lemma {:induction false} StartStaysUnmixed(cfg: Setting, st: State, vs: Views, t: Tid, call: Call)
    requires Roles(st, vs) && MayStart(cfg, st, t, call) && Orderly(cfg)
    ensures Unmixed(Begin(st, t, call))
  {
    hide ScriptOf, IsNull, MayStart, Orderly, Begin;
    var st' := Begin(st, t, call);
    StartsAsCalled(call);
    BeginsOnly(st, t, call);
    forall u, w | InProgress(st', u) && InProgress(st', w) && u in st'.calls && w in st'.calls && st'.calls[u].Cleanup?
      ensures !DestroysOne(st'.calls[w])
    {
      if w == t && u != t {
        StartsApart(cfg, st, t, call, u);
      } else if u == t && w != t {
        StartsApart(cfg, st, t, call, w);
      }
    }
  }

  /** A new call keeps the invariant. */
  lemma {:induction false} StartKeeps(cfg: Setting, st: State, vs: Views, strict: bool, t: Tid, call: Call)
    returns (vs': Views)
    requires Inv(st, vs, strict) && MayStart(cfg, st, t, call)
    requires Orderly(cfg) && (strict ==> KeysAgree(cfg))
    ensures Inv(Begin(st, t, call), vs', strict) && vs' == vs[t := StartView(call)]
  {
    hide Disciplined, Excluded, InStep, HoldersListed, Owners, Roles, MayStart, Objects, Orderly, KeysAgree, StartView,
         Begin;
    vs' := vs[t := StartView(call)];
    StartKeepsParts(cfg, st, vs, strict, t, call);
    StartKeepsOwners(cfg, st, vs, t, call);
    StartKeepsRoles(cfg, st, vs, t, call);
  }

  lemma {:induction false} StartKeepsParts(cfg: Setting, st: State, vs: Views, strict: bool, t: Tid, call: Call)
    requires Core(st, vs, strict) && Roles(st, vs) && MayStart(cfg, st, t, call) && (strict ==> KeysAgree(cfg))
    ensures
      var (st', vs') := (Begin(st, t, call), vs[t := StartView(call)]);
      && Disciplined(st', vs', strict) && Excluded(st') && InStep(st', vs', strict) && HoldersListed(st', vs')
        && Objects(st')
  {
    hide Follows, Disciplined, Excluded, InStep, HoldersListed, Owners, Roles, ScriptOf, MayStart, Objects, KeysAgree,
         StartView;
    var v, th := StartView(call), Starting(call);
    StartFollows(call, strict, cfg, st, t);
    assert th.held == NOTHING && th.copy == None && th.script == ScriptOf(call);
    hide Starting;
    IdleIsBlank(cfg, st, vs, strict, t, call);
    StartKeepsThreads(st, vs, strict, t, th, v);
    assert Objects(Put(st, t, th)) by { ObjectsOnly(st, t, th); }
    SameButCalls(Put(st, t, th), Begin(st, t, call), vs[t := v], strict);
  }

  lemma {:induction false} ObjectsOnly(st: State, t: Tid, th: Thread)
    requires Objects(st)
    ensures Objects(Put(st, t, th))
  {
  }

  lemma {:induction false} StartFollows(call: Call, strict: bool, cfg: Setting, st: State, t: Tid)
    requires MayStart(cfg, st, t, call) && (strict ==> KeysAgree(cfg))
    ensures
      var v := StartView(call);
      v.phase.Unknown? && !(v.solo && v.owner) && Follows(ScriptOf(call), NOTHING, v, strict)
  {
    hide Follows, ScriptOf;
    EveryCallFollows(call, strict);
    ByReturn(BLANK, strict);
  }

  lemma {:induction false} IdleIsBlank(cfg: Setting, st: State, vs: Views, strict: bool, t: Tid, call: Call)
    requires Disciplined(st, vs, strict) && Roles(st, vs) && MayStart(cfg, st, t, call)
    ensures t in st.threads ==> t in vs && vs[t] == BLANK && st.threads[t].held == NOTHING
  {
    hide Guarded, Knows, CopyRight, ScriptOf;
    if t in st.threads {
      OfThread(st, vs, strict, t);
    }
  }

  lemma {:induction false} InitialInv(strict: bool)
    ensures Inv(INITIAL, map[], strict)
  {
  }

  /** Every run keeps the invariant. */
  lemma {:induction false} RunKeeps(cfg: Setting, st: State, vs: Views, strict: bool, actions: seq<Action>)
    returns (vs': Views)
    requires Inv(st, vs, strict) && Orderly(cfg) && (strict ==> KeysAgree(cfg))
    requires Run(cfg, st, actions).Some?
    ensures Inv(Run(cfg, st, actions).value, vs', strict)
    decreases |actions|
  {
    hide Inv, Exec, Begin, MayStart, CanStep;
    if actions == [] {
      vs' := vs;
    } else {
      var vs1 := ActionKeeps(cfg, st, vs, strict, actions[0]);
      vs' := RunKeeps(cfg, Do(st, actions[0]), vs1, strict, actions[1..]);
    }
  }

  lemma {:induction false} ActionKeeps(cfg: Setting, st: State, vs: Views, strict: bool, a: Action) returns (vs': Views)
    requires Inv(st, vs, strict) && Orderly(cfg) && (strict ==> KeysAgree(cfg)) && Possible(cfg, st, a)
    ensures Inv(Do(st, a), vs', strict)
  {
    hide Inv, Exec, Begin, MayStart;
    match a {
      case Start(t, call) => vs' := StartKeeps(cfg, st, vs, strict, t, call);
      case Step(t, choice) => vs' := StepKeeps(st, vs, strict, cfg.writerFirst, t, choice);
    }
  }

  // ---- lifetime ---------------------------------------------------------------------------

  lemma {:induction false} InvIsSafe(st: State, vs: Views, strict: bool, t: Tid)
    requires Core(st, vs, strict) && t in st.threads
    ensures SafeObjects(st, t)
  {
    hide Disciplined, Excluded, InStep, Owners, Knows, Follows, Guarded, Objects, HoldersListed;
    OfThread(st, vs, strict, t);
    if st.threads[t].held.socket != Free {
      HolderOf(st, vs, t);
    }
    TouchesOnlyLiving(st, st.threads[t], vs[t], strict);
    if st.threads[t].script.DeleteSocket? {
      RuleOf(st.threads[t].script, st.threads[t].held, vs[t], strict);
      NobodyAwaits(st, vs, strict, t);
    }
  }

  lemma {:induction false} HolderOf(st: State, vs: Views, t: Tid)
    requires HoldersListed(st, vs) && t in st.threads && t in vs && st.threads[t].held.socket != Free
    ensures st.threads[t].bsock in st.listed || vs[t].phase.Erased? || vs[t].phase.AdapterGone?
  {
  }

  lemma {:induction false} TouchesOnlyLiving(st: State, th: Thread, v: View, strict: bool)
    requires Follows(th.script, th.held, v, strict) && Guarded(th.held, v) && Knows(st, th.bsock, v.phase, strict)
    requires Objects(st)
    requires th.held.socket != Free ==> th.bsock in st.listed || v.phase.Erased? || v.phase.AdapterGone?
    ensures TouchesSocket(th.script) ==> th.bsock in st.alive
    ensures TouchesAdapter(th.script) ==> th.bsock in st.adapters
  {
  }

  lemma {:induction false} NobodyAwaits(st: State, vs: Views, strict: bool, t: Tid)
    requires Core(st, vs, strict) && t in st.threads && t in vs && st.threads[t].script.DeleteSocket?
    requires st.threads[t].held.creation != Free && st.threads[t].held.socket == Free
    ensures forall u :: u in st.threads ==> !HoldsOrAwaits(st.threads[u], st.threads[t].bsock)
  {
    hide Disciplined, Excluded, InStep, Owners, Objects, Compatible, CopyRight;
    OfThread(st, vs, strict, t);
    DeletingExcludes(st.threads[t], vs[t], strict);
    assert st.threads[t].bsock !in st.listed;
    forall u | u in st.threads && u != t ensures !HoldsOrAwaits(st.threads[u], st.threads[t].bsock) {
      hide Follows, Knows;
      OthersArePublic(st, vs, strict, t, u);
      NobodyElseInDeletion(st, t, u);
      OfThread(st, vs, strict, u);
      AwaitsInDeletion(st.threads[u], vs[u], strict);
    }
  }

  lemma {:induction false} DeletingExcludes(th: Thread, v: View, strict: bool)
    requires th.script.DeleteSocket? && Follows(th.script, th.held, v, strict)
    ensures th.held.deletion == Exclusive && v.phase.AdapterGone?
  {
  }

  lemma {:induction false} AwaitsInDeletion(u: Thread, v: View, strict: bool)
    requires Follows(u.script, u.held, v, strict)
    ensures u.script.Lock? && u.script.m == ThisSocket ==> u.held.deletion != Free
  {
  }

  /** Instructions touch only records that an index leads to. */
  lemma {:induction false} TouchesOnlyIndexed(st: State, th: Thread)
    requires forall d :: d in st.byDevice ==> st.byDevice[d] !in st.freed
    requires forall s :: s in st.bySocket ==> st.bySocket[s] !in st.freed
    ensures TouchedRecords(st, th) !! st.freed
  {
  }

  lemma {:induction false} MirrorIsUnfreed(st: State)
    requires Mirror(st)
    ensures forall d :: d in st.byDevice ==> st.byDevice[d] !in st.freed
    ensures forall s :: s in st.bySocket ==> st.bySocket[s] !in st.freed
  {
  }

  /** Where no socket may be destroyed, no call in progress deletes a record. */
  ghost predicate Harmless(st: State) {
    st.freed == {} && forall t :: t in st.calls ==> !st.calls[t].Cleanup? && !DestroysOne(st.calls[t])
  }

  lemma {:induction false} StepFreesNothing(st: State, vs: Views, t: Tid, choice: bool)
    requires Inv(st, vs, false) && Harmless(st) && InProgress(st, t)
    ensures Harmless(Exec(st, t, choice))
  {
    hide Disciplined, Excluded, InStep, Objects, HoldersListed, Follows, Guarded, Knows, CopyRight, Exec, IsNull;
    ExecOthers(st, t, choice);
    OfThread(st, vs, false, t);
    if st.threads[t].script.UnindexSocket? {
      RuleOf(st.threads[t].script, st.threads[t].held, vs[t], false);
      assert false;
    } else {
      OnlyUnindexFrees(st, t, choice);
    }
  }

  lemma {:induction false} OnlyUnindexFrees(st: State, t: Tid, choice: bool)
    requires t in st.threads && !st.threads[t].script.UnindexSocket?
    ensures Exec(st, t, choice).freed == st.freed
  {
    hide Effect, NextThread;
    EffectKeepsThreads(st, st.threads[t].script, st.threads[t].bsock, st.threads[t].copy);
  }

  lemma {:induction false} RunFreesNothing(cfg: Setting, st: State, vs: Views, actions: seq<Action>)
    requires Inv(st, vs, false) && Harmless(st) && cfg.destroys == Never
    requires Run(cfg, st, actions).Some?
    ensures Harmless(Run(cfg, st, actions).value)
    decreases |actions|
  {
    hide Inv, Exec, ScriptOf;
    if actions != [] {
      var vs1 := ActionKeeps(cfg, st, vs, false, actions[0]);
      if actions[0].Step? {
        StepFreesNothing(st, vs, actions[0].t, actions[0].choice);
      }
      RunFreesNothing(cfg, Do(st, actions[0]), vs1, actions[1..]);
    }
  }

  /** In every interleaving in which no socket is destroyed by two calls at once: no thread uses
      a deleted socket, adapter or socket mutex, and none holds or awaits the mutex of a socket
      that is being deleted. */
  lemma {:induction false} ObjectSafety(cfg: Setting, actions: seq<Action>, t: Tid)
    requires Orderly(cfg) && Run(cfg, INITIAL, actions).Some?
    requires t in Run(cfg, INITIAL, actions).value.threads
    ensures SafeObjects(Run(cfg, INITIAL, actions).value, t)
  {
    hide Core, SafeObjects, Roles;
    InitialInv(false);
    var vs := RunKeeps(cfg, INITIAL, map[], false, actions);
    InvIsSafe(Run(cfg, INITIAL, actions).value, vs, false, t);
  }

  /** If moreover the links carry the addresses of their devices, or nothing is destroyed, no
      deleted config record is used either. */
  lemma {:induction false} LifetimeSafety(cfg: Setting, actions: seq<Action>)
    requires Orderly(cfg) && (cfg.destroys == Never || KeysAgree(cfg)) && Run(cfg, INITIAL, actions).Some?
    ensures Safe(Run(cfg, INITIAL, actions).value)
  {
    hide Disciplined, Excluded, Objects, HoldersListed, Owners, Roles, SafeObjects, Mirror, TouchedRecords, Run;
    var st := Run(cfg, INITIAL, actions).value;
    if cfg.destroys == Never {
      InitialInv(false);
      RunFreesNothing(cfg, INITIAL, map[], actions);
    } else {
      InitialInv(true);
      var vs := RunKeeps(cfg, INITIAL, map[], true, actions);
      MirrorIsUnfreed(st);
    }
    forall t | t in st.threads ensures SafeObjects(st, t) && SafeRecords(st, t) {
      ObjectSafety(cfg, actions, t);
      TouchesOnlyIndexed(st, st.threads[t]);
    }
  }

  // ---- deadlock freedom ---------------------------------------------------------------------

  /** While a Cleanup is in progress, all calls in progress are Cleanups. */
  ghost predicate CleanersOnly(st: State) {
    forall t, u :: InProgress(st, t) && InProgress(st, u) && t in st.calls && u in st.calls && st.calls[t].Cleanup? ==>
      st.calls[u].Cleanup?
  }

  lemma {:induction false} StepStaysAlone(st: State, t: Tid, choice: bool)
    requires CleanersOnly(st) && InProgress(st, t)
    ensures CleanersOnly(Exec(st, t, choice))
  {
    hide Exec;
    ExecOthers(st, t, choice);
    var st' := Exec(st, t, choice);
    assert forall u :: InProgress(st', u) ==> InProgress(st, u);
  }

  lemma {:induction false} OnlyCleanupsAccompany(cfg: Setting, call: Call)
    requires CleanupAlone(cfg) && MayBeMade(cfg, call) && MayAccompany(cfg, call) && !IsNull(call)
    ensures call.Cleanup?
  {
    hide ScriptOf;
  }

  /** Only calls that callers may make have been made. */
  ghost predicate AllMade(cfg: Setting, st: State) {
    forall t :: t in st.calls ==> MayBeMade(cfg, st.calls[t])
  }

  lemma {:induction false} MadeStays(cfg: Setting, st: State, a: Action)
    requires AllMade(cfg, st) && Possible(cfg, st, a)
    ensures AllMade(cfg, Do(st, a))
  {
    hide MayBeMade, Exec, ScriptOf, MayAccompany, CanStep;
    if a.Step? && a.t in st.threads {
      ExecOthers(st, a.t, a.choice);
    }
  }

  lemma {:induction false} StartStaysAlone(cfg: Setting, st: State, vs: Views, t: Tid, call: Call)
    requires CleanersOnly(st) && AllMade(cfg, st) && Roles(st, vs) && MayStart(cfg, st, t, call) && CleanupAlone(cfg)
    ensures CleanersOnly(Begin(st, t, call))
  {
    hide ScriptOf, IsNull, MayAccompany, MayBeMade, CleanupAlone, Begin;
    var st' := Begin(st, t, call);
    BeginsOnly(st, t, call);
    StartsAsCalled(call);
    forall u, w | InProgress(st', u) && InProgress(st', w) && u in st'.calls && w in st'.calls && st'.calls[u].Cleanup?
      ensures st'.calls[w].Cleanup?
    {
      if w == t && u != t {
        OnlyCleanupsAccompany(cfg, call);
      } else if u == t && w != t {
        OnlyCleanupsAccompany(cfg, st.calls[w]);
      }
    }
  }

  lemma {:induction false} RunStaysAlone(cfg: Setting, st: State, vs: Views, actions: seq<Action>)
    requires Inv(st, vs, false) && CleanersOnly(st) && AllMade(cfg, st) && Orderly(cfg) && CleanupAlone(cfg)
    requires Run(cfg, st, actions).Some?
    ensures CleanersOnly(Run(cfg, st, actions).value)
    decreases |actions|
  {
    hide Core, Roles, Exec, Begin, MayStart, CanStep, CleanupAlone, CleanersOnly, Orderly, AllMade;
    if actions != [] {
      MadeStays(cfg, st, actions[0]);
      var vs1 := ActionKeeps(cfg, st, vs, false, actions[0]);
      match actions[0] {
        case Start(t, call) => StartStaysAlone(cfg, st, vs, t, call);
        case Step(t, choice) =>
          MoverIsBusy(st, cfg.writerFirst, t);
          StepStaysAlone(st, t, choice);
      }
      RunStaysAlone(cfg, Do(st, actions[0]), vs1, actions[1..]);
    }
  }

  lemma {:induction false} AlwaysAlone(cfg: Setting, actions: seq<Action>)
    requires Apart(cfg) && Run(cfg, INITIAL, actions).Some?
    ensures CleanersOnly(Run(cfg, INITIAL, actions).value)
  {
    hide Run, Inv, CleanupAlone, Orderly;
    InitialInv(false);
    ApartIsOrderly(cfg);
    if cfg.destroys == Never {
      RunFreesNothing(cfg, INITIAL, map[], actions);
    } else {
      RunStaysAlone(cfg, INITIAL, map[], actions);
    }
  }

  lemma {:induction false} MoverIsBusy(st: State, wf: bool, t: Tid)
    requires CanStep(st, wf, t)
    ensures InProgress(st, t)
  {
  }

  lemma {:induction false} LevelBounds(h: Held, m: Mutex)
    ensures h.Of(m) != Free ==> Rank(m) < Level(h)
  {
  }

  lemma {:induction false} LocksUpward(th: Thread, v: View, strict: bool)
    requires Follows(th.script, th.held, v, strict)
    ensures th.script.Lock? ==> LevelOf(v, th.held) <= Rank(th.script.m)
    ensures th.script.Lock? && th.script.m == Recursive ==> th.script.mode == Exclusive
    ensures th.script == Return ==> th.held == NOTHING
    ensures v.solo && th.held.recursive == 0 && th.script != Return ==>
      th.script.Lock? && th.script.m == Recursive && th.held == NOTHING
  {
  }

  /** No Cleanup is in progress. */
  ghost predicate NoCleaner(st: State, vs: Views) {
    forall u :: u in st.threads && u in vs ==> !vs[u].solo
  }

  /** A thread waiting for a mutex leads to one that can go on, up the ranks. */
  lemma {:induction false} SomeoneMoves(st: State, vs: Views, strict: bool, wf: bool, t: Tid) returns (u: Tid)
    requires Core(st, vs, strict) && NoCleaner(st, vs) && t in st.threads && st.threads[t].script != Return
    ensures CanStep(st, wf, u)
    decreases if st.threads[t].script.Lock? then 7 - Rank(st.threads[t].script.m) else 0
  {
    hide Disciplined, Excluded, InStep, Owners, Objects, HoldersListed, Follows, Guarded, Knows, CopyRight;
    if CanStep(st, wf, t) {
      return t;
    }
    OfThread(st, vs, strict, t);
    var th := st.threads[t];
    var m, mode, b := th.script.m, th.script.mode, th.bsock;
    LocksUpward(th, vs[t], strict);
    LevelBounds(th.held, m);
    if w :| w in st.threads && w != t && HoldsAgainst(st.threads[w], m, mode, b) {
      u := HolderMoves(st, vs, strict, wf, w, m);
    } else {
      var w :| w in st.threads && w != t && WaitsExclusively(st.threads[w], m, b);
      if CanStep(st, wf, w) {
        return w;
      }
      OfThread(st, vs, strict, w);
      LocksUpward(st.threads[w], vs[w], strict);
      LevelBounds(st.threads[w].held, m);
      var x :| x in st.threads && x != w && HoldsAgainst(st.threads[x], m, Exclusive, st.threads[w].bsock);
      u := HolderMoves(st, vs, strict, wf, x, m);
    }
  }

  lemma {:induction false} HolderMoves(st: State, vs: Views, strict: bool, wf: bool, w: Tid, m: Mutex) returns (u: Tid)
    requires Core(st, vs, strict) && NoCleaner(st, vs) && w in st.threads && st.threads[w].held.Of(m) != Free
    ensures CanStep(st, wf, u)
    decreases 7 - Rank(m), 0
  {
    hide Disciplined, Excluded, InStep, Owners, Objects, HoldersListed, Follows, Guarded, Knows, CopyRight;
    OfThread(st, vs, strict, w);
    LocksUpward(st.threads[w], vs[w], strict);
    LevelBounds(st.threads[w].held, m);
    u := SomeoneMoves(st, vs, strict, wf, w);
  }

  /** While Cleanups are in progress, a thread without the recursive mutex holds nothing, and is
      idle or about to ask for it. */
  lemma {:induction false} CleanersWait(st: State, vs: Views, strict: bool, t: Tid, u: Tid)
    requires Inv(st, vs, strict) && CleanersOnly(st) && InProgress(st, t) && t in vs && vs[t].solo
    requires u in st.threads && st.threads[u].held.recursive == 0
    ensures st.threads[u].held == NOTHING
    ensures
      var s := st.threads[u].script;
      s == Return || (s.Lock? && s.m == Recursive && s.mode == Exclusive)
  {
    hide Excluded, InStep, Owners, Objects, HoldersListed, Follows, Guarded, Knows, CopyRight, Disciplined;
    OfThread(st, vs, strict, u);
    assert InProgress(st, u) ==> vs[u].solo;
    LocksUpward(st.threads[u], vs[u], strict);
  }

  lemma {:induction false} CleanerMoves(st: State, vs: Views, strict: bool, wf: bool, t: Tid) returns (u: Tid)
    requires Inv(st, vs, strict) && CleanersOnly(st) && InProgress(st, t) && t in vs && vs[t].solo
    ensures CanStep(st, wf, u)
  {
    hide Disciplined, Excluded, InStep, Owners, Objects, HoldersListed, Follows, Guarded, Knows, CopyRight, Roles,
         CleanersOnly;
    u := t;
    if a :| a in st.threads && st.threads[a].held.recursive > 0 {
      u := a;
    }
    OfThread(st, vs, strict, u);
    var th := st.threads[u];
    forall w | w in st.threads && w != u
      ensures st.threads[w].held == NOTHING && (st.threads[w].script.Lock? ==> st.threads[w].script.m == Recursive)
    {
      if th.held.recursive > 0 {
        NobodyElseInRecursive(st, u, w);
      }
      CleanersWait(st, vs, strict, t, w);
    }
    if th.held.recursive > 0 {
      CleanerIsSolo(st, vs, strict, t, u);
    }
    LocksUpward(th, vs[u], strict);
    if th.script.Lock? {
      LevelBounds(th.held.(recursive := 0), th.script.m);
      GrantedAlone(st, wf, u);
    }
  }

  lemma {:induction false} CleanerIsSolo(st: State, vs: Views, strict: bool, t: Tid, u: Tid)
    requires Inv(st, vs, strict) && CleanersOnly(st) && InProgress(st, t) && t in vs && vs[t].solo
    requires u in st.threads && st.threads[u].held.recursive > 0
    ensures u in vs && vs[u].solo && InProgress(st, u)
  {
    hide Excluded, InStep, Owners, Objects, HoldersListed, Guarded, Knows, CopyRight, Disciplined;
    OfThread(st, vs, strict, u);
    LocksUpward(st.threads[u], vs[u], strict);
  }

  /** Nothing keeps the lock from a thread beside which all others hold nothing and wait for the
      recursive mutex at most. */
  lemma {:induction false} GrantedAlone(st: State, wf: bool, u: Tid)
    requires u in st.threads && st.threads[u].script.Lock?
    requires st.threads[u].script.m == Recursive || st.threads[u].held.Of(st.threads[u].script.m) == Free
    requires st.threads[u].script.m == Recursive ==> st.threads[u].script.mode == Exclusive
    requires forall w | w in st.threads && w != u ::
      st.threads[w].held == NOTHING && (st.threads[w].script.Lock? ==> st.threads[w].script.m == Recursive)
    ensures CanStep(st, wf, u)
  {
  }

  lemma {:induction false} AnyoneMoves(st: State, vs: Views, strict: bool, wf: bool, t: Tid) returns (u: Tid)
    requires Inv(st, vs, strict) && CleanersOnly(st) && InProgress(st, t)
    ensures CanStep(st, wf, u)
  {
    hide Core, CanStep, IsNull, CleanersOnly;
    if c :| c in st.threads && c in vs && vs[c].solo {
      SoloIsBusy(st, vs, c);
      u := CleanerMoves(st, vs, strict, wf, c);
    } else {
      u := SomeoneMoves(st, vs, strict, wf, t);
    }
  }

  /** In every reachable state with an unfinished call some thread can take a step, whether
      or not the shared mutexes prefer writers. */
  lemma {:induction false} DeadlockFreedom(cfg: Setting, actions: seq<Action>, t: Tid) returns (u: Tid)
    requires Apart(cfg) && Run(cfg, INITIAL, actions).Some?
    requires InProgress(Run(cfg, INITIAL, actions).value, t)
    ensures CanStep(Run(cfg, INITIAL, actions).value, cfg.writerFirst, u)
  {
    hide Inv, CanStep, Run, Apart;
    InitialInv(false);
    ApartIsOrderly(cfg);
    AlwaysAlone(cfg, actions);
    var vs := RunKeeps(cfg, INITIAL, map[], false, actions);
    u := AnyoneMoves(Run(cfg, INITIAL, actions).value, vs, false, cfg.writerFirst, t);
  }

  // ---- one socket per device ------------------------------------------------------------------

  lemma {:induction false} InvIsSingle(st: State, vs: Views)
    requires Inv(st, vs, true)
    ensures OneSocketPerDevice(st)
  {
    hide Disciplined, Excluded, Owners, Objects, HoldersListed, Mirror, BeingAdded, BeingRemoved, OneSocketPerDevice;
  }

  /** When links name devices by their config keys, a device never has two registered sockets. */
  lemma {:induction false} OneSocketEach(cfg: Setting, actions: seq<Action>)
    requires Orderly(cfg) && KeysAgree(cfg) && Run(cfg, INITIAL, actions).Some?
    ensures OneSocketPerDevice(Run(cfg, INITIAL, actions).value)
  {
    hide Inv, Run, OneSocketPerDevice;
    InitialInv(true);
    var vs := RunKeeps(cfg, INITIAL, map[], true, actions);
    InvIsSingle(Run(cfg, INITIAL, actions).value, vs);
  }

  /** The call leaves the socket s registered. */
  predicate Spares(call: Call, s: Sock) {
    call != Destroy(Some(s)) && !call.Cleanup?
  }

  /** No call in progress destroys s. */
  ghost predicate Spared(st: State, s: Sock) {
    forall t :: InProgress(st, t) && t in st.calls ==> Spares(st.calls[t], s)
  }

  predicate AllSpare(actions: seq<Action>, s: Sock) {
    forall a :: a in actions && a.Start? ==> Spares(a.call, s)
  }

  lemma {:induction false} EffectOnListed(st: State, s: Script, b: Sock, copy: Option<Record>)
    ensures forall x :: x in st.listed && x !in Effect(st, s, b, copy).listed ==> s.UnlistSocket? && x == b
  {
  }

  lemma {:induction false} EffectOnDevices(st: State, s: Script, b: Sock, copy: Option<Record>)
    requires Objects(st)
    ensures forall x :: x in st.device ==>
      x in Effect(st, s, b, copy).device && Effect(st, s, b, copy).device[x] == st.device[x]
  {
  }

  lemma {:induction false} StepSpares(st: State, vs: Views, strict: bool, t: Tid, choice: bool, s: Sock)
    requires Inv(st, vs, strict) && InProgress(st, t) && Spared(st, s)
    ensures s in st.listed ==> s in Exec(st, t, choice).listed
    ensures Spared(Exec(st, t, choice), s)
  {
    hide Disciplined, Excluded, InStep, Objects, HoldersListed, Follows, Guarded, Knows, CopyRight, Effect, NextThread,
         IsNull;
    EffectOnListed(st, st.threads[t].script, st.threads[t].bsock, st.threads[t].copy);
    EffectKeepsThreads(st, st.threads[t].script, st.threads[t].bsock, st.threads[t].copy);
    OfThread(st, vs, strict, t);
    if st.threads[t].script.UnlistSocket? && st.threads[t].bsock == s {
      RuleOf(st.threads[t].script, st.threads[t].held, vs[t], strict);
      assert false;
    }
  }

  lemma {:induction false} StartSpares(st: State, t: Tid, call: Call, s: Sock)
    requires Spared(st, s) && Spares(call, s)
    ensures Spared(Begin(st, t, call), s) && Begin(st, t, call).listed == st.listed
  {
    hide ScriptOf;
  }

  /** A registered socket stays registered until bratislavaDestroy is called on it, or Cleanup. */
  lemma {:induction false} ListedUntilDestroyed(cfg: Setting, st: State, vs: Views, strict: bool, actions: seq<Action>,
        s: Sock)
    requires Inv(st, vs, strict) && Orderly(cfg) && (strict ==> KeysAgree(cfg))
    requires Run(cfg, st, actions).Some? && s in st.listed && Spared(st, s) && AllSpare(actions, s)
    ensures s in Run(cfg, st, actions).value.listed
    decreases |actions|
  {
    hide Inv, Orderly, Spared, Exec, Begin, MayStart;
    if actions != [] {
      var a := actions[0];
      assert a in actions && forall x :: x in actions[1..] ==> x in actions;
      var vs1 := ActionKeeps(cfg, st, vs, strict, a);
      match a {
        case Start(t, call) => StartSpares(st, t, call, s);
        case Step(t, choice) => StepSpares(st, vs, strict, t, choice, s);
      }
      ListedUntilDestroyed(cfg, Do(st, a), vs1, strict, actions[1..], s);
    }
  }

  ghost predicate ReturnsFor(st: State, t: Tid, link: Link) {
    t in st.threads && st.threads[t].script.Returning? && st.threads[t].script.link == link
  }

  lemma {:induction false} ReturnsRegistered(st: State, vs: Views, t: Tid, link: Link)
    requires Inv(st, vs, true) && ReturnsFor(st, t, link)
    ensures
      var s := st.threads[t].bsock;
      s in st.listed && s in st.device && st.device[s] == link.linkID
  {
    hide Disciplined, Excluded, InStep, Owners, HoldersListed, CopyRight, Roles, Objects;
    OfThread(st, vs, true, t);
    assert Follows(st.threads[t].script, st.threads[t].held, vs[t], true);
  }

  lemma {:induction false} SameDeviceSameSocket(st: State, s: Sock, u: Sock)
    requires OneSocketPerDevice(st) && s in st.listed && u in st.listed && s in st.device && u in st.device
    requires st.device[s] == st.device[u]
    ensures s == u
  {
  }

  /** Two calls of bratislavaSocket for one link return the same socket, unless
      bratislavaDestroy was called on the first one's result in between, or Cleanup. */
  lemma {:induction false} SameSocketUntilDestroyed(cfg: Setting, before: seq<Action>, after: seq<Action>, t: Tid,
        u: Tid, link: Link)
    requires Orderly(cfg) && KeysAgree(cfg)
    requires Run(cfg, INITIAL, before).Some?
    requires ReturnsFor(Run(cfg, INITIAL, before).value, t, link)
    requires Run(cfg, Run(cfg, INITIAL, before).value, after).Some?
    requires ReturnsFor(Run(cfg, Run(cfg, INITIAL, before).value, after).value, u, link)
    requires
      var st1 := Run(cfg, INITIAL, before).value;
      Spared(st1, st1.threads[t].bsock) && AllSpare(after, st1.threads[t].bsock)
    ensures
      var st1 := Run(cfg, INITIAL, before).value;
      var st2 := Run(cfg, st1, after).value;
      st2.threads[u].bsock == st1.threads[t].bsock
  {
    hide Inv, Run, OneSocketPerDevice, Spared, Orderly;
    var st1 := Run(cfg, INITIAL, before).value;
    var st2 := Run(cfg, st1, after).value;
    var s := st1.threads[t].bsock;
    InitialInv(true);
    var vs1 := RunKeeps(cfg, INITIAL, map[], true, before);
    ReturnsRegistered(st1, vs1, t, link);
    ListedUntilDestroyed(cfg, st1, vs1, true, after, s);
    var vs2 := RunKeeps(cfg, st1, vs1, true, after);
    ReturnsRegistered(st2, vs2, u, link);
    DevicesKeep(cfg, st1, vs1, true, after, s);
    InvIsSingle(st2, vs2);
    SameDeviceSameSocket(st2, s, st2.threads[u].bsock);
  }

  lemma {:induction false} InvIsOrdered(st: State, vs: Views, strict: bool)
    requires Inv(st, vs, strict)
    ensures Objects(st)
  {
    hide Disciplined, Excluded, InStep, Owners, Objects, HoldersListed, Roles;
  }

  /** A socket's device never changes, whatever the links are. */
  lemma {:induction false} DevicesKeep(cfg: Setting, st: State, vs: Views, strict: bool, actions: seq<Action>, s: Sock)
    requires Inv(st, vs, strict) && Orderly(cfg) && (strict ==> KeysAgree(cfg))
    requires Run(cfg, st, actions).Some? && s in st.device
    ensures
      var st' := Run(cfg, st, actions).value;
      s in st'.device && st'.device[s] == st.device[s]
    decreases |actions|
  {
    hide Inv, Orderly, Effect, NextThread, MayStart, ScriptOf, Objects;
    if actions != [] {
      var vs1 := ActionKeeps(cfg, st, vs, strict, actions[0]);
      if actions[0].Step? {
        var th := st.threads[actions[0].t];
        InvIsOrdered(st, vs, strict);
        EffectOnDevices(st, th.script, th.bsock, th.copy);
      }
      DevicesKeep(cfg, Do(st, actions[0]), vs1, strict, actions[1..], s);
    }
  }
}
