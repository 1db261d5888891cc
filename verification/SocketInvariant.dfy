/**
 * What every run of the socket machine keeps, when every script follows the discipline and no
 * socket is destroyed by two calls at once, of which Cleanup may be one.
 */
module SocketInvariant {
  import opened Common
  import opened SocketMachine
  import opened SocketScripts
  import opened SocketRuns
  import opened SocketDiscipline

  type Views = map<Tid, View>

  /** No registered socket belongs to the device. */
  ghost predicate NoneListedFor(st: State, dev: string) {
    forall s :: s in st.listed && s in st.device ==> st.device[s] != dev
  }

  /** A socket object that no other thread can name. */
  ghost predicate Unpublished(st: State, b: Sock, dev: string, clear: bool, strict: bool) {
    && b in st.alive && b !in st.listed
    && b in st.device && st.device[b] == dev
    && (strict ==> b !in st.bySocket)
    && (strict && clear ==> dev !in st.byDevice && NoneListedFor(st, dev))
  }

  /** The socket is registered, under both indexes if these are kept in step. */
  ghost predicate Registered(st: State, b: Sock, whose: Option<string>, strict: bool) {
    && b in st.listed && (strict ==> b in st.bySocket)
    && (whose.Some? ==> b in st.device && st.device[b] == whose.value)
  }

  /** The knowledge of the phase is true of socket b. */
  ghost predicate Knows(st: State, b: Sock, phase: Phase, strict: bool) {
    match phase
    case Unknown => true
    case Absent(key) => strict ==> key !in st.byDevice && NoneListedFor(st, key)
    case Fresh(dev, clear) => Unpublished(st, b, dev, clear, strict)
    case Ready(dev, clear) => b in st.adapters && Unpublished(st, b, dev, clear, strict)
    case Indexed(dev) =>
      && b in st.adapters && b !in st.listed && b in st.device && st.device[b] == dev
      && (strict ==> b in st.bySocket && NoneListedFor(st, dev))
    case Listed(whose) => Registered(st, b, whose, strict)
    case Holding(whose) => Registered(st, b, whose, strict)
    case Over => st.listed == {}
    case Unmapped => b in st.listed && (strict ==> b !in st.bySocket)
    case Erased => b in st.adapters && b !in st.listed && (strict ==> b !in st.bySocket)
    case AdapterGone =>
      b in st.alive && b !in st.adapters && b !in st.listed && (strict ==> b !in st.bySocket)
  }

  /** The locks that make the knowledge of a phase last. */
  predicate Guarded(h: Held, v: View) {
    && h.creation != Shared
    && (v.solo && v.owner ==> h.recursive > 0) && (v.solo && !v.phase.Unknown? && !v.phase.Over? ==> v.owner)
    && match v.phase
       case Unknown => true
       case Absent(_) => h.creation != Free && h.deletion != Free && !v.owner
       case Fresh(_, _) => h.creation != Free && h.socket == Free && !v.owner
       case Ready(_, _) => h.creation != Free && h.socket == Free && !v.owner
       case Indexed(_) => h.creation != Free && h.deletion != Free && h.recursive > 0 && h.socket == Free && !v.owner
       case Listed(_) => KeepsListed(v.owner, h)
       case Holding(_) => KeepsListed(v.owner, h) && h.registry != Free
       case Over => v.solo && !v.owner && h.recursive > 0
       case Unmapped => ExclusiveOnSocket(h) && h.recursive > 0 && v.owner
       case Erased => ExclusiveOnSocket(h)
       case AdapterGone => h.creation != Free && h.deletion == Exclusive
  }

  /** A copy of a config is that of a registered socket, and of the thread's own if no two
      sockets share a config. */
  predicate CopyRight(st: State, copy: Option<Record>, b: Sock, v: View, strict: bool) {
    copy.Some? ==>
      var c := copy.value;
      && v.phase.Holding? && c.socket in st.device && st.device[c.socket] == c.device
      && (strict ==> c.socket == b)
  }

  ghost predicate Disciplined(st: State, vs: Views, strict: bool) {
    && vs.Keys == st.threads.Keys
    && forall t :: t in st.threads ==>
         && Follows(st.threads[t].script, st.threads[t].held, vs[t], strict)
         && Guarded(st.threads[t].held, vs[t])
         && Knows(st, st.threads[t].bsock, vs[t].phase, strict)
         && CopyRight(st, st.threads[t].copy, st.threads[t].bsock, vs[t], strict)
  }

  /** Two threads hold the same mutex only if both share it. */
  predicate Compatible(th: Thread, u: Thread) {
    forall m: Mutex :: SameMutex(u, m, th.bsock) && th.held.Of(m) != Free && u.held.Of(m) != Free ==>
      th.held.Of(m) == Shared && u.held.Of(m) == Shared
  }

  ghost predicate Excluded(st: State) {
    forall t, u :: t in st.threads && u in st.threads && t != u ==>
      Compatible(st.threads[t], st.threads[u])
  }

  /** Sockets are made once, and a record belongs to one device. */
  ghost predicate Objects(st: State) {
    && (forall s: Sock :: s in st.device <==> s < st.nextSock)
    && st.alive <= st.device.Keys
    && st.adapters <= st.alive
    && st.listed <= st.adapters
    && (forall r :: r in st.records ==>
          r < st.nextRec && st.records[r].socket in st.device
            && st.device[st.records[r].socket] == st.records[r].device)
    && (forall d :: d in st.byDevice ==> st.byDevice[d] in st.records && st.records[st.byDevice[d]].device == d)
    && (forall s :: s in st.bySocket ==>
          && s in st.device && st.bySocket[s] in st.records
          && st.records[st.bySocket[s]].device == st.device[s])
  }

  /** The two indexes mirror each other: no record is shared, and none is deleted. */
  ghost predicate Mirror(st: State) {
    && (forall s :: s in st.bySocket ==>
          && s in st.device && st.device[s] in st.byDevice && st.byDevice[st.device[s]] == st.bySocket[s]
          && st.bySocket[s] in st.records && st.records[st.bySocket[s]] == Record(s, st.device[s]))
    && (forall d :: d in st.byDevice ==>
          && st.byDevice[d] in st.records && st.records[st.byDevice[d]].socket in st.bySocket
          && st.bySocket[st.records[st.byDevice[d]].socket] == st.byDevice[d])
    && (forall s :: s in st.bySocket ==> st.bySocket[s] !in st.freed)
    && (forall r :: r in st.freed ==> r < st.nextRec)
  }

  ghost predicate InPhase(st: State, vs: Views, t: Tid, b: Sock) {
    t in st.threads && t in vs && st.threads[t].bsock == b
  }

  ghost predicate BeingAdded(st: State, vs: Views, b: Sock) {
    exists t :: InPhase(st, vs, t, b) && vs[t].phase.Indexed?
  }

  ghost predicate BeingRemoved(st: State, vs: Views, b: Sock) {
    exists t :: InPhase(st, vs, t, b) && vs[t].phase.Unmapped?
  }

  /** The indexes and sockets_ name the same sockets, but for one being added or removed. */
  ghost predicate InStep(st: State, vs: Views, strict: bool) {
    strict ==>
      && Mirror(st)
      && (forall s :: s in st.bySocket ==> s in st.listed || BeingAdded(st, vs, s))
      && (forall s :: s in st.listed ==> s in st.bySocket || BeingRemoved(st, vs, s))
      && OneSocketPerDevice(st)
  }

  /** Whoever holds a socket's mutex has a registered socket, or is deleting it. */
  ghost predicate HoldersListed(st: State, vs: Views) {
    forall t :: t in st.threads && t in vs && st.threads[t].held.socket != Free ==>
      st.threads[t].bsock in st.listed || vs[t].phase.Erased? || vs[t].phase.AdapterGone?
  }

  /** A thread destroys a socket because of its own call, and no other thread destroys it. */
  ghost predicate Owners(st: State, vs: Views) {
    && (forall t :: t in st.threads && t in vs && vs[t].owner ==>
          vs[t].solo || (t in st.calls && st.calls[t] == Destroy(Some(st.threads[t].bsock))))
    && (forall t, u | t in st.threads && t in vs && u in st.threads && u in vs && t != u && vs[t].owner
      && vs[u].owner ::
          st.threads[t].bsock != st.threads[u].bsock)
  }

  ghost predicate Core(st: State, vs: Views, strict: bool) {
    && Disciplined(st, vs, strict)
    && Excluded(st)
    && Objects(st)
    && InStep(st, vs, strict)
    && HoldersListed(st, vs)
    && Owners(st, vs)
  }

  /** While a Cleanup is in progress, bratislavaDestroy is not. */
  ghost predicate Unmixed(st: State) {
    forall t, u :: InProgress(st, t) && InProgress(st, u) && t in st.calls && u in st.calls && st.calls[t].Cleanup? ==>
      !DestroysOne(st.calls[u])
  }

  /** A thread claims what its call entitles it to, and nothing when it has returned. */
  predicate Entitled(script: Script, call: Call, v: View) {
    if script == Return then v == BLANK else !IsNull(call) && (v.solo <==> call.Cleanup?)
  }

  ghost predicate Roles(st: State, vs: Views) {
    && vs.Keys == st.threads.Keys == st.calls.Keys
    && (forall t :: t in st.threads ==> Entitled(st.threads[t].script, st.calls[t], vs[t]))
    && Unmixed(st)
  }

  ghost predicate Inv(st: State, vs: Views, strict: bool) {
    Core(st, vs, strict) && Roles(st, vs)
  }

  // ---- at most one thread is in a private phase -----------------------------------------

  lemma {:induction false} NobodyElseInCreation(st: State, vs: Views, strict: bool, t: Tid, u: Tid)
    requires Disciplined(st, vs, strict) && Excluded(st)
    requires t in st.threads && u in st.threads && t != u
    requires st.threads[t].held.creation != Free
    ensures st.threads[u].held.creation == Free
  {
    hide Follows, Knows;
    assert Compatible(st.threads[t], st.threads[u]);
    assert SameMutex(st.threads[u], Creation, st.threads[t].bsock);
    assert st.threads[t].held.Of(Creation) == st.threads[t].held.creation;
    assert st.threads[u].held.Of(Creation) == st.threads[u].held.creation;
    assert Guarded(st.threads[t].held, vs[t]);
  }

  lemma {:induction false} NobodyElseInDeletion(st: State, t: Tid, u: Tid)
    requires Excluded(st)
    requires t in st.threads && u in st.threads && t != u
    requires st.threads[t].held.deletion == Exclusive
    ensures st.threads[u].held.deletion == Free
  {
    assert Compatible(st.threads[t], st.threads[u]);
    assert SameMutex(st.threads[u], Deletion, st.threads[t].bsock);
    assert st.threads[t].held.Of(Deletion) == Exclusive;
    assert st.threads[u].held.Of(Deletion) == st.threads[u].held.deletion;
  }

  lemma {:induction false} NobodyElseInSocket(st: State, t: Tid, u: Tid)
    requires Excluded(st)
    requires t in st.threads && u in st.threads && t != u
    requires st.threads[t].held.socket == Exclusive && st.threads[t].bsock == st.threads[u].bsock
    ensures st.threads[u].held.socket == Free
  {
    assert Compatible(st.threads[t], st.threads[u]);
    assert SameMutex(st.threads[u], ThisSocket, st.threads[t].bsock);
    assert st.threads[t].held.Of(ThisSocket) == Exclusive;
    assert st.threads[u].held.Of(ThisSocket) == st.threads[u].held.socket;
  }

  lemma {:induction false} NobodyElseInRecursive(st: State, t: Tid, u: Tid)
    requires Excluded(st)
    requires t in st.threads && u in st.threads && t != u
    requires st.threads[t].held.recursive > 0
    ensures st.threads[u].held.recursive == 0
  {
    assert Compatible(st.threads[t], st.threads[u]);
    assert SameMutex(st.threads[u], Recursive, st.threads[t].bsock);
    assert st.threads[t].held.Of(Recursive) == Exclusive;
    assert st.threads[t].held.Of(Recursive) == Exclusive;
    assert st.threads[u].held.Of(Recursive) == Free;
  }

  /** A thread that holds neither the creation nor the recursive mutex adds and removes nothing. */
  lemma {:induction false} ChangersHoldBoth(h: Held, v: View)
    requires Guarded(h, v)
    ensures v.phase.Indexed? || v.phase.Unmapped? ==> h.creation != Free && h.recursive > 0
    ensures Private(v.phase) ==> h.creation != Free
  {
  }

  lemma {:induction false} OfThread(st: State, vs: Views, strict: bool, t: Tid)
    requires Disciplined(st, vs, strict) && t in st.threads
    ensures t in vs
    ensures Follows(st.threads[t].script, st.threads[t].held, vs[t], strict)
    ensures Guarded(st.threads[t].held, vs[t]) && Knows(st, st.threads[t].bsock, vs[t].phase, strict)
    ensures CopyRight(st, st.threads[t].copy, st.threads[t].bsock, vs[t], strict)
  {
  }

  /** With t in the creation or the recursive mutex, only t can be adding or removing a socket. */
  lemma {:induction false} OnlyMine(st: State, vs: Views, strict: bool, t: Tid)
    requires Disciplined(st, vs, strict) && Excluded(st)
    requires t in st.threads && t in vs
    requires st.threads[t].held.creation != Free || st.threads[t].held.recursive > 0
    ensures forall b :: BeingAdded(st, vs, b) ==> vs[t].phase.Indexed? && st.threads[t].bsock == b
    ensures forall b :: BeingRemoved(st, vs, b) ==> vs[t].phase.Unmapped? && st.threads[t].bsock == b
  {
    hide Follows, Guarded, Compatible, Knows, Disciplined, Excluded, CopyRight;
    forall u, b | InPhase(st, vs, u, b) && (vs[u].phase.Indexed? || vs[u].phase.Unmapped?) ensures u == t {
      if u != t {
        OfThread(st, vs, strict, u);
        ChangersHoldBoth(st.threads[u].held, vs[u]);
        if st.threads[t].held.creation != Free {
          NobodyElseInCreation(st, vs, strict, t, u);
        } else {
          NobodyElseInRecursive(st, t, u);
        }
      }
    }
  }

  // ---- steps that leave the objects and the thread's socket alone --------------------------

  /** st' has the objects of st. */
  predicate SameObjects(st: State, st': State) {
    && st'.nextSock == st.nextSock && st'.alive == st.alive && st'.adapters == st.adapters
    && st'.listed == st.listed && st'.device == st.device
    && st'.byDevice == st.byDevice && st'.bySocket == st.bySocket
  }

  lemma {:induction false} KnowsSameObjects(st: State, st': State, b: Sock, phase: Phase, strict: bool)
    requires SameObjects(st, st')
    ensures Knows(st, b, phase, strict) == Knows(st', b, phase, strict)
  {
  }

  /** What is left to show when only thread t changes. */
  ghost predicate Joins(st: State, t: Tid, th: Thread, v: View, strict: bool) {
    && Follows(th.script, th.held, v, strict) && Guarded(th.held, v) && CopyRight(st, th.copy, th.bsock, v, strict)
    && (forall u :: u in st.threads && u != t ==> Compatible(th, st.threads[u]))
    && (th.held.socket != Free ==> th.bsock in st.listed || v.phase.Erased? || v.phase.AdapterGone?)
  }

  lemma {:induction false} LocalDisciplined(st: State, vs: Views, strict: bool, t: Tid, th: Thread, v: View)
    requires Disciplined(st, vs, strict) && Joins(st, t, th, v, strict)
    requires Knows(st, th.bsock, v.phase, strict)
    ensures Disciplined(Put(st, t, th), vs[t := v], strict)
  {
    hide Follows, Guarded, Knows, Compatible;
    var st', vs' := Put(st, t, th), vs[t := v];
    forall u | u in st'.threads ensures Knows(st', st'.threads[u].bsock, vs'[u].phase, strict) {
      KnowsSameObjects(st, st', st'.threads[u].bsock, vs'[u].phase, strict);
    }
  }

  lemma {:induction false} LocalExcluded(st: State, t: Tid, th: Thread)
    requires Excluded(st) && forall u :: u in st.threads && u != t ==> Compatible(th, st.threads[u])
    ensures Excluded(Put(st, t, th))
  {
    hide Compatible;
    forall u | u in st.threads && u != t ensures Compatible(st.threads[u], th) {
      CompatibleSymmetric(th, st.threads[u]);
    }
  }

  /** Who is adding or removing a socket depends on the threads in these phases only. */
  lemma {:induction false} ChangersStay(st: State, vs: Views, st': State, vs': Views)
    requires forall u, b :: InPhase(st, vs, u, b) && vs[u].phase.Indexed? ==>
      InPhase(st', vs', u, b) && vs'[u].phase.Indexed?
    requires forall u, b :: InPhase(st, vs, u, b) && vs[u].phase.Unmapped? ==>
      InPhase(st', vs', u, b) && vs'[u].phase.Unmapped?
    ensures forall b :: BeingAdded(st, vs, b) ==> BeingAdded(st', vs', b)
    ensures forall b :: BeingRemoved(st, vs, b) ==> BeingRemoved(st', vs', b)
  {
    forall b ensures BeingAdded(st, vs, b) ==> BeingAdded(st', vs', b) {
      if BeingAdded(st, vs, b) {
        var u :| InPhase(st, vs, u, b) && vs[u].phase.Indexed?;
        assert InPhase(st', vs', u, b);
      }
    }
    forall b ensures BeingRemoved(st, vs, b) ==> BeingRemoved(st', vs', b) {
      if BeingRemoved(st, vs, b) {
        var u :| InPhase(st, vs, u, b) && vs[u].phase.Unmapped?;
        assert InPhase(st', vs', u, b);
      }
    }
  }

  predicate SameRecords(st: State, st': State) {
    && st'.listed == st.listed && st'.nextRec == st.nextRec && st'.records == st.records && st'.freed == st.freed
    && st'.byDevice == st.byDevice && st'.bySocket == st.bySocket
  }

  lemma {:induction false} LocalInStep(st: State, vs: Views, strict: bool, t: Tid, th: Thread, v: View)
    requires InStep(st, vs, strict) && t in st.threads && t in vs
    requires vs[t].phase.Indexed? ==> v.phase.Indexed? && th.bsock == st.threads[t].bsock
    requires vs[t].phase.Unmapped? ==> v.phase.Unmapped? && th.bsock == st.threads[t].bsock
    ensures InStep(Put(st, t, th), vs[t := v], strict)
  {
    hide BeingAdded, BeingRemoved;
    ChangersStay(st, vs, Put(st, t, th), vs[t := v]);
  }

  /** Replacing one thread by one with the same socket keeps the invariant, if what the new
      thread claims is true and the phases that excuse an index mismatch stay. */
  lemma {:induction false} LocalStep(st: State, vs: Views, strict: bool, t: Tid, th: Thread, v: View)
    requires Core(st, vs, strict) && t in st.threads && t in vs && Joins(st, t, th, v, strict)
    requires th.bsock == st.threads[t].bsock && (v.owner ==> vs[t].owner) && (v.solo == vs[t].solo || !v.owner)
    requires Knows(st, th.bsock, v.phase, strict)
    requires vs[t].phase.Indexed? ==> v.phase.Indexed?
    requires vs[t].phase.Unmapped? ==> v.phase.Unmapped?
    ensures Core(Put(st, t, th), vs[t := v], strict)
  {
    hide Disciplined, Excluded, InStep, Knows, Follows, Guarded, Compatible, CopyRight;
    LocalDisciplined(st, vs, strict, t, th, v);
    LocalExcluded(st, t, th);
    LocalInStep(st, vs, strict, t, th, v);
  }

  lemma {:induction false} CompatibleSymmetric(th: Thread, u: Thread)
    requires Compatible(th, u)
    ensures Compatible(u, th)
  {
  }

  lemma {:induction false} WithOf(h: Held, m: Mutex, mode: Mode, m': Mutex)
    requires m == Recursive ==> mode == Free || mode == Exclusive
    ensures m' != m ==> h.With(m, mode).Of(m') == h.Of(m')
    ensures mode != Free ==> h.With(m, mode).Of(m) == mode
    ensures mode == Free ==> h.With(m, mode).Of(m) == Free || h.With(m, mode).Of(m) == h.Of(m)
  {
  }

  lemma {:induction false} CompatibleLock(th: Thread, u: Thread, m: Mutex, mode: Mode, th': Thread)
    requires Compatible(th, u) && !HoldsAgainst(u, m, mode, th.bsock) && (m == Recursive ==> mode == Exclusive)
      && mode != Free
    requires th'.held == th.held.With(m, mode) && th'.bsock == th.bsock
    ensures Compatible(th', u)
  {
    forall m': Mutex | SameMutex(u, m', th'.bsock) && th'.held.Of(m') != Free && u.held.Of(m') != Free
      ensures th'.held.Of(m') == Shared && u.held.Of(m') == Shared
    {
      WithOf(th.held, m, mode, m');
    }
  }

  lemma {:induction false} CompatibleUnlock(th: Thread, u: Thread, m: Mutex, th': Thread)
    requires Compatible(th, u) && th'.held == th.held.With(m, Free) && th'.bsock == th.bsock
    ensures Compatible(th', u)
  {
    forall m': Mutex | SameMutex(u, m', th'.bsock) && th'.held.Of(m') != Free && u.held.Of(m') != Free
      ensures th'.held.Of(m') == Shared && u.held.Of(m') == Shared
    {
      WithOf(th.held, m, Free, m');
    }
  }

  lemma {:induction false} AfterLock(st: State, vs: Views, strict: bool, wf: bool, t: Tid)
    requires Core(st, vs, strict) && t in st.threads && st.threads[t].script.Lock?
    requires CanStep(st, wf, t)
    ensures Core(Exec(st, t, true), vs, strict)
  {
    hide Follows, Guarded, Knows, Compatible, InStep, Objects, Owners;
    var th := st.threads[t];
    var m, mode := th.script.m, th.script.mode;
    var th' := th.(held := th.held.With(m, mode), script := th.script.next);
    OfThread(st, vs, strict, t);
    GuardedLock(th.held, vs[t], m, mode, th.script.next, strict);
    forall u | u in st.threads && u != t ensures Compatible(th', st.threads[u]) {
      assert Compatible(th, st.threads[u]);
      CompatibleLock(th, st.threads[u], m, mode, th');
    }
    ListedIsListed(st, th.bsock, vs[t].phase, strict);
    LocalStep(st, vs, strict, t, th', vs[t]);
    assert vs[t := vs[t]] == vs;
  }

  lemma {:induction false} ListedIsListed(st: State, b: Sock, phase: Phase, strict: bool)
    requires Knows(st, b, phase, strict)
    ensures phase.Listed? || phase.Holding? ==> b in st.listed && (strict ==> b in st.bySocket)
  {
  }

  lemma {:induction false} GuardedLock(h: Held, v: View, m: Mutex, mode: Mode, next: Script, strict: bool)
    requires Follows(Lock(m, mode, next), h, v, strict) && Guarded(h, v)
    requires m == Recursive || h.Of(m) == Free
    ensures Guarded(h.With(m, mode), v) && Follows(next, h.With(m, mode), v, strict)
    ensures mode != Free && (m == Recursive ==> mode == Exclusive)
    ensures h.With(m, mode).socket != Free ==> h.socket != Free || v.phase.Listed?
  {
  }

  lemma {:induction false} AfterUnlocking(st: State, vs: Views, strict: bool, t: Tid)
    requires Core(st, vs, strict) && t in st.threads && st.threads[t].script.Unlock?
    ensures
      var m, h := st.threads[t].script.m, st.threads[t].held;
      Core(Exec(st, t, true), vs[t := AfterUnlock(vs[t], h.With(m, Free))], strict)
  {
    hide Follows, Guarded, Compatible, InStep, Objects, Owners, Knows, CopyRight;
    var th := st.threads[t];
    var m := th.script.m;
    var h' := th.held.With(m, Free);
    var th' := Thread(h', th.bsock, th.script.next, if m == Registry then None else th.copy);
    var v' := AfterUnlock(vs[t], h');
    OfThread(st, vs, strict, t);
    GuardedUnlock(th.held, vs[t], m, th.script.next, strict);
    forall u | u in st.threads && u != t ensures Compatible(th', st.threads[u]) {
      assert Compatible(th, st.threads[u]);
      CompatibleUnlock(th, st.threads[u], m, th');
    }
    KnowsAfterUnlock(st, th, vs[t], m, strict);
    LocalStep(st, vs, strict, t, th', v');
  }

  lemma {:induction false} KnowsAfterUnlock(st: State, th: Thread, v: View, m: Mutex, strict: bool)
    requires Knows(st, th.bsock, v.phase, strict) && CopyRight(st, th.copy, th.bsock, v, strict) && Guarded(th.held, v)
    ensures
      var v' := AfterUnlock(v, th.held.With(m, Free));
      && Knows(st, th.bsock, v'.phase, strict)
      && CopyRight(st, if m == Registry then None else th.copy, th.bsock, v', strict)
  {
  }

  lemma {:induction false} GuardedUnlock(h: Held, v: View, m: Mutex, next: Script, strict: bool)
    requires Follows(Unlock(m, next), h, v, strict) && Guarded(h, v)
    ensures
      var h', v' := h.With(m, Free), AfterUnlock(v, h.With(m, Free));
      && Guarded(h', v') && Follows(next, h', v', strict)
      && v'.owner == v.owner && v'.solo == v.solo
      && (v.phase.Indexed? || v.phase.Unmapped? || v.phase.Erased? || v.phase.AdapterGone? ==> v' == v)
      && (h'.socket != Free ==> h.socket != Free)
      && (v.solo && v'.phase.Unknown? ==> v.phase.Unknown? || v.phase.Over?)
  {
  }

  /** A step that changes neither the locks nor the socket of its thread. */
  lemma {:induction false} AfterLooking(st: State, vs: Views, strict: bool, t: Tid, script: Script, v: View,
        copy: Option<Record>)
    requires Core(st, vs, strict) && t in st.threads && t in vs
    requires Follows(script, st.threads[t].held, v, strict) && Guarded(st.threads[t].held, v)
    requires Knows(st, st.threads[t].bsock, v.phase, strict)
    requires CopyRight(st, copy, st.threads[t].bsock, v, strict)
    requires v.owner == vs[t].owner && v.solo == vs[t].solo
    requires v == vs[t] || (!Private(vs[t].phase)
      && (v.phase.Listed? || v.phase.Holding? || st.threads[t].held.socket == Free))
    ensures Core(Put(st, t, st.threads[t].(script := script, copy := copy)), vs[t := v], strict)
  {
    hide Follows, Guarded, Compatible, Disciplined, InStep, CopyRight, Objects, Owners;
    var th := st.threads[t].(script := script, copy := copy);
    forall u | u in st.threads && u != t ensures Compatible(th, st.threads[u]) {
      assert Compatible(st.threads[t], st.threads[u]);
      CompatibleSameHeld(st.threads[t], th, st.threads[u]);
    }
    LocalStep(st, vs, strict, t, th, v);
  }

  lemma {:induction false} CompatibleSameHeld(th: Thread, th': Thread, u: Thread)
    requires Compatible(th, u) && th'.held == th.held
    requires th'.bsock == th.bsock || th.held.socket == Free
    ensures Compatible(th', u)
  {
    forall m: Mutex | SameMutex(u, m, th'.bsock) && th'.held.Of(m) != Free && u.held.Of(m) != Free
      ensures th'.held.Of(m) == Shared && u.held.Of(m) == Shared
    {
      assert SameMutex(u, m, th.bsock);
    }
  }

  // ---- writing a config back ---------------------------------------------------------------

  /** A copy goes to a record of its own device, and with the indexes in step changes nothing. */
  lemma {:induction false} WritesOwnRecord(st: State, vs: Views, strict: bool, th: Thread, v: View)
    requires Objects(st) && InStep(st, vs, strict) && CopyRight(st, th.copy, th.bsock, v, strict)
      && Knows(st, th.bsock, v.phase, strict)
    requires th.copy.Some?
    ensures Objects(Update(st, th.copy.value)) && (strict ==> Update(st, th.copy.value) == st)
  {
    var c := th.copy.value;
    if strict {
      assert st.records[st.bySocket[c.socket]] == c;
      assert st.records[st.bySocket[c.socket] := c] == st.records;
    }
  }

  /** Without strictness the contents of the records do not matter to the threads. */
  lemma {:induction false} RecordsChange(st: State, vs: Views, strict: bool, st1: State)
    requires Core(st, vs, strict) && Objects(st1) && st1.(records := st.records) == st && (strict ==> st1 == st)
    ensures Core(st1, vs, strict)
  {
    hide Follows, Guarded, Compatible, Knows, Objects;
    if !strict {
      forall u | u in st.threads ensures Knows(st1, st.threads[u].bsock, vs[u].phase, strict) {
        KnowsSameObjects(st, st1, st.threads[u].bsock, vs[u].phase, strict);
      }
    }
  }

  // ---- steps that change the objects: all of them run in the creation mutex ------------------

  /** A thread that does not hold the creation mutex knows at most that its socket is registered. */
  lemma {:induction false} OthersArePublic(st: State, vs: Views, strict: bool, t: Tid, u: Tid)
    requires Disciplined(st, vs, strict) && Excluded(st)
    requires t in st.threads && u in st.threads && t != u && st.threads[t].held.creation != Free
    ensures u in vs && !Private(vs[u].phase) && Guarded(st.threads[u].held, vs[u])
  {
    NobodyElseInCreation(st, vs, strict, t, u);
    hide Follows, Knows, Disciplined, CopyRight, Excluded;
    OfThread(st, vs, strict, u);
    ChangersHoldBoth(st.threads[u].held, vs[u]);
  }

  /** The thread counts on its socket being registered. */
  predicate Counts(th: Thread, v: View) {
    v.phase.Listed? || v.phase.Holding? || th.held.socket != Free
  }

  /** st1 has the threads of st and has lost no registered socket that another thread counts on. */
  ghost predicate ObjectsMove(st: State, vs: Views, t: Tid, st1: State) {
    && st1.threads == st.threads && st1.calls == st.calls
    && (forall s :: s in st.device ==> s in st1.device && st1.device[s] == st.device[s])
    && (forall u | u in st.threads && u in vs && u != t && Counts(st.threads[u], vs[u]) ::
          && (st.threads[u].bsock in st.listed ==> st.threads[u].bsock in st1.listed)
          && (st.threads[u].bsock in st.bySocket ==> st.threads[u].bsock in st1.bySocket))
    && (forall u :: u in st.threads && u in vs && u != t && vs[u].phase.Over? ==> st1.listed <= st.listed)
  }

  lemma {:induction false} KnowsMoved(st: State, vs: Views, strict: bool, t: Tid, st1: State, u: Tid)
    requires ObjectsMove(st, vs, t, st1) && u in st.threads && u in vs && u != t && !Private(vs[u].phase)
    requires Knows(st, st.threads[u].bsock, vs[u].phase, strict)
      && CopyRight(st, st.threads[u].copy, st.threads[u].bsock, vs[u], strict)
    ensures Knows(st1, st.threads[u].bsock, vs[u].phase, strict)
      && CopyRight(st1, st.threads[u].copy, st.threads[u].bsock, vs[u], strict)
  {
  }

  lemma {:induction false} MoveDisciplined(st: State, vs: Views, strict: bool, t: Tid, st1: State, th: Thread, v: View)
    requires Disciplined(st, vs, strict) && Excluded(st)
    requires t in st.threads && st.threads[t].held.creation != Free
    requires ObjectsMove(st, vs, t, st1) && Joins(st1, t, th, v, strict)
    requires Knows(st1, th.bsock, v.phase, strict)
    ensures Disciplined(Put(st1, t, th), vs[t := v], strict)
  {
    hide Follows, Guarded, Compatible, Knows, ObjectsMove;
    var st', vs' := Put(st1, t, th), vs[t := v];
    assert st1.threads == st.threads by { MoveKeepsThreads(st, vs, t, st1); }
    forall u | u in st'.threads
      ensures Follows(st'.threads[u].script, st'.threads[u].held, vs'[u], strict)
      ensures Guarded(st'.threads[u].held, vs'[u])
      ensures Knows(st', st'.threads[u].bsock, vs'[u].phase, strict)
      ensures CopyRight(st', st'.threads[u].copy, st'.threads[u].bsock, vs'[u], strict)
    {
      KnowsSameObjects(st1, st', st'.threads[u].bsock, vs'[u].phase, strict);
      if u != t {
        OthersArePublic(st, vs, strict, t, u);
        KnowsMoved(st, vs, strict, t, st1, u);
      }
    }
  }

  lemma {:induction false} MoveKeepsThreads(st: State, vs: Views, t: Tid, st1: State)
    requires ObjectsMove(st, vs, t, st1)
    ensures st1.threads == st.threads && st1.calls == st.calls
  {
  }

  lemma {:induction false} MoveRest(st: State, vs: Views, strict: bool, t: Tid, st1: State, th: Thread, v: View)
    requires HoldersListed(st, vs) && Owners(st, vs) && t in st.threads && t in vs
    requires forall u :: u in st.threads && u in vs && u != t ==> !Private(vs[u].phase)
    requires ObjectsMove(st, vs, t, st1) && Joins(st1, t, th, v, strict)
    requires v.owner ==> vs[t].owner && th.bsock == st.threads[t].bsock && v.solo == vs[t].solo
    ensures HoldersListed(Put(st1, t, th), vs[t := v]) && Owners(Put(st1, t, th), vs[t := v])
  {
    hide Follows, Guarded, Compatible, CopyRight;
  }

  /** A step in the creation mutex keeps the invariant, if the new objects are in order. */
  lemma {:induction false} MoveStep(st: State, vs: Views, strict: bool, t: Tid, st1: State, th: Thread, v: View)
    requires Core(st, vs, strict)
    requires t in st.threads && t in vs && st.threads[t].held.creation != Free
    requires ObjectsMove(st, vs, t, st1) && Joins(st1, t, th, v, strict)
    requires Knows(st1, th.bsock, v.phase, strict) && Objects(st1)
    requires InStep(Put(st1, t, th), vs[t := v], strict)
    requires v.owner ==> vs[t].owner && th.bsock == st.threads[t].bsock && v.solo == vs[t].solo
    ensures Core(Put(st1, t, th), vs[t := v], strict)
  {
    hide Follows, Guarded, Compatible, Knows, InStep, HoldersListed, Owners, CopyRight;
    MoveDisciplined(st, vs, strict, t, st1, th, v);
    assert Excluded(st1);
    LocalExcluded(st1, t, th);
    forall u | u in st.threads && u in vs && u != t ensures !Private(vs[u].phase) {
      OthersArePublic(st, vs, strict, t, u);
    }
    MoveRest(st, vs, strict, t, st1, th, v);
  }

  /** The thread's own part of Joins when its locks stay as they are. */
  lemma {:induction false} JoinsSameHeld(st: State, st1: State, t: Tid, th: Thread, v: View, strict: bool)
    requires Excluded(st) && t in st.threads && st1.threads == st.threads
    requires th.held == st.threads[t].held && (th.bsock == st.threads[t].bsock || th.held.socket == Free)
    requires Follows(th.script, th.held, v, strict) && Guarded(th.held, v)
      && CopyRight(st1, th.copy, th.bsock, v, strict)
    requires th.held.socket != Free ==> th.bsock in st1.listed || v.phase.Erased? || v.phase.AdapterGone?
    ensures Joins(st1, t, th, v, strict)
  {
    hide Follows, Guarded, Compatible, CopyRight;
    forall u | u in st.threads && u != t ensures Compatible(th, st.threads[u]) {
      assert Compatible(st.threads[t], st.threads[u]);
      CompatibleSameHeld(st.threads[t], th, st.threads[u]);
    }
  }

  // ---- each such step -------------------------------------------------------------------------

  predicate ChangesObjects(s: Script) {
    || s.NewSocket? || s.NewAdapter? || s.IndexSocket? || s.ListSocket?
    || s.UnindexSocket? || s.UnlistSocket? || s.DeleteAdapter? || s.DeleteSocket?
  }

  /** What the thread knows after a step that changes the objects. */
  function ViewAfter(s: Script, v: View): View {
    match s
    case NewSocket(link, _) => v.(phase := Fresh(link.mac, v.phase.Absent? && v.phase.key == link.mac))
    case NewAdapter(_) => if v.phase.Fresh? then v.(phase := Ready(v.phase.dev, v.phase.clear)) else v
    case IndexSocket(_) => if v.phase.Ready? then v.(phase := Indexed(v.phase.dev)) else v
    case ListSocket(_) => if v.phase.Indexed? then v.(phase := Listed(Some(v.phase.dev))) else v
    case UnindexSocket(_) => v.(phase := Unmapped)
    case UnlistSocket(_) => v.(phase := Erased)
    case DeleteAdapter(_) => v.(phase := AdapterGone)
    case _ => Done(v)
  }

  predicate RightPhase(s: Script, v: View, strict: bool) {
    match s
    case NewSocket(_, _) => v.phase.Absent?
    case NewAdapter(_) => v.phase.Fresh?
    case IndexSocket(_) => v.phase.Ready? && (strict ==> v.phase.clear)
    case ListSocket(_) => v.phase.Indexed?
    case UnindexSocket(_) => v.phase.Listed? && v.owner
    case UnlistSocket(_) => v.phase.Unmapped? && v.owner
    case DeleteAdapter(_) => v.phase.Erased?
    case DeleteSocket(_) => v.phase.AdapterGone?
    case _ => true
  }

  predicate RightLocks(s: Script, h: Held) {
    && h.creation != Free
    && (s.NewSocket? || s.NewAdapter? || s.IndexSocket? || s.ListSocket? || s.DeleteSocket? ==> h.socket == Free)
    && (s.UnindexSocket? || s.UnlistSocket? || s.DeleteAdapter? ==> ExclusiveOnSocket(h))
    && (s.ListSocket? ==> h.recursive > 0)
  }

  lemma {:induction false} RuleOf(s: Script, h: Held, v: View, strict: bool)
    requires ChangesObjects(s) && Follows(s, h, v, strict) && Guarded(h, v)
    ensures RightPhase(s, v, strict) && RightLocks(s, h)
    ensures Follows(s.next, h, ViewAfter(s, v), strict) && Guarded(h, ViewAfter(s, v))
    ensures (ViewAfter(s, v).owner ==> v.owner) && ViewAfter(s, v).solo == v.solo
    ensures s.NewSocket? ==> !v.owner
    ensures v.solo && ViewAfter(s, v).phase.Unknown? ==> s.DeleteSocket?
  {
  }

  function SocketAfter(st: State, s: Script, b: Sock): Sock {
    if s.NewSocket? then st.nextSock else b
  }

  lemma {:induction false} UpdateObjects(st: State, c: Record)
    requires Objects(st) && c.socket in st.device && st.device[c.socket] == c.device
    ensures Objects(Update(st, c)) && Update(st, c).(records := st.records) == st
  {
  }

  lemma {:induction false} CreateConfigObjects(st: State, b: Sock)
    requires Objects(st) && b in st.device
    ensures
      var st1 := CreateConfig(st, b);
      && Objects(st1) && b in st1.bySocket
      && st1.(nextRec := st.nextRec, records := st.records, byDevice := st.byDevice, bySocket := st.bySocket) == st
      && forall s :: s in st.bySocket ==> s in st1.bySocket
  {
    var c := Record(b, st.device[b]);
    if c.device in st.byDevice {
      UpdateObjects(st, c);
      hide Update;
    }
  }

  lemma {:induction false} RemoveConfigObjects(st: State, b: Sock)
    requires Objects(st)
    ensures
      var st1 := RemoveConfig(st, b);
      && Objects(st1) && b !in st1.bySocket
      && st1.(byDevice := st.byDevice, bySocket := st.bySocket, freed := st.freed) == st
      && forall s :: s in st.bySocket && s != b ==> s in st1.bySocket
  {
  }

  lemma {:induction false} KnowsIndexed(st: State, b: Sock, v: View, strict: bool)
    requires Objects(st) && v.phase.Ready? && (strict ==> v.phase.clear) && Knows(st, b, v.phase, strict)
    ensures Objects(CreateConfig(st, b)) && Knows(CreateConfig(st, b), b, Indexed(v.phase.dev), strict)
  {
    hide CreateConfig, Objects;
    assert b in st.device;
    CreateConfigObjects(st, b);
  }

  lemma {:induction false} KnowsUnindexed(st: State, b: Sock, v: View, strict: bool)
    requires Objects(st) && v.phase.Listed? && Knows(st, b, v.phase, strict)
    ensures Objects(RemoveConfig(st, b)) && Knows(RemoveConfig(st, b), b, Unmapped, strict)
  {
    hide RemoveConfig, Objects;
    RemoveConfigObjects(st, b);
  }

  lemma {:induction false} KnowsMade(st: State, s: Script, b: Sock, v: View, strict: bool)
    requires s.NewSocket? || s.NewAdapter? || s.ListSocket?
    requires Objects(st) && RightPhase(s, v, strict) && Knows(st, b, v.phase, strict)
    ensures
      var st1 := Effect(st, s, b, None);
      Objects(st1) && Knows(st1, SocketAfter(st, s, b), ViewAfter(s, v).phase, strict)
  {
    hide CreateConfig, RemoveConfig;
    if s.NewSocket? {
      assert st.nextSock !in st.bySocket && st.nextSock !in st.listed;
    }
  }

  lemma {:induction false} KnowsDeleted(st: State, s: Script, b: Sock, v: View, strict: bool)
    requires s.UnlistSocket? || s.DeleteAdapter? || s.DeleteSocket?
    requires Objects(st) && RightPhase(s, v, strict) && Knows(st, b, v.phase, strict)
    ensures
      var st1 := Effect(st, s, b, None);
      Objects(st1) && Knows(st1, SocketAfter(st, s, b), ViewAfter(s, v).phase, strict)
  {
    hide CreateConfig, RemoveConfig;
  }

  /** The objects stay in order, and what the thread comes to know is true. */
  lemma {:induction false} KnowsNext(st: State, s: Script, b: Sock, v: View, strict: bool)
    requires ChangesObjects(s) && Objects(st) && RightPhase(s, v, strict) && Knows(st, b, v.phase, strict)
    ensures
      var st1 := Effect(st, s, b, None);
      Objects(st1) && Knows(st1, SocketAfter(st, s, b), ViewAfter(s, v).phase, strict)
  {
    hide CreateConfig, RemoveConfig, Objects, Knows;
    if s.IndexSocket? {
      KnowsIndexed(st, b, v, strict);
    } else if s.UnindexSocket? {
      KnowsUnindexed(st, b, v, strict);
    } else if s.NewSocket? || s.NewAdapter? || s.ListSocket? {
      KnowsMade(st, s, b, v, strict);
    } else {
      KnowsDeleted(st, s, b, v, strict);
    }
  }

  lemma {:induction false} InStepSameLists(st: State, st1: State, vs: Views, strict: bool)
    requires InStep(st, vs, strict)
    requires st1.threads == st.threads && SameRecords(st, st1)
    requires st.listed <= st.device.Keys
    requires forall s :: s in st.device ==> s in st1.device && st1.device[s] == st.device[s]
    ensures InStep(st1, vs, strict)
  {
    hide BeingAdded, BeingRemoved;
    ChangersStay(st, vs, st1, vs);
  }

  /** Only thread t can be adding or removing a socket, and this is what it knows. */
  ghost predicate Sole(st: State, vs: Views, t: Tid, strict: bool) {
    && t in st.threads && t in vs
    && RightPhase(st.threads[t].script, vs[t], strict)
    && Knows(st, st.threads[t].bsock, vs[t].phase, strict)
    && (forall b :: BeingAdded(st, vs, b) ==> vs[t].phase.Indexed? && st.threads[t].bsock == b)
    && (forall b :: BeingRemoved(st, vs, b) ==> vs[t].phase.Unmapped? && st.threads[t].bsock == b)
  }

  lemma {:induction false} MirrorCreates(st: State, b: Sock, dev: string)
    requires Objects(st) && Mirror(st) && Unpublished(st, b, dev, true, true)
    ensures Mirror(CreateConfig(st, b))
  {
  }

  lemma {:induction false} MirrorRemoves(st: State, b: Sock)
    requires Objects(st) && Mirror(st) && b in st.bySocket
    ensures Mirror(RemoveConfig(st, b))
  {
    var st1 := RemoveConfig(st, b);
    forall s | s in st1.bySocket ensures st.device[s] in st1.byDevice && st1.bySocket[s] !in st1.freed {
      assert st.bySocket[s] != st.bySocket[b];
    }
    assert forall d :: d in st.byDevice && st.records[st.byDevice[d]].socket == b ==> d == st.device[b];
  }

  /** A fresh socket enters the indexes, which go on mirroring each other. */
  lemma {:induction false} MirrorIndexed(st: State, b: Sock, phase: Phase, t: Tid, th: Thread)
    requires Objects(st) && Mirror(st) && Knows(st, b, phase, true) && phase.Ready? && phase.clear
    ensures
      var st' := Put(CreateConfig(st, b), t, th);
      && Mirror(st') && st'.listed == st.listed && st'.device == st.device
      && (forall s :: s in st'.bySocket <==> s in st.bySocket || s == b)
  {
    hide Objects;
    assert b in st.device;
    CreateConfigObjects(st, b);
    MirrorCreates(st, b, st.device[b]);
    CreateConfigAdds(st, b);
    hide CreateConfig, Mirror;
    MirrorSame(CreateConfig(st, b), Put(CreateConfig(st, b), t, th));
  }

  lemma {:induction false} InStepIndexed(st: State, vs: Views, strict: bool, t: Tid, th: Thread, v: View)
    requires InStep(st, vs, strict) && Objects(st) && Sole(st, vs, t, strict)
    requires st.threads[t].script.IndexSocket? && th.bsock == st.threads[t].bsock && v.phase.Indexed?
    ensures InStep(Put(CreateConfig(st, st.threads[t].bsock), t, th), vs[t := v], strict)
  {
    hide CreateConfig, Mirror, Objects, Knows, OneSocketPerDevice;
    if strict {
      var b := st.threads[t].bsock;
      MirrorIndexed(st, b, vs[t].phase, t, th);
      var st', vs' := Put(CreateConfig(st, b), t, th), vs[t := v];
      assert OneSocketPerDevice(st') by { SinglesStay(st, st'); }
      assert InPhase(st', vs', t, b);
      assert BeingAdded(st', vs', b);
      forall s ensures !BeingAdded(st, vs, s) && !BeingRemoved(st, vs, s) { }
    }
  }

  lemma {:induction false} SinglesStay(st: State, st': State)
    requires OneSocketPerDevice(st) && st'.listed == st.listed && st'.device == st.device
    ensures OneSocketPerDevice(st')
  {
  }

  lemma {:induction false} CreateConfigAdds(st: State, b: Sock)
    requires b in st.device
    ensures forall s :: s in CreateConfig(st, b).bySocket <==> s in st.bySocket || s == b
  {
  }

  lemma {:induction false} MirrorSame(st: State, st1: State)
    requires Mirror(st) && SameRecords(st, st1.(listed := st.listed)) && st1.device == st.device
    ensures Mirror(st1)
  {
  }

  /** A registered socket leaves the indexes, which go on mirroring each other. */
  lemma {:induction false} MirrorUnindexed(st: State, b: Sock, phase: Phase, t: Tid, th: Thread)
    requires Objects(st) && Mirror(st) && Knows(st, b, phase, true) && phase.Listed?
    ensures
      var st' := Put(RemoveConfig(st, b), t, th);
      && Mirror(st') && st'.listed == st.listed && st'.device == st.device && b in st.listed
      && (forall s :: s in st'.bySocket <==> s in st.bySocket && s != b)
  {
    hide Objects;
    RemoveConfigObjects(st, b);
    MirrorRemoves(st, b);
    RemoveConfigDrops(st, b);
    hide RemoveConfig, Mirror;
    MirrorSame(RemoveConfig(st, b), Put(RemoveConfig(st, b), t, th));
  }

  lemma {:induction false} InStepUnindexed(st: State, vs: Views, strict: bool, t: Tid, th: Thread, v: View)
    requires InStep(st, vs, strict) && Objects(st) && Sole(st, vs, t, strict)
    requires st.threads[t].script.UnindexSocket? && th.bsock == st.threads[t].bsock && v.phase.Unmapped?
    ensures InStep(Put(RemoveConfig(st, st.threads[t].bsock), t, th), vs[t := v], strict)
  {
    hide RemoveConfig, Mirror, Objects, Knows, OneSocketPerDevice;
    if strict {
      var b := st.threads[t].bsock;
      MirrorUnindexed(st, b, vs[t].phase, t, th);
      var st', vs' := Put(RemoveConfig(st, b), t, th), vs[t := v];
      assert OneSocketPerDevice(st') by { SinglesStay(st, st'); }
      assert InPhase(st', vs', t, b);
      assert BeingRemoved(st', vs', b);
      forall s ensures !BeingAdded(st, vs, s) && !BeingRemoved(st, vs, s) { }
    }
  }

  lemma {:induction false} RemoveConfigDrops(st: State, b: Sock)
    ensures forall s :: s in RemoveConfig(st, b).bySocket <==> s in st.bySocket && s != b
  {
  }

  lemma {:induction false} InStepListed(st: State, vs: Views, strict: bool, t: Tid, th: Thread, v: View)
    requires InStep(st, vs, strict) && Objects(st) && Sole(st, vs, t, strict)
    requires st.threads[t].script.ListSocket?
    ensures InStep(Put(st.(listed := st.listed + {st.threads[t].bsock}), t, th), vs[t := v], strict)
  {
    hide Objects;
    if strict {
      var st' := Put(st.(listed := st.listed + {st.threads[t].bsock}), t, th);
      MirrorSame(st, st');
      hide Mirror;
      forall s ensures !BeingRemoved(st, vs, s) { }
      forall s | s in st.bySocket ensures s in st'.listed {
        if s !in st.listed { assert BeingAdded(st, vs, s); }
      }
    }
  }

  lemma {:induction false} InStepUnlisted(st: State, vs: Views, strict: bool, t: Tid, th: Thread, v: View)
    requires InStep(st, vs, strict) && Objects(st) && Sole(st, vs, t, strict)
    requires st.threads[t].script.UnlistSocket?
    ensures InStep(Put(st.(listed := st.listed - {st.threads[t].bsock}), t, th), vs[t := v], strict)
  {
    hide Objects;
    if strict {
      assert st.threads[t].bsock !in st.bySocket;
      hide Knows;
      MirrorSame(st, Put(st.(listed := st.listed - {st.threads[t].bsock}), t, th));
      hide Mirror;
      forall s ensures !BeingAdded(st, vs, s) { }
      forall s | s != st.threads[t].bsock ensures !BeingRemoved(st, vs, s) { }
    }
  }

  /** The indexes and sockets_ stay in step, up to the socket this thread is adding or removing. */
  lemma {:induction false} InStepNext(st: State, vs: Views, strict: bool, t: Tid, th: Thread)
    requires InStep(st, vs, strict) && Objects(st) && Sole(st, vs, t, strict)
    requires ChangesObjects(st.threads[t].script)
    requires th.bsock == SocketAfter(st, st.threads[t].script, st.threads[t].bsock)
    ensures
      var s, b, v := st.threads[t].script, st.threads[t].bsock, vs[t];
      InStep(Put(Effect(st, s, b, None), t, th), vs[t := ViewAfter(s, v)], strict)
  {
    hide InStep, CreateConfig, RemoveConfig, Knows;
    var s, b, v := st.threads[t].script, st.threads[t].bsock, vs[t];
    var st', vs' := Put(Effect(st, s, b, None), t, th), vs[t := ViewAfter(s, v)];
    match s
    case IndexSocket(_) => InStepIndexed(st, vs, strict, t, th, ViewAfter(s, v));
    case UnindexSocket(_) => InStepUnindexed(st, vs, strict, t, th, ViewAfter(s, v));
    case ListSocket(_) => InStepListed(st, vs, strict, t, th, ViewAfter(s, v));
    case UnlistSocket(_) => InStepUnlisted(st, vs, strict, t, th, ViewAfter(s, v));
    case _ =>
      LocalInStep(st, vs, strict, t, th, ViewAfter(s, v));
      InStepSameLists(Put(st, t, th), st', vs', strict);
  }

  /** With the deletion mutex and the socket's mutex held exclusively, no other thread holds
      the socket's mutex or counts on the socket being registered. */
  lemma {:induction false} NobodyElseCounts(st: State, vs: Views, strict: bool, t: Tid)
    requires Disciplined(st, vs, strict) && Excluded(st) && Owners(st, vs)
    requires t in st.threads && t in vs && ExclusiveOnSocket(st.threads[t].held) && vs[t].owner
    ensures forall u :: u in st.threads && u in vs && u != t && st.threads[u].bsock == st.threads[t].bsock ==>
              !Counts(st.threads[u], vs[u])
  {
    hide Follows, Compatible, Knows, Disciplined, Excluded, CopyRight;
    forall u | u in st.threads && u in vs && u != t && st.threads[u].bsock == st.threads[t].bsock
      ensures !Counts(st.threads[u], vs[u])
    {
      NobodyElseInSocket(st, t, u);
      NobodyElseInDeletion(st, t, u);
      OfThread(st, vs, strict, u);
    }
  }

  lemma {:induction false} NotOver(h: Held, v: View)
    requires Guarded(h, v) && h.recursive == 0
    ensures !v.phase.Over?
  {
  }

  lemma {:induction false} NobodyElseIsOver(st: State, vs: Views, strict: bool, t: Tid)
    requires Disciplined(st, vs, strict) && Excluded(st) && t in st.threads && st.threads[t].held.recursive > 0
    ensures forall u :: u in st.threads && u in vs && u != t ==> !vs[u].phase.Over?
  {
    hide Disciplined, Excluded, Follows, Guarded, Knows;
    forall u | u in st.threads && u in vs && u != t ensures !vs[u].phase.Over? {
      NobodyElseInRecursive(st, t, u);
      OfThread(st, vs, strict, u);
      NotOver(st.threads[u].held, vs[u]);
    }
  }

  lemma {:induction false} ObjectsDoMove(st: State, vs: Views, strict: bool, t: Tid)
    requires Disciplined(st, vs, strict) && Excluded(st) && Owners(st, vs) && Objects(st)
    requires t in st.threads && t in vs
    requires Knows(st, st.threads[t].bsock, vs[t].phase, strict)
    requires
      var s, h := st.threads[t].script, st.threads[t].held;
      ChangesObjects(s) && RightPhase(s, vs[t], strict) && RightLocks(s, h)
    ensures ObjectsMove(st, vs, t, Effect(st, st.threads[t].script, st.threads[t].bsock, None))
  {
    hide Disciplined, Excluded, Owners, CreateConfig, RemoveConfig, Follows, Guarded;
    var b := st.threads[t].bsock;
    if st.threads[t].script.ListSocket? {
      NobodyElseIsOver(st, vs, strict, t);
    }
    if st.threads[t].script.UnlistSocket? || st.threads[t].script.UnindexSocket? {
      NobodyElseCounts(st, vs, strict, t);
      RemoveConfigObjects(st, b);
    } else if st.threads[t].script.IndexSocket? {
      CreateConfigObjects(st, b);
    }
  }

  lemma {:induction false} AfterChange(st: State, vs: Views, strict: bool, t: Tid, choice: bool)
    requires Core(st, vs, strict) && t in st.threads && t in vs && ChangesObjects(st.threads[t].script)
    ensures Core(Exec(st, t, choice), vs[t := ViewAfter(st.threads[t].script, vs[t])], strict)
  {
    hide Follows, Guarded, Compatible, Knows, InStep, Disciplined, Excluded, HoldersListed, Owners, CreateConfig,
         RemoveConfig,
         CopyRight, Mirror;
    var s, b, h, v := st.threads[t].script, st.threads[t].bsock, st.threads[t].held, vs[t];
    var st1 := Effect(st, s, b, None);
    OfThread(st, vs, strict, t);
    RuleOf(s, h, v, strict);
    NoCopy(st, st.threads[t].copy, b, v, ViewAfter(s, v), s, st1, strict);
    var th := Thread(h, SocketAfter(st, s, b), s.next);
    KnowsNext(st, s, b, v, strict);
    OnlyMine(st, vs, strict, t);
    InStepNext(st, vs, strict, t, th);
    ObjectsDoMove(st, vs, strict, t);
    HolderStays(st, st1, s, h, v, b, strict);
    JoinsSameHeld(st, st1, t, th, ViewAfter(s, v), strict);
    MoveStep(st, vs, strict, t, st1, th, ViewAfter(s, v));
    ExecChanges(st, t, choice, th);
  }

  lemma {:induction false} NoCopy(st: State, copy: Option<Record>, b: Sock, v: View, v': View, s: Script, st1: State,
        strict: bool)
    requires CopyRight(st, copy, b, v, strict) && ChangesObjects(s) && RightPhase(s, v, strict)
    ensures copy == None && CopyRight(st1, None, SocketAfter(st, s, b), v', strict)
  {
  }

  lemma {:induction false} ExecChanges(st: State, t: Tid, choice: bool, th: Thread)
    requires t in st.threads && ChangesObjects(st.threads[t].script) && st.threads[t].copy == None
    requires th == Thread(st.threads[t].held, SocketAfter(st, st.threads[t].script, st.threads[t].bsock),
      st.threads[t].script.next)
    ensures Exec(st, t, choice) == Put(Effect(st, st.threads[t].script, st.threads[t].bsock, None), t, th)
  {
    hide Effect, DestroyScript, Found, FoundByDevice, Newest;
  }

  lemma {:induction false} HolderStays(st: State, st1: State, s: Script, h: Held, v: View, b: Sock, strict: bool)
    requires ChangesObjects(s) && RightPhase(s, v, strict) && RightLocks(s, h) && Knows(st, b, v.phase, strict)
    requires Objects(st) && st1 == Effect(st, s, b, None)
    ensures st1.threads == st.threads
    ensures h.socket != Free ==> b in st1.listed || ViewAfter(s, v).phase.Erased? || ViewAfter(s, v).phase.AdapterGone?
  {
    if s.UnindexSocket? {
      RemoveConfigObjects(st, b);
      hide CreateConfig, RemoveConfig;
    }
  }

  lemma {:induction false} AfterLoadIndexed(st: State, vs: Views, strict: bool, t: Tid, choice: bool)
    requires Core(st, vs, strict) && t in st.threads && t in vs && st.threads[t].script.LoadIndexed?
    requires st.threads[t].script.key in st.byDevice
    ensures Core(Exec(st, t, choice), vs[t := Loaded(vs[t], st.threads[t].script.key, strict)], strict)
  {
    hide Guarded, Compatible, Disciplined, Excluded, HoldersListed, Owners;
    var th, key := st.threads[t], st.threads[t].script.key;
    OfThread(st, vs, strict, t);
    GuardedLoad(th.script, th.held, vs[t], strict);
    var v := Loaded(vs[t], key, strict);
    var b := st.records[st.byDevice[key]].socket;
    var th' := th.(bsock := b, script := th.script.found);
    OnlyMine(st, vs, strict, t);
    if strict {
      assert !BeingAdded(st, vs, b);
      assert b in st.bySocket && b in st.listed;
    }
    hide Follows;
    JoinsSameHeld(st, st, t, th', v, strict);
    LocalInStep(st, vs, strict, t, th', v);
    MoveStep(st, vs, strict, t, st, th', v);
  }

  lemma {:induction false} GuardedLoad(s: Script, h: Held, v: View, strict: bool)
    requires s.LoadIndexed? && Follows(s, h, v, strict) && Guarded(h, v)
    ensures v == BLANK && h.creation != Free && h.deletion != Free && h.socket == Free
    ensures Guarded(h, Loaded(v, s.key, strict))
    ensures Follows(s.found, h, Loaded(v, s.key, strict), strict)
  {
  }
}
