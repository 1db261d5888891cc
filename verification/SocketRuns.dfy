/**
 * One step of the machine, and its runs under a setting: which links are passed, which
 * destroys may overlap, and what may run beside Cleanup.
 */
module SocketRuns {
  import opened Common
  import opened SocketMachine
  import opened SocketScripts

  // ---- one step ----------------------------------------------------------------

  /** The socket that was listed last: sockets are made and listed in the creation mutex, so
      that the order of sockets_ is the order of their identities. */
  predicate IsNewest(listed: set<Sock>, s: Sock) {
    s in listed && forall u :: u in listed ==> u <= s
  }

  lemma {:induction false} Inhabited(listed: set<Sock>)
    ensures listed == {} || exists s: Sock :: s in listed
  {
    if forall s: Sock :: s !in listed {
      assert listed == {};
    }
  }

  lemma {:induction false} NewestExists(listed: set<Sock>)
    requires listed != {}
    ensures exists s :: IsNewest(listed, s)
    decreases listed
  {
    Inhabited(listed);
    var s: Sock :| s in listed;
    if !IsNewest(listed, s) {
      var u :| u in listed && u > s;
      var rest := listed - {s};
      assert u in rest;
      NewestExists(rest);
      var n: Sock :| IsNewest(rest, n);
      assert s < u <= n;
      forall w | w in listed ensures w <= n {
        assert w == s || w in rest;
      }
      assert IsNewest(listed, n);
    }
  }

  /** sockets_.back() */
  ghost function Newest(listed: set<Sock>): (s: Sock)
    requires listed != {}
    ensures IsNewest(listed, s)
  {
    NewestExists(listed);
    var s :| IsNewest(listed, s);
    s
  }

  /** What the first instruction of a script does to the objects and the registry. */
  function Effect(st: State, s: Script, b: Sock, copy: Option<Record>): State {
    var n := st.nextSock;
    match s
    case WriteBack(_) => if copy.Some? then Update(st, copy.value) else st
    case NewSocket(link, _) => st.(nextSock := n + 1, alive := st.alive + {n}, device := st.device[n := link.mac])
    case NewAdapter(_) => st.(adapters := st.adapters + {b})
    case IndexSocket(_) => CreateConfig(st, b)
    case ListSocket(_) => st.(listed := st.listed + {b})
    case UnindexSocket(_) => RemoveConfig(st, b)
    case UnlistSocket(_) => st.(listed := st.listed - {b})
    case DeleteAdapter(_) => st.(adapters := st.adapters - {b})
    case DeleteSocket(_) => st.(alive := st.alive - {b})
    case _ => st
  }

  /** The thread after its first instruction; `choice` decides a Branch. The copy of a config is
      local to the operation that holds the registry mutex. */
  ghost function NextThread(st: State, th: Thread, choice: bool): Thread {
    match th.script
    case Return => th
    case Lock(m, mode, next) => th.(held := th.held.With(m, mode), script := next)
    case Unlock(m, next) => Thread(th.held.With(m, Free), th.bsock, next, if m == Registry then None else th.copy)
    case IfListed(yes, no) => th.(script := if th.bsock in st.listed then yes else no)
    case IfIndexed(key, yes, no) => th.(script := if key in st.byDevice then yes else no)
    case LoadIndexed(key, found, missing) =>
      if key in st.byDevice && st.byDevice[key] in st.records
      then th.(bsock := st.records[st.byDevice[key]].socket, script := found)
      else th.(script := missing)
    case CopyBySocket(next) => th.(script := next, copy := Found(st, th.bsock))
    case CopyByDevice(next) => th.(script := next, copy := FoundByDevice(st, th.bsock))
    case IfCopied(found, missing) => th.(script := if th.copy.Some? then found else missing)
    case Branch(left, right) => th.(script := if choice then left else right)
    case NewSocket(_, next) => th.(bsock := st.nextSock, script := next)
    case NextVictim =>
      if st.listed == {} then th.(script := Unlock(Recursive, Return))
      else th.(bsock := Newest(st.listed), script := DestroyScript(NextVictim))
    case _ => th.(script := th.script.next)
  }

  /** Executes the first instruction of t. */
  ghost function Exec(st: State, t: Tid, choice: bool): State
    requires t in st.threads
  {
    var th := st.threads[t];
    Put(Effect(st, th.script, th.bsock, th.copy), t, NextThread(st, th, choice))
  }

  function Found(st: State, b: Sock): Option<Record> {
    if b in st.bySocket && st.bySocket[b] in st.records then Some(st.records[st.bySocket[b]]) else None
  }

  function FoundByDevice(st: State, b: Sock): Option<Record> {
    if b in st.device && st.device[b] in st.byDevice && st.byDevice[st.device[b]] in st.records
    then Some(st.records[st.byDevice[st.device[b]]]) else None
  }

  // ---- runs ------------------------------------------------------------------------------

  /** How callers destroy sockets: not at all, never the same one by two calls in progress at
      once, or in any way. */
  datatype Destroys = Never | NotAtOnce | Anyhow

  /** What the callers do: which links they pass, how they destroy sockets, and which calls
      they let run beside Cleanup; and how the shared mutexes treat readers while a writer
      waits. */
  datatype Setting = Setting(links: set<Link>, destroys: Destroys, beside: iset<Call>, writerFirst: bool)

  datatype Action =
    | Start(t: Tid, call: Call)
    | Step(t: Tid, choice: bool)

  /** The call returns at once: its pointer is null. */
  predicate IsNull(call: Call) {
    ScriptOf(call) == Return
  }

  /** The call destroys the socket it is given. */
  predicate DestroysOne(call: Call) {
    call.Destroy? && call.p.Some?
  }

  /** The call may be in progress while a Cleanup is. */
  ghost predicate MayAccompany(cfg: Setting, call: Call) {
    call.Cleanup? || IsNull(call) || call in cfg.beside
  }

  /** Callers may make this call at some time. */
  predicate MayBeMade(cfg: Setting, call: Call) {
    && (LinkOf(call).Some? ==> LinkOf(call).value in cfg.links)
    && (call.Cleanup? || DestroysOne(call) ==> cfg.destroys != Never)
  }

  ghost predicate MayStart(cfg: Setting, st: State, t: Tid, call: Call) {
    && !InProgress(st, t)
    && MayBeMade(cfg, call)
    && (DestroysOne(call) && cfg.destroys == NotAtOnce ==>
          forall u :: InProgress(st, u) && u in st.calls ==> st.calls[u] != call)
    && (call.Cleanup? ==>
          forall u :: InProgress(st, u) && u in st.calls ==> MayAccompany(cfg, st.calls[u]))
    && (forall u :: InProgress(st, u) && u in st.calls && st.calls[u].Cleanup? ==> MayAccompany(cfg, call))
  }

  /** A thread about to run the call. */
  function Starting(call: Call): Thread {
    var p := PointerOf(call);
    Thread(NOTHING, if p.Some? then p.value else 0, ScriptOf(call))
  }

  function Begin(st: State, t: Tid, call: Call): State {
    Put(st, t, Starting(call)).(calls := st.calls[t := call])
  }

  ghost predicate Possible(cfg: Setting, st: State, a: Action) {
    match a
    case Start(t, call) => MayStart(cfg, st, t, call)
    case Step(t, _) => CanStep(st, cfg.writerFirst, t)
  }

  ghost function Do(st: State, a: Action): State {
    match a
    case Start(t, call) => Begin(st, t, call)
    case Step(t, choice) => if t in st.threads then Exec(st, t, choice) else st
  }

  /** The state after the actions, if each is possible when its turn comes. */
  ghost function Run(cfg: Setting, st: State, actions: seq<Action>): Option<State>
    decreases |actions|
  {
    if actions == [] then Some(st)
    else if Possible(cfg, st, actions[0]) then Run(cfg, Do(st, actions[0]), actions[1..])
    else None
  }
}
