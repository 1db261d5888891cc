/**
 * The locking discipline of the socket interface, as a judgement on scripts.
 *
 * `Follows` says that a script, begun with the given locks and the given knowledge of
 * its socket, takes mutexes only in increasing rank, touches the socket only while
 * something keeps it alive, changes the registry only under the locks that guard it,
 * and ends with every lock released.  Every public call follows the discipline; Cleanup
 * does so up to the recursive mutex, which it holds throughout.
 */
module SocketDiscipline {
  import opened Common
  import opened SocketMachine
  import opened SocketScripts

  /** The order in which mutexes may be taken. */
  function Rank(m: Mutex): nat {
    match m
    case Deletion => 0
    case ThisSocket => 1
    case Creation => 2
    case Recursive => 3
    case Registry => 4
    case Config => 5
    case Ports => 6
  }

  /** One more than the highest rank held. */
  function Level(h: Held): nat {
    if h.ports != Free then 7
    else if h.config != Free then 6
    else if h.registry != Free then 5
    else if h.recursive > 0 then 4
    else if h.creation != Free then 3
    else if h.socket != Free then 2
    else if h.deletion != Free then 1
    else 0
  }

  /** What a thread knows of its socket, while the locks it holds keep that true. */
  datatype Phase =
    | Unknown
    | Absent(key: string)                 // no config under this key
    | Fresh(dev: string, clear: bool)     // allocated here, known to nobody else
    | Ready(dev: string, clear: bool)     // ... and its adapter exists
    | Indexed(dev: string)                // ... and its config is in both indexes
    | Listed(whose: Option<string>)       // registered
    | Holding(whose: Option<string>)      // registered, and its config has been looked up
    | Unmapped                            // still in sockets_, no longer in the indexes
    | Erased                              // in neither
    | AdapterGone                         // ... and its adapter is deleted
    | Over                                // no socket is registered at all

  /** `owner`: this thread destroys its socket.  `solo`: it runs Cleanup. */
  datatype View = View(owner: bool, phase: Phase, solo: bool := false)

  const BLANK: View := View(false, Unknown)
  const CLEANER: View := View(false, Unknown, true)
  const LEAVER: View := View(false, Over, true)

  /** What Cleanup holds at the head of its loop. */
  const CLEANING: Held := NOTHING.(recursive := 1)

  /** Cleanup takes the other mutexes in order, as if it did not hold the recursive one. */
  function LevelOf(v: View, h: Held): nat {
    Level(if v.solo then h.(recursive := 0) else h)
  }

  /** Only the thread holding the creation mutex can be in one of these phases. */
  predicate Private(p: Phase) {
    !p.Unknown? && !p.Listed? && !p.Holding? && !p.Over?
  }

  /** Something this thread has keeps a registered socket registered. */
  predicate KeepsListed(owner: bool, h: Held) {
    owner || h.deletion != Free || h.socket != Free
  }

  predicate CanUnlock(v: View, h: Held, m: Mutex) {
    && h.Of(m) != Free
    && (v.solo && m == Recursive ==> h.recursive > 1 || v == LEAVER)
    && match v.phase
       case Indexed(_) => m != Creation && m != Deletion && m != Recursive
       case Holding(_) => m == Registry || m == Config || m == Ports
       case Unmapped => m != Creation && m != Deletion && m != ThisSocket && m != Recursive
       case Erased => m != Creation && m != Deletion && m != ThisSocket
       case AdapterGone => m != Creation && m != Deletion
       case _ => true
  }

  /** Knowledge that survives when the locks shrink to h. */
  function AfterUnlock(v: View, h: Held): View {
    match v.phase
    case Absent(_) => if h.creation != Free && h.deletion != Free then v else v.(phase := Unknown)
    case Fresh(_, _) => if h.creation != Free then v else v.(phase := Unknown)
    case Ready(_, _) => if h.creation != Free then v else v.(phase := Unknown)
    case Listed(_) => if KeepsListed(v.owner, h) then v else v.(phase := Unknown)
    case Holding(whose) => if h.registry != Free then v else v.(phase := Listed(whose))
    case Over => if h.recursive > 0 then v else v.(phase := Unknown)
    case _ => v
  }

  predicate ExclusiveOnSocket(h: Held) {
    h.deletion == Exclusive && h.socket == Exclusive && h.creation == Exclusive
  }

  /** Cleanup does nothing before it has the recursive mutex. */
  predicate Inside(s: Script, h: Held, v: View) {
    v.solo ==> s == Return || h.recursive > 0 || (s.Lock? && s.m == Recursive && h == NOTHING)
  }

  /** With `strict`, a socket may be indexed only for a device known to have none. */
  predicate Follows(s: Script, h: Held, v: View, strict: bool)
    decreases s
  {
    && Inside(s, h, v)
    && match s
       case Return => h == NOTHING
       case NextVictim => h == CLEANING && v == CLEANER
       case Lock(m, mode, next) =>
         && mode != Free
         && LevelOf(v, h) <= Rank(m)
         && (m == ThisSocket ==> h.deletion != Free && v.phase.Listed?)
         && (m == Creation || m == Recursive ==> mode == Exclusive)
         && Follows(next, h.With(m, mode), v, strict)
       case Unlock(m, next) =>
         && CanUnlock(v, h, m)
         && Follows(next, h.With(m, Free), AfterUnlock(v, h.With(m, Free)), strict)
       case IfListed(yes, no) =>
         && h.recursive > 0 && h.deletion != Free
         && (v.phase.Listed? || (v.phase.Unknown? && !v.solo))
         && Follows(yes, h, SeenListed(v), strict)
         && (v.phase.Unknown? ==> Follows(no, h, v, strict))
       case IfIndexed(key, yes, no) =>
         && h.config != Free && h.deletion != Free && h.creation != Free && h.socket == Free
         && v == BLANK
         && Follows(yes, h, v, strict)
         && Follows(no, h, v.(phase := Absent(key)), strict)
       case LoadIndexed(key, found, missing) =>
         && h.config != Free && h.deletion != Free && h.creation != Free && h.socket == Free
         && v == BLANK
         && Follows(found, h, Loaded(v, key, strict), strict)
         && Follows(missing, h, v, strict)
       case CopyBySocket(next) =>
         && h.config != Free && h.registry != Free && v.phase.Listed?
         && Follows(next, h, Looked(v), strict)
       case CopyByDevice(next) =>
         && h.config != Free && h.registry != Free && v.phase.Listed?
         && Follows(next, h, Looked(v), strict)
       case IfCopied(found, missing) =>
         && v.phase.Holding?
         && Follows(found, h, v, strict) && Follows(missing, h, v, strict)
       case WriteBack(next) =>
         && h.config == Exclusive && h.registry == Exclusive && v.phase.Holding?
         && Follows(next, h, v, strict)
       case Branch(left, right) => Follows(left, h, v, strict) && Follows(right, h, v, strict)
       case NewSocket(link, next) =>
         && h.creation != Free && h.deletion != Free && h.socket == Free && !v.owner && !v.solo
         && v.phase.Absent?
         && Follows(next, h, v.(phase := Fresh(link.mac, v.phase.key == link.mac)), strict)
       case NewAdapter(next) =>
         && h.creation != Free && v.phase.Fresh?
         && Follows(next, h, v.(phase := Ready(v.phase.dev, v.phase.clear)), strict)
       case IndexSocket(next) =>
         && h.config == Exclusive && h.recursive > 0 && h.creation != Free && h.deletion != Free && v.phase.Ready?
         && (strict ==> v.phase.clear)
         && Follows(next, h, v.(phase := Indexed(v.phase.dev)), strict)
       case ListSocket(next) =>
         && h.recursive > 0 && h.creation != Free && h.deletion != Free && v.phase.Indexed?
         && Follows(next, h, v.(phase := Listed(Some(v.phase.dev))), strict)
       case Returning(link, next) =>
         && (strict ==> h.deletion != Free && v.phase.Listed? && v.phase.whose == Some(link.linkID))
         && Follows(next, h, v, strict)
       case UseAdapter(next) => v.phase.Listed? && Follows(next, h, v, strict)
       case UnindexSocket(next) =>
         && h.config == Exclusive && h.recursive > 0 && ExclusiveOnSocket(h) && v.owner && v.phase.Listed?
         && Follows(next, h, v.(phase := Unmapped), strict)
       case UnlistSocket(next) =>
         && h.recursive > 0 && ExclusiveOnSocket(h) && v.owner && v.phase.Unmapped?
         && Follows(next, h, v.(phase := Erased), strict)
       case DeleteAdapter(next) =>
         && ExclusiveOnSocket(h) && v.phase.Erased?
         && Follows(next, h, v.(phase := AdapterGone), strict)
       case DeleteSocket(next) =>
         && h.deletion == Exclusive && h.creation == Exclusive && h.socket == Free
         && v.phase.AdapterGone?
         && Follows(next, h, Done(v), strict)
  }

  function SeenListed(v: View): View {
    if v.phase.Listed? then v else v.(phase := Listed(None))
  }

  /** The socket that a config names is registered, if no config can name another one. */
  function Loaded(v: View, key: string, strict: bool): View {
    if strict then v.(phase := Listed(Some(key))) else v
  }

  function Looked(v: View): View
    requires v.phase.Listed?
  {
    v.(phase := Holding(v.phase.whose))
  }

  /** The socket is gone. */
  function Done(v: View): View {
    View(false, Unknown, v.solo)
  }

  // ---- one rule at a time -------------------------------------------------------------

  lemma {:induction false} TakeAndFree(h: Held, m: Mutex, mode: Mode)
    requires (m == Recursive || h.Of(m) == Free) && mode != Free && (m == Recursive ==> mode == Exclusive)
    ensures h.With(m, mode).With(m, Free) == h
    ensures h.With(m, mode).Of(m) == mode
  {
  }

  /** A cleaner works within the recursive mutex. */
  predicate Within(v: View, h: Held) {
    v.solo ==> h.recursive > 0
  }

  /** A thread that holds h locks m: the rest runs with m held. */
  lemma {:induction false} ByLock(m: Mutex, mode: Mode, next: Script, h: Held, v: View, strict: bool)
    requires mode != Free && LevelOf(v, h) <= Rank(m) && Within(v, h)
    requires m == ThisSocket ==> h.deletion != Free && v.phase.Listed?
    requires m == Creation || m == Recursive ==> mode == Exclusive
    requires Follows(next, h.With(m, mode), v, strict)
    ensures Follows(Lock(m, mode, next), h, v, strict)
  {
  }

  /** A thread that holds h and m unlocks m: the rest runs with h. */
  lemma {:induction false} ByUnlock(m: Mutex, mode: Mode, next: Script, h: Held, v: View, strict: bool)
    requires mode != Free && (m == Recursive ==> mode == Exclusive) && (m == Recursive || Within(v, h))
    requires (m == Recursive || h.Of(m) == Free) && CanUnlock(v, h.With(m, mode), m)
    requires Follows(next, h, AfterUnlock(v, h), strict)
    ensures Follows(Unlock(m, next), h.With(m, mode), v, strict)
  {
    TakeAndFree(h, m, mode);
  }

  lemma {:induction false} ByBranch(left: Script, right: Script, h: Held, v: View, strict: bool)
    requires Within(v, h) && Follows(left, h, v, strict) && Follows(right, h, v, strict)
    ensures Follows(Branch(left, right), h, v, strict)
  {
  }

  lemma {:induction false} ByUse(next: Script, h: Held, v: View, strict: bool)
    requires Within(v, h) && v.phase.Listed? && Follows(next, h, v, strict)
    ensures Follows(UseAdapter(next), h, v, strict)
  {
  }

  lemma {:induction false} ByListed(yes: Script, no: Script, h: Held, v: View, strict: bool)
    requires Within(v, h) && h.recursive > 0 && h.deletion != Free
    requires v.phase.Listed? || (v.phase.Unknown? && !v.solo)
    requires Follows(yes, h, SeenListed(v), strict) && (v.phase.Unknown? ==> Follows(no, h, v, strict))
    ensures Follows(IfListed(yes, no), h, v, strict)
  {
  }

  lemma {:induction false} ByReturn(v: View, strict: bool)
    ensures Follows(Return, NOTHING, v, strict)
  {
  }

  lemma {:induction false} ByCopy(next: Script, h: Held, v: View, strict: bool)
    requires Within(v, h) && h.config != Free && h.registry != Free && v.phase.Listed?
    requires Follows(next, h, Looked(v), strict)
    ensures Follows(CopyBySocket(next), h, v, strict) && Follows(CopyByDevice(next), h, v, strict)
  {
  }

  lemma {:induction false} ByCopied(found: Script, missing: Script, h: Held, v: View, strict: bool)
    requires Within(v, h) && v.phase.Holding?
    requires Follows(found, h, v, strict) && Follows(missing, h, v, strict)
    ensures Follows(IfCopied(found, missing), h, v, strict)
  {
  }

  lemma {:induction false} ByWriting(next: Script, h: Held, v: View, strict: bool)
    requires Within(v, h) && h.config == Exclusive && h.registry == Exclusive && v.phase.Holding?
    requires Follows(next, h, v, strict)
    ensures Follows(WriteBack(next), h, v, strict)
  {
  }

  // ---- the registry operations keep to the discipline -----------------------------------

  /** A thread with a registered socket that can enter the registry mutex. */
  predicate Entering(v: View, h: Held) {
    LevelOf(v, h) <= Rank(Registry) && v.phase.Listed? && KeepsListed(v.owner, h) && Within(v, h)
  }

  lemma {:induction false} FollowsGetConfig(key: Key, next: Script, h: Held, mode: Mode, v: View, strict: bool)
    requires Entering(v, h) && mode != Free && Follows(next, h.With(Registry, mode), Looked(v), strict)
    ensures Follows(GetConfig(key, next), h.With(Registry, mode), v, strict)
  {
    hide Follows;
    var h1 := h.With(Registry, mode);
    var h2 := h1.With(Config, Shared);
    ByUnlock(Config, Shared, next, h1, Looked(v), strict);
    ByCopy(Unlock(Config, next), h2, v, strict);
    ByLock(Config, Shared, CopyBySocket(Unlock(Config, next)), h1, v, strict);
    ByLock(Config, Shared, CopyByDevice(Unlock(Config, next)), h1, v, strict);
  }

  /** The end of an operation under the registry mutex, with or without a copy. */
  lemma {:induction false} FollowsLeave(next: Script, h: Held, mode: Mode, v: View, strict: bool)
    requires Entering(v, h) && mode != Free && Follows(next, h, v, strict)
    ensures Follows(Unlock(Registry, next), h.With(Registry, mode), v, strict)
    ensures Follows(Unlock(Registry, next), h.With(Registry, mode), Looked(v), strict)
  {
    hide Follows;
    ByUnlock(Registry, mode, next, h, v, strict);
    ByUnlock(Registry, mode, next, h, Looked(v), strict);
  }

  lemma {:induction false} FollowsRead(key: Key, next: Script, h: Held, v: View, strict: bool)
    requires Entering(v, h) && Follows(next, h, v, strict)
    ensures Follows(RegistryRead(key, next), h, v, strict)
  {
    hide Follows, GetConfig;
    FollowsLeave(next, h, Shared, v, strict);
    FollowsGetConfig(key, Unlock(Registry, next), h, Shared, v, strict);
    ByLock(Registry, Shared, GetConfig(key, Unlock(Registry, next)), h, v, strict);
  }

  lemma {:induction false} FollowsPutConfig(next: Script, h: Held, v: View, strict: bool)
    requires Entering(v, h) && Follows(next, h, v, strict)
    ensures Follows(PutConfig(next), h.With(Registry, Exclusive), Looked(v), strict)
  {
    hide Follows;
    var h1 := h.With(Registry, Exclusive);
    var h2 := h1.With(Config, Exclusive);
    var out := Unlock(Registry, next);
    FollowsLeave(next, h, Exclusive, v, strict);
    ByUnlock(Config, Exclusive, out, h1, Looked(v), strict);
    ByWriting(Unlock(Config, out), h2, Looked(v), strict);
    ByLock(Config, Exclusive, WriteBack(Unlock(Config, out)), h1, Looked(v), strict);
  }

  lemma {:induction false} FollowsReadThenUpdate(key: Key, next: Script, h: Held, v: View, strict: bool)
    requires Entering(v, h) && Follows(next, h, v, strict)
    ensures Follows(ReadThenUpdate(key, next), h.With(Registry, Exclusive), v, strict)
  {
    hide Follows, GetConfig, PutConfig;
    FollowsLeave(next, h, Exclusive, v, strict);
    FollowsPutConfig(next, h, v, strict);
    ByCopied(PutConfig(next), Unlock(Registry, next), h.With(Registry, Exclusive), Looked(v), strict);
    FollowsGetConfig(key, IfCopied(PutConfig(next), Unlock(Registry, next)), h, Exclusive, v, strict);
  }

  lemma {:induction false} FollowsUpdate(next: Script, h: Held, v: View, strict: bool)
    requires Entering(v, h) && Follows(next, h, v, strict)
    ensures Follows(RegistryUpdate(next), h, v, strict)
  {
    hide Follows, ReadThenUpdate;
    FollowsReadThenUpdate(BySocket, next, h, v, strict);
    ByLock(Registry, Exclusive, ReadThenUpdate(BySocket, next), h, v, strict);
  }

  lemma {:induction false} FollowsAddLocalPort(next: Script, h: Held, v: View, strict: bool)
    requires Entering(v, h) && Follows(next, h, v, strict)
    ensures Follows(RegistryAddLocalPort(next), h, v, strict)
  {
    hide Follows, ReadThenUpdate;
    FollowsReadThenUpdate(ByDevice, next, h, v, strict);
    FollowsLeave(next, h, Exclusive, v, strict);
    var h1 := h.With(Registry, Exclusive);
    var rest := Branch(Unlock(Registry, next), ReadThenUpdate(ByDevice, next));
    ByBranch(Unlock(Registry, next), ReadThenUpdate(ByDevice, next), h1, v, strict);
    ByUnlock(Ports, Exclusive, rest, h1, v, strict);
    ByLock(Ports, Exclusive, Unlock(Ports, rest), h1, v, strict);
    ByLock(Registry, Exclusive, Lock(Ports, Exclusive, Unlock(Ports, rest)), h, v, strict);
  }

  lemma {:induction false} FollowsReleaseLocalPort(next: Script, h: Held, v: View, strict: bool)
    requires Entering(v, h) && Follows(next, h, v, strict)
    ensures Follows(RegistryReleaseLocalPort(next), h, v, strict)
  {
    hide Follows, GetConfig;
    var h1 := h.With(Registry, Exclusive);
    var out := Unlock(Registry, next);
    FollowsLeave(next, h, Exclusive, v, strict);
    ByUnlock(Ports, Exclusive, out, h1, Looked(v), strict);
    ByLock(Ports, Exclusive, Unlock(Ports, out), h1, Looked(v), strict);
    ByBranch(out, Lock(Ports, Exclusive, Unlock(Ports, out)), h1, Looked(v), strict);
    ByCopied(PutPort(next), out, h1, Looked(v), strict);
    FollowsGetConfig(BySocket, IfCopied(PutPort(next), out), h, Exclusive, v, strict);
    ByLock(Registry, Exclusive, GetConfig(BySocket, IfCopied(PutPort(next), out)), h, v, strict);
  }

  lemma {:induction false} FollowsExists(yes: Script, no: Script, h: Held, v: View, strict: bool)
    requires LevelOf(v, h) <= Rank(Recursive) && h.deletion != Free && Within(v, h)
    requires (v.phase.Unknown? && !v.solo) || (v.phase.Listed? && KeepsListed(v.owner, h))
    requires Follows(yes, h, SeenListed(v), strict) && (v.phase.Unknown? ==> Follows(no, h, v, strict))
    ensures Follows(RegistryExists(yes, no), h, v, strict)
  {
    hide Follows;
    var h1 := h.With(Recursive, Exclusive);
    ByUnlock(Recursive, Exclusive, yes, h, SeenListed(v), strict);
    if v.phase.Unknown? {
      ByUnlock(Recursive, Exclusive, no, h, v, strict);
    }
    ByListed(Unlock(Recursive, yes), Unlock(Recursive, no), h1, v, strict);
    ByLock(Recursive, Exclusive, IfListed(Unlock(Recursive, yes), Unlock(Recursive, no)), h, v, strict);
  }

  lemma {:induction false} ByIndexed(key: string, yes: Script, no: Script, h: Held, strict: bool)
    requires h.config != Free && h.deletion != Free && h.creation != Free && h.socket == Free
    requires Follows(yes, h, BLANK, strict) && Follows(no, h, View(false, Absent(key)), strict)
    ensures Follows(IfIndexed(key, yes, no), h, BLANK, strict)
  {
  }

  lemma {:induction false} FollowsExistsDevice(key: string, yes: Script, no: Script, h: Held, strict: bool)
    requires Level(h) <= Rank(Recursive) && h.deletion != Free && h.creation != Free && h.socket == Free
    requires Follows(yes, h, BLANK, strict) && Follows(no, h, View(false, Absent(key)), strict)
    ensures Follows(RegistryExistsDevice(key, yes, no), h, BLANK, strict)
  {
    hide Follows;
    var h1 := h.With(Recursive, Exclusive);
    var h2 := h1.With(Config, Shared);
    var v := View(false, Absent(key));
    ByUnlock(Recursive, Exclusive, yes, h, BLANK, strict);
    ByUnlock(Recursive, Exclusive, no, h, v, strict);
    ByUnlock(Config, Shared, Unlock(Recursive, yes), h1, BLANK, strict);
    ByUnlock(Config, Shared, Unlock(Recursive, no), h1, v, strict);
    var y, n := Unlock(Config, Unlock(Recursive, yes)), Unlock(Config, Unlock(Recursive, no));
    ByIndexed(key, y, n, h2, strict);
    ByLock(Config, Shared, IfIndexed(key, y, n), h1, BLANK, strict);
    ByLock(Recursive, Exclusive, Lock(Config, Shared, IfIndexed(key, y, n)), h, BLANK, strict);
  }

  lemma {:induction false} ByRegistering(next: Script, h: Held, dev: string, clear: bool, strict: bool)
    requires h.recursive > 0 && h.creation != Free && h.deletion != Free && (strict ==> clear)
    ensures Follows(next, h, View(false, Listed(Some(dev))), strict)
            ==> Follows(ListSocket(next), h, View(false, Indexed(dev)), strict)
    ensures h.config == Exclusive && Follows(next, h, View(false, Indexed(dev)), strict)
            ==> Follows(IndexSocket(next), h, View(false, Ready(dev, clear)), strict)
  {
  }

  lemma {:induction false} FollowsAdd(next: Script, h: Held, dev: string, clear: bool, strict: bool)
    requires Level(h) <= Rank(Recursive) && h.deletion != Free && h.creation != Free
    requires strict ==> clear
    requires Follows(next, h, View(false, Listed(Some(dev))), strict)
    ensures Follows(RegistryAdd(next), h, View(false, Ready(dev, clear)), strict)
  {
    hide Follows;
    var h1 := h.With(Recursive, Exclusive);
    var h2 := h1.With(Config, Exclusive);
    var list := ListSocket(Unlock(Recursive, next));
    ByUnlock(Recursive, Exclusive, next, h, View(false, Listed(Some(dev))), strict);
    ByRegistering(Unlock(Recursive, next), h1, dev, clear, strict);
    ByUnlock(Config, Exclusive, list, h1, View(false, Indexed(dev)), strict);
    ByRegistering(Unlock(Config, list), h2, dev, clear, strict);
    var v := View(false, Ready(dev, clear));
    ByLock(Config, Exclusive, IndexSocket(Unlock(Config, list)), h1, v, strict);
    ByLock(Recursive, Exclusive, Lock(Config, Exclusive, IndexSocket(Unlock(Config, list))), h, v, strict);
  }

  lemma {:induction false} ByErasing(next: Script, h: Held, v: View, strict: bool)
    requires h.recursive > 0 && ExclusiveOnSocket(h) && v.owner
    ensures v.phase.Unmapped? && Follows(next, h, v.(phase := Erased), strict)
            ==> Follows(UnlistSocket(next), h, v, strict)
    ensures v.phase.Listed? && h.config == Exclusive && Follows(next, h, v.(phase := Unmapped), strict)
            ==> Follows(UnindexSocket(next), h, v, strict)
  {
  }

  lemma {:induction false} FollowsEraseSocket(next: Script, h: Held, v: View, strict: bool)
    requires LevelOf(v, h) <= Rank(Recursive) && ExclusiveOnSocket(h) && v.owner && v.phase.Listed? && Within(v, h)
    requires Follows(next, h, v.(phase := Erased), strict)
    ensures Follows(EraseSocket(next), h.With(Recursive, Exclusive), v, strict)
  {
    hide Follows;
    var h1 := h.With(Recursive, Exclusive);
    var h2 := h1.With(Config, Exclusive);
    var unlist := UnlistSocket(Unlock(Recursive, next));
    ByUnlock(Recursive, Exclusive, next, h, v.(phase := Erased), strict);
    ByErasing(Unlock(Recursive, next), h1, v.(phase := Unmapped), strict);
    ByUnlock(Config, Exclusive, unlist, h1, v.(phase := Unmapped), strict);
    ByErasing(Unlock(Config, unlist), h2, v, strict);
    ByLock(Config, Exclusive, UnindexSocket(Unlock(Config, unlist)), h1, v, strict);
  }

  /** The socket is registered, so that Remove finds it. */
  lemma {:induction false} FollowsRemove(yes: Script, no: Script, h: Held, v: View, strict: bool)
    requires LevelOf(v, h) <= Rank(Recursive) && ExclusiveOnSocket(h) && v.owner && v.phase.Listed? && Within(v, h)
    requires Follows(yes, h, v.(phase := Erased), strict)
    ensures Follows(RegistryRemove(yes, no), h, v, strict)
  {
    hide Follows;
    var h1 := h.With(Recursive, Exclusive);
    FollowsEraseSocket(yes, h, v, strict);
    FollowsUpdate(EraseSocket(yes), h1, v, strict);
    FollowsReleaseLocalPort(RegistryUpdate(EraseSocket(yes)), h1, v, strict);
    var y := RegistryReleaseLocalPort(RegistryUpdate(EraseSocket(yes)));
    ByListed(y, Unlock(Recursive, no), h1, v, strict);
    ByLock(Recursive, Exclusive, IfListed(y, Unlock(Recursive, no)), h, v, strict);
  }

  // ---- the calls keep to the discipline ---------------------------------------------

  lemma {:induction false} FollowsAdapterConnEnd(ok: Script, failed: Script, h: Held, v: View, strict: bool)
    requires Entering(v, h) && Follows(ok, h, v, strict) && Follows(failed, h, v, strict)
    ensures Follows(AdapterConnEnd(ok, failed), h, v, strict)
  {
    hide Follows, RegistryUpdate;
    ByUse(ok, h, v, strict);
    FollowsUpdate(UseAdapter(ok), h, v, strict);
    ByBranch(failed, RegistryUpdate(UseAdapter(ok)), h, v, strict);
    ByUse(Branch(failed, RegistryUpdate(UseAdapter(ok))), h, v, strict);
  }

  lemma {:induction false} FollowsAdapterConn(ok: Script, failed: Script, h: Held, v: View, strict: bool)
    requires Entering(v, h) && Follows(ok, h, v, strict) && Follows(failed, h, v, strict)
    ensures Follows(AdapterConn(ok, failed), h, v, strict)
  {
    hide Follows, RegistryRead, RegistryAddLocalPort, AdapterConnEnd;
    var end := AdapterConnEnd(ok, failed);
    FollowsAdapterConnEnd(ok, failed, h, v, strict);
    FollowsRead(ByDevice, end, h, v, strict);
    FollowsRead(ByDevice, RegistryRead(ByDevice, end), h, v, strict);
    FollowsAddLocalPort(RegistryRead(ByDevice, end), h, v, strict);
    var router, client := RegistryRead(ByDevice, RegistryRead(ByDevice, end)),
      RegistryAddLocalPort(RegistryRead(ByDevice, end));
    ByBranch(router, client, h, v, strict);
    ByBranch(end, Branch(router, client), h, v, strict);
    ByUse(Branch(end, Branch(router, client)), h, v, strict);
  }

  lemma {:induction false} FollowsAdapterIO(next: Script, h: Held, v: View, strict: bool)
    requires Entering(v, h) && Follows(next, h, v, strict)
    ensures Follows(AdapterIO(next), h, v, strict)
  {
    hide Follows, RegistryRead;
    ByUse(next, h, v, strict);
    FollowsRead(BySocket, UseAdapter(next), h, v, strict);
    ByUse(RegistryRead(BySocket, UseAdapter(next)), h, v, strict);
  }

  const SEEN: View := View(false, Listed(None))
  const IN_CREATION: Held := NOTHING.(deletion := Shared, creation := Exclusive)

  function Pinned(mode: Mode): Held {
    NOTHING.(socket := mode)
  }

  lemma {:induction false} FollowsPin(mode: Mode, pinned: Script, gone: Script, strict: bool)
    requires mode != Free
    requires Follows(pinned, Pinned(mode), SEEN, strict)
    requires Follows(gone, NOTHING, BLANK, strict)
    ensures Follows(Pin(mode, pinned, gone), NOTHING, BLANK, strict)
  {
    hide Follows;
    var h := NOTHING.With(Deletion, Shared);
    ByUnlock(Deletion, Shared, gone, NOTHING, BLANK, strict);
    ByUnlock(Deletion, Shared, pinned, Pinned(mode), SEEN, strict);
    assert Pinned(mode).With(Deletion, Shared) == h.With(ThisSocket, mode);
    var yes, no := Lock(ThisSocket, mode, Unlock(Deletion, pinned)), Unlock(Deletion, gone);
    ByLock(ThisSocket, mode, Unlock(Deletion, pinned), h, SEEN, strict);
    FollowsExists(yes, no, h, BLANK, strict);
    ByLock(Deletion, Shared, RegistryExists(yes, no), NOTHING, BLANK, strict);
  }

  lemma {:induction false} FollowsUnpin(next: Script, mode: Mode, strict: bool)
    requires mode != Free && Follows(next, NOTHING, BLANK, strict)
    ensures Follows(Unpin(next), Pinned(mode), SEEN, strict)
  {
    hide Follows;
    ByUnlock(ThisSocket, mode, next, NOTHING, SEEN, strict);
  }

  lemma {:induction false} FollowsConn(ok: Script, failed: Script, strict: bool)
    requires Follows(ok, NOTHING, BLANK, strict) && Follows(failed, NOTHING, BLANK, strict)
    ensures Follows(ConnScript(ok, failed), NOTHING, BLANK, strict)
  {
    hide Follows, AdapterConn, RegistryRead, Pin;
    var h := Pinned(Exclusive);
    FollowsUnpin(ok, Exclusive, strict);
    FollowsUnpin(failed, Exclusive, strict);
    FollowsAdapterConn(Unpin(ok), Unpin(failed), h, SEEN, strict);
    var connect := AdapterConn(Unpin(ok), Unpin(failed));
    ByBranch(Unpin(ok), connect, h, SEEN, strict);
    FollowsRead(BySocket, Branch(Unpin(ok), connect), h, SEEN, strict);
    FollowsPin(Exclusive, RegistryRead(BySocket, Branch(Unpin(ok), connect)), failed, strict);
  }

  function PinnedIO(): Script {
    Pin(Shared, AdapterIO(Unpin(Return)), Return)
  }

  lemma {:induction false} FollowsTransfer(strict: bool)
    ensures Follows(TransferScript(), NOTHING, BLANK, strict)
    ensures Follows(PinnedIO(), NOTHING, BLANK, strict)
  {
    hide Follows, AdapterIO, RegistryRead, Pin;
    var h := Pinned(Shared);
    ByReturn(BLANK, strict);
    FollowsUnpin(Return, Shared, strict);
    FollowsAdapterIO(Unpin(Return), h, SEEN, strict);
    FollowsPin(Shared, AdapterIO(Unpin(Return)), Return, strict);
    ByBranch(Unpin(Return), AdapterIO(Unpin(Return)), h, SEEN, strict);
    var body := Branch(Unpin(Return), AdapterIO(Unpin(Return)));
    FollowsRead(BySocket, body, h, SEEN, strict);
    FollowsPin(Shared, RegistryRead(BySocket, body), Return, strict);
  }

  lemma {:induction false} FollowsTimeoutAndDisconnect(strict: bool)
    ensures Follows(TimeoutScript(), NOTHING, BLANK, strict)
    ensures Follows(DisconnectScript(), NOTHING, BLANK, strict)
  {
    hide Follows, RegistryUpdate, Pin;
    var h := Pinned(Shared);
    ByReturn(BLANK, strict);
    FollowsUnpin(Return, Shared, strict);
    ByUse(Unpin(Return), h, SEEN, strict);
    FollowsPin(Shared, UseAdapter(Unpin(Return)), Return, strict);
    var body := Branch(UseAdapter(Unpin(Return)), Unpin(Return));
    ByBranch(UseAdapter(Unpin(Return)), Unpin(Return), h, SEEN, strict);
    FollowsUpdate(body, h, SEEN, strict);
    FollowsPin(Shared, RegistryUpdate(body), Return, strict);
  }

  lemma {:induction false} FollowsLeaveOpen(next: Script, v: View, strict: bool)
    requires !v.owner && !v.solo && (v.phase.Unknown? || v.phase.Listed? || v.phase.Fresh?)
    requires Follows(next, NOTHING, BLANK, strict)
    ensures Follows(LeaveOpen(next), IN_CREATION, v, strict)
  {
    hide Follows;
    var h := NOTHING.With(Deletion, Shared);
    ByUnlock(Deletion, Shared, next, NOTHING, AfterUnlock(v, h), strict);
    ByUnlock(Creation, Exclusive, Unlock(Deletion, next), h, v, strict);
    assert h.With(Creation, Exclusive) == IN_CREATION;
  }

  lemma {:induction false} ByReturning(link: Link, next: Script, h: Held, v: View, strict: bool)
    requires strict ==> h.deletion != Free && v.phase.Listed? && v.phase.whose == Some(link.linkID)
    requires !v.solo && Follows(next, h, v, strict)
    ensures Follows(Returning(link, next), h, v, strict)
  {
  }

  lemma {:induction false} ByLoad(key: string, found: Script, missing: Script, h: Held, strict: bool)
    requires h.config != Free && h.deletion != Free && h.creation != Free && h.socket == Free
    requires Follows(found, h, Loaded(BLANK, key, strict), strict) && Follows(missing, h, BLANK, strict)
    ensures Follows(LoadIndexed(key, found, missing), h, BLANK, strict)
  {
  }

  /** The branch of bratislavaSocket that returns a registered socket. */
  lemma {:induction false} FollowsFound(link: Link, got: Script, none: Script, strict: bool)
    requires Follows(got, NOTHING, BLANK, strict) && Follows(none, NOTHING, BLANK, strict)
    ensures Follows(
      Lock(Config, Shared, LoadIndexed(link.linkID,
        Unlock(Config, Returning(link, LeaveOpen(got))),
        Unlock(Config, LeaveOpen(none)))),
      IN_CREATION, BLANK, strict)
  {
    hide Follows;
    var key, h, hc := link.linkID, IN_CREATION, IN_CREATION.With(Config, Shared);
    var seen := Loaded(BLANK, key, strict);
    FollowsLeaveOpen(got, seen, strict);
    FollowsLeaveOpen(none, BLANK, strict);
    ByReturning(link, LeaveOpen(got), h, seen, strict);
    ByUnlock(Config, Shared, Returning(link, LeaveOpen(got)), h, seen, strict);
    ByUnlock(Config, Shared, LeaveOpen(none), h, BLANK, strict);
    var found, missing := Unlock(Config, Returning(link, LeaveOpen(got))), Unlock(Config, LeaveOpen(none));
    ByLoad(key, found, missing, hc, strict);
    ByLock(Config, Shared, LoadIndexed(key, found, missing), h, BLANK, strict);
  }

  lemma {:induction false} ByMaking(link: Link, key: string, next: Script, h: Held, strict: bool)
    requires h.creation != Free && h.deletion != Free && h.socket == Free
    ensures Follows(next, h, View(false, Fresh(link.mac, key == link.mac)), strict)
            ==> Follows(NewSocket(link, next), h, View(false, Absent(key)), strict)
    ensures Follows(next, h, View(false, Ready(link.mac, key == link.mac)), strict)
            ==> Follows(NewAdapter(next), h, View(false, Fresh(link.mac, key == link.mac)), strict)
  {
  }

  /** The branch of bratislavaSocket that makes a socket. */
  lemma {:induction false} FollowsMade(link: Link, got: Script, none: Script, strict: bool)
    requires strict && link.supported ==> link.linkID == link.mac
    requires Follows(got, NOTHING, BLANK, strict) && Follows(none, NOTHING, BLANK, strict)
    ensures Follows(MakeNew(link, got, none), IN_CREATION, View(false, Absent(link.linkID)), strict)
  {
    hide Follows;
    var key, h, clear := link.linkID, IN_CREATION, link.linkID == link.mac;
    var made := View(false, Listed(Some(link.mac)));
    var newborn := View(false, Fresh(link.mac, clear));
    if link.supported {
      FollowsLeaveOpen(got, made, strict);
      ByReturning(link, LeaveOpen(got), h, made, strict);
      FollowsAdd(Returning(link, LeaveOpen(got)), h, link.mac, clear, strict);
      ByMaking(link, key, RegistryAdd(Returning(link, LeaveOpen(got))), h, strict);
      ByMaking(link, key, RegisterNew(link, got), h, strict);
    } else {
      FollowsLeaveOpen(none, newborn, strict);
      ByMaking(link, key, LeaveOpen(none), h, strict);
    }
  }

  lemma {:induction false} FollowsOpen(link: Link, got: Script, none: Script, strict: bool)
    requires strict && link.supported ==> link.linkID == link.mac
    requires Follows(got, NOTHING, BLANK, strict) && Follows(none, NOTHING, BLANK, strict)
    ensures Follows(OpenScript(link, got, none), NOTHING, BLANK, strict)
  {
    hide Follows;
    FollowsFound(link, got, none, strict);
    FollowsMade(link, got, none, strict);
    var found := Lock(Config, Shared, LoadIndexed(link.linkID,
      Unlock(Config, Returning(link, LeaveOpen(got))), Unlock(Config, LeaveOpen(none))));
    var made := MakeNew(link, got, none);
    FollowsExistsDevice(link.linkID, found, made, IN_CREATION, strict);
    var h := NOTHING.With(Deletion, Shared);
    var rest := RegistryExistsDevice(link.linkID, found, made);
    assert h.With(Creation, Exclusive) == IN_CREATION;
    ByLock(Creation, Exclusive, rest, h, BLANK, strict);
    ByLock(Deletion, Shared, Lock(Creation, Exclusive, rest), NOTHING, BLANK, strict);
  }

  // ---- bratislavaDestroy, called by a client or by Cleanup ----------------------------

  /** What the caller holds around the call. */
  function Around(solo: bool): Held {
    if solo then CLEANING else NOTHING
  }

  function Doomed(solo: bool): View {
    View(true, Listed(None), solo)
  }

  function InDestroy(solo: bool): Held {
    Around(solo).(deletion := Exclusive, socket := Exclusive, creation := Exclusive)
  }

  lemma {:induction false} ByDeleting(next: Script, h: Held, v: View, strict: bool)
    requires h.deletion == Exclusive && h.creation == Exclusive && Within(v, h)
    ensures v.phase.AdapterGone? && h.socket == Free && Follows(next, h, Done(v), strict)
            ==> Follows(DeleteSocket(next), h, v, strict)
    ensures v.phase.Erased? && h.socket == Exclusive && Follows(next, h, v.(phase := AdapterGone), strict)
            ==> Follows(DeleteAdapter(next), h, v, strict)
  {
  }

  lemma {:induction false} FollowsDeleteObjects(next: Script, solo: bool, strict: bool)
    requires Follows(next, Around(solo), View(false, Unknown, solo), strict)
    ensures Follows(DeleteObjects(next), InDestroy(solo), View(true, Erased, solo), strict)
  {
    hide Follows;
    var h1 := Around(solo).With(Deletion, Exclusive);
    var h2 := h1.With(Creation, Exclusive);
    var done := View(false, Unknown, solo);
    ByUnlock(Deletion, Exclusive, next, Around(solo), done, strict);
    ByUnlock(Creation, Exclusive, Unlock(Deletion, next), h1, done, strict);
    var del := DeleteSocket(Unlock(Creation, Unlock(Deletion, next)));
    ByDeleting(Unlock(Creation, Unlock(Deletion, next)), h2, View(true, AdapterGone, solo), strict);
    ByUnlock(ThisSocket, Exclusive, del, h2, View(true, AdapterGone, solo), strict);
    assert h2.With(ThisSocket, Exclusive) == InDestroy(solo);
    ByDeleting(Unlock(ThisSocket, del), InDestroy(solo), View(true, Erased, solo), strict);
  }

  /** Only one call destroys the socket, so that the second look at sockets_ finds it. */
  lemma {:induction false} FollowsDrainAndDelete(next: Script, solo: bool, strict: bool)
    requires Follows(next, Around(solo), View(false, Unknown, solo), strict)
    ensures Follows(DrainAndDelete(next), Around(solo), Doomed(solo), strict)
  {
    hide Follows, DeleteObjects, LeaveDestroy;
    var v := Doomed(solo);
    var h1 := Around(solo).With(Deletion, Exclusive);
    var h2 := h1.With(ThisSocket, Exclusive);
    FollowsDeleteObjects(next, solo, strict);
    var remove := RegistryRemove(DeleteObjects(next), LeaveDestroy(next));
    FollowsRemove(DeleteObjects(next), LeaveDestroy(next), InDestroy(solo), v, strict);
    FollowsExists(remove, LeaveDestroy(next), InDestroy(solo), v, strict);
    var rest := AfterDraining(next);
    assert h2.With(Creation, Exclusive) == InDestroy(solo);
    ByLock(Creation, Exclusive, rest, h2, v, strict);
    ByLock(ThisSocket, Exclusive, Lock(Creation, Exclusive, rest), h1, v, strict);
    ByLock(Deletion, Exclusive, Lock(ThisSocket, Exclusive, Lock(Creation, Exclusive, rest)), Around(solo), v, strict);
  }

  lemma {:induction false} FollowsDestroy(next: Script, v: View, strict: bool)
    requires v == View(true, Unknown) || v == Doomed(v.solo)
    requires Follows(next, Around(v.solo), Done(v), strict)
    requires v.phase.Unknown? ==> Follows(next, Around(v.solo), v, strict)
    ensures Follows(DestroyScript(next), Around(v.solo), v, strict)
  {
    hide Follows, DrainAndDelete;
    var h0, d := Around(v.solo), Doomed(v.solo);
    var h := h0.With(Deletion, Shared);
    FollowsDrainAndDelete(next, v.solo, strict);
    ByUnlock(Deletion, Shared, DrainAndDelete(next), h0, d, strict);
    if v.phase.Unknown? {
      ByUnlock(Deletion, Shared, next, h0, v, strict);
    }
    var yes := UseAdapter(Unlock(Deletion, DrainAndDelete(next)));
    ByUse(Unlock(Deletion, DrainAndDelete(next)), h, d, strict);
    FollowsExists(yes, Unlock(Deletion, next), h, v, strict);
    ByLock(Deletion, Shared, RegistryExists(yes, Unlock(Deletion, next)), h0, v, strict);
  }

  // ---- Cleanup ---------------------------------------------------------------------------

  lemma {:induction false} ByLoop(strict: bool)
    ensures Follows(NextVictim, CLEANING, CLEANER, strict)
  {
    hide DestroyScript;
  }

  lemma {:induction false} ByEntering(next: Script, strict: bool)
    requires Follows(next, CLEANING, CLEANER, strict)
    ensures Follows(Lock(Recursive, Exclusive, next), NOTHING, CLEANER, strict)
  {
    hide DestroyScript;
    assert NOTHING.With(Recursive, Exclusive) == CLEANING;
  }

  lemma {:induction false} FollowsCleanup(strict: bool)
    ensures Follows(CleanupScript(), NOTHING, CLEANER, strict)
    ensures Follows(Unlock(Recursive, Return), CLEANING, LEAVER, strict)
    ensures Follows(DestroyScript(NextVictim), CLEANING, Doomed(true), strict)
  {
    hide Follows, DestroyScript;
    ByLoop(strict);
    ByEntering(NextVictim, strict);
    ByReturn(CLEANER, strict);
    ByUnlock(Recursive, Exclusive, Return, NOTHING, LEAVER, strict);
    assert NOTHING.With(Recursive, Exclusive) == CLEANING;
    FollowsDestroy(NextVictim, Doomed(true), strict);
  }

  // ---- every call --------------------------------------------------------------------------

  /** What a thread knows when the call begins. */
  function InitialView(call: Call): View {
    View(call.Destroy? && call.p.Some?, Unknown, call.Cleanup?)
  }

  /** Every public call follows the discipline; the strict form needs links whose id is
      the address their config is kept under. */
  lemma {:induction false} EveryCallFollows(call: Call, strict: bool)
    requires strict && LinkOf(call).Some? && LinkOf(call).value.supported ==>
      LinkOf(call).value.linkID == LinkOf(call).value.mac
    ensures Follows(ScriptOf(call), NOTHING, InitialView(call), strict)
  {
    hide Follows, ConnScript, OpenScript, TransferScript, TimeoutScript, DisconnectScript, DestroyScript,
         LinkTransferScript,
         CleanupScript;
    ByReturn(BLANK, strict);
    ByReturn(View(true, Unknown), strict);
    FollowsTransfer(strict);
    FollowsTimeoutAndDisconnect(strict);
    FollowsDestroy(Return, View(true, Unknown), strict);
    FollowsCleanup(strict);
    FollowsConn(Return, Return, strict);
    if LinkOf(call).Some? {
      LinkCallFollows(LinkOf(call).value, strict);
    }
  }

  lemma {:induction false} LinkCallFollows(link: Link, strict: bool)
    requires strict && link.supported ==> link.linkID == link.mac
    ensures Follows(OpenScript(link, Return, Return), NOTHING, BLANK, strict)
    ensures Follows(LinkTransferScript(link), NOTHING, BLANK, strict)
  {
    hide Follows, ConnScript, OpenScript;
    ByReturn(BLANK, strict);
    FollowsTransfer(strict);
    FollowsConn(PinnedIO(), Return, strict);
    FollowsOpen(link, Return, Return, strict);
    FollowsOpen(link, ConnScript(PinnedIO(), Return), Return, strict);
  }
}
