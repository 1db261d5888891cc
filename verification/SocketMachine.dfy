/**
 * The concurrent machine on which the calls of the socket interface run.
 *
 * Every call is a Script: the sequence of lock operations, registry accesses and
 * uses of the socket object that the call performs, with its branches.  Any number
 * of threads run scripts; one machine step executes the first instruction of one
 * thread's script.  Socket objects have fresh identities, so an address is never
 * reused.
 */
module SocketMachine {
  import opened Common

  type Sock = nat
  type Rec = nat
  type Tid = nat

  /** The two fields of a link that decide which device a socket belongs to, and whether its
      instrument is one for which an adapter can be made. */
  datatype Link = Link(linkID: string, mac: string, supported: bool)

  /** The mutexes of the two source files; ThisSocket is the one inside the socket at hand. */
  datatype Mutex = Deletion | ThisSocket | Creation | Recursive | Registry | Config | Ports

  /** How one thread holds a mutex. */
  datatype Mode = Free | Shared | Exclusive

  /** What one thread holds of each mutex; of the recursive one, how many times. */
  datatype Held = Held(deletion: Mode, socket: Mode, creation: Mode, recursive: nat,
                       registry: Mode, config: Mode, ports: Mode)
  {
    function Of(m: Mutex): Mode {
      match m
      case Deletion => deletion
      case ThisSocket => socket
      case Creation => creation
      case Recursive => if recursive > 0 then Exclusive else Free
      case Registry => registry
      case Config => config
      case Ports => ports
    }

    /** After taking m in the given mode, or after releasing it once. */
    function With(m: Mutex, mode: Mode): Held {
      match m
      case Deletion => this.(deletion := mode)
      case ThisSocket => this.(socket := mode)
      case Creation => this.(creation := mode)
      case Recursive => this.(recursive := if mode != Free then recursive + 1 else if recursive > 0 then recursive - 1
        else 0)
      case Registry => this.(registry := mode)
      case Config => this.(config := mode)
      case Ports => this.(ports := mode)
    }
  }

  const NOTHING: Held := Held(Free, Free, Free, 0, Free, Free, Free)

  /** A call in progress.  `bsock` below is the thread's pointer to the socket at hand. */
  datatype Script =
    | Return
    | Lock(m: Mutex, mode: Mode, next: Script)
    | Unlock(m: Mutex, next: Script)
      // is bsock in sockets_
    | IfListed(yes: Script, no: Script)
      // is there a config with a socket under this device id
    | IfIndexed(key: string, yes: Script, no: Script)
      // bsock := the socket of the config under this device id
    | LoadIndexed(key: string, found: Script, missing: Script)
      // copy the config found under bsock
    | CopyBySocket(next: Script)
      // copy the config found under the address of bsock's device
    | CopyByDevice(next: Script)
      // was a config found
    | IfCopied(found: Script, missing: Script)
      // UpdateConfig with the copy
    | WriteBack(next: Script)
      // a flag, an adapter outcome or any other datum the machine does not track
    | Branch(left: Script, right: Script)
      // bsock := new BratislavaSocket, with its link
    | NewSocket(link: Link, next: Script)
      // bsock->adapter := new adapter
    | NewAdapter(next: Script)
      // CreateConfig(bsock): the config under GetDeviceID(bsock) now names bsock
    | IndexSocket(next: Script)
      // sockets_.push_back(bsock)
    | ListSocket(next: Script)
      // bratislavaSocket(link) is about to return bsock
    | Returning(link: Link, next: Script)
      // reads bsock->adapter and calls one of its methods
    | UseAdapter(next: Script)
      // RemoveConfig(bsock): the config of bsock leaves both indexes and is deleted
    | UnindexSocket(next: Script)
      // sockets_.erase(bsock)
    | UnlistSocket(next: Script)
      // delete bsock->adapter
    | DeleteAdapter(next: Script)
      // delete bsock
    | DeleteSocket(next: Script)
      // the head of the loop in Cleanup: destroy sockets_.back(), or leave
    | NextVictim

  /** The fields of a config record that say whose it is. */
  datatype Record = Record(socket: Sock, device: string)

  /** `copy` is the config that a registry operation has read and may write back. */
  datatype Thread = Thread(held: Held, bsock: Sock, script: Script, copy: Option<Record> := None)

  /** The public calls, with pointer arguments that may be null. */
  datatype Call =
    | Open(link: Link)
    | Conn(p: Option<Sock>)
    | Send(p: Option<Sock>)
    | Recv(p: Option<Sock>)
    | LinkSend(link: Link)
    | LinkRecv(link: Link)
    | ConnTimeout(p: Option<Sock>)
    | RecvTimeout(p: Option<Sock>)
    | Disconnect(p: Option<Sock>)
    | Destroy(p: Option<Sock>)
    | Cleanup

  datatype State = State(
    threads: map<Tid, Thread>,
    calls: map<Tid, Call>,           // the call that each thread began last
    nextSock: Sock,                  // the next fresh socket identity
    alive: set<Sock>,                // allocated and not yet deleted
    adapters: set<Sock>,             // sockets whose adapter exists
    listed: set<Sock>,               // sockets_
    device: map<Sock, string>,       // GetDeviceID of every socket ever made
    nextRec: Rec,                    // the next fresh record identity
    records: map<Rec, Record>,       // every config record ever made, with its last contents
    freed: set<Rec>,                 // those that have been deleted
    byDevice: map<string, Rec>,      // device_id_to_config_
    bySocket: map<Sock, Rec>)        // sock_to_config_

  const INITIAL: State := State(map[], map[], 0, {}, {}, {}, map[], 0, map[], {}, map[], map[])

  /** A call is in progress until its script has returned. */
  predicate InProgress(st: State, t: Tid) {
    t in st.threads && st.threads[t].script != Return
  }

  // ---- locks -------------------------------------------------------------------

  /** The mutex m of thread u is the mutex m of a thread whose socket is b. */
  predicate SameMutex(u: Thread, m: Mutex, b: Sock) {
    m == ThisSocket ==> u.bsock == b
  }

  /** u's hold on m keeps another thread with socket b from taking m in the given mode. */
  predicate HoldsAgainst(u: Thread, m: Mutex, mode: Mode, b: Sock) {
    && SameMutex(u, m, b)
    && u.held.Of(m) != Free
    && !(u.held.Of(m) == Shared && mode == Shared)
  }

  predicate WaitsExclusively(u: Thread, m: Mutex, b: Sock) {
    u.script.Lock? && u.script.m == m && u.script.mode == Exclusive && SameMutex(u, m, b)
  }

  /** A mutex can be taken when no other hold forbids it, the recursive one also by the thread
      that holds it; a writer-first mutex also turns readers away while a writer waits. */
  ghost predicate Grantable(st: State, writerFirst: bool, t: Tid, m: Mutex, mode: Mode)
    requires t in st.threads
  {
    var b := st.threads[t].bsock;
    && (m == Recursive || st.threads[t].held.Of(m) == Free)
    && (forall u :: u in st.threads && u != t ==> !HoldsAgainst(st.threads[u], m, mode, b))
    && (writerFirst && mode == Shared ==>
          forall u :: u in st.threads && u != t ==> !WaitsExclusively(st.threads[u], m, b))
  }

  ghost predicate CanStep(st: State, writerFirst: bool, t: Tid) {
    && t in st.threads
    && var s := st.threads[t].script;
    && s != Return
    && (s.Lock? ==> Grantable(st, writerFirst, t, s.m, s.mode))
  }

  function Put(st: State, t: Tid, th: Thread): State {
    st.(threads := st.threads[t := th])
  }

  // ---- config records ------------------------------------------------------------

  /** UpdateConfigLocked: the record found under the socket, else the one under the device id. */
  function Target(st: State, c: Record): Option<Rec> {
    if c.socket in st.bySocket then Some(st.bySocket[c.socket])
    else if c.device in st.byDevice then Some(st.byDevice[c.device])
    else None
  }

  function Update(st: State, c: Record): State {
    var r := Target(st, c);
    if r.None? then st else st.(records := st.records[r.value := c])
  }

  /** CreateConfig(socket): a record found under the device id is shared, otherwise a new one made. */
  function CreateConfig(st: State, b: Sock): State {
    if b !in st.device then st
    else
      var c := Record(b, st.device[b]);
      if c.device in st.byDevice then Update(st, c).(bySocket := st.bySocket[b := st.byDevice[c.device]])
      else
        var r := st.nextRec;
        st.(nextRec := r + 1, records := st.records[r := c],
            bySocket := st.bySocket[b := r], byDevice := st.byDevice[c.device := r])
  }

  /** RemoveConfig(socket), with the device id that the record holds. */
  function RemoveConfig(st: State, b: Sock): State {
    if b !in st.bySocket then st
    else
      var r := st.bySocket[b];
      st.(byDevice := if r in st.records then st.byDevice - {st.records[r].device} else st.byDevice,
          bySocket := st.bySocket - {b}, freed := st.freed + {r})
  }

  // ---- what must never happen ----------------------------------------------------

  /** The next instruction reads or writes the socket object (or the mutex inside it). */
  predicate TouchesSocket(s: Script) {
    match s
    case Lock(m, _, _) => m == ThisSocket
    case Unlock(m, _) => m == ThisSocket
    case NewAdapter(_) => true
    case IndexSocket(_) => true
    case UseAdapter(_) => true
    case CopyByDevice(_) => true
    case DeleteAdapter(_) => true
    case DeleteSocket(_) => true
    case _ => false
  }

  /** The records that the next instruction reads, writes or deletes. */
  function TouchedRecords(st: State, th: Thread): set<Rec> {
    match th.script
    case IfIndexed(key, _, _) => if key in st.byDevice then {st.byDevice[key]} else {}
    case LoadIndexed(key, _, _) => if key in st.byDevice then {st.byDevice[key]} else {}
    case CopyBySocket(_) => if th.bsock in st.bySocket then {st.bySocket[th.bsock]} else {}
    case CopyByDevice(_) =>
      if th.bsock in st.device && st.device[th.bsock] in st.byDevice then {st.byDevice[st.device[th.bsock]]} else {}
    case WriteBack(_) =>
      if th.copy.Some? && Target(st, th.copy.value).Some? then {Target(st, th.copy.value).value} else {}
    case IndexSocket(_) =>
      if th.bsock in st.device && st.device[th.bsock] in st.byDevice then
        {st.byDevice[st.device[th.bsock]], Target(st, Record(th.bsock, st.device[th.bsock])).value}
      else {}
    case UnindexSocket(_) => if th.bsock in st.bySocket then {st.bySocket[th.bsock]} else {}
    case _ => {}
  }

  predicate TouchesAdapter(s: Script) {
    s.UseAdapter? || s.DeleteAdapter?
  }

  /** u holds, or waits for, the mutex inside socket b. */
  predicate HoldsOrAwaits(u: Thread, b: Sock) {
    && u.bsock == b
    && (u.held.socket != Free || (u.script.Lock? && u.script.m == ThisSocket))
  }

  /** The next instruction of t uses no deleted socket or adapter, and deletes no socket whose
      mutex a thread still holds or waits for. */
  ghost predicate SafeObjects(st: State, t: Tid)
    requires t in st.threads
  {
    var th := st.threads[t];
    && (TouchesSocket(th.script) ==> th.bsock in st.alive)
    && (TouchesAdapter(th.script) ==> th.bsock in st.adapters)
    && (th.script.DeleteSocket? ==>
          forall u :: u in st.threads ==> !HoldsOrAwaits(st.threads[u], th.bsock))
  }

  /** The next instruction of t reads, writes and deletes no deleted config record. */
  ghost predicate SafeRecords(st: State, t: Tid)
    requires t in st.threads
  {
    TouchedRecords(st, st.threads[t]) !! st.freed
  }

  ghost predicate Safe(st: State) {
    forall t :: t in st.threads ==> SafeObjects(st, t) && SafeRecords(st, t)
  }

  /** No two registered sockets belong to one device. */
  ghost predicate OneSocketPerDevice(st: State) {
    && st.listed <= st.device.Keys
    && forall s, s' | s in st.listed && s' in st.listed && st.device[s] == st.device[s'] :: s == s'
  }
}
