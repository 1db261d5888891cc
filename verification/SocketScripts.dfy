/**
 * The scripts of the socket interface, branch by branch as BratislavaSocket.cc runs
 * them, and of the registry operations they call, lock by lock.
 */
module SocketScripts {
  import opened Common
  import opened SocketMachine

  // ---- registry operations, each followed by the script `next` ---------------------

  /** How an operation looks its config up. */
  datatype Key = BySocket | ByDevice

  /** GetConfig, under a shared config mutex. */
  function GetConfig(key: Key, next: Script): Script {
    Lock(Config, Shared, match key
                         case BySocket => CopyBySocket(Unlock(Config, next))
                         case ByDevice => CopyByDevice(Unlock(Config, next)))
  }

  /** IsConnected(socket); GetLocalPort and GetRemotePort of a device. */
  function RegistryRead(key: Key, next: Script): Script {
    Lock(Registry, Shared, GetConfig(key, Unlock(Registry, next)))
  }

  /** UpdateConfig with the copy, then the end of the operation. */
  function PutConfig(next: Script): Script {
    Lock(Config, Exclusive, WriteBack(Unlock(Config, Unlock(Registry, next))))
  }

  /** GetConfig, then UpdateConfig unless nothing was found; the registry mutex is held. */
  function ReadThenUpdate(key: Key, next: Script): Script {
    GetConfig(key, IfCopied(PutConfig(next), Unlock(Registry, next)))
  }

  /** Connect and Disconnect of a socket. */
  function RegistryUpdate(next: Script): Script {
    Lock(Registry, Exclusive, ReadThenUpdate(BySocket, next))
  }

  /** AddLocalPort of a device: take a port from the pool, then record it if there was one. */
  function RegistryAddLocalPort(next: Script): Script {
    Lock(Registry, Exclusive, Lock(Ports, Exclusive, Unlock(Ports, Branch(
      Unlock(Registry, next),
      ReadThenUpdate(ByDevice, next)))))
  }

  /** The port goes back to the pool, if there is one. */
  function PutPort(next: Script): Script {
    Branch(Unlock(Registry, next), Lock(Ports, Exclusive, Unlock(Ports, Unlock(Registry, next))))
  }

  /** ReleaseLocalPort(socket): put the port back if one is recorded. */
  function RegistryReleaseLocalPort(next: Script): Script {
    Lock(Registry, Exclusive, GetConfig(BySocket, IfCopied(PutPort(next), Unlock(Registry, next))))
  }

  /** Exists(socket). */
  function RegistryExists(yes: Script, no: Script): Script {
    Lock(Recursive, Exclusive, IfListed(Unlock(Recursive, yes), Unlock(Recursive, no)))
  }

  /** Exists(device_id). */
  function RegistryExistsDevice(key: string, yes: Script, no: Script): Script {
    Lock(Recursive, Exclusive, Lock(Config, Shared, IfIndexed(key,
      Unlock(Config, Unlock(Recursive, yes)),
      Unlock(Config, Unlock(Recursive, no)))))
  }

  /** Add(socket): CreateConfig, then push_back. */
  function RegistryAdd(next: Script): Script {
    Lock(Recursive, Exclusive, Lock(Config, Exclusive, IndexSocket(Unlock(Config,
      ListSocket(Unlock(Recursive, next))))))
  }

  /** RemoveConfig(socket), then erase; the recursive mutex is held. */
  function EraseSocket(next: Script): Script {
    Lock(Config, Exclusive, UnindexSocket(Unlock(Config, UnlistSocket(Unlock(Recursive, next)))))
  }

  /** Remove(socket): ReleaseLocalPort, Disconnect, RemoveConfig, erase. */
  function RegistryRemove(yes: Script, no: Script): Script {
    Lock(Recursive, Exclusive, IfListed(
      RegistryReleaseLocalPort(RegistryUpdate(EraseSocket(yes))),
      Unlock(Recursive, no)))
  }

  // ---- adapters: every method runs on the adapter and consults the registry ------------

  /** send and recv of either adapter. */
  function AdapterIO(next: Script): Script {
    UseAdapter(RegistryRead(BySocket, UseAdapter(next)))
  }

  /** The end of conn: give up, or mark the socket connected and configure it. */
  function AdapterConnEnd(ok: Script, failed: Script): Script {
    UseAdapter(Branch(failed, RegistryUpdate(UseAdapter(ok))))
  }

  /** conn: Bluetooth; Wi-Fi as a router; Wi-Fi as a client. */
  function AdapterConn(ok: Script, failed: Script): Script {
    UseAdapter(Branch(
      AdapterConnEnd(ok, failed),
      Branch(
        RegistryRead(ByDevice, RegistryRead(ByDevice, AdapterConnEnd(ok, failed))),
        RegistryAddLocalPort(RegistryRead(ByDevice, AdapterConnEnd(ok, failed))))))
  }

  // ---- the pin helpers -----------------------------------------------------------------

  /** pinSharedIfExists and pinUniqueIfExists. */
  function Pin(mode: Mode, pinned: Script, gone: Script): Script {
    Lock(Deletion, Shared, RegistryExists(
      Lock(ThisSocket, mode, Unlock(Deletion, pinned)),
      Unlock(Deletion, gone)))
  }

  /** The pinned lock goes out of scope. */
  function Unpin(next: Script): Script {
    Unlock(ThisSocket, next)
  }

  // ---- the calls -----------------------------------------------------------------------

  /** Both global locks of bratislavaSocket go out of scope. */
  function LeaveOpen(next: Script): Script {
    Unlock(Creation, Unlock(Deletion, next))
  }

  /** A socket whose instrument type is supported gets its adapter and is registered. */
  function RegisterNew(link: Link, got: Script): Script {
    NewAdapter(RegistryAdd(Returning(link, LeaveOpen(got))))
  }

  function MakeNew(link: Link, got: Script, none: Script): Script {
    NewSocket(link, if link.supported then RegisterNew(link, got) else LeaveOpen(none))
  }

  function OpenScript(link: Link, got: Script, none: Script): Script {
    Lock(Deletion, Shared, Lock(Creation, Exclusive, RegistryExistsDevice(link.linkID,
      Lock(Config, Shared, LoadIndexed(link.linkID,
        Unlock(Config, Returning(link, LeaveOpen(got))),
        Unlock(Config, LeaveOpen(none)))),
      MakeNew(link, got, none))))
  }

  function ConnScript(ok: Script, failed: Script): Script {
    Pin(Exclusive,
      RegistryRead(BySocket, Branch(Unpin(ok), AdapterConn(Unpin(ok), Unpin(failed)))),
      failed)
  }

  /** bratislavaSend and bratislavaRecv. */
  function TransferScript(): Script {
    Pin(Shared, RegistryRead(BySocket, Branch(Unpin(Return), AdapterIO(Unpin(Return)))), Return)
  }

  /** bratislavaLinkSend and bratislavaLinkRecv: open, connect, transfer. */
  function LinkTransferScript(link: Link): Script {
    OpenScript(link,
      ConnScript(Pin(Shared, AdapterIO(Unpin(Return)), Return), Return),
      Return)
  }

  /** bratislavaConnTimeout and bratislavaRecvTimeout. */
  function TimeoutScript(): Script {
    Pin(Shared, UseAdapter(Unpin(Return)), Return)
  }

  function DisconnectScript(): Script {
    Pin(Shared, RegistryUpdate(Branch(UseAdapter(Unpin(Return)), Unpin(Return))), Return)
  }

  /** Nothing was removed: all three locks of the second phase go out of scope. */
  function LeaveDestroy(next: Script): Script {
    Unlock(Creation, Unlock(ThisSocket, Unlock(Deletion, next)))
  }

  /** The registry no longer knows the socket: delete the adapter, then the socket. */
  function DeleteObjects(next: Script): Script {
    DeleteAdapter(Unlock(ThisSocket, DeleteSocket(Unlock(Creation, Unlock(Deletion, next)))))
  }

  /** The second phase of bratislavaDestroy from its look at sockets_ on. */
  function AfterDraining(next: Script): Script {
    RegistryExists(RegistryRemove(DeleteObjects(next), LeaveDestroy(next)), LeaveDestroy(next))
  }

  /** bratislavaDestroy after the interrupt. */
  function DrainAndDelete(next: Script): Script {
    Lock(Deletion, Exclusive, Lock(ThisSocket, Exclusive, Lock(Creation, Exclusive, AfterDraining(next))))
  }

  function DestroyScript(next: Script): Script {
    Lock(Deletion, Shared, RegistryExists(
      UseAdapter(Unlock(Deletion, DrainAndDelete(next))),
      Unlock(Deletion, next)))
  }

  /** Cleanup: the recursive mutex is held over the whole loop. */
  function CleanupScript(): Script {
    Lock(Recursive, Exclusive, NextVictim)
  }

  /** A null pointer is refused before any lock is taken. */
  function ScriptOf(call: Call): Script {
    match call
    case Open(link) => OpenScript(link, Return, Return)
    case Conn(p) => if p.None? then Return else ConnScript(Return, Return)
    case Send(p) => if p.None? then Return else TransferScript()
    case Recv(p) => if p.None? then Return else TransferScript()
    case LinkSend(link) => LinkTransferScript(link)
    case LinkRecv(link) => LinkTransferScript(link)
    case ConnTimeout(p) => if p.None? then Return else TimeoutScript()
    case RecvTimeout(p) => if p.None? then Return else TimeoutScript()
    case Disconnect(p) => if p.None? then Return else DisconnectScript()
    case Destroy(p) => if p.None? then Return else DestroyScript(Return)
    case Cleanup => CleanupScript()
  }

  /** The pointer argument; calls on a link start without one. */
  function PointerOf(call: Call): Option<Sock> {
    match call
    case Open(_) => None
    case LinkSend(_) => None
    case LinkRecv(_) => None
    case Cleanup => None
    case _ => call.p
  }

  function LinkOf(call: Call): Option<Link> {
    match call
    case Open(link) => Some(link)
    case LinkSend(link) => Some(link)
    case LinkRecv(link) => Some(link)
    case _ => None
  }
}
