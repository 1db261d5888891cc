/**
 * The links that the comms runtime makes, passed to the socket interface.
 */
module RuntimeLinks {
  import opened SocketMachine
  import opened SocketRuns
  import opened SocketWitness
  import MacText

  /** A Bluetooth or Wi-Fi link named by make_link_id, with the address of its device. */
  predicate MadeByRuntime(link: Link) {
    link.supported && exists prefix | prefix in {"bt", "wifi"} ::
      MacText.LooksLikeMac(link.mac) && link.linkID == MacText.LinkId(prefix, link.mac)
  }

  /** Such a link is looked up under its identifier but kept under the address of its device:
      of the settings that contain one, none has one socket per device in every run. */
  lemma {:induction false} RuntimeLinksAreDuplicated(cfg: Setting, link: Link)
    requires link in cfg.links && MadeByRuntime(link)
    ensures exists actions ::
      Run(cfg, INITIAL, actions).Some? && !OneSocketPerDevice(Run(cfg, INITIAL, actions).value)
  {
    hide Run, OneSocketPerDevice, MacText.LinkId, MacText.LooksLikeMac;
    var prefix :| prefix in {"bt", "wifi"} && MacText.LooksLikeMac(link.mac)
      && link.linkID == MacText.LinkId(prefix, link.mac);
    MacText.LinkIdInjective(prefix, link.mac, prefix, link.mac);
    TwoSockets(cfg, link);
  }

  /** Where sockets may be destroyed at all, such a link lets a run use a deleted config record. */
  lemma {:induction false} RuntimeLinksAreUnsafe(cfg: Setting, link: Link)
    requires link in cfg.links && MadeByRuntime(link) && cfg.destroys != Never
    ensures exists actions ::
      Run(cfg, INITIAL, actions).Some? && !Safe(Run(cfg, INITIAL, actions).value)
  {
    hide Run, Safe, MacText.LinkId, MacText.LooksLikeMac;
    var prefix :| prefix in {"bt", "wifi"} && MacText.LooksLikeMac(link.mac)
      && link.linkID == MacText.LinkId(prefix, link.mac);
    MacText.LinkIdInjective(prefix, link.mac, prefix, link.mac);
    SharedRecordIsFreed(cfg, link);
  }
}
