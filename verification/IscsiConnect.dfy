/** The end of an iSCSI connect in DM mode: the verdict of the coordinator goes into the availability
    check (connector/iscsi/iscsi_helper.go). */
module IscsiConnect {
  import opened Basics
  import opened DeviceVerify
  import opened DmConnect
  import opened PathWorkers

  /** In every interleaving of the workers with the coordinator and for every answer of the host: a
      connect that succeeds names a device that was read and whose map and one of whose readable
      slaves report a WWN containing the LUN's; a worker found a device; and with all paths online
      required, the device had as many slaves as workers ever logged in. A loop left because nothing
      was found makes the connect fail. */
  method FinishConnect(s: State, lunWwn: string, allPathOnline: bool, poll: nat -> Outcome<DmInfo>,
                       expired: nat -> bool, ghost deadline: nat, host: Host,
                       ghost cfg: Config, ghost ss: seq<State>, ghost es: seq<Event>)
    returns (r: Outcome<string>, ghost watched: DmInfo)
    requires DmConnect.IsRun(cfg, ss, es) && s == ss[|es|] && s.pc.Verifying?
    requires expired(deadline)
    ensures s.pc.why.NoneFound? ==> r == Failed(VolumeNotFound)
    ensures r.Success? <==>
              s.mPath != "" && exists i :: FirstShown(poll, expired, allPathOnline, Count(s.paths.ws, HasLoggedIn), i)
                                           && Verifies(host, poll(i).value.sysfs, lunWwn)
    ensures r.Success? ==>
              && s.paths.sh.found != []
              && (exists i :: 0 <= i <= deadline && poll(i) == Success(watched))
              && (allPathOnline ==> |watched.devices| == Count(s.paths.ws, HasLoggedIn))
              && r.value == "/dev/" + watched.sysfs && host.canRead(r.value)
              && host.mapWwn(watched.sysfs).Ok? && Contains(host.mapWwn(watched.sysfs).value, lunWwn)
              && SlaveConfirms(host, watched.sysfs, lunWwn)
  {
    DmVerdict(cfg, ss, es, |es|);
    r, watched := CheckDmAvailable(s.mPath, lunWwn, allPathOnline, s.pc.pathNumber, poll, expired, deadline, host);
  }
}
