/** Connecting an iSCSI volume over DM-multipath (connector/iscsi/iscsi_helper.go): the
    coordinator `findDiskOfDM`, with `scanMultiDevice` and `tryScanMultiDevice`, run against
    the workers of `PathWorkers`, followed by the stop flag, the join and the path count that
    `tryConnectVolume` hands to the availability check.

    Every load, append, cut and reset is a step of its own, so workers run between any two of
    them. What sysfs and multipathd answer is arbitrary. */
module DmConnect {
  import opened Basics
  import opened PathWorkers

  const TIME_FOR_DM_APPEAR := 15

  /** Why the polling loop was left. */
  datatype Exit =
    | NoneFound    // every worker had stopped and no device was on record
    | AllCounted   // a path was found and every login outcome was counted
    | NoWwn        // the WWN could not be read from sysfs
    | TimedOut     // fifteen seconds after the last worker stopped

  /** Where the coordinator is; it is about to do what the constructor names. */
  datatype DmPc =
    | Guard                      // load stoppedThreads
    | GuardFound                 // all stopped: load the number of found devices
    | GuardPath                  // load numLogin, if a path is known
    | GuardFailed(logins: nat)   // load failedLogin
    | NeedWwn
    | ReadWwn
    | ScanTest
    | ScanFind
    | ScanResetFound
    | ScanResetJustAdded
    | AddWwn
    | DrainTest
    | DrainGet                              // load the first just-added device
    | DrainLen(device: string)
    | DrainCut(device: string, high: nat)
    | DrainAdd(device: string)              // hand it to multipathd
    | DrainFind
    | DrainResetFound
    | DrainResetJustAdded
    | Clock
    | ClockStopped               // load stoppedThreads
    | Sleeping(until: int)
    | Leaving(why: Exit)         // raise the stop flag
    | Joining(why: Exit)         // wait for every worker
    | Tallying(why: Exit)        // load numLogin
    | Verifying(why: Exit, pathNumber: nat)

  /** `offered` records the devices handed to multipathd. */
  datatype State = State(
    paths: Paths, pc: DmPc, mPath: string, wwn: string, wwnAdded: bool, offered: seq<string>, lastTryOn: int, now: int)

  /** What the host answers to the coordinator's question, if it asks one. */
  datatype Answer =
    | Silence
    | SysfsWwn(wwn: Result<string>)
    | WwnAccepted(added: bool)
    | Holders(dm: map<string, string>)   // the multipath device that holds each SCSI device

  // ----- FindAvailableMultiPath

  /** `findMultiPathMaps`: the multipath devices over the found devices, and the last one seen. */
  function MapsOf(found: seq<string>, dm: map<string, string>): set<string> {
    set d | d in found && d in dm :: dm[d]
  }

  function LastMap(found: seq<string>, dm: map<string, string>): string {
    if found == [] then ""
    else if found[|found| - 1] in dm then dm[found[|found| - 1]]
    else LastMap(found[..|found| - 1], dm)
  }

  /** `FindAvailableMultiPath`: the one multipath device over all found devices; more than one
      means that all of them were cleared away. */
  function FindAvailable(found: seq<string>, dm: map<string, string>): (r: (string, bool)) {
    if |MapsOf(found, dm)| == 1 then (LastMap(found, dm), false) else ("", |MapsOf(found, dm)| > 1)
  }

  lemma {:induction false} LastMapIsAMap(found: seq<string>, dm: map<string, string>)
    ensures MapsOf(found, dm) != {} ==> LastMap(found, dm) in MapsOf(found, dm)
    ensures MapsOf(found, dm) == {} ==> LastMap(found, dm) == ""
  {
    if found != [] {
      var rest, last := found[..|found| - 1], found[|found| - 1];
      LastMapIsAMap(rest, dm);
      assert found == rest + [last];
      if last in dm {
        assert dm[last] in MapsOf(found, dm);
      } else {
        assert MapsOf(found, dm) == MapsOf(rest, dm);
      }
    }
  }

  /** A path is returned exactly when all held devices agree on one holder; clearing happens
      exactly when they disagree. Neither can happen without a found device. */
  lemma FindAvailableMeaning(found: seq<string>, dm: map<string, string>)
    requires "" !in dm.Values
    ensures FindAvailable(found, dm).0 != "" <==> |MapsOf(found, dm)| == 1
    ensures FindAvailable(found, dm).0 != "" ==> MapsOf(found, dm) == {FindAvailable(found, dm).0}
    ensures FindAvailable(found, dm).1 <==> |MapsOf(found, dm)| > 1
    ensures found == [] ==> FindAvailable(found, dm) == ("", false)
  {
    LastMapIsAMap(found, dm);
    if found == [] {
      assert MapsOf(found, dm) == {};
    }
    if |MapsOf(found, dm)| == 1 {
      var last := LastMap(found, dm);
      assert last in MapsOf(found, dm);
      assert last in dm.Values;
      assert |MapsOf(found, dm) - {last}| == 0;
    }
  }

  // ----- the coordinator

  function WithShared(s: State, c: Control): State {
    s.(paths := s.paths.(sh := Controlled(s.paths.sh, c)))
  }

  /** The loop condition, one load at a time. */
  ghost predicate GuardStep(s: State, s': State) {
    var sh, n := s.paths.sh, |s.paths.ws|;
    match s.pc
    case Guard => s' == s.(pc := if sh.stoppedThreads == n then GuardFound else GuardPath)
    case GuardFound => s' == s.(pc := if sh.found == [] then Leaving(NoneFound) else GuardPath)
    case GuardPath => s' == s.(pc := if s.mPath != "" then GuardFailed(sh.numLogin) else NeedWwn)
    case GuardFailed(logins) => s' == s.(pc := if n == logins + sh.failedLogin then Leaving(AllCounted) else NeedWwn)
    case _ => false
  }

  /** Reading the WWN, and `scanMultiDevice`. */
  ghost predicate ScanStep(cfg: Config, s: State, a: Answer, s': State) {
    var sh := s.paths.sh;
    match s.pc
    case NeedWwn => s' == s.(pc := if s.wwn == "" && sh.found != [] then ReadWwn else ScanTest)
    case ReadWwn =>
      // the read can fail only once there is a multipath device to read from
      && a.SysfsWwn? && (a.wwn.Err? ==> s.mPath != "")
      && s' == (if a.wwn.Err? then s.(pc := Leaving(NoWwn))
                else s.(wwn := if a.wwn.value == "" then cfg.target else a.wwn.value, pc := ScanTest))
    case ScanTest => s' == s.(pc := if s.mPath == "" && sh.found != [] then ScanFind else Clock)
    case ScanFind =>
      && a.Holders? && "" !in a.dm.Values
      && (var (mPath, isClear) := FindAvailable(sh.found, a.dm);
          s' == s.(mPath := mPath, pc := if isClear then ScanResetFound else AddWwn))
    case ScanResetFound => s' == WithShared(s, ResetFound).(pc := ScanResetJustAdded)
    case ScanResetJustAdded => s' == WithShared(s, ResetJustAdded).(pc := AddWwn)
    case AddWwn =>
      if s.wwn != "" && !(s.mPath != "" || s.wwnAdded)
      then a.WwnAccepted? && s' == s.(wwnAdded := a.added, pc := DrainTest)
      else s' == s.(pc := Clock)
    case _ => false
  }

  /** `tryScanMultiDevice`: hand the just-added devices to multipathd one by one. */
  ghost predicate DrainStep(s: State, a: Answer, s': State) {
    var sh := s.paths.sh;
    match s.pc
    case DrainTest => s' == s.(pc := if s.mPath == "" && sh.justAdded != [] then DrainGet else Clock)
    case DrainGet => sh.justAdded != [] && s' == s.(pc := DrainLen(sh.justAdded[0]))
    case DrainLen(device) => s' == s.(pc := DrainCut(device, |sh.justAdded|))
    case DrainCut(device, high) => s' == WithShared(s, CutJustAdded(high)).(pc := DrainAdd(device))
    case DrainAdd(device) => s' == s.(offered := s.offered + [device], pc := DrainFind)
    case DrainFind =>
      && a.Holders? && "" !in a.dm.Values
      && (var (mPath, isClear) := FindAvailable(sh.found, a.dm);
          s' == s.(mPath := mPath, pc := if isClear then DrainResetFound else DrainTest))
    case DrainResetFound => s' == WithShared(s, ResetFound).(pc := DrainResetJustAdded)
    case DrainResetJustAdded => s' == WithShared(s, ResetJustAdded).(pc := DrainTest)
    case _ => false
  }

  /** The fifteen-second grace period and the sleep between turns. */
  ghost predicate ClockStep(s: State, s': State) {
    var sh, n := s.paths.sh, |s.paths.ws|;
    match s.pc
    case Clock =>
      s' == s.(pc := if s.lastTryOn == 0
                     then if sh.found != [] then ClockStopped else Sleeping(s.now + 1)
                     else if s.lastTryOn < s.now then Leaving(TimedOut) else Sleeping(s.now + 1))
    case ClockStopped =>
      s' == s.(lastTryOn := if sh.stoppedThreads == n then s.now + TIME_FOR_DM_APPEAR else s.lastTryOn,
               pc := Sleeping(s.now + 1))
    case Sleeping(until) => until <= s.now && s' == s.(pc := Guard)
    case _ => false
  }

  /** After the loop: raise the stop flag, join the workers, load the path count. */
  ghost predicate FinishStep(s: State, s': State) {
    var sh, n := s.paths.sh, |s.paths.ws|;
    match s.pc
    case Leaving(why) => s' == WithShared(s, RaiseStop).(pc := Joining(why))
    case Joining(why) =>
      (forall i :: 0 <= i < n ==> s.paths.ws[i].pc.Done?) && s' == s.(pc := Tallying(why))
    case Tallying(why) => s' == s.(pc := Verifying(why, sh.numLogin))
    case _ => false
  }

  ghost predicate Coordinates(cfg: Config, s: State, a: Answer, s': State) {
    GuardStep(s, s') || ScanStep(cfg, s, a, s') || DrainStep(s, a, s') || ClockStep(s, s') || FinishStep(s, s')
  }

  datatype Event = Path(worker: nat, action: Action) | Coordinator(answer: Answer) | Tick(seconds: nat)

  ghost predicate Steps(cfg: Config, s: State, e: Event, s': State) {
    match e
    case Path(i, a) => Next(cfg, s.paths, Work(i, a), s'.paths) && s' == s.(paths := s'.paths)
    case Coordinator(a) => Coordinates(cfg, s, a, s')
    case Tick(seconds) => s' == s.(now := s.now + seconds)
  }

  ghost predicate InitialState(s: State) {
    && Initial(s.paths)
    && s.pc.Guard? && s.mPath == "" && s.wwn == "" && !s.wwnAdded && s.offered == [] && s.lastTryOn == 0 && s.now > 0
  }

  // ----- the invariant

  ghost predicate PcInv(s: State) {
    var sh, n := s.paths.sh, |s.paths.ws|;
    match s.pc
    case GuardFound => sh.stoppedThreads == n
    case GuardFailed(logins) => s.mPath != "" && logins <= sh.numLogin
    case ReadWwn => s.wwn == "" && sh.found != []
    case ScanFind => s.mPath == "" && sh.found != []
    case ScanResetFound => s.mPath == ""
    case ScanResetJustAdded => s.mPath == ""
    case DrainTest => s.wwn != ""
    case DrainGet => s.mPath == "" && s.wwn != "" && sh.justAdded != []
    case DrainLen(device) => s.mPath == "" && s.wwn != "" && sh.justAdded != [] && sh.justAdded[0] == device
    case DrainCut(device, high) => s.mPath == "" && s.wwn != "" && 1 <= high <= |sh.justAdded| && sh.justAdded[0] == device
    case DrainAdd(_) => s.mPath == "" && s.wwn != ""
    case DrainFind => s.mPath == "" && s.wwn != ""
    case DrainResetFound => s.mPath == "" && s.wwn != ""
    case DrainResetJustAdded => s.mPath == "" && s.wwn != ""
    case ClockStopped => s.lastTryOn == 0
    case Leaving(why) => LeftFor(s, why)
    case Joining(why) => LeftFor(s, why) && sh.stop
    case Tallying(why) => LeftFor(s, why) && sh.stop && sh.stoppedThreads == n
    case Verifying(why, paths) => LeftFor(s, why) && sh.stop && sh.stoppedThreads == n && paths == sh.numLogin
    case _ => true
  }

  /** What the reason for leaving the loop says about the verdict. */
  ghost predicate LeftFor(s: State, why: Exit) {
    var sh, n := s.paths.sh, |s.paths.ws|;
    && (why.NoneFound? ==> s.mPath == "" && sh.found == [] && sh.stoppedThreads == n)
    && (why.AllCounted? ==> s.mPath != "" && sh.numLogin + sh.failedLogin == n)
    && (why.TimedOut? ==> sh.stoppedThreads == n)
  }

  /** The coordinator's own variables agree with the shared record. */
  ghost predicate VerdictInv(s: State) {
    && (s.mPath != "" ==> s.paths.sh.found != [])
    && s.now > 0 && 0 <= s.lastTryOn <= s.now + TIME_FOR_DM_APPEAR
    && (s.lastTryOn != 0 ==> s.paths.sh.stoppedThreads == |s.paths.ws|)
    && PcInv(s)
  }

  ghost predicate DmInv(cfg: Config, s: State) {
    cfg.protocol.Iscsi? && PathInv(cfg, s.paths) && VerdictInv(s)
  }

  /** What a coordinator step does to the paths is one of the controls. */
  function ControlOf(s: State): Control {
    match s.pc
    case ScanResetFound => ResetFound
    case DrainResetFound => ResetFound
    case ScanResetJustAdded => ResetJustAdded
    case DrainResetJustAdded => ResetJustAdded
    case DrainCut(_, high) => CutJustAdded(high)
    case Leaving(_) => RaiseStop
    case _ => Read
  }

  lemma CoordinatesIsAControl(cfg: Config, s: State, a: Answer, s': State)
    requires Coordinates(cfg, s, a, s')
    ensures Next(cfg, s.paths, Coordinate(ControlOf(s)), s'.paths)
  {
  }

  lemma GuardKeepsVerdict(s: State, s': State)
    requires VerdictInv(s) && GuardStep(s, s')
    requires s.paths.sh.numLogin + s.paths.sh.failedLogin <= |s.paths.ws|
    ensures VerdictInv(s')
  {
  }

  lemma ScanKeepsVerdict(cfg: Config, s: State, a: Answer, s': State)
    requires VerdictInv(s) && ScanStep(cfg, s, a, s')
    ensures VerdictInv(s')
  {
    if s.pc.ScanFind? {
      FindAvailableMeaning(s.paths.sh.found, a.dm);
    }
  }

  lemma DrainKeepsVerdict(s: State, a: Answer, s': State)
    requires VerdictInv(s) && DrainStep(s, a, s')
    ensures VerdictInv(s')
  {
    if s.pc.DrainFind? {
      FindAvailableMeaning(s.paths.sh.found, a.dm);
    }
  }

  lemma EndKeepsVerdict(s: State, s': State)
    requires VerdictInv(s) && (ClockStep(s, s') || FinishStep(s, s'))
    requires s'.pc.Tallying? ==> s.paths.sh.stoppedThreads == |s.paths.ws|
    ensures VerdictInv(s')
  {
  }

  /** With every worker past the wait group, every worker has counted itself as stopped. */
  lemma JoinedMeansStopped(cfg: Config, p: Paths)
    requires cfg.protocol.Iscsi? && PathInv(cfg, p) && forall i :: 0 <= i < |p.ws| ==> p.ws[i].pc.Done?
    ensures p.sh.stoppedThreads == |p.ws|
  {
    assert forall i :: 0 <= i < |p.ws| ==> WorkerInv(cfg, p.ws[i]);
    CountAll(p.ws, HasStopped);
  }

  lemma CoordinatorKeepsInv(cfg: Config, s: State, a: Answer, s': State)
    requires DmInv(cfg, s) && Coordinates(cfg, s, a, s')
    ensures DmInv(cfg, s')
  {
    CoordinatesIsAControl(cfg, s, a, s');
    NextKeepsPathInv(cfg, s.paths, Coordinate(ControlOf(s)), s'.paths);
    CounterBounds(cfg, s.paths);
    if s'.pc.Tallying? {
      TallyMeansJoined(cfg, s, a, s');
      JoinedMeansStopped(cfg, s.paths);
    }
    CoordinatorKeepsVerdict(cfg, s, a, s');
  }

  lemma TallyMeansJoined(cfg: Config, s: State, a: Answer, s': State)
    requires Coordinates(cfg, s, a, s') && s'.pc.Tallying?
    ensures forall i :: 0 <= i < |s.paths.ws| ==> s.paths.ws[i].pc.Done?
  {
  }

  lemma CoordinatorKeepsVerdict(cfg: Config, s: State, a: Answer, s': State)
    requires VerdictInv(s) && Coordinates(cfg, s, a, s')
    requires s.paths.sh.numLogin + s.paths.sh.failedLogin <= |s.paths.ws|
    requires s'.pc.Tallying? ==> s.paths.sh.stoppedThreads == |s.paths.ws|
    ensures VerdictInv(s')
  {
    if GuardStep(s, s') {
      GuardKeepsVerdict(s, s');
    } else if ScanStep(cfg, s, a, s') {
      ScanKeepsVerdict(cfg, s, a, s');
    } else if DrainStep(s, a, s') {
      DrainKeepsVerdict(s, a, s');
    } else {
      EndKeepsVerdict(s, s');
    }
  }

  lemma WorkerKeepsInv(cfg: Config, s: State, i: nat, a: Action, s': State)
    requires DmInv(cfg, s) && Next(cfg, s.paths, Work(i, a), s'.paths) && s' == s.(paths := s'.paths)
    ensures DmInv(cfg, s')
  {
    NextKeepsPathInv(cfg, s.paths, Work(i, a), s'.paths);
    WorkOnlyAdds(cfg, s.paths, Work(i, a), s'.paths);
    CounterBounds(cfg, s'.paths);
  }

  lemma StepKeepsSize(cfg: Config, s: State, e: Event, s': State)
    requires Steps(cfg, s, e, s')
    ensures |s'.paths.ws| == |s.paths.ws|
  {
    if e.Coordinator? {
      CoordinatesIsAControl(cfg, s, e.answer, s');
    }
  }

  lemma StepKeepsInv(cfg: Config, s: State, e: Event, s': State)
    requires DmInv(cfg, s) && Steps(cfg, s, e, s')
    ensures DmInv(cfg, s') && |s'.paths.ws| == |s.paths.ws|
  {
    StepKeepsSize(cfg, s, e, s');
    match e
    case Path(i, a) => WorkerKeepsInv(cfg, s, i, a, s');
    case Coordinator(a) => CoordinatorKeepsInv(cfg, s, a, s');
    case Tick(_) =>
  }

  // ----- whole runs

  ghost predicate StepAt(cfg: Config, ss: seq<State>, es: seq<Event>, i: nat)
    requires i < |es| && |ss| == |es| + 1
  {
    Steps(cfg, ss[i], es[i], ss[i + 1])
  }

  ghost predicate IsRun(cfg: Config, ss: seq<State>, es: seq<Event>) {
    && cfg.protocol.Iscsi?
    && |ss| == |es| + 1
    && InitialState(ss[0])
    && forall i :: 0 <= i < |es| ==> StepAt(cfg, ss, es, i)
  }

  lemma InitialInv(cfg: Config, s: State)
    requires cfg.protocol.Iscsi? && InitialState(s)
    ensures DmInv(cfg, s)
  {
    InitialPathInv(cfg, s.paths);
  }

  lemma InvAcross(cfg: Config, ss: seq<State>, es: seq<Event>, k: nat)
    requires IsRun(cfg, ss, es) && k < |es| && DmInv(cfg, ss[k])
    ensures DmInv(cfg, ss[k + 1]) && |ss[k + 1].paths.ws| == |ss[k].paths.ws|
  {
    assert StepAt(cfg, ss, es, k);
    StepKeepsInv(cfg, ss[k], es[k], ss[k + 1]);
  }

  lemma {:induction false} RunKeepsInv(cfg: Config, ss: seq<State>, es: seq<Event>, n: nat)
    requires IsRun(cfg, ss, es) && n < |ss|
    ensures DmInv(cfg, ss[n]) && |ss[n].paths.ws| == |ss[0].paths.ws|
  {
    if n == 0 {
      InitialInv(cfg, ss[0]);
    } else {
      RunKeepsInv(cfg, ss, es, n - 1);
      InvAcross(cfg, ss, es, n - 1);
    }
  }

  /** The verdict, in every interleaving: when the availability check starts, all workers have
      been joined; the path count handed to it is the number of workers that ever logged in,
      and every other worker was refused; a multipath name comes with a found device; and the
      "all stopped, none found" exit carries no name and no device. */
  lemma DmVerdict(cfg: Config, ss: seq<State>, es: seq<Event>, n: nat)
    requires IsRun(cfg, ss, es) && n < |ss| && ss[n].pc.Verifying?
    ensures forall i :: 0 <= i < |ss[n].paths.ws| ==> ss[n].paths.ws[i].stopped
    ensures ss[n].pc.pathNumber == Count(ss[n].paths.ws, HasLoggedIn)
    ensures ss[n].pc.pathNumber + Count(ss[n].paths.ws, WasRefused) == |ss[0].paths.ws|
    ensures ss[n].mPath != "" ==> ss[n].paths.sh.found != []
    ensures ss[n].pc.why.NoneFound? ==> ss[n].mPath == "" && ss[n].paths.sh.found == []
  {
    RunKeepsInv(cfg, ss, es, n);
    AllStopped(cfg, ss[n].paths);
  }

  /** The coordinator has left its loop for the given reason. */
  predicate ExitedFor(s: State, why: Exit) {
    (s.pc.Leaving? || s.pc.Joining? || s.pc.Tallying? || s.pc.Verifying?) && s.pc.why == why
  }

  lemma ExitKeepsReason(cfg: Config, s: State, e: Event, s': State, why: Exit)
    requires Steps(cfg, s, e, s') && ExitedFor(s, why)
    ensures ExitedFor(s', why)
  {
  }

  lemma NoneFoundMeaning(cfg: Config, s: State)
    requires DmInv(cfg, s) && ExitedFor(s, NoneFound)
    ensures s.paths.sh.found == [] && s.mPath == ""
  {
  }

  /** Once the loop is left because all workers stopped and none found a device, no device
      ever appears and the verdict stays empty. */
  lemma {:induction false} NoneFoundIsFinal(cfg: Config, ss: seq<State>, es: seq<Event>, m: nat, n: nat)
    requires IsRun(cfg, ss, es) && m <= n < |ss| && ExitedFor(ss[m], NoneFound)
    ensures ExitedFor(ss[n], NoneFound) && ss[n].paths.sh.found == [] && ss[n].mPath == ""
  {
    if m < n {
      NoneFoundIsFinal(cfg, ss, es, m, n - 1);
      assert StepAt(cfg, ss, es, n - 1);
      ExitKeepsReason(cfg, ss[n - 1], es[n - 1], ss[n], NoneFound);
    }
    RunKeepsInv(cfg, ss, es, n);
    NoneFoundMeaning(cfg, ss[n]);
  }

  lemma PathStaysFound(cfg: Config, s: State, e: Event, s': State)
    requires DmInv(cfg, s) && Steps(cfg, s, e, s') && s.mPath != ""
    ensures s'.mPath == s.mPath && s.paths.sh.found <= s'.paths.sh.found
  {
    if e.Path? {
      WorkOnlyAdds(cfg, s.paths, Work(e.worker, e.action), s'.paths);
    }
  }

  /** Once a multipath name is found it is never given up, and the devices on record then
      stay on record. */
  lemma {:induction false} FoundPathIsFinal(cfg: Config, ss: seq<State>, es: seq<Event>, m: nat, n: nat)
    requires IsRun(cfg, ss, es) && m <= n < |ss| && ss[m].mPath != ""
    ensures ss[n].mPath == ss[m].mPath && [] < ss[m].paths.sh.found <= ss[n].paths.sh.found
  {
    RunKeepsInv(cfg, ss, es, m);
    if m < n {
      FoundPathIsFinal(cfg, ss, es, m, n - 1);
      RunKeepsInv(cfg, ss, es, n - 1);
      assert StepAt(cfg, ss, es, n - 1);
      PathStaysFound(cfg, ss[n - 1], es[n - 1], ss[n]);
    }
  }

  // ----- the loop is left

  /** With all workers stopped: a bound on the sleeps the coordinator still takes. */
  function SleepsLeft(s: State): nat {
    match s.pc
    case Leaving(_) => 0
    case Joining(_) => 0
    case Tallying(_) => 0
    case Verifying(_, _) => 0
    case Sleeping(until) =>
      if s.lastTryOn != 0 then 1 + Above(s.lastTryOn + 1 - Later(s.now, until))
      else if s.paths.sh.found == [] then 1 else 17
    case _ =>
      if (s.pc.Guard? || s.pc.GuardFound?) && s.paths.sh.found == [] then 0
      else if s.lastTryOn != 0 then Above(s.lastTryOn + 1 - s.now) else 16
  }

  /** Within one turn of the loop: a bound on the steps before the sleep. */
  function TurnLeft(s: State): nat {
    var j := |s.paths.sh.justAdded|;
    match s.pc
    case Guard => 8 * j + 40
    case GuardFound => 8 * j + 39
    case GuardPath => 8 * j + 38
    case GuardFailed(_) => 8 * j + 37
    case NeedWwn => 8 * j + 36
    case ReadWwn => 8 * j + 35
    case ScanTest => 8 * j + 34
    case ScanFind => 8 * j + 33
    case ScanResetFound => 8 * j + 32
    case ScanResetJustAdded => 8 * j + 31
    case AddWwn => 8 * j + 30
    case DrainAdd(_) => 8 * j + 21
    case DrainFind => 8 * j + 20
    case DrainResetFound => 8 * j + 19
    case DrainResetJustAdded => 8 * j + 18
    case DrainTest => 8 * j + 17
    case DrainGet => 8 * j + 16
    case DrainLen(_) => 8 * j + 15
    case DrainCut(_, _) => 8 * j + 14
    case Clock => 9
    case ClockStopped => 8
    case Sleeping(_) => 7
    case Leaving(_) => 6
    case Joining(_) => 5
    case Tallying(_) => 4
    case Verifying(_, _) => 3
  }

  lemma ScanMakesProgress(cfg: Config, s: State, a: Answer, s': State)
    requires VerdictInv(s) && ScanStep(cfg, s, a, s')
    ensures SleepsLeft(s') <= SleepsLeft(s) && TurnLeft(s') < TurnLeft(s) && !s.pc.Sleeping?
  {
  }

  lemma DrainKeepsSleeps(s: State, a: Answer, s': State)
    requires VerdictInv(s) && DrainStep(s, a, s')
    ensures SleepsLeft(s') <= SleepsLeft(s) && !s.pc.Sleeping?
  {
  }

  lemma DrainShortensTurn(s: State, a: Answer, s': State)
    requires VerdictInv(s) && DrainStep(s, a, s')
    ensures TurnLeft(s') < TurnLeft(s)
  {
  }

  lemma ClockMakesProgress(s: State, s': State)
    requires VerdictInv(s) && s.paths.sh.stoppedThreads == |s.paths.ws| && ClockStep(s, s')
    ensures SleepsLeft(s') + Bit(s.pc.Sleeping?) <= SleepsLeft(s)
    ensures !s.pc.Sleeping? ==> TurnLeft(s') < TurnLeft(s)
  {
  }

  lemma OthersMakeProgress(s: State, s': State)
    requires VerdictInv(s) && s.paths.sh.stoppedThreads == |s.paths.ws|
    requires GuardStep(s, s') || FinishStep(s, s')
    ensures SleepsLeft(s') <= SleepsLeft(s) && TurnLeft(s') < TurnLeft(s) && !s.pc.Sleeping?
  {
  }

  /** With all workers stopped, every coordinator step but a wake-up shortens the turn, and a
      wake-up uses one of the sleeps left. */
  lemma CoordinatorMakesProgress(cfg: Config, s: State, a: Answer, s': State)
    requires VerdictInv(s) && Coordinates(cfg, s, a, s') && s.paths.sh.stoppedThreads == |s.paths.ws|
    ensures SleepsLeft(s') + Bit(s.pc.Sleeping?) <= SleepsLeft(s)
    ensures !s.pc.Sleeping? ==> TurnLeft(s') < TurnLeft(s)
  {
    if ScanStep(cfg, s, a, s') {
      ScanMakesProgress(cfg, s, a, s');
    } else if DrainStep(s, a, s') {
      DrainKeepsSleeps(s, a, s');
      DrainShortensTurn(s, a, s');
    } else if ClockStep(s, s') {
      ClockMakesProgress(s, s');
    } else {
      OthersMakeProgress(s, s');
    }
  }

  lemma TimeMakesNoDemands(s: State, s': State)
    requires s' == s.(now := s'.now, paths := s.paths.(ws := s'.paths.ws)) && s.now <= s'.now
    ensures SleepsLeft(s') <= SleepsLeft(s)
  {
  }

  lemma {:induction false} StoppedStaysStopped(cfg: Config, ss: seq<State>, es: seq<Event>, m: nat, n: nat)
    requires IsRun(cfg, ss, es) && m <= n < |ss|
    requires ss[m].paths.sh.stoppedThreads == |ss[m].paths.ws|
    ensures ss[n].paths.sh.stoppedThreads == |ss[n].paths.ws|
  {
    if m < n {
      StoppedStaysStopped(cfg, ss, es, m, n - 1);
      RunKeepsInv(cfg, ss, es, n - 1);
      assert StepAt(cfg, ss, es, n - 1);
      if es[n - 1].Path? {
        WorkOnlyAdds(cfg, ss[n - 1].paths, Work(es[n - 1].worker, es[n - 1].action), ss[n].paths);
      } else if es[n - 1].Coordinator? {
        CoordinatesIsAControl(cfg, ss[n - 1], es[n - 1].answer, ss[n]);
      }
    }
  }

  /** The number of times the coordinator wakes up from its sleep between two points of a run. */
  ghost function Wakes(ss: seq<State>, es: seq<Event>, m: nat, n: nat): nat
    requires m <= n < |ss| && |ss| == |es| + 1
  {
    if m == n then 0
    else Wakes(ss, es, m, n - 1) + if es[n - 1].Coordinator? && ss[n - 1].pc.Sleeping? then 1 else 0
  }

  lemma SleepBudgetStep(cfg: Config, ss: seq<State>, es: seq<Event>, m: nat, k: nat)
    requires IsRun(cfg, ss, es) && m <= k < |es|
    requires ss[m].paths.sh.stoppedThreads == |ss[m].paths.ws|
    ensures Bit(es[k].Coordinator? && ss[k].pc.Sleeping?) + SleepsLeft(ss[k + 1]) <= SleepsLeft(ss[k])
  {
    RunKeepsInv(cfg, ss, es, k);
    StoppedStaysStopped(cfg, ss, es, m, k);
    assert StepAt(cfg, ss, es, k);
    if es[k].Coordinator? {
      CoordinatorMakesProgress(cfg, ss[k], es[k].answer, ss[k + 1]);
    } else {
      if es[k].Path? {
        WorkOnlyAdds(cfg, ss[k].paths, Work(es[k].worker, es[k].action), ss[k + 1].paths);
      }
      TimeMakesNoDemands(ss[k], ss[k + 1]);
    }
  }

  /** Once every worker has stopped, the coordinator goes round its loop at most 17 more times,
      whatever sysfs and multipathd answer and however long the clock jumps. */
  lemma {:induction false} LoopIsLeft(cfg: Config, ss: seq<State>, es: seq<Event>, m: nat, n: nat)
    requires IsRun(cfg, ss, es) && m <= n < |ss|
    requires ss[m].paths.sh.stoppedThreads == |ss[m].paths.ws|
    ensures Wakes(ss, es, m, n) + SleepsLeft(ss[n]) <= SleepsLeft(ss[m]) <= 17
  {
    if m < n {
      LoopIsLeft(cfg, ss, es, m, n - 1);
      SleepBudgetStep(cfg, ss, es, m, n - 1);
    } else {
      RunKeepsInv(cfg, ss, es, m);
      SleepsBounded(ss[m]);
    }
  }

  lemma SleepsBounded(s: State)
    requires VerdictInv(s)
    ensures SleepsLeft(s) <= 17
  {
  }

  // ----- and when it is not

  /** The host never shows worker `w` its host:channel:target:lun, never lets it fail to log
      in, and never offers a multipath device. */
  predicate TargetHidden(e: Event, w: nat) {
    match e
    case Path(i, a) => i == w ==> (a.Dial? ==> a.ok) && (a.Look? ==> !a.seen.hctl)
    case Coordinator(a) => a.Holders? ==> a.dm == map[]
    case Tick(_) => true
  }

  ghost predicate Waiting(s: State, w: nat) {
    && w < |s.paths.ws|
    && (s.paths.ws[w].pc.Dialing? || (s.paths.ws[w].pc.Scanning? && !s.paths.ws[w].pc.scan.known))
    && !s.paths.sh.stop && s.mPath == "" && s.lastTryOn == 0
    && !(s.pc.GuardFound? || s.pc.GuardFailed? || s.pc.Leaving? || s.pc.Joining? || s.pc.Tallying? || s.pc.Verifying?)
  }

  lemma WorkersKeepWaiting(cfg: Config, s: State, i: nat, a: Action, s': State, w: nat)
    requires Waiting(s, w) && WorkerInv(cfg, s.paths.ws[w]) && cfg.protocol.Iscsi?
    requires Next(cfg, s.paths, Work(i, a), s'.paths) && s' == s.(paths := s'.paths)
    requires TargetHidden(Path(i, a), w)
    ensures Waiting(s', w)
  {
  }

  lemma ScanKeepsWaiting(cfg: Config, s: State, a: Answer, s': State, w: nat)
    requires Waiting(s, w) && ScanStep(cfg, s, a, s') && TargetHidden(Coordinator(a), w)
    ensures Waiting(s', w)
  {
    if a.Holders? {
      assert MapsOf(s.paths.sh.found, map[]) == {};
    }
  }

  lemma DrainKeepsWaiting(s: State, a: Answer, s': State, w: nat)
    requires Waiting(s, w) && DrainStep(s, a, s') && TargetHidden(Coordinator(a), w)
    ensures Waiting(s', w)
  {
    if a.Holders? {
      assert MapsOf(s.paths.sh.found, map[]) == {};
    }
  }

  lemma CoordinatorKeepsWaiting(cfg: Config, s: State, a: Answer, s': State, w: nat)
    requires Waiting(s, w) && Coordinates(cfg, s, a, s') && TargetHidden(Coordinator(a), w)
    requires s.paths.sh.stoppedThreads < |s.paths.ws|
    ensures Waiting(s', w)
  {
    if ScanStep(cfg, s, a, s') {
      ScanKeepsWaiting(cfg, s, a, s', w);
    } else if DrainStep(s, a, s') {
      DrainKeepsWaiting(s, a, s', w);
    }
  }

  lemma WaitingIsKept(cfg: Config, ss: seq<State>, es: seq<Event>, k: nat, w: nat)
    requires IsRun(cfg, ss, es) && k < |es| && Waiting(ss[k], w) && TargetHidden(es[k], w)
    ensures Waiting(ss[k + 1], w)
  {
    var s := ss[k];
    RunKeepsInv(cfg, ss, es, k);
    assert StepAt(cfg, ss, es, k);
    CounterBounds(cfg, s.paths);
    if s.paths.sh.stoppedThreads == |s.paths.ws| {
      AllStopped(cfg, s.paths);
    }
    match es[k]
    case Path(i, a) =>
      assert WorkerInv(cfg, s.paths.ws[w]);
      WorkersKeepWaiting(cfg, s, i, a, ss[k + 1], w);
    case Coordinator(a) => CoordinatorKeepsWaiting(cfg, s, a, ss[k + 1], w);
    case Tick(_) =>
  }

  /** The loop can be left only if some worker stops or a path is found: a worker that logs in
      but never sees its target waits for the stop flag, while the coordinator waits for the
      worker. Such a run never raises the flag, however long it is. */
  lemma {:induction false} HiddenTargetHangs(cfg: Config, ss: seq<State>, es: seq<Event>, n: nat, w: nat)
    requires IsRun(cfg, ss, es) && n < |ss| && w < |ss[0].paths.ws|
    requires forall i :: 0 <= i < |es| ==> TargetHidden(es[i], w)
    ensures Waiting(ss[n], w)
  {
    if n > 0 {
      HiddenTargetHangs(cfg, ss, es, n - 1, w);
      WaitingIsKept(cfg, ss, es, n - 1, w);
    }
  }
}
