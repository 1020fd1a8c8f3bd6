/** The goroutines that connect the paths of one volume, for iSCSI
    (connector/iscsi/iscsi_helper.go) and for NVMe (connector/nvme/nvme_helper.go).

    Every worker logs in, scans, may publish one device, counts itself as stopped and signals
    the wait group; all of them share one record of counters, lists and a stop flag. A
    coordinator reads that record, may empty or shorten the lists, and raises the flag. Each
    access to the shared record is one step, and steps interleave freely. */
module PathWorkers {
  import opened Basics
  import opened DeviceScan

  datatype Protocol = Iscsi | Nvme

  datatype Config = Config(protocol: Protocol, target: string)

  /** `shareData`. */
  datatype Shared = Shared(
    stop: bool, numLogin: nat, failedLogin: nat, stoppedThreads: nat,
    found: seq<string>, justAdded: seq<string>)

  const EmptyShared := Shared(false, 0, 0, 0, [], [])

  datatype Login = Pending | LoggedIn | Refused

  /** Where a worker is; it is about to do what the constructor names. */
  datatype Pc =
    | Dialing
    | Scanning(scan: Scan)           // iSCSI: a turn of the rescan loop
    | Probing(round: nat)            // NVMe: one of three scan rounds
    | Publishing(device: string)     // append to the found devices
    | Announcing(device: string)     // append to the just-added devices
    | Stopping                       // count itself as stopped
    | Returning                      // signal the wait group
    | Done

  /** A worker and what it has contributed to the shared record so far. */
  datatype Worker = Worker(pc: Pc, login: Login, published: bool, stopped: bool)

  const FreshWorker := Worker(Dialing, Pending, false, false)

  const NVME_ROUNDS := 3

  datatype Action =
    | Dial(ok: bool, manual: bool)
    | Look(seen: Observation)
    | Round(device: Result<string>)  // `Err` when the round broke off with an error
    | Publish
    | Announce
    | CountStop
    | SignalDone
    | Panic

  /** After the scan: publish the device, or stop without one. */
  function AfterScan(device: string): Pc {
    if device != "" then Publishing(device) else Stopping
  }

  ghost predicate Acts(cfg: Config, sh: Shared, w: Worker, a: Action, sh': Shared, w': Worker) {
    match a
    case Dial(ok, manual) =>
      && w.pc.Dialing?
      && (if ok
          then && sh' == sh.(numLogin := sh.numLogin + 1)
               && w' == w.(login := LoggedIn,
                           pc := if cfg.protocol.Iscsi? then Scanning(InitialScan(manual)) else Probing(1))
          else sh' == sh.(failedLogin := sh.failedLogin + 1) && w' == w.(login := Refused, pc := Stopping))
    case Look(seen) =>
      && w.pc.Scanning? && seen.stop == sh.stop && sh' == sh
      && (var tested := Pass(w.pc.scan, seen, cfg.target);
          w' == w.(pc := if DoScans(tested, seen) then Scanning(Wait(tested)) else AfterScan(tested.device)))
    case Round(device) =>
      && w.pc.Probing? && sh' == sh
      && w' == w.(pc := if device.Err? then Stopping
                        else if device.value != "" then Publishing(device.value)
                        else if sh.stop || w.pc.round >= NVME_ROUNDS then Stopping
                        else Probing(w.pc.round + 1))
    case Publish =>
      && w.pc.Publishing?
      && sh' == sh.(found := sh.found + [w.pc.device])
      && w' == w.(published := true, pc := Announcing(w.pc.device))
    case Announce =>
      && w.pc.Announcing?
      && sh' == sh.(justAdded := sh.justAdded + [w.pc.device])
      && w' == w.(pc := Stopping)
    case CountStop =>
      && w.pc.Stopping?
      && sh' == sh.(stoppedThreads := sh.stoppedThreads + 1)
      && w' == w.(stopped := true, pc := Returning)
    case SignalDone =>
      w.pc.Returning? && sh' == sh && w' == w.(pc := Done)
    case Panic =>
      // an NVMe worker signals the wait group from a deferred call
      cfg.protocol.Nvme? && !w.pc.Done? && sh' == sh && w' == w.(pc := Done)
  }

  /** What a coordinator may do to the shared record. */
  datatype Control =
    | Read
    | RaiseStop
    | ResetFound
    | ResetJustAdded
    | CutJustAdded(high: nat)  // `Cut(1, high)`: keep the elements 1 to high - 1

  function Controlled(sh: Shared, c: Control): Shared {
    match c
    case Read => sh
    case RaiseStop => sh.(stop := true)
    case ResetFound => sh.(found := [])
    case ResetJustAdded => sh.(justAdded := [])
    case CutJustAdded(high) =>
      if 1 <= high <= |sh.justAdded| then sh.(justAdded := sh.justAdded[1..high]) else sh
  }

  datatype Paths = Paths(sh: Shared, ws: seq<Worker>)

  datatype Step = Work(worker: nat, action: Action) | Coordinate(control: Control)

  ghost predicate Next(cfg: Config, p: Paths, step: Step, p': Paths) {
    match step
    case Work(i, a) =>
      && i < |p.ws| == |p'.ws|
      && Acts(cfg, p.sh, p.ws[i], a, p'.sh, p'.ws[i])
      && p'.ws == p.ws[i := p'.ws[i]]
    case Coordinate(c) => p' == Paths(Controlled(p.sh, c), p.ws)
  }

  ghost predicate Initial(p: Paths) {
    p.sh == EmptyShared && forall i :: 0 <= i < |p.ws| ==> p.ws[i] == FreshWorker
  }

  // ----- the invariant

  predicate HasLoggedIn(w: Worker) { w.login.LoggedIn? }
  predicate WasRefused(w: Worker) { w.login.Refused? }
  predicate HasOutcome(w: Worker) { !w.login.Pending? }
  predicate HasPublished(w: Worker) { w.published }
  predicate HasStopped(w: Worker) { w.stopped }

  ghost predicate WorkerInv(cfg: Config, w: Worker) {
    && (w.published ==> w.login.LoggedIn?)
    && (w.stopped ==> !w.login.Pending? && (w.pc.Returning? || w.pc.Done?))
    && match w.pc
       case Dialing => w == FreshWorker
       case Scanning(scan) =>
         && cfg.protocol.Iscsi? && w.login.LoggedIn? && !w.published
         && -1 <= scan.numRescans <= DEVICE_SCAN_ATTEMPTS && scan.device == ""
       case Probing(round) =>
         cfg.protocol.Nvme? && w.login.LoggedIn? && !w.published && 1 <= round <= NVME_ROUNDS
       case Publishing(device) => w.login.LoggedIn? && !w.published && device != ""
       case Announcing(_) => w.login.LoggedIn? && w.published
       case Stopping => !w.login.Pending?
       case Returning => w.stopped
       case Done => cfg.protocol.Iscsi? ==> w.stopped
  }

  ghost predicate PathInv(cfg: Config, p: Paths) {
    && (forall i :: 0 <= i < |p.ws| ==> WorkerInv(cfg, p.ws[i]))
    && p.sh.numLogin == Count(p.ws, HasLoggedIn)
    && p.sh.failedLogin == Count(p.ws, WasRefused)
    && p.sh.stoppedThreads == Count(p.ws, HasStopped)
    && |p.sh.found| <= Count(p.ws, HasPublished)
  }

  lemma InitialPathInv(cfg: Config, p: Paths)
    requires Initial(p)
    ensures PathInv(cfg, p)
  {
    CountNone(p.ws, HasLoggedIn);
    CountNone(p.ws, WasRefused);
    CountNone(p.ws, HasStopped);
    CountNone(p.ws, HasPublished);
  }

  lemma ActsKeepsWorkerInv(cfg: Config, sh: Shared, w: Worker, a: Action, sh': Shared, w': Worker)
    requires WorkerInv(cfg, w) && Acts(cfg, sh, w, a, sh', w')
    ensures WorkerInv(cfg, w')
  {
  }

  lemma NextKeepsPathInv(cfg: Config, p: Paths, step: Step, p': Paths)
    requires PathInv(cfg, p) && Next(cfg, p, step, p')
    ensures PathInv(cfg, p')
  {
    if step.Work? {
      var i, w, w' := step.worker, p.ws[step.worker], p'.ws[step.worker];
      ActsKeepsWorkerInv(cfg, p.sh, w, step.action, p'.sh, w');
      CountUpdate(p.ws, i, w', HasLoggedIn);
      CountUpdate(p.ws, i, w', WasRefused);
      CountUpdate(p.ws, i, w', HasStopped);
      CountUpdate(p.ws, i, w', HasPublished);
    }
  }

  /** The counters never overtake each other: stopped workers have a login outcome, outcomes
      do not exceed the workers, and devices on record do not exceed successful logins. */
  lemma CounterBounds(cfg: Config, p: Paths)
    requires PathInv(cfg, p)
    ensures p.sh.stoppedThreads <= p.sh.numLogin + p.sh.failedLogin <= |p.ws|
    ensures |p.sh.found| <= p.sh.numLogin
  {
    CountImplies(p.ws, HasPublished, HasLoggedIn);
    CountOutcomes(p.ws);
    CountImplies(p.ws, HasStopped, HasOutcome);
  }

  lemma {:induction false} CountOutcomes(ws: seq<Worker>)
    ensures Count(ws, HasOutcome) == Count(ws, HasLoggedIn) + Count(ws, WasRefused)
  {
    if ws != [] {
      CountOutcomes(ws[1..]);
    }
  }

  /** Once as many workers as there are have stopped, every one has: all login outcomes are
      counted, and none of them will touch the record again. */
  lemma AllStopped(cfg: Config, p: Paths)
    requires PathInv(cfg, p) && p.sh.stoppedThreads == |p.ws|
    ensures forall i :: 0 <= i < |p.ws| ==> p.ws[i].stopped && (p.ws[i].pc.Returning? || p.ws[i].pc.Done?)
    ensures p.sh.numLogin + p.sh.failedLogin == |p.ws|
  {
    CountAll(p.ws, HasStopped);
    CounterBounds(cfg, p);
  }

  /** Workers alone never shorten a list, lower a counter or touch the stop flag. */
  lemma WorkOnlyAdds(cfg: Config, p: Paths, step: Step, p': Paths)
    requires PathInv(cfg, p) && Next(cfg, p, step, p') && step.Work?
    ensures p.sh.found <= p'.sh.found && p.sh.justAdded <= p'.sh.justAdded && p.sh.stop == p'.sh.stop
    ensures p.sh.stoppedThreads <= p'.sh.stoppedThreads
    ensures p.sh.numLogin <= p'.sh.numLogin && p.sh.failedLogin <= p'.sh.failedLogin
    ensures p.sh.stoppedThreads == |p.ws| ==> p'.sh == p.sh
  {
    if p.sh.stoppedThreads == |p.ws| {
      AllStopped(cfg, p);
    }
  }

  // ----- whole runs

  ghost predicate StepAt(cfg: Config, ps: seq<Paths>, steps: seq<Step>, i: nat)
    requires i < |steps| && |ps| == |steps| + 1
  {
    Next(cfg, ps[i], steps[i], ps[i + 1])
  }

  ghost predicate IsRun(cfg: Config, ps: seq<Paths>, steps: seq<Step>) {
    && |ps| == |steps| + 1
    && Initial(ps[0])
    && forall i :: 0 <= i < |steps| ==> StepAt(cfg, ps, steps, i)
  }

  /** The steps of a run in which worker `i` counts a login outcome, publishes, or stops. */
  function DialOf(i: nat): Step -> bool { (s: Step) => s.Work? && s.worker == i && s.action.Dial? }
  function LoginOf(i: nat): Step -> bool { (s: Step) => s.Work? && s.worker == i && s.action.Dial? && s.action.ok }
  function PublishOf(i: nat): Step -> bool { (s: Step) => s.Work? && s.worker == i && s.action.Publish? }
  function StopOf(i: nat): Step -> bool { (s: Step) => s.Work? && s.worker == i && s.action.CountStop? }

  lemma {:induction false} RunKeepsInv(cfg: Config, ps: seq<Paths>, steps: seq<Step>, n: nat)
    requires IsRun(cfg, ps, steps) && n < |ps|
    ensures PathInv(cfg, ps[n]) && |ps[n].ws| == |ps[0].ws|
  {
    if n == 0 {
      InitialPathInv(cfg, ps[0]);
    } else {
      RunKeepsInv(cfg, ps, steps, n - 1);
      assert StepAt(cfg, ps, steps, n - 1);
      NextKeepsPathInv(cfg, ps[n - 1], steps[n - 1], ps[n]);
    }
  }

  /** What one step adds to a worker's record. */
  lemma RecordOfStep(cfg: Config, p: Paths, step: Step, p': Paths, i: nat)
    requires PathInv(cfg, p) && Next(cfg, p, step, p') && i < |p.ws|
    ensures |p'.ws| == |p.ws|
    ensures Bit(!p'.ws[i].login.Pending?) == Bit(!p.ws[i].login.Pending?) + Bit(DialOf(i)(step))
    ensures Bit(p'.ws[i].login.LoggedIn?) == Bit(p.ws[i].login.LoggedIn?) + Bit(LoginOf(i)(step))
    ensures Bit(p'.ws[i].published) == Bit(p.ws[i].published) + Bit(PublishOf(i)(step))
    ensures Bit(p'.ws[i].stopped) == Bit(p.ws[i].stopped) + Bit(StopOf(i)(step))
  {
    assert WorkerInv(cfg, p.ws[i]);
  }

  /** What a worker's record says it has done is what the run so far shows it doing. */
  lemma {:induction false} HistoryOfWorker(cfg: Config, ps: seq<Paths>, steps: seq<Step>, n: nat, i: nat)
    requires IsRun(cfg, ps, steps) && n < |ps| && i < |ps[0].ws|
    ensures |ps[n].ws| == |ps[0].ws|
    ensures Count(steps[..n], DialOf(i)) == Bit(!ps[n].ws[i].login.Pending?)
    ensures Count(steps[..n], LoginOf(i)) == Bit(ps[n].ws[i].login.LoggedIn?)
    ensures Count(steps[..n], PublishOf(i)) == Bit(ps[n].ws[i].published)
    ensures Count(steps[..n], StopOf(i)) == Bit(ps[n].ws[i].stopped)
  {
    if n > 0 {
      HistoryOfWorker(cfg, ps, steps, n - 1, i);
      RunKeepsInv(cfg, ps, steps, n - 1);
      assert StepAt(cfg, ps, steps, n - 1);
      RecordOfStep(cfg, ps[n - 1], steps[n - 1], ps[n], i);
      CountLast(steps, n, DialOf(i));
      CountLast(steps, n, LoginOf(i));
      CountLast(steps, n, PublishOf(i));
      CountLast(steps, n, StopOf(i));
    }
  }

  lemma CountLast(steps: seq<Step>, n: nat, p: Step -> bool)
    requires 0 < n <= |steps|
    ensures Count(steps[..n], p) == Count(steps[..n - 1], p) + Bit(p(steps[n - 1]))
  {
    assert steps[..n] == steps[..n - 1] + [steps[n - 1]];
    CountAppend(steps[..n - 1], [steps[n - 1]], p);
    assert [steps[n - 1]][1..] == [];
  }

  lemma CountSlice(steps: seq<Step>, m: nat, n: nat, p: Step -> bool)
    requires m < n <= |steps|
    ensures Count(steps[m..n], p) == Count(steps[m..n - 1], p) + Bit(p(steps[n - 1]))
  {
    assert steps[m..][..n - m] == steps[m..n] && steps[m..][..n - m - 1] == steps[m..n - 1];
    CountLast(steps[m..], n - m, p);
  }

  /** In every interleaving, after every step: a worker has counted at most one login outcome
      and has one before it stops; it has published at most one device, and only after a
      successful login; and the counters keep their order. */
  lemma EveryInterleaving(cfg: Config, ps: seq<Paths>, steps: seq<Step>, n: nat)
    requires IsRun(cfg, ps, steps) && n < |ps|
    ensures forall i :: 0 <= i < |ps[0].ws| ==>
              && Count(steps[..n], StopOf(i)) <= Count(steps[..n], DialOf(i)) <= 1
              && Count(steps[..n], PublishOf(i)) <= Count(steps[..n], LoginOf(i)) <= Count(steps[..n], DialOf(i))
    ensures var sh := ps[n].sh;
            && sh.stoppedThreads <= sh.numLogin + sh.failedLogin <= |ps[0].ws|
            && |sh.found| <= sh.numLogin
  {
    RunKeepsInv(cfg, ps, steps, n);
    CounterBounds(cfg, ps[n]);
    forall i | 0 <= i < |ps[0].ws|
      ensures Count(steps[..n], StopOf(i)) <= Count(steps[..n], DialOf(i)) <= 1
      ensures Count(steps[..n], PublishOf(i)) <= Count(steps[..n], LoginOf(i)) <= Count(steps[..n], DialOf(i))
    {
      HistoryOfWorker(cfg, ps, steps, n, i);
      assert WorkerInv(cfg, ps[n].ws[i]);
    }
  }

  // ----- what the lists hold, and why a worker gives none

  function AnnounceOf(i: nat): Step -> bool { (s: Step) => s.Work? && s.worker == i && s.action.Announce? }
  function RoundOf(i: nat): Step -> bool { (s: Step) => s.Work? && s.worker == i && s.action.Round? }
  predicate Announces(s: Step) { s.Work? && s.action.Announce? }
  predicate EmptiesFound(s: Step) { s.Coordinate? && s.control.ResetFound? }
  predicate ShortensAdded(s: Step) { s.Coordinate? && (s.control.ResetJustAdded? || s.control.CutJustAdded?) }

  lemma StepOnLists(cfg: Config, p: Paths, step: Step, p': Paths)
    requires PathInv(cfg, p) && Next(cfg, p, step, p')
    ensures !EmptiesFound(step) ==>
              |p'.sh.found| - |p.sh.found| == Count(p'.ws, HasPublished) - Count(p.ws, HasPublished)
    ensures !ShortensAdded(step) ==> |p'.sh.justAdded| == |p.sh.justAdded| + Bit(Announces(step))
  {
    if step.Work? {
      assert WorkerInv(cfg, p.ws[step.worker]);
      CountUpdate(p.ws, step.worker, p'.ws[step.worker], HasPublished);
    }
  }

  /** Without a reset there are as many found devices as workers that have published. */
  lemma {:induction false} FoundIsComplete(cfg: Config, ps: seq<Paths>, steps: seq<Step>, n: nat)
    requires IsRun(cfg, ps, steps) && n < |ps| && forall k :: 0 <= k < n ==> !EmptiesFound(steps[k])
    ensures |ps[n].sh.found| == Count(ps[n].ws, HasPublished)
  {
    if n > 0 {
      FoundIsComplete(cfg, ps, steps, n - 1);
      RunKeepsInv(cfg, ps, steps, n - 1);
      assert StepAt(cfg, ps, steps, n - 1);
      StepOnLists(cfg, ps[n - 1], steps[n - 1], ps[n]);
    } else {
      CountNone(ps[0].ws, HasPublished);
    }
  }

  /** Without a reset or a cut the just-added devices are all those announced. */
  lemma {:induction false} AddedIsComplete(cfg: Config, ps: seq<Paths>, steps: seq<Step>, n: nat)
    requires IsRun(cfg, ps, steps) && n < |ps| && forall k :: 0 <= k < n ==> !ShortensAdded(steps[k])
    ensures |ps[n].sh.justAdded| == Count(steps[..n], Announces)
  {
    if n > 0 {
      AddedIsComplete(cfg, ps, steps, n - 1);
      RunKeepsInv(cfg, ps, steps, n - 1);
      assert StepAt(cfg, ps, steps, n - 1);
      StepOnLists(cfg, ps[n - 1], steps[n - 1], ps[n]);
      CountLast(steps, n, Announces);
    }
  }

  /** The worker's action that leaves it without a device: a refused login; a turn of the rescan loop that ends
      it without one; or a round that breaks off, or finds nothing with the stop flag up or as the third. */
  predicate GivesUp(cfg: Config, p: Paths, step: Step, i: nat) {
    && step.Work? && step.worker == i < |p.ws|
    && match step.action
       case Dial(ok, _) => !ok
       case Look(seen) =>
         && p.ws[i].pc.Scanning?
         && (var tested := Pass(p.ws[i].pc.scan, seen, cfg.target); tested.device == "" && !DoScans(tested, seen))
       case Round(device) =>
         device.Err? || (device.value == "" && (p.sh.stop || (p.ws[i].pc.Probing? && p.ws[i].pc.round == 3)))
       case _ => false
  }

  ghost predicate HasGivenUp(cfg: Config, ps: seq<Paths>, steps: seq<Step>, n: nat, i: nat)
    requires n <= |steps| && |ps| == |steps| + 1
  {
    exists k :: 0 <= k < n && GivesUp(cfg, ps[k], steps[k], i)
  }

  /** What a worker has done by the time it is where it is. */
  ghost predicate PlaceOf(w: Worker, rounds: nat, announced: nat, gaveUp: bool) {
    match w.pc
    case Dialing => rounds == 0 && announced == 0
    case Scanning(_) => announced == 0
    case Probing(round) => rounds == round - 1 && announced == 0
    case Publishing(_) => rounds <= 3 && announced == 0
    case Announcing(_) => rounds <= 3 && announced == 0
    case _ => rounds <= 3 && announced == Bit(w.published) && (w.published || gaveUp)
  }

  lemma StepKeepsPlace(cfg: Config, p: Paths, step: Step, p': Paths, i: nat, rounds: nat, announced: nat, gaveUp: bool)
    requires PathInv(cfg, p) && Next(cfg, p, step, p') && i < |p.ws| && PlaceOf(p.ws[i], rounds, announced, gaveUp)
    requires cfg.protocol.Iscsi? ==> rounds == 0
    requires !(step.Work? && step.action.Panic?)
    ensures |p'.ws| == |p.ws|
    ensures PlaceOf(p'.ws[i], rounds + Bit(RoundOf(i)(step)), announced + Bit(AnnounceOf(i)(step)),
                    gaveUp || GivesUp(cfg, p, step, i))
    ensures cfg.protocol.Iscsi? ==> !RoundOf(i)(step)
  {
    assert WorkerInv(cfg, p.ws[i]);
  }

  lemma {:induction false} RunKeepsPlace(cfg: Config, ps: seq<Paths>, steps: seq<Step>, n: nat, i: nat)
    requires IsRun(cfg, ps, steps) && n < |ps| && i < |ps[0].ws|
    requires forall k :: 0 <= k < n ==> !(steps[k].Work? && steps[k].action.Panic?)
    ensures |ps[n].ws| == |ps[0].ws|
    ensures PlaceOf(ps[n].ws[i], Count(steps[..n], RoundOf(i)), Count(steps[..n], AnnounceOf(i)),
                    HasGivenUp(cfg, ps, steps, n, i))
    ensures cfg.protocol.Iscsi? ==> Count(steps[..n], RoundOf(i)) == 0
  {
    if n > 0 {
      RunKeepsPlace(cfg, ps, steps, n - 1, i);
      RunKeepsInv(cfg, ps, steps, n - 1);
      assert StepAt(cfg, ps, steps, n - 1);
      StepKeepsPlace(cfg, ps[n - 1], steps[n - 1], ps[n], i, Count(steps[..n - 1], RoundOf(i)),
                     Count(steps[..n - 1], AnnounceOf(i)), HasGivenUp(cfg, ps, steps, n - 1, i));
      CountLast(steps, n, RoundOf(i));
      CountLast(steps, n, AnnounceOf(i));
    }
  }

  /** In every run without a panic: a worker that has stopped has published and announced a device, unless its
      login was refused or its scan gave up. In particular, with all logins and scans successful every worker
      that has stopped has published. */
  lemma StoppedHasPublishedOrGivenUp(cfg: Config, ps: seq<Paths>, steps: seq<Step>, n: nat, i: nat)
    requires IsRun(cfg, ps, steps) && n < |ps| && i < |ps[0].ws|
    requires forall k :: 0 <= k < n ==> !(steps[k].Work? && steps[k].action.Panic?)
    ensures i < |ps[n].ws| && (ps[n].ws[i].stopped ==> ps[n].ws[i].published || HasGivenUp(cfg, ps, steps, n, i))
    ensures ps[n].ws[i].stopped ==> Count(steps[..n], AnnounceOf(i)) == Bit(ps[n].ws[i].published)
    ensures Count(steps[..n], RoundOf(i)) <= 3
  {
    RunKeepsPlace(cfg, ps, steps, n, i);
    RunKeepsInv(cfg, ps, steps, n);
    assert WorkerInv(cfg, ps[n].ws[i]);
  }

  // ----- devices on record were checked

  predicate ChecksDevice(cfg: Config, s: Step, device: string) {
    s.Work? && s.action.Look? && s.action.seen.device == device && Usable(s.action.seen, cfg.target)
  }

  ghost predicate WasChecked(cfg: Config, steps: seq<Step>, n: nat, device: string)
    requires n <= |steps|
  {
    exists k :: 0 <= k < n && ChecksDevice(cfg, steps[k], device)
  }

  ghost predicate DeviceInHand(w: Worker, device: string) {
    (w.pc.Publishing? || w.pc.Announcing?) && w.pc.device == device
  }

  lemma {:induction false} HeldDevicesWereChecked(cfg: Config, ps: seq<Paths>, steps: seq<Step>, n: nat)
    requires IsRun(cfg, ps, steps) && cfg.protocol.Iscsi? && n < |ps|
    ensures forall d :: d in ps[n].sh.found || d in ps[n].sh.justAdded ==> WasChecked(cfg, steps, n, d)
    ensures forall i, d :: 0 <= i < |ps[n].ws| && DeviceInHand(ps[n].ws[i], d) ==> WasChecked(cfg, steps, n, d)
  {
    if n > 0 {
      HeldDevicesWereChecked(cfg, ps, steps, n - 1);
      RunKeepsInv(cfg, ps, steps, n - 1);
      assert StepAt(cfg, ps, steps, n - 1);
      var p, step, p' := ps[n - 1], steps[n - 1], ps[n];
      assert forall d :: WasChecked(cfg, steps, n - 1, d) ==> WasChecked(cfg, steps, n, d);
      forall i, d | 0 <= i < |p'.ws| && DeviceInHand(p'.ws[i], d) ensures WasChecked(cfg, steps, n, d) {
        if !DeviceInHand(p.ws[i], d) {
          assert WorkerInv(cfg, p.ws[i]);
          assert ChecksDevice(cfg, steps[n - 1], d);
        }
      }
      forall d | d in p'.sh.found || d in p'.sh.justAdded ensures WasChecked(cfg, steps, n, d) {
        if !(d in p.sh.found || d in p.sh.justAdded) {
          assert DeviceInHand(p.ws[step.worker], d);
        }
      }
    }
  }

  // ----- workers come to an end

  /** A bound on the steps a worker has left when nothing keeps its scan going. */
  function Rank(w: Worker): nat {
    match w.pc
    case Dialing => 8
    case Scanning(_) => 5
    case Probing(round) => if round <= NVME_ROUNDS then 5 + NVME_ROUNDS - round else 5
    case Publishing(_) => 4
    case Announcing(_) => 3
    case Stopping => 2
    case Returning => 1
    case Done => 0
  }

  lemma ActsLowersRank(cfg: Config, sh: Shared, w: Worker, a: Action, sh': Shared, w': Worker)
    requires WorkerInv(cfg, w) && Acts(cfg, sh, w, a, sh', w')
    requires cfg.protocol.Nvme? || sh.stop
    ensures Rank(w') < Rank(w)
  {
  }

  function WorkOf(i: nat): Step -> bool { (s: Step) => s.Work? && s.worker == i }

  lemma {:induction false} StopStaysRaised(cfg: Config, ps: seq<Paths>, steps: seq<Step>, m: nat, n: nat)
    requires IsRun(cfg, ps, steps) && m <= n < |ps| && ps[m].sh.stop
    ensures ps[n].sh.stop
  {
    if m < n {
      StopStaysRaised(cfg, ps, steps, m, n - 1);
      assert StepAt(cfg, ps, steps, n - 1);
    }
  }

  lemma WorkLowersRank(cfg: Config, ps: seq<Paths>, steps: seq<Step>, m: nat, k: nat, i: nat)
    requires IsRun(cfg, ps, steps) && m <= k < |steps| && i < |ps[0].ws|
    requires cfg.protocol.Nvme? || ps[m].sh.stop
    ensures |ps[k].ws| == |ps[k + 1].ws| == |ps[0].ws|
    ensures Bit(WorkOf(i)(steps[k])) + Rank(ps[k + 1].ws[i]) <= Rank(ps[k].ws[i])
  {
    RunKeepsInv(cfg, ps, steps, k);
    RunKeepsInv(cfg, ps, steps, k + 1);
    assert StepAt(cfg, ps, steps, k);
    if steps[k].Work? && steps[k].worker == i {
      if cfg.protocol.Iscsi? { StopStaysRaised(cfg, ps, steps, m, k); }
      assert WorkerInv(cfg, ps[k].ws[i]);
      ActsLowersRank(cfg, ps[k].sh, ps[k].ws[i], steps[k].action, ps[k + 1].sh, ps[k + 1].ws[i]);
    }
  }

  lemma RunKeepsSize(cfg: Config, ps: seq<Paths>, steps: seq<Step>, n: nat)
    requires IsRun(cfg, ps, steps) && n < |ps|
    ensures |ps[n].ws| == |ps[0].ws|
  {
    RunKeepsInv(cfg, ps, steps, n);
  }

  /** An NVMe worker, and an iSCSI worker once the stop flag is raised, takes at most eight
      more steps whatever the host answers: at most three scan rounds, or one more look. */
  lemma {:induction false} WorkersStop(cfg: Config, ps: seq<Paths>, steps: seq<Step>, m: nat, n: nat, i: nat)
    requires IsRun(cfg, ps, steps) && m <= n < |ps| && i < |ps[0].ws|
    requires cfg.protocol.Nvme? || ps[m].sh.stop
    ensures |ps[m].ws| == |ps[n].ws| == |ps[0].ws|
    ensures Count(steps[m..n], WorkOf(i)) + Rank(ps[n].ws[i]) <= Rank(ps[m].ws[i]) <= 8
  {
    RunKeepsSize(cfg, ps, steps, m);
    if m < n {
      WorkersStop(cfg, ps, steps, m, n - 1, i);
      WorkLowersRank(cfg, ps, steps, m, n - 1, i);
      CountSlice(steps, m, n, WorkOf(i));
    }
  }

  /** A worker that has not signalled the wait group can always take a step. */
  lemma WorkerCanAct(cfg: Config, sh: Shared, w: Worker) returns (a: Action, sh': Shared, w': Worker)
    requires !w.pc.Done?
    ensures Acts(cfg, sh, w, a, sh', w')
  {
    match w.pc
    case Dialing =>
      a, sh', w' := Dial(false, false), sh.(failedLogin := sh.failedLogin + 1), w.(login := Refused, pc := Stopping);
    case Scanning(scan) =>
      var seen := Observation(false, "", false, Err, sh.stop);
      var tested := Pass(scan, seen, cfg.target);
      a, sh' := Look(seen), sh;
      w' := w.(pc := if DoScans(tested, seen) then Scanning(Wait(tested)) else AfterScan(tested.device));
    case Probing(_) =>
      a, sh', w' := Round(Err), sh, w.(pc := Stopping);
    case Publishing(device) =>
      a, sh', w' := Publish, sh.(found := sh.found + [device]), w.(published := true, pc := Announcing(device));
    case Announcing(device) =>
      a, sh', w' := Announce, sh.(justAdded := sh.justAdded + [device]), w.(pc := Stopping);
    case Stopping =>
      a, sh', w' := CountStop, sh.(stoppedThreads := sh.stoppedThreads + 1), w.(stopped := true, pc := Returning);
    case Returning =>
      a, sh', w' := SignalDone, sh, w.(pc := Done);
  }

  // ----- workers whose target shows up come to an end without being told

  /** A look that does not find the host:channel:target:lun, now or before, and is not told to stop. */
  predicate IsBlind(w: Worker, a: Action) {
    a.Look? && w.pc.Scanning? && !w.pc.scan.known && !a.seen.hctl && !a.seen.stop
  }

  /** A scan has at most 54 waits ahead of it. */
  predicate BudgetInv(w: Worker) {
    w.pc.Scanning? ==> w.pc.scan.numRescans >= -1 && 0 <= WaitsAhead(w.pc.scan) <= 54
  }

  /** A bound on the steps a worker has left, blind looks aside. */
  function Patience(w: Worker): nat {
    match w.pc
    case Dialing => 61
    case Scanning(scan) =>
      if scan.known && scan.numRescans >= -1 then 5 + Above(WaitsAhead(scan)) else 60
    case _ => Rank(w)
  }

  lemma ActsKeepsBudget(cfg: Config, sh: Shared, w: Worker, a: Action, sh': Shared, w': Worker)
    requires BudgetInv(w) && Acts(cfg, sh, w, a, sh', w')
    ensures BudgetInv(w')
  {
    if a.Look? && DoScans(Pass(w.pc.scan, a.seen, cfg.target), a.seen) {
      WaitUsesBudget(w.pc.scan, a.seen, cfg.target);
    }
    if a.Dial? {
      InitialBudget(a.manual);
    }
  }

  /** Every step but a blind look uses up patience. */
  lemma ActsUsesPatience(cfg: Config, sh: Shared, w: Worker, a: Action, sh': Shared, w': Worker)
    requires WorkerInv(cfg, w) && BudgetInv(w) && Acts(cfg, sh, w, a, sh', w')
    ensures Patience(w') + Bit(!IsBlind(w, a)) <= Patience(w)
  {
    if a.Look? && DoScans(Pass(w.pc.scan, a.seen, cfg.target), a.seen) {
      WaitUsesBudget(w.pc.scan, a.seen, cfg.target);
    }
  }
}
