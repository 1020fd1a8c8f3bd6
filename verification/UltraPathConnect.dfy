/** Connecting an NVMe volume over UltraPath (connector/nvme/nvme_helper.go): the coordinator
    `findDiskOfUltraPath` with its two exit predicates, run against the NVMe workers of
    `PathWorkers`, which may panic. Each load is a step of its own; what upadmin answers is
    arbitrary. */
module UltraPathConnect {
  import opened Basics
  import opened PathWorkers

  const CONNECT_TIMEOUT := 15

  datatype Exit =
    | NoneFound     // every worker had stopped and no device was on record
    | AllCounted    // a device was obtained and every login outcome was counted
    | TimedOut

  datatype UpPc =
    | Guard                     // load stoppedThreads
    | GuardFound                // all stopped: load the number of found devices
    | GuardLogin                // load numLogin
    | GuardFailed(logins: nat)  // load failedLogin
    | Clock
    | ClockStopped              // load stoppedThreads
    | Query                     // ask upadmin for the device
    | Sleeping(until: int)
    | Leaving(why: Exit)        // raise the stop flag
    | Joining(why: Exit)        // wait for every worker
    | Verifying(why: Exit)

  datatype State = State(paths: Paths, pc: UpPc, device: string, timeout: int, now: int)

  ghost predicate Coordinates(s: State, answer: string, s': State) {
    var sh, n := s.paths.sh, |s.paths.ws|;
    match s.pc
    case Guard => s' == s.(pc := if sh.stoppedThreads != n then GuardLogin else GuardFound)
    case GuardFound => s' == s.(pc := if sh.found != [] then GuardLogin else Leaving(NoneFound))
    case GuardLogin => s' == s.(pc := GuardFailed(sh.numLogin))
    case GuardFailed(logins) =>
      s' == s.(pc := if logins + sh.failedLogin != n || s.device == "" then Clock else Leaving(AllCounted))
    case Clock =>
      s' == s.(pc := if s.timeout == 0
                     then if sh.found != [] then ClockStopped else Query
                     else if s.now > s.timeout then Leaving(TimedOut) else Query)
    case ClockStopped =>
      s' == s.(timeout := if sh.stoppedThreads == n then s.now + CONNECT_TIMEOUT else s.timeout, pc := Query)
    case Query => s' == s.(device := answer, pc := Sleeping(s.now + 1))
    case Sleeping(until) => until <= s.now && s' == s.(pc := Guard)
    case Leaving(why) =>
      s' == s.(paths := s.paths.(sh := Controlled(sh, RaiseStop)), pc := Joining(why))
    case Joining(why) => (forall i :: 0 <= i < n ==> s.paths.ws[i].pc.Done?) && s' == s.(pc := Verifying(why))
    case Verifying(_) => false
  }

  datatype Event = Path(worker: nat, action: Action) | Coordinator(answer: string) | Tick(seconds: nat)

  ghost predicate Steps(cfg: Config, s: State, e: Event, s': State) {
    match e
    case Path(i, a) => Next(cfg, s.paths, Work(i, a), s'.paths) && s' == s.(paths := s'.paths)
    case Coordinator(answer) => Coordinates(s, answer, s')
    case Tick(seconds) => s' == s.(now := s.now + seconds)
  }

  ghost predicate InitialState(s: State) {
    Initial(s.paths) && s.pc.Guard? && s.device == "" && s.timeout == 0 && s.now > 0
  }

  ghost predicate LeftFor(s: State, why: Exit) {
    var sh, n := s.paths.sh, |s.paths.ws|;
    && (why.NoneFound? ==> sh.found == [] && sh.stoppedThreads == n)
    && (why.AllCounted? ==> s.device != "" && sh.numLogin + sh.failedLogin == n)
    && (why.TimedOut? ==> sh.stoppedThreads == n)
  }

  ghost predicate CoordinatorInv(s: State) {
    var sh, n := s.paths.sh, |s.paths.ws|;
    && s.now > 0 && 0 <= s.timeout <= s.now + CONNECT_TIMEOUT
    && (s.timeout != 0 ==> sh.stoppedThreads == n)
    && match s.pc
       case GuardFound => sh.stoppedThreads == n
       case GuardFailed(logins) => logins <= sh.numLogin
       case ClockStopped => s.timeout == 0 && sh.found != []
       case Leaving(why) => LeftFor(s, why)
       case Joining(why) => LeftFor(s, why) && sh.stop
       case Verifying(why) => LeftFor(s, why) && sh.stop
       case _ => true
  }

  ghost predicate UpInv(cfg: Config, s: State) {
    cfg.protocol.Nvme? && PathInv(cfg, s.paths) && CoordinatorInv(s)
  }

  lemma CoordinatorKeepsInv(cfg: Config, s: State, answer: string, s': State)
    requires UpInv(cfg, s) && Coordinates(s, answer, s')
    ensures UpInv(cfg, s')
  {
    CounterBounds(cfg, s.paths);
  }

  lemma WorkerKeepsInv(cfg: Config, s: State, i: nat, a: Action, s': State)
    requires UpInv(cfg, s) && Next(cfg, s.paths, Work(i, a), s'.paths) && s' == s.(paths := s'.paths)
    ensures UpInv(cfg, s')
  {
    NextKeepsPathInv(cfg, s.paths, Work(i, a), s'.paths);
    WorkOnlyAdds(cfg, s.paths, Work(i, a), s'.paths);
    CounterBounds(cfg, s'.paths);
  }

  // ----- whole runs

  ghost predicate StepAt(cfg: Config, ss: seq<State>, es: seq<Event>, i: nat)
    requires i < |es| && |ss| == |es| + 1
  {
    Steps(cfg, ss[i], es[i], ss[i + 1])
  }

  ghost predicate IsRun(cfg: Config, ss: seq<State>, es: seq<Event>) {
    && cfg.protocol.Nvme?
    && |ss| == |es| + 1
    && InitialState(ss[0])
    && forall i :: 0 <= i < |es| ==> StepAt(cfg, ss, es, i)
  }

  lemma InvAcross(cfg: Config, ss: seq<State>, es: seq<Event>, k: nat)
    requires IsRun(cfg, ss, es) && k < |es| && UpInv(cfg, ss[k])
    ensures UpInv(cfg, ss[k + 1]) && |ss[k + 1].paths.ws| == |ss[k].paths.ws|
  {
    assert StepAt(cfg, ss, es, k);
    match es[k]
    case Path(i, a) => WorkerKeepsInv(cfg, ss[k], i, a, ss[k + 1]);
    case Coordinator(answer) => CoordinatorKeepsInv(cfg, ss[k], answer, ss[k + 1]);
    case Tick(_) =>
  }

  lemma {:induction false} RunKeepsInv(cfg: Config, ss: seq<State>, es: seq<Event>, n: nat)
    requires IsRun(cfg, ss, es) && n < |ss|
    ensures UpInv(cfg, ss[n]) && |ss[n].paths.ws| == |ss[0].paths.ws|
  {
    if n == 0 {
      InitialPathInv(cfg, ss[0].paths);
    } else {
      RunKeepsInv(cfg, ss, es, n - 1);
      InvAcross(cfg, ss, es, n - 1);
    }
  }

  /** The reason for leaving the loop still holds of the shared record when the device is
      verified: "none found" means that no device is on record, "all counted" that a device
      was obtained and every worker has a login outcome. This holds with panicking workers too. */
  lemma UltraPathVerdict(cfg: Config, ss: seq<State>, es: seq<Event>, n: nat)
    requires IsRun(cfg, ss, es) && n < |ss| && ss[n].pc.Verifying?
    ensures ss[n].pc.why.NoneFound? ==> ss[n].paths.sh.found == []
    ensures ss[n].pc.why.AllCounted? ==>
              ss[n].device != "" && forall i :: 0 <= i < |ss[n].paths.ws| ==> ss[n].paths.ws[i].login != Pending
  {
    RunKeepsInv(cfg, ss, es, n);
    var ws := ss[n].paths.ws;
    if ss[n].pc.why.AllCounted? {
      CountOutcomes(ws);
      CountAll(ws, HasOutcome);
      assert forall i :: 0 <= i < |ws| ==> HasOutcome(ws[i]);
    }
  }

  // ----- the loop is left

  /** With all workers stopped: a bound on the sleeps the coordinator still takes. */
  function SleepsLeft(s: State): nat {
    var found := s.paths.sh.found != [];
    match s.pc
    case Leaving(_) => 0
    case Joining(_) => 0
    case Verifying(_) => 0
    case Sleeping(until) =>
      if s.timeout != 0 then 1 + Above(s.timeout + 1 - Later(s.now, until)) else if found then 17 else 1
    case Query => if s.timeout != 0 then 1 + Above(s.timeout - s.now) else if found then 17 else 1
    case _ =>
      if !found && (s.pc.Guard? || s.pc.GuardFound?) then 0
      else if s.timeout != 0 then Above(s.timeout + 1 - s.now)
      else if found then 16 else 1
  }

  lemma CoordinatorMakesProgress(s: State, answer: string, s': State)
    requires CoordinatorInv(s) && Coordinates(s, answer, s') && s.paths.sh.stoppedThreads == |s.paths.ws|
    ensures SleepsLeft(s') + Bit(s.pc.Sleeping?) <= SleepsLeft(s)
  {
  }

  lemma TimeMakesNoDemands(s: State, s': State)
    requires s' == s.(now := s'.now, paths := s.paths.(ws := s'.paths.ws)) && s.now <= s'.now
    ensures SleepsLeft(s') <= SleepsLeft(s)
  {
  }

  lemma {:induction false} StoppedStaysStopped(cfg: Config, ss: seq<State>, es: seq<Event>, m: nat, n: nat)
    requires IsRun(cfg, ss, es) && m <= n < |ss|
    requires ss[m].paths.sh.stoppedThreads == |ss[m].paths.ws|
    ensures ss[n].paths.sh.stoppedThreads == |ss[n].paths.ws|
  {
    if m < n {
      StoppedStaysStopped(cfg, ss, es, m, n - 1);
      RunKeepsInv(cfg, ss, es, n - 1);
      assert StepAt(cfg, ss, es, n - 1);
      if es[n - 1].Path? {
        WorkOnlyAdds(cfg, ss[n - 1].paths, Work(es[n - 1].worker, es[n - 1].action), ss[n].paths);
      }
    }
  }

  lemma SleepBudgetStep(cfg: Config, ss: seq<State>, es: seq<Event>, m: nat, k: nat)
    requires IsRun(cfg, ss, es) && m <= k < |es|
    requires ss[m].paths.sh.stoppedThreads == |ss[m].paths.ws|
    ensures Bit(es[k].Coordinator? && ss[k].pc.Sleeping?) + SleepsLeft(ss[k + 1]) <= SleepsLeft(ss[k])
  {
    RunKeepsInv(cfg, ss, es, k);
    StoppedStaysStopped(cfg, ss, es, m, k);
    assert StepAt(cfg, ss, es, k);
    if es[k].Coordinator? {
      CoordinatorMakesProgress(ss[k], es[k].answer, ss[k + 1]);
    } else {
      if es[k].Path? {
        WorkOnlyAdds(cfg, ss[k].paths, Work(es[k].worker, es[k].action), ss[k + 1].paths);
      }
      TimeMakesNoDemands(ss[k], ss[k + 1]);
    }
  }

  ghost function Wakes(ss: seq<State>, es: seq<Event>, m: nat, n: nat): nat
    requires m <= n < |ss| && |ss| == |es| + 1
  {
    if m == n then 0
    else Wakes(ss, es, m, n - 1) + if es[n - 1].Coordinator? && ss[n - 1].pc.Sleeping? then 1 else 0
  }

  lemma SleepsBounded(s: State)
    requires CoordinatorInv(s)
    ensures SleepsLeft(s) <= 17
  {
  }

  /** Once every worker has stopped, the coordinator goes round its loop at most 17 more times,
      whatever upadmin answers. */
  lemma {:induction false} LoopIsLeft(cfg: Config, ss: seq<State>, es: seq<Event>, m: nat, n: nat)
    requires IsRun(cfg, ss, es) && m <= n < |ss|
    requires ss[m].paths.sh.stoppedThreads == |ss[m].paths.ws|
    ensures Wakes(ss, es, m, n) + SleepsLeft(ss[n]) <= SleepsLeft(ss[m]) <= 17
  {
    if m < n {
      LoopIsLeft(cfg, ss, es, m, n - 1);
      SleepBudgetStep(cfg, ss, es, m, n - 1);
    } else {
      RunKeepsInv(cfg, ss, es, m);
      SleepsBounded(ss[m]);
    }
  }

  ghost function CoordinatorSteps(es: seq<Event>, m: nat, n: nat): nat
    requires m <= n <= |es|
  {
    if m == n then 0 else CoordinatorSteps(es, m, n - 1) + if es[n - 1].Coordinator? then 1 else 0
  }

  const LONGEST_TURN := 11

  /** Within one turn of the loop: a bound on the steps before the sleep. */
  function TurnLeft(s: State): nat {
    match s.pc
    case Guard => 11
    case GuardFound => 10
    case GuardLogin => 9
    case GuardFailed(_) => 8
    case Clock => 7
    case ClockStopped => 6
    case Query => 5
    case Sleeping(_) => 4
    case Leaving(_) => 3
    case Joining(_) => 2
    case Verifying(_) => 1
  }

  function StepsLeft(s: State): nat { SleepsLeft(s) * (LONGEST_TURN + 1) + TurnLeft(s) }

  lemma CoordinatorUsesStep(s: State, answer: string, s': State)
    requires CoordinatorInv(s) && Coordinates(s, answer, s') && s.paths.sh.stoppedThreads == |s.paths.ws|
    ensures StepsLeft(s') < StepsLeft(s)
  {
    CoordinatorMakesProgress(s, answer, s');
    TurnsAndRest(SleepsLeft(s), TurnLeft(s), SleepsLeft(s'), TurnLeft(s'), LONGEST_TURN);
  }

  /** Once every worker has stopped, the coordinator takes at most 215 more steps in all. */
  lemma {:induction false} CoordinatorEnds(cfg: Config, ss: seq<State>, es: seq<Event>, m: nat, n: nat)
    requires IsRun(cfg, ss, es) && m <= n < |ss|
    requires ss[m].paths.sh.stoppedThreads == |ss[m].paths.ws|
    ensures CoordinatorSteps(es, m, n) + StepsLeft(ss[n]) <= StepsLeft(ss[m]) <= 215
  {
    if m < n {
      CoordinatorEnds(cfg, ss, es, m, n - 1);
      RunKeepsInv(cfg, ss, es, n - 1);
      StoppedStaysStopped(cfg, ss, es, m, n - 1);
      assert StepAt(cfg, ss, es, n - 1);
      if es[n - 1].Coordinator? {
        CoordinatorUsesStep(ss[n - 1], es[n - 1].answer, ss[n]);
      } else {
        if es[n - 1].Path? {
          WorkOnlyAdds(cfg, ss[n - 1].paths, Work(es[n - 1].worker, es[n - 1].action), ss[n].paths);
        }
        TimeMakesNoDemands(ss[n - 1], ss[n]);
      }
    } else {
      RunKeepsInv(cfg, ss, es, m);
      SleepsBounded(ss[m]);
    }
  }

  /** In no state is everything stuck: until the device is verified the coordinator can step, or a worker that
      it waits for; a coordinator that sleeps can go on as soon as its second has passed. */
  lemma NeverStuck(cfg: Config, s: State, answer: string) returns (seconds: nat, late: State, e: Event, s': State)
    requires !s.pc.Verifying?
    ensures Steps(cfg, s, Tick(seconds), late) && seconds <= (if s.pc.Sleeping? then Above(s.pc.until - s.now) else 0)
    ensures Steps(cfg, late, e, s') && (s.pc.Joining? || e == Coordinator(answer))
  {
    seconds, late := 0, s;
    if s.pc.Joining? && !AllDone(s) {
      var i :| 0 <= i < |s.paths.ws| && !s.paths.ws[i].pc.Done?;
      var a, sh', w' := WorkerCanAct(cfg, s.paths.sh, s.paths.ws[i]);
      e, s' := Path(i, a), s.(paths := Paths(sh', s.paths.ws[i := w']));
    } else {
      if s.pc.Sleeping? {
        seconds := Above(s.pc.until - s.now);
        late := s.(now := s.now + seconds);
      }
      e := Coordinator(answer);
      s' := CoordinatorNext(late, answer);
    }
  }

  /** The step that the coordinator takes. */
  lemma CoordinatorNext(s: State, answer: string) returns (s': State)
    requires !s.pc.Verifying? && (s.pc.Sleeping? ==> s.pc.until <= s.now) && (s.pc.Joining? ==> AllDone(s))
    ensures Coordinates(s, answer, s')
  {
    var sh, n := s.paths.sh, |s.paths.ws|;
    match s.pc
    case Guard => s' := s.(pc := if sh.stoppedThreads != n then GuardLogin else GuardFound);
    case GuardFound => s' := s.(pc := if sh.found != [] then GuardLogin else Leaving(NoneFound));
    case GuardLogin => s' := s.(pc := GuardFailed(sh.numLogin));
    case GuardFailed(logins) =>
      s' := s.(pc := if logins + sh.failedLogin != n || s.device == "" then Clock else Leaving(AllCounted));
    case Clock =>
      s' := s.(pc := if s.timeout == 0
                     then if sh.found != [] then ClockStopped else Query
                     else if s.now > s.timeout then Leaving(TimedOut) else Query);
    case ClockStopped =>
      s' := s.(timeout := if sh.stoppedThreads == n then s.now + CONNECT_TIMEOUT else s.timeout, pc := Query);
    case Query => s' := s.(device := answer, pc := Sleeping(s.now + 1));
    case Sleeping(until) => s' := s.(pc := Guard);
    case Leaving(why) => s' := s.(paths := s.paths.(sh := Controlled(sh, RaiseStop)), pc := Joining(why));
    case Joining(why) => s' := s.(pc := Verifying(why));
  }

  // ----- an upadmin that knows the device, and the time it is given

  ghost predicate NamedInv(s: State, device: string) {
    && (s.device == "" || s.device == device)
    && (s.timeout != 0 && !s.pc.Query? ==> s.device == device)
    && (s.timeout != 0 || s.pc.ClockStopped? ==> s.paths.sh.found != [])
    && (LeftLoop(s) && !s.pc.why.NoneFound? ==> s.device == device)
  }

  lemma StepIsNamed(s: State, device: string, s': State)
    requires CoordinatorInv(s) && NamedInv(s, device) && Coordinates(s, device, s')
    ensures NamedInv(s', device)
  {
  }

  lemma {:induction false} RunIsNamed(cfg: Config, ss: seq<State>, es: seq<Event>, n: nat, device: string)
    requires IsRun(cfg, ss, es) && n < |ss|
    requires forall k :: 0 <= k < n && es[k].Coordinator? ==> es[k].answer == device
    ensures NamedInv(ss[n], device)
  {
    if n > 0 {
      RunIsNamed(cfg, ss, es, n - 1, device);
      RunKeepsInv(cfg, ss, es, n - 1);
      assert StepAt(cfg, ss, es, n - 1);
      if es[n - 1].Path? {
        WorkOnlyAdds(cfg, ss[n - 1].paths, Work(es[n - 1].worker, es[n - 1].action), ss[n].paths);
      } else if es[n - 1].Coordinator? {
        StepIsNamed(ss[n - 1], device, ss[n]);
      }
    }
  }

  /** If upadmin always names the device, in every interleaving the loop is left with it, unless every worker
      had stopped and no device was found. */
  lemma NamedDeviceIsVerified(cfg: Config, ss: seq<State>, es: seq<Event>, n: nat, device: string)
    requires IsRun(cfg, ss, es) && n < |ss| && ss[n].pc.Verifying?
    requires forall k :: 0 <= k < n && es[k].Coordinator? ==> es[k].answer == device
    ensures ss[n].device == device || (ss[n].pc.why.NoneFound? && ss[n].paths.sh.found == [])
  {
    RunIsNamed(cfg, ss, es, n, device);
    RunKeepsInv(cfg, ss, es, n);
  }

  ghost predicate GraceFrom(ss: seq<State>, m: nat, until: int)
    requires m < |ss|
  {
    ss[m].paths.sh.stoppedThreads == |ss[m].paths.ws| && ss[m].now + 15 == until
  }

  lemma {:induction false} DeadlineIsSet(cfg: Config, ss: seq<State>, es: seq<Event>, n: nat)
    requires IsRun(cfg, ss, es) && n < |ss|
    ensures ss[n].timeout != 0 ==> exists m :: 0 <= m <= n && GraceFrom(ss, m, ss[n].timeout)
    ensures LeftLoop(ss[n]) && ss[n].pc.why.TimedOut? ==> 0 != ss[n].timeout < ss[n].now
  {
    if n > 0 {
      DeadlineIsSet(cfg, ss, es, n - 1);
      assert StepAt(cfg, ss, es, n - 1);
      if 0 != ss[n - 1].timeout == ss[n].timeout {
        var m :| 0 <= m <= n - 1 && GraceFrom(ss, m, ss[n - 1].timeout);
        assert GraceFrom(ss, m, ss[n].timeout);
      } else if ss[n].timeout != 0 {
        assert GraceFrom(ss, n - 1, ss[n].timeout);
      }
    }
  }

  /** The coordinator gives up for want of time only when more than fifteen seconds have passed since a moment
      at which every worker had stopped. */
  lemma NoEarlyTimeout(cfg: Config, ss: seq<State>, es: seq<Event>, n: nat)
    requires IsRun(cfg, ss, es) && n < |ss| && LeftLoop(ss[n]) && ss[n].pc.why.TimedOut?
    ensures exists m :: 0 <= m <= n && ss[m].paths.sh.stoppedThreads == |ss[m].paths.ws| && ss[n].now > ss[m].now + 15
  {
    DeadlineIsSet(cfg, ss, es, n);
    var m :| 0 <= m <= n && GraceFrom(ss, m, ss[n].timeout);
    assert ss[m].paths.sh.stoppedThreads == |ss[m].paths.ws|;
  }

  // ----- when it is left, and when it is not

  predicate LeftLoop(s: State) { s.pc.Leaving? || s.pc.Joining? || s.pc.Verifying? }

  predicate AllStoppedIn(s: State) { s.paths.sh.stoppedThreads == |s.paths.ws| }

  predicate AllCountedIn(s: State) { s.paths.sh.numLogin + s.paths.sh.failedLogin == |s.paths.ws| }

  predicate AllDone(s: State) { forall i :: 0 <= i < |s.paths.ws| ==> s.paths.ws[i].pc.Done? }

  /** Whoever leaves the loop does so with all workers stopped, or with a device and all logins counted. */
  lemma LeavingNeeds(cfg: Config, ss: seq<State>, es: seq<Event>, n: nat)
    requires IsRun(cfg, ss, es) && n < |ss| && LeftLoop(ss[n])
    ensures AllStoppedIn(ss[n]) || (AllCountedIn(ss[n]) && ss[n].device != "")
  {
    RunKeepsInv(cfg, ss, es, n);
  }

  predicate IsPath(e: Event) { e.Path? }

  /** NVMe workers come to an end by themselves: a run has at most eight worker steps per worker. */
  lemma {:induction false} WorkersEnd(cfg: Config, ss: seq<State>, es: seq<Event>, n: nat)
    requires IsRun(cfg, ss, es) && n < |ss|
    ensures Count(es[..n], IsPath) + Sum(ss[n].paths.ws, Rank) <= 8 * |ss[0].paths.ws|
  {
    if n == 0 {
      SumBound(ss[0].paths.ws, Rank, 8);
    } else {
      WorkersEnd(cfg, ss, es, n - 1);
      RunKeepsInv(cfg, ss, es, n - 1);
      assert StepAt(cfg, ss, es, n - 1);
      assert es[..n] == es[..n - 1] + [es[n - 1]];
      CountAppend(es[..n - 1], [es[n - 1]], IsPath);
      assert [es[n - 1]][1..] == [];
      if es[n - 1].Path? {
        var i := es[n - 1].worker;
        var p, p' := ss[n - 1].paths, ss[n].paths;
        assert WorkerInv(cfg, p.ws[i]);
        ActsLowersRank(cfg, p.sh, p.ws[i], es[n - 1].action, p'.sh, p'.ws[i]);
        SumUpdate(p.ws, i, p'.ws[i], Rank);
      }
    }
  }

  /** Once every worker has returned, the workers and the counters stay as they are. */
  lemma {:induction false} DoneIsFinal(cfg: Config, ss: seq<State>, es: seq<Event>, m: nat, n: nat)
    requires IsRun(cfg, ss, es) && m <= n < |ss| && AllDone(ss[m])
    ensures ss[n].paths.ws == ss[m].paths.ws && ss[n].paths.sh == ss[m].paths.sh.(stop := ss[n].paths.sh.stop)
  {
    if m < n {
      DoneIsFinal(cfg, ss, es, m, n - 1);
      assert StepAt(cfg, ss, es, n - 1);
    }
  }

  /** The loop condition is evaluated with all logins counted and a device in hand. */
  predicate GuardSeesDevice(s: State) {
    s.pc.GuardFailed? && s.pc.logins + s.paths.sh.failedLogin == |s.paths.ws| && s.device != ""
  }

  ghost predicate DeviceInTime(ss: seq<State>, n: nat)
    requires n < |ss|
  {
    exists k :: 0 <= k <= n && GuardSeesDevice(ss[k])
  }

  /** Whoever has left because of a device had one when the loop condition was evaluated. */
  lemma {:induction false} SeenInTime(cfg: Config, ss: seq<State>, es: seq<Event>, n: nat)
    requires IsRun(cfg, ss, es) && n < |ss| && LeftLoop(ss[n]) && ss[n].pc.why.AllCounted?
    ensures DeviceInTime(ss, n)
  {
    if n > 0 {
      assert StepAt(cfg, ss, es, n - 1);
      if LeftLoop(ss[n - 1]) {
        SeenInTime(cfg, ss, es, n - 1);
      } else {
        assert GuardSeesDevice(ss[n - 1]);
      }
    }
  }

  /** After such an evaluation the loop is left at the next step of the coordinator. */
  lemma {:induction false} SeenLeaves(cfg: Config, ss: seq<State>, es: seq<Event>, k: nat, n: nat)
    requires IsRun(cfg, ss, es) && k <= n < |ss| && GuardSeesDevice(ss[k])
    ensures LeftLoop(ss[n]) || GuardSeesDevice(ss[n])
  {
    if k < n {
      SeenLeaves(cfg, ss, es, k, n - 1);
      RunKeepsInv(cfg, ss, es, n - 1);
      RunKeepsInv(cfg, ss, es, n);
      CounterBounds(cfg, ss[n].paths);
      assert StepAt(cfg, ss, es, n - 1);
      if es[n - 1].Path? {
        WorkOnlyAdds(cfg, ss[n - 1].paths, Work(es[n - 1].worker, es[n - 1].action), ss[n].paths);
      }
    }
  }

  /** Exactly when the loop is left. Take a run in which all workers have returned at some point, which they
      do by themselves, and which then goes on for 18 wake-ups or until the loop is left. It is left if
      and only if all workers had counted themselves as stopped, or some evaluation of the loop condition
      found all logins counted and a device named by upadmin. */
  lemma LoopIsLeftIff(cfg: Config, ss: seq<State>, es: seq<Event>, m: nat, n: nat)
    requires IsRun(cfg, ss, es) && m <= n < |ss| && AllDone(ss[m])
    requires LeftLoop(ss[n]) || (ss[n].pc.Sleeping? && Wakes(ss, es, m, n) >= 18)
    ensures LeftLoop(ss[n]) <==> AllStoppedIn(ss[m]) || DeviceInTime(ss, n)
  {
    DoneIsFinal(cfg, ss, es, m, n);
    if LeftLoop(ss[n]) {
      RunKeepsInv(cfg, ss, es, n);
      if ss[n].pc.why.AllCounted? {
        SeenInTime(cfg, ss, es, n);
      }
    }
    if AllStoppedIn(ss[m]) {
      LoopIsLeft(cfg, ss, es, m, n);
    }
    if k :| 0 <= k <= n && GuardSeesDevice(ss[k]) {
      SeenLeaves(cfg, ss, es, k, n);
    }
  }

  lemma {:induction false} PanickedStays(cfg: Config, ss: seq<State>, es: seq<Event>, m: nat, n: nat, w: nat)
    requires IsRun(cfg, ss, es) && m <= n < |ss| && w < |ss[m].paths.ws| && ss[m].paths.ws[w].pc.Done?
    ensures w < |ss[n].paths.ws| && ss[n].paths.ws[w] == ss[m].paths.ws[w]
  {
    if m < n {
      PanickedStays(cfg, ss, es, m, n - 1, w);
      assert StepAt(cfg, ss, es, n - 1);
    }
  }

  lemma NotAll(cfg: Config, s: State, w: nat)
    requires UpInv(cfg, s) && w < |s.paths.ws|
    ensures !s.paths.ws[w].stopped ==> !AllStoppedIn(s)
    ensures s.paths.ws[w].login.Pending? ==> !AllCountedIn(s)
  {
    CountAll(s.paths.ws, HasStopped);
    CountOutcomes(s.paths.ws);
    CountAll(s.paths.ws, HasOutcome);
    assert HasStopped(s.paths.ws[w]) == s.paths.ws[w].stopped;
    assert HasOutcome(s.paths.ws[w]) == !s.paths.ws[w].login.Pending?;
  }

  /** A worker that panics before its login outcome is counted hangs the connect whatever upadmin answers:
      the loop is never left, however long the run. */
  lemma PanicBeforeLoginHangs(cfg: Config, ss: seq<State>, es: seq<Event>, m: nat, n: nat, w: nat)
    requires IsRun(cfg, ss, es) && m <= n < |ss| && w < |ss[m].paths.ws|
    requires ss[m].paths.ws[w].pc.Done? && ss[m].paths.ws[w].login.Pending?
    ensures !LeftLoop(ss[n])
  {
    PanickedStays(cfg, ss, es, m, n, w);
    RunKeepsInv(cfg, ss, es, n);
    assert WorkerInv(cfg, ss[n].paths.ws[w]);
    NotAll(cfg, ss[n], w);
    if LeftLoop(ss[n]) {
      LeavingNeeds(cfg, ss, es, n);
    }
  }

  lemma {:induction false} NoDevice(cfg: Config, ss: seq<State>, es: seq<Event>, m: nat, n: nat)
    requires IsRun(cfg, ss, es) && m <= n < |ss| && ss[m].device == ""
    requires forall i :: m <= i < n && es[i].Coordinator? ==> es[i].answer == ""
    ensures ss[n].device == ""
  {
    if m < n {
      NoDevice(cfg, ss, es, m, n - 1);
      assert StepAt(cfg, ss, es, n - 1);
    }
  }

  /** A worker that panics later, but before it has counted itself as stopped, hangs the connect for as long
      as upadmin finds nothing. */
  lemma PanickedWorkerHangs(cfg: Config, ss: seq<State>, es: seq<Event>, m: nat, n: nat, w: nat)
    requires IsRun(cfg, ss, es) && m <= n < |ss| && w < |ss[m].paths.ws|
    requires ss[m].paths.ws[w].pc.Done? && !ss[m].paths.ws[w].stopped && ss[m].device == ""
    requires forall i :: m <= i < n && es[i].Coordinator? ==> es[i].answer == ""
    ensures !LeftLoop(ss[n])
  {
    PanickedStays(cfg, ss, es, m, n, w);
    RunKeepsInv(cfg, ss, es, n);
    NotAll(cfg, ss[n], w);
    NoDevice(cfg, ss, es, m, n);
    if LeftLoop(ss[n]) {
      LeavingNeeds(cfg, ss, es, n);
    }
  }

  /** Both start from the first step: any worker can panic at once, in a run with any number of workers. */
  lemma PanicCanHappen(cfg: Config, s: State, w: nat) returns (s': State)
    requires cfg.protocol.Nvme? && InitialState(s) && w < |s.paths.ws|
    ensures IsRun(cfg, [s, s'], [Path(w, Panic)])
    ensures w < |s'.paths.ws| && s'.paths.ws[w] == FreshWorker.(pc := Done)
  {
    s' := s.(paths := s.paths.(ws := s.paths.ws[w := FreshWorker.(pc := Done)]));
    assert StepAt(cfg, [s, s'], [Path(w, Panic)], 0);
  }
}
