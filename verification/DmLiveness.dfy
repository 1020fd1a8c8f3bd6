/** When the DM connect of module DmConnect comes to an end: how long the workers and the coordinator go
    on, and exactly when the polling loop is left. */
module DmLiveness {
  import opened Basics
  import opened DeviceScan
  import opened DmConnect
  import opened PathWorkers

  // ----- the workers

  /** The worker steps among the first `n` events that are not blind looks. */
  ghost function SightedWork(ss: seq<State>, es: seq<Event>, n: nat): nat
    requires n < |ss| == |es| + 1
  {
    if n == 0 then 0 else SightedWork(ss, es, n - 1) + if IsSighted(ss[n - 1], es[n - 1]) then 1 else 0
  }

  predicate IsSighted(s: State, e: Event) {
    e.Path? && e.worker < |s.paths.ws| && !IsBlind(s.paths.ws[e.worker], e.action)
  }

  ghost predicate BudgetsIn(s: State) { forall i :: 0 <= i < |s.paths.ws| ==> BudgetInv(s.paths.ws[i]) }

  lemma {:induction false} RunKeepsBudgets(cfg: Config, ss: seq<State>, es: seq<Event>, n: nat)
    requires DmConnect.IsRun(cfg, ss, es) && n < |ss|
    ensures BudgetsIn(ss[n])
  {
    if n > 0 {
      RunKeepsBudgets(cfg, ss, es, n - 1);
      assert DmConnect.StepAt(cfg, ss, es, n - 1);
      StepKeepsBudgets(cfg, ss[n - 1], es[n - 1], ss[n]);
    }
  }

  lemma StepKeepsBudgets(cfg: Config, s: State, e: Event, s': State)
    requires BudgetsIn(s) && Steps(cfg, s, e, s')
    ensures BudgetsIn(s')
  {
    match e
    case Path(i, a) => ActsKeepsBudget(cfg, s.paths.sh, s.paths.ws[i], a, s'.paths.sh, s'.paths.ws[i]);
    case Coordinator(a) => CoordinatesIsAControl(cfg, s, a, s');
    case Tick(_) =>
  }

  lemma StepUsesPatience(cfg: Config, s: State, e: Event, s': State)
    requires DmInv(cfg, s) && BudgetsIn(s) && Steps(cfg, s, e, s')
    ensures Sum(s'.paths.ws, Patience) + Bit(IsSighted(s, e)) <= Sum(s.paths.ws, Patience)
  {
    match e
    case Path(i, a) =>
      assert WorkerInv(cfg, s.paths.ws[i]);
      ActsUsesPatience(cfg, s.paths.sh, s.paths.ws[i], a, s'.paths.sh, s'.paths.ws[i]);
      SumUpdate(s.paths.ws, i, s'.paths.ws[i], Patience);
    case Coordinator(a) => CoordinatesIsAControl(cfg, s, a, s');
    case Tick(_) =>
  }

  /** In any run, workers take at most 61 steps each apart from blind looks. So if every target shows up to
      the worker that looks for it, all workers come to their end, whether or not they are told to stop. */
  lemma {:induction false} SightedWorkIsBounded(cfg: Config, ss: seq<State>, es: seq<Event>, n: nat)
    requires DmConnect.IsRun(cfg, ss, es) && n < |ss|
    ensures SightedWork(ss, es, n) + Sum(ss[n].paths.ws, Patience) <= 61 * |ss[0].paths.ws|
  {
    if n == 0 {
      SumBound(ss[0].paths.ws, Patience, 61);
    } else {
      SightedWorkIsBounded(cfg, ss, es, n - 1);
      DmConnect.RunKeepsInv(cfg, ss, es, n - 1);
      RunKeepsBudgets(cfg, ss, es, n - 1);
      assert DmConnect.StepAt(cfg, ss, es, n - 1);
      StepUsesPatience(cfg, ss[n - 1], es[n - 1], ss[n]);
    }
  }

  ghost predicate AllDone(s: State) { forall i :: 0 <= i < |s.paths.ws| ==> s.paths.ws[i].pc.Done? }

  /** And once all workers have come to their end, the coordinator wakes up at most 17 more times. */
  lemma LeftAfterLastWorker(cfg: Config, ss: seq<State>, es: seq<Event>, m: nat, n: nat)
    requires DmConnect.IsRun(cfg, ss, es) && m <= n < |ss| && AllDone(ss[m])
    ensures Wakes(ss, es, m, n) <= 17
  {
    DmConnect.RunKeepsInv(cfg, ss, es, m);
    JoinedMeansStopped(cfg, ss[m].paths);
    LoopIsLeft(cfg, ss, es, m, n);
  }

  // ----- the coordinator

  predicate AllStoppedIn(s: State) { s.paths.sh.stoppedThreads == |s.paths.ws| }

  ghost function CoordinatorSteps(ss: seq<State>, es: seq<Event>, m: nat, n: nat): nat
    requires m <= n < |ss| == |es| + 1
  {
    if m == n then 0 else CoordinatorSteps(ss, es, m, n - 1) + if es[n - 1].Coordinator? then 1 else 0
  }

  /** The longest turn of the loop with `added` devices to hand to multipathd. */
  function LongestTurn(added: nat): nat { 8 * added + 40 }

  /** What the coordinator has left: full turns, and the rest of the present one. */
  function StepsLeft(s: State, turn: nat): nat { SleepsLeft(s) * (turn + 1) + TurnLeft(s) }

  lemma TurnIsBounded(s: State, added: nat)
    requires |s.paths.sh.justAdded| <= added
    ensures TurnLeft(s) <= LongestTurn(added)
  {
  }

  /** With all workers stopped, nothing is added to the devices for multipathd. */
  lemma NothingAdded(cfg: Config, s: State, e: Event, s': State)
    requires DmInv(cfg, s) && Steps(cfg, s, e, s') && AllStoppedIn(s)
    ensures |s'.paths.sh.justAdded| <= |s.paths.sh.justAdded|
    ensures !e.Coordinator? ==> s'.paths.sh == s.paths.sh
  {
    match e
    case Path(i, a) => WorkOnlyAdds(cfg, s.paths, Work(i, a), s'.paths);
    case Coordinator(a) => CoordinatesIsAControl(cfg, s, a, s');
    case Tick(_) =>
  }

  lemma CoordinatorUsesStep(cfg: Config, s: State, a: Answer, s': State, turn: nat)
    requires VerdictInv(s) && Coordinates(cfg, s, a, s') && AllStoppedIn(s) && TurnLeft(s') <= turn
    ensures StepsLeft(s', turn) < StepsLeft(s, turn)
  {
    CoordinatorMakesProgress(cfg, s, a, s');
    TurnsAndRest(SleepsLeft(s), TurnLeft(s), SleepsLeft(s'), TurnLeft(s'), turn);
  }

  lemma OthersAddNone(s: State, s': State, turn: nat)
    requires s' == s.(now := s'.now, paths := s.paths.(ws := s'.paths.ws)) && s.now <= s'.now
    ensures StepsLeft(s', turn) <= StepsLeft(s, turn)
  {
    TimeMakesNoDemands(s, s');
    Fewer(SleepsLeft(s'), SleepsLeft(s), turn + 1);
  }

  lemma StepIsUsedUp(cfg: Config, s: State, e: Event, s': State, added: nat)
    requires DmInv(cfg, s) && Steps(cfg, s, e, s') && AllStoppedIn(s) && |s.paths.sh.justAdded| <= added
    ensures StepsLeft(s', LongestTurn(added)) + Bit(e.Coordinator?) <= StepsLeft(s, LongestTurn(added))
  {
    NothingAdded(cfg, s, e, s');
    if e.Coordinator? {
      TurnIsBounded(s', added);
      CoordinatorUsesStep(cfg, s, e.answer, s', LongestTurn(added));
    } else {
      OthersAddNone(s, s', LongestTurn(added));
    }
  }

  /** Once all workers have stopped, the coordinator takes a bounded number of steps, whatever sysfs and
      multipathd answer: at most 17 turns, and each no longer than the devices just added allow. */
  lemma {:induction false} CoordinatorEnds(cfg: Config, ss: seq<State>, es: seq<Event>, m: nat, n: nat)
    requires DmConnect.IsRun(cfg, ss, es) && m <= n < |ss| && AllStoppedIn(ss[m])
    ensures |ss[n].paths.sh.justAdded| <= |ss[m].paths.sh.justAdded|
    ensures var turn := LongestTurn(|ss[m].paths.sh.justAdded|);
            CoordinatorSteps(ss, es, m, n) + StepsLeft(ss[n], turn) <= StepsLeft(ss[m], turn) <= 18 * turn + 17
  {
    var added := |ss[m].paths.sh.justAdded|;
    if m < n {
      CoordinatorEnds(cfg, ss, es, m, n - 1);
      StoppedStaysStopped(cfg, ss, es, m, n - 1);
      DmConnect.RunKeepsInv(cfg, ss, es, n - 1);
      assert DmConnect.StepAt(cfg, ss, es, n - 1);
      NothingAdded(cfg, ss[n - 1], es[n - 1], ss[n]);
      StepIsUsedUp(cfg, ss[n - 1], es[n - 1], ss[n], added);
    } else {
      DmConnect.RunKeepsInv(cfg, ss, es, m);
      SleepsBounded(ss[m]);
      TurnIsBounded(ss[m], added);
      Fewer(SleepsLeft(ss[m]), 17, LongestTurn(added) + 1);
    }
  }

  // ----- leaving the loop

  predicate LeftLoop(s: State) { s.pc.Leaving? || s.pc.Joining? || s.pc.Tallying? || s.pc.Verifying? }

  predicate AllCountedIn(s: State) { s.paths.sh.numLogin + s.paths.sh.failedLogin == |s.paths.ws| }

  /** The k-th event is a failed attempt to read the WWN from sysfs. */
  ghost predicate SysfsFailsAt(ss: seq<State>, es: seq<Event>, k: nat)
    requires k < |es| && |ss| == |es| + 1
  {
    ss[k].pc.ReadWwn? && es[k].Coordinator? && es[k].answer.SysfsWwn? && es[k].answer.wwn.Err?
  }

  ghost predicate SysfsFailed(ss: seq<State>, es: seq<Event>, n: nat)
    requires n < |ss| == |es| + 1
  {
    exists k :: 0 <= k < n && SysfsFailsAt(ss, es, k)
  }

  lemma LeftStaysLeft(cfg: Config, s: State, e: Event, s': State)
    requires Steps(cfg, s, e, s') && LeftLoop(s)
    ensures LeftLoop(s') && s'.pc.why == s.pc.why && s'.mPath == s.mPath
  {
    if e.Coordinator? { assert FinishStep(s, s'); }
  }

  lemma {:induction false} LeftForGood(cfg: Config, ss: seq<State>, es: seq<Event>, m: nat, n: nat)
    requires DmConnect.IsRun(cfg, ss, es) && m <= n < |ss| && LeftLoop(ss[m])
    ensures LeftLoop(ss[n]) && ss[n].pc.why == ss[m].pc.why
  {
    if m < n {
      LeftForGood(cfg, ss, es, m, n - 1);
      assert DmConnect.StepAt(cfg, ss, es, n - 1);
      LeftStaysLeft(cfg, ss[n - 1], es[n - 1], ss[n]);
    }
  }

  lemma ReadFailureLeaves(cfg: Config, s: State, a: Answer, s': State)
    requires Coordinates(cfg, s, a, s') && s.pc.ReadWwn? && a.SysfsWwn? && a.wwn.Err?
    ensures LeftLoop(s')
  {
    assert ScanStep(cfg, s, a, s');
  }

  lemma OnlyReadFailure(cfg: Config, s: State, a: Answer, s': State)
    requires Coordinates(cfg, s, a, s') && !LeftLoop(s) && LeftLoop(s') && s'.pc.why.NoWwn?
    ensures s.pc.ReadWwn? && a.SysfsWwn? && a.wwn.Err?
  {
    assert ScanStep(cfg, s, a, s');
  }

  lemma SysfsIsTheReason(cfg: Config, ss: seq<State>, es: seq<Event>, k: nat)
    requires DmConnect.IsRun(cfg, ss, es) && k < |es|
    ensures SysfsFailsAt(ss, es, k) ==> LeftLoop(ss[k + 1])
    ensures !LeftLoop(ss[k]) && LeftLoop(ss[k + 1]) && ss[k + 1].pc.why.NoWwn? ==> SysfsFailsAt(ss, es, k)
  {
    assert DmConnect.StepAt(cfg, ss, es, k);
    if SysfsFailsAt(ss, es, k) {
      ReadFailureLeaves(cfg, ss[k], es[k].answer, ss[k + 1]);
    }
    if !LeftLoop(ss[k]) && LeftLoop(ss[k + 1]) && ss[k + 1].pc.why.NoWwn? {
      OnlyReadFailure(cfg, ss[k], es[k].answer, ss[k + 1]);
    }
  }

  lemma {:induction false} NoWwnMeansSysfsFailed(cfg: Config, ss: seq<State>, es: seq<Event>, n: nat)
    requires DmConnect.IsRun(cfg, ss, es) && n < |ss| && LeftLoop(ss[n]) && ss[n].pc.why.NoWwn?
    ensures SysfsFailed(ss, es, n)
  {
    if n > 0 {
      assert DmConnect.StepAt(cfg, ss, es, n - 1);
      if LeftLoop(ss[n - 1]) {
        LeftStaysLeft(cfg, ss[n - 1], es[n - 1], ss[n]);
        NoWwnMeansSysfsFailed(cfg, ss, es, n - 1);
      } else {
        SysfsIsTheReason(cfg, ss, es, n - 1);
      }
    }
  }

  /** Whoever leaves the loop does so with all workers stopped, with a path and all logins counted, or
      because sysfs failed. */
  lemma LeavingNeeds(cfg: Config, ss: seq<State>, es: seq<Event>, n: nat)
    requires DmConnect.IsRun(cfg, ss, es) && n < |ss| && LeftLoop(ss[n])
    ensures AllStoppedIn(ss[n]) || (AllCountedIn(ss[n]) && ss[n].mPath != "") || SysfsFailed(ss, es, n)
  {
    DmConnect.RunKeepsInv(cfg, ss, es, n);
    if ss[n].pc.why.NoWwn? {
      NoWwnMeansSysfsFailed(cfg, ss, es, n);
    }
  }

  lemma StopMeansLeft(cfg: Config, s: State, e: Event, s': State)
    requires Steps(cfg, s, e, s') && (s.paths.sh.stop ==> LeftLoop(s))
    ensures s'.paths.sh.stop ==> LeftLoop(s')
  {
    if s.paths.sh.stop {
      LeftStaysLeft(cfg, s, e, s');
    }
  }

  lemma {:induction false} StopIsRaisedOutside(cfg: Config, ss: seq<State>, es: seq<Event>, n: nat)
    requires DmConnect.IsRun(cfg, ss, es) && n < |ss|
    ensures ss[n].paths.sh.stop ==> LeftLoop(ss[n])
  {
    if n > 0 {
      StopIsRaisedOutside(cfg, ss, es, n - 1);
      assert DmConnect.StepAt(cfg, ss, es, n - 1);
      StopMeansLeft(cfg, ss[n - 1], es[n - 1], ss[n]);
    }
  }

  // ----- exactly when

  /** The k-th event is no worker step, or a blind look, or comes after the stop flag went up. */
  ghost predicate QuietAt(ss: seq<State>, es: seq<Event>, k: nat)
    requires k < |es| && |ss| == |es| + 1
  {
    ss[k].paths.sh.stop || !IsSighted(ss[k], es[k])
  }

  /** From `m` to `n` no worker does anything but look in vain, unless it is told to stop. */
  ghost predicate Settled(ss: seq<State>, es: seq<Event>, m: nat, n: nat)
    requires m <= n < |ss| == |es| + 1
  {
    forall k :: m <= k < n ==> QuietAt(ss, es, k)
  }

  lemma QuietStep(cfg: Config, s: State, e: Event, s': State)
    requires Steps(cfg, s, e, s') && !s.paths.sh.stop && !IsSighted(s, e)
    ensures |s'.paths.ws| == |s.paths.ws|
    ensures AllStoppedIn(s') == AllStoppedIn(s) && AllCountedIn(s') == AllCountedIn(s)
    ensures s'.paths.sh.numLogin == s.paths.sh.numLogin && s'.paths.sh.failedLogin == s.paths.sh.failedLogin
  {
    if e.Coordinator? {
      CoordinatesIsAControl(cfg, s, e.answer, s');
    }
  }

  /** Until the loop is left, settled workers leave the counters alone. */
  lemma {:induction false} SettledCounters(cfg: Config, ss: seq<State>, es: seq<Event>, m: nat, n: nat)
    requires DmConnect.IsRun(cfg, ss, es) && m <= n < |ss| && Settled(ss, es, m, n)
    requires n > m ==> !LeftLoop(ss[n - 1])
    ensures AllStoppedIn(ss[n]) == AllStoppedIn(ss[m]) && AllCountedIn(ss[n]) == AllCountedIn(ss[m])
  {
    if m < n {
      if m < n - 1 && LeftLoop(ss[n - 2]) {
        LeftForGood(cfg, ss, es, n - 2, n - 1);
      }
      SettledCounters(cfg, ss, es, m, n - 1);
      StopIsRaisedOutside(cfg, ss, es, n - 1);
      assert QuietAt(ss, es, n - 1);
      assert DmConnect.StepAt(cfg, ss, es, n - 1);
      QuietStep(cfg, ss[n - 1], es[n - 1], ss[n]);
    }
  }

  /** The loop condition is about to be evaluated with a path found. */
  predicate GuardSeesPath(s: State) { s.mPath != "" && s.pc.Guard? }

  ghost predicate PathInTime(ss: seq<State>, n: nat)
    requires n < |ss|
  {
    exists k :: 0 <= k <= n && GuardSeesPath(ss[k])
  }

  /** The coordinator is evaluating its loop condition with a path found, or has left because of one. */
  predicate HasSeenPath(s: State) {
    && s.mPath != ""
    && (s.pc.Guard? || s.pc.GuardFound? || s.pc.GuardPath? || s.pc.GuardFailed? || (LeftLoop(s) && s.pc.why.AllCounted?))
  }

  lemma ScanSeesNothing(cfg: Config, s: State, a: Answer, s': State)
    requires ScanStep(cfg, s, a, s')
    ensures !HasSeenPath(s')
  {
  }

  lemma DrainSeesNothing(s: State, a: Answer, s': State)
    requires DrainStep(s, a, s')
    ensures !HasSeenPath(s')
  {
  }

  lemma SeenBefore(cfg: Config, s: State, e: Event, s': State)
    requires Steps(cfg, s, e, s') && HasSeenPath(s') && !s'.pc.Guard?
    ensures HasSeenPath(s)
  {
    if e.Coordinator? {
      if ScanStep(cfg, s, e.answer, s') {
        ScanSeesNothing(cfg, s, e.answer, s');
      } else if DrainStep(s, e.answer, s') {
        DrainSeesNothing(s, e.answer, s');
      }
    }
  }

  /** Whoever has left because of a path had one when the evaluation of the loop condition began. */
  lemma {:induction false} SeenInTime(cfg: Config, ss: seq<State>, es: seq<Event>, n: nat)
    requires DmConnect.IsRun(cfg, ss, es) && n < |ss| && HasSeenPath(ss[n])
    ensures PathInTime(ss, n)
  {
    if ss[n].pc.Guard? {
      assert GuardSeesPath(ss[n]);
    } else if n > 0 {
      assert DmConnect.StepAt(cfg, ss, es, n - 1);
      SeenBefore(cfg, ss[n - 1], es[n - 1], ss[n]);
      SeenInTime(cfg, ss, es, n - 1);
    }
  }

  lemma {:induction false} WakeReachesGuard(cfg: Config, ss: seq<State>, es: seq<Event>, m: nat, n: nat) returns (k: nat)
    requires DmConnect.IsRun(cfg, ss, es) && m <= n < |ss| && Wakes(ss, es, m, n) > 0
    ensures m <= k <= n && ss[k].pc.Guard?
  {
    assert DmConnect.StepAt(cfg, ss, es, n - 1);
    if es[n - 1].Coordinator? && ss[n - 1].pc.Sleeping? {
      assert ClockStep(ss[n - 1], ss[n]);
      k := n;
    } else {
      k := WakeReachesGuard(cfg, ss, es, m, n - 1);
    }
  }

  /** A path that was there in time once is there at the next evaluation too. */
  lemma GuardSeesPathAgain(cfg: Config, ss: seq<State>, es: seq<Event>, m: nat, n: nat) returns (k: nat)
    requires DmConnect.IsRun(cfg, ss, es) && m <= n < |ss| && PathInTime(ss, n) && Wakes(ss, es, m, n) > 0
    ensures m <= k <= n && GuardSeesPath(ss[k])
  {
    k :| 0 <= k <= n && GuardSeesPath(ss[k]);
    if k < m {
      var later := WakeReachesGuard(cfg, ss, es, m, n);
      FoundPathIsFinal(cfg, ss, es, k, later);
      k := later;
    }
  }

  /** From there on, if all logins are counted, the coordinator is on its way out. */
  ghost predicate OnItsWayOut(s: State) {
    || LeftLoop(s)
    || (&& AllCountedIn(s) && s.mPath != ""
        && (|| s.pc.Guard? || s.pc.GuardFound? || s.pc.GuardPath?
            || (s.pc.GuardFailed? && s.pc.logins == s.paths.sh.numLogin)))
  }

  lemma StepOnTheWayOut(cfg: Config, s: State, e: Event, s': State)
    requires Steps(cfg, s, e, s') && OnItsWayOut(s) && !LeftLoop(s) && !s.paths.sh.stop && !IsSighted(s, e)
    ensures OnItsWayOut(s')
  {
    QuietStep(cfg, s, e, s');
    if e.Coordinator? { assert GuardStep(s, s'); }
  }

  lemma {:induction false} StaysOnItsWayOut(cfg: Config, ss: seq<State>, es: seq<Event>, m: nat, n: nat)
    requires DmConnect.IsRun(cfg, ss, es) && m <= n < |ss| && Settled(ss, es, m, n) && OnItsWayOut(ss[m])
    ensures OnItsWayOut(ss[n])
  {
    if m < n {
      StaysOnItsWayOut(cfg, ss, es, m, n - 1);
      assert DmConnect.StepAt(cfg, ss, es, n - 1);
      assert QuietAt(ss, es, n - 1);
      if LeftLoop(ss[n - 1]) {
        LeftStaysLeft(cfg, ss[n - 1], es[n - 1], ss[n]);
      } else {
        StopIsRaisedOutside(cfg, ss, es, n - 1);
        StepOnTheWayOut(cfg, ss[n - 1], es[n - 1], ss[n]);
      }
    }
  }

  /** The reasons for leaving, as far as they can be told from the point where the workers have settled. */
  ghost predicate CanLeave(ss: seq<State>, es: seq<Event>, m: nat, n: nat)
    requires m <= n < |ss| == |es| + 1
  {
    || AllStoppedIn(ss[m])
    || (AllCountedIn(ss[m]) && PathInTime(ss, n))
    || SysfsFailed(ss, es, n)
  }

  lemma {:induction false} LeftBecause(cfg: Config, ss: seq<State>, es: seq<Event>, m: nat, n: nat)
    requires DmConnect.IsRun(cfg, ss, es) && m <= n < |ss| && Settled(ss, es, m, n) && LeftLoop(ss[n])
    ensures CanLeave(ss, es, m, n)
  {
    if n > m && LeftLoop(ss[n - 1]) {
      LeftBecause(cfg, ss, es, m, n - 1);
    } else {
      LeavingNeeds(cfg, ss, es, n);
      SettledCounters(cfg, ss, es, m, n);
      DmConnect.RunKeepsInv(cfg, ss, es, n);
      if ss[n].pc.why.AllCounted? {
        SeenInTime(cfg, ss, es, n);
      } else if ss[n].pc.why.NoWwn? {
        NoWwnMeansSysfsFailed(cfg, ss, es, n);
      }
    }
  }

  /** Exactly when the loop is left. Take a run in which from some point on no worker does more than look in
      vain, and which then goes on for 18 wake-ups or until the loop is left. It is left if and only if all
      workers had stopped, or all had a login outcome and some evaluation of the loop condition began with
      a path found, or the WWN could not be read from sysfs. */
  lemma LoopIsLeftIff(cfg: Config, ss: seq<State>, es: seq<Event>, m: nat, n: nat)
    requires DmConnect.IsRun(cfg, ss, es) && m <= n < |ss| && Settled(ss, es, m, n)
    requires LeftLoop(ss[n]) || (ss[n].pc.Sleeping? && Wakes(ss, es, m, n) >= 18)
    ensures LeftLoop(ss[n]) <==> CanLeave(ss, es, m, n)
  {
    if LeftLoop(ss[n]) {
      LeftBecause(cfg, ss, es, m, n);
    } else {
      if AllStoppedIn(ss[m]) {
        LoopIsLeft(cfg, ss, es, m, n);
      }
      if k :| 0 <= k < n && SysfsFailsAt(ss, es, k) {
        SysfsIsTheReason(cfg, ss, es, k);
        LeftForGood(cfg, ss, es, k + 1, n);
      }
      if AllCountedIn(ss[m]) && PathInTime(ss, n) {
        var k := GuardSeesPathAgain(cfg, ss, es, m, n);
        NotLeftBefore(cfg, ss, es, k, n);
        SettledCounters(cfg, ss, es, m, k);
        StaysOnItsWayOut(cfg, ss, es, k, n);
      }
    }
  }

  lemma NotLeftBefore(cfg: Config, ss: seq<State>, es: seq<Event>, k: nat, n: nat)
    requires DmConnect.IsRun(cfg, ss, es) && k <= n < |ss| && !LeftLoop(ss[n])
    ensures !LeftLoop(ss[k]) && (k > 0 ==> !LeftLoop(ss[k - 1]))
  {
    if LeftLoop(ss[k]) { LeftForGood(cfg, ss, es, k, n); }
    if k > 0 && LeftLoop(ss[k - 1]) { LeftForGood(cfg, ss, es, k - 1, n); }
  }

  // ----- a run that hangs

  /** A run goes on by one event that keeps worker w's target hidden. */
  lemma Then(cfg: Config, ss: seq<State>, es: seq<Event>, e: Event, s': State, w: nat)
    returns (ss': seq<State>, es': seq<Event>)
    requires DmConnect.IsRun(cfg, ss, es) && Steps(cfg, ss[|es|], e, s')
    requires TargetHidden(e, w) && forall i :: 0 <= i < |es| ==> TargetHidden(es[i], w)
    ensures ss' == ss + [s'] && es' == es + [e] && DmConnect.IsRun(cfg, ss', es')
    ensures forall i :: 0 <= i < |es'| ==> TargetHidden(es'[i], w)
    ensures Wakes(ss', es', 0, |es'|) == Wakes(ss, es, 0, |es|) + if e.Coordinator? && ss[|es|].pc.Sleeping? then 1 else 0
  {
    ss', es' := ss + [s'], es + [e];
    forall i | 0 <= i < |es'| ensures DmConnect.StepAt(cfg, ss', es', i) {
      if i < |es| { assert DmConnect.StepAt(cfg, ss, es, i); }
    }
    WakesOfPrefix(ss, es, ss', es', |es|);
  }

  lemma {:induction false} WakesOfPrefix(ss: seq<State>, es: seq<Event>, ss': seq<State>, es': seq<Event>, n: nat)
    requires |ss| == |es| + 1 && |ss'| == |es'| + 1 && ss <= ss' && es <= es' && n < |ss|
    ensures Wakes(ss', es', 0, n) == Wakes(ss, es, 0, n)
  {
    if n > 0 {
      WakesOfPrefix(ss, es, ss', es', n - 1);
    }
  }

  /** Nothing is found, and not all workers have stopped. */
  ghost predicate Idles(s: State) {
    && s.pc.Guard? && s.mPath == "" && s.wwn == "" && s.lastTryOn == 0
    && s.paths.sh.found == [] && !AllStoppedIn(s)
  }

  /** The coordinator goes on to the end of its turn. */
  lemma UpToClock(cfg: Config, ss: seq<State>, es: seq<Event>, w: nat) returns (ss': seq<State>, es': seq<Event>)
    requires DmConnect.IsRun(cfg, ss, es) && Idles(ss[|es|])
    requires forall i :: 0 <= i < |es| ==> TargetHidden(es[i], w)
    ensures ss <= ss' && es <= es' && DmConnect.IsRun(cfg, ss', es')
    ensures forall i :: 0 <= i < |es'| ==> TargetHidden(es'[i], w)
    ensures ss'[|es'|] == ss[|es|].(pc := Clock)
    ensures Wakes(ss', es', 0, |es'|) == Wakes(ss, es, 0, |es|)
  {
    var s, go := ss[|es|], Coordinator(Silence);
    assert GuardStep(s, s.(pc := GuardPath));
    ss', es' := Then(cfg, ss, es, go, s.(pc := GuardPath), w);
    assert GuardStep(s.(pc := GuardPath), s.(pc := NeedWwn));
    ss', es' := Then(cfg, ss', es', go, s.(pc := NeedWwn), w);
    assert ScanStep(cfg, s.(pc := NeedWwn), Silence, s.(pc := ScanTest));
    ss', es' := Then(cfg, ss', es', go, s.(pc := ScanTest), w);
    assert ScanStep(cfg, s.(pc := ScanTest), Silence, s.(pc := Clock));
    ss', es' := Then(cfg, ss', es', go, s.(pc := Clock), w);
  }

  /** The coordinator goes once round its loop. */
  lemma OneRound(cfg: Config, ss: seq<State>, es: seq<Event>, w: nat) returns (ss': seq<State>, es': seq<Event>)
    requires DmConnect.IsRun(cfg, ss, es) && Idles(ss[|es|])
    requires forall i :: 0 <= i < |es| ==> TargetHidden(es[i], w)
    ensures ss <= ss' && es <= es' && DmConnect.IsRun(cfg, ss', es')
    ensures forall i :: 0 <= i < |es'| ==> TargetHidden(es'[i], w)
    ensures ss'[|es'|] == ss[|es|].(now := ss[|es|].now + 1)
    ensures Wakes(ss', es', 0, |es'|) == Wakes(ss, es, 0, |es|) + 1
  {
    var s, go := ss[|es|], Coordinator(Silence);
    ss', es' := UpToClock(cfg, ss, es, w);
    var asleep := s.(pc := Sleeping(s.now + 1));
    assert ClockStep(s.(pc := Clock), asleep);
    ss', es' := Then(cfg, ss', es', go, asleep, w);
    var late := asleep.(now := s.now + 1);
    ss', es' := Then(cfg, ss', es', Tick(1), late, w);
    assert ClockStep(late, s.(now := s.now + 1));
    ss', es' := Then(cfg, ss', es', go, s.(now := s.now + 1), w);
  }

  /** The worker logs in and looks in vain. */
  lemma LogInAndLook(cfg: Config, s: State, w: nat) returns (ss: seq<State>, es: seq<Event>)
    requires cfg.protocol.Iscsi? && InitialState(s) && w < |s.paths.ws|
    ensures DmConnect.IsRun(cfg, ss, es) && ss[0] == s && |es| == 2
    ensures forall i :: 0 <= i < |es| ==> TargetHidden(es[i], w)
    ensures Idles(ss[2]) && w < |ss[2].paths.ws| && HasLoggedIn(ss[2].paths.ws[w]) && ss[2].paths.ws[w].pc.Scanning?
  {
    var p := s.paths;
    var scan := InitialScan(false);
    var seen := Observation(false, "", false, Err, false);
    var dialled := p.ws[w].(login := LoggedIn, pc := Scanning(scan));
    var looked := dialled.(pc := Scanning(Wait(Pass(scan, seen, cfg.target))));
    var sh := p.sh.(numLogin := 1);
    var s1 := s.(paths := Paths(sh, p.ws[w := dialled]));
    var s2 := s.(paths := Paths(sh, p.ws[w := dialled][w := looked]));
    assert DmConnect.IsRun(cfg, [s], []);
    ss, es := Then(cfg, [s], [], Path(w, Dial(true, false)), s1, w);
    ss, es := Then(cfg, ss, es, Path(w, Look(seen)), s2, w);
  }

  /** So the connect can hang for as long as one likes: from every initial state and for every number of
      rounds there is a run in which a worker logs in and looks in vain, and the coordinator goes round
      that often. */
  lemma {:induction false} HangingRun(cfg: Config, s: State, w: nat, rounds: nat) returns (ss: seq<State>, es: seq<Event>)
    requires cfg.protocol.Iscsi? && InitialState(s) && w < |s.paths.ws|
    ensures DmConnect.IsRun(cfg, ss, es) && ss[0] == s && Wakes(ss, es, 0, |es|) >= rounds
    ensures forall i :: 0 <= i < |es| ==> TargetHidden(es[i], w)
    ensures Idles(ss[|es|]) && w < |ss[|es|].paths.ws| && HasLoggedIn(ss[|es|].paths.ws[w])
    decreases rounds
  {
    if rounds == 0 {
      ss, es := LogInAndLook(cfg, s, w);
    } else {
      ss, es := HangingRun(cfg, s, w, rounds - 1);
      ss, es := OneRound(cfg, ss, es, w);
    }
  }
}
