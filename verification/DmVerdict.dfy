/** What the coordinator of module DmConnect comes to on a host whose multipath device holds every device found,
    and how long it waits for that device on any host. */
module DmVerdict {
  import opened Basics
  import opened DmConnect
  import opened PathWorkers

  // ----- a host that agrees

  /** Asked for holders, the host names the one multipath device for every device on record; asked for the WWN,
      it gives one. */
  ghost predicate Agrees(s: State, e: Event, path: string) {
    e.Coordinator? ==>
      && (s.pc.ScanFind? || s.pc.DrainFind? ==>
            e.answer.Holders? && forall d :: d in s.paths.sh.found ==> d in e.answer.dm && e.answer.dm[d] == path)
      && (s.pc.ReadWwn? ==> e.answer.SysfsWwn? && e.answer.wwn.Ok?)
  }

  lemma OneHolder(found: seq<string>, dm: map<string, string>, path: string)
    requires path != "" && "" !in dm.Values && forall d :: d in found ==> d in dm && dm[d] == path
    ensures FindAvailable(found, dm) == (if found == [] then "" else path, false)
  {
    FindAvailableMeaning(found, dm);
    if found != [] {
      assert found[0] in found && dm[found[0]] in MapsOf(found, dm);
      assert MapsOf(found, dm) == {path};
    }
  }

  /** Past the search of a turn. */
  predicate HasSearched(pc: DmPc) {
    pc.AddWwn? || pc.DrainTest? || pc.DrainGet? || pc.DrainLen? || pc.DrainCut? || pc.DrainAdd?
    || pc.DrainFind? || pc.Clock?
  }

  predicate Clears(pc: DmPc) {
    pc.ScanResetFound? || pc.ScanResetJustAdded? || pc.DrainResetFound? || pc.DrainResetJustAdded?
  }

  predicate HasLeft(pc: DmPc) { pc.Leaving? || pc.Joining? || pc.Tallying? || pc.Verifying? }

  ghost predicate AgreedInv(s: State, path: string) {
    && (s.mPath == "" || s.mPath == path) && !Clears(s.pc)
    && (s.lastTryOn != 0 || s.pc.ClockStopped? ==> s.paths.sh.found != [])
    && (s.lastTryOn != 0 && HasSearched(s.pc) ==> s.mPath == path)
    && (HasLeft(s.pc) ==> !s.pc.why.NoWwn? && (!s.pc.why.NoneFound? ==> s.mPath == path))
  }

  lemma ScanAgrees(cfg: Config, s: State, a: Answer, s': State, path: string)
    requires path != "" && VerdictInv(s) && AgreedInv(s, path) && ScanStep(cfg, s, a, s') && Agrees(s, Coordinator(a), path)
    ensures AgreedInv(s', path)
  {
    if s.pc.ScanFind? {
      OneHolder(s.paths.sh.found, a.dm, path);
    }
  }

  lemma DrainAgrees(s: State, a: Answer, s': State, path: string)
    requires path != "" && VerdictInv(s) && AgreedInv(s, path) && DrainStep(s, a, s') && Agrees(s, Coordinator(a), path)
    ensures AgreedInv(s', path)
  {
    if s.pc.DrainFind? {
      OneHolder(s.paths.sh.found, a.dm, path);
    }
  }

  lemma OthersAgree(s: State, s': State, path: string)
    requires VerdictInv(s) && AgreedInv(s, path) && (GuardStep(s, s') || ClockStep(s, s') || FinishStep(s, s'))
    ensures AgreedInv(s', path)
  {
  }

  lemma StepAgrees(cfg: Config, s: State, e: Event, s': State, path: string)
    requires path != "" && DmInv(cfg, s) && AgreedInv(s, path) && Steps(cfg, s, e, s') && Agrees(s, e, path)
    ensures AgreedInv(s', path)
  {
    match e
    case Coordinator(a) =>
      if ScanStep(cfg, s, a, s') {
        ScanAgrees(cfg, s, a, s', path);
      } else if DrainStep(s, a, s') {
        DrainAgrees(s, a, s', path);
      } else {
        OthersAgree(s, s', path);
      }
    case Path(i, a) =>
      WorkOnlyAdds(cfg, s.paths, Work(i, a), s'.paths);
    case Tick(_) =>
  }

  lemma {:induction false} RunAgrees(cfg: Config, ss: seq<State>, es: seq<Event>, n: nat, path: string)
    requires DmConnect.IsRun(cfg, ss, es) && n < |ss| && path != ""
    requires forall k :: 0 <= k < n ==> Agrees(ss[k], es[k], path)
    ensures AgreedInv(ss[n], path)
  {
    if n > 0 {
      RunAgrees(cfg, ss, es, n - 1, path);
      DmConnect.RunKeepsInv(cfg, ss, es, n - 1);
      assert DmConnect.StepAt(cfg, ss, es, n - 1);
      StepAgrees(cfg, ss[n - 1], es[n - 1], ss[n], path);
    }
  }

  /** On a host that agrees, in every interleaving: what is verified in the end is the multipath device that
      holds the devices found, and it is missing only if every worker had stopped and no device was found. */
  lemma AgreeingHostGivesThePath(cfg: Config, ss: seq<State>, es: seq<Event>, n: nat, path: string)
    requires DmConnect.IsRun(cfg, ss, es) && n < |ss| && path != "" && ss[n].pc.Verifying?
    requires forall k :: 0 <= k < n ==> Agrees(ss[k], es[k], path)
    ensures ss[n].mPath == if ss[n].paths.sh.found == [] then "" else path
    ensures ss[n].paths.sh.found == [] <==> ss[n].pc.why.NoneFound?
  {
    RunAgrees(cfg, ss, es, n, path);
    DmConnect.RunKeepsInv(cfg, ss, es, n);
  }

  // ----- a host without a multipath device

  /** Asked for holders, the host names none; asked for the WWN, it gives one; and multipathd accepts it. */
  ghost predicate IsBare(s: State, e: Event) {
    e.Coordinator? ==>
      && (s.pc.ScanFind? || s.pc.DrainFind? ==> e.answer.Holders? && MapsOf(s.paths.sh.found, e.answer.dm) == {})
      && (s.pc.ReadWwn? ==> e.answer.SysfsWwn? && e.answer.wwn.Ok?)
      && (s.pc.AddWwn? && e.answer.WwnAccepted? ==> e.answer.added)
  }

  ghost predicate BareInv(s: State) {
    && s.mPath == "" && !Clears(s.pc)
    && (s.lastTryOn != 0 || s.pc.ClockStopped? ==> s.paths.sh.found != [])
    && (s.lastTryOn != 0 && (s.pc.ScanTest? || s.pc.ScanFind? || HasSearched(s.pc)) ==> s.wwn != "")
    && (s.lastTryOn != 0 && HasSearched(s.pc) && !s.pc.AddWwn? ==> s.wwnAdded)
    && (HasLeft(s.pc) ==> s.pc.why.NoneFound? || (s.pc.why.TimedOut? && s.wwn != "" && s.wwnAdded))
  }

  lemma ScanIsBare(cfg: Config, s: State, a: Answer, s': State)
    requires cfg.target != "" && VerdictInv(s) && BareInv(s) && ScanStep(cfg, s, a, s') && IsBare(s, Coordinator(a))
    ensures BareInv(s')
  {
  }

  lemma DrainIsBare(s: State, a: Answer, s': State)
    requires VerdictInv(s) && BareInv(s) && DrainStep(s, a, s') && IsBare(s, Coordinator(a))
    ensures BareInv(s')
  {
  }

  lemma OthersAreBare(s: State, s': State)
    requires VerdictInv(s) && BareInv(s) && (GuardStep(s, s') || ClockStep(s, s') || FinishStep(s, s'))
    ensures BareInv(s')
  {
  }

  lemma StepIsBare(cfg: Config, s: State, e: Event, s': State)
    requires cfg.target != "" && DmInv(cfg, s) && BareInv(s) && Steps(cfg, s, e, s') && IsBare(s, e)
    ensures BareInv(s')
  {
    match e
    case Coordinator(a) =>
      if ScanStep(cfg, s, a, s') {
        ScanIsBare(cfg, s, a, s');
      } else if DrainStep(s, a, s') {
        DrainIsBare(s, a, s');
      } else {
        OthersAreBare(s, s');
      }
    case Path(i, a) =>
      WorkOnlyAdds(cfg, s.paths, Work(i, a), s'.paths);
    case Tick(_) =>
  }

  lemma {:induction false} RunIsBare(cfg: Config, ss: seq<State>, es: seq<Event>, n: nat)
    requires DmConnect.IsRun(cfg, ss, es) && n < |ss| && cfg.target != ""
    requires forall k :: 0 <= k < n ==> IsBare(ss[k], es[k])
    ensures BareInv(ss[n])
  {
    if n > 0 {
      RunIsBare(cfg, ss, es, n - 1);
      DmConnect.RunKeepsInv(cfg, ss, es, n - 1);
      assert DmConnect.StepAt(cfg, ss, es, n - 1);
      StepIsBare(cfg, ss[n - 1], es[n - 1], ss[n]);
    }
  }

  /** The WWN is what sysfs gave, or the target's if that was empty. */
  ghost predicate ReadAt(cfg: Config, ss: seq<State>, es: seq<Event>, k: nat, wwn: string)
    requires k < |es| && |ss| == |es| + 1
  {
    && ss[k].pc.ReadWwn? && es[k].Coordinator? && es[k].answer.SysfsWwn? && es[k].answer.wwn.Ok?
    && wwn == if es[k].answer.wwn.value == "" then cfg.target else es[k].answer.wwn.value
  }

  lemma {:induction false} WwnWasRead(cfg: Config, ss: seq<State>, es: seq<Event>, n: nat)
    requires DmConnect.IsRun(cfg, ss, es) && n < |ss| && ss[n].wwn != ""
    ensures exists k :: 0 <= k < n && ReadAt(cfg, ss, es, k, ss[n].wwn)
  {
    assert n > 0;
    assert DmConnect.StepAt(cfg, ss, es, n - 1);
    if ss[n - 1].pc.ReadWwn? && es[n - 1].Coordinator? {
      assert ReadAt(cfg, ss, es, n - 1, ss[n].wwn) || ss[n].wwn == ss[n - 1].wwn;
    }
    if !ReadAt(cfg, ss, es, n - 1, ss[n].wwn) {
      assert ss[n].wwn == ss[n - 1].wwn;
      WwnWasRead(cfg, ss, es, n - 1);
    }
  }

  /** multipathd is taken to know the WWN only after it has said so. */
  lemma {:induction false} AddedWasAccepted(cfg: Config, ss: seq<State>, es: seq<Event>, n: nat)
    requires DmConnect.IsRun(cfg, ss, es) && n < |ss| && ss[n].wwnAdded
    ensures exists k :: 0 <= k < n && ss[k].pc.AddWwn? && es[k] == Coordinator(WwnAccepted(true))
  {
    assert n > 0;
    assert DmConnect.StepAt(cfg, ss, es, n - 1);
    if ss[n - 1].wwnAdded {
      AddedWasAccepted(cfg, ss, es, n - 1);
    } else {
      assert ss[n - 1].pc.AddWwn? && es[n - 1] == Coordinator(WwnAccepted(true));
    }
  }

  /** On such a host the loop is left only because no device was found, or for want of time; in the latter
      case multipathd was told the WWN that sysfs gave, or the target's. */
  lemma BareHostIsToldTheWwn(cfg: Config, ss: seq<State>, es: seq<Event>, n: nat)
    requires DmConnect.IsRun(cfg, ss, es) && n < |ss| && cfg.target != "" && HasLeft(ss[n].pc)
    requires forall k :: 0 <= k < n ==> IsBare(ss[k], es[k])
    ensures ss[n].mPath == "" && (ss[n].pc.why.NoneFound? || ss[n].pc.why.TimedOut?)
    ensures ss[n].pc.why.TimedOut? ==>
              ss[n].wwnAdded && exists k :: 0 <= k < n && ReadAt(cfg, ss, es, k, ss[n].wwn)
  {
    RunIsBare(cfg, ss, es, n);
    if ss[n].pc.why.TimedOut? {
      WwnWasRead(cfg, ss, es, n);
    }
  }

  // ----- a host that disagrees

  /** What has been emptied since `k`, with the coordinator where it is. */
  ghost predicate ClearedInv(ss: seq<State>, k: nat, n: nat)
    requires n < |ss|
  {
    match ss[n].pc
    case ScanResetFound => true
    case DrainResetFound => true
    case ScanResetJustAdded => FoundEmptied(ss, k, n)
    case DrainResetJustAdded => FoundEmptied(ss, k, n)
    case _ => FoundEmptied(ss, k, n) && AddedEmptied(ss, k, n)
  }

  ghost predicate FoundEmptied(ss: seq<State>, k: nat, n: nat)
    requires n < |ss|
  {
    exists i :: k < i <= n && ss[i].paths.sh.found == []
  }

  ghost predicate AddedEmptied(ss: seq<State>, k: nat, n: nat)
    requires n < |ss|
  {
    exists i :: k < i <= n && ss[i].paths.sh.justAdded == []
  }

  lemma ClearingStep(cfg: Config, s: State, e: Event, s': State)
    requires Steps(cfg, s, e, s') && Clears(s.pc) && s'.pc != s.pc
    ensures s.pc.ScanResetFound? || s.pc.DrainResetFound? ==> s'.paths.sh.found == []
    ensures s.pc.ScanResetFound? ==> s'.pc.ScanResetJustAdded?
    ensures s.pc.DrainResetFound? ==> s'.pc.DrainResetJustAdded?
    ensures s.pc.ScanResetJustAdded? || s.pc.DrainResetJustAdded? ==> s'.paths.sh.justAdded == []
  {
  }

  lemma DisagreementStep(cfg: Config, s: State, e: Event, s': State)
    requires Steps(cfg, s, e, s') && Disagrees(s, e)
    ensures s'.mPath == "" && (s'.pc.ScanResetFound? || s'.pc.DrainResetFound?)
  {
    FindAvailableMeaning(s.paths.sh.found, e.answer.dm);
  }

  /** The devices on record turn out to have different holders. */
  ghost predicate Disagrees(s: State, e: Event) {
    && (s.pc.ScanFind? || s.pc.DrainFind?) && e.Coordinator? && e.answer.Holders?
    && |MapsOf(s.paths.sh.found, e.answer.dm)| > 1
  }

  lemma {:induction false} StillClearing(cfg: Config, ss: seq<State>, es: seq<Event>, k: nat, n: nat)
    requires DmConnect.IsRun(cfg, ss, es) && k < n < |ss| && Disagrees(ss[k], es[k])
    ensures ClearedInv(ss, k, n)
  {
    assert DmConnect.StepAt(cfg, ss, es, n - 1);
    if n == k + 1 {
      DisagreementStep(cfg, ss[k], es[k], ss[n]);
    } else {
      StillClearing(cfg, ss, es, k, n - 1);
      assert FoundEmptied(ss, k, n - 1) ==> FoundEmptied(ss, k, n);
      assert AddedEmptied(ss, k, n - 1) ==> AddedEmptied(ss, k, n);
      if Clears(ss[n - 1].pc) && ss[n].pc != ss[n - 1].pc {
        ClearingStep(cfg, ss[n - 1], es[n - 1], ss[n]);
      }
    }
  }

  /** Whenever the devices on record turn out to have different holders, the path is dropped, and both lists
      have been emptied before the coordinator goes on. */
  lemma DisagreementClears(cfg: Config, ss: seq<State>, es: seq<Event>, k: nat, n: nat)
    requires DmConnect.IsRun(cfg, ss, es) && k < n < |ss| && Disagrees(ss[k], es[k])
    ensures ss[k + 1].mPath == "" && Clears(ss[k + 1].pc)
    ensures !Clears(ss[n].pc) ==> FoundEmptied(ss, k, n) && AddedEmptied(ss, k, n)
  {
    assert DmConnect.StepAt(cfg, ss, es, k);
    DisagreementStep(cfg, ss[k], es[k], ss[k + 1]);
    StillClearing(cfg, ss, es, k, n);
  }

  /** And an answer in which all holders are one is taken as the path at once. */
  lemma AgreementIsTaken(cfg: Config, ss: seq<State>, es: seq<Event>, k: nat, path: string)
    requires DmConnect.IsRun(cfg, ss, es) && k < |es| && (ss[k].pc.ScanFind? || ss[k].pc.DrainFind?)
    requires es[k].Coordinator? && es[k].answer.Holders? && MapsOf(ss[k].paths.sh.found, es[k].answer.dm) == {path}
    ensures ss[k + 1].mPath == path != ""
  {
    assert DmConnect.StepAt(cfg, ss, es, k);
    FindAvailableMeaning(ss[k].paths.sh.found, es[k].answer.dm);
  }

  // ----- the grace period, on any host

  /** At `m` every worker had stopped and a device was on record, fifteen seconds before `until`. */
  ghost predicate GraceFrom(ss: seq<State>, m: nat, until: int)
    requires m < |ss|
  {
    ss[m].paths.sh.stoppedThreads == |ss[m].paths.ws| && ss[m].now + 15 == until
  }

  lemma {:induction false} DeadlineIsSet(cfg: Config, ss: seq<State>, es: seq<Event>, n: nat)
    requires DmConnect.IsRun(cfg, ss, es) && n < |ss| && ss[n].lastTryOn != 0
    ensures exists m :: 0 <= m <= n && GraceFrom(ss, m, ss[n].lastTryOn)
  {
    assert n > 0;
    assert DmConnect.StepAt(cfg, ss, es, n - 1);
    if ss[n - 1].lastTryOn == ss[n].lastTryOn {
      DeadlineIsSet(cfg, ss, es, n - 1);
      var m :| 0 <= m <= n - 1 && GraceFrom(ss, m, ss[n - 1].lastTryOn);
      assert GraceFrom(ss, m, ss[n].lastTryOn);
    } else {
      assert GraceFrom(ss, n - 1, ss[n].lastTryOn);
    }
  }

  /** The deadline was set and has passed, if the loop was left for want of time. */
  predicate IsLate(s: State) { HasLeft(s.pc) && s.pc.why.TimedOut? ==> 0 != s.lastTryOn < s.now }

  lemma ScanAndDrainAreLate(cfg: Config, s: State, a: Answer, s': State)
    requires ScanStep(cfg, s, a, s') || DrainStep(s, a, s')
    ensures IsLate(s')
  {
  }

  lemma StepIsLate(cfg: Config, s: State, e: Event, s': State)
    requires IsLate(s) && Steps(cfg, s, e, s')
    ensures IsLate(s')
  {
    if e.Coordinator? && (ScanStep(cfg, s, e.answer, s') || DrainStep(s, e.answer, s')) {
      ScanAndDrainAreLate(cfg, s, e.answer, s');
    }
  }

  lemma {:induction false} RunIsLate(cfg: Config, ss: seq<State>, es: seq<Event>, n: nat)
    requires DmConnect.IsRun(cfg, ss, es) && n < |ss|
    ensures IsLate(ss[n])
  {
    if n > 0 {
      RunIsLate(cfg, ss, es, n - 1);
      assert DmConnect.StepAt(cfg, ss, es, n - 1);
      StepIsLate(cfg, ss[n - 1], es[n - 1], ss[n]);
    }
  }

  /** The coordinator gives up for want of time only when more than fifteen seconds have passed since a moment
      at which every worker had stopped. */
  lemma NoEarlyTimeout(cfg: Config, ss: seq<State>, es: seq<Event>, n: nat)
    requires DmConnect.IsRun(cfg, ss, es) && n < |ss| && HasLeft(ss[n].pc) && ss[n].pc.why.TimedOut?
    ensures exists m :: 0 <= m <= n && ss[m].paths.sh.stoppedThreads == |ss[m].paths.ws| && ss[n].now > ss[m].now + 15
  {
    RunIsLate(cfg, ss, es, n);
    DeadlineIsSet(cfg, ss, es, n);
    var m :| 0 <= m <= n && GraceFrom(ss, m, ss[n].lastTryOn);
    assert ss[m].paths.sh.stoppedThreads == |ss[m].paths.ws|;
  }

  // ----- the just-added devices

  /** Once the WWN is handed to multipathd, the coordinator goes on to the clock only with a path found or no
      just-added device left. */
  lemma DrainIsComplete(cfg: Config, ss: seq<State>, es: seq<Event>, k: nat)
    requires DmConnect.IsRun(cfg, ss, es) && k < |es| && ss[k].pc.DrainTest? && ss[k + 1].pc != ss[k].pc
    ensures ss[k + 1].pc.Clock? <==> ss[k].mPath != "" || ss[k].paths.sh.justAdded == []
  {
    assert DmConnect.StepAt(cfg, ss, es, k);
  }

  /** Once read, the WWN never changes. */
  lemma {:induction false} WwnIsFinal(cfg: Config, ss: seq<State>, es: seq<Event>, m: nat, n: nat)
    requires DmConnect.IsRun(cfg, ss, es) && m <= n < |ss| && ss[m].wwn != ""
    ensures ss[n].wwn == ss[m].wwn
  {
    if m < n {
      WwnIsFinal(cfg, ss, es, m, n - 1);
      DmConnect.RunKeepsInv(cfg, ss, es, n - 1);
      assert DmConnect.StepAt(cfg, ss, es, n - 1);
    }
  }

  // ----- every announced device

  /** How often `d` stands in a list. */
  ghost function Times(l: seq<string>, d: string): nat { Count(l, (x: string) => x == d) }

  lemma TimesAppend(l: seq<string>, m: seq<string>, d: string)
    ensures Times(l + m, d) == Times(l, d) + Times(m, d)
  {
    CountAppend(l, m, (x: string) => x == d);
  }

  lemma TimesOne(x: string, d: string)
    ensures Times([x], d) == Bit(x == d)
  {
    assert [x][1..] == [];
  }

  lemma TimesCut(l: seq<string>, high: nat, d: string)
    requires 1 <= high <= |l|
    ensures Times(l, d) == Bit(l[0] == d) + Times(l[1..high], d) + Times(l[high..], d)
  {
    assert l == [l[0]] + (l[1..high] + l[high..]);
    TimesAppend([l[0]], l[1..high] + l[high..], d);
    TimesAppend(l[1..high], l[high..], d);
    TimesOne(l[0], d);
  }

  /** The step announces device `d`. */
  ghost predicate Announced(s: State, e: Event, d: string) {
    && e.Path? && e.action.Announce? && e.worker < |s.paths.ws| && s.paths.ws[e.worker].pc.Announcing?
    && s.paths.ws[e.worker].pc.device == d
  }

  /** How often the step drops it from the list without handing it to multipathd. */
  ghost function Dropped(s: State, e: Event, d: string): nat {
    if !e.Coordinator? then 0
    else if s.pc.ScanResetJustAdded? || s.pc.DrainResetJustAdded? then Times(s.paths.sh.justAdded, d)
    else if s.pc.DrainCut? && s.pc.high <= |s.paths.sh.justAdded| then Times(s.paths.sh.justAdded[s.pc.high..], d)
    else 0
  }

  /** Handed to multipathd, taken off the list for that, or on the list. */
  ghost function Accounted(s: State, d: string): nat {
    Times(s.offered, d) + (if s.pc.DrainAdd? && s.pc.device == d then 1 else 0) + Times(s.paths.sh.justAdded, d)
  }

  lemma DrainAccounts(s: State, a: Answer, s': State, d: string)
    requires VerdictInv(s) && DrainStep(s, a, s')
    ensures Accounted(s', d) + Dropped(s, Coordinator(a), d) == Accounted(s, d)
  {
    if s.pc.DrainCut? {
      TimesCut(s.paths.sh.justAdded, s.pc.high, d);
    }
    if s.pc.DrainAdd? {
      TimesAppend(s.offered, [s.pc.device], d);
      TimesOne(s.pc.device, d);
    }
  }

  lemma ScanAccounts(cfg: Config, s: State, a: Answer, s': State, d: string)
    requires ScanStep(cfg, s, a, s')
    ensures Accounted(s', d) + Dropped(s, Coordinator(a), d) == Accounted(s, d)
  {
  }

  lemma OthersAccount(s: State, a: Answer, s': State, d: string)
    requires GuardStep(s, s') || ClockStep(s, s') || FinishStep(s, s')
    ensures Accounted(s', d) + Dropped(s, Coordinator(a), d) == Accounted(s, d)
  {
  }

  lemma PathAccounts(cfg: Config, s: State, i: nat, a: Action, s': State, d: string)
    requires Steps(cfg, s, Path(i, a), s')
    ensures Accounted(s', d) == Accounted(s, d) + Bit(Announced(s, Path(i, a), d))
  {
    if a.Announce? {
      TimesAppend(s.paths.sh.justAdded, [s.paths.ws[i].pc.device], d);
      TimesOne(s.paths.ws[i].pc.device, d);
    }
  }

  lemma StepAccounts(cfg: Config, s: State, e: Event, s': State, d: string)
    requires VerdictInv(s) && Steps(cfg, s, e, s')
    ensures Accounted(s', d) + Dropped(s, e, d) == Accounted(s, d) + Bit(Announced(s, e, d))
  {
    match e
    case Path(i, a) => PathAccounts(cfg, s, i, a, s', d);
    case Tick(_) =>
    case Coordinator(a) =>
      if DrainStep(s, a, s') {
        DrainAccounts(s, a, s', d);
      } else if ScanStep(cfg, s, a, s') {
        ScanAccounts(cfg, s, a, s', d);
      } else {
        OthersAccount(s, a, s', d);
      }
  }

  /** How often `d` was announced, and dropped, from point `m` to point `n` of a run. */
  ghost function AnnouncedIn(ss: seq<State>, es: seq<Event>, m: nat, n: nat, d: string): nat
    requires m <= n <= |es| && |ss| == |es| + 1
  {
    if m == n then 0 else AnnouncedIn(ss, es, m, n - 1, d) + Bit(Announced(ss[n - 1], es[n - 1], d))
  }

  ghost function DroppedIn(ss: seq<State>, es: seq<Event>, m: nat, n: nat, d: string): nat
    requires m <= n <= |es| && |ss| == |es| + 1
  {
    if m == n then 0 else DroppedIn(ss, es, m, n - 1, d) + Dropped(ss[n - 1], es[n - 1], d)
  }

  /** At every point of every run, each time a device was announced it was handed to multipathd, or is about to
      be, or is still on the list, or was dropped by a reset or a cut. */
  lemma {:induction false} EveryDeviceIsAccountedFor(cfg: Config, ss: seq<State>, es: seq<Event>, n: nat, d: string)
    requires DmConnect.IsRun(cfg, ss, es) && n < |ss|
    ensures AnnouncedIn(ss, es, 0, n, d) == Accounted(ss[n], d) + DroppedIn(ss, es, 0, n, d)
  {
    if n > 0 {
      EveryDeviceIsAccountedFor(cfg, ss, es, n - 1, d);
      DmConnect.RunKeepsInv(cfg, ss, es, n - 1);
      assert DmConnect.StepAt(cfg, ss, es, n - 1);
      StepAccounts(cfg, ss[n - 1], es[n - 1], ss[n], d);
    }
  }

  /** Between the load of the length and the cut the list only grows, by what is announced. */
  ghost predicate GrownSince(s: State, s': State, device: string, added: nat, d: string) {
    var l, l' := s.paths.sh.justAdded, s'.paths.sh.justAdded;
    && s'.pc == DrainCut(device, |l|) && l <= l'
    && Times(l'[|l|..], d) == added
  }

  lemma GrowthStep(cfg: Config, s: State, s1: State, e: Event, s2: State, device: string, added: nat, d: string)
    requires Steps(cfg, s1, e, s2) && !e.Coordinator? && GrownSince(s, s1, device, added, d)
    ensures GrownSince(s, s2, device, added + Bit(Announced(s1, e, d)), d)
  {
    if e.Path? && e.action.Announce? {
      var l, l1, x := s.paths.sh.justAdded, s1.paths.sh.justAdded, s1.paths.ws[e.worker].pc.device;
      assert s2.paths.sh.justAdded[|l|..] == l1[|l|..] + [x];
      TimesAppend(l1[|l|..], [x], d);
      TimesOne(x, d);
    }
  }

  lemma {:induction false} ListGrowsMeanwhile(cfg: Config, ss: seq<State>, es: seq<Event>, m: nat, n: nat, d: string)
    requires DmConnect.IsRun(cfg, ss, es) && m < n < |ss| && ss[m].pc.DrainLen? && es[m].Coordinator?
    requires forall k :: m < k < n ==> !es[k].Coordinator?
    ensures GrownSince(ss[m], ss[n], ss[m].pc.device, AnnouncedIn(ss, es, m + 1, n, d), d)
  {
    assert DmConnect.StepAt(cfg, ss, es, n - 1);
    if n == m + 1 {
      assert ss[n].paths.sh.justAdded[|ss[m].paths.sh.justAdded|..] == [];
    } else {
      ListGrowsMeanwhile(cfg, ss, es, m, n - 1, d);
      GrowthStep(cfg, ss[m], ss[n - 1], es[n - 1], ss[n], ss[m].pc.device, AnnouncedIn(ss, es, m + 1, n - 1, d), d);
    }
  }

  /** A cut drops exactly what was announced since the length of the list was loaded; so it loses a device if and
      only if one was announced in between. */
  lemma CutDropsLateDevices(cfg: Config, ss: seq<State>, es: seq<Event>, m: nat, n: nat, d: string)
    requires DmConnect.IsRun(cfg, ss, es) && m < n < |es| && ss[m].pc.DrainLen? && es[m].Coordinator?
    requires es[n].Coordinator? && forall k :: m < k < n ==> !es[k].Coordinator?
    ensures Dropped(ss[n], es[n], d) == AnnouncedIn(ss, es, m + 1, n, d)
  {
    ListGrowsMeanwhile(cfg, ss, es, m, n, d);
  }

  lemma OneMoreEvent(cfg: Config, ss: seq<State>, es: seq<Event>, e: Event, s': State)
    requires DmConnect.IsRun(cfg, ss, es) && Steps(cfg, ss[|es|], e, s')
    ensures DmConnect.IsRun(cfg, ss + [s'], es + [e])
  {
    var longer, more := ss + [s'], es + [e];
    forall i | 0 <= i < |more| ensures DmConnect.StepAt(cfg, longer, more, i) {
      if i < |es| { assert DmConnect.StepAt(cfg, ss, es, i); }
    }
  }

  /** And it can: whenever the coordinator is about to load the length while a worker is about to announce its
      device, the run may go on so that this device is dropped. */
  lemma LateDeviceCanBeLost(cfg: Config, ss: seq<State>, es: seq<Event>, i: nat) returns (ss': seq<State>, es': seq<Event>)
    requires DmConnect.IsRun(cfg, ss, es) && ss[|es|].pc.DrainLen?
    requires i < |ss[|es|].paths.ws| && ss[|es|].paths.ws[i].pc.Announcing?
    ensures DmConnect.IsRun(cfg, ss', es') && ss <= ss' && es <= es' && |es'| == |es| + 3
    ensures Dropped(ss'[|es| + 2], es'[|es| + 2], ss[|es|].paths.ws[i].pc.device) == 1
  {
    var s, w := ss[|es|], ss[|es|].paths.ws[i];
    var s1 := s.(pc := DrainCut(s.pc.device, |s.paths.sh.justAdded|));
    var announced := Paths(s.paths.sh.(justAdded := s.paths.sh.justAdded + [w.pc.device]), s.paths.ws[i := w.(pc := Stopping)]);
    var s2 := s1.(paths := announced);
    var s3 := WithShared(s2, CutJustAdded(s2.pc.high)).(pc := DrainAdd(s.pc.device));
    var ask := Coordinator(Silence);
    OneMoreEvent(cfg, ss, es, ask, s1);
    OneMoreEvent(cfg, ss + [s1], es + [ask], Path(i, Announce), s2);
    OneMoreEvent(cfg, ss + [s1] + [s2], es + [ask] + [Path(i, Announce)], ask, s3);
    ss', es' := ss + [s1] + [s2] + [s3], es + [ask] + [Path(i, Announce)] + [ask];
    assert s2.paths.sh.justAdded[s2.pc.high..] == [w.pc.device];
    TimesOne(w.pc.device, w.pc.device);
  }
}
