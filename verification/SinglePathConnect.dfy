/** Connecting an iSCSI volume without multipathing (connector/iscsi/iscsi_helper.go): the coordinator
    `scanSingle` looks for a found device at most fifteen times, two seconds apart, and then the stop flag
    goes up, the workers are joined and the first device is checked. Unlike the DM connect it always
    comes to its end, whatever the targets do. */
module SinglePathConnect {
  import opened Basics
  import opened DeviceVerify
  import opened PathWorkers

  const SCAN_SINGLE_TIMES := 15
  const SCAN_SINGLE_INTERVAL := 2

  datatype SinglePc =
    | Looking(turn: nat)               // load the number of found devices
    | Sleeping(turn: nat, until: int)
    | Leaving                          // raise the stop flag
    | Joining                          // wait for every worker
    | Verifying

  datatype State = State(paths: Paths, pc: SinglePc, now: int)

  ghost predicate Coordinates(s: State, s': State) {
    match s.pc
    case Looking(turn) =>
      s' == s.(pc := if turn >= SCAN_SINGLE_TIMES || s.paths.sh.found != [] then Leaving
                     else Sleeping(turn, s.now + SCAN_SINGLE_INTERVAL))
    case Sleeping(turn, until) => until <= s.now && s' == s.(pc := Looking(turn + 1))
    case Leaving => s' == s.(paths := s.paths.(sh := Controlled(s.paths.sh, RaiseStop)), pc := Joining)
    case Joining => (forall i :: 0 <= i < |s.paths.ws| ==> s.paths.ws[i].pc.Done?) && s' == s.(pc := Verifying)
    case Verifying => false
  }

  datatype Event = Path(worker: nat, action: Action) | Coordinator | Tick(seconds: nat)

  ghost predicate Steps(cfg: Config, s: State, e: Event, s': State) {
    match e
    case Path(i, a) => Next(cfg, s.paths, Work(i, a), s'.paths) && s' == s.(paths := s'.paths)
    case Coordinator => Coordinates(s, s')
    case Tick(seconds) => s' == s.(now := s.now + seconds)
  }

  ghost predicate StepAt(cfg: Config, ss: seq<State>, es: seq<Event>, i: nat)
    requires i < |es| && |ss| == |es| + 1
  {
    Steps(cfg, ss[i], es[i], ss[i + 1])
  }

  ghost predicate IsRun(cfg: Config, ss: seq<State>, es: seq<Event>) {
    && cfg.protocol.Iscsi?
    && |ss| == |es| + 1
    && Initial(ss[0].paths) && ss[0].pc == Looking(0)
    && forall i :: 0 <= i < |es| ==> StepAt(cfg, ss, es, i)
  }

  ghost predicate Inv(cfg: Config, s: State) {
    && cfg.protocol.Iscsi? && PathInv(cfg, s.paths)
    && (s.paths.sh.stop <==> s.pc.Joining? || s.pc.Verifying?)
    && match s.pc
       case Looking(turn) => turn <= SCAN_SINGLE_TIMES
       case Sleeping(turn, _) => turn < SCAN_SINGLE_TIMES
       case Verifying => s.paths.sh.stoppedThreads == |s.paths.ws|
       case _ => true
  }

  lemma StepKeepsInv(cfg: Config, s: State, e: Event, s': State)
    requires Inv(cfg, s) && Steps(cfg, s, e, s')
    ensures Inv(cfg, s')
  {
    match e
    case Path(i, a) =>
      NextKeepsPathInv(cfg, s.paths, Work(i, a), s'.paths);
      WorkOnlyAdds(cfg, s.paths, Work(i, a), s'.paths);
    case Coordinator =>
      if s.pc.Leaving? {
        NextKeepsPathInv(cfg, s.paths, Coordinate(RaiseStop), s'.paths);
      }
      if s.pc.Joining? {
        assert forall i :: 0 <= i < |s.paths.ws| ==> WorkerInv(cfg, s.paths.ws[i]);
        CountAll(s.paths.ws, HasStopped);
      }
    case Tick(_) =>
  }

  lemma {:induction false} RunKeepsInv(cfg: Config, ss: seq<State>, es: seq<Event>, n: nat)
    requires IsRun(cfg, ss, es) && n < |ss|
    ensures Inv(cfg, ss[n])
  {
    if n == 0 {
      InitialPathInv(cfg, ss[0].paths);
    } else {
      RunKeepsInv(cfg, ss, es, n - 1);
      assert StepAt(cfg, ss, es, n - 1);
      StepKeepsInv(cfg, ss[n - 1], es[n - 1], ss[n]);
    }
  }

  // ----- it comes to its end

  /** What is left to do: the steps of the coordinator, and those of the workers once they are told to stop. */
  function CoordinatorLeft(s: State): nat {
    match s.pc
    case Looking(turn) => 2 * Above(SCAN_SINGLE_TIMES - turn) + 3
    case Sleeping(turn, _) => 2 * Above(SCAN_SINGLE_TIMES - turn) + 2
    case Leaving => 2
    case Joining => 1
    case Verifying => 0
  }

  ghost function WorkersLeft(s: State): nat {
    if s.paths.sh.stop then Sum(s.paths.ws, Rank) else 8 * |s.paths.ws|
  }

  /** A step that counts: of the coordinator, or of a worker that is told to stop. */
  predicate Counts(s: State, e: Event) { e.Coordinator? || (e.Path? && s.paths.sh.stop) }

  lemma StepUsesUp(cfg: Config, s: State, e: Event, s': State)
    requires Inv(cfg, s) && Steps(cfg, s, e, s')
    ensures CoordinatorLeft(s') + WorkersLeft(s') + Bit(Counts(s, e)) <= CoordinatorLeft(s) + WorkersLeft(s)
  {
    match e
    case Path(i, a) =>
      if s.paths.sh.stop {
        assert WorkerInv(cfg, s.paths.ws[i]);
        ActsLowersRank(cfg, s.paths.sh, s.paths.ws[i], a, s'.paths.sh, s'.paths.ws[i]);
        SumUpdate(s.paths.ws, i, s'.paths.ws[i], Rank);
      }
      WorkOnlyAdds(cfg, s.paths, Work(i, a), s'.paths);
    case Coordinator =>
      if s.pc.Leaving? {
        SumBound(s.paths.ws, Rank, 8);
      }
    case Tick(_) =>
  }

  ghost function CountedSteps(ss: seq<State>, es: seq<Event>, n: nat): nat
    requires n < |ss| == |es| + 1
  {
    if n == 0 then 0 else CountedSteps(ss, es, n - 1) + if Counts(ss[n - 1], es[n - 1]) then 1 else 0
  }

  /** In every run, hidden targets included: the coordinator takes at most 33 steps, and each worker at most
      eight once it is told to stop. */
  lemma {:induction false} ConnectEnds(cfg: Config, ss: seq<State>, es: seq<Event>, n: nat)
    requires IsRun(cfg, ss, es) && n < |ss|
    ensures CountedSteps(ss, es, n) + CoordinatorLeft(ss[n]) + WorkersLeft(ss[n]) <= 33 + 8 * |ss[0].paths.ws|
  {
    if n > 0 {
      ConnectEnds(cfg, ss, es, n - 1);
      RunKeepsInv(cfg, ss, es, n - 1);
      assert StepAt(cfg, ss, es, n - 1);
      StepUsesUp(cfg, ss[n - 1], es[n - 1], ss[n]);
    }
  }

  /** And until the check, a step that counts is possible, if need be after some time has passed: the
      coordinator is never left waiting for a worker that cannot step. */
  lemma NeverStuck(cfg: Config, s: State) returns (seconds: nat, late: State, e: Event, s': State)
    requires Inv(cfg, s) && !s.pc.Verifying?
    ensures Steps(cfg, s, Tick(seconds), late) && seconds <= (if s.pc.Sleeping? then Above(s.pc.until - s.now) else 0)
    ensures Steps(cfg, late, e, s') && Counts(late, e)
  {
    seconds, late := 0, s;
    match s.pc
    case Looking(turn) =>
      e := Coordinator;
      s' := s.(pc := if turn >= SCAN_SINGLE_TIMES || s.paths.sh.found != [] then Leaving
                     else Sleeping(turn, s.now + SCAN_SINGLE_INTERVAL));
    case Sleeping(turn, until) =>
      seconds := Above(until - s.now);
      late := s.(now := s.now + seconds);
      e, s' := Coordinator, late.(pc := Looking(turn + 1));
    case Leaving =>
      e, s' := Coordinator, s.(paths := s.paths.(sh := Controlled(s.paths.sh, RaiseStop)), pc := Joining);
    case Joining =>
      if forall i :: 0 <= i < |s.paths.ws| ==> s.paths.ws[i].pc.Done? {
        e, s' := Coordinator, s.(pc := Verifying);
      } else {
        var i :| 0 <= i < |s.paths.ws| && !s.paths.ws[i].pc.Done?;
        var a, sh', w' := WorkerCanAct(cfg, s.paths.sh, s.paths.ws[i]);
        e, s' := Path(i, a), s.(paths := Paths(sh', s.paths.ws[i := w']));
      }
  }

  // ----- it does not come to its end too early

  ghost predicate Patient(s: State, start: int) {
    match s.pc
    case Looking(turn) => s.now >= start + 2 * turn
    case Sleeping(turn, until) => until >= start + 2 * turn + 2
    case _ => s.paths.sh.found != [] || s.now >= start + 30
  }

  lemma {:induction false} RunIsPatient(cfg: Config, ss: seq<State>, es: seq<Event>, n: nat)
    requires IsRun(cfg, ss, es) && n < |ss|
    ensures Patient(ss[n], ss[0].now) && |ss[n].paths.sh.found| == Count(ss[n].paths.ws, HasPublished)
  {
    if n > 0 {
      RunIsPatient(cfg, ss, es, n - 1);
      RunKeepsInv(cfg, ss, es, n - 1);
      assert StepAt(cfg, ss, es, n - 1);
      if es[n - 1].Path? {
        WorkOnlyAdds(cfg, ss[n - 1].paths, Work(es[n - 1].worker, es[n - 1].action), ss[n].paths);
        StepOnLists(cfg, ss[n - 1].paths, Work(es[n - 1].worker, es[n - 1].action), ss[n].paths);
      }
    } else {
      CountNone(ss[0].paths.ws, HasPublished);
    }
  }

  /** The stop flag goes up only once a device was found or thirty seconds have passed; and at every point
      there are as many devices found as workers have published one. */
  lemma NoEarlyEnd(cfg: Config, ss: seq<State>, es: seq<Event>, n: nat)
    requires IsRun(cfg, ss, es) && n < |ss|
    ensures ss[n].paths.sh.stop && ss[n].now < ss[0].now + 30 ==> ss[n].paths.sh.found != []
    ensures |ss[n].paths.sh.found| == Count(ss[n].paths.ws, HasPublished)
  {
    RunIsPatient(cfg, ss, es, n);
    RunKeepsInv(cfg, ss, es, n);
  }

  // ----- and what it returns

  /** In every interleaving: when the check starts all workers have stopped, and the connect succeeds if
      and only if a device was found and the first one reads and reports the LUN's WWN. */
  method FinishConnect(s: State, lunWwn: string, host: Host, ghost cfg: Config, ghost ss: seq<State>, ghost es: seq<Event>)
    returns (r: Outcome<string>)
    requires IsRun(cfg, ss, es) && s == ss[|es|] && s.pc.Verifying?
    ensures forall i :: 0 <= i < |s.paths.ws| ==> s.paths.ws[i].stopped
    ensures r.Success? <==>
              s.paths.sh.found != [] &&
              var device := "/dev/" + s.paths.sh.found[0];
              && host.canRead(device) && host.report(device).Ok?
              && host.report(device).value != "" && Contains(host.report(device).value, lunWwn)
    ensures r.Success? ==> s.paths.sh.found != [] && r.value == "/dev/" + s.paths.sh.found[0]
  {
    RunKeepsInv(cfg, ss, es, |es|);
    AllStopped(cfg, s.paths);
    r := CheckSinglePathAvailable(s.paths.sh.found, lunWwn, host);
  }
}
