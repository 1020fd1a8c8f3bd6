/** `Once` of cli/helper/once.go: like `sync.Once`, but a function that fails may be tried again.
    Any number of goroutines call `Do` concurrently; each atomic load or store, each lock
    operation and the end of the function is one step. */
module RetryableOnce {
  import opened Basics

  /** How the function ends when a call runs it. */
  datatype End = ReturnsNil | ReturnsError | Panics

  /** What became of one call of `Do`. */
  datatype Fate = Skipped | Failed | Panicked | Succeeded

  datatype Caller =
    | Entering              // load the flag
    | Locking               // acquire the mutex
    | Checking              // read the flag again, under the mutex
    | Running               // the function is running
    | Storing               // the function returned nil: store the flag
    | Unlocking(fate: Fate)
    | Returned(fate: Fate)

  datatype Once = Once(done: bool, owner: Option<nat>, callers: seq<Caller>)

  /** `end` is how the function ends, if the caller is running it. */
  function Step(o: Once, i: nat, end: End): Once
    requires i < |o.callers|
  {
    match o.callers[i]
    case Entering => o.(callers := o.callers[i := if o.done then Returned(Skipped) else Locking])
    case Locking =>
      if o.owner.None? then o.(owner := Some(i), callers := o.callers[i := Checking]) else o
    case Checking => o.(callers := o.callers[i := if o.done then Unlocking(Skipped) else Running])
    case Running =>
      o.(callers := o.callers[i := if end.ReturnsNil? then Storing else Unlocking(if end.Panics? then Panicked else Failed)])
    case Storing => o.(done := true, callers := o.callers[i := Unlocking(Succeeded)])
    case Unlocking(fate) => o.(owner := None, callers := o.callers[i := Returned(fate)])
    case Returned(_) => o
  }

  predicate InSection(c: Caller) { c.Checking? || c.Running? || c.Storing? || c.Unlocking? }

  ghost predicate Inv(o: Once) {
    && (forall i :: 0 <= i < |o.callers| ==> (InSection(o.callers[i]) <==> o.owner == Some(i)))
    && (o.owner.Some? ==> o.owner.value < |o.callers|)
    && (forall i :: 0 <= i < |o.callers| && (o.callers[i].Running? || o.callers[i].Storing?) ==> !o.done)
  }

  lemma StepKeepsInv(o: Once, i: nat, end: End)
    requires Inv(o) && i < |o.callers|
    ensures Inv(Step(o, i, end))
  {
  }

  // ----- schedules, and how the function was run

  datatype Turn = Turn(caller: nat, end: End)

  ghost predicate IsSchedule(n: nat, turns: seq<Turn>) { forall k :: 0 <= k < |turns| ==> turns[k].caller < n }

  /** The state after any schedule of `n` calls. */
  ghost function RunOf(n: nat, turns: seq<Turn>): (o: Once)
    requires IsSchedule(n, turns)
    ensures |o.callers| == n
  {
    if turns == [] then Once(false, None, seq(n, _ => Entering))
    else
      var last := |turns| - 1;
      Step(RunOf(n, turns[..last]), turns[last].caller, turns[last].end)
  }

  /** The ends of the function along the schedule: which call ran it, and how it ended. */
  ghost function Executions(n: nat, turns: seq<Turn>): seq<Turn>
    requires IsSchedule(n, turns)
  {
    if turns == [] then []
    else
      var last := |turns| - 1;
      Executions(n, turns[..last]) + if RunOf(n, turns[..last]).callers[turns[last].caller].Running? then [turns[last]] else []
  }

  /** How the function ended when call `i` ran it. */
  ghost function EndsOf(executions: seq<Turn>, i: nat): seq<End> {
    if executions == [] then []
    else
      var last := executions[|executions| - 1];
      EndsOf(executions[..|executions| - 1], i) + if last.caller == i then [last.end] else []
  }

  /** What a caller's place says about this. */
  function OwnEnds(c: Caller): seq<End> {
    match c
    case Storing => [ReturnsNil]
    case Unlocking(fate) => EndsFor(fate)
    case Returned(fate) => EndsFor(fate)
    case _ => []
  }

  function EndsFor(fate: Fate): seq<End> {
    match fate
    case Skipped => []
    case Failed => [ReturnsError]
    case Panicked => [Panics]
    case Succeeded => [ReturnsNil]
  }

  predicate HasSucceeded(executions: seq<Turn>) {
    executions != [] && executions[|executions| - 1].end.ReturnsNil?
  }

  /** The call has found the flag set, or has set it. */
  predicate KnowsDone(c: Caller) { (c.Unlocking? || c.Returned?) && (c.fate.Skipped? || c.fate.Succeeded?) }

  ghost predicate LogInv(o: Once, executions: seq<Turn>) {
    && (forall i :: 0 <= i < |o.callers| ==> EndsOf(executions, i) == OwnEnds(o.callers[i]))
    && (forall k :: 0 <= k < |executions| - 1 ==> !executions[k].end.ReturnsNil?)
    && (HasSucceeded(executions) <==> o.done || exists i :: 0 <= i < |o.callers| && o.callers[i].Storing?)
    && (forall i :: 0 <= i < |o.callers| && KnowsDone(o.callers[i]) ==> o.done)
  }

  lemma EndKeepsLog(o: Once, i: nat, end: End, executions: seq<Turn>)
    requires Inv(o) && LogInv(o, executions) && i < |o.callers| && o.callers[i].Running?
    ensures LogInv(Step(o, i, end), executions + [Turn(i, end)])
  {
    var longer := executions + [Turn(i, end)];
    assert longer[..|executions|] == executions;
    assert forall j :: 0 <= j < |o.callers| && j != i ==> !InSection(o.callers[j]);
    assert !HasSucceeded(executions);
    assert end.ReturnsNil? ==> Step(o, i, end).callers[i].Storing?;
  }

  lemma OthersKeepLog(o: Once, i: nat, end: End, executions: seq<Turn>)
    requires Inv(o) && LogInv(o, executions) && i < |o.callers| && !o.callers[i].Running?
    ensures LogInv(Step(o, i, end), executions)
  {
    var o' := Step(o, i, end);
    if !o.callers[i].Storing? {
      forall j | 0 <= j < |o.callers| ensures o.callers[j].Storing? <==> o'.callers[j].Storing? {}
    }
  }

  lemma {:induction false} RunKeepsInv(n: nat, turns: seq<Turn>)
    requires IsSchedule(n, turns)
    ensures Inv(RunOf(n, turns)) && LogInv(RunOf(n, turns), Executions(n, turns))
  {
    if turns != [] {
      var last := |turns| - 1;
      RunKeepsInv(n, turns[..last]);
      StepKeepsInv(RunOf(n, turns[..last]), turns[last].caller, turns[last].end);
      var before, executions := RunOf(n, turns[..last]), Executions(n, turns[..last]);
      if before.callers[turns[last].caller].Running? {
        EndKeepsLog(before, turns[last].caller, turns[last].end, executions);
      } else {
        OthersKeepLog(before, turns[last].caller, turns[last].end, executions);
        assert executions + [] == executions;
      }
    }
  }

  /** However the calls interleave and whichever of them fail or panic: at most one call is in the locked
      section; the function is never run again once it has returned nil; each call runs it at most once, and
      has returned with the fate that this run had; and a call has returned without running it only if it
      has returned nil in another. */
  lemma OnceGuarantee(n: nat, turns: seq<Turn>)
    requires IsSchedule(n, turns)
    ensures var o, executions := RunOf(n, turns), Executions(n, turns);
            && (forall i, j :: 0 <= i < j < n ==> !(InSection(o.callers[i]) && InSection(o.callers[j])))
            && (forall k :: 0 <= k < |executions| - 1 ==> !executions[k].end.ReturnsNil?)
            && (forall i :: 0 <= i < n && o.callers[i].Returned? ==>
                  EndsOf(executions, i) == match o.callers[i].fate
                                           case Skipped => []
                                           case Failed => [ReturnsError]
                                           case Panicked => [Panics]
                                           case Succeeded => [ReturnsNil])
            && (forall i :: 0 <= i < n && o.callers[i] == Returned(Skipped) ==>
                  executions != [] && executions[|executions| - 1].end == ReturnsNil)
  {
    RunKeepsInv(n, turns);
  }

  // ----- every call comes back

  function Rank(c: Caller): nat {
    match c
    case Entering => 6
    case Locking => 5
    case Checking => 4
    case Running => 3
    case Storing => 2
    case Unlocking(_) => 1
    case Returned(_) => 0
  }

  /** A call that waits for the lock waits for one that can step; and no step is taken in vain. */
  lemma SomeCallSteps(o: Once, i: nat) returns (j: nat)
    requires Inv(o) && i < |o.callers| && !o.callers[i].Returned?
    ensures j < |o.callers| && forall end :: Sum(Step(o, j, end).callers, Rank) < Sum(o.callers, Rank)
  {
    j := if o.callers[i].Locking? && o.owner.Some? then o.owner.value else i;
    forall end ensures Sum(Step(o, j, end).callers, Rank) < Sum(o.callers, Rank) {
      SumUpdate(o.callers, j, Step(o, j, end).callers[j], Rank);
    }
  }

  /** Every schedule can be continued until all calls have returned, however the function ends in each. */
  lemma {:induction false} AllCallsReturn(n: nat, turns: seq<Turn>, ends: nat -> End) returns (all: seq<Turn>)
    requires IsSchedule(n, turns)
    ensures IsSchedule(n, all) && turns <= all && forall k :: |turns| <= k < |all| ==> all[k].end == ends(all[k].caller)
    ensures forall i :: 0 <= i < n ==> RunOf(n, all).callers[i].Returned?
    decreases Sum(RunOf(n, turns).callers, Rank)
  {
    var o := RunOf(n, turns);
    if i :| 0 <= i < n && !o.callers[i].Returned? {
      RunKeepsInv(n, turns);
      var j := SomeCallSteps(o, i);
      var longer := turns + [Turn(j, ends(j))];
      assert longer[..|turns|] == turns;
      all := AllCallsReturn(n, longer, ends);
    } else {
      all := turns;
    }
  }

  /** As long as the function has not returned nil, every call that has returned has run it. */
  lemma FailuresAreRetried(n: nat, turns: seq<Turn>, i: nat)
    requires IsSchedule(n, turns) && i < n && RunOf(n, turns).callers[i].Returned?
    requires forall k :: 0 <= k < |Executions(n, turns)| ==> Executions(n, turns)[k].end != ReturnsNil
    ensures |EndsOf(Executions(n, turns), i)| == 1
  {
    RunKeepsInv(n, turns);
  }

  /** A call that enters after one has succeeded leaves at once, even while the lock is held. */
  lemma LateCallsLeaveAtOnce(n: nat, turns: seq<Turn>, i: nat, j: nat, end: End)
    requires IsSchedule(n, turns) && i < n && j < n && RunOf(n, turns).callers[i] == Returned(Succeeded)
    requires RunOf(n, turns).callers[j].Entering?
    ensures Step(RunOf(n, turns), j, end).callers[j] == Returned(Skipped)
  {
    RunKeepsInv(n, turns);
  }
}
