/** The rescan loop that one iSCSI path runs after it has logged in
    (connector/iscsi/iscsi_helper.go): look up the host:channel:target:lun, rescan it
    with a growing back-off, pick up the device and check it.

    One turn of the loop is a `Pass`, followed by a one-second wait when the loop goes on.
    What the host answers is unconstrained: a run is driven by one `Observation` per turn. */
module DeviceScan {
  import opened Basics

  const DEVICE_SCAN_ATTEMPTS := 3
  const SCAN_STEP := 2

  /** What one turn of the loop gets from the host. `wwn` is the identifier the device reports. */
  datatype Observation = Observation(hctl: bool, device: string, readable: bool, wwn: Result<string>, stop: bool)

  /** `CheckConnectSuccess`: the device could be read and reports a WWN containing the target's. */
  predicate Usable(o: Observation, target: string) {
    o.readable && o.wwn.Ok? && o.wwn.value != "" && Contains(o.wwn.value, target)
  }

  /** The loop's variables: the rescan counter, the seconds left before the next rescan,
      whether the host:channel:target:lun is known, and the device picked up. */
  datatype Scan = Scan(numRescans: int, secondNextScan: int, known: bool, device: string)

  function InitialScan(manualScan: bool): Scan {
    if manualScan then Scan(-1, 0, false, "") else Scan(0, 4, false, "")
  }

  /** The back-off set by the rescan that brings the counter to `k`. */
  function Backoff(k: int): int {
    (k + SCAN_STEP) * (k + SCAN_STEP)
  }

  predicate Rescans(s: Scan, o: Observation) {
    (s.known || o.hctl) && s.secondNextScan <= 0
  }

  /** The body of the loop, up to the evaluation of `doScans`. */
  function Pass(s: Scan, o: Observation, target: string): Scan {
    var known := s.known || o.hctl;
    var device := if known then o.device else s.device;
    var kept := if device != "" && Usable(o, target) then device else "";
    if Rescans(s, o)
    then Scan(s.numRescans + 1, Backoff(s.numRescans + 1), known, kept)
    else s.(known := known, device := kept)
  }

  predicate DoScans(s: Scan, o: Observation) {
    s.numRescans <= DEVICE_SCAN_ATTEMPTS && !(s.device != "" || o.stop)
  }

  function Wait(s: Scan): Scan {
    s.(secondNextScan := s.secondNextScan - 1)
  }

  ghost predicate GoesOn(ts: seq<Scan>, obs: seq<Observation>, target: string, i: nat)
    requires i + 1 < |ts| == |obs|
  {
    DoScans(Pass(ts[i], obs[i], target), obs[i]) && ts[i + 1] == Wait(Pass(ts[i], obs[i], target))
  }

  /** `ts[i]` are the variables at the start of turn `i`, which observes `obs[i]`; every turn
      but the last has gone on. So a run of length n + 1 is a loop that has reached turn n. */
  ghost predicate Turns(ts: seq<Scan>, obs: seq<Observation>, target: string) {
    && |ts| == |obs| > 0
    && forall i :: 0 <= i < |ts| - 1 ==> GoesOn(ts, obs, target, i)
  }

  /** The number of turns among the first `n` that issue a rescan. */
  ghost function RescanCount(ts: seq<Scan>, obs: seq<Observation>, n: nat): nat
    requires n <= |ts| == |obs|
  {
    if n == 0 then 0 else RescanCount(ts, obs, n - 1) + if Rescans(ts[n - 1], obs[n - 1]) then 1 else 0
  }

  // ----- how many rescans

  /** The counter counts every rescan, and while turns go on it has not run out. */
  lemma {:induction false} CounterTracksRescans(ts: seq<Scan>, obs: seq<Observation>, target: string, n: nat)
    requires Turns(ts, obs, target) && n < |ts|
    requires ts[0].numRescans <= DEVICE_SCAN_ATTEMPTS
    ensures ts[n].numRescans == ts[0].numRescans + RescanCount(ts, obs, n) <= DEVICE_SCAN_ATTEMPTS
  {
    if n > 0 {
      CounterTracksRescans(ts, obs, target, n - 1);
      assert GoesOn(ts, obs, target, n - 1);
    }
  }

  /** Whatever the host answers, at most five rescans are issued after a manual-scan login
      and at most four after an automatic one, the last turn's rescan included. */
  lemma RescanBound(manual: bool, ts: seq<Scan>, obs: seq<Observation>, target: string)
    requires Turns(ts, obs, target) && ts[0] == InitialScan(manual)
    ensures RescanCount(ts, obs, |ts|) <= if manual then 5 else 4
  {
    CounterTracksRescans(ts, obs, target, |ts| - 1);
  }

  // ----- how far apart

  /** With no rescan since turn `i`, the countdown just counts down, and the target stays known. */
  lemma {:induction false} Countdown(ts: seq<Scan>, obs: seq<Observation>, target: string, i: nat, j: nat)
    requires Turns(ts, obs, target) && i < j < |ts| && Rescans(ts[i], obs[i])
    requires forall k :: i < k < j ==> !Rescans(ts[k], obs[k])
    ensures ts[j].numRescans == ts[i].numRescans + 1 && ts[j].known
    ensures ts[j].secondNextScan == Backoff(ts[i].numRescans + 1) - (j - i)
  {
    assert GoesOn(ts, obs, target, j - 1);
    if j > i + 1 {
      Countdown(ts, obs, target, i, j - 1);
      assert GoesOn(ts, obs, target, j - 1);
    }
  }

  lemma BackoffPositive(k: int)
    requires k >= 0
    ensures Backoff(k) >= 4
  {
    assert Backoff(k) == k * (k + 4) + 4;
  }

  /** Two consecutive rescans, the first of which is the c-th, are exactly (c + 1)^2 one-second waits apart,
      and (c + 2)^2 after an automatic login. */
  lemma {:induction false} RescanSpacing(manual: bool, ts: seq<Scan>, obs: seq<Observation>, target: string, i: nat, j: nat)
    requires Turns(ts, obs, target) && ts[0] == InitialScan(manual)
    requires i < j < |ts| && Rescans(ts[i], obs[i]) && Rescans(ts[j], obs[j])
    requires forall k :: i < k < j ==> !Rescans(ts[k], obs[k])
    ensures var c := RescanCount(ts, obs, i + 1) + (if manual then 1 else 2); j - i == c * c
  {
    CounterTracksRescans(ts, obs, target, i);
    BackoffPositive(ts[i].numRescans + 1);
    Countdown(ts, obs, target, i, j);
    if j > i + 1 {
      // the turn before was not a rescan, so the countdown was still positive there
      Countdown(ts, obs, target, i, j - 1);
    }
  }

  ghost predicate SeenBy(obs: seq<Observation>, n: nat)
    requires n <= |obs|
  {
    exists i :: 0 <= i < n && obs[i].hctl
  }

  lemma {:induction false} BeforeFirstRescan(manual: bool, ts: seq<Scan>, obs: seq<Observation>, target: string, n: nat)
    requires Turns(ts, obs, target) && ts[0] == InitialScan(manual) && n < |ts|
    requires forall k :: 0 <= k < n ==> !Rescans(ts[k], obs[k])
    ensures ts[n].known <==> SeenBy(obs, n)
    ensures ts[n].secondNextScan == (if manual then 0 else 4) - n
  {
    if n > 0 {
      BeforeFirstRescan(manual, ts, obs, target, n - 1);
      assert GoesOn(ts, obs, target, n - 1);
      if SeenBy(obs, n) && !obs[n - 1].hctl {
        assert SeenBy(obs, n - 1);
      }
    }
  }

  /** The first rescan comes with the turn that first sees the host:channel:target:lun, but after an automatic
      login not before four seconds have passed. */
  lemma FirstRescanIff(manual: bool, ts: seq<Scan>, obs: seq<Observation>, target: string, n: nat)
    requires Turns(ts, obs, target) && ts[0] == InitialScan(manual) && n < |ts|
    requires forall k :: 0 <= k < n ==> !Rescans(ts[k], obs[k])
    ensures Rescans(ts[n], obs[n]) <==> SeenBy(obs, n + 1) && (manual || n >= 4)
  {
    BeforeFirstRescan(manual, ts, obs, target, n);
    if obs[n].hctl {
      assert SeenBy(obs, n + 1);
    } else if SeenBy(obs, n + 1) {
      assert SeenBy(obs, n);
    }
  }

  // ----- when it ends

  lemma {:induction false} KnownIff(manual: bool, ts: seq<Scan>, obs: seq<Observation>, target: string, n: nat)
    requires Turns(ts, obs, target) && ts[0] == InitialScan(manual) && n < |ts|
    ensures ts[n].known <==> SeenBy(obs, n)
    ensures ts[n].device == ""
  {
    if n > 0 {
      KnownIff(manual, ts, obs, target, n - 1);
      assert GoesOn(ts, obs, target, n - 1);
      if SeenBy(obs, n) && !obs[n - 1].hctl {
        assert SeenBy(obs, n - 1);
      }
    }
  }

  /** Exactly when a turn ends the loop: it shows a device that can be read and reports the target's WWN,
      after the host:channel:target:lun was seen; or the stop flag is up; or all five rescans are used up,
      or four after an automatic login. It ends with that device, or with none. */
  lemma {:induction false} EndsIff(manual: bool, ts: seq<Scan>, obs: seq<Observation>, target: string)
    requires Turns(ts, obs, target) && ts[0] == InitialScan(manual)
    ensures var last := |ts| - 1;
            var shown := SeenBy(obs, |ts|) && obs[last].device != "" && Usable(obs[last], target);
            && (!DoScans(Pass(ts[last], obs[last], target), obs[last]) <==>
                  shown || obs[last].stop || RescanCount(ts, obs, |ts|) == if manual then 5 else 4)
            && Pass(ts[last], obs[last], target).device == if shown then obs[last].device else ""
  {
    var last := |ts| - 1;
    KnownIff(manual, ts, obs, target, last);
    CounterTracksRescans(ts, obs, target, last);
    if obs[last].hctl {
      assert SeenBy(obs, |ts|);
    } else if SeenBy(obs, |ts|) {
      assert SeenBy(obs, last);
    }
  }

  /** The back-offs of the rescans numbered `k` and up, as long as they let the loop go on. */
  function BackoffsFrom(k: int): int
    requires 0 <= k
    decreases DEVICE_SCAN_ATTEMPTS - k
  {
    if k > DEVICE_SCAN_ATTEMPTS then 0 else Backoff(k) + BackoffsFrom(k + 1)
  }

  /** The waits ahead once the target is known: what is left of the current back-off and the
      back-offs of the rescans still to come. It is the loop's termination measure. */
  function WaitsAhead(s: Scan): int
    requires -1 <= s.numRescans
  {
    (if s.secondNextScan > 0 then s.secondNextScan else 0) + BackoffsFrom(s.numRescans + 1)
  }

  lemma {:induction false} BackoffsNonNegative(k: int)
    requires 0 <= k
    ensures 0 <= BackoffsFrom(k)
    decreases DEVICE_SCAN_ATTEMPTS - k
  {
    if k <= DEVICE_SCAN_ATTEMPTS {
      BackoffPositive(k);
      BackoffsNonNegative(k + 1);
    }
  }

  /** A turn that goes on never adds to the waits ahead, and uses one up if the target is known. */
  lemma WaitUsesBudget(s: Scan, o: Observation, target: string)
    requires -1 <= s.numRescans && DoScans(Pass(s, o, target), o)
    ensures var next := Wait(Pass(s, o, target));
            && -1 <= next.numRescans
            && 0 <= WaitsAhead(next) <= WaitsAhead(s)
            && (s.known || o.hctl ==> WaitsAhead(next) < WaitsAhead(s))
  {
    BackoffsNonNegative(s.numRescans + 1);
    if Rescans(s, o) {
      BackoffPositive(s.numRescans + 1);
      BackoffsNonNegative(s.numRescans + 2);
    }
  }

  lemma InitialBudget(manual: bool)
    ensures WaitsAhead(InitialScan(manual)) == 54
  {
    assert BackoffsFrom(3) == 25 + BackoffsFrom(4);
    assert BackoffsFrom(1) == 9 + BackoffsFrom(2) == 25 + BackoffsFrom(3);
  }

  /** From turn `m` on, where the target is known, each turn reached has used up one more wait. */
  lemma {:induction false} BudgetAlong(manual: bool, ts: seq<Scan>, obs: seq<Observation>, target: string, m: nat, n: nat)
    requires Turns(ts, obs, target) && ts[0] == InitialScan(manual)
    requires m <= n < |ts| && (ts[m].known || obs[m].hctl)
    ensures ts[n].numRescans >= -1
    ensures 0 <= WaitsAhead(ts[n]) <= 54 - (n - m)
    ensures ts[n].known || n == m
  {
    InitialBudget(manual);
    if n > 0 {
      assert GoesOn(ts, obs, target, n - 1);
      if n > m {
        BudgetAlong(manual, ts, obs, target, m, n - 1);
      } else {
        BudgetBefore(manual, ts, obs, target, n - 1);
      }
      WaitUsesBudget(ts[n - 1], obs[n - 1], target);
    } else {
      BackoffsNonNegative(ts[0].numRescans + 1);
    }
  }

  lemma {:induction false} BudgetBefore(manual: bool, ts: seq<Scan>, obs: seq<Observation>, target: string, n: nat)
    requires Turns(ts, obs, target) && ts[0] == InitialScan(manual) && n < |ts|
    ensures ts[n].numRescans >= -1
    ensures 0 <= WaitsAhead(ts[n]) <= 54
  {
    InitialBudget(manual);
    if n > 0 {
      assert GoesOn(ts, obs, target, n - 1);
      BudgetBefore(manual, ts, obs, target, n - 1);
      WaitUsesBudget(ts[n - 1], obs[n - 1], target);
    }
  }

  /** Once the host:channel:target:lun is known at turn `m`, the loop ends within 54 more waits:
      no run reaches a turn beyond m + 54. */
  lemma KnownTargetEndsWithin54Waits(manual: bool, ts: seq<Scan>, obs: seq<Observation>, target: string, m: nat)
    requires Turns(ts, obs, target) && ts[0] == InitialScan(manual)
    requires m < |ts| && (ts[m].known || obs[m].hctl)
    ensures |ts| - 1 <= m + 54
  {
    BudgetAlong(manual, ts, obs, target, m, |ts| - 1);
  }

  /** While the target is unknown and nobody raises the stop flag, a turn always goes on. */
  lemma {:induction false} UnknownTargetNeverEnds(manual: bool, ts: seq<Scan>, obs: seq<Observation>, target: string)
    requires Turns(ts, obs, target) && ts[0] == InitialScan(manual)
    requires forall i :: 0 <= i < |obs| ==> !obs[i].hctl && !obs[i].stop
    ensures var last := |ts| - 1;
            && ts[last].numRescans <= 0 && !ts[last].known && ts[last].device == ""
            && DoScans(Pass(ts[last], obs[last], target), obs[last])
    decreases |ts|
  {
    var last := |ts| - 1;
    if last > 0 {
      forall i | 0 <= i < last - 1 ensures GoesOn(ts[..last], obs[..last], target, i) {
        assert GoesOn(ts, obs, target, i);
      }
      UnknownTargetNeverEnds(manual, ts[..last], obs[..last], target);
      assert GoesOn(ts, obs, target, last - 1);
    }
  }

  lemma ExtendTurns(ts: seq<Scan>, obs: seq<Observation>, target: string, o: Observation)
    requires Turns(ts, obs, target)
    requires DoScans(Pass(ts[|ts| - 1], obs[|ts| - 1], target), obs[|ts| - 1])
    ensures Turns(ts + [Wait(Pass(ts[|ts| - 1], obs[|ts| - 1], target))], obs + [o], target)
  {
    var ts', obs' := ts + [Wait(Pass(ts[|ts| - 1], obs[|ts| - 1], target))], obs + [o];
    forall i | 0 <= i < |ts'| - 1 ensures GoesOn(ts', obs', target, i) {
      if i < |ts| - 1 { assert GoesOn(ts, obs, target, i); }
    }
  }

  // ----- the loop itself

  /** `deviceScan`: the two counters that the loop updates. */
  class Scanner {
    var numRescans: int
    var secondNextScan: int

    constructor (manualScan: bool)
      ensures numRescans == InitialScan(manualScan).numRescans
      ensures secondNextScan == InitialScan(manualScan).secondNextScan
    {
      if manualScan {
        numRescans, secondNextScan := -1, 0;
      } else {
        numRescans, secondNextScan := 0, 4;
      }
    }

    /** `deviceScan.scan`, watched for `turns` turns at most. It takes the turns of the model and, if it
        ends, returns no device or one that was read and reports a WWN containing the target's. It has
        ended if the host:channel:target:lun or the stop flag showed up more than 54 turns ago. */
    method Run(host: nat -> Observation, target: string, turns: nat, ghost manual: bool)
      returns (ended: bool, device: string, ghost ts: seq<Scan>, ghost obs: seq<Observation>)
      requires numRescans == InitialScan(manual).numRescans
      requires secondNextScan == InitialScan(manual).secondNextScan
      modifies this
      ensures Turns(ts, obs, target) && ts[0] == InitialScan(manual)
      ensures forall i :: 0 <= i < |obs| ==> obs[i] == host(i)
      ensures ended ==>
                var final := Pass(ts[|ts| - 1], obs[|obs| - 1], target);
                && !DoScans(final, obs[|obs| - 1]) && |ts| <= turns
                && numRescans == final.numRescans && secondNextScan == final.secondNextScan
                && device == final.device
      ensures !ended ==>
                && |ts| == turns + 1 && device == ""
                && ts[turns].numRescans == numRescans && ts[turns].secondNextScan == secondNextScan
      ensures forall b: nat :: (host(b).hctl || host(b).stop) && b + 54 < turns ==> ended
      ensures device != "" ==> Usable(obs[|obs| - 1], target) && device == obs[|obs| - 1].device
      ensures forall b: nat :: host(b).hctl && host(b).device != "" && Usable(host(b), target) && b < turns ==>
                ended && |obs| <= b + 1
    {
      device, ended := "", false;
      var known := false;
      var turn: nat := 0;
      ts, obs := [InitialScan(manual)], [host(0)];
      while !ended && turn < turns
        invariant |ts| == turn + 1 && turn <= turns && (ended ==> turn < turns)
        invariant Turns(ts, obs, target) && ts[0] == InitialScan(manual)
        invariant forall i :: 0 <= i < |obs| ==> obs[i] == host(i)
        invariant !ended ==> ts[turn] == Scan(numRescans, secondNextScan, known, device) && device == ""
        invariant ended ==> Pass(ts[turn], obs[turn], target) == Scan(numRescans, secondNextScan, known, device)
        invariant ended ==> !DoScans(Pass(ts[turn], obs[turn], target), obs[turn])
        invariant device != "" ==> Usable(obs[turn], target) && device == obs[turn].device
        decreases !ended, turns - turn
      {
        var o := host(turn);
        if !known {
          known := o.hctl;
        }
        if known {
          if secondNextScan <= 0 {
            numRescans := numRescans + 1;
            secondNextScan := Backoff(numRescans);
          }
          device := o.device;
        }
        if device != "" && !Usable(o, target) {
          device := "";
        }
        assert Pass(ts[turn], o, target) == Scan(numRescans, secondNextScan, known, device);
        ended := !(numRescans <= DEVICE_SCAN_ATTEMPTS && !(device != "" || o.stop));
        if !ended {
          secondNextScan := secondNextScan - 1;
          ExtendTurns(ts, obs, target, host(turn + 1));
          ts, obs := ts + [Wait(Pass(ts[turn], o, target))], obs + [host(turn + 1)];
          turn := turn + 1;
        }
      }
      forall b: nat | b < turn && host(b).hctl ensures host(b).device == "" || !Usable(host(b), target) {
        assert GoesOn(ts, obs, target, b) && obs[b] == host(b);
      }
      if !ended {
        forall b: nat | b < turns ensures host(b).hctl || host(b).stop ==> turns <= b + 54 {
          assert GoesOn(ts, obs, target, b) && obs[b] == host(b);
          if host(b).hctl {
            KnownTargetEndsWithin54Waits(manual, ts, obs, target, b);
          }
        }
      }
    }
  }
}
