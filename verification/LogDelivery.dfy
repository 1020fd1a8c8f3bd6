/** What the log collection of module LogPipeline delivers: a task that a pod begins to hand over is run, every
    pod can get its task run, and the host information of a node is collected successfully at most once. */
module LogDelivery {
  import opened Basics
  import opened LogPipeline

  // ----- a send that has begun is completed

  /** The pod is handing over its task, or has done so. */
  predicate Sends(pod: Pod) { pod.pc.Sending? || pod.handed }

  lemma PodStepSends(l: Limits, s: State, step: Step, s': State, p: nat)
    requires PodStep(l, s, step, s') && p < |s.pods| && PodInv(s, p)
    ensures |s'.pods| == |s.pods| && (Sends(s'.pods[p]) <==> Sends(s.pods[p]) || step == BeginSend(p))
  {
  }

  lemma StepSends(l: Limits, s: State, step: Step, s': State, p: nat)
    requires Next(l, s, step, s') && p < |s.pods| && PodInv(s, p)
    ensures |s'.pods| == |s.pods| && (Sends(s'.pods[p]) <==> Sends(s.pods[p]) || step == BeginSend(p))
  {
    if PodStep(l, s, step, s') {
      PodStepSends(l, s, step, s', p);
    }
  }

  /** At every point of a run, the pods that are handing over or have handed over are those that began to. */
  lemma {:induction false} SendsIffBegun(l: Limits, ss: seq<State>, steps: seq<Step>, n: nat, p: nat)
    requires IsRun(l, ss, steps) && n < |ss| && p < |ss[0].pods|
    ensures |ss[n].pods| == |ss[0].pods| && (Sends(ss[n].pods[p]) <==> BeginSend(p) in steps[..n])
  {
    if n > 0 {
      SendsIffBegun(l, ss, steps, n - 1, p);
      RunKeepsInv(l, ss, steps, n - 1);
      assert StepAt(l, ss, steps, n - 1) && PodInv(ss[n - 1], p);
      StepSends(l, ss[n - 1], steps[n - 1], ss[n], p);
      assert steps[..n] == steps[..n - 1] + [steps[n - 1]];
    }
  }

  /** In every run that has returned, the task of a pod was started exactly once if the pod ever began to hand
      it over, and never otherwise. */
  lemma BegunTasksAreRun(l: Limits, ss: seq<State>, steps: seq<Step>, n: nat, p: nat)
    requires IsRun(l, ss, steps) && n < |ss| && ss[n].main.Returned? && l.handlers > 0 && p < |ss[0].pods|
    ensures p < |ss[n].pods| && (ss[n].pods[p].handed <==> BeginSend(p) in steps[..n])
    ensures Count(ss[n].started, (t: nat) => t == p) == Bit(BeginSend(p) in steps[..n])
  {
    SendsIffBegun(l, ss, steps, n, p);
    NothingIsLost(l, ss, steps, n);
  }

  // ----- every pod can get its task run

  ghost predicate DiligentRun(ss: seq<State>, steps: seq<Step>)
    requires |ss| == |steps| + 1
  {
    forall i :: 0 <= i < |steps| ==> Diligent(ss[i], steps[i])
  }

  /** A pod with `containers` containers that has not given up: before it passes the first of them it has
      handed over. */
  predicate OnDuty(pod: Pod, containers: nat) {
    match pod.pc
    case Idle(c) => c == containers
    case Working(left, done) => done == pod.handed && left <= containers && (left < containers ==> pod.handed)
    case Sending(left) => left <= containers
    case Asking(left, done) => done && pod.handed && left <= containers
    case Holding(left, done) => done && pod.handed && left <= containers
    case Ended => containers > 0 ==> pod.handed
  }

  lemma PodStepOnDuty(l: Limits, s: State, step: Step, s': State, p: nat, containers: nat)
    requires PodStep(l, s, step, s') && Diligent(s, step) && p < |s.pods| && PodInv(s, p) && OnDuty(s.pods[p], containers)
    ensures |s'.pods| == |s.pods| && OnDuty(s'.pods[p], containers)
  {
  }

  lemma StepOnDuty(l: Limits, s: State, step: Step, s': State, p: nat, containers: nat)
    requires Next(l, s, step, s') && Diligent(s, step) && p < |s.pods| && PodInv(s, p) && OnDuty(s.pods[p], containers)
    ensures |s'.pods| == |s.pods| && OnDuty(s'.pods[p], containers)
  {
    if PodStep(l, s, step, s') {
      PodStepOnDuty(l, s, step, s', p, containers);
    }
  }

  lemma {:induction false} RunOnDuty(l: Limits, ss: seq<State>, steps: seq<Step>, n: nat, p: nat)
    requires IsRun(l, ss, steps) && DiligentRun(ss, steps) && n < |ss| && p < |ss[0].pods|
    ensures |ss[n].pods| == |ss[0].pods| && OnDuty(ss[n].pods[p], ss[0].pods[p].pc.containers)
  {
    if n > 0 {
      RunOnDuty(l, ss, steps, n - 1, p);
      RunKeepsInv(l, ss, steps, n - 1);
      assert StepAt(l, ss, steps, n - 1) && PodInv(ss[n - 1], p);
      StepOnDuty(l, ss[n - 1], steps[n - 1], ss[n], p, ss[0].pods[p].pc.containers);
    }
  }

  /** In every run that has returned and in which no pod gave up, every pod with a container has handed over
      its task, and each of these tasks was started exactly once. */
  lemma DiligentRunsDeliver(l: Limits, ss: seq<State>, steps: seq<Step>, n: nat, p: nat)
    requires IsRun(l, ss, steps) && DiligentRun(ss, steps) && n < |ss| && ss[n].main.Returned? && l.handlers > 0
    requires p < |ss[0].pods| && ss[0].pods[p].pc.containers > 0
    ensures p < |ss[n].pods| && ss[n].pods[p].handed && Count(ss[n].started, (t: nat) => t == p) == 1
  {
    RunOnDuty(l, ss, steps, n, p);
    NothingIsLost(l, ss, steps, n);
  }

  /** Every run without a pod giving up can be brought to its return like that. */
  lemma {:induction false} CanBeFinished(l: Limits, ss: seq<State>, steps: seq<Step>)
    returns (ss': seq<State>, steps': seq<Step>)
    requires ValidLimits(l) && IsRun(l, ss, steps) && DiligentRun(ss, steps)
    ensures ss <= ss' && steps <= steps'
    ensures IsRun(l, ss', steps') && DiligentRun(ss', steps') && ss'[|steps'|].main.Returned?
    decreases WorkLeft(ss[|steps|])
  {
    var last := ss[|steps|];
    if last.main.Returned? {
      ss', steps' := ss, steps;
    } else {
      var step, s' := NoDeadlock(l, ss, steps, |steps|);
      StepUsesWork(l, last, step, s');
      var longer, more := ss + [s'], steps + [step];
      forall i | 0 <= i < |more| ensures StepAt(l, longer, more, i) && Diligent(longer[i], more[i]) {
        if i < |steps| { assert StepAt(l, ss, steps, i) && Diligent(ss[i], steps[i]); }
      }
      ss', steps' := CanBeFinished(l, longer, more);
    }
  }

  /** So from every initial state there is a run to the return in which every pod with a container has handed
      over its task, and each of these tasks was started exactly once. */
  lemma EveryTaskCanBeRun(l: Limits, s: State) returns (ss: seq<State>, steps: seq<Step>)
    requires ValidLimits(l) && Initial(l, s)
    ensures IsRun(l, ss, steps) && ss[0] == s && ss[|steps|].main.Returned?
    ensures forall p :: 0 <= p < |s.pods| && s.pods[p].pc.containers > 0 ==>
              p < |ss[|steps|].pods| && ss[|steps|].pods[p].handed && Count(ss[|steps|].started, (t: nat) => t == p) == 1
  {
    ss, steps := CanBeFinished(l, [s], []);
    forall p | 0 <= p < |s.pods| && s.pods[p].pc.containers > 0
      ensures p < |ss[|steps|].pods| && ss[|steps|].pods[p].handed && Count(ss[|steps|].started, (t: nat) => t == p) == 1
    {
      DiligentRunsDeliver(l, ss, steps, |steps|, p);
    }
  }

  // ----- the host information of a node

  /** The step ends a successful collection of node `i`'s host information. */
  predicate CollectsHost(s: State, step: Step, i: nat) {
    step.UnlockHost? && step.succeeded && !step.panicked && step.pod < |s.pods| && s.pods[step.pod].node == i
  }

  ghost function HostCollections(ss: seq<State>, steps: seq<Step>, n: nat, i: nat): nat
    requires n <= |steps| && |ss| == |steps| + 1
  {
    if n == 0 then 0 else HostCollections(ss, steps, n - 1, i) + Bit(CollectsHost(ss[n - 1], steps[n - 1], i))
  }

  /** It is collected successfully at most once, however many pods of the node ask for it, and the node's once
      is done exactly from then on. */
  lemma {:induction false} HostCollectedOnce(l: Limits, ss: seq<State>, steps: seq<Step>, n: nat, i: nat)
    requires IsRun(l, ss, steps) && n < |ss| && i < |ss[0].hosts|
    ensures |ss[n].hosts| == |ss[0].hosts| && HostCollections(ss, steps, n, i) == Bit(ss[n].hosts[i].done)
  {
    if n > 0 {
      HostCollectedOnce(l, ss, steps, n - 1, i);
      assert StepAt(l, ss, steps, n - 1);
    }
  }

  /** The pod has sent its task or passed a running container, after which it asks for the host information. */
  predicate AsksForHost(step: Step, p: nat) {
    step == Send(p) || (step.NextContainer? && step.pod == p && step.running)
  }

  ghost predicate HasAsked(steps: seq<Step>, n: nat, p: nat)
    requires n <= |steps|
  {
    exists k :: 0 <= k < n && AsksForHost(steps[k], p)
  }

  ghost predicate HasTried(steps: seq<Step>, n: nat, p: nat)
    requires n <= |steps|
  {
    exists k :: 0 <= k < n && steps[k].UnlockHost? && steps[k].pod == p
  }

  ghost predicate IsServed(s: State, steps: seq<Step>, n: nat, p: nat)
    requires n <= |steps| && p < |s.pods| && s.pods[p].node < |s.hosts|
  {
    s.pods[p].pc.Asking? || s.pods[p].pc.Holding? || s.hosts[s.pods[p].node].done || HasTried(steps, n, p)
  }

  ghost predicate Serves(s: State, step: Step, s': State, p: nat)
    requires p < |s.pods| && s.pods[p].node < |s.hosts|
  {
    && |s'.pods| == |s.pods| && s'.pods[p].node == s.pods[p].node && |s'.hosts| == |s.hosts|
    && (AsksForHost(step, p) ==> s'.pods[p].pc.Asking?)
    && (s.hosts[s.pods[p].node].done ==> s'.hosts[s.pods[p].node].done)
    && (s.pods[p].pc.Asking? || s.pods[p].pc.Holding? ==>
          || s'.pods[p].pc.Asking? || s'.pods[p].pc.Holding? || s'.hosts[s.pods[p].node].done
          || (step.UnlockHost? && step.pod == p))
    && (s.pods[p].pc.Ended? ==> s'.pods[p].pc.Ended?)
  }

  lemma PodServes(l: Limits, s: State, step: Step, s': State, p: nat)
    requires PodStep(l, s, step, s') && p < |s.pods| && s.pods[p].node < |s.hosts|
    ensures Serves(s, step, s', p)
  {
  }

  lemma HostServes(s: State, step: Step, s': State, p: nat)
    requires HostStep(s, step, s') && p < |s.pods| && s.pods[p].node < |s.hosts|
    ensures Serves(s, step, s', p)
  {
  }

  lemma StepServes(l: Limits, s: State, step: Step, s': State, p: nat)
    requires Next(l, s, step, s') && p < |s.pods| && s.pods[p].node < |s.hosts|
    ensures Serves(s, step, s', p)
  {
    if PodStep(l, s, step, s') {
      PodServes(l, s, step, s', p);
    } else if HostStep(s, step, s') {
      HostServes(s, step, s', p);
    }
  }

  lemma {:induction false} AskersAreServed(l: Limits, ss: seq<State>, steps: seq<Step>, n: nat, p: nat)
    requires IsRun(l, ss, steps) && n < |ss| && p < |ss[0].pods|
    ensures |ss[n].pods| == |ss[0].pods| && ss[n].pods[p].node == ss[0].pods[p].node < |ss[n].hosts|
    ensures HasAsked(steps, n, p) ==> IsServed(ss[n], steps, n, p)
  {
    if n > 0 {
      AskersAreServed(l, ss, steps, n - 1, p);
      assert StepAt(l, ss, steps, n - 1);
      StepServes(l, ss[n - 1], steps[n - 1], ss[n], p);
      if HasAsked(steps, n, p) && !AsksForHost(steps[n - 1], p) {
        assert HasAsked(steps, n - 1, p);
      }
    }
  }

  /** In every run that has returned, a pod that has sent its task or passed a running container has tried to
      collect the host information of its node, or the information was collected. */
  lemma HostInformationIsTried(l: Limits, ss: seq<State>, steps: seq<Step>, n: nat, p: nat)
    requires IsRun(l, ss, steps) && n < |ss| && ss[n].main.Returned? && l.handlers > 0 && p < |ss[0].pods|
    requires HasAsked(steps, n, p)
    ensures HasTried(steps, n, p) || HostCollections(ss, steps, n, ss[0].pods[p].node) == 1
  {
    AskersAreServed(l, ss, steps, n, p);
    NothingIsLost(l, ss, steps, n);
    HostCollectedOnce(l, ss, steps, n, ss[0].pods[p].node);
  }

  /** A panic in there ends the pod: it does nothing more. */
  lemma {:induction false} PanicEndsPod(l: Limits, ss: seq<State>, steps: seq<Step>, k: nat, n: nat, p: nat)
    requires IsRun(l, ss, steps) && k < n < |ss| && p < |ss[0].pods|
    requires steps[k].UnlockHost? && steps[k].pod == p && steps[k].panicked
    ensures p < |ss[n].pods| && ss[n].pods[p].pc.Ended?
  {
    AskersAreServed(l, ss, steps, n - 1, p);
    assert StepAt(l, ss, steps, n - 1);
    if k < n - 1 {
      PanicEndsPod(l, ss, steps, k, n - 1, p);
      StepServes(l, ss[n - 1], steps[n - 1], ss[n], p);
    } else {
      PanicEndsIt(l, ss[k], steps[k], ss[n]);
    }
  }

  lemma PanicEndsIt(l: Limits, s: State, step: Step, s': State)
    requires Next(l, s, step, s') && step.UnlockHost? && step.panicked
    ensures step.pod < |s'.pods| && s'.pods[step.pod].pc.Ended?
  {
  }
}
