/** The log collection of oceanctl (cli/resources/logs.go, cli/resources/logs_helper.go,
    cli/helper/async_task.go, cli/helper/goroutine_limit.go): node collections under a counting
    semaphore, pods that hand file-copy tasks to a bounded channel, handlers that range over
    the channel and respawn after a panic, and a main routine that waits for the nodes, closes
    the channel and waits for the handlers.

    Every channel, semaphore and wait-group operation is one step; steps interleave freely. */
module LogPipeline {
  import opened Basics

  /** `maxNodeThreads`, the channel's capacity and `maxHandlerLimit`. */
  datatype Limits = Limits(nodeThreads: nat, capacity: nat, handlers: nat)

  predicate ValidLimits(l: Limits) { l.nodeThreads > 0 && l.capacity > 0 && l.handlers > 0 }

  datatype Node = Unborn | Queued | Collecting | Releasing | Signalling | Finished

  /** A pod's goroutine: `left` containers to go, `done` the pod's once flag. */
  datatype PodPc =
    | Idle(containers: nat)
    | Working(left: nat, done: bool)
    | Sending(left: nat)              // inside the once, blocked on the channel
    | Asking(left: nat, done: bool)   // about to call the node's once for host information
    | Holding(left: nat, done: bool)  // inside that once, with its lock
    | Ended

  datatype Pod = Pod(node: nat, pc: PodPc, handed: bool)

  /** The once under which the pods of a node collect host information: its flag, and the pod that has its
      lock. */
  datatype HostOnce = HostOnce(done: bool, owner: Option<nat>)

  /** A handler: ranging over the channel, running the task of a pod, or gone. */
  datatype Handler = Ranging | Doing(task: nat) | Gone

  datatype Main = Starting(next: nat) | AwaitNodes | Closing | AwaitHandlers | Returned

  /** `queue` is the channel; `handed` and `started` record the tasks sent to it and taken from
      it, in order, each named by its pod. */
  datatype State = State(
    main: Main, nodes: seq<Node>, hosts: seq<HostOnce>, pods: seq<Pod>, handlers: seq<Handler>,
    tokens: nat, nodeWg: nat, handlerWg: nat,
    queue: seq<nat>, closed: bool, handed: seq<nat>, started: seq<nat>)

  datatype Step =
    | SpawnNode
    | NodesDone
    | Close
    | HandlersDone
    | Acquire(node: nat)
    | LeaveNode(node: nat)      // all pods of the node have ended
    | Release(node: nat)
    | SignalNode(node: nat)
    | StartPod(pod: nat)
    | NextContainer(pod: nat, running: bool, succeeded: bool)  // no task: already done, failed or collected before
    | BeginSend(pod: nat)
    | Send(pod: nat)
    | SkipHost(pod: nat)        // the host information is there
    | LockHost(pod: nat)
    | UnlockHost(pod: nat, succeeded: bool, panicked: bool)
    | EndPod(pod: nat)          // no container left, an early return, or a recovered panic
    | Take(handler: nat)
    | EndTask(handler: nat, panicked: bool)
    | EndRange(handler: nat)

  ghost predicate PodsEnded(s: State, i: nat) {
    forall p :: 0 <= p < |s.pods| && s.pods[p].node == i ==> s.pods[p].pc.Ended?
  }

  function WithPod(s: State, p: nat, pc: PodPc): State
    requires p < |s.pods|
  {
    s.(pods := s.pods[p := s.pods[p].(pc := pc)])
  }

  ghost predicate MainStep(s: State, step: Step, s': State) {
    match step
    case SpawnNode =>
      && s.main.Starting? && s.main.next < |s.nodes| && s.nodes[s.main.next].Unborn?
      && s' == s.(nodes := s.nodes[s.main.next := Queued],
                  main := if s.main.next + 1 < |s.nodes| then Starting(s.main.next + 1) else AwaitNodes)
    case NodesDone => s.main.AwaitNodes? && s.nodeWg == 0 && s' == s.(main := Closing)
    case Close => s.main.Closing? && s' == s.(closed := true, main := AwaitHandlers)
    case HandlersDone => s.main.AwaitHandlers? && s.handlerWg == 0 && s' == s.(main := Returned)
    case _ => false
  }

  ghost predicate NodeStep(l: Limits, s: State, step: Step, s': State) {
    match step
    case Acquire(i) =>
      && i < |s.nodes| && s.nodes[i].Queued? && s.tokens < l.nodeThreads
      && s' == s.(nodes := s.nodes[i := Collecting], tokens := s.tokens + 1)
    case LeaveNode(i) =>
      && i < |s.nodes| && s.nodes[i].Collecting? && PodsEnded(s, i)
      && s' == s.(nodes := s.nodes[i := Releasing])
    case Release(i) =>
      && i < |s.nodes| && s.nodes[i].Releasing? && s.tokens > 0
      && s' == s.(nodes := s.nodes[i := Signalling], tokens := s.tokens - 1)
    case SignalNode(i) =>
      && i < |s.nodes| && s.nodes[i].Signalling? && s.nodeWg > 0
      && s' == s.(nodes := s.nodes[i := Finished], nodeWg := s.nodeWg - 1)
    case _ => false
  }

  ghost predicate PodStep(l: Limits, s: State, step: Step, s': State) {
    match step
    case StartPod(p) =>
      && p < |s.pods| && s.pods[p].pc.Idle?
      && s.pods[p].node < |s.nodes| && s.nodes[s.pods[p].node].Collecting?
      && s' == WithPod(s, p, Working(s.pods[p].pc.containers, false))
    case NextContainer(p, running, succeeded) =>
      && p < |s.pods| && s.pods[p].pc.Working? && s.pods[p].pc.left > 0
      && (var left, done := s.pods[p].pc.left - 1, s.pods[p].pc.done || succeeded;
          s' == WithPod(s, p, if running then Asking(left, done) else Working(left, done)))
    case BeginSend(p) =>
      && p < |s.pods| && s.pods[p].pc.Working? && s.pods[p].pc.left > 0 && !s.pods[p].pc.done
      && s' == WithPod(s, p, Sending(s.pods[p].pc.left))
    case Send(p) =>
      && p < |s.pods| && s.pods[p].pc.Sending? && s.pods[p].pc.left > 0
      && !s.closed && |s.queue| < l.capacity
      && s' == s.(pods := s.pods[p := s.pods[p].(pc := Asking(s.pods[p].pc.left - 1, true), handed := true)],
                  queue := s.queue + [p], handed := s.handed + [p])
    case EndPod(p) =>
      p < |s.pods| && s.pods[p].pc.Working? && s' == WithPod(s, p, Ended)
    case _ => false
  }

  /** The once of the node, as module RetryableOnce has it: skipped once it has succeeded, and otherwise
      run under its lock, which is given up also after a panic. */
  ghost predicate HostStep(s: State, step: Step, s': State) {
    match step
    case SkipHost(p) =>
      && p < |s.pods| && s.pods[p].pc.Asking? && s.pods[p].node < |s.hosts| && s.hosts[s.pods[p].node].done
      && s' == WithPod(s, p, Working(s.pods[p].pc.left, s.pods[p].pc.done))
    case LockHost(p) =>
      && p < |s.pods| && s.pods[p].pc.Asking?
      && s.pods[p].node < |s.hosts| && s.hosts[s.pods[p].node].owner.None?
      && s' == WithPod(s, p, Holding(s.pods[p].pc.left, s.pods[p].pc.done)).(
                 hosts := s.hosts[s.pods[p].node := s.hosts[s.pods[p].node].(owner := Some(p))])
    case UnlockHost(p, succeeded, panicked) =>
      && p < |s.pods| && s.pods[p].pc.Holding? && s.pods[p].node < |s.hosts|
      && (var once := s.hosts[s.pods[p].node];
          // looked at again under the lock: if it has succeeded meanwhile, nothing is run
          && (once.done ==> !succeeded && !panicked)
          && s' == WithPod(s, p, if panicked then Ended else Working(s.pods[p].pc.left, s.pods[p].pc.done)).(
                  hosts := s.hosts[s.pods[p].node := HostOnce(once.done || (succeeded && !panicked), None)]))
    case _ => false
  }

  ghost predicate HandlerStep(s: State, step: Step, s': State) {
    match step
    case Take(h) =>
      && h < |s.handlers| && s.handlers[h].Ranging? && s.queue != []
      && s' == s.(handlers := s.handlers[h := Doing(s.queue[0])], queue := s.queue[1..], started := s.started + [s.queue[0]])
    case EndTask(h, _) =>
      // after a panic the deferred function starts a new handler in place of this one
      h < |s.handlers| && s.handlers[h].Doing? && s' == s.(handlers := s.handlers[h := Ranging])
    case EndRange(h) =>
      && h < |s.handlers| && s.handlers[h].Ranging? && s.closed && s.queue == [] && s.handlerWg > 0
      && s' == s.(handlers := s.handlers[h := Gone], handlerWg := s.handlerWg - 1)
    case _ => false
  }

  ghost predicate Next(l: Limits, s: State, step: Step, s': State) {
    || MainStep(s, step, s') || NodeStep(l, s, step, s') || PodStep(l, s, step, s') || HostStep(s, step, s')
    || HandlerStep(s, step, s')
  }

  ghost predicate Initial(l: Limits, s: State) {
    && |s.nodes| == s.nodeWg && |s.handlers| == s.handlerWg == l.handlers
    && s.main == (if |s.nodes| > 0 then Starting(0) else AwaitNodes)
    && (forall i :: 0 <= i < |s.nodes| ==> s.nodes[i].Unborn?)
    && (forall p :: 0 <= p < |s.pods| ==> s.pods[p].pc.Idle? && !s.pods[p].handed && s.pods[p].node < |s.nodes|)
    && (forall h :: 0 <= h < |s.handlers| ==> s.handlers[h].Ranging?)
    && |s.hosts| == |s.nodes| && (forall i :: 0 <= i < |s.hosts| ==> s.hosts[i] == HostOnce(false, None))
    && s.tokens == 0 && s.queue == s.handed == s.started == [] && !s.closed
  }

  // ----- the invariant

  predicate HoldsToken(n: Node) { n.Collecting? || n.Releasing? }
  predicate Unfinished(n: Node) { !n.Finished? }
  predicate Live(h: Handler) { !h.Gone? }

  ghost predicate MainInv(s: State) {
    match s.main
    case Starting(next) =>
      && next < |s.nodes| && !s.closed
      && forall i :: 0 <= i < |s.nodes| ==> (s.nodes[i].Unborn? <==> next <= i)
    case AwaitNodes => !s.closed && forall i :: 0 <= i < |s.nodes| ==> !s.nodes[i].Unborn?
    case Closing => !s.closed && s.nodeWg == 0
    case AwaitHandlers => s.closed && s.nodeWg == 0
    case Returned => s.closed && s.nodeWg == 0 && s.handlerWg == 0
  }

  ghost predicate NodeInv(l: Limits, s: State) {
    && s.tokens == Count(s.nodes, HoldsToken) <= l.nodeThreads
    && s.nodeWg == Count(s.nodes, Unfinished)
  }

  /** A pod works only while its node collects, and sends only if it has not handed over yet. */
  ghost predicate PodInv(s: State, p: nat)
    requires p < |s.pods|
  {
    var pod := s.pods[p];
    && pod.node < |s.nodes|
    && (match s.nodes[pod.node]
        case Unborn => pod.pc.Idle?
        case Queued => pod.pc.Idle?
        case Collecting => true
        case Releasing => pod.pc.Ended?
        case Signalling => pod.pc.Ended?
        case Finished => pod.pc.Ended?)
    && match pod.pc
       case Idle(_) => !pod.handed
       case Working(_, done) => pod.handed ==> done
       case Sending(left) => !pod.handed && left > 0
       case Asking(_, done) => pod.handed ==> done
       case Holding(_, done) => pod.handed ==> done
       case Ended => true
  }

  /** The lock of a node's once is held exactly by the pod of the node that is inside it. */
  ghost predicate LockInv(s: State) {
    && |s.hosts| == |s.nodes|
    && (forall i :: 0 <= i < |s.hosts| && s.hosts[i].owner.Some? ==> OwnerInside(s, i))
    && forall p :: 0 <= p < |s.pods| && s.pods[p].pc.Holding? ==> InsideOwns(s, p)
  }

  ghost predicate OwnerInside(s: State, i: nat)
    requires i < |s.hosts| && s.hosts[i].owner.Some?
  {
    var p := s.hosts[i].owner.value;
    p < |s.pods| && s.pods[p].node == i && s.pods[p].pc.Holding?
  }

  ghost predicate InsideOwns(s: State, p: nat)
    requires p < |s.pods|
  {
    s.pods[p].node < |s.hosts| && s.hosts[s.pods[p].node].owner == Some(p)
  }

  ghost predicate TaskInv(s: State) {
    && s.handed == s.started + s.queue
    && (forall k :: 0 <= k < |s.handed| ==> s.handed[k] < |s.pods| && s.pods[s.handed[k]].handed)
    && (forall j, k :: 0 <= j < k < |s.handed| ==> s.handed[j] != s.handed[k])
    && (forall p :: 0 <= p < |s.pods| && s.pods[p].handed ==> p in s.handed)
  }

  ghost predicate HandlerInv(l: Limits, s: State) {
    && |s.handlers| == l.handlers
    && s.handlerWg == Count(s.handlers, Live)
    && |s.queue| <= l.capacity && (s.handlerWg < l.handlers ==> s.closed && s.queue == [])
  }

  ghost predicate Inv(l: Limits, s: State) {
    && MainInv(s) && NodeInv(l, s) && TaskInv(s) && HandlerInv(l, s)
    && forall p :: 0 <= p < |s.pods| ==> PodInv(s, p)
  }

  lemma InitialInv(l: Limits, s: State)
    requires Initial(l, s)
    ensures Inv(l, s)
  {
    CountNone(s.nodes, HoldsToken);
    CountAll(s.nodes, Unfinished);
    CountAll(s.handlers, Live);
  }

  /** No pod is sending once the main routine has passed the nodes' wait group. */
  lemma NoSenderLeft(l: Limits, s: State, p: nat)
    requires Inv(l, s) && p < |s.pods| && s.nodeWg == 0
    ensures s.pods[p].pc.Ended?
  {
    CountNone(s.nodes, Unfinished);
    assert PodInv(s, p);
    assert !Unfinished(s.nodes[s.pods[p].node]);
  }

  lemma MainKeepsInv(l: Limits, s: State, step: Step, s': State)
    requires Inv(l, s) && MainStep(s, step, s')
    ensures Inv(l, s')
  {
    if step.SpawnNode? {
      CountUpdate(s.nodes, s.main.next, Queued, HoldsToken);
      CountUpdate(s.nodes, s.main.next, Queued, Unfinished);
    }
    forall p | 0 <= p < |s'.pods| ensures PodInv(s', p) { assert PodInv(s, p); }
  }

  lemma NodeKeepsInv(l: Limits, s: State, step: Step, s': State)
    requires Inv(l, s) && NodeStep(l, s, step, s')
    ensures Inv(l, s')
  {
    CountUpdate(s.nodes, step.node, s'.nodes[step.node], HoldsToken);
    CountUpdate(s.nodes, step.node, s'.nodes[step.node], Unfinished);
    if s.nodeWg == 0 {
      CountNone(s.nodes, Unfinished);
    }
    forall p | 0 <= p < |s'.pods| ensures PodInv(s', p) { NodeKeepsPods(l, s, step, s', p); }
  }

  lemma NodeKeepsPods(l: Limits, s: State, step: Step, s': State, p: nat)
    requires NodeStep(l, s, step, s') && p < |s.pods| && PodInv(s, p)
    ensures s'.pods == s.pods && PodInv(s', p)
  {
  }

  lemma PodKeepsPods(l: Limits, s: State, step: Step, s': State, p: nat)
    requires PodStep(l, s, step, s') && p < |s.pods| && PodInv(s, p)
    ensures |s'.pods| == |s.pods| && PodInv(s', p)
  {
  }

  lemma SendKeepsTasks(l: Limits, s: State, step: Step, s': State)
    requires TaskInv(s) && step.Send? && PodStep(l, s, step, s') && !s.pods[step.pod].handed
    ensures TaskInv(s')
  {
    assert s'.handed == s'.started + s'.queue;
    assert s'.handed[|s.handed|] == step.pod;
    assert forall p :: p in s.handed ==> p in s'.handed;
  }

  lemma PodKeepsInv(l: Limits, s: State, step: Step, s': State)
    requires Inv(l, s) && PodStep(l, s, step, s')
    ensures Inv(l, s')
  {
    assert PodInv(s, step.pod);
    forall p | 0 <= p < |s'.pods| ensures PodInv(s', p) {
      PodKeepsPods(l, s, step, s', p);
    }
    if step.Send? {
      SendKeepsTasks(l, s, step, s');
    }
  }

  lemma HostKeepsInv(l: Limits, s: State, step: Step, s': State)
    requires Inv(l, s) && HostStep(s, step, s')
    ensures Inv(l, s')
  {
    forall p | 0 <= p < |s'.pods| ensures PodInv(s', p) { assert PodInv(s, p); }
  }

  lemma HandlerKeepsInv(l: Limits, s: State, step: Step, s': State)
    requires Inv(l, s) && HandlerStep(s, step, s')
    ensures Inv(l, s')
  {
    CountUpdate(s.handlers, step.handler, s'.handlers[step.handler], Live);
    if step.Take? {
      assert s.queue == [s.queue[0]] + s.queue[1..];
      assert s'.handed == s'.started + s'.queue;
    }
    forall p | 0 <= p < |s'.pods| ensures PodInv(s', p) { assert PodInv(s, p); }
  }

  lemma NextKeepsInv(l: Limits, s: State, step: Step, s': State)
    requires Inv(l, s) && Next(l, s, step, s')
    ensures Inv(l, s')
  {
    if MainStep(s, step, s') {
      MainKeepsInv(l, s, step, s');
    } else if NodeStep(l, s, step, s') {
      NodeKeepsInv(l, s, step, s');
    } else if PodStep(l, s, step, s') {
      PodKeepsInv(l, s, step, s');
    } else if HostStep(s, step, s') {
      HostKeepsInv(l, s, step, s');
    } else {
      HandlerKeepsInv(l, s, step, s');
    }
  }

  /** Only the steps of the once touch its lock. */
  lemma OthersKeepLocks(l: Limits, s: State, step: Step, s': State)
    requires LockInv(s)
    requires MainStep(s, step, s') || NodeStep(l, s, step, s') || PodStep(l, s, step, s') || HandlerStep(s, step, s')
    ensures LockInv(s')
  {
    forall i | 0 <= i < |s'.hosts| && s'.hosts[i].owner.Some? ensures OwnerInside(s', i) { assert OwnerInside(s, i); }
    forall p | 0 <= p < |s'.pods| && s'.pods[p].pc.Holding? ensures InsideOwns(s', p) { assert InsideOwns(s, p); }
  }

  lemma HostKeepsLocks(s: State, step: Step, s': State)
    requires LockInv(s) && HostStep(s, step, s')
    ensures LockInv(s')
  {
    if s.pods[step.pod].pc.Holding? { assert InsideOwns(s, step.pod); }
    forall i | 0 <= i < |s'.hosts| && s'.hosts[i].owner.Some? ensures OwnerInside(s', i) {
      if s.hosts[i].owner.Some? { assert OwnerInside(s, i); }
    }
    forall p | 0 <= p < |s'.pods| && s'.pods[p].pc.Holding? ensures InsideOwns(s', p) {
      if s.pods[p].pc.Holding? { assert InsideOwns(s, p); }
    }
  }

  lemma NextKeepsLocks(l: Limits, s: State, step: Step, s': State)
    requires LockInv(s) && Next(l, s, step, s')
    ensures LockInv(s')
  {
    if HostStep(s, step, s') {
      HostKeepsLocks(s, step, s');
    } else {
      OthersKeepLocks(l, s, step, s');
    }
  }

  // ----- it never gets stuck

  /** A step by which no pod gives up: no pod ends with containers left, passes one over before its task is
      handed over, or panics. */
  predicate Diligent(s: State, step: Step) {
    match step
    case EndPod(p) => p < |s.pods| && s.pods[p].pc.Working? && s.pods[p].pc.left == 0
    case NextContainer(p, _, _) => p < |s.pods| && s.pods[p].pc.Working? && s.pods[p].pc.done
    case UnlockHost(_, _, panicked) => !panicked
    case _ => true
  }

  lemma CountPositive<T>(xs: seq<T>, p: T -> bool) returns (i: nat)
    requires Count(xs, p) > 0
    ensures i < |xs| && p(xs[i])
  {
    CountNone(xs, p);
    i :| 0 <= i < |xs| && p(xs[i]);
  }

  /** While a handler is live and has something to do, some handler can step. */
  lemma HandlerCanStep(l: Limits, s: State) returns (step: Step, s': State)
    requires Inv(l, s) && s.handlerWg > 0 && (s.queue != [] || s.closed)
    ensures Next(l, s, step, s') && Diligent(s, step)
  {
    var h := CountPositive(s.handlers, Live);
    match s.handlers[h]
    case Doing(_) =>
      step, s' := EndTask(h, false), s.(handlers := s.handlers[h := Ranging]);
    case Ranging =>
      if s.queue != [] {
        step := Take(h);
        s' := s.(handlers := s.handlers[h := Doing(s.queue[0])], queue := s.queue[1..], started := s.started + [s.queue[0]]);
      } else {
        step, s' := EndRange(h), s.(handlers := s.handlers[h := Gone], handlerWg := s.handlerWg - 1);
      }
  }

  /** A pod that asks for the node's once can take its lock, or the pod that has the lock can give it up. */
  lemma AskerCanStep(l: Limits, s: State, p: nat) returns (step: Step, s': State)
    requires LockInv(s) && p < |s.pods| && s.pods[p].pc.Asking? && s.pods[p].node < |s.nodes|
    ensures Next(l, s, step, s') && Diligent(s, step)
  {
    var i := s.pods[p].node;
    if s.hosts[i].owner.None? {
      step := LockHost(p);
      s' := WithPod(s, p, Holding(s.pods[p].pc.left, s.pods[p].pc.done)).(
              hosts := s.hosts[i := s.hosts[i].(owner := Some(p))]);
    } else {
      assert OwnerInside(s, i);
      step, s' := HolderOfLockCanStep(l, s, s.hosts[i].owner.value);
    }
  }

  lemma HolderOfLockCanStep(l: Limits, s: State, p: nat) returns (step: Step, s': State)
    requires LockInv(s) && p < |s.pods| && s.pods[p].pc.Holding?
    ensures Next(l, s, step, s') && Diligent(s, step)
  {
    assert InsideOwns(s, p);
    var i := s.pods[p].node;
    step := UnlockHost(p, !s.hosts[i].done, false);
    s' := WithPod(s, p, Working(s.pods[p].pc.left, s.pods[p].pc.done)).(hosts := s.hosts[i := HostOnce(true, None)]);
  }

  lemma PodCanStep(l: Limits, s: State, p: nat) returns (step: Step, s': State)
    requires Inv(l, s) && LockInv(s) && ValidLimits(l) && p < |s.pods| && !s.pods[p].pc.Ended? && !s.closed
    requires PodInv(s, p) && s.nodes[s.pods[p].node].Collecting?
    ensures Next(l, s, step, s') && Diligent(s, step)
  {
    match s.pods[p].pc
    case Idle(containers) =>
      step, s' := StartPod(p), WithPod(s, p, Working(containers, false));
    case Working(left, done) =>
      if left == 0 {
        step, s' := EndPod(p), WithPod(s, p, Ended);
      } else if done {
        step, s' := NextContainer(p, false, false), WithPod(s, p, Working(left - 1, true));
      } else {
        step, s' := BeginSend(p), WithPod(s, p, Sending(left));
      }
    case Asking(_, _) =>
      step, s' := AskerCanStep(l, s, p);
    case Holding(_, _) =>
      step, s' := HolderOfLockCanStep(l, s, p);
    case Sending(left) =>
      if |s.queue| < l.capacity {
        step := Send(p);
        s' := s.(pods := s.pods[p := s.pods[p].(pc := Asking(left - 1, true), handed := true)],
                 queue := s.queue + [p], handed := s.handed + [p]);
      } else {
        step, s' := HandlerCanStep(l, s);
      }
  }

  /** A node that holds a semaphore token can give it up, or one of its pods or a handler can step. */
  lemma HolderCanStep(l: Limits, s: State, i: nat) returns (step: Step, s': State)
    requires Inv(l, s) && LockInv(s) && ValidLimits(l) && i < |s.nodes| && HoldsToken(s.nodes[i]) && !s.closed
    ensures Next(l, s, step, s') && Diligent(s, step)
  {
    if s.nodes[i].Collecting? {
      if PodsEnded(s, i) {
        step, s' := LeaveNode(i), s.(nodes := s.nodes[i := Releasing]);
      } else {
        var p :| 0 <= p < |s.pods| && s.pods[p].node == i && !s.pods[p].pc.Ended?;
        assert PodInv(s, p);
        step, s' := PodCanStep(l, s, p);
      }
    } else {
      CountNone(s.nodes, HoldsToken);
      step, s' := Release(i), s.(nodes := s.nodes[i := Signalling], tokens := s.tokens - 1);
    }
  }

  /** No reachable state is stuck: until the main routine returns, some routine can step, and without any pod
      giving up. */
  lemma NeverStuck(l: Limits, s: State) returns (step: Step, s': State)
    requires ValidLimits(l) && Inv(l, s) && LockInv(s) && !s.main.Returned?
    ensures Next(l, s, step, s') && Diligent(s, step)
  {
    match s.main
    case Starting(next) =>
      step := SpawnNode;
      s' := s.(nodes := s.nodes[next := Queued],
               main := if next + 1 < |s.nodes| then Starting(next + 1) else AwaitNodes);
    case AwaitNodes =>
      if s.nodeWg == 0 {
        step, s' := NodesDone, s.(main := Closing);
      } else {
        var i := CountPositive(s.nodes, Unfinished);
        if s.nodes[i].Queued? {
          if s.tokens < l.nodeThreads {
            step, s' := Acquire(i), s.(nodes := s.nodes[i := Collecting], tokens := s.tokens + 1);
          } else {
            var j := CountPositive(s.nodes, HoldsToken);
            step, s' := HolderCanStep(l, s, j);
          }
        } else if s.nodes[i].Signalling? {
          step, s' := SignalNode(i), s.(nodes := s.nodes[i := Finished], nodeWg := s.nodeWg - 1);
        } else {
          step, s' := HolderCanStep(l, s, i);
        }
      }
    case Closing =>
      step, s' := Close, s.(closed := true, main := AwaitHandlers);
    case AwaitHandlers =>
      if s.handlerWg == 0 {
        step, s' := HandlersDone, s.(main := Returned);
      } else {
        step, s' := HandlerCanStep(l, s);
      }
  }

  // ----- it always comes to an end

  function MainRank(s: State): nat {
    match s.main
    case Starting(next) => if next <= |s.nodes| then 5 + |s.nodes| - next else 5
    case AwaitNodes => 4
    case Closing => 3
    case AwaitHandlers => 2
    case Returned => 1
  }

  function NodeRank(n: Node): nat {
    match n
    case Unborn => 5
    case Queued => 4
    case Collecting => 3
    case Releasing => 2
    case Signalling => 1
    case Finished => 0
  }

  function PodRank(p: Pod): nat {
    match p.pc
    case Idle(containers) => 8 * containers + 3
    case Working(left, _) => 8 * left + 2
    case Sending(left) => 8 * left + 1
    case Asking(left, _) => 8 * left + 4
    case Holding(left, _) => 8 * left + 3
    case Ended => 0
  }

  function HandlerRank(h: Handler): nat {
    match h
    case Doing(_) => 3
    case Ranging => 1
    case Gone => 0
  }

  /** What is left to do; a task costs three steps from the queue to its end. */
  ghost function WorkLeft(s: State): nat {
    MainRank(s) + Sum(s.nodes, NodeRank) + Sum(s.pods, PodRank) + 3 * |s.queue| + Sum(s.handlers, HandlerRank)
  }

  lemma MainUsesWork(s: State, step: Step, s': State)
    requires MainStep(s, step, s')
    ensures WorkLeft(s') < WorkLeft(s)
  {
    if step.SpawnNode? {
      SumUpdate(s.nodes, s.main.next, Queued, NodeRank);
    }
  }

  lemma NodeUsesWork(l: Limits, s: State, step: Step, s': State)
    requires NodeStep(l, s, step, s')
    ensures WorkLeft(s') < WorkLeft(s)
  {
    SumUpdate(s.nodes, step.node, s'.nodes[step.node], NodeRank);
  }

  lemma PodUsesWork(l: Limits, s: State, step: Step, s': State)
    requires PodStep(l, s, step, s')
    ensures WorkLeft(s') < WorkLeft(s)
  {
    SumUpdate(s.pods, step.pod, s'.pods[step.pod], PodRank);
  }

  lemma HostUsesWork(s: State, step: Step, s': State)
    requires HostStep(s, step, s')
    ensures WorkLeft(s') < WorkLeft(s)
  {
    SumUpdate(s.pods, step.pod, s'.pods[step.pod], PodRank);
  }

  lemma HandlerUsesWork(s: State, step: Step, s': State)
    requires HandlerStep(s, step, s')
    ensures WorkLeft(s') < WorkLeft(s)
  {
    SumUpdate(s.handlers, step.handler, s'.handlers[step.handler], HandlerRank);
  }

  /** Every step of every routine, a panic and a respawn included, uses up work; so no schedule
      runs forever. */
  lemma StepUsesWork(l: Limits, s: State, step: Step, s': State)
    requires Next(l, s, step, s')
    ensures WorkLeft(s') < WorkLeft(s)
  {
    if MainStep(s, step, s') {
      MainUsesWork(s, step, s');
    } else if NodeStep(l, s, step, s') {
      NodeUsesWork(l, s, step, s');
    } else if PodStep(l, s, step, s') {
      PodUsesWork(l, s, step, s');
    } else if HostStep(s, step, s') {
      HostUsesWork(s, step, s');
    } else {
      HandlerUsesWork(s, step, s');
    }
  }

  // ----- whole runs

  ghost predicate StepAt(l: Limits, ss: seq<State>, steps: seq<Step>, i: nat)
    requires i < |steps| && |ss| == |steps| + 1
  {
    Next(l, ss[i], steps[i], ss[i + 1])
  }

  ghost predicate IsRun(l: Limits, ss: seq<State>, steps: seq<Step>) {
    && |ss| == |steps| + 1
    && Initial(l, ss[0])
    && forall i :: 0 <= i < |steps| ==> StepAt(l, ss, steps, i)
  }

  lemma {:induction false} RunKeepsInv(l: Limits, ss: seq<State>, steps: seq<Step>, n: nat)
    requires IsRun(l, ss, steps) && n < |ss|
    ensures Inv(l, ss[n])
  {
    if n == 0 {
      InitialInv(l, ss[0]);
    } else {
      RunKeepsInv(l, ss, steps, n - 1);
      assert StepAt(l, ss, steps, n - 1);
      NextKeepsInv(l, ss[n - 1], steps[n - 1], ss[n]);
    }
  }

  lemma {:induction false} RunKeepsLocks(l: Limits, ss: seq<State>, steps: seq<Step>, n: nat)
    requires IsRun(l, ss, steps) && n < |ss|
    ensures LockInv(ss[n])
  {
    if n > 0 {
      RunKeepsLocks(l, ss, steps, n - 1);
      assert StepAt(l, ss, steps, n - 1);
      NextKeepsLocks(l, ss[n - 1], steps[n - 1], ss[n]);
    }
  }

  /** In every state of every run that has not returned, some routine can step: there is no deadlock. */
  lemma NoDeadlock(l: Limits, ss: seq<State>, steps: seq<Step>, n: nat) returns (step: Step, s': State)
    requires ValidLimits(l) && IsRun(l, ss, steps) && n < |ss| && !ss[n].main.Returned?
    ensures Next(l, ss[n], step, s') && Diligent(ss[n], step)
  {
    RunKeepsInv(l, ss, steps, n);
    RunKeepsLocks(l, ss, steps, n);
    step, s' := NeverStuck(l, ss[n]);
  }

  /** At most one pod of a node collects host information at a time. */
  lemma OneCollectsHostInformation(l: Limits, ss: seq<State>, steps: seq<Step>, n: nat, p: nat, q: nat)
    requires IsRun(l, ss, steps) && n < |ss| && p < |ss[n].pods| && q < |ss[n].pods|
    requires ss[n].pods[p].pc.Holding? && ss[n].pods[q].pc.Holding? && ss[n].pods[p].node == ss[n].pods[q].node
    ensures p == q
  {
    RunKeepsLocks(l, ss, steps, n);
    assert InsideOwns(ss[n], p) && InsideOwns(ss[n], q);
  }

  lemma {:induction false} RunsAreBounded(l: Limits, ss: seq<State>, steps: seq<Step>, n: nat)
    requires IsRun(l, ss, steps) && n < |ss|
    ensures n + WorkLeft(ss[n]) <= WorkLeft(ss[0])
  {
    if n > 0 {
      RunsAreBounded(l, ss, steps, n - 1);
      assert StepAt(l, ss, steps, n - 1);
      StepUsesWork(l, ss[n - 1], steps[n - 1], ss[n]);
    }
  }

  /** In every state of every run: at most `nodeThreads` node collections are under way, live
      and gone handlers add up to the limit, no pod is sending once the channel is closed, each
      pod has handed over at most one task, and the tasks taken from the channel are, in order,
      the first of those handed over, and at most `capacity` fewer. */
  lemma PipelineSafety(l: Limits, ss: seq<State>, steps: seq<Step>, n: nat)
    requires IsRun(l, ss, steps) && n < |ss|
    ensures Count(ss[n].nodes, HoldsToken) <= l.nodeThreads
    ensures ss[n].handlerWg + Count(ss[n].handlers, (h: Handler) => h.Gone?) == l.handlers
    ensures ss[n].closed ==> forall p :: 0 <= p < |ss[n].pods| ==> !ss[n].pods[p].pc.Sending?
    ensures forall j, k :: 0 <= j < k < |ss[n].handed| ==> ss[n].handed[j] != ss[n].handed[k]
    ensures ss[n].started <= ss[n].handed && |ss[n].handed| - |ss[n].started| <= l.capacity
  {
    RunKeepsInv(l, ss, steps, n);
    CountLiveAndGone(ss[n].handlers);
    if ss[n].closed {
      forall p | 0 <= p < |ss[n].pods| ensures !ss[n].pods[p].pc.Sending? {
        NoSenderLeft(l, ss[n], p);
      }
    }
  }

  lemma {:induction false} CountLiveAndGone(hs: seq<Handler>)
    ensures Count(hs, Live) + Count(hs, (h: Handler) => h.Gone?) == |hs|
  {
    if hs != [] {
      CountLiveAndGone(hs[1..]);
    }
  }

  /** When the main routine returns from the transmitter's wait, every task that was handed over
      has been started exactly once, and no routine is left at work. */
  lemma NothingIsLost(l: Limits, ss: seq<State>, steps: seq<Step>, n: nat)
    requires IsRun(l, ss, steps) && n < |ss| && ss[n].main.Returned? && l.handlers > 0
    ensures ss[n].started == ss[n].handed && ss[n].queue == []
    ensures forall p :: 0 <= p < |ss[n].pods| ==>
              ss[n].pods[p].pc.Ended? && Count(ss[n].started, (t: nat) => t == p) == Bit(ss[n].pods[p].handed)
    ensures forall h :: 0 <= h < |ss[n].handlers| ==> ss[n].handlers[h].Gone?
  {
    RunKeepsInv(l, ss, steps, n);
    var s := ss[n];
    CountNone(s.handlers, Live);
    assert s.started == s.handed;
    forall p | 0 <= p < |s.pods|
      ensures s.pods[p].pc.Ended? && Count(s.started, (t: nat) => t == p) == Bit(s.pods[p].handed)
    {
      NoSenderLeft(l, s, p);
      CountDistinct(s.started, p);
    }
    assert forall h :: 0 <= h < |s.handlers| ==> !Live(s.handlers[h]);
  }

  lemma {:induction false} CountDistinct(xs: seq<nat>, p: nat)
    requires forall j, k :: 0 <= j < k < |xs| ==> xs[j] != xs[k]
    ensures Count(xs, (t: nat) => t == p) == Bit(p in xs)
  {
    if xs != [] {
      CountDistinct(xs[1..], p);
    }
  }
}
