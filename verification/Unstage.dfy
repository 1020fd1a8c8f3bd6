/** Unstaging a SAN volume on a node (csi/manage/san_manager.go, with the disconnect loop of
    connector/connector_utils.go as iSCSI and Fibre Channel run it): find the WWN in the record or
    on the mounted path, save it, unmount, remove devices until a look-up finds none, and drop the
    record.

    `UnStageVolume` is called again and again; each call may fail at any step, and the node plugin
    may crash at any step. Devices come and go behind its back. */
module Unstage {
  import opened Basics

  /** One call of `UnStageVolume`, at the step it is about to take. `wwn` is the WWN it has found. */
  datatype Pc =
    | Idle
    | ReadRecord
    | AskTargetPath
    | SaveRecord(wwn: string)
    | Unmounting(wwn: string)
    | LookingUp(wwn: string)                 // a turn of the disconnect loop
    | Removing(wwn: string, device: string)
    | DroppingRecord(wwn: string)

  /** The node, for one volume: its WWN record, whether the target path is still mounted, and the
      whole-disk devices that the host shows for each WWN. `emptied` collects the WWNs for which
      some look-up has come back empty, and `verdict` is what the last finished call reported. */
  datatype Node = Node(
    record: Option<string>, mounted: bool, devices: map<string, set<string>>,
    pc: Pc, emptied: set<string>, verdict: Option<bool>)

  function DevicesOf(n: Node, wwn: string): set<string> {
    if wwn in n.devices then n.devices[wwn] else {}
  }

  function Recorded(n: Node): string { if n.record.Some? then n.record.value else "" }

  /** A step, with what the host answers to it. */
  datatype Step =
    | Begin
    | ReadRec(io: bool)
    | Ask(wwn: Result<string>)
    | Save(readOk: bool, io: bool, leftover: Option<string>)
    | Unmount(ok: bool)
    | Look(found: Result<Option<string>>)
    | Remove(left: set<string>, ok: bool)
    | TimeOut
    | Drop(io: bool)
    | Crash
    | HostChange(devices: map<string, set<string>>)

  function Report(n: Node, ok: bool): Node { n.(pc := Idle, verdict := Some(ok)) }

  ghost predicate Next(n: Node, step: Step, n': Node) {
    match step
    case Begin => n.pc.Idle? && n' == n.(pc := ReadRecord)
    case ReadRec(io) =>
      && n.pc.ReadRecord?
      && n' == n.(pc := if io && Recorded(n) != "" then Unmounting(Recorded(n)) else AskTargetPath)
    case Ask(wwn) =>
      // without a WWN there is nothing to disconnect, and the call reports success
      && n.pc.AskTargetPath?
      && n' == if wwn.Err? then Report(n, true) else n.(pc := SaveRecord(wwn.value))
    case Save(readOk, io, leftover) =>
      // written if no record can be read; a failing write may leave something else behind, is logged and
      // otherwise ignored
      && n.pc.SaveRecord?
      && (var saved := if readOk && Recorded(n) != "" then n
                       else if io then n.(record := Some(n.pc.wwn))
                       else if leftover.Some? then n.(record := leftover) else n;
          n' == if n.pc.wwn == "" then Report(saved, true) else saved.(pc := Unmounting(n.pc.wwn)))
    case Unmount(ok) =>
      && n.pc.Unmounting?
      && n' == if ok then n.(mounted := false, pc := LookingUp(n.pc.wwn)) else Report(n, false)
    case Look(found) =>
      && n.pc.LookingUp?
      && (found.Ok? ==> (if found.value.Some? then found.value.value in DevicesOf(n, n.pc.wwn)
                         else DevicesOf(n, n.pc.wwn) == {}))
      && n' == (if found.Err? then Report(n, false)
                else if found.value.Some? then n.(pc := Removing(n.pc.wwn, found.value.value))
                else n.(emptied := n.emptied + {n.pc.wwn}, pc := DroppingRecord(n.pc.wwn)))
    case Remove(left, ok) =>
      // the reported result says nothing about which devices are really gone
      && n.pc.Removing? && left <= DevicesOf(n, n.pc.wwn)
      && (var removed := n.(devices := n.devices[n.pc.wwn := left]);
          n' == if ok then removed.(pc := LookingUp(n.pc.wwn)) else Report(removed, false))
    case TimeOut => n.pc.LookingUp? && n' == Report(n, false)
    case Drop(io) =>
      && n.pc.DroppingRecord?
      && n' == Report(if io then n.(record := None) else n, true)
    case Crash => n' == n.(pc := Idle)
    case HostChange(devices) => n' == n.(devices := devices)
  }

  // ----- with reliable record I/O

  /** Reading and writing the record works, and a path that is still mounted gives the WWN. */
  predicate Reliable(n: Node, step: Step, wwn: string) {
    && (step.ReadRec? || step.Save? ==> step.io)
    && (step.Save? ==> step.readOk)
    && (step.Ask? && n.mounted ==> step.wwn == Ok(wwn))
  }

  /** A volume that was staged, or one that is mounted and whose record is missing. */
  ghost predicate Staged(n: Node, wwn: string) {
    && wwn != "" && n.pc.Idle? && n.emptied == {} && n.verdict.None?
    && (n.record == Some(wwn) || (Recorded(n) == "" && n.mounted))
  }

  /** Until a look-up for the WWN has come back empty, the WWN stays in reach: in the record, or,
      before anything was unmounted, on the mounted path; and no call has reported success. */
  ghost predicate Safe(n: Node, wwn: string) {
    wwn !in n.emptied ==>
      && n.verdict != Some(true)
      && (n.record == Some(wwn) || (Recorded(n) == "" && n.mounted))
      && match n.pc
         case Idle => true
         case ReadRecord => true
         case AskTargetPath => n.mounted && Recorded(n) == ""
         case SaveRecord(w) => w == wwn && n.mounted
         case Unmounting(w) => w == wwn && n.record == Some(wwn)
         case LookingUp(w) => w == wwn && n.record == Some(wwn)
         case Removing(w, _) => w == wwn && n.record == Some(wwn)
         case DroppingRecord(_) => false
  }

  lemma StepKeepsSafe(n: Node, step: Step, n': Node, wwn: string)
    requires wwn != "" && Safe(n, wwn) && Next(n, step, n') && Reliable(n, step, wwn)
    ensures Safe(n', wwn)
  {
  }

  ghost predicate StepAt(ns: seq<Node>, steps: seq<Step>, i: nat)
    requires i < |steps| && |ns| == |steps| + 1
  {
    Next(ns[i], steps[i], ns[i + 1])
  }

  ghost predicate IsRun(ns: seq<Node>, steps: seq<Step>) {
    |ns| == |steps| + 1 && forall i :: 0 <= i < |steps| ==> StepAt(ns, steps, i)
  }

  lemma {:induction false} RunStaysSafe(ns: seq<Node>, steps: seq<Step>, wwn: string, k: nat)
    requires IsRun(ns, steps) && k < |ns| && Staged(ns[0], wwn)
    requires forall i :: 0 <= i < |steps| ==> Reliable(ns[i], steps[i], wwn)
    ensures Safe(ns[k], wwn)
  {
    if k > 0 {
      RunStaysSafe(ns, steps, wwn, k - 1);
      assert StepAt(ns, steps, k - 1);
      StepKeepsSafe(ns[k - 1], steps[k - 1], ns[k], wwn);
    }
  }

  /** Along any sequence of calls, failures and crashes: as long as no look-up for the volume's WWN
      has come back empty, no call has reported success, and the WWN is still in the record unless
      nothing was unmounted yet. */
  lemma NoSuccessBeforeEmptyLookup(ns: seq<Node>, steps: seq<Step>, wwn: string, k: nat)
    requires IsRun(ns, steps) && k < |ns| && Staged(ns[0], wwn)
    requires forall i :: 0 <= i < |steps| ==> Reliable(ns[i], steps[i], wwn)
    requires wwn !in ns[k].emptied
    ensures ns[k].verdict != Some(true)
    ensures ns[k].record == Some(wwn) || ns[k].mounted
    ensures ns[0].record == Some(wwn) ==> ns[k].record == Some(wwn)
  {
    RunStaysSafe(ns, steps, wwn, k);
    if ns[0].record == Some(wwn) {
      RecordIsKept(ns, steps, wwn, k);
    }
  }

  lemma {:induction false} EmptiedGrows(ns: seq<Node>, steps: seq<Step>, j: nat, k: nat)
    requires IsRun(ns, steps) && j <= k < |ns|
    ensures ns[j].emptied <= ns[k].emptied
  {
    if j < k {
      EmptiedGrows(ns, steps, j, k - 1);
      assert StepAt(ns, steps, k - 1);
    }
  }

  lemma {:induction false} RecordIsKept(ns: seq<Node>, steps: seq<Step>, wwn: string, k: nat)
    requires IsRun(ns, steps) && k < |ns| && Staged(ns[0], wwn) && ns[0].record == Some(wwn)
    requires forall i :: 0 <= i < |steps| ==> Reliable(ns[i], steps[i], wwn)
    requires wwn !in ns[k].emptied
    ensures ns[k].record == Some(wwn)
  {
    if k > 0 {
      EmptiedGrows(ns, steps, k - 1, k);
      RecordIsKept(ns, steps, wwn, k - 1);
      RunStaysSafe(ns, steps, wwn, k - 1);
      assert StepAt(ns, steps, k - 1);
    }
  }

  // ----- and without

  /** Whether a call that begins now can find the WWN: the record can be read and is not empty, or the
      path gives one. */
  predicate WwnInReach(n: Node, readOk: bool, asked: Result<string>) {
    (readOk && Recorded(n) != "") || (asked.Ok? && asked.value != "")
  }

  /** One call, from its beginning to its report; `readOk` is whether the record can be read and `asked`
      what the path answers. */
  ghost predicate IsCall(ns: seq<Node>, steps: seq<Step>, readOk: bool, asked: Result<string>) {
    && IsRun(ns, steps) && |steps| > 1 && steps[0].Begin?
    && (forall i :: 0 <= i < |steps| ==> (steps[i].ReadRec? ==> steps[i].io == readOk))
    && (forall i :: 0 <= i < |steps| ==> (steps[i].Ask? ==> steps[i].wwn == asked))
    && (forall i :: 0 <= i < |steps| ==> !steps[i].Crash?)
    && (forall i :: 0 < i < |steps| ==> !ns[i].pc.Idle?)
    && ns[|steps|].pc.Idle?
  }

  /** Along a call: what its program counter says about the start, and whether this call has seen
      an empty look-up. */
  ghost predicate CallInv(first: Node, readOk: bool, asked: Result<string>, n: Node) {
    match n.pc
    case Idle => true
    case ReadRecord => n.record == first.record
    case AskTargetPath => n.record == first.record && !(readOk && Recorded(first) != "")
    case SaveRecord(w) => n.record == first.record && !(readOk && Recorded(first) != "") && asked == Ok(w)
    case Unmounting(w) => WwnInReach(first, readOk, asked)
    case LookingUp(w) => WwnInReach(first, readOk, asked)
    case Removing(w, _) => WwnInReach(first, readOk, asked)
    case DroppingRecord(w) => WwnInReach(first, readOk, asked) && w in n.emptied
  }

  lemma {:induction false} CallKeepsInv(ns: seq<Node>, steps: seq<Step>, readOk: bool, asked: Result<string>, k: nat)
    requires IsCall(ns, steps, readOk, asked) && 0 < k < |steps|
    ensures CallInv(ns[0], readOk, asked, ns[k])
  {
    assert StepAt(ns, steps, k - 1);
    if k > 1 {
      CallKeepsInv(ns, steps, readOk, asked, k - 1);
    }
  }

  /** A call that reports success has seen an empty look-up exactly when its WWN was in reach when
      it began, whatever else works or fails. Otherwise it reports success without looking for devices
      at all. */
  lemma SuccessMeansEmptyLookupIff(ns: seq<Node>, steps: seq<Step>, readOk: bool, asked: Result<string>)
    requires IsCall(ns, steps, readOk, asked) && ns[|steps|].verdict == Some(true)
    ensures WwnInReach(ns[0], readOk, asked) <==> steps[|steps| - 1].Drop?
    ensures steps[|steps| - 1].Drop? ==>
              ns[|steps| - 1].pc.DroppingRecord? && ns[|steps| - 1].pc.wwn in ns[|steps| - 1].emptied
  {
    var last := |steps| - 1;
    CallKeepsInv(ns, steps, readOk, asked, last);
    assert StepAt(ns, steps, last);
  }

  // ----- what becomes of the record

  ghost predicate DropsWork(steps: seq<Step>) {
    forall i :: 0 <= i < |steps| ==> (steps[i].Drop? ==> steps[i].io)
  }

  /** Along a call that could read a record: the record is still what it was, and the WWN is the one in it. */
  lemma {:induction false} CallKeepsRecord(ns: seq<Node>, steps: seq<Step>, readOk: bool, asked: Result<string>, k: nat)
    requires IsCall(ns, steps, readOk, asked) && 0 < k < |steps| && readOk && Recorded(ns[0]) != ""
    ensures ns[k].record == ns[0].record && !ns[k].pc.AskTargetPath? && !ns[k].pc.SaveRecord?
    ensures !ns[k].pc.ReadRecord? && !ns[k].pc.Idle? ==> ns[k].pc.wwn == Recorded(ns[0])
  {
    assert StepAt(ns, steps, k - 1);
    if k > 1 {
      CallKeepsRecord(ns, steps, readOk, asked, k - 1);
    }
  }

  /** A call that fails leaves a record that it could read as it was; one that succeeds with the WWN in
      reach, and can drop the record, leaves none. */
  lemma CallSettlesRecord(ns: seq<Node>, steps: seq<Step>, readOk: bool, asked: Result<string>)
    requires IsCall(ns, steps, readOk, asked)
    ensures ns[|steps|].verdict.Some?
    ensures ns[|steps|].verdict == Some(false) && readOk && Recorded(ns[0]) != "" ==> ns[|steps|].record == ns[0].record
    ensures ns[|steps|].verdict == Some(true) && WwnInReach(ns[0], readOk, asked) && DropsWork(steps) ==>
              ns[|steps|].record.None?
  {
    var last := |steps| - 1;
    assert StepAt(ns, steps, last);
    if ns[|steps|].verdict == Some(true) {
      SuccessMeansEmptyLookupIff(ns, steps, readOk, asked);
    }
    if readOk && Recorded(ns[0]) != "" {
      CallKeepsRecord(ns, steps, readOk, asked, last);
    }
  }

  /** Along any sequence of calls, failures and crashes: once a record was dropped, which a call does only
      after an empty look-up for its WWN, there is none until one is saved. */
  lemma {:induction false} DroppedRecordStaysAway(ns: seq<Node>, steps: seq<Step>, j: nat, k: nat)
    requires IsRun(ns, steps) && j < k < |ns| && steps[j].Drop? && steps[j].io
    requires forall i :: j < i < k ==> !steps[i].Save?
    ensures ns[k].record.None?
  {
    assert StepAt(ns, steps, k - 1);
    if j < k - 1 {
      DroppedRecordStaysAway(ns, steps, j, k - 1);
    }
  }

  /** What was last known of a node whose record I/O works: after a call that reported success with an empty
      look-up, the node has no record until a new one is saved. */
  lemma NoRecordAfterSuccess(ns: seq<Node>, steps: seq<Step>, a: nat, b: nat, k: nat, readOk: bool, asked: Result<string>)
    requires IsRun(ns, steps) && a <= b <= k < |ns| && IsCall(ns[a..b + 1], steps[a..b], readOk, asked)
    requires ns[b].verdict == Some(true) && WwnInReach(ns[a], readOk, asked)
    requires DropsWork(steps)
    requires forall i :: b <= i < k ==> !steps[i].Save?
    ensures ns[k].record.None?
  {
    SuccessMeansEmptyLookupIff(ns[a..b + 1], steps[a..b], readOk, asked);
    assert steps[a..b][b - a - 1] == steps[b - 1];
    DroppedRecordStaysAway(ns, steps, b - 1, k);
  }

  // ----- the devices can be disconnected

  lemma JoinStep(n: Node, step: Step, ns: seq<Node>, steps: seq<Step>)
    requires IsRun(ns, steps) && Next(n, step, ns[0])
    ensures IsRun([n] + ns, [step] + steps)
  {
    var longer, more := [n] + ns, [step] + steps;
    forall i | 0 <= i < |more| ensures StepAt(longer, more, i) {
      if i > 0 { assert StepAt(ns, steps, i - 1); }
    }
  }

  /** However many devices the host shows for the WWN: if each removal works and removes the device that was
      found, the disconnect loop ends with an empty look-up, no device is left, the record is dropped and the
      call reports success, after one look-up and one removal for each device and two more steps. */
  lemma {:induction false} WorkingRemovalsDisconnect(n: Node) returns (ns: seq<Node>, steps: seq<Step>)
    requires n.pc.LookingUp?
    ensures IsRun(ns, steps) && ns[0] == n && |steps| == 2 * |DevicesOf(n, n.pc.wwn)| + 2
    ensures forall i :: 0 <= i < |steps| ==> steps[i].Look? || steps[i].Remove? || steps[i] == Drop(true)
    ensures var last := ns[|steps|];
            && last.verdict == Some(true) && last.record.None? && n.pc.wwn in last.emptied
            && DevicesOf(last, n.pc.wwn) == {} && last.pc.Idle?
    decreases |DevicesOf(n, n.pc.wwn)|
  {
    var wwn := n.pc.wwn;
    if d :| d in DevicesOf(n, wwn) {
      var left := DevicesOf(n, wwn) - {d};
      var removing := n.(pc := Removing(wwn, d));
      var removed := n.(devices := n.devices[wwn := left]);
      ns, steps := WorkingRemovalsDisconnect(removed);
      JoinStep(removing, Remove(left, true), ns, steps);
      JoinStep(n, Look(Ok(Some(d))), [removing] + ns, [Remove(left, true)] + steps);
      ns, steps := [n] + ([removing] + ns), [Look(Ok(Some(d)))] + ([Remove(left, true)] + steps);
    } else {
      var dropping := n.(emptied := n.emptied + {wwn}, pc := DroppingRecord(wwn));
      ns, steps := [Report(dropping.(record := None), true)], [];
      JoinStep(dropping, Drop(true), ns, steps);
      JoinStep(n, Look(Ok(None)), [dropping] + ns, [Drop(true)] + steps);
      ns, steps := [n] + ([dropping] + ns), [Look(Ok(None))] + ([Drop(true)] + steps);
    }
  }

  /** Record I/O has to be reliable: if the first call cannot write the record, unmounts and then
      fails to disconnect, the next call finds no WWN and reports success, with the device still
      there and no look-up ever empty. */
  lemma LostRecordLosesDevices(wwn: string, device: string)
    requires wwn != ""
    ensures exists ns: seq<Node>, steps: seq<Step> ::
              && IsRun(ns, steps) && |ns| == 10 && Staged(ns[0], wwn)
              && ns[9].verdict == Some(true) && ns[9].emptied == {} && device in DevicesOf(ns[9], wwn)
  {
    var n0 := Node(None, true, map[wwn := {device}], Idle, {}, None);
    var n1 := n0.(pc := ReadRecord);
    var n2 := n0.(pc := AskTargetPath);
    var n3 := n0.(pc := SaveRecord(wwn));
    var n4 := n0.(pc := Unmounting(wwn));
    var n5 := n0.(mounted := false, pc := LookingUp(wwn));
    var n6 := n5.(pc := Idle, verdict := Some(false));
    var n7 := n6.(pc := ReadRecord);
    var n8 := n6.(pc := AskTargetPath);
    var n9 := n6.(verdict := Some(true));
    var steps := [Begin, ReadRec(true), Ask(Ok(wwn)), Save(true, false, None), Unmount(true), Look(Err), Begin, ReadRec(true), Ask(Err)];
    var ns := [n0, n1, n2, n3, n4, n5, n6, n7, n8, n9];
    assert forall i :: 0 <= i < |steps| ==> StepAt(ns, steps, i);
    assert IsRun(ns, steps);
  }
}
