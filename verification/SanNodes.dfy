/** `UnStageVolume` of csi/manage/san_manager.go as the code that it is, on a node whose record, mount
    and devices it changes. Each call is proved to be a run of the step system of module Unstage, so
    that what holds along all runs there holds of the code. */
module SanNodes {
  import opened Basics
  import opened DeviceLookup
  import opened Unstage

  /** What one turn of the disconnect loop meets: the devices that the host lists for the WWN, what it says
      about each of them, and whether removing works. */
  datatype Turn = Turn(listed: Result<seq<string>>, kinds: DeviceLookup.Host, removeOk: bool)

  /** What the host answers during one call: `turns` gives the turns of the loop for a WWN. After the turn
      `lastTurn` the time is up. */
  datatype Host = Host(
    readOk: bool, asked: Result<string>, rereadOk: bool, saveOk: bool, leftover: Option<string>,
    unmountOk: bool, turns: (string, nat) -> Turn, lastTurn: nat, dropOk: bool)

  /** Reading and writing the record works, and a mounted path gives the WWN. */
  predicate ReliableHost(host: Host, mounted: bool, wwn: string) {
    host.readOk && host.rereadOk && host.saveOk && (mounted ==> host.asked == Ok(wwn))
  }

  /** The look-up of this turn comes back empty. */
  ghost predicate FindsNothing(turn: Turn) {
    && turn.listed.Ok? && ChecksWork(turn.listed.value, turn.kinds)
    && KnownWholes(turn.listed.value, turn.kinds) == {}
  }

  /** The look-up of this turn names one device, and removing it works. */
  ghost predicate RemovesOne(turn: Turn) {
    && turn.listed.Ok? && ChecksWork(turn.listed.value, turn.kinds)
    && KnownWholes(turn.listed.value, turn.kinds) != {} && IsUnique(turn.listed.value, turn.kinds)
    && turn.removeOk
  }

  /** The loop comes to an empty look-up in time, with a single device removed in every turn before. */
  ghost predicate Disconnects(host: Host, lun: string) {
    exists t: nat :: t <= host.lastTurn && EmptyAt(host, lun, t)
  }

  ghost predicate EmptyAt(host: Host, lun: string, t: nat) {
    FindsNothing(host.turns(lun, t)) && forall j: nat :: j < t ==> RemovesOne(host.turns(lun, j))
  }

  /** The WWN that a call finds: the recorded one, if it can be read and is not empty, or what the path
      gives. */
  function LunOf(recorded: string, host: Host): string {
    if host.readOk && recorded != "" then recorded else if host.asked.Ok? then host.asked.value else ""
  }

  /** The record once a call has looked for the WWN: what the path gave is saved, unless a record is there. */
  function RecordOnceFound(record: Option<string>, host: Host): Option<string> {
    var there := record.Some? && record.value != "";
    if (there && (host.readOk || host.rereadOk)) || host.asked.Err? then record
    else if host.saveOk then Some(host.asked.value)
    else if host.leftover.Some? then host.leftover else record
  }

  /** At this try the host unmounts the volume and lets its devices be disconnected. */
  ghost predicate WorksAt(hosts: (nat, bool) -> Host, i: nat, wwn: string) {
    forall isMounted :: hosts(i, isMounted).unmountOk && Disconnects(hosts(i, isMounted), wwn)
  }

  /** A step of the code, with an answer that the host gave. */
  predicate Answers(host: Host, step: Step) {
    && (step.ReadRec? ==> step.io == host.readOk)
    && (step.Save? ==> step.readOk == host.rereadOk && step.io == host.saveOk && step.leftover == host.leftover)
    && (step.Ask? ==> step.wwn == host.asked)
    && (step.Unmount? ==> step.ok == host.unmountOk)
    && (step.Drop? ==> step.io == host.dropOk)
    && !step.Crash?
  }

  datatype Run = Run(ns: seq<Node>, steps: seq<Step>)

  /** The run goes on, by steps of the code. */
  ghost predicate Extends(host: Host, was: Run, now: Run) {
    && was.ns <= now.ns && was.steps <= now.steps
    && forall i :: |was.steps| <= i < |now.steps| ==> Answers(host, now.steps[i])
  }

  lemma {:induction false} MountedBefore(ns: seq<Node>, steps: seq<Step>, j: nat, k: nat)
    requires IsRun(ns, steps) && j <= k < |ns| && ns[k].mounted
    ensures ns[j].mounted
  {
    if j < k {
      assert StepAt(ns, steps, k - 1);
      MountedBefore(ns, steps, j, k - 1);
    }
  }

  /** Safety goes through the steps of one call. */
  lemma {:induction false} SafeAlongCall(ns: seq<Node>, steps: seq<Step>, host: Host, wwn: string, j: nat, k: nat)
    requires IsRun(ns, steps) && j <= k < |ns| && wwn != ""
    requires forall i :: j <= i < k ==> Answers(host, steps[i])
    requires Safe(ns[j], wwn) && ReliableHost(host, ns[j].mounted, wwn)
    ensures Safe(ns[k], wwn)
  {
    if j < k {
      SafeAlongCall(ns, steps, host, wwn, j, k - 1);
      assert StepAt(ns, steps, k - 1);
      if ns[k - 1].mounted {
        MountedBefore(ns, steps, j, k - 1);
      }
      StepKeepsSafe(ns[k - 1], steps[k - 1], ns[k], wwn);
    }
  }

  /** A turn that neither finds nothing nor removes one device ends the loop for good. */
  lemma NoEmptyLater(host: Host, lun: string, turn: nat)
    requires !FindsNothing(host.turns(lun, turn)) && !RemovesOne(host.turns(lun, turn))
    requires forall j: nat :: j < turn ==> RemovesOne(host.turns(lun, j))
    ensures !Disconnects(host, lun)
  {
    forall t: nat ensures !EmptyAt(host, lun, t) {
      if t < turn { assert RemovesOne(host.turns(lun, t)); }
    }
  }

  lemma NoEmptyInTime(host: Host, lun: string)
    requires forall j: nat :: j <= host.lastTurn ==> RemovesOne(host.turns(lun, j))
    ensures !Disconnects(host, lun)
  {
    forall t: nat | t <= host.lastTurn ensures !EmptyAt(host, lun, t) {
      assert RemovesOne(host.turns(lun, t));
    }
  }

  /** A crash after any step of a call leaves a node that is idle and safe, and a run that goes on from
      there. */
  lemma CrashIsSafe(ns: seq<Node>, steps: seq<Step>, host: Host, wwn: string, j: nat, k: nat)
    requires IsRun(ns, steps) && j <= k < |ns| && wwn != ""
    requires forall i :: j <= i < k ==> Answers(host, steps[i])
    requires Safe(ns[j], wwn) && ReliableHost(host, ns[j].mounted, wwn)
    ensures var crashed := ns[k].(pc := Idle);
            && Safe(crashed, wwn) && crashed.pc.Idle?
            && IsRun(ns[..k + 1] + [crashed], steps[..k] + [Crash])
  {
    var crashed := ns[k].(pc := Idle);
    SafeAlongCall(ns, steps, host, wwn, j, k);
    StepKeepsSafe(ns[k], Crash, crashed, wwn);
    var ns', steps' := ns[..k + 1] + [crashed], steps[..k] + [Crash];
    forall i | 0 <= i < |steps'| ensures StepAt(ns', steps', i) {
      if i < k { assert StepAt(ns, steps, i); }
    }
  }

  class SanNode {
    var record: Option<string>
    var mounted: bool
    ghost var devices: map<string, set<string>>
    ghost var ns: seq<Node>
    ghost var steps: seq<Step>

    /** The run so far, which ends in the state of the fields. */
    ghost predicate Valid()
      reads this
    {
      && IsRun(ns, steps)
      && Now().record == record && Now().mounted == mounted && Now().devices == devices
    }

    ghost function Now(): Node
      requires |ns| == |steps| + 1
      reads this
    {
      ns[|steps|]
    }

    constructor (record: Option<string>, mounted: bool, devices: map<string, set<string>>)
      ensures Valid() && steps == [] && Now() == Node(record, mounted, devices, Idle, {}, None)
    {
      this.record, this.mounted, this.devices := record, mounted, devices;
      ns, steps := [Node(record, mounted, devices, Idle, {}, None)], [];
    }

    /** Extends the run by the step that the fields have just taken. */
    ghost method Log(host: Host, was: Run, step: Step, next: Node)
      requires IsRun(ns, steps) && Next(Now(), step, next) && Answers(host, step)
      requires next.record == record && next.mounted == mounted && next.devices == devices
      requires Extends(host, was, Run(ns, steps))
      modifies this`ns, this`steps
      ensures Valid() && Now() == next
      ensures Extends(host, was, Run(ns, steps))
    {
      ns, steps := ns + [next], steps + [step];
      forall i | 0 <= i < |steps| ensures StepAt(ns, steps, i) {
        if i < |old(steps)| {
          assert StepAt(old(ns), old(steps), i);
        }
      }
    }

    /** `getDeviceWwn`. */
    method GetDeviceWwn(host: Host, ghost was: Run) returns (r: Result<string>)
      requires Valid() && Now().pc.ReadRecord? && Extends(host, was, Run(ns, steps))
      modifies this`record, this`ns, this`steps
      ensures Valid() && Extends(host, was, Run(ns, steps))
      ensures r.Ok? && r.value != "" ==> Now().pc == Unmounting(r.value)
      ensures r.Err? || r.value == "" ==> Now().pc.Idle? && Now().verdict == Some(true)
      ensures r.Ok? && r.value != "" <==> WwnInReach(old(Now()), host.readOk, host.asked)
      ensures r.Ok? ==> r.value == LunOf(Recorded(old(Now())), host)
      ensures record == RecordOnceFound(old(record), host) && Now().emptied == old(Now()).emptied
    {
      var found := if host.readOk && record.Some? then record.value else "";
      if found != "" {
        Log(host, was, ReadRec(host.readOk), Now().(pc := Unmounting(found)));
        return Ok(found);
      }
      Log(host, was, ReadRec(host.readOk), Now().(pc := AskTargetPath));
      r := GetWwnFromTargetPath(host, was);
    }

    /** The part of `getDeviceWwn` for a volume without a record that can be read. */
    method GetWwnFromTargetPath(host: Host, ghost was: Run) returns (r: Result<string>)
      requires Valid() && Now().pc.AskTargetPath? && Extends(host, was, Run(ns, steps))
      requires !(host.readOk && Recorded(Now()) != "")
      modifies this`record, this`ns, this`steps
      ensures Valid() && Extends(host, was, Run(ns, steps))
      ensures r == host.asked
      ensures r.Ok? && r.value != "" ==> Now().pc == Unmounting(r.value)
      ensures r.Err? || r.value == "" ==> Now().pc.Idle? && Now().verdict == Some(true)
      ensures record == RecordOnceFound(old(record), host) && Now().emptied == old(Now()).emptied
    {
      r := host.asked;
      if r.Err? {
        Log(host, was, Ask(Err), Report(Now(), true));
        return;
      }
      Log(host, was, Ask(r), Now().(pc := SaveRecord(r.value)));
      SaveWwn(host, r.value, was);
    }

    /** `WriteWWNFileIfNotExist`, as `getDeviceWwn` calls it. */
    method SaveWwn(host: Host, wwn: string, ghost was: Run)
      requires Valid() && Now().pc == SaveRecord(wwn) && Extends(host, was, Run(ns, steps))
      modifies this`record, this`ns, this`steps
      ensures Valid() && Extends(host, was, Run(ns, steps))
      ensures wwn != "" ==> Now().pc == Unmounting(wwn)
      ensures wwn == "" ==> Now().pc.Idle? && Now().verdict == Some(true)
      ensures Now().emptied == old(Now()).emptied
      ensures record == if host.rereadOk && old(record).Some? && old(record).value != "" then old(record)
                        else if host.saveOk then Some(wwn)
                        else if host.leftover.Some? then host.leftover else old(record)
    {
      if !(host.rereadOk && record.Some? && record.value != "") {
        if host.saveOk {
          record := Some(wwn);
        } else if host.leftover.Some? {
          record := host.leftover;
        }
      }
      ghost var saved := Now().(record := record);
      Log(host, was, Save(host.rereadOk, host.saveOk, host.leftover),
          if wwn == "" then Report(saved, true) else saved.(pc := Unmounting(wwn)));
    }

    /** One turn of the loop: look up, and remove what is found. What removing did shows in the next turn. */
    method RemoveDevices(host: Host, lun: string, turn: Turn, ghost was: Run) returns (r: Result<bool>)
      requires Valid() && Now().pc == LookingUp(lun) && Extends(host, was, Run(ns, steps))
      modifies this`devices, this`ns, this`steps
      ensures Valid() && Extends(host, was, Run(ns, steps))
      ensures r == Ok(true) ==> Now().pc == DroppingRecord(lun) && lun in Now().emptied
      ensures r == Ok(false) ==> Now().pc == LookingUp(lun)
      ensures r.Err? ==> Now().pc.Idle? && Now().verdict == Some(false)
      ensures Now().emptied == if r == Ok(true) then old(Now()).emptied + {lun} else old(Now()).emptied
      ensures r == Ok(true) <==> FindsNothing(turn)
      ensures r == Ok(false) <==> RemovesOne(turn)
    {
      if turn.listed.Err? {
        Log(host, was, Look(Err), Report(Now(), false));
        return Err;
      }
      var found := GetVirtualDevice(turn.listed.value, turn.kinds);
      ShowDevices(host, lun, turn, was);
      if found.CheckFailed? || found.NotUnique? {
        Log(host, was, Look(Err), Report(Now(), false));
        return Err;
      }
      if found.Nothing? {
        Log(host, was, Look(Ok(None)), Now().(emptied := Now().emptied + {lun}, pc := DroppingRecord(lun)));
        return Ok(true);
      }
      assert found.name in KnownWholes(turn.listed.value, turn.kinds);
      r := RemoveDevice(host, lun, found.name, turn.removeOk, was);
    }

    /** The look-up has found a device; remove it. */
    method RemoveDevice(host: Host, lun: string, device: string, removeOk: bool, ghost was: Run) returns (r: Result<bool>)
      requires Valid() && Now().pc == LookingUp(lun) && Extends(host, was, Run(ns, steps))
      requires device in DevicesOf(Now(), lun)
      modifies this`ns, this`steps
      ensures Valid() && Extends(host, was, Run(ns, steps))
      ensures r == if removeOk then Ok(false) else Err
      ensures removeOk ==> Now().pc == LookingUp(lun)
      ensures !removeOk ==> Now().pc.Idle? && Now().verdict == Some(false)
      ensures Now().emptied == old(Now()).emptied
    {
      Log(host, was, Look(Ok(Some(device))), Now().(pc := Removing(lun, device)));
      ghost var left := DevicesOf(Now(), lun);
      assert devices[lun := left] == devices;
      if !removeOk {
        Log(host, was, Remove(left, false), Report(Now(), false));
        return Err;
      }
      Log(host, was, Remove(left, true), Now().(pc := LookingUp(lun)));
      return Ok(false);
    }

    /** What the host shows for the WWN now. */
    ghost method ShowDevices(host: Host, lun: string, turn: Turn, was: Run)
      requires Valid() && turn.listed.Ok? && Extends(host, was, Run(ns, steps))
      modifies this`devices, this`ns, this`steps
      ensures Valid() && Extends(host, was, Run(ns, steps))
      ensures Now() == old(Now()).(devices := devices)
      ensures devices == old(devices)[lun := KnownWholes(turn.listed.value, turn.kinds)]
    {
      devices := devices[lun := KnownWholes(turn.listed.value, turn.kinds)];
      Log(host, was, HostChange(devices), Now().(devices := devices));
    }

    /** `DisConnectVolume`: remove devices until a look-up finds none; an error or the time limit ends
        it early. */
    method DisconnectVolume(host: Host, lun: string, ghost was: Run) returns (ok: bool)
      requires Valid() && Now().pc == LookingUp(lun) && Extends(host, was, Run(ns, steps))
      modifies this`devices, this`ns, this`steps
      ensures Valid() && Extends(host, was, Run(ns, steps))
      ensures ok ==> Now().pc == DroppingRecord(lun) && lun in Now().emptied
      ensures !ok ==> Now().pc.Idle? && Now().verdict == Some(false)
      ensures Now().emptied == if ok then old(Now()).emptied + {lun} else old(Now()).emptied
      ensures ok <==> Disconnects(host, lun)
    {
      var turn: nat := 0;
      while true
        invariant Valid() && Now().pc == LookingUp(lun) && Extends(host, was, Run(ns, steps))
        invariant turn <= host.lastTurn && Now().emptied == old(Now()).emptied
        invariant forall j: nat :: j < turn ==> RemovesOne(host.turns(lun, j))
        decreases host.lastTurn - turn
      {
        var done := RemoveDevices(host, lun, host.turns(lun, turn), was);
        if done.Err? {
          NoEmptyLater(host, lun, turn);
          return false;
        }
        if done.value {
          assert EmptyAt(host, lun, turn);
          return true;
        }
        if turn == host.lastTurn {
          NoEmptyInTime(host, lun);
          Log(host, was, TimeOut, Report(Now(), false));
          return false;
        }
        turn := turn + 1;
      }
    }

    /** `UnStageWithWwn`: disconnect, and then drop the record. */
    method UnStageWithWwn(host: Host, lun: string, ghost was: Run) returns (ok: bool)
      requires Valid() && Now().pc == LookingUp(lun) && Extends(host, was, Run(ns, steps))
      modifies this
      ensures Valid() && Now().pc.Idle? && Now().verdict == Some(ok) && Extends(host, was, Run(ns, steps))
      ensures ok <==> Disconnects(host, lun)
      ensures record == (if ok && host.dropOk then None else old(record)) && mounted == old(mounted)
      ensures Now().emptied == if ok then old(Now()).emptied + {lun} else old(Now()).emptied
    {
      ok := DisconnectVolume(host, lun, was);
      if !ok {
        return;
      }
      if host.dropOk { record := None; }
      Log(host, was, Drop(host.dropOk), Report(Now().(record := record), true));
    }

    /** `UnStageVolume`: a run of the step system from idle to idle, with the answers of the host, that
        ends in the verdict returned. It is success if and only if no WWN is found, or unmounting works and
        the devices can be disconnected; the record is then dropped, and otherwise it keeps what was read,
        or what was saved of the path's answer. */
    method UnStageVolume(host: Host, ghost was: Run) returns (ok: bool)
      requires Valid() && Now().pc.Idle? && was == Run(ns, steps)
      modifies this
      ensures Valid() && Now().pc.Idle? && Now().verdict == Some(ok)
      ensures Extends(host, was, Run(ns, steps))
      ensures var lun := LunOf(Recorded(old(Now())), host);
              && (ok <==> lun == "" || (host.unmountOk && Disconnects(host, lun)))
              && mounted == (old(mounted) && !(lun != "" && host.unmountOk))
              && record == (if ok && lun != "" && host.dropOk then None else RecordOnceFound(old(record), host))
              && Now().emptied == old(Now()).emptied + if ok && lun != "" then {lun} else {}
      ensures !ok && host.readOk && old(Recorded(Now())) != "" ==> record == old(record)
    {
      Log(host, was, Begin, Now().(pc := ReadRecord));
      var found := GetDeviceWwn(host, was);
      if found.Err? || found.value == "" {
        return true;
      }
      if !host.unmountOk {
        Log(host, was, Unmount(false), Report(Now(), false));
        return false;
      }
      mounted := false;
      Log(host, was, Unmount(true), Now().(mounted := false, pc := LookingUp(found.value)));
      ok := UnStageWithWwn(host, found.value, was);
    }

    /** `UnStageVolume` tried again and again on a host that may answer each try differently, from any safe
        state, such as a staged volume or what a crash has left: whatever fails on the way, success means
        that a look-up for the WWN has come back empty, and until then the WWN stays in reach; and one try on
        which unmounting and disconnecting work is enough. */
    method UnStageRepeatedly(tries: nat, hosts: (nat, bool) -> Host, ghost wwn: string) returns (ok: bool)
      requires Valid() && Now().pc.Idle? && wwn != "" && Safe(Now(), wwn)
      requires forall i, isMounted :: ReliableHost(hosts(i, isMounted), isMounted, wwn)
      modifies this
      ensures Valid() && Safe(Now(), wwn)
      ensures ok ==> wwn in Now().emptied
      ensures wwn !in Now().emptied ==> record == Some(wwn) || mounted
      ensures wwn !in old(Now()).emptied && (exists i :: 0 <= i < tries && WorksAt(hosts, i, wwn)) ==> ok
    {
      ok := false;
      for i := 0 to tries
        invariant Valid() && Now().pc.Idle? && Safe(Now(), wwn)
        invariant !ok && Now().emptied == old(Now()).emptied
        invariant wwn !in old(Now()).emptied ==> forall j :: 0 <= j < i ==> !WorksAt(hosts, j, wwn)
      {
        ghost var from := |steps|;
        var host := hosts(i, mounted);
        ok := UnStageVolume(host, Run(ns, steps));
        SafeAlongCall(ns, steps, host, wwn, from, |steps|);
        if ok {
          return;
        }
      }
    }
  }
}
