/** The availability checks after all workers have been joined (connector/connector_utils.go
    and `checkDeviceAvailable` of connector/iscsi/iscsi_helper.go): watch for the DM device,
    read it, drop its faulty slaves and compare WWNs. What the host answers is arbitrary and
    given as parameters. */
module DeviceVerify {
  import opened Basics

  /** `DMDeviceInfo`: the kernel name of a DM device and its slaves. */
  datatype DmInfo = DmInfo(sysfs: string, devices: seq<string>)

  datatype Failure = VolumeNotFound | VolumePathIncomplete | DeviceNotFound | NotReadable | HostError | InconsistentWwn

  datatype Outcome<+T> = Success(value: T) | Failed(why: Failure)

  // ----- WatchDMDevice

  /** A poll that shows the device, with the expected number of slaves if all paths have to be online. */
  predicate Qualifies(answer: Outcome<DmInfo>, allPathOnline: bool, pathNumber: nat) {
    answer.Success? && (allPathOnline ==> |answer.value.devices| == pathNumber)
  }

  /** The first poll that qualifies is the i-th, and the timeout has not fired by then. */
  ghost predicate FirstShown(poll: nat -> Outcome<DmInfo>, expired: nat -> bool, allPathOnline: bool, pathNumber: nat, i: nat) {
    && Qualifies(poll(i), allPathOnline, pathNumber)
    && (forall j :: 0 <= j < i ==> !Qualifies(poll(j), allPathOnline, pathNumber))
    && forall j :: 0 <= j <= i ==> !expired(j)
  }

  /** `WatchDMDevice`: poll until the DM device shows up, with all its paths if that is asked
      for. `poll(i)` is what the i-th query answers and `expired(i)` whether the timeout has
      fired before it; the timeout does fire, at `deadline` at the latest. A success is a poll
      that showed the device, with exactly the expected number of slaves if all paths have to
      be online; otherwise no poll before the timeout did. */
  method WatchDMDevice(poll: nat -> Outcome<DmInfo>, expired: nat -> bool, allPathOnline: bool, pathNumber: nat,
                       ghost deadline: nat)
    returns (r: Outcome<DmInfo>, seen: DmInfo, ghost polls: nat)
    requires expired(deadline)
    ensures polls <= deadline && forall i :: 0 <= i < polls ==> !expired(i)
    ensures r.Success? ==>
              polls > 0 && poll(polls - 1) == r && FirstShown(poll, expired, allPathOnline, pathNumber, polls - 1)
    ensures r.Failed? ==>
              expired(polls) && forall i :: 0 <= i < polls ==> !Qualifies(poll(i), allPathOnline, pathNumber)
    ensures r.Failed? ==>
              r.why == (if polls == 0 then VolumeNotFound
                        else if poll(polls - 1).Failed? then poll(polls - 1).why else VolumePathIncomplete)
    ensures r == Failed(VolumePathIncomplete) && polls > 0 && poll(polls - 1).Success? ==>
              poll(polls - 1) == Success(seen)
  {
    r, seen, polls := Failed(VolumeNotFound), DmInfo("", []), 0;
    var turn := 0;
    while true
      invariant turn == polls <= deadline && forall i :: 0 <= i < polls ==> !expired(i)
      invariant r == Failed(if polls == 0 then VolumeNotFound
                            else if poll(polls - 1).Failed? then poll(polls - 1).why else VolumePathIncomplete)
      invariant forall i :: 0 <= i < polls ==> !Qualifies(poll(i), allPathOnline, pathNumber)
      invariant polls > 0 && poll(polls - 1).Success? ==> poll(polls - 1) == Success(seen)
      decreases deadline - turn
    {
      if expired(turn) {
        return;
      }
      var answer := poll(turn);
      turn, polls := turn + 1, polls + 1;
      if answer.Success? {
        seen := answer.value;
        if !allPathOnline || |seen.devices| == pathNumber {
          return answer, seen, polls;
        }
        r := Failed(VolumePathIncomplete);
      } else {
        r := answer;
      }
    }
  }

  // ----- the WWN of the slaves

  predicate IsScsi(d: string) { "sd" <= d }
  predicate IsNvme(d: string) { "nvme" <= d }

  /** What the loop of `findDeviceWWN` holds after some devices: the last query result, which a
      device of unknown kind leaves as it is, and the WWN settled on so far. */
  datatype Finding = Finding(last: Result<string>, wwn: string)

  predicate Related(a: string, b: string) { Contains(a, b) || Contains(b, a) }

  function Queried(last: Result<string>, d: string, report: string -> Result<string>): Result<string> {
    if IsScsi(d) || IsNvme(d) then report(d) else last
  }

  /** The scan of `findDeviceWWN`; `Err` is the "InconsistentWWN" error. */
  function FindFrom(f: Finding, devices: seq<string>, report: string -> Result<string>): Result<string>
    decreases devices
  {
    if devices == [] then Ok(f.wwn)
    else
      var q := Queried(f.last, devices[0], report);
      if q.Err? then FindFrom(f.(last := q), devices[1..], report)
      else if f.wwn != "" && !Related(q.value, f.wwn) then Err
      else FindFrom(Finding(q, q.value), devices[1..], report)
  }

  function FindWwn(devices: seq<string>, report: string -> Result<string>): Result<string> {
    FindFrom(Finding(Ok(""), ""), devices, report)
  }

  /** `findDeviceWWN`. */
  method FindDeviceWwn(devices: seq<string>, report: string -> Result<string>) returns (r: Result<string>)
    ensures r == FindWwn(devices, report)
  {
    var last: Result<string>, wwn := Ok(""), "";
    for k := 0 to |devices|
      invariant FindWwn(devices, report) == FindFrom(Finding(last, wwn), devices[k..], report)
    {
      var d := devices[k];
      assert devices[k..][0] == d && devices[k..][1..] == devices[k + 1..];
      if IsScsi(d) || IsNvme(d) {
        last := report(d);
      }
      if last.Ok? {
        if wwn != "" && !Related(last.value, wwn) {
          return Err;
        }
        wwn := last.value;
      }
    }
    r := Ok(wwn);
  }

  /** A WWN that is found is the report of one of the devices. */
  lemma {:induction false} FoundWwnIsReported(f: Finding, devices: seq<string>, report: string -> Result<string>)
    requires f.last.Ok? ==> f.last.value == f.wwn
    requires FindFrom(f, devices, report).Ok?
    ensures var w := FindFrom(f, devices, report).value;
            w == f.wwn || exists d :: d in devices && report(d) == Ok(w)
    decreases devices
  {
    if devices != [] {
      var q := Queried(f.last, devices[0], report);
      var next := if q.Err? then f.(last := q) else Finding(q, q.value);
      FoundWwnIsReported(next, devices[1..], report);
      var w := FindFrom(f, devices, report).value;
      if w != next.wwn {
        var d :| d in devices[1..] && report(d) == Ok(w);
        assert d in devices;
      } else if w != f.wwn {
        assert q == Ok(w) && q == report(devices[0]) && devices[0] in devices;
      }
    }
  }

  /** The reports that the scan gets to see, one after the other: a failed query gives none, and a
      device of unknown kind repeats the last one. */
  function Reported(last: Result<string>, devices: seq<string>, report: string -> Result<string>): seq<string>
    decreases devices
  {
    if devices == [] then []
    else
      var q := Queried(last, devices[0], report);
      (if q.Ok? then [q.value] else []) + Reported(q, devices[1..], report)
  }

  /** Entry `i` is not empty, and unrelated to the next one. */
  predicate Breaks(reports: seq<string>, i: nat)
    requires i + 1 < |reports|
  {
    reports[i] != "" && !Related(reports[i + 1], reports[i])
  }

  ghost predicate IsChain(reports: seq<string>) { forall i :: 0 <= i < |reports| - 1 ==> !Breaks(reports, i) }

  lemma ChainTail(w: string, r: string, rest: seq<string>)
    ensures IsChain([w, r] + rest) <==> !(w != "" && !Related(r, w)) && IsChain([r] + rest)
  {
    var all, tail := [w, r] + rest, [r] + rest;
    assert forall i :: 0 <= i < |tail| ==> all[i + 1] == tail[i];
    if IsChain(all) {
      assert !Breaks(all, 0);
      forall i | 0 <= i < |tail| - 1 ensures !Breaks(tail, i) { assert !Breaks(all, i + 1); }
    }
    if !(w != "" && !Related(r, w)) && IsChain(tail) {
      forall i | 0 <= i < |all| - 1 ensures !Breaks(all, i) { if i > 0 { assert !Breaks(tail, i - 1); } }
    }
  }

  /** The scan finds a WWN if and only if each report is related to the one before it, if that is not
      empty; and the WWN is then the last report. So the scan compares neighbours only, and an empty
      report forgets what came before it. */
  lemma {:induction false} ScanFindsIff(f: Finding, devices: seq<string>, report: string -> Result<string>)
    ensures var reports := [f.wwn] + Reported(f.last, devices, report);
            && (FindFrom(f, devices, report).Ok? <==> IsChain(reports))
            && (FindFrom(f, devices, report).Ok? ==> FindFrom(f, devices, report).value == reports[|reports| - 1])
    decreases devices
  {
    if devices != [] {
      var q := Queried(f.last, devices[0], report);
      var rest := Reported(q, devices[1..], report);
      if q.Err? {
        ScanFindsIff(f.(last := q), devices[1..], report);
        assert Reported(f.last, devices, report) == rest;
      } else {
        ScanFindsIff(Finding(q, q.value), devices[1..], report);
        ChainTail(f.wwn, q.value, rest);
        assert [f.wwn] + ([q.value] + rest) == [f.wwn, q.value] + rest;
      }
    }
  }

  lemma ContainsShorter(s: string, sub: string)
    requires Contains(s, sub)
    ensures |sub| <= |s|
    ensures |sub| == |s| ==> sub == s
  {
    ContainsIff(s, sub);
  }

  lemma RelatedSameLength(a: string, b: string)
    requires Related(a, b) && |a| == |b|
    ensures a == b
  {
    if Contains(a, b) { ContainsShorter(a, b); } else { ContainsShorter(b, a); }
  }

  lemma {:induction false} UniformChain(reports: seq<string>, len: nat, i: nat)
    requires len > 0 && IsChain(reports) && i < |reports|
    requires forall k :: i <= k < |reports| ==> |reports[k]| == len
    ensures reports[i] == reports[|reports| - 1]
    decreases |reports| - i
  {
    if i + 1 < |reports| {
      assert !Breaks(reports, i);
      RelatedSameLength(reports[i + 1], reports[i]);
      UniformChain(reports, len, i + 1);
    }
  }

  lemma {:induction false} ReportedMember(last: Result<string>, devices: seq<string>, report: string -> Result<string>, d: string)
    requires d in devices && (IsScsi(d) || IsNvme(d)) && report(d).Ok?
    ensures report(d).value in Reported(last, devices, report)
    decreases devices
  {
    if d != devices[0] {
      ReportedMember(Queried(last, devices[0], report), devices[1..], report, d);
    }
  }

  lemma {:induction false} ReportedLengths(last: Result<string>, devices: seq<string>, report: string -> Result<string>, len: nat)
    requires forall d :: d in devices ==> IsScsi(d) || IsNvme(d)
    requires forall d :: d in devices && report(d).Ok? ==> |report(d).value| == len
    ensures forall k :: 0 <= k < |Reported(last, devices, report)| ==> |Reported(last, devices, report)[k]| == len
    decreases devices
  {
    if devices != [] {
      assert devices[0] in devices;
      ReportedLengths(report(devices[0]), devices[1..], report, len);
    }
  }

  /** If all devices are disks whose reports, where they give one, have one and the same non-zero
      length, as those of scsi_id do, then a WWN that is found is the report of every one of them. */
  lemma UniformReportsAgree(devices: seq<string>, report: string -> Result<string>, len: nat, d: string)
    requires len > 0 && forall e :: e in devices ==> IsScsi(e) || IsNvme(e)
    requires forall e :: e in devices && report(e).Ok? ==> |report(e).value| == len
    requires FindWwn(devices, report).Ok? && d in devices && report(d).Ok?
    ensures report(d) == FindWwn(devices, report)
  {
    var tail := Reported(Ok(""), devices, report);
    var reports := [""] + tail;
    ScanFindsIff(Finding(Ok(""), ""), devices, report);
    ReportedMember(Ok(""), devices, report, d);
    ReportedLengths(Ok(""), devices, report, len);
    var k :| 0 <= k < |tail| && tail[k] == report(d).value;
    assert forall j :: 1 <= j < |reports| ==> reports[j] == tail[j - 1];
    UniformChain(reports, len, k + 1);
  }

  /** Without that, it need not be: an empty report in between hides that two slaves belong to
      different LUNs. */
  lemma EmptyReportHidesAMismatch(report: string -> Result<string>)
    requires report("sda") == Ok("6aa") && report("sdb") == Ok("") && report("sdc") == Ok("6bb")
    ensures FindWwn(["sda", "sdb", "sdc"], report) == Ok("6bb")
  {
    assert ["sda", "sdb", "sdc"][1..] == ["sdb", "sdc"];
    assert ["sdb", "sdc"][1..] == ["sdc"];
    assert ["sdc"][1..] == [];
    assert Reported(Ok(""), ["sdc"], report) == ["6bb"];
    assert Reported(Ok("6aa"), ["sdb", "sdc"], report) == ["", "6bb"];
    assert Reported(Ok(""), ["sda", "sdb", "sdc"], report) == ["6aa", "", "6bb"];
    ScanFindsIff(Finding(Ok(""), ""), ["sda", "sdb", "sdc"], report);
    var reports := ["", "6aa", "", "6bb"];
    assert [""] + ["6aa", "", "6bb"] == reports;
    assert Contains("6aa", "");
    assert !Breaks(reports, 0) && !Breaks(reports, 1) && !Breaks(reports, 2);
  }

  // ----- VerifyMultiPathDevice

  /** What the host answers about devices: whether a path reads, what removing a device returns,
      which slaves a DM device has, and which WWNs multipathd and the devices report. */
  datatype Host = Host(
    canRead: string -> bool,
    canRemove: string -> bool,
    slaves: string -> Result<seq<string>>,
    mapWwn: string -> Result<string>,
    report: string -> Result<string>)

  function ReadableOf(devices: seq<string>, host: Host): seq<string> {
    if devices == [] then []
    else (if host.canRead("/dev/" + devices[0]) then [devices[0]] else []) + ReadableOf(devices[1..], host)
  }

  lemma {:induction false} ReadableAppend(xs: seq<string>, d: string, host: Host)
    ensures ReadableOf(xs + [d], host) == ReadableOf(xs, host) + if host.canRead("/dev/" + d) then [d] else []
  {
    if xs != [] {
      assert (xs + [d])[1..] == xs[1..] + [d];
      ReadableAppend(xs[1..], d, host);
    } else {
      assert xs + [d] == [d] && [d][1..] == [];
    }
  }

  /** `clearFaultyDevices`: the slaves that read; the others are removed. */
  method ClearFaultyDevices(devices: seq<string>, host: Host) returns (r: Result<seq<string>>)
    ensures r.Ok? ==> r.value == ReadableOf(devices, host)
    ensures r.Err? <==> exists d :: d in devices && !host.canRead("/dev/" + d) && !host.canRemove(d)
  {
    var normal := [];
    for k := 0 to |devices|
      invariant normal == ReadableOf(devices[..k], host)
      invariant forall d :: d in devices[..k] ==> host.canRead("/dev/" + d) || host.canRemove(d)
    {
      var d := devices[k];
      assert devices[..k + 1] == devices[..k] + [d];
      ReadableAppend(devices[..k], d, host);
      if host.canRead("/dev/" + d) {
        normal := normal + [d];
      } else if !host.canRemove(d) {
        assert d in devices;
        return Err;
      }
    }
    assert devices[..|devices|] == devices;
    r := Ok(normal);
  }

  lemma {:induction false} ReadableMeaning(devices: seq<string>, host: Host, d: string)
    ensures d in ReadableOf(devices, host) <==> d in devices && host.canRead("/dev/" + d)
  {
    if devices != [] {
      ReadableMeaning(devices[1..], host, d);
    }
  }

  /** Some slave of `mPath` reads and reports a WWN that contains the LUN's. */
  ghost predicate SlaveConfirms(host: Host, mPath: string, lunWwn: string) {
    && host.slaves(mPath).Ok?
    && exists d :: d in host.slaves(mPath).value && host.canRead("/dev/" + d)
                   && host.report(d).Ok? && Contains(host.report(d).value, lunWwn)
  }

  /** What the checks of a multipath device come to. */
  ghost predicate Verifies(host: Host, mPath: string, lunWwn: string) {
    && host.canRead("/dev/" + mPath) && host.slaves(mPath).Ok?
    && (forall d :: d in host.slaves(mPath).value ==> host.canRead("/dev/" + d) || host.canRemove(d))
    && host.mapWwn(mPath).Ok? && Contains(host.mapWwn(mPath).value, lunWwn)
    && (var wwn := FindWwn(ReadableOf(host.slaves(mPath).value, host), host.report);
        wwn.Ok? && wwn.value != "" && Contains(wwn.value, lunWwn))
  }

  /** Why it does not verify. Only if the answer is that the device was not found does the code go on to
      disconnect the volume again. */
  ghost function WhyUnverified(host: Host, mPath: string, lunWwn: string): Failure {
    if !host.canRead("/dev/" + mPath) then NotReadable
    else if host.slaves(mPath).Err? then HostError
    else if exists d :: d in host.slaves(mPath).value && !host.canRead("/dev/" + d) && !host.canRemove(d) then HostError
    else if && host.mapWwn(mPath).Ok? && Contains(host.mapWwn(mPath).value, lunWwn)
            && FindWwn(ReadableOf(host.slaves(mPath).value, host), host.report).Err? then InconsistentWwn
    else DeviceNotFound
  }

  /** `VerifyMultiPathDevice` with `IsMultiPathAvailable`. */
  method VerifyMultiPathDevice(mPath: string, lunWwn: string, host: Host) returns (r: Outcome<string>)
    ensures r.Success? <==> Verifies(host, mPath, lunWwn)
    ensures r.Failed? ==> r.why == WhyUnverified(host, mPath, lunWwn)
    ensures r.Success? ==>
              && r.value == "/dev/" + mPath && host.canRead(r.value)
              && host.mapWwn(mPath).Ok? && Contains(host.mapWwn(mPath).value, lunWwn)
              && SlaveConfirms(host, mPath, lunWwn)
  {
    var device := "/dev/" + mPath;
    if !host.canRead(device) {
      return Failed(NotReadable);
    }
    var devs := host.slaves(mPath);
    if devs.Err? {
      return Failed(HostError);
    }
    var devices := ClearFaultyDevices(devs.value, host);
    if devices.Err? {
      return Failed(HostError);
    }
    var mapWwn := host.mapWwn(mPath);
    if mapWwn.Err? || !Contains(mapWwn.value, lunWwn) {
      return Failed(DeviceNotFound);
    }
    var deviceWwn := FindDeviceWwn(devices.value, host.report);
    if deviceWwn.Err? {
      return Failed(InconsistentWwn);
    }
    if deviceWwn.value == "" || !Contains(deviceWwn.value, lunWwn) {
      return Failed(DeviceNotFound);
    }
    FoundWwnIsReported(Finding(Ok(""), ""), devices.value, host.report);
    ghost var d :| d in devices.value && host.report(d) == deviceWwn;
    ReadableMeaning(devs.value, host, d);
    r := Success(device);
  }

  lemma {:induction false} SameReportsAreFound(f: Finding, devices: seq<string>, report: string -> Result<string>, wwn: string)
    requires forall d :: d in devices ==> (IsScsi(d) || IsNvme(d)) && report(d) == Ok(wwn)
    requires f.wwn == "" || f.wwn == wwn
    ensures FindFrom(f, devices, report) == Ok(if devices == [] then f.wwn else wwn)
    decreases devices
  {
    if devices != [] {
      assert devices[0] in devices;
      SameReportsAreFound(Finding(Ok(wwn), wwn), devices[1..], report, wwn);
    }
  }

  lemma {:induction false} AllReadable(devices: seq<string>, host: Host)
    requires forall d :: d in devices ==> host.canRead("/dev/" + d)
    ensures ReadableOf(devices, host) == devices
  {
    if devices != [] {
      assert devices[0] in devices;
      AllReadable(devices[1..], host);
    }
  }

  /** A multipath device all of whose parts read, whose map has the LUN's WWN within its own, and whose
      slaves, at least one, are disks that all report one WWN with the LUN's within it, verifies. */
  lemma HealthyMapVerifies(host: Host, mPath: string, lunWwn: string, wwn: string, a: string, b: string, c: string, d: string)
    requires host.canRead("/dev/" + mPath) && host.slaves(mPath).Ok? && host.slaves(mPath).value != [] && lunWwn != ""
    requires forall e :: e in host.slaves(mPath).value ==> host.canRead("/dev/" + e)
    requires forall e :: e in host.slaves(mPath).value ==> ("sd" <= e || "nvme" <= e) && host.report(e) == Ok(wwn)
    requires host.mapWwn(mPath) == Ok(a + lunWwn + b) && wwn == c + lunWwn + d
    ensures Verifies(host, mPath, lunWwn)
  {
    AllReadable(host.slaves(mPath).value, host);
    SameReportsAreFound(Finding(Ok(""), ""), host.slaves(mPath).value, host.report, wwn);
    ContainsMiddle(a, lunWwn, b);
    ContainsMiddle(c, lunWwn, d);
  }

  /** And one that verifies has the LUN's WWN in what its map and one of its readable slaves report. */
  lemma VerifiedHasTheWwn(host: Host, mPath: string, lunWwn: string)
    requires Verifies(host, mPath, lunWwn)
    ensures exists a, b :: host.mapWwn(mPath) == Ok(a + lunWwn + b)
    ensures exists d, a, b :: d in host.slaves(mPath).value && host.canRead("/dev/" + d) && host.report(d) == Ok(a + lunWwn + b)
  {
    ContainsSplit(host.mapWwn(mPath).value, lunWwn);
    var devices := ReadableOf(host.slaves(mPath).value, host);
    var wwn := FindWwn(devices, host.report);
    FoundWwnIsReported(Finding(Ok(""), ""), devices, host.report);
    var d :| d in devices && host.report(d) == wwn;
    ReadableMeaning(host.slaves(mPath).value, host, d);
    ContainsSplit(wwn.value, lunWwn);
  }

  /** `VerifySingleDevice`, with `IsDeviceAvailable`. */
  method VerifySingleDevice(device: string, lunWwn: string, host: Host) returns (r: Outcome<string>)
    ensures r.Success? <==>
              && host.canRead(device) && host.report(device).Ok?
              && host.report(device).value != "" && Contains(host.report(device).value, lunWwn)
    ensures r.Success? ==> r.value == device
    ensures r.Failed? ==>
              r.why == (if !host.canRead(device) then NotReadable
                        else if host.report(device).Err? then HostError else VolumeNotFound)
    ensures forall a, b :: host.canRead(device) && lunWwn != "" && host.report(device) == Ok(a + lunWwn + b) ==> r.Success?
  {
    forall a, b | host.report(device) == Ok(a + lunWwn + b) ensures Contains(host.report(device).value, lunWwn) {
      ContainsMiddle(a, lunWwn, b);
    }
    if !host.canRead(device) {
      return Failed(NotReadable);
    }
    var wwn := host.report(device);
    if wwn.Err? {
      return Failed(HostError);
    }
    if wwn.value == "" || !Contains(wwn.value, lunWwn) {
      return Failed(VolumeNotFound);
    }
    r := Success(device);
  }

  // ----- checkDeviceAvailable

  /** `checkDeviceAvailable`, DM mode: without a multipath name the volume is not found; with
      one, a success names a device that was read, whose map and one of whose readable slaves
      report a WWN containing the LUN's, and which, if all paths have to be online, showed
      exactly the expected number of slaves when it was watched. */
  method CheckDmAvailable(mPath: string, lunWwn: string, allPathOnline: bool, pathNumber: nat,
                          poll: nat -> Outcome<DmInfo>, expired: nat -> bool, ghost deadline: nat, host: Host)
    returns (r: Outcome<string>, ghost watched: DmInfo)
    requires expired(deadline)
    ensures mPath == "" ==> r == Failed(VolumeNotFound)
    ensures r.Success? <==>
              mPath != "" && exists i :: FirstShown(poll, expired, allPathOnline, pathNumber, i)
                                         && Verifies(host, poll(i).value.sysfs, lunWwn)
    ensures r.Success? ==>
              && (exists i :: 0 <= i <= deadline && poll(i) == Success(watched))
              && (allPathOnline ==> |watched.devices| == pathNumber)
              && r.value == "/dev/" + watched.sysfs && host.canRead(r.value)
              && host.mapWwn(watched.sysfs).Ok? && Contains(host.mapWwn(watched.sysfs).value, lunWwn)
              && SlaveConfirms(host, watched.sysfs, lunWwn)
  {
    watched := DmInfo("", []);
    if mPath == "" {
      return Failed(VolumeNotFound), watched;
    }
    var dm, seen, polls := WatchDMDevice(poll, expired, allPathOnline, pathNumber, deadline);
    if dm.Failed? {
      return Failed(dm.why), watched;
    }
    watched := dm.value;
    r := VerifyMultiPathDevice(dm.value.sysfs, lunWwn, host);
  }

  /** `checkSinglePathAvailable`: the first found device, if it reads and reports the LUN's WWN. */
  method CheckSinglePathAvailable(found: seq<string>, lunWwn: string, host: Host) returns (r: Outcome<string>)
    ensures found == [] ==> r == Failed(VolumeNotFound)
    ensures r.Success? ==> found != [] && r.value == "/dev/" + found[0]
    ensures r.Success? <==>
              found != [] &&
              var device := "/dev/" + found[0];
              && host.canRead(device) && host.report(device).Ok?
              && host.report(device).value != "" && Contains(host.report(device).value, lunWwn)
  {
    if found == [] {
      return Failed(VolumeNotFound);
    }
    r := VerifySingleDevice("/dev/" + found[0], lunWwn, host);
  }
}
