/** Looking up the device of a LUN (`GetVirtualDevice` of connector/connector_utils.go): among the
    devices that /dev/disk/by-id links to the WWN, leave out partitions and sort the rest into
    multipath devices and plain disks. */
module DeviceLookup {
  import opened Basics

  datatype DeviceType = NotUseMultipath | UseDmMultipath | UseUltraPath | UseUltraPathNvme

  /** What the host says about a device: whether it is a partition, which can fail, and whether
      UltraPath manages it. */
  datatype Host = Host(partition: string -> Result<bool>, ultraPath: string -> bool)

  datatype Kind = Virtual(deviceType: DeviceType) | Physical | Unknown

  function KindOf(d: string, host: Host): Kind {
    if "ultrapath" <= d then Virtual(UseUltraPathNvme)
    else if "dm" <= d then Virtual(UseDmMultipath)
    else if "sd" <= d && host.ultraPath(d) then Virtual(UseUltraPath)
    else if "sd" <= d || "nvme" <= d then Physical
    else Unknown
  }

  /** What a name stands for: the prefixes exclude each other, so that the order of the tests is no matter. */
  lemma KindMeaning(d: string, host: Host)
    ensures KindOf(d, host) == Virtual(UseUltraPathNvme) <==> "ultrapath" <= d
    ensures KindOf(d, host) == Virtual(UseDmMultipath) <==> "dm" <= d
    ensures KindOf(d, host) == Virtual(UseUltraPath) <==> "sd" <= d && host.ultraPath(d)
    ensures KindOf(d, host) == Physical <==> "nvme" <= d || ("sd" <= d && !host.ultraPath(d))
    ensures KindOf(d, host) == Unknown <==> !("ultrapath" <= d) && !("dm" <= d) && !("sd" <= d) && !("nvme" <= d)
  {
    if d != [] {
      assert "ultrapath" <= d ==> d[0] == 'u';
      assert "dm" <= d ==> d[0] == 'd';
      assert "sd" <= d ==> d[0] == 's';
      assert "nvme" <= d ==> d[0] == 'n';
    }
  }

  predicate IsWhole(d: string, host: Host) { host.partition(d) == Ok(false) }

  function Wholes(devices: seq<string>, host: Host, p: Kind -> bool): seq<string> {
    if devices == [] then []
    else
      var rest := Wholes(devices[..|devices| - 1], host, p);
      var d := devices[|devices| - 1];
      if IsWhole(d, host) && p(KindOf(d, host)) then rest + [d] else rest
  }

  predicate IsVirtual(k: Kind) { k.Virtual? }
  predicate IsPhysical(k: Kind) { k.Physical? }

  datatype Lookup = Nothing | Device(name: string, deviceType: DeviceType) | NotUnique | CheckFailed

  lemma {:induction false} WholesMeaning(devices: seq<string>, host: Host, p: Kind -> bool, d: string)
    ensures d in Wholes(devices, host, p) <==> d in devices && IsWhole(d, host) && p(KindOf(d, host))
  {
    if devices != [] {
      WholesMeaning(devices[..|devices| - 1], host, p, d);
      assert devices == devices[..|devices| - 1] + [devices[|devices| - 1]];
    }
  }

  predicate ChecksWork(devices: seq<string>, host: Host) {
    forall k :: 0 <= k < |devices| ==> host.partition(devices[k]).Ok?
  }

  /** One multipath device, or no multipath device and at most one plain disk. */
  predicate IsUnique(devices: seq<string>, host: Host) {
    && |Wholes(devices, host, IsVirtual)| <= 1
    && (Wholes(devices, host, IsVirtual) == [] ==> |Wholes(devices, host, IsPhysical)| <= 1)
  }

  /** The whole disks of a known kind. */
  ghost function KnownWholes(devices: seq<string>, host: Host): set<string> {
    set d | d in devices && IsWhole(d, host) && !KindOf(d, host).Unknown?
  }

  /** `GetVirtualDevice` with `getVirtualDevice`. It reports that there is no device exactly when
      every device links as a partition or is of no known kind; a device it names is a whole disk
      among them, and is not a plain disk while there is a multipath device. */
  method GetVirtualDevice(devices: seq<string>, host: Host) returns (r: Lookup)
    ensures r == CheckFailed <==> !ChecksWork(devices, host)
    ensures r == NotUnique <==> ChecksWork(devices, host) && !IsUnique(devices, host)
    ensures r == Nothing <==> ChecksWork(devices, host) && KnownWholes(devices, host) == {}
    ensures r.Device? ==> r.name in devices && IsWhole(r.name, host) && !KindOf(r.name, host).Unknown?
    ensures r.Device? && KindOf(r.name, host).Virtual? ==>
              KindOf(r.name, host) == Virtual(r.deviceType) && Wholes(devices, host, IsVirtual) == [r.name]
    ensures r.Device? && KindOf(r.name, host).Physical? ==>
              && r.deviceType == NotUseMultipath
              && Wholes(devices, host, IsVirtual) == [] && Wholes(devices, host, IsPhysical) == [r.name]
  {
    var virtuals, physicals := [], [];
    var deviceType := NotUseMultipath;
    for k := 0 to |devices|
      invariant virtuals == Wholes(devices[..k], host, IsVirtual)
      invariant physicals == Wholes(devices[..k], host, IsPhysical)
      invariant forall j :: 0 <= j < k ==> host.partition(devices[j]).Ok?
      invariant virtuals != [] ==> KindOf(virtuals[|virtuals| - 1], host) == Virtual(deviceType)
    {
      var d := devices[k];
      assert devices[..k + 1][..k] == devices[..k] && devices[..k + 1][k] == d;
      var partition := host.partition(d);
      if partition.Err? {
        return CheckFailed;
      }
      if !partition.value {
        var kind := KindOf(d, host);
        if kind.Virtual? {
          deviceType := kind.deviceType;
          virtuals := virtuals + [d];
        } else if kind.Physical? {
          physicals := physicals + [d];
        }
      }
    }
    assert devices[..|devices|] == devices;
    NothingMeaning(devices, host);
    if virtuals != [] {
      WholesMeaning(devices, host, IsVirtual, virtuals[0]);
      if |virtuals| > 1 {
        return NotUnique;
      }
      return Device(virtuals[0], deviceType);
    }
    if physicals == [] {
      return Nothing;
    }
    WholesMeaning(devices, host, IsPhysical, physicals[0]);
    if |physicals| > 1 {
      return NotUnique;
    }
    r := Device(physicals[0], NotUseMultipath);
  }

  lemma NothingMeaning(devices: seq<string>, host: Host)
    ensures Wholes(devices, host, IsVirtual) == [] && Wholes(devices, host, IsPhysical) == [] <==>
              KnownWholes(devices, host) == {}
  {
    var vs, ps := Wholes(devices, host, IsVirtual), Wholes(devices, host, IsPhysical);
    if vs != [] {
      WholesMeaning(devices, host, IsVirtual, vs[0]);
      assert vs[0] in KnownWholes(devices, host);
    }
    if ps != [] {
      WholesMeaning(devices, host, IsPhysical, ps[0]);
      assert ps[0] in KnownWholes(devices, host);
    }
    if KnownWholes(devices, host) != {} {
      var d :| d in KnownWholes(devices, host);
      WholesMeaning(devices, host, IsVirtual, d);
      WholesMeaning(devices, host, IsPhysical, d);
    }
  }
}
