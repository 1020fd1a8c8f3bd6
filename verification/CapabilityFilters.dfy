/** The capability filters of csi/backend/backend.go and the chain that runs them. */
module CapabilityFilters {
  import opened Basics
  import opened StoragePools

  datatype Kind =
    | BackendName | PoolName | VolumeType | AllocType | Qos | Metro | Replication
    | ApplicationType | StorageQuota | Clone | NfsProtocol

  /** A row of a filter table: the storage class parameter, and the filter it goes to. */
  datatype Row = Row(key: string, kind: Kind)

  /** The string parameters of a storage class; a value of another type reads as missing. */
  type Parameters = map<string, string>

  const PRIMARY: seq<Row> := [
    Row("backend", BackendName), Row("pool", PoolName), Row("volumeType", VolumeType), Row("allocType", AllocType),
    Row("qos", Qos), Row("hyperMetro", Metro), Row("replication", Replication),
    Row("applicationType", ApplicationType), Row("storageQuota", StorageQuota), Row("sourceVolumeName", Clone),
    Row("sourceSnapshotName", Clone), Row("nfsProtocol", NfsProtocol)]

  const SECONDARY: seq<Row> := [
    Row("volumeType", VolumeType), Row("allocType", AllocType), Row("qos", Qos), Row("replication", Replication),
    Row("applicationType", ApplicationType)]

  /** What the filters ask of the world: the backends known, and whether a storage quota is well formed. */
  datatype World = World(cache: Cache, quotaValid: string -> bool)

  function Parameter(params: Parameters, key: string): string {
    if key in params then params[key] else ""
  }

  function Value(params: Parameters, row: Row): string { Parameter(params, row.key) }

  predicate StrToBool(s: string) { s in ["1", "t", "T", "TRUE", "true", "True"] }

  predicate OffersVolumeType(storage: string, volumeType: string) {
    if volumeType == "lun" || volumeType == "" then
      storage in ["oceanstor-san", "fusionstorage-san", "oceandisk-san"]
    else if volumeType == "fs" then
      storage in ["oceanstor-nas", "oceanstor-9000", "fusionstorage-nas", "oceanstor-a-series-nas",
                  "oceanstor-a-series-nas-dme"]
    else
      volumeType == "dtree" && storage in ["oceanstor-dtree", "fusionstorage-dtree", "oceanstor-a-series-dtree"]
  }

  predicate OffersNfs(pool: StoragePool, protocol: string) {
    || pool.plugin.isDmeASeries
    || (protocol == "nfs3" && pool.Has("SupportNFS3"))
    || (protocol == "nfs4" && pool.Has("SupportNFS4"))
    || (protocol == "nfs41" && pool.Has("SupportNFS41"))
    || (protocol == "nfs42" && pool.Has("SupportNFS42"))
  }

  /** Whether a filter keeps a pool. */
  predicate Admits(kind: Kind, value: string, world: World, pool: StoragePool) {
    match kind
    case BackendName => value == "" || value == pool.parent
    case PoolName => value == "" || value == pool.name
    case VolumeType => OffersVolumeType(pool.storage, value)
    case AllocType =>
      || pool.storage == "oceanstor-9000"
      || ((value == "thin" || value == "") && pool.Has("SupportThin"))
      || (value == "thick" && pool.Has("SupportThick"))
    case Qos => value == "" || (pool.Has("SupportQoS") && pool.plugin.acceptsQos(value))
    case Metro =>
      StrToBool(value) ==> pool.parent in world.cache && world.cache[pool.parent].metroPools.Some? && pool.Has("SupportMetro")
    case Replication =>
      StrToBool(value) ==>
        pool.parent in world.cache && world.cache[pool.parent].hasReplica && pool.Has("SupportReplication")
    case ApplicationType => value == "" || pool.Has("SupportApplicationType")
    case StorageQuota => value == "" || pool.Has("SupportQuota")
    case Clone => value == "" || pool.Has("SupportClone")
    case NfsProtocol => value == "" || OffersNfs(pool, value)
  }

  /** The test of each filter on one pool, as the filters make it. */
  method Keeps(kind: Kind, value: string, world: World, pool: StoragePool) returns (keeps: bool)
    ensures keeps == Admits(kind, value, world, pool)
  {
    match kind
    case BackendName =>
      keeps := value == "" || value == pool.parent;
    case PoolName =>
      keeps := value == "" || value == pool.name;
    case VolumeType =>
      keeps := KeepsVolumeType(value, pool);
    case AllocType =>
      keeps := false;
      if pool.storage == "oceanstor-9000" {
        keeps := true;
      } else if value == "thin" || value == "" {
        keeps := "SupportThin" in pool.capabilities && pool.capabilities["SupportThin"];
      } else if value == "thick" {
        keeps := "SupportThick" in pool.capabilities && pool.capabilities["SupportThick"];
      }
    case Qos =>
      keeps := value == "";
      if !keeps && pool.Has("SupportQoS") {
        keeps := pool.plugin.acceptsQos(value);
      }
    case Metro =>
      if value == "" || !StrToBool(value) {
        return true;
      }
      if pool.parent !in world.cache {
        return false;
      }
      if world.cache[pool.parent].metroPools.None? {
        return false;
      }
      keeps := pool.Has("SupportMetro");
    case Replication =>
      if value == "" || !StrToBool(value) {
        return true;
      }
      if pool.parent !in world.cache || !world.cache[pool.parent].hasReplica {
        return false;
      }
      keeps := pool.Has("SupportReplication");
    case ApplicationType =>
      keeps := true;
      if value != "" {
        keeps := pool.Has("SupportApplicationType");
      }
    case StorageQuota =>
      keeps := value == "" || pool.Has("SupportQuota");
    case Clone =>
      keeps := value == "" || pool.Has("SupportClone");
    case NfsProtocol =>
      keeps := KeepsNfs(value, pool);
  }

  method KeepsVolumeType(volumeType: string, pool: StoragePool) returns (keeps: bool)
    ensures keeps == OffersVolumeType(pool.storage, volumeType)
  {
    keeps := false;
    if volumeType == "lun" || volumeType == "" {
      if pool.storage == "oceanstor-san" || pool.storage == "fusionstorage-san" || pool.storage == "oceandisk-san" {
        keeps := true;
      }
    } else if volumeType == "fs" {
      if pool.storage == "oceanstor-nas" || pool.storage == "oceanstor-9000" || pool.storage == "fusionstorage-nas"
         || pool.storage == "oceanstor-a-series-nas" || pool.storage == "oceanstor-a-series-nas-dme" {
        keeps := true;
      }
    } else if volumeType == "dtree" {
      keeps := pool.storage == "oceanstor-dtree" || pool.storage == "fusionstorage-dtree"
               || pool.storage == "oceanstor-a-series-dtree";
    }
  }

  method KeepsNfs(protocol: string, pool: StoragePool) returns (keeps: bool)
    ensures keeps == (protocol == "" || OffersNfs(pool, protocol))
  {
    if protocol == "" || pool.plugin.isDmeASeries {
      return true;
    }
    keeps := false;
    if protocol == "nfs3" && pool.Has("SupportNFS3") {
      keeps := true;
    } else if protocol == "nfs4" && pool.Has("SupportNFS4") {
      keeps := true;
    } else if protocol == "nfs41" && pool.Has("SupportNFS41") {
      keeps := true;
    } else if protocol == "nfs42" && pool.Has("SupportNFS42") {
      keeps := true;
    }
  }

  function AdmittedBy(kind: Kind, value: string, world: World, pools: seq<StoragePool>): seq<StoragePool> {
    Filter(pools, (p: StoragePool) => Admits(kind, value, world, p))
  }

  /** The filters that are off: they hand the candidates back without looking at them. */
  predicate PassesThrough(kind: Kind, value: string) {
    match kind
    case Qos | StorageQuota | Clone | NfsProtocol => value == ""
    case Metro | Replication => value == "" || !StrToBool(value)
    case _ => false
  }

  /** One filter. Two of them can fail: the QoS filter when it keeps no pool, and the quota filter
      when a pool that supports quotas meets a quota that is not well formed. */
  method RunFilter(kind: Kind, value: string, world: World, pools: seq<StoragePool>)
    returns (r: Result<seq<StoragePool>>)
    ensures r.Ok? ==> r.value == AdmittedBy(kind, value, world, pools)
    ensures r.Err? <==>
              || (kind == Qos && value != "" && AdmittedBy(kind, value, world, pools) == [])
              || (kind == StorageQuota && value != "" && !world.quotaValid(value)
                  && AdmittedBy(kind, value, world, pools) != [])
  {
    ghost var admits := (p: StoragePool) => Admits(kind, value, world, p);
    if PassesThrough(kind, value) {
      FilterAll(pools, admits);
      return Ok(pools);
    }
    var kept := [];
    for k := 0 to |pools|
      invariant kept == AdmittedBy(kind, value, world, pools[..k])
      invariant kind == StorageQuota && kept != [] ==> world.quotaValid(value)
    {
      assert pools[..k + 1][..k] == pools[..k];
      var keeps := Keeps(kind, value, world, pools[k]);
      if keeps {
        if kind == StorageQuota && !world.quotaValid(value) {
          FilterMember(pools, admits, pools[k]);
          return Err;
        }
        kept := kept + [pools[k]];
      }
    }
    assert pools[..|pools|] == pools;
    r := if kind == Qos && kept == [] then Err else Ok(kept);
  }

  // ----- the chain

  predicate RowAdmits(params: Parameters, world: World, row: Row, pool: StoragePool) {
    Admits(row.kind, Value(params, row), world, pool)
  }

  predicate MeetsAll(params: Parameters, world: World, rows: seq<Row>, pool: StoragePool) {
    forall i :: 0 <= i < |rows| ==> RowAdmits(params, world, rows[i], pool)
  }

  predicate RowQuotaValid(params: Parameters, world: World, row: Row) {
    row.kind == StorageQuota ==> Value(params, row) == "" || world.quotaValid(Value(params, row))
  }

  predicate QuotasValid(params: Parameters, world: World, rows: seq<Row>) {
    forall i :: 0 <= i < |rows| ==> RowQuotaValid(params, world, rows[i])
  }

  function MeetingAll(params: Parameters, world: World, rows: seq<Row>, pools: seq<StoragePool>): seq<StoragePool> {
    Filter(pools, (p: StoragePool) => MeetsAll(params, world, rows, p))
  }

  /** What the chain amounts to, whatever order it runs in: the pools that meet every row, in their
      old order; an error if there is no such pool or a quota is not well formed. */
  function Selected(params: Parameters, world: World, rows: seq<Row>, pools: seq<StoragePool>): Result<seq<StoragePool>> {
    if rows == [] then Ok(pools)
    else if MeetingAll(params, world, rows, pools) == [] || !QuotasValid(params, world, rows) then Err
    else Ok(MeetingAll(params, world, rows, pools))
  }

  lemma MeetingAllMember(params: Parameters, world: World, rows: seq<Row>, pools: seq<StoragePool>, p: StoragePool)
    ensures p in MeetingAll(params, world, rows, pools) <==> p in pools && MeetsAll(params, world, rows, p)
  {
    FilterMember(pools, (q: StoragePool) => MeetsAll(params, world, rows, q), p);
  }

  lemma OneMoreRow(params: Parameters, world: World, rows: seq<Row>, pools: seq<StoragePool>, k: nat)
    requires k < |rows|
    ensures AdmittedBy(rows[k].kind, Value(params, rows[k]), world, MeetingAll(params, world, rows[..k], pools))
            == MeetingAll(params, world, rows[..k + 1], pools)
  {
    assert rows[..k + 1] == rows[..k] + [rows[k]];
    FilterTwice(pools, (p: StoragePool) => MeetsAll(params, world, rows[..k], p),
                (p: StoragePool) => Admits(rows[k].kind, Value(params, rows[k]), world, p),
                (p: StoragePool) => MeetsAll(params, world, rows[..k + 1], p));
  }

  /** Once a prefix of the rows leaves no pool, neither do all the rows. */
  lemma NoneLeft(params: Parameters, world: World, rows: seq<Row>, pools: seq<StoragePool>, k: nat)
    requires k <= |rows| && MeetingAll(params, world, rows[..k], pools) == []
    ensures MeetingAll(params, world, rows, pools) == []
  {
    var all := MeetingAll(params, world, rows, pools);
    if all != [] {
      MeetingAllMember(params, world, rows, pools, all[0]);
      MeetingAllMember(params, world, rows[..k], pools, all[0]);
      assert false;
    }
  }

  /** A row that leaves no pool, or has a malformed quota, decides the outcome. */
  lemma RowDecides(params: Parameters, world: World, rows: seq<Row>, pools: seq<StoragePool>, k: nat)
    requires k < |rows|
    requires MeetingAll(params, world, rows[..k + 1], pools) == [] || !RowQuotaValid(params, world, rows[k])
    ensures Selected(params, world, rows, pools).Err?
  {
    if MeetingAll(params, world, rows[..k + 1], pools) == [] {
      NoneLeft(params, world, rows, pools, k + 1);
    }
  }

  /** One more filter of the chain. */
  method RunRow(params: Parameters, world: World, rows: seq<Row>, k: nat, ghost pools: seq<StoragePool>,
                candidates: seq<StoragePool>)
    returns (r: Result<seq<StoragePool>>)
    requires k < |rows| && candidates == MeetingAll(params, world, rows[..k], pools)
    ensures r.Err? ==> Selected(params, world, rows, pools).Err?
    ensures r.Ok? ==> r.value == MeetingAll(params, world, rows[..k + 1], pools) && r.value != []
    ensures r.Ok? ==> RowQuotaValid(params, world, rows[k])
  {
    r := RunFilter(rows[k].kind, Value(params, rows[k]), world, candidates);
    OneMoreRow(params, world, rows, pools, k);
    if r.Err? || r.value == [] {
      RowDecides(params, world, rows, pools, k);
      return Err;
    }
  }

  /** `FilterByCapability`: run the filters in turn, and stop at the first that fails or keeps nothing. */
  method FilterByCapability(params: Parameters, world: World, rows: seq<Row>, pools: seq<StoragePool>)
    returns (r: Result<seq<StoragePool>>)
    ensures r == Selected(params, world, rows, pools)
  {
    var candidates := pools;
    FilterAll(pools, (p: StoragePool) => MeetsAll(params, world, [], p));
    for k := 0 to |rows|
      invariant candidates == MeetingAll(params, world, rows[..k], pools)
      invariant k == 0 ==> candidates == pools
      invariant k > 0 ==> candidates != []
      invariant forall i :: 0 <= i < k ==> RowQuotaValid(params, world, rows[i])
    {
      var kept := RunRow(params, world, rows, k, pools, candidates);
      if kept.Err? {
        return Err;
      }
      candidates := kept.value;
    }
    assert rows[..|rows|] == rows;
    r := Ok(candidates);
  }

  // ----- what a storage class asks for

  predicate Asks(params: Parameters, key: string) { key in params && params[key] != "" }

  /** The parameter is there and says true. */
  predicate Turned(params: Parameters, key: string) {
    key in params && params[key] in {"1", "t", "T", "true", "True", "TRUE"}
  }

  /** The parameters that name the pool, its backend or its kind of storage are met. */
  predicate NamesMet(params: Parameters, pool: StoragePool) {
    && (Asks(params, "backend") ==> pool.parent == params["backend"])
    && (Asks(params, "pool") ==> pool.name == params["pool"])
  }

  predicate KindMet(params: Parameters, pool: StoragePool) {
    && (!Asks(params, "volumeType") ==> pool.storage in {"oceanstor-san", "fusionstorage-san", "oceandisk-san"})
    && (Asks(params, "volumeType") ==>
          || (params["volumeType"] == "lun" && pool.storage in {"oceanstor-san", "fusionstorage-san", "oceandisk-san"})
          || (params["volumeType"] == "dtree"
              && pool.storage in {"oceanstor-dtree", "fusionstorage-dtree", "oceanstor-a-series-dtree"})
          || (params["volumeType"] == "fs"
              && pool.storage in {"oceanstor-nas", "oceanstor-9000", "fusionstorage-nas", "oceanstor-a-series-nas",
                                  "oceanstor-a-series-nas-dme"}))
  }

  predicate AllocMet(params: Parameters, pool: StoragePool) {
    pool.storage != "oceanstor-9000" ==>
      if Asks(params, "allocType") && params["allocType"] != "thin"
      then params["allocType"] == "thick" && pool.Has("SupportThick") else pool.Has("SupportThin")
  }

  /** Each service asked for has its capability, and what else it needs. */
  predicate ServicesMet(params: Parameters, world: World, pool: StoragePool) {
    && (Asks(params, "qos") ==> pool.Has("SupportQoS") && pool.plugin.acceptsQos(params["qos"]))
    && (Turned(params, "replication") ==>
          pool.parent in world.cache && world.cache[pool.parent].hasReplica && pool.Has("SupportReplication"))
    && (Asks(params, "applicationType") ==> pool.Has("SupportApplicationType"))
  }

  predicate OtherServicesMet(params: Parameters, world: World, pool: StoragePool) {
    && (Turned(params, "hyperMetro") ==>
          pool.parent in world.cache && world.cache[pool.parent].metroPools.Some? && pool.Has("SupportMetro"))
    && (Asks(params, "storageQuota") ==> pool.Has("SupportQuota"))
    && (Asks(params, "sourceVolumeName") || Asks(params, "sourceSnapshotName") ==> pool.Has("SupportClone"))
  }

  predicate NfsMet(params: Parameters, pool: StoragePool) {
    Asks(params, "nfsProtocol") && !pool.plugin.isDmeASeries ==>
      && params["nfsProtocol"] in {"nfs3", "nfs4", "nfs41", "nfs42"}
      && (params["nfsProtocol"] == "nfs3" ==> pool.Has("SupportNFS3"))
      && (params["nfsProtocol"] == "nfs4" ==> pool.Has("SupportNFS4"))
      && (params["nfsProtocol"] == "nfs41" ==> pool.Has("SupportNFS41"))
      && (params["nfsProtocol"] == "nfs42" ==> pool.Has("SupportNFS42"))
  }

  lemma KindRow(params: Parameters, world: World, pool: StoragePool)
    ensures RowAdmits(params, world, Row("volumeType", VolumeType), pool) <==> KindMet(params, pool)
  {
  }

  lemma AllocRow(params: Parameters, world: World, pool: StoragePool)
    ensures RowAdmits(params, world, Row("allocType", AllocType), pool) <==> AllocMet(params, pool)
  {
  }

  lemma NfsRow(params: Parameters, world: World, pool: StoragePool)
    ensures RowAdmits(params, world, Row("nfsProtocol", NfsProtocol), pool) <==> NfsMet(params, pool)
  {
  }

  lemma NameRows(params: Parameters, world: World, pool: StoragePool)
    ensures NamesMet(params, pool) <==>
              && RowAdmits(params, world, Row("backend", BackendName), pool)
              && RowAdmits(params, world, Row("pool", PoolName), pool)
  {
  }

  lemma ServiceRows(params: Parameters, world: World, pool: StoragePool)
    ensures ServicesMet(params, world, pool) <==>
              && RowAdmits(params, world, Row("qos", Qos), pool)
              && RowAdmits(params, world, Row("replication", Replication), pool)
              && RowAdmits(params, world, Row("applicationType", ApplicationType), pool)
  {
  }

  lemma OtherServiceRows(params: Parameters, world: World, pool: StoragePool)
    ensures OtherServicesMet(params, world, pool) <==>
              && RowAdmits(params, world, Row("hyperMetro", Metro), pool)
              && RowAdmits(params, world, Row("storageQuota", StorageQuota), pool)
              && RowAdmits(params, world, Row("sourceVolumeName", Clone), pool)
              && RowAdmits(params, world, Row("sourceSnapshotName", Clone), pool)
  {
  }

  lemma MeetsAllParts(params: Parameters, world: World, xs: seq<Row>, ys: seq<Row>, pool: StoragePool)
    ensures MeetsAll(params, world, xs + ys, pool) <==> MeetsAll(params, world, xs, pool) && MeetsAll(params, world, ys, pool)
  {
    forall i | 0 <= i < |ys| ensures (xs + ys)[|xs| + i] == ys[i] {}
    if MeetsAll(params, world, xs + ys, pool) {
      forall i | 0 <= i < |xs| ensures RowAdmits(params, world, xs[i], pool) { assert (xs + ys)[i] == xs[i]; }
      forall i | 0 <= i < |ys| ensures RowAdmits(params, world, ys[i], pool) { assert (xs + ys)[|xs| + i] == ys[i]; }
    }
  }

  /** A pool passes the secondary table exactly when its kind, its allocation and these services are met. */
  lemma SecondaryMeaning(params: Parameters, world: World, pool: StoragePool)
    ensures MeetsAll(params, world, SECONDARY, pool) <==>
              KindMet(params, pool) && AllocMet(params, pool) && ServicesMet(params, world, pool)
  {
    KindRow(params, world, pool);
    AllocRow(params, world, pool);
    ServiceRows(params, world, pool);
    assert SECONDARY[0] == Row("volumeType", VolumeType) && SECONDARY[1] == Row("allocType", AllocType);
    assert SECONDARY[2] == Row("qos", Qos) && SECONDARY[3] == Row("replication", Replication);
    assert SECONDARY[4] == Row("applicationType", ApplicationType);
  }

  /** It passes the primary table when the names and the other services are met too: so each parameter goes
      to its own filter, and none is left out. */
  lemma PrimaryMeaning(params: Parameters, world: World, pool: StoragePool)
    ensures MeetsAll(params, world, PRIMARY, pool) <==>
              && KindMet(params, pool) && AllocMet(params, pool) && ServicesMet(params, world, pool)
              && NamesMet(params, pool) && OtherServicesMet(params, world, pool) && NfsMet(params, pool)
  {
    var others := [Row("backend", BackendName), Row("pool", PoolName), Row("hyperMetro", Metro),
                   Row("storageQuota", StorageQuota), Row("sourceVolumeName", Clone), Row("sourceSnapshotName", Clone),
                   Row("nfsProtocol", NfsProtocol)];
    assert SameRows(PRIMARY, SECONDARY + others) by {
      assert SECONDARY + others
          == [PRIMARY[2], PRIMARY[3], PRIMARY[4], PRIMARY[6], PRIMARY[7], PRIMARY[0], PRIMARY[1], PRIMARY[5], PRIMARY[8],
              PRIMARY[9], PRIMARY[10], PRIMARY[11]];
    }
    if MeetsAll(params, world, PRIMARY, pool) { MeetsSame(params, world, PRIMARY, SECONDARY + others, pool); }
    if MeetsAll(params, world, SECONDARY + others, pool) { MeetsSame(params, world, SECONDARY + others, PRIMARY, pool); }
    MeetsAllParts(params, world, SECONDARY, others, pool);
    SecondaryMeaning(params, world, pool);
    NameRows(params, world, pool);
    OtherServiceRows(params, world, pool);
    NfsRow(params, world, pool);
    OthersMeaning(params, world, others, pool);
  }

  lemma OthersMeaning(params: Parameters, world: World, rows: seq<Row>, pool: StoragePool)
    requires rows == [Row("backend", BackendName), Row("pool", PoolName), Row("hyperMetro", Metro),
                      Row("storageQuota", StorageQuota), Row("sourceVolumeName", Clone), Row("sourceSnapshotName", Clone),
                      Row("nfsProtocol", NfsProtocol)]
    ensures MeetsAll(params, world, rows, pool) <==>
              && RowAdmits(params, world, Row("backend", BackendName), pool)
              && RowAdmits(params, world, Row("pool", PoolName), pool)
              && RowAdmits(params, world, Row("hyperMetro", Metro), pool)
              && RowAdmits(params, world, Row("storageQuota", StorageQuota), pool)
              && RowAdmits(params, world, Row("sourceVolumeName", Clone), pool)
              && RowAdmits(params, world, Row("sourceSnapshotName", Clone), pool)
              && RowAdmits(params, world, Row("nfsProtocol", NfsProtocol), pool)
  {
    assert rows[0] == Row("backend", BackendName) && rows[1] == Row("pool", PoolName);
    assert rows[2] == Row("hyperMetro", Metro) && rows[3] == Row("storageQuota", StorageQuota);
    assert rows[4] == Row("sourceVolumeName", Clone) && rows[5] == Row("sourceSnapshotName", Clone);
    assert rows[6] == Row("nfsProtocol", NfsProtocol);
  }

  ghost predicate SameRows(rows: seq<Row>, others: seq<Row>) {
    forall row :: row in rows <==> row in others
  }

  lemma MeetsSame(params: Parameters, world: World, rows: seq<Row>, others: seq<Row>, p: StoragePool)
    requires SameRows(rows, others) && MeetsAll(params, world, rows, p)
    ensures MeetsAll(params, world, others, p)
  {
    forall i | 0 <= i < |others| ensures RowAdmits(params, world, others[i], p) {
      assert others[i] in rows;
    }
  }

  lemma QuotasSame(params: Parameters, world: World, rows: seq<Row>, others: seq<Row>)
    requires SameRows(rows, others) && QuotasValid(params, world, rows)
    ensures QuotasValid(params, world, others)
  {
    forall i | 0 <= i < |others| ensures RowQuotaValid(params, world, others[i]) {
      assert others[i] in rows;
    }
  }

  /** The order of a filter table, and rows given twice, make no difference to the outcome. */
  lemma OrderOfRowsIsIrrelevant(params: Parameters, world: World, rows: seq<Row>, others: seq<Row>, pools: seq<StoragePool>)
    requires SameRows(rows, others)
    ensures Selected(params, world, rows, pools) == Selected(params, world, others, pools)
  {
    assert rows != [] ==> rows[0] in others;
    assert others != [] ==> others[0] in rows;
    forall p | p in pools ensures MeetsAll(params, world, rows, p) == MeetsAll(params, world, others, p) {
      if MeetsAll(params, world, rows, p) { MeetsSame(params, world, rows, others, p); }
      if MeetsAll(params, world, others, p) { MeetsSame(params, world, others, rows, p); }
    }
    FilterSame(pools, (p: StoragePool) => MeetsAll(params, world, rows, p),
               (p: StoragePool) => MeetsAll(params, world, others, p));
    if QuotasValid(params, world, rows) { QuotasSame(params, world, rows, others); }
    if QuotasValid(params, world, others) { QuotasSame(params, world, others, rows); }
  }

  /** Filtering again by a table whose rows were all in the first one changes nothing: the secondary
      table is such a part of the primary one. */
  lemma PartOfTableKeepsAll(params: Parameters, world: World, rows: seq<Row>, part: seq<Row>, pools: seq<StoragePool>)
    requires forall row :: row in part ==> row in rows
    requires Selected(params, world, rows, pools).Ok?
    ensures Selected(params, world, part, Selected(params, world, rows, pools).value) == Selected(params, world, rows, pools)
  {
    var kept := Selected(params, world, rows, pools).value;
    if part != [] {
      assert part[0] in rows;
      forall p | p in kept ensures MeetsAll(params, world, part, p) {
        MeetingAllMember(params, world, rows, pools, p);
        forall i | 0 <= i < |part| ensures RowAdmits(params, world, part[i], p) {
          assert part[i] in rows;
        }
      }
      FilterAll(kept, (p: StoragePool) => MeetsAll(params, world, part, p));
      forall i | 0 <= i < |part| ensures RowQuotaValid(params, world, part[i]) {
        assert part[i] in rows;
      }
    }
  }
}
