/** Selecting a local and a remote pool and charging them: `SelectPoolPair` of
    csi/backend/handler/backend_selector.go with `WeightPools` and `updateSelectPool` of
    csi/backend/backend.go. What a selection does to the free capacities of all pools is a placement in
    the sense of module CapacityAccounting, and serving requests one after the other is a run there. */
module PairSelection {
  import opened Basics
  import opened CapabilityFilters
  import opened CapacityAccounting
  import opened PoolSelection
  import opened Strconv
  import opened StoragePools

  // ----- charging

  /** A local pool and the remote pool chosen for it, if any. */
  datatype Pair = Pair(local: StoragePool, remote: StoragePool?)

  lemma FormattedFree(free: int, size: int)
    ensures ParseIntOrZero(FormatInt(After(free, size))) == After(free, size)
  {
    IntRoundTrip(After(free, size));
  }

  /** `updateSelectPool`: a thick request is charged, any other is not. */
  method UpdateSelectPool(size: int, allocType: string, pool: StoragePool?)
    modifies pool
    ensures pool != null ==> pool.Free() == if allocType == "thick" then After(old(pool.Free()), size) else old(pool.Free())
    ensures pool != null ==> forall key :: key != "FreeCapacity" ==>
              (key in pool.capacities <==> key in old(pool.capacities))
              && (key in pool.capacities ==> pool.capacities[key] == old(pool.capacities[key]))
  {
    if pool == null {
      return;
    }
    if allocType == "thick" {
      FormattedFree(pool.Free(), size);
      pool.capacities := pool.capacities[FREE := FormatInt(After(pool.Free(), size))];
    }
  }

  ghost function PoolsOf(pairs: seq<Pair>): set<StoragePool> {
    (set i | 0 <= i < |pairs| :: pairs[i].local)
    + (set i | 0 <= i < |pairs| && pairs[i].remote != null :: pairs[i].remote as StoragePool)
  }

  /** The free capacity of `p` once `pair` is charged to a pool that had `free`. */
  function Charged(free: int, size: int, allocType: string, pair: Pair, p: StoragePool): int {
    if allocType != "thick" then free
    else
      var once := if p == pair.local then After(free, size) else free;
      if p == pair.remote then After(once, size) else once
  }

  /** `WeightPools`: the pair of the best local pool, charged once for each of its two sides, and no
      other pool touched. A pool that is both sides of the pair is charged twice. */
  method WeightPools(size: int, allocType: string, locals: seq<StoragePool>, pairs: seq<Pair>)
    returns (r: Result<Pair>)
    modifies PoolsOf(pairs)
    ensures r.Ok? ==>
              && r.value in pairs && r.value.local in locals
              && (forall p :: p in locals ==> old(p.Free()) <= old(r.value.local.Free()))
              && forall p :: p in PoolsOf(pairs) ==> p.Free() == Charged(old(p.Free()), size, allocType, r.value, p)
    ensures r.Err? ==>
              && (forall p :: p in PoolsOf(pairs) ==> unchanged(p))
              && (locals == [] || exists best :: best in locals && IsLargest(locals, best)
                                                && forall i :: 0 <= i < |pairs| ==> pairs[i].local != best)
  {
    var best, at := WeightByFreeCapacity(locals);
    if best == null {
      return Err;
    }
    assert best in locals;
    for i := 0 to |pairs|
      invariant forall p :: p in PoolsOf(pairs) ==> unchanged(p)
      invariant forall j :: 0 <= j < i ==> pairs[j].local != best
    {
      if pairs[i].local == best {
        var pair := pairs[i];
        assert pair.local in PoolsOf(pairs);
        assert pair.remote != null ==> pair.remote in PoolsOf(pairs);
        UpdateSelectPool(size, allocType, pair.local);
        UpdateSelectPool(size, allocType, pair.remote);
        return Ok(pair);
      }
    }
    assert IsLargest(locals, best);
    return Err;
  }

  ghost predicate IsLargest(pools: seq<StoragePool>, best: StoragePool)
    reads pools, best
  {
    forall p :: p in pools ==> p.Free() <= best.Free()
  }

  // ----- the remote pool

  predicate WantsMetro(request: Request) { StrToBool(Parameter(request.params, "hyperMetro")) }
  predicate WantsReplica(request: Request) { StrToBool(Parameter(request.params, "replication")) }

  /** The pools among which the remote pool of a volume in backend `name` is looked for: none at all
      for a plain volume, those of the metro backend, or, for a replicated volume, those of the backend
      itself. */
  function RemoteCandidates(request: Request, cache: Cache, name: string): Result<Option<seq<StoragePool>>> {
    if WantsMetro(request) && WantsReplica(request) then Err
    else if WantsMetro(request) then
      if name !in cache || cache[name].metroPools.None? then Err else Ok(Some(cache[name].metroPools.value))
    else if WantsReplica(request) then
      if name !in cache then Ok(Some([]))
      else if !cache[name].hasReplica then Err else Ok(Some(cache[name].pools))
    else Ok(None)
  }

  /** Looking for the remote pool of a volume in backend `name` ends in an error. */
  ghost predicate RemoteFails(request: Request, world: World, name: string) {
    match RemoteCandidates(request, world.cache, name)
    case Err => true
    case Ok(None) => false
    case Ok(Some(candidates)) => forall p :: p in candidates ==> !Admissible(request, world, SECONDARY, p)
  }

  function RemotePools(request: Request, cache: Cache, name: string): seq<StoragePool> {
    match RemoteCandidates(request, cache, name)
    case Ok(Some(pools)) => pools
    case _ => []
  }

  /** `remote` is what the search gives: no pool for a plain volume, or if no admissible pool has room;
      otherwise a best one. */
  ghost predicate IsRemote(request: Request, world: World, name: string, remote: StoragePool?)
    reads RemotePools(request, world.cache, name), remote
  {
    var pools := RemotePools(request, world.cache, name);
    && RemoteCandidates(request, world.cache, name).Ok?
    && if remote == null then forall p :: p in pools ==> !Eligible(request, world, SECONDARY, pools, p)
       else IsBest(request, world, SECONDARY, pools, remote)
  }

  lemma SecondaryHasNoQuota(params: Parameters, world: World)
    ensures QuotasValid(params, world, SECONDARY)
  {
  }

  /** `SelectRemotePool` of the selector. */
  method SelectRemotePool(request: Request, world: World, name: string, pick: (nat, nat) -> nat)
    returns (r: Result<StoragePool?>)
    ensures r.Err? <==> RemoteFails(request, world, name)
    ensures r.Ok? ==> IsRemote(request, world, name, r.value)
  {
    SecondaryHasNoQuota(request.params, world);
    if WantsMetro(request) && WantsReplica(request) {
      return Err;
    }
    var pools: seq<StoragePool> := [];
    if WantsMetro(request) {
      if name !in world.cache || world.cache[name].metroPools.None? {
        return Err;
      }
      pools := world.cache[name].metroPools.value;
    } else if WantsReplica(request) {
      if name in world.cache {
        if !world.cache[name].hasReplica {
          return Err;
        }
        pools := world.cache[name].pools;
      }
    } else {
      return Ok(null);
    }
    var filtered := FilterPool(request, world, SECONDARY, pools, pick);
    if filtered.Err? {
      return Err;
    }
    var best := PickBest(request, world, SECONDARY, pools, filtered.value);
    if best == null {
      forall p | p in pools ensures !Eligible(request, world, SECONDARY, pools, p) {
        assert p !in filtered.value;
      }
    }
    r := Ok(best);
  }

  // ----- the pair

  /** For a DTree volume whose storage class names no parent, the plugin has to know one. */
  predicate DtreeAllows(request: Request, p: StoragePool) {
    Parameter(request.params, "volumeType") == "dtree" && Parameter(request.params, "parentname") == "" ==>
      p.plugin.dtreeParent != ""
  }

  /** `selectDtreePool`. */
  method SelectDtreePool(request: Request, pools: seq<StoragePool>) returns (r: Result<seq<StoragePool>>)
    ensures r.Ok? ==> forall p :: p in r.value <==> p in pools && DtreeAllows(request, p)
    ensures r.Err? <==>
              && Parameter(request.params, "volumeType") == "dtree" && Parameter(request.params, "parentname") == ""
              && forall p :: p in pools ==> p.plugin.dtreeParent == ""
  {
    if Parameter(request.params, "volumeType") != "dtree" {
      return Ok(pools);
    }
    if Parameter(request.params, "parentname") != "" {
      return Ok(pools);
    }
    var kept: seq<StoragePool> := [];
    for k := 0 to |pools|
      invariant forall p :: p in kept <==> p in pools[..k] && DtreeAllows(request, p)
    {
      assert pools[..k + 1] == pools[..k] + [pools[k]];
      if pools[k].plugin.dtreeParent != "" {
        kept := kept + [pools[k]];
      }
    }
    assert pools[..|pools|] == pools;
    if kept == [] {
      forall p | p in pools ensures p.plugin.dtreeParent == "" { assert p !in kept; }
      return Err;
    }
    assert kept[0] in kept;
    r := Ok(kept);
  }

  // ----- on a ledger of all pools

  /** All the pools that a selection may look at. */
  ghost predicate Within(cache: Cache, candidates: seq<StoragePool>, all: set<StoragePool>) {
    && (forall p :: p in candidates ==> p in all)
    && forall b :: b in cache ==>
         && (forall p :: p in cache[b].pools ==> p in all)
         && (cache[b].metroPools.Some? ==> forall p :: p in cache[b].metroPools.value ==> p in all)
  }

  lemma RemotePoolsWithin(request: Request, cache: Cache, name: string, candidates: seq<StoragePool>, all: set<StoragePool>)
    requires Within(cache, candidates, all)
    ensures forall p :: p in RemotePools(request, cache, name) ==> p in all
  {
  }

  ghost function LedgerOf(all: set<StoragePool>): Ledger<StoragePool>
    reads all
  {
    map p | p in all :: p.Free()
  }

  /** `Fits`, with the free capacity taken from a ledger. */
  predicate FitsIn(free: Ledger<StoragePool>, request: Request, p: StoragePool) {
    || ((AllocTypeOf(request) == "thin" || AllocTypeOf(request) == "") && p.Has("SupportThin"))
    || (AllocTypeOf(request) == "thick" && p.Has("SupportThick") && p in free && request.size <= free[p])
  }

  /** A pool that a volume can be placed in locally. */
  predicate IsLocal(free: Ledger<StoragePool>, request: Request, world: World, p: StoragePool) {
    Admissible(request, world, PRIMARY, p) && FitsIn(free, request, p) && DtreeAllows(request, p)
  }

  predicate CanBeRemote(free: Ledger<StoragePool>, request: Request, world: World, p: StoragePool) {
    Admissible(request, world, SECONDARY, p) && FitsIn(free, request, p)
  }

  /** `remote` is what the search for a volume in backend `name` gives: no pool for a plain volume, or if
      no admissible pool has room; otherwise a pool with the most free capacity. */
  ghost predicate IsRemoteOf(free: Ledger<StoragePool>, request: Request, world: World, name: string, remote: StoragePool?) {
    var pools := RemotePools(request, world.cache, name);
    && RemoteCandidates(request, world.cache, name).Ok?
    && if remote == null then forall p :: p in pools ==> !CanBeRemote(free, request, world, p)
       else && remote in pools && remote in free && CanBeRemote(free, request, world, remote)
            && forall p :: p in pools && p in free && CanBeRemote(free, request, world, p) ==>
                 IsNoBetter(free, request, world.cache, p, remote)
  }

  /** `p` has less free capacity than `best`, or as much and is not preferred to it. */
  ghost predicate IsNoBetter(free: Ledger<StoragePool>, request: Request, cache: Cache, p: StoragePool, best: StoragePool)
    requires p in free && best in free
  {
    || free[p] < free[best]
    || (&& free[p] == free[best]
        && (AsksSomething(request.topology) ==>
              Preference(cache, request.topology.preferred, best) <= Preference(cache, request.topology.preferred, p)))
  }

  lemma RemoteOnLedger(request: Request, world: World, name: string, remote: StoragePool?, all: set<StoragePool>)
    requires IsRemote(request, world, name, remote)
    requires forall p :: p in RemotePools(request, world.cache, name) ==> p in all
    ensures IsRemoteOf(LedgerOf(all), request, world, name, remote)
  {
  }

  function PlacementOf(request: Request, pair: Pair): Placement<StoragePool> {
    var remote: Option<StoragePool> := if pair.remote == null then None else Some(pair.remote);
    Placement(pair.local, remote, request.size, AllocTypeOf(request) == "thick")
  }

  /** What `WeightPools` does to each pool is the placement applied to the ledger. */
  lemma ChargedIsApplied(request: Request, pair: Pair, free: Ledger<StoragePool>, p: StoragePool)
    requires Known(free, PlacementOf(request, pair)) && p in free
    ensures p in Apply(free, PlacementOf(request, pair))
    ensures Apply(free, PlacementOf(request, pair))[p] == Charged(free[p], request.size, AllocTypeOf(request), pair, p)
  {
  }

  /** A pair that may be chosen. */
  ghost predicate IsPair(free: Ledger<StoragePool>, request: Request, world: World, pair: Pair) {
    && pair.local in free && IsLocal(free, request, world, pair.local)
    && IsRemoteOf(free, request, world, pair.local.parent, pair.remote)
  }

  /** Both sides of such a pair have passed the capacity check. */
  lemma PairIsAdmitted(free: Ledger<StoragePool>, request: Request, world: World, pair: Pair)
    requires IsPair(free, request, world, pair)
    ensures Admitted(free, PlacementOf(request, pair))
  {
  }

  /** Where the remote pool of a pair comes from, by the parameters of the storage class: a plain volume has
      none; with "hyperMetro" it is a pool of the backend's metro backend, and with "replication" one of the
      backend itself, which has to have a replica backend; with both there is no pair. */
  lemma RemoteByParameters(free: Ledger<StoragePool>, request: Request, world: World, pair: Pair)
    requires IsPair(free, request, world, pair)
    ensures !(Turned(request.params, "hyperMetro") && Turned(request.params, "replication"))
    ensures !Turned(request.params, "hyperMetro") && !Turned(request.params, "replication") ==> pair.remote == null
    ensures Turned(request.params, "hyperMetro") ==>
              && pair.local.parent in world.cache && world.cache[pair.local.parent].metroPools.Some?
              && (pair.remote != null ==> pair.remote in world.cache[pair.local.parent].metroPools.value)
    ensures Turned(request.params, "replication") && pair.local.parent in world.cache ==>
              && world.cache[pair.local.parent].hasReplica
              && (pair.remote != null ==> pair.remote in world.cache[pair.local.parent].pools)
  {
    assert WantsMetro(request) <==> Turned(request.params, "hyperMetro");
    assert WantsReplica(request) <==> Turned(request.params, "replication");
  }

  /** The search for one remote pool, on the ledger. */
  method FindRemote(request: Request, world: World, name: string, pick: (nat, nat) -> nat,
                    ghost candidates: seq<StoragePool>, ghost all: set<StoragePool>)
    returns (r: Result<StoragePool?>)
    requires Within(world.cache, candidates, all)
    ensures r.Err? <==> RemoteFails(request, world, name)
    ensures r.Ok? ==> IsRemoteOf(LedgerOf(all), request, world, name, r.value)
  {
    r := SelectRemotePool(request, world, name, pick);
    if r.Ok? {
      RemotePoolsWithin(request, world.cache, name, candidates, all);
      RemoteOnLedger(request, world, name, r.value, all);
    }
  }

  /** Looks for the remote pool of each local one. */
  method PairUp(request: Request, world: World, locals: seq<StoragePool>, pick: (nat, nat, nat) -> nat,
                ghost candidates: seq<StoragePool>, ghost all: set<StoragePool>)
    returns (r: Result<seq<Pair>>)
    requires Within(world.cache, candidates, all)
    ensures r.Err? <==> exists p :: p in locals && RemoteFails(request, world, p.parent)
    ensures r.Ok? ==>
              && |r.value| == |locals|
              && forall i :: 0 <= i < |locals| ==>
                   && r.value[i].local == locals[i]
                   && IsRemoteOf(LedgerOf(all), request, world, locals[i].parent, r.value[i].remote)
  {
    var pairs: seq<Pair> := [];
    ghost var free := LedgerOf(all);
    for k := 0 to |locals|
      invariant |pairs| == k && LedgerOf(all) == free
      invariant forall i :: 0 <= i < k ==> !RemoteFails(request, world, locals[i].parent)
      invariant forall i :: 0 <= i < k ==>
                  pairs[i].local == locals[i] && IsRemoteOf(free, request, world, locals[i].parent, pairs[i].remote)
    {
      var remote := FindRemote(request, world, locals[k].parent, (i, j) => pick(k, i, j), candidates, all);
      if remote.Err? {
        assert locals[k] in locals;
        return Err;
      }
      pairs := pairs + [Pair(locals[k], remote.value)];
    }
    r := Ok(pairs);
  }

  datatype Choice = Choice(locals: seq<StoragePool>, pairs: seq<Pair>)

  /** The selector refuses the request. */
  ghost predicate Refuses(free: Ledger<StoragePool>, request: Request, world: World, candidates: seq<StoragePool>) {
    || !QuotasValid(request.params, world, PRIMARY)
    || (forall p :: p in candidates ==> !IsLocal(free, request, world, p))
    || exists p :: p in candidates && IsLocal(free, request, world, p) && RemoteFails(request, world, p.parent)
  }

  /** The selector up to the weighing: the local pools and their pairs. */
  method ChoosePairs(request: Request, world: World, candidates: seq<StoragePool>, pick: (nat, nat) -> nat,
                     remotePick: (nat, nat, nat) -> nat, ghost all: set<StoragePool>)
    returns (r: Result<Choice>)
    requires Within(world.cache, candidates, all)
    ensures r.Err? ==> Refuses(LedgerOf(all), request, world, candidates)
    ensures r.Ok? && r.value.locals != [] ==> !Refuses(LedgerOf(all), request, world, candidates)
    ensures r.Ok? ==>
              && (forall p :: p in r.value.locals <==> p in candidates && IsLocal(LedgerOf(all), request, world, p))
              && |r.value.pairs| == |r.value.locals|
              && forall i :: 0 <= i < |r.value.pairs| ==>
                   && r.value.pairs[i].local == r.value.locals[i]
                   && IsPair(LedgerOf(all), request, world, r.value.pairs[i])
  {
    if candidates == [] {
      return Err;
    }
    var filtered := FilterPool(request, world, PRIMARY, candidates, pick);
    if filtered.Err? {
      return Err;
    }
    var locals := SelectDtreePool(request, filtered.value);
    if locals.Err? {
      return Err;
    }
    forall p | p in candidates || p in locals.value
      ensures p in locals.value <==> p in candidates && IsLocal(LedgerOf(all), request, world, p)
    {
      assert p in candidates ==> p in all;
    }
    var pairs := PairUp(request, world, locals.value, remotePick, candidates, all);
    if pairs.Err? {
      return Err;
    }
    forall i | 0 <= i < |pairs.value| ensures IsPair(LedgerOf(all), request, world, pairs.value[i]) {
      assert locals.value[i] in locals.value;
    }
    if locals.value != [] {
      assert locals.value[0] in locals.value;
    }
    r := Ok(Choice(locals.value, pairs.value));
  }

  lemma PairsWithin(free: Ledger<StoragePool>, request: Request, world: World, pairs: seq<Pair>,
                    candidates: seq<StoragePool>, all: set<StoragePool>)
    requires free.Keys == all && forall i :: 0 <= i < |pairs| ==> IsPair(free, request, world, pairs[i])
    ensures PoolsOf(pairs) <= all
  {
  }

  /** `SelectPoolPair`, on all the pools there are. A pair is selected unless a quota is malformed, no pool
      can take the volume, or the search for a remote pool fails for one that can. The local pool is one
      that can take the volume and none of those has more free capacity; the remote pool is what the
      search gives; both have passed their checks; and the ledger of all pools changes by exactly this
      placement. */
  method SelectPoolPair(request: Request, world: World, candidates: seq<StoragePool>, pick: (nat, nat) -> nat,
                        remotePick: (nat, nat, nat) -> nat, ghost all: set<StoragePool>)
    returns (r: Result<Pair>)
    requires Within(world.cache, candidates, all)
    modifies all
    ensures r.Err? <==> Refuses(old(LedgerOf(all)), request, world, candidates)
    ensures r.Err? ==> LedgerOf(all) == old(LedgerOf(all))
    ensures r.Ok? ==>
              && r.value.local in candidates && IsPair(old(LedgerOf(all)), request, world, r.value)
              && (forall p :: p in candidates && IsLocal(old(LedgerOf(all)), request, world, p) && p in old(LedgerOf(all)) ==>
                    old(LedgerOf(all))[p] <= old(LedgerOf(all))[r.value.local])
    ensures r.Ok? ==>
              && Admitted(old(LedgerOf(all)), PlacementOf(request, r.value))
              && LedgerOf(all) == Apply(old(LedgerOf(all)), PlacementOf(request, r.value))
  {
    ghost var free := LedgerOf(all);
    var choice := ChoosePairs(request, world, candidates, pick, remotePick, all);
    if choice.Err? {
      return Err;
    }
    PairsWithin(free, request, world, choice.value.pairs, candidates, all);
    r := WeighAndCharge(request, choice.value, all);
    if r.Ok? {
      PairIsAdmitted(free, request, world, r.value);
    } else if candidates != [] {
      assert forall p :: p in candidates ==> !IsLocal(free, request, world, p);
    }
  }

  lemma LedgerIs(all: set<StoragePool>, free: Ledger<StoragePool>)
    requires free.Keys == all && forall p :: p in all ==> p.Free() == free[p]
    ensures LedgerOf(all) == free
  {
  }

  /** `WeightPools` on the pairs chosen. */
  method WeighAndCharge(request: Request, choice: Choice, ghost all: set<StoragePool>) returns (r: Result<Pair>)
    requires |choice.pairs| == |choice.locals| && PoolsOf(choice.pairs) <= all
    requires forall i :: 0 <= i < |choice.pairs| ==> choice.pairs[i].local == choice.locals[i]
    modifies all
    ensures r.Err? <==> choice.locals == []
    ensures r.Err? ==> LedgerOf(all) == old(LedgerOf(all))
    ensures r.Ok? ==>
              && r.value in choice.pairs && r.value.local in choice.locals
              && Known(old(LedgerOf(all)), PlacementOf(request, r.value))
              && LedgerOf(all) == Apply(old(LedgerOf(all)), PlacementOf(request, r.value))
              && forall p :: p in choice.locals && p in all ==> old(p.Free()) <= old(r.value.local.Free())
  {
    ghost var free := LedgerOf(all);
    forall p | p in choice.locals ensures exists i :: 0 <= i < |choice.pairs| && choice.pairs[i].local == p {
      var i :| 0 <= i < |choice.locals| && choice.locals[i] == p;
      assert choice.pairs[i].local == p;
    }
    r := WeightPools(request.size, AllocTypeOf(request), choice.locals, choice.pairs);
    if r.Err? {
      LedgerIs(all, free);
    } else {
      ghost var pl := PlacementOf(request, r.value);
      assert r.value.local in PoolsOf(choice.pairs);
      assert r.value.remote != null ==> r.value.remote in PoolsOf(choice.pairs);
      ApplyKeepsPools(free, pl);
      forall p | p in all ensures p.Free() == Apply(free, pl)[p] {
        ChargedIsApplied(request, r.value, free, p);
      }
      LedgerIs(all, Apply(free, pl));
    }
  }

  // ----- the remote pool of a replicated volume

  /** A pool that can be local passes the checks of a remote one. */
  lemma LocalCanBeRemote(free: Ledger<StoragePool>, request: Request, world: World, p: StoragePool)
    requires IsLocal(free, request, world, p)
    ensures CanBeRemote(free, request, world, p)
  {
    PrimaryMeetsSecondary(request.params, world, p);
  }

  /** `p` has less free capacity than `best`, or as much and `best` is preferred to it. */
  ghost predicate IsWorse(free: Ledger<StoragePool>, request: Request, cache: Cache, p: StoragePool, best: StoragePool)
    requires p in free && best in free
  {
    || free[p] < free[best]
    || (&& free[p] == free[best] && AsksSomething(request.topology)
        && Preference(cache, request.topology.preferred, best) < Preference(cache, request.topology.preferred, p))
  }

  /** The other pools that the remote pool may be. */
  ghost predicate IsRival(free: Ledger<StoragePool>, request: Request, world: World, local: StoragePool, p: StoragePool) {
    && p in RemotePools(request, world.cache, local.parent) && p in free && p != local
    && CanBeRemote(free, request, world, p)
  }

  /** Exactly when a volume is paired with itself. If the local pool is among the pools where its remote pool
      is looked for, as for every replicated volume, and no rival ties with it, then it is its own remote
      pool if and only if every rival is worse. */
  lemma SelfPairIff(free: Ledger<StoragePool>, request: Request, world: World, pair: Pair)
    requires IsPair(free, request, world, pair)
    requires pair.local in RemotePools(request, world.cache, pair.local.parent)
    requires forall p :: p in RemotePools(request, world.cache, pair.local.parent)
                         && IsRival(free, request, world, pair.local, p) ==>
               IsWorse(free, request, world.cache, p, pair.local) || IsWorse(free, request, world.cache, pair.local, p)
    ensures pair.remote != null
    ensures pair.remote == pair.local <==>
              forall p :: p in RemotePools(request, world.cache, pair.local.parent)
                          && IsRival(free, request, world, pair.local, p) ==>
                IsWorse(free, request, world.cache, p, pair.local)
  {
    LocalCanBeRemote(free, request, world, pair.local);
    var pools := RemotePools(request, world.cache, pair.local.parent);
    assert IsNoBetter(free, request, world.cache, pair.local, pair.remote);
    if pair.remote == pair.local {
      forall p | p in pools && IsRival(free, request, world, pair.local, p)
        ensures IsWorse(free, request, world.cache, p, pair.local)
      {
        assert IsNoBetter(free, request, world.cache, p, pair.remote);
      }
    } else {
      assert IsRival(free, request, world, pair.local, pair.remote);
    }
  }

  /** So pairing a volume with itself is the normal outcome, ties aside: as the local pool is a largest one,
      and its rivals in the backend could have been local themselves, the remote pool has just as much free
      capacity. */
  lemma RemoteIsAsLarge(free: Ledger<StoragePool>, request: Request, world: World, candidates: seq<StoragePool>, pair: Pair)
    requires IsPair(free, request, world, pair)
    requires forall p :: p in candidates && IsLocal(free, request, world, p) && p in free ==> free[p] <= free[pair.local]
    requires pair.local in RemotePools(request, world.cache, pair.local.parent)
    requires forall p :: p in RemotePools(request, world.cache, pair.local.parent) && CanBeRemote(free, request, world, p) ==>
               p in candidates && IsLocal(free, request, world, p)
    ensures pair.remote != null && pair.remote in free && free[pair.remote] == free[pair.local]
  {
    LocalCanBeRemote(free, request, world, pair.local);
    assert IsNoBetter(free, request, world.cache, pair.local, pair.remote);
  }

  // ----- one request after the other

  /** The placements that come of a series of requests. */
  function Placed(requests: seq<Request>, replies: seq<Result<Pair>>): seq<Placement<StoragePool>>
    requires |requests| == |replies|
  {
    if requests == [] then []
    else
      var last := |requests| - 1;
      Placed(requests[..last], replies[..last])
      + if replies[last].Ok? then [PlacementOf(requests[last], replies[last].value)] else []
  }

  lemma OneMorePlaced(requests: seq<Request>, replies: seq<Result<Pair>>, k: nat, reply: Result<Pair>)
    requires |replies| == k < |requests|
    ensures Placed(requests[..k + 1], replies + [reply])
            == Placed(requests[..k], replies) + if reply.Ok? then [PlacementOf(requests[k], reply.value)] else []
  {
    assert requests[..k + 1][..k] == requests[..k] && (replies + [reply])[..k] == replies;
  }

  /** Serves requests one at a time. The pools go through a run in the sense of CapacityAccounting whose
      placements are those of the replies. */
  method Serve(requests: seq<Request>, world: World, candidates: seq<StoragePool>, pick: (nat, nat, nat) -> nat,
               remotePick: (nat, nat, nat, nat) -> nat, ghost all: set<StoragePool>)
    returns (replies: seq<Result<Pair>>, ghost ss: seq<State<StoragePool>>, ghost es: seq<Event<StoragePool>>)
    requires Within(world.cache, candidates, all)
    modifies all
    ensures |replies| == |requests|
    ensures IsRun(old(LedgerOf(all)), ss, es) && Serial(ss, es)
    ensures ss[|es|] == State(LedgerOf(all), [], Placed(requests, replies))
    ensures forall i :: 0 <= i < |es| && es[i].Select? ==> es[i].placement in Placed(requests, replies)
    ensures forall pl :: pl in Placed(requests, replies) ==> IsAnswer(requests, world, pl)
  {
    replies := [];
    ss, es := [State(LedgerOf(all), [], [])], [];
    for k := 0 to |requests|
      invariant |replies| == k
      invariant IsRun(old(LedgerOf(all)), ss, es) && Serial(ss, es)
      invariant ss[|es|] == State(LedgerOf(all), [], Placed(requests[..k], replies))
      invariant forall i :: 0 <= i < |es| && es[i].Select? ==> es[i].placement in Placed(requests[..k], replies)
      invariant forall pl :: pl in Placed(requests[..k], replies) ==> IsAnswer(requests, world, pl)
    {
      ghost var free := LedgerOf(all);
      var reply := SelectPoolPair(requests[k], world, candidates, (i, j) => pick(k, i, j),
                                  (i, j, l) => remotePick(k, i, j, l), all);
      OneMorePlaced(requests, replies, k, reply);
      if reply.Ok? {
        ghost var pl := PlacementOf(requests[k], reply.value);
        assert AnswerTo(requests[k], world, pl) by { SidesOf(free, requests[k], world, reply.value); }
        ss, es := ServeOne(old(LedgerOf(all)), ss, es, pl);
      }
      replies := replies + [reply];
    }
    assert requests[..|requests|] == requests;
  }

  /** What the placement of a request looks like: its size, and a remote pool from where it is looked for. */
  ghost predicate AnswerTo(request: Request, world: World, pl: Placement<StoragePool>) {
    && pl.size == request.size
    && (pl.remote.Some? ==> pl.remote.value in RemotePools(request, world.cache, pl.local.parent))
  }

  ghost predicate IsAnswer(requests: seq<Request>, world: World, pl: Placement<StoragePool>) {
    exists k :: 0 <= k < |requests| && AnswerTo(requests[k], world, pl)
  }

  lemma SidesOf(free: Ledger<StoragePool>, request: Request, world: World, pair: Pair)
    requires IsPair(free, request, world, pair)
    ensures AnswerTo(request, world, PlacementOf(request, pair))
  {
  }

  /** No pool of a backend's metro backend claims to be the backend's own. */
  ghost predicate MetroIsForeign(cache: Cache) {
    forall b :: b in cache && cache[b].metroPools.Some? ==> forall p :: p in cache[b].metroPools.value ==> p.parent != b
  }

  lemma FreeIsInt64(all: set<StoragePool>)
    ensures AllInt64(LedgerOf(all))
  {
    forall p | p in all ensures IsInt64(p.Free()) {
      if FREE in p.capacities { ParseIsInt64(p.capacities[FREE]); }
    }
  }

  /** Every placement has two different sides. */
  ghost predicate AllSidesDiffer(placed: seq<Placement<StoragePool>>) {
    forall pl :: pl in placed ==> pl.remote != Some(pl.local)
  }

  /** Each pool holds what it had less what was placed in it, in 64-bit arithmetic. */
  ghost predicate IsLessBy(start: Ledger<StoragePool>, free: Ledger<StoragePool>, placed: seq<Placement<StoragePool>>) {
    free.Keys == start.Keys && forall p :: p in start ==> free[p] == Wrap64(start[p] - TotalCost(placed, p))
  }

  ghost predicate NeverOverdrawn(ss: seq<State<StoragePool>>) {
    forall k :: 0 <= k < |ss| ==> NothingOverdrawn(ss[k].free)
  }

  /** Whenever a pool was charged for both sides of a placement, it had room for both. */
  ghost predicate AlwaysRoomy(ss: seq<State<StoragePool>>, es: seq<Event<StoragePool>>)
    requires |ss| == |es| + 1
  {
    forall k :: 0 <= k < |es| ==> ChargeRoomy(ss, es, k)
  }

  /** Serving any requests of sizes that are not negative, one after the other: each pool ends with what it
      had less what the replies placed in it; no pool is overdrawn along the way if and only if pools on both
      sides of a placement had room for both; and so none is overdrawn if the two sides always differ. */
  method ServeSafely(requests: seq<Request>, world: World, candidates: seq<StoragePool>, pick: (nat, nat, nat) -> nat,
                     remotePick: (nat, nat, nat, nat) -> nat, ghost all: set<StoragePool>)
    returns (replies: seq<Result<Pair>>, ghost ss: seq<State<StoragePool>>, ghost es: seq<Event<StoragePool>>)
    requires Within(world.cache, candidates, all)
    requires forall k :: 0 <= k < |requests| ==> requests[k].size >= 0
    modifies all
    ensures |replies| == |requests|
    ensures IsLessBy(old(LedgerOf(all)), LedgerOf(all), Placed(requests, replies))
    ensures IsRun(old(LedgerOf(all)), ss, es) && ss[|es|] == State(LedgerOf(all), [], Placed(requests, replies))
    ensures NothingOverdrawn(old(LedgerOf(all))) ==> (NeverOverdrawn(ss) <==> AlwaysRoomy(ss, es))
    ensures NothingOverdrawn(old(LedgerOf(all))) && AllSidesDiffer(Placed(requests, replies)) ==>
              NothingOverdrawn(LedgerOf(all))
    ensures MetroIsForeign(world.cache) && (forall k :: 0 <= k < |requests| ==> !WantsReplica(requests[k])) ==>
              AllSidesDiffer(Placed(requests, replies))
  {
    ghost var start := LedgerOf(all);
    FreeIsInt64(all);
    replies, ss, es := Serve(requests, world, candidates, pick, remotePick, all);
    PlacedFacts(requests, world, replies, es);
    RunIsSafe(start, ss, es, Placed(requests, replies));
  }

  /** What a serial run does to the ledger. */
  lemma RunIsSafe(start: Ledger<StoragePool>, ss: seq<State<StoragePool>>, es: seq<Event<StoragePool>>,
                  placed: seq<Placement<StoragePool>>)
    requires AllInt64(start) && IsRun(start, ss, es) && Serial(ss, es) && SizesOk(es) && ss[|es|].done == placed
    requires AllSidesDiffer(placed) ==> SidesDiffer(es)
    ensures IsLessBy(start, ss[|es|].free, placed)
    ensures NothingOverdrawn(start) ==> (NeverOverdrawn(ss) <==> AlwaysRoomy(ss, es))
    ensures NothingOverdrawn(start) && AllSidesDiffer(placed) ==> NothingOverdrawn(ss[|es|].free)
  {
    RunConserves(start, ss, es, |es|);
    forall p | p in start ensures ss[|es|].free[p] == Wrap64(start[p] - TotalCost(placed, p)) {
      assert ConservedAt(start, ss[|es|], p);
    }
    if NothingOverdrawn(start) {
      SerialNeverOverdrawnIff(start, ss, es, |es|);
      if AllSidesDiffer(placed) {
        SerialRunNeverOverdraws(start, ss, es, |es|);
      }
    }
  }

  lemma PlacedFacts(requests: seq<Request>, world: World, replies: seq<Result<Pair>>, es: seq<Event<StoragePool>>)
    requires |replies| == |requests| && forall k :: 0 <= k < |requests| ==> requests[k].size >= 0
    requires forall i :: 0 <= i < |es| && es[i].Select? ==> es[i].placement in Placed(requests, replies)
    requires forall pl :: pl in Placed(requests, replies) ==> IsAnswer(requests, world, pl)
    ensures SizesOk(es)
    ensures AllSidesDiffer(Placed(requests, replies)) ==> SidesDiffer(es)
    ensures MetroIsForeign(world.cache) && (forall k :: 0 <= k < |requests| ==> !WantsReplica(requests[k])) ==>
              AllSidesDiffer(Placed(requests, replies))
  {
    forall i | 0 <= i < |es| && es[i].Select? ensures es[i].placement.size >= 0 {
      var k :| 0 <= k < |requests| && AnswerTo(requests[k], world, es[i].placement);
    }
    if MetroIsForeign(world.cache) && forall k :: 0 <= k < |requests| ==> !WantsReplica(requests[k]) {
      forall pl | pl in Placed(requests, replies) ensures pl.remote != Some(pl.local) {
        var k :| 0 <= k < |requests| && AnswerTo(requests[k], world, pl);
      }
    }
  }
}
