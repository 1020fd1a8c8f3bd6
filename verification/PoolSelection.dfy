/** Choosing a pool in csi/backend/backend.go: filter by capability, filter by the topologies required,
    order by the topologies preferred with a random order among equals, filter by capacity, and take
    the first pool with the most free capacity. */
module PoolSelection {
  import opened Basics
  import opened CapabilityFilters
  import opened StoragePools
  import opened Strconv
  import opened Topology

  /** The topology parameter of a request: missing, of another type, or the topologies required and
      preferred. */
  datatype TopologyParameter = Absent | WrongType | Given(requisite: seq<Labels>, preferred: seq<Labels>)

  predicate AsksNothing(topology: TopologyParameter) {
    topology.Absent? || (topology.Given? && topology.requisite == [])
  }

  predicate AsksSomething(topology: TopologyParameter) { topology.Given? && topology.requisite != [] }

  // ----- the topologies required

  predicate Cached(cache: Cache, pool: StoragePool) { pool.parent in cache }

  predicate PoolSupports(cache: Cache, pool: StoragePool, asked: Labels) {
    pool.parent in cache && Supports(cache[pool.parent].supportedTopologies, asked)
  }

  /** The pool's backend is known, and has no topologies at all or supports one that is required. */
  predicate MeetsRequisite(cache: Cache, requisite: seq<Labels>, pool: StoragePool) {
    && Cached(cache, pool)
    && (|| |cache[pool.parent].supportedTopologies| == 0
        || exists i :: 0 <= i < |requisite| && PoolSupports(cache, pool, requisite[i]))
  }

  function MeetingRequisite(cache: Cache, requisite: seq<Labels>, pools: seq<StoragePool>): seq<StoragePool> {
    Filter(pools, (p: StoragePool) => MeetsRequisite(cache, requisite, p))
  }

  /** `filterPoolsOnTopology`. */
  method FilterPoolsOnTopology(pools: seq<StoragePool>, requisite: seq<Labels>, cache: Cache)
    returns (filtered: seq<StoragePool>)
    ensures filtered == if requisite == [] then pools else MeetingRequisite(cache, requisite, pools)
  {
    filtered := [];
    if requisite == [] {
      return pools;
    }
    for k := 0 to |pools|
      invariant filtered == MeetingRequisite(cache, requisite, pools[..k])
    {
      var pool := pools[k];
      assert pools[..k + 1][..k] == pools[..k];
      if pool.parent in cache {
        if |cache[pool.parent].supportedTopologies| == 0 {
          filtered := filtered + [pool];
        } else {
          var found := false;
          for i := 0 to |requisite|
            invariant found <==> exists j :: 0 <= j < i && PoolSupports(cache, pool, requisite[j])
          {
            if !found {
              found := IsTopologySupported(cache[pool.parent].supportedTopologies, requisite[i]);
            }
          }
          if found {
            filtered := filtered + [pool];
          }
        }
      }
    }
    assert pools[..|pools|] == pools;
  }

  // ----- the topologies preferred

  /** The index, from `k` on, of the first preferred topology that the pool supports. */
  function PreferenceFrom(cache: Cache, preferred: seq<Labels>, pool: StoragePool, k: nat): nat
    requires k <= |preferred|
    decreases |preferred| - k
  {
    if k == |preferred| || PoolSupports(cache, pool, preferred[k]) then k
    else PreferenceFrom(cache, preferred, pool, k + 1)
  }

  function Preference(cache: Cache, preferred: seq<Labels>, pool: StoragePool): nat {
    PreferenceFrom(cache, preferred, pool, 0)
  }

  /** The preference index says what its name says. */
  lemma {:induction false} PreferenceMeaning(cache: Cache, preferred: seq<Labels>, pool: StoragePool, k: nat)
    requires k <= |preferred|
    ensures var i := PreferenceFrom(cache, preferred, pool, k);
            && k <= i <= |preferred|
            && (i < |preferred| ==> PoolSupports(cache, pool, preferred[i]))
            && forall j :: k <= j < i ==> !PoolSupports(cache, pool, preferred[j])
    decreases |preferred| - k
  {
    if k < |preferred| && !PoolSupports(cache, pool, preferred[k]) {
      PreferenceMeaning(cache, preferred, pool, k + 1);
    }
  }

  // ----- shuffling

  function Swapped<T>(s: seq<T>, i: nat, j: nat): seq<T>
    requires i < |s| && j < |s|
  {
    s[i := s[j]][j := s[i]]
  }

  lemma {:induction false} SwapKeeps<T>(s: seq<T>, i: nat, j: nat)
    requires i < |s| && j < |s|
    ensures multiset(Swapped(s, i, j)) == multiset(s)
  {
    var t := s[i := s[j]];
    assert multiset(t) == multiset(s) - multiset{s[i]} + multiset{s[j]};
    assert multiset(t[j := s[i]]) == multiset(t) - multiset{t[j]} + multiset{s[i]};
    assert t[j] == s[j];
  }

  lemma {:induction false} WithoutLast<T>(s: seq<T>)
    requires s != []
    ensures multiset(s[..|s| - 1]) == multiset(s) - multiset{s[|s| - 1]}
  {
    assert s == s[..|s| - 1] + [s[|s| - 1]];
  }

  /** From the last position down to the second, each is swapped with the one picked for it. */
  function Shuffled<T>(s: seq<T>, pick: nat -> nat): seq<T>
    decreases |s|
  {
    if |s| <= 1 then s
    else
      var i := |s| - 1;
      var t := Swapped(s, i, pick(i) % |s|);
      Shuffled(t[..i], pick) + [t[i]]
  }

  /** `rand.Shuffle`: swap every position with a random one at or below it. */
  method Shuffle(s: seq<StoragePool>, pick: nat -> nat) returns (r: seq<StoragePool>)
    ensures |r| == |s| && multiset(r) == multiset(s)
    ensures r == Shuffled(s, pick)
  {
    r := s;
    var i := |s|;
    assert s[..i] == s && s[..i] + s[i..] == s;
    while i > 1
      invariant 0 <= i <= |s| == |r| && multiset(r) == multiset(s)
      invariant Shuffled(s, pick) == Shuffled(r[..i], pick) + r[i..]
    {
      ghost var before, n := r, i;
      i := i - 1;
      var j := pick(i) % (i + 1);
      SwapKeeps(r, i, j);
      r := Swapped(r, i, j);
      OneSwap(before, n, pick);
    }
  }

  lemma {:induction false} OneSwap(r: seq<StoragePool>, n: nat, pick: nat -> nat)
    requires 1 < n <= |r|
    ensures var r' := Swapped(r, n - 1, pick(n - 1) % n);
            Shuffled(r[..n], pick) + r[n..] == Shuffled(r'[..n - 1], pick) + r'[n - 1..]
  {
    var i, r' := n - 1, Swapped(r, n - 1, pick(n - 1) % n);
    var t := Swapped(r[..n], i, pick(i) % n);
    assert t == r'[..n] && t[..i] == r'[..i];
    assert r'[i..] == [r'[i]] + r'[n..] && r'[n..] == r[n..];
  }

  lemma {:induction false} SamePicks<T>(s: seq<T>, pick: nat -> nat, other: nat -> nat)
    requires forall k :: 0 <= k < |s| ==> pick(k) == other(k)
    ensures Shuffled(s, pick) == Shuffled(s, other)
    decreases |s|
  {
    if |s| > 1 {
      var i := |s| - 1;
      SamePicks(Swapped(s, i, pick(i) % |s|)[..i], pick, other);
    }
  }

  lemma {:induction false} SameButLast<T>(s: seq<T>, t: seq<T>)
    requires s != [] && t != [] && multiset(s) == multiset(t) && s[|s| - 1] == t[|t| - 1]
    ensures multiset(s[..|s| - 1]) == multiset(t[..|t| - 1])
  {
    WithoutLast(s);
    WithoutLast(t);
  }

  lemma {:induction false} LastSwappedIn<T>(s: seq<T>, target: seq<T>, j: nat)
    requires j < |s| && multiset(s) == multiset(target) && |target| == |s| && s[j] == target[|s| - 1]
    ensures var i := |s| - 1; var t := Swapped(s, i, j); t[i] == target[i] && multiset(t[..i]) == multiset(target[..i])
  {
    SwapKeeps(s, |s| - 1, j);
    SameButLast(Swapped(s, |s| - 1, j), target);
  }

  lemma {:induction false} SameLength<T>(s: seq<T>, target: seq<T>)
    requires multiset(s) == multiset(target)
    ensures |s| == |target|
  {
    assert |s| == |multiset(s)| && |target| == |multiset(target)|;
  }

  lemma {:induction false} Position<T>(s: seq<T>, target: seq<T>, i: nat) returns (j: nat)
    requires multiset(s) == multiset(target) && i < |target|
    ensures j < |s| && s[j] == target[i]
  {
    assert target[i] in multiset(target);
    j :| 0 <= j < |s| && s[j] == target[i];
  }

  /** Picks for all positions but the last, and one for the last. */
  lemma {:induction false} OnePickMore<T>(s: seq<T>, j: nat, rest: nat -> nat) returns (pick: nat -> nat)
    requires 1 < |s| && j < |s|
    ensures var t := Swapped(s, |s| - 1, j); Shuffled(s, pick) == Shuffled(t[..|s| - 1], rest) + [t[|s| - 1]]
  {
    var i := |s| - 1;
    pick := (x: nat) => if x == i then j else rest(x);
    assert pick(i) % |s| == j;
    SamePicks(Swapped(s, i, j)[..i], pick, rest);
  }

  /** Every order of the pools is the outcome for some picks. */
  lemma {:induction false} EveryOrderIsPossible<T>(s: seq<T>, target: seq<T>) returns (pick: nat -> nat)
    requires multiset(s) == multiset(target)
    ensures Shuffled(s, pick) == target
    decreases |s|
  {
    SameLength(s, target);
    if |s| <= 1 {
      pick := (_: nat) => 0;
      if |s| == 1 {
        var j := Position(s, target, 0);
      }
    } else {
      var i := |s| - 1;
      var j := Position(s, target, i);
      LastSwappedIn(s, target, j);
      var rest := EveryOrderIsPossible(Swapped(s, i, j)[..i], target[..i]);
      pick := OnePickMore(s, j, rest);
      assert target == target[..i] + [target[i]];
    }
  }

  lemma SameElements(r: seq<StoragePool>, s: seq<StoragePool>, p: StoragePool)
    requires multiset(r) == multiset(s)
    ensures p in r <==> p in s
  {
    assert p in r <==> p in multiset(r);
    assert p in s <==> p in multiset(s);
  }

  ghost predicate Ordered(cache: Cache, preferred: seq<Labels>, pools: seq<StoragePool>) {
    forall i, j :: 0 <= i < j < |pools| ==>
      Preference(cache, preferred, pools[i]) <= Preference(cache, preferred, pools[j])
  }

  function KnownPools(cache: Cache, pools: seq<StoragePool>): seq<StoragePool> {
    Filter(pools, (p: StoragePool) => Cached(cache, p))
  }

  lemma AllKnown(cache: Cache, pools: seq<StoragePool>)
    requires forall p :: p in pools ==> Cached(cache, p)
    ensures KnownPools(cache, pools) == pools
  {
    FilterAll(pools, (p: StoragePool) => Cached(cache, p));
  }

  function SupportingPools(cache: Cache, asked: Labels, pools: seq<StoragePool>): seq<StoragePool> {
    Filter(pools, (p: StoragePool) => PoolSupports(cache, p, asked))
  }

  function OtherPools(cache: Cache, asked: Labels, pools: seq<StoragePool>): seq<StoragePool> {
    Filter(pools, (p: StoragePool) => Cached(cache, p) && !PoolSupports(cache, p, asked))
  }

  /** One turn of the outer loop: the pools that support the topology, and those left over. */
  method Split(pools: seq<StoragePool>, asked: Labels, cache: Cache)
    returns (bucket: seq<StoragePool>, rest: seq<StoragePool>)
    ensures bucket == SupportingPools(cache, asked, pools) && rest == OtherPools(cache, asked, pools)
  {
    bucket, rest := [], [];
    for k := 0 to |pools|
      invariant bucket == SupportingPools(cache, asked, pools[..k])
      invariant rest == OtherPools(cache, asked, pools[..k])
    {
      var pool := pools[k];
      assert pools[..k + 1][..k] == pools[..k];
      if pool.parent in cache {
        var supported := IsTopologySupported(cache[pool.parent].supportedTopologies, asked);
        if supported {
          bucket := bucket + [pool];
        } else {
          rest := rest + [pool];
        }
      }
    }
    assert pools[..|pools|] == pools;
  }

  /** Together they are the known pools. */
  lemma {:induction false} SplitCovers(cache: Cache, asked: Labels, pools: seq<StoragePool>)
    ensures multiset(SupportingPools(cache, asked, pools)) + multiset(OtherPools(cache, asked, pools))
            == multiset(KnownPools(cache, pools))
  {
    if pools != [] {
      SplitCovers(cache, asked, pools[..|pools| - 1]);
    }
  }

  method SplitAndShuffle(pools: seq<StoragePool>, asked: Labels, cache: Cache, pick: nat -> nat)
    returns (bucket: seq<StoragePool>, rest: seq<StoragePool>)
    ensures multiset(bucket) + multiset(rest) == multiset(KnownPools(cache, pools))
    ensures forall p :: p in bucket ==> p in pools && PoolSupports(cache, p, asked)
    ensures forall p :: p in rest ==> p in pools && Cached(cache, p) && !PoolSupports(cache, p, asked)
  {
    var supporting;
    supporting, rest := Split(pools, asked, cache);
    SplitCovers(cache, asked, pools);
    bucket := Shuffle(supporting, pick);
    forall p | p in bucket ensures p in pools && PoolSupports(cache, p, asked) {
      SameElements(bucket, supporting, p);
      FilterMember(pools, (q: StoragePool) => PoolSupports(cache, q, asked), p);
    }
    forall p | p in rest ensures p in pools && Cached(cache, p) && !PoolSupports(cache, p, asked) {
      FilterMember(pools, (q: StoragePool) => Cached(cache, q) && !PoolSupports(cache, q, asked), p);
    }
  }

  /** The pools that preference sorting keeps: with any preference at all, pools of unknown
      backends drop out. */
  function Kept(cache: Cache, preferred: seq<Labels>, pools: seq<StoragePool>): seq<StoragePool> {
    if preferred == [] then pools else KnownPools(cache, pools)
  }

  /** `sortPoolsByPreferredTopologies`: for every choice of the shuffles, a permutation of the kept
      pools in which the index of the first supported preference never decreases. */
  method SortPools(pools: seq<StoragePool>, preferred: seq<Labels>, cache: Cache, pick: (nat, nat) -> nat)
    returns (ordered: seq<StoragePool>)
    ensures multiset(ordered) == multiset(Kept(cache, preferred, pools))
    ensures Ordered(cache, preferred, ordered)
  {
    ordered := [];
    var remaining := pools;
    for k := 0 to |preferred|
      invariant k == 0 ==> ordered == [] && remaining == pools
      invariant k > 0 ==> multiset(ordered) + multiset(remaining) == multiset(KnownPools(cache, pools))
      invariant Ordered(cache, preferred, ordered)
      invariant forall p :: p in ordered ==> Preference(cache, preferred, p) < k
      invariant forall p :: p in remaining ==>
                  && Preference(cache, preferred, p) == PreferenceFrom(cache, preferred, p, k)
                  && (k > 0 ==> Cached(cache, p))
    {
      var bucket, rest := SplitAndShuffle(remaining, preferred[k], cache, i => pick(k, i));
      if k > 0 {
        AllKnown(cache, remaining);
      }
      OrderedAppend(cache, preferred, ordered, bucket, k);
      ordered, remaining := ordered + bucket, rest;
    }
    var shuffled := Shuffle(remaining, i => pick(|preferred|, i));
    forall p | p in shuffled ensures Preference(cache, preferred, p) == |preferred| {
      SameElements(shuffled, remaining, p);
    }
    OrderedAppend(cache, preferred, ordered, shuffled, |preferred|);
    ordered := ordered + shuffled;
  }

  lemma OrderedAppend(cache: Cache, preferred: seq<Labels>, xs: seq<StoragePool>, ys: seq<StoragePool>, k: nat)
    requires Ordered(cache, preferred, xs)
    requires forall p :: p in xs ==> Preference(cache, preferred, p) < k
    requires forall p :: p in ys ==> Preference(cache, preferred, p) == k
    ensures Ordered(cache, preferred, xs + ys)
  {
    forall i, j | 0 <= i < j < |xs + ys|
      ensures Preference(cache, preferred, (xs + ys)[i]) <= Preference(cache, preferred, (xs + ys)[j])
    {
      if i < |xs| { assert (xs + ys)[i] in xs; } else { assert (xs + ys)[i] in ys; }
      if j >= |xs| { assert (xs + ys)[j] in ys; }
    }
  }

  // ----- capacity

  /** Whether a pool takes a request: thin needs thin support, thick needs thick support and room. */
  predicate Fits(size: int, allocType: string, pool: StoragePool)
    reads pool
  {
    || ((allocType == "thin" || allocType == "") && pool.Has("SupportThin"))
    || (allocType == "thick" && pool.Has("SupportThick") && size <= pool.Free())
  }

  function FittingOf(size: int, allocType: string, pools: seq<StoragePool>): seq<StoragePool>
    reads pools
  {
    if pools == [] then []
    else
      var rest := FittingOf(size, allocType, pools[..|pools| - 1]);
      if Fits(size, allocType, pools[|pools| - 1]) then rest + [pools[|pools| - 1]] else rest
  }

  /** `FilterByCapacity`. */
  method FilterByCapacity(size: int, allocType: string, pools: seq<StoragePool>) returns (filtered: seq<StoragePool>)
    ensures filtered == FittingOf(size, allocType, pools)
  {
    filtered := [];
    for k := 0 to |pools|
      invariant filtered == FittingOf(size, allocType, pools[..k])
    {
      assert pools[..k + 1][..k] == pools[..k];
      var pool := pools[k];
      if (allocType == "thin" || allocType == "") && pool.Has("SupportThin") {
        filtered := filtered + [pool];
      } else if allocType == "thick" && pool.Has("SupportThick") {
        var free := if "FreeCapacity" in pool.capacities then ParseIntOrZero(pool.capacities["FreeCapacity"]) else 0;
        if size <= free {
          filtered := filtered + [pool];
        }
      }
    }
    assert pools[..|pools|] == pools;
  }

  lemma {:induction false} FittingMember(size: int, allocType: string, pools: seq<StoragePool>, p: StoragePool)
    ensures p in FittingOf(size, allocType, pools) <==> p in pools && Fits(size, allocType, p)
  {
    if pools != [] {
      FittingMember(size, allocType, pools[..|pools| - 1], p);
      assert pools == pools[..|pools| - 1] + [pools[|pools| - 1]];
    }
  }

  lemma {:induction false} FittingCount(size: int, allocType: string, pools: seq<StoragePool>, p: StoragePool)
    requires Fits(size, allocType, p)
    ensures multiset(FittingOf(size, allocType, pools))[p] == multiset(pools)[p]
  {
    if pools != [] {
      FittingCount(size, allocType, pools[..|pools| - 1], p);
      assert pools == pools[..|pools| - 1] + [pools[|pools| - 1]];
    }
  }

  /** The capacity filter keeps the order. */
  lemma {:induction false} FittingOrdered(size: int, allocType: string, pools: seq<StoragePool>, cache: Cache, preferred: seq<Labels>)
    requires Ordered(cache, preferred, pools)
    ensures Ordered(cache, preferred, FittingOf(size, allocType, pools))
  {
    if pools != [] {
      var init, last := pools[..|pools| - 1], pools[|pools| - 1];
      FittingOrdered(size, allocType, init, cache, preferred);
      var rest := FittingOf(size, allocType, init);
      forall p | p in rest ensures Preference(cache, preferred, p) <= Preference(cache, preferred, last) {
        FittingMember(size, allocType, init, p);
        var i :| 0 <= i < |init| && init[i] == p;
        assert pools[i] == p;
      }
      forall i, j | 0 <= i < j < |rest + [last]|
        ensures Preference(cache, preferred, (rest + [last])[i]) <= Preference(cache, preferred, (rest + [last])[j])
      {
        assert (rest + [last])[i] == rest[i] && rest[i] in rest;
      }
    }
  }

  // ----- the most free capacity

  /** `weightByFreeCapacity`: the first pool that has the most free capacity. */
  method WeightByFreeCapacity(pools: seq<StoragePool>) returns (best: StoragePool?, ghost at: nat)
    ensures best == null <==> pools == []
    ensures best != null ==>
              && at < |pools| && pools[at] == best
              && (forall k :: 0 <= k < |pools| ==> pools[k].Free() <= pools[at].Free())
              && forall k :: 0 <= k < at ==> pools[k].Free() < pools[at].Free()
  {
    best, at := null, 0;
    for i := 0 to |pools|
      invariant best == null <==> i == 0
      invariant best != null ==>
                  && at < i && pools[at] == best
                  && (forall k :: 0 <= k < i ==> pools[k].Free() <= pools[at].Free())
                  && forall k :: 0 <= k < at ==> pools[k].Free() < pools[at].Free()
    {
      if best == null {
        best, at := pools[i], i;
      } else if best.Free() < pools[i].Free() {
        best, at := pools[i], i;
      }
    }
  }

  // ----- put together

  /** `FilterByTopology`; the error is that no pool meets the topologies required, or that the parameter
      is of another type. */
  method FilterByTopology(topology: TopologyParameter, pools: seq<StoragePool>, cache: Cache, pick: (nat, nat) -> nat)
    returns (r: Result<seq<StoragePool>>)
    ensures AsksNothing(topology) ==> r == Ok(pools)
    ensures topology.WrongType? ==> r.Err?
    ensures AsksSomething(topology) ==>
              var meeting := MeetingRequisite(cache, topology.requisite, pools);
              && (r.Err? <==> meeting == [])
              && (r.Ok? ==> multiset(r.value) == multiset(meeting) && Ordered(cache, topology.preferred, r.value))
  {
    if topology.Absent? {
      return Ok(pools);
    }
    if topology.WrongType? {
      return Err;
    }
    if topology.requisite == [] {
      return Ok(pools);
    }
    var filtered := FilterPoolsOnTopology(pools, topology.requisite, cache);
    if filtered == [] {
      return Err;
    }
    var ordered := SortPools(filtered, topology.preferred, cache, pick);
    forall p | p in filtered ensures Cached(cache, p) {
      FilterMember(pools, (p: StoragePool) => MeetsRequisite(cache, topology.requisite, p), p);
    }
    AllKnown(cache, filtered);
    r := Ok(ordered);
  }

  predicate TopologyAllows(cache: Cache, topology: TopologyParameter, p: StoragePool) {
    match topology
    case Absent => true
    case WrongType => false
    case Given(requisite, _) => requisite == [] || MeetsRequisite(cache, requisite, p)
  }

  /** A request for a pool. */
  datatype Request = Request(params: Parameters, topology: TopologyParameter, size: int)

  function AllocTypeOf(request: Request): string { Parameter(request.params, "allocType") }

  /** A pool that passes the filters by capability and topology. */
  predicate Admissible(request: Request, world: World, rows: seq<Row>, p: StoragePool) {
    MeetsAll(request.params, world, rows, p) && TopologyAllows(world.cache, request.topology, p)
  }

  /** The pools a request may end up in. */
  predicate Eligible(request: Request, world: World, rows: seq<Row>, pools: seq<StoragePool>, p: StoragePool)
    reads p
  {
    p in pools && Admissible(request, world, rows, p) && Fits(request.size, AllocTypeOf(request), p)
  }

  ghost predicate OrderedFor(request: Request, cache: Cache, pools: seq<StoragePool>) {
    AsksSomething(request.topology) ==> Ordered(cache, request.topology.preferred, pools)
  }

  /** `filterPool` of the selector: exactly the eligible pools, in the order of preference, possibly none;
      an error if no pool is admissible or a quota is not well formed. */
  method FilterPool(request: Request, world: World, rows: seq<Row>, pools: seq<StoragePool>, pick: (nat, nat) -> nat)
    returns (r: Result<seq<StoragePool>>)
    ensures r.Err? <==>
              || !QuotasValid(request.params, world, rows)
              || ((rows != [] || !AsksNothing(request.topology))
                  && forall p :: p in pools ==> !Admissible(request, world, rows, p))
    ensures r.Ok? ==>
              && (forall p :: p in r.value <==> p in pools && Eligible(request, world, rows, pools, p))
              && (forall p :: p in r.value ==> multiset(r.value)[p] == multiset(pools)[p])
              && OrderedFor(request, world.cache, r.value)
  {
    var capable := FilterByCapability(request.params, world, rows, pools);
    if rows == [] {
      FilterAll(pools, (p: StoragePool) => MeetsAll(request.params, world, rows, p));
    }
    forall p: StoragePool | p in pools || p in MeetingAll(request.params, world, rows, pools)
      ensures p in MeetingAll(request.params, world, rows, pools) <==> p in pools && MeetsAll(request.params, world, rows, p)
    {
      MeetingAllMember(request.params, world, rows, pools, p);
    }
    if capable.Err? {
      return Err;
    }
    assert capable.value != [] ==> capable.value[0] in capable.value;
    var allowed := FilterByTopology(request.topology, capable.value, world.cache, pick);
    TopologyMembers(request, world.cache, capable.value, allowed);
    if allowed.Err? {
      return Err;
    }
    assert allowed.value != [] ==> allowed.value[0] in allowed.value;
    AllowedNotEmpty(request, world.cache, capable.value, allowed.value);
    var fitting := FilterByCapacity(request.size, AllocTypeOf(request), allowed.value);
    forall p: StoragePool | p in allowed.value || p in fitting
      ensures p in fitting <==> p in allowed.value && Fits(request.size, AllocTypeOf(request), p)
    {
      FittingMember(request.size, AllocTypeOf(request), allowed.value, p);
    }
    if AsksSomething(request.topology) {
      FittingOrdered(request.size, AllocTypeOf(request), allowed.value, world.cache, request.topology.preferred);
    }
    forall p | p in fitting ensures multiset(fitting)[p] == multiset(pools)[p] {
      FittingCount(request.size, AllocTypeOf(request), allowed.value, p);
      TopologyCount(request, world.cache, capable.value, allowed.value, p);
      FilterCount(pools, (q: StoragePool) => MeetsAll(request.params, world, rows, q), p);
    }
    r := Ok(fitting);
  }

  lemma AllowedNotEmpty(request: Request, cache: Cache, pools: seq<StoragePool>, kept: seq<StoragePool>)
    requires AsksNothing(request.topology) ==> kept == pools
    requires AsksSomething(request.topology) ==>
               var meeting := MeetingRequisite(cache, request.topology.requisite, pools);
               meeting != [] && multiset(kept) == multiset(meeting)
    ensures AsksSomething(request.topology) ==> kept != []
  {
    if AsksSomething(request.topology) {
      var meeting := MeetingRequisite(cache, request.topology.requisite, pools);
      SameElements(kept, meeting, meeting[0]);
    }
  }

  /** `FilterStoragePool`: the same, with an error also if no pool is left in the end. */
  method FilterStoragePool(request: Request, world: World, rows: seq<Row>, pools: seq<StoragePool>, pick: (nat, nat) -> nat)
    returns (r: Result<seq<StoragePool>>)
    ensures r.Err? <==>
              || !QuotasValid(request.params, world, rows)
              || forall p :: p in pools ==> !Eligible(request, world, rows, pools, p)
    ensures r.Ok? ==>
              && (forall p :: p in r.value <==> p in pools && Eligible(request, world, rows, pools, p))
              && (forall p :: p in r.value ==> multiset(r.value)[p] == multiset(pools)[p])
              && OrderedFor(request, world.cache, r.value)
  {
    r := FilterPool(request, world, rows, pools, pick);
    if r.Ok? {
      if r.value == [] {
        return Err;
      }
      assert r.value[0] in r.value;
    }
  }

  lemma TopologyCount(request: Request, cache: Cache, pools: seq<StoragePool>, kept: seq<StoragePool>, p: StoragePool)
    requires AsksNothing(request.topology) ==> kept == pools
    requires AsksSomething(request.topology) ==>
               multiset(kept) == multiset(MeetingRequisite(cache, request.topology.requisite, pools))
    requires TopologyAllows(cache, request.topology, p)
    ensures multiset(kept)[p] == multiset(pools)[p]
  {
    if AsksSomething(request.topology) {
      FilterCount(pools, (q: StoragePool) => MeetsRequisite(cache, request.topology.requisite, q), p);
    }
  }

  /** What `FilterByTopology` keeps, pool by pool. */
  lemma TopologyMembers(request: Request, cache: Cache, pools: seq<StoragePool>, r: Result<seq<StoragePool>>)
    requires AsksNothing(request.topology) ==> r == Ok(pools)
    requires request.topology.WrongType? ==> r.Err?
    requires AsksSomething(request.topology) ==>
               var meeting := MeetingRequisite(cache, request.topology.requisite, pools);
               && (r.Err? <==> meeting == [])
               && (r.Ok? ==> multiset(r.value) == multiset(meeting))
    ensures r.Err? ==> forall p :: p in pools ==> !TopologyAllows(cache, request.topology, p)
    ensures r.Ok? ==> forall p :: p in r.value <==> p in pools && TopologyAllows(cache, request.topology, p)
  {
    if AsksSomething(request.topology) {
      var requisite := request.topology.requisite;
      var meeting := MeetingRequisite(cache, requisite, pools);
      forall p: StoragePool | p in pools || p in meeting
        ensures p in meeting <==> p in pools && MeetsRequisite(cache, requisite, p)
      {
        FilterMember(pools, (q: StoragePool) => MeetsRequisite(cache, requisite, q), p);
      }
      if r.Ok? {
        forall p: StoragePool | p in r.value || p in meeting ensures p in r.value <==> p in meeting {
          SameElements(r.value, meeting, p);
        }
      }
    }
  }

  /** No eligible pool has more free capacity than `best`, and none that has as much is preferred to it. */
  ghost predicate IsBest(request: Request, world: World, rows: seq<Row>, pools: seq<StoragePool>, best: StoragePool)
    reads pools, best
  {
    && Eligible(request, world, rows, pools, best)
    && forall p :: p in pools && Eligible(request, world, rows, pools, p) ==>
         || p.Free() < best.Free()
         || (&& p.Free() == best.Free()
             && (AsksSomething(request.topology) ==>
                   Preference(world.cache, request.topology.preferred, best)
                   <= Preference(world.cache, request.topology.preferred, p)))
  }

  /** `WeightSinglePools` on what the filters have left. */
  method PickBest(request: Request, world: World, rows: seq<Row>, pools: seq<StoragePool>, filtered: seq<StoragePool>)
    returns (best: StoragePool?)
    requires forall p :: p in filtered <==> p in pools && Eligible(request, world, rows, pools, p)
    requires OrderedFor(request, world.cache, filtered)
    ensures best == null <==> filtered == []
    ensures best != null ==> IsBest(request, world, rows, pools, best)
  {
    ghost var at;
    best, at := WeightByFreeCapacity(filtered);
    if best == null {
      return;
    }
    assert best in filtered;
    forall p | p in pools && Eligible(request, world, rows, pools, p)
      ensures p.Free() < best.Free() || (p.Free() == best.Free()
              && (AsksSomething(request.topology) ==>
                    Preference(world.cache, request.topology.preferred, best)
                    <= Preference(world.cache, request.topology.preferred, p)))
    {
      assert p in filtered;
      var k :| 0 <= k < |filtered| && filtered[k] == p;
      if k > at { assert OrderedFor(request, world.cache, filtered); }
    }
  }

  /** Filtering and weighing together, for every outcome of the shuffles: a best eligible pool, and an
      error exactly when there is no eligible pool or a quota is not well formed. */
  method SelectPool(request: Request, world: World, rows: seq<Row>, pools: seq<StoragePool>, pick: (nat, nat) -> nat)
    returns (r: Result<StoragePool>)
    ensures r.Err? <==>
              || !QuotasValid(request.params, world, rows)
              || forall p :: p in pools ==> !Eligible(request, world, rows, pools, p)
    ensures r.Ok? ==> IsBest(request, world, rows, pools, r.value)
  {
    var filtered := FilterStoragePool(request, world, rows, pools, pick);
    if filtered.Err? {
      return Err;
    }
    var best := PickBest(request, world, rows, pools, filtered.value);
    if best == null {
      return Err;
    }
    r := Ok(best);
  }

  lemma SecondaryIsPartOfPrimary()
    ensures forall i :: 0 <= i < |SECONDARY| ==> SECONDARY[i] in PRIMARY
  {
    assert SECONDARY == [PRIMARY[2], PRIMARY[3], PRIMARY[4], PRIMARY[6], PRIMARY[7]];
  }

  lemma PrimaryMeetsSecondary(params: Parameters, world: World, p: StoragePool)
    requires MeetsAll(params, world, PRIMARY, p)
    ensures MeetsAll(params, world, SECONDARY, p)
  {
    SecondaryIsPartOfPrimary();
    forall i | 0 <= i < |SECONDARY| ensures RowAdmits(params, world, SECONDARY[i], p) {
      var j :| 0 <= j < |PRIMARY| && PRIMARY[j] == SECONDARY[i];
      assert RowAdmits(params, world, PRIMARY[j], p);
    }
  }

  /** For a replicated volume the remote pool is looked for among the pools of the local backend
      itself. The local pool is always eligible there, so no best remote pool has less free capacity
      than it; and if it is the backend's only pool, it becomes its own remote pool. */
  lemma LocalPoolIsItsOwnCandidate(request: Request, world: World, pools: seq<StoragePool>, ofBackend: seq<StoragePool>,
                                   local: StoragePool, remote: StoragePool)
    requires Eligible(request, world, PRIMARY, pools, local) && local in ofBackend
    requires IsBest(request, world, SECONDARY, ofBackend, remote)
    ensures Eligible(request, world, SECONDARY, ofBackend, local) && local.Free() <= remote.Free()
    ensures ofBackend == [local] ==> remote == local
  {
    PrimaryMeetsSecondary(request.params, world, local);
  }
}
