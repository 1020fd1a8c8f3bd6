/** Charging placements to the cached free capacities of csi/backend/backend.go, over whole runs of
    requests that overlap or come one at a time. Module PairSelection has the code that makes such
    runs. */
module CapacityAccounting {
  import opened Basics
  import opened Strconv

  /** What is left after a charge, in the 64-bit arithmetic of the source. */
  function After(free: int, size: int): int { Wrap64(free - size) }

  /** A placement that has passed its capacity checks, on pools of whatever kind. */
  datatype Placement<K> = Placement(local: K, remote: Option<K>, size: int, thick: bool)

  type Ledger<K> = map<K, int>

  predicate Known<K>(free: Ledger<K>, pl: Placement<K>) {
    pl.local in free && (pl.remote.Some? ==> pl.remote.value in free)
  }

  /** The capacity checks that both sides go through when they are selected. */
  predicate Admitted<K>(free: Ledger<K>, pl: Placement<K>) {
    && Known(free, pl)
    && (pl.thick ==> pl.size <= free[pl.local] && (pl.remote.Some? ==> pl.size <= free[pl.remote.value]))
  }

  /** A pool that is both sides of a thick placement has room for both. */
  predicate Roomy<K(==)>(free: Ledger<K>, pl: Placement<K>) {
    pl.thick && pl.remote == Some(pl.local) && pl.local in free ==> 2 * pl.size <= free[pl.local]
  }

  function Apply<K>(free: Ledger<K>, pl: Placement<K>): Ledger<K>
    requires Known(free, pl)
  {
    if !pl.thick then free
    else
      var once := free[pl.local := After(free[pl.local], pl.size)];
      if pl.remote.None? then once
      else once[pl.remote.value := After(once[pl.remote.value], pl.size)]
  }

  /** What a placement takes from a pool. */
  function Cost<K(==)>(pl: Placement<K>, pool: K): int {
    if !pl.thick then 0
    else (if pl.local == pool then pl.size else 0) + (if pl.remote == Some(pool) then pl.size else 0)
  }

  function TotalCost<K(==)>(done: seq<Placement<K>>, pool: K): int {
    if done == [] then 0 else TotalCost(done[..|done| - 1], pool) + Cost(done[|done| - 1], pool)
  }

  lemma WrapTwice(a: int, b: int)
    ensures Wrap64(Wrap64(a) - b) == Wrap64(a - b)
  {
    var m := 0x1_0000_0000_0000_0000;
    var h := 0x8000_0000_0000_0000;
    assert (a + h) == m * ((a + h) / m) + (a + h) % m;
    WrapShift(Wrap64(a) - b, (a + h) / m);
  }

  lemma WrapShift(a: int, n: int)
    ensures Wrap64(a + n * 0x1_0000_0000_0000_0000) == Wrap64(a)
  {
  }

  lemma WrapOfInt64(a: int)
    requires IsInt64(a)
    ensures Wrap64(a) == a
  {
  }

  lemma ApplyKeepsPools<K>(free: Ledger<K>, pl: Placement<K>)
    requires Known(free, pl)
    ensures Apply(free, pl).Keys == free.Keys
  {
  }

  lemma ApplyTakesCost<K>(free: Ledger<K>, pl: Placement<K>, pool: K)
    requires Known(free, pl) && pool in free && IsInt64(free[pool])
    ensures pool in Apply(free, pl) && Apply(free, pl)[pool] == Wrap64(free[pool] - Cost(pl, pool))
  {
    WrapOfInt64(free[pool]);
    WrapTwice(free[pool] - pl.size, pl.size);
  }

  // ----- one charge

  ghost predicate AllInt64<K>(free: Ledger<K>) { forall p :: p in free ==> IsInt64(free[p]) }

  ghost predicate NothingOverdrawn<K>(free: Ledger<K>) { forall p :: p in free ==> free[p] >= 0 }

  /** No charge of this placement wraps around: its size is a 64-bit number, and twice its size is one too
      if both sides are the same pool. */
  predicate NoWrap<K(==)>(pl: Placement<K>) {
    && 0 <= pl.size <= MAX_INT64
    && (pl.remote == Some(pl.local) ==> pl.size < 0x4000_0000_0000_0000)
  }

  lemma ApplyWithoutWrap<K>(free: Ledger<K>, pl: Placement<K>, pool: K)
    requires Known(free, pl) && pool in free && IsInt64(free[pool]) && IsInt64(free[pool] - Cost(pl, pool))
    ensures pool in Apply(free, pl) && Apply(free, pl)[pool] == free[pool] - Cost(pl, pool)
  {
    ApplyTakesCost(free, pl, pool);
    WrapOfInt64(free[pool] - Cost(pl, pool));
  }

  ghost predicate SoundLedger<K>(free: Ledger<K>) { AllInt64(free) && NothingOverdrawn(free) }

  lemma OverdrawsNothingIff<K>(free: Ledger<K>, pl: Placement<K>)
    requires SoundLedger(free) && Known(free, pl) && 0 <= pl.size
    requires forall p :: p in free ==> IsInt64(free[p] - Cost(pl, p))
    ensures NothingOverdrawn(Apply(free, pl)) <==> Admitted(free, pl) && Roomy(free, pl)
    ensures AllInt64(Apply(free, pl))
  {
    ApplyKeepsPools(free, pl);
    forall p | p in free ensures Apply(free, pl)[p] == free[p] - Cost(pl, p) && IsInt64(Apply(free, pl)[p]) {
      ApplyWithoutWrap(free, pl, p);
    }
    if NothingOverdrawn(Apply(free, pl)) {
      assert Apply(free, pl)[pl.local] >= 0;
      if pl.remote.Some? { assert Apply(free, pl)[pl.remote.value] >= 0; }
    }
  }

  /** Charging a placement overdraws nothing if and only if both sides still pass the capacity check at
      that moment, and a pool that is both sides has room for both. */
  lemma ChargeOverdrawsNothingIff<K>(free: Ledger<K>, pl: Placement<K>)
    requires SoundLedger(free) && Known(free, pl) && NoWrap(pl)
    ensures NothingOverdrawn(Apply(free, pl)) <==> Admitted(free, pl) && Roomy(free, pl)
    ensures AllInt64(Apply(free, pl))
  {
    OverdrawsNothingIff(free, pl);
  }

  /** A placement that still passes its checks wraps around nowhere, whatever its size. */
  lemma AdmittedOverdrawsNothingIff<K>(free: Ledger<K>, pl: Placement<K>)
    requires SoundLedger(free) && Admitted(free, pl) && 0 <= pl.size
    ensures NothingOverdrawn(Apply(free, pl)) <==> Roomy(free, pl)
    ensures AllInt64(Apply(free, pl))
  {
    OverdrawsNothingIff(free, pl);
  }

  // ----- runs

  datatype State<K> = State(free: Ledger<K>, flying: seq<Placement<K>>, done: seq<Placement<K>>)

  datatype Event<K> =
    | Select(placement: Placement<K>)  // the checks are passed; nothing is charged yet
    | Charge(index: nat)               // a selection in flight is charged

  ghost predicate Next<K>(s: State<K>, e: Event<K>, t: State<K>) {
    match e
    case Select(pl) =>
      Admitted(s.free, pl) && t == s.(flying := s.flying + [pl])
    case Charge(i) =>
      && i < |s.flying| && Known(s.free, s.flying[i])
      && t == State(Apply(s.free, s.flying[i]), s.flying[..i] + s.flying[i + 1..], s.done + [s.flying[i]])
  }

  ghost predicate StepAt<K>(ss: seq<State<K>>, es: seq<Event<K>>, i: nat)
    requires i < |es| && |ss| == |es| + 1
  {
    Next(ss[i], es[i], ss[i + 1])
  }

  ghost predicate IsRun<K>(start: Ledger<K>, ss: seq<State<K>>, es: seq<Event<K>>) {
    && |ss| == |es| + 1
    && ss[0] == State(start, [], [])
    && forall i :: 0 <= i < |es| ==> StepAt(ss, es, i)
  }

  // ----- conservation

  /** Every pool holds what it started with, less all that was charged to it. */
  ghost predicate Conserved<K>(start: Ledger<K>, s: State<K>) {
    && s.free.Keys == start.Keys
    && forall p :: p in start ==> ConservedAt(start, s, p)
  }

  ghost predicate ConservedAt<K>(start: Ledger<K>, s: State<K>, pool: K)
    requires pool in start && pool in s.free
  {
    s.free[pool] == Wrap64(start[pool] - TotalCost(s.done, pool))
  }

  lemma ChargeConserves<K>(free: Ledger<K>, pl: Placement<K>, pool: K, initial: int, done: seq<Placement<K>>)
    requires Known(free, pl) && pool in free && free[pool] == Wrap64(initial - TotalCost(done, pool))
    ensures pool in Apply(free, pl)
    ensures Apply(free, pl)[pool] == Wrap64(initial - TotalCost(done + [pl], pool))
  {
    ApplyTakesCost(free, pl, pool);
    WrapTwice(initial - TotalCost(done, pool), Cost(pl, pool));
    assert (done + [pl])[..|done|] == done;
  }

  lemma NextConserves<K>(start: Ledger<K>, s: State<K>, e: Event<K>, t: State<K>)
    requires Conserved(start, s) && Next(s, e, t)
    ensures Conserved(start, t)
  {
    if e.Charge? {
      var pl := s.flying[e.index];
      ApplyKeepsPools(s.free, pl);
      forall p | p in start ensures ConservedAt(start, t, p) {
        assert ConservedAt(start, s, p);
        ChargeConserves(s.free, pl, p, start[p], s.done);
      }
    }
  }

  /** Conservation, for any overlap of requests: at every point of every run the ledger is the initial
      one less the charges, in 64-bit arithmetic. */
  lemma {:induction false} RunConserves<K>(start: Ledger<K>, ss: seq<State<K>>, es: seq<Event<K>>, k: nat)
    requires AllInt64(start) && IsRun(start, ss, es) && k < |ss|
    ensures Conserved(start, ss[k])
  {
    if k == 0 {
      forall p | p in start ensures ConservedAt(start, ss[0], p) {
        WrapOfInt64(start[p]);
      }
    } else {
      RunConserves(start, ss, es, k - 1);
      assert StepAt(ss, es, k - 1);
      NextConserves(start, ss[k - 1], es[k - 1], ss[k]);
    }
  }

  // ----- overdrawing

  ghost predicate NothingWraps<K>(es: seq<Event<K>>) {
    forall i :: 0 <= i < |es| && es[i].Select? ==> NoWrap(es[i].placement)
  }

  ghost predicate FlyingOk<K>(s: State<K>) {
    forall i :: 0 <= i < |s.flying| ==> Known(s.free, s.flying[i]) && NoWrap(s.flying[i])
  }

  lemma {:induction false} RunKeepsFlying<K>(start: Ledger<K>, ss: seq<State<K>>, es: seq<Event<K>>, k: nat)
    requires IsRun(start, ss, es) && NothingWraps(es) && k < |ss|
    ensures FlyingOk(ss[k])
  {
    if k > 0 {
      RunKeepsFlying(start, ss, es, k - 1);
      assert StepAt(ss, es, k - 1);
      if es[k - 1].Charge? {
        ApplyKeepsPools(ss[k - 1].free, ss[k - 1].flying[es[k - 1].index]);
      }
    }
  }

  /** The k-th event, if it is a charge, is of a placement that fits at that moment. */
  ghost predicate ChargeFits<K>(ss: seq<State<K>>, es: seq<Event<K>>, k: nat)
    requires k < |es| && |ss| == |es| + 1
  {
    es[k].Charge? && es[k].index < |ss[k].flying| ==>
      Admitted(ss[k].free, ss[k].flying[es[k].index]) && Roomy(ss[k].free, ss[k].flying[es[k].index])
  }

  /** Along any run, however requests overlap: no pool is overdrawn up to some point if and only if every
      placement charged before it still fitted when it was charged. */
  lemma {:induction false} NeverOverdrawnIff<K>(start: Ledger<K>, ss: seq<State<K>>, es: seq<Event<K>>, n: nat)
    requires SoundLedger(start) && IsRun(start, ss, es) && NothingWraps(es) && n < |ss|
    ensures (forall k :: 0 <= k <= n ==> NothingOverdrawn(ss[k].free)) <==>
              forall k :: 0 <= k < n ==> ChargeFits(ss, es, k)
    ensures (forall k :: 0 <= k <= n ==> NothingOverdrawn(ss[k].free)) ==> AllInt64(ss[n].free)
  {
    if n > 0 {
      NeverOverdrawnIff(start, ss, es, n - 1);
      assert StepAt(ss, es, n - 1);
      if forall k :: 0 <= k <= n - 1 ==> NothingOverdrawn(ss[k].free) {
        assert NothingOverdrawn(ss[n - 1].free);
        RunKeepsFlying(start, ss, es, n - 1);
        if es[n - 1].Charge? {
          ChargeOverdrawsNothingIff(ss[n - 1].free, ss[n - 1].flying[es[n - 1].index]);
        }
        assert NothingOverdrawn(ss[n].free) <==> ChargeFits(ss, es, n - 1);
      }
    }
  }

  /** One request at a time. */
  ghost predicate Serial<K>(ss: seq<State<K>>, es: seq<Event<K>>)
    requires |ss| == |es| + 1
  {
    forall i :: 0 <= i < |es| && es[i].Select? ==> ss[i].flying == []
  }

  ghost predicate SizesOk<K>(es: seq<Event<K>>) {
    forall i :: 0 <= i < |es| && es[i].Select? ==> es[i].placement.size >= 0
  }

  lemma {:induction false} SerialFlying<K>(start: Ledger<K>, ss: seq<State<K>>, es: seq<Event<K>>, k: nat)
    requires IsRun(start, ss, es) && Serial(ss, es) && SizesOk(es) && k < |ss|
    ensures |ss[k].flying| <= 1
    ensures |ss[k].flying| == 1 ==> Admitted(ss[k].free, ss[k].flying[0]) && ss[k].flying[0].size >= 0
  {
    if k > 0 {
      SerialFlying(start, ss, es, k - 1);
      assert StepAt(ss, es, k - 1);
    }
  }

  ghost predicate ChargeRoomy<K>(ss: seq<State<K>>, es: seq<Event<K>>, k: nat)
    requires k < |es| && |ss| == |es| + 1
  {
    es[k].Charge? && es[k].index < |ss[k].flying| ==> Roomy(ss[k].free, ss[k].flying[es[k].index])
  }

  /** With one request at a time, of whatever size, the checks hold up until the charge: no pool is overdrawn
      if and only if pools chosen as both sides of a placement had room for both. */
  lemma {:induction false} SerialNeverOverdrawnIff<K>(start: Ledger<K>, ss: seq<State<K>>, es: seq<Event<K>>, n: nat)
    requires SoundLedger(start) && IsRun(start, ss, es) && SizesOk(es) && Serial(ss, es) && n < |ss|
    ensures (forall k :: 0 <= k <= n ==> NothingOverdrawn(ss[k].free)) <==>
              forall k :: 0 <= k < n ==> ChargeRoomy(ss, es, k)
    ensures (forall k :: 0 <= k <= n ==> NothingOverdrawn(ss[k].free)) ==> AllInt64(ss[n].free)
  {
    if n > 0 {
      SerialNeverOverdrawnIff(start, ss, es, n - 1);
      assert StepAt(ss, es, n - 1);
      if forall k :: 0 <= k <= n - 1 ==> NothingOverdrawn(ss[k].free) {
        assert NothingOverdrawn(ss[n - 1].free);
        SerialFlying(start, ss, es, n - 1);
        if es[n - 1].Charge? {
          AdmittedOverdrawsNothingIff(ss[n - 1].free, ss[n - 1].flying[es[n - 1].index]);
        }
        assert NothingOverdrawn(ss[n].free) <==> ChargeRoomy(ss, es, n - 1);
      }
    }
  }

  /** A run goes on with one request that is selected and charged at once. */
  lemma ServeOne<K>(start: Ledger<K>, ss: seq<State<K>>, es: seq<Event<K>>, pl: Placement<K>)
    returns (ss': seq<State<K>>, es': seq<Event<K>>)
    requires IsRun(start, ss, es) && Serial(ss, es) && ss[|es|].flying == [] && Admitted(ss[|es|].free, pl)
    ensures IsRun(start, ss', es') && Serial(ss', es') && es' == es + [Select(pl), Charge(0)]
    ensures ss'[|es'|] == State(Apply(ss[|es|].free, pl), [], ss[|es|].done + [pl])
  {
    var s := ss[|es|];
    var chosen := State(s.free, [pl], s.done);
    var charged := State(Apply(s.free, pl), [], s.done + [pl]);
    ss', es' := ss + [chosen, charged], es + [Select(pl), Charge(0)];
    assert [] + [pl] == [pl] && [pl][..0] + [pl][1..] == [];
    forall i | 0 <= i < |es'| ensures StepAt(ss', es', i) {
      if i < |es| { assert StepAt(ss, es, i); }
    }
  }

  /** The two sides of every placement are different pools. */
  ghost predicate SidesDiffer<K>(es: seq<Event<K>>) {
    forall i :: 0 <= i < |es| && es[i].Select? ==> es[i].placement.remote != Some(es[i].placement.local)
  }

  lemma {:induction false} FlyingDiffer<K>(start: Ledger<K>, ss: seq<State<K>>, es: seq<Event<K>>, k: nat)
    requires IsRun(start, ss, es) && SidesDiffer(es) && k < |ss|
    ensures forall i :: 0 <= i < |ss[k].flying| ==> ss[k].flying[i].remote != Some(ss[k].flying[i].local)
  {
    if k > 0 {
      FlyingDiffer(start, ss, es, k - 1);
      assert StepAt(ss, es, k - 1);
    }
  }

  /** With one request at a time and different pools on the two sides, no pool is ever overdrawn. */
  lemma SerialRunNeverOverdraws<K>(start: Ledger<K>, ss: seq<State<K>>, es: seq<Event<K>>, n: nat)
    requires SoundLedger(start) && IsRun(start, ss, es) && SizesOk(es) && Serial(ss, es) && SidesDiffer(es) && n < |ss|
    ensures NothingOverdrawn(ss[n].free)
  {
    SerialNeverOverdrawnIff(start, ss, es, n);
    forall k | 0 <= k < n ensures ChargeRoomy(ss, es, k) {
      FlyingDiffer(start, ss, es, k);
    }
  }

  lemma Overdraw(pl: Placement<string>)
    requires pl == Placement("p", None, 6, true)
    ensures Apply(map["p" := 10], pl) == map["p" := 4] && Apply(map["p" := 4], pl) == map["p" := -2]
  {
  }

  /** Nothing in the source keeps requests apart: two that are checked before either is charged both
      pass, and overdraw the pool. */
  lemma OverlapOverdraws() returns (ss: seq<State<string>>, es: seq<Event<string>>)
    ensures IsRun(map["p" := 10], ss, es)
    ensures forall i :: 0 <= i < |es| && es[i].Select? ==> es[i].placement.size == 6
    ensures "p" in ss[|es|].free && ss[|es|].free["p"] == -2
  {
    var pl := Placement("p", None, 6, true);
    Overdraw(pl);
    var f0: Ledger<string> := map["p" := 10];
    var f1: Ledger<string> := map["p" := 4];
    var f2: Ledger<string> := map["p" := -2];
    es := [Select(pl), Select(pl), Charge(0), Charge(0)];
    ss := [State(f0, [], []), State(f0, [pl], []), State(f0, [pl, pl], []), State(f1, [pl], [pl]),
          State(f2, [], [pl, pl])];
    assert [pl] + [pl] == [pl, pl] && [pl, pl][..0] + [pl, pl][1..] == [pl];
    assert [pl][..0] + [pl][1..] == [];
    assert StepAt(ss, es, 0) && StepAt(ss, es, 1) && StepAt(ss, es, 2) && StepAt(ss, es, 3);
    assert IsRun(f0, ss, es);
  }
}
