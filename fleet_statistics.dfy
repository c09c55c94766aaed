/**
 * The fleet-statistics aggregate of the data-access layer: the batch summary
 * the merger receives, the update document it builds (`$inc`, `$min`, `$max`,
 * `$set`), what the store does with that update on the singleton document
 * `real_time_fleet_stats`, and the read-time projection (average and decade keys).
 */
module FleetStatistics {
  import opened Wrappers

  /** A horsepower bound as a JS number: a finite value or one of the infinities. */
  datatype Bound = NegInf | Fin(n: int) | PosInf

  /** The numeric order on bounds. */
  predicate BoundLe(a: Bound, b: Bound) {
    a.NegInf? || b.PosInf? || (a.Fin? && b.Fin? && a.n <= b.n)
  }

  /** The smaller of two bounds, as `$min` compares them. */
  function MinBound(a: Bound, b: Bound): (r: Bound)
    ensures BoundLe(r, a) && BoundLe(r, b)
    ensures r == a || r == b
  {
    if BoundLe(a, b) then a else b
  }

  /** The larger of two bounds, as `$max` compares them. */
  function MaxBound(a: Bound, b: Bound): (r: Bound)
    ensures BoundLe(a, r) && BoundLe(b, r)
    ensures r == a || r == b
  {
    if BoundLe(a, b) then b else a
  }

  /** A per-category counter map; a missing key reads as 0. */
  type Counts = map<string, int>

  function Count(m: Counts, k: string): int {
    if k in m then m[k] else 0
  }

  /** The effect of one `$inc` per key of `delta`: missing counters start at 0 and are created. */
  function IncAll(m: Counts, delta: Counts): (r: Counts)
    ensures r.Keys == m.Keys + delta.Keys
    ensures forall k :: Count(r, k) == Count(m, k) + Count(delta, k)
  {
    map k | k in m.Keys + delta.Keys :: Count(m, k) + Count(delta, k)
  }

  // ----- The batch summary (`batchStats`), an input of the merger -----

  datatype HpSummary = HpSummary(sum: int, count: int, min: Bound, max: Bound)

  datatype BatchStats = BatchStats(
    totalVehicles: int,
    vehiclesByType: Counts,
    vehiclesByDecade: Counts,
    vehiclesBySpeedClass: Counts,
    hpStats: HpSummary)

  /** The summary of a batch without records: no counts, and both bounds at their sentinels. */
  const EmptyBatch := BatchStats(0, map[], map[], map[], HpSummary(0, 0, PosInf, NegInf))

  // ----- The update document -----

  /**
   * The update `updateFleetStatistics$` sends: the `$inc` entries grouped by path
   * prefix, the optional `$min`/`$max` on the horsepower bounds, and `$set` of
   * `lastUpdated`.
   */
  datatype FleetUpdate = FleetUpdate(
    incTotalVehicles: int,
    incByType: Counts,
    incByDecade: Counts,
    incBySpeedClass: Counts,
    incHpSum: int,
    incHpCount: int,
    minHp: Option<Bound>,
    maxHp: Option<Bound>,
    setLastUpdated: string)

  /** The update built from `b` at time `now`; a bound equal to its sentinel adds no `$min`/`$max`. */
  function UpdateOf(b: BatchStats, now: string): FleetUpdate {
    FleetUpdate(
      b.totalVehicles,
      b.vehiclesByType, b.vehiclesByDecade, b.vehiclesBySpeedClass,
      b.hpStats.sum, b.hpStats.count,
      if b.hpStats.min != PosInf then Some(b.hpStats.min) else None,
      if b.hpStats.max != NegInf then Some(b.hpStats.max) else None,
      now)
  }

  /** One `update.$inc[prefix + key] = source[key]` per key of `source`. */
  method CopyIncrements(source: Counts) returns (inc: Counts)
    ensures inc == source
  {
    inc := map[];
    var pending := source.Keys;
    while pending != {}
      invariant pending <= source.Keys
      invariant inc.Keys == source.Keys - pending
      invariant forall k :: k in inc ==> inc[k] == source[k]
      decreases pending
    {
      var k :| k in pending;
      inc := inc[k := source[k]];
      pending := pending - {k};
    }
  }

  /** Builds the update object step by step, as the data-access layer does. */
  method BuildUpdate(b: BatchStats, now: string) returns (u: FleetUpdate)
    ensures u == UpdateOf(b, now)
  {
    var byType := CopyIncrements(b.vehiclesByType);
    var byDecade := CopyIncrements(b.vehiclesByDecade);
    var bySpeedClass := CopyIncrements(b.vehiclesBySpeedClass);
    u := FleetUpdate(b.totalVehicles, byType, byDecade, bySpeedClass,
                     b.hpStats.sum, b.hpStats.count, None, None, now);
    if b.hpStats.min != PosInf {
      u := u.(minHp := Some(b.hpStats.min));
    }
    if b.hpStats.max != NegInf {
      u := u.(maxHp := Some(b.hpStats.max));
    }
  }

  // ----- The stored aggregate and what the store does with an update -----

  /** `hpStats` as stored; an absent `min`/`max`/`avg` field is `None`. */
  datatype HpStats = HpStats(min: Option<Bound>, max: Option<Bound>, sum: int, count: int, avg: Option<real>)

  /** The `real_time_fleet_stats` document (also the shape of the view returned to callers). */
  datatype FleetAggregate = FleetAggregate(
    totalVehicles: int,
    vehiclesByType: Counts,
    vehiclesByDecade: Counts,
    vehiclesBySpeedClass: Counts,
    hpStats: HpStats,
    lastUpdated: string)

  /** The document an upsert starts from when there is none: every field absent. */
  const Absent := FleetAggregate(0, map[], map[], map[], HpStats(None, None, 0, 0, None), "")

  /** `$min` on a field: sets an absent field, otherwise keeps the smaller value. */
  function ApplyMin(field: Option<Bound>, op: Option<Bound>): (r: Option<Bound>)
    ensures op.None? ==> r == field
    ensures op.Some? && field.None? ==> r == op
    ensures op.Some? && field.Some? ==>
      r.Some? && BoundLe(r.value, field.value) && BoundLe(r.value, op.value) && (r.value == field.value || r.value == op.value)
  {
    match op
    case None => field
    case Some(v) => if field.None? then Some(v) else Some(MinBound(field.value, v))
  }

  /** `$max` on a field: sets an absent field, otherwise keeps the larger value. */
  function ApplyMax(field: Option<Bound>, op: Option<Bound>): (r: Option<Bound>)
    ensures op.None? ==> r == field
    ensures op.Some? && field.None? ==> r == op
    ensures op.Some? && field.Some? ==>
      r.Some? && BoundLe(field.value, r.value) && BoundLe(op.value, r.value) && (r.value == field.value || r.value == op.value)
  {
    match op
    case None => field
    case Some(v) => if field.None? then Some(v) else Some(MaxBound(field.value, v))
  }

  /** `findOneAndUpdate({ _id: 'real_time_fleet_stats' }, u, { upsert: true })`: the new document. */
  function Apply(stored: Option<FleetAggregate>, u: FleetUpdate): FleetAggregate {
    var a := stored.GetOr(Absent);
    FleetAggregate(
      a.totalVehicles + u.incTotalVehicles,
      IncAll(a.vehiclesByType, u.incByType),
      IncAll(a.vehiclesByDecade, u.incByDecade),
      IncAll(a.vehiclesBySpeedClass, u.incBySpeedClass),
      ApplyHp(a.hpStats, u),
      u.setLastUpdated)
  }

  /** The part of the update on `hpStats`: two `$inc`, the optional `$min` and `$max`. */
  function ApplyHp(hp: HpStats, u: FleetUpdate): HpStats {
    HpStats(ApplyMin(hp.min, u.minHp), ApplyMax(hp.max, u.maxHp), hp.sum + u.incHpSum, hp.count + u.incHpCount, hp.avg)
  }

  /** The stored aggregate after folding batch `b` into it at time `now`. */
  function Merge(stored: Option<FleetAggregate>, b: BatchStats, now: string): FleetAggregate {
    Apply(stored, UpdateOf(b, now))
  }

  /** Every counter moves by exactly the batch amount; other keys are untouched. */
  lemma MergeIncrements(stored: Option<FleetAggregate>, b: BatchStats, now: string)
    ensures var a, base := Merge(stored, b, now), stored.GetOr(Absent);
      && a.totalVehicles == base.totalVehicles + b.totalVehicles
      && a.vehiclesByType.Keys == base.vehiclesByType.Keys + b.vehiclesByType.Keys
      && a.vehiclesByDecade.Keys == base.vehiclesByDecade.Keys + b.vehiclesByDecade.Keys
      && a.vehiclesBySpeedClass.Keys == base.vehiclesBySpeedClass.Keys + b.vehiclesBySpeedClass.Keys
      && (forall k :: Count(a.vehiclesByType, k) == Count(base.vehiclesByType, k) + Count(b.vehiclesByType, k))
      && (forall k :: Count(a.vehiclesByDecade, k) == Count(base.vehiclesByDecade, k) + Count(b.vehiclesByDecade, k))
      && (forall k :: Count(a.vehiclesBySpeedClass, k) == Count(base.vehiclesBySpeedClass, k) + Count(b.vehiclesBySpeedClass, k))
      && (forall k :: k in base.vehiclesByType && k !in b.vehiclesByType ==> a.vehiclesByType[k] == base.vehiclesByType[k])
      && (forall k :: k in base.vehiclesByDecade && k !in b.vehiclesByDecade ==> a.vehiclesByDecade[k] == base.vehiclesByDecade[k])
      && (forall k :: k in base.vehiclesBySpeedClass && k !in b.vehiclesBySpeedClass ==> a.vehiclesBySpeedClass[k] == base.vehiclesBySpeedClass[k])
      && a.hpStats.sum == base.hpStats.sum + b.hpStats.sum
      && a.hpStats.count == base.hpStats.count + b.hpStats.count
      && a.hpStats.avg == base.hpStats.avg
      && a.lastUpdated == now
  {
    var a, base := Merge(stored, b, now), stored.GetOr(Absent);
    forall k | k in base.vehiclesByType && k !in b.vehiclesByType
      ensures a.vehiclesByType[k] == base.vehiclesByType[k]
    {
      assert Count(a.vehiclesByType, k) == Count(base.vehiclesByType, k);
    }
    forall k | k in base.vehiclesByDecade && k !in b.vehiclesByDecade
      ensures a.vehiclesByDecade[k] == base.vehiclesByDecade[k]
    {
      assert Count(a.vehiclesByDecade, k) == Count(base.vehiclesByDecade, k);
    }
    forall k | k in base.vehiclesBySpeedClass && k !in b.vehiclesBySpeedClass
      ensures a.vehiclesBySpeedClass[k] == base.vehiclesBySpeedClass[k]
    {
      assert Count(a.vehiclesBySpeedClass, k) == Count(base.vehiclesBySpeedClass, k);
    }
  }

  /**
   * The horsepower bounds move in one direction: `min` takes the batch minimum
   * only when it is not +Infinity, `max` the batch maximum only when it is not
   * -Infinity; a stored `min` never grows and a stored `max` never shrinks.
   */
  lemma MergeBounds(stored: Option<FleetAggregate>, b: BatchStats, now: string)
    ensures var a, base := Merge(stored, b, now), stored.GetOr(Absent);
      && (b.hpStats.min == PosInf ==> a.hpStats.min == base.hpStats.min)
      && (b.hpStats.min != PosInf ==> a.hpStats.min.Some? && BoundLe(a.hpStats.min.value, b.hpStats.min))
      && (b.hpStats.min != PosInf && base.hpStats.min.None? ==> a.hpStats.min == Some(b.hpStats.min))
      && (base.hpStats.min.Some? ==> a.hpStats.min.Some? && BoundLe(a.hpStats.min.value, base.hpStats.min.value))
      && (b.hpStats.min != PosInf && base.hpStats.min.Some? ==>
            a.hpStats.min == Some(MinBound(base.hpStats.min.value, b.hpStats.min)))
      && (b.hpStats.max == NegInf ==> a.hpStats.max == base.hpStats.max)
      && (b.hpStats.max != NegInf ==> a.hpStats.max.Some? && BoundLe(b.hpStats.max, a.hpStats.max.value))
      && (b.hpStats.max != NegInf && base.hpStats.max.None? ==> a.hpStats.max == Some(b.hpStats.max))
      && (base.hpStats.max.Some? ==> a.hpStats.max.Some? && BoundLe(base.hpStats.max.value, a.hpStats.max.value))
      && (b.hpStats.max != NegInf && base.hpStats.max.Some? ==>
            a.hpStats.max == Some(MaxBound(base.hpStats.max.value, b.hpStats.max)))
  {
  }

  /** When no aggregate exists, the upsert stores the batch itself. */
  lemma MergeIntoNothing(b: BatchStats, now: string)
    ensures Merge(None, b, now) == FleetAggregate(
      b.totalVehicles, b.vehiclesByType, b.vehiclesByDecade, b.vehiclesBySpeedClass,
      HpStats(
        if b.hpStats.min == PosInf then None else Some(b.hpStats.min),
        if b.hpStats.max == NegInf then None else Some(b.hpStats.max),
        b.hpStats.sum, b.hpStats.count, None),
      now)
  {
    IncAllIdentity(b.vehiclesByType);
    IncAllIdentity(b.vehiclesByDecade);
    IncAllIdentity(b.vehiclesBySpeedClass);
  }

  /** Merging the summary of an empty batch changes nothing but `lastUpdated`. */
  lemma MergeEmptyBatch(a: FleetAggregate, now: string)
    ensures Merge(Some(a), EmptyBatch, now) == a.(lastUpdated := now)
  {
    IncAllNothing(a.vehiclesByType);
    IncAllNothing(a.vehiclesByDecade);
    IncAllNothing(a.vehiclesBySpeedClass);
  }

  lemma IncAllIdentity(delta: Counts)
    ensures IncAll(map[], delta) == delta
  {
  }

  lemma IncAllNothing(m: Counts)
    ensures IncAll(m, map[]) == m
  {
  }

  /** Two increments commute. */
  lemma IncAllCommutes(m: Counts, d1: Counts, d2: Counts)
    ensures IncAll(IncAll(m, d1), d2) == IncAll(IncAll(m, d2), d1)
  {
    var x, y := IncAll(IncAll(m, d1), d2), IncAll(IncAll(m, d2), d1);
    assert forall k :: k in x ==> Count(x, k) == Count(y, k);
  }

  /** The aggregate with its timestamp blanked, for comparisons that ignore `lastUpdated`. */
  function Untimed(a: FleetAggregate): FleetAggregate {
    a.(lastUpdated := "")
  }

  /** Two `$min` operations commute. */
  lemma ApplyMinCommutes(field: Option<Bound>, o1: Option<Bound>, o2: Option<Bound>)
    ensures ApplyMin(ApplyMin(field, o1), o2) == ApplyMin(ApplyMin(field, o2), o1)
  {
  }

  /** Two `$max` operations commute. */
  lemma ApplyMaxCommutes(field: Option<Bound>, o1: Option<Bound>, o2: Option<Bound>)
    ensures ApplyMax(ApplyMax(field, o1), o2) == ApplyMax(ApplyMax(field, o2), o1)
  {
  }

  /** Two batches merged in either order leave the same aggregate, `lastUpdated` aside. */
  lemma MergeCommutes(stored: Option<FleetAggregate>, b1: BatchStats, t1: string, b2: BatchStats, t2: string)
    ensures Untimed(Merge(Some(Merge(stored, b1, t1)), b2, t2)) == Untimed(Merge(Some(Merge(stored, b2, t2)), b1, t1))
  {
    var base := stored.GetOr(Absent);
    var u1, u2 := UpdateOf(b1, t1), UpdateOf(b2, t2);
    var x, y := Merge(Some(Merge(stored, b1, t1)), b2, t2), Merge(Some(Merge(stored, b2, t2)), b1, t1);
    IncAllCommutes(base.vehiclesByType, b1.vehiclesByType, b2.vehiclesByType);
    IncAllCommutes(base.vehiclesByDecade, b1.vehiclesByDecade, b2.vehiclesByDecade);
    IncAllCommutes(base.vehiclesBySpeedClass, b1.vehiclesBySpeedClass, b2.vehiclesBySpeedClass);
    ApplyMinCommutes(base.hpStats.min, u1.minHp, u2.minHp);
    ApplyMaxCommutes(base.hpStats.max, u1.maxHp, u2.maxHp);
    assert x.hpStats == y.hpStats;
  }

  /** The store never writes `avg`: merging keeps an unset `avg` unset. */
  lemma MergeLeavesAvgUnset(stored: Option<FleetAggregate>, b: BatchStats, now: string)
    requires stored.Some? ==> stored.value.hpStats.avg.None?
    ensures Merge(stored, b, now).hpStats.avg.None?
  {
  }

  // ----- Conservation of the totals -----

  /** The sum of every counter of a category map. */
  ghost function SumCounts(m: Counts): int
    decreases |m|
  {
    if m == map[] then 0 else var k :| k in m; m[k] + SumCounts(m - {k})
  }

  /** The sum does not depend on which key is taken out first. */
  lemma {:induction false} SumCountsRemove(m: Counts, k: string)
    requires k in m
    ensures SumCounts(m) == m[k] + SumCounts(m - {k})
    decreases |m|
  {
    var j :| j in m && SumCounts(m) == m[j] + SumCounts(m - {j});
    if j != k {
      SumCountsRemove(m - {j}, k);
      SumCountsRemove(m - {k}, j);
      assert m - {j} - {k} == m - {k} - {j};
    }
  }

  /** Setting one counter to `v` moves the sum by `v` less its old value. */
  lemma SumCountsUpdate(m: Counts, k: string, v: int)
    ensures SumCounts(m[k := v]) == SumCounts(m) - Count(m, k) + v
  {
    SumCountsRemove(m[k := v], k);
    assert m[k := v] - {k} == m - {k};
    if k in m {
      SumCountsRemove(m, k);
    } else {
      assert m - {k} == m;
    }
  }

  /** `$inc` by `d` is `$inc` by `d` without `k`, then the counter `k` set. */
  lemma IncAllStep(m: Counts, d: Counts, k: string)
    requires k in d
    ensures IncAll(m, d) == IncAll(m, d - {k})[k := Count(m, k) + d[k]]
  {
    var x, y := IncAll(m, d), IncAll(m, d - {k})[k := Count(m, k) + d[k]];
    assert x.Keys == y.Keys;
    forall j | j in x
      ensures x[j] == y[j]
    {
      if j != k {
        assert Count(x, j) == Count(m, j) + Count(d - {k}, j);
      }
    }
  }

  /** Taking one key `k` of `d` out of the `$inc` lowers the sum by exactly `d[k]`. */
  lemma SumCountsIncStep(m: Counts, d: Counts, k: string)
    requires k in d
    ensures SumCounts(IncAll(m, d)) == SumCounts(IncAll(m, d - {k})) + d[k]
  {
    var partial := IncAll(m, d - {k});
    assert Count(partial, k) == Count(m, k);
    IncAllStep(m, d, k);
    SumCountsUpdate(partial, k, Count(m, k) + d[k]);
  }

  /** `$inc` over a category map adds the batch's sum to the stored sum. */
  lemma {:induction false} SumCountsIncAll(m: Counts, d: Counts)
    ensures SumCounts(IncAll(m, d)) == SumCounts(m) + SumCounts(d)
    decreases |d|
  {
    if d == map[] {
      IncAllNothing(m);
    } else {
      var k :| k in d;
      assert (d - {k}).Keys == d.Keys - {k};
      SumCountsIncAll(m, d - {k});
      SumCountsIncStep(m, d, k);
      SumCountsRemove(d, k);
    }
  }

  /**
   * The relation the totals are meant to keep: the counts of each category sum
   * to `totalVehicles`, and so does the horsepower count.
   */
  ghost predicate BatchConserves(b: BatchStats) {
    && SumCounts(b.vehiclesByType) == b.totalVehicles
    && SumCounts(b.vehiclesByDecade) == b.totalVehicles
    && SumCounts(b.vehiclesBySpeedClass) == b.totalVehicles
    && b.hpStats.count == b.totalVehicles
  }

  ghost predicate AggregateConserves(a: FleetAggregate) {
    && SumCounts(a.vehiclesByType) == a.totalVehicles
    && SumCounts(a.vehiclesByDecade) == a.totalVehicles
    && SumCounts(a.vehiclesBySpeedClass) == a.totalVehicles
    && a.hpStats.count == a.totalVehicles
  }

  /** A merge keeps the totals consistent when the stored aggregate and the batch both are. */
  lemma MergeConservesTotals(stored: Option<FleetAggregate>, b: BatchStats, now: string)
    requires stored.Some? ==> AggregateConserves(stored.value)
    requires BatchConserves(b)
    ensures AggregateConserves(Merge(stored, b, now))
  {
    var base := stored.GetOr(Absent);
    SumCountsIncAll(base.vehiclesByType, b.vehiclesByType);
    SumCountsIncAll(base.vehiclesByDecade, b.vehiclesByDecade);
    SumCountsIncAll(base.vehiclesBySpeedClass, b.vehiclesBySpeedClass);
  }

  // ----- Sequences of merges -----

  /** The aggregate after merging every batch of `bs` in order, starting from `stored`. */
  function MergeAll(stored: Option<FleetAggregate>, bs: seq<BatchStats>, now: string): (r: Option<FleetAggregate>)
    ensures bs != [] ==> r.Some?
    decreases |bs|
  {
    if bs == [] then stored else MergeAll(Some(Merge(stored, bs[0], now)), bs[1..], now)
  }

  /** The summary of two batches taken together: counts add up, bounds take the extreme. */
  function Combine(b1: BatchStats, b2: BatchStats): BatchStats {
    BatchStats(
      b1.totalVehicles + b2.totalVehicles,
      IncAll(b1.vehiclesByType, b2.vehiclesByType),
      IncAll(b1.vehiclesByDecade, b2.vehiclesByDecade),
      IncAll(b1.vehiclesBySpeedClass, b2.vehiclesBySpeedClass),
      HpSummary(
        b1.hpStats.sum + b2.hpStats.sum,
        b1.hpStats.count + b2.hpStats.count,
        MinBound(b1.hpStats.min, b2.hpStats.min),
        MaxBound(b1.hpStats.max, b2.hpStats.max)))
  }

  /** The summary of a sequence of batches taken together. */
  function CombineAll(bs: seq<BatchStats>): BatchStats
    decreases |bs|
  {
    if bs == [] then EmptyBatch else Combine(bs[0], CombineAll(bs[1..]))
  }

  lemma IncAllAssociates(m: Counts, d1: Counts, d2: Counts)
    ensures IncAll(IncAll(m, d1), d2) == IncAll(m, IncAll(d1, d2))
  {
    var x, y := IncAll(IncAll(m, d1), d2), IncAll(m, IncAll(d1, d2));
    assert forall k :: k in x ==> Count(x, k) == Count(y, k);
  }

  lemma IncAllSymmetric(d1: Counts, d2: Counts)
    ensures IncAll(d1, d2) == IncAll(d2, d1)
  {
    var x, y := IncAll(d1, d2), IncAll(d2, d1);
    assert forall k :: k in x ==> Count(x, k) == Count(y, k);
  }

  /** Two `$min` operations with sentinel-guarded batch minima act as one on their minimum. */
  lemma ApplyMinTwice(field: Option<Bound>, x1: Bound, x2: Bound)
    ensures ApplyMin(ApplyMin(field, if x1 != PosInf then Some(x1) else None), if x2 != PosInf then Some(x2) else None)
         == ApplyMin(field, var m := MinBound(x1, x2); if m != PosInf then Some(m) else None)
  {
  }

  /** Two `$max` operations with sentinel-guarded batch maxima act as one on their maximum. */
  lemma ApplyMaxTwice(field: Option<Bound>, x1: Bound, x2: Bound)
    ensures ApplyMax(ApplyMax(field, if x1 != NegInf then Some(x1) else None), if x2 != NegInf then Some(x2) else None)
         == ApplyMax(field, var m := MaxBound(x1, x2); if m != NegInf then Some(m) else None)
  {
  }

  /** The horsepower part of two merges is the horsepower part of one merge of the combined batch. */
  lemma ApplyHpTwice(hp: HpStats, b1: BatchStats, t1: string, b2: BatchStats, t2: string, t: string)
    ensures ApplyHp(ApplyHp(hp, UpdateOf(b1, t1)), UpdateOf(b2, t2)) == ApplyHp(hp, UpdateOf(Combine(b1, b2), t))
  {
    ApplyMinTwice(hp.min, b1.hpStats.min, b2.hpStats.min);
    ApplyMaxTwice(hp.max, b1.hpStats.max, b2.hpStats.max);
  }

  /** Merging two batches one after the other is merging their combined summary once. */
  lemma MergeTwice(stored: Option<FleetAggregate>, b1: BatchStats, t1: string, b2: BatchStats, t2: string, t: string)
    ensures Untimed(Merge(Some(Merge(stored, b1, t1)), b2, t2)) == Untimed(Merge(stored, Combine(b1, b2), t))
  {
    var base := stored.GetOr(Absent);
    var x, y := Merge(Some(Merge(stored, b1, t1)), b2, t2), Merge(stored, Combine(b1, b2), t);
    assert x.vehiclesByType == y.vehiclesByType by {
      IncAllAssociates(base.vehiclesByType, b1.vehiclesByType, b2.vehiclesByType);
    }
    assert x.vehiclesByDecade == y.vehiclesByDecade by {
      IncAllAssociates(base.vehiclesByDecade, b1.vehiclesByDecade, b2.vehiclesByDecade);
    }
    assert x.vehiclesBySpeedClass == y.vehiclesBySpeedClass by {
      IncAllAssociates(base.vehiclesBySpeedClass, b1.vehiclesBySpeedClass, b2.vehiclesBySpeedClass);
    }
    ApplyHpTwice(base.hpStats, b1, t1, b2, t2, t);
    assert x.hpStats == y.hpStats;
    assert x.totalVehicles == y.totalVehicles;
    assert Untimed(x) == FleetAggregate(y.totalVehicles, y.vehiclesByType, y.vehiclesByDecade, y.vehiclesBySpeedClass, y.hpStats, "");
  }

  /** The merge reads no timestamp of the stored document. */
  lemma MergeIgnoresTimestamp(a1: FleetAggregate, a2: FleetAggregate, b: BatchStats, now: string)
    requires Untimed(a1) == Untimed(a2)
    ensures Merge(Some(a1), b, now) == Merge(Some(a2), b, now)
  {
    assert a1.(lastUpdated := a2.lastUpdated) == a2;
  }

  /** Merging a sequence of batches in order is merging their combined summary once. */
  lemma {:induction false} MergeAllIsCombinedMerge(stored: Option<FleetAggregate>, bs: seq<BatchStats>, now: string)
    requires stored.Some? || bs != []
    ensures MergeAll(stored, bs, now).Some?
    ensures Untimed(MergeAll(stored, bs, now).value) == Untimed(Merge(stored, CombineAll(bs), now))
    decreases |bs|
  {
    if bs == [] {
      MergeEmptyBatch(stored.value, now);
    } else {
      var first := Merge(stored, bs[0], now);
      MergeAllIsCombinedMerge(Some(first), bs[1..], now);
      MergeTwice(stored, bs[0], now, CombineAll(bs[1..]), now, now);
    }
  }

  lemma CombineIdentity(b: BatchStats)
    ensures Combine(EmptyBatch, b) == b
  {
    IncAllIdentity(b.vehiclesByType);
    IncAllIdentity(b.vehiclesByDecade);
    IncAllIdentity(b.vehiclesBySpeedClass);
  }

  lemma CombineSymmetric(b1: BatchStats, b2: BatchStats)
    ensures Combine(b1, b2) == Combine(b2, b1)
  {
    IncAllSymmetric(b1.vehiclesByType, b2.vehiclesByType);
    IncAllSymmetric(b1.vehiclesByDecade, b2.vehiclesByDecade);
    IncAllSymmetric(b1.vehiclesBySpeedClass, b2.vehiclesBySpeedClass);
  }

  lemma CombineAssociates(b1: BatchStats, b2: BatchStats, b3: BatchStats)
    ensures Combine(Combine(b1, b2), b3) == Combine(b1, Combine(b2, b3))
  {
    var x, y := Combine(Combine(b1, b2), b3), Combine(b1, Combine(b2, b3));
    assert x.vehiclesByType == y.vehiclesByType by {
      IncAllAssociates(b1.vehiclesByType, b2.vehiclesByType, b3.vehiclesByType);
    }
    assert x.vehiclesByDecade == y.vehiclesByDecade by {
      IncAllAssociates(b1.vehiclesByDecade, b2.vehiclesByDecade, b3.vehiclesByDecade);
    }
    assert x.vehiclesBySpeedClass == y.vehiclesBySpeedClass by {
      IncAllAssociates(b1.vehiclesBySpeedClass, b2.vehiclesBySpeedClass, b3.vehiclesBySpeedClass);
    }
    assert x.hpStats == y.hpStats;
  }

  /** Combining a concatenation is combining the combined halves. */
  lemma {:induction false} CombineAllAppend(xs: seq<BatchStats>, ys: seq<BatchStats>)
    ensures CombineAll(xs + ys) == Combine(CombineAll(xs), CombineAll(ys))
  {
    if xs == [] {
      assert xs + ys == ys;
      CombineIdentity(CombineAll(ys));
    } else {
      assert (xs + ys)[1..] == xs[1..] + ys;
      CombineAllAppend(xs[1..], ys);
      CombineAssociates(xs[0], CombineAll(xs[1..]), CombineAll(ys));
    }
  }

  /**
   * Merge order never matters: merging the batches `xs` and then `ys` leaves the
   * same aggregate as merging `ys` and then `xs`, `lastUpdated` aside.
   */
  lemma MergeOrderIndependent(stored: Option<FleetAggregate>, xs: seq<BatchStats>, ys: seq<BatchStats>, now: string)
    requires stored.Some? || xs + ys != []
    ensures MergeAll(stored, xs + ys, now).Some? && MergeAll(stored, ys + xs, now).Some?
    ensures Untimed(MergeAll(stored, xs + ys, now).value) == Untimed(MergeAll(stored, ys + xs, now).value)
  {
    assert |ys + xs| == |xs + ys|;
    MergeAllIsCombinedMerge(stored, xs + ys, now);
    MergeAllIsCombinedMerge(stored, ys + xs, now);
    CombineAllAppend(xs, ys);
    CombineAllAppend(ys, xs);
    CombineSymmetric(CombineAll(xs), CombineAll(ys));
  }

  /** Over any sequence of merges a stored `min` never grows and a stored `max` never shrinks. */
  lemma MergeAllBoundsMonotone(a: FleetAggregate, bs: seq<BatchStats>, now: string)
    ensures MergeAll(Some(a), bs, now).Some?
    ensures var r := MergeAll(Some(a), bs, now).value;
      && (a.hpStats.min.Some? ==> r.hpStats.min.Some? && BoundLe(r.hpStats.min.value, a.hpStats.min.value))
      && (a.hpStats.max.Some? ==> r.hpStats.max.Some? && BoundLe(a.hpStats.max.value, r.hpStats.max.value))
  {
    MergeAllIsCombinedMerge(Some(a), bs, now);
    MergeBounds(Some(a), CombineAll(bs), now);
  }

  /** Conservation over any sequence of merges whose batches each conserve the totals. */
  lemma {:induction false} MergeAllConservesTotals(stored: Option<FleetAggregate>, bs: seq<BatchStats>, now: string)
    requires stored.Some? ==> AggregateConserves(stored.value)
    requires forall i :: 0 <= i < |bs| ==> BatchConserves(bs[i])
    ensures var r := MergeAll(stored, bs, now); r.Some? ==> AggregateConserves(r.value)
    decreases |bs|
  {
    if bs != [] {
      MergeConservesTotals(stored, bs[0], now);
      MergeAllConservesTotals(Some(Merge(stored, bs[0], now)), bs[1..], now);
    }
  }
}
