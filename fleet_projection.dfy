/**
 * The view of the fleet aggregate handed back to callers, both by the read and
 * by the merge: the derived `avg` and the decade keys renamed to `decade<key>`.
 * The view is computed on a copy and never written back.
 */
module FleetProjection {
  import opened Wrappers
  import opened FleetStatistics
  import JsText

  /** The display key of a decade label. */
  function DecadeKey(decade: string): (r: string)
    ensures |r| == |decade| + 6 && r[..6] == "decade" && r[6..] == decade
  {
    "decade" + decade
  }

  /** True of the keys that carry the `decade` prefix. */
  predicate IsDecadeKey(j: string) {
    |j| >= 6 && j[..6] == "decade"
  }

  /** The prefixed form of every key of `m`. */
  function DecadeKeys(m: Counts): set<string> {
    set k | k in m :: DecadeKey(k)
  }

  /** Every decade key `k` renamed to `decade<k>`, its count kept. */
  function PrefixDecades(m: Counts): Counts {
    map j | j in DecadeKeys(m) :: m[j[6..]]
  }

  /** A prefixed key without its prefix. */
  function Undecade(j: string): (r: string)
    requires IsDecadeKey(j)
    ensures DecadeKey(r) == j
  {
    assert j == j[..6] + j[6..];
    j[6..]
  }

  /** The keys of `v` that carry the prefix, with the prefix dropped. */
  function StrippedKeys(v: Counts): set<string> {
    set j | j in v && IsDecadeKey(j) :: Undecade(j)
  }

  /** The inverse renaming: drops the `decade` prefix from the keys that carry it. */
  function StripDecades(v: Counts): Counts {
    map k | k in StrippedKeys(v) :: v[DecadeKey(k)]
  }

  lemma DecadeKeyInjective(k1: string, k2: string)
    ensures DecadeKey(k1) == DecadeKey(k2) ==> k1 == k2
  {
  }

  /** The renaming keeps every count under the prefixed key and adds no other key. */
  lemma PrefixDecadesSpec(m: Counts)
    ensures forall k :: k in m ==> DecadeKey(k) in PrefixDecades(m) && PrefixDecades(m)[DecadeKey(k)] == m[k]
    ensures forall j :: j in PrefixDecades(m) ==> IsDecadeKey(j) && j[6..] in m && PrefixDecades(m)[j] == m[j[6..]]
  {
  }

  /** The renaming keeps the number of keys. */
  lemma {:induction false} PrefixDecadesSize(m: Counts)
    ensures |PrefixDecades(m)| == |m|
    decreases |m|
  {
    if m != map[] {
      var k :| k in m;
      var rest := m - {k};
      PrefixDecadesSize(rest);
      assert DecadeKey(k) !in PrefixDecades(rest);
      assert PrefixDecades(m) == PrefixDecades(rest)[DecadeKey(k) := m[k]];
      assert |rest| == |m| - 1;
    }
  }

  /** Stripping the prefix recovers the stored decade counts. */
  lemma DecadeRoundTrip(m: Counts)
    ensures StripDecades(PrefixDecades(m)) == m
  {
    PrefixDecadesSpec(m);
    var r := PrefixDecades(m);
    forall k | k in m
      ensures k in StripDecades(r) && StripDecades(r)[k] == m[k]
    {
      assert DecadeKey(k)[6..] == k;
    }
  }

  /** `sum / count` as an exact quotient (JS floating point is not modelled). */
  function Mean(sum: int, count: int): (r: real)
    requires count > 0
    ensures r * count as real == sum as real
  {
    sum as real / count as real
  }

  /** The result of `updateFleetStatistics$`: `avg` set when `count > 0`, decade keys renamed. */
  function ProjectUpdated(a: FleetAggregate): FleetAggregate {
    var hp := a.hpStats;
    a.(hpStats := if hp.count > 0 then hp.(avg := Some(Mean(hp.sum, hp.count))) else hp,
       vehiclesByDecade := PrefixDecades(a.vehiclesByDecade))
  }

  /** The zero statistics `getFleetStatistics$` answers with when nothing is stored. */
  function DefaultView(now: string): FleetAggregate {
    FleetAggregate(0, map[], map[], map[], HpStats(Some(Fin(0)), Some(Fin(0)), 0, 0, Some(0.0)), now)
  }

  /**
   * The result of `getFleetStatistics$`: the zero default when nothing is stored;
   * otherwise `avg` is derived when `count > 0` and the stored `avg` is not
   * truthy, and decade keys are renamed.
   */
  function ProjectRead(stored: Option<FleetAggregate>, now: string): FleetAggregate {
    match stored
    case None => DefaultView(now)
    case Some(a) =>
      var hp := a.hpStats;
      a.(hpStats := if hp.count > 0 && !JsText.TruthyNumber(hp.avg) then hp.(avg := Some(Mean(hp.sum, hp.count))) else hp,
         vehiclesByDecade := PrefixDecades(a.vehiclesByDecade))
  }

  /** With nothing stored the read yields zero counts, empty maps and zero horsepower figures. */
  lemma ReadWithoutAggregate(now: string)
    ensures var v := ProjectRead(None, now);
      && v.totalVehicles == 0
      && v.vehiclesByType == map[] && v.vehiclesByDecade == map[] && v.vehiclesBySpeedClass == map[]
      && v.hpStats.min == Some(Fin(0)) && v.hpStats.max == Some(Fin(0))
      && v.hpStats.sum == 0 && v.hpStats.count == 0 && v.hpStats.avg == Some(0.0)
  {
  }

  /**
   * The read view of a stored aggregate keeps every counter and bound, renames
   * the decade keys keeping their counts and number, and carries an `avg` for
   * which `avg * count == sum` whenever `count > 0` and no truthy `avg` was stored.
   */
  lemma ReadOfStored(a: FleetAggregate, now: string)
    ensures var v := ProjectRead(Some(a), now);
      && v.totalVehicles == a.totalVehicles
      && v.vehiclesByType == a.vehiclesByType && v.vehiclesBySpeedClass == a.vehiclesBySpeedClass
      && |v.vehiclesByDecade| == |a.vehiclesByDecade|
      && (forall k :: k in a.vehiclesByDecade ==> v.vehiclesByDecade[DecadeKey(k)] == a.vehiclesByDecade[k])
      && StripDecades(v.vehiclesByDecade) == a.vehiclesByDecade
      && v.hpStats.(avg := None) == a.hpStats.(avg := None)
      && (a.hpStats.count > 0 && !JsText.TruthyNumber(a.hpStats.avg) ==>
            v.hpStats.avg.Some? && v.hpStats.avg.value * a.hpStats.count as real == a.hpStats.sum as real)
      && (a.hpStats.count <= 0 || JsText.TruthyNumber(a.hpStats.avg) ==> v.hpStats.avg == a.hpStats.avg)
      && v.lastUpdated == a.lastUpdated
  {
    PrefixDecadesSpec(a.vehiclesByDecade);
    PrefixDecadesSize(a.vehiclesByDecade);
    DecadeRoundTrip(a.vehiclesByDecade);
  }

  /**
   * The view `updateFleetStatistics$` returns carries `avg` with
   * `avg * count == sum` exactly when `count > 0`, and the renamed decades.
   */
  lemma UpdatedViewOf(a: FleetAggregate)
    ensures var v := ProjectUpdated(a);
      && v.totalVehicles == a.totalVehicles
      && v.vehiclesByType == a.vehiclesByType && v.vehiclesBySpeedClass == a.vehiclesBySpeedClass
      && |v.vehiclesByDecade| == |a.vehiclesByDecade|
      && StripDecades(v.vehiclesByDecade) == a.vehiclesByDecade
      && v.hpStats.(avg := None) == a.hpStats.(avg := None)
      && (a.hpStats.count > 0 ==> v.hpStats.avg.Some? && v.hpStats.avg.value * a.hpStats.count as real == a.hpStats.sum as real)
      && (a.hpStats.count <= 0 ==> v.hpStats.avg == a.hpStats.avg)
  {
    PrefixDecadesSpec(a.vehiclesByDecade);
    PrefixDecadesSize(a.vehiclesByDecade);
    DecadeRoundTrip(a.vehiclesByDecade);
  }

  /**
   * The view returned by a merge equals what a read right after it returns,
   * since the store never holds an `avg`.
   */
  lemma UpdatedViewIsReadView(stored: Option<FleetAggregate>, b: BatchStats, now: string, later: string)
    requires stored.Some? ==> stored.value.hpStats.avg.None?
    ensures ProjectUpdated(Merge(stored, b, now)) == ProjectRead(Some(Merge(stored, b, now)), later)
  {
    MergeLeavesAvgUnset(stored, b, now);
  }

  /** `Object.keys(decades).forEach(d => mappedDecades['decade' + d] = decades[d])`. */
  method RemapDecades(m: Counts) returns (mapped: Counts)
    ensures mapped == PrefixDecades(m)
  {
    mapped := map[];
    var pending := m.Keys;
    while pending != {}
      invariant pending <= m.Keys
      invariant mapped == PrefixDecades(m - pending)
      decreases pending
    {
      var k :| k in pending;
      assert PrefixDecades(m - (pending - {k})) == mapped[DecadeKey(k) := m[k]];
      mapped := mapped[DecadeKey(k) := m[k]];
      pending := pending - {k};
    }
    assert m - pending == m;
  }

  /** The tail of `updateFleetStatistics$`: fills `avg`, then replaces the decade map. */
  method ProjectAfterUpdate(stats: FleetAggregate) returns (view: FleetAggregate)
    ensures view == ProjectUpdated(stats)
  {
    view := stats;
    if view.hpStats.count > 0 {
      view := view.(hpStats := view.hpStats.(avg := Some(Mean(view.hpStats.sum, view.hpStats.count))));
    }
    var mapped := RemapDecades(view.vehiclesByDecade);
    view := view.(vehiclesByDecade := mapped);
  }

  /** The body of `getFleetStatistics$` once the stored document (or its absence) is known. */
  method ProjectOnRead(stored: Option<FleetAggregate>, now: string) returns (view: FleetAggregate)
    ensures view == ProjectRead(stored, now)
  {
    if stored.None? {
      return DefaultView(now);
    }
    view := stored.value;
    if view.hpStats.count > 0 && !JsText.TruthyNumber(view.hpStats.avg) {
      view := view.(hpStats := view.hpStats.(avg := Some(Mean(view.hpStats.sum, view.hpStats.count))));
    }
    var mapped := RemapDecades(view.vehiclesByDecade);
    view := view.(vehiclesByDecade := mapped);
  }
}
