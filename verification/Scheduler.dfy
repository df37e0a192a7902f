/**
  The weighted bonding scheduler: weights from path health or from an
  advertisement, and smooth weighted round robin over the positive ones.
  Weights and accumulators are real numbers.
*/
module Scheduler {
  import opened Prelude
  import opened Sums
  import opened Health

  datatype Decision = Send(path: u8) | Skip

  type Weights = map<u8, real>

  /** The paths that take part in the round robin. */
  function Positive(w: Weights): set<u8> {
    set p | p in w && w[p] > 0.0
  }

  // ---------------------------------------------------------------------
  // What each operation promises
  // ---------------------------------------------------------------------

  /** The accumulator of `p` after it advanced by its weight. */
  function Advanced(w: Weights, current: Weights, p: u8): real {
    Get(current, p) + Get(w, p)
  }

  /**
    One round: every positive path advances by its weight, the lowest identifier
    among the furthest ones is chosen and pays back `total`; nothing else moves.
  */
  ghost predicate Decided(w: Weights, total: real, before: Weights, after: Weights, d: Decision) {
    match d
    case Skip => Positive(w) == {} && after == before
    case Send(p) =>
      && p in Positive(w)
      && (forall q :: q in Positive(w) ==>
            && Advanced(w, before, q) <= Advanced(w, before, p)
            && (q < p ==> Advanced(w, before, q) < Advanced(w, before, p)))
      && after.Keys == before.Keys + Positive(w)
      && after[p] == Advanced(w, before, p) - total
      && (forall q :: q in Positive(w) && q != p ==> after[q] == Advanced(w, before, q))
      && (forall q :: q in before && q !in Positive(w) ==> after[q] == before[q])
  }

  /** The choice is a function of weights and accumulators: no iteration order shows. */
  lemma DecidedIsDeterministic(w: Weights, total: real, before: Weights,
                               a1: Weights, d1: Decision, a2: Weights, d2: Decision)
    requires Decided(w, total, before, a1, d1) && Decided(w, total, before, a2, d2)
    ensures d1 == d2 && a1 == a2
  {
    if d1.Send? && d2.Send? {
      assert !(d1.path < d2.path) && !(d2.path < d1.path);
    }
  }

  /** The path of greatest weight below `bound`; among equals the active one, else the lowest. */
  ghost predicate PreferredBelow(w: Weights, bound: nat, active: Option<u8>, r: Option<u8>) {
    match r
    case None => forall q :: q in Positive(w) ==> q >= bound
    case Some(p) =>
      && p in Positive(w) && p < bound
      && (forall q :: q in w && q < bound ==> w[q] <= w[p])
      && (if active.Some? && active.value in w && active.value < bound && w[active.value] == w[p] then p == active.value
          else forall q :: q in w && q < bound && w[q] == w[p] ==> p <= q)
  }

  ghost predicate Preferred(w: Weights, active: Option<u8>, r: Option<u8>) {
    PreferredBelow(w, 256, active, r)
  }

  lemma PreferredIsDeterministic(w: Weights, active: Option<u8>, r1: Option<u8>, r2: Option<u8>)
    requires Preferred(w, active, r1) && Preferred(w, active, r2)
    ensures r1 == r2
  {
    if r1.Some? && r2.Some? {
      assert w[r1.value] == w[r2.value];
    }
  }

  function RawWeight(m: Metrics): real {
    if IsEligible(m) then Score(m) else 0.0
  }

  function RawWeights(metrics: map<u8, Metrics>): Weights {
    map p | p in metrics :: RawWeight(metrics[p])
  }

  /** The weights computed from a health snapshot. */
  ghost predicate WeightsFromHealth(metrics: map<u8, Metrics>, w: Weights, total: real) {
    var rawTotal := Sum(RawWeights(metrics), metrics.Keys);
    if rawTotal > 0.0 then
      && w.Keys == metrics.Keys
      && (forall p :: p in metrics ==> w[p] == RawWeight(metrics[p]) / rawTotal)
      && total == 1.0
    else w == map[] && total == 0.0
  }

  function Accepted(entries: seq<(u8, real)>): Weights {
    if entries == [] then map[]
    else
      var (p, w) := entries[|entries| - 1];
      var before := Accepted(entries[..|entries| - 1]);
      if w > 0.0 then before[p := w] else before
  }

  function AcceptedTotal(entries: seq<(u8, real)>): real {
    if entries == [] then 0.0
    else
      var w := entries[|entries| - 1].1;
      AcceptedTotal(entries[..|entries| - 1]) + if w > 0.0 then w else 0.0
  }

  /** The weights adopted from an advertisement: positive entries only, the last one per path, over the total of all. */
  ghost predicate WeightsFromEntries(entries: seq<(u8, real)>, w: Weights, total: real) {
    var accepted := Accepted(entries);
    && w.Keys == accepted.Keys
    && (AcceptedTotal(entries) > 0.0 ==>
          total == 1.0 && forall p :: p in w ==> w[p] == accepted[p] / AcceptedTotal(entries))
    && (AcceptedTotal(entries) <= 0.0 ==> total == 0.0 && w == accepted)
  }

  // ---------------------------------------------------------------------
  // Steps
  // ---------------------------------------------------------------------

  /** The scheduler as a value. */
  datatype Mix = Mix(metrics: map<u8, Metrics>, weights: Weights, total: real, current: Weights)

  const NO_MIX := Mix(map[], map[], 0.0, map[])

  datatype MixOp =
    | Update(paths: seq<u8>, known: map<u8, Metrics>)
    | Meter(path: u8, seen: Metrics)
    | Adopt(entries: seq<(u8, real)>)
    | Pick(d: Decision)

  function Snapshot(paths: seq<u8>, known: map<u8, Metrics>): map<u8, Metrics> {
    map p | p in paths :: if p in known then known[p] else UNMETERED
  }

  lemma SnapshotSnoc(paths: seq<u8>, p: u8, known: map<u8, Metrics>)
    ensures Snapshot(paths + [p], known) == Snapshot(paths, known)[p := if p in known then known[p] else UNMETERED]
  {
  }

  ghost predicate MixStep(m: Mix, op: MixOp, n: Mix) {
    match op
    case Update(paths, known) =>
      n.metrics == Snapshot(paths, known) && n.current == m.current && WeightsFromHealth(n.metrics, n.weights, n.total)
    case Meter(path, seen) =>
      n.metrics == m.metrics[path := seen] && n.current == m.current && WeightsFromHealth(n.metrics, n.weights, n.total)
    case Adopt(entries) =>
      n.metrics == map[] && n.current == m.current && WeightsFromEntries(entries, n.weights, n.total)
    case Pick(d) =>
      n == m.(current := n.current) && Decided(m.weights, m.total, m.current, n.current, d)
  }

  // ---------------------------------------------------------------------
  // The object
  // ---------------------------------------------------------------------

  ghost predicate Ascends(ids: seq<u8>, keys: set<u8>) {
    && (forall i, j :: 0 <= i < j < |ids| ==> ids[i] < ids[j])
    && (forall p :: p in keys <==> p in ids)
  }

  method Ascending(keys: set<u8>) returns (ids: seq<u8>)
    ensures Ascends(ids, keys)
  {
    ids := [];
    for p := 0 to 256
      invariant forall i, j :: 0 <= i < j < |ids| ==> ids[i] < ids[j]
      invariant forall i :: 0 <= i < |ids| ==> ids[i] in keys && ids[i] < p
      invariant forall q :: q in keys && q < p ==> q in ids
    {
      if p in keys {
        ids := ids + [p];
      }
    }
  }

  /** The identifiers below this bound are the first `i` of the listing. */
  function Bound(ids: seq<u8>, i: nat): nat {
    if i < |ids| then ids[i] else 256
  }

  lemma BoundSplits(ids: seq<u8>, keys: set<u8>, i: nat)
    requires Ascends(ids, keys) && i < |ids|
    ensures ids[i] in keys
    ensures forall q :: q in keys ==> (q < Bound(ids, i + 1) <==> q <= ids[i])
    ensures forall q :: q in keys ==> Bound(ids, 0) <= q
  {
    assert ids[i] in ids;
    forall q | q in keys ensures (q < Bound(ids, i + 1) <==> q <= ids[i]) && Bound(ids, 0) <= q {
      var k :| 0 <= k < |ids| && ids[k] == q;
      assert k == i || (k < i && ids[k] < ids[i]) || (i < k && ids[i] < ids[k]);
      assert i + 1 < |ids| ==> k == i + 1 || (k < i + 1 && ids[k] < ids[i + 1]) || (i + 1 < k && ids[i + 1] < ids[k]);
    }
  }

  /** `best` is the lowest among the furthest positive paths below `bound`. */
  ghost predicate Furthest(w: Weights, before: Weights, bound: nat, best: u8) {
    && best in Positive(w) && best < bound
    && forall q :: q in Positive(w) && q < bound ==>
         && Advanced(w, before, q) <= Advanced(w, before, best)
         && (q < best ==> Advanced(w, before, q) < Advanced(w, before, best))
  }

  /** The positive paths below `bound` have advanced, the other accumulators have not moved. */
  ghost predicate AdvancedTo(w: Weights, before: Weights, bound: nat, current: Weights) {
    && (forall q :: q in current <==> q in before || (q in Positive(w) && q < bound))
    && (forall q :: q in current ==>
          current[q] == if q in Positive(w) && q < bound then Advanced(w, before, q) else before[q])
  }

  lemma AdvanceOne(w: Weights, before: Weights, ids: seq<u8>, i: nat, current: Weights)
    requires Ascends(ids, Positive(w)) && i < |ids| && AdvancedTo(w, before, Bound(ids, i), current)
    ensures Get(current, ids[i]) == Get(before, ids[i]) && ids[i] in w
    ensures AdvancedTo(w, before, Bound(ids, i + 1), current[ids[i] := Advanced(w, before, ids[i])])
  {
    BoundSplits(ids, Positive(w), i);
  }

  lemma FurthestOne(w: Weights, before: Weights, ids: seq<u8>, i: nat, best: u8)
    requires Ascends(ids, Positive(w)) && i < |ids|
    requires i > 0 ==> Furthest(w, before, Bound(ids, i), best)
    ensures var p := ids[i];
            var better := i == 0 || Advanced(w, before, p) > Advanced(w, before, best);
            Furthest(w, before, Bound(ids, i + 1), if better then p else best)
  {
    BoundSplits(ids, Positive(w), i);
    if i == 0 {
      BoundSplits(ids, Positive(w), 0);
    }
  }

  class WeightedBondingScheduler {
    var metrics: map<u8, Metrics>
    var weights: Weights
    var current: Weights
    var totalWeight: real

    ghost function View(): Mix
      reads this
    {
      Mix(metrics, weights, totalWeight, current)
    }

    constructor ()
      ensures View() == NO_MIX
    {
      metrics := map[];
      weights := map[];
      current := map[];
      totalWeight := 0.0;
    }

    method UpdateFrom(paths: seq<u8>, known: map<u8, Metrics>)
      modifies `metrics, `weights, `totalWeight
      ensures metrics == Snapshot(paths, known)
      ensures WeightsFromHealth(metrics, weights, totalWeight)
      ensures MixStep(old(View()), Update(paths, known), View())
    {
      metrics := map[];
      for i := 0 to |paths|
        invariant metrics == Snapshot(paths[..i], known)
      {
        var p := paths[i];
        SnapshotSnoc(paths[..i], p, known);
        assert paths[..i + 1] == paths[..i] + [p];
        metrics := metrics[p := if p in known then known[p] else UNMETERED];
      }
      assert paths[..|paths|] == paths;
      Recompute();
    }

    /** One path's metrics change. */
    method UpdateMetrics(path: u8, seen: Metrics)
      modifies `metrics, `weights, `totalWeight
      ensures metrics == old(metrics)[path := seen]
      ensures WeightsFromHealth(metrics, weights, totalWeight)
      ensures MixStep(old(View()), Meter(path, seen), View())
    {
      metrics := metrics[path := seen];
      Recompute();
    }

    method Recompute()
      modifies `weights, `totalWeight
      ensures WeightsFromHealth(metrics, weights, totalWeight)
    {
      var raw: Weights := map[];
      var total := 0.0;
      var pending := metrics.Keys;
      while pending != {}
        invariant pending <= metrics.Keys
        invariant raw.Keys == metrics.Keys - pending
        invariant forall p :: p in raw ==> raw[p] == RawWeight(metrics[p])
        invariant total == Sum(RawWeights(metrics), metrics.Keys - pending)
        decreases pending
      {
        var p :| p in pending;
        var w := RawWeight(metrics[p]);
        SumAdd(RawWeights(metrics), metrics.Keys - pending, p);
        assert metrics.Keys - (pending - {p}) == metrics.Keys - pending + {p};
        raw := raw[p := w];
        total := total + w;
        pending := pending - {p};
      }
      assert raw == RawWeights(metrics);
      assert metrics.Keys - {} == metrics.Keys;
      weights := map[];
      totalWeight := 0.0;
      if total > 0.0 {
        Normalize(raw, total);
      }
    }

    method Normalize(raw: Weights, total: real)
      requires weights == map[] && totalWeight == 0.0 && total == Sum(raw, raw.Keys) && total > 0.0
      modifies `weights, `totalWeight
      ensures weights.Keys == raw.Keys && forall p :: p in raw ==> weights[p] == raw[p] / total
      ensures totalWeight == 1.0
    {
      ghost var shares: Weights := map p | p in raw :: raw[p] / total;
      var pending := raw.Keys;
      while pending != {}
        invariant pending <= raw.Keys
        invariant weights.Keys == raw.Keys - pending
        invariant forall p :: p in weights ==> weights[p] == raw[p] / total
        invariant totalWeight == Sum(shares, raw.Keys - pending)
        decreases pending
      {
        var p :| p in pending;
        var n := raw[p] / total;
        SumAdd(shares, raw.Keys - pending, p);
        assert raw.Keys - (pending - {p}) == raw.Keys - pending + {p};
        weights := weights[p := n];
        totalWeight := totalWeight + n;
        pending := pending - {p};
      }
      assert raw.Keys - {} == raw.Keys;
      SumOfShares(raw, shares, raw.Keys, total);
    }

    method AdoptWeights(entries: seq<(u8, real)>)
      modifies this
      ensures metrics == map[] && current == old(current)
      ensures WeightsFromEntries(entries, weights, totalWeight)
      ensures MixStep(old(View()), Adopt(entries), View())
    {
      metrics := map[];
      weights := map[];
      var total := 0.0;
      for i := 0 to |entries|
        invariant weights == Accepted(entries[..i]) && total == AcceptedTotal(entries[..i])
        invariant current == old(current) && metrics == map[]
      {
        var (p, w) := entries[i];
        assert entries[..i + 1][..i] == entries[..i];
        if w > 0.0 {
          weights := weights[p := w];
          total := total + w;
        }
      }
      assert entries[..|entries|] == entries;
      if total > 0.0 {
        DivideAll(total);
        totalWeight := 1.0;
      } else {
        totalWeight := 0.0;
      }
    }

    method DivideAll(total: real)
      requires total > 0.0
      modifies `weights
      ensures weights.Keys == old(weights).Keys && forall p :: p in weights ==> weights[p] == old(weights)[p] / total
    {
      var pending := weights.Keys;
      while pending != {}
        invariant weights.Keys == old(weights).Keys && pending <= weights.Keys
        invariant forall p :: p in weights ==>
                    weights[p] == if p in pending then old(weights)[p] else old(weights)[p] / total
        decreases pending
      {
        var p :| p in pending;
        weights := weights[p := weights[p] / total];
        pending := pending - {p};
      }
    }

    method NormalizedWeights() returns (entries: seq<(u8, real)>)
      ensures forall i, j :: 0 <= i < j < |entries| ==> entries[i].0 < entries[j].0
      ensures forall p, w :: (p, w) in entries <==> p in Positive(weights) && weights[p] == w
    {
      var ids := Ascending(Positive(weights));
      entries := [];
      for i := 0 to |ids|
        invariant |entries| == i
        invariant forall k :: 0 <= k < i ==> ids[k] in weights && entries[k] == (ids[k], weights[ids[k]])
      {
        assert ids[i] in Positive(weights);
        entries := entries + [(ids[i], weights[ids[i]])];
      }
      forall p, w | p in Positive(weights) && weights[p] == w ensures (p, w) in entries {
        var k :| 0 <= k < |ids| && ids[k] == p;
        assert entries[k] == (p, w);
      }
    }

    method PreferredPath(active: Option<u8>) returns (r: Option<u8>)
      ensures Preferred(weights, active, r)
    {
      var ids := Ascending(weights.Keys);
      r := None;
      if ids != [] {
        BoundSplits(ids, weights.Keys, 0);
      }
      for i := 0 to |ids|
        invariant PreferredBelow(weights, Bound(ids, i), active, r)
      {
        BoundSplits(ids, weights.Keys, i);
        assert forall q :: q in weights && weights[q] > 0.0 ==> q in Positive(weights);
        var p := ids[i];
        var w := weights[p];
        if w > 0.0 {
          if r.None? || w > weights[r.value] {
            r := Some(p);
          } else if w == weights[r.value] && active == Some(p) && active != r {
            r := Some(p);
          }
        }
      }
    }

    /** Adds each positive weight to its accumulator, visiting identifiers upwards; returns the first furthest path. */
    method AdvanceAll(eligible: seq<u8>) returns (best: u8)
      requires eligible != [] && Ascends(eligible, Positive(weights))
      modifies `current
      ensures Furthest(weights, old(current), 256, best)
      ensures AdvancedTo(weights, old(current), 256, current)
    {
      best := eligible[0];
      var furthest := 0.0;
      BoundSplits(eligible, Positive(weights), 0);
      ghost var before := current;
      for i := 0 to |eligible|
        invariant AdvancedTo(weights, before, Bound(eligible, i), current)
        invariant i > 0 ==> Furthest(weights, before, Bound(eligible, i), best)
        invariant i > 0 ==> furthest == Advanced(weights, before, best)
      {
        BoundSplits(eligible, Positive(weights), i);
        AdvanceOne(weights, before, eligible, i, current);
        FurthestOne(weights, before, eligible, i, best);
        var p: u8 := eligible[i];
        var acc := (if p in current then current[p] else 0.0) + weights[p];
        current := current[p := acc];
        if i == 0 || acc > furthest {
          best, furthest := p, acc;
        }
      }
    }

    method Decide() returns (d: Decision)
      modifies `current
      ensures Decided(weights, totalWeight, old(current), current, d)
      ensures MixStep(old(View()), Pick(d), View())
    {
      var eligible := Ascending(Positive(weights));
      if eligible == [] {
        assert forall p :: p !in Positive(weights);
        return Skip;
      }
      var chosen := AdvanceAll(eligible);
      current := current[chosen := current[chosen] - totalWeight];
      d := Send(chosen);
    }
  }

  // ---------------------------------------------------------------------
  // Weights
  // ---------------------------------------------------------------------

  lemma RawWeightSigns(metrics: map<u8, Metrics>)
    ensures forall p :: p in metrics ==>
              Get(RawWeights(metrics), p) >= 0.0 && (Get(RawWeights(metrics), p) > 0.0 <==> IsEligible(metrics[p]))
  {
    forall p | p in metrics
      ensures Get(RawWeights(metrics), p) >= 0.0 && (Get(RawWeights(metrics), p) > 0.0 <==> IsEligible(metrics[p]))
    {
      if IsEligible(metrics[p]) {
        EligibleScoresPositive(metrics[p]);
      }
    }
  }

  lemma QuotientSign(x: real, d: real)
    requires d > 0.0 && x >= 0.0
    ensures x / d >= 0.0 && (x / d > 0.0 <==> x > 0.0)
  {
    assert x / d * d == x;
  }

  lemma HealthWeightsSumToOne(metrics: map<u8, Metrics>, w: Weights, total: real)
    requires WeightsFromHealth(metrics, w, total)
    requires Sum(RawWeights(metrics), metrics.Keys) > 0.0
    requires forall p :: p in w ==> w[p] >= 0.0
    ensures Sum(w, Positive(w)) == 1.0
  {
    var rawTotal := Sum(RawWeights(metrics), metrics.Keys);
    SumOfShares(RawWeights(metrics), w, metrics.Keys, rawTotal);
    assert forall p :: p in metrics.Keys - Positive(w) ==> w[p] == 0.0;
    SumIgnoresZeros(w, Positive(w), metrics.Keys);
  }

  /**
    After an update from health the positive-weight paths are exactly the eligible
    ones, and the weights add up to 1 unless no path is eligible, when there are none.
  */
  lemma HealthWeightsCoverEligible(metrics: map<u8, Metrics>, w: Weights, total: real)
    requires WeightsFromHealth(metrics, w, total)
    ensures forall p :: p in Positive(w) <==> p in metrics && metrics[p].reachable && metrics[p].loss < 0.20
    ensures Positive(w) != {} ==> Sum(w, Positive(w)) == 1.0 && total == 1.0
    ensures forall p :: p in w ==> w[p] >= 0.0
  {
    var raw := RawWeights(metrics);
    var rawTotal := Sum(raw, metrics.Keys);
    RawWeightSigns(metrics);
    if rawTotal > 0.0 {
      forall p | p in metrics ensures w[p] >= 0.0 && (w[p] > 0.0 <==> IsEligible(metrics[p])) {
        QuotientSign(Get(raw, p), rawTotal);
      }
      HealthWeightsSumToOne(metrics, w, total);
    } else if p :| p in metrics && IsEligible(metrics[p]) {
      SumRemove(raw, metrics.Keys, p);
      SumNonNegative(raw, metrics.Keys - {p});
      assert false;
    }
  }

  /** With weights from health, a round skips if and only if no path is eligible. */
  lemma SkipsIffNoneEligible(metrics: map<u8, Metrics>, w: Weights, total: real,
                             before: Weights, after: Weights, d: Decision)
    requires WeightsFromHealth(metrics, w, total) && Decided(w, total, before, after, d)
    ensures d == Skip <==> forall p :: p in metrics ==> !(metrics[p].reachable && metrics[p].loss < 0.20)
    ensures d.Send? ==> d.path in metrics && metrics[d.path].reachable && metrics[d.path].loss < 0.20
  {
    HealthWeightsCoverEligible(metrics, w, total);
  }

  /** What the eligible paths score together. */
  ghost function EligibleTotal(metrics: map<u8, Metrics>): real {
    Sum(RawWeights(metrics), metrics.Keys)
  }

  /** Every eligible path weighs its own score over what all eligible ones score together. */
  lemma WeighsItsShare(metrics: map<u8, Metrics>, w: Weights, total: real, p: u8)
    requires WeightsFromHealth(metrics, w, total) && p in metrics && IsEligible(metrics[p])
    ensures EligibleTotal(metrics) > 0.0 && p in w && w[p] == Score(metrics[p]) / EligibleTotal(metrics)
  {
    RawWeightSigns(metrics);
    EligibleScoresPositive(metrics[p]);
    SumRemove(RawWeights(metrics), metrics.Keys, p);
    SumNonNegative(RawWeights(metrics), metrics.Keys - {p});
  }

  lemma SharesDiffer(x: real, y: real, d: real)
    requires d > 0.0
    ensures x / d - y / d == (x - y) / d
    ensures x >= y ==> x / d >= y / d
    ensures x > y <==> x / d > y / d
  {
    QuotientSign(if x >= y then x - y else y - x, d);
    assert (x - y) / d * d == x - y && x / d * d == x && y / d * d == y;
    assert ((x - y) / d - (x / d - y / d)) * d == 0.0;
  }

  /**
    Of two eligible paths the weights differ by the difference of their scores over the
    total, metric by metric: a path that is no worse in any metric weighs no less, and
    weighs more exactly when it is better in a metric that still counts.
  */
  lemma HealthierWeighsMore(metrics: map<u8, Metrics>, w: Weights, total: real, a: u8, b: u8)
    requires WeightsFromHealth(metrics, w, total) && a in metrics && b in metrics
    requires IsEligible(metrics[a]) && IsEligible(metrics[b])
    ensures a in w && b in w && EligibleTotal(metrics) > 0.0
    ensures var m, n := metrics[a], metrics[b];
            w[a] - w[b] ==
            (0.40 * ((Least(m.availableKbps, 50000) - Least(n.availableKbps, 50000)) as real / 50000.0)
             + 0.30 * (LeastReal(4.0 * n.loss, 1.0) - LeastReal(4.0 * m.loss, 1.0))
             + 0.20 * ((Least(n.srttMs, 200) - Least(m.srttMs, 200)) as real / 200.0)
             + 0.10 * ((Least(n.jitterMs, 50) - Least(m.jitterMs, 50)) as real / 50.0)) / EligibleTotal(metrics)
    ensures NoWorse(metrics[a], metrics[b]) ==>
              w[a] >= w[b] && (w[a] > w[b] <==> BetterWhereItCounts(metrics[a], metrics[b]))
  {
    WeighsItsShare(metrics, w, total, a);
    WeighsItsShare(metrics, w, total, b);
    SharesDiffer(Score(metrics[a]), Score(metrics[b]), EligibleTotal(metrics));
    ScoresDifferBy(metrics[a], metrics[b]);
    if NoWorse(metrics[a], metrics[b]) {
      NoWorseScoresNoLess(metrics[a], metrics[b]);
    }
  }

  /** With weights from health the preferred path is an eligible one that no eligible path outscores. */
  lemma PreferredScoresBest(metrics: map<u8, Metrics>, w: Weights, total: real, active: Option<u8>, r: Option<u8>)
    requires WeightsFromHealth(metrics, w, total) && Preferred(w, active, r)
    ensures r.None? <==> forall p :: p in metrics ==> !IsEligible(metrics[p])
    ensures r.Some? ==> r.value in metrics && IsEligible(metrics[r.value])
    ensures r.Some? ==> forall p :: p in metrics && IsEligible(metrics[p]) ==>
                          Score(metrics[p]) <= Score(metrics[r.value])
  {
    HealthWeightsCoverEligible(metrics, w, total);
    if r.Some? {
      WeighsItsShare(metrics, w, total, r.value);
      forall p | p in metrics && IsEligible(metrics[p]) ensures Score(metrics[p]) <= Score(metrics[r.value]) {
        WeighsItsShare(metrics, w, total, p);
        SharesDiffer(Score(metrics[p]), Score(metrics[r.value]), EligibleTotal(metrics));
      }
    }
  }

  /** A listed path nobody has metered takes part after an update, with the weight of a score of 0.6. */
  lemma UnmeteredTakesPart(paths: seq<u8>, known: map<u8, Metrics>, w: Weights, total: real, p: u8)
    requires WeightsFromHealth(Snapshot(paths, known), w, total) && p in paths && p !in known
    ensures p in Positive(w) && w[p] == 0.6 / EligibleTotal(Snapshot(paths, known))
  {
    UnmeteredIsEligible();
    WeighsItsShare(Snapshot(paths, known), w, total, p);
    HealthWeightsCoverEligible(Snapshot(paths, known), w, total);
  }

  /**
    The preferred path has the greatest positive weight; the active one is kept when it
    has it, and otherwise the lowest identifier that has it is named.
  */
  lemma PreferredIsGreatest(w: Weights, active: Option<u8>, r: Option<u8>)
    requires Preferred(w, active, r)
    ensures r.None? <==> forall p :: p in w ==> w[p] <= 0.0
    ensures r.Some? ==> r.value in w && forall p :: p in w ==> w[p] <= w[r.value]
    ensures active.Some? && active.value in w && w[active.value] > 0.0
            && (forall p :: p in w ==> w[p] <= w[active.value])
            ==> r == active
    ensures r.Some? && r != active ==> forall p :: p in w && w[p] == w[r.value] ==> r.value <= p
  {
    assert forall p :: p in w && w[p] > 0.0 ==> p in Positive(w);
  }

  ghost predicate DistinctPositive(entries: seq<(u8, real)>) {
    forall i, j :: 0 <= i < j < |entries| && entries[i].1 > 0.0 && entries[j].1 > 0.0 ==> entries[i].0 != entries[j].0
  }

  lemma {:induction false} AcceptedKeys(entries: seq<(u8, real)>)
    ensures forall p :: p in Accepted(entries) <==>
              exists i :: 0 <= i < |entries| && entries[i].0 == p && entries[i].1 > 0.0
    ensures forall p :: p in Accepted(entries) ==> Accepted(entries)[p] > 0.0
    ensures AcceptedTotal(entries) >= 0.0
    ensures AcceptedTotal(entries) > 0.0 <==> Accepted(entries) != map[]
  {
    if entries != [] {
      var n := |entries| - 1;
      var before := entries[..n];
      AcceptedKeys(before);
      assert forall i :: 0 <= i < n ==> before[i] == entries[i];
      if entries[n].1 > 0.0 {
        assert entries[n].0 in Accepted(entries);
      }
      forall p | p in Accepted(entries)
        ensures exists i :: 0 <= i < |entries| && entries[i].0 == p && entries[i].1 > 0.0
      {
        if p in Accepted(before) {
          var i :| 0 <= i < n && before[i].0 == p && before[i].1 > 0.0;
          assert entries[i].0 == p;
        } else {
          assert entries[n].0 == p;
        }
      }
      forall i | 0 <= i < |entries| && entries[i].1 > 0.0 ensures entries[i].0 in Accepted(entries) {
        if i < n {
          assert before[i].0 in Accepted(before);
        }
      }
    }
  }

  /** The kept weights add up to the accepted total exactly when no path is listed twice. */
  lemma {:induction false} AcceptedSum(entries: seq<(u8, real)>)
    ensures var accepted := Accepted(entries);
            && Sum(accepted, accepted.Keys) <= AcceptedTotal(entries)
            && (Sum(accepted, accepted.Keys) == AcceptedTotal(entries) <==> DistinctPositive(entries))
  {
    if entries != [] {
      var n := |entries| - 1;
      var before := entries[..n];
      var (p, w) := entries[n];
      AcceptedSum(before);
      DistinctSnoc(entries);
      if w > 0.0 {
        KeptSum(Accepted(before), p, w);
        AcceptedKeys(before);
      }
    }
  }

  /** Keeping a new entry adds its weight; a repeat also loses the earlier one. */
  lemma KeptSum(earlier: Weights, p: u8, w: real)
    ensures var kept := earlier[p := w];
            Sum(kept, kept.Keys) == Sum(earlier, earlier.Keys) + w - Get(earlier, p)
  {
    var kept := earlier[p := w];
    assert kept.Keys == earlier.Keys + {p};
    var others := kept.Keys - {p};
    SumRemove(kept, kept.Keys, p);
    SumCongruent(kept, earlier, others);
    if p in earlier {
      SumRemove(earlier, earlier.Keys, p);
      assert others == earlier.Keys - {p};
    } else {
      assert others == earlier.Keys;
    }
  }

  lemma DistinctSnoc(entries: seq<(u8, real)>)
    requires entries != []
    ensures var n := |entries| - 1;
            DistinctPositive(entries) <==>
              DistinctPositive(entries[..n]) && (entries[n].1 > 0.0 ==> entries[n].0 !in Accepted(entries[..n]))
  {
    var n := |entries| - 1;
    AcceptedKeys(entries[..n]);
    assert forall i :: 0 <= i < n ==> entries[..n][i] == entries[i];
  }

  /**
    Adopted weights add up to 1 if and only if some entry is positive and no path
    has two positive entries; with a repeat they add up to less, although the
    scheduler still records a total of 1.
  */
  lemma AdoptedSumToOneIffDistinct(entries: seq<(u8, real)>, w: Weights, total: real)
    requires WeightsFromEntries(entries, w, total)
    ensures Positive(w) == w.Keys == set i | 0 <= i < |entries| && entries[i].1 > 0.0 :: entries[i].0
    ensures Sum(w, w.Keys) == 1.0 <==> w != map[] && DistinctPositive(entries)
    ensures Sum(w, w.Keys) <= 1.0
    ensures total == if w == map[] then 0.0 else 1.0
  {
    AcceptedKeys(entries);
    if w == map[] {
      assert Sum(w, {}) == 0.0;
    } else {
      AdoptedSumIsShare(entries, w, total);
    }
  }

  lemma {:induction false} LastIsKept(entries: seq<(u8, real)>, i: nat)
    requires i < |entries| && entries[i].1 > 0.0
    requires forall j :: i < j < |entries| && entries[j].1 > 0.0 ==> entries[j].0 != entries[i].0
    ensures entries[i].0 in Accepted(entries) && Accepted(entries)[entries[i].0] == entries[i].1
  {
    if i < |entries| - 1 {
      LastIsKept(entries[..|entries| - 1], i);
    }
  }

  /** A path weighs the last positive entry that names it, over the sum of all positive entries. */
  lemma AdoptsLastEntry(entries: seq<(u8, real)>, w: Weights, total: real, i: nat)
    requires WeightsFromEntries(entries, w, total) && i < |entries| && entries[i].1 > 0.0
    requires forall j :: i < j < |entries| && entries[j].1 > 0.0 ==> entries[j].0 != entries[i].0
    ensures AcceptedTotal(entries) > 0.0
    ensures entries[i].0 in w && w[entries[i].0] == entries[i].1 / AcceptedTotal(entries)
  {
    LastIsKept(entries, i);
    AcceptedKeys(entries);
  }

  /** The adopted weights add up to the kept share of the accepted total. */
  lemma AdoptedSumIsShare(entries: seq<(u8, real)>, w: Weights, total: real)
    requires WeightsFromEntries(entries, w, total) && w != map[]
    ensures Sum(w, w.Keys) <= 1.0
    ensures Sum(w, w.Keys) == 1.0 <==> DistinctPositive(entries)
    ensures forall p :: p in w ==> w[p] > 0.0
  {
    AcceptedKeys(entries);
    AcceptedSum(entries);
    var accepted := Accepted(entries);
    var all := AcceptedTotal(entries);
    assert accepted != map[] by {
      assert w.Keys != {};
    }
    SumOfShares(accepted, w, w.Keys, all);
    forall p | p in w ensures w[p] > 0.0 {
      QuotientSign(accepted[p], all);
    }
  }

  // ---------------------------------------------------------------------
  // Fairness
  // ---------------------------------------------------------------------

  datatype Tick = Tick(weights: Weights, before: Weights, pick: u8, after: Weights)

  /** A round with weights that add up to 1. */
  ghost predicate UnitTick(t: Tick) {
    && Sum(t.weights, Positive(t.weights)) == 1.0
    && (forall p :: p in t.weights ==> t.weights[p] >= 0.0)
    && Decided(t.weights, 1.0, t.before, t.after, Send(t.pick))
  }

  /** A run from zero accumulators whose weights may change every round but never drop a path. */
  ghost predicate UnitRun(ticks: seq<Tick>) {
    && (forall i :: 0 <= i < |ticks| ==> UnitTick(ticks[i]))
    && (ticks != [] ==> ticks[0].before == map[])
    && (forall i :: 0 < i < |ticks| ==> Joined(ticks[i - 1], ticks[i]))
  }

  /** A round starts where the one before it ended, and drops no path. */
  ghost predicate Joined(earlier: Tick, later: Tick) {
    later.before == earlier.after && Positive(earlier.weights) <= Positive(later.weights)
  }

  function Picks(ticks: seq<Tick>, p: u8): nat {
    if ticks == [] then 0 else Picks(ticks[..|ticks| - 1], p) + if ticks[|ticks| - 1].pick == p then 1 else 0
  }

  /** The weight `p` was entitled to over the run. */
  function Earned(ticks: seq<Tick>, p: u8): real {
    if ticks == [] then 0.0 else Earned(ticks[..|ticks| - 1], p) + Get(ticks[|ticks| - 1].weights, p)
  }

  /** Accumulators of the taking-part paths balance and none has fallen to -1. */
  ghost predicate Balanced(current: Weights, paths: set<u8>) {
    && current.Keys <= paths
    && Sum(current, paths) == 0.0
    && forall p :: p in paths ==> Get(current, p) > -1.0
  }

  lemma TickKeepsBalance(t: Tick, paths: set<u8>)
    requires UnitTick(t) && Balanced(t.before, paths) && paths <= Positive(t.weights)
    ensures Balanced(t.after, Positive(t.weights))
  {
    var e := Positive(t.weights);
    SumIgnoresZeros(t.before, paths, e);
    var advanced: Weights := map p | p in e :: Advanced(t.weights, t.before, p);
    SumPointwise(t.before, t.weights, advanced, e);
    PositiveSumHasPositiveTerm(advanced, e);
    assert advanced[t.pick] > 0.0;
    SumRemove(advanced, e, t.pick);
    SumRemove(t.after, e, t.pick);
    SumCongruent(t.after, advanced, e - {t.pick});
  }

  lemma UnitRunPrefix(ticks: seq<Tick>)
    requires UnitRun(ticks) && ticks != []
    ensures UnitRun(ticks[..|ticks| - 1])
  {
  }

  lemma {:induction false} RunKeepsBalance(ticks: seq<Tick>)
    requires UnitRun(ticks) && ticks != []
    ensures var last := ticks[|ticks| - 1];
            && Balanced(last.after, Positive(last.weights))
            && forall p :: Get(last.after, p) == Earned(ticks, p) - Picks(ticks, p) as real
  {
    var n := |ticks| - 1;
    var last := ticks[n];
    var before := ticks[..n];
    if n == 0 {
      assert before == [];
      TickKeepsBalance(last, {});
    } else {
      assert before[n - 1] == ticks[n - 1] && Joined(ticks[n - 1], ticks[n]);
      UnitRunPrefix(ticks);
      RunKeepsBalance(before);
      TickKeepsBalance(last, Positive(ticks[n - 1].weights));
    }
    forall p ensures Get(last.after, p) == Earned(ticks, p) - Picks(ticks, p) as real {
      assert Get(last.before, p) == Earned(before, p) - Picks(before, p) as real;
      assert p !in Positive(last.weights) ==> Get(last.weights, p) == 0.0;
    }
  }

  /**
    Smooth weighted round robin is fair: over any such run each of the `n` paths has
    been chosen fewer than its earned weight + 1 times, and at least its earned
    weight - (n - 1) times.
  */
  lemma RoundRobinIsFair(ticks: seq<Tick>, p: u8)
    requires UnitRun(ticks) && ticks != []
    requires p in Positive(ticks[|ticks| - 1].weights)
    ensures var n := |Positive(ticks[|ticks| - 1].weights)|;
            Earned(ticks, p) - (n - 1) as real <= Picks(ticks, p) as real < Earned(ticks, p) + 1.0
  {
    var last := ticks[|ticks| - 1];
    var e := Positive(last.weights);
    RunKeepsBalance(ticks);
    SumRemove(last.after, e, p);
    SumAboveMinusCount(last.after, e - {p});
    assert |e - {p}| == |e| - 1;
  }

  // ---------------------------------------------------------------------
  // Fairness over runs of the scheduler
  // ---------------------------------------------------------------------

  function Eligible(metrics: map<u8, Metrics>): set<u8> {
    set p | p in metrics && IsEligible(metrics[p])
  }

  /** The paths that new metrics or an advertisement let take part. */
  function TakingPart(m: Mix, op: MixOp): set<u8> {
    match op
    case Update(paths, known) => Eligible(Snapshot(paths, known))
    case Meter(path, seen) => Eligible(m.metrics[path := seen])
    case Adopt(entries) => set i | 0 <= i < |entries| && entries[i].1 > 0.0 :: entries[i].0
    case Pick(_) => {}
  }

  /** New weights keep every path that takes part, and leave at least one. */
  predicate KeepsPaths(m: Mix, op: MixOp) {
    op.Pick? || (TakingPart(m, op) != {} && Positive(m.weights) <= TakingPart(m, op))
  }

  ghost predicate ListsOnce(op: MixOp) {
    op.Adopt? ==> DistinctPositive(op.entries)
  }

  ghost predicate Steady(m: Mix, op: MixOp) {
    KeepsPaths(m, op) && ListsOnce(op)
  }

  /** A run of the scheduler from its creation, in which no path leaves. */
  ghost predicate SteadyRun(ops: seq<MixOp>, states: seq<Mix>) {
    && |states| == |ops| + 1 && states[0] == NO_MIX
    && forall i :: 0 <= i < |ops| ==> MixStep(states[i], ops[i], states[i + 1]) && Steady(states[i], ops[i])
  }

  /** The rounds of a run that sent. */
  function Ticks(ops: seq<MixOp>, states: seq<Mix>): seq<Tick>
    requires |states| == |ops| + 1
  {
    if ops == [] then []
    else
      var n := |ops| - 1;
      Ticks(ops[..n], states[..n + 1]) + RoundOf(states[n], ops[n], states[n + 1])
  }

  function RoundOf(m: Mix, op: MixOp, n: Mix): seq<Tick> {
    if op.Pick? && op.d.Send? then [Tick(m.weights, m.current, op.d.path, n.current)] else []
  }

  /** Nothing has been weighed yet, or the weights add up to 1. */
  ghost predicate UnitMix(m: Mix) {
    || m.weights == map[]
    || (Sum(m.weights, Positive(m.weights)) == 1.0 && m.total == 1.0
        && forall p :: p in m.weights ==> m.weights[p] >= 0.0)
  }

  lemma StepKeepsUnit(m: Mix, op: MixOp, n: Mix)
    requires UnitMix(m) && MixStep(m, op, n) && Steady(m, op)
    ensures UnitMix(n) && (op.Pick? ==> n.weights == m.weights)
    ensures !op.Pick? ==> Positive(n.weights) == TakingPart(m, op)
  {
    match op
    case Update(_, _) => HealthWeightsCoverEligible(n.metrics, n.weights, n.total);
    case Meter(_, _) => HealthWeightsCoverEligible(n.metrics, n.weights, n.total);
    case Adopt(entries) =>
      AdoptedSumToOneIffDistinct(entries, n.weights, n.total);
      assert n.weights != map[];
      AdoptedSumIsShare(entries, n.weights, n.total);
    case Pick(_) =>
  }

  /** The rounds fit together, and lead up to the state. */
  ghost predicate LeadsTo(ticks: seq<Tick>, m: Mix) {
    && UnitRun(ticks)
    && (if ticks == [] then m.current == map[]
        else m.current == ticks[|ticks| - 1].after && Positive(ticks[|ticks| - 1].weights) <= Positive(m.weights))
  }

  lemma StepLeadsOn(ticks: seq<Tick>, m: Mix, op: MixOp, n: Mix)
    requires LeadsTo(ticks, m) && UnitMix(m) && MixStep(m, op, n) && Steady(m, op)
    ensures LeadsTo(ticks + RoundOf(m, op, n), n)
  {
    StepKeepsUnit(m, op, n);
    if op.Pick? && op.d.Send? {
      UnitRunSnoc(ticks, Tick(m.weights, m.current, op.d.path, n.current));
    } else {
      assert ticks + RoundOf(m, op, n) == ticks;
    }
  }

  lemma UnitRunSnoc(ticks: seq<Tick>, round: Tick)
    requires UnitRun(ticks) && UnitTick(round)
    requires if ticks == [] then round.before == map[] else Joined(ticks[|ticks| - 1], round)
    ensures UnitRun(ticks + [round])
  {
    var all := ticks + [round];
    forall i | 0 <= i < |all| ensures UnitTick(all[i]) {
      assert all[i] == if i < |ticks| then ticks[i] else round;
    }
    assert all[0] == if ticks == [] then round else ticks[0];
    forall i | 0 < i < |all| ensures Joined(all[i - 1], all[i]) {
      assert all[i - 1] == ticks[i - 1];
      assert all[i] == if i < |ticks| then ticks[i] else round;
      assert i < |ticks| ==> Joined(ticks[i - 1], ticks[i]);
    }
  }

  /** Updates that leave a path eligible, and advertisements without repeats, make every round a unit round. */
  lemma {:induction false} SteadyRunIsUnitRun(ops: seq<MixOp>, states: seq<Mix>)
    requires SteadyRun(ops, states)
    ensures UnitMix(states[|ops|]) && LeadsTo(Ticks(ops, states), states[|ops|])
  {
    if ops != [] {
      var n := |ops| - 1;
      assert states[..n + 1][n] == states[n];
      SteadyRunIsUnitRun(ops[..n], states[..n + 1]);
      StepKeepsUnit(states[n], ops[n], states[n + 1]);
      StepLeadsOn(Ticks(ops[..n], states[..n + 1]), states[n], ops[n], states[n + 1]);
    }
  }

  /** How often the run sent on `p`. */
  function Sent(ops: seq<MixOp>, p: u8): nat {
    if ops == [] then 0 else Sent(ops[..|ops| - 1], p) + if ops[|ops| - 1] == Pick(Send(p)) then 1 else 0
  }

  lemma {:induction false} PicksAreSends(ops: seq<MixOp>, states: seq<Mix>, p: u8)
    requires |states| == |ops| + 1
    ensures Picks(Ticks(ops, states), p) == Sent(ops, p)
  {
    if ops != [] {
      var n := |ops| - 1;
      PicksAreSends(ops[..n], states[..n + 1], p);
      var before, round := Ticks(ops[..n], states[..n + 1]), RoundOf(states[n], ops[n], states[n + 1]);
      assert round != [] ==> (before + round)[..|before|] == before;
      assert before + [] == before;
    }
  }

  /**
    The scheduler is fair: over every run in which no path leaves, each of the `n`
    paths of the last round has been sent on fewer than its earned weight + 1 times,
    and at least its earned weight - (n - 1) times.
  */
  lemma SchedulerIsFair(ops: seq<MixOp>, states: seq<Mix>, p: u8)
    requires SteadyRun(ops, states) && Ticks(ops, states) != []
    requires var ticks := Ticks(ops, states); p in Positive(ticks[|ticks| - 1].weights)
    ensures var ticks := Ticks(ops, states);
            var n := |Positive(ticks[|ticks| - 1].weights)|;
            Earned(ticks, p) - (n - 1) as real <= Sent(ops, p) as real < Earned(ticks, p) + 1.0
  {
    SteadyRunIsUnitRun(ops, states);
    PicksAreSends(ops, states, p);
    RoundRobinIsFair(Ticks(ops, states), p);
  }

  // ---------------------------------------------------------------------
  // What repeated entries do to the balance
  // ---------------------------------------------------------------------

  /** A run of the scheduler from its creation in which no path leaves; advertisements may repeat paths. */
  ghost predicate KeepingRun(ops: seq<MixOp>, states: seq<Mix>) {
    && |states| == |ops| + 1 && states[0] == NO_MIX
    && forall i :: 0 <= i < |ops| ==> MixStep(states[i], ops[i], states[i + 1]) && KeepsPaths(states[i], ops[i])
  }

  lemma KeepingRunPrefix(ops: seq<MixOp>, states: seq<Mix>)
    requires KeepingRun(ops, states) && ops != []
    ensures KeepingRun(ops[..|ops| - 1], states[..|ops|])
  {
  }

  /** The weights in force were listed without repeats. */
  ghost predicate InForceListsOnce(ops: seq<MixOp>) {
    ops == []
    || (if ops[|ops| - 1].Pick? then InForceListsOnce(ops[..|ops| - 1]) else ListsOnce(ops[|ops| - 1]))
  }

  /** Nothing has been weighed yet, or the total is 1 and the weights add up to 1 exactly when listed once. */
  ghost predicate Weighed(m: Mix, once: bool) {
    || m.weights == map[]
    || (m.total == 1.0 && Sum(m.weights, Positive(m.weights)) <= 1.0
        && (Sum(m.weights, Positive(m.weights)) == 1.0 <==> once))
  }

  lemma AdoptWeighs(m: Mix, op: MixOp, n: Mix)
    requires MixStep(m, op, n) && op.Adopt? && TakingPart(m, op) != {}
    ensures Positive(n.weights) == TakingPart(m, op) && Weighed(n, ListsOnce(op))
  {
    AdoptedSumToOneIffDistinct(op.entries, n.weights, n.total);
    if n.weights != map[] {
      AdoptedSumIsShare(op.entries, n.weights, n.total);
    }
  }

  lemma StepWeighs(m: Mix, op: MixOp, n: Mix, once: bool)
    requires Weighed(m, once) && MixStep(m, op, n) && KeepsPaths(m, op)
    ensures Weighed(n, if op.Pick? then once else ListsOnce(op))
    ensures Positive(m.weights) <= Positive(n.weights)
  {
    match op
    case Update(_, _) => HealthWeightsCoverEligible(n.metrics, n.weights, n.total);
    case Meter(_, _) => HealthWeightsCoverEligible(n.metrics, n.weights, n.total);
    case Adopt(_) => AdoptWeighs(m, op, n);
    case Pick(_) =>
  }

  /** What one step adds to the sum of the accumulators: a round gives its weights and takes 1. */
  ghost function StepDrift(m: Mix, op: MixOp): real {
    if op.Pick? && op.d.Send? then Sum(m.weights, Positive(m.weights)) - 1.0 else 0.0
  }

  ghost function Drift(ops: seq<MixOp>, states: seq<Mix>): real
    requires |states| == |ops| + 1
  {
    if ops == [] then 0.0
    else Drift(ops[..|ops| - 1], states[..|ops|]) + StepDrift(states[|ops| - 1], ops[|ops| - 1])
  }

  /** The accumulators of the taking-part paths add up to `sum`, and no other path has one. */
  ghost predicate AddsTo(m: Mix, sum: real) {
    m.current.Keys <= Positive(m.weights) && Sum(m.current, Positive(m.weights)) == sum
  }

  lemma RoundDrifts(m: Mix, n: Mix, p: u8, sum: real)
    requires MixStep(m, Pick(Send(p)), n) && m.total == 1.0 && AddsTo(m, sum)
    ensures AddsTo(n, sum + Sum(m.weights, Positive(m.weights)) - 1.0)
  {
    var e := Positive(m.weights);
    var advanced: Weights := map q | q in e :: Advanced(m.weights, m.current, q);
    SumPointwise(m.current, m.weights, advanced, e);
    SumRemove(advanced, e, p);
    SumRemove(n.current, e, p);
    SumCongruent(n.current, advanced, e - {p});
  }

  lemma StepDrifts(m: Mix, op: MixOp, n: Mix, once: bool, sum: real)
    requires Weighed(m, once) && MixStep(m, op, n) && KeepsPaths(m, op) && AddsTo(m, sum)
    ensures AddsTo(n, sum + StepDrift(m, op))
  {
    if op.Pick? && op.d.Send? {
      assert m.weights != map[];
      RoundDrifts(m, n, op.d.path, sum);
    } else {
      StepWeighs(m, op, n, once);
      SumIgnoresZeros(n.current, Positive(m.weights), Positive(n.weights));
    }
  }

  /** Over every run in which no path leaves the accumulators add up to what the rounds fell short of 1. */
  lemma {:induction false} AccumulatorsDrift(ops: seq<MixOp>, states: seq<Mix>)
    requires KeepingRun(ops, states)
    ensures Weighed(states[|ops|], InForceListsOnce(ops)) && AddsTo(states[|ops|], Drift(ops, states))
  {
    if ops == [] {
      assert Sum(NO_MIX.current, {}) == 0.0;
    } else {
      var n := |ops| - 1;
      KeepingRunPrefix(ops, states);
      AccumulatorsDrift(ops[..n], states[..n + 1]);
      StepWeighs(states[n], ops[n], states[n + 1], InForceListsOnce(ops[..n]));
      StepDrifts(states[n], ops[n], states[n + 1], InForceListsOnce(ops[..n]), Drift(ops[..n], states[..n + 1]));
    }
  }

  /** Every round of the run had weights that were listed without repeats. */
  ghost predicate RoundsListOnce(ops: seq<MixOp>) {
    forall i :: 0 <= i < |ops| && ops[i].Pick? && ops[i].d.Send? ==> InForceListsOnce(ops[..i])
  }

  lemma RoundsListOnceSnoc(ops: seq<MixOp>)
    requires ops != []
    ensures var n := |ops| - 1;
            RoundsListOnce(ops) <==>
              RoundsListOnce(ops[..n]) && (ops[n].Pick? && ops[n].d.Send? ==> InForceListsOnce(ops[..n]))
  {
    var n := |ops| - 1;
    assert forall i :: 0 <= i < n ==> ops[..n][i] == ops[i] && ops[..n][..i] == ops[..i];
  }

  lemma StepDriftSign(m: Mix, op: MixOp, n: Mix, once: bool)
    requires Weighed(m, once) && MixStep(m, op, n)
    ensures StepDrift(m, op) <= 0.0
    ensures StepDrift(m, op) == 0.0 <==> (op.Pick? && op.d.Send? ==> once)
  {
    if op.Pick? && op.d.Send? {
      assert op.d.path in Positive(m.weights);
    }
  }

  lemma {:induction false} DriftIsZeroIffListedOnce(ops: seq<MixOp>, states: seq<Mix>)
    requires KeepingRun(ops, states)
    ensures Drift(ops, states) <= 0.0 && (Drift(ops, states) == 0.0 <==> RoundsListOnce(ops))
  {
    if ops != [] {
      var n := |ops| - 1;
      KeepingRunPrefix(ops, states);
      DriftIsZeroIffListedOnce(ops[..n], states[..n + 1]);
      AccumulatorsDrift(ops[..n], states[..n + 1]);
      RoundsListOnceSnoc(ops);
      assert states[..n + 1][n] == states[n];
      StepDriftSign(states[n], ops[n], states[n + 1], InForceListsOnce(ops[..n]));
    }
  }

  /**
    The accumulators balance after a run in which no path leaves if and only if the
    weights in force at each of its rounds were listed without repeats.
  */
  lemma BalancedIffListedOnce(ops: seq<MixOp>, states: seq<Mix>)
    requires KeepingRun(ops, states)
    ensures var m := states[|ops|];
            && Sum(m.current, Positive(m.weights)) <= 0.0
            && (Sum(m.current, Positive(m.weights)) == 0.0 <==> RoundsListOnce(ops))
  {
    AccumulatorsDrift(ops, states);
    DriftIsZeroIffListedOnce(ops, states);
  }

  const TWICE: seq<(u8, real)> := [(1, 0.5), (1, 0.5)]

  /** After `n` rounds with path 1 listed twice at a half. */
  function HalfMix(n: nat): Mix {
    Mix(map[], map[1 := 0.5], 1.0, if n == 0 then map[] else map[1 := -(n as real) / 2.0])
  }

  function HalfOps(n: nat): seq<MixOp> {
    [Adopt(TWICE)] + seq(n, _ => Pick(Send(1)))
  }

  function HalfStates(n: nat): seq<Mix> {
    [NO_MIX] + seq(n + 1, k requires k >= 0 => HalfMix(k))
  }

  lemma TwiceIsHalf(entries: seq<(u8, real)>)
    requires entries == TWICE
    ensures WeightsFromEntries(entries, map[1 := 0.5], 1.0) && !DistinctPositive(entries)
  {
    TwiceAccepted(entries);
    assert entries[0].0 == entries[1].0 && entries[0].1 > 0.0 && entries[1].1 > 0.0;
  }

  lemma TwiceAccepted(entries: seq<(u8, real)>)
    requires entries == TWICE
    ensures Accepted(entries) == map[1 := 0.5] && AcceptedTotal(entries) == 1.0
  {
    var none: seq<(u8, real)> := [];
    AcceptedSnoc(none, 1, 0.5);
    AcceptedSnoc(none + [(1, 0.5)], 1, 0.5);
    assert entries == none + [(1, 0.5)] + [(1, 0.5)];
  }

  lemma AcceptedSnoc(entries: seq<(u8, real)>, p: u8, w: real)
    requires w > 0.0
    ensures Accepted(entries + [(p, w)]) == Accepted(entries)[p := w]
    ensures AcceptedTotal(entries + [(p, w)]) == AcceptedTotal(entries) + w
  {
    assert (entries + [(p, w)])[..|entries|] == entries;
  }

  /**
    A path listed twice falls behind for good: each round leaves its accumulator a
    half lower, so it has reached -1 after the second.
  */
  lemma RepeatedEntryDrifts(n: nat)
    ensures KeepingRun(HalfOps(n), HalfStates(n))
    ensures Get(HalfStates(n)[n + 1].current, 1) == -(n as real) / 2.0
  {
    var ops, states := HalfOps(n), HalfStates(n);
    TwiceIsHalf(TWICE);
    forall i | 0 <= i < |ops| ensures MixStep(states[i], ops[i], states[i + 1]) && KeepsPaths(states[i], ops[i]) {
      if i == 0 {
        assert TWICE[0].1 > 0.0 && TWICE[0].0 in TakingPart(NO_MIX, Adopt(TWICE));
      } else {
        HalfRound(i - 1);
      }
    }
  }

  lemma HalfRound(k: nat)
    ensures MixStep(HalfMix(k), Pick(Send(1)), HalfMix(k + 1))
  {
    assert Positive(HalfMix(k).weights) == {1};
    assert Get(HalfMix(k).current, 1) == -(k as real) / 2.0;
  }
}
