/** Path health: when a path may carry traffic, and how good it is. Ratios are real numbers. */
module Health {

  datatype Metrics = Metrics(reachable: bool, srttMs: nat, jitterMs: nat, loss: real, availableKbps: nat)

  /** The snapshot assumed for a path nobody has metered yet. */
  const UNMETERED: Metrics := Metrics(true, 0, 0, 0.0, 0)

  predicate IsEligible(m: Metrics) {
    m.reachable && m.loss < 0.20
  }

  function AtMostOne(x: real): real {
    if x < 1.0 then x else 1.0
  }

  /** Bandwidth 40%, loss 30%, latency 20%, jitter 10%. */
  function Score(m: Metrics): real {
    if !m.reachable then 0.0
    else
      var bandwidth := AtMostOne(m.availableKbps as real / 50000.0);
      var loss := 1.0 - AtMostOne(m.loss * 4.0);
      var latency := 1.0 - AtMostOne(m.srttMs as real / 200.0);
      var jitter := 1.0 - AtMostOne(m.jitterMs as real / 50.0);
      0.40 * bandwidth + 0.30 * loss + 0.20 * latency + 0.10 * jitter
  }

  /** An eligible path never scores zero, however slow it is: the loss cliff leaves it a share. */
  lemma EligibleScoresPositive(m: Metrics)
    requires IsEligible(m)
    ensures Score(m) > 0.06
  {
    assert m.loss * 4.0 < 0.8;
    assert 1.0 - AtMostOne(m.loss * 4.0) > 0.2;
    assert AtMostOne(m.availableKbps as real / 50000.0) >= 0.0;
    assert AtMostOne(m.srttMs as real / 200.0) <= 1.0;
    assert AtMostOne(m.jitterMs as real / 50.0) <= 1.0;
  }

  function Least(a: nat, b: nat): nat {
    if a < b then a else b
  }

  function LeastReal(a: real, b: real): real {
    if a < b then a else b
  }

  lemma RealTimesGrows(a: real, b: real, k: real)
    requires k > 0.0
    ensures a <= b ==> a * k <= b * k
    ensures a < b ==> a * k < b * k
  {
    if a < b {
      assert (b - a) * k > 0.0;
    }
  }

  lemma SelfQuotient(d: real)
    requires d > 0.0
    ensures d / d == 1.0
  {
    var one := d / d;
    assert one * d == d == 1.0 * d;
    RealTimesGrows(one, 1.0, d);
    RealTimesGrows(1.0, one, d);
  }

  /** A quotient capped at one is the capped numerator over the divisor. */
  lemma CapsReal(x: real, d: real)
    requires d > 0.0
    ensures AtMostOne(x / d) == LeastReal(x, d) / d
  {
    var q := x / d;
    assert q * d == x && 1.0 * d == d;
    RealTimesGrows(q, 1.0, d);
    RealTimesGrows(1.0, q, d);
    SelfQuotient(d);
  }

  lemma CapsNumerator(n: nat, span: nat)
    requires span > 0
    ensures AtMostOne(n as real / span as real) == Least(n, span) as real / span as real
  {
    CapsReal(n as real, span as real);
    assert LeastReal(n as real, span as real) == Least(n, span) as real;
  }

  /** The score of a reachable path, each metric's share up to the point past which it no longer matters. */
  lemma ScoreIsSumOfShares(m: Metrics)
    requires m.reachable
    ensures Score(m) == 0.40 * (Least(m.availableKbps, 50000) as real / 50000.0)
                        + 0.30 * (1.0 - LeastReal(4.0 * m.loss, 1.0))
                        + 0.20 * (1.0 - Least(m.srttMs, 200) as real / 200.0)
                        + 0.10 * (1.0 - Least(m.jitterMs, 50) as real / 50.0)
  {
    CapsNumerator(m.availableKbps, 50000);
    CapsNumerator(m.srttMs, 200);
    CapsNumerator(m.jitterMs, 50);
  }

  /**
    The scores of two reachable paths differ by 0.40 of the bandwidth span to 50 Mbps,
    0.30 of the loss span to a quarter, 0.20 of the latency span to 200 ms and 0.10 of
    the jitter span to 50 ms.
  */
  lemma ScoresDifferBy(a: Metrics, b: Metrics)
    requires a.reachable && b.reachable
    ensures Score(a) - Score(b) ==
            0.40 * ((Least(a.availableKbps, 50000) - Least(b.availableKbps, 50000)) as real / 50000.0)
            + 0.30 * (LeastReal(4.0 * b.loss, 1.0) - LeastReal(4.0 * a.loss, 1.0))
            + 0.20 * ((Least(b.srttMs, 200) - Least(a.srttMs, 200)) as real / 200.0)
            + 0.10 * ((Least(b.jitterMs, 50) - Least(a.jitterMs, 50)) as real / 50.0)
  {
    ScoreIsSumOfShares(a);
    ScoreIsSumOfShares(b);
  }

  /** `a` is at least as good as `b` in every metric. */
  predicate NoWorse(a: Metrics, b: Metrics) {
    a.availableKbps >= b.availableKbps && a.loss <= b.loss && a.srttMs <= b.srttMs && a.jitterMs <= b.jitterMs
  }

  /** Better in a metric that still counts there. */
  predicate BetterWhereItCounts(a: Metrics, b: Metrics) {
    || (a.availableKbps > b.availableKbps && b.availableKbps < 50000)
    || (a.loss < b.loss && a.loss < 0.25)
    || (a.srttMs < b.srttMs && a.srttMs < 200)
    || (a.jitterMs < b.jitterMs && a.jitterMs < 50)
  }

  /**
    A path no worse in any metric never scores less, and it scores more exactly when it
    is better in a metric below the point past which it no longer matters.
  */
  lemma NoWorseScoresNoLess(a: Metrics, b: Metrics)
    requires a.reachable && b.reachable && NoWorse(a, b)
    ensures Score(a) >= Score(b)
    ensures Score(a) > Score(b) <==> BetterWhereItCounts(a, b)
  {
    ScoresDifferBy(a, b);
  }

  /** Scores lie between 0 and 1: 0 for an unreachable path, 1 for a perfect one only. */
  lemma ScoresRange(m: Metrics)
    requires m.loss >= 0.0
    ensures 0.0 <= Score(m) <= 1.0
    ensures !m.reachable ==> Score(m) == 0.0
    ensures Score(m) == 1.0 <==>
            m.reachable && m.availableKbps >= 50000 && m.loss == 0.0 && m.srttMs == 0 && m.jitterMs == 0
  {
    if m.reachable {
      ScoreIsSumOfShares(m);
    }
  }

  /** An unmetered path is eligible and scores all but the bandwidth share. */
  lemma UnmeteredIsEligible()
    ensures IsEligible(UNMETERED) && Score(UNMETERED) == 0.6
  {
    ScoreIsSumOfShares(UNMETERED);
  }
}
