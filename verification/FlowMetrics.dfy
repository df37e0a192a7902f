/**
  The counters of the V2 session reorder: what each step adds, what a whole run
  adds up to, and the law that every arrival is delivered, dropped, held or lost
  with a retired flow.
*/
module FlowMetrics {
  import opened Prelude
  import opened Codec
  import opened FlowReorder

  datatype Counter =
    | DeliveredPackets | Duplicates | TombstoneHits | ClassMismatches
    | FlowPacketDrops | FlowByteDrops | SessionByteDrops | FarAheadDrops | ExhaustedDrops
    | GapsSkipped | PacketsSkipped
    | FlowsEvicted | FlowsExpired | TombstonesEvicted | TombstonesExpired

  /** A value for every counter. */
  type Metrics = m: map<Counter, u64> | forall c: Counter :: c in m
    witness map c: Counter | true :: 0

  const NO_METRICS: Metrics := map c: Counter | true :: 0

  /** One saturating addition. */
  function Bumped(m: Metrics, c: Counter, n: nat): Metrics {
    m[c := Saturate(m[c] + n)]
  }

  function DropCounter(reason: DropReason): Counter {
    match reason
    case Duplicate => Duplicates
    case ClassMismatch => ClassMismatches
    case FlowPacketCapacity => FlowPacketDrops
    case FlowByteCapacity => FlowByteDrops
    case SessionByteCapacity => SessionByteDrops
    case FarAhead => FarAheadDrops
    case Exhausted => ExhaustedDrops
  }

  // ---------------------------------------------------------------------
  // What a step adds
  // ---------------------------------------------------------------------

  /** How many head gaps go when all that are due are skipped. */
  ghost function GapsIn(f: Flow, session: nat, limits: Limits, now: u64): nat
    decreases |f.buffer|
  {
    if !SkipDue(f, limits, now) then 0
    else
      SkipShrinks(f, session, limits, now);
      var (g, rest, _) := SkipHead(f, session, now);
      1 + GapsIn(g, rest, limits, now)
  }

  /** How many identifiers those gaps span. */
  ghost function SkippedIn(f: Flow, session: nat, limits: Limits, now: u64): nat
    decreases |f.buffer|
  {
    if !SkipDue(f, limits, now) then 0
    else
      SkipShrinks(f, session, limits, now);
      var (g, rest, _) := SkipHead(f, session, now);
      (Smallest(f.buffer) - f.next) + SkippedIn(g, rest, limits, now)
  }

  function Amount(c: Counter, delivered: nat, gaps: nat, skipped: nat): nat {
    match c
    case DeliveredPackets => delivered
    case GapsSkipped => gaps
    case PacketsSkipped => skipped
    case _ => 0
  }

  /** What the outcome of an arrival for an open flow adds; `skipped` identifiers went over one gap. */
  function OutcomeAdds(out: Outcome, skipped: nat, c: Counter): nat {
    match out
    case Delivered(packets) => Amount(c, |packets|, if skipped > 0 then 1 else 0, skipped)
    case Dropped(reason) => if c == DropCounter(reason) then 1 else 0
    case _ => 0
  }

  ghost function OnFlowAdds(f: Flow, session: nat, limits: Limits, op: Op, c: Counter): nat
    requires op.Arrive?
  {
    var out := OnFlow(f, session, limits, op.class_, op.id, op.payload, op.now).2;
    OutcomeAdds(out, SkippedBy(f, limits, op.id, op.payload, op.now, out), c)
  }

  /** Reaped tombstones, and one given up for want of room. */
  function RetireAdds(s: State, now: u64, c: Counter): nat {
    var live := LiveTombs(s.tombs, now);
    if c == TombstonesExpired then Minus(|s.tombs|, |live|)
    else if c == TombstonesEvicted && |live| >= s.limits.maxTombstones then 1
    else 0
  }

  /** The key's own tombstone, when it has expired. */
  function OwnAdds(s: State, key: Key, now: u64, c: Counter): nat {
    if c == TombstonesExpired && key in s.tombs && now >= s.tombs[key].expiresAt then 1 else 0
  }

  /** A flow that goes to make room for `key`. */
  function EvictAdds(s: State, key: Key, now: u64, c: Counter): nat {
    (if c == FlowsEvicted then 1 else 0) + RetireAdds(s.(tombs := s.tombs - {key}), now, c)
  }

  function OpeningAdds(s: State, key: Key, now: u64, c: Counter): nat {
    OwnAdds(s, key, now, c) + if |s.flows| >= s.limits.maxFlows then EvictAdds(s, key, now, c) else 0
  }

  ghost function Adds(s: State, op: Op, c: Counter): nat {
    match op
    case Arrive(key, class_, id, _, now, _, _, _) =>
      if class_ == Control then (if c == ClassMismatches then 1 else 0)
      else if key in s.flows then OnFlowAdds(s.flows[key], s.sessionBytes, s.limits, op, c)
      else if Replayed(s, key, id, now) then (if c == Duplicates || c == TombstoneHits then 1 else 0)
      else (if c == DeliveredPackets then 1 else 0) + OpeningAdds(s, key, now, c)
    case Idle(_, now, _, _) => (if c == FlowsExpired then 1 else 0) + RetireAdds(s, now, c)
    case SkipGaps(key, now) =>
      if key !in s.flows then 0
      else
        var f := s.flows[key];
        Amount(c, |SkipAll(f, s.sessionBytes, s.limits, now).2|, GapsIn(f, s.sessionBytes, s.limits, now),
               SkippedIn(f, s.sessionBytes, s.limits, now))
    case Purge(now) => if c == TombstonesExpired then Minus(|s.tombs|, |LiveTombs(s.tombs, now)|) else 0
  }

  // ---------------------------------------------------------------------
  // How the counters are kept
  // ---------------------------------------------------------------------

  function RetireMetrics(m: Metrics, s: State, now: u64): Metrics {
    var live := LiveTombs(s.tombs, now);
    var reaped := Bumped(m, TombstonesExpired, Minus(|s.tombs|, |live|));
    if |live| >= s.limits.maxTombstones then Bumped(reaped, TombstonesEvicted, 1) else reaped
  }

  function SkipMetrics(m: Metrics, delivered: nat, gaps: nat, skipped: nat): Metrics {
    Bumped(Bumped(Bumped(m, GapsSkipped, gaps), PacketsSkipped, skipped), DeliveredPackets, delivered)
  }

  function OutcomeMetrics(m: Metrics, out: Outcome, skipped: nat): Metrics {
    match out
    case Delivered(packets) => SkipMetrics(m, |packets|, if skipped > 0 then 1 else 0, skipped)
    case Dropped(reason) => Bumped(m, DropCounter(reason), 1)
    case _ => m
  }

  /** `n` is `m` with what the step adds, each counter stopping at its greatest value. */
  ghost predicate StepCounts(m: Metrics, n: Metrics, s: State, op: Op) {
    forall c: Counter :: n[c] == Saturate(m[c] + Adds(s, op, c))
  }

  lemma RetireMetricsCount(m: Metrics, s: State, now: u64, c: Counter)
    ensures RetireMetrics(m, s, now)[c] == Saturate(m[c] + RetireAdds(s, now, c))
  {
  }

  /** Adding in two goes stops at the same value as adding at once. */
  lemma SaturateTwice(x: nat, a: nat, b: nat)
    ensures Saturate(Saturate(x + a) + b) == Saturate(x + a + b)
  {
  }

  lemma BumpedAt(m: Metrics, d: Counter, n: nat, c: Counter)
    ensures Bumped(m, d, n)[c] == Saturate(m[c] + if c == d then n else 0)
  {
  }

  function OwnMetrics(m: Metrics, s: State, key: Key, now: u64): Metrics {
    if key in s.tombs && now >= s.tombs[key].expiresAt then Bumped(m, TombstonesExpired, 1) else m
  }

  lemma OwnMetricsCount(m: Metrics, s: State, key: Key, now: u64, c: Counter)
    ensures OwnMetrics(m, s, key, now)[c] == Saturate(m[c] + OwnAdds(s, key, now, c))
  {
    BumpedAt(m, TombstonesExpired, 1, c);
  }

  function EvictMetrics(m: Metrics, s: State, key: Key, now: u64): Metrics {
    RetireMetrics(Bumped(m, FlowsEvicted, 1), s.(tombs := s.tombs - {key}), now)
  }

  lemma EvictMetricsCount(m: Metrics, s: State, key: Key, now: u64, c: Counter)
    ensures EvictMetrics(m, s, key, now)[c] == Saturate(m[c] + EvictAdds(s, key, now, c))
  {
    var bumped := Bumped(m, FlowsEvicted, 1);
    var cleared := s.(tombs := s.tombs - {key});
    var one: nat := if c == FlowsEvicted then 1 else 0;
    BumpedAt(m, FlowsEvicted, 1, c);
    RetireMetricsCount(bumped, cleared, now, c);
    SaturateTwice(m[c], one, RetireAdds(cleared, now, c));
    assert EvictMetrics(m, s, key, now) == RetireMetrics(bumped, cleared, now);
    assert EvictAdds(s, key, now, c) == one + RetireAdds(cleared, now, c);
  }

  function OpeningMetrics(m: Metrics, s: State, key: Key, now: u64): Metrics {
    var own := OwnMetrics(m, s, key, now);
    if |s.flows| >= s.limits.maxFlows then EvictMetrics(own, s, key, now) else own
  }

  lemma OpeningMetricsCount(m: Metrics, s: State, key: Key, now: u64, c: Counter)
    ensures OpeningMetrics(m, s, key, now)[c] == Saturate(m[c] + OpeningAdds(s, key, now, c))
  {
    var own := OwnMetrics(m, s, key, now);
    OwnMetricsCount(m, s, key, now, c);
    if |s.flows| >= s.limits.maxFlows {
      FullOpeningCount(m, s, key, now, c);
    }
  }

  lemma FullOpeningCount(m: Metrics, s: State, key: Key, now: u64, c: Counter)
    requires |s.flows| >= s.limits.maxFlows
    ensures OpeningMetrics(m, s, key, now)[c] == Saturate(m[c] + OpeningAdds(s, key, now, c))
  {
    var own := OwnMetrics(m, s, key, now);
    OwnMetricsCount(m, s, key, now, c);
    EvictMetricsCount(own, s, key, now, c);
    AddsInTurn(m, own, EvictMetrics(own, s, key, now), c, OwnAdds(s, key, now, c), EvictAdds(s, key, now, c));
  }

  lemma AddsInTurn(a: Metrics, b: Metrics, d: Metrics, c: Counter, x: nat, y: nat)
    requires b[c] == Saturate(a[c] + x) && d[c] == Saturate(b[c] + y)
    ensures d[c] == Saturate(a[c] + (x + y))
  {
  }

  lemma SkipMetricsCount(m: Metrics, delivered: nat, gaps: nat, skipped: nat, c: Counter)
    ensures SkipMetrics(m, delivered, gaps, skipped)[c] == Saturate(m[c] + Amount(c, delivered, gaps, skipped))
  {
  }

  lemma OutcomeMetricsCount(m: Metrics, out: Outcome, skipped: nat, c: Counter)
    ensures OutcomeMetrics(m, out, skipped)[c] == Saturate(m[c] + OutcomeAdds(out, skipped, c))
  {
    if out.Delivered? {
      SkipMetricsCount(m, |out.packets|, if skipped > 0 then 1 else 0, skipped, c);
    }
  }

  ghost function ArriveMetrics(m: Metrics, s: State, op: Op): Metrics
    requires op.Arrive?
  {
    if op.class_ == Control then Bumped(m, ClassMismatches, 1)
    else if op.key in s.flows then
      var f := s.flows[op.key];
      var out := OnFlow(f, s.sessionBytes, s.limits, op.class_, op.id, op.payload, op.now).2;
      OutcomeMetrics(m, out, SkippedBy(f, s.limits, op.id, op.payload, op.now, out))
    else if Replayed(s, op.key, op.id, op.now) then Bumped(Bumped(m, Duplicates, 1), TombstoneHits, 1)
    else Bumped(OpeningMetrics(m, s, op.key, op.now), DeliveredPackets, 1)
  }

  ghost function MetricsAfter(m: Metrics, s: State, op: Op): Metrics {
    match op
    case Arrive(_, _, _, _, _, _, _, _) => ArriveMetrics(m, s, op)
    case Idle(_, now, _, _) => Bumped(RetireMetrics(m, s, now), FlowsExpired, 1)
    case SkipGaps(key, now) =>
      if key !in s.flows then m
      else
        var f := s.flows[key];
        SkipMetrics(m, |SkipAll(f, s.sessionBytes, s.limits, now).2|, GapsIn(f, s.sessionBytes, s.limits, now),
                    SkippedIn(f, s.sessionBytes, s.limits, now))
    case Purge(now) => Bumped(m, TombstonesExpired, Minus(|s.tombs|, |LiveTombs(s.tombs, now)|))
  }

  lemma NewFlowMetricsCount(m: Metrics, s: State, op: Op, c: Counter)
    requires op.Arrive? && op.class_ != Control && op.key !in s.flows && !Replayed(s, op.key, op.id, op.now)
    ensures MetricsAfter(m, s, op)[c] == Saturate(m[c] + Adds(s, op, c))
  {
    var opening := OpeningMetrics(m, s, op.key, op.now);
    OpeningMetricsCount(m, s, op.key, op.now, c);
    BumpedAt(opening, DeliveredPackets, 1, c);
    SaturateTwice(m[c], OpeningAdds(s, op.key, op.now, c), if c == DeliveredPackets then 1 else 0);
  }

  lemma ArriveMetricsCount(m: Metrics, s: State, op: Op, c: Counter)
    requires op.Arrive?
    ensures MetricsAfter(m, s, op)[c] == Saturate(m[c] + Adds(s, op, c))
  {
    if op.class_ == Control {
      BumpedAt(m, ClassMismatches, 1, c);
    } else if op.key in s.flows {
      var f := s.flows[op.key];
      var out := OnFlow(f, s.sessionBytes, s.limits, op.class_, op.id, op.payload, op.now).2;
      OutcomeMetricsCount(m, out, SkippedBy(f, s.limits, op.id, op.payload, op.now, out), c);
    } else if Replayed(s, op.key, op.id, op.now) {
      BumpedAt(m, Duplicates, 1, c);
      BumpedAt(Bumped(m, Duplicates, 1), TombstoneHits, 1, c);
    } else {
      NewFlowMetricsCount(m, s, op, c);
    }
  }

  lemma IdleMetricsCount(m: Metrics, s: State, op: Op, c: Counter)
    requires op.Idle?
    ensures MetricsAfter(m, s, op)[c] == Saturate(m[c] + Adds(s, op, c))
  {
    RetireMetricsCount(m, s, op.now, c);
    BumpedAt(RetireMetrics(m, s, op.now), FlowsExpired, 1, c);
    SaturateTwice(m[c], RetireAdds(s, op.now, c), if c == FlowsExpired then 1 else 0);
  }

  /** The counters kept step by step are the ones the steps add up to. */
  lemma MetricsAfterCount(m: Metrics, s: State, op: Op)
    ensures StepCounts(m, MetricsAfter(m, s, op), s, op)
  {
    forall c: Counter ensures MetricsAfter(m, s, op)[c] == Saturate(m[c] + Adds(s, op, c)) {
      match op
      case Arrive(_, _, _, _, _, _, _, _) => ArriveMetricsCount(m, s, op, c);
      case Idle(_, _, _, _) => IdleMetricsCount(m, s, op, c);
      case SkipGaps(key, now) =>
        if key in s.flows {
          var f := s.flows[key];
          SkipMetricsCount(m, |SkipAll(f, s.sessionBytes, s.limits, now).2|, GapsIn(f, s.sessionBytes, s.limits, now),
                           SkippedIn(f, s.sessionBytes, s.limits, now), c);
        }
      case Purge(now) => BumpedAt(m, TombstonesExpired, Minus(|s.tombs|, |LiveTombs(s.tombs, now)|), c);
    }
  }

  // ---------------------------------------------------------------------
  // Whole runs
  // ---------------------------------------------------------------------

  ghost function Tally(s: State, ops: seq<Op>, c: Counter): nat {
    if ops == [] then 0
    else Tally(s, ops[..|ops| - 1], c) + Adds(Run(s, ops[..|ops| - 1]), ops[|ops| - 1], c)
  }

  /** `m` is what the run since creation adds up to, each counter stopping at its greatest value. */
  ghost predicate Counted(limits: Limits, trace: seq<Op>, m: Metrics) {
    forall c: Counter :: m[c] == Saturate(Tally(Fresh(limits), trace, c))
  }

  /** Tables and counters are what the allowed steps `trace` lead to from an empty session. */
  ghost predicate Lawful(limits: Limits, trace: seq<Op>, s: State, m: Metrics) {
    Reached(limits, trace, s) && Counted(limits, trace, m)
  }

  lemma LawfulSnoc(limits: Limits, trace: seq<Op>, s: State, m: Metrics, op: Op, t: State, n: Metrics)
    requires Lawful(limits, trace, s, m) && Allowed(s, op)
    requires t == Apply(s, op).0 && n == MetricsAfter(m, s, op)
    ensures Lawful(limits, trace + [op], t, n)
  {
    ReachedSnoc(limits, trace, s, op);
    CountedSnoc(limits, trace, s, op, m, n);
  }

  lemma CountedSnoc(limits: Limits, trace: seq<Op>, s: State, op: Op, m: Metrics, n: Metrics)
    requires Reached(limits, trace, s) && Counted(limits, trace, m) && n == MetricsAfter(m, s, op)
    ensures Counted(limits, trace + [op], n)
  {
    MetricsAfterCount(m, s, op);
    var all := trace + [op];
    assert all[..|trace|] == trace;
    forall c: Counter ensures n[c] == Saturate(Tally(Fresh(limits), all, c)) {
      assert Tally(Fresh(limits), all, c) == Tally(Fresh(limits), trace, c) + Adds(s, op, c);
    }
  }

  // ---------------------------------------------------------------------
  // What each counter stands for
  // ---------------------------------------------------------------------

  function Bit(b: bool): nat {
    if b then 1 else 0
  }

  /** The counters that count steps by their answer, or by the flow they retire. */
  predicate CountsAnswers(c: Counter) {
    !c.GapsSkipped? && !c.PacketsSkipped? && !c.TombstonesEvicted? && !c.TombstonesExpired?
  }

  /** What an answer shows of counter `c`: a drop its reason, a delivery its packets. */
  function ShownBy(out: Outcome, c: Counter): nat {
    match c
    case DeliveredPackets => |PacketsOf(out)|
    case Duplicates => Bit(out == Dropped(Duplicate))
    case ClassMismatches => Bit(out == Dropped(ClassMismatch))
    case FlowPacketDrops => Bit(out == Dropped(FlowPacketCapacity))
    case FlowByteDrops => Bit(out == Dropped(FlowByteCapacity))
    case SessionByteDrops => Bit(out == Dropped(SessionByteCapacity))
    case FarAheadDrops => Bit(out == Dropped(FarAhead))
    case ExhaustedDrops => Bit(out == Dropped(Exhausted))
    case _ => 0
  }

  /** The step takes some flow out of the table. */
  ghost predicate LosesFlow(s: State, op: Op) {
    exists k :: k in s.flows && k !in Apply(s, op).0.flows
  }

  /** What a step shows of counter `c`, read off its answer and the flows before and after it. */
  ghost function Shows(s: State, op: Op, c: Counter): nat {
    var out := Apply(s, op).1;
    match c
    case TombstoneHits => Bit(out == Dropped(Duplicate) && op.Arrive? && op.key !in s.flows)
    case FlowsEvicted => Bit(op.Arrive? && LosesFlow(s, op))
    case FlowsExpired => Bit(op.Idle? && LosesFlow(s, op))
    case _ => ShownBy(out, c)
  }

  lemma OutcomeAddsShown(out: Outcome, skipped: nat, c: Counter)
    requires CountsAnswers(c) && (out.Delivered? || out.Dropped? || out.Buffered?)
    ensures OutcomeAdds(out, skipped, c) == ShownBy(out, c)
  {
  }

  lemma OpenFlowAnswers(s: State, op: Op, out: Outcome)
    requires op.Arrive? && op.class_ != Control && op.key in s.flows
    requires out == OnFlow(s.flows[op.key], s.sessionBytes, s.limits, op.class_, op.id, op.payload, op.now).2
    ensures Apply(s, op).1 == out && !LosesFlow(s, op) && !out.Quiet?
  {
    assert Apply(s, op).0.flows.Keys == s.flows.Keys;
  }

  lemma OpenFlowShows(s: State, op: Op, c: Counter)
    requires op.Arrive? && op.class_ != Control && op.key in s.flows && CountsAnswers(c)
    ensures Adds(s, op, c) == Shows(s, op, c)
  {
    var f := s.flows[op.key];
    var out := OnFlow(f, s.sessionBytes, s.limits, op.class_, op.id, op.payload, op.now).2;
    OpenFlowAnswers(s, op, out);
    OutcomeAddsShown(out, SkippedBy(f, s.limits, op.id, op.payload, op.now, out), c);
  }

  /** Opening a flow loses another exactly when the table is full. */
  lemma OpeningLoses(s: State, op: Op)
    requires op.Arrive? && op.class_ != Control && op.key !in s.flows
    requires Allowed(s, op) && !Replayed(s, op.key, op.id, op.now)
    ensures LosesFlow(s, op) <==> |s.flows| >= s.limits.maxFlows
    ensures Apply(s, op).1 == Delivered([(op.id, op.payload)])
  {
    var t := Apply(s, op).0;
    if |s.flows| >= s.limits.maxFlows {
      assert op.oldest in s.flows && op.oldest !in t.flows;
    } else {
      assert forall k :: k in s.flows ==> k in t.flows;
    }
  }

  lemma OpeningAddsShown(s: State, key: Key, now: u64, c: Counter)
    requires CountsAnswers(c)
    ensures OpeningAdds(s, key, now, c) == Bit(c == FlowsEvicted && |s.flows| >= s.limits.maxFlows)
  {
  }

  lemma NewFlowShows(s: State, op: Op, c: Counter)
    requires op.Arrive? && op.class_ != Control && op.key !in s.flows && CountsAnswers(c)
    requires Allowed(s, op) && !Replayed(s, op.key, op.id, op.now)
    ensures Adds(s, op, c) == Shows(s, op, c)
  {
    OpeningLoses(s, op);
    OpeningAddsShown(s, op.key, op.now, c);
  }

  lemma RefusalShows(s: State, op: Op, c: Counter)
    requires op.Arrive? && CountsAnswers(c)
    requires op.class_ == Control || (op.key !in s.flows && Replayed(s, op.key, op.id, op.now))
    ensures Adds(s, op, c) == Shows(s, op, c)
  {
    assert Apply(s, op).0 == s;
  }

  lemma RetirementShows(s: State, op: Op, c: Counter)
    requires Allowed(s, op) && op.Idle? && CountsAnswers(c)
    ensures Adds(s, op, c) == Shows(s, op, c)
  {
    assert op.key in s.flows && op.key !in Apply(s, op).0.flows;
  }

  lemma SkipShows(s: State, op: Op, c: Counter)
    requires op.SkipGaps? && CountsAnswers(c)
    ensures Adds(s, op, c) == Shows(s, op, c)
  {
  }

  lemma ArrivalShows(s: State, op: Op, c: Counter)
    requires Allowed(s, op) && op.Arrive? && CountsAnswers(c)
    ensures Adds(s, op, c) == Shows(s, op, c)
  {
    if op.class_ == Control || (op.key !in s.flows && Replayed(s, op.key, op.id, op.now)) {
      RefusalShows(s, op, c);
    } else if op.key in s.flows {
      OpenFlowShows(s, op, c);
    } else {
      NewFlowShows(s, op, c);
    }
  }

  lemma StepShows(s: State, op: Op, c: Counter)
    requires Allowed(s, op) && CountsAnswers(c)
    ensures Adds(s, op, c) == Shows(s, op, c)
  {
    if op.Arrive? {
      ArrivalShows(s, op, c);
    } else if op.Idle? {
      RetirementShows(s, op, c);
    } else if op.SkipGaps? {
      SkipShows(s, op, c);
    }
  }

  ghost function ShownOver(s: State, ops: seq<Op>, c: Counter): nat {
    if ops == [] then 0
    else ShownOver(s, ops[..|ops| - 1], c) + Shows(Run(s, ops[..|ops| - 1]), ops[|ops| - 1], c)
  }

  lemma {:induction false} TallyIsShown(s: State, ops: seq<Op>, c: Counter)
    requires AllAllowed(s, ops) && CountsAnswers(c)
    ensures Tally(s, ops, c) == ShownOver(s, ops, c)
  {
    if ops != [] {
      AllowedPrefix(s, ops);
      TallyIsShown(s, ops[..|ops| - 1], c);
      assert ops[..|ops|] == ops;
      StepShows(Run(s, ops[..|ops| - 1]), ops[|ops| - 1], c);
    }
  }

  /**
    On a lawful object each such counter is the saturated number of steps, or of
    packets, that showed it: the drops by their reason, the deliveries, the flows lost
    to a new arrival and those lost for idleness.
  */
  lemma CountersStandForAnswers(limits: Limits, trace: seq<Op>, s: State, m: Metrics, c: Counter)
    requires Lawful(limits, trace, s, m) && CountsAnswers(c)
    ensures m[c] == Saturate(ShownOver(Fresh(limits), trace, c))
  {
    TallyIsShown(Fresh(limits), trace, c);
  }

  // ---------------------------------------------------------------------
  // Where every arrival goes
  // ---------------------------------------------------------------------

  function BufferCounts(flows: map<Key, Flow>): map<Key, nat> {
    map k | k in flows :: |flows[k].buffer|
  }

  /** Packets held in all flows. */
  ghost function HeldCount(s: State): nat {
    Weight(BufferCounts(s.flows))
  }

  /** Packets still held in a flow that a step retires. */
  function Lost(s: State, op: Op): nat {
    match op
    case Idle(key, _, _, _) => if key in s.flows then |s.flows[key].buffer| else 0
    case Arrive(key, class_, id, _, now, oldest, _, _) =>
      if class_ != Control && key !in s.flows && !Replayed(s, key, id, now) && |s.flows| >= s.limits.maxFlows
         && oldest in s.flows then |s.flows[oldest].buffer|
      else 0
    case _ => 0
  }

  /** Arrivals a step drops, for whatever reason; a tombstone hit is also a duplicate. */
  ghost function Dropping(s: State, op: Op): nat {
    Adds(s, op, Duplicates) + Adds(s, op, ClassMismatches) + Adds(s, op, FlowPacketDrops) + Adds(s, op, FlowByteDrops)
    + Adds(s, op, SessionByteDrops) + Adds(s, op, FarAheadDrops) + Adds(s, op, ExhaustedDrops)
  }

  lemma {:induction false} PullCounts(f: Flow, session: nat)
    ensures var (g, _, out) := Pull(f, session); |g.buffer| + |out| == |f.buffer|
    decreases |f.buffer|
  {
    if !f.exhausted && f.next in f.buffer {
      BufferRemove(f.buffer, f.next);
      PullStep(f, session);
      PullCounts(PullOne(f), Minus(session, |f.buffer[f.next].payload|));
    }
  }

  lemma {:induction false} SkipAllCounts(f: Flow, session: nat, limits: Limits, now: u64)
    ensures var (g, _, out) := SkipAll(f, session, limits, now); |g.buffer| + |out| == |f.buffer|
    decreases |f.buffer|
  {
    if SkipDue(f, limits, now) {
      SkipShrinks(f, session, limits, now);
      PullCounts(f.(next := Smallest(f.buffer)), session);
      var (g, rest, _) := SkipHead(f, session, now);
      SkipAllCounts(g, rest, limits, now);
    }
  }

  /**
    The same on the counters of a lawful object: until one of these counters has
    reached its greatest value they account for every arrival.
  */
  lemma CountersConserveArrivals(limits: Limits, trace: seq<Op>, s: State, m: Metrics)
    requires Lawful(limits, trace, s, m)
    requires m[DeliveredPackets] < U64_MAX && m[Duplicates] < U64_MAX && m[ClassMismatches] < U64_MAX
    requires m[FlowPacketDrops] < U64_MAX && m[FlowByteDrops] < U64_MAX && m[SessionByteDrops] < U64_MAX
    requires m[FarAheadDrops] < U64_MAX && m[ExhaustedDrops] < U64_MAX
    ensures Arrivals(trace)
            == m[DeliveredPackets] + m[Duplicates] + m[ClassMismatches] + m[FlowPacketDrops] + m[FlowByteDrops]
               + m[SessionByteDrops] + m[FarAheadDrops] + m[ExhaustedDrops]
               + HeldCount(s) + AllLost(Fresh(limits), trace)
  {
    ArrivalsAreConserved(limits, trace);
    CounterIsExact(limits, trace, m, DeliveredPackets);
    CounterIsExact(limits, trace, m, Duplicates);
    CounterIsExact(limits, trace, m, ClassMismatches);
    CounterIsExact(limits, trace, m, FlowPacketDrops);
    CounterIsExact(limits, trace, m, FlowByteDrops);
    CounterIsExact(limits, trace, m, SessionByteDrops);
    CounterIsExact(limits, trace, m, FarAheadDrops);
    CounterIsExact(limits, trace, m, ExhaustedDrops);
  }

  lemma CounterIsExact(limits: Limits, trace: seq<Op>, m: Metrics, c: Counter)
    requires Counted(limits, trace, m) && m[c] < U64_MAX
    ensures m[c] == Tally(Fresh(limits), trace, c)
  {
  }

  /** Skips move the head by what they deliver and the identifiers they span. */
  lemma {:induction false} SkippedInMovesHead(f: Flow, session: nat, limits: Limits, now: u64)
    requires FlowValid(f, limits) && f.bytes <= session
    ensures var (g, _, out) := SkipAll(f, session, limits, now);
            Head(g) == Head(f) + |out| + SkippedIn(f, session, limits, now)
    decreases |f.buffer|
  {
    if SkipDue(f, limits, now) {
      SkipShrinks(f, session, limits, now);
      SkipIsSound(f, session, limits, now);
      SkipKeepsFlowValid(f, session, limits, now);
      var (g, rest, _) := SkipHead(f, session, now);
      SkippedInMovesHead(g, rest, limits, now);
    }
  }

  /** An open flow turns each arrival into a delivery, a drop or a held packet. */
  lemma OnFlowCounts(f: Flow, session: nat, limits: Limits, op: Op)
    requires op.Arrive?
    ensures var (g, _, out) := OnFlow(f, session, limits, op.class_, op.id, op.payload, op.now);
            |g.buffer| + |PacketsOf(out)| + (if out.Dropped? then 1 else 0) == |f.buffer| + 1
  {
    if Holds(f, session, limits, op.class_, op.id, op.payload) {
      HoldingCounts(f.(lastActivity := op.now), session + |op.payload|, limits, op.id, op.payload, op.now);
    } else if !f.exhausted && f.class_ == op.class_ && op.id == f.next && op.id !in f.buffer && op.id < U64_MAX {
      PullCounts(f.(lastActivity := op.now, next := f.next + 1), session);
    }
  }

  lemma HoldingCounts(f: Flow, session: nat, limits: Limits, id: u64, payload: Payload, now: u64)
    requires id !in f.buffer
    ensures var h := Hold(f, id, payload, now);
            && |h.buffer| == |f.buffer| + 1
            && (SkipDue(h, limits, now) ==>
                  |SkipHead(h, session, now).0.buffer| + |SkipHead(h, session, now).2| == |f.buffer| + 1)
  {
    var h := Hold(f, id, payload, now);
    HoldAddsBytes(f, id, payload, now);
    if SkipDue(h, limits, now) {
      PullCounts(h.(next := Smallest(h.buffer)), session);
    }
  }

  lemma CountSet(flows: map<Key, Flow>, key: Key, g: Flow)
    ensures Weight(BufferCounts(flows[key := g]))
            == Weight(BufferCounts(flows)) - (if key in flows then |flows[key].buffer| else 0) + |g.buffer|
  {
    WeightSet(BufferCounts(flows), key, |g.buffer|);
    assert BufferCounts(flows[key := g]) == BufferCounts(flows)[key := |g.buffer|];
  }

  lemma CountRemove(flows: map<Key, Flow>, key: Key)
    requires key in flows
    ensures Weight(BufferCounts(flows - {key})) == Weight(BufferCounts(flows)) - |flows[key].buffer|
  {
    WeightRemove(BufferCounts(flows), key);
    assert BufferCounts(flows - {key}) == BufferCounts(flows) - {key};
  }

  lemma OpenFlowConserves(s: State, op: Op)
    requires op.Arrive? && op.class_ != Control && op.key in s.flows
    ensures 1 + HeldCount(s) == Adds(s, op, DeliveredPackets) + Dropping(s, op) + HeldCount(Apply(s, op).0)
  {
    var f := s.flows[op.key];
    var (g, _, out) := OnFlow(f, s.sessionBytes, s.limits, op.class_, op.id, op.payload, op.now);
    OnFlowCounts(f, s.sessionBytes, s.limits, op);
    CountSet(s.flows, op.key, g);
    assert Dropping(s, op) == if out.Dropped? then 1 else 0;
    assert Adds(s, op, DeliveredPackets) == |PacketsOf(out)|;
  }

  /** Making room touches only its own counters. */
  lemma OpeningAddsElsewhere(s: State, key: Key, now: u64, c: Counter)
    requires c != TombstonesExpired && c != TombstonesEvicted && c != FlowsEvicted
    ensures OpeningAdds(s, key, now, c) == 0
  {
  }

  lemma NewFlowAdds(s: State, op: Op, c: Counter)
    requires op.Arrive? && op.class_ != Control && op.key !in s.flows && !Replayed(s, op.key, op.id, op.now)
    requires c != TombstonesExpired && c != TombstonesEvicted && c != FlowsEvicted
    ensures Adds(s, op, c) == if c == DeliveredPackets then 1 else 0
  {
    OpeningAddsElsewhere(s, op.key, op.now, c);
  }

  lemma NewFlowDelivers(s: State, op: Op)
    requires op.Arrive? && op.class_ != Control && op.key !in s.flows && !Replayed(s, op.key, op.id, op.now)
    ensures Adds(s, op, DeliveredPackets) == 1 && Dropping(s, op) == 0
  {
    NewFlowAdds(s, op, DeliveredPackets);
    NewFlowAdds(s, op, Duplicates);
    NewFlowAdds(s, op, ClassMismatches);
    NewFlowAdds(s, op, FlowPacketDrops);
    NewFlowAdds(s, op, FlowByteDrops);
    NewFlowAdds(s, op, SessionByteDrops);
    NewFlowAdds(s, op, FarAheadDrops);
    NewFlowAdds(s, op, ExhaustedDrops);
  }

  lemma NewFlowHolds(s: State, op: Op)
    requires Allowed(s, op) && op.Arrive? && op.class_ != Control && op.key !in s.flows
    requires !Replayed(s, op.key, op.id, op.now)
    ensures HeldCount(s) == HeldCount(Apply(s, op).0) + Lost(s, op)
  {
    var before := BeforeOpening(s, op.key, op.now, op.oldest, op.watermark, op.spent);
    RoomIsMade(s, op, before);
    var f := Opened(before, op.key, op.class_, op.id, op.now).flows[op.key];
    assert Apply(s, op).0.flows == before.flows[op.key := f];
    CountSet(before.flows, op.key, f);
  }

  lemma RoomIsMade(s: State, op: Op, before: State)
    requires Allowed(s, op) && op.Arrive? && op.class_ != Control && op.key !in s.flows
    requires !Replayed(s, op.key, op.id, op.now)
    requires before == BeforeOpening(s, op.key, op.now, op.oldest, op.watermark, op.spent)
    ensures op.key !in before.flows && HeldCount(s) == HeldCount(before) + Lost(s, op)
  {
    if |s.flows| >= s.limits.maxFlows {
      CountRemove(s.flows, op.oldest);
      assert before.flows == s.flows - {op.oldest};
    }
  }

  lemma RetireAddsElsewhere(s: State, op: Op, c: Counter)
    requires op.Idle? && c != TombstonesExpired && c != TombstonesEvicted && c != FlowsExpired
    ensures Adds(s, op, c) == 0
  {
  }

  lemma RetireConserves(s: State, op: Op)
    requires Allowed(s, op) && op.Idle?
    ensures HeldCount(s) == HeldCount(Apply(s, op).0) + Lost(s, op)
  {
    CountRemove(s.flows, op.key);
    assert Apply(s, op).0.flows == s.flows - {op.key};
  }

  lemma RetireCountsNothing(s: State, op: Op)
    requires op.Idle?
    ensures Adds(s, op, DeliveredPackets) == 0 && Dropping(s, op) == 0
  {
    RetireAddsElsewhere(s, op, DeliveredPackets);
    RetireAddsElsewhere(s, op, Duplicates);
    RetireAddsElsewhere(s, op, ClassMismatches);
    RetireAddsElsewhere(s, op, FlowPacketDrops);
    RetireAddsElsewhere(s, op, FlowByteDrops);
    RetireAddsElsewhere(s, op, SessionByteDrops);
    RetireAddsElsewhere(s, op, FarAheadDrops);
    RetireAddsElsewhere(s, op, ExhaustedDrops);
  }

  lemma SkipConserves(s: State, op: Op)
    requires op.SkipGaps? && op.key in s.flows
    ensures HeldCount(s) == Adds(s, op, DeliveredPackets) + HeldCount(Apply(s, op).0)
    ensures Dropping(s, op) == 0
  {
    SkipAllCounts(s.flows[op.key], s.sessionBytes, s.limits, op.now);
    CountSet(s.flows, op.key, SkipAll(s.flows[op.key], s.sessionBytes, s.limits, op.now).0);
  }

  /** Every arrival is delivered, dropped or held, and what was held goes out, stays or is lost with its flow. */
  lemma StepConservesArrivals(s: State, op: Op)
    requires Allowed(s, op)
    ensures (if op.Arrive? then 1 else 0) + HeldCount(s)
            == Adds(s, op, DeliveredPackets) + Dropping(s, op) + HeldCount(Apply(s, op).0) + Lost(s, op)
  {
    match op
    case Arrive(key, class_, id, _, now, _, _, _) =>
      if class_ != Control && key in s.flows {
        OpenFlowConserves(s, op);
      } else if class_ != Control && !Replayed(s, key, id, now) {
        NewFlowDelivers(s, op);
        NewFlowHolds(s, op);
      }
    case Idle(_, _, _, _) =>
      RetireConserves(s, op);
      RetireCountsNothing(s, op);
    case SkipGaps(key, _) =>
      if key in s.flows {
        SkipConserves(s, op);
      }
    case Purge(_) =>
  }

  function Arrivals(ops: seq<Op>): nat {
    if ops == [] then 0 else Arrivals(ops[..|ops| - 1]) + if ops[|ops| - 1].Arrive? then 1 else 0
  }

  ghost function AllLost(s: State, ops: seq<Op>): nat {
    if ops == [] then 0 else AllLost(s, ops[..|ops| - 1]) + Lost(Run(s, ops[..|ops| - 1]), ops[|ops| - 1])
  }

  ghost function AllDropped(s: State, ops: seq<Op>): nat {
    Tally(s, ops, Duplicates) + Tally(s, ops, ClassMismatches) + Tally(s, ops, FlowPacketDrops)
    + Tally(s, ops, FlowByteDrops) + Tally(s, ops, SessionByteDrops) + Tally(s, ops, FarAheadDrops)
    + Tally(s, ops, ExhaustedDrops)
  }

  /**
    Over every run from an empty session the arrivals are the packets delivered, the
    arrivals dropped by reason, the packets still held, and those lost with retired flows.
  */
  lemma {:induction false} ArrivalsAreConserved(limits: Limits, ops: seq<Op>)
    requires AllAllowed(Fresh(limits), ops)
    ensures var s := Fresh(limits);
            Arrivals(ops)
            == Tally(s, ops, DeliveredPackets) + AllDropped(s, ops) + HeldCount(Run(s, ops)) + AllLost(s, ops)
  {
    var s := Fresh(limits);
    if ops == [] {
      assert BufferCounts(s.flows) == map[];
    } else {
      AllowedPrefix(s, ops);
      ArrivalsAreConserved(limits, ops[..|ops| - 1]);
      StepConservesArrivals(Run(s, ops[..|ops| - 1]), ops[|ops| - 1]);
    }
  }

  lemma OutcomeSkips(f: Flow, session: nat, limits: Limits, op: Op)
    requires op.Arrive?
    ensures var out := OnFlow(f, session, limits, op.class_, op.id, op.payload, op.now).2;
            OnFlowAdds(f, session, limits, op, PacketsSkipped) == SkippedBy(f, limits, op.id, op.payload, op.now, out)
  {
    var out := OnFlow(f, session, limits, op.class_, op.id, op.payload, op.now).2;
    SkipsCounted(out, SkippedBy(f, limits, op.id, op.payload, op.now, out));
  }

  lemma SkipsCounted(out: Outcome, skipped: nat)
    requires !out.Delivered? ==> skipped == 0
    ensures OutcomeAdds(out, skipped, PacketsSkipped) == skipped
  {
  }

  /** A step moves its flow's head by the packets it delivers and the identifiers it counts as skipped. */
  lemma HeadMovesByCounters(s: State, op: Op, key: Key)
    requires SessionValid(s) && key in s.flows && (op.Arrive? || op.SkipGaps?) && op.key == key
    ensures var t := Apply(s, op).0;
            key in t.flows
            && Head(t.flows[key]) == Head(s.flows[key]) + |DeliveredFor(s, op, key)| + Adds(s, op, PacketsSkipped)
  {
    if op.Arrive? {
      if op.class_ != Control {
        ArrivalMovesHead(s, op, key);
      }
    } else {
      SkipMovesHead(s, op);
    }
  }

  lemma SkipStep(s: State, op: Op)
    requires op.SkipGaps? && op.key in s.flows
    ensures var f := s.flows[op.key];
            var (g, _, out) := SkipAll(f, s.sessionBytes, s.limits, op.now);
            var t := Apply(s, op).0;
            && op.key in t.flows && t.flows[op.key] == g && DeliveredFor(s, op, op.key) == out
            && Adds(s, op, PacketsSkipped) == SkippedIn(f, s.sessionBytes, s.limits, op.now)
  {
  }

  lemma SkipMovesHead(s: State, op: Op)
    requires SessionValid(s) && op.SkipGaps? && op.key in s.flows
    ensures var t := Apply(s, op).0;
            op.key in t.flows
            && Head(t.flows[op.key])
               == Head(s.flows[op.key]) + |DeliveredFor(s, op, op.key)| + Adds(s, op, PacketsSkipped)
  {
    var f := s.flows[op.key];
    var (g, _, out) := SkipAll(f, s.sessionBytes, s.limits, op.now);
    SkipStep(s, op);
    FlowBytesAtMostSession(s, op.key);
    SkippedInMovesHead(f, s.sessionBytes, s.limits, op.now);
  }

  lemma ArrivalMovesHead(s: State, op: Op, key: Key)
    requires SessionValid(s) && key in s.flows && op.Arrive? && op.key == key && op.class_ != Control
    ensures var t := Apply(s, op).0;
            key in t.flows
            && Head(t.flows[key]) == Head(s.flows[key]) + |DeliveredFor(s, op, key)| + Adds(s, op, PacketsSkipped)
  {
    var f := s.flows[key];
    var (g, _, out) := OnFlow(f, s.sessionBytes, s.limits, op.class_, op.id, op.payload, op.now);
    FlowBytesAtMostSession(s, key);
    OnFlowIsSound(f, s.sessionBytes, s.limits, op.class_, op.id, op.payload, op.now);
    OutcomeSkips(f, s.sessionBytes, s.limits, op);
    assert Apply(s, op).0.flows[key] == g && DeliveredFor(s, op, key) == PacketsOf(out);
  }
}
