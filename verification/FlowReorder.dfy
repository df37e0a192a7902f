/**
  V2 per-flow deadline reorder. Each receive key has its own ordered queue;
  gaps are held until a deadline and then skipped; evicted and idle flows leave a
  bounded tombstone with the highest packet identifier they observed.
*/
module FlowReorder {
  import opened Prelude
  import opened Codec
  import opened Order

  type Payload = seq<u8>

  datatype Key = Key(session: SessionId, direction: Direction, keyEpoch: u32, flow: u64)

  datatype Limits = Limits(maxFlows: nat, maxPacketsPerFlow: nat, maxBytesPerFlow: nat, maxBytesPerSession: nat,
                           flowIdleTtlMs: u64, realtimeDeadlineMs: u64, interactiveDeadlineMs: u64, bulkDeadlineMs: u64,
                           maxTombstones: nat, tombstoneTtlMs: u64, maxFutureGap: u64)
  {
    predicate Accepted() {
      && maxFlows != 0 && maxPacketsPerFlow != 0 && maxBytesPerFlow != 0 && maxBytesPerSession != 0
      && flowIdleTtlMs != 0 && realtimeDeadlineMs != 0 && interactiveDeadlineMs != 0 && bulkDeadlineMs != 0
      && maxTombstones != 0 && tombstoneTtlMs != 0 && maxFutureGap != 0
    }

    function Deadline(c: TrafficClass): u64 {
      match c
      case Realtime => realtimeDeadlineMs
      case Control => realtimeDeadlineMs
      case Interactive => interactiveDeadlineMs
      case Bulk => bulkDeadlineMs
    }
  }

  const DEFAULT_LIMITS := Limits(256, 64, 256 * 1024, 4 * 1024 * 1024, 30_000, 20, 100, 500, 256, 60_000, 1_024)

  datatype DropReason =
    | Duplicate | ClassMismatch | FlowPacketCapacity | FlowByteCapacity | SessionByteCapacity | FarAhead | Exhausted

  type Packets = seq<(u64, Payload)>

  datatype Outcome = Delivered(packets: Packets) | Buffered | Dropped(reason: DropReason) | Quiet

  datatype Held = Held(payload: Payload, arrivedAt: u64)

  datatype Flow = Flow(class_: TrafficClass, next: u64, exhausted: bool,
                       buffer: map<u64, Held>, bytes: nat, lastActivity: u64)

  datatype Tomb = Tomb(watermark: u64, expiresAt: u64)

  datatype State = State(limits: Limits, flows: map<Key, Flow>, tombs: map<Key, Tomb>, sessionBytes: nat)

  function Minus(a: nat, b: nat): nat {
    if a < b then 0 else a - b
  }

  // ---------------------------------------------------------------------
  // One flow
  // ---------------------------------------------------------------------

  /** Takes the held packet at the head, which must be there. */
  function PullOne(f: Flow): Flow
    requires f.next in f.buffer
  {
    f.(buffer := f.buffer - {f.next},
       bytes := Minus(f.bytes, |f.buffer[f.next].payload|),
       exhausted := f.next == U64_MAX,
       next := if f.next == U64_MAX then U64_MAX else f.next + 1)
  }

  /** Delivers everything held contiguously from the head on. The head stops at the last identifier. */
  function Pull(f: Flow, session: nat): (Flow, nat, Packets)
    decreases |f.buffer|
  {
    if f.exhausted || f.next !in f.buffer then (f, session, [])
    else
      assert (f.buffer - {f.next}).Keys == f.buffer.Keys - {f.next};
      var p := f.buffer[f.next].payload;
      var (g, rest, out) := Pull(PullOne(f), Minus(session, |p|));
      (g, rest, [(f.next, p)] + out)
  }

  lemma {:induction false} SmallestExists(buffer: map<u64, Held>, k: u64)
    requires k in buffer
    ensures exists id :: id in buffer && forall j :: j in buffer ==> id <= j
    decreases k
  {
    if j :| j in buffer && j < k {
      SmallestExists(buffer, j);
    }
  }

  ghost function Smallest(buffer: map<u64, Held>): (id: u64)
    requires buffer != map[]
    ensures id in buffer && forall k :: k in buffer ==> id <= k
  {
    var k :| k in buffer;
    SmallestExists(buffer, k);
    var id :| id in buffer && forall j :: j in buffer ==> id <= j;
    id
  }

  /** The head gap may be skipped: the held packet of least identifier has outlived the deadline. */
  ghost predicate SkipDue(f: Flow, limits: Limits, now: u64) {
    && !f.exhausted
    && f.buffer != map[]
    && f.next < Smallest(f.buffer)
    && Minus(now, f.buffer[Smallest(f.buffer)].arrivedAt) >= limits.Deadline(f.class_)
  }

  ghost function SkipHead(f: Flow, session: nat, now: u64): (Flow, nat, Packets)
    requires f.buffer != map[]
  {
    var (g, rest, out) := Pull(f.(next := Smallest(f.buffer)), session);
    (g.(lastActivity := now), rest, out)
  }

  lemma {:induction false} PullShrinks(f: Flow, session: nat)
    ensures |Pull(f, session).0.buffer| <= |f.buffer|
    decreases |f.buffer|
  {
    if !f.exhausted && f.next in f.buffer {
      BufferRemove(f.buffer, f.next);
      PullStep(f, session);
      PullShrinks(PullOne(f), Minus(session, |f.buffer[f.next].payload|));
    }
  }

  lemma SkipShrinks(f: Flow, session: nat, limits: Limits, now: u64)
    requires SkipDue(f, limits, now)
    ensures |SkipHead(f, session, now).0.buffer| < |f.buffer|
  {
    var moved := f.(next := Smallest(f.buffer));
    BufferRemove(moved.buffer, moved.next);
    PullStep(moved, session);
    PullShrinks(PullOne(moved), Minus(session, |moved.buffer[moved.next].payload|));
  }

  /** Skips head gaps for as long as the next one is overdue. */
  ghost function SkipAll(f: Flow, session: nat, limits: Limits, now: u64): (Flow, nat, Packets)
    decreases |f.buffer|
  {
    if !SkipDue(f, limits, now) then (f, session, [])
    else
      SkipShrinks(f, session, limits, now);
      var (g, rest, out) := SkipHead(f, session, now);
      var (h, left, more) := SkipAll(g, rest, limits, now);
      (h, left, out + more)
  }

  /** An arrival for a flow that is already open. */
  ghost function OnFlow(f: Flow, session: nat, limits: Limits, c: TrafficClass, id: u64, payload: Payload, now: u64)
    : (Flow, nat, Outcome)
  {
    var seen := f.(lastActivity := now);
    if f.exhausted then (seen, session, Dropped(Exhausted))
    else if f.class_ != c then (f, session, Dropped(ClassMismatch))
    else if id < f.next || id in f.buffer then (seen, session, Dropped(Duplicate))
    else if id == f.next then
      if f.next == U64_MAX then (seen.(exhausted := true), session, Delivered([(id, payload)]))
      else
        var (g, rest, out) := Pull(seen.(next := f.next + 1), session);
        (g, rest, Delivered([(id, payload)] + out))
    else if id - f.next > limits.maxFutureGap then (seen, session, Dropped(FarAhead))
    else if |f.buffer| >= limits.maxPacketsPerFlow then (seen, session, Dropped(FlowPacketCapacity))
    else if f.bytes + |payload| > limits.maxBytesPerFlow then (seen, session, Dropped(FlowByteCapacity))
    else if session + |payload| > limits.maxBytesPerSession then (seen, session, Dropped(SessionByteCapacity))
    else
      var g := Hold(seen, id, payload, now);
      if SkipDue(g, limits, now) then
        var (h, rest, out) := SkipHead(g, session + |payload|, now);
        (h, rest, Delivered(out))
      else (g, session + |payload|, Buffered)
  }

  function Hold(f: Flow, id: u64, payload: Payload, now: u64): Flow {
    f.(buffer := f.buffer[id := Held(payload, now)], bytes := f.bytes + |payload|)
  }

  /** The greatest identifier the flow has observed. */
  ghost predicate IsMaxObserved(f: Flow, m: u64) {
    if f.exhausted then m == U64_MAX
    else
      && Minus(f.next, 1) <= m
      && (forall k :: k in f.buffer ==> k <= m)
      && (m == Minus(f.next, 1) || m in f.buffer)
  }

  // ---------------------------------------------------------------------
  // The session
  // ---------------------------------------------------------------------

  /**
    A step of the session. Where the table iterates in no fixed order, the step
    names the victim of a capacity eviction.
  */
  datatype Op =
    | Arrive(key: Key, class_: TrafficClass, id: u64, payload: Payload, now: u64,
             oldest: Key, watermark: u64, spent: Key)
    | Idle(key: Key, now: u64, watermark: u64, spent: Key)
    | SkipGaps(key: Key, now: u64)
    | Purge(now: u64)

  function LiveTombs(tombs: map<Key, Tomb>, now: u64): map<Key, Tomb> {
    map k | k in tombs && now < tombs[k].expiresAt :: tombs[k]
  }

  function InsertTomb(s: State, key: Key, watermark: u64, now: u64, spent: Key): State {
    var live := LiveTombs(s.tombs, now);
    var kept := if |live| >= s.limits.maxTombstones then live - {spent} else live;
    s.(tombs := kept[key := Tomb(watermark, Saturate(now + s.limits.tombstoneTtlMs))])
  }

  /** The flow goes, and leaves a tombstone. */
  function Retire(s: State, key: Key, watermark: u64, now: u64, spent: Key): State {
    if key !in s.flows then s
    else
      InsertTomb(s.(flows := s.flows - {key}, sessionBytes := Minus(s.sessionBytes, s.flows[key].bytes)),
                 key, watermark, now, spent)
  }

  function Opened(s: State, key: Key, c: TrafficClass, id: u64, now: u64): State {
    s.(flows := s.flows[key := Flow(c, if id == U64_MAX then U64_MAX else id + 1, id == U64_MAX, map[], 0, now)])
  }

  /** A replay of something a live tombstone remembers. */
  predicate Replayed(s: State, key: Key, id: u64, now: u64) {
    key in s.tombs && now < s.tombs[key].expiresAt && id <= s.tombs[key].watermark
  }

  /** The state in which a flow for a new key is opened: its own tombstone is gone, and a full table has lost a flow. */
  function BeforeOpening(s: State, key: Key, now: u64, oldest: Key, watermark: u64, spent: Key): State {
    var t := s.(tombs := s.tombs - {key});
    if |t.flows| >= t.limits.maxFlows then Retire(t, oldest, watermark, now, spent) else t
  }

  ghost function Apply(s: State, op: Op): (State, Outcome) {
    match op
    case Arrive(key, c, id, payload, now, oldest, watermark, spent) =>
      if c == Control then (s, Dropped(ClassMismatch))
      else if key in s.flows then
        var (f, rest, out) := OnFlow(s.flows[key], s.sessionBytes, s.limits, c, id, payload, now);
        (s.(flows := s.flows[key := f], sessionBytes := rest), out)
      else if Replayed(s, key, id, now) then (s, Dropped(Duplicate))
      else (Opened(BeforeOpening(s, key, now, oldest, watermark, spent), key, c, id, now), Delivered([(id, payload)]))
    case Idle(key, now, watermark, spent) => (Retire(s, key, watermark, now, spent), Quiet)
    case SkipGaps(key, now) =>
      if key in s.flows then
        var (f, rest, out) := SkipAll(s.flows[key], s.sessionBytes, s.limits, now);
        (s.(flows := s.flows[key := f], sessionBytes := rest), Delivered(out))
      else (s, Quiet)
    case Purge(now) => (s.(tombs := LiveTombs(s.tombs, now)), Quiet)
  }

  /** Where a tombstone stands in the order of eviction: expiry, then watermark, then the key's own order. */
  function SpentRank(tombs: map<Key, Tomb>, k: Key): seq<nat> {
    if k !in tombs then []
    else [tombs[k].expiresAt, tombs[k].watermark] + k.session + [DirectionToWire(k.direction), k.keyEpoch, k.flow]
  }

  predicate SpentBefore(tombs: map<Key, Tomb>, a: Key, b: Key) {
    Lex(SpentRank(tombs, a), SpentRank(tombs, b))
  }

  predicate SoonestToExpire(tombs: map<Key, Tomb>, k: Key) {
    k in tombs && forall j :: j in tombs ==> SpentBefore(tombs, k, j)
  }

  predicate LeastActive(flows: map<Key, Flow>, k: Key) {
    k in flows && forall j :: j in flows ==> flows[k].lastActivity <= flows[j].lastActivity
  }

  /** The choices named by a retirement are the ones the table makes. */
  ghost predicate RetireAllowed(s: State, key: Key, watermark: u64, now: u64, spent: Key) {
    && key in s.flows
    && IsMaxObserved(s.flows[key], watermark)
    && (var live := LiveTombs(s.tombs, now); |live| >= s.limits.maxTombstones ==> SoonestToExpire(live, spent))
  }

  ghost predicate Allowed(s: State, op: Op) {
    match op
    case Arrive(key, c, id, payload, now, oldest, watermark, spent) =>
      (c != Control && key !in s.flows && !Replayed(s, key, id, now) && |s.flows| >= s.limits.maxFlows ==>
         LeastActive(s.flows, oldest) && RetireAllowed(s.(tombs := s.tombs - {key}), oldest, watermark, now, spent))
    case Idle(key, now, watermark, spent) =>
      && RetireAllowed(s, key, watermark, now, spent)
      && Minus(now, s.flows[key].lastActivity) >= s.limits.flowIdleTtlMs
    case _ => true
  }

  // ---------------------------------------------------------------------
  // Byte sums
  // ---------------------------------------------------------------------

  ghost function Weight<K(!new)>(m: map<K, nat>): nat
    decreases |m|
  {
    if m == map[] then 0
    else
      var k :| k in m;
      assert (m - {k}).Keys == m.Keys - {k};
      m[k] + Weight(m - {k})
  }

  lemma {:induction false} WeightRemove<K(!new)>(m: map<K, nat>, k: K)
    requires k in m
    ensures Weight(m) == m[k] + Weight(m - {k})
    decreases |m|
  {
    var j :| j in m && Weight(m) == m[j] + Weight(m - {j});
    if j != k {
      assert (m - {j}).Keys == m.Keys - {j} && (m - {k}).Keys == m.Keys - {k};
      WeightRemove(m - {j}, k);
      WeightRemove(m - {k}, j);
      assert m - {j} - {k} == m - {k} - {j};
    }
  }

  lemma WeightSet<K(!new)>(m: map<K, nat>, k: K, w: nat)
    ensures Weight(m[k := w]) == Weight(m) - (if k in m then m[k] else 0) + w
  {
    WeightRemove(m[k := w], k);
    if k in m {
      WeightRemove(m, k);
      assert m[k := w] - {k} == m - {k};
    } else {
      assert m[k := w] - {k} == m;
    }
  }

  function Lengths(buffer: map<u64, Held>): map<u64, nat> {
    map k | k in buffer :: |buffer[k].payload|
  }

  function FlowBytes(flows: map<Key, Flow>): map<Key, nat> {
    map k | k in flows :: flows[k].bytes
  }

  // ---------------------------------------------------------------------
  // What every flow keeps
  // ---------------------------------------------------------------------

  /** Held packets lie ahead of the head inside the future window, and counts and bytes stay in bounds. */
  ghost predicate FlowValid(f: Flow, limits: Limits) {
    && (forall k :: k in f.buffer ==> f.next < k <= f.next + limits.maxFutureGap)
    && (f.exhausted ==> f.next == U64_MAX)
    && |f.buffer| <= limits.maxPacketsPerFlow
    && f.bytes == Weight(Lengths(f.buffer)) <= limits.maxBytesPerFlow
  }

  /** The same while a head is being drained: a packet may lie at the head itself. */
  ghost predicate Draining(f: Flow) {
    && (forall k :: k in f.buffer ==> f.next <= k)
    && !f.exhausted
    && f.bytes == Weight(Lengths(f.buffer))
  }

  /** The position just past the delivered and skipped prefix; one past the last identifier when exhausted. */
  function Head(f: Flow): nat {
    if f.exhausted then U64_MAX + 1 else f.next
  }

  ghost predicate Consecutive(out: Packets, from: nat) {
    forall i :: 0 <= i < |out| ==> out[i].0 == from + i
  }

  lemma BufferRemove(buffer: map<u64, Held>, id: u64)
    requires id in buffer
    ensures |buffer - {id}| == |buffer| - 1
    ensures Weight(Lengths(buffer)) == |buffer[id].payload| + Weight(Lengths(buffer - {id}))
  {
    assert (buffer - {id}).Keys == buffer.Keys - {id};
    WeightRemove(Lengths(buffer), id);
    assert Lengths(buffer - {id}) == Lengths(buffer) - {id};
  }

  /** One packet taken from the head: what is left is ahead of the new head. */
  lemma PullOneKeepsDraining(f: Flow)
    requires Draining(f) && f.next in f.buffer
    ensures var one := PullOne(f);
            && |one.buffer| == |f.buffer| - 1
            && one.bytes == Weight(Lengths(one.buffer)) == f.bytes - |f.buffer[f.next].payload|
            && (one.exhausted ==> one.buffer == map[])
            && (!one.exhausted ==> Draining(one))
  {
    BufferRemove(f.buffer, f.next);
  }

  /** Draining delivers consecutive identifiers from the head and stops just past the last of them. */
  lemma {:induction false} PullDelivers(f: Flow, session: nat)
    requires Draining(f)
    ensures var (g, rest, out) := Pull(f, session);
            && Consecutive(out, f.next)
            && Head(g) == f.next + |out|
            && (g.exhausted ==> g.next == U64_MAX)
            && g.class_ == f.class_ && g.lastActivity == f.lastActivity
            && (f.next in f.buffer ==> out != [])
    decreases |f.buffer|
  {
    if f.next in f.buffer {
      var p := f.buffer[f.next].payload;
      var one := PullOne(f);
      PullOneKeepsDraining(f);
      PullStep(f, session);
      if !one.exhausted {
        PullDelivers(one, Minus(session, |p|));
        var (g, rest, out) := Pull(one, Minus(session, |p|));
        var all := [(f.next, p)] + out;
        assert forall i :: 1 <= i < |all| ==> all[i] == out[i - 1];
      }
    }
  }

  /** What draining leaves is held ahead of the head as before. */
  lemma {:induction false} PullLeaves(f: Flow, session: nat)
    requires Draining(f)
    ensures var (g, _, _) := Pull(f, session);
            && (forall k :: k in g.buffer ==> g.next < k && k in f.buffer && g.buffer[k] == f.buffer[k])
            && |g.buffer| <= |f.buffer|
    decreases |f.buffer|
  {
    if f.next in f.buffer {
      var one, less := PullOne(f), Minus(session, |f.buffer[f.next].payload|);
      PullOneKeepsDraining(f);
      PullStep(f, session);
      if one.exhausted {
        assert Pull(one, less) == (one, less, []);
      } else {
        PullLeaves(one, less);
      }
    }
  }

  /** The bytes draining releases are accounted for. */
  lemma {:induction false} PullWeighs(f: Flow, session: nat)
    requires Draining(f) && f.bytes <= session
    ensures var (g, rest, _) := Pull(f, session);
            && g.bytes == Weight(Lengths(g.buffer)) && g.bytes <= f.bytes
            && rest == session - f.bytes + g.bytes
    decreases |f.buffer|
  {
    if f.next in f.buffer {
      var one, less := PullOne(f), Minus(session, |f.buffer[f.next].payload|);
      PullOneKeepsDraining(f);
      PullStep(f, session);
      if one.exhausted {
        assert Pull(one, less) == (one, less, []);
      } else {
        PullWeighs(one, less);
      }
    }
  }

  lemma PullStep(f: Flow, session: nat)
    requires !f.exhausted && f.next in f.buffer
    ensures var p := f.buffer[f.next].payload;
            var (g, rest, out) := Pull(PullOne(f), Minus(session, |p|));
            Pull(f, session) == (g, rest, [(f.next, p)] + out)
  {
  }

  /** What an arrival or a skip does to its flow. */
  ghost predicate FlowStep(f: Flow, session: nat, limits: Limits, g: Flow, rest: nat, out: Packets, skipped: nat) {
    && FlowValid(g, limits)
    && g.class_ == f.class_
    && rest + f.bytes == session + g.bytes
    && Consecutive(out, Head(f) + skipped)
    && Head(g) == Head(f) + skipped + |out|
    && (skipped > 0 ==> out != [])
  }

  lemma SkipKeepsFlowValid(f: Flow, session: nat, limits: Limits, now: u64)
    requires FlowValid(f, limits) && f.bytes <= session && SkipDue(f, limits, now)
    ensures var (g, rest, out) := SkipHead(f, session, now);
            FlowValid(g, limits) && rest + f.bytes == session + g.bytes && rest <= session
  {
    var moved := f.(next := Smallest(f.buffer));
    PullDelivers(moved, session);
    PullLeaves(moved, session);
    PullWeighs(moved, session);
  }

  lemma SkipIsSound(f: Flow, session: nat, limits: Limits, now: u64)
    requires FlowValid(f, limits) && f.bytes <= session && SkipDue(f, limits, now)
    ensures var (g, rest, out) := SkipHead(f, session, now);
            && FlowStep(f, session, limits, g, rest, out, Smallest(f.buffer) - f.next)
            && out != [] && rest <= session
  {
    SkipKeepsFlowValid(f, session, limits, now);
    PullDelivers(f.(next := Smallest(f.buffer)), session);
  }

  /** How many identifiers an arrival skips: none, unless it makes an overdue gap go. */
  ghost function SkippedBy(f: Flow, limits: Limits, id: u64, payload: Payload, now: u64, out: Outcome): nat {
    if out.Delivered? && !f.exhausted && id != f.next then
      var g := Hold(f, id, payload, now);
      assert id in g.buffer;
      Minus(Smallest(g.buffer), f.next)
    else 0
  }

  function PacketsOf(out: Outcome): Packets {
    if out.Delivered? then out.packets else []
  }

  lemma HoldAddsBytes(f: Flow, id: u64, payload: Payload, now: u64)
    requires id !in f.buffer
    ensures Weight(Lengths(Hold(f, id, payload, now).buffer)) == Weight(Lengths(f.buffer)) + |payload|
    ensures |Hold(f, id, payload, now).buffer| == |f.buffer| + 1
  {
    var g := Hold(f, id, payload, now);
    BufferRemove(g.buffer, id);
    assert g.buffer - {id} == f.buffer;
  }

  lemma HoldKeepsValid(f: Flow, limits: Limits, id: u64, payload: Payload, now: u64)
    requires FlowValid(f, limits) && !f.exhausted
    requires id !in f.buffer && f.next < id <= f.next + limits.maxFutureGap
    requires |f.buffer| < limits.maxPacketsPerFlow && f.bytes + |payload| <= limits.maxBytesPerFlow
    ensures FlowValid(Hold(f, id, payload, now), limits)
  {
    HoldAddsBytes(f, id, payload, now);
  }

  lemma HeadPullKeepsValid(f: Flow, session: nat, limits: Limits, start: Flow)
    requires FlowValid(f, limits) && f.bytes <= session && f.next < U64_MAX
    requires start.next == f.next + 1 && start.exhausted == false && start.buffer == f.buffer && start.bytes == f.bytes
    ensures var (g, rest, _) := Pull(start, session);
            FlowValid(g, limits) && rest + f.bytes == session + g.bytes && rest <= session
  {
    PullDelivers(start, session);
    PullLeaves(start, session);
    PullWeighs(start, session);
  }

  /** The head arrives: it goes out with everything held contiguously behind it. */
  lemma HeadPullIsSound(f: Flow, session: nat, limits: Limits, payload: Payload, now: u64)
    requires FlowValid(f, limits) && !f.exhausted && f.bytes <= session && f.next < U64_MAX
    ensures var (g, rest, out) := Pull(f.(lastActivity := now, next := f.next + 1), session);
            FlowStep(f, session, limits, g, rest, [(f.next, payload)] + out, 0) && rest <= session
  {
    var start := f.(lastActivity := now, next := f.next + 1);
    PullDelivers(start, session);
    HeadPullKeepsValid(f, session, limits, start);
    var (g, rest, out) := Pull(start, session);
    var all := [(f.next, payload)] + out;
    assert forall i :: 1 <= i < |all| ==> all[i] == out[i - 1];
  }

  /** A packet ahead of the head is held, and may make an overdue gap go. */
  lemma HoldingIsSound(f: Flow, session: nat, limits: Limits, id: u64, payload: Payload, now: u64)
    requires FlowValid(f, limits) && f.bytes <= session && !f.exhausted
    requires id !in f.buffer && f.next < id <= f.next + limits.maxFutureGap
    requires |f.buffer| < limits.maxPacketsPerFlow && f.bytes + |payload| <= limits.maxBytesPerFlow
    ensures var g := Hold(f, id, payload, now);
            && FlowStep(f, session, limits, g, session + |payload|, [], 0)
            && id in g.buffer
            && (SkipDue(g, limits, now) ==>
                  var (h, rest, out) := SkipHead(g, session + |payload|, now);
                  && FlowStep(f, session, limits, h, rest, out, Smallest(g.buffer) - f.next)
                  && out != [] && rest <= session + |payload|)
  {
    HoldKeepsValid(f, limits, id, payload, now);
    var g := Hold(f, id, payload, now);
    if SkipDue(g, limits, now) {
      SkipIsSound(g, session + |payload|, limits, now);
    }
  }

  /** The arrival passes every bound and is held. */
  predicate Holds(f: Flow, session: nat, limits: Limits, c: TrafficClass, id: u64, payload: Payload) {
    && !f.exhausted && f.class_ == c && id > f.next && id !in f.buffer
    && id - f.next <= limits.maxFutureGap && |f.buffer| < limits.maxPacketsPerFlow
    && f.bytes + |payload| <= limits.maxBytesPerFlow && session + |payload| <= limits.maxBytesPerSession
  }

  /** The last identifier of all arrives: nothing can be held behind it. */
  lemma LastArrivalIsSound(f: Flow, session: nat, limits: Limits, payload: Payload, now: u64)
    requires FlowValid(f, limits) && f.bytes <= session && !f.exhausted && f.next == U64_MAX
    ensures var g := f.(lastActivity := now, exhausted := true);
            FlowStep(f, session, limits, g, session, [(f.next, payload)], 0)
  {
  }

  lemma HeadArrivalIsSound(f: Flow, session: nat, limits: Limits, id: u64, payload: Payload, now: u64)
    requires FlowValid(f, limits) && f.bytes <= session
    requires !f.exhausted && id == f.next && id !in f.buffer
    ensures var (g, rest, out) := OnFlow(f, session, limits, f.class_, id, payload, now);
            FlowStep(f, session, limits, g, rest, PacketsOf(out), 0) && rest <= session
            && out.Delivered? && out.packets != []
  {
    OnFlowAtHead(f, session, limits, payload, now);
    if id < U64_MAX {
      HeadPullIsSound(f, session, limits, payload, now);
    } else {
      LastArrivalIsSound(f, session, limits, payload, now);
    }
  }

  lemma OnFlowAtHead(f: Flow, session: nat, limits: Limits, payload: Payload, now: u64)
    requires !f.exhausted && f.next !in f.buffer
    ensures OnFlow(f, session, limits, f.class_, f.next, payload, now) ==
            if f.next == U64_MAX then
              (f.(lastActivity := now, exhausted := true), session, Delivered([(f.next, payload)]))
            else
              var (g, rest, out) := Pull(f.(lastActivity := now, next := f.next + 1), session);
              (g, rest, Delivered([(f.next, payload)] + out))
  {
  }

  /** An arrival moves its flow's head by the packets it delivers and the identifiers it skips, and nothing else. */
  lemma OnFlowIsSound(f: Flow, session: nat, limits: Limits, c: TrafficClass, id: u64, payload: Payload, now: u64)
    requires FlowValid(f, limits) && f.bytes <= session <= limits.maxBytesPerSession
    ensures var (g, rest, out) := OnFlow(f, session, limits, c, id, payload, now);
            && FlowStep(f, session, limits, g, rest, PacketsOf(out), SkippedBy(f, limits, id, payload, now, out))
            && rest <= limits.maxBytesPerSession
            && (out.Delivered? ==> out.packets != [])
  {
    if Holds(f, session, limits, c, id, payload) {
      HoldingIsSound(f.(lastActivity := now), session, limits, id, payload, now);
    } else if !f.exhausted && f.class_ == c && id == f.next && id !in f.buffer {
      HeadArrivalIsSound(f, session, limits, id, payload, now);
    }
  }

  /** What an arrival for an open flow answers: the first condition that turns it away, or delivery at the head. */
  lemma ArrivalAnswers(f: Flow, session: nat, limits: Limits, c: TrafficClass, id: u64, payload: Payload, now: u64)
    requires FlowValid(f, limits)
    ensures var out := OnFlow(f, session, limits, c, id, payload, now).2;
            var open := !f.exhausted && f.class_ == c;
            var ahead := open && id > f.next && id !in f.buffer;
            var near := ahead && id <= f.next + limits.maxFutureGap;
            var counted := near && |f.buffer| < limits.maxPacketsPerFlow;
            var fits := counted && f.bytes + |payload| <= limits.maxBytesPerFlow;
            && (out == Dropped(Exhausted) <==> f.exhausted)
            && (out == Dropped(ClassMismatch) <==> !f.exhausted && f.class_ != c)
            && (out == Dropped(Duplicate) <==> open && (id < f.next || id in f.buffer))
            && (out == Dropped(FarAhead) <==> ahead && !near)
            && (out == Dropped(FlowPacketCapacity) <==> near && !counted)
            && (out == Dropped(FlowByteCapacity) <==> counted && !fits)
            && (out == Dropped(SessionByteCapacity) <==> fits && session + |payload| > limits.maxBytesPerSession)
            && (open && id == f.next ==> out.Delivered? && out.packets != [] && out.packets[0] == (id, payload))
            && (out == Buffered ==> fits)
  {
  }

  function Fresh(limits: Limits): State {
    State(limits, map[], map[], 0)
  }

  // ---------------------------------------------------------------------
  // What every session keeps
  // ---------------------------------------------------------------------

  ghost predicate SessionValid(s: State) {
    && s.limits.Accepted()
    && (forall k :: k in s.flows ==> FlowValid(s.flows[k], s.limits))
    && s.sessionBytes == Weight(FlowBytes(s.flows)) <= s.limits.maxBytesPerSession
    && |s.flows| <= s.limits.maxFlows
    && |s.tombs| <= s.limits.maxTombstones
    && s.flows.Keys !! s.tombs.Keys
  }

  lemma FlowBytesAtMostSession(s: State, key: Key)
    requires SessionValid(s) && key in s.flows
    ensures s.flows[key].bytes <= s.sessionBytes
  {
    WeightRemove(FlowBytes(s.flows), key);
  }

  lemma FlowBytesSet(flows: map<Key, Flow>, key: Key, g: Flow)
    ensures Weight(FlowBytes(flows[key := g]))
            == Weight(FlowBytes(flows)) - (if key in flows then flows[key].bytes else 0) + g.bytes
  {
    WeightSet(FlowBytes(flows), key, g.bytes);
    assert FlowBytes(flows[key := g]) == FlowBytes(flows)[key := g.bytes];
  }

  lemma FlowBytesRemove(flows: map<Key, Flow>, key: Key)
    requires key in flows
    ensures Weight(FlowBytes(flows - {key})) == Weight(FlowBytes(flows)) - flows[key].bytes
    ensures |flows - {key}| == |flows| - 1
  {
    assert (flows - {key}).Keys == flows.Keys - {key};
    WeightRemove(FlowBytes(flows), key);
    assert FlowBytes(flows - {key}) == FlowBytes(flows) - {key};
  }

  /** Replacing a flow by its next state keeps the session valid. */
  lemma UpdateKeepsValid(s: State, key: Key, g: Flow, rest: nat)
    requires SessionValid(s) && key in s.flows && FlowValid(g, s.limits)
    requires rest + s.flows[key].bytes == s.sessionBytes + g.bytes && rest <= s.limits.maxBytesPerSession
    ensures SessionValid(s.(flows := s.flows[key := g], sessionBytes := rest))
  {
    var flows := s.flows[key := g];
    FlowBytesSet(s.flows, key, g);
    assert flows.Keys == s.flows.Keys;
  }

  lemma InsertTombStaysBounded(s: State, key: Key, watermark: u64, now: u64, spent: Key)
    requires |s.tombs| <= s.limits.maxTombstones && s.limits.maxTombstones != 0
    requires var live := LiveTombs(s.tombs, now); |live| >= s.limits.maxTombstones ==> SoonestToExpire(live, spent)
    ensures var t := InsertTomb(s, key, watermark, now, spent);
            && |t.tombs| <= s.limits.maxTombstones
            && key in t.tombs && t.tombs[key].watermark == watermark
            && t.tombs.Keys <= s.tombs.Keys + {key}
            && (forall k :: k in t.tombs && k != key ==> k in s.tombs && t.tombs[k] == s.tombs[k])
  {
    var live := LiveTombs(s.tombs, now);
    SubsetCount(live.Keys, s.tombs.Keys);
    var kept := if |live| >= s.limits.maxTombstones then live - {spent} else live;
    if |live| >= s.limits.maxTombstones {
      assert kept.Keys == live.Keys - {spent};
    }
    assert InsertTomb(s, key, watermark, now, spent).tombs.Keys == kept.Keys + {key};
  }

  /** Taking a flow out releases its bytes. */
  lemma RemovalKeepsValid(s: State, key: Key)
    requires SessionValid(s) && key in s.flows
    ensures var t := s.(flows := s.flows - {key}, sessionBytes := Minus(s.sessionBytes, s.flows[key].bytes));
            SessionValid(t) && |t.flows| == |s.flows| - 1
  {
    FlowBytesAtMostSession(s, key);
    FlowBytesRemove(s.flows, key);
  }

  lemma RetireKeepsValid(s: State, key: Key, watermark: u64, now: u64, spent: Key)
    requires SessionValid(s) && RetireAllowed(s, key, watermark, now, spent)
    ensures var t := Retire(s, key, watermark, now, spent);
            SessionValid(t) && t.flows == s.flows - {key} && |t.flows| == |s.flows| - 1
            && key in t.tombs && t.tombs[key].watermark == watermark && t.tombs.Keys <= s.tombs.Keys + {key}
            && (forall k :: k in t.tombs && k != key ==> k in s.tombs && t.tombs[k] == s.tombs[k])
  {
    RemovalKeepsValid(s, key);
    var r := s.(flows := s.flows - {key}, sessionBytes := Minus(s.sessionBytes, s.flows[key].bytes));
    InsertTombStaysBounded(r, key, watermark, now, spent);
    assert Retire(s, key, watermark, now, spent) == InsertTomb(r, key, watermark, now, spent);
  }

  lemma BeforeOpeningKeepsValid(s: State, key: Key, now: u64, oldest: Key, watermark: u64, spent: Key)
    requires SessionValid(s) && key !in s.flows
    requires |s.flows| >= s.limits.maxFlows ==>
               RetireAllowed(s.(tombs := s.tombs - {key}), oldest, watermark, now, spent)
    ensures var t := BeforeOpening(s, key, now, oldest, watermark, spent);
            && SessionValid(t) && t.limits == s.limits
            && key !in t.flows && key !in t.tombs && |t.flows| < t.limits.maxFlows
  {
    var t := s.(tombs := s.tombs - {key});
    SubsetCount(t.tombs.Keys, s.tombs.Keys);
    assert SessionValid(t);
    if |t.flows| >= t.limits.maxFlows {
      RetireKeepsValid(t, oldest, watermark, now, spent);
    }
  }

  lemma FreshFlowIsValid(f: Flow, limits: Limits)
    requires f.buffer == map[] && f.bytes == 0 && (f.exhausted ==> f.next == U64_MAX)
    ensures FlowValid(f, limits)
  {
    assert Lengths(f.buffer) == map[];
  }

  lemma AddKeepsValid(s: State, key: Key, f: Flow)
    requires SessionValid(s) && key !in s.flows && key !in s.tombs && |s.flows| < s.limits.maxFlows
    requires FlowValid(f, s.limits) && f.bytes == 0
    ensures SessionValid(s.(flows := s.flows[key := f]))
  {
    FlowBytesSet(s.flows, key, f);
    assert s.flows[key := f].Keys == s.flows.Keys + {key};
  }

  lemma OpenedKeepsValid(s: State, key: Key, c: TrafficClass, id: u64, now: u64)
    requires SessionValid(s) && key !in s.flows && key !in s.tombs && |s.flows| < s.limits.maxFlows
    ensures SessionValid(Opened(s, key, c, id, now))
  {
    var f := Flow(c, if id == U64_MAX then U64_MAX else id + 1, id == U64_MAX, map[], 0, now);
    FreshFlowIsValid(f, s.limits);
    AddKeepsValid(s, key, f);
  }

  lemma ArrivalKeepsValid(s: State, op: Op)
    requires SessionValid(s) && Allowed(s, op) && op.Arrive?
    ensures SessionValid(Apply(s, op).0)
  {
    if op.class_ == Control || Replayed(s, op.key, op.id, op.now) {
    } else if op.key in s.flows {
      FlowBytesAtMostSession(s, op.key);
      OnFlowIsSound(s.flows[op.key], s.sessionBytes, s.limits, op.class_, op.id, op.payload, op.now);
      var (f, rest, out) := OnFlow(s.flows[op.key], s.sessionBytes, s.limits, op.class_, op.id, op.payload, op.now);
      UpdateKeepsValid(s, op.key, f, rest);
    } else {
      BeforeOpeningKeepsValid(s, op.key, op.now, op.oldest, op.watermark, op.spent);
      var before := BeforeOpening(s, op.key, op.now, op.oldest, op.watermark, op.spent);
      OpenedKeepsValid(before, op.key, op.class_, op.id, op.now);
    }
  }

  /** Skipping every overdue gap keeps the flow valid, delivers in rising order, and leaves no gap overdue. */
  lemma {:induction false} SkipAllIsSound(f: Flow, session: nat, limits: Limits, now: u64)
    requires FlowValid(f, limits) && f.bytes <= session
    ensures var (g, rest, out) := SkipAll(f, session, limits, now);
            && FlowValid(g, limits) && rest + f.bytes == session + g.bytes && rest <= session
            && Head(f) <= Head(g) && RisesWithin(out, Head(f), Head(g))
            && !SkipDue(g, limits, now)
    decreases |f.buffer|
  {
    if SkipDue(f, limits, now) {
      SkipShrinks(f, session, limits, now);
      SkipIsSound(f, session, limits, now);
      var (g, rest, out) := SkipHead(f, session, now);
      SkipAllIsSound(g, rest, limits, now);
      var (h, left, more) := SkipAll(g, rest, limits, now);
      RisesAppend(out, more, Head(f), Head(g), Head(h));
    }
  }

  lemma SkipKeepsValid(s: State, key: Key, now: u64)
    requires SessionValid(s)
    ensures SessionValid(Apply(s, SkipGaps(key, now)).0)
  {
    if key in s.flows {
      FlowBytesAtMostSession(s, key);
      SkipAllIsSound(s.flows[key], s.sessionBytes, s.limits, now);
      var (f, rest, out) := SkipAll(s.flows[key], s.sessionBytes, s.limits, now);
      UpdateKeepsValid(s, key, f, rest);
    }
  }

  /** Every flow stays in its window and its bounds, and the byte totals stay exact. */
  lemma StepKeepsValid(s: State, op: Op)
    requires SessionValid(s) && Allowed(s, op)
    ensures SessionValid(Apply(s, op).0)
  {
    match op
    case Arrive(_, _, _, _, _, _, _, _) => ArrivalKeepsValid(s, op);
    case Idle(key, now, watermark, spent) => RetireKeepsValid(s, key, watermark, now, spent);
    case SkipGaps(key, now) => SkipKeepsValid(s, key, now);
    case Purge(now) => SubsetCount(LiveTombs(s.tombs, now).Keys, s.tombs.Keys);
  }

  ghost function Run(s: State, ops: seq<Op>): State {
    if ops == [] then s else Apply(Run(s, ops[..|ops| - 1]), ops[|ops| - 1]).0
  }

  ghost predicate AllAllowed(s: State, ops: seq<Op>) {
    forall i :: 0 <= i < |ops| ==> Allowed(Run(s, ops[..i]), ops[i])
  }

  lemma AllowedPrefix(s: State, ops: seq<Op>)
    requires AllAllowed(s, ops) && ops != []
    ensures AllAllowed(s, ops[..|ops| - 1])
  {
    assert forall i :: 0 <= i < |ops| - 1 ==> ops[..|ops| - 1][..i] == ops[..i];
  }

  lemma AllowedSnoc(s: State, ops: seq<Op>, op: Op)
    requires AllAllowed(s, ops) && Allowed(Run(s, ops), op)
    ensures AllAllowed(s, ops + [op]) && Run(s, ops + [op]) == Apply(Run(s, ops), op).0
  {
    var all := ops + [op];
    assert all[..|ops|] == ops;
    assert forall i :: 0 <= i < |ops| ==> all[..i] == ops[..i];
  }

  lemma {:induction false} RunKeepsValid(s: State, ops: seq<Op>)
    requires SessionValid(s) && AllAllowed(s, ops)
    ensures SessionValid(Run(s, ops))
  {
    if ops != [] {
      AllowedPrefix(s, ops);
      RunKeepsValid(s, ops[..|ops| - 1]);
      StepKeepsValid(Run(s, ops[..|ops| - 1]), ops[|ops| - 1]);
    }
  }

  // ---------------------------------------------------------------------
  // Delivery order across the life of a key
  // ---------------------------------------------------------------------

  /** One past everything the session remembers to have delivered, skipped or observed for `key`. */
  function Mark(s: State, key: Key): nat {
    if key in s.flows then Head(s.flows[key])
    else if key in s.tombs then s.tombs[key].watermark + 1
    else 0
  }

  /** A retirement at `now` finds the table full of live tombstones with that of `key` first to go. */
  ghost predicate GivesUp(tombs: map<Key, Tomb>, limits: Limits, now: u64, key: Key) {
    var live := LiveTombs(tombs, now);
    |live| >= limits.maxTombstones && SoonestToExpire(live, key)
  }

  /**
    The step forgets a key that has no flow: the clock has passed its tombstone's
    expiry when the tables are touched, or a flow retires into a full tombstone table.
  */
  ghost predicate Forgets(s: State, op: Op, key: Key) {
    && key !in s.flows && key in s.tombs
    && match op
       case Arrive(k, c, id, _, now, _, _, _) =>
         && c != Control && k !in s.flows && !Replayed(s, k, id, now)
         && (if k == key then now >= s.tombs[key].expiresAt
             else
               && |s.flows| >= s.limits.maxFlows
               && (now >= s.tombs[key].expiresAt || GivesUp(s.tombs - {k}, s.limits, now, key)))
       case Idle(_, now, _, _) => now >= s.tombs[key].expiresAt || GivesUp(s.tombs, s.limits, now, key)
       case SkipGaps(_, _) => false
       case Purge(now) => now >= s.tombs[key].expiresAt
  }

  lemma RetireForgetsExactly(s: State, gone: Key, watermark: u64, now: u64, spent: Key, key: Key)
    requires RetireAllowed(s, gone, watermark, now, spent) && key !in s.flows && key in s.tombs
    ensures key !in Retire(s, gone, watermark, now, spent).tombs
            <==> now >= s.tombs[key].expiresAt || GivesUp(s.tombs, s.limits, now, key)
  {
    var live := LiveTombs(s.tombs, now);
    if GivesUp(s.tombs, s.limits, now, key) {
      SoonestIsUnique(live, key, spent);
    }
  }

  /** A key without a flow is forgotten exactly when its tombstone goes with no flow in its place, or goes unread. */
  lemma ForgetsExactly(s: State, op: Op, key: Key)
    requires Allowed(s, op) && key !in s.flows && key in s.tombs
    ensures var t := Apply(s, op).0;
            Forgets(s, op, key) <==>
              || (key !in t.flows && key !in t.tombs)
              || (op.Arrive? && op.key == key && key in t.flows && op.now >= s.tombs[key].expiresAt)
  {
    match op
    case Arrive(k, c, id, _, now, oldest, watermark, spent) =>
      if c != Control && k !in s.flows && !Replayed(s, k, id, now) && k != key && |s.flows| >= s.limits.maxFlows {
        RetireForgetsExactly(s.(tombs := s.tombs - {k}), oldest, watermark, now, spent, key);
      }
    case Idle(gone, now, watermark, spent) => RetireForgetsExactly(s, gone, watermark, now, spent, key);
    case SkipGaps(_, _) =>
    case Purge(_) =>
  }

  /** Retiring a flow remembers it until its time to live is over. */
  lemma RetireRemembers(s: State, key: Key, watermark: u64, retired: u64, spent: Key)
    requires key in s.flows
    ensures var t := Retire(s, key, watermark, retired, spent);
            && key !in t.flows && key in t.tombs && t.limits == s.limits
            && t.tombs[key].watermark == watermark
            && t.tombs[key].expiresAt == if retired + s.limits.tombstoneTtlMs < U64_MAX
                                         then retired + s.limits.tombstoneTtlMs else U64_MAX
  {
  }

  /** While a key without a flow is not forgotten and none is opened, its tombstone stays as it is. */
  lemma {:induction false} TombstoneStays(s: State, ops: seq<Op>, key: Key)
    requires key in s.tombs && AllAllowed(s, ops)
    requires forall i :: 0 <= i <= |ops| ==> key !in Run(s, ops[..i]).flows
    requires forall i :: 0 <= i < |ops| ==> !Forgets(Run(s, ops[..i]), ops[i], key)
    ensures key in Run(s, ops).tombs && Run(s, ops).tombs[key] == s.tombs[key]
  {
    if ops != [] {
      var before, op := ops[..|ops| - 1], ops[|ops| - 1];
      AllowedPrefix(s, ops);
      assert ops[..|ops|] == ops;
      assert forall i :: 0 <= i <= |before| ==> before[..i] == ops[..i];
      TombstoneStays(s, before, key);
      StepLeavesTombstone(Run(s, before), op, key);
    }
  }

  lemma StepLeavesTombstone(s: State, op: Op, key: Key)
    requires Allowed(s, op) && key in s.tombs && key !in s.flows
    requires key !in Apply(s, op).0.flows && !Forgets(s, op, key)
    ensures var t := Apply(s, op).0; key in t.tombs && t.tombs[key] == s.tombs[key]
  {
    ForgetsExactly(s, op, key);
    TombstonesOnlyMove(s, op, key);
  }

  /** A tombstone that is still there and whose key has no flow is the same one, unless its own key was retired. */
  lemma TombstonesOnlyMove(s: State, op: Op, key: Key)
    requires Allowed(s, op) && key !in s.flows && key in Apply(s, op).0.tombs
    ensures key in s.tombs && Apply(s, op).0.tombs[key] == s.tombs[key]
  {
  }

  /**
    After a flow is retired, and as long as its key is not forgotten and not opened
    anew, an arrival for it is refused as a duplicate exactly when its identifier is at
    or below the watermark and the time to live since the retirement is not over.
  */
  lemma ReplayIsRefusedUntilExpiry(s: State, key: Key, watermark: u64, retired: u64, spent: Key, ops: seq<Op>, op: Op)
    requires key in s.flows
    requires var t := Retire(s, key, watermark, retired, spent);
             && AllAllowed(t, ops)
             && (forall i :: 0 <= i <= |ops| ==> key !in Run(t, ops[..i]).flows)
             && (forall i :: 0 <= i < |ops| ==> !Forgets(Run(t, ops[..i]), ops[i], key))
    requires op.Arrive? && op.key == key && op.class_ != Control
    ensures var out := Apply(Run(Retire(s, key, watermark, retired, spent), ops), op).1;
            if op.id <= watermark && op.now < retired + s.limits.tombstoneTtlMs && op.now < U64_MAX
            then out == Dropped(Duplicate)
            else out == Delivered([(op.id, op.payload)])
  {
    var t := Retire(s, key, watermark, retired, spent);
    RetireRemembers(s, key, watermark, retired, spent);
    TombstoneStays(t, ops, key);
    assert ops[..|ops|] == ops;
  }

  /** The identifiers a step delivers for `key`. */
  ghost function DeliveredFor(s: State, op: Op, key: Key): Packets {
    if (op.Arrive? || op.SkipGaps?) && op.key == key then PacketsOf(Apply(s, op).1) else []
  }

  ghost function DeliveryLog(s: State, ops: seq<Op>, key: Key): Packets {
    if ops == [] then []
    else
      DeliveryLog(s, ops[..|ops| - 1], key) + DeliveredFor(Run(s, ops[..|ops| - 1]), ops[|ops| - 1], key)
  }

  /** Strictly increasing identifiers from `low` up to below `high`. */
  ghost predicate RisesWithin(out: Packets, low: nat, high: nat) {
    && (forall i :: 0 <= i < |out| ==> low <= out[i].0 < high)
    && (forall i, j :: 0 <= i < j < |out| ==> out[i].0 < out[j].0)
  }

  ghost predicate StepRises(s: State, op: Op, key: Key) {
    && Mark(s, key) <= Mark(Apply(s, op).0, key)
    && RisesWithin(DeliveredFor(s, op, key), Mark(s, key), Mark(Apply(s, op).0, key))
  }

  lemma RetireKeepsMark(s: State, gone: Key, watermark: u64, now: u64, spent: Key, key: Key)
    requires SessionValid(s) && RetireAllowed(s, gone, watermark, now, spent)
    requires var t := Retire(s, gone, watermark, now, spent); key in t.flows || key in t.tombs
    ensures Mark(s, key) <= Mark(Retire(s, gone, watermark, now, spent), key)
  {
    RetireKeepsValid(s, gone, watermark, now, spent);
  }

  lemma FlowArrivalRises(s: State, op: Op, key: Key)
    requires SessionValid(s) && op.Arrive? && op.key in s.flows
    ensures StepRises(s, op, key)
  {
    if op.class_ != Control && op.key == key {
      FlowBytesAtMostSession(s, key);
      OnFlowIsSound(s.flows[key], s.sessionBytes, s.limits, op.class_, op.id, op.payload, op.now);
    }
  }

  lemma OpeningRises(s: State, op: Op, key: Key)
    requires SessionValid(s) && Allowed(s, op) && op.Arrive? && op.key !in s.flows
    requires op.class_ != Control && !Replayed(s, op.key, op.id, op.now)
    requires !Forgets(s, op, key)
    ensures StepRises(s, op, key)
  {
    if key == op.key {
      assert Mark(Apply(s, op).0, key) == op.id + 1;
      assert key in s.tombs ==> op.id > s.tombs[key].watermark;
    } else {
      OpeningKeepsOtherMark(s, op, key);
    }
  }

  lemma OpeningKeepsOtherMark(s: State, op: Op, key: Key)
    requires SessionValid(s) && Allowed(s, op) && op.Arrive? && op.key !in s.flows && key != op.key
    requires op.class_ != Control && !Replayed(s, op.key, op.id, op.now)
    requires !Forgets(s, op, key)
    ensures Mark(s, key) <= Mark(Apply(s, op).0, key)
  {
    if key !in s.flows && key in s.tombs {
      ForgetsExactly(s, op, key);
    }
    var cleared := s.(tombs := s.tombs - {op.key});
    var before := BeforeOpening(s, op.key, op.now, op.oldest, op.watermark, op.spent);
    if key in s.flows || key in s.tombs {
      SubsetCount(cleared.tombs.Keys, s.tombs.Keys);
      assert SessionValid(cleared);
      assert Mark(cleared, key) == Mark(s, key);
      if |s.flows| >= s.limits.maxFlows {
        RetireKeepsValid(cleared, op.oldest, op.watermark, op.now, op.spent);
        assert key in before.flows || key in before.tombs;
        RetireKeepsMark(cleared, op.oldest, op.watermark, op.now, op.spent, key);
      }
      assert Mark(Apply(s, op).0, key) == Mark(before, key);
    }
  }

  lemma SkipRises(s: State, op: Op, key: Key)
    requires SessionValid(s) && op.SkipGaps?
    ensures StepRises(s, op, key)
  {
    if op.key == key && key in s.flows {
      FlowBytesAtMostSession(s, key);
      SkipAllIsSound(s.flows[key], s.sessionBytes, s.limits, op.now);
    }
  }

  lemma IdleRises(s: State, op: Op, key: Key)
    requires SessionValid(s) && Allowed(s, op) && op.Idle? && !Forgets(s, op, key)
    ensures StepRises(s, op, key)
  {
    if key !in s.flows && key in s.tombs {
      ForgetsExactly(s, op, key);
    }
    var t := Retire(s, op.key, op.watermark, op.now, op.spent);
    assert Apply(s, op).0 == t && DeliveredFor(s, op, key) == [];
    if key in s.flows || key in s.tombs {
      assert key in t.flows || key in t.tombs;
      RetireKeepsMark(s, op.key, op.watermark, op.now, op.spent, key);
    }
  }

  lemma PurgeRises(s: State, op: Op, key: Key)
    requires op.Purge? && !Forgets(s, op, key)
    ensures StepRises(s, op, key)
  {
  }

  /** A step that does not forget `key` delivers for it only beyond its mark, in increasing order. */
  lemma StepDeliversBeyondMark(s: State, op: Op, key: Key)
    requires SessionValid(s) && Allowed(s, op) && !Forgets(s, op, key)
    ensures StepRises(s, op, key)
  {
    match op
    case Arrive(k, c, id, payload, now, oldest, watermark, spent) =>
      if k in s.flows {
        FlowArrivalRises(s, op, key);
      } else if c != Control && !Replayed(s, k, id, now) {
        OpeningRises(s, op, key);
      }
    case Idle(_, _, _, _) => IdleRises(s, op, key);
    case SkipGaps(_, _) => SkipRises(s, op, key);
    case Purge(_) => PurgeRises(s, op, key);
  }

  /**
    Over any run that never forgets a key, through evictions, idle expiries and
    resurrections, the packets delivered for it have strictly increasing identifiers:
    no replay is ever delivered again.
  */
  lemma {:induction false} DeliveriesIncrease(s: State, ops: seq<Op>, key: Key)
    requires SessionValid(s) && AllAllowed(s, ops)
    requires forall i :: 0 <= i < |ops| ==> !Forgets(Run(s, ops[..i]), ops[i], key)
    ensures Mark(s, key) <= Mark(Run(s, ops), key)
    ensures RisesWithin(DeliveryLog(s, ops, key), Mark(s, key), Mark(Run(s, ops), key))
  {
    if ops != [] {
      var before := ops[..|ops| - 1];
      AllowedPrefix(s, ops);
      assert forall i :: 0 <= i < |before| ==> before[..i] == ops[..i];
      DeliveriesIncrease(s, before, key);
      RunKeepsValid(s, before);
      StepDeliversBeyondMark(Run(s, before), ops[|ops| - 1], key);
      RisesAppend(DeliveryLog(s, before, key), DeliveredFor(Run(s, before), ops[|ops| - 1], key),
                  Mark(s, key), Mark(Run(s, before), key), Mark(Run(s, ops), key));
    }
  }

  lemma RisesAppend(a: Packets, b: Packets, low: nat, middle: nat, high: nat)
    requires low <= middle <= high && RisesWithin(a, low, middle) && RisesWithin(b, middle, high)
    ensures RisesWithin(a + b, low, high)
  {
    var all := a + b;
    forall i, j | 0 <= i < j < |all| ensures all[i].0 < all[j].0 {
      assert j < |a| || (i < |a| && all[j] == b[j - |a|]) || (all[i] == b[i - |a|] && all[j] == b[j - |a|]);
    }
  }

  /** A step touches no flow but its own, except to evict the least active one when a new key finds the table full. */
  lemma OtherFlowsAreUntouched(s: State, op: Op, other: Key)
    requires Allowed(s, op) && other in s.flows
    requires op.Purge? || op.key != other
    ensures var t := Apply(s, op).0;
            if other in t.flows then t.flows[other] == s.flows[other]
            else op.Arrive? && op.oldest == other && LeastActive(s.flows, other)
                 && |s.flows| >= s.limits.maxFlows && op.key !in s.flows
  {
  }

  lemma {:induction false} PullKeepsActivity(f: Flow, session: nat)
    ensures Pull(f, session).0.lastActivity == f.lastActivity
    decreases |f.buffer|
  {
    if !f.exhausted && f.next in f.buffer {
      BufferRemove(f.buffer, f.next);
      PullStep(f, session);
      PullKeepsActivity(PullOne(f), Minus(session, |f.buffer[f.next].payload|));
    }
  }

  lemma {:induction false} SkipAllTouches(f: Flow, session: nat, limits: Limits, now: u64)
    ensures var (g, _, out) := SkipAll(f, session, limits, now);
            g.lastActivity == if out == [] then f.lastActivity else now
    decreases |f.buffer|
  {
    if SkipDue(f, limits, now) {
      SkipShrinks(f, session, limits, now);
      PullStep(f.(next := Smallest(f.buffer)), session);
      var (g, rest, _) := SkipHead(f, session, now);
      SkipAllTouches(g, rest, limits, now);
    }
  }

  lemma ArrivalTouches(f: Flow, session: nat, limits: Limits, c: TrafficClass, id: u64, payload: Payload, now: u64)
    ensures OnFlow(f, session, limits, c, id, payload, now).0.lastActivity
            == if f.exhausted || f.class_ == c then now else f.lastActivity
  {
    var seen := f.(lastActivity := now);
    if !f.exhausted && f.class_ == c && id == f.next && f.next < U64_MAX {
      PullKeepsActivity(seen.(next := f.next + 1), session);
    }
  }

  /** A flow's last activity is its last arrival of its own class, dropped ones included, or its last skip. */
  lemma StepTouches(s: State, op: Op, key: Key)
    requires Allowed(s, op) && key in Apply(s, op).0.flows
    ensures var t, out := Apply(s, op).0, Apply(s, op).1;
            t.flows[key].lastActivity ==
            if key !in s.flows then op.now
            else if op.Arrive? && op.key == key && op.class_ != Control
                    && (s.flows[key].exhausted || s.flows[key].class_ == op.class_) then op.now
            else if op.SkipGaps? && op.key == key && out != Delivered([]) then op.now
            else s.flows[key].lastActivity
  {
    if key in s.flows {
      if op.Purge? || op.key != key {
        OtherFlowsAreUntouched(s, op, key);
      } else if op.Arrive? {
        ArrivalTouches(s.flows[key], s.sessionBytes, s.limits, op.class_, op.id, op.payload, op.now);
      } else if op.SkipGaps? {
        SkipAllTouches(s.flows[key], s.sessionBytes, s.limits, op.now);
      }
    }
  }

  // ---------------------------------------------------------------------
  // What becomes of every packet
  // ---------------------------------------------------------------------

  type Buffer = map<u64, Held>

  predicate StillHeld(a: Buffer, b: Buffer, k: u64)
    requires k in a
  {
    k in b && b[k] == a[k]
  }

  predicate CameFrom(a: Buffer, d: (u64, Payload)) {
    d.0 in a && d.1 == a[d.0].payload
  }

  /** Every packet held in `a` stays held in `b` or goes out as it was; nothing else is held or goes out but `extra`. */
  ghost predicate Conserves(a: Buffer, b: Buffer, out: Packets, extra: Packets) {
    && (forall k :: k in a ==> StillHeld(a, b, k) || (k, a[k].payload) in out)
    && (forall k :: k in b ==> (k in a && StillHeld(a, b, k)) || (k, b[k].payload) in extra)
    && (forall d :: d in out ==> CameFrom(a, d) || d in extra)
  }

  lemma {:induction false} PullConserves(f: Flow, session: nat)
    ensures Conserves(f.buffer, Pull(f, session).0.buffer, Pull(f, session).2, [])
    decreases |f.buffer|
  {
    if !f.exhausted && f.next in f.buffer {
      BufferRemove(f.buffer, f.next);
      var p := f.buffer[f.next].payload;
      PullStep(f, session);
      PullConserves(PullOne(f), Minus(session, |p|));
      var (g, _, out) := Pull(PullOne(f), Minus(session, |p|));
      forall k | k in f.buffer
        ensures StillHeld(f.buffer, g.buffer, k) || (k, f.buffer[k].payload) in [(f.next, p)] + out
      {
        assert k == f.next || (k in PullOne(f).buffer && PullOne(f).buffer[k] == f.buffer[k]);
      }
      assert forall k :: k in PullOne(f).buffer ==> PullOne(f).buffer[k] == f.buffer[k];
      forall d | d in [(f.next, p)] + out ensures CameFrom(f.buffer, d) {
        assert d == (f.next, p) || CameFrom(PullOne(f).buffer, d);
      }
    }
  }

  lemma ConservesTwice(a: Buffer, b: Buffer, c: Buffer, out: Packets, more: Packets, extra: Packets)
    requires Conserves(a, b, out, extra) && Conserves(b, c, more, [])
    ensures Conserves(a, c, out + more, extra)
  {
    forall k | k in a ensures StillHeld(a, c, k) || (k, a[k].payload) in out + more {
      assert StillHeld(a, b, k) ==> StillHeld(b, c, k) || (k, a[k].payload) in more;
    }
    forall k | k in c ensures (k in a && StillHeld(a, c, k)) || (k, c[k].payload) in extra {
      assert StillHeld(b, c, k);
    }
    forall d | d in out + more ensures CameFrom(a, d) || d in extra {
      assert d in out || CameFrom(b, d);
    }
  }

  lemma {:induction false} SkipAllConserves(f: Flow, session: nat, limits: Limits, now: u64)
    ensures Conserves(f.buffer, SkipAll(f, session, limits, now).0.buffer, SkipAll(f, session, limits, now).2, [])
    decreases |f.buffer|
  {
    if SkipDue(f, limits, now) {
      SkipShrinks(f, session, limits, now);
      PullConserves(f.(next := Smallest(f.buffer)), session);
      var (g, rest, out) := SkipHead(f, session, now);
      SkipAllConserves(g, rest, limits, now);
      var (h, _, more) := SkipAll(g, rest, limits, now);
      ConservesTwice(f.buffer, g.buffer, h.buffer, out, more, []);
    }
  }

  lemma HoldConserves(f: Flow, id: u64, payload: Payload, now: u64)
    requires id !in f.buffer
    ensures Conserves(f.buffer, Hold(f, id, payload, now).buffer, [], [(id, payload)])
  {
    assert (id, payload) in [(id, payload)];
  }

  lemma HoldingConserves(f: Flow, session: nat, limits: Limits, id: u64, payload: Payload, now: u64)
    requires id !in f.buffer && SkipDue(Hold(f, id, payload, now), limits, now)
    ensures var (g, _, out) := SkipHead(Hold(f, id, payload, now), session, now);
            Conserves(f.buffer, g.buffer, out, [(id, payload)])
  {
    var h := Hold(f, id, payload, now);
    var (g, _, out) := SkipHead(h, session, now);
    HoldConserves(f, id, payload, now);
    PullConserves(h.(next := Smallest(h.buffer)), session);
    ConservesTwice(f.buffer, h.buffer, g.buffer, [], out, [(id, payload)]);
    assert [] + out == out;
  }

  lemma HeadConserves(f: Flow, session: nat, payload: Payload)
    requires f.next < U64_MAX && f.next !in f.buffer
    ensures var (g, _, out) := Pull(f.(next := f.next + 1), session);
            Conserves(f.buffer, g.buffer, [(f.next, payload)] + out, [(f.next, payload)])
  {
    var start := f.(next := f.next + 1);
    PullConserves(start, session);
    var (g, _, out) := Pull(start, session);
    ConservesTwice(f.buffer, start.buffer, g.buffer, [(f.next, payload)], out, [(f.next, payload)]);
  }

  lemma HeldArrivalConserves(f: Flow, session: nat, limits: Limits, c: TrafficClass,
                             id: u64, payload: Payload, now: u64)
    requires Holds(f, session, limits, c, id, payload)
    ensures var (g, _, out) := OnFlow(f, session, limits, c, id, payload, now);
            Conserves(f.buffer, g.buffer, PacketsOf(out), [(id, payload)])
  {
    var seen := f.(lastActivity := now);
    HoldConserves(seen, id, payload, now);
    if SkipDue(Hold(seen, id, payload, now), limits, now) {
      HoldingConserves(seen, session + |payload|, limits, id, payload, now);
    }
  }

  lemma HeadArrivalConserves(f: Flow, session: nat, limits: Limits, payload: Payload, now: u64)
    requires !f.exhausted && f.next !in f.buffer
    ensures var (g, _, out) := OnFlow(f, session, limits, f.class_, f.next, payload, now);
            Conserves(f.buffer, g.buffer, PacketsOf(out), [(f.next, payload)])
  {
    if f.next < U64_MAX {
      HeadConserves(f.(lastActivity := now), session, payload);
    }
  }

  lemma OnFlowConserves(f: Flow, session: nat, limits: Limits, c: TrafficClass, id: u64, payload: Payload, now: u64)
    ensures var (g, _, out) := OnFlow(f, session, limits, c, id, payload, now);
            Conserves(f.buffer, g.buffer, PacketsOf(out), [(id, payload)])
  {
    if Holds(f, session, limits, c, id, payload) {
      HeldArrivalConserves(f, session, limits, c, id, payload, now);
    } else if !f.exhausted && f.class_ == c && id == f.next && id !in f.buffer {
      HeadArrivalConserves(f, session, limits, payload, now);
    }
  }

  /** The packet a step brings in for `key`. */
  function Arriving(op: Op, key: Key): Packets {
    if op.Arrive? && op.key == key then [(op.id, op.payload)] else []
  }

  /**
    First valid wins and nothing held is lost: unless its whole flow is retired, a
    held packet stays held untouched until it is delivered as it arrived; and only
    held packets and the arriving one are ever delivered.
  */
  lemma HeldIsKeptOrDelivered(s: State, op: Op, key: Key)
    requires Allowed(s, op) && key in s.flows
    ensures var t := Apply(s, op).0;
            || key !in t.flows
            || Conserves(s.flows[key].buffer, t.flows[key].buffer, DeliveredFor(s, op, key), Arriving(op, key))
  {
    if op.Purge? || op.key != key {
      OtherFlowsAreUntouched(s, op, key);
    } else if op.Arrive? {
      OnFlowConserves(s.flows[key], s.sessionBytes, s.limits, op.class_, op.id, op.payload, op.now);
    } else if op.SkipGaps? {
      SkipAllConserves(s.flows[key], s.sessionBytes, s.limits, op.now);
    }
  }

  /** Some step of the run brought this packet in. */
  ghost predicate ArrivedIn(ops: seq<Op>, key: Key, d: (u64, Payload)) {
    exists i :: 0 <= i < |ops| && d in Arriving(ops[i], key)
  }

  ghost predicate AllHeldArrived(s: State, ops: seq<Op>, key: Key) {
    key in s.flows ==> forall k :: k in s.flows[key].buffer ==> ArrivedIn(ops, key, (k, s.flows[key].buffer[k].payload))
  }

  lemma StepDeliversArrived(s: State, ops: seq<Op>, op: Op, key: Key)
    requires Allowed(s, op) && AllHeldArrived(s, ops, key)
    ensures AllHeldArrived(Apply(s, op).0, ops + [op], key)
    ensures forall d :: d in DeliveredFor(s, op, key) ==> ArrivedIn(ops + [op], key, d)
  {
    var t, delivered := Apply(s, op).0, DeliveredFor(s, op, key);
    ArrivedSnoc(ops, op, key);
    if key in s.flows && key in t.flows {
      HeldIsKeptOrDelivered(s, op, key);
      KeptHaveArrived(s.flows[key].buffer, t.flows[key].buffer, delivered, Arriving(op, key), ops, key);
    } else {
      OpeningOrRetiringHoldsNothing(s, op, key);
    }
  }

  lemma KeptHaveArrived(a: Buffer, b: Buffer, out: Packets, extra: Packets, ops: seq<Op>, key: Key)
    requires Conserves(a, b, out, extra)
    requires forall k :: k in a ==> ArrivedIn(ops, key, (k, a[k].payload))
    ensures forall k :: k in b ==> ArrivedIn(ops, key, (k, b[k].payload)) || (k, b[k].payload) in extra
    ensures forall d :: d in out ==> ArrivedIn(ops, key, d) || d in extra
  {
    forall d | d in out ensures ArrivedIn(ops, key, d) || d in extra {
      if d !in extra {
        assert CameFrom(a, d) && d == (d.0, a[d.0].payload);
      }
    }
  }

  lemma ArrivedSnoc(ops: seq<Op>, op: Op, key: Key)
    ensures forall d :: ArrivedIn(ops, key, d) || d in Arriving(op, key) ==> ArrivedIn(ops + [op], key, d)
  {
    var all := ops + [op];
    forall d | ArrivedIn(ops, key, d) || d in Arriving(op, key) ensures ArrivedIn(all, key, d) {
      if ArrivedIn(ops, key, d) {
        var i :| 0 <= i < |ops| && d in Arriving(ops[i], key);
        assert all[i] == ops[i];
      } else {
        assert d in Arriving(all[|ops|], key);
      }
    }
  }

  lemma OpeningOrRetiringHoldsNothing(s: State, op: Op, key: Key)
    requires key !in s.flows || key !in Apply(s, op).0.flows
    ensures var t := Apply(s, op).0; key in t.flows ==> t.flows[key].buffer == map[]
    ensures forall d :: d in DeliveredFor(s, op, key) ==> d in Arriving(op, key)
  {
  }

  /** Over every run from an empty session, each delivered packet arrived for that key, as it was delivered. */
  lemma {:induction false} DeliveredIsArrived(limits: Limits, ops: seq<Op>, key: Key)
    requires AllAllowed(Fresh(limits), ops)
    ensures AllHeldArrived(Run(Fresh(limits), ops), ops, key)
    ensures forall d :: d in DeliveryLog(Fresh(limits), ops, key) ==> ArrivedIn(ops, key, d)
  {
    if ops != [] {
      var before, op := ops[..|ops| - 1], ops[|ops| - 1];
      assert before + [op] == ops;
      AllowedPrefix(Fresh(limits), ops);
      DeliveredIsArrived(limits, before, key);
      StepDeliversArrived(Run(Fresh(limits), before), before, op, key);
      ArrivedSnoc(before, op, key);
    }
  }

  // ---------------------------------------------------------------------
  // Which overdue packets stay held
  // ---------------------------------------------------------------------

  /** The held packet `k` has outlived the deadline of its flow. */
  predicate Overdue(f: Flow, limits: Limits, now: u64, k: u64) {
    k in f.buffer && Minus(now, f.buffer[k].arrivedAt) >= limits.Deadline(f.class_)
  }

  /** `j` is held right behind a gap. */
  predicate BehindGap(f: Flow, j: u64) {
    j in f.buffer && (j == 0 || j - 1 !in f.buffer)
  }

  /** Some gap at or before `k` may not be skipped yet: the packet right behind it is not overdue. */
  ghost predicate Blocked(f: Flow, limits: Limits, now: u64, k: u64) {
    exists j: u64 :: BehindGap(f, j) && j <= k && !Overdue(f, limits, now, j)
  }

  /** What draining takes is the contiguous run up to the new head. */
  lemma PullTakesRun(f: Flow, session: nat, k: u64)
    requires Draining(f) && f.next <= k < Head(Pull(f, session).0)
    ensures k in f.buffer && k !in Pull(f, session).0.buffer
  {
    PullDelivers(f, session);
    PullLeaves(f, session);
    PullConserves(f, session);
    assert CameFrom(f.buffer, Pull(f, session).2[k - f.next]);
  }

  /** Everything past it stays. */
  lemma PullKeepsRest(f: Flow, session: nat, k: u64)
    requires Draining(f) && k in f.buffer && k >= Head(Pull(f, session).0)
    ensures StillHeld(f.buffer, Pull(f, session).0.buffer, k)
  {
    PullDelivers(f, session);
    PullConserves(f, session);
  }

  lemma PullSplitsBuffer(f: Flow, session: nat)
    requires Draining(f)
    ensures var g := Pull(f, session).0;
            && (forall k :: f.next <= k < Head(g) ==> k in f.buffer)
            && (forall k :: k in g.buffer <==> k in f.buffer && k >= Head(g))
            && (forall k :: k in g.buffer ==> k > Head(g) && g.buffer[k] == f.buffer[k])
  {
    PullLeaves(f, session);
    var g := Pull(f, session).0;
    forall k: u64 | f.next <= k < Head(g) ensures k in f.buffer && k !in g.buffer {
      PullTakesRun(f, session, k);
    }
    forall k | k in f.buffer && k >= Head(g) ensures k in g.buffer {
      PullKeepsRest(f, session, k);
    }
  }

  /** One skip takes exactly the run behind the head gap. */
  lemma SkipSplitsBuffer(f: Flow, session: nat, limits: Limits, now: u64)
    requires FlowValid(f, limits) && f.bytes <= session && SkipDue(f, limits, now)
    ensures var g := SkipHead(f, session, now).0;
            && g.class_ == f.class_
            && (forall k :: Smallest(f.buffer) <= k < Head(g) ==> k in f.buffer)
            && (forall k :: k in g.buffer <==> k in f.buffer && k >= Head(g))
            && (forall k :: k in g.buffer ==> k > Head(g) && g.buffer[k] == f.buffer[k])
  {
    var moved := f.(next := Smallest(f.buffer));
    PullSplitsBuffer(moved, session);
    PullDelivers(moved, session);
  }

  lemma SkipKeepsBlocked(f: Flow, session: nat, limits: Limits, now: u64, k: u64)
    requires FlowValid(f, limits) && f.bytes <= session && SkipDue(f, limits, now)
    ensures var g := SkipHead(f, session, now).0;
            k in f.buffer && Blocked(f, limits, now, k) <==> k in g.buffer && Blocked(g, limits, now, k)
  {
    var g, m := SkipHead(f, session, now).0, Smallest(f.buffer);
    SkipSplitsBuffer(f, session, limits, now);
    if k in f.buffer && Blocked(f, limits, now, k) {
      var j: u64 :| BehindGap(f, j) && j <= k && !Overdue(f, limits, now, j);
      assert j >= Head(g) || j == m || j - 1 in f.buffer;
      assert BehindGap(g, j) && !Overdue(g, limits, now, j);
    }
    if k in g.buffer && Blocked(g, limits, now, k) {
      var j: u64 :| BehindGap(g, j) && j <= k && !Overdue(g, limits, now, j);
      assert BehindGap(f, j) && !Overdue(f, limits, now, j);
    }
  }

  /**
    What stays held after all due skips is exactly what lies at or past some gap whose
    next packet is not overdue, and it stays as it was.
  */
  lemma {:induction false} SkipAllKeepsExactlyBlocked(f: Flow, session: nat, limits: Limits, now: u64)
    requires FlowValid(f, limits) && f.bytes <= session
    ensures var g := SkipAll(f, session, limits, now).0;
            && g.class_ == f.class_
            && (forall k :: k in g.buffer <==> k in f.buffer && Blocked(f, limits, now, k))
            && (forall k :: k in g.buffer ==> g.buffer[k] == f.buffer[k])
    decreases |f.buffer|
  {
    if SkipDue(f, limits, now) {
      SkipShrinks(f, session, limits, now);
      SkipKeepsFlowValid(f, session, limits, now);
      SkipSplitsBuffer(f, session, limits, now);
      var (g, rest, _) := SkipHead(f, session, now);
      SkipAllKeepsExactlyBlocked(g, rest, limits, now);
      forall k ensures k in f.buffer && Blocked(f, limits, now, k) <==> k in g.buffer && Blocked(g, limits, now, k) {
        SkipKeepsBlocked(f, session, limits, now, k);
      }
    } else if f.buffer != map[] {
      var j := Smallest(f.buffer);
      assert BehindGap(f, j) && !Overdue(f, limits, now, j);
    }
  }

  /** Wherever a packet is overdue, so is the packet right behind every gap before it. */
  ghost predicate DeadlineOrdered(f: Flow, limits: Limits, now: u64) {
    forall j, k :: BehindGap(f, j) && j <= k && Overdue(f, limits, now, k) ==> Overdue(f, limits, now, j)
  }

  ghost predicate NoneOverdue(f: Flow, limits: Limits, now: u64) {
    forall k :: !Overdue(f, limits, now, k)
  }

  /**
    The deadline promise is kept, no overdue packet staying held, if and only if
    the flow was in deadline order before the call.
  */
  lemma DeadlineKeptIffOrdered(f: Flow, session: nat, limits: Limits, now: u64)
    requires FlowValid(f, limits) && f.bytes <= session
    ensures NoneOverdue(SkipAll(f, session, limits, now).0, limits, now) <==> DeadlineOrdered(f, limits, now)
  {
    SkipAllKeepsExactlyBlocked(f, session, limits, now);
    var g := SkipAll(f, session, limits, now).0;
    forall k ensures Overdue(g, limits, now, k) <==> Overdue(f, limits, now, k) && Blocked(f, limits, now, k) {
    }
  }

  /** The same for a whole table of flows. */
  lemma DeadlinesKeptIffOrdered(before: map<Key, Flow>, after: map<Key, Flow>, limits: Limits, now: u64)
    requires forall k :: k in before ==> FlowValid(before[k], limits)
    requires after.Keys <= before.Keys && forall k :: k in after ==> after[k] == Settled(before[k], limits, now)
    ensures (forall k :: k in after ==> NoneOverdue(after[k], limits, now))
            <==> (forall k :: k in after ==> DeadlineOrdered(before[k], limits, now))
  {
    forall k | k in after ensures NoneOverdue(after[k], limits, now) <==> DeadlineOrdered(before[k], limits, now) {
      DeadlineKeptIffOrdered(before[k], before[k].bytes, limits, now);
    }
  }

  /** `m` is the least identifier held. */
  ghost predicate LeastHeld(f: Flow, m: u64) {
    m in f.buffer && forall k :: k in f.buffer ==> m <= k
  }

  /** How long the held packet `m` has waited. */
  function Waited(f: Flow, now: u64, m: u64): nat
    requires m in f.buffer
  {
    if now < f.buffer[m].arrivedAt then 0 else now - f.buffer[m].arrivedAt
  }

  /**
    The head gap before the held packet of least identifier is skipped if and only if
    that packet has waited as long as its class may: one bound for each class. Then
    the packet goes out first; otherwise nothing moves.
  */
  lemma HeadGapGoesExactly(f: Flow, session: nat, limits: Limits, now: u64, m: u64)
    requires FlowValid(f, limits) && f.bytes <= session && LeastHeld(f, m)
    ensures var (g, _, out) := SkipAll(f, session, limits, now);
            && (f.class_ == Realtime ==> (m !in g.buffer <==> Waited(f, now, m) >= limits.realtimeDeadlineMs))
            && (f.class_ == Interactive ==> (m !in g.buffer <==> Waited(f, now, m) >= limits.interactiveDeadlineMs))
            && (f.class_ == Bulk ==> (m !in g.buffer <==> Waited(f, now, m) >= limits.bulkDeadlineMs))
            && (if m in g.buffer then g == f && out == [] else out != [] && out[0] == (m, f.buffer[m].payload))
  {
    assert Smallest(f.buffer) == m;
    if SkipDue(f, limits, now) {
      SkipReleasesFirst(f, session, limits, now, m);
      SkippedIsGone(f, session, limits, now, m);
    }
  }

  /** What a due skip releases starts with the packet right behind the gap. */
  lemma SkipReleasesFirst(f: Flow, session: nat, limits: Limits, now: u64, m: u64)
    requires LeastHeld(f, m) && SkipDue(f, limits, now)
    ensures SkipAll(f, session, limits, now).2 != []
    ensures SkipAll(f, session, limits, now).2[0] == (m, f.buffer[m].payload)
  {
    assert Smallest(f.buffer) == m;
    PullStep(f.(next := m), session);
    SkipShrinks(f, session, limits, now);
  }

  lemma SkippedIsGone(f: Flow, session: nat, limits: Limits, now: u64, m: u64)
    requires LeastHeld(f, m) && SkipDue(f, limits, now)
    ensures m !in SkipAll(f, session, limits, now).0.buffer
  {
    var moved := f.(next := m);
    var less := Minus(session, |f.buffer[m].payload|);
    assert Smallest(f.buffer) == m;
    PullStep(moved, session);
    PullConserves(PullOne(moved), less);
    SkipShrinks(f, session, limits, now);
    var (g, rest, _) := SkipHead(f, session, now);
    assert m !in g.buffer;
    SkipAllConserves(g, rest, limits, now);
  }

  /** In each surviving flow of a table the head gap went exactly when its least held packet had waited long enough. */
  ghost predicate GapsGoByClass(before: map<Key, Flow>, after: map<Key, Flow>, limits: Limits, now: u64) {
    forall key, m :: key in after && key in before && LeastHeld(before[key], m) ==>
      var f := before[key];
      var gone := m !in after[key].buffer;
      && (f.class_ == Realtime ==> (gone <==> Waited(f, now, m) >= limits.realtimeDeadlineMs))
      && (f.class_ == Interactive ==> (gone <==> Waited(f, now, m) >= limits.interactiveDeadlineMs))
      && (f.class_ == Bulk ==> (gone <==> Waited(f, now, m) >= limits.bulkDeadlineMs))
  }

  lemma SettlingGoesByClass(before: map<Key, Flow>, after: map<Key, Flow>, limits: Limits, now: u64)
    requires forall k :: k in before ==> FlowValid(before[k], limits)
    requires after.Keys <= before.Keys && forall k :: k in after ==> after[k] == Settled(before[k], limits, now)
    ensures GapsGoByClass(before, after, limits, now)
  {
    forall key, m | key in after && key in before && LeastHeld(before[key], m)
      ensures var f := before[key];
              var gone := m !in after[key].buffer;
              && (f.class_ == Realtime ==> (gone <==> Waited(f, now, m) >= limits.realtimeDeadlineMs))
              && (f.class_ == Interactive ==> (gone <==> Waited(f, now, m) >= limits.interactiveDeadlineMs))
              && (f.class_ == Bulk ==> (gone <==> Waited(f, now, m) >= limits.bulkDeadlineMs))
    {
      HeadGapGoesExactly(before[key], before[key].bytes, limits, now, m);
    }
  }

  /**
    An arrival that is held goes on to skip the head gap at once if and only if the
    packet that is then least has waited as long as its class may.
  */
  lemma HeldArrivalSkipsExactly(f: Flow, session: nat, limits: Limits, id: u64, payload: Payload, now: u64, m: u64)
    requires FlowValid(f, limits) && Holds(f, session, limits, f.class_, id, payload)
    requires LeastHeld(Hold(f, id, payload, now), m)
    ensures var out := OnFlow(f, session, limits, f.class_, id, payload, now).2;
            var waited := Waited(Hold(f, id, payload, now), now, m);
            && (out.Delivered? || out == Buffered)
            && (f.class_ == Realtime ==> (out.Delivered? <==> waited >= limits.realtimeDeadlineMs))
            && (f.class_ == Interactive ==> (out.Delivered? <==> waited >= limits.interactiveDeadlineMs))
            && (f.class_ == Bulk ==> (out.Delivered? <==> waited >= limits.bulkDeadlineMs))
  {
    var h := Hold(f.(lastActivity := now), id, payload, now);
    assert h.buffer == Hold(f, id, payload, now).buffer;
    assert Smallest(h.buffer) == m;
  }

  /** A flow once every gap that may be skipped has been. */
  ghost function Settled(f: Flow, limits: Limits, now: u64): Flow {
    SkipAll(f, f.bytes, limits, now).0
  }

  /** The arrivals 0, 5 and 3 of one realtime flow at times 0, 0 and 19, then a skip at 30. */
  function WaitingRun(key: Key, p: Payload): seq<Op> {
    [Arrive(key, Realtime, 0, p, 0, key, 0, key), Arrive(key, Realtime, 5, p, 0, key, 0, key),
     Arrive(key, Realtime, 3, p, 19, key, 0, key), SkipGaps(key, 30)]
  }

  /**
    The deadline runs on the held packet of least identifier, not on the one held
    longest: packet 5, due at 20, outlives the skip at 30 because 3 came before it
    in order and after it in time.
  */
  lemma OverduePacketCanWait(key: Key, p: Payload)
    requires |p| <= 1000
    ensures var ops := WaitingRun(key, p);
            var t := Run(Fresh(DEFAULT_LIMITS), ops);
            && AllAllowed(Fresh(DEFAULT_LIMITS), ops)
            && key in t.flows && Overdue(t.flows[key], DEFAULT_LIMITS, 30, 5)
            && DeliveryLog(Fresh(DEFAULT_LIMITS), ops, key) == [(0, p)]
  {
    WaitingFlow(p);
    WaitingStates(DEFAULT_LIMITS, WaitingRun(key, p), key, p);
  }

  lemma WaitingStates(limits: Limits, ops: seq<Op>, key: Key, p: Payload)
    requires limits.maxFlows != 0 && ops == WaitingRun(key, p)
    requires var f0 := Flow(Realtime, 1, false, map[], 0, 0);
             var f1 := Hold(f0, 5, p, 0);
             var f2 := Hold(f1.(lastActivity := 19), 3, p, 19);
             && OnFlow(f0, 0, limits, Realtime, 5, p, 0) == (f1, |p|, Buffered)
             && OnFlow(f1, |p|, limits, Realtime, 3, p, 19) == (f2, |p| + |p|, Buffered)
             && !SkipDue(f2, limits, 30)
    ensures AllAllowed(Fresh(limits), ops) && DeliveryLog(Fresh(limits), ops, key) == [(0, p)]
    ensures var t := Run(Fresh(limits), ops);
            var f1 := Hold(Flow(Realtime, 1, false, map[], 0, 0), 5, p, 0);
            key in t.flows && t.flows[key] == Hold(f1.(lastActivity := 19), 3, p, 19)
  {
    var s := Fresh(limits);
    var f0 := Flow(Realtime, 1, false, map[], 0, 0);
    var f1 := Hold(f0, 5, p, 0);
    var f2 := Hold(f1.(lastActivity := 19), 3, p, 19);
    var s0 := s.(flows := s.flows[key := f0]);
    var s1 := s0.(flows := s0.flows[key := f1], sessionBytes := |p|);
    var s2 := s1.(flows := s1.flows[key := f2], sessionBytes := |p| + |p|);
    FirstArrival(limits, ops[0], f0);
    ArriveStep(s0, ops[1], f1, |p|, Buffered);
    ArriveStep(s1, ops[2], f2, |p| + |p|, Buffered);
    RunFourSteps(s, ops, key, s0, s1, s2);
    SkipNothing(s2, ops[3]);
  }

  /** The arrivals 0 and 2 of one flow at time 0, then skips at two times. */
  function GapRun(key: Key, c: TrafficClass, p: Payload, early: u64, late: u64): seq<Op> {
    [Arrive(key, c, 0, p, 0, key, 0, key), Arrive(key, c, 2, p, 0, key, 0, key),
     SkipGaps(key, early), SkipGaps(key, late)]
  }

  /** What holding packet 2 behind a gap at 1 leads to, and what skipping the gap then does. */
  lemma GapFlow(limits: Limits, c: TrafficClass, p: Payload, early: u64, late: u64, f0: Flow, f1: Flow)
    requires limits.Accepted() && |p| <= limits.maxBytesPerFlow && |p| <= limits.maxBytesPerSession
    requires early < limits.Deadline(c) <= late
    requires f0 == Flow(c, 1, false, map[], 0, 0) && f1 == Hold(f0, 2, p, 0)
    ensures OnFlow(f0, 0, limits, c, 2, p, 0) == (f1, |p|, Buffered)
    ensures !SkipDue(f1, limits, early)
    ensures SkipAll(f1, |p|, limits, late).2 == [(2, p)]
  {
    assert f1.buffer.Keys == {2} && Smallest(f1.buffer) == 2;
    assert |f1.buffer| == 1;
    var moved := f1.(next := 2);
    var one := PullOne(moved);
    assert one.buffer == map[];
    PullStep(moved, |p|);
    assert Pull(one, Minus(|p|, |p|)).2 == [];
    SkipShrinks(f1, |p|, limits, late);
    assert SkipHead(f1, |p|, late).2 == [(2, p)];
    assert SkipHead(f1, |p|, late).0.buffer == map[];
  }

  lemma GapSteps(limits: Limits, ops: seq<Op>, key: Key, c: TrafficClass, p: Payload, early: u64, late: u64,
                 f0: Flow, f1: Flow, s0: State, s1: State)
    requires limits.maxFlows != 0 && c != Control && ops == GapRun(key, c, p, early, late)
    requires f0 == Flow(c, 1, false, map[], 0, 0)
    requires s0 == Fresh(limits).(flows := map[key := f0])
    requires s1 == s0.(flows := map[key := f1], sessionBytes := |p|)
    requires OnFlow(f0, 0, limits, c, 2, p, 0) == (f1, |p|, Buffered) && !SkipDue(f1, limits, early)
    ensures Allowed(Fresh(limits), ops[0]) && Apply(Fresh(limits), ops[0]) == (s0, Delivered([(0, p)]))
    ensures Allowed(s0, ops[1]) && Apply(s0, ops[1]) == (s1, Buffered)
    ensures Allowed(s1, ops[2]) && Apply(s1, ops[2]) == (s1, Delivered([]))
    ensures Allowed(s1, ops[3])
  {
    assert Fresh(limits).flows[key := f0] == map[key := f0] && s0.flows[key := f1] == map[key := f1];
    FirstArrival(limits, ops[0], f0);
    ArriveStep(s0, ops[1], f1, |p|, Buffered);
    SkipNothing(s1, ops[2]);
  }

  lemma GapStates(limits: Limits, ops: seq<Op>, key: Key, c: TrafficClass, p: Payload, early: u64, late: u64)
    requires limits.Accepted() && |p| <= limits.maxBytesPerFlow && |p| <= limits.maxBytesPerSession
    requires c != Control && early < limits.Deadline(c) <= late && ops == GapRun(key, c, p, early, late)
    ensures AllAllowed(Fresh(limits), ops)
    ensures DeliveryLog(Fresh(limits), ops[..3], key) == [(0, p)]
    ensures DeliveryLog(Fresh(limits), ops, key) == [(0, p), (2, p)]
  {
    var f0 := Flow(c, 1, false, map[], 0, 0);
    var f1 := Hold(f0, 2, p, 0);
    var s0 := Fresh(limits).(flows := map[key := f0]);
    var s1 := s0.(flows := map[key := f1], sessionBytes := |p|);
    GapFlow(limits, c, p, early, late, f0, f1);
    GapSteps(limits, ops, key, c, p, early, late, f0, f1, s0, s1);
    RunFourSteps(Fresh(limits), ops, key, s0, s1, s1);
    GapDeliveries(Fresh(limits), s0, s1, ops, key, p, f1, late);
  }

  lemma GapDeliveries(s: State, s0: State, s1: State, ops: seq<Op>, key: Key, p: Payload, f1: Flow, late: u64)
    requires |ops| == 4 && ops[0].Arrive? && ops[1].Arrive? && ops[2].SkipGaps? && ops[3] == SkipGaps(key, late)
    requires ops[0].key == ops[1].key == ops[2].key == key
    requires Apply(s, ops[0]).1 == Delivered([(0, p)]) && Apply(s0, ops[1]).1 == Buffered
    requires Apply(s1, ops[2]).1 == Delivered([])
    requires key in s1.flows && SkipAll(s1.flows[key], s1.sessionBytes, s1.limits, late).2 == [(2, p)]
    ensures DeliveredFor(s, ops[0], key) + DeliveredFor(s0, ops[1], key) + DeliveredFor(s1, ops[2], key) == [(0, p)]
    ensures DeliveredFor(s1, ops[3], key) == [(2, p)]
  {
  }

  /** With the default limits an interactive gap is skipped after 100 ms and no sooner. */
  lemma InteractiveGapGoesAtHundred(key: Key, p: Payload)
    requires |p| <= 1000
    ensures var none, ops := Fresh(DEFAULT_LIMITS), GapRun(key, Interactive, p, 99, 100);
            && AllAllowed(none, ops)
            && DeliveryLog(none, ops[..3], key) == [(0, p)] && DeliveryLog(none, ops, key) == [(0, p), (2, p)]
  {
    GapStates(DEFAULT_LIMITS, GapRun(key, Interactive, p, 99, 100), key, Interactive, p, 99, 100);
  }

  /** A bulk gap is skipped after 500 ms and no sooner. */
  lemma BulkGapGoesAtFiveHundred(key: Key, p: Payload)
    requires |p| <= 1000
    ensures var none, ops := Fresh(DEFAULT_LIMITS), GapRun(key, Bulk, p, 499, 500);
            && AllAllowed(none, ops)
            && DeliveryLog(none, ops[..3], key) == [(0, p)] && DeliveryLog(none, ops, key) == [(0, p), (2, p)]
  {
    GapStates(DEFAULT_LIMITS, GapRun(key, Bulk, p, 499, 500), key, Bulk, p, 499, 500);
  }

  lemma FirstArrival(limits: Limits, op: Op, f: Flow)
    requires limits.maxFlows != 0 && op.Arrive? && op.class_ != Control && op.id < U64_MAX
    requires f == Flow(op.class_, op.id + 1, false, map[], 0, op.now)
    ensures var s := Fresh(limits);
            Allowed(s, op) && Apply(s, op) == (s.(flows := s.flows[op.key := f]), Delivered([(op.id, op.payload)]))
  {
    var s := Fresh(limits);
    assert s.tombs - {op.key} == s.tombs;
  }

  lemma SkipNothing(s: State, op: Op)
    requires op.SkipGaps? && op.key in s.flows && !SkipDue(s.flows[op.key], s.limits, op.now)
    ensures Apply(s, op) == (s, Delivered([]))
  {
    assert s.flows[op.key := s.flows[op.key]] == s.flows;
  }

  /** A run of three steps, state by state. */
  lemma RunThreeSteps(s: State, ops: seq<Op>, key: Key, s0: State, s1: State, s2: State)
    requires |ops| == 3 && Allowed(s, ops[0]) && Allowed(s0, ops[1]) && Allowed(s1, ops[2])
    requires Apply(s, ops[0]).0 == s0 && Apply(s0, ops[1]).0 == s1 && Apply(s1, ops[2]).0 == s2
    ensures AllAllowed(s, ops) && Run(s, ops) == s2
    ensures DeliveryLog(s, ops, key)
            == DeliveredFor(s, ops[0], key) + DeliveredFor(s0, ops[1], key) + DeliveredFor(s1, ops[2], key)
  {
    assert ops[..1] == [] + [ops[0]] && ops[..2] == ops[..1] + [ops[1]] && ops == ops[..2] + [ops[2]];
    RunSnoc(s, [], ops[0], key);
    RunSnoc(s, ops[..1], ops[1], key);
    RunSnoc(s, ops[..2], ops[2], key);
    assert [] + DeliveredFor(s, ops[0], key) == DeliveredFor(s, ops[0], key);
  }

  /** A run of four steps, state by state. */
  lemma RunFourSteps(s: State, ops: seq<Op>, key: Key, s0: State, s1: State, s2: State)
    requires |ops| == 4
    requires Allowed(s, ops[0]) && Allowed(s0, ops[1]) && Allowed(s1, ops[2]) && Allowed(s2, ops[3])
    requires Apply(s, ops[0]).0 == s0 && Apply(s0, ops[1]).0 == s1 && Apply(s1, ops[2]).0 == s2
    ensures AllAllowed(s, ops) && Run(s, ops) == Apply(s2, ops[3]).0
    ensures DeliveryLog(s, ops[..3], key)
            == DeliveredFor(s, ops[0], key) + DeliveredFor(s0, ops[1], key) + DeliveredFor(s1, ops[2], key)
    ensures DeliveryLog(s, ops, key) == DeliveryLog(s, ops[..3], key) + DeliveredFor(s2, ops[3], key)
  {
    RunThreeSteps(s, ops[..3], key, s0, s1, s2);
    assert ops == ops[..3] + [ops[3]];
    RunSnoc(s, ops[..3], ops[3], key);
  }

  lemma ArriveStep(s: State, op: Op, g: Flow, rest: nat, out: Outcome)
    requires op.Arrive? && op.class_ != Control && op.key in s.flows
    requires OnFlow(s.flows[op.key], s.sessionBytes, s.limits, op.class_, op.id, op.payload, op.now) == (g, rest, out)
    ensures Allowed(s, op) && Apply(s, op) == (s.(flows := s.flows[op.key := g], sessionBytes := rest), out)
  {
  }

  lemma WaitingFlow(p: Payload)
    requires |p| <= 1000
    ensures var f0 := Flow(Realtime, 1, false, map[], 0, 0);
            var f1 := Hold(f0, 5, p, 0);
            var f2 := Hold(f1.(lastActivity := 19), 3, p, 19);
            && OnFlow(f0, 0, DEFAULT_LIMITS, Realtime, 5, p, 0) == (f1, |p|, Buffered)
            && OnFlow(f1, |p|, DEFAULT_LIMITS, Realtime, 3, p, 19) == (f2, |p| + |p|, Buffered)
            && !SkipDue(f2, DEFAULT_LIMITS, 30)
            && Overdue(f2, DEFAULT_LIMITS, 30, 5)
  {
    var f0 := Flow(Realtime, 1, false, map[], 0, 0);
    var f1 := Hold(f0, 5, p, 0);
    var f2 := Hold(f1.(lastActivity := 19), 3, p, 19);
    assert f1.buffer.Keys == {5} && Smallest(f1.buffer) == 5;
    assert |f1.buffer| == 1;
    assert OnFlow(f0, 0, DEFAULT_LIMITS, Realtime, 5, p, 0) == (f1, |p|, Buffered);
    assert f2.buffer.Keys == {3, 5} && Smallest(f2.buffer) == 3;
  }

  lemma RunSnoc(s: State, ops: seq<Op>, op: Op, key: Key)
    requires AllAllowed(s, ops) && Allowed(Run(s, ops), op)
    ensures AllAllowed(s, ops + [op]) && Run(s, ops + [op]) == Apply(Run(s, ops), op).0
    ensures DeliveryLog(s, ops + [op], key) == DeliveryLog(s, ops, key) + DeliveredFor(Run(s, ops), op, key)
  {
    AllowedSnoc(s, ops, op);
    assert (ops + [op])[..|ops|] == ops;
  }

  // ---------------------------------------------------------------------
  // Victims exist
  // ---------------------------------------------------------------------

  lemma FreshIsValid(limits: Limits)
    requires limits.Accepted()
    ensures SessionValid(Fresh(limits))
  {
    var none: map<Key, Flow> := map[];
    assert FlowBytes(none) == map[];
  }

  lemma {:induction false} LeastActiveExists(flows: map<Key, Flow>, k: Key)
    requires k in flows
    ensures exists j :: LeastActive(flows, j)
    decreases flows[k].lastActivity
  {
    if j :| j in flows && flows[j].lastActivity < flows[k].lastActivity {
      LeastActiveExists(flows, j);
    } else {
      assert LeastActive(flows, k);
    }
  }

  lemma SoonestExists(tombs: map<Key, Tomb>)
    requires tombs != map[]
    ensures exists j :: SoonestToExpire(tombs, j)
  {
    var some :| some in tombs;
    var k := LeastExists(tombs.Keys, j => SpentRank(tombs, j));
    assert SoonestToExpire(tombs, k);
  }

  /** The tombstone a full table gives up does not depend on the order the table is walked in. */
  lemma SoonestIsUnique(tombs: map<Key, Tomb>, a: Key, b: Key)
    requires SoonestToExpire(tombs, a) && SoonestToExpire(tombs, b)
    ensures a == b
  {
    assert SpentBefore(tombs, a, b) && SpentBefore(tombs, b, a);
    var x, y := SpentRank(tombs, a), SpentRank(tombs, b);
    LexIsAntisymmetric(x, y);
    assert a.session == x[2..18] == y[2..18] == b.session;
    assert x[18] == y[18] && x[19] == y[19] && x[20] == y[20];
  }

  /** The tombstone given up expires first; ties go to the lower watermark, then to the key in its own order. */
  lemma SoonestExpiresFirst(tombs: map<Key, Tomb>, a: Key, b: Key)
    requires SoonestToExpire(tombs, a) && b in tombs
    ensures tombs[a].expiresAt <= tombs[b].expiresAt
    ensures tombs[a].expiresAt == tombs[b].expiresAt ==> tombs[a].watermark <= tombs[b].watermark
    ensures tombs[a].expiresAt == tombs[b].expiresAt && tombs[a].watermark == tombs[b].watermark ==>
              && Lex(a.session, b.session)
              && (a.session == b.session && a.direction != b.direction ==> a.direction == ClientToGateway)
              && (a.session == b.session && a.direction == b.direction ==>
                    a.keyEpoch < b.keyEpoch || (a.keyEpoch == b.keyEpoch && a.flow <= b.flow))
  {
    assert SpentBefore(tombs, a, b);
    RankDecides([tombs[a].expiresAt, tombs[a].watermark], [tombs[b].expiresAt, tombs[b].watermark],
                a.session, b.session,
                [DirectionToWire(a.direction), a.keyEpoch, a.flow], [DirectionToWire(b.direction), b.keyEpoch, b.flow],
                SpentRank(tombs, a), SpentRank(tombs, b));
  }

  /** The order of a rank made of two numbers, a session and three numbers. */
  lemma RankDecides(x: seq<nat>, y: seq<nat>, m: seq<nat>, n: seq<nat>, u: seq<nat>, v: seq<nat>,
                    a: seq<nat>, b: seq<nat>)
    requires |x| == |y| == 2 && |m| == |n| && |u| == |v| == 3
    requires a == x + m + u && b == y + n + v && Lex(a, b)
    ensures x[0] < y[0] || (x[0] == y[0] && x[1] <= y[1])
    ensures x[0] == y[0] && x[1] == y[1] ==>
              && Lex(m, n)
              && (m == n ==> u[0] < v[0] || (u[0] == v[0] && (u[1] < v[1] || (u[1] == v[1] && u[2] <= v[2]))))
  {
    assert a == x + (m + u) && b == y + (n + v);
    LexByParts(x, y, m + u, n + v);
    LexByParts(m, n, u, v);
    LexIsTotal(m, m);
    LexOfTwo(x, y);
    LexOfThree(u, v);
  }

  /** What a flow releases does not depend on what the other flows hold. */
  lemma {:induction false} PullIgnoresSession(f: Flow, a: nat, b: nat)
    ensures Pull(f, a).0 == Pull(f, b).0 && Pull(f, a).2 == Pull(f, b).2
    decreases |f.buffer|
  {
    if !f.exhausted && f.next in f.buffer {
      BufferRemove(f.buffer, f.next);
      var n := |f.buffer[f.next].payload|;
      PullStep(f, a);
      PullStep(f, b);
      PullIgnoresSession(PullOne(f), Minus(a, n), Minus(b, n));
    }
  }

  lemma {:induction false} SkipIgnoresSession(f: Flow, a: nat, b: nat, limits: Limits, now: u64)
    ensures SkipAll(f, a, limits, now).0 == SkipAll(f, b, limits, now).0
    ensures SkipAll(f, a, limits, now).2 == SkipAll(f, b, limits, now).2
    decreases |f.buffer|
  {
    if SkipDue(f, limits, now) {
      PullIgnoresSession(f.(next := Smallest(f.buffer)), a, b);
      SkipShrinks(f, a, limits, now);
      SkipIgnoresSession(SkipHead(f, a, now).0, SkipHead(f, a, now).1, SkipHead(f, b, now).1, limits, now);
    }
  }

  /** `s` is what the allowed steps `trace` lead to from an empty session. */
  ghost predicate Reached(limits: Limits, trace: seq<Op>, s: State) {
    limits.Accepted() && AllAllowed(Fresh(limits), trace) && s == Run(Fresh(limits), trace)
  }

  lemma ReachedSnoc(limits: Limits, trace: seq<Op>, s: State, op: Op)
    requires Reached(limits, trace, s) && Allowed(s, op)
    ensures Reached(limits, trace + [op], Apply(s, op).0)
  {
    AllowedSnoc(Fresh(limits), trace, op);
  }
}
