/**
  The V2 session reorder as an object: the loops over one flow, and the class
  whose methods are steps of the session as a value.
*/
module FlowSession {
  import opened Prelude
  import opened Codec
  import opened Order
  import opened FlowReorder
  import opened FlowMetrics

  // ---------------------------------------------------------------------
  // One flow
  // ---------------------------------------------------------------------

  lemma {:induction false} GreatestExists(buffer: map<u64, Held>, k: u64)
    requires k in buffer
    ensures exists id :: id in buffer && forall j :: j in buffer ==> j <= id
    decreases U64_MAX - k
  {
    if j :| j in buffer && j > k {
      GreatestExists(buffer, j);
    }
  }

  method MaxObserved(f: Flow) returns (m: u64)
    ensures IsMaxObserved(f, m)
  {
    if f.exhausted {
      return U64_MAX;
    }
    m := Minus(f.next, 1);
    if f.buffer != map[] {
      ghost var some: u64 :| some in f.buffer;
      GreatestExists(f.buffer, some);
      var top: u64 :| top in f.buffer && forall j :: j in f.buffer ==> j <= top;
      if top > m {
        m := top;
      }
    }
  }

  /** What is still to be drained from `g` completes what draining `f` gives. */
  ghost predicate Drains(f: Flow, session: nat, g: Flow, rest: nat, out: Packets) {
    var (h, left, more) := Pull(g, rest);
    (h, left, out + more) == Pull(f, session)
  }

  lemma DrainsOn(f: Flow, session: nat, g: Flow, rest: nat, out: Packets)
    requires Drains(f, session, g, rest, out) && !g.exhausted && g.next in g.buffer
    ensures var p := g.buffer[g.next].payload;
            Drains(f, session, PullOne(g), Minus(rest, |p|), out + [(g.next, p)])
    ensures |PullOne(g).buffer| < |g.buffer|
  {
    var p := g.buffer[g.next].payload;
    BufferRemove(g.buffer, g.next);
    PullStep(g, rest);
    var more := Pull(PullOne(g), Minus(rest, |p|)).2;
    assert out + ([(g.next, p)] + more) == (out + [(g.next, p)]) + more;
  }

  /** The draining loop of one flow. */
  method Drain(f: Flow, session: nat) returns (g: Flow, rest: nat, out: Packets)
    ensures (g, rest, out) == Pull(f, session)
  {
    g, rest, out := f, session, [];
    assert [] + Pull(f, session).2 == Pull(f, session).2;
    while !g.exhausted && g.next in g.buffer
      invariant Drains(f, session, g, rest, out)
      decreases |g.buffer|
    {
      DrainsOn(f, session, g, rest, out);
      ghost var before := g;
      var current := g.next;
      var held := g.buffer[current];
      rest := Minus(rest, |held.payload|);
      out := out + [(current, held.payload)];
      g := g.(buffer := g.buffer - {current}, bytes := Minus(g.bytes, |held.payload|));
      if current == U64_MAX {
        g := g.(exhausted := true);
      } else {
        g := g.(next := current + 1);
      }
      assert g == PullOne(before);
    }
    assert out + [] == out;
  }

  /** Skips the head gap when it is due; `skipped` identifiers went with it. */
  method SkipHeadGap(f: Flow, session: nat, limits: Limits, now: u64)
    returns (g: Flow, rest: nat, out: Packets, skipped: nat)
    ensures skipped > 0 <==> SkipDue(f, limits, now)
    ensures skipped > 0 ==> (g, rest, out) == SkipHead(f, session, now) && skipped == Smallest(f.buffer) - f.next
    ensures skipped == 0 ==> (g, rest, out) == (f, session, [])
  {
    g, rest, out, skipped := f, session, [], 0;
    if f.exhausted || f.buffer == map[] {
      return;
    }
    ghost var some: u64 :| some in f.buffer;
    SmallestExists(f.buffer, some);
    var id: u64 :| id in f.buffer && forall j :: j in f.buffer ==> id <= j;
    assert id == Smallest(f.buffer);
    if f.next >= id || Minus(now, f.buffer[id].arrivedAt) < limits.Deadline(f.class_) {
      return;
    }
    skipped := id - f.next;
    g, rest, out := Drain(f.(next := id), session);
    g := g.(lastActivity := now);
  }

  /** An arrival for an open flow. */
  method Accept(f: Flow, session: nat, limits: Limits, c: TrafficClass, id: u64, payload: Payload, now: u64)
    returns (g: Flow, rest: nat, out: Outcome, skipped: nat)
    ensures (g, rest, out) == OnFlow(f, session, limits, c, id, payload, now)
    ensures skipped == SkippedBy(f, limits, id, payload, now, out)
  {
    g, rest, skipped := f, session, 0;
    if f.exhausted {
      g := f.(lastActivity := now);
      out := Dropped(Exhausted);
      return;
    }
    if f.class_ != c {
      out := Dropped(ClassMismatch);
      return;
    }
    g := f.(lastActivity := now);
    if id < f.next {
      out := Dropped(Duplicate);
    } else if id in f.buffer {
      out := Dropped(Duplicate);
    } else if id == f.next {
      if f.next == U64_MAX {
        g := g.(exhausted := true);
        out := Delivered([(id, payload)]);
      } else {
        var packets;
        g, rest, packets := Drain(g.(next := f.next + 1), session);
        out := Delivered([(id, payload)] + packets);
      }
    } else if id - f.next > limits.maxFutureGap {
      out := Dropped(FarAhead);
    } else if |f.buffer| >= limits.maxPacketsPerFlow {
      out := Dropped(FlowPacketCapacity);
    } else if f.bytes + |payload| > limits.maxBytesPerFlow {
      out := Dropped(FlowByteCapacity);
    } else if session + |payload| > limits.maxBytesPerSession {
      out := Dropped(SessionByteCapacity);
    } else {
      g, rest, out, skipped := AcceptAhead(g, session, limits, id, payload, now);
    }
  }

  /** Holds a packet ahead of the head, and skips the head gap if it is already overdue. */
  method AcceptAhead(f: Flow, session: nat, limits: Limits, id: u64, payload: Payload, now: u64)
    returns (g: Flow, rest: nat, out: Outcome, skipped: nat)
    requires f.next < id
    ensures var h := Hold(f, id, payload, now);
            (g, rest, out) ==
            if SkipDue(h, limits, now) then
              var (k, left, packets) := SkipHead(h, session + |payload|, now); (k, left, Delivered(packets))
            else (h, session + |payload|, Buffered)
    ensures var h := Hold(f, id, payload, now);
            h.buffer != map[] && skipped == if out.Delivered? then Minus(Smallest(h.buffer), f.next) else 0
  {
    g := f.(buffer := f.buffer[id := Held(payload, now)], bytes := f.bytes + |payload|);
    assert id in g.buffer;
    var packets;
    g, rest, packets, skipped := SkipHeadGap(g, session + |payload|, limits, now);
    out := if skipped > 0 then Delivered(packets) else Buffered;
  }

  /** Skips every overdue head gap of one flow in turn. */
  method SkipOverdue(f: Flow, session: nat, limits: Limits, now: u64)
    returns (g: Flow, rest: nat, out: Packets, gaps: nat, skipped: nat)
    ensures (g, rest, out) == SkipAll(f, session, limits, now)
    ensures gaps == GapsIn(f, session, limits, now) && skipped == SkippedIn(f, session, limits, now)
  {
    g, rest, out, gaps, skipped := f, session, [], 0, 0;
    ghost var (g0, rest0, out0) := SkipAll(f, session, limits, now);
    assert out + out0 == out0;
    while true
      invariant SkipAll(g, rest, limits, now).0 == g0 && SkipAll(g, rest, limits, now).1 == rest0
      invariant out + SkipAll(g, rest, limits, now).2 == out0
      invariant gaps + GapsIn(g, rest, limits, now) == GapsIn(f, session, limits, now)
      invariant skipped + SkippedIn(g, rest, limits, now) == SkippedIn(f, session, limits, now)
      decreases |g.buffer|
    {
      var next, left, packets, over := SkipHeadGap(g, rest, limits, now);
      if over == 0 {
        assert out + [] == out;
        return;
      }
      SkipShrinks(g, rest, limits, now);
      ghost var more := SkipAll(next, left, limits, now).2;
      assert out + (packets + more) == (out + packets) + more;
      g, rest, out := next, left, out + packets;
      gaps, skipped := gaps + 1, skipped + over;
    }
  }

  /** Exactly the flows active within the idle time are still there. */
  ghost predicate SurvivesByActivity(before: map<Key, Flow>, after: map<Key, Flow>, limits: Limits, now: u64) {
    forall k :: k in after <==> k in before && now < before[k].lastActivity + limits.flowIdleTtlMs
  }

  lemma IdleOnesGo(before: map<Key, Flow>, after: map<Key, Flow>, limits: Limits, now: u64)
    requires limits.flowIdleTtlMs != 0 && after.Keys == before.Keys - IdleKeys(before, limits, now)
    ensures SurvivesByActivity(before, after, limits, now)
  {
    forall k ensures k in after <==> k in before && now < before[k].lastActivity + limits.flowIdleTtlMs {
      assert k in after <==> k in after.Keys;
    }
  }

  function IdleKeys(flows: map<Key, Flow>, limits: Limits, now: u64): set<Key> {
    set k | k in flows && Minus(now, flows[k].lastActivity) >= limits.flowIdleTtlMs
  }

  lemma SnocAfter(a: seq<Op>, b: seq<Op>, op: Op)
    ensures (a + b) + [op] == a + (b + [op])
  {
  }

  ghost predicate AllIdle(steps: seq<Op>, now: u64) {
    forall op :: op in steps ==> op.Idle? && op.now == now
  }

  lemma RemainingIdle(flows: map<Key, Flow>, k: Key, limits: Limits, now: u64)
    requires k in IdleKeys(flows, limits, now)
    ensures IdleKeys(flows - {k}, limits, now) == IdleKeys(flows, limits, now) - {k}
    ensures (flows - {k}) - (IdleKeys(flows, limits, now) - {k}) == flows - IdleKeys(flows, limits, now)
  {
  }

  /** The order flows are visited in: flow, key epoch, direction. */
  function VisitRank(k: Key): seq<nat> {
    [k.flow, k.keyEpoch, DirectionToWire(k.direction)]
  }

  predicate VisitedBefore(a: Key, b: Key) {
    Lex(VisitRank(a), VisitRank(b))
  }

  /** Lower flow first, then lower key epoch, then client to gateway before the other way. */
  lemma VisitOrderIs(a: Key, b: Key)
    ensures VisitedBefore(a, b) <==>
            || a.flow < b.flow
            || (a.flow == b.flow && a.keyEpoch < b.keyEpoch)
            || (a.flow == b.flow && a.keyEpoch == b.keyEpoch
                && (a.direction == b.direction || a.direction == ClientToGateway))
  {
    LexOfThree(VisitRank(a), VisitRank(b));
  }

  lemma NextVisitExists(keys: set<Key>)
    requires keys != {}
    ensures exists k :: k in keys && forall j :: j in keys ==> VisitedBefore(k, j)
  {
    var k := LeastExists(keys, VisitRank);
    assert forall j :: j in keys ==> VisitedBefore(k, j);
  }

  /** `visits` lists each of `keys` once. */
  ghost predicate VisitsEach(visits: seq<Key>, keys: set<Key>) {
    && (forall i :: 0 <= i < |visits| ==> visits[i] in keys)
    && (forall k :: k in keys ==> k in visits)
    && (forall i, j :: 0 <= i < j < |visits| ==> visits[i] != visits[j])
  }

  ghost predicate InVisitOrder(visits: seq<Key>) {
    forall i, j :: 0 <= i < j < |visits| ==> VisitedBefore(visits[i], visits[j])
  }

  function KeysOf(delivered: seq<(Key, Packets)>): (visits: seq<Key>)
    ensures |visits| == |delivered|
  {
    seq(|delivered|, i requires 0 <= i < |delivered| => delivered[i].0)
  }

  /** No two keys differ in their session only. */
  ghost predicate SessionsApart(keys: set<Key>) {
    forall j, k :: j in keys && k in keys && VisitRank(j) == VisitRank(k) ==> j == k
  }

  lemma VisitFirstIsUnique(keys: set<Key>, a: seq<Key>, b: seq<Key>)
    requires VisitsEach(a, keys) && VisitsEach(b, keys) && InVisitOrder(a) && InVisitOrder(b)
    requires SessionsApart(keys) && a != [] && b != []
    ensures a[0] == b[0]
  {
    var i :| 0 <= i < |b| && b[i] == a[0];
    var j :| 0 <= j < |a| && a[j] == b[0];
    if i > 0 && j > 0 {
      assert VisitedBefore(b[0], b[i]) && VisitedBefore(a[0], a[j]);
      LexIsAntisymmetric(VisitRank(a[0]), VisitRank(b[0]));
    }
  }

  lemma VisitsRest(keys: set<Key>, a: seq<Key>)
    requires VisitsEach(a, keys) && a != []
    ensures VisitsEach(a[1..], keys - {a[0]}) && (InVisitOrder(a) ==> InVisitOrder(a[1..]))
  {
    forall k | k in keys - {a[0]} ensures k in a[1..] {
      var i :| 0 <= i < |a| && a[i] == k;
      assert a[1..][i - 1] == k;
    }
  }

  lemma {:induction false} OrderIsDetermined(keys: set<Key>, a: seq<Key>, b: seq<Key>)
    requires VisitsEach(a, keys) && VisitsEach(b, keys) && InVisitOrder(a) && InVisitOrder(b)
    requires SessionsApart(keys)
    ensures a == b
    decreases |a|
  {
    if a == [] {
      assert forall k :: k in b ==> k in keys;
    } else {
      assert a[0] in b;
      VisitFirstIsUnique(keys, a, b);
      VisitsRest(keys, a);
      VisitsRest(keys, b);
      OrderIsDetermined(keys - {a[0]}, a[1..], b[1..]);
      assert a == [a[0]] + a[1..] && b == [b[0]] + b[1..];
    }
  }

  lemma {:induction false} OrderExists(keys: set<Key>) returns (visits: seq<Key>)
    ensures VisitsEach(visits, keys) && InVisitOrder(visits)
    decreases |keys|
  {
    if keys == {} {
      visits := [];
    } else {
      NextVisitExists(keys);
      var k :| k in keys && forall j :: j in keys ==> VisitedBefore(k, j);
      var rest := OrderExists(keys - {k});
      visits := [k] + rest;
    }
  }

  /** The position that position `i` takes its key from when `m` and `n` are swapped. */
  function Across(m: nat, n: nat, i: nat): nat {
    if i == m then n else if i == n then m else i
  }

  function Swapped(a: seq<Key>, m: nat, n: nat): (b: seq<Key>)
    requires m < |a| && n < |a|
    ensures |b| == |a| && forall i :: 0 <= i < |a| ==> b[i] == a[Across(m, n, i)]
  {
    a[m := a[n]][n := a[m]]
  }

  lemma SwappedIsInOrder(a: seq<Key>, m: nat, n: nat)
    requires InVisitOrder(a) && m < |a| && n < |a| && VisitRank(a[m]) == VisitRank(a[n])
    ensures InVisitOrder(Swapped(a, m, n))
  {
    var b := Swapped(a, m, n);
    forall i, j | 0 <= i < j < |b| ensures VisitedBefore(b[i], b[j]) {
      assert VisitedBefore(a[i], a[j]);
      assert VisitRank(b[i]) == VisitRank(a[i]) && VisitRank(b[j]) == VisitRank(a[j]);
    }
  }

  lemma SwappedListsEach(keys: set<Key>, a: seq<Key>, m: nat, n: nat)
    requires VisitsEach(a, keys) && m < |a| && n < |a|
    ensures VisitsEach(Swapped(a, m, n), keys)
  {
    var b := Swapped(a, m, n);
    forall k | k in keys ensures k in b {
      var i :| 0 <= i < |a| && a[i] == k;
      assert b[Across(m, n, i)] == a[Across(m, n, Across(m, n, i))] == k;
    }
    forall i, j | 0 <= i < j < |b| ensures b[i] != b[j] {
      DistinctAt(a, Across(m, n, i), Across(m, n, j));
    }
  }

  lemma DistinctAt(a: seq<Key>, i: nat, j: nat)
    requires forall m, n :: 0 <= m < n < |a| ==> a[m] != a[n]
    requires i < |a| && j < |a| && i != j
    ensures a[i] != a[j]
  {
  }

  /** Two keys that differ in their session only can be visited either way round. */
  lemma OrderIsOpen(keys: set<Key>, j: Key, k: Key) returns (a: seq<Key>, b: seq<Key>)
    requires j in keys && k in keys && j != k && VisitRank(j) == VisitRank(k)
    ensures VisitsEach(a, keys) && VisitsEach(b, keys) && InVisitOrder(a) && InVisitOrder(b) && a != b
  {
    a := OrderExists(keys);
    var m :| 0 <= m < |a| && a[m] == j;
    var n :| 0 <= n < |a| && a[n] == k;
    b := Swapped(a, m, n);
    SwappedIsInOrder(a, m, n);
    SwappedListsEach(keys, a, m, n);
    assert b[m] == k;
  }

  /**
    The order the flows are visited in is determined by the code if and only if no two
    of their keys differ in their session only.
  */
  lemma OrderIsDeterminedIff(keys: set<Key>)
    ensures SessionsApart(keys) <==>
              forall a, b :: VisitsEach(a, keys) && VisitsEach(b, keys) && InVisitOrder(a) && InVisitOrder(b) ==> a == b
  {
    if SessionsApart(keys) {
      forall a, b | VisitsEach(a, keys) && VisitsEach(b, keys) && InVisitOrder(a) && InVisitOrder(b) ensures a == b {
        OrderIsDetermined(keys, a, b);
      }
    } else {
      var j, k :| j in keys && k in keys && VisitRank(j) == VisitRank(k) && j != k;
      var a, b := OrderIsOpen(keys, j, k);
    }
  }

  ghost predicate VisitedFirst(delivered: seq<(Key, Packets)>, pending: set<Key>) {
    forall d, k :: d in delivered && k in pending ==> VisitedBefore(d.0, k)
  }

  /** The flows of `done` have been visited in order, each once, before those of `pending`. */
  ghost predicate Visited(delivered: seq<(Key, Packets)>, done: set<Key>, pending: set<Key>) {
    InVisitOrder(KeysOf(delivered)) && VisitedFirst(delivered, pending) && VisitsEach(KeysOf(delivered), done)
  }

  lemma VisitNext(delivered: seq<(Key, Packets)>, done: set<Key>, pending: set<Key>, k: Key, out: Packets)
    requires Visited(delivered, done, pending) && done !! pending
    requires k in pending && forall j :: j in pending ==> VisitedBefore(k, j)
    ensures Visited(delivered + [(k, out)], done + {k}, pending - {k})
  {
    var all := KeysOf(delivered + [(k, out)]);
    assert all == KeysOf(delivered) + [k];
    forall i, j | 0 <= i < j < |all| ensures VisitedBefore(all[i], all[j]) {
      assert delivered[i] in delivered;
    }
  }

  /** `out` is what the overdue gaps of `key` release, whatever the other flows hold. */
  ghost predicate Released(flows: map<Key, Flow>, limits: Limits, now: u64, key: Key, out: Packets) {
    key in flows && out == SkipAll(flows[key], flows[key].bytes, limits, now).2
  }

  /** The table with every flow settled but the pending ones. */
  ghost function SettledBut(flows: map<Key, Flow>, pending: set<Key>, limits: Limits, now: u64): map<Key, Flow> {
    map k | k in flows :: if k in pending then flows[k] else Settled(flows[k], limits, now)
  }

  lemma SettleNext(flows: map<Key, Flow>, pending: set<Key>, limits: Limits, now: u64, k: Key)
    requires k in flows && k in pending
    ensures SettledBut(flows, pending, limits, now)[k := Settled(flows[k], limits, now)]
            == SettledBut(flows, pending - {k}, limits, now)
    ensures SettledBut(flows, pending, limits, now)[k] == flows[k]
  {
  }

  lemma SkipSettlesFlow(s: State, key: Key, now: u64)
    requires key in s.flows
    ensures var (f, _, out) := SkipAll(s.flows[key], s.sessionBytes, s.limits, now);
            f == Settled(s.flows[key], s.limits, now) && Released(s.flows, s.limits, now, key, out)
  {
    SkipIgnoresSession(s.flows[key], s.sessionBytes, s.flows[key].bytes, s.limits, now);
  }

  /** Every flow but the pending ones has been visited, in order, and is settled. */
  ghost predicate SkippedSoFar(before: map<Key, Flow>, flows: map<Key, Flow>, delivered: seq<(Key, Packets)>,
                               pending: set<Key>, limits: Limits, now: u64) {
    && pending <= before.Keys
    && flows == SettledBut(before, pending, limits, now)
    && (forall d :: d in delivered ==> Released(before, limits, now, d.0, d.1))
    && Visited(delivered, before.Keys - pending, pending)
  }

  lemma StartsUnskipped(flows: map<Key, Flow>, limits: Limits, now: u64)
    ensures SkippedSoFar(flows, flows, [], flows.Keys, limits, now)
  {
    assert flows.Keys - flows.Keys == {};
  }

  lemma SkipsNext(before: map<Key, Flow>, flows: map<Key, Flow>, delivered: seq<(Key, Packets)>,
                  pending: set<Key>, limits: Limits, now: u64, k: Key, out: Packets)
    requires SkippedSoFar(before, flows, delivered, pending, limits, now)
    requires k in pending && forall j :: j in pending ==> VisitedBefore(k, j)
    requires Released(flows, limits, now, k, out)
    ensures SkippedSoFar(before, flows[k := Settled(flows[k], limits, now)], delivered + [(k, out)],
                         pending - {k}, limits, now)
  {
    SettleNext(before, pending, limits, now, k);
    VisitNext(delivered, before.Keys - pending, pending, k, out);
    assert before.Keys - (pending - {k}) == (before.Keys - pending) + {k};
  }

  /** The steps that visiting the flows of a report takes. */
  ghost function SkipsOf(delivered: seq<(Key, Packets)>, now: u64): (ops: seq<Op>)
    ensures |ops| == |delivered|
  {
    seq(|delivered|, i requires 0 <= i < |delivered| => SkipGaps(delivered[i].0, now))
  }

  lemma SkipsOfSnoc(delivered: seq<(Key, Packets)>, key: Key, out: Packets, now: u64)
    ensures SkipsOf(delivered + [(key, out)], now) == SkipsOf(delivered, now) + [SkipGaps(key, now)]
  {
  }

  method PickSpent(tombs: map<Key, Tomb>) returns (oldest: Key)
    requires tombs != map[]
    ensures SoonestToExpire(tombs, oldest)
  {
    SoonestExists(tombs);
    oldest :| oldest in tombs && SoonestToExpire(tombs, oldest);
  }

  method PickVisit(pending: set<Key>) returns (next: Key)
    requires pending != {}
    ensures next in pending && forall j :: j in pending ==> VisitedBefore(next, j)
  {
    NextVisitExists(pending);
    next :| next in pending && forall j :: j in pending ==> VisitedBefore(next, j);
  }

  class SessionReorder {
    const limits: Limits
    var flows: map<Key, Flow>
    var tombstones: map<Key, Tomb>
    var bufferedBytesSession: nat
    var metrics: Metrics
    ghost var trace: seq<Op>

    ghost function View(): State
      reads `flows, `tombstones, `bufferedBytesSession
    {
      State(limits, flows, tombstones, bufferedBytesSession)
    }

    /** The object, counters included, is what its trace of allowed steps leads to from an empty session. */
    ghost predicate Valid()
      reads this
    {
      Lawful(limits, trace, View(), metrics)
    }

    constructor (limits: Limits)
      requires limits.Accepted()
      ensures Valid() && this.limits == limits && trace == []
    {
      this.limits := limits;
      flows := map[];
      tombstones := map[];
      bufferedBytesSession := 0;
      metrics := NO_METRICS;
      trace := [];
    }

    lemma ValidIsSessionValid()
      requires Valid()
      ensures SessionValid(View())
    {
      FreshIsValid(limits);
      RunKeepsValid(Fresh(limits), trace);
    }

    /** A saturating addition to one counter. */
    method Bump(c: Counter, n: nat)
      modifies `metrics
      ensures metrics == Bumped(old(metrics), c, n)
    {
      metrics := Bumped(metrics, c, n);
    }

    /** Adds a step to the trace. */
    ghost method Note(op: Op)
      requires Lawful(limits, trace + [op], View(), metrics)
      modifies `trace
      ensures Valid() && trace == old(trace) + [op]
    {
      trace := trace + [op];
    }

    method InsertTombstone(key: Key, watermark: u64, now: u64) returns (ghost spent: Key)
      requires |tombstones| <= limits.maxTombstones && limits.maxTombstones != 0
      modifies `tombstones, `metrics
      ensures metrics == RetireMetrics(old(metrics), old(View()), now)
      ensures var live := LiveTombs(old(tombstones), now);
              |live| >= limits.maxTombstones ==> SoonestToExpire(live, spent)
      ensures View() == InsertTomb(old(View()), key, watermark, now, spent)
    {
      spent := key;
      var before := |tombstones|;
      tombstones := LiveTombs(tombstones, now);
      Bump(TombstonesExpired, Minus(before, |tombstones|));
      if |tombstones| >= limits.maxTombstones {
        var oldest := PickSpent(tombstones);
        spent := oldest;
        tombstones := tombstones - {oldest};
        Bump(TombstonesEvicted, 1);
      }
      tombstones := tombstones[key := Tomb(watermark, Saturate(now + limits.tombstoneTtlMs))];
    }

    /** Removes a flow and records its tombstone; returns what it observed and the tombstone it pushed out. */
    method RetireFlow(key: Key, now: u64) returns (ghost watermark: u64, ghost spent: Key)
      requires key in flows && |tombstones| <= limits.maxTombstones && limits.maxTombstones != 0
      modifies `flows, `tombstones, `bufferedBytesSession, `metrics
      ensures RetireAllowed(old(View()), key, watermark, now, spent)
      ensures metrics == RetireMetrics(old(metrics), old(View()), now)
      ensures View() == Retire(old(View()), key, watermark, now, spent)
    {
      var mark := MaxObserved(flows[key]);
      watermark := mark;
      bufferedBytesSession := Minus(bufferedBytesSession, flows[key].bytes);
      flows := flows - {key};
      spent := InsertTombstone(key, mark, now);
    }

    /** Makes room for a new flow in a full table. */
    method EvictIfFull(ghost fallback: Key, now: u64)
      returns (ghost oldest: Key, ghost watermark: u64, ghost spent: Key)
      requires |tombstones| <= limits.maxTombstones && limits.maxTombstones != 0 && limits.maxFlows != 0
      modifies `flows, `tombstones, `bufferedBytesSession, `metrics
      ensures |old(flows)| >= limits.maxFlows ==>
                && LeastActive(old(flows), oldest)
                && RetireAllowed(old(View()), oldest, watermark, now, spent)
                && View() == Retire(old(View()), oldest, watermark, now, spent)
      ensures |old(flows)| < limits.maxFlows ==> View() == old(View()) && metrics == old(metrics)
      ensures |old(flows)| >= limits.maxFlows ==>
                metrics == RetireMetrics(Bumped(old(metrics), FlowsEvicted, 1), old(View()), now)
    {
      oldest, watermark, spent := fallback, 0, fallback;
      if |flows| >= limits.maxFlows {
        ghost var some :| some in flows;
        LeastActiveExists(flows, some);
        var victim :| victim in flows && LeastActive(flows, victim);
        oldest := victim;
        Bump(FlowsEvicted, 1);
        watermark, spent := RetireFlow(victim, now);
      }
    }

    /** The first arrival of a key without a flow that no tombstone forbids. */
    method OpenFlow(key: Key, c: TrafficClass, id: u64, now: u64)
      returns (ghost oldest: Key, ghost watermark: u64, ghost spent: Key)
      requires |tombstones| <= limits.maxTombstones && limits.maxTombstones != 0 && limits.maxFlows != 0
      modifies `flows, `tombstones, `bufferedBytesSession, `metrics
      ensures |old(flows)| >= limits.maxFlows ==>
                && LeastActive(old(flows), oldest)
                && RetireAllowed(old(View()).(tombs := old(tombstones) - {key}), oldest, watermark, now, spent)
      ensures metrics == OpeningMetrics(old(metrics), old(View()), key, now)
      ensures View() == Opened(BeforeOpening(old(View()), key, now, oldest, watermark, spent), key, c, id, now)
    {
      if key in tombstones && now >= tombstones[key].expiresAt {
        Bump(TombstonesExpired, 1);
      }
      SubsetCount((tombstones - {key}).Keys, tombstones.Keys);
      tombstones := tombstones - {key};
      oldest, watermark, spent := EvictIfFull(key, now);
      flows := flows[key := Flow(c, if id == U64_MAX then U64_MAX else id + 1, id == U64_MAX, map[], 0, now)];
    }

    method CountOutcome(out: Outcome, skipped: nat)
      modifies `metrics
      ensures metrics == OutcomeMetrics(old(metrics), out, skipped)
    {
      match out {
        case Delivered(packets) => CountSkips(|packets|, if skipped > 0 then 1 else 0, skipped);
        case Dropped(reason) => Bump(DropCounter(reason), 1);
        case _ =>
      }
    }

    method CountSkips(delivered: nat, gaps: nat, skipped: nat)
      modifies `metrics
      ensures metrics == SkipMetrics(old(metrics), delivered, gaps, skipped)
    {
      Bump(GapsSkipped, gaps);
      Bump(PacketsSkipped, skipped);
      Bump(DeliveredPackets, delivered);
    }

    /** An arrival for a key with an open flow. */
    method FeedFlow(key: Key, c: TrafficClass, id: u64, payload: Payload, now: u64) returns (out: Outcome)
      requires key in flows
      modifies `flows, `bufferedBytesSession, `metrics
      ensures var f := old(flows)[key];
              var (g, rest, o) := OnFlow(f, old(bufferedBytesSession), limits, c, id, payload, now);
              && out == o && flows == old(flows)[key := g] && bufferedBytesSession == rest
              && metrics == OutcomeMetrics(old(metrics), o, SkippedBy(f, limits, id, payload, now, o))
    {
      var f, rest, skipped;
      f, rest, out, skipped := Accept(flows[key], bufferedBytesSession, limits, c, id, payload, now);
      CountOutcome(out, skipped);
      flows, bufferedBytesSession := flows[key := f], rest;
    }

    /** What `Receive` does to the tables; the step it stands for names the evictions made. */
    method Place(key: Key, c: TrafficClass, id: u64, payload: Payload, now: u64) returns (out: Outcome, ghost op: Op)
      requires |tombstones| <= limits.maxTombstones && limits.maxTombstones != 0 && limits.maxFlows != 0
      modifies `flows, `tombstones, `bufferedBytesSession, `metrics
      ensures op.Arrive? && (op.key, op.class_, op.id, op.payload, op.now) == (key, c, id, payload, now)
      ensures Allowed(old(View()), op) && (View(), out) == Apply(old(View()), op)
      ensures metrics == MetricsAfter(old(metrics), old(View()), op)
    {
      ghost var oldest, watermark, spent := key, 0, key;
      if c == Control {
        out := Dropped(ClassMismatch);
        Bump(ClassMismatches, 1);
      } else if key in flows {
        out := FeedFlow(key, c, id, payload, now);
      } else if key in tombstones && now < tombstones[key].expiresAt && id <= tombstones[key].watermark {
        out := Dropped(Duplicate);
        Bump(Duplicates, 1);
        Bump(TombstoneHits, 1);
      } else {
        oldest, watermark, spent := OpenFlow(key, c, id, now);
        Bump(DeliveredPackets, 1);
        out := Delivered([(id, payload)]);
      }
      op := Arrive(key, c, id, payload, now, oldest, watermark, spent);
    }

    method Receive(key: Key, c: TrafficClass, id: u64, payload: Payload, now: u64) returns (out: Outcome)
      requires Valid()
      modifies this
      ensures Valid() && |trace| == |old(trace)| + 1 && trace[..|old(trace)|] == old(trace)
      ensures var op := trace[|old(trace)|];
              && op.Arrive? && (op.key, op.class_, op.id, op.payload, op.now) == (key, c, id, payload, now)
              && (View(), out) == Apply(old(View()), op)
    {
      ValidIsSessionValid();
      ghost var op;
      out, op := Place(key, c, id, payload, now);
      LawfulSnoc(limits, trace, old(View()), old(metrics), op, View(), metrics);
      Note(op);
    }

    /** What `ExpireOne` does to the tables. */
    method RetireIdle(key: Key, now: u64) returns (ghost op: Op)
      requires |tombstones| <= limits.maxTombstones && limits.maxTombstones != 0
      requires key in IdleKeys(flows, limits, now)
      modifies `flows, `tombstones, `bufferedBytesSession, `metrics
      ensures op.Idle? && op.key == key && op.now == now
      ensures Allowed(old(View()), op) && View() == Apply(old(View()), op).0
      ensures metrics == MetricsAfter(old(metrics), old(View()), op) && flows == old(flows) - {key}
    {
      ghost var watermark, spent := RetireFlow(key, now);
      Bump(FlowsExpired, 1);
      op := Op.Idle(key, now, watermark, spent);
    }

    /** Retires one idle flow. */
    method ExpireOne(key: Key, now: u64) returns (ghost op: Op)
      requires Valid() && key in IdleKeys(flows, limits, now)
      modifies `flows, `tombstones, `bufferedBytesSession, `metrics, `trace
      ensures Valid() && flows == old(flows) - {key}
      ensures trace == old(trace) + [op] && op.Idle? && op.key == key && op.now == now
    {
      ValidIsSessionValid();
      op := RetireIdle(key, now);
      LawfulSnoc(limits, trace, old(View()), old(metrics), op, View(), metrics);
      Note(op);
    }

    /** Removes every flow that has been idle for its time; `steps` retires one of them each. */
    method ExpireIdle(now: u64) returns (count: nat, ghost steps: seq<Op>)
      requires Valid()
      modifies `flows, `tombstones, `bufferedBytesSession, `metrics, `trace
      ensures Valid() && trace == old(trace) + steps
      ensures count == |steps| && AllIdle(steps, now)
      ensures flows == old(flows) - IdleKeys(old(flows), limits, now)
    {
      count, steps := 0, [];
      var idle := IdleKeys(flows, limits, now);
      while idle != {}
        invariant Valid() && trace == old(trace) + steps && count == |steps|
        invariant AllIdle(steps, now)
        invariant idle == IdleKeys(flows, limits, now)
        invariant flows - idle == old(flows) - IdleKeys(old(flows), limits, now)
        decreases idle
      {
        var k :| k in idle;
        ghost var before := flows;
        ghost var op := ExpireOne(k, now);
        RemainingIdle(before, k, limits, now);
        SnocAfter(old(trace), steps, op);
        idle, steps := idle - {k}, steps + [op];
        count := count + 1;
      }
      assert flows - {} == flows;
    }

    /** What `SkipOne` does to the tables. */
    method SkipFlow(key: Key, now: u64) returns (out: Packets)
      requires key in flows
      modifies `flows, `bufferedBytesSession, `metrics
      ensures (View(), Delivered(out)) == Apply(old(View()), SkipGaps(key, now))
      ensures metrics == MetricsAfter(old(metrics), old(View()), SkipGaps(key, now))
    {
      var f, rest, gaps, skipped;
      f, rest, out, gaps, skipped := SkipOverdue(flows[key], bufferedBytesSession, limits, now);
      CountSkips(|out|, gaps, skipped);
      flows, bufferedBytesSession := flows[key := f], rest;
    }

    /** Skips the overdue gaps of one flow. */
    method SkipOne(key: Key, now: u64) returns (out: Packets)
      requires Valid() && key in flows
      modifies `flows, `bufferedBytesSession, `metrics, `trace
      ensures Valid() && flows == old(flows)[key := Settled(old(flows)[key], limits, now)]
      ensures Released(old(flows), limits, now, key, out)
      ensures trace == old(trace) + [SkipGaps(key, now)]
    {
      SkipSettlesFlow(View(), key, now);
      out := SkipFlow(key, now);
      LawfulSnoc(limits, trace, old(View()), old(metrics), SkipGaps(key, now), View(), metrics);
      Note(SkipGaps(key, now));
    }

    /** Skips the overdue gaps of every flow; `delivered` lists what each released, in the order of the visits. */
    method SkipEverywhere(now: u64) returns (delivered: seq<(Key, Packets)>)
      requires Valid()
      modifies `flows, `bufferedBytesSession, `metrics, `trace
      ensures Valid() && trace == old(trace) + SkipsOf(delivered, now)
      ensures forall d :: d in delivered ==> Released(old(flows), limits, now, d.0, d.1)
      ensures InVisitOrder(KeysOf(delivered)) && VisitsEach(KeysOf(delivered), flows.Keys)
      ensures flows.Keys == old(flows).Keys
      ensures forall k :: k in flows ==> flows[k] == Settled(old(flows)[k], limits, now)
    {
      delivered := [];
      var pending := flows.Keys;
      StartsUnskipped(flows, limits, now);
      while pending != {}
        invariant Valid() && trace == old(trace) + SkipsOf(delivered, now)
        invariant SkippedSoFar(old(flows), flows, delivered, pending, limits, now)
        decreases pending
      {
        var k := PickVisit(pending);
        ghost var before := flows;
        var out := SkipOne(k, now);
        SkipsOfSnoc(delivered, k, out, now);
        SkipsNext(old(flows), before, delivered, pending, limits, now, k, out);
        SnocAfter(old(trace), SkipsOf(delivered, now), SkipGaps(k, now));
        delivered := delivered + [(k, out)];
        pending := pending - {k};
      }
    }

    method PurgeTombstones(now: u64)
      requires Valid()
      modifies `tombstones, `metrics, `trace
      ensures Valid() && trace == old(trace) + [Purge(now)]
      ensures tombstones == LiveTombs(old(tombstones), now)
    {
      var before := |tombstones|;
      tombstones := LiveTombs(tombstones, now);
      Bump(TombstonesExpired, Minus(before, |tombstones|));
      LawfulSnoc(limits, trace, old(View()), old(metrics), Purge(now), View(), metrics);
      Note(Purge(now));
    }

    /** Advances time: reaps tombstones, retires idle flows by `steps`, then skips every overdue head gap. */
    method Expire(now: u64)
      returns (delivered: seq<(Key, Packets)>, expired: nat, gaps: nat, skipped: nat, ghost steps: seq<Op>)
      requires Valid()
      modifies this
      ensures Valid() && trace == old(trace) + [Purge(now)] + steps + SkipsOf(delivered, now)
      ensures expired == |steps| && AllIdle(steps, now)
      ensures SurvivesByActivity(old(flows), flows, limits, now)
      ensures forall k :: k in flows ==> flows[k] == Settled(old(flows)[k], limits, now)
      ensures forall d :: d in delivered ==> Released(old(flows), limits, now, d.0, d.1)
      ensures InVisitOrder(KeysOf(delivered)) && VisitsEach(KeysOf(delivered), flows.Keys)
      ensures GapsGoByClass(old(flows), flows, limits, now)
      ensures gaps == Minus(metrics[GapsSkipped], old(metrics)[GapsSkipped])
      ensures skipped == Minus(metrics[PacketsSkipped], old(metrics)[PacketsSkipped])
      ensures (forall k :: k in flows ==> NoneOverdue(flows[k], limits, now))
              <==> (forall k :: k in flows ==> DeadlineOrdered(old(flows)[k], limits, now))
    {
      ghost var before := flows;
      var gapsBefore, skippedBefore := metrics[GapsSkipped], metrics[PacketsSkipped];
      ValidIsSessionValid();
      PurgeTombstones(now);
      expired, steps := ExpireIdle(now);
      delivered := SkipEverywhere(now);
      gaps := Minus(metrics[GapsSkipped], gapsBefore);
      skipped := Minus(metrics[PacketsSkipped], skippedBefore);
      DeadlinesKeptIffOrdered(before, flows, limits, now);
      SettlingGoesByClass(before, flows, limits, now);
      IdleOnesGo(before, flows, limits, now);
    }
  }
}
