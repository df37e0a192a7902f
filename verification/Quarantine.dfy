/**
  The bounded quarantine of recently detached path identifiers: a map from
  identifier to expiry time beside a queue of the same identifiers, oldest first.
*/
module Quarantine {
  import opened Prelude

  datatype Tombs = Tombs(live: map<u16, u64>, order: seq<u16>, expired: u64, evicted: u64)

  /** The front entry leaves queue and map, if it is still in the map, and is counted as expired. */
  function ExpireFront(q: Tombs): Tombs
    requires q.order != []
  {
    if q.order[0] !in q.live then q.(order := q.order[1..])
    else q.(live := q.live - {q.order[0]}, order := q.order[1..], expired := Saturate(q.expired + 1))
  }

  /** Expiry from the front of the queue only. */
  function PruneTombs(q: Tombs, now: u64): Tombs
    decreases |q.order|
  {
    if q.order == [] || (q.order[0] in q.live && q.live[q.order[0]] > now) then q
    else PruneTombs(ExpireFront(q), now)
  }

  /** The front entry leaves queue and map, if it is still in the map, and is counted as evicted. */
  function EvictFront(q: Tombs): Tombs
    requires q.order != []
  {
    if q.order[0] !in q.live then q.(order := q.order[1..])
    else q.(live := q.live - {q.order[0]}, order := q.order[1..], evicted := Saturate(q.evicted + 1))
  }

  /** Makes room in a full quarantine by dropping its oldest entries. */
  function Evict(q: Tombs, capacity: nat): Tombs
    decreases |q.order|
  {
    if |q.live| < capacity || q.order == [] then q else Evict(EvictFront(q), capacity)
  }

  function Entomb(q: Tombs, capacity: nat, id: u16, expiresAt: u64): Tombs {
    var e := Evict(q, capacity);
    e.(live := e.live[id := expiresAt], order := e.order + [id])
  }

  // ---------------------------------------------------------------------
  // Queue and map agree
  // ---------------------------------------------------------------------

  ghost function Elements(order: seq<u16>): set<u16> {
    if order == [] then {} else {order[0]} + Elements(order[1..])
  }

  ghost predicate Distinct(order: seq<u16>) {
    order == [] || (order[0] !in Elements(order[1..]) && Distinct(order[1..]))
  }

  /** The queue is a duplicate-free listing of the quarantined identifiers. */
  ghost predicate QueueListsMap(q: Tombs) {
    Distinct(q.order) && q.live.Keys == Elements(q.order)
  }

  /** Everything that ever entered: still live, expired, or evicted. */
  function Accounted(q: Tombs): nat {
    |q.live| + q.expired + q.evicted
  }

  /** Taking the front entry out keeps queue and map in step. */
  lemma FrontKeepsAgreement(q: Tombs)
    requires QueueListsMap(q) && q.order != []
    ensures QueueListsMap(ExpireFront(q)) && |ExpireFront(q).live| == |q.live| - 1
    ensures QueueListsMap(EvictFront(q)) && |EvictFront(q).live| == |q.live| - 1
  {
    assert (q.live - {q.order[0]}).Keys == q.live.Keys - {q.order[0]};
  }

  /** What a prune leaves was there before, and it leaves everything unexpired. */
  ghost predicate PrunedSoundly(q: Tombs, t: Tombs, now: u64) {
    && (forall id :: id in t.live ==> id in q.live && t.live[id] == q.live[id])
    && (forall id :: id in q.live && q.live[id] > now ==> id in t.live)
  }

  /** Pruning keeps queue and map in step and removes only expired entries. */
  lemma {:induction false} PruneKeepsAgreement(q: Tombs, now: u64)
    requires QueueListsMap(q)
    ensures QueueListsMap(PruneTombs(q, now))
    ensures |PruneTombs(q, now).live| <= |q.live|
    ensures PrunedSoundly(q, PruneTombs(q, now), now)
    decreases |q.order|
  {
    if q.order != [] && q.live[q.order[0]] <= now {
      FrontKeepsAgreement(q);
      PruneKeepsAgreement(ExpireFront(q), now);
    }
  }

  /** Every entry that pruning removes is counted as expired. */
  lemma {:induction false} PruneAccounts(q: Tombs, now: u64)
    requires QueueListsMap(q) && Accounted(q) <= U64_MAX
    ensures Accounted(PruneTombs(q, now)) == Accounted(q)
    decreases |q.order|
  {
    if q.order != [] && q.live[q.order[0]] <= now {
      FrontKeepsAgreement(q);
      PruneAccounts(ExpireFront(q), now);
    }
  }

  lemma {:induction false} ElementsSnoc(order: seq<u16>, id: u16)
    ensures Elements(order + [id]) == Elements(order) + {id}
    ensures Distinct(order) && id !in Elements(order) ==> Distinct(order + [id])
  {
    if order == [] {
      assert ([] + [id])[1..] == [];
    } else {
      assert (order + [id])[1..] == order[1..] + [id];
      ElementsSnoc(order[1..], id);
    }
  }

  /** A quarantine within its capacity is cut back by at most one entry. */
  lemma EvictDropsAtMostOne(q: Tombs, capacity: nat)
    requires QueueListsMap(q) && |q.live| <= capacity && capacity != 0
    ensures |q.live| < capacity ==> Evict(q, capacity) == q
    ensures |q.live| == capacity ==>
              q.order != [] && Evict(q, capacity) == EvictFront(q)
    ensures QueueListsMap(Evict(q, capacity)) && |Evict(q, capacity).live| < capacity
    ensures Accounted(q) <= U64_MAX ==> Accounted(Evict(q, capacity)) == Accounted(q)
  {
    if |q.live| == capacity {
      FrontKeepsAgreement(q);
    }
  }

  // ---------------------------------------------------------------------
  // How long an entry stays
  // ---------------------------------------------------------------------

  /** `id` is quarantined until `expiresAt`, with at most `behind` later entries. */
  ghost predicate StaysBehind(q: Tombs, id: u16, expiresAt: u64, behind: nat) {
    && id in q.live && q.live[id] == expiresAt
    && exists k :: 0 <= k < |q.order| && q.order[k] == id && |q.order| - 1 - k <= behind
  }

  /** A prune before its expiry leaves an entry and everything behind it. */
  lemma {:induction false} PruneLeavesUnexpired(q: Tombs, now: u64, id: u16, expiresAt: u64, behind: nat)
    requires QueueListsMap(q) && StaysBehind(q, id, expiresAt, behind) && now < expiresAt
    ensures StaysBehind(PruneTombs(q, now), id, expiresAt, behind)
    decreases |q.order|
  {
    if q.live[q.order[0]] <= now {
      FrontKeepsAgreement(q);
      FrontLeavesBehind(q, id, expiresAt, behind);
      PruneLeavesUnexpired(ExpireFront(q), now, id, expiresAt, behind);
    }
  }

  /** Taking another entry off the front leaves this one where it is. */
  lemma FrontLeavesBehind(q: Tombs, id: u16, expiresAt: u64, behind: nat)
    requires QueueListsMap(q) && StaysBehind(q, id, expiresAt, behind) && q.order[0] != id
    ensures StaysBehind(ExpireFront(q), id, expiresAt, behind)
    ensures StaysBehind(EvictFront(q), id, expiresAt, behind)
  {
    var k :| 0 <= k < |q.order| && q.order[k] == id && |q.order| - 1 - k <= behind;
    assert q.order[1..][k - 1] == id;
  }

  lemma {:induction false} QueueCountsMap(order: seq<u16>)
    requires Distinct(order)
    ensures |Elements(order)| == |order|
  {
    if order != [] {
      QueueCountsMap(order[1..]);
    }
  }

  lemma {:induction false} ElementAt(order: seq<u16>, k: nat)
    requires k < |order|
    ensures order[k] in Elements(order)
  {
    if k > 0 {
      ElementAt(order[1..], k - 1);
    }
  }

  /** One more entry pushes this one out only when the quarantine is full of later ones. */
  lemma EntombLeavesBehind(q: Tombs, capacity: nat, other: u16, otherExpiry: u64, id: u16, expiresAt: u64, behind: nat)
    requires QueueListsMap(q) && |q.live| <= capacity && other !in q.live
    requires StaysBehind(q, id, expiresAt, behind) && behind + 1 < capacity
    ensures StaysBehind(Entomb(q, capacity, other, otherExpiry), id, expiresAt, behind + 1)
  {
    EvictDropsAtMostOne(q, capacity);
    QueueCountsMap(q.order);
    if |q.live| == capacity {
      FrontIsNotLast(q, id, expiresAt, behind);
      FrontLeavesBehind(q, id, expiresAt, behind);
    }
    var e := Evict(q, capacity);
    var k :| 0 <= k < |e.order| && e.order[k] == id && |e.order| - 1 - k <= behind;
    assert (e.order + [other])[k] == id;
  }

  /** With more entries than `behind + 1`, the front one is another. */
  lemma FrontIsNotLast(q: Tombs, id: u16, expiresAt: u64, behind: nat)
    requires QueueListsMap(q) && StaysBehind(q, id, expiresAt, behind) && behind + 1 < |q.order|
    ensures q.order[0] != id
  {
    var k :| 0 <= k < |q.order| && q.order[k] == id && |q.order| - 1 - k <= behind;
    ElementAt(q.order[1..], k - 1);
  }

  /** A new entry keeps queue and map in step and is accounted for once. */
  lemma EntombKeepsAgreement(q: Tombs, capacity: nat, id: u16, expiresAt: u64)
    requires QueueListsMap(q) && |q.live| <= capacity && capacity != 0 && id !in q.live
    ensures var t := Entomb(q, capacity, id, expiresAt);
            && QueueListsMap(t)
            && id in t.live && t.live.Keys <= q.live.Keys + {id}
            && |t.live| <= capacity
            && (Accounted(q) <= U64_MAX ==> Accounted(t) == Accounted(q) + 1)
  {
    EvictDropsAtMostOne(q, capacity);
    var e := Evict(q, capacity);
    assert Entomb(q, capacity, id, expiresAt).live.Keys == e.live.Keys + {id};
    ElementsSnoc(e.order, id);
  }

  // ---------------------------------------------------------------------
  // When the front-only prune is exact
  // ---------------------------------------------------------------------

  /** Expiry times do not decrease along the queue. */
  ghost predicate ExpirySorted(order: seq<u16>, live: map<u16, u64>)
    requires Elements(order) <= live.Keys
  {
    order == [] ||
    ((forall id :: id in Elements(order[1..]) ==> live[order[0]] <= live[id]) && ExpirySorted(order[1..], live))
  }

  /** The prune leaves the unexpired entries and no other. */
  ghost predicate PrunesExactly(q: Tombs, now: u64) {
    PruneTombs(q, now).live == map id | id in q.live && q.live[id] > now :: q.live[id]
  }

  lemma {:induction false} SortedIgnoresOthers(order: seq<u16>, a: map<u16, u64>, b: map<u16, u64>)
    requires Elements(order) <= a.Keys && Elements(order) <= b.Keys
    requires forall id :: id in Elements(order) ==> a[id] == b[id]
    ensures ExpirySorted(order, a) == ExpirySorted(order, b)
  {
    if order != [] {
      SortedIgnoresOthers(order[1..], a, b);
    }
  }

  lemma {:induction false} SortedPrunesExactly(q: Tombs, now: u64)
    requires QueueListsMap(q) && ExpirySorted(q.order, q.live)
    ensures PrunesExactly(q, now)
    decreases |q.order|
  {
    if q.order != [] && q.live[q.order[0]] <= now {
      var t := ExpireFront(q);
      FrontKeepsAgreement(q);
      SortedIgnoresOthers(t.order, q.live, t.live);
      SortedPrunesExactly(t, now);
    }
  }

  /** A queue out of expiry order keeps some expired entry at some time. */
  lemma {:induction false} UnsortedKeepsExpired(q: Tombs) returns (now: u64, id: u16)
    requires QueueListsMap(q) && !ExpirySorted(q.order, q.live)
    ensures id in q.live && q.live[id] <= now && id in PruneTombs(q, now).live
    decreases |q.order|
  {
    if tail :| tail in Elements(q.order[1..]) && q.live[tail] < q.live[q.order[0]] {
      now, id := q.live[tail], tail;
    } else {
      var t := ExpireFront(q);
      FrontKeepsAgreement(q);
      SortedIgnoresOthers(t.order, q.live, t.live);
      now, id := UnsortedKeepsExpired(t);
    }
  }

  /** The front-only prune is exact at every time if and only if the queue is in expiry order. */
  lemma PruneExactIffSorted(q: Tombs)
    requires QueueListsMap(q)
    ensures (forall now: u64 :: PrunesExactly(q, now)) <==> ExpirySorted(q.order, q.live)
  {
    if ExpirySorted(q.order, q.live) {
      forall now: u64 ensures PrunesExactly(q, now) {
        SortedPrunesExactly(q, now);
      }
    } else {
      var now, id := UnsortedKeepsExpired(q);
      assert !PrunesExactly(q, now);
    }
  }

  /** In expiry order, with no entry outliving `bound`. */
  ghost predicate SortedUpTo(q: Tombs, bound: u64) {
    && QueueListsMap(q)
    && ExpirySorted(q.order, q.live)
    && forall id :: id in q.live ==> q.live[id] <= bound
  }

  lemma {:induction false} PruneKeepsSorted(q: Tombs, now: u64)
    requires QueueListsMap(q) && ExpirySorted(q.order, q.live)
    ensures QueueListsMap(PruneTombs(q, now)) && ExpirySorted(PruneTombs(q, now).order, PruneTombs(q, now).live)
    decreases |q.order|
  {
    if q.order != [] && q.live[q.order[0]] <= now {
      var t := ExpireFront(q);
      FrontKeepsAgreement(q);
      SortedIgnoresOthers(t.order, q.live, t.live);
      PruneKeepsSorted(t, now);
    }
  }

  lemma PruneKeepsSortedUpTo(q: Tombs, now: u64, bound: u64)
    requires SortedUpTo(q, bound)
    ensures SortedUpTo(PruneTombs(q, now), bound)
  {
    PruneKeepsSorted(q, now);
    PruneKeepsAgreement(q, now);
  }

  lemma {:induction false} SortedSnoc(order: seq<u16>, live: map<u16, u64>, id: u16)
    requires Elements(order) <= live.Keys && id in live
    requires ExpirySorted(order, live)
    requires forall other :: other in Elements(order) ==> live[other] <= live[id]
    ensures Elements(order + [id]) <= live.Keys && ExpirySorted(order + [id], live)
  {
    ElementsSnoc(order, id);
    if order == [] {
      assert (order + [id])[1..] == [];
    } else {
      assert (order + [id])[1..] == order[1..] + [id];
      ElementsSnoc(order[1..], id);
      SortedSnoc(order[1..], live, id);
    }
  }

  lemma EntombKeepsSorted(q: Tombs, capacity: nat, id: u16, bound: u64, expiresAt: u64)
    requires SortedUpTo(q, bound) && |q.live| <= capacity && capacity != 0 && id !in q.live
    requires bound <= expiresAt
    ensures SortedUpTo(Entomb(q, capacity, id, expiresAt), expiresAt)
  {
    EvictDropsAtMostOne(q, capacity);
    EntombKeepsAgreement(q, capacity, id, expiresAt);
    var e := Evict(q, capacity);
    var t := Entomb(q, capacity, id, expiresAt);
    if e != q {
      SortedIgnoresOthers(e.order, q.live, e.live);
    }
    SortedIgnoresOthers(e.order, e.live, t.live);
    SortedSnoc(e.order, t.live, id);
  }
}
