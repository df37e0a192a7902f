/**
  The bounded in-order reassembly buffer: a duplicate table indexed by sequence
  modulo capacity beside a bounded map of held payloads.
*/
module Reorder {
  import opened Prelude

  /** Sequence numbers wrap at 2^64. */
  function Next(s: u64): u64 {
    if s == U64_MAX then 0 else s + 1
  }

  function AtLeastOne(capacity: nat): nat {
    if capacity == 0 then 1 else capacity
  }

  // ---------------------------------------------------------------------
  // Duplicate table
  // ---------------------------------------------------------------------

  datatype Window = Window(seen: seq<Option<u64>>, lastWritten: u64)

  /** Marks the slot of `s`; answers whether the slot did not already name `s`. */
  function Accept(w: Window, s: u64): (Window, bool)
    requires w.seen != []
  {
    var slot := s % |w.seen|;
    if w.seen[slot] == Some(s) then (w, false)
    else (Window(w.seen[slot := Some(s)], if s > w.lastWritten then s else w.lastWritten), true)
  }

  class ReorderWindow {
    const seen: array<Option<u64>>
    var lastWritten: u64

    ghost function View(): Window
      reads this, seen
    {
      Window(seen[..], lastWritten)
    }

    constructor (capacity: nat)
      ensures fresh(seen) && seen.Length == AtLeastOne(capacity)
      ensures View() == Window(seq(AtLeastOne(capacity), _ => None), 0)
    {
      seen := new Option<u64>[AtLeastOne(capacity)](_ => None);
      lastWritten := 0;
    }

    method Record(s: u64) returns (isNew: bool)
      requires seen.Length > 0
      modifies this, seen
      ensures (View(), isNew) == Accept(old(View()), s)
    {
      var slot := s % seen.Length;
      if seen[slot] == Some(s) {
        return false;
      }
      seen[slot] := Some(s);
      if s > lastWritten {
        lastWritten := s;
      }
      isNew := true;
    }
  }

  // ---------------------------------------------------------------------
  // Buffer
  // ---------------------------------------------------------------------

  datatype Buffer<P> = Buffer(window: Window, capacity: nat, next: u64, held: map<u64, P>)

  datatype Outcome<P> = Outcome(delivered: seq<(u64, P)>, dropped: bool, buffered: bool)

  function Empty<P>(capacity: nat): Buffer<P> {
    var c := AtLeastOne(capacity);
    Buffer(Window(seq(c, _ => None), 0), c, 0, map[])
  }

  /** Moves the head past `next` and past everything held contiguously after it. */
  function Drain<P>(next: u64, held: map<u64, P>): (u64, map<u64, P>, seq<(u64, P)>)
    decreases |held|
  {
    var n := Next(next);
    if n in held then
      assert (held - {n}).Keys == held.Keys - {n};
      var (n', held', rest) := Drain(n, held - {n});
      (n', held', [(n, held[n])] + rest)
    else (n, held, [])
  }

  predicate FarAhead<P>(b: Buffer<P>, s: u64) {
    s > b.next + b.capacity
  }

  function Deliver<P>(b0: Buffer<P>, s: u64, payload: P): (Buffer<P>, Outcome<P>)
    requires b0.window.seen != []
  {
    var (w, isNew) := Accept(b0.window, s);
    var b := b0.(window := w);
    if !isNew || s < b.next || FarAhead(b, s) then (b, Outcome([], true, false))
    else if s != b.next then
      if |b.held| >= b.capacity then (b, Outcome([], true, false))
      else (b.(held := b.held[s := payload]), Outcome([], false, true))
    else
      var (n, held, rest) := Drain(b.next, b.held);
      (b.(next := n, held := held), Outcome([(s, payload)] + rest, false, false))
  }

  class ReorderBuffer<P> {
    const dedup: ReorderWindow
    const capacity: nat
    var nextExpected: u64
    var buffered: map<u64, P>

    ghost function View(): Buffer<P>
      reads this, dedup, dedup.seen
    {
      Buffer(dedup.View(), capacity, nextExpected, buffered)
    }

    constructor (capacity: nat)
      ensures fresh(dedup) && fresh(dedup.seen) && dedup.seen.Length > 0
      ensures View() == Empty(capacity)
    {
      dedup := new ReorderWindow(capacity);
      this.capacity := AtLeastOne(capacity);
      nextExpected := 0;
      buffered := map[];
    }

    method Feed(s: u64, payload: P) returns (o: Outcome<P>)
      requires dedup.seen.Length > 0
      modifies this, dedup, dedup.seen
      ensures (View(), o) == Deliver(old(View()), s, payload)
    {
      var isNew := dedup.Record(s);
      if !isNew {
        return Outcome([], true, false);
      }
      var farAhead := (if s > nextExpected then s - nextExpected else 0) > capacity;
      if s < nextExpected {
        return Outcome([], true, false);
      }
      if farAhead {
        return Outcome([], true, false);
      }
      if s != nextExpected {
        if |buffered| >= capacity {
          return Outcome([], true, false);
        }
        buffered := buffered[s := payload];
        return Outcome([], false, true);
      }
      var delivered := DrainContiguous(s, payload);
      o := Outcome(delivered, false, false);
    }

    method DrainContiguous(s: u64, payload: P) returns (delivered: seq<(u64, P)>)
      modifies `nextExpected, `buffered
      ensures var (n, held, rest) := Drain(old(nextExpected), old(buffered));
              nextExpected == n && buffered == held && delivered == [(s, payload)] + rest
    {
      ghost var (n, held, rest) := Drain(nextExpected, buffered);
      delivered := [(s, payload)];
      while true
        invariant var (n', held', rest') := Drain(nextExpected, buffered);
                  n' == n && held' == held && delivered + rest' == [(s, payload)] + rest
        decreases |buffered|
      {
        nextExpected := Next(nextExpected);
        if nextExpected !in buffered {
          break;
        }
        assert (buffered - {nextExpected}).Keys == buffered.Keys - {nextExpected};
        delivered := delivered + [(nextExpected, buffered[nextExpected])];
        buffered := buffered - {nextExpected};
      }
    }
  }

  // ---------------------------------------------------------------------
  // Runs
  // ---------------------------------------------------------------------

  type Arrivals<P> = seq<(u64, P)>

  function After<P>(capacity: nat, arrivals: Arrivals<P>): (b: Buffer<P>)
    ensures |b.window.seen| == b.capacity == AtLeastOne(capacity)
  {
    if arrivals == [] then Empty(capacity)
    else
      var last := arrivals[|arrivals| - 1];
      Deliver(After(capacity, arrivals[..|arrivals| - 1]), last.0, last.1).0
  }

  /** Everything passed upstream over a run. */
  function Output<P>(capacity: nat, arrivals: Arrivals<P>): seq<(u64, P)> {
    if arrivals == [] then []
    else
      var before := arrivals[..|arrivals| - 1];
      var last := arrivals[|arrivals| - 1];
      Output(capacity, before) + Deliver(After(capacity, before), last.0, last.1).1.delivered
  }

  function Arrived<P>(arrivals: Arrivals<P>): set<u64> {
    set i | 0 <= i < |arrivals| :: arrivals[i].0
  }

  /** The sequence space is not used up. */
  predicate BelowMax<P>(arrivals: Arrivals<P>) {
    forall i :: 0 <= i < |arrivals| ==> arrivals[i].0 < U64_MAX
  }

  /** Held sequences lie in the window ahead of the head. */
  ghost predicate Windowed<P>(b: Buffer<P>) {
    forall k :: k in b.held ==> b.next < k <= b.next + b.capacity && k < U64_MAX
  }

  // --- draining ---------------------------------------------------------

  /** Draining delivers exactly the contiguous run of held payloads after the head, and stops at a gap. */
  lemma {:induction false} DrainIsContiguous<P>(next: u64, held: map<u64, P>)
    requires next < U64_MAX
    requires forall k :: k in held ==> next < k < U64_MAX
    ensures var (n, held', rest) := Drain(next, held);
            && n == next + 1 + |rest|
            && n !in held'
            && (forall i :: 0 <= i < |rest| ==>
                  rest[i].0 == next + 1 + i && rest[i].0 in held && rest[i].1 == held[rest[i].0])
            && (forall k :: k in held' <==> k in held && k >= n)
            && (forall k :: k in held' ==> held'[k] == held[k])
            && (forall k :: next < k < n ==> k in held)
    decreases |held|
  {
    var m := Next(next);
    if m in held {
      var smaller := held - {m};
      assert smaller.Keys == held.Keys - {m};
      DrainIsContiguous(m, smaller);
      var (n, held', rest) := Drain(m, smaller);
      assert Drain(next, held) == (n, held', [(m, held[m])] + rest);
      forall i | 0 <= i < |rest| + 1
        ensures var all := [(m, held[m])] + rest;
                all[i].0 == next + 1 + i && all[i].0 in held && all[i].1 == held[all[i].0]
      {
        if i > 0 {
          assert ([(m, held[m])] + rest)[i] == rest[i - 1];
        }
      }
      forall k: u64 | next < k < n ensures k in held {
        assert k == m || k in smaller;
      }
    }
  }

  lemma DeliverKeepsWindowed<P>(b: Buffer<P>, s: u64, payload: P)
    requires b.window.seen != [] && Windowed(b) && s < U64_MAX
    ensures Windowed(Deliver(b, s, payload).0)
  {
    if s == b.next {
      DrainIsContiguous(b.next, b.held);
    }
  }

  // --- the delivered stream ----------------------------------------------

  ghost predicate InOrder<P>(out: seq<(u64, P)>, arrivals: Arrivals<P>) {
    forall i :: 0 <= i < |out| ==> out[i].0 == i && out[i] in arrivals
  }

  ghost predicate HeldArrived<P>(held: map<u64, P>, arrivals: Arrivals<P>) {
    forall k :: k in held ==> (k, held[k]) in arrivals
  }

  /** One arrival delivers consecutive sequences starting at the head, each with a payload held or just arrived. */
  lemma DeliverIsContiguous<P>(b: Buffer<P>, s: u64, payload: P)
    requires b.window.seen != [] && Windowed(b) && s < U64_MAX
    ensures var (t, o) := Deliver(b, s, payload);
            && t.next == b.next + |o.delivered|
            && (forall i :: 0 <= i < |o.delivered| ==>
                  && o.delivered[i].0 == b.next + i
                  && (o.delivered[i] == (s, payload)
                      || (o.delivered[i].0 in b.held && o.delivered[i].1 == b.held[o.delivered[i].0])))
            && (forall k :: k in t.held ==> (k, t.held[k]) == (s, payload) || (k in b.held && t.held[k] == b.held[k]))
  {
    if s == b.next {
      DrainIsContiguous(b.next, b.held);
    }
  }

  /**
    For arbitrary arrivals the stream delivered over a whole run is exactly
    0, 1, 2, ... in order, each payload being one that arrived under that sequence;
    held sequences stay in the window.
  */
  lemma {:induction false} StreamIsInOrder<P>(capacity: nat, arrivals: Arrivals<P>)
    requires BelowMax(arrivals)
    ensures Windowed(After(capacity, arrivals))
    ensures |Output(capacity, arrivals)| == After(capacity, arrivals).next
    ensures InOrder(Output(capacity, arrivals), arrivals)
    ensures HeldArrived(After(capacity, arrivals).held, arrivals)
  {
    if arrivals != [] {
      var before := arrivals[..|arrivals| - 1];
      var last := arrivals[|arrivals| - 1];
      var b := After(capacity, before);
      StreamIsInOrder(capacity, before);
      DeliverKeepsWindowed(b, last.0, last.1);
      DeliverIsContiguous(b, last.0, last.1);
      assert forall a :: a in before ==> a in arrivals;
      assert last in arrivals && (last.0, last.1) == last;
    }
  }

  /** When every sequence is always sent with one payload, that payload is what is delivered. */
  lemma ConsistentContentIsDelivered<P>(capacity: nat, arrivals: Arrivals<P>, sent: u64 -> P)
    requires BelowMax(arrivals)
    requires forall i :: 0 <= i < |arrivals| ==> arrivals[i].1 == sent(arrivals[i].0)
    ensures var out := Output(capacity, arrivals);
            forall i :: 0 <= i < |out| ==> out[i].0 == i && out[i].1 == sent(out[i].0)
  {
    StreamIsInOrder(capacity, arrivals);
  }

  // --- no loss inside the window -------------------------------------------

  ghost function Span(from: u64, n: nat): (keys: set<u64>)
    requires from + n <= U64_MAX
    ensures forall k: u64 :: k in keys <==> from < k <= from + n
    ensures |keys| == n
  {
    if n == 0 then {} else Span(from, n - 1) + {from + n}
  }

  /** Pigeonhole: a full window already holds every sequence it could hold. */
  lemma FullWindowHoldsAll<P>(b: Buffer<P>, s: u64)
    requires Windowed(b) && |b.held| >= b.capacity
    requires b.next < s <= b.next + b.capacity && s < U64_MAX
    ensures s in b.held
  {
    var n := if b.next + b.capacity < U64_MAX then b.capacity else U64_MAX - 1 - b.next;
    var span := Span(b.next, n);
    if s !in b.held {
      assert b.held.Keys <= span - {s};
      SubsetCount(b.held.Keys, span - {s});
      assert false;
    }
  }

  /** The arrived sequences are the delivered prefix plus the held ones. */
  ghost predicate Lossless<P>(b: Buffer<P>, arrived: set<u64>) {
    forall k: u64 :: k in arrived <==> k < b.next || k in b.held
  }

  /** Every slot of the duplicate table names a sequence that arrived. */
  ghost predicate SlotsArrived(w: Window, arrived: set<u64>) {
    forall i :: 0 <= i < |w.seen| && w.seen[i].Some? ==> w.seen[i].value in arrived
  }

  lemma DeliverKeepsLossless<P>(b: Buffer<P>, s: u64, payload: P, arrived: set<u64>)
    requires b.window.seen != [] && Windowed(b) && s < U64_MAX && !FarAhead(b, s)
    requires Lossless(b, arrived) && SlotsArrived(b.window, arrived)
    ensures Lossless(Deliver(b, s, payload).0, arrived + {s})
  {
    if s == b.next {
      DrainIsContiguous(b.next, b.held);
    } else if s > b.next && |b.held| >= b.capacity {
      FullWindowHoldsAll(b, s);
    }
  }

  lemma {:induction false} SlotsHaveArrived<P>(capacity: nat, arrivals: Arrivals<P>)
    ensures SlotsArrived(After(capacity, arrivals).window, Arrived(arrivals))
  {
    if arrivals != [] {
      var before := arrivals[..|arrivals| - 1];
      SlotsHaveArrived(capacity, before);
      ArrivedSnoc(arrivals);
    }
  }

  lemma ArrivedSnoc<P>(arrivals: Arrivals<P>)
    requires arrivals != []
    ensures Arrived(arrivals) == Arrived(arrivals[..|arrivals| - 1]) + {arrivals[|arrivals| - 1].0}
  {
    var before := arrivals[..|arrivals| - 1];
    assert forall i :: 0 <= i < |before| ==> before[i] == arrivals[i];
  }

  /** No arrival is more than the capacity ahead of the head at its time. */
  ghost predicate NeverFarAhead<P>(capacity: nat, arrivals: Arrivals<P>) {
    forall i :: 0 <= i < |arrivals| ==> !FarAhead(After(capacity, arrivals[..i]), arrivals[i].0)
  }

  lemma {:induction false} NeverFarAheadIsLossless<P>(capacity: nat, arrivals: Arrivals<P>)
    requires BelowMax(arrivals) && NeverFarAhead(capacity, arrivals)
    ensures Lossless(After(capacity, arrivals), Arrived(arrivals))
  {
    if arrivals != [] {
      var before := arrivals[..|arrivals| - 1];
      var last := arrivals[|arrivals| - 1];
      assert forall i :: 0 <= i < |before| ==> before[..i] == arrivals[..i] && before[i] == arrivals[i];
      NeverFarAheadIsLossless(capacity, before);
      StreamIsInOrder(capacity, before);
      SlotsHaveArrived(capacity, before);
      ArrivedSnoc(arrivals);
      DeliverKeepsLossless(After(capacity, before), last.0, last.1, Arrived(before));
    }
  }

  lemma FarAheadIsLost<P>(capacity: nat, arrivals: Arrivals<P>, i: nat)
    requires BelowMax(arrivals) && i < |arrivals|
    requires FarAhead(After(capacity, arrivals[..i]), arrivals[i].0)
    ensures !Lossless(After(capacity, arrivals[..i + 1]), Arrived(arrivals[..i + 1]))
  {
    var upTo := arrivals[..i + 1];
    assert upTo[..i] == arrivals[..i];
    StreamIsInOrder(capacity, upTo[..i]);
    ArrivedSnoc(upTo);
    assert arrivals[i].0 in Arrived(upTo);
  }

  /**
    The buffer refines the set of arrived sequences at every point of a run if and
    only if no arrival of the run was beyond the window when it came.
  */
  lemma LosslessIffNeverFarAhead<P>(capacity: nat, arrivals: Arrivals<P>)
    requires BelowMax(arrivals)
    ensures (forall n :: 0 <= n <= |arrivals| ==> Lossless(After(capacity, arrivals[..n]), Arrived(arrivals[..n])))
            <==> NeverFarAhead(capacity, arrivals)
  {
    if NeverFarAhead(capacity, arrivals) {
      forall n | 0 <= n <= |arrivals|
        ensures Lossless(After(capacity, arrivals[..n]), Arrived(arrivals[..n]))
      {
        assert forall i :: 0 <= i < n ==> arrivals[..n][..i] == arrivals[..i];
        NeverFarAheadIsLossless(capacity, arrivals[..n]);
      }
    } else {
      var i :| 0 <= i < |arrivals| && FarAhead(After(capacity, arrivals[..i]), arrivals[i].0);
      FarAheadIsLost(capacity, arrivals, i);
    }
  }

  /** In such a run the head is the least sequence never seen. */
  lemma HeadIsLeastUnseen<P>(capacity: nat, arrivals: Arrivals<P>)
    requires BelowMax(arrivals) && NeverFarAhead(capacity, arrivals)
    ensures var b := After(capacity, arrivals);
            b.next !in Arrived(arrivals) && forall k: u64 :: k < b.next ==> k in Arrived(arrivals)
  {
    NeverFarAheadIsLossless(capacity, arrivals);
    StreamIsInOrder(capacity, arrivals);
  }

  // --- which expected arrivals are refused ------------------------------------

  /** The last arrival whose sequence falls into `slot` of a table of `c` slots. */
  function LastIn<P>(arrivals: Arrivals<P>, c: nat, slot: nat): Option<u64>
    requires c > 0
  {
    if arrivals == [] then None
    else
      var last := arrivals[|arrivals| - 1];
      if last.0 % c == slot then Some(last.0) else LastIn(arrivals[..|arrivals| - 1], c, slot)
  }

  lemma DeliverMarksSlot<P>(b: Buffer<P>, s: u64, payload: P, slot: nat)
    requires slot < |b.window.seen|
    ensures var seen := Deliver(b, s, payload).0.window.seen;
            |seen| == |b.window.seen| && seen[slot] == if s % |seen| == slot then Some(s) else b.window.seen[slot]
  {
  }

  /** Every slot of the duplicate table names the last arrival that fell into it. */
  lemma {:induction false} SlotsNameLast<P>(capacity: nat, arrivals: Arrivals<P>, slot: nat)
    requires slot < AtLeastOne(capacity)
    ensures After(capacity, arrivals).window.seen[slot] == LastIn(arrivals, AtLeastOne(capacity), slot)
  {
    if arrivals != [] {
      var before := arrivals[..|arrivals| - 1];
      var last := arrivals[|arrivals| - 1];
      SlotsNameLast(capacity, before, slot);
      DeliverMarksSlot(After(capacity, before), last.0, last.1, slot);
    }
  }

  /** The sequence lies in the window at or ahead of the head, and is not held. */
  predicate Expected<P>(b: Buffer<P>, s: u64) {
    b.next <= s <= b.next + b.capacity && s !in b.held
  }

  /**
    An expected sequence is refused if and only if the last arrival that fell into its
    slot was that sequence itself.
  */
  lemma RefusedIffLastInSlot<P>(capacity: nat, arrivals: Arrivals<P>, s: u64, payload: P)
    requires BelowMax(arrivals) && s < U64_MAX && Expected(After(capacity, arrivals), s)
    ensures Deliver(After(capacity, arrivals), s, payload).1.dropped
            <==> LastIn(arrivals, AtLeastOne(capacity), s % AtLeastOne(capacity)) == Some(s)
  {
    var b := After(capacity, arrivals);
    SlotsNameLast(capacity, arrivals, s % AtLeastOne(capacity));
    StreamIsInOrder(capacity, arrivals);
    if s > b.next && |b.held| >= b.capacity {
      FullWindowHoldsAll(b, s);
    }
  }

  /**
    What any arrival after any run comes to: unless it was itself the last in its slot,
    the head is delivered, what lies at most the capacity ahead is held while there is
    room, and everything else is dropped. Room is short only for what is held already.
  */
  lemma ArrivalComesTo<P>(capacity: nat, arrivals: Arrivals<P>, s: u64, payload: P)
    requires BelowMax(arrivals) && s < U64_MAX
    ensures var b, c := After(capacity, arrivals), if capacity == 0 then 1 else capacity;
            var o := Deliver(b, s, payload).1;
            var renewed := LastIn(arrivals, c, s % c) != Some(s);
            && (o.delivered != [] <==> renewed && s == b.next)
            && (o.delivered != [] ==> o.delivered[0] == (s, payload))
            && (o.buffered <==> renewed && b.next < s <= b.next + c && |b.held| < c)
            && (o.dropped <==> o.delivered == [] && !o.buffered)
            && (b.next < s <= b.next + c && |b.held| >= c ==> s in b.held)
  {
    var b := After(capacity, arrivals);
    SlotsNameLast(capacity, arrivals, s % AtLeastOne(capacity));
    StreamIsInOrder(capacity, arrivals);
    if b.next < s <= b.next + b.capacity && |b.held| >= b.capacity {
      FullWindowHoldsAll(b, s);
    }
  }

  /** The recorded greatest sequence is the greatest that has arrived. */
  lemma {:induction false} LastWrittenIsGreatest<P>(capacity: nat, arrivals: Arrivals<P>)
    ensures var last := After(capacity, arrivals).window.lastWritten;
            && (forall i :: 0 <= i < |arrivals| ==> arrivals[i].0 <= last)
            && (last == 0 || exists i :: 0 <= i < |arrivals| && arrivals[i].0 == last)
  {
    if arrivals != [] {
      var n := |arrivals| - 1;
      var before, s := arrivals[..n], arrivals[n].0;
      var b := After(capacity, before);
      LastWrittenIsGreatest(capacity, before);
      assert forall i :: 0 <= i < n ==> before[i] == arrivals[i];
      if b.window.seen[s % |b.window.seen|] == Some(s) {
        SlotsHaveArrived(capacity, before);
        assert s in Arrived(before);
      }
      assert After(capacity, arrivals).window.lastWritten
             == if s > b.window.lastWritten then s else b.window.lastWritten;
    }
  }

  /** Every arrival expected at its time is taken. */
  ghost predicate TakesExpected<P>(capacity: nat, arrivals: Arrivals<P>) {
    forall i :: 0 <= i < |arrivals| && Expected(After(capacity, arrivals[..i]), arrivals[i].0) ==>
      !Deliver(After(capacity, arrivals[..i]), arrivals[i].0, arrivals[i].1).1.dropped
  }

  /** No arrival expected at its time is the last before it in its slot. */
  ghost predicate NoneFollowsItself<P>(capacity: nat, arrivals: Arrivals<P>) {
    forall i :: 0 <= i < |arrivals| && Expected(After(capacity, arrivals[..i]), arrivals[i].0) ==>
      LastIn(arrivals[..i], AtLeastOne(capacity), arrivals[i].0 % AtLeastOne(capacity)) != Some(arrivals[i].0)
  }

  lemma TakesExpectedIffNoneFollowsItself<P>(capacity: nat, arrivals: Arrivals<P>)
    requires BelowMax(arrivals)
    ensures TakesExpected(capacity, arrivals) <==> NoneFollowsItself(capacity, arrivals)
  {
    forall i | 0 <= i < |arrivals| && Expected(After(capacity, arrivals[..i]), arrivals[i].0)
      ensures Deliver(After(capacity, arrivals[..i]), arrivals[i].0, arrivals[i].1).1.dropped
              <==>
              LastIn(arrivals[..i], AtLeastOne(capacity), arrivals[i].0 % AtLeastOne(capacity)) == Some(arrivals[i].0)
    {
      RefusedIffLastInSlot(capacity, arrivals[..i], arrivals[i].0, arrivals[i].1);
    }
  }

  /** Delivered, passed over, or held. */
  predicate Taken<P>(b: Buffer<P>, s: u64) {
    s < b.next || s in b.held
  }

  lemma DeliverKeepsTaken<P>(b: Buffer<P>, x: u64, payload: P, s: u64)
    requires b.window.seen != [] && Windowed(b) && x < U64_MAX && Taken(b, s)
    ensures Taken(Deliver(b, x, payload).0, s)
  {
    if x == b.next {
      DrainIsContiguous(b.next, b.held);
    }
  }

  lemma FirstArrivalIsTaken<P>(b: Buffer<P>, s: u64, payload: P)
    requires b.window.seen != [] && Windowed(b) && s < U64_MAX && !FarAhead(b, s)
    requires b.window.seen[s % |b.window.seen|] != Some(s)
    ensures Taken(Deliver(b, s, payload).0, s)
  {
    if s == b.next {
      DrainIsContiguous(b.next, b.held);
    } else if s > b.next && |b.held| >= b.capacity {
      FullWindowHoldsAll(b, s);
    }
  }

  /** A sequence that arrived, and never too far ahead, has been taken. */
  lemma {:induction false} NeverFarIsTaken<P>(capacity: nat, arrivals: Arrivals<P>, s: u64)
    requires BelowMax(arrivals) && s in Arrived(arrivals)
    requires forall i :: 0 <= i < |arrivals| && arrivals[i].0 == s ==> !FarAhead(After(capacity, arrivals[..i]), s)
    ensures Taken(After(capacity, arrivals), s)
  {
    var before := arrivals[..|arrivals| - 1];
    var last := arrivals[|arrivals| - 1];
    var b := After(capacity, before);
    ArrivedSnoc(arrivals);
    StreamIsInOrder(capacity, before);
    if s in Arrived(before) {
      assert forall i :: 0 <= i < |before| ==> before[..i] == arrivals[..i] && before[i] == arrivals[i];
      NeverFarIsTaken(capacity, before, s);
      DeliverKeepsTaken(b, last.0, last.1, s);
    } else {
      SlotsHaveArrived(capacity, before);
      FirstArrivalIsTaken(b, last.0, last.1);
    }
  }

  lemma {:induction false} LastInArrived<P>(arrivals: Arrivals<P>, c: nat, slot: nat)
    requires c > 0 && LastIn(arrivals, c, slot).Some?
    ensures LastIn(arrivals, c, slot).value in Arrived(arrivals)
  {
    ArrivedSnoc(arrivals);
    if arrivals[|arrivals| - 1].0 % c != slot {
      LastInArrived(arrivals[..|arrivals| - 1], c, slot);
    }
  }

  /** An expected sequence is refused only when an earlier copy of it came too far ahead. */
  lemma RefusedWasFarAhead<P>(capacity: nat, arrivals: Arrivals<P>, s: u64, payload: P) returns (i: nat)
    requires BelowMax(arrivals) && s < U64_MAX && Expected(After(capacity, arrivals), s)
    requires Deliver(After(capacity, arrivals), s, payload).1.dropped
    ensures i < |arrivals| && arrivals[i].0 == s && FarAhead(After(capacity, arrivals[..i]), s)
  {
    RefusedIffLastInSlot(capacity, arrivals, s, payload);
    LastInArrived(arrivals, AtLeastOne(capacity), s % AtLeastOne(capacity));
    if forall j :: 0 <= j < |arrivals| && arrivals[j].0 == s ==> !FarAhead(After(capacity, arrivals[..j]), s) {
      NeverFarIsTaken(capacity, arrivals, s);
      assert false;
    }
    i :| 0 <= i < |arrivals| && arrivals[i].0 == s && FarAhead(After(capacity, arrivals[..i]), s);
  }

  /**
    Beyond the window the promise fails: the slot is marked before the window check,
    so with capacity 2 the arrivals 1, 3, 0, 2 leave 3 at the head, and every
    retransmission of 3 is then rejected as a duplicate although 3 was never held.
  */
  lemma FarAheadArrivalBlocksItsRetransmission<P>(p: P)
    ensures var a := [(1, p), (3, p), (0, p), (2, p)];
            var b := After(2, a);
            && b.next == 3 && b.held == map[] && LastIn(a, 2, 1) == Some(3)
            && Expected(b, 3) && Deliver(b, 3, p) == (b, Outcome([], true, false))
  {
    var none: map<u64, P> := map[];
    var empty: Arrivals<P> := [];
    var b2 := Buffer(Window([None, Some(3)], 3), 2, 0, none[1 := p]);
    FarAheadMarksSlot(p, b2);
    HeadsComeIn(p, empty + [(1, p)] + [(3, p)], b2);
    var a := empty + [(1, p)] + [(3, p)] + [(0, p)] + [(2, p)];
    assert a == [(1, p), (3, p), (0, p), (2, p)];
    SlotsNameLast(2, a, 1);
  }

  lemma FarAheadMarksSlot<P>(p: P, b: Buffer<P>)
    requires b == Buffer(Window([None, Some(3)], 3), 2, 0, map[1 := p])
    ensures var empty: Arrivals<P> := []; After(2, empty + [(1, p)] + [(3, p)]) == b
  {
    var empty: Arrivals<P> := [];
    var e: Buffer<P> := Empty(2);
    var b1 := Buffer(Window([None, Some(1)], 1), 2, 0, b.held);
    AfterSnoc(2, empty, (1, p));
    assert e.window.seen[1 := Some(1)] == b1.window.seen && Deliver(e, 1, p).0 == b1;
    AfterSnoc(2, empty + [(1, p)], (3, p));
    assert b1.window.seen[1 := Some(3)] == b.window.seen && Deliver(b1, 3, p).0 == b;
  }

  lemma HeadsComeIn<P>(p: P, a: Arrivals<P>, b: Buffer<P>)
    requires After(2, a) == b == Buffer(Window([None, Some(3)], 3), 2, 0, map[1 := p])
    ensures After(2, a + [(0, p)] + [(2, p)]) == Buffer(Window([Some(2), Some(3)], 3), 2, 3, map[])
  {
    var b3 := Buffer(Window([Some(0), Some(3)], 3), 2, 2, map[]);
    AfterSnoc(2, a, (0, p));
    HeadReleasesOne(p);
    assert b.window.seen[0 := Some(0)] == b3.window.seen && Deliver(b, 0, p).0 == b3;
    AfterSnoc(2, a + [(0, p)], (2, p));
    HeadAlone(b3, p);
    assert b3.window.seen[0 := Some(2)] == [Some(2), Some(3)];
  }

  lemma AfterSnoc<P>(capacity: nat, a: Arrivals<P>, x: (u64, P))
    ensures After(capacity, a + [x]) == Deliver(After(capacity, a), x.0, x.1).0
  {
    assert (a + [x])[..|a|] == a;
  }

  lemma HeadReleasesOne<P>(p: P)
    ensures var none: map<u64, P> := map[]; Drain(0, none[1 := p]) == (2, none, [(1, p)])
  {
    var none: map<u64, P> := map[];
    var held := none[1 := p];
    assert Next(0) in held && held - {Next(0)} == none;
    assert Drain(1, none) == (2, none, []);
    var released: seq<(u64, P)> := [(1, p)];
    assert Drain(0, held) == (2, none, released + []) && released + [] == released;
  }

  // --- first valid wins ------------------------------------------------------

  type Firsts<P> = map<u64, P>

  /** The payload first accepted under each sequence: accepted means held or delivered. */
  function FirstAccepted<P>(capacity: nat, arrivals: Arrivals<P>): Firsts<P> {
    if arrivals == [] then map[]
    else
      var before := arrivals[..|arrivals| - 1];
      var last := arrivals[|arrivals| - 1];
      WithArrival(FirstAccepted(capacity, before), last, Deliver(After(capacity, before), last.0, last.1).1)
  }

  function WithArrival<P>(firsts: Firsts<P>, arrival: (u64, P), o: Outcome<P>): Firsts<P> {
    if o.dropped || arrival.0 in firsts then firsts else firsts[arrival.0 := arrival.1]
  }

  /** `firsts` names what has been delivered or is held. */
  ghost predicate Covers<P>(firsts: Firsts<P>, b: Buffer<P>) {
    forall k: u64 :: k in firsts <==> k < b.next || k in b.held
  }

  ghost predicate HeldFirst<P>(b: Buffer<P>, firsts: Firsts<P>) {
    forall k :: k in b.held ==> k in firsts && b.held[k] == firsts[k]
  }

  ghost predicate DeliveredFirst<P>(out: seq<(u64, P)>, firsts: Firsts<P>) {
    forall i :: 0 <= i < |out| ==> out[i].0 in firsts && out[i].1 == firsts[out[i].0]
  }

  /** Every payload held or delivered is the one first accepted for its sequence. */
  ghost predicate FirstWins<P>(capacity: nat, arrivals: Arrivals<P>) {
    && HeldFirst(After(capacity, arrivals), FirstAccepted(capacity, arrivals))
    && DeliveredFirst(Output(capacity, arrivals), FirstAccepted(capacity, arrivals))
  }

  /** A repeat of a held sequence brings another payload while its slot names another sequence and there is room. */
  ghost predicate Replaces<P>(b: Buffer<P>, s: u64, payload: P)
    requires b.window.seen != []
  {
    && s in b.held && payload != b.held[s]
    && b.window.seen[s % |b.window.seen|] != Some(s)
    && |b.held| < b.capacity
  }

  /** A repeat of a held sequence leaves the held payload alone unless it replaces it. */
  lemma RepeatKeepsHeldExactly<P>(b: Buffer<P>, s: u64, payload: P)
    requires b.window.seen != [] && Windowed(b) && s in b.held
    ensures var t := Deliver(b, s, payload).0;
            && t.held.Keys == b.held.Keys && t.next == b.next
            && (forall k :: k in t.held && k != s ==> t.held[k] == b.held[k])
            && t.held[s] == if Replaces(b, s, payload) then payload else b.held[s]
  {
    assert b.held[s := payload].Keys == b.held.Keys;
  }

  lemma DeliverKeepsCovers<P>(b: Buffer<P>, s: u64, payload: P, firsts: Firsts<P>)
    requires b.window.seen != [] && Windowed(b) && s < U64_MAX && Covers(firsts, b)
    ensures var (t, o) := Deliver(b, s, payload);
            Covers(WithArrival(firsts, (s, payload), o), t)
  {
    if s == b.next {
      DrainIsContiguous(b.next, b.held);
    }
  }

  lemma DeliverKeepsFirst<P>(b: Buffer<P>, s: u64, payload: P, firsts: Firsts<P>)
    requires b.window.seen != [] && Windowed(b) && s < U64_MAX && Covers(firsts, b)
    requires HeldFirst(b, firsts) && !Replaces(b, s, payload)
    ensures var (t, o) := Deliver(b, s, payload);
            var updated := WithArrival(firsts, (s, payload), o);
            HeldFirst(t, updated) && DeliveredFirst(o.delivered, updated)
  {
    if s in b.held {
      RepeatKeepsHeldExactly(b, s, payload);
    } else {
      DeliverIsContiguous(b, s, payload);
      DeliverKeepsCovers(b, s, payload, firsts);
    }
  }

  lemma {:induction false} FirstsCover<P>(capacity: nat, arrivals: Arrivals<P>)
    requires BelowMax(arrivals)
    ensures Covers(FirstAccepted(capacity, arrivals), After(capacity, arrivals))
  {
    if arrivals != [] {
      var before := arrivals[..|arrivals| - 1];
      var last := arrivals[|arrivals| - 1];
      FirstsCover(capacity, before);
      StreamIsInOrder(capacity, before);
      DeliverKeepsCovers(After(capacity, before), last.0, last.1, FirstAccepted(capacity, before));
    }
  }

  ghost predicate NoneReplaces<P>(capacity: nat, arrivals: Arrivals<P>) {
    forall i :: 0 <= i < |arrivals| ==> !Replaces(After(capacity, arrivals[..i]), arrivals[i].0, arrivals[i].1)
  }

  lemma DeliveredFirstAppend<P>(a: seq<(u64, P)>, b: seq<(u64, P)>, firsts: Firsts<P>, updated: Firsts<P>)
    requires DeliveredFirst(a, firsts) && DeliveredFirst(b, updated)
    requires forall k :: k in firsts ==> k in updated && updated[k] == firsts[k]
    ensures DeliveredFirst(a + b, updated)
  {
    forall i | 0 <= i < |a + b| ensures (a + b)[i].0 in updated && (a + b)[i].1 == updated[(a + b)[i].0] {
      assert (a + b)[i] == if i < |a| then a[i] else b[i - |a|];
    }
  }

  /** One arrival that replaces nothing keeps first-valid-wins. */
  lemma FirstWinsSnoc<P>(b: Buffer<P>, x: (u64, P), out: seq<(u64, P)>, firsts: Firsts<P>)
    requires b.window.seen != [] && Windowed(b) && x.0 < U64_MAX && Covers(firsts, b)
    requires HeldFirst(b, firsts) && DeliveredFirst(out, firsts) && !Replaces(b, x.0, x.1)
    ensures var (t, o) := Deliver(b, x.0, x.1);
            var updated := WithArrival(firsts, x, o);
            HeldFirst(t, updated) && DeliveredFirst(out + o.delivered, updated)
  {
    DeliverKeepsFirst(b, x.0, x.1, firsts);
    var o := Deliver(b, x.0, x.1).1;
    DeliveredFirstAppend(out, o.delivered, firsts, WithArrival(firsts, x, o));
  }

  lemma NoneReplacesPrefix<P>(capacity: nat, arrivals: Arrivals<P>)
    requires NoneReplaces(capacity, arrivals) && arrivals != []
    ensures NoneReplaces(capacity, arrivals[..|arrivals| - 1])
  {
    var before := arrivals[..|arrivals| - 1];
    forall i | 0 <= i < |before| ensures !Replaces(After(capacity, before[..i]), before[i].0, before[i].1) {
      assert before[..i] == arrivals[..i] && before[i] == arrivals[i];
    }
  }

  lemma {:induction false} NoneReplacesFirstWins<P>(capacity: nat, arrivals: Arrivals<P>)
    requires BelowMax(arrivals) && NoneReplaces(capacity, arrivals)
    ensures FirstWins(capacity, arrivals)
  {
    if arrivals != [] {
      var before := arrivals[..|arrivals| - 1];
      var last := arrivals[|arrivals| - 1];
      NoneReplacesPrefix(capacity, arrivals);
      NoneReplacesFirstWins(capacity, before);
      StreamIsInOrder(capacity, before);
      FirstsCover(capacity, before);
      FirstWinsSnoc(After(capacity, before), last, Output(capacity, before), FirstAccepted(capacity, before));
    }
  }

  lemma ReplacementBreaksFirstWins<P>(capacity: nat, arrivals: Arrivals<P>, i: nat)
    requires BelowMax(arrivals) && i < |arrivals|
    requires Replaces(After(capacity, arrivals[..i]), arrivals[i].0, arrivals[i].1)
    requires FirstWins(capacity, arrivals[..i])
    ensures !FirstWins(capacity, arrivals[..i + 1])
  {
    var upTo := arrivals[..i + 1];
    assert upTo[..i] == arrivals[..i];
    StreamIsInOrder(capacity, upTo[..i]);
    RepeatKeepsHeldExactly(After(capacity, upTo[..i]), arrivals[i].0, arrivals[i].1);
    assert arrivals[i].0 in After(capacity, upTo).held;
  }

  /**
    First valid wins at every point of a run if and only if no arrival of the run
    replaced a held payload.
  */
  lemma FirstWinsIffNoneReplaces<P>(capacity: nat, arrivals: Arrivals<P>)
    requires BelowMax(arrivals)
    ensures (forall n :: 0 <= n <= |arrivals| ==> FirstWins(capacity, arrivals[..n]))
            <==> NoneReplaces(capacity, arrivals)
  {
    if NoneReplaces(capacity, arrivals) {
      forall n | 0 <= n <= |arrivals| ensures FirstWins(capacity, arrivals[..n]) {
        assert forall i :: 0 <= i < n ==> arrivals[..n][..i] == arrivals[..i];
        NoneReplacesFirstWins(capacity, arrivals[..n]);
      }
    } else {
      var i :| 0 <= i < |arrivals| && Replaces(After(capacity, arrivals[..i]), arrivals[i].0, arrivals[i].1);
      if FirstWins(capacity, arrivals[..i]) {
        ReplacementBreaksFirstWins(capacity, arrivals, i);
      }
    }
  }

  /** Where a run has got to: buffer, output and first accepted payloads. */
  ghost predicate Reaches<P>(capacity: nat, a: Arrivals<P>, b: Buffer<P>, out: seq<(u64, P)>, firsts: Firsts<P>) {
    After(capacity, a) == b && Output(capacity, a) == out && FirstAccepted(capacity, a) == firsts
  }

  lemma ReachesSnoc<P>(capacity: nat, a: Arrivals<P>, b: Buffer<P>, out: seq<(u64, P)>, firsts: Firsts<P>,
                       x: (u64, P), t: Buffer<P>, o: Outcome<P>)
    requires Reaches(capacity, a, b, out, firsts) && b.window.seen != []
    requires Deliver(b, x.0, x.1) == (t, o)
    ensures Reaches(capacity, a + [x], t, out + o.delivered, WithArrival(firsts, x, o))
  {
    assert (a + [x])[..|a|] == a;
  }

  /** The head arrives and nothing is held behind it. */
  lemma HeadAlone<P>(b: Buffer<P>, p: P)
    requires b.window.seen != [] && b.next < U64_MAX && b.next + 1 !in b.held
    requires b.window.seen[b.next % |b.window.seen|] != Some(b.next)
    ensures var (t, o) := Deliver(b, b.next, p);
            && t == b.(window := Accept(b.window, b.next).0, next := b.next + 1)
            && o == Outcome([(b.next, p)], false, false)
  {
    var out: seq<(u64, P)> := [(b.next, p)];
    assert out + [] == out;
  }

  /** The head arrives and the one packet held is next. */
  lemma HeadWithOne<P>(b: Buffer<P>, p: P, q: P)
    requires b.window.seen != [] && b.next + 2 < U64_MAX && b.held == map[b.next + 1 := q]
    requires b.window.seen[b.next % |b.window.seen|] != Some(b.next)
    ensures Deliver(b, b.next, p).1 == Outcome([(b.next, p), (b.next + 1, q)], false, false)
  {
    var n: u64 := b.next + 1;
    assert b.held - {n} == map[];
    assert Drain(n, b.held - {n}) == (n + 1, map[], []) by {
      assert n + 1 !in b.held - {n};
    }
    var released: seq<(u64, P)> := [(n, q)];
    assert released + [] == released;
  }

  /**
    First valid wins can fail: with capacity 2 a stale repeat of 1 frees the slot of
    held 3, whose copy then replaces it and is what goes out.
  */
  lemma StaleRepeatLetsCopyReplace<P>(p: P, copy: P)
    requires copy != p
    ensures var a := [(0, p), (1, p)] + [(3, p)] + [(1, p)] + [(3, copy)] + [(2, p)];
            Output(2, a) == [(0, p), (1, p), (2, p), (3, copy)] && !FirstWins(2, a)
  {
    var a: Arrivals<P> := [(0, p), (1, p)];
    var firsts: Firsts<P> := map[0 := p, 1 := p];
    var none: map<u64, P> := map[];
    var b2 := Buffer(Window([Some(0), Some(1)], 1), 2, 2, none);
    FirstTwo(p, b2, firsts);
    StaleRepeatFreesSlot(p, a, b2, firsts);
    var b4 := Buffer(Window([Some(0), Some(1)], 3), 2, 2, none[3 := p]);
    CopyReplaces(p, copy, a + [(3, p)] + [(1, p)], b4, firsts[3 := p]);
  }

  lemma FirstTwo<P>(p: P, b: Buffer<P>, firsts: Firsts<P>)
    requires b == Buffer(Window([Some(0), Some(1)], 1), 2, 2, map[]) && firsts == map[0 := p, 1 := p]
    ensures var a := [(0, p), (1, p)]; Reaches(2, a, b, a, firsts)
  {
    var empty: Arrivals<P> := [];
    var none: map<u64, P> := map[];
    var e: Buffer<P> := Empty(2);
    assert e.window.seen == [None, None];
    var b1 := Buffer(Window([Some(0), None], 0), 2, 1, none);
    HeadAlone(e, p);
    assert e.window.seen[0 := Some(0)] == b1.window.seen;
    ReachesSnoc(2, empty, e, empty, none, (0, p), b1, Outcome([(0, p)], false, false));
    HeadAlone(b1, p);
    assert b1.window.seen[1 := Some(1)] == b.window.seen;
    assert empty + [(0, p)] == [(0, p)] && [(0, p)] + [(1, p)] == [(0, p), (1, p)];
    ReachesSnoc(2, [(0, p)], b1, [(0, p)], none[0 := p], (1, p), b, Outcome([(1, p)], false, false));
  }

  lemma StaleRepeatFreesSlot<P>(p: P, a: Arrivals<P>, b: Buffer<P>, firsts: Firsts<P>)
    requires Reaches(2, a, b, [(0, p), (1, p)], firsts) && 3 !in firsts
    requires b == Buffer(Window([Some(0), Some(1)], 1), 2, 2, map[])
    ensures Reaches(2, a + [(3, p)] + [(1, p)], Buffer(Window([Some(0), Some(1)], 3), 2, 2, map[3 := p]),
                    [(0, p), (1, p)], firsts[3 := p])
  {
    var out: seq<(u64, P)> := [(0, p), (1, p)];
    var b3 := Buffer(Window([Some(0), Some(3)], 3), 2, 2, map[3 := p]);
    var b4 := Buffer(Window([Some(0), Some(1)], 3), 2, 2, map[3 := p]);
    AheadIsHeld(p, b, b3);
    StaleIsDropped(p, b3, b4);
    assert out + [] == out;
    ReachesSnoc(2, a, b, out, firsts, (3, p), b3, Outcome([], false, true));
    ReachesSnoc(2, a + [(3, p)], b3, out, firsts[3 := p], (1, p), b4, Outcome([], true, false));
  }

  lemma AheadIsHeld<P>(p: P, b: Buffer<P>, t: Buffer<P>)
    requires b == Buffer(Window([Some(0), Some(1)], 1), 2, 2, map[])
    requires t == Buffer(Window([Some(0), Some(3)], 3), 2, 2, map[3 := p])
    ensures Deliver(b, 3, p) == (t, Outcome([], false, true))
  {
    assert b.window.seen[1 := Some(3)] == t.window.seen && b.held[3 := p] == t.held;
  }

  lemma StaleIsDropped<P>(p: P, b: Buffer<P>, t: Buffer<P>)
    requires b == Buffer(Window([Some(0), Some(3)], 3), 2, 2, map[3 := p])
    requires t == Buffer(Window([Some(0), Some(1)], 3), 2, 2, map[3 := p])
    ensures Deliver(b, 1, p) == (t, Outcome([], true, false))
  {
    assert b.window.seen[1 := Some(1)] == t.window.seen;
  }

  lemma CopyReplaces<P>(p: P, copy: P, a: Arrivals<P>, b: Buffer<P>, firsts: Firsts<P>)
    requires Reaches(2, a, b, [(0, p), (1, p)], firsts) && 3 in firsts && firsts[3] == p && copy != p
    requires b == Buffer(Window([Some(0), Some(1)], 3), 2, 2, map[3 := p])
    ensures var all := a + [(3, copy)] + [(2, p)];
            Output(2, all) == [(0, p), (1, p), (2, p), (3, copy)] && !FirstWins(2, all)
  {
    var out: seq<(u64, P)> := [(0, p), (1, p)];
    var b5 := Buffer(Window([Some(0), Some(3)], 3), 2, 2, map[3 := copy]);
    CopyIsHeld(p, copy, b, b5);
    assert out + [] == out;
    ReachesSnoc(2, a, b, out, firsts, (3, copy), b5, Outcome([], false, true));
    CopyGoesOut(p, copy, a + [(3, copy)], b5, firsts);
  }

  lemma CopyIsHeld<P>(p: P, copy: P, b: Buffer<P>, t: Buffer<P>)
    requires b == Buffer(Window([Some(0), Some(1)], 3), 2, 2, map[3 := p])
    requires t == Buffer(Window([Some(0), Some(3)], 3), 2, 2, map[3 := copy])
    ensures Deliver(b, 3, copy) == (t, Outcome([], false, true))
  {
    assert b.window.seen[1 := Some(3)] == t.window.seen && b.held[3 := copy] == t.held && b.held.Keys == {3};
  }

  lemma CopyGoesOut<P>(p: P, copy: P, a: Arrivals<P>, b: Buffer<P>, firsts: Firsts<P>)
    requires Reaches(2, a, b, [(0, p), (1, p)], firsts) && 3 in firsts && firsts[3] == p && copy != p
    requires b == Buffer(Window([Some(0), Some(3)], 3), 2, 2, map[3 := copy])
    ensures Output(2, a + [(2, p)]) == [(0, p), (1, p), (2, p), (3, copy)] && !FirstWins(2, a + [(2, p)])
  {
    HeadWithOne(b, p, copy);
    var out: seq<(u64, P)> := [(0, p), (1, p)];
    var (t, o) := Deliver(b, 2, p);
    ReachesSnoc(2, a, b, out, firsts, (2, p), t, o);
    assert out + o.delivered == [(0, p), (1, p), (2, p), (3, copy)];
    assert (out + o.delivered)[3] == (3, copy);
  }
}
