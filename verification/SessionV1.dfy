/**
  Egress of a V1 session: bound paths, the active path, and the mirrored
  downlink bond with its time to live. `T` is the opaque transport of a path.
*/
module SessionV1 {
  import opened Prelude
  import opened Scheduler

  datatype Bond = Bond(weights: Weights, current: Weights, total: real, expiresAt: int)

  datatype Egress<T> = Egress(paths: map<u8, T>, active: Option<u8>, bond: Option<Bond>)

  type Entries = seq<(u8, real)>

  // ---------------------------------------------------------------------
  // What each operation does
  // ---------------------------------------------------------------------

  function Fresh<T>(): Egress<T> {
    Egress(map[], None, None)
  }

  function AddPath<T>(s: Egress<T>, transport: T, id: u8): (Egress<T>, bool) {
    if id in s.paths then (s, false)
    else (s.(paths := s.paths[id := transport], active := if s.active.None? then Some(id) else s.active), true)
  }

  function SetActive<T>(s: Egress<T>, id: u8): (Egress<T>, bool) {
    if id in s.paths then (s.(active := Some(id)), true) else (s, false)
  }

  /** `kept` lists, by ascending identifier, the positive weights of the bound paths. */
  ghost predicate KeptEntries(w: Weights, bound: set<u8>, kept: Entries) {
    && (forall i, j :: 0 <= i < j < |kept| ==> kept[i].0 < kept[j].0)
    && (forall p, x :: (p, x) in kept <==> p in bound && p in Positive(w) && w[p] == x)
  }

  /** The bond after its unbound paths were pruned: gone when nothing is left, otherwise re-adopted. */
  ghost predicate PrunedBy(before: Bond, kept: Entries, after: Option<Bond>) {
    if kept == [] then after == None
    else
      && after.Some?
      && WeightsFromEntries(kept, after.value.weights, after.value.total)
      && after.value.current == before.current
      && after.value.expiresAt == before.expiresAt
  }

  ghost predicate Removed<T>(s: Egress<T>, id: u8, t: Egress<T>, was: bool) {
    && was == (id in s.paths)
    && (!was ==> t == s)
    && (was ==>
          && t.paths == s.paths - {id}
          && (s.active != Some(id) ==> t.active == s.active)
          && (s.active == Some(id) ==>
                if t.paths == map[] then t.active == None
                else t.active.Some? && t.active.value in t.paths && forall p :: p in t.paths ==> t.active.value <= p)
          && (s.bond.None? ==> t.bond.None?)
          && (s.bond.Some? ==>
                exists kept: Entries ::
                  KeptEntries(s.bond.value.weights, t.paths.Keys, kept) && PrunedBy(s.bond.value, kept, t.bond)))
  }

  /** The advertised entries that name a bound path with a positive weight. */
  function Usable(bound: set<u8>, entries: Entries): Entries {
    if entries == [] then []
    else
      var last := entries[|entries| - 1];
      Usable(bound, entries[..|entries| - 1]) + if last.0 in bound && last.1 > 0.0 then [last] else []
  }

  ghost predicate Adopted<T>(s: Egress<T>, entries: Entries, ttl: nat, now: int, t: Egress<T>, n: nat) {
    var usable := Usable(s.paths.Keys, entries);
    && n == |usable|
    && t.paths == s.paths && t.active == s.active
    && (n == 0 ==> t.bond.None?)
    && (n > 0 ==>
          && t.bond.Some?
          && WeightsFromEntries(usable, t.bond.value.weights, t.bond.value.total)
          && t.bond.value.current == (if s.bond.Some? then s.bond.value.current else map[])
          && t.bond.value.expiresAt == now + ttl)
  }

  ghost predicate DownlinkDecided<T>(s: Egress<T>, now: int, t: Egress<T>, r: Option<u8>) {
    && t.paths == s.paths && t.active == s.active
    && match s.bond
       case None => t.bond.None? && r == None
       case Some(b) =>
         if b.expiresAt <= now then t.bond.None? && r == None
         else
           && t.bond.Some?
           && t.bond.value == b.(current := t.bond.value.current)
           && Decided(b.weights, b.total, b.current, t.bond.value.current, if r.Some? then Send(r.value) else Skip)
  }

  /** The gateway's choice for one frame: the bond's decision, else the active path. */
  ghost predicate Picked<T>(s: Egress<T>, now: int, t: Egress<T>, r: Option<u8>) {
    exists d :: DownlinkDecided(s, now, t, d) && r == if d.Some? then d else s.active
  }

  // ---------------------------------------------------------------------
  // The invariant and its runs
  // ---------------------------------------------------------------------

  ghost predicate Valid<T>(s: Egress<T>) {
    && (s.active.Some? <==> s.paths != map[])
    && (s.active.Some? ==> s.active.value in s.paths)
    && (s.bond.Some? ==> Positive(s.bond.value.weights) != {} && Positive(s.bond.value.weights) <= s.paths.Keys)
  }

  datatype Op<T> =
    | DoAdd(transport: T, id: u8)
    | DoSetActive(id: u8)
    | DoRemove(id: u8)
    | DoAdopt(entries: Entries, ttl: nat, now: int)
    | DoPick(now: int)

  ghost predicate Step<T>(s: Egress<T>, op: Op<T>, t: Egress<T>) {
    match op
    case DoAdd(transport, id) => t == AddPath(s, transport, id).0
    case DoSetActive(id) => t == SetActive(s, id).0
    case DoRemove(id) => Removed(s, id, t, id in s.paths)
    case DoAdopt(entries, ttl, now) => Adopted(s, entries, ttl, now, t, |Usable(s.paths.Keys, entries)|)
    case DoPick(now) => exists r :: Picked(s, now, t, r)
  }

  /** Re-adopting a listing of distinct positive weights keeps exactly those paths. */
  lemma AdoptionKeepsListed(kept: Entries, w: Weights, total: real)
    requires WeightsFromEntries(kept, w, total)
    requires kept != [] && forall i :: 0 <= i < |kept| ==> kept[i].1 > 0.0
    ensures Positive(w) != {}
    ensures forall p :: p in Positive(w) ==> exists i :: 0 <= i < |kept| && kept[i].0 == p
  {
    AdoptedSumToOneIffDistinct(kept, w, total);
    assert kept[0].0 in Positive(w);
  }

  lemma {:induction false} UsableAreBound(bound: set<u8>, entries: Entries)
    ensures forall i :: 0 <= i < |Usable(bound, entries)| ==>
              Usable(bound, entries)[i].0 in bound && Usable(bound, entries)[i].1 > 0.0
  {
    if entries != [] {
      UsableAreBound(bound, entries[..|entries| - 1]);
    }
  }

  lemma StepKeepsValid<T>(s: Egress<T>, op: Op<T>, t: Egress<T>)
    requires Valid(s) && Step(s, op, t)
    ensures Valid(t)
  {
    match op
    case DoAdd(transport, id) =>
      assert id in t.paths;
    case DoSetActive(id) =>
    case DoRemove(id) =>
      if id in s.paths {
        RemovalKeepsValid(s, id, t);
      }
    case DoAdopt(entries, ttl, now) =>
      if t.bond.Some? {
        var usable := Usable(s.paths.Keys, entries);
        UsableAreBound(s.paths.Keys, entries);
        AdoptionKeepsListed(usable, t.bond.value.weights, t.bond.value.total);
      }
    case DoPick(now) =>
  }

  lemma RemovalKeepsValid<T>(s: Egress<T>, id: u8, t: Egress<T>)
    requires Valid(s) && id in s.paths && Removed(s, id, t, true)
    ensures Valid(t)
  {
    if s.active != Some(id) {
      assert s.active.value in t.paths;
    }
    if t.bond.Some? {
      var kept: Entries :|
        KeptEntries(s.bond.value.weights, t.paths.Keys, kept) && PrunedBy(s.bond.value, kept, t.bond);
      forall i | 0 <= i < |kept| ensures kept[i].1 > 0.0 && kept[i].0 in t.paths {
        var (p, x) := kept[i];
        assert (p, x) in kept;
      }
      AdoptionKeepsListed(kept, t.bond.value.weights, t.bond.value.total);
    }
  }

  /** `states` is a run of a session through `ops`, from a session with no path. */
  ghost predicate Run<T>(ops: seq<Op<T>>, states: seq<Egress<T>>) {
    && |states| == |ops| + 1
    && states[0] == Fresh()
    && forall i :: 0 <= i < |ops| ==> Step(states[i], ops[i], states[i + 1])
  }

  /** Every reachable session is valid. */
  lemma {:induction false} RunIsValid<T>(ops: seq<Op<T>>, states: seq<Egress<T>>, i: nat)
    requires Run(ops, states) && i <= |ops|
    ensures Valid(states[i])
  {
    if i > 0 {
      RunIsValid(ops, states, i - 1);
      StepKeepsValid(states[i - 1], ops[i - 1], states[i]);
    }
  }

  lemma RemovalLeaves<T>(paths: map<u8, T>, id: u8)
    ensures id !in paths ==> paths - {id} == paths
    ensures id in paths ==> (paths - {id} == map[] <==> paths.Keys == {id})
  {
    var rest := paths - {id};
    assert rest.Keys == paths.Keys - {id};
    assert rest == map[] <==> rest.Keys == {};
    if id in paths && rest.Keys == {} {
      assert paths.Keys == {id};
    }
  }

  /**
    Which path is active after each step: the first one added, the one selected, the
    lowest one left when the active one goes, and otherwise the one before.
  */
  lemma StepMovesActive<T>(s: Egress<T>, op: Op<T>, t: Egress<T>)
    requires Valid(s) && Step(s, op, t)
    ensures match op
            case DoAdd(transport, id) =>
              && t.paths == (if id in s.paths then s.paths else s.paths[id := transport])
              && t.active == if s.paths == map[] then Some(id) else s.active
            case DoSetActive(id) => t.paths == s.paths && t.active == if id in s.paths then Some(id) else s.active
            case DoRemove(id) =>
              && t.paths == s.paths - {id}
              && (s.active != Some(id) ==> t.active == s.active)
              && (s.active == Some(id) && s.paths.Keys == {id} ==> t.active == None)
              && (s.active == Some(id) && s.paths.Keys != {id} ==>
                    t.active.Some? && t.active.value in s.paths && t.active.value != id
                    && forall p :: p in s.paths && p != id ==> t.active.value <= p)
            case _ => t.paths == s.paths && t.active == s.active
  {
    match op
    case DoAdd(transport, id) => assert s.active.Some? <==> s.paths != map[];
    case DoRemove(id) =>
      RemovalLeaves(s.paths, id);
      assert forall p :: p in s.paths && p != id ==> p in t.paths;
    case _ =>
  }

  lemma KeptNames(w: Weights, bound: set<u8>, kept: Entries, i: nat)
    requires KeptEntries(w, bound, kept) && i < |kept|
    ensures kept[i].0 in bound && kept[i].0 in Positive(w) && kept[i].1 == w[kept[i].0] > 0.0
  {
    var (p, x) := kept[i];
    assert (p, x) in kept;
  }

  lemma KeptListsAt(w: Weights, bound: set<u8>, kept: Entries, p: u8) returns (i: nat)
    requires KeptEntries(w, bound, kept) && p in bound && p in Positive(w)
    ensures i < |kept| && kept[i] == (p, w[p])
  {
    assert (p, w[p]) in kept;
    i :| 0 <= i < |kept| && kept[i] == (p, w[p]);
  }

  /** Each surviving weight is its old one over what survives. */
  lemma KeptWeighsItsShare(w: Weights, bound: set<u8>, kept: Entries, v: Weights, total: real, p: u8)
    requires KeptEntries(w, bound, kept) && WeightsFromEntries(kept, v, total)
    requires p in bound && p in Positive(w)
    ensures AcceptedTotal(kept) > 0.0 && p in v && v[p] == w[p] / AcceptedTotal(kept)
  {
    var i := KeptListsAt(w, bound, kept, p);
    AdoptsLastEntry(kept, v, total, i);
  }

  lemma SharesKeepRatio(x: real, y: real, d: real)
    requires d > 0.0
    ensures (x / d) * y == (y / d) * x
  {
    assert x / d * d == x && y / d * d == y;
    assert ((x / d) * y - (y / d) * x) * d == 0.0;
  }

  /** `p` and `q` weigh in the same ratio in both. */
  ghost predicate SameRatio(w: Weights, v: Weights, p: u8, q: u8) {
    p in w && q in w && p in v && q in v && v[p] * w[q] == v[q] * w[p]
  }

  lemma DividedKeepRatio(w: Weights, v: Weights, p: u8, q: u8, d: real)
    requires d > 0.0 && p in w && q in w && p in v && q in v && v[p] == w[p] / d && v[q] == w[q] / d
    ensures SameRatio(w, v, p, q)
  {
    SharesKeepRatio(w[p], w[q], d);
  }

  lemma KeptRatios(w: Weights, bound: set<u8>, kept: Entries, v: Weights, total: real, p: u8, q: u8)
    requires KeptEntries(w, bound, kept) && WeightsFromEntries(kept, v, total)
    requires p in bound && p in Positive(w) && q in bound && q in Positive(w)
    ensures SameRatio(w, v, p, q)
  {
    KeptWeighsItsShare(w, bound, kept, v, total, p);
    KeptWeighsItsShare(w, bound, kept, v, total, q);
    DividedKeepRatio(w, v, p, q, AcceptedTotal(kept));
  }

  /** What survives is exactly the positive weights of the paths still bound. */
  lemma KeptPositives(w: Weights, bound: set<u8>, kept: Entries, v: Weights, total: real)
    requires KeptEntries(w, bound, kept) && WeightsFromEntries(kept, v, total)
    ensures Positive(v) == Positive(w) * bound
  {
    AdoptedSumToOneIffDistinct(kept, v, total);
    forall p | p in Positive(v) ensures p in Positive(w) && p in bound {
      var i :| 0 <= i < |kept| && kept[i].1 > 0.0 && kept[i].0 == p;
      KeptNames(w, bound, kept, i);
    }
    forall p | p in Positive(w) && p in bound ensures p in Positive(v) {
      var i := KeptListsAt(w, bound, kept, p);
      KeptNames(w, bound, kept, i);
    }
  }

  lemma NothingKept(w: Weights, bound: set<u8>, kept: Entries)
    requires KeptEntries(w, bound, kept)
    ensures kept == [] <==> Positive(w) * bound == {}
  {
    if kept != [] {
      KeptNames(w, bound, kept, 0);
      assert kept[0].0 in Positive(w) * bound;
    }
    forall p | p in Positive(w) * bound ensures kept != [] {
      var i := KeptListsAt(w, bound, kept, p);
    }
  }

  /** What pruning leaves of a bond when only `bound` paths are left. */
  ghost predicate PrunedRight(b: Bond, bound: set<u8>, after: Option<Bond>) {
    && (after.None? <==> Positive(b.weights) * bound == {})
    && (after.Some? ==>
          && after.value.expiresAt == b.expiresAt && after.value.current == b.current
          && Positive(after.value.weights) == Positive(b.weights) * bound
          && forall p, q :: p in Positive(after.value.weights) && q in Positive(after.value.weights) ==>
               SameRatio(b.weights, after.value.weights, p, q))
  }

  lemma PruningIsRight(b: Bond, bound: set<u8>, kept: Entries, after: Option<Bond>)
    requires KeptEntries(b.weights, bound, kept) && PrunedBy(b, kept, after)
    ensures PrunedRight(b, bound, after)
  {
    NothingKept(b.weights, bound, kept);
    if after.Some? {
      var v := after.value.weights;
      KeptPositives(b.weights, bound, kept, v, after.value.total);
      forall p, q | p in Positive(v) && q in Positive(v) ensures SameRatio(b.weights, v, p, q) {
        KeptRatios(b.weights, bound, kept, v, after.value.total, p, q);
      }
    }
  }

  /**
    Removing a path takes it out of the bond and nothing else: the bond goes only when
    no other path of it is left, its time to live and accumulators stay, and the weights
    that are left keep their ratios.
  */
  lemma RemovalKeepsRatios<T>(s: Egress<T>, id: u8, t: Egress<T>)
    requires id in s.paths && Removed(s, id, t, true) && s.bond.Some?
    ensures PrunedRight(s.bond.value, s.paths.Keys - {id}, t.bond)
  {
    assert t.paths.Keys == s.paths.Keys - {id};
    var kept: Entries :|
      KeptEntries(s.bond.value.weights, t.paths.Keys, kept) && PrunedBy(s.bond.value, kept, t.bond);
    PruningIsRight(s.bond.value, t.paths.Keys, kept, t.bond);
  }

  /** Taking what is usable goes entry by entry, in order. */
  lemma {:induction false} UsableJoins(bound: set<u8>, a: Entries, b: Entries)
    ensures Usable(bound, a + b) == Usable(bound, a) + Usable(bound, b)
    decreases |b|
  {
    if b == [] {
      assert a + b == a;
    } else {
      var rest := b[..|b| - 1];
      assert (a + b)[..|a + b| - 1] == a + rest;
      UsableJoins(bound, a, rest);
    }
  }

  /** An entry survives exactly when it names a bound path with a positive weight. */
  lemma {:induction false} UsableExactly(bound: set<u8>, entries: Entries, e: (u8, real))
    ensures multiset(Usable(bound, entries))[e]
            == if e.0 in bound && e.1 > 0.0 then multiset(entries)[e] else 0
  {
    if entries != [] {
      var before := entries[..|entries| - 1];
      UsableExactly(bound, before, e);
      assert entries == before + [entries[|entries| - 1]];
    }
  }

  /**
    An advertisement is decided by from its adoption until its time to live is over,
    provided some entry names a bound path with a positive weight, and never otherwise.
  */
  lemma AdoptedDecidesUntilExpiry<T>(s: Egress<T>, entries: Entries, ttl: nat, now: int, t: Egress<T>, n: nat,
                                     later: int, u: Egress<T>, r: Option<u8>)
    requires Valid(s) && Adopted(s, entries, ttl, now, t, n) && DownlinkDecided(t, later, u, r)
    ensures n > 0 <==> exists e :: e in entries && e.0 in s.paths && e.1 > 0.0
    ensures r.Some? <==> n > 0 && later < now + ttl
    ensures r.Some? ==> r.value in s.paths
  {
    var usable := Usable(s.paths.Keys, entries);
    StepKeepsValid(s, DoAdopt(entries, ttl, now), t);
    if n > 0 {
      UsableExactly(s.paths.Keys, entries, usable[0]);
      UsableAreBound(s.paths.Keys, entries);
      assert usable[0] in entries;
    }
    forall e | e in entries && e.0 in s.paths && e.1 > 0.0 ensures n > 0 {
      UsableExactly(s.paths.Keys, entries, e);
      assert multiset(entries)[e] > 0;
    }
  }

  /** A bond that has not expired always decides, and for a bound path. */
  lemma FreshBondNeverSkips<T>(ops: seq<Op<T>>, states: seq<Egress<T>>, i: nat, now: int, t: Egress<T>, r: Option<u8>)
    requires Run(ops, states) && i <= |ops|
    requires DownlinkDecided(states[i], now, t, r)
    ensures r.Some? <==> states[i].bond.Some? && states[i].bond.value.expiresAt > now
    ensures r.Some? ==> r.value in states[i].paths
  {
    RunIsValid(ops, states, i);
  }

  /**
    In every reachable session, deciding and falling back to the active path yields
    a path if and only if some path is bound, and then a bound one.
  */
  lemma PickIsBoundIffAnyPath<T>(ops: seq<Op<T>>, states: seq<Egress<T>>, i: nat, now: int, t: Egress<T>, r: Option<u8>)
    requires Run(ops, states) && i <= |ops|
    requires Picked(states[i], now, t, r)
    ensures r.Some? <==> states[i].paths != map[]
    ensures r.Some? ==> r.value in states[i].paths
  {
    RunIsValid(ops, states, i);
    var d :| DownlinkDecided(states[i], now, t, d) && r == if d.Some? then d else states[i].active;
    FreshBondNeverSkips(ops, states, i, now, t, d);
  }

  // ---------------------------------------------------------------------
  // The object
  // ---------------------------------------------------------------------

  class DownlinkBonds {
    const scheduler: WeightedBondingScheduler
    var expiresAt: int

    constructor (expiresAt: int)
      ensures this.expiresAt == expiresAt && fresh(scheduler)
      ensures scheduler.weights == map[] && scheduler.current == map[] && scheduler.totalWeight == 0.0
    {
      scheduler := new WeightedBondingScheduler();
      this.expiresAt := expiresAt;
    }
  }

  class Session<T> {
    var paths: map<u8, T>
    var activePath: Option<u8>
    var downlink: DownlinkBonds?

    ghost function Repr(): set<object>
      reads this
    {
      {this} + if downlink == null then {} else {downlink, downlink.scheduler}
    }

    ghost function View(): Egress<T>
      reads Repr()
    {
      Egress(paths, activePath,
             if downlink == null then None
             else Some(Bond(downlink.scheduler.weights, downlink.scheduler.current,
                            downlink.scheduler.totalWeight, downlink.expiresAt)))
    }

    constructor ()
      ensures View() == Fresh() && Valid(View()) && fresh(Repr())
    {
      paths := map[];
      activePath := None;
      downlink := null;
    }

    method Add(transport: T, id: u8) returns (ok: bool)
      requires Valid(View())
      modifies this
      ensures (View(), ok) == AddPath(old(View()), transport, id)
      ensures Valid(View()) && Repr() == old(Repr())
    {
      StepKeepsValid(View(), DoAdd(transport, id), AddPath(View(), transport, id).0);
      if id in paths {
        return false;
      }
      if activePath.None? {
        activePath := Some(id);
      }
      paths := paths[id := transport];
      ok := true;
    }

    method SetActivePath(id: u8) returns (ok: bool)
      requires Valid(View())
      modifies `activePath
      ensures (View(), ok) == SetActive(old(View()), id)
      ensures Valid(View()) && Repr() == old(Repr())
    {
      if id !in paths {
        return false;
      }
      activePath := Some(id);
      ok := true;
    }

    /** The lowest bound identifier. */
    method Lowest() returns (r: Option<u8>)
      ensures if paths == map[] then r == None
              else r.Some? && r.value in paths && forall p :: p in paths ==> r.value <= p
    {
      var ids := Ascending(paths.Keys);
      if ids == [] {
        assert forall p :: p !in paths;
        return None;
      }
      BoundSplits(ids, paths.Keys, 0);
      r := Some(ids[0]);
    }

    method RemovePath(id: u8) returns (was: bool)
      requires Valid(View())
      modifies Repr()
      ensures Removed(old(View()), id, View(), was)
      ensures Valid(View()) && Repr() <= old(Repr())
    {
      ghost var before := View();
      if id !in paths {
        return false;
      }
      paths := paths - {id};
      if activePath == Some(id) {
        activePath := Lowest();
      }
      if downlink != null {
        PruneBond();
      }
      was := true;
      StepKeepsValid(before, DoRemove(id), View());
    }

    /** The entries of bound paths, in their order. */
    method KeepBound(entries: Entries) returns (kept: Entries)
      requires forall j, k :: 0 <= j < k < |entries| ==> entries[j].0 < entries[k].0
      ensures forall j, k :: 0 <= j < k < |kept| ==> kept[j].0 < kept[k].0
      ensures forall e :: e in kept <==> e in entries && e.0 in paths
    {
      kept := [];
      for i := 0 to |entries|
        invariant forall j, k :: 0 <= j < k < |kept| ==> kept[j].0 < kept[k].0
        invariant forall k :: 0 <= k < |kept| ==> kept[k] in entries[..i] && kept[k].0 in paths
        invariant forall k :: 0 <= k < i && entries[k].0 in paths ==> entries[k] in kept
      {
        if entries[i].0 in paths {
          kept := kept + [entries[i]];
        }
      }
    }

    method PruneBond()
      requires downlink != null
      modifies `downlink, downlink.scheduler
      ensures Repr() <= old(Repr()) && (downlink == null || downlink == old(downlink))
      ensures var before := old(View()).bond.value;
              exists kept: Entries ::
                KeptEntries(before.weights, paths.Keys, kept) && PrunedBy(before, kept, View().bond)
    {
      var entries := downlink.scheduler.NormalizedWeights();
      var kept := KeepBound(entries);
      ghost var w := downlink.scheduler.weights;
      assert KeptEntries(w, paths.Keys, kept) by {
        forall p, x ensures (p, x) in kept <==> p in paths && p in Positive(w) && w[p] == x {
          assert (p, x) in entries <==> p in Positive(w) && w[p] == x;
        }
      }
      ghost var bond := View().bond.value;
      if kept == [] {
        downlink := null;
      } else {
        downlink.scheduler.AdoptWeights(kept);
      }
      assert PrunedBy(bond, kept, View().bond);
    }

    method AdoptDownlinkWeights(entries: Entries, ttl: nat, now: int) returns (n: nat)
      requires Valid(View())
      modifies Repr()
      ensures Adopted(old(View()), entries, ttl, now, View(), n)
      ensures Valid(View()) && fresh(Repr() - old(Repr()))
    {
      ghost var before := View();
      var adopted: Entries := [];
      for i := 0 to |entries|
        invariant adopted == Usable(paths.Keys, entries[..i])
      {
        assert entries[..i + 1][..i] == entries[..i];
        if entries[i].0 in paths && entries[i].1 > 0.0 {
          adopted := adopted + [entries[i]];
        }
      }
      assert entries[..|entries|] == entries;
      n := |adopted|;
      if n > 0 {
        if downlink == null {
          downlink := new DownlinkBonds(now);
        }
        downlink.scheduler.AdoptWeights(adopted);
        downlink.expiresAt := now + ttl;
      } else {
        downlink := null;
      }
      StepKeepsValid(before, DoAdopt(entries, ttl, now), View());
    }

    method DownlinkDecide(now: int) returns (r: Option<u8>)
      requires Valid(View())
      modifies Repr()
      ensures DownlinkDecided(old(View()), now, View(), r)
      ensures Valid(View()) && Repr() <= old(Repr())
    {
      if downlink == null {
        return None;
      }
      if downlink.expiresAt <= now {
        downlink := null;
        return None;
      }
      var d := downlink.scheduler.Decide();
      r := if d.Send? then Some(d.path) else None;
    }

    /** The egress path of one downlink frame. */
    method PickEgress(now: int) returns (r: Option<u8>)
      requires Valid(View())
      modifies Repr()
      ensures Picked(old(View()), now, View(), r)
      ensures Valid(View()) && Repr() <= old(Repr())
      ensures r.Some? <==> paths != map[]
      ensures r.Some? ==> r.value in paths
    {
      r := DownlinkDecide(now);
      if r.None? {
        r := activePath;
      }
    }
  }
}
