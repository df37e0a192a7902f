/** Finite sums of real values indexed by path identifier. */
module Sums {
  import opened Prelude

  function Get(m: map<u8, real>, p: u8): real {
    if p in m then m[p] else 0.0
  }

  ghost function Sum(m: map<u8, real>, keys: set<u8>): real {
    if keys == {} then 0.0 else var p :| p in keys; Get(m, p) + Sum(m, keys - {p})
  }

  /** The order of summation does not matter. */
  lemma {:induction false} SumRemove(m: map<u8, real>, keys: set<u8>, p: u8)
    requires p in keys
    ensures Sum(m, keys) == Get(m, p) + Sum(m, keys - {p})
    decreases |keys|
  {
    var q :| q in keys && Sum(m, keys) == Get(m, q) + Sum(m, keys - {q});
    if q != p {
      SumRemove(m, keys - {q}, p);
      SumRemove(m, keys - {p}, q);
      assert keys - {q} - {p} == keys - {p} - {q};
    }
  }

  lemma SumAdd(m: map<u8, real>, keys: set<u8>, p: u8)
    requires p !in keys
    ensures Sum(m, keys + {p}) == Sum(m, keys) + Get(m, p)
  {
    SumRemove(m, keys + {p}, p);
    assert keys + {p} - {p} == keys;
  }

  lemma {:induction false} SumCongruent(a: map<u8, real>, b: map<u8, real>, keys: set<u8>)
    requires forall p :: p in keys ==> Get(a, p) == Get(b, p)
    ensures Sum(a, keys) == Sum(b, keys)
    decreases |keys|
  {
    if p :| p in keys {
      SumRemove(a, keys, p);
      SumRemove(b, keys, p);
      SumCongruent(a, b, keys - {p});
    }
  }

  lemma {:induction false} SumPointwise(a: map<u8, real>, b: map<u8, real>, c: map<u8, real>, keys: set<u8>)
    requires forall p :: p in keys ==> Get(c, p) == Get(a, p) + Get(b, p)
    ensures Sum(c, keys) == Sum(a, keys) + Sum(b, keys)
    decreases |keys|
  {
    if p :| p in keys {
      SumRemove(a, keys, p);
      SumRemove(b, keys, p);
      SumRemove(c, keys, p);
      SumPointwise(a, b, c, keys - {p});
    }
  }

  predicate AddsUp(f: real -> real, x: real, y: real) {
    f(x + y) == f(x) + f(y)
  }

  /** An additive function of every term is that function of the sum. */
  lemma {:induction false} SumMapped(a: map<u8, real>, b: map<u8, real>, keys: set<u8>, f: real -> real)
    requires f(0.0) == 0.0 && forall x, y :: AddsUp(f, x, y)
    requires forall p :: p in keys ==> Get(b, p) == f(Get(a, p))
    ensures Sum(b, keys) == f(Sum(a, keys))
    decreases |keys|
  {
    if p :| p in keys {
      SumRemove(a, keys, p);
      SumRemove(b, keys, p);
      SumMapped(a, b, keys - {p}, f);
      assert AddsUp(f, Get(a, p), Sum(a, keys - {p}));
    }
  }

  lemma QuotientAdds(x: real, y: real, d: real)
    requires d != 0.0
    ensures (x + y) / d == x / d + y / d
  {
  }

  lemma QuotientAgainstOne(x: real, d: real)
    requires d > 0.0
    ensures x <= d ==> x / d <= 1.0
    ensures x / d == 1.0 <==> x == d
  {
    assert x / d * d == x;
  }

  /** Dividing every term by `d` gives a sum of 1 exactly when the terms added up to `d`. */
  lemma SumOfShares(a: map<u8, real>, b: map<u8, real>, keys: set<u8>, d: real)
    requires d > 0.0
    requires forall p :: p in keys ==> Get(b, p) == Get(a, p) / d
    ensures Sum(b, keys) == 1.0 <==> Sum(a, keys) == d
    ensures Sum(a, keys) <= d ==> Sum(b, keys) <= 1.0
  {
    var f: real -> real := x => if d != 0.0 then x / d else 0.0;
    forall x, y ensures AddsUp(f, x, y) {
      QuotientAdds(x, y, d);
    }
    SumMapped(a, b, keys, f);
    QuotientAgainstOne(Sum(a, keys), d);
  }

  /** Keys that contribute nothing may be left out. */
  lemma {:induction false} SumIgnoresZeros(m: map<u8, real>, keys: set<u8>, more: set<u8>)
    requires keys <= more
    requires forall p :: p in more - keys ==> Get(m, p) == 0.0
    ensures Sum(m, more) == Sum(m, keys)
    decreases |more|
  {
    if p :| p in more - keys {
      SumRemove(m, more, p);
      SumIgnoresZeros(m, keys, more - {p});
    } else {
      assert forall p :: p in more ==> p in keys || p in more - keys;
      assert more == keys;
    }
  }

  lemma {:induction false} SumNonNegative(m: map<u8, real>, keys: set<u8>)
    requires forall p :: p in keys ==> Get(m, p) >= 0.0
    ensures Sum(m, keys) >= 0.0
    decreases |keys|
  {
    if p :| p in keys {
      SumRemove(m, keys, p);
      SumNonNegative(m, keys - {p});
    }
  }

  lemma {:induction false} SumAboveMinusCount(m: map<u8, real>, keys: set<u8>)
    requires forall p :: p in keys ==> Get(m, p) >= -1.0
    ensures Sum(m, keys) >= -(|keys| as real)
    decreases |keys|
  {
    if p :| p in keys {
      SumRemove(m, keys, p);
      SumAboveMinusCount(m, keys - {p});
      assert |keys| == |keys - {p}| + 1;
    }
  }

  lemma {:induction false} PositiveSumHasPositiveTerm(m: map<u8, real>, keys: set<u8>)
    requires Sum(m, keys) > 0.0
    ensures exists p :: p in keys && Get(m, p) > 0.0
    decreases |keys|
  {
    var p :| p in keys;
    SumRemove(m, keys, p);
    if Get(m, p) <= 0.0 {
      PositiveSumHasPositiveTerm(m, keys - {p});
    }
  }
}
