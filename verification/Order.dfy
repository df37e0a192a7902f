/** Lexicographic order on number sequences, and the existence of least elements under it. */
module Order {

  predicate Lex(a: seq<nat>, b: seq<nat>) {
    a == [] || (b != [] && (a[0] < b[0] || (a[0] == b[0] && Lex(a[1..], b[1..]))))
  }

  lemma {:induction false} LexIsTotal(a: seq<nat>, b: seq<nat>)
    ensures Lex(a, b) || Lex(b, a)
  {
    if a != [] && b != [] {
      LexIsTotal(a[1..], b[1..]);
    }
  }

  lemma {:induction false} LexIsAntisymmetric(a: seq<nat>, b: seq<nat>)
    requires Lex(a, b) && Lex(b, a)
    ensures a == b
  {
    if a != [] && b != [] {
      LexIsAntisymmetric(a[1..], b[1..]);
      assert a == [a[0]] + a[1..] && b == [b[0]] + b[1..];
    }
  }

  lemma {:induction false} LexIsTransitive(a: seq<nat>, b: seq<nat>, c: seq<nat>)
    requires Lex(a, b) && Lex(b, c)
    ensures Lex(a, c)
  {
    if a != [] && a[0] == b[0] == c[0] {
      LexIsTransitive(a[1..], b[1..], c[1..]);
    }
  }

  /** Of sequences with parts of equal length the first part decides, and a tie there leaves it to the second. */
  lemma {:induction false} LexByParts(a: seq<nat>, b: seq<nat>, x: seq<nat>, y: seq<nat>)
    requires |a| == |b|
    ensures Lex(a + x, b + y) <==> if a == b then Lex(x, y) else Lex(a, b)
  {
    if a == [] {
      assert a + x == x && b + y == y;
    } else {
      assert (a + x)[1..] == a[1..] + x && (b + y)[1..] == b[1..] + y;
      assert a == [a[0]] + a[1..] && b == [b[0]] + b[1..];
      LexByParts(a[1..], b[1..], x, y);
    }
  }

  lemma LexOfOne(x: seq<nat>, y: seq<nat>)
    requires |x| == |y| == 1
    ensures Lex(x, y) <==> x[0] <= y[0]
  {
    assert x[1..] == [];
  }

  lemma LexOfTwo(x: seq<nat>, y: seq<nat>)
    requires |x| == |y| == 2
    ensures Lex(x, y) <==> x[0] < y[0] || (x[0] == y[0] && x[1] <= y[1])
    ensures x == y <==> x[0] == y[0] && x[1] == y[1]
  {
    LexOfOne(x[1..], y[1..]);
  }

  lemma LexOfThree(u: seq<nat>, v: seq<nat>)
    requires |u| == |v| == 3
    ensures Lex(u, v) <==>
            u[0] < v[0] || (u[0] == v[0] && (u[1] < v[1] || (u[1] == v[1] && u[2] <= v[2])))
  {
    LexOfTwo(u[1..], v[1..]);
  }

  lemma {:induction false} LeastExists<K(!new)>(keys: set<K>, rank: K -> seq<nat>) returns (least: K)
    requires keys != {}
    ensures least in keys && forall j :: j in keys ==> Lex(rank(least), rank(j))
    decreases |keys|
  {
    var k :| k in keys;
    var rest := keys - {k};
    LexIsTotal(rank(k), rank(k));
    if rest == {} {
      assert keys == {k};
      least := k;
    } else {
      var other := LeastExists(rest, rank);
      LexIsTotal(rank(k), rank(other));
      least := if Lex(rank(k), rank(other)) then k else other;
      forall j | j in keys ensures Lex(rank(least), rank(j)) {
        if j != k {
          LexIsTransitive(rank(least), rank(other), rank(j));
        }
      }
    }
  }
}
