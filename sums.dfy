/**
 * Finite sums over reals, used to state what the analyzers compute.
 *
 * SumOver adds a function over a finite set in no particular order, the way
 * the analyzers add values while walking a hash dictionary or a hash set.
 * SeqSum adds a function over the positions of a sequence, left to right,
 * the way they walk a word list.
 */
module Sums {

  /** Some element of a non-empty set, the same one whatever is being added up. */
  ghost function Pick<K>(s: set<K>): (x: K)
    requires s != {}
    ensures x in s
  {
    var x :| x in s; x
  }

  /** The sum of f over the finite set s. */
  ghost function SumOver<K>(s: set<K>, f: K -> real): (sum: real)
    decreases s
  {
    if s == {} then 0.0 else var x := Pick(s); f(x) + SumOver(s - {x}, f)
  }

  /** The values of a map as a total function: a missing key reads as 0.0. */
  function GetOrZero<K>(m: map<K, real>): (lookup: K -> real)
  {
    k => if k in m then m[k] else 0.0
  }

  /** The sum of all values of a map. */
  ghost function Total<K>(m: map<K, real>): (total: real)
  {
    SumOver(m.Keys, GetOrZero(m))
  }

  /** The sum of g over the elements of ws, one term per position, left to right. */
  ghost function SeqSum<K>(ws: seq<K>, g: K -> real): (sum: real)
  {
    if |ws| == 0 then 0.0 else SeqSum(ws[..|ws| - 1], g) + g(ws[|ws| - 1])
  }

  /** The distinct elements of a sequence. */
  ghost function Elements<K>(ws: seq<K>): (elements: set<K>)
  {
    set w | w in ws
  }

  /** g weighted by the number of times each element occurs in ws. */
  ghost function Weighted<K>(ws: seq<K>, g: K -> real): (weighted: K -> real)
  {
    w => (multiset(ws)[w] as real) * g(w)
  }

  /** Any element may be taken out of a sum first, whatever order the sum picks. */
  lemma {:induction false} SumOverRemove<K>(s: set<K>, f: K -> real, y: K)
    requires y in s
    ensures SumOver(s, f) == f(y) + SumOver(s - {y}, f)
    decreases s
  {
    var x := Pick(s);
    if x != y {
      SumOverRemove(s - {x}, f, y);
      SumOverRemove(s - {y}, f, x);
      assert s - {x} - {y} == s - {y} - {x};
    }
  }

  /** A sum depends only on the values of f on the set. */
  lemma {:induction false} SumOverExt<K>(s: set<K>, f: K -> real, g: K -> real)
    requires forall x :: x in s ==> f(x) == g(x)
    ensures SumOver(s, f) == SumOver(s, g)
    decreases s
  {
    if s != {} {
      var x :| x in s;
      SumOverRemove(s, f, x);
      SumOverRemove(s, g, x);
      SumOverExt(s - {x}, f, g);
    }
  }

  /** The sum of a pointwise sum is the sum of the sums. */
  lemma {:induction false} SumOverAdd<K>(s: set<K>, h: K -> real, f: K -> real, g: K -> real)
    requires forall x :: x in s ==> h(x) == f(x) + g(x)
    ensures SumOver(s, h) == SumOver(s, f) + SumOver(s, g)
    decreases s
  {
    if s != {} {
      var x :| x in s;
      SumOverRemove(s, h, x);
      SumOverRemove(s, f, x);
      SumOverRemove(s, g, x);
      SumOverAdd(s - {x}, h, f, g);
    }
  }

  /** f multiplied by the constant c. */
  function Scale<K>(c: real, f: K -> real): (scaled: K -> real)
  {
    x => c * f(x)
  }

  /** A constant factor comes out of a sum. */
  lemma {:induction false} SumOverScale<K>(s: set<K>, f: K -> real, c: real)
    ensures SumOver(s, Scale(c, f)) == c * SumOver(s, f)
    decreases s
  {
    if s != {} {
      var x := Pick(s);
      SumOverScale(s - {x}, f, c);
      Distribute(c, f(x), SumOver(s - {x}, f), SumOver(s, f));
    }
  }

  /** Terms that are zero on s - t do not change a sum. */
  lemma {:induction false} SumOverRestrict<K>(s: set<K>, t: set<K>, f: K -> real)
    requires t <= s
    requires forall x :: x in s && x !in t ==> f(x) == 0.0
    ensures SumOver(s, f) == SumOver(t, f)
    decreases s
  {
    if s != {} {
      var x :| x in s;
      SumOverRestrict(s - {x}, t - {x}, f);
      SumOverRemove(s, f, x);
      if x in t {
        SumOverRemove(t, f, x);
      } else {
        assert t - {x} == t;
      }
    }
  }

  lemma Distribute(c: real, a: real, b: real, sum: real)
    requires sum == a + b
    ensures c * sum == c * a + c * b
  {
  }

  lemma MultiplySucc(n: nat, c: real)
    ensures ((n + 1) as real) * c == (n as real) * c + c
  {
  }

  /** A sum of the constant c over s is |s| * c. */
  lemma {:induction false} SumOverConst<K>(s: set<K>, f: K -> real, c: real)
    requires forall x :: x in s ==> f(x) == c
    ensures SumOver(s, f) == (|s| as real) * c
    decreases s
  {
    if s != {} {
      var x :| x in s;
      SumOverRemove(s, f, x);
      SumOverConst(s - {x}, f, c);
      MultiplySucc(|s - {x}|, c);
    }
  }

  /** A sum of c over t, where f is c on t and 0 on the rest of s, is |t| * c. */
  lemma SumOverIndicator<K>(s: set<K>, t: set<K>, f: K -> real, c: real)
    requires t <= s
    requires forall x :: x in s ==> f(x) == if x in t then c else 0.0
    ensures SumOver(s, f) == (|t| as real) * c
  {
    SumOverRestrict(s, t, f);
    SumOverConst(t, f, c);
  }

  /** A sum of non-negative terms is non-negative. */
  lemma {:induction false} SumOverNonneg<K>(s: set<K>, f: K -> real)
    requires forall x :: x in s ==> f(x) >= 0.0
    ensures SumOver(s, f) >= 0.0
    decreases s
  {
    if s != {} {
      var x :| x in s;
      SumOverRemove(s, f, x);
      SumOverNonneg(s - {x}, f);
    }
  }

  /** A sum of non-negative terms is zero exactly when every term is zero. */
  lemma {:induction false} SumOverZero<K>(s: set<K>, f: K -> real)
    requires forall x :: x in s ==> f(x) >= 0.0
    ensures SumOver(s, f) == 0.0 <==> forall x :: x in s ==> f(x) == 0.0
    decreases s
  {
    if s != {} {
      var x :| x in s;
      SumOverRemove(s, f, x);
      SumOverZero(s - {x}, f);
      SumOverNonneg(s - {x}, f);
    }
  }

  /** h with its second argument fixed: the terms received by q, by sender. */
  function FixSecond<K>(h: (K, K) -> real, q: K): (column: K -> real)
  {
    p => h(p, q)
  }

  /** h with its first argument fixed: the terms sent by p, by receiver. */
  function FixFirst<K>(h: (K, K) -> real, p: K): (row: K -> real)
  {
    q => h(p, q)
  }

  /** For each q, the sum of h(p, q) over the p in ps. */
  ghost function SumFirst<K>(ps: set<K>, h: (K, K) -> real): (columnSums: K -> real)
  {
    q => SumOver(ps, FixSecond(h, q))
  }

  /** For each p, the sum of h(p, q) over the q in qs. */
  ghost function SumSecond<K>(qs: set<K>, h: (K, K) -> real): (rowSums: K -> real)
  {
    p => SumOver(qs, FixFirst(h, p))
  }

  /** A double sum may be added up in either order. */
  lemma {:induction false} SumOverSwap<K>(ps: set<K>, qs: set<K>, h: (K, K) -> real)
    ensures SumOver(qs, SumFirst(ps, h)) == SumOver(ps, SumSecond(qs, h))
    decreases ps
  {
    if ps == {} {
      SumOverConst(qs, SumFirst(ps, h), 0.0);
    } else {
      var p :| p in ps;
      var rest := ps - {p};
      forall q | q in qs
        ensures SumFirst(ps, h)(q) == FixFirst(h, p)(q) + SumFirst(rest, h)(q)
      {
        SumOverRemove(ps, FixSecond(h, q), p);
      }
      SumOverAdd(qs, SumFirst(ps, h), FixFirst(h, p), SumFirst(rest, h));
      SumOverSwap(rest, qs, h);
      SumOverRemove(ps, SumSecond(qs, h), p);
    }
  }

  /** The constant function c. */
  function Constant<K>(c: real): (constant: K -> real)
  {
    k => c
  }

  /** A sum over the first i + 1 positions adds the term of position i. */
  lemma SeqSumAppend<K>(ws: seq<K>, i: nat, g: K -> real)
    requires i < |ws|
    ensures SeqSum(ws[..i + 1], g) == SeqSum(ws[..i], g) + g(ws[i])
  {
    assert ws[..i + 1][..i] == ws[..i];
  }

  /** A sum over positions of a constant c is |ws| * c. */
  lemma {:induction false} SeqSumConst<K>(ws: seq<K>, g: K -> real, c: real)
    requires forall w :: w in ws ==> g(w) == c
    ensures SeqSum(ws, g) == (|ws| as real) * c
  {
    if |ws| > 0 {
      SeqSumConst(ws[..|ws| - 1], g, c);
    }
  }

  /** Appending x to ws adds g(x) to the weight of x and leaves the other weights alone. */
  lemma WeightedAppend<K>(ws: seq<K>, x: K, g: K -> real, w: K)
    ensures Weighted(ws + [x], g)(w) == Weighted(ws, g)(w) + (if w == x then g(x) else 0.0)
  {
    assert multiset(ws + [x]) == multiset(ws) + multiset{x};
    if w == x {
      MultiplySucc(multiset(ws)[w], g(w));
    }
  }

  /**
   * Adding over positions is adding over distinct elements, each weighted by
   * the number of times it occurs: a repeated element counts once per occurrence.
   */
  lemma {:induction false} SeqSumByOccurrences<K>(ws: seq<K>, g: K -> real)
    ensures SeqSum(ws, g) == SumOver(Elements(ws), Weighted(ws, g))
  {
    if |ws| == 0 {
      assert Elements(ws) == {};
    } else {
      var init, x := ws[..|ws| - 1], ws[|ws| - 1];
      assert ws == init + [x];
      var e := Elements(ws);
      assert e == Elements(init) + {x};
      var once: K -> real := w => if w == x then g(x) else 0.0;
      assert SumOver(e, Weighted(ws, g)) == SumOver(e, Weighted(init, g)) + SumOver(e, once) by {
        forall w | w in e
          ensures Weighted(ws, g)(w) == Weighted(init, g)(w) + once(w)
        {
          WeightedAppend(init, x, g, w);
        }
        SumOverAdd(e, Weighted(ws, g), Weighted(init, g), once);
      }
      assert SumOver(e, once) == g(x) by {
        SumOverRestrict(e, {x}, once);
        SumOverRemove({x}, once, x);
      }
      assert SumOver(e, Weighted(init, g)) == SumOver(Elements(init), Weighted(init, g)) by {
        forall w | w in e && w !in Elements(init)
          ensures Weighted(init, g)(w) == 0.0
        {
          assert multiset(init)[w] == 0;
        }
        SumOverRestrict(e, Elements(init), Weighted(init, g));
      }
      SeqSumByOccurrences(init, g);
    }
  }

  /** A subset is no larger than its superset. */
  lemma {:induction false} SubsetSize<T>(a: set<T>, b: set<T>)
    requires a <= b
    ensures |a| <= |b|
    decreases b
  {
    if a != {} {
      var x :| x in a;
      SubsetSize(a - {x}, b - {x});
    }
  }

  /** An element occurs in a sequence at most as often as the sequence is long. */
  lemma {:induction false} MultiplicityBound<K>(ws: seq<K>, w: K)
    ensures multiset(ws)[w] <= |ws|
  {
    if |ws| > 0 {
      assert ws == ws[..|ws| - 1] + [ws[|ws| - 1]];
      MultiplicityBound(ws[..|ws| - 1], w);
    }
  }

  /** Bookkeeping for a loop that takes the elements of `all` out of `rest` one by one. */
  lemma TakeOne<K>(all: set<K>, rest: set<K>, x: K)
    requires x in rest && rest <= all
    ensures all - (rest - {x}) == (all - rest) + {x}
    ensures (all - rest) !! {x}
  {
  }
}
