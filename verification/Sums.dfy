/** Sums of the values of a map over a finite set of its keys. */
module Sums {

  ghost function Sum<K(!new)>(f: map<K, int>, s: set<K>): int
    requires s <= f.Keys
  {
    if s == {} then 0 else
      var x :| x in s;
      f[x] + Sum(f, s - {x})
  }

  lemma {:induction false} SumAdd<K(!new)>(f: map<K, int>, s: set<K>, x: K)
    requires s <= f.Keys && x in f && x !in s
    ensures Sum(f, s + {x}) == Sum(f, s) + f[x]
    decreases s
  {
    var t := s + {x};
    var y :| y in t && Sum(f, t) == f[y] + Sum(f, t - {y});
    if y == x {
      assert t - {x} == s;
    } else {
      assert t - {y} == (s - {y}) + {x};
      SumAdd(f, s - {y}, x);
      SumAdd(f, s - {y}, y);
      assert (s - {y}) + {y} == s;
    }
  }

  lemma {:induction false} SumDisjoint<K(!new)>(f: map<K, int>, s: set<K>, t: set<K>)
    requires s <= f.Keys && t <= f.Keys && s !! t
    ensures Sum(f, s + t) == Sum(f, s) + Sum(f, t)
    decreases t
  {
    if t == {} {
      assert s + t == s;
    } else {
      var x :| x in t;
      SumDisjoint(f, s, t - {x});
      SumAdd(f, s + (t - {x}), x);
      SumAdd(f, t - {x}, x);
      assert s + (t - {x}) + {x} == s + t;
      assert (t - {x}) + {x} == t;
    }
  }

  lemma {:induction false} SumWithout<K(!new)>(f: map<K, int>, s: set<K>, t: set<K>)
    requires t <= s <= f.Keys
    ensures Sum(f, s - t) == Sum(f, s) - Sum(f, t)
  {
    SumDisjoint(f, s - t, t);
    assert (s - t) + t == s;
  }

  lemma {:induction false} SumSame<K(!new)>(f: map<K, int>, g: map<K, int>, s: set<K>)
    requires s <= f.Keys && s <= g.Keys && forall x | x in s :: f[x] == g[x]
    ensures Sum(f, s) == Sum(g, s)
    decreases s
  {
    if s != {} {
      var x :| x in s;
      SumSame(f, g, s - {x});
      SumAdd(f, s - {x}, x);
      SumAdd(g, s - {x}, x);
      assert (s - {x}) + {x} == s;
    }
  }

  lemma {:induction false} SumIsNat<K(!new)>(f: map<K, int>, s: set<K>)
    requires s <= f.Keys && forall x | x in s :: f[x] >= 0
    ensures Sum(f, s) >= 0
    decreases s
  {
    if s != {} {
      var x :| x in s;
      SumIsNat(f, s - {x});
      SumAdd(f, s - {x}, x);
      assert (s - {x}) + {x} == s;
    }
  }

  /** Sums add up key by key. */
  lemma {:induction false} SumPointwise<K(!new)>(f: map<K, int>, g: map<K, int>, h: map<K, int>, s: set<K>)
    requires s <= f.Keys && s <= g.Keys && s <= h.Keys && forall x | x in s :: h[x] == f[x] + g[x]
    ensures Sum(h, s) == Sum(f, s) + Sum(g, s)
    decreases s
  {
    if s != {} {
      var x :| x in s;
      SumPointwise(f, g, h, s - {x});
      SumAdd(f, s - {x}, x);
      SumAdd(g, s - {x}, x);
      SumAdd(h, s - {x}, x);
      assert (s - {x}) + {x} == s;
    }
  }

  lemma {:induction false} SumOfZeros<K(!new)>(f: map<K, int>, s: set<K>)
    requires s <= f.Keys && forall x | x in s :: f[x] == 0
    ensures Sum(f, s) == 0
    decreases s
  {
    if s != {} {
      var x :| x in s;
      SumOfZeros(f, s - {x});
      SumAdd(f, s - {x}, x);
      assert (s - {x}) + {x} == s;
    }
  }
}
