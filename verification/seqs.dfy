/**
 * The array operations the components use on their in-memory lists:
 * `filter`, an element-wise `map` that rewrites only selected elements, and a
 * numeric `reduce` that sums one field.
 */
module Seqs {

  /** `a` is obtained from `b` by deleting elements: `a` keeps `b`'s relative order. */
  ghost predicate IsSubsequence<T>(a: seq<T>, b: seq<T>)
    decreases |b|
  {
    |a| == 0 || (|b| > 0 && ((a[0] == b[0] && IsSubsequence(a[1..], b[1..])) || IsSubsequence(a, b[1..])))
  }

  lemma {:induction false} SubsequenceReflexive<T>(s: seq<T>)
    ensures IsSubsequence(s, s)
    decreases |s|
  {
    if |s| > 0 {
      SubsequenceReflexive(s[1..]);
    }
  }

  /** Deleting elements twice is deleting elements once. */
  lemma {:induction false} SubsequenceTransitive<T>(a: seq<T>, b: seq<T>, c: seq<T>)
    requires IsSubsequence(a, b) && IsSubsequence(b, c)
    ensures IsSubsequence(a, c)
    decreases |c|
  {
    if |a| > 0 {
      if IsSubsequence(b, c[1..]) {
        SubsequenceTransitive(a, b, c[1..]);
      } else if a[0] == b[0] && IsSubsequence(a[1..], b[1..]) {
        SubsequenceTransitive(a[1..], b[1..], c[1..]);
      } else {
        SubsequenceTransitive(a, b[1..], c[1..]);
      }
    }
  }

  /** `s.filter(p)`: the elements of `s` that satisfy `p`, in their original order. */
  function Filter<T(!new)>(p: T -> bool, s: seq<T>): (r: seq<T>)
    ensures |r| <= |s|
    ensures forall x :: x in r <==> x in s && p(x)
    ensures forall i :: 0 <= i < |r| ==> p(r[i])
    ensures IsSubsequence(r, s)
  {
    if |s| == 0 then []
    else
      var rest := Filter(p, s[1..]);
      if p(s[0]) then
        assert ([s[0]] + rest)[1..] == rest;
        [s[0]] + rest
      else rest
  }

  /** Filtering keeps every passing element as often as it occurs, and no other. */
  lemma {:induction false} FilterMultiset<T(!new)>(p: T -> bool, s: seq<T>)
    ensures forall x :: multiset(Filter(p, s))[x] == if p(x) then multiset(s)[x] else 0
  {
    if |s| > 0 {
      FilterMultiset(p, s[1..]);
      assert s == [s[0]] + s[1..];
      assert multiset(s) == multiset{s[0]} + multiset(s[1..]);
      if p(s[0]) {
        assert multiset(Filter(p, s)) == multiset{s[0]} + multiset(Filter(p, s[1..]));
      }
    }
  }

  /** Filtering keeps everything exactly when every element passes. */
  lemma {:induction false} FilterKeepsAll<T(!new)>(p: T -> bool, s: seq<T>)
    ensures Filter(p, s) == s <==> forall i :: 0 <= i < |s| ==> p(s[i])
  {
    if |s| > 0 {
      FilterKeepsAll(p, s[1..]);
    }
  }

  /** Filtering distributes over concatenation. */
  lemma {:induction false} FilterAppend<T(!new)>(p: T -> bool, a: seq<T>, b: seq<T>)
    ensures Filter(p, a + b) == Filter(p, a) + Filter(p, b)
  {
    if |a| > 0 {
      assert (a + b)[1..] == a[1..] + b;
      FilterAppend(p, a[1..], b);
    } else {
      assert a + b == b;
    }
  }

  /** Two predicates that no element satisfies together select at most `|s|` elements between them. */
  lemma {:induction false} FilterDisjointCounts<T(!new)>(p: T -> bool, q: T -> bool, s: seq<T>)
    requires forall i :: 0 <= i < |s| ==> !(p(s[i]) && q(s[i]))
    ensures |Filter(p, s)| + |Filter(q, s)| <= |s|
  {
    if |s| > 0 {
      FilterDisjointCounts(p, q, s[1..]);
    }
  }

  /** Three pairwise exclusive predicates select at most `|s|` elements between them. */
  lemma {:induction false} FilterDisjointCounts3<T(!new)>(p: T -> bool, q: T -> bool, u: T -> bool, s: seq<T>)
    requires forall i :: 0 <= i < |s| ==> !(p(s[i]) && q(s[i])) && !(p(s[i]) && u(s[i])) && !(q(s[i]) && u(s[i]))
    ensures |Filter(p, s)| + |Filter(q, s)| + |Filter(u, s)| <= |s|
  {
    if |s| > 0 {
      FilterDisjointCounts3(p, q, u, s[1..]);
    }
  }

  /** The selected elements and the rejected elements together account for all of `s`. */
  lemma {:induction false} FilterComplementCounts<T(!new)>(p: T -> bool, s: seq<T>)
    ensures |Filter(p, s)| + |Filter(x => !p(x), s)| == |s|
  {
    if |s| > 0 {
      FilterComplementCounts(p, s[1..]);
    }
  }

  /** `s.map(x => sel(x) ? f(x) : x)`: rewrite exactly the selected elements. */
  function UpdateWhere<T>(s: seq<T>, sel: T -> bool, f: T -> T): (r: seq<T>)
    ensures |r| == |s|
    ensures forall i :: 0 <= i < |s| && sel(s[i]) ==> r[i] == f(s[i])
    ensures forall i :: 0 <= i < |s| && !sel(s[i]) ==> r[i] == s[i]
  {
    if |s| == 0 then []
    else [if sel(s[0]) then f(s[0]) else s[0]] + UpdateWhere(s[1..], sel, f)
  }

  /** `s.reduce((sum, x) => sum + f(x), 0)`. */
  function Sum<T>(f: T -> real, s: seq<T>): real
  {
    if |s| == 0 then 0.0 else f(s[0]) + Sum(f, s[1..])
  }

  lemma {:induction false} SumAppend<T>(f: T -> real, a: seq<T>, b: seq<T>)
    ensures Sum(f, a + b) == Sum(f, a) + Sum(f, b)
  {
    if |a| > 0 {
      assert (a + b)[1..] == a[1..] + b;
      SumAppend(f, a[1..], b);
    } else {
      assert a + b == b;
    }
  }

  /** A sum of non-negative terms is non-negative. */
  lemma {:induction false} SumNonNegative<T>(f: T -> real, s: seq<T>)
    requires forall i :: 0 <= i < |s| ==> f(s[i]) >= 0.0
    ensures Sum(f, s) >= 0.0
  {
    if |s| > 0 {
      SumNonNegative(f, s[1..]);
    }
  }

  /** Summing over an empty selection gives zero. */
  lemma {:induction false} SumOfNothing<T(!new)>(f: T -> real, p: T -> bool, s: seq<T>)
    requires forall i :: 0 <= i < |s| ==> !p(s[i])
    ensures Sum(f, Filter(p, s)) == 0.0
  {
    if |s| > 0 {
      SumOfNothing(f, p, s[1..]);
    }
  }

  /** Dropping elements whose term is zero does not change a sum. */
  lemma {:induction false} SumIgnoresZeros<T(!new)>(f: T -> real, p: T -> bool, s: seq<T>)
    requires forall i :: 0 <= i < |s| && !p(s[i]) ==> f(s[i]) == 0.0
    ensures Sum(f, Filter(p, s)) == Sum(f, s)
  {
    if |s| > 0 {
      SumIgnoresZeros(f, p, s[1..]);
    }
  }

  /** Two filters may be applied in either order. */
  lemma {:induction false} FilterCommutes<T(!new)>(p: T -> bool, q: T -> bool, s: seq<T>)
    ensures Filter(p, Filter(q, s)) == Filter(q, Filter(p, s))
  {
    if |s| > 0 {
      FilterCommutes(p, q, s[1..]);
      var rq := Filter(q, s[1..]);
      var rp := Filter(p, s[1..]);
      if q(s[0]) { assert Filter(p, [s[0]] + rq) == (if p(s[0]) then [s[0]] else []) + Filter(p, rq) by { FilterAppend(p, [s[0]], rq); } }
      if p(s[0]) { assert Filter(q, [s[0]] + rp) == (if q(s[0]) then [s[0]] else []) + Filter(q, rp) by { FilterAppend(q, [s[0]], rp); } }
    }
  }

  /** A sum over two nested filters splits over a concatenation. */
  lemma SumFilter2Append<T(!new)>(f: T -> real, p: T -> bool, q: T -> bool, a: seq<T>, b: seq<T>)
    ensures Sum(f, Filter(q, Filter(p, a + b))) == Sum(f, Filter(q, Filter(p, a))) + Sum(f, Filter(q, Filter(p, b)))
  {
    FilterAppend(p, a, b);
    FilterAppend(q, Filter(p, a), Filter(p, b));
    SumAppend(f, Filter(q, Filter(p, a)), Filter(q, Filter(p, b)));
  }

  /** One element contributes its term exactly when it passes both filters. */
  lemma SumFilter2Single<T(!new)>(f: T -> real, p: T -> bool, q: T -> bool, x: T)
    ensures Sum(f, Filter(q, Filter(p, [x]))) == if p(x) && q(x) then f(x) else 0.0
  {
    assert [x][1..] == [];
  }

  /** A prefilter that keeps every element passing both filters does not change the sum. */
  lemma {:induction false} SumFilter2Prefilter<T(!new)>(f: T -> real, p: T -> bool, q: T -> bool, u: T -> bool, s: seq<T>)
    requires forall i :: 0 <= i < |s| && p(s[i]) && q(s[i]) ==> u(s[i])
    ensures Sum(f, Filter(q, Filter(p, Filter(u, s)))) == Sum(f, Filter(q, Filter(p, s)))
    decreases |s|
  {
    if |s| > 0 {
      var x, t := s[0], s[1..];
      assert s == [x] + t;
      SumFilter2Prefilter(f, p, q, u, t);
      FilterAppend(u, [x], t);
      SumFilter2Append(f, p, q, Filter(u, [x]), Filter(u, t));
      SumFilter2Append(f, p, q, [x], t);
      SumFilter2Single(f, p, q, x);
      if u(x) {
        assert Filter(u, [x]) == [x];
      } else {
        assert Filter(u, [x]) == [];
      }
    }
  }
}
