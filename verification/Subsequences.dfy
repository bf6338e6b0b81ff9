/** Subsequences: the same items in the same order, some of them left out. */
module Subsequences {
  import opened NameOrder

  /** `a` can be obtained from `b` by leaving items out. */
  predicate Subsequence<T(==)>(a: seq<T>, b: seq<T>) {
    a == [] || (b != [] && ((a[0] == b[0] && Subsequence(a[1..], b[1..])) || Subsequence(a, b[1..])))
  }

  function Shifted(places: seq<nat>): (r: seq<nat>)
    ensures |r| == |places| && forall i :: 0 <= i < |places| ==> r[i] == places[i] + 1
  {
    seq(|places|, i requires 0 <= i < |places| => places[i] + 1)
  }

  /** Every item of a subsequence has its own place in the whole, and the places keep the order. */
  ghost function Places<T>(a: seq<T>, b: seq<T>): (places: seq<nat>)
    requires Subsequence(a, b)
    ensures |places| == |a|
    ensures forall i :: 0 <= i < |a| ==> places[i] < |b| && b[places[i]] == a[i]
    ensures forall i, j :: 0 <= i < j < |a| ==> places[i] < places[j]
    decreases |b|
  {
    if a == [] then []
    else if a[0] == b[0] && Subsequence(a[1..], b[1..]) then [0] + Shifted(Places(a[1..], b[1..]))
    else Shifted(Places(a, b[1..]))
  }

  lemma {:induction false} SubsequenceReflexive<T>(a: seq<T>)
    ensures Subsequence(a, a)
  {
    if a != [] { SubsequenceReflexive(a[1..]); }
  }

  lemma {:induction false} SubsequencePrepend<T>(a: seq<T>, x: seq<T>, y: seq<T>)
    requires Subsequence(x, y)
    ensures Subsequence(a + x, a + y)
  {
    if a == [] {
      assert a + x == x && a + y == y;
    } else {
      SubsequencePrepend(a[1..], x, y);
      assert (a + x)[1..] == a[1..] + x && (a + y)[1..] == a[1..] + y;
    }
  }

  lemma {:induction false} SubsequenceOfLonger<T>(x: seq<T>, a: seq<T>, y: seq<T>)
    requires Subsequence(x, y)
    ensures Subsequence(x, a + y)
  {
    if a == [] {
      assert a + y == y;
    } else {
      SubsequenceOfLonger(x, a[1..], y);
      assert (a + y)[1..] == a[1..] + y;
    }
  }

  lemma {:induction false} SubsequenceAround<T>(x: seq<T>, c: seq<T>, b: seq<T>, p: seq<T>)
    requires Subsequence(x, c + p)
    ensures Subsequence(x, c + b + p)
    decreases |c|
  {
    if x == [] {
    } else if c == [] {
      assert c + p == p && c + b + p == b + p;
      SubsequenceOfLonger(x, b, p);
    } else {
      assert (c + p)[1..] == c[1..] + p && (c + b + p)[1..] == c[1..] + b + p;
      if x[0] == c[0] && Subsequence(x[1..], c[1..] + p) {
        SubsequenceAround(x[1..], c[1..], b, p);
      } else {
        SubsequenceAround(x, c[1..], b, p);
      }
    }
  }

  /** What is a subsequence with an item in the middle is one without it. */
  lemma {:induction false} SubsequenceWithout<T>(e: seq<T>, x: seq<T>, l: seq<T>, b: seq<T>)
    requires Subsequence(e + x + l, b)
    ensures Subsequence(e + l, b)
    decreases |b|, |x|
  {
    var whole := e + x + l;
    if e + l == [] {
    } else if e == [] && x == [] {
      assert whole == e + l;
    } else if whole[0] == b[0] && Subsequence(whole[1..], b[1..]) {
      if e != [] {
        assert whole[1..] == e[1..] + x + l && (e + l)[1..] == e[1..] + l;
        SubsequenceWithout(e[1..], x, l, b[1..]);
      } else {
        assert whole[1..] == e + x[1..] + l;
        SubsequenceWithout(e, x[1..], l, b[1..]);
      }
    } else {
      SubsequenceWithout(e, x, l, b[1..]);
    }
  }

  lemma SubsequenceOfParts<T>(a: seq<T>, x: seq<T>, b: seq<T>, y: seq<T>, c: seq<T>, whole: seq<T>)
    requires Subsequence(a + x + b + y + c, whole)
    ensures Subsequence(x + y, whole)
  {
    hide Subsequence;
    assert a + x + b + y + c == [] + a + (x + b + y + c);
    SubsequenceWithout([], a, x + b + y + c, whole);
    assert [] + (x + b + y + c) == x + b + (y + c);
    SubsequenceWithout(x, b, y + c, whole);
    assert x + (y + c) == (x + y) + c + [];
    SubsequenceWithout(x + y, c, [], whole);
    assert x + y + [] == x + y;
  }

  lemma SubsequenceBehind<T>(x: seq<T>, y: seq<T>, b: seq<T>)
    requires Subsequence(x, y)
    ensures Subsequence(x, y + b)
  {
    assert y + [] == y && y + b + [] == y + b;
    SubsequenceAround(x, y, b, []);
  }

  lemma {:induction false} SubsequenceTransitive<T>(a: seq<T>, b: seq<T>, c: seq<T>)
    requires Subsequence(a, b) && Subsequence(b, c)
    ensures Subsequence(a, c)
    decreases |c|
  {
    if a != [] {
      if b[0] == c[0] && Subsequence(b[1..], c[1..]) {
        if a[0] == b[0] && Subsequence(a[1..], b[1..]) {
          SubsequenceTransitive(a[1..], b[1..], c[1..]);
        } else {
          SubsequenceTransitive(a, b[1..], c[1..]);
        }
      } else {
        SubsequenceTransitive(a, b, c[1..]);
      }
    }
  }

  lemma {:induction false} SubsequenceAppend<T>(x: seq<T>, y: seq<T>, p: seq<T>)
    requires Subsequence(x, y)
    ensures Subsequence(x + p, y + p)
    decreases |y|
  {
    if x == [] {
      assert x + p == p;
      SubsequenceReflexive(p);
      SubsequenceOfLonger(p, y, p);
    } else {
      assert (x + p)[1..] == x[1..] + p && (y + p)[1..] == y[1..] + p;
      if x[0] == y[0] && Subsequence(x[1..], y[1..]) {
        SubsequenceAppend(x[1..], y[1..], p);
      } else {
        SubsequenceAppend(x, y[1..], p);
      }
    }
  }

  /** Of a list without repetitions, every subsequence has none. */
  lemma SubsequenceDistinct<T>(a: seq<T>, b: seq<T>)
    requires Subsequence(a, b) && Distinct(b)
    ensures Distinct(a)
  {
    var places := Places(a, b);
    forall i, j | 0 <= i < j < |a| ensures a[i] != a[j] {
      assert b[places[i]] == a[i] && b[places[j]] == a[j];
    }
  }
}
