/** Cardinality bounds for finite sets split into fibers. */
module Counting {
  ghost function Fiber<T(!new), K(!new)>(s: set<T>, f: T -> K, k: K): set<T>
  {
    set x | x in s && f(x) == k
  }

  lemma FiberSplit<T(!new), K(!new)>(s: set<T>, f: T -> K, k: K)
    ensures |s| == |s - Fiber(s, f, k)| + |Fiber(s, f, k)|
    ensures forall j :: j != k ==> Fiber(s - Fiber(s, f, k), f, j) == Fiber(s, f, j)
  {
    assert s == (s - Fiber(s, f, k)) + Fiber(s, f, k);
    forall j | j != k ensures Fiber(s - Fiber(s, f, k), f, j) == Fiber(s, f, j) {}
  }

  lemma OneMore(n: nat, c: nat)
    ensures (n + 1) * c == n * c + c
  {}

  /** A set that maps into `ks` with at most `c` elements over each of them. */
  lemma {:induction false} FiberBound<T(!new), K(!new)>(s: set<T>, ks: set<K>, f: T -> K, c: nat)
    requires forall x :: x in s ==> f(x) in ks
    requires forall k :: k in ks ==> |Fiber(s, f, k)| <= c
    ensures |s| <= |ks| * c
    decreases |ks|
  {
    if ks == {} {
      assert s == {};
    } else {
      var k :| k in ks;
      FiberSplit(s, f, k);
      var rest, fewer := s - Fiber(s, f, k), ks - {k};
      FiberBound(rest, fewer, f, c);
      OneMore(|fewer|, c);
    }
  }

  lemma {:induction false} FiberTotal<T(!new), K(!new)>(s: set<T>, ks: set<K>, f: T -> K, c: nat)
    requires forall x :: x in s ==> f(x) in ks
    requires forall k :: k in ks ==> |Fiber(s, f, k)| == c
    ensures |s| == |ks| * c
    decreases |ks|
  {
    if ks == {} {
      assert s == {};
    } else {
      var k :| k in ks;
      FiberSplit(s, f, k);
      var rest, fewer := s - Fiber(s, f, k), ks - {k};
      FiberTotal(rest, fewer, f, c);
      OneMore(|fewer|, c);
    }
  }

  lemma {:induction false} InjectiveBound<T(!new), K(!new)>(s: set<T>, ks: set<K>, f: T -> K)
    requires forall x :: x in s ==> f(x) in ks
    requires forall x, y :: x in s && y in s && f(x) == f(y) ==> x == y
    ensures |s| <= |ks|
    decreases |s|
  {
    if s != {} {
      var x :| x in s;
      InjectiveBound(s - {x}, ks - {f(x)}, f);
    }
  }

  lemma {:induction false} SubsetBound<T>(a: set<T>, b: set<T>)
    requires a <= b
    ensures |a| <= |b|
    decreases |a|
  {
    if a != {} {
      var x :| x in a;
      SubsetBound(a - {x}, b - {x});
    }
  }
}
