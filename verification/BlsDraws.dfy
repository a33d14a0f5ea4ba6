/** How many outputs of the random number generator let a batch with an invalid item pass. */
module BlsDraws {
  import opened Bytes
  import opened Counting
  import opened Bls

  function Pow(b: nat, e: nat): nat
  {
    if e == 0 then 1 else b * Pow(b, e - 1)
  }

  function Front(us: seq<u64>): seq<u64> { if us == [] then [] else us[..|us| - 1] }
  function Last(us: seq<u64>): u64 { if us == [] then 0 else us[|us| - 1] }

  /** Every sequence of `n` outputs, each drawn from `outs`. */
  ghost function AllDraws(outs: set<u64>, n: nat): set<seq<u64>>
  {
    if n == 0 then {[]}
    else set xs, u | xs in AllDraws(outs, n - 1) && u in outs :: xs + [u]
  }

  lemma {:induction false} DrawsHaveLength(outs: set<u64>, n: nat, us: seq<u64>)
    requires us in AllDraws(outs, n)
    ensures |us| == n
  {
    if n > 0 {
      var xs, u :| xs in AllDraws(outs, n - 1) && u in outs && us == xs + [u];
      DrawsHaveLength(outs, n - 1, xs);
    }
  }

  lemma DrawsSplit(outs: set<u64>, n: nat, us: seq<u64>)
    requires n > 0 && us in AllDraws(outs, n)
    ensures |us| == n && us == Front(us) + [Last(us)]
    ensures Front(us) in AllDraws(outs, n - 1) && Last(us) in outs
  {
    var xs, u :| xs in AllDraws(outs, n - 1) && u in outs && us == xs + [u];
    DrawsHaveLength(outs, n - 1, xs);
    assert Front(us) == xs;
  }

  lemma DrawsOverLast(outs: set<u64>, n: nat, u: u64)
    requires n > 0 && u in outs
    ensures |Fiber(AllDraws(outs, n), Last, u)| == |AllDraws(outs, n - 1)|
  {
    var over, fronts := Fiber(AllDraws(outs, n), Last, u), AllDraws(outs, n - 1);
    forall us | us in over ensures Front(us) in fronts && us == Front(us) + [u] {
      DrawsSplit(outs, n, us);
    }
    InjectiveBound(over, fronts, Front);
    DrawsExtend(outs, n, u, over, fronts);
  }

  lemma DrawsExtend(outs: set<u64>, n: nat, u: u64, over: set<seq<u64>>, fronts: set<seq<u64>>)
    requires n > 0 && u in outs
    requires over == Fiber(AllDraws(outs, n), Last, u) && fronts == AllDraws(outs, n - 1)
    ensures |fronts| <= |over|
  {
    var extend := (xs: seq<u64>) => xs + [u];
    forall xs | xs in fronts ensures extend(xs) in over && Front(extend(xs)) == xs {
      assert xs + [u] in AllDraws(outs, n);
    }
    InjectiveBound(fronts, over, extend);
  }

  lemma {:induction false} CountDraws(outs: set<u64>, n: nat)
    ensures |AllDraws(outs, n)| == Pow(|outs|, n)
  {
    if n > 0 {
      CountDraws(outs, n - 1);
      forall us | us in AllDraws(outs, n) ensures Last(us) in outs { DrawsSplit(outs, n, us); }
      forall u | u in outs ensures |Fiber(AllDraws(outs, n), Last, u)| == Pow(|outs|, n - 1) {
        DrawsOverLast(outs, n, u);
      }
      FiberTotal(AllDraws(outs, n), outs, Last, Pow(|outs|, n - 1));
    }
  }

  // ---------------------------------------------------------------- draws that accept

  predicate Accepts(r: nat, ds: seq<int>, rest: int, us: seq<u64>)
    requires r > 0
  {
    |us| == |ds| && Multiple(r, rest + Weighted(ds, us))
  }

  ghost function Accepting(outs: set<u64>, r: nat, ds: seq<int>, rest: int): set<seq<u64>>
    requires r > 0
  {
    set us | us in AllDraws(outs, |ds|) && Accepts(r, ds, rest, us)
  }

  /** The last item is invalid: over each choice of the other draws at most two outputs accept. */
  lemma TwoOverFront(outs: set<u64>, r: nat, ds: seq<int>, rest: int, xs: seq<u64>)
    requires Prime(r) && r > TWO_64 && ds != [] && !Multiple(r, ds[|ds| - 1])
    ensures |Fiber(Accepting(outs, r, ds, rest), Front, xs)| <= 2
  {
    var over := Fiber(Accepting(outs, r, ds, rest), Front, xs);
    if over != {} {
      var us :| us in over;
      forall vs | vs in over ensures vs == us || vs == xs + [0] || vs == xs + [1] {
        SameLast(r, ds, rest, xs, us, vs);
      }
      if Last(us) > 1 {
        forall vs | vs in over ensures vs == us { SameLast(r, ds, rest, xs, us, vs); }
        SubsetBound(over, {us});
      } else {
        assert us == xs + [Last(us)];
        SubsetBound(over, {xs + [0], xs + [1]});
      }
    }
  }

  lemma SameLast(r: nat, ds: seq<int>, rest: int, xs: seq<u64>, us: seq<u64>, vs: seq<u64>)
    requires Prime(r) && r > TWO_64 && ds != [] && !Multiple(r, ds[|ds| - 1])
    requires Accepts(r, ds, rest, us) && Accepts(r, ds, rest, vs)
    requires Front(us) == xs && Front(vs) == xs
    ensures us == xs + [Last(us)] && vs == xs + [Last(vs)]
    ensures Weight(Last(us)) == Weight(Last(vs))
  {
    var n := |ds| - 1;
    SameWeight(r, rest + Weighted(ds[..n], xs), ds[n], Last(us), Last(vs));
  }

  /** Moving the last item's share into `rest`. */
  lemma AcceptsFront(r: nat, ds: seq<int>, rest: int, us: seq<u64>)
    requires r > 0 && ds != [] && Accepts(r, ds, rest, us)
    ensures Accepts(r, ds[..|ds| - 1], rest + Weight(Last(us)) * ds[|ds| - 1], Front(us))
  {}

  lemma OverLast(outs: set<u64>, r: nat, ds: seq<int>, rest: int, u: u64)
    requires r > 0 && ds != []
    ensures |Fiber(Accepting(outs, r, ds, rest), Last, u)|
         <= |Accepting(outs, r, ds[..|ds| - 1], rest + Weight(u) * ds[|ds| - 1])|
  {
    var n := |ds| - 1;
    var over := Fiber(Accepting(outs, r, ds, rest), Last, u);
    var rests := Accepting(outs, r, ds[..n], rest + Weight(u) * ds[n]);
    forall us | us in over ensures Front(us) in rests && us == Front(us) + [u] {
      DrawsSplit(outs, |ds|, us);
      AcceptsFront(r, ds, rest, us);
    }
    InjectiveBound(over, rests, Front);
  }

  lemma LastInvalid(outs: set<u64>, r: nat, ds: seq<int>, rest: int)
    requires Prime(r) && r > TWO_64 && ds != [] && !Multiple(r, ds[|ds| - 1])
    ensures |Accepting(outs, r, ds, rest)| <= 2 * Pow(|outs|, |ds| - 1)
  {
    var acc, draws := Accepting(outs, r, ds, rest), AllDraws(outs, |ds| - 1);
    forall us | us in acc ensures Front(us) in draws { DrawsSplit(outs, |ds|, us); }
    forall xs | xs in draws ensures |Fiber(acc, Front, xs)| <= 2 { TwoOverFront(outs, r, ds, rest, xs); }
    FiberBound(acc, draws, Front, 2);
    CountDraws(outs, |ds| - 1);
  }

  /** With an invalid item, at most `2 * m^(n-1)` of the `m^n` draws accept. */
  lemma {:induction false} FewDrawsAccept(outs: set<u64>, r: nat, ds: seq<int>, rest: int)
    requires Prime(r) && r > TWO_64 && !AllMultiples(r, ds)
    ensures |Accepting(outs, r, ds, rest)| <= 2 * Pow(|outs|, |ds| - 1)
    decreases |ds|, 1
  {
    var n := |ds| - 1;
    if !Multiple(r, ds[n]) {
      LastInvalid(outs, r, ds, rest);
    } else {
      assert !AllMultiples(r, ds[..n]);
      FewOverEach(outs, r, ds, rest, n);
      SumOverLast(outs, r, ds, rest, 2 * Pow(|outs|, n - 1));
      PowNext(|outs|, n);
    }
  }

  lemma {:induction false} FewOverEach(outs: set<u64>, r: nat, ds: seq<int>, rest: int, n: nat)
    requires Prime(r) && r > TWO_64 && |ds| == n + 1 && !AllMultiples(r, ds[..n]) && n > 0
    ensures forall u :: u in outs ==>
              |Accepting(outs, r, ds[..n], rest + Weight(u) * ds[n])| <= 2 * Pow(|outs|, n - 1)
    decreases |ds|, 0
  {
    forall u | u in outs
      ensures |Accepting(outs, r, ds[..n], rest + Weight(u) * ds[n])| <= 2 * Pow(|outs|, n - 1)
    {
      FewDrawsAccept(outs, r, ds[..n], rest + Weight(u) * ds[n]);
    }
  }

  lemma PowNext(b: nat, n: nat)
    requires n > 0
    ensures b * (2 * Pow(b, n - 1)) == 2 * Pow(b, n)
  {}

  lemma SumOverLast(outs: set<u64>, r: nat, ds: seq<int>, rest: int, bound: nat)
    requires r > 0 && ds != []
    requires forall u :: u in outs ==>
               |Accepting(outs, r, ds[..|ds| - 1], rest + Weight(u) * ds[|ds| - 1])| <= bound
    ensures |Accepting(outs, r, ds, rest)| <= |outs| * bound
  {
    var acc := Accepting(outs, r, ds, rest);
    forall us | us in acc ensures Last(us) in outs { DrawsSplit(outs, |ds|, us); }
    forall u | u in outs ensures |Fiber(acc, Last, u)| <= bound { OverLast(outs, r, ds, rest, u); }
    FiberBound(acc, outs, Last, bound);
  }
}
