/**
 * Inputs at the two bounds: a full pool refuses even a larger value for an identity it holds, and with all
 * pools taken a promotion of another is refused, so the order in which messages arrive shows.
 */
module PoolCapacity {
  import opened Bytes
  import Counting
  import opened Pools
  import opened PoolOrder
  import opened PoolClosedForm
  import opened PoolIndependence

  function Demotes(ds: seq<Demotion>): seq<Message>
  {
    if ds == [] then [] else Demotes(ds[..|ds| - 1]) + [Demote(ds[|ds| - 1])]
  }

  /** The reports `ds` leave while there is room. */
  function Retained(ds: seq<Demotion>): Reports
  {
    if ds == [] then map[]
    else
      var r, d := Retained(ds[..|ds| - 1]), ds[|ds| - 1];
      if KeyOf(d) in r && d.value <= r[KeyOf(d)].value then r else r[KeyOf(d) := d]
  }

  predicate Against(ds: seq<Demotion>, c: CollateralId)
  {
    forall i :: 0 <= i < |ds| ==> ds[i].collateralId == c
  }

  ghost predicate HasRoom(ds: seq<Demotion>)
  {
    forall n :: 0 <= n < |ds| ==> |Retained(ds[..n])| < MAX_REPORTS_PER_POOL
  }

  /** Nothing but reports against `c`. */
  ghost predicate OnlyReports(s: State, c: CollateralId, r: Reports)
  {
    s.binding == map[] && s.pools.Keys <= {c} && PromotionOf(s, c) == None && ReportsOf(s, c) == r
  }

  lemma FewPools(s: State, c: CollateralId)
    requires s.pools.Keys <= {c}
    ensures |s.pools| <= 1
  {
    if c in s.pools { assert s.pools.Keys == {c}; } else { assert s.pools.Keys == {}; }
    assert |s.pools| == |s.pools.Keys|;
  }

  lemma ReportStep(s: State, c: CollateralId, r: Reports, d: Demotion)
    requires OnlyReports(s, c, r) && d.collateralId == c && !c.EmptyId?
    ensures OnlyReports(Apply(s, Demote(d)).0, c,
      if |r| >= MAX_REPORTS_PER_POOL || (KeyOf(d) in r && d.value <= r[KeyOf(d)].value) then r else r[KeyOf(d) := d])
  {
    FewPools(s, c);
    assert Screen(s, c, d.pubkey) == None;
    assert PoolMut(s, c).reports == r && PoolMut(s, c).promotion == None;
  }

  lemma DemotesSnoc(g: OperatorGroup, mode: PromotionMode, ds: seq<Demotion>, d: Demotion)
    ensures Replica(g, mode, Demotes(ds + [d])) == Apply(Replica(g, mode, Demotes(ds)), Demote(d)).0
  {
    assert (ds + [d])[..|ds|] == ds;
    var ms := Demotes(ds + [d]);
    assert ms[..|ms| - 1] == Demotes(ds);
  }

  lemma {:induction false} RunRetains(g: OperatorGroup, mode: PromotionMode, ds: seq<Demotion>, c: CollateralId)
    requires Against(ds, c) && !c.EmptyId? && HasRoom(ds)
    ensures OnlyReports(Replica(g, mode, Demotes(ds)), c, Retained(ds))
  {
    if ds != [] {
      var n := |ds| - 1;
      var pre := ds[..n];
      forall i | 0 <= i < n ensures |Retained(pre[..i])| < MAX_REPORTS_PER_POOL { assert pre[..i] == ds[..i]; }
      RunRetains(g, mode, pre, c);
      assert ds == pre + [ds[n]] && |Retained(pre)| < MAX_REPORTS_PER_POOL;
      DemotesSnoc(g, mode, pre, ds[n]);
      ReportStep(Replica(g, mode, Demotes(pre)), c, Retained(pre), ds[n]);
    }
  }

  /** No two reports have one identity. */
  predicate Distinct(ds: seq<Demotion>)
  {
    forall i, j :: 0 <= i < j < |ds| ==> KeyOf(ds[i]) != KeyOf(ds[j])
  }

  lemma {:induction false} DistinctRetained(ds: seq<Demotion>)
    requires Distinct(ds)
    ensures |Retained(ds)| == |ds|
    ensures forall i :: 0 <= i < |ds| ==> KeyOf(ds[i]) in Retained(ds) && Retained(ds)[KeyOf(ds[i])] == ds[i]
    ensures forall k :: k in Retained(ds) ==> exists i :: 0 <= i < |ds| && KeyOf(ds[i]) == k
  {
    if ds != [] {
      var n := |ds| - 1;
      DistinctRetained(ds[..n]);
      assert KeyOf(ds[n]) !in Retained(ds[..n]);
      assert Retained(ds) == Retained(ds[..n])[KeyOf(ds[n]) := ds[n]];
    }
  }

  /** A larger report that came first stays, and takes no extra room. */
  lemma {:induction false} FirstStays(e: Demotion, ds: seq<Demotion>)
    requires Distinct(ds) && ds != [] && KeyOf(ds[0]) == KeyOf(e) && ds[0].value < e.value
    ensures KeyOf(e) in Retained([e] + ds) && Retained([e] + ds)[KeyOf(e)] == e && |Retained([e] + ds)| <= |ds|
  {
    var n := |ds| - 1;
    var all := [e] + ds;
    assert all[..|all| - 1] == [e] + ds[..n] && all[|all| - 1] == ds[n];
    if n == 0 {
      assert [e] + ds[..0] == [e] && [e][..0] == [];
      assert Retained([e]) == map[KeyOf(e) := e];
    } else {
      FirstStays(e, ds[..n]);
      assert KeyOf(ds[0]) != KeyOf(ds[n]);
    }
  }

  lemma {:induction false} OnePerReport(ds: seq<Demotion>)
    ensures |Retained(ds)| <= |ds|
  {
    if ds != [] { OnePerReport(ds[..|ds| - 1]); }
  }

  lemma FirstHasRoom(e: Demotion, ds: seq<Demotion>)
    requires Distinct(ds) && |ds| == MAX_REPORTS_PER_POOL && KeyOf(ds[0]) == KeyOf(e) && ds[0].value < e.value
    ensures HasRoom([e] + ds)
  {
    var all := [e] + ds;
    forall n | 0 <= n < |all| ensures |Retained(all[..n])| < MAX_REPORTS_PER_POOL {
      if n < 2 {
        OnePerReport(all[..n]);
      } else {
        assert all[..n] == [e] + ds[..n - 1];
        FirstStays(e, ds[..n - 1]);
      }
    }
  }

  lemma LastIsRefused(g: OperatorGroup, mode: PromotionMode, c: CollateralId, ds: seq<Demotion>, e: Demotion)
    requires Distinct(ds) && |ds| == MAX_REPORTS_PER_POOL && Against(ds + [e], c) && !c.EmptyId?
    ensures ReportsOf(Replica(g, mode, Demotes(ds + [e])), c) == Retained(ds)
  {
    forall n | 0 <= n < |ds| ensures |Retained(ds[..n])| < MAX_REPORTS_PER_POOL { OnePerReport(ds[..n]); }
    forall i | 0 <= i < |ds| ensures ds[i].collateralId == c { assert (ds + [e])[i] == ds[i]; }
    assert (ds + [e])[|ds|] == e;
    RunRetains(g, mode, ds, c);
    DistinctRetained(ds);
    DemotesSnoc(g, mode, ds, e);
    ReportStep(Replica(g, mode, Demotes(ds)), c, Retained(ds), e);
  }

  /** A pool filled to its bound, and a larger value for one of its identities: first it is kept, last
      it is refused. */
  lemma FullPoolDisagrees(g: OperatorGroup, mode: PromotionMode, c: CollateralId, ds: seq<Demotion>, e: Demotion)
    requires Distinct(ds) && |ds| == MAX_REPORTS_PER_POOL && Against(ds + [e], c) && !c.EmptyId?
    requires KeyOf(ds[0]) == KeyOf(e) && ds[0].value < e.value
    ensures !SameStatus(Replica(g, mode, Demotes(ds + [e])), Replica(g, mode, Demotes([e] + ds)))
  {
    var s, t := Replica(g, mode, Demotes(ds + [e])), Replica(g, mode, Demotes([e] + ds));
    LastIsRefused(g, mode, c, ds, e);
    DistinctRetained(ds);
    FirstHasRoom(e, ds);
    forall i | 0 <= i < |[e] + ds| ensures ([e] + ds)[i].collateralId == c {
      if i == 0 { assert (ds + [e])[|ds|] == e; } else { assert ([e] + ds)[i] == (ds + [e])[i - 1]; }
    }
    RunRetains(g, mode, [e] + ds, c);
    FirstStays(e, ds);
    assert ReportsOf(s, c)[KeyOf(e)].value != ReportsOf(t, c)[KeyOf(e)].value;
    assert !SameReports(ReportsOf(s, c), ReportsOf(t, c));
  }

  /** Such a pool exists: one report for each of 1024 slots. */
  lemma FullPoolExists(c: CollateralId, k: Pubkey, b: BlockHash) returns (ds: seq<Demotion>, e: Demotion)
    requires !c.EmptyId?
    ensures Distinct(ds) && |ds| == MAX_REPORTS_PER_POOL && Against(ds + [e], c)
    ensures KeyOf(ds[0]) == KeyOf(e) && ds[0].value < e.value
  {
    ds := seq(MAX_REPORTS_PER_POOL, i requires 0 <= i < MAX_REPORTS_PER_POOL => Demotion(1, i, c, k, b, 1, []));
    e := Demotion(1, 0, c, k, b, 2, []);
  }

  // ---------------------------------------------------------------- the bound on pools

  /** A promotion or report of a pool too many: first it shows, last it does not. */
  lemma PoolTooManyDisagrees(home: Homes, g: OperatorGroup, mode: PromotionMode,
                             zs: seq<Message>, x: Message)
    requires Agrees(home, zs) && NoneStrays(home, zs) && |PoolIds(zs)| >= MAX_UNBOUND_POOLS
    requires IsStatus(x) && IdOf(x) !in PoolIds(zs)
    ensures ShowsIn(Replica(g, mode, [x] + zs), Replica(g, mode, zs + [x]), IdOf(x))
  {
    var c := IdOf(x);
    forall m | m in zs ensures !StatusOf(m, c) { assert StatusOf(m, c) ==> Opens(m) && IdOf(m) in PoolIds(zs); }
    FirstShows(g, mode, [x], zs, c);
    RunOpens(home, New(g, mode), zs);
    var s := Replica(g, mode, zs);
    if PoolIds(zs) <= s.pools.Keys {
      Counting.SubsetBound(PoolIds(zs), s.pools.Keys);
      assert |s.pools| == |s.pools.Keys|;
    }
    LateShowsNot(g, mode, zs, [x], [], c);
    assert (zs + [x]) + [] == zs + [x];
  }

  /** A promotion for each of `n` pools. */
  function Promotes(n: nat): seq<Message>
  {
    if n == 0 then [] else Promotes(n - 1) + [Promote(Promotion(1, 7, Id(n - 1), Pubkey(n - 1)))]
  }

  lemma {:induction false} PromotesOpen(n: nat)
    ensures |PoolIds(Promotes(n))| == n && forall c :: c in PoolIds(Promotes(n)) ==> c.Id? && c.code < n
  {
    if n > 0 {
      var front, m := Promotes(n - 1), Promote(Promotion(1, 7, Id(n - 1), Pubkey(n - 1)));
      PromotesOpen(n - 1);
      PoolIdsNext(front, m);
      assert Id(n - 1) !in PoolIds(front);
    }
  }

  lemma {:induction false} PromotesOnly(n: nat)
    ensures forall m :: m in Promotes(n) ==> m.Promote?
  {
    if n > 0 { PromotesOnly(n - 1); }
  }

  /** Such messages exist: promotions of 257 pools. */
  lemma PoolTooManyExists() returns (home: Homes, zs: seq<Message>, x: Message)
    ensures Agrees(home, zs) && NoneStrays(home, zs) && |PoolIds(zs)| >= MAX_UNBOUND_POOLS
    ensures IsStatus(x) && IdOf(x) !in PoolIds(zs)
  {
    var n := MAX_UNBOUND_POOLS;
    home, zs, x := map[], Promotes(n), Promote(Promotion(1, 7, Id(n), Pubkey(n)));
    PromotesOpen(n);
    PromotesOnly(n);
  }
}
