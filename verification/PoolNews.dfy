/**
 * When hearing fewer messages is as good: lists that say as much about a pool settle alike and have the
 * same closed form.
 */
module PoolNews {
  import opened Bytes
  import Counting
  import opened Pools
  import opened PoolOrder
  import opened PoolClosedForm

  /** Hearing `x` is as good as hearing `y`: same newest promotion, same best reports, and nothing else. */
  ghost predicate SaysAsMuch(x: seq<Message>, y: seq<Message>, c: CollateralId)
  {
    && (forall ts :: Unsuperseded(x, c, ts) <==> Unsuperseded(y, c, ts))
    && ((exists p :: PromotedAt(x, c, p)) <==> (exists p :: PromotedAt(y, c, p)))
    && (forall key, d :: ReportedAs(x, c, key, d) ==> ReportedAs(y, c, key, d))
    && (forall key, d :: Best(y, c, key, d) ==> exists e :: Fresh(x, c, key, e) && e.value == d.value)
  }

  lemma AsMuchDominates(x: seq<Message>, y: seq<Message>, c: CollateralId)
    requires Dominates(y, c) && SaysAsMuch(x, y, c)
    ensures Dominates(x, c)
  {
    forall key, e | Stale(x, c, key, e) && AnyFresh(x, c, key)
      ensures exists d :: Fresh(x, c, key, d) && e.value < d.value
    {
      assert Stale(y, c, key, e);
      var f :| Fresh(x, c, key, f);
      assert Fresh(y, c, key, f);
      assert Outbid(y, c, key, e);
      var d :| Fresh(y, c, key, d) && e.value < d.value;
      var top := TopReport(y, g => Fresh(y, c, key, g), d);
      assert Best(y, c, key, top);
    }
  }

  lemma AsMuchUniform(x: seq<Message>, y: seq<Message>, c: CollateralId)
    requires Uniform(y, c) && SaysAsMuch(x, y, c)
    ensures Uniform(x, c) && Dominates(x, c)
  {
    forall key, d, e | Fresh(x, c, key, d) && ReportedAs(x, c, key, e)
      ensures Unsuperseded(x, c, e.ts) && e.value == d.value
    {
      assert Fresh(y, c, key, d) && ReportedAs(y, c, key, e);
    }
    forall key, e | Stale(x, c, key, e) ensures !AnyFresh(x, c, key) { }
  }

  lemma AsMuchNone(x: seq<Message>, y: seq<Message>, c: CollateralId)
    requires NoneFresh(y, c) && SaysAsMuch(x, y, c)
    ensures NoneFresh(x, c) && Uniform(x, c) && Dominates(x, c)
  {
    forall key, d | Fresh(x, c, key, d) ensures AnyFresh(y, c, key) { assert Fresh(y, c, key, d); }
  }

  /** Where `y` settles, so does what says as much about fewer identities. */
  lemma AsMuchSettles(x: seq<Message>, y: seq<Message>, c: CollateralId)
    requires SettlesAt(y, c) && SaysAsMuch(x, y, c) && Identities(x, c) <= Identities(y, c)
    ensures SettlesAt(x, c)
  {
    Counting.SubsetBound(Identities(x, c), Identities(y, c));
    var n := |Identities(y, c)|;
    if n < MAX_REPORTS_PER_POOL {
      AsMuchDominates(x, y, c);
    } else if n == MAX_REPORTS_PER_POOL {
      AsMuchUniform(x, y, c);
    } else {
      AsMuchNone(x, y, c);
    }
  }

  lemma AsMuchPromotion(x: seq<Message>, y: seq<Message>, c: CollateralId, p: Option<Promotion>, q: Option<Promotion>)
    requires SaysAsMuch(x, y, c) && NewestPromotion(x, c, p) && NewestPromotion(y, c, q)
    ensures TsOf(p) == TsOf(q)
  {
    assert p.Some? <==> exists r :: PromotedAt(x, c, r);
    assert q.Some? <==> exists r :: PromotedAt(y, c, r);
    if p.Some? {
      assert Unsuperseded(y, c, p.value.ts) && Unsuperseded(x, c, q.value.ts);
    }
  }

  lemma AsMuchReport(x: seq<Message>, y: seq<Message>, c: CollateralId, key: ReportKey)
    requires SaysAsMuch(x, y, c)
    ensures AnyFresh(x, c, key) <==> AnyFresh(y, c, key)
    ensures forall d, e :: Best(x, c, key, d) && Best(y, c, key, e) ==> d.value == e.value
  {
    assert forall d :: Fresh(x, c, key, d) ==> Fresh(y, c, key, d);
    if AnyFresh(y, c, key) {
      var d :| Fresh(y, c, key, d);
      var top := TopReport(y, f => Fresh(y, c, key, f), d);
      assert Best(y, c, key, top);
    }
  }

  lemma SameBestReports(x: seq<Message>, y: seq<Message>, c: CollateralId, u: Slice, v: Slice)
    requires forall key :: AnyFresh(x, c, key) <==> AnyFresh(y, c, key)
    requires forall key, d, e :: Best(x, c, key, d) && Best(y, c, key, e) ==> d.value == e.value
    requires ClosedForm(x, c, u) && ClosedForm(y, c, v)
    ensures SameReports(u.reports, v.reports)
  {
    assert forall key :: key in u.reports <==> key in v.reports;
  }

  lemma AsMuchClosedForm(x: seq<Message>, y: seq<Message>, c: CollateralId, u: Slice, v: Slice)
    requires SaysAsMuch(x, y, c) && ClosedForm(x, c, u) && ClosedForm(y, c, v)
    ensures TsOf(u.promotion) == TsOf(v.promotion) && SameReports(u.reports, v.reports)
  {
    AsMuchPromotion(x, y, c, u.promotion, v.promotion);
    forall key
      ensures AnyFresh(x, c, key) <==> AnyFresh(y, c, key)
      ensures forall d, e :: Best(x, c, key, d) && Best(y, c, key, e) ==> d.value == e.value
    {
      AsMuchReport(x, y, c, key);
    }
    SameBestReports(x, y, c, u, v);
  }
}
