/**
 * The closed form of a run of a pool, and the exact condition under which every order reaches it.
 *
 * For each report identity a run should keep the largest-valued report no older than the newest
 * promotion. The code keeps one report per identity and compares values only, so a superseded
 * report can shadow a current one of smaller value until the promotion that removes it arrives; and a
 * pool that holds its bound of reports takes no other, whatever its value. `Settles` says that neither
 * can happen, and is exact: `UnsettledOrders` gives two orders that keep different reports otherwise.
 */
module PoolClosedForm {
  import opened Bytes
  import Counting
  import opened Pools
  import opened PoolInvariant
  import opened PoolOrder

  // ---------------------------------------------------------------- what the messages say

  ghost predicate PromotedAt(ms: seq<Message>, c: CollateralId, p: Promotion)
  {
    Promote(p) in ms && p.collateralId == c && !c.EmptyId?
  }

  /** A report in `ms` against pool `c`, of identity `key`. */
  ghost predicate ReportedAs(ms: seq<Message>, c: CollateralId, key: ReportKey, d: Demotion)
  {
    Demote(d) in ms && d.collateralId == c && KeyOf(d) == key && !c.EmptyId?
  }

  /** No promotion of the pool is newer than `ts`. */
  ghost predicate Unsuperseded(ms: seq<Message>, c: CollateralId, ts: u64)
  {
    forall p :: PromotedAt(ms, c, p) ==> p.ts <= ts
  }

  ghost predicate Fresh(ms: seq<Message>, c: CollateralId, key: ReportKey, d: Demotion)
  {
    ReportedAs(ms, c, key, d) && Unsuperseded(ms, c, d.ts)
  }

  ghost predicate Stale(ms: seq<Message>, c: CollateralId, key: ReportKey, d: Demotion)
  {
    ReportedAs(ms, c, key, d) && !Unsuperseded(ms, c, d.ts)
  }

  /** The largest-valued report of `key` no older than the newest promotion. */
  ghost predicate Best(ms: seq<Message>, c: CollateralId, key: ReportKey, d: Demotion)
  {
    Fresh(ms, c, key, d) && forall f :: Fresh(ms, c, key, f) ==> f.value <= d.value
  }

  ghost predicate AnyFresh(ms: seq<Message>, c: CollateralId, key: ReportKey)
  {
    exists d :: Fresh(ms, c, key, d)
  }

  /** Whenever an identity has a current report, one of them is worth more than `e`. */
  ghost predicate Outbid(ms: seq<Message>, c: CollateralId, key: ReportKey, e: Demotion)
  {
    AnyFresh(ms, c, key) ==> exists d :: Fresh(ms, c, key, d) && e.value < d.value
  }

  /** No superseded report is worth as much as the current reports of its own identity. */
  ghost predicate Dominates(ms: seq<Message>, c: CollateralId)
  {
    forall key, e :: Stale(ms, c, key, e) ==> Outbid(ms, c, key, e)
  }

  /** The reports of an identity are all superseded, or all current and of one value. */
  ghost predicate Uniform(ms: seq<Message>, c: CollateralId)
  {
    forall key, d, e :: Fresh(ms, c, key, d) && ReportedAs(ms, c, key, e) ==>
      Unsuperseded(ms, c, e.ts) && e.value == d.value
  }

  ghost predicate NoneFresh(ms: seq<Message>, c: CollateralId)
  {
    forall key :: !AnyFresh(ms, c, key)
  }

  /** What it takes for the reports of a pool to come out the same: the more identities it has against the
      bound, the more. */
  ghost predicate SettlesAt(ms: seq<Message>, c: CollateralId)
  {
    var n := |Identities(ms, c)|;
    if n < MAX_REPORTS_PER_POOL then Dominates(ms, c)
    else if n == MAX_REPORTS_PER_POOL then Uniform(ms, c)
    else NoneFresh(ms, c)
  }

  ghost predicate Settles(ms: seq<Message>) { forall c :: SettlesAt(ms, c) }

  ghost predicate NewestPromotion(ms: seq<Message>, c: CollateralId, p: Option<Promotion>)
  {
    && (p.None? ==> forall q :: !PromotedAt(ms, c, q))
    && (p.Some? ==> PromotedAt(ms, c, p.value) && Unsuperseded(ms, c, p.value.ts))
  }

  ghost predicate NewestMemberSet(ms: seq<Message>, c: CollateralId, seen: u64)
  {
    && (forall m :: Member(m) in ms && m.collateralId == c ==> m.ts <= seen)
    && (seen == 0 || exists m :: Member(m) in ms && m.collateralId == c && m.ts == seen)
  }

  /** What a pool should show once `ms` has been delivered. */
  ghost predicate ClosedForm(ms: seq<Message>, c: CollateralId, sl: Slice)
  {
    && NewestPromotion(ms, c, sl.promotion)
    && NewestMemberSet(ms, c, sl.seen)
    && (forall key :: key in sl.reports <==> AnyFresh(ms, c, key))
    && (forall key :: key in sl.reports ==> Best(ms, c, key, sl.reports[key]))
  }

  // ---------------------------------------------------------------- every run

  /** Whatever the order: the promotion is the newest, and nothing kept is made up or superseded. */
  ghost predicate Sound(ms: seq<Message>, c: CollateralId, sl: Slice)
  {
    && NewestPromotion(ms, c, sl.promotion)
    && NewestMemberSet(ms, c, sl.seen)
    && (forall key :: key in sl.reports ==> Fresh(ms, c, key, sl.reports[key]))
  }

  lemma {:induction false} PromotionIsNewest(ms: seq<Message>, c: CollateralId)
    ensures NewestPromotion(ms, c, SliceRun(ms, c).promotion)
  {
    if ms != [] {
      var pre, m := ms[..|ms| - 1], ms[|ms| - 1];
      assert ms == pre + [m];
      PromotionIsNewest(pre, c);
      assert forall p :: PromotedAt(ms, c, p)
                       <==> PromotedAt(pre, c, p) || (m == Promote(p) && p.collateralId == c && !c.EmptyId?);
    }
  }

  lemma {:induction false} MemberSetIsNewest(ms: seq<Message>, c: CollateralId)
    ensures NewestMemberSet(ms, c, SliceRun(ms, c).seen)
  {
    if ms != [] {
      var pre, m := ms[..|ms| - 1], ms[|ms| - 1];
      assert ms == pre + [m];
      MemberSetIsNewest(pre, c);
    }
  }

  lemma {:induction false} KeptIsReported(ms: seq<Message>, c: CollateralId, key: ReportKey)
    requires key in SliceRun(ms, c).reports
    ensures ReportedAs(ms, c, key, SliceRun(ms, c).reports[key])
    ensures Survives(SliceRun(ms, c).promotion, SliceRun(ms, c).reports[key].ts)
  {
    var pre, m := ms[..|ms| - 1], ms[|ms| - 1];
    assert ms == pre + [m];
    var sl := SliceRun(pre, c);
    if key in sl.reports {
      KeptIsReported(pre, c, key);
    }
  }

  lemma RunIsSound(ms: seq<Message>, c: CollateralId)
    ensures Sound(ms, c, SliceRun(ms, c))
  {
    PromotionIsNewest(ms, c);
    MemberSetIsNewest(ms, c);
    var sl := SliceRun(ms, c);
    forall key | key in sl.reports
      ensures Fresh(ms, c, key, sl.reports[key])
    {
      KeptIsReported(ms, c, key);
    }
  }

  lemma KeptIsNamed(ms: seq<Message>, c: CollateralId)
    ensures SliceRun(ms, c).reports.Keys <= Identities(ms, c)
  {
    forall key | key in SliceRun(ms, c).reports ensures key in Identities(ms, c) { KeptIsReported(ms, c, key); }
  }

  /** A pool with no more identities than its bound has room for one it does not hold. */
  lemma RoomForOne(all: seq<Message>, ms: seq<Message>, c: CollateralId, key: ReportKey)
    requires (forall m :: m in ms ==> m in all) && key in Identities(all, c)
    ensures |Identities(all, c)| < MAX_REPORTS_PER_POOL ==> |SliceRun(ms, c).reports| < MAX_REPORTS_PER_POOL
    ensures |Identities(all, c)| <= MAX_REPORTS_PER_POOL && key !in SliceRun(ms, c).reports
        ==> |SliceRun(ms, c).reports| < MAX_REPORTS_PER_POOL
  {
    var r := SliceRun(ms, c).reports;
    KeptIsNamed(ms, c);
    Counting.SubsetBound(r.Keys, Identities(all, c));
    if key !in r { Counting.SubsetBound(r.Keys, Identities(all, c) - {key}); }
    assert |r| == |r.Keys|;
  }

  /** Among the reports of `all` delivered so far, one of the best has been kept. */
  lemma {:induction false} BestIsKept(all: seq<Message>, ms: seq<Message>, c: CollateralId, key: ReportKey, d: Demotion)
    requires SettlesAt(all, c) && (forall m :: m in ms ==> m in all)
    requires Best(all, c, key, d) && Demote(d) in ms
    ensures key in SliceRun(ms, c).reports && Best(all, c, key, SliceRun(ms, c).reports[key])
  {
    var pre, m := ms[..|ms| - 1], ms[|ms| - 1];
    assert ms == pre + [m];
    var sl := SliceRun(pre, c);
    PromotionIsNewest(pre, c);
    if Demote(d) in pre {
      BestIsKept(all, pre, c, key, d);
      BestSurvives(all, c, key, sl, m);
    } else {
      assert m == Demote(d);
      assert key in Identities(all, c);
      NothingAboveBest(all, c, key, d, d);
      RoomForOne(all, pre, c, key);
      if key in sl.reports {
        KeptIsReported(pre, c, key);
        assert ReportedAs(all, c, key, sl.reports[key]);
        NothingAboveBest(all, c, key, sl.reports[key], d);
      }
      assert sl.promotion.Some? ==> PromotedAt(all, c, sl.promotion.value);
    }
  }

  /** Where reports settle, no report of the identity is worth more than the best; at the bound, none less. */
  lemma NothingAboveBest(all: seq<Message>, c: CollateralId, key: ReportKey, e: Demotion, d: Demotion)
    requires SettlesAt(all, c) && Best(all, c, key, d) && ReportedAs(all, c, key, e)
    ensures e.value <= d.value
    ensures e.value == d.value ==> Best(all, c, key, e)
    ensures e.value < d.value ==> |Identities(all, c)| < MAX_REPORTS_PER_POOL
    ensures |Identities(all, c)| <= MAX_REPORTS_PER_POOL
  {
    assert AnyFresh(all, c, key);
    if Stale(all, c, key, e) && |Identities(all, c)| < MAX_REPORTS_PER_POOL {
      assert Outbid(all, c, key, e);
    } else {
      assert Fresh(all, c, key, d);
    }
  }

  lemma BestSurvives(all: seq<Message>, c: CollateralId, key: ReportKey, sl: Slice, m: Message)
    requires SettlesAt(all, c) && m in all
    requires key in sl.reports && Best(all, c, key, sl.reports[key])
    ensures var t := SliceStep(sl, m, c); key in t.reports && Best(all, c, key, t.reports[key])
  {
    if IdOf(m) == c && !c.EmptyId? {
      if m.Promote? {
        assert PromotedAt(all, c, m.p);
      } else if m.Demote? && KeyOf(m.d) == key {
        NothingAboveBest(all, c, key, m.d, sl.reports[key]);
      }
    }
  }

  /** Among the reports with a property, one has the largest value. */
  lemma {:induction false} TopReport(ms: seq<Message>, p: Demotion -> bool, d: Demotion) returns (top: Demotion)
    requires p(d)
    ensures p(top) && d.value <= top.value
    ensures forall f :: p(f) && Demote(f) in ms ==> f.value <= top.value
  {
    if ms == [] {
      top := d;
    } else {
      top := TopReport(ms[1..], p, d);
      assert forall f :: Demote(f) in ms ==> Demote(f) in ms[1..] || ms[0] == Demote(f);
      if ms[0].Demote? && p(ms[0].d) && top.value < ms[0].d.value {
        top := ms[0].d;
      }
    }
  }

  /** Where a pool's reports settle, every run reaches the closed form. */
  lemma RunReachesClosedForm(ms: seq<Message>, c: CollateralId)
    requires SettlesAt(ms, c)
    ensures ClosedForm(ms, c, SliceRun(ms, c))
  {
    RunIsSound(ms, c);
    var sl := SliceRun(ms, c);
    forall key | AnyFresh(ms, c, key)
      ensures key in sl.reports && Best(ms, c, key, sl.reports[key])
    {
      var d :| Fresh(ms, c, key, d);
      var best := TopReport(ms, f => Fresh(ms, c, key, f), d);
      assert Best(ms, c, key, best);
      BestIsKept(ms, ms, c, key, best);
    }
  }

  // ---------------------------------------------------------------- order

  /** The same promotions and reports. */
  ghost predicate SameNews(a: seq<Message>, b: seq<Message>)
  {
    forall m: Message :: m.Promote? || m.Demote? ==> (m in a <==> m in b)
  }

  lemma SameSaid(a: seq<Message>, b: seq<Message>)
    requires SameNews(a, b)
    ensures forall c, p :: PromotedAt(a, c, p) == PromotedAt(b, c, p)
    ensures forall c, ts :: Unsuperseded(a, c, ts) == Unsuperseded(b, c, ts)
    ensures forall c, key, d :: Fresh(a, c, key, d) == Fresh(b, c, key, d)
    ensures forall c, key, d :: Stale(a, c, key, d) == Stale(b, c, key, d)
    ensures forall c, key :: AnyFresh(a, c, key) == AnyFresh(b, c, key)
    ensures forall c :: Identities(a, c) == Identities(b, c)
  {
  }

  lemma SettlesSameAt(a: seq<Message>, b: seq<Message>, c: CollateralId)
    requires SameNews(a, b) && SettlesAt(a, c)
    ensures SettlesAt(b, c)
  {
    SameSaid(a, b);
    var n := |Identities(a, c)|;
    assert Identities(a, c) == Identities(b, c);
    if n < MAX_REPORTS_PER_POOL {
      forall key, e | Stale(b, c, key, e) ensures Outbid(b, c, key, e) { assert Outbid(a, c, key, e); }
    } else if n == MAX_REPORTS_PER_POOL {
      forall key, d, e | Fresh(b, c, key, d) && ReportedAs(b, c, key, e)
        ensures Unsuperseded(b, c, e.ts) && e.value == d.value
      {
        assert Fresh(a, c, key, d) && ReportedAs(a, c, key, e);
      }
    }
  }

  lemma SettlesSame(a: seq<Message>, b: seq<Message>)
    requires SameNews(a, b) && Settles(a)
    ensures Settles(b)
  {
    forall c ensures SettlesAt(b, c) { SettlesSameAt(a, b, c); }
  }

  /** The same identities, each with the same value. */
  ghost predicate SameReports(a: Reports, b: Reports)
  {
    a.Keys == b.Keys && forall k :: k in a ==> a[k].value == b[k].value
  }

  /** Equal in who belongs where, promotions, retained reports, reservations and optimistic status. What
      backs a pool is `PoolCollateral`'s subject. */
  ghost predicate SameStatus(s: State, t: State)
  {
    && s.binding == t.binding
    && (forall c :: TsOf(PromotionOf(s, c)) == TsOf(PromotionOf(t, c)))
    && (forall c :: SameReports(ReportsOf(s, c), ReportsOf(t, c)))
    && (forall c :: Reserved(s, c) == Reserved(t, c))
    && (forall k :: IsOptimistic(s, k) == IsOptimistic(t, k))
  }

  lemma {:induction false} BindingIsUnion(home: Homes, ms: seq<Message>)
    requires forall m :: m in ms ==> AgreesWith(home, m)
    ensures forall k :: k in BindingRun(ms) <==> exists m :: m in ms && m.Member? && k in m.m.pubkeys
    ensures forall k :: k in BindingRun(ms) ==> k in home && BindingRun(ms)[k] == home[k]
  {
    if ms != [] {
      var pre, m := ms[..|ms| - 1], ms[|ms| - 1];
      assert ms == pre + [m];
      BindingIsUnion(home, pre);
      assert AgreesWith(home, m);
    }
  }

  lemma SameBindings(home: Homes, a: seq<Message>, b: seq<Message>)
    requires forall m :: m in a ==> AgreesWith(home, m)
    requires SameMessages(a, b)
    ensures BindingRun(a) == BindingRun(b)
  {
    BindingIsUnion(home, a);
    BindingIsUnion(home, b);
  }

  lemma SameReservations(a: Reports, b: Reports)
    requires SameReports(a, b)
    requires forall k :: k in a ==> KeyOf(a[k]) == k
    requires forall k :: k in b ==> KeyOf(b[k]) == k
    ensures SlotMax(a) == SlotMax(b)
  {
    SlotMaxExact(a);
    var m := SlotMax(a);
    forall s | s in m
      ensures Attained(b, s, m[s])
    {
      assert Attained(a, s, m[s]);
      var k :| k in a && a[k].slot == s && a[k].value == m[s];
      assert KeyOf(a[k]).slot == KeyOf(b[k]).slot;
    }
    assert IsSlotMax(b, m) by {
      forall k | k in b
        ensures b[k].slot in m && b[k].value <= m[b[k].slot]
      {
        assert k in a && KeyOf(a[k]).slot == KeyOf(b[k]).slot;
      }
    }
    SlotMaxUnique(b, m);
  }

  /** Equal bindings and equal slices give equal reservations and optimistic status. */
  lemma SlicesAreStatus(s: State, t: State)
    requires Valid(s) && Valid(t) && s.binding == t.binding
    requires forall c :: TsOf(PromotionOf(s, c)) == TsOf(PromotionOf(t, c))
    requires forall c :: SameReports(ReportsOf(s, c), ReportsOf(t, c))
    ensures SameStatus(s, t)
  {
    forall c
      ensures Reserved(s, c) == Reserved(t, c)
    {
      ReservationsFit(s, c);
      ReservationsFit(t, c);
      SameReservations(ReportsOf(s, c), ReportsOf(t, c));
    }
    forall k
      ensures IsOptimistic(s, k) == IsOptimistic(t, k)
    {
      if k in s.binding {
        assert BoundToMember(s, k) && BoundToMember(t, k);
        var c := s.binding[k];
        assert TsOf(PromotionOf(s, c)) == TsOf(PromotionOf(t, c));
        assert ReportsOf(s, c).Keys == ReportsOf(t, c).Keys;
        assert Reported(s.pools[c], k) == Reported(t.pools[c], k);
      }
    }
  }

  ghost function Replica(g: OperatorGroup, mode: PromotionMode, ms: seq<Message>): State
  {
    Run(New(g, mode), ms)
  }

  // ---------------------------------------------------------------- and only then

  /** The messages of `ms` that satisfy `f`, in order. */
  function Those(ms: seq<Message>, f: Message -> bool): seq<Message>
  {
    if ms == [] then [] else (if f(ms[0]) then [ms[0]] else []) + Those(ms[1..], f)
  }

  lemma {:induction false} ThoseIn(ms: seq<Message>, f: Message -> bool)
    ensures forall m :: m in Those(ms, f) <==> m in ms && f(m)
  {
    if ms != [] {
      ThoseIn(ms[1..], f);
      assert ms == [ms[0]] + ms[1..];
    }
  }

  lemma {:induction false} SplitCounts(ms: seq<Message>, f: Message -> bool, rest: Message -> bool)
    requires forall m :: rest(m) == !f(m)
    ensures multiset(Those(ms, f)) + multiset(Those(ms, rest)) == multiset(ms)
  {
    if ms != [] {
      SplitCounts(ms[1..], f, rest);
      assert ms == [ms[0]] + ms[1..];
    }
  }

  /** The messages of which `f` holds and the others. */
  lemma SplitBy(ms: seq<Message>, f: Message -> bool) returns (xs: seq<Message>, ys: seq<Message>)
    ensures multiset(xs) + multiset(ys) == multiset(ms)
    ensures forall m :: m in xs <==> m in ms && f(m)
    ensures forall m :: m in ys <==> m in ms && !f(m)
  {
    var rest := (m: Message) => !f(m);
    xs, ys := Those(ms, f), Those(ms, rest);
    SplitCounts(ms, f, rest);
    ThoseIn(ms, f);
    ThoseIn(ms, rest);
  }

  ghost predicate Reorders(a: seq<Message>, ms: seq<Message>)
  {
    multiset(a) == multiset(ms)
  }

  lemma ReorderSame(a: seq<Message>, ms: seq<Message>)
    requires Reorders(a, ms)
    ensures SameMessages(a, ms)
  {
    forall m
      ensures m in a <==> m in ms
    {
      assert m in multiset(a) <==> m in multiset(ms);
    }
  }

  lemma {:induction false} NothingReported(ms: seq<Message>, c: CollateralId)
    requires forall m :: m in ms ==> !m.Demote?
    ensures SliceRun(ms, c).reports == map[]
  {
    if ms != [] { NothingReported(ms[..|ms| - 1], c); }
  }

  /** A report kept while no promotion arrives stays, or makes way for one worth more. */
  lemma {:induction false} KeptOrRaised(
    front: seq<Message>, back: seq<Message>, c: CollateralId, key: ReportKey, value: u128)
    requires forall m :: m in back ==> !m.Promote?
    requires key in SliceRun(front, c).reports && SliceRun(front, c).reports[key].value >= value
    ensures var sl := SliceRun(front + back, c); key in sl.reports && sl.reports[key].value >= value
  {
    if back == [] {
      assert front + back == front;
    } else {
      var ms := front + back;
      assert ms[..|ms| - 1] == front + back[..|back| - 1];
      KeptOrRaised(front, back[..|back| - 1], c, key, value);
    }
  }

  /** The first report of an identity stays while nothing above it and no promotion arrives. */
  lemma {:induction false} ShadowStays(e: Demotion, rest: seq<Message>)
    requires !e.collateralId.EmptyId?
    requires forall m :: m in rest ==> !m.Promote?
    requires forall m :: m in rest && m.Demote? && m.d.collateralId == e.collateralId && KeyOf(m.d) == KeyOf(e) ==>
      m.d.value <= e.value
    ensures var sl := SliceRun([Demote(e)] + rest, e.collateralId);
      sl.promotion.None? && KeyOf(e) in sl.reports && sl.reports[KeyOf(e)] == e
  {
    var ms := [Demote(e)] + rest;
    if rest == [] {
      assert ms[..0] == [] && SliceRun(ms[..0], e.collateralId) == Slice(None, map[], 0);
    } else {
      var front, m := rest[..|rest| - 1], rest[|rest| - 1];
      assert ms[..|ms| - 1] == [Demote(e)] + front;
      ShadowStays(e, front);
    }
  }

  lemma {:induction false} PromotesOnlyDrop(front: seq<Message>, back: seq<Message>, c: CollateralId, key: ReportKey)
    requires forall m :: m in back ==> m.Promote?
    ensures var sl, t := SliceRun(front, c), SliceRun(front + back, c);
      key in t.reports ==> key in sl.reports && t.reports[key] == sl.reports[key]
  {
    var ms := front + back;
    if back == [] {
      assert ms == front;
    } else {
      assert ms[..|ms| - 1] == front + back[..|back| - 1];
      PromotesOnlyDrop(front, back[..|back| - 1], c, key);
    }
  }

  lemma MoveToFront(ms: seq<Message>, m: Message) returns (rest: seq<Message>)
    requires m in ms
    ensures multiset([m] + rest) == multiset(ms)
    ensures forall x :: x in rest ==> x in ms
  {
    var i :| 0 <= i < |ms| && ms[i] == m;
    rest := ms[..i] + ms[i + 1..];
    assert ms == ms[..i] + [m] + ms[i + 1..];
  }

  /** Promotions first, then a current report: its identity is kept, at no lower value. */
  lemma CurrentFirst(ms: seq<Message>, c: CollateralId, key: ReportKey, f: Demotion) returns (a: seq<Message>)
    requires Fresh(ms, c, key, f)
    ensures Reorders(a, ms)
    ensures key in SliceRun(a, c).reports && SliceRun(a, c).reports[key].value >= f.value
  {
    var ps, ns := SplitBy(ms, (m: Message) => m.Promote?);
    var rest := MoveToFront(ns, Demote(f));
    a := (ps + [Demote(f)]) + rest;
    assert multiset(a) == multiset(ps) + multiset([Demote(f)] + rest);
    assert forall p :: PromotedAt(ps, c, p) ==> PromotedAt(ms, c, p);
    CurrentKept(ps, f, rest);
  }

  lemma CurrentKept(ps: seq<Message>, f: Demotion, rest: seq<Message>)
    requires !f.collateralId.EmptyId? && Unsuperseded(ps, f.collateralId, f.ts)
    requires (forall m :: m in ps ==> m.Promote?) && (forall m :: m in rest ==> !m.Promote?)
    ensures var r := SliceRun((ps + [Demote(f)]) + rest, f.collateralId).reports;
      KeyOf(f) in r && r[KeyOf(f)].value >= f.value
  {
    var c, front := f.collateralId, ps + [Demote(f)];
    NothingReported(ps, c);
    PromotionIsNewest(ps, c);
    assert front[..|ps|] == ps;
    KeptOrRaised(front, rest, c, KeyOf(f), f.value);
  }

  /** A superseded report first, promotions last: what it shadowed is gone. */
  lemma ShadowFirst(ms: seq<Message>, c: CollateralId, key: ReportKey, e: Demotion) returns (b: seq<Message>)
    requires Stale(ms, c, key, e) && forall d :: ReportedAs(ms, c, key, d) ==> d.value <= e.value
    ensures Reorders(b, ms) && key !in SliceRun(b, c).reports
  {
    var ps, ns := SplitBy(ms, (m: Message) => m.Promote?);
    var rest := MoveToFront(ns, Demote(e));
    var front := [Demote(e)] + rest;
    b := front + ps;
    ReorderSame(b, ms);
    forall m | m in rest && m.Demote? && m.d.collateralId == c && KeyOf(m.d) == key
      ensures m.d.value <= e.value
    {
      assert ReportedAs(ms, c, key, m.d);
    }
    ShadowStays(e, rest);
    PromotesOnlyDrop(front, ps, c, key);
    RunIsSound(b, c);
    SameSaid(b, ms);
  }

  // ---------------------------------------------------------------- at the bound on reports

  /** Without promotions a pool keeps every identity until it is full. */
  lemma {:induction false} FullOrAll(ms: seq<Message>, c: CollateralId)
    requires !c.EmptyId? && forall m :: m in ms ==> !m.Promote?
    ensures SliceRun(ms, c).promotion.None?
    ensures |SliceRun(ms, c).reports| >= MAX_REPORTS_PER_POOL || Identities(ms, c) <= SliceRun(ms, c).reports.Keys
  {
    if ms != [] {
      var pre, m := ms[..|ms| - 1], ms[|ms| - 1];
      assert ms == pre + [m];
      FullOrAll(pre, c);
    }
  }

  lemma FullOf(ms: seq<Message>, c: CollateralId)
    requires !c.EmptyId? && (forall m :: m in ms ==> !m.Promote?) && |Identities(ms, c)| >= MAX_REPORTS_PER_POOL
    ensures |SliceRun(ms, c).reports| >= MAX_REPORTS_PER_POOL
  {
    FullOrAll(ms, c);
    var r := SliceRun(ms, c).reports;
    if Identities(ms, c) <= r.Keys {
      Counting.SubsetBound(Identities(ms, c), r.Keys);
      assert |r| == |r.Keys|;
    }
  }

  /** A full pool takes no report. */
  lemma {:induction false} FullStays(front: seq<Message>, back: seq<Message>, c: CollateralId)
    requires |SliceRun(front, c).reports| >= MAX_REPORTS_PER_POOL && forall m :: m in back ==> m.Demote?
    ensures SliceRun(front + back, c) == SliceRun(front, c)
  {
    if back == [] {
      assert front + back == front;
    } else {
      var ms := front + back;
      assert ms[..|ms| - 1] == front + back[..|back| - 1] && back[|back| - 1] in back;
      FullStays(front, back[..|back| - 1], c);
    }
  }

  predicate OfIdentity(m: Message, c: CollateralId, key: ReportKey)
  {
    m.Demote? && m.d.collateralId == c && KeyOf(m.d) == key
  }

  /** What comes of an identity when the pool is full before its reports in `ks` arrive, promotions last. */
  lemma RefusedWhenFull(front: seq<Message>, ks: seq<Message>, ps: seq<Message>, c: CollateralId, key: ReportKey)
    requires !c.EmptyId? && (forall m :: m in front ==> !m.Promote?) && |Identities(front, c)| >= MAX_REPORTS_PER_POOL
    requires (forall m :: m in ks ==> m.Demote?) && (forall m :: m in ps ==> m.Promote?)
    ensures var sl, t := SliceRun(front, c), SliceRun((front + ks) + ps, c);
      key in t.reports ==> key in sl.reports && t.reports[key] == sl.reports[key]
  {
    FullOf(front, c);
    FullStays(front, ks, c);
    PromotesOnlyDrop(front + ks, ps, c, key);
  }

  /** With as many identities as the bound: a report that comes first keeps out the others of its identity. */
  lemma FirstHoldsOut(ms: seq<Message>, c: CollateralId, key: ReportKey, x: Demotion) returns (b: seq<Message>)
    requires |Identities(ms, c)| >= MAX_REPORTS_PER_POOL && ReportedAs(ms, c, key, x)
    ensures Reorders(b, ms)
    ensures key in SliceRun(b, c).reports ==> SliceRun(b, c).reports[key] == x
  {
    var ps, ns := SplitBy(ms, (m: Message) => m.Promote?);
    var ks, os := SplitBy(ns, (m: Message) => OfIdentity(m, c, key));
    var rest := MoveToFront(ks, Demote(x));
    var front := [Demote(x)] + os;
    b := (front + rest) + ps;
    assert multiset(b) == multiset([Demote(x)] + rest) + multiset(os) + multiset(ps);
    SameIdentities(ms, front, c, key, x);
    ShadowStays(x, os);
    RefusedWhenFull(front, rest, ps, c, key);
  }

  lemma SameIdentities(ms: seq<Message>, front: seq<Message>, c: CollateralId, key: ReportKey, x: Demotion)
    requires ReportedAs(ms, c, key, x) && Demote(x) in front
    requires forall m :: m in ms && !m.Promote? && !OfIdentity(m, c, key) ==> m in front
    ensures Identities(ms, c) <= Identities(front, c) && |Identities(ms, c)| <= |Identities(front, c)|
  {
    forall k | k in Identities(ms, c) ensures k in Identities(front, c) {
      var m :| m in ms && m.Demote? && m.d.collateralId == c && KeyOf(m.d) == k;
      assert k == key ==> Demote(x) in front && KeyOf(x) == k;
    }
    Counting.SubsetBound(Identities(ms, c), Identities(front, c));
  }

  /** With more identities than the bound any of them can be kept out. */
  lemma CrowdedOut(ms: seq<Message>, c: CollateralId, key: ReportKey) returns (b: seq<Message>)
    requires !c.EmptyId? && |Identities(ms, c)| > MAX_REPORTS_PER_POOL
    ensures Reorders(b, ms) && key !in SliceRun(b, c).reports
  {
    var ps, ns := SplitBy(ms, (m: Message) => m.Promote?);
    var ks, os := SplitBy(ns, (m: Message) => OfIdentity(m, c, key));
    b := (os + ks) + ps;
    assert multiset(b) == (multiset(ks) + multiset(os)) + multiset(ps);
    forall k | k in Identities(ms, c) - {key} ensures k in Identities(os, c) {
      var m :| m in ms && m.Demote? && m.d.collateralId == c && KeyOf(m.d) == k;
      assert m in os;
    }
    Counting.SubsetBound(Identities(ms, c) - {key}, Identities(os, c));
    RefusedWhenFull(os, ks, ps, c, key);
    if key in SliceRun(os, c).reports { KeptIsReported(os, c, key); }
  }

  // ---------------------------------------------------------------- two orders

  /** The identity is kept in one order, and in the other it is not or at another value. */
  ghost predicate Differs(a: seq<Message>, b: seq<Message>, c: CollateralId, key: ReportKey)
  {
    var r, s := SliceRun(a, c).reports, SliceRun(b, c).reports;
    key in r && (key in s ==> r[key].value != s[key].value)
  }

  lemma ShadowedOrders(ms: seq<Message>, c: CollateralId) returns (a: seq<Message>, b: seq<Message>, key: ReportKey)
    requires !Dominates(ms, c)
    ensures Reorders(a, ms) && Reorders(b, ms) && Differs(a, b, c, key)
  {
    var e;
    key, e :| Stale(ms, c, key, e) && !Outbid(ms, c, key, e);
    var f :| Fresh(ms, c, key, f);
    var top := TopReport(ms, d => Stale(ms, c, key, d), e);
    forall d | ReportedAs(ms, c, key, d)
      ensures d.value <= top.value
    {
      if Fresh(ms, c, key, d) { assert d.value <= e.value; } else { assert Stale(ms, c, key, d); }
    }
    a := CurrentFirst(ms, c, key, f);
    b := ShadowFirst(ms, c, key, top);
  }

  lemma MixedOrders(ms: seq<Message>, c: CollateralId) returns (a: seq<Message>, b: seq<Message>, key: ReportKey)
    requires !Uniform(ms, c) && |Identities(ms, c)| >= MAX_REPORTS_PER_POOL
    ensures Reorders(a, ms) && Reorders(b, ms) && Differs(a, b, c, key)
  {
    var d, e;
    key, d, e :|
      Fresh(ms, c, key, d) && ReportedAs(ms, c, key, e) && !(Unsuperseded(ms, c, e.ts) && e.value == d.value);
    var raised := Unsuperseded(ms, c, e.ts) && d.value < e.value;
    var keep, hold := if raised then e else d, if raised then d else e;
    a := CurrentFirst(ms, c, key, keep);
    b := FirstHoldsOut(ms, c, key, hold);
    ReorderSame(b, ms);
    RunIsSound(b, c);
    SameSaid(b, ms);
  }

  lemma CrowdedOrders(ms: seq<Message>, c: CollateralId) returns (a: seq<Message>, b: seq<Message>, key: ReportKey)
    requires !NoneFresh(ms, c) && |Identities(ms, c)| > MAX_REPORTS_PER_POOL
    ensures Reorders(a, ms) && Reorders(b, ms) && Differs(a, b, c, key)
  {
    key :| AnyFresh(ms, c, key);
    var f :| Fresh(ms, c, key, f);
    a := CurrentFirst(ms, c, key, f);
    b := CrowdedOut(ms, c, key);
  }

  /** If a pool's reports do not settle, two orders of the same messages keep different reports. */
  lemma UnsettledOrders(ms: seq<Message>)
    returns (a: seq<Message>, b: seq<Message>, c: CollateralId, key: ReportKey)
    requires !Settles(ms)
    ensures Reorders(a, ms) && Reorders(b, ms) && Differs(a, b, c, key)
  {
    c :| !SettlesAt(ms, c);
    var n := |Identities(ms, c)|;
    if n < MAX_REPORTS_PER_POOL {
      a, b, key := ShadowedOrders(ms, c);
    } else if n == MAX_REPORTS_PER_POOL {
      a, b, key := MixedOrders(ms, c);
    } else {
      a, b, key := CrowdedOrders(ms, c);
    }
  }
}
