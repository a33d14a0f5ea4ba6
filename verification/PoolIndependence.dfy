/**
 * Exactly when the order of messages does not show in the status, for every list of messages: however many
 * pools and reports it names, and whether or not its messages agree on who belongs where.
 */
module PoolIndependence {
  import opened Bytes
  import Counting
  import opened Pools
  import opened PoolInvariant
  import opened PoolOrder
  import opened PoolClosedForm
  import opened PoolNews

  // ---------------------------------------------------------------- keys that belong elsewhere

  /** No two member sets place a key in different pools. */
  ghost predicate OneHome(ms: seq<Message>)
  {
    forall x, y, k :: Member(x) in ms && Member(y) in ms && k in x.pubkeys && k in y.pubkeys
      ==> x.collateralId == y.collateralId
  }

  /** A promotion of the same pool, by a key that may belong to it, makes `m` void. */
  ghost predicate Overtaken(home: Homes, ms: seq<Message>, m: Message)
  {
    exists p :: PromotedAt(ms, IdOf(m), p) && !Strays(home, Promote(p)) && VoidAfter(m, p)
  }

  predicate VoidAfter(m: Message, p: Promotion) { (m.Promote? && m.p.ts <= p.ts) || (m.Demote? && m.d.ts < p.ts) }

  /** What a key that belongs elsewhere says makes no difference. */
  ghost predicate Idle(home: Homes, ms: seq<Message>)
  {
    forall m :: m in ms && Strays(home, m) ==> Overtaken(home, ms, m)
  }

  /** Member sets agree, there is room for every pool that needs it, the reports of every pool settle, and
      what keys say of pools they do not belong to makes no difference. */
  ghost predicate Orderly(ms: seq<Message>)
  {
    OneHome(ms) && Roomy(ms) && Settles(ms) && Idle(BindingRun(ms), ms)
  }

  predicate Places(m: Message, k: Pubkey) { m.Member? && k in m.m.pubkeys }

  lemma {:induction false} BindingIsPlaced(ms: seq<Message>)
    ensures forall k :: k in BindingRun(ms) ==> exists m :: m in ms && Places(m, k) && IdOf(m) == BindingRun(ms)[k]
    ensures forall m, k :: m in ms && Places(m, k) ==> k in BindingRun(ms)
  {
    if ms != [] {
      var pre, m := ms[..|ms| - 1], ms[|ms| - 1];
      assert ms == pre + [m];
      BindingIsPlaced(pre);
      forall k | k in BindingRun(ms) ensures exists x :: x in ms && Places(x, k) && IdOf(x) == BindingRun(ms)[k] {
        if Places(m, k) {
          assert m in ms;
        } else {
          var x :| x in pre && Places(x, k) && IdOf(x) == BindingRun(pre)[k];
          assert x in ms;
        }
      }
    }
  }

  ghost predicate Placed(ms: seq<Message>, k: Pubkey) { exists m :: m in ms && Places(m, k) }

  lemma KeysPlaced(ms: seq<Message>, k: Pubkey)
    ensures k in BindingRun(ms) <==> Placed(ms, k)
  {
    BindingIsPlaced(ms);
  }

  lemma PlacedEither(a: seq<Message>, b: seq<Message>, k: Pubkey)
    ensures Placed(a + b, k) <==> Placed(a, k) || Placed(b, k)
  {
    if m :| m in a && Places(m, k) { assert m in a + b; }
    if m :| m in b && Places(m, k) { assert m in a + b; }
  }

  /** Where member sets agree, what a run of them binds is where keys belong, in every order. */
  lemma HomesAgree(ms: seq<Message>)
    requires OneHome(ms)
    ensures Agrees(BindingRun(ms), ms)
  {
    BindingIsPlaced(ms);
    forall m, k | m in ms && Places(m, k) ensures BindingRun(ms)[k] == IdOf(m) {
      var x :| x in ms && Places(x, k) && IdOf(x) == BindingRun(ms)[k];
      assert Member(x.m) in ms && Member(m.m) in ms;
    }
  }

  // ---------------------------------------------------------------- every order of an orderly list

  /** `taken` is `ms` but for messages that stray. */
  ghost predicate AllButStrays(home: Homes, ms: seq<Message>, taken: seq<Message>)
  {
    && (forall m :: m in taken ==> m in ms)
    && (forall m :: m in ms && !Strays(home, m) ==> m in taken)
  }

  lemma IdlePromotion(home: Homes, ms: seq<Message>, taken: seq<Message>, c: CollateralId, p: Promotion)
    returns (q: Promotion)
    requires Idle(home, ms) && AllButStrays(home, ms, taken) && PromotedAt(ms, c, p)
    ensures PromotedAt(taken, c, q) && p.ts <= q.ts
  {
    q := p;
    if Strays(home, Promote(p)) {
      assert Overtaken(home, ms, Promote(p));
      q :| PromotedAt(ms, c, q) && !Strays(home, Promote(q)) && VoidAfter(Promote(p), q);
    }
  }

  lemma IdleReport(home: Homes, ms: seq<Message>, taken: seq<Message>, c: CollateralId, key: ReportKey, d: Demotion)
    requires Idle(home, ms) && AllButStrays(home, ms, taken) && Fresh(ms, c, key, d)
    ensures Demote(d) in taken
  {
    assert Strays(home, Demote(d)) ==> Overtaken(home, ms, Demote(d));
  }

  lemma TakenPromotions(home: Homes, ms: seq<Message>, taken: seq<Message>, c: CollateralId, ts: u64)
    requires Idle(home, ms) && AllButStrays(home, ms, taken)
    ensures Unsuperseded(taken, c, ts) <==> Unsuperseded(ms, c, ts)
  {
    if Unsuperseded(taken, c, ts) {
      forall p | PromotedAt(ms, c, p) ensures p.ts <= ts { var q := IdlePromotion(home, ms, taken, c, p); }
    } else {
      var p :| PromotedAt(taken, c, p) && p.ts > ts;
      assert PromotedAt(ms, c, p);
    }
  }

  /** A run that misses only idle messages has heard as much as all of them say. */
  lemma TakenSaysAsMuch(home: Homes, ms: seq<Message>, taken: seq<Message>, c: CollateralId)
    requires Idle(home, ms) && AllButStrays(home, ms, taken)
    ensures SaysAsMuch(taken, ms, c) && Identities(taken, c) <= Identities(ms, c)
  {
    forall ts ensures Unsuperseded(taken, c, ts) <==> Unsuperseded(ms, c, ts) {
      TakenPromotions(home, ms, taken, c, ts);
    }
    if p :| PromotedAt(ms, c, p) { var q := IdlePromotion(home, ms, taken, c, p); }
    if p :| PromotedAt(taken, c, p) { assert PromotedAt(ms, c, p); }
    forall key, d | Best(ms, c, key, d) ensures Fresh(taken, c, key, d) {
      IdleReport(home, ms, taken, c, key, d);
    }
  }

  /** Every order comes to what all messages say of a pool. */
  lemma EveryOrderReaches(
    home: Homes, g: OperatorGroup, mode: PromotionMode, ms: seq<Message>, a: seq<Message>, c: CollateralId)
    requires Agrees(home, ms) && Roomy(ms) && SettlesAt(ms, c) && Idle(home, ms) && SameMessages(a, ms)
    ensures var s, sl := Replica(g, mode, a), SliceRun(ms, c);
      && TsOf(PromotionOf(s, c)) == TsOf(sl.promotion) && SameReports(ReportsOf(s, c), sl.reports)
      && SeenOf(s, c) == sl.seen
  {
    var taken := RunTakes(home, New(g, mode), ms, a);
    TakenSaysAsMuch(home, ms, taken, c);
    AsMuchSettles(taken, ms, c);
    RunReachesClosedForm(taken, c);
    RunReachesClosedForm(ms, c);
    assert SliceOf(Replica(g, mode, a), c) == SliceRun(taken, c);
    AsMuchClosedForm(taken, ms, c, SliceRun(taken, c), SliceRun(ms, c));
    SameSeen(taken, ms, c, SliceRun(taken, c).seen, SliceRun(ms, c).seen);
  }

  lemma SameSeen(x: seq<Message>, y: seq<Message>, c: CollateralId, u: u64, v: u64)
    requires NewestMemberSet(x, c, u) && NewestMemberSet(y, c, v)
    requires forall m: Message :: m.Member? ==> (m in x <==> m in y)
    ensures u == v
  {
  }

  /** Replicas that saw the same messages, orderly ones, show the same status, whatever the order and
      however often each message came. */
  lemma StatusAgrees(g: OperatorGroup, h: OperatorGroup, mode: PromotionMode, a: seq<Message>, b: seq<Message>)
    requires Orderly(a) && SameMessages(a, b)
    ensures SameStatus(Replica(g, mode, a), Replica(h, mode, b))
    ensures forall c :: SeenOf(Replica(g, mode, a), c) == SeenOf(Replica(h, mode, b), c)
  {
    var s, t, home := Replica(g, mode, a), Replica(h, mode, b), BindingRun(a);
    HomesAgree(a);
    RunBinds(home, New(g, mode), a);
    RunBinds(home, New(h, mode), b);
    SameBindings(home, a, b);
    RunKeeps(New(g, mode), a);
    RunKeeps(New(h, mode), b);
    forall c
      ensures TsOf(PromotionOf(s, c)) == TsOf(PromotionOf(t, c)) && SameReports(ReportsOf(s, c), ReportsOf(t, c))
      ensures SeenOf(s, c) == SeenOf(t, c)
    {
      EveryOrderReaches(home, g, mode, a, a, c);
      EveryOrderReaches(home, h, mode, a, b, c);
    }
    SlicesAreStatus(s, t);
  }

  // ---------------------------------------------------------------- who touches the status of a pool

  lemma {:induction false} RunSplit(s: State, a: seq<Message>, b: seq<Message>)
    ensures Run(s, a + b) == Run(Run(s, a), b)
  {
    if b == [] {
      assert a + b == a;
    } else {
      var ms := a + b;
      assert ms[..|ms| - 1] == a + b[..|b| - 1];
      RunSplit(s, a, b[..|b| - 1]);
    }
  }

  predicate StatusOf(m: Message, c: CollateralId) { (m.Promote? || m.Demote?) && IdOf(m) == c }

  lemma StepLeavesStatus(s: State, m: Message, c: CollateralId)
    requires !StatusOf(m, c)
    ensures PromotionOf(Apply(s, m).0, c) == PromotionOf(s, c) && ReportsOf(Apply(s, m).0, c) == ReportsOf(s, c)
  {
    if m.Member? && FirstConflict(s, m.m.pubkeys, m.m.collateralId).None? {
      MemberProjects(s, m.m);
      assert SliceOf(Apply(s, m).0, c) == SliceStep(SliceOf(s, c), m, c);
    }
  }

  /** Only promotions and reports of a pool touch its status, taken or not. */
  lemma {:induction false} RunLeavesStatus(s: State, ms: seq<Message>, c: CollateralId)
    requires forall m :: m in ms ==> !StatusOf(m, c)
    ensures PromotionOf(Run(s, ms), c) == PromotionOf(s, c) && ReportsOf(Run(s, ms), c) == ReportsOf(s, c)
  {
    if ms != [] {
      RunLeavesStatus(s, ms[..|ms| - 1], c);
      StepLeavesStatus(Run(s, ms[..|ms| - 1]), ms[|ms| - 1], c);
    }
  }

  /** Promotions and reports before any member set are taken as they come, while there is room. */
  lemma StatusFirst(g: OperatorGroup, mode: PromotionMode, ss: seq<Message>, rest: seq<Message>, c: CollateralId)
    requires (forall m :: m in ss ==> !m.Member?) && (forall m :: m in rest ==> !StatusOf(m, c)) && Roomy(ss)
    ensures var s := Replica(g, mode, ss + rest);
      PromotionOf(s, c) == SliceRun(ss, c).promotion && ReportsOf(s, c) == SliceRun(ss, c).reports
  {
    RunProjects(map[], New(g, mode), ss);
    assert SliceOf(Replica(g, mode, ss), c) == SliceRun(ss, c);
    RunSplit(New(g, mode), ss, rest);
    RunLeavesStatus(Replica(g, mode, ss), rest, c);
  }

  // ---------------------------------------------------------------- more pools than there is room for

  lemma StepOpens(home: Homes, s: State, m: Message)
    requires AtHome(home, s) && AgreesWith(home, m) && !Strays(home, m)
    ensures var t := Apply(s, m).0;
      && s.pools.Keys <= t.pools.Keys && (Opens(m) && |s.pools| < MAX_UNBOUND_POOLS ==> IdOf(m) in t.pools)
      && t.pools.Keys <= s.pools.Keys + (if Opens(m) then {IdOf(m)} else {})
  {
    if m.Member? {
      assert FirstConflict(s, m.m.pubkeys, m.m.collateralId).None?;
      BoundSlices(s, m.m.pubkeys, m.m.collateralId);
      MembersStay(s, m.m.pubkeys, m.m.collateralId);
    }
  }

  lemma {:induction false} MembersStay(s: State, keys: seq<Pubkey>, c: CollateralId)
    ensures s.pools.Keys <= BindAll(s, keys, c).pools.Keys
  {
    if keys != [] { MembersStay(s, keys[..|keys| - 1], c); }
  }

  /** A run creates the pools its messages name until there is no room. */
  lemma {:induction false} RunOpens(home: Homes, s: State, ms: seq<Message>)
    requires AtHome(home, s) && Agrees(home, ms) && NoneStrays(home, ms)
    ensures s.pools.Keys <= Run(s, ms).pools.Keys <= s.pools.Keys + PoolIds(ms)
    ensures |Run(s, ms).pools| >= MAX_UNBOUND_POOLS || PoolIds(ms) <= Run(s, ms).pools.Keys
    ensures AtHome(home, Run(s, ms))
  {
    if ms != [] {
      var pre, m := ms[..|ms| - 1], ms[|ms| - 1];
      assert ms == pre + [m] && m in ms;
      RunOpens(home, s, pre);
      BindingProjects(home, Run(s, pre), m);
      StepOpens(home, Run(s, pre), m);
      MorePools(Run(s, pre), Run(s, ms));
      PoolIdsNext(pre, m);
    }
  }

  lemma MorePools(s: State, t: State)
    requires s.pools.Keys <= t.pools.Keys
    ensures |s.pools| <= |t.pools|
  {
    Counting.SubsetBound(s.pools.Keys, t.pools.Keys);
    assert |s.pools| == |s.pools.Keys| && |t.pools| == |t.pools.Keys|;
  }

  lemma PoolIdsNext(pre: seq<Message>, m: Message)
    ensures PoolIds(pre + [m]) == PoolIds(pre) + (if Opens(m) then {IdOf(m)} else {})
  {
  }

  /** Where there is no room, promotions and reports of a pool that is not there are refused. */
  lemma {:induction false} RefusedOutside(s: State, ms: seq<Message>, c: CollateralId)
    requires |s.pools| >= MAX_UNBOUND_POOLS && c !in s.pools && forall m :: m in ms ==> StatusOf(m, c)
    ensures Run(s, ms) == s
  {
    if ms != [] {
      assert ms[|ms| - 1] in ms;
      RefusedOutside(s, ms[..|ms| - 1], c);
    }
  }

  /** A promotion or a report shows. */
  lemma {:induction false} SomethingShows(ms: seq<Message>, c: CollateralId)
    requires ms != [] && !c.EmptyId? && forall m :: m in ms ==> StatusOf(m, c)
    ensures SliceRun(ms, c).promotion.Some? || SliceRun(ms, c).reports != map[]
  {
    var pre, m := ms[..|ms| - 1], ms[|ms| - 1];
    assert m in ms;
    if pre == [] {
      assert SliceRun(pre, c) == Slice(None, map[], 0);
      if m.Demote? { assert KeyOf(m.d) in SliceRun(ms, c).reports; }
    } else {
      SomethingShows(pre, c);
      if m.Demote? && SliceRun(pre, c).promotion.None? {
        var key :| key in SliceRun(pre, c).reports;
        assert key in SliceRun(ms, c).reports;
      }
    }
  }

  /** The pool is promoted or reported in the one and neither in the other. */
  ghost predicate ShowsIn(s: State, t: State, c: CollateralId)
  {
    && (PromotionOf(s, c).Some? || ReportsOf(s, c) != map[])
    && PromotionOf(t, c).None? && ReportsOf(t, c) == map[]
  }

  lemma FirstShows(g: OperatorGroup, mode: PromotionMode, xs: seq<Message>, rest: seq<Message>, c: CollateralId)
    requires xs != [] && !c.EmptyId?
    requires (forall m :: m in xs ==> StatusOf(m, c)) && (forall m :: m in rest ==> !StatusOf(m, c))
    ensures var s := Replica(g, mode, xs + rest); PromotionOf(s, c).Some? || ReportsOf(s, c) != map[]
  {
    assert PoolIds(xs) <= {c};
    Counting.SubsetBound(PoolIds(xs), {c});
    StatusFirst(g, mode, xs, rest, c);
    SomethingShows(xs, c);
  }

  lemma LateShowsNot(g: OperatorGroup, mode: PromotionMode, zs: seq<Message>, xs: seq<Message>, rest: seq<Message>,
                     c: CollateralId)
    requires |Replica(g, mode, zs).pools| >= MAX_UNBOUND_POOLS && c !in Replica(g, mode, zs).pools
    requires (forall m :: m in xs ==> StatusOf(m, c)) && (forall m :: m in rest ==> !StatusOf(m, c))
    ensures var s := Replica(g, mode, (zs + xs) + rest); PromotionOf(s, c).None? && ReportsOf(s, c) == map[]
  {
    var n, s := New(g, mode), Replica(g, mode, zs);
    RefusedOutside(s, xs, c);
    RunSplit(n, zs, xs);
    RunSplit(n, zs + xs, rest);
    RunLeavesStatus(s, rest, c);
  }

  /** Promotions and reports, and then member sets that agree, take all the room there is. */
  lemma RoomTaken(home: Homes, g: OperatorGroup, mode: PromotionMode, os: seq<Message>, us: seq<Message>, n: nat)
    requires (forall m :: m in os ==> !m.Member?) && (forall m :: m in us ==> m.Member?) && Agrees(home, us)
    requires n <= MAX_UNBOUND_POOLS && |PoolIds(os) + PoolIds(us)| >= n
    ensures |Replica(g, mode, os + us).pools| >= n
    ensures Replica(g, mode, os + us).pools.Keys <= PoolIds(os) + PoolIds(us)
  {
    var s := Replica(g, mode, os);
    RunOpens(map[], New(g, mode), os);
    RunOpens(home, s, us);
    RunSplit(New(g, mode), os, us);
    var t := Replica(g, mode, os + us);
    MorePools(s, t);
    if PoolIds(os) + PoolIds(us) <= t.pools.Keys {
      Counting.SubsetBound(PoolIds(os) + PoolIds(us), t.pools.Keys);
      assert |t.pools| == |t.pools.Keys|;
    }
  }

  /** With a pool too many, a promotion or report that comes first shows, and one that comes last does not. */
  lemma CrowdedShows(home: Homes, g: OperatorGroup, mode: PromotionMode, ms: seq<Message>, c: CollateralId)
    returns (a: seq<Message>, b: seq<Message>)
    requires Agrees(home, ms) && |PoolIds(ms)| > MAX_UNBOUND_POOLS && !c.EmptyId?
    requires exists m :: m in ms && StatusOf(m, c)
    ensures Reorders(a, ms) && Reorders(b, ms) && ShowsIn(Replica(g, mode, a), Replica(g, mode, b), c)
  {
    var xs, others := SplitBy(ms, (m: Message) => StatusOf(m, c));
    var rs, zs := SplitBy(others, (m: Message) => m.Member? && IdOf(m) == c);
    var us, os := SplitBy(zs, (m: Message) => m.Member?);
    a, b := xs + others, ((os + us) + xs) + rs;
    FirstShows(g, mode, xs, others, c);
    forall d ensures d in PoolIds(ms) - {c} <==> d in PoolIds(os) + PoolIds(us) {
      if d in PoolIds(ms) - {c} {
        var m :| m in ms && Opens(m) && IdOf(m) == d;
        assert m in os || m in us;
      }
    }
    assert PoolIds(ms) - {c} == PoolIds(os) + PoolIds(us);
    RoomTaken(home, g, mode, os, us, MAX_UNBOUND_POOLS);
    LateShowsNot(g, mode, os + us, xs, rs, c);
  }

  // ---------------------------------------------------------------- a key in two pools

  lemma BindingStays(s: State, m: Message, k: Pubkey)
    requires k in s.binding
    ensures k in Apply(s, m).0.binding && Apply(s, m).0.binding[k] == s.binding[k]
  {
    if m.Member? && FirstConflict(s, m.m.pubkeys, m.m.collateralId).None? {
      BoundSlices(s, m.m.pubkeys, m.m.collateralId);
    }
  }

  lemma {:induction false} BindingLasts(s: State, ms: seq<Message>, k: Pubkey)
    requires k in s.binding
    ensures k in Run(s, ms).binding && Run(s, ms).binding[k] == s.binding[k]
  {
    if ms != [] {
      BindingLasts(s, ms[..|ms| - 1], k);
      BindingStays(Run(s, ms[..|ms| - 1]), ms[|ms| - 1], k);
    }
  }

  /** The member set that comes first decides. */
  lemma FirstPlaces(g: OperatorGroup, mode: PromotionMode, x: Membership, rest: seq<Message>, k: Pubkey)
    requires k in x.pubkeys
    ensures var s := Replica(g, mode, [Member(x)] + rest); k in s.binding && s.binding[k] == x.collateralId
  {
    var n := New(g, mode);
    RunSplit(n, [Member(x)], rest);
    assert [Member(x)][..0] == [];
    assert FirstConflict(n, x.pubkeys, x.collateralId).None?;
    BoundSlices(n, x.pubkeys, x.collateralId);
    BindingLasts(Run(n, [Member(x)]), rest, k);
  }

  // ---------------------------------------------------------------- what keys say that belong elsewhere

  lemma {:induction false} StraysRefused(s: State, xs: seq<Message>)
    requires forall m :: m in xs ==> Strays(s.binding, m)
    ensures Run(s, xs) == s
  {
    if xs != [] {
      StraysRefused(s, xs[..|xs| - 1]);
      assert xs[|xs| - 1] in xs;
    }
  }

  /** After the member sets, what strays is refused and the rest is taken. */
  lemma MembersFirst(home: Homes, g: OperatorGroup, mode: PromotionMode, rs: seq<Message>, ys: seq<Message>,
                     xs: seq<Message>, c: CollateralId)
    requires Agrees(home, rs + ys) && NoneStrays(home, rs + ys) && Roomy(rs + ys) && BindingRun(rs + ys) == home
    requires forall m :: m in xs ==> Strays(home, m)
    ensures var s := Replica(g, mode, (rs + ys) + xs);
      PromotionOf(s, c) == SliceRun(rs + ys, c).promotion && ReportsOf(s, c) == SliceRun(rs + ys, c).reports
  {
    RunProjects(home, New(g, mode), rs + ys);
    RunSplit(New(g, mode), rs + ys, xs);
    StraysRefused(Replica(g, mode, rs + ys), xs);
    assert SliceOf(Replica(g, mode, rs + ys), c) == SliceRun(rs + ys, c);
  }

  /** Promotions and reports first, or member sets first and then those that do not stray: the orders in
      which all is taken and in which what strays is refused. */
  lemma StrayOrders(home: Homes, g: OperatorGroup, mode: PromotionMode, ms: seq<Message>, c: CollateralId)
    returns (a: seq<Message>, b: seq<Message>, ss: seq<Message>, ns: seq<Message>)
    requires Agrees(home, ms) && BindingRun(ms) == home && Roomy(ms) && forall m :: m in ms ==> !m.Backing?
    ensures Reorders(a, ms) && Reorders(b, ms) && SameNews(ss, ms)
    ensures forall m :: m in ns <==> m in ms && !Strays(home, m)
    ensures PromotionOf(Replica(g, mode, a), c) == SliceRun(ss, c).promotion
    ensures ReportsOf(Replica(g, mode, a), c) == SliceRun(ss, c).reports
    ensures PromotionOf(Replica(g, mode, b), c) == SliceRun(ns, c).promotion
    ensures ReportsOf(Replica(g, mode, b), c) == SliceRun(ns, c).reports
  {
    var rs;
    rs, ss := SplitBy(ms, (m: Message) => m.Member?);
    var xs, ys := SplitBy(ss, (m: Message) => Strays(home, m));
    ns := rs + ys;
    a, b := ss + rs, ns + xs;
    RoomyLess(ms, ss);
    RoomyLess(ms, ns);
    StatusFirst(g, mode, ss, rs, c);
    SameMembers(home, ms, ns);
    MembersFirst(home, g, mode, rs, ys, xs, c);
  }

  lemma RoomyLess(ms: seq<Message>, xs: seq<Message>)
    requires Roomy(ms) && forall m :: m in xs ==> m in ms
    ensures Roomy(xs)
  {
    Counting.SubsetBound(PoolIds(xs), PoolIds(ms));
  }

  lemma SameMembers(home: Homes, a: seq<Message>, b: seq<Message>)
    requires Agrees(home, a) && forall m: Message :: m.Member? ==> (m in a <==> m in b)
    ensures BindingRun(a) == BindingRun(b)
  {
    BindingIsUnion(home, a);
    BindingIsUnion(home, b);
  }

  lemma StrayPromotionShows(
    home: Homes, ms: seq<Message>, ss: seq<Message>, ns: seq<Message>, c: CollateralId, p: Promotion)
    requires SameNews(ss, ms) && forall m :: m in ns <==> m in ms && !Strays(home, m)
    requires PromotedAt(ms, c, p) && !Overtaken(home, ms, Promote(p))
    ensures TsOf(SliceRun(ss, c).promotion) != TsOf(SliceRun(ns, c).promotion)
  {
    PromotionIsNewest(ss, c);
    PromotionIsNewest(ns, c);
    SameSaid(ss, ms);
    assert PromotedAt(ss, c, p);
    var q := SliceRun(ns, c).promotion;
    if q.Some? { assert PromotedAt(ms, c, q.value) && !VoidAfter(Promote(p), q.value); }
  }

  lemma StrayReportShows(
    home: Homes, ms: seq<Message>, ss: seq<Message>, ns: seq<Message>, c: CollateralId, d: Demotion)
    requires SameNews(ss, ms) && forall m :: m in ns <==> m in ms && !Strays(home, m)
    requires Fresh(ms, c, KeyOf(d), d) && Strays(home, Demote(d)) && SettlesAt(ms, c)
    ensures KeyOf(d) in SliceRun(ss, c).reports && KeyOf(d) !in SliceRun(ns, c).reports
  {
    SameSaid(ss, ms);
    SettlesSameAt(ms, ss, c);
    RunReachesClosedForm(ss, c);
    assert Fresh(ss, c, KeyOf(d), d);
    RunIsSound(ns, c);
    assert forall e: Demotion :: e.collateralId == c && KeyOf(e) == KeyOf(d) ==> Strays(home, Demote(e));
  }

  /** Promotion timestamps or reports of the pool differ. */
  ghost predicate DiffersAt(s: State, t: State, c: CollateralId)
  {
    TsOf(PromotionOf(s, c)) != TsOf(PromotionOf(t, c)) || !SameReports(ReportsOf(s, c), ReportsOf(t, c))
  }

  /** What strays and is not idle shows if it comes first and is refused if it comes last. */
  lemma StrayShows(home: Homes, g: OperatorGroup, mode: PromotionMode, ms: seq<Message>)
    returns (a: seq<Message>, b: seq<Message>, c: CollateralId)
    requires Agrees(home, ms) && BindingRun(ms) == home && (forall m :: m in ms ==> !m.Backing?)
    requires Roomy(ms) && Settles(ms) && !Idle(home, ms)
    ensures Reorders(a, ms) && Reorders(b, ms) && DiffersAt(Replica(g, mode, a), Replica(g, mode, b), c)
  {
    var m :| m in ms && Strays(home, m) && !Overtaken(home, ms, m);
    c := IdOf(m);
    var ss, ns;
    a, b, ss, ns := StrayOrders(home, g, mode, ms, c);
    if m.Promote? {
      StrayPromotionShows(home, ms, ss, ns, c, m.p);
    } else if Unsuperseded(ms, c, m.d.ts) {
      assert SettlesAt(ms, c);
      StrayReportShows(home, ms, ss, ns, c, m.d);
    } else {
      var p :| PromotedAt(ms, c, p) && m.d.ts < p.ts;
      StrayPromotionShows(home, ms, ss, ns, c, p);
    }
  }

  // ---------------------------------------------------------------- the exact condition

  /** Reports that do not settle: promotions and reports come in either order, member sets after them. */
  lemma UnsettledShows(g: OperatorGroup, mode: PromotionMode, ms: seq<Message>)
    returns (a: seq<Message>, b: seq<Message>, c: CollateralId)
    requires Roomy(ms) && !Settles(ms)
    ensures Reorders(a, ms) && Reorders(b, ms) && DiffersAt(Replica(g, mode, a), Replica(g, mode, b), c)
  {
    var rs, ss := SplitBy(ms, (m: Message) => m.Member?);
    if Settles(ss) { SettlesSame(ss, ms); }
    var x, y, key;
    x, y, c, key := UnsettledOrders(ss);
    ReorderSame(x, ss);
    ReorderSame(y, ss);
    RoomyLess(ms, x);
    RoomyLess(ms, y);
    a, b := x + rs, y + rs;
    StatusFirst(g, mode, x, rs, c);
    StatusFirst(g, mode, y, rs, c);
  }

  lemma NewsDisagrees(g: OperatorGroup, mode: PromotionMode, ms: seq<Message>)
    returns (a: seq<Message>, b: seq<Message>, c: CollateralId)
    requires OneHome(ms) && !Orderly(ms) && forall m :: m in ms ==> !m.Backing?
    ensures Reorders(a, ms) && Reorders(b, ms) && DiffersAt(Replica(g, mode, a), Replica(g, mode, b), c)
  {
    HomesAgree(ms);
    if !Roomy(ms) {
      var m :| m in ms && IsStatus(m);
      c := IdOf(m);
      assert StatusOf(m, c);
      a, b := CrowdedShows(BindingRun(ms), g, mode, ms, c);
    } else if !Settles(ms) {
      a, b, c := UnsettledShows(g, mode, ms);
    } else {
      a, b, c := StrayShows(BindingRun(ms), g, mode, ms);
    }
  }

  lemma BackingsAside(ms: seq<Message>, ns: seq<Message>)
    requires forall m: Message :: !m.Backing? ==> (m in ms <==> m in ns)
    requires OneHome(ms) && Orderly(ns)
    ensures Orderly(ms)
  {
    assert PoolIds(ms) == PoolIds(ns);
    SettlesSame(ns, ms);
    HomesAgree(ms);
    SameMembers(BindingRun(ms), ms, ns);
    forall m | m in ms && Strays(BindingRun(ms), m) ensures Overtaken(BindingRun(ms), ms, m) {
      assert Overtaken(BindingRun(ns), ns, m);
      var p :| PromotedAt(ns, IdOf(m), p) && !Strays(BindingRun(ns), Promote(p)) && VoidAfter(m, p);
      assert PromotedAt(ms, IdOf(m), p);
    }
  }

  /** All contributions come last. */
  ghost predicate BackingsLast(ms: seq<Message>)
  {
    forall i, j :: 0 <= i < j < |ms| && ms[i].Backing? ==> ms[j].Backing?
  }

  lemma AppendBackings(g: OperatorGroup, mode: PromotionMode, ns: seq<Message>, bs: seq<Message>, c: CollateralId)
    requires (forall m :: m in ns ==> !m.Backing?) && (forall m :: m in bs ==> m.Backing?)
    ensures BackingsLast(ns + bs)
    ensures PromotionOf(Replica(g, mode, ns + bs), c) == PromotionOf(Replica(g, mode, ns), c)
    ensures ReportsOf(Replica(g, mode, ns + bs), c) == ReportsOf(Replica(g, mode, ns), c)
  {
    RunSplit(New(g, mode), ns, bs);
    RunLeavesStatus(Replica(g, mode, ns), bs, c);
    forall i | 0 <= i < |ns| ensures !(ns + bs)[i].Backing? { assert ns[i] in ns; }
    forall i | |ns| <= i < |ns + bs| ensures (ns + bs)[i].Backing? { assert bs[i - |ns|] in bs; }
  }

  /** A member set first, all contributions last. */
  lemma LedByMemberSet(
    g: OperatorGroup, mode: PromotionMode, ns: seq<Message>, bs: seq<Message>, x: Membership, k: Pubkey)
    returns (a: seq<Message>)
    requires (forall m :: m in ns ==> !m.Backing?) && (forall m :: m in bs ==> m.Backing?)
    requires Member(x) in ns && k in x.pubkeys
    ensures multiset(a) == multiset(ns) + multiset(bs) && BackingsLast(a)
    ensures var s := Replica(g, mode, a); k in s.binding && s.binding[k] == x.collateralId
  {
    var rest := MoveToFront(ns, Member(x));
    var front := [Member(x)] + rest;
    ReorderSame(front, ns);
    a := front + bs;
    AppendBackings(g, mode, front, bs, x.collateralId);
    assert a == [Member(x)] + (rest + bs);
    FirstPlaces(g, mode, x, rest + bs, k);
  }

  /** If a list is not orderly, two orders of it, with all contributions last, show a different status. */
  lemma StatusDisagrees(g: OperatorGroup, mode: PromotionMode, ms: seq<Message>)
    returns (a: seq<Message>, b: seq<Message>)
    requires !Orderly(ms)
    ensures Reorders(a, ms) && Reorders(b, ms) && BackingsLast(a) && BackingsLast(b)
    ensures !SameStatus(Replica(g, mode, a), Replica(g, mode, b))
  {
    var bs, ns := SplitBy(ms, (m: Message) => m.Backing?);
    if OneHome(ms) {
      if Orderly(ns) { BackingsAside(ms, ns); }
      var x, y, c := NewsDisagrees(g, mode, ns);
      ReorderSame(x, ns);
      ReorderSame(y, ns);
      a, b := x + bs, y + bs;
      AppendBackings(g, mode, x, bs, c);
      AppendBackings(g, mode, y, bs, c);
    } else {
      var x, y, k :| Member(x) in ms && Member(y) in ms && k in x.pubkeys && k in y.pubkeys
                     && x.collateralId != y.collateralId;
      a := LedByMemberSet(g, mode, ns, bs, x, k);
      b := LedByMemberSet(g, mode, ns, bs, y, k);
    }
  }

  ghost predicate StatusOrderFree(g: OperatorGroup, mode: PromotionMode, ms: seq<Message>)
  {
    forall a, b :: Reorders(a, ms) && Reorders(b, ms) ==> SameStatus(Replica(g, mode, a), Replica(g, mode, b))
  }

  lemma OrderlySame(ms: seq<Message>, a: seq<Message>)
    requires Orderly(ms) && SameMessages(ms, a)
    ensures Orderly(a)
  {
    assert OneHome(a);
    BackingsAside(a, ms);
  }

  /** The status is independent of arrival order exactly when the messages are orderly, whatever they are. */
  lemma StatusIndependence(g: OperatorGroup, mode: PromotionMode, ms: seq<Message>)
    ensures StatusOrderFree(g, mode, ms) <==> Orderly(ms)
  {
    if Orderly(ms) {
      forall a, b | Reorders(a, ms) && Reorders(b, ms)
        ensures SameStatus(Replica(g, mode, a), Replica(g, mode, b))
      {
        ReorderSame(a, ms);
        ReorderSame(b, ms);
        OrderlySame(ms, a);
        StatusAgrees(g, g, mode, a, b);
      }
    } else {
      var a, b := StatusDisagrees(g, mode, ms);
    }
  }

  // ---------------------------------------------------------------- in practice

  /** Reports of one identity carry one timestamp. */
  ghost predicate OneTimestamp(ms: seq<Message>)
  {
    forall c, key, d, e :: ReportedAs(ms, c, key, d) && ReportedAs(ms, c, key, e) ==> d.ts == e.ts
  }

  /** If a status action is only ever re-sent with its own timestamp, and no pool has as many identities as
      the bound, reports settle. */
  lemma OneTimestampSettles(ms: seq<Message>)
    requires OneTimestamp(ms) && forall c :: |Identities(ms, c)| < MAX_REPORTS_PER_POOL
    ensures Settles(ms)
  {
    forall c, key, e | Stale(ms, c, key, e)
      ensures !AnyFresh(ms, c, key)
    {
      assert forall d :: ReportedAs(ms, c, key, d) ==> d.ts == e.ts;
    }
  }

  /** The timestamp is not part of a report's identity, so three messages already suffice to
      disagree: two timestamps for one identity, and a promotion between them. */
  lemma TwoTimestampsDisagree(g: OperatorGroup, mode: PromotionMode)
    ensures var c, k, b := Id(1), Pubkey(1), BlockHash(1);
      var ms := [Demote(Demotion(100, 7, c, k, b, 5, [])), Demote(Demotion(200, 7, c, k, b, 3, [])),
                 Promote(Promotion(150, 7, c, k))];
      !StatusOrderFree(g, mode, ms)
  {
    var c, k, b := Id(1), Pubkey(1), BlockHash(1);
    var d, e, p := Demotion(100, 7, c, k, b, 5, []), Demotion(200, 7, c, k, b, 3, []), Promotion(150, 7, c, k);
    var ms := [Demote(d), Demote(e), Promote(p)];
    assert forall m :: m in ms ==> m == ms[0] || m == ms[1] || m == ms[2];
    assert Identities(ms, c) <= {KeyOf(d)};
    Counting.SubsetBound(Identities(ms, c), {KeyOf(d)});
    assert ms[2] in ms && PromotedAt(ms, c, p);
    assert ms[0] in ms && Stale(ms, c, KeyOf(d), d);
    assert ms[1] in ms && Fresh(ms, c, KeyOf(d), e);
    assert !Outbid(ms, c, KeyOf(d), d);
    assert !SettlesAt(ms, c);
    StatusIndependence(g, mode, ms);
  }
}
