/**
 * Replay for a newly subscribed peer (crates/operator/src/pool.rs:189-196, 354-379): the messages
 * a state sends, in whatever order its maps are walked, and what they do to another replica.
 */
module PoolReplay {
  import opened Bytes
  import Counting
  import opened Pools
  import opened PoolInvariant
  import opened PoolOrder
  import opened PoolClosedForm
  import opened PoolNews
  import opened PoolIndependence
  import opened PoolCollateral

  /** What `s` replays: its member sets, its own group's collateral, promotions and reports. */
  ghost predicate Replayed(s: State, m: Message)
  {
    && IdOf(m) in s.pools
    && var p := s.pools[IdOf(m)];
       match m
       case Member(x) => p.members != [] && x == Membership(p.seenTs, x.collateralId, p.members)
       case Backing(g, x) => g == s.localGroup && g in p.collateral && (x.wei, x.ts) == p.collateral[g]
       case Promote(x) => p.promotion == Some(x)
       case Demote(x) => KeyOf(x) in p.reports && p.reports[KeyOf(x)] == x
  }

  function Rank(m: Message): nat
  {
    match m case Member(_) => 0 case Backing(_, _) => 1 case Promote(_) => 2 case Demote(_) => 3
  }

  /** Exactly the replayed messages: member sets first, then collateral, promotions and reports. */
  ghost predicate IsReplay(s: State, out: seq<Message>)
  {
    && (forall m :: m in out <==> Replayed(s, m))
    && (forall i, j :: 0 <= i < j < |out| ==> Rank(out[i]) <= Rank(out[j]))
  }

  // ---------------------------------------------------------------- what a replay says

  lemma ReplayedWasSent(home: Homes, h: OperatorGroup, mode: PromotionMode, b: seq<Message>, m: Message)
    requires Fits(home, b) && Replayed(Replica(h, mode, b), m)
    ensures m.Promote? || m.Demote? ==> m in b && !IdOf(m).EmptyId?
    ensures m.Member? ==> AgreesWith(home, m) && IdOf(m) in PoolIds(b)
  {
    var s := Replica(h, mode, b);
    var c := IdOf(m);
    RunProjects(home, New(h, mode), b);
    RunKeeps(New(h, mode), b);
    assert PoolValid(c, s.pools[c]);
    assert MembersBound(s.binding, c, s.pools[c].members);
    RunIsSound(b, c);
    assert SliceOf(s, c) == SliceRun(b, c);
  }

  lemma ReplaySaysPromotions(home: Homes, h: OperatorGroup, mode: PromotionMode,
                             a: seq<Message>, b: seq<Message>, rs: seq<Message>, c: CollateralId)
    requires Fits(home, b) && IsReplay(Replica(h, mode, b), rs)
    ensures forall ts :: Unsuperseded(a + rs, c, ts) <==> Unsuperseded(a + b, c, ts)
    ensures (exists p :: PromotedAt(a + rs, c, p)) <==> (exists p :: PromotedAt(a + b, c, p))
  {
    var s := Replica(h, mode, b);
    var x, y := a + rs, a + b;
    RunProjects(home, New(h, mode), b);
    RunIsSound(b, c);
    var newest := SliceRun(b, c).promotion;
    assert SliceOf(s, c) == SliceRun(b, c);
    forall p | PromotedAt(x, c, p)
      ensures PromotedAt(y, c, p)
    {
      if Promote(p) !in a {
        ReplayedWasSent(home, h, mode, b, Promote(p));
      }
    }
    forall p | PromotedAt(y, c, p)
      ensures exists q :: PromotedAt(x, c, q) && p.ts <= q.ts
    {
      if Promote(p) in a {
        assert PromotedAt(x, c, p);
      } else {
        assert PromotedAt(b, c, p);
        assert Replayed(s, Promote(newest.value));
        assert PromotedAt(x, c, newest.value);
      }
    }
  }

  lemma ReplaySaysAsMuch(home: Homes, h: OperatorGroup, mode: PromotionMode,
                         a: seq<Message>, b: seq<Message>, rs: seq<Message>, c: CollateralId)
    requires Fits(home, b) && IsReplay(Replica(h, mode, b), rs) && SettlesAt(a + b, c)
    ensures SaysAsMuch(a + rs, a + b, c)
  {
    var s := Replica(h, mode, b);
    var x, y := a + rs, a + b;
    ReplaySaysPromotions(home, h, mode, a, b, rs, c);
    RunProjects(home, New(h, mode), b);
    assert SliceOf(s, c) == SliceRun(b, c);
    forall key, d | ReportedAs(x, c, key, d)
      ensures ReportedAs(y, c, key, d)
    {
      if Demote(d) !in a {
        ReplayedWasSent(home, h, mode, b, Demote(d));
      }
    }
    forall key, d | Best(y, c, key, d)
      ensures exists e :: Fresh(x, c, key, e) && e.value == d.value
    {
      if Demote(d) in a {
        assert Fresh(x, c, key, d);
      } else {
        BestIsKept(y, b, c, key, d);
        var e := SliceRun(b, c).reports[key];
        assert Replayed(s, Demote(e));
        assert Fresh(x, c, key, e);
      }
    }
  }

  // ---------------------------------------------------------------- bindings

  lemma ReplayFits(home: Homes, h: OperatorGroup, mode: PromotionMode,
                   a: seq<Message>, b: seq<Message>, rs: seq<Message>)
    requires Fits(home, a + b) && IsReplay(Replica(h, mode, b), rs)
    ensures Fits(home, a + rs) && forall c :: Identities(a + rs, c) <= Identities(a + b, c)
  {
    FitsSame(home, a + b, b);
    forall m | m in rs
      ensures AgreesWith(home, m)
      ensures !m.Backing? ==> IdOf(m) in PoolIds(b)
      ensures m.Promote? || m.Demote? ==> m in b && !IdOf(m).EmptyId?
    {
      ReplayedWasSent(home, h, mode, b, m);
      assert m in b ==> AgreesWith(home, m);
    }
    Counting.SubsetBound(PoolIds(a + rs), PoolIds(a + b));
    forall c, k | k in Identities(a + rs, c) ensures k in Identities(a + b, c) {
      var m :| m in a + rs && m.Demote? && m.d.collateralId == c && KeyOf(m.d) == k;
      assert m in a + b;
    }
  }

  /** A replay names the keys that its sender has bound. */
  lemma ReplayedKeys(s: State, rs: seq<Message>, k: Pubkey)
    requires Valid(s) && IsReplay(s, rs)
    ensures k in s.binding <==> Placed(rs, k)
  {
    if k in s.binding {
      assert BoundToMember(s, k);
      var p := s.pools[s.binding[k]];
      var m := Member(Membership(p.seenTs, s.binding[k], p.members));
      assert Replayed(s, m) && Places(m, k);
    }
    if m :| m in rs && Places(m, k) {
      assert Replayed(s, m);
      assert MembersBound(s.binding, IdOf(m), m.m.pubkeys);
    }
  }

  lemma ReplayBindings(home: Homes, h: OperatorGroup, mode: PromotionMode,
                       a: seq<Message>, b: seq<Message>, rs: seq<Message>)
    requires Agrees(home, a + b) && Agrees(home, a + rs) && IsReplay(Replica(h, mode, b), rs)
    ensures BindingRun(a + rs) == BindingRun(a + b)
  {
    RunBinds(home, New(h, mode), b);
    RunKeeps(New(h, mode), b);
    forall k ensures k in BindingRun(a + rs) <==> k in BindingRun(a + b) {
      ReplayedKeys(Replica(h, mode, b), rs, k);
      KeysPlaced(b, k);
      KeysPlaced(a + b, k);
      KeysPlaced(a + rs, k);
      PlacedEither(a, b, k);
      PlacedEither(a, rs, k);
    }
    BindingIsUnion(home, a + b);
    BindingIsUnion(home, a + rs);
  }

  /** Exchanging replays converges: a replica that hears `b`'s replay, in any iteration order, shows
      what it would show had it heard every message of `b`. */
  lemma ReplayConverges(g: OperatorGroup, h: OperatorGroup, mode: PromotionMode,
                        a: seq<Message>, b: seq<Message>, rs: seq<Message>)
    requires Orderly(a + b) && NoneStrays(BindingRun(a + b), a + b)
    requires IsReplay(Replica(h, mode, b), rs)
    ensures SameStatus(Replica(g, mode, a + rs), Replica(g, mode, a + b))
  {
    var x, y := a + rs, a + b;
    var s, t, home := Replica(g, mode, x), Replica(g, mode, y), BindingRun(y);
    HomesAgree(y);
    FitsSame(home, y, b);
    ReplayFits(home, h, mode, a, b, rs);
    ReplayBindings(home, h, mode, a, b, rs);
    RunProjects(home, New(g, mode), x);
    RunProjects(home, New(g, mode), y);
    RunKeeps(New(g, mode), x);
    RunKeeps(New(g, mode), y);
    forall c
      ensures TsOf(PromotionOf(s, c)) == TsOf(PromotionOf(t, c)) && SameReports(ReportsOf(s, c), ReportsOf(t, c))
    {
      ReplaySaysAsMuch(home, h, mode, a, b, rs, c);
      AsMuchSettles(x, y, c);
      RunReachesClosedForm(x, c);
      RunReachesClosedForm(y, c);
      assert SliceOf(s, c) == SliceRun(x, c) && SliceOf(t, c) == SliceRun(y, c);
      AsMuchClosedForm(x, y, c, SliceOf(s, c), SliceOf(t, c));
    }
    SlicesAreStatus(s, t);
  }

  // ---------------------------------------------------------------- collateral

  /** In a replay the member set of a pool comes before any collateral for it. */
  lemma MembersLead(s: State, rs: seq<Message>, i: nat, c: CollateralId)
    requires Valid(s) && IsReplay(s, rs) && i < |rs| && rs[i].Backing? && IdOf(rs[i]) == c
    ensures exists m :: m in rs[..i] && m.Member? && m.m.collateralId == c && m.m.pubkeys != []
  {
    assert rs[i] in rs && Replayed(s, rs[i]);
    var p := s.pools[c];
    assert PoolValid(c, p);
    var m := Member(Membership(p.seenTs, c, p.members));
    assert Replayed(s, m);
    var j :| 0 <= j < |rs| && rs[j] == m;
    assert j < i;
    assert rs[..i][j] == m;
  }

  lemma BackedStep(t: State, m: Message, g: OperatorGroup, x: Collateral)
    requires m == Backing(g, x) ==> HasMembers(t, x.collateralId)
    requires m.Backing? && m.group == g && m.c.collateralId == x.collateralId ==> m.c == x
    ensures BackingOf(Apply(t, m).0, x.collateralId, g)
      == if m == Backing(g, x) then Newer(BackingOf(t, x.collateralId, g), x) else BackingOf(t, x.collateralId, g)
  {
    if !m.Backing? {
      OnlyBackingBacks(t, m, x.collateralId);
    }
  }

  /** What precedes a contribution in a replay is member sets and contributions. */
  lemma ReplayStartAgrees(home: Homes, h: OperatorGroup, mode: PromotionMode,
                          b: seq<Message>, rs: seq<Message>, i: nat)
    requires Agrees(home, b) && IsReplay(Replica(h, mode, b), rs) && i < |rs| && rs[i].Backing?
    ensures Agrees(home, rs[..i])
  {
    var s := Replica(h, mode, b);
    RunBinds(home, New(h, mode), b);
    RunKeeps(New(h, mode), b);
    forall m | m in rs[..i] ensures AgreesWith(home, m) {
      var j :| 0 <= j < i && rs[j] == m;
      assert Rank(rs[j]) <= Rank(rs[i]) && m in rs && Replayed(s, m);
      if m.Member? { assert MembersBound(s.binding, IdOf(m), m.m.pubkeys); }
    }
  }

  lemma BackedAfterMembers(home: Homes, g: OperatorGroup, h: OperatorGroup, mode: PromotionMode,
                           a: seq<Message>, b: seq<Message>, rs: seq<Message>, i: nat)
    requires Agrees(home, a + b) && IsReplay(Replica(h, mode, b), rs) && i < |rs| && rs[i].Backing?
    ensures HasMembers(Replica(g, mode, a + rs[..i]), IdOf(rs[i]))
  {
    assert Agrees(home, a) && Agrees(home, b);
    RunKeeps(New(h, mode), b);
    MembersLead(Replica(h, mode, b), rs, i, IdOf(rs[i]));
    var m :| m in rs[..i] && m.Member? && m.m.collateralId == IdOf(rs[i]) && m.m.pubkeys != [];
    ReplayStartAgrees(home, h, mode, b, rs, i);
    MembersOnceBound(home, g, mode, a + rs[..i], m);
  }

  lemma ReplicaNext(g: OperatorGroup, mode: PromotionMode, a: seq<Message>, rs: seq<Message>, n: nat)
    requires 0 < n <= |rs|
    ensures Replica(g, mode, a + rs[..n]) == Apply(Replica(g, mode, a + rs[..n - 1]), rs[n - 1]).0
    ensures forall m :: m in rs[..n] <==> m in rs[..n - 1] || m == rs[n - 1]
  {
    var ms := a + rs[..n];
    assert ms[..|ms| - 1] == a + rs[..n - 1] && rs[..n] == rs[..n - 1] + [rs[n - 1]];
  }

  lemma {:induction false} ReplayBacks(g: OperatorGroup, mode: PromotionMode, h: OperatorGroup,
                                       a: seq<Message>, rs: seq<Message>, n: nat, x: Collateral)
    requires n <= |rs|
    requires forall i :: 0 <= i < n && rs[i].Backing? ==> HasMembers(Replica(g, mode, a + rs[..i]), IdOf(rs[i]))
    requires forall i :: 0 <= i < n && rs[i].Backing? && rs[i].group == h && IdOf(rs[i]) == x.collateralId ==>
      rs[i].c == x
    ensures BackingOf(Replica(g, mode, a + rs[..n]), x.collateralId, h)
      == if Backing(h, x) in rs[..n] then Newer(BackingOf(Replica(g, mode, a), x.collateralId, h), x)
         else BackingOf(Replica(g, mode, a), x.collateralId, h)
  {
    if n == 0 {
      assert a + rs[..0] == a;
    } else {
      ReplayBacks(g, mode, h, a, rs, n - 1, x);
      ReplicaNext(g, mode, a, rs, n);
      BackedStep(Replica(g, mode, a + rs[..n - 1]), rs[n - 1], h, x);
    }
  }

  /** The replaying operator's own collateral arrives: it replaces what the receiver held for that
      group unless that is as new. */
  lemma ReplayDeliversCollateral(g: OperatorGroup, h: OperatorGroup, mode: PromotionMode,
                                 a: seq<Message>, b: seq<Message>, rs: seq<Message>, c: CollateralId)
    requires OneHome(a + b) && IsReplay(Replica(h, mode, b), rs)
    requires BackingOf(Replica(h, mode, b), c, h).Some?
    ensures var sent := BackingOf(Replica(h, mode, b), c, h).value;
      BackingOf(Replica(g, mode, a + rs), c, h)
        == Newer(BackingOf(Replica(g, mode, a), c, h), Collateral(sent.1, c, sent.0))
  {
    var s, home := Replica(h, mode, b), BindingRun(a + b);
    HomesAgree(a + b);
    RunKeeps(New(h, mode), b);
    LocalGroupKept(h, mode, b);
    var sent := BackingOf(s, c, h).value;
    var x := Collateral(sent.1, c, sent.0);
    assert Replayed(s, Backing(h, x));
    forall i | 0 <= i < |rs| && rs[i].Backing?
      ensures HasMembers(Replica(g, mode, a + rs[..i]), IdOf(rs[i]))
      ensures rs[i].group == h && IdOf(rs[i]) == c ==> rs[i].c == x
    {
      assert rs[i] in rs && Replayed(s, rs[i]);
      BackedAfterMembers(home, g, h, mode, a, b, rs, i);
    }
    ReplayBacks(g, mode, h, a, rs, |rs|, x);
    assert rs[..|rs|] == rs;
  }

  // ---------------------------------------------------------------- producing a replay

  /** `out` holds the replayed messages of one kind, for the pools outside `rest`. */
  ghost predicate Section(s: State, rank: nat, rest: set<CollateralId>, out: seq<Message>)
  {
    forall m :: m in out <==> Rank(m) == rank && Replayed(s, m) && IdOf(m) !in rest
  }

  method ReplayMembers(s: State) returns (out: seq<Message>)
    ensures Section(s, 0, {}, out)
  {
    out := [];
    var rest := s.pools.Keys;
    while rest != {}
      invariant rest <= s.pools.Keys && Section(s, 0, rest, out)
      decreases rest
    {
      var c :| c in rest;
      var p := s.pools[c];
      if p.members != [] {
        out := out + [Member(Membership(p.seenTs, c, p.members))];
      }
      rest := rest - {c};
    }
  }

  method ReplayBacking(s: State) returns (out: seq<Message>)
    ensures Section(s, 1, {}, out)
  {
    out := [];
    var rest := s.pools.Keys;
    while rest != {}
      invariant rest <= s.pools.Keys && Section(s, 1, rest, out)
      decreases rest
    {
      var c :| c in rest;
      var p := s.pools[c];
      if s.localGroup in p.collateral {
        var (wei, ts) := p.collateral[s.localGroup];
        out := out + [Backing(s.localGroup, Collateral(ts, c, wei))];
      }
      rest := rest - {c};
    }
  }

  method ReplayPromotions(s: State) returns (out: seq<Message>)
    requires forall c :: c in s.pools && s.pools[c].promotion.Some? ==> s.pools[c].promotion.value.collateralId == c
    ensures Section(s, 2, {}, out)
  {
    out := [];
    var rest := s.pools.Keys;
    while rest != {}
      invariant rest <= s.pools.Keys && Section(s, 2, rest, out)
      decreases rest
    {
      var c :| c in rest;
      if s.pools[c].promotion.Some? {
        out := out + [Promote(s.pools[c].promotion.value)];
      }
      rest := rest - {c};
    }
  }

  method ReplayReportsOf(s: State, c: CollateralId) returns (out: seq<Message>)
    requires c in s.pools && PoolValid(c, s.pools[c])
    ensures forall m :: m in out <==> m.Demote? && Replayed(s, m) && IdOf(m) == c
  {
    out := [];
    var reports := s.pools[c].reports;
    var rest := reports.Keys;
    while rest != {}
      invariant rest <= reports.Keys
      invariant forall m :: m in out <==> m.Demote? && Replayed(s, m) && IdOf(m) == c && KeyOf(m.d) !in rest
      decreases rest
    {
      var k :| k in rest;
      out := out + [Demote(reports[k])];
      rest := rest - {k};
    }
  }

  method ReplayReports(s: State) returns (out: seq<Message>)
    requires forall c :: c in s.pools ==> PoolValid(c, s.pools[c])
    ensures Section(s, 3, {}, out)
  {
    out := [];
    var rest := s.pools.Keys;
    while rest != {}
      invariant rest <= s.pools.Keys && Section(s, 3, rest, out)
      decreases rest
    {
      var c :| c in rest;
      var more := ReplayReportsOf(s, c);
      out := out + more;
      rest := rest - {c};
    }
  }

  /** The replay of a state, whatever order its maps are walked in. */
  method Replay(s: State) returns (out: seq<Message>)
    requires Valid(s)
    ensures IsReplay(s, out)
  {
    var members := ReplayMembers(s);
    var backing := ReplayBacking(s);
    assert forall c :: c in s.pools ==> PoolValid(c, s.pools[c]);
    var promotions := ReplayPromotions(s);
    var reports := ReplayReports(s);
    out := members + backing + promotions + reports;
    InOrder(members, backing, promotions, reports);
    assert forall m :: m in out <==> m in members || m in backing || m in promotions || m in reports;
  }

  lemma InOrder(a: seq<Message>, b: seq<Message>, c: seq<Message>, d: seq<Message>)
    requires forall m :: m in a ==> Rank(m) == 0
    requires forall m :: m in b ==> Rank(m) == 1
    requires forall m :: m in c ==> Rank(m) == 2
    requires forall m :: m in d ==> Rank(m) == 3
    ensures var out := a + b + c + d; forall i, j :: 0 <= i < j < |out| ==> Rank(out[i]) <= Rank(out[j])
  {
    var out := a + b + c + d;
    forall i | 0 <= i < |out|
      ensures Rank(out[i]) == if i < |a| then 0 else if i < |a| + |b| then 1 else if i < |a| + |b| + |c| then 2 else 3
    {
    }
  }
}
