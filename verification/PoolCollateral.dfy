/**
 * What backs a pool: contributions are refused until the pool has members, and of two contributions
 * of one group with one timestamp the first stays. So the amount a pool has available depends on the
 * order of delivery unless no contribution counts, and among orders that deliver members first it
 * depends on the order unless newest contributions agree. Both conditions are exact.
 */
module PoolCollateral {
  import opened Bytes
  import Counting
  import opened Sums
  import opened Pools
  import opened PoolInvariant
  import opened PoolOrder
  import opened PoolClosedForm
  import opened PoolIndependence

  function CollateralOf(s: State, c: CollateralId): map<OperatorGroup, (u128, u64)>
  {
    if c in s.pools then s.pools[c].collateral else map[]
  }

  function BackingOf(s: State, c: CollateralId, g: OperatorGroup): Option<(u128, u64)>
  {
    if g in CollateralOf(s, c) then Some(CollateralOf(s, c)[g]) else None
  }

  /** One contribution per group: the newer replaces, and is never added. */
  function Newer(held: Option<(u128, u64)>, x: Collateral): Option<(u128, u64)>
  {
    if held.Some? && x.ts <= held.value.1 then held else Some((x.wei, x.ts))
  }

  predicate HasMembers(s: State, c: CollateralId)
  {
    c in s.pools && s.pools[c].members != []
  }

  lemma OnlyBackingBacks(s: State, m: Message, c: CollateralId)
    requires !m.Backing?
    ensures CollateralOf(Apply(s, m).0, c) == CollateralOf(s, c)
  {
    if m.Member? && FirstConflict(s, m.m.pubkeys, m.m.collateralId).None? {
      var s1 := BindAll(s, m.m.pubkeys, m.m.collateralId);
      BindAllInto(s, m.m.pubkeys, m.m.collateralId);
      if c != m.m.collateralId {
        assert c in s1.pools <==> c in s1.pools - {m.m.collateralId};
        assert c in s.pools <==> c in s.pools - {m.m.collateralId};
        if c in s.pools {
          assert (s1.pools - {m.m.collateralId})[c] == (s.pools - {m.m.collateralId})[c];
        }
      }
    }
  }

  lemma MembersOnceBound(home: Homes, g: OperatorGroup, mode: PromotionMode, ms: seq<Message>, m: Message)
    requires Agrees(home, ms) && m in ms && m.Member? && m.m.pubkeys != []
    ensures HasMembers(Replica(g, mode, ms), m.m.collateralId)
  {
    var s := Replica(g, mode, ms);
    RunBinds(home, New(g, mode), ms);
    RunKeeps(New(g, mode), ms);
    BindingIsUnion(home, ms);
    var k := m.m.pubkeys[0];
    assert AgreesWith(home, m);
    assert k in m.m.pubkeys && k in s.binding && BoundToMember(s, k);
  }

  lemma {:induction false} LocalGroupKept(h: OperatorGroup, mode: PromotionMode, ms: seq<Message>)
    ensures Replica(h, mode, ms).localGroup == h && Replica(h, mode, ms).mode == mode
  {
    if ms != [] {
      LocalGroupKept(h, mode, ms[..|ms| - 1]);
      ApplyKeepsConfig(Replica(h, mode, ms[..|ms| - 1]), ms[|ms| - 1]);
    }
  }

  lemma ApplyKeepsConfig(s: State, m: Message)
    ensures Apply(s, m).0.localGroup == s.localGroup && Apply(s, m).0.mode == s.mode
  {
    if m.Member? && FirstConflict(s, m.m.pubkeys, m.m.collateralId).None? {
      BindAllInto(s, m.m.pubkeys, m.m.collateralId);
    }
  }

  // ---------------------------------------------------------------- who has members

  predicate IsMemberSet(m: Message, c: CollateralId) { m.Member? && m.m.collateralId == c && m.m.pubkeys != [] }

  /** Some message gives pool `c` a member. */
  ghost predicate Peopled(ms: seq<Message>, c: CollateralId)
  {
    exists m :: m in ms && IsMemberSet(m, c)
  }

  lemma PeopledHasMembers(home: Homes, g: OperatorGroup, mode: PromotionMode, ms: seq<Message>, c: CollateralId)
    requires Agrees(home, ms)
    ensures HasMembers(Replica(g, mode, ms), c) <==> Peopled(ms, c)
  {
    if m :| m in ms && IsMemberSet(m, c) { MembersOnceBound(home, g, mode, ms, m); }
    var s := Replica(g, mode, ms);
    if HasMembers(s, c) {
      RunBinds(home, New(g, mode), ms);
      RunKeeps(New(g, mode), ms);
      BindingIsUnion(home, ms);
      var k := s.pools[c].members[0];
      assert MembersBound(s.binding, c, s.pools[c].members) && k in s.pools[c].members;
      var m :| m in ms && m.Member? && k in m.m.pubkeys;
      assert AgreesWith(home, m);
    }
  }

  // ---------------------------------------------------------------- one contribution

  predicate Backs(m: Message, c: CollateralId, h: OperatorGroup)
  {
    m.Backing? && m.group == h && m.c.collateralId == c
  }

  /** What group `h` contributes to pool `c` after `ms`: the newest of what arrived after a member. */
  ghost function BackRun(ms: seq<Message>, c: CollateralId, h: OperatorGroup): Option<(u128, u64)>
  {
    if ms == [] then None
    else
      var pre, m := ms[..|ms| - 1], ms[|ms| - 1];
      if Backs(m, c, h) && Peopled(pre, c) then Newer(BackRun(pre, c, h), m.c) else BackRun(pre, c, h)
  }

  lemma BackingStep(s: State, m: Message, c: CollateralId, h: OperatorGroup)
    ensures BackingOf(Apply(s, m).0, c, h)
         == if Backs(m, c, h) && HasMembers(s, c) then Newer(BackingOf(s, c, h), m.c) else BackingOf(s, c, h)
  {
    if !m.Backing? { OnlyBackingBacks(s, m, c); }
  }

  lemma {:induction false} BackRunIs(
    home: Homes, g: OperatorGroup, mode: PromotionMode, ms: seq<Message>, c: CollateralId,
    h: OperatorGroup)
    requires Agrees(home, ms)
    ensures BackingOf(Replica(g, mode, ms), c, h) == BackRun(ms, c, h)
  {
    if ms != [] {
      var pre := ms[..|ms| - 1];
      BackRunIs(home, g, mode, pre, c, h);
      PeopledHasMembers(home, g, mode, pre, c);
      BackingStep(Replica(g, mode, pre), ms[|ms| - 1], c, h);
    }
  }

  lemma PeopledMore(pre: seq<Message>, ms: seq<Message>, c: CollateralId)
    requires Peopled(pre, c) && forall m :: m in pre ==> m in ms
    ensures Peopled(ms, c)
  {
    var m :| m in pre && IsMemberSet(m, c);
    assert m in ms;
  }

  /** A contribution was sent, and its pool was given a member. */
  lemma {:induction false} BackRunSent(ms: seq<Message>, c: CollateralId, h: OperatorGroup) returns (x: Collateral)
    requires BackRun(ms, c, h).Some?
    ensures Backing(h, x) in ms && x.collateralId == c && BackRun(ms, c, h) == Some((x.wei, x.ts)) && Peopled(ms, c)
  {
    var pre, m := ms[..|ms| - 1], ms[|ms| - 1];
    if Backs(m, c, h) && Peopled(pre, c) && BackRun(ms, c, h) == Some((m.c.wei, m.c.ts)) {
      x := m.c;
      PeopledMore(pre, ms, c);
    } else {
      x := BackRunSent(pre, c, h);
      PeopledMore(pre, ms, c);
    }
  }

  // ---------------------------------------------------------------- what a reader sees

  /** Whether group `h` counts for a replica of group `g`. */
  predicate Counted(g: OperatorGroup, mode: PromotionMode, h: OperatorGroup) { mode.Share? || h == g }

  /** Equal to every reader: status, and for every pool the gross and the available amount. */
  ghost predicate SameObservables(s: State, t: State)
  {
    SameStatus(s, t) && forall c :: Gross(s, c) == Gross(t, c) && Available(s, c) == Available(t, c)
  }

  ghost function WeiOf(s: State, c: CollateralId): map<OperatorGroup, int>
  {
    map g | g in CollateralOf(s, c) :: CollateralOf(s, c)[g].0
  }

  lemma GrossIs(s: State, c: CollateralId)
    ensures s.mode.Share? ==> Gross(s, c) == SumValues(WeiOf(s, c))
    ensures !s.mode.Share?
      ==> Gross(s, c) == (if BackingOf(s, c, s.localGroup).Some? then BackingOf(s, c, s.localGroup).value.0 else 0)
  {
    if s.mode.Share? {
      if c in s.pools {
        assert WeiOf(s, c) == map g | g in s.pools[c].collateral :: s.pools[c].collateral[g].0;
      } else {
        assert WeiOf(s, c) == map[];
      }
    }
  }

  /** Equal counted contributions give an equal amount. */
  lemma GrossAgrees(s: State, t: State, c: CollateralId)
    requires s.mode == t.mode && s.localGroup == t.localGroup
    requires forall h :: Counted(s.localGroup, s.mode, h) ==> BackingOf(s, c, h) == BackingOf(t, c, h)
    ensures Gross(s, c) == Gross(t, c)
  {
    GrossIs(s, c);
    GrossIs(t, c);
    if s.mode.Share? {
      forall h ensures h in WeiOf(s, c) <==> h in WeiOf(t, c) { assert BackingOf(s, c, h) == BackingOf(t, c, h); }
      forall h | h in WeiOf(s, c) ensures WeiOf(s, c)[h] == WeiOf(t, c)[h] {
        assert BackingOf(s, c, h) == BackingOf(t, c, h);
      }
      assert WeiOf(s, c) == WeiOf(t, c);
    }
  }

  /** Contributions equal but for one counted group give amounts as far apart as that group's. */
  lemma GrossDiffers(s: State, t: State, c: CollateralId, h: OperatorGroup)
    requires s.mode == t.mode && s.localGroup == t.localGroup && Counted(s.localGroup, s.mode, h)
    requires forall j :: j != h ==> BackingOf(s, c, j) == BackingOf(t, c, j)
    requires BackingOf(s, c, h).Some? && BackingOf(t, c, h).Some?
    requires BackingOf(s, c, h).value.0 != BackingOf(t, c, h).value.0
    ensures Gross(s, c) != Gross(t, c)
  {
    GrossIs(s, c);
    GrossIs(t, c);
    if s.mode.Share? {
      var u, v := WeiOf(s, c), WeiOf(t, c);
      SumRemove(u, h);
      SumRemove(v, h);
      forall j | j != h ensures j in u <==> j in v { assert BackingOf(s, c, j) == BackingOf(t, c, j); }
      forall j | j != h && j in u ensures u[j] == v[j] { assert BackingOf(s, c, j) == BackingOf(t, c, j); }
      assert u - {h} == v - {h};
    }
  }

  lemma GrossOfZeros(s: State, c: CollateralId)
    requires forall h :: Counted(s.localGroup, s.mode, h) && BackingOf(s, c, h).Some? ==>
      BackingOf(s, c, h).value.0 == 0
    ensures Gross(s, c) == 0
  {
    GrossIs(s, c);
    if s.mode.Share? {
      forall h | h in WeiOf(s, c) ensures WeiOf(s, c)[h] == 0 { assert BackingOf(s, c, h).Some?; }
      SumBounded(WeiOf(s, c), 0);
    }
  }

  // ---------------------------------------------------------------- all orders

  /** Some contribution counts: a positive one, of a counted group, to a pool that is given members. */
  ghost predicate Backed(g: OperatorGroup, mode: PromotionMode, ms: seq<Message>)
  {
    exists h, x :: CountedBacking(g, mode, ms, h, x)
  }

  ghost predicate CountedBacking(
    g: OperatorGroup, mode: PromotionMode, ms: seq<Message>, h: OperatorGroup, x: Collateral)
  {
    Counted(g, mode, h) && Backing(h, x) in ms && x.wei > 0 && Peopled(ms, x.collateralId)
  }

  lemma UnbackedIsZero(home: Homes, g: OperatorGroup, mode: PromotionMode, ms: seq<Message>, c: CollateralId)
    requires Agrees(home, ms) && !Backed(g, mode, ms)
    ensures Gross(Replica(g, mode, ms), c) == 0
  {
    var s := Replica(g, mode, ms);
    LocalGroupKept(g, mode, ms);
    forall h | Counted(g, mode, h) && BackingOf(s, c, h).Some? ensures BackingOf(s, c, h).value.0 == 0 {
      BackRunIs(home, g, mode, ms, c, h);
      var x := BackRunSent(ms, c, h);
      assert !CountedBacking(g, mode, ms, h, x);
    }
    GrossOfZeros(s, c);
  }

  /** Contributions that all come first are all refused. */
  lemma {:induction false} BackingsFirst(front: seq<Message>, back: seq<Message>, c: CollateralId, h: OperatorGroup)
    requires (forall m :: m in front ==> m.Backing?) && (forall m :: m in back ==> !m.Backing?)
    ensures BackRun(front + back, c, h) == None
    decreases |front| + |back|
  {
    var ms := front + back;
    if back != [] {
      assert ms[..|ms| - 1] == front + back[..|back| - 1];
      BackingsFirst(front, back[..|back| - 1], c, h);
    } else if front != [] {
      assert ms[..|ms| - 1] == front[..|front| - 1] + back;
      BackingsFirst(front[..|front| - 1], back, c, h);
      assert forall m :: m in ms[..|ms| - 1] ==> m.Backing?;
    }
  }

  /** A counted contribution can be refused with all others, or be the only one accepted. */
  lemma BackedDisagrees(
    home: Homes, g: OperatorGroup, mode: PromotionMode, ms: seq<Message>, h: OperatorGroup,
    x: Collateral)
    returns (a: seq<Message>, b: seq<Message>)
    requires Agrees(home, ms) && CountedBacking(g, mode, ms, h, x)
    ensures Reorders(a, ms) && Reorders(b, ms)
    ensures Gross(Replica(g, mode, a), x.collateralId) == 0
    ensures Gross(Replica(g, mode, b), x.collateralId) == x.wei
  {
    var bs, ns := SplitBy(ms, (m: Message) => m.Backing?);
    a := bs + ns;
    ReorderSame(a, ms);
    RefusedIsZero(home, g, mode, bs, ns, x.collateralId);
    var rest := MoveToFront(bs, Backing(h, x));
    b := (rest + ns) + [Backing(h, x)];
    assert multiset(b) == multiset([Backing(h, x)] + rest) + multiset(ns);
    ReorderSame(b, ms);
    var m :| m in ms && IsMemberSet(m, x.collateralId);
    assert m in ns && m in rest + ns;
    LastIsOnly(home, g, mode, rest, ns, h, x);
  }

  lemma RefusedIsZero(
    home: Homes, g: OperatorGroup, mode: PromotionMode, bs: seq<Message>, ns: seq<Message>,
    c: CollateralId)
    requires Agrees(home, bs + ns) && (forall m :: m in bs ==> m.Backing?) && (forall m :: m in ns ==> !m.Backing?)
    ensures Gross(Replica(g, mode, bs + ns), c) == 0
  {
    forall h ensures BackingOf(Replica(g, mode, bs + ns), c, h) == None {
      BackRunIs(home, g, mode, bs + ns, c, h);
      BackingsFirst(bs, ns, c, h);
    }
    GrossOfZeros(Replica(g, mode, bs + ns), c);
  }

  lemma LastIsOnly(
    home: Homes, g: OperatorGroup, mode: PromotionMode, bs: seq<Message>, ns: seq<Message>,
    h: OperatorGroup, x: Collateral)
    requires var ms := (bs + ns) + [Backing(h, x)];
             Agrees(home, ms) && Counted(g, mode, h) && Peopled(bs + ns, x.collateralId)
    requires (forall m :: m in bs ==> m.Backing?) && (forall m :: m in ns ==> !m.Backing?)
    ensures Gross(Replica(g, mode, (bs + ns) + [Backing(h, x)]), x.collateralId) == x.wei
  {
    var ms, c := (bs + ns) + [Backing(h, x)], x.collateralId;
    var s := Replica(g, mode, ms);
    assert ms[..|ms| - 1] == bs + ns;
    forall j ensures BackingOf(s, c, j) == if j == h then Some((x.wei, x.ts)) else None {
      BackRunIs(home, g, mode, ms, c, j);
      BackingsFirst(bs, ns, c, j);
    }
    LocalGroupKept(g, mode, ms);
    GrossIs(s, c);
    if mode.Share? {
      assert WeiOf(s, c).Keys == {h} by {
        forall j ensures j in WeiOf(s, c) <==> j == h { assert BackingOf(s, c, j).Some? <==> j == h; }
      }
      assert BackingOf(s, c, h) == Some((x.wei, x.ts));
      SumRemove(WeiOf(s, c), h);
      assert WeiOf(s, c) - {h} == map[];
    }
  }

  ghost predicate OrderFree(g: OperatorGroup, mode: PromotionMode, ms: seq<Message>)
  {
    forall a, b :: Reorders(a, ms) && Reorders(b, ms) ==> SameObservables(Replica(g, mode, a), Replica(g, mode, b))
  }

  lemma BackedSame(g: OperatorGroup, mode: PromotionMode, a: seq<Message>, b: seq<Message>)
    requires SameMessages(a, b) && Backed(g, mode, a)
    ensures Backed(g, mode, b)
  {
    var h, x :| CountedBacking(g, mode, a, h, x);
    PeopledMore(a, b, x.collateralId);
    assert CountedBacking(g, mode, b, h, x);
  }

  lemma UnbackedAgree(
    home: Homes, g: OperatorGroup, mode: PromotionMode, ms: seq<Message>, a: seq<Message>,
    b: seq<Message>)
    requires Agrees(home, ms) && Orderly(ms) && !Backed(g, mode, ms) && Reorders(a, ms) && Reorders(b, ms)
    ensures SameObservables(Replica(g, mode, a), Replica(g, mode, b))
  {
    ReorderSame(a, ms);
    ReorderSame(b, ms);
    OrderlySame(ms, a);
    StatusAgrees(g, g, mode, a, b);
    if Backed(g, mode, a) { BackedSame(g, mode, a, ms); }
    if Backed(g, mode, b) { BackedSame(g, mode, b, ms); }
    forall c ensures Gross(Replica(g, mode, a), c) == Gross(Replica(g, mode, b), c) {
      UnbackedIsZero(home, g, mode, a, c);
      UnbackedIsZero(home, g, mode, b, c);
    }
  }

  /** Every order shows the same if and only if the list is orderly and no contribution counts. */
  lemma OrderIndependence(g: OperatorGroup, mode: PromotionMode, ms: seq<Message>)
    ensures OrderFree(g, mode, ms) <==> Orderly(ms) && !Backed(g, mode, ms)
  {
    var home := BindingRun(ms);
    if OneHome(ms) { HomesAgree(ms); }
    if !Orderly(ms) {
      var a, b := StatusDisagrees(g, mode, ms);
      assert !SameObservables(Replica(g, mode, a), Replica(g, mode, b));
    } else if Backed(g, mode, ms) {
      var h, x :| CountedBacking(g, mode, ms, h, x);
      var a, b := BackedDisagrees(home, g, mode, ms, h, x);
      assert !SameObservables(Replica(g, mode, a), Replica(g, mode, b));
    } else {
      forall a, b | Reorders(a, ms) && Reorders(b, ms)
        ensures SameObservables(Replica(g, mode, a), Replica(g, mode, b))
      {
        UnbackedAgree(home, g, mode, ms, a, b);
      }
    }
  }

  /** Two messages suffice: what arrives before its pool has members is refused and not sent again. */
  lemma CollateralBeforeMembers(g: OperatorGroup, mode: PromotionMode)
    ensures var c := Id(1);
      var x, m := Backing(g, Collateral(1, c, 10)), Member(Membership(1, c, [Pubkey(1)]));
      && Orderly([x, m])
      && Available(Replica(g, mode, [x, m]), c) == 0
      && Available(Replica(g, mode, [m, x]), c) == 10
  {
    var c := Id(1);
    var x, m := Backing(g, Collateral(1, c, 10)), Member(Membership(1, c, [Pubkey(1)]));
    var home := map[Pubkey(1) := c];
    TwoMessagesFit(home, x, m, c);
    assert [x, m] == [x] + [m] && [m, x] == ([] + [m]) + [x];
    FitsSame(home, [x, m], [m, x]);
    RefusedIsZero(home, g, mode, [x], [m], c);
    assert m in [] + [m] && IsMemberSet(m, c);
    LastIsOnly(home, g, mode, [], [m], g, x.c);
    NoReportsNoReservations(home, g, mode, [x, m], c);
    NoReportsNoReservations(home, g, mode, [m, x], c);
  }

  lemma TwoMessagesFit(home: Homes, x: Message, m: Message, c: CollateralId)
    requires x.Backing? && m.Member? && m.m.collateralId == c && AgreesWith(home, m)
    ensures Fits(home, [x, m]) && Orderly([x, m])
  {
    assert PoolIds([x, m]) <= {c};
    Counting.SubsetBound(PoolIds([x, m]), {c});
    assert forall d :: Identities([x, m], d) == {};
  }

  lemma NoReportsNoReservations(home: Homes, g: OperatorGroup, mode: PromotionMode, ms: seq<Message>, c: CollateralId)
    requires Fits(home, ms) && forall m :: m in ms ==> !m.Demote?
    ensures Reserved(Replica(g, mode, ms), c) == 0
  {
    var s := Replica(g, mode, ms);
    RunProjects(home, New(g, mode), ms);
    RunKeeps(New(g, mode), ms);
    RunIsSound(ms, c);
    assert SliceOf(s, c) == SliceRun(ms, c);
    assert ReportsOf(s, c) == map[];
    ReservationsFit(s, c);
    SlotMaxExact(ReportsOf(s, c));
    assert SlotMax(ReportsOf(s, c)) == map[];
  }

  // ---------------------------------------------------------------- members first

  /** Every contribution to a pool that is given members follows one of its member sets. */
  ghost predicate Led(ms: seq<Message>)
  {
    forall i :: 0 <= i < |ms| && ms[i].Backing? && Peopled(ms, ms[i].c.collateralId) ==>
      Peopled(ms[..i], ms[i].c.collateralId)
  }

  /** The newest contribution of `h` to `c`, members or not. */
  function BackAll(ms: seq<Message>, c: CollateralId, h: OperatorGroup): Option<(u128, u64)>
  {
    if ms == [] then None
    else
      var pre, m := ms[..|ms| - 1], ms[|ms| - 1];
      if Backs(m, c, h) then Newer(BackAll(pre, c, h), m.c) else BackAll(pre, c, h)
  }

  lemma {:induction false} LedAcceptsAll(ms: seq<Message>, n: nat, c: CollateralId, h: OperatorGroup)
    requires n <= |ms| && Led(ms) && Peopled(ms, c)
    ensures BackRun(ms[..n], c, h) == BackAll(ms[..n], c, h)
  {
    if n > 0 {
      assert ms[..n][..n - 1] == ms[..n - 1] && ms[..n][n - 1] == ms[n - 1];
      LedAcceptsAll(ms, n - 1, c, h);
    }
  }

  /** `x` is a newest contribution of `h` to its pool. */
  ghost predicate Newest(ms: seq<Message>, h: OperatorGroup, x: Collateral)
  {
    Backing(h, x) in ms && forall y :: Backing(h, y) in ms && y.collateralId == x.collateralId ==> y.ts <= x.ts
  }

  lemma {:induction false} BackAllIsNewest(
    ms: seq<Message>, c: CollateralId, h: OperatorGroup) returns (x: Option<Collateral>)
    ensures x.None? ==> BackAll(ms, c, h) == None && forall y :: Backing(h, y) in ms ==> y.collateralId != c
    ensures x.Some?
      ==> x.value.collateralId == c && Newest(ms, h, x.value) && BackAll(ms, c, h) == Some((x.value.wei, x.value.ts))
  {
    if ms == [] {
      x := None;
    } else {
      var pre, m := ms[..|ms| - 1], ms[|ms| - 1];
      assert ms == pre + [m];
      x := BackAllIsNewest(pre, c, h);
      if Backs(m, c, h) && !(x.Some? && m.c.ts <= x.value.ts) { x := Some(m.c); }
    }
  }

  /** Newest contributions of one counted group to one pool with members carry one amount. */
  ghost predicate OneWei(g: OperatorGroup, mode: PromotionMode, ms: seq<Message>)
  {
    forall h, x, y :: TiedNewest(g, mode, ms, h, x, y) ==> x.wei == y.wei
  }

  ghost predicate TiedNewest(
    g: OperatorGroup, mode: PromotionMode, ms: seq<Message>, h: OperatorGroup, x: Collateral, y: Collateral)
  {
    && Counted(g, mode, h) && x.collateralId == y.collateralId && Peopled(ms, x.collateralId)
    && Newest(ms, h, x) && Newest(ms, h, y)
  }

  lemma OneWeiSame(g: OperatorGroup, mode: PromotionMode, a: seq<Message>, b: seq<Message>)
    requires SameMessages(a, b) && OneWei(g, mode, a)
    ensures OneWei(g, mode, b)
  {
    forall h, x, y | TiedNewest(g, mode, b, h, x, y)
      ensures x.wei == y.wei
    {
      PeopledMore(b, a, x.collateralId);
      assert TiedNewest(g, mode, a, h, x, y);
    }
  }

  /** Where newest contributions agree, orders that deliver members first hold the same contributions. */
  lemma LedBacking(
    g: OperatorGroup, mode: PromotionMode, a: seq<Message>, b: seq<Message>, c: CollateralId, h: OperatorGroup)
    requires SameMessages(a, b) && Led(a) && Led(b) && OneWei(g, mode, a) && Counted(g, mode, h)
    ensures BackRun(a, c, h) == BackRun(b, c, h)
  {
    if Peopled(a, c) {
      PeopledMore(a, b, c);
      LedAcceptsAll(a, |a|, c, h);
      LedAcceptsAll(b, |b|, c, h);
      assert a[..|a|] == a && b[..|b|] == b;
      var x := BackAllIsNewest(a, c, h);
      var y := BackAllIsNewest(b, c, h);
      if x.Some? && y.Some? {
        assert Newest(a, h, y.value);
        assert TiedNewest(g, mode, a, h, x.value, y.value);
      }
    } else {
      if BackRun(a, c, h).Some? { var x := BackRunSent(a, c, h); }
      if BackRun(b, c, h).Some? { var x := BackRunSent(b, c, h); PeopledMore(b, a, c); }
    }
  }

  lemma LedAgree(
    home: Homes, g: OperatorGroup, mode: PromotionMode, ms: seq<Message>, a: seq<Message>,
    b: seq<Message>)
    requires Agrees(home, ms) && Orderly(ms) && OneWei(g, mode, ms)
    requires Reorders(a, ms) && Reorders(b, ms) && Led(a) && Led(b)
    ensures SameObservables(Replica(g, mode, a), Replica(g, mode, b))
  {
    ReorderSame(a, ms);
    ReorderSame(b, ms);
    OrderlySame(ms, a);
    OneWeiSame(g, mode, ms, a);
    StatusAgrees(g, g, mode, a, b);
    LocalGroupKept(g, mode, a);
    LocalGroupKept(g, mode, b);
    forall c ensures Gross(Replica(g, mode, a), c) == Gross(Replica(g, mode, b), c) {
      forall h | Counted(g, mode, h)
        ensures BackingOf(Replica(g, mode, a), c, h) == BackingOf(Replica(g, mode, b), c, h)
      {
        BackRunIs(home, g, mode, a, c, h);
        BackRunIs(home, g, mode, b, c, h);
        LedBacking(g, mode, a, b, c, h);
      }
      GrossAgrees(Replica(g, mode, a), Replica(g, mode, b), c);
    }
  }

  // ---------------------------------------------------------------- and only then

  lemma FrontBefore(front: seq<Message>, back: seq<Message>, i: nat)
    requires |front| <= i <= |front| + |back|
    ensures forall m :: m in front ==> m in (front + back)[..i]
  {
    forall m | m in front ensures m in (front + back)[..i] {
      var k :| 0 <= k < |front| && front[k] == m;
      assert (front + back)[..i][k] == m;
    }
  }

  lemma LedByFront(front: seq<Message>, back: seq<Message>)
    requires forall m :: m in front ==> !m.Backing?
    requires forall m :: m in back ==> !m.Member?
    ensures Led(front + back)
  {
    var a := front + back;
    assert forall i :: 0 <= i < |front| ==> a[i] == front[i] && !front[i].Backing?;
    forall i | 0 <= i < |a| && a[i].Backing? && Peopled(a, a[i].c.collateralId)
      ensures Peopled(a[..i], a[i].c.collateralId)
    {
      var c := a[i].c.collateralId;
      var m :| m in a && IsMemberSet(m, c);
      assert m in front;
      FrontBefore(front, back, i);
    }
  }

  lemma BackingsLastIsLed(ms: seq<Message>)
    requires BackingsLast(ms)
    ensures Led(ms)
  {
    forall i | 0 <= i < |ms| && ms[i].Backing? && Peopled(ms, ms[i].c.collateralId)
      ensures Peopled(ms[..i], ms[i].c.collateralId)
    {
      var m :| m in ms && IsMemberSet(m, ms[i].c.collateralId);
      var j :| 0 <= j < |ms| && ms[j] == m;
      assert ms[..i][j] == m;
    }
  }

  lemma {:induction false} SameFromHere(
    f: seq<Message>, e: seq<Message>, back: seq<Message>, c: CollateralId, h: OperatorGroup)
    requires BackAll(f, c, h) == BackAll(e, c, h)
    ensures BackAll(f + back, c, h) == BackAll(e + back, c, h)
  {
    if back == [] {
      assert f + back == f && e + back == e;
    } else {
      var rest := back[..|back| - 1];
      assert (f + back)[..|f + back| - 1] == f + rest && (e + back)[..|e + back| - 1] == e + rest;
      SameFromHere(f, e, rest, c, h);
    }
  }

  /** A contribution stays while nothing newer arrives. */
  lemma {:induction false} HeldStays(f: seq<Message>, back: seq<Message>, h: OperatorGroup, x: Collateral)
    requires BackAll(f, x.collateralId, h) == Some((x.wei, x.ts))
    requires forall y :: Backing(h, y) in back && y.collateralId == x.collateralId ==> y.ts <= x.ts
    ensures BackAll(f + back, x.collateralId, h) == Some((x.wei, x.ts))
  {
    if back == [] {
      assert f + back == f;
    } else {
      var rest := back[..|back| - 1];
      assert back == rest + [back[|back| - 1]];
      assert (f + back)[..|f + back| - 1] == f + rest;
      HeldStays(f, rest, h, x);
    }
  }

  lemma {:induction false} NoneBacks(ms: seq<Message>, c: CollateralId, h: OperatorGroup)
    requires forall m :: m in ms ==> !m.Backing?
    ensures BackAll(ms, c, h) == None
  {
    if ms != [] { NoneBacks(ms[..|ms| - 1], c, h); }
  }

  /** Of two newest contributions, whichever comes first stays. */
  lemma FirstNewestStays(ns: seq<Message>, x: Collateral, y: Collateral, os: seq<Message>, h: OperatorGroup)
    requires forall m :: m in ns ==> !m.Backing?
    requires x.collateralId == y.collateralId && y.ts <= x.ts
    requires forall z :: Backing(h, z) in os && z.collateralId == x.collateralId ==> z.ts <= x.ts
    ensures BackAll(((ns + [Backing(h, x)]) + [Backing(h, y)]) + os, x.collateralId, h) == Some((x.wei, x.ts))
  {
    NoneBacks(ns, x.collateralId, h);
    var f := ns + [Backing(h, x)];
    assert f[..|ns|] == ns && (f + [Backing(h, y)])[..|f|] == f;
    HeldStays(f + [Backing(h, y)], os, h, x);
  }

  lemma OthersUntouched(
    ns: seq<Message>, x: Collateral, y: Collateral, os: seq<Message>, h: OperatorGroup, c: CollateralId,
    j: OperatorGroup)
    requires j != h
    ensures BackAll(((ns + [Backing(h, x)]) + [Backing(h, y)]) + os, c, j)
         == BackAll(((ns + [Backing(h, y)]) + [Backing(h, x)]) + os, c, j)
  {
    var f, e := ns + [Backing(h, x)], ns + [Backing(h, y)];
    assert f[..|ns|] == ns && (f + [Backing(h, y)])[..|f|] == f;
    assert e[..|ns|] == ns && (e + [Backing(h, x)])[..|e|] == e;
    SameFromHere(f + [Backing(h, y)], e + [Backing(h, x)], os, c, j);
  }

  /** Two newest contributions of one group that differ: the amount is that of whichever came first. */
  lemma TieDisagrees(
    home: Homes, g: OperatorGroup, mode: PromotionMode, ms: seq<Message>, h: OperatorGroup,
    x: Collateral, y: Collateral)
    returns (a: seq<Message>, b: seq<Message>)
    requires Agrees(home, ms) && TiedNewest(g, mode, ms, h, x, y) && x.wei != y.wei
    ensures Reorders(a, ms) && Reorders(b, ms) && Led(a) && Led(b)
    ensures Gross(Replica(g, mode, a), x.collateralId) != Gross(Replica(g, mode, b), x.collateralId)
  {
    var c := x.collateralId;
    var bs, ns := SplitBy(ms, (m: Message) => m.Backing?);
    var os := TwoToFront(bs, Backing(h, x), Backing(h, y));
    a := ((ns + [Backing(h, x)]) + [Backing(h, y)]) + os;
    b := ((ns + [Backing(h, y)]) + [Backing(h, x)]) + os;
    ReorderSame(a, ms);
    ReorderSame(b, ms);
    TieIsLed(ns, Backing(h, x), Backing(h, y), os);
    TieIsLed(ns, Backing(h, y), Backing(h, x), os);
    FirstNewestStays(ns, x, y, os, h);
    FirstNewestStays(ns, y, x, os, h);
    forall j | j != h ensures BackAll(a, c, j) == BackAll(b, c, j) { OthersUntouched(ns, x, y, os, h, c, j); }
    LedGrossDiffers(home, g, mode, ms, a, b, c, h);
  }

  lemma TwoToFront(bs: seq<Message>, x: Message, y: Message) returns (os: seq<Message>)
    requires x in bs && y in bs && x != y
    ensures multiset([x]) + multiset([y]) + multiset(os) == multiset(bs)
    ensures forall m :: m in os ==> m in bs
  {
    var rest := MoveToFront(bs, x);
    assert y in multiset([x] + rest);
    os := MoveToFront(rest, y);
  }

  lemma TieIsLed(ns: seq<Message>, x: Message, y: Message, os: seq<Message>)
    requires forall m :: m in ns ==> !m.Backing?
    requires x.Backing? && y.Backing? && forall m :: m in os ==> m.Backing?
    ensures Led(((ns + [x]) + [y]) + os)
  {
    assert ((ns + [x]) + [y]) + os == ns + ([x, y] + os);
    LedByFront(ns, [x, y] + os);
  }

  lemma LedGrossDiffers(
    home: Homes, g: OperatorGroup, mode: PromotionMode, ms: seq<Message>, a: seq<Message>,
    b: seq<Message>, c: CollateralId, h: OperatorGroup)
    requires Agrees(home, ms) && SameMessages(a, ms) && SameMessages(b, ms) && Led(a) && Led(b)
    requires Counted(g, mode, h) && Peopled(ms, c)
    requires forall j :: j != h ==> BackAll(a, c, j) == BackAll(b, c, j)
    requires BackAll(a, c, h).Some? && BackAll(b, c, h).Some? && BackAll(a, c, h).value.0 != BackAll(b, c, h).value.0
    ensures Gross(Replica(g, mode, a), c) != Gross(Replica(g, mode, b), c)
  {
    PeopledMore(ms, a, c);
    PeopledMore(ms, b, c);
    forall j
      ensures BackingOf(Replica(g, mode, a), c, j) == BackAll(a, c, j)
      ensures BackingOf(Replica(g, mode, b), c, j) == BackAll(b, c, j)
    {
      BackRunIs(home, g, mode, a, c, j);
      BackRunIs(home, g, mode, b, c, j);
      LedAcceptsAll(a, |a|, c, j);
      LedAcceptsAll(b, |b|, c, j);
      assert a[..|a|] == a && b[..|b|] == b;
    }
    LocalGroupKept(g, mode, a);
    LocalGroupKept(g, mode, b);
    GrossDiffers(Replica(g, mode, a), Replica(g, mode, b), c, h);
  }

  ghost predicate LedOrderFree(g: OperatorGroup, mode: PromotionMode, ms: seq<Message>)
  {
    forall a, b :: Reorders(a, ms) && Reorders(b, ms) && Led(a) && Led(b)
      ==> SameObservables(Replica(g, mode, a), Replica(g, mode, b))
  }

  /** Every order that delivers members before contributions shows the same if and only if the list is
      orderly and newest contributions agree. */
  lemma LedOrderIndependence(g: OperatorGroup, mode: PromotionMode, ms: seq<Message>)
    ensures LedOrderFree(g, mode, ms) <==> Orderly(ms) && OneWei(g, mode, ms)
  {
    var home := BindingRun(ms);
    if OneHome(ms) { HomesAgree(ms); }
    if !Orderly(ms) {
      var a, b := StatusDisagrees(g, mode, ms);
      BackingsLastIsLed(a);
      BackingsLastIsLed(b);
      assert !SameObservables(Replica(g, mode, a), Replica(g, mode, b));
    } else if !OneWei(g, mode, ms) {
      var h, x, y :| TiedNewest(g, mode, ms, h, x, y) && x.wei != y.wei;
      var a, b := TieDisagrees(home, g, mode, ms, h, x, y);
      assert !SameObservables(Replica(g, mode, a), Replica(g, mode, b));
    } else {
      forall a, b | Reorders(a, ms) && Reorders(b, ms) && Led(a) && Led(b)
        ensures SameObservables(Replica(g, mode, a), Replica(g, mode, b))
      {
        LedAgree(home, g, mode, ms, a, b);
      }
    }
  }
}
