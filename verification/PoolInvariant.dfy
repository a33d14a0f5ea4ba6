/** Every step keeps the pool invariant, and what its result says about the state holds. */
module PoolInvariant {
  import opened Bytes
  import opened Sums
  import opened Pools
  import Counting

  lemma PoolCount(pools: map<CollateralId, Pool>, c: CollateralId, p: Pool)
    ensures |pools[c := p]| == if c in pools then |pools| else |pools| + 1
  {
    assert pools[c := p].Keys == pools.Keys + {c};
  }

  lemma NextIndex(s: State, c: CollateralId)
    requires c in s.pools || |s.pools| < TWO_32
    ensures PoolMut(s, c).index == if c in s.pools then s.pools[c].index else |s.pools|
  {
  }

  lemma IndexStaysUsed(pools: map<CollateralId, Pool>, c: CollateralId, p: Pool, i: nat)
    requires IndexUsed(pools, i)
    requires c in pools ==> p.index == pools[c].index
    ensures IndexUsed(pools[c := p], i)
  {
    var d :| d in pools && pools[d].index == i;
    assert d in pools[c := p] && pools[c := p][d].index == i;
  }

  lemma IndexStaysOwn(pools: map<CollateralId, Pool>, c: CollateralId, p: Pool, d: CollateralId)
    requires IndicesDense(pools)
    requires p.index == if c in pools then pools[c].index else |pools|
    requires d in pools || d == c
    ensures IndexOwn(pools[c := p], d)
  {
    if d in pools { assert IndexOwn(pools, d); }
  }

  lemma IndicesStayDense(pools: map<CollateralId, Pool>, c: CollateralId, p: Pool)
    requires IndicesDense(pools)
    requires p.index == if c in pools then pools[c].index else |pools|
    ensures IndicesDense(pools[c := p])
  {
    var pools' := pools[c := p];
    assert pools'.Keys == pools.Keys + {c};
    forall i: nat | i < |pools'|
      ensures IndexUsed(pools', i)
    {
      if i < |pools| { IndexStaysUsed(pools, c, p, i); } else { assert pools'[c].index == i; }
    }
    forall d | d in pools'
      ensures IndexOwn(pools', d)
    {
      IndexStaysOwn(pools, c, p, d);
    }
  }

  lemma BindingsStayMatched(s: State, c: CollateralId, p: Pool)
    requires BindingMatchesMembers(s)
    requires p.members == PoolMut(s, c).members
    ensures BindingMatchesMembers(SetPool(s, c, p))
  {
    var s' := SetPool(s, c, p);
    forall k | k in s'.binding
      ensures BoundToMember(s', k)
    {
      assert BoundToMember(s, k);
    }
  }

  lemma EntryKeepsIndices(s: State, c: CollateralId, p: Pool)
    requires |s.pools| <= TWO_32 ==> IndicesDense(s.pools)
    requires p.index == PoolMut(s, c).index
    ensures |s.pools[c := p]| <= TWO_32 ==> IndicesDense(s.pools[c := p])
  {
    PoolCount(s.pools, c, p);
    if |s.pools[c := p]| <= TWO_32 {
      NextIndex(s, c);
      IndicesStayDense(s.pools, c, p);
    }
  }

  /** Replacing an entry by one that keeps its index and members keeps the invariant. */
  lemma SetPoolKeeps(s: State, c: CollateralId, p: Pool)
    requires Valid(s) && PoolValid(c, p)
    requires p.index == PoolMut(s, c).index && p.members == PoolMut(s, c).members
    ensures Valid(SetPool(s, c, p))
  {
    BindingsStayMatched(s, c, p);
    EntryKeepsIndices(s, c, p);
  }

  lemma BindMatches(s: State, k: Pubkey, c: CollateralId)
    requires BindingMatchesMembers(s) && k !in s.binding
    ensures BindingMatchesMembers(Bind(s, k, c).0)
  {
    var p := PoolMut(s, c);
    var s' := Bind(s, k, c).0;
    assert k !in p.members;
    assert forall j :: j in p.members + [k] <==> j in p.members || j == k;
    forall j | j in s'.binding
      ensures BoundToMember(s', j)
    {
      if j != k {
        assert BoundToMember(s, j);
      }
    }
    forall d | d in s'.pools
      ensures MembersBound(s'.binding, d, s'.pools[d].members)
    {
      if d in s.pools {
        assert MembersBound(s.binding, d, s.pools[d].members);
      }
    }
  }

  lemma FreshValid(c: CollateralId, index: nat)
    ensures PoolValid(c, FreshPool(index))
  {
  }

  lemma PoolMutValid(s: State, c: CollateralId)
    requires Valid(s)
    ensures PoolValid(c, PoolMut(s, c))
  {
    if c !in s.pools { FreshValid(c, |s.pools| % TWO_32); }
  }

  lemma EntryStaysValid(s: State, k: Pubkey, c: CollateralId)
    requires Valid(s)
    ensures PoolValid(c, PoolMut(s, c).(members := PoolMut(s, c).members + [k]))
  {
    PoolMutValid(s, c);
  }

  lemma PoolsStayValid(pools: map<CollateralId, Pool>, c: CollateralId, p: Pool, pools': map<CollateralId, Pool>)
    requires PoolsValid(pools) && PoolValid(c, p) && pools' == pools[c := p]
    ensures PoolsValid(pools')
  {
  }

  lemma BindKeeps(s: State, k: Pubkey, c: CollateralId)
    requires Valid(s)
    ensures Valid(Bind(s, k, c).0)
  {
    if k !in s.binding {
      var p := PoolMut(s, c);
      var q := p.(members := p.members + [k]);
      var s' := Bind(s, k, c).0;
      BindMatches(s, k, c);
      EntryStaysValid(s, k, c);
      PoolsStayValid(s.pools, c, q, s'.pools);
      EntryKeepsIndices(s, c, q);
    }
  }

  function BoundTo(keys: set<Pubkey>, c: CollateralId): map<Pubkey, CollateralId>
  {
    map k | k in keys :: c
  }

  /** Pools other than `c` are untouched, and in pool `c` only the member list may differ. */
  ghost predicate OnlyMembersOf(s: State, t: State, c: CollateralId)
  {
    && t.localGroup == s.localGroup && t.mode == s.mode
    && t.pools - {c} == s.pools - {c}
    && PoolMut(t, c) == PoolMut(s, c).(members := PoolMut(t, c).members)
  }

  /** `t` is `s` with `keys` bound to `c`. */
  ghost predicate BoundInto(s: State, t: State, keys: set<Pubkey>, c: CollateralId)
  {
    && t.binding == s.binding + BoundTo(keys, c)
    && OnlyMembersOf(s, t, c)
    && (keys <= s.binding.Keys ==> t == s)
    && (!(keys <= s.binding.Keys) || c in s.pools ==> c in t.pools)
  }

  lemma BoundToMore(binding: map<Pubkey, CollateralId>, keys: set<Pubkey>, k: Pubkey, c: CollateralId)
    ensures binding + BoundTo(keys + {k}, c) == (binding + BoundTo(keys, c))[k := c]
  {
  }

  lemma BindTouchesMembers(t: State, k: Pubkey, c: CollateralId)
    ensures OnlyMembersOf(t, Bind(t, k, c).0, c)
  {
    var p := PoolMut(t, c).(members := PoolMut(t, c).members + [k]);
    assert t.pools[c := p] - {c} == t.pools - {c};
  }

  lemma BindInto(s: State, t: State, t': State, keys: set<Pubkey>, keys': set<Pubkey>, k: Pubkey, c: CollateralId)
    requires BoundInto(s, t, keys, c) && !Conflicts(s, k, c)
    requires t' == Bind(t, k, c).0 && keys' == keys + {k}
    ensures BoundInto(s, t', keys', c)
  {
    BoundToMore(s.binding, keys, k, c);
    BindTouchesMembers(t, k, c);
    if k in t.binding {
      assert t.binding[k := c] == t.binding;
    }
  }

  lemma BoundIntoSelf(s: State, c: CollateralId)
    ensures BoundInto(s, s, {}, c)
  {
    assert s.binding + BoundTo({}, c) == s.binding;
  }

  lemma KeySetNext(keys: seq<Pubkey>)
    requires keys != []
    ensures KeySet(keys) == KeySet(keys[..|keys| - 1]) + {keys[|keys| - 1]}
    ensures forall k :: k in keys[..|keys| - 1] ==> k in keys
  {
    assert keys == keys[..|keys| - 1] + [keys[|keys| - 1]];
  }

  lemma {:induction false} BindAllInto(s: State, keys: seq<Pubkey>, c: CollateralId)
    requires forall k :: k in keys ==> !Conflicts(s, k, c)
    ensures BoundInto(s, BindAll(s, keys, c), KeySet(keys), c)
  {
    if keys == [] {
      BoundIntoSelf(s, c);
      assert KeySet(keys) == {};
    } else {
      var front, last := keys[..|keys| - 1], keys[|keys| - 1];
      KeySetNext(keys);
      BindAllInto(s, front, c);
      BindInto(s, BindAll(s, front, c), BindAll(s, keys, c), KeySet(front), KeySet(keys), last, c);
    }
  }

  lemma {:induction false} BindAllKeeps(s: State, keys: seq<Pubkey>, c: CollateralId)
    requires Valid(s)
    ensures Valid(BindAll(s, keys, c))
  {
    if keys != [] {
      BindAllKeeps(s, keys[..|keys| - 1], c);
      BindKeeps(BindAll(s, keys[..|keys| - 1], c), keys[|keys| - 1], c);
    }
  }

  lemma MembershipKeeps(s: State, m: Membership)
    requires Valid(s)
    ensures Valid(ApplyMembership(s, m).0)
  {
    if FirstConflict(s, m.pubkeys, m.collateralId).None? {
      BindAllKeeps(s, m.pubkeys, m.collateralId);
      var s1 := BindAll(s, m.pubkeys, m.collateralId);
      var p := PoolMut(s1, m.collateralId);
      PoolMutValid(s1, m.collateralId);
      SetPoolKeeps(s1, m.collateralId, p.(seenTs := Max(p.seenTs, m.ts)));
    }
  }

  lemma WithReportsValid(c: CollateralId, p: Pool, reports: Reports)
    requires |reports| <= MAX_REPORTS_PER_POOL
    requires forall k :: k in reports ==>
      KeyOf(reports[k]) == k && reports[k].collateralId == c && Retains(p, reports[k].ts)
    requires p.promotion.Some? ==> p.promotion.value.collateralId == c
    requires p.members == [] ==> p.collateral == map[]
    requires !c.EmptyId?
    ensures PoolValid(c, WithReports(p, reports))
  {
  }

  lemma PromotionKeeps(s: State, m: Promotion)
    requires Valid(s)
    ensures Valid(ApplyPromotion(s, m).0)
  {
    if Screen(s, m.collateralId, m.pubkey).None? {
      var p := PoolMut(s, m.collateralId);
      PoolMutValid(s, m.collateralId);
      if p.promotion.Some? && m.ts <= p.promotion.value.ts {
        SetPoolKeeps(s, m.collateralId, p);
      } else {
        var kept := NoOlder(p.reports, m.ts);
        Counting.SubsetBound(kept.Keys, p.reports.Keys);
        WithReportsValid(m.collateralId, p.(promotion := Some(m)), kept);
        SetPoolKeeps(s, m.collateralId, WithReports(p.(promotion := Some(m)), kept));
      }
    }
  }

  lemma InsertKeeps(c: CollateralId, p: Pool, d: Demotion)
    requires PoolValid(c, p) && !c.EmptyId? && d.collateralId == c
    requires Retains(p, d.ts) && |p.reports| < MAX_REPORTS_PER_POOL
    ensures PoolValid(c, InsertReport(p, d).0)
  {
    var more := p.reports[KeyOf(d) := d];
    assert more.Keys == p.reports.Keys + {KeyOf(d)};
    WithReportsValid(c, p, more);
  }

  lemma DemotionKeeps(s: State, m: Demotion)
    requires Valid(s)
    ensures Valid(ApplyDemotion(s, m).0)
  {
    if Screen(s, m.collateralId, m.pubkey).None? {
      var p := PoolMut(s, m.collateralId);
      PoolMutValid(s, m.collateralId);
      if Retains(p, m.ts) && |p.reports| < MAX_REPORTS_PER_POOL {
        InsertKeeps(m.collateralId, p, m);
        SetPoolKeeps(s, m.collateralId, InsertReport(p, m).0);
      } else {
        SetPoolKeeps(s, m.collateralId, p);
      }
    }
  }

  /** No message can break the invariant. */
  lemma ApplyKeeps(s: State, msg: Message)
    requires Valid(s)
    ensures Valid(Apply(s, msg).0)
  {
    match msg
    case Member(m) => MembershipKeeps(s, m);
    case Promote(m) => PromotionKeeps(s, m);
    case Demote(m) => DemotionKeeps(s, m);
    case Backing(g, c) =>
      if c.collateralId in s.pools {
        var p := s.pools[c.collateralId];
        var q := p.(collateral := p.collateral[g := (c.wei, c.ts)]);
        if p.members != [] {
          assert PoolValid(c.collateralId, q);
          SetPoolKeeps(s, c.collateralId, q);
        }
      }
  }

  lemma {:induction false} RunKeeps(s: State, msgs: seq<Message>)
    requires Valid(s)
    ensures Valid(Run(s, msgs))
  {
    if msgs != [] {
      RunKeeps(s, msgs[..|msgs| - 1]);
      ApplyKeeps(Run(s, msgs[..|msgs| - 1]), msgs[|msgs| - 1]);
    }
  }

  /** A rejected message leaves the state exactly as it was, a rejected member set included. */
  lemma RejectedChangesNothing(s: State, msg: Message)
    requires Apply(s, msg).1.Err?
    ensures Apply(s, msg).0 == s
  {
    if msg.Demote? && Screen(s, msg.d.collateralId, msg.d.pubkey).None? {
      assert msg.d.collateralId in s.pools;
      assert s.pools[msg.d.collateralId := s.pools[msg.d.collateralId]] == s.pools;
    }
  }

  /** The same state but for `seenTs`, and for pools that hold nothing yet. */
  ghost predicate SameButSeen(s: State, t: State)
  {
    && t.binding == s.binding && t.mode == s.mode && t.localGroup == s.localGroup
    && (forall c :: c in s.pools ==> c in t.pools && t.pools[c] == s.pools[c].(seenTs := t.pools[c].seenTs))
    && (forall c :: c in t.pools && c !in s.pools ==>
          t.pools[c] == FreshPool(t.pools[c].index).(seenTs := t.pools[c].seenTs))
  }

  /** "Unchanged" is true of everything the derived view is built from. A member set that binds
      nothing new may still raise `seenTs`, or create a pool with no members. */
  lemma UnchangedKeepsView(s: State, msg: Message)
    requires Apply(s, msg).1 == Ok(false)
    ensures SameButSeen(s, Apply(s, msg).0)
  {
    if msg.Member? {
      BindAllInto(s, msg.m.pubkeys, msg.m.collateralId);
    }
  }

  const TWO_138: nat := 0x400_0000_0000_0000_0000_0000_0000_0000_0000

  /** At most 1024 maxima of 128 bits each: the 256-bit sum of reservations never wraps. */
  lemma ReservationsFit(s: State, c: CollateralId)
    requires Valid(s)
    ensures 0 <= Reserved(s, c) < TWO_138
    ensures Reserved(s, c) == SumValues(SlotMax(ReportsOf(s, c)))
  {
    if c in s.pools {
      var p := s.pools[c];
      assert PoolValid(c, p);
      SlotsAtMostReports(p.reports);
      SumBounded(p.slotMax, TWO_128 - 1);
      var n := |p.slotMax|;
      assert n * (TWO_128 - 1) <= 1024 * (TWO_128 - 1);
    }
  }

  lemma SlotsAtMostReports(reports: Reports)
    ensures |SlotMax(reports)| <= |reports|
    decreases |reports|
  {
    var m := SlotMax(reports);
    if reports != map[] {
      var k :| k in reports;
      var rest := reports - {k};
      assert rest.Keys == reports.Keys - {k};
      SlotsAtMostReports(rest);
      var r := SlotMax(rest);
      SlotMaxExact(rest);
      RaiseIsSlotMax(reports, k, r);
      SlotMaxUnique(reports, Raise(r, reports[k].slot, reports[k].value));
      assert m.Keys == r.Keys + {reports[k].slot};
    }
  }
}
