/**
 * The pool state as the relay holds it: two maps updated in place, message by message
 * (crates/operator/src/pool.rs:84-282). Every method is proved against the step of the same name
 * in `Pools.dfy`.
 */
module PoolStates {
  import opened Bytes
  import opened Sums
  import opened Pools
  import opened PoolInvariant
  import opened PoolCollateral

  lemma {:induction false} FirstConflictAt(s: State, keys: seq<Pubkey>, c: CollateralId, i: nat)
    requires i < |keys| && Conflicts(s, keys[i], c)
    requires forall j :: 0 <= j < i ==> !Conflicts(s, keys[j], c)
    ensures FirstConflict(s, keys, c) == Some(keys[i])
  {
    if i > 0 {
      FirstConflictAt(s, keys[1..], c, i - 1);
    }
  }

  /** One more key of a conflict-free set binds, and counts as a change exactly when it is new. */
  lemma BindNext(s: State, keys: seq<Pubkey>, i: nat, c: CollateralId)
    requires i < |keys| && forall k :: k in keys ==> !Conflicts(s, k, c)
    ensures var (t, r) := Bind(BindAll(s, keys[..i], c), keys[i], c);
      && t == BindAll(s, keys[..i + 1], c)
      && r.Ok?
      && (KeySet(keys[..i + 1]) <= s.binding.Keys <==> KeySet(keys[..i]) <= s.binding.Keys && !r.changed)
  {
    assert keys[..i + 1][..i] == keys[..i];
    assert KeySet(keys[..i + 1]) == KeySet(keys[..i]) + {keys[i]};
    assert forall k :: k in keys[..i] ==> k in keys;
    BindAllInto(s, keys[..i], c);
    assert !Conflicts(s, keys[i], c);
  }

  lemma RaisedMaxima(reports: Reports, rest: set<ReportKey>, k: ReportKey, slotMax: map<u64, u128>)
    requires rest <= reports.Keys && k in rest
    requires IsSlotMax(reports - rest, slotMax)
    ensures IsSlotMax(reports - (rest - {k}), Raise(slotMax, reports[k].slot, reports[k].value))
  {
    var more := reports - (rest - {k});
    assert more - {k} == reports - rest;
    RaiseIsSlotMax(more, k, slotMax);
  }

  /** The per-slot maxima and their sum, whatever order the reports are visited in. */
  method RecomputeReservations(reports: Reports) returns (slotMax: map<u64, u128>, reserved: int)
    ensures slotMax == SlotMax(reports)
    ensures reserved == SumValues(slotMax)
  {
    slotMax := map[];
    var rest := reports.Keys;
    while rest != {}
      invariant rest <= reports.Keys
      invariant IsSlotMax(reports - rest, slotMax)
      decreases rest
    {
      var k :| k in rest;
      RaisedMaxima(reports, rest, k, slotMax);
      slotMax := Raise(slotMax, reports[k].slot, reports[k].value);
      rest := rest - {k};
    }
    assert reports - rest == reports;
    SlotMaxUnique(reports, slotMax);

    reserved := 0;
    var left := slotMax;
    while left != map[]
      invariant reserved + SumValues(left) == SumValues(slotMax)
      decreases left.Keys
    {
      var s :| s in left;
      SumRemove(left, s);
      reserved := reserved + left[s];
      assert (left - {s}).Keys == left.Keys - {s};
      left := left - {s};
    }
  }

  /** The reservations of a pool are those of its reports. */
  ghost predicate ReservesExactly(p: Pool)
  {
    p.slotMax == SlotMax(p.reports) && p.reserved == SumValues(p.slotMax)
  }

  /** Keeps the larger of two reports of one identity, the first of two equal ones. */
  method KeepLarger(p: Pool, d: Demotion) returns (q: Pool, changed: bool)
    ensures (q, changed) == Pools.InsertReport(p, d)
    ensures KeyOf(d) in q.reports && d.value <= q.reports[KeyOf(d)].value
    ensures q.reports[KeyOf(d)] == d || (KeyOf(d) in p.reports && q.reports[KeyOf(d)] == p.reports[KeyOf(d)])
    ensures KeyOf(d) in p.reports ==> p.reports[KeyOf(d)].value <= q.reports[KeyOf(d)].value
    ensures changed <==> q.reports != p.reports
    ensures q.reports - {KeyOf(d)} == p.reports - {KeyOf(d)}
    ensures ReservesExactly(p) ==> ReservesExactly(q)
    ensures q == p.(reports := q.reports, slotMax := q.slotMax, reserved := q.reserved)
  {
    var key := KeyOf(d);
    if key in p.reports && d.value <= p.reports[key].value {
      return p, false;
    }
    var reports := p.reports[key := d];
    var slotMax, reserved := RecomputeReservations(reports);
    q, changed := p.(reports := reports, slotMax := slotMax, reserved := reserved), true;
  }

  ghost predicate OnlyCollateralDiffers(s: State, t: State, c: CollateralId)
  {
    && (c in s.pools <==> c in t.pools)
    && (c in s.pools ==> t.pools[c] == s.pools[c].(collateral := t.pools[c].collateral))
  }

  class PoolState {
    const localGroup: OperatorGroup
    const mode: PromotionMode
    var binding: map<Pubkey, CollateralId>
    var pools: map<CollateralId, Pool>

    ghost function Model(): State
      reads this
    {
      State(localGroup, mode, binding, pools)
    }

    constructor (localGroup: OperatorGroup, mode: PromotionMode)
      ensures Model() == New(localGroup, mode)
    {
      this.localGroup, this.mode := localGroup, mode;
      binding, pools := map[], map[];
    }

    method EntryOf(c: CollateralId) returns (p: Pool)
      ensures p == PoolMut(Model(), c)
    {
      p := if c in pools then pools[c] else FreshPool(|pools| % TWO_32);
    }

    /** A key is a member of the one pool it was first bound to. */
    method Bind(k: Pubkey, c: CollateralId) returns (r: Outcome)
      modifies this
      ensures (Model(), r) == Pools.Bind(old(Model()), k, c)
      ensures k in binding && (r.Ok? <==> binding[k] == c)
      ensures forall j :: j in old(binding) ==> j in binding && binding[j] == old(binding)[j]
      ensures r == Ok(true) <==> k !in old(binding)
      ensures r != Ok(true) ==> Model() == old(Model())
      ensures old(Valid(Model())) ==> Valid(Model()) && BoundToMember(Model(), k)
    {
      if Valid(Model()) { BindKeeps(Model(), k, c); }
      if k in binding {
        if binding[k] == c { return Ok(false); }
        return Err(BindingConflict(k, binding[k], c));
      }
      var p := EntryOf(c);
      binding := binding[k := c];
      pools := pools[c := p.(members := p.members + [k])];
      r := Ok(true);
    }

    /** Binds the keys of a set already found free of conflicts; the inner result is never an error. */
    method BindKeys(keys: seq<Pubkey>, c: CollateralId) returns (changed: bool)
      requires forall k :: k in keys ==> !Conflicts(Model(), k, c)
      modifies this
      ensures Model() == BindAll(old(Model()), keys, c)
      ensures changed <==> !(KeySet(keys) <= old(binding).Keys)
    {
      ghost var s := Model();
      changed := false;
      for i := 0 to |keys|
        invariant Model() == BindAll(s, keys[..i], c)
        invariant changed <==> !(KeySet(keys[..i]) <= s.binding.Keys)
      {
        BindNext(s, keys, i, c);
        var r := Bind(keys[i], c);
        assert r.Ok?;
        changed := changed || r.changed;
      }
      assert keys[..|keys|] == keys;
    }

    method ApplyMembership(m: Membership) returns (r: Outcome)
      modifies this
      ensures (Model(), r) == Pools.ApplyMembership(old(Model()), m)
    {
      for i := 0 to |m.pubkeys|
        invariant forall j :: 0 <= j < i ==> !Conflicts(Model(), m.pubkeys[j], m.collateralId)
        invariant Model() == old(Model())
      {
        var k := m.pubkeys[i];
        if k in binding && binding[k] != m.collateralId {
          FirstConflictAt(Model(), m.pubkeys, m.collateralId, i);
          return Err(BindingConflict(k, binding[k], m.collateralId));
        }
      }
      var changed := BindKeys(m.pubkeys, m.collateralId);
      var p := EntryOf(m.collateralId);
      pools := pools[m.collateralId := p.(seenTs := Max(p.seenTs, m.ts))];
      r := Ok(changed);
    }

    /** Each group has one contribution per pool, its newest; nothing else depends on contributions. */
    method ApplyCollateral(group: OperatorGroup, c: Collateral) returns (r: Outcome)
      modifies this`pools
      ensures (Model(), r) == Pools.ApplyCollateral(old(Model()), group, c)
      ensures r.Err? <==> !HasMembers(old(Model()), c.collateralId)
      ensures r.Ok?
        ==> BackingOf(Model(), c.collateralId, group).Some? && BackingOf(Model(), c.collateralId, group).value.1 >= c.ts
      ensures r == Ok(true) ==> BackingOf(Model(), c.collateralId, group) == Some((c.wei, c.ts))
      ensures r != Ok(true) ==> Model() == old(Model())
      ensures forall d, h :: d != c.collateralId || h != group ==>
        BackingOf(Model(), d, h) == BackingOf(old(Model()), d, h)
      ensures forall d :: OnlyCollateralDiffers(old(Model()), Model(), d)
      ensures old(Valid(Model())) ==> Valid(Model())
    {
      if Valid(Model()) { ApplyKeeps(Model(), Backing(group, c)); }
      if c.collateralId !in pools || pools[c.collateralId].members == [] {
        return Err(UnknownPool(c.collateralId));
      }
      var p := pools[c.collateralId];
      if group in p.collateral && c.ts <= p.collateral[group].1 {
        return Ok(false);
      }
      pools := pools[c.collateralId := p.(collateral := p.collateral[group := (c.wei, c.ts)])];
      r := Ok(true);
    }

    method ApplyPromotion(m: Promotion) returns (r: Outcome)
      modifies this`pools
      ensures (Model(), r) == Pools.ApplyPromotion(old(Model()), m)
    {
      var refusal := Refusal(m.collateralId, m.pubkey);
      if refusal.Some? {
        return Err(refusal.value);
      }
      var p := EntryOf(m.collateralId);
      pools := pools[m.collateralId := p];
      if p.promotion.Some? && m.ts <= p.promotion.value.ts {
        return Ok(false);
      }
      var kept := NoOlder(p.reports, m.ts);
      var slotMax, reserved := RecomputeReservations(kept);
      pools := pools[m.collateralId :=
        p.(promotion := Some(m), reports := kept, slotMax := slotMax, reserved := reserved)];
      assert pools == old(pools)[m.collateralId := pools[m.collateralId]];
      r := Ok(true);
    }

    method ApplyDemotion(m: Demotion) returns (r: Outcome)
      modifies this`pools
      ensures (Model(), r) == Pools.ApplyDemotion(old(Model()), m)
    {
      var refusal := Refusal(m.collateralId, m.pubkey);
      if refusal.Some? {
        return Err(refusal.value);
      }
      var p := EntryOf(m.collateralId);
      pools := pools[m.collateralId := p];
      if p.promotion.Some? && m.ts < p.promotion.value.ts {
        return Ok(false);
      }
      if |p.reports| >= MAX_REPORTS_PER_POOL {
        return Err(Capacity);
      }
      var q, changed := KeepLarger(p, m);
      pools := pools[m.collateralId := q];
      assert pools == old(pools)[m.collateralId := q];
      r := Ok(changed);
    }

    method Refusal(c: CollateralId, k: Pubkey) returns (e: Option<PoolError>)
      ensures e == Screen(Model(), c, k)
    {
      if c.EmptyId? { return Some(EmptyPoolId); }
      if k in binding && binding[k] != c { return Some(BindingConflict(k, binding[k], c)); }
      if |pools| >= MAX_UNBOUND_POOLS && c !in pools { return Some(Capacity); }
      e := None;
    }
  }
}
