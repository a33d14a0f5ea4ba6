/**
 * Shared collateral pool state (crates/operator/src/pool.rs).
 *
 * The state is a value and every message a step on it. `PoolStates.dfy` proves the in-place
 * implementation against these steps; `PoolOrder.dfy` and `PoolReplay.dfy` prove what a run of
 * steps computes.
 */
module Pools {
  import opened Bytes
  import opened Sums

  const MAX_REPORTS_PER_POOL: nat := 1024
  const MAX_UNBOUND_POOLS: nat := 256

  // Identifiers are byte strings that are only ever compared; a number stands for each. The
  // empty collateral id is told apart from the others.
  datatype CollateralId = EmptyId | Id(code: nat)
  datatype OperatorGroup = OperatorGroup(code: nat)
  datatype BlockHash = BlockHash(code: nat)

  datatype PromotionMode = Observe | Follow | Share
  {
    predicate Applies() { Follow? || Share? }
  }

  datatype Membership = Membership(ts: u64, collateralId: CollateralId, pubkeys: seq<Pubkey>)
  datatype Collateral = Collateral(ts: u64, collateralId: CollateralId, wei: u128)
  datatype Promotion = Promotion(ts: u64, slot: u64, collateralId: CollateralId, pubkey: Pubkey)
  datatype Demotion = Demotion(ts: u64, slot: u64, collateralId: CollateralId, pubkey: Pubkey,
                               blockHash: BlockHash, value: u128, reason: seq<byte>)

  /** A message as it reaches the pool, with the operator group of collateral already resolved. */
  datatype Message =
    | Member(m: Membership)
    | Backing(group: OperatorGroup, c: Collateral)
    | Promote(p: Promotion)
    | Demote(d: Demotion)

  /** Report identity within a pool. The timestamp and the value are not part of it. */
  datatype ReportKey = ReportKey(pubkey: Pubkey, slot: u64, blockHash: BlockHash)

  function KeyOf(d: Demotion): ReportKey { ReportKey(d.pubkey, d.slot, d.blockHash) }

  type Reports = map<ReportKey, Demotion>

  datatype Pool = Pool(
    index: nat,
    members: seq<Pubkey>,
    seenTs: u64,
    collateral: map<OperatorGroup, (u128, u64)>,
    promotion: Option<Promotion>,
    reports: Reports,
    slotMax: map<u64, u128>,
    reserved: int)

  datatype PoolError =
    | BindingConflict(pubkey: Pubkey, existing: CollateralId, proposed: CollateralId)
    | UnknownPool(collateralId: CollateralId)
    | EmptyPoolId
    | Capacity

  datatype Outcome = Ok(changed: bool) | Err(error: PoolError)

  datatype State = State(
    localGroup: OperatorGroup,
    mode: PromotionMode,
    binding: map<Pubkey, CollateralId>,
    pools: map<CollateralId, Pool>)

  function New(localGroup: OperatorGroup, mode: PromotionMode): State
  {
    State(localGroup, mode, map[], map[])
  }

  // ---------------------------------------------------------------- reservations

  ghost predicate Attained(reports: Reports, slot: u64, value: u128)
  {
    exists k :: k in reports && reports[k].slot == slot && reports[k].value == value
  }

  /** `slotMax` holds, for exactly the slots reported on, the largest reported value. */
  ghost predicate IsSlotMax(reports: Reports, slotMax: map<u64, u128>)
  {
    && (forall s :: s in slotMax ==> Attained(reports, s, slotMax[s]))
    && (forall k :: k in reports ==> reports[k].slot in slotMax && reports[k].value <= slotMax[reports[k].slot])
  }

  function Raise(slotMax: map<u64, u128>, slot: u64, value: u128): map<u64, u128>
  {
    slotMax[slot := if slot in slotMax && slotMax[slot] > value then slotMax[slot] else value]
  }

  /** Folding one more report into the maxima keeps them exact. */
  lemma RaiseIsSlotMax(reports: Reports, k: ReportKey, rest: map<u64, u128>)
    requires k in reports && IsSlotMax(reports - {k}, rest)
    ensures IsSlotMax(reports, Raise(rest, reports[k].slot, reports[k].value))
  {
    var m := Raise(rest, reports[k].slot, reports[k].value);
    forall s | s in m
      ensures Attained(reports, s, m[s])
    {
      if s in rest && m[s] == rest[s] {
        assert Attained(reports - {k}, s, rest[s]);
        var j :| j in reports - {k} && (reports - {k})[j].slot == s && (reports - {k})[j].value == rest[s];
        assert j in reports && reports[j] == (reports - {k})[j];
      }
    }
    forall j | j in reports
      ensures reports[j].slot in m && reports[j].value <= m[reports[j].slot]
    {
      if j != k {
        assert j in reports - {k} && (reports - {k})[j] == reports[j];
      }
    }
  }

  ghost function SlotMax(reports: Reports): map<u64, u128>
    decreases |reports|
  {
    if reports == map[] then map[]
    else
      var k :| k in reports;
      assert (reports - {k}).Keys == reports.Keys - {k};
      Raise(SlotMax(reports - {k}), reports[k].slot, reports[k].value)
  }

  lemma {:induction false} SlotMaxExact(reports: Reports)
    ensures IsSlotMax(reports, SlotMax(reports))
    decreases |reports|
  {
    if reports != map[] {
      var k :| k in reports && SlotMax(reports) == Raise(SlotMax(reports - {k}), reports[k].slot, reports[k].value);
      assert (reports - {k}).Keys == reports.Keys - {k};
      SlotMaxExact(reports - {k});
      RaiseIsSlotMax(reports, k, SlotMax(reports - {k}));
    }
  }

  lemma SlotMaxUnique(reports: Reports, m: map<u64, u128>)
    requires IsSlotMax(reports, m)
    ensures m == SlotMax(reports)
  {
    SlotMaxExact(reports);
    var n := SlotMax(reports);
    assert forall s :: s in m ==> s in n && m[s] <= n[s];
    assert forall s :: s in n ==> s in m && n[s] <= m[s];
  }

  ghost function WithReports(p: Pool, reports: Reports): Pool
  {
    p.(reports := reports, slotMax := SlotMax(reports), reserved := SumValues(SlotMax(reports)))
  }

  // ---------------------------------------------------------------- steps

  function FreshPool(index: nat): Pool
  {
    Pool(index, [], 0, map[], None, map[], map[], 0)
  }

  /** The entry for `c`, created on first sight with the next free (32-bit) index. */
  function PoolMut(s: State, c: CollateralId): Pool
  {
    if c in s.pools then s.pools[c] else FreshPool(|s.pools| % TWO_32)
  }

  function SetPool(s: State, c: CollateralId, p: Pool): State
  {
    s.(pools := s.pools[c := p])
  }

  predicate Conflicts(s: State, k: Pubkey, c: CollateralId)
  {
    k in s.binding && s.binding[k] != c
  }

  function Bind(s: State, k: Pubkey, c: CollateralId): (State, Outcome)
  {
    if k in s.binding then
      (s, if s.binding[k] == c then Ok(false) else Err(BindingConflict(k, s.binding[k], c)))
    else
      var p := PoolMut(s, c);
      (SetPool(s.(binding := s.binding[k := c]), c, p.(members := p.members + [k])), Ok(true))
  }

  function BindAll(s: State, keys: seq<Pubkey>, c: CollateralId): State
  {
    if keys == [] then s
    else Bind(BindAll(s, keys[..|keys| - 1], c), keys[|keys| - 1], c).0
  }

  /** The first key of `keys` already bound elsewhere. */
  function FirstConflict(s: State, keys: seq<Pubkey>, c: CollateralId): (r: Option<Pubkey>)
    ensures r.None? <==> forall k :: k in keys ==> !Conflicts(s, k, c)
    ensures r.Some? ==> r.value in keys && Conflicts(s, r.value, c)
  {
    if keys == [] then None
    else if Conflicts(s, keys[0], c) then Some(keys[0])
    else FirstConflict(s, keys[1..], c)
  }

  function Max(a: u64, b: u64): u64 { if a < b then b else a }

  function KeySet(keys: seq<Pubkey>): set<Pubkey> { set k | k in keys }

  function ApplyMembership(s: State, m: Membership): (State, Outcome)
  {
    match FirstConflict(s, m.pubkeys, m.collateralId)
    case Some(k) => (s, Err(BindingConflict(k, s.binding[k], m.collateralId)))
    case None =>
      var s1 := BindAll(s, m.pubkeys, m.collateralId);
      var p := PoolMut(s1, m.collateralId);
      (SetPool(s1, m.collateralId, p.(seenTs := Max(p.seenTs, m.ts))),
       Ok(!(KeySet(m.pubkeys) <= s.binding.Keys)))
  }

  function ApplyCollateral(s: State, group: OperatorGroup, c: Collateral): (State, Outcome)
  {
    if c.collateralId !in s.pools || s.pools[c.collateralId].members == [] then
      (s, Err(UnknownPool(c.collateralId)))
    else
      var p := s.pools[c.collateralId];
      if group in p.collateral && c.ts <= p.collateral[group].1 then (s, Ok(false))
      else (SetPool(s, c.collateralId, p.(collateral := p.collateral[group := (c.wei, c.ts)])), Ok(true))
  }

  /** What both promotions and reports are screened for, before any pool is touched. */
  function Screen(s: State, c: CollateralId, k: Pubkey): Option<PoolError>
  {
    if c.EmptyId? then Some(EmptyPoolId)
    else if Conflicts(s, k, c) then Some(BindingConflict(k, s.binding[k], c))
    else if |s.pools| >= MAX_UNBOUND_POOLS && c !in s.pools then Some(Capacity)
    else None
  }

  /** The reports a promotion issued at `ts` does not supersede. */
  function NoOlder(reports: Reports, ts: u64): Reports
  {
    map k | k in reports && reports[k].ts >= ts :: reports[k]
  }

  ghost function ApplyPromotion(s: State, m: Promotion): (State, Outcome)
  {
    match Screen(s, m.collateralId, m.pubkey)
    case Some(e) => (s, Err(e))
    case None =>
      var p := PoolMut(s, m.collateralId);
      if p.promotion.Some? && m.ts <= p.promotion.value.ts then (SetPool(s, m.collateralId, p), Ok(false))
      else
        (SetPool(s, m.collateralId, WithReports(p.(promotion := Some(m)), NoOlder(p.reports, m.ts))), Ok(true))
  }

  /** Only a report issued before the pool's promotion is dropped. */
  predicate Retains(p: Pool, ts: u64)
  {
    p.promotion.None? || ts >= p.promotion.value.ts
  }

  ghost function InsertReport(p: Pool, d: Demotion): (Pool, bool)
  {
    if KeyOf(d) in p.reports && d.value <= p.reports[KeyOf(d)].value then (p, false)
    else (WithReports(p, p.reports[KeyOf(d) := d]), true)
  }

  ghost function ApplyDemotion(s: State, m: Demotion): (State, Outcome)
  {
    match Screen(s, m.collateralId, m.pubkey)
    case Some(e) => (s, Err(e))
    case None =>
      var p := PoolMut(s, m.collateralId);
      if !Retains(p, m.ts) then (SetPool(s, m.collateralId, p), Ok(false))
      else if |p.reports| >= MAX_REPORTS_PER_POOL then (SetPool(s, m.collateralId, p), Err(Capacity))
      else
        var (p', changed) := InsertReport(p, m);
        (SetPool(s, m.collateralId, p'), Ok(changed))
  }

  ghost function Apply(s: State, msg: Message): (State, Outcome)
  {
    match msg
    case Member(m) => ApplyMembership(s, m)
    case Backing(g, c) => ApplyCollateral(s, g, c)
    case Promote(p) => ApplyPromotion(s, p)
    case Demote(d) => ApplyDemotion(s, d)
  }

  ghost function Run(s: State, msgs: seq<Message>): State
  {
    if msgs == [] then s else Apply(Run(s, msgs[..|msgs| - 1]), msgs[|msgs| - 1]).0
  }

  // ---------------------------------------------------------------- what a state shows

  function PromotionOf(s: State, c: CollateralId): Option<Promotion>
  {
    if c in s.pools then s.pools[c].promotion else None
  }

  function TsOf(p: Option<Promotion>): Option<u64>
  {
    if p.Some? then Some(p.value.ts) else None
  }

  function ReportsOf(s: State, c: CollateralId): Reports
  {
    if c in s.pools then s.pools[c].reports else map[]
  }

  function SeenOf(s: State, c: CollateralId): u64
  {
    if c in s.pools then s.pools[c].seenTs else 0
  }

  function Reserved(s: State, c: CollateralId): int
  {
    if c in s.pools then s.pools[c].reserved else 0
  }

  ghost function Gross(s: State, c: CollateralId): int
  {
    if c !in s.pools then 0
    else if s.mode.Share? then SumValues(map g | g in s.pools[c].collateral :: s.pools[c].collateral[g].0)
    else if s.localGroup in s.pools[c].collateral then s.pools[c].collateral[s.localGroup].0
    else 0
  }

  ghost function Available(s: State, c: CollateralId): int
  {
    if Gross(s, c) < Reserved(s, c) then 0 else Gross(s, c) - Reserved(s, c)
  }

  predicate Reported(p: Pool, k: Pubkey)
  {
    exists key :: key in p.reports && key.pubkey == k
  }

  predicate IsOptimistic(s: State, k: Pubkey)
  {
    && k in s.binding
    && s.binding[k] in s.pools
    && s.pools[s.binding[k]].promotion.Some?
    && !Reported(s.pools[s.binding[k]], k)
  }

  // ---------------------------------------------------------------- invariant

  ghost predicate BoundToMember(s: State, k: Pubkey)
    requires k in s.binding
  {
    s.binding[k] in s.pools && k in s.pools[s.binding[k]].members
  }

  ghost predicate MembersBound(binding: map<Pubkey, CollateralId>, c: CollateralId, members: seq<Pubkey>)
  {
    && (forall k :: k in members ==> k in binding && binding[k] == c)
    && (forall i, j :: 0 <= i < j < |members| ==> members[i] != members[j])
  }

  /** `binding[k] == c` exactly when `k` occurs, once, among the members of pool `c`. */
  ghost predicate BindingMatchesMembers(s: State)
  {
    && (forall k :: k in s.binding ==> BoundToMember(s, k))
    && (forall c :: c in s.pools ==> MembersBound(s.binding, c, s.pools[c].members))
  }

  ghost predicate IndexUsed(pools: map<CollateralId, Pool>, i: nat)
  {
    exists c :: c in pools && pools[c].index == i
  }

  ghost predicate IndexOwn(pools: map<CollateralId, Pool>, c: CollateralId)
    requires c in pools
  {
    forall d :: d in pools && d != c ==> pools[d].index != pools[c].index
  }

  /** The indices of the pools are 0, 1, .., |pools| - 1, each used once. */
  ghost predicate IndicesDense(pools: map<CollateralId, Pool>)
  {
    && (forall c :: c in pools ==> pools[c].index < |pools|)
    && (forall c :: c in pools ==> IndexOwn(pools, c))
    && (forall i: nat :: i < |pools| ==> IndexUsed(pools, i))
  }

  ghost predicate PoolValid(c: CollateralId, p: Pool)
  {
    && p.slotMax == SlotMax(p.reports)
    && p.reserved == SumValues(p.slotMax)
    && |p.reports| <= MAX_REPORTS_PER_POOL
    && (forall k :: k in p.reports ==>
          KeyOf(p.reports[k]) == k && p.reports[k].collateralId == c && Retains(p, p.reports[k].ts))
    && (p.promotion.Some? ==> p.promotion.value.collateralId == c)
    && (c.EmptyId? ==> p.promotion.None? && p.reports == map[])
    && (p.members == [] ==> p.collateral == map[])
  }

  ghost predicate PoolsValid(pools: map<CollateralId, Pool>)
  {
    forall c :: c in pools ==> PoolValid(c, pools[c])
  }

  ghost predicate Valid(s: State)
  {
    && BindingMatchesMembers(s)
    && (|s.pools| <= TWO_32 ==> IndicesDense(s.pools))
    && PoolsValid(s.pools)
  }
}
