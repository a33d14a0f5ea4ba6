/**
 * What a run of messages computes, pool by pool: `Slice` is what one pool shows, and `SliceStep` the
 * effect on it of a message that is not refused for its key or for room. The bound on reports is part of
 * the step.
 */
module PoolOrder {
  import opened Bytes
  import Counting
  import opened Pools
  import opened PoolInvariant

  // ---------------------------------------------------------------- who belongs where, and room

  function IdOf(m: Message): CollateralId
  {
    match m
    case Member(m) => m.collateralId
    case Backing(_, c) => c.collateralId
    case Promote(p) => p.collateralId
    case Demote(d) => d.collateralId
  }

  /** The pool each key belongs to. */
  type Homes = map<Pubkey, CollateralId>

  predicate AgreesWith(home: Homes, m: Message)
  {
    m.Member? ==> forall k :: k in m.m.pubkeys ==> k in home && home[k] == m.m.collateralId
  }

  /** Member sets place keys where they belong. */
  predicate Agrees(home: Homes, ms: seq<Message>)
  {
    forall m :: m in ms ==> AgreesWith(home, m)
  }

  /** A promotion or report that names a pool. */
  predicate IsStatus(m: Message) { (m.Promote? || m.Demote?) && !IdOf(m).EmptyId? }

  function NamedKey(m: Message): Pubkey
    requires IsStatus(m)
  {
    if m.Promote? then m.p.pubkey else m.d.pubkey
  }

  /** A promotion or report for a key that belongs to another pool. */
  predicate Strays(home: Homes, m: Message)
  {
    IsStatus(m) && NamedKey(m) in home && home[NamedKey(m)] != IdOf(m)
  }

  predicate NoneStrays(home: Homes, ms: seq<Message>)
  {
    forall m :: m in ms ==> !Strays(home, m)
  }

  /** Member sets, and promotions and reports that name a pool, create it. */
  predicate Opens(m: Message) { m.Member? || IsStatus(m) }

  function PoolIds(ms: seq<Message>): set<CollateralId>
  {
    set m | m in ms && Opens(m) :: IdOf(m)
  }

  function Identities(ms: seq<Message>, c: CollateralId): set<ReportKey>
  {
    set m | m in ms && m.Demote? && m.d.collateralId == c :: KeyOf(m.d)
  }

  /** No promotion and no report names a pool: only member sets create pools then, and those are not bounded. */
  predicate Quiet(ms: seq<Message>)
  {
    forall m :: m in ms ==> !IsStatus(m)
  }

  predicate Roomy(ms: seq<Message>) { |PoolIds(ms)| <= MAX_UNBOUND_POOLS || Quiet(ms) }

  /** Every message keeps to where keys belong, and there is room for every pool that needs it. */
  predicate Fits(home: Homes, ms: seq<Message>)
  {
    Agrees(home, ms) && NoneStrays(home, ms) && Roomy(ms)
  }

  ghost predicate SameMessages(a: seq<Message>, b: seq<Message>)
  {
    forall m :: m in a <==> m in b
  }

  lemma FitsSame(home: Homes, a: seq<Message>, b: seq<Message>)
    requires Fits(home, a) && forall m :: m in b ==> m in a
    ensures Fits(home, b)
  {
    Counting.SubsetBound(PoolIds(b), PoolIds(a));
  }

  // ---------------------------------------------------------------- one pool at a time

  datatype Slice = Slice(promotion: Option<Promotion>, reports: Reports, seen: u64)

  function SliceOf(s: State, c: CollateralId): Slice
  {
    Slice(PromotionOf(s, c), ReportsOf(s, c), SeenOf(s, c))
  }

  predicate Survives(promotion: Option<Promotion>, ts: u64) { promotion.None? || ts >= promotion.value.ts }

  function SliceStep(sl: Slice, m: Message, c: CollateralId): Slice
  {
    if IdOf(m) != c then sl
    else match m
      case Member(x) => sl.(seen := Max(sl.seen, x.ts))
      case Promote(p) =>
        if c.EmptyId? || (sl.promotion.Some? && p.ts <= sl.promotion.value.ts) then sl
        else sl.(promotion := Some(p), reports := NoOlder(sl.reports, p.ts))
      case Demote(d) =>
        if c.EmptyId? || !Survives(sl.promotion, d.ts) || |sl.reports| >= MAX_REPORTS_PER_POOL then sl
        else if KeyOf(d) in sl.reports && d.value <= sl.reports[KeyOf(d)].value then sl
        else sl.(reports := sl.reports[KeyOf(d) := d])
      case _ => sl
  }

  function SliceRun(ms: seq<Message>, c: CollateralId): Slice
  {
    if ms == [] then Slice(None, map[], 0)
    else SliceStep(SliceRun(ms[..|ms| - 1], c), ms[|ms| - 1], c)
  }

  function BindingStep(b: map<Pubkey, CollateralId>, m: Message): map<Pubkey, CollateralId>
  {
    if m.Member? then b + BoundTo(KeySet(m.m.pubkeys), m.m.collateralId) else b
  }

  function BindingRun(ms: seq<Message>): map<Pubkey, CollateralId>
  {
    if ms == [] then map[] else BindingStep(BindingRun(ms[..|ms| - 1]), ms[|ms| - 1])
  }

  predicate AtHome(home: Homes, s: State) { forall k :: k in s.binding ==> k in home && home[k] == s.binding[k] }

  /** The state `ms` leads to stays within what `ms` mentions. */
  ghost predicate Within(home: Homes, s: State, ms: seq<Message>)
  {
    AtHome(home, s) && s.pools.Keys <= PoolIds(ms)
  }

  /** The key of a promotion or report is bound to another pool by now. */
  predicate Clashes(s: State, m: Message) { IsStatus(m) && Conflicts(s, NamedKey(m), IdOf(m)) }

  /** Member sets that agree are never refused, and other messages only for their key. */
  lemma NotRefused(home: Homes, s: State, ms: seq<Message>, m: Message)
    requires Agrees(home, ms) && Roomy(ms) && Within(home, s, ms) && m in ms
    ensures m.Member? ==> FirstConflict(s, m.m.pubkeys, m.m.collateralId).None?
    ensures IsStatus(m) && !Clashes(s, m) ==> Screen(s, IdOf(m), NamedKey(m)).None?
    ensures Clashes(s, m) ==> Strays(home, m) && Apply(s, m).0 == s
  {
    var c := IdOf(m);
    assert AgreesWith(home, m);
    if IsStatus(m) && c !in s.pools {
      assert c in PoolIds(ms);
      assert s.pools.Keys <= PoolIds(ms) - {c};
      Counting.SubsetBound(s.pools.Keys, PoolIds(ms) - {c});
      assert |s.pools| == |s.pools.Keys|;
    }
  }

  /** `t` is `s` after `m`, as the slices tell it. */
  ghost predicate Projects(s: State, m: Message, t: State)
  {
    && t.binding == BindingStep(s.binding, m)
    && (forall c :: SliceOf(t, c) == SliceStep(SliceOf(s, c), m, c))
    && t.pools.Keys <= s.pools.Keys + (if Opens(m) then {IdOf(m)} else {})
  }

  lemma OnlyMembersSlice(s: State, t: State, c: CollateralId, d: CollateralId)
    requires OnlyMembersOf(s, t, c)
    ensures SliceOf(t, d) == SliceOf(s, d)
    ensures d != c && d in t.pools ==> d in s.pools
  {
    if d != c {
      assert d in t.pools <==> d in t.pools - {c};
      assert d in s.pools <==> d in s.pools - {c};
      if d in s.pools { assert (t.pools - {c})[d] == (s.pools - {c})[d]; }
    }
  }

  function Shown(p: Pool): Slice
  {
    Slice(p.promotion, p.reports, p.seenTs)
  }

  /** An entry written back under `c` changes the slice of `c` and no other. */
  lemma EntrySlices(s: State, c: CollateralId, p: Pool)
    ensures SliceOf(SetPool(s, c, p), c) == Shown(p)
    ensures forall d :: d != c ==> SliceOf(SetPool(s, c, p), d) == SliceOf(s, d)
    ensures SetPool(s, c, p).pools.Keys == s.pools.Keys + {c}
    ensures SliceOf(s, c) == Shown(PoolMut(s, c))
  {
  }

  lemma BoundSlices(s: State, keys: seq<Pubkey>, c: CollateralId)
    requires FirstConflict(s, keys, c).None?
    ensures BindAll(s, keys, c).binding == s.binding + BoundTo(KeySet(keys), c)
    ensures forall d :: SliceOf(BindAll(s, keys, c), d) == SliceOf(s, d)
    ensures BindAll(s, keys, c).pools.Keys <= s.pools.Keys + {c}
  {
    BindAllInto(s, keys, c);
    forall d
      ensures SliceOf(BindAll(s, keys, c), d) == SliceOf(s, d)
      ensures d != c && d in BindAll(s, keys, c).pools ==> d in s.pools
    {
      OnlyMembersSlice(s, BindAll(s, keys, c), c, d);
    }
  }

  lemma MemberProjects(s: State, m: Membership)
    requires FirstConflict(s, m.pubkeys, m.collateralId).None?
    ensures Projects(s, Member(m), ApplyMembership(s, m).0)
  {
    var s1 := BindAll(s, m.pubkeys, m.collateralId);
    BoundSlices(s, m.pubkeys, m.collateralId);
    var p := PoolMut(s1, m.collateralId);
    EntrySlices(s1, m.collateralId, p.(seenTs := Max(p.seenTs, m.ts)));
  }

  lemma EntryProjects(s: State, p: Pool, m: Message)
    requires !m.Member? && Opens(m)
    requires Shown(p) == SliceStep(Shown(PoolMut(s, IdOf(m))), m, IdOf(m))
    ensures Projects(s, m, SetPool(s, IdOf(m), p))
  {
    EntrySlices(s, IdOf(m), p);
    EntrySlices(s, IdOf(m), PoolMut(s, IdOf(m)));
  }

  lemma PromoteProjects(s: State, p: Promotion)
    requires Screen(s, p.collateralId, p.pubkey).None?
    ensures Projects(s, Promote(p), ApplyPromotion(s, p).0)
  {
    EntryProjects(s, ApplyPromotion(s, p).0.pools[p.collateralId], Promote(p));
  }

  lemma DemoteProjects(s: State, d: Demotion)
    requires Screen(s, d.collateralId, d.pubkey).None?
    ensures Projects(s, Demote(d), ApplyDemotion(s, d).0)
  {
    var p := PoolMut(s, d.collateralId);
    var taken := Retains(p, d.ts) && |p.reports| < MAX_REPORTS_PER_POOL;
    EntryProjects(s, if taken then InsertReport(p, d).0 else p, Demote(d));
  }

  lemma StepProjects(home: Homes, s: State, ms: seq<Message>, m: Message)
    requires Agrees(home, ms) && Roomy(ms) && Within(home, s, ms) && m in ms && !Clashes(s, m)
    ensures Projects(s, m, Apply(s, m).0)
  {
    NotRefused(home, s, ms, m);
    match m
    case Member(x) => MemberProjects(s, x);
    case Backing(g, x) =>
      if x.collateralId in s.pools {
        EntrySlices(s, x.collateralId, Apply(s, m).0.pools[x.collateralId]);
      }
    case Promote(x) => if !x.collateralId.EmptyId? { PromoteProjects(s, x); }
    case Demote(x) => if !x.collateralId.EmptyId? { DemoteProjects(s, x); }
  }

  lemma ProjectedWithin(home: Homes, s: State, ms: seq<Message>, m: Message, t: State)
    requires Agrees(home, ms) && Within(home, s, ms) && m in ms && Projects(s, m, t)
    ensures Within(home, t, ms)
  {
    assert AgreesWith(home, m);
    assert Opens(m) ==> IdOf(m) in PoolIds(ms);
  }

  // ---------------------------------------------------------------- bindings, whatever the number of pools

  lemma BindingProjects(home: Homes, s: State, m: Message)
    requires AtHome(home, s) && AgreesWith(home, m)
    ensures Apply(s, m).0.binding == BindingStep(s.binding, m) && AtHome(home, Apply(s, m).0)
  {
    if m.Member? {
      assert FirstConflict(s, m.m.pubkeys, m.m.collateralId).None?;
      BoundSlices(s, m.m.pubkeys, m.m.collateralId);
    }
  }

  /** Who belongs where does not depend on the room for pools. */
  lemma {:induction false} RunBinds(home: Homes, s: State, ms: seq<Message>)
    requires s == New(s.localGroup, s.mode) && Agrees(home, ms)
    ensures Run(s, ms).binding == BindingRun(ms) && AtHome(home, Run(s, ms))
  {
    if ms != [] {
      RunBinds(home, s, ms[..|ms| - 1]);
      BindingProjects(home, Run(s, ms[..|ms| - 1]), ms[|ms| - 1]);
    }
  }

  // ---------------------------------------------------------------- runs

  /** A run is the runs of its pools, side by side, over the messages it takes: all but promotions and
      reports whose key belongs elsewhere. */
  lemma {:induction false} RunTakes(home: Homes, s: State, ms: seq<Message>, pre: seq<Message>)
    returns (taken: seq<Message>)
    requires s == New(s.localGroup, s.mode)
    requires Agrees(home, ms) && Roomy(ms) && forall m :: m in pre ==> m in ms
    ensures forall m :: m in taken ==> m in pre
    ensures forall m :: m in pre && !Strays(home, m) ==> m in taken
    ensures NoneStrays(home, pre) ==> taken == pre
    ensures forall c :: SliceOf(Run(s, pre), c) == SliceRun(taken, c)
    ensures Within(home, Run(s, pre), ms)
  {
    if pre == [] {
      taken := [];
    } else {
      var front, m := pre[..|pre| - 1], pre[|pre| - 1];
      assert pre == front + [m] && m in pre;
      taken := RunTakes(home, s, ms, front);
      NotRefused(home, Run(s, front), ms, m);
      if !Clashes(Run(s, front), m) {
        StepProjects(home, Run(s, front), ms, m);
        ProjectedWithin(home, Run(s, front), ms, m, Run(s, pre));
        taken := taken + [m];
      }
    }
  }

  lemma RunProjects(home: Homes, s: State, ms: seq<Message>)
    requires s == New(s.localGroup, s.mode) && Fits(home, ms)
    ensures Run(s, ms).binding == BindingRun(ms)
    ensures forall c :: SliceOf(Run(s, ms), c) == SliceRun(ms, c)
    ensures Within(home, Run(s, ms), ms)
  {
    var taken := RunTakes(home, s, ms, ms);
    RunBinds(home, s, ms);
  }
}
