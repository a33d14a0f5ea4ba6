/**
 * The operator event loop, without its network: apply a message to the pool state and, when it
 * counts as news, replace the derived view (crates/operator/src/pubsub.rs:160-316).
 */
module OperatorLoop {
  import opened Bytes
  import Counting
  import opened Sums
  import opened Pools
  import opened PoolInvariant
  import PoolCollateral
  import opened LocalCaches
  import opened PoolStates

  datatype Wire =
    | Payload
    | Members(m: Membership)
    | Backs(c: Collateral, group: Option<OperatorGroup>)
    | Promotes(p: Promotion)
    | Demotes(d: Demotion)

  /** `isNew`: the payload was not seen before. `configured`: the group the source peer is set up
      with. `Idle` is everything the loop does that touches neither the pool nor the cache. */
  datatype Event =
    | Outgoing(w: Wire, isNew: bool)
    | Incoming(w: Wire, configured: Option<OperatorGroup>)
    | Idle

  /** The group of incoming collateral; none if it is missing or contradicts the configuration. */
  function Resolve(claimed: Option<OperatorGroup>, configured: Option<OperatorGroup>): (g: Option<OperatorGroup>)
    ensures g.Some?
       <==> (claimed.Some? || configured.Some?) && (claimed.Some? && configured.Some? ==> claimed == configured)
    ensures g.Some? ==> g == claimed || g == configured
  {
    match (claimed, configured)
    case (Some(a), Some(b)) => if a == b then claimed else None
    case (Some(_), None) => claimed
    case (None, _) => configured
  }

  function Receive(w: Wire, configured: Option<OperatorGroup>): Option<Message>
    requires !w.Payload?
  {
    match w
    case Members(m) => Some(Member(m))
    case Promotes(p) => Some(Promote(p))
    case Demotes(d) => Some(Demote(d))
    case Backs(c, claimed) =>
      var g := Resolve(claimed, configured);
      if g.Some? then Some(Backing(g.value, c)) else None
  }

  function Send(w: Wire, localGroup: OperatorGroup): Message
    requires !w.Payload?
  {
    match w
    case Members(m) => Member(m)
    case Promotes(p) => Promote(p)
    case Demotes(d) => Demote(d)
    case Backs(c, _) => Backing(localGroup, c)
  }

  /** Effect of an event on the pool state; none when the loop skips the event. */
  ghost function Deliver(s: State, ev: Event): Option<(State, Outcome)>
  {
    match ev
    case Idle => None
    case Outgoing(w, isNew) =>
      if w.Payload? then Some((s, Ok(isNew))) else Some(Apply(s, Send(w, s.localGroup)))
    case Incoming(w, configured) =>
      if w.Payload? then Some((s, Ok(true)))
      else match Receive(w, configured)
        case Some(m) => Some(Apply(s, m))
        case None => None
  }

  /** News is passed on: a change, or a report of an unpooled builder. */
  predicate IsNews(r: Outcome)
  {
    match r
    case Ok(changed) => changed
    case Err(e) => e.EmptyPoolId?
  }

  datatype Loop = Loop(pool: State, cache: Cache)

  ghost predicate Refreshed(s: State, before: Cache, after: Cache)
  {
    exists views, bindings :: IsUpdate(s, views, bindings) && after == PutAll(before, views + bindings)
  }

  ghost predicate Step(l: Loop, ev: Event, l': Loop)
  {
    match Deliver(l.pool, ev)
    case None => l' == l
    case Some((s, r)) =>
      && l'.pool == s
      && if IsNews(r) && s.mode.Applies() then Refreshed(s, l.cache, l'.cache) else l'.cache == l.cache
  }

  ghost predicate Sound(l: Loop)
  {
    Valid(l.pool) && (l.pool.mode.Applies() ==> InSync(l.pool, l.cache))
  }

  // ---------------------------------------------------------------- one step

  lemma {:induction false} BindAllExtends(s: State, keys: seq<Pubkey>, c: CollateralId)
    ensures Extends(s, BindAll(s, keys, c))
  {
    if keys != [] { BindAllExtends(s, keys[..|keys| - 1], c); }
  }

  /** Messages add keys and pools; none is moved, renumbered or removed. */
  lemma ApplyExtends(s: State, m: Message)
    ensures Extends(s, Apply(s, m).0)
  {
    if m.Member? { BindAllExtends(s, m.m.pubkeys, m.m.collateralId); }
  }

  /** A state that differs only in what the view does not show leaves the cache in sync. */
  lemma SameButSeenInSync(s: State, t: State, c: Cache)
    requires InSync(s, c) && SameButSeen(s, t)
    ensures InSync(t, c)
  {
    forall k | k in t.binding
      ensures KeyInSync(t, c, k)
    {
      assert KeyInSync(s, c, k);
      var d := s.binding[k];
      assert t.pools[d] == s.pools[d].(seenTs := t.pools[d].seenTs);
      assert Gross(t, d) == Gross(s, d);
    }
  }

  lemma QuietKeepsSync(s: State, m: Message, c: Cache)
    requires InSync(s, c) && !IsNews(Apply(s, m).1)
    ensures InSync(Apply(s, m).0, c)
  {
    if Apply(s, m).1.Err? {
      RejectedChangesNothing(s, m);
    } else {
      UnchangedKeepsView(s, m);
      SameButSeenInSync(s, Apply(s, m).0, c);
    }
  }

  lemma NewsSyncs(s: State, t: State, c: Cache, c': Cache)
    requires |t.pools| <= TWO_32 && Valid(t) && Refreshed(t, c, c')
    requires Extends(s, t) && InSync(s, c)
    ensures InSync(t, c')
  {
    var views, bindings :| IsUpdate(t, views, bindings) && c' == PutAll(c, views + bindings);
    UpdateSyncs(t, c, views, bindings);
  }

  lemma DeliverKeeps(s: State, ev: Event)
    requires Valid(s) && Deliver(s, ev).Some?
    ensures var t := Deliver(s, ev).value.0;
      Valid(t) && t.mode == s.mode && Extends(s, t)
    ensures forall c :: InSync(s, c) && !IsNews(Deliver(s, ev).value.1) ==> InSync(Deliver(s, ev).value.0, c)
  {
    if !ev.w.Payload? {
      var m := if ev.Outgoing? then Send(ev.w, s.localGroup) else Receive(ev.w, ev.configured).value;
      ApplyKeeps(s, m);
      PoolCollateral.ApplyKeepsConfig(s, m);
      ApplyExtends(s, m);
      forall c | InSync(s, c) && !IsNews(Apply(s, m).1)
        ensures InSync(Apply(s, m).0, c)
      {
        QuietKeepsSync(s, m, c);
      }
    }
  }

  /** Every step of the loop keeps the pool state valid and the view in sync, the steps that skip
      the update included. */
  lemma StepKeepsSync(l: Loop, ev: Event, l': Loop)
    requires Sound(l) && Step(l, ev, l') && |l'.pool.pools| <= TWO_32
    ensures Sound(l') && l'.pool.mode == l.pool.mode
  {
    if Deliver(l.pool, ev).Some? {
      DeliverKeeps(l.pool, ev);
      var (s, r) := Deliver(l.pool, ev).value;
      if IsNews(r) && s.mode.Applies() {
        NewsSyncs(l.pool, s, l.cache, l'.cache);
      }
    }
  }

  // ---------------------------------------------------------------- every run

  ghost predicate IsRun(g: OperatorGroup, mode: PromotionMode, evs: seq<Event>, ls: seq<Loop>)
  {
    && |ls| == |evs| + 1
    && ls[0] == Loop(New(g, mode), Cache(map[], map[]))
    && forall i :: 0 <= i < |evs| ==> Step(ls[i], evs[i], ls[i + 1])
  }

  lemma StartsSound(g: OperatorGroup, mode: PromotionMode)
    ensures Sound(Loop(New(g, mode), Cache(map[], map[])))
  {
  }

  lemma StepExtends(l: Loop, ev: Event, l': Loop)
    requires Valid(l.pool) && Step(l, ev, l')
    ensures Valid(l'.pool) && Extends(l.pool, l'.pool)
  {
    if Deliver(l.pool, ev).Some? { DeliverKeeps(l.pool, ev); }
  }

  lemma ExtendsOn(s: State, t: State, u: State)
    requires Extends(s, t) && Extends(t, u)
    ensures Extends(s, u)
  {
  }

  lemma {:induction false} RunStaysValid(g: OperatorGroup, mode: PromotionMode, evs: seq<Event>, ls: seq<Loop>, n: nat)
    requires IsRun(g, mode, evs, ls) && n < |ls|
    ensures Valid(ls[n].pool)
  {
    if n == 0 {
      StartsSound(g, mode);
    } else {
      RunStaysValid(g, mode, evs, ls, n - 1);
      StepExtends(ls[n - 1], evs[n - 1], ls[n]);
    }
  }

  lemma RunStepExtends(g: OperatorGroup, mode: PromotionMode, evs: seq<Event>, ls: seq<Loop>, n: nat)
    requires IsRun(g, mode, evs, ls) && n < |evs|
    ensures Extends(ls[n].pool, ls[n + 1].pool)
  {
    RunStaysValid(g, mode, evs, ls, n);
    StepExtends(ls[n], evs[n], ls[n + 1]);
  }

  lemma {:induction false} RunExtends(
    g: OperatorGroup, mode: PromotionMode, evs: seq<Event>, ls: seq<Loop>, m: nat, n: nat)
    requires IsRun(g, mode, evs, ls) && m <= n < |ls|
    ensures Extends(ls[m].pool, ls[n].pool)
    decreases n
  {
    if m < n {
      RunExtends(g, mode, evs, ls, m, n - 1);
      RunStepExtends(g, mode, evs, ls, n - 1);
      ExtendsOn(ls[m].pool, ls[n - 1].pool, ls[n].pool);
    }
  }

  lemma FewerPoolsBefore(g: OperatorGroup, mode: PromotionMode, evs: seq<Event>, ls: seq<Loop>, m: nat, n: nat)
    requires IsRun(g, mode, evs, ls) && m <= n < |ls|
    ensures |ls[m].pool.pools| <= |ls[n].pool.pools|
  {
    RunExtends(g, mode, evs, ls, m, n);
    Counting.SubsetBound(ls[m].pool.pools.Keys, ls[n].pool.pools.Keys);
  }

  lemma RunStepSound(g: OperatorGroup, mode: PromotionMode, evs: seq<Event>, ls: seq<Loop>, n: nat)
    requires IsRun(g, mode, evs, ls) && n < |evs| && Sound(ls[n]) && |ls[n + 1].pool.pools| <= TWO_32
    ensures Sound(ls[n + 1]) && ls[n + 1].pool.mode == ls[n].pool.mode
  {
    StepKeepsSync(ls[n], evs[n], ls[n + 1]);
  }

  /** Every run stays sound while pool indices, which are 32 bits wide, do not wrap. */
  lemma {:induction false} RunStaysSound(g: OperatorGroup, mode: PromotionMode, evs: seq<Event>, ls: seq<Loop>, n: nat)
    requires IsRun(g, mode, evs, ls) && n < |ls| && |ls[n].pool.pools| <= TWO_32
    ensures Sound(ls[n]) && ls[n].pool.mode == mode
  {
    if n == 0 {
      StartsSound(g, mode);
    } else {
      FewerPoolsBefore(g, mode, evs, ls, n - 1, n);
      RunStaysSound(g, mode, evs, ls, n - 1);
      RunStepSound(g, mode, evs, ls, n - 1);
    }
  }

  /** In `Follow` and `Share`, after every step of every run, a status is present exactly for bound
      keys, and is what the pool state says. */
  lemma ViewFollowsPool(g: OperatorGroup, mode: PromotionMode, evs: seq<Event>, ls: seq<Loop>, n: nat, k: Pubkey)
    requires IsRun(g, mode, evs, ls) && n < |ls| && |ls[n].pool.pools| <= TWO_32 && mode.Applies()
    ensures var l := ls[n];
      Status(l.cache, k) == if k in l.pool.binding
        then Some(PoolStatus(l.pool.binding[k], Available(l.pool, l.pool.binding[k]), IsOptimistic(l.pool, k)))
        else None
  {
    RunStaysSound(g, mode, evs, ls, n);
    StatusIsPoolState(ls[n].pool, ls[n].cache, k);
  }

  // ---------------------------------------------------------------- the loop itself

  method AvailableOf(s: PoolState, c: CollateralId) returns (v: int)
    requires c in s.pools
    ensures v == Available(s.Model(), c)
  {
    var p := s.pools[c];
    var gross := 0;
    if s.mode.Share? {
      var wei := map g | g in p.collateral :: p.collateral[g].0;
      var left := wei;
      while left != map[]
        invariant gross + SumValues(left) == SumValues(wei)
        decreases left.Keys
      {
        var g :| g in left;
        SumRemove(left, g);
        gross := gross + left[g];
        assert (left - {g}).Keys == left.Keys - {g};
        left := left - {g};
      }
    } else if s.localGroup in p.collateral {
      gross := p.collateral[s.localGroup].0;
    }
    v := if gross < p.reserved then 0 else gross - p.reserved;
  }

  /** One budget record per pool. */
  method PoolRecords(s: PoolState) returns (out: seq<(nat, PoolView)>)
    ensures forall w :: w in ViewWrites(out) <==> ViewRecord(s.Model(), w)
  {
    out := [];
    var rest := s.pools.Keys;
    while rest != {}
      invariant rest <= s.pools.Keys
      invariant forall w :: w in ViewWrites(out) <==> ViewRecord(s.Model(), w) && w.view.collateralId !in rest
      decreases rest
    {
      var c :| c in rest;
      var available := AvailableOf(s, c);
      var view := PoolView(c, available, s.pools[c].promotion.Some?);
      assert ViewWrites(out + [(s.pools[c].index, view)]) == ViewWrites(out) + [WriteView(s.pools[c].index, view)];
      out := out + [(s.pools[c].index, view)];
      rest := rest - {c};
    }
  }

  ghost predicate MemberRecord(s: State, c: CollateralId, n: nat, w: Write)
    requires c in s.pools && n <= |s.pools[c].members|
  {
    w.WriteBinding? && w.key in s.pools[c].members[..n]
    && w.binding == PoolBinding(s.pools[c].index, Reported(s.pools[c], w.key))
  }

  method MemberRecords(s: PoolState, c: CollateralId) returns (out: seq<(Pubkey, PoolBinding)>)
    requires c in s.pools
    ensures forall w :: w in BindingWrites(out) <==> MemberRecord(s.Model(), c, |s.pools[c].members|, w)
  {
    out := [];
    var p := s.pools[c];
    for i := 0 to |p.members|
      invariant forall w :: w in BindingWrites(out) <==> MemberRecord(s.Model(), c, i, w)
    {
      var b := PoolBinding(p.index, exists key :: key in p.reports && key.pubkey == p.members[i]);
      assert BindingWrites(out + [(p.members[i], b)]) == BindingWrites(out) + [WriteBinding(p.members[i], b)];
      assert p.members[..i + 1] == p.members[..i] + [p.members[i]];
      out := out + [(p.members[i], b)];
    }
  }

  /** One record per member of every pool: which pool, and whether the key is reported. */
  method KeyRecords(s: PoolState) returns (out: seq<(Pubkey, PoolBinding)>)
    requires BindingMatchesMembers(s.Model())
    ensures forall w :: w in BindingWrites(out) <==> BindingRecord(s.Model(), w)
  {
    out := [];
    var rest := s.pools.Keys;
    while rest != {}
      invariant rest <= s.pools.Keys
      invariant forall w :: w in BindingWrites(out) <==> BindingRecord(s.Model(), w) && s.binding[w.key] !in rest
      decreases rest
    {
      var c :| c in rest;
      var more := MemberRecords(s, c);
      assert BindingWrites(out + more) == BindingWrites(out) + BindingWrites(more);
      MembersAreBound(s.Model(), c);
      out := out + more;
      rest := rest - {c};
    }
  }

  /** The members of a pool are the keys bound to it. */
  lemma MembersAreBound(s: State, c: CollateralId)
    requires BindingMatchesMembers(s) && c in s.pools
    ensures forall w :: MemberRecord(s, c, |s.pools[c].members|, w) <==> BindingRecord(s, w) && s.binding[w.key] == c
  {
    var members := s.pools[c].members;
    assert members[..|members|] == members;
    assert MembersBound(s.binding, c, members);
    forall k | k in s.binding && s.binding[k] == c
      ensures k in members
    {
      assert BoundToMember(s, k);
    }
  }

  class Operator {
    const pool: PoolState
    const cache: LocalCache

    ghost function Model(): Loop
      reads this, pool, cache
    {
      Loop(pool.Model(), cache.Model())
    }

    constructor (localGroup: OperatorGroup, mode: PromotionMode)
      ensures fresh(pool) && fresh(cache) && Model() == Loop(New(localGroup, mode), Cache(map[], map[]))
    {
      var p := new PoolState(localGroup, mode);
      var c := new LocalCache();
      pool, cache := p, c;
    }

    method ApplyMessage(m: Message) returns (r: Outcome)
      modifies pool
      ensures (pool.Model(), r) == Apply(old(pool.Model()), m)
    {
      match m
      case Member(x) => r := pool.ApplyMembership(x);
      case Backing(g, x) => r := pool.ApplyCollateral(g, x);
      case Promote(x) => r := pool.ApplyPromotion(x);
      case Demote(x) => r := pool.ApplyDemotion(x);
    }

    /** Replaces the derived view from the pool state as it is now. */
    method Refresh()
      requires BindingMatchesMembers(pool.Model())
      modifies cache
      ensures Refreshed(pool.Model(), old(cache.Model()), cache.Model())
    {
      var views := PoolRecords(pool);
      var bindings := KeyRecords(pool);
      cache.UpdatePoolState(views, bindings);
      assert IsUpdate(pool.Model(), ViewWrites(views), BindingWrites(bindings));
    }

    /** Applies what the event carries; none when the loop skips it. */
    method DeliverEvent(ev: Event) returns (r: Option<Outcome>)
      modifies pool
      ensures r.None? ==> Deliver(old(pool.Model()), ev).None? && pool.Model() == old(pool.Model())
      ensures r.Some? ==> Deliver(old(pool.Model()), ev) == Some((pool.Model(), r.value))
    {
      if ev.Idle? { return None; }
      if ev.w.Payload? {
        return Some(Ok(if ev.Outgoing? then ev.isNew else true));
      }
      var m := if ev.Outgoing? then Some(Send(ev.w, pool.localGroup)) else Receive(ev.w, ev.configured);
      if m.None? { return None; }
      var outcome := ApplyMessage(m.value);
      r := Some(outcome);
    }

    method OnEvent(ev: Event)
      requires Valid(pool.Model())
      modifies pool, cache
      ensures Step(old(Model()), ev, Model())
      ensures Valid(pool.Model())
    {
      var r := DeliverEvent(ev);
      if r.Some? {
        DeliverKeeps(old(pool.Model()), ev);
        if IsNews(r.value) && pool.mode.Applies() {
          Refresh();
        }
      }
    }
  }
}
