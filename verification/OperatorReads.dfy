/**
 * Readers of the shared maps while the operator loop runs. A reader looks up a key's pool in one map and
 * then that pool's view in the other; the loop may insert into both in between, and apply any number of
 * messages.
 */
module OperatorReads {
  import opened Bytes
  import opened Pools
  import opened LocalCaches
  import opened OperatorLoop

  // ---------------------------------------------------------------- insertions of a run

  /** Nothing, or an update of `t`. */
  ghost predicate IsWriting(t: State, ws: seq<Write>)
  {
    ws == [] || exists views, bindings :: IsUpdate(t, views, bindings) && ws == views + bindings
  }

  /** `ws` is what the step inserts into the shared maps, in order. */
  ghost predicate Writes(l: Loop, ws: seq<Write>, l': Loop)
  {
    l'.cache == PutAll(l.cache, ws) && IsWriting(l'.pool, ws)
  }

  /** The insertions of a run, step by step. */
  ghost predicate RunWrites(evs: seq<Event>, ls: seq<Loop>, wss: seq<seq<Write>>)
    requires |ls| == |evs| + 1
  {
    |wss| == |evs| && forall i :: 0 <= i < |evs| ==> Writes(ls[i], wss[i], ls[i + 1])
  }

  lemma StepWrites(l: Loop, ev: Event, l': Loop) returns (ws: seq<Write>)
    requires Step(l, ev, l')
    ensures Writes(l, ws, l')
  {
    if l'.cache == l.cache {
      ws := [];
    } else {
      var views, bindings :| IsUpdate(l'.pool, views, bindings) && l'.cache == PutAll(l.cache, views + bindings);
      ws := views + bindings;
    }
  }

  lemma {:induction false} RunHasWrites(
    g: OperatorGroup, mode: PromotionMode, evs: seq<Event>, ls: seq<Loop>) returns (wss: seq<seq<Write>>)
    requires IsRun(g, mode, evs, ls)
    ensures RunWrites(evs, ls, wss)
  {
    if evs == [] {
      wss := [];
    } else {
      var n := |evs| - 1;
      wss := RunHasWrites(g, mode, evs[..n], ls[..n + 1]);
      assert Step(ls[n], evs[n], ls[n + 1]);
      var ws := StepWrites(ls[n], evs[n], ls[n + 1]);
      forall i | 0 <= i < n ensures Writes(ls[i], wss[i], ls[i + 1]) {
        assert Writes(ls[..n + 1][i], wss[i], ls[..n + 1][i + 1]);
      }
      wss := wss + [ws];
    }
  }

  /** A moment of a run: `done` of the insertions of step `step` have been made. */
  datatype Moment = Moment(step: nat, done: nat)
  {
    predicate Of(wss: seq<seq<Write>>) { step < |wss| && done <= |wss[step]| }
    predicate UpTo(q: Moment) { step < q.step || (step == q.step && done <= q.done) }
  }

  ghost function CacheAt(ls: seq<Loop>, wss: seq<seq<Write>>, p: Moment): Cache
    requires |ls| == |wss| + 1 && p.Of(wss)
  {
    PutAll(ls[p.step].cache, wss[p.step][..p.done])
  }

  lemma OwnedAt(l: Loop, ev: Event, ws: seq<Write>, l': Loop, i: nat)
    requires Valid(l.pool) && Step(l, ev, l') && Writes(l, ws, l') && Owned(l.pool, l.cache)
    requires |l'.pool.pools| <= TWO_32 && i <= |ws|
    ensures Owned(l'.pool, PutAll(l.cache, ws[..i]))
  {
    StepExtends(l, ev, l');
    OwnedExtends(l.pool, l'.pool, l.cache);
    if ws != [] {
      var views, bindings :| IsUpdate(l'.pool, views, bindings) && ws == views + bindings;
      UpdateKeepsOwned(l'.pool, l.cache, views, bindings, i);
    }
  }

  lemma {:induction false} RunStaysOwned(
    g: OperatorGroup, mode: PromotionMode, evs: seq<Event>, ls: seq<Loop>, wss: seq<seq<Write>>, n: nat)
    requires IsRun(g, mode, evs, ls) && RunWrites(evs, ls, wss) && n < |ls| && |ls[n].pool.pools| <= TWO_32
    ensures Owned(ls[n].pool, ls[n].cache)
  {
    if n > 0 {
      FewerPoolsBefore(g, mode, evs, ls, n - 1, n);
      RunStaysValid(g, mode, evs, ls, n - 1);
      RunStaysOwned(g, mode, evs, ls, wss, n - 1);
      assert Step(ls[n - 1], evs[n - 1], ls[n]) && Writes(ls[n - 1], wss[n - 1], ls[n]);
      OwnedAt(ls[n - 1], evs[n - 1], wss[n - 1], ls[n], |wss[n - 1]|);
      assert wss[n - 1][..|wss[n - 1]|] == wss[n - 1];
    }
  }

  /** At every moment of every run, between any two insertions, no binding is without its view, and
      each refers to its own key's pool. */
  lemma NeverDangling(
    g: OperatorGroup, mode: PromotionMode, evs: seq<Event>, ls: seq<Loop>, wss: seq<seq<Write>>, p: Moment)
    requires IsRun(g, mode, evs, ls) && RunWrites(evs, ls, wss) && p.Of(wss) && |ls[p.step + 1].pool.pools| <= TWO_32
    ensures Owned(ls[p.step + 1].pool, CacheAt(ls, wss, p))
    ensures NoDangling(CacheAt(ls, wss, p))
  {
    var n := p.step;
    FewerPoolsBefore(g, mode, evs, ls, n, n + 1);
    RunStaysValid(g, mode, evs, ls, n);
    RunStaysOwned(g, mode, evs, ls, wss, n);
    assert Step(ls[n], evs[n], ls[n + 1]) && Writes(ls[n], wss[n], ls[n + 1]);
    OwnedAt(ls[n], evs[n], wss[n], ls[n + 1], p.done);
  }

  /** Views are added and replaced, never removed, within a step and across steps. */
  lemma {:induction false} ViewsStay(evs: seq<Event>, ls: seq<Loop>, wss: seq<seq<Write>>, p: Moment, q: Moment)
    requires |ls| == |evs| + 1 && RunWrites(evs, ls, wss) && p.Of(wss) && q.Of(wss) && p.UpTo(q)
    ensures CacheAt(ls, wss, p).views.Keys <= CacheAt(ls, wss, q).views.Keys
    decreases q.step
  {
    if p.step == q.step {
      ViewsOnlyGrow(ls[p.step].cache, wss[p.step], p.done, q.done);
    } else {
      var n := q.step - 1;
      var last := Moment(n, |wss[n]|);
      ViewsStay(evs, ls, wss, p, last);
      assert Writes(ls[n], wss[n], ls[n + 1]) && wss[n][..|wss[n]|] == wss[n];
      ViewsOnlyGrow(ls[q.step].cache, wss[q.step], 0, q.done);
      assert wss[q.step][..0] == [];
    }
  }

  lemma FoundView(s: State, t: State, first: Cache, second: Cache, k: Pubkey)
    requires Owned(s, first) && Owned(t, second) && Extends(s, t) && IndicesDense(t.pools)
    requires k in first.bindings && first.views.Keys <= second.views.Keys
    ensures var i := first.bindings[k].pool;
      i in second.views && k in s.binding && second.views[i].collateralId == s.binding[k]
  {
    ViewIsOwn(t, second, k, first.bindings[k].pool);
  }

  /** A reader looks up a key's binding at one moment and the view it refers to at another, with any
      number of updates between: it finds a view, and the view is that of the key's pool. */
  lemma ReaderFindsView(
    g: OperatorGroup, mode: PromotionMode, evs: seq<Event>, ls: seq<Loop>, wss: seq<seq<Write>>, p: Moment, q: Moment,
    k: Pubkey)
    requires IsRun(g, mode, evs, ls) && RunWrites(evs, ls, wss) && p.Of(wss) && q.Of(wss) && p.UpTo(q)
    requires |ls[q.step + 1].pool.pools| <= TWO_32 && k in CacheAt(ls, wss, p).bindings
    ensures var i := CacheAt(ls, wss, p).bindings[k].pool;
      && i in CacheAt(ls, wss, q).views && k in ls[p.step + 1].pool.binding
      && CacheAt(ls, wss, q).views[i].collateralId == ls[p.step + 1].pool.binding[k]
  {
    RunExtends(g, mode, evs, ls, p.step + 1, q.step + 1);
    FewerPoolsBefore(g, mode, evs, ls, p.step + 1, q.step + 1);
    ConsistentAt(g, mode, evs, ls, q.step + 1);
    NeverDangling(g, mode, evs, ls, wss, p);
    NeverDangling(g, mode, evs, ls, wss, q);
    ViewsStay(evs, ls, wss, p, q);
    FoundView(ls[p.step + 1].pool, ls[q.step + 1].pool, CacheAt(ls, wss, p), CacheAt(ls, wss, q), k);
  }

  // ---------------------------------------------------------------- which states a reader sees

  lemma InSyncAt(g: OperatorGroup, mode: PromotionMode, evs: seq<Event>, ls: seq<Loop>, n: nat)
    requires IsRun(g, mode, evs, ls) && n < |ls| && |ls[n].pool.pools| <= TWO_32 && mode.Applies()
    ensures InSync(ls[n].pool, ls[n].cache)
  {
    RunStaysSound(g, mode, evs, ls, n);
  }

  lemma ConsistentAt(g: OperatorGroup, mode: PromotionMode, evs: seq<Event>, ls: seq<Loop>, n: nat)
    requires IsRun(g, mode, evs, ls) && n < |ls| && |ls[n].pool.pools| <= TWO_32
    ensures IndicesDense(ls[n].pool.pools) && BindingMatchesMembers(ls[n].pool)
  {
    RunStaysValid(g, mode, evs, ls, n);
  }

  lemma WrittenAt(evs: seq<Event>, ls: seq<Loop>, wss: seq<seq<Write>>, n: nat)
    requires |ls| == |evs| + 1 && RunWrites(evs, ls, wss) && n < |evs|
    ensures IsWriting(ls[n + 1].pool, wss[n])
  {
    assert Writes(ls[n], wss[n], ls[n + 1]);
  }

  /** At moment `p` the key's binding is that of the state before or after the step. */
  lemma BindingIsOf(s: State, t: State, c: Cache, ws: seq<Write>, i: nat, k: Pubkey) returns (later: bool)
    requires InSync(s, c) && IsWriting(t, ws) && i <= |ws| && k in PutAll(c, ws[..i]).bindings
    ensures !later ==> k in s.binding && s.binding[k] in s.pools && PutAll(c, ws[..i]).bindings[k] == BindingOf(s, k)
    ensures later ==> k in t.binding && t.binding[k] in t.pools && PutAll(c, ws[..i]).bindings[k] == BindingOf(t, k)
    ensures later ==> exists views, bindings ::
      IsUpdate(t, views, bindings) && ws == views + bindings && i > |views|
  {
    if ws == [] {
      assert ws[..i] == [] && KeyInSync(s, c, k);
      later := false;
    } else {
      var views, bindings :| IsUpdate(t, views, bindings) && ws == views + bindings;
      BindingDuring(t, c, views, bindings, i, k);
      later := !(k in c.bindings && PutAll(c, ws[..i]).bindings[k] == c.bindings[k]);
      if !later { assert KeyInSync(s, c, k); }
    }
  }

  /** The view under the index of a pool that had a key is that of the state before or after the step. */
  lemma ViewIsOf(s: State, t: State, c: Cache, ws: seq<Write>, j: nat, k: Pubkey, d: CollateralId) returns (later: bool)
    requires InSync(s, c) && Extends(s, t) && IndicesDense(t.pools) && IsWriting(t, ws) && j <= |ws|
    requires k in s.binding && s.binding[k] == d && d in s.pools && d in t.pools
    ensures s.pools[d].index in PutAll(c, ws[..j]).views
    ensures PutAll(c, ws[..j]).views[s.pools[d].index] == if later then ViewOf(t, d) else ViewOf(s, d)
  {
    assert KeyInSync(s, c, k) && s.pools[d].index == t.pools[d].index;
    if ws == [] {
      assert ws[..j] == [];
      later := false;
    } else {
      var views, bindings :| IsUpdate(t, views, bindings) && ws == views + bindings;
      assert ws[..0] == [];
      ViewsOnlyGrow(c, ws, 0, j);
      ViewDuring(t, c, views, bindings, j, d);
      later := PutAll(c, ws[..j]).views[t.pools[d].index] == ViewOf(t, d);
    }
  }

  /** Once a key's new binding is in, so is its pool's new view. */
  lemma ViewIsLater(t: State, c: Cache, ws: seq<Write>, i: nat, j: nat, d: CollateralId)
    requires IndicesDense(t.pools) && i <= j <= |ws| && d in t.pools
    requires exists views, bindings :: IsUpdate(t, views, bindings) && ws == views + bindings && i > |views|
    requires t.pools[d].index in PutAll(c, ws[..j]).views
    ensures PutAll(c, ws[..j]).views[t.pools[d].index] == ViewOf(t, d)
  {
    var views, bindings :| IsUpdate(t, views, bindings) && ws == views + bindings && i > |views|;
    ViewDuring(t, c, views, bindings, j, d);
  }

  /** The binding is that of state `a` of the run and the view that of state `b`, both of one pool. */
  ghost predicate AreOf(ls: seq<Loop>, k: Pubkey, first: PoolBinding, second: PoolView, a: nat, b: nat)
  {
    && a <= b < |ls| && k in ls[a].pool.binding
    && var d := ls[a].pool.binding[k];
       && d in ls[a].pool.pools && first == BindingOf(ls[a].pool, k)
       && d in ls[b].pool.pools && second == ViewOf(ls[b].pool, d)
  }

  /** The binding and the view that a reader of `k` finds at moments `p` and `q`. */
  ghost predicate Reads(
    ls: seq<Loop>, wss: seq<seq<Write>>, p: Moment, q: Moment, k: Pubkey, first: PoolBinding, second: PoolView)
    requires |ls| == |wss| + 1 && p.Of(wss) && q.Of(wss)
  {
    && k in CacheAt(ls, wss, p).bindings && first == CacheAt(ls, wss, p).bindings[k]
    && first.pool in CacheAt(ls, wss, q).views && second == CacheAt(ls, wss, q).views[first.pool]
  }

  lemma FirstLook(
    g: OperatorGroup, mode: PromotionMode, evs: seq<Event>, ls: seq<Loop>, wss: seq<seq<Write>>, p: Moment, k: Pubkey)
    returns (a: nat)
    requires IsRun(g, mode, evs, ls) && RunWrites(evs, ls, wss) && p.Of(wss) && mode.Applies()
    requires |ls[p.step + 1].pool.pools| <= TWO_32 && k in CacheAt(ls, wss, p).bindings
    ensures a == p.step || a == p.step + 1
    ensures k in ls[a].pool.binding && ls[a].pool.binding[k] in ls[a].pool.pools
    ensures CacheAt(ls, wss, p).bindings[k] == BindingOf(ls[a].pool, k)
    ensures a == p.step + 1 ==> exists views, bindings ::
      IsUpdate(ls[a].pool, views, bindings) && wss[p.step] == views + bindings && p.done > |views|
  {
    FewerPoolsBefore(g, mode, evs, ls, p.step, p.step + 1);
    InSyncAt(g, mode, evs, ls, p.step);
    WrittenAt(evs, ls, wss, p.step);
    var later := BindingIsOf(ls[p.step].pool, ls[p.step + 1].pool, ls[p.step].cache, wss[p.step], p.done, k);
    a := if later then p.step + 1 else p.step;
  }

  lemma SecondLook(
    g: OperatorGroup, mode: PromotionMode, evs: seq<Event>, ls: seq<Loop>, wss: seq<seq<Write>>, q: Moment,
    k: Pubkey, d: CollateralId)
    returns (b: nat)
    requires IsRun(g, mode, evs, ls) && RunWrites(evs, ls, wss) && q.Of(wss) && mode.Applies()
    requires |ls[q.step + 1].pool.pools| <= TWO_32
    requires k in ls[q.step].pool.binding && ls[q.step].pool.binding[k] == d && d in ls[q.step].pool.pools
    ensures b == q.step || b == q.step + 1
    ensures d in ls[b].pool.pools && ls[b].pool.pools[d].index == ls[q.step].pool.pools[d].index
    ensures ls[b].pool.pools[d].index in CacheAt(ls, wss, q).views
    ensures CacheAt(ls, wss, q).views[ls[b].pool.pools[d].index] == ViewOf(ls[b].pool, d)
  {
    FewerPoolsBefore(g, mode, evs, ls, q.step, q.step + 1);
    InSyncAt(g, mode, evs, ls, q.step);
    ConsistentAt(g, mode, evs, ls, q.step + 1);
    RunStepExtends(g, mode, evs, ls, q.step);
    WrittenAt(evs, ls, wss, q.step);
    var later := ViewIsOf(ls[q.step].pool, ls[q.step + 1].pool, ls[q.step].cache, wss[q.step], q.done, k, d);
    b := if later then q.step + 1 else q.step;
  }

  /** A reader's binding is that of the state before or after the step of its first look, its view that of
      the state before or after the step of its second, and never of an earlier state than the binding. */
  lemma ReadsAreOf(
    g: OperatorGroup, mode: PromotionMode, evs: seq<Event>, ls: seq<Loop>, wss: seq<seq<Write>>, p: Moment, q: Moment,
    k: Pubkey, first: PoolBinding, second: PoolView)
    returns (a: nat, b: nat)
    requires IsRun(g, mode, evs, ls) && RunWrites(evs, ls, wss) && p.Of(wss) && q.Of(wss) && p.UpTo(q)
    requires mode.Applies() && |ls[q.step + 1].pool.pools| <= TWO_32 && Reads(ls, wss, p, q, k, first, second)
    ensures a == p.step || a == p.step + 1
    ensures b == q.step || b == q.step + 1
    ensures AreOf(ls, k, first, second, a, b)
  {
    FewerPoolsBefore(g, mode, evs, ls, p.step + 1, q.step + 1);
    a := FirstLook(g, mode, evs, ls, wss, p, k);
    var d := ls[a].pool.binding[k];
    if a <= q.step {
      RunExtends(g, mode, evs, ls, a, q.step);
      b := SecondLook(g, mode, evs, ls, wss, q, k, d);
    } else {
      b := a;
      ConsistentAt(g, mode, evs, ls, a);
      ViewIsLater(ls[a].pool, ls[p.step].cache, wss[p.step], p.done, q.done, d);
    }
  }

  // ---------------------------------------------------------------- what a reader is told

  lemma MembersKeepPools(s: State, keys: seq<Pubkey>, c: CollateralId, d: CollateralId)
    requires d in s.pools
    ensures d in BindAll(s, keys, c).pools
    ensures BindAll(s, keys, c).pools[d].promotion == s.pools[d].promotion
    ensures BindAll(s, keys, c).pools[d].reports == s.pools[d].reports
  {
    if keys != [] { MembersKeepPools(s, keys[..|keys| - 1], c, d); }
  }

  lemma ApplyPromotesCleanly(s: State, m: Message, d: CollateralId)
    ensures PromotesCleanly(s, Apply(s, m).0, d)
  {
    if d in s.pools && m.Member? { MembersKeepPools(s, m.m.pubkeys, m.m.collateralId, d); }
  }

  lemma StepPromotesCleanly(l: Loop, ev: Event, l': Loop, d: CollateralId)
    requires Step(l, ev, l')
    ensures PromotesCleanly(l.pool, l'.pool, d)
  {
    if Deliver(l.pool, ev).Some? && !ev.w.Payload? {
      var m := if ev.Outgoing? then Send(ev.w, l.pool.localGroup) else Receive(ev.w, ev.configured).value;
      ApplyPromotesCleanly(l.pool, m, d);
    }
  }

  lemma RunPromotesCleanly(
    g: OperatorGroup, mode: PromotionMode, evs: seq<Event>, ls: seq<Loop>, n: nat, d: CollateralId)
    requires IsRun(g, mode, evs, ls) && n < |evs|
    ensures PromotesCleanly(ls[n].pool, ls[n + 1].pool, d)
  {
    StepPromotesCleanly(ls[n], evs[n], ls[n + 1], d);
  }

  predicate PromotedIn(s: State, d: CollateralId) { d in s.pools && s.pools[d].promotion.Some? }
  predicate ReportedIn(s: State, d: CollateralId, k: Pubkey) { d in s.pools && Reported(s.pools[d], k) }

  lemma OptimisticIn(s: State, t: State, k: Pubkey)
    requires Extends(s, t) && k in s.binding && s.binding[k] in s.pools
    ensures IsOptimistic(t, k) <==> PromotedIn(t, s.binding[k]) && !ReportedIn(t, s.binding[k], k)
  {
  }

  /** What the reader is told is true of no state from `a` to `b`. */
  ghost predicate Misled(ls: seq<Loop>, k: Pubkey, told: bool, a: nat, b: nat)
    requires a <= b < |ls|
  {
    forall x :: a <= x <= b ==> IsOptimistic(ls[x].pool, k) != told
  }

  /** The pool was promoted after the binding was read, and the key was reported by then and stayed so. */
  ghost predicate ReportedThenPromoted(ls: seq<Loop>, d: CollateralId, k: Pubkey, a: nat, b: nat)
    requires a <= b < |ls|
  {
    && PromotedIn(ls[b].pool, d) && !ReportedIn(ls[a].pool, d, k)
    && forall x :: a <= x <= b && PromotedIn(ls[x].pool, d) ==> ReportedIn(ls[x].pool, d, k)
  }

  lemma MisledExactly(
    g: OperatorGroup, mode: PromotionMode, evs: seq<Event>, ls: seq<Loop>, k: Pubkey,
    first: PoolBinding, second: PoolView, a: nat, b: nat)
    requires IsRun(g, mode, evs, ls) && AreOf(ls, k, first, second, a, b)
    ensures Misled(ls, k, ReadOptimism(first, second), a, b)
       <==> ReportedThenPromoted(ls, ls[a].pool.binding[k], k, a, b)
    ensures !ReadOptimism(first, second) ==> !IsOptimistic(ls[a].pool, k) || !IsOptimistic(ls[b].pool, k)
    ensures ReadOptimism(first, second) && PromotedIn(ls[a].pool, ls[a].pool.binding[k]) ==> IsOptimistic(ls[a].pool, k)
  {
    var d := ls[a].pool.binding[k];
    forall x | a <= x <= b
      ensures IsOptimistic(ls[x].pool, k) <==> PromotedIn(ls[x].pool, d) && !ReportedIn(ls[x].pool, d, k)
    {
      RunExtends(g, mode, evs, ls, a, x);
      OptimisticIn(ls[a].pool, ls[x].pool, k);
    }
    assert ReadOptimism(first, second) <==> PromotedIn(ls[b].pool, d) && !ReportedIn(ls[a].pool, d, k);
  }

  /** Over every run and any two moments: what a reader is told is true of no state between its looks if
      and only if its pool was promoted meanwhile, its key was unreported at the first look, and was
      reported in every state since in which the pool was promoted. A no is always true of the first state
      or the last, and so is every answer where the pool was promoted at the first look. */
  lemma ReaderIsMisledExactly(
    g: OperatorGroup, mode: PromotionMode, evs: seq<Event>, ls: seq<Loop>, wss: seq<seq<Write>>, p: Moment, q: Moment,
    k: Pubkey, first: PoolBinding, second: PoolView)
    returns (a: nat, b: nat)
    requires IsRun(g, mode, evs, ls) && RunWrites(evs, ls, wss) && p.Of(wss) && q.Of(wss) && p.UpTo(q)
    requires mode.Applies() && |ls[q.step + 1].pool.pools| <= TWO_32 && Reads(ls, wss, p, q, k, first, second)
    ensures (a == p.step || a == p.step + 1) && (b == q.step || b == q.step + 1) && AreOf(ls, k, first, second, a, b)
    ensures Misled(ls, k, ReadOptimism(first, second), a, b)
       <==> ReportedThenPromoted(ls, ls[a].pool.binding[k], k, a, b)
    ensures !ReadOptimism(first, second) ==> !IsOptimistic(ls[a].pool, k) || !IsOptimistic(ls[b].pool, k)
    ensures ReadOptimism(first, second) && PromotedIn(ls[a].pool, ls[a].pool.binding[k]) ==> IsOptimistic(ls[a].pool, k)
  {
    a, b := ReadsAreOf(g, mode, evs, ls, wss, p, q, k, first, second);
    MisledExactly(g, mode, evs, ls, k, first, second, a, b);
  }

  /** Neighbouring states never mislead: a promotion adds no report. */
  lemma NeighboursDoNotMislead(
    g: OperatorGroup, mode: PromotionMode, evs: seq<Event>, ls: seq<Loop>, k: Pubkey,
    first: PoolBinding, second: PoolView, a: nat, b: nat)
    requires IsRun(g, mode, evs, ls) && AreOf(ls, k, first, second, a, b) && b <= a + 1
    ensures !Misled(ls, k, ReadOptimism(first, second), a, b)
  {
    var d := ls[a].pool.binding[k];
    MisledExactly(g, mode, evs, ls, k, first, second, a, b);
    if b == a + 1 && ReportedThenPromoted(ls, d, k, a, b) {
      RunPromotesCleanly(g, mode, evs, ls, a, d);
    }
  }

  /** A reader whose two looks fall in one step is told the optimism of the state before or after it. */
  lemma ReaderIsToldEither(
    g: OperatorGroup, mode: PromotionMode, evs: seq<Event>, ls: seq<Loop>, wss: seq<seq<Write>>, p: Moment, q: Moment,
    k: Pubkey, first: PoolBinding, second: PoolView)
    requires IsRun(g, mode, evs, ls) && RunWrites(evs, ls, wss) && p.Of(wss) && q.Of(wss) && p.UpTo(q)
    requires p.step == q.step
    requires mode.Applies() && |ls[q.step + 1].pool.pools| <= TWO_32 && Reads(ls, wss, p, q, k, first, second)
    ensures var told := ReadOptimism(first, second);
      told == IsOptimistic(ls[p.step].pool, k) || told == IsOptimistic(ls[p.step + 1].pool, k)
  {
    var a, b := ReadsAreOf(g, mode, evs, ls, wss, p, q, k, first, second);
    NeighboursDoNotMislead(g, mode, evs, ls, k, first, second, a, b);
  }

  // ---------------------------------------------------------------- a run that misleads


  lemma ReportedNext(s: State, c: CollateralId, d: Demotion)
    requires s.pools.Keys == {c} && s.binding == map[d.pubkey := c] && d.collateralId == c && !c.EmptyId?
    requires s.pools[c].promotion == None && s.pools[c].reports == map[]
    ensures var t := Apply(s, Demote(d)).0;
      && Apply(s, Demote(d)).1 == Ok(true) && t.mode == s.mode
      && t.binding == s.binding && t.pools.Keys == {c} && t.pools[c].index == s.pools[c].index
      && t.pools[c].promotion == None && t.pools[c].reports == map[KeyOf(d) := d]
  {
    assert |s.pools| == |s.pools.Keys| == 1;
  }

  lemma PromotedNext(s: State, c: CollateralId, d: Demotion, p: Promotion)
    requires s.pools.Keys == {c} && s.binding == map[p.pubkey := c] && p.collateralId == c && !c.EmptyId?
    requires s.pools[c].promotion == None && s.pools[c].reports == map[KeyOf(d) := d] && p.ts <= d.ts
    ensures var t := Apply(s, Promote(p)).0;
      && Apply(s, Promote(p)).1 == Ok(true) && t.mode == s.mode
      && t.binding == s.binding && t.pools.Keys == {c} && t.pools[c].index == s.pools[c].index
      && t.pools[c].promotion == Some(p) && KeyOf(d) in t.pools[c].reports
  {
    assert |s.pools| == |s.pools.Keys| == 1;
    assert NoOlder(s.pools[c].reports, p.ts) == s.pools[c].reports;
  }

  lemma Bound(g: OperatorGroup, mode: PromotionMode, m: Membership) returns (s: State)
    requires |m.pubkeys| == 1
    ensures Apply(New(g, mode), Member(m)) == (s, Ok(true)) && s.mode == mode
    ensures s.binding == map[m.pubkeys[0] := m.collateralId] && s.pools.Keys == {m.collateralId}
    ensures var p := s.pools[m.collateralId]; p.index == 0 && p.promotion == None && p.reports == map[]
  {
    var n, keys, c := New(g, mode), m.pubkeys, m.collateralId;
    assert keys[..0] == [] && BindAll(n, keys[..0], c) == n;
    assert BindAll(n, keys, c) == Pools.Bind(n, keys[0], c).0;
    assert FirstConflict(n, keys, c) == None;
    assert keys[0] in KeySet(keys) && keys[0] !in n.binding.Keys;
    s := Apply(n, Member(m)).0;
  }

  /** A key's only pool: nothing else is bound and there is no other. */
  predicate OnePool(s: State, c: CollateralId, k: Pubkey)
  {
    s.binding == map[k := c] && s.pools.Keys == {c} && s.pools[c].index == 0
  }

  /** The update of such a state: one view, one binding. */
  ghost function UpdateOf(s: State, c: CollateralId, k: Pubkey): seq<Write>
    requires OnePool(s, c, k)
  {
    [WriteView(0, ViewOf(s, c))] + [WriteBinding(k, BindingOf(s, k))]
  }

  lemma UpdateIsOne(s: State, c: CollateralId, k: Pubkey)
    requires OnePool(s, c, k)
    ensures IsUpdate(s, [WriteView(0, ViewOf(s, c))], [WriteBinding(k, BindingOf(s, k))])
  {
  }

  ghost function Refresh(l: Loop, s: State, c: CollateralId, k: Pubkey): Loop
    requires OnePool(s, c, k)
  {
    Loop(s, PutAll(l.cache, UpdateOf(s, c, k)))
  }

  lemma RefreshIsStep(l: Loop, ev: Event, s: State, c: CollateralId, k: Pubkey)
    requires OnePool(s, c, k) && Deliver(l.pool, ev) == Some((s, Ok(true))) && s.mode.Applies()
    ensures Step(l, ev, Refresh(l, s, c, k)) && Writes(l, UpdateOf(s, c, k), Refresh(l, s, c, k))
  {
    UpdateIsOne(s, c, k);
    assert Refreshed(s, l.cache, Refresh(l, s, c, k).cache);
    assert IsWriting(s, UpdateOf(s, c, k));
  }

  lemma RefreshedCache(l: Loop, s: State, c: CollateralId, k: Pubkey)
    requires OnePool(s, c, k)
    ensures var d := Refresh(l, s, c, k).cache;
      0 in d.views && d.views[0] == ViewOf(s, c) && k in d.bindings && d.bindings[k] == BindingOf(s, k)
  {
    var v, b := WriteView(0, ViewOf(s, c)), WriteBinding(k, BindingOf(s, k));
    PutSplit(l.cache, [v], [b]);
    PutOne(l.cache, v);
    PutOne(PutAll(l.cache, [v]), b);
  }

  lemma PutOne(c: Cache, w: Write)
    ensures PutAll(c, [w]) == Put(c, w)
  {
    assert [w][..0] == [];
  }

  /** The run of three updates: with the binding of the first and the view of the third a reader is told
      what is so in no state. */
  lemma ThreeUpdates(
    g: OperatorGroup, mode: PromotionMode, e0: Event, e1: Event, e2: Event, s: State, u: State, t: State,
    c: CollateralId, k: Pubkey)
    returns (ls: seq<Loop>, wss: seq<seq<Write>>)
    requires OnePool(s, c, k) && OnePool(u, c, k) && OnePool(t, c, k)
    requires s.mode.Applies() && u.mode.Applies() && t.mode.Applies()
    requires Deliver(New(g, mode), e0) == Some((s, Ok(true)))
    requires Deliver(s, e1) == Some((u, Ok(true))) && Deliver(u, e2) == Some((t, Ok(true)))
    requires !IsOptimistic(s, k) && !IsOptimistic(u, k) && !IsOptimistic(t, k)
    requires ReadOptimism(BindingOf(s, k), ViewOf(t, c))
    ensures Misleads(g, mode, [e0, e1, e2], ls, wss, Moment(1, 0), Moment(2, 2), k)
  {
    var l0 := Loop(New(g, mode), Cache(map[], map[]));
    var l1 := Refresh(l0, s, c, k);
    var l2 := Refresh(l1, u, c, k);
    var l3 := Refresh(l2, t, c, k);
    RefreshIsStep(l0, e0, s, c, k);
    RefreshIsStep(l1, e1, u, c, k);
    RefreshIsStep(l2, e2, t, c, k);
    RefreshedCache(l0, s, c, k);
    RefreshedCache(l2, t, c, k);
    ls, wss := [l0, l1, l2, l3], [UpdateOf(s, c, k), UpdateOf(u, c, k), UpdateOf(t, c, k)];
    RunOfThree(g, mode, e0, e1, e2, l0, l1, l2, l3, wss[0], wss[1], wss[2]);
    LooksAround(l0, l1, l2, l3, wss[0], wss[1], wss[2], k, BindingOf(s, k), ViewOf(t, c));
  }

  lemma RunOfThree(
    g: OperatorGroup, mode: PromotionMode, e0: Event, e1: Event, e2: Event, l0: Loop, l1: Loop, l2: Loop, l3: Loop,
    w0: seq<Write>, w1: seq<Write>, w2: seq<Write>)
    requires l0 == Loop(New(g, mode), Cache(map[], map[])) && Step(l0, e0, l1) && Step(l1, e1, l2) && Step(l2, e2, l3)
    requires Writes(l0, w0, l1) && Writes(l1, w1, l2) && Writes(l2, w2, l3)
    ensures IsRun(g, mode, [e0, e1, e2], [l0, l1, l2, l3]) && RunWrites([e0, e1, e2], [l0, l1, l2, l3], [w0, w1, w2])
  {
  }

  lemma LooksAround(
    l0: Loop, l1: Loop, l2: Loop, l3: Loop, w0: seq<Write>, w1: seq<Write>, w2: seq<Write>, k: Pubkey,
    first: PoolBinding, second: PoolView)
    requires |w2| == 2 && l3.cache == PutAll(l2.cache, w2)
    requires k in l1.cache.bindings && l1.cache.bindings[k] == first
    requires first.pool in l3.cache.views && l3.cache.views[first.pool] == second
    ensures Moment(1, 0).Of([w0, w1, w2]) && Moment(2, 2).Of([w0, w1, w2])
    ensures Reads([l0, l1, l2, l3], [w0, w1, w2], Moment(1, 0), Moment(2, 2), k, first, second)
  {
    assert w1[..0] == [] && w2[..2] == w2;
  }

  /** A run, and two looks of which a reader of `k` is told a yes that is so in no state. */
  ghost predicate Misleads(
    g: OperatorGroup, mode: PromotionMode, evs: seq<Event>, ls: seq<Loop>, wss: seq<seq<Write>>, p: Moment, q: Moment,
    k: Pubkey)
  {
    && IsRun(g, mode, evs, ls) && RunWrites(evs, ls, wss) && p.Of(wss) && q.Of(wss) && p.UpTo(q)
    && (exists first, second :: Reads(ls, wss, p, q, k, first, second) && ReadOptimism(first, second))
    && forall x :: 0 <= x < |ls| ==> !IsOptimistic(ls[x].pool, k)
  }

  /** Messages that bind a key, report it, and promote its pool with a timestamp no newer. */
  predicate Story(m: Membership, d: Demotion, p: Promotion)
  {
    && |m.pubkeys| == 1 && !m.collateralId.EmptyId? && d.collateralId == p.collateralId == m.collateralId
    && d.pubkey == p.pubkey == m.pubkeys[0] && p.ts <= d.ts
  }

  lemma StoryStates(g: OperatorGroup, mode: PromotionMode, m: Membership, d: Demotion, p: Promotion, k: Pubkey)
    returns (s: State, u: State, t: State)
    requires Story(m, d, p) && k == m.pubkeys[0]
    ensures var c := m.collateralId;
      OnePool(s, c, k) && OnePool(u, c, k) && OnePool(t, c, k) && s.mode == u.mode == t.mode == mode
    ensures Apply(New(g, mode), Member(m)) == (s, Ok(true))
    ensures Apply(s, Demote(d)) == (u, Ok(true)) && Apply(u, Promote(p)) == (t, Ok(true))
    ensures !IsOptimistic(s, k) && !IsOptimistic(u, k) && !IsOptimistic(t, k)
    ensures ReadOptimism(BindingOf(s, k), ViewOf(t, m.collateralId))
  {
    s := Bound(g, mode, m);
    ReportedNext(s, m.collateralId, d);
    u := Apply(s, Demote(d)).0;
    PromotedNext(u, m.collateralId, d, p);
    t := Apply(u, Promote(p)).0;
    assert KeyOf(d).pubkey == k;
  }

  /** Such messages, one after the other, make a run that misleads: the report outlives the promotion, so
      the key is optimistic in no state, and a reader that finds its binding before the report and its view
      after the promotion is told that it is. */
  lemma LateLookMisleads(g: OperatorGroup, mode: PromotionMode, m: Membership, d: Demotion, pr: Promotion)
    returns (ls: seq<Loop>, wss: seq<seq<Write>>)
    requires mode.Applies() && Story(m, d, pr)
    ensures var evs := [Incoming(Members(m), None), Incoming(Demotes(d), None), Incoming(Promotes(pr), None)];
      Misleads(g, mode, evs, ls, wss, Moment(1, 0), Moment(2, 2), m.pubkeys[0])
  {
    var k := m.pubkeys[0];
    var s, u, t := StoryStates(g, mode, m, d, pr, k);
    ls, wss := ThreeUpdates(
      g, mode, Incoming(Members(m), None), Incoming(Demotes(d), None), Incoming(Promotes(pr), None), s, u, t,
      m.collateralId, k);
  }
}
