/**
 * The derived view the submission path reads (crates/common/src/local_cache.rs:100-123, 231-282,
 * 358-367): a budget per pool, and per pubkey the pool it belongs to and whether it is reported.
 */
module LocalCaches {
  import opened Bytes
  import opened Pools

  datatype PoolBinding = PoolBinding(pool: nat, reported: bool)
  datatype PoolView = PoolView(collateralId: CollateralId, available: int, promoted: bool)
  datatype PoolStatus = PoolStatus(collateralId: CollateralId, available: int, optimistic: bool)

  datatype Cache = Cache(bindings: map<Pubkey, PoolBinding>, views: map<nat, PoolView>)

  /** One insertion into one of the two shared maps: what a concurrent reader can fall between. */
  datatype Write = WriteView(pool: nat, view: PoolView) | WriteBinding(key: Pubkey, binding: PoolBinding)

  function Put(c: Cache, w: Write): Cache
  {
    match w
    case WriteView(i, v) => c.(views := c.views[i := v])
    case WriteBinding(k, b) => c.(bindings := c.bindings[k := b])
  }

  function PutAll(c: Cache, ws: seq<Write>): Cache
  {
    if ws == [] then c else Put(PutAll(c, ws[..|ws| - 1]), ws[|ws| - 1])
  }

  function Status(c: Cache, k: Pubkey): Option<PoolStatus>
  {
    if k !in c.bindings || c.bindings[k].pool !in c.views then None
    else
      var b, v := c.bindings[k], c.views[c.bindings[k].pool];
      Some(PoolStatus(v.collateralId, v.available, v.promoted && !b.reported))
  }

  /** A builder's configuration; `rest` is what the pool state has no say in. */
  datatype BuilderInfo = BuilderInfo(collateral: int, optimistic: bool, rest: nat)

  /** The configuration as the submission path sees it: in `Follow` and `Share` the pool state is
      authoritative, and a key without a recovered pool has no collateral and no optimism. */
  function InfoOf(c: Cache, infos: map<Pubkey, BuilderInfo>, applies: bool, k: Pubkey): Option<BuilderInfo>
  {
    if k !in infos then None
    else if !applies then Some(infos[k])
    else match Status(c, k)
      case Some(status) => Some(infos[k].(collateral := status.available, optimistic := status.optimistic))
      case None => Some(infos[k].(collateral := 0, optimistic := false))
  }

  predicate Landed(c: Cache, w: Write)
  {
    match w
    case WriteView(i, v) => i in c.views && c.views[i] == v
    case WriteBinding(k, b) => k in c.bindings && c.bindings[k] == b
  }

  // ---------------------------------------------------------------- records of a state

  ghost function ViewOf(s: State, c: CollateralId): PoolView
    requires c in s.pools
  {
    PoolView(c, Available(s, c), s.pools[c].promotion.Some?)
  }

  ghost predicate ViewRecord(s: State, w: Write)
  {
    w.WriteView? && w.view.collateralId in s.pools
    && w.pool == s.pools[w.view.collateralId].index && w.view == ViewOf(s, w.view.collateralId)
  }

  ghost function BindingOf(s: State, k: Pubkey): PoolBinding
    requires k in s.binding && s.binding[k] in s.pools
  {
    PoolBinding(s.pools[s.binding[k]].index, Reported(s.pools[s.binding[k]], k))
  }

  ghost predicate BindingRecord(s: State, w: Write)
  {
    w.WriteBinding? && w.key in s.binding && s.binding[w.key] in s.pools && w.binding == BindingOf(s, w.key)
  }

  /** The budgets of all pools in some order, then the bindings of all members in some order. */
  ghost predicate IsUpdate(s: State, views: seq<Write>, bindings: seq<Write>)
  {
    && (forall w :: w in views <==> ViewRecord(s, w))
    && (forall w :: w in bindings <==> BindingRecord(s, w))
  }

  // ---------------------------------------------------------------- agreement

  ghost predicate KeyInSync(s: State, c: Cache, k: Pubkey)
    requires k in s.binding
  {
    && s.binding[k] in s.pools
    && k in c.bindings && c.bindings[k] == BindingOf(s, k)
    && c.bindings[k].pool in c.views && c.views[c.bindings[k].pool] == ViewOf(s, s.binding[k])
  }

  /** The cache shows exactly the bound keys, each with its pool's budget and status. */
  ghost predicate InSync(s: State, c: Cache)
  {
    && c.bindings.Keys == s.binding.Keys
    && forall k :: k in s.binding ==> KeyInSync(s, c, k)
  }

  /** What the submission path resolves is what the pool state says. */
  lemma StatusIsPoolState(s: State, c: Cache, k: Pubkey)
    requires InSync(s, c)
    ensures k in s.binding
      ==> Status(c, k) == Some(PoolStatus(s.binding[k], Available(s, s.binding[k]), IsOptimistic(s, k)))
    ensures k !in s.binding ==> Status(c, k) == None
  {
    if k in s.binding {
      assert KeyInSync(s, c, k);
    }
  }

  /** Two pools that both have keys cannot share an index. */
  lemma SyncNeedsIndices(s: State, c: Cache, k: Pubkey, j: Pubkey)
    requires InSync(s, c) && k in s.binding && j in s.binding && s.binding[k] != s.binding[j]
    ensures s.binding[k] in s.pools && s.binding[j] in s.pools
    ensures s.pools[s.binding[k]].index != s.pools[s.binding[j]].index
  {
    assert KeyInSync(s, c, k) && KeyInSync(s, c, j);
  }

  /** No binding refers to a pool without a view. */
  ghost predicate NoDangling(c: Cache)
  {
    forall k :: k in c.bindings ==> c.bindings[k].pool in c.views
  }

  /** Every view is filed under its own pool's index, and every binding refers to its key's pool. */
  ghost predicate Owned(s: State, c: Cache)
  {
    && (forall i :: i in c.views ==> c.views[i].collateralId in s.pools && s.pools[c.views[i].collateralId].index == i)
    && (forall k :: k in c.bindings ==>
          k in s.binding && s.binding[k] in s.pools && c.bindings[k].pool == s.pools[s.binding[k]].index)
    && NoDangling(c)
  }

  /** `t` has the pools and keys of `s`, under the same indices and in the same pools. */
  ghost predicate Extends(s: State, t: State)
  {
    && (forall k :: k in s.binding ==> k in t.binding && t.binding[k] == s.binding[k])
    && (forall c :: c in s.pools ==> c in t.pools && t.pools[c].index == s.pools[c].index)
  }

  lemma OwnedExtends(s: State, t: State, c: Cache)
    requires Owned(s, c) && Extends(s, t)
    ensures Owned(t, c)
  {
  }

  /** In a cache that is owned, the view a binding refers to is that of its key's pool. */
  lemma ViewIsOwn(s: State, c: Cache, k: Pubkey, i: nat)
    requires Owned(s, c) && IndicesDense(s.pools) && k in s.binding && s.binding[k] in s.pools
    requires i == s.pools[s.binding[k]].index && i in c.views
    ensures c.views[i].collateralId == s.binding[k]
  {
    assert IndexOwn(s.pools, s.binding[k]);
  }

  // ---------------------------------------------------------------- one update

  lemma OneViewPerIndex(s: State, v: Write, w: Write)
    requires IndicesDense(s.pools) && ViewRecord(s, v) && ViewRecord(s, w) && v.pool == w.pool
    ensures v == w
  {
    assert IndexOwn(s.pools, v.view.collateralId);
  }

  lemma {:induction false} PutViews(s: State, c: Cache, ws: seq<Write>)
    requires IndicesDense(s.pools) && forall w :: w in ws ==> ViewRecord(s, w)
    ensures PutAll(c, ws).bindings == c.bindings
    ensures forall i :: i in c.views ==> i in PutAll(c, ws).views
    ensures forall w :: w in ws ==> Landed(PutAll(c, ws), w)
  {
    if ws != [] {
      var front, last := ws[..|ws| - 1], ws[|ws| - 1];
      assert ws == front + [last];
      PutViews(s, c, front);
      assert last in ws && ViewRecord(s, last);
      forall w | w in front && w.WriteView? && w.pool == last.pool
        ensures w == last
      {
        OneViewPerIndex(s, w, last);
      }
    }
  }

  lemma {:induction false} PutBindings(s: State, c: Cache, ws: seq<Write>)
    requires forall w :: w in ws ==> BindingRecord(s, w)
    ensures PutAll(c, ws).views == c.views
    ensures forall k :: k in PutAll(c, ws).bindings ==> k in c.bindings || k in s.binding
    ensures forall k :: k in c.bindings ==> k in PutAll(c, ws).bindings
    ensures forall w :: w in ws ==> Landed(PutAll(c, ws), w)
  {
    if ws != [] {
      var front, last := ws[..|ws| - 1], ws[|ws| - 1];
      assert ws == front + [last];
      PutBindings(s, c, front);
      assert BindingRecord(s, last);
      forall w | w in front && w.WriteBinding? && w.key == last.key
        ensures w == last
      {
        assert BindingRecord(s, w);
      }
    }
  }

  lemma {:induction false} PutSplit(c: Cache, a: seq<Write>, b: seq<Write>)
    ensures PutAll(c, a + b) == PutAll(PutAll(c, a), b)
  {
    var ws := a + b;
    if b == [] {
      assert ws == a;
    } else {
      assert ws[..|ws| - 1] == a + b[..|b| - 1];
      PutSplit(c, a, b[..|b| - 1]);
    }
  }

  lemma KeyLands(s: State, c: Cache, views: seq<Write>, bindings: seq<Write>, k: Pubkey)
    requires BindingMatchesMembers(s) && IsUpdate(s, views, bindings) && k in s.binding
    requires forall w :: w in views ==> Landed(c, w)
    requires forall w :: w in bindings ==> Landed(c, w)
    ensures KeyInSync(s, c, k)
  {
    assert BoundToMember(s, k);
    var d := s.binding[k];
    var w, v := WriteBinding(k, BindingOf(s, k)), WriteView(s.pools[d].index, ViewOf(s, d));
    assert w in bindings && v in views;
  }

  /** Replacing the derived view puts the cache in sync, whatever order the records come in. */
  lemma UpdateSyncs(s: State, c: Cache, views: seq<Write>, bindings: seq<Write>)
    requires |s.pools| <= TWO_32 && Valid(s) && IsUpdate(s, views, bindings)
    requires c.bindings.Keys <= s.binding.Keys
    ensures InSync(s, PutAll(c, views + bindings))
  {
    var c1 := PutAll(c, views);
    var c2 := PutAll(c1, bindings);
    PutSplit(c, views, bindings);
    PutViews(s, c, views);
    PutBindings(s, c1, bindings);
    forall w | w in views ensures Landed(c2, w) { assert ViewRecord(s, w) && Landed(c1, w); }
    forall k | k in s.binding
      ensures KeyInSync(s, c2, k)
    {
      KeyLands(s, c2, views, bindings, k);
    }
  }

  lemma {:induction false} ViewsOnlyGrow(c: Cache, ws: seq<Write>, i: nat, j: nat)
    requires i <= j <= |ws|
    ensures PutAll(c, ws[..i]).views.Keys <= PutAll(c, ws[..j]).views.Keys
  {
    if i < j {
      assert ws[..j][..j - 1] == ws[..j - 1];
      ViewsOnlyGrow(c, ws, i, j - 1);
    }
  }

  lemma ViewBeforeBinding(s: State, c: Cache, views: seq<Write>, bindings: seq<Write>, i: nat, w: Write)
    requires IndicesDense(s.pools) && BindingMatchesMembers(s) && IsUpdate(s, views, bindings)
    requires |views| <= i <= |views + bindings| && w in bindings
    ensures w.WriteBinding? && w.binding.pool in PutAll(c, (views + bindings)[..i]).views
  {
    assert BindingRecord(s, w) && BoundToMember(s, w.key);
    var d := s.binding[w.key];
    var v := WriteView(s.pools[d].index, ViewOf(s, d));
    assert v in views;
    PutViews(s, c, views);
    assert Landed(PutAll(c, views), v);
    assert (views + bindings)[..|views|] == views;
    ViewsOnlyGrow(c, views + bindings, |views|, i);
  }

  lemma PutKeepsOwned(s: State, c: Cache, w: Write)
    requires Owned(s, c)
    requires ViewRecord(s, w) || (BindingRecord(s, w) && w.binding.pool in c.views)
    ensures Owned(s, Put(c, w))
  {
  }

  /** At every moment of an update the cache is owned: no binding is ever without its view. */
  lemma {:induction false} UpdateKeepsOwned(s: State, c: Cache, views: seq<Write>, bindings: seq<Write>, i: nat)
    requires IndicesDense(s.pools) && BindingMatchesMembers(s) && IsUpdate(s, views, bindings)
    requires Owned(s, c) && i <= |views + bindings|
    ensures Owned(s, PutAll(c, (views + bindings)[..i]))
  {
    var ws := views + bindings;
    if i > 0 {
      UpdateKeepsOwned(s, c, views, bindings, i - 1);
      assert ws[..i][..i - 1] == ws[..i - 1];
      var w := ws[i - 1];
      if i > |views| {
        assert w in bindings && BindingRecord(s, w);
        ViewBeforeBinding(s, c, views, bindings, i - 1, w);
      } else {
        assert w in views && ViewRecord(s, w);
      }
      PutKeepsOwned(s, PutAll(c, ws[..i - 1]), w);
    }
  }

  // ---------------------------------------------------------------- what a reader is told

  /** The optimism a reader computes from a binding and a view read at different moments. */
  predicate ReadOptimism(b: PoolBinding, v: PoolView) { v.promoted && !b.reported }

  /** During an update to `t` a key's binding is the one it had, or the new one, and then all views are in. */
  lemma {:induction false} BindingDuring(t: State, c: Cache, views: seq<Write>, bindings: seq<Write>, i: nat, k: Pubkey)
    requires IsUpdate(t, views, bindings) && i <= |views + bindings| && k in PutAll(c, (views + bindings)[..i]).bindings
    ensures var b := PutAll(c, (views + bindings)[..i]).bindings[k];
      || (k in c.bindings && b == c.bindings[k])
      || (i > |views| && k in t.binding && t.binding[k] in t.pools && b == BindingOf(t, k))
  {
    var ws := views + bindings;
    if i > 0 {
      assert ws[..i][..i - 1] == ws[..i - 1];
      var w := ws[i - 1];
      assert i > |views| ==> w in bindings && BindingRecord(t, w);
      assert i <= |views| ==> w in views && ViewRecord(t, w);
      if !(w.WriteBinding? && w.key == k) { BindingDuring(t, c, views, bindings, i - 1, k); }
    }
  }

  /** During an update the view under a pool's index is the one that was there, or the new one; once all
      views are in it is the new one. */
  lemma ViewDuring(t: State, c: Cache, views: seq<Write>, bindings: seq<Write>, j: nat, d: CollateralId)
    requires IndicesDense(t.pools) && IsUpdate(t, views, bindings) && j <= |views + bindings| && d in t.pools
    requires t.pools[d].index in PutAll(c, (views + bindings)[..j]).views
    ensures var i, v := t.pools[d].index, PutAll(c, (views + bindings)[..j]).views[t.pools[d].index];
      v == ViewOf(t, d) || (i in c.views && v == c.views[i] && j < |views|)
  {
    var ws, i := views + bindings, t.pools[d].index;
    var own := WriteView(i, ViewOf(t, d));
    assert own in views;
    if j >= |views| {
      assert ws[..j] == views + bindings[..j - |views|];
      PutSplit(c, views, bindings[..j - |views|]);
      PutViews(t, c, views);
      assert Landed(PutAll(c, views), own);
      forall w | w in bindings[..j - |views|] ensures BindingRecord(t, w) { assert w in bindings; }
      PutBindings(t, PutAll(c, views), bindings[..j - |views|]);
    } else {
      assert ws[..j] == views[..j];
      ViewOfPrefix(t, c, views[..j], d);
    }
  }

  lemma {:induction false} ViewOfPrefix(t: State, c: Cache, ws: seq<Write>, d: CollateralId)
    requires IndicesDense(t.pools) && d in t.pools && (forall w :: w in ws ==> ViewRecord(t, w))
    requires t.pools[d].index in PutAll(c, ws).views
    ensures var i, v := t.pools[d].index, PutAll(c, ws).views[t.pools[d].index];
      v == ViewOf(t, d) || (i in c.views && v == c.views[i])
  {
    if ws != [] {
      var w := ws[|ws| - 1];
      assert w in ws && ViewRecord(t, w);
      if w.pool == t.pools[d].index {
        OneViewPerIndex(t, w, WriteView(t.pools[d].index, ViewOf(t, d)));
      } else {
        ViewOfPrefix(t, c, ws[..|ws| - 1], d);
      }
    }
  }

  /** From `s` to `t` the pool stays promoted, and if it was promoted just now it gained no report. */
  ghost predicate PromotesCleanly(s: State, t: State, d: CollateralId)
  {
    d in s.pools ==>
      && d in t.pools
      && (s.pools[d].promotion.Some? ==> t.pools[d].promotion.Some?)
      && (s.pools[d].promotion.None? && t.pools[d].promotion.Some? ==>
            t.pools[d].reports.Keys <= s.pools[d].reports.Keys)
  }

  // ---------------------------------------------------------------- the shared maps

  class LocalCache {
    var poolBinding: map<Pubkey, PoolBinding>
    var poolView: map<nat, PoolView>

    ghost function Model(): Cache
      reads this
    {
      Cache(poolBinding, poolView)
    }

    constructor ()
      ensures Model() == Cache(map[], map[])
    {
      poolBinding, poolView := map[], map[];
    }

    /** Views first, then bindings; nothing is removed. */
    method UpdatePoolState(views: seq<(nat, PoolView)>, bindings: seq<(Pubkey, PoolBinding)>)
      modifies this
      ensures Model() == PutAll(old(Model()), ViewWrites(views) + BindingWrites(bindings))
    {
      ghost var vs, bs := ViewWrites(views), BindingWrites(bindings);
      for i := 0 to |views|
        invariant Model() == PutAll(old(Model()), vs[..i])
      {
        assert vs[..i + 1][..i] == vs[..i];
        poolView := poolView[views[i].0 := views[i].1];
      }
      assert vs[..|vs|] == vs;
      for i := 0 to |bindings|
        invariant Model() == PutAll(PutAll(old(Model()), vs), bs[..i])
      {
        assert bs[..i + 1][..i] == bs[..i];
        poolBinding := poolBinding[bindings[i].0 := bindings[i].1];
      }
      assert bs[..|bs|] == bs;
      PutSplit(old(Model()), vs, bs);
    }

    /** The answer is that of whichever pool state the maps are in sync with. */
    method Resolve(k: Pubkey) returns (r: Option<PoolStatus>)
      ensures r == Status(Model(), k)
      ensures forall s :: InSync(s, Model()) ==>
        r == if k in s.binding
             then Some(PoolStatus(s.binding[k], Available(s, s.binding[k]), IsOptimistic(s, k))) else None
    {
      forall s | InSync(s, Model()) { StatusIsPoolState(s, Model(), k); }
      if k !in poolBinding { return None; }
      var binding := poolBinding[k];
      if binding.pool !in poolView { return None; }
      var view := poolView[binding.pool];
      r := Some(PoolStatus(view.collateralId, view.available, view.promoted && !binding.reported));
    }

    method GetBuilderInfo(infos: map<Pubkey, BuilderInfo>, applies: bool, k: Pubkey) returns (r: Option<BuilderInfo>)
      ensures r == InfoOf(Model(), infos, applies, k)
      ensures r.Some? <==> k in infos
      ensures r.Some? && !applies ==> r.value == infos[k]
      ensures r.Some? && applies ==> forall s :: InSync(s, Model()) ==>
        r.value == infos[k].(collateral := if k in s.binding then Available(s, s.binding[k]) else 0,
                             optimistic := IsOptimistic(s, k))
    {
      if k in infos {
        forall s | InSync(s, Model()) { InfoIsPoolState(s, Model(), infos, k); }
      }
      if k !in infos { return None; }
      var info := infos[k];
      if !applies { return Some(info); }
      if k in poolBinding && poolBinding[k].pool in poolView {
        var view := poolView[poolBinding[k].pool];
        info := info.(collateral := view.available, optimistic := view.promoted && !poolBinding[k].reported);
      } else {
        info := info.(collateral := 0, optimistic := false);
      }
      r := Some(info);
    }
  }

  /** What the submission path is told of a configured builder is its pool's state. */
  lemma InfoIsPoolState(s: State, c: Cache, infos: map<Pubkey, BuilderInfo>, k: Pubkey)
    requires InSync(s, c) && k in infos
    ensures InfoOf(c, infos, true, k) == Some(infos[k].(
              collateral := if k in s.binding then Available(s, s.binding[k]) else 0, optimistic := IsOptimistic(s, k)))
  {
    StatusIsPoolState(s, c, k);
  }

  function ViewWrites(views: seq<(nat, PoolView)>): seq<Write>
  {
    seq(|views|, i requires 0 <= i < |views| => WriteView(views[i].0, views[i].1))
  }

  function BindingWrites(bindings: seq<(Pubkey, PoolBinding)>): seq<Write>
  {
    seq(|bindings|, i requires 0 <= i < |bindings| => WriteBinding(bindings[i].0, bindings[i].1))
  }
}
