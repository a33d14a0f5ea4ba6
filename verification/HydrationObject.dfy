/** The relay's hydration cache object and the loops behind it, proved against `Hydration`. */
module HydrationObject {
  import opened Bytes
  import opened Hydration
  import opened HydrationCaches

  method HydrateTxs(k: Hashes, full: seq<Tx>, refs: seq<u64>, start: TxRun) returns (r: TxRun)
    ensures r == RunTxs(k, full, refs, start)
  {
    r := start;
    for index := 0 to |refs|
      invariant r == RunTxs(k, full, refs[..index], start)
    {
      assert refs[..index + 1][..index] == refs[..index];
      var ref := refs[index];
      if ref == NEXT_FULL_ITEM {
        if r.next >= |full| {
          r := r.(error := Some(MissingFullTx(index)));
          continue;
        }
        var tx := full[r.next];
        if |tx| < TX_KEY_SIZE {
          r := r.(error := Some(InvalidTxLength(|tx|, index)));
        } else {
          r := r.(txs := r.txs[TxKey(k, tx) := tx]);
        }
        r := r.(next := r.next + 1, out := r.out + [tx]);
      } else if ref in r.txs {
        r := r.(hits := r.hits + 1, out := r.out + [r.txs[ref]]);
      } else {
        r := r.(error := Some(UnknownTxHash(index, ref)));
      }
    }
    assert refs[..|refs|] == refs;
  }

  /** Caches the complete new items; the others leave an error. */
  method CacheNewItems(k: Hashes, blobs0: map<u64, Item>, items: seq<Item>, error0: Option<Error>)
    returns (blobs: map<u64, Item>, newKeys: seq<u64>, error: Option<Error>)
    ensures blobs == FeedBlobs(k, blobs0, items) && newKeys == NewKeys(k, items) && error == ItemError(items, error0)
  {
    blobs, newKeys, error := blobs0, [], error0;
    for index := 0 to |items|
      invariant blobs == FeedBlobs(k, blobs0, items[..index])
      invariant newKeys == NewKeys(k, items[..index]) && error == ItemError(items[..index], error0)
    {
      assert items[..index + 1][..index] == items[..index];
      var i := items[index];
      if |i.proof| != CELLS_PER_EXT_BLOB {
        error := Some(InvalidBlobProofs(index, |i.proof|));
        continue;
      }
      var key := k.blob(i.commitment);
      newKeys, blobs := newKeys + [key], blobs[key := i];
    }
    assert items[..|items|] == items;
  }

  lemma {:induction false} StopStays(blobs: map<u64, Item>, newKeys: seq<u64>, refs: seq<u64>, n: nat)
    requires n <= |refs| && RunBlobs(blobs, newKeys, refs[..n]).stop.Some?
    ensures RunBlobs(blobs, newKeys, refs) == RunBlobs(blobs, newKeys, refs[..n])
  {
    if n < |refs| {
      assert refs[..|refs| - 1][..n] == refs[..n];
      StopStays(blobs, newKeys, refs[..|refs| - 1], n);
    } else {
      assert refs[..n] == refs;
    }
  }

  /** Collects the blobs in ref order, stopping at the first that is unknown. */
  method BuildSidecar(
    blobs: map<u64, Item>, newKeys: seq<u64>, refs: seq<u64>) returns (out: Sidecar, stop: Option<Outcome>)
    ensures stop == RunBlobs(blobs, newKeys, refs).stop
    ensures stop == None ==> out == RunBlobs(blobs, newKeys, refs).out
  {
    out, stop := Sidecar([], [], []), None;
    var next: nat := 0;
    for index := 0 to |refs|
      invariant RunBlobs(blobs, newKeys, refs[..index]) == BlobRun(next, out, None)
      invariant stop == None
    {
      assert refs[..index + 1][..index] == refs[..index];
      StopHere(blobs, newKeys, refs, index);
      var key := refs[index];
      if refs[index] == NEXT_FULL_ITEM {
        if next >= |newKeys| {
          return out, Some(Failed(MissingNewBlob(index)));
        }
        key := newKeys[next];
        next := next + 1;
      }
      if key !in blobs {
        return out, Some(Failed(UnknownBlobHash(key, index)));
      }
      if |out.commitments| >= MAX_BLOB_COMMITMENTS_PER_BLOCK {
        return out, Some(Panicked);
      }
      var i := blobs[key];
      out := Sidecar(out.commitments + [i.commitment], out.proofs + i.proof, out.blobs + [i.blob]);
    }
    assert refs[..|refs|] == refs;
  }

  lemma StopHere(blobs: map<u64, Item>, newKeys: seq<u64>, refs: seq<u64>, index: nat)
    requires index < |refs|
    ensures RunBlobs(blobs, newKeys, refs[..index + 1]).stop.Some?
        ==> RunBlobs(blobs, newKeys, refs) == RunBlobs(blobs, newKeys, refs[..index + 1])
  {
    if RunBlobs(blobs, newKeys, refs[..index + 1]).stop.Some? { StopStays(blobs, newKeys, refs, index + 1); }
  }

  method CacheWithdrawals(k: Hashes, cached: map<u64, (Withdrawals, Root)>, s: Submission)
    returns (r: map<u64, (Withdrawals, Root)>)
    ensures r == FeedWithdrawals(k, cached, s)
  {
    r := cached;
    if s.withdrawalsRef == 0 && s.withdrawals != [] {
      var key := k.withdrawals(s.withdrawals);
      if key !in cached {
        r := cached[key := (s.withdrawals, k.root(s.withdrawals))];
      }
    }
  }

  method HydrateInner(k: Hashes, c: Cache, s: Submission, maxBlobs: nat) returns (c': Cache, o: Outcome)
    ensures (c', o) == Hydrate(k, c, s, maxBlobs)
  {
    var ws := CacheWithdrawals(k, c.withdrawals, s);
    var r := HydrateTxs(k, s.txs, s.txRefs, StartTxs(c, s));
    if |r.out| > MAX_TRANSACTIONS_PER_PAYLOAD {
      return Cache(r.txs, c.blobs, ws), Failed(TooManyTxs);
    }
    var blobs, newKeys, error := CacheNewItems(k, c.blobs, s.newItems, r.error);
    if |s.blobRefs| > maxBlobs {
      error := Some(TooManyBlobs(|s.blobRefs|, maxBlobs));
    }
    c' := Cache(r.txs, blobs, ws);
    if error.Some? {
      return c', Failed(error.value);
    }
    var out, stop := BuildSidecar(blobs, newKeys, s.blobRefs);
    if stop.Some? {
      return c', stop.value;
    }
    var hits := if |s.blobRefs| < |s.newItems| then 0 else |s.blobRefs| - |s.newItems|;
    o := Done(Hydrated(r.out, WithdrawalsOf(c, s), out, r.hits, hits));
  }

  method FeedInner(k: Hashes, c: Cache, s: Submission) returns (c': Cache)
    ensures c' == Feed(k, c, s)
  {
    var ws := CacheWithdrawals(k, c.withdrawals, s);
    var txs := c.txs;
    for i := 0 to |s.txs|
      invariant txs == FeedTxs(k, c.txs, s.txs[..i])
    {
      assert s.txs[..i + 1][..i] == s.txs[..i];
      if |s.txs[i]| >= TX_KEY_SIZE {
        txs := txs[TxKey(k, s.txs[i]) := s.txs[i]];
      }
    }
    assert s.txs[..|s.txs|] == s.txs;
    var blobs, _, _ := CacheNewItems(k, c.blobs, s.newItems, None);
    c' := Cache(txs, blobs, ws);
  }

  ghost predicate RootComesTrue(k: Hashes, r: Relay, s: Submission, maxBlobs: nat, root: Root)
  {
    var o := Hydration.Hydrate(k, CacheOf(r, s.builder), s, maxBlobs).1;
    o.Done? ==> k.root(o.data.withdrawals) == root && k.withdrawals(o.data.withdrawals) == s.withdrawalsRef
  }

  lemma WithdrawalsRootMeans(k: Hashes, r: Relay, s: Submission)
    ensures RelaySound(k, r) && CachedWithdrawalsRoot(r, s).Some?
      ==> forall max: nat :: RootComesTrue(k, r, s, max, CachedWithdrawalsRoot(r, s).value)
    ensures CachedWithdrawalsRoot(r, s).None? && s.withdrawalsRef != 0
      ==> forall max: nat :: Hydration.Hydrate(k, CacheOf(r, s.builder), s, max).1.Failed?
  {
    if CachedWithdrawalsRoot(r, s).Some? {
      if RelaySound(k, r) {
        forall max: nat ensures RootComesTrue(k, r, s, max, CachedWithdrawalsRoot(r, s).value) {
          RootIsHydrated(k, r, s, max, []);
        }
      }
    } else if s.withdrawalsRef != 0 {
      forall max: nat ensures Hydration.Hydrate(k, CacheOf(r, s.builder), s, max).1.Failed? {
        UnknownWithdrawalsFail(k, CacheOf(r, s.builder), s, max);
      }
    }
  }

  /** One cache per builder pubkey. */
  class HydrationCache {
    const hashes: Hashes
    var caches: map<Pubkey, Cache>

    constructor (hashes: Hashes)
      ensures this.hashes == hashes && caches == map[]
    {
      this.hashes := hashes;
      caches := map[];
    }

    method CanHydrate(s: Submission, maxBlobs: nat) returns (ok: bool)
      ensures ok == Hydration.CanHydrate(hashes, CacheOf(caches, s.builder), s, maxBlobs)
      ensures ok && maxBlobs <= MAX_BLOB_COMMITMENTS_PER_BLOCK
          ==> Hydration.Hydrate(hashes, CacheOf(caches, s.builder), s, maxBlobs).1.Done?
    {
      var c := if s.builder in caches then caches[s.builder] else EmptyCache;
      ok := Hydration.CanHydrate(hashes, c, s, maxBlobs);
      if ok && maxBlobs <= MAX_BLOB_COMMITMENTS_PER_BLOCK { CanHydrateSucceeds(hashes, c, s, maxBlobs); }
    }

    /** The root of the withdrawals the submission would hydrate to, known without hydrating it. */
    method WithdrawalsRoot(s: Submission) returns (root: Option<Root>)
      ensures root == CachedWithdrawalsRoot(caches, s)
      ensures RelaySound(hashes, caches) && root.Some?
        ==> forall max: nat :: RootComesTrue(hashes, caches, s, max, root.value)
      ensures root.None? && s.withdrawalsRef != 0
        ==> forall max: nat :: Hydration.Hydrate(hashes, CacheOf(caches, s.builder), s, max).1.Failed?
    {
      WithdrawalsRootMeans(hashes, caches, s);
      if s.withdrawalsRef == 0 || s.builder !in caches {
        return None;
      }
      var cached := caches[s.builder].withdrawals;
      root := if s.withdrawalsRef in cached then Some(cached[s.withdrawalsRef].1) else None;
    }

    method Hydrate(s: Submission, maxBlobs: nat) returns (o: Outcome)
      modifies this
      ensures caches == Step(hashes, old(caches), HydrateOp(s, maxBlobs))
      ensures o == Hydration.Hydrate(hashes, CacheOf(old(caches), s.builder), s, maxBlobs).1
      ensures RelaySound(hashes, old(caches)) ==> RelaySound(hashes, caches)
    {
      var c := if s.builder in caches then caches[s.builder] else EmptyCache;
      ghost var before := caches;
      c, o := HydrateInner(hashes, c, s, maxBlobs);
      caches := caches[s.builder := c];
      StepSound(hashes, before, HydrateOp(s, maxBlobs));
    }

    method Feed(s: Submission)
      modifies this
      ensures caches == Step(hashes, old(caches), FeedOp(s))
      ensures RelaySound(hashes, old(caches)) ==> RelaySound(hashes, caches)
    {
      var c := if s.builder in caches then caches[s.builder] else EmptyCache;
      ghost var before := caches;
      c := FeedInner(hashes, c, s);
      caches := caches[s.builder := c];
      StepSound(hashes, before, FeedOp(s));
    }

    method Clear()
      modifies this
      ensures caches == Step(hashes, old(caches), ClearOp)
      ensures RelaySound(hashes, caches)
    {
      var left := caches.Keys;
      while left != {}
        invariant left <= caches.Keys == old(caches).Keys
        invariant forall b :: b in caches && b !in left ==> caches[b] == EmptyCache
        decreases |left|
      {
        var b :| b in left;
        caches := caches[b := EmptyCache];
        left := left - {b};
      }
    }
  }

  lemma StepSound(k: Hashes, r: Relay, op: Op)
    ensures RelaySound(k, r) ==> RelaySound(k, Step(k, r, op))
  {
    if RelaySound(k, r) {
      assert Run(k, r, []) == r;
      assert [op][..0] == [];
      RunKeepsSound(k, r, [op]);
    }
  }
}
