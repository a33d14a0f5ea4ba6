/**
 * What the hydration caches keep: hydrating fills them exactly as feeding does, a submission that
 * passes the precheck hydrates, and both facts survive whatever any builder submits next.
 */
module HydrationCaches {
  import opened Bytes
  import opened Hydration

  // ---------------------------------------------------------------- hydrating feeds the cache

  /** How many of the full transactions the refs consume. */
  function Taken(s: Submission): nat
  {
    if NextFullRefs(s.txRefs) < |s.txs| then NextFullRefs(s.txRefs) else |s.txs|
  }

  /** The list of hydrated transactions does not fit a payload; only then are the blobs skipped. */
  predicate Overfull(k: Hashes, c: Cache, s: Submission)
  {
    |RunTxs(k, s.txs, s.txRefs, StartTxs(c, s)).out| > MAX_TRANSACTIONS_PER_PAYLOAD
  }

  /** The part of a submission that hydrating it leaves in the cache. */
  function Reached(k: Hashes, c: Cache, s: Submission): Submission
  {
    s.(txs := s.txs[..Taken(s)], newItems := if Overfull(k, c, s) then [] else s.newItems)
  }

  lemma {:induction false} RunTxsFeeds(k: Hashes, full: seq<Tx>, refs: seq<u64>, start: TxRun)
    requires start.next == 0
    ensures RunTxs(k, full, refs, start).next == if NextFullRefs(refs) < |full| then NextFullRefs(refs) else |full|
    ensures RunTxs(k, full, refs, start).txs == FeedTxs(k, start.txs, full[..RunTxs(k, full, refs, start).next])
  {
    if refs != [] {
      var before := refs[..|refs| - 1];
      RunTxsFeeds(k, full, before, start);
      var r := RunTxs(k, full, before, start);
      if refs[|refs| - 1] == NEXT_FULL_ITEM && r.next < |full| {
        var more := full[..r.next + 1];
        assert more[..|more| - 1] == full[..r.next] && more[|more| - 1] == full[r.next];
      }
    }
  }

  lemma {:induction false} RunTxsLength(k: Hashes, full: seq<Tx>, refs: seq<u64>, start: TxRun)
    ensures |RunTxs(k, full, refs, start).out| <= |start.out| + |refs|
  {
    if refs != [] { RunTxsLength(k, full, refs[..|refs| - 1], start); }
  }

  /** On every submission and every outcome, hydrating leaves the cache that feeding the reached
      part would leave. */
  lemma HydrateFeeds(k: Hashes, c: Cache, s: Submission, maxBlobs: nat)
    ensures Hydrate(k, c, s, maxBlobs).0 == Feed(k, c, Reached(k, c, s))
    ensures Overfull(k, c, s) ==> |s.txRefs| > MAX_TRANSACTIONS_PER_PAYLOAD
  {
    RunTxsFeeds(k, s.txs, s.txRefs, StartTxs(c, s));
    RunTxsLength(k, s.txs, s.txRefs, StartTxs(c, s));
  }

  /** With a ref for every full transaction and no more refs than a payload holds, that is feeding
      the submission itself. */
  lemma HydrateIsFeed(k: Hashes, c: Cache, s: Submission, maxBlobs: nat)
    requires |s.txs| <= NextFullRefs(s.txRefs)
    requires |s.txRefs| <= MAX_TRANSACTIONS_PER_PAYLOAD
    ensures Hydrate(k, c, s, maxBlobs).0 == Feed(k, c, s)
  {
    HydrateFeeds(k, c, s, maxBlobs);
    assert s.txs[..|s.txs|] == s.txs;
  }

  // ---------------------------------------------------------------- the precheck is enough

  lemma {:induction false} FeedTxsGrows(k: Hashes, txs: map<u64, Tx>, full: seq<Tx>)
    ensures txs.Keys <= FeedTxs(k, txs, full).Keys
  {
    if full != [] { FeedTxsGrows(k, txs, full[..|full| - 1]); }
  }

  lemma {:induction false} TxsResolve(k: Hashes, full: seq<Tx>, refs: seq<u64>, start: TxRun)
    requires start.next == 0 && start.error == None
    requires forall i :: 0 <= i < |full| ==> |full[i]| >= TX_KEY_SIZE
    requires NextFullRefs(refs) <= |full|
    requires forall i :: 0 <= i < |refs| ==> refs[i] == NEXT_FULL_ITEM || refs[i] in start.txs
    ensures RunTxs(k, full, refs, start).error == None
    ensures |RunTxs(k, full, refs, start).out| == |start.out| + |refs|
    ensures RunTxs(k, full, refs, start).hits + NextFullRefs(refs) == start.hits + |refs|
  {
    if refs != [] {
      var before := refs[..|refs| - 1];
      TxsResolve(k, full, before, start);
      RunTxsFeeds(k, full, before, start);
      FeedTxsGrows(k, start.txs, full[..RunTxs(k, full, before, start).next]);
      assert refs[|refs| - 1] == NEXT_FULL_ITEM || refs[|refs| - 1] in start.txs;
    }
  }

  predicate AllCells(items: seq<Item>)
  {
    forall i :: 0 <= i < |items| ==> HasAllCells(items[i])
  }

  lemma {:induction false} NoItemError(items: seq<Item>, before: Option<Error>)
    ensures AllCells(items) ==> ItemError(items, before) == before
    ensures ItemError(items, before) == None ==> AllCells(items) && before == None
  {
    if items != [] {
      NoItemError(items[..|items| - 1], before);
      assert items == items[..|items| - 1] + [items[|items| - 1]];
    }
  }

  function KeysOf(k: Hashes, items: seq<Item>): seq<u64>
  {
    seq<u64>(|items|, i requires 0 <= i < |items| => k.blob(items[i].commitment))
  }

  lemma {:induction false} NewKeysAll(k: Hashes, items: seq<Item>)
    requires AllCells(items)
    ensures NewKeys(k, items) == KeysOf(k, items)
  {
    if items != [] {
      NewKeysAll(k, items[..|items| - 1]);
    }
  }

  predicate CellsAt(blobs: map<u64, Item>, key: u64)
  {
    key in blobs && HasAllCells(blobs[key])
  }

  lemma {:induction false} FeedBlobsCells(k: Hashes, blobs: map<u64, Item>, items: seq<Item>, key: u64)
    ensures CellsAt(blobs, key) ==> CellsAt(FeedBlobs(k, blobs, items), key)
    ensures AllCells(items) && IsNew(k, items, key) ==> CellsAt(FeedBlobs(k, blobs, items), key)
  {
    if items != [] {
      var before, last := items[..|items| - 1], items[|items| - 1];
      FeedBlobsCells(k, blobs, before, key);
      if AllCells(items) && IsNew(k, items, key) {
        var i :| 0 <= i < |items| && k.blob(items[i].commitment) == key;
        assert HasAllCells(last);
        if i < |before| { assert k.blob(before[i].commitment) == key; }
      }
    }
  }

  lemma {:induction false} BlobsResolve(blobs: map<u64, Item>, newKeys: seq<u64>, refs: seq<u64>)
    requires |refs| <= MAX_BLOB_COMMITMENTS_PER_BLOCK
    requires NextFullRefs(refs) <= |newKeys|
    requires forall i :: 0 <= i < |newKeys| ==> CellsAt(blobs, newKeys[i])
    requires forall i :: 0 <= i < |refs| ==> refs[i] == NEXT_FULL_ITEM || CellsAt(blobs, refs[i])
    ensures RunBlobs(blobs, newKeys, refs).stop == None
    ensures RunBlobs(blobs, newKeys, refs).next == NextFullRefs(refs)
    ensures OneEach(RunBlobs(blobs, newKeys, refs).out, |refs|)
  {
    if refs != [] {
      BlobsResolve(blobs, newKeys, refs[..|refs| - 1]);
      assert refs[|refs| - 1] == NEXT_FULL_ITEM || CellsAt(blobs, refs[|refs| - 1]);
    }
  }

  /** A bundle of `n` blobs, each with all its cell proofs. */
  predicate OneEach(s: Sidecar, n: nat)
  {
    |s.commitments| == n && |s.blobs| == n && |s.proofs| == CELLS_PER_EXT_BLOB * n
  }

  lemma BlobRefsCells(k: Hashes, c: Cache, s: Submission, maxBlobs: nat, blobs: map<u64, Item>, newKeys: seq<u64>)
    requires CanHydrate(k, c, s, maxBlobs)
    requires blobs == FeedBlobs(k, c.blobs, s.newItems) && newKeys == KeysOf(k, s.newItems)
    ensures forall i :: 0 <= i < |newKeys| ==> CellsAt(blobs, newKeys[i])
    ensures forall i :: 0 <= i < |s.blobRefs| ==> s.blobRefs[i] == NEXT_FULL_ITEM || CellsAt(blobs, s.blobRefs[i])
  {
    forall i | 0 <= i < |newKeys| ensures CellsAt(blobs, newKeys[i]) {
      assert k.blob(s.newItems[i].commitment) == newKeys[i];
      FeedBlobsCells(k, c.blobs, s.newItems, newKeys[i]);
    }
    forall i | 0 <= i < |s.blobRefs| && s.blobRefs[i] != NEXT_FULL_ITEM ensures CellsAt(blobs, s.blobRefs[i]) {
      assert BlobKnown(k, c, s.newItems, s.blobRefs[i]);
      FeedBlobsCells(k, c.blobs, s.newItems, s.blobRefs[i]);
    }
  }

  /** A submission that passes the precheck hydrates, without an error and without a panic, to one
      transaction per ref and one blob with all its cell proofs per blob ref; a ref that takes no full
      transaction is a cache hit. */
  lemma CanHydrateSucceeds(k: Hashes, c: Cache, s: Submission, maxBlobs: nat)
    requires CanHydrate(k, c, s, maxBlobs)
    requires maxBlobs <= MAX_BLOB_COMMITMENTS_PER_BLOCK
    ensures Hydrate(k, c, s, maxBlobs).1.Done?
    ensures |Hydrate(k, c, s, maxBlobs).1.data.txs| == |s.txRefs|
    ensures Hydrate(k, c, s, maxBlobs).1.data.txHits + NextFullRefs(s.txRefs) == |s.txRefs|
    ensures OneEach(Hydrate(k, c, s, maxBlobs).1.data.sidecar, |s.blobRefs|)
  {
    TxsResolve(k, s.txs, s.txRefs, StartTxs(c, s));
    var r := RunTxs(k, s.txs, s.txRefs, StartTxs(c, s));
    NoItemError(s.newItems, r.error);
    NewKeysAll(k, s.newItems);
    var blobs := FeedBlobs(k, c.blobs, s.newItems);
    BlobRefsCells(k, c, s, maxBlobs, blobs, KeysOf(k, s.newItems));
    BlobsResolve(blobs, KeysOf(k, s.newItems), s.blobRefs);
  }

  // ---------------------------------------------------------------- what every step keeps

  /** Everything cached sits under its own key: withdrawals with their own root, blobs with all their
      cell proofs. */
  ghost predicate Sound(k: Hashes, c: Cache)
  {
    && (forall key :: key in c.withdrawals ==> OwnRoot(k, key, c.withdrawals[key]))
    && TxsOwn(k, c.txs)
    && BlobsOwn(k, c.blobs)
  }

  ghost predicate TxsOwn(k: Hashes, txs: map<u64, Tx>)
  {
    forall key :: key in txs ==> |txs[key]| >= TX_KEY_SIZE && TxKey(k, txs[key]) == key
  }

  ghost predicate BlobsOwn(k: Hashes, blobs: map<u64, Item>)
  {
    forall key :: key in blobs ==> HasAllCells(blobs[key]) && k.blob(blobs[key].commitment) == key
  }

  predicate OwnRoot(k: Hashes, key: u64, entry: (Withdrawals, Root))
  {
    k.withdrawals(entry.0) == key && k.root(entry.0) == entry.1
  }

  /** Nothing in the older cache is lost in the newer one. */
  ghost predicate Extends(before: Cache, after: Cache)
  {
    && before.txs.Keys <= after.txs.Keys
    && (forall key :: CellsAt(before.blobs, key) ==> CellsAt(after.blobs, key))
    && (forall key :: key in before.withdrawals ==>
          key in after.withdrawals && after.withdrawals[key] == before.withdrawals[key])
  }

  lemma {:induction false} FeedBlobsSound(k: Hashes, blobs: map<u64, Item>, items: seq<Item>)
    requires BlobsOwn(k, blobs)
    ensures BlobsOwn(k, FeedBlobs(k, blobs, items))
  {
    if items != [] { FeedBlobsSound(k, blobs, items[..|items| - 1]); }
  }

  lemma {:induction false} FeedTxsSound(k: Hashes, txs: map<u64, Tx>, full: seq<Tx>)
    requires TxsOwn(k, txs)
    ensures TxsOwn(k, FeedTxs(k, txs, full))
  {
    if full != [] { FeedTxsSound(k, txs, full[..|full| - 1]); }
  }

  lemma FeedKeeps(k: Hashes, c: Cache, s: Submission)
    ensures Extends(c, Feed(k, c, s))
    ensures Sound(k, c) ==> Sound(k, Feed(k, c, s))
  {
    FeedTxsGrows(k, c.txs, s.txs);
    forall key | CellsAt(c.blobs, key) ensures CellsAt(FeedBlobs(k, c.blobs, s.newItems), key) {
      FeedBlobsCells(k, c.blobs, s.newItems, key);
    }
    if Sound(k, c) {
      FeedBlobsSound(k, c.blobs, s.newItems);
      FeedTxsSound(k, c.txs, s.txs);
    }
  }

  lemma ExtendsKeepsCanHydrate(k: Hashes, c: Cache, c': Cache, s: Submission, maxBlobs: nat)
    requires Extends(c, c') && CanHydrate(k, c, s, maxBlobs)
    ensures CanHydrate(k, c', s, maxBlobs)
  {
    forall i | 0 <= i < |s.blobRefs| ensures BlobKnown(k, c', s.newItems, s.blobRefs[i]) {
      assert BlobKnown(k, c, s.newItems, s.blobRefs[i]);
      if CellsAt(c.blobs, s.blobRefs[i]) { assert CellsAt(c'.blobs, s.blobRefs[i]); }
    }
  }

  // ---------------------------------------------------------------- one cache per builder

  type Relay = map<Pubkey, Cache>

  datatype Op = FeedOp(s: Submission) | HydrateOp(s: Submission, maxBlobs: nat) | ClearOp

  function CacheOf(r: Relay, builder: Pubkey): Cache
  {
    if builder in r then r[builder] else EmptyCache
  }

  function Step(k: Hashes, r: Relay, op: Op): Relay
  {
    match op
    case FeedOp(s) => r[s.builder := Feed(k, CacheOf(r, s.builder), s)]
    case HydrateOp(s, maxBlobs) => r[s.builder := Hydrate(k, CacheOf(r, s.builder), s, maxBlobs).0]
    case ClearOp => map builder | builder in r :: EmptyCache
  }

  function Run(k: Hashes, r: Relay, ops: seq<Op>): Relay
  {
    if ops == [] then r else Step(k, Run(k, r, ops[..|ops| - 1]), ops[|ops| - 1])
  }

  predicate NoClear(ops: seq<Op>) { forall i :: 0 <= i < |ops| ==> !ops[i].ClearOp? }

  ghost predicate RelaySound(k: Hashes, r: Relay)
  {
    forall builder :: builder in r ==> Sound(k, r[builder])
  }

  lemma StepKeeps(k: Hashes, r: Relay, op: Op, builder: Pubkey)
    ensures !op.ClearOp? ==> Extends(CacheOf(r, builder), CacheOf(Step(k, r, op), builder))
    ensures RelaySound(k, r) ==> Sound(k, CacheOf(Step(k, r, op), builder))
  {
    if !op.ClearOp? && op.s.builder == builder {
      var c := CacheOf(r, builder);
      assert RelaySound(k, r) ==> Sound(k, c);
      match op
      case FeedOp(s) => FeedKeeps(k, c, s);
      case HydrateOp(s, maxBlobs) =>
        HydrateFeeds(k, c, s, maxBlobs);
        FeedKeeps(k, c, Reached(k, c, s));
    }
  }

  /** Every run from empty caches keeps every builder's cache sound. */
  lemma {:induction false} RunKeepsSound(k: Hashes, r: Relay, ops: seq<Op>)
    requires RelaySound(k, r)
    ensures RelaySound(k, Run(k, r, ops))
  {
    if ops != [] {
      var before := Run(k, r, ops[..|ops| - 1]);
      RunKeepsSound(k, r, ops[..|ops| - 1]);
      var after := Step(k, before, ops[|ops| - 1]);
      forall builder | builder in after ensures Sound(k, after[builder]) {
        StepKeeps(k, before, ops[|ops| - 1], builder);
      }
    }
  }

  lemma {:induction false} RunExtends(k: Hashes, r: Relay, ops: seq<Op>, builder: Pubkey)
    requires NoClear(ops)
    ensures Extends(CacheOf(r, builder), CacheOf(Run(k, r, ops), builder))
  {
    if ops != [] {
      RunExtends(k, r, ops[..|ops| - 1], builder);
      StepKeeps(k, Run(k, r, ops[..|ops| - 1]), ops[|ops| - 1], builder);
    }
  }

  /** A submission that passed the precheck still hydrates after any submissions of any builders,
      as long as the caches are not cleared. */
  lemma PrecheckHolds(k: Hashes, r: Relay, s: Submission, maxBlobs: nat, ops: seq<Op>)
    requires CanHydrate(k, CacheOf(r, s.builder), s, maxBlobs)
    requires NoClear(ops) && maxBlobs <= MAX_BLOB_COMMITMENTS_PER_BLOCK
    ensures CanHydrate(k, CacheOf(Run(k, r, ops), s.builder), s, maxBlobs)
    ensures Hydrate(k, CacheOf(Run(k, r, ops), s.builder), s, maxBlobs).1.Done?
    ensures OneEach(Hydrate(k, CacheOf(Run(k, r, ops), s.builder), s, maxBlobs).1.data.sidecar, |s.blobRefs|)
  {
    RunExtends(k, r, ops, s.builder);
    var c := CacheOf(Run(k, r, ops), s.builder);
    ExtendsKeepsCanHydrate(k, CacheOf(r, s.builder), c, s, maxBlobs);
    CanHydrateSucceeds(k, c, s, maxBlobs);
  }

  /** Root of the cached withdrawals that a keyed submission refers to. */
  function CachedWithdrawalsRoot(r: Relay, s: Submission): Option<Root>
  {
    if s.withdrawalsRef != 0 && s.withdrawalsRef in CacheOf(r, s.builder).withdrawals
    then Some(CacheOf(r, s.builder).withdrawals[s.withdrawalsRef].1)
    else None
  }

  lemma {:induction false} StopIsNotDone(blobs: map<u64, Item>, newKeys: seq<u64>, refs: seq<u64>)
    ensures RunBlobs(blobs, newKeys, refs).stop.Some? ==> !RunBlobs(blobs, newKeys, refs).stop.value.Done?
  {
    if refs != [] { StopIsNotDone(blobs, newKeys, refs[..|refs| - 1]); }
  }

  lemma DoneHasWithdrawals(k: Hashes, c: Cache, s: Submission, maxBlobs: nat)
    ensures Hydrate(k, c, s, maxBlobs).1.Done? ==> Hydrate(k, c, s, maxBlobs).1.data.withdrawals == WithdrawalsOf(c, s)
  {
    StopIsNotDone(FeedBlobs(k, c.blobs, s.newItems), NewKeys(k, s.newItems), s.blobRefs);
  }

  lemma {:induction false} ErrorStays(k: Hashes, full: seq<Tx>, refs: seq<u64>, start: TxRun)
    ensures start.error.Some? ==> RunTxs(k, full, refs, start).error.Some?
  {
    if refs != [] { ErrorStays(k, full, refs[..|refs| - 1], start); }
  }

  /** A keyed list of withdrawals that is not cached fails the hydration. */
  lemma UnknownWithdrawalsFail(k: Hashes, c: Cache, s: Submission, maxBlobs: nat)
    requires s.withdrawalsRef != 0 && s.withdrawalsRef !in c.withdrawals
    ensures Hydrate(k, c, s, maxBlobs).1.Failed?
  {
    ErrorStays(k, s.txs, s.txRefs, StartTxs(c, s));
    NoItemError(s.newItems, RunTxs(k, s.txs, s.txRefs, StartTxs(c, s)).error);
  }

  /** The root looked up before hydration is the root of the withdrawals that hydration later puts
      in the payload, whatever was submitted in between. */
  lemma RootIsHydrated(k: Hashes, r: Relay, s: Submission, maxBlobs: nat, ops: seq<Op>)
    requires RelaySound(k, r)
    requires NoClear(ops)
    requires CachedWithdrawalsRoot(r, s).Some?
    ensures var o := Hydrate(k, CacheOf(Run(k, r, ops), s.builder), s, maxBlobs).1;
            o.Done? ==> k.root(o.data.withdrawals) == CachedWithdrawalsRoot(r, s).value
    ensures var o := Hydrate(k, CacheOf(Run(k, r, ops), s.builder), s, maxBlobs).1;
            o.Done? ==> k.withdrawals(o.data.withdrawals) == s.withdrawalsRef
  {
    RunExtends(k, r, ops, s.builder);
    var c := CacheOf(r, s.builder);
    assert OwnRoot(k, s.withdrawalsRef, c.withdrawals[s.withdrawalsRef]);
    var c' := CacheOf(Run(k, r, ops), s.builder);
    DoneHasWithdrawals(k, c', s, maxBlobs);
    assert WithdrawalsOf(c', s) == c.withdrawals[s.withdrawalsRef].0;
  }
}
