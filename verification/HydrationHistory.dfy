/**
 * Round trips over runs: when everything a builder sends by key was earlier sent in full, and nothing
 * it sent shares a key with it, the relay hydrates to the builder's block, in both wire shapes.
 */
module HydrationHistory {
  import opened Bytes
  import opened Hydration
  import opened HydrationCaches
  import opened HydrationRoundTrip
  import opened HydrationV1

  predicate IsOf(op: Op, builder: Pubkey) { !op.ClearOp? && op.s.builder == builder }

  /** The part of a submission that reaches its builder's cache `c`. */
  function Part(k: Hashes, c: Cache, op: Op): Submission
    requires !op.ClearOp?
  {
    if op.FeedOp? then op.s else Reached(k, c, op.s)
  }

  lemma StepFeeds(k: Hashes, r: Relay, op: Op, builder: Pubkey)
    requires !op.ClearOp?
    ensures CacheOf(Step(k, r, op), builder)
         == var c := CacheOf(r, builder); if op.s.builder == builder then Feed(k, c, Part(k, c, op)) else c
  {
    if op.HydrateOp? { HydrateFeeds(k, CacheOf(r, op.s.builder), op.s, op.maxBlobs); }
  }

  lemma PartIsSent(k: Hashes, c: Cache, op: Op)
    requires !op.ClearOp?
    ensures forall t :: t in Part(k, c, op).txs ==> t in op.s.txs
    ensures forall i :: i in Part(k, c, op).newItems ==> i in op.s.newItems
    ensures Part(k, c, op).withdrawals == op.s.withdrawals && Part(k, c, op).withdrawalsRef == op.s.withdrawalsRef
  {
  }

  // ---------------------------------------------------------------- transactions

  predicate TxAt(k: Hashes, m: map<u64, Tx>, tx: Tx)
    requires |tx| >= TX_KEY_SIZE
  {
    TxKey(k, tx) in m && m[TxKey(k, tx)] == tx
  }

  ghost predicate NoTxClash(k: Hashes, full: seq<Tx>, tx: Tx)
  {
    forall t :: t in full ==> !TxClash(k, t, tx)
  }

  lemma {:induction false} FeedTxsHolds(k: Hashes, m: map<u64, Tx>, full: seq<Tx>, tx: Tx)
    requires |tx| >= TX_KEY_SIZE && NoTxClash(k, full, tx) && (TxAt(k, m, tx) || tx in full)
    ensures TxAt(k, FeedTxs(k, m, full), tx)
  {
    if full != [] {
      var n := |full| - 1;
      assert full == full[..n] + [full[n]] && !TxClash(k, full[n], tx);
      if full[n] != tx { FeedTxsHolds(k, m, full[..n], tx); }
    }
  }

  /** Step `i` put `tx` into the builder's cache. */
  ghost predicate TxReachedAt(k: Hashes, r: Relay, ops: seq<Op>, builder: Pubkey, tx: Tx, i: nat)
    requires i < |ops|
  {
    IsOf(ops[i], builder) && tx in Part(k, CacheOf(Run(k, r, ops[..i]), builder), ops[i]).txs
  }

  ghost predicate TxSent(k: Hashes, r: Relay, ops: seq<Op>, builder: Pubkey, tx: Tx)
  {
    exists i :: 0 <= i < |ops| && TxReachedAt(k, r, ops, builder, tx, i)
  }

  ghost predicate TxUncontested(k: Hashes, ops: seq<Op>, builder: Pubkey, tx: Tx)
  {
    forall i :: 0 <= i < |ops| && IsOf(ops[i], builder) ==> NoTxClash(k, ops[i].s.txs, tx)
  }

  lemma TxStepHolds(k: Hashes, r: Relay, op: Op, builder: Pubkey, tx: Tx)
    requires !op.ClearOp? && |tx| >= TX_KEY_SIZE && (IsOf(op, builder) ==> NoTxClash(k, op.s.txs, tx))
    requires TxAt(k, CacheOf(r, builder).txs, tx) || (IsOf(op, builder) && tx in Part(k, CacheOf(r, builder), op).txs)
    ensures TxAt(k, CacheOf(Step(k, r, op), builder).txs, tx)
  {
    StepFeeds(k, r, op, builder);
    PartIsSent(k, CacheOf(r, builder), op);
    if IsOf(op, builder) { FeedTxsHolds(k, CacheOf(r, builder).txs, Part(k, CacheOf(r, builder), op).txs, tx); }
  }

  lemma {:induction false} SentTxIsCached(k: Hashes, r: Relay, ops: seq<Op>, builder: Pubkey, tx: Tx)
    requires NoClear(ops) && |tx| >= TX_KEY_SIZE && TxUncontested(k, ops, builder, tx) && TxSent(k, r, ops, builder, tx)
    ensures TxAt(k, CacheOf(Run(k, r, ops), builder).txs, tx)
  {
    var n := |ops| - 1;
    var i :| 0 <= i < |ops| && TxReachedAt(k, r, ops, builder, tx, i);
    if i < n {
      assert ops[..n][..i] == ops[..i];
      assert TxReachedAt(k, r, ops[..n], builder, tx, i);
      SentTxIsCached(k, r, ops[..n], builder, tx);
    }
    TxStepHolds(k, Run(k, r, ops[..n]), ops[n], builder, tx);
  }

  // ---------------------------------------------------------------- blobs

  lemma {:induction false} FeedBlobsHolds(k: Hashes, m: map<u64, Item>, items: seq<Item>, x: Item)
    requires HasAllCells(x) && NoClashWith(k, items, x) && (BlobAt(k, m, x) || x in items)
    ensures BlobAt(k, FeedBlobs(k, m, items), x)
  {
    if items != [] {
      var n := |items| - 1;
      assert items == items[..n] + [items[n]] && !BlobClash(k, items[n], x);
      if items[n] != x { FeedBlobsHolds(k, m, items[..n], x); }
    }
  }

  ghost predicate BlobReachedAt(k: Hashes, r: Relay, ops: seq<Op>, builder: Pubkey, x: Item, i: nat)
    requires i < |ops|
  {
    IsOf(ops[i], builder) && x in Part(k, CacheOf(Run(k, r, ops[..i]), builder), ops[i]).newItems
  }

  ghost predicate BlobSent(k: Hashes, r: Relay, ops: seq<Op>, builder: Pubkey, x: Item)
  {
    HasAllCells(x) && exists i :: 0 <= i < |ops| && BlobReachedAt(k, r, ops, builder, x, i)
  }

  ghost predicate BlobUncontested(k: Hashes, ops: seq<Op>, builder: Pubkey, x: Item)
  {
    forall i :: 0 <= i < |ops| && IsOf(ops[i], builder) ==> NoClashWith(k, ops[i].s.newItems, x)
  }

  lemma BlobStepHolds(k: Hashes, r: Relay, op: Op, builder: Pubkey, x: Item)
    requires !op.ClearOp? && HasAllCells(x) && (IsOf(op, builder) ==> NoClashWith(k, op.s.newItems, x))
    requires BlobAt(k, CacheOf(r, builder).blobs, x)
          || (IsOf(op, builder) && x in Part(k, CacheOf(r, builder), op).newItems)
    ensures BlobAt(k, CacheOf(Step(k, r, op), builder).blobs, x)
  {
    StepFeeds(k, r, op, builder);
    if IsOf(op, builder) {
      var items := Part(k, CacheOf(r, builder), op).newItems;
      assert NoClashWith(k, items, x);
      FeedBlobsHolds(k, CacheOf(r, builder).blobs, items, x);
    }
  }

  lemma {:induction false} SentBlobIsCached(k: Hashes, r: Relay, ops: seq<Op>, builder: Pubkey, x: Item)
    requires NoClear(ops) && BlobUncontested(k, ops, builder, x) && BlobSent(k, r, ops, builder, x)
    ensures BlobAt(k, CacheOf(Run(k, r, ops), builder).blobs, x)
  {
    var n := |ops| - 1;
    var i :| 0 <= i < |ops| && BlobReachedAt(k, r, ops, builder, x, i);
    if i < n {
      assert ops[..n][..i] == ops[..i];
      assert BlobReachedAt(k, r, ops[..n], builder, x, i);
      SentBlobIsCached(k, r, ops[..n], builder, x);
    }
    BlobStepHolds(k, Run(k, r, ops[..n]), ops[n], builder, x);
  }

  // ---------------------------------------------------------------- withdrawals

  predicate Inline(op: Op, builder: Pubkey, w: Withdrawals)
  {
    IsOf(op, builder) && op.s.withdrawalsRef == 0 && op.s.withdrawals == w && w != []
  }

  ghost predicate WithdrawalsSent(ops: seq<Op>, builder: Pubkey, w: Withdrawals)
  {
    exists i :: 0 <= i < |ops| && Inline(ops[i], builder, w)
  }

  /** The first list under a key stays, so no other list of the builder may share it. */
  ghost predicate WithdrawalsUncontested(k: Hashes, ops: seq<Op>, builder: Pubkey, w: Withdrawals)
  {
    forall i :: 0 <= i < |ops| && IsOf(ops[i], builder) ==>
      k.withdrawals(ops[i].s.withdrawals) != k.withdrawals(w) || ops[i].s.withdrawals == w
  }

  predicate OnlyUnder(k: Hashes, c: Cache, w: Withdrawals)
  {
    k.withdrawals(w) in c.withdrawals ==> c.withdrawals[k.withdrawals(w)].0 == w
  }

  lemma {:induction false} WithdrawalsCached(k: Hashes, r: Relay, ops: seq<Op>, builder: Pubkey, w: Withdrawals)
    requires NoClear(ops) && WithdrawalsUncontested(k, ops, builder, w) && OnlyUnder(k, CacheOf(r, builder), w)
    ensures OnlyUnder(k, CacheOf(Run(k, r, ops), builder), w)
    ensures WithdrawalsSent(ops, builder, w) ==> HoldsWithdrawals(k, CacheOf(Run(k, r, ops), builder), w)
  {
    if ops != [] {
      var n := |ops| - 1;
      WithdrawalsCached(k, r, ops[..n], builder, w);
      StepFeeds(k, Run(k, r, ops[..n]), ops[n], builder);
      if WithdrawalsSent(ops, builder, w) {
        var i :| 0 <= i < |ops| && Inline(ops[i], builder, w);
        if i < n { assert Inline(ops[..n][i], builder, w); }
      }
    }
  }

  // ---------------------------------------------------------------- the round trip of a run

  /** Everything the builder sends by key it sent in full before, under a key that is not the marker and
      that nothing else it sent, and nothing else in the block, has. */
  ghost predicate SentBefore(
    k: Hashes, r: Relay, ops: seq<Op>, builder: Pubkey, b: Block, ch: Choice, inlineKeys: bool)
    requires Fits(b, ch)
  {
    && (forall i :: 0 <= i < |b.txs| && ch.txs[i] ==>
          TxKey(k, b.txs[i]) != 0 && TxSent(k, r, ops, builder, b.txs[i]) && TxUncontested(k, ops, builder, b.txs[i]))
    && (forall i, j :: 0 <= i < |b.txs| && 0 <= j < |b.txs| ==> !TxClash(k, b.txs[i], b.txs[j]))
    && (forall i :: 0 <= i < |b.blobs| && ch.blobs[i] ==>
          && k.blob(b.blobs[i].commitment) != 0
          && BlobSent(k, r, ops, builder, b.blobs[i]) && BlobUncontested(k, ops, builder, b.blobs[i]))
    && (forall i, j :: 0 <= i < |b.blobs| && 0 <= j < |b.blobs| ==> !BlobClash(k, b.blobs[i], b.blobs[j]))
    && (inlineKeys ==> forall i :: 0 <= i < |b.blobs| ==> k.blob(b.blobs[i].commitment) != 0)
    && (ch.withdrawals ==>
          && k.withdrawals(b.withdrawals) != 0
          && WithdrawalsSent(ops, builder, b.withdrawals) && WithdrawalsUncontested(k, ops, builder, b.withdrawals))
  }

  /** What was sent before is known: from an empty cache, with no clear in between. */
  lemma KnownAfterRun(k: Hashes, r: Relay, ops: seq<Op>, builder: Pubkey, b: Block, ch: Choice, inlineKeys: bool)
    requires CacheOf(r, builder) == EmptyCache && NoClear(ops)
    requires Fits(b, ch) && SentBefore(k, r, ops, builder, b, ch, inlineKeys)
    ensures Known(k, CacheOf(Run(k, r, ops), builder), b, ch, inlineKeys)
  {
    var c := CacheOf(Run(k, r, ops), builder);
    forall i | 0 <= i < |b.txs| && ch.txs[i] ensures TxUnder(k, c.txs, b.txs[i]) {
      SentTxIsCached(k, r, ops, builder, b.txs[i]);
    }
    forall i | 0 <= i < |b.blobs| && ch.blobs[i] ensures BlobUnder(k, c.blobs, b.blobs[i]) {
      SentBlobIsCached(k, r, ops, builder, b.blobs[i]);
    }
    if ch.withdrawals { WithdrawalsCached(k, r, ops, builder, b.withdrawals); }
  }

  /** After any run in which what it now keys was sent in full, a builder's dehydrated block passes the
      precheck and hydrates to the block. */
  lemma RunRoundTrip(k: Hashes, r: Relay, ops: seq<Op>, b: Block, ch: Choice, s: Submission, maxBlobs: nat)
    requires CacheOf(r, s.builder) == EmptyCache && NoClear(ops)
    requires Fits(b, ch) && SentBefore(k, r, ops, s.builder, b, ch, false) && Dehydrates(k, b, ch, false, s)
    requires Sendable(b, ch, s.extraData, maxBlobs) && maxBlobs <= MAX_BLOB_COMMITMENTS_PER_BLOCK
    ensures var c := CacheOf(Run(k, r, ops), s.builder);
      CanHydrate(k, c, s, maxBlobs) && HydratesTo(Hydrate(k, c, s, maxBlobs).1, b)
  {
    KnownAfterRun(k, r, ops, s.builder, b, ch, false);
    DehydratedHydrates(k, CacheOf(Run(k, r, ops), s.builder), b, ch, false, s, maxBlobs);
  }

  predicate HydratesTo(o: Outcome, b: Block)
  {
    o.Done? && o.data.txs == b.txs && o.data.withdrawals == b.withdrawals && o.data.sidecar == SidecarOf(b.blobs)
  }

  lemma SendableIsNoKey(b: Block, ch: Choice, extraData: seq<byte>, maxBlobs: nat)
    requires Fits(b, ch) && Sendable(b, ch, extraData, maxBlobs)
    ensures NoneLooksLikeAKey(b.txs, ch.txs)
  {
  }

  /** The same in the first wire shape, which has no way to key withdrawals. */
  lemma RunRoundTripV1(
    k: Hashes, r: Relay, ops: seq<Op>, b: Block, ch: Choice, builder: Pubkey, extraData: seq<byte>, maxBlobs: nat)
    requires CacheOf(r, builder) == EmptyCache && NoClear(ops)
    requires Fits(b, ch) && !ch.withdrawals && SentBefore(k, r, ops, builder, b, ch, true)
    requires Sendable(b, ch, extraData, maxBlobs) && maxBlobs <= MAX_BLOB_COMMITMENTS_PER_BLOCK
    ensures var c, s := CacheOf(Run(k, r, ops), builder), Upgrade(k, DehydrateV1(k, b, ch, builder, extraData));
      CanHydrate(k, c, s, maxBlobs) && HydratesTo(Hydrate(k, c, s, maxBlobs).1, b)
  {
    var s := Upgrade(k, DehydrateV1(k, b, ch, builder, extraData));
    SendableIsNoKey(b, ch, extraData, maxBlobs);
    UpgradeIsFaithful(k, b, ch, builder, extraData);
    KnownAfterRun(k, r, ops, builder, b, ch, true);
    DehydratedHydrates(k, CacheOf(Run(k, r, ops), builder), b, ch, true, s, maxBlobs);
  }
}
