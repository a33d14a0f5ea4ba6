/**
 * Hydrating undoes dehydrating: whichever transactions, blobs and withdrawals a builder replaces
 * by their keys, a successful hydrate gives back the block it started from. Both wire shapes are
 * covered: the second, with refs beside the full items, and the first, with 8-byte keys inline.
 */
module HydrationRoundTrip {
  import opened Bytes
  import opened Hydration
  import opened HydrationCaches

  datatype Block = Block(txs: seq<Tx>, blobs: seq<Item>, withdrawals: Withdrawals)

  /** What the builder replaces by its key. */
  datatype Choice = Choice(txs: seq<bool>, blobs: seq<bool>, withdrawals: bool)

  /** The elements sent in full. */
  function InFull<T>(xs: seq<T>, byKey: seq<bool>): seq<T>
    requires |xs| == |byKey|
  {
    if xs == [] then []
    else
      var n := |xs| - 1;
      InFull(xs[..n], byKey[..n]) + (if byKey[n] then [] else [xs[n]])
  }

  function TxRefs(k: Hashes, txs: seq<Tx>, byKey: seq<bool>): seq<u64>
    requires |txs| == |byKey| && Keyable(txs, byKey)
  {
    if txs == [] then []
    else
      var n := |txs| - 1;
      TxRefs(k, txs[..n], byKey[..n]) + [if byKey[n] then TxKey(k, txs[n]) else NEXT_FULL_ITEM]
  }

  /** Only transactions long enough to be keyed are replaced by a key. */
  predicate Keyable(txs: seq<Tx>, byKey: seq<bool>)
    requires |txs| == |byKey|
  {
    forall i :: 0 <= i < |txs| && byKey[i] ==> |txs[i]| >= TX_KEY_SIZE
  }

  /** `inlineKeys` is the first wire shape, where a new blob is referred to by key as well. */
  function BlobRefs(k: Hashes, items: seq<Item>, byKey: seq<bool>, inlineKeys: bool): seq<u64>
    requires |items| == |byKey|
  {
    if items == [] then []
    else
      var n := |items| - 1;
      BlobRefs(k, items[..n], byKey[..n], inlineKeys)
      + [if byKey[n] || inlineKeys then k.blob(items[n].commitment) else NEXT_FULL_ITEM]
  }

  predicate Fits(b: Block, ch: Choice)
  {
    |b.txs| == |ch.txs| && |b.blobs| == |ch.blobs| && Keyable(b.txs, ch.txs)
  }

  /** The relay's form of block `b` with `ch` replaced by keys. */
  predicate Dehydrates(k: Hashes, b: Block, ch: Choice, inlineKeys: bool, s: Submission)
    requires Fits(b, ch)
  {
    && s.txs == InFull(b.txs, ch.txs)
    && s.txRefs == TxRefs(k, b.txs, ch.txs)
    && s.blobRefs == BlobRefs(k, b.blobs, ch.blobs, inlineKeys)
    && s.newItems == InFull(b.blobs, ch.blobs)
    && s.withdrawalsRef == (if ch.withdrawals then k.withdrawals(b.withdrawals) else 0)
    && s.withdrawals == (if ch.withdrawals then [] else b.withdrawals)
  }

  // ---------------------------------------------------------------- what the keys must allow

  predicate TxUnder(k: Hashes, m: map<u64, Tx>, tx: Tx)
  {
    |tx| >= TX_KEY_SIZE && TxKey(k, tx) != 0 && TxKey(k, tx) in m && m[TxKey(k, tx)] == tx
  }

  predicate BlobUnder(k: Hashes, m: map<u64, Item>, i: Item)
  {
    var key := k.blob(i.commitment);
    key != 0 && key in m && m[key] == i
  }

  predicate TxClash(k: Hashes, t: Tx, u: Tx)
  {
    |t| >= TX_KEY_SIZE && |u| >= TX_KEY_SIZE && TxKey(k, t) == TxKey(k, u) && t != u
  }

  predicate BlobClash(k: Hashes, i: Item, j: Item)
  {
    k.blob(i.commitment) == k.blob(j.commitment) && i != j
  }

  /** The relay has what the keys stand for, and no two items of the block share a key. */
  ghost predicate Known(k: Hashes, c: Cache, b: Block, ch: Choice, inlineKeys: bool)
    requires Fits(b, ch)
  {
    && (forall i :: 0 <= i < |b.txs| && ch.txs[i] ==> TxUnder(k, c.txs, b.txs[i]))
    && (forall i, j :: 0 <= i < |b.txs| && 0 <= j < |b.txs| ==> !TxClash(k, b.txs[i], b.txs[j]))
    && (forall i :: 0 <= i < |b.blobs| && ch.blobs[i] ==> BlobUnder(k, c.blobs, b.blobs[i]))
    && (forall i, j :: 0 <= i < |b.blobs| && 0 <= j < |b.blobs| ==> !BlobClash(k, b.blobs[i], b.blobs[j]))
    && (inlineKeys ==> forall i :: 0 <= i < |b.blobs| ==> k.blob(b.blobs[i].commitment) != 0)
    && (ch.withdrawals ==> k.withdrawals(b.withdrawals) != 0 && HoldsWithdrawals(k, c, b.withdrawals))
  }

  predicate HoldsWithdrawals(k: Hashes, c: Cache, w: Withdrawals)
  {
    k.withdrawals(w) in c.withdrawals && c.withdrawals[k.withdrawals(w)].0 == w
  }

  // ---------------------------------------------------------------- transactions

  /** `m` answers for every transaction that is replaced by its key, and later full transactions
      of the block cannot take its place. */
  ghost predicate Answers(k: Hashes, m: map<u64, Tx>, all: set<Tx>, keyed: set<Tx>)
  {
    && keyed <= all
    && (forall t :: t in keyed ==> TxUnder(k, m, t))
    && (forall t, u :: t in all && u in all ==> !TxClash(k, t, u))
  }

  lemma AnswersInsert(k: Hashes, m: map<u64, Tx>, all: set<Tx>, keyed: set<Tx>, tx: Tx)
    requires Answers(k, m, all, keyed) && tx in all && |tx| >= TX_KEY_SIZE
    ensures Answers(k, m[TxKey(k, tx) := tx], all, keyed)
  {
    forall t | t in keyed ensures TxUnder(k, m[TxKey(k, tx) := tx], t) {
      assert TxUnder(k, m, t) && !TxClash(k, t, tx);
    }
  }

  lemma {:induction false} TxsComeBack(
    k: Hashes, txs: seq<Tx>, byKey: seq<bool>, full: seq<Tx>, start: TxRun, all: set<Tx>, keyed: set<Tx>)
    requires |txs| == |byKey| && Keyable(txs, byKey)
    requires InFull(txs, byKey) <= full
    requires start.next == 0 && start.out == []
    requires Answers(k, start.txs, all, keyed)
    requires forall i :: 0 <= i < |txs| ==> txs[i] in all && (byKey[i] ==> txs[i] in keyed)
    ensures var r := RunTxs(k, full, TxRefs(k, txs, byKey), start);
            r.error == None ==> r.out == txs && r.next == |InFull(txs, byKey)| && Answers(k, r.txs, all, keyed)
    ensures RunTxs(k, full, TxRefs(k, txs, byKey), start).error == None ==> start.error == None
  {
    if txs != [] {
      var n := |txs| - 1;
      TxsComeBack(k, txs[..n], byKey[..n], full, start, all, keyed);
      var refs := TxRefs(k, txs, byKey);
      assert refs[..|refs| - 1] == TxRefs(k, txs[..n], byKey[..n]);
      assert txs == txs[..n] + [txs[n]];
      var r := RunTxs(k, full, refs[..|refs| - 1], start);
      if RunTxs(k, full, refs, start).error == None {
        if byKey[n] {
          assert TxUnder(k, r.txs, txs[n]);
        } else {
          assert full[r.next] == InFull(txs, byKey)[r.next] == txs[n];
          AnswersInsert(k, r.txs, all, keyed, txs[n]);
        }
      }
    }
  }

  // ---------------------------------------------------------------- blobs

  function SidecarOf(items: seq<Item>): Sidecar
  {
    if items == [] then Sidecar([], [], [])
    else
      var before, i := SidecarOf(items[..|items| - 1]), items[|items| - 1];
      Sidecar(before.commitments + [i.commitment], before.proofs + i.proof, before.blobs + [i.blob])
  }

  predicate BlobAt(k: Hashes, m: map<u64, Item>, i: Item)
  {
    k.blob(i.commitment) in m && m[k.blob(i.commitment)] == i
  }

  ghost predicate NoClashWith(k: Hashes, items: seq<Item>, x: Item)
  {
    forall i :: 0 <= i < |items| ==> !BlobClash(k, items[i], x)
  }

  /** After the new items are cached, an item without a clash is found under its key. */
  lemma {:induction false} BlobFound(k: Hashes, blobs: map<u64, Item>, items: seq<Item>, x: Item)
    requires AllCells(items) && NoClashWith(k, items, x)
    requires BlobAt(k, blobs, x) || x in items
    ensures BlobAt(k, FeedBlobs(k, blobs, items), x)
  {
    if items != [] {
      var n := |items| - 1;
      assert HasAllCells(items[n]) && !BlobClash(k, items[n], x);
      if k.blob(items[n].commitment) != k.blob(x.commitment) {
        BlobFound(k, blobs, items[..n], x);
      }
    }
  }

  lemma {:induction false} BlobsComeBack(
    k: Hashes, items: seq<Item>, byKey: seq<bool>, inlineKeys: bool, m: map<u64, Item>, newKeys: seq<u64>)
    requires |items| == |byKey|
    requires KeysOf(k, InFull(items, byKey)) <= newKeys
    requires forall i :: 0 <= i < |items| ==> BlobAt(k, m, items[i])
    requires forall i :: 0 <= i < |items| && (byKey[i] || inlineKeys) ==> k.blob(items[i].commitment) != 0
    ensures var r := RunBlobs(m, newKeys, BlobRefs(k, items, byKey, inlineKeys));
            r.stop == None ==> r.out == SidecarOf(items) && (inlineKeys || r.next == |InFull(items, byKey)|)
  {
    if items != [] {
      var n := |items| - 1;
      var before := InFull(items[..n], byKey[..n]);
      assert KeysOf(k, before) <= KeysOf(k, InFull(items, byKey));
      BlobsComeBack(k, items[..n], byKey[..n], inlineKeys, m, newKeys);
      var refs := BlobRefs(k, items, byKey, inlineKeys);
      assert refs[..|refs| - 1] == BlobRefs(k, items[..n], byKey[..n], inlineKeys);
      assert BlobAt(k, m, items[n]);
      if !byKey[n] {
        assert newKeys[|before|] == KeysOf(k, InFull(items, byKey))[|before|];
      }
    }
  }

  lemma {:induction false} InFullMembers<T>(xs: seq<T>, byKey: seq<bool>)
    requires |xs| == |byKey|
    ensures forall x :: x in InFull(xs, byKey) ==> x in xs
    ensures forall i :: 0 <= i < |xs| && !byKey[i] ==> xs[i] in InFull(xs, byKey)
  {
    if xs != [] {
      var n := |xs| - 1;
      InFullMembers(xs[..n], byKey[..n]);
      assert xs == xs[..n] + [xs[n]];
      forall i | 0 <= i < |xs| && !byKey[i] ensures xs[i] in InFull(xs, byKey) {
        if i < n { assert xs[..n][i] in InFull(xs[..n], byKey[..n]); }
      }
    }
  }

  lemma BlobsFound(k: Hashes, c: Cache, b: Block, ch: Choice, inlineKeys: bool)
    requires Fits(b, ch) && Known(k, c, b, ch, inlineKeys)
    requires AllCells(InFull(b.blobs, ch.blobs))
    ensures forall i :: 0 <= i < |b.blobs| ==> BlobAt(k, FeedBlobs(k, c.blobs, InFull(b.blobs, ch.blobs)), b.blobs[i])
  {
    var added := InFull(b.blobs, ch.blobs);
    InFullMembers(b.blobs, ch.blobs);
    forall i | 0 <= i < |b.blobs| ensures BlobAt(k, FeedBlobs(k, c.blobs, added), b.blobs[i]) {
      forall j | 0 <= j < |added| ensures !BlobClash(k, added[j], b.blobs[i]) {
        assert added[j] in b.blobs;
      }
      if ch.blobs[i] { assert BlobUnder(k, c.blobs, b.blobs[i]); }
      BlobFound(k, c.blobs, added, b.blobs[i]);
    }
  }

  // ---------------------------------------------------------------- the round trip

  lemma TxsRoundTrip(k: Hashes, c: Cache, b: Block, ch: Choice, inlineKeys: bool, s: Submission)
    requires Fits(b, ch) && Known(k, c, b, ch, inlineKeys) && Dehydrates(k, b, ch, inlineKeys, s)
    ensures var r := RunTxs(k, s.txs, s.txRefs, StartTxs(c, s)); r.error == None ==> r.out == b.txs
  {
    var all := set t | t in b.txs;
    var keyed := set i | 0 <= i < |b.txs| && ch.txs[i] :: b.txs[i];
    TxsComeBack(k, b.txs, ch.txs, s.txs, StartTxs(c, s), all, keyed);
  }

  lemma BlobsRoundTrip(k: Hashes, c: Cache, b: Block, ch: Choice, inlineKeys: bool, s: Submission)
    requires Fits(b, ch) && Known(k, c, b, ch, inlineKeys) && Dehydrates(k, b, ch, inlineKeys, s)
    requires AllCells(s.newItems)
    ensures var r := RunBlobs(FeedBlobs(k, c.blobs, s.newItems), NewKeys(k, s.newItems), s.blobRefs);
            r.stop == None ==> r.out == SidecarOf(b.blobs)
  {
    BlobsFound(k, c, b, ch, inlineKeys);
    NewKeysAll(k, s.newItems);
    forall i | 0 <= i < |b.blobs| && (ch.blobs[i] || inlineKeys) ensures k.blob(b.blobs[i].commitment) != 0 {
      if ch.blobs[i] { assert BlobUnder(k, c.blobs, b.blobs[i]); }
    }
    BlobsComeBack(k, b.blobs, ch.blobs, inlineKeys, FeedBlobs(k, c.blobs, s.newItems), KeysOf(k, s.newItems));
  }

  lemma DoneHasNoError(k: Hashes, c: Cache, s: Submission, maxBlobs: nat)
    requires Hydrate(k, c, s, maxBlobs).1.Done?
    ensures RunTxs(k, s.txs, s.txRefs, StartTxs(c, s)).error == None
    ensures Hydrate(k, c, s, maxBlobs).1.data.txs == RunTxs(k, s.txs, s.txRefs, StartTxs(c, s)).out
    ensures AllCells(s.newItems)
    ensures RunBlobs(FeedBlobs(k, c.blobs, s.newItems), NewKeys(k, s.newItems), s.blobRefs).stop == None
    ensures Hydrate(k, c, s, maxBlobs).1.data.sidecar
         == RunBlobs(FeedBlobs(k, c.blobs, s.newItems), NewKeys(k, s.newItems), s.blobRefs).out
  {
    NoItemError(s.newItems, RunTxs(k, s.txs, s.txRefs, StartTxs(c, s)).error);
    StopIsNotDone(FeedBlobs(k, c.blobs, s.newItems), NewKeys(k, s.newItems), s.blobRefs);
  }

  /** Whatever a builder replaces by keys that the relay knows, a successful hydrate gives back the
      block's transactions, withdrawals and blobs, in order. */
  lemma HydrateRoundTrip(
    k: Hashes, c: Cache, b: Block, ch: Choice, inlineKeys: bool, s: Submission, maxBlobs: nat)
    requires Fits(b, ch) && Known(k, c, b, ch, inlineKeys) && Dehydrates(k, b, ch, inlineKeys, s)
    requires Hydrate(k, c, s, maxBlobs).1.Done?
    ensures Hydrate(k, c, s, maxBlobs).1.data.txs == b.txs
    ensures Hydrate(k, c, s, maxBlobs).1.data.withdrawals == b.withdrawals
    ensures Hydrate(k, c, s, maxBlobs).1.data.sidecar == SidecarOf(b.blobs)
  {
    DoneHasNoError(k, c, s, maxBlobs);
    TxsRoundTrip(k, c, b, ch, inlineKeys, s);
    BlobsRoundTrip(k, c, b, ch, inlineKeys, s);
    DoneHasWithdrawals(k, c, s, maxBlobs);
  }

  // ---------------------------------------------------------------- it does succeed

  /** What a builder may send: keyed-length transactions and complete blobs, within the limits. */
  predicate Sendable(b: Block, ch: Choice, extraData: seq<byte>, maxBlobs: nat)
    requires Fits(b, ch)
  {
    && |b.txs| <= MAX_TRANSACTIONS_PER_PAYLOAD && |b.blobs| <= maxBlobs && |extraData| <= MAX_EXTRA_DATA_BYTES
    && (forall i :: 0 <= i < |b.txs| ==> TX_KEY_SIZE <= |b.txs[i]| <= MAX_BYTES_PER_TRANSACTION)
    && AllCells(b.blobs)
  }

  lemma {:induction false} TxRefsResolve(k: Hashes, c: Cache, txs: seq<Tx>, byKey: seq<bool>)
    requires |txs| == |byKey| && Keyable(txs, byKey)
    requires forall i :: 0 <= i < |txs| && byKey[i] ==> TxUnder(k, c.txs, txs[i])
    ensures |TxRefs(k, txs, byKey)| == |txs|
    ensures |InFull(txs, byKey)| <= |txs|
    ensures NextFullRefs(TxRefs(k, txs, byKey)) == |InFull(txs, byKey)|
    ensures forall i :: 0 <= i < |txs| ==>
              TxRefs(k, txs, byKey)[i] == NEXT_FULL_ITEM || TxRefs(k, txs, byKey)[i] in c.txs
  {
    if txs != [] {
      var n := |txs| - 1;
      TxRefsResolve(k, c, txs[..n], byKey[..n]);
      var refs := TxRefs(k, txs, byKey);
      assert refs[..|refs| - 1] == TxRefs(k, txs[..n], byKey[..n]);
      assert byKey[n] ==> TxUnder(k, c.txs, txs[n]);
    }
  }

  lemma {:induction false} BlobRefsResolve(
    k: Hashes, c: Cache, items: seq<Item>, byKey: seq<bool>, inlineKeys: bool, added: seq<Item>)
    requires |items| == |byKey|
    requires forall i :: 0 <= i < |items| && byKey[i] ==> BlobUnder(k, c.blobs, items[i])
    requires inlineKeys ==> forall i :: 0 <= i < |items| ==> k.blob(items[i].commitment) != 0
    requires AllCells(items)
    requires forall i :: 0 <= i < |items| && !byKey[i] ==> items[i] in added
    ensures |BlobRefs(k, items, byKey, inlineKeys)| == |items|
    ensures NextFullRefs(BlobRefs(k, items, byKey, inlineKeys)) <= |InFull(items, byKey)|
    ensures forall i :: 0 <= i < |items| ==> BlobKnown(k, c, added, BlobRefs(k, items, byKey, inlineKeys)[i])
  {
    if items != [] {
      var n := |items| - 1;
      BlobRefsResolve(k, c, items[..n], byKey[..n], inlineKeys, added);
      var refs := BlobRefs(k, items, byKey, inlineKeys);
      assert refs[..|refs| - 1] == BlobRefs(k, items[..n], byKey[..n], inlineKeys);
      assert HasAllCells(items[n]);
      if byKey[n] {
        assert BlobUnder(k, c.blobs, items[n]);
      } else {
        var j :| 0 <= j < |added| && added[j] == items[n];
        assert k.blob(added[j].commitment) == k.blob(items[n].commitment);
      }
      assert BlobKnown(k, c, added, refs[n]);
    }
  }

  lemma InFullSendable(b: Block, ch: Choice, extraData: seq<byte>, maxBlobs: nat)
    requires Fits(b, ch) && Sendable(b, ch, extraData, maxBlobs)
    ensures forall t :: t in InFull(b.txs, ch.txs) ==> TX_KEY_SIZE <= |t| <= MAX_BYTES_PER_TRANSACTION
    ensures AllCells(InFull(b.blobs, ch.blobs))
  {
    InFullMembers(b.txs, ch.txs);
    InFullMembers(b.blobs, ch.blobs);
    forall i | 0 <= i < |InFull(b.blobs, ch.blobs)| ensures HasAllCells(InFull(b.blobs, ch.blobs)[i]) {
      assert InFull(b.blobs, ch.blobs)[i] in b.blobs;
    }
  }

  lemma DehydratedPasses(k: Hashes, c: Cache, b: Block, ch: Choice, inlineKeys: bool, s: Submission, maxBlobs: nat)
    requires Fits(b, ch) && Known(k, c, b, ch, inlineKeys) && Dehydrates(k, b, ch, inlineKeys, s)
    requires Sendable(b, ch, s.extraData, maxBlobs)
    ensures CanHydrate(k, c, s, maxBlobs)
  {
    TxRefsResolve(k, c, b.txs, ch.txs);
    InFullMembers(b.blobs, ch.blobs);
    BlobRefsResolve(k, c, b.blobs, ch.blobs, inlineKeys, s.newItems);
    InFullSendable(b, ch, s.extraData, maxBlobs);
  }

  /** A dehydrated block whose keys are known passes the precheck, so it hydrates, and hydrates to
      the block. */
  lemma DehydratedHydrates(
    k: Hashes, c: Cache, b: Block, ch: Choice, inlineKeys: bool, s: Submission, maxBlobs: nat)
    requires Fits(b, ch) && Known(k, c, b, ch, inlineKeys) && Dehydrates(k, b, ch, inlineKeys, s)
    requires Sendable(b, ch, s.extraData, maxBlobs) && maxBlobs <= MAX_BLOB_COMMITMENTS_PER_BLOCK
    ensures CanHydrate(k, c, s, maxBlobs)
    ensures Hydrate(k, c, s, maxBlobs).1.Done?
    ensures Hydrate(k, c, s, maxBlobs).1.data.txs == b.txs
    ensures Hydrate(k, c, s, maxBlobs).1.data.withdrawals == b.withdrawals
    ensures Hydrate(k, c, s, maxBlobs).1.data.sidecar == SidecarOf(b.blobs)
  {
    DehydratedPasses(k, c, b, ch, inlineKeys, s, maxBlobs);
    CanHydrateSucceeds(k, c, s, maxBlobs);
    HydrateRoundTrip(k, c, b, ch, inlineKeys, s, maxBlobs);
  }
}
