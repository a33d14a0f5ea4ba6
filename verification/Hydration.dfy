/**
 * Per-builder hydration caches (crates/types/src/hydration.rs): a submission may replace
 * transactions, blobs and withdrawals by 8-byte keys of what the relay has already seen.
 *
 * The cache keys and the withdrawals root are any functions; where a result needs keys not to
 * collide, it says so.
 */
module Hydration {
  import opened Bytes

  const NEXT_FULL_ITEM: nat := 0
  const TX_KEY_SIZE: nat := 67
  const CELLS_PER_EXT_BLOB: nat := 128
  const MAX_BLOB_COMMITMENTS_PER_BLOCK: nat := 4096

  type Tx = seq<byte>
  datatype Commitment = Commitment(code: nat)
  datatype Proof = Proof(code: nat)
  datatype Blob = Blob(code: nat)
  type Withdrawals = seq<Withdrawal>

  datatype Item = Item(proof: seq<Proof>, commitment: Commitment, blob: Blob)

  /** Hash functions the relay and the builders share. */
  datatype Hashes = Hashes(
    tx: Octets -> u64, blob: Commitment -> u64, withdrawals: Withdrawals -> u64, root: Withdrawals -> Root)

  datatype Cache = Cache(txs: map<u64, Tx>, blobs: map<u64, Item>, withdrawals: map<u64, (Withdrawals, Root)>)

  const EmptyCache := Cache(map[], map[], map[])

  /** The relay's form of a submission: `txs` and `newItems` in full, `txRefs` and `blobRefs` in
      block order. */
  datatype Submission = Submission(
    builder: Pubkey, extraData: seq<byte>,
    txs: seq<Tx>, txRefs: seq<u64>,
    withdrawals: Withdrawals, withdrawalsRef: u64,
    blobRefs: seq<u64>, newItems: seq<Item>)

  datatype Sidecar = Sidecar(commitments: seq<Commitment>, proofs: seq<Proof>, blobs: seq<Blob>)
  datatype Hydrated = Hydrated(txs: seq<Tx>, withdrawals: Withdrawals, sidecar: Sidecar, txHits: nat, blobHits: nat)

  datatype Error =
    | UnknownTxHash(index: nat, hash: u64)
    | InvalidTxLength(length: nat, index: nat)
    | UnknownBlobHash(key: u64, index: nat)
    | TooManyBlobs(blobs: nat, max: nat)
    | MissingFullTx(index: nat)
    | MissingNewBlob(index: nat)
    | TooManyTxs
    | UnknownWithdrawals(key: u64)
    | InvalidBlobProofs(index: nat, proofs: nat)

  datatype Outcome = Done(data: Hydrated) | Failed(error: Error) | Panicked

  /** The cache key covers the signature at the end of the transaction. */
  function TxKey(k: Hashes, tx: Tx): u64
    requires |tx| >= TX_KEY_SIZE
  {
    k.tx(tx[|tx| - TX_KEY_SIZE..])
  }

  // ---------------------------------------------------------------- filling the cache

  function FeedTx(k: Hashes, txs: map<u64, Tx>, tx: Tx): map<u64, Tx>
  {
    if |tx| >= TX_KEY_SIZE then txs[TxKey(k, tx) := tx] else txs
  }

  function FeedTxs(k: Hashes, txs: map<u64, Tx>, full: seq<Tx>): map<u64, Tx>
  {
    if full == [] then txs else FeedTx(k, FeedTxs(k, txs, full[..|full| - 1]), full[|full| - 1])
  }

  predicate HasAllCells(i: Item) { |i.proof| == CELLS_PER_EXT_BLOB }

  function FeedBlob(k: Hashes, blobs: map<u64, Item>, i: Item): map<u64, Item>
  {
    if HasAllCells(i) then blobs[k.blob(i.commitment) := i] else blobs
  }

  function FeedBlobs(k: Hashes, blobs: map<u64, Item>, items: seq<Item>): map<u64, Item>
  {
    if items == [] then blobs else FeedBlob(k, FeedBlobs(k, blobs, items[..|items| - 1]), items[|items| - 1])
  }

  /** Inline withdrawals are cached with their root, unless their key is taken. */
  function FeedWithdrawals(
    k: Hashes, cached: map<u64, (Withdrawals, Root)>, s: Submission): map<u64, (Withdrawals, Root)>
  {
    if s.withdrawalsRef == 0 && s.withdrawals != [] && k.withdrawals(s.withdrawals) !in cached
    then cached[k.withdrawals(s.withdrawals) := (s.withdrawals, k.root(s.withdrawals))]
    else cached
  }

  function Feed(k: Hashes, c: Cache, s: Submission): Cache
  {
    Cache(FeedTxs(k, c.txs, s.txs), FeedBlobs(k, c.blobs, s.newItems), FeedWithdrawals(k, c.withdrawals, s))
  }

  // ---------------------------------------------------------------- hydrating

  /** Progress through the transaction refs: `next` full transactions have been taken. */
  datatype TxRun = TxRun(next: nat, out: seq<Tx>, txs: map<u64, Tx>, error: Option<Error>, hits: nat)

  function TxStep(k: Hashes, full: seq<Tx>, index: nat, ref: u64, r: TxRun): TxRun
  {
    if ref == NEXT_FULL_ITEM then
      if r.next >= |full| then r.(error := Some(MissingFullTx(index)))
      else
        var tx := full[r.next];
        if |tx| < TX_KEY_SIZE
        then r.(next := r.next + 1, out := r.out + [tx], error := Some(InvalidTxLength(|tx|, index)))
        else r.(next := r.next + 1, out := r.out + [tx], txs := r.txs[TxKey(k, tx) := tx])
    else if ref in r.txs then r.(out := r.out + [r.txs[ref]], hits := r.hits + 1)
    else r.(error := Some(UnknownTxHash(index, ref)))
  }

  function RunTxs(k: Hashes, full: seq<Tx>, refs: seq<u64>, start: TxRun): TxRun
  {
    if refs == [] then start
    else TxStep(k, full, |refs| - 1, refs[|refs| - 1], RunTxs(k, full, refs[..|refs| - 1], start))
  }

  /** Keys of the new items that carry all their proofs, and the last complaint about the others. */
  function NewKeys(k: Hashes, items: seq<Item>): seq<u64>
  {
    if items == [] then []
    else
      var i := items[|items| - 1];
      NewKeys(k, items[..|items| - 1]) + (if HasAllCells(i) then [k.blob(i.commitment)] else [])
  }

  function ItemError(items: seq<Item>, before: Option<Error>): Option<Error>
  {
    if items == [] then before
    else
      var i := items[|items| - 1];
      if HasAllCells(i) then ItemError(items[..|items| - 1], before)
      else Some(InvalidBlobProofs(|items| - 1, |i.proof|))
  }

  datatype BlobRun = BlobRun(next: nat, out: Sidecar, stop: Option<Outcome>)

  function BlobStep(blobs: map<u64, Item>, newKeys: seq<u64>, index: nat, ref: u64, r: BlobRun): BlobRun
  {
    if r.stop.Some? then r
    else if ref == NEXT_FULL_ITEM && r.next >= |newKeys| then r.(stop := Some(Failed(MissingNewBlob(index))))
    else
      var key := if ref == NEXT_FULL_ITEM then newKeys[r.next] else ref;
      var next := if ref == NEXT_FULL_ITEM then r.next + 1 else r.next;
      if key !in blobs then r.(stop := Some(Failed(UnknownBlobHash(key, index))))
      else if |r.out.commitments| >= MAX_BLOB_COMMITMENTS_PER_BLOCK then r.(stop := Some(Panicked))
      else
        var i := blobs[key];
        BlobRun(next, Sidecar(r.out.commitments + [i.commitment], r.out.proofs + i.proof, r.out.blobs + [i.blob]), None)
  }

  function RunBlobs(blobs: map<u64, Item>, newKeys: seq<u64>, refs: seq<u64>): BlobRun
  {
    if refs == [] then BlobRun(0, Sidecar([], [], []), None)
    else BlobStep(blobs, newKeys, |refs| - 1, refs[|refs| - 1], RunBlobs(blobs, newKeys, refs[..|refs| - 1]))
  }

  function WithdrawalsOf(c: Cache, s: Submission): Withdrawals
  {
    if s.withdrawalsRef != 0 && s.withdrawalsRef in c.withdrawals then c.withdrawals[s.withdrawalsRef].0
    else s.withdrawals
  }

  function WithdrawalsError(c: Cache, s: Submission): Option<Error>
  {
    if s.withdrawalsRef != 0 && s.withdrawalsRef !in c.withdrawals then Some(UnknownWithdrawals(s.withdrawalsRef))
    else None
  }

  function StartTxs(c: Cache, s: Submission): TxRun
  {
    TxRun(0, [], c.txs, WithdrawalsError(c, s), 0)
  }

  function FinishBlobs(k: Hashes, c: Cache, s: Submission, r: TxRun, blobs: map<u64, Item>): Outcome
  {
    var b := RunBlobs(blobs, NewKeys(k, s.newItems), s.blobRefs);
    if b.stop.Some? then b.stop.value
    else
      var hits := if |s.blobRefs| < |s.newItems| then 0 else |s.blobRefs| - |s.newItems|;
      Done(Hydrated(r.out, WithdrawalsOf(c, s), b.out, r.hits, hits))
  }

  function Hydrate(k: Hashes, c: Cache, s: Submission, maxBlobs: nat): (Cache, Outcome)
  {
    var r := RunTxs(k, s.txs, s.txRefs, StartTxs(c, s));
    var ws := FeedWithdrawals(k, c.withdrawals, s);
    if |r.out| > MAX_TRANSACTIONS_PER_PAYLOAD then (Cache(r.txs, c.blobs, ws), Failed(TooManyTxs))
    else
      var blobs := FeedBlobs(k, c.blobs, s.newItems);
      var error :=
        if |s.blobRefs| > maxBlobs then Some(TooManyBlobs(|s.blobRefs|, maxBlobs)) else ItemError(s.newItems, r.error);
      (Cache(r.txs, blobs, ws), if error.Some? then Failed(error.value) else FinishBlobs(k, c, s, r, blobs))
  }

  // ---------------------------------------------------------------- the precheck

  function NextFullRefs(refs: seq<u64>): nat
  {
    if refs == [] then 0 else NextFullRefs(refs[..|refs| - 1]) + (if refs[|refs| - 1] == NEXT_FULL_ITEM then 1 else 0)
  }

  predicate ValidSszLengths(s: Submission)
  {
    && |s.extraData| <= MAX_EXTRA_DATA_BYTES
    && (forall i :: 0 <= i < |s.txs| ==> |s.txs[i]| <= MAX_BYTES_PER_TRANSACTION)
    && |s.txs| <= MAX_TRANSACTIONS_PER_PAYLOAD
  }

  predicate IsNew(k: Hashes, items: seq<Item>, ref: u64)
  {
    exists i :: 0 <= i < |items| && k.blob(items[i].commitment) == ref
  }

  predicate BlobKnown(k: Hashes, c: Cache, items: seq<Item>, ref: u64)
  {
    ref == NEXT_FULL_ITEM || IsNew(k, items, ref) || (ref in c.blobs && HasAllCells(c.blobs[ref]))
  }

  predicate CanHydrate(k: Hashes, c: Cache, s: Submission, maxBlobs: nat)
  {
    && |s.txRefs| <= MAX_TRANSACTIONS_PER_PAYLOAD
    && |s.blobRefs| <= maxBlobs
    && ValidSszLengths(s)
    && (s.withdrawalsRef == 0 || s.withdrawalsRef in c.withdrawals)
    && (forall i :: 0 <= i < |s.txs| ==> |s.txs[i]| >= TX_KEY_SIZE)
    && NextFullRefs(s.txRefs) <= |s.txs|
    && (forall i :: 0 <= i < |s.txRefs| ==> s.txRefs[i] == NEXT_FULL_ITEM || s.txRefs[i] in c.txs)
    && (forall i :: 0 <= i < |s.newItems| ==> HasAllCells(s.newItems[i]))
    && NextFullRefs(s.blobRefs) <= |s.newItems|
    && (forall i :: 0 <= i < |s.blobRefs| ==> BlobKnown(k, c, s.newItems, s.blobRefs[i]))
  }
}
