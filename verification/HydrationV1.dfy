/**
 * The first wire shape of a dehydrated submission, where a transaction of eight bytes is read as
 * the key of a cached one, and its conversion to the relay's form.
 */
module HydrationV1 {
  import opened Bytes
  import opened Hydration
  import opened HydrationRoundTrip

  const KEY_BYTES: nat := 8

  datatype SubmissionV1 = SubmissionV1(
    builder: Pubkey, extraData: seq<byte>, txs: seq<Tx>, withdrawals: Withdrawals,
    commitments: seq<Commitment>, newItems: seq<Item>)

  function RefsIn(txs: seq<Tx>): seq<u64>
  {
    if txs == [] then []
    else
      var tx := txs[|txs| - 1];
      RefsIn(txs[..|txs| - 1]) + [if |tx| == KEY_BYTES then KeyIn(tx) else NEXT_FULL_ITEM]
  }

  function KeyIn(tx: Tx): (key: u64)
    requires |tx| == KEY_BYTES
    ensures ToLe(key, KEY_BYTES) == tx
  {
    FromLeBound(tx);
    Pow256Word();
    LeBytesRoundTrip(tx);
    FromLe(tx)
  }

  function FullIn(txs: seq<Tx>): seq<Tx>
  {
    if txs == [] then []
    else
      var tx := txs[|txs| - 1];
      FullIn(txs[..|txs| - 1]) + (if |tx| == KEY_BYTES then [] else [tx])
  }

  function CommitmentKeys(k: Hashes, commitments: seq<Commitment>): seq<u64>
  {
    seq<u64>(|commitments|, i requires 0 <= i < |commitments| => k.blob(commitments[i]))
  }

  function Upgrade(k: Hashes, v: SubmissionV1): Submission
  {
    Submission(v.builder, v.extraData, FullIn(v.txs), RefsIn(v.txs), v.withdrawals, 0,
               CommitmentKeys(k, v.commitments), v.newItems)
  }

  /** One pass over the transactions: keys become refs, full transactions move to the front. */
  method FromV1(k: Hashes, v: SubmissionV1) returns (s: Submission)
    ensures s == Upgrade(k, v)
  {
    var refs: seq<u64>, full: seq<Tx> := [], [];
    for i := 0 to |v.txs|
      invariant refs == RefsIn(v.txs[..i]) && full == FullIn(v.txs[..i])
    {
      assert v.txs[..i + 1][..i] == v.txs[..i];
      var tx := v.txs[i];
      if |tx| == KEY_BYTES {
        refs := refs + [KeyIn(tx)];
      } else {
        refs, full := refs + [NEXT_FULL_ITEM], full + [tx];
      }
    }
    assert v.txs[..|v.txs|] == v.txs;
    var blobRefs: seq<u64> := [];
    for i := 0 to |v.commitments|
      invariant blobRefs == CommitmentKeys(k, v.commitments)[..i]
    {
      blobRefs := blobRefs + [k.blob(v.commitments[i])];
    }
    s := Submission(v.builder, v.extraData, full, refs, v.withdrawals, 0, blobRefs, v.newItems);
  }

  // ---------------------------------------------------------------- what a builder sends

  function KeysInline(k: Hashes, txs: seq<Tx>, byKey: seq<bool>): seq<Tx>
    requires |txs| == |byKey| && Keyable(txs, byKey)
  {
    if txs == [] then []
    else
      var n := |txs| - 1;
      KeysInline(k, txs[..n], byKey[..n]) + [if byKey[n] then ToLe(TxKey(k, txs[n]), KEY_BYTES) else txs[n]]
  }

  function Commitments(items: seq<Item>): seq<Commitment>
  {
    seq(|items|, i requires 0 <= i < |items| => items[i].commitment)
  }

  function DehydrateV1(k: Hashes, b: Block, ch: Choice, builder: Pubkey, extraData: seq<byte>): SubmissionV1
    requires Fits(b, ch)
  {
    SubmissionV1(builder, extraData, KeysInline(k, b.txs, ch.txs), b.withdrawals,
                 Commitments(b.blobs), InFull(b.blobs, ch.blobs))
  }

  /** No transaction sent in full is as long as a key. */
  predicate NoneLooksLikeAKey(txs: seq<Tx>, byKey: seq<bool>)
    requires |txs| == |byKey|
  {
    forall i :: 0 <= i < |txs| && !byKey[i] ==> |txs[i]| != KEY_BYTES
  }

  lemma FullNext(k: Hashes, txs: seq<Tx>, byKey: seq<bool>, n: nat)
    requires |txs| == |byKey| == n + 1 && Keyable(txs, byKey)
    ensures FullIn(KeysInline(k, txs, byKey))
         == FullIn(KeysInline(k, txs[..n], byKey[..n])) + (if byKey[n] || |txs[n]| == KEY_BYTES then [] else [txs[n]])
    ensures InFull(txs, byKey) == InFull(txs[..n], byKey[..n]) + (if byKey[n] then [] else [txs[n]])
  {
    var before, sent := KeysInline(k, txs[..n], byKey[..n]), KeysInline(k, txs, byKey);
    assert sent[..|sent| - 1] == before;
  }

  lemma {:induction false} FullComesBack(k: Hashes, txs: seq<Tx>, byKey: seq<bool>)
    requires |txs| == |byKey| && Keyable(txs, byKey) && NoneLooksLikeAKey(txs, byKey)
    ensures FullIn(KeysInline(k, txs, byKey)) == InFull(txs, byKey)
  {
    if txs != [] {
      var n := |txs| - 1;
      FullComesBack(k, txs[..n], byKey[..n]);
      FullNext(k, txs, byKey, n);
    }
  }

  lemma {:induction false} FullIsNoLonger(k: Hashes, txs: seq<Tx>, byKey: seq<bool>)
    requires |txs| == |byKey| && Keyable(txs, byKey)
    ensures |FullIn(KeysInline(k, txs, byKey))| <= |InFull(txs, byKey)|
  {
    if txs != [] {
      var n := |txs| - 1;
      FullIsNoLonger(k, txs[..n], byKey[..n]);
      FullNext(k, txs, byKey, n);
    }
  }

  lemma {:induction false} FullIsShorter(k: Hashes, txs: seq<Tx>, byKey: seq<bool>, i: nat)
    requires |txs| == |byKey| && Keyable(txs, byKey)
    requires i < |txs| && !byKey[i] && |txs[i]| == KEY_BYTES
    ensures |FullIn(KeysInline(k, txs, byKey))| < |InFull(txs, byKey)|
  {
    var n := |txs| - 1;
    FullNext(k, txs, byKey, n);
    if i < n {
      FullIsShorter(k, txs[..n], byKey[..n], i);
    } else {
      FullIsNoLonger(k, txs[..n], byKey[..n]);
    }
  }

  lemma {:induction false} RefsComeBack(k: Hashes, txs: seq<Tx>, byKey: seq<bool>)
    requires |txs| == |byKey| && Keyable(txs, byKey) && NoneLooksLikeAKey(txs, byKey)
    ensures RefsIn(KeysInline(k, txs, byKey)) == TxRefs(k, txs, byKey)
  {
    if txs != [] {
      var n := |txs| - 1;
      RefsComeBack(k, txs[..n], byKey[..n]);
      var sent := KeysInline(k, txs, byKey);
      assert sent[..|sent| - 1] == KeysInline(k, txs[..n], byKey[..n]);
      if byKey[n] { Pow256Word(); LeRoundTrip(TxKey(k, txs[n]), KEY_BYTES); }
    }
  }

  lemma {:induction false} BlobRefsInline(k: Hashes, items: seq<Item>, byKey: seq<bool>)
    requires |items| == |byKey|
    ensures BlobRefs(k, items, byKey, true) == CommitmentKeys(k, Commitments(items))
  {
    if items != [] {
      var n := |items| - 1;
      BlobRefsInline(k, items[..n], byKey[..n]);
      assert Commitments(items) == Commitments(items[..n]) + [items[n].commitment];
    }
  }

  /** The conversion reads back what the builder meant exactly when no full transaction is eight
      bytes long. */
  lemma UpgradeIsFaithful(k: Hashes, b: Block, ch: Choice, builder: Pubkey, extraData: seq<byte>)
    requires Fits(b, ch) && !ch.withdrawals
    ensures Dehydrates(k, b, ch, true, Upgrade(k, DehydrateV1(k, b, ch, builder, extraData)))
       <==> NoneLooksLikeAKey(b.txs, ch.txs)
  {
    if NoneLooksLikeAKey(b.txs, ch.txs) {
      FullComesBack(k, b.txs, ch.txs);
      RefsComeBack(k, b.txs, ch.txs);
    } else {
      var i :| 0 <= i < |b.txs| && !ch.txs[i] && |b.txs[i]| == KEY_BYTES;
      FullIsShorter(k, b.txs, ch.txs, i);
    }
    BlobRefsInline(k, b.blobs, ch.blobs);
  }

  /** The first wire shape round-trips: what the relay hydrates is the builder's block. */
  lemma V1RoundTrip(
    k: Hashes, c: Cache, b: Block, ch: Choice, builder: Pubkey, extraData: seq<byte>, maxBlobs: nat)
    requires Fits(b, ch) && !ch.withdrawals && Known(k, c, b, ch, true)
    requires NoneLooksLikeAKey(b.txs, ch.txs)
    requires Hydrate(k, c, Upgrade(k, DehydrateV1(k, b, ch, builder, extraData)), maxBlobs).1.Done?
    ensures var h := Hydrate(k, c, Upgrade(k, DehydrateV1(k, b, ch, builder, extraData)), maxBlobs).1.data;
            h.txs == b.txs && h.withdrawals == b.withdrawals && h.sidecar == SidecarOf(b.blobs)
  {
    UpgradeIsFaithful(k, b, ch, builder, extraData);
    HydrateRoundTrip(k, c, b, ch, true, Upgrade(k, DehydrateV1(k, b, ch, builder, extraData)), maxBlobs);
  }

  lemma OneTxInline(k: Hashes, e: Tx)
    requires |e| == KEY_BYTES
    ensures KeysInline(k, [e], [false]) == [e] && RefsIn([e]) == [KeyIn(e)] && FullIn([e]) == []
  {
    assert [e][..0] == [] && [false][..0] == [];
  }

  lemma OneRef(k: Hashes, c: Cache, s: Submission, key: u64)
    requires s.txRefs == [key] && s.txs == [] && s.blobRefs == [] && s.newItems == [] && s.withdrawalsRef == 0
    requires key != NEXT_FULL_ITEM && key in c.txs
    ensures Hydrate(k, c, s, 0).1.Done? && Hydrate(k, c, s, 0).1.data.txs == [c.txs[key]]
  {
    assert s.txRefs[..0] == [];
    assert RunTxs(k, s.txs, s.txRefs[..0], StartTxs(c, s)) == StartTxs(c, s);
  }

  /** A full transaction that spells the key of a cached one is replaced by it. */
  lemma EightBytesAreReplaced(k: Hashes, cached: Tx, builder: Pubkey)
    requires |cached| >= TX_KEY_SIZE && TxKey(k, cached) != 0
    ensures var b := Block([ToLe(TxKey(k, cached), KEY_BYTES)], [], []);
            var c := EmptyCache.(txs := map[TxKey(k, cached) := cached]);
            var h := Hydrate(k, c, Upgrade(k, DehydrateV1(k, b, Choice([false], [], false), builder, [])), 0).1;
            h.Done? && h.data.txs == [cached] && h.data.txs != b.txs
  {
    var key := TxKey(k, cached);
    var e := ToLe(key, KEY_BYTES);
    Pow256Word();
    LeRoundTrip(key, KEY_BYTES);
    OneTxInline(k, e);
    var s := Upgrade(k, DehydrateV1(k, Block([e], [], []), Choice([false], [], false), builder, []));
    OneRef(k, EmptyCache.(txs := map[key := cached]), s, key);
  }
}
