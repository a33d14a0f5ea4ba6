/**
 * Transaction and withdrawal list roots of an execution payload
 * (crates/types/src/execution_payload.rs:141-170, 239-264). The node hash is any function on
 * 32-byte chunks.
 */
module PayloadRoots {
  import opened Bytes
  import opened Merkle
  import opened MerkleBatch

  type Chunk = seq<byte>

  const TRANSACTION_DEPTH: nat := 25
  const TRANSACTIONS_DEPTH: nat := 20
  const WITHDRAWALS_DEPTH: nat := 4

  const ZERO_CHUNK: Chunk :=
    [0, 0, 0, 0, 0, 0, 0, 0, 0, 0, 0, 0, 0, 0, 0, 0, 0, 0, 0, 0, 0, 0, 0, 0, 0, 0, 0, 0, 0, 0, 0, 0]

  // ---------------------------------------------------------------- hash_tree_root, as specified

  /** The bytes, right-padded with zero bytes to 32. */
  function PadChunk(b: seq<byte>): Chunk
    requires |b| <= 32
  {
    Pad(b, 0, 32)
  }

  function PackChunks(b: seq<byte>): (r: seq<Chunk>)
    ensures |r| == (|b| + 31) / 32
  {
    if b == [] then []
    else if |b| <= 32 then [PadChunk(b)]
    else [PadChunk(b[..32])] + PackChunks(b[32..])
  }

  function Uint64Chunk(n: nat): Chunk { PadChunk(ToLe(n, 8)) }

  function MixInLength(h: (Chunk, Chunk) -> Chunk, root: Chunk, n: nat): Chunk
  {
    h(root, Uint64Chunk(n))
  }

  lemma Limits()
    ensures Pow2(WITHDRAWALS_DEPTH) == MAX_WITHDRAWALS_PER_PAYLOAD
    ensures Pow2(TRANSACTIONS_DEPTH) == MAX_TRANSACTIONS_PER_PAYLOAD
    ensures Pow2(TRANSACTION_DEPTH) * 32 == MAX_BYTES_PER_TRANSACTION
  {
    assert Pow2(1) == 0x2;
    assert Pow2(2) == 0x4;
    assert Pow2(3) == 0x8;
    assert Pow2(4) == 0x10;
    assert Pow2(5) == 0x20;
    assert Pow2(6) == 0x40;
    assert Pow2(7) == 0x80;
    assert Pow2(8) == 0x100;
    assert Pow2(9) == 0x200;
    assert Pow2(10) == 0x400;
    assert Pow2(11) == 0x800;
    assert Pow2(12) == 0x1000;
    assert Pow2(13) == 0x2000;
    assert Pow2(14) == 0x4000;
    assert Pow2(15) == 0x8000;
    assert Pow2(16) == 0x10000;
    assert Pow2(17) == 0x20000;
    assert Pow2(18) == 0x40000;
    assert Pow2(19) == 0x80000;
    assert Pow2(20) == 0x100000;
    assert Pow2(21) == 0x200000;
    assert Pow2(22) == 0x400000;
    assert Pow2(23) == 0x800000;
    assert Pow2(24) == 0x1000000;
    assert Pow2(25) == 0x2000000;
  }

  lemma PackFits(tx: seq<byte>)
    requires |tx| <= MAX_BYTES_PER_TRANSACTION
    ensures |PackChunks(tx)| <= Pow2(TRANSACTION_DEPTH)
  {
    Limits();
  }

  /** hash_tree_root of `ByteList[MAX_BYTES_PER_TRANSACTION]`. */
  function TxRoot(h: (Chunk, Chunk) -> Chunk, tx: seq<byte>): Chunk
    requires |tx| <= MAX_BYTES_PER_TRANSACTION
  {
    PackFits(tx);
    MixInLength(h, Merkleize(h, ZERO_CHUNK, PackChunks(tx), TRANSACTION_DEPTH), |tx|)
  }

  ghost predicate WithinSszLimits(txs: seq<seq<byte>>)
  {
    |txs| <= MAX_TRANSACTIONS_PER_PAYLOAD && forall i :: 0 <= i < |txs| ==> |txs[i]| <= MAX_BYTES_PER_TRANSACTION
  }

  ghost function TxRoots(h: (Chunk, Chunk) -> Chunk, txs: seq<seq<byte>>): seq<Chunk>
    requires WithinSszLimits(txs)
  {
    seq(|txs|, i requires 0 <= i < |txs| => TxRoot(h, txs[i]))
  }

  /** hash_tree_root of `List[ByteList[..], MAX_TRANSACTIONS_PER_PAYLOAD]`. */
  ghost function TransactionsRoot(h: (Chunk, Chunk) -> Chunk, txs: seq<seq<byte>>): Chunk
    requires WithinSszLimits(txs)
  {
    Limits();
    MixInLength(h, Merkleize(h, ZERO_CHUNK, TxRoots(h, txs), TRANSACTIONS_DEPTH), |txs|)
  }

  // ---------------------------------------------------------------- transaction_root

  /** The leaves of a transaction's tree: an empty transaction is one zero chunk. */
  function LeafChunks(tx: seq<byte>): (r: seq<Chunk>)
    ensures |r| > 0
  {
    if tx == [] then [ZERO_CHUNK] else PackChunks(tx)
  }

  /** The zero chunk that stands for an empty transaction is what it would be padded with. */
  lemma EmptyLeaf(h: (Chunk, Chunk) -> Chunk, depth: nat)
    ensures Merkleize(h, ZERO_CHUNK, [ZERO_CHUNK], depth) == Merkleize(h, ZERO_CHUNK, [], depth)
  {
    assert Pad([ZERO_CHUNK], ZERO_CHUNK, Pow2(depth)) == Pad([], ZERO_CHUNK, Pow2(depth));
  }

  ghost function Trees<T>(items: seq<T>, leaf: T -> seq<Chunk>): seq<seq<Chunk>>
  {
    seq(|items|, i requires 0 <= i < |items| => leaf(items[i]))
  }

  ghost function LeafTrees(txs: seq<seq<byte>>): seq<seq<Chunk>> { Trees(txs, LeafChunks) }

  /** Packs every item into its leaf chunks, each tree padded to an even count. */
  method PackAll<T>(items: seq<T>, leaf: T -> seq<Chunk>) returns (buf: seq<Chunk>, leaves: seq<nat>, ghost pairs: nat)
    requires forall i :: 0 <= i < |items| ==> |leaf(items[i])| > 0
    ensures buf == Flat(AllEven(Trees(items, leaf), ZERO_CHUNK))
    ensures |leaves| == |items| && forall i :: 0 <= i < |items| ==> leaves[i] == |leaf(items[i])|
    ensures |buf| == 2 * pairs && pairs >= |items|
  {
    buf, leaves, pairs := [], [], 0;
    ghost var even := AllEven(Trees(items, leaf), ZERO_CHUNK);
    for i := 0 to |items|
      invariant buf == Flat(even[..i])
      invariant |buf| == 2 * pairs && pairs >= i
      invariant |leaves| == i && forall j :: 0 <= j < i ==> leaves[j] == |leaf(items[j])|
    {
      var chunks := leaf(items[i]);
      FlatNext(even, i);
      buf, leaves, pairs := buf + EvenPad(chunks, ZERO_CHUNK), leaves + [|chunks|], pairs + Half(|chunks|);
    }
    assert even[..|items|] == even;
  }

  lemma TreesFit(txs: seq<seq<byte>>)
    requires WithinSszLimits(txs)
    ensures WithinDepth(LeafTrees(txs), TRANSACTION_DEPTH)
  {
    Limits();
    forall i | 0 <= i < |txs|
      ensures 0 < |LeafTrees(txs)[i]| <= Pow2(TRANSACTION_DEPTH)
    {
      assert LeafTrees(txs)[i] == LeafChunks(txs[i]);
      PackFits(txs[i]);
    }
  }

  lemma LeafRoot(h: (Chunk, Chunk) -> Chunk, tx: seq<byte>)
    requires |tx| <= MAX_BYTES_PER_TRANSACTION
    ensures |LeafChunks(tx)| <= Pow2(TRANSACTION_DEPTH)
    ensures TxRoot(h, tx) == MixInLength(h, Merkleize(h, ZERO_CHUNK, LeafChunks(tx), TRANSACTION_DEPTH), |tx|)
  {
    Limits();
    PackFits(tx);
    EmptyLeaf(h, TRANSACTION_DEPTH);
  }

  /** Interleaves tree roots with lengths and hashes each pair. */
  method MixInLengths(
    h: (Chunk, Chunk) -> Chunk, txs: seq<seq<byte>>, pairs: array<Chunk>, nodes: array<Chunk>, ghost roots: seq<Chunk>)
    requires pairs != nodes && 2 * |txs| <= pairs.Length && |txs| <= nodes.Length
    requires nodes[..|txs|] == roots
    modifies pairs, nodes
    ensures forall i :: 0 <= i < |txs| ==> nodes[i] == MixInLength(h, roots[i], |txs[i]|)
  {
    for i := 0 to |txs|
      invariant nodes[..|txs|] == roots
      invariant forall j :: 0 <= j < i ==> pairs[2 * j] == roots[j]
      invariant forall j :: 0 <= j < i ==> pairs[2 * j + 1] == Uint64Chunk(|txs[j]|)
    {
      pairs[2 * i] := nodes[i];
      pairs[2 * i + 1] := Uint64Chunk(|txs[i]|);
    }
    HashConcatMany(h, nodes, |txs|, pairs);
    forall i | 0 <= i < |txs|
      ensures nodes[i] == MixInLength(h, roots[i], |txs[i]|)
    {
      assert nodes[..|txs|][i] == h(pairs[2 * i], pairs[2 * i + 1]);
    }
  }

  lemma MixedAreTxRoots(h: (Chunk, Chunk) -> Chunk, txs: seq<seq<byte>>, nodes: seq<Chunk>)
    requires WithinSszLimits(txs) && WithinDepth(LeafTrees(txs), TRANSACTION_DEPTH) && |nodes| == |txs|
    requires forall i :: 0 <= i < |txs| ==>
      nodes[i] == MixInLength(h, Roots(h, ZERO_CHUNK, LeafTrees(txs), TRANSACTION_DEPTH)[i], |txs[i]|)
    ensures nodes == TxRoots(h, txs)
  {
    forall i | 0 <= i < |txs|
      ensures nodes[i] == TxRoots(h, txs)[i]
    {
      LeafRoot(h, txs[i]);
    }
  }

  /** Roots of one tree laid out at the start of `pairs`. */
  method RootOfList(
    h: (Chunk, Chunk) -> Chunk, pairs: array<Chunk>, nodes: array<Chunk>, n: nat, depth: nat, ghost chunks: seq<Chunk>)
    requires pairs != nodes && depth > 0 && 0 < n == |chunks| <= Pow2(depth)
    requires 2 * Half(n) <= pairs.Length && Half(n) <= nodes.Length
    requires pairs[..n] == chunks && (n % 2 == 1 ==> pairs[n] == ZERO_CHUNK)
    modifies pairs, nodes
    ensures nodes.Length > 0 && nodes[0] == Merkleize(h, ZERO_CHUNK, chunks, depth)
  {
    ghost var trees := [chunks];
    assert pairs[..2 * Half(n)] == EvenPad(chunks, ZERO_CHUNK);
    assert AllEven(trees, ZERO_CHUNK) == [EvenPad(chunks, ZERO_CHUNK)];
    FlatSnoc([], EvenPad(chunks, ZERO_CHUNK));
    assert [] + [EvenPad(chunks, ZERO_CHUNK)] == [EvenPad(chunks, ZERO_CHUNK)];
    MerkleizeTrees(h, ZERO_CHUNK, pairs, nodes, 2 * Half(n), [n], depth, trees);
    assert nodes[..1][0] == nodes[0];
  }

  /** The tree roots of all transactions, before their lengths are mixed in. */
  method HashTrees(h: (Chunk, Chunk) -> Chunk, txs: seq<seq<byte>>) returns (pairs: array<Chunk>, nodes: array<Chunk>)
    requires WithinDepth(LeafTrees(txs), TRANSACTION_DEPTH)
    ensures fresh(pairs) && fresh(nodes) && pairs != nodes
    ensures 2 * |txs| <= pairs.Length && |txs| <= nodes.Length
    ensures nodes[..|txs|] == Roots(h, ZERO_CHUNK, LeafTrees(txs), TRANSACTION_DEPTH)
  {
    var buf, leaves, _ := PackAll(txs, LeafChunks);
    pairs := new Chunk[|buf|](i requires 0 <= i < |buf| => buf[i]);
    nodes := new Chunk[|buf| / 2](_ => ZERO_CHUNK);
    assert pairs[..|buf|] == buf;
    MerkleizeTrees(h, ZERO_CHUNK, pairs, nodes, |buf|, leaves, TRANSACTION_DEPTH, LeafTrees(txs));
  }

  /** The roots of all transactions, and the buffers they were computed in. */
  method HashTransactions(
    h: (Chunk, Chunk) -> Chunk, txs: seq<seq<byte>>) returns (pairs: array<Chunk>, nodes: array<Chunk>)
    requires WithinSszLimits(txs)
    ensures fresh(pairs) && fresh(nodes) && pairs != nodes
    ensures 2 * |txs| <= pairs.Length && |txs| <= nodes.Length && nodes[..|txs|] == TxRoots(h, txs)
  {
    TreesFit(txs);
    pairs, nodes := HashTrees(h, txs);
    MixInLengths(h, txs, pairs, nodes, Roots(h, ZERO_CHUNK, LeafTrees(txs), TRANSACTION_DEPTH));
    MixedAreTxRoots(h, txs, nodes[..|txs|]);
  }

  /** The payload's transactions root is the specified root of the list, for every list within the limits. */
  method TransactionRoot(h: (Chunk, Chunk) -> Chunk, txs: seq<seq<byte>>) returns (root: Chunk)
    requires WithinSszLimits(txs)
    ensures root == TransactionsRoot(h, txs)
  {
    var n := |txs|;
    Limits();
    if n == 0 {
      EmptyRoot(h, ZERO_CHUNK, TRANSACTIONS_DEPTH);
      assert TxRoots(h, txs) == [];
      return MixInLength(h, ZeroHash(h, ZERO_CHUNK, TRANSACTIONS_DEPTH), 0);
    }
    var pairs, nodes := HashTransactions(h, txs);
    CopyFromSlice(pairs, 0, nodes, 0, n);
    pairs[n] := ZERO_CHUNK;
    RootOfList(h, pairs, nodes, n, TRANSACTIONS_DEPTH, TxRoots(h, txs));
    root := MixInLength(h, nodes[0], n);
  }

  // ---------------------------------------------------------------- withdrawals_root_of

  predicate WellFormed(w: Withdrawal) { |w.address| == 20 }

  function Fields(w: Withdrawal): (r: seq<Chunk>)
    requires WellFormed(w)
    ensures |r| == 4
  {
    [Uint64Chunk(w.index), Uint64Chunk(w.validatorIndex), PadChunk(w.address), Uint64Chunk(w.amount)]
  }

  /** hash_tree_root of the four-field container. */
  function WithdrawalRoot(h: (Chunk, Chunk) -> Chunk, w: Withdrawal): Chunk
    requires WellFormed(w)
  {
    assert Pow2(2) == 4 by { assert Pow2(1) == 2; }
    Merkleize(h, ZERO_CHUNK, Fields(w), 2)
  }

  ghost function WithdrawalRoots(h: (Chunk, Chunk) -> Chunk, ws: seq<Withdrawal>): seq<Chunk>
    requires forall i :: 0 <= i < |ws| ==> WellFormed(ws[i])
  {
    seq(|ws|, i requires 0 <= i < |ws| => WithdrawalRoot(h, ws[i]))
  }

  /** hash_tree_root of `List[Withdrawal, 16]`. */
  ghost function WithdrawalsRoot(h: (Chunk, Chunk) -> Chunk, ws: seq<Withdrawal>): Chunk
    requires |ws| <= MAX_WITHDRAWALS_PER_PAYLOAD && forall i :: 0 <= i < |ws| ==> WellFormed(ws[i])
  {
    Limits();
    MixInLength(h, Merkleize(h, ZERO_CHUNK, WithdrawalRoots(h, ws), WITHDRAWALS_DEPTH), |ws|)
  }

  lemma FourLeaves(h: (Chunk, Chunk) -> Chunk, a: Chunk, b: Chunk, c: Chunk, d: Chunk)
    ensures Pow2(2) == 4 && Merkleize(h, ZERO_CHUNK, [a, b, c, d], 2) == h(h(a, b), h(c, d))
  {
    var xs := [a, b, c, d];
    assert Pow2(1) == 2;
    assert Pad(xs, ZERO_CHUNK, 4) == xs;
    LayerRoot(h, xs, 2);
    assert Layer(h, xs, 2) == [h(a, b), h(c, d)];
    PairRoot(h, [h(a, b), h(c, d)]);
  }

  /** Four chunks per withdrawal, one after the other. */
  method LayFields(ws: seq<Withdrawal>) returns (leaves: array<Chunk>)
    requires forall i :: 0 <= i < |ws| ==> WellFormed(ws[i])
    ensures fresh(leaves) && leaves.Length == 4 * |ws|
    ensures forall j :: 0 <= j < |ws| ==> leaves[4 * j..4 * j + 4] == Fields(ws[j])
  {
    leaves := new Chunk[4 * |ws|](_ => ZERO_CHUNK);
    for i := 0 to |ws|
      invariant forall j :: 0 <= j < i ==> leaves[4 * j..4 * j + 4] == Fields(ws[j])
    {
      leaves[4 * i] := Uint64Chunk(ws[i].index);
      leaves[4 * i + 1] := Uint64Chunk(ws[i].validatorIndex);
      leaves[4 * i + 2] := PadChunk(ws[i].address);
      leaves[4 * i + 3] := Uint64Chunk(ws[i].amount);
      assert leaves[4 * i..4 * i + 4] == Fields(ws[i]);
    }
  }

  lemma LayerAt(h: (Chunk, Chunk) -> Chunk, xs: seq<Chunk>, n: nat, i: nat, j: nat)
    requires |xs| == 2 * n && i < n && j == 2 * i
    ensures Layer(h, xs, n)[i] == h(xs[j], xs[j + 1])
  {
  }

  lemma TwoLayers(h: (Chunk, Chunk) -> Chunk, xs: seq<Chunk>, n: nat, i: nat)
    requires |xs| == 4 * n && i < n
    ensures Layer(h, Layer(h, xs, 2 * n), n)[i] == h(h(xs[4 * i], xs[4 * i + 1]), h(xs[4 * i + 2], xs[4 * i + 3]))
  {
    LayerAt(h, xs, 2 * n, 2 * i, 4 * i);
    LayerAt(h, xs, 2 * n, 2 * i + 1, 4 * i + 2);
    LayerAt(h, Layer(h, xs, 2 * n), n, i, 2 * i);
  }

  lemma TwoLayersRoot(h: (Chunk, Chunk) -> Chunk, ws: seq<Withdrawal>, xs: seq<Chunk>, i: nat)
    requires |xs| == 4 * |ws| && i < |ws| && WellFormed(ws[i]) && xs[4 * i..4 * i + 4] == Fields(ws[i])
    ensures Layer(h, Layer(h, xs, 2 * |ws|), |ws|)[i] == WithdrawalRoot(h, ws[i])
  {
    TwoLayers(h, xs, |ws|, i);
    var f := Fields(ws[i]);
    assert f == [f[0], f[1], f[2], f[3]];
    FourLeaves(h, f[0], f[1], f[2], f[3]);
    assert f[0] == xs[4 * i] && f[1] == xs[4 * i + 1] && f[2] == xs[4 * i + 2] && f[3] == xs[4 * i + 3];
  }

  /** Roots of the withdrawals at the start of `pairs`, what was there after them. */
  method HashWithdrawals(h: (Chunk, Chunk) -> Chunk, ws: seq<Withdrawal>, pairs: array<Chunk>, nodes: array<Chunk>)
    requires pairs != nodes && |ws| <= pairs.Length && 2 * |ws| <= nodes.Length
    requires forall i :: 0 <= i < |ws| ==> WellFormed(ws[i])
    modifies pairs, nodes
    ensures pairs[..|ws|] == WithdrawalRoots(h, ws)
    ensures forall i :: |ws| <= i < pairs.Length ==> pairs[i] == old(pairs[i])
  {
    var n := |ws|;
    var leaves := LayFields(ws);
    ghost var xs := leaves[..];
    assert leaves[..4 * n] == xs;
    HashConcatMany(h, nodes, 2 * n, leaves);
    assert nodes[..2 * n] == Layer(h, xs, 2 * n);
    HashConcatMany(h, pairs, n, nodes);
    forall i | 0 <= i < n
      ensures pairs[..n][i] == WithdrawalRoots(h, ws)[i]
    {
      assert xs[4 * i..4 * i + 4] == leaves[4 * i..4 * i + 4];
      TwoLayersRoot(h, ws, xs, i);
    }
  }

  /** The withdrawals root is the specified root of the bounded list. */
  method WithdrawalsRootOf(h: (Chunk, Chunk) -> Chunk, ws: seq<Withdrawal>) returns (root: Chunk)
    requires |ws| <= MAX_WITHDRAWALS_PER_PAYLOAD && forall i :: 0 <= i < |ws| ==> WellFormed(ws[i])
    ensures root == WithdrawalsRoot(h, ws)
  {
    var n := |ws|;
    Limits();
    if n == 0 {
      EmptyRoot(h, ZERO_CHUNK, WITHDRAWALS_DEPTH);
      assert WithdrawalRoots(h, ws) == [];
      return MixInLength(h, ZeroHash(h, ZERO_CHUNK, WITHDRAWALS_DEPTH), 0);
    }
    var nodes := new Chunk[2 * MAX_WITHDRAWALS_PER_PAYLOAD](_ => ZERO_CHUNK);
    var pairs := new Chunk[MAX_WITHDRAWALS_PER_PAYLOAD](_ => ZERO_CHUNK);
    HashWithdrawals(h, ws, pairs, nodes);
    RootOfList(h, pairs, nodes, n, WITHDRAWALS_DEPTH, WithdrawalRoots(h, ws));
    root := MixInLength(h, nodes[0], n);
  }
}
