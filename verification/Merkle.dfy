/**
 * Merkleization as the "Merkleization" section of the consensus specification's
 * ssz/simple-serialize.md defines it: pad the chunks with zero chunks to a power of two, then hash
 * the binary tree. The hash of two nodes is any function.
 */
module Merkle {
  function Pow2(n: nat): (p: nat)
    ensures p > 0
  {
    if n == 0 then 1 else 2 * Pow2(n - 1)
  }

  /** Root of a full binary tree. */
  function TreeRoot<D>(h: (D, D) -> D, leaves: seq<D>, depth: nat): D
    requires |leaves| == Pow2(depth)
  {
    if depth == 0 then leaves[0]
    else h(TreeRoot(h, leaves[..Pow2(depth - 1)], depth - 1), TreeRoot(h, leaves[Pow2(depth - 1)..], depth - 1))
  }

  function Pad<D>(xs: seq<D>, fill: D, size: nat): (r: seq<D>)
    requires |xs| <= size
    ensures |r| == size
  {
    xs + seq(size - |xs|, _ => fill)
  }

  /** merkleize(chunks, limit) for a limit of 2^depth chunks. */
  function Merkleize<D>(h: (D, D) -> D, zero: D, chunks: seq<D>, depth: nat): D
    requires |chunks| <= Pow2(depth)
  {
    TreeRoot(h, Pad(chunks, zero, Pow2(depth)), depth)
  }

  /** Root of a tree of zero chunks. */
  function ZeroHash<D>(h: (D, D) -> D, zero: D, level: nat): D
  {
    if level == 0 then zero else h(ZeroHash(h, zero, level - 1), ZeroHash(h, zero, level - 1))
  }

  // ---------------------------------------------------------------- one level at a time

  /** Hashes `n` adjacent pairs. */
  function Layer<D>(h: (D, D) -> D, xs: seq<D>, n: nat): (r: seq<D>)
    requires |xs| == 2 * n
    ensures |r| == n
  {
    seq(n, i requires 0 <= i < n => h(xs[2 * i], xs[2 * i + 1]))
  }

  lemma LayerSplit<D>(h: (D, D) -> D, xs: seq<D>, q: nat)
    requires |xs| == 4 * q
    ensures Layer(h, xs, 2 * q)[..q] == Layer(h, xs[..2 * q], q)
    ensures Layer(h, xs, 2 * q)[q..] == Layer(h, xs[2 * q..], q)
  {
  }

  lemma PairRoot<D>(h: (D, D) -> D, leaves: seq<D>)
    requires |leaves| == 2
    ensures Pow2(1) == 2 && TreeRoot(h, leaves, 1) == h(leaves[0], leaves[1])
  {
    assert Pow2(0) == 1;
    assert TreeRoot(h, leaves[..1], 0) == leaves[0] && TreeRoot(h, leaves[1..], 0) == leaves[1];
  }

  lemma JoinRoots<D>(h: (D, D) -> D, xs: seq<D>, ys: seq<D>, depth: nat)
    requires depth >= 2 && |xs| == Pow2(depth) && |ys| == Pow2(depth - 1)
    requires TreeRoot(h, xs[..Pow2(depth - 1)], depth - 1) == TreeRoot(h, ys[..Pow2(depth - 2)], depth - 2)
    requires TreeRoot(h, xs[Pow2(depth - 1)..], depth - 1) == TreeRoot(h, ys[Pow2(depth - 2)..], depth - 2)
    ensures TreeRoot(h, xs, depth) == TreeRoot(h, ys, depth - 1)
  {
  }

  lemma {:induction false} LayerRoot<D>(h: (D, D) -> D, leaves: seq<D>, depth: nat)
    requires depth > 0 && |leaves| == Pow2(depth)
    ensures TreeRoot(h, leaves, depth) == TreeRoot(h, Layer(h, leaves, Pow2(depth - 1)), depth - 1)
  {
    if depth == 1 {
      PairRoot(h, leaves);
    } else {
      var q := Pow2(depth - 2);
      LayerSplit(h, leaves, q);
      LayerRoot(h, leaves[..2 * q], depth - 1);
      LayerRoot(h, leaves[2 * q..], depth - 1);
      JoinRoots(h, leaves, Layer(h, leaves, 2 * q), depth);
    }
  }

  function Half(n: nat): nat { (n + 1) / 2 }

  /** An odd level gets one more node, so that every node has a partner. */
  function EvenPad<D>(xs: seq<D>, fill: D): (r: seq<D>)
    ensures |r| == 2 * Half(|xs|)
  {
    if |xs| % 2 == 1 then xs + [fill] else xs
  }

  /** The next level of an unpadded tree whose missing subtrees at this level have root `fill`. */
  function Up<D>(h: (D, D) -> D, xs: seq<D>, fill: D): (r: seq<D>)
    ensures |r| == Half(|xs|)
  {
    Layer(h, EvenPad(xs, fill), Half(|xs|))
  }

  /** Padding before a level is padding after it. */
  lemma PadUp<D>(h: (D, D) -> D, xs: seq<D>, fill: D, size: nat)
    requires |xs| <= 2 * size
    ensures |Up(h, xs, fill)| <= size
    ensures Layer(h, Pad(xs, fill, 2 * size), size) == Pad(Up(h, xs, fill), h(fill, fill), size)
  {
    var p := Pad(xs, fill, 2 * size);
    var a, b := Layer(h, p, size), Pad(Up(h, xs, fill), h(fill, fill), size);
    forall i | 0 <= i < size
      ensures a[i] == b[i]
    {
      assert a[i] == h(p[2 * i], p[2 * i + 1]);
      if i < |Up(h, xs, fill)| {
        assert b[i] == h(EvenPad(xs, fill)[2 * i], EvenPad(xs, fill)[2 * i + 1]);
      }
    }
  }

  /** One step up, with the fill hashed with itself, leaves the root alone. */
  lemma UpRoot<D>(h: (D, D) -> D, xs: seq<D>, fill: D, depth: nat)
    requires |xs| <= Pow2(depth + 1)
    ensures |Up(h, xs, fill)| <= Pow2(depth)
    ensures Merkleize(h, fill, xs, depth + 1) == Merkleize(h, h(fill, fill), Up(h, xs, fill), depth)
  {
    var size := Pow2(depth);
    LayerRoot(h, Pad(xs, fill, 2 * size), depth + 1);
    PadUp(h, xs, fill, size);
  }

  function DivCeil(n: nat, d: nat): nat
    requires d > 0
  {
    (n + d - 1) / d
  }

  lemma DivCeilUnique(n: nat, d: nat, q: nat)
    requires d > 0 && n <= q * d && (q > 0 ==> (q - 1) * d < n)
    ensures DivCeil(n, d) == q
  {
    var m := n + d - 1;
    if q == 0 {
      assert m < d;
    } else {
      assert (q - 1) * d + d == q * d;
      assert q * d <= m < q * d + d;
      DivUnique(m, d, q);
    }
  }

  lemma DivUnique(m: nat, d: nat, q: nat)
    requires d > 0 && q * d <= m < q * d + d
    ensures m / d == q
  {
    var e := m / d;
    assert m == e * d + m % d;
    if e < q {
      assert (e + 1) * d <= q * d by { MulMono(e + 1, q, d); }
    } else if e > q {
      assert (q + 1) * d <= e * d by { MulMono(q + 1, e, d); }
    }
  }

  lemma MulMono(a: nat, b: nat, d: nat)
    requires a <= b
    ensures a * d <= b * d
  {
    assert b * d == a * d + (b - a) * d;
  }

  lemma DivCeilBounds(n: nat, d: nat)
    requires d > 0
    ensures n <= DivCeil(n, d) * d && (n > 0 ==> DivCeil(n, d) > 0 && (DivCeil(n, d) - 1) * d < n)
  {
    var m, q := n + d - 1, DivCeil(n, d);
    assert m == q * d + m % d;
    assert (q - 1) * d == q * d - d;
    assert q == 0 ==> m < d;
  }

  lemma DivCeilHalves(n: nat, p: nat)
    requires p > 0 && n > 0
    ensures DivCeil(n, 2 * p) == Half(DivCeil(n, p))
  {
    var q := DivCeil(n, p);
    DivCeilBounds(n, p);
    var r := Half(q);
    assert 2 * r == q || 2 * r == q + 1;
    assert r * (2 * p) == (2 * r) * p;
    assert (r - 1) * (2 * p) == (2 * r) * p - 2 * p;
    assert (q + 1) * p == q * p + p && (q - 1) * p == q * p - p;
    DivCeilUnique(n, 2 * p, r);
  }

  /** How many nodes a tree of `n` chunks has at a level. */
  function Count(n: nat, level: nat): nat
  {
    if level == 0 then n else Half(Count(n, level - 1))
  }

  lemma {:induction false} CountIsDivCeil(n: nat, level: nat)
    requires n > 0
    ensures Count(n, level) == DivCeil(n, Pow2(level))
  {
    if level == 0 {
      DivCeilUnique(n, 1, n);
    } else {
      CountIsDivCeil(n, level - 1);
      DivCeilHalves(n, Pow2(level - 1));
    }
  }

  lemma {:induction false} ZeroHashUp<D>(h: (D, D) -> D, zero: D, level: nat)
    ensures ZeroHash(h, h(zero, zero), level) == ZeroHash(h, zero, level + 1)
  {
    if level > 0 { ZeroHashUp(h, zero, level - 1); }
  }

  /** The zero tree is what an empty list of chunks merkleizes to. */
  lemma {:induction false} EmptyRoot<D>(h: (D, D) -> D, zero: D, depth: nat)
    ensures Merkleize(h, zero, [], depth) == ZeroHash(h, zero, depth)
  {
    if depth > 0 {
      UpRoot(h, [], zero, depth - 1);
      assert Up(h, [], zero) == [];
      EmptyRoot(h, h(zero, zero), depth - 1);
      ZeroHashUp(h, zero, depth - 1);
    }
  }

  lemma SingleRoot<D>(h: (D, D) -> D, zero: D, x: D)
    ensures Merkleize(h, zero, [x], 0) == x
  {
    assert Pad([x], zero, 1) == [x];
  }
}
