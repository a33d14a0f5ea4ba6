/**
 * Batched merkleization of many trees in two reused buffers
 * (crates/types/src/execution_payload.rs:266-295), refining `Merkle.Merkleize` tree by tree.
 */
module MerkleBatch {
  import opened Merkle

  /** The trees laid out one after the other. */
  function Flat<D>(xss: seq<seq<D>>): seq<D>
  {
    if xss == [] then [] else Flat(xss[..|xss| - 1]) + xss[|xss| - 1]
  }

  lemma FlatSnoc<D>(xss: seq<seq<D>>, xs: seq<D>)
    ensures Flat(xss + [xs]) == Flat(xss) + xs
  {
    assert (xss + [xs])[..|xss|] == xss;
  }

  lemma FlatNext<D>(xss: seq<seq<D>>, i: nat)
    requires i < |xss|
    ensures Flat(xss[..i + 1]) == Flat(xss[..i]) + xss[i]
  {
    assert xss[..i + 1] == xss[..i] + [xss[i]];
    FlatSnoc(xss[..i], xss[i]);
  }

  lemma {:induction false} FlatPrefix<D>(xss: seq<seq<D>>, i: nat)
    requires i <= |xss|
    ensures |Flat(xss[..i])| <= |Flat(xss)|
    decreases |xss| - i
  {
    if i < |xss| {
      FlatNext(xss, i);
      FlatPrefix(xss, i + 1);
    } else {
      assert xss[..i] == xss;
    }
  }

  /** Every tree one level up. */
  function AllUp<D>(h: (D, D) -> D, trees: seq<seq<D>>, fill: D): seq<seq<D>>
  {
    seq(|trees|, i requires 0 <= i < |trees| => Up(h, trees[i], fill))
  }

  /** Every tree padded to an even count. */
  function AllEven<D>(trees: seq<seq<D>>, fill: D): seq<seq<D>>
  {
    seq(|trees|, i requires 0 <= i < |trees| => EvenPad(trees[i], fill))
  }

  lemma LayerConcat<D>(h: (D, D) -> D, a: seq<D>, m: nat, b: seq<D>, n: nat)
    requires |a| == 2 * m && |b| == 2 * n
    ensures Layer(h, a + b, m + n) == Layer(h, a, m) + Layer(h, b, n)
  {
  }

  lemma {:induction false} FlatLayerTo<D>(h: (D, D) -> D, ps: seq<seq<D>>, ls: seq<seq<D>>, i: nat)
    requires i <= |ps| == |ls|
    requires forall j :: 0 <= j < |ps| ==> |ps[j]| == 2 * |ls[j]| && Layer(h, ps[j], |ls[j]|) == ls[j]
    ensures |Flat(ps[..i])| == 2 * |Flat(ls[..i])|
    ensures Layer(h, Flat(ps[..i]), |Flat(ls[..i])|) == Flat(ls[..i])
  {
    if i > 0 {
      FlatLayerTo(h, ps, ls, i - 1);
      FlatNext(ps, i - 1);
      FlatNext(ls, i - 1);
      LayerConcat(h, Flat(ps[..i - 1]), |Flat(ls[..i - 1])|, ps[i - 1], |ls[i - 1]|);
    }
  }

  /** Hashing the padded layout of one level gives the layout of the next. */
  lemma FlatLayer<D>(h: (D, D) -> D, trees: seq<seq<D>>, fill: D)
    ensures var ps, ls := Flat(AllEven(trees, fill)), Flat(AllUp(h, trees, fill));
      |ps| == 2 * |ls| && Layer(h, ps, |ls|) == ls
  {
    var ps, ls := AllEven(trees, fill), AllUp(h, trees, fill);
    FlatLayerTo(h, ps, ls, |trees|);
    assert ps[..|ps|] == ps;
    assert ls[..|ls|] == ls;
  }

  lemma {:induction false} FlatNoLonger<D>(xss: seq<seq<D>>, yss: seq<seq<D>>)
    requires |xss| == |yss| && forall i :: 0 <= i < |xss| ==> |xss[i]| <= |yss[i]|
    ensures |Flat(xss)| <= |Flat(yss)|
  {
    if xss != [] {
      FlatNoLonger(xss[..|xss| - 1], yss[..|yss| - 1]);
    }
  }

  /** A padded level is never longer than the padded level below it. */
  lemma LevelsShrink<D>(h: (D, D) -> D, trees: seq<seq<D>>, fill: D, next: D)
    ensures |Flat(AllEven(AllUp(h, trees, fill), next))| <= |Flat(AllEven(trees, fill))|
  {
    FlatNoLonger(AllEven(AllUp(h, trees, fill), next), AllEven(trees, fill));
  }

  ghost predicate WithinDepth<D>(trees: seq<seq<D>>, depth: nat)
  {
    forall i :: 0 <= i < |trees| ==> 0 < |trees[i]| <= Pow2(depth)
  }

  function Roots<D>(h: (D, D) -> D, zero: D, trees: seq<seq<D>>, depth: nat): seq<D>
    requires WithinDepth(trees, depth)
  {
    seq(|trees|, i requires 0 <= i < |trees| => Merkleize(h, zero, trees[i], depth))
  }

  lemma UpKeepsRoots<D>(h: (D, D) -> D, trees: seq<seq<D>>, fill: D, depth: nat)
    requires WithinDepth(trees, depth + 1)
    ensures WithinDepth(AllUp(h, trees, fill), depth)
    ensures Roots(h, h(fill, fill), AllUp(h, trees, fill), depth) == Roots(h, fill, trees, depth + 1)
  {
    var up := AllUp(h, trees, fill);
    forall i | 0 <= i < |trees|
      ensures 0 < |up[i]| <= Pow2(depth)
      ensures Merkleize(h, h(fill, fill), up[i], depth) == Merkleize(h, fill, trees[i], depth + 1)
    {
      UpRoot(h, trees[i], fill, depth);
    }
  }

  lemma {:induction false} FlatSingles<D>(xss: seq<seq<D>>, xs: seq<D>)
    requires |xss| == |xs| && forall i :: 0 <= i < |xs| ==> xss[i] == [xs[i]]
    ensures Flat(xss) == xs
  {
    if xs != [] {
      var n := |xs| - 1;
      FlatSingles(xss[..n], xs[..n]);
      assert xs == xs[..n] + [xs[n]];
    }
  }

  /** At the last level each tree is its root. */
  lemma TopIsRoots<D>(h: (D, D) -> D, fill: D, trees: seq<seq<D>>)
    requires WithinDepth(trees, 0)
    ensures Flat(trees) == Roots(h, fill, trees, 0)
  {
    var rs := Roots(h, fill, trees, 0);
    forall i | 0 <= i < |trees|
      ensures trees[i] == [rs[i]]
    {
      SingleRoot(h, fill, trees[i][0]);
      assert trees[i] == [trees[i][0]];
    }
    FlatSingles(trees, rs);
  }

  // ---------------------------------------------------------------- buffers

  method HashConcatMany<D>(h: (D, D) -> D, out: array<D>, n: nat, input: array<D>)
    requires out != input && n <= out.Length && 2 * n <= input.Length
    modifies out
    ensures out[..n] == Layer(h, input[..2 * n], n)
    ensures forall i :: n <= i < out.Length ==> out[i] == old(out[i])
  {
    for i := 0 to n
      invariant forall j :: 0 <= j < i ==> out[j] == h(input[2 * j], input[2 * j + 1])
      invariant forall j :: i <= j < out.Length ==> out[j] == old(out[j])
    {
      out[i] := h(input[2 * i], input[2 * i + 1]);
    }
  }

  method CopyFromSlice<D>(dst: array<D>, to: nat, src: array<D>, from: nat, count: nat)
    requires dst != src && to + count <= dst.Length && from + count <= src.Length
    modifies dst
    ensures dst[..to + count] == old(dst[..to]) + src[from..from + count]
    ensures forall i :: to + count <= i < dst.Length ==> dst[i] == old(dst[i])
  {
    for i := 0 to count
      invariant dst[..to + i] == old(dst[..to]) + src[from..from + i]
      invariant forall j :: to + i <= j < dst.Length ==> dst[j] == old(dst[j])
    {
      dst[to + i] := src[from + i];
    }
  }

  /** Copies one tree's nodes and gives an odd one its pad. */
  method CopyTree<D>(pairs: array<D>, to: nat, nodes: array<D>, from: nat, count: nat, fill: D) returns (next: nat)
    requires pairs != nodes && to + 2 * Half(count) <= pairs.Length && from + count <= nodes.Length
    modifies pairs
    ensures next == to + 2 * Half(count)
    ensures pairs[..next] == old(pairs[..to]) + EvenPad(nodes[from..from + count], fill)
  {
    CopyFromSlice(pairs, to, nodes, from, count);
    next := to + count;
    if count % 2 == 1 {
      pairs[next] := fill;
      next := next + 1;
    }
  }

  method NodesAtLevel(leaves: nat, level: nat) returns (count: nat)
    requires leaves > 0
    ensures count == Count(leaves, level)
  {
    count := DivCeil(leaves, Pow2(level));
    CountIsDivCeil(leaves, level);
  }

  lemma NextTree<D>(ls: seq<seq<D>>, ps: seq<seq<D>>, fill: D, i: nat)
    requires i < |ls| == |ps| && ps[i] == EvenPad(ls[i], fill)
    ensures var from, count := |Flat(ls[..i])|, |ls[i]|;
      && from + count <= |Flat(ls)| && Flat(ls)[from..from + count] == ls[i] && |Flat(ls[..i + 1])| == from + count
      && |Flat(ps[..i])| + 2 * Half(count) <= |Flat(ps)|
      && Flat(ps[..i + 1]) == Flat(ps[..i]) + EvenPad(ls[i], fill)
  {
    FlatNext(ls, i);
    FlatNext(ps, i);
    FlatPrefix(ps, i + 1);
    SliceOfFlat(ls, i);
  }

  /** Lays the nodes `ls` of a level back out for the next round, padding odd trees. */
  method Compact<D>(pairs: array<D>, nodes: array<D>, leaves: seq<nat>, level: nat, fill: D,
                    ghost ls: seq<seq<D>>, ghost ps: seq<seq<D>>) returns (to: nat)
    requires pairs != nodes && |ls| == |ps| == |leaves|
    requires forall i :: 0 <= i < |leaves| ==> leaves[i] > 0 && |ls[i]| == Count(leaves[i], level)
    requires forall i :: 0 <= i < |leaves| ==> ps[i] == EvenPad(ls[i], fill)
    requires |Flat(ps)| <= pairs.Length && |Flat(ls)| <= nodes.Length && nodes[..|Flat(ls)|] == Flat(ls)
    modifies pairs
    ensures to == |Flat(ps)| && pairs[..to] == Flat(ps)
  {
    var from: nat := 0;
    to := 0;
    for i := 0 to |leaves|
      invariant from == |Flat(ls[..i])|
      invariant to == |Flat(ps[..i])| <= pairs.Length
      invariant pairs[..to] == Flat(ps[..i])
    {
      var count := NodesAtLevel(leaves[i], level);
      NextTree(ls, ps, fill, i);
      assert nodes[from..from + count] == Flat(ls)[from..from + count];
      to := CopyTree(pairs, to, nodes, from, count, fill);
      from := from + count;
    }
    assert ls[..|ls|] == ls;
    assert ps[..|ps|] == ps;
  }

  lemma {:induction false} SliceOfFlat<D>(xss: seq<seq<D>>, i: nat)
    requires i < |xss|
    ensures |Flat(xss[..i])| + |xss[i]| <= |Flat(xss)|
    ensures Flat(xss)[|Flat(xss[..i])|..|Flat(xss[..i])| + |xss[i]|] == xss[i]
    decreases |xss|
  {
    var front := xss[..|xss| - 1];
    if i < |front| {
      assert front[..i] == xss[..i];
      SliceOfFlat(front, i);
    } else {
      assert xss[..i] == front;
    }
  }

  method HashHalf<D>(
    h: (D, D) -> D, pairs: array<D>, nodes: array<D>, len: nat, ghost trees: seq<seq<D>>, ghost fill: D)
    requires pairs != nodes && len <= pairs.Length && len <= 2 * nodes.Length
    requires pairs[..len] == Flat(AllEven(trees, fill))
    modifies nodes
    ensures |Flat(AllUp(h, trees, fill))| <= nodes.Length
    ensures nodes[..|Flat(AllUp(h, trees, fill))|] == Flat(AllUp(h, trees, fill))
  {
    ghost var xs := pairs[..len];
    FlatLayer(h, trees, fill);
    assert len == |xs|;
    HashConcatMany(h, nodes, len / 2, pairs);
  }

  ghost predicate Sizes<D>(trees: seq<seq<D>>, leaves: seq<nat>, level: nat)
  {
    |trees| == |leaves| && forall i :: 0 <= i < |leaves| ==> leaves[i] > 0 && |trees[i]| == Count(leaves[i], level)
  }

  /** After `done` levels the trees have shrunk to `cur`, and `left` + 1 levels remain. */
  ghost predicate Round<D>(
    h: (D, D) -> D, zero: D, leaves: seq<nat>, roots: seq<D>, done: nat, left: nat, cur: seq<seq<D>>, fill: D)
  {
    && Sizes(cur, leaves, done)
    && WithinDepth(cur, left + 1)
    && Roots(h, fill, cur, left + 1) == roots
    && fill == ZeroHash(h, zero, done)
  }

  lemma RoundStart<D>(h: (D, D) -> D, zero: D, leaves: seq<nat>, trees: seq<seq<D>>, left: nat)
    requires Sizes(trees, leaves, 0) && WithinDepth(trees, left + 1)
    ensures Round(h, zero, leaves, Roots(h, zero, trees, left + 1), 0, left, trees, zero)
  {
  }

  lemma SizesUp<D>(h: (D, D) -> D, trees: seq<seq<D>>, fill: D, leaves: seq<nat>, done: nat)
    requires Sizes(trees, leaves, done)
    ensures Sizes(AllUp(h, trees, fill), leaves, done + 1)
  {
  }

  lemma RoundUp<D>(
    h: (D, D) -> D, zero: D, leaves: seq<nat>, roots: seq<D>, done: nat, left: nat, cur: seq<seq<D>>, fill: D)
    requires Round(h, zero, leaves, roots, done, left + 1, cur, fill)
    ensures Round(h, zero, leaves, roots, done + 1, left, AllUp(h, cur, fill), h(fill, fill))
  {
    SizesUp(h, cur, fill, leaves, done);
    UpKeepsRoots(h, cur, fill, left + 1);
  }

  lemma RoundTop<D>(h: (D, D) -> D, zero: D, leaves: seq<nat>, roots: seq<D>, done: nat, cur: seq<seq<D>>, fill: D)
    requires Round(h, zero, leaves, roots, done, 0, cur, fill)
    ensures Flat(AllUp(h, cur, fill)) == roots
  {
    UpKeepsRoots(h, cur, fill, 0);
    TopIsRoots(h, h(fill, fill), AllUp(h, cur, fill));
  }

  /** Hashes the level and, unless it was the last, lays the result out for the next. */
  method CompactUp<D>(h: (D, D) -> D, zero: D, pairs: array<D>, nodes: array<D>, len: nat, leaves: seq<nat>, level: nat,
                      ghost cur: seq<seq<D>>, ghost fill: D) returns (next: nat)
    requires pairs != nodes && Sizes(AllUp(h, cur, fill), leaves, level)
    requires len <= pairs.Length && |Flat(AllEven(cur, fill))| == len
    requires |Flat(AllUp(h, cur, fill))| <= nodes.Length
    requires nodes[..|Flat(AllUp(h, cur, fill))|] == Flat(AllUp(h, cur, fill))
    modifies pairs
    ensures next <= len && pairs[..next] == Flat(AllEven(AllUp(h, cur, fill), ZeroHash(h, zero, level)))
  {
    LevelsShrink(h, cur, fill, ZeroHash(h, zero, level));
    next := Compact(pairs, nodes, leaves, level, ZeroHash(h, zero, level),
                    AllUp(h, cur, fill), AllEven(AllUp(h, cur, fill), ZeroHash(h, zero, level)));
  }

  /** One level: hash the pairs and lay the nodes back out. */
  method OneRound<D>(h: (D, D) -> D, zero: D, pairs: array<D>, nodes: array<D>, len: nat, leaves: seq<nat>, level: nat,
                     ghost done: nat, ghost left: nat, ghost roots: seq<D>, ghost cur: seq<seq<D>>, ghost fill: D)
    returns (next: nat)
    requires pairs != nodes && len <= pairs.Length && len <= 2 * nodes.Length
    requires level == done + 1 && Round(h, zero, leaves, roots, done, left + 1, cur, fill)
    requires pairs[..len] == Flat(AllEven(cur, fill))
    modifies pairs, nodes
    ensures Round(h, zero, leaves, roots, level, left, AllUp(h, cur, fill), h(fill, fill))
    ensures next <= len && pairs[..next] == Flat(AllEven(AllUp(h, cur, fill), h(fill, fill)))
  {
    assert |pairs[..len]| == len;
    HashHalf(h, pairs, nodes, len, cur, fill);
    RoundUp(h, zero, leaves, roots, done, left, cur, fill);
    next := CompactUp(h, zero, pairs, nodes, len, leaves, level, cur, fill);
  }

  /** The last level: what is hashed are the roots. */
  method LastRound<D>(
    h: (D, D) -> D, zero: D, pairs: array<D>, nodes: array<D>, len: nat, ghost leaves: seq<nat>, ghost done: nat,
    ghost roots: seq<D>, ghost cur: seq<seq<D>>, ghost fill: D)
    requires pairs != nodes && len <= pairs.Length && len <= 2 * nodes.Length
    requires Round(h, zero, leaves, roots, done, 0, cur, fill)
    requires pairs[..len] == Flat(AllEven(cur, fill))
    modifies nodes
    ensures |roots| <= nodes.Length && nodes[..|roots|] == roots
  {
    HashHalf(h, pairs, nodes, len, cur, fill);
    RoundTop(h, zero, leaves, roots, done, cur, fill);
  }

  /** Roots of all trees, in order, at the start of `nodes`; both buffers are large enough throughout. */
  method MerkleizeTrees<D>(
    h: (D, D) -> D, zero: D, pairs: array<D>, nodes: array<D>, length: nat, leaves: seq<nat>, depth: nat,
    ghost trees: seq<seq<D>>)
    requires pairs != nodes && depth > 0
    requires Sizes(trees, leaves, 0) && WithinDepth(trees, depth)
    requires length <= pairs.Length && length <= 2 * nodes.Length
    requires pairs[..length] == Flat(AllEven(trees, zero))
    modifies pairs, nodes
    ensures |trees| <= nodes.Length && nodes[..|trees|] == Roots(h, zero, trees, depth)
  {
    ghost var roots := Roots(h, zero, trees, depth);
    RoundStart(h, zero, leaves, trees, depth - 1);
    ghost var done: nat, left: nat, cur, fill := 0, depth - 1, trees, zero;
    var level: nat, len: nat := 1, length;
    while level < depth
      invariant level == done + 1 && level + left == depth && len <= length
      invariant Round(h, zero, leaves, roots, done, left, cur, fill)
      invariant pairs[..len] == Flat(AllEven(cur, fill))
    {
      left := left - 1;
      len := OneRound(h, zero, pairs, nodes, len, leaves, level, done, left, roots, cur, fill);
      cur, fill := AllUp(h, cur, fill), h(fill, fill);
      done, level := level, level + 1;
    }
    LastRound(h, zero, pairs, nodes, len, leaves, done, roots, cur, fill);
  }
}
