/**
 * Batch BLS verification (crates/types/src/gloas.rs), in the exponent model: a group element is
 * its discrete logarithm, so both groups are the integers modulo the prime group order `r`, and a
 * product of pairings is one exactly when the sum of the products is a multiple of `r`.
 *
 * The point decoders and hash-to-curve are any functions.
 */
module Bls {
  import opened Bytes

  datatype Signature = Signature(code: nat)

  /** `None` is a byte string that is no subgroup point. */
  datatype Curve = Curve(r: nat, key: Pubkey -> Option<int>, sig: Signature -> Option<int>, hash: Root -> int)

  datatype Entry = Entry(pubkey: Pubkey, signature: Signature, root: Root)

  ghost predicate Prime(r: nat)
  {
    r > 1 && forall d :: 1 < d < r ==> r % d != 0
  }

  /** The group is of prime order, larger than every weight. */
  ghost predicate Usable(c: Curve)
  {
    Prime(c.r) && c.r > TWO_64
  }

  predicate Multiple(r: nat, x: int)
    requires r > 0
  {
    x % r == 0
  }

  // ---------------------------------------------------------------- single verification

  /** Both points decode and the key is not the point at infinity. */
  predicate Admitted(c: Curve, e: Entry)
    requires c.r > 0
  {
    c.key(e.pubkey).Some? && !Multiple(c.r, c.key(e.pubkey).value) && c.sig(e.signature).Some?
  }

  /** Logarithm of e(pk, H(m)) / e(G1, sig), which a valid signature makes zero. */
  function Defect(c: Curve, e: Entry): int
    requires c.r > 0 && Admitted(c, e)
  {
    c.key(e.pubkey).value * c.hash(e.root) - c.sig(e.signature).value
  }

  predicate VerifyOne(c: Curve, e: Entry)
    requires c.r > 0
  {
    Admitted(c, e) && Multiple(c.r, Defect(c, e))
  }

  // ---------------------------------------------------------------- the batch check

  /** Zero would leave the item out. */
  function Weight(draw: u64): u64
  {
    if draw == 0 then 1 else draw
  }

  function Defects(c: Curve, es: seq<Entry>): seq<int>
    requires c.r > 0
  {
    if es == [] then []
    else
      var e := es[|es| - 1];
      Defects(c, es[..|es| - 1]) + (if Admitted(c, e) then [Defect(c, e)] else [])
  }

  function Weighted(ds: seq<int>, draws: seq<u64>): int
    requires |ds| == |draws|
  {
    if ds == [] then 0
    else
      var n := |ds| - 1;
      Weighted(ds[..n], draws[..n]) + Weight(draws[n]) * ds[n]
  }

  predicate Passes(r: nat, ds: seq<int>, draws: seq<u64>)
    requires r > 0 && |ds| == |draws|
  {
    Multiple(r, Weighted(ds, draws))
  }

  predicate Batched(c: Curve, es: seq<Entry>)
    requires c.r > 0
  {
    |Defects(c, es)| > 1
  }

  predicate Verdict(c: Curve, es: seq<Entry>, draws: seq<u64>, e: Entry)
    requires c.r > 0 && |draws| == |Defects(c, es)|
  {
    Admitted(c, e) && ((Batched(c, es) && Passes(c.r, Defects(c, es), draws)) || VerifyOne(c, e))
  }

  function Verdicts(c: Curve, es: seq<Entry>, draws: seq<u64>): seq<bool>
    requires c.r > 0 && |draws| == |Defects(c, es)|
  {
    seq(|es|, i requires 0 <= i < |es| => Verdict(c, es, draws, es[i]))
  }

  function Singles(c: Curve, es: seq<Entry>): seq<bool>
    requires c.r > 0
  {
    seq(|es|, i requires 0 <= i < |es| => VerifyOne(c, es[i]))
  }

  // ---------------------------------------------------------------- multiples of a prime

  lemma NoSmallMultiple(r: nat, t: int)
    requires r > 0
    ensures t > 0 ==> r * t >= r
    ensures t < 0 ==> r * t < 0
  {}

  lemma MultipleIs(r: nat, x: int, q: int)
    requires r > 0 && x == r * q
    ensures Multiple(r, x)
  {
    var t := q - x / r;
    assert x % r == r * t;
    NoSmallMultiple(r, t);
  }

  lemma MultipleSum(r: nat, x: int, y: int)
    requires r > 0 && Multiple(r, x)
    ensures Multiple(r, x + y) <==> Multiple(r, y)
  {
    if Multiple(r, y) {
      assert x + y == r * (x / r + y / r);
      MultipleIs(r, x + y, x / r + y / r);
    }
    if Multiple(r, x + y) {
      assert y == r * ((x + y) / r - x / r);
      MultipleIs(r, y, (x + y) / r - x / r);
    }
  }

  lemma MultipleProduct(r: nat, x: int, k: int)
    requires r > 0 && Multiple(r, x)
    ensures Multiple(r, k * x)
  {
    assert k * x == r * (k * (x / r));
    MultipleIs(r, k * x, k * (x / r));
  }

  /** Euclid's lemma, by descent on the smaller factor. */
  lemma {:induction false} PrimeDivides(r: nat, a: nat, b: int)
    requires Prime(r) && 0 < a < r && Multiple(r, a * b)
    ensures Multiple(r, b)
    decreases a
  {
    if a > 1 {
      var q, m := r / a, r % a;
      assert r == q * a + m;
      MultipleProduct(r, a * b, -q);
      assert m * b == r * b + (-q) * (a * b);
      MultipleIs(r, r * b, b);
      MultipleSum(r, r * b, (-q) * (a * b));
      PrimeDivides(r, m, b);
    }
  }

  lemma WeightKeepsDefect(r: nat, draw: u64, d: int)
    requires Prime(r) && r > TWO_64
    ensures Multiple(r, Weight(draw) * d) <==> Multiple(r, d)
  {
    if Multiple(r, d) { MultipleProduct(r, d, Weight(draw)); }
    if Multiple(r, Weight(draw) * d) { PrimeDivides(r, Weight(draw), d); }
  }

  // ---------------------------------------------------------------- all valid, or one invalid

  predicate AllMultiples(r: nat, ds: seq<int>)
    requires r > 0
  {
    forall i :: 0 <= i < |ds| ==> Multiple(r, ds[i])
  }

  lemma {:induction false} ValidPasses(r: nat, ds: seq<int>, draws: seq<u64>)
    requires r > 0 && |ds| == |draws| && AllMultiples(r, ds)
    ensures Passes(r, ds, draws)
  {
    if ds != [] {
      var n := |ds| - 1;
      ValidPasses(r, ds[..n], draws[..n]);
      MultipleProduct(r, ds[n], Weight(draws[n]));
      MultipleSum(r, Weighted(ds[..n], draws[..n]), Weight(draws[n]) * ds[n]);
    }
  }

  lemma {:induction false} OneInvalidFails(r: nat, ds: seq<int>, draws: seq<u64>, bad: nat)
    requires Prime(r) && r > TWO_64 && |ds| == |draws| && bad < |ds|
    requires !Multiple(r, ds[bad])
    requires forall i :: 0 <= i < |ds| && i != bad ==> Multiple(r, ds[i])
    ensures !Passes(r, ds, draws)
  {
    var n := |ds| - 1;
    var before, last := Weighted(ds[..n], draws[..n]), Weight(draws[n]) * ds[n];
    WeightKeepsDefect(r, draws[n], ds[n]);
    if bad == n {
      ValidPasses(r, ds[..n], draws[..n]);
      MultipleSum(r, before, last);
    } else {
      OneInvalidFails(r, ds[..n], draws[..n], bad);
      MultipleSum(r, last, before);
    }
  }

  // ---------------------------------------------------------------- how many draws accept

  /** Two draws of one invalid item that both accept, the other draws fixed: they are equal, or are
      zero and one, which mean the same weight. */
  lemma SameWeight(r: nat, rest: int, d: int, u: u64, v: u64)
    requires Prime(r) && r > TWO_64 && !Multiple(r, d)
    requires Multiple(r, rest + Weight(u) * d) && Multiple(r, rest + Weight(v) * d)
    ensures Weight(u) == Weight(v) && (u == v || (u <= 1 && v <= 1))
  {
    var a, b := Weight(u), Weight(v);
    if a < b { DifferenceIsMultiple(r, rest, d, a, b); }
    if b < a { DifferenceIsMultiple(r, rest, d, b, a); }
  }

  lemma DifferenceIsMultiple(r: nat, rest: int, d: int, a: u64, b: u64)
    requires Prime(r) && r > TWO_64 && a < b
    requires Multiple(r, rest + a * d) && Multiple(r, rest + b * d)
    ensures Multiple(r, d)
  {
    assert rest + b * d == rest + a * d + (b - a) * d;
    MultipleSum(r, rest + a * d, (b - a) * d);
    PrimeDivides(r, b - a, d);
  }
}
