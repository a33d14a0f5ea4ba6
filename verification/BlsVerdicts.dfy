/** The batch verifier's verdicts: when they equal single verification, and how rarely not. */
module BlsVerdicts {
  import opened Bytes
  import opened Counting
  import opened Bls
  import opened BlsDraws

  const TWO_63: nat := 0x8000_0000_0000_0000

  predicate Invalid(c: Curve, e: Entry)
    requires c.r > 0
  {
    Admitted(c, e) && !VerifyOne(c, e)
  }

  predicate NoneInvalid(c: Curve, es: seq<Entry>)
    requires c.r > 0
  {
    forall i :: 0 <= i < |es| ==> !Invalid(c, es[i])
  }

  lemma NoneInvalidNext(c: Curve, es: seq<Entry>, n: nat)
    requires c.r > 0 && |es| == n + 1
    ensures NoneInvalid(c, es) <==> NoneInvalid(c, es[..n]) && !Invalid(c, es[n])
  {
    if NoneInvalid(c, es[..n]) && !Invalid(c, es[n]) {
      forall i | 0 <= i < |es| ensures !Invalid(c, es[i]) {
        if i < n { assert es[..n][i] == es[i]; }
      }
    }
  }

  lemma AllMultiplesPush(r: nat, ds: seq<int>, d: int)
    requires r > 0
    ensures AllMultiples(r, ds + [d]) <==> AllMultiples(r, ds) && Multiple(r, d)
  {
    if AllMultiples(r, ds + [d]) {
      assert (ds + [d])[|ds|] == d;
      forall i | 0 <= i < |ds| ensures Multiple(r, ds[i]) { assert (ds + [d])[i] == ds[i]; }
    }
  }

  lemma {:induction false} DefectsValid(c: Curve, es: seq<Entry>)
    requires c.r > 0
    ensures AllMultiples(c.r, Defects(c, es)) <==> NoneInvalid(c, es)
  {
    if es != [] {
      var n := |es| - 1;
      DefectsValid(c, es[..n]);
      NoneInvalidNext(c, es, n);
      if Admitted(c, es[n]) {
        AllMultiplesPush(c.r, Defects(c, es[..n]), Defect(c, es[n]));
      } else {
        assert Defects(c, es) == Defects(c, es[..n]);
      }
    }
  }

  /** The only invalid entry leaves the only defect that is no multiple of the order. */
  lemma {:induction false} OnlyDefect(c: Curve, es: seq<Entry>, i: nat) returns (bad: nat)
    requires c.r > 0 && i < |es| && Invalid(c, es[i])
    requires forall j :: 0 <= j < |es| && j != i ==> !Invalid(c, es[j])
    ensures bad < |Defects(c, es)| && !Multiple(c.r, Defects(c, es)[bad])
    ensures forall j :: 0 <= j < |Defects(c, es)| && j != bad ==> Multiple(c.r, Defects(c, es)[j])
  {
    var n := |es| - 1;
    var before := Defects(c, es[..n]);
    if i == n {
      DefectsValid(c, es[..n]);
      bad := |before|;
    } else {
      bad := OnlyDefect(c, es[..n], i);
      assert !Invalid(c, es[n]);
    }
  }

  /** No admitted entry is invalid: every draw gives the verdicts of single verification. */
  lemma AllValidMatch(c: Curve, es: seq<Entry>, draws: seq<u64>)
    requires c.r > 0 && |draws| == |Defects(c, es)|
    requires NoneInvalid(c, es)
    ensures Passes(c.r, Defects(c, es), draws)
    ensures Verdicts(c, es, draws) == Singles(c, es)
  {
    DefectsValid(c, es);
    ValidPasses(c.r, Defects(c, es), draws);
    forall i | 0 <= i < |es| ensures Verdict(c, es, draws, es[i]) == VerifyOne(c, es[i]) {
      assert !Invalid(c, es[i]);
    }
  }

  /** One admitted entry is invalid: no draw passes, and the verdicts are those of single
      verification. */
  lemma OneInvalidMatch(c: Curve, es: seq<Entry>, draws: seq<u64>, i: nat)
    requires Usable(c) && |draws| == |Defects(c, es)|
    requires i < |es| && Invalid(c, es[i])
    requires forall j :: 0 <= j < |es| && j != i ==> !Invalid(c, es[j])
    ensures !Passes(c.r, Defects(c, es), draws)
    ensures Verdicts(c, es, draws) == Singles(c, es)
  {
    var bad := OnlyDefect(c, es, i);
    OneInvalidFails(c.r, Defects(c, es), draws, bad);
  }

  /** Whatever the draws, a valid entry is accepted and an entry that is not admitted is refused. */
  lemma NoFalseRefusal(c: Curve, es: seq<Entry>, draws: seq<u64>, i: nat)
    requires c.r > 0 && |draws| == |Defects(c, es)| && i < |es|
    ensures Singles(c, es)[i] ==> Verdicts(c, es, draws)[i]
    ensures Verdicts(c, es, draws)[i] && !Singles(c, es)[i] ==> Invalid(c, es[i]) && Passes(c.r, Defects(c, es), draws)
  {}

  /** The draws whose verdicts differ from single verification. */
  ghost function Wrong(outs: set<u64>, c: Curve, es: seq<Entry>): set<seq<u64>>
    requires c.r > 0
  {
    set us | us in AllDraws(outs, |Defects(c, es)|) && |us| == |Defects(c, es)| && Verdicts(c, es, us) != Singles(c, es)
  }

  lemma WrongAccepts(outs: set<u64>, c: Curve, es: seq<Entry>)
    requires c.r > 0
    ensures Wrong(outs, c, es) <= Accepting(outs, c.r, Defects(c, es), 0)
  {
    forall us | us in Wrong(outs, c, es) ensures us in Accepting(outs, c.r, Defects(c, es), 0) {
      WrongPasses(c, es, us);
    }
  }

  lemma WrongPasses(c: Curve, es: seq<Entry>, draws: seq<u64>)
    requires c.r > 0 && |draws| == |Defects(c, es)| && Verdicts(c, es, draws) != Singles(c, es)
    ensures Passes(c.r, Defects(c, es), draws)
  {
    var i :| 0 <= i < |es| && Verdicts(c, es, draws)[i] != Singles(c, es)[i];
    NoFalseRefusal(c, es, draws, i);
  }

  /** For every batch, the draws that give a wrong verdict are at most 2^-63 of all draws. */
  lemma WrongIsRare(outs: set<u64>, c: Curve, es: seq<Entry>)
    requires Usable(c) && |outs| == TWO_64
    ensures |Wrong(outs, c, es)| * TWO_63 <= |AllDraws(outs, |Defects(c, es)|)|
  {
    var ds := Defects(c, es);
    DefectsValid(c, es);
    if AllMultiples(c.r, ds) {
      forall us | us in AllDraws(outs, |ds|) && |us| == |ds| ensures us !in Wrong(outs, c, es) {
        AllValidMatch(c, es, us);
      }
      assert Wrong(outs, c, es) == {};
    } else {
      WrongAccepts(outs, c, es);
      SubsetBound(Wrong(outs, c, es), Accepting(outs, c.r, ds, 0));
      FewDrawsAccept(outs, c.r, ds, 0);
      CountDraws(outs, |ds|);
    }
  }

  lemma WrongAt(c: Curve, es: seq<Entry>, draws: seq<u64>, e: Entry)
    requires c.r > 0 && |draws| == |Defects(c, es)|
    ensures Verdict(c, es, draws, e) != VerifyOne(c, e)
       <==> Batched(c, es) && Passes(c.r, Defects(c, es), draws) && Invalid(c, e)
  {
  }

  /** The verdicts differ from single verification exactly when a batch of several passes with an
      invalid entry in it. */
  lemma WrongExactly(c: Curve, es: seq<Entry>, draws: seq<u64>)
    requires c.r > 0 && |draws| == |Defects(c, es)|
    ensures Verdicts(c, es, draws) != Singles(c, es)
       <==> Batched(c, es) && Passes(c.r, Defects(c, es), draws) && !NoneInvalid(c, es)
  {
    var vs, ss := Verdicts(c, es, draws), Singles(c, es);
    if i :| 0 <= i < |es| && Invalid(c, es[i]) {
      WrongAt(c, es, draws, es[i]);
      assert vs[i] == Verdict(c, es, draws, es[i]) && ss[i] == VerifyOne(c, es[i]);
    }
    if vs != ss {
      var i :| 0 <= i < |es| && vs[i] != ss[i];
      WrongAt(c, es, draws, es[i]);
    }
  }

  lemma Negated(r: nat, d: int)
    requires r > 0
    ensures Multiple(r, -d) <==> Multiple(r, d)
  {
    if Multiple(r, d) { MultipleProduct(r, d, -1); }
    if Multiple(r, -d) { MultipleProduct(r, -d, -1); }
  }

  lemma TwoDefects(c: Curve, e: Entry, f: Entry)
    requires c.r > 0 && Admitted(c, e) && Admitted(c, f)
    ensures Defects(c, [e, f]) == [Defect(c, e), Defect(c, f)]
  {
    assert [e, f][..1] == [e] && [e][..0] == [];
    assert Defects(c, [e]) == [Defect(c, e)];
  }

  /** Two invalid entries whose defects cancel, under equal weights, are both accepted. */
  lemma TwoInvalidCanPass(c: Curve, e: Entry, f: Entry, u: u64, v: u64)
    requires c.r > 0 && Admitted(c, e) && Admitted(c, f)
    requires Defect(c, f) == -Defect(c, e) && !Multiple(c.r, Defect(c, e)) && Weight(u) == Weight(v)
    ensures |Defects(c, [e, f])| == 2
    ensures Verdicts(c, [e, f], [u, v]) == [true, true] && Singles(c, [e, f]) == [false, false]
  {
    var d := Defect(c, e);
    TwoDefects(c, e, f);
    Negated(c.r, d);
    assert [d, -d][..1] == [d] && [u, v][..1] == [u] && [d][..0] == [] && [u][..0] == [];
    assert Weighted([d], [u]) == Weight(u) * d;
    assert Weighted([d, -d], [u, v]) == 0;
  }

  /** The generator's outputs are such a set. */
  lemma {:induction false} OutputsBelow(n: nat) returns (outs: set<u64>)
    requires n <= TWO_64
    ensures |outs| == n && forall u: u64 :: u in outs <==> u < n
  {
    if n == 0 {
      outs := {};
    } else {
      outs := OutputsBelow(n - 1);
      outs := outs + {n - 1};
    }
  }

  // ---------------------------------------------------------------- the verifier object

  /** Sum of the products of the logarithms; zero modulo the order when the pairing product is one. */
  function PairingLog(ps: seq<(int, int)>): int
  {
    if ps == [] then 0 else PairingLog(ps[..|ps| - 1]) + ps[|ps| - 1].0 * ps[|ps| - 1].1
  }

  function WeightedSum(xs: seq<int>, ws: seq<u64>): int
    requires |xs| == |ws|
  {
    if xs == [] then 0
    else
      var n := |xs| - 1;
      WeightedSum(xs[..n], ws[..n]) + ws[n] * xs[n]
  }

  lemma PairingLogPush(ps: seq<(int, int)>, p: (int, int))
    ensures PairingLog(ps + [p]) == PairingLog(ps) + p.0 * p.1
  {
    assert (ps + [p])[..|ps|] == ps;
  }

  lemma WeightedSumPush(xs: seq<int>, ws: seq<u64>, n: nat, w: u64)
    requires |ws| == n < |xs|
    ensures WeightedSum(xs[..n + 1], ws + [w]) == WeightedSum(xs[..n], ws) + w * xs[n]
  {
    assert xs[..n + 1][..n] == xs[..n] && (ws + [w])[..n] == ws;
  }

  lemma WeightedPush(ds: seq<int>, draws: seq<u64>, n: nat)
    requires |ds| == |draws| && n < |ds|
    ensures Weighted(ds[..n + 1], draws[..n + 1]) == Weighted(ds[..n], draws[..n]) + Weight(draws[n]) * ds[n]
  {
    assert ds[..n + 1][..n] == ds[..n] && draws[..n + 1][..n] == draws[..n];
  }

  /** The admitted entries' points. */
  datatype Points = Points(keys: seq<int>, sigs: seq<int>, hashes: seq<int>)

  /** The points of the admitted entries, in order, so that their defects are `ds`. */
  predicate Included(p: Points, ds: seq<int>)
  {
    && |p.keys| == |p.sigs| == |p.hashes| == |ds|
    && forall i :: 0 <= i < |ds| ==> ds[i] == p.keys[i] * p.hashes[i] - p.sigs[i]
  }

  /** The weighted product of pairings over the included points. */
  method BatchIsOne(r: nat, p: Points, draws: seq<u64>, ghost ds: seq<int>) returns (one: bool)
    requires r > 0 && |draws| == |ds| && Included(p, ds)
    ensures one == Passes(r, ds, draws)
  {
    var pairing: seq<(int, int)> := [];
    var weights: seq<u64> := [];
    for i := 0 to |p.keys|
      invariant |weights| == i
      invariant PairingLog(pairing) - WeightedSum(p.sigs[..i], weights) == Weighted(ds[..i], draws[..i])
    {
      var weight := Weight(draws[i]);
      PairingLogPush(pairing, (weight * p.keys[i], p.hashes[i]));
      WeightedSumPush(p.sigs, weights, i, weight);
      WeightedPush(ds, draws, i);
      WeightsDistribute(weight, p.keys[i], p.hashes[i], p.sigs[i]);
      pairing := pairing + [(weight * p.keys[i], p.hashes[i])];
      weights := weights + [weight];
    }
    assert p.sigs[..|ds|] == p.sigs && ds[..|ds|] == ds && draws[..|ds|] == draws;
    var sum := WeightedSum(p.sigs, weights);
    PairingLogPush(pairing, (-1, sum));
    pairing := pairing + [(-1, sum)];
    one := PairingLog(pairing) % r == 0;
  }

  lemma WeightsDistribute(w: int, key: int, hash: int, sig: int)
    ensures (w * key) * hash - w * sig == w * (key * hash - sig)
  {}

  lemma {:induction false} DefectsPrefix(c: Curve, es: seq<Entry>, n: nat)
    requires c.r > 0 && n <= |es|
    ensures Defects(c, es[..n]) <= Defects(c, es)
  {
    if n < |es| {
      DefectsPrefix(c, es[..|es| - 1], n);
      assert es[..|es| - 1][..n] == es[..n];
    } else {
      assert es[..n] == es;
    }
  }

  /** The point of the next admitted entry is the next included one. */
  lemma NextIncluded(c: Curve, es: seq<Entry>, p: Points, i: nat, next: nat)
    requires c.r > 0 && i < |es| && Included(p, Defects(c, es)) && next == |Defects(c, es[..i])|
    ensures next + (if Admitted(c, es[i]) then 1 else 0) == |Defects(c, es[..i + 1])| <= |p.keys|
    ensures Admitted(c, es[i]) ==> p.keys[next] * p.hashes[next] - p.sigs[next] == Defect(c, es[i])
  {
    assert es[..i + 1][..i] == es[..i];
    DefectsPrefix(c, es, i + 1);
    if Admitted(c, es[i]) {
      assert Defects(c, es[..i + 1])[next] == Defect(c, es[i]);
    }
  }

  /** The check of a single pair of points. */
  method PairIsOne(r: nat, key: int, hash: int, sig: int) returns (one: bool)
    requires r > 0
    ensures one == Multiple(r, key * hash - sig)
  {
    one := (key * hash - sig) % r == 0;
  }

  /** Replaces each true verdict by that of single verification. */
  method VerifyEach(c: Curve, es: seq<Entry>, p: Points, admitted: seq<bool>) returns (verdicts: seq<bool>)
    requires c.r > 0 && Included(p, Defects(c, es))
    requires |admitted| == |es| && forall i :: 0 <= i < |es| ==> admitted[i] == Admitted(c, es[i])
    ensures verdicts == Singles(c, es)
  {
    verdicts := admitted;
    var next := 0;
    for i := 0 to |es|
      invariant next == |Defects(c, es[..i])| <= |p.keys|
      invariant |verdicts| == |es|
      invariant forall j :: 0 <= j < i ==> verdicts[j] == VerifyOne(c, es[j])
      invariant forall j :: i <= j < |es| ==> verdicts[j] == Admitted(c, es[j])
    {
      NextIncluded(c, es, p, i, next);
      if verdicts[i] {
        var one := PairIsOne(c.r, p.keys[next], p.hashes[next], p.sigs[next]);
        verdicts := verdicts[i := one];
        next := next + 1;
      }
    }
  }

  function Zip(ps: seq<Pubkey>, ss: seq<Signature>, rs: seq<Root>): seq<Entry>
    requires |ps| == |ss| == |rs|
  {
    seq(|rs|, i requires 0 <= i < |rs| => Entry(ps[i], ss[i], rs[i]))
  }

  class BlsBatch {
    const curve: Curve
    var pubkeys: seq<Pubkey>
    var signatures: seq<Signature>
    var roots: seq<Root>
    var verdicts: seq<bool>

    predicate Valid()
      reads this
    {
      curve.r > 0 && |pubkeys| == |signatures| == |roots|
    }

    /** The entries pushed since the last clear. */
    function Entries(): seq<Entry>
      requires Valid()
      reads this
    {
      Zip(pubkeys, signatures, roots)
    }

    constructor (curve: Curve)
      requires curve.r > 0
      ensures Valid() && Entries() == [] && this.curve == curve
    {
      this.curve := curve;
      pubkeys, signatures, roots, verdicts := [], [], [], [];
    }

    method Clear()
      requires Valid()
      modifies this
      ensures Valid() && Entries() == [] && verdicts == old(verdicts)
    {
      pubkeys, signatures, roots := [], [], [];
    }

    method Push(pubkey: Pubkey, signature: Signature, root: Root)
      requires Valid()
      modifies this
      ensures Valid() && Entries() == old(Entries()) + [Entry(pubkey, signature, root)] && verdicts == old(verdicts)
    {
      pubkeys, signatures, roots := pubkeys + [pubkey], signatures + [signature], roots + [root];
    }

    /** Sorts out the admitted entries and marks them true. */
    method Admit(es: seq<Entry>) returns (p: Points)
      requires Valid() && es == Entries()
      modifies this`verdicts
      ensures Included(p, Defects(curve, es))
      ensures |verdicts| == |es| && forall i :: 0 <= i < |es| ==> verdicts[i] == Admitted(curve, es[i])
    {
      p := Points([], [], []);
      verdicts := [];
      for i := 0 to |es|
        invariant Included(p, Defects(curve, es[..i]))
        invariant |verdicts| == i && forall j :: 0 <= j < i ==> verdicts[j] == Admitted(curve, es[j])
      {
        assert es[..i + 1][..i] == es[..i];
        var key, sig := curve.key(es[i].pubkey), curve.sig(es[i].signature);
        if key == None || key.value % curve.r == 0 || sig == None {
          verdicts := verdicts + [false];
          continue;
        }
        p := Points(p.keys + [key.value], p.sigs + [sig.value], p.hashes + [curve.hash(es[i].root)]);
        verdicts := verdicts + [true];
      }
      assert es[..|es|] == es;
    }

    /** `draws` are the outputs of the random number generator, one for each admitted entry.
        Returns true if a check over several entries was rejected. */
    method Verify(draws: seq<u64>) returns (rejected: bool)
      requires Valid() && |draws| == |Defects(curve, Entries())|
      modifies this
      ensures Valid() && Entries() == old(Entries())
      ensures verdicts == Verdicts(curve, Entries(), draws)
      ensures rejected == (Batched(curve, Entries()) && !Passes(curve.r, Defects(curve, Entries()), draws))
    {
      var es := Entries();
      var p := Admit(es);
      var batched := |p.keys| > 1;
      if batched {
        var one := BatchIsOne(curve.r, p, draws, Defects(curve, es));
        if one {
          return false;
        }
      }
      verdicts := VerifyEach(curve, es, p, verdicts);
      rejected := batched;
    }
  }
}
