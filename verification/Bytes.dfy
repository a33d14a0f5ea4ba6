/** Machine integers, SSZ limits, little-endian byte strings and identifiers, shared by every component. */
module Bytes {
  const TWO_16: nat := 0x1_0000
  const TWO_32: nat := 0x1_0000_0000
  const TWO_64: nat := 0x1_0000_0000_0000_0000
  const TWO_128: nat := 0x1_0000_0000_0000_0000_0000_0000_0000_0000

  const MAX_BYTES_PER_TRANSACTION: nat := 0x4000_0000
  const MAX_TRANSACTIONS_PER_PAYLOAD: nat := 0x10_0000
  const MAX_WITHDRAWALS_PER_PAYLOAD: nat := 16
  const MAX_EXTRA_DATA_BYTES: nat := 32

  type u64 = x: int | 0 <= x < TWO_64
  type u128 = x: int | 0 <= x < TWO_128
  type byte = x: int | 0 <= x < 256

  type Octets = seq<byte>

  datatype Option<+T> = None | Some(value: T)

  /** Identifiers are opaque: only whether two are equal matters. */
  datatype Pubkey = Pubkey(code: nat)
  datatype Root = Root(code: nat)

  datatype Withdrawal = Withdrawal(index: u64, validatorIndex: u64, address: Octets, amount: u64)

  /** The low `k` bytes of `n`, least significant first. */
  function ToLe(n: nat, k: nat): (b: seq<byte>)
    ensures |b| == k
  {
    seq<byte>(k, i requires i >= 0 => Digit(n, i))
  }

  function Digit(n: nat, i: nat): byte
  {
    n / Pow256(i) % 256
  }

  function FromLe(b: seq<byte>): nat
  {
    if b == [] then 0 else b[0] + 256 * FromLe(b[1..])
  }

  function Pow256(k: nat): (p: nat)
    ensures p > 0
  {
    if k == 0 then 1 else 256 * Pow256(k - 1)
  }

  lemma DivDiv(n: nat, p: nat)
    requires p > 0
    ensures n / (256 * p) == (n / 256) / p
  {
    var q, r := (n / 256) / p, (n / 256) % p;
    assert n / 256 == p * q + r;
    assert 256 * (p * q) == (256 * p) * q;
    QuotientIs(n, 256 * p, q, 256 * r + n % 256);
  }

  lemma QuotientIs(n: nat, d: nat, q: nat, r: nat)
    requires n == d * q + r && r < d
    ensures n / d == q
  {
    var t := q - n / d;
    assert d * t == n % d - r;
    assert t > 0 ==> d * t >= d;
    assert t < 0 ==> d * t + d <= 0;
  }

  /** The first byte, and the bytes of what is left. */
  lemma ToLeSplit(n: nat, k: nat)
    requires k > 0
    ensures ToLe(n, k) == [n % 256] + ToLe(n / 256, k - 1)
  {
    forall i | 0 <= i < k - 1 ensures Digit(n, i + 1) == Digit(n / 256, i) {
      DivDiv(n, Pow256(i));
    }
  }

  /** What fits the width reads back. */
  lemma {:induction false} LeRoundTrip(n: nat, k: nat)
    requires n < Pow256(k)
    ensures FromLe(ToLe(n, k)) == n
  {
    if k > 0 {
      LeRoundTrip(n / 256, k - 1);
      ToLeSplit(n, k);
      assert ToLe(n, k)[1..] == ToLe(n / 256, k - 1);
    }
  }

  lemma {:induction false} FromLeBound(b: seq<byte>)
    ensures FromLe(b) < Pow256(|b|)
  {
    if b != [] { FromLeBound(b[1..]); }
  }

  /** Bytes that are read as a number are written back as they were. */
  lemma {:induction false} LeBytesRoundTrip(b: seq<byte>)
    ensures ToLe(FromLe(b), |b|) == b
  {
    if b != [] {
      LeBytesRoundTrip(b[1..]);
      ToLeSplit(FromLe(b), |b|);
      assert FromLe(b) % 256 == b[0] && FromLe(b) / 256 == FromLe(b[1..]);
    }
  }

  lemma Pow256Word()
    ensures Pow256(4) == TWO_32 && Pow256(8) == TWO_64
  {
    assert Pow256(2) == 0x1_0000;
    assert Pow256(4) == 0x1_0000_0000;
    assert Pow256(6) == 0x1_0000_0000_0000;
  }
}
