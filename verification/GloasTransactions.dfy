/**
 * The transactions region of a Gloas payload: which regions the layout check accepts, and that the
 * slices between offsets are the transactions.
 */
module GloasTransactions {
  import opened Bytes
  import opened Ssz
  import opened Gloas

  /** A list of variable-size elements is laid out like a container of them. */
  predicate IsTxList(ps: seq<Part>)
  {
    |ps| <= MAX_TRANSACTIONS_PER_PAYLOAD && AllTx(ps)
  }

  predicate IsTx(p: Part) { p.Variable? && |p.bytes| <= MAX_BYTES_PER_TRANSACTION }

  function Count(txs: Octets): nat
    requires TransactionsLayoutOk(txs)
  {
    if txs == [] then 0 else U32At(txs, 0) / 4
  }

  /** Where transaction `i` starts; the last one ends where the region does. */
  function Start(txs: Octets, count: nat, i: nat): nat
    requires i <= count && 4 * count <= |txs|
  {
    if i < count then U32At(txs, 4 * i) else |txs|
  }

  ghost predicate Ascending(txs: Octets, count: nat)
    requires 4 * count <= |txs|
  {
    forall i :: 0 <= i < count ==> TransactionOk(txs, count, i)
  }

  ghost function From(txs: Octets, count: nat, i: nat): seq<Part>
    requires i <= count && 4 * count <= |txs| && Ascending(txs, count)
    decreases count - i
  {
    if i == count then []
    else
      assert TransactionOk(txs, count, i);
      [Variable(txs[Start(txs, count, i)..Start(txs, count, i + 1)])] + From(txs, count, i + 1)
  }

  predicate AllTx(ps: seq<Part>) { forall i :: 0 <= i < |ps| ==> IsTx(ps[i]) }

  /** `ps` are the transactions from `i` on: their table and their bytes are where they belong. */
  predicate Lays(txs: Octets, count: nat, i: nat, start: nat, ps: seq<Part>)
    requires i <= count && 4 * count <= |txs| && start <= |txs|
  {
    && |ps| == count - i && FixedLen(ps) == 4 * |ps| && AllTx(ps)
    && Heads(ps, start) == txs[4 * i..4 * count] && Bodies(ps) == txs[start..]
  }

  lemma LaysNext(txs: Octets, count: nat, i: nat, start: nat, end: nat, ps: seq<Part>)
    requires i < count && 4 * count <= |txs| && start <= end <= |txs| && end - start <= MAX_BYTES_PER_TRANSACTION
    requires start == U32At(txs, 4 * i) && Lays(txs, count, i + 1, end, ps)
    ensures Lays(txs, count, i, start, [Variable(txs[start..end])] + ps)
  {
    HeadsVariable(txs[start..end], ps, start);
    U32Below(txs, 4 * i);
    Join(txs, 4 * i, 4 * (i + 1), 4 * count);
    Join(txs, start, end, |txs|);
  }

  lemma {:induction false} FromIsEncoding(txs: Octets, count: nat, i: nat)
    requires i <= count && 4 * count <= |txs| && Ascending(txs, count) && Start(txs, count, i) <= |txs|
    ensures Lays(txs, count, i, Start(txs, count, i), From(txs, count, i))
    decreases count - i
  {
    if i < count {
      assert TransactionOk(txs, count, i);
      FromIsEncoding(txs, count, i + 1);
      LaysNext(txs, count, i, Start(txs, count, i), Start(txs, count, i + 1), From(txs, count, i + 1));
    }
  }

  /** A region that passes and whose first offset is not zero is the encoding of the transactions
      between its offsets. */
  lemma AcceptedIsTxList(txs: Octets) returns (ps: seq<Part>)
    requires TransactionsLayoutOk(txs) && (txs == [] || U32At(txs, 0) != 0)
    ensures IsTxList(ps) && Serialize(ps) == txs && |ps| == Count(txs)
  {
    if txs == [] {
      ps := [];
    } else {
      var count := U32At(txs, 0) / 4;
      ps := From(txs, count, 0);
      FromIsEncoding(txs, count, 0);
      Join(txs, 0, 4 * count, |txs|);
    }
  }

  // ---------------------------------------------------------------- encodings pass

  lemma {:induction false} OffsetsRead(ps: seq<Part>, at: nat, i: nat)
    requires i < |ps| && (forall j :: 0 <= j < |ps| ==> ps[j].Variable?) && at + |Bodies(ps)| < TWO_32
    ensures |Heads(ps, at)| == 4 * |ps| == FixedLen(ps)
    ensures U32At(Heads(ps, at), 4 * i) == at + |Bodies(ps[..i])|
  {
    TableLength(ps, at);
    var b, rest := ps[0].bytes, ps[1..];
    assert ps == [Variable(b)] + rest;
    HeadsVariable(b, rest, at);
    TableLength(rest, at + |b|);
    if i == 0 {
      U32Head(at, Heads(rest, at + |b|));
    } else {
      OffsetsRead(rest, at + |b|, i - 1);
      U32Skip(ToLe(at, OFFSET), Heads(rest, at + |b|), 4 * i);
      assert ps[..i] == [Variable(b)] + rest[..i - 1];
      HeadsVariable(b, rest[..i - 1], at);
    }
  }

  lemma {:induction false} TableLength(ps: seq<Part>, at: nat)
    requires forall j :: 0 <= j < |ps| ==> ps[j].Variable?
    ensures |Heads(ps, at)| == 4 * |ps| == FixedLen(ps)
  {
    if ps != [] { TableLength(ps[1..], at + |ps[0].bytes|); }
  }

  lemma {:induction false} BodiesNext(ps: seq<Part>, i: nat)
    requires i < |ps| && forall j :: 0 <= j < |ps| ==> ps[j].Variable?
    ensures |Bodies(ps[..i + 1])| == |Bodies(ps[..i])| + |ps[i].bytes|
    ensures |Bodies(ps[..i + 1])| <= |Bodies(ps)|
  {
    var first, rest := ps[0], ps[1..];
    assert ps[..i + 1] == [first] + rest[..i];
    assert ps == [first] + rest;
    HeadsVariable(first.bytes, rest[..i], 0);
    HeadsVariable(first.bytes, rest, 0);
    if i > 0 {
      BodiesNext(rest, i - 1);
      assert ps[..i] == [first] + rest[..i - 1];
      HeadsVariable(first.bytes, rest[..i - 1], 0);
    }
  }

  lemma EncodedTxOk(ps: seq<Part>, txs: Octets, i: nat)
    requires IsTxList(ps) && i < |ps| && txs == Serialize(ps) && |txs| < TWO_32
    ensures |txs| >= 4 * |ps| && TransactionOk(txs, |ps|, i)
  {
    var n := |ps|;
    assert IsTx(ps[i]);
    TableLength(ps, 4 * n);
    OffsetsRead(ps, 4 * n, i);
    U32Prefix(Heads(ps, 4 * n), Bodies(ps), 4 * i);
    BodiesNext(ps, i);
    if i + 1 < n {
      OffsetsRead(ps, 4 * n, i + 1);
      U32Prefix(Heads(ps, 4 * n), Bodies(ps), 4 * (i + 1));
    } else {
      assert ps[..i + 1] == ps;
    }
  }

  /** Every encoding of a list of transactions within the limits passes, with that many counted. */
  lemma TxListIsAccepted(ps: seq<Part>)
    requires IsTxList(ps) && |Serialize(ps)| < TWO_32
    ensures TransactionsLayoutOk(Serialize(ps)) && Count(Serialize(ps)) == |ps|
    ensures ps != [] ==> |Serialize(ps)| >= 4 && U32At(Serialize(ps), 0) == 4 * |ps|
  {
    if ps != [] {
      FirstOffset(ps);
      forall i | 0 <= i < |ps| ensures TransactionOk(Serialize(ps), |ps|, i) { EncodedTxOk(ps, Serialize(ps), i); }
    }
  }

  lemma FirstOffset(ps: seq<Part>)
    requires IsTxList(ps) && ps != [] && |Serialize(ps)| < TWO_32
    ensures |Serialize(ps)| >= 4 * |ps| && U32At(Serialize(ps), 0) == 4 * |ps|
  {
    TableLength(ps, 4 * |ps|);
    OffsetsRead(ps, 4 * |ps|, 0);
    U32Prefix(Heads(ps, 4 * |ps|), Bodies(ps), 0);
    assert ps[..0] == [];
  }

  /** A region whose first offset is zero always passes, counts no transactions, and encodes no
      list: its bytes belong to no transaction. */
  lemma ZeroOffsetIsAccepted(txs: Octets)
    requires 4 <= |txs| < TWO_32 && U32At(txs, 0) == 0
    ensures TransactionsLayoutOk(txs) && Count(txs) == 0
    ensures forall ps :: IsTxList(ps) ==> Serialize(ps) != txs
  {
    forall ps | IsTxList(ps) ensures Serialize(ps) != txs {
      if ps != [] && |Serialize(ps)| < TWO_32 { TxListIsAccepted(ps); }
    }
  }

  /** Exactly which regions pass. */
  lemma AcceptedExactly(txs: Octets)
    requires |txs| < TWO_32
    ensures TransactionsLayoutOk(txs)
       <==> (exists ps :: IsTxList(ps) && Serialize(ps) == txs) || (|txs| >= 4 && U32At(txs, 0) == 0)
  {
    if TransactionsLayoutOk(txs) && (txs == [] || U32At(txs, 0) != 0) {
      var ps := AcceptedIsTxList(txs);
    } else if exists ps :: IsTxList(ps) && Serialize(ps) == txs {
      var ps :| IsTxList(ps) && Serialize(ps) == txs;
      TxListIsAccepted(ps);
    } else if |txs| >= 4 && U32At(txs, 0) == 0 {
      ZeroOffsetIsAccepted(txs);
    }
  }

  /** The transactions are determined by the region. */
  lemma TxListIsUnique(ps: seq<Part>, qs: seq<Part>)
    requires IsTxList(ps) && IsTxList(qs) && Serialize(ps) == Serialize(qs) && |Serialize(ps)| < TWO_32
    ensures ps == qs
  {
    TxListIsAccepted(ps);
    TxListIsAccepted(qs);
    SameShape(ps, qs);
    SerializeIsInjective(ps, qs);
  }

  lemma {:induction false} SameShape(ps: seq<Part>, qs: seq<Part>)
    requires |ps| == |qs|
    requires forall j :: 0 <= j < |ps| ==> ps[j].Variable? && qs[j].Variable?
    ensures ShapeOf(ps) == ShapeOf(qs)
  {
    if ps != [] { SameShape(ps[1..], qs[1..]); }
  }
}
