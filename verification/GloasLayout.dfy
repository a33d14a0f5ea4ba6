/**
 * An accepted Gloas submission is exactly the SSZ encoding of the sections its slices give, and
 * every encoding of sections within the limits is accepted.
 */
module GloasLayout {
  import opened Bytes
  import opened Ssz
  import opened Gloas

  // ---------------------------------------------------------------- blobs bundle

  lemma BundleBytes(b: BundleParts)
    ensures Serialize(BundleFields(b))
         == ToLe(12, OFFSET) + (ToLe(12 + |b.commitments|, OFFSET) + (ToLe(12 + |b.commitments| + |b.proofs|, OFFSET)
            + (b.commitments + (b.proofs + b.blobs))))
  {
    var n := 12 + |b.commitments|;
    HeadsVariable(b.blobs, [], n + |b.proofs|);
    HeadsVariable(b.proofs, [Variable(b.blobs)], n);
    HeadsVariable(b.commitments, [Variable(b.proofs), Variable(b.blobs)], 12);
    assert BundleFields(b) == [Variable(b.commitments)] + [Variable(b.proofs), Variable(b.blobs)];
    assert [Variable(b.proofs), Variable(b.blobs)] == [Variable(b.proofs)] + [Variable(b.blobs)];
    assert [Variable(b.blobs)] == [Variable(b.blobs)] + [];
  }

  lemma BundleIsEncoding(d: Octets)
    requires BlobsBundleLayoutOk(d)
    ensures BundleFits(BundleOf(d)) && Serialize(BundleFields(BundleOf(d))) == d
  {
    ThreeSections(d, U32At(d, 4), U32At(d, 8));
  }

  /** Three offsets that cut the bytes into three sections. */
  lemma ThreeSections(d: Octets, proofs: nat, blobs: nat)
    requires |d| >= 12 && U32At(d, 0) == 12 && U32At(d, 4) == proofs && U32At(d, 8) == blobs
    requires 12 <= proofs <= blobs <= |d|
    ensures Serialize(BundleFields(BundleParts(d[12..proofs], d[proofs..blobs], d[blobs..]))) == d
  {
    BundleBytes(BundleParts(d[12..proofs], d[proofs..blobs], d[blobs..]));
    Join(d, proofs, blobs, |d|);
    Join(d, 12, proofs, |d|);
    ThreeWords(d, proofs, blobs);
  }

  lemma ThreeWords(d: Octets, proofs: nat, blobs: nat)
    requires |d| >= 12 && U32At(d, 0) == 12 && U32At(d, 4) == proofs && U32At(d, 8) == blobs
    ensures ToLe(12, OFFSET) + (ToLe(proofs, OFFSET) + (ToLe(blobs, OFFSET) + d[12..])) == d
  {
    U32Below(d, 0);
    U32Below(d, 4);
    U32Below(d, 8);
    Join(d, 8, 12, |d|);
    Join(d, 4, 8, |d|);
    Join(d, 0, 4, |d|);
  }

  lemma BundleReads(b: BundleParts, d: Octets)
    requires d == Serialize(BundleFields(b)) && |d| < TWO_32
    ensures |d| == 12 + |b.commitments| + |b.proofs| + |b.blobs|
    ensures U32At(d, 0) == 12 && U32At(d, 4) == 12 + |b.commitments| && U32At(d, 8) == 12 + |b.commitments| + |b.proofs|
    ensures d[12..] == b.commitments + (b.proofs + b.blobs)
  {
    BundleBytes(b);
    var n := 12 + |b.commitments|;
    var w0, w1, w2 := ToLe(12, OFFSET), ToLe(n, OFFSET), ToLe(n + |b.proofs|, OFFSET);
    var rest := b.commitments + (b.proofs + b.blobs);
    U32Head(12, w1 + (w2 + rest));
    U32Skip(w0, w1 + (w2 + rest), 4);
    U32Head(n, w2 + rest);
    U32Skip(w0, w1 + (w2 + rest), 8);
    U32Skip(w1, w2 + rest, 4);
    U32Head(n + |b.proofs|, rest);
  }

  lemma EncodedBundleReads(b: BundleParts, d: Octets)
    requires d == Serialize(BundleFields(b)) && |d| < TWO_32 && BundleFits(b)
    ensures BlobsBundleLayoutOk(d) && BundleOf(d) == b
  {
    BundleReads(b, d);
    BundleSlices(b, d);
  }

  lemma BundleSlices(b: BundleParts, d: Octets)
    requires |d| >= 12 && d[12..] == b.commitments + (b.proofs + b.blobs)
    ensures var proofs := 12 + |b.commitments|;
            var blobs := proofs + |b.proofs|;
            d[12..proofs] == b.commitments && d[proofs..blobs] == b.proofs && d[blobs..] == b.blobs
  {
    BodySlices(d[..12], b.commitments, b.proofs, b.blobs, []);
    assert b.blobs + [] == b.blobs;
    assert d == d[..12] + d[12..];
  }

  // ---------------------------------------------------------------- execution payload

  /** The last three fields of the fixed part, with the access list at `accessList`. */
  function PayloadTail(p: PayloadParts, accessList: nat): Octets
  {
    p.blobGas + (ToLe(accessList, OFFSET) + p.slot)
  }

  function PayloadHead(p: PayloadParts, txs: nat, withdrawals: nat, accessList: nat): Octets
  {
    p.header + (ToLe(EXECUTION_PAYLOAD_FIXED, OFFSET)
                + (p.fees + (ToLe(txs, OFFSET) + (ToLe(withdrawals, OFFSET) + PayloadTail(p, accessList)))))
  }

  lemma PayloadBytes(p: PayloadParts, txs: nat, withdrawals: nat, accessList: nat)
    requires PayloadSizes(p)
    requires txs == EXECUTION_PAYLOAD_FIXED + |p.extraData|
    requires withdrawals == txs + |p.transactions| && accessList == withdrawals + |p.withdrawals|
    ensures Serialize(PayloadFields(p))
         == PayloadHead(p, txs, withdrawals, accessList)
            + (p.extraData + (p.transactions + (p.withdrawals + p.accessList)))
  {
    var tail := [Fixed(p.blobGas), Variable(p.accessList), Fixed(p.slot)];
    PayloadTailBytes(p, accessList, tail);
    TwoVariables(p.transactions, p.withdrawals, tail, txs, withdrawals);
    var lists := [Variable(p.transactions)] + ([Variable(p.withdrawals)] + tail);
    PayloadFrontBytes(p, txs, lists);
    assert PayloadFields(p) == [Fixed(p.header)] + ([Variable(p.extraData)] + ([Fixed(p.fees)] + lists));
  }

  lemma PayloadTailBytes(p: PayloadParts, accessList: nat, tail: seq<Part>)
    requires PayloadSizes(p) && tail == [Fixed(p.blobGas), Variable(p.accessList), Fixed(p.slot)]
    ensures Heads(tail, accessList) == PayloadTail(p, accessList) && FixedLen(tail) == 28
    ensures Bodies(tail) == p.accessList
  {
    var slot := [Fixed(p.slot)];
    assert slot == [Fixed(p.slot)] + [];
    HeadsFixed(p.slot, [], accessList + |p.accessList|);
    HeadsVariable(p.accessList, slot, accessList);
    HeadsFixed(p.blobGas, [Variable(p.accessList)] + slot, accessList);
    assert tail == [Fixed(p.blobGas)] + ([Variable(p.accessList)] + slot);
  }

  lemma PayloadFrontBytes(p: PayloadParts, txs: nat, lists: seq<Part>)
    requires txs == EXECUTION_PAYLOAD_FIXED + |p.extraData|
    ensures var ps := [Fixed(p.header)] + ([Variable(p.extraData)] + ([Fixed(p.fees)] + lists));
            && Heads(ps, EXECUTION_PAYLOAD_FIXED)
                 == p.header + (ToLe(EXECUTION_PAYLOAD_FIXED, OFFSET) + (p.fees + Heads(lists, txs)))
            && FixedLen(ps) == |p.header| + 4 + |p.fees| + FixedLen(lists)
            && Bodies(ps) == p.extraData + Bodies(lists)
  {
    var fees := [Fixed(p.fees)] + lists;
    HeadsFixed(p.fees, lists, txs);
    HeadsVariable(p.extraData, fees, EXECUTION_PAYLOAD_FIXED);
    HeadsFixed(p.header, [Variable(p.extraData)] + fees, EXECUTION_PAYLOAD_FIXED);
  }

  /** The four offsets read back from the fixed part. */
  lemma PayloadHeadReads(p: PayloadParts, txs: nat, withdrawals: nat, accessList: nat)
    requires PayloadSizes(p) && txs < TWO_32 && withdrawals < TWO_32 && accessList < TWO_32
    ensures |PayloadHead(p, txs, withdrawals, accessList)| == EXECUTION_PAYLOAD_FIXED
    ensures var h := PayloadHead(p, txs, withdrawals, accessList);
            && U32At(h, EXTRA_DATA_AT) == EXECUTION_PAYLOAD_FIXED && U32At(h, TRANSACTIONS_AT) == txs
            && U32At(h, WITHDRAWALS_AT) == withdrawals && U32At(h, BLOCK_ACCESS_LIST_AT) == accessList
  {
    var t3 := ToLe(accessList, OFFSET) + p.slot;
    var t2 := ToLe(withdrawals, OFFSET) + PayloadTail(p, accessList);
    var t1 := ToLe(txs, OFFSET) + t2;
    var t0 := ToLe(EXECUTION_PAYLOAD_FIXED, OFFSET) + (p.fees + t1);
    U32Head(EXECUTION_PAYLOAD_FIXED, p.fees + t1);
    U32Skip(p.header, t0, EXTRA_DATA_AT);
    U32Head(txs, t2);
    U32Skip(p.fees, t1, 64);
    U32Skip(ToLe(EXECUTION_PAYLOAD_FIXED, OFFSET), p.fees + t1, 68);
    U32Skip(p.header, t0, TRANSACTIONS_AT);
    PayloadTailReads(p, withdrawals, accessList);
    U32Skip(ToLe(txs, OFFSET), t2, 4);
    U32Skip(p.fees, t1, 68);
    U32Skip(ToLe(EXECUTION_PAYLOAD_FIXED, OFFSET), p.fees + t1, 72);
    U32Skip(p.header, t0, WITHDRAWALS_AT);
    U32Skip(ToLe(txs, OFFSET), t2, 24);
    U32Skip(p.fees, t1, 88);
    U32Skip(ToLe(EXECUTION_PAYLOAD_FIXED, OFFSET), p.fees + t1, 92);
    U32Skip(p.header, t0, BLOCK_ACCESS_LIST_AT);
  }

  lemma PayloadTailReads(p: PayloadParts, withdrawals: nat, accessList: nat)
    requires PayloadSizes(p) && withdrawals < TWO_32 && accessList < TWO_32
    ensures var t := ToLe(withdrawals, OFFSET) + PayloadTail(p, accessList);
            |t| == 32 && U32At(t, 0) == withdrawals && U32At(t, 20) == accessList
  {
    U32Head(withdrawals, PayloadTail(p, accessList));
    U32Skip(ToLe(withdrawals, OFFSET), PayloadTail(p, accessList), 20);
    U32Skip(p.blobGas, ToLe(accessList, OFFSET) + p.slot, 16);
    U32Head(accessList, p.slot);
  }

  lemma PayloadIsEncoding(d: Octets)
    requires PayloadLayoutOk(d)
    ensures PayloadFits(PayloadOf(d)) && Serialize(PayloadFields(PayloadOf(d))) == d
  {
    var p := PayloadOf(d);
    var txs, withdrawals := U32At(d, TRANSACTIONS_AT), U32At(d, WITHDRAWALS_AT);
    var accessList := U32At(d, BLOCK_ACCESS_LIST_AT);
    PayloadBytes(p, txs, withdrawals, accessList);
    PayloadHeadIs(d, p, txs, withdrawals, accessList);
    FourBodies(d, EXECUTION_PAYLOAD_FIXED, txs, withdrawals, accessList);
    Join(d, 0, EXECUTION_PAYLOAD_FIXED, |d|);
  }

  lemma FourBodies(d: Octets, a: nat, b: nat, c: nat, e: nat)
    requires a <= b <= c <= e <= |d|
    ensures d[a..b] + (d[b..c] + (d[c..e] + d[e..])) == d[a..]
  {
    Join(d, c, e, |d|);
    Join(d, b, c, |d|);
    Join(d, a, b, |d|);
  }

  lemma PayloadHeadIs(d: Octets, p: PayloadParts, txs: nat, withdrawals: nat, accessList: nat)
    requires PayloadLayoutOk(d) && p == PayloadOf(d)
    requires txs == U32At(d, TRANSACTIONS_AT) && withdrawals == U32At(d, WITHDRAWALS_AT)
    requires accessList == U32At(d, BLOCK_ACCESS_LIST_AT)
    ensures PayloadHead(p, txs, withdrawals, accessList) == d[0..EXECUTION_PAYLOAD_FIXED]
  {
    U32Below(d, EXTRA_DATA_AT);
    U32Below(d, TRANSACTIONS_AT);
    U32Below(d, WITHDRAWALS_AT);
    U32Below(d, BLOCK_ACCESS_LIST_AT);
    Join(d, BLOCK_ACCESS_LIST_AT, BLOCK_ACCESS_LIST_AT + 4, EXECUTION_PAYLOAD_FIXED);
    Join(d, WITHDRAWALS_AT + 4, BLOCK_ACCESS_LIST_AT, EXECUTION_PAYLOAD_FIXED);
    Join(d, WITHDRAWALS_AT, WITHDRAWALS_AT + 4, EXECUTION_PAYLOAD_FIXED);
    Join(d, TRANSACTIONS_AT, WITHDRAWALS_AT, EXECUTION_PAYLOAD_FIXED);
    Join(d, EXTRA_DATA_AT + 4, TRANSACTIONS_AT, EXECUTION_PAYLOAD_FIXED);
    Join(d, EXTRA_DATA_AT, EXTRA_DATA_AT + 4, EXECUTION_PAYLOAD_FIXED);
    Join(d, 0, EXTRA_DATA_AT, EXECUTION_PAYLOAD_FIXED);
  }

  lemma EncodedPayloadReads(p: PayloadParts, d: Octets)
    requires d == Serialize(PayloadFields(p)) && |d| < TWO_32 && PayloadFits(p)
    ensures PayloadLayoutOk(d) && PayloadOf(d) == p
  {
    var txs := EXECUTION_PAYLOAD_FIXED + |p.extraData|;
    var withdrawals := txs + |p.transactions|;
    var accessList := withdrawals + |p.withdrawals|;
    var head := PayloadHead(p, txs, withdrawals, accessList);
    var bodies := p.extraData + (p.transactions + (p.withdrawals + p.accessList));
    PayloadBytes(p, txs, withdrawals, accessList);
    PayloadHeadReads(p, txs, withdrawals, accessList);
    PayloadHeadSlices(p, txs, withdrawals, accessList, head);
    U32Prefix(head, bodies, EXTRA_DATA_AT);
    U32Prefix(head, bodies, TRANSACTIONS_AT);
    U32Prefix(head, bodies, WITHDRAWALS_AT);
    U32Prefix(head, bodies, BLOCK_ACCESS_LIST_AT);
    BodySlices(head, p.extraData, p.transactions, p.withdrawals, p.accessList);
    HeadSlices(head, bodies, d);
  }

  lemma HeadSlices(head: Octets, bodies: Octets, d: Octets)
    requires |head| == EXECUTION_PAYLOAD_FIXED && d == head + bodies
    ensures d[..EXTRA_DATA_AT] == head[..EXTRA_DATA_AT]
    ensures d[EXTRA_DATA_AT + 4..TRANSACTIONS_AT] == head[EXTRA_DATA_AT + 4..TRANSACTIONS_AT]
    ensures d[WITHDRAWALS_AT + 4..BLOCK_ACCESS_LIST_AT] == head[WITHDRAWALS_AT + 4..BLOCK_ACCESS_LIST_AT]
    ensures d[BLOCK_ACCESS_LIST_AT + 4..EXECUTION_PAYLOAD_FIXED] == head[BLOCK_ACCESS_LIST_AT + 4..]
  {}

  lemma PayloadHeadSlices(p: PayloadParts, txs: nat, withdrawals: nat, accessList: nat, head: Octets)
    requires PayloadSizes(p) && head == PayloadHead(p, txs, withdrawals, accessList)
    ensures |head| == EXECUTION_PAYLOAD_FIXED && head[..EXTRA_DATA_AT] == p.header
    ensures head[EXTRA_DATA_AT + 4..TRANSACTIONS_AT] == p.fees
    ensures head[WITHDRAWALS_AT + 4..BLOCK_ACCESS_LIST_AT] == p.blobGas
    ensures head[BLOCK_ACCESS_LIST_AT + 4..] == p.slot
  {}

  lemma BodySlices(h: Octets, a: Octets, b: Octets, c: Octets, e: Octets)
    ensures var d := h + (a + (b + (c + e)));
            var i, j, k := |h| + |a|, |h| + |a| + |b|, |h| + |a| + |b| + |c|;
            d[|h|..i] == a && d[i..j] == b && d[j..k] == c && d[k..] == e
  {
    var rest := a + (b + (c + e));
    assert (h + rest)[|h|..|h| + |a|] == a;
    assert (h + rest)[|h| + |a|..] == b + (c + e);
  }

  // ---------------------------------------------------------------- the submission

  function SubmissionHead(trace: Octets, blobs: nat, requests: nat, signature: Octets): Octets
  {
    trace + (ToLe(SUBMISSION_FIXED, OFFSET) + (ToLe(blobs, OFFSET) + (ToLe(requests, OFFSET) + signature)))
  }

  lemma SubmissionBytes(
    trace: Octets, payload: Octets, bundle: Octets, requests: Octets, signature: Octets, blobs: nat, reqs: nat)
    requires |trace| == GLOAS_BID_TRACE_SIZE && |signature| == SIGNATURE_SIZE
    requires blobs == SUBMISSION_FIXED + |payload| && reqs == blobs + |bundle|
    ensures Serialize(SubmissionFields(trace, payload, bundle, requests, signature))
         == SubmissionHead(trace, blobs, reqs, signature) + (payload + (bundle + requests))
  {
    var last := [Fixed(signature)];
    assert last == [Fixed(signature)] + [];
    HeadsFixed(signature, [], reqs + |requests|);
    TwoVariables(bundle, requests, last, blobs, reqs);
    var mid := [Variable(bundle)] + ([Variable(requests)] + last);
    SubmissionFront(trace, payload, mid);
    assert SubmissionFields(trace, payload, bundle, requests, signature)
        == [Fixed(trace)] + ([Variable(payload)] + mid);
  }

  lemma SubmissionFront(trace: Octets, payload: Octets, rest: seq<Part>)
    ensures var ps := [Fixed(trace)] + ([Variable(payload)] + rest);
            && Heads(ps, SUBMISSION_FIXED)
                 == trace + (ToLe(SUBMISSION_FIXED, OFFSET) + Heads(rest, SUBMISSION_FIXED + |payload|))
            && FixedLen(ps) == |trace| + 4 + FixedLen(rest)
            && Bodies(ps) == payload + Bodies(rest)
  {
    HeadsVariable(payload, rest, SUBMISSION_FIXED);
    HeadsFixed(trace, [Variable(payload)] + rest, SUBMISSION_FIXED);
  }

  lemma SubmissionHeadReads(trace: Octets, blobs: nat, requests: nat, signature: Octets, h: Octets)
    requires |trace| == GLOAS_BID_TRACE_SIZE && |signature| == SIGNATURE_SIZE && blobs < TWO_32 && requests < TWO_32
    requires h == SubmissionHead(trace, blobs, requests, signature)
    ensures |h| == SUBMISSION_FIXED && h[..GLOAS_BID_TRACE_SIZE] == trace && h[GLOAS_BID_TRACE_SIZE + 12..] == signature
    ensures U32At(h, GLOAS_BID_TRACE_SIZE) == SUBMISSION_FIXED
    ensures U32At(h, GLOAS_BID_TRACE_SIZE + 4) == blobs && U32At(h, GLOAS_BID_TRACE_SIZE + 8) == requests
  {
    var t2 := ToLe(requests, OFFSET) + signature;
    var t1 := ToLe(blobs, OFFSET) + t2;
    var t0 := ToLe(SUBMISSION_FIXED, OFFSET) + t1;
    U32Head(SUBMISSION_FIXED, t1);
    U32Skip(trace, t0, GLOAS_BID_TRACE_SIZE);
    U32Head(blobs, t2);
    U32Skip(ToLe(SUBMISSION_FIXED, OFFSET), t1, 4);
    U32Skip(trace, t0, GLOAS_BID_TRACE_SIZE + 4);
    U32Head(requests, signature);
    U32Skip(ToLe(blobs, OFFSET), t2, 4);
    U32Skip(ToLe(SUBMISSION_FIXED, OFFSET), t1, 8);
    U32Skip(trace, t0, GLOAS_BID_TRACE_SIZE + 8);
  }

  lemma SubmissionHeadIs(b: Octets)
    requires |b| >= SUBMISSION_FIXED && U32At(b, GLOAS_BID_TRACE_SIZE) == SUBMISSION_FIXED
    ensures SubmissionHead(b[..GLOAS_BID_TRACE_SIZE], U32At(b, GLOAS_BID_TRACE_SIZE + 4),
                           U32At(b, GLOAS_BID_TRACE_SIZE + 8), b[GLOAS_BID_TRACE_SIZE + 12..SUBMISSION_FIXED])
         == b[0..SUBMISSION_FIXED]
  {
    var at := GLOAS_BID_TRACE_SIZE;
    U32Below(b, at);
    U32Below(b, at + 4);
    U32Below(b, at + 8);
    Join(b, at + 8, at + 12, SUBMISSION_FIXED);
    Join(b, at + 4, at + 8, SUBMISSION_FIXED);
    Join(b, at, at + 4, SUBMISSION_FIXED);
    Join(b, 0, at, SUBMISSION_FIXED);
  }

  lemma SubmissionIsEncoding(v: View)
    requires v.InBounds() && U32At(v.bytes, GLOAS_BID_TRACE_SIZE) == SUBMISSION_FIXED
    requires v.blobsOffset == U32At(v.bytes, GLOAS_BID_TRACE_SIZE + 4)
    requires v.requestsOffset == U32At(v.bytes, GLOAS_BID_TRACE_SIZE + 8)
    ensures Serialize(SubmissionFields(v.Trace(), v.Payload(), v.Bundle(), v.Requests(), v.Signature())) == v.bytes
  {
    var b := v.bytes;
    SubmissionBytes(v.Trace(), v.Payload(), v.Bundle(), v.Requests(), v.Signature(), v.blobsOffset, v.requestsOffset);
    SubmissionHeadIs(b);
    Join(b, v.blobsOffset, v.requestsOffset, |b|);
    Join(b, SUBMISSION_FIXED, v.blobsOffset, |b|);
    Join(b, 0, SUBMISSION_FIXED, |b|);
  }

  lemma SectionsAreBundle(v: View)
    requires v.InBounds() && BlobsBundleLayoutOk(v.Bundle())
    ensures BundleParts(v.BundleSection(0), v.BundleSection(1), v.BundleSection(2)) == BundleOf(v.Bundle())
  {}

  /** Accepted bytes are the encoding of the sections that the slices give, and those keep every
      limit: the sections partition the bytes, and blobs, commitments and proofs agree in number. */
  lemma AcceptedIsEncoding(bytes: Octets, canonical: Octets -> bool)
    requires FromSszBytes(bytes, canonical).Ok?
    ensures var c := ContentOf(FromSszBytes(bytes, canonical).view);
            ContentFits(c, canonical) && Encode(c) == bytes
  {
    var v := FromSszBytes(bytes, canonical).view;
    SubmissionIsEncoding(v);
    PayloadIsEncoding(v.Payload());
    BundleIsEncoding(v.Bundle());
    SectionsAreBundle(v);
  }

  lemma EncodedSubmissionReads(
    trace: Octets, payload: Octets, bundle: Octets, requests: Octets, signature: Octets, b: Octets, v: View)
    requires |trace| == GLOAS_BID_TRACE_SIZE && |signature| == SIGNATURE_SIZE
    requires b == Serialize(SubmissionFields(trace, payload, bundle, requests, signature)) && |b| < TWO_32
    requires v == View(b, SUBMISSION_FIXED + |payload|, SUBMISSION_FIXED + |payload| + |bundle|)
    ensures |b| >= SUBMISSION_FIXED && U32At(b, GLOAS_BID_TRACE_SIZE) == SUBMISSION_FIXED
    ensures v.blobsOffset == U32At(b, GLOAS_BID_TRACE_SIZE + 4)
    ensures v.requestsOffset == U32At(b, GLOAS_BID_TRACE_SIZE + 8)
    ensures v.InBounds() && v.Trace() == trace && v.Payload() == payload && v.Bundle() == bundle
    ensures v.Requests() == requests && v.Signature() == signature
  {
    var blobs, reqs := v.blobsOffset, v.requestsOffset;
    var head, bodies := SubmissionHead(trace, blobs, reqs, signature), payload + (bundle + requests);
    SubmissionBytes(trace, payload, bundle, requests, signature, blobs, reqs);
    SubmissionHeadReads(trace, blobs, reqs, signature, head);
    U32Prefix(head, bodies, GLOAS_BID_TRACE_SIZE);
    U32Prefix(head, bodies, GLOAS_BID_TRACE_SIZE + 4);
    U32Prefix(head, bodies, GLOAS_BID_TRACE_SIZE + 8);
    assert b[..GLOAS_BID_TRACE_SIZE] == head[..GLOAS_BID_TRACE_SIZE];
    assert b[GLOAS_BID_TRACE_SIZE + 12..SUBMISSION_FIXED] == head[GLOAS_BID_TRACE_SIZE + 12..];
    BodySlices(head, payload, bundle, requests, []);
    assert requests + [] == requests;
  }

  /** Every encoding of sections within the limits is accepted, and its slices are those sections. */
  lemma EncodingIsAccepted(c: Content, canonical: Octets -> bool)
    requires ContentFits(c, canonical) && |Encode(c)| < TWO_32
    ensures FromSszBytes(Encode(c), canonical).Ok?
    ensures ContentOf(FromSszBytes(Encode(c), canonical).view) == c
  {
    var payload, bundle, b := Serialize(PayloadFields(c.payload)), Serialize(BundleFields(c.bundle)), Encode(c);
    var v := View(b, SUBMISSION_FIXED + |payload|, SUBMISSION_FIXED + |payload| + |bundle|);
    EncodedSubmissionReads(c.trace, payload, bundle, c.requests, c.signature, b, v);
    EncodedPayloadReads(c.payload, payload);
    EncodedBundleReads(c.bundle, bundle);
    SectionsAreBundle(v);
  }
}
