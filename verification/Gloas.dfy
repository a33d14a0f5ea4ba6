/**
 * Gloas bid submissions kept as bytes (crates/types/src/gloas.rs): the layout checks made once on
 * arrival, and the slices taken on the strength of them.
 *
 * The field offsets inside the execution payload follow the field order of the Gloas
 * ExecutionPayload container; the canonical check of the execution requests is any predicate.
 */
module Gloas {
  import opened Bytes
  import opened Ssz

  const GLOAS_BID_TRACE_SIZE: nat := 268
  const SIGNATURE_SIZE: nat := 96
  const SUBMISSION_FIXED: nat := 376
  const WITHDRAWAL_SIZE: nat := 44
  const EXECUTION_PAYLOAD_FIXED: nat := 540
  const EXTRA_DATA_AT: nat := 436
  const TRANSACTIONS_AT: nat := 504
  const WITHDRAWALS_AT: nat := 508
  const BLOCK_ACCESS_LIST_AT: nat := 528
  const BYTES_PER_BLOB: nat := 131072
  const BYTES_PER_COMMITMENT: nat := 48
  const PROOF_BYTES_PER_BLOB: nat := 6144

  // ---------------------------------------------------------------- layout checks

  predicate TransactionOk(txs: Octets, count: nat, i: nat)
    requires i < count && 4 * count <= |txs|
  {
    var start := U32At(txs, 4 * i);
    var end := if i + 1 < count then U32At(txs, 4 * (i + 1)) else |txs|;
    start <= end && end <= |txs| && end - start <= MAX_BYTES_PER_TRANSACTION
  }

  predicate TransactionsLayoutOk(txs: Octets)
  {
    txs == [] ||
    (&& |txs| >= 4
     && U32At(txs, 0) % 4 == 0 && U32At(txs, 0) <= |txs| && U32At(txs, 0) / 4 <= MAX_TRANSACTIONS_PER_PAYLOAD
     && forall i :: 0 <= i < U32At(txs, 0) / 4 ==> TransactionOk(txs, U32At(txs, 0) / 4, i))
  }

  predicate PayloadLayoutOk(d: Octets)
  {
    && |d| >= EXECUTION_PAYLOAD_FIXED
    && var extra, txs := U32At(d, EXTRA_DATA_AT), U32At(d, TRANSACTIONS_AT);
       var withdrawals, accessList := U32At(d, WITHDRAWALS_AT), U32At(d, BLOCK_ACCESS_LIST_AT);
       && extra == EXECUTION_PAYLOAD_FIXED
       && extra <= txs <= withdrawals <= accessList <= |d|
       && txs - extra <= MAX_EXTRA_DATA_BYTES
       && (accessList - withdrawals) % WITHDRAWAL_SIZE == 0
       && (accessList - withdrawals) / WITHDRAWAL_SIZE <= MAX_WITHDRAWALS_PER_PAYLOAD
       && TransactionsLayoutOk(d[txs..withdrawals])
  }

  predicate BlobsBundleLayoutOk(bundle: Octets)
  {
    && |bundle| >= 12
    && var commitments, proofs, blobs := U32At(bundle, 0), U32At(bundle, 4), U32At(bundle, 8);
       && commitments == 12 && commitments <= proofs <= blobs <= |bundle|
       && (|bundle| - blobs) % BYTES_PER_BLOB == 0
       && proofs - commitments == (|bundle| - blobs) / BYTES_PER_BLOB * BYTES_PER_COMMITMENT
       && blobs - proofs == (|bundle| - blobs) / BYTES_PER_BLOB * PROOF_BYTES_PER_BLOB
  }

  // ---------------------------------------------------------------- the submission

  /** The bytes with the two offsets that its slices use. */
  datatype View = View(bytes: Octets, blobsOffset: nat, requestsOffset: nat)
  {
    predicate InBounds() { SUBMISSION_FIXED <= blobsOffset <= requestsOffset <= |bytes| }

    function Trace(): Octets requires InBounds() { bytes[..GLOAS_BID_TRACE_SIZE] }
    function Signature(): Octets requires InBounds() { bytes[GLOAS_BID_TRACE_SIZE + 12..SUBMISSION_FIXED] }
    function Payload(): Octets requires InBounds() { bytes[SUBMISSION_FIXED..blobsOffset] }
    function Bundle(): Octets requires InBounds() { bytes[blobsOffset..requestsOffset] }
    function Requests(): Octets requires InBounds() { bytes[requestsOffset..] }

    function BundleSection(i: nat): Octets
      requires InBounds() && BlobsBundleLayoutOk(Bundle()) && i <= 2
    {
      var start := U32At(Bundle(), 4 * i);
      var end := if i < 2 then U32At(Bundle(), 4 * (i + 1)) else |Bundle()|;
      Bundle()[start..end]
    }
  }

  datatype LayoutError = TooShort | SubmissionOffsets | ExecutionPayload | BlobsBundle | ExecutionRequests
  datatype Result = Ok(view: View) | Err(error: LayoutError)

  function FromSszBytes(bytes: Octets, canonical: Octets -> bool): (r: Result)
    ensures r.Ok? ==> r.view.InBounds() && r.view.bytes == bytes
    ensures r.Ok? ==> PayloadLayoutOk(r.view.Payload()) && BlobsBundleLayoutOk(r.view.Bundle())
  {
    if |bytes| < SUBMISSION_FIXED then Err(TooShort)
    else
      var payloadOffset := U32At(bytes, GLOAS_BID_TRACE_SIZE);
      var v := View(bytes, U32At(bytes, GLOAS_BID_TRACE_SIZE + 4), U32At(bytes, GLOAS_BID_TRACE_SIZE + 8));
      if payloadOffset != SUBMISSION_FIXED || !v.InBounds() then Err(SubmissionOffsets)
      else if !PayloadLayoutOk(v.Payload()) then Err(ExecutionPayload)
      else if !BlobsBundleLayoutOk(v.Bundle()) then Err(BlobsBundle)
      else if !canonical(v.Requests()) then Err(ExecutionRequests)
      else Ok(v)
  }

  // ---------------------------------------------------------------- what the bytes stand for

  datatype PayloadParts = PayloadParts(
    header: Octets, extraData: Octets, fees: Octets, transactions: Octets, withdrawals: Octets,
    blobGas: Octets, accessList: Octets, slot: Octets)

  datatype BundleParts = BundleParts(commitments: Octets, proofs: Octets, blobs: Octets)

  datatype Content = Content(
    trace: Octets, signature: Octets, payload: PayloadParts, bundle: BundleParts, requests: Octets)

  function PayloadFields(p: PayloadParts): seq<Part>
  {
    [Fixed(p.header), Variable(p.extraData), Fixed(p.fees), Variable(p.transactions), Variable(p.withdrawals),
     Fixed(p.blobGas), Variable(p.accessList), Fixed(p.slot)]
  }

  function BundleFields(b: BundleParts): seq<Part>
  {
    [Variable(b.commitments), Variable(b.proofs), Variable(b.blobs)]
  }

  function SubmissionFields(
    trace: Octets, payload: Octets, bundle: Octets, requests: Octets, signature: Octets): seq<Part>
  {
    [Fixed(trace), Variable(payload), Variable(bundle), Variable(requests), Fixed(signature)]
  }

  predicate PayloadFits(p: PayloadParts)
  {
    && PayloadSizes(p)
    && |p.extraData| <= MAX_EXTRA_DATA_BYTES
    && |p.withdrawals| % WITHDRAWAL_SIZE == 0 && |p.withdrawals| / WITHDRAWAL_SIZE <= MAX_WITHDRAWALS_PER_PAYLOAD
    && TransactionsLayoutOk(p.transactions)
  }

  /** As many commitments as blobs, and a full set of cell proofs for each. */
  predicate BundleFits(b: BundleParts)
  {
    && |b.blobs| % BYTES_PER_BLOB == 0
    && |b.commitments| == |b.blobs| / BYTES_PER_BLOB * BYTES_PER_COMMITMENT
    && |b.proofs| == |b.blobs| / BYTES_PER_BLOB * PROOF_BYTES_PER_BLOB
  }

  predicate ContentFits(c: Content, canonical: Octets -> bool)
  {
    && |c.trace| == GLOAS_BID_TRACE_SIZE && |c.signature| == SIGNATURE_SIZE
    && PayloadFits(c.payload) && BundleFits(c.bundle) && canonical(c.requests)
  }

  function Encode(c: Content): Octets
  {
    Serialize(SubmissionFields(c.trace, Serialize(PayloadFields(c.payload)), Serialize(BundleFields(c.bundle)),
                               c.requests, c.signature))
  }

  function PayloadOf(d: Octets): PayloadParts
    requires PayloadLayoutOk(d)
  {
    var txs, withdrawals := U32At(d, TRANSACTIONS_AT), U32At(d, WITHDRAWALS_AT);
    var accessList := U32At(d, BLOCK_ACCESS_LIST_AT);
    PayloadParts(d[..EXTRA_DATA_AT], d[EXECUTION_PAYLOAD_FIXED..txs], d[EXTRA_DATA_AT + 4..TRANSACTIONS_AT],
                 d[txs..withdrawals], d[withdrawals..accessList], d[WITHDRAWALS_AT + 4..BLOCK_ACCESS_LIST_AT],
                 d[accessList..], d[BLOCK_ACCESS_LIST_AT + 4..EXECUTION_PAYLOAD_FIXED])
  }

  function ContentOf(v: View): Content
    requires v.InBounds() && PayloadLayoutOk(v.Payload()) && BlobsBundleLayoutOk(v.Bundle())
  {
    Content(v.Trace(), v.Signature(), PayloadOf(v.Payload()),
            BundleParts(v.BundleSection(0), v.BundleSection(1), v.BundleSection(2)), v.Requests())
  }

  function BundleOf(d: Octets): BundleParts
    requires BlobsBundleLayoutOk(d)
  {
    BundleParts(d[12..U32At(d, 4)], d[U32At(d, 4)..U32At(d, 8)], d[U32At(d, 8)..])
  }

  predicate PayloadSizes(p: PayloadParts)
  {
    |p.header| == EXTRA_DATA_AT && |p.fees| == 64 && |p.blobGas| == 16 && |p.slot| == 8
  }
}
