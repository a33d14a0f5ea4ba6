/**
 * What the relay builds from a Gloas submission: the unsigned bid, the envelope, its signed form
 * and the contents published with it. Each is the SSZ encoding of its container, and reading the
 * published contents gives back the submission's own sections.
 */
module GloasEnvelope {
  import opened Bytes
  import opened Ssz
  import opened Gloas
  import opened GloasLayout

  const BID_FIXED: nat := 224
  const ENVELOPE_FIXED: nat := 80
  const SIGNED_FIXED: nat := 100
  const BUILDER_INDEX_AT: nat := 156

  predicate Accepted(v: View)
  {
    v.InBounds() && PayloadLayoutOk(v.Payload()) && BlobsBundleLayoutOk(v.Bundle())
  }

  // ---------------------------------------------------------------- envelope

  function EnvelopeFields(
    payload: Octets, requests: Octets, builderIndex: u64, root: Octets, parentRoot: Octets): seq<Part>
  {
    [Variable(payload), Variable(requests), Fixed(ToLe(builderIndex, 8)), Fixed(root), Fixed(parentRoot)]
  }

  lemma EnvelopeBytes(payload: Octets, requests: Octets, builderIndex: u64, root: Octets, parentRoot: Octets)
    requires |root| == 32 && |parentRoot| == 32
    ensures Serialize(EnvelopeFields(payload, requests, builderIndex, root, parentRoot))
         == ToLe(ENVELOPE_FIXED, OFFSET) + (ToLe(ENVELOPE_FIXED + |payload|, OFFSET)
              + (ToLe(builderIndex, 8) + (root + parentRoot))) + (payload + requests)
  {
    var index, at := ToLe(builderIndex, 8), ENVELOPE_FIXED + |payload| + |requests|;
    var tail := [Fixed(index), Fixed(root), Fixed(parentRoot)];
    ThreeFixed(index, root, parentRoot, at);
    TwoVariables(payload, requests, tail, ENVELOPE_FIXED, ENVELOPE_FIXED + |payload|);
    assert EnvelopeFields(payload, requests, builderIndex, root, parentRoot)
        == [Variable(payload)] + ([Variable(requests)] + tail);
  }

  lemma ThreeFixed(a: Octets, b: Octets, c: Octets, at: nat)
    ensures var ps := [Fixed(a), Fixed(b), Fixed(c)];
            Heads(ps, at) == a + (b + c) && Bodies(ps) == [] && FixedLen(ps) == |a| + |b| + |c|
  {
    assert [Fixed(c)] == [Fixed(c)] + [];
    assert [Fixed(b), Fixed(c)] == [Fixed(b)] + [Fixed(c)];
    assert [Fixed(a), Fixed(b), Fixed(c)] == [Fixed(a)] + [Fixed(b), Fixed(c)];
    HeadsFixed(c, [], at);
    HeadsFixed(b, [Fixed(c)], at);
    HeadsFixed(a, [Fixed(b), Fixed(c)], at);
  }

  method Envelope(v: View, builderIndex: u64, root: Octets, parentRoot: Octets) returns (b: Octets)
    requires Accepted(v) && |root| == 32 && |parentRoot| == 32
    ensures b == Serialize(EnvelopeFields(v.Payload(), v.Requests(), builderIndex, root, parentRoot))
    ensures |b| == ENVELOPE_FIXED + |v.Payload()| + |v.Requests()|
  {
    var payload, requests := v.Payload(), v.Requests();
    b := ToLe(ENVELOPE_FIXED, OFFSET);
    b := b + ToLe(ENVELOPE_FIXED + |payload|, OFFSET);
    b := b + ToLe(builderIndex, 8);
    b := b + root;
    b := b + parentRoot;
    b := b + payload;
    b := b + requests;
    EnvelopeBytes(payload, requests, builderIndex, root, parentRoot);
  }

  // ---------------------------------------------------------------- signed message

  function SignedFields(message: Octets, signature: Octets): seq<Part>
  {
    [Variable(message), Fixed(signature)]
  }

  lemma SignedBytes(message: Octets, signature: Octets)
    requires |signature| == SIGNATURE_SIZE
    ensures Serialize(SignedFields(message, signature)) == ToLe(SIGNED_FIXED, OFFSET) + signature + message
  {
    assert [Fixed(signature)] == [Fixed(signature)] + [];
    assert SignedFields(message, signature) == [Variable(message)] + [Fixed(signature)];
    HeadsFixed(signature, [], SIGNED_FIXED + |message|);
    HeadsVariable(message, [Fixed(signature)], SIGNED_FIXED);
  }

  method Signed(message: Octets, signature: Octets) returns (b: Octets)
    requires |signature| == SIGNATURE_SIZE
    ensures b == Serialize(SignedFields(message, signature)) && |b| == SIGNED_FIXED + |message|
  {
    b := ToLe(SIGNED_FIXED, OFFSET);
    b := b + signature;
    b := b + message;
    SignedBytes(message, signature);
  }

  // ---------------------------------------------------------------- published contents

  method EnvelopeContents(v: View, signedEnvelope: Octets) returns (b: Octets)
    requires Accepted(v)
    ensures b == Serialize(BundleFields(BundleParts(signedEnvelope, v.BundleSection(1), v.BundleSection(2))))
    ensures |b| == 12 + |signedEnvelope| + |v.BundleSection(1)| + |v.BundleSection(2)|
  {
    var proofs, blobs := v.BundleSection(1), v.BundleSection(2);
    var proofsOffset := 12 + |signedEnvelope|;
    var blobsOffset := proofsOffset + |proofs|;
    b := ToLe(12, OFFSET);
    b := b + ToLe(proofsOffset, OFFSET);
    b := b + ToLe(blobsOffset, OFFSET);
    b := b + signedEnvelope;
    b := b + proofs;
    b := b + blobs;
    BundleBytes(BundleParts(signedEnvelope, proofs, blobs));
  }

  /** Reading the published contents gives the signed envelope with the submission's proofs and blobs,
      reading that gives the envelope, and reading the envelope gives the submission's payload and
      requests, exactly when the last offset of the contents fits its four bytes. */
  lemma ContentsReadBack(
    v: View, builderIndex: u64, root: Octets, parentRoot: Octets, signature: Octets,
    envelope: Octets, signed: Octets, contents: Octets)
    requires Accepted(v)
    requires |root| == 32 && |parentRoot| == 32 && |signature| == SIGNATURE_SIZE
    requires envelope == Serialize(EnvelopeFields(v.Payload(), v.Requests(), builderIndex, root, parentRoot))
    requires signed == Serialize(SignedFields(envelope, signature))
    requires contents == Serialize(BundleFields(BundleParts(signed, v.BundleSection(1), v.BundleSection(2))))
    ensures && Deserialize(contents, [VariableSize, VariableSize, VariableSize])
               == Some([Variable(signed), Variable(v.BundleSection(1)), Variable(v.BundleSection(2))])
            && Deserialize(signed, [VariableSize, FixedSize(SIGNATURE_SIZE)])
               == Some([Variable(envelope), Fixed(signature)])
            && Deserialize(envelope, EnvelopeShape)
               == Some(EnvelopeFields(v.Payload(), v.Requests(), builderIndex, root, parentRoot))
       <==> 12 + SIGNED_FIXED + ENVELOPE_FIXED + |v.Payload()| + |v.Requests()| + |v.BundleSection(1)| < TWO_32
  {
    EnvelopeReads(v.Payload(), v.Requests(), builderIndex, root, parentRoot, envelope);
    SignedReads(envelope, signature, signed);
    ContentsRead(signed, v.BundleSection(1), v.BundleSection(2), contents);
  }

  const EnvelopeShape := [VariableSize, VariableSize, FixedSize(8), FixedSize(32), FixedSize(32)]

  lemma EnvelopeFits(payload: Octets, requests: Octets, a: Octets, b: Octets, c: Octets)
    ensures OffsetsFit([Variable(payload), Variable(requests), Fixed(a), Fixed(b), Fixed(c)], ENVELOPE_FIXED)
       <==> ENVELOPE_FIXED + |payload| < TWO_32
  {
    var tail := [Fixed(a), Fixed(b), Fixed(c)];
    FixedFit(tail, ENVELOPE_FIXED + |payload| + |requests|);
    FitsNext(Variable(requests), tail, ENVELOPE_FIXED + |payload|);
    FitsNext(Variable(payload), [Variable(requests)] + tail, ENVELOPE_FIXED);
    assert [Variable(payload), Variable(requests), Fixed(a), Fixed(b), Fixed(c)]
        == [Variable(payload)] + ([Variable(requests)] + tail);
  }

  lemma EnvelopeReads(payload: Octets, requests: Octets, index: u64, root: Octets, parentRoot: Octets, envelope: Octets)
    requires |root| == 32 && |parentRoot| == 32
    requires envelope == Serialize(EnvelopeFields(payload, requests, index, root, parentRoot))
    ensures |envelope| == ENVELOPE_FIXED + |payload| + |requests|
    ensures Deserialize(envelope, EnvelopeShape) == Some(EnvelopeFields(payload, requests, index, root, parentRoot))
       <==> ENVELOPE_FIXED + |payload| < TWO_32
  {
    var ps := EnvelopeFields(payload, requests, index, root, parentRoot);
    EnvelopeBytes(payload, requests, index, root, parentRoot);
    EnvelopeFixedLen(payload, requests, ToLe(index, 8), root, parentRoot);
    EnvelopeFits(payload, requests, ToLe(index, 8), root, parentRoot);
    DeserializeSerialize(ps);
    ShapeOfEnvelope(ps);
  }

  lemma EnvelopeFixedLen(payload: Octets, requests: Octets, a: Octets, b: Octets, c: Octets)
    ensures FixedLen([Variable(payload), Variable(requests), Fixed(a), Fixed(b), Fixed(c)]) == 8 + |a| + |b| + |c|
  {
    var tail := [Fixed(a), Fixed(b), Fixed(c)];
    ThreeFixed(a, b, c, 0);
    TwoVariables(payload, requests, tail, 0, |payload|);
    assert [Variable(payload), Variable(requests), Fixed(a), Fixed(b), Fixed(c)]
        == [Variable(payload)] + ([Variable(requests)] + tail);
  }

  lemma ShapeOfEnvelope(ps: seq<Part>)
    requires |ps| == 5 && ps[0].Variable? && ps[1].Variable? && ps[2].Fixed? && ps[3].Fixed? && ps[4].Fixed?
    ensures ShapeOf(ps)
         == [VariableSize, VariableSize, FixedSize(|ps[2].bytes|), FixedSize(|ps[3].bytes|), FixedSize(|ps[4].bytes|)]
  {
    var p4 := ps[4..];
    var p3 := ps[3..];
    var p2 := ps[2..];
    assert p4[1..] == [] && p3[1..] == p4 && p2[1..] == p3 && ps[1..][1..] == p2;
    assert ShapeOf(p4) == [FixedSize(|ps[4].bytes|)];
    assert ShapeOf(p3) == [FixedSize(|ps[3].bytes|), FixedSize(|ps[4].bytes|)];
    assert ShapeOf(p2) == [FixedSize(|ps[2].bytes|), FixedSize(|ps[3].bytes|), FixedSize(|ps[4].bytes|)];
  }

  /** The one offset of a signed message is a constant, so it always reads back. */
  lemma SignedReads(message: Octets, signature: Octets, signed: Octets)
    requires |signature| == SIGNATURE_SIZE
    requires signed == Serialize(SignedFields(message, signature))
    ensures |signed| == SIGNED_FIXED + |message|
    ensures Deserialize(signed, [VariableSize, FixedSize(SIGNATURE_SIZE)]) == Some(SignedFields(message, signature))
  {
    SignedBytes(message, signature);
    var ps, tail := SignedFields(message, signature), [Fixed(signature)];
    assert ps == [Variable(message)] + tail && tail == tail + [];
    HeadsFixed(signature, [], 0);
    HeadsVariable(message, tail, 0);
    FixedFit(tail, SIGNED_FIXED + |message|);
    FitsNext(Variable(message), tail, SIGNED_FIXED);
    DeserializeSerialize(ps);
    assert ps[1..][1..] == [];
    assert ShapeOf(ps[1..]) == [FixedSize(SIGNATURE_SIZE)];
    assert ShapeOf(ps) == [VariableSize, FixedSize(SIGNATURE_SIZE)];
  }

  lemma ContentsFit(a: Octets, b: Octets, c: Octets)
    ensures FixedLen([Variable(a), Variable(b), Variable(c)]) == 12
    ensures OffsetsFit([Variable(a), Variable(b), Variable(c)], 12) <==> 12 + |a| + |b| < TWO_32
  {
    var p3 := [Variable(c)];
    assert p3 == [Variable(c)] + [];
    HeadsVariable(c, [], 0);
    TwoVariables(a, b, p3, 0, |a|);
    FitsNext(Variable(c), [], 12 + |a| + |b|);
    FitsNext(Variable(b), p3, 12 + |a|);
    FitsNext(Variable(a), [Variable(b)] + p3, 12);
    assert [Variable(a), Variable(b), Variable(c)] == [Variable(a)] + ([Variable(b)] + p3);
  }

  lemma ContentsRead(signed: Octets, proofs: Octets, blobs: Octets, contents: Octets)
    requires contents == Serialize(BundleFields(BundleParts(signed, proofs, blobs)))
    ensures Deserialize(contents, [VariableSize, VariableSize, VariableSize])
         == Some([Variable(signed), Variable(proofs), Variable(blobs)])
       <==> 12 + |signed| + |proofs| < TWO_32
  {
    var ps := BundleFields(BundleParts(signed, proofs, blobs));
    ContentsFit(signed, proofs, blobs);
    DeserializeSerialize(ps);
    assert ps[1..][1..][1..] == [];
    assert ShapeOf(ps[1..][1..]) == [VariableSize];
    assert ShapeOf(ps[1..]) == [VariableSize, VariableSize];
    assert ShapeOf(ps) == [VariableSize, VariableSize, VariableSize];
  }
}
