/** The unsigned bid built from a Gloas submission, and setting its builder index in place. */
module GloasBid {
  import opened Bytes
  import opened Ssz
  import opened Gloas
  import opened GloasEnvelope

  datatype Bid = Bid(
    parentHash: Octets, parentBlockRoot: Octets, blockHash: Octets, prevRandao: Octets, feeRecipient: Octets,
    gasLimit: u64, builderIndex: u64, slot: u64, value: u64, executionPayment: u64,
    commitments: Octets, requestsRoot: Octets)

  predicate BidFits(b: Bid)
  {
    && |b.parentHash| == |b.parentBlockRoot| == |b.blockHash| == |b.prevRandao| == 32
    && |b.feeRecipient| == 20 && |b.requestsRoot| == 32
  }

  function BidFields(b: Bid): seq<Part>
  {
    [Fixed(b.parentHash), Fixed(b.parentBlockRoot), Fixed(b.blockHash), Fixed(b.prevRandao), Fixed(b.feeRecipient),
     Fixed(ToLe(b.gasLimit, 8)), Fixed(ToLe(b.builderIndex, 8)), Fixed(ToLe(b.slot, 8)), Fixed(ToLe(b.value, 8)),
     Fixed(ToLe(b.executionPayment, 8)), Variable(b.commitments), Fixed(b.requestsRoot)]
  }

  function BidFront(b: Bid): Octets
  {
    b.parentHash + (b.parentBlockRoot + (b.blockHash + (b.prevRandao + (b.feeRecipient + ToLe(b.gasLimit, 8)))))
  }

  function BidBack(b: Bid): Octets
  {
    ToLe(b.slot, 8) + (ToLe(b.value, 8) + (ToLe(b.executionPayment, 8)
      + (ToLe(BID_FIXED, OFFSET) + (b.requestsRoot + b.commitments))))
  }

  lemma LastBytes(b: Bid, last: seq<Part>)
    requires last == [Variable(b.commitments), Fixed(b.requestsRoot)]
    ensures Heads(last, BID_FIXED) == ToLe(BID_FIXED, OFFSET) + b.requestsRoot
    ensures Bodies(last) == b.commitments && FixedLen(last) == OFFSET + |b.requestsRoot|
  {
    assert last == [Variable(b.commitments)] + [Fixed(b.requestsRoot)];
    assert [Fixed(b.requestsRoot)] == [Fixed(b.requestsRoot)] + [];
    HeadsFixed(b.requestsRoot, [], BID_FIXED + |b.commitments|);
    HeadsVariable(b.commitments, [Fixed(b.requestsRoot)], BID_FIXED);
  }

  lemma BackBytes(b: Bid, ps: seq<Part>)
    requires ps == BidFields(b)[7..]
    ensures Heads(ps, BID_FIXED) + Bodies(ps) == BidBack(b)
    ensures FixedLen(ps) == 28 + |b.requestsRoot|
  {
    var last := [Variable(b.commitments), Fixed(b.requestsRoot)];
    LastBytes(b, last);
    ThreeMore(ToLe(b.slot, 8), ToLe(b.value, 8), ToLe(b.executionPayment, 8), last, BID_FIXED);
    assert ps == [Fixed(ToLe(b.slot, 8))] + ([Fixed(ToLe(b.value, 8))] + ([Fixed(ToLe(b.executionPayment, 8))] + last));
  }

  lemma ThreeMore(a: Octets, b: Octets, c: Octets, rest: seq<Part>, at: nat)
    ensures var ps := [Fixed(a)] + ([Fixed(b)] + ([Fixed(c)] + rest));
            && Heads(ps, at) == a + (b + (c + Heads(rest, at))) && Bodies(ps) == Bodies(rest)
            && FixedLen(ps) == |a| + |b| + |c| + FixedLen(rest)
  {
    HeadsFixed(c, rest, at);
    HeadsFixed(b, [Fixed(c)] + rest, at);
    HeadsFixed(a, [Fixed(b)] + ([Fixed(c)] + rest), at);
  }

  /** The bid's parts, with those after the gas limit as `rest`. */
  function FrontThen(b: Bid, rest: seq<Part>): seq<Part>
  {
    [Fixed(b.parentHash)] + ([Fixed(b.parentBlockRoot)] + ([Fixed(b.blockHash)]
      + ([Fixed(b.prevRandao)] + ([Fixed(b.feeRecipient)] + ([Fixed(ToLe(b.gasLimit, 8))] + rest)))))
  }

  lemma FrontBytes(b: Bid, rest: seq<Part>)
    ensures Heads(FrontThen(b, rest), BID_FIXED) == BidFront(b) + Heads(rest, BID_FIXED)
    ensures Bodies(FrontThen(b, rest)) == Bodies(rest)
    ensures BidFits(b) ==> |BidFront(b)| == BUILDER_INDEX_AT
    ensures BidFits(b) ==> FixedLen(FrontThen(b, rest)) == BUILDER_INDEX_AT + FixedLen(rest)
  {
    var mid := [Fixed(b.prevRandao)] + ([Fixed(b.feeRecipient)] + ([Fixed(ToLe(b.gasLimit, 8))] + rest));
    ThreeMore(b.prevRandao, b.feeRecipient, ToLe(b.gasLimit, 8), rest, BID_FIXED);
    ThreeMore(b.parentHash, b.parentBlockRoot, b.blockHash, mid, BID_FIXED);
  }

  lemma FieldsSplit(b: Bid, back: seq<Part>)
    requires back == BidFields(b)[7..]
    ensures BidFields(b) == FrontThen(b, [Fixed(ToLe(b.builderIndex, 8))] + back)
  {}

  lemma Assemble(ps: seq<Part>, front: Octets, word: Octets, heads: Octets, bodies: Octets)
    requires FixedLen(ps) == BID_FIXED && Heads(ps, BID_FIXED) == front + (word + heads) && Bodies(ps) == bodies
    ensures Serialize(ps) == front + (word + (heads + bodies))
  {}

  lemma BidBytes(b: Bid)
    requires BidFits(b)
    ensures |BidFront(b)| == BUILDER_INDEX_AT && FixedLen(BidFields(b)) == BID_FIXED
    ensures Serialize(BidFields(b)) == BidFront(b) + (ToLe(b.builderIndex, 8) + BidBack(b))
  {
    var back := BidFields(b)[7..];
    BackBytes(b, back);
    BidHeads(b, back, [Fixed(ToLe(b.builderIndex, 8))] + back);
    FieldsSplit(b, back);
    Assemble(BidFields(b), BidFront(b), ToLe(b.builderIndex, 8), Heads(back, BID_FIXED), Bodies(back));
  }

  lemma BidHeads(b: Bid, back: seq<Part>, index: seq<Part>)
    requires BidFits(b) && index == [Fixed(ToLe(b.builderIndex, 8))] + back && FixedLen(back) == 60
    ensures |BidFront(b)| == BUILDER_INDEX_AT && FixedLen(FrontThen(b, index)) == BID_FIXED
    ensures Heads(FrontThen(b, index), BID_FIXED) == BidFront(b) + (ToLe(b.builderIndex, 8) + Heads(back, BID_FIXED))
    ensures Bodies(FrontThen(b, index)) == Bodies(back)
  {
    HeadsFixed(ToLe(b.builderIndex, 8), back, BID_FIXED);
    FrontBytes(b, index);
  }

  /** The bid a submission stands for; the builder index and the value are left at zero. */
  function BidOf(v: View, parentBlockRoot: Octets, feeRecipient: Octets, payment: u64, requestsRoot: Octets): Bid
    requires Accepted(v)
  {
    var d := v.Payload();
    Bid(d[0..32], parentBlockRoot, d[472..504], d[372..404], feeRecipient, U64At(d, 412), 0, U64At(d, 532), 0, payment,
        v.BundleSection(0), requestsRoot)
  }

  function U64At(b: Octets, at: nat): u64
    requires at + 8 <= |b|
  {
    FromLeBound(b[at..at + 8]);
    Pow256Word();
    FromLe(b[at..at + 8])
  }

  method UnsignedBid(v: View, parentBlockRoot: Octets, feeRecipient: Octets, payment: u64, requestsRoot: Octets)
    returns (bid: Octets)
    requires Accepted(v) && |parentBlockRoot| == 32 && |feeRecipient| == 20 && |requestsRoot| == 32
    ensures bid == Serialize(BidFields(BidOf(v, parentBlockRoot, feeRecipient, payment, requestsRoot)))
    ensures |bid| == BID_FIXED + |v.BundleSection(0)|
  {
    var d := v.Payload();
    ghost var b := BidOf(v, parentBlockRoot, feeRecipient, payment, requestsRoot);
    BidBytes(b);
    bid := d[0..32];
    bid := bid + parentBlockRoot;
    bid := bid + d[472..504];
    bid := bid + d[372..404];
    bid := bid + feeRecipient;
    bid := bid + ToLe(U64At(d, 412), 8);
    assert bid == BidFront(b);
    bid := bid + ToLe(0, 8);
    var back := ToLe(U64At(d, 532), 8);
    back := back + ToLe(0, 8);
    back := back + ToLe(payment, 8);
    back := back + ToLe(BID_FIXED, OFFSET);
    back := back + requestsRoot;
    back := back + v.BundleSection(0);
    assert back == BidBack(b);
    bid := bid + back;
  }

  /** Overwrites the builder index of an encoded bid, and nothing else. */
  method SetBidBuilderIndex(bid: array<byte>, builderIndex: u64, ghost b: Bid)
    requires BidFits(b) && bid[..] == Serialize(BidFields(b))
    modifies bid
    ensures bid[..] == Serialize(BidFields(b.(builderIndex := builderIndex)))
  {
    BidBytes(b);
    BidBytes(b.(builderIndex := builderIndex));
    var word := ToLe(builderIndex, 8);
    ghost var before := bid[..];
    for i := 0 to 8
      invariant forall j :: 0 <= j < bid.Length ==>
        bid[j] == if BUILDER_INDEX_AT <= j < BUILDER_INDEX_AT + i then word[j - BUILDER_INDEX_AT] else before[j]
    {
      bid[BUILDER_INDEX_AT + i] := word[i];
    }
    assert bid[..] == BidFront(b) + (word + BidBack(b));
  }

  /** Every bid reads back field by field: its one offset is a constant. */
  lemma BidReads(b: Bid)
    requires BidFits(b)
    ensures Deserialize(Serialize(BidFields(b)), ShapeOf(BidFields(b))) == Some(BidFields(b))
    ensures |Serialize(BidFields(b))| == BID_FIXED + |b.commitments|
  {
    BidBytes(b);
    OneOffsetFits(BidFields(b), BID_FIXED);
    DeserializeSerialize(BidFields(b));
  }
}
