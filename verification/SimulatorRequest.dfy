/**
 * The borrowed encoders of the simulator's validation requests (crates/common/src/simulator.rs):
 * they write the SSZ container of the owned request without staging its fields.
 *
 * A field that encodes itself is given by its encoding.
 */
module SimulatorRequest {
  import opened Bytes
  import opened Ssz

  const FIXED_LEN: nat := 53
  const ROOT: nat := 32

  datatype Request = Request(
    applyBlacklist: bool, registeredGasLimit: u64, parentBeaconBlockRoot: Octets,
    inclusionList: Octets, decoderParams: Octets, submission: Octets)

  predicate RequestFits(r: Request) { |r.parentBeaconBlockRoot| == ROOT }

  function BoolByte(b: bool): Octets { if b then [1] else [0] }

  /** The owned request: its fields in the order they are declared. */
  function RequestFields(r: Request): seq<Part>
  {
    [Fixed(BoolByte(r.applyBlacklist)), Fixed(ToLe(r.registeredGasLimit, 8)), Fixed(r.parentBeaconBlockRoot),
     Variable(r.inclusionList), Variable(r.decoderParams), Variable(r.submission)]
  }

  /** The owned merged request has one more field, declared last. */
  function MergedFields(r: Request, basePaymentTxIndex: u64): seq<Part>
  {
    RequestFields(r) + [Fixed(ToLe(basePaymentTxIndex, 8))]
  }

  // ---------------------------------------------------------------- the container written out

  function Encoded(r: Request, extra: Octets): Octets
  {
    var n := FIXED_LEN + |extra|;
    var m := n + |r.inclusionList|;
    BoolByte(r.applyBlacklist) + (ToLe(r.registeredGasLimit, 8) + (r.parentBeaconBlockRoot
      + (ToLe(n, OFFSET) + (ToLe(m, OFFSET) + (ToLe(m + |r.decoderParams|, OFFSET) + extra)))))
    + (r.inclusionList + (r.decoderParams + r.submission))
  }

  lemma ListsBytes(r: Request, last: seq<Part>, extra: Octets, n: nat, m: nat)
    requires Heads(last, m + |r.decoderParams| + |r.submission|) == extra && Bodies(last) == []
    requires FixedLen(last) == |extra|
    requires m == n + |r.inclusionList|
    ensures var ps := [Variable(r.inclusionList)] + ([Variable(r.decoderParams)] + ([Variable(r.submission)] + last));
            && Heads(ps, n) == ToLe(n, OFFSET) + (ToLe(m, OFFSET) + (ToLe(m + |r.decoderParams|, OFFSET) + extra))
            && Bodies(ps) == r.inclusionList + (r.decoderParams + r.submission)
            && FixedLen(ps) == 12 + |extra|
  {
    HeadsVariable(r.submission, last, m + |r.decoderParams|);
    TwoVariables(r.inclusionList, r.decoderParams, [Variable(r.submission)] + last, n, m);
    assert r.submission + [] == r.submission;
  }

  lemma FrontBytes(r: Request, lists: seq<Part>, n: nat)
    requires RequestFits(r)
    ensures var ps := [Fixed(BoolByte(r.applyBlacklist))] + ([Fixed(ToLe(r.registeredGasLimit, 8))]
                        + ([Fixed(r.parentBeaconBlockRoot)] + lists));
            && Heads(ps, n) == BoolByte(r.applyBlacklist)
                 + (ToLe(r.registeredGasLimit, 8) + (r.parentBeaconBlockRoot + Heads(lists, n)))
            && Bodies(ps) == Bodies(lists) && FixedLen(ps) == 41 + FixedLen(lists)
  {
    HeadsFixed(r.parentBeaconBlockRoot, lists, n);
    HeadsFixed(ToLe(r.registeredGasLimit, 8), [Fixed(r.parentBeaconBlockRoot)] + lists, n);
    HeadsFixed(BoolByte(r.applyBlacklist),
               [Fixed(ToLe(r.registeredGasLimit, 8))] + ([Fixed(r.parentBeaconBlockRoot)] + lists), n);
  }

  lemma FieldsBytes(r: Request, last: seq<Part>, extra: Octets)
    requires RequestFits(r) && FixedLen(last) == |extra| && Bodies(last) == []
    requires forall at: nat :: Heads(last, at) == extra
    ensures Serialize(RequestFields(r) + last) == Encoded(r, extra)
    ensures FixedLen(RequestFields(r) + last) == FIXED_LEN + |extra|
  {
    var n := FIXED_LEN + |extra|;
    var lists := [Variable(r.inclusionList)] + ([Variable(r.decoderParams)] + ([Variable(r.submission)] + last));
    ListsBytes(r, last, extra, n, n + |r.inclusionList|);
    FrontBytes(r, lists, n);
    assert RequestFields(r) + last
        == [Fixed(BoolByte(r.applyBlacklist))] + ([Fixed(ToLe(r.registeredGasLimit, 8))]
             + ([Fixed(r.parentBeaconBlockRoot)] + lists));
  }

  lemma RequestBytes(r: Request)
    requires RequestFits(r)
    ensures Serialize(RequestFields(r)) == Encoded(r, []) && FixedLen(RequestFields(r)) == FIXED_LEN
  {
    FieldsBytes(r, [], []);
    assert RequestFields(r) + [] == RequestFields(r);
  }

  lemma MergedBytes(r: Request, index: u64)
    requires RequestFits(r)
    ensures Serialize(MergedFields(r, index)) == Encoded(r, ToLe(index, 8))
    ensures FixedLen(MergedFields(r, index)) == FIXED_LEN + 8
  {
    var last := [Fixed(ToLe(index, 8))];
    forall at: nat ensures Heads(last, at) == ToLe(index, 8) {
      HeadsFixed(ToLe(index, 8), [], at);
      assert last == last + [];
    }
    HeadsFixed(ToLe(index, 8), [], 0);
    assert last == last + [];
    FieldsBytes(r, last, ToLe(index, 8));
  }

  // ---------------------------------------------------------------- the borrowed encoders

  /** Appends the fixed parts with a running offset, then `extraFixed`, then the variable parts. */
  method AppendWith(r: Request, extraFixed: Octets, buf: Octets) returns (out: Octets)
    ensures out == buf + Encoded(r, extraFixed)
  {
    var offset := FIXED_LEN + |extraFixed|;
    out := BoolByte(r.applyBlacklist);
    out := out + ToLe(r.registeredGasLimit, 8);
    out := out + r.parentBeaconBlockRoot;
    out := out + ToLe(offset, OFFSET);
    offset := offset + |r.inclusionList|;
    out := out + ToLe(offset, OFFSET);
    offset := offset + |r.decoderParams|;
    out := out + ToLe(offset, OFFSET);
    out := out + extraFixed;
    out := out + r.inclusionList;
    out := out + r.decoderParams;
    out := out + r.submission;
    assert out == Encoded(r, extraFixed);
    out := buf + out;
  }

  function BytesLenWith(r: Request, extraFixed: nat): nat
  {
    FIXED_LEN + extraFixed + |r.inclusionList| + |r.decoderParams| + |r.submission|
  }

  /** `SszValidationRequestRef`: appends the owned request's encoding. */
  method AppendRequest(r: Request, buf: Octets) returns (out: Octets)
    requires RequestFits(r)
    ensures out == buf + Serialize(RequestFields(r))
    ensures |out| == |buf| + BytesLenWith(r, 0)
  {
    RequestBytes(r);
    out := AppendWith(r, [], buf);
  }

  /** `SszMergedValidationRequestRef`: the field after the last variable one joins the fixed parts. */
  method AppendMerged(r: Request, basePaymentTxIndex: u64, buf: Octets) returns (out: Octets)
    requires RequestFits(r)
    ensures out == buf + Serialize(MergedFields(r, basePaymentTxIndex))
    ensures |out| == |buf| + BytesLenWith(r, 8)
  {
    MergedBytes(r, basePaymentTxIndex);
    out := AppendWith(r, ToLe(basePaymentTxIndex, 8), buf);
  }

  // ---------------------------------------------------------------- reading it back

  const RequestShape := [FixedSize(1), FixedSize(8), FixedSize(ROOT), VariableSize, VariableSize, VariableSize]
  const MergedShape :=
    [FixedSize(1), FixedSize(8), FixedSize(ROOT), VariableSize, VariableSize, VariableSize, FixedSize(8)]

  lemma ShapeOfLists(ps: seq<Part>, last: seq<Part>)
    requires |ps| == 3 + |last| && ps[3..] == last && ps[0].Variable? && ps[1].Variable? && ps[2].Variable?
    ensures ShapeOf(ps) == [VariableSize, VariableSize, VariableSize] + ShapeOf(last)
  {
    assert ps[1..][1..][1..] == last;
    assert ShapeOf(ps[1..][1..]) == [VariableSize] + ShapeOf(last);
    assert ShapeOf(ps[1..]) == [VariableSize, VariableSize] + ShapeOf(last);
  }

  lemma ShapeOfRequest(r: Request, last: seq<Part>)
    requires RequestFits(r)
    ensures ShapeOf(RequestFields(r) + last) == RequestShape + ShapeOf(last)
  {
    var ps := RequestFields(r) + last;
    var lists := ps[1..][1..][1..];
    ShapeOfLists(lists, last);
    assert ShapeOf(ps[1..][1..]) == [FixedSize(ROOT)] + ShapeOf(lists);
    assert ShapeOf(ps[1..]) == [FixedSize(8), FixedSize(ROOT)] + ShapeOf(lists);
    assert ShapeOf(ps) == [FixedSize(1), FixedSize(8), FixedSize(ROOT)] + ShapeOf(lists);
  }

  lemma EndsWithSubmission(r: Request, extra: Octets)
    requires RequestFits(r)
    ensures |Encoded(r, extra)| == BytesLenWith(r, |extra|)
    ensures Encoded(r, extra)[BytesLenWith(r, |extra|) - |r.submission|..] == r.submission
  {}

  lemma ListsFit(a: Octets, b: Octets, c: Octets, last: seq<Part>, at: nat)
    requires forall i :: 0 <= i < |last| ==> last[i].Fixed?
    ensures OffsetsFit([Variable(a)] + ([Variable(b)] + ([Variable(c)] + last)), at) <==> at + |a| + |b| < TWO_32
  {
    FixedFit(last, at + |a| + |b| + |c|);
    FitsNext(Variable(c), last, at + |a| + |b|);
    FitsNext(Variable(b), [Variable(c)] + last, at + |a|);
    FitsNext(Variable(a), [Variable(b)] + ([Variable(c)] + last), at);
  }

  lemma RequestOffsetsFit(r: Request, last: seq<Part>, at: nat)
    requires forall i :: 0 <= i < |last| ==> last[i].Fixed?
    ensures OffsetsFit(RequestFields(r) + last, at) <==> at + |r.inclusionList| + |r.decoderParams| < TWO_32
  {
    var lists := [Variable(r.inclusionList)] + ([Variable(r.decoderParams)] + ([Variable(r.submission)] + last));
    var fs := RequestFields(r);
    ListsFit(r.inclusionList, r.decoderParams, r.submission, last, at);
    FitsNext(fs[2], lists, at);
    FitsNext(fs[1], [fs[2]] + lists, at);
    FitsNext(fs[0], [fs[1]] + ([fs[2]] + lists), at);
    assert fs + last == [fs[0]] + ([fs[1]] + ([fs[2]] + lists));
  }

  /** Reading by offsets gives back every field of either request exactly when the last offset fits its
      four bytes, and the submission is the end of the encoding. */
  lemma RequestReads(r: Request)
    requires RequestFits(r)
    ensures Deserialize(Serialize(RequestFields(r)), RequestShape) == Some(RequestFields(r))
       <==> FIXED_LEN + |r.inclusionList| + |r.decoderParams| < TWO_32
    ensures |Serialize(RequestFields(r))| == BytesLenWith(r, 0)
    ensures Serialize(RequestFields(r))[BytesLenWith(r, 0) - |r.submission|..] == r.submission
  {
    RequestBytes(r);
    ShapeOfRequest(r, []);
    assert RequestFields(r) + [] == RequestFields(r) && RequestShape + [] == RequestShape;
    RequestOffsetsFit(r, [], FIXED_LEN);
    DeserializeSerialize(RequestFields(r));
    EndsWithSubmission(r, []);
  }

  lemma MergedReads(r: Request, index: u64)
    requires RequestFits(r)
    ensures Deserialize(Serialize(MergedFields(r, index)), MergedShape) == Some(MergedFields(r, index))
       <==> FIXED_LEN + 8 + |r.inclusionList| + |r.decoderParams| < TWO_32
    ensures |Serialize(MergedFields(r, index))| == BytesLenWith(r, 8)
    ensures Serialize(MergedFields(r, index))[BytesLenWith(r, 8) - |r.submission|..] == r.submission
  {
    MergedBytes(r, index);
    var last := [Fixed(ToLe(index, 8))];
    assert last[1..] == [];
    assert ShapeOf(last) == [FixedSize(8)];
    ShapeOfRequest(r, last);
    assert RequestShape + [FixedSize(8)] == MergedShape;
    RequestOffsetsFit(r, last, FIXED_LEN + 8);
    DeserializeSerialize(MergedFields(r, index));
    EndsWithSubmission(r, ToLe(index, 8));
  }
}
