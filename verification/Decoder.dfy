/**
 * The submission decoder's early look at an SSZ body (crates/common/src/decoder.rs): the slot and
 * the builder are read before decoding, from where the bid trace starts in the shape that decoding
 * will pick.
 *
 * `inner` stands for whatever decoding demands of the fields beyond the container layout.
 */
module Decoder {
  import opened Bytes
  import opened Ssz

  const TRACE: nat := 236
  const GLOAS_TRACE: nat := 268
  const BUILDER_AT: nat := 72
  const PEEKED: nat := 120

  datatype MergeType = NoMerge | Mergeable | AppendOnly | Pause
  datatype Fork = Earlier | Fulu | Gloas | Later

  datatype Params = Params(
    merge: MergeType, isDehydrated: bool, dehydratedV2: bool, mergingV2: bool,
    withMergeableData: bool, withAdjustments: bool)

  /** The submission containers that open with the bid trace. */
  datatype Kind =
    | Signed | SignedWithAdjustments | SignedWithAdjustmentsAndMerging | SignedGloas
    | DehydratedV1 | DehydratedV2 | DehydratedWithAdjustments | DehydratedWithMerging
    | DehydratedWithAdjustmentsAndMerging

  const Core: seq<Shape> := [VariableSize, VariableSize, VariableSize, FixedSize(96)]

  function FieldsAfterTrace(kind: Kind): seq<Shape>
  {
    match kind
    case Signed => Core
    case SignedWithAdjustments => Core + [VariableSize]
    case SignedWithAdjustmentsAndMerging => Core + [VariableSize, VariableSize]
    case SignedGloas => Core
    case DehydratedV1 => Core + [VariableSize]
    case DehydratedV2 => Core + [VariableSize, VariableSize, FixedSize(8)]
    case DehydratedWithAdjustments => Core + [VariableSize, VariableSize]
    case DehydratedWithMerging => Core + [VariableSize, VariableSize]
    case DehydratedWithAdjustmentsAndMerging => Core + [VariableSize, VariableSize, VariableSize]
  }

  function TraceSize(kind: Kind): nat { if kind == SignedGloas then GLOAS_TRACE else TRACE }

  function KindShape(kind: Kind): seq<Shape>
  {
    [FixedSize(TraceSize(kind))] + FieldsAfterTrace(kind)
  }

  /** A decoded submission: where its bid trace starts in the body, and the trace. */
  datatype Found = Found(at: nat, trace: Octets)

  type Inner = (Kind, seq<Part>) -> bool

  function DecodeFlat(kind: Kind, inner: Inner, body: Octets): Option<Octets>
  {
    match Deserialize(body, KindShape(kind))
    case None => None
    case Some(ps) =>
      if ps == [] || |ps[0].bytes| < TRACE || !inner(kind, ps) then None else Some(ps[0].bytes[..TRACE])
  }

  function Plain(kind: Kind, inner: Inner, body: Octets): Option<Found>
  {
    match DecodeFlat(kind, inner, body)
    case None => None
    case Some(trace) => Some(Found(0, trace))
  }

  /** A wrapper of `n` variable-size fields whose first is the submission. */
  function Wrapped(n: nat, kind: Kind, inner: Inner, body: Octets): Option<Found>
  {
    match Deserialize(body, seq(n, _ => VariableSize))
    case None => None
    case Some(ps) =>
      if ps == [] then None
      else match DecodeFlat(kind, inner, ps[0].bytes)
        case None => None
        case Some(trace) => Some(Found(4 * n, trace))
  }

  // ---------------------------------------------------------------- the shape decoding picks

  function DecodeV2(p: Params, fork: Fork, inner: Inner, body: Octets): Option<Found>
  {
    if fork != Fulu || (p.mergingV2 && p.merge != Mergeable) then None
    else
      var kind := if p.dehydratedV2 then DehydratedV2 else if p.isDehydrated then DehydratedV1 else Signed;
      if p.withAdjustments && p.merge == Mergeable then Wrapped(3, kind, inner, body)
      else if p.withAdjustments || p.merge == Mergeable then Wrapped(2, kind, inner, body)
      else Plain(kind, inner, body)
  }

  function DecodeDehydrated(p: Params, fork: Fork, inner: Inner, body: Octets): Option<Found>
  {
    if fork != Fulu then None
    else if p.merge == Mergeable
    then Plain(if p.withAdjustments then DehydratedWithAdjustmentsAndMerging else DehydratedWithMerging, inner, body)
    else Plain(if p.withAdjustments then DehydratedWithAdjustments else DehydratedV1, inner, body)
  }

  function DecodeDefault(p: Params, fork: Fork, inner: Inner, body: Octets): Option<Found>
  {
    if fork == Gloas then if p.withAdjustments then None else Plain(SignedGloas, inner, body)
    else Plain(if p.withAdjustments then SignedWithAdjustments else Signed, inner, body)
  }

  function DecodeMerge(p: Params, fork: Fork, inner: Inner, body: Octets): Option<Found>
  {
    if fork == Gloas then None
    else
      var decoded := if p.withAdjustments then Plain(SignedWithAdjustmentsAndMerging, inner, body)
                     else Wrapped(2, Signed, inner, body);
      if decoded == None && p.merge == AppendOnly then DecodeDefault(p, fork, inner, body) else decoded
  }

  function DecodeBody(p: Params, fork: Fork, inner: Inner, body: Octets): Option<Found>
  {
    if p.dehydratedV2 || p.mergingV2 then DecodeV2(p, fork, inner, body)
    else if p.isDehydrated then DecodeDehydrated(p, fork, inner, body)
    else if p.withMergeableData then DecodeMerge(p, fork, inner, body)
    else DecodeDefault(p, fork, inner, body)
  }

  // ---------------------------------------------------------------- the early look

  function OffsetAt(body: Octets, at: nat): Option<nat>
  {
    if at + OFFSET <= |body| then Some(U32At(body, at)) else None
  }

  /** The one combination of flags for which decoding tries two shapes. */
  predicate MayBePlain(p: Params)
  {
    && !p.dehydratedV2 && !p.mergingV2 && !p.isDehydrated && p.withMergeableData && !p.withAdjustments
    && p.merge == AppendOnly
  }

  function SszTraceOffset(p: Params, body: Octets): Option<nat>
  {
    if p.dehydratedV2 || p.mergingV2 then
      if p.merge == Mergeable || p.withAdjustments then OffsetAt(body, 0) else Some(0)
    else if p.isDehydrated || !p.withMergeableData || p.withAdjustments then Some(0)
    else if p.merge == AppendOnly then
      match OffsetAt(body, 0)
      case None => None
      case Some(first) =>
        if first != 8 then Some(0)
        else match OffsetAt(body, 4)
          case None => None
          case Some(second) => if second >= 8 then Some(first) else Some(0)
    else OffsetAt(body, 0)
  }

  function SlotOf(trace: Octets): nat
    requires |trace| >= PEEKED
  {
    FromLe(trace[..8])
  }

  function BuilderOf(trace: Octets): Octets
    requires |trace| >= PEEKED
  {
    trace[BUILDER_AT..PEEKED]
  }

  function PeekSlotAndBuilder(p: Params, body: Octets): Option<(nat, Octets)>
  {
    match SszTraceOffset(p, body)
    case None => None
    case Some(start) =>
      if start + PEEKED > |body| then None
      else
        var trace := body[start..start + PEEKED];
        Some((SlotOf(trace), BuilderOf(trace)))
  }

  function SubmissionSlot(p: Params, body: Octets): Option<nat>
  {
    match SszTraceOffset(p, body)
    case None => None
    case Some(start) => if start + 8 > |body| then None else Some(FromLe(body[start..start + 8]))
  }

  // ---------------------------------------------------------------- where the trace is

  /** A container that opens with a fixed-size field has it as its first bytes. */
  lemma OpensWithFixed(body: Octets, n: nat, rest: seq<Shape>)
    requires Deserialize(body, [FixedSize(n)] + rest).Some?
    ensures var ps := Deserialize(body, [FixedSize(n)] + rest).value;
            ps != [] && |body| >= n && ps[0] == Fixed(body[..n])
  {
    var shape := [FixedSize(n)] + rest;
    var size := SizeOf(shape);
    assert shape[1..] == rest && size == n + SizeOf(rest);
    SplitFixed(body[..size], body[size..], shape, size, Deserialize(body, shape).value);
    assert body[..size][..n] == body[..n];
  }

  lemma TraceOpensBody(kind: Kind, inner: Inner, body: Octets)
    requires DecodeFlat(kind, inner, body).Some?
    ensures |body| >= TRACE && DecodeFlat(kind, inner, body).value == body[..TRACE]
  {
    OpensWithFixed(body, TraceSize(kind), FieldsAfterTrace(kind));
    assert body[..TraceSize(kind)][..TRACE] == body[..TRACE];
  }

  lemma {:induction false} SizeOfOffsets(n: nat)
    ensures SizeOf(seq(n, _ => VariableSize)) == 4 * n
  {
    if n > 0 {
      SizeOfOffsets(n - 1);
      assert seq(n, _ => VariableSize)[1..] == seq(n - 1, _ => VariableSize);
    }
  }

  /** A container that opens with a variable-size field starts with its own fixed size, and that is
      where the field is. */
  lemma OpensWithOffset(body: Octets, n: nat)
    requires n > 0 && Deserialize(body, seq(n, _ => VariableSize)).Some?
    ensures |body| >= 4 * n && U32At(body, 0) == 4 * n
    ensures var ps := Deserialize(body, seq(n, _ => VariableSize)).value;
            ps != [] && 4 * n + |ps[0].bytes| <= |body| && ps[0].bytes == body[4 * n..4 * n + |ps[0].bytes|]
  {
    var shape := seq(n, _ => VariableSize);
    SizeOfOffsets(n);
    var ps := Deserialize(body, shape).value;
    var heads, bodies := body[..4 * n], body[4 * n..];
    var len := SplitVariable(heads, bodies, shape, 4 * n, ps);
    assert bodies[..len] == body[4 * n..4 * n + len];
    assert heads[..OFFSET] == body[0..OFFSET];
  }

  /** The second offset of a wrapper is at least its fixed size. */
  lemma SecondOffset(body: Octets)
    requires Deserialize(body, [VariableSize, VariableSize]).Some?
    ensures |body| >= 8 && U32At(body, 4) >= 8
  {
    var shape := [VariableSize, VariableSize];
    assert shape[1..] == [VariableSize] && [VariableSize][1..] == [];
    assert SizeOf(shape) == 8;
    var ps := Deserialize(body, shape).value;
    var heads, bodies := body[..8], body[8..];
    var len := SplitVariable(heads, bodies, shape, 8, ps);
    assert SizeOf([VariableSize]) == 4;
    var more := SplitVariable(heads[OFFSET..], bodies[len..], [VariableSize], 8 + len, ps[1..]);
    assert heads[OFFSET..][..OFFSET] == body[4..8];
  }

  lemma WrappedFound(n: nat, kind: Kind, inner: Inner, body: Octets)
    requires n > 0 && Wrapped(n, kind, inner, body).Some?
    ensures |body| >= 4 && U32At(body, 0) == 4 * n
    ensures InBody(body, Wrapped(n, kind, inner, body).value) && Wrapped(n, kind, inner, body).value.at == 4 * n
  {
    OpensWithOffset(body, n);
    var ps := Deserialize(body, seq(n, _ => VariableSize)).value;
    TraceOpensBody(kind, inner, ps[0].bytes);
  }

  /** The trace is in the body where it was found. */
  predicate InBody(body: Octets, f: Found)
  {
    f.at + TRACE <= |body| && f.trace == body[f.at..f.at + TRACE]
  }

  lemma PlainFound(kind: Kind, inner: Inner, body: Octets)
    requires Plain(kind, inner, body).Some?
    ensures InBody(body, Plain(kind, inner, body).value) && Plain(kind, inner, body).value.at == 0
  {
    TraceOpensBody(kind, inner, body);
  }

  // ---------------------------------------------------------------- the look is right

  /** The first two words could be a wrapper's offsets. */
  predicate LooksWrapped(body: Octets)
  {
    |body| >= 8 && U32At(body, 0) == 8 && U32At(body, 4) >= 8
  }

  /** A body that looks wrapped and is not: decoding falls back to the plain shape, the look does not. */
  predicate Misread(p: Params, inner: Inner, body: Octets)
  {
    MayBePlain(p) && LooksWrapped(body) && Wrapped(2, Signed, inner, body) == None
  }

  lemma DefaultFound(p: Params, fork: Fork, inner: Inner, body: Octets)
    requires DecodeDefault(p, fork, inner, body).Some?
    ensures InBody(body, DecodeDefault(p, fork, inner, body).value) && DecodeDefault(p, fork, inner, body).value.at == 0
  {
    if fork == Gloas { PlainFound(SignedGloas, inner, body); }
    else { PlainFound(if p.withAdjustments then SignedWithAdjustments else Signed, inner, body); }
  }

  lemma V2Found(p: Params, fork: Fork, inner: Inner, body: Octets)
    requires (p.dehydratedV2 || p.mergingV2) && DecodeV2(p, fork, inner, body).Some?
    ensures InBody(body, DecodeV2(p, fork, inner, body).value)
    ensures SszTraceOffset(p, body) == Some(DecodeV2(p, fork, inner, body).value.at)
  {
    var kind := if p.dehydratedV2 then DehydratedV2 else if p.isDehydrated then DehydratedV1 else Signed;
    if p.withAdjustments || p.merge == Mergeable {
      WrappedFound(if p.withAdjustments && p.merge == Mergeable then 3 else 2, kind, inner, body);
    } else {
      PlainFound(kind, inner, body);
    }
  }

  lemma MergeFound(p: Params, fork: Fork, inner: Inner, body: Octets)
    requires !p.dehydratedV2 && !p.mergingV2 && !p.isDehydrated && p.withMergeableData
    requires DecodeMerge(p, fork, inner, body).Some?
    ensures InBody(body, DecodeMerge(p, fork, inner, body).value)
    ensures SszTraceOffset(p, body) == Some(DecodeMerge(p, fork, inner, body).value.at) <==> !Misread(p, inner, body)
  {
    if p.withAdjustments {
      if Plain(SignedWithAdjustmentsAndMerging, inner, body).Some? {
        PlainFound(SignedWithAdjustmentsAndMerging, inner, body);
      } else {
        DefaultFound(p, fork, inner, body);
      }
    } else if Wrapped(2, Signed, inner, body).Some? {
      WrappedFound(2, Signed, inner, body);
      assert seq(2, _ => VariableSize) == [VariableSize, VariableSize];
      SecondOffset(body);
    } else {
      DefaultFound(p, fork, inner, body);
    }
  }

  /** For every flag combination and every body that decodes: the early look points at the trace
      that decoding finds, except exactly for a body that is misread. */
  lemma LookPointsAtTrace(p: Params, fork: Fork, inner: Inner, body: Octets)
    requires DecodeBody(p, fork, inner, body).Some?
    ensures InBody(body, DecodeBody(p, fork, inner, body).value)
    ensures SszTraceOffset(p, body) == Some(DecodeBody(p, fork, inner, body).value.at) <==> !Misread(p, inner, body)
  {
    if p.dehydratedV2 || p.mergingV2 {
      V2Found(p, fork, inner, body);
    } else if p.isDehydrated {
      PlainFound(if p.merge == Mergeable
                 then (if p.withAdjustments then DehydratedWithAdjustmentsAndMerging else DehydratedWithMerging)
                 else (if p.withAdjustments then DehydratedWithAdjustments else DehydratedV1), inner, body);
    } else if p.withMergeableData {
      MergeFound(p, fork, inner, body);
    } else {
      DefaultFound(p, fork, inner, body);
    }
  }

  lemma {:induction false} FromLeAppend(a: Octets, b: Octets)
    ensures FromLe(a + b) == FromLe(a) + Pow256(|a|) * FromLe(b)
  {
    if a == [] {
      assert a + b == b;
    } else {
      FromLeAppend(a[1..], b);
      assert (a + b)[1..] == a[1..] + b;
      assert 256 * (Pow256(|a| - 1) * FromLe(b)) == Pow256(|a|) * FromLe(b);
    }
  }

  /** A slot is its lower word and its upper word. */
  lemma SlotWords(body: Octets)
    requires |body| >= 8
    ensures FromLe(body[..8]) == U32At(body, 0) + TWO_32 * U32At(body, 4)
  {
    FromLeAppend(body[0..4], body[4..8]);
    assert body[..8] == body[0..4] + body[4..8];
    Pow256Word();
  }

  lemma SubSlice(b: Octets, at: nat, n: nat, i: nat, j: nat)
    requires at + n <= |b| && i <= j <= n
    ensures b[at..at + n][i..j] == b[at + i..at + j]
  {
    var x, y := b[at..at + n][i..j], b[at + i..at + j];
    assert forall k :: 0 <= k < |x| ==> x[k] == b[at + i + k] == y[k];
  }

  /** What the look reads at a trace is the trace's. */
  lemma PeekAt(p: Params, body: Octets, f: Found)
    requires InBody(body, f) && SszTraceOffset(p, body) == Some(f.at)
    ensures PeekSlotAndBuilder(p, body) == Some((SlotOf(f.trace), BuilderOf(f.trace)))
    ensures SubmissionSlot(p, body) == Some(SlotOf(f.trace))
  {
    SubSlice(body, f.at, TRACE, 0, 8);
    SubSlice(body, f.at, PEEKED, 0, 8);
    SubSlice(body, f.at, TRACE, BUILDER_AT, PEEKED);
    SubSlice(body, f.at, PEEKED, BUILDER_AT, PEEKED);
    assert f.trace[..8] == f.trace[0..8] && body[f.at..f.at + PEEKED][..8] == body[f.at..f.at + PEEKED][0..8];
  }

  /** For every body that decodes and is not misread, the peeked slot and builder are the decoded ones. */
  lemma PeekIsDecoded(p: Params, fork: Fork, inner: Inner, body: Octets)
    requires DecodeBody(p, fork, inner, body).Some? && !Misread(p, inner, body)
    ensures var trace := DecodeBody(p, fork, inner, body).value.trace;
            && PeekSlotAndBuilder(p, body) == Some((SlotOf(trace), BuilderOf(trace)))
            && SubmissionSlot(p, body) == Some(SlotOf(trace))
  {
    LookPointsAtTrace(p, fork, inner, body);
    PeekAt(p, body, DecodeBody(p, fork, inner, body).value);
  }

  /** What is misread is plain, with a slot from 2^35 on. */
  lemma MisreadIsPlain(p: Params, fork: Fork, inner: Inner, body: Octets)
    requires Misread(p, inner, body) && DecodeBody(p, fork, inner, body).Some?
    ensures var f := DecodeBody(p, fork, inner, body).value;
      f.at == 0 && InBody(body, f) && SlotOf(f.trace) >= 8 * TWO_32 && SlotOf(f.trace) % TWO_32 == 8
  {
    DefaultFound(p, fork, inner, body);
    SlotWords(body);
    SubSlice(body, 0, TRACE, 0, 8);
    var trace := DecodeBody(p, fork, inner, body).value.trace;
    assert trace[..8] == trace[0..8] && body[..8] == body[0..8];
  }

  /** Below slot 2^32 nothing is misread. */
  lemma SmallSlotIsRead(p: Params, fork: Fork, inner: Inner, body: Octets)
    requires DecodeBody(p, fork, inner, body).Some? && SlotOf(DecodeBody(p, fork, inner, body).value.trace) < TWO_32
    ensures !Misread(p, inner, body)
  {
    if Misread(p, inner, body) { MisreadIsPlain(p, fork, inner, body); }
  }

  // ---------------------------------------------------------------- a body that is misread

  function PlainParts(trace: Octets, a: Octets, b: Octets, c: Octets, signature: Octets): seq<Part>
  {
    [Fixed(trace), Variable(a), Variable(b), Variable(c), Fixed(signature)]
  }

  lemma PlainShape(trace: Octets, a: Octets, b: Octets, c: Octets, signature: Octets)
    requires |trace| == TRACE && |signature| == 96
    ensures ShapeOf(PlainParts(trace, a, b, c, signature)) == KindShape(Signed)
  {
    var ps := PlainParts(trace, a, b, c, signature);
    assert ps[4..][1..] == [] && ps[3..][1..] == ps[4..] && ps[2..][1..] == ps[3..] && ps[1..][1..] == ps[2..];
    assert ShapeOf(ps[4..]) == [FixedSize(96)];
    assert ShapeOf(ps[3..]) == [VariableSize, FixedSize(96)];
    assert ShapeOf(ps[2..]) == [VariableSize, VariableSize, FixedSize(96)];
    assert ShapeOf(ps[1..]) == Core;
  }

  /** With both offsets eight, a wrapper's first field is empty, and no submission is. */
  lemma EmptyWrapped(inner: Inner, body: Octets)
    requires |body| >= 8 && U32At(body, 0) == 8 && U32At(body, 4) == 8
    ensures Wrapped(2, Signed, inner, body) == None
  {
    var shape := seq(2, _ => VariableSize);
    assert shape == [VariableSize, VariableSize] && shape[1..] == [VariableSize];
    SizeOfOffsets(2);
    if Deserialize(body, shape).Some? {
      var ps := Deserialize(body, shape).value;
      var heads := body[..8];
      assert SizeOf(shape[1..]) == 4 && heads[OFFSET..][..OFFSET] == body[4..8];
      var len := SplitVariable(heads, body[8..], shape, 8, ps);
      assert SizeOf([VariableSize][1..]) == 0;
      var _ := SplitVariable(heads[OFFSET..], body[8..][len..], shape[1..], 8 + len, ps[1..]);
      NothingDecodes(inner, ps[0].bytes);
    }
  }

  lemma NothingDecodes(inner: Inner, body: Octets)
    requires body == []
    ensures DecodeFlat(Signed, inner, body) == None
  {
    if DecodeFlat(Signed, inner, body).Some? { TraceOpensBody(Signed, inner, body); }
  }

  /** Every plain append-only submission for slot 2^35 + 8 is misread: it decodes, with its trace at the
      start, and the look points eight bytes further. */
  lemma LargeSlotIsMisread(
    p: Params, fork: Fork, inner: Inner, trace: Octets, a: Octets, b: Octets, c: Octets, signature: Octets,
    body: Octets)
    requires MayBePlain(p) && fork != Gloas
    requires |trace| == TRACE && SlotOf(trace) == 8 * TWO_32 + 8 && |signature| == 96
    requires body == Serialize(PlainParts(trace, a, b, c, signature)) && |body| < TWO_32
    requires inner(Signed, PlainParts(trace, a, b, c, signature))
    ensures DecodeBody(p, fork, inner, body) == Some(Found(0, trace))
    ensures SszTraceOffset(p, body) == Some(8)
  {
    var ps := PlainParts(trace, a, b, c, signature);
    PlainShape(trace, a, b, c, signature);
    DeserializeSerialize(ps);
    assert trace[..TRACE] == trace;
    TraceOpensBody(Signed, inner, body);
    assert body[..8] == trace[..8];
    SlotWords(body);
    U32Below(body, 0);
    U32Below(body, 4);
    EmptyWrapped(inner, body);
  }

  /** A body without a readable slot does not decode for any fork. */
  lemma UnreadableIsMalformed(p: Params, fork: Fork, inner: Inner, body: Octets)
    requires SubmissionSlot(p, body) == None
    ensures DecodeBody(p, fork, inner, body) == None
  {
    if DecodeBody(p, fork, inner, body).Some? {
      LookPointsAtTrace(p, fork, inner, body);
    }
  }

  // ---------------------------------------------------------------- the decoder object

  class SubmissionDecoder {
    const params: Params
    var fork: Fork

    constructor (params: Params, fork: Fork)
      ensures this.params == params && this.fork == fork
    {
      this.params := params;
      this.fork := fork;
    }

    /** Decodes an uncompressed body with the fork of its own slot. */
    method DecodeAt(body: Octets, forkAt: nat -> Fork, inner: Inner) returns (r: Option<Found>)
      modifies this
      ensures r == DecodeBody(params, fork, inner, body)
      ensures fork == match SubmissionSlot(params, body) case Some(slot) => forkAt(slot) case None => old(fork)
      ensures r.Some? && !Misread(params, inner, body) ==> fork == forkAt(SlotOf(r.value.trace))
      ensures r.Some? && SlotOf(r.value.trace) < TWO_32 ==> fork == forkAt(SlotOf(r.value.trace))
    {
      var slot := SubmissionSlot(params, body);
      if slot.Some? {
        fork := forkAt(slot.value);
      }
      r := DecodeBody(params, fork, inner, body);
      if r.Some? {
        LookPointsAtTrace(params, fork, inner, body);
        if SlotOf(r.value.trace) < TWO_32 { SmallSlotIsRead(params, fork, inner, body); }
        if !Misread(params, inner, body) { PeekIsDecoded(params, fork, inner, body); }
      }
    }
  }
}
