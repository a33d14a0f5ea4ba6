/**
 * SSZ containers, as in the "Serialization" and "Deserialization" sections of the Ethereum
 * consensus specification ssz/simple-serialize.md: fixed-size fields in place, a four-byte offset
 * for each variable-size one, and the variable-size bodies after them in order.
 */
module Ssz {
  import opened Bytes

  const OFFSET: nat := 4

  datatype Part = Fixed(bytes: Octets) | Variable(bytes: Octets)
  datatype Shape = FixedSize(n: nat) | VariableSize

  function HeadLen(p: Part): nat { if p.Fixed? then |p.bytes| else OFFSET }

  function FixedLen(ps: seq<Part>): nat
  {
    if ps == [] then 0 else HeadLen(ps[0]) + FixedLen(ps[1..])
  }

  /** The first part of a container whose next body starts at `at`. */
  function Heads(ps: seq<Part>, at: nat): Octets
  {
    if ps == [] then []
    else match ps[0]
      case Fixed(b) => b + Heads(ps[1..], at)
      case Variable(b) => ToLe(at, OFFSET) + Heads(ps[1..], at + |b|)
  }

  function Bodies(ps: seq<Part>): Octets
  {
    if ps == [] then []
    else (if ps[0].Variable? then ps[0].bytes else []) + Bodies(ps[1..])
  }

  function Serialize(ps: seq<Part>): Octets
  {
    Heads(ps, FixedLen(ps)) + Bodies(ps)
  }

  // ---------------------------------------------------------------- deserialization

  function ShapeOf(ps: seq<Part>): seq<Shape>
  {
    if ps == [] then [] else [if ps[0].Fixed? then FixedSize(|ps[0].bytes|) else VariableSize] + ShapeOf(ps[1..])
  }

  function SizeOf(shape: seq<Shape>): nat
  {
    if shape == [] then 0 else (if shape[0].FixedSize? then shape[0].n else OFFSET) + SizeOf(shape[1..])
  }

  /** The offset of the next variable-size field, or `end` if there is none. */
  function NextOffset(heads: Octets, shape: seq<Shape>, end: nat): nat
    requires |heads| == SizeOf(shape)
  {
    if shape == [] then end
    else match shape[0]
      case FixedSize(n) => NextOffset(heads[n..], shape[1..], end)
      case VariableSize => FromLe(heads[..OFFSET])
  }

  function Prepend(p: Part, rest: Option<seq<Part>>): Option<seq<Part>>
  {
    match rest
    case Some(ps) => Some([p] + ps)
    case None => None
  }

  /** Reads the fields off the two halves; every body must start where the last one ended. */
  function Fields(heads: Octets, bodies: Octets, shape: seq<Shape>, at: nat): Option<seq<Part>>
    requires |heads| == SizeOf(shape)
  {
    if shape == [] then if bodies == [] then Some([]) else None
    else match shape[0]
      case FixedSize(n) =>
        Prepend(Fixed(heads[..n]), Fields(heads[n..], bodies, shape[1..], at))
      case VariableSize =>
        var next := NextOffset(heads[OFFSET..], shape[1..], at + |bodies|);
        if FromLe(heads[..OFFSET]) != at || !(at <= next <= at + |bodies|) then None
        else Prepend(Variable(bodies[..next - at]), Fields(heads[OFFSET..], bodies[next - at..], shape[1..], next))
  }

  function Deserialize(b: Octets, shape: seq<Shape>): Option<seq<Part>>
  {
    if |b| < SizeOf(shape) then None else Fields(b[..SizeOf(shape)], b[SizeOf(shape)..], shape, SizeOf(shape))
  }

  /** Every offset fits its four bytes, the next body starting at `at`. */
  predicate OffsetsFit(ps: seq<Part>, at: nat)
  {
    ps == []
    || (if ps[0].Fixed? then OffsetsFit(ps[1..], at) else at < TWO_32 && OffsetsFit(ps[1..], at + |ps[0].bytes|))
  }

  // ---------------------------------------------------------------- the two are inverse

  lemma {:induction false} HeadsLength(ps: seq<Part>, at: nat)
    ensures |Heads(ps, at)| == FixedLen(ps) == SizeOf(ShapeOf(ps))
  {
    if ps != [] {
      HeadsLength(ps[1..], if ps[0].Fixed? then at else at + |ps[0].bytes|);
      assert ShapeOf(ps)[1..] == ShapeOf(ps[1..]);
    }
  }

  lemma OffsetReads(at: nat, rest: Octets)
    requires at < TWO_32
    ensures (ToLe(at, OFFSET) + rest)[..OFFSET] == ToLe(at, OFFSET)
    ensures (ToLe(at, OFFSET) + rest)[OFFSET..] == rest
    ensures FromLe((ToLe(at, OFFSET) + rest)[..OFFSET]) == at
  {
    Pow256Word();
    LeRoundTrip(at, OFFSET);
    assert (ToLe(at, OFFSET) + rest)[..OFFSET] == ToLe(at, OFFSET);
  }

  /** The next offset written is where the next body starts; without one nothing follows. */
  lemma {:induction false} NextIsStart(ps: seq<Part>, at: nat)
    requires OffsetsFit(ps, at)
    ensures |Heads(ps, at)| == SizeOf(ShapeOf(ps))
    ensures NextOffset(Heads(ps, at), ShapeOf(ps), at + |Bodies(ps)|) == at
  {
    HeadsLength(ps, at);
    if ps != [] {
      assert ShapeOf(ps)[1..] == ShapeOf(ps[1..]);
      if ps[0].Fixed? {
        NextIsStart(ps[1..], at);
        assert Heads(ps, at)[|ps[0].bytes|..] == Heads(ps[1..], at);
      } else {
        OffsetReads(at, Heads(ps[1..], at + |ps[0].bytes|));
      }
    }
  }

  lemma FieldsFixed(h: Octets, heads: Octets, bodies: Octets, shape: seq<Shape>, at: nat)
    requires |heads| == SizeOf(shape)
    ensures SizeOf([FixedSize(|h|)] + shape) == |h + heads|
    ensures Fields(h + heads, bodies, [FixedSize(|h|)] + shape, at)
         == Prepend(Fixed(h), Fields(heads, bodies, shape, at))
  {
    var s := [FixedSize(|h|)] + shape;
    assert s[1..] == shape && (h + heads)[|h|..] == heads && (h + heads)[..|h|] == h;
  }

  lemma FieldsVariable(
    word: Octets, body: Octets, heads: Octets, bodies: Octets, shape: seq<Shape>, at: nat, next: nat)
    requires |word| == OFFSET && FromLe(word) == at && next == at + |body| && |heads| == SizeOf(shape)
    requires NextOffset(heads, shape, next + |bodies|) == next
    ensures SizeOf([VariableSize] + shape) == |word + heads|
    ensures Fields(word + heads, body + bodies, [VariableSize] + shape, at)
         == Prepend(Variable(body), Fields(heads, bodies, shape, next))
  {
    var h, b, s := word + heads, body + bodies, [VariableSize] + shape;
    assert s[1..] == shape && h[OFFSET..] == heads && h[..OFFSET] == word;
    assert b[|body|..] == bodies && b[..|body|] == body;
  }

  lemma {:induction false} FieldsOfParts(ps: seq<Part>, at: nat)
    requires OffsetsFit(ps, at)
    ensures |Heads(ps, at)| == SizeOf(ShapeOf(ps))
    ensures Fields(Heads(ps, at), Bodies(ps), ShapeOf(ps), at) == Some(ps)
  {
    HeadsLength(ps, at);
    if ps != [] {
      var p, rest := ps[0], ps[1..];
      assert ps == [p] + rest;
      if p.Fixed? {
        FieldsOfParts(rest, at);
        FieldsFixed(p.bytes, Heads(rest, at), Bodies(rest), ShapeOf(rest), at);
        assert Bodies(ps) == Bodies(rest);
      } else {
        var next := at + |p.bytes|;
        FieldsOfParts(rest, next);
        NextIsStart(rest, next);
        Pow256Word();
        LeRoundTrip(at, OFFSET);
        FieldsVariable(ToLe(at, OFFSET), p.bytes, Heads(rest, next), Bodies(rest), ShapeOf(rest), at, next);
      }
    }
  }

  predicate Layout(ps: seq<Part>, heads: Octets, bodies: Octets, shape: seq<Shape>, at: nat)
  {
    ShapeOf(ps) == shape && Heads(ps, at) == heads && Bodies(ps) == bodies
  }

  lemma LayoutFixed(h: Octets, ps: seq<Part>, heads: Octets, bodies: Octets, shape: seq<Shape>, at: nat)
    requires Layout(ps, heads, bodies, shape, at)
    ensures Layout([Fixed(h)] + ps, h + heads, bodies, [FixedSize(|h|)] + shape, at)
  {
    assert ([Fixed(h)] + ps)[1..] == ps;
  }

  lemma LayoutVariable(
    body: Octets, ps: seq<Part>, heads: Octets, bodies: Octets, shape: seq<Shape>, at: nat, next: nat)
    requires Layout(ps, heads, bodies, shape, next) && next == at + |body|
    ensures Layout([Variable(body)] + ps, ToLe(at, OFFSET) + heads, body + bodies, [VariableSize] + shape, at)
  {
    assert ([Variable(body)] + ps)[1..] == ps;
  }

  lemma SplitFixed(heads: Octets, bodies: Octets, shape: seq<Shape>, at: nat, ps: seq<Part>)
    requires |heads| == SizeOf(shape) && Fields(heads, bodies, shape, at) == Some(ps)
    requires shape != [] && shape[0].FixedSize?
    ensures ps != [] && ps == [Fixed(heads[..shape[0].n])] + ps[1..]
    ensures Fields(heads[shape[0].n..], bodies, shape[1..], at) == Some(ps[1..])
  {}

  lemma SplitVariable(heads: Octets, bodies: Octets, shape: seq<Shape>, at: nat, ps: seq<Part>) returns (len: nat)
    requires |heads| == SizeOf(shape) && Fields(heads, bodies, shape, at) == Some(ps)
    requires shape != [] && shape[0].VariableSize?
    ensures len <= |bodies| && ps != [] && ps == [Variable(bodies[..len])] + ps[1..]
    ensures Fields(heads[OFFSET..], bodies[len..], shape[1..], at + len) == Some(ps[1..])
    ensures heads == ToLe(at, OFFSET) + heads[OFFSET..] && FromLe(heads[..OFFSET]) == at
  {
    len := NextOffset(heads[OFFSET..], shape[1..], at + |bodies|) - at;
    LeBytesRoundTrip(heads[..OFFSET]);
  }

  lemma {:induction false} PartsOfFields(heads: Octets, bodies: Octets, shape: seq<Shape>, at: nat, ps: seq<Part>)
    requires |heads| == SizeOf(shape) && Fields(heads, bodies, shape, at) == Some(ps)
    ensures Layout(ps, heads, bodies, shape, at)
    decreases |shape|
  {
    if shape != [] {
      var rest, qs := shape[1..], ps[1..];
      if shape[0].FixedSize? {
        SplitFixed(heads, bodies, shape, at, ps);
        var h, heads' := heads[..shape[0].n], heads[shape[0].n..];
        PartsOfFields(heads', bodies, rest, at, qs);
        LayoutFixed(h, qs, heads', bodies, rest, at);
        assert heads == h + heads' && shape == [FixedSize(|h|)] + rest;
      } else {
        var len := SplitVariable(heads, bodies, shape, at, ps);
        var body, bodies', heads' := bodies[..len], bodies[len..], heads[OFFSET..];
        PartsOfFields(heads', bodies', rest, at + len, qs);
        LayoutVariable(body, qs, heads', bodies', rest, at, at + len);
        assert bodies == body + bodies' && shape == [VariableSize] + rest;
      }
    }
  }

  lemma ReadFixed(h: Octets, heads: Octets, bodies: Octets, shape: seq<Shape>, at: nat, ps: seq<Part>)
    requires |heads| == SizeOf(shape) && |h + heads| == SizeOf([FixedSize(|h|)] + shape)
    requires Fields(h + heads, bodies, [FixedSize(|h|)] + shape, at) == Some([Fixed(h)] + ps)
    ensures Fields(heads, bodies, shape, at) == Some(ps)
  {
    SplitFixed(h + heads, bodies, [FixedSize(|h|)] + shape, at, [Fixed(h)] + ps);
    assert (h + heads)[|h|..] == heads && ([FixedSize(|h|)] + shape)[1..] == shape && ([Fixed(h)] + ps)[1..] == ps;
  }

  lemma ReadVariable(
    word: Octets, body: Octets, heads: Octets, bodies: Octets, shape: seq<Shape>, at: nat, ps: seq<Part>)
    requires |word| == OFFSET && |heads| == SizeOf(shape) && |word + heads| == SizeOf([VariableSize] + shape)
    requires Fields(word + heads, body + bodies, [VariableSize] + shape, at) == Some([Variable(body)] + ps)
    ensures at < TWO_32 && Fields(heads, bodies, shape, at + |body|) == Some(ps)
  {
    var len := SplitVariable(word + heads, body + bodies, [VariableSize] + shape, at, [Variable(body)] + ps);
    assert ([Variable(body)] + ps)[0] == Variable((body + bodies)[..len]);
    assert (body + bodies)[len..] == bodies && (word + heads)[OFFSET..] == heads && (word + heads)[..OFFSET] == word;
    assert ([VariableSize] + shape)[1..] == shape && ([Variable(body)] + ps)[1..] == ps;
    Pow256Word();
    FromLeBound(word);
  }

  lemma {:induction false} FitIfRead(ps: seq<Part>, at: nat)
    requires |Heads(ps, at)| == SizeOf(ShapeOf(ps))
    requires Fields(Heads(ps, at), Bodies(ps), ShapeOf(ps), at) == Some(ps)
    ensures OffsetsFit(ps, at)
  {
    if ps != [] {
      var p, rest := ps[0], ps[1..];
      assert ps == [p] + rest;
      if p.Fixed? {
        HeadsLength(rest, at);
        assert [] + Bodies(rest) == Bodies(rest);
        ReadFixed(p.bytes, Heads(rest, at), Bodies(rest), ShapeOf(rest), at, rest);
        FitIfRead(rest, at);
      } else {
        var next := at + |p.bytes|;
        HeadsLength(rest, next);
        ReadVariable(ToLe(at, OFFSET), p.bytes, Heads(rest, next), Bodies(rest), ShapeOf(rest), at, rest);
        FitIfRead(rest, next);
      }
    }
  }

  lemma {:induction false} SmallFits(ps: seq<Part>, at: nat)
    requires at + |Bodies(ps)| < TWO_32
    ensures OffsetsFit(ps, at)
  {
    if ps != [] { SmallFits(ps[1..], if ps[0].Fixed? then at else at + |ps[0].bytes|); }
  }

  /** What was serialized is read back exactly when its offsets fit their four bytes. */
  lemma DeserializeSerialize(ps: seq<Part>)
    ensures Deserialize(Serialize(ps), ShapeOf(ps)) == Some(ps) <==> OffsetsFit(ps, FixedLen(ps))
    ensures |Serialize(ps)| < TWO_32 ==> OffsetsFit(ps, FixedLen(ps))
  {
    var n := FixedLen(ps);
    HeadsLength(ps, n);
    assert Serialize(ps)[..n] == Heads(ps, n) && Serialize(ps)[n..] == Bodies(ps);
    if OffsetsFit(ps, n) { FieldsOfParts(ps, n); }
    if Fields(Heads(ps, n), Bodies(ps), ShapeOf(ps), n) == Some(ps) { FitIfRead(ps, n); }
    if |Serialize(ps)| < TWO_32 { SmallFits(ps, n); }
  }

  /** What is read serializes to the bytes it was read from. */
  lemma SerializeDeserialize(b: Octets, shape: seq<Shape>)
    requires Deserialize(b, shape).Some?
    ensures Serialize(Deserialize(b, shape).value) == b && ShapeOf(Deserialize(b, shape).value) == shape
  {
    var n := SizeOf(shape);
    PartsOfFields(b[..n], b[n..], shape, n, Deserialize(b, shape).value);
    HeadsLength(Deserialize(b, shape).value, n);
    assert b == b[..n] + b[n..];
  }

  /** The layout determines the fields: two containers of one shape with the same bytes are equal. */
  lemma SerializeIsInjective(ps: seq<Part>, qs: seq<Part>)
    requires ShapeOf(ps) == ShapeOf(qs) && Serialize(ps) == Serialize(qs) && |Serialize(ps)| < TWO_32
    ensures ps == qs
  {
    DeserializeSerialize(ps);
    DeserializeSerialize(qs);
  }

  // ---------------------------------------------------------------- words at a position

  function U32At(b: Octets, at: nat): nat
    requires at + OFFSET <= |b|
  {
    FromLe(b[at..at + OFFSET])
  }

  lemma U32Below(b: Octets, at: nat)
    requires at + OFFSET <= |b|
    ensures U32At(b, at) < TWO_32 && ToLe(U32At(b, at), OFFSET) == b[at..at + OFFSET]
  {
    Pow256Word();
    FromLeBound(b[at..at + OFFSET]);
    LeBytesRoundTrip(b[at..at + OFFSET]);
  }

  /** A word read where it was written. */
  lemma U32Head(n: nat, rest: Octets)
    requires n < TWO_32
    ensures U32At(ToLe(n, OFFSET) + rest, 0) == n
  {
    Pow256Word();
    LeRoundTrip(n, OFFSET);
    assert (ToLe(n, OFFSET) + rest)[0..OFFSET] == ToLe(n, OFFSET);
  }

  /** Positions after a prefix are positions in what follows it. */
  lemma Skip(prefix: Octets, rest: Octets, i: nat, j: nat)
    requires |prefix| <= i <= j <= |prefix| + |rest|
    ensures (prefix + rest)[i..j] == rest[i - |prefix|..j - |prefix|]
  {}

  lemma U32Skip(prefix: Octets, rest: Octets, at: nat)
    requires |prefix| <= at && at + OFFSET <= |prefix| + |rest|
    ensures U32At(prefix + rest, at) == U32At(rest, at - |prefix|)
  {
    Skip(prefix, rest, at, at + OFFSET);
  }

  lemma Join(b: Octets, i: nat, j: nat, k: nat)
    requires i <= j <= k <= |b|
    ensures b[i..j] + b[j..k] == b[i..k]
  {}

  lemma U32Prefix(prefix: Octets, rest: Octets, at: nat)
    requires at + OFFSET <= |prefix|
    ensures U32At(prefix + rest, at) == U32At(prefix, at)
  {
    assert (prefix + rest)[at..at + OFFSET] == prefix[at..at + OFFSET];
  }

  // ---------------------------------------------------------------- containers field by field

  lemma HeadsFixed(b: Octets, ps: seq<Part>, at: nat)
    ensures Heads([Fixed(b)] + ps, at) == b + Heads(ps, at)
    ensures Bodies([Fixed(b)] + ps) == Bodies(ps) && FixedLen([Fixed(b)] + ps) == |b| + FixedLen(ps)
  {
    assert ([Fixed(b)] + ps)[1..] == ps;
  }

  lemma HeadsVariable(b: Octets, ps: seq<Part>, at: nat)
    ensures Heads([Variable(b)] + ps, at) == ToLe(at, OFFSET) + Heads(ps, at + |b|)
    ensures Bodies([Variable(b)] + ps) == b + Bodies(ps) && FixedLen([Variable(b)] + ps) == OFFSET + FixedLen(ps)
  {
    assert ([Variable(b)] + ps)[1..] == ps;
  }

  lemma FitsNext(p: Part, ps: seq<Part>, at: nat)
    ensures p.Fixed? ==> OffsetsFit([p] + ps, at) == OffsetsFit(ps, at)
    ensures p.Variable? ==> OffsetsFit([p] + ps, at) == (at < TWO_32 && OffsetsFit(ps, at + |p.bytes|))
  {
    assert ([p] + ps)[1..] == ps;
  }

  lemma {:induction false} FixedFit(ps: seq<Part>, at: nat)
    requires forall i :: 0 <= i < |ps| ==> ps[i].Fixed?
    ensures OffsetsFit(ps, at)
  {
    if ps != [] { FixedFit(ps[1..], at); }
  }

  /** With a single variable-size field its offset is the fixed length, and nothing else has to fit. */
  lemma {:induction false} OneOffsetFits(ps: seq<Part>, at: nat)
    requires at < TWO_32 && forall i, j :: 0 <= i < j < |ps| ==> ps[i].Fixed? || ps[j].Fixed?
    ensures OffsetsFit(ps, at)
  {
    if ps != [] {
      if ps[0].Fixed? { OneOffsetFits(ps[1..], at); } else { FixedFit(ps[1..], at + |ps[0].bytes|); }
    }
  }

  lemma TwoVariables(a: Octets, b: Octets, tail: seq<Part>, at: nat, next: nat)
    requires next == at + |a|
    ensures var ps := [Variable(a)] + ([Variable(b)] + tail);
            && Heads(ps, at) == ToLe(at, OFFSET) + (ToLe(next, OFFSET) + Heads(tail, next + |b|))
            && FixedLen(ps) == 8 + FixedLen(tail)
            && Bodies(ps) == a + (b + Bodies(tail))
  {
    HeadsVariable(b, tail, next);
    HeadsVariable(a, [Variable(b)] + tail, at);
  }
}
