/** Batch bodies of the data gatherer (crates/data-gatherer/src/s3.rs): length-prefixed records. */
module S3Records {
  import opened Bytes
  import opened Ssz

  datatype Record = Record(header: Octets, payload: Octets)

  function Len(r: Record): nat { 2 + |r.header| + |r.payload| }

  function Frame(r: Record): Octets
  {
    ToLe(Len(r), 4) + (ToLe(|r.header|, 2) + (r.header + r.payload))
  }

  function Encode(rs: seq<Record>): Octets
  {
    if rs == [] then [] else Frame(rs[0]) + Encode(rs[1..])
  }

  /** Both lengths fit their fields. */
  predicate RecordFits(r: Record) { |r.header| < TWO_16 && Len(r) < TWO_32 }

  function Parse(body: Octets): Option<seq<Record>>
  {
    if body == [] then Some([])
    else if |body| < 6 then None
    else
      var len, header := U32At(body, 0), FromLe(body[4..6]);
      if 2 + header > len || 4 + len > |body| then None
      else match Parse(body[4 + len..])
        case None => None
        case Some(rs) => Some([Record(body[6..6 + header], body[6 + header..4 + len])] + rs)
  }

  lemma {:induction false} EncodeAppend(rs: seq<Record>, r: Record)
    ensures Encode(rs + [r]) == Encode(rs) + Frame(r)
  {
    if rs == [] {
      assert [r][1..] == [];
    } else {
      EncodeAppend(rs[1..], r);
      assert (rs + [r])[1..] == rs[1..] + [r];
    }
  }

  lemma FrameSlices(len: Octets, hlen: Octets, h: Octets, p: Octets, rest: Octets, body: Octets)
    requires |len| == 4 && |hlen| == 2 && body == len + (hlen + (h + p)) + rest
    ensures |body| >= 6 + |h| + |p| && body[0..4] == len && body[4..6] == hlen
    ensures body[6..6 + |h|] == h && body[6 + |h|..6 + |h| + |p|] == p && body[6 + |h| + |p|..] == rest
  {
    assert body == len + (hlen + (h + (p + rest)));
    assert body[0..4] == len && body[4..] == hlen + (h + (p + rest));
    assert body[4..6] == hlen && body[6..] == h + (p + rest);
    assert body[6..6 + |h|] == h && body[6 + |h|..] == p + rest;
    assert body[6 + |h|..6 + |h| + |p|] == p && body[6 + |h| + |p|..] == rest;
  }

  lemma FrameReads(r: Record, rest: Octets)
    requires RecordFits(r)
    ensures var body := Frame(r) + rest;
            && |body| >= 6 && U32At(body, 0) == Len(r) && FromLe(body[4..6]) == |r.header| && 4 + Len(r) <= |body|
            && body[6..6 + |r.header|] == r.header && body[6 + |r.header|..4 + Len(r)] == r.payload
            && body[4 + Len(r)..] == rest
  {
    FrameSlices(ToLe(Len(r), 4), ToLe(|r.header|, 2), r.header, r.payload, rest, Frame(r) + rest);
    Pow256Word();
    assert Pow256(1) == 256;
    assert Pow256(2) == TWO_16;
    LeRoundTrip(Len(r), 4);
    LeRoundTrip(|r.header|, 2);
  }

  /** A body parses back to exactly its records. */
  lemma {:induction false} ParseEncode(rs: seq<Record>)
    requires forall i :: 0 <= i < |rs| ==> RecordFits(rs[i])
    ensures Parse(Encode(rs)) == Some(rs)
  {
    if rs != [] {
      ParseEncode(rs[1..]);
      FrameReads(rs[0], Encode(rs[1..]));
      assert rs == [rs[0]] + rs[1..];
    }
  }
}
