/** From compact orders to the references sent to the merge builder, end to end with compaction. */
module MergeRefs {
  import opened Bytes
  import opened MergeOrders
  import opened MergeMeaning

  const MAX_BUNDLE_TXS: nat := 32
  const KNOWN_FLAGS: bv8 := 3
  const MAX_U16: nat := 65535

  /** A reference is an order with 16-bit indices. */
  type Ref = Order

  function Run(start: nat, len: nat): seq<nat> { seq(len, i => start + i) }

  /** The positions below `len` that carry `code`. */
  function Positions(codes: seq<bv8>, code: bv8, len: nat): seq<nat>
    requires len == 0 || (len - 1) / 4 < |codes|
  {
    if len == 0 then []
    else Positions(codes, code, len - 1) + (if CodeAt(codes, len - 1) == code then [len - 1] else [])
  }

  predicate ValidRef(r: Ref, blockTxCount: nat)
  {
    match r
    case Tx(index, _) => index < blockTxCount
    case Bundle(txs, reverting, dropping, _) =>
      && 0 < |txs| <= MAX_BUNDLE_TXS && InRange(txs, blockTxCount)
      && InRange(reverting, |txs|) && InRange(dropping, |txs|)
  }

  /** No transaction may both revert and be dropped. */
  predicate CodesKnown(codes: seq<bv8>, len: nat)
    requires |codes| == CodesLen(len)
  {
    forall tx :: 0 <= tx < len ==> CodeAt(codes, tx) != 3
  }

  predicate CodesFit(o: OrderV2, codes: Option<seq<bv8>>)
  {
    codes.Some? ==> !AllRevert(o.flags) && |codes.value| == CodesLen(o.len) && CodesKnown(codes.value, o.len)
  }

  function RefOf(o: OrderV2, codes: Option<seq<bv8>>): Ref
    requires CodesFit(o, codes)
  {
    if codes == None && o.len == 1 && !LatestOnly(o.flags) then Tx(o.start, AllRevert(o.flags))
    else if codes == None then
      Bundle(Run(o.start, o.len), if AllRevert(o.flags) then Run(0, o.len) else [], [], LatestOnly(o.flags))
    else
      Bundle(Run(o.start, o.len), Positions(codes.value, REVERT, o.len), Positions(codes.value, DROP, o.len),
             LatestOnly(o.flags))
  }

  predicate Forwarded(o: OrderV2, codes: Option<seq<bv8>>, blockTxCount: nat)
  {
    && o.len != 0 && o.flags & !KNOWN_FLAGS == 0 && o.start + o.len <= MAX_U16
    && CodesFit(o, codes) && ValidRef(RefOf(o, codes), blockTxCount)
  }

  /** The positions of either code, or failure at a position that has both. */
  method ReadCodes(codes: seq<bv8>, len: nat) returns (ok: bool, reverting: seq<nat>, dropping: seq<nat>)
    requires |codes| == CodesLen(len)
    ensures ok == CodesKnown(codes, len)
    ensures ok ==> reverting == Positions(codes, REVERT, len) && dropping == Positions(codes, DROP, len)
  {
    ok, reverting, dropping := true, [], [];
    for tx := 0 to len
      invariant ok && forall i :: 0 <= i < tx ==> CodeAt(codes, i) != 3
      invariant reverting == Positions(codes, REVERT, tx) && dropping == Positions(codes, DROP, tx)
    {
      var code := CodeAt(codes, tx);
      CodeIsTwoBits(codes, tx);
      if code == REVERT {
        reverting := reverting + [tx];
      } else if code == DROP {
        dropping := dropping + [tx];
      } else if code != NONE {
        ok := false;
        return;
      }
    }
  }

  lemma CodeIsTwoBits(codes: seq<bv8>, tx: nat)
    requires tx / 4 < |codes|
    ensures var c := CodeAt(codes, tx); c == NONE || c == REVERT || c == DROP || c == 3
  {
    LowBits(codes[tx / 4] >> ShiftOf(tx));
  }

  lemma LowBits(x: bv8)
    ensures x & 3 == 0 || x & 3 == 1 || x & 3 == 2 || x & 3 == 3
  {}

  method OrderToRef(o: OrderV2, codes: Option<seq<bv8>>, blockTxCount: nat) returns (r: Option<Ref>)
    ensures r.Some? <==> Forwarded(o, codes, blockTxCount)
    ensures r.Some? ==> r.value == RefOf(o, codes)
  {
    if o.len == 0 || o.flags & !KNOWN_FLAGS != 0 || o.start + o.len > MAX_U16 {
      return None;
    }
    var ref;
    if codes == None {
      if o.len == 1 && !LatestOnly(o.flags) {
        ref := Tx(o.start, AllRevert(o.flags));
      } else {
        ref := Bundle(Run(o.start, o.len), if AllRevert(o.flags) then Run(0, o.len) else [], [], LatestOnly(o.flags));
      }
    } else {
      if AllRevert(o.flags) || |codes.value| != CodesLen(o.len) {
        return None;
      }
      var ok, reverting, dropping := ReadCodes(codes.value, o.len);
      if !ok {
        return None;
      }
      ref := Bundle(Run(o.start, o.len), reverting, dropping, LatestOnly(o.flags));
    }
    if ValidRef(ref, blockTxCount) { r := Some(ref); } else { r := None; }
  }

  // ---------------------------------------------------------------- a reference means its order

  lemma {:induction false} PositionsMeans(codes: seq<bv8>, code: bv8, len: nat, tx: nat)
    requires len == 0 || (len - 1) / 4 < |codes|
    ensures tx in Positions(codes, code, len) <==> tx < len && CodeAt(codes, tx) == code
  {
    if len > 0 { PositionsMeans(codes, code, len - 1, tx); }
  }

  lemma CodePermission(c: bv8)
    requires c == NONE || c == REVERT || c == DROP
    ensures PermissionOf(c) == Permission(c == REVERT, c == DROP)
  {}

  lemma RefPermission(o: OrderV2, codes: Option<seq<bv8>>, i: nat)
    requires CodesFit(o, codes) && i < o.len
    ensures |MeaningV1(RefOf(o, codes)).permissions| == o.len
    ensures MeaningV1(RefOf(o, codes)).permissions[i] == PermissionV2(o, codes, i)
  {
    if codes.Some? {
      PositionsMeans(codes.value, REVERT, o.len, i);
      PositionsMeans(codes.value, DROP, o.len, i);
      CodeIsTwoBits(codes.value, i);
      CodePermission(CodeAt(codes.value, i));
    } else if AllRevert(o.flags) && (o.len != 1 || LatestOnly(o.flags)) {
      assert Run(0, o.len)[i] == i;
    }
  }

  /** What is forwarded means what the compact order means. */
  lemma RefMeaning(o: OrderV2, codes: Option<seq<bv8>>)
    requires CodesFit(o, codes) && o.len > 0
    ensures MeaningV1(RefOf(o, codes)) == MeaningV2(o, codes)
  {
    var r, v := MeaningV1(RefOf(o, codes)), MeaningV2(o, codes);
    forall i | 0 <= i < o.len ensures |r.permissions| == o.len && r.permissions[i] == v.permissions[i] {
      RefPermission(o, codes, i);
    }
    assert |r.permissions| == o.len by { RefPermission(o, codes, 0); }
    assert r.txs == v.txs;
  }

  // ---------------------------------------------------------------- end to end

  /** What the merge builder takes of an order from a block of `blockTxCount` transactions. */
  predicate Acceptable(m: Meaning, blockTxCount: nat)
  {
    0 < |m.txs| <= MAX_BUNDLE_TXS && m.txs[0] + |m.txs| <= MAX_U16 && InRange(m.txs, blockTxCount) && NoBoth(m)
  }

  lemma KnownFlagsOnly(latestOnly: bool, allRevert: bool)
    ensures FlagsOf(latestOnly, allRevert) & !KNOWN_FLAGS == 0
  {}

  lemma BothIsThree(c: bv8)
    requires c == NONE || c == REVERT || c == DROP || c == 3
    ensures c == 3 <==> PermissionOf(c).mayRevert && PermissionOf(c).mayDrop
  {}

  lemma {:induction false} PositionsInRange(codes: seq<bv8>, code: bv8, len: nat)
    requires len == 0 || (len - 1) / 4 < |codes|
    ensures InRange(Positions(codes, code, len), len)
  {
    if len > 0 { PositionsInRange(codes, code, len - 1); }
  }

  /** The codes made by compaction are known exactly when no transaction is in both lists. */
  lemma CompactCodesFit(o: Order)
    requires Representable(o)
    ensures CodesFit(CompactOrder(o), CodesFor(o)) <==>
            (CodesFor(o).Some? ==> forall i :: 0 <= i < |o.txs| ==> !(i in o.reverting && i in o.dropping))
  {
    if CodesFor(o).Some? {
      var codes := CodesFor(o).value;
      FlagsRead(o.latestOnly, MarkedAllRevert(o));
      PackedMeans(o.reverting, o.dropping, |o.txs|, 0);
      forall i | 0 <= i < |o.txs| ensures CodeAt(codes, i) == 3 <==> i in o.reverting && i in o.dropping {
        PackedMeans(o.reverting, o.dropping, |o.txs|, i);
        CodeIsTwoBits(codes, i);
        BothIsThree(CodeAt(codes, i));
      }
    }
  }

  predicate NoBoth(m: Meaning)
  {
    forall i :: 0 <= i < |m.permissions| ==> !(m.permissions[i].mayRevert && m.permissions[i].mayDrop)
  }

  lemma CodesFitMeaning(o: Order)
    requires Representable(o)
    ensures CodesFit(CompactOrder(o), CodesFor(o)) <==> NoBoth(MeaningV1(o))
  {
    CompactCodesFit(o);
    var m := MeaningV1(o);
    if o.Bundle? {
      forall i | 0 <= i < |o.txs|
        ensures m.permissions[i].mayRevert && m.permissions[i].mayDrop <==> i in o.reverting && i in o.dropping {}
      if CodesFor(o).Some? && NoBoth(m) {
        forall i | 0 <= i < |o.txs| ensures !(i in o.reverting && i in o.dropping) {
          assert !(m.permissions[i].mayRevert && m.permissions[i].mayDrop);
        }
      }
    }
  }

  lemma RefValid(o: OrderV2, codes: Option<seq<bv8>>, blockTxCount: nat)
    requires CodesFit(o, codes) && o.len > 0
    ensures ValidRef(RefOf(o, codes), blockTxCount)
       <==> o.len <= MAX_BUNDLE_TXS && InRange(Run(o.start, o.len), blockTxCount)
  {
    if codes.Some? {
      PositionsInRange(codes.value, REVERT, o.len);
      PositionsInRange(codes.value, DROP, o.len);
    } else if o.len == 1 {
      assert Run(o.start, o.len)[0] == o.start;
    }
  }

  lemma CompactForwarded(o: Order, blockTxCount: nat)
    requires Representable(o) && Faithful(o)
    ensures Forwarded(CompactOrder(o), CodesFor(o), blockTxCount) <==> Acceptable(MeaningV1(o), blockTxCount)
  {
    var c, codes, m := CompactOrder(o), CodesFor(o), MeaningV1(o);
    CodesFitMeaning(o);
    KnownFlagsOnly(o.Bundle? && o.latestOnly, if o.Tx? then o.canRevert else MarkedAllRevert(o));
    if CodesFit(c, codes) { RefValid(c, codes, blockTxCount); }
    assert m.txs == Run(c.start, c.len);
  }

  /** Each kept order reaches the merge builder, meaning the same, exactly when it is acceptable. */
  lemma OrdersReachBuilder(os: seq<Order>, i: nat, blockTxCount: nat)
    requires i < |Kept(os)| && Undisturbed(os, i) && Faithful(Kept(os)[i])
    ensures |Compact(os).orders| == |Kept(os)|
    ensures var o, codes := Compact(os).orders[i], Codes(Compact(os).txCodes, i);
            && (Forwarded(o, codes, blockTxCount) <==> Acceptable(MeaningV1(Kept(os)[i]), blockTxCount))
            && (Forwarded(o, codes, blockTxCount) ==> MeaningV1(RefOf(o, codes)) == MeaningV1(Kept(os)[i]))
  {
    CodesAreOwn(os, i);
    CompactForwarded(Kept(os)[i], blockTxCount);
    OrderMeaning(Kept(os)[i]);
    var o, codes := Compact(os).orders[i], Codes(Compact(os).txCodes, i);
    if Forwarded(o, codes, blockTxCount) { RefMeaning(o, codes); }
  }
}
