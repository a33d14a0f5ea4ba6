/**
 * Compacting v1 merge orders to v2 (crates/types/src/block_merging.rs), and turning compact orders
 * into the references sent to the merge builder (crates/relay/src/block_merging/mod.rs).
 */
module MergeOrders {
  import opened Bytes

  const MAX_LEN: nat := 255

  /** v1: a transaction, or a bundle with the positions in it that may revert or be dropped. */
  datatype Order =
    | Tx(index: nat, canRevert: bool)
    | Bundle(txs: seq<nat>, reverting: seq<nat>, dropping: seq<nat>, latestOnly: bool)

  /** v2: `len` transactions from `start` on. */
  datatype OrderV2 = OrderV2(start: nat, len: nat, flags: bv8)

  const LATEST_ONLY: bv8 := 1
  const ALL_REVERT: bv8 := 2

  function FlagsOf(latestOnly: bool, allRevert: bool): bv8
  {
    (if latestOnly then LATEST_ONLY else 0) | (if allRevert then ALL_REVERT else 0)
  }

  predicate LatestOnly(flags: bv8) { flags & LATEST_ONLY != 0 }
  predicate AllRevert(flags: bv8) { flags & ALL_REVERT != 0 }

  /** Two bits for each transaction of one order that is not all alike. */
  datatype TxCodes = TxCodes(order: nat, codes: seq<bv8>)

  datatype DataV2 = DataV2(orders: seq<OrderV2>, txCodes: seq<TxCodes>)

  const NONE: bv8 := 0
  const REVERT: bv8 := 1
  const DROP: bv8 := 2

  // ---------------------------------------------------------------- meaning

  /** What may happen to a transaction of an order. */
  datatype Permission = Permission(mayRevert: bool, mayDrop: bool)

  datatype Meaning = Meaning(txs: seq<nat>, permissions: seq<Permission>, latestOnly: bool)

  function PermissionIn(reverting: seq<nat>, dropping: seq<nat>, i: nat): Permission
  {
    Permission(i in reverting, i in dropping)
  }

  function MeaningV1(o: Order): Meaning
  {
    match o
    case Tx(index, canRevert) => Meaning([index], [Permission(canRevert, false)], false)
    case Bundle(txs, reverting, dropping, latestOnly) =>
      Meaning(txs, seq(|txs|, i requires 0 <= i < |txs| => PermissionIn(reverting, dropping, i)), latestOnly)
  }

  function ShiftOf(tx: nat): bv8
  {
    var lane := tx % 4;
    if lane == 0 then 0 else if lane == 1 then 2 else if lane == 2 then 4 else 6
  }

  function CodesLen(len: nat): nat { (len + 3) / 4 }

  function CodeAt(codes: seq<bv8>, tx: nat): bv8
    requires tx / 4 < |codes|
  {
    (codes[tx / 4] >> ShiftOf(tx)) & 3
  }

  function PermissionOf(code: bv8): Permission
  {
    Permission(code & REVERT != 0, code & DROP != 0)
  }

  function Codes(txCodes: seq<TxCodes>, order: nat): Option<seq<bv8>>
  {
    if txCodes == [] then None
    else if txCodes[0].order == order then Some(txCodes[0].codes)
    else Codes(txCodes[1..], order)
  }

  function PermissionV2(o: OrderV2, codes: Option<seq<bv8>>, i: nat): Permission
  {
    if AllRevert(o.flags) then Permission(true, false)
    else if codes.Some? && i / 4 < |codes.value| then PermissionOf(CodeAt(codes.value, i))
    else Permission(false, false)
  }

  function MeaningV2(o: OrderV2, codes: Option<seq<bv8>>): Meaning
  {
    Meaning(seq(o.len, i requires 0 <= i < o.len => o.start + i),
            seq(o.len, i requires 0 <= i < o.len => PermissionV2(o, codes, i)), LatestOnly(o.flags))
  }

  function Meanings(d: DataV2): seq<Meaning>
  {
    seq(|d.orders|, i requires 0 <= i < |d.orders| => MeaningV2(d.orders[i], Codes(d.txCodes, i)))
  }

  // ---------------------------------------------------------------- compaction

  /** Orders that the compact form can hold. */
  predicate Representable(o: Order)
  {
    match o
    case Tx(index, _) => index < TWO_16
    case Bundle(txs, _, _, _) => 0 < |txs| <= MAX_LEN && txs[0] < TWO_16
  }

  /** ORs one code into a packed buffer, skipping positions that are not in the bundle. */
  function WriteCode(codes: seq<bv8>, idx: nat, code: bv8, len: nat): seq<bv8>
    requires |codes| == CodesLen(len)
  {
    if idx < len then codes[idx / 4 := codes[idx / 4] | (code << ShiftOf(idx))] else codes
  }

  function WriteCodes(codes: seq<bv8>, idxs: seq<nat>, code: bv8, len: nat): (r: seq<bv8>)
    requires |codes| == CodesLen(len)
    ensures |r| == |codes|
  {
    if idxs == [] then codes
    else WriteCode(WriteCodes(codes, idxs[..|idxs| - 1], code, len), idxs[|idxs| - 1], code, len)
  }

  function Zeros(n: nat): seq<bv8> { seq(n, _ => 0) }

  function Packed(reverting: seq<nat>, dropping: seq<nat>, len: nat): seq<bv8>
  {
    WriteCodes(WriteCodes(Zeros(CodesLen(len)), reverting, REVERT, len), dropping, DROP, len)
  }

  predicate MarkedAllRevert(o: Order)
    requires o.Bundle?
  {
    o.dropping == [] && |o.reverting| == |o.txs|
  }

  predicate NeedsCodes(o: Order)
    requires o.Bundle?
  {
    !MarkedAllRevert(o) && !(o.reverting == [] && o.dropping == [])
  }

  function CompactOrder(o: Order): OrderV2
    requires Representable(o)
  {
    match o
    case Tx(index, canRevert) => OrderV2(index, 1, FlagsOf(false, canRevert))
    case Bundle(txs, _, _, latestOnly) => OrderV2(txs[0], |txs|, FlagsOf(latestOnly, MarkedAllRevert(o)))
  }

  function CompactStep(d: DataV2, o: Order): DataV2
  {
    if !Representable(o) then d
    else
      var txCodes := if o.Bundle? && NeedsCodes(o)
                     then d.txCodes + [TxCodes(|d.orders| % TWO_16, Packed(o.reverting, o.dropping, |o.txs|))]
                     else d.txCodes;
      DataV2(d.orders + [CompactOrder(o)], txCodes)
  }

  function Compact(os: seq<Order>): DataV2
  {
    if os == [] then DataV2([], []) else CompactStep(Compact(os[..|os| - 1]), os[|os| - 1])
  }

  function Kept(os: seq<Order>): seq<Order>
  {
    if os == [] then []
    else Kept(os[..|os| - 1]) + (if Representable(os[|os| - 1]) then [os[|os| - 1]] else [])
  }

  method PackCodes(reverting: seq<nat>, dropping: seq<nat>, len: nat) returns (codes: seq<bv8>)
    ensures codes == Packed(reverting, dropping, len)
  {
    codes := Zeros(CodesLen(len));
    ghost var zeros := codes;
    for i := 0 to |reverting|
      invariant |codes| == CodesLen(len) && codes == WriteCodes(zeros, reverting[..i], REVERT, len)
    {
      assert reverting[..i + 1][..i] == reverting[..i];
      var idx := reverting[i];
      if idx < len {
        codes := codes[idx / 4 := codes[idx / 4] | (REVERT << ShiftOf(idx))];
      }
    }
    assert reverting[..|reverting|] == reverting;
    ghost var reverts := codes;
    for i := 0 to |dropping|
      invariant |codes| == CodesLen(len) && codes == WriteCodes(reverts, dropping[..i], DROP, len)
    {
      assert dropping[..i + 1][..i] == dropping[..i];
      var idx := dropping[i];
      if idx < len {
        codes := codes[idx / 4 := codes[idx / 4] | (DROP << ShiftOf(idx))];
      }
    }
    assert dropping[..|dropping|] == dropping;
  }

  /** Drops the orders the compact form cannot hold and packs the others in order. */
  method FromV1(os: seq<Order>) returns (d: DataV2)
    ensures d == Compact(os)
  {
    var orders: seq<OrderV2>, txCodes: seq<TxCodes> := [], [];
    for i := 0 to |os|
      invariant DataV2(orders, txCodes) == Compact(os[..i])
    {
      assert os[..i + 1][..i] == os[..i];
      match os[i] {
        case Tx(index, canRevert) =>
          if index < TWO_16 {
            orders := orders + [OrderV2(index, 1, if canRevert then ALL_REVERT else 0)];
          }
        case Bundle(txs, reverting, dropping, latestOnly) =>
          if txs == [] || |txs| > MAX_LEN || txs[0] >= TWO_16 {
            continue;
          }
          var flags := if latestOnly then LATEST_ONLY else 0;
          if dropping == [] && |reverting| == |txs| {
            flags := flags | ALL_REVERT;
          } else if !(reverting == [] && dropping == []) {
            var codes := PackCodes(reverting, dropping, |txs|);
            txCodes := txCodes + [TxCodes(|orders| % TWO_16, codes)];
          }
          orders := orders + [OrderV2(txs[0], |txs|, flags)];
      }
    }
    assert os[..|os|] == os;
    d := DataV2(orders, txCodes);
  }
}
