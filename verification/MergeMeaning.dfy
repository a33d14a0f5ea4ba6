/** Compaction keeps what every order means: exactly when, for one order and for whole lists. */
module MergeMeaning {
  import opened Bytes
  import opened Counting
  import opened MergeOrders

  // ---------------------------------------------------------------- two-bit codes

  /** Writing one lane of a byte changes that lane only. */
  lemma LaneWrite(x: bv8, code: bv8, idx: nat, tx: nat)
    requires code == REVERT || code == DROP
    ensures ((x | (code << ShiftOf(idx))) >> ShiftOf(tx)) & 3
         == if idx % 4 == tx % 4 then ((x >> ShiftOf(tx)) & 3) | code else (x >> ShiftOf(tx)) & 3
  {
    LaneBits(x, code, ShiftOf(idx), ShiftOf(tx));
  }

  predicate IsShift(s: bv8) { s == 0 || s == 2 || s == 4 || s == 6 }

  lemma LaneBits(x: bv8, code: bv8, s: bv8, t: bv8)
    requires IsShift(s) && IsShift(t) && (code == REVERT || code == DROP)
    ensures ((x | (code << s)) >> t) & 3 == if s == t then ((x >> t) & 3) | code else (x >> t) & 3
  {}

  function Added(present: bool, code: bv8): bv8 { if present then code else 0 }

  /** Positions outside the bundle share bytes with those inside, and are never written. */
  lemma CodeAfterWrite(codes: seq<bv8>, idx: nat, code: bv8, len: nat, tx: nat)
    requires |codes| == CodesLen(len) && tx / 4 < |codes| && (code == REVERT || code == DROP)
    ensures CodeAt(WriteCode(codes, idx, code, len), tx) == CodeAt(codes, tx) | Added(idx == tx && tx < len, code)
  {
    OrZero(CodeAt(codes, tx));
    if idx < len { LaneWrite(codes[idx / 4], code, idx, tx); }
  }

  lemma OrZero(x: bv8)
    ensures x | 0 == x
  {}

  lemma OrTwice(x: bv8, code: bv8, seen: bool, now: bool)
    ensures (x | Added(seen, code)) | Added(now, code) == x | Added(seen || now, code)
  {}

  lemma {:induction false} CodeAfterWrites(codes: seq<bv8>, idxs: seq<nat>, code: bv8, len: nat, tx: nat)
    requires |codes| == CodesLen(len) && tx / 4 < |codes| && (code == REVERT || code == DROP)
    ensures CodeAt(WriteCodes(codes, idxs, code, len), tx) == CodeAt(codes, tx) | Added(tx in idxs && tx < len, code)
  {
    if idxs == [] {
      OrZero(CodeAt(codes, tx));
    } else {
      var before, last := idxs[..|idxs| - 1], idxs[|idxs| - 1];
      assert idxs == before + [last];
      CodeAfterWrites(codes, before, code, len, tx);
      CodeAfterWrite(WriteCodes(codes, before, code, len), last, code, len, tx);
      OrTwice(CodeAt(codes, tx), code, tx in before && tx < len, last == tx && tx < len);
    }
  }

  lemma BothCodes(revert: bool, drop: bool)
    ensures PermissionOf((0 | Added(revert, REVERT)) | Added(drop, DROP)) == Permission(revert, drop)
  {}

  lemma ZeroCode(len: nat, tx: nat)
    requires tx / 4 < CodesLen(len)
    ensures CodeAt(Zeros(CodesLen(len)), tx) == 0
  {
    ZeroLane(ShiftOf(tx));
  }

  lemma ZeroLane(s: bv8)
    requires IsShift(s)
    ensures ((0 as bv8) >> s) & 3 == 0
  {}

  /** The packed codes say of each transaction exactly whether it is in either list, and nothing of
      positions outside the bundle. */
  lemma PackedMeans(reverting: seq<nat>, dropping: seq<nat>, len: nat, tx: nat)
    requires tx / 4 < CodesLen(len)
    ensures |Packed(reverting, dropping, len)| == CodesLen(len)
    ensures PermissionOf(CodeAt(Packed(reverting, dropping, len), tx))
         == if tx < len then PermissionIn(reverting, dropping, tx) else Permission(false, false)
  {
    var zeros := Zeros(CodesLen(len));
    ZeroCode(len, tx);
    CodeAfterWrites(zeros, reverting, REVERT, len, tx);
    CodeAfterWrites(WriteCodes(zeros, reverting, REVERT, len), dropping, DROP, len, tx);
    BothCodes(tx in reverting && tx < len, tx in dropping && tx < len);
  }

  // ---------------------------------------------------------------- one order

  predicate Contiguous(txs: seq<nat>)
  {
    forall i :: 0 <= i < |txs| ==> txs[i] == txs[0] + i
  }

  predicate Covers(reverting: seq<nat>, len: nat)
  {
    forall i :: 0 <= i < len ==> i in reverting
  }

  /** A bundle is contiguous, and if it is marked as all reverting then every position is listed. */
  predicate Faithful(o: Order)
  {
    o.Bundle? ==> Contiguous(o.txs) && (MarkedAllRevert(o) ==> Covers(o.reverting, |o.txs|))
  }

  function CodesFor(o: Order): Option<seq<bv8>>
  {
    if o.Bundle? && NeedsCodes(o) then Some(Packed(o.reverting, o.dropping, |o.txs|)) else None
  }

  lemma FlagsRead(latestOnly: bool, allRevert: bool)
    ensures LatestOnly(FlagsOf(latestOnly, allRevert)) == latestOnly
    ensures AllRevert(FlagsOf(latestOnly, allRevert)) == allRevert
  {}

  lemma PermissionMeans(o: Order, i: nat)
    requires o.Bundle? && Representable(o) && i < |o.txs|
    requires MarkedAllRevert(o) ==> i in o.reverting
    ensures PermissionV2(CompactOrder(o), CodesFor(o), i) == PermissionIn(o.reverting, o.dropping, i)
  {
    FlagsRead(o.latestOnly, MarkedAllRevert(o));
    if NeedsCodes(o) { PackedMeans(o.reverting, o.dropping, |o.txs|, i); }
  }

  /** Compacting an order keeps its meaning exactly when it is faithful. */
  lemma OrderMeaning(o: Order)
    requires Representable(o)
    ensures MeaningV2(CompactOrder(o), CodesFor(o)) == MeaningV1(o) <==> Faithful(o)
  {
    match o {
      case Tx(index, canRevert) =>
        FlagsRead(false, canRevert);
      case Bundle(txs, reverting, dropping, latestOnly) =>
        FlagsRead(latestOnly, MarkedAllRevert(o));
        var v2, v1 := MeaningV2(CompactOrder(o), CodesFor(o)), MeaningV1(o);
        if Faithful(o) {
          forall i | 0 <= i < |txs| ensures v2.permissions[i] == v1.permissions[i] { PermissionMeans(o, i); }
          assert v2.txs == v1.txs;
        }
        if v2 == v1 {
          forall i | 0 <= i < |txs| ensures txs[i] == txs[0] + i { assert v2.txs[i] == v1.txs[i]; }
          if MarkedAllRevert(o) {
            forall i | 0 <= i < |txs| ensures i in reverting { assert v2.permissions[i] == v1.permissions[i]; }
          }
        }
    }
  }

  // ---------------------------------------------------------------- when a full list covers

  predicate NoDuplicates(xs: seq<nat>)
  {
    forall i, j :: 0 <= i < j < |xs| ==> xs[i] != xs[j]
  }

  predicate InRange(xs: seq<nat>, len: nat)
  {
    forall i :: 0 <= i < |xs| ==> xs[i] < len
  }

  function Elements(xs: seq<nat>): set<nat> { set x | x in xs }

  lemma {:induction false} DistinctCount(xs: seq<nat>)
    requires NoDuplicates(xs)
    ensures |Elements(xs)| == |xs|
  {
    if xs != [] {
      var before, last := xs[..|xs| - 1], xs[|xs| - 1];
      DistinctCount(before);
      assert xs == before + [last];
      assert Elements(xs) == Elements(before) + {last};
      assert last !in before;
    }
  }

  lemma {:induction false} RangeCount(n: nat) returns (s: set<nat>)
    ensures |s| == n && forall x: nat :: x in s <==> x < n
  {
    if n == 0 {
      s := {};
    } else {
      s := RangeCount(n - 1);
      s := s + {n - 1};
    }
  }

  lemma SameSize(a: set<nat>, b: set<nat>)
    requires a <= b && |a| == |b|
    ensures a == b
  {
    if a != b {
      var x :| x in b && x !in a;
      SubsetBound(a, b - {x});
    }
  }

  /** Pigeonhole: as many different positions as there are cover all of them. */
  lemma DistinctCovers(reverting: seq<nat>, len: nat)
    requires |reverting| == len && NoDuplicates(reverting) && InRange(reverting, len)
    ensures Covers(reverting, len)
  {
    DistinctCount(reverting);
    var range := RangeCount(len);
    SameSize(Elements(reverting), range);
    forall i | 0 <= i < len ensures i in reverting { assert i in Elements(reverting); }
  }

  /** What a well-behaved sender writes is faithful. */
  lemma WellFormedIsFaithful(o: Order)
    requires o.Bundle? && Contiguous(o.txs) && NoDuplicates(o.reverting) && InRange(o.reverting, |o.txs|)
    ensures Faithful(o)
  {
    if MarkedAllRevert(o) { DistinctCovers(o.reverting, |o.txs|); }
  }

  /** A repeated position makes a partly reverting bundle all reverting. */
  lemma RepeatedPositionWidens(start: nat)
    requires start < TWO_16
    ensures var o := Bundle([start, start + 1], [0, 0], [], false);
            && Representable(o) && InRange(o.reverting, 2) && !Faithful(o)
            && MeaningV1(o).permissions[1] == Permission(false, false)
            && MeaningV2(CompactOrder(o), CodesFor(o)).permissions[1] == Permission(true, false)
  {
    var o := Bundle([start, start + 1], [0, 0], [], false);
    FlagsRead(false, true);
    assert 1 !in o.reverting;
  }

  // ---------------------------------------------------------------- whole lists

  lemma {:induction false} CodesOfAppend(cs: seq<TxCodes>, c: TxCodes, i: nat)
    ensures Codes(cs + [c], i)
         == if Codes(cs, i).Some? then Codes(cs, i) else if c.order == i then Some(c.codes) else None
  {
    if cs == [] {
      assert [c][1..] == [];
    } else {
      CodesOfAppend(cs[1..], c, i);
      assert (cs + [c])[1..] == cs[1..] + [c];
    }
  }

  lemma {:induction false} OneEach(os: seq<Order>)
    ensures |Compact(os).orders| == |Kept(os)|
    ensures forall i :: 0 <= i < |Kept(os)| ==>
      Representable(Kept(os)[i]) && Compact(os).orders[i] == CompactOrder(Kept(os)[i])
  {
    if os != [] { OneEach(os[..|os| - 1]); }
  }

  lemma {:induction false} NoCodesYet(os: seq<Order>, i: nat)
    requires |Kept(os)| <= i < TWO_16
    ensures Codes(Compact(os).txCodes, i) == None
  {
    if os != [] {
      var before, o := os[..|os| - 1], os[|os| - 1];
      NoCodesYet(before, i);
      OneEach(before);
      if o.Bundle? && Representable(o) && NeedsCodes(o) {
        var d := Compact(before);
        CodesOfAppend(d.txCodes, TxCodes(|d.orders| % TWO_16, Packed(o.reverting, o.dropping, |o.txs|)), i);
      }
    }
  }

  lemma {:induction false} NoLateCodes(os: seq<Order>, i: nat)
    requires i >= TWO_16
    ensures Codes(Compact(os).txCodes, i) == None
  {
    if os != [] {
      var before, o := os[..|os| - 1], os[|os| - 1];
      NoLateCodes(before, i);
      if o.Bundle? && Representable(o) && NeedsCodes(o) {
        var d := Compact(before);
        CodesOfAppend(d.txCodes, TxCodes(|d.orders| % TWO_16, Packed(o.reverting, o.dropping, |o.txs|)), i);
      }
    }
  }

  /** The codes found for order `i` are those of the late order `j`, whose 16-bit index is `i`. */
  ghost predicate FoundFrom(os: seq<Order>, i: nat, j: nat)
  {
    && TWO_16 <= j < |Kept(os)| && j % TWO_16 == i && CodesFor(Kept(os)[j]).Some?
    && Codes(Compact(os).txCodes, i) == CodesFor(Kept(os)[j])
  }

  lemma {:induction false} CodesFound(os: seq<Order>, i: nat)
    requires i < |Kept(os)| && i < TWO_16
    ensures Codes(Compact(os).txCodes, i) == CodesFor(Kept(os)[i])
         || (CodesFor(Kept(os)[i]) == None && exists j :: FoundFrom(os, i, j))
  {
    var before, o := os[..|os| - 1], os[|os| - 1];
    var d, n := Compact(before), |Kept(before)|;
    OneEach(before);
    if i < n { CodesFound(before, i); } else { NoCodesYet(before, i); }
    if CodesFor(o).Some? && Representable(o) {
      CodesOfAppend(d.txCodes, TxCodes(n % TWO_16, CodesFor(o).value), i);
      if i < n && n % TWO_16 == i && Codes(d.txCodes, i) == None {
        assert FoundFrom(os, i, n);
      }
    }
    if j :| i < n && FoundFrom(before, i, j) { assert FoundFrom(os, i, j); }
  }

  /** No order past the first 65536 has codes that would be filed under `i`. */
  ghost predicate Undisturbed(os: seq<Order>, i: nat)
  {
    forall j :: TWO_16 <= j < |Kept(os)| && j % TWO_16 == i % TWO_16 ==> CodesFor(Kept(os)[j]) == None
  }

  /** The codes found for an undisturbed order are those made for it. */
  lemma CodesAreOwn(os: seq<Order>, i: nat)
    requires i < |Kept(os)| && Undisturbed(os, i)
    ensures |Compact(os).orders| == |Kept(os)| && Representable(Kept(os)[i])
    ensures Compact(os).orders[i] == CompactOrder(Kept(os)[i])
    ensures Codes(Compact(os).txCodes, i) == CodesFor(Kept(os)[i])
  {
    OneEach(os);
    if i < TWO_16 { CodesFound(os, i); } else { NoLateCodes(os, i); }
  }

  /** What is written fits its fields: 16-bit starts and indices, 8-bit lengths, two bits a code. */
  predicate FieldsFit(d: DataV2)
  {
    && (forall i :: 0 <= i < |d.orders| ==> d.orders[i].start < TWO_16 && 0 < d.orders[i].len <= MAX_LEN)
    && (forall i :: 0 <= i < |d.txCodes| ==>
          d.txCodes[i].order < TWO_16 && 0 < |d.txCodes[i].codes| <= CodesLen(MAX_LEN))
  }

  lemma PackedLength(reverting: seq<nat>, dropping: seq<nat>, len: nat)
    requires 0 < len <= MAX_LEN
    ensures 0 < |Packed(reverting, dropping, len)| <= CodesLen(MAX_LEN)
  {
    PackedMeans(reverting, dropping, len, 0);
  }

  lemma {:induction false} CompactFits(os: seq<Order>)
    ensures FieldsFit(Compact(os))
  {
    if os != [] {
      CompactFits(os[..|os| - 1]);
      var o := os[|os| - 1];
      if o.Bundle? && Representable(o) { PackedLength(o.reverting, o.dropping, |o.txs|); }
    }
  }

  function MeaningsV1(os: seq<Order>): seq<Meaning>
  {
    seq(|os|, i requires 0 <= i < |os| => MeaningV1(os[i]))
  }

  /** The order's codes change its meaning: some position of the bundle is listed. */
  predicate Permits(o: Order)
  {
    CodesFor(o).Some? && exists p :: 0 <= p < |o.txs| && (p in o.reverting || p in o.dropping)
  }

  /** Codes that permit nothing read as no codes. */
  lemma QuietCodes(o: Order, p: nat)
    requires Representable(o) && CodesFor(o).Some? && !Permits(o) && p / 4 < |CodesFor(o).value|
    ensures PermissionOf(CodeAt(CodesFor(o).value, p)) == Permission(false, false)
  {
    PackedMeans(o.reverting, o.dropping, |o.txs|, 0);
    PackedMeans(o.reverting, o.dropping, |o.txs|, p);
  }

  lemma QuietMeaning(c: OrderV2, o: Order)
    requires Representable(o) && CodesFor(o).Some? && !Permits(o)
    ensures MeaningV2(c, CodesFor(o)) == MeaningV2(c, None)
  {
    forall i | 0 <= i < c.len ensures PermissionV2(c, CodesFor(o), i) == PermissionV2(c, None, i) {
      if i / 4 < |CodesFor(o).value| { QuietCodes(o, i); }
    }
    assert MeaningV2(c, CodesFor(o)).permissions == MeaningV2(c, None).permissions;
  }

  ghost predicate LateQuiet(os: seq<Order>)
  {
    forall j :: TWO_16 <= j < |Kept(os)| ==> !Permits(Kept(os)[j])
  }

  /** Where no late order's codes matter, each order means what its own codes make it mean. */
  lemma FoundMeans(os: seq<Order>, i: nat)
    requires i < |Kept(os)| && LateQuiet(os)
    ensures Representable(Kept(os)[i]) && |Compact(os).orders| == |Kept(os)|
    ensures Meanings(Compact(os))[i] == MeaningV2(CompactOrder(Kept(os)[i]), CodesFor(Kept(os)[i]))
  {
    OneEach(os);
    var o := Kept(os)[i];
    if i < TWO_16 {
      CodesFound(os, i);
      if Codes(Compact(os).txCodes, i) != CodesFor(o) {
        var j: nat :| FoundFrom(os, i, j);
        QuietMeaning(CompactOrder(o), Kept(os)[j]);
      }
    } else {
      NoLateCodes(os, i);
      if CodesFor(o).Some? { QuietMeaning(CompactOrder(o), o); }
    }
  }

  /** An order past the first 65536 loses its codes, and its meaning if they mattered. */
  lemma LateCodesAreLost(os: seq<Order>, i: nat)
    requires TWO_16 <= i < |Kept(os)|
    ensures |Meanings(Compact(os))| == |Compact(os).orders| == |Kept(os)|
    ensures forall tx :: 0 <= tx < |Meanings(Compact(os))[i].permissions| ==>
              Meanings(Compact(os))[i].permissions[tx] == Permission(AllRevert(Compact(os).orders[i].flags), false)
    ensures Permits(Kept(os)[i]) ==> Meanings(Compact(os))[i] != MeaningV1(Kept(os)[i])
  {
    OneEach(os);
    NoLateCodes(os, i);
    var o := Kept(os)[i];
    if Permits(o) {
      FlagsRead(o.latestOnly, MarkedAllRevert(o));
      var p :| 0 <= p < |o.txs| && (p in o.reverting || p in o.dropping);
      assert Meanings(Compact(os))[i].permissions[p] == Permission(false, false) != MeaningV1(o).permissions[p];
    }
  }

  /** For every list: the compact orders mean, in order, exactly what the orders it can hold mean, if
      and only if each of those is faithful and none past the first 65536 needs codes that matter. */
  lemma CompactMeaning(os: seq<Order>)
    ensures Meanings(Compact(os)) == MeaningsV1(Kept(os))
       <==> (forall i :: 0 <= i < |Kept(os)| ==> Faithful(Kept(os)[i])) && LateQuiet(os)
  {
    var v2, v1 := Meanings(Compact(os)), MeaningsV1(Kept(os));
    OneEach(os);
    if v2 == v1 {
      forall j | TWO_16 <= j < |Kept(os)| ensures !Permits(Kept(os)[j]) {
        assert v2[j] == v1[j];
        if Permits(Kept(os)[j]) { LateCodesAreLost(os, j); }
      }
    }
    if LateQuiet(os) { EachMeaning(os); }
  }

  lemma EachMeaning(os: seq<Order>)
    requires LateQuiet(os)
    ensures Meanings(Compact(os)) == MeaningsV1(Kept(os)) <==> forall i :: 0 <= i < |Kept(os)| ==> Faithful(Kept(os)[i])
  {
    var v2, v1 := Meanings(Compact(os)), MeaningsV1(Kept(os));
    OneEach(os);
    forall i | 0 <= i < |Kept(os)| ensures v2[i] == v1[i] <==> Faithful(Kept(os)[i]) {
      FoundMeans(os, i);
      OrderMeaning(Kept(os)[i]);
    }
    if v2 == v1 {
      forall i | 0 <= i < |Kept(os)| ensures Faithful(Kept(os)[i]) { assert v2[i] == v1[i]; }
    }
  }

  // ---------------------------------------------------------------- codes that go astray

  lemma {:induction false} NothingCoded(os: seq<Order>)
    requires forall i :: 0 <= i < |os| ==> Representable(os[i]) && CodesFor(os[i]) == None
    ensures Kept(os) == os && Compact(os).txCodes == []
  {
    if os != [] {
      NothingCoded(os[..|os| - 1]);
      assert os == os[..|os| - 1] + [os[|os| - 1]];
    }
  }

  /** After exactly 65536 orders without codes, the codes of the next are filed under the first. */
  lemma CodesGoAstray(front: seq<Order>, o: Order)
    requires |front| == TWO_16 && forall i :: 0 <= i < |front| ==> Representable(front[i]) && CodesFor(front[i]) == None
    requires Representable(o) && CodesFor(o).Some?
    ensures Kept(front + [o]) == front + [o] && |Compact(front + [o]).orders| == |front| + 1
    ensures Codes(Compact(front + [o]).txCodes, 0) == CodesFor(o)
  {
    NothingCoded(front);
    OneEach(front);
    OneEach(front + [o]);
    assert (front + [o])[..|front|] == front;
    CodesOfAppend([], TxCodes(|front| % TWO_16, CodesFor(o).value), 0);
    assert [] + [TxCodes(0, CodesFor(o).value)] == [TxCodes(0, CodesFor(o).value)];
  }

  /** So a transaction that may not revert is told it may: every order of the list is faithful, and the
      first one changes its meaning. */
  lemma FirstOrderChanges(front: seq<Order>)
    requires |front| == TWO_16 && forall i :: 0 <= i < |front| ==> front[i] == Tx(0, false)
    ensures var o := Bundle([0, 1], [0], [], false);
            && Kept(front + [o]) == front + [o] && (forall i :: 0 <= i <= |front| ==> Faithful((front + [o])[i]))
            && MeaningV1(front[0]).permissions == [Permission(false, false)]
            && |Meanings(Compact(front + [o]))| == |front| + 1
            && Meanings(Compact(front + [o]))[0].permissions == [Permission(true, false)]
  {
    var o := Bundle([0, 1], [0], [], false);
    CodesGoAstray(front, o);
    OneEach(front + [o]);
    FlagsRead(false, false);
    PackedMeans(o.reverting, o.dropping, 2, 0);
    assert 0 in o.reverting && 0 !in o.dropping;
  }
}
