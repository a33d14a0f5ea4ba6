/** Whole runs of the upload queue: what every run conserves and never exceeds. */
module S3Runs {
  import opened Bytes
  import opened Sums
  import opened S3Records
  import opened S3Store
  import opened S3Inv

  ghost predicate Good(s: Store, held: seq<Upload>)
  {
    Inv(s, held) && SendsCounted(s, held)
  }

  // ---------------------------------------------------------------- single steps

  lemma PushGood(s: Store, held: seq<Upload>, slot: nat, r: Record)
    requires Good(s, held) && (s.batch.records == 0 || s.batch.slot == slot)
    ensures Good(Push(s, slot, r), held)
  {
    PushKeeps(s, held, slot, r);
  }

  lemma CloseGood(s: Store, held: seq<Upload>)
    requires Good(s, held)
    ensures Good(Close(s).0, held + [Close(s).1])
  {
    CloseKeeps(s, held);
    NeverSent(s.log.sent, s.number);
  }

  lemma HeldCounted(s: Store, held: seq<Upload>, up: Upload)
    requires SendsCounted(s, held + [up])
    ensures SendsCounted(s, held) && CountedAt(s.log.sent, up)
  {
    assert (held + [up])[|held|] == up;
    forall i | 0 <= i < |held| ensures CountedAt(s.log.sent, held[i]) { assert (held + [up])[i] == held[i]; }
  }

  lemma RequeueGood(s: Store, held: seq<Upload>, up: Upload, now: nat)
    requires Good(s, held + [up])
    ensures Good(Requeue(s, up, now), held)
  {
    RequeueKeeps(s, held, up, now);
    HeldCounted(s, held, up);
  }

  lemma SendGood(s: Store, held: seq<Upload>, up: Upload, answer: Option<nat>, now: nat)
    requires Good(s, held + [up]) && up.attempts < MAX_ATTEMPTS
    requires answer.Some? ==> answer.value !in s.inFlight
    ensures Good(Send(s, up, answer, now), held)
  {
    SendKeeps(s, held, up, answer, now);
    if answer.Some? { LaunchCounts(s, held, up, answer.value); } else { RequeueGood(s, held, up, now); }
  }

  lemma FlushGood(s: Store, held: seq<Upload>, answer: Option<nat>, now: nat)
    requires Good(s, held) && (answer.Some? ==> answer.value !in s.inFlight)
    ensures Good(Flush(s, answer, now), held)
  {
    if s.batch.records > 0 {
      CloseGood(s, held);
      SendGood(Close(s).0, held, Close(s).1, answer, now);
    }
  }

  /** The batch of another slot goes out before the record is added. */
  function Turned(s: Store, slot: nat, a1: Option<nat>, now: nat): Store
  {
    if s.batch.records > 0 && s.batch.slot != slot then Flush(s, a1, now) else s
  }

  lemma TurnedGood(s: Store, slot: nat, a1: Option<nat>, a2: Option<nat>, now: nat)
    requires Good(s, []) && FreshAnswers(s, a1, a2)
    ensures var t := Turned(s, slot, a1, now);
      Good(t, []) && (t.batch.records == 0 || t.batch.slot == slot) && (a2.Some? ==> a2.value !in t.inFlight)
  {
    if s.batch.records > 0 && s.batch.slot != slot { FlushGood(s, [], a1, now); }
  }

  /** The record is added, and a batch it fills goes out. */
  function Added(t: Store, slot: nat, r: Record, a2: Option<nat>, now: nat): Store
  {
    var u := Push(t, slot, r);
    if |u.batch.body| >= BATCH_BYTES then Flush(u, a2, now) else u
  }

  lemma UploadIs(s: Store, slot: nat, r: Record, a1: Option<nat>, a2: Option<nat>, now: nat)
    ensures UploadRecord(s, slot, r, a1, a2, now) == Added(Turned(s, slot, a1, now), slot, r, a2, now)
  {
  }

  lemma AddedGood(t: Store, slot: nat, r: Record, a2: Option<nat>, now: nat)
    requires Good(t, []) && (t.batch.records == 0 || t.batch.slot == slot) && (a2.Some? ==> a2.value !in t.inFlight)
    ensures Good(Added(t, slot, r, a2, now), [])
  {
    PushGood(t, [], slot, r);
    FlushGood(Push(t, slot, r), [], a2, now);
  }

  lemma UploadGood(s: Store, slot: nat, r: Record, a1: Option<nat>, a2: Option<nat>, now: nat)
    requires Good(s, []) && FreshAnswers(s, a1, a2)
    ensures Good(UploadRecord(s, slot, r, a1, a2, now), [])
  {
    TurnedGood(s, slot, a1, a2, now);
    AddedGood(Turned(s, slot, a1, now), slot, r, a2, now);
    UploadIs(s, slot, r, a1, a2, now);
  }

  /** What was batched in `s` is one object of `t`, the last; nothing stays batched, and what was pushed
      is as it was. */
  ghost predicate MakesObject(s: Store, t: Store)
  {
    && t.log.pushed == s.log.pushed && t.log.batched == [] && t.batch.records == 0 && t.batch.body == []
    && t.log.objects == s.log.objects + if s.log.batched == [] then [] else [Object(s.batch.slot, s.log.batched)]
  }

  lemma FlushMakesObject(s: Store, answer: Option<nat>, now: nat)
    requires BatchMatches(s)
    ensures MakesObject(s, Flush(s, answer, now))
  {
  }

  /** The last object is of slot `slot` and ends with `record`. */
  predicate LastObjectEnds(objects: seq<Object>, slot: nat, record: Record)
  {
    objects != [] && var o := objects[|objects| - 1];
    o.slot == slot && o.records != [] && o.records[|o.records| - 1] == record
  }

  predicate BatchEnds(s: Store, slot: nat, record: Record)
  {
    s.batch.records > 0 && s.batch.slot == slot && s.log.batched != [] && s.log.batched[|s.log.batched| - 1] == record
  }

  ghost predicate Places(s: Store, t: Store, slot: nat, r: Record)
  {
    && t.log.pushed == s.log.pushed + [Pushed(slot, r)] && s.log.objects <= t.log.objects
    && |t.batch.body| < BATCH_BYTES
    && if t.batch.records == 0 then LastObjectEnds(t.log.objects, slot, r) else BatchEnds(t, slot, r)
  }

  lemma AddedPlaces(t: Store, slot: nat, r: Record, a2: Option<nat>, now: nat)
    requires BatchMatches(t) && (t.batch.records == 0 || t.batch.slot == slot)
    ensures Places(t, Added(t, slot, r, a2, now), slot, r)
  {
    PushMatches(t, slot, r);
    FlushMakesObject(Push(t, slot, r), a2, now);
  }

  lemma TurnedMatches(s: Store, slot: nat, a1: Option<nat>, now: nat)
    requires BatchMatches(s)
    ensures var t := Turned(s, slot, a1, now);
      && BatchMatches(t) && (t.batch.records == 0 || t.batch.slot == slot)
      && t.log.pushed == s.log.pushed && s.log.objects <= t.log.objects
  {
    FlushMakesObject(s, a1, now);
    CloseBatch(s);
  }

  /** Exactly the one record is pushed, and it is the last of a batch or of an object of its own slot. */
  lemma UploadPlaces(s: Store, slot: nat, r: Record, a1: Option<nat>, a2: Option<nat>, now: nat)
    requires BatchMatches(s)
    ensures Places(s, UploadRecord(s, slot, r, a1, a2, now), slot, r)
  {
    TurnedMatches(s, slot, a1, now);
    AddedPlaces(Turned(s, slot, a1, now), slot, r, a2, now);
    UploadIs(s, slot, r, a1, a2, now);
  }

  lemma TakeRetryGood(s: Store, held: seq<Upload>, pos: nat)
    requires Good(s, held) && pos < |s.retry| && |s.retry[pos].up.body| <= s.retryBytes
    ensures Good(TakeRetry(s, pos).0, held + [TakeRetry(s, pos).1])
    ensures TakeRetry(s, pos).1.attempts < MAX_ATTEMPTS
  {
    TakeRetryKeeps(s, held, pos);
    var (t, up) := TakeRetry(s, pos);
    forall i | 0 <= i < |t.retry| ensures CountedAt(t.log.sent, t.retry[i].up) {
      assert t.retry[i] == s.retry[if i < pos then i else i + 1];
    }
  }

  lemma FinishCounts(s: Store, held: seq<Upload>, id: nat, o: Outcome)
    requires SendsCounted(s, held)
    ensures SendsCounted(Finish(s, id, o).0, held + Back(Finish(s, id, o).1))
  {
    assert held + [] == held;
  }

  lemma FinishGood(s: Store, held: seq<Upload>, id: nat, o: Outcome)
    requires Good(s, held)
    ensures Good(Finish(s, id, o).0, held + Back(Finish(s, id, o).1))
  {
    FinishKeeps(s, held, id, o);
    FinishCounts(s, held, id, o);
  }

  // ---------------------------------------------------------------- pump

  /** The first retry that is due. */
  function DuePos(retry: seq<Retry>, now: nat): (pos: Option<nat>)
    ensures pos.Some? ==> pos.value < |retry| && retry[pos.value].notBefore <= now
    ensures pos.Some? ==> forall i :: 0 <= i < pos.value ==> retry[i].notBefore > now
    ensures pos.None? ==> forall i :: 0 <= i < |retry| ==> retry[i].notBefore > now
  {
    DueFrom(retry, now, 0)
  }

  function DueFrom(retry: seq<Retry>, now: nat, i: nat): (pos: Option<nat>)
    requires i <= |retry|
    ensures pos.Some? ==> i <= pos.value < |retry| && retry[pos.value].notBefore <= now
    ensures pos.Some? ==> forall j :: i <= j < pos.value ==> retry[j].notBefore > now
    ensures pos.None? ==> forall j :: i <= j < |retry| ==> retry[j].notBefore > now
    decreases |retry| - i
  {
    if i == |retry| then None
    else if retry[i].notBefore <= now then Some(i)
    else DueFrom(retry, now, i + 1)
  }

  /** `answer(i)` is the network's answer to the `i`-th request of the call. */
  function Pump(s: Store, now: nat, answer: nat -> Option<nat>, i: nat, later: nat): Store
    requires RetriesSound(s)
    decreases |s.retry|
  {
    var due := DuePos(s.retry, now);
    if due == None then s
    else
      RetryFits(s, due.value);
      TakeRetrySound(s, due.value);
      var (t, up) := TakeRetry(s, due.value);
      if answer(i) == None then Requeue(t, up, later)
      else Pump(Launch(t, up, answer(i).value), now, answer, i + 1, later)
  }

  predicate FreshAt(s: Store, answer: nat -> Option<nat>, i: nat)
  {
    answer(i).Some? ==> answer(i).value !in s.inFlight
  }

  /** Request ids from the `i`-th on are new, and no two are the same. */
  ghost predicate FreshFrom(s: Store, answer: nat -> Option<nat>, i: nat)
  {
    && (forall j: nat :: i <= j ==> FreshAt(s, answer, j))
    && (forall j: nat, k: nat :: i <= j < k && answer(j).Some? ==> answer(j) != answer(k))
  }

  lemma {:induction false} PumpGood(s: Store, now: nat, answer: nat -> Option<nat>, i: nat, later: nat)
    requires Good(s, []) && FreshFrom(s, answer, i)
    ensures Good(Pump(s, now, answer, i, later), [])
    decreases |s.retry|
  {
    var due := DuePos(s.retry, now);
    if due.Some? {
      RetryFits(s, due.value);
      TakeRetryGood(s, [], due.value);
      var (t, up) := TakeRetry(s, due.value);
      assert [] + [up] == [up];
      assert FreshAt(s, answer, i);
      SendGood(t, [], up, answer(i), later);
      if answer(i).Some? {
        var u := Launch(t, up, answer(i).value);
        forall j: nat | i + 1 <= j ensures FreshAt(u, answer, j) { assert FreshAt(s, answer, j); }
        PumpGood(u, now, answer, i + 1, later);
      }
    }
  }

  // ---------------------------------------------------------------- drive

  datatype Done = Done(id: nat, outcome: Outcome)

  function FinishAll(s: Store, done: seq<Done>): (Store, seq<Upload>)
  {
    if done == [] then (s, [])
    else
      var (t, back) := FinishAll(s, done[..|done| - 1]);
      var (u, up) := Finish(t, done[|done| - 1].id, done[|done| - 1].outcome);
      (u, back + Back(up))
  }

  function RequeueAll(s: Store, ups: seq<Upload>, now: nat): Store
    decreases |ups|
  {
    if ups == [] then s else RequeueAll(Requeue(s, ups[0], now), ups[1..], now)
  }

  /** Closing the client: every upload in flight is parked, in the order of `ids`. */
  function Reconnect(s: Store, ids: seq<nat>, now: nat): Store
    decreases |ids|
  {
    if ids == [] then s
    else if ids[0] !in s.inFlight then Reconnect(s, ids[1..], now)
    else Reconnect(Requeue(s.(inFlight := s.inFlight - {ids[0]}), s.inFlight[ids[0]], now), ids[1..], now)
  }

  lemma {:induction false} FinishAllGood(s: Store, done: seq<Done>)
    requires Good(s, [])
    ensures Good(FinishAll(s, done).0, FinishAll(s, done).1)
  {
    if done != [] {
      FinishAllGood(s, done[..|done| - 1]);
      var (t, back) := FinishAll(s, done[..|done| - 1]);
      FinishGood(t, back, done[|done| - 1].id, done[|done| - 1].outcome);
    }
  }

  /** Uploads in hand may be put back in any order. */
  lemma HeldSwap(s: Store, up: Upload, rest: seq<Upload>)
    requires Good(s, [up] + rest)
    ensures Good(s, rest + [up])
  {
    forall f: nat -> int ensures Balanced(s, rest + [up], f) {
      assert Balanced(s, [up] + rest, f);
      HeldFirst(up, rest, f);
      UploadsPush(rest, up, f);
    }
    assert ([up] + rest)[0] == up;
    forall i | 0 <= i < |rest|
      ensures Intact(s.log.objects, rest[i]) && rest[i].attempts <= MAX_ATTEMPTS && CountedAt(s.log.sent, rest[i])
    {
      assert ([up] + rest)[i + 1] == rest[i];
    }
  }

  lemma {:induction false} HeldFirst(up: Upload, rest: seq<Upload>, f: nat -> int)
    ensures OfUploads([up] + rest, f) == f(up.number) + OfUploads(rest, f)
  {
    if rest == [] {
      assert [up] + rest == [] + [up];
      UploadsPush([], up, f);
    } else {
      var n := |rest| - 1;
      HeldFirst(up, rest[..n], f);
      assert [up] + rest == ([up] + rest[..n]) + [rest[n]];
      UploadsPush([up] + rest[..n], rest[n], f);
    }
  }

  lemma {:induction false} RequeueAllGood(s: Store, ups: seq<Upload>, now: nat)
    requires Good(s, ups)
    ensures Good(RequeueAll(s, ups, now), [])
    decreases |ups|
  {
    if ups != [] {
      assert ups == [ups[0]] + ups[1..];
      HeldSwap(s, ups[0], ups[1..]);
      RequeueGood(s, ups[1..], ups[0], now);
      RequeueAllGood(Requeue(s, ups[0], now), ups[1..], now);
    }
  }

  lemma RetireGood(s: Store, id: nat)
    requires Good(s, []) && id in s.inFlight
    ensures Good(s.(inFlight := s.inFlight - {id}), [s.inFlight[id]])
  {
    RetireKeeps(s, [], id);
    assert [] + [s.inFlight[id]] == [s.inFlight[id]];
  }

  lemma {:induction false} ReconnectGood(s: Store, ids: seq<nat>, now: nat)
    requires Good(s, [])
    ensures Good(Reconnect(s, ids, now), [])
    decreases |ids|
  {
    if ids != [] {
      if ids[0] in s.inFlight {
        RetireGood(s, ids[0]);
        assert [] + [s.inFlight[ids[0]]] == [s.inFlight[ids[0]]];
        RequeueGood(s.(inFlight := s.inFlight - {ids[0]}), [], s.inFlight[ids[0]], now);
        ReconnectGood(Requeue(s.(inFlight := s.inFlight - {ids[0]}), s.inFlight[ids[0]], now), ids[1..], now);
      } else {
        ReconnectGood(s, ids[1..], now);
      }
    }
  }

  // ---------------------------------------------------------------- runs

  datatype Op =
    | UploadOp(slot: nat, record: Record, a1: Option<nat>, a2: Option<nat>, now: nat)
    | FlushOp(answer: Option<nat>, now: nat)
    | PumpOp(now: nat, answers: nat -> Option<nat>, later: nat)
    | OutcomesOp(done: seq<Done>, now: nat)
    | ReconnectOp(ids: seq<nat>, now: nat)
    | TakeFailuresOp

  /** The network names each request with an id that is not in use. */
  ghost predicate Fresh(s: Store, op: Op)
  {
    match op
    case UploadOp(_, _, a1, a2, _) => FreshAnswers(s, a1, a2)
    case FlushOp(answer, _) => answer.Some? ==> answer.value !in s.inFlight
    case PumpOp(_, answer, _) => FreshFrom(s, answer, 0)
    case _ => true
  }

  function Apply(s: Store, op: Op): Store
  {
    match op
    case UploadOp(slot, r, a1, a2, now) => UploadRecord(s, slot, r, a1, a2, now)
    case FlushOp(answer, now) => Flush(s, answer, now)
    case PumpOp(now, answer, later) => if RetriesSound(s) then Pump(s, now, answer, 0, later) else s
    case OutcomesOp(done, now) => var (t, back) := FinishAll(s, done); RequeueAll(t, back, now)
    case ReconnectOp(ids, now) => Reconnect(s, ids, now)
    case TakeFailuresOp => TakeFailures(s)
  }

  function Run(start: Store, ops: seq<Op>): Store
  {
    if ops == [] then start else Apply(Run(start, ops[..|ops| - 1]), ops[|ops| - 1])
  }

  ghost predicate FreshRun(start: Store, ops: seq<Op>)
  {
    ops == [] || (FreshRun(start, ops[..|ops| - 1]) && Fresh(Run(start, ops[..|ops| - 1]), ops[|ops| - 1]))
  }

  lemma ApplyGood(s: Store, op: Op)
    requires Good(s, []) && Fresh(s, op)
    ensures Good(Apply(s, op), [])
  {
    match op
    case UploadOp(slot, r, a1, a2, now) => UploadGood(s, slot, r, a1, a2, now);
    case FlushOp(answer, now) => FlushGood(s, [], answer, now);
    case PumpOp(now, answer, later) => PumpGood(s, now, answer, 0, later);
    case OutcomesOp(done, now) =>
      FinishAllGood(s, done);
      RequeueAllGood(FinishAll(s, done).0, FinishAll(s, done).1, now);
    case ReconnectOp(ids, now) => ReconnectGood(s, ids, now);
    case TakeFailuresOp => TakeFailuresKeeps(s, []);
  }

  lemma EmptyBalanced(s: Store, f: nat -> int)
    requires IsEmpty(s)
    ensures Balanced(s, [], f)
  {
    assert Weights(s.inFlight, f) == map[];
    assert Ups(s.retry) == [];
  }

  lemma EmptyIsGood(s: Store)
    requires IsEmpty(s)
    ensures Good(s, [])
  {
    forall f: nat -> int ensures Balanced(s, [], f) { EmptyBalanced(s, f); }
    assert Ups(s.retry) == [];
    assert Tagged(s.batch.slot, s.log.batched) == [];
    assert Flat(s.log.objects) == [];
  }

  /** Every run from an empty queue keeps the law of conservation and the limits. */
  lemma {:induction false} RunIsGood(start: Store, ops: seq<Op>)
    requires IsEmpty(start) && FreshRun(start, ops)
    ensures Good(Run(start, ops), [])
  {
    if ops == [] {
      EmptyIsGood(start);
    } else {
      RunIsGood(start, ops[..|ops| - 1]);
      ApplyGood(Run(start, ops[..|ops| - 1]), ops[|ops| - 1]);
    }
  }

  // ---------------------------------------------------------------- what that means

  lemma {:induction false} RecordsOfObjects(objects: seq<Object>, n: nat)
    requires n <= |objects|
    ensures OfAll(n, RecordsOf(objects)) == |Flat(objects[..n])|
  {
    if n > 0 {
      RecordsOfObjects(objects, n - 1);
      assert objects[..n][..n - 1] == objects[..n - 1];
    }
  }

  function RecordCount(us: seq<Upload>): int
  {
    if us == [] then 0 else RecordCount(us[..|us| - 1]) + us[|us| - 1].records
  }

  lemma {:induction false} RecordsOfUploads(objects: seq<Object>, us: seq<Upload>)
    requires forall i :: 0 <= i < |us| ==> Intact(objects, us[i])
    ensures OfUploads(us, RecordsOf(objects)) == RecordCount(us)
  {
    if us != [] { RecordsOfUploads(objects, us[..|us| - 1]); }
  }

  ghost function FlightRecords(m: map<nat, Upload>): map<nat, int>
  {
    map id | id in m :: m[id].records
  }

  /** Records are conserved: each one pushed is acknowledged, counted as a failure, in the open
      batch, in flight or waiting for a retry. */
  lemma RecordsConserved(s: Store)
    requires Good(s, [])
    ensures |s.log.pushed|
         == OfKeys(s.log.acked, RecordsOf(s.log.objects)) + (s.failures + s.log.reported) + s.batch.records
            + SumValues(FlightRecords(s.inFlight)) + RecordCount(Ups(s.retry))
  {
    var f := RecordsOf(s.log.objects);
    assert Balanced(s, [], f);
    RecordsOfObjects(s.log.objects, |s.log.objects|);
    assert s.log.objects[..|s.log.objects|] == s.log.objects;
    assert Weights(s.inFlight, f) == FlightRecords(s.inFlight);
    RecordsOfUploads(s.log.objects, Ups(s.retry));
  }

  /** Each object is in exactly one place: acknowledged, given up, in flight or waiting. */
  lemma ObjectInOnePlace(s: Store, k: nat)
    requires Good(s, []) && k < |s.log.objects|
    ensures OfKeys(s.log.acked, Only(k)) + OfKeys(s.log.lost, Only(k))
            + SumValues(Weights(s.inFlight, Only(k))) + OfUploads(Ups(s.retry), Only(k)) == 1
  {
    assert Balanced(s, [], Only(k));
    OnlyOnce(|s.log.objects|, k);
  }

  /** After every run: records are conserved, retained bytes are exact and capped, no object was
      sent more than five times, and the objects and the open batch hold the records pushed, in
      order and by slot. */
  lemma RunConserves(start: Store, ops: seq<Op>, k: nat)
    requires IsEmpty(start) && FreshRun(start, ops)
    ensures var s := Run(start, ops);
            && |s.log.pushed| == OfKeys(s.log.acked, RecordsOf(s.log.objects)) + (s.failures + s.log.reported)
                 + s.batch.records + SumValues(FlightRecords(s.inFlight)) + RecordCount(Ups(s.retry))
            && s.retryBytes == BytesOf(Ups(s.retry)) <= MAX_RETRY_BYTES
            && Times(s.log.sent, k) <= MAX_ATTEMPTS
            && s.log.pushed == Flat(s.log.objects) + Tagged(s.batch.slot, s.log.batched)
  {
    RunIsGood(start, ops);
    RecordsConserved(Run(start, ops));
  }

  /** A body on the wire parses back to exactly the records of its object, all pushed for its slot. */
  lemma BodyParses(s: Store, id: nat)
    requires Good(s, []) && id in s.inFlight
    requires forall r :: r in s.log.objects[s.inFlight[id].number].records ==> RecordFits(r)
    ensures Parse(s.inFlight[id].body) == Some(s.log.objects[s.inFlight[id].number].records)
    ensures s.log.objects[s.inFlight[id].number].slot == s.inFlight[id].slot
  {
    ParseEncode(s.log.objects[s.inFlight[id].number].records);
  }
}
