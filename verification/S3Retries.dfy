/**
 * What becomes of a parked upload, over whole runs: it keeps its place until it is sent again, it is
 * never given up to make room for a newer one, and it waits half a second doubled once per send.
 */
module S3Retries {
  import opened Bytes
  import opened S3Records
  import opened S3Store
  import opened S3Inv
  import opened S3Runs

  function Pow2(n: nat): nat { if n == 0 then 1 else 2 * Pow2(n - 1) }

  lemma {:induction false} BackoffIsPow2(attempts: nat)
    ensures Backoff(attempts) == 500 * Pow2(attempts)
  {
    if attempts > 0 { BackoffIsPow2(attempts - 1); }
  }

  // ---------------------------------------------------------------- one step

  /** From `s` to `t` retries were only added, at the end, each with its delay from `now`. */
  ghost predicate Parks(s: Store, t: Store, now: nat)
  {
    && s.retry <= t.retry
    && forall i :: |s.retry| <= i < |t.retry| ==> t.retry[i].notBefore == now + Backoff(t.retry[i].up.attempts)
  }

  lemma ParksOn(s: Store, t: Store, u: Store, now: nat)
    requires Parks(s, t, now) && Parks(t, u, now)
    ensures Parks(s, u, now)
  {
    forall i | |s.retry| <= i < |u.retry| ensures u.retry[i].notBefore == now + Backoff(u.retry[i].up.attempts) {
      if i < |t.retry| { assert u.retry[i] == t.retry[i]; }
    }
  }

  /** Parking drops no older retry: past the byte limit it is the upload in hand that is given up, and
      only then or after its fifth send. */
  lemma RequeueNeverSheds(s: Store, up: Upload, now: nat)
    ensures var t := Requeue(s, up, now);
      var refused := up.attempts >= MAX_ATTEMPTS || s.retryBytes + |up.body| > MAX_RETRY_BYTES;
      && Parks(s, t, now)
      && (refused <==> t.log.lost == s.log.lost + [up.number])
      && (refused <==> t.retry == s.retry)
      && (!refused ==> t.log.lost == s.log.lost && t.retry[|s.retry|..] == [Retry(up, now + 500 * Pow2(up.attempts))])
  {
    BackoffIsPow2(up.attempts);
  }

  lemma FlushParks(s: Store, answer: Option<nat>, now: nat)
    ensures Parks(s, Flush(s, answer, now), now)
  {
  }

  lemma UploadParks(s: Store, slot: nat, r: Record, a1: Option<nat>, a2: Option<nat>, now: nat)
    ensures Parks(s, UploadRecord(s, slot, r, a1, a2, now), now)
  {
    var t := if s.batch.records > 0 && s.batch.slot != slot then Flush(s, a1, now) else s;
    FlushParks(s, a1, now);
    var u := Push(t, slot, r);
    FlushParks(u, a2, now);
    ParksOn(s, u, Flush(u, a2, now), now);
  }

  lemma {:induction false} RequeueAllParks(s: Store, ups: seq<Upload>, now: nat)
    ensures Parks(s, RequeueAll(s, ups, now), now)
    decreases |ups|
  {
    if ups != [] {
      RequeueAllParks(Requeue(s, ups[0], now), ups[1..], now);
      ParksOn(s, Requeue(s, ups[0], now), RequeueAll(s, ups, now), now);
    }
  }

  lemma {:induction false} ReconnectParks(s: Store, ids: seq<nat>, now: nat)
    ensures Parks(s, Reconnect(s, ids, now), now)
    decreases |ids|
  {
    if ids != [] {
      if ids[0] in s.inFlight {
        var t := Requeue(s.(inFlight := s.inFlight - {ids[0]}), s.inFlight[ids[0]], now);
        ReconnectParks(t, ids[1..], now);
        ParksOn(s, t, Reconnect(s, ids, now), now);
      } else {
        ReconnectParks(s, ids[1..], now);
      }
    }
  }

  lemma {:induction false} FinishAllParksNone(s: Store, done: seq<Done>)
    ensures FinishAll(s, done).0.retry == s.retry
  {
    if done != [] { FinishAllParksNone(s, done[..|done| - 1]); }
  }

  /** When an operation parks what it parks. */
  function Clock(op: Op): nat
  {
    match op
    case PumpOp(_, _, later) => later
    case TakeFailuresOp => 0
    case _ => op.now
  }

  lemma OpParks(s: Store, op: Op)
    requires !op.PumpOp?
    ensures Parks(s, Apply(s, op), Clock(op))
  {
    match op
    case UploadOp(slot, r, a1, a2, now) => UploadParks(s, slot, r, a1, a2, now);
    case FlushOp(answer, now) => FlushParks(s, answer, now);
    case OutcomesOp(done, now) =>
      FinishAllParksNone(s, done);
      RequeueAllParks(FinishAll(s, done).0, FinishAll(s, done).1, now);
    case ReconnectOp(ids, now) => ReconnectParks(s, ids, now);
    case TakeFailuresOp =>
  }

  // ---------------------------------------------------------------- sends

  lemma {:induction false} TimesGrow(ks: seq<nat>, js: seq<nat>, k: nat)
    requires ks <= js
    ensures Times(ks, k) <= Times(js, k)
  {
    if |ks| < |js| {
      TimesGrow(ks, js[..|js| - 1], k);
    } else {
      assert ks == js;
    }
  }

  lemma FlushSends(s: Store, answer: Option<nat>, now: nat)
    ensures s.log.sent <= Flush(s, answer, now).log.sent
  {
  }

  lemma {:induction false} RequeueAllSends(s: Store, ups: seq<Upload>, now: nat)
    ensures s.log.sent <= RequeueAll(s, ups, now).log.sent
    decreases |ups|
  {
    if ups != [] { RequeueAllSends(Requeue(s, ups[0], now), ups[1..], now); }
  }

  lemma {:induction false} ReconnectSends(s: Store, ids: seq<nat>, now: nat)
    ensures s.log.sent <= Reconnect(s, ids, now).log.sent
    decreases |ids|
  {
    if ids != [] {
      if ids[0] in s.inFlight {
        ReconnectSends(Requeue(s.(inFlight := s.inFlight - {ids[0]}), s.inFlight[ids[0]], now), ids[1..], now);
      } else {
        ReconnectSends(s, ids[1..], now);
      }
    }
  }

  lemma {:induction false} FinishAllSends(s: Store, done: seq<Done>)
    ensures FinishAll(s, done).0.log.sent == s.log.sent
  {
    if done != [] { FinishAllSends(s, done[..|done| - 1]); }
  }

  lemma {:induction false} PumpSends(s: Store, now: nat, answer: nat -> Option<nat>, i: nat, later: nat)
    requires RetriesSound(s)
    ensures s.log.sent <= Pump(s, now, answer, i, later).log.sent
    decreases |s.retry|
  {
    var due := DuePos(s.retry, now);
    if due.Some? && answer(i).Some? {
      RetryFits(s, due.value);
      TakeRetrySound(s, due.value);
      var (t, up) := TakeRetry(s, due.value);
      PumpSends(Launch(t, up, answer(i).value), now, answer, i + 1, later);
    }
  }

  lemma OpSends(s: Store, op: Op)
    ensures s.log.sent <= Apply(s, op).log.sent
  {
    match op
    case UploadOp(slot, r, a1, a2, now) =>
      var t := if s.batch.records > 0 && s.batch.slot != slot then Flush(s, a1, now) else s;
      FlushSends(s, a1, now);
      FlushSends(Push(t, slot, r), a2, now);
    case FlushOp(answer, now) => FlushSends(s, answer, now);
    case PumpOp(now, answer, later) => if RetriesSound(s) { PumpSends(s, now, answer, 0, later); }
    case OutcomesOp(done, now) =>
      FinishAllSends(s, done);
      RequeueAllSends(FinishAll(s, done).0, FinishAll(s, done).1, now);
    case ReconnectOp(ids, now) => ReconnectSends(s, ids, now);
    case TakeFailuresOp =>
  }

  // ---------------------------------------------------------------- pump

  /** `up` waits for a retry, as it was. */
  ghost predicate Waits(s: Store, up: Upload)
  {
    exists i :: 0 <= i < |s.retry| && s.retry[i].up == up
  }

  ghost predicate SentSince(s: Store, t: Store, up: Upload)
  {
    Times(t.log.sent, up.number) > Times(s.log.sent, up.number)
  }

  lemma TakenApart(s: Store, pos: nat, r: Retry)
    requires pos < |s.retry| && |s.retry[pos].up.body| <= s.retryBytes && r in s.retry
    ensures r == s.retry[pos] || r in TakeRetry(s, pos).0.retry
    ensures forall x :: x in TakeRetry(s, pos).0.retry ==> x in s.retry
  {
    var t := TakeRetry(s, pos).0;
    var i :| 0 <= i < |s.retry| && s.retry[i] == r;
    if i < pos { assert t.retry[i] == r; }
    if i > pos { assert t.retry[i - 1] == r; }
  }

  /** An upload taken for a retry fits again: refused, it is parked and not given up. */
  lemma RefusedIsParked(s: Store, pos: nat, later: nat)
    requires RetriesSound(s) && pos < |s.retry| && |s.retry[pos].up.body| <= s.retryBytes
    ensures var (t, up) := TakeRetry(s, pos);
      Requeue(t, up, later).retry == t.retry + [Retry(up, later + Backoff(up.attempts))]
  {
  }

  /** Sending due retries: each one that waited still does, or was sent. */
  lemma {:induction false} PumpSendsOrKeeps(
    s: Store, now: nat, answer: nat -> Option<nat>, i: nat, later: nat, r: Retry)
    requires RetriesSound(s) && r in s.retry
    ensures var t := Pump(s, now, answer, i, later); Waits(t, r.up) || SentSince(s, t, r.up)
    decreases |s.retry|
  {
    var due := DuePos(s.retry, now);
    if due.Some? {
      var pos := due.value;
      RetryFits(s, pos);
      TakeRetrySound(s, pos);
      TakenApart(s, pos, r);
      var (t, up) := TakeRetry(s, pos);
      if answer(i).None? {
        RefusedIsParked(s, pos, later);
        var u := Requeue(t, up, later);
        assert u.retry[|t.retry|].up == up;
        if r in t.retry { var j :| 0 <= j < |t.retry| && t.retry[j] == r; assert u.retry[j].up == r.up; }
      } else {
        LaunchedOrKept(s, now, answer, i, later, r, t, up);
      }
    } else {
      var j :| 0 <= j < |s.retry| && s.retry[j] == r;
    }
  }

  lemma {:induction false} LaunchedOrKept(
    s: Store, now: nat, answer: nat -> Option<nat>, i: nat, later: nat, r: Retry, t: Store, up: Upload)
    requires answer(i).Some? && RetriesSound(t) && |t.retry| < |s.retry| && t.log.sent == s.log.sent
    requires r.up == up || r in t.retry
    ensures var u := Pump(Launch(t, up, answer(i).value), now, answer, i + 1, later);
            Waits(u, r.up) || SentSince(s, u, r.up)
    decreases |s.retry|, 0
  {
    var l := Launch(t, up, answer(i).value);
    var u := Pump(l, now, answer, i + 1, later);
    TimesPush(s.log.sent, up.number, r.up.number);
    PumpSends(l, now, answer, i + 1, later);
    TimesGrow(l.log.sent, u.log.sent, r.up.number);
    if r.up != up { PumpSendsOrKeeps(l, now, answer, i + 1, later, r); }
  }

  /** What waits after a pump waited before, or was refused and parked anew. */
  lemma {:induction false} PumpParks(s: Store, now: nat, answer: nat -> Option<nat>, i: nat, later: nat, r: Retry)
    requires RetriesSound(s) && r in Pump(s, now, answer, i, later).retry
    ensures r in s.retry || r.notBefore == later + Backoff(r.up.attempts)
    decreases |s.retry|
  {
    var due := DuePos(s.retry, now);
    if due.Some? {
      var pos := due.value;
      RetryFits(s, pos);
      TakeRetrySound(s, pos);
      TakenApart(s, pos, s.retry[pos]);
      var (t, up) := TakeRetry(s, pos);
      if answer(i).None? {
        RefusedIsParked(s, pos, later);
      } else {
        PumpParks(Launch(t, up, answer(i).value), now, answer, i + 1, later, r);
      }
    }
  }

  // ---------------------------------------------------------------- runs

  lemma OpSendsOrKeeps(s: Store, op: Op, up: Upload)
    requires RetriesSound(s) && Waits(s, up)
    ensures Waits(Apply(s, op), up) || SentSince(s, Apply(s, op), up)
  {
    var i :| 0 <= i < |s.retry| && s.retry[i].up == up;
    if op.PumpOp? {
      PumpSendsOrKeeps(s, op.now, op.answers, 0, op.later, s.retry[i]);
    } else {
      OpParks(s, op);
      assert Apply(s, op).retry[i] == s.retry[i];
    }
  }

  /** `a` is any earlier state. */
  lemma NextSendsOrKeeps(a: Store, s: Store, op: Op, up: Upload)
    requires RetriesSound(s) && (Waits(s, up) || SentSince(a, s, up))
    requires Times(a.log.sent, up.number) <= Times(s.log.sent, up.number)
    ensures Waits(Apply(s, op), up) || SentSince(a, Apply(s, op), up)
    ensures Times(a.log.sent, up.number) <= Times(Apply(s, op).log.sent, up.number)
  {
    OpSends(s, op);
    TimesGrow(s.log.sent, Apply(s, op).log.sent, up.number);
    if Waits(s, up) { OpSendsOrKeeps(s, op, up); }
  }

  /** A parked upload leaves the queue only by being sent. */
  lemma {:induction false} ParkedUntilSent(start: Store, ops: seq<Op>, i: nat, up: Upload)
    requires IsEmpty(start) && FreshRun(start, ops) && i <= |ops| && Waits(Run(start, ops[..i]), up)
    ensures Waits(Run(start, ops), up) || SentSince(Run(start, ops[..i]), Run(start, ops), up)
    ensures Times(Run(start, ops[..i]).log.sent, up.number) <= Times(Run(start, ops).log.sent, up.number)
  {
    var n := |ops| - 1;
    if i == |ops| {
      assert ops[..i] == ops;
    } else {
      assert ops[..n][..i] == ops[..i];
      ParkedUntilSent(start, ops[..n], i, up);
      RunIsGood(start, ops[..n]);
      NextSendsOrKeeps(Run(start, ops[..i]), Run(start, ops[..n]), ops[n], up);
    }
  }

  lemma {:induction false} LostOnce(ks: seq<nat>, k: nat)
    requires k in ks
    ensures OfKeys(ks, Only(k)) >= 1
  {
    var n := |ks| - 1;
    KeysNonNegative(ks[..n], k);
    if ks[n] != k {
      assert k in ks[..n];
      LostOnce(ks[..n], k);
    }
  }

  lemma WaitingIsNotLost(s: Store, up: Upload)
    requires Good(s, []) && Waits(s, up)
    ensures up.number !in s.log.lost
  {
    var i :| 0 <= i < |s.retry| && s.retry[i].up == up;
    var k := up.number;
    ObjectInOnePlace(s, k);
    UploadsWithout(Ups(s.retry), k);
    assert Ups(s.retry)[i].number == k;
    KeysNonNegative(s.log.acked, k);
    FlightsWithout(s.inFlight, k);
    if k in s.log.lost { LostOnce(s.log.lost, k); }
  }

  /** No upload is given up to make room for another: one that was ever parked and is counted lost was
      sent again in between. */
  lemma NeverShed(start: Store, ops: seq<Op>, i: nat, up: Upload)
    requires IsEmpty(start) && FreshRun(start, ops) && i <= |ops| && Waits(Run(start, ops[..i]), up)
    requires up.number in Run(start, ops).log.lost
    ensures SentSince(Run(start, ops[..i]), Run(start, ops), up)
  {
    ParkedUntilSent(start, ops, i, up);
    RunIsGood(start, ops);
    if Waits(Run(start, ops), up) { WaitingIsNotLost(Run(start, ops), up); }
  }

  predicate WaitsAt(start: Store, ops: seq<Op>, i: nat, r: Retry)
    requires i <= |ops|
  {
    r in Run(start, ops[..i]).retry
  }

  /** Parked by operation `j` and in the queue ever since. */
  ghost predicate ParkedBy(start: Store, ops: seq<Op>, j: nat, r: Retry)
    requires j < |ops|
  {
    forall i :: j < i <= |ops| ==> WaitsAt(start, ops, i, r)
  }

  lemma WaitsAtPrefix(start: Store, ops: seq<Op>, n: nat, i: nat, r: Retry)
    requires i <= n <= |ops|
    ensures WaitsAt(start, ops[..n], i, r) == WaitsAt(start, ops, i, r)
  {
    assert ops[..n][..i] == ops[..i];
  }

  lemma ParkedOn(start: Store, ops: seq<Op>, j: nat, r: Retry)
    requires j + 1 < |ops| && ParkedBy(start, ops[..|ops| - 1], j, r) && r in Run(start, ops).retry
    ensures ParkedBy(start, ops, j, r)
  {
    var n := |ops| - 1;
    assert ops[..|ops|] == ops;
    forall i | j < i <= |ops| ensures WaitsAt(start, ops, i, r) {
      if i < |ops| {
        assert WaitsAt(start, ops[..n], i, r);
        WaitsAtPrefix(start, ops, n, i, r);
      }
    }
  }

  lemma RunRetriesSound(start: Store, ops: seq<Op>)
    requires IsEmpty(start) && FreshRun(start, ops)
    ensures RetriesSound(Run(start, ops))
  {
    RunIsGood(start, ops);
  }

  lemma ParkedLast(start: Store, ops: seq<Op>, r: Retry)
    requires IsEmpty(start) && ops != [] && FreshRun(start, ops)
    requires r in Run(start, ops).retry && !WaitsAt(start, ops, |ops| - 1, r)
    ensures r.notBefore == Clock(ops[|ops| - 1]) + Backoff(r.up.attempts)
  {
    var n := |ops| - 1;
    RunRetriesSound(start, ops[..n]);
    ParkedNow(Run(start, ops[..n]), ops[n], r);
  }

  lemma {:induction false} ParkedBySome(start: Store, ops: seq<Op>, r: Retry) returns (j: nat)
    requires IsEmpty(start) && FreshRun(start, ops) && r in Run(start, ops).retry
    ensures j < |ops| && ParkedBy(start, ops, j, r) && r.notBefore == Clock(ops[j]) + Backoff(r.up.attempts)
  {
    var n := |ops| - 1;
    if WaitsAt(start, ops, n, r) {
      j := ParkedBySome(start, ops[..n], r);
      ParkedOn(start, ops, j, r);
    } else {
      j := n;
      assert ops[..|ops|] == ops;
      ParkedLast(start, ops, r);
    }
  }

  lemma RetryCounted(s: Store, r: Retry)
    requires Good(s, []) && r in s.retry
    ensures r.up.attempts == Times(s.log.sent, r.up.number) && Pow2(r.up.attempts) <= 16
  {
    var i :| 0 <= i < |s.retry| && s.retry[i] == r;
    assert CountedAt(s.log.sent, s.retry[i].up) && s.retry[i].up.attempts < MAX_ATTEMPTS;
    assert Pow2(2) == 4 && Pow2(4) == 16;
  }

  /** Every retry in the queue waits, from the moment it was parked, half a second doubled once for
      each time its object has been sent. */
  lemma RunBacksOff(start: Store, ops: seq<Op>, r: Retry) returns (j: nat)
    requires IsEmpty(start) && FreshRun(start, ops) && r in Run(start, ops).retry
    ensures j < |ops| && ParkedBy(start, ops, j, r)
    ensures r.notBefore == Clock(ops[j]) + 500 * Pow2(Times(Run(start, ops).log.sent, r.up.number))
    ensures r.notBefore <= Clock(ops[j]) + 8000
  {
    j := ParkedBySome(start, ops, r);
    RunIsGood(start, ops);
    RetryCounted(Run(start, ops), r);
    BackoffIsPow2(r.up.attempts);
  }

  lemma ParkedNow(s: Store, op: Op, r: Retry)
    requires RetriesSound(s) && r !in s.retry && r in Apply(s, op).retry
    ensures r.notBefore == Clock(op) + Backoff(r.up.attempts)
  {
    if op.PumpOp? {
      PumpParks(s, op.now, op.answers, 0, op.later, r);
    } else {
      OpParks(s, op);
      var t := Apply(s, op);
      assert forall i :: 0 <= i < |s.retry| ==> t.retry[i] == s.retry[i] && s.retry[i] != r;
      var i :| 0 <= i < |t.retry| && t.retry[i] == r;
    }
  }

  // ---------------------------------------------------------------- the first retry after a send

  /** One record that fills a batch is sent, and the server answers that it failed. */
  function SentAndFailed(slot: nat, r: Record, id: nat, now: nat, later: nat): seq<Op>
  {
    [UploadOp(slot, r, None, Some(id), now)] + [OutcomesOp([Done(id, Server(500))], later)]
  }

  lemma SentOnce(start: Store, slot: nat, r: Record, id: nat, now: nat)
    requires IsEmpty(start) && |Frame(r)| >= BATCH_BYTES
    ensures var s := Apply(start, UploadOp(slot, r, None, Some(id), now));
      && s.inFlight == map[id := Upload(slot, 0, Frame(r), 1, 1)] && s.retry == [] && s.retryBytes == 0
      && Fresh(start, UploadOp(slot, r, None, Some(id), now))
  {
    assert [] + Frame(r) == Frame(r);
    assert Close(Push(start, slot, r)).1 == Upload(slot, 0, Frame(r), 1, 0);
  }

  lemma FailedOnce(s: Store, id: nat, up: Upload, later: nat)
    requires s.inFlight == map[id := up] && s.retry == [] && s.retryBytes == 0
    requires up.attempts == 1 && |up.body| <= MAX_RETRY_BYTES
    ensures Apply(s, OutcomesOp([Done(id, Server(500))], later)).retry == [Retry(up, later + 1000)]
  {
    var done := [Done(id, Server(500))];
    assert done[..0] == [];
    var t := s.(inFlight := s.inFlight - {id});
    assert FinishAll(s, done[..0]) == (s, []);
    assert FinishAll(s, done) == (t, [] + [up]) && [] + [up] == [up];
    assert [up][1..] == [];
    assert RequeueAll(t, [up], later) == RequeueAll(Requeue(t, up, later), [up][1..], later) == Requeue(t, up, later);
    assert Backoff(0) == 500 && Backoff(1) == 1000;
  }

  /** The first retry after a send waits a second: the send that failed is counted. */
  lemma FirstRetryWaitsASecond(start: Store, slot: nat, r: Record, id: nat, now: nat, later: nat)
    requires IsEmpty(start) && BATCH_BYTES <= |Frame(r)| <= MAX_RETRY_BYTES
    ensures FreshRun(start, SentAndFailed(slot, r, id, now, later))
    ensures Run(start, SentAndFailed(slot, r, id, now, later)).retry
         == [Retry(Upload(slot, 0, Frame(r), 1, 1), later + 1000)]
  {
    var o1, o2 := UploadOp(slot, r, None, Some(id), now), OutcomesOp([Done(id, Server(500))], later);
    assert [] + [o1] == [o1];
    RunSnoc(start, [], o1);
    RunSnoc(start, [o1], o2);
    SentOnce(start, slot, r, id, now);
    FailedOnce(Run(start, [o1]), id, Upload(slot, 0, Frame(r), 1, 1), later);
  }

  // ---------------------------------------------------------------- the oldest stay

  /** `n` uploads in a row of one record that fills a batch, none of which the network takes. */
  function Refused(slot: nat, r: Record, now: nat, n: nat): seq<Op>
  {
    if n == 0 then [] else Refused(slot, r, now, n - 1) + [UploadOp(slot, r, None, None, now)]
  }

  /** How many bodies of `size` bytes fit. */
  function Room(size: nat): nat
    requires size > 0
  {
    MAX_RETRY_BYTES / size
  }

  function Parked(r: Record, n: nat): nat
    requires |Frame(r)| > 0
  {
    if n < Room(|Frame(r)|) then n else Room(|Frame(r)|)
  }

  predicate OldestWait(s: Store, slot: nat, r: Record, now: nat, parked: nat, n: nat)
    requires parked <= n
  {
    && s.batch == EmptyBatch && s.log.batched == [] && s.number == n && s.inFlight == map[]
    && |s.retry| == parked
    && (forall i :: 0 <= i < parked ==> s.retry[i] == Retry(Upload(slot, i, Frame(r), 1, 0), now + 500))
    && s.retryBytes == parked * |Frame(r)|
    && |s.log.lost| == n - parked && (forall i :: 0 <= i < n - parked ==> s.log.lost[i] == parked + i)
    && s.failures == n - parked
  }

  lemma RoomExact(size: nat, parked: nat)
    requires size > 0 && parked <= Room(size)
    ensures parked * size + size > MAX_RETRY_BYTES <==> parked == Room(size)
  {
    var q := Room(size);
    assert q * size <= MAX_RETRY_BYTES < q * size + size;
    if parked < q { assert (parked + 1) * size <= q * size; }
  }

  lemma RefusedStep(s: Store, slot: nat, r: Record, now: nat, n: nat)
    requires |Frame(r)| >= BATCH_BYTES && OldestWait(s, slot, r, now, Parked(r, n), n)
    ensures OldestWait(Apply(s, UploadOp(slot, r, None, None, now)), slot, r, now, Parked(r, n + 1), n + 1)
  {
    RoomExact(|Frame(r)|, Parked(r, n));
    var up := Upload(slot, n, Frame(r), 1, 0);
    assert [] + Frame(r) == Frame(r);
    var t := Close(Push(s, slot, r)).0;
    assert Close(Push(s, slot, r)).1 == up;
    assert Apply(s, UploadOp(slot, r, None, None, now)) == Requeue(t, up, now);
    assert Backoff(0) == 500;
  }

  lemma RunSnoc(start: Store, ops: seq<Op>, op: Op)
    ensures Run(start, ops + [op]) == Apply(Run(start, ops), op)
    ensures FreshRun(start, ops + [op]) <==> FreshRun(start, ops) && Fresh(Run(start, ops), op)
  {
    assert (ops + [op])[..|ops|] == ops;
  }

  lemma RefusedNext(start: Store, ops: seq<Op>, slot: nat, r: Record, now: nat, n: nat)
    requires |Frame(r)| >= BATCH_BYTES && FreshRun(start, ops)
    requires OldestWait(Run(start, ops), slot, r, now, Parked(r, n), n)
    ensures FreshRun(start, ops + [UploadOp(slot, r, None, None, now)])
    ensures OldestWait(Run(start, ops + [UploadOp(slot, r, None, None, now)]), slot, r, now, Parked(r, n + 1), n + 1)
  {
    RunSnoc(start, ops, UploadOp(slot, r, None, None, now));
    RefusedStep(Run(start, ops), slot, r, now, n);
  }

  /** The uploads that stay past the byte limit are the oldest; the newest are lost. */
  lemma {:induction false} OldestStay(start: Store, slot: nat, r: Record, now: nat, n: nat)
    requires IsEmpty(start) && |Frame(r)| >= BATCH_BYTES
    ensures FreshRun(start, Refused(slot, r, now, n))
    ensures OldestWait(Run(start, Refused(slot, r, now, n)), slot, r, now, Parked(r, n), n)
  {
    if n == 0 {
      assert Parked(r, 0) == 0;
    } else {
      OldestStay(start, slot, r, now, n - 1);
      RefusedNext(start, Refused(slot, r, now, n - 1), slot, r, now, n - 1);
    }
  }
}
