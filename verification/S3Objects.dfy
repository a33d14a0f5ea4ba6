/** The data gatherer's upload queue as the object it is, proved against the steps on values. */
module S3Objects {
  import opened Bytes
  import opened S3Records
  import opened S3Store
  import opened S3Inv
  import opened S3Runs
  import opened S3Retries

  class S3Data {
    var batch: Batch
    var inFlight: map<nat, Upload>
    var retry: seq<Retry>
    var retryBytes: nat
    var failures: nat
    var number: nat
    ghost var log: Log

    ghost function Model(): Store
      reads this
    {
      Store(batch, inFlight, retry, retryBytes, failures, number, log)
    }

    constructor ()
      ensures IsEmpty(Model()) && Good(Model(), [])
    {
      batch, inFlight, retry, retryBytes, failures, number := EmptyBatch, map[], [], 0, 0, 0;
      log := Log([], [], [], [], [], [], 0);
      new;
      EmptyIsGood(Model());
    }

    /** Back into the queue with a delay, or onto the failure count if it may not wait there. */
    method Requeue(up: Upload, now: nat)
      modifies this
      ensures Model() == S3Store.Requeue(old(Model()), up, now)
    {
      if up.attempts >= MAX_ATTEMPTS || retryBytes + |up.body| > MAX_RETRY_BYTES {
        failures := failures + up.records;
        log := log.(lost := log.lost + [up.number]);
        return;
      }
      var backoff := Backoff(up.attempts);
      retryBytes := retryBytes + |up.body|;
      retry := retry + [Retry(up, now + backoff)];
    }

    /** `sent` tells whether the network took the request; what it did not take goes back. */
    method Send(up: Upload, answer: Option<nat>, now: nat) returns (sent: bool)
      modifies this
      ensures Model() == S3Store.Send(old(Model()), up, answer, now) && sent == answer.Some?
    {
      match answer {
        case Some(id) =>
          inFlight := inFlight[id := up.(attempts := up.attempts + 1)];
          log := log.(sent := log.sent + [up.number]);
          sent := true;
        case None =>
          Requeue(up, now);
          sent := false;
      }
    }

    /** What was batched becomes one object, with its slot; nothing stays batched. */
    method Flush(answer: Option<nat>, now: nat)
      requires Good(Model(), []) && Fresh(Model(), FlushOp(answer, now))
      modifies this
      ensures Model() == S3Store.Flush(old(Model()), answer, now) && Good(Model(), [])
      ensures MakesObject(old(Model()), Model())
    {
      ghost var before := Model();
      FlushGood(before, [], answer, now);
      FlushMakesObject(before, answer, now);
      if batch.records == 0 {
        return;
      }
      var b := batch;
      batch := EmptyBatch;
      log := log.(batched := [], objects := log.objects + [Object(b.slot, log.batched)]);
      var up := Upload(b.slot, number, b.body, b.records, 0);
      number := number + 1;
      assert (Model(), up) == Close(before);
      var _ := Send(up, answer, now);
    }

    /** Appends a record to the open batch; the first one gives the batch its slot. */
    method Push(slot: nat, record: Record)
      modifies this
      ensures Model() == S3Store.Push(old(Model()), slot, record)
    {
      if batch.records == 0 {
        batch := batch.(slot := slot);
      }
      var body := batch.body;
      body := body + ToLe(Len(record), 4);
      body := body + ToLe(|record.header|, 2);
      body := body + record.header;
      body := body + record.payload;
      assert body == batch.body + Frame(record);
      batch := Batch(batch.slot, batch.records + 1, body);
      log := log.(batched := log.batched + [record], pushed := log.pushed + [Pushed(slot, record)]);
    }

    /** Adds a record to the batch of its slot, flushing the batch of another slot or a full one. */
    method AddRecord(slot: nat, record: Record, a1: Option<nat>, a2: Option<nat>, now: nat)
      requires Good(Model(), []) && Fresh(Model(), UploadOp(slot, record, a1, a2, now))
      modifies this
      ensures Model() == UploadRecord(old(Model()), slot, record, a1, a2, now) && Good(Model(), [])
      ensures Places(old(Model()), Model(), slot, record)
    {
      UploadGood(Model(), slot, record, a1, a2, now);
      UploadPlaces(Model(), slot, record, a1, a2, now);
      TurnedGood(Model(), slot, a1, a2, now);
      if batch.records > 0 && batch.slot != slot {
        Flush(a1, now);
      }
      PushGood(Model(), [], slot, record);
      Push(slot, record);
      if |batch.body| >= BATCH_BYTES {
        Flush(a2, now);
      }
    }

    /** Position of the first retry that is due. */
    method FindDue(now: nat) returns (due: Option<nat>)
      ensures due == DuePos(retry, now)
    {
      var i := 0;
      while i < |retry|
        invariant 0 <= i <= |retry| && DuePos(retry, now) == DueFrom(retry, now, i)
      {
        if retry[i].notBefore <= now {
          return Some(i);
        }
        i := i + 1;
      }
      due := None;
    }

    method Take(pos: nat) returns (up: Upload)
      requires RetriesSound(Model()) && pos < |retry|
      modifies this
      ensures |old(retry)[pos].up.body| <= old(retryBytes) && (Model(), up) == TakeRetry(old(Model()), pos)
      ensures RetriesSound(Model()) && |retry| < |old(retry)|
    {
      RetryFits(Model(), pos);
      TakeRetrySound(Model(), pos);
      up := retry[pos].up;
      retry := retry[..pos] + retry[pos + 1..];
      retryBytes := retryBytes - |up.body|;
    }

    /** Goes on while a retry is due and the network takes requests: every round shortens the queue. */
    method Pump(now: nat, answers: nat -> Option<nat>, later: nat)
      requires Good(Model(), []) && FreshFrom(Model(), answers, 0)
      modifies this
      ensures Model() == S3Runs.Pump(old(Model()), now, answers, 0, later) && Good(Model(), [])
      ensures forall r :: r in old(retry) ==> Waits(Model(), r.up) || SentSince(old(Model()), Model(), r.up)
    {
      PumpGood(Model(), now, answers, 0, later);
      forall r | r in retry
        ensures var t := S3Runs.Pump(Model(), now, answers, 0, later); Waits(t, r.up) || SentSince(Model(), t, r.up)
      {
        PumpSendsOrKeeps(Model(), now, answers, 0, later, r);
      }
      ghost var before := Model();
      var i := 0;
      var due := FindDue(now);
      var refused := false;
      while due.Some? && !refused
        invariant due == DuePos(retry, now)
        invariant !refused ==> RetriesSound(Model())
        invariant !refused
          ==> S3Runs.Pump(before, now, answers, 0, later) == S3Runs.Pump(Model(), now, answers, i, later)
        invariant refused ==> S3Runs.Pump(before, now, answers, 0, later) == Model()
        decreases !refused, |retry|
      {
        var up := Take(due.value);
        var sent := Send(up, answers(i), later);
        refused := !sent;
        i := i + 1;
        due := FindDue(now);
      }
    }

    /** Retires one request. */
    method FinishOne(d: Done) returns (back: Option<Upload>)
      modifies this
      ensures (Model(), back) == Finish(old(Model()), d.id, d.outcome)
    {
      if d.id !in inFlight {
        return None;
      }
      var up := inFlight[d.id];
      inFlight := inFlight - {d.id};
      if d.outcome == Stored {
        log := log.(acked := log.acked + [up.number]);
        return None;
      }
      if IsRetryable(d.outcome) && up.attempts < MAX_ATTEMPTS {
        return Some(up);
      }
      failures := failures + up.records;
      log := log.(lost := log.lost + [up.number]);
      back := None;
    }

    /** Retires finished requests, collecting those that may be retried. */
    method TakeOutcomes(done: seq<Done>) returns (requeues: seq<Upload>, unreachable: bool)
      modifies this
      ensures (Model(), requeues) == FinishAll(old(Model()), done)
      ensures unreachable <==> exists i :: 0 <= i < |done| && Unreached(old(Model()), done, i)
    {
      requeues, unreachable := [], false;
      for i := 0 to |done|
        invariant (Model(), requeues) == FinishAll(old(Model()), done[..i])
        invariant unreachable <==> exists j :: 0 <= j < i && Unreached(old(Model()), done, j)
      {
        assert done[..i + 1][..i] == done[..i];
        if done[i].id in inFlight && (done[i].outcome == Disconnected || done[i].outcome == TimedOut) {
          unreachable := true;
          assert Unreached(old(Model()), done, i);
        }
        var back := FinishOne(done[i]);
        requeues := requeues + Back(back);
      }
      assert done[..|done|] == done;
    }

    method RequeueEach(ups: seq<Upload>, now: nat)
      modifies this
      ensures Model() == RequeueAll(old(Model()), ups, now)
    {
      for i := 0 to |ups|
        invariant RequeueAll(old(Model()), ups, now) == RequeueAll(Model(), ups[i..], now)
      {
        Requeue(ups[i], now);
        assert ups[i..][1..] == ups[i + 1..];
      }
    }

    /** Sends due retries, then retires finished requests; when some did not reach the server and
        the endpoint has moved, follows it. `moved` lists the requests in flight at that point. */
    method Drive(now: nat, answers: nat -> Option<nat>, later: nat, done: seq<Done>, moved: Option<seq<nat>>)
      returns (worked: bool)
      requires Good(Model(), []) && FreshFrom(Model(), answers, 0)
      modifies this
      ensures Good(Model(), [])
      ensures worked == (done != [])
      ensures var pumped := S3Runs.Pump(old(Model()), now, answers, 0, later);
              var retired := Apply(pumped, OutcomesOp(done, later));
              var follows := moved.Some? && exists i :: 0 <= i < |done| && Unreached(pumped, done, i);
              Model() == if follows then Reconnect(retired, moved.value, later) else retired
    {
      Pump(now, answers, later);
      ApplyGood(Model(), OutcomesOp(done, later));
      var requeues, unreachable := TakeOutcomes(done);
      RequeueEach(requeues, later);
      if unreachable && moved.Some? {
        FollowEndpoint(moved.value, later);
      }
      worked := done != [];
    }

    /** Moves to a new address: the old client is closed and what it had in flight is parked. */
    method FollowEndpoint(ids: seq<nat>, now: nat)
      requires Good(Model(), [])
      modifies this
      ensures Model() == Reconnect(old(Model()), ids, now) && Good(Model(), [])
      ensures (forall id :: id in old(inFlight) ==> id in ids) ==> inFlight == map[]
    {
      ghost var before := Model();
      ReconnectGood(before, ids, now);
      for i := 0 to |ids|
        invariant Reconnect(before, ids, now) == Reconnect(Model(), ids[i..], now)
        invariant forall id :: id in inFlight ==> id in before.inFlight && id !in ids[..i]
      {
        assert ids[i..][1..] == ids[i + 1..] && ids[i..][0] == ids[i];
        assert ids[..i + 1] == ids[..i] + [ids[i]];
        if ids[i] in inFlight {
          var up := inFlight[ids[i]];
          inFlight := inFlight - {ids[i]};
          Requeue(up, now);
        }
      }
      assert ids[..|ids|] == ids;
    }

    /** Over all calls, exactly the records of the objects given up are handed over. */
    method TakeFailures() returns (n: nat)
      requires Good(Model(), [])
      modifies this
      ensures Model() == S3Store.TakeFailures(old(Model())) && Good(Model(), [])
      ensures n + old(log.reported) == log.reported == OfKeys(log.lost, RecordsOf(log.objects)) && failures == 0
    {
      TakeFailuresKeeps(Model(), []);
      n := failures;
      log := log.(reported := log.reported + failures);
      failures := 0;
    }
  }

  /** Request `i` of the outcomes was still in flight and did not reach the server. */
  ghost predicate Unreached(s: Store, done: seq<Done>, i: nat)
    requires i < |done|
  {
    && done[i].id in FinishAll(s, done[..i]).0.inFlight
    && (done[i].outcome == Disconnected || done[i].outcome == TimedOut)
  }
}
