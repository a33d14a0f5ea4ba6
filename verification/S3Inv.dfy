/** Every step of the upload queue keeps the conservation law and the limits. */
module S3Inv {
  import opened Bytes
  import opened Sums
  import opened S3Records
  import opened S3Store

  // ---------------------------------------------------------------- sums

  lemma UploadsPush(us: seq<Upload>, up: Upload, f: nat -> int)
    ensures OfUploads(us + [up], f) == OfUploads(us, f) + f(up.number)
    ensures BytesOf(us + [up]) == BytesOf(us) + |up.body|
  {
    assert (us + [up])[..|us|] == us;
  }

  lemma KeysPush(ks: seq<nat>, k: nat, f: nat -> int)
    ensures OfKeys(ks + [k], f) == OfKeys(ks, f) + f(k)
  {
    assert (ks + [k])[..|ks|] == ks;
  }

  lemma {:induction false} UploadsRemove(us: seq<Upload>, pos: nat, f: nat -> int)
    requires pos < |us|
    ensures OfUploads(us, f) == OfUploads(us[..pos] + us[pos + 1..], f) + f(us[pos].number)
    ensures BytesOf(us) == BytesOf(us[..pos] + us[pos + 1..]) + |us[pos].body|
  {
    var n := |us| - 1;
    var rest := us[..pos] + us[pos + 1..];
    if pos == n {
      assert rest == us[..n];
    } else {
      UploadsRemove(us[..n], pos, f);
      assert rest == (us[..n][..pos] + us[..n][pos + 1..]) + [us[n]];
      UploadsPush(us[..n][..pos] + us[..n][pos + 1..], us[n], f);
    }
  }

  lemma FlightsInsert(m: map<nat, Upload>, id: nat, up: Upload, f: nat -> int)
    requires id !in m
    ensures SumValues(Weights(m[id := up], f)) == SumValues(Weights(m, f)) + f(up.number)
  {
    var w := Weights(m[id := up], f);
    SumRemove(w, id);
    assert w - {id} == Weights(m, f);
  }

  lemma FlightsRemove(m: map<nat, Upload>, id: nat, f: nat -> int)
    requires id in m
    ensures SumValues(Weights(m, f)) == SumValues(Weights(m - {id}, f)) + f(m[id].number)
  {
    SumRemove(Weights(m, f), id);
    assert Weights(m, f) - {id} == Weights(m - {id}, f);
  }

  // ---------------------------------------------------------------- pushing and closing

  lemma PushMatches(s: Store, slot: nat, r: Record)
    requires BatchMatches(s) && (s.batch.records == 0 || s.batch.slot == slot)
    ensures BatchMatches(Push(s, slot, r))
  {
    var t := Push(s, slot, r);
    EncodeAppend(s.log.batched, r);
    assert Tagged(t.batch.slot, t.log.batched) == Tagged(t.batch.slot, s.log.batched) + [Pushed(slot, r)];
    assert Tagged(t.batch.slot, s.log.batched) == Tagged(s.batch.slot, s.log.batched);
  }

  lemma PushKeeps(s: Store, held: seq<Upload>, slot: nat, r: Record)
    requires Inv(s, held) && (s.batch.records == 0 || s.batch.slot == slot)
    ensures Inv(Push(s, slot, r), held)
  {
    var t := Push(s, slot, r);
    forall f: nat -> int ensures Balanced(t, held, f) { assert Balanced(s, held, f); }
    PushMatches(s, slot, r);
  }

  /** A new object changes the records of no older one. */
  lemma {:induction false} WeightStays(ks: seq<nat>, objects: seq<Object>, o: Object)
    requires forall i :: 0 <= i < |ks| ==> ks[i] < |objects|
    ensures OfKeys(ks, RecordsOf(objects + [o])) == OfKeys(ks, RecordsOf(objects))
  {
    if ks != [] {
      WeightStays(ks[..|ks| - 1], objects, o);
    }
  }

  lemma IntactStays(objects: seq<Object>, o: Object, up: Upload)
    requires Intact(objects, up)
    ensures Intact(objects + [o], up)
  {}

  lemma CloseBatch(s: Store)
    requires BatchMatches(s)
    ensures BatchMatches(Close(s).0) && Intact(Close(s).0.log.objects, Close(s).1)
  {
    var t := Close(s).0;
    assert t.log.objects[..|s.log.objects|] == s.log.objects;
    assert Tagged(0, []) == [];
    assert Flat(t.log.objects) == s.log.pushed;
    assert t.log.pushed == Flat(t.log.objects) + [];
  }

  lemma CloseSounds(s: Store, held: seq<Upload>)
    requires BatchMatches(s) && FlightsSound(s) && RetriesSound(s) && HeldSound(s, held) && KeysKnown(s)
    requires LossesCounted(s)
    ensures var (t, up) := Close(s);
            FlightsSound(t) && RetriesSound(t) && HeldSound(t, held + [up]) && KeysKnown(t) && LossesCounted(t)
  {
    var (t, up) := Close(s);
    var o := Object(s.batch.slot, s.log.batched);
    forall id | id in t.inFlight ensures Intact(t.log.objects, t.inFlight[id]) {
      IntactStays(s.log.objects, o, s.inFlight[id]);
    }
    forall i | 0 <= i < |t.retry| ensures Intact(t.log.objects, t.retry[i].up) {
      IntactStays(s.log.objects, o, s.retry[i].up);
    }
    forall i | 0 <= i < |held| ensures Intact(t.log.objects, held[i]) { IntactStays(s.log.objects, o, held[i]); }
    CloseBatch(s);
    WeightStays(s.log.lost, s.log.objects, o);
  }

  lemma CloseKeeps(s: Store, held: seq<Upload>)
    requires Inv(s, held)
    ensures Inv(Close(s).0, held + [Close(s).1])
  {
    var (t, up) := Close(s);
    forall f: nat -> int ensures Balanced(t, held + [up], f) {
      assert Balanced(s, held, f);
      UploadsPush(held, up, f);
    }
    CloseBatch(s);
    CloseSounds(s, held);
  }

  // ---------------------------------------------------------------- sending and parking

  lemma LaunchKeeps(s: Store, held: seq<Upload>, up: Upload, id: nat)
    requires Inv(s, held + [up]) && up.attempts < MAX_ATTEMPTS && id !in s.inFlight
    ensures Inv(Launch(s, up, id), held)
  {
    var t := Launch(s, up, id);
    forall f: nat -> int ensures Balanced(t, held, f) {
      assert Balanced(s, held + [up], f);
      UploadsPush(held, up, f);
      FlightsInsert(s.inFlight, id, up.(attempts := up.attempts + 1), f);
    }
    assert (held + [up])[|held|] == up;
    HeldPrefix(s, held, up);
  }

  lemma HeldPrefix(s: Store, held: seq<Upload>, up: Upload)
    requires HeldSound(s, held + [up])
    ensures HeldSound(s, held) && Intact(s.log.objects, up) && up.attempts <= MAX_ATTEMPTS
  {
    assert (held + [up])[|held|] == up;
    forall i | 0 <= i < |held| ensures Intact(s.log.objects, held[i]) && held[i].attempts <= MAX_ATTEMPTS {
      assert (held + [up])[i] == held[i];
    }
  }

  lemma LoseKeeps(s: Store, held: seq<Upload>, up: Upload)
    requires Inv(s, held + [up])
    ensures Inv(Lose(s, up), held)
  {
    var t := Lose(s, up);
    HeldPrefix(s, held, up);
    forall f: nat -> int ensures Balanced(t, held, f) {
      assert Balanced(s, held + [up], f);
      UploadsPush(held, up, f);
      KeysPush(s.log.lost, up.number, f);
    }
    KeysPush(s.log.lost, up.number, RecordsOf(s.log.objects));
  }

  lemma RequeueKeeps(s: Store, held: seq<Upload>, up: Upload, now: nat)
    requires Inv(s, held + [up])
    ensures Inv(Requeue(s, up, now), held)
  {
    if up.attempts >= MAX_ATTEMPTS || s.retryBytes + |up.body| > MAX_RETRY_BYTES {
      LoseKeeps(s, held, up);
    } else {
      ParkKeeps(s, held, up, Requeue(s, up, now), now + Backoff(up.attempts));
    }
  }

  lemma ParkKeeps(s: Store, held: seq<Upload>, up: Upload, t: Store, notBefore: nat)
    requires Inv(s, held + [up]) && up.attempts < MAX_ATTEMPTS && s.retryBytes + |up.body| <= MAX_RETRY_BYTES
    requires t == s.(retryBytes := s.retryBytes + |up.body|, retry := s.retry + [Retry(up, notBefore)])
    ensures Inv(t, held)
  {
    HeldPrefix(s, held, up);
    assert Ups(t.retry) == Ups(s.retry) + [up];
    forall f: nat -> int ensures Balanced(t, held, f) {
      assert Balanced(s, held + [up], f);
      UploadsPush(held, up, f);
      UploadsPush(Ups(s.retry), up, f);
    }
    UploadsPush(Ups(s.retry), up, k => 0);
  }

  lemma SendKeeps(s: Store, held: seq<Upload>, up: Upload, answer: Option<nat>, now: nat)
    requires Inv(s, held + [up]) && up.attempts < MAX_ATTEMPTS
    requires answer.Some? ==> answer.value !in s.inFlight
    ensures Inv(Send(s, up, answer, now), held)
  {
    match answer
    case Some(id) => LaunchKeeps(s, held, up, id);
    case None => RequeueKeeps(s, held, up, now);
  }

  /** Request ids are fresh, for two requests one after the other. */
  predicate FreshAnswers(s: Store, a1: Option<nat>, a2: Option<nat>)
  {
    && (a1.Some? ==> a1.value !in s.inFlight)
    && (a2.Some? ==> a2.value !in s.inFlight && a1 != a2)
  }

  // ---------------------------------------------------------------- retries and outcomes

  lemma RetryFits(s: Store, pos: nat)
    requires RetriesSound(s) && pos < |s.retry|
    ensures |s.retry[pos].up.body| <= s.retryBytes
  {
    UploadsRemove(Ups(s.retry), pos, k => 0);
  }

  lemma UpsWithout(rs: seq<Retry>, pos: nat)
    requires pos < |rs|
    ensures Ups(rs[..pos] + rs[pos + 1..]) == Ups(rs)[..pos] + Ups(rs)[pos + 1..]
  {
  }

  lemma TakeRetryKeeps(s: Store, held: seq<Upload>, pos: nat)
    requires Inv(s, held) && pos < |s.retry| && |s.retry[pos].up.body| <= s.retryBytes
    ensures Inv(TakeRetry(s, pos).0, held + [TakeRetry(s, pos).1])
    ensures TakeRetry(s, pos).1.attempts < MAX_ATTEMPTS
  {
    var (t, up) := TakeRetry(s, pos);
    UpsWithout(s.retry, pos);
    forall f: nat -> int ensures Balanced(t, held + [up], f) {
      assert Balanced(s, held, f);
      UploadsRemove(Ups(s.retry), pos, f);
      UploadsPush(held, up, f);
    }
    TakeRetrySound(s, pos);
  }

  lemma TakeRetrySound(s: Store, pos: nat)
    requires RetriesSound(s) && pos < |s.retry| && |s.retry[pos].up.body| <= s.retryBytes
    ensures RetriesSound(TakeRetry(s, pos).0)
  {
    var t := TakeRetry(s, pos).0;
    UpsWithout(s.retry, pos);
    UploadsRemove(Ups(s.retry), pos, k => 0);
    forall i | 0 <= i < |t.retry|
      ensures Intact(t.log.objects, t.retry[i].up) && t.retry[i].up.attempts < MAX_ATTEMPTS
    {
      assert t.retry[i] == s.retry[if i < pos then i else i + 1];
    }
  }

  lemma RetireKeeps(s: Store, held: seq<Upload>, id: nat)
    requires Inv(s, held) && id in s.inFlight
    ensures Inv(s.(inFlight := s.inFlight - {id}), held + [s.inFlight[id]])
  {
    var t, up := s.(inFlight := s.inFlight - {id}), s.inFlight[id];
    forall f: nat -> int ensures Balanced(t, held + [up], f) {
      assert Balanced(s, held, f);
      FlightsRemove(s.inFlight, id, f);
      UploadsPush(held, up, f);
    }
  }

  lemma AckKeeps(s: Store, held: seq<Upload>, up: Upload)
    requires Inv(s, held + [up])
    ensures Inv(s.(log := s.log.(acked := s.log.acked + [up.number])), held)
  {
    var t := s.(log := s.log.(acked := s.log.acked + [up.number]));
    HeldPrefix(s, held, up);
    forall f: nat -> int ensures Balanced(t, held, f) {
      assert Balanced(s, held + [up], f);
      UploadsPush(held, up, f);
      KeysPush(s.log.acked, up.number, f);
    }
  }

  function Back(o: Option<Upload>): seq<Upload> { if o.Some? then [o.value] else [] }

  lemma FinishKeeps(s: Store, held: seq<Upload>, id: nat, o: Outcome)
    requires Inv(s, held)
    ensures Inv(Finish(s, id, o).0, held + Back(Finish(s, id, o).1))
    ensures Finish(s, id, o).0.inFlight.Keys <= s.inFlight.Keys
  {
    assert held + [] == held;
    if id in s.inFlight {
      var up := s.inFlight[id];
      RetireKeeps(s, held, id);
      if o == Stored {
        AckKeeps(s.(inFlight := s.inFlight - {id}), held, up);
      } else if !(IsRetryable(o) && up.attempts < MAX_ATTEMPTS) {
        LoseKeeps(s.(inFlight := s.inFlight - {id}), held, up);
      }
    }
  }

  lemma TakeFailuresKeeps(s: Store, held: seq<Upload>)
    requires Inv(s, held)
    ensures Inv(TakeFailures(s), held)
  {
    forall f: nat -> int ensures Balanced(TakeFailures(s), held, f) { assert Balanced(s, held, f); }
  }

  // ---------------------------------------------------------------- how often an object is sent

  lemma TimesPush(ks: seq<nat>, j: nat, k: nat)
    ensures Times(ks + [j], k) == Times(ks, k) + (if j == k then 1 else 0)
  {
    assert (ks + [j])[..|ks|] == ks;
  }

  lemma {:induction false} NeverSent(ks: seq<nat>, k: nat)
    requires forall i :: 0 <= i < |ks| ==> ks[i] < k
    ensures Times(ks, k) == 0
  {
    if ks != [] { NeverSent(ks[..|ks| - 1], k); }
  }

  function Only(k: nat): nat -> int { j => if j == k then 1 else 0 }

  lemma {:induction false} UploadsWithout(us: seq<Upload>, k: nat)
    ensures OfUploads(us, Only(k)) >= 0
    ensures OfUploads(us, Only(k)) == 0 ==> forall i :: 0 <= i < |us| ==> us[i].number != k
  {
    if us != [] {
      UploadsWithout(us[..|us| - 1], k);
      assert us == us[..|us| - 1] + [us[|us| - 1]];
    }
  }

  lemma {:induction false} KeysNonNegative(ks: seq<nat>, k: nat)
    ensures OfKeys(ks, Only(k)) >= 0
  {
    if ks != [] { KeysNonNegative(ks[..|ks| - 1], k); }
  }

  lemma FlightsWithout(m: map<nat, Upload>, k: nat)
    ensures SumValues(Weights(m, Only(k))) >= 0
    ensures SumValues(Weights(m, Only(k))) == 0 ==> forall id :: id in m ==> m[id].number != k
  {
    SumBounded(Weights(m, Only(k)), 1);
    forall id | id in m && m[id].number == k ensures SumValues(Weights(m, Only(k))) > 0 {
      FlightsRemove(m, id, Only(k));
      SumBounded(Weights(m - {id}, Only(k)), 1);
    }
  }

  lemma {:induction false} OnlyOnce(n: nat, k: nat)
    ensures OfAll(n, Only(k)) == if k < n then 1 else 0
  {
    if n > 0 { OnlyOnce(n - 1, k); }
  }

  /** An upload in hand is the only one of its object. */
  lemma HeldIsOnly(s: Store, held: seq<Upload>, up: Upload)
    requires Inv(s, held + [up])
    ensures forall id :: id in s.inFlight ==> s.inFlight[id].number != up.number
    ensures forall i :: 0 <= i < |s.retry| ==> s.retry[i].up.number != up.number
    ensures forall i :: 0 <= i < |held| ==> held[i].number != up.number
  {
    var k := up.number;
    HeldPrefix(s, held, up);
    assert Balanced(s, held + [up], Only(k));
    OnlyOnce(|s.log.objects|, k);
    UploadsPush(held, up, Only(k));
    KeysNonNegative(s.log.acked, k);
    KeysNonNegative(s.log.lost, k);
    FlightsWithout(s.inFlight, k);
    UploadsWithout(Ups(s.retry), k);
    UploadsWithout(held, k);
    forall i | 0 <= i < |s.retry| ensures s.retry[i].up.number != k { assert Ups(s.retry)[i].number != k; }
  }

  lemma LaunchCounts(s: Store, held: seq<Upload>, up: Upload, id: nat)
    requires Inv(s, held + [up]) && SendsCounted(s, held + [up]) && up.attempts < MAX_ATTEMPTS && id !in s.inFlight
    ensures SendsCounted(Launch(s, up, id), held)
  {
    var t := Launch(s, up, id);
    HeldIsOnly(s, held, up);
    assert (held + [up])[|held|] == up;
    forall k
      ensures Times(t.log.sent, k) <= MAX_ATTEMPTS
      ensures k != up.number ==> Times(t.log.sent, k) == Times(s.log.sent, k)
    {
      TimesPush(s.log.sent, up.number, k);
    }
    TimesPush(s.log.sent, up.number, up.number);
    forall i | 0 <= i < |held| ensures CountedAt(t.log.sent, held[i]) { assert (held + [up])[i] == held[i]; }
  }
}
