/**
 * The upload queue of the data gatherer (crates/data-gatherer/src/s3.rs) as steps on a value: the
 * open batch, the uploads in flight and those parked for a retry. A log of what was pushed,
 * acknowledged and given up makes the conservation law statable.
 *
 * The clock and the network's answers are parameters.
 */
module S3Store {
  import opened Bytes
  import opened Sums
  import opened S3Records

  const BATCH_BYTES: nat := 0x400_0000
  const MAX_RETRY_BYTES: nat := 0x1000_0000
  const MAX_ATTEMPTS: nat := 5
  const RETRY_BASE: nat := 500

  datatype Batch = Batch(slot: nat, records: nat, body: Octets)

  /** An object to upload; its key is unique by `seq`. `attempts` counts the sends so far. */
  datatype Upload = Upload(slot: nat, number: nat, body: Octets, records: nat, attempts: nat)

  datatype Retry = Retry(up: Upload, notBefore: nat)

  datatype Object = Object(slot: nat, records: seq<Record>)
  datatype Pushed = Pushed(slot: nat, record: Record)

  /** What happened so far: objects by key, the records in the open batch, every record pushed, the
      keys sent, acknowledged and given up, and the failures already reported. */
  datatype Log = Log(
    objects: seq<Object>, batched: seq<Record>, pushed: seq<Pushed>,
    sent: seq<nat>, acked: seq<nat>, lost: seq<nat>, reported: nat)

  datatype Store = Store(
    batch: Batch, inFlight: map<nat, Upload>, retry: seq<Retry>, retryBytes: nat, failures: nat, number: nat, log: Log)

  const EmptyBatch := Batch(0, 0, [])

  predicate IsEmpty(s: Store)
  {
    && s.batch == EmptyBatch && s.inFlight == map[] && s.retry == [] && s.retryBytes == 0 && s.failures == 0
    && s.number == 0
    && s.log == Log([], [], [], [], [], [], 0)
  }

  // ---------------------------------------------------------------- steps

  function Push(s: Store, slot: nat, r: Record): Store
  {
    var first := s.batch.records == 0;
    s.(batch := Batch(if first then slot else s.batch.slot, s.batch.records + 1, s.batch.body + Frame(r)),
       log := s.log.(batched := s.log.batched + [r], pushed := s.log.pushed + [Pushed(slot, r)]))
  }

  /** Takes the open batch as an object to upload. */
  function Close(s: Store): (Store, Upload)
  {
    (s.(batch := EmptyBatch, number := s.number + 1,
        log := s.log.(batched := [], objects := s.log.objects + [Object(s.batch.slot, s.log.batched)])),
     Upload(s.batch.slot, s.number, s.batch.body, s.batch.records, 0))
  }

  function Launch(s: Store, up: Upload, id: nat): Store
  {
    s.(inFlight := s.inFlight[id := up.(attempts := up.attempts + 1)], log := s.log.(sent := s.log.sent + [up.number]))
  }

  function Lose(s: Store, up: Upload): Store
  {
    s.(failures := s.failures + up.records, log := s.log.(lost := s.log.lost + [up.number]))
  }

  function Backoff(attempts: nat): nat
  {
    if attempts == 0 then RETRY_BASE else 2 * Backoff(attempts - 1)
  }

  function Requeue(s: Store, up: Upload, now: nat): Store
  {
    if up.attempts >= MAX_ATTEMPTS || s.retryBytes + |up.body| > MAX_RETRY_BYTES then Lose(s, up)
    else s.(retryBytes := s.retryBytes + |up.body|, retry := s.retry + [Retry(up, now + Backoff(up.attempts))])
  }

  /** `answer` is the id of the request, or none if no request was made. */
  function Send(s: Store, up: Upload, answer: Option<nat>, now: nat): Store
  {
    match answer
    case Some(id) => Launch(s, up, id)
    case None => Requeue(s, up, now)
  }

  function Flush(s: Store, answer: Option<nat>, now: nat): Store
  {
    if s.batch.records == 0 then s else var (t, up) := Close(s); Send(t, up, answer, now)
  }

  function UploadRecord(s: Store, slot: nat, r: Record, a1: Option<nat>, a2: Option<nat>, now: nat): Store
  {
    var t := if s.batch.records > 0 && s.batch.slot != slot then Flush(s, a1, now) else s;
    var u := Push(t, slot, r);
    if |u.batch.body| >= BATCH_BYTES then Flush(u, a2, now) else u
  }

  function TakeRetry(s: Store, pos: nat): (Store, Upload)
    requires pos < |s.retry| && |s.retry[pos].up.body| <= s.retryBytes
  {
    var up := s.retry[pos].up;
    (s.(retry := s.retry[..pos] + s.retry[pos + 1..], retryBytes := s.retryBytes - |up.body|), up)
  }

  datatype Outcome = Stored | Server(status: nat) | Disconnected | TimedOut

  predicate IsRetryable(o: Outcome)
  {
    match o
    case Server(status) => status == 429 || status == 500 || status == 503
    case _ => true
  }

  /** Retires a request: acknowledged, given up, or handed back for another attempt. */
  function Finish(s: Store, id: nat, o: Outcome): (Store, Option<Upload>)
  {
    if id !in s.inFlight then (s, None)
    else
      var up := s.inFlight[id];
      var t := s.(inFlight := s.inFlight - {id});
      if o == Stored then (t.(log := t.log.(acked := t.log.acked + [up.number])), None)
      else if IsRetryable(o) && up.attempts < MAX_ATTEMPTS then (t, Some(up))
      else (Lose(t, up), None)
  }

  function TakeFailures(s: Store): Store
  {
    s.(failures := 0, log := s.log.(reported := s.log.reported + s.failures))
  }

  // ---------------------------------------------------------------- weights

  function OfKeys(ks: seq<nat>, f: nat -> int): int
  {
    if ks == [] then 0 else OfKeys(ks[..|ks| - 1], f) + f(ks[|ks| - 1])
  }

  function OfUploads(us: seq<Upload>, f: nat -> int): int
  {
    if us == [] then 0 else OfUploads(us[..|us| - 1], f) + f(us[|us| - 1].number)
  }

  function Ups(rs: seq<Retry>): seq<Upload>
  {
    seq(|rs|, i requires 0 <= i < |rs| => rs[i].up)
  }

  ghost function Weights(m: map<nat, Upload>, f: nat -> int): map<nat, int>
  {
    map id | id in m :: f(m[id].number)
  }

  function OfAll(n: nat, f: nat -> int): int
  {
    if n == 0 then 0 else OfAll(n - 1, f) + f(n - 1)
  }

  /** Under the weight `f`, the objects made are those acknowledged, given up, in flight, parked
      and in hand. */
  ghost predicate Balanced(s: Store, held: seq<Upload>, f: nat -> int)
  {
    OfAll(|s.log.objects|, f)
    == OfKeys(s.log.acked, f) + OfKeys(s.log.lost, f) + SumValues(Weights(s.inFlight, f))
       + OfUploads(Ups(s.retry), f) + OfUploads(held, f)
  }

  // ---------------------------------------------------------------- invariant

  /** An upload still carries its object, whole. */
  predicate Intact(objects: seq<Object>, up: Upload)
  {
    && up.number < |objects| && up.slot == objects[up.number].slot
    && up.body == Encode(objects[up.number].records) && up.records == |objects[up.number].records|
  }

  function Tagged(slot: nat, rs: seq<Record>): seq<Pushed>
  {
    seq(|rs|, i requires 0 <= i < |rs| => Pushed(slot, rs[i]))
  }

  function Flat(objects: seq<Object>): seq<Pushed>
  {
    if objects == [] then []
    else Flat(objects[..|objects| - 1]) + Tagged(objects[|objects| - 1].slot, objects[|objects| - 1].records)
  }

  function BytesOf(us: seq<Upload>): nat
  {
    if us == [] then 0 else BytesOf(us[..|us| - 1]) + |us[|us| - 1].body|
  }

  function RecordsOf(objects: seq<Object>): nat -> int
  {
    k => if 0 <= k < |objects| then |objects[k].records| else 0
  }

  predicate BatchMatches(s: Store)
  {
    && s.batch.body == Encode(s.log.batched) && s.batch.records == |s.log.batched| && s.number == |s.log.objects|
    && s.log.pushed == Flat(s.log.objects) + Tagged(s.batch.slot, s.log.batched)
  }

  predicate FlightsSound(s: Store)
  {
    forall id :: id in s.inFlight ==>
      Intact(s.log.objects, s.inFlight[id]) && 1 <= s.inFlight[id].attempts <= MAX_ATTEMPTS
  }

  predicate RetriesSound(s: Store)
  {
    && (forall i :: 0 <= i < |s.retry| ==>
          Intact(s.log.objects, s.retry[i].up) && s.retry[i].up.attempts < MAX_ATTEMPTS)
    && s.retryBytes == BytesOf(Ups(s.retry)) && s.retryBytes <= MAX_RETRY_BYTES
  }

  predicate HeldSound(s: Store, held: seq<Upload>)
  {
    forall i :: 0 <= i < |held| ==> Intact(s.log.objects, held[i]) && held[i].attempts <= MAX_ATTEMPTS
  }

  predicate LossesCounted(s: Store)
  {
    s.failures + s.log.reported == OfKeys(s.log.lost, RecordsOf(s.log.objects))
  }

  predicate KeysKnown(s: Store)
  {
    && (forall i :: 0 <= i < |s.log.lost| ==> s.log.lost[i] < |s.log.objects|)
    && (forall i :: 0 <= i < |s.log.sent| ==> s.log.sent[i] < |s.log.objects|)
  }

  function Times(ks: seq<nat>, k: nat): nat
  {
    if ks == [] then 0 else Times(ks[..|ks| - 1], k) + (if ks[|ks| - 1] == k then 1 else 0)
  }

  predicate CountedAt(sent: seq<nat>, up: Upload) { Times(sent, up.number) == up.attempts }

  /** Uploads know how often their object was sent, and none was sent too often. */
  ghost predicate SendsCounted(s: Store, held: seq<Upload>)
  {
    && (forall id :: id in s.inFlight ==> CountedAt(s.log.sent, s.inFlight[id]))
    && (forall i :: 0 <= i < |s.retry| ==> CountedAt(s.log.sent, s.retry[i].up))
    && (forall i :: 0 <= i < |held| ==> CountedAt(s.log.sent, held[i]))
    && (forall k :: Times(s.log.sent, k) <= MAX_ATTEMPTS)
  }

  /** `held` are uploads taken out of the queue and not yet put back. */
  ghost predicate Inv(s: Store, held: seq<Upload>)
  {
    && (forall f: nat -> int :: Balanced(s, held, f))
    && BatchMatches(s) && FlightsSound(s) && RetriesSound(s) && HeldSound(s, held) && LossesCounted(s) && KeysKnown(s)
  }
}
