/** No interleaving lets the server overwrite what the engine has not copied, not even in part. */
module CreditSafety {
  import opened Bytes
  import opened Credit

  /** The check on bytes rules out a payload that the ring could not hold. */
  lemma PayloadFitsRing(s: State, body: Octets, headEvents: nat, headBytes: nat)
    requires s.copied <= |s.events| && CursorsBehind(s) && Fits(s, body, headEvents, headBytes)
    requires forall i :: 0 <= i < |s.events| ==> AdvanceCovered(s.events, i)
    ensures Room(s, body)
  {
    Span(s.events, s.copied, |s.events|);
  }

  // ---------------------------------------------------------------- where payloads are

  /** What the ring advances from the payload of a waiting event to the end of the next one. */
  lemma WithinRing(s: State, body: Octets, i: nat, end: nat)
    requires Shaped(s) && EventsSound(s) && Room(s, body) && s.copied <= i < |s.events| && s.events[i].body != []
    requires end <= EndAt(s.events, |s.events|) + BodyCharge(body)
    ensures end <= s.events[i].lap * s.ring + s.events[i].at + s.ring
  {
    Span(s.events, s.copied, i);
    Span(s.events, i, |s.events|);
    assert PlacedWell(s.ring, s.events, i);
  }

  lemma BeforeHead(s: State, i: nat)
    requires EventsSound(s) && i < |s.events| && s.events[i].body != []
    ensures s.events[i].lap * s.ring + s.events[i].at + |s.events[i].body| <= s.lap * s.ring + s.at
  {
    assert PlacedWell(s.ring, s.events, i);
    Span(s.events, i + 1, |s.events|);
  }

  /** The place of a payload that has room is in the ring and apart from every waiting payload. */
  lemma PlaceIsApart(s: State, body: Octets, i: nat)
    requires Shaped(s) && EventsSound(s) && Room(s, body) && body != []
    requires s.copied <= i < |s.events| && s.events[i].body != []
    ensures var at, e := Place(s, body).1, s.events[i]; e.at + |e.body| <= at || at + |body| <= e.at
  {
    var e := s.events[i];
    var (lap, at) := Reserve(s.ring, s.lap, s.at, |body|);
    ReserveAdvances(s.ring, s.lap, s.at, |body|);
    RoundUpBounds(|body|);
    WithinRing(s, body, i, lap * s.ring + at + RoundUp64(|body|));
    BeforeHead(s, i);
    Apart(s.ring, e.lap, e.at, |e.body|, lap, at, |body|);
  }

  lemma PlaceInRing(s: State, body: Octets)
    requires Shaped(s) && BodyCharge(body) <= s.ring
    ensures Place(s, body).1 + |body| <= s.ring
    ensures body != [] ==> Place(s, body).1 + RoundUp64(|body|) <= s.ring
  {
    if body != [] {
      ReserveAdvances(s.ring, s.lap, s.at, |body|);
      RoundUpBounds(|body|);
    }
  }

  // ---------------------------------------------------------------- the server's steps

  lemma BeginKeeps(s: State, body: Octets, headEvents: nat, headBytes: nat, t: State)
    requires Inv(s) && Next(s, Begin(body, headEvents, headBytes), t)
    ensures Inv(t)
  {
    if t != s {
      PayloadFitsRing(s, body, headEvents, headBytes);
      PlaceInRing(s, body);
      forall i | t.copied <= i < |t.events| ensures Held(t, i) { assert Held(s, i); }
    }
  }

  lemma SliceUntouched<T>(memory: seq<T>, k: nat, x: T, lo: nat, hi: nat)
    requires k < |memory| && lo <= hi <= |memory| && (k < lo || hi <= k)
    ensures memory[k := x][lo..hi] == memory[lo..hi]
  {}

  /** Each byte written leaves the payload of every waiting event as it is. */
  lemma ByteIsApart(s: State, t: State, i: nat)
    requires Inv(s) && Next(s, WriteByte, t) && Shaped(t) && s.copied <= i < |s.events|
    ensures Held(t, i)
  {
    assert Held(s, i);
    var p, e := s.writing.value, s.events[i];
    if e.body != [] {
      PlaceIsApart(s, p.body, i);
      SliceUntouched(s.memory, p.at + p.done, p.body[p.done], e.at, e.at + |e.body|);
    }
  }

  lemma WriteByteKeeps(s: State, t: State)
    requires Inv(s) && Next(s, WriteByte, t)
    ensures Inv(t)
  {
    var p := s.writing.value;
    forall i | t.copied <= i < |t.events| ensures Held(t, i) { ByteIsApart(s, t, i); }
    var lo, hi := p.at, p.at + p.done;
    SliceUntouched(s.memory, hi, p.body[p.done], lo, hi);
    assert t.memory[lo..hi + 1] == t.memory[lo..hi] + [t.memory[hi]];
    assert p.body[..p.done + 1] == p.body[..p.done] + [p.body[p.done]];
  }

  lemma WriteSlotKeeps(s: State, t: State)
    requires Inv(s) && Next(s, WriteSlot, t)
    ensures Inv(t)
  {
    forall i | t.copied <= i < |t.events| ensures Held(t, i) {
      assert Held(s, i);
      SlotsApart(i, |s.events|, s.depth);
    }
  }

  /** The event published is placed well, is held, and leaves the ring where the next one starts. */
  lemma NewIsSound(s: State, p: Pending)
    requires Inv(s) && s.writing == Some(p) && p.filed
    ensures var t, n := Published(s, p), |s.events|;
            && Shaped(t) && |t.events| == n + 1 && t.events[..n] == s.events
            && AdvanceCovered(t.events, n) && PlacedWell(t.ring, t.events, n) && Held(t, n)
            && t.lap * t.ring + t.at == EndAt(t.events, n + 1)
  {
    PlaceInRing(s, p.body);
    assert p.body[..|p.body|] == p.body;
    if p.body != [] {
      ReserveAdvances(s.ring, s.lap, s.at, |p.body|);
      RoundUpBounds(|p.body|);
    }
  }

  lemma OldIsSound(s: State, t: State, i: nat)
    requires EventsSound(s) && i < |s.events| < |t.events| && t.events[..|s.events|] == s.events && t.ring == s.ring
    ensures AdvanceCovered(t.events, i) && PlacedWell(t.ring, t.events, i)
  {
    assert t.events[i] == s.events[i] && (i > 0 ==> t.events[i - 1] == s.events[i - 1]);
    assert AdvanceCovered(s.events, i) && PlacedWell(s.ring, s.events, i);
  }

  lemma PublishKeeps(s: State, t: State)
    requires Inv(s) && Next(s, Publish, t)
    ensures Inv(t)
  {
    var n := |s.events|;
    NewIsSound(s, s.writing.value);
    forall i | 0 <= i < n + 1 ensures AdvanceCovered(t.events, i) && PlacedWell(t.ring, t.events, i) {
      if i < n { OldIsSound(s, t, i); }
    }
    forall i | t.copied <= i < n + 1 ensures Held(t, i) {
      if i < n { assert Held(s, i) && t.events[i] == s.events[i]; }
    }
    assert ChargeAt(t.events, s.copied) == ChargeAt(s.events, s.copied);
  }

  // ---------------------------------------------------------------- the engine's steps

  lemma ReadSlotKeeps(s: State, t: State)
    requires Inv(s) && Next(s, ReadSlot, t)
    ensures Inv(t)
  {
    assert Held(s, s.copied);
    forall i | t.copied <= i < |t.events| ensures Held(t, i) { assert Held(s, i); }
  }

  /** Each byte read is the byte published, whatever the server is writing meanwhile. */
  lemma ReadByteKeeps(s: State, t: State)
    requires Inv(s) && Next(s, ReadByte, t)
    ensures Inv(t)
  {
    var e, k := s.events[s.copied], |s.reading.value.bytes|;
    assert Held(s, s.copied);
    assert s.memory[e.at + k] == s.memory[e.at..e.at + |e.body|][k] == e.body[k];
    forall i | t.copied <= i < |t.events| ensures Held(t, i) { assert Held(s, i); }
  }

  lemma FinishCopyKeeps(s: State, t: State)
    requires Inv(s) && Next(s, FinishCopy, t)
    ensures Inv(t)
  {
    var e := s.events[s.copied];
    assert s.reading.value.bytes == e.body[..|e.body|] == e.body;
    Span(s.events, s.copied, s.copied + 1);
    forall i | t.copied <= i < |t.events| ensures Held(t, i) { assert Held(s, i); }
  }

  lemma CursorsKeep(s: State, step: Step, t: State)
    requires Inv(s) && Next(s, step, t) && (step.StoreCharge? || step.StoreSeq? || step.LoadSeq? || step.LoadCharge?)
    ensures Inv(t)
  {
    forall i | t.copied <= i < |t.events| ensures Held(t, i) { assert Held(s, i); }
  }

  lemma NextKeeps(s: State, step: Step, t: State)
    requires Inv(s) && Next(s, step, t)
    ensures Inv(t)
  {
    match step {
      case Begin(body, events, bytes) => BeginKeeps(s, body, events, bytes, t);
      case WriteByte => WriteByteKeeps(s, t);
      case WriteSlot => WriteSlotKeeps(s, t);
      case Publish => PublishKeeps(s, t);
      case ReadSlot => ReadSlotKeeps(s, t);
      case ReadByte => ReadByteKeeps(s, t);
      case FinishCopy => FinishCopyKeeps(s, t);
      case _ => CursorsKeep(s, step, t);
    }
  }

  // ---------------------------------------------------------------- every run

  /** States of a run, one longer than its steps. */
  ghost predicate IsRun(states: seq<State>, steps: seq<Step>)
  {
    && |states| == |steps| + 1 && Initial(states[0])
    && forall i :: 0 <= i < |steps| ==> Shaped(states[i]) && Next(states[i], steps[i], states[i + 1])
  }

  lemma InitialHolds(s: State)
    requires Initial(s)
    ensures Inv(s)
  {}

  lemma {:induction false} RunKeepsInv(states: seq<State>, steps: seq<Step>, k: nat)
    requires IsRun(states, steps) && k < |states|
    ensures Inv(states[k])
  {
    if k == 0 {
      InitialHolds(states[0]);
    } else {
      RunKeepsInv(states, steps, k - 1);
      NextKeeps(states[k - 1], steps[k - 1], states[k]);
    }
  }

  /** In every state of every run, the queue still holds every event that the engine has not copied,
      what the engine has read of the next one is its beginning, and what it has copied is what the
      server published, in order. */
  lemma RunIsSafe(states: seq<State>, steps: seq<Step>, k: nat)
    requires IsRun(states, steps) && k < |states|
    ensures var s := states[k];
      && Inv(s) && |s.received| == s.copied <= |s.events|
      && (forall i :: s.copied <= i < |s.events| ==> Held(s, i))
      && (forall i :: 0 <= i < s.copied ==> s.received[i] == s.events[i].body)
      && (s.reading.Some? ==> ReadingSound(s, s.reading.value))
  {
    RunKeepsInv(states, steps, k);
  }

  /** The engine never finds its next slot taken over, and a copy it has begun can always go on: the
      next byte is there, or the copy is complete. */
  lemma NeverLost(s: State)
    requires Inv(s) && s.copied < |s.events|
    ensures s.slots[s.copied % s.depth] == s.copied
    ensures s.reading.Some?
      ==> s.reading.value.index < |s.events| && |s.reading.value.bytes| <= |s.events[s.copied].body|
    ensures s.memory[s.events[s.copied].at..s.events[s.copied].at + |s.events[s.copied].body|]
         == s.events[s.copied].body
  {
    assert Held(s, s.copied);
  }
}
