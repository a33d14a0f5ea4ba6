/**
 * Flow control of the server-to-engine queue (crates/builder/src/spine.rs): before each event the
 * server compares what it has sent with two cursors of the engine, as it last read them, and holds back
 * when the difference and the new event exceed the queue. Every interleaving of the server, the engine
 * and their atomic accesses is a run of the step relation below, byte by byte: the server writes a
 * payload while the engine reads another.
 *
 * Of the payload ring only its documented rule is used: a payload takes a 64-byte-aligned slot and
 * skips to the start of the ring when it would straddle the end.
 */
module Credit {
  import opened Bytes

  function RoundUp64(len: nat): nat { (len + 63) / 64 * 64 }

  /** Upper bound on how far a payload advances the ring. */
  function Charge(len: nat): nat { 2 * RoundUp64(len) }

  function BodyCharge(body: Octets): nat { if body == [] then 0 else Charge(|body|) }

  /** A published event: the charge published up to it, the lap and position of its payload in the
      ring, and the total the ring has advanced after it. */
  datatype Event = Event(body: Octets, charge: nat, lap: nat, at: nat, end: nat)

  /** The engine copies events, then stores the charge, then the number of what it has copied. */
  datatype Engine = Copying | ChargeStored

  /** A publication under way: where its payload goes, how many bytes are there, and whether its slot
      is written. */
  datatype Pending = Pending(body: Octets, lap: nat, at: nat, done: nat, filed: bool)

  /** A copy under way: the event the slot named, and the bytes read so far. */
  datatype Reading = Reading(index: nat, bytes: Octets)

  datatype State = State(
    depth: nat, ring: nat,
    events: seq<Event>, slots: seq<nat>, memory: Octets, lap: nat, at: nat, writing: Option<Pending>,
    copied: nat, received: seq<Octets>, reading: Option<Reading>, engine: Engine,
    cursorSeq: nat, cursorCharge: nat,
    loadedSeq: nat, loadedCharge: nat)

  function ChargeAt(events: seq<Event>, n: nat): nat
    requires n <= |events|
  {
    if n == 0 then 0 else events[n - 1].charge
  }

  function EndAt(events: seq<Event>, n: nat): nat
    requires n <= |events|
  {
    if n == 0 then 0 else events[n - 1].end
  }

  /** Where a payload of `len` bytes goes, by the ring's rule. */
  function Reserve(ring: nat, lap: nat, at: nat, len: nat): (nat, nat)
  {
    if at + RoundUp64(len) > ring then (lap + 1, 0) else (lap, at)
  }

  // ---------------------------------------------------------------- steps

  datatype Step =
    | LoadSeq(value: nat)
    | LoadCharge(value: nat)
    | Begin(body: Octets, events: nat, bytes: nat)
    | WriteByte
    | WriteSlot
    | Publish
    | ReadSlot
    | ReadByte
    | FinishCopy
    | StoreCharge
    | StoreSeq

  predicate Fits(s: State, body: Octets, headEvents: nat, headBytes: nat)
  {
    && |s.events| - s.loadedSeq + 1 + headEvents <= s.depth
    && ChargeAt(s.events, |s.events|) - s.loadedCharge + BodyCharge(body) + headBytes <= s.ring
  }

  /** The shape of a state that indexing relies on. */
  predicate Shaped(s: State)
  {
    && s.depth > 0 && |s.slots| == s.depth && |s.memory| == s.ring
    && s.copied <= |s.events| && s.at <= s.ring
    && (forall i :: 0 <= i < |s.events| ==> s.events[i].at + |s.events[i].body| <= s.ring)
    && (s.writing.Some? ==>
          s.writing.value.done <= |s.writing.value.body|
          && s.writing.value.at + |s.writing.value.body| <= s.ring)
  }

  /** The place of the payload is fixed before it is written; an event without one takes no place. */
  function Place(s: State, body: Octets): (nat, nat)
  {
    if body == [] then (s.lap, s.at) else Reserve(s.ring, s.lap, s.at, |body|)
  }

  function NewEvent(s: State, p: Pending): Event
  {
    var n := |s.events|;
    var charge := ChargeAt(s.events, n) + BodyCharge(p.body);
    if p.body == [] then Event(p.body, charge, p.lap, p.at, EndAt(s.events, n))
    else Event(p.body, charge, p.lap, p.at, p.lap * s.ring + p.at + RoundUp64(|p.body|))
  }

  function Published(s: State, p: Pending): State
  {
    s.(events := s.events + [NewEvent(s, p)], lap := p.lap,
       at := if p.body == [] then s.at else p.at + RoundUp64(|p.body|), writing := None)
  }

  /** The loads may return any value that the cursor has passed. */
  predicate Next(s: State, step: Step, s': State)
    requires Shaped(s)
  {
    match step
    case LoadSeq(v) => v <= s.cursorSeq && s' == s.(loadedSeq := v)
    case LoadCharge(v) => v <= s.cursorCharge && s' == s.(loadedCharge := v)
    case Begin(body, events, bytes) =>
      && s.writing == None
      && s' == if Fits(s, body, events, bytes) && BodyCharge(body) <= s.ring
               then s.(writing := Some(Pending(body, Place(s, body).0, Place(s, body).1, 0, false))) else s
    case WriteByte =>
      && s.writing.Some? && s.writing.value.done < |s.writing.value.body|
      && var p := s.writing.value;
         s' == s.(memory := s.memory[p.at + p.done := p.body[p.done]], writing := Some(p.(done := p.done + 1)))
    case WriteSlot =>
      && s.writing.Some? && s.writing.value.done == |s.writing.value.body|
      && s' == s.(slots := s.slots[|s.events| % s.depth := |s.events|],
                   writing := Some(s.writing.value.(filed := true)))
    case Publish => s.writing.Some? && s.writing.value.filed && s' == Published(s, s.writing.value)
    case ReadSlot =>
      && s.engine == Copying && s.reading == None && s.copied < |s.events|
      && s' == s.(reading := Some(Reading(s.slots[s.copied % s.depth], [])))
    case ReadByte =>
      && s.reading.Some? && s.reading.value.index < |s.events|
      && var e, r := s.events[s.reading.value.index], s.reading.value;
         && |r.bytes| < |e.body|
         && s' == s.(reading := Some(r.(bytes := r.bytes + [s.memory[e.at + |r.bytes|]])))
    case FinishCopy =>
      && s.reading.Some? && s.reading.value.index < |s.events|
      && |s.reading.value.bytes| == |s.events[s.reading.value.index].body|
      && s' == s.(copied := s.copied + 1, received := s.received + [s.reading.value.bytes], reading := None)
    case StoreCharge =>
      && s.engine == Copying && s.reading == None
      && s' == s.(engine := ChargeStored, cursorCharge := ChargeAt(s.events, s.copied))
    case StoreSeq =>
      s.engine == ChargeStored && s' == s.(engine := Copying, cursorSeq := s.copied)
  }

  predicate Initial(s: State)
  {
    && s.depth > 0 && |s.slots| == s.depth && |s.memory| == s.ring
    && s.events == [] && s.lap == 0 && s.at == 0 && s.writing == None
    && s.copied == 0 && s.received == [] && s.reading == None && s.engine == Copying
    && s.cursorSeq == 0 && s.cursorCharge == 0 && s.loadedSeq == 0 && s.loadedCharge == 0
  }

  // ---------------------------------------------------------------- invariant

  /** No cursor value, stored or loaded, runs ahead of what was copied. */
  predicate CursorsBehind(s: State)
    requires s.copied <= |s.events|
  {
    && s.cursorSeq <= s.copied && s.loadedSeq <= s.copied
    && s.cursorCharge <= ChargeAt(s.events, s.copied) && s.loadedCharge <= ChargeAt(s.events, s.copied)
  }

  /** Event `i` advanced the ring by at most its own charge. */
  predicate AdvanceCovered(events: seq<Event>, i: nat)
    requires i < |events|
  {
    0 <= EndAt(events, i + 1) - EndAt(events, i) <= ChargeAt(events, i + 1) - ChargeAt(events, i)
  }

  /** The payload of event `i` lies between the ends of its predecessor and its own, within a lap. */
  predicate PlacedWell(ring: nat, events: seq<Event>, i: nat)
    requires i < |events|
  {
    var e := events[i];
    e.body != [] ==>
      e.at + |e.body| <= ring && EndAt(events, i) <= e.lap * ring + e.at && e.lap * ring + e.at + |e.body| <= e.end
  }

  /** The queue still holds event `i`: its slot and its payload. */
  predicate Held(s: State, i: nat)
    requires Shaped(s) && i < |s.events|
  {
    && s.slots[i % s.depth] == i
    && s.memory[s.events[i].at..s.events[i].at + |s.events[i].body|] == s.events[i].body
  }

  /** Besides what was not copied there is room for one more event with payload `body`. */
  predicate Room(s: State, body: Octets)
    requires s.copied <= |s.events|
  {
    && |s.events| - s.copied + 1 <= s.depth && BodyCharge(body) <= s.ring
    && ChargeAt(s.events, |s.events|) - ChargeAt(s.events, s.copied) + BodyCharge(body) <= s.ring
  }

  /** A publication under way has room, its place, and so far its own bytes there. */
  predicate WritingSound(s: State, p: Pending)
    requires Shaped(s) && s.writing == Some(p)
  {
    && Room(s, p.body) && (p.lap, p.at) == Place(s, p.body)
    && s.memory[p.at..p.at + p.done] == p.body[..p.done]
    && (p.filed ==> p.done == |p.body| && s.slots[|s.events| % s.depth] == |s.events|)
  }

  /** A copy under way is of the next event, and so far has its bytes. */
  predicate ReadingSound(s: State, r: Reading)
    requires s.copied <= |s.events|
  {
    r.index == s.copied < |s.events| && r.bytes <= s.events[s.copied].body
  }

  ghost predicate EventsSound(s: State)
  {
    && (forall i :: 0 <= i < |s.events| ==> AdvanceCovered(s.events, i))
    && (forall i :: 0 <= i < |s.events| ==> PlacedWell(s.ring, s.events, i))
    && s.lap * s.ring + s.at == EndAt(s.events, |s.events|)
  }

  ghost predicate WaitingHeld(s: State)
    requires Shaped(s)
  {
    forall i :: s.copied <= i < |s.events| ==> Held(s, i)
  }

  predicate ReceivedInOrder(s: State)
    requires s.copied <= |s.events|
  {
    |s.received| == s.copied && forall i :: 0 <= i < s.copied ==> s.received[i] == s.events[i].body
  }

  ghost predicate Inv(s: State)
  {
    && Shaped(s) && CursorsBehind(s) && EventsSound(s) && WaitingHeld(s) && ReceivedInOrder(s)
    && (s.writing.Some? ==> WritingSound(s, s.writing.value))
    && (s.reading.Some? ==> ReadingSound(s, s.reading.value) && s.engine == Copying)
  }

  // ---------------------------------------------------------------- arithmetic of the ring

  lemma RoundUpBounds(len: nat)
    ensures len <= RoundUp64(len) < len + 64
    ensures len > 0 ==> RoundUp64(len) > 0
  {}

  /** A payload advances the ring by at most its charge, the skip at the end included. */
  lemma ReserveAdvances(ring: nat, lap: nat, at: nat, len: nat)
    requires at <= ring && Charge(len) <= ring
    ensures var (lap', at') := Reserve(ring, lap, at, len);
            && at' + RoundUp64(len) <= ring && lap * ring + at <= lap' * ring + at'
            && lap' * ring + at' + RoundUp64(len) - (lap * ring + at) <= Charge(len)
  {
    assert (lap + 1) * ring == lap * ring + ring;
  }

  /** From one event to a later one the ring advances by at most the charge between them. */
  lemma {:induction false} Span(events: seq<Event>, i: nat, j: nat)
    requires i <= j <= |events| && forall k :: 0 <= k < |events| ==> AdvanceCovered(events, k)
    ensures ChargeAt(events, i) <= ChargeAt(events, j) && EndAt(events, i) <= EndAt(events, j)
    ensures EndAt(events, j) - EndAt(events, i) <= ChargeAt(events, j) - ChargeAt(events, i)
    decreases j - i
  {
    if i < j {
      assert AdvanceCovered(events, i);
      Span(events, i + 1, j);
    }
  }

  /** Two payloads less than a ring apart do not meet in the ring. */
  lemma Apart(ring: nat, lap: nat, at: nat, len: nat, lap': nat, at': nat, len': nat)
    requires at + len <= ring && at' + len' <= ring && len > 0
    requires lap * ring + at + len <= lap' * ring + at'
    requires lap' * ring + at' + len' <= lap * ring + at + ring
    ensures at + len <= at' || at' + len' <= at
  {
    var d := lap' - lap;
    assert lap' * ring == lap * ring + d * ring;
    assert d < 0 ==> d * ring <= -1 * ring;
    assert d > 1 ==> d * ring >= 2 * ring;
  }

  lemma SlotsApart(i: nat, n: nat, depth: nat)
    requires i < n < i + depth
    ensures i % depth != n % depth
  {
    var d := n / depth - i / depth;
    assert n - i == depth * d + (n % depth - i % depth);
    assert d >= 1 ==> depth * d >= depth;
    assert d <= 0 ==> depth * d <= 0;
  }
}
