/**
 * Sizing of the server-to-engine queue: the checks on the merging configuration
 * (crates/builder/src/config.rs) and the depth and slot size computed from it at startup
 * (crates/builder/src/main.rs).
 */
module QueueSizing {
  import opened Bytes
  import opened Credit

  const MIB: nat := 0x10_0000
  const HEADROOM_EVENTS: nat := 16
  const HEADROOM_BYTES: nat := 0x10_0000

  datatype Config = Config(
    apiKeys: nat, maxFrameBytes: nat, eventQueueCapacity: nat, eventQueueBytes: nat,
    maxOrdersPerSlot: nat, maxBlocksPerSlot: nat)

  predicate IsPow2(n: nat)
  {
    n == 1 || (n > 1 && n % 2 == 0 && IsPow2(n / 2))
  }

  /** The least power of two that is at least `n`, searched from `p`. */
  function NextPow2From(p: nat, n: nat): nat
    requires p > 0
    decreases n - p
  {
    if p >= n then p else NextPow2From(2 * p, n)
  }

  function NextPow2(n: nat): nat { NextPow2From(1, n) }

  function Depth(c: Config): nat { NextPow2(c.eventQueueCapacity) }

  predicate Validate(c: Config)
  {
    && c.apiKeys > 0
    && c.maxFrameBytes >= MIB
    && c.eventQueueCapacity > 0
    && IsPow2(c.eventQueueBytes) && c.eventQueueBytes >= 4 * c.maxFrameBytes
    && c.eventQueueBytes / (Depth(c) + 1) >= 64
    && c.maxOrdersPerSlot > 0 && c.maxBlocksPerSlot > 0
  }

  /** The slot size, down to a whole number of cache lines. */
  function Mtu(c: Config): nat
  {
    var x := c.eventQueueBytes / (Depth(c) + 1);
    x - x % 64
  }

  // ---------------------------------------------------------------- powers of two

  lemma {:induction false} NextPow2Is(p: nat, n: nat, q: nat)
    requires IsPow2(p) && IsPow2(q) && p <= q && q < 2 * n && n <= q
    ensures NextPow2From(p, n) == q
    decreases n - p
  {
    if p >= n {
      Pow2Gap(p, q);
    } else {
      Pow2Gap(p, q);
      assert 2 * p / 2 == p;
      NextPow2Is(2 * p, n, q);
    }
  }

  /** Between a power of two and its double there is no other. */
  lemma {:induction false} Pow2Gap(p: nat, q: nat)
    requires IsPow2(p) && IsPow2(q) && p <= q
    ensures p == q || 2 * p <= q
  {
    if p > 1 && q > 1 { Pow2Gap(p / 2, q / 2); }
  }

  lemma {:induction false} NextPow2Covers(p: nat, n: nat)
    requires IsPow2(p)
    ensures NextPow2From(p, n) >= n && NextPow2From(p, n) >= p && IsPow2(NextPow2From(p, n))
    decreases n - p
  {
    if p < n {
      assert 2 * p / 2 == p;
      NextPow2Covers(2 * p, n);
    }
  }

  // ---------------------------------------------------------------- sizing

  lemma MulOrder(d: nat, a: nat, b: nat)
    requires a <= b
    ensures d * a <= d * b
  {}

  lemma MulSplit(d: nat, a: nat, b: nat)
    ensures d * (a + b) == d * a + d * b
  {}

  /** Rounding the slot size down to cache lines never halves what the slots take together. */
  lemma MoreThanHalf(q: nat, d: nat, x: nat, mtu: nat)
    requires d * x <= q < d * x + d && x >= 64 && mtu == x - x % 64
    ensures q < 2 * (d * mtu) && d * mtu <= q
  {
    MulOrder(d, mtu, x);
    if x < 128 {
      MulOrder(d, x + 1, 128);
      MulSplit(d, x, 1);
    } else {
      MulSplit(d, mtu, x % 64);
      MulOrder(d, x % 64, 63);
      MulOrder(d, 128, x);
    }
  }

  lemma Quotient(q: nat, d: nat)
    requires d > 0
    ensures d * (q / d) <= q < d * (q / d) + d
  {}

  /** For every configuration that passes, the ring is sized to exactly the configured bytes. */
  lemma RingIsConfigured(c: Config)
    requires Validate(c)
    ensures NextPow2((Depth(c) + 1) * Mtu(c)) == c.eventQueueBytes
    ensures Mtu(c) >= 64 && Depth(c) >= c.eventQueueCapacity
  {
    NextPow2Covers(1, c.eventQueueCapacity);
    Quotient(c.eventQueueBytes, Depth(c) + 1);
    MoreThanHalf(c.eventQueueBytes, Depth(c) + 1, c.eventQueueBytes / (Depth(c) + 1), Mtu(c));
    NextPow2Is(1, (Depth(c) + 1) * Mtu(c), c.eventQueueBytes);
  }

  /** A body of any allowed length is charged no more than an empty ring holds, with the room kept
      for control events. */
  lemma FrameFits(c: Config, len: nat)
    requires Validate(c) && len <= c.maxFrameBytes
    ensures Charge(len) + HEADROOM_BYTES <= c.eventQueueBytes
  {
    RoundUpBounds(len);
  }

  /** On an empty queue a block of any allowed length is accepted exactly when the configured
      capacity leaves a slot beyond the room kept for control events. */
  lemma BlockFitsEmptyQueue(c: Config, body: Octets, s: State)
    requires Validate(c) && 0 < |body| <= c.maxFrameBytes
    requires Initial(s) && s.depth == Depth(c) && s.ring == c.eventQueueBytes
    ensures Fits(s, body, HEADROOM_EVENTS, HEADROOM_BYTES) <==> c.eventQueueCapacity > HEADROOM_EVENTS
  {
    FrameFits(c, |body|);
    NextPow2Covers(1, c.eventQueueCapacity);
    if c.eventQueueCapacity <= HEADROOM_EVENTS {
      AtMostSixteen(c.eventQueueCapacity);
    }
  }

  /** With a capacity of 16 or less a block is accepted in no state, however empty the queue. */
  lemma NoBlockEver(c: Config, body: Octets, s: State, headBytes: nat)
    requires Validate(c) && c.eventQueueCapacity <= HEADROOM_EVENTS
    requires s.depth == Depth(c) && s.loadedSeq <= |s.events|
    ensures !Fits(s, body, HEADROOM_EVENTS, headBytes)
  {
    AtMostSixteen(c.eventQueueCapacity);
  }

  lemma AtMostSixteen(n: nat)
    requires 0 < n <= 16
    ensures NextPow2(n) <= 16
  {
    assert NextPow2From(16, n) == 16;
    assert NextPow2From(8, n) <= 16;
    assert NextPow2From(4, n) <= 16;
    assert NextPow2From(2, n) <= 16;
  }
}
