/**
 Hybrid logical clock: the packed 64-bit form and the process-wide clock.
 */
module HybridClock {
  import opened Prelude

  const HLC_MAX_MS: nat := 0x7FFF_FFFF_FFFF      // 2^47 - 1
  const HLC_MAX_COUNTER: nat := U16_MAX
  const TICKS: nat := 0x1_0000                   // counter values per millisecond
  const TWO_47: nat := 0x8000_0000_0000
  const TWO_64: nat := 0x1_0000_0000_0000_0000

  // `ms` is a u64 and `counter` a u16 in the program.
  datatype Hlc = Hlc(ms: nat, counter: nat) {
    // In range, so that packing loses nothing.
    predicate Valid() {
      ms <= HLC_MAX_MS && counter <= HLC_MAX_COUNTER
    }

    // The derived lexicographic order.
    predicate Before(that: Hlc) {
      ms < that.ms || (ms == that.ms && counter < that.counter)
    }
  }

  // ---------------------------------------------------------------------------
  // Packing
  // ---------------------------------------------------------------------------

  // Mask, shift and or, as arithmetic; `PackBits` below is the same on 64-bit words.
  function Pack(h: Hlc): int {
    (h.ms % TWO_47) * TICKS + h.counter
  }

  function Unpack(packed: nat): Hlc {
    Hlc((packed / TICKS) % TWO_47, packed % TICKS)
  }

  lemma PackBijection(h: Hlc, packed: nat)
    requires h.Valid() && packed <= I64_MAX
    ensures 0 <= Pack(h) <= I64_MAX && Unpack(Pack(h)) == h
    ensures Unpack(packed).Valid() && Pack(Unpack(packed)) == packed
  {
    assert packed / TICKS < TWO_47;
    assert Pack(h) / TICKS == h.ms && Pack(h) % TICKS == h.counter;
  }

  // Sorting packed values sorts by (ms, counter).
  lemma PackIsOrderEmbedding(a: Hlc, b: Hlc)
    requires a.Valid() && b.Valid()
    ensures a.Before(b) <==> Pack(a) < Pack(b)
    ensures a == b <==> Pack(a) == Pack(b)
  {
    PackBijection(a, 0);
    PackBijection(b, 0);
  }

  const MS_MASK: bv64 := 0x7FFF_FFFF_FFFF
  const COUNTER_MASK: bv64 := 0xFFFF

  function PackBits(ms: bv64, counter: bv64): bv64 {
    ((ms & MS_MASK) << 16) | counter
  }

  function UnpackBits(packed: bv64): (bv64, bv64) {
    ((packed >> 16) & MS_MASK, packed & COUNTER_MASK)
  }

  // The source's bit operations are the arithmetic of `Pack` and `Unpack`, and bit 63 is clear.
  lemma PackBitsIsPack(ms: bv64, counter: bv64)
    requires counter <= 0xFFFF
    ensures PackBits(ms, counter) == (ms % 0x8000_0000_0000) * 0x1_0000 + counter
    ensures PackBits(ms, counter) <= 0x7FFF_FFFF_FFFF_FFFF
    ensures UnpackBits(PackBits(ms, counter)) == (ms & MS_MASK, counter)
  {
  }

  lemma UnpackBitsIsUnpack(packed: bv64)
    requires packed <= 0x7FFF_FFFF_FFFF_FFFF
    ensures UnpackBits(packed) == ((packed / 0x1_0000) % 0x8000_0000_0000, packed % 0x1_0000)
    ensures var (ms, counter) := UnpackBits(packed); PackBits(ms, counter) == packed
  {
  }

  // ---------------------------------------------------------------------------
  // The clock
  // ---------------------------------------------------------------------------

  // Milliseconds since the epoch as `now` reads them: None before the epoch, truncated to
  // 64 bits, capped.
  function WallMs(sinceEpoch: Option<nat>): (ms: nat)
    ensures ms <= HLC_MAX_MS
  {
    match sinceEpoch
    case None => 0
    case Some(d) => Min(d % TWO_64, HLC_MAX_MS)
  }

  // The single-integer clock: jump to the wall clock or tick once, whichever is later; at the
  // very last value the tick wraps back to the start of the last millisecond.
  function Tick(packed: nat, wall: nat): nat {
    if packed < wall * TICKS then wall * TICKS
    else if packed < I64_MAX then packed + 1
    else HLC_MAX_MS * TICKS
  }

  // One tick without looking at the wall: the counter goes up, and over into the next millisecond;
  // after the last of all it goes back to the start of the last millisecond.
  function NextTick(h: Hlc): Hlc {
    if h.counter < 65535 then Hlc(h.ms, h.counter + 1)
    else if h.ms < 0x7FFF_FFFF_FFFF then Hlc(h.ms + 1, 0)
    else Hlc(0x7FFF_FFFF_FFFF, 0)
  }

  class Clock {
    var ms: nat
    var counter: nat

    constructor ()
      ensures ms == 0 && counter == 0
    {
      ms, counter := 0, 0;
    }

    function State(): Hlc
      reads this
    {
      Hlc(ms, counter)
    }

    method Now(sinceEpoch: Option<nat>) returns (h: Hlc)
      requires State().Valid()
      modifies this
      ensures h == State() && h.Valid()
      ensures Pack(h) == Tick(Pack(old(State())), WallMs(sinceEpoch))
      ensures sinceEpoch.Some? && old(ms) < sinceEpoch.value <= 0x7FFF_FFFF_FFFF ==> h == Hlc(sinceEpoch.value, 0)
      ensures sinceEpoch.Some? && sinceEpoch.value <= 0x7FFF_FFFF_FFFF ==> h.ms >= sinceEpoch.value
      ensures sinceEpoch.Some? && 0x7FFF_FFFF_FFFF <= sinceEpoch.value <= 0xFFFF_FFFF_FFFF_FFFF ==>
                h.ms == 0x7FFF_FFFF_FFFF && (old(ms) < 0x7FFF_FFFF_FFFF ==> h.counter == 0)
      ensures sinceEpoch.None? || sinceEpoch.value <= old(ms) ==> h == NextTick(old(State()))
    {
      var wallMs := WallMs(sinceEpoch);
      ghost var before := State();
      if wallMs > ms {
        ms, counter := wallMs, 0;
      } else if counter == HLC_MAX_COUNTER {
        ms, counter := Min(Min(ms + 1, U64_MAX), HLC_MAX_MS), 0;
      } else {
        counter := counter + 1;
      }
      h := State();
    }
  }

  // One call is exactly max(wall, previous + 1), and so strictly later, unless the clock has
  // reached the last packed value.
  lemma TickExact(packed: nat, wall: nat)
    requires packed <= I64_MAX && wall <= HLC_MAX_MS
    ensures Tick(packed, wall) <= I64_MAX
    ensures Tick(packed, wall) == Max(wall * TICKS, packed + 1) <==> packed != I64_MAX
    ensures Tick(packed, wall) > packed <==> packed != I64_MAX
  {
  }

  // The packed values returned by successive calls.
  function Readings(packed: nat, walls: seq<nat>): (r: seq<nat>)
    ensures |r| == |walls|
    decreases |walls|
  {
    if walls == [] then []
    else [Tick(packed, walls[0])] + Readings(Tick(packed, walls[0]), walls[1..])
  }

  // The last reading of a clock that never runs out of packed values.
  function Ideal(packed: nat, walls: seq<nat>): nat
    decreases |walls|
  {
    if walls == [] then packed else Ideal(Max(walls[0] * TICKS, packed + 1), walls[1..])
  }

  // Max-plus form: the initial value aged by one tick per call, or some wall reading aged by
  // one tick per later call, whichever is largest.
  lemma {:induction false} IdealIsMaxPlus(packed: nat, walls: seq<nat>)
    ensures Ideal(packed, walls) >= packed + |walls|
    ensures forall k :: 0 <= k < |walls| ==> Ideal(packed, walls) >= walls[k] * TICKS + (|walls| - 1 - k)
    ensures Ideal(packed, walls) == packed + |walls|
         || exists k :: 0 <= k < |walls| && Ideal(packed, walls) == walls[k] * TICKS + (|walls| - 1 - k)
    decreases |walls|
  {
    if walls != [] {
      var p, rest := Max(walls[0] * TICKS, packed + 1), walls[1..];
      IdealIsMaxPlus(p, rest);
      forall k | 0 <= k < |walls| ensures Ideal(packed, walls) >= walls[k] * TICKS + (|walls| - 1 - k) {
        if k > 0 {
          assert walls[k] == rest[k - 1];
        }
      }
      if Ideal(p, rest) == p + |rest| {
        assert p == packed + 1 || Ideal(packed, walls) == walls[0] * TICKS + (|walls| - 1 - 0);
      } else {
        var k :| 0 <= k < |rest| && Ideal(p, rest) == rest[k] * TICKS + (|rest| - 1 - k);
        assert rest[k] == walls[k + 1];
      }
    }
  }

  ghost predicate StrictlyIncreasing(s: seq<nat>) {
    forall i, j :: 0 <= i < j < |s| ==> s[i] < s[j]
  }

  // The exact saturation point, read off the inputs: the readings strictly increase, each
  // later than the starting value, iff the unbounded clock would still fit in an i64.
  lemma {:induction false} IncreasingIffFits(packed: nat, walls: seq<nat>)
    requires packed <= I64_MAX && forall w :: w in walls ==> w <= HLC_MAX_MS
    ensures StrictlyIncreasing([packed] + Readings(packed, walls)) <==> Ideal(packed, walls) <= I64_MAX
    ensures Ideal(packed, walls) <= I64_MAX ==>
              ([packed] + Readings(packed, walls))[|walls|] == Ideal(packed, walls)
    decreases |walls|
  {
    if walls != [] {
      assert walls[0] in walls && forall w :: w in walls[1..] ==> w in walls;
      TickExact(packed, walls[0]);
      var p := Tick(packed, walls[0]);
      var tail := [p] + Readings(p, walls[1..]);
      assert [packed] + Readings(packed, walls) == [packed] + tail;
      IncreasingCons(packed, tail);
      if packed == I64_MAX {
        IdealIsMaxPlus(packed, walls);
      } else {
        IncreasingIffFits(p, walls[1..]);
        LastOfTail(packed, tail);
      }
    }
  }

  lemma LastOfTail(x: nat, tail: seq<nat>)
    requires tail != []
    ensures ([x] + tail)[|tail|] == tail[|tail| - 1]
  {
  }

  lemma IncreasingCons(x: nat, s: seq<nat>)
    requires s != []
    ensures StrictlyIncreasing([x] + s) <==> x < s[0] && StrictlyIncreasing(s)
  {
    var all := [x] + s;
    assert all[0] == x && all[1] == s[0];
    if StrictlyIncreasing(all) {
      forall i, j | 0 <= i < j < |s| ensures s[i] < s[j] {
        assert all[i + 1] < all[j + 1];
      }
    }
  }

  // The clock never runs more than one tick per call ahead of what it has seen.
  lemma {:induction false} ReadingsBounded(packed: nat, walls: seq<nat>, top: nat)
    requires packed <= top && packed <= I64_MAX
    requires forall w :: w in walls ==> w <= HLC_MAX_MS && w * TICKS <= top
    ensures forall i :: 0 <= i < |walls| ==> Readings(packed, walls)[i] <= I64_MAX
    ensures forall i :: 0 <= i < |walls| ==> Readings(packed, walls)[i] <= top + i + 1
    decreases |walls|
  {
    if walls != [] {
      assert walls[0] in walls && forall w :: w in walls[1..] ==> w in walls;
      TickExact(packed, walls[0]);
      ReadingsBounded(Tick(packed, walls[0]), walls[1..], top + 1);
    }
  }

  // After n calls the clock's milliseconds are at most ceil(n / 65536) past both its start and
  // the largest wall reading.
  lemma DriftBound(start: Hlc, walls: seq<nat>, largest: nat)
    requires start.Valid() && largest <= HLC_MAX_MS && forall w :: w in walls ==> w <= largest
    ensures forall i :: 0 <= i < |walls| ==>
              Unpack(Readings(Pack(start), walls)[i]).ms <= Max(start.ms, largest) + (|walls| + TICKS - 1) / TICKS
  {
    PackBijection(start, 0);
    var cap := Max(start.ms, largest);
    ReadingsBounded(Pack(start), walls, cap * TICKS + (TICKS - 1));
    forall i | 0 <= i < |walls|
      ensures Unpack(Readings(Pack(start), walls)[i]).ms <= cap + (|walls| + TICKS - 1) / TICKS
    {
      var r := Readings(Pack(start), walls)[i];
      assert r <= cap * TICKS + (|walls| + TICKS - 1);
      assert r / TICKS <= cap + (|walls| + TICKS - 1) / TICKS;
    }
  }
}
