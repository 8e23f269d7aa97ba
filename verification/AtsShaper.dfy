/**
 The asynchronous traffic shaper of one stream (IEEE Std 802.1Qcr-2020, clause 8.6.11):
 the arithmetic on BucketEmptyTime, the token bucket it stands for, and the traffic
 bound it enforces.
 */
module AtsShaper {
  import opened BgpTypes

  const I128_MAX: int := 0x7FFF_FFFF_FFFF_FFFF_FFFF_FFFF_FFFF_FFFF
  const I128_MIN: int := -0x8000_0000_0000_0000_0000_0000_0000_0000
  const U64_MAX: int := 0xFFFF_FFFF_FFFF_FFFF
  const BIT_MICROS: nat := 8_000_000

  /** Saturation at the ends of a 128-bit integer. */
  function Sat(x: int): int {
    if x > I128_MAX then I128_MAX else if x < I128_MIN then I128_MIN else x
  }

  function Max(a: int, b: int): int {
    if a < b then b else a
  }

  function Min(a: int, b: int): int {
    if a < b then a else b
  }

  function CeilDiv(a: nat, b: nat): nat
    requires b > 0
  {
    (a + b - 1) / b
  }

  /** Microseconds the committed rate needs for that many bytes, rounded up. */
  function Duration(bytes: U64, rate: U64): nat {
    if rate == 0 then 0 else Min(CeilDiv(bytes * BIT_MICROS, rate), I128_MAX)
  }

  lemma DivisionBounds(a: nat, b: nat)
    requires b > 0
    ensures a <= b * CeilDiv(a, b) <= a + b - 1
    ensures CeilDiv(a, b) <= a
  {
    var q := CeilDiv(a, b);
    assert a + b - 1 == b * q + (a + b - 1) % b;
    SmallerFactor(b, q, a);
    if a > 0 {
      Product(a - 1, b - 1);
      assert (a - 1) * (b - 1) == a * b - a - b + 1;
    }
  }

  lemma Product(a: nat, b: nat)
    ensures a * b >= 0
  {}

  lemma SmallerFactor(b: nat, q: nat, a: nat)
    requires b > 0
    ensures b * q <= b * a ==> q <= a
  {
    if a < q {
      Monotone(b, a + 1, q);
      assert b * (a + 1) == b * a + b;
    }
  }

  lemma Monotone(a: nat, b: int, c: int)
    requires b <= c
    ensures a * b <= a * c
  {}

  const LONGEST: int := 0x80_0000_0000_0000_0000_0000

  lemma DurationBounds(bytes: U64, rate: U64)
    requires rate > 0
    ensures Duration(bytes, rate) == CeilDiv(bytes * BIT_MICROS, rate)
    ensures Duration(bytes, rate) < LONGEST
    ensures 8_000_000 * bytes <= rate * Duration(bytes, rate) <= 8_000_000 * bytes + rate - 1
  {
    DivisionBounds(bytes * BIT_MICROS, rate);
  }

  // ------------------------------------------------------------------ the shaper

  datatype Shaper = Shaper(rate: U64, burst: U32, lastEligible: U64, bucketEmpty: int) {
    /** How long the empty bucket takes to fill. */
    function EmptyToFull(): nat {
      Duration(burst, rate)
    }
  }

  /** A new stream's bucket has been empty just long enough ago to be full at time 0. */
  function Fresh(rate: U64, burst: U32): Shaper {
    Shaper(rate, burst, 0, -(Duration(burst, rate) as int))
  }

  datatype Frame = Frame(bytes: U64, arrival: U64)

  /** The eligibility time before it is cut to 64 bits. */
  function Wanted(s: Shaper, f: Frame): int {
    Max(Max(f.arrival, s.lastEligible), Sat(s.bucketEmpty + Duration(f.bytes, s.rate)))
  }

  /** The shaper after the frame; the frame's eligibility time is its `lastEligible`. */
  function Arrive(s: Shaper, f: Frame): (r: Shaper)
    ensures r.rate == s.rate && r.burst == s.burst
  {
    if s.rate == 0 then s.(lastEligible := Max(f.arrival, s.lastEligible))
    else
      var scheduled := Sat(s.bucketEmpty + Duration(f.bytes, s.rate));
      var full := Sat(s.bucketEmpty + s.EmptyToFull());
      var eligible := Wanted(s, f);
      var empty := if eligible < full then scheduled else Sat(scheduled + Sat(eligible - full));
      s.(bucketEmpty := empty, lastEligible := Min(eligible, U64_MAX))
  }

  function Eligible(s: Shaper, f: Frame): U64 {
    Arrive(s, f).lastEligible
  }

  /** Eligibility never goes back, even when arrival times do and when the clock saturates. */
  lemma EligibilityNeverRegresses(s: Shaper, f: Frame)
    ensures s.lastEligible <= Eligible(s, f)
    ensures f.arrival <= Eligible(s, f)
  {}

  /** Far from the ends of the 128-bit range. */
  const FAR: int := 0x10_0000_0000_0000_0000_0000_0000

  predicate Sane(s: Shaper) {
    s.rate > 0 && -FAR <= s.bucketEmpty <= FAR
  }

  predicate Unclamped(s: Shaper, f: Frame) {
    Wanted(s, f) <= U64_MAX
  }

  /** Without clamping the branches collapse to one formula. */
  lemma ExactArrival(s: Shaper, f: Frame)
    requires Sane(s) && Unclamped(s, f)
    ensures var d, e, r := Duration(f.bytes, s.rate), s.EmptyToFull(), Arrive(s, f);
            && r.lastEligible == Max(Max(f.arrival, s.lastEligible), s.bucketEmpty + d)
            && r.bucketEmpty == Max(s.bucketEmpty, r.lastEligible - e) + d
            && Sane(r)
  {
    DurationBounds(f.bytes, s.rate);
    DurationBounds(s.burst, s.rate);
  }

  lemma FreshIsSane(rate: U64, burst: U32)
    requires rate > 0
    ensures Sane(Fresh(rate, burst))
  {
    DurationBounds(burst, rate);
  }

  // ---------------------------------------------------------- the token bucket

  /** The bucket's level at time `t`, in microseconds of the committed rate. */
  function Level(s: Shaper, t: int): int {
    Min(s.EmptyToFull(), t - s.bucketEmpty)
  }

  /** The first moment, not before arrival and previous frame, at which the level covers the frame. */
  ghost predicate EarliestCovered(s: Shaper, f: Frame, t: int) {
    var d := Duration(f.bytes, s.rate);
    && t >= f.arrival && t >= s.lastEligible && Level(s, t) >= d
    && forall u: int :: u >= f.arrival && u >= s.lastEligible && Level(s, u) >= d ==> t <= u
  }

  /**
   A frame is sent at the first moment the bucket covers it exactly when it is no longer
   than the bucket is deep.
   */
  lemma EarliestIffItFits(s: Shaper, f: Frame)
    requires Sane(s) && Unclamped(s, f)
    ensures EarliestCovered(s, f, Eligible(s, f)) <==> Duration(f.bytes, s.rate) <= s.EmptyToFull()
  {
    ExactArrival(s, f);
    var t, d := Eligible(s, f), Duration(f.bytes, s.rate);
    if d <= s.EmptyToFull() {
      forall u: int | u >= f.arrival && u >= s.lastEligible && Level(s, u) >= d ensures t <= u {}
      assert Level(s, t) >= d;
    }
  }

  /** At that moment the level drops by exactly the frame's duration, and from then on it refills. */
  lemma FrameTakesItsTokens(s: Shaper, f: Frame, t: int)
    requires Sane(s) && Unclamped(s, f) && t >= Eligible(s, f)
    ensures var r := Arrive(s, f); var et := Eligible(s, f); var d := Duration(f.bytes, s.rate);
            && Level(r, et) == Level(s, et) - d
            && Level(r, t) == Min(s.EmptyToFull(), Level(r, et) + (t - et))
  {
    ExactArrival(s, f);
  }

  /** A new shaper's bucket is full from the start, so a first frame that fits is due on arrival. */
  lemma FreshIsFull(rate: U64, burst: U32, f: Frame)
    requires rate > 0
    ensures Level(Fresh(rate, burst), 0) == Fresh(rate, burst).EmptyToFull() == Duration(burst, rate)
    ensures Duration(f.bytes, rate) <= Duration(burst, rate) ==> Eligible(Fresh(rate, burst), f) == f.arrival
  {
    DurationBounds(f.bytes, rate);
    DurationBounds(burst, rate);
  }

  /** Without a committed rate nothing is held back, and only the order of the frames is kept. */
  lemma NoRateNoDelay(s: Shaper, f: Frame)
    requires s.rate == 0
    ensures Eligible(s, f) == if f.arrival < s.lastEligible then s.lastEligible else f.arrival
    ensures Arrive(s, f) == s.(lastEligible := Eligible(s, f))
  {}

  // ------------------------------------------------------------ the traffic bound

  function After(s: Shaper, fs: seq<Frame>): (r: Shaper)
    ensures r.rate == s.rate && r.burst == s.burst
  {
    if fs == [] then s else Arrive(After(s, fs[..|fs| - 1]), fs[|fs| - 1])
  }

  /** Eligibility time of frame `k` of a run. */
  function EligibleAt(s: Shaper, fs: seq<Frame>, k: nat): U64
    requires k < |fs|
  {
    Eligible(After(s, fs[..k]), fs[k])
  }

  ghost predicate NeverClamped(s: Shaper, fs: seq<Frame>) {
    forall k :: 0 <= k < |fs| ==> Unclamped(After(s, fs[..k]), fs[k])
  }

  /** Recovery time of frames `i` to `j - 1`. */
  function Recovery(rate: U64, fs: seq<Frame>, i: nat, j: nat): nat
    requires i <= j <= |fs|
  {
    if i == j then 0 else Recovery(rate, fs, i, j - 1) + Duration(fs[j - 1].bytes, rate)
  }

  function Bytes(fs: seq<Frame>, i: nat, j: nat): nat
    requires i <= j <= |fs|
  {
    if i == j then 0 else Bytes(fs, i, j - 1) + fs[j - 1].bytes
  }

  lemma AfterStep(s: Shaper, fs: seq<Frame>, k: nat)
    requires k < |fs|
    ensures After(s, fs[..k + 1]) == Arrive(After(s, fs[..k]), fs[k])
  {
    assert fs[..k + 1][..k] == fs[..k];
  }

  lemma {:induction false} StaysSane(s: Shaper, fs: seq<Frame>, k: nat)
    requires Sane(s) && NeverClamped(s, fs) && k <= |fs|
    ensures Sane(After(s, fs[..k]))
    decreases k
  {
    if k > 0 {
      StaysSane(s, fs, k - 1);
      AfterStep(s, fs, k - 1);
      var before := After(s, fs[..k - 1]);
      assert Unclamped(before, fs[k - 1]);
      ExactArrival(before, fs[k - 1]);
      assert Sane(Arrive(before, fs[k - 1]));
    }
  }

  /** In any run, the level left behind by a frame is inside the bucket exactly when the frame fits into it. */
  lemma LevelStaysInBucketIff(s: Shaper, fs: seq<Frame>, k: nat)
    requires Sane(s) && NeverClamped(s, fs) && k < |fs|
    ensures 0 <= Level(After(s, fs[..k + 1]), EligibleAt(s, fs, k)) <= s.EmptyToFull()
            <==> Duration(fs[k].bytes, s.rate) <= s.EmptyToFull()
  {
    StaysSane(s, fs, k);
    AfterStep(s, fs, k);
    ExactArrival(After(s, fs[..k]), fs[k]);
  }

  /** From frame `i` on, the bucket owes at least what has been sent since. */
  lemma {:induction false} BucketOwes(s: Shaper, fs: seq<Frame>, i: nat, j: nat)
    requires Sane(s) && NeverClamped(s, fs) && i < j <= |fs|
    ensures After(s, fs[..j]).bucketEmpty >= EligibleAt(s, fs, i) - s.EmptyToFull() + Recovery(s.rate, fs, i, j)
    decreases j
  {
    StaysSane(s, fs, j - 1);
    AfterStep(s, fs, j - 1);
    ExactArrival(After(s, fs[..j - 1]), fs[j - 1]);
    if i < j - 1 {
      BucketOwes(s, fs, i, j - 1);
    } else {
      assert Recovery(s.rate, fs, i, i) == 0;
    }
  }

  /**
   The traffic bound in time: whatever the frame sizes and arrival times, the frames
   from `i` to `j` never need more than one full bucket plus the time between them.
   */
  lemma RecoveryIsBounded(s: Shaper, fs: seq<Frame>, i: nat, j: nat)
    requires Sane(s) && NeverClamped(s, fs) && i < j < |fs|
    ensures Recovery(s.rate, fs, i, j + 1) <= s.EmptyToFull() + EligibleAt(s, fs, j) - EligibleAt(s, fs, i)
  {
    BucketOwes(s, fs, i, j);
    StaysSane(s, fs, j);
    ExactArrival(After(s, fs[..j]), fs[j]);
  }

  /** A single frame obeys it exactly when it fits into the bucket. */
  lemma SingleFrameBoundedIff(s: Shaper, fs: seq<Frame>, i: nat)
    requires i < |fs|
    ensures Recovery(s.rate, fs, i, i + 1) <= s.EmptyToFull() + EligibleAt(s, fs, i) - EligibleAt(s, fs, i)
            <==> Duration(fs[i].bytes, s.rate) <= s.EmptyToFull()
  {
    assert Recovery(s.rate, fs, i, i) == 0;
  }

  lemma {:induction false} RecoveryCoversBytes(rate: U64, fs: seq<Frame>, i: nat, j: nat)
    requires rate > 0 && i <= j <= |fs|
    ensures 8_000_000 * Bytes(fs, i, j) <= rate * Recovery(rate, fs, i, j)
    decreases j
  {
    if i < j {
      RecoveryCoversBytes(rate, fs, i, j - 1);
      DurationBounds(fs[j - 1].bytes, rate);
      Distribute(rate, Recovery(rate, fs, i, j - 1), Duration(fs[j - 1].bytes, rate));
    }
  }

  lemma Distribute(a: int, b: int, c: int)
    ensures a * (b + c) == a * b + a * c
  {}

  lemma ScaledBound(rate: nat, r: int, e: int, w: int)
    requires r <= e + w
    ensures rate * r <= rate * e + rate * w
  {
    Monotone(rate, r, e + w);
    Distribute(rate, e, w);
  }

  lemma RecoveryInWindow(s: Shaper, fs: seq<Frame>, i: nat, j: nat)
    requires Sane(s) && NeverClamped(s, fs) && i < j < |fs|
    ensures s.rate * Recovery(s.rate, fs, i, j + 1) <=
              s.rate * s.EmptyToFull() + s.rate * (EligibleAt(s, fs, j) - EligibleAt(s, fs, i))
  {
    RecoveryIsBounded(s, fs, i, j);
    ScaledBound(s.rate, Recovery(s.rate, fs, i, j + 1), s.EmptyToFull(), EligibleAt(s, fs, j) - EligibleAt(s, fs, i));
  }

  /** That many bytes in a window of that many microseconds: at most the burst, the committed rate times the window, and less than one microsecond's worth of rounding. */
  predicate WithinContract(bytes: nat, burst: U32, rate: U64, window: int) {
    8_000_000 * bytes <= 8_000_000 * burst + rate * window + rate - 1
  }

  /**
   The traffic bound in bits (scaled by a million): in any window the stream sends at
   most its burst, the committed rate times the window, and less than one microsecond's
   worth of rounding.
   */
  lemma TrafficIsBounded(s: Shaper, fs: seq<Frame>, i: nat, j: nat)
    requires Sane(s) && NeverClamped(s, fs) && i < j < |fs|
    ensures WithinContract(Bytes(fs, i, j + 1), s.burst, s.rate, EligibleAt(s, fs, j) - EligibleAt(s, fs, i))
  {
    RecoveryInWindow(s, fs, i, j);
    RecoveryCoversBytes(s.rate, fs, i, j + 1);
    DurationBounds(s.burst, s.rate);
  }

  // ------------------------------------------------- up to a frame that was not clamped

  lemma EarlierFrames(s: Shaper, fs: seq<Frame>, n: nat, k: nat)
    requires k < n <= |fs|
    ensures EligibleAt(s, fs[..n], k) == EligibleAt(s, fs, k)
    ensures After(s, fs[..n][..k]) == After(s, fs[..k])
  {
    assert fs[..n][..k] == fs[..k];
  }

  lemma EligibleNext(s: Shaper, fs: seq<Frame>, j: nat)
    requires j + 1 < |fs|
    ensures EligibleAt(s, fs, j) <= EligibleAt(s, fs, j + 1)
  {
    AfterStep(s, fs, j);
    EligibilityNeverRegresses(After(s, fs[..j + 1]), fs[j + 1]);
  }

  lemma {:induction false} EligibleGrows(s: Shaper, fs: seq<Frame>, k: nat, j: nat)
    requires k <= j < |fs|
    ensures EligibleAt(s, fs, k) <= EligibleAt(s, fs, j)
    decreases j
  {
    if k < j {
      EligibleGrows(s, fs, k, j - 1);
      EligibleNext(s, fs, j - 1);
    }
  }

  /** A frame whose time is below the clock's maximum was not clamped, nor was any before it. */
  lemma NotClampedUpTo(s: Shaper, fs: seq<Frame>, j: nat)
    requires s.rate > 0 && j < |fs| && EligibleAt(s, fs, j) < U64_MAX
    ensures NeverClamped(s, fs[..j + 1])
  {
    var part := fs[..j + 1];
    forall k | 0 <= k < |part| ensures Unclamped(After(s, part[..k]), part[k]) {
      EligibleGrows(s, fs, k, j);
      EarlierFrames(s, fs, j + 1, k);
    }
  }

  lemma {:induction false} BytesUpTo(fs: seq<Frame>, n: nat, i: nat, j: nat)
    requires i <= j <= n <= |fs|
    ensures Bytes(fs[..n], i, j) == Bytes(fs, i, j)
    decreases j
  {
    if i < j {
      BytesUpTo(fs, n, i, j - 1);
    }
  }

  /** A new stream's traffic is bounded up to any frame that was given a time below the clock's maximum. */
  lemma FreshTrafficIsBounded(rate: U64, burst: U32, fs: seq<Frame>, i: nat, j: nat)
    requires rate > 0 && i < j < |fs| && EligibleAt(Fresh(rate, burst), fs, j) < U64_MAX
    ensures var s := Fresh(rate, burst);
            WithinContract(Bytes(fs, i, j + 1), burst, rate, EligibleAt(s, fs, j) - EligibleAt(s, fs, i))
  {
    var s := Fresh(rate, burst);
    FreshIsSane(rate, burst);
    NotClampedUpTo(s, fs, j);
    TrafficIsBounded(s, fs[..j + 1], i, j);
    BytesUpTo(fs, j + 1, i, j + 1);
    EarlierFrames(s, fs, j + 1, i);
    EarlierFrames(s, fs, j + 1, j);
  }

  // ------------------------------------------------------------------- in place

  class AtsStreamShaper {
    const rate: U64
    const burst: U32
    var lastEligible: U64
    var bucketEmpty: int

    function View(): Shaper
      reads this
    {
      Shaper(rate, burst, lastEligible, bucketEmpty)
    }

    constructor (rate: U64, burst: U32)
      ensures View() == Fresh(rate, burst)
    {
      this.rate, this.burst := rate, burst;
      lastEligible := 0;
      bucketEmpty := -(Duration(burst, rate) as int);
    }

    method ComputeEligibilityTime(bytes: U64, arrival: U64) returns (et: U64)
      modifies this
      ensures View() == Arrive(old(View()), Frame(bytes, arrival)) && et == lastEligible
      ensures et >= old(lastEligible) && et >= arrival
    {
      if rate == 0 {
        et := Max(arrival, lastEligible);
        lastEligible := et;
        return;
      }
      var recovery := Duration(bytes, rate);
      var emptyToFull := Duration(burst, rate);
      var scheduled := Sat(bucketEmpty + recovery);
      var full := Sat(bucketEmpty + emptyToFull);
      var eligible := Max(Max(arrival, lastEligible), scheduled);
      if eligible < full {
        bucketEmpty := scheduled;
      } else {
        bucketEmpty := Sat(scheduled + Sat(eligible - full));
      }
      et := Min(eligible, U64_MAX);
      lastEligible := et;
    }
  }
}
