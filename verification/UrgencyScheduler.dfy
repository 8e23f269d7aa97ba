/**
 The urgency-based scheduler over per-stream shapers: which frame leaves when, and that
 no frame is lost, duplicated, reordered within its stream or released early.
 */
module UrgencyScheduler {
  import opened BgpTypes
  import A = AtsShaper

  datatype Queued = Queued(stream: U32, length: U64, arrival: U64, eligible: U64, payload: seq<U8>)

  /** `accepted` and `sent` record every frame taken in and let go so far. */
  datatype Scheduler = Scheduler(shapers: map<U32, A.Shaper>, queue: seq<Queued>, accepted: seq<Queued>, sent: seq<Queued>)

  // ----------------------------------------------------------------- operations

  /** An existing stream keeps its shaper. */
  function Register(s: Scheduler, stream: U32, shaper: A.Shaper): Scheduler {
    if stream in s.shapers then s else s.(shapers := s.shapers[stream := shaper])
  }

  function Stamped(s: Scheduler, stream: U32, arrival: U64, payload: seq<U8>): Queued
    requires stream in s.shapers && |payload| < 0x1_0000_0000_0000_0000
  {
    Queued(stream, |payload|, arrival, A.Eligible(s.shapers[stream], A.Frame(|payload|, arrival)), payload)
  }

  /** An unknown stream's frame is refused. */
  function Enqueue(s: Scheduler, stream: U32, arrival: U64, payload: seq<U8>): Scheduler
    requires |payload| < 0x1_0000_0000_0000_0000
  {
    if stream !in s.shapers then s
    else
      var f := Stamped(s, stream, arrival, payload);
      s.(shapers := s.shapers[stream := A.Arrive(s.shapers[stream], A.Frame(|payload|, arrival))],
         queue := s.queue + [f], accepted := s.accepted + [f])
  }

  predicate Due(f: Queued, now: U64) {
    f.eligible <= now
  }

  /** Position of the most urgent due frame, the earliest queued one among equals; the length if none is due. */
  function MostUrgent(q: seq<Queued>, now: U64): (k: nat)
    ensures k <= |q|
    ensures k < |q| ==> Due(q[k], now)
  {
    if q == [] then 0
    else
      var n := |q| - 1;
      var k := MostUrgent(q[..n], now);
      if !Due(q[n], now) then (if k == n then |q| else k)
      else if k == n || q[n].eligible < q[k].eligible then n
      else k
  }

  function Dequeue(s: Scheduler, now: U64): (Scheduler, Option<Queued>) {
    var k := MostUrgent(s.queue, now);
    if k == |s.queue| then (s, None)
    else (s.(queue := s.queue[..k] + s.queue[k + 1..], sent := s.sent + [s.queue[k]]), Some(s.queue[k]))
  }

  /** What the choice means. */
  lemma {:induction false} MostUrgentIsFirstLeast(q: seq<Queued>, now: U64)
    ensures var k := MostUrgent(q, now);
            && (k == |q| <==> forall i :: 0 <= i < |q| ==> !Due(q[i], now))
            && (k < |q| ==>
                  && (forall i :: 0 <= i < |q| && Due(q[i], now) ==> q[k].eligible <= q[i].eligible)
                  && (forall i :: 0 <= i < k && Due(q[i], now) ==> q[k].eligible < q[i].eligible))
    decreases |q|
  {
    if q != [] {
      MostUrgentIsFirstLeast(q[..|q| - 1], now);
    }
  }

  /** A frame of a known stream joins the queue with the time its shaper gives it, any other is refused. */
  lemma EnqueueEffect(s: Scheduler, stream: U32, arrival: U64, payload: seq<U8>)
    requires |payload| < 0x1_0000_0000_0000_0000
    ensures var r := Enqueue(s, stream, arrival, payload);
            if stream !in s.shapers then r == s
            else
              && |r.queue| == |s.queue| + 1 && r.queue[..|s.queue|] == s.queue && r.sent == s.sent
              && r.accepted == s.accepted + [r.queue[|s.queue|]]
              && (var f := r.queue[|s.queue|];
                  && f.stream == stream && f.arrival == arrival && f.payload == payload && f.length == |payload|
                  && f.eligible == r.shapers[stream].lastEligible)
              && r.shapers == s.shapers[stream := A.Arrive(s.shapers[stream], A.Frame(|payload|, arrival))]
  {}

  /** What is let go leaves the queue, the rest stays in order; nothing is let go exactly when nothing is due. */
  lemma DequeueEffect(s: Scheduler, now: U64)
    ensures var (r, f) := Dequeue(s, now);
            && r.shapers == s.shapers && r.accepted == s.accepted
            && (f.None? <==> forall i :: 0 <= i < |s.queue| ==> now < s.queue[i].eligible)
            && (f.None? ==> r == s)
            && (f.Some? ==> r.sent == s.sent + [f.value]
                            && exists k :: 0 <= k < |s.queue| && s.queue[k] == f.value && f.value.eligible <= now
                                 && r.queue == s.queue[..k] + s.queue[k + 1..])
  {
    MostUrgentIsFirstLeast(s.queue, now);
    var k := MostUrgent(s.queue, now);
    if k < |s.queue| {
      assert Due(s.queue[k], now);
    }
  }

  // ------------------------------------------------------------------------ runs

  datatype Op =
    | RegisterOp(stream: U32, shaper: A.Shaper)
    | EnqueueOp(stream: U32, arrival: U64, payload: seq<U8>)
    | DequeueOp(now: U64)

  predicate Sized(op: Op) {
    op.EnqueueOp? ==> |op.payload| < 0x1_0000_0000_0000_0000
  }

  function Apply(s: Scheduler, op: Op): Scheduler
    requires Sized(op)
  {
    match op
    case RegisterOp(stream, shaper) => Register(s, stream, shaper)
    case EnqueueOp(stream, arrival, payload) => Enqueue(s, stream, arrival, payload)
    case DequeueOp(now) => Dequeue(s, now).0
  }

  ghost predicate AllSized(ops: seq<Op>) {
    forall i :: 0 <= i < |ops| ==> Sized(ops[i])
  }

  function Run(s: Scheduler, ops: seq<Op>): Scheduler
    requires forall i :: 0 <= i < |ops| ==> Sized(ops[i])
  {
    if ops == [] then s else Apply(Run(s, ops[..|ops| - 1]), ops[|ops| - 1])
  }

  const EMPTY: Scheduler := Scheduler(map[], [], [], [])

  /** The frames of one stream, in order. */
  function OfStream(fs: seq<Queued>, stream: U32): seq<Queued> {
    if fs == [] then []
    else OfStream(fs[..|fs| - 1], stream) + if fs[|fs| - 1].stream == stream then [fs[|fs| - 1]] else []
  }

  lemma {:induction false} OfStreamAppend(a: seq<Queued>, b: seq<Queued>, stream: U32)
    ensures OfStream(a + b, stream) == OfStream(a, stream) + OfStream(b, stream)
    decreases |b|
  {
    if b == [] {
      assert a + b == a;
    } else {
      var n := |b| - 1;
      OfStreamAppend(a, b[..n], stream);
      assert (a + b)[..|a + b| - 1] == a + b[..n];
    }
  }

  /** Queued frames of one stream become eligible in the order they are queued, none after the shaper's last. */
  ghost predicate Ordered(s: Scheduler) {
    && (forall i :: 0 <= i < |s.queue| ==>
          s.queue[i].stream in s.shapers && s.queue[i].eligible <= s.shapers[s.queue[i].stream].lastEligible)
    && (forall i, j :: 0 <= i < j < |s.queue| && s.queue[i].stream == s.queue[j].stream ==>
          s.queue[i].eligible <= s.queue[j].eligible)
  }

  /** Sent then queued frames of a stream are its accepted frames: nothing lost, doubled or overtaken. */
  ghost predicate Conserved(s: Scheduler, stream: U32) {
    OfStream(s.sent, stream) + OfStream(s.queue, stream) == OfStream(s.accepted, stream)
  }

  ghost predicate Good(s: Scheduler) {
    Ordered(s) && forall stream: U32 :: Conserved(s, stream)
  }

  lemma RegisterGood(s: Scheduler, stream: U32, shaper: A.Shaper)
    requires Good(s)
    ensures Good(Register(s, stream, shaper))
  {
    var r := Register(s, stream, shaper);
    forall x: U32 ensures Conserved(r, x) {
      assert Conserved(s, x);
    }
  }

  lemma EnqueueGood(s: Scheduler, stream: U32, arrival: U64, payload: seq<U8>)
    requires Good(s) && |payload| < 0x1_0000_0000_0000_0000
    ensures Good(Enqueue(s, stream, arrival, payload))
  {
    if stream in s.shapers {
      var f := Stamped(s, stream, arrival, payload);
      A.EligibilityNeverRegresses(s.shapers[stream], A.Frame(|payload|, arrival));
      var r := Enqueue(s, stream, arrival, payload);
      forall x: U32 ensures Conserved(r, x) {
        assert Conserved(s, x);
        OfStreamAppend(s.queue, [f], x);
        OfStreamAppend(s.accepted, [f], x);
      }
    }
  }

  lemma {:induction false} NoneOfStream(fs: seq<Queued>, stream: U32)
    requires forall i :: 0 <= i < |fs| ==> fs[i].stream != stream
    ensures OfStream(fs, stream) == []
    decreases |fs|
  {
    if fs != [] {
      NoneOfStream(fs[..|fs| - 1], stream);
    }
  }

  lemma EarlierOfStream(s: Scheduler, i: nat, k: nat)
    requires Ordered(s) && i < k < |s.queue|
    ensures s.queue[i].stream == s.queue[k].stream ==> s.queue[i].eligible <= s.queue[k].eligible
  {}

  /** The chosen frame is the first queued one of its stream. */
  lemma ChosenIsFirstOfItsStream(s: Scheduler, now: U64)
    requires Ordered(s) && MostUrgent(s.queue, now) < |s.queue|
    ensures var k := MostUrgent(s.queue, now);
            forall i :: 0 <= i < k ==> s.queue[i].stream != s.queue[k].stream
  {
    MostUrgentIsFirstLeast(s.queue, now);
    var k := MostUrgent(s.queue, now);
    forall i | 0 <= i < k ensures s.queue[i].stream != s.queue[k].stream {
      EarlierOfStream(s, i, k);
    }
  }

  function Only(f: Queued, stream: U32): seq<Queued> {
    if f.stream == stream then [f] else []
  }

  lemma OneOfStream(f: Queued, stream: U32)
    ensures OfStream([f], stream) == Only(f, stream)
  {
    assert [f][..0] == [] && OfStream([], stream) == [];
  }

  lemma Shift(a: seq<Queued>, b: seq<Queued>, c: seq<Queued>)
    ensures a + b + c == a + (b + c)
  {}

  lemma Unit(a: seq<Queued>)
    ensures [] + a == a && a + [] == a
  {}

  lemma SentOfStream(sent: seq<Queued>, f: Queued, stream: U32)
    ensures OfStream(sent + [f], stream) == OfStream(sent, stream) + Only(f, stream)
  {
    OfStreamAppend(sent, [f], stream);
    OneOfStream(f, stream);
  }

  lemma BehindFront(front: seq<Queued>, f: Queued, back: seq<Queued>, stream: U32)
    ensures OfStream(front + ([f] + back), stream) == OfStream(front, stream) + (Only(f, stream) + OfStream(back, stream))
  {
    OfStreamAppend(front, [f] + back, stream);
    OfStreamAppend([f], back, stream);
    OneOfStream(f, stream);
  }

  /** Taking out the first frame of a stream takes the head off that stream's list. */
  lemma TakenOut(front: seq<Queued>, f: Queued, back: seq<Queued>, stream: U32)
    requires forall i :: 0 <= i < |front| ==> front[i].stream != f.stream
    ensures OfStream(front + ([f] + back), stream) == Only(f, stream) + OfStream(front + back, stream)
  {
    BehindFront(front, f, back, stream);
    OfStreamAppend(front, back, stream);
    Unit(OfStream(back, stream));
    if f.stream == stream {
      NoneOfStream(front, stream);
      Unit([f] + OfStream(back, stream));
    } else {
      Unit(OfStream(front, stream) + OfStream(back, stream));
    }
  }

  lemma Moved(sent: seq<Queued>, front: seq<Queued>, f: Queued, back: seq<Queued>, stream: U32)
    requires forall i :: 0 <= i < |front| ==> front[i].stream != f.stream
    ensures OfStream(sent + [f], stream) + OfStream(front + back, stream) ==
            OfStream(sent, stream) + OfStream(front + ([f] + back), stream)
  {
    TakenOut(front, f, back, stream);
    SentOfStream(sent, f, stream);
    Shift(OfStream(sent, stream), Only(f, stream), OfStream(front + back, stream));
  }

  lemma DequeueConserves(s: Scheduler, now: U64, stream: U32)
    requires Ordered(s) && Conserved(s, stream) && MostUrgent(s.queue, now) < |s.queue|
    ensures Conserved(Dequeue(s, now).0, stream)
  {
    var k := MostUrgent(s.queue, now);
    ChosenIsFirstOfItsStream(s, now);
    assert s.queue == s.queue[..k] + ([s.queue[k]] + s.queue[k + 1..]);
    Moved(s.sent, s.queue[..k], s.queue[k], s.queue[k + 1..], stream);
  }

  lemma DequeueOrdered(s: Scheduler, now: U64)
    requires Ordered(s)
    ensures Ordered(Dequeue(s, now).0)
  {
    var k := MostUrgent(s.queue, now);
    if k < |s.queue| {
      var q := s.queue[..k] + s.queue[k + 1..];
      assert forall i :: 0 <= i < |q| ==> q[i] == if i < k then s.queue[i] else s.queue[i + 1];
    }
  }

  lemma DequeueGood(s: Scheduler, now: U64)
    requires Good(s)
    ensures Good(Dequeue(s, now).0)
  {
    DequeueOrdered(s, now);
    if MostUrgent(s.queue, now) < |s.queue| {
      forall stream: U32 ensures Conserved(Dequeue(s, now).0, stream) {
        DequeueConserves(s, now, stream);
      }
    }
  }

  lemma {:induction false} RunGood(ops: seq<Op>)
    requires AllSized(ops)
    ensures Good(Run(EMPTY, ops))
    decreases |ops|
  {
    if ops != [] {
      var n := |ops| - 1;
      RunGood(ops[..n]);
      var s := Run(EMPTY, ops[..n]);
      match ops[n]
      case RegisterOp(stream, shaper) => RegisterGood(s, stream, shaper);
      case EnqueueOp(stream, arrival, payload) => EnqueueGood(s, stream, arrival, payload);
      case DequeueOp(now) => DequeueGood(s, now);
    } else {
      forall stream: U32 ensures Conserved(EMPTY, stream) {
        assert OfStream([], stream) == [];
      }
    }
  }

  /** Over any run the frames of a stream leave in the order they were accepted, each at most once, none lost. */
  lemma StreamsLeaveInOrder(ops: seq<Op>, stream: U32)
    requires AllSized(ops)
    ensures var s := Run(EMPTY, ops); OfStream(s.sent, stream) + OfStream(s.queue, stream) == OfStream(s.accepted, stream)
    ensures Run(EMPTY, ops).queue == [] ==> OfStream(Run(EMPTY, ops).sent, stream) == OfStream(Run(EMPTY, ops).accepted, stream)
  {
    RunGood(ops);
    assert Conserved(Run(EMPTY, ops), stream);
    assert OfStream([], stream) == [];
  }

  /** A frame leaves only at or after its eligibility time, and never while a due frame is more urgent. */
  lemma NeverEarly(s: Scheduler, now: U64)
    ensures var (r, f) := Dequeue(s, now);
            && (f.Some? ==> f.value.eligible <= now && r.sent == s.sent + [f.value])
            && (f.Some? ==> forall i :: 0 <= i < |s.queue| && s.queue[i].eligible <= now ==> f.value.eligible <= s.queue[i].eligible)
            && (f.None? <==> forall i :: 0 <= i < |s.queue| ==> s.queue[i].eligible > now)
  {
    MostUrgentIsFirstLeast(s.queue, now);
  }

  // ------------------------------------------------------- one stream's shaping

  /** The stream's accepted frames as its shaper saw them. */
  function Seen(fs: seq<Queued>): seq<A.Frame> {
    seq(|fs|, i requires 0 <= i < |fs| => A.Frame(fs[i].length, fs[i].arrival))
  }

  lemma SeenStep(accepted: seq<Queued>, f: Queued, stream: U32)
    ensures Seen(OfStream(accepted + [f], stream)) ==
            Seen(OfStream(accepted, stream)) + if f.stream == stream then [A.Frame(f.length, f.arrival)] else []
  {
    OfStreamAppend(accepted, [f], stream);
    OneOfStream(f, stream);
  }

  lemma AfterSnoc(shaper: A.Shaper, fs: seq<A.Frame>, f: A.Frame)
    ensures A.After(shaper, fs + [f]) == A.Arrive(A.After(shaper, fs), f)
  {
    assert (fs + [f])[..|fs|] == fs;
  }

  /** The stream's shaper is where `first` gets to by the frames accepted for the stream. */
  ghost predicate ShapedBy(s: Scheduler, stream: U32, first: A.Shaper) {
    stream in s.shapers && s.shapers[stream] == A.After(first, Seen(OfStream(s.accepted, stream)))
  }

  lemma EnqueueShapes(s: Scheduler, stream: U32, first: A.Shaper, to: U32, arrival: U64, payload: seq<U8>)
    requires ShapedBy(s, stream, first) && |payload| < 0x1_0000_0000_0000_0000
    ensures ShapedBy(Enqueue(s, to, arrival, payload), stream, first)
  {
    if to in s.shapers {
      var f := Stamped(s, to, arrival, payload);
      SeenStep(s.accepted, f, stream);
      AfterSnoc(first, Seen(OfStream(s.accepted, stream)), A.Frame(f.length, f.arrival));
      assert Seen(OfStream(s.accepted, stream)) + [] == Seen(OfStream(s.accepted, stream));
    }
  }

  /**
   A registered stream is shaped by the shaper first registered for it and by nothing
   else, whatever other streams do and however often it is registered again.
   */
  lemma {:induction false} FirstRegistrationStands(s: Scheduler, ops: seq<Op>, stream: U32)
    requires AllSized(ops) && stream in s.shapers && OfStream(s.accepted, stream) == []
    ensures ShapedBy(Run(s, ops), stream, s.shapers[stream])
    decreases |ops|
  {
    if ops == [] {
      assert Seen([]) == [];
    } else {
      var n := |ops| - 1;
      FirstRegistrationStands(s, ops[..n], stream);
      match ops[n]
      case EnqueueOp(to, arrival, payload) =>
        EnqueueShapes(Run(s, ops[..n]), stream, s.shapers[stream], to, arrival, payload);
      case RegisterOp(_, _) =>
      case DequeueOp(_) =>
    }
  }

  // --------------------------------------------- the traffic of a registered stream

  /** Every accepted frame of the stream carries the time the shaper `first` gives it in that sequence. */
  ghost predicate StampedBy(s: Scheduler, stream: U32, first: A.Shaper) {
    var fs := OfStream(s.accepted, stream);
    forall k :: 0 <= k < |fs| ==> fs[k].eligible == A.EligibleAt(first, Seen(fs), k)
  }

  lemma StampExtended(fs: seq<Queued>, f: Queued, first: A.Shaper)
    requires forall k :: 0 <= k < |fs| ==> fs[k].eligible == A.EligibleAt(first, Seen(fs), k)
    requires f.eligible == A.Eligible(A.After(first, Seen(fs)), A.Frame(f.length, f.arrival))
    ensures forall k :: 0 <= k < |fs + [f]| ==> (fs + [f])[k].eligible == A.EligibleAt(first, Seen(fs + [f]), k)
  {
    forall k | 0 <= k < |fs + [f]| ensures (fs + [f])[k].eligible == A.EligibleAt(first, Seen(fs + [f]), k) {
      assert Seen(fs + [f])[..|fs|] == Seen(fs);
      if k < |fs| {
        A.EarlierFrames(first, Seen(fs + [f]), |fs|, k);
      }
    }
  }

  lemma EnqueueStamps(s: Scheduler, stream: U32, first: A.Shaper, to: U32, arrival: U64, payload: seq<U8>)
    requires ShapedBy(s, stream, first) && StampedBy(s, stream, first) && |payload| < 0x1_0000_0000_0000_0000
    ensures StampedBy(Enqueue(s, to, arrival, payload), stream, first)
  {
    if to in s.shapers {
      var f := Stamped(s, to, arrival, payload);
      OfStreamAppend(s.accepted, [f], stream);
      OneOfStream(f, stream);
      if to == stream {
        StampExtended(OfStream(s.accepted, stream), f, first);
      } else {
        Unit(OfStream(s.accepted, stream));
      }
    }
  }

  lemma {:induction false} RunStamps(s: Scheduler, ops: seq<Op>, stream: U32)
    requires AllSized(ops) && stream in s.shapers && OfStream(s.accepted, stream) == []
    ensures StampedBy(Run(s, ops), stream, s.shapers[stream])
    decreases |ops|
  {
    if ops != [] {
      var n := |ops| - 1;
      RunStamps(s, ops[..n], stream);
      FirstRegistrationStands(s, ops[..n], stream);
      match ops[n]
      case EnqueueOp(to, arrival, payload) =>
        EnqueueStamps(Run(s, ops[..n]), stream, s.shapers[stream], to, arrival, payload);
      case RegisterOp(_, _) =>
      case DequeueOp(_) =>
    }
  }

  lemma {:induction false} OnlyRegisteredAccepted(ops: seq<Op>, stream: U32)
    requires AllSized(ops)
    ensures stream !in Run(EMPTY, ops).shapers ==> OfStream(Run(EMPTY, ops).accepted, stream) == []
    decreases |ops|
  {
    if ops != [] {
      var n := |ops| - 1;
      OnlyRegisteredAccepted(ops[..n], stream);
      var s := Run(EMPTY, ops[..n]);
      match ops[n]
      case EnqueueOp(to, arrival, payload) =>
        if to in s.shapers {
          OfStreamAppend(s.accepted, [Stamped(s, to, arrival, payload)], stream);
          OneOfStream(Stamped(s, to, arrival, payload), stream);
        }
      case RegisterOp(_, _) =>
      case DequeueOp(_) =>
    }
  }

  function TotalLength(fs: seq<Queued>, i: nat, j: nat): nat
    requires i <= j <= |fs|
  {
    if i == j then 0 else TotalLength(fs, i, j - 1) + fs[j - 1].length
  }

  lemma {:induction false} TotalIsBytes(fs: seq<Queued>, i: nat, j: nat)
    requires i <= j <= |fs|
    ensures TotalLength(fs, i, j) == A.Bytes(Seen(fs), i, j)
    decreases j
  {
    if i < j {
      TotalIsBytes(fs, i, j - 1);
    }
  }

  lemma {:induction false} StampedTrafficIsBounded(fs: seq<Queued>, rate: U64, burst: U32, i: nat, j: nat)
    requires forall k :: 0 <= k < |fs| ==> fs[k].eligible == A.EligibleAt(A.Fresh(rate, burst), Seen(fs), k)
    requires rate > 0 && i < j < |fs| && fs[j].eligible < A.U64_MAX
    ensures A.WithinContract(TotalLength(fs, i, j + 1), burst, rate, fs[j].eligible - fs[i].eligible)
  {
    A.FreshTrafficIsBounded(rate, burst, Seen(fs), i, j);
    TotalIsBytes(fs, i, j + 1);
  }

  /** The frames accepted of a stream that was registered with that rate and burst between two stretches of a run. */
  function Traffic(before: seq<Op>, stream: U32, rate: U64, burst: U32, after: seq<Op>): seq<Queued>
    requires (forall i :: 0 <= i < |before| ==> Sized(before[i])) && forall i :: 0 <= i < |after| ==> Sized(after[i])
  {
    OfStream(Run(Register(Run(EMPTY, before), stream, A.Fresh(rate, burst)), after).accepted, stream)
  }

  lemma TrafficIsStamped(before: seq<Op>, stream: U32, rate: U64, burst: U32, after: seq<Op>, fs: seq<Queued>)
    requires AllSized(before) && AllSized(after) && stream !in Run(EMPTY, before).shapers
    requires fs == Traffic(before, stream, rate, burst, after)
    ensures forall k :: 0 <= k < |fs| ==> fs[k].eligible == A.EligibleAt(A.Fresh(rate, burst), Seen(fs), k)
  {
    OnlyRegisteredAccepted(before, stream);
    RunStamps(Register(Run(EMPTY, before), stream, A.Fresh(rate, burst)), after, stream);
  }

  /**
   The traffic contract of a registered stream, over any run before and after its
   registration: between any two of its frames, the bits released are at most its burst, its
   committed rate times the time between the two, and less than one microsecond's rounding.
   */
  lemma {:induction false} RegisteredTrafficIsBounded(before: seq<Op>, stream: U32, rate: U64, burst: U32, after: seq<Op>,
                                                      fs: seq<Queued>, i: nat, j: nat)
    requires AllSized(before) && AllSized(after) && rate > 0 && stream !in Run(EMPTY, before).shapers
    requires fs == Traffic(before, stream, rate, burst, after) && i < j < |fs| && fs[j].eligible < A.U64_MAX
    ensures A.WithinContract(TotalLength(fs, i, j + 1), burst, rate, fs[j].eligible - fs[i].eligible)
  {
    TrafficIsStamped(before, stream, rate, burst, after, fs);
    StampedTrafficIsBounded(fs, rate, burst, i, j);
  }

  // ----------------------------------------------------------------- step by step

  class UrgencyBasedScheduler {
    var shapers: map<U32, A.Shaper>
    var queue: seq<Queued>
    var transmitted: U64
    ghost var accepted: seq<Queued>
    ghost var sent: seq<Queued>

    ghost function View(): Scheduler
      reads this
    {
      Scheduler(shapers, queue, accepted, sent)
    }

    constructor ()
      ensures View() == EMPTY && transmitted == 0
    {
      shapers, queue, transmitted, accepted, sent := map[], [], 0, [], [];
    }

    method RegisterShaper(stream: U32, shaper: A.Shaper) returns (added: bool)
      modifies this`shapers
      ensures View() == Register(old(View()), stream, shaper) && added == (stream !in old(shapers))
    {
      added := stream !in shapers;
      if added {
        shapers := shapers[stream := shaper];
      }
    }

    method EnqueueFrame(stream: U32, arrival: U64, payload: seq<U8>) returns (et: Option<U64>)
      requires |payload| < 0x1_0000_0000_0000_0000
      modifies this`shapers, this`queue, this`accepted
      ensures View() == Enqueue(old(View()), stream, arrival, payload)
      ensures et == if stream in old(shapers) then Some(shapers[stream].lastEligible) else None
    {
      if stream !in shapers {
        return None;
      }
      ghost var f := Stamped(View(), stream, arrival, payload);
      var shaper := A.Arrive(shapers[stream], A.Frame(|payload|, arrival));
      shapers := shapers[stream := shaper];
      queue := queue + [Queued(stream, |payload|, arrival, shaper.lastEligible, payload)];
      accepted := accepted + [f];
      return Some(shaper.lastEligible);
    }

    /** Scans the queue for the first due frame with the least eligibility time and takes it out. */
    method DequeueEligibleFrame(now: U64) returns (r: Option<Queued>)
      modifies this`queue, this`transmitted, this`sent
      ensures (View(), r) == Dequeue(old(View()), now)
      ensures transmitted == if r.Some? && old(transmitted) < A.U64_MAX then old(transmitted) + 1 else old(transmitted)
    {
      var best := None;
      for i := 0 to |queue|
        invariant best == (if MostUrgent(queue[..i], now) == i then None else Some(MostUrgent(queue[..i], now)))
      {
        assert queue[..i + 1][..i] == queue[..i];
        if queue[i].eligible <= now && (best.None? || queue[i].eligible < queue[best.value].eligible) {
          best := Some(i);
        }
      }
      assert queue[..|queue|] == queue;
      if best.None? {
        return None;
      }
      var k := best.value;
      r := Some(queue[k]);
      queue := queue[..k] + queue[k + 1..];
      transmitted := A.Min(transmitted + 1, A.U64_MAX);
      sent := sent + [r.value];
    }
  }
}
