/**
 Loc-RIB coherence over whole runs, graceful-restart retention included: exactly which
 steps break it.
 */
module CoherentRuns {
  import opened BgpTypes
  import opened Propagation
  import opened Speaker
  import opened SpeakerRuns
  import opened PeerSessions
  import opened Coherence
  import opened Reannouncement
  import opened ReplacementOpen
  import opened RepeatedUpdates

  /** The step changes which stored paths are stale, and the flag is clear afterwards. */
  ghost predicate Hidden(s: Speaker, op: Op) {
    Reclassifies(s, op) && !Apply(s, op).dirty
  }

  /** No circle of preference among the paths concerned, and the clock does not run backwards. */
  ghost predicate Decisive(s: Speaker, op: Op) {
    match op
    case Receive(addr, u, now) => addr in s.peers ==> Comparable(s, addr, Repeated(s, addr, u), now)
    case Open(addr, _, _, _, _) => NoCircles(s, addr)
    case _ => true
  }

  /** What can be read off before the step. */
  ghost predicate HarmlessStep(s: Speaker, op: Op) {
    match op
    case Receive(addr, u, now) => addr in s.peers ==> AllHarmless(s, addr, Repeated(s, addr, u), now)
    case Open(addr, _, _, _, now) => addr in s.peers ==> HarmlessThroughout(s, addr, now)
    case _ => true
  }

  ghost predicate CleanIsCoherent(s: Speaker) {
    !s.dirty ==> Coherent(s)
  }

  lemma HiddenStep(s: Speaker, op: Op)
    requires WellKeyed(s) && Coherent(s) && !s.dirty && Hidden(s, op) && Decisive(s, op)
    ensures Coherent(Apply(s, op)) <==> HarmlessStep(s, op)
  {
    match op
    case Receive(addr, u, now) => UpdateIsCoherentIff(s, addr, u, now);
    case Open(addr, routerId, families, gr, now) => OpenIsCoherentIff(s, addr, routerId, families, gr, now);
  }

  lemma CleanBefore(s: Speaker, op: Op)
    requires WellKeyed(s) && Hidden(s, op)
    ensures !s.dirty
  {
    OpFlagged(s, op);
  }

  lemma StepKeyed(s: Speaker, op: Op)
    requires WellKeyed(s)
    ensures WellKeyed(Apply(s, op))
  {
    if op.Poll? {
      AscendingMembers(s.peers.Keys);
      ExpireFlagged(s, Ascending(s.peers.Keys), op.now);
    } else {
      OpFlagged(s, op);
    }
  }

  lemma StepIff(s: Speaker, op: Op)
    requires WellKeyed(s) && CleanIsCoherent(s) && (Hidden(s, op) ==> Decisive(s, op))
    ensures CleanIsCoherent(Apply(s, op)) <==> (Hidden(s, op) ==> HarmlessStep(s, op))
  {
    if Hidden(s, op) {
      CleanBefore(s, op);
      HiddenStep(s, op);
    } else if !Apply(s, op).dirty {
      StepCoherent(s, op);
    }
  }

  // -------------------------------------------------------------------- runs

  ghost predicate AlwaysDecisive(s: Speaker, ops: seq<Op>) {
    forall k :: 0 <= k < |ops| ==> Hidden(Run(s, ops[..k]), ops[k]) ==> Decisive(Run(s, ops[..k]), ops[k])
  }

  /** No step of the run hides a change that matters. */
  ghost predicate AlwaysHarmless(s: Speaker, ops: seq<Op>) {
    forall k :: 0 <= k < |ops| ==> Hidden(Run(s, ops[..k]), ops[k]) ==> HarmlessStep(Run(s, ops[..k]), ops[k])
  }

  ghost predicate AlwaysCoherent(s: Speaker, ops: seq<Op>) {
    forall k :: 0 <= k <= |ops| ==> CleanIsCoherent(Run(s, ops[..k]))
  }

  lemma RunNext(s: Speaker, ops: seq<Op>, k: nat)
    requires k < |ops|
    ensures Run(s, ops[..k + 1]) == Apply(Run(s, ops[..k]), ops[k])
  {
    assert ops[..k + 1][..k] == ops[..k];
  }

  lemma {:induction false} RunKeyed(s: Speaker, ops: seq<Op>)
    requires Initial(s)
    ensures WellKeyed(Run(s, ops))
    decreases |ops|
  {
    if ops != [] {
      RunKeyed(s, ops[..|ops| - 1]);
      StepKeyed(Run(s, ops[..|ops| - 1]), ops[|ops| - 1]);
    }
  }

  lemma {:induction false} HarmlessStaysCoherent(s: Speaker, ops: seq<Op>, k: nat)
    requires Initial(s) && AlwaysDecisive(s, ops) && AlwaysHarmless(s, ops) && k <= |ops|
    ensures CleanIsCoherent(Run(s, ops[..k]))
    decreases k
  {
    if k > 0 {
      HarmlessStaysCoherent(s, ops, k - 1);
      RunKeyed(s, ops[..k - 1]);
      RunNext(s, ops, k - 1);
      StepIff(Run(s, ops[..k - 1]), ops[k - 1]);
    }
  }

  lemma CoherentIsHarmless(s: Speaker, ops: seq<Op>, k: nat)
    requires Initial(s) && AlwaysDecisive(s, ops) && AlwaysCoherent(s, ops) && k < |ops|
    ensures Hidden(Run(s, ops[..k]), ops[k]) ==> HarmlessStep(Run(s, ops[..k]), ops[k])
  {
    RunKeyed(s, ops[..k]);
    RunNext(s, ops, k);
    assert CleanIsCoherent(Run(s, ops[..k])) && CleanIsCoherent(Run(s, ops[..k + 1]));
    StepIff(Run(s, ops[..k]), ops[k]);
  }

  /**
   In every run from the start, retention or not: a clear flag always means that the Loc-RIB is
   what the decision process would compute, up to the time of receipt, if and only if every
   announcement and replacement OPEN that changes what is stale without setting the flag is
   harmless.
   */
  lemma CoherentThroughoutIff(s: Speaker, ops: seq<Op>)
    requires Initial(s) && AlwaysDecisive(s, ops)
    ensures AlwaysCoherent(s, ops) <==> AlwaysHarmless(s, ops)
  {
    if AlwaysHarmless(s, ops) {
      forall k | 0 <= k <= |ops| ensures CleanIsCoherent(Run(s, ops[..k])) {
        HarmlessStaysCoherent(s, ops, k);
      }
    }
    if AlwaysCoherent(s, ops) {
      forall k | 0 <= k < |ops| ensures Hidden(Run(s, ops[..k]), ops[k]) ==> HarmlessStep(Run(s, ops[..k]), ops[k]) {
        CoherentIsHarmless(s, ops, k);
      }
    }
  }

  lemma RunThenPoll(s: Speaker, ops: seq<Op>, now: nat)
    ensures Run(s, ops + [Poll(now)]) == PollTail(Run(s, ops), now)
  {
    assert (ops + [Poll(now)])[..|ops|] == ops;
  }

  /** So it is after every poll of such a run. */
  lemma PollLeavesLocRibCoherent(s: Speaker, ops: seq<Op>, now: nat)
    requires Initial(s) && AlwaysDecisive(s, ops) && AlwaysHarmless(s, ops)
    ensures Coherent(Run(s, ops + [Poll(now)])) && !Run(s, ops + [Poll(now)]).dirty
  {
    HarmlessStaysCoherent(s, ops, |ops|);
    assert ops[..|ops|] == ops;
    RunKeyed(s, ops);
    PollCoherent(Run(s, ops), now);
    RunThenPoll(s, ops, now);
  }

  /** Every run without retained peers is such a run. */
  lemma NothingRetainedNothingHidden(s: Speaker, ops: seq<Op>)
    requires NeverRetains(s, ops)
    ensures AlwaysDecisive(s, ops) && AlwaysHarmless(s, ops)
  {
    NothingRetainedNothingReclassified(s, ops);
    assert NeverReclassifies(s, ops);
  }
}
