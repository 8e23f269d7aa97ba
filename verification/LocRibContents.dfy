/**
 What the Loc-RIB holds, said in terms of the stored paths and the originated networks
 alone: which prefixes it serves, and with which path.
 */
module LocRibContents {
  import opened BgpTypes
  import opened Propagation
  import opened Speaker
  import opened SpeakerRuns
  import opened Coherence
  import opened Reannouncement
  import opened CoherentRuns
  import Decision

  /** Some peer's path for the prefix is stored. */
  ghost predicate Stored(s: Speaker, p: Prefix) {
    exists a :: a in s.adjRibIn && p in s.adjRibIn[a]
  }

  /** Kept from a session of this peer that was lost, and not announced again since the replacement OPEN. */
  predicate LeftOver(s: Speaker, a: Address, x: BgpPath) {
    && a in s.peers && Family(1, 1) in s.peers[a].grStale
    && (s.peers[a].grCutoff.Some? ==> x.receivedAt < s.peers[a].grCutoff.value)
  }

  ghost predicate StoredFresh(s: Speaker, p: Prefix) {
    exists a :: a in s.adjRibIn && p in s.adjRibIn[a] && !LeftOver(s, a, s.adjRibIn[a][p])
  }

  /** A network of our own: nothing in front of it on the path, and above everything learned. */
  predicate OwnNetwork(x: BgpPath, p: Prefix, nextHop: Address, routerId: Address) {
    && x.prefix == p && x.source.Local? && x.nextHop == nextHop && x.asPath.segments == [] && x.origin.Igp?
    && x.localPref == 100 && x.med.None? && x.peerRouterId == routerId && x.peerAddr == UNSPECIFIED
    && x.originatorId.None? && x.clusterList == [] && !x.atomicAggregate && !x.fromClient
  }

  /** Left-over paths count only where nothing fresh is stored. */
  ghost predicate Counts(s: Speaker, p: Prefix, a: Address) {
    a in s.adjRibIn && p in s.adjRibIn[a] && (StoredFresh(s, p) ==> !LeftOver(s, a, s.adjRibIn[a][p]))
  }

  /** What the entry for a prefix must be. */
  ghost predicate RightEntry(s: Speaker, p: Prefix, entry: Option<BgpPath>) {
    if p in s.originated then entry.Some? && OwnNetwork(entry.value, p, s.originated[p], s.me.routerId)
    else
      && (entry.Some? <==> Stored(s, p))
      && (entry.Some? ==>
            var x := entry.value;
            && Counts(s, p, x.peerAddr) && s.adjRibIn[x.peerAddr][p] == x
            && (forall a :: Counts(s, p, a) ==> Decision.PreferredBeforeMed(x, s.adjRibIn[a][p]))
            && (forall a: Address :: Counts(s, p, a) && a > x.peerAddr ==> !Decision.Outranks(s.adjRibIn[a][p], x)))
  }

  lemma StoredPrefixes(s: Speaker, p: Prefix)
    ensures p in AllPrefixes(s) <==> p in s.originated || Stored(s, p)
  {}

  lemma LearnedIffStored(s: Speaker, p: Prefix)
    requires WellKeyed(s)
    ensures Learned(s, p) != [] <==> Stored(s, p)
    ensures Fresh(s, Learned(s, p)) != [] <==> StoredFresh(s, p)
  {
    FreshHolds(s, p);
    LearnedHolds(s, p);
    if Learned(s, p) != [] {
      assert Learned(s, p)[0] in Learned(s, p) && Holds(s, p, Learned(s, p)[0]);
    }
    if a :| a in s.adjRibIn && p in s.adjRibIn[a] {
      assert Holds(s, p, s.adjRibIn[a][p]);
    }
    FreshOneStored(s, p);
  }

  lemma FreshOneStored(s: Speaker, p: Prefix)
    requires WellKeyed(s)
    ensures Fresh(s, Learned(s, p)) != [] <==> StoredFresh(s, p)
  {
    FreshHolds(s, p);
    var fs := Fresh(s, Learned(s, p));
    if fs != [] {
      assert fs[0] in fs && Holds(s, p, fs[0]);
    }
    if a :| a in s.adjRibIn && p in s.adjRibIn[a] && !LeftOver(s, a, s.adjRibIn[a][p]) {
      assert KeyedTable(a, s.adjRibIn[a]);
      assert Holds(s, p, s.adjRibIn[a][p]) && s.adjRibIn[a][p] in fs;
    }
  }

  lemma PoolCounts(s: Speaker, p: Prefix)
    requires WellKeyed(s)
    ensures forall x :: x in Pool(s, p) <==> Counts(s, p, x.peerAddr) && s.adjRibIn[x.peerAddr][p] == x
    ensures Pool(s, p) != [] <==> Stored(s, p)
    ensures forall x :: x in Pool(s, p) ==> !x.source.Local?
  {
    LearnedIffStored(s, p);
    LearnedHolds(s, p);
    FreshHolds(s, p);
  }

  lemma CountsInPool(s: Speaker, p: Prefix, a: Address)
    requires WellKeyed(s) && Counts(s, p, a)
    ensures s.adjRibIn[a][p] in Pool(s, p)
  {
    PoolCounts(s, p);
    assert s.adjRibIn[a][p].peerAddr == a;
  }

  /** In the order of the peers' addresses. */
  ghost predicate ByPeer(ps: seq<BgpPath>) {
    forall i, j :: 0 <= i < j < |ps| ==> ps[i].peerAddr < ps[j].peerAddr
  }

  lemma {:induction false} GatherFrom(rib: map<Address, Table>, addrs: seq<Address>, p: Prefix)
    requires forall a :: a in rib ==> KeyedTable(a, rib[a])
    ensures forall x :: x in Gather(rib, addrs, p) ==> x.peerAddr in addrs
    decreases |addrs|
  {
    if addrs != [] {
      GatherFrom(rib, addrs[1..], p);
    }
  }

  lemma {:induction false} GatherByPeer(rib: map<Address, Table>, addrs: seq<Address>, p: Prefix)
    requires forall a :: a in rib ==> KeyedTable(a, rib[a])
    requires forall i, j :: 0 <= i < j < |addrs| ==> addrs[i] < addrs[j]
    ensures ByPeer(Gather(rib, addrs, p))
    decreases |addrs|
  {
    if addrs != [] {
      GatherByPeer(rib, addrs[1..], p);
      GatherFrom(rib, addrs[1..], p);
    }
  }

  lemma {:induction false} FreshByPeer(s: Speaker, ps: seq<BgpPath>)
    requires ByPeer(ps)
    ensures ByPeer(Fresh(s, ps)) && forall x :: x in Fresh(s, ps) ==> x in ps
    decreases |ps|
  {
    if ps != [] {
      FreshByPeer(s, ps[1..]);
      assert forall x :: x in ps[1..] ==> ps[0].peerAddr < x.peerAddr;
    }
  }

  lemma PoolByPeer(s: Speaker, p: Prefix)
    requires WellKeyed(s)
    ensures ByPeer(Pool(s, p))
  {
    AscendingIsAscending(s.adjRibIn.Keys);
    GatherByPeer(s.adjRibIn, Ascending(s.adjRibIn.Keys), p);
    FreshByPeer(s, Learned(s, p));
  }

  lemma LaterPeers(s: Speaker, p: Prefix, a: Address)
    requires WellKeyed(s) && Counts(s, p, a)
    ensures Decision.SelectBest(Pool(s, p)).Some?
    ensures var x := Decision.SelectBest(Pool(s, p)).value; a > x.peerAddr ==> !Decision.Outranks(s.adjRibIn[a][p], x)
  {
    CountsInPool(s, p, a);
    PoolByPeer(s, p);
    var i := Decision.NoLaterPathOutranks(Pool(s, p));
    var j :| 0 <= j < |Pool(s, p)| && Pool(s, p)[j] == s.adjRibIn[a][p];
    assert KeyedTable(a, s.adjRibIn[a]);
  }

  lemma LearnedWinner(s: Speaker, p: Prefix)
    requires WellKeyed(s) && p !in s.originated
    ensures RightEntry(s, p, Winner(s, p))
  {
    assert Candidates(s, p) == Pool(s, p) + [] == Pool(s, p);
    PoolCounts(s, p);
    Decision.SelectedIsACandidate(Pool(s, p));
    forall a: Address | Counts(s, p, a) && Winner(s, p).Some?
      ensures Decision.PreferredBeforeMed(Winner(s, p).value, s.adjRibIn[a][p])
      ensures a > Winner(s, p).value.peerAddr ==> !Decision.Outranks(s.adjRibIn[a][p], Winner(s, p).value)
    {
      CountsInPool(s, p, a);
      Decision.SelectedIsPreferred(Pool(s, p), s.adjRibIn[a][p]);
      LaterPeers(s, p, a);
    }
  }

  lemma OwnWinner(s: Speaker, p: Prefix)
    requires WellKeyed(s) && p in s.originated
    ensures RightEntry(s, p, Winner(s, p))
  {
    PoolCounts(s, p);
    LocalWins(Pool(s, p), LocalPath(p, s.originated[p], s.me.routerId));
  }

  function Look(t: Table, p: Prefix): Option<BgpPath> {
    if p in t then Some(t[p]) else None
  }

  /**
   The decision process serves exactly the originated and the stored prefixes. An originated
   one has the speaker's own path, any other one stored path, fresh if a fresh one is stored,
   and preferred to all that count.
   */
  lemma DecisionContents(s: Speaker, p: Prefix)
    requires WellKeyed(s)
    ensures RightEntry(s, p, Look(RunDecision(s).locRib, p))
    ensures p in RunDecision(s).locRib <==> p in s.originated || Stored(s, p)
  {
    StoredPrefixes(s, p);
    if p in s.originated {
      OwnWinner(s, p);
    } else {
      LearnedWinner(s, p);
    }
  }

  // -------------------------------------------------------------------- runs

  /** Every entry is an own network or a route that is stored, and everything originated or stored has one. */
  ghost predicate BackedAt(s: Speaker, p: Prefix) {
    && (p in s.locRib <==> p in s.originated || Stored(s, p))
    && (p in s.originated ==> p in s.locRib && OwnNetwork(s.locRib[p], p, s.originated[p], s.me.routerId))
    && (p in s.locRib && p !in s.originated ==>
          !s.locRib[p].source.Local?
          && exists a :: a in s.adjRibIn && p in s.adjRibIn[a] && s.locRib[p].SameRouteAs(s.adjRibIn[a][p]))
  }

  ghost predicate Backed(s: Speaker) {
    forall p :: BackedAt(s, p)
  }

  lemma DecisionBacked(s: Speaker)
    requires WellKeyed(s)
    ensures Backed(RunDecision(s))
  {
    var r := RunDecision(s);
    forall p ensures BackedAt(r, p) {
      DecisionContents(s, p);
      if p !in s.originated && p in r.locRib {
        var x := r.locRib[p];
        assert x.SameRouteAs(s.adjRibIn[x.peerAddr][p]);
        assert KeyedTable(x.peerAddr, s.adjRibIn[x.peerAddr]);
      }
    }
  }

  lemma StaysBacked(s: Speaker, r: Speaker)
    requires Backed(s) && SameInputs(s, r) && r.locRib == s.locRib
    ensures Backed(r)
  {
    forall p ensures BackedAt(r, p) {
      assert BackedAt(s, p);
      if a :| a in s.adjRibIn && p in s.adjRibIn[a] {
        assert SameRib(s.adjRibIn[a], r.adjRibIn[a]) && p in r.adjRibIn[a];
      }
      if a :| a in r.adjRibIn && p in r.adjRibIn[a] {
        assert SameRib(s.adjRibIn[a], r.adjRibIn[a]) && p in s.adjRibIn[a];
      }
      if p in s.locRib && p !in s.originated {
        var a :| a in s.adjRibIn && p in s.adjRibIn[a] && s.locRib[p].SameRouteAs(s.adjRibIn[a][p]);
        assert SameRib(s.adjRibIn[a], r.adjRibIn[a]) && s.adjRibIn[a][p].SameRouteAs(r.adjRibIn[a][p]);
      }
    }
  }

  lemma FlaggedStaysBacked(s: Speaker, r: Speaker)
    requires Flagged(s, r) && (!s.dirty ==> Backed(s))
    ensures !r.dirty ==> Backed(r)
  {
    if !r.dirty {
      StaysBacked(s, r);
    }
  }

  lemma PollBacked(s: Speaker, now: nat)
    requires WellKeyed(s) && (!s.dirty ==> Backed(s))
    ensures Backed(PollTail(s, now)) && !PollTail(s, now).dirty
  {
    AscendingMembers(s.peers.Keys);
    var s1 := ExpireAll(s, now);
    ExpireFlagged(s, Ascending(s.peers.Keys), now);
    if s1.dirty {
      DecisionBacked(s1);
    } else {
      FlaggedStaysBacked(s, s1);
    }
  }

  lemma StepBacked(s: Speaker, op: Op)
    requires WellKeyed(s) && (!s.dirty ==> Backed(s))
    ensures !Apply(s, op).dirty ==> Backed(Apply(s, op))
  {
    if op.Poll? {
      PollBacked(s, op.now);
    } else {
      OpFlagged(s, op);
      FlaggedStaysBacked(s, Apply(s, op));
    }
  }

  lemma {:induction false} RunBacked(s: Speaker, ops: seq<Op>)
    requires Initial(s)
    ensures WellKeyed(Run(s, ops)) && (!Run(s, ops).dirty ==> Backed(Run(s, ops)))
    decreases |ops|
  {
    RunKeyed(s, ops);
    if ops != [] {
      RunBacked(s, ops[..|ops| - 1]);
      StepBacked(Run(s, ops[..|ops| - 1]), ops[|ops| - 1]);
    }
  }

  /**
   After every poll of every run from the start, retention or not, the Loc-RIB serves exactly
   the originated and the stored prefixes, the originated ones with the speaker's own path and
   any other with a route that some peer has announced and not withdrawn.
   */
  lemma PollLeavesLocRibBacked(s: Speaker, ops: seq<Op>, now: nat)
    requires Initial(s)
    ensures Backed(Run(s, ops + [Poll(now)]))
  {
    RunBacked(s, ops);
    RunThenPoll(s, ops, now);
    PollBacked(Run(s, ops), now);
  }

  // ------------------------------------------------------------ own networks

  predicate Concerns(op: Op, p: Prefix) {
    (op.Network? || op.NoNetwork?) && op.prefix == p
  }

  /** What is originated for the prefix, and with which identifier. */
  predicate SameOrigination(s: Speaker, r: Speaker, p: Prefix) {
    && (p in s.originated <==> p in r.originated) && (p in s.originated ==> r.originated[p] == s.originated[p])
    && r.me.routerId == s.me.routerId
  }

  lemma FlaggedOrigination(s: Speaker, op: Op, p: Prefix)
    requires op.Network? || op.NoNetwork? || op.ClusterId? || op.Helper? || op.SetRole?
    requires !Concerns(op, p)
    ensures SameOrigination(s, Apply(s, op), p)
  {}

  lemma {:induction false} WithdrawOriginates(s: Speaker, addr: Address, ps: seq<Prefix>)
    ensures WithdrawAll(s, addr, ps).originated == s.originated && WithdrawAll(s, addr, ps).me == s.me
    decreases |ps|
  {
    if ps != [] {
      WithdrawOriginates(s, addr, ps[..|ps| - 1]);
    }
  }

  lemma {:induction false} AnnounceOriginates(s: Speaker, addr: Address, attrs: PathAttributes, ps: seq<Prefix>, now: nat)
    requires addr in s.peers
    ensures var r := AnnounceAll(s, addr, attrs, ps, now).0; r.originated == s.originated && r.me == s.me
    decreases |ps|
  {
    if ps != [] {
      AnnounceOriginates(s, addr, attrs, ps[..|ps| - 1], now);
    }
  }

  lemma ImportOriginates(s: Speaker, addr: Address, u: Update, now: nat)
    requires addr in s.peers
    ensures var r := ImportUpdate(s, addr, u, now).0; r.originated == s.originated && r.me == s.me
  {
    WithdrawOriginates(s, addr, u.withdrawn);
    if u.attributes.Some? {
      AnnounceOriginates(WithdrawAll(s, addr, u.withdrawn), addr, u.attributes.value, u.nlri, now);
    }
  }

  lemma {:induction false} ExpireOriginates(s: Speaker, addrs: seq<Address>, now: nat)
    requires forall i :: 0 <= i < |addrs| ==> addrs[i] in s.peers
    ensures ExpireIn(s, addrs, now).originated == s.originated && ExpireIn(s, addrs, now).me == s.me
    decreases |addrs|
  {
    if addrs != [] {
      ExpireOriginates(s, addrs[..|addrs| - 1], now);
    }
  }

  lemma MessageOriginates(s: Speaker, op: Op)
    requires op.Borr? || op.Eorr? || op.EndOfRib?
    ensures Apply(s, op).originated == s.originated && Apply(s, op).me == s.me
  {}

  lemma FlushOriginates(s: Speaker, addr: Address)
    requires addr in s.peers
    ensures Flush(s, addr).originated == s.originated && Flush(s, addr).me == s.me
  {}

  lemma NarrowOriginates(s: Speaker, addr: Address, kept: set<Family>, now: nat)
    requires addr in s.peers
    ensures Narrow(s, addr, kept, now).originated == s.originated && Narrow(s, addr, kept, now).me == s.me
  {}

  lemma ReconcileOriginates(s: Speaker, addr: Address, families: set<Family>, gr: Option<GrCapability>, now: nat)
    requires addr in s.peers
    ensures var r := ReconcileOpen(s, addr, families, gr, now); r.originated == s.originated && r.me == s.me
  {
    FlushOriginates(s, addr);
    if gr.Some? {
      NarrowOriginates(s, addr, s.peers[addr].grStale * Vouched(gr.value, families), now);
    }
  }

  lemma OpenOriginates(s: Speaker, op: Op)
    requires op.Open?
    ensures Apply(s, op).originated == s.originated && Apply(s, op).me == s.me
  {
    if op.addr in s.peers {
      ReconcileOriginates(s, op.addr, op.families, op.gr, op.now);
    }
  }

  lemma SessionOriginates(s: Speaker, op: Op)
    requires op.SendOpen? || op.Up? || op.Down? || op.Adoption? || op.Set?
    ensures Apply(s, op).originated == s.originated && Apply(s, op).me == s.me
  {}

  lemma StepOriginates(s: Speaker, op: Op, p: Prefix)
    requires !Concerns(op, p)
    ensures SameOrigination(s, Apply(s, op), p)
  {
    match op
    case Receive(addr, u, now) => if addr in s.peers { ImportOriginates(s, addr, u, now); }
    case Poll(now) => ExpireOriginates(s, AllPeers(s), now);
    case Borr(_) => MessageOriginates(s, op);
    case Eorr(_) => MessageOriginates(s, op);
    case EndOfRib(_, _) => MessageOriginates(s, op);
    case Open(_, _, _, _, _) => OpenOriginates(s, op);
    case Network(_, _) => FlaggedOrigination(s, op, p);
    case NoNetwork(_) => FlaggedOrigination(s, op, p);
    case ClusterId(_) => FlaggedOrigination(s, op, p);
    case Helper(_) => FlaggedOrigination(s, op, p);
    case SetRole(_, _) => FlaggedOrigination(s, op, p);
    case _ => SessionOriginates(s, op);
  }

  function AllPeers(s: Speaker): (addrs: seq<Address>)
    ensures forall i :: 0 <= i < |addrs| ==> addrs[i] in s.peers
  {
    AscendingMembers(s.peers.Keys);
    Ascending(s.peers.Keys)
  }

  lemma {:induction false} RunOriginates(s: Speaker, ops: seq<Op>, p: Prefix)
    requires forall i :: 0 <= i < |ops| ==> !Concerns(ops[i], p)
    ensures SameOrigination(s, Run(s, ops), p)
    decreases |ops|
  {
    if ops != [] {
      RunOriginates(s, ops[..|ops| - 1], p);
      StepOriginates(Run(s, ops[..|ops| - 1]), ops[|ops| - 1], p);
    }
  }

  lemma {:induction false} RunAppend(s: Speaker, ops: seq<Op>, more: seq<Op>)
    ensures Run(s, ops + more) == Run(Run(s, ops), more)
    decreases |more|
  {
    if more == [] {
      assert ops + more == ops;
    } else {
      var n := |more| - 1;
      assert (ops + more)[..|ops + more| - 1] == ops + more[..n];
      RunAppend(s, ops, more[..n]);
    }
  }

  lemma AfterOrigination(s: Speaker, before: seq<Op>, op: Op, after: seq<Op>, p: Prefix)
    requires forall i :: 0 <= i < |after| ==> !Concerns(after[i], p)
    ensures SameOrigination(Apply(Run(s, before), op), Run(s, before + [op] + after), p)
  {
    RunAppend(s, before + [op], after);
    RunAppend(s, before, [op]);
    assert [op][..0] == [];
    RunOriginates(Apply(Run(s, before), op), after, p);
  }

  lemma PolledBacking(s: Speaker, ops: seq<Op>, p: Prefix, now: nat)
    requires Initial(s)
    ensures SameOrigination(Run(s, ops), Run(s, ops + [Poll(now)]), p) && BackedAt(Run(s, ops + [Poll(now)]), p)
  {
    PollLeavesLocRibBacked(s, ops, now);
    RunThenPoll(s, ops, now);
    StepOriginates(Run(s, ops), Poll(now), p);
  }

  lemma Configured(s: Speaker, p: Prefix, nextHop: Address)
    ensures var r := Apply(s, Network(p, nextHop)); p in r.originated && r.originated[p] == nextHop
    ensures p !in Apply(s, NoNetwork(p)).originated
  {}

  /** A network, once configured, is served after every later poll until it is configured away, whatever the peers do. */
  lemma NetworkIsServed(s: Speaker, before: seq<Op>, p: Prefix, nextHop: Address, after: seq<Op>, now: nat)
    requires Initial(s) && forall i :: 0 <= i < |after| ==> !Concerns(after[i], p)
    ensures var r := Run(s, before + [Network(p, nextHop)] + after + [Poll(now)]);
            p in r.locRib && OwnNetwork(r.locRib[p], p, nextHop, r.me.routerId)
  {
    AfterOrigination(s, before, Network(p, nextHop), after, p);
    PolledBacking(s, before + [Network(p, nextHop)] + after, p, now);
    Configured(Run(s, before), p, nextHop);
  }

  /** Configured away, it is served from the next poll on only with what a peer has announced, if anything. */
  lemma NetworkIsGone(s: Speaker, before: seq<Op>, p: Prefix, after: seq<Op>, now: nat)
    requires Initial(s) && forall i :: 0 <= i < |after| ==> !Concerns(after[i], p)
    ensures var r := Run(s, before + [NoNetwork(p)] + after + [Poll(now)]);
            (p in r.locRib <==> Stored(r, p)) && (p in r.locRib ==> !r.locRib[p].source.Local?)
  {
    AfterOrigination(s, before, NoNetwork(p), after, p);
    PolledBacking(s, before + [NoNetwork(p)] + after, p, now);
    Configured(Run(s, before), p, 0);
  }
}
