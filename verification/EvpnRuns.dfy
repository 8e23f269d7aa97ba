/**
 Runs of the EVPN tables from the start that end in surprising states.
 */
module EvpnRuns {
  import opened BgpTypes
  import P = Propagation
  import opened Evpn
  import opened EvpnRib
  import opened EvpnCoherence
  import Speaker

  // ------------------------------------------------- a route that waits for its target

  /** An announcement of one route that is kept stores its path and does nothing else. */
  lemma StoresOne(s: Rib, addr: Address, rid: Option<Address>, a: Announcement, now: nat)
    requires addr in s.peers && |a.nlri| == 1 && Kept(s, a.Advert(a.nlri[0]))
    requires P.CheckAttributes(s.me, s.peers[addr], AttributesOf(a.shared)).Usable?
    ensures Import(s, addr, rid, a, now).0 ==
            StorePath(s, addr, PathFrom(s.me, s.peers[addr], rid, a.Advert(a.nlri[0]), s.imported, now))
  {
    assert ImportAll(s, addr, rid, a, 0, now) == (s, false);
  }

  lemma StoredFirst(s: Rib, addr: Address, path: EvpnPath)
    requires addr !in s.adjRibIn
    ensures StorePath(s, addr, path) == s.(adjRibIn := s.adjRibIn[addr := map[path.route.Key() := path]], dirty := true)
  {
    var t: Table := map[path.route.Key() := path];
    assert TableOf(s.adjRibIn, addr)[path.route.Key() := path] == t;
    assert path.route.Key() in t;
  }

  lemma AnnouncedAlone(s: Rib, addr: Address, rid: Option<Address>, a: Announcement, now: nat)
    requires addr in s.peers && |a.nlri| == 1 && Kept(s, a.Advert(a.nlri[0])) && addr !in s.adjRibIn
    requires P.CheckAttributes(s.me, s.peers[addr], AttributesOf(a.shared)).Usable?
    ensures var path := PathFrom(s.me, s.peers[addr], rid, a.Advert(a.nlri[0]), s.imported, now);
            Import(s, addr, rid, a, now).0 == s.(adjRibIn := s.adjRibIn[addr := map[a.nlri[0].key := path]], dirty := true)
  {
    StoresOne(s, addr, rid, a, now);
    StoredFirst(s, addr, PathFrom(s.me, s.peers[addr], rid, a.Advert(a.nlri[0]), s.imported, now));
  }

  lemma RunTwo(s: Rib, op1: Op, op2: Op)
    ensures Run(s, [op1, op2]) == Apply(Apply(s, op1), op2)
  {
    assert [op1, op2][..1] == [op1] && [op1][..0] == [];
    assert Run(s, [op1]) == Apply(s, op1);
  }

  lemma RunFour(s: Rib, op1: Op, op2: Op, op3: Op, op4: Op)
    ensures Run(s, [op1, op2, op3, op4]) == Apply(Apply(Apply(Apply(s, op1), op2), op3), op4)
  {
    RunTwo(s, op1, op2);
    assert [op1, op2, op3][..2] == [op1, op2];
    assert Run(s, [op1, op2, op3]) == Apply(Run(s, [op1, op2]), op3);
    assert [op1, op2, op3, op4][..3] == [op1, op2, op3];
  }

  /** The one path stored waits for the target. */
  ghost predicate Waits(s: Rib, addr: Address, path: EvpnPath, rt: RouteTarget) {
    && s.adjRibIn == map[addr := map[path.route.Key() := path]] && s.originated == map[] && s.imported == {}
    && path.peerAddr == addr && !path.local && !path.importable && rt in path.route.routeTargets
  }

  lemma LateTarget(s: Rib, addr: Address, path: EvpnPath, rt: RouteTarget, polled: nat)
    requires Waits(s, addr, path, rt)
    ensures var r := Decide(AddTarget(s, rt), polled);
            && addr in r.adjRibIn && path.route.Key() in r.adjRibIn[addr]
            && r.adjRibIn[addr][path.route.Key()] == path && path.route.Matches(r.imported)
            && path.route.Key() in r.advertiseRib && path.route.Key() !in r.locRib
  {
    var k := path.route.Key();
    assert k in s.adjRibIn[addr] && s.adjRibIn[addr][k] == path;
    assert AllMarked(s.adjRibIn, s.imported) && NoneImportable(s, k);
    AwaitingRouteStaysOut(s, addr, k, rt, polled);
  }

  lemma RouteWaits(s: Rib, addr: Address, rid: Option<Address>, a: Announcement, rt: RouteTarget, now: nat)
    requires Initial(s) && addr in s.peers && s.retainAll && s.imported == {} && s.peers[addr].addr == addr
    requires |a.nlri| == 1 && a.shared.route.routeTargets == [rt]
    requires P.CheckAttributes(s.me, s.peers[addr], AttributesOf(a.shared)).Usable?
    ensures var r := Import(s, addr, rid, a, now).0;
            && r.dirty && Waits(r, addr, PathFrom(s.me, s.peers[addr], rid, a.Advert(a.nlri[0]), {}, now), rt)
  {
    AnnouncedAlone(s, addr, rid, a, now);
    assert a.shared.route.routeTargets[0] == rt;
    assert !a.Advert(a.nlri[0]).route.Matches({});
  }

  lemma Heard(s: Rib, addr: Address, rid: Option<Address>, a: Announcement, rt: RouteTarget, now: nat)
    requires Initial(s) && addr in s.peers && !s.retainAll && s.imported == {} && s.peers[addr].addr == addr
    requires |a.nlri| == 1 && a.shared.route.routeTargets == [rt]
    requires P.CheckAttributes(s.me, s.peers[addr], AttributesOf(a.shared)).Usable?
    ensures var r := Apply(Apply(s, RetainEverything(true)), Announce(addr, rid, a, now));
            r.dirty && Waits(r, addr, PathFrom(s.me, s.peers[addr], rid, a.Advert(a.nlri[0]), {}, now), rt)
  {
    RouteWaits(SetRetainAll(s, true), addr, rid, a, rt, now);
  }

  /** The stored route matches what is imported and is advertised, and the Loc-RIB does not have it. */
  predicate LeftOut(r: Rib, addr: Address, k: RouteKey) {
    && addr in r.adjRibIn && k in r.adjRibIn[addr] && r.adjRibIn[addr][k].route.Matches(r.imported)
    && k in r.advertiseRib && k !in r.locRib
  }

  lemma ThenPolled(s: Rib, addr: Address, path: EvpnPath, rt: RouteTarget, polled: nat)
    requires s.dirty && Waits(s, addr, path, rt)
    ensures LeftOut(Apply(Apply(s, ImportTarget(rt)), Poll(polled)), addr, path.route.Key())
  {
    LateTarget(s, addr, path, rt, polled);
    assert Apply(Apply(s, ImportTarget(rt)), Poll(polled)) == Decide(AddTarget(s, rt), polled);
  }

  /**
   In a run from the start: the speaker keeps everything, hears a route, and only then imports
   its target. After the next poll the route is left out.
   */
  lemma LateTargetRun(s: Rib, addr: Address, rid: Option<Address>, a: Announcement, rt: RouteTarget, now: nat, polled: nat)
    requires Initial(s) && addr in s.peers && !s.retainAll && s.imported == {} && s.peers[addr].addr == addr
    requires |a.nlri| == 1 && a.shared.route.routeTargets == [rt]
    requires P.CheckAttributes(s.me, s.peers[addr], AttributesOf(a.shared)).Usable?
    ensures LeftOut(Run(s, [RetainEverything(true), Announce(addr, rid, a, now), ImportTarget(rt), Poll(polled)]), addr, a.nlri[0].key)
  {
    RunFour(s, RetainEverything(true), Announce(addr, rid, a, now), ImportTarget(rt), Poll(polled));
    Heard(s, addr, rid, a, rt, now);
    var path := PathFrom(s.me, s.peers[addr], rid, a.Advert(a.nlri[0]), {}, now);
    ThenPolled(Apply(Apply(s, RetainEverything(true)), Announce(addr, rid, a, now)), addr, path, rt, polled);
  }

  // ---------------------------------------------------- a stale route that stays in use

  lemma {:induction false} RunAppend(s: Rib, ops: seq<Op>, more: seq<Op>)
    ensures Run(s, ops + more) == Run(Run(s, ops), more)
    decreases |more|
  {
    if more == [] {
      assert ops + more == ops;
    } else {
      var n := |more| - 1;
      assert (ops + more)[..|ops + more| - 1] == ops + more[..n];
      RunAppend(s, ops, more[..n]);
    }
  }

  lemma RunOne(s: Rib, op: Op)
    ensures Run(s, [op]) == Apply(s, op)
  {
    assert [op][..0] == [];
  }

  ghost predicate OnlyPolls(ops: seq<Op>) {
    forall i :: 0 <= i < |ops| ==> ops[i].Poll?
  }

  lemma {:induction false} PollsDoNothing(s: Rib, polls: seq<Op>)
    requires !s.dirty && OnlyPolls(polls)
    ensures Run(s, polls) == s
    decreases |polls|
  {
    if polls != [] {
      PollsDoNothing(s, polls[..|polls| - 1]);
    }
  }

  lemma SelectedFalls(s: Rib, addr: Address, k: RouteKey)
    requires k in TableOf(s.adjRibIn, addr) && OtherFresh(s, addr, k)
    requires k in s.advertiseRib && s.advertiseRib[k].SameRouteAs(TableOf(s.adjRibIn, addr)[k])
    ensures !BothStand(s, addr, k)
  {}

  lemma DownBreaks(s: Rib, addr: Address, k: RouteKey, now: nat)
    requires AllMarked(s.adjRibIn, s.imported) && !s.dirty && Coherent(s, now) && addr !in s.retained
    requires k in TableOf(s.adjRibIn, addr) && OtherFresh(s, addr, k)
    requires k in s.advertiseRib && s.advertiseRib[k].SameRouteAs(TableOf(s.adjRibIn, addr)[k])
    ensures var r := PeerDown(s, addr, true, None); !r.dirty && !Coherent(r, now)
  {
    SelectedFalls(s, addr, k);
    DownIsCoherentIff(s, addr, None, now);
  }

  /** The stale path of the peer is the one advertised, although another one is fresh. */
  ghost predicate StaleInUse(r: Rib, addr: Address, k: RouteKey, now: nat) {
    && !r.dirty && !Coherent(r, now)
    && k in TableOf(r.adjRibIn, addr) && Stale(r, TableOf(r.adjRibIn, addr)[k]) && OtherFresh(r, addr, k)
    && k in r.advertiseRib && r.advertiseRib[k].SameRouteAs(TableOf(r.adjRibIn, addr)[k])
  }

  lemma KeptPathIsStale(s: Rib, addr: Address, k: RouteKey)
    requires AllMarked(s.adjRibIn, s.imported) && k in TableOf(s.adjRibIn, addr)
    ensures var r := s.(retained := s.retained[addr := None]);
            Stale(r, TableOf(s.adjRibIn, addr)[k]) && (OtherFresh(s, addr, k) ==> OtherFresh(r, addr, k))
  {
    var r := s.(retained := s.retained[addr := None]);
    HeldHere(s, addr, k);
    if b :| b in s.adjRibIn && b != addr && k in s.adjRibIn[b] && !Stale(s, s.adjRibIn[b][k]) {
      HeldHere(s, b, k);
      assert !Stale(r, r.adjRibIn[b][k]);
    }
  }

  lemma DownLeavesStale(s: Rib, r: Rib, addr: Address, k: RouteKey, now: nat)
    requires AllMarked(s.adjRibIn, s.imported) && !s.dirty && Coherent(s, now) && addr !in s.retained
    requires k in TableOf(s.adjRibIn, addr) && OtherFresh(s, addr, k)
    requires k in s.advertiseRib && s.advertiseRib[k].SameRouteAs(TableOf(s.adjRibIn, addr)[k])
    requires r == PeerDown(s, addr, true, None)
    ensures StaleInUse(r, addr, k, now)
  {
    DownBreaks(s, addr, k, now);
    KeptPathIsStale(s, addr, k);
  }

  lemma ThenPolls(s: Rib, r: Rib, addr: Address, polls: seq<Op>)
    requires r == PeerDown(s, addr, true, None) && !r.dirty && OnlyPolls(polls)
    ensures Run(s, [Down(addr, true, None)] + polls) == r
  {
    RunAppend(s, [Down(addr, true, None)], polls);
    RunOne(s, Down(addr, true, None));
    PollsDoNothing(r, polls);
  }

  /**
   The peer whose path is advertised is lost and its routes are kept, while another peer's
   fresh path is stored: the flag stays clear, the stale path stays advertised, and no poll
   changes that.
   */
  lemma LosingTheSelectedPeer(s: Rib, addr: Address, k: RouteKey, polls: seq<Op>, now: nat)
    requires AllMarked(s.adjRibIn, s.imported) && !s.dirty && Coherent(s, now) && addr !in s.retained
    requires k in TableOf(s.adjRibIn, addr) && OtherFresh(s, addr, k) && OnlyPolls(polls)
    requires k in s.advertiseRib && s.advertiseRib[k].SameRouteAs(TableOf(s.adjRibIn, addr)[k])
    ensures StaleInUse(Run(s, [Down(addr, true, None)] + polls), addr, k, now)
  {
    var r := PeerDown(s, addr, true, None);
    DownLeavesStale(s, r, addr, k, now);
    ThenPolls(s, r, addr, polls);
  }

  /** Two peers' paths for one key, and nothing else. */
  ghost predicate TwoPaths(s: Rib, a: Address, b: Address, k: RouteKey) {
    && a != b && s.adjRibIn.Keys == {a, b} && s.adjRibIn[a].Keys == {k} && s.adjRibIn[b].Keys == {k}
    && AllMarked(s.adjRibIn, s.imported) && s.originated == map[] && s.retained == map[]
  }

  lemma NothingHosted(s: Rib, k: RouteKey, t: nat)
    requires AllMarked(s.adjRibIn, s.imported) && k !in s.originated
    ensures forall p :: p in Candidates(s, k, t) ==> Holds(s, k, p)
  {
    LearnedMembers(s, k);
    FreshOnes(s, Learned(s, k));
    CandidateParts(s, k, t);
  }

  lemma OneOfTwoWins(s: Rib, a: Address, b: Address, k: RouteKey, t: nat) returns (c: Address)
    requires TwoPaths(s, a, b, k)
    ensures (c == a || c == b) && k in AllKeys(s) && BestFor(s, k, t) == Some(s.adjRibIn[c][k])
  {
    assert k in s.adjRibIn[a] && k in s.adjRibIn[b];
    assert k in AllKeys(s);
    CandidateOrigin(s, k, t);
    NothingHosted(s, k, t);
    SelectedIsACandidate(Candidates(s, k, t));
    c := BestFor(s, k, t).value.peerAddr;
  }

  lemma OtherOfTwo(s: Rib, a: Address, b: Address, k: RouteKey, c: Address, d: Address)
    requires TwoPaths(s, a, b, k) && ((c == a && d == b) || (c == b && d == a))
    ensures OtherFresh(s, c, k)
  {
    assert k in s.adjRibIn[d];
    assert d in s.adjRibIn && d != c && k in s.adjRibIn[d] && !Stale(s, s.adjRibIn[d][k]);
  }

  /** After a decision over the two one of them is advertised, and the other is fresh. */
  lemma OneIsAdvertised(s: Rib, a: Address, b: Address, k: RouteKey, t: nat) returns (c: Address)
    requires TwoPaths(s, a, b, k)
    ensures (c == a || c == b) && k in TableOf(s.adjRibIn, c) && OtherFresh(s, c, k)
    ensures k in Decide(s, t).advertiseRib && Decide(s, t).advertiseRib[k] == s.adjRibIn[c][k]
  {
    c := OneOfTwoWins(s, a, b, k, t);
    OtherOfTwo(s, a, b, k, c, if c == a then b else a);
  }

  lemma DecideKeepsInputs(s: Rib, t: nat)
    ensures var r := Decide(s, t);
            r.adjRibIn == s.adjRibIn && r.retained == s.retained && r.imported == s.imported && !r.dirty
  {}

  lemma FreshAfterDecision(s: Rib, t: nat, addr: Address, k: RouteKey)
    requires OtherFresh(s, addr, k)
    ensures OtherFresh(Decide(s, t), addr, k)
  {
    var r := Decide(s, t);
    var b :| b in s.adjRibIn && b != addr && k in s.adjRibIn[b] && !Stale(s, s.adjRibIn[b][k]);
    assert !Stale(r, r.adjRibIn[b][k]);
  }

  lemma TwoHeard(s: Rib, a: Address, b: Address, ann: Announcement, bnn: Announcement, rt: RouteTarget, now: nat, heard: Rib)
    requires Initial(s) && s.imported == {} && s.retained == map[] && a != b && a in s.peers && b in s.peers && Configured(s)
    requires |ann.nlri| == 1 && bnn.nlri == ann.nlri && rt in ann.shared.route.routeTargets && rt in bnn.shared.route.routeTargets
    requires P.CheckAttributes(s.me, s.peers[a], AttributesOf(ann.shared)).Usable?
    requires P.CheckAttributes(s.me, s.peers[b], AttributesOf(bnn.shared)).Usable?
    requires heard == Apply(Apply(Apply(s, ImportTarget(rt)), Announce(a, None, ann, now)), Announce(b, None, bnn, now))
    ensures TwoPaths(heard, a, b, ann.nlri[0].key) && heard.dirty
  {
    BothImported(AddTarget(s, rt), a, b, ann, bnn, rt, now);
  }

  lemma BothImported(s: Rib, a: Address, b: Address, ann: Announcement, bnn: Announcement, rt: RouteTarget, now: nat)
    requires s.adjRibIn == map[] && s.originated == map[] && s.retained == map[] && s.imported == {rt}
    requires a != b && a in s.peers && b in s.peers && s.peers[a].addr == a && s.peers[b].addr == b
    requires |ann.nlri| == 1 && bnn.nlri == ann.nlri && rt in ann.shared.route.routeTargets && rt in bnn.shared.route.routeTargets
    requires P.CheckAttributes(s.me, s.peers[a], AttributesOf(ann.shared)).Usable?
    requires P.CheckAttributes(s.me, s.peers[b], AttributesOf(bnn.shared)).Usable?
    ensures var r := Import(Import(s, a, None, ann, now).0, b, None, bnn, now).0; TwoPaths(r, a, b, ann.nlri[0].key) && r.dirty
  {
    MatchesImported(ann, rt);
    MatchesImported(bnn, rt);
    AnnouncedAlone(s, a, None, ann, now);
    var s2 := Import(s, a, None, ann, now).0;
    AnnouncedAlone(s2, b, None, bnn, now);
    TwoStored(s, Import(s2, b, None, bnn, now).0, a, b,
              PathFrom(s.me, s.peers[a], None, ann.Advert(ann.nlri[0]), {rt}, now),
              PathFrom(s.me, s.peers[b], None, bnn.Advert(bnn.nlri[0]), {rt}, now), ann.nlri[0].key);
  }

  lemma MatchesImported(a: Announcement, rt: RouteTarget)
    requires |a.nlri| == 1 && rt in a.shared.route.routeTargets
    ensures a.Advert(a.nlri[0]).route.Matches({rt})
  {
    var i :| 0 <= i < |a.shared.route.routeTargets| && a.shared.route.routeTargets[i] == rt;
    assert a.Advert(a.nlri[0]).route.routeTargets[i] in {rt};
  }

  lemma TwoStored(s: Rib, r: Rib, a: Address, b: Address, pa: EvpnPath, pb: EvpnPath, k: RouteKey)
    requires a != b && s.adjRibIn == map[] && s.originated == map[] && s.retained == map[]
    requires r == s.(adjRibIn := map[a := map[k := pa]][b := map[k := pb]], dirty := true)
    requires pa.route.Key() == k && pb.route.Key() == k && pa.peerAddr == a && pb.peerAddr == b && !pa.local && !pb.local
    requires (pa.importable ==> pa.route.Matches(s.imported)) && (pb.importable ==> pb.route.Matches(s.imported))
    ensures TwoPaths(r, a, b, k)
  {
    assert k in r.adjRibIn[a] && k in r.adjRibIn[b];
    assert r.adjRibIn.Keys == {a, b};
  }

  lemma StaleAfterTwo(s: Rib, a: Address, b: Address, k: RouteKey, t: nat, polls: seq<Op>, now: nat) returns (c: Address)
    requires TwoPaths(s, a, b, k) && OnlyPolls(polls)
    ensures c == a || c == b
    ensures StaleInUse(Run(Decide(s, t), [Down(c, true, None)] + polls), c, k, now)
  {
    var r := Decide(s, t);
    c := OneIsAdvertised(s, a, b, k, t);
    DecideKeepsInputs(s, t);
    DecisionCoherent(s, t, now);
    FreshAfterDecision(s, t, c, k);
    LosingTheSelectedPeer(r, c, k, polls, now);
  }

  /**
   In runs from the start: two peers announce the same key, the speaker decides, and the peer
   whose path it advertises is lost while its routes are kept. However often it is polled, the
   speaker goes on advertising the stale path beside the other, fresh one.
   */
  lemma StaleRouteStaysInUse(s: Rib, a: Address, b: Address, ann: Announcement, bnn: Announcement, rt: RouteTarget,
                             now: nat, t: nat, polls: seq<Op>) returns (c: Address)
    requires Initial(s) && s.imported == {} && s.retained == map[] && a != b && a in s.peers && b in s.peers && Configured(s)
    requires |ann.nlri| == 1 && bnn.nlri == ann.nlri && rt in ann.shared.route.routeTargets && rt in bnn.shared.route.routeTargets
    requires P.CheckAttributes(s.me, s.peers[a], AttributesOf(ann.shared)).Usable?
    requires P.CheckAttributes(s.me, s.peers[b], AttributesOf(bnn.shared)).Usable?
    requires OnlyPolls(polls)
    ensures c == a || c == b
    ensures var ops := [ImportTarget(rt), Announce(a, None, ann, now), Announce(b, None, bnn, now), Poll(t)];
            StaleInUse(Run(s, ops + ([Down(c, true, None)] + polls)), c, ann.nlri[0].key, t)
  {
    var heard := Apply(Apply(Apply(s, ImportTarget(rt)), Announce(a, None, ann, now)), Announce(b, None, bnn, now));
    TwoHeard(s, a, b, ann, bnn, rt, now, heard);
    c := StaleAfterTwo(heard, a, b, ann.nlri[0].key, t, polls, t);
    ThenDecided(s, heard, ImportTarget(rt), Announce(a, None, ann, now), Announce(b, None, bnn, now), t, [Down(c, true, None)] + polls);
  }

  lemma ThenDecided(s: Rib, heard: Rib, op1: Op, op2: Op, op3: Op, t: nat, more: seq<Op>)
    requires heard == Apply(Apply(Apply(s, op1), op2), op3) && heard.dirty
    ensures Run(s, [op1, op2, op3, Poll(t)] + more) == Run(Decide(heard, t), more)
  {
    RunFour(s, op1, op2, op3, Poll(t));
    RunAppend(s, [op1, op2, op3, Poll(t)], more);
  }

  // -------------------------------------- a reflector that forgets what it reflects

  /** The path of the client is stored and advertised. */
  ghost predicate Reflects(s: Rib, addr: Address, k: RouteKey) {
    RetainsAll(s) && k in TableOf(s.adjRibIn, addr) && k in s.advertiseRib
  }

  lemma DecidedKeys(s: Rib, t: nat, k: RouteKey)
    ensures k in Decide(s, t).advertiseRib <==> k in AllKeys(s)
  {
    CandidateOrigin(s, k, t);
    CandidatesAreKnown(s, k, t);
    SelectedIsACandidate(Candidates(s, k, t));
  }

  lemma ClientStored(s: Rib, addr: Address, rid: Option<Address>, a: Announcement, now: nat)
    requires s.adjRibIn == map[] && s.originated == map[] && addr in s.peers && s.peers[addr].isClient && |a.nlri| == 1
    requires P.CheckAttributes(s.me, s.peers[addr], AttributesOf(a.shared)).Usable?
    ensures var r := Import(s, addr, rid, a, now).0;
            && RetainsAll(r) && r.dirty && r.imported == s.imported && r.originated == map[]
            && a.nlri[0].key in TableOf(r.adjRibIn, addr) && a.nlri[0].key in AllKeys(r)
  {
    assert RetainsAll(s);
    AnnouncedAlone(s, addr, rid, a, now);
    var r := Import(s, addr, rid, a, now).0;
    assert a.nlri[0].key in r.adjRibIn[addr];
    assert r.peers[addr].isClient;
  }

  lemma ClientDecided(s: Rib, addr: Address, k: RouteKey, t: nat)
    requires RetainsAll(s) && k in TableOf(s.adjRibIn, addr) && k in AllKeys(s)
    ensures Reflects(Decide(s, t), addr, k)
  {
    DecidedKeys(s, t, k);
    if !s.retainAll {
      var a :| a in s.peers && s.peers[a].isClient;
      assert Decide(s, t).peers[a].isClient;
    }
  }

  lemma ClientHeard(s: Rib, heard: Rib, addr: Address, rid: Option<Address>, a: Announcement, rt: RouteTarget, now: nat, t: nat)
    requires Initial(s) && addr in s.peers && s.peers[addr].isClient && s.imported == {} && |a.nlri| == 1
    requires P.CheckAttributes(s.me, s.peers[addr], AttributesOf(a.shared)).Usable?
    requires heard == Apply(Apply(s, ImportTarget(rt)), Announce(addr, rid, a, now))
    ensures heard.dirty && Reflects(Decide(heard, t), addr, a.nlri[0].key) && heard.imported == {rt} && heard.originated == map[]
  {
    ClientStored(AddTarget(s, rt), addr, rid, a, now);
    ClientDecided(heard, addr, a.nlri[0].key, t);
  }

  /** The speaker is a reflector, and every table is empty. */
  predicate HasForgotten(r: Rib) {
    RetainsAll(r) && r.adjRibIn == map[] && r.advertiseRib == map[] && r.locRib == map[]
  }

  lemma Forgets(s: Rib, rt: RouteTarget, t: nat)
    requires RetainsAll(s) && s.imported == {rt} && s.originated == map[]
    ensures HasForgotten(Apply(Apply(s, DropTarget(rt)), Poll(t)))
  {
    var s1 := RemoveTarget(s, rt);
    RemoveLastTargetDropsEverything(s, rt);
    assert AllKeys(s1) == {};
    if !s.retainAll {
      var a :| a in s.peers && s.peers[a].isClient;
      assert s1.peers[a].isClient;
    }
  }

  lemma OpeningThenDrop(s: Rib, opening: seq<Op>, heard: Rib, rt: RouteTarget, t: nat, u: nat)
    requires heard == Run(s, opening) && heard.dirty
    ensures Run(s, opening + [Poll(t)]) == Decide(heard, t)
    ensures Run(s, opening + [Poll(t)] + [DropTarget(rt), Poll(u)]) == Apply(Apply(Decide(heard, t), DropTarget(rt)), Poll(u))
  {
    RunAppend(s, opening, [Poll(t)]);
    RunOne(heard, Poll(t));
    RunAppend(s, opening + [Poll(t)], [DropTarget(rt), Poll(u)]);
    RunTwo(Decide(heard, t), DropTarget(rt), Poll(u));
  }

  /**
   In runs from the start: a reflector imports one target for a tenant of its own and hears a
   route from a client, whatever targets that route carries. It stores and advertises the route.
   When the tenant goes and the target with it, the client's route is gone from every table,
   although the speaker is a reflector as before.
   */
  lemma ReflectorForgets(s: Rib, addr: Address, rid: Option<Address>, a: Announcement, rt: RouteTarget, now: nat, t: nat, u: nat)
    requires Initial(s) && addr in s.peers && s.peers[addr].isClient && s.imported == {} && |a.nlri| == 1
    requires P.CheckAttributes(s.me, s.peers[addr], AttributesOf(a.shared)).Usable?
    ensures Reflects(Run(s, [ImportTarget(rt), Announce(addr, rid, a, now)] + [Poll(t)]), addr, a.nlri[0].key)
    ensures HasForgotten(Run(s, [ImportTarget(rt), Announce(addr, rid, a, now)] + [Poll(t)] + [DropTarget(rt), Poll(u)]))
  {
    var opening := [ImportTarget(rt), Announce(addr, rid, a, now)];
    var heard := Apply(Apply(s, ImportTarget(rt)), Announce(addr, rid, a, now));
    RunTwo(s, ImportTarget(rt), Announce(addr, rid, a, now));
    ClientHeard(s, heard, addr, rid, a, rt, now, t);
    OpeningThenDrop(s, opening, heard, rt, t, u);
    Forgets(Decide(heard, t), rt, u);
  }
}
