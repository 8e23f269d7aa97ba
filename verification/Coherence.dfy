/**
 When the Loc-RIB is what the decision process would compute from scratch. The dirty
 flag records changes of routes, but the decision also reads which retained paths are
 stale, and that can change without the flag.
 */
module Coherence {
  import opened BgpTypes
  import opened Propagation
  import opened Speaker
  import opened SpeakerRuns
  import opened PeerSessions
  import opened GracefulRestart
  import Decision

  // --------------------------------------------------------------- freshness

  /** No path stored before and after goes from stale to fresh or back. */
  ghost predicate FreshnessKept(s: Speaker, r: Speaker) {
    forall a, p :: a in s.adjRibIn && p in s.adjRibIn[a] && a in r.adjRibIn && p in r.adjRibIn[a] ==>
      (Stale(s, s.adjRibIn[a][p]) <==> Stale(r, r.adjRibIn[a][p]))
  }

  /** The change is flagged, or nothing the decision reads has changed: neither routes nor freshness. */
  ghost predicate Quiet(s: Speaker, r: Speaker) {
    Flagged(s, r) && (!r.dirty ==> FreshnessKept(s, r))
  }

  lemma QuietTransitive(s: Speaker, r: Speaker, q: Speaker)
    requires Quiet(s, r) && Quiet(r, q)
    ensures Quiet(s, q)
  {
    FlaggedTransitive(s, r, q);
    if !q.dirty {
      forall a, p | a in s.adjRibIn && p in s.adjRibIn[a] && a in q.adjRibIn && p in q.adjRibIn[a]
        ensures Stale(s, s.adjRibIn[a][p]) <==> Stale(q, q.adjRibIn[a][p])
      {
        assert SameRib(s.adjRibIn[a], r.adjRibIn[a]);
      }
    }
  }

  lemma {:induction false} FreshGatheredAlike(s: Speaker, r: Speaker, addrs: seq<Address>, p: Prefix)
    requires SameTables(s.adjRibIn, r.adjRibIn) && FreshnessKept(s, r)
    ensures SameList(Fresh(s, Gather(s.adjRibIn, addrs, p)), Fresh(r, Gather(r.adjRibIn, addrs, p)))
    decreases |addrs|
  {
    if addrs != [] {
      FreshGatheredAlike(s, r, addrs[1..], p);
      var a := addrs[0];
      if a in s.adjRibIn && p in s.adjRibIn[a] {
        assert SameRib(s.adjRibIn[a], r.adjRibIn[a]);
        FreshCons(s, s.adjRibIn[a][p], Gather(s.adjRibIn, addrs[1..], p));
        FreshCons(r, r.adjRibIn[a][p], Gather(r.adjRibIn, addrs[1..], p));
      } else {
        assert a in r.adjRibIn ==> p !in r.adjRibIn[a] by { assert a in r.adjRibIn ==> SameRib(s.adjRibIn[a], r.adjRibIn[a]); }
        assert [] + Gather(s.adjRibIn, addrs[1..], p) == Gather(s.adjRibIn, addrs[1..], p);
        assert [] + Gather(r.adjRibIn, addrs[1..], p) == Gather(r.adjRibIn, addrs[1..], p);
      }
    }
  }

  lemma FreshCons(s: Speaker, x: BgpPath, xs: seq<BgpPath>)
    ensures Fresh(s, [x] + xs) == (if Stale(s, x) then [] else [x]) + Fresh(s, xs)
  {
    assert ([x] + xs)[1..] == xs;
  }

  lemma CandidatesAlike(s: Speaker, r: Speaker, p: Prefix)
    requires SameInputs(s, r) && FreshnessKept(s, r)
    ensures SameList(Candidates(s, p), Candidates(r, p))
  {
    var addrs := Ascending(s.adjRibIn.Keys);
    GatherSame(s.adjRibIn, r.adjRibIn, addrs, p);
    FreshGatheredAlike(s, r, addrs, p);
  }

  lemma DecideAlike(s: Speaker, r: Speaker)
    requires SameInputs(s, r) && FreshnessKept(s, r)
    ensures SameRib(Decide(s), Decide(r))
  {
    PrefixesSame(s, r);
    forall p | p in AllPrefixes(s)
      ensures Decision.SelectBest(Candidates(s, p)).Some? == Decision.SelectBest(Candidates(r, p)).Some?
      ensures Decision.SelectBest(Candidates(s, p)).Some? ==>
                Decision.SelectBest(Candidates(s, p)).value.SameRouteAs(Decision.SelectBest(Candidates(r, p)).value)
    {
      CandidatesAlike(s, r, p);
      SelectSame(Candidates(s, p), Candidates(r, p));
    }
  }

  lemma SameRibTransitive(a: Table, b: Table, c: Table)
    requires SameRib(a, b) && SameRib(b, c)
    ensures SameRib(a, c)
  {
    forall p | p in a ensures a[p].SameRouteAs(c[p]) {
      assert a[p].SameRouteAs(b[p]) && b[p].SameRouteAs(c[p]);
    }
  }

  lemma QuietKeepsCoherence(s: Speaker, r: Speaker)
    requires Quiet(s, r) && (!s.dirty ==> Coherent(s))
    ensures !r.dirty ==> Coherent(r)
  {
    if !r.dirty {
      DecideAlike(s, r);
      SameRibTransitive(s.locRib, Decide(s), Decide(r));
    }
  }

  // ---------------------------------------- purging leaves nothing half stale

  lemma PurgeQuiet(s: Speaker, addr: Address, p: Peer)
    requires WellKeyed(s) && addr in s.peers && p.config.addr == addr
    requires IPV4_UNICAST in s.peers[addr].grStale && IPV4_UNICAST !in p.grStale
    ensures Quiet(s, SetPeer(PurgeStale(s, addr, IPV4_UNICAST), addr, p))
  {
    var s1 := PurgeStale(s, addr, IPV4_UNICAST);
    var r := SetPeer(s1, addr, p);
    PurgeFlagged(s, addr, IPV4_UNICAST);
    PeerFlagged(s1, addr, p);
    FlaggedTransitive(s, s1, r);
    if !r.dirty {
      assert s1 == s;
      var t := TableOf(s.adjRibIn, addr);
      assert Survivors(t, s.peers[addr].grCutoff) == t;
      forall a, q | a in s.adjRibIn && q in s.adjRibIn[a] ensures Stale(s, s.adjRibIn[a][q]) <==> Stale(r, s.adjRibIn[a][q]) {
        assert a == addr ==> q in Survivors(t, s.peers[addr].grCutoff);
      }
    }
  }

  /** The peer's staleness is judged as before. */
  predicate SameRetention(p: Peer, q: Peer) {
    (IPV4_UNICAST in p.grStale <==> IPV4_UNICAST in q.grStale) && (IPV4_UNICAST in p.grStale ==> p.grCutoff == q.grCutoff)
  }

  ghost predicate SameJudging(s: Speaker, r: Speaker) {
    r.peers.Keys == s.peers.Keys && forall a :: a in s.peers ==> SameRetention(s.peers[a], r.peers[a])
  }

  lemma JudgedAlike(s: Speaker, r: Speaker, path: BgpPath)
    requires SameJudging(s, r)
    ensures Stale(s, path) <==> Stale(r, path)
  {}

  lemma SameTablesQuiet(s: Speaker, r: Speaker)
    requires SameJudging(s, r) && Flagged(s, r) && (!r.dirty ==> r.adjRibIn == s.adjRibIn)
    ensures Quiet(s, r)
  {
    forall path ensures Stale(s, path) <==> Stale(r, path) {
      JudgedAlike(s, r, path);
    }
  }

  lemma PeerQuiet(s: Speaker, addr: Address, p: Peer)
    requires WellKeyed(s) && addr in s.peers && p.config.addr == addr && SameRetention(s.peers[addr], p)
    ensures Quiet(s, SetPeer(s, addr, p))
  {
    PeerFlagged(s, addr, p);
  }

  lemma FlushQuiet(s: Speaker, addr: Address)
    requires WellKeyed(s) && addr in s.peers
    ensures Quiet(s, Flush(s, addr))
  {
    var p := EndRetention(s.peers[addr]);
    if IPV4_UNICAST in s.peers[addr].grStale {
      assert PurgeStale(s, addr, IPV4_UNICAST).peers == s.peers;
      PurgeQuiet(s, addr, p);
    } else {
      PeerQuiet(s, addr, p);
    }
  }

  lemma CompleteQuiet(s: Speaker, addr: Address, family: Family)
    requires WellKeyed(s) && addr in s.peers
    ensures Quiet(s, CompleteFamily(s, addr, family))
  {
    SameTablesReflexive(s.adjRibIn);
    if family in s.peers[addr].grStale {
      assert PurgeStale(s, addr, family).peers == s.peers;
      var peer := s.peers[addr].(grStale := s.peers[addr].grStale - {family});
      var p := if peer.grStale == {} then EndRetention(peer) else peer;
      if family == IPV4_UNICAST {
        PurgeQuiet(s, addr, p);
      } else {
        PeerQuiet(s, addr, p);
      }
    }
  }

  lemma {:induction false} ExpireQuiet(s: Speaker, addrs: seq<Address>, now: nat)
    requires WellKeyed(s) && forall i :: 0 <= i < |addrs| ==> addrs[i] in s.peers
    ensures Quiet(s, ExpireIn(s, addrs, now))
    decreases |addrs|
  {
    SameTablesReflexive(s.adjRibIn);
    if addrs != [] {
      var n := |addrs| - 1;
      var s1 := ExpireIn(s, addrs[..n], now);
      ExpireQuiet(s, addrs[..n], now);
      ExpireFlagged(s, addrs[..n], now);
      if s1.peers[addrs[n]].grDeadline.Some? && now >= s1.peers[addrs[n]].grDeadline.value {
        FlushQuiet(s1, addrs[n]);
        QuietTransitive(s, s1, Flush(s1, addrs[n]));
      }
    }
  }

  // ------------------------------------------------------------------- polls

  lemma {:induction false} FreshIgnoresResult(s: Speaker, r: Speaker, ps: seq<BgpPath>)
    requires r.peers == s.peers
    ensures Fresh(r, ps) == Fresh(s, ps)
    decreases |ps|
  {
    if ps != [] { FreshIgnoresResult(s, r, ps[1..]); }
  }

  lemma DecideIgnoresResult(s: Speaker)
    ensures Decide(RunDecision(s)) == Decide(s)
  {
    var r := RunDecision(s);
    forall p ensures Candidates(r, p) == Candidates(s, p) {
      FreshIgnoresResult(s, r, Gather(s.adjRibIn, Ascending(s.adjRibIn.Keys), p));
    }
    assert AllPrefixes(r) == AllPrefixes(s);
  }

  /** A poll keeps coherence, and restores it whenever the flag is set: expiring retention never hides a change. */
  lemma PollCoherent(s: Speaker, now: nat)
    requires WellKeyed(s) && (!s.dirty ==> Coherent(s))
    ensures var r := PollTail(s, now); WellKeyed(r) && !r.dirty && Coherent(r)
  {
    AscendingMembers(s.peers.Keys);
    var s1 := ExpireIn(s, Ascending(s.peers.Keys), now);
    ExpireFlagged(s, Ascending(s.peers.Keys), now);
    ExpireQuiet(s, Ascending(s.peers.Keys), now);
    if s1.dirty {
      DecideIgnoresResult(s1);
      SameRibReflexive(Decide(s1));
    } else {
      QuietKeepsCoherence(s, s1);
    }
  }

  // ---------------------------------------------- the two steps that can hide a change

  /** A path received from `addr` at that time would be stale. */
  predicate StaleAt(s: Speaker, addr: Address, time: nat)
    requires addr in s.peers
  {
    IPV4_UNICAST in s.peers[addr].grStale
    && (s.peers[addr].grCutoff.None? || time < s.peers[addr].grCutoff.value)
  }

  /** Announcing `ps` at that time makes no stored path of the peer fresher or staler. */
  ghost predicate Steady(s: Speaker, addr: Address, ps: seq<Prefix>, time: nat)
    requires addr in s.peers
  {
    var t := TableOf(s.adjRibIn, addr);
    forall p :: p in ps && p in t ==> (StaleAt(s, addr, t[p].receivedAt) <==> StaleAt(s, addr, time))
  }

  /** The replacement OPEN keeps the IPv4 routes and judges each of them as before. */
  ghost predicate CutoffSteady(s: Speaker, addr: Address, time: nat)
    requires addr in s.peers
  {
    var t := TableOf(s.adjRibIn, addr);
    forall p :: p in t ==> (StaleAt(s, addr, t[p].receivedAt) <==> t[p].receivedAt < time)
  }

  predicate KeepsRetaining(s: Speaker, addr: Address, families: set<Family>, gr: Option<GrCapability>)
    requires addr in s.peers
  {
    && s.peers[addr].state.OpenSent? && s.peers[addr].Restarting() && gr.Some? && gr.value.restarting
    && IPV4_UNICAST in s.peers[addr].grStale * Vouched(gr.value, families)
  }

  /** The step moves a stored path between stale and fresh: only an announcement or a replacement OPEN can. */
  ghost predicate Reclassifies(s: Speaker, op: Op) {
    match op
    case Receive(addr, u, now) => IsUp(s, addr) && !Steady(s, addr, u.nlri, now)
    case Open(addr, _, families, gr, now) =>
      addr in s.peers && KeepsRetaining(s, addr, families, gr) && !CutoffSteady(s, addr, now)
    case _ => false
  }

  lemma UnchangedQuiet(s: Speaker)
    ensures !s.dirty ==> Quiet(s, s)
    ensures s.dirty ==> Quiet(s, s)
  {
    SameTablesReflexive(s.adjRibIn);
  }

  lemma StaleHere(s: Speaker, addr: Address, path: BgpPath)
    requires addr in s.peers && path.peerAddr == addr
    ensures Stale(s, path) <==> StaleAt(s, addr, path.receivedAt)
  {}

  lemma InstalledAt(s: Speaker, addr: Address, path: BgpPath, a: Address, p: Prefix)
    requires addr in s.peers && a in s.adjRibIn && p in s.adjRibIn[a]
    ensures var r := InstallPath(s, addr, path);
            && a in r.adjRibIn && p in r.adjRibIn[a]
            && r.adjRibIn[a][p] == if a == addr && p == path.prefix then path else s.adjRibIn[a][p]
  {
    assert path.prefix in TableOf(s.adjRibIn, addr)[path.prefix := path];
  }

  lemma InstallJudges(s: Speaker, addr: Address, path: BgpPath, a: Address, p: Prefix)
    requires WellKeyed(s) && addr in s.peers && path.peerAddr == addr && a in s.adjRibIn && p in s.adjRibIn[a]
    requires a == addr && p == path.prefix ==> (StaleAt(s, addr, s.adjRibIn[a][p].receivedAt) <==> StaleAt(s, addr, path.receivedAt))
    ensures var r := InstallPath(s, addr, path);
            a in r.adjRibIn && p in r.adjRibIn[a] && (Stale(s, s.adjRibIn[a][p]) <==> Stale(r, r.adjRibIn[a][p]))
  {
    InstalledAt(s, addr, path, a, p);
    if a == addr && p == path.prefix {
      StaleHere(s, addr, s.adjRibIn[a][p]);
    }
  }

  lemma InstallQuiet(s: Speaker, addr: Address, path: BgpPath)
    requires WellKeyed(s) && addr in s.peers && path.peerAddr == addr
    requires var t := TableOf(s.adjRibIn, addr);
             path.prefix in t ==> (StaleAt(s, addr, t[path.prefix].receivedAt) <==> StaleAt(s, addr, path.receivedAt))
    ensures Quiet(s, InstallPath(s, addr, path))
  {
    var r := InstallPath(s, addr, path);
    InstallFlagged(s, addr, path);
    forall a, p | a in s.adjRibIn && p in s.adjRibIn[a] && a in r.adjRibIn && p in r.adjRibIn[a]
      ensures Stale(s, s.adjRibIn[a][p]) <==> Stale(r, r.adjRibIn[a][p])
    {
      InstallJudges(s, addr, path, a, p);
    }
  }

  lemma EventQuiet(s: Speaker, addr: Address, e: TableEvent)
    requires WellKeyed(s) && addr in s.peers
    requires e.Install? ==>
               && e.path.peerAddr == addr
               && var t := TableOf(s.adjRibIn, addr);
                  e.path.prefix in t ==> (StaleAt(s, addr, t[e.path.prefix].receivedAt) <==> StaleAt(s, addr, e.path.receivedAt))
    ensures Quiet(s, ApplyEvent(s, addr, e))
  {
    UnchangedQuiet(s);
    match e
    case Keep =>
    case Remove(_) =>
    case Install(path) => InstallQuiet(s, addr, path);
  }

  lemma {:induction false} WithdrawQuiet(s: Speaker, addr: Address, ps: seq<Prefix>, qs: seq<Prefix>, time: nat)
    requires WellKeyed(s) && addr in s.peers
    ensures var r := WithdrawAll(s, addr, ps); Quiet(s, r) && (Steady(s, addr, qs, time) ==> Steady(r, addr, qs, time))
    decreases |ps|
  {
    UnchangedQuiet(s);
    if ps != [] {
      var n := |ps| - 1;
      var before := WithdrawAll(s, addr, ps[..n]);
      WithdrawQuiet(s, addr, ps[..n], qs, time);
      WithdrawFlagged(s, addr, ps[..n]);
      EventQuiet(before, addr, Remove(ps[n]));
      EventPlays(before, addr, Remove(ps[n]));
      QuietTransitive(s, before, RemovePath(before, addr, ps[n]));
    }
  }

  lemma AnnouncedSteady(s: Speaker, addr: Address, attrs: PathAttributes, p: Prefix, ps: seq<Prefix>, now: nat)
    requires WellKeyed(s) && addr in s.peers && Steady(s, addr, ps, now)
    ensures var r := ApplyEvent(s, addr, EventFor(s, addr, attrs, p, now));
            addr in r.peers && Steady(r, addr, ps, now)
  {
    EventPlays(s, addr, EventFor(s, addr, attrs, p, now));
  }

  lemma AnnounceOneQuiet(s: Speaker, addr: Address, attrs: PathAttributes, p: Prefix, ps: seq<Prefix>, now: nat)
    requires WellKeyed(s) && addr in s.peers && Steady(s, addr, ps, now) && p in ps
    ensures Quiet(s, ApplyEvent(s, addr, EventFor(s, addr, attrs, p, now)))
  {
    EventQuiet(s, addr, EventFor(s, addr, attrs, p, now));
  }

  lemma {:induction false} AnnounceQuiet(s: Speaker, addr: Address, attrs: PathAttributes, ps: seq<Prefix>, n: nat, now: nat)
    requires WellKeyed(s) && addr in s.peers && n <= |ps| && Steady(s, addr, ps, now)
    ensures var r := AnnounceAll(s, addr, attrs, ps[..n], now).0; Quiet(s, r) && Steady(r, addr, ps, now)
    decreases n
  {
    UnchangedQuiet(s);
    if n > 0 {
      assert ps[..n][..n - 1] == ps[..n - 1];
      AnnounceQuiet(s, addr, attrs, ps, n - 1, now);
      AnnounceFlagged(s, addr, attrs, ps[..n - 1], now);
      var (before, over) := AnnounceAll(s, addr, attrs, ps[..n - 1], now);
      if !over {
        AnnounceOneQuiet(before, addr, attrs, ps[n - 1], ps, now);
        AnnouncedSteady(before, addr, attrs, ps[n - 1], ps, now);
        QuietTransitive(s, before, ApplyEvent(before, addr, EventFor(before, addr, attrs, ps[n - 1], now)));
      }
    }
  }

  lemma ImportQuiet(s: Speaker, addr: Address, u: Update, now: nat)
    requires WellKeyed(s) && addr in s.peers && Steady(s, addr, u.nlri, now)
    ensures Quiet(s, ImportUpdate(s, addr, u, now).0)
  {
    var s1 := WithdrawAll(s, addr, u.withdrawn);
    WithdrawQuiet(s, addr, u.withdrawn, u.nlri, now);
    WithdrawFlagged(s, addr, u.withdrawn);
    var r := ImportUpdate(s, addr, u, now).0;
    if r != s1 {
      assert u.nlri[..|u.nlri|] == u.nlri;
      AnnounceQuiet(s1, addr, u.attributes.value, u.nlri, |u.nlri|, now);
      QuietTransitive(s, s1, r);
    }
  }

  lemma HandleQuiet(s: Speaker, addr: Address, u: Update, now: nat)
    requires WellKeyed(s) && addr in s.peers && Steady(s, addr, u.nlri, now)
    ensures Quiet(s, HandleUpdate(s, addr, u, now))
  {
    var (s1, note) := ImportUpdate(s, addr, u, now);
    ImportQuiet(s, addr, u, now);
    ImportFlagged(s, addr, u, now);
    if note.Some? {
      TeardownFlagged(s1, addr, Protocol, now);
    } else if IsEndOfRib(u) {
      CompleteQuiet(s1, addr, IPV4_UNICAST);
      QuietTransitive(s, s1, CompleteFamily(s1, addr, IPV4_UNICAST));
    }
  }

  lemma RejudgedQuiet(s: Speaker, addr: Address, p: Peer, now: nat)
    requires WellKeyed(s) && addr in s.peers && p.config.addr == addr && CutoffSteady(s, addr, now)
    requires IPV4_UNICAST in p.grStale && p.grCutoff == Some(now)
    ensures Quiet(s, SetPeer(s, addr, p))
  {
    var r := SetPeer(s, addr, p);
    PeerFlagged(s, addr, p);
    forall a, q | a in s.adjRibIn && q in s.adjRibIn[a] ensures Stale(s, s.adjRibIn[a][q]) <==> Stale(r, s.adjRibIn[a][q]) {
      if a == addr {
        StaleHere(s, addr, s.adjRibIn[a][q]);
        assert q in TableOf(s.adjRibIn, addr);
      } else {
        assert s.adjRibIn[a][q].peerAddr == a;
      }
    }
  }

  lemma NarrowQuiet(s: Speaker, addr: Address, kept: set<Family>, now: nat)
    requires WellKeyed(s) && addr in s.peers && kept <= s.peers[addr].grStale
    requires IPV4_UNICAST in kept ==> CutoffSteady(s, addr, now)
    ensures Quiet(s, Narrow(s, addr, kept, now))
  {
    var peer := s.peers[addr].(grStale := kept, grCutoff := Some(now));
    var p := if kept == {} then EndRetention(peer) else peer;
    if IPV4_UNICAST in s.peers[addr].grStale - kept {
      assert PurgeStale(s, addr, IPV4_UNICAST).peers == s.peers;
      PurgeQuiet(s, addr, p);
    } else if IPV4_UNICAST in kept {
      RejudgedQuiet(s, addr, p, now);
    } else {
      PeerQuiet(s, addr, p);
    }
  }

  lemma ReconcileQuiet(s: Speaker, addr: Address, families: set<Family>, gr: Option<GrCapability>, now: nat)
    requires WellKeyed(s) && addr in s.peers && s.peers[addr].state.OpenSent?
    requires KeepsRetaining(s, addr, families, gr) ==> CutoffSteady(s, addr, now)
    ensures Quiet(s, ReconcileOpen(s, addr, families, gr, now))
  {
    UnchangedQuiet(s);
    if s.peers[addr].Restarting() {
      if gr.None? || !gr.value.restarting {
        FlushQuiet(s, addr);
      } else {
        NarrowQuiet(s, addr, s.peers[addr].grStale * Vouched(gr.value, families), now);
      }
    }
  }

  lemma OpenQuiet(s: Speaker, addr: Address, routerId: Address, families: set<Family>, gr: Option<GrCapability>, now: nat)
    requires WellKeyed(s) && addr in s.peers
    requires KeepsRetaining(s, addr, families, gr) ==> CutoffSteady(s, addr, now)
    ensures Quiet(s, OpenAccepted(s, addr, routerId, families, gr, now))
  {
    UnchangedQuiet(s);
    if s.peers[addr].state.OpenSent? {
      var s1 := ReconcileOpen(s, addr, families, gr, now);
      ReconcileQuiet(s, addr, families, gr, now);
      ReconcileFlagged(s, addr, families, gr, now);
      var peer := s1.peers[addr].(state := OpenConfirm, remoteRouterId := Some(routerId), families := families, peerGr := gr);
      PeerQuiet(s1, addr, peer);
      QuietTransitive(s, s1, SetPeer(s1, addr, peer));
    }
  }

  lemma NothingSwept(s: Speaker, addr: Address)
    requires addr in s.peers && !EndRefresh(s, addr).dirty && WellKeyed(s)
    ensures EndRefresh(s, addr).adjRibIn == s.adjRibIn
  {
    if s.peers[addr].refreshInbound {
      NothingRemoved(TableOf(s.adjRibIn, addr), s.peers[addr].refreshStale);
      if addr !in s.adjRibIn {
        assert s.adjRibIn - {addr} == s.adjRibIn;
      }
    }
  }

  lemma EndRefreshQuiet(s: Speaker, addr: Address)
    requires WellKeyed(s) && addr in s.peers
    ensures Quiet(s, EndRefresh(s, addr))
  {
    var r := EndRefresh(s, addr);
    EndRefreshFlagged(s, addr);
    if !r.dirty {
      NothingSwept(s, addr);
      SameTablesQuiet(s, r);
    }
  }

  lemma ProgressQuiet(s: Speaker, addr: Address)
    requires WellKeyed(s) && addr in s.peers
    ensures Quiet(s, BeginRefresh(s, addr)) && Quiet(s, OpenSentOn(s, addr)) && Quiet(s, Adopt(s, addr))
  {
    UnchangedQuiet(s);
    PeerQuiet(s, addr, BeginRefresh(s, addr).peers[addr]);
    PeerQuiet(s, addr, s.peers[addr].(state := OpenSent));
    PeerQuiet(s, addr, Adopt(s, addr).peers[addr]);
  }

  lemma SessionUpQuiet(s: Speaker, addr: Address)
    requires WellKeyed(s) && addr in s.peers
    ensures Quiet(s, SessionUp(s, addr))
  {
    UnchangedQuiet(s);
  }

  lemma TeardownQuiet(s: Speaker, addr: Address, why: Reason, now: nat)
    requires WellKeyed(s) && addr in s.peers
    ensures Quiet(s, Teardown(s, addr, why, now))
  {
    TeardownFlagged(s, addr, why, now);
  }

  lemma ConfigurationQuiet(s: Speaker, op: Op)
    requires WellKeyed(s) && (op.SetRole? || op.Network? || op.NoNetwork? || op.ClusterId? || op.Helper?)
    ensures Quiet(s, Apply(s, op))
  {
    var r := Apply(s, op);
    OpFlagged(s, op);
    if !r.dirty {
      Unflagged(s, op);
      SameTablesQuiet(s, r);
    }
  }

  lemma Unflagged(s: Speaker, op: Op)
    requires op.SetRole? || op.Network? || op.NoNetwork? || op.ClusterId? || op.Helper?
    requires !Apply(s, op).dirty
    ensures Apply(s, op).peers == s.peers && Apply(s, op).adjRibIn == s.adjRibIn
  {}

  lemma MessageQuiet(s: Speaker, op: Op)
    requires WellKeyed(s) && (op.Receive? || op.Borr? || op.Eorr? || op.EndOfRib?) && !Reclassifies(s, op)
    ensures Quiet(s, Apply(s, op))
  {
    UnchangedQuiet(s);
    match op
    case Receive(addr, u, now) => if IsUp(s, addr) { HandleQuiet(s, addr, u, now); }
    case Borr(addr) => if addr in s.peers { ProgressQuiet(s, addr); }
    case Eorr(addr) => if IsUp(s, addr) { EndRefreshQuiet(s, addr); }
    case EndOfRib(addr, family) => if IsUp(s, addr) { CompleteQuiet(s, addr, family); }
  }

  lemma SessionQuiet(s: Speaker, op: Op)
    requires WellKeyed(s) && (op.SendOpen? || op.Open? || op.Up? || op.Down?) && !Reclassifies(s, op)
    ensures Quiet(s, Apply(s, op))
  {
    UnchangedQuiet(s);
    match op
    case SendOpen(addr) => if addr in s.peers { ProgressQuiet(s, addr); }
    case Open(addr, routerId, families, gr, now) => if addr in s.peers { OpenQuiet(s, addr, routerId, families, gr, now); }
    case Up(addr) => if addr in s.peers { SessionUpQuiet(s, addr); }
    case Down(addr, why, now) => if addr in s.peers { TeardownQuiet(s, addr, why, now); }
  }

  lemma PeerStepQuiet(s: Speaker, op: Op)
    requires WellKeyed(s) && (op.Adoption? || op.Set?)
    ensures Quiet(s, Apply(s, op))
  {
    UnchangedQuiet(s);
    match op
    case Adoption(addr) => if addr in s.peers { ProgressQuiet(s, addr); }
    case Set(addr, x) => if addr in s.peers { PeerQuiet(s, addr, Adjust(s, addr, x).peers[addr]); }
  }

  /** Every step other than a poll is quiet unless it reclassifies a stored path. */
  lemma StepQuiet(s: Speaker, op: Op)
    requires WellKeyed(s) && !op.Poll? && !Reclassifies(s, op)
    ensures Quiet(s, Apply(s, op))
  {
    if op.Receive? || op.Borr? || op.Eorr? || op.EndOfRib? {
      MessageQuiet(s, op);
    } else if op.SendOpen? || op.Open? || op.Up? || op.Down? {
      SessionQuiet(s, op);
    } else if op.Adoption? || op.Set? {
      PeerStepQuiet(s, op);
    } else {
      ConfigurationQuiet(s, op);
    }
  }

  // -------------------------------------------------------------------- runs

  /** No step of the run moves a stored path between stale and fresh. */
  ghost predicate NeverReclassifies(s: Speaker, ops: seq<Op>) {
    forall k :: 0 <= k < |ops| ==> !Reclassifies(Run(s, ops[..k]), ops[k])
  }

  lemma StepCoherent(s: Speaker, op: Op)
    requires WellKeyed(s) && (!s.dirty ==> Coherent(s)) && !Reclassifies(s, op)
    ensures var r := Apply(s, op); WellKeyed(r) && (!r.dirty ==> Coherent(r))
  {
    if op.Poll? {
      PollCoherent(s, op.now);
    } else {
      OpFlagged(s, op);
      StepQuiet(s, op);
      QuietKeepsCoherence(s, Apply(s, op));
    }
  }

  /** Without graceful-restart retention that holds of every run. */
  lemma NothingRetainedNothingReclassified(s: Speaker, ops: seq<Op>)
    requires NeverRetains(s, ops)
    ensures NeverReclassifies(s, ops)
  {
    forall k | 0 <= k < |ops| ensures !Reclassifies(Run(s, ops[..k]), ops[k]) {
      assert NoRetention(Run(s, ops[..k]));
    }
  }

  // ------------------------------------------------- what polls do not repair

  /** Nothing stored is stale. */
  ghost predicate NoStale(s: Speaker) {
    forall a, p :: a in s.adjRibIn && p in s.adjRibIn[a] ==> !Stale(s, s.adjRibIn[a][p])
  }

  lemma SameRibSymmetric(a: Table, b: Table)
    requires SameRib(a, b)
    ensures SameRib(b, a)
  {}

  /** A poll that purges nothing leaves an incoherent Loc-RIB as it is. */
  lemma UnflaggedPollRepairsNothing(s: Speaker, now: nat)
    requires WellKeyed(s) && !s.dirty
    requires !ExpireAll(s, now).dirty
    ensures var r := PollTail(s, now); !r.dirty && r.locRib == s.locRib && (Coherent(r) <==> Coherent(s))
  {
    AscendingMembers(s.peers.Keys);
    var r := ExpireIn(s, Ascending(s.peers.Keys), now);
    ExpireQuiet(s, Ascending(s.peers.Keys), now);
    DecideAlike(s, r);
    SameRibSymmetric(Decide(s), Decide(r));
    if Coherent(s) {
      SameRibTransitive(s.locRib, Decide(s), Decide(r));
    }
    if Coherent(r) {
      SameRibTransitive(s.locRib, Decide(r), Decide(s));
    }
  }

  lemma FlushOfFresh(s: Speaker, addr: Address)
    requires WellKeyed(s) && addr in s.peers && NoStale(s)
    ensures Flush(s, addr) == SetPeer(s, addr, EndRetention(s.peers[addr]))
  {
    if IPV4_UNICAST in s.peers[addr].grStale {
      var t := TableOf(s.adjRibIn, addr);
      var kept := Survivors(t, s.peers[addr].grCutoff);
      forall p | p in t ensures p in kept {
        StaleHere(s, addr, t[p]);
      }
      assert kept == t;
    }
  }

  lemma {:induction false} ExpireOfFresh(s: Speaker, addrs: seq<Address>, now: nat)
    requires WellKeyed(s) && NoStale(s) && forall i :: 0 <= i < |addrs| ==> addrs[i] in s.peers
    ensures var r := ExpireIn(s, addrs, now); WellKeyed(r) && NoStale(r) && r == s.(peers := r.peers)
    decreases |addrs|
  {
    if addrs != [] {
      var n := |addrs| - 1;
      var s1 := ExpireIn(s, addrs[..n], now);
      ExpireOfFresh(s, addrs[..n], now);
      if s1.peers[addrs[n]].grDeadline.Some? && now >= s1.peers[addrs[n]].grDeadline.value {
        FlushOfFresh(s1, addrs[n]);
      }
    }
  }

  function Polls(times: seq<nat>): seq<Op> {
    seq(|times|, i requires 0 <= i < |times| => Poll(times[i]))
  }

  /** A Loc-RIB that is wrong, unflagged, with nothing stale left that the end of retention could purge. */
  ghost predicate Stuck(s: Speaker) {
    WellKeyed(s) && !s.dirty && NoStale(s) && !Coherent(s)
  }

  lemma PollStaysStuck(s: Speaker, now: nat)
    requires Stuck(s)
    ensures var r := PollTail(s, now); Stuck(r) && r.adjRibIn == s.adjRibIn && r.locRib == s.locRib
  {
    AscendingMembers(s.peers.Keys);
    ExpireOfFresh(s, Ascending(s.peers.Keys), now);
    UnflaggedPollRepairsNothing(s, now);
  }

  lemma LastPoll(s: Speaker, times: seq<nat>)
    requires times != []
    ensures var n := |times| - 1; Run(s, Polls(times)) == PollTail(Run(s, Polls(times[..n])), times[n])
  {
    var n := |times| - 1;
    assert Polls(times)[..n] == Polls(times[..n]) && Polls(times)[n] == Poll(times[n]);
  }

  /** Once nothing stored is stale, no sequence of polls repairs an incoherent Loc-RIB, past any deadline. */
  lemma {:induction false} NoPollRepairs(s: Speaker, times: seq<nat>)
    requires Stuck(s)
    ensures var r := Run(s, Polls(times)); Stuck(r) && r.adjRibIn == s.adjRibIn && r.locRib == s.locRib
    decreases |times|
  {
    if times == [] {
      assert Polls(times) == [];
    } else {
      var n := |times| - 1;
      NoPollRepairs(s, times[..n]);
      LastPoll(s, times);
      PollStaysStuck(Run(s, Polls(times[..n])), times[n]);
    }
  }
}
