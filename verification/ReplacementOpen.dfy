/**
 The exact effect on the Loc-RIB of a replacement OPEN that keeps the IPv4 routes: it
 judges every stored path of its peer anew, by the time of this OPEN, and leaves the
 dirty flag clear.
 */
module ReplacementOpen {
  import opened BgpTypes
  import opened Propagation
  import opened Speaker
  import opened SpeakerRuns
  import opened PeerSessions
  import opened Coherence
  import opened Reannouncement
  import Decision

  /** Only the staleness of the paths of `addr` may differ. */
  ghost predicate Rejudged(s: Speaker, r: Speaker, addr: Address) {
    && addr in s.peers && r.peers.Keys == s.peers.Keys && r == s.(peers := r.peers)
    && r.peers[addr].config == s.peers[addr].config
    && forall a :: a in s.peers && a != addr ==> r.peers[a] == s.peers[a]
  }

  lemma KeepingOpen(s: Speaker, addr: Address, routerId: Address, families: set<Family>, gr: Option<GrCapability>, now: nat)
    requires addr in s.peers && KeepsRetaining(s, addr, families, gr)
    ensures var r := OpenAccepted(s, addr, routerId, families, gr, now);
            Rejudged(s, r, addr) && forall x: BgpPath :: x.peerAddr == addr ==> (Stale(r, x) <==> x.receivedAt < now)
  {
    var kept := s.peers[addr].grStale * Vouched(gr.value, families);
    assert IPV4_UNICAST in kept && IPV4_UNICAST !in s.peers[addr].grStale - kept;
  }

  // -------------------------------------------------------- unchanged prefixes

  lemma {:induction false} FreshJudgedAlike(s: Speaker, r: Speaker, ps: seq<BgpPath>)
    requires forall x :: x in ps ==> (Stale(s, x) <==> Stale(r, x))
    ensures Fresh(r, ps) == Fresh(s, ps)
    decreases |ps|
  {
    if ps != [] {
      assert ps[0] in ps;
      FreshJudgedAlike(s, r, ps[1..]);
    }
  }

  lemma WinnerKept(s: Speaker, r: Speaker, addr: Address, p: Prefix)
    requires WellKeyed(s) && Rejudged(s, r, addr)
    requires p in TableOf(s.adjRibIn, addr) ==>
               (Stale(s, TableOf(s.adjRibIn, addr)[p]) <==> Stale(r, TableOf(s.adjRibIn, addr)[p]))
    ensures Winner(r, p) == Winner(s, p)
  {
    LearnedHolds(s, p);
    forall x | x in Learned(s, p) ensures Stale(s, x) <==> Stale(r, x) {
      assert Holds(s, p, x);
    }
    FreshJudgedAlike(s, r, Learned(s, p));
  }

  // ------------------------------------------------------------ one path rejudged

  /** `x` became fresh: the fresh paths are those from before and `x`. */
  lemma FresherWinner(w: BgpPath, v: BgpPath, x: BgpPath, best: BgpPath, was: seq<BgpPath>, now: seq<BgpPath>)
    requires forall y :: y in now <==> y == x || y in was
    requires forall y :: y in was ==> y.peerAddr != x.peerAddr
    requires was != [] ==> Decision.BeatsAll(w, was)
    requires Decision.BeatsAll(v, now) && best.SameRouteAs(w)
    ensures best.SameRouteAs(v) <==> (was == [] && best.SameRouteAs(x)) || (was != [] && !Decision.ComparePaths(x, best).Less?)
  {
    if was == [] {
      OnlyOne(v, x, now);
    } else {
      Newcomer(w, v, x, was, now);
      ComparisonIgnoresTime(x, x, best, w);
    }
  }

  /** `x` became stale, and other fresh paths remain. */
  lemma StalerWinner(w: BgpPath, v: BgpPath, x: BgpPath, best: BgpPath, was: seq<BgpPath>, now: seq<BgpPath>)
    requires forall y :: y in was <==> y == x || y in now
    requires forall y :: y in now ==> y.peerAddr != x.peerAddr
    requires Decision.BeatsAll(w, was) && Decision.BeatsAll(v, now) && best.SameRouteAs(w)
    ensures best.SameRouteAs(v) <==> !best.SameRouteAs(x)
  {
    if w != x {
      Decision.ComparisonIsATournament(v, w);
    }
  }

  /** `x` became stale and was the last fresh path: all learned paths compete again. */
  lemma LastFreshWinner(v: BgpPath, x: BgpPath, best: BgpPath, learned: seq<BgpPath>)
    requires x in learned && Decision.DistinctPeers(learned)
    requires Decision.BeatsAll(v, learned) && best.SameRouteAs(x)
    ensures best.SameRouteAs(v) <==> forall y :: y in learned ==> !Decision.ComparePaths(y, best).Less?
  {
    forall y | y in learned ensures Decision.ComparePaths(y, best) == Decision.ComparePaths(y, x) {
      ComparisonIgnoresTime(y, y, best, x);
    }
    if v == x {
      forall y | y in learned ensures !Decision.ComparePaths(y, x).Less? {
        Decision.ComparisonIsATournament(y, x);
      }
    } else {
      Decision.DistinctMembersDiffer(learned, v, x);
      assert Decision.ComparePaths(v, x).Less?;
    }
  }

  // ----------------------------------------------------- the exact condition

  /** What can be read off, for one prefix of the peer, before the OPEN. */
  ghost predicate HarmlessOpen(s: Speaker, addr: Address, p: Prefix, now: nat)
    requires addr in s.peers && p in TableOf(s.adjRibIn, addr) && p in s.locRib
  {
    var x, best := TableOf(s.adjRibIn, addr)[p], s.locRib[p];
    if Stale(s, x) == (x.receivedAt < now) || best.source.Local? then true
    else if Stale(s, x) then
      if AnotherFresh(s, addr, p) then !Decision.ComparePaths(x, best).Less? else best.SameRouteAs(x)
    else if AnotherFresh(s, addr, p) then !best.SameRouteAs(x)
    else forall b :: b in s.adjRibIn && p in s.adjRibIn[b] ==> !Decision.ComparePaths(s.adjRibIn[b][p], best).Less?
  }

  lemma OthersFresh(s: Speaker, addr: Address, p: Prefix, x: BgpPath, others: seq<BgpPath>)
    requires WellKeyed(s) && x.peerAddr == addr
    requires forall y :: y in others <==> Holds(s, p, y) && !Stale(s, y) && y.peerAddr != addr
    ensures AnotherFresh(s, addr, p) <==> others != []
  {
    if others != [] {
      assert others[0] in others && Holds(s, p, others[0]);
    }
    if b :| b in s.adjRibIn && b != addr && p in s.adjRibIn[b] && !Stale(s, s.adjRibIn[b][p]) {
      assert s.adjRibIn[b][p] in others;
    }
  }

  lemma OneFewer(s: Speaker, r: Speaker, addr: Address, p: Prefix, x: BgpPath)
    requires WellKeyed(s) && Rejudged(s, r, addr) && x.peerAddr == addr && Holds(s, p, x)
    requires Stale(s, x) && !Stale(r, x)
    ensures forall y :: y in Fresh(s, Learned(s, p)) <==> Holds(s, p, y) && !Stale(s, y) && y.peerAddr != addr
    ensures forall y :: y in Fresh(r, Learned(r, p)) <==> y == x || y in Fresh(s, Learned(s, p))
  {
    assert WellKeyed(r);
    FreshHolds(s, p);
    FreshHolds(r, p);
    forall y | Holds(s, p, y) && y.peerAddr != addr ensures Stale(s, y) <==> Stale(r, y) {}
  }

  lemma OneMore(s: Speaker, r: Speaker, addr: Address, p: Prefix, x: BgpPath)
    requires WellKeyed(s) && Rejudged(s, r, addr) && x.peerAddr == addr && Holds(s, p, x)
    requires !Stale(s, x) && Stale(r, x)
    ensures forall y :: y in Fresh(r, Learned(r, p)) <==> Holds(s, p, y) && !Stale(s, y) && y.peerAddr != addr
    ensures forall y :: y in Fresh(s, Learned(s, p)) <==> y == x || y in Fresh(r, Learned(r, p))
  {
    assert WellKeyed(r);
    FreshHolds(s, p);
    FreshHolds(r, p);
    forall y | Holds(s, p, y) && y.peerAddr != addr ensures Stale(s, y) <==> Stale(r, y) {}
  }

  ghost predicate BothWin(s: Speaker, r: Speaker, p: Prefix, w: BgpPath, v: BgpPath) {
    Decision.BeatsAll(w, Pool(s, p)) && Decision.BeatsAll(v, Pool(r, p)) && Learned(r, p) == Learned(s, p)
  }

  lemma FresherIff(s: Speaker, r: Speaker, addr: Address, p: Prefix, x: BgpPath, w: BgpPath, v: BgpPath, best: BgpPath)
    requires WellKeyed(s) && Rejudged(s, r, addr) && x.peerAddr == addr && Holds(s, p, x)
    requires Stale(s, x) && !Stale(r, x) && BothWin(s, r, p, w, v) && best.SameRouteAs(w)
    ensures best.SameRouteAs(v) <==>
            if AnotherFresh(s, addr, p) then !Decision.ComparePaths(x, best).Less? else best.SameRouteAs(x)
  {
    OneFewer(s, r, addr, p, x);
    var was, now := Fresh(s, Learned(s, p)), Fresh(r, Learned(r, p));
    OthersFresh(s, addr, p, x, was);
    assert x in now;
    FresherWinner(w, v, x, best, was, now);
  }

  lemma StalerIff(s: Speaker, r: Speaker, addr: Address, p: Prefix, x: BgpPath, w: BgpPath, v: BgpPath, best: BgpPath)
    requires WellKeyed(s) && Rejudged(s, r, addr) && x.peerAddr == addr && Holds(s, p, x)
    requires !Stale(s, x) && Stale(r, x) && BothWin(s, r, p, w, v) && best.SameRouteAs(w)
    ensures best.SameRouteAs(v) <==>
            if AnotherFresh(s, addr, p) then !best.SameRouteAs(x)
            else forall y :: y in Learned(s, p) ==> !Decision.ComparePaths(y, best).Less?
  {
    OneMore(s, r, addr, p, x);
    var was, now := Fresh(s, Learned(s, p)), Fresh(r, Learned(r, p));
    OthersFresh(s, addr, p, x, now);
    assert x in was;
    if now != [] {
      StalerWinner(w, v, x, best, was, now);
    } else {
      LearnedHolds(s, p);
      OnlyOne(w, x, was);
      LastFreshWinner(v, x, best, Learned(s, p));
    }
  }

  // ------------------------------------------------------------ the whole table

  lemma LearnedHere(s: Speaker, addr: Address, p: Prefix)
    requires WellKeyed(s) && p in TableOf(s.adjRibIn, addr)
    ensures Holds(s, p, TableOf(s.adjRibIn, addr)[p]) && TableOf(s.adjRibIn, addr)[p].peerAddr == addr
    ensures Learned(s, p) != []
  {
    LearnedHolds(s, p);
    assert TableOf(s.adjRibIn, addr)[p] in Learned(s, p);
  }

  lemma BothPoolsWin(s: Speaker, r: Speaker, addr: Address, p: Prefix)
    requires WellKeyed(s) && Rejudged(s, r, addr) && p in TableOf(s.adjRibIn, addr) && Decision.NoCircle(Learned(s, p))
    ensures Winner(s, p).Some? && Winner(r, p).Some?
    ensures p in s.originated ==> Winner(s, p) == Winner(r, p) && Winner(s, p).value.source.Local?
    ensures p !in s.originated ==> BothWin(s, r, p, Winner(s, p).value, Winner(r, p).value) && !Winner(s, p).value.source.Local?
  {
    assert WellKeyed(r);
    LearnedHere(s, addr, p);
    PoolWins(s, p);
    PoolWins(r, p);
    if p !in s.originated {
      PoolNotLocal(s, p, Winner(s, p).value);
    }
  }

  lemma LearnedForall(s: Speaker, p: Prefix, best: BgpPath)
    requires WellKeyed(s)
    ensures (forall y :: y in Learned(s, p) ==> !Decision.ComparePaths(y, best).Less?) <==>
            (forall b :: b in s.adjRibIn && p in s.adjRibIn[b] ==> !Decision.ComparePaths(s.adjRibIn[b][p], best).Less?)
  {
    LearnedHolds(s, p);
    forall b | b in s.adjRibIn && p in s.adjRibIn[b] ensures s.adjRibIn[b][p] in Learned(s, p) {
      assert Holds(s, p, s.adjRibIn[b][p]);
    }
  }

  /** One prefix of the peer: the entry is still the winner if and only if the OPEN was harmless there. */
  lemma PrefixIff(s: Speaker, r: Speaker, addr: Address, p: Prefix, now: nat)
    requires WellKeyed(s) && Rejudged(s, r, addr) && p in TableOf(s.adjRibIn, addr) && Decision.NoCircle(Learned(s, p))
    requires Stale(r, TableOf(s.adjRibIn, addr)[p]) <==> TableOf(s.adjRibIn, addr)[p].receivedAt < now
    requires p in s.locRib && Winner(s, p).Some? && s.locRib[p].SameRouteAs(Winner(s, p).value)
    ensures Winner(r, p).Some?
    ensures s.locRib[p].SameRouteAs(Winner(r, p).value) <==> HarmlessOpen(s, addr, p, now)
  {
    var x, best := TableOf(s.adjRibIn, addr)[p], s.locRib[p];
    BothPoolsWin(s, r, addr, p);
    LearnedHere(s, addr, p);
    if Stale(s, x) == Stale(r, x) {
      WinnerKept(s, r, addr, p);
    } else if p !in s.originated {
      if Stale(s, x) {
        FresherIff(s, r, addr, p, x, Winner(s, p).value, Winner(r, p).value, best);
      } else {
        StalerIff(s, r, addr, p, x, Winner(s, p).value, Winner(r, p).value, best);
        LearnedForall(s, p, best);
      }
    }
  }

  /** Some prefixes alone decide, when the rest is settled. */
  lemma CoherentWithin(rib: Table, d: Table, e: Table, ps: set<Prefix>)
    requires SameRib(rib, d) && d.Keys == e.Keys && ps <= d.Keys
    requires forall q :: q in d && q !in ps ==> d[q] == e[q]
    ensures SameRib(rib, e) <==> forall q :: q in ps ==> rib[q].SameRouteAs(e[q])
  {
    forall q | q in rib && q !in ps ensures rib[q].SameRouteAs(e[q]) {
      assert rib[q].SameRouteAs(d[q]);
    }
  }

  lemma PrefixesRejudged(s: Speaker, r: Speaker, addr: Address)
    requires Rejudged(s, r, addr)
    ensures AllPrefixes(r) == AllPrefixes(s) && TableOf(s.adjRibIn, addr).Keys <= AllPrefixes(s)
  {}

  /** For no prefix of the peer do the learned paths beat each other in a circle. */
  ghost predicate NoCircles(s: Speaker, addr: Address) {
    forall p :: p in TableOf(s.adjRibIn, addr) ==> Decision.NoCircle(Learned(s, p))
  }

  /** The OPEN is harmless for every prefix of the peer. */
  ghost predicate HarmlessThroughout(s: Speaker, addr: Address, now: nat)
    requires addr in s.peers
  {
    forall p :: p in TableOf(s.adjRibIn, addr) ==> p in s.locRib && HarmlessOpen(s, addr, p, now)
  }

  lemma DecidesWinner(s: Speaker, d: Table, q: Prefix)
    requires d == Decide(s)
    ensures q in d <==> q in AllPrefixes(s) && Winner(s, q).Some?
    ensures q in d ==> d[q] == Winner(s, q).value
  {}

  lemma WinnersRejudged(s: Speaker, r: Speaker, addr: Address, q: Prefix)
    requires WellKeyed(s) && Rejudged(s, r, addr)
    requires NoCircles(s, addr)
    ensures q !in TableOf(s.adjRibIn, addr) ==> Winner(r, q) == Winner(s, q)
    ensures q in TableOf(s.adjRibIn, addr) ==> Winner(s, q).Some? && Winner(r, q).Some?
  {
    if q in TableOf(s.adjRibIn, addr) {
      BothPoolsWin(s, r, addr, q);
    } else {
      WinnerKept(s, r, addr, q);
    }
  }

  /** The two decisions name the same prefixes, and differ at most inside `ps`. */
  ghost predicate DifferWithin(s: Speaker, r: Speaker, d: Table, e: Table, ps: set<Prefix>, q: Prefix) {
    && (q in d <==> q in e)
    && (q in d && q !in ps ==> d[q] == e[q])
    && (q in ps ==> q in d && q in e && Winner(s, q) == Some(d[q]) && Winner(r, q) == Some(e[q]))
  }

  lemma DecidesRejudged(s: Speaker, r: Speaker, addr: Address, d: Table, e: Table, q: Prefix)
    requires WellKeyed(s) && Rejudged(s, r, addr) && d == Decide(s) && e == Decide(r)
    requires NoCircles(s, addr)
    ensures DifferWithin(s, r, d, e, TableOf(s.adjRibIn, addr).Keys, q)
  {
    PrefixesRejudged(s, r, addr);
    DecidesWinner(s, d, q);
    DecidesWinner(r, e, q);
    WinnersRejudged(s, r, addr, q);
  }

  /** An entry of the peer's table is settled by its own prefix. */
  lemma EntrySettled(s: Speaker, r: Speaker, addr: Address, d: Table, e: Table, p: Prefix, now: nat)
    requires WellKeyed(s) && Rejudged(s, r, addr) && SameRib(s.locRib, d)
    requires p in TableOf(s.adjRibIn, addr) && Decision.NoCircle(Learned(s, p))
    requires Stale(r, TableOf(s.adjRibIn, addr)[p]) <==> TableOf(s.adjRibIn, addr)[p].receivedAt < now
    requires DifferWithin(s, r, d, e, TableOf(s.adjRibIn, addr).Keys, p)
    ensures p in s.locRib && p in e && (s.locRib[p].SameRouteAs(e[p]) <==> HarmlessOpen(s, addr, p, now))
  {
    PrefixIff(s, r, addr, p, now);
  }

  ghost predicate Settled(s: Speaker, addr: Address, e: Table, p: Prefix, now: nat)
    requires addr in s.peers
  {
    p in TableOf(s.adjRibIn, addr) ==>
      p in s.locRib && p in e && (s.locRib[p].SameRouteAs(e[p]) <==> HarmlessOpen(s, addr, p, now))
  }

  lemma AllSettled(s: Speaker, addr: Address, e: Table, now: nat)
    requires addr in s.peers && forall p :: Settled(s, addr, e, p, now)
    ensures (forall q :: q in TableOf(s.adjRibIn, addr) ==> q in s.locRib && q in e && s.locRib[q].SameRouteAs(e[q]))
            <==> HarmlessThroughout(s, addr, now)
  {
    forall p | p in TableOf(s.adjRibIn, addr)
      ensures p in s.locRib && p in e && (s.locRib[p].SameRouteAs(e[p]) <==> HarmlessOpen(s, addr, p, now))
    {
      assert Settled(s, addr, e, p, now);
    }
  }

  lemma DifferOnlyWithin(s: Speaker, r: Speaker, d: Table, e: Table, ps: set<Prefix>)
    requires SameRib(s.locRib, d) && forall q :: DifferWithin(s, r, d, e, ps, q)
    ensures SameRib(s.locRib, e) <==> forall q :: q in ps ==> q in s.locRib && q in e && s.locRib[q].SameRouteAs(e[q])
  {
    forall q ensures (q in d <==> q in e) && (q in d && q !in ps ==> d[q] == e[q]) && (q in ps ==> q in d) {
      assert DifferWithin(s, r, d, e, ps, q);
    }
    assert d.Keys == e.Keys && ps <= d.Keys;
    CoherentWithin(s.locRib, d, e, ps);
  }

  lemma RejudgedIff(s: Speaker, r: Speaker, addr: Address, d: Table, e: Table, now: nat)
    requires WellKeyed(s) && Rejudged(s, r, addr) && SameRib(s.locRib, d) && NoCircles(s, addr)
    requires forall x: BgpPath :: x.peerAddr == addr ==> (Stale(r, x) <==> x.receivedAt < now)
    requires forall q :: DifferWithin(s, r, d, e, TableOf(s.adjRibIn, addr).Keys, q)
    ensures SameRib(s.locRib, e) <==> HarmlessThroughout(s, addr, now)
  {
    var t := TableOf(s.adjRibIn, addr);
    forall p ensures Settled(s, addr, e, p, now) {
      if p in t {
        assert DifferWithin(s, r, d, e, t.Keys, p) && t[p].peerAddr == addr;
        EntrySettled(s, r, addr, d, e, p, now);
      }
    }
    AllSettled(s, addr, e, now);
    DifferOnlyWithin(s, r, d, e, t.Keys);
  }

  /**
   A replacement OPEN that keeps the IPv4 routes, on a coherent Loc-RIB with a clear flag:
   the Loc-RIB stays coherent if and only if it was harmless for every prefix of the peer.
   The flag stays clear either way.
   */
  lemma OpenIsCoherentIff(s: Speaker, addr: Address, routerId: Address, families: set<Family>, gr: Option<GrCapability>, now: nat)
    requires WellKeyed(s) && !s.dirty && Coherent(s) && addr in s.peers && KeepsRetaining(s, addr, families, gr)
    requires NoCircles(s, addr)
    ensures var r := Apply(s, Open(addr, routerId, families, gr, now));
            !r.dirty && (Coherent(r) <==> HarmlessThroughout(s, addr, now))
  {
    var r := OpenAccepted(s, addr, routerId, families, gr, now);
    KeepingOpen(s, addr, routerId, families, gr, now);
    forall q ensures DifferWithin(s, r, Decide(s), Decide(r), TableOf(s.adjRibIn, addr).Keys, q) {
      DecidesRejudged(s, r, addr, Decide(s), Decide(r), q);
    }
    RejudgedIff(s, r, addr, Decide(s), Decide(r), now);
  }
}
