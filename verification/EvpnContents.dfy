/**
 What the two EVPN tables hold, said in terms of the stored paths and the hosted routes alone:
 which keys they serve, with which path, and what is left of a route that was withdrawn.
 */
module EvpnContents {
  import opened BgpTypes
  import opened Evpn
  import opened EvpnRib
  import opened EvpnCoherence
  import opened EvpnEffect
  import Speaker
  import I = ImportEffect

  // -------------------------------------------------------------- preference

  function Mobility(p: EvpnPath): int {
    if p.route.mobility.Some? then p.route.mobility.value else 0
  }

  function OriginRank(o: Origin): int {
    if o == Igp then 0 else if o == Egp then 1 else 2
  }

  /**
   `a` before `b`: the higher sequence number, then what is hosted here, then the higher local
   preference, the shorter path, the lower origin, the shorter cluster list, the lower router
   identifier, the lower peer address.
   */
  predicate Outranks(a: EvpnPath, b: EvpnPath) {
    if Mobility(a) != Mobility(b) then Mobility(a) > Mobility(b)
    else if a.local != b.local then a.local
    else if a.localPref != b.localPref then a.localPref > b.localPref
    else if a.asPath.Length() != b.asPath.Length() then a.asPath.Length() < b.asPath.Length()
    else if a.origin != b.origin then OriginRank(a.origin) < OriginRank(b.origin)
    else if |a.clusterList| != |b.clusterList| then |a.clusterList| < |b.clusterList|
    else if a.peerRouterId != b.peerRouterId then a.peerRouterId < b.peerRouterId
    else a.peerAddr < b.peerAddr
  }

  lemma LessIffOutranks(a: EvpnPath, b: EvpnPath)
    ensures ComparePaths(a, b).Less? <==> Outranks(a, b)
  {}

  // ---------------------------------------------------------------- contents

  /** Some peer's path for the key is stored. */
  ghost predicate Stored(s: Rib, k: RouteKey) {
    exists a :: a in s.adjRibIn && k in s.adjRibIn[a]
  }

  /** Kept from a peer whose session was lost, and not announced again since. */
  predicate LeftOver(s: Rib, a: Address, p: EvpnPath) {
    a in s.retained && (s.retained[a].Some? ==> p.receivedAt < s.retained[a].value)
  }

  ghost predicate StoredFresh(s: Rib, k: RouteKey) {
    exists a :: a in s.adjRibIn && k in s.adjRibIn[a] && !LeftOver(s, a, s.adjRibIn[a][k])
  }

  /** Left-over paths count only where nothing fresh is stored. */
  ghost predicate Counts(s: Rib, k: RouteKey, a: Address) {
    a in s.adjRibIn && k in s.adjRibIn[a] && (StoredFresh(s, k) ==> !LeftOver(s, a, s.adjRibIn[a][k]))
  }

  /** The path of a route attached here. */
  predicate OwnRoute(x: EvpnPath, route: EvpnRoute, routerId: Address) {
    && x.local && x.route == route && x.importable && x.peerRouterId == routerId && x.peerAddr == UNSPECIFIED
    && x.asPath.segments == [] && x.origin.Igp? && x.localPref == 100 && x.originatorId.None? && x.clusterList == []
    && !x.fromClient
  }

  /** `x` may be filed for the key: hosted here, or what a peer announced, imported unless `all` are taken. */
  ghost predicate Contends(s: Rib, k: RouteKey, x: EvpnPath, all: bool) {
    || (k in s.originated && OwnRoute(x, s.originated[k], s.me.routerId))
    || (!x.local && Counts(s, k, x.peerAddr) && s.adjRibIn[x.peerAddr][k] == x && (all || x.importable))
  }

  ghost predicate ServesKey(s: Rib, k: RouteKey, all: bool) {
    k in s.originated || exists a :: Counts(s, k, a) && (all || s.adjRibIn[a][k].importable)
  }

  /** The entry is there exactly when something contends, contends itself, and outranks all that do. */
  ghost predicate RightEntry(s: Rib, k: RouteKey, entry: Option<EvpnPath>, all: bool) {
    && (entry.Some? <==> ServesKey(s, k, all))
    && (entry.Some? ==>
          && Contends(s, k, entry.value, all)
          && (k in s.originated && !entry.value.local ==> Mobility(entry.value) > SequenceOf(s.originated[k]))
          && forall a :: Counts(s, k, a) && (all || s.adjRibIn[a][k].importable) && s.adjRibIn[a][k] != entry.value ==>
               Outranks(entry.value, s.adjRibIn[a][k]))
  }

  function SequenceOf(route: EvpnRoute): int {
    if route.mobility.Some? then route.mobility.value else 0
  }

  lemma StaleIsLeftOver(s: Rib, a: Address, k: RouteKey)
    requires AllMarked(s.adjRibIn, s.imported) && a in s.adjRibIn && k in s.adjRibIn[a]
    ensures Stale(s, s.adjRibIn[a][k]) <==> LeftOver(s, a, s.adjRibIn[a][k])
    ensures s.adjRibIn[a][k].peerAddr == a && !s.adjRibIn[a][k].local && Holds(s, k, s.adjRibIn[a][k])
  {
    assert Marked(s.adjRibIn[a], a, s.imported);
  }

  lemma {:induction false} FreshMembers(s: Rib, ps: seq<EvpnPath>)
    ensures forall p :: p in Fresh(s, ps) <==> p in ps && !Stale(s, p)
    decreases |ps|
  {
    if ps != [] {
      FreshMembers(s, ps[1..]);
      assert ps == [ps[0]] + ps[1..];
    }
  }

  lemma FreshIffStored(s: Rib, k: RouteKey)
    requires AllMarked(s.adjRibIn, s.imported)
    ensures Fresh(s, Learned(s, k)) != [] <==> StoredFresh(s, k)
    ensures Learned(s, k) != [] <==> Stored(s, k)
  {
    LearnedMembers(s, k);
    FreshMembers(s, Learned(s, k));
    var fs := Fresh(s, Learned(s, k));
    if fs != [] {
      assert fs[0] in fs && Holds(s, k, fs[0]);
      StaleIsLeftOver(s, fs[0].peerAddr, k);
    }
    if a :| a in s.adjRibIn && k in s.adjRibIn[a] && !LeftOver(s, a, s.adjRibIn[a][k]) {
      StaleIsLeftOver(s, a, k);
      assert s.adjRibIn[a][k] in fs;
    }
    if Learned(s, k) != [] {
      assert Learned(s, k)[0] in Learned(s, k) && Holds(s, k, Learned(s, k)[0]);
    }
    if a :| a in s.adjRibIn && k in s.adjRibIn[a] {
      StaleIsLeftOver(s, a, k);
      assert s.adjRibIn[a][k] in Learned(s, k);
    }
  }

  /** The candidates taken from peers. */
  function Heard(s: Rib, k: RouteKey): seq<EvpnPath> {
    var current := Fresh(s, Learned(s, k));
    if current == [] then Learned(s, k) else current
  }

  lemma HeardIff(s: Rib, k: RouteKey, p: EvpnPath)
    requires AllMarked(s.adjRibIn, s.imported)
    ensures p in Heard(s, k) <==> Counts(s, k, p.peerAddr) && s.adjRibIn[p.peerAddr][k] == p
  {
    FreshIffStored(s, k);
    LearnedMembers(s, k);
    FreshMembers(s, Learned(s, k));
    if p.peerAddr in s.adjRibIn && k in s.adjRibIn[p.peerAddr] {
      StaleIsLeftOver(s, p.peerAddr, k);
    }
  }

  lemma HeardIsRemote(s: Rib, k: RouteKey)
    requires AllMarked(s.adjRibIn, s.imported)
    ensures forall p :: p in Heard(s, k) ==> !p.local
  {
    LearnedMembers(s, k);
    FreshMembers(s, Learned(s, k));
  }

  lemma CandidateIff(s: Rib, k: RouteKey, now: nat, p: EvpnPath)
    ensures p in Candidates(s, k, now) <==> p in Heard(s, k) || (k in s.originated && p == Hosting(s, k, now))
  {}

  function Hosting(s: Rib, k: RouteKey, now: nat): EvpnPath
    requires k in s.originated
  {
    LocalEvpnPath(s.originated[k], s.me.routerId, now)
  }

  lemma HostingIsOwn(s: Rib, k: RouteKey, now: nat)
    requires k in s.originated
    ensures OwnRoute(Hosting(s, k, now), s.originated[k], s.me.routerId)
    ensures Mobility(Hosting(s, k, now)) == SequenceOf(s.originated[k])
  {}

  function Among(s: Rib, k: RouteKey, now: nat, all: bool): seq<EvpnPath> {
    if all then Candidates(s, k, now) else Usable(Candidates(s, k, now))
  }

  lemma AmongIff(s: Rib, k: RouteKey, now: nat, all: bool, p: EvpnPath)
    ensures p in Among(s, k, now, all) <==>
              || (p in Heard(s, k) && (all || p.local || p.importable))
              || (k in s.originated && p == Hosting(s, k, now))
  {
    CandidateIff(s, k, now, p);
    UsableOnes(Candidates(s, k, now));
  }

  lemma AmongDistinct(s: Rib, k: RouteKey, now: nat, all: bool)
    requires AllMarked(s.adjRibIn, s.imported)
    ensures DistinctSources(Among(s, k, now, all))
  {
    CandidatesHaveDistinctSources(s, k, now);
    UsableDistinct(Candidates(s, k, now));
  }

  lemma ServedIff(s: Rib, k: RouteKey, now: nat, all: bool)
    requires AllMarked(s.adjRibIn, s.imported)
    ensures Among(s, k, now, all) != [] <==> ServesKey(s, k, all)
  {
    var cs := Among(s, k, now, all);
    HeardIsRemote(s, k);
    if cs != [] {
      AmongIff(s, k, now, all, cs[0]);
      HeardIff(s, k, cs[0]);
    }
    if k in s.originated {
      AmongIff(s, k, now, all, Hosting(s, k, now));
    }
    if a :| Counts(s, k, a) && (all || s.adjRibIn[a][k].importable) {
      StaleIsLeftOver(s, a, k);
      HeardIff(s, k, s.adjRibIn[a][k]);
      AmongIff(s, k, now, all, s.adjRibIn[a][k]);
    }
  }

  lemma LeastIsRight(s: Rib, k: RouteKey, now: nat, all: bool, w: EvpnPath)
    requires AllMarked(s.adjRibIn, s.imported) && IsLeast(w, Among(s, k, now, all))
    ensures Contends(s, k, w, all)
    ensures k in s.originated && !w.local ==> Mobility(w) > SequenceOf(s.originated[k])
    ensures forall a :: Counts(s, k, a) && (all || s.adjRibIn[a][k].importable) && s.adjRibIn[a][k] != w ==>
              Outranks(w, s.adjRibIn[a][k])
  {
    AmongIff(s, k, now, all, w);
    HeardIff(s, k, w);
    HeardIsRemote(s, k);
    if k in s.originated {
      HostingIsOwn(s, k, now);
      AmongIff(s, k, now, all, Hosting(s, k, now));
      LessIffOutranks(w, Hosting(s, k, now));
    }
    forall a | Counts(s, k, a) && (all || s.adjRibIn[a][k].importable) && s.adjRibIn[a][k] != w
      ensures Outranks(w, s.adjRibIn[a][k])
    {
      StaleIsLeftOver(s, a, k);
      HeardIff(s, k, s.adjRibIn[a][k]);
      AmongIff(s, k, now, all, s.adjRibIn[a][k]);
      LessIffOutranks(w, s.adjRibIn[a][k]);
    }
  }

  lemma ChosenIsRight(s: Rib, k: RouteKey, now: nat, all: bool)
    requires AllMarked(s.adjRibIn, s.imported)
    ensures RightEntry(s, k, SelectBest(Among(s, k, now, all)), all)
  {
    var cs := Among(s, k, now, all);
    ServedIff(s, k, now, all);
    SelectedIsACandidate(cs);
    if cs != [] {
      AmongDistinct(s, k, now, all);
      SelectsTheLeast(cs);
      LeastIsRight(s, k, now, all, SelectBest(cs).value);
    }
  }

  /**
   The decision process files under every key the path that outranks all others that count: of
   everything in the advertisement RIB, of what is hosted or imported in the Loc-RIB.
   */
  lemma DecisionContents(s: Rib, now: nat, k: RouteKey)
    requires AllMarked(s.adjRibIn, s.imported)
    ensures RightEntry(s, k, Look(Decide(s, now).advertiseRib, k), true)
    ensures RightEntry(s, k, Look(Decide(s, now).locRib, k), false)
  {
    Decided(s, k, now);
    ChosenIsRight(s, k, now, true);
    ChosenIsRight(s, k, now, false);
  }

  // -------------------------------------------------------------------- runs

  /** An entry is a route attached here, or a route some peer announced and did not withdraw. */
  ghost predicate BackedEntry(s: Rib, k: RouteKey, entry: Option<EvpnPath>) {
    entry.Some? ==>
      var x := entry.value;
      if x.local then k in s.originated && OwnRoute(x, s.originated[k], s.me.routerId)
      else x.peerAddr in s.adjRibIn && k in s.adjRibIn[x.peerAddr] && x.SameRouteAs(s.adjRibIn[x.peerAddr][k])
  }

  ghost predicate BackedAt(s: Rib, k: RouteKey) {
    && (k in s.advertiseRib <==> k in s.originated || Stored(s, k))
    && (k in s.originated ==> k in s.locRib)
    && BackedEntry(s, k, Look(s.advertiseRib, k)) && BackedEntry(s, k, Look(s.locRib, k))
    && (k in s.locRib ==> s.locRib[k].importable)
  }

  ghost predicate Backed(s: Rib) {
    forall k :: BackedAt(s, k)
  }

  lemma EveryKeyServed(s: Rib, k: RouteKey)
    ensures ServesKey(s, k, true) <==> k in s.originated || Stored(s, k)
  {
    if a :| a in s.adjRibIn && k in s.adjRibIn[a] {
      if StoredFresh(s, k) {
        var b :| b in s.adjRibIn && k in s.adjRibIn[b] && !LeftOver(s, b, s.adjRibIn[b][k]);
        assert Counts(s, k, b);
      } else {
        assert Counts(s, k, a);
      }
    }
  }

  lemma RightIsBacked(s: Rib, k: RouteKey, entry: Option<EvpnPath>, all: bool)
    requires RightEntry(s, k, entry, all)
    ensures BackedEntry(s, k, entry) && (entry.Some? && !all ==> entry.value.importable)
  {}

  lemma DecisionBacked(s: Rib, now: nat)
    requires AllMarked(s.adjRibIn, s.imported)
    ensures Backed(Decide(s, now))
  {
    var r := Decide(s, now);
    forall k ensures BackedAt(r, k) {
      DecisionContents(s, now, k);
      EveryKeyServed(s, k);
      RightIsBacked(s, k, Look(r.advertiseRib, k), true);
      RightIsBacked(s, k, Look(r.locRib, k), false);
      DecideLeavesInputs(s, now, k);
    }
  }

  lemma DecideLeavesInputs(s: Rib, now: nat, k: RouteKey)
    ensures var r := Decide(s, now);
            && (Stored(r, k) <==> Stored(s, k)) && r.originated == s.originated
            && forall entry :: BackedEntry(r, k, entry) <==> BackedEntry(s, k, entry)
  {}

  lemma StoredAlike(s: Rib, r: Rib, k: RouteKey)
    requires SameTables(s.adjRibIn, r.adjRibIn)
    ensures Stored(s, k) <==> Stored(r, k)
  {
    if a :| a in s.adjRibIn && k in s.adjRibIn[a] {
      assert SameRib(s.adjRibIn[a], r.adjRibIn[a]) && k in r.adjRibIn[a];
    }
    if a :| a in r.adjRibIn && k in r.adjRibIn[a] {
      assert SameRib(s.adjRibIn[a], r.adjRibIn[a]) && k in s.adjRibIn[a];
    }
  }

  lemma EntryStaysBacked(s: Rib, r: Rib, k: RouteKey, entry: Option<EvpnPath>)
    requires SameTables(s.adjRibIn, r.adjRibIn) && r.originated == s.originated && r.me == s.me && BackedEntry(s, k, entry)
    ensures BackedEntry(r, k, entry)
  {
    if entry.Some? && !entry.value.local {
      var a := entry.value.peerAddr;
      assert SameRib(s.adjRibIn[a], r.adjRibIn[a]) && s.adjRibIn[a][k].SameRouteAs(r.adjRibIn[a][k]);
    }
  }

  lemma FlaggedStaysBacked(s: Rib, r: Rib)
    requires Flagged(s, r) && (!s.dirty ==> Backed(s))
    ensures !r.dirty ==> Backed(r)
  {
    if !r.dirty {
      forall k ensures BackedAt(r, k) {
        assert BackedAt(s, k);
        StoredAlike(s, r, k);
        EntryStaysBacked(s, r, k, Look(s.advertiseRib, k));
        EntryStaysBacked(s, r, k, Look(s.locRib, k));
      }
    }
  }

  lemma StepBacked(s: Rib, op: Op)
    requires AllMarked(s.adjRibIn, s.imported) && (!s.dirty ==> Backed(s))
    ensures !Apply(s, op).dirty ==> Backed(Apply(s, op))
    ensures op.Poll? ==> Backed(Apply(s, op))
  {
    if op.Poll? {
      DecisionBacked(s, op.now);
    } else {
      OpFlagged(s, op);
      FlaggedStaysBacked(s, Apply(s, op));
    }
  }

  lemma {:induction false} RunBacked(s: Rib, ops: seq<Op>)
    requires Initial(s) && Configured(s)
    ensures !Run(s, ops).dirty ==> Backed(Run(s, ops))
    decreases |ops|
  {
    if ops != [] {
      RunBacked(s, ops[..|ops| - 1]);
      RunGood(s, ops[..|ops| - 1]);
      StepBacked(Run(s, ops[..|ops| - 1]), ops[|ops| - 1]);
    }
  }

  /**
   After every poll of every run from the start, routes retained or not, the advertisement RIB
   serves exactly the attached and the stored keys, every attached key is in the Loc-RIB, and
   every entry of either table is an attached route or one that is still stored for its peer.
   */
  lemma PollLeavesTablesBacked(s: Rib, ops: seq<Op>, now: nat)
    requires Initial(s) && Configured(s)
    ensures Backed(Run(s, ops + [Poll(now)])) && AllMarked(Run(s, ops + [Poll(now)]).adjRibIn, Run(s, ops + [Poll(now)]).imported)
  {
    RunBacked(s, ops);
    RunGood(s, ops);
    RunGood(s, ops + [Poll(now)]);
    RunThenPoll(s, ops, now);
    StepBacked(Run(s, ops), Poll(now));
  }

  /** Neither table holds a path of this peer for the key, and nothing at all unless it is attached here or announced by another. */
  ghost predicate Forgotten(r: Rib, addr: Address, k: RouteKey) {
    && (addr in r.adjRibIn ==> k !in r.adjRibIn[addr])
    && (k in r.advertiseRib ==> r.advertiseRib[k].local || r.advertiseRib[k].peerAddr != addr)
    && (k in r.locRib ==> r.locRib[k].local || r.locRib[k].peerAddr != addr)
    && (k !in r.originated && !Stored(r, k) ==> k !in r.advertiseRib && k !in r.locRib)
  }

  lemma UnstoredIsForgotten(r: Rib, addr: Address, k: RouteKey)
    requires Backed(r) && (addr in r.adjRibIn ==> k !in r.adjRibIn[addr])
    ensures Forgotten(r, addr, k)
  {
    assert BackedAt(r, k);
  }

  lemma PollKeepsTables(s: Rib, now: nat)
    ensures Apply(s, Poll(now)).adjRibIn == s.adjRibIn
  {}

  /** A route that was withdrawn, swept by a refresh or purged after a restart is gone from both tables after the next poll. */
  lemma WithdrawnIsForgotten(s: Rib, ops: seq<Op>, removal: Op, now: nat, k: RouteKey)
    requires Initial(s) && Configured(s) && (removal.Withdraw? || removal.Sweep?) && k in removal.keys
    ensures Forgotten(Run(s, ops + [removal] + [Poll(now)]), removal.addr, k)
  {
    var m := Run(s, ops);
    assert (ops + [removal])[..|ops|] == ops;
    RemovalEffect(m, removal.addr, removal.keys);
    RunThenPoll(s, ops + [removal], now);
    PollLeavesTablesBacked(s, ops + [removal], now);
    PollKeepsTables(Run(s, ops + [removal]), now);
    UnstoredIsForgotten(Run(s, ops + [removal] + [Poll(now)]), removal.addr, k);
  }

  /** So is a route announced again with no Route Target left that anybody here imports, unless everything is retained. */
  lemma UnwantedIsForgotten(s: Rib, ops: seq<Op>, addr: Address, rid: Option<Address>, a: Announcement, at: nat, now: nat, k: RouteKey)
    requires Initial(s) && Configured(s)
    requires var m := Run(s, ops);
             && addr in m.peers && I.GoodNextHop(a.shared.route.nextHop) && I.GoodPath(m.me, m.peers[addr], a.shared.asPath)
             && !BeenHere(m.me, a.shared) && !Wanted(m, a.shared) && Latest(a, |a.nlri|, k).Some?
    ensures Forgotten(Run(s, ops + [Announce(addr, rid, a, at)] + [Poll(now)]), addr, k)
  {
    var m, op := Run(s, ops), Announce(addr, rid, a, at);
    assert (ops + [op])[..|ops|] == ops;
    AnnouncementEffect(m, addr, rid, a, at);
    assert AnnouncedAt(m, Run(s, ops + [op]), addr, rid, a, |a.nlri|, at, k);
    RunThenPoll(s, ops + [op], now);
    PollLeavesTablesBacked(s, ops + [op], now);
    PollKeepsTables(Run(s, ops + [op]), now);
    UnstoredIsForgotten(Run(s, ops + [op] + [Poll(now)]), addr, k);
  }
}
