/**
 The exact effect of announcing a stored route again, unchanged: the dirty flag stays
 clear, and the Loc-RIB is still right or no longer right depending on what was stale.
 */
module Reannouncement {
  import opened BgpTypes
  import opened Propagation
  import opened Speaker
  import opened SpeakerRuns
  import opened PeerSessions
  import opened Coherence
  import Decision

  function Learned(s: Speaker, p: Prefix): seq<BgpPath> {
    Gather(s.adjRibIn, Ascending(s.adjRibIn.Keys), p)
  }

  /** `x` is what its peer's table holds for the prefix. */
  predicate Holds(s: Speaker, p: Prefix, x: BgpPath) {
    x.peerAddr in s.adjRibIn && p in s.adjRibIn[x.peerAddr] && s.adjRibIn[x.peerAddr][p] == x
  }

  // ------------------------------------------------------------ candidate lists

  /** Every path of `ps` is from a peer of `addrs`, and no two are from the same. */
  ghost predicate OnePerPeer(ps: seq<BgpPath>, addrs: seq<Address>) {
    (forall x :: x in ps ==> x.peerAddr in addrs) && Decision.DistinctPeers(ps)
  }

  lemma OneMorePeer(x: BgpPath, rest: seq<BgpPath>, a: Address, addrs: seq<Address>)
    requires OnePerPeer(rest, addrs) && x.peerAddr == a && a !in addrs
    ensures OnePerPeer([x] + rest, [a] + addrs)
  {}

  lemma {:induction false} GatherOnePerPeer(s: Speaker, addrs: seq<Address>, p: Prefix)
    requires WellKeyed(s) && NoDuplicates(addrs)
    ensures OnePerPeer(Gather(s.adjRibIn, addrs, p), addrs)
    decreases |addrs|
  {
    if addrs != [] {
      var a, rest := addrs[0], Gather(s.adjRibIn, addrs[1..], p);
      assert addrs == [a] + addrs[1..] && NoDuplicates(addrs[1..]) && a !in addrs[1..];
      GatherOnePerPeer(s, addrs[1..], p);
      if a in s.adjRibIn && p in s.adjRibIn[a] {
        OneMorePeer(s.adjRibIn[a][p], rest, a, addrs[1..]);
      } else {
        assert [] + rest == rest;
      }
    }
  }

  lemma {:induction false} GatherHolds(s: Speaker, addrs: seq<Address>, p: Prefix)
    requires WellKeyed(s)
    ensures forall x :: x in Gather(s.adjRibIn, addrs, p) <==> x.peerAddr in addrs && Holds(s, p, x)
    decreases |addrs|
  {
    if addrs != [] {
      assert addrs == [addrs[0]] + addrs[1..];
      GatherHolds(s, addrs[1..], p);
    }
  }

  lemma LearnedHolds(s: Speaker, p: Prefix)
    requires WellKeyed(s)
    ensures forall x :: x in Learned(s, p) <==> Holds(s, p, x)
    ensures Decision.DistinctPeers(Learned(s, p))
  {
    AscendingMembers(s.adjRibIn.Keys);
    AscendingDistinct(s.adjRibIn.Keys);
    GatherHolds(s, Ascending(s.adjRibIn.Keys), p);
    GatherOnePerPeer(s, Ascending(s.adjRibIn.Keys), p);
  }

  lemma {:induction false} FreshMembers(s: Speaker, ps: seq<BgpPath>)
    ensures forall x :: x in Fresh(s, ps) <==> x in ps && !Stale(s, x)
    ensures Decision.DistinctPeers(ps) ==> Decision.DistinctPeers(Fresh(s, ps))
    decreases |ps|
  {
    if ps != [] {
      assert ps == [ps[0]] + ps[1..];
      FreshMembers(s, ps[1..]);
      if Decision.DistinctPeers(ps) {
        assert forall y :: y in ps[1..] ==> y.peerAddr != ps[0].peerAddr;
      }
    }
  }

  /** The learned paths that compete: the fresh ones, or all if none is fresh. */
  function Pool(s: Speaker, p: Prefix): seq<BgpPath> {
    if Fresh(s, Learned(s, p)) == [] then Learned(s, p) else Fresh(s, Learned(s, p))
  }

  lemma LocalWins(cs: seq<BgpPath>, l: BgpPath)
    requires l.source.Local? && forall c :: c in cs ==> !c.source.Local?
    ensures Decision.SelectBest(cs + [l]) == Some(l)
  {
    if cs == [] {
      assert cs + [l] == [l];
    } else {
      assert (cs + [l])[..|cs|] == cs;
      Decision.SelectedIsACandidate(cs);
    }
  }

  function Winner(s: Speaker, p: Prefix): Option<BgpPath> {
    Decision.SelectBest(Candidates(s, p))
  }

  lemma PoolWins(s: Speaker, p: Prefix)
    requires WellKeyed(s) && Learned(s, p) != [] && Decision.NoCircle(Learned(s, p))
    ensures Winner(s, p).Some?
    ensures p in s.originated ==> Winner(s, p).value == LocalPath(p, s.originated[p], s.me.routerId)
    ensures p !in s.originated ==> Decision.BeatsAll(Winner(s, p).value, Pool(s, p))
  {
    LearnedHolds(s, p);
    FreshMembers(s, Learned(s, p));
    var pool := Pool(s, p);
    if p in s.originated {
      LocalWins(pool, LocalPath(p, s.originated[p], s.me.routerId));
    } else {
      assert Candidates(s, p) == pool + [] == pool;
      assert forall x :: x in pool ==> x in Learned(s, p);
      Decision.NoCircleHasWinner(pool);
      Decision.SelectedIsACandidate(pool);
    }
  }

  // -------------------------------------------------------- before and after

  /** `path` is the route `addr` already has stored for it, received no earlier. */
  ghost predicate Repeats(s: Speaker, addr: Address, path: BgpPath) {
    && addr in s.peers && path.prefix in TableOf(s.adjRibIn, addr)
    && TableOf(s.adjRibIn, addr)[path.prefix].SameRouteAs(path)
    && TableOf(s.adjRibIn, addr)[path.prefix].receivedAt <= path.receivedAt
  }

  lemma RepeatKeyed(s: Speaker, addr: Address, path: BgpPath)
    requires WellKeyed(s) && Repeats(s, addr, path)
    ensures WellKeyed(InstallPath(s, addr, path))
  {
    InstallWellKeyed(s, addr, path);
  }

  lemma RepeatUnflagged(s: Speaker, addr: Address, path: BgpPath)
    requires WellKeyed(s) && Repeats(s, addr, path)
    ensures var r := InstallPath(s, addr, path);
            && r.dirty == s.dirty && r.locRib == s.locRib && r.originated == s.originated && r.me == s.me
            && r.adjRibIn.Keys == s.adjRibIn.Keys
  {
    var t := TableOf(s.adjRibIn, addr);
    assert path.prefix in t[path.prefix := path];
  }

  lemma RepeatJudges(s: Speaker, addr: Address, path: BgpPath, x: BgpPath)
    requires addr in s.peers
    ensures Stale(InstallPath(s, addr, path), x) <==> Stale(s, x)
  {}

  /** After the repetition the tables hold the same, with `path` in the place of the old copy. */
  lemma RepeatHolds(s: Speaker, addr: Address, path: BgpPath, q: Prefix, x: BgpPath)
    requires WellKeyed(s) && Repeats(s, addr, path)
    ensures var old_ := TableOf(s.adjRibIn, addr)[path.prefix];
            Holds(InstallPath(s, addr, path), q, x) <==>
              if q == path.prefix && x.peerAddr == addr then x == path else Holds(s, q, x)
  {
    var t := TableOf(s.adjRibIn, addr);
    assert path.prefix in t[path.prefix := path];
  }

  lemma StoredElsewhere(s: Speaker, addr: Address, path: BgpPath, a: Address, q: Prefix)
    requires Repeats(s, addr, path) && q != path.prefix
    ensures var r := InstallPath(s, addr, path);
            && (a in r.adjRibIn && q in r.adjRibIn[a] <==> a in s.adjRibIn && q in s.adjRibIn[a])
            && (a in s.adjRibIn && q in s.adjRibIn[a] ==> r.adjRibIn[a][q] == s.adjRibIn[a][q])
  {
    assert path.prefix in TableOf(s.adjRibIn, addr)[path.prefix := path];
  }

  lemma {:induction false} GatherElsewhere(s: Speaker, addr: Address, path: BgpPath, addrs: seq<Address>, q: Prefix)
    requires WellKeyed(s) && Repeats(s, addr, path) && q != path.prefix
    ensures Gather(InstallPath(s, addr, path).adjRibIn, addrs, q) == Gather(s.adjRibIn, addrs, q)
    decreases |addrs|
  {
    if addrs != [] {
      GatherElsewhere(s, addr, path, addrs[1..], q);
      StoredElsewhere(s, addr, path, addrs[0], q);
    }
  }

  lemma {:induction false} FreshElsewhere(s: Speaker, addr: Address, path: BgpPath, ps: seq<BgpPath>)
    requires addr in s.peers
    ensures Fresh(InstallPath(s, addr, path), ps) == Fresh(s, ps)
    decreases |ps|
  {
    if ps != [] {
      RepeatJudges(s, addr, path, ps[0]);
      FreshElsewhere(s, addr, path, ps[1..]);
    }
  }

  lemma OtherPrefixUnchanged(s: Speaker, addr: Address, path: BgpPath, q: Prefix)
    requires WellKeyed(s) && Repeats(s, addr, path) && q != path.prefix
    ensures Winner(InstallPath(s, addr, path), q) == Winner(s, q)
  {
    RepeatUnflagged(s, addr, path);
    GatherElsewhere(s, addr, path, Ascending(s.adjRibIn.Keys), q);
    FreshElsewhere(s, addr, path, Learned(s, q));
  }

  /** Two decisions that agree everywhere else are judged by the prefix in question. */
  lemma CoherentAt(rib: Table, d: Table, e: Table, p: Prefix)
    requires SameRib(rib, d) && p in d && p in e
    requires forall q :: q != p ==> (q in d <==> q in e) && (q in d ==> d[q] == e[q])
    ensures p in rib && rib[p].SameRouteAs(d[p])
    ensures SameRib(rib, e) <==> rib[p].SameRouteAs(e[p])
  {
    assert forall q :: q in d <==> q in e;
    forall q | q in rib && q != p ensures rib[q].SameRouteAs(e[q]) {
      assert rib[q].SameRouteAs(d[q]);
    }
  }

  lemma PrefixKnown(s: Speaker, x: BgpPath, p: Prefix)
    requires Holds(s, p, x)
    ensures p in AllPrefixes(s)
  {}

  lemma DecidesElsewhere(s: Speaker, addr: Address, path: BgpPath, d: Table, e: Table)
    requires WellKeyed(s) && Repeats(s, addr, path) && d == Decide(s) && e == Decide(InstallPath(s, addr, path))
    ensures forall q :: q != path.prefix ==> (q in d <==> q in e) && (q in d ==> d[q] == e[q])
  {
    InstallSameInputs(s, addr, path);
    PrefixesSame(s, InstallPath(s, addr, path));
    forall q | q != path.prefix ensures (q in d <==> q in e) && (q in d ==> d[q] == e[q]) {
      OtherPrefixUnchanged(s, addr, path, q);
    }
  }

  lemma DecidesThePrefix(s: Speaker, p: Prefix, x: BgpPath)
    requires Holds(s, p, x) && Winner(s, p).Some?
    ensures p in Decide(s) && Decide(s)[p] == Winner(s, p).value
  {
    PrefixKnown(s, x, p);
  }

  /** Only the winner of the repeated prefix is in question. */
  lemma CoherentAtThePrefix(s: Speaker, addr: Address, path: BgpPath)
    requires WellKeyed(s) && Repeats(s, addr, path) && Coherent(s)
    requires Winner(s, path.prefix).Some? && Winner(InstallPath(s, addr, path), path.prefix).Some?
    ensures path.prefix in s.locRib && s.locRib[path.prefix].SameRouteAs(Winner(s, path.prefix).value)
    ensures Coherent(InstallPath(s, addr, path)) <==>
            s.locRib[path.prefix].SameRouteAs(Winner(InstallPath(s, addr, path), path.prefix).value)
  {
    var r, p := InstallPath(s, addr, path), path.prefix;
    var d, e := Decide(s), Decide(r);
    DecidesElsewhere(s, addr, path, d, e);
    RepeatHolds(s, addr, path, p, path);
    DecidesThePrefix(s, p, TableOf(s.adjRibIn, addr)[p]);
    DecidesThePrefix(r, p, path);
    RepeatUnflagged(s, addr, path);
    CoherentAt(s.locRib, d, e, p);
  }

  lemma LikeMembersNoCircle(xs: seq<BgpPath>, ys: seq<BgpPath>)
    requires Decision.NoCircle(xs)
    requires forall y :: y in ys ==> exists x :: x in xs && x.SameRouteAs(y)
    ensures Decision.NoCircle(ys)
  {
    forall a, b, c | a in ys && b in ys && c in ys && Decision.ComparePaths(a, b).Less? && Decision.ComparePaths(b, c).Less?
      ensures Decision.ComparePaths(a, c).Less?
    {
      var a', b', c' :| a' in xs && b' in xs && c' in xs && a'.SameRouteAs(a) && b'.SameRouteAs(b) && c'.SameRouteAs(c);
      ComparisonIgnoresTime(a', a, b', b);
      ComparisonIgnoresTime(b', b, c', c);
      ComparisonIgnoresTime(a', a, c', c);
    }
  }

  lemma RepeatNoCircle(s: Speaker, addr: Address, path: BgpPath)
    requires WellKeyed(s) && Repeats(s, addr, path) && Decision.NoCircle(Learned(s, path.prefix))
    ensures Decision.NoCircle(Learned(InstallPath(s, addr, path), path.prefix))
  {
    var r, p := InstallPath(s, addr, path), path.prefix;
    var before := TableOf(s.adjRibIn, addr)[p];
    RepeatKeyed(s, addr, path);
    LearnedHolds(s, p);
    LearnedHolds(r, p);
    forall y | y in Learned(r, p) ensures exists x :: x in Learned(s, p) && x.SameRouteAs(y) {
      RepeatHolds(s, addr, path, p, y);
      var x := if y.peerAddr == addr then before else y;
      assert Holds(s, p, x) && x in Learned(s, p);
    }
    LikeMembersNoCircle(Learned(s, p), Learned(r, p));
  }

  // ------------------------------------------------------------- the exact condition

  /** Another peer's path for the prefix is fresh. */
  ghost predicate AnotherFresh(s: Speaker, addr: Address, p: Prefix) {
    exists b :: b in s.adjRibIn && b != addr && p in s.adjRibIn[b] && !Stale(s, s.adjRibIn[b][p])
  }

  /** What can be read off before the announcement. */
  ghost predicate Harmless(s: Speaker, addr: Address, path: BgpPath)
    requires Repeats(s, addr, path) && path.prefix in s.locRib
  {
    var before, best := TableOf(s.adjRibIn, addr)[path.prefix], s.locRib[path.prefix];
    || !Stale(s, before) || Stale(s, path)
    || best.source.Local? || best.SameRouteAs(before)
    || (AnotherFresh(s, addr, path.prefix) && !Decision.ComparePaths(before, best).Less?)
  }

  lemma FreshHolds(s: Speaker, p: Prefix)
    requires WellKeyed(s)
    ensures forall x :: x in Fresh(s, Learned(s, p)) <==> Holds(s, p, x) && !Stale(s, x)
  {
    LearnedHolds(s, p);
    FreshMembers(s, Learned(s, p));
  }

  /** A stale path that becomes fresh joins the fresh ones, and was the only one of its peer. */
  lemma FreshGains(s: Speaker, addr: Address, path: BgpPath)
    requires WellKeyed(s) && Repeats(s, addr, path)
    requires !Stale(s, path) && Stale(s, TableOf(s.adjRibIn, addr)[path.prefix])
    ensures var was, is_ := Fresh(s, Learned(s, path.prefix)), Fresh(InstallPath(s, addr, path), Learned(InstallPath(s, addr, path), path.prefix));
            forall x :: x in is_ <==> x == path || x in was
    ensures forall x :: x in Fresh(s, Learned(s, path.prefix)) ==> x.peerAddr != addr
  {
    var r, p := InstallPath(s, addr, path), path.prefix;
    RepeatKeyed(s, addr, path);
    FreshHolds(s, p);
    FreshHolds(r, p);
    forall x ensures x in Fresh(r, Learned(r, p)) <==> x == path || x in Fresh(s, Learned(s, p)) {
      RepeatHolds(s, addr, path, p, x);
      RepeatJudges(s, addr, path, x);
    }
  }

  lemma AnotherFreshIff(s: Speaker, addr: Address, p: Prefix)
    requires WellKeyed(s) && forall x :: x in Fresh(s, Learned(s, p)) ==> x.peerAddr != addr
    ensures AnotherFresh(s, addr, p) <==> Fresh(s, Learned(s, p)) != []
  {
    FreshHolds(s, p);
    var fresh_ := Fresh(s, Learned(s, p));
    if fresh_ != [] {
      var x := fresh_[0];
      assert x in fresh_ && Holds(s, p, x);
    }
    if b :| b in s.adjRibIn && b != addr && p in s.adjRibIn[b] && !Stale(s, s.adjRibIn[b][p]) {
      assert Holds(s, p, s.adjRibIn[b][p]);
    }
  }

  /** With one candidate more, the winner is the newcomer if it beats the winner so far, else that. */
  lemma Newcomer(w: BgpPath, v: BgpPath, x: BgpPath, cs: seq<BgpPath>, ds: seq<BgpPath>)
    requires Decision.BeatsAll(w, cs) && Decision.BeatsAll(v, ds) && forall y :: y in ds <==> y == x || y in cs
    requires w.peerAddr != x.peerAddr
    ensures v == if Decision.ComparePaths(x, w).Less? then x else w
  {
    Decision.ComparisonIsATournament(v, w);
    Decision.ComparisonIsATournament(x, w);
  }

  lemma OnlyOne(v: BgpPath, x: BgpPath, ds: seq<BgpPath>)
    requires Decision.BeatsAll(v, ds) && forall y :: y in ds <==> y == x
    ensures v == x
  {}

  /** Where the repeated path becomes fresh, and nothing local stands above it. */
  lemma FresherIsCoherentIff(s: Speaker, addr: Address, path: BgpPath, w: BgpPath, v: BgpPath, best: BgpPath)
    requires WellKeyed(s) && Repeats(s, addr, path) && Learned(s, path.prefix) != []
    requires !Stale(s, path) && Stale(s, TableOf(s.adjRibIn, addr)[path.prefix])
    requires Decision.BeatsAll(w, Pool(s, path.prefix)) && best.SameRouteAs(w)
    requires Decision.BeatsAll(v, Pool(InstallPath(s, addr, path), path.prefix))
    ensures var before := TableOf(s.adjRibIn, addr)[path.prefix];
            best.SameRouteAs(v) <==>
              best.SameRouteAs(before) || (AnotherFresh(s, addr, path.prefix) && !Decision.ComparePaths(before, best).Less?)
  {
    var r, p := InstallPath(s, addr, path), path.prefix;
    var before := TableOf(s.adjRibIn, addr)[p];
    var was, now := Fresh(s, Learned(s, p)), Fresh(r, Learned(r, p));
    FreshGains(s, addr, path);
    AnotherFreshIff(s, addr, p);
    assert path in now;
    if was == [] {
      OnlyOne(v, path, now);
    } else {
      Newcomer(w, v, path, was, now);
      ComparisonIgnoresTime(before, path, best, w);
    }
  }

  /** The entry of the prefix is still the winner if and only if the announcement was harmless. */
  lemma RepeatSettles(s: Speaker, addr: Address, path: BgpPath)
    requires WellKeyed(s) && Repeats(s, addr, path) && Decision.NoCircle(Learned(s, path.prefix))
    requires var p := path.prefix; p in s.locRib && Winner(s, p).Some? && s.locRib[p].SameRouteAs(Winner(s, p).value)
    ensures var w := Winner(InstallPath(s, addr, path), path.prefix);
            w.Some? && (s.locRib[path.prefix].SameRouteAs(w.value) <==> Harmless(s, addr, path))
  {
    var r, p := InstallPath(s, addr, path), path.prefix;
    var before := TableOf(s.adjRibIn, addr)[p];
    RepeatWinners(s, addr, path);
    if Stale(s, before) == Stale(s, path) {
      RepeatJudgedAlike(s, addr, path);
    } else if p !in s.originated {
      FresherIsCoherentIff(s, addr, path, Winner(s, p).value, Winner(r, p).value, s.locRib[p]);
    }
  }

  lemma RepeatJudgedAlike(s: Speaker, addr: Address, path: BgpPath)
    requires WellKeyed(s) && Repeats(s, addr, path) && Decision.NoCircle(Learned(s, path.prefix))
    requires Stale(s, path) <==> Stale(s, TableOf(s.adjRibIn, addr)[path.prefix])
    ensures var r, p := InstallPath(s, addr, path), path.prefix;
            Winner(s, p).Some? && Winner(r, p).Some? && Winner(s, p).value.SameRouteAs(Winner(r, p).value)
  {
    var r, p := InstallPath(s, addr, path), path.prefix;
    RepeatWinners(s, addr, path);
    InstallSameInputs(s, addr, path);
    forall a, q | a in s.adjRibIn && q in s.adjRibIn[a] && a in r.adjRibIn && q in r.adjRibIn[a]
      ensures Stale(s, s.adjRibIn[a][q]) <==> Stale(r, r.adjRibIn[a][q])
    {
      InstallJudges(s, addr, path, a, q);
    }
    CandidatesAlike(s, r, p);
    SelectSame(Candidates(s, p), Candidates(r, p));
  }

  /**
   Announcing a stored route again, unchanged, on a coherent Loc-RIB with a clear flag:
   the Loc-RIB stays coherent if and only if the announcement was harmless. The flag stays
   clear either way.
   */
  lemma RepeatIsCoherentIff(s: Speaker, addr: Address, path: BgpPath)
    requires WellKeyed(s) && !s.dirty && Coherent(s) && Repeats(s, addr, path)
    requires Decision.NoCircle(Learned(s, path.prefix))
    ensures path.prefix in s.locRib && !InstallPath(s, addr, path).dirty
    ensures Coherent(InstallPath(s, addr, path)) <==> Harmless(s, addr, path)
  {
    RepeatUnflagged(s, addr, path);
    RepeatWinners(s, addr, path);
    CoherentAtThePrefix(s, addr, path);
    RepeatSettles(s, addr, path);
  }

  lemma LearnedTwice(s: Speaker, addr: Address, path: BgpPath)
    requires WellKeyed(s) && Repeats(s, addr, path)
    ensures Learned(s, path.prefix) != [] && Learned(InstallPath(s, addr, path), path.prefix) != []
  {
    var r, p := InstallPath(s, addr, path), path.prefix;
    RepeatKeyed(s, addr, path);
    LearnedHolds(s, p);
    LearnedHolds(r, p);
    RepeatHolds(s, addr, path, p, path);
    assert TableOf(s.adjRibIn, addr)[p] in Learned(s, p) && path in Learned(r, p);
  }

  lemma PoolNotLocal(s: Speaker, p: Prefix, w: BgpPath)
    requires WellKeyed(s) && w in Pool(s, p)
    ensures !w.source.Local?
  {
    LearnedHolds(s, p);
    FreshMembers(s, Learned(s, p));
  }

  lemma RepeatWinners(s: Speaker, addr: Address, path: BgpPath)
    requires WellKeyed(s) && Repeats(s, addr, path) && Decision.NoCircle(Learned(s, path.prefix))
    ensures var r, p := InstallPath(s, addr, path), path.prefix;
            && Winner(s, p).Some? && Winner(r, p).Some? && Learned(s, p) != []
            && (p in s.originated ==> Winner(s, p) == Winner(r, p) && Winner(s, p).value.source.Local?)
            && (p !in s.originated ==>
                  && Decision.BeatsAll(Winner(s, p).value, Pool(s, p)) && Decision.BeatsAll(Winner(r, p).value, Pool(r, p))
                  && !Winner(s, p).value.source.Local?)
  {
    var r, p := InstallPath(s, addr, path), path.prefix;
    RepeatKeyed(s, addr, path);
    RepeatUnflagged(s, addr, path);
    RepeatNoCircle(s, addr, path);
    LearnedTwice(s, addr, path);
    PoolWins(s, p);
    PoolWins(r, p);
    if p !in s.originated {
      PoolNotLocal(s, p, Winner(s, p).value);
    }
  }

  // ---------------------------------------------------------- as an UPDATE

  /** An UPDATE that announces one prefix, within the limit, installs its path and does nothing else. */
  lemma AnnouncedAlone(s: Speaker, addr: Address, attrs: PathAttributes, path: BgpPath, now: nat)
    requires addr in s.peers && CheckAttributes(s.me, s.peers[addr].config, attrs).Usable?
    requires EventFor(s, addr, attrs, path.prefix, now) == Install(path)
    requires |TableOf(s.adjRibIn, addr)[path.prefix := path]| <= s.peers[addr].config.maxPrefixes
    ensures HandleUpdate(s, addr, Update([], Some(attrs), [path.prefix]), now) == InstallPath(s, addr, path)
  {
    var ps := [path.prefix];
    assert ps[..0] == [];
    var r := InstallPath(s, addr, path);
    SetTableLook(s, addr, TableOf(s.adjRibIn, addr)[path.prefix := path]);
    assert AnnounceAll(s, addr, attrs, ps[..0], now) == (s, false);
    assert AnnounceAll(s, addr, attrs, ps, now) == (r, false);
  }
}
