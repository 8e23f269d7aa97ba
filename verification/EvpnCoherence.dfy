/**
 What the EVPN Loc-RIB and advertisement RIB hold, over whole runs and with peers' routes
 retained: exactly when both are what the decision process would compute from scratch.
 */
module EvpnCoherence {
  import opened BgpTypes
  import P = Propagation
  import opened Evpn
  import opened EvpnRib
  import Speaker

  // ---------------------------------------------------- equal up to timestamps

  ghost predicate SameRib(a: Table, b: Table) {
    a.Keys == b.Keys && forall k :: k in a ==> a[k].SameRouteAs(b[k])
  }

  ghost predicate SameTables(a: map<Address, Table>, b: map<Address, Table>) {
    a.Keys == b.Keys && forall x :: x in a ==> SameRib(a[x], b[x])
  }

  ghost predicate SameList(a: seq<EvpnPath>, b: seq<EvpnPath>) {
    |a| == |b| && forall i :: 0 <= i < |a| ==> a[i].SameRouteAs(b[i])
  }

  lemma SameTablesReflexive(a: map<Address, Table>)
    ensures SameTables(a, a)
  {}

  lemma SameListAppend(a: seq<EvpnPath>, b: seq<EvpnPath>, c: seq<EvpnPath>, d: seq<EvpnPath>)
    requires SameList(a, b) && SameList(c, d)
    ensures SameList(a + c, b + d)
  {}

  lemma {:induction false} GatherSame(a: map<Address, Table>, b: map<Address, Table>, addrs: seq<Address>, k: RouteKey)
    requires SameTables(a, b)
    ensures SameList(Gather(a, addrs, k), Gather(b, addrs, k))
    decreases |addrs|
  {
    if addrs != [] {
      GatherSame(a, b, addrs[1..], k);
      if addrs[0] in a {
        assert SameRib(a[addrs[0]], b[addrs[0]]);
      }
    }
  }

  lemma {:induction false} UsableSame(xs: seq<EvpnPath>, ys: seq<EvpnPath>)
    requires SameList(xs, ys)
    ensures SameList(Usable(xs), Usable(ys))
    decreases |xs|
  {
    if xs != [] {
      assert xs[0].SameRouteAs(ys[0]);
      UsableSame(xs[1..], ys[1..]);
    }
  }

  lemma ComparisonIgnoresTime(a: EvpnPath, a': EvpnPath, b: EvpnPath, b': EvpnPath)
    requires a.SameRouteAs(a') && b.SameRouteAs(b')
    ensures ComparePaths(a, b) == ComparePaths(a', b')
  {}

  /** Both select nothing, or the same route. */
  predicate SameChoice(x: Option<EvpnPath>, y: Option<EvpnPath>) {
    x.Some? == y.Some? && (x.Some? ==> x.value.SameRouteAs(y.value))
  }

  lemma {:induction false} SelectSame(xs: seq<EvpnPath>, ys: seq<EvpnPath>)
    requires SameList(xs, ys)
    ensures SameChoice(SelectBest(xs), SelectBest(ys))
    decreases |xs|
  {
    if |xs| > 1 {
      var n := |xs| - 1;
      SelectSame(xs[..n], ys[..n]);
      ComparisonIgnoresTime(xs[n], ys[n], SelectBest(xs[..n]).value, SelectBest(ys[..n]).value);
    }
  }

  lemma SameChoiceTransitive(x: Option<EvpnPath>, y: Option<EvpnPath>, z: Option<EvpnPath>)
    requires SameChoice(x, y)
    ensures SameChoice(x, z) <==> SameChoice(y, z)
  {}

  // ------------------------------------------------------- the dirty flag

  /** Either the change is flagged, or the stored routes and the two outputs are as before. */
  ghost predicate Flagged(s: Rib, r: Rib) {
    || r.dirty
    || (&& !s.dirty && r.locRib == s.locRib && r.advertiseRib == s.advertiseRib
        && r.originated == s.originated && r.me == s.me && SameTables(s.adjRibIn, r.adjRibIn))
  }

  lemma FlaggedTransitive(s: Rib, r: Rib, q: Rib)
    requires Flagged(s, r) && Flagged(r, q)
    ensures Flagged(s, q)
  {
    if !q.dirty {
      forall x | x in s.adjRibIn ensures SameRib(s.adjRibIn[x], q.adjRibIn[x]) {
        assert SameRib(s.adjRibIn[x], r.adjRibIn[x]) && SameRib(r.adjRibIn[x], q.adjRibIn[x]);
      }
    }
  }

  lemma FlaggedReflexive(s: Rib)
    ensures Flagged(s, s)
  {
    SameTablesReflexive(s.adjRibIn);
  }

  lemma StoreFlagged(s: Rib, addr: Address, path: EvpnPath)
    ensures Flagged(s, StorePath(s, addr, path))
  {
    var r := StorePath(s, addr, path);
    var t, k := TableOf(s.adjRibIn, addr), path.route.Key();
    if !r.dirty {
      assert k in t && t[k].SameRouteAs(path) && k in t[k := path];
      assert SameRib(t, t[k := path]);
    }
  }

  lemma DropFlagged(s: Rib, addr: Address, k: RouteKey)
    ensures Flagged(s, DropPath(s, addr, k))
  {
    FlaggedReflexive(s);
  }

  lemma {:induction false} ImportAllFlagged(s: Rib, addr: Address, rid: Option<Address>, a: Announcement, n: nat, now: nat)
    requires addr in s.peers && n <= |a.nlri|
    ensures Flagged(s, ImportAll(s, addr, rid, a, n, now).0)
    decreases n
  {
    FlaggedReflexive(s);
    if n > 0 {
      var (before, over) := ImportAll(s, addr, rid, a, n - 1, now);
      ImportAllFlagged(s, addr, rid, a, n - 1, now);
      if !over {
        ImportStepFlagged(s, before, addr, rid, a.Advert(a.nlri[n - 1]), now);
      }
    }
  }

  lemma ImportOneFlagged(s: Rib, addr: Address, rid: Option<Address>, v: EvpnAdvert, now: nat)
    requires addr in s.peers
    ensures Flagged(s, ImportOne(s, addr, rid, v, now))
  {
    StoreFlagged(s, addr, PathFrom(s.me, s.peers[addr], rid, v, s.imported, now));
    DropFlagged(s, addr, v.route.Key());
  }

  lemma ImportStepFlagged(s: Rib, before: Rib, addr: Address, rid: Option<Address>, v: EvpnAdvert, now: nat)
    requires addr in before.peers && Flagged(s, before)
    ensures Flagged(s, ImportStep(before, addr, rid, v, now).0)
  {
    ImportOneFlagged(before, addr, rid, v, now);
    FlaggedTransitive(s, before, ImportOne(before, addr, rid, v, now));
  }

  lemma {:induction false} RemoveAllFlagged(s: Rib, addr: Address, keys: seq<RouteKey>)
    ensures Flagged(s, RemoveAll(s, addr, keys))
    decreases |keys|
  {
    FlaggedReflexive(s);
    if keys != [] {
      var n := |keys| - 1;
      RemoveAllFlagged(s, addr, keys[..n]);
      DropFlagged(RemoveAll(s, addr, keys[..n]), addr, keys[n]);
      FlaggedTransitive(s, RemoveAll(s, addr, keys[..n]), RemoveAll(s, addr, keys));
    }
  }

  lemma AnnounceFlagged(s: Rib, addr: Address, rid: Option<Address>, a: Announcement, now: nat)
    requires addr in s.peers
    ensures Flagged(s, Import(s, addr, rid, a, now).0)
  {
    FlaggedReflexive(s);
    ImportAllFlagged(s, addr, rid, a, |a.nlri|, now);
  }

  lemma DownFlagged(s: Rib, addr: Address, retain: bool, cutoff: Option<nat>)
    requires AllMarked(s.adjRibIn, s.imported)
    ensures Flagged(s, PeerDown(s, addr, retain, cutoff))
  {
    FlaggedReflexive(s);
    if !PeerDown(s, addr, retain, cutoff).dirty {
      DownKeepsTables(s, addr, retain, cutoff);
    }
  }

  /** Every operation other than a poll flags what it changes in either table's inputs. */
  lemma OpFlagged(s: Rib, op: Op)
    requires AllMarked(s.adjRibIn, s.imported) && !op.Poll?
    ensures Flagged(s, Apply(s, op))
  {
    FlaggedReflexive(s);
    match op
    case Announce(addr, rid, a, now) => if addr in s.peers { AnnounceFlagged(s, addr, rid, a, now); }
    case Withdraw(addr, keys) => RemoveAllFlagged(s, addr, keys);
    case Sweep(addr, keys) => RemoveAllFlagged(s, addr, keys);
    case Down(addr, retain, cutoff) => DownFlagged(s, addr, retain, cutoff);
    case _ =>
  }

  // ------------------------------------------------------- entry by entry

  function Look(t: Table, k: RouteKey): Option<EvpnPath> {
    if k in t then Some(t[k]) else None
  }

  /** Both tables are what the decision process would file now, up to the time of receipt. */
  ghost predicate Coherent(s: Rib, now: nat) {
    SameRib(s.locRib, LocOn(s, AllKeys(s), now)) && SameRib(s.advertiseRib, AdvertiseOn(s, AllKeys(s), now))
  }

  ghost predicate CoherentAt(s: Rib, k: RouteKey, now: nat) {
    SameChoice(Look(s.locRib, k), BestUsable(s, k, now)) && SameChoice(Look(s.advertiseRib, k), BestFor(s, k, now))
  }

  lemma CandidatesAreKnown(s: Rib, k: RouteKey, now: nat)
    ensures Candidates(s, k, now) != [] ==> k in AllKeys(s)
  {
    var learned := Gather(s.adjRibIn, Speaker.Ascending(s.adjRibIn.Keys), k);
    Gathered(s, Speaker.Ascending(s.adjRibIn.Keys), k);
    FreshOnes(s, learned);
    if learned != [] {
      assert learned[0] in learned && FromTables(s, learned[0], k);
    }
  }

  lemma Decided(s: Rib, k: RouteKey, now: nat)
    ensures Look(LocOn(s, AllKeys(s), now), k) == BestUsable(s, k, now)
    ensures Look(AdvertiseOn(s, AllKeys(s), now), k) == BestFor(s, k, now)
  {
    var cs := Candidates(s, k, now);
    CandidatesAreKnown(s, k, now);
    UsableOnes(cs);
    SelectedIsACandidate(cs);
    SelectedIsACandidate(Usable(cs));
  }

  lemma SameByLook(t: Table, u: Table)
    ensures SameRib(t, u) <==> forall k :: SameChoice(Look(t, k), Look(u, k))
  {
    if forall k :: SameChoice(Look(t, k), Look(u, k)) {
      forall k ensures (k in t <==> k in u) && (k in t ==> t[k].SameRouteAs(u[k])) {
        assert SameChoice(Look(t, k), Look(u, k));
      }
    }
  }

  lemma CoherentPointwise(s: Rib, now: nat)
    ensures Coherent(s, now) <==> forall k :: CoherentAt(s, k, now)
  {
    var loc, adv := LocOn(s, AllKeys(s), now), AdvertiseOn(s, AllKeys(s), now);
    SameByLook(s.locRib, loc);
    SameByLook(s.advertiseRib, adv);
    forall k ensures CoherentAt(s, k, now) <==> SameChoice(Look(s.locRib, k), Look(loc, k)) && SameChoice(Look(s.advertiseRib, k), Look(adv, k)) {
      Decided(s, k, now);
    }
  }

  // ---------------------------------------------- one peer's paths judged otherwise

  /** The fresh ones, if the path of `addr` is stale exactly when `verdict` says so. */
  function FreshIf(s: Rib, ps: seq<EvpnPath>, addr: Address, verdict: bool): seq<EvpnPath> {
    if ps == [] then []
    else
      (if (if ps[0].peerAddr == addr then verdict else Stale(s, ps[0])) then [] else [ps[0]])
      + FreshIf(s, ps[1..], addr, verdict)
  }

  function Learned(s: Rib, k: RouteKey): seq<EvpnPath> {
    Gather(s.adjRibIn, Speaker.Ascending(s.adjRibIn.Keys), k)
  }

  function Hosted(s: Rib, k: RouteKey, now: nat): seq<EvpnPath> {
    if k in s.originated then [LocalEvpnPath(s.originated[k], s.me.routerId, now)] else []
  }

  function CandidatesIf(s: Rib, k: RouteKey, now: nat, addr: Address, verdict: bool): seq<EvpnPath> {
    var fresh_ := FreshIf(s, Learned(s, k), addr, verdict);
    (if fresh_ == [] then Learned(s, k) else fresh_) + Hosted(s, k, now)
  }

  /** The same stored routes up to the time of receipt, and at most the paths of `addr` judged otherwise. */
  ghost predicate Rejudged(s: Rib, r: Rib, addr: Address) {
    && SameTables(s.adjRibIn, r.adjRibIn) && r.originated == s.originated && r.me == s.me
    && (forall a, k :: a != addr && a in s.adjRibIn && k in s.adjRibIn[a] && a in r.adjRibIn && k in r.adjRibIn[a] ==>
          (Stale(s, s.adjRibIn[a][k]) <==> Stale(r, r.adjRibIn[a][k])))
  }

  /** The path of `addr` for the key, if stored, is judged by `verdict` in `r`. */
  ghost predicate JudgedBy(r: Rib, addr: Address, k: RouteKey, verdict: bool) {
    k in TableOf(r.adjRibIn, addr) ==> (Stale(r, TableOf(r.adjRibIn, addr)[k]) <==> verdict)
  }

  lemma FreshIfCons(s: Rib, x: EvpnPath, xs: seq<EvpnPath>, addr: Address, verdict: bool)
    ensures FreshIf(s, [x] + xs, addr, verdict) ==
            (if (if x.peerAddr == addr then verdict else Stale(s, x)) then [] else [x]) + FreshIf(s, xs, addr, verdict)
  {
    assert ([x] + xs)[1..] == xs;
  }

  lemma FreshCons(s: Rib, x: EvpnPath, xs: seq<EvpnPath>)
    ensures Fresh(s, [x] + xs) == (if Stale(s, x) then [] else [x]) + Fresh(s, xs)
  {
    assert ([x] + xs)[1..] == xs;
  }

  lemma StoredAlike(s: Rib, r: Rib, addr: Address, a: Address, k: RouteKey, verdict: bool)
    requires AllMarked(s.adjRibIn, s.imported) && Rejudged(s, r, addr) && JudgedBy(r, addr, k, verdict)
    requires a in s.adjRibIn && k in s.adjRibIn[a]
    ensures a in r.adjRibIn && k in r.adjRibIn[a] && s.adjRibIn[a][k].SameRouteAs(r.adjRibIn[a][k])
    ensures s.adjRibIn[a][k].peerAddr == a
    ensures Stale(r, r.adjRibIn[a][k]) <==> if a == addr then verdict else Stale(s, s.adjRibIn[a][k])
  {
    assert SameRib(s.adjRibIn[a], r.adjRibIn[a]);
    assert Marked(s.adjRibIn[a], a, s.imported);
  }

  lemma HeadAlike(s: Rib, r: Rib, addr: Address, verdict: bool, x: EvpnPath, y: EvpnPath, xs: seq<EvpnPath>, ys: seq<EvpnPath>)
    requires x.SameRouteAs(y) && (Stale(r, y) <==> if x.peerAddr == addr then verdict else Stale(s, x))
    requires SameList(FreshIf(s, xs, addr, verdict), Fresh(r, ys))
    ensures SameList(FreshIf(s, [x] + xs, addr, verdict), Fresh(r, [y] + ys))
  {
    FreshIfCons(s, x, xs, addr, verdict);
    FreshCons(r, y, ys);
  }

  lemma GatherStep(rib: map<Address, Table>, addrs: seq<Address>, k: RouteKey)
    requires addrs != []
    ensures var rest := Gather(rib, addrs[1..], k);
            Gather(rib, addrs, k) == if addrs[0] in rib && k in rib[addrs[0]] then [rib[addrs[0]][k]] + rest else rest
  {
    var rest := Gather(rib, addrs[1..], k);
    assert [] + rest == rest;
  }

  lemma {:induction false} FreshAlike(s: Rib, r: Rib, addr: Address, addrs: seq<Address>, k: RouteKey, verdict: bool)
    requires AllMarked(s.adjRibIn, s.imported) && Rejudged(s, r, addr) && JudgedBy(r, addr, k, verdict)
    ensures SameList(FreshIf(s, Gather(s.adjRibIn, addrs, k), addr, verdict), Fresh(r, Gather(r.adjRibIn, addrs, k)))
    decreases |addrs|
  {
    if addrs != [] {
      var a := addrs[0];
      FreshAlike(s, r, addr, addrs[1..], k, verdict);
      GatherStep(s.adjRibIn, addrs, k);
      GatherStep(r.adjRibIn, addrs, k);
      if a in s.adjRibIn && k in s.adjRibIn[a] {
        StoredAlike(s, r, addr, a, k, verdict);
        HeadAlike(s, r, addr, verdict, s.adjRibIn[a][k], r.adjRibIn[a][k], Gather(s.adjRibIn, addrs[1..], k), Gather(r.adjRibIn, addrs[1..], k));
      } else {
        NotStoredAlike(s, r, addr, a, k);
      }
    }
  }

  lemma NotStoredAlike(s: Rib, r: Rib, addr: Address, a: Address, k: RouteKey)
    requires Rejudged(s, r, addr) && !(a in s.adjRibIn && k in s.adjRibIn[a])
    ensures !(a in r.adjRibIn && k in r.adjRibIn[a])
  {
    assert a in r.adjRibIn ==> SameRib(s.adjRibIn[a], r.adjRibIn[a]);
  }

  lemma EitherThen(a: seq<EvpnPath>, b: seq<EvpnPath>, c: seq<EvpnPath>, d: seq<EvpnPath>, e: seq<EvpnPath>, f: seq<EvpnPath>)
    requires SameList(a, b) && SameList(c, d) && SameList(e, f)
    ensures SameList((if a == [] then c else a) + e, (if b == [] then d else b) + f)
  {}

  lemma CandidateParts(s: Rib, k: RouteKey, now: nat)
    ensures Candidates(s, k, now) ==
            (if Fresh(s, Learned(s, k)) == [] then Learned(s, k) else Fresh(s, Learned(s, k))) + Hosted(s, k, now)
  {}

  lemma PartsAlike(s: Rib, r: Rib, addr: Address, k: RouteKey, now: nat, later: nat, verdict: bool)
    requires AllMarked(s.adjRibIn, s.imported) && Rejudged(s, r, addr) && JudgedBy(r, addr, k, verdict)
    ensures SameList(FreshIf(s, Learned(s, k), addr, verdict), Fresh(r, Learned(r, k)))
    ensures SameList(Learned(s, k), Learned(r, k)) && SameList(Hosted(s, k, now), Hosted(r, k, later))
  {
    var addrs := Speaker.Ascending(s.adjRibIn.Keys);
    assert r.adjRibIn.Keys == s.adjRibIn.Keys;
    GatherSame(s.adjRibIn, r.adjRibIn, addrs, k);
    FreshAlike(s, r, addr, addrs, k, verdict);
  }

  lemma CandidatesAlike(s: Rib, r: Rib, addr: Address, k: RouteKey, now: nat, later: nat, verdict: bool)
    requires AllMarked(s.adjRibIn, s.imported) && Rejudged(s, r, addr) && JudgedBy(r, addr, k, verdict)
    ensures SameList(CandidatesIf(s, k, now, addr, verdict), Candidates(r, k, later))
  {
    PartsAlike(s, r, addr, k, now, later, verdict);
    CandidateParts(r, k, later);
    EitherThen(FreshIf(s, Learned(s, k), addr, verdict), Fresh(r, Learned(r, k)), Learned(s, k), Learned(r, k),
               Hosted(s, k, now), Hosted(r, k, later));
  }

  function Chosen(cs: seq<EvpnPath>, all: bool): Option<EvpnPath> {
    SelectBest(if all then cs else Usable(cs))
  }

  lemma ChoicesAlike(s: Rib, r: Rib, addr: Address, k: RouteKey, now: nat, later: nat, verdict: bool, all: bool)
    requires AllMarked(s.adjRibIn, s.imported) && Rejudged(s, r, addr) && JudgedBy(r, addr, k, verdict)
    ensures SameChoice(Chosen(CandidatesIf(s, k, now, addr, verdict), all), Chosen(Candidates(r, k, later), all))
  {
    var xs, ys := CandidatesIf(s, k, now, addr, verdict), Candidates(r, k, later);
    CandidatesAlike(s, r, addr, k, now, later, verdict);
    SelectSame(xs, ys);
    UsableSame(xs, ys);
    SelectSame(Usable(xs), Usable(ys));
  }

  // ------------------------------------------------- lists that grow or shrink

  lemma SameRouteSamePath(xs: seq<EvpnPath>, a: EvpnPath, b: EvpnPath)
    requires DistinctSources(xs) && a in xs && b in xs && a.SameRouteAs(b)
    ensures a == b
  {}

  ghost predicate Included(xs: seq<EvpnPath>, ys: seq<EvpnPath>) {
    forall x :: x in xs ==> x in ys
  }

  lemma LeastOf(xs: seq<EvpnPath>)
    requires DistinctSources(xs)
    ensures xs == [] <==> SelectBest(xs).None?
    ensures xs != [] ==> IsLeast(SelectBest(xs).value, xs)
  {
    SelectedIsACandidate(xs);
    if xs != [] {
      SelectsTheLeast(xs);
    }
  }

  lemma IncludedInNothing(xs: seq<EvpnPath>, ys: seq<EvpnPath>)
    requires Included(xs, ys)
    ensures xs != [] ==> ys != []
  {
    if xs != [] {
      assert xs[0] in ys;
    }
  }

  /** Candidates disappear: the choice stands exactly if the chosen one stays. */
  lemma ShrinkIff(old_: seq<EvpnPath>, new_: seq<EvpnPath>)
    requires DistinctSources(old_) && DistinctSources(new_) && Included(new_, old_)
    ensures SameChoice(SelectBest(old_), SelectBest(new_)) <==> (old_ == [] || SelectBest(old_).value in new_)
  {
    LeastOf(old_);
    LeastOf(new_);
    IncludedInNothing(new_, old_);
    if old_ != [] && new_ != [] {
      var w, v := SelectBest(old_).value, SelectBest(new_).value;
      if w in new_ {
        assert v != w ==> ComparePaths(v, w).Less? && ComparePaths(w, v).Less?;
        Antisymmetric(v, w);
      } else if v.SameRouteAs(w) {
        SameRouteSamePath(old_, v, w);
      }
    }
  }

  /** Candidates appear: the choice stands exactly if none of them beats the chosen one. */
  lemma GrowIff(old_: seq<EvpnPath>, new_: seq<EvpnPath>)
    requires DistinctSources(old_) && DistinctSources(new_) && Included(old_, new_)
    ensures SameChoice(SelectBest(old_), SelectBest(new_)) <==>
            forall y :: y in new_ ==> old_ != [] && !ComparePaths(y, SelectBest(old_).value).Less?
  {
    LeastOf(old_);
    LeastOf(new_);
    IncludedInNothing(old_, new_);
    if new_ != [] && old_ == [] {
      assert new_[0] in new_;
    } else if new_ != [] {
      var w, v := SelectBest(old_).value, SelectBest(new_).value;
      Antisymmetric(v, w);
      if v == w {
        forall y | y in new_ ensures !ComparePaths(y, w).Less? {
          Antisymmetric(y, w);
        }
      } else if v.SameRouteAs(w) {
        SameRouteSamePath(new_, v, w);
      } else {
        assert v in new_ && ComparePaths(v, w).Less?;
      }
    }
  }

  // ------------------------------------------------------------ who competes

  /** `p` is what its peer's table holds for the key. */
  ghost predicate Holds(s: Rib, k: RouteKey, p: EvpnPath) {
    p.peerAddr in s.adjRibIn && k in s.adjRibIn[p.peerAddr] && s.adjRibIn[p.peerAddr][k] == p
  }

  lemma LearnedMembers(s: Rib, k: RouteKey)
    requires AllMarked(s.adjRibIn, s.imported)
    ensures forall p :: p in Learned(s, k) <==> Holds(s, k, p)
    ensures forall p :: p in Learned(s, k) ==> !p.local
  {
    var addrs := Speaker.Ascending(s.adjRibIn.Keys);
    Speaker.AscendingMembers(s.adjRibIn.Keys);
    Gathered(s, addrs, k);
    forall p ensures p in Learned(s, k) <==> Holds(s, k, p) {
      if p in Learned(s, k) {
        var a :| a in s.adjRibIn && k in s.adjRibIn[a] && s.adjRibIn[a][k] == p;
        assert Marked(s.adjRibIn[a], a, s.imported);
      }
    }
    forall p | p in Learned(s, k) ensures !p.local {
      assert Marked(s.adjRibIn[p.peerAddr], p.peerAddr, s.imported);
    }
  }

  lemma {:induction false} FreshIfMembers(s: Rib, ps: seq<EvpnPath>, addr: Address, verdict: bool)
    ensures forall p :: p in FreshIf(s, ps, addr, verdict) <==> p in ps && !(if p.peerAddr == addr then verdict else Stale(s, p))
    decreases |ps|
  {
    if ps != [] {
      assert ps == [ps[0]] + ps[1..];
      FreshIfMembers(s, ps[1..], addr, verdict);
    }
  }

  lemma {:induction false} FreshIfOnePerPeer(s: Rib, ps: seq<EvpnPath>, addrs: seq<Address>, addr: Address, verdict: bool)
    requires OnePerPeer(ps, addrs)
    ensures OnePerPeer(FreshIf(s, ps, addr, verdict), addrs)
    decreases |ps|
  {
    if ps != [] {
      assert ps == [ps[0]] + ps[1..];
      FreshIfOnePerPeer(s, ps[1..], addrs, addr, verdict);
      FreshIfMembers(s, ps[1..], addr, verdict);
      assert forall p :: p in ps[1..] ==> p.peerAddr != ps[0].peerAddr;
    }
  }

  lemma CandidatesIfDistinct(s: Rib, k: RouteKey, now: nat, addr: Address, verdict: bool)
    requires AllMarked(s.adjRibIn, s.imported)
    ensures DistinctSources(CandidatesIf(s, k, now, addr, verdict))
  {
    var addrs := Speaker.Ascending(s.adjRibIn.Keys);
    Speaker.AscendingDistinct(s.adjRibIn.Keys);
    GatherOnePerPeer(s, addrs, k);
    FreshIfOnePerPeer(s, Learned(s, k), addrs, addr, verdict);
  }

  /** Another peer's path for the key is fresh. */
  ghost predicate OtherFresh(s: Rib, addr: Address, k: RouteKey) {
    exists b :: b in s.adjRibIn && b != addr && k in s.adjRibIn[b] && !Stale(s, s.adjRibIn[b][k])
  }

  predicate Admitted(p: EvpnPath, all: bool) {
    all || p.local || p.importable
  }

  function Pool(s: Rib, k: RouteKey, now: nat, addr: Address, verdict: bool, all: bool): seq<EvpnPath> {
    var cs := CandidatesIf(s, k, now, addr, verdict);
    if all then cs else Usable(cs)
  }

  /** A learned path competes, with the peer's own judged by `verdict`. */
  ghost predicate Competes(s: Rib, k: RouteKey, addr: Address, verdict: bool, p: EvpnPath) {
    Holds(s, k, p) &&
    (if verdict && !OtherFresh(s, addr, k) then true
     else if p.peerAddr == addr then !verdict
     else !Stale(s, p))
  }

  lemma SomeoneFresh(s: Rib, k: RouteKey, addr: Address)
    requires AllMarked(s.adjRibIn, s.imported)
    ensures FreshIf(s, Learned(s, k), addr, true) != [] ==> OtherFresh(s, addr, k)
  {
    var fs := FreshIf(s, Learned(s, k), addr, true);
    LearnedMembers(s, k);
    FreshIfMembers(s, Learned(s, k), addr, true);
    if fs != [] {
      assert fs[0] in fs && Holds(s, k, fs[0]);
    }
  }

  lemma FreshIfEmpty(s: Rib, k: RouteKey, addr: Address, verdict: bool)
    requires AllMarked(s.adjRibIn, s.imported) && k in TableOf(s.adjRibIn, addr)
    ensures FreshIf(s, Learned(s, k), addr, verdict) == [] <==> verdict && !OtherFresh(s, addr, k)
  {
    var fs := FreshIf(s, Learned(s, k), addr, verdict);
    LearnedMembers(s, k);
    FreshIfMembers(s, Learned(s, k), addr, verdict);
    SomeoneFresh(s, k, addr);
    var x := TableOf(s.adjRibIn, addr)[k];
    assert Marked(s.adjRibIn[addr], addr, s.imported) && Holds(s, k, x);
    if OtherFresh(s, addr, k) {
      var b :| b in s.adjRibIn && b != addr && k in s.adjRibIn[b] && !Stale(s, s.adjRibIn[b][k]);
      assert Marked(s.adjRibIn[b], b, s.imported) && Holds(s, k, s.adjRibIn[b][k]);
      assert s.adjRibIn[b][k] in fs;
    } else if !verdict {
      assert x in fs;
    }
  }

  lemma PoolMembers(s: Rib, k: RouteKey, now: nat, addr: Address, verdict: bool, all: bool)
    requires AllMarked(s.adjRibIn, s.imported) && k in TableOf(s.adjRibIn, addr)
    ensures forall p :: p in Pool(s, k, now, addr, verdict, all) <==>
              Admitted(p, all) && (p in Hosted(s, k, now) || Competes(s, k, addr, verdict, p))
    ensures DistinctSources(Pool(s, k, now, addr, verdict, all))
  {
    var cs := CandidatesIf(s, k, now, addr, verdict);
    LearnedMembers(s, k);
    FreshIfMembers(s, Learned(s, k), addr, verdict);
    FreshIfEmpty(s, k, addr, verdict);
    CandidatesIfDistinct(s, k, now, addr, verdict);
    UsableOnes(cs);
    UsableDistinct(cs);
    forall p ensures p in cs <==> p in Hosted(s, k, now) || Competes(s, k, addr, verdict, p) {}
  }

  // ------------------------------------------------------------- the exact condition

  predicate Unbeaten(entry: Option<EvpnPath>, y: EvpnPath) {
    entry.Some? && !ComparePaths(y, entry.value).Less?
  }

  /**
   The entry stands when the path of `addr` for the key goes from `was` to `is_` (true is
   stale). All of it can be read off before that happens.
   */
  ghost predicate EntryStands(s: Rib, addr: Address, k: RouteKey, was: bool, is_: bool, entry: Option<EvpnPath>, all: bool)
    requires k in TableOf(s.adjRibIn, addr)
  {
    var x := TableOf(s.adjRibIn, addr)[k];
    if was == is_ then true
    else if OtherFresh(s, addr, k) then
      if is_ then !(entry.Some? && entry.value.SameRouteAs(x))
      else Admitted(x, all) ==> Unbeaten(entry, x)
    else if is_ then
      forall b :: b in s.adjRibIn && k in s.adjRibIn[b] && Admitted(s.adjRibIn[b][k], all) ==> Unbeaten(entry, s.adjRibIn[b][k])
    else
      entry.Some? ==> entry.value.SameRouteAs(x) || entry.value.local
  }

  lemma EntryUnbeaten(entry: Option<EvpnPath>, old_: seq<EvpnPath>, y: EvpnPath)
    requires DistinctSources(old_) && SameChoice(entry, SelectBest(old_))
    ensures Unbeaten(entry, y) <==> old_ != [] && !ComparePaths(y, SelectBest(old_).value).Less?
    ensures y in old_ ==> Unbeaten(entry, y)
  {
    LeastOf(old_);
    if entry.Some? {
      ComparisonIgnoresTime(y, y, entry.value, SelectBest(old_).value);
      Antisymmetric(y, SelectBest(old_).value);
    }
  }

  lemma GrownEntryIff(old_: seq<EvpnPath>, new_: seq<EvpnPath>, entry: Option<EvpnPath>)
    requires DistinctSources(old_) && DistinctSources(new_) && Included(old_, new_) && SameChoice(entry, SelectBest(old_))
    ensures SameChoice(entry, SelectBest(new_)) <==> forall y :: y in new_ ==> Unbeaten(entry, y)
    ensures forall y :: y in old_ ==> Unbeaten(entry, y)
  {
    GrowIff(old_, new_);
    SameChoiceTransitive(entry, SelectBest(old_), SelectBest(new_));
    forall y
      ensures Unbeaten(entry, y) <==> old_ != [] && !ComparePaths(y, SelectBest(old_).value).Less?
      ensures y in old_ ==> Unbeaten(entry, y)
    {
      EntryUnbeaten(entry, old_, y);
    }
  }

  lemma EntrySame(entry: Option<EvpnPath>, xs: seq<EvpnPath>, old_: seq<EvpnPath>, x: EvpnPath)
    requires SameChoice(entry, SelectBest(old_)) && DistinctSources(xs) && Included(old_, xs) && x in xs
    ensures entry.Some? ==> (entry.value.SameRouteAs(x) <==> SelectBest(old_).value == x)
  {
    SelectedIsACandidate(old_);
    if entry.Some? && entry.value.SameRouteAs(x) {
      SameRouteSamePath(xs, SelectBest(old_).value, x);
    }
  }

  /** Everything that could compete for the key. */
  lemma Everything(s: Rib, k: RouteKey, now: nat)
    requires AllMarked(s.adjRibIn, s.imported)
    ensures DistinctSources(Learned(s, k) + Hosted(s, k, now))
    ensures forall p :: p in Learned(s, k) + Hosted(s, k, now) <==> p in Hosted(s, k, now) || Holds(s, k, p)
  {
    Speaker.AscendingDistinct(s.adjRibIn.Keys);
    GatherOnePerPeer(s, Speaker.Ascending(s.adjRibIn.Keys), k);
    LearnedMembers(s, k);
  }

  lemma HeldHere(s: Rib, addr: Address, k: RouteKey)
    requires AllMarked(s.adjRibIn, s.imported) && k in TableOf(s.adjRibIn, addr)
    ensures var x := TableOf(s.adjRibIn, addr)[k]; Holds(s, k, x) && x.peerAddr == addr && !x.local
  {
    assert Marked(s.adjRibIn[addr], addr, s.imported);
  }

  lemma Loses(s: Rib, addr: Address, k: RouteKey, now: nat, entry: Option<EvpnPath>, all: bool)
    requires AllMarked(s.adjRibIn, s.imported) && k in TableOf(s.adjRibIn, addr) && OtherFresh(s, addr, k)
    requires SameChoice(entry, SelectBest(Pool(s, k, now, addr, false, all)))
    ensures SameChoice(entry, SelectBest(Pool(s, k, now, addr, true, all))) <==> EntryStands(s, addr, k, false, true, entry, all)
  {
    var x, U := TableOf(s.adjRibIn, addr)[k], Learned(s, k) + Hosted(s, k, now);
    var old_, new_ := Pool(s, k, now, addr, false, all), Pool(s, k, now, addr, true, all);
    PoolMembers(s, k, now, addr, false, all);
    PoolMembers(s, k, now, addr, true, all);
    Everything(s, k, now);
    HeldHere(s, addr, k);
    ShrinkIff(old_, new_);
    EntrySame(entry, U, old_, x);
    SelectedIsACandidate(old_);
    SameChoiceTransitive(entry, SelectBest(old_), SelectBest(new_));
  }

  lemma Gains(s: Rib, addr: Address, k: RouteKey, now: nat, entry: Option<EvpnPath>, all: bool)
    requires AllMarked(s.adjRibIn, s.imported) && k in TableOf(s.adjRibIn, addr) && OtherFresh(s, addr, k)
    requires SameChoice(entry, SelectBest(Pool(s, k, now, addr, true, all)))
    ensures SameChoice(entry, SelectBest(Pool(s, k, now, addr, false, all))) <==> EntryStands(s, addr, k, true, false, entry, all)
  {
    var x := TableOf(s.adjRibIn, addr)[k];
    var old_, new_ := Pool(s, k, now, addr, true, all), Pool(s, k, now, addr, false, all);
    PoolMembers(s, k, now, addr, true, all);
    PoolMembers(s, k, now, addr, false, all);
    HeldHere(s, addr, k);
    GrownEntryIff(old_, new_, entry);
    assert forall y :: y in new_ <==> y in old_ || (y == x && Admitted(x, all));
  }

  lemma Widens(s: Rib, addr: Address, k: RouteKey, now: nat, entry: Option<EvpnPath>, all: bool)
    requires AllMarked(s.adjRibIn, s.imported) && k in TableOf(s.adjRibIn, addr) && !OtherFresh(s, addr, k)
    requires SameChoice(entry, SelectBest(Pool(s, k, now, addr, false, all)))
    ensures SameChoice(entry, SelectBest(Pool(s, k, now, addr, true, all))) <==> EntryStands(s, addr, k, false, true, entry, all)
  {
    var old_, new_ := Pool(s, k, now, addr, false, all), Pool(s, k, now, addr, true, all);
    PoolMembers(s, k, now, addr, false, all);
    PoolMembers(s, k, now, addr, true, all);
    HeldHere(s, addr, k);
    GrownEntryIff(old_, new_, entry);
    StoredForall(s, k, entry, all);
    assert forall y :: y in new_ <==> y in old_ || (Holds(s, k, y) && Admitted(y, all));
  }

  lemma StoredForall(s: Rib, k: RouteKey, entry: Option<EvpnPath>, all: bool)
    requires AllMarked(s.adjRibIn, s.imported)
    ensures (forall y :: Holds(s, k, y) && Admitted(y, all) ==> Unbeaten(entry, y)) <==>
            (forall b :: b in s.adjRibIn && k in s.adjRibIn[b] && Admitted(s.adjRibIn[b][k], all) ==> Unbeaten(entry, s.adjRibIn[b][k]))
  {
    forall b | b in s.adjRibIn && k in s.adjRibIn[b] ensures Holds(s, k, s.adjRibIn[b][k]) {
      assert Marked(s.adjRibIn[b], b, s.imported);
    }
  }

  lemma Narrows(s: Rib, addr: Address, k: RouteKey, now: nat, entry: Option<EvpnPath>, all: bool)
    requires AllMarked(s.adjRibIn, s.imported) && k in TableOf(s.adjRibIn, addr) && !OtherFresh(s, addr, k)
    requires SameChoice(entry, SelectBest(Pool(s, k, now, addr, true, all)))
    ensures SameChoice(entry, SelectBest(Pool(s, k, now, addr, false, all))) <==> EntryStands(s, addr, k, true, false, entry, all)
  {
    var x, U := TableOf(s.adjRibIn, addr)[k], Learned(s, k) + Hosted(s, k, now);
    var old_, new_ := Pool(s, k, now, addr, true, all), Pool(s, k, now, addr, false, all);
    PoolMembers(s, k, now, addr, true, all);
    PoolMembers(s, k, now, addr, false, all);
    Everything(s, k, now);
    LearnedMembers(s, k);
    HeldHere(s, addr, k);
    ShrinkIff(old_, new_);
    EntrySame(entry, U, old_, x);
    SelectedIsACandidate(old_);
    SameChoiceTransitive(entry, SelectBest(old_), SelectBest(new_));
  }

  /** One key and one table: the entry is still the choice if and only if it stands. */
  lemma EntryIff(s: Rib, addr: Address, k: RouteKey, now: nat, was: bool, is_: bool, entry: Option<EvpnPath>, all: bool)
    requires AllMarked(s.adjRibIn, s.imported) && k in TableOf(s.adjRibIn, addr)
    requires SameChoice(entry, SelectBest(Pool(s, k, now, addr, was, all)))
    ensures SameChoice(entry, SelectBest(Pool(s, k, now, addr, is_, all))) <==> EntryStands(s, addr, k, was, is_, entry, all)
  {
    if was != is_ {
      if OtherFresh(s, addr, k) {
        if is_ { Loses(s, addr, k, now, entry, all); } else { Gains(s, addr, k, now, entry, all); }
      } else {
        if is_ { Widens(s, addr, k, now, entry, all); } else { Narrows(s, addr, k, now, entry, all); }
      }
    }
  }

  /** Both entries for the key stand when `s` becomes `r`. */
  ghost predicate KeyStands(s: Rib, r: Rib, addr: Address, k: RouteKey)
    requires k in TableOf(s.adjRibIn, addr)
  {
    var was := Stale(s, TableOf(s.adjRibIn, addr)[k]);
    var is_ := k in TableOf(r.adjRibIn, addr) && Stale(r, TableOf(r.adjRibIn, addr)[k]);
    EntryStands(s, addr, k, was, is_, Look(s.locRib, k), false) && EntryStands(s, addr, k, was, is_, Look(s.advertiseRib, k), true)
  }

  lemma RejudgedSelf(s: Rib, addr: Address)
    ensures Rejudged(s, s, addr)
  {
    SameTablesReflexive(s.adjRibIn);
  }

  lemma ChoiceThrough(entry: Option<EvpnPath>, x: Option<EvpnPath>, y: Option<EvpnPath>)
    requires SameChoice(x, y)
    ensures SameChoice(entry, x) <==> SameChoice(entry, y)
  {}

  lemma StoredInBoth(s: Rib, r: Rib, addr: Address, k: RouteKey)
    requires Rejudged(s, r, addr)
    ensures k in TableOf(s.adjRibIn, addr) <==> k in TableOf(r.adjRibIn, addr)
  {
    if addr in s.adjRibIn {
      assert SameRib(s.adjRibIn[addr], r.adjRibIn[addr]);
    }
  }

  /** One table's entry for one key of the peer. */
  lemma OneEntryIff(s: Rib, r: Rib, addr: Address, k: RouteKey, now: nat, was: bool, is_: bool, entry: Option<EvpnPath>, all: bool)
    requires AllMarked(s.adjRibIn, s.imported) && Rejudged(s, r, addr) && k in TableOf(s.adjRibIn, addr)
    requires JudgedBy(s, addr, k, was) && JudgedBy(r, addr, k, is_)
    requires SameChoice(entry, Chosen(Candidates(s, k, now), all))
    ensures SameChoice(entry, Chosen(Candidates(r, k, now), all)) <==> EntryStands(s, addr, k, was, is_, entry, all)
  {
    RejudgedSelf(s, addr);
    ChoicesAlike(s, s, addr, k, now, now, was, all);
    ChoicesAlike(s, r, addr, k, now, now, is_, all);
    ChoiceThrough(entry, Chosen(CandidatesIf(s, k, now, addr, was), all), Chosen(Candidates(s, k, now), all));
    ChoiceThrough(entry, Chosen(CandidatesIf(s, k, now, addr, is_), all), Chosen(Candidates(r, k, now), all));
    EntryIff(s, addr, k, now, was, is_, entry, all);
  }

  lemma OtherKey(s: Rib, r: Rib, addr: Address, k: RouteKey, now: nat, later: nat, all: bool)
    requires AllMarked(s.adjRibIn, s.imported) && Rejudged(s, r, addr)
    requires k in TableOf(s.adjRibIn, addr) ==>
               k in TableOf(r.adjRibIn, addr)
               && (Stale(s, TableOf(s.adjRibIn, addr)[k]) <==> Stale(r, TableOf(r.adjRibIn, addr)[k]))
    ensures SameChoice(Chosen(Candidates(s, k, now), all), Chosen(Candidates(r, k, later), all))
  {
    var verdict := k in TableOf(s.adjRibIn, addr) && Stale(s, TableOf(s.adjRibIn, addr)[k]);
    StoredInBoth(s, r, addr, k);
    RejudgedSelf(s, addr);
    ChoicesAlike(s, s, addr, k, now, now, verdict, all);
    ChoicesAlike(s, r, addr, k, now, later, verdict, all);
  }

  lemma KeyIff(s: Rib, r: Rib, addr: Address, k: RouteKey, now: nat)
    requires AllMarked(s.adjRibIn, s.imported) && Rejudged(s, r, addr) && CoherentAt(s, k, now)
    requires r.locRib == s.locRib && r.advertiseRib == s.advertiseRib
    ensures CoherentAt(r, k, now) <==> (k in TableOf(s.adjRibIn, addr) ==> KeyStands(s, r, addr, k))
  {
    if k in TableOf(s.adjRibIn, addr) {
      StoredInBoth(s, r, addr, k);
      var was, is_ := Stale(s, TableOf(s.adjRibIn, addr)[k]), Stale(r, TableOf(r.adjRibIn, addr)[k]);
      OneEntryIff(s, r, addr, k, now, was, is_, Look(s.locRib, k), false);
      OneEntryIff(s, r, addr, k, now, was, is_, Look(s.advertiseRib, k), true);
    } else {
      OtherKey(s, r, addr, k, now, now, false);
      OtherKey(s, r, addr, k, now, now, true);
      ChoiceThrough(Look(s.locRib, k), BestUsable(s, k, now), BestUsable(r, k, now));
      ChoiceThrough(Look(s.advertiseRib, k), BestFor(s, k, now), BestFor(r, k, now));
    }
  }

  ghost predicate AllStand(s: Rib, r: Rib, addr: Address) {
    forall k :: k in TableOf(s.adjRibIn, addr) ==> KeyStands(s, r, addr, k)
  }

  /** One peer's paths judged otherwise: both tables stay right if and only if every entry for them stands. */
  lemma RejudgedIff(s: Rib, r: Rib, addr: Address, now: nat)
    requires AllMarked(s.adjRibIn, s.imported) && Rejudged(s, r, addr) && Coherent(s, now)
    requires r.locRib == s.locRib && r.advertiseRib == s.advertiseRib
    ensures Coherent(r, now) <==> AllStand(s, r, addr)
  {
    CoherentPointwise(s, now);
    CoherentPointwise(r, now);
    forall k ensures CoherentAt(r, k, now) <==> (k in TableOf(s.adjRibIn, addr) ==> KeyStands(s, r, addr, k)) {
      KeyIff(s, r, addr, k, now);
    }
  }

  lemma DecisionCoherent(s: Rib, now: nat, later: nat)
    requires AllMarked(s.adjRibIn, s.imported)
    ensures Coherent(Decide(s, now), later)
  {
    var r := Decide(s, now);
    SameTablesReflexive(s.adjRibIn);
    CoherentPointwise(r, later);
    forall k ensures CoherentAt(r, k, later) {
      Decided(s, k, now);
      OtherKey(s, r, 0, k, now, later, false);
      OtherKey(s, r, 0, k, now, later, true);
    }
  }

  // ------------------------------------------------------------------- one step

  ghost predicate SameElsewhere(s: Rib, r: Rib, other: Address) {
    (other in r.adjRibIn <==> other in s.adjRibIn) && (other in s.adjRibIn ==> r.adjRibIn[other] == s.adjRibIn[other])
  }

  lemma ImportOneElsewhere(s: Rib, addr: Address, rid: Option<Address>, v: EvpnAdvert, now: nat, other: Address)
    requires addr in s.peers && other != addr
    ensures SameElsewhere(s, ImportOne(s, addr, rid, v, now), other)
  {}

  lemma {:induction false} ImportElsewhere(s: Rib, addr: Address, rid: Option<Address>, a: Announcement, n: nat, now: nat, other: Address)
    requires addr in s.peers && n <= |a.nlri| && other != addr
    ensures SameElsewhere(s, ImportAll(s, addr, rid, a, n, now).0, other)
    decreases n
  {
    if n > 0 {
      var (before, over) := ImportAll(s, addr, rid, a, n - 1, now);
      ImportElsewhere(s, addr, rid, a, n - 1, now, other);
      if !over {
        ImportOneElsewhere(before, addr, rid, a.Advert(a.nlri[n - 1]), now, other);
      }
    }
  }

  lemma {:induction false} RemovedNothing(s: Rib, addr: Address, keys: seq<RouteKey>)
    requires !RemoveAll(s, addr, keys).dirty
    ensures RemoveAll(s, addr, keys) == s
    decreases |keys|
  {
    if keys != [] {
      RemovedNothing(s, addr, keys[..|keys| - 1]);
    }
  }

  predicate Rejudging(op: Op) {
    op.Announce? || op.Retention? || op.Down?
  }

  lemma ImportedElsewhere(s: Rib, addr: Address, rid: Option<Address>, a: Announcement, now: nat, other: Address)
    requires addr in s.peers && other != addr
    ensures SameElsewhere(s, Import(s, addr, rid, a, now).0, other)
  {
    ImportElsewhere(s, addr, rid, a, |a.nlri|, now, other);
  }

  lemma AnnounceRejudges(s: Rib, addr: Address, rid: Option<Address>, a: Announcement, now: nat)
    requires addr in s.peers && !Import(s, addr, rid, a, now).0.dirty
    ensures Rejudged(s, Import(s, addr, rid, a, now).0, addr)
  {
    var r := Import(s, addr, rid, a, now).0;
    AnnounceFlagged(s, addr, rid, a, now);
    forall x, k | x != addr && x in s.adjRibIn && k in s.adjRibIn[x] && x in r.adjRibIn && k in r.adjRibIn[x]
      ensures Stale(s, s.adjRibIn[x][k]) <==> Stale(r, r.adjRibIn[x][k])
    {
      ImportedElsewhere(s, addr, rid, a, now, x);
    }
  }

  lemma RetainedElsewhere(s: Rib, r: Rib, addr: Address)
    requires AllMarked(s.adjRibIn, s.imported) && r == s.(retained := r.retained)
    requires forall a :: a != addr ==> (a in r.retained <==> a in s.retained) && (a in s.retained ==> r.retained[a] == s.retained[a])
    ensures Rejudged(s, r, addr)
  {
    SameTablesReflexive(s.adjRibIn);
    forall a, k | a != addr && a in s.adjRibIn && k in s.adjRibIn[a] ensures Stale(s, s.adjRibIn[a][k]) <==> Stale(r, s.adjRibIn[a][k]) {
      assert Marked(s.adjRibIn[a], a, s.imported);
    }
  }

  lemma DownRejudges(s: Rib, addr: Address, retain: bool, cutoff: Option<nat>)
    requires AllMarked(s.adjRibIn, s.imported) && !PeerDown(s, addr, retain, cutoff).dirty
    ensures Rejudged(s, PeerDown(s, addr, retain, cutoff), addr)
    ensures PeerDown(s, addr, retain, cutoff) == s.(retained := PeerDown(s, addr, retain, cutoff).retained)
  {
    DownKeepsTables(s, addr, retain, cutoff);
    RetainedElsewhere(s, PeerDown(s, addr, retain, cutoff), addr);
  }

  lemma RetentionRejudges(s: Rib, addr: Address, until: Option<Option<nat>>)
    requires AllMarked(s.adjRibIn, s.imported)
    ensures var r := Apply(s, Retention(addr, until)); Rejudged(s, r, addr) && r == s.(retained := r.retained)
  {
    RetainedElsewhere(s, Apply(s, Retention(addr, until)), addr);
  }

  /** The step may judge the peer's paths otherwise, and does nothing else that matters. */
  ghost predicate OnlyRejudges(s: Rib, r: Rib, addr: Address) {
    Rejudged(s, r, addr) && r.locRib == s.locRib && r.advertiseRib == s.advertiseRib
  }

  lemma HeardRejudges(s: Rib, op: Op)
    requires op.Announce? && !Apply(s, op).dirty
    ensures OnlyRejudges(s, Apply(s, op), op.addr)
  {
    if op.addr in s.peers {
      AnnounceRejudges(s, op.addr, op.rid, op.announcement, op.now);
    } else {
      RejudgedSelf(s, op.addr);
    }
  }

  lemma LossRejudges(s: Rib, op: Op)
    requires AllMarked(s.adjRibIn, s.imported) && op.Down? && !Apply(s, op).dirty
    ensures OnlyRejudges(s, Apply(s, op), op.addr)
  {
    DownRejudges(s, op.addr, op.retain, op.cutoff);
  }

  lemma StepRejudges(s: Rib, op: Op)
    requires AllMarked(s.adjRibIn, s.imported) && Rejudging(op) && !Apply(s, op).dirty
    ensures OnlyRejudges(s, Apply(s, op), op.addr)
  {
    if op.Announce? {
      HeardRejudges(s, op);
    } else if op.Down? {
      LossRejudges(s, op);
    } else {
      RetentionRejudges(s, op.addr, op.until);
    }
  }

  lemma StepUnchanged(s: Rib, op: Op)
    requires !Rejudging(op) && !op.Poll? && !Apply(s, op).dirty
    ensures Apply(s, op) == s
  {
    match op
    case Withdraw(addr, keys) => RemovedNothing(s, addr, keys);
    case Sweep(addr, keys) => RemovedNothing(s, addr, keys);
    case _ =>
  }

  /** What can be read off before the step: no entry falls that the step does not flag. */
  ghost predicate HarmlessStep(s: Rib, op: Op) {
    Rejudging(op) && !Apply(s, op).dirty ==> AllStand(s, Apply(s, op), op.addr)
  }

  ghost predicate CleanIsCoherent(s: Rib, now: nat) {
    !s.dirty ==> Coherent(s, now)
  }

  lemma StepIff(s: Rib, op: Op, now: nat)
    requires AllMarked(s.adjRibIn, s.imported) && CleanIsCoherent(s, now)
    ensures CleanIsCoherent(Apply(s, op), now) <==> HarmlessStep(s, op)
  {
    if op.Poll? {
      DecisionCoherent(s, op.now, now);
    } else if !Apply(s, op).dirty {
      OpFlagged(s, op);
      if Rejudging(op) {
        StepRejudges(s, op);
        RejudgedIff(s, Apply(s, op), op.addr, now);
      } else {
        StepUnchanged(s, op);
      }
    }
  }

  // -------------------------------------------------------------------- runs

  /** A clear flag always means that both tables are what the decision process would file. */
  ghost predicate AlwaysCoherent(s: Rib, ops: seq<Op>, now: nat) {
    forall n :: 0 <= n <= |ops| ==> CleanIsCoherent(Run(s, ops[..n]), now)
  }

  ghost predicate AlwaysHarmless(s: Rib, ops: seq<Op>) {
    forall n :: 0 <= n < |ops| ==> HarmlessStep(Run(s, ops[..n]), ops[n])
  }

  lemma RunNext(s: Rib, ops: seq<Op>, n: nat)
    requires n < |ops|
    ensures Run(s, ops[..n + 1]) == Apply(Run(s, ops[..n]), ops[n])
  {
    assert ops[..n + 1][..n] == ops[..n];
  }

  lemma {:induction false} HarmlessStaysCoherent(s: Rib, ops: seq<Op>, n: nat, now: nat)
    requires Initial(s) && Configured(s) && AlwaysHarmless(s, ops) && n <= |ops|
    ensures CleanIsCoherent(Run(s, ops[..n]), now)
    decreases n
  {
    if n > 0 {
      HarmlessStaysCoherent(s, ops, n - 1, now);
      RunGood(s, ops[..n - 1]);
      RunNext(s, ops, n - 1);
      StepIff(Run(s, ops[..n - 1]), ops[n - 1], now);
    }
  }

  lemma CoherentIsHarmless(s: Rib, ops: seq<Op>, n: nat, now: nat)
    requires Initial(s) && Configured(s) && AlwaysCoherent(s, ops, now) && n < |ops|
    ensures HarmlessStep(Run(s, ops[..n]), ops[n])
  {
    RunGood(s, ops[..n]);
    RunNext(s, ops, n);
    assert CleanIsCoherent(Run(s, ops[..n]), now) && CleanIsCoherent(Run(s, ops[..n + 1]), now);
    StepIff(Run(s, ops[..n]), ops[n], now);
  }

  /**
   In every run from the start, with any peers' routes retained: a clear flag always means that
   the Loc-RIB and the advertisement RIB are what the decision process would file, up to the
   time of receipt, if and only if no unflagged announcement, session loss or change of
   retention lets an entry fall.
   */
  lemma CoherentThroughoutIff(s: Rib, ops: seq<Op>, now: nat)
    requires Initial(s) && Configured(s)
    ensures AlwaysCoherent(s, ops, now) <==> AlwaysHarmless(s, ops)
  {
    if AlwaysHarmless(s, ops) {
      forall n | 0 <= n <= |ops| ensures CleanIsCoherent(Run(s, ops[..n]), now) {
        HarmlessStaysCoherent(s, ops, n, now);
      }
    }
    if AlwaysCoherent(s, ops, now) {
      forall n | 0 <= n < |ops| ensures HarmlessStep(Run(s, ops[..n]), ops[n]) {
        CoherentIsHarmless(s, ops, n, now);
      }
    }
  }

  /** The entry for the key is, up to the time of receipt, the one least of the candidates; no entry, no candidate. */
  ghost predicate HoldsLeast(t: Table, k: RouteKey, cs: seq<EvpnPath>) {
    && (k in t <==> cs != [])
    && (k in t ==> exists w :: IsLeast(w, cs) && t[k].SameRouteAs(w))
  }

  lemma ChoiceIsLeast(t: Table, k: RouteKey, cs: seq<EvpnPath>)
    requires SameChoice(Look(t, k), SelectBest(cs)) && DistinctSources(cs)
    ensures HoldsLeast(t, k, cs)
  {
    LeastOf(cs);
    if k in t {
      assert IsLeast(SelectBest(cs).value, cs);
    }
  }

  lemma LeastFiled(r: Rib, later: nat, k: RouteKey)
    requires AllMarked(r.adjRibIn, r.imported) && Coherent(r, later)
    ensures HoldsLeast(r.advertiseRib, k, Candidates(r, k, later)) && HoldsLeast(r.locRib, k, Usable(Candidates(r, k, later)))
  {
    CoherentPointwise(r, later);
    assert CoherentAt(r, k, later);
    CandidatesHaveDistinctSources(r, k, later);
    UsableDistinct(Candidates(r, k, later));
    ChoiceIsLeast(r.advertiseRib, k, Candidates(r, k, later));
    ChoiceIsLeast(r.locRib, k, Usable(Candidates(r, k, later)));
  }

  lemma RunThenPoll(s: Rib, ops: seq<Op>, now: nat)
    ensures Run(s, ops + [Poll(now)]) == Apply(Run(s, ops), Poll(now))
  {
    assert (ops + [Poll(now)])[..|ops|] == ops;
  }

  /**
   After every poll of such a run the advertisement RIB holds for each key the one least of
   all candidates and the Loc-RIB the one least of those this speaker may use, and both hold
   nothing else.
   */
  lemma PollLeavesTablesCoherent(s: Rib, ops: seq<Op>, now: nat, later: nat, k: RouteKey)
    requires Initial(s) && Configured(s) && AlwaysHarmless(s, ops)
    ensures var r := Run(s, ops + [Poll(now)]);
            && Coherent(r, later)
            && HoldsLeast(r.advertiseRib, k, Candidates(r, k, later))
            && HoldsLeast(r.locRib, k, Usable(Candidates(r, k, later)))
  {
    HarmlessStaysCoherent(s, ops, |ops|, later);
    assert ops[..|ops|] == ops;
    RunGood(s, ops);
    RunGood(s, ops + [Poll(now)]);
    RunThenPoll(s, ops, now);
    StepIff(Run(s, ops), Poll(now), later);
    LeastFiled(Run(s, ops + [Poll(now)]), later, k);
  }

  /** No peer's routes are retained at any point of the run. */
  ghost predicate NeverRetains(s: Rib, ops: seq<Op>) {
    forall n :: 0 <= n <= |ops| ==> Run(s, ops[..n]).retained == map[]
  }

  /** Every run without retained peers is such a run. */
  lemma NothingRetainedIsHarmless(s: Rib, ops: seq<Op>)
    requires NeverRetains(s, ops)
    ensures AlwaysHarmless(s, ops)
  {
    forall n | 0 <= n < |ops| ensures HarmlessStep(Run(s, ops[..n]), ops[n]) {
      RunNext(s, ops, n);
      assert Run(s, ops[..n]).retained == map[] && Run(s, ops[..n + 1]).retained == map[];
    }
  }

  /** The session loss of a peer whose paths were fresh and are kept, judged stale before the cutoff. */
  predicate NowStale(p: EvpnPath, cutoff: Option<nat>) {
    cutoff.None? || p.receivedAt < cutoff.value
  }

  ghost predicate BothStand(s: Rib, addr: Address, k: RouteKey)
    requires k in TableOf(s.adjRibIn, addr)
  {
    && EntryStands(s, addr, k, false, true, Look(s.locRib, k), false)
    && EntryStands(s, addr, k, false, true, Look(s.advertiseRib, k), true)
  }

  lemma DownKey(s: Rib, addr: Address, cutoff: Option<nat>, k: RouteKey)
    requires AllMarked(s.adjRibIn, s.imported) && addr !in s.retained && k in TableOf(s.adjRibIn, addr)
    ensures KeyStands(s, s.(retained := s.retained[addr := cutoff]), addr, k) <==>
            (NowStale(TableOf(s.adjRibIn, addr)[k], cutoff) ==> BothStand(s, addr, k))
  {
    HeldHere(s, addr, k);
  }

  /**
   Losing a session while its EVPN routes are kept never sets the flag. Both tables stay
   right if and only if, for each key of the peer whose path is now stale: with another fresh
   path the entry was not this one, and without one nothing learned beats the entry.
   */
  lemma DownIsCoherentIff(s: Rib, addr: Address, cutoff: Option<nat>, now: nat)
    requires AllMarked(s.adjRibIn, s.imported) && !s.dirty && Coherent(s, now) && addr !in s.retained
    ensures var r := PeerDown(s, addr, true, cutoff);
            && !r.dirty
            && (Coherent(r, now) <==>
                forall k :: k in TableOf(s.adjRibIn, addr) ==>
                  NowStale(TableOf(s.adjRibIn, addr)[k], cutoff) ==> BothStand(s, addr, k))
  {
    var r := PeerDown(s, addr, true, cutoff);
    assert r == s.(retained := s.retained[addr := cutoff]);
    RetainedElsewhere(s, r, addr);
    RejudgedIff(s, r, addr, now);
    forall k | k in TableOf(s.adjRibIn, addr)
      ensures KeyStands(s, r, addr, k) <==> (NowStale(TableOf(s.adjRibIn, addr)[k], cutoff) ==> BothStand(s, addr, k))
    {
      DownKey(s, addr, cutoff, k);
    }
  }
}
