/**
 What withdrawals and announcements do to the EVPN tables, route by route, what the decision
 process files for each route, and what is left of a route after it was withdrawn.
 */
module EvpnEffect {
  import opened BgpTypes
  import opened Propagation
  import opened Evpn
  import opened EvpnRib
  import opened EvpnCoherence
  import I = ImportEffect
  import Speaker

  // ------------------------------------------------------------ announcements

  ghost predicate Imports(imported: set<RouteTarget>, v: EvpnAdvert) {
    exists i :: 0 <= i < |v.route.routeTargets| && v.route.routeTargets[i] in imported
  }

  /** Kept are routes with an imported Route Target, and all routes by a speaker told to or with a client. */
  ghost predicate Wanted(s: Rib, v: EvpnAdvert) {
    Imports(s.imported, v) || s.retainAll || exists c :: c in s.peers && s.peers[c].isClient
  }

  /** `x` is the announced route as it came from this peer. */
  ghost predicate StoredAs(imported: set<RouteTarget>, c: PeerConfig, rid: Option<Address>, v: EvpnAdvert, n: Nlri, now: nat, x: EvpnPath) {
    && x.route.nlri == n && x.route.nextHop == v.route.nextHop && x.route.routeTargets == v.route.routeTargets
    && x.route.mobility == v.route.mobility && x.route.otherCommunities == v.route.otherCommunities
    && x.peerAddr == c.addr && x.peerAs == c.remoteAs && x.fromClient == c.isClient && x.receivedAt == now && !x.local
    && x.peerRouterId == (if rid.Some? then rid.value else c.addr)
    && x.origin == v.origin && x.asPath == v.asPath && x.originatorId == v.originatorId && x.clusterList == v.clusterList
    && x.localPref == (if v.localPref.Some? then v.localPref.value else 100)
    && (x.importable <==> Imports(imported, v))
  }

  /** The last of the first `n` announced routes with this key. */
  function Latest(a: Announcement, n: nat, k: RouteKey): Option<Nlri>
    requires n <= |a.nlri|
  {
    if n == 0 then None else if a.nlri[n - 1].key == k then Some(a.nlri[n - 1]) else Latest(a, n - 1, k)
  }

  /** What is stored for a key after the announcement of `n` under that key, or of nothing. */
  ghost predicate AnnouncedAs(s: Rib, addr: Address, rid: Option<Address>, a: Announcement, n: Option<Nlri>, now: nat,
                              before: Option<EvpnPath>, after: Option<EvpnPath>)
    requires addr in s.peers
  {
    if n.None? then after == before
    else if !Wanted(s, a.shared) then after.None?
    else after.Some? && StoredAs(s.imported, s.peers[addr], rid, a.shared, n.value, now, after.value)
  }

  ghost predicate AnnouncedAt(s: Rib, r: Rib, addr: Address, rid: Option<Address>, a: Announcement, n: nat, now: nat, k: RouteKey)
    requires addr in s.peers && n <= |a.nlri|
  {
    AnnouncedAs(s, addr, rid, a, Latest(a, n, k), now, Look(TableOf(s.adjRibIn, addr), k), Look(TableOf(r.adjRibIn, addr), k))
  }

  lemma KeptIsWanted(s: Rib, a: Announcement, n: Nlri)
    ensures Kept(s, a.Advert(n)) <==> Wanted(s, a.shared)
  {
    assert a.Advert(n).route.routeTargets == a.shared.route.routeTargets;
    if Imports(s.imported, a.shared) {
      var i :| 0 <= i < |a.shared.route.routeTargets| && a.shared.route.routeTargets[i] in s.imported;
      assert a.Advert(n).route.routeTargets[i] in s.imported;
    }
  }

  lemma OneStored(me: Identity, c: PeerConfig, rid: Option<Address>, a: Announcement, n: Nlri, imported: set<RouteTarget>, now: nat)
    ensures StoredAs(imported, c, rid, a.shared, n, now, PathFrom(me, c, rid, a.Advert(n), imported, now))
  {
    assert a.Advert(n).route.routeTargets == a.shared.route.routeTargets;
  }

  lemma StoreOne(s: Rib, addr: Address, path: EvpnPath)
    ensures var r := StorePath(s, addr, path);
            && TableOf(r.adjRibIn, addr) == TableOf(s.adjRibIn, addr)[path.route.Key() := path] && Untouched(s, r, addr)
            && (r.dirty <==> s.dirty || !SameRib(TableOf(s.adjRibIn, addr), TableOf(r.adjRibIn, addr)))
  {
    var t, k := TableOf(s.adjRibIn, addr), path.route.Key();
    var t' := t[k := path];
    TableSet(s, addr, t');
    if k in t && t[k].SameRouteAs(path) {
      assert t'.Keys == t.Keys;
    } else if k !in t {
      assert k in t'.Keys;
    }
  }

  /** One route announced: stored under its key, or not kept. */
  lemma OneAnnounced(s: Rib, addr: Address, rid: Option<Address>, a: Announcement, n: Nlri, now: nat, k: RouteKey)
    requires addr in s.peers
    ensures var r := ImportOne(s, addr, rid, a.Advert(n), now);
            && Untouched(s, r, addr)
            && AnnouncedAs(s, addr, rid, a, if n.key == k then Some(n) else None, now,
                           Look(TableOf(s.adjRibIn, addr), k), Look(TableOf(r.adjRibIn, addr), k))
  {
    KeptIsWanted(s, a, n);
    if Wanted(s, a.shared) {
      OneStored(s.me, s.peers[addr], rid, a, n, s.imported, now);
      StoreOne(s, addr, PathFrom(s.me, s.peers[addr], rid, a.Advert(n), s.imported, now));
    } else {
      DropOne(s, addr, n.key);
    }
  }

  lemma AnnouncedThen(s: Rib, m: Rib, addr: Address, rid: Option<Address>, a: Announcement, n: Nlri, now: nat,
                      first: Option<Nlri>, second: Option<Nlri>, x: Option<EvpnPath>, y: Option<EvpnPath>, z: Option<EvpnPath>)
    requires addr in s.peers && Untouched(s, m, addr)
    requires AnnouncedAs(s, addr, rid, a, first, now, x, y) && AnnouncedAs(m, addr, rid, a, second, now, y, z)
    ensures AnnouncedAs(s, addr, rid, a, if second.Some? then second else first, now, x, z)
  {
    assert Wanted(m, a.shared) <==> Wanted(s, a.shared);
  }

  lemma ImportNext(s: Rib, m: Rib, addr: Address, rid: Option<Address>, a: Announcement, n: nat, now: nat, k: RouteKey)
    requires addr in s.peers && n < |a.nlri| && Untouched(s, m, addr) && AnnouncedAt(s, m, addr, rid, a, n, now, k)
    ensures var r := ImportOne(m, addr, rid, a.Advert(a.nlri[n]), now);
            Untouched(s, r, addr) && AnnouncedAt(s, r, addr, rid, a, n + 1, now, k)
  {
    var r := ImportOne(m, addr, rid, a.Advert(a.nlri[n]), now);
    OneAnnounced(m, addr, rid, a, a.nlri[n], now, k);
    AnnouncedThen(s, m, addr, rid, a, a.nlri[n], now, Latest(a, n, k), if a.nlri[n].key == k then Some(a.nlri[n]) else None,
                  Look(TableOf(s.adjRibIn, addr), k), Look(TableOf(m.adjRibIn, addr), k), Look(TableOf(r.adjRibIn, addr), k));
  }

  lemma ImportUntouched(s: Rib, addr: Address, rid: Option<Address>, a: Announcement, n: Nlri, now: nat)
    requires addr in s.peers
    ensures Untouched(s, ImportOne(s, addr, rid, a.Advert(n), now), addr)
  {
    OneAnnounced(s, addr, rid, a, n, now, n.key);
  }

  lemma UntouchedNext(s: Rib, m: Rib, addr: Address, rid: Option<Address>, a: Announcement, n: Nlri, now: nat)
    requires addr in s.peers && Untouched(s, m, addr)
    ensures Untouched(s, ImportOne(m, addr, rid, a.Advert(n), now), addr)
  {
    ImportUntouched(m, addr, rid, a, n, now);
  }

  lemma {:induction false} AllUntouched(s: Rib, addr: Address, rid: Option<Address>, a: Announcement, n: nat, now: nat, r: Rib, over: bool)
    requires addr in s.peers && n <= |a.nlri| && (r, over) == ImportAll(s, addr, rid, a, n, now)
    ensures Untouched(s, r, addr)
    decreases n
  {
    if n > 0 {
      var (m, stop) := ImportAll(s, addr, rid, a, n - 1, now);
      AllUntouched(s, addr, rid, a, n - 1, now, m, stop);
      if !stop {
        UntouchedNext(s, m, addr, rid, a, a.nlri[n - 1], now);
      }
    }
  }

  lemma {:induction false} ImportAt(s: Rib, addr: Address, rid: Option<Address>, a: Announcement, n: nat, now: nat, k: RouteKey, r: Rib)
    requires addr in s.peers && n <= |a.nlri| && (r, false) == ImportAll(s, addr, rid, a, n, now)
    ensures AnnouncedAt(s, r, addr, rid, a, n, now, k)
    decreases n
  {
    if n > 0 {
      var m := ImportAll(s, addr, rid, a, n - 1, now).0;
      AllUntouched(s, addr, rid, a, n - 1, now, m, false);
      ImportAt(s, addr, rid, a, n - 1, now, k, m);
      ImportNext(s, m, addr, rid, a, n - 1, now, k);
    }
  }

  // --------------------------------------------------- ceiling and dirty flag

  lemma {:induction false} CeilingIff(s: Rib, addr: Address, rid: Option<Address>, a: Announcement, n: nat, now: nat, r: Rib, over: bool)
    requires addr in s.peers && n <= |a.nlri| && (r, over) == ImportAll(s, addr, rid, a, n, now)
    ensures over ==> n > 0 && Wanted(s, a.shared) && |TableOf(r.adjRibIn, addr)| > 4096
    ensures !over && n > 0 && Wanted(s, a.shared) ==> |TableOf(r.adjRibIn, addr)| <= 4096
    decreases n
  {
    if n > 0 {
      var (m, stop) := ImportAll(s, addr, rid, a, n - 1, now);
      CeilingIff(s, addr, rid, a, n - 1, now, m, stop);
      KeptIsWanted(m, a, a.nlri[n - 1]);
      assert Wanted(m, a.shared) <==> Wanted(s, a.shared);
    }
  }

  /** No key is announced twice. */
  predicate DistinctKeys(a: Announcement) {
    forall i, j :: 0 <= i < j < |a.nlri| ==> a.nlri[i].key != a.nlri[j].key
  }

  lemma {:induction false} NotYetAnnounced(a: Announcement, n: nat, m: nat)
    requires DistinctKeys(a) && n <= m < |a.nlri|
    ensures Latest(a, n, a.nlri[m].key).None?
    decreases n
  {
    if n > 0 {
      NotYetAnnounced(a, n - 1, m);
    }
  }

  lemma OneFlags(s: Rib, addr: Address, rid: Option<Address>, a: Announcement, n: Nlri, now: nat)
    requires addr in s.peers
    ensures var r := ImportOne(s, addr, rid, a.Advert(n), now);
            r.dirty <==> s.dirty || !SameRib(TableOf(s.adjRibIn, addr), TableOf(r.adjRibIn, addr))
  {
    var t := TableOf(s.adjRibIn, addr);
    if Kept(s, a.Advert(n)) {
      StoreOne(s, addr, PathFrom(s.me, s.peers[addr], rid, a.Advert(n), s.imported, now));
    } else {
      DropOne(s, addr, n.key);
      assert n.key in t ==> n.key in t.Keys && n.key !in (t - {n.key}).Keys;
    }
  }

  /** Changes under different keys add up. */
  lemma ChangesAddUp(t: Table, m: Table, r: Table, k: RouteKey)
    requires Look(m, k) == Look(t, k) && forall l :: l != k ==> Look(r, l) == Look(m, l)
    ensures SameRib(t, r) <==> SameRib(t, m) && SameRib(m, r)
  {
    SameByLook(t, r);
    SameByLook(t, m);
    SameByLook(m, r);
    forall l ensures SameChoice(Look(t, l), Look(r, l)) <==>
                       SameChoice(Look(t, l), Look(m, l)) && SameChoice(Look(m, l), Look(r, l))
    {
      assert l != k ==> Look(r, l) == Look(m, l);
    }
  }

  lemma FlagsNext(s: Rib, m: Rib, addr: Address, rid: Option<Address>, a: Announcement, x: Nlri, now: nat, r: Rib)
    requires addr in m.peers && r == ImportOne(m, addr, rid, a.Advert(x), now)
    requires m.dirty <==> s.dirty || !SameRib(TableOf(s.adjRibIn, addr), TableOf(m.adjRibIn, addr))
    requires Look(TableOf(m.adjRibIn, addr), x.key) == Look(TableOf(s.adjRibIn, addr), x.key)
    ensures r.dirty <==> s.dirty || !SameRib(TableOf(s.adjRibIn, addr), TableOf(r.adjRibIn, addr))
  {
    OneFlags(m, addr, rid, a, x, now);
    forall k | k != x.key ensures Look(TableOf(r.adjRibIn, addr), k) == Look(TableOf(m.adjRibIn, addr), k) {
      OneAnnounced(m, addr, rid, a, x, now, k);
    }
    ChangesAddUp(TableOf(s.adjRibIn, addr), TableOf(m.adjRibIn, addr), TableOf(r.adjRibIn, addr), x.key);
  }

  lemma SameRibItself(t: Table)
    ensures SameRib(t, t)
  {}

  lemma {:induction false} ImportLast(s: Rib, addr: Address, rid: Option<Address>, a: Announcement, n: nat, now: nat, r: Rib, over: bool)
      returns (m: Rib, stop: bool)
    requires addr in s.peers && 0 < n <= |a.nlri| && (r, over) == ImportAll(s, addr, rid, a, n, now)
    ensures (m, stop) == ImportAll(s, addr, rid, a, n - 1, now) && m == s.(adjRibIn := m.adjRibIn, dirty := m.dirty)
    ensures if stop then r == m && over else r == ImportOne(m, addr, rid, a.Advert(a.nlri[n - 1]), now)
  {
    m, stop := ImportAll(s, addr, rid, a, n - 1, now).0, ImportAll(s, addr, rid, a, n - 1, now).1;
  }

  /** Announcing distinct routes sets the flag exactly when the table changes in more than times of receipt. */
  lemma {:induction false} ImportFlagsIff(s: Rib, addr: Address, rid: Option<Address>, a: Announcement, n: nat, now: nat, r: Rib)
    requires addr in s.peers && n <= |a.nlri| && DistinctKeys(a) && (r, false) == ImportAll(s, addr, rid, a, n, now)
    ensures r.dirty <==> s.dirty || !SameRib(TableOf(s.adjRibIn, addr), TableOf(r.adjRibIn, addr))
    decreases n
  {
    if n == 0 {
      SameRibItself(TableOf(s.adjRibIn, addr));
    } else {
      var m, _ := ImportLast(s, addr, rid, a, n, now, r, false);
      ImportFlagsIff(s, addr, rid, a, n - 1, now, m);
      NotYetAnnounced(a, n - 1, n - 1);
      ImportAt(s, addr, rid, a, n - 1, now, a.nlri[n - 1].key, m);
      FlagsNext(s, m, addr, rid, a, a.nlri[n - 1], now, r);
    }
  }

  // ------------------------------------------------------ whole announcement

  predicate BeenHere(me: Identity, v: EvpnAdvert) {
    || v.originatorId == Some(me.routerId)
    || (if me.clusterId.Some? then me.clusterId.value else me.routerId) in v.clusterList
    || me.localAs in v.asPath.Flatten()
  }

  /** The effect of an announcement that passed the checks. */
  ghost predicate Taken(s: Rib, r: Rib, addr: Address, rid: Option<Address>, a: Announcement, now: nat, outcome: Outcome)
    requires addr in s.peers
  {
    && Untouched(s, r, addr)
    && outcome == (if a.nlri != [] && Wanted(s, a.shared) && |TableOf(r.adjRibIn, addr)| > 4096
                   then ResetBy(Notification(6, 1)) else Fine)
    && (outcome.Fine? ==>
          && (forall k :: AnnouncedAt(s, r, addr, rid, a, |a.nlri|, now, k))
          && (DistinctKeys(a) ==> (r.dirty <==> s.dirty || !SameRib(TableOf(s.adjRibIn, addr), TableOf(r.adjRibIn, addr)))))
  }

  ghost predicate Received(s: Rib, r: Rib, addr: Address, rid: Option<Address>, a: Announcement, now: nat, outcome: Outcome)
    requires addr in s.peers
  {
    if !I.GoodNextHop(a.shared.route.nextHop) then r == s && outcome == ResetBy(Notification(3, 8))
    else if !I.GoodPath(s.me, s.peers[addr], a.shared.asPath) then r == s && outcome == ResetBy(Notification(3, 11))
    else if BeenHere(s.me, a.shared) then r == s && outcome.Fine?
    else Taken(s, r, addr, rid, a, now, outcome)
  }

  lemma AllTaken(s: Rib, addr: Address, rid: Option<Address>, a: Announcement, now: nat, r: Rib, over: bool)
    requires addr in s.peers && (r, over) == ImportAll(s, addr, rid, a, |a.nlri|, now)
    ensures Taken(s, r, addr, rid, a, now, if over then ResetBy(Notification(6, 1)) else Fine)
  {
    CeilingIff(s, addr, rid, a, |a.nlri|, now, r, over);
    AllUntouched(s, addr, rid, a, |a.nlri|, now, r, over);
    if !over {
      forall k ensures AnnouncedAt(s, r, addr, rid, a, |a.nlri|, now, k) {
        ImportAt(s, addr, rid, a, |a.nlri|, now, k, r);
      }
      if DistinctKeys(a) {
        ImportFlagsIff(s, addr, rid, a, |a.nlri|, now, r);
      }
    }
  }

  /**
   The whole effect of one announcement. Under every announced key the table holds the last
   route announced under it, as it was received, or nothing if no Route Target of it is
   imported and the speaker does not retain everything; under every other key it holds what it
   held. What does not pass the checks changes nothing.
   */
  lemma AnnouncementEffect(s: Rib, addr: Address, rid: Option<Address>, a: Announcement, now: nat)
    requires addr in s.peers
    ensures Received(s, Import(s, addr, rid, a, now).0, addr, rid, a, now, Import(s, addr, rid, a, now).1)
    ensures var r := Import(s, addr, rid, a, now).0; r == s.(adjRibIn := r.adjRibIn, dirty := r.dirty)
  {
    I.CheckIff(s.me, s.peers[addr], AttributesOf(a.shared));
    if CheckAttributes(s.me, s.peers[addr], AttributesOf(a.shared)).Usable? {
      var (r, over) := ImportAll(s, addr, rid, a, |a.nlri|, now);
      AllTaken(s, addr, rid, a, now, r, over);
    }
  }

  // ------------------------------------------------------- other events and settings

  /** What becomes of a stored path when its peer changes its role. */
  predicate Remarked(before: Option<EvpnPath>, after: Option<EvpnPath>, isClient: bool) {
    (after.Some? <==> before.Some?) && (after.Some? ==> after.value == before.value.(fromClient := isClient))
  }

  /** A change of role marks every stored path of the peer anew and calls for a decision. */
  lemma RoleEffect(s: Rib, addr: Address, on: bool, k: RouteKey)
    ensures var r := SetClient(s, addr, on);
            if addr !in s.peers || s.peers[addr].isClient == on then r == s
            else
              && r == s.(peers := r.peers, adjRibIn := r.adjRibIn, dirty := true)
              && r.peers == s.peers[addr := s.peers[addr].(isClient := on)]
              && (forall a :: a != addr ==> TableOf(r.adjRibIn, a) == TableOf(s.adjRibIn, a))
              && Remarked(Look(TableOf(s.adjRibIn, addr), k), Look(TableOf(r.adjRibIn, addr), k), on)
  {
    TableSet(s, addr, Reroled(TableOf(s.adjRibIn, addr), on));
  }

  /** Attaching or detaching a route calls for a decision exactly if that changes anything. */
  lemma AttachEffect(s: Rib, route: EvpnRoute, k: RouteKey)
    ensures var r := Originate(s, route);
            r == s.(originated := s.originated[route.Key() := route],
                    dirty := s.dirty || route.Key() !in s.originated || s.originated[route.Key()] != route)
    ensures var r := WithdrawOriginated(s, k); r == s.(originated := s.originated - {k}, dirty := s.dirty || k in s.originated)
  {
    if k !in s.originated {
      assert s.originated - {k} == s.originated;
    }
    if route.Key() in s.originated && s.originated[route.Key()] == route {
      assert s.originated[route.Key() := route] == s.originated;
    }
  }

  /** So does importing a target, or retaining everything or not. */
  lemma TargetEffect(s: Rib, rt: RouteTarget, on: bool)
    ensures var r := AddTarget(s, rt); r == s.(imported := s.imported + {rt}, dirty := s.dirty || rt !in s.imported)
    ensures var r := SetRetainAll(s, on); r == s.(retainAll := on, dirty := s.dirty || s.retainAll != on)
  {
    if rt in s.imported {
      assert s.imported + {rt} == s.imported;
    }
  }

  /** The end of a session keeps the table for a restart or empties it, and calls for a decision exactly if something goes. */
  lemma DownEffect(s: Rib, addr: Address, retain: bool, cutoff: Option<nat>)
    ensures var r := PeerDown(s, addr, retain, cutoff);
            if retain then r == s.(retained := s.retained[addr := cutoff])
            else
              && r == s.(retained := s.retained - {addr}, adjRibIn := r.adjRibIn, dirty := r.dirty)
              && TableOf(r.adjRibIn, addr) == map[] && (forall a :: a != addr ==> TableOf(r.adjRibIn, a) == TableOf(s.adjRibIn, a))
              && (r.dirty <==> s.dirty || exists k :: k in TableOf(s.adjRibIn, addr))
  {
    if TableOf(s.adjRibIn, addr) != map[] {
      var k :| k in TableOf(s.adjRibIn, addr);
    }
  }
}
