/**
 EVPN routes: their identity, the Route Target test, the order of candidate paths
 and the selection built on it, and what one hop of propagation does to a path.
 */
module Evpn {
  import opened BgpTypes
  import opened Propagation
  import D = Decision

  type RouteTarget = U64

  datatype RouteKey =
    | MacIp(rd: (U32, U16), ethTag: U32, mac: U64, ip: Option<Address>)
    | Imet(rd: (U32, U16), ethTag: U32, originator: Address)

  /** The VNI travels with the route but does not identify it. */
  datatype Nlri = Nlri(key: RouteKey, vni: U32)

  datatype EvpnRoute = EvpnRoute(
    nlri: Nlri, nextHop: Address, routeTargets: seq<RouteTarget>, mobility: Option<U32>, otherCommunities: seq<seq<U8>>
  ) {
    function Key(): RouteKey {
      nlri.key
    }

    predicate Matches(imported: set<RouteTarget>) {
      exists i :: 0 <= i < |routeTargets| && routeTargets[i] in imported
    }
  }

  datatype EvpnPath = EvpnPath(
    route: EvpnRoute,
    peerAddr: Address,
    peerAs: U32,
    peerRouterId: Address,
    origin: Origin,
    asPath: AsPath,
    localPref: U32,
    originatorId: Option<Address>,
    clusterList: seq<Address>,
    fromClient: bool,
    importable: bool,
    receivedAt: nat,
    local: bool
  ) {
    predicate SameRouteAs(other: EvpnPath) {
      this.(receivedAt := 0) == other.(receivedAt := 0)
    }
  }

  /** Two paths are the same route when nothing but the time of receipt tells them apart. */
  lemma SameRouteIff(x: EvpnPath, y: EvpnPath)
    ensures x.SameRouteAs(y) <==>
              && x.route == y.route && x.peerAddr == y.peerAddr && x.peerAs == y.peerAs && x.peerRouterId == y.peerRouterId
              && x.origin == y.origin && x.asPath == y.asPath && x.localPref == y.localPref && x.originatorId == y.originatorId
              && x.clusterList == y.clusterList && x.fromClient == y.fromClient && x.importable == y.importable && x.local == y.local
  {}

  function LocalEvpnPath(route: EvpnRoute, routerId: Address, now: nat): EvpnPath {
    EvpnPath(route, UNSPECIFIED, 0, routerId, Igp, AsPath([]), DEFAULT_LOCAL_PREF, None, [], false, true, now, true)
  }

  // ----------------------------------------------------------------- comparison

  /** MAC mobility first, peer identity last; `Less` means `a` wins. */
  function ComparePaths(a: EvpnPath, b: EvpnPath): D.Ordering {
    D.Cmp(b.route.mobility.GetOr(0), a.route.mobility.GetOr(0))
    .Then(D.Cmp(D.Rank(a.local), D.Rank(b.local)))
    .Then(D.Cmp(b.localPref, a.localPref))
    .Then(D.Cmp(a.asPath.Length(), b.asPath.Length()))
    .Then(D.Cmp(a.origin.Rank(), b.origin.Rank()))
    .Then(D.Cmp(|a.clusterList|, |b.clusterList|))
    .Then(D.Cmp(a.peerRouterId, b.peerRouterId))
    .Then(D.Cmp(a.peerAddr, b.peerAddr))
  }

  lemma Antisymmetric(a: EvpnPath, b: EvpnPath)
    ensures ComparePaths(a, b).Less? <==> ComparePaths(b, a).Greater?
    ensures ComparePaths(a, b).Equal? ==> a.peerAddr == b.peerAddr && a.local == b.local
  {}

  /** A host that moved is followed: the higher sequence number wins whatever the rest looks like. */
  lemma MobilityComesFirst(a: EvpnPath, b: EvpnPath)
    ensures a.route.mobility.GetOr(0) > b.route.mobility.GetOr(0) ==> ComparePaths(a, b).Less?
    ensures a.route.mobility.GetOr(0) == b.route.mobility.GetOr(0) ==>
              && (a.local && !b.local ==> ComparePaths(a, b).Less?)
              && (a.local == b.local && a.localPref > b.localPref ==> ComparePaths(a, b).Less?)
  {}

  lemma Transitive(a: EvpnPath, b: EvpnPath, c: EvpnPath)
    requires ComparePaths(a, b).Less? && ComparePaths(b, c).Less?
    ensures ComparePaths(a, c).Less?
  {}

  function Better(best: EvpnPath, next: EvpnPath): EvpnPath {
    if ComparePaths(next, best).Less? then next else best
  }

  function SelectBest(cs: seq<EvpnPath>): Option<EvpnPath> {
    if cs == [] then None
    else if |cs| == 1 then Some(cs[0])
    else Some(Better(SelectBest(cs[..|cs| - 1]).value, cs[|cs| - 1]))
  }

  /** One candidate per peer, and at most one local one: how every candidate list is built. */
  ghost predicate DistinctSources(cs: seq<EvpnPath>) {
    forall i, j :: 0 <= i < j < |cs| ==> cs[i].peerAddr != cs[j].peerAddr || cs[i].local != cs[j].local
  }

  ghost predicate IsLeast(w: EvpnPath, cs: seq<EvpnPath>) {
    w in cs && forall c :: c in cs && c != w ==> ComparePaths(w, c).Less?
  }

  lemma SelectedIsACandidate(cs: seq<EvpnPath>)
    ensures cs != [] <==> SelectBest(cs).Some?
    ensures cs != [] ==> SelectBest(cs).value in cs
  {}

  lemma OnlyOneLeast(v: EvpnPath, w: EvpnPath, cs: seq<EvpnPath>)
    requires IsLeast(v, cs) && IsLeast(w, cs)
    ensures v == w
  {
    Antisymmetric(v, w);
  }

  /** Selection returns the one least candidate of a strict total order. */
  lemma {:induction false} SelectsTheLeast(cs: seq<EvpnPath>)
    requires cs != [] && DistinctSources(cs)
    ensures forall w :: IsLeast(w, cs) <==> SelectBest(cs) == Some(w)
    decreases |cs|
  {
    SelectedIsACandidate(cs);
    if |cs| > 1 {
      var init, last := cs[..|cs| - 1], cs[|cs| - 1];
      SelectsTheLeast(init);
      var w := SelectBest(init).value;
      assert IsLeast(w, init);
      var best := Better(w, last);
      Antisymmetric(last, w);
      forall c | c in cs && c != best ensures ComparePaths(best, c).Less? {
        assert c in init || c == last;
        if c in init && c != w && best == last {
          Transitive(last, w, c);
        }
      }
    }
    assert IsLeast(SelectBest(cs).value, cs);
    forall w | IsLeast(w, cs) ensures SelectBest(cs) == Some(w) {
      OnlyOneLeast(w, SelectBest(cs).value, cs);
    }
  }

  /** The winner carries the highest mobility sequence number, is local if a path with that number is, and else has the highest preference. */
  lemma WinnerFollowsTheHost(cs: seq<EvpnPath>, c: EvpnPath)
    requires c in cs && DistinctSources(cs)
    ensures var w := SelectBest(cs).value;
            && c.route.mobility.GetOr(0) <= w.route.mobility.GetOr(0)
            && (c.route.mobility.GetOr(0) == w.route.mobility.GetOr(0) ==>
                  (c.local ==> w.local) && (c.local == w.local ==> c.localPref <= w.localPref))
  {
    var w := SelectBest(cs).value;
    SelectsTheLeast(cs);
    assert IsLeast(w, cs);
    Antisymmetric(c, w);
    MobilityComesFirst(c, w);
  }

  lemma MembersOfPermutation(ds: seq<EvpnPath>, cs: seq<EvpnPath>)
    requires multiset(ds) == multiset(cs)
    ensures forall c :: c in ds <==> c in cs
  {
    forall c ensures c in ds <==> c in cs {
      assert c in ds <==> c in multiset(ds);
      assert c in cs <==> c in multiset(cs);
    }
  }

  lemma LeastIsSelected(cs: seq<EvpnPath>, w: EvpnPath)
    requires IsLeast(w, cs)
    ensures SelectBest(cs) == Some(w)
    decreases |cs|
  {
    if |cs| > 1 {
      var init, last := cs[..|cs| - 1], cs[|cs| - 1];
      SelectedIsACandidate(init);
      assert forall c :: c in init ==> c in cs;
      if w in init {
        LeastIsSelected(init, w);
        Antisymmetric(w, last);
      } else {
        assert last == w;
        assert SelectBest(init).value in cs;
      }
    }
  }

  /** The winner is the same for every order of the candidates: it depends on the set alone. */
  lemma SelectionIgnoresOrder(cs: seq<EvpnPath>, ds: seq<EvpnPath>)
    requires DistinctSources(cs) && multiset(ds) == multiset(cs)
    ensures SelectBest(ds) == SelectBest(cs)
  {
    if cs == [] {
      assert |multiset(ds)| == |multiset(cs)|;
    } else {
      SelectsTheLeast(cs);
      assert IsLeast(SelectBest(cs).value, cs);
      MembersOfPermutation(ds, cs);
      LeastIsSelected(ds, SelectBest(cs).value);
    }
  }

  // --------------------------------------------------------------- propagation

  datatype EvpnAdvert = EvpnAdvert(
    route: EvpnRoute, origin: Origin, asPath: AsPath, localPref: Option<U32>, originatorId: Option<Address>, clusterList: seq<Address>
  )

  /** What `peer` hears about the selected path; the next hop is never rewritten. */
  function ExportEvpn(me: Identity, peer: PeerConfig, best: EvpnPath): Option<EvpnAdvert> {
    var isEbgpSession := peer.remoteAs != me.localAs;
    var verdict := Propagate(isEbgpSession, !best.local && best.peerAs == me.localAs, best.fromClient, peer.isClient);
    var asPath := if isEbgpSession then best.asPath.Prepend(me.localAs) else best.asPath;
    if (!best.local && best.peerAddr == peer.addr) || verdict.Deny? || asPath.Contains(peer.remoteAs) then None
    else
      var meta := if verdict.Reflect?
                  then ReflectionMetadata(me, best.originatorId, best.clusterList, best.peerRouterId)
                  else (None, []);
      Some(EvpnAdvert(best.route, best.origin, asPath, if isEbgpSession then None else Some(best.localPref), meta.0, meta.1))
  }

  /** The path was learned from a neighbour inside the AS. */
  predicate LearnedInside(me: Identity, p: EvpnPath) {
    !p.local && p.peerAs == me.localAs
  }

  /** When a selected path is withheld from a peer: see the IPv4 rule; there is no export policy. */
  ghost predicate WithheldFrom(me: Identity, peer: PeerConfig, best: EvpnPath) {
    || (!best.local && best.peerAddr == peer.addr)
    || peer.remoteAs in best.asPath.Flatten()
    || (peer.remoteAs == me.localAs && LearnedInside(me, best) && !best.fromClient && !peer.isClient)
  }

  /** What a peer hears: the route as it is, VTEP and all; a reflector adds its cluster and the originator. */
  ghost predicate RightAdvert(me: Identity, peer: PeerConfig, best: EvpnPath, v: EvpnAdvert) {
    && v.route == best.route && v.origin == best.origin
    && if peer.remoteAs != me.localAs then
         v.asPath.Flatten() == [me.localAs] + best.asPath.Flatten() && v.localPref.None? && v.originatorId.None? && v.clusterList == []
       else
         && v.asPath == best.asPath && v.localPref == Some(best.localPref)
         && if LearnedInside(me, best) then
              && SetOr(v.originatorId, best.originatorId, Some(best.peerRouterId))
              && v.clusterList != [] && v.clusterList[0] == (if me.clusterId.Some? then me.clusterId.value else me.routerId)
              && v.clusterList[1..] <= best.clusterList
              && (|best.clusterList| < 32 ==> v.clusterList[1..] == best.clusterList)
              && (|best.clusterList| >= 32 ==> |v.clusterList| == 32)
            else v.originatorId.None? && v.clusterList == []
  }

  lemma ReflectedClusters(me: Identity, originator: Option<Address>, clusters: seq<Address>, routerId: Address)
    ensures var list := ReflectionMetadata(me, originator, clusters, routerId).1;
            && list != [] && list[0] == (if me.clusterId.Some? then me.clusterId.value else me.routerId) && list[1..] <= clusters
            && (|clusters| < 32 ==> list[1..] == clusters) && (|clusters| >= 32 ==> |list| == 32)
  {
    var full := [me.Cluster()] + clusters;
    assert full[1..] == clusters;
    if |full| > MAX_CLUSTER_LIST_LEN {
      assert full[..MAX_CLUSTER_LIST_LEN][1..] == clusters[..MAX_CLUSTER_LIST_LEN - 1];
    }
  }

  /** Exactly when a selected EVPN path is withheld, and what is said when it is not. */
  lemma ExportIsRight(me: Identity, peer: PeerConfig, best: EvpnPath)
    ensures ExportEvpn(me, peer, best).None? <==> WithheldFrom(me, peer, best)
    ensures ExportEvpn(me, peer, best).Some? ==> RightAdvert(me, peer, best, ExportEvpn(me, peer, best).value)
  {
    PrependFlatten(best.asPath, me.localAs);
    ContainsFlatten(best.asPath, peer.remoteAs);
    ContainsFlatten(best.asPath.Prepend(me.localAs), peer.remoteAs);
    ReflectedClusters(me, best.originatorId, best.clusterList, best.peerRouterId);
  }

  /** The attributes the import checks look at. */
  function AttributesOf(v: EvpnAdvert): PathAttributes {
    PathAttributes(v.origin, v.asPath, v.route.nextHop, None, v.localPref, false, [], None, None, v.originatorId, v.clusterList, true)
  }

  function PathFrom(me: Identity, peer: PeerConfig, remoteRouterId: Option<Address>, v: EvpnAdvert,
                    imported: set<RouteTarget>, now: nat): EvpnPath
  {
    EvpnPath(v.route, peer.addr, peer.remoteAs, remoteRouterId.GetOr(peer.addr), v.origin, v.asPath,
             v.localPref.GetOr(DEFAULT_LOCAL_PREF), v.originatorId, v.clusterList, peer.isClient,
             v.route.Matches(imported), now, false)
  }

  datatype EvpnHop = EvpnHop(sender: Identity, toPeer: PeerConfig, receiver: Identity, fromPeer: PeerConfig,
                             imported: set<RouteTarget>, now: nat)
  {
    predicate Internal() {
      toPeer.remoteAs == receiver.localAs == fromPeer.remoteAs == sender.localAs
    }
  }

  function Relay(h: EvpnHop, p: EvpnPath): Option<EvpnPath> {
    match ExportEvpn(h.sender, h.toPeer, p)
    case None => None
    case Some(v) =>
      if CheckAttributes(h.receiver, h.fromPeer, AttributesOf(v)).Usable?
      then Some(PathFrom(h.receiver, h.fromPeer, Some(h.sender.routerId), v, h.imported, h.now))
      else None
  }

  function RelayAll(hops: seq<EvpnHop>, p: EvpnPath): Option<EvpnPath> {
    if hops == [] then Some(p)
    else
      match Relay(hops[0], p)
      case None => None
      case Some(q) => RelayAll(hops[1..], q)
  }

  ghost predicate SameUpToReflection(a: EvpnPath, b: EvpnPath) {
    a.route == b.route && a.local == b.local && a.origin == b.origin && a.asPath == b.asPath && a.localPref == b.localPref
  }

  predicate FromInside(p: EvpnPath, asn: U32) {
    !p.local && p.peerAs == asn
  }

  lemma {:induction false} ReflectionChainPreserves(hops: seq<EvpnHop>, p: EvpnPath, asn: U32)
    requires forall i :: 0 <= i < |hops| ==> hops[i].Internal() && hops[i].sender.localAs == asn
    requires FromInside(p, asn) && RelayAll(hops, p).Some?
    ensures var q := RelayAll(hops, p).value;
            && SameUpToReflection(q, p) && FromInside(q, asn)
            && (hops != [] || p.clusterList != [] ==> q.clusterList != [])
    decreases |hops|
  {
    if hops != [] {
      var q := Relay(hops[0], p).value;
      assert SameUpToReflection(q, p) && FromInside(q, asn) && q.clusterList != [];
      ReflectionChainPreserves(hops[1..], q, asn);
    }
  }

  /** The injector's own advertisement outranks every reflected copy of it. */
  lemma DirectCopyRanksFirst(injected: EvpnPath, toUs: EvpnHop, toReflector: EvpnHop, chain: seq<EvpnHop>, asn: U32)
    requires !FromInside(injected, asn) && chain != []
    requires toUs.Internal() && toReflector.Internal() && toUs.sender.localAs == toReflector.sender.localAs == asn
    requires forall i :: 0 <= i < |chain| ==> chain[i].Internal() && chain[i].sender.localAs == asn
    requires Relay(toUs, injected).Some? && Relay(toReflector, injected).Some?
    requires RelayAll(chain, Relay(toReflector, injected).value).Some?
    ensures ComparePaths(Relay(toUs, injected).value, RelayAll(chain, Relay(toReflector, injected).value).value).Less?
  {
    ReflectionChainPreserves(chain, Relay(toReflector, injected).value, asn);
  }
}
