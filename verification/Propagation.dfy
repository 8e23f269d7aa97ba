/**
 What one speaker does with one path: the import checks, the route reflection
 rules of RFC 4456, and the outbound rewriting.
 */
module Propagation {
  import opened BgpTypes

  datatype Identity = Identity(localAs: U32, routerId: Address, clusterId: Option<Address>) {
    /** The router ID stands in when no cluster ID is configured. */
    function Cluster(): Address {
      clusterId.GetOr(routerId)
    }
  }

  datatype PolicyOutcome = Denied | Permitted(setLocalPref: Option<U32>, setMed: Option<U32>)

  type Policy = Prefix -> PolicyOutcome

  /** The configured part of one neighbour. */
  datatype PeerConfig = PeerConfig(
    addr: Address,
    remoteAs: U32,
    localAddr: Address,
    isClient: bool,
    nextHopSelf: bool,
    enforceFirstAs: bool,
    maxPrefixes: nat,
    importPolicy: Policy,
    exportPolicy: Policy
  )

  // ----------------------------------------------------------------- export

  datatype Verdict = Deny | Plain | Reflect

  function Propagate(isEbgpSession: bool, learnedOverIbgp: bool, fromClient: bool, peerIsClient: bool): Verdict {
    if isEbgpSession || !learnedOverIbgp then Plain
    else if fromClient || peerIsClient then Reflect
    else Deny
  }

  function TakeAtMost<T>(s: seq<T>, n: nat): seq<T> {
    if |s| <= n then s else s[..n]
  }

  /** ORIGINATOR_ID and CLUSTER_LIST of a reflected advertisement. */
  function ReflectionMetadata(me: Identity, receivedOriginator: Option<Address>,
                              receivedClusters: seq<Address>, advertisingRouterId: Address)
    : (Option<Address>, seq<Address>)
  {
    (Some(receivedOriginator.GetOr(advertisingRouterId)),
     TakeAtMost([me.Cluster()] + receivedClusters, MAX_CLUSTER_LIST_LEN))
  }

  /** What `peer` should hear about the selected path `best`, if anything. */
  function ExportRoute(me: Identity, peer: PeerConfig, prefix: Prefix, best: BgpPath): Option<AdvertisedRoute> {
    var isEbgpSession := peer.remoteAs != me.localAs;
    var verdict := Propagate(isEbgpSession, best.source.Ibgp?, best.fromClient, peer.isClient);
    var outcome := peer.exportPolicy(prefix);
    var asPath := if isEbgpSession then best.asPath.Prepend(me.localAs) else best.asPath;
    if best.peerAddr == peer.addr || verdict.Deny? || outcome.Denied? || asPath.Contains(peer.remoteAs) then
      None
    else
      var nextHop :=
        if isEbgpSession || best.source.Local? || (peer.nextHopSelf && !verdict.Reflect?)
        then peer.localAddr else best.nextHop;
      var localPref := if isEbgpSession then None else Some(outcome.setLocalPref.GetOr(best.localPref));
      var med := if isEbgpSession then outcome.setMed else outcome.setMed.OrElse(best.med);
      var meta := if verdict.Reflect?
                  then ReflectionMetadata(me, best.originatorId, best.clusterList, best.peerRouterId)
                  else (None, []);
      Some(AdvertisedRoute(best.origin, asPath, nextHop, med, localPref, meta.0, meta.1))
  }

  /**
   When a selected path is withheld from a peer: it came from there, policy denies it, the
   peer's AS is already on it, or it would pass between two ordinary internal peers.
   */
  ghost predicate Withheld(me: Identity, peer: PeerConfig, prefix: Prefix, best: BgpPath) {
    || best.peerAddr == peer.addr
    || peer.exportPolicy(prefix).Denied?
    || peer.remoteAs in best.asPath.Flatten()
    || (peer.remoteAs == me.localAs && best.source.Ibgp? && !best.fromClient && !peer.isClient)
  }

  lemma WithheldIff(me: Identity, peer: PeerConfig, prefix: Prefix, best: BgpPath)
    ensures ExportRoute(me, peer, prefix, best).None? <==> Withheld(me, peer, prefix, best)
  {
    PrependFlatten(best.asPath, me.localAs);
    ContainsFlatten(best.asPath, peer.remoteAs);
    ContainsFlatten(best.asPath.Prepend(me.localAs), peer.remoteAs);
  }

  /** What policy sets, or else what was there. */
  ghost predicate SetOr<T(!new)>(value: Option<T>, setting: Option<T>, otherwise: Option<T>) {
    (setting.Some? ==> value == setting) && (setting.None? ==> value == otherwise)
  }

  /** What leaves the AS carries our AS number in front, our address as next hop, and nothing internal but the MED we set. */
  ghost predicate External(me: Identity, peer: PeerConfig, policy: PolicyOutcome, best: BgpPath, route: AdvertisedRoute)
    requires policy.Permitted?
  {
    && route.asPath.Flatten() == [me.localAs] + best.asPath.Flatten() && route.nextHop == peer.localAddr
    && route.localPref.None? && route.med == policy.setMed
    && route.originatorId.None? && route.clusterList == [] && route.origin == best.origin
  }

  lemma ExternalAdvertisement(me: Identity, peer: PeerConfig, prefix: Prefix, best: BgpPath)
    requires peer.remoteAs != me.localAs && ExportRoute(me, peer, prefix, best).Some?
    ensures peer.exportPolicy(prefix).Permitted?
    ensures External(me, peer, peer.exportPolicy(prefix), best, ExportRoute(me, peer, prefix, best).value)
  {
    PrependFlatten(best.asPath, me.localAs);
  }

  /**
   Inside the AS, what came from outside or from here goes out with its path and origin, its
   own next hop unless the route is ours or next-hop-self is configured, the policy's
   LOCAL_PREF and MED or else its own, and no mark of a reflector.
   */
  ghost predicate Internal(peer: PeerConfig, policy: PolicyOutcome, best: BgpPath, route: AdvertisedRoute)
    requires policy.Permitted?
  {
    && route.asPath == best.asPath && route.origin == best.origin
    && (best.source.Local? || peer.nextHopSelf ==> route.nextHop == peer.localAddr)
    && (!best.source.Local? && !peer.nextHopSelf ==> route.nextHop == best.nextHop)
    && SetOr(route.localPref, policy.setLocalPref, Some(best.localPref))
    && SetOr(route.med, policy.setMed, best.med)
    && route.originatorId.None? && route.clusterList == []
  }

  lemma InternalAdvertisement(me: Identity, peer: PeerConfig, prefix: Prefix, best: BgpPath)
    requires peer.remoteAs == me.localAs && !best.source.Ibgp? && ExportRoute(me, peer, prefix, best).Some?
    ensures peer.exportPolicy(prefix).Permitted?
    ensures Internal(peer, peer.exportPolicy(prefix), best, ExportRoute(me, peer, prefix, best).value)
  {}

  /**
   A reflector adds its cluster and, the first time, the originator. Besides what policy sets
   it touches nothing else, not even the next hop where next-hop-self is configured.
   */
  ghost predicate Reflected(me: Identity, policy: PolicyOutcome, best: BgpPath, route: AdvertisedRoute)
    requires policy.Permitted?
  {
    && route.asPath == best.asPath && route.nextHop == best.nextHop && route.origin == best.origin
    && SetOr(route.localPref, policy.setLocalPref, Some(best.localPref))
    && SetOr(route.med, policy.setMed, best.med)
    && SetOr(route.originatorId, best.originatorId, Some(best.peerRouterId))
    && route.clusterList != [] && route.clusterList[0] == (if me.clusterId.Some? then me.clusterId.value else me.routerId)
    && route.clusterList[1..] <= best.clusterList
    && (|best.clusterList| < 32 ==> route.clusterList[1..] == best.clusterList)
    && (|best.clusterList| >= 32 ==> |route.clusterList| == 32)
  }

  lemma ReflectionTouchesNothingElse(me: Identity, peer: PeerConfig, prefix: Prefix, best: BgpPath)
    requires peer.remoteAs == me.localAs && best.source.Ibgp? && ExportRoute(me, peer, prefix, best).Some?
    ensures peer.exportPolicy(prefix).Permitted?
    ensures Reflected(me, peer.exportPolicy(prefix), best, ExportRoute(me, peer, prefix, best).value)
  {
    var full := [me.Cluster()] + best.clusterList;
    assert full[1..] == best.clusterList;
    if |full| > MAX_CLUSTER_LIST_LEN {
      assert full[..MAX_CLUSTER_LIST_LEN][1..] == best.clusterList[..MAX_CLUSTER_LIST_LEN - 1];
    }
  }

  /** What one peer hears of one selected path. */
  ghost predicate RightAdvertisement(me: Identity, peer: PeerConfig, prefix: Prefix, best: BgpPath, route: AdvertisedRoute) {
    var policy := peer.exportPolicy(prefix);
    && policy.Permitted?
    && if peer.remoteAs != me.localAs then External(me, peer, policy, best, route)
       else if best.source.Ibgp? then Reflected(me, policy, best, route)
       else Internal(peer, policy, best, route)
  }

  lemma ExportIsRight(me: Identity, peer: PeerConfig, prefix: Prefix, best: BgpPath)
    ensures var route := ExportRoute(me, peer, prefix, best);
            route.Some? ==> RightAdvertisement(me, peer, prefix, best, route.value)
    ensures ExportRoute(me, peer, prefix, best).None? <==> Withheld(me, peer, prefix, best)
  {
    WithheldIff(me, peer, prefix, best);
    if ExportRoute(me, peer, prefix, best).Some? {
      if peer.remoteAs != me.localAs {
        ExternalAdvertisement(me, peer, prefix, best);
      } else if best.source.Ibgp? {
        ReflectionTouchesNothingElse(me, peer, prefix, best);
      } else {
        InternalAdvertisement(me, peer, prefix, best);
      }
    }
  }

  /** The attribute set that carries an advertised route. */
  function AttributesFor(route: AdvertisedRoute, fourOctetAs: bool): PathAttributes {
    PathAttributes(route.origin, route.asPath, route.nextHop, route.med, route.localPref, false, [],
                   None, None, route.originatorId, route.clusterList, fourOctetAs)
  }

  // ----------------------------------------------------------------- import

  datatype LoopKind = OriginatorLoop | ClusterLoop

  function ReflectionLoop(me: Identity, originatorId: Option<Address>, clusterList: seq<Address>): Option<LoopKind> {
    if originatorId == Some(me.routerId) then Some(OriginatorLoop)
    else if me.Cluster() in clusterList then Some(ClusterLoop)
    else None
  }

  predicate IsLoopback(a: Address) { a / 0x100_0000 == 127 }

  predicate IsMulticast(a: Address) { 224 <= a / 0x100_0000 <= 239 }

  predicate UsableNextHop(a: Address) {
    a != UNSPECIFIED && !IsLoopback(a) && !IsMulticast(a) && a != 0xFFFF_FFFF
  }

  const ERR_UPDATE_MESSAGE: U8 := 3
  const ERR_CEASE: U8 := 6
  const SUB_INVALID_NEXT_HOP: U8 := 8
  const SUB_MAX_PREFIXES: U8 := 1

  datatype Notification = Notification(code: U8, subcode: U8)

  /** What the attributes of an UPDATE mean for all its prefixes together. */
  datatype AttributeCheck = Reset(note: Notification) | Looped | Usable

  function CheckAttributes(me: Identity, peer: PeerConfig, attrs: PathAttributes): AttributeCheck {
    if !UsableNextHop(attrs.nextHop) then
      Reset(Notification(ERR_UPDATE_MESSAGE, SUB_INVALID_NEXT_HOP))
    else if && peer.remoteAs != me.localAs
            && (attrs.asPath.IsEmpty()
                || (peer.enforceFirstAs && attrs.asPath.LeadingAs() != Some(peer.remoteAs))) then
      Reset(Notification(ERR_UPDATE_MESSAGE, SUB_MALFORMED_AS_PATH))
    else if ReflectionLoop(me, attrs.originatorId, attrs.clusterList).Some? then
      Looped
    else if attrs.asPath.Contains(me.localAs) then
      Looped
    else
      Usable
  }

  /** What the checks let through is free of loops, has a usable next hop, and from outside starts with the neighbour. */
  lemma AcceptedAttributesAreSound(me: Identity, peer: PeerConfig, attrs: PathAttributes)
    requires CheckAttributes(me, peer, attrs).Usable?
    ensures attrs.nextHop != UNSPECIFIED && me.localAs !in attrs.asPath.Flatten()
    ensures attrs.originatorId != Some(me.routerId) && me.Cluster() !in attrs.clusterList
    ensures peer.remoteAs != me.localAs ==> attrs.asPath.Flatten() != []
    ensures peer.remoteAs != me.localAs && peer.enforceFirstAs ==> attrs.asPath.Flatten()[0] == peer.remoteAs
  {
    ContainsFlatten(attrs.asPath, me.localAs);
    NonEmptyFlatten(attrs.asPath);
  }

  lemma {:induction false} NonEmptyFlatten(p: AsPath)
    ensures p.IsEmpty() <==> p.Flatten() == []
    ensures p.LeadingAs().Some? ==> p.Flatten() != [] && p.Flatten()[0] == p.LeadingAs().value
    decreases |p.segments|
  {
    if p.segments != [] {
      var rest := AsPath(p.segments[1..]);
      NonEmptyFlatten(rest);
      assert p.Flatten() == p.segments[0].asns + rest.Flatten();
      assert forall i :: 0 <= i < |rest.segments| ==> rest.segments[i] == p.segments[i + 1];
      assert p.IsEmpty() <==> p.segments[0].asns == [] && rest.IsEmpty() by {
        if p.segments[0].asns == [] && rest.IsEmpty() {
          forall i | 0 <= i < |p.segments| ensures p.segments[i].asns == [] {
            assert i > 0 ==> p.segments[i] == rest.segments[i - 1];
          }
        }
      }
    }
  }

  /** What one announced prefix does to the Adj-RIB-In of its peer. */
  datatype TableEvent = Keep | Remove(prefix: Prefix) | Install(path: BgpPath)

  function ImportPrefix(me: Identity, peer: PeerConfig, remoteRouterId: Option<Address>,
                        attrs: PathAttributes, prefix: Prefix, now: nat): TableEvent
  {
    var outcome := peer.importPolicy(prefix);
    if attrs.nextHop == peer.localAddr then Keep
    else if outcome.Denied? then Remove(prefix)
    else
      Install(BgpPath(
        prefix,
        if peer.remoteAs != me.localAs then Ebgp else Ibgp,
        peer.addr,
        peer.remoteAs,
        remoteRouterId.GetOr(peer.addr),
        attrs.origin,
        attrs.asPath,
        attrs.nextHop,
        outcome.setMed.OrElse(attrs.med),
        outcome.setLocalPref.GetOr(attrs.localPref.GetOr(DEFAULT_LOCAL_PREF)),
        attrs.atomicAggregate,
        attrs.originatorId,
        attrs.clusterList,
        peer.isClient,
        now))
  }
}
