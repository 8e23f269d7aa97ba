/**
 What each step of the network does, so that the statements about every run are about runs in
 which routes do travel: what is selected, what is sent, what is stored on delivery.
 */
module NetworkEffect {
  import opened BgpTypes
  import opened Propagation
  import opened Network
  import S = Speaker
  import I = ImportEffect

  /** The receiver's end of a session with a neighbour of this identifier. */
  function Session(c: PeerConfig, routerId: Address): S.Peer {
    S.Peer(c, Established, Some(routerId), {}, None, false, {}, {}, None, None)
  }

  ghost predicate SameElsewhere(net: Net, r: Net, i: NodeId) {
    r.nodes.Keys == net.nodes.Keys && forall j :: j in net.nodes && j != i ==> r.nodes[j] == net.nodes[j]
  }

  ghost predicate SameChannels(net: Net, r: Net, l: nat) {
    r.channels.Keys == net.channels.Keys && forall k :: k in net.channels && k != l ==> r.channels[k] == net.channels[k]
  }

  function Look(t: map<Prefix, Copy>, p: Prefix): Option<Copy> {
    if p in t then Some(t[p]) else None
  }

  // ----------------------------------------------------------------- selecting

  /** A copy that starts here. */
  predicate StartsHere(c: Copy, id: NodeId, p: Prefix, nextHop: Address, routerId: Address) {
    && c.trail == [id] && c.path.prefix == p && c.path.source.Local? && c.path.nextHop == nextHop && c.path.asPath.segments == []
    && c.path.localPref == 100 && c.path.peerRouterId == routerId && c.path.originatorId.None? && c.path.clusterList == []
  }

  /** Selecting puts the chosen copy into the Loc-RIB and touches nothing else. */
  lemma SelectEffect(topo: Topology, net: Net, i: NodeId, p: Prefix, choice: Choice)
    requires topo.Valid() && Shaped(topo, net) && i in topo.ids
    ensures var r := Next(topo, net, Select(i, p, choice));
            && r.channels == net.channels && SameElsewhere(net, r, i) && r.nodes[i].adjRibIn == net.nodes[i].adjRibIn
            && (forall q :: q != p ==> Look(r.nodes[i].locRib, q) == Look(net.nodes[i].locRib, q))
            && var before, after := Look(net.nodes[i].locRib, p), Look(r.nodes[i].locRib, p);
               match choice
               case Learned(a) =>
                 after == if a in net.nodes[i].adjRibIn && p in net.nodes[i].adjRibIn[a] then Some(net.nodes[i].adjRibIn[a][p]) else before
               case Originated(nextHop) => after.Some? && StartsHere(after.value, i, p, nextHop, topo.ids[i].routerId)
               case NoRoute => after.None?
  {}

  // ------------------------------------------------------------------- sending

  predicate Carries(attrs: PathAttributes, route: AdvertisedRoute) {
    && attrs.origin == route.origin && attrs.asPath == route.asPath && attrs.nextHop == route.nextHop && attrs.med == route.med
    && attrs.localPref == route.localPref && attrs.originatorId == route.originatorId && attrs.clusterList == route.clusterList
    && !attrs.atomicAggregate && attrs.extCommunities == [] && attrs.mpReach.None? && attrs.mpUnreach.None?
  }

  /** The message that tells a peer about the selected copy, or that there is nothing for it. */
  ghost predicate Tells(me: Identity, peer: PeerConfig, p: Prefix, best: Option<Copy>, m: Message) {
    if best.None? || Withheld(me, peer, p, best.value.path) then m == Withdraw(p)
    else
      m.Announce? && m.prefix == p && m.trail == best.value.trail
      && exists route :: RightAdvertisement(me, peer, p, best.value.path, route) && Carries(m.attrs, route)
  }

  lemma MessageTells(me: Identity, peer: PeerConfig, n: Node, p: Prefix, four: bool)
    ensures Tells(me, peer, p, Look(n.locRib, p), MessageFor(me, peer, n, p, four))
  {
    if p in n.locRib {
      ExportIsRight(me, peer, p, n.locRib[p].path);
      var route := ExportRoute(me, peer, p, n.locRib[p].path);
      if route.Some? {
        assert Carries(AttributesFor(route.value, four), route.value);
      }
    }
  }

  /** Sending puts one message at the end of the channel. */
  lemma SendEffect(topo: Topology, net: Net, l: nat, peer: PeerConfig, p: Prefix, four: bool)
    requires topo.Valid() && Shaped(topo, net) && l in topo.links
    requires peer.remoteAs == topo.ids[topo.links[l].receiver].localAs
    ensures var r := Next(topo, net, Send(l, peer, p, four));
            var s := topo.links[l].sender;
            && r.nodes == net.nodes && SameChannels(net, r, l)
            && |r.channels[l]| == |net.channels[l]| + 1 && r.channels[l][..|net.channels[l]|] == net.channels[l]
            && Tells(topo.ids[s], peer, p, Look(net.nodes[s].locRib, p), r.channels[l][|net.channels[l]|])
  {
    var s := topo.links[l].sender;
    MessageTells(topo.ids[s], peer, net.nodes[s], p, four);
  }

  // ---------------------------------------------------------------- delivering

  predicate Accepts(me: Identity, c: PeerConfig, attrs: PathAttributes) {
    I.GoodNextHop(attrs.nextHop) && I.GoodPath(me, c, attrs.asPath) && !I.BeenHere(me, attrs) && attrs.nextHop != c.localAddr
  }

  /** What the receiver holds for a prefix after one message. */
  ghost predicate ReceivedAt(me: Identity, id: NodeId, c: PeerConfig, routerId: Address, m: Message, now: nat, p: Prefix,
                             before: Option<Copy>, after: Option<Copy>)
  {
    if p != m.prefix then after == before
    else if m.Withdraw? then after.None?
    else if !Accepts(me, c, m.attrs) then after == before
    else if c.importPolicy(p).Denied? then after.None?
    else after.Some? && after.value.trail == m.trail + [id] && I.StoredAs(me, Session(c, routerId), m.attrs, p, now, after.value.path)
  }

  lemma ReceiveEffect(me: Identity, id: NodeId, t: map<Prefix, Copy>, c: PeerConfig, routerId: Address, m: Message, now: nat, p: Prefix)
    ensures ReceivedAt(me, id, c, routerId, m, now, p, Look(t, p), Look(Receive(me, id, t, c, routerId, m, now), p))
  {
    if m.Announce? {
      I.CheckIff(me, c, m.attrs);
      I.ImportedEvent(me, Session(c, routerId), m.attrs, m.prefix, now);
    }
  }

  /** Delivery takes the first message of the channel and does to the receiver's table for that peer what it says. */
  lemma DeliverEffect(topo: Topology, net: Net, l: nat, c: PeerConfig, now: nat, p: Prefix)
    requires topo.Valid() && Shaped(topo, net) && l in topo.links && net.channels[l] != []
    requires c.remoteAs == topo.ids[topo.links[l].sender].localAs
    ensures var r := Next(topo, net, Deliver(l, c, now));
            var i := topo.links[l].receiver;
            && SameChannels(net, r, l) && r.channels[l] == net.channels[l][1..] && SameElsewhere(net, r, i)
            && r.nodes[i].locRib == net.nodes[i].locRib
            && (forall a :: a != c.addr ==> Table(r.nodes[i], a) == Table(net.nodes[i], a))
            && ReceivedAt(topo.ids[i], i, c, topo.ids[topo.links[l].sender].routerId, net.channels[l][0], now, p,
                          Look(Table(net.nodes[i], c.addr), p), Look(Table(r.nodes[i], c.addr), p))
  {
    var i := topo.links[l].receiver;
    ReceiveEffect(topo.ids[i], i, Table(net.nodes[i], c.addr), c, topo.ids[topo.links[l].sender].routerId, net.channels[l][0], now, p);
  }

  // ------------------------------------------------------------- losing routes

  /** The end of a session empties the receiver's table and the channel, the loss of a connection only the channel. */
  lemma LossEffect(topo: Topology, net: Net, l: nat, a: Address)
    requires topo.Valid() && Shaped(topo, net) && l in topo.links
    ensures var r := Next(topo, net, SessionLoss(l, a));
            var i := topo.links[l].receiver;
            && SameChannels(net, r, l) && r.channels[l] == [] && SameElsewhere(net, r, i)
            && r.nodes[i].locRib == net.nodes[i].locRib && Table(r.nodes[i], a) == map[]
            && forall b :: b != a ==> Table(r.nodes[i], b) == Table(net.nodes[i], b)
    ensures var r := Next(topo, net, ConnectionLoss(l));
            r.nodes == net.nodes && SameChannels(net, r, l) && r.channels[l] == []
  {}

  /** A step that replaces one peer's table at one speaker. */
  ghost predicate TableOnly(net: Net, r: Net, i: NodeId, a: Address)
    requires i in net.nodes && i in r.nodes
  {
    && r.channels == net.channels && SameElsewhere(net, r, i) && r.nodes[i].locRib == net.nodes[i].locRib
    && forall b :: b != a ==> Table(r.nodes[i], b) == Table(net.nodes[i], b)
  }

  /** A purge removes one path. */
  lemma PurgeEffect(topo: Topology, net: Net, i: NodeId, a: Address, p: Prefix, q: Prefix)
    requires topo.Valid() && Shaped(topo, net) && i in topo.ids
    ensures var r := Next(topo, net, Purge(i, a, p));
            && TableOnly(net, r, i, a)
            && Look(Table(r.nodes[i], a), q) == if q == p then None else Look(Table(net.nodes[i], a), q)
  {}

  /** A change of role marks every path of the peer anew. */
  lemma RoleEffect(topo: Topology, net: Net, i: NodeId, a: Address, isClient: bool, q: Prefix)
    requires topo.Valid() && Shaped(topo, net) && i in topo.ids
    ensures var r := Next(topo, net, SetRole(i, a, isClient));
            var before, after := Look(Table(net.nodes[i], a), q), Look(Table(r.nodes[i], a), q);
            && TableOnly(net, r, i, a) && (after.Some? <==> before.Some?)
            && (after.Some? ==> after.value == before.value.(path := before.value.path.(fromClient := isClient)))
  {}

  // ------------------------------------------------------------- a route travels

  lemma PrependLeads(path: AsPath, asn: U32)
    ensures var q := path.Prepend(asn); q.segments != [] && q.segments[0].kind.AsSequence? && q.segments[0].asns != [] && q.segments[0].asns[0] == asn
  {}

  /** Both ends of an external session have nothing against the selected copy. */
  ghost predicate Welcome(topo: Topology, link: Link, outward: PeerConfig, inward: PeerConfig, p: Prefix, c: Copy) {
    && link.sender in topo.ids && link.receiver in topo.ids
    && var here, there := topo.ids[link.sender], topo.ids[link.receiver];
       && here.localAs != there.localAs && outward.remoteAs == there.localAs && inward.remoteAs == here.localAs
       && c.path.peerAddr != outward.addr && there.localAs !in c.path.asPath.Flatten()
       && outward.exportPolicy(p).Permitted? && inward.importPolicy(p).Permitted?
       && I.GoodNextHop(outward.localAddr) && outward.localAddr != inward.localAddr
  }

  /** The copy the receiver of an external session then holds. */
  ghost predicate Arrived(topo: Topology, link: Link, outward: PeerConfig, inward: PeerConfig, p: Prefix, c: Copy, got: Copy)
    requires link.sender in topo.ids && link.receiver in topo.ids
  {
    && got.trail == c.trail + [link.receiver] && got.path.prefix == p && got.path.source.Ebgp? && got.path.peerAddr == inward.addr
    && got.path.asPath.Flatten() == [topo.ids[link.sender].localAs] + c.path.asPath.Flatten()
    && got.path.nextHop == outward.localAddr && got.path.origin == c.path.origin
    && got.path.peerRouterId == topo.ids[link.sender].routerId && got.path.originatorId.None? && got.path.clusterList == []
  }

  /** What a message about a welcome copy says is accepted at the other end. */
  lemma WelcomeIsAccepted(topo: Topology, link: Link, outward: PeerConfig, inward: PeerConfig, p: Prefix, c: Copy, n: Node, four: bool)
    requires Welcome(topo, link, outward, inward, p, c) && Look(n.locRib, p) == Some(c)
    ensures var m := MessageFor(topo.ids[link.sender], outward, n, p, four);
            && m.Announce? && m.prefix == p && m.trail == c.trail && Accepts(topo.ids[link.receiver], inward, m.attrs)
            && m.attrs.asPath.Flatten() == [topo.ids[link.sender].localAs] + c.path.asPath.Flatten()
            && m.attrs.nextHop == outward.localAddr && m.attrs.origin == c.path.origin
            && m.attrs.originatorId.None? && m.attrs.clusterList == []
  {
    var me := topo.ids[link.sender];
    ExportIsRight(me, outward, p, c.path);
    PrependLeads(c.path.asPath, me.localAs);
    PrependFlatten(c.path.asPath, me.localAs);
  }

  /**
   A selected copy that neither end objects to travels: sent over an idle external link and
   delivered, the neighbour holds it, one AS and one speaker further on.
   */
  lemma RouteTravels(topo: Topology, net: Net, l: nat, outward: PeerConfig, inward: PeerConfig, p: Prefix, four: bool, now: nat)
    requires topo.Valid() && Shaped(topo, net) && l in topo.links && net.channels[l] == []
    requires p in net.nodes[topo.links[l].sender].locRib
    requires Welcome(topo, topo.links[l], outward, inward, p, net.nodes[topo.links[l].sender].locRib[p])
    ensures var link := topo.links[l];
            var r := Next(topo, Next(topo, net, Send(l, outward, p, four)), Deliver(l, inward, now));
            && r.channels[l] == []
            && p in Table(r.nodes[link.receiver], inward.addr)
            && Arrived(topo, link, outward, inward, p, net.nodes[link.sender].locRib[p], Table(r.nodes[link.receiver], inward.addr)[p])
  {
    var link := topo.links[l];
    var c := net.nodes[link.sender].locRib[p];
    WelcomeIsAccepted(topo, link, outward, inward, p, c, net.nodes[link.sender], four);
    var sent := Next(topo, net, Send(l, outward, p, four));
    assert sent.channels[l] == [MessageFor(topo.ids[link.sender], outward, net.nodes[link.sender], p, four)];
    DeliverEffect(topo, sent, l, inward, now, p);
  }
}
