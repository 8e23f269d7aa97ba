/**
 A network of speakers joined by FIFO channels.

 Every copy of a route carries the list of speakers it has visited (`trail`,
 origin first, current holder last). No speaker reads the trail: it exists so
 that what the wire attributes mean can be said without reference to how they
 are computed. A run is any sequence of steps; each step names its own peer
 configuration, so policies and reflection roles may change between any two.
 */
module Network {
  import opened BgpTypes
  import opened Propagation

  type NodeId = nat

  datatype Link = Link(sender: NodeId, receiver: NodeId)

  datatype Topology = Topology(ids: map<NodeId, Identity>, links: map<nat, Link>) {

    /** No session of a speaker with itself (OPEN validation refuses it). */
    ghost predicate Valid() {
      forall l :: l in links ==>
        links[l].sender in ids && links[l].receiver in ids && links[l].sender != links[l].receiver
    }

    ghost predicate DistinctRouterIds() {
      forall a, b :: a in ids && b in ids && a != b ==> ids[a].routerId != ids[b].routerId
    }
  }

  datatype Copy = Copy(path: BgpPath, trail: seq<NodeId>)

  datatype Message = Announce(prefix: Prefix, attrs: PathAttributes, trail: seq<NodeId>) | Withdraw(prefix: Prefix)

  datatype Node = Node(adjRibIn: map<Address, map<Prefix, Copy>>, locRib: map<Prefix, Copy>)

  datatype Net = Net(nodes: map<NodeId, Node>, channels: map<nat, seq<Message>>)

  datatype Choice = Learned(peer: Address) | Originated(nextHop: Address) | NoRoute

  datatype Step =
    | Select(node: NodeId, prefix: Prefix, choice: Choice)
    | Send(link: nat, peer: PeerConfig, prefix: Prefix, fourOctetAs: bool)
    | Deliver(link: nat, peer: PeerConfig, now: nat)
    | SessionLoss(link: nat, peerAddr: Address)
    | ConnectionLoss(link: nat)
    | SetRole(node: NodeId, peerAddr: Address, isClient: bool)
    | Purge(node: NodeId, peerAddr: Address, prefix: Prefix)

  function Table(n: Node, peer: Address): map<Prefix, Copy> {
    if peer in n.adjRibIn then n.adjRibIn[peer] else map[]
  }

  function WithTable(n: Node, peer: Address, t: map<Prefix, Copy>): Node {
    n.(adjRibIn := n.adjRibIn[peer := t])
  }

  function Init(topo: Topology): Net {
    Net(map i | i in topo.ids :: Node(map[], map[]), map l | l in topo.links :: [])
  }

  function SelectOn(me: Identity, id: NodeId, n: Node, prefix: Prefix, choice: Choice): Node {
    match choice
    case Learned(peer) =>
      if prefix in Table(n, peer) then n.(locRib := n.locRib[prefix := Table(n, peer)[prefix]]) else n
    case Originated(nextHop) =>
      n.(locRib := n.locRib[prefix := Copy(LocalPath(prefix, nextHop, me.routerId), [id])])
    case NoRoute =>
      n.(locRib := n.locRib - {prefix})
  }

  function MessageFor(me: Identity, peer: PeerConfig, n: Node, prefix: Prefix, fourOctetAs: bool): Message {
    if prefix in n.locRib then
      var best := n.locRib[prefix];
      match ExportRoute(me, peer, prefix, best.path)
      case Some(route) => Announce(prefix, AttributesFor(route, fourOctetAs), best.trail)
      case None => Withdraw(prefix)
    else
      Withdraw(prefix)
  }

  /** The receiver's table for the sending peer after one message. */
  function Receive(me: Identity, id: NodeId, t: map<Prefix, Copy>, peer: PeerConfig, senderRouterId: Address,
                   m: Message, now: nat): map<Prefix, Copy>
  {
    match m
    case Withdraw(prefix) => t - {prefix}
    case Announce(prefix, attrs, trail) =>
      if !CheckAttributes(me, peer, attrs).Usable? then t
      else
        match ImportPrefix(me, peer, Some(senderRouterId), attrs, prefix, now)
        case Keep => t
        case Remove(p) => t - {p}
        case Install(path) => t[prefix := Copy(path, trail + [id])]
  }

  function Reroled(t: map<Prefix, Copy>, isClient: bool): map<Prefix, Copy> {
    map p | p in t :: t[p].(path := t[p].path.(fromClient := isClient))
  }

  predicate Shaped(topo: Topology, net: Net) {
    net.nodes.Keys == topo.ids.Keys && net.channels.Keys == topo.links.Keys
  }

  function SelectStep(topo: Topology, net: Net, i: NodeId, prefix: Prefix, choice: Choice): (r: Net)
    requires Shaped(topo, net) && i in topo.ids
    ensures Shaped(topo, r)
  {
    net.(nodes := net.nodes[i := SelectOn(topo.ids[i], i, net.nodes[i], prefix, choice)])
  }

  function SendStep(topo: Topology, net: Net, l: nat, peer: PeerConfig, prefix: Prefix, fourOctetAs: bool): (r: Net)
    requires topo.Valid() && Shaped(topo, net) && l in topo.links
    ensures Shaped(topo, r)
  {
    var s := topo.links[l].sender;
    var m := MessageFor(topo.ids[s], peer, net.nodes[s], prefix, fourOctetAs);
    net.(channels := net.channels[l := net.channels[l] + [m]])
  }

  function TableStep(topo: Topology, net: Net, i: NodeId, peerAddr: Address, t: map<Prefix, Copy>): (r: Net)
    requires Shaped(topo, net) && i in topo.ids
    ensures Shaped(topo, r)
  {
    net.(nodes := net.nodes[i := WithTable(net.nodes[i], peerAddr, t)])
  }

  function DeliverStep(topo: Topology, net: Net, l: nat, peer: PeerConfig, now: nat): (r: Net)
    requires topo.Valid() && Shaped(topo, net) && l in topo.links && net.channels[l] != []
    ensures Shaped(topo, r)
  {
    var Link(s, r) := topo.links[l];
    var t := Receive(topo.ids[r], r, Table(net.nodes[r], peer.addr), peer, topo.ids[s].routerId, net.channels[l][0], now);
    TableStep(topo, net, r, peer.addr, t).(channels := net.channels[l := net.channels[l][1..]])
  }

  function LossStep(topo: Topology, net: Net, l: nat, peerAddr: Address): (r: Net)
    requires topo.Valid() && Shaped(topo, net) && l in topo.links
    ensures Shaped(topo, r)
  {
    TableStep(topo, net, topo.links[l].receiver, peerAddr, map[]).(channels := net.channels[l := []])
  }

  /** The connection is replaced or lost while the receiver keeps the table: adoption, or retention through a restart. */
  function DropStep(topo: Topology, net: Net, l: nat): (r: Net)
    requires Shaped(topo, net) && l in topo.links
    ensures Shaped(topo, r)
  {
    net.(channels := net.channels[l := []])
  }

  /** Steps that name an unknown speaker, an idle link or the wrong remote AS change nothing. */
  function Next(topo: Topology, net: Net, step: Step): (r: Net)
    requires topo.Valid() && Shaped(topo, net)
    ensures Shaped(topo, r)
  {
    match step
    case Select(i, prefix, choice) =>
      if i in topo.ids then SelectStep(topo, net, i, prefix, choice) else net
    case Send(l, peer, prefix, fourOctetAs) =>
      if l in topo.links && peer.remoteAs == topo.ids[topo.links[l].receiver].localAs
      then SendStep(topo, net, l, peer, prefix, fourOctetAs) else net
    case Deliver(l, peer, now) =>
      if l in topo.links && net.channels[l] != [] && peer.remoteAs == topo.ids[topo.links[l].sender].localAs
      then DeliverStep(topo, net, l, peer, now) else net
    case SessionLoss(l, peerAddr) =>
      if l in topo.links then LossStep(topo, net, l, peerAddr) else net
    case ConnectionLoss(l) =>
      if l in topo.links then DropStep(topo, net, l) else net
    case SetRole(i, peerAddr, isClient) =>
      if i in topo.ids && peerAddr in net.nodes[i].adjRibIn
      then TableStep(topo, net, i, peerAddr, Reroled(Table(net.nodes[i], peerAddr), isClient)) else net
    case Purge(i, peerAddr, prefix) =>
      if i in topo.ids then TableStep(topo, net, i, peerAddr, Table(net.nodes[i], peerAddr) - {prefix}) else net
  }

  function Run(topo: Topology, steps: seq<Step>): (net: Net)
    requires topo.Valid()
    ensures Shaped(topo, net)
  {
    if steps == [] then Init(topo)
    else Next(topo, Run(topo, steps[..|steps| - 1]), steps[|steps| - 1])
  }

  // ------------------------------------------- what a trail says about a copy

  ghost predicate Known(topo: Topology, trail: seq<NodeId>) {
    trail != [] && forall i :: 0 <= i < |trail| ==> trail[i] in topo.ids
  }

  function AsOf(topo: Topology, n: NodeId): U32
    requires n in topo.ids
  {
    topo.ids[n].localAs
  }

  function DropLast<T>(s: seq<T>): seq<T>
    requires s != []
  {
    s[..|s| - 1]
  }

  function Last<T>(s: seq<T>): T
    requires s != []
  {
    s[|s| - 1]
  }

  /** The ASes left behind on the way to the holder, most recent first. */
  ghost function Crossed(topo: Topology, trail: seq<NodeId>): seq<U32>
    requires Known(topo, trail)
  {
    if |trail| == 1 then []
    else
      var before := DropLast(trail);
      if AsOf(topo, Last(before)) == AsOf(topo, Last(trail)) then Crossed(topo, before)
      else [AsOf(topo, Last(before))] + Crossed(topo, before)
  }

  /** Index of the speaker that brought the copy into the holder's AS. */
  ghost function Entry(topo: Topology, trail: seq<NodeId>): (e: nat)
    requires Known(topo, trail)
    ensures e < |trail|
    ensures forall i :: e <= i < |trail| ==> AsOf(topo, trail[i]) == AsOf(topo, Last(trail))
    ensures e > 0 ==> AsOf(topo, trail[e - 1]) != AsOf(topo, Last(trail))
  {
    if |trail| == 1 || AsOf(topo, trail[|trail| - 2]) != AsOf(topo, Last(trail)) then |trail| - 1
    else Entry(topo, DropLast(trail))
  }

  /** The clusters that reflected this copy inside the holder's AS, most recent first. */
  ghost function Reflectors(topo: Topology, trail: seq<NodeId>): seq<Address>
    requires Known(topo, trail)
  {
    var hops := |trail| - 1 - Entry(topo, trail);
    if hops <= 1 then []
    else seq(hops - 1, i requires 0 <= i < hops - 1 => topo.ids[trail[|trail| - 2 - i]].Cluster())
  }

  /** The speaker that injected the route into the AS, once somebody has reflected it. */
  ghost function Injector(topo: Topology, trail: seq<NodeId>): Option<Address>
    requires Known(topo, trail)
  {
    var e := Entry(topo, trail);
    if |trail| - 1 - e <= 1 then None else Some(topo.ids[trail[e]].routerId)
  }

  /** The wire attributes of a copy are exactly what its trail says they are. */
  ghost predicate Describes(topo: Topology, trail: seq<NodeId>, asPath: AsPath,
                            originatorId: Option<Address>, clusterList: seq<Address>)
    requires Known(topo, trail)
  {
    && asPath.Flatten() == Crossed(topo, trail)
    && originatorId == Injector(topo, trail)
    && clusterList == TakeAtMost(Reflectors(topo, trail), MAX_CLUSTER_LIST_LEN)
  }

  /** Every holder along the trail accepted the copy. */
  ghost predicate Accepted(topo: Topology, trail: seq<NodeId>)
    requires Known(topo, trail)
  {
    |trail| == 1 ||
    var h := Last(trail);
    && Accepted(topo, DropLast(trail))
    && h != Last(DropLast(trail))
    && AsOf(topo, h) !in Crossed(topo, trail)
    && Injector(topo, trail) != Some(topo.ids[h].routerId)
    && topo.ids[h].Cluster() !in TakeAtMost(Reflectors(topo, trail), MAX_CLUSTER_LIST_LEN)
  }

  ghost function SourceOf(topo: Topology, trail: seq<NodeId>): PathSource
    requires Known(topo, trail)
  {
    if |trail| == 1 then Local
    else if AsOf(topo, trail[|trail| - 2]) == AsOf(topo, Last(trail)) then Ibgp
    else Ebgp
  }

  ghost predicate StoredOk(topo: Topology, holder: NodeId, c: Copy) {
    && Known(topo, c.trail) && Last(c.trail) == holder
    && Accepted(topo, c.trail)
    && Describes(topo, c.trail, c.path.asPath, c.path.originatorId, c.path.clusterList)
    && c.path.source == SourceOf(topo, c.trail)
    && (|c.trail| > 1 ==> c.path.peerRouterId == topo.ids[c.trail[|c.trail| - 2]].routerId)
  }

  ghost predicate InFlightOk(topo: Topology, link: Link, m: Message) {
    m.Announce? ==>
      && Known(topo, m.trail) && Known(topo, m.trail + [link.receiver]) && Last(m.trail) == link.sender
      && Accepted(topo, m.trail)
      && Describes(topo, m.trail + [link.receiver], m.attrs.asPath, m.attrs.originatorId, m.attrs.clusterList)
  }

  ghost predicate NodeOk(topo: Topology, i: NodeId, n: Node) {
    && (forall a :: a in n.adjRibIn ==> TableOk(topo, i, n.adjRibIn[a]))
    && TableOk(topo, i, n.locRib)
  }

  ghost predicate ChannelOk(topo: Topology, link: Link, ms: seq<Message>) {
    forall k :: 0 <= k < |ms| ==> InFlightOk(topo, link, ms[k])
  }

  ghost predicate NetOk(topo: Topology, net: Net)
    requires Shaped(topo, net)
  {
    && (forall i :: i in topo.ids ==> NodeOk(topo, i, net.nodes[i]))
    && (forall l :: l in topo.links ==> ChannelOk(topo, topo.links[l], net.channels[l]))
  }

  // ------------------------------------------------------------- preservation

  lemma ExtendCrossed(topo: Topology, trail: seq<NodeId>, r: NodeId)
    requires Known(topo, trail) && r in topo.ids
    ensures Known(topo, trail + [r])
    ensures DropLast(trail + [r]) == trail && Last(trail + [r]) == r
    ensures Crossed(topo, trail + [r]) ==
              (if AsOf(topo, Last(trail)) == AsOf(topo, r) then [] else [AsOf(topo, Last(trail))])
              + Crossed(topo, trail)
    ensures Entry(topo, trail + [r]) ==
              if AsOf(topo, Last(trail)) == AsOf(topo, r) then Entry(topo, trail) else |trail|
  {
    assert DropLast(trail + [r]) == trail;
    assert (trail + [r])[|trail| - 1] == Last(trail);
  }

  /** A plain hop leaves no reflection metadata behind. */
  lemma ExtendPlain(topo: Topology, trail: seq<NodeId>, r: NodeId)
    requires Known(topo, trail) && r in topo.ids
    requires AsOf(topo, Last(trail)) != AsOf(topo, r) || !SourceOf(topo, trail).Ibgp?
    ensures Known(topo, trail + [r])
    ensures Reflectors(topo, trail + [r]) == [] && Injector(topo, trail + [r]) == None
  {
    ExtendCrossed(topo, trail, r);
  }

  /** A reflected hop puts the reflector's cluster in front and keeps the injector. */
  lemma ExtendReflected(topo: Topology, trail: seq<NodeId>, r: NodeId)
    requires Known(topo, trail) && r in topo.ids
    requires AsOf(topo, Last(trail)) == AsOf(topo, r) && SourceOf(topo, trail).Ibgp?
    ensures Known(topo, trail + [r])
    ensures Reflectors(topo, trail + [r]) == [topo.ids[Last(trail)].Cluster()] + Reflectors(topo, trail)
    ensures Injector(topo, trail + [r]) ==
              Some(Injector(topo, trail).GetOr(topo.ids[trail[|trail| - 2]].routerId))
  {
    ExtendCrossed(topo, trail, r);
    var full := trail + [r];
    var e := Entry(topo, trail);
    assert e <= |trail| - 2;
    var longer, shorter := Reflectors(topo, full), Reflectors(topo, trail);
    assert |longer| == |trail| - 1 - e && |shorter| == |trail| - 2 - e;
    assert longer[0] == topo.ids[Last(trail)].Cluster();
    forall i | 0 <= i < |shorter| ensures longer[i + 1] == shorter[i] {
      assert full[|full| - 2 - (i + 1)] == trail[|trail| - 2 - i];
    }
    assert longer == [topo.ids[Last(trail)].Cluster()] + shorter;
  }

  lemma TakePrepend<T>(x: T, s: seq<T>, n: nat)
    ensures TakeAtMost([x] + TakeAtMost(s, n), n) == TakeAtMost([x] + s, n)
  {}

  lemma PrependedStaysDistinct<T>(x: T, s: seq<T>, n: nat)
    requires NoDuplicates(TakeAtMost(s, n)) && x !in TakeAtMost(s, n)
    ensures NoDuplicates(TakeAtMost([x] + s, n))
  {
    TakePrepend(x, s, n);
  }

  /** Whatever a speaker exports describes the trail of the copy one hop further on. */
  lemma ExportDescribes(topo: Topology, link: Link, peer: PeerConfig, prefix: Prefix, c: Copy)
    requires topo.Valid() && link.sender in topo.ids && link.receiver in topo.ids
    requires peer.remoteAs == AsOf(topo, link.receiver)
    requires StoredOk(topo, link.sender, c)
    ensures var route := ExportRoute(topo.ids[link.sender], peer, prefix, c.path);
            route.Some? ==>
              && Known(topo, c.trail + [link.receiver])
              && Describes(topo, c.trail + [link.receiver], route.value.asPath,
                           route.value.originatorId, route.value.clusterList)
  {
    var me := topo.ids[link.sender];
    ExtendCrossed(topo, c.trail, link.receiver);
    if AsOf(topo, link.sender) == AsOf(topo, link.receiver) && c.path.source.Ibgp? {
      ExtendReflected(topo, c.trail, link.receiver);
    } else {
      ExtendPlain(topo, c.trail, link.receiver);
    }
    PrependFlatten(c.path.asPath, me.localAs);
    TakePrepend(me.Cluster(), Reflectors(topo, c.trail), MAX_CLUSTER_LIST_LEN);
  }

  lemma SendKeeps(topo: Topology, link: Link, peer: PeerConfig, n: Node, prefix: Prefix, fourOctetAs: bool)
    requires topo.Valid() && link.sender in topo.ids && link.receiver in topo.ids
    requires peer.remoteAs == AsOf(topo, link.receiver)
    requires NodeOk(topo, link.sender, n)
    ensures InFlightOk(topo, link, MessageFor(topo.ids[link.sender], peer, n, prefix, fourOctetAs))
  {
    if prefix in n.locRib {
      ExportDescribes(topo, link, peer, prefix, n.locRib[prefix]);
    }
  }

  /** A copy that passes the import checks is acceptable to its new holder. */
  lemma ImportAccepts(topo: Topology, link: Link, peer: PeerConfig, m: Message, now: nat)
    requires topo.Valid() && link.sender in topo.ids && link.receiver in topo.ids && link.sender != link.receiver
    requires peer.remoteAs == AsOf(topo, link.sender)
    requires m.Announce? && InFlightOk(topo, link, m)
    requires CheckAttributes(topo.ids[link.receiver], peer, m.attrs).Usable?
    ensures var e := ImportPrefix(topo.ids[link.receiver], peer, Some(topo.ids[link.sender].routerId), m.attrs, m.prefix, now);
            e.Install? ==> StoredOk(topo, link.receiver, Copy(e.path, m.trail + [link.receiver]))
  {
    var me := topo.ids[link.receiver];
    var full := m.trail + [link.receiver];
    ExtendCrossed(topo, m.trail, link.receiver);
    ContainsFlatten(m.attrs.asPath, me.localAs);
    assert full[|full| - 2] == link.sender;
    assert Accepted(topo, full);
  }

  ghost predicate TableOk(topo: Topology, i: NodeId, t: map<Prefix, Copy>) {
    forall p :: p in t ==> StoredOk(topo, i, t[p])
  }

  lemma ReceiveKeeps(topo: Topology, link: Link, t: map<Prefix, Copy>, peer: PeerConfig, m: Message, now: nat)
    requires topo.Valid() && link.sender in topo.ids && link.receiver in topo.ids && link.sender != link.receiver
    requires peer.remoteAs == AsOf(topo, link.sender)
    requires InFlightOk(topo, link, m) && TableOk(topo, link.receiver, t)
    ensures TableOk(topo, link.receiver,
                    Receive(topo.ids[link.receiver], link.receiver, t, peer, topo.ids[link.sender].routerId, m, now))
  {
    if m.Announce? && CheckAttributes(topo.ids[link.receiver], peer, m.attrs).Usable? {
      ImportAccepts(topo, link, peer, m, now);
    }
  }

  lemma SelectKeeps(topo: Topology, i: NodeId, n: Node, prefix: Prefix, choice: Choice)
    requires topo.Valid() && i in topo.ids && NodeOk(topo, i, n)
    ensures NodeOk(topo, i, SelectOn(topo.ids[i], i, n, prefix, choice))
  {
    if choice.Originated? {
      var c := Copy(LocalPath(prefix, choice.nextHop, topo.ids[i].routerId), [i]);
      assert StoredOk(topo, i, c);
    }
  }

  lemma NodeReplaced(topo: Topology, net: Net, i: NodeId, n: Node)
    requires Shaped(topo, net)
    requires NetOk(topo, net) && i in topo.ids && NodeOk(topo, i, n)
    ensures NetOk(topo, net.(nodes := net.nodes[i := n]))
  {}

  lemma ChannelReplaced(topo: Topology, net: Net, l: nat, ms: seq<Message>)
    requires Shaped(topo, net)
    requires NetOk(topo, net) && l in topo.links && ChannelOk(topo, topo.links[l], ms)
    ensures NetOk(topo, net.(channels := net.channels[l := ms]))
  {}

  lemma SendStepKeeps(topo: Topology, net: Net, l: nat, peer: PeerConfig, prefix: Prefix, fourOctetAs: bool)
    requires topo.Valid() && Shaped(topo, net) && NetOk(topo, net) && l in topo.links
    requires peer.remoteAs == AsOf(topo, topo.links[l].receiver)
    ensures NetOk(topo, SendStep(topo, net, l, peer, prefix, fourOctetAs))
  {
    var link := topo.links[l];
    SendKeeps(topo, link, peer, net.nodes[link.sender], prefix, fourOctetAs);
    var m := MessageFor(topo.ids[link.sender], peer, net.nodes[link.sender], prefix, fourOctetAs);
    ChannelReplaced(topo, net, l, net.channels[l] + [m]);
  }

  lemma DeliverStepKeeps(topo: Topology, net: Net, l: nat, peer: PeerConfig, now: nat)
    requires topo.Valid() && Shaped(topo, net) && NetOk(topo, net) && l in topo.links && net.channels[l] != []
    requires peer.remoteAs == AsOf(topo, topo.links[l].sender)
    ensures NetOk(topo, DeliverStep(topo, net, l, peer, now))
  {
    var link, ms := topo.links[l], net.channels[l];
    assert ChannelOk(topo, link, ms) && InFlightOk(topo, link, ms[0]);
    var t := Table(net.nodes[link.receiver], peer.addr);
    assert NodeOk(topo, link.receiver, net.nodes[link.receiver]) && TableOk(topo, link.receiver, t);
    ReceiveKeeps(topo, link, t, peer, ms[0], now);
    var t' := Receive(topo.ids[link.receiver], link.receiver, t, peer, topo.ids[link.sender].routerId, ms[0], now);
    TableStepKeeps(topo, net, link.receiver, peer.addr, t');
    ChannelReplaced(topo, TableStep(topo, net, link.receiver, peer.addr, t'), l, ms[1..]);
  }

  lemma LossStepKeeps(topo: Topology, net: Net, l: nat, peerAddr: Address)
    requires topo.Valid() && Shaped(topo, net) && NetOk(topo, net) && l in topo.links
    ensures NetOk(topo, LossStep(topo, net, l, peerAddr))
  {
    TableStepKeeps(topo, net, topo.links[l].receiver, peerAddr, map[]);
    ChannelReplaced(topo, TableStep(topo, net, topo.links[l].receiver, peerAddr, map[]), l, []);
  }

  lemma TableStepKeeps(topo: Topology, net: Net, i: NodeId, peerAddr: Address, t: map<Prefix, Copy>)
    requires Shaped(topo, net) && NetOk(topo, net) && i in topo.ids
    requires TableOk(topo, i, t)
    ensures NetOk(topo, TableStep(topo, net, i, peerAddr, t))
  {
    NodeReplaced(topo, net, i, WithTable(net.nodes[i], peerAddr, t));
  }

  lemma ReroledOk(topo: Topology, i: NodeId, t: map<Prefix, Copy>, isClient: bool)
    requires TableOk(topo, i, t)
    ensures TableOk(topo, i, Reroled(t, isClient))
  {}

  /** Every step of every speaker keeps the meaning of every stored and in-flight copy. */
  lemma NextKeeps(topo: Topology, net: Net, step: Step)
    requires topo.Valid() && Shaped(topo, net) && NetOk(topo, net)
    ensures NetOk(topo, Next(topo, net, step))
  {
    if Next(topo, net, step) != net {
      match step
      case Select(i, prefix, choice) =>
        SelectKeeps(topo, i, net.nodes[i], prefix, choice);
        NodeReplaced(topo, net, i, SelectOn(topo.ids[i], i, net.nodes[i], prefix, choice));
      case Send(l, peer, prefix, fourOctetAs) => SendStepKeeps(topo, net, l, peer, prefix, fourOctetAs);
      case Deliver(l, peer, now) => DeliverStepKeeps(topo, net, l, peer, now);
      case SessionLoss(l, peerAddr) => LossStepKeeps(topo, net, l, peerAddr);
      case ConnectionLoss(l) => ChannelReplaced(topo, net, l, []);
      case SetRole(i, peerAddr, isClient) =>
        ReroledOk(topo, i, Table(net.nodes[i], peerAddr), isClient);
        TableStepKeeps(topo, net, i, peerAddr, Reroled(Table(net.nodes[i], peerAddr), isClient));
      case Purge(i, peerAddr, prefix) =>
        TableStepKeeps(topo, net, i, peerAddr, Table(net.nodes[i], peerAddr) - {prefix});
    }
  }

  lemma {:induction false} RunKeeps(topo: Topology, steps: seq<Step>)
    requires topo.Valid()
    ensures NetOk(topo, Run(topo, steps))
    decreases |steps|
  {
    if steps != [] {
      RunKeeps(topo, steps[..|steps| - 1]);
      NextKeeps(topo, Run(topo, steps[..|steps| - 1]), steps[|steps| - 1]);
    }
  }

  // ------------------------------------------------- consequences on a trail

  lemma {:induction false} CrossedDistinct(topo: Topology, trail: seq<NodeId>)
    requires Known(topo, trail) && Accepted(topo, trail)
    ensures NoDuplicates(Crossed(topo, trail)) && AsOf(topo, Last(trail)) !in Crossed(topo, trail)
    decreases |trail|
  {
    if |trail| > 1 {
      CrossedDistinct(topo, DropLast(trail));
    }
  }

  /** Every AS the copy has left is on its AS_PATH. */
  lemma {:induction false} EarlierAsCrossed(topo: Topology, trail: seq<NodeId>, k: nat)
    requires Known(topo, trail) && k < Entry(topo, trail)
    ensures AsOf(topo, trail[k]) in Crossed(topo, trail)
    decreases |trail|
  {
    var before := DropLast(trail);
    if k < Entry(topo, before) {
      EarlierAsCrossed(topo, before, k);
    } else {
      assert before[k] == trail[k];
    }
  }

  lemma LastHop(topo: Topology, trail: seq<NodeId>)
    requires Known(topo, trail) && |trail| > 1
    ensures var before := DropLast(trail);
            Reflectors(topo, trail) ==
              if SourceOf(topo, trail).Ibgp? && SourceOf(topo, before).Ibgp?
              then [topo.ids[Last(before)].Cluster()] + Reflectors(topo, before) else []
  {
    var before := DropLast(trail);
    assert trail == before + [Last(trail)];
    if SourceOf(topo, trail).Ibgp? && SourceOf(topo, before).Ibgp? {
      ExtendReflected(topo, before, Last(trail));
    } else {
      ExtendPlain(topo, before, Last(trail));
    }
  }

  /** The list on the wire never repeats a cluster, truncated or not. */
  lemma {:induction false} ClusterListDistinct(topo: Topology, trail: seq<NodeId>)
    requires Known(topo, trail) && Accepted(topo, trail)
    ensures NoDuplicates(TakeAtMost(Reflectors(topo, trail), MAX_CLUSTER_LIST_LEN))
    ensures topo.ids[Last(trail)].Cluster() !in TakeAtMost(Reflectors(topo, trail), MAX_CLUSTER_LIST_LEN)
    decreases |trail|
  {
    if |trail| == 1 {
      assert Reflectors(topo, trail) == [];
    } else {
      var before := DropLast(trail);
      ClusterListDistinct(topo, before);
      LastHop(topo, trail);
      PrependedStaysDistinct(topo.ids[Last(before)].Cluster(), Reflectors(topo, before), MAX_CLUSTER_LIST_LEN);
    }
  }

  ghost function ClustersOf(topo: Topology, asn: U32): set<Address> {
    set n | n in topo.ids && topo.ids[n].localAs == asn :: topo.ids[n].Cluster()
  }

  /** No AS has more cluster IDs than a CLUSTER_LIST may carry. */
  ghost predicate WithinClusterLimit(topo: Topology) {
    forall n :: n in topo.ids ==> |ClustersOf(topo, topo.ids[n].localAs)| <= MAX_CLUSTER_LIST_LEN
  }

  lemma ReflectorsInAs(topo: Topology, trail: seq<NodeId>)
    requires Known(topo, trail)
    ensures forall c :: c in Reflectors(topo, trail) ==> c in ClustersOf(topo, AsOf(topo, Last(trail)))
  {
    var e := Entry(topo, trail);
    var list := Reflectors(topo, trail);
    forall i | 0 <= i < |list| ensures list[i] in ClustersOf(topo, AsOf(topo, Last(trail))) {
      var n := trail[|trail| - 2 - i];
      assert list[i] == topo.ids[n].Cluster();
      assert AsOf(topo, n) == AsOf(topo, Last(trail));
    }
  }

  lemma RoomForOwn(topo: Topology, trail: seq<NodeId>)
    requires Known(topo, trail) && NoDuplicates(Reflectors(topo, trail))
    requires topo.ids[Last(trail)].Cluster() !in Reflectors(topo, trail)
    ensures |Reflectors(topo, trail)| < |ClustersOf(topo, AsOf(topo, Last(trail)))|
  {
    var list := Reflectors(topo, trail);
    var own := topo.ids[Last(trail)].Cluster();
    var all := ClustersOf(topo, AsOf(topo, Last(trail)));
    ReflectorsInAs(topo, trail);
    assert own in all;
    DistinctBounded([own] + list, all);
  }

  /** Within the limit nothing is ever truncated, and reflection inside an AS runs out of clusters. */
  lemma {:induction false} NothingTruncated(topo: Topology, trail: seq<NodeId>)
    requires Known(topo, trail) && Accepted(topo, trail) && WithinClusterLimit(topo)
    ensures var list := Reflectors(topo, trail);
            && |list| < |ClustersOf(topo, AsOf(topo, Last(trail)))|
            && TakeAtMost(list, MAX_CLUSTER_LIST_LEN) == list
            && NoDuplicates(list) && topo.ids[Last(trail)].Cluster() !in list
    decreases |trail|
  {
    if |trail| > 1 {
      NothingTruncated(topo, DropLast(trail));
      LastHop(topo, trail);
    }
    RoomForOwn(topo, trail);
  }

  lemma MemberAt<T>(s: seq<T>, i: nat, x: T)
    requires i < |s| && s[i] == x
    ensures x in s
  {}

  lemma ReflectorAt(topo: Topology, trail: seq<NodeId>, i: nat)
    requires Known(topo, trail) && i < |trail| - 2 - Entry(topo, trail)
    ensures i < |Reflectors(topo, trail)| && trail[|trail| - 2 - i] in topo.ids
    ensures Reflectors(topo, trail)[i] == topo.ids[trail[|trail| - 2 - i]].Cluster()
  {}

  lemma ClusterReflected(topo: Topology, trail: seq<NodeId>, k: nat)
    requires Known(topo, trail) && Entry(topo, trail) < k < |trail| - 1
    ensures topo.ids[trail[k]].Cluster() in Reflectors(topo, trail)
  {
    var i := |trail| - 2 - k;
    ReflectorAt(topo, trail, i);
    MemberAt(Reflectors(topo, trail), i, topo.ids[trail[k]].Cluster());
  }

  lemma NotRevisited(topo: Topology, trail: seq<NodeId>, k: nat)
    requires Known(topo, trail) && Accepted(topo, trail) && k < |trail| - 1
    requires topo.ids[Last(trail)].Cluster() !in Reflectors(topo, trail)
    ensures trail[k] != Last(trail)
  {
    if k < Entry(topo, trail) {
      EarlierAsCrossed(topo, trail, k);
    } else if Entry(topo, trail) < k {
      ClusterReflected(topo, trail, k);
    }
  }

  lemma AppendDistinct<T>(s: seq<T>)
    requires s != [] && NoDuplicates(DropLast(s))
    requires forall k :: 0 <= k < |s| - 1 ==> s[k] != Last(s)
    ensures NoDuplicates(s)
  {}

  /** Within the limit a copy never visits a speaker twice. */
  lemma {:induction false} TrailIsSimple(topo: Topology, trail: seq<NodeId>)
    requires Known(topo, trail) && Accepted(topo, trail) && WithinClusterLimit(topo)
    ensures NoDuplicates(trail)
    decreases |trail|
  {
    if |trail| > 1 {
      TrailIsSimple(topo, DropLast(trail));
      assert topo.ids[Last(trail)].Cluster() !in Reflectors(topo, trail) by { NothingTruncated(topo, trail); }
      forall k | 0 <= k < |trail| - 1 ensures trail[k] != Last(trail) {
        NotRevisited(topo, trail, k);
      }
      AppendDistinct(trail);
    }
  }

  // ------------------------------------------------------------- main results

  /** `c` is held by speaker `i` after `steps`, in a peer's table or as the selected route. */
  ghost predicate Holds(topo: Topology, steps: seq<Step>, i: NodeId, c: Copy)
    requires topo.Valid() && i in topo.ids
  {
    var n := Run(topo, steps).nodes[i];
    || (exists a, p :: a in n.adjRibIn && p in n.adjRibIn[a] && n.adjRibIn[a][p] == c)
    || (exists p :: p in n.locRib && n.locRib[p] == c)
  }

  lemma HeldIsOk(topo: Topology, steps: seq<Step>, i: NodeId, c: Copy)
    requires topo.Valid() && i in topo.ids && Holds(topo, steps, i, c)
    ensures StoredOk(topo, i, c)
  {
    RunKeeps(topo, steps);
    assert NodeOk(topo, i, Run(topo, steps).nodes[i]);
  }

  /**
   In every run, AS_PATH lists exactly the ASes this copy crossed, most recent
   first and without repetition, and never the holder's own.
   */
  lemma AsPathIsTheRouteTaken(topo: Topology, steps: seq<Step>, i: NodeId, c: Copy)
    requires topo.Valid() && i in topo.ids && Holds(topo, steps, i, c)
    ensures Known(topo, c.trail) && Last(c.trail) == i
    ensures c.path.asPath.Flatten() == Crossed(topo, c.trail)
    ensures NoDuplicates(c.path.asPath.Flatten()) && !c.path.asPath.Contains(topo.ids[i].localAs)
  {
    HeldIsOk(topo, steps, i, c);
    CrossedDistinct(topo, c.trail);
    ContainsFlatten(c.path.asPath, topo.ids[i].localAs);
  }

  /**
   In every run, CLUSTER_LIST repeats no cluster, omits the holder's own, and is
   the (at most 32 most recent) clusters that reflected this copy; ORIGINATOR_ID,
   when present, names the speaker that injected the route into the AS, which is
   never the holder.
   */
  lemma ReflectionAttributesAreTruthful(topo: Topology, steps: seq<Step>, i: NodeId, c: Copy)
    requires topo.Valid() && i in topo.ids && Holds(topo, steps, i, c)
    ensures Known(topo, c.trail) && Last(c.trail) == i
    ensures c.path.clusterList == TakeAtMost(Reflectors(topo, c.trail), MAX_CLUSTER_LIST_LEN)
    ensures NoDuplicates(c.path.clusterList) && topo.ids[i].Cluster() !in c.path.clusterList
    ensures c.path.originatorId == Injector(topo, c.trail)
    ensures Entry(topo, c.trail) < |c.trail| - 1 ==> c.trail[Entry(topo, c.trail)] != i
    ensures topo.DistinctRouterIds() ==>
              forall x :: x in topo.ids && c.path.originatorId == Some(topo.ids[x].routerId) ==>
                x == c.trail[Entry(topo, c.trail)]
  {
    HeldIsOk(topo, steps, i, c);
    ClusterListDistinct(topo, c.trail);
    var e := Entry(topo, c.trail);
    if e < |c.trail| - 2 {
      assert Injector(topo, c.trail) == Some(topo.ids[c.trail[e]].routerId);
    }
  }

  /** The list an accepted copy is sent on with, before the receiver has checked it. */
  lemma SentClustersDistinct(topo: Topology, trail: seq<NodeId>, receiver: NodeId)
    requires Known(topo, trail + [receiver]) && trail != [] && Known(topo, trail) && Accepted(topo, trail)
    ensures NoDuplicates(TakeAtMost(Reflectors(topo, trail + [receiver]), MAX_CLUSTER_LIST_LEN))
  {
    assert DropLast(trail + [receiver]) == trail;
    ClusterListDistinct(topo, trail);
    LastHop(topo, trail + [receiver]);
    PrependedStaysDistinct(topo.ids[Last(trail)].Cluster(), Reflectors(topo, trail), MAX_CLUSTER_LIST_LEN);
  }

  lemma SentAttributesDistinct(topo: Topology, link: Link, m: Message)
    requires topo.Valid() && link.receiver in topo.ids && m.Announce? && InFlightOk(topo, link, m)
    ensures NoDuplicates(m.attrs.asPath.Flatten()) && NoDuplicates(m.attrs.clusterList)
  {
    CrossedDistinct(topo, m.trail);
    SentClustersDistinct(topo, m.trail, link.receiver);
  }

  /** The same for what is still on the wire, before the receiver has checked anything. */
  lemma InFlightIsTruthful(topo: Topology, steps: seq<Step>, l: nat, m: Message)
    requires topo.Valid() && l in topo.links && m in Run(topo, steps).channels[l] && m.Announce?
    ensures var full := m.trail + [topo.links[l].receiver];
            && Known(topo, full)
            && m.attrs.asPath.Flatten() == Crossed(topo, full) && NoDuplicates(m.attrs.asPath.Flatten())
            && m.attrs.clusterList == TakeAtMost(Reflectors(topo, full), MAX_CLUSTER_LIST_LEN)
            && NoDuplicates(m.attrs.clusterList)
            && m.attrs.originatorId == Injector(topo, full)
  {
    RunKeeps(topo, steps);
    assert ChannelOk(topo, topo.links[l], Run(topo, steps).channels[l]);
    SentAttributesDistinct(topo, topo.links[l], m);
  }

  /** The holders of the copy at its earlier hops accepted it too. */
  lemma {:induction false} EarlierHop(topo: Topology, trail: seq<NodeId>, k: nat)
    requires Known(topo, trail) && Accepted(topo, trail) && k < |trail|
    ensures Known(topo, trail[..k + 1]) && Accepted(topo, trail[..k + 1]) && Last(trail[..k + 1]) == trail[k]
    decreases |trail|
  {
    if k == |trail| - 1 {
      assert trail[..k + 1] == trail;
    } else {
      var before := DropLast(trail);
      EarlierHop(topo, before, k);
      assert before[..k + 1] == trail[..k + 1];
    }
  }

  /** Where it is `k` hops from its origin, the copy has made at most as many hops inside that AS as the AS has clusters. */
  ghost predicate BoundedInside(topo: Topology, trail: seq<NodeId>, k: nat)
    requires k < |trail|
  {
    var part := trail[..k + 1];
    Known(topo, part) && k - Entry(topo, part) <= |ClustersOf(topo, AsOf(topo, Last(part)))|
  }

  lemma HopsInside(topo: Topology, trail: seq<NodeId>, k: nat)
    requires Known(topo, trail) && Accepted(topo, trail) && WithinClusterLimit(topo) && k < |trail|
    ensures BoundedInside(topo, trail, k)
  {
    EarlierHop(topo, trail, k);
    NothingTruncated(topo, trail[..k + 1]);
  }

  /**
   With at most 32 cluster IDs per AS, truncation never fires, no copy reaches a
   speaker twice, and in every AS on the way, the holder's included, reflection takes
   at most one plain hop plus one hop per further cluster.
   */
  lemma PropagationIsFinite(topo: Topology, steps: seq<Step>, i: NodeId, c: Copy)
    requires topo.Valid() && WithinClusterLimit(topo) && i in topo.ids && Holds(topo, steps, i, c)
    ensures Known(topo, c.trail)
    ensures c.path.clusterList == Reflectors(topo, c.trail)
    ensures NoDuplicates(c.trail) && |c.trail| <= |topo.ids|
    ensures forall k :: 0 <= k < |c.trail| ==> BoundedInside(topo, c.trail, k)
  {
    HeldIsOk(topo, steps, i, c);
    forall k | 0 <= k < |c.trail| ensures BoundedInside(topo, c.trail, k) {
      HopsInside(topo, c.trail, k);
    }
    NothingTruncated(topo, c.trail);
    TrailIsSimple(topo, c.trail);
    DistinctBounded(c.trail, topo.ids.Keys);
  }
}
