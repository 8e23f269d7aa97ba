/**
 The state of one speaker for IPv4 unicast, and every operation on it as a
 function of the state before: import, decision, Enhanced Route Refresh as the
 receiving side, and graceful restart as the helping side. The `BgpRouter` class
 carries these out step by step.
 */
module Speaker {
  import opened BgpTypes
  import opened Propagation
  import Decision

  /** The families whose routes a helper keeps. */
  predicate Retainable(f: Family) {
    f == IPV4_UNICAST || f == IPV6_UNICAST || f == L2VPN_EVPN
  }

  /** The Graceful Restart capability as a peer advertised it. */
  datatype GrCapability = GrCapability(restartTime: U16, restarting: bool, families: seq<GrFamily>)

  datatype Peer = Peer(
    config: PeerConfig,
    state: State,
    remoteRouterId: Option<Address>,
    families: set<Family>,
    peerGr: Option<GrCapability>,
    refreshInbound: bool,
    refreshStale: set<Prefix>,
    grStale: set<Family>,
    grDeadline: Option<nat>,
    grCutoff: Option<nat>
  ) {
    predicate Restarting() {
      grDeadline.Some? && grStale != {}
    }
  }

  type Table = map<Prefix, BgpPath>

  datatype Speaker = Speaker(
    me: Identity,
    grEnabled: bool,
    peers: map<Address, Peer>,
    adjRibIn: map<Address, Table>,
    originated: map<Prefix, Address>,
    locRib: Table,
    dirty: bool
  )

  // ------------------------------------------------------------------ tables

  function TableOf(rib: map<Address, Table>, addr: Address): Table {
    if addr in rib then rib[addr] else map[]
  }

  /** A table that becomes empty is dropped from the Adj-RIB-In. */
  function WithTable(rib: map<Address, Table>, addr: Address, t: Table): map<Address, Table> {
    if t == map[] then rib - {addr} else rib[addr := t]
  }

  function SetTable(s: Speaker, addr: Address, t: Table): Speaker {
    s.(adjRibIn := WithTable(s.adjRibIn, addr, t))
  }

  function SetPeer(s: Speaker, addr: Address, p: Peer): Speaker {
    s.(peers := s.peers[addr := p])
  }

  // ------------------------------------------------------------------ import

  function RemovePath(s: Speaker, addr: Address, prefix: Prefix): Speaker {
    var t := TableOf(s.adjRibIn, addr);
    if prefix in t then SetTable(s, addr, t - {prefix}).(dirty := true) else s
  }

  /** An identical re-announcement refreshes the time of receipt but leaves `dirty` alone. */
  function InstallPath(s: Speaker, addr: Address, path: BgpPath): Speaker
    requires addr in s.peers
  {
    var t := TableOf(s.adjRibIn, addr);
    var changed := path.prefix !in t || !t[path.prefix].SameRouteAs(path);
    var peer := s.peers[addr].(refreshStale := s.peers[addr].refreshStale - {path.prefix});
    SetPeer(SetTable(s, addr, t[path.prefix := path]), addr, peer).(dirty := s.dirty || changed)
  }

  function ApplyEvent(s: Speaker, addr: Address, e: TableEvent): Speaker
    requires addr in s.peers
  {
    match e
    case Keep => s
    case Remove(prefix) => RemovePath(s, addr, prefix)
    case Install(path) => InstallPath(s, addr, path)
  }

  function WithdrawAll(s: Speaker, addr: Address, ps: seq<Prefix>): (r: Speaker)
    ensures r.peers == s.peers && r.me == s.me && r.grEnabled == s.grEnabled
  {
    if ps == [] then s else RemovePath(WithdrawAll(s, addr, ps[..|ps| - 1]), addr, ps[|ps| - 1])
  }

  function EventFor(s: Speaker, addr: Address, attrs: PathAttributes, prefix: Prefix, now: nat): TableEvent
    requires addr in s.peers
  {
    ImportPrefix(s.me, s.peers[addr].config, s.peers[addr].remoteRouterId, attrs, prefix, now)
  }

  /** Announces `ps` in order; the flag reports that the prefix limit was crossed and the rest skipped. */
  function AnnounceAll(s: Speaker, addr: Address, attrs: PathAttributes, ps: seq<Prefix>, now: nat): (r: (Speaker, bool))
    requires addr in s.peers
    ensures r.0.peers.Keys == s.peers.Keys && r.0.me == s.me && r.0.grEnabled == s.grEnabled
    ensures r.0.peers[addr].config == s.peers[addr].config
    ensures r.0.peers[addr].remoteRouterId == s.peers[addr].remoteRouterId
  {
    if ps == [] then (s, false)
    else
      var (before, over) := AnnounceAll(s, addr, attrs, ps[..|ps| - 1], now);
      if over then (before, true)
      else
        var e := EventFor(before, addr, attrs, ps[|ps| - 1], now);
        var after := ApplyEvent(before, addr, e);
        (after, e.Install? && |TableOf(after.adjRibIn, addr)| > after.peers[addr].config.maxPrefixes)
  }

  /** One received UPDATE; a notification means the session must be reset. */
  function ImportUpdate(s: Speaker, addr: Address, u: Update, now: nat): (r: (Speaker, Option<Notification>))
    requires addr in s.peers
    ensures r.0.peers.Keys == s.peers.Keys && r.0.grEnabled == s.grEnabled
  {
    var s1 := WithdrawAll(s, addr, u.withdrawn);
    if u.attributes.None? || u.nlri == [] then (s1, None)
    else
      match CheckAttributes(s.me, s.peers[addr].config, u.attributes.value)
      case Reset(note) => (s1, Some(note))
      case Looped => (s1, None)
      case Usable =>
        var (s2, over) := AnnounceAll(s1, addr, u.attributes.value, u.nlri, now);
        (s2, if over then Some(Notification(ERR_CEASE, SUB_MAX_PREFIXES)) else None)
  }

  // ---------------------------------------------------------------- decision

  predicate Stale(s: Speaker, p: BgpPath) {
    && p.peerAddr in s.peers
    && IPV4_UNICAST in s.peers[p.peerAddr].grStale
    && (s.peers[p.peerAddr].grCutoff.None? || p.receivedAt < s.peers[p.peerAddr].grCutoff.value)
  }

  predicate IsMinimum(m: Address, xs: set<Address>) {
    m in xs && forall y :: y in xs ==> m <= y
  }

  lemma MinimumExists(xs: set<Address>)
    requires xs != {}
    ensures exists m :: IsMinimum(m, xs)
  {
    var x :| x in xs;
    if xs == {x} {
      assert IsMinimum(x, xs);
    } else {
      MinimumExists(xs - {x});
      var m :| IsMinimum(m, xs - {x});
      var least := if x < m then x else m;
      forall y | y in xs ensures least <= y {
        assert y == x || y in xs - {x};
      }
      assert IsMinimum(least, xs);
    }
  }

  function Minimum(xs: set<Address>): (m: Address)
    requires xs != {}
    ensures IsMinimum(m, xs)
  {
    MinimumExists(xs);
    var m :| m in xs && IsMinimum(m, xs);
    m
  }

  /** The addresses in ascending order. */
  function Ascending(xs: set<Address>): seq<Address> {
    if xs == {} then [] else [Minimum(xs)] + Ascending(xs - {Minimum(xs)})
  }

  lemma {:induction false} AscendingMembers(xs: set<Address>)
    ensures forall x :: x in Ascending(xs) <==> x in xs
  {
    if xs != {} {
      AscendingMembers(xs - {Minimum(xs)});
    }
  }

  /** Strictly ascending: this order decides between paths that beat each other in a circle. */
  lemma {:induction false} AscendingIsAscending(xs: set<Address>)
    ensures forall i, j :: 0 <= i < j < |Ascending(xs)| ==> Ascending(xs)[i] < Ascending(xs)[j]
  {
    if xs != {} {
      var rest := xs - {Minimum(xs)};
      AscendingIsAscending(rest);
      AscendingMembers(rest);
      forall j | 0 <= j < |Ascending(rest)| ensures Minimum(xs) < Ascending(rest)[j] {
        assert Ascending(rest)[j] in Ascending(rest);
      }
    }
  }

  lemma AscendingDistinct(xs: set<Address>)
    ensures NoDuplicates(Ascending(xs))
  {
    AscendingIsAscending(xs);
  }

  function Gather(rib: map<Address, Table>, addrs: seq<Address>, prefix: Prefix): seq<BgpPath> {
    if addrs == [] then []
    else
      (if addrs[0] in rib && prefix in rib[addrs[0]] then [rib[addrs[0]][prefix]] else [])
      + Gather(rib, addrs[1..], prefix)
  }

  function Fresh(s: Speaker, ps: seq<BgpPath>): seq<BgpPath> {
    if ps == [] then []
    else (if Stale(s, ps[0]) then [] else [ps[0]]) + Fresh(s, ps[1..])
  }

  /** Learned paths in peer address order, fresh ones alone if there are any, then the local one. */
  function Candidates(s: Speaker, prefix: Prefix): seq<BgpPath> {
    var learned := Gather(s.adjRibIn, Ascending(s.adjRibIn.Keys), prefix);
    var current := Fresh(s, learned);
    (if current == [] then learned else current)
    + (if prefix in s.originated then [LocalPath(prefix, s.originated[prefix], s.me.routerId)] else [])
  }

  function AllPrefixes(s: Speaker): set<Prefix> {
    (set a, p | a in s.adjRibIn && p in s.adjRibIn[a] :: p) + s.originated.Keys
  }

  /** The Loc-RIB the decision process computes from scratch. */
  function Decide(s: Speaker): Table {
    map p | p in AllPrefixes(s) && Decision.SelectBest(Candidates(s, p)).Some?
      :: Decision.SelectBest(Candidates(s, p)).value
  }

  function RunDecision(s: Speaker): Speaker {
    s.(locRib := Decide(s), dirty := false)
  }

  // ----------------------------------------------------------- configuration

  function Originate(s: Speaker, prefix: Prefix, nextHop: Address): (r: Speaker)
    ensures r.peers.Keys == s.peers.Keys && r.grEnabled == s.grEnabled
  {
    s.(originated := s.originated[prefix := nextHop], dirty := true)
  }

  function WithdrawOriginated(s: Speaker, prefix: Prefix): (r: Speaker)
    ensures r.peers.Keys == s.peers.Keys && r.grEnabled == s.grEnabled
  {
    if prefix in s.originated then s.(originated := s.originated - {prefix}, dirty := true) else s
  }

  function SetClusterId(s: Speaker, id: Address): (r: Speaker)
    ensures r.peers.Keys == s.peers.Keys && r.grEnabled == s.grEnabled
  {
    if s.me.clusterId == Some(id) then s else s.(me := s.me.(clusterId := Some(id)), dirty := true)
  }

  function Reroled(t: Table, isClient: bool): Table {
    map p | p in t :: t[p].(fromClient := isClient)
  }

  function SetClient(s: Speaker, addr: Address, on: bool): (r: Speaker)
    ensures r.peers.Keys == s.peers.Keys && r.grEnabled == s.grEnabled
  {
    if addr !in s.peers || s.peers[addr].config.isClient == on then s
    else
      var peer := s.peers[addr].(config := s.peers[addr].config.(isClient := on));
      SetPeer(SetTable(s, addr, Reroled(TableOf(s.adjRibIn, addr), on)), addr, peer).(dirty := true)
  }

  // ----------------------------------------- Enhanced Route Refresh, receiving

  /** BoRR: everything currently held becomes stale until it is announced again. */
  function BeginRefresh(s: Speaker, addr: Address): (r: Speaker)
    requires addr in s.peers
    ensures r.peers.Keys == s.peers.Keys && r.grEnabled == s.grEnabled
  {
    SetPeer(s, addr, s.peers[addr].(refreshInbound := true, refreshStale := TableOf(s.adjRibIn, addr).Keys))
  }

  /** EoRR: whatever is still stale goes. Without a preceding BoRR it is ignored. */
  function EndRefresh(s: Speaker, addr: Address): (r: Speaker)
    requires addr in s.peers
    ensures r.peers.Keys == s.peers.Keys && r.grEnabled == s.grEnabled
  {
    var peer := s.peers[addr];
    if !peer.refreshInbound then s
    else
      var t := TableOf(s.adjRibIn, addr);
      SetPeer(SetTable(s, addr, t - peer.refreshStale), addr, peer.(refreshInbound := false, refreshStale := {}))
      .(dirty := s.dirty || t.Keys * peer.refreshStale != {})
  }

  // --------------------------------------------------- graceful restart helper

  datatype Reason = Transport | Protocol | PeerNotification

  function Survivors(t: Table, cutoff: Option<nat>): Table {
    map p | p in t && cutoff.Some? && t[p].receivedAt >= cutoff.value :: t[p]
  }

  /** Removes the retained paths of one family that predate the replacement OPEN. */
  function PurgeStale(s: Speaker, addr: Address, family: Family): (r: Speaker)
    requires addr in s.peers
    ensures r.peers.Keys == s.peers.Keys && r.grEnabled == s.grEnabled
  {
    var t := TableOf(s.adjRibIn, addr);
    var kept := Survivors(t, s.peers[addr].grCutoff);
    if family == IPV4_UNICAST && kept != t then SetTable(s, addr, kept).(dirty := true) else s
  }

  function EndRetention(p: Peer): Peer {
    p.(grStale := {}, grDeadline := None, grCutoff := None)
  }

  /** End-of-RIB from the restarting peer. */
  function CompleteFamily(s: Speaker, addr: Address, family: Family): (r: Speaker)
    requires addr in s.peers
    ensures r.peers.Keys == s.peers.Keys && r.grEnabled == s.grEnabled
  {
    if family !in s.peers[addr].grStale then s
    else
      var s1 := PurgeStale(s, addr, family);
      var peer := s1.peers[addr].(grStale := s1.peers[addr].grStale - {family});
      SetPeer(s1, addr, if peer.grStale == {} then EndRetention(peer) else peer)
  }

  function Flush(s: Speaker, addr: Address): (r: Speaker)
    requires addr in s.peers
    ensures r.peers.Keys == s.peers.Keys && r.grEnabled == s.grEnabled
  {
    var s1 := if IPV4_UNICAST in s.peers[addr].grStale then PurgeStale(s, addr, IPV4_UNICAST) else s;
    SetPeer(s1, addr, EndRetention(s1.peers[addr]))
  }

  /** The retained families the replacement OPEN still vouches for. */
  function Vouched(gr: GrCapability, families: set<Family>): set<Family> {
    set f | f in gr.families && f.forwarding && f.family in families :: f.family
  }

  /** Drops the families not in `kept` and starts the clock for fresh paths. */
  function Narrow(s: Speaker, addr: Address, kept: set<Family>, now: nat): (r: Speaker)
    requires addr in s.peers
    ensures r.peers.Keys == s.peers.Keys && r.grEnabled == s.grEnabled
  {
    var s1 := if IPV4_UNICAST in s.peers[addr].grStale - kept then PurgeStale(s, addr, IPV4_UNICAST) else s;
    var peer := s1.peers[addr].(grStale := kept, grCutoff := Some(now));
    SetPeer(s1, addr, if kept == {} then EndRetention(peer) else peer)
  }

  function ReconcileOpen(s: Speaker, addr: Address, families: set<Family>, gr: Option<GrCapability>, now: nat): (r: Speaker)
    requires addr in s.peers
    ensures r.peers.Keys == s.peers.Keys && r.grEnabled == s.grEnabled
  {
    if !s.peers[addr].Restarting() then s
    else if gr.None? || !gr.value.restarting then Flush(s, addr)
    else Narrow(s, addr, s.peers[addr].grStale * Vouched(gr.value, families), now)
  }

  /** An acceptable OPEN in OpenSent. */
  function OpenAccepted(s: Speaker, addr: Address, routerId: Address, families: set<Family>,
                        gr: Option<GrCapability>, now: nat): (r: Speaker)
    requires addr in s.peers
    ensures r.peers.Keys == s.peers.Keys && r.grEnabled == s.grEnabled
  {
    if !s.peers[addr].state.OpenSent? then s
    else
      var s1 := ReconcileOpen(s, addr, families, gr, now);
      SetPeer(s1, addr, s1.peers[addr].(state := OpenConfirm, remoteRouterId := Some(routerId),
                                        families := families, peerGr := gr))
  }

  /** KEEPALIVE in OpenConfirm. */
  function SessionUp(s: Speaker, addr: Address): (r: Speaker)
    requires addr in s.peers
    ensures r.peers.Keys == s.peers.Keys && r.grEnabled == s.grEnabled
  {
    if !s.peers[addr].state.OpenConfirm? then s
    else SetPeer(s, addr, s.peers[addr].(state := Established)).(dirty := true)
  }

  /** The connection came up and our OPEN was sent. */
  function OpenSentOn(s: Speaker, addr: Address): (r: Speaker)
    requires addr in s.peers
    ensures r.peers.Keys == s.peers.Keys && r.grEnabled == s.grEnabled
  {
    var state := s.peers[addr].state;
    if state.OpenSent? || state.OpenConfirm? || state.Established? then s
    else SetPeer(s, addr, s.peers[addr].(state := OpenSent))
  }

  /**
   Collision resolution put the neighbour's connection in the place of ours: the state
   machine restarts on it, and nothing that was learned or negotiated about routes is touched.
   */
  function Adopt(s: Speaker, addr: Address): (r: Speaker)
    requires addr in s.peers
    ensures r.peers.Keys == s.peers.Keys && r.grEnabled == s.grEnabled
  {
    SetPeer(s, addr, s.peers[addr].(state := Active, families := {}, peerGr := None))
  }

  /** What the operator may change about a neighbour at any time, besides its role. */
  datatype Setting =
    | ImportPolicy(policy: Policy)
    | ExportPolicy(policy: Policy)
    | NextHopSelf(on: bool)
    | MaxPrefixes(limit: nat)
    | EnforceFirstAs(on: bool)

  function Adjusted(c: PeerConfig, x: Setting): PeerConfig {
    match x
    case ImportPolicy(policy) => c.(importPolicy := policy)
    case ExportPolicy(policy) => c.(exportPolicy := policy)
    case NextHopSelf(on) => c.(nextHopSelf := on)
    case MaxPrefixes(limit) => c.(maxPrefixes := limit)
    case EnforceFirstAs(on) => c.(enforceFirstAs := on)
  }

  /** Takes effect on what arrives from now on; nothing stored is looked at again. */
  function Adjust(s: Speaker, addr: Address, x: Setting): (r: Speaker)
    requires addr in s.peers
    ensures r.peers.Keys == s.peers.Keys && r.grEnabled == s.grEnabled
  {
    SetPeer(s, addr, s.peers[addr].(config := Adjusted(s.peers[addr].config, x)))
  }

  function SetGracefulRestart(s: Speaker, on: bool): (r: Speaker)
    ensures r.peers == s.peers
  {
    s.(grEnabled := on)
  }

  function Preserved(peer: Peer, grEnabled: bool, why: Reason): set<Family> {
    if !why.Transport? then {}
    else if peer.Restarting() then peer.grStale
    else if peer.state.Established? && grEnabled && peer.peerGr.Some? && peer.peerGr.value.restartTime > 0 then
      set f | f in peer.peerGr.value.families && f.family in peer.families && Retainable(f.family) :: f.family
    else {}
  }

  function Teardown(s: Speaker, addr: Address, why: Reason, now: nat): (r: Speaker)
    requires addr in s.peers
    ensures r.peers.Keys == s.peers.Keys && r.grEnabled == s.grEnabled
  {
    var peer := s.peers[addr];
    var preserve := Preserved(peer, s.grEnabled, why);
    var flapping := why.Transport? && peer.Restarting();
    var deadline := if flapping then peer.grDeadline
                    else if preserve != {} then Some(now + peer.peerGr.value.restartTime * 1000)
                    else None;
    var s1 := if IPV4_UNICAST in preserve then s else SetTable(s, addr, map[]);
    SetPeer(s1, addr, Peer(peer.config, Idle, None, {}, None, false, {}, preserve, deadline,
                           if flapping then peer.grCutoff else None))
    .(dirty := true)
  }

  function ExpireIn(s: Speaker, addrs: seq<Address>, now: nat): (r: Speaker)
    requires forall i :: 0 <= i < |addrs| ==> addrs[i] in s.peers
    ensures r.peers.Keys == s.peers.Keys && r.grEnabled == s.grEnabled
  {
    if addrs == [] then s
    else
      var s1 := ExpireIn(s, addrs[..|addrs| - 1], now);
      var addr := addrs[|addrs| - 1];
      if s1.peers[addr].grDeadline.Some? && now >= s1.peers[addr].grDeadline.value then Flush(s1, addr) else s1
  }

  /** Ends every retention whose deadline has passed. */
  function ExpireAll(s: Speaker, now: nat): (r: Speaker)
    ensures r.peers.Keys == s.peers.Keys && r.grEnabled == s.grEnabled
  {
    AscendingMembers(s.peers.Keys);
    ExpireIn(s, Ascending(s.peers.Keys), now)
  }

  /** What `poll` does after servicing the peers: expire retention, then decide if anything changed. */
  function PollTail(s: Speaker, now: nat): (r: Speaker)
    ensures r.peers.Keys == s.peers.Keys && r.grEnabled == s.grEnabled
  {
    var s1 := ExpireAll(s, now);
    if s1.dirty then RunDecision(s1) else s1
  }
}
