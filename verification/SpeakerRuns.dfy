/**
 Runs of one speaker: any sequence of received messages, session events and
 configuration changes, with `poll` interleaved anywhere.
 */
module SpeakerRuns {
  import opened BgpTypes
  import opened Propagation
  import opened Speaker

  datatype Op =
    | Receive(addr: Address, update: Update, now: nat)
    | Borr(addr: Address)
    | Eorr(addr: Address)
    | EndOfRib(addr: Address, family: Family)
    | SendOpen(addr: Address)
    | Open(addr: Address, routerId: Address, families: set<Family>, gr: Option<GrCapability>, now: nat)
    | Up(addr: Address)
    | Down(addr: Address, why: Reason, now: nat)
    | SetRole(addr: Address, isClient: bool)
    | Network(prefix: Prefix, nextHop: Address)
    | NoNetwork(prefix: Prefix)
    | ClusterId(id: Address)
    | Adoption(addr: Address)
    | Set(addr: Address, setting: Setting)
    | Helper(on: bool)
    | Poll(now: nat)

  predicate IsEndOfRib(u: Update) {
    u.withdrawn == [] && u.nlri == [] && u.attributes.None?
  }

  /** An UPDATE on an established session; an error resets the session. */
  function HandleUpdate(s: Speaker, addr: Address, u: Update, now: nat): (r: Speaker)
    requires addr in s.peers
    ensures r.peers.Keys == s.peers.Keys && r.grEnabled == s.grEnabled
  {
    var (s1, note) := ImportUpdate(s, addr, u, now);
    if note.Some? then Teardown(s1, addr, Protocol, now)
    else if IsEndOfRib(u) then CompleteFamily(s1, addr, IPV4_UNICAST)
    else s1
  }

  predicate IsUp(s: Speaker, addr: Address) {
    addr in s.peers && s.peers[addr].state.Established?
  }

  /** Messages a session cannot receive in its state, and unknown peers, change nothing. */
  function Apply(s: Speaker, op: Op): (r: Speaker)
    ensures r.peers.Keys == s.peers.Keys && (!op.Helper? ==> r.grEnabled == s.grEnabled)
  {
    match op
    case Receive(addr, u, now) => if IsUp(s, addr) then HandleUpdate(s, addr, u, now) else s
    case Borr(addr) => if IsUp(s, addr) then BeginRefresh(s, addr) else s
    case Eorr(addr) => if IsUp(s, addr) then EndRefresh(s, addr) else s
    case EndOfRib(addr, family) => if IsUp(s, addr) then CompleteFamily(s, addr, family) else s
    case SendOpen(addr) => if addr in s.peers then OpenSentOn(s, addr) else s
    case Open(addr, routerId, families, gr, now) =>
      if addr in s.peers then OpenAccepted(s, addr, routerId, families, gr, now) else s
    case Up(addr) => if addr in s.peers then SessionUp(s, addr) else s
    case Down(addr, why, now) => if addr in s.peers then Teardown(s, addr, why, now) else s
    case SetRole(addr, isClient) => SetClient(s, addr, isClient)
    case Network(prefix, nextHop) => Originate(s, prefix, nextHop)
    case NoNetwork(prefix) => WithdrawOriginated(s, prefix)
    case ClusterId(id) => SetClusterId(s, id)
    case Adoption(addr) => if addr in s.peers then Adopt(s, addr) else s
    case Set(addr, setting) => if addr in s.peers then Adjust(s, addr, setting) else s
    case Helper(on) => SetGracefulRestart(s, on)
    case Poll(now) => PollTail(s, now)
  }

  function Run(s: Speaker, ops: seq<Op>): (r: Speaker)
    ensures r.peers.Keys == s.peers.Keys
  {
    if ops == [] then s else Apply(Run(s, ops[..|ops| - 1]), ops[|ops| - 1])
  }

  /** A speaker as constructed, with its neighbours configured. */
  ghost predicate Initial(s: Speaker) {
    && s.adjRibIn == map[] && s.locRib == map[] && s.originated == map[] && s.dirty
    && forall a :: a in s.peers ==>
         var p := s.peers[a];
         && p.config.addr == a && p.state.Idle?
         && p.grStale == {} && p.grDeadline.None? && p.grCutoff.None?
         && !p.refreshInbound && p.refreshStale == {}
  }

  // --------------------------------------------------------------- well-formed

  ghost predicate KeyedTable(a: Address, t: Table) {
    forall p :: p in t ==> t[p].peerAddr == a && t[p].prefix == p && !t[p].source.Local?
  }

  /** Learned paths sit under their own peer and prefix, and no peer has an empty table. */
  ghost predicate WellKeyed(s: Speaker) {
    && (forall a :: a in s.adjRibIn ==> s.adjRibIn[a] != map[] && KeyedTable(a, s.adjRibIn[a]))
    && (forall a :: a in s.peers ==> s.peers[a].config.addr == a)
  }

  lemma TableReplaced(s: Speaker, addr: Address, t: Table)
    requires WellKeyed(s) && KeyedTable(addr, t)
    ensures WellKeyed(SetTable(s, addr, t))
  {}

  // ---------------------------------------------------- equal up to timestamps

  ghost predicate SameRib(a: Table, b: Table) {
    a.Keys == b.Keys && forall p :: p in a ==> a[p].SameRouteAs(b[p])
  }

  ghost predicate SameTables(a: map<Address, Table>, b: map<Address, Table>) {
    a.Keys == b.Keys && forall x :: x in a ==> SameRib(a[x], b[x])
  }

  ghost predicate SameList(a: seq<BgpPath>, b: seq<BgpPath>) {
    |a| == |b| && forall i :: 0 <= i < |a| ==> a[i].SameRouteAs(b[i])
  }

  ghost predicate NoRetention(s: Speaker) {
    forall a :: a in s.peers ==> IPV4_UNICAST !in s.peers[a].grStale
  }

  lemma {:induction false} GatherSame(a: map<Address, Table>, b: map<Address, Table>, addrs: seq<Address>, p: Prefix)
    requires SameTables(a, b)
    ensures SameList(Gather(a, addrs, p), Gather(b, addrs, p))
    decreases |addrs|
  {
    if addrs != [] {
      GatherSame(a, b, addrs[1..], p);
      if addrs[0] in a {
        assert SameRib(a[addrs[0]], b[addrs[0]]);
      }
    }
  }

  lemma ComparisonIgnoresTime(a: BgpPath, a': BgpPath, b: BgpPath, b': BgpPath)
    requires a.SameRouteAs(a') && b.SameRouteAs(b')
    ensures Decision.ComparePaths(a, b) == Decision.ComparePaths(a', b')
  {}

  lemma {:induction false} SelectSame(xs: seq<BgpPath>, ys: seq<BgpPath>)
    requires SameList(xs, ys)
    ensures Decision.SelectBest(xs).Some? == Decision.SelectBest(ys).Some? == (xs != [])
    ensures xs != [] ==> Decision.SelectBest(xs).value.SameRouteAs(Decision.SelectBest(ys).value)
    decreases |xs|
  {
    if |xs| > 1 {
      var n := |xs| - 1;
      SelectSame(xs[..n], ys[..n]);
      ComparisonIgnoresTime(xs[n], ys[n], Decision.SelectBest(xs[..n]).value, Decision.SelectBest(ys[..n]).value);
    }
  }

  ghost predicate SameInputs(s: Speaker, r: Speaker) {
    && SameTables(s.adjRibIn, r.adjRibIn) && s.originated == r.originated && s.me.routerId == r.me.routerId
  }

  lemma PrefixesSame(s: Speaker, r: Speaker)
    requires SameInputs(s, r)
    ensures AllPrefixes(s) == AllPrefixes(r)
  {
    forall p ensures p in AllPrefixes(s) <==> p in AllPrefixes(r) {
      if a :| a in s.adjRibIn && p in s.adjRibIn[a] {
        assert SameRib(s.adjRibIn[a], r.adjRibIn[a]) && p in r.adjRibIn[a];
      }
      if a :| a in r.adjRibIn && p in r.adjRibIn[a] {
        assert SameRib(s.adjRibIn[a], r.adjRibIn[a]) && p in s.adjRibIn[a];
      }
    }
  }

  // ------------------------------------------------------- the dirty flag

  ghost predicate Coherent(s: Speaker) {
    SameRib(s.locRib, Decide(s))
  }

  /** Either the change is flagged, or nothing the decision reads has changed. */
  ghost predicate Flagged(s: Speaker, r: Speaker) {
    || r.dirty
    || (!s.dirty && r.locRib == s.locRib && SameInputs(s, r))
  }

  lemma FlaggedTransitive(s: Speaker, r: Speaker, q: Speaker)
    requires Flagged(s, r) && Flagged(r, q)
    ensures Flagged(s, q)
  {
    if !q.dirty {
      forall x | x in s.adjRibIn ensures SameRib(s.adjRibIn[x], q.adjRibIn[x]) {
        assert SameRib(s.adjRibIn[x], r.adjRibIn[x]) && SameRib(r.adjRibIn[x], q.adjRibIn[x]);
      }
    }
  }

  lemma SameTablesReflexive(a: map<Address, Table>)
    ensures SameTables(a, a)
  {}

  lemma SameTableSet(s: Speaker, addr: Address, t: Table)
    requires WellKeyed(s) && SameRib(TableOf(s.adjRibIn, addr), t)
    ensures SameTables(s.adjRibIn, SetTable(s, addr, t).adjRibIn)
  {
    if t == map[] {
      assert addr !in s.adjRibIn;
    } else {
      assert addr in s.adjRibIn;
    }
  }

  lemma RemoveFlagged(s: Speaker, addr: Address, p: Prefix)
    requires WellKeyed(s) && addr in s.peers
    ensures var r := RemovePath(s, addr, p); WellKeyed(r) && Flagged(s, r)
  {
    TableReplaced(s, addr, TableOf(s.adjRibIn, addr) - {p});
    SameTablesReflexive(s.adjRibIn);
  }

  lemma ReannouncedRib(t: Table, path: BgpPath)
    requires path.prefix in t && t[path.prefix].SameRouteAs(path)
    ensures SameRib(t, t[path.prefix := path])
  {}

  lemma InstallSameInputs(s: Speaker, addr: Address, path: BgpPath)
    requires WellKeyed(s) && addr in s.peers
    requires var t := TableOf(s.adjRibIn, addr); path.prefix in t && t[path.prefix].SameRouteAs(path)
    ensures SameInputs(s, InstallPath(s, addr, path))
  {
    var t := TableOf(s.adjRibIn, addr);
    ReannouncedRib(t, path);
    SameTableSet(s, addr, t[path.prefix := path]);
  }

  lemma InstallWellKeyed(s: Speaker, addr: Address, path: BgpPath)
    requires WellKeyed(s) && addr in s.peers && path.peerAddr == addr && !path.source.Local?
    ensures WellKeyed(InstallPath(s, addr, path))
  {
    var t := TableOf(s.adjRibIn, addr);
    var t' := t[path.prefix := path];
    assert t'[path.prefix] == path && t' != map[];
    assert KeyedTable(addr, t');
  }

  lemma InstallFlagged(s: Speaker, addr: Address, path: BgpPath)
    requires WellKeyed(s) && addr in s.peers
    ensures Flagged(s, InstallPath(s, addr, path))
  {
    var t := TableOf(s.adjRibIn, addr);
    if path.prefix in t && t[path.prefix].SameRouteAs(path) {
      InstallSameInputs(s, addr, path);
    }
  }

  lemma EventFlagged(s: Speaker, addr: Address, e: TableEvent)
    requires WellKeyed(s) && addr in s.peers
    requires e.Install? ==> e.path.peerAddr == addr && !e.path.source.Local?
    ensures var r := ApplyEvent(s, addr, e); WellKeyed(r) && Flagged(s, r)
  {
    match e
    case Keep => SameTablesReflexive(s.adjRibIn);
    case Remove(p) => RemoveFlagged(s, addr, p);
    case Install(path) => InstallWellKeyed(s, addr, path); InstallFlagged(s, addr, path);
  }

  lemma {:induction false} WithdrawFlagged(s: Speaker, addr: Address, ps: seq<Prefix>)
    requires WellKeyed(s) && addr in s.peers
    ensures var r := WithdrawAll(s, addr, ps); WellKeyed(r) && Flagged(s, r)
    decreases |ps|
  {
    if ps != [] {
      var n := |ps| - 1;
      var before := WithdrawAll(s, addr, ps[..n]);
      WithdrawFlagged(s, addr, ps[..n]);
      EventFlagged(before, addr, Remove(ps[n]));
      FlaggedTransitive(s, before, RemovePath(before, addr, ps[n]));
    }
  }

  lemma {:induction false} AnnounceFlagged(s: Speaker, addr: Address, attrs: PathAttributes, ps: seq<Prefix>, now: nat)
    requires WellKeyed(s) && addr in s.peers
    ensures var r := AnnounceAll(s, addr, attrs, ps, now).0; WellKeyed(r) && Flagged(s, r)
    decreases |ps|
  {
    if ps != [] {
      var n := |ps| - 1;
      AnnounceFlagged(s, addr, attrs, ps[..n], now);
      var (before, over) := AnnounceAll(s, addr, attrs, ps[..n], now);
      if !over {
        var e := EventFor(before, addr, attrs, ps[n], now);
        EventFlagged(before, addr, e);
        FlaggedTransitive(s, before, ApplyEvent(before, addr, e));
      }
    }
  }

  lemma ImportFlagged(s: Speaker, addr: Address, u: Update, now: nat)
    requires WellKeyed(s) && addr in s.peers
    ensures var r := ImportUpdate(s, addr, u, now).0; WellKeyed(r) && Flagged(s, r) && addr in r.peers
  {
    var s1 := WithdrawAll(s, addr, u.withdrawn);
    WithdrawFlagged(s, addr, u.withdrawn);
    var r := ImportUpdate(s, addr, u, now).0;
    if r != s1 {
      assert r == AnnounceAll(s1, addr, u.attributes.value, u.nlri, now).0;
      AnnounceFlagged(s1, addr, u.attributes.value, u.nlri, now);
      FlaggedTransitive(s, s1, r);
    }
  }

  lemma PurgeFlagged(s: Speaker, addr: Address, family: Family)
    requires WellKeyed(s) && addr in s.peers
    ensures var r := PurgeStale(s, addr, family); WellKeyed(r) && Flagged(s, r) && addr in r.peers
  {
    TableReplaced(s, addr, Survivors(TableOf(s.adjRibIn, addr), s.peers[addr].grCutoff));
    SameTablesReflexive(s.adjRibIn);
  }

  lemma PeerFlagged(s: Speaker, addr: Address, p: Peer)
    requires WellKeyed(s) && p.config.addr == addr
    ensures var r := SetPeer(s, addr, p); WellKeyed(r) && Flagged(s, r)
  {
    SameTablesReflexive(s.adjRibIn);
  }

  lemma CompleteFlagged(s: Speaker, addr: Address, family: Family)
    requires WellKeyed(s) && addr in s.peers
    ensures var r := CompleteFamily(s, addr, family); WellKeyed(r) && Flagged(s, r)
  {
    SameTablesReflexive(s.adjRibIn);
    var s1 := PurgeStale(s, addr, family);
    PurgeFlagged(s, addr, family);
    var peer := s1.peers[addr].(grStale := s1.peers[addr].grStale - {family});
    var peer' := if peer.grStale == {} then EndRetention(peer) else peer;
    PeerFlagged(s1, addr, peer');
    FlaggedTransitive(s, s1, SetPeer(s1, addr, peer'));
  }

  lemma FlushFlagged(s: Speaker, addr: Address)
    requires WellKeyed(s) && addr in s.peers
    ensures var r := Flush(s, addr); WellKeyed(r) && Flagged(s, r)
  {
    SameTablesReflexive(s.adjRibIn);
    var s1 := if IPV4_UNICAST in s.peers[addr].grStale then PurgeStale(s, addr, IPV4_UNICAST) else s;
    PurgeFlagged(s, addr, IPV4_UNICAST);
    PeerFlagged(s1, addr, EndRetention(s1.peers[addr]));
    FlaggedTransitive(s, s1, SetPeer(s1, addr, EndRetention(s1.peers[addr])));
  }

  lemma NarrowFlagged(s: Speaker, addr: Address, kept: set<Family>, now: nat)
    requires WellKeyed(s) && addr in s.peers
    ensures var r := Narrow(s, addr, kept, now); WellKeyed(r) && Flagged(s, r) && addr in r.peers
  {
    SameTablesReflexive(s.adjRibIn);
    var s1 := if IPV4_UNICAST in s.peers[addr].grStale - kept then PurgeStale(s, addr, IPV4_UNICAST) else s;
    PurgeFlagged(s, addr, IPV4_UNICAST);
    var peer := s1.peers[addr].(grStale := kept, grCutoff := Some(now));
    var peer' := if kept == {} then EndRetention(peer) else peer;
    PeerFlagged(s1, addr, peer');
    FlaggedTransitive(s, s1, SetPeer(s1, addr, peer'));
  }

  lemma ReconcileFlagged(s: Speaker, addr: Address, families: set<Family>, gr: Option<GrCapability>, now: nat)
    requires WellKeyed(s) && addr in s.peers
    ensures var r := ReconcileOpen(s, addr, families, gr, now); WellKeyed(r) && Flagged(s, r) && addr in r.peers
  {
    if !s.peers[addr].Restarting() {
      SameTablesReflexive(s.adjRibIn);
    } else if gr.None? || !gr.value.restarting {
      FlushFlagged(s, addr);
    } else {
      NarrowFlagged(s, addr, s.peers[addr].grStale * Vouched(gr.value, families), now);
    }
  }

  lemma OpenFlagged(s: Speaker, addr: Address, routerId: Address, families: set<Family>, gr: Option<GrCapability>, now: nat)
    requires WellKeyed(s) && addr in s.peers
    ensures var r := OpenAccepted(s, addr, routerId, families, gr, now); WellKeyed(r) && Flagged(s, r)
  {
    SameTablesReflexive(s.adjRibIn);
    var s1 := ReconcileOpen(s, addr, families, gr, now);
    ReconcileFlagged(s, addr, families, gr, now);
    var peer := s1.peers[addr].(state := OpenConfirm, remoteRouterId := Some(routerId), families := families, peerGr := gr);
    PeerFlagged(s1, addr, peer);
    FlaggedTransitive(s, s1, SetPeer(s1, addr, peer));
  }

  lemma TeardownFlagged(s: Speaker, addr: Address, why: Reason, now: nat)
    requires WellKeyed(s) && addr in s.peers
    ensures var r := Teardown(s, addr, why, now); WellKeyed(r) && r.dirty
  {
    TableReplaced(s, addr, map[]);
  }

  lemma HandleFlagged(s: Speaker, addr: Address, u: Update, now: nat)
    requires WellKeyed(s) && addr in s.peers
    ensures var r := HandleUpdate(s, addr, u, now); WellKeyed(r) && Flagged(s, r)
  {
    var (s1, note) := ImportUpdate(s, addr, u, now);
    ImportFlagged(s, addr, u, now);
    if note.Some? {
      TeardownFlagged(s1, addr, Protocol, now);
    } else if IsEndOfRib(u) {
      CompleteFlagged(s1, addr, IPV4_UNICAST);
      FlaggedTransitive(s, s1, CompleteFamily(s1, addr, IPV4_UNICAST));
    }
  }

  lemma NothingRemoved(t: Table, xs: set<Prefix>)
    requires t.Keys * xs == {}
    ensures t - xs == t
  {
    forall p | p in t ensures p !in xs {
      assert p in xs ==> p in t.Keys * xs;
    }
  }

  lemma EndRefreshFlagged(s: Speaker, addr: Address)
    requires WellKeyed(s) && addr in s.peers
    ensures var r := EndRefresh(s, addr); WellKeyed(r) && Flagged(s, r)
  {
    SameTablesReflexive(s.adjRibIn);
    var t, stale := TableOf(s.adjRibIn, addr), s.peers[addr].refreshStale;
    TableReplaced(s, addr, t - stale);
    if t.Keys * stale == {} {
      NothingRemoved(t, stale);
      SameTableSet(s, addr, t - stale);
    }
  }

  lemma RoleFlagged(s: Speaker, addr: Address, on: bool)
    requires WellKeyed(s)
    ensures var r := SetClient(s, addr, on); WellKeyed(r) && Flagged(s, r)
  {
    SameTablesReflexive(s.adjRibIn);
    TableReplaced(s, addr, Reroled(TableOf(s.adjRibIn, addr), on));
  }

  lemma {:induction false} ExpireFlagged(s: Speaker, addrs: seq<Address>, now: nat)
    requires WellKeyed(s) && forall i :: 0 <= i < |addrs| ==> addrs[i] in s.peers
    ensures var r := ExpireIn(s, addrs, now); WellKeyed(r) && Flagged(s, r)
    decreases |addrs|
  {
    SameTablesReflexive(s.adjRibIn);
    if addrs != [] {
      var s1 := ExpireIn(s, addrs[..|addrs| - 1], now);
      ExpireFlagged(s, addrs[..|addrs| - 1], now);
      var addr := addrs[|addrs| - 1];
      FlushFlagged(s1, addr);
      FlaggedTransitive(s, s1, Flush(s1, addr));
    }
  }

  lemma ConfigFlagged(s: Speaker, prefix: Prefix, nextHop: Address, id: Address)
    requires WellKeyed(s)
    ensures WellKeyed(Originate(s, prefix, nextHop)) && Flagged(s, Originate(s, prefix, nextHop))
    ensures WellKeyed(WithdrawOriginated(s, prefix)) && Flagged(s, WithdrawOriginated(s, prefix))
    ensures WellKeyed(SetClusterId(s, id)) && Flagged(s, SetClusterId(s, id))
  {
    SameTablesReflexive(s.adjRibIn);
  }

  lemma UpFlagged(s: Speaker, addr: Address)
    requires WellKeyed(s) && addr in s.peers
    ensures WellKeyed(SessionUp(s, addr)) && Flagged(s, SessionUp(s, addr))
  {
    SameTablesReflexive(s.adjRibIn);
    PeerFlagged(s, addr, s.peers[addr].(state := Established));
  }

  lemma SessionFlagged(s: Speaker, op: Op)
    requires WellKeyed(s) && (op.Open? || op.Down?)
    ensures WellKeyed(Apply(s, op)) && Flagged(s, Apply(s, op))
  {
    SameTablesReflexive(s.adjRibIn);
    match op
    case Open(addr, routerId, families, gr, now) =>
      if addr in s.peers { OpenFlagged(s, addr, routerId, families, gr, now); }
    case Down(addr, why, now) => if addr in s.peers { TeardownFlagged(s, addr, why, now); }
  }

  lemma ProgressFlagged(s: Speaker, op: Op)
    requires WellKeyed(s) && (op.SendOpen? || op.Up? || op.Adoption? || op.Set?)
    ensures WellKeyed(Apply(s, op)) && Flagged(s, Apply(s, op))
  {
    SameTablesReflexive(s.adjRibIn);
    match op
    case SendOpen(addr) => if addr in s.peers { PeerFlagged(s, addr, s.peers[addr].(state := OpenSent)); }
    case Up(addr) => if addr in s.peers { UpFlagged(s, addr); }
    case Adoption(addr) => if addr in s.peers { PeerFlagged(s, addr, Adopt(s, addr).peers[addr]); }
    case Set(addr, x) => if addr in s.peers { PeerFlagged(s, addr, Adjust(s, addr, x).peers[addr]); }
  }

  /** Every operation other than `poll` flags what it changes. */
  lemma OpFlagged(s: Speaker, op: Op)
    requires WellKeyed(s) && !op.Poll?
    ensures WellKeyed(Apply(s, op)) && Flagged(s, Apply(s, op))
  {
    SameTablesReflexive(s.adjRibIn);
    match op
    case Receive(addr, u, now) => if addr in s.peers { HandleFlagged(s, addr, u, now); }
    case Eorr(addr) => if addr in s.peers { EndRefreshFlagged(s, addr); }
    case EndOfRib(addr, family) => if addr in s.peers { CompleteFlagged(s, addr, family); }
    case SetRole(addr, isClient) => RoleFlagged(s, addr, isClient);
    case Borr(addr) =>
      if addr in s.peers {
        PeerFlagged(s, addr, s.peers[addr].(refreshInbound := true, refreshStale := TableOf(s.adjRibIn, addr).Keys));
      }
    case Network(prefix, nextHop) => ConfigFlagged(s, prefix, nextHop, 0);
    case NoNetwork(prefix) => ConfigFlagged(s, prefix, 0, 0);
    case ClusterId(id) => ConfigFlagged(s, Prefix(0, 0), 0, id);
    case Helper(_) =>
    case Open(_, _, _, _, _) => SessionFlagged(s, op);
    case Down(_, _, _) => SessionFlagged(s, op);
    case _ => ProgressFlagged(s, op);
  }

  // ------------------------------------------------------------------ retention

  /** No peer's IPv4 routes are retained at any point of the run. */
  ghost predicate NeverRetains(s: Speaker, ops: seq<Op>) {
    forall k :: 0 <= k <= |ops| ==> NoRetention(Run(s, ops[..k]))
  }

  lemma SameRibReflexive(t: Table)
    ensures SameRib(t, t)
  {}
}
