/**
 One run of a speaker with two external neighbours, from its construction on. The
 preferred neighbour restarts gracefully and announces its route again, unchanged:
 from then on the Loc-RIB holds the other neighbour's route, and no poll corrects it.
 When that neighbour is lost a second time, its path outlives its session.
 */
module RetentionRuns {
  import opened BgpTypes
  import opened Propagation
  import opened Speaker
  import opened SpeakerRuns
  import opened PeerSessions
  import opened GracefulRestart
  import opened Coherence
  import opened Reannouncement
  import Decision

  lemma {:induction false} RunAppend(s: Speaker, ops: seq<Op>, more: seq<Op>)
    ensures Run(s, ops + more) == Run(Run(s, ops), more)
    decreases |more|
  {
    if more == [] {
      assert ops + more == ops;
    } else {
      var n := |more| - 1;
      assert (ops + more)[..|ops + more| - 1] == ops + more[..n];
      RunAppend(s, ops, more[..n]);
    }
  }

  lemma RunOne(s: Speaker, op: Op)
    ensures Run(s, [op]) == Apply(s, op)
  {
    assert [op][..0] == [];
  }

  lemma RunTwo(s: Speaker, op1: Op, op2: Op)
    ensures Run(s, [op1, op2]) == Apply(Apply(s, op1), op2)
  {
    assert [op1, op2][..1] == [op1];
    RunOne(s, op1);
  }

  lemma RunThree(s: Speaker, op1: Op, op2: Op, op3: Op)
    ensures Run(s, [op1, op2, op3]) == Apply(Apply(Apply(s, op1), op2), op3)
  {
    assert [op1, op2, op3][..2] == [op1, op2];
    RunTwo(s, op1, op2);
  }

  // --------------------------------------------------------------- two peers

  lemma AscendingPair(x: Address, y: Address)
    requires x < y
    ensures Ascending({x, y}) == [x, y]
  {
    assert Minimum({x, y}) == x;
    assert {x, y} - {x} == {y} && Minimum({y}) == y && {y} - {y} == {};
    assert Ascending({y}) == [y];
  }

  /** Two peers, one prefix: the candidates are both paths, or the fresh one alone. */
  lemma PairCandidates(s: Speaker, a: Address, b: Address, p: Prefix, pa: BgpPath, pb: BgpPath)
    requires a < b && s.adjRibIn == map[a := map[p := pa], b := map[p := pb]] && s.originated == map[]
    requires !Stale(s, pb)
    ensures Candidates(s, p) == if Stale(s, pa) then [pb] else [pa, pb]
  {
    AscendingPair(a, b);
    assert s.adjRibIn.Keys == {a, b};
    var addrs := [a, b];
    assert addrs[1..] == [b] && addrs[1..][1..] == [];
    assert Gather(s.adjRibIn, [b], p) == [pb];
    var learned := Gather(s.adjRibIn, addrs, p);
    assert learned == [pa, pb];
    assert learned[1..] == [pb] && learned[1..][1..] == [];
    assert Fresh(s, [pb]) == [pb];
  }

  lemma SelectFromPair(x: BgpPath, y: BgpPath)
    ensures Decision.SelectBest([x]) == Some(x)
    ensures Decision.SelectBest([x, y]) == Some(Decision.Better(x, y))
  {
    assert [x, y][..1] == [x];
  }

  lemma PairDecision(s: Speaker, a: Address, b: Address, p: Prefix, pa: BgpPath, pb: BgpPath)
    requires a < b && s.adjRibIn == map[a := map[p := pa], b := map[p := pb]] && s.originated == map[]
    requires !Stale(s, pb)
    ensures Decide(s) == map[p := if Stale(s, pa) then pb else Decision.Better(pa, pb)]
  {
    PairCandidates(s, a, b, p, pa, pb);
    SelectFromPair(pa, pb);
    SelectFromPair(pb, pb);
    assert p in s.adjRibIn[a];
    assert AllPrefixes(s) == {p};
  }

  lemma {:induction false} NothingExpires(s: Speaker, addrs: seq<Address>, now: nat)
    requires forall i :: 0 <= i < |addrs| ==> addrs[i] in s.peers
    requires forall x :: x in s.peers ==> !Expired(s.peers[x], now)
    ensures ExpireIn(s, addrs, now) == s
    decreases |addrs|
  {
    if addrs != [] {
      NothingExpires(s, addrs[..|addrs| - 1], now);
    }
  }

  lemma PollDecides(s: Speaker, now: nat)
    requires s.dirty && forall x :: x in s.peers ==> !Expired(s.peers[x], now)
    ensures PollTail(s, now) == RunDecision(s)
  {
    AscendingMembers(s.peers.Keys);
    NothingExpires(s, Ascending(s.peers.Keys), now);
  }

  // ------------------------------------------------------------ the neighbours

  const A: Address := 0x0A00_0001
  const B: Address := 0x0A00_0002
  const SELF: Address := 0x0A00_00FE
  const PREFIX: Prefix := Prefix(0x0A1E_0000, 24)
  const US: Identity := Identity(65001, SELF, None)

  function PermitAll(): Policy {
    (p: Prefix) => Permitted(None, None)
  }

  function Neighbour(addr: Address, asn: U32): PeerConfig {
    PeerConfig(addr, asn, SELF, false, false, true, 1000, PermitAll(), PermitAll())
  }

  function Helping(restarting: bool): GrCapability {
    GrCapability(120, restarting, [GrFamily(IPV4_UNICAST, true)])
  }

  function IdlePeer(config: PeerConfig): Peer {
    Peer(config, Idle, None, {}, None, false, {}, {}, None, None)
  }

  /** A session in use; the two times say since when, and until when, the routes from before are kept. */
  function UpPeer(config: PeerConfig, gr: Option<GrCapability>, stale: set<Family>, deadline: Option<nat>, cutoff: Option<nat>): Peer {
    Peer(config, Established, Some(config.addr), {IPV4_UNICAST}, gr, false, {}, stale, deadline, cutoff)
  }

  function Two(pa: Peer, pb: Peer, rib: map<Address, Table>, loc: Table, dirty: bool): Speaker {
    Speaker(US, true, map[A := pa, B := pb], rib, map[], loc, dirty)
  }

  lemma PeerSet(pa: Peer, pb: Peer, rib: map<Address, Table>, loc: Table, dirty: bool, q: Peer)
    ensures SetPeer(Two(pa, pb, rib, loc, dirty), A, q) == Two(q, pb, rib, loc, dirty)
    ensures SetPeer(Two(pa, pb, rib, loc, dirty), B, q) == Two(pa, q, rib, loc, dirty)
  {}

  function Route(addr: Address, asn: U32): PathAttributes {
    PathAttributes(Igp, AsPath([Segment(AsSequence, [asn])]), addr, None, None, false, [], None, None, None, [], true)
  }

  function Announcement(addr: Address, asn: U32): Update {
    Update([], Some(Route(addr, asn)), [PREFIX])
  }

  function Learnt(addr: Address, asn: U32, now: nat): BgpPath {
    BgpPath(PREFIX, Ebgp, addr, asn, addr, Igp, AsPath([Segment(AsSequence, [asn])]), addr, None,
            DEFAULT_LOCAL_PREF, false, None, [], false, now)
  }

  function OnlyPath(addr: Address, asn: U32, now: nat): Table {
    map[PREFIX := Learnt(addr, asn, now)]
  }

  // ------------------------------------------------------------------- steps

  lemma SetTwice(s: Speaker, addr: Address, p: Peer, q: Peer)
    ensures SetPeer(SetPeer(s, addr, p), addr, q) == SetPeer(s, addr, q)
  {}

  lemma OpensPlainly(s: Speaker, addr: Address, gr: Option<GrCapability>)
    requires addr in s.peers && s.peers[addr].state.OpenSent? && !s.peers[addr].Restarting()
    ensures OpenAccepted(s, addr, addr, {IPV4_UNICAST}, gr, 0) ==
            SetPeer(s, addr, s.peers[addr].(state := OpenConfirm, remoteRouterId := Some(addr), families := {IPV4_UNICAST}, peerGr := gr))
  {}

  /** OPEN sent, OPEN received, KEEPALIVE received, with nothing retained. */
  lemma Establishes(s: Speaker, addr: Address, gr: Option<GrCapability>)
    requires addr in s.peers && s.peers[addr].state.Idle? && !s.peers[addr].Restarting()
    ensures var q := s.peers[addr].(state := Established, remoteRouterId := Some(addr), families := {IPV4_UNICAST}, peerGr := gr);
            Run(s, [SendOpen(addr), Open(addr, addr, {IPV4_UNICAST}, gr, 0), Up(addr)]) == SetPeer(s, addr, q).(dirty := true)
  {
    var q1 := s.peers[addr].(state := OpenSent);
    var s1 := SetPeer(s, addr, q1);
    var q2 := q1.(state := OpenConfirm, remoteRouterId := Some(addr), families := {IPV4_UNICAST}, peerGr := gr);
    var s2 := SetPeer(s, addr, q2);
    RunThree(s, SendOpen(addr), Open(addr, addr, {IPV4_UNICAST}, gr, 0), Up(addr));
    assert OpenSentOn(s, addr) == s1;
    OpensPlainly(s1, addr, gr);
    SetTwice(s, addr, q1, q2);
    SetTwice(s, addr, q2, q2.(state := Established));
    assert SessionUp(s2, addr) == SetPeer(s2, addr, q2.(state := Established)).(dirty := true);
  }

  lemma RouteUsable(addr: Address, asn: U32)
    requires addr == A || addr == B
    requires asn == 65002 || asn == 65003
    ensures CheckAttributes(US, Neighbour(addr, asn), Route(addr, asn)).Usable?
    ensures forall now :: ImportPrefix(US, Neighbour(addr, asn), Some(addr), Route(addr, asn), PREFIX, now) == Install(Learnt(addr, asn, now))
  {
    var path := Route(addr, asn).asPath;
    assert path.segments[0].asns == [asn];
    assert !path.IsEmpty() && path.LeadingAs() == Some(asn);
    assert !path.Contains(US.localAs);
  }

  lemma Receives(s: Speaker, addr: Address, asn: U32, now: nat)
    requires addr == A || addr == B
    requires asn == 65002 || asn == 65003
    requires s.me == US && IsUp(s, addr) && s.peers[addr].config == Neighbour(addr, asn)
    requires s.peers[addr].remoteRouterId == Some(addr) && TableOf(s.adjRibIn, addr).Keys <= {PREFIX}
    ensures Apply(s, Receive(addr, Announcement(addr, asn), now)) == InstallPath(s, addr, Learnt(addr, asn, now))
  {
    RouteUsable(addr, asn);
    var t := TableOf(s.adjRibIn, addr)[PREFIX := Learnt(addr, asn, now)];
    assert t.Keys == {PREFIX} && |t| == |t.Keys|;
    AnnouncedAlone(s, addr, Route(addr, asn), Learnt(addr, asn, now), now);
  }

  const CONFIG_A: PeerConfig := Neighbour(A, 65002)
  const CONFIG_B: PeerConfig := Neighbour(B, 65003)

  function Tables(atA: nat, atB: nat): map<Address, Table> {
    map[A := OnlyPath(A, 65002, atA), B := OnlyPath(B, 65003, atB)]
  }

  /** The start: two neighbours configured, nothing else. */
  function Start(): Speaker {
    Two(IdlePeer(CONFIG_A), IdlePeer(CONFIG_B), map[], map[], true)
  }

  function OpsUp(addr: Address, gr: Option<GrCapability>, now: nat): seq<Op> {
    [SendOpen(addr), Open(addr, addr, {IPV4_UNICAST}, gr, now), Up(addr)]
  }

  function Ops1(): seq<Op> {
    OpsUp(A, Some(Helping(false)), 0) + OpsUp(B, None, 0)
  }

  function UpA(): Peer { UpPeer(CONFIG_A, Some(Helping(false)), {}, None, None) }
  function UpB(): Peer { UpPeer(CONFIG_B, None, {}, None, None) }

  lemma BothUp()
    ensures Run(Start(), Ops1()) == Two(UpA(), UpB(), map[], map[], true)
  {
    var s := Start();
    RunAppend(s, OpsUp(A, Some(Helping(false)), 0), OpsUp(B, None, 0));
    Establishes(s, A, Some(Helping(false)));
    PeerSet(IdlePeer(CONFIG_A), IdlePeer(CONFIG_B), map[], map[], true, UpA());
    var s1 := Two(UpA(), IdlePeer(CONFIG_B), map[], map[], true);
    Establishes(s1, B, None);
    PeerSet(UpA(), IdlePeer(CONFIG_B), map[], map[], true, UpB());
  }

  lemma InstallsFirst(pa: Peer, pb: Peer, now: nat)
    requires pa.refreshStale == {} && pb.refreshStale == {}
    ensures InstallPath(Two(pa, pb, map[], map[], true), A, Learnt(A, 65002, now)) ==
            Two(pa, pb, map[A := OnlyPath(A, 65002, now)], map[], true)
    ensures InstallPath(Two(pa, pb, map[A := OnlyPath(A, 65002, now)], map[], true), B, Learnt(B, 65003, now)) ==
            Two(pa, pb, Tables(now, now), map[], true)
  {
    NotEmpty(A, 65002, now);
    NotEmpty(B, 65003, now);
    assert pa.refreshStale - {PREFIX} == pa.refreshStale && pb.refreshStale - {PREFIX} == pb.refreshStale;
    assert TableOf(map[], A)[PREFIX := Learnt(A, 65002, now)] == OnlyPath(A, 65002, now);
    assert WithTable(map[], A, OnlyPath(A, 65002, now)) == map[A := OnlyPath(A, 65002, now)];
    PeerSet(pa, pb, map[], map[], true, pa);
    PeerSet(pa, pb, map[A := OnlyPath(A, 65002, now)], map[], true, pa);
    PeerSet(pa, pb, Tables(now, now), map[], true, pb);
  }

  lemma NotEmpty(addr: Address, asn: U32, now: nat)
    ensures PREFIX in OnlyPath(addr, asn, now) && OnlyPath(addr, asn, now) != map[]
    ensures forall t: Table :: t.Keys <= {PREFIX} ==> t[PREFIX := Learnt(addr, asn, now)] == OnlyPath(addr, asn, now)
  {}

  lemma BothAnnounce()
    ensures Run(Two(UpA(), UpB(), map[], map[], true),
                [Receive(A, Announcement(A, 65002), 10), Receive(B, Announcement(B, 65003), 10)]) ==
            Two(UpA(), UpB(), Tables(10, 10), map[], true)
  {
    var s := Two(UpA(), UpB(), map[], map[], true);
    RunTwo(s, Receive(A, Announcement(A, 65002), 10), Receive(B, Announcement(B, 65003), 10));
    InstallsFirst(UpA(), UpB(), 10);
    Receives(s, A, 65002, 10);
    Receives(Two(UpA(), UpB(), map[A := OnlyPath(A, 65002, 10)], map[], true), B, 65003, 10);
  }

  /** Of the two routes, the one from A is preferred for its router ID. */
  lemma Preferred(atA: nat, atB: nat)
    ensures Decision.ComparePaths(Learnt(A, 65002, atA), Learnt(B, 65003, atB)).Less?
  {
    Decision.OneAsPath(65002);
    Decision.OneAsPath(65003);
  }

  lemma Decided(pa: Peer, pb: Peer, atA: nat, atB: nat, loc: Table, dirty: bool)
    requires IPV4_UNICAST !in pb.grStale
    ensures var s := Two(pa, pb, Tables(atA, atB), loc, dirty);
            Decide(s) == if Stale(s, Learnt(A, 65002, atA)) then OnlyPath(B, 65003, atB) else OnlyPath(A, 65002, atA)
  {
    var s := Two(pa, pb, Tables(atA, atB), loc, dirty);
    PairDecision(s, A, B, PREFIX, Learnt(A, 65002, atA), Learnt(B, 65003, atB));
    Preferred(atA, atB);
    Decision.ComparisonIsATournament(Learnt(A, 65002, atA), Learnt(B, 65003, atB));
  }

  /** A poll before any deadline, with something to decide. */
  lemma PollsPair(pa: Peer, pb: Peer, atA: nat, atB: nat, loc: Table, now: nat)
    requires IPV4_UNICAST !in pb.grStale && !Expired(pa, now) && !Expired(pb, now)
    ensures var s := Two(pa, pb, Tables(atA, atB), loc, true);
            Apply(s, Poll(now)) ==
            Two(pa, pb, Tables(atA, atB), if Stale(s, Learnt(A, 65002, atA)) then OnlyPath(B, 65003, atB) else OnlyPath(A, 65002, atA), false)
  {
    var s := Two(pa, pb, Tables(atA, atB), loc, true);
    PollDecides(s, now);
    Decided(pa, pb, atA, atB, loc, true);
  }

  // The transport to A fails at 20, and A's routes are kept until 120020.

  function LostA(cutoff: Option<nat>): Peer {
    Peer(CONFIG_A, Idle, None, {}, None, false, {}, {IPV4_UNICAST}, Some(120020), cutoff)
  }

  lemma LosesA()
    ensures Apply(Two(UpA(), UpB(), Tables(10, 10), OnlyPath(A, 65002, 10), false), Down(A, Transport, 20)) ==
            Two(LostA(None), UpB(), Tables(10, 10), OnlyPath(A, 65002, 10), true)
  {
    assert Helping(false).families[0] in Helping(false).families;
    assert Preserved(UpA(), true, Transport) == {IPV4_UNICAST};
    PeerSet(UpA(), UpB(), Tables(10, 10), OnlyPath(A, 65002, 10), false, LostA(None));
  }

  // A is back and still vouches for IPv4: what it sends from now on is fresh.

  function BackA(cutoff: nat): Peer {
    UpPeer(CONFIG_A, Some(Helping(true)), {IPV4_UNICAST}, Some(120020), Some(cutoff))
  }

  lemma BackAOpens(rib: map<Address, Table>, loc: Table, cutoff: Option<nat>, now: nat)
    ensures Apply(Two(LostA(cutoff).(state := OpenSent), UpB(), rib, loc, false),
                  Open(A, A, {IPV4_UNICAST}, Some(Helping(true)), now)) ==
            Two(BackA(now).(state := OpenConfirm), UpB(), rib, loc, false)
  {
    var sent := LostA(cutoff).(state := OpenSent);
    assert Helping(true).families[0] in Helping(true).families;
    assert {IPV4_UNICAST} * Vouched(Helping(true), {IPV4_UNICAST}) == {IPV4_UNICAST};
    assert IPV4_UNICAST !in {IPV4_UNICAST} - {IPV4_UNICAST};
    PeerSet(sent, UpB(), rib, loc, false, sent.(grCutoff := Some(now)));
    PeerSet(sent.(grCutoff := Some(now)), UpB(), rib, loc, false, BackA(now).(state := OpenConfirm));
  }

  lemma SendsOpen(rib: map<Address, Table>, loc: Table, cutoff: Option<nat>)
    ensures Apply(Two(LostA(cutoff), UpB(), rib, loc, false), SendOpen(A)) ==
            Two(LostA(cutoff).(state := OpenSent), UpB(), rib, loc, false)
  {
    PeerSet(LostA(cutoff), UpB(), rib, loc, false, LostA(cutoff).(state := OpenSent));
  }

  lemma GoesUp(rib: map<Address, Table>, loc: Table, now: nat)
    ensures Apply(Two(BackA(now).(state := OpenConfirm), UpB(), rib, loc, false), Up(A)) ==
            Two(BackA(now), UpB(), rib, loc, true)
  {
    PeerSet(BackA(now).(state := OpenConfirm), UpB(), rib, loc, false, BackA(now));
  }

  lemma BackAIsUp(rib: map<Address, Table>, loc: Table)
    ensures Run(Two(LostA(None), UpB(), rib, loc, false), OpsUp(A, Some(Helping(true)), 30)) == Two(BackA(30), UpB(), rib, loc, true)
  {
    RunThree(Two(LostA(None), UpB(), rib, loc, false), SendOpen(A), Open(A, A, {IPV4_UNICAST}, Some(Helping(true)), 30), Up(A));
    SendsOpen(rib, loc, None);
    BackAOpens(rib, loc, None, 30);
    GoesUp(rib, loc, 30);
  }

  lemma InstallsAgain(loc: Table)
    ensures InstallPath(Two(BackA(30), UpB(), Tables(10, 10), loc, false), A, Learnt(A, 65002, 40)) ==
            Two(BackA(30), UpB(), Tables(40, 10), loc, false)
  {
    var s := Two(BackA(30), UpB(), Tables(10, 10), loc, false);
    NotEmpty(A, 65002, 40);
    assert BackA(30).refreshStale - {PREFIX} == BackA(30).refreshStale;
    assert TableOf(s.adjRibIn, A)[PREFIX := Learnt(A, 65002, 40)] == OnlyPath(A, 65002, 40);
    assert s.adjRibIn[A := OnlyPath(A, 65002, 40)] == Tables(40, 10);
    PeerSet(BackA(30), UpB(), Tables(40, 10), loc, false, BackA(30));
  }

  lemma AnnouncedAgain(loc: Table)
    ensures Apply(Two(BackA(30), UpB(), Tables(10, 10), loc, false), Receive(A, Announcement(A, 65002), 40)) ==
            Two(BackA(30), UpB(), Tables(40, 10), loc, false)
  {
    Receives(Two(BackA(30), UpB(), Tables(10, 10), loc, false), A, 65002, 40);
    InstallsAgain(loc);
  }

  // --------------------------------------------------------------- the run

  function OpsInUse(): seq<Op> {
    Ops1() + [Receive(A, Announcement(A, 65002), 10), Receive(B, Announcement(B, 65003), 10)] + [Poll(10)]
  }

  lemma InUse()
    ensures Run(Start(), OpsInUse()) == Two(UpA(), UpB(), Tables(10, 10), OnlyPath(A, 65002, 10), false)
  {
    var announced := [Receive(A, Announcement(A, 65002), 10), Receive(B, Announcement(B, 65003), 10)];
    BothUp();
    BothAnnounce();
    RunAppend(Start(), Ops1(), announced);
    RunAppend(Start(), Ops1() + announced, [Poll(10)]);
    RunOne(Two(UpA(), UpB(), Tables(10, 10), map[], true), Poll(10));
    PollsPair(UpA(), UpB(), 10, 10, map[], 10);
  }

  /** A's transport fails: its path is kept, but B's is used. */
  function OpsLost(): seq<Op> {
    OpsInUse() + [Down(A, Transport, 20), Poll(20)]
  }

  lemma Lost()
    ensures Run(Start(), OpsLost()) == Two(LostA(None), UpB(), Tables(10, 10), OnlyPath(B, 65003, 10), false)
  {
    InUse();
    var s := Two(UpA(), UpB(), Tables(10, 10), OnlyPath(A, 65002, 10), false);
    RunAppend(Start(), OpsInUse(), [Down(A, Transport, 20), Poll(20)]);
    RunTwo(s, Down(A, Transport, 20), Poll(20));
    LosesA();
    PollsPair(LostA(None), UpB(), 10, 10, OnlyPath(A, 65002, 10), 20);
  }

  /** A comes back within its restart time. */
  function OpsBack(): seq<Op> {
    OpsLost() + OpsUp(A, Some(Helping(true)), 30) + [Poll(30)]
  }

  lemma Back()
    ensures Run(Start(), OpsBack()) == Two(BackA(30), UpB(), Tables(10, 10), OnlyPath(B, 65003, 10), false)
  {
    Lost();
    RunAppend(Start(), OpsLost(), OpsUp(A, Some(Helping(true)), 30));
    RunAppend(Start(), OpsLost() + OpsUp(A, Some(Helping(true)), 30), [Poll(30)]);
    BackAIsUp(Tables(10, 10), OnlyPath(B, 65003, 10));
    RunOne(Two(BackA(30), UpB(), Tables(10, 10), OnlyPath(B, 65003, 10), true), Poll(30));
    PollsPair(BackA(30), UpB(), 10, 10, OnlyPath(B, 65003, 10), 30);
  }

  /** A announces the same route again. */
  function OpsAgain(): seq<Op> {
    OpsBack() + [Receive(A, Announcement(A, 65002), 40)]
  }

  function Again(): Speaker {
    Two(BackA(30), UpB(), Tables(40, 10), OnlyPath(B, 65003, 10), false)
  }

  lemma RunAgain()
    ensures Run(Start(), OpsAgain()) == Again()
  {
    Back();
    RunAppend(Start(), OpsBack(), [Receive(A, Announcement(A, 65002), 40)]);
    RunOne(Run(Start(), OpsBack()), Receive(A, Announcement(A, 65002), 40));
    AnnouncedAgain(OnlyPath(B, 65003, 10));
  }

  lemma TablesKeyed(atA: nat, atB: nat)
    ensures KeyedTable(A, OnlyPath(A, 65002, atA)) && KeyedTable(B, OnlyPath(B, 65003, atB))
    ensures OnlyPath(A, 65002, atA) != map[] && OnlyPath(B, 65003, atB) != map[]
  {
    NotEmpty(A, 65002, atA);
    NotEmpty(B, 65003, atB);
  }

  lemma DifferentRoutes(atA: nat, atB: nat)
    ensures !SameRib(OnlyPath(B, 65003, atB), OnlyPath(A, 65002, atA))
    ensures !SameRib(OnlyPath(A, 65002, atA), OnlyPath(B, 65003, atB))
  {
    assert PREFIX in OnlyPath(B, 65003, atB);
    assert Learnt(B, 65003, atB).peerAddr != Learnt(A, 65002, atA).peerAddr;
  }

  lemma AgainDecides()
    ensures Decide(Again()) == OnlyPath(A, 65002, 40) && !Coherent(Again())
  {
    Decided(BackA(30), UpB(), 40, 10, OnlyPath(B, 65003, 10), false);
    DifferentRoutes(40, 10);
  }

  lemma AgainNoStale()
    ensures NoStale(Again())
  {
    forall a, p | a in Again().adjRibIn && p in Again().adjRibIn[a] ensures !Stale(Again(), Again().adjRibIn[a][p]) {
      assert a == A || a == B;
    }
  }

  lemma AgainKeyed()
    ensures WellKeyed(Again())
  {
    TablesKeyed(40, 10);
    assert BackA(30).config.addr == A && UpB().config.addr == B;
  }

  lemma AgainStuck()
    ensures Stuck(Again())
  {
    AgainDecides();
    AgainNoStale();
    AgainKeyed();
  }

  lemma Starts()
    ensures Initial(Start())
  {}

  /**
   The exception to Loc-RIB coherence, in a run from the start: A's route is the one the
   decision process would choose, and however often and however late the speaker is
   polled, the Loc-RIB keeps B's.
   */
  lemma WorseRouteStaysForGood(times: seq<nat>)
    ensures Initial(Start())
    ensures var r := Run(Start(), OpsAgain() + Polls(times));
            && !r.dirty && !Coherent(r)
            && r.locRib == OnlyPath(B, 65003, 10)
            && r.adjRibIn == Tables(40, 10) && NoStale(r)
    ensures Decision.ComparePaths(Learnt(A, 65002, 40), Learnt(B, 65003, 10)).Less?
  {
    Starts();
    RunAgain();
    RunAppend(Start(), OpsAgain(), Polls(times));
    AgainStuck();
    NoPollRepairs(Again(), times);
    Preferred(40, 10);
  }

  // -------------------------------------------------------- the second loss

  lemma LosesAAgain()
    ensures Apply(Again(), Down(A, Transport, 50)) ==
            Two(LostA(Some(30)), UpB(), Tables(40, 10), OnlyPath(B, 65003, 10), true)
  {
    assert Preserved(BackA(30), true, Transport) == {IPV4_UNICAST};
    PeerSet(BackA(30), UpB(), Tables(40, 10), OnlyPath(B, 65003, 10), false, LostA(Some(30)));
  }

  lemma FlushesA(loc: Table)
    ensures var s := Two(LostA(Some(30)), UpB(), Tables(40, 10), loc, true);
            Flush(s, A) == Two(IdlePeer(CONFIG_A), UpB(), Tables(40, 10), loc, true)
  {
    var s := Two(LostA(Some(30)), UpB(), Tables(40, 10), loc, true);
    assert Survivors(OnlyPath(A, 65002, 40), Some(30)) == OnlyPath(A, 65002, 40);
    PeerSet(LostA(Some(30)), UpB(), Tables(40, 10), loc, true, IdlePeer(CONFIG_A));
  }

  lemma ExpiresA(loc: Table)
    ensures var s := Two(LostA(Some(30)), UpB(), Tables(40, 10), loc, true);
            ExpireAll(s, 200000) == Two(IdlePeer(CONFIG_A), UpB(), Tables(40, 10), loc, true)
  {
    var s := Two(LostA(Some(30)), UpB(), Tables(40, 10), loc, true);
    AscendingPair(A, B);
    assert s.peers.Keys == {A, B} && [A, B][..1] == [A] && [A][..0] == [];
    AscendingMembers(s.peers.Keys);
    FlushesA(loc);
    assert ExpireIn(s, [], 200000) == s;
    assert ExpireIn(s, [A], 200000) == Flush(s, A);
  }

  lemma OutlivedPair()
    ensures Apply(Apply(Again(), Down(A, Transport, 50)), Poll(200000)) ==
            Two(IdlePeer(CONFIG_A), UpB(), Tables(40, 10), OnlyPath(A, 65002, 40), false)
  {
    LosesAAgain();
    ExpiresA(OnlyPath(B, 65003, 10));
    Decided(IdlePeer(CONFIG_A), UpB(), 40, 10, OnlyPath(B, 65003, 10), true);
  }

  lemma Outlived()
    ensures Run(Start(), OpsAgain() + [Down(A, Transport, 50), Poll(200000)]) ==
            Two(IdlePeer(CONFIG_A), UpB(), Tables(40, 10), OnlyPath(A, 65002, 40), false)
  {
    RunAgain();
    RunAppend(Start(), OpsAgain(), [Down(A, Transport, 50), Poll(200000)]);
    RunTwo(Again(), Down(A, Transport, 50), Poll(200000));
    OutlivedPair();
  }

  /**
   A is lost a second time and never comes back. After the deadline its session is down and
   nothing of it is retained, yet its path is stored, counts as fresh, and is the one in use.
   */
  lemma PathOutlivesItsSession()
    ensures Initial(Start())
    ensures var r := Run(Start(), OpsAgain() + [Down(A, Transport, 50), Poll(200000)]);
            && A in r.peers && r.peers[A].state.Idle? && r.peers[A].grStale == {} && r.peers[A].grDeadline.None?
            && TableOf(r.adjRibIn, A) == OnlyPath(A, 65002, 40)
            && r.locRib == OnlyPath(A, 65002, 40) && !r.dirty
  {
    Starts();
    Outlived();
  }

  // ---------------------------------------------------- the second replacement OPEN

  lemma LostTwice()
    ensures Apply(Apply(Again(), Down(A, Transport, 50)), Poll(50)) ==
            Two(LostA(Some(30)), UpB(), Tables(40, 10), OnlyPath(A, 65002, 40), false)
  {
    LosesAAgain();
    PollsPair(LostA(Some(30)), UpB(), 40, 10, OnlyPath(B, 65003, 10), 50);
  }

  lemma OpensAgain()
    ensures var s := Two(LostA(Some(30)), UpB(), Tables(40, 10), OnlyPath(A, 65002, 40), false);
            Run(s, [SendOpen(A), Open(A, A, {IPV4_UNICAST}, Some(Helping(true)), 60)]) ==
            Two(BackA(60).(state := OpenConfirm), UpB(), Tables(40, 10), OnlyPath(A, 65002, 40), false)
  {
    var s := Two(LostA(Some(30)), UpB(), Tables(40, 10), OnlyPath(A, 65002, 40), false);
    RunTwo(s, SendOpen(A), Open(A, A, {IPV4_UNICAST}, Some(Helping(true)), 60));
    SendsOpen(Tables(40, 10), OnlyPath(A, 65002, 40), Some(30));
    BackAOpens(Tables(40, 10), OnlyPath(A, 65002, 40), Some(30), 60);
  }

  function OpsReopened(): seq<Op> {
    OpsAgain() + [Down(A, Transport, 50), Poll(50)] + [SendOpen(A), Open(A, A, {IPV4_UNICAST}, Some(Helping(true)), 60)]
  }

  lemma Reopened()
    ensures Run(Start(), OpsReopened()) ==
            Two(BackA(60).(state := OpenConfirm), UpB(), Tables(40, 10), OnlyPath(A, 65002, 40), false)
  {
    RunAgain();
    RunAppend(Start(), OpsAgain(), [Down(A, Transport, 50), Poll(50)]);
    RunTwo(Again(), Down(A, Transport, 50), Poll(50));
    LostTwice();
    RunAppend(Start(), OpsAgain() + [Down(A, Transport, 50), Poll(50)], [SendOpen(A), Open(A, A, {IPV4_UNICAST}, Some(Helping(true)), 60)]);
    OpensAgain();
  }

  /**
   The other step that can hide a change: a second replacement OPEN makes A's path stale
   behind the decision's back. The Loc-RIB keeps it until the session is up or down again.
   */
  lemma OpenHidesChange()
    ensures Initial(Start())
    ensures var r := Run(Start(), OpsReopened());
            !r.dirty && !Coherent(r) && r.locRib == OnlyPath(A, 65002, 40) && Decide(r) == OnlyPath(B, 65003, 10)
  {
    Starts();
    Reopened();
    Decided(BackA(60).(state := OpenConfirm), UpB(), 40, 10, OnlyPath(A, 65002, 40), false);
    DifferentRoutes(40, 10);
  }
}
