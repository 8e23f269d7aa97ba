/**
 The EVPN tables of one speaker: Route Target import, retention for reflection, the
 decision process with its two outputs, and the isolation of tenants over every run.
 */
module EvpnRib {
  import opened BgpTypes
  import opened Propagation
  import opened Evpn
  import Speaker

  const MAX_EVPN_ROUTES: nat := 4096

  type Table = map<RouteKey, EvpnPath>

  /** `retained` gives the peers whose routes are held through a restart, with their cutoff. */
  datatype Rib = Rib(
    me: Identity,
    peers: map<Address, PeerConfig>,
    imported: set<RouteTarget>,
    retainAll: bool,
    retained: map<Address, Option<nat>>,
    adjRibIn: map<Address, Table>,
    originated: map<RouteKey, EvpnRoute>,
    locRib: Table,
    advertiseRib: Table,
    dirty: bool
  )

  /** A route reflector, or a speaker told to, keeps routes nobody here imports. */
  predicate RetainsAll(s: Rib) {
    s.retainAll || exists a :: a in s.peers && s.peers[a].isClient
  }

  // --------------------------------------------------------------------- tables

  function TableOf(rib: map<Address, Table>, addr: Address): Table {
    if addr in rib then rib[addr] else map[]
  }

  function SetTable(s: Rib, addr: Address, t: Table): Rib {
    s.(adjRibIn := if t == map[] then s.adjRibIn - {addr} else s.adjRibIn[addr := t])
  }

  function DropPath(s: Rib, addr: Address, key: RouteKey): Rib {
    var t := TableOf(s.adjRibIn, addr);
    if key in t then SetTable(s, addr, t - {key}).(dirty := true) else s
  }

  function StorePath(s: Rib, addr: Address, path: EvpnPath): Rib {
    var t := TableOf(s.adjRibIn, addr);
    var key := path.route.Key();
    SetTable(s, addr, t[key := path]).(dirty := s.dirty || key !in t || !t[key].SameRouteAs(path))
  }

  // --------------------------------------------------------------------- import

  /** One announcement for several NLRI that share everything else. */
  datatype Announcement = Announcement(nlri: seq<Nlri>, shared: EvpnAdvert) {
    function Advert(n: Nlri): EvpnAdvert {
      shared.(route := shared.route.(nlri := n))
    }
  }

  /** Whether the Adj-RIB-In keeps the route at all. */
  predicate Kept(s: Rib, v: EvpnAdvert) {
    v.route.Matches(s.imported) || RetainsAll(s)
  }

  function ImportOne(s: Rib, addr: Address, rid: Option<Address>, v: EvpnAdvert, now: nat): Rib
    requires addr in s.peers
  {
    if Kept(s, v) then StorePath(s, addr, PathFrom(s.me, s.peers[addr], rid, v, s.imported, now))
    else DropPath(s, addr, v.route.Key())
  }

  function ImportStep(s: Rib, addr: Address, rid: Option<Address>, v: EvpnAdvert, now: nat): (Rib, bool)
    requires addr in s.peers
  {
    var after := ImportOne(s, addr, rid, v, now);
    (after, Kept(s, v) && |TableOf(after.adjRibIn, addr)| > MAX_EVPN_ROUTES)
  }

  /** Keeps going until the peer exceeds the ceiling; the flag reports that. */
  function ImportAll(s: Rib, addr: Address, rid: Option<Address>, a: Announcement, n: nat, now: nat): (r: (Rib, bool))
    requires addr in s.peers && n <= |a.nlri|
    ensures r.0 == s.(adjRibIn := r.0.adjRibIn, dirty := r.0.dirty)
  {
    if n == 0 then (s, false)
    else
      var (before, over) := ImportAll(s, addr, rid, a, n - 1, now);
      if over then (before, true) else
        ImportStep(before, addr, rid, a.Advert(a.nlri[n - 1]), now)
  }

  datatype Outcome = Fine | ResetBy(note: Notification)

  /** A received announcement; loops are dropped quietly, an unusable next hop or AS_PATH resets the session. */
  function Import(s: Rib, addr: Address, rid: Option<Address>, a: Announcement, now: nat): (r: (Rib, Outcome))
    requires addr in s.peers
    ensures r.0 == s.(adjRibIn := r.0.adjRibIn, dirty := r.0.dirty)
  {
    match CheckAttributes(s.me, s.peers[addr], AttributesOf(a.shared))
    case Reset(note) => (s, ResetBy(note))
    case Looped => (s, Fine)
    case Usable =>
      var (r, over) := ImportAll(s, addr, rid, a, |a.nlri|, now);
      (r, if over then ResetBy(Notification(ERR_CEASE, SUB_MAX_PREFIXES)) else Fine)
  }

  function RemoveAll(s: Rib, addr: Address, keys: seq<RouteKey>): (r: Rib)
    ensures r == s.(adjRibIn := r.adjRibIn, dirty := r.dirty)
  {
    if keys == [] then s else DropPath(RemoveAll(s, addr, keys[..|keys| - 1]), addr, keys[|keys| - 1])
  }

  // ------------------------------------------------------------------- decision

  predicate Stale(s: Rib, p: EvpnPath) {
    p.peerAddr in s.retained && (s.retained[p.peerAddr].None? || p.receivedAt < s.retained[p.peerAddr].value)
  }

  function Gather(rib: map<Address, Table>, addrs: seq<Address>, k: RouteKey): seq<EvpnPath> {
    if addrs == [] then []
    else (if addrs[0] in rib && k in rib[addrs[0]] then [rib[addrs[0]][k]] else []) + Gather(rib, addrs[1..], k)
  }

  function Fresh(s: Rib, ps: seq<EvpnPath>): seq<EvpnPath> {
    if ps == [] then [] else (if Stale(s, ps[0]) then [] else [ps[0]]) + Fresh(s, ps[1..])
  }

  function Usable(ps: seq<EvpnPath>): seq<EvpnPath> {
    if ps == [] then [] else (if ps[0].local || ps[0].importable then [ps[0]] else []) + Usable(ps[1..])
  }

  function Candidates(s: Rib, k: RouteKey, now: nat): seq<EvpnPath> {
    var learned := Gather(s.adjRibIn, Speaker.Ascending(s.adjRibIn.Keys), k);
    var current := Fresh(s, learned);
    (if current == [] then learned else current)
    + (if k in s.originated then [LocalEvpnPath(s.originated[k], s.me.routerId, now)] else [])
  }

  function StoredKeys(s: Rib): set<RouteKey> {
    set a, k | a in s.adjRibIn && k in s.adjRibIn[a] :: k
  }

  function AllKeys(s: Rib): set<RouteKey> {
    StoredKeys(s) + s.originated.Keys
  }

  function BestFor(s: Rib, k: RouteKey, now: nat): Option<EvpnPath> {
    SelectBest(Candidates(s, k, now))
  }

  /** Chosen among the importable candidates, not by testing the overall winner. */
  function BestUsable(s: Rib, k: RouteKey, now: nat): Option<EvpnPath> {
    SelectBest(Usable(Candidates(s, k, now)))
  }

  function AdvertiseOn(s: Rib, done: set<RouteKey>, now: nat): Table {
    map k | k in done && BestFor(s, k, now).Some? :: BestFor(s, k, now).value
  }

  function LocOn(s: Rib, done: set<RouteKey>, now: nat): Table {
    map k | k in done && BestUsable(s, k, now).Some? :: BestUsable(s, k, now).value
  }

  /** Everything received competes for the advertisement RIB, only what is imported for the Loc-RIB. */
  function Decide(s: Rib, now: nat): Rib {
    s.(advertiseRib := AdvertiseOn(s, AllKeys(s), now), locRib := LocOn(s, AllKeys(s), now), dirty := false)
  }

  // -------------------------------------------------------------- configuration

  function AddTarget(s: Rib, rt: RouteTarget): Rib {
    if rt in s.imported then s else s.(imported := s.imported + {rt}, dirty := true)
  }

  function Matching(t: Table, imported: set<RouteTarget>): Table {
    map k | k in t && t[k].route.Matches(imported) :: t[k]
  }

  function AllMatching(rib: map<Address, Table>, imported: set<RouteTarget>): map<Address, Table> {
    map a | a in rib && Matching(rib[a], imported) != map[] :: Matching(rib[a], imported)
  }

  /** Every stored path that matches none of the remaining targets goes, whoever retained it. */
  function RemoveTarget(s: Rib, rt: RouteTarget): Rib {
    if rt !in s.imported then s
    else
      var rest := s.imported - {rt};
      s.(imported := rest, adjRibIn := AllMatching(s.adjRibIn, rest), dirty := true)
  }

  function SetRetainAll(s: Rib, on: bool): Rib {
    if s.retainAll == on then s else s.(retainAll := on, dirty := true)
  }

  function Reroled(t: Table, isClient: bool): Table {
    map k | k in t :: t[k].(fromClient := isClient)
  }

  function SetClient(s: Rib, addr: Address, on: bool): Rib {
    if addr !in s.peers || s.peers[addr].isClient == on then s
    else
      SetTable(s, addr, Reroled(TableOf(s.adjRibIn, addr), on))
      .(peers := s.peers[addr := s.peers[addr].(isClient := on)], dirty := true)
  }

  function Originate(s: Rib, route: EvpnRoute): Rib {
    if route.Key() in s.originated && s.originated[route.Key()] == route then s
    else s.(originated := s.originated[route.Key() := route], dirty := true)
  }

  function WithdrawOriginated(s: Rib, k: RouteKey): Rib {
    if k in s.originated then s.(originated := s.originated - {k}, dirty := true) else s
  }

  /** A session ends: its table goes unless it is retained, and only a loss of paths is flagged. */
  function PeerDown(s: Rib, addr: Address, retain: bool, cutoff: Option<nat>): (r: Rib)
    ensures r.originated == s.originated && r.peers == s.peers && r.imported == s.imported
  {
    if retain then s.(retained := s.retained[addr := cutoff])
    else
      SetTable(s, addr, map[])
      .(retained := s.retained - {addr}, dirty := s.dirty || TableOf(s.adjRibIn, addr) != map[])
  }

  // ----------------------------------------------------------------------- runs

  datatype Op =
    | Announce(addr: Address, rid: Option<Address>, announcement: Announcement, now: nat)
    | Withdraw(addr: Address, keys: seq<RouteKey>)
    | Sweep(addr: Address, keys: seq<RouteKey>)
    | Retention(addr: Address, until: Option<Option<nat>>)
    | Down(addr: Address, retain: bool, cutoff: Option<nat>)
    | ImportTarget(rt: RouteTarget)
    | DropTarget(rt: RouteTarget)
    | RetainEverything(on: bool)
    | Role(addr: Address, isClient: bool)
    | Attach(route: EvpnRoute)
    | Detach(k: RouteKey)
    | Poll(now: nat)

  /** A withdrawal, the end of a refresh and the end of a restart all remove some keys of one peer. */
  function Apply(s: Rib, op: Op): Rib {
    match op
    case Announce(addr, rid, a, now) => if addr in s.peers then Import(s, addr, rid, a, now).0 else s
    case Withdraw(addr, keys) => RemoveAll(s, addr, keys)
    case Sweep(addr, keys) => RemoveAll(s, addr, keys)
    case Retention(addr, until) =>
      s.(retained := if until.Some? then s.retained[addr := until.value] else s.retained - {addr})
    case Down(addr, retain, cutoff) => PeerDown(s, addr, retain, cutoff)
    case ImportTarget(rt) => AddTarget(s, rt)
    case DropTarget(rt) => RemoveTarget(s, rt)
    case RetainEverything(on) => SetRetainAll(s, on)
    case Role(addr, isClient) => SetClient(s, addr, isClient)
    case Attach(route) => Originate(s, route)
    case Detach(k) => WithdrawOriginated(s, k)
    case Poll(now) => if s.dirty then Decide(s, now) else s
  }

  function Run(s: Rib, ops: seq<Op>): Rib {
    if ops == [] then s else Apply(Run(s, ops[..|ops| - 1]), ops[|ops| - 1])
  }

  predicate Initial(s: Rib) {
    s.adjRibIn == map[] && s.originated == map[] && s.locRib == map[] && s.advertiseRib == map[] && s.dirty
  }

  // ------------------------------------------------------------------ invariant

  /** The mark on a stored path is never wrong in the dangerous direction. */
  ghost predicate Marked(t: Table, addr: Address, imported: set<RouteTarget>) {
    forall k :: k in t ==>
      t[k].route.Key() == k && !t[k].local && t[k].peerAddr == addr && (t[k].importable ==> t[k].route.Matches(imported))
  }

  ghost predicate AllMarked(rib: map<Address, Table>, imported: set<RouteTarget>) {
    forall a :: a in rib ==> rib[a] != map[] && Marked(rib[a], a, imported)
  }

  /** No tenant outside the imported Route Targets reaches the Loc-RIB. */
  ghost predicate Isolated(s: Rib) {
    forall k :: k in s.locRib && !s.locRib[k].local ==> s.locRib[k].route.Matches(s.imported)
  }

  ghost predicate KeysServed(s: Rib) {
    s.advertiseRib.Keys == AllKeys(s)
  }

  ghost predicate Good(s: Rib) {
    AllMarked(s.adjRibIn, s.imported) && (!s.dirty ==> Isolated(s) && KeysServed(s))
  }

  lemma MatchesMore(route: EvpnRoute, few: set<RouteTarget>, many: set<RouteTarget>)
    requires few <= many && route.Matches(few)
    ensures route.Matches(many)
  {
    var i :| 0 <= i < |route.routeTargets| && route.routeTargets[i] in few;
    assert route.routeTargets[i] in many;
  }

  lemma SetTableMarked(s: Rib, addr: Address, t: Table)
    requires AllMarked(s.adjRibIn, s.imported) && Marked(t, addr, s.imported)
    ensures AllMarked(SetTable(s, addr, t).adjRibIn, s.imported)
  {}

  lemma SameKeys(s: Rib, r: Rib)
    requires r.adjRibIn.Keys == s.adjRibIn.Keys && r.originated.Keys == s.originated.Keys
    requires forall a :: a in s.adjRibIn ==> r.adjRibIn[a].Keys == s.adjRibIn[a].Keys
    ensures AllKeys(r) == AllKeys(s)
  {
    forall k ensures k in StoredKeys(r) <==> k in StoredKeys(s) {
      if k in StoredKeys(r) {
        var a :| a in r.adjRibIn && k in r.adjRibIn[a];
        assert k in s.adjRibIn[a];
      }
      if k in StoredKeys(s) {
        var a :| a in s.adjRibIn && k in s.adjRibIn[a];
        assert k in r.adjRibIn[a];
      }
    }
  }

  lemma RemoveGood(s: Rib, addr: Address, k: RouteKey)
    requires Good(s)
    ensures Good(DropPath(s, addr, k))
  {
    SetTableMarked(s, addr, TableOf(s.adjRibIn, addr) - {k});
  }

  lemma UnflaggedGood(s: Rib, r: Rib)
    requires Good(s) && AllMarked(r.adjRibIn, r.imported)
    requires !r.dirty ==>
               && !s.dirty && r.locRib == s.locRib && r.advertiseRib == s.advertiseRib
               && r.imported == s.imported && AllKeys(r) == AllKeys(s)
    ensures Good(r)
  {}

  lemma InsertMarked(s: Rib, addr: Address, path: EvpnPath)
    requires Good(s) && !path.local && path.peerAddr == addr && (path.importable ==> path.route.Matches(s.imported))
    ensures AllMarked(StorePath(s, addr, path).adjRibIn, s.imported)
  {
    SetTableMarked(s, addr, TableOf(s.adjRibIn, addr)[path.route.Key() := path]);
  }

  lemma InsertKeys(s: Rib, addr: Address, path: EvpnPath)
    requires path.route.Key() in TableOf(s.adjRibIn, addr)
    ensures AllKeys(StorePath(s, addr, path)) == AllKeys(s)
  {
    var t := TableOf(s.adjRibIn, addr)[path.route.Key() := path];
    assert path.route.Key() in t && t.Keys == s.adjRibIn[addr].Keys;
    SameKeys(s, StorePath(s, addr, path));
  }

  lemma InsertGood(s: Rib, addr: Address, path: EvpnPath)
    requires Good(s) && !path.local && path.peerAddr == addr && (path.importable ==> path.route.Matches(s.imported))
    ensures Good(StorePath(s, addr, path))
  {
    InsertMarked(s, addr, path);
    if path.route.Key() in TableOf(s.adjRibIn, addr) {
      InsertKeys(s, addr, path);
    }
    UnflaggedGood(s, StorePath(s, addr, path));
  }

  lemma ImportOneGood(s: Rib, addr: Address, rid: Option<Address>, v: EvpnAdvert, now: nat)
    requires Good(s) && addr in s.peers && s.peers[addr].addr == addr
    ensures Good(ImportOne(s, addr, rid, v, now))
  {
    if Kept(s, v) {
      InsertGood(s, addr, PathFrom(s.me, s.peers[addr], rid, v, s.imported, now));
    } else {
      RemoveGood(s, addr, v.route.Key());
    }
  }

  lemma ImportStepGood(s: Rib, addr: Address, rid: Option<Address>, v: EvpnAdvert, now: nat)
    requires Good(s) && addr in s.peers && s.peers[addr].addr == addr
    ensures Good(ImportStep(s, addr, rid, v, now).0)
  {
    ImportOneGood(s, addr, rid, v, now);
  }

  lemma ImportNextGood(before: Rib, over: bool, addr: Address, rid: Option<Address>, v: EvpnAdvert, now: nat)
    requires Good(before) && addr in before.peers && before.peers[addr].addr == addr
    ensures Good((if over then (before, true) else ImportStep(before, addr, rid, v, now)).0)
  {
    ImportStepGood(before, addr, rid, v, now);
  }

  lemma {:induction false} ImportAllGood(s: Rib, addr: Address, rid: Option<Address>, a: Announcement, n: nat, now: nat)
    requires Good(s) && addr in s.peers && n <= |a.nlri| && s.peers[addr].addr == addr
    ensures Good(ImportAll(s, addr, rid, a, n, now).0)
    decreases n
  {
    if n > 0 {
      var (before, over) := ImportAll(s, addr, rid, a, n - 1, now);
      ImportAllGood(s, addr, rid, a, n - 1, now);
      ImportNextGood(before, over, addr, rid, a.Advert(a.nlri[n - 1]), now);
    }
  }

  lemma {:induction false} RemoveAllGood(s: Rib, addr: Address, keys: seq<RouteKey>)
    requires Good(s)
    ensures Good(RemoveAll(s, addr, keys))
    decreases |keys|
  {
    if keys != [] {
      RemoveAllGood(s, addr, keys[..|keys| - 1]);
      RemoveGood(RemoveAll(s, addr, keys[..|keys| - 1]), addr, keys[|keys| - 1]);
    }
  }

  lemma AddTargetMarked(s: Rib, rt: RouteTarget)
    requires AllMarked(s.adjRibIn, s.imported)
    ensures AllMarked(AddTarget(s, rt).adjRibIn, AddTarget(s, rt).imported)
  {
    forall a, k | a in s.adjRibIn && k in s.adjRibIn[a] && s.adjRibIn[a][k].importable
      ensures s.adjRibIn[a][k].route.Matches(s.imported + {rt})
    {
      MatchesMore(s.adjRibIn[a][k].route, s.imported, s.imported + {rt});
    }
  }

  lemma AddTargetGood(s: Rib, rt: RouteTarget)
    requires Good(s)
    ensures Good(AddTarget(s, rt))
  {
    AddTargetMarked(s, rt);
  }

  lemma RemoveTargetGood(s: Rib, rt: RouteTarget)
    requires Good(s)
    ensures Good(RemoveTarget(s, rt))
  {}

  lemma RoleGood(s: Rib, addr: Address, on: bool)
    requires Good(s)
    ensures Good(SetClient(s, addr, on))
  {
    SetTableMarked(s, addr, Reroled(TableOf(s.adjRibIn, addr), on));
  }

  lemma DownKeepsTables(s: Rib, addr: Address, retain: bool, cutoff: Option<nat>)
    requires AllMarked(s.adjRibIn, s.imported) && !PeerDown(s, addr, retain, cutoff).dirty
    ensures PeerDown(s, addr, retain, cutoff) == s.(retained := PeerDown(s, addr, retain, cutoff).retained)
  {
    if !retain {
      assert addr !in s.adjRibIn && s.adjRibIn - {addr} == s.adjRibIn;
    }
  }

  lemma DownGood(s: Rib, addr: Address, retain: bool, cutoff: Option<nat>)
    requires Good(s)
    ensures Good(PeerDown(s, addr, retain, cutoff))
  {
    var r := PeerDown(s, addr, retain, cutoff);
    if r.dirty {
      SetTableMarked(s, addr, map[]);
    } else {
      DownKeepsTables(s, addr, retain, cutoff);
      SameKeys(s, r);
    }
  }

  // ------------------------------------------------------------ the decision

  ghost predicate FromTables(s: Rib, p: EvpnPath, k: RouteKey) {
    exists a :: a in s.adjRibIn && k in s.adjRibIn[a] && s.adjRibIn[a][k] == p
  }

  lemma {:induction false} Gathered(s: Rib, addrs: seq<Address>, k: RouteKey)
    ensures forall p :: p in Gather(s.adjRibIn, addrs, k) ==> FromTables(s, p, k)
    ensures forall a :: a in addrs && a in s.adjRibIn && k in s.adjRibIn[a] ==> s.adjRibIn[a][k] in Gather(s.adjRibIn, addrs, k)
    decreases |addrs|
  {
    if addrs != [] {
      Gathered(s, addrs[1..], k);
      assert addrs == [addrs[0]] + addrs[1..];
    }
  }

  lemma {:induction false} FreshOnes(s: Rib, ps: seq<EvpnPath>)
    ensures forall p :: p in Fresh(s, ps) ==> p in ps
    decreases |ps|
  {
    if ps != [] {
      FreshOnes(s, ps[1..]);
    }
  }

  lemma {:induction false} UsableOnes(ps: seq<EvpnPath>)
    ensures forall p :: p in Usable(ps) <==> p in ps && (p.local || p.importable)
    decreases |ps|
  {
    if ps != [] {
      UsableOnes(ps[1..]);
      assert ps == [ps[0]] + ps[1..];
    }
  }

  lemma CandidateOrigin(s: Rib, k: RouteKey, now: nat)
    ensures forall p :: p in Candidates(s, k, now) ==> p.local || FromTables(s, p, k)
    ensures k in AllKeys(s) ==> Candidates(s, k, now) != []
  {
    var addrs := Speaker.Ascending(s.adjRibIn.Keys);
    Gathered(s, addrs, k);
    FreshOnes(s, Gather(s.adjRibIn, addrs, k));
    Speaker.AscendingMembers(s.adjRibIn.Keys);
    if k in StoredKeys(s) {
      var a :| a in s.adjRibIn && k in s.adjRibIn[a];
      assert a in addrs;
    }
  }

  lemma UsableWinner(s: Rib, k: RouteKey, now: nat)
    requires AllMarked(s.adjRibIn, s.imported)
    ensures var best := BestUsable(s, k, now); best.Some? ==> best.value.local || best.value.route.Matches(s.imported)
  {
    var cs := Candidates(s, k, now);
    CandidateOrigin(s, k, now);
    UsableOnes(cs);
    SelectedIsACandidate(Usable(cs));
    var best := BestUsable(s, k, now);
    if best.Some? && !best.value.local {
      var a :| a in s.adjRibIn && k in s.adjRibIn[a] && s.adjRibIn[a][k] == best.value;
      assert Marked(s.adjRibIn[a], a, s.imported);
    }
  }

  lemma DecideGood(s: Rib, now: nat)
    requires Good(s)
    ensures Good(Decide(s, now))
  {
    var r := Decide(s, now);
    forall k | k in r.locRib && !r.locRib[k].local ensures r.locRib[k].route.Matches(s.imported) {
      UsableWinner(s, k, now);
    }
    forall k | k in AllKeys(s) ensures k in r.advertiseRib {
      CandidateOrigin(s, k, now);
      SelectedIsACandidate(Candidates(s, k, now));
    }
    assert r.advertiseRib.Keys == AllKeys(s) == AllKeys(r);
  }

  ghost predicate OriginatedKeyed(s: Rib) {
    forall k :: k in s.originated ==> s.originated[k].Key() == k
  }

  ghost predicate Configured(s: Rib) {
    forall a :: a in s.peers ==> s.peers[a].addr == a
  }

  /** Whatever stays the same in the tables stays served. */
  lemma ConfigurationGood(s: Rib, op: Op)
    requires Good(s) && (op.RetainEverything? || op.Attach? || op.Detach? || op.Retention?)
    ensures Good(Apply(s, op))
  {
    var r := Apply(s, op);
    if !r.dirty {
      SameKeys(s, r);
    }
    UnflaggedGood(s, r);
  }

  lemma ApplyGood(s: Rib, op: Op)
    requires Good(s) && Configured(s)
    ensures Good(Apply(s, op))
  {
    match op
    case Announce(addr, rid, a, now) => if addr in s.peers { ImportAllGood(s, addr, rid, a, |a.nlri|, now); }
    case Withdraw(addr, keys) => RemoveAllGood(s, addr, keys);
    case Sweep(addr, keys) => RemoveAllGood(s, addr, keys);
    case Down(addr, retain, cutoff) => DownGood(s, addr, retain, cutoff);
    case ImportTarget(rt) => AddTargetGood(s, rt);
    case DropTarget(rt) => RemoveTargetGood(s, rt);
    case Role(addr, isClient) => RoleGood(s, addr, isClient);
    case Poll(now) => DecideGood(s, now);
    case _ => ConfigurationGood(s, op);
  }

  lemma ApplyConfigured(s: Rib, op: Op)
    requires Configured(s)
    ensures Configured(Apply(s, op))
  {}

  lemma HostsOriginated(s: Rib, route: EvpnRoute, k: RouteKey)
    requires OriginatedKeyed(s)
    ensures OriginatedKeyed(Originate(s, route)) && OriginatedKeyed(WithdrawOriginated(s, k))
  {}

  lemma TrafficOriginates(s: Rib, op: Op)
    requires op.Announce? || op.Withdraw? || op.Sweep?
    ensures Apply(s, op).originated == s.originated
  {}

  lemma ConfigurationOriginates(s: Rib, op: Op)
    requires op.Retention? || op.ImportTarget? || op.DropTarget? || op.RetainEverything? || op.Role? || op.Poll?
    ensures Apply(s, op).originated == s.originated
  {}

  lemma ApplyOriginated(s: Rib, op: Op, r: Rib)
    requires OriginatedKeyed(s) && r == Apply(s, op)
    ensures OriginatedKeyed(r)
  {
    if op.Attach? {
      HostsOriginated(s, op.route, op.route.Key());
    } else if op.Detach? {
      HostsOriginated(s, EvpnRoute(Nlri(op.k, 0), 0, [], None, []), op.k);
    } else if op.Announce? || op.Withdraw? || op.Sweep? {
      TrafficOriginates(s, op);
    } else if op.Down? {
      assert r == PeerDown(s, op.addr, op.retain, op.cutoff);
    } else {
      ConfigurationOriginates(s, op);
    }
  }

  lemma {:induction false} RunGood(s: Rib, ops: seq<Op>)
    requires Initial(s) && Configured(s)
    ensures Good(Run(s, ops)) && Configured(Run(s, ops)) && OriginatedKeyed(Run(s, ops))
    decreases |ops|
  {
    if ops != [] {
      RunGood(s, ops[..|ops| - 1]);
      ApplyGood(Run(s, ops[..|ops| - 1]), ops[|ops| - 1]);
      ApplyConfigured(Run(s, ops[..|ops| - 1]), ops[|ops| - 1]);
      ApplyOriginated(Run(s, ops[..|ops| - 1]), ops[|ops| - 1], Run(s, ops));
    }
  }

  // --------------------------------------------------------------- main results

  /**
   Tenant isolation: in every run, whenever the dirty flag is clear, every remote path
   in the Loc-RIB carries a currently imported Route Target, and the advertisement RIB
   has a winner for every stored or originated key.
   */
  lemma TenantsStayIsolated(s: Rib, ops: seq<Op>, k: RouteKey)
    requires Initial(s) && Configured(s) && !Run(s, ops).dirty
    ensures var r := Run(s, ops);
            && (k in r.locRib && !r.locRib[k].local ==> r.locRib[k].route.Matches(r.imported))
            && (k in AllKeys(r) <==> k in r.advertiseRib)
  {
    RunGood(s, ops);
  }

  /** A speaker that imports nothing programs nothing remote, but still advertises everything it stores. */
  lemma NothingImportedNothingRemote(s: Rib, ops: seq<Op>, k: RouteKey)
    requires Initial(s) && Configured(s) && !Run(s, ops).dirty && Run(s, ops).imported == {}
    ensures var r := Run(s, ops);
            (k in r.locRib ==> r.locRib[k].local) && (k in StoredKeys(r) ==> k in r.advertiseRib)
  {
    TenantsStayIsolated(s, ops, k);
  }

  // ------------------------------------------- candidate lists have distinct sources

  /** Every path of `ps` is from a peer of `addrs`, and no two are from the same. */
  ghost predicate OnePerPeer(ps: seq<EvpnPath>, addrs: seq<Address>) {
    && (forall p :: p in ps ==> p.peerAddr in addrs && !p.local)
    && (forall i, j :: 0 <= i < j < |ps| ==> ps[i].peerAddr != ps[j].peerAddr)
  }

  lemma {:induction false} GatherOnePerPeer(s: Rib, addrs: seq<Address>, k: RouteKey)
    requires AllMarked(s.adjRibIn, s.imported) && NoDuplicates(addrs)
    ensures OnePerPeer(Gather(s.adjRibIn, addrs, k), addrs)
    decreases |addrs|
  {
    if addrs != [] {
      assert addrs[0] !in addrs[1..] && addrs == [addrs[0]] + addrs[1..];
      assert NoDuplicates(addrs[1..]);
      GatherOnePerPeer(s, addrs[1..], k);
      var rest := Gather(s.adjRibIn, addrs[1..], k);
      if addrs[0] in s.adjRibIn && k in s.adjRibIn[addrs[0]] {
        assert Marked(s.adjRibIn[addrs[0]], addrs[0], s.imported);
        OneMore(s.adjRibIn[addrs[0]][k], rest, addrs[0], addrs[1..]);
      } else {
        assert [] + rest == rest;
      }
    }
  }

  lemma OneMore(p: EvpnPath, rest: seq<EvpnPath>, addr: Address, addrs: seq<Address>)
    requires OnePerPeer(rest, addrs) && p.peerAddr == addr && !p.local && addr !in addrs
    ensures OnePerPeer([p] + rest, [addr] + addrs)
  {}

  lemma {:induction false} FreshOnePerPeer(s: Rib, ps: seq<EvpnPath>, addrs: seq<Address>)
    requires OnePerPeer(ps, addrs)
    ensures OnePerPeer(Fresh(s, ps), addrs)
    decreases |ps|
  {
    if ps != [] {
      assert ps == [ps[0]] + ps[1..];
      FreshOnePerPeer(s, ps[1..], addrs);
      FreshOnes(s, ps[1..]);
      assert ps[0] !in ps[1..];
      assert forall p :: p in ps[1..] ==> p.peerAddr != ps[0].peerAddr;
    }
  }

  lemma CandidatesHaveDistinctSources(s: Rib, k: RouteKey, now: nat)
    requires AllMarked(s.adjRibIn, s.imported)
    ensures DistinctSources(Candidates(s, k, now))
  {
    var addrs := Speaker.Ascending(s.adjRibIn.Keys);
    Speaker.AscendingDistinct(s.adjRibIn.Keys);
    GatherOnePerPeer(s, addrs, k);
    FreshOnePerPeer(s, Gather(s.adjRibIn, addrs, k), addrs);
  }

  lemma {:induction false} UsableDistinct(ps: seq<EvpnPath>)
    requires DistinctSources(ps)
    ensures DistinctSources(Usable(ps))
    decreases |ps|
  {
    if ps != [] {
      assert ps == [ps[0]] + ps[1..];
      assert DistinctSources(ps[1..]);
      UsableDistinct(ps[1..]);
      UsableOnes(ps[1..]);
      assert forall p :: p in ps[1..] ==> p.peerAddr != ps[0].peerAddr || p.local != ps[0].local;
    }
  }

  /** The decision files, for each key, the one least of all candidates under the total order, and the one least of those this speaker may use. */
  lemma DecisionIsTheLeast(s: Rib, k: RouteKey, now: nat)
    requires AllMarked(s.adjRibIn, s.imported)
    ensures forall w :: IsLeast(w, Candidates(s, k, now)) <==> BestFor(s, k, now) == Some(w)
    ensures forall w :: IsLeast(w, Usable(Candidates(s, k, now))) <==> BestUsable(s, k, now) == Some(w)
  {
    var cs := Candidates(s, k, now);
    CandidatesHaveDistinctSources(s, k, now);
    UsableDistinct(cs);
    if cs != [] {
      SelectsTheLeast(cs);
    }
    if Usable(cs) != [] {
      SelectsTheLeast(Usable(cs));
    }
  }

  // ------------------------------------------------- what changing targets leaves

  /** The mark says exactly whether the path matches. */
  ghost predicate Accurate(s: Rib) {
    forall a, k :: a in s.adjRibIn && k in s.adjRibIn[a] ==>
      (s.adjRibIn[a][k].importable <==> s.adjRibIn[a][k].route.Matches(s.imported))
  }

  ghost predicate Awaiting(s: Rib, rt: RouteTarget) {
    exists a, k :: a in s.adjRibIn && k in s.adjRibIn[a]
      && rt in s.adjRibIn[a][k].route.routeTargets && !s.adjRibIn[a][k].route.Matches(s.imported)
  }

  lemma MatchesWith(route: EvpnRoute, imported: set<RouteTarget>, rt: RouteTarget)
    ensures route.Matches(imported + {rt}) <==> route.Matches(imported) || rt in route.routeTargets
  {
    if route.Matches(imported) {
      MatchesMore(route, imported, imported + {rt});
    }
    if rt in route.routeTargets {
      var i :| 0 <= i < |route.routeTargets| && route.routeTargets[i] == rt;
      assert route.routeTargets[i] in imported + {rt};
    }
    if route.Matches(imported + {rt}) {
      var i :| 0 <= i < |route.routeTargets| && route.routeTargets[i] in imported + {rt};
      assert route.routeTargets[i] in imported || route.routeTargets[i] == rt;
    }
  }

  /**
   The mark is not recomputed when a target is added: it stays accurate exactly when no
   stored path was waiting for that target.
   */
  lemma AddTargetStaysAccurateIff(s: Rib, rt: RouteTarget)
    requires Accurate(s) && rt !in s.imported
    ensures Accurate(AddTarget(s, rt)) <==> !Awaiting(s, rt)
  {
    var r := AddTarget(s, rt);
    forall a, k | a in s.adjRibIn && k in s.adjRibIn[a]
      ensures var route := s.adjRibIn[a][k].route;
              route.Matches(r.imported) <==> route.Matches(s.imported) || rt in route.routeTargets
    {
      MatchesWith(s.adjRibIn[a][k].route, s.imported, rt);
    }
    if Awaiting(s, rt) {
      var a, k :| a in s.adjRibIn && k in s.adjRibIn[a]
        && rt in s.adjRibIn[a][k].route.routeTargets && !s.adjRibIn[a][k].route.Matches(s.imported);
      assert !r.adjRibIn[a][k].importable && r.adjRibIn[a][k].route.Matches(r.imported);
    }
  }

  /** No path stored for the key is marked importable. */
  ghost predicate NoneImportable(s: Rib, k: RouteKey) {
    forall a :: a in s.adjRibIn && k in s.adjRibIn[a] ==> !s.adjRibIn[a][k].importable
  }

  ghost predicate NoneStale(s: Rib, k: RouteKey) {
    forall a :: a in s.adjRibIn && k in s.adjRibIn[a] ==> !Stale(s, s.adjRibIn[a][k])
  }

  lemma {:induction false} NoneUsable(ps: seq<EvpnPath>)
    requires forall p :: p in ps ==> !p.local && !p.importable
    ensures Usable(ps) == []
    decreases |ps|
  {
    if ps != [] {
      NoneUsable(ps[1..]);
    }
  }

  lemma OnlyUnusable(s: Rib, k: RouteKey, now: nat)
    requires AllMarked(s.adjRibIn, s.imported) && k !in s.originated && NoneImportable(s, k)
    ensures Usable(Candidates(s, k, now)) == []
  {
    var cs := Candidates(s, k, now);
    var addrs := Speaker.Ascending(s.adjRibIn.Keys);
    Gathered(s, addrs, k);
    FreshOnes(s, Gather(s.adjRibIn, addrs, k));
    forall p | p in cs ensures !p.local && !p.importable {
      assert FromTables(s, p, k);
    }
    NoneUsable(cs);
  }

  lemma {:induction false} AllFresh(s: Rib, ps: seq<EvpnPath>)
    requires forall p :: p in ps ==> !Stale(s, p)
    ensures Fresh(s, ps) == ps
    decreases |ps|
  {
    if ps != [] {
      assert ps == [ps[0]] + ps[1..];
      AllFresh(s, ps[1..]);
    }
  }

  lemma SomeUsable(s: Rib, k: RouteKey, now: nat)
    requires AllMarked(s.adjRibIn, s.imported) && NoneStale(s, k)
    requires k in s.originated || !NoneImportable(s, k)
    ensures Usable(Candidates(s, k, now)) != []
  {
    var cs := Candidates(s, k, now);
    var addrs := Speaker.Ascending(s.adjRibIn.Keys);
    var learned := Gather(s.adjRibIn, addrs, k);
    Gathered(s, addrs, k);
    Speaker.AscendingMembers(s.adjRibIn.Keys);
    AllFresh(s, learned);
    UsableOnes(cs);
    var p :| p in cs && (p.local || p.importable);
    assert p in Usable(cs);
  }

  /**
   A route retained before its target was imported matches from then on and is advertised, but
   stays out of the Loc-RIB unless the key is hosted here or another peer's path for it is
   marked importable: exactly then, as long as none of its paths is stale.
   */
  lemma AwaitingRouteStaysOut(s: Rib, addr: Address, k: RouteKey, rt: RouteTarget, now: nat)
    requires AllMarked(s.adjRibIn, s.imported) && rt !in s.imported
    requires addr in s.adjRibIn && k in s.adjRibIn[addr] && rt in s.adjRibIn[addr][k].route.routeTargets
    ensures var r := Decide(AddTarget(s, rt), now);
            && addr in r.adjRibIn && k in r.adjRibIn[addr] && r.adjRibIn[addr][k].route.Matches(r.imported)
            && k in r.advertiseRib
            && (k !in s.originated && NoneImportable(s, k) ==> k !in r.locRib)
            && (NoneStale(s, k) ==> (k in r.locRib <==> k in s.originated || !NoneImportable(s, k)))
  {
    var s1 := AddTarget(s, rt);
    MatchesWith(s.adjRibIn[addr][k].route, s.imported, rt);
    AddTargetMarked(s, rt);
    CandidateOrigin(s1, k, now);
    assert k in AllKeys(s1);
    SelectedIsACandidate(Candidates(s1, k, now));
    SelectedIsACandidate(Usable(Candidates(s1, k, now)));
    if k !in s.originated && NoneImportable(s, k) {
      OnlyUnusable(s1, k, now);
    } else if NoneStale(s, k) {
      SomeUsable(s1, k, now);
    }
  }

  /** Removing a target drops every stored path that matches none of the others, also those a reflector retains. */
  lemma RemoveTargetKeepsIff(s: Rib, rt: RouteTarget, a: Address, k: RouteKey)
    requires rt in s.imported
    ensures var r := RemoveTarget(s, rt);
            (a in r.adjRibIn && k in r.adjRibIn[a]) <==>
              (a in s.adjRibIn && k in s.adjRibIn[a] && s.adjRibIn[a][k].route.Matches(s.imported - {rt}))
  {
    var rest := s.imported - {rt};
    if a in s.adjRibIn && k in s.adjRibIn[a] && s.adjRibIn[a][k].route.Matches(rest) {
      assert k in Matching(s.adjRibIn[a], rest);
    }
  }

  /** So a reflector that removes the only target it imports forgets every route it was reflecting. */
  lemma RemoveLastTargetDropsEverything(s: Rib, rt: RouteTarget)
    requires s.imported == {rt}
    ensures RemoveTarget(s, rt).adjRibIn == map[]
  {
    var rest := s.imported - {rt};
    forall b | b in s.adjRibIn ensures Matching(s.adjRibIn[b], rest) == map[] {
      assert rest == {};
    }
  }

  // ---------------------------------------------------------- what removal does

  /** Only the tables of the one peer and the flag differ. */
  ghost predicate Untouched(s: Rib, r: Rib, addr: Address) {
    && r.me == s.me && r.peers == s.peers && r.imported == s.imported && r.retainAll == s.retainAll
    && forall a :: a != addr ==> TableOf(r.adjRibIn, a) == TableOf(s.adjRibIn, a)
  }

  lemma TableSet(s: Rib, addr: Address, t: Table)
    ensures TableOf(SetTable(s, addr, t).adjRibIn, addr) == t
    ensures Untouched(s, SetTable(s, addr, t), addr)
  {}

  function Without(t: Table, keys: seq<RouteKey>): Table {
    map k | k in t && k !in keys :: t[k]
  }

  lemma DropOne(s: Rib, addr: Address, k: RouteKey)
    ensures var r := DropPath(s, addr, k);
            && TableOf(r.adjRibIn, addr) == TableOf(s.adjRibIn, addr) - {k} && Untouched(s, r, addr)
            && (r.dirty <==> s.dirty || k in TableOf(s.adjRibIn, addr))
  {
    var t := TableOf(s.adjRibIn, addr);
    TableSet(s, addr, t - {k});
    if k !in t {
      assert t - {k} == t;
    }
  }

  /** The listed routes of the peer go, nothing else does, and the flag is set by exactly a route that goes. */
  lemma {:induction false} RemovalEffect(s: Rib, addr: Address, keys: seq<RouteKey>)
    ensures var r := RemoveAll(s, addr, keys);
            && r == s.(adjRibIn := r.adjRibIn, dirty := r.dirty)
            && TableOf(r.adjRibIn, addr) == Without(TableOf(s.adjRibIn, addr), keys) && Untouched(s, r, addr)
            && (r.dirty <==> s.dirty || exists k :: k in keys && k in TableOf(s.adjRibIn, addr))
    decreases |keys|
  {
    if keys != [] {
      var n := |keys| - 1;
      RemovalEffect(s, addr, keys[..n]);
      DropOne(RemoveAll(s, addr, keys[..n]), addr, keys[n]);
      assert keys == keys[..n] + [keys[n]];
      assert Without(TableOf(s.adjRibIn, addr), keys) == Without(TableOf(s.adjRibIn, addr), keys[..n]) - {keys[n]};
    }
  }

  // ------------------------------------------------------------- step by step

  function Filed(t: Table, best: Option<EvpnPath>): Table {
    if best.Some? then t[best.value.route.Key() := best.value] else t
  }

  lemma AdvertiseNext(s: Rib, all: set<RouteKey>, todo: set<RouteKey>, k: RouteKey, now: nat)
    requires AllMarked(s.adjRibIn, s.imported) && OriginatedKeyed(s) && k in todo && todo <= all
    ensures AdvertiseOn(s, all - (todo - {k}), now) == Filed(AdvertiseOn(s, all - todo, now), BestFor(s, k, now))
  {
    CandidatesAreForTheKey(s, k, now);
    SelectedIsACandidate(Candidates(s, k, now));
    assert all - (todo - {k}) == all - todo + {k};
  }

  lemma BestUsableIsForTheKey(s: Rib, k: RouteKey, now: nat)
    requires AllMarked(s.adjRibIn, s.imported) && OriginatedKeyed(s)
    ensures BestUsable(s, k, now).Some? ==> BestUsable(s, k, now).value.route.Key() == k
  {
    CandidatesAreForTheKey(s, k, now);
    UsableOnes(Candidates(s, k, now));
    SelectedIsACandidate(Usable(Candidates(s, k, now)));
  }

  lemma LocGrows(s: Rib, done: set<RouteKey>, k: RouteKey, now: nat, best: Option<EvpnPath>)
    requires best == BestUsable(s, k, now)
    ensures LocOn(s, done + {k}, now) == if best.Some? then LocOn(s, done, now)[k := best.value] else LocOn(s, done, now)
  {
    var t, u := LocOn(s, done, now), LocOn(s, done + {k}, now);
    assert u.Keys == t.Keys + if best.Some? then {k} else {};
    assert forall l :: l in u ==> u[l] == BestUsable(s, l, now).value;
  }

  lemma LocNext(s: Rib, all: set<RouteKey>, todo: set<RouteKey>, k: RouteKey, now: nat)
    requires AllMarked(s.adjRibIn, s.imported) && OriginatedKeyed(s) && k in todo && todo <= all
    ensures LocOn(s, all - (todo - {k}), now) == Filed(LocOn(s, all - todo, now), BestUsable(s, k, now))
  {
    BestUsableIsForTheKey(s, k, now);
    LocGrows(s, all - todo, k, now, BestUsable(s, k, now));
    assert all - (todo - {k}) == all - todo + {k};
  }

  lemma CandidatesAreForTheKey(s: Rib, k: RouteKey, now: nat)
    requires AllMarked(s.adjRibIn, s.imported) && OriginatedKeyed(s)
    ensures forall p :: p in Candidates(s, k, now) ==> p.route.Key() == k
  {
    var addrs := Speaker.Ascending(s.adjRibIn.Keys);
    var learned := Gather(s.adjRibIn, addrs, k);
    Gathered(s, addrs, k);
    FreshOnes(s, learned);
    forall p | p in learned ensures p.route.Key() == k {
      var a :| a in s.adjRibIn && k in s.adjRibIn[a] && s.adjRibIn[a][k] == p;
      assert Marked(s.adjRibIn[a], a, s.imported);
    }
  }

  /** Filters the tables peer by peer; a table left empty goes. */
  method Prune(rib: map<Address, Table>, imported: set<RouteTarget>) returns (r: map<Address, Table>)
    ensures r == AllMatching(rib, imported)
  {
    r := rib;
    var todo := rib.Keys;
    while todo != {}
      invariant todo <= rib.Keys && r.Keys <= rib.Keys
      invariant forall a :: a in todo ==> a in r && r[a] == rib[a]
      invariant forall a :: a in rib && a !in todo ==> (a in r <==> Matching(rib[a], imported) != map[])
      invariant forall a :: a in r && a !in todo ==> r[a] == Matching(rib[a], imported)
      decreases |todo|
    {
      var a :| a in todo;
      var kept := Matching(rib[a], imported);
      if kept == map[] {
        r := r - {a};
      } else {
        r := r[a := kept];
      }
      todo := todo - {a};
    }
  }

  class EvpnRouter {
    var me: Identity
    var peers: map<Address, PeerConfig>
    var imported: set<RouteTarget>
    var retainAll: bool
    var retained: map<Address, Option<nat>>
    var adjRibIn: map<Address, Table>
    var originated: map<RouteKey, EvpnRoute>
    var locRib: Table
    var advertiseRib: Table
    var dirty: bool

    function View(): Rib
      reads this
    {
      Rib(me, peers, imported, retainAll, retained, adjRibIn, originated, locRib, advertiseRib, dirty)
    }

    constructor (me: Identity, peers: map<Address, PeerConfig>)
      ensures Initial(View()) && View().me == me && View().peers == peers && imported == {} && !retainAll && retained == map[]
    {
      this.me, this.peers := me, peers;
      imported, retainAll, retained := {}, false, map[];
      adjRibIn, originated, locRib, advertiseRib, dirty := map[], map[], map[], map[], true;
    }

    method RemovePath(addr: Address, k: RouteKey)
      modifies this`adjRibIn, this`dirty
      ensures View() == DropPath(old(View()), addr, k)
    {
      if addr in adjRibIn && k in adjRibIn[addr] {
        var rest := adjRibIn[addr] - {k};
        if rest == map[] {
          adjRibIn := adjRibIn - {addr};
        } else {
          adjRibIn := adjRibIn[addr := rest];
        }
        dirty := true;
      }
    }

    method InsertPath(addr: Address, path: EvpnPath)
      modifies this`adjRibIn, this`dirty
      ensures View() == StorePath(old(View()), addr, path)
    {
      var t := TableOf(adjRibIn, addr);
      var k := path.route.Key();
      if k !in t || !t[k].SameRouteAs(path) {
        dirty := true;
      }
      assert k in t[k := path];
      adjRibIn := adjRibIn[addr := t[k := path]];
    }

    method Withdraw(addr: Address, keys: seq<RouteKey>)
      modifies this`adjRibIn, this`dirty
      ensures View() == RemoveAll(old(View()), addr, keys)
      ensures TableOf(adjRibIn, addr) == Without(TableOf(old(adjRibIn), addr), keys)
      ensures forall a :: a != addr ==> TableOf(adjRibIn, a) == TableOf(old(adjRibIn), a)
      ensures dirty <==> old(dirty) || exists k :: k in keys && k in TableOf(old(adjRibIn), addr)
    {
      ghost var s := View();
      RemovalEffect(s, addr, keys);
      for i := 0 to |keys|
        invariant View() == RemoveAll(s, addr, keys[..i])
      {
        assert keys[..i + 1][..i] == keys[..i];
        RemovePath(addr, keys[i]);
      }
      assert keys[..|keys|] == keys;
    }

    method ImportRoute(addr: Address, rid: Option<Address>, v: EvpnAdvert, now: nat) returns (over: bool)
      requires addr in peers
      modifies this`adjRibIn, this`dirty
      ensures (View(), over) == ImportStep(old(View()), addr, rid, v, now)
    {
      over := false;
      if Kept(View(), v) {
        InsertPath(addr, PathFrom(me, peers[addr], rid, v, imported, now));
        over := |TableOf(adjRibIn, addr)| > MAX_EVPN_ROUTES;
      } else {
        RemovePath(addr, v.route.Key());
      }
    }

    /** The announced routes one by one, each filtered by Route Target, up to the ceiling. */
    method ImportRoutes(addr: Address, rid: Option<Address>, a: Announcement, now: nat) returns (over: bool)
      requires addr in peers
      modifies this`adjRibIn, this`dirty
      ensures (View(), over) == ImportAll(old(View()), addr, rid, a, |a.nlri|, now)
    {
      ghost var s := View();
      over := false;
      var i := 0;
      while i < |a.nlri| && !over
        invariant 0 <= i <= |a.nlri|
        invariant (View(), over) == ImportAll(s, addr, rid, a, i, now)
        decreases |a.nlri| - i
      {
        over := ImportRoute(addr, rid, a.Advert(a.nlri[i]), now);
        i := i + 1;
      }
      ImportStops(s, addr, rid, a, i, now);
    }

    /** Stops importing a target, dropping what matches none of the others. */
    method RemoveImportTarget(rt: RouteTarget) returns (known: bool)
      requires AllMarked(adjRibIn, imported)
      modifies this`imported, this`adjRibIn, this`dirty
      ensures View() == RemoveTarget(old(View()), rt) && known == (rt in old(imported))
    {
      if rt !in imported {
        return false;
      }
      imported, dirty := imported - {rt}, true;
      adjRibIn := Prune(adjRibIn, imported);
      return true;
    }

    method RunDecisionProcess(now: nat)
      requires AllMarked(adjRibIn, imported) && OriginatedKeyed(View())
      modifies this`locRib, this`advertiseRib, this`dirty
      ensures View() == Decide(old(View()), now)
    {
      var newRib, newAdvertise := SelectAll(View(), now);
      locRib, advertiseRib, dirty := newRib, newAdvertise, false;
    }
  }

  /** Both tables are filed for the keys in `done`. */
  ghost predicate FiledFor(s: Rib, done: set<RouteKey>, now: nat, loc: Table, advertise: Table) {
    loc == LocOn(s, done, now) && advertise == AdvertiseOn(s, done, now)
  }

  lemma FiledNext(s: Rib, all: set<RouteKey>, todo: set<RouteKey>, k: RouteKey, now: nat, loc: Table, advertise: Table)
    requires AllMarked(s.adjRibIn, s.imported) && OriginatedKeyed(s) && k in todo && todo <= all
    requires FiledFor(s, all - todo, now, loc, advertise)
    ensures FiledFor(s, all - (todo - {k}), now, Filed(loc, BestUsable(s, k, now)), Filed(advertise, BestFor(s, k, now)))
  {
    AdvertiseNext(s, all, todo, k, now);
    LocNext(s, all, todo, k, now);
  }

  lemma NothingFiled(s: Rib, none: set<RouteKey>, now: nat)
    requires none == {}
    ensures FiledFor(s, none, now, map[], map[])
  {}

  /** Two tables from one pass over the same candidates. */
  method SelectAll(s: Rib, now: nat) returns (newRib: Table, newAdvertise: Table)
    requires AllMarked(s.adjRibIn, s.imported) && OriginatedKeyed(s)
    ensures newRib == LocOn(s, AllKeys(s), now) && newAdvertise == AdvertiseOn(s, AllKeys(s), now)
  {
    var all := AllKeys(s);
    var todo := all;
    newRib, newAdvertise := map[], map[];
    NothingFiled(s, all - todo, now);
    while todo != {}
      invariant todo <= all && FiledFor(s, all - todo, now, newRib, newAdvertise)
      decreases |todo|
    {
      var k :| k in todo;
      FiledNext(s, all, todo, k, now, newRib, newAdvertise);
      newAdvertise := Filed(newAdvertise, BestFor(s, k, now));
      newRib := Filed(newRib, BestUsable(s, k, now));
      todo := todo - {k};
    }
    assert all - todo == all;
  }

  lemma {:induction false} ImportStops(s: Rib, addr: Address, rid: Option<Address>, a: Announcement, i: nat, now: nat)
    requires addr in s.peers && i <= |a.nlri|
    requires i < |a.nlri| ==> ImportAll(s, addr, rid, a, i, now).1
    ensures ImportAll(s, addr, rid, a, |a.nlri|, now) == ImportAll(s, addr, rid, a, i, now)
  {
    var n := i;
    while n < |a.nlri|
      invariant i <= n <= |a.nlri|
      invariant n < |a.nlri| ==> ImportAll(s, addr, rid, a, n, now).1
      invariant ImportAll(s, addr, rid, a, n, now) == ImportAll(s, addr, rid, a, i, now)
    {
      n := n + 1;
    }
  }
}
