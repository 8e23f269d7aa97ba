/**
 The exact effect on the Loc-RIB of any UPDATE that leaves the dirty flag clear. Such an
 UPDATE withdraws nothing that is stored and announces nothing new: all it does is renew the
 time of receipt of the routes it repeats.
 */
module RepeatedUpdates {
  import opened BgpTypes
  import opened Propagation
  import opened Speaker
  import opened SpeakerRuns
  import opened PeerSessions
  import opened Coherence
  import opened Reannouncement
  import opened ReplacementOpen
  import Decision

  // ------------------------------------------------------- what the UPDATE does

  /** Import policy lets the prefix in, and its next hop is not our own address. */
  predicate Accepts(s: Speaker, addr: Address, attrs: PathAttributes, p: Prefix)
    requires addr in s.peers
  {
    EventFor(s, addr, attrs, p, 0).Install?
  }

  function AcceptedOf(s: Speaker, addr: Address, attrs: PathAttributes, ps: seq<Prefix>): set<Prefix>
    requires addr in s.peers
  {
    set p | p in ps && Accepts(s, addr, attrs, p)
  }

  /** The prefixes whose announcement passes all checks. */
  function Repeated(s: Speaker, addr: Address, u: Update): set<Prefix>
    requires addr in s.peers
  {
    if u.attributes.Some? && u.nlri != [] && CheckAttributes(s.me, s.peers[addr].config, u.attributes.value).Usable?
    then AcceptedOf(s, addr, u.attributes.value, u.nlri) else {}
  }

  function RenewedTable(t: Table, ps: set<Prefix>, now: nat): Table {
    map p | p in t :: if p in ps then t[p].(receivedAt := now) else t[p]
  }

  /** The same routes, those of `ps` from the peer received now. */
  function Renewed(s: Speaker, addr: Address, ps: set<Prefix>, now: nat): Speaker
    requires addr in s.peers
  {
    SetPeer(SetTable(s, addr, RenewedTable(TableOf(s.adjRibIn, addr), ps, now)), addr,
            s.peers[addr].(refreshStale := s.peers[addr].refreshStale - ps))
  }

  lemma TableItself(s: Speaker, addr: Address)
    requires addr in s.adjRibIn ==> s.adjRibIn[addr] != map[]
    ensures SetTable(s, addr, TableOf(s.adjRibIn, addr)) == s
  {
    if addr !in s.adjRibIn {
      assert s.adjRibIn - {addr} == s.adjRibIn;
    } else {
      assert s.adjRibIn[addr := s.adjRibIn[addr]] == s.adjRibIn;
    }
  }

  lemma PeerItself(s: Speaker, addr: Address)
    requires addr in s.peers
    ensures SetPeer(s, addr, s.peers[addr]) == s
  {
    assert s.peers[addr := s.peers[addr]] == s.peers;
  }

  lemma RenewedNothing(s: Speaker, addr: Address, now: nat)
    requires WellKeyed(s) && addr in s.peers
    ensures Renewed(s, addr, {}, now) == s
  {
    assert RenewedTable(TableOf(s.adjRibIn, addr), {}, now) == TableOf(s.adjRibIn, addr);
    assert s.peers[addr].refreshStale - {} == s.peers[addr].refreshStale;
    TableItself(s, addr);
    PeerItself(s, addr);
  }

  lemma RenewedLook(s: Speaker, addr: Address, ps: set<Prefix>, now: nat)
    requires addr in s.peers
    ensures var r := Renewed(s, addr, ps, now);
            && TableOf(r.adjRibIn, addr) == RenewedTable(TableOf(s.adjRibIn, addr), ps, now)
            && r.peers[addr] == s.peers[addr].(refreshStale := s.peers[addr].refreshStale - ps)
            && r.me == s.me && r.dirty == s.dirty
  {
    SetTableLook(s, addr, RenewedTable(TableOf(s.adjRibIn, addr), ps, now));
  }

  lemma TableTwice(s: Speaker, addr: Address, t: Table, u: Table)
    ensures SetTable(SetTable(s, addr, t), addr, u) == SetTable(s, addr, u)
  {}

  /** One more repeated prefix. */
  lemma RenewOne(s: Speaker, addr: Address, ps: set<Prefix>, now: nat, path: BgpPath)
    requires addr in s.peers && path.receivedAt == now
    requires !InstallPath(Renewed(s, addr, ps, now), addr, path).dirty
    ensures InstallPath(Renewed(s, addr, ps, now), addr, path) == Renewed(s, addr, ps + {path.prefix}, now)
    ensures path.prefix in TableOf(s.adjRibIn, addr) && TableOf(s.adjRibIn, addr)[path.prefix].SameRouteAs(path)
  {
    var b, t, p := Renewed(s, addr, ps, now), TableOf(s.adjRibIn, addr), path.prefix;
    RenewedLook(s, addr, ps, now);
    var u := RenewedTable(t, ps, now);
    assert p in u && u[p].SameRouteAs(path);
    assert u[p := path] == RenewedTable(t, ps + {p}, now);
    assert s.peers[addr].refreshStale - ps - {p} == s.peers[addr].refreshStale - (ps + {p});
    TableTwice(s, addr, u, RenewedTable(t, ps + {p}, now));
  }

  lemma RemoveUnflagged(s: Speaker, addr: Address, p: Prefix)
    requires !RemovePath(s, addr, p).dirty
    ensures RemovePath(s, addr, p) == s
  {}

  lemma DirtyStays(s: Speaker, addr: Address, e: TableEvent)
    requires addr in s.peers
    ensures s.dirty ==> ApplyEvent(s, addr, e).dirty
  {}

  lemma {:induction false} WithdrawUnflagged(s: Speaker, addr: Address, ps: seq<Prefix>)
    requires addr in s.peers && !WithdrawAll(s, addr, ps).dirty
    ensures WithdrawAll(s, addr, ps) == s
    decreases |ps|
  {
    if ps != [] {
      var n := |ps| - 1;
      var before := WithdrawAll(s, addr, ps[..n]);
      DirtyStays(before, addr, Remove(ps[n]));
      WithdrawUnflagged(s, addr, ps[..n]);
      RemoveUnflagged(s, addr, ps[n]);
    }
  }

  lemma SameEvent(s: Speaker, r: Speaker, addr: Address, attrs: PathAttributes, p: Prefix, now: nat)
    requires addr in s.peers && addr in r.peers && r.me == s.me
    requires r.peers[addr].config == s.peers[addr].config && r.peers[addr].remoteRouterId == s.peers[addr].remoteRouterId
    ensures EventFor(r, addr, attrs, p, now) == EventFor(s, addr, attrs, p, now)
    ensures EventFor(s, addr, attrs, p, now).Install? <==> Accepts(s, addr, attrs, p)
    ensures EventFor(s, addr, attrs, p, now).Install? ==>
              EventFor(s, addr, attrs, p, now).path.prefix == p && EventFor(s, addr, attrs, p, now).path.receivedAt == now
  {}

  lemma AcceptedSnoc(s: Speaker, addr: Address, attrs: PathAttributes, ps: seq<Prefix>)
    requires addr in s.peers && ps != []
    ensures var n := |ps| - 1;
            AcceptedOf(s, addr, attrs, ps) ==
            AcceptedOf(s, addr, attrs, ps[..n]) + if Accepts(s, addr, attrs, ps[n]) then {ps[n]} else {}
  {
    var n := |ps| - 1;
    assert forall p :: p in ps <==> p in ps[..n] || p == ps[n];
  }

  lemma RenewStep(s: Speaker, addr: Address, attrs: PathAttributes, ps: set<Prefix>, p: Prefix, now: nat)
    requires addr in s.peers
    requires var b := Renewed(s, addr, ps, now); !ApplyEvent(b, addr, EventFor(b, addr, attrs, p, now)).dirty
    ensures var b := Renewed(s, addr, ps, now);
            ApplyEvent(b, addr, EventFor(b, addr, attrs, p, now)) ==
            Renewed(s, addr, ps + if Accepts(s, addr, attrs, p) then {p} else {}, now)
    ensures Accepts(s, addr, attrs, p) ==> p in TableOf(s.adjRibIn, addr)
  {
    var b := Renewed(s, addr, ps, now);
    RenewedLook(s, addr, ps, now);
    SameEvent(s, b, addr, attrs, p, now);
    assert ps + {} == ps;
    match EventFor(b, addr, attrs, p, now)
    case Keep =>
    case Remove(q) => RemoveUnflagged(b, addr, q);
    case Install(path) => RenewOne(s, addr, ps, now, path);
  }

  lemma {:induction false} AnnounceUnflagged(s: Speaker, addr: Address, attrs: PathAttributes, ps: seq<Prefix>, now: nat)
    requires WellKeyed(s) && addr in s.peers
    requires !AnnounceAll(s, addr, attrs, ps, now).0.dirty && !AnnounceAll(s, addr, attrs, ps, now).1
    ensures AnnounceAll(s, addr, attrs, ps, now).0 == Renewed(s, addr, AcceptedOf(s, addr, attrs, ps), now)
    ensures AcceptedOf(s, addr, attrs, ps) <= TableOf(s.adjRibIn, addr).Keys
    decreases |ps|
  {
    if ps == [] {
      RenewedNothing(s, addr, now);
      assert AcceptedOf(s, addr, attrs, ps) == {};
    } else {
      var n := |ps| - 1;
      var before := AnnounceAll(s, addr, attrs, ps[..n], now).0;
      DirtyStays(before, addr, EventFor(before, addr, attrs, ps[n], now));
      AnnounceUnflagged(s, addr, attrs, ps[..n], now);
      AcceptedSnoc(s, addr, attrs, ps);
      RenewStep(s, addr, attrs, AcceptedOf(s, addr, attrs, ps[..n]), ps[n], now);
    }
  }

  lemma AnnounceDirtyStays(s: Speaker, addr: Address, attrs: PathAttributes, ps: seq<Prefix>, now: nat)
    requires addr in s.peers
    ensures s.dirty ==> AnnounceAll(s, addr, attrs, ps, now).0.dirty
    decreases |ps|
  {
    if ps != [] {
      AnnounceDirtyStays(s, addr, attrs, ps[..|ps| - 1], now);
    }
  }

  lemma ImportUnflagged(s: Speaker, addr: Address, u: Update, now: nat)
    requires WellKeyed(s) && addr in s.peers && !ImportUpdate(s, addr, u, now).0.dirty && ImportUpdate(s, addr, u, now).1.None?
    ensures ImportUpdate(s, addr, u, now).0 == Renewed(s, addr, Repeated(s, addr, u), now)
    ensures Repeated(s, addr, u) <= TableOf(s.adjRibIn, addr).Keys
  {
    var s1 := WithdrawAll(s, addr, u.withdrawn);
    if u.attributes.Some? && u.nlri != [] && CheckAttributes(s.me, s.peers[addr].config, u.attributes.value).Usable? {
      AnnounceDirtyStays(s1, addr, u.attributes.value, u.nlri, now);
      WithdrawUnflagged(s, addr, u.withdrawn);
      AnnounceUnflagged(s, addr, u.attributes.value, u.nlri, now);
    } else {
      WithdrawUnflagged(s, addr, u.withdrawn);
      RenewedNothing(s, addr, now);
    }
  }

  /** An UPDATE with a clear flag afterwards renews what it repeats and does nothing else. */
  lemma UpdateUnflagged(s: Speaker, addr: Address, u: Update, now: nat)
    requires WellKeyed(s) && addr in s.peers && !HandleUpdate(s, addr, u, now).dirty && !IsEndOfRib(u)
    ensures !s.dirty && HandleUpdate(s, addr, u, now) == Renewed(s, addr, Repeated(s, addr, u), now)
    ensures Repeated(s, addr, u) <= TableOf(s.adjRibIn, addr).Keys
  {
    ImportUnflagged(s, addr, u, now);
    RenewedLook(s, addr, Repeated(s, addr, u), now);
  }

  // ------------------------------------------------- what the decision makes of it

  /** Both store the same for the prefix, and judge all paths alike. */
  ghost predicate AlikeAt(x: Speaker, y: Speaker, p: Prefix) {
    && x.adjRibIn.Keys == y.adjRibIn.Keys && x.originated == y.originated && x.me == y.me
    && (forall a :: a in x.adjRibIn ==> (p in x.adjRibIn[a] <==> p in y.adjRibIn[a]))
    && (forall a :: a in x.adjRibIn && p in x.adjRibIn[a] ==> x.adjRibIn[a][p] == y.adjRibIn[a][p])
    && (forall path :: Stale(x, path) <==> Stale(y, path))
  }

  lemma {:induction false} GatherAlike(x: Speaker, y: Speaker, addrs: seq<Address>, p: Prefix)
    requires AlikeAt(x, y, p)
    ensures Gather(x.adjRibIn, addrs, p) == Gather(y.adjRibIn, addrs, p)
    decreases |addrs|
  {
    if addrs != [] {
      GatherAlike(x, y, addrs[1..], p);
    }
  }

  lemma WinnerAlike(x: Speaker, y: Speaker, p: Prefix)
    requires AlikeAt(x, y, p)
    ensures Winner(x, p) == Winner(y, p)
  {
    GatherAlike(x, y, Ascending(x.adjRibIn.Keys), p);
    FreshJudgedAlike(x, y, Learned(x, p));
  }

  /** The stored route, received now. */
  function Again(s: Speaker, addr: Address, p: Prefix, now: nat): BgpPath
    requires p in TableOf(s.adjRibIn, addr)
  {
    TableOf(s.adjRibIn, addr)[p].(receivedAt := now)
  }

  lemma RenewedStored(s: Speaker, addr: Address, ps: set<Prefix>, now: nat, a: Address, p: Prefix)
    requires WellKeyed(s) && addr in s.peers
    ensures var r := Renewed(s, addr, ps, now);
            && r.adjRibIn.Keys == s.adjRibIn.Keys
            && (a in s.adjRibIn ==> (p in r.adjRibIn[a] <==> p in s.adjRibIn[a]))
            && (a in s.adjRibIn && p in s.adjRibIn[a] ==>
                  r.adjRibIn[a][p] == if a == addr && p in ps then s.adjRibIn[a][p].(receivedAt := now) else s.adjRibIn[a][p])
  {
    var t := TableOf(s.adjRibIn, addr);
    assert RenewedTable(t, ps, now).Keys == t.Keys;
    assert t == map[] <==> t.Keys == {};
    assert RenewedTable(t, ps, now) == map[] <==> RenewedTable(t, ps, now).Keys == {};
  }

  lemma RenewedJudges(s: Speaker, addr: Address, ps: set<Prefix>, now: nat, path: BgpPath)
    requires addr in s.peers
    ensures Stale(Renewed(s, addr, ps, now), path) <==> Stale(s, path)
  {}

  lemma RenewedElsewhere(s: Speaker, addr: Address, ps: set<Prefix>, now: nat, q: Prefix)
    requires WellKeyed(s) && addr in s.peers && q !in ps
    ensures AlikeAt(Renewed(s, addr, ps, now), s, q)
  {
    var r := Renewed(s, addr, ps, now);
    RenewedStored(s, addr, ps, now, addr, q);
    forall a | a in r.adjRibIn
      ensures (q in r.adjRibIn[a] <==> q in s.adjRibIn[a]) && (q in r.adjRibIn[a] ==> r.adjRibIn[a][q] == s.adjRibIn[a][q])
    {
      RenewedStored(s, addr, ps, now, a, q);
    }
    forall path ensures Stale(r, path) <==> Stale(s, path) {
      RenewedJudges(s, addr, ps, now, path);
    }
  }

  lemma RepeatsAgain(s: Speaker, addr: Address, p: Prefix, now: nat)
    requires WellKeyed(s) && addr in s.peers && p in TableOf(s.adjRibIn, addr) && TableOf(s.adjRibIn, addr)[p].receivedAt <= now
    ensures var path := Again(s, addr, p, now); path.prefix == p && Repeats(s, addr, path)
  {
    assert KeyedTable(addr, s.adjRibIn[addr]);
  }

  lemma RenewedHere(s: Speaker, addr: Address, ps: set<Prefix>, now: nat, p: Prefix)
    requires WellKeyed(s) && addr in s.peers && p in ps && p in TableOf(s.adjRibIn, addr)
    requires TableOf(s.adjRibIn, addr)[p].receivedAt <= now
    ensures AlikeAt(Renewed(s, addr, ps, now), InstallPath(s, addr, Again(s, addr, p, now)), p)
  {
    var path := Again(s, addr, p, now);
    var r, i := Renewed(s, addr, ps, now), InstallPath(s, addr, path);
    RepeatsAgain(s, addr, p, now);
    RepeatUnflagged(s, addr, path);
    RenewedStored(s, addr, ps, now, addr, p);
    forall a | a in r.adjRibIn
      ensures (p in r.adjRibIn[a] <==> p in i.adjRibIn[a]) && (p in r.adjRibIn[a] ==> r.adjRibIn[a][p] == i.adjRibIn[a][p])
    {
      RenewedStored(s, addr, ps, now, a, p);
      if p in s.adjRibIn[a] {
        InstalledAt(s, addr, path, a, p);
      }
    }
    forall x ensures Stale(r, x) <==> Stale(i, x) {
      RenewedJudges(s, addr, ps, now, x);
      RepeatJudges(s, addr, path, x);
    }
  }

  // ------------------------------------------------------------- the exact condition

  /** The repeated routes were received no later than now, and none is part of a circle of preference. */
  ghost predicate Comparable(s: Speaker, addr: Address, ps: set<Prefix>, now: nat) {
    && ps <= TableOf(s.adjRibIn, addr).Keys
    && forall p :: p in ps ==> TableOf(s.adjRibIn, addr)[p].receivedAt <= now && Decision.NoCircle(Learned(s, p))
  }

  /** Every one of the announcements is harmless by itself. */
  ghost predicate AllHarmless(s: Speaker, addr: Address, ps: set<Prefix>, now: nat)
    requires addr in s.peers
  {
    forall p :: p in ps ==> p in TableOf(s.adjRibIn, addr) && HarmlessAgain(s, addr, p, now)
  }

  ghost predicate HarmlessAgain(s: Speaker, addr: Address, p: Prefix, now: nat)
    requires p in TableOf(s.adjRibIn, addr)
  {
    var path := Again(s, addr, p, now);
    path.prefix in s.locRib && Repeats(s, addr, path) && Harmless(s, addr, path)
  }

  lemma RepeatedWinners(s: Speaker, addr: Address, ps: set<Prefix>, now: nat, q: Prefix)
    requires WellKeyed(s) && addr in s.peers && Comparable(s, addr, ps, now)
    ensures var r := Renewed(s, addr, ps, now);
            && (q !in ps ==> Winner(r, q) == Winner(s, q))
            && (q in ps ==> Winner(s, q).Some? && Winner(r, q).Some?
                            && Winner(r, q) == Winner(InstallPath(s, addr, Again(s, addr, q, now)), q))
  {
    if q !in ps {
      RenewedElsewhere(s, addr, ps, now, q);
      WinnerAlike(Renewed(s, addr, ps, now), s, q);
    } else {
      RepeatsAgain(s, addr, q, now);
      RenewedHere(s, addr, ps, now, q);
      WinnerAlike(Renewed(s, addr, ps, now), InstallPath(s, addr, Again(s, addr, q, now)), q);
      RepeatWinners(s, addr, Again(s, addr, q, now));
    }
  }

  lemma RenewedPrefixes(s: Speaker, addr: Address, ps: set<Prefix>, now: nat)
    requires WellKeyed(s) && addr in s.peers
    ensures AllPrefixes(Renewed(s, addr, ps, now)) == AllPrefixes(s)
  {
    var r := Renewed(s, addr, ps, now);
    forall p ensures p in AllPrefixes(r) <==> p in AllPrefixes(s) {
      RenewedStored(s, addr, ps, now, addr, p);
      if a :| a in s.adjRibIn && p in s.adjRibIn[a] {
        RenewedStored(s, addr, ps, now, a, p);
      }
      if a :| a in r.adjRibIn && p in r.adjRibIn[a] {
        RenewedStored(s, addr, ps, now, a, p);
      }
    }
  }

  lemma RepeatedDiffer(s: Speaker, addr: Address, ps: set<Prefix>, now: nat, d: Table, e: Table, q: Prefix)
    requires WellKeyed(s) && addr in s.peers && Comparable(s, addr, ps, now)
    requires d == Decide(s) && e == Decide(Renewed(s, addr, ps, now))
    ensures DifferWithin(s, Renewed(s, addr, ps, now), d, e, ps, q)
  {
    RenewedPrefixes(s, addr, ps, now);
    DecidesWinner(s, d, q);
    DecidesWinner(Renewed(s, addr, ps, now), e, q);
    RepeatedWinners(s, addr, ps, now, q);
    if q in ps {
      LearnedHere(s, addr, q);
      PrefixKnown(s, TableOf(s.adjRibIn, addr)[q], q);
    }
  }

  lemma RepeatedEntry(s: Speaker, addr: Address, ps: set<Prefix>, now: nat, d: Table, e: Table, p: Prefix)
    requires WellKeyed(s) && addr in s.peers && Comparable(s, addr, ps, now) && SameRib(s.locRib, d) && p in ps
    requires DifferWithin(s, Renewed(s, addr, ps, now), d, e, ps, p)
    ensures p in s.locRib && p in e && p in TableOf(s.adjRibIn, addr)
    ensures s.locRib[p].SameRouteAs(e[p]) <==> HarmlessAgain(s, addr, p, now)
  {
    RepeatsAgain(s, addr, p, now);
    RepeatedWinners(s, addr, ps, now, p);
    RepeatSettles(s, addr, Again(s, addr, p, now));
  }

  lemma RenewedIff(s: Speaker, addr: Address, ps: set<Prefix>, now: nat, d: Table, e: Table)
    requires WellKeyed(s) && addr in s.peers && Comparable(s, addr, ps, now) && SameRib(s.locRib, d)
    requires d == Decide(s) && e == Decide(Renewed(s, addr, ps, now))
    ensures SameRib(s.locRib, e) <==> AllHarmless(s, addr, ps, now)
  {
    var r := Renewed(s, addr, ps, now);
    forall q ensures DifferWithin(s, r, d, e, ps, q) {
      RepeatedDiffer(s, addr, ps, now, d, e, q);
    }
    DifferOnlyWithin(s, r, d, e, ps);
    forall p | p in ps
      ensures p in s.locRib && p in e && p in TableOf(s.adjRibIn, addr)
      ensures s.locRib[p].SameRouteAs(e[p]) <==> HarmlessAgain(s, addr, p, now)
    {
      RepeatedEntry(s, addr, ps, now, d, e, p);
    }
  }

  /**
   Any UPDATE that leaves the flag clear, on a coherent Loc-RIB: the Loc-RIB stays coherent
   if and only if each route it repeats was harmless to repeat.
   */
  lemma UpdateIsCoherentIff(s: Speaker, addr: Address, u: Update, now: nat)
    requires WellKeyed(s) && Coherent(s) && IsUp(s, addr) && !IsEndOfRib(u)
    requires !Apply(s, Receive(addr, u, now)).dirty && Comparable(s, addr, Repeated(s, addr, u), now)
    ensures Coherent(Apply(s, Receive(addr, u, now))) <==> AllHarmless(s, addr, Repeated(s, addr, u), now)
  {
    UpdateUnflagged(s, addr, u, now);
    var r := Renewed(s, addr, Repeated(s, addr, u), now);
    RenewedIff(s, addr, Repeated(s, addr, u), now, Decide(s), Decide(r));
  }

  // -------------------------------------------- told before the UPDATE is handled

  /** The announcement of `p` is skipped, withdraws nothing stored, or repeats what is stored. */
  predicate ChangesNothing(s: Speaker, addr: Address, attrs: PathAttributes, p: Prefix)
    requires addr in s.peers
  {
    var t := TableOf(s.adjRibIn, addr);
    match EventFor(s, addr, attrs, p, 0)
    case Keep => true
    case Remove(q) => q !in t
    case Install(path) => p in t && t[p].SameRouteAs(path)
  }

  /** Nothing stored is withdrawn, and every prefix is announced as it is stored, within the limit. */
  ghost predicate OnlyRepeats(s: Speaker, addr: Address, u: Update)
    requires addr in s.peers
  {
    && (forall p :: p in u.withdrawn ==> p !in TableOf(s.adjRibIn, addr))
    && u.attributes.Some? && u.nlri != [] && CheckAttributes(s.me, s.peers[addr].config, u.attributes.value).Usable?
    && (forall p :: p in u.nlri ==> ChangesNothing(s, addr, u.attributes.value, p))
    && |TableOf(s.adjRibIn, addr)| <= s.peers[addr].config.maxPrefixes
  }

  lemma {:induction false} NothingWithdrawn(s: Speaker, addr: Address, ps: seq<Prefix>)
    requires forall p :: p in ps ==> p !in TableOf(s.adjRibIn, addr)
    ensures WithdrawAll(s, addr, ps) == s
    decreases |ps|
  {
    if ps != [] {
      NothingWithdrawn(s, addr, ps[..|ps| - 1]);
    }
  }

  lemma RenewedSize(t: Table, ps: set<Prefix>, now: nat)
    ensures |RenewedTable(t, ps, now)| == |t|
  {
    assert RenewedTable(t, ps, now).Keys == t.Keys;
  }

  lemma RepeatStep(s: Speaker, addr: Address, attrs: PathAttributes, ps: set<Prefix>, p: Prefix, now: nat)
    requires addr in s.peers && !s.dirty && ChangesNothing(s, addr, attrs, p)
    ensures var b := Renewed(s, addr, ps, now);
            ApplyEvent(b, addr, EventFor(b, addr, attrs, p, now)) ==
            Renewed(s, addr, ps + if Accepts(s, addr, attrs, p) then {p} else {}, now)
  {
    var b := Renewed(s, addr, ps, now);
    RenewedLook(s, addr, ps, now);
    SameEvent(s, b, addr, attrs, p, now);
    assert !ApplyEvent(b, addr, EventFor(b, addr, attrs, p, now)).dirty;
    RenewStep(s, addr, attrs, ps, p, now);
  }

  lemma {:induction false} AnnounceRepeats(s: Speaker, addr: Address, attrs: PathAttributes, ps: seq<Prefix>, now: nat)
    requires WellKeyed(s) && addr in s.peers && !s.dirty && forall p :: p in ps ==> ChangesNothing(s, addr, attrs, p)
    requires |TableOf(s.adjRibIn, addr)| <= s.peers[addr].config.maxPrefixes
    ensures AnnounceAll(s, addr, attrs, ps, now) == (Renewed(s, addr, AcceptedOf(s, addr, attrs, ps), now), false)
    decreases |ps|
  {
    if ps == [] {
      RenewedNothing(s, addr, now);
      assert AcceptedOf(s, addr, attrs, ps) == {};
    } else {
      var n := |ps| - 1;
      AnnounceRepeats(s, addr, attrs, ps[..n], now);
      AcceptedSnoc(s, addr, attrs, ps);
      RepeatStep(s, addr, attrs, AcceptedOf(s, addr, attrs, ps[..n]), ps[n], now);
      RenewedLook(s, addr, AcceptedOf(s, addr, attrs, ps), now);
      RenewedSize(TableOf(s.adjRibIn, addr), AcceptedOf(s, addr, attrs, ps), now);
    }
  }

  lemma OnlyRepeatsUnflagged(s: Speaker, addr: Address, u: Update, now: nat)
    requires WellKeyed(s) && addr in s.peers && !s.dirty && OnlyRepeats(s, addr, u)
    ensures HandleUpdate(s, addr, u, now) == Renewed(s, addr, Repeated(s, addr, u), now) && !HandleUpdate(s, addr, u, now).dirty
  {
    NothingWithdrawn(s, addr, u.withdrawn);
    AnnounceRepeats(s, addr, u.attributes.value, u.nlri, now);
    RenewedLook(s, addr, Repeated(s, addr, u), now);
  }

  /**
   An UPDATE that only repeats stored routes, any number of them, on a coherent Loc-RIB with
   a clear flag: the flag stays clear, and the Loc-RIB stays coherent if and only if each
   route was harmless to repeat.
   */
  lemma RepeatingUpdateIsCoherentIff(s: Speaker, addr: Address, u: Update, now: nat)
    requires WellKeyed(s) && !s.dirty && Coherent(s) && IsUp(s, addr)
    requires OnlyRepeats(s, addr, u) && Comparable(s, addr, Repeated(s, addr, u), now)
    ensures var r := Apply(s, Receive(addr, u, now));
            !r.dirty && (Coherent(r) <==> AllHarmless(s, addr, Repeated(s, addr, u), now))
  {
    OnlyRepeatsUnflagged(s, addr, u, now);
    UpdateIsCoherentIff(s, addr, u, now);
  }
}
