/**
 What one UPDATE does to the state, prefix by prefix: what is stored, with which attributes,
 what goes, what stays, and when the session is reset instead.
 */
module ImportEffect {
  import opened BgpTypes
  import opened Propagation
  import opened Speaker
  import opened SpeakerRuns
  import opened PeerSessions

  // ------------------------------------------------------- what attributes say

  /** Neither unspecified, nor loopback 127/8, nor multicast 224/4, nor broadcast. */
  predicate GoodNextHop(a: Address) {
    a != 0 && !(0x7F00_0000 <= a < 0x8000_0000) && !(0xE000_0000 <= a < 0xF000_0000) && a != 0xFFFF_FFFF
  }

  /** From another AS the path must name somebody, and first the neighbour itself unless that is not enforced. */
  predicate GoodPath(me: Identity, c: PeerConfig, path: AsPath) {
    c.remoteAs == me.localAs
    || (&& path.Flatten() != []
        && (c.enforceFirstAs ==>
              path.segments[0].kind.AsSequence? && path.segments[0].asns != [] && path.segments[0].asns[0] == c.remoteAs))
  }

  /** The announcement has been here before, by AS, by originator or by cluster. */
  predicate BeenHere(me: Identity, attrs: PathAttributes) {
    || attrs.originatorId == Some(me.routerId)
    || (if me.clusterId.Some? then me.clusterId.value else me.routerId) in attrs.clusterList
    || me.localAs in attrs.asPath.Flatten()
  }

  /** Exactly when attributes reset the session, and why, when they are a loop, and when they are used. */
  lemma CheckIff(me: Identity, c: PeerConfig, attrs: PathAttributes)
    ensures var check := CheckAttributes(me, c, attrs);
            && (check == Reset(Notification(3, 8)) <==> !GoodNextHop(attrs.nextHop))
            && (check == Reset(Notification(3, 11)) <==> GoodNextHop(attrs.nextHop) && !GoodPath(me, c, attrs.asPath))
            && (check.Reset? <==> !GoodNextHop(attrs.nextHop) || !GoodPath(me, c, attrs.asPath))
            && (check.Looped? <==>
                  GoodNextHop(attrs.nextHop) && GoodPath(me, c, attrs.asPath) && BeenHere(me, attrs))
  {
    NonEmptyFlatten(attrs.asPath);
    ContainsFlatten(attrs.asPath, me.localAs);
  }

  // ------------------------------------------------------------- what is stored

  /** `x` is the route to `p` as `attrs` announced it and the peer's import policy changed it. */
  ghost predicate StoredAs(me: Identity, peer: Peer, attrs: PathAttributes, p: Prefix, now: nat, x: BgpPath) {
    var c := peer.config;
    var policy := c.importPolicy(p);
    && policy.Permitted?
    && x.prefix == p && x.peerAddr == c.addr && x.peerAs == c.remoteAs && x.fromClient == c.isClient && x.receivedAt == now
    && x.peerRouterId == (if peer.remoteRouterId.Some? then peer.remoteRouterId.value else c.addr)
    && x.source == (if c.remoteAs == me.localAs then Ibgp else Ebgp)
    && x.origin == attrs.origin && x.asPath == attrs.asPath && x.nextHop == attrs.nextHop
    && x.atomicAggregate == attrs.atomicAggregate && x.originatorId == attrs.originatorId && x.clusterList == attrs.clusterList
    && x.med == (if policy.setMed.Some? then policy.setMed else attrs.med)
    && (policy.setLocalPref.Some? ==> x.localPref == policy.setLocalPref.value)
    && (policy.setLocalPref.None? && attrs.localPref.Some? ==> x.localPref == attrs.localPref.value)
    && (policy.setLocalPref.None? && attrs.localPref.None? ==> x.localPref == 100)
  }

  /** Whether an announcement of `p` with these attributes replaces what is stored for it. */
  predicate Foreign(peer: Peer, attrs: PathAttributes) {
    attrs.nextHop != peer.config.localAddr
  }

  /** What is stored for `p` after it was announced in `ps`, or was not. */
  ghost predicate AnnouncedAt(s: Speaker, r: Speaker, addr: Address, attrs: PathAttributes, ps: seq<Prefix>, now: nat, p: Prefix)
    requires addr in s.peers && addr in r.peers
  {
    var before, after := Look(TableOf(s.adjRibIn, addr), p), Look(TableOf(r.adjRibIn, addr), p);
    var marked := p in s.peers[addr].refreshStale;
    var marking := p in r.peers[addr].refreshStale;
    if p !in ps || !Foreign(s.peers[addr], attrs) then after == before && marking == marked
    else if s.peers[addr].config.importPolicy(p).Denied? then after.None? && marking == marked
    else after.Some? && StoredAs(s.me, s.peers[addr], attrs, p, now, after.value) && !marking
  }

  ghost predicate Untouched(s: Speaker, r: Speaker, addr: Address) {
    && r.me == s.me && r.originated == s.originated && r.locRib == s.locRib && r.grEnabled == s.grEnabled
    && r.peers.Keys == s.peers.Keys
    && (forall a :: a in s.peers && a != addr ==> r.peers[a] == s.peers[a])
    && (forall a :: a != addr ==> TableOf(r.adjRibIn, a) == TableOf(s.adjRibIn, a))
    && (addr in s.peers ==> r.peers[addr] == s.peers[addr].(refreshStale := r.peers[addr].refreshStale))
  }

  lemma EventUntouched(s: Speaker, addr: Address, e: TableEvent)
    requires addr in s.peers
    ensures Untouched(s, ApplyEvent(s, addr, e), addr)
  {}

  lemma ImportedEvent(me: Identity, peer: Peer, attrs: PathAttributes, q: Prefix, now: nat)
    ensures var e := ImportPrefix(me, peer.config, peer.remoteRouterId, attrs, q, now);
            if !Foreign(peer, attrs) then e.Keep?
            else if peer.config.importPolicy(q).Denied? then e == Remove(q)
            else e.Install? && e.path.prefix == q && StoredAs(me, peer, attrs, q, now, e.path)
  {}

  lemma {:induction false} EventAt(s: Speaker, addr: Address, attrs: PathAttributes, q: Prefix, now: nat, p: Prefix)
    requires addr in s.peers
    ensures AnnouncedAt(s, ApplyEvent(s, addr, EventFor(s, addr, attrs, q, now)), addr, attrs, [q], now, p)
  {
    var e := EventFor(s, addr, attrs, q, now);
    EventPlays(s, addr, e);
    ImportedEvent(s.me, s.peers[addr], attrs, q, now);
    EventLooks(s, ApplyEvent(s, addr, e), addr, e, p);
  }

  /** Playing one event, looked at in one place. */
  lemma EventLooks(s: Speaker, r: Speaker, addr: Address, e: TableEvent, p: Prefix)
    requires addr in s.peers && addr in r.peers && TableOf(r.adjRibIn, addr) == PlayOne(TableOf(s.adjRibIn, addr), e)
    ensures var after := Look(TableOf(r.adjRibIn, addr), p);
            if e.Install? && e.path.prefix == p then after == Some(e.path)
            else if e.Remove? && e.prefix == p then after.None?
            else after == Look(TableOf(s.adjRibIn, addr), p)
  {}

  lemma AnnouncedThen(s: Speaker, m: Speaker, r: Speaker, addr: Address, attrs: PathAttributes, ps: seq<Prefix>, q: Prefix,
                      now: nat, p: Prefix)
    requires addr in s.peers && Untouched(s, m, addr) && Untouched(m, r, addr)
    requires AnnouncedAt(s, m, addr, attrs, ps, now, p) && AnnouncedAt(m, r, addr, attrs, [q], now, p)
    ensures AnnouncedAt(s, r, addr, attrs, ps + [q], now, p)
  {}

  lemma {:induction false} AnnounceAt(s: Speaker, addr: Address, attrs: PathAttributes, ps: seq<Prefix>, now: nat, p: Prefix)
    requires addr in s.peers
    ensures Untouched(s, AnnounceAll(s, addr, attrs, ps, now).0, addr)
    ensures !AnnounceAll(s, addr, attrs, ps, now).1 ==>
              AnnouncedAt(s, AnnounceAll(s, addr, attrs, ps, now).0, addr, attrs, ps, now, p)
    decreases |ps|
  {
    if ps != [] {
      var n := |ps| - 1;
      var m := AnnounceAll(s, addr, attrs, ps[..n], now).0;
      AnnounceAt(s, addr, attrs, ps[..n], now, p);
      var e := EventFor(m, addr, attrs, ps[n], now);
      EventUntouched(m, addr, e);
      EventAt(m, addr, attrs, ps[n], now, p);
      if !AnnounceAll(s, addr, attrs, ps, now).1 {
        AnnouncedThen(s, m, ApplyEvent(m, addr, e), addr, attrs, ps[..n], ps[n], now, p);
        assert ps[..n] + [ps[n]] == ps;
      }
    }
  }

  lemma {:induction false} WithdrawAt(s: Speaker, addr: Address, ps: seq<Prefix>, p: Prefix)
    ensures var r := WithdrawAll(s, addr, ps);
            && Look(TableOf(r.adjRibIn, addr), p) == (if p in ps then None else Look(TableOf(s.adjRibIn, addr), p))
            && Untouched(s, r, addr) && r.peers == s.peers
            && (r.dirty <==> s.dirty || exists q :: q in ps && q in TableOf(s.adjRibIn, addr))
    decreases |ps|
  {
    if ps != [] {
      var n := |ps| - 1;
      WithdrawAt(s, addr, ps[..n], p);
      WithdrawAt(s, addr, ps[..n], ps[n]);
      RemoveAt(WithdrawAll(s, addr, ps[..n]), addr, ps[n], p);
      assert ps == ps[..n] + [ps[n]];
    }
  }

  lemma RemoveAt(s: Speaker, addr: Address, q: Prefix, p: Prefix)
    ensures var r := RemovePath(s, addr, q);
            && Look(TableOf(r.adjRibIn, addr), p) == (if p == q then None else Look(TableOf(s.adjRibIn, addr), p))
            && Untouched(s, r, addr) && r.peers == s.peers
            && (r.dirty <==> s.dirty || q in TableOf(s.adjRibIn, addr))
  {
    SetTableLook(s, addr, TableOf(s.adjRibIn, addr) - {q});
  }

  // ------------------------------------------------------------- dirty flag

  lemma EventFlags(s: Speaker, addr: Address, e: TableEvent)
    requires addr in s.peers
    ensures var r := ApplyEvent(s, addr, e);
            r.dirty <==> s.dirty || !SameRib(TableOf(s.adjRibIn, addr), TableOf(r.adjRibIn, addr))
  {
    var r := ApplyEvent(s, addr, e);
    var t, t' := TableOf(s.adjRibIn, addr), TableOf(r.adjRibIn, addr);
    EventPlays(s, addr, e);
    match e
    case Keep =>
      SameRibReflexive(t);
    case Remove(p) =>
      if p !in t {
        assert t - {p} == t;
        SameRibReflexive(t);
      } else {
        assert p !in t' && p in t.Keys;
      }
    case Install(path) =>
      assert t' == t[path.prefix := path];
      if path.prefix in t && t[path.prefix].SameRouteAs(path) {
        assert t'.Keys == t.Keys;
      } else if path.prefix !in t {
        assert path.prefix in t'.Keys;
      }
  }

  lemma DifferLooked(t: Table, u: Table)
    ensures SameRib(t, u) <==> forall p :: SameLook(Look(t, p), Look(u, p))
  {
    if SameRib(t, u) {
      forall p ensures SameLook(Look(t, p), Look(u, p)) {
        assert p in t <==> p in t.Keys;
      }
    }
    if forall p :: SameLook(Look(t, p), Look(u, p)) {
      assert forall p :: p in t.Keys ==> Look(t, p).Some? && SameLook(Look(t, p), Look(u, p));
      assert forall p :: p in u.Keys ==> Look(u, p).Some? && SameLook(Look(t, p), Look(u, p));
    }
  }

  predicate SameLook(x: Option<BgpPath>, y: Option<BgpPath>) {
    (x.Some? <==> y.Some?) && (x.Some? ==> x.value.SameRouteAs(y.value))
  }

  /** What one more prefix changes is a change of the whole list: nothing is changed and changed back. */
  lemma NothingChangesBack(s: Speaker, m: Speaker, r: Speaker, addr: Address, attrs: PathAttributes, ps: seq<Prefix>,
                           q: Prefix, now: nat)
    requires addr in s.peers && Untouched(s, m, addr) && Untouched(m, r, addr)
    requires forall p :: AnnouncedAt(s, m, addr, attrs, ps, now, p) && AnnouncedAt(m, r, addr, attrs, [q], now, p)
    ensures var t, t', t'' := TableOf(s.adjRibIn, addr), TableOf(m.adjRibIn, addr), TableOf(r.adjRibIn, addr);
            SameRib(t, t'') <==> SameRib(t, t') && SameRib(t', t'')
  {
    var t, t', t'' := TableOf(s.adjRibIn, addr), TableOf(m.adjRibIn, addr), TableOf(r.adjRibIn, addr);
    DifferLooked(t, t'');
    DifferLooked(t, t');
    DifferLooked(t', t'');
    forall p
      ensures SameLook(Look(t, p), Look(t'', p)) <==>
                SameLook(Look(t, p), Look(t', p)) && SameLook(Look(t', p), Look(t'', p))
    {
      assert AnnouncedAt(s, m, addr, attrs, ps, now, p) && AnnouncedAt(m, r, addr, attrs, [q], now, p);
    }
  }

  lemma {:induction false} AnnounceFlags(s: Speaker, addr: Address, attrs: PathAttributes, ps: seq<Prefix>, now: nat)
    requires addr in s.peers && !AnnounceAll(s, addr, attrs, ps, now).1
    ensures var r := AnnounceAll(s, addr, attrs, ps, now).0;
            r.dirty <==> s.dirty || !SameRib(TableOf(s.adjRibIn, addr), TableOf(r.adjRibIn, addr))
    decreases |ps|
  {
    if ps == [] {
      SameRibReflexive(TableOf(s.adjRibIn, addr));
    } else {
      var n := |ps| - 1;
      var m := AnnounceAll(s, addr, attrs, ps[..n], now).0;
      AnnounceFlags(s, addr, attrs, ps[..n], now);
      AnnounceAt(s, addr, attrs, ps[..n], now, ps[n]);
      var e := EventFor(m, addr, attrs, ps[n], now);
      EventFlags(m, addr, e);
      EventUntouched(m, addr, e);
      forall p
        ensures AnnouncedAt(s, m, addr, attrs, ps[..n], now, p)
        ensures AnnouncedAt(m, ApplyEvent(m, addr, e), addr, attrs, [ps[n]], now, p)
      {
        AnnounceAt(s, addr, attrs, ps[..n], now, p);
        EventAt(m, addr, attrs, ps[n], now, p);
      }
      NothingChangesBack(s, m, ApplyEvent(m, addr, e), addr, attrs, ps[..n], ps[n], now);
    }
  }

  // ----------------------------------------------------------- prefix limit

  /** Some announced prefix is there to be stored. */
  ghost predicate StoresSome(peer: Peer, attrs: PathAttributes, ps: seq<Prefix>) {
    Foreign(peer, attrs) && exists p :: p in ps && peer.config.importPolicy(p).Permitted?
  }

  lemma {:induction false} LimitIff(s: Speaker, addr: Address, attrs: PathAttributes, ps: seq<Prefix>, now: nat)
    requires addr in s.peers
    ensures var (r, over) := AnnounceAll(s, addr, attrs, ps, now);
            && (over ==> |TableOf(r.adjRibIn, addr)| > s.peers[addr].config.maxPrefixes
                         && StoresSome(s.peers[addr], attrs, ps))
            && (!over && StoresSome(s.peers[addr], attrs, ps) ==>
                  |TableOf(r.adjRibIn, addr)| <= s.peers[addr].config.maxPrefixes)
    decreases |ps|
  {
    if ps != [] {
      var n := |ps| - 1;
      LimitIff(s, addr, attrs, ps[..n], now);
      var (m, over) := AnnounceAll(s, addr, attrs, ps[..n], now);
      assert ps == ps[..n] + [ps[n]];
      if !over {
        AnnounceAt(s, addr, attrs, ps[..n], now, ps[n]);
        LimitOne(m, addr, attrs, ps[n], now);
      }
    }
  }

  lemma LimitOne(m: Speaker, addr: Address, attrs: PathAttributes, q: Prefix, now: nat)
    requires addr in m.peers
    ensures var e := EventFor(m, addr, attrs, q, now);
            var r := ApplyEvent(m, addr, e);
            && (e.Install? <==> StoresSome(m.peers[addr], attrs, [q]))
            && (!e.Install? ==> |TableOf(r.adjRibIn, addr)| <= |TableOf(m.adjRibIn, addr)|)
  {
    var e := EventFor(m, addr, attrs, q, now);
    ImportedEvent(m.me, m.peers[addr], attrs, q, now);
    EventPlays(m, addr, e);
    assert q in [q];
    if e.Remove? {
      Shrinks(TableOf(m.adjRibIn, addr), q);
    }
  }

  lemma Shrinks(t: Table, p: Prefix)
    ensures |t - {p}| <= |t|
  {
    assert (t - {p}).Keys == t.Keys - {p} && |t.Keys - {p}| <= |t.Keys|;
  }

  // ------------------------------------------------------------ whole UPDATE

  predicate Announces(u: Update) {
    u.attributes.Some? && u.nlri != []
  }

  /** The UPDATE announces something and its attributes pass every check. */
  predicate Accepts(me: Identity, c: PeerConfig, u: Update) {
    && Announces(u) && GoodNextHop(u.attributes.value.nextHop) && GoodPath(me, c, u.attributes.value.asPath)
    && !BeenHere(me, u.attributes.value)
  }

  /** What is left of a table once the withdrawn prefixes are gone. */
  function Withdrawn(t: Table, ps: seq<Prefix>): Table {
    map p | p in t && p !in ps :: t[p]
  }

  /** What an UPDATE makes of the table of its sender, and of the marks of a running refresh. */
  ghost predicate ImportedAt(s: Speaker, r: Speaker, addr: Address, u: Update, now: nat, p: Prefix)
    requires addr in s.peers && addr in r.peers
  {
    var peer := s.peers[addr];
    var after := Look(TableOf(r.adjRibIn, addr), p);
    var stored := Accepts(s.me, peer.config, u) && p in u.nlri && Foreign(peer, u.attributes.value);
    if !stored then
      after == (if p in u.withdrawn then None else Look(TableOf(s.adjRibIn, addr), p))
      && (p in r.peers[addr].refreshStale <==> p in peer.refreshStale)
    else if peer.config.importPolicy(p).Denied? then
      after.None? && (p in r.peers[addr].refreshStale <==> p in peer.refreshStale)
    else
      after.Some? && StoredAs(s.me, peer, u.attributes.value, p, now, after.value) && p !in r.peers[addr].refreshStale
  }

  /** Which notification answers an UPDATE, if any. */
  ghost predicate AnsweredBy(s: Speaker, r: Speaker, addr: Address, u: Update, note: Option<Notification>)
    requires addr in s.peers
  {
    var peer := s.peers[addr];
    if Announces(u) && !GoodNextHop(u.attributes.value.nextHop) then note == Some(Notification(3, 8))
    else if Announces(u) && !GoodPath(s.me, peer.config, u.attributes.value.asPath) then note == Some(Notification(3, 11))
    else if Accepts(s.me, peer.config, u) && StoresSome(peer, u.attributes.value, u.nlri) then
      note == if |TableOf(r.adjRibIn, addr)| > peer.config.maxPrefixes then Some(Notification(6, 1)) else None
    else note.None?
  }

  ghost predicate Imported(s: Speaker, r: Speaker, addr: Address, u: Update, now: nat, note: Option<Notification>)
    requires addr in s.peers
  {
    && Untouched(s, r, addr) && AnsweredBy(s, r, addr, u, note)
    && (note != Some(Notification(6, 1)) ==>
          && (forall p :: ImportedAt(s, r, addr, u, now, p))
          && (r.dirty <==> s.dirty || (exists q :: q in u.withdrawn && q in TableOf(s.adjRibIn, addr))
                           || !SameRib(Withdrawn(TableOf(s.adjRibIn, addr), u.withdrawn), TableOf(r.adjRibIn, addr))))
  }

  lemma WithdrawnTable(s: Speaker, addr: Address, ps: seq<Prefix>)
    ensures TableOf(WithdrawAll(s, addr, ps).adjRibIn, addr) == Withdrawn(TableOf(s.adjRibIn, addr), ps)
    ensures Untouched(s, WithdrawAll(s, addr, ps), addr) && WithdrawAll(s, addr, ps).peers == s.peers
    ensures WithdrawAll(s, addr, ps).dirty <==> s.dirty || exists q :: q in ps && q in TableOf(s.adjRibIn, addr)
  {
    var t, u := TableOf(WithdrawAll(s, addr, ps).adjRibIn, addr), Withdrawn(TableOf(s.adjRibIn, addr), ps);
    WithdrawAt(s, addr, ps, Prefix(0, 0));
    forall p ensures Look(t, p) == Look(u, p) {
      WithdrawAt(s, addr, ps, p);
    }
    LookExtensional(t, u);
  }

  lemma OnlyWithdrawn(s: Speaker, r: Speaker, addr: Address, u: Update, now: nat, note: Option<Notification>)
    requires addr in s.peers && !Accepts(s.me, s.peers[addr].config, u)
    requires AnsweredBy(s, r, addr, u, note) && Untouched(s, r, addr) && r.peers == s.peers
    requires TableOf(r.adjRibIn, addr) == Withdrawn(TableOf(s.adjRibIn, addr), u.withdrawn)
    requires r.dirty <==> s.dirty || exists q :: q in u.withdrawn && q in TableOf(s.adjRibIn, addr)
    ensures Imported(s, r, addr, u, now, note)
  {
    SameRibReflexive(TableOf(r.adjRibIn, addr));
  }

  lemma ThenAnnounced(s: Speaker, addr: Address, u: Update, now: nat)
    requires addr in s.peers && Accepts(s.me, s.peers[addr].config, u)
    ensures var s1 := WithdrawAll(s, addr, u.withdrawn);
            var (s2, over) := AnnounceAll(s1, addr, u.attributes.value, u.nlri, now);
            Imported(s, s2, addr, u, now, if over then Some(Notification(6, 1)) else None)
  {
    var s1 := WithdrawAll(s, addr, u.withdrawn);
    var (s2, over) := AnnounceAll(s1, addr, u.attributes.value, u.nlri, now);
    WithdrawnTable(s, addr, u.withdrawn);
    LimitIff(s1, addr, u.attributes.value, u.nlri, now);
    AnnounceAt(s1, addr, u.attributes.value, u.nlri, now, Prefix(0, 0));
    if !over {
      AnnounceFlags(s1, addr, u.attributes.value, u.nlri, now);
      forall p ensures ImportedAt(s, s2, addr, u, now, p) {
        AnnounceAt(s1, addr, u.attributes.value, u.nlri, now, p);
      }
    }
  }

  /**
   The whole effect of one UPDATE. What it withdraws goes. What it announces is stored as it
   was received, with the policy's LOCAL_PREF and MED where there are any, or goes if the
   policy denies it; an announcement that names our own address as next hop, or that has been
   here before, changes nothing. Nothing else changes but the dirty flag, which is set by
   exactly a removed or altered route. Unusable attributes and one prefix too many are
   answered by their notification, and nothing else is.
   */
  lemma UpdateEffect(s: Speaker, addr: Address, u: Update, now: nat)
    requires addr in s.peers
    ensures Imported(s, ImportUpdate(s, addr, u, now).0, addr, u, now, ImportUpdate(s, addr, u, now).1)
  {
    if Announces(u) {
      CheckIff(s.me, s.peers[addr].config, u.attributes.value);
    }
    if Accepts(s.me, s.peers[addr].config, u) {
      ThenAnnounced(s, addr, u, now);
    } else {
      WithdrawnTable(s, addr, u.withdrawn);
      OnlyWithdrawn(s, WithdrawAll(s, addr, u.withdrawn), addr, u, now, ImportUpdate(s, addr, u, now).1);
    }
  }

  /** A notification ends the session: the peer is idle and nothing of it is kept. */
  lemma NotifiedIsGone(s: Speaker, addr: Address, u: Update, now: nat)
    requires addr in s.peers && ImportUpdate(s, addr, u, now).1.Some?
    ensures var r := HandleUpdate(s, addr, u, now);
            && addr !in r.adjRibIn && r.peers[addr].state.Idle? && r.peers[addr].grStale == {} && r.dirty
            && r.peers[addr].grDeadline.None? && r.peers[addr].config == s.peers[addr].config
            && forall a :: a != addr ==> TableOf(r.adjRibIn, a) == TableOf(s.adjRibIn, a)
  {
    UpdateEffect(s, addr, u, now);
  }
}
