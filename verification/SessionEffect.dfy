/**
 What session events and settings do to one peer: to the retained families, the deadline, the
 cutoff and the stored paths at the end of a session, at the replacement OPEN, at End-of-RIB
 and in a refresh, and to the state and the configuration otherwise.
 */
module SessionEffect {
  import opened BgpTypes
  import opened Propagation
  import opened Speaker
  import opened SpeakerRuns
  import opened PeerSessions

  /** Routes of the peer are being kept for a restart. */
  predicate InRestart(p: Peer) {
    p.grDeadline.Some? && p.grStale != {}
  }

  /** The IPv4 paths received since the cutoff, and no other. */
  ghost predicate OnlyRecent(t: Table, after: Table, cutoff: Option<nat>) {
    forall p ::
      && (p in after <==> p in t && cutoff.Some? && t[p].receivedAt >= cutoff.value)
      && (p in after ==> after[p] == t[p])
  }

  ghost predicate OthersAlike(s: Speaker, r: Speaker, addr: Address) {
    && r.me == s.me && r.originated == s.originated && r.locRib == s.locRib && r.grEnabled == s.grEnabled
    && (forall a :: a != addr ==> TableOf(r.adjRibIn, a) == TableOf(s.adjRibIn, a))
    && r.peers.Keys == s.peers.Keys && forall a :: a in s.peers && a != addr ==> r.peers[a] == s.peers[a]
  }

  /** Of the peer, nothing differs but what belongs to its restart. */
  ghost predicate RestartOnly(p: Peer, q: Peer) {
    q == p.(grStale := q.grStale, grDeadline := q.grDeadline, grCutoff := q.grCutoff)
  }

  lemma SurvivorsAreRecent(t: Table, cutoff: Option<nat>)
    ensures OnlyRecent(t, Survivors(t, cutoff), cutoff)
  {}

  lemma PurgeEffect(s: Speaker, addr: Address)
    requires addr in s.peers
    ensures var r := PurgeStale(s, addr, IPV4_UNICAST);
            var t, after := TableOf(s.adjRibIn, addr), TableOf(r.adjRibIn, addr);
            && OnlyRecent(t, after, s.peers[addr].grCutoff) && OthersAlike(s, r, addr) && r.peers == s.peers
            && (r.dirty <==> s.dirty || after != t)
    ensures forall f :: f != IPV4_UNICAST ==> PurgeStale(s, addr, f) == s
  {
    SurvivorsAreRecent(TableOf(s.adjRibIn, addr), s.peers[addr].grCutoff);
    SetTableLook(s, addr, Survivors(TableOf(s.adjRibIn, addr), s.peers[addr].grCutoff));
  }

  // -------------------------------------------------------- end of a session

  /**
   Which families are kept when the session ends: none unless the transport failed; those
   already kept if the peer is restarting; otherwise, on an established session with the helper
   switched on, those negotiated families the peer's capability names and a helper can keep.
   */
  ghost predicate KeptAtLoss(p: Peer, helper: bool, why: Reason, f: Family) {
    && why.Transport?
    && if InRestart(p) then f in p.grStale
       else
         && p.state.Established? && helper && p.peerGr.Some? && p.peerGr.value.restartTime > 0
         && f in p.families && f in {Family(1, 1), Family(2, 1), Family(25, 70)}
         && exists g :: g in p.peerGr.value.families && g.family == f
  }

  lemma PreservedIff(p: Peer, helper: bool, why: Reason, f: Family)
    ensures f in Preserved(p, helper, why) <==> KeptAtLoss(p, helper, why, f)
  {}

  ghost predicate LostPeer(s: Speaker, p: Peer, q: Peer, why: Reason, now: nat) {
    && q.config == p.config && q.state.Idle? && q.remoteRouterId.None? && q.families == {} && q.peerGr.None?
    && !q.refreshInbound && q.refreshStale == {}
    && (forall f :: f in q.grStale <==> KeptAtLoss(p, s.grEnabled, why, f))
    && (if why.Transport? && InRestart(p) then q.grDeadline == p.grDeadline && q.grCutoff == p.grCutoff
        else q.grCutoff.None? && (q.grStale == {} ==> q.grDeadline.None?)
             && (q.grStale != {} ==> p.peerGr.Some? && q.grDeadline == Some(now + p.peerGr.value.restartTime * 1000)))
  }

  /** The whole effect of the end of a session: what is kept, for how long, and that everything else is forgotten. */
  lemma LossEffect(s: Speaker, addr: Address, why: Reason, now: nat)
    requires addr in s.peers
    ensures var r := Teardown(s, addr, why, now);
            && OthersAlike(s, r, addr) && r.dirty && LostPeer(s, s.peers[addr], r.peers[addr], why, now)
            && TableOf(r.adjRibIn, addr) ==
                 (if KeptAtLoss(s.peers[addr], s.grEnabled, why, IPV4_UNICAST) then TableOf(s.adjRibIn, addr) else map[])
  {
    var p := s.peers[addr];
    forall f ensures f in Preserved(p, s.grEnabled, why) <==> KeptAtLoss(p, s.grEnabled, why, f) {
      PreservedIff(p, s.grEnabled, why, f);
    }
  }

  // ---------------------------------------------------------- replacement OPEN

  /** Which families are still kept after the peer's new OPEN: those it restarts with and has kept forwarding. */
  ghost predicate KeptAtOpen(p: Peer, families: set<Family>, gr: Option<GrCapability>, f: Family) {
    && f in p.grStale && gr.Some? && gr.value.restarting && f in families
    && exists g :: g in gr.value.families && g.family == f && g.forwarding
  }

  lemma VouchedIff(p: Peer, families: set<Family>, gr: GrCapability, f: Family)
    ensures f in p.grStale * Vouched(gr, families) <==> f in p.grStale && f in families && exists g :: g in gr.families && g.family == f && g.forwarding
  {}

  ghost predicate ReopenedPeer(p: Peer, q: Peer, families: set<Family>, gr: Option<GrCapability>, now: nat) {
    if !InRestart(p) then q.grStale == p.grStale && q.grDeadline == p.grDeadline && q.grCutoff == p.grCutoff
    else
      && (forall f :: f in q.grStale <==> KeptAtOpen(p, families, gr, f))
      && (q.grStale != {} ==> q.grDeadline == p.grDeadline && q.grCutoff == Some(now))
      && (q.grStale == {} ==> q.grDeadline.None? && q.grCutoff.None?)
  }

  /** IPv4 paths go only if IPv4 was kept and the new OPEN no longer vouches for it; then those from before the old cutoff do. */
  ghost predicate ReopenedTable(p: Peer, families: set<Family>, gr: Option<GrCapability>, t: Table, after: Table) {
    if InRestart(p) && IPV4_UNICAST in p.grStale && !KeptAtOpen(p, families, gr, IPV4_UNICAST)
    then OnlyRecent(t, after, p.grCutoff) else after == t
  }

  lemma FlushEffect(s: Speaker, addr: Address)
    requires addr in s.peers
    ensures var r := Flush(s, addr);
            && OthersAlike(s, r, addr) && RestartOnly(s.peers[addr], r.peers[addr])
            && r.peers[addr].grStale == {} && r.peers[addr].grDeadline.None? && r.peers[addr].grCutoff.None?
            && (if IPV4_UNICAST in s.peers[addr].grStale
                then OnlyRecent(TableOf(s.adjRibIn, addr), TableOf(r.adjRibIn, addr), s.peers[addr].grCutoff)
                else TableOf(r.adjRibIn, addr) == TableOf(s.adjRibIn, addr))
            && (r.dirty <==> s.dirty || TableOf(r.adjRibIn, addr) != TableOf(s.adjRibIn, addr))
  {
    PurgeEffect(s, addr);
  }

  lemma NarrowEffect(s: Speaker, addr: Address, kept: set<Family>, now: nat)
    requires addr in s.peers && kept <= s.peers[addr].grStale
    ensures var r := Narrow(s, addr, kept, now);
            && OthersAlike(s, r, addr) && RestartOnly(s.peers[addr], r.peers[addr]) && r.peers[addr].grStale == kept
            && (kept != {} ==> r.peers[addr].grDeadline == s.peers[addr].grDeadline && r.peers[addr].grCutoff == Some(now))
            && (kept == {} ==> r.peers[addr].grDeadline.None? && r.peers[addr].grCutoff.None?)
            && (if IPV4_UNICAST in s.peers[addr].grStale && IPV4_UNICAST !in kept
                then OnlyRecent(TableOf(s.adjRibIn, addr), TableOf(r.adjRibIn, addr), s.peers[addr].grCutoff)
                else TableOf(r.adjRibIn, addr) == TableOf(s.adjRibIn, addr))
            && (r.dirty <==> s.dirty || TableOf(r.adjRibIn, addr) != TableOf(s.adjRibIn, addr))
  {
    PurgeEffect(s, addr);
  }

  lemma ReconcileEffect(s: Speaker, addr: Address, families: set<Family>, gr: Option<GrCapability>, now: nat)
    requires addr in s.peers
    ensures var r := ReconcileOpen(s, addr, families, gr, now);
            && OthersAlike(s, r, addr) && RestartOnly(s.peers[addr], r.peers[addr])
            && ReopenedPeer(s.peers[addr], r.peers[addr], families, gr, now)
            && ReopenedTable(s.peers[addr], families, gr, TableOf(s.adjRibIn, addr), TableOf(r.adjRibIn, addr))
            && (r.dirty <==> s.dirty || TableOf(r.adjRibIn, addr) != TableOf(s.adjRibIn, addr))
  {
    var p := s.peers[addr];
    if InRestart(p) {
      if gr.None? || !gr.value.restarting {
        FlushEffect(s, addr);
      } else {
        forall f ensures f in p.grStale * Vouched(gr.value, families) <==> KeptAtOpen(p, families, gr, f) {
          VouchedIff(p, families, gr.value, f);
        }
        NarrowEffect(s, addr, p.grStale * Vouched(gr.value, families), now);
      }
    }
  }

  /** The whole effect of an acceptable OPEN; in any other state than OpenSent it has none. */
  lemma OpenEffect(s: Speaker, addr: Address, routerId: Address, families: set<Family>, gr: Option<GrCapability>, now: nat)
    requires addr in s.peers
    ensures var p := s.peers[addr];
            var r := OpenAccepted(s, addr, routerId, families, gr, now);
            var q := r.peers[addr];
            if !p.state.OpenSent? then r == s
            else
              && OthersAlike(s, r, addr) && ReopenedPeer(p, q, families, gr, now)
              && q.state.OpenConfirm? && q.remoteRouterId == Some(routerId) && q.families == families && q.peerGr == gr
              && q.config == p.config && q.refreshInbound == p.refreshInbound && q.refreshStale == p.refreshStale
              && ReopenedTable(p, families, gr, TableOf(s.adjRibIn, addr), TableOf(r.adjRibIn, addr))
              && (r.dirty <==> s.dirty || TableOf(r.adjRibIn, addr) != TableOf(s.adjRibIn, addr))
  {
    ReconcileEffect(s, addr, families, gr, now);
  }

  // ---------------------------------------------------------------- End-of-RIB

  /** End-of-RIB ends the retention of one family, and with the last one the restart. */
  lemma EndOfRibEffect(s: Speaker, addr: Address, family: Family)
    requires addr in s.peers
    ensures var p := s.peers[addr];
            var r := CompleteFamily(s, addr, family);
            var q := r.peers[addr];
            if family !in p.grStale then r == s
            else
              && OthersAlike(s, r, addr) && RestartOnly(p, q) && q.grStale == p.grStale - {family}
              && (q.grStale != {} ==> q.grDeadline == p.grDeadline && q.grCutoff == p.grCutoff)
              && (q.grStale == {} ==> q.grDeadline.None? && q.grCutoff.None?)
              && (if family == IPV4_UNICAST
                  then OnlyRecent(TableOf(s.adjRibIn, addr), TableOf(r.adjRibIn, addr), p.grCutoff)
                  else TableOf(r.adjRibIn, addr) == TableOf(s.adjRibIn, addr))
              && (r.dirty <==> s.dirty || TableOf(r.adjRibIn, addr) != TableOf(s.adjRibIn, addr))
  {
    PurgeEffect(s, addr);
  }

  // ------------------------------------------------------------------- refresh

  /** BoRR marks what is held. */
  lemma BorrEffect(s: Speaker, addr: Address)
    requires addr in s.peers
    ensures var r := BeginRefresh(s, addr);
            && OthersAlike(s, r, addr) && TableOf(r.adjRibIn, addr) == TableOf(s.adjRibIn, addr) && r.dirty == s.dirty
            && r.peers[addr].refreshInbound && (forall p :: p in r.peers[addr].refreshStale <==> p in TableOf(s.adjRibIn, addr))
  {}

  /** EoRR removes what is still marked, and only after a BoRR. */
  lemma EorrEffect(s: Speaker, addr: Address)
    requires addr in s.peers
    ensures var p := s.peers[addr];
            var r := EndRefresh(s, addr);
            var t, after := TableOf(s.adjRibIn, addr), TableOf(r.adjRibIn, addr);
            if !p.refreshInbound then r == s
            else
              && OthersAlike(s, r, addr) && !r.peers[addr].refreshInbound && r.peers[addr].refreshStale == {}
              && (forall x :: Look(after, x) == if x in p.refreshStale then None else Look(t, x))
              && (r.dirty <==> s.dirty || exists x :: x in t && x in p.refreshStale)
  {
    var t := TableOf(s.adjRibIn, addr);
    SetTableLook(s, addr, t - s.peers[addr].refreshStale);
    if x :| x in t && x in s.peers[addr].refreshStale {
      assert x in t.Keys * s.peers[addr].refreshStale;
    }
  }

  // -------------------------------------------------- other events and settings

  /** Messages about routes are heard on an established session alone, and nothing is heard from an unknown neighbour. */
  lemma OnlyEstablishedListens(s: Speaker, op: Op)
    requires op.Receive? || op.Borr? || op.Eorr? || op.EndOfRib?
    requires op.addr in s.peers ==> s.peers[op.addr].state != Established
    ensures Apply(s, op) == s
  {}

  lemma UnknownIsIgnored(s: Speaker, op: Op)
    requires op.SendOpen? || op.Open? || op.Up? || op.Down? || op.SetRole? || op.Adoption? || op.Set?
    requires op.addr !in s.peers
    ensures Apply(s, op) == s
  {}

  /** An UPDATE with nothing in it is the End-of-RIB of IPv4; any other leaves the retention as it was, unless it ends the session. */
  lemma EmptyUpdateEndsRib(s: Speaker, addr: Address, u: Update, now: nat)
    requires addr in s.peers
    ensures u.withdrawn == [] && u.attributes.None? && u.nlri == [] ==> HandleUpdate(s, addr, u, now) == CompleteFamily(s, addr, Family(1, 1))
    ensures (u.withdrawn != [] || u.attributes.Some? || u.nlri != []) && ImportUpdate(s, addr, u, now).1.None? ==>
              HandleUpdate(s, addr, u, now) == ImportUpdate(s, addr, u, now).0
  {}

  /** Of the peer, nothing differs but the state of its session. */
  ghost predicate StateOnly(s: Speaker, r: Speaker, addr: Address, state: State)
    requires addr in s.peers
  {
    && OthersAlike(s, r, addr) && TableOf(r.adjRibIn, addr) == TableOf(s.adjRibIn, addr)
    && addr in r.peers && r.peers[addr] == s.peers[addr].(state := state)
  }

  /** The OPEN goes out once a session, KEEPALIVE establishes it and calls for a decision, an adoption starts over. */
  lemma ProgressEffect(s: Speaker, addr: Address)
    requires addr in s.peers
    ensures var r := OpenSentOn(s, addr);
            if s.peers[addr].state in {OpenSent, OpenConfirm, Established} then r == s
            else StateOnly(s, r, addr, OpenSent) && r.dirty == s.dirty
    ensures var r := SessionUp(s, addr);
            if s.peers[addr].state != OpenConfirm then r == s else StateOnly(s, r, addr, Established) && r.dirty
    ensures var r := Adopt(s, addr);
            && OthersAlike(s, r, addr) && TableOf(r.adjRibIn, addr) == TableOf(s.adjRibIn, addr) && r.dirty == s.dirty
            && r.peers[addr] == s.peers[addr].(state := Active, families := {}, peerGr := None)
  {}

  /** What becomes of a stored path when its peer changes its role. */
  predicate Remarked(before: Option<BgpPath>, after: Option<BgpPath>, isClient: bool) {
    (after.Some? <==> before.Some?) && (after.Some? ==> after.value == before.value.(fromClient := isClient))
  }

  /** A change of role marks every stored path of the peer anew and calls for a decision. */
  lemma RoleEffect(s: Speaker, addr: Address, on: bool, p: Prefix)
    ensures var r := SetClient(s, addr, on);
            if addr !in s.peers || s.peers[addr].config.isClient == on then r == s
            else
              && OthersAlike(s, r, addr) && r.dirty
              && r.peers[addr] == s.peers[addr].(config := s.peers[addr].config.(isClient := on))
              && Remarked(Look(TableOf(s.adjRibIn, addr), p), Look(TableOf(r.adjRibIn, addr), p), on)
  {
    SetTableLook(s, addr, Reroled(TableOf(s.adjRibIn, addr), on));
  }

  /** A network or a cluster identifier that changes anything calls for a decision. */
  lemma ConfigurationEffect(s: Speaker, p: Prefix, nextHop: Address, id: Address)
    ensures var r := Originate(s, p, nextHop); r == s.(originated := r.originated, dirty := true) && r.originated == s.originated[p := nextHop]
    ensures var r := WithdrawOriginated(s, p);
            if p in s.originated then r == s.(originated := r.originated, dirty := true) && r.originated == s.originated - {p} else r == s
    ensures var r := SetClusterId(s, id);
            if s.me.clusterId == Some(id) then r == s
            else r == s.(me := r.me, dirty := true) && r.me == s.me.(clusterId := Some(id))
  {}

  /** A setting changes what it names and nothing else. */
  lemma SettingEffect(s: Speaker, addr: Address, x: Setting)
    requires addr in s.peers
    ensures var r := Adjust(s, addr, x);
            var c, c' := s.peers[addr].config, r.peers[addr].config;
            && OthersAlike(s, r, addr) && r.adjRibIn == s.adjRibIn && r.dirty == s.dirty
            && r.peers[addr] == s.peers[addr].(config := c')
            && c' == c.(importPolicy := c'.importPolicy, exportPolicy := c'.exportPolicy, nextHopSelf := c'.nextHopSelf,
                        maxPrefixes := c'.maxPrefixes, enforceFirstAs := c'.enforceFirstAs)
            && c'.importPolicy == (if x.ImportPolicy? then x.policy else c.importPolicy)
            && c'.exportPolicy == (if x.ExportPolicy? then x.policy else c.exportPolicy)
            && c'.nextHopSelf == (if x.NextHopSelf? then x.on else c.nextHopSelf)
            && c'.maxPrefixes == (if x.MaxPrefixes? then x.limit else c.maxPrefixes)
            && c'.enforceFirstAs == (if x.EnforceFirstAs? then x.on else c.enforceFirstAs)
  {}
}
